/** BetService: the crash-game bet lifecycle on top of the wallet ledger.
    A bet is PLACED by debiting the stake, CASHED by crediting the prize
    at a multiplier, or LOST when its round crashes. Every public method
    is one database transaction: on failure the database is restored to
    the state it had when the method started. */
module Bets {
  import opened Wrappers
  import opened Js
  import opened Store

  datatype Snapshots = Snapshots(saldoAntes: int, saldoDespues: int)

  /** The payload `placeCrashBet` returns. */
  datatype Placement = Placement(
    id: int,
    roundId: string,
    userId: int,
    amount: int,
    currency: string,
    autoCashout: Option<Num>,
    slot: string,
    placedAt: int)

  /** The payload `cashout` returns: `{ ok: true, already: true }` for a bet
      that is no longer PLACED, or the cash-out details. */
  datatype CashoutResult =
    | AlreadyResolved
    | CashedOut(apuestaId: int, x: real, prize: int, profit: int, currency: string, cashedAt: int)

  /** The payload `settleRoundLosses` returns. */
  datatype Settlement = Settlement(roundId: string, finalX: Num, settledCount: nat)

  // ---------------------------------------------------------------------
  // Slots and references
  // ---------------------------------------------------------------------

  /** `String(slot ?? 'A').trim().toUpperCase()` */
  function NormalizeSlot(slot: Option<string>): string {
    ToUpper(Trim(slot.GetOr("A")))
  }

  /** `${roundId}:${slot}`: the per-user, per-round, per-slot key used to
      reject a second bet in the same slot. */
  function BetReference(roundId: int, slot: string): string {
    IntToString(roundId) + ":" + slot
  }

  /** Normalising a normalised slot changes nothing. */
  lemma NormalizeSlotIdempotent(slot: Option<string>)
    ensures NormalizeSlot(Some(NormalizeSlot(slot))) == NormalizeSlot(slot)
  {
    var t := Trim(slot.GetOr("A"));
    UpperOfTrimmed(t);
    ToUpperTwice(t);
  }

  /** A missing slot normalises to 'A'. */
  lemma NormalizeSlotDefault()
    ensures NormalizeSlot(None) == "A"
  {
    TrimNoWhite("A");
    assert ToUpper("A")[0] == 'A';
  }

  /** Padding and case of a slot do not matter. */
  lemma NormalizeSlotPadded()
    ensures NormalizeSlot(Some(" l ")) == "L"
  {
    var t := " l ";
    assert IsWhite(t[0]) && !IsWhite(t[1..][0]);
    assert TrimStart(t) == TrimStart(t[1..]) == t[1..];
    var u := t[1..];
    assert IsWhite(u[1]) && !IsWhite(u[..1][0]);
    assert TrimEnd(u) == TrimEnd(u[..1]) == u[..1];
    assert Trim(t) == "l";
    assert ToUpper("l")[0] == 'L';
  }

  lemma IntToStringChars(n: int)
    ensures forall i :: 0 <= i < |IntToString(n)| ==> IsDigit(IntToString(n)[i]) || IntToString(n)[i] == '-'
  {
    var m: nat := if n < 0 then -n else n;
    var digits := NatToString(m);
    assert AllDigits(digits);
    if n < 0 {
      var s := "-" + digits;
      assert IntToString(n) == s;
      forall i | 0 <= i < |s|
        ensures IsDigit(s[i]) || s[i] == '-'
      {
        if i > 0 {
          assert s[i] == digits[i - 1];
        }
      }
    }
  }

  /** The first occurrence is the one with no earlier occurrence. */
  lemma {:induction false} IndexOfAt(t: string, c: char, k: nat)
    requires k < |t| && t[k] == c && c !in t[..k]
    ensures c in t && IndexOf(t, c) == k
  {
    if k > 0 {
      assert t[0] in t[..k];
      assert t[1..][..k - 1] == t[..k][1..];
      IndexOfAt(t[1..], c, k - 1);
    }
  }

  /** In `digits + ":" + slot` the first colon follows the digits. */
  lemma FirstColon(a: string, s: string)
    requires forall i :: 0 <= i < |a| ==> IsDigit(a[i]) || a[i] == '-'
    ensures ':' in a + ":" + s && IndexOf(a + ":" + s, ':') == |a|
  {
    var t := a + ":" + s;
    assert t[..|a|] == a;
    IndexOfAt(t, ':', |a|);
  }

  /** A reference determines its round and its slot, so two bets of one
      user in one round collide exactly when their normalised slots are
      equal. */
  lemma {:induction false} BetReferenceInjective(r1: int, s1: string, r2: int, s2: string)
    requires BetReference(r1, s1) == BetReference(r2, s2)
    ensures r1 == r2 && s1 == s2
  {
    var a, b := IntToString(r1), IntToString(r2);
    IntToStringChars(r1);
    IntToStringChars(r2);
    var ref := BetReference(r1, s1);
    assert ref == a + ":" + s1 && ref == b + ":" + s2;
    FirstColon(a, s1);
    FirstColon(b, s2);
    assert a == ref[..|a|] == b;
    IntToStringInjective(r1, r2);
    assert s1 == ref[|a| + 1..] == s2;
  }

  // ---------------------------------------------------------------------
  // Reads the transactions make
  // ---------------------------------------------------------------------

  /** The balance `getSaldoPesosTx` returns: the stored one, or the 0 its
      upsert creates. */
  function SaldoOf(d: Db, u: int): (s: int)
    ensures s == Upserted(d, u).wallets[u].balance
  {
    if u in d.wallets then d.wallets[u].balance else 0
  }

  /** `apuesta.findFirst({ where: { usuarioId, juegoId, referencia } })`
      finds a row, in whatever state it is. */
  predicate HasBet(d: Db, u: int, juegoId: int, ref: string) {
    exists id :: id in d.bets && d.bets[id].usuarioId == u && d.bets[id].juegoId == juegoId
                 && d.bets[id].referencia == Some(ref)
  }

  /** The ids of a round's PLACED bets. */
  function OpenBets(bets: map<int, Bet>, juegoId: int): set<int> {
    set id | id in bets && bets[id].juegoId == juegoId && bets[id].estado == Placed
  }

  /** `apuesta.updateMany({ where: { juegoId, estado: 'PLACED' }, data: {
      estado: 'LOST', payout: 0 } })` */
  function SettleBets(bets: map<int, Bet>, juegoId: int): (r: map<int, Bet>)
    ensures r.Keys == bets.Keys
    ensures forall id :: id in OpenBets(bets, juegoId) ==>
      r[id] == bets[id].(estado := Lost, payout := Some(0))
    ensures forall id :: id in bets && id !in OpenBets(bets, juegoId) ==> r[id] == bets[id]
  {
    map id | id in bets :: if id in OpenBets(bets, juegoId) then bets[id].(estado := Lost, payout := Some(0)) else bets[id]
  }

  /** With no PLACED bet in the round, settlement changes no bet. */
  lemma SettleBetsNone(bets: map<int, Bet>, juegoId: int)
    requires |OpenBets(bets, juegoId)| == 0
    ensures SettleBets(bets, juegoId) == bets
  {
    assert OpenBets(bets, juegoId) == {};
  }

  /** After settlement the round has no PLACED bet left (so settling again
      counts 0), other rounds' open bets are untouched, and every bet keeps
      the shape of its state. */
  lemma SettleBetsSettles(d: Db, juegoId: int)
    requires BetsShaped(d)
    ensures OpenBets(SettleBets(d.bets, juegoId), juegoId) == {}
    ensures forall j :: j != juegoId ==> OpenBets(SettleBets(d.bets, juegoId), j) == OpenBets(d.bets, j)
    ensures BetsShaped(d.(bets := SettleBets(d.bets, juegoId)))
  {
    var r := SettleBets(d.bets, juegoId);
    forall id | id in r
      ensures BetShape(r[id])
    {
      assert BetShape(d.bets[id]);
    }
  }

  /** `Math.floor(monto * x)`; for a stake of at least 0 and x >= 1 the
      prize is at least the stake. */
  function CashoutPrize(monto: int, x: real): (prize: int)
    requires x >= 1.0
    ensures prize as real <= monto as real * x < prize as real + 1.0
    ensures monto >= 0 ==> monto <= prize
  {
    if monto >= 0 then
      assert monto as real * x >= monto as real * 1.0;
      (monto as real * x).Floor
    else
      (monto as real * x).Floor
  }

  /** `Math.max(0, prize - monto)`: for a non-negative stake and x >= 1 the
      clamp never bites, so the profit is exactly prize - monto. */
  function CashoutProfit(monto: int, prize: int): (p: int)
    ensures p >= 0
    ensures prize >= monto ==> p == prize - monto
    ensures prize < monto ==> p == 0
  {
    if prize - monto > 0 then prize - monto else 0
  }

  // ---------------------------------------------------------------------
  // The transactions as functions of the database they start from
  // ---------------------------------------------------------------------

  /** `autoCashout ? new Prisma.Decimal(autoCashout) : null` */
  function AutoCashoutColumn(autoCashout: Option<Num>): Option<Num> {
    if autoCashout.Some? && NumTruthy(autoCashout.value) then autoCashout else None
  }

  /** The APUESTA movement of a placement. */
  function StakeEntry(roundId: int, id: int, stake: int, s: string, autoCashout: Option<Num>): Entry {
    Entry(Apuesta, -stake, Some(BetReference(roundId, s)), Some(roundId), Some(id), None, Wager(s, autoCashout))
  }

  /** The database after a placement of `stake` pesos in slot `s`: the bet
      row, its DronX row and the next bet id, then the APUESTA posting. */
  function PlacedDb(d: Db, roundId: int, userId: int, stake: int, s: string, autoCashout: Option<Num>): Db {
    var id := d.nextBetId;
    var d1 := Upserted(d, userId).(
      bets := d.bets[id := Bet(userId, roundId, stake, Placed, Some(BetReference(roundId, s)), None, None, None)],
      dronx := d.dronx[id := DronXBet(AutoCashoutColumn(autoCashout), s)],
      nextBetId := id + 1);
    Posted(d1, userId, StakeEntry(roundId, id, stake, s, autoCashout), false)
  }

  /** The wallet upsert before the balance read does not change what a
      placement writes. */
  lemma PlacedDbUpserted(d: Db, roundId: int, userId: int, stake: int, s: string, autoCashout: Option<Num>)
    ensures PlacedDb(Upserted(d, userId), roundId, userId, stake, s, autoCashout)
         == PlacedDb(d, roundId, userId, stake, s, autoCashout)
  {
  }

  lemma {:induction false} PlacedDbEffects(d: Db, roundId: int, userId: int, stake: int, s: string, autoCashout: Option<Num>)
    ensures var d' := PlacedDb(d, roundId, userId, stake, s, autoCashout);
      var id := d.nextBetId;
      var antes := SaldoOf(d, userId);
      && d'.bets == d.bets[id := Bet(userId, roundId, stake, Placed, Some(BetReference(roundId, s)), None, None, None)]
      && d'.dronx == d.dronx[id := DronXBet(AutoCashoutColumn(autoCashout), s)]
      && d'.movements == d.movements + [Movement(|d.movements| + 1, userId, antes, antes - stake,
                                                 StakeEntry(roundId, id, stake, s, autoCashout))]
      && userId in d'.wallets && d'.wallets[userId].balance == antes - stake
      && (forall v :: v != userId ==> (v in d'.wallets <==> v in d.wallets))
      && (forall v :: v != userId && v in d.wallets ==> d'.wallets[v] == d.wallets[v])
      && d'.rounds == d.rounds && d'.transfers == d.transfers && d'.users == d.users
  {
  }

  lemma PlacedDbKeeps(d: Db, roundId: int, userId: int, stake: int, s: string, autoCashout: Option<Num>)
    ensures var d' := PlacedDb(d, roundId, userId, stake, s, autoCashout);
      && (Ledger(d) ==> Ledger(d'))
      && (Valid(d) ==> Valid(d'))
      && (BetsShaped(d) ==> BetsShaped(d'))
  {
    if Ledger(d) {
      PlacedDbLedger(d, roundId, userId, stake, s, autoCashout);
    }
    if Valid(d) {
      PlacedDbValid(d, roundId, userId, stake, s, autoCashout);
    }
    if BetsShaped(d) {
      PlacedDbShaped(d, roundId, userId, stake, s, autoCashout);
    }
  }

  lemma {:induction false} PlacedDbLedger(d: Db, roundId: int, userId: int, stake: int, s: string, autoCashout: Option<Num>)
    requires Ledger(d)
    ensures Ledger(PlacedDb(d, roundId, userId, stake, s, autoCashout))
  {
    var id := d.nextBetId;
    var d1 := Upserted(d, userId).(
      bets := d.bets[id := Bet(userId, roundId, stake, Placed, Some(BetReference(roundId, s)), None, None, None)],
      dronx := d.dronx[id := DronXBet(AutoCashoutColumn(autoCashout), s)],
      nextBetId := id + 1);
    UpsertedLedger(d, userId);
    LedgerOfBooks(Upserted(d, userId), d1);
    PostedLedger(d1, userId, StakeEntry(roundId, id, stake, s, autoCashout), false);
  }

  lemma PlacedDbValid(d: Db, roundId: int, userId: int, stake: int, s: string, autoCashout: Option<Num>)
    requires Valid(d)
    ensures Valid(PlacedDb(d, roundId, userId, stake, s, autoCashout))
  {
  }

  lemma PlacedDbShaped(d: Db, roundId: int, userId: int, stake: int, s: string, autoCashout: Option<Num>)
    requires BetsShaped(d)
    ensures BetsShaped(PlacedDb(d, roundId, userId, stake, s, autoCashout))
  {
    var d' := PlacedDb(d, roundId, userId, stake, s, autoCashout);
    forall k | k in d'.bets
      ensures BetShape(d'.bets[k])
    {
      if k != d.nextBetId {
        assert BetShape(d.bets[k]);
      }
    }
  }

  /** `placeCrashBet`: the amount guard runs before the transaction; inside
      it the round lookup, the state check, the balance check and the
      duplicate check run in that order, then `toDec(amountPesos)` rejects
      a fractional stake when the bet row is written. */
  function PlaceCrashBetSpec(d: Db, roundId: int, userId: int, amount: Num, autoCashout: Option<Num>,
                             s: string, now: int): (o: Outcome<Placement>)
    ensures o.result.Err? ==> o.db == d
    ensures o.result.Ok? <==>
      && IsInteger(amount) && amount.v > 0.0
      && roundId in d.rounds && d.rounds[roundId].estado == Run
      && SaldoOf(d, userId) as real >= amount.v
      && !HasBet(d, userId, roundId, BetReference(roundId, s))
  {
    if !IsFinite(amount) || LessEq(amount, 0.0) then
      Outcome(Err(BadRequest("Monto inválido (pesos enteros)")), d)
    else if roundId !in d.rounds then
      Outcome(Err(NotFound("Ronda no existe")), d)
    else if d.rounds[roundId].estado != Run then
      Outcome(Err(BadRequest("La ronda no está abierta para apostar")), d)
    else if (SaldoOf(d, userId) as real) < amount.v then
      Outcome(Err(BadRequest("Saldo insuficiente")), d)
    else if HasBet(d, userId, roundId, BetReference(roundId, s)) then
      Outcome(Err(BadRequest("Ya tienes una apuesta activa en este slot")), d)
    else if !IsInteger(amount) then
      Outcome(Err(Thrown("Decimal(number) debe ser un entero en pesos")), d)
    else
      Outcome(Ok(Placement(d.nextBetId, IntToString(roundId), userId, ToInt(amount), "COP", autoCashout, s, now)),
              PlacedDb(d, roundId, userId, ToInt(amount), s, autoCashout))
  }

  /** The rejections of `placeCrashBet`, each with its message, in the
      order the source checks them. */
  lemma PlaceCrashBetRejects(d: Db, roundId: int, userId: int, amount: Num, autoCashout: Option<Num>,
                             s: string, now: int)
    ensures var r := PlaceCrashBetSpec(d, roundId, userId, amount, autoCashout, s, now).result;
      && (!IsFinite(amount) || amount.v <= 0.0 ==> r == Err(BadRequest("Monto inválido (pesos enteros)")))
      && (IsFinite(amount) && amount.v > 0.0 && roundId !in d.rounds ==> r == Err(NotFound("Ronda no existe")))
      && (IsFinite(amount) && amount.v > 0.0 && roundId in d.rounds && d.rounds[roundId].estado != Run ==>
            r == Err(BadRequest("La ronda no está abierta para apostar")))
      && (IsFinite(amount) && amount.v > 0.0 && roundId in d.rounds && d.rounds[roundId].estado == Run
          && (SaldoOf(d, userId) as real) < amount.v
          ==> r == Err(BadRequest("Saldo insuficiente")))
  {
  }

  /** A successful placement writes exactly one PLACED bet carrying the
      stake and the slot reference, one DronX row, and one APUESTA
      movement of minus the stake with both balance snapshots; the balance
      drops by exactly the stake and stays non-negative, and nothing else
      changes. */
  lemma PlaceCrashBetEffects(d: Db, roundId: int, userId: int, amount: Num, autoCashout: Option<Num>,
                             s: string, now: int)
    requires PlaceCrashBetSpec(d, roundId, userId, amount, autoCashout, s, now).result.Ok?
    ensures var o := PlaceCrashBetSpec(d, roundId, userId, amount, autoCashout, s, now);
      var stake := ToInt(amount);
      var id := d.nextBetId;
      var antes := SaldoOf(d, userId);
      && stake > 0 && FromInt(stake) == amount
      && o.result.value == Placement(id, IntToString(roundId), userId, stake, "COP", autoCashout, s, now)
      && o.db.bets == d.bets[id := Bet(userId, roundId, stake, Placed, Some(BetReference(roundId, s)), None, None, None)]
      && o.db.dronx == d.dronx[id := DronXBet(AutoCashoutColumn(autoCashout), s)]
      && o.db.movements == d.movements + [Movement(|d.movements| + 1, userId, antes, antes - stake,
                                                   StakeEntry(roundId, id, stake, s, autoCashout))]
      && userId in o.db.wallets && o.db.wallets[userId].balance == antes - stake >= 0
      && (forall v :: v != userId ==> (v in o.db.wallets <==> v in d.wallets))
      && (forall v :: v != userId && v in d.wallets ==> o.db.wallets[v] == d.wallets[v])
      && o.db.rounds == d.rounds && o.db.transfers == d.transfers && o.db.users == d.users
  {
    var o := PlaceCrashBetSpec(d, roundId, userId, amount, autoCashout, s, now);
    assert IsInteger(amount) && amount.v > 0.0 && SaldoOf(d, userId) as real >= amount.v;
    var stake := ToInt(amount);
    assert FromInt(stake) == amount;
    assert stake as real == amount.v;
    assert SaldoOf(d, userId) >= stake > 0;
    assert o.db == PlacedDb(d, roundId, userId, stake, s, autoCashout);
    PlacedDbEffects(d, roundId, userId, stake, s, autoCashout);
  }

  /** Placement keeps the ledger, the key invariants and the bet shapes. */
  lemma PlaceCrashBetKeeps(d: Db, roundId: int, userId: int, amount: Num, autoCashout: Option<Num>,
                           s: string, now: int)
    ensures var d' := PlaceCrashBetSpec(d, roundId, userId, amount, autoCashout, s, now).db;
      && (Ledger(d) ==> Ledger(d'))
      && (Valid(d) ==> Valid(d'))
      && (BetsShaped(d) ==> BetsShaped(d'))
  {
    if PlaceCrashBetSpec(d, roundId, userId, amount, autoCashout, s, now).result.Ok? {
      PlacedDbKeeps(d, roundId, userId, ToInt(amount), s, autoCashout);
    }
  }

  /** Duplicate detection ignores the state of the existing bet: once a
      user has a bet in a slot of a round, whatever became of it, a new
      bet in that slot fails with 'Ya tienes una apuesta activa en este
      slot' (the earlier checks passing). */
  lemma PlaceCrashBetSameSlot(d: Db, roundId: int, userId: int, amount: Num, autoCashout: Option<Num>,
                              s: string, now: int, id: int)
    requires id in d.bets && d.bets[id].usuarioId == userId && d.bets[id].juegoId == roundId
    requires d.bets[id].referencia == Some(BetReference(roundId, s))
    requires IsFinite(amount) && amount.v > 0.0 && roundId in d.rounds && d.rounds[roundId].estado == Run
    requires SaldoOf(d, userId) as real >= amount.v
    ensures PlaceCrashBetSpec(d, roundId, userId, amount, autoCashout, s, now).result
            == Err(BadRequest("Ya tienes una apuesta activa en este slot"))
  {
    assert HasBet(d, userId, roundId, BetReference(roundId, s));
  }

  /** A placement blocks its own slot of its round and no other: after it,
      the duplicate check for a different round or slot answers as it did
      before. */
  lemma PlaceCrashBetBlocksOnlyItsSlot(d: Db, roundId: int, userId: int, amount: Num, autoCashout: Option<Num>,
                                       s: string, now: int, roundId2: int, slot2: string)
    requires Valid(d)
    requires PlaceCrashBetSpec(d, roundId, userId, amount, autoCashout, s, now).result.Ok?
    ensures var d' := PlaceCrashBetSpec(d, roundId, userId, amount, autoCashout, s, now).db;
      && HasBet(d', userId, roundId, BetReference(roundId, s))
      && (roundId2 != roundId || slot2 != s ==>
            (HasBet(d', userId, roundId2, BetReference(roundId2, slot2)) <==> HasBet(d, userId, roundId2, BetReference(roundId2, slot2))))
  {
    var d' := PlaceCrashBetSpec(d, roundId, userId, amount, autoCashout, s, now).db;
    PlaceCrashBetEffects(d, roundId, userId, amount, autoCashout, s, now);
    var id := d.nextBetId;
    assert d'.bets[id].referencia == Some(BetReference(roundId, s));
    if roundId2 != roundId || slot2 != s {
      if BetReference(roundId2, slot2) == BetReference(roundId, s) {
        BetReferenceInjective(roundId2, slot2, roundId, s);
      }
      if HasBet(d', userId, roundId2, BetReference(roundId2, slot2)) {
        var k :| k in d'.bets && d'.bets[k].usuarioId == userId && d'.bets[k].juegoId == roundId2
                 && d'.bets[k].referencia == Some(BetReference(roundId2, slot2));
        if k == id {
          BetReferenceInjective(roundId2, slot2, roundId, s);
        }
        assert k in d.bets && d.bets[k] == d'.bets[k];
      }
      if HasBet(d, userId, roundId2, BetReference(roundId2, slot2)) {
        var k :| k in d.bets && d.bets[k].usuarioId == userId && d.bets[k].juegoId == roundId2
                 && d.bets[k].referencia == Some(BetReference(roundId2, slot2));
        assert k < d.nextBetId;
        assert k in d'.bets && d'.bets[k] == d.bets[k];
      }
    }
  }

  /** The bet row after a cash-out at x. */
  function CashedBet(b: Bet, prize: int, x: real, now: int): Bet {
    b.(estado := Cashed, payout := Some(prize), cashoutX := Some(x), cashedAt := Some(now))
  }

  /** The PREMIO movement of a cash-out. */
  function PrizeEntry(b: Bet, apuestaId: int, prize: int, x: real): Entry {
    Entry(Premio, prize, b.referencia, Some(b.juegoId), Some(apuestaId), None, Prize(x, CashoutProfit(b.monto, prize)))
  }

  /** `cashout(apuestaId, { x })`: x must be at least 1; a bet that is no
      longer PLACED is answered `{ ok: true, already: true }` with no write;
      otherwise the bet is marked CASHED and the prize is posted, all or
      nothing. An infinite x makes `toDec` reject the prize. */
  function CashoutSpec(d: Db, apuestaId: int, x: Num, now: int): (o: Outcome<CashoutResult>)
    ensures o.result.Err? ==> o.db == d
    ensures o.result == Ok(AlreadyResolved) ==> o.db == d
    ensures o.result.Ok? ==> GreaterEq(x, 1.0) && apuestaId in d.bets
    ensures o.result == Ok(AlreadyResolved) <==> GreaterEq(x, 1.0) && apuestaId in d.bets && d.bets[apuestaId].estado != Placed
  {
    if !GreaterEq(x, 1.0) then
      Outcome(Err(BadRequest("x inválido")), d)
    else if apuestaId !in d.bets then
      Outcome(Err(NotFound("Apuesta no encontrada")), d)
    else if d.bets[apuestaId].estado != Placed then
      Outcome(Ok(AlreadyResolved), d)
    else if !x.Fin? then
      Outcome(Err(Thrown("Decimal(number) debe ser un entero en pesos")), d)
    else
      var b := d.bets[apuestaId];
      var prize := CashoutPrize(b.monto, x.v);
      var d1 := d.(bets := d.bets[apuestaId := CashedBet(b, prize, x.v, now)]);
      if SaldoOf(d1, b.usuarioId) + prize < 0 then
        Outcome(Err(BadRequest("Saldo insuficiente")), d)
      else
        Outcome(Ok(CashedOut(apuestaId, x.v, prize, CashoutProfit(b.monto, prize), "COP", now)),
                Posted(Upserted(d1, b.usuarioId), b.usuarioId, PrizeEntry(b, apuestaId, prize, x.v), false))
  }

  /** A cash-out of a PLACED bet at a finite x >= 1 pays floor(stake * x):
      the bet becomes CASHED with that payout and multiplier, exactly one
      PREMIO movement of +prize is appended, and the balance rises by the
      prize. A non-negative stake always cashes out, with profit
      prize - stake. */
  lemma CashoutEffects(d: Db, apuestaId: int, x: Num, now: int)
    requires x.Fin? && x.v >= 1.0 && apuestaId in d.bets && d.bets[apuestaId].estado == Placed
    ensures var o := CashoutSpec(d, apuestaId, x, now);
      var b := d.bets[apuestaId];
      var prize := CashoutPrize(b.monto, x.v);
      var antes := SaldoOf(d, b.usuarioId);
      && (b.monto >= 0 && antes >= 0 ==> o.result.Ok?)
      && (o.result.Err? <==> antes + prize < 0)
      && (o.result.Ok? ==>
            && o.result.value == CashedOut(apuestaId, x.v, prize, CashoutProfit(b.monto, prize), "COP", now)
            && (b.monto >= 0 ==> o.result.value.profit == prize - b.monto)
            && o.db.bets == d.bets[apuestaId := CashedBet(b, prize, x.v, now)]
            && o.db.movements == d.movements + [Movement(|d.movements| + 1, b.usuarioId, antes, antes + prize,
                                                         PrizeEntry(b, apuestaId, prize, x.v))]
            && b.usuarioId in o.db.wallets && o.db.wallets[b.usuarioId].balance == antes + prize
            && (forall v :: v != b.usuarioId && v in d.wallets ==> v in o.db.wallets && o.db.wallets[v] == d.wallets[v])
            && o.db.rounds == d.rounds && o.db.dronx == d.dronx && o.db.transfers == d.transfers)
  {
  }

  /** Cash-out keeps the ledger, the key invariants and the bet shapes. */
  lemma CashoutKeeps(d: Db, apuestaId: int, x: Num, now: int)
    ensures var d' := CashoutSpec(d, apuestaId, x, now).db;
      && (Ledger(d) ==> Ledger(d'))
      && (Valid(d) ==> Valid(d'))
      && (BetsShaped(d) ==> BetsShaped(d'))
  {
    if x.Fin? && x.v >= 1.0 && apuestaId in d.bets && d.bets[apuestaId].estado == Placed {
      if Ledger(d) {
        CashoutLedger(d, apuestaId, x, now);
      }
      if Valid(d) {
        CashoutValid(d, apuestaId, x, now);
      }
      if BetsShaped(d) {
        CashoutShaped(d, apuestaId, x, now);
      }
    }
  }

  lemma CashoutLedger(d: Db, apuestaId: int, x: Num, now: int)
    requires Ledger(d)
    requires x.Fin? && x.v >= 1.0 && apuestaId in d.bets && d.bets[apuestaId].estado == Placed
    ensures Ledger(CashoutSpec(d, apuestaId, x, now).db)
  {
    var b := d.bets[apuestaId];
    var prize := CashoutPrize(b.monto, x.v);
    var d1 := d.(bets := d.bets[apuestaId := CashedBet(b, prize, x.v, now)]);
    LedgerOfBooks(d, d1);
    UpsertedLedger(d1, b.usuarioId);
    PostedLedger(Upserted(d1, b.usuarioId), b.usuarioId, PrizeEntry(b, apuestaId, prize, x.v), false);
  }

  lemma CashoutValid(d: Db, apuestaId: int, x: Num, now: int)
    requires Valid(d)
    requires x.Fin? && x.v >= 1.0 && apuestaId in d.bets && d.bets[apuestaId].estado == Placed
    ensures Valid(CashoutSpec(d, apuestaId, x, now).db)
  {
  }

  lemma CashoutShaped(d: Db, apuestaId: int, x: Num, now: int)
    requires BetsShaped(d)
    requires x.Fin? && x.v >= 1.0 && apuestaId in d.bets && d.bets[apuestaId].estado == Placed
    ensures BetsShaped(CashoutSpec(d, apuestaId, x, now).db)
  {
    var d' := CashoutSpec(d, apuestaId, x, now).db;
    forall k | k in d'.bets
      ensures BetShape(d'.bets[k])
    {
      if k != apuestaId {
        assert BetShape(d.bets[k]);
      }
    }
  }

  /** A bet is never cashed twice: a second cash-out of the same bet is
      answered as already resolved and changes nothing. */
  lemma CashoutTwice(d: Db, apuestaId: int, x: Num, now: int, x2: Num, now2: int)
    requires CashoutSpec(d, apuestaId, x, now).result.Ok?
    requires GreaterEq(x2, 1.0)
    ensures var d' := CashoutSpec(d, apuestaId, x, now).db;
      CashoutSpec(d', apuestaId, x2, now2) == Outcome(Ok(AlreadyResolved), d')
  {
    var o := CashoutSpec(d, apuestaId, x, now);
    if o.result.value.CashedOut? {
      CashoutEffects(d, apuestaId, x, now);
    }
  }

  /** The round row after `juego.update({ estado: 'CRASHED', finalX })`. */
  function CrashedRound(g: Round, finalX: Num): Round {
    g.(estado := Crashed, finalX := Some(ToFixed2(finalX)))
  }

  /** The database after a successful settlement of round `j`. */
  function SettledDb(d: Db, j: int, finalX: Num): Db
    requires j in d.rounds
  {
    d.(bets := SettleBets(d.bets, j), rounds := d.rounds[j := CrashedRound(d.rounds[j], finalX)])
  }

  /** `settleRoundLosses(roundId, finalX)`: the id must be a positive
      number (a fractional one reaches Prisma's Int filter and is
      rejected); the round's PLACED bets become LOST, then the round is
      marked CRASHED, and an unknown round aborts the whole transaction. */
  function SettleRoundLossesSpec(d: Db, roundId: string, finalX: Num): (o: Outcome<Settlement>)
    ensures o.result.Err? ==> o.db == d
    ensures o.result.Ok? <==> IsInteger(ParseNumber(roundId)) && ParseNumber(roundId).v > 0.0
                              && ToInt(ParseNumber(roundId)) in d.rounds
  {
    var n := ParseNumber(roundId);
    if !IsFinite(n) || LessEq(n, 0.0) then
      Outcome(Err(BadRequest("roundId inválido")), d)
    else if !IsInteger(n) then
      Outcome(Err(InvalidInt), d)
    else
      var j := ToInt(n);
      if j !in d.rounds then
        Outcome(Err(RecordNotFound), d)
      else
        Outcome(Ok(Settlement(roundId, finalX, |OpenBets(d.bets, j)|)), SettledDb(d, j, finalX))
  }

  /** Settlement moves exactly the round's PLACED bets to LOST with payout
      0, posts nothing, moves no balance, marks the round CRASHED with
      finalX at two decimals and counts the bets it settled. */
  lemma SettleRoundLossesEffects(d: Db, roundId: string, finalX: Num)
    requires SettleRoundLossesSpec(d, roundId, finalX).result.Ok?
    ensures var o := SettleRoundLossesSpec(d, roundId, finalX);
      var j := ToInt(ParseNumber(roundId));
      && o.result.value == Settlement(roundId, finalX, |OpenBets(d.bets, j)|)
      && o.db.bets.Keys == d.bets.Keys
      && (forall id :: id in OpenBets(d.bets, j) ==> o.db.bets[id] == d.bets[id].(estado := Lost, payout := Some(0)))
      && (forall id :: id in d.bets && id !in OpenBets(d.bets, j) ==> o.db.bets[id] == d.bets[id])
      && OpenBets(o.db.bets, j) == {}
      && o.db.wallets == d.wallets && o.db.movements == d.movements
      && o.db.rounds == d.rounds[j := CrashedRound(d.rounds[j], finalX)]
      && o.db.rounds[j].estado == Crashed && o.db.rounds[j].finalX == Some(ToFixed2(finalX))
  {
    SettledDbEffects(d, ToInt(ParseNumber(roundId)), finalX);
  }

  /** What a successful settlement of round `j` writes. */
  lemma SettledDbEffects(d: Db, j: int, finalX: Num)
    requires j in d.rounds
    ensures var d' := SettledDb(d, j, finalX);
      && d'.bets.Keys == d.bets.Keys
      && (forall id :: id in OpenBets(d.bets, j) ==> d'.bets[id] == d.bets[id].(estado := Lost, payout := Some(0)))
      && (forall id :: id in d.bets && id !in OpenBets(d.bets, j) ==> d'.bets[id] == d.bets[id])
      && OpenBets(d'.bets, j) == {}
      && d'.wallets == d.wallets && d'.movements == d.movements
      && d'.rounds == d.rounds[j := CrashedRound(d.rounds[j], finalX)]
      && d'.rounds[j].estado == Crashed && d'.rounds[j].finalX == Some(ToFixed2(finalX))
  {
    var r := SettleBets(d.bets, j);
    forall id | id in r
      ensures !(r[id].juegoId == j && r[id].estado == Placed)
    {
    }
  }

  /** Settling a round again settles nothing more and returns a count of 0. */
  lemma SettleRoundLossesTwice(d: Db, roundId: string, finalX: Num, finalX2: Num)
    requires SettleRoundLossesSpec(d, roundId, finalX).result.Ok?
    ensures var d' := SettleRoundLossesSpec(d, roundId, finalX).db;
      var o2 := SettleRoundLossesSpec(d', roundId, finalX2);
      o2.result.Ok? && o2.result.value.settledCount == 0 && o2.db.bets == d'.bets
  {
    var d' := SettleRoundLossesSpec(d, roundId, finalX).db;
    var j := ToInt(ParseNumber(roundId));
    SettleRoundLossesEffects(d, roundId, finalX);
    assert SettleBets(d'.bets, j) == d'.bets;
  }

  /** Settlement keeps the ledger, the key invariants and the bet shapes. */
  lemma SettleRoundLossesKeeps(d: Db, roundId: string, finalX: Num)
    ensures var d' := SettleRoundLossesSpec(d, roundId, finalX).db;
      && (Ledger(d) ==> Ledger(d'))
      && (Valid(d) ==> Valid(d'))
      && (BetsShaped(d) ==> BetsShaped(d'))
  {
    var o := SettleRoundLossesSpec(d, roundId, finalX);
    if o.result.Ok? {
      SettledDbKeeps(d, ToInt(ParseNumber(roundId)), finalX);
    }
  }

  /** Settlement of a positive integer round id written as decimal text,
      as both round services pass it. */
  lemma SettleByInt(d: Db, j: int, finalX: Num)
    requires j > 0 && j in d.rounds
    ensures SettleRoundLossesSpec(d, IntToString(j), finalX)
         == Outcome(Ok(Settlement(IntToString(j), finalX, |OpenBets(d.bets, j)|)), SettledDb(d, j, finalX))
  {
    ParseIntToString(j);
  }

  /** A round id of 0 or below, written as text, is refused. */
  lemma SettleByNonPositive(d: Db, j: int, finalX: Num)
    requires j <= 0
    ensures SettleRoundLossesSpec(d, IntToString(j), finalX) == Outcome(Err(BadRequest("roundId inválido")), d)
  {
    ParseIntToString(j);
  }

  lemma SettledDbKeeps(d: Db, j: int, finalX: Num)
    requires j in d.rounds
    ensures Ledger(d) ==> Ledger(SettledDb(d, j, finalX))
    ensures Valid(d) ==> Valid(SettledDb(d, j, finalX))
    ensures BetsShaped(d) ==> BetsShaped(SettledDb(d, j, finalX))
  {
    var d' := SettledDb(d, j, finalX);
    if Ledger(d) {
      LedgerOfBooks(d, d');
    }
    if Valid(d) {
      assert d'.bets.Keys == d.bets.Keys && d'.rounds.Keys == d.rounds.Keys;
    }
    if BetsShaped(d) {
      SettleBetsSettles(d, j);
    }
  }

  // ---------------------------------------------------------------------
  // The service
  // ---------------------------------------------------------------------

  class BetService {
    const db: Store

    constructor(db: Store)
      ensures this.db == db
    {
      this.db := db;
    }

    /** `getSaldoPesosTx`: upsert the wallet at 0 and read its balance. The
        source's "Wallet no existe" branch cannot be reached after the
        upsert. */
    method GetSaldoPesosTx(u: int) returns (saldo: int)
      modifies db
      ensures db.State() == Upserted(old(db.State()), u)
      ensures saldo == SaldoOf(old(db.State()), u)
    {
      db.UpsertWallet(u);
      saldo := db.wallets[u].balance;
    }

    /** `crearMovimientoTx`: the posting rule without a version bump. A
        negative result fails with 'Saldo insuficiente' after the upsert;
        the enclosing transaction rolls that back. */
    method CrearMovimientoTx(u: int, e: Entry) returns (r: Result<Snapshots>)
      modifies db
      ensures SaldoOf(old(db.State()), u) + e.monto < 0 ==>
        r == Err(BadRequest("Saldo insuficiente")) && db.State() == Upserted(old(db.State()), u)
      ensures SaldoOf(old(db.State()), u) + e.monto >= 0 ==>
        && r == Ok(Snapshots(SaldoOf(old(db.State()), u), SaldoOf(old(db.State()), u) + e.monto))
        && db.State() == Posted(Upserted(old(db.State()), u), u, e, false)
    {
      var saldoAntes := GetSaldoPesosTx(u);
      var saldoDespues := saldoAntes + e.monto;
      if saldoDespues < 0 {
        return Err(BadRequest("Saldo insuficiente"));
      }
      db.Post(u, e, false);
      r := Ok(Snapshots(saldoAntes, saldoDespues));
    }

    /** `placeCrashBet` */
    method PlaceCrashBet(roundId: int, userId: int, amount: Num, autoCashout: Option<Num>,
                         slot: Option<string>, now: int)
      returns (r: Result<Placement>)
      modifies db
      ensures r == PlaceCrashBetSpec(old(db.State()), roundId, userId, amount, autoCashout, NormalizeSlot(slot), now).result
      ensures db.State() == PlaceCrashBetSpec(old(db.State()), roundId, userId, amount, autoCashout, NormalizeSlot(slot), now).db
    {
      if !IsFinite(amount) || LessEq(amount, 0.0) {
        return Err(BadRequest("Monto inválido (pesos enteros)"));
      }
      if roundId !in db.rounds {
        return Err(NotFound("Ronda no existe"));
      }
      if db.rounds[roundId].estado != Run {
        return Err(BadRequest("La ronda no está abierta para apostar"));
      }
      r := PlaceInRound(roundId, userId, amount, autoCashout, NormalizeSlot(slot), now);
    }

    /** `placeCrashBet` past the amount and round checks: the balance, the
        slot and the stake's conversion, then the writes. */
    method PlaceInRound(roundId: int, userId: int, amount: Num, autoCashout: Option<Num>, slotNorm: string, now: int)
      returns (r: Result<Placement>)
      requires IsFinite(amount) && amount.v > 0.0
      requires roundId in db.rounds && db.rounds[roundId].estado == Run
      modifies db
      ensures r == PlaceCrashBetSpec(old(db.State()), roundId, userId, amount, autoCashout, slotNorm, now).result
      ensures db.State() == PlaceCrashBetSpec(old(db.State()), roundId, userId, amount, autoCashout, slotNorm, now).db
    {
      var ref := BetReference(roundId, slotNorm);
      var snap := db.State();
      var saldoActual := GetSaldoPesosTx(userId);
      if (saldoActual as real) < amount.v {
        db.Restore(snap);
        return Err(BadRequest("Saldo insuficiente"));
      }
      var dup := exists id :: id in db.bets && db.bets[id].usuarioId == userId && db.bets[id].juegoId == roundId
                              && db.bets[id].referencia == Some(ref);
      assert dup == HasBet(snap, userId, roundId, ref);
      if dup {
        db.Restore(snap);
        return Err(BadRequest("Ya tienes una apuesta activa en este slot"));
      }
      if !IsInteger(amount) {
        // toDec(amountPesos) throws before the row is created
        db.Restore(snap);
        return Err(Thrown("Decimal(number) debe ser un entero en pesos"));
      }
      var stake := ToInt(amount);
      var id := db.nextBetId;
      PlacedDbUpserted(snap, roundId, userId, stake, slotNorm, autoCashout);
      WritePlacement(roundId, userId, stake, slotNorm, autoCashout);
      r := Ok(Placement(id, IntToString(roundId), userId, stake, "COP", autoCashout, slotNorm, now));
    }

    /** The writes of a placement that passed every check: the bet row,
        its DronX row, and the stake posted through `crearMovimientoTx`. */
    method WritePlacement(roundId: int, userId: int, stake: int, s: string, autoCashout: Option<Num>)
      requires userId in db.wallets && db.wallets[userId].balance >= stake
      modifies db
      ensures db.State() == PlacedDb(old(db.State()), roundId, userId, stake, s, autoCashout)
    {
      var id := db.nextBetId;
      db.bets := db.bets[id := Bet(userId, roundId, stake, Placed, Some(BetReference(roundId, s)), None, None, None)];
      db.dronx := db.dronx[id := DronXBet(AutoCashoutColumn(autoCashout), s)];
      db.nextBetId := id + 1;
      var mov := CrearMovimientoTx(userId, StakeEntry(roundId, id, stake, s, autoCashout));
      if mov.Err? {
        // the stake is at most the balance, so the posting cannot fail
        assert false;
      }
    }

    /** `cashout` */
    method Cashout(apuestaId: int, x: Num, now: int) returns (r: Result<CashoutResult>)
      modifies db
      ensures r == CashoutSpec(old(db.State()), apuestaId, x, now).result
      ensures db.State() == CashoutSpec(old(db.State()), apuestaId, x, now).db
    {
      if !GreaterEq(x, 1.0) {
        return Err(BadRequest("x inválido"));
      }
      var snap := db.State();
      if apuestaId !in db.bets {
        return Err(NotFound("Apuesta no encontrada"));
      }
      var apuesta := db.bets[apuestaId];
      if apuesta.estado != Placed {
        return Ok(AlreadyResolved);
      }
      if !x.Fin? {
        // floor(monto * Infinity) is not a finite integer, and toDec
        // rejects it when the payout is written
        return Err(Thrown("Decimal(number) debe ser un entero en pesos"));
      }
      var prizePesos := CashoutPrize(apuesta.monto, x.v);
      var profitPesos := CashoutProfit(apuesta.monto, prizePesos);
      db.bets := db.bets[apuestaId := CashedBet(apuesta, prizePesos, x.v, now)];
      var mov := CrearMovimientoTx(apuesta.usuarioId, PrizeEntry(apuesta, apuestaId, prizePesos, x.v));
      if mov.Err? {
        db.Restore(snap);
        return Err(mov.error);
      }
      r := Ok(CashedOut(apuestaId, x.v, prizePesos, profitPesos, "COP", now));
    }

    /** `settleRoundLosses` */
    method SettleRoundLosses(roundId: string, finalX: Num) returns (r: Result<Settlement>)
      modifies db
      ensures r == SettleRoundLossesSpec(old(db.State()), roundId, finalX).result
      ensures db.State() == SettleRoundLossesSpec(old(db.State()), roundId, finalX).db
    {
      var juegoId := ParseNumber(roundId);
      if !IsFinite(juegoId) || LessEq(juegoId, 0.0) {
        return Err(BadRequest("roundId inválido"));
      }
      if !IsInteger(juegoId) {
        // Prisma rejects a Float in the Int filter of findMany
        return Err(InvalidInt);
      }
      var j := ToInt(juegoId);
      var settled := SettleTx(j, finalX);
      if settled.None? {
        return Err(RecordNotFound);
      }
      r := Ok(Settlement(roundId, finalX, settled.value));
    }

    /** The transaction of `settleRoundLosses` on round `j`: the PLACED
        bets become LOST, then the round is marked CRASHED; an unknown
        round rolls everything back. Returns how many bets were open. */
    method SettleTx(j: int, finalX: Num) returns (settled: Option<nat>)
      modifies db
      ensures j !in old(db.rounds) ==> settled.None? && db.State() == old(db.State())
      ensures j in old(db.rounds) ==>
        settled == Some(|OpenBets(old(db.bets), j)|) && db.State() == SettledDb(old(db.State()), j, finalX)
    {
      var snap := db.State();
      var openBets := OpenBets(db.bets, j);
      if |openBets| > 0 {
        db.bets := SettleBets(db.bets, j);
      } else {
        SettleBetsNone(snap.bets, j);
      }
      if j !in db.rounds {
        db.Restore(snap);
        return None;
      }
      db.rounds := db.rounds[j := CrashedRound(db.rounds[j], finalX)];
      settled := Some(|openBets|);
    }
  }
}
