/** The database tables the backend services read and write, the posting
    rule every balance change goes through, and the ledger invariant that
    rule keeps.

    Amounts are integer pesos. Row ids are the autoincrement keys; a
    movement's id is its position in the append-only movement log plus
    one, so "newest first" is "highest id first". */
module Store {
  import opened Wrappers
  import opened Js

  // ---------------------------------------------------------------------
  // Rows
  // ---------------------------------------------------------------------

  datatype Usuario = Usuario(
    firebaseUid: Option<string>,
    nombreCompleto: string,
    usuario: string,
    correo: string,
    cedula: string,
    celular: Option<string>,
    moneda: string,
    estadoCuenta: string,
    fechaUltimoIngreso: Option<int>)

  datatype Wallet = Wallet(balance: int, version: int)

  /** MovimientoTipo */
  datatype MovementKind =
    | Recarga | Retiro | Apuesta | Premio | Ajuste | TransferenciaIn | TransferenciaOut

  /** The JSON metadata the services attach to a movement. */
  datatype Metadata =
    | NoMetadata
    | Wager(slot: string, autoCashout: Option<Num>)   // placeCrashBet
    | Prize(x: real, profit: int)                     // cashout
    | Reason(motivo: Option<string>)                  // adjust, completar
    | Custom(value: JsValue)                          // applyMovement's caller

  /** What the caller of a posting supplies; the snapshots are added by the
      posting itself. */
  datatype Entry = Entry(
    tipo: MovementKind,
    monto: int,
    referencia: Option<string>,
    juegoId: Option<int>,
    apuestaId: Option<int>,
    transferenciaId: Option<int>,
    metadata: Metadata)

  /** One immutable Movimiento row. */
  datatype Movement = Movement(
    id: int,
    usuarioId: int,
    saldoAntes: int,
    saldoDespues: int,
    entry: Entry)

  datatype BetState = Placed | Cashed | Lost

  /** One Apuesta row; `cashoutX` is the multiplier stored as a decimal. */
  datatype Bet = Bet(
    usuarioId: int,
    juegoId: int,
    monto: int,
    estado: BetState,
    referencia: Option<string>,
    payout: Option<int>,
    cashoutX: Option<real>,
    cashedAt: Option<int>)

  /** The DronXApuesta row attached to a bet. */
  datatype DronXBet = DronXBet(autoCashoutX: Option<Num>, slot: string)

  datatype RoundState = Run | Crashed

  /** One Juego row; `finalX` is the decimal written from `toFixed(2)`. */
  datatype Round = Round(
    estado: RoundState,
    fechaPartida: int,
    usuarioId: int,
    serverSeedHash: string,
    serverSeed: Option<string>,
    clientSeed: Option<string>,
    nonce: Option<int>,
    finalX: Option<Num>)

  datatype TransferState = Pendiente | Completada | Fallida

  datatype Transfer = Transfer(
    usuarioId: int,
    monto: int,
    motivo: Option<string>,
    estado: TransferState,
    completedAt: Option<int>)

  /** The whole database as one value: what a transaction snapshots and what
      a rollback restores. */
  datatype Db = Db(
    users: map<int, Usuario>,
    wallets: map<int, Wallet>,
    movements: seq<Movement>,
    bets: map<int, Bet>,
    dronx: map<int, DronXBet>,
    rounds: map<int, Round>,
    transfers: map<int, Transfer>,
    nextUserId: int,
    nextBetId: int,
    nextRoundId: int,
    nextTransferId: int)

  /** What one service transaction produces from a database: its result
      and the database after it (a failed transaction's database is the
      one it started from). */
  datatype Outcome<+T> = Outcome(result: Result<T>, db: Db)

  /** Prisma's error for an update or delete whose `where` matches no row. */
  const RecordNotFound := Thrown("Record to update not found.")

  /** Prisma's P2002 error: a write that would repeat a unique column
      (firebase_uid, usuario, correo). */
  const UniqueViolation := Thrown("Unique constraint failed")

  /** Prisma's error for an `Int` column or filter given a non-integer. */
  const InvalidInt := Thrown("Invalid value provided. Expected Int, provided Float.")

  /** `findFirst`/`findUnique` over the users: the lowest id in `lo..hi-1`
      whose row satisfies the filter (primary-key order; on a unique
      column it is the only one). */
  function FindUserFrom(users: map<int, Usuario>, p: Usuario -> bool, lo: int, hi: int): (r: Option<int>)
    ensures r.Some? ==> lo <= r.value < hi && r.value in users && p(users[r.value])
    ensures r.Some? ==> forall id :: lo <= id < r.value && id in users ==> !p(users[id])
    ensures r.None? ==> forall id :: lo <= id < hi && id in users ==> !p(users[id])
    decreases hi - lo
  {
    if lo >= hi then None
    else if lo in users && p(users[lo]) then Some(lo)
    else FindUserFrom(users, p, lo + 1, hi)
  }

  /** The user a lookup by a filter finds in a database whose user ids
      are the autoincrement keys `1..nextUserId-1`. */
  function FindUser(d: Db, p: Usuario -> bool): (r: Option<int>)
    ensures r.Some? ==> r.value in d.users && p(d.users[r.value])
    ensures Valid(d) && r.Some? ==> forall id :: id in d.users && p(d.users[id]) ==> r.value <= id
    ensures Valid(d) ==> (r.None? <==> forall id :: id in d.users ==> !p(d.users[id]))
  {
    FindUserFrom(d.users, p, 1, d.nextUserId)
  }

  /** A filter only one row satisfies finds that row. */
  lemma FindUserUnique(d: Db, p: Usuario -> bool, id: int)
    requires Valid(d) && id in d.users && p(d.users[id])
    requires forall k :: k in d.users && p(d.users[k]) ==> k == id
    ensures FindUser(d, p) == Some(id)
  {
  }

  // ---------------------------------------------------------------------
  // Invariants
  // ---------------------------------------------------------------------

  /** Autoincrement keys: every id is positive and below its counter. */
  predicate Valid(d: Db) {
    && 1 <= d.nextUserId && 1 <= d.nextBetId && 1 <= d.nextRoundId && 1 <= d.nextTransferId
    && (forall id :: id in d.users ==> 1 <= id < d.nextUserId)
    && (forall id :: id in d.bets ==> 1 <= id < d.nextBetId)
    && (forall id :: id in d.rounds ==> 1 <= id < d.nextRoundId)
    && (forall id :: id in d.transfers ==> 1 <= id < d.nextTransferId)
    && d.dronx.Keys <= d.bets.Keys
  }

  /** The sum of the amounts of a user's movements in a log. */
  function SumDeltas(ms: seq<Movement>, u: int): int {
    if ms == [] then 0
    else SumDeltas(ms[..|ms| - 1], u) + (if ms[|ms| - 1].usuarioId == u then ms[|ms| - 1].entry.monto else 0)
  }

  /** Movement k has the next id and snapshots that continue the user's
      history: saldoAntes is the sum of the user's earlier movements and
      saldoDespues = saldoAntes + monto. */
  predicate PostingOk(ms: seq<Movement>, k: int)
    requires 0 <= k < |ms|
  {
    && ms[k].id == k + 1
    && ms[k].saldoAntes == SumDeltas(ms[..k], ms[k].usuarioId)
    && ms[k].saldoDespues == ms[k].saldoAntes + ms[k].entry.monto
  }

  /** The ledger invariant: every movement is a correct posting for a user
      that has a wallet, and every wallet balance is the sum of that
      user's movements. */
  predicate Ledger(d: Db) {
    && (forall k :: 0 <= k < |d.movements| ==> PostingOk(d.movements, k))
    && (forall k :: 0 <= k < |d.movements| ==> d.movements[k].usuarioId in d.wallets)
    && (forall u :: u in d.wallets ==> d.wallets[u].balance == SumDeltas(d.movements, u))
  }

  /** No wallet is below zero. */
  predicate Solvent(d: Db) {
    forall u :: u in d.wallets ==> d.wallets[u].balance >= 0
  }

  /** The shape a bet has in each lifecycle state. */
  predicate BetShape(b: Bet) {
    match b.estado
    case Placed => b.payout.None? && b.cashoutX.None? && b.cashedAt.None?
    case Cashed => b.payout.Some? && b.cashoutX.Some? && b.cashedAt.Some?
    case Lost => b.payout == Some(0) && b.cashoutX.None?
  }

  predicate BetsShaped(d: Db) {
    forall id :: id in d.bets ==> BetShape(d.bets[id])
  }

  // ---------------------------------------------------------------------
  // The posting rule
  // ---------------------------------------------------------------------

  /** `wallet.upsert({ update: {}, create: { balance: 0 } })` */
  function Upserted(d: Db, u: int): (r: Db)
    ensures u in r.wallets
  {
    if u in d.wallets then d else d.(wallets := d.wallets[u := Wallet(0, 0)])
  }

  /** The posting rule: read saldoAntes, set the balance to saldoAntes +
      monto (bumping the optimistic-lock version when `bump`), and append
      one movement carrying both snapshots. */
  function Posted(d: Db, u: int, e: Entry, bump: bool): Db
    requires u in d.wallets
  {
    var w := d.wallets[u];
    var antes := w.balance;
    d.(wallets := d.wallets[u := Wallet(antes + e.monto, if bump then w.version + 1 else w.version)],
       movements := d.movements + [Movement(|d.movements| + 1, u, antes, antes + e.monto, e)])
  }

  lemma SumDeltasAppend(ms: seq<Movement>, m: Movement, u: int)
    ensures SumDeltas(ms + [m], u) == SumDeltas(ms, u) + (if m.usuarioId == u then m.entry.monto else 0)
  {
    assert (ms + [m])[..|ms|] == ms;
  }

  /** A user with no movements has sum 0. */
  lemma {:induction false} SumDeltasAbsent(ms: seq<Movement>, u: int)
    requires forall k :: 0 <= k < |ms| ==> ms[k].usuarioId != u
    ensures SumDeltas(ms, u) == 0
  {
    if ms != [] {
      SumDeltasAbsent(ms[..|ms| - 1], u);
    }
  }

  /** Creating a missing wallet at 0 keeps the ledger invariant and changes
      no existing balance. */
  lemma UpsertedLedger(d: Db, u: int)
    requires Ledger(d)
    ensures Ledger(Upserted(d, u))
    ensures u in Upserted(d, u).wallets
    ensures u in d.wallets ==> Upserted(d, u) == d
    ensures u !in d.wallets ==> Upserted(d, u).wallets[u] == Wallet(0, 0)
  {
    if u !in d.wallets {
      SumDeltasAbsent(d.movements, u);
    }
  }

  /** The ledger invariant reads only the wallets and the movements. */
  lemma LedgerOfBooks(d: Db, d': Db)
    requires Ledger(d) && d'.wallets == d.wallets && d'.movements == d.movements
    ensures Ledger(d')
  {
  }

  /** The posting rule keeps the ledger invariant; the new movement's
      saldoAntes is the balance read, its saldoDespues the balance written,
      and no other user's balance moves. */
  lemma PostedLedger(d: Db, u: int, e: Entry, bump: bool)
    requires Ledger(d) && u in d.wallets
    ensures Ledger(Posted(d, u, e, bump))
    ensures var d' := Posted(d, u, e, bump);
      && d'.wallets[u].balance == d.wallets[u].balance + e.monto
      && d'.wallets.Keys == d.wallets.Keys
      && (forall v :: v in d.wallets && v != u ==> d'.wallets[v] == d.wallets[v])
      && |d'.movements| == |d.movements| + 1
      && d'.movements[..|d.movements|] == d.movements
      && d'.movements[|d.movements|].saldoAntes == d.wallets[u].balance
      && d'.movements[|d.movements|].saldoDespues == d'.wallets[u].balance
  {
    var d' := Posted(d, u, e, bump);
    var ms := d.movements;
    var m := Movement(|ms| + 1, u, d.wallets[u].balance, d.wallets[u].balance + e.monto, e);
    assert d'.movements == ms + [m];
    forall k | 0 <= k < |d'.movements|
      ensures PostingOk(d'.movements, k)
    {
      assert d'.movements[..k] == if k < |ms| then ms[..k] else ms;
      if k < |ms| {
        assert PostingOk(ms, k);
      }
    }
    forall v | v in d'.wallets
      ensures d'.wallets[v].balance == SumDeltas(d'.movements, v)
    {
      SumDeltasAppend(ms, m, v);
    }
  }

  /** In the ledger, consecutive movements of one user chain: each
      saldoAntes is the previous saldoDespues. */
  lemma LedgerChain(d: Db, i: int, j: int)
    requires Ledger(d)
    requires 0 <= i < j < |d.movements|
    requires d.movements[i].usuarioId == d.movements[j].usuarioId
    requires forall k :: i < k < j ==> d.movements[k].usuarioId != d.movements[i].usuarioId
    ensures d.movements[j].saldoAntes == d.movements[i].saldoDespues
  {
    var ms := d.movements;
    var u := ms[i].usuarioId;
    assert PostingOk(ms, i) && PostingOk(ms, j);
    SumDeltasGap(ms, i, j, u);
    SumDeltasSplit(ms, i, u);
  }

  /** Summing up to j equals summing up to i+1 when no movement of u lies
      strictly between i and j. */
  lemma {:induction false} SumDeltasGap(ms: seq<Movement>, i: int, j: int, u: int)
    requires 0 <= i < j <= |ms|
    requires forall k :: i < k < j ==> ms[k].usuarioId != u
    ensures SumDeltas(ms[..j], u) == SumDeltas(ms[..i + 1], u)
  {
    if j > i + 1 {
      assert ms[..j][..j - 1] == ms[..j - 1];
      SumDeltasGap(ms, i, j - 1, u);
    }
  }

  lemma SumDeltasSplit(ms: seq<Movement>, i: int, u: int)
    requires 0 <= i < |ms|
    ensures SumDeltas(ms[..i + 1], u) == SumDeltas(ms[..i], u) + (if ms[i].usuarioId == u then ms[i].entry.monto else 0)
  {
    assert ms[..i + 1][..i] == ms[..i];
  }

  // ---------------------------------------------------------------------
  // Statements ("resumen"): a user's newest movements first
  // ---------------------------------------------------------------------

  /** The number of movements of a user. */
  function CountOf(ms: seq<Movement>, u: int): nat {
    if ms == [] then 0
    else CountOf(ms[..|ms| - 1], u) + (if ms[|ms| - 1].usuarioId == u then 1 else 0)
  }

  function Min(a: int, b: int): int {
    if a <= b then a else b
  }

  /** `movimiento.findMany({ where: { usuarioId }, orderBy: { createdAt:
      'desc' }, take })`, with creation order being log order. */
  function Resumen(ms: seq<Movement>, u: int, take: nat): (r: seq<Movement>)
    ensures |r| == Min(take, CountOf(ms, u))
    ensures forall i :: 0 <= i < |r| ==> r[i] in ms && r[i].usuarioId == u
  {
    if ms == [] || take == 0 then []
    else
      var last := ms[|ms| - 1];
      var rest := ms[..|ms| - 1];
      if last.usuarioId == u then [last] + Resumen(rest, u, take - 1)
      else Resumen(rest, u, take)
  }

  /** In a valid log the statement is strictly newest first. */
  lemma ResumenNewestFirst(d: Db, u: int, take: nat)
    requires forall k :: 0 <= k < |d.movements| ==> PostingOk(d.movements, k)
    ensures forall i, j :: 0 <= i < j < |Resumen(d.movements, u, take)| ==>
              Resumen(d.movements, u, take)[i].id > Resumen(d.movements, u, take)[j].id
  {
    forall k | 0 <= k < |d.movements|
      ensures d.movements[k].id == k + 1
    {
      assert PostingOk(d.movements, k);
    }
    ResumenIds(d.movements, u, take);
  }

  lemma {:induction false} ResumenIds(ms: seq<Movement>, u: int, take: nat)
    requires forall k :: 0 <= k < |ms| ==> ms[k].id == k + 1
    ensures forall i :: 0 <= i < |Resumen(ms, u, take)| ==> 1 <= Resumen(ms, u, take)[i].id <= |ms|
    ensures forall i, j :: 0 <= i < j < |Resumen(ms, u, take)| ==> Resumen(ms, u, take)[i].id > Resumen(ms, u, take)[j].id
  {
    if ms != [] && take != 0 {
      var rest := ms[..|ms| - 1];
      assert forall k :: 0 <= k < |rest| ==> rest[k].id == k + 1;
      var take' := if ms[|ms| - 1].usuarioId == u then take - 1 else take;
      ResumenIds(rest, u, take');
      var r' := Resumen(rest, u, take');
      if ms[|ms| - 1].usuarioId == u {
        var r := Resumen(ms, u, take);
        assert r == [ms[|ms| - 1]] + r';
        forall i, j | 0 <= i < j < |r|
          ensures r[i].id > r[j].id
        {
          assert r[j] == r'[j - 1];
          assert 1 <= r'[j - 1].id <= |rest|;
          if i > 0 {
            assert r[i] == r'[i - 1];
            assert r'[i - 1].id > r'[j - 1].id;
          } else {
            assert r[0] == ms[|ms| - 1];
            assert ms[|ms| - 1].id == |ms|;
          }
        }
      }
    }
  }

  /** Every movement of the user left out of the statement is older than
      every movement in it. */
  lemma {:induction false} ResumenKeepsNewest(ms: seq<Movement>, u: int, take: nat, k: int)
    requires forall i :: 0 <= i < |ms| ==> ms[i].id == i + 1
    requires 0 <= k < |ms| && ms[k].usuarioId == u && ms[k] !in Resumen(ms, u, take)
    ensures forall i :: 0 <= i < |Resumen(ms, u, take)| ==> Resumen(ms, u, take)[i].id > ms[k].id
  {
    var r := Resumen(ms, u, take);
    if ms != [] && take != 0 {
      var last := ms[|ms| - 1];
      var rest := ms[..|ms| - 1];
      assert forall i :: 0 <= i < |rest| ==> rest[i].id == i + 1;
      if k == |ms| - 1 {
        assert false;
      }
      assert rest[k] == ms[k];
      var take' := if last.usuarioId == u then take - 1 else take;
      ResumenKeepsNewest(rest, u, take', k);
      ResumenIds(rest, u, take');
      forall i | 0 <= i < |r|
        ensures r[i].id > ms[k].id
      {
        if last.usuarioId == u && i == 0 {
          assert r[0] == last;
        } else {
          assert r[i] == Resumen(rest, u, take')[if last.usuarioId == u then i - 1 else i];
        }
      }
    }
  }

  // ---------------------------------------------------------------------
  // The tables as mutable state
  // ---------------------------------------------------------------------

  /** The database the services share. Services update the fields through
      the methods below or by assigning them directly, as the Prisma
      calls they model do. */
  class Store {
    var users: map<int, Usuario>
    var wallets: map<int, Wallet>
    var movements: seq<Movement>
    var bets: map<int, Bet>
    var dronx: map<int, DronXBet>
    var rounds: map<int, Round>
    var transfers: map<int, Transfer>
    var nextUserId: int
    var nextBetId: int
    var nextRoundId: int
    var nextTransferId: int

    /** An empty database. */
    constructor()
      ensures State() == Db(map[], map[], [], map[], map[], map[], map[], 1, 1, 1, 1)
      ensures Valid(State()) && Ledger(State()) && BetsShaped(State())
    {
      users, wallets, movements := map[], map[], [];
      bets, dronx, rounds, transfers := map[], map[], map[], map[];
      nextUserId, nextBetId, nextRoundId, nextTransferId := 1, 1, 1, 1;
    }

    function State(): Db
      reads this
    {
      Db(users, wallets, movements, bets, dronx, rounds, transfers,
         nextUserId, nextBetId, nextRoundId, nextTransferId)
    }

    /** `usuario.findFirst({ where })`: the lowest id whose row matches. */
    method FindFirst(p: Usuario -> bool) returns (r: Option<int>)
      ensures r == FindUser(State(), p)
    {
      var i := 1;
      while i < nextUserId
        invariant FindUserFrom(users, p, i, nextUserId) == FindUser(State(), p)
        invariant i >= 1
        decreases nextUserId - i
      {
        if i in users && p(users[i]) {
          return Some(i);
        }
        i := i + 1;
      }
      return None;
    }

    /** A transaction rollback. */
    method Restore(s: Db)
      modifies this
      ensures State() == s
    {
      users, wallets, movements := s.users, s.wallets, s.movements;
      bets, dronx, rounds, transfers := s.bets, s.dronx, s.rounds, s.transfers;
      nextUserId, nextBetId, nextRoundId, nextTransferId := s.nextUserId, s.nextBetId, s.nextRoundId, s.nextTransferId;
    }

    /** `wallet.upsert` creating a missing wallet with balance 0. */
    method UpsertWallet(u: int)
      modifies this
      ensures State() == Upserted(old(State()), u)
      ensures u in wallets
    {
      if u !in wallets {
        wallets := wallets[u := Wallet(0, 0)];
      }
    }

    /** The balance write and the movement insert of one posting. */
    method Post(u: int, e: Entry, bump: bool)
      requires u in wallets
      modifies this
      ensures State() == Posted(old(State()), u, e, bump)
    {
      var w := wallets[u];
      var antes := w.balance;
      var despues := antes + e.monto;
      movements := movements + [Movement(|movements| + 1, u, antes, despues, e)];
      wallets := wallets[u := Wallet(despues, if bump then w.version + 1 else w.version)];
    }
  }
}
