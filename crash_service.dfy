/** CrashService: the older round service. `startRound` creates a RUN
    round with a placeholder hash and no checks; `endRound` accepts the
    round id as text or number, writes the crash point and settles. */
module Crash {
  import opened Wrappers
  import opened Js
  import opened Store
  import opened Bets

  /** The `string | number` round id parameter. */
  datatype RoundIdParam = IdText(s: string) | IdNumber(n: Num)

  /** What `startRound` returns. */
  datatype Started = Started(roundId: string, startedAt: int)

  /** What `endRound` returns. */
  datatype Ended = Ended(ok: bool, juegoId: int, finalX: Num, settledCount: nat)

  /** `typeof p === 'string' ? Number(p) : p` */
  function RoundIdNumber(p: RoundIdParam): Num {
    match p
    case IdText(s) => ParseNumber(s)
    case IdNumber(n) => n
  }

  /** `startRound(startedBy)`, the placeholder hash (a random UUID) and the
      clock being parameters: a RUN round under the next id. The service
      checks nothing; a startedBy that is not an integer (the route lets
      1.5 through) is refused by Prisma's Int column. */
  function StartRoundSpec(d: Db, startedBy: Num, placeholder: string, now: int): (o: Outcome<Started>)
    ensures o.result.Ok? <==> IsInteger(startedBy)
    ensures o.result.Err? ==> o == Outcome(Err(InvalidInt), d)
  {
    if !IsInteger(startedBy) then
      Outcome(Err(InvalidInt), d)
    else
      var id := d.nextRoundId;
      Outcome(Ok(Started(IntToString(id), now)),
              d.(rounds := d.rounds[id := Round(Run, now, ToInt(startedBy), placeholder, None, None, None, None)],
                 nextRoundId := id + 1))
  }

  /** `endRound(roundIdParam, finalX)`: the id must be a finite number and
      finalX must compare greater than 0 (so +Infinity passes); the update
      then needs an integer id of an existing round, and the settlement
      runs on `String(juegoId)` after it. */
  function EndRoundSpec(d: Db, p: RoundIdParam, finalX: Num): (o: Outcome<Ended>)
    ensures o.result.Err? && !(IsInteger(RoundIdNumber(p)) && ToInt(RoundIdNumber(p)) in d.rounds) ==> o.db == d
    ensures o.result.Ok? ==> IsInteger(RoundIdNumber(p)) && Greater(finalX, 0.0)
                             && ToInt(RoundIdNumber(p)) in d.rounds && ToInt(RoundIdNumber(p)) > 0
  {
    var juegoId := RoundIdNumber(p);
    if !IsFinite(juegoId) then
      Outcome(Err(BadRequest("roundId inválido")), d)
    else if !Greater(finalX, 0.0) then
      Outcome(Err(BadRequest("finalX inválido")), d)
    else if !IsInteger(juegoId) then
      Outcome(Err(InvalidInt), d)
    else if ToInt(juegoId) !in d.rounds then
      Outcome(Err(RecordNotFound), d)
    else
      var j := ToInt(juegoId);
      var d1 := d.(rounds := d.rounds[j := CrashedRound(d.rounds[j], finalX)]);
      var s := SettleRoundLossesSpec(d1, IntToString(j), finalX);
      ParseIntToString(j);
      match s.result
      case Err(e) => Outcome(Err(e), d1)
      case Ok(settle) => Outcome(Ok(Ended(true, j, finalX, settle.settledCount)), s.db)
  }

  // ---------------------------------------------------------------------
  // Properties
  // ---------------------------------------------------------------------

  /** For any integral startedBy, known user or not, `startRound` creates
      one RUN round attributed to it under a fresh id, with the placeholder
      as hash and no seed. */
  lemma {:induction false} StartRoundEffects(d: Db, startedBy: int, placeholder: string, now: int)
    requires Valid(d)
    ensures var o := StartRoundSpec(d, FromInt(startedBy), placeholder, now);
      var id := d.nextRoundId;
      && o.result.Ok?
      && id !in d.rounds
      && o.db.rounds == d.rounds[id := Round(Run, now, startedBy, placeholder, None, None, None, None)]
      && ParseNumber(o.result.value.roundId) == FromInt(id)
      && o.db.wallets == d.wallets && o.db.bets == d.bets && o.db.movements == d.movements
      && Valid(o.db)
  {
    assert ToInt(FromInt(startedBy)) == startedBy;
    ParseIntToString(d.nextRoundId);
  }

  /** A round id given as text is read with Number(...): padded decimal
      text names the same round as the number. */
  lemma RoundIdTextOrNumber(n: int)
    ensures RoundIdNumber(IdText(IntToString(n))) == RoundIdNumber(IdNumber(FromInt(n)))
  {
    ParseIntToString(n);
  }

  /** The settlement after the update cannot fail for an existing round
      with a positive id. */
  lemma SettleAfterUpdate(d1: Db, j: int, finalX: Num)
    requires j > 0 && j in d1.rounds
    ensures SettleRoundLossesSpec(d1, IntToString(j), finalX).result.Ok?
  {
    SettleByInt(d1, j, finalX);
  }

  /** An integer id of an existing round that passes the guards: the
      round is ended and then settled, or, for an id of 0 or below, the
      settlement refuses it after the round row was written. */
  lemma EndRoundOk(d: Db, p: RoundIdParam, finalX: Num)
    requires IsInteger(RoundIdNumber(p)) && Greater(finalX, 0.0) && ToInt(RoundIdNumber(p)) in d.rounds
    ensures var j := ToInt(RoundIdNumber(p));
      var d1 := d.(rounds := d.rounds[j := CrashedRound(d.rounds[j], finalX)]);
      && (j > 0 ==> EndRoundSpec(d, p, finalX)
                    == Outcome(Ok(Ended(true, j, finalX, |OpenBets(d.bets, j)|)), SettledDb(d1, j, finalX)))
      && (j <= 0 ==> EndRoundSpec(d, p, finalX) == Outcome(Err(BadRequest("roundId inválido")), d1))
  {
    var j := ToInt(RoundIdNumber(p));
    var d1 := d.(rounds := d.rounds[j := CrashedRound(d.rounds[j], finalX)]);
    if j > 0 {
      SettleByInt(d1, j, finalX);
    } else {
      SettleByNonPositive(d1, j, finalX);
    }
  }

  /** `endRound` fails before any write for a non-numeric id and for a
      finalX not above 0, NaN included; an existing round with a positive
      id is always ended. */
  lemma EndRoundRejects(d: Db, p: RoundIdParam, finalX: Num)
    ensures var o := EndRoundSpec(d, p, finalX);
      && (!IsFinite(RoundIdNumber(p)) ==> o == Outcome(Err(BadRequest("roundId inválido")), d))
      && (IsFinite(RoundIdNumber(p)) && !Greater(finalX, 0.0) ==> o == Outcome(Err(BadRequest("finalX inválido")), d))
      && ((IsInteger(RoundIdNumber(p)) && RoundIdNumber(p).v > 0.0 && Greater(finalX, 0.0)
           && ToInt(RoundIdNumber(p)) in d.rounds) ==> o.result.Ok?)
  {
    var n := RoundIdNumber(p);
    if IsInteger(n) && n.v > 0.0 && Greater(finalX, 0.0) && ToInt(n) in d.rounds {
      EndRoundOk(d, p, finalX);
    }
  }

  /** The guard is `!(finalX > 0)`, which lets +Infinity through: the
      round is ended and stored with an infinite crash point. */
  lemma EndRoundAcceptsInfinity(d: Db, j: int)
    requires j > 0 && j in d.rounds
    ensures EndRoundSpec(d, IdNumber(FromInt(j)), PosInf).result.Ok?
    ensures EndRoundSpec(d, IdNumber(FromInt(j)), PosInf).db.rounds[j].finalX == Some(PosInf)
  {
    assert ToInt(FromInt(j)) == j;
    EndRoundOk(d, IdNumber(FromInt(j)), PosInf);
    SettledDbEffects(d.(rounds := d.rounds[j := CrashedRound(d.rounds[j], PosInf)]), j, PosInf);
  }

  /** A successful `endRound` answers ok, marks the round CRASHED with
      finalX at two decimals, moves exactly its PLACED bets to LOST and
      reports how many it moved; no balance or movement changes. */
  lemma EndRoundEffects(d: Db, p: RoundIdParam, finalX: Num)
    requires EndRoundSpec(d, p, finalX).result.Ok?
    ensures var o := EndRoundSpec(d, p, finalX);
      var j := ToInt(RoundIdNumber(p));
      && o.result.value == Ended(true, j, finalX, |OpenBets(d.bets, j)|)
      && o.db.rounds == d.rounds[j := CrashedRound(d.rounds[j], finalX)]
      && o.db.rounds[j].estado == Crashed && o.db.rounds[j].finalX == Some(ToFixed2(finalX))
      && o.db.bets.Keys == d.bets.Keys
      && (forall id :: id in OpenBets(d.bets, j) ==> o.db.bets[id] == d.bets[id].(estado := Lost, payout := Some(0)))
      && (forall id :: id in d.bets && id !in OpenBets(d.bets, j) ==> o.db.bets[id] == d.bets[id])
      && o.db.wallets == d.wallets && o.db.movements == d.movements
  {
    var j := ToInt(RoundIdNumber(p));
    EndRoundOk(d, p, finalX);
    SettledDbEffects(d.(rounds := d.rounds[j := CrashedRound(d.rounds[j], finalX)]), j, finalX);
  }

  class CrashService {
    const db: Store
    const betService: BetService

    constructor(db: Store, betService: BetService)
      requires betService.db == db
      ensures this.db == db && this.betService == betService
    {
      this.db := db;
      this.betService := betService;
    }

    /** `startRound` */
    method StartRound(startedBy: Num, placeholder: string, now: int) returns (r: Result<Started>)
      modifies db
      ensures var o := StartRoundSpec(old(db.State()), startedBy, placeholder, now);
        r == o.result && db.State() == o.db
    {
      if !IsInteger(startedBy) {
        return Err(InvalidInt);
      }
      var id := db.nextRoundId;
      db.rounds := db.rounds[id := Round(Run, now, ToInt(startedBy), placeholder, None, None, None, None)];
      db.nextRoundId := id + 1;
      r := Ok(Started(IntToString(id), now));
    }

    /** `endRound` */
    method EndRound(p: RoundIdParam, finalX: Num) returns (r: Result<Ended>)
      requires betService.db == db
      modifies db
      ensures var o := EndRoundSpec(old(db.State()), p, finalX);
        r == o.result && db.State() == o.db
    {
      var juegoId := if p.IdText? then ParseNumber(p.s) else p.n;
      if !IsFinite(juegoId) {
        return Err(BadRequest("roundId inválido"));
      }
      if !Greater(finalX, 0.0) {
        return Err(BadRequest("finalX inválido"));
      }
      if !IsInteger(juegoId) {
        return Err(InvalidInt);
      }
      var j := ToInt(juegoId);
      if j !in db.rounds {
        return Err(RecordNotFound);
      }
      db.rounds := db.rounds[j := CrashedRound(db.rounds[j], finalX)];
      var settle := betService.SettleRoundLosses(IntToString(j), finalX);
      if settle.Err? {
        return Err(settle.error);
      }
      r := Ok(Ended(true, j, finalX, settle.value.settledCount));
    }
  }
}
