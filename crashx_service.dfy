/** CrashXService: opening a DronX round with a committed server seed, and
    ending it, which writes the crash point and then settles the round's
    open bets through the bet service. The two steps of `endRound` are
    separate writes, not one transaction. */
module CrashX {
  import opened Wrappers
  import opened Js
  import opened Store
  import opened Bets

  /** What `startRound` returns: the id as text and the start time; the
      server seed is not part of it. */
  datatype RoundStarted = RoundStarted(roundId: string, startsAt: int)

  /** What `endRound` returns. */
  datatype RoundEnded = RoundEnded(juegoId: int, finalX: Num, settledCount: nat)

  /** What the `autoCashoutUpToX` stub returns. */
  datatype AutoCashout = AutoCashout(ok: bool, roundId: int, upToX: Num, countCashed: nat)

  /** The round row `startRound` creates: RUN, nonce 0, the game code as
      client seed, and the seed together with its hash. */
  function NewRound(startedBy: int, gameCode: Option<string>, serverSeed: string,
                    sha256: string -> string, now: int): Round {
    Round(Run, now, startedBy, sha256(serverSeed), Some(serverSeed), gameCode, Some(0), None)
  }

  /** `startRound({ gameCode, startedBy })` with the random seed, the hash
      function and the clock as parameters: startedBy must be a positive
      number naming an existing user; a fractional one reaches Prisma's
      Int filter and is rejected there. */
  function StartRoundSpec(d: Db, gameCode: Option<string>, startedBy: Num, serverSeed: string,
                          sha256: string -> string, now: int): (o: Outcome<RoundStarted>)
    ensures o.result.Err? ==> o.db == d
  {
    if !IsFinite(startedBy) || LessEq(startedBy, 0.0) then
      Outcome(Err(BadRequest("startedBy inválido")), d)
    else if !IsInteger(startedBy) then
      Outcome(Err(InvalidInt), d)
    else if ToInt(startedBy) !in d.users then
      Outcome(Err(BadRequest("startedBy no existe")), d)
    else
      var id := d.nextRoundId;
      Outcome(Ok(RoundStarted(IntToString(id), now)),
              d.(rounds := d.rounds[id := NewRound(ToInt(startedBy), gameCode, serverSeed, sha256, now)],
                 nextRoundId := id + 1))
  }

  /** The first write of `endRound`: CRASHED with finalX at two decimals. */
  function EndRoundUpdate(d: Db, j: int, finalX: Num): Db
    requires j in d.rounds
  {
    d.(rounds := d.rounds[j := CrashedRound(d.rounds[j], finalX)])
  }

  /** `endRound(juegoId, finalX)`: both arguments must be finite and
      positive and the round must exist; then the round is marked CRASHED
      whatever its state, and the settlement runs on `String(juegoId)`. A
      failing settlement would leave the first write in place. */
  function EndRoundSpec(d: Db, juegoId: Num, finalX: Num): (o: Outcome<RoundEnded>)
    ensures o.result.Err? && !(IsInteger(juegoId) && ToInt(juegoId) in d.rounds) ==> o.db == d
  {
    if !IsFinite(juegoId) || LessEq(juegoId, 0.0) then
      Outcome(Err(BadRequest("juegoId inválido")), d)
    else if !IsFinite(finalX) || LessEq(finalX, 0.0) then
      Outcome(Err(BadRequest("finalX inválido")), d)
    else if !IsInteger(juegoId) then
      Outcome(Err(InvalidInt), d)
    else if ToInt(juegoId) !in d.rounds then
      Outcome(Err(NotFound("Ronda no existe")), d)
    else
      var j := ToInt(juegoId);
      var d1 := EndRoundUpdate(d, j, finalX);
      var s := SettleRoundLossesSpec(d1, IntToString(j), finalX);
      match s.result
      case Err(e) => Outcome(Err(e), d1)
      case Ok(settle) => Outcome(Ok(RoundEnded(j, finalX, settle.settledCount)), s.db)
  }

  // ---------------------------------------------------------------------
  // Properties
  // ---------------------------------------------------------------------

  /** A round that passes the guards is ended and then settled. */
  lemma EndRoundOk(d: Db, juegoId: Num, finalX: Num)
    requires IsInteger(juegoId) && juegoId.v > 0.0 && finalX.Fin? && finalX.v > 0.0
    requires ToInt(juegoId) in d.rounds
    ensures var j := ToInt(juegoId);
      EndRoundSpec(d, juegoId, finalX)
        == Outcome(Ok(RoundEnded(j, finalX, |OpenBets(d.bets, j)|)), SettledDb(EndRoundUpdate(d, j, finalX), j, finalX))
  {
    var j := ToInt(juegoId);
    SettleByInt(EndRoundUpdate(d, j, finalX), j, finalX);
  }

  /** `startRound` refuses a startedBy that is not a positive integer
      naming a user, and then creates nothing. */
  lemma StartRoundRejects(d: Db, gameCode: Option<string>, startedBy: Num, serverSeed: string,
                          sha256: string -> string, now: int)
    ensures var o := StartRoundSpec(d, gameCode, startedBy, serverSeed, sha256, now);
      && (!IsFinite(startedBy) || LessEq(startedBy, 0.0) ==> o.result == Err(BadRequest("startedBy inválido")))
      && (o.result.Ok? <==> IsInteger(startedBy) && startedBy.v > 0.0 && ToInt(startedBy) in d.users)
      && (o.result.Err? ==> o.db.rounds == d.rounds && o.db.nextRoundId == d.nextRoundId)
  {
  }

  /** A new round is RUN, attributed to startedBy, with nonce 0, the game
      code (or nothing) as client seed, and a hash that is the hash of the
      stored seed; it gets a fresh id, returned as its decimal text. */
  lemma {:induction false} StartRoundEffects(d: Db, gameCode: Option<string>, startedBy: Num, serverSeed: string,
                          sha256: string -> string, now: int)
    requires Valid(d)
    requires StartRoundSpec(d, gameCode, startedBy, serverSeed, sha256, now).result.Ok?
    ensures var o := StartRoundSpec(d, gameCode, startedBy, serverSeed, sha256, now);
      var id := d.nextRoundId;
      && id !in d.rounds && id in o.db.rounds
      && o.db.rounds == d.rounds[id := o.db.rounds[id]]
      && ParseNumber(o.result.value.roundId) == FromInt(id)
      && o.result.value.startsAt == now
      && o.db.rounds[id].estado == Run && o.db.rounds[id].usuarioId == ToInt(startedBy)
      && o.db.rounds[id].nonce == Some(0) && o.db.rounds[id].clientSeed == gameCode && o.db.rounds[id].finalX.None?
      && o.db.rounds[id].serverSeed.Some?
      && o.db.rounds[id].serverSeedHash == sha256(o.db.rounds[id].serverSeed.value)
      && o.db.wallets == d.wallets && o.db.movements == d.movements && o.db.bets == d.bets
      && Valid(o.db)
  {
    ParseIntToString(d.nextRoundId);
  }

  /** The response does not depend on the server seed: two starts from the
      same database that differ only in the seed answer the same. */
  lemma StartRoundHidesSeed(d: Db, gameCode: Option<string>, startedBy: Num, seed1: string, seed2: string,
                            sha256: string -> string, now: int)
    ensures StartRoundSpec(d, gameCode, startedBy, seed1, sha256, now).result
         == StartRoundSpec(d, gameCode, startedBy, seed2, sha256, now).result
  {
  }

  /** `endRound` fails before writing for a juegoId or finalX that is not
      finite and positive, and for an unknown round; it succeeds for every
      existing round, CRASHED ones included. */
  lemma EndRoundRejects(d: Db, juegoId: Num, finalX: Num)
    ensures var o := EndRoundSpec(d, juegoId, finalX);
      && (!IsFinite(juegoId) || LessEq(juegoId, 0.0) ==> o == Outcome(Err(BadRequest("juegoId inválido")), d))
      && (IsFinite(juegoId) && !LessEq(juegoId, 0.0) && (!IsFinite(finalX) || LessEq(finalX, 0.0)) ==>
            o == Outcome(Err(BadRequest("finalX inválido")), d))
      && (o.result.Ok? <==> IsInteger(juegoId) && juegoId.v > 0.0 && finalX.Fin? && finalX.v > 0.0
                            && ToInt(juegoId) in d.rounds)
  {
    if IsInteger(juegoId) && juegoId.v > 0.0 && finalX.Fin? && finalX.v > 0.0 && ToInt(juegoId) in d.rounds {
      EndRoundOk(d, juegoId, finalX);
    }
  }

  /** An ended round is CRASHED with finalX at two decimals, exactly its
      PLACED bets are LOST with payout 0 and counted, and no balance or
      movement changes. */
  lemma EndRoundEffects(d: Db, juegoId: Num, finalX: Num)
    requires EndRoundSpec(d, juegoId, finalX).result.Ok?
    ensures var o := EndRoundSpec(d, juegoId, finalX);
      var j := ToInt(juegoId);
      && o.result.value == RoundEnded(j, finalX, |OpenBets(d.bets, j)|)
      && o.db.rounds == d.rounds[j := CrashedRound(d.rounds[j], finalX)]
      && o.db.rounds[j].estado == Crashed && o.db.rounds[j].finalX == Some(ToFixed2(finalX))
      && o.db.bets.Keys == d.bets.Keys
      && (forall id :: id in OpenBets(d.bets, j) ==> o.db.bets[id] == d.bets[id].(estado := Lost, payout := Some(0)))
      && (forall id :: id in d.bets && id !in OpenBets(d.bets, j) ==> o.db.bets[id] == d.bets[id])
      && OpenBets(o.db.bets, j) == {}
      && o.db.wallets == d.wallets && o.db.movements == d.movements
  {
    var j := ToInt(juegoId);
    EndRoundRejects(d, juegoId, finalX);
    EndRoundOk(d, juegoId, finalX);
    var d1 := EndRoundUpdate(d, j, finalX);
    SettledDbEffects(d1, j, finalX);
    assert d1.bets == d.bets && d1.wallets == d.wallets && d1.movements == d.movements;
    assert d1.rounds[j := CrashedRound(d1.rounds[j], finalX)] == d.rounds[j := CrashedRound(d.rounds[j], finalX)];
  }

  /** Ending a round that has no PLACED bet left, whatever its state,
      succeeds, settles nothing and only rewrites the round row. */
  lemma EndRoundSettled(d: Db, juegoId: Num, finalX: Num)
    requires IsInteger(juegoId) && juegoId.v > 0.0 && finalX.Fin? && finalX.v > 0.0
    requires ToInt(juegoId) in d.rounds && OpenBets(d.bets, ToInt(juegoId)) == {}
    ensures var o := EndRoundSpec(d, juegoId, finalX);
      && o.result == Ok(RoundEnded(ToInt(juegoId), finalX, 0))
      && o.db == d.(rounds := d.rounds[ToInt(juegoId) := CrashedRound(d.rounds[ToInt(juegoId)], finalX)])
  {
    var j := ToInt(juegoId);
    var d1 := EndRoundUpdate(d, j, finalX);
    EndRoundOk(d, juegoId, finalX);
    SettleBetsNone(d1.bets, j);
    assert d1.rounds[j := CrashedRound(d1.rounds[j], finalX)] == d1.rounds;
  }

  /** Ending an already CRASHED round again succeeds, overwrites finalX and
      settles nothing more. */
  lemma EndRoundReEnds(d: Db, juegoId: Num, finalX: Num, finalX2: Num)
    requires EndRoundSpec(d, juegoId, finalX).result.Ok?
    requires finalX2.Fin? && finalX2.v > 0.0
    ensures var d1 := EndRoundSpec(d, juegoId, finalX).db;
      var o2 := EndRoundSpec(d1, juegoId, finalX2);
      && ToInt(juegoId) in d1.rounds && d1.rounds[ToInt(juegoId)].estado == Crashed
      && o2.result == Ok(RoundEnded(ToInt(juegoId), finalX2, 0))
      && ToInt(juegoId) in o2.db.rounds && o2.db.rounds[ToInt(juegoId)].finalX == Some(ToFixed2(finalX2))
      && o2.db.bets == d1.bets
  {
    var j := ToInt(juegoId);
    var d1 := EndRoundSpec(d, juegoId, finalX).db;
    assert IsInteger(juegoId) && juegoId.v > 0.0 by {
      EndRoundRejects(d, juegoId, finalX);
    }
    assert j in d1.rounds && d1.rounds[j].estado == Crashed && OpenBets(d1.bets, j) == {} by {
      EndRoundEffects(d, juegoId, finalX);
    }
    EndRoundSettled(d1, juegoId, finalX2);
  }

  class CrashXService {
    const db: Store
    const betSrv: BetService

    constructor(db: Store, betSrv: BetService)
      requires betSrv.db == db
      ensures this.db == db && this.betSrv == betSrv
    {
      this.db := db;
      this.betSrv := betSrv;
    }

    /** `startRound` */
    method StartRound(gameCode: Option<string>, startedBy: Num, serverSeed: string,
                      sha256: string -> string, now: int) returns (r: Result<RoundStarted>)
      modifies db
      ensures var o := StartRoundSpec(old(db.State()), gameCode, startedBy, serverSeed, sha256, now);
        r == o.result && db.State() == o.db
    {
      if !IsFinite(startedBy) || LessEq(startedBy, 0.0) {
        return Err(BadRequest("startedBy inválido"));
      }
      if !IsInteger(startedBy) {
        return Err(InvalidInt);
      }
      var u := ToInt(startedBy);
      if u !in db.users {
        return Err(BadRequest("startedBy no existe"));
      }
      var id := db.nextRoundId;
      db.rounds := db.rounds[id := NewRound(u, gameCode, serverSeed, sha256, now)];
      db.nextRoundId := id + 1;
      r := Ok(RoundStarted(IntToString(id), now));
    }

    /** `endRound` */
    method EndRound(juegoId: Num, finalX: Num) returns (r: Result<RoundEnded>)
      requires betSrv.db == db
      modifies db
      ensures var o := EndRoundSpec(old(db.State()), juegoId, finalX);
        r == o.result && db.State() == o.db
    {
      if !IsFinite(juegoId) || LessEq(juegoId, 0.0) {
        return Err(BadRequest("juegoId inválido"));
      }
      if !IsFinite(finalX) || LessEq(finalX, 0.0) {
        return Err(BadRequest("finalX inválido"));
      }
      if !IsInteger(juegoId) {
        return Err(InvalidInt);
      }
      var j := ToInt(juegoId);
      if j !in db.rounds {
        return Err(NotFound("Ronda no existe"));
      }
      db.rounds := db.rounds[j := CrashedRound(db.rounds[j], finalX)];
      var settle := betSrv.SettleRoundLosses(IntToString(j), finalX);
      if settle.Err? {
        return Err(settle.error);
      }
      r := Ok(RoundEnded(j, finalX, settle.value.settledCount));
    }

    /** `autoCashoutUpToX`: a stub that cashes nothing out. */
    method AutoCashoutUpToX(roundId: int, x: Num) returns (r: AutoCashout)
      ensures r.ok && r.roundId == roundId && r.upToX == x && r.countCashed == 0
    {
      r := AutoCashout(true, roundId, x, 0);
    }
  }
}
