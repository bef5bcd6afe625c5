/** LedgerService: balance and statement reads that never create a
    wallet, and `applyMovement`, the generic posting that refuses a zero
    delta and a missing wallet. */
module Ledgers {
  import opened Wrappers
  import opened Js
  import opened Store

  /** One line of a statement: the selected columns of a movement. */
  datatype StatementLine = StatementLine(id: int, tipo: MovementKind, montoCOP: int)

  /** What the three `getResumenBy…` lookups return. */
  datatype Statement = Statement(userId: int, saldo: int, movimientos: seq<StatementLine>)

  /** The statement length of the ledger lookups. */
  const StatementTake := 10

  const UserNotFound := NotFound("Usuario no encontrado")

  /** `getBalancePesos`: the stored balance, or 0 when the user has no
      wallet. */
  function GetBalancePesosSpec(d: Db, u: int): (saldo: int)
    ensures u in d.wallets ==> saldo == d.wallets[u].balance
    ensures u !in d.wallets ==> saldo == 0
  {
    if u in d.wallets then d.wallets[u].balance else 0
  }

  function Line(m: Movement): StatementLine {
    StatementLine(m.id, m.entry.tipo, m.entry.monto)
  }

  function Lines(ms: seq<Movement>): (r: seq<StatementLine>)
    ensures |r| == |ms| && forall i :: 0 <= i < |ms| ==> r[i] == Line(ms[i])
  {
    seq(|ms|, i requires 0 <= i < |ms| => Line(ms[i]))
  }

  /** The statement of an existing user: balance (0 without a wallet) and
      the ten newest movements. */
  function StatementOf(d: Db, id: int): Statement {
    Statement(id, GetBalancePesosSpec(d, id), Lines(Resumen(d.movements, id, StatementTake)))
  }

  /** The common tail of the lookups: NotFound when no user matched. */
  function StatementFor(d: Db, found: Option<int>): Result<Statement> {
    match found
    case None => Err(UserNotFound)
    case Some(id) => Ok(StatementOf(d, id))
  }

  /** `getResumenByFirebaseUid` */
  function ResumenByFirebaseUidSpec(d: Db, firebaseUid: string): Result<Statement> {
    StatementFor(d, FindUser(d, (x: Usuario) => x.firebaseUid == Some(firebaseUid)))
  }

  /** `getResumenByUserId` */
  function ResumenByUserIdSpec(d: Db, u: int): Result<Statement> {
    StatementFor(d, if u in d.users then Some(u) else None)
  }

  /** The identifier is a user id when Number(identifier) is an integer
      whose String(...) is the trimmed identifier. */
  predicate IsNumericId(identifier: string) {
    var n := ParseNumber(identifier);
    IsInteger(n) && NumToString(n) == Trim(identifier)
  }

  /** The user `getResumenByIdentifier` finds: by id for a numeric
      identifier, otherwise the first user whose correo or usuario is the
      trimmed identifier. */
  function IdentifierLookup(d: Db, identifier: string): Option<int> {
    if IsNumericId(identifier) then
      var id := ToInt(ParseNumber(identifier));
      if id in d.users then Some(id) else None
    else
      var t := Trim(identifier);
      FindUser(d, (x: Usuario) => x.correo == t || x.usuario == t)
  }

  /** `getResumenByIdentifier` */
  function ResumenByIdentifierSpec(d: Db, identifier: string): Result<Statement> {
    StatementFor(d, IdentifierLookup(d, identifier))
  }

  /** Number(text) only sees the trimmed text. */
  lemma ParseTrimmed(s: string)
    ensures ParseNumber(s) == ParseNumber(Trim(s))
  {
    TrimTwice(s);
  }

  /** An identifier counts as numeric exactly when, trimmed, it is
      String(n) of some integer n: plain decimal below 10^21 in magnitude,
      exponent form from there on. */
  lemma NumericIdCanonical(identifier: string)
    ensures IsNumericId(identifier) <==> exists n: int :: Trim(identifier) == IntegerText(n)
  {
    var t := Trim(identifier);
    if exists n: int :: t == IntegerText(n) {
      var n: int :| t == IntegerText(n);
      ParseIntegerText(n);
      ParseTrimmed(identifier);
      assert ParseNumber(identifier) == FromInt(n);
      assert ToInt(FromInt(n)) == n;
    }
    if IsNumericId(identifier) {
      assert t == IntegerText(ToInt(ParseNumber(identifier)));
    }
  }

  /** Padding does not matter: " 42 " is the id 42, and so is the padded
      exponent form of a user id from 10^21 on. */
  lemma NumericIdPadded(n: int)
    ensures IsNumericId(" " + IntegerText(n) + " ")
    ensures ToInt(ParseNumber(" " + IntegerText(n) + " ")) == n
  {
    var t := IntegerText(n);
    var p := " " + t + " ";
    assert Trim(p) == t by {
      IntegerTextNoWhite(n);
      IntegerTextHead(n);
      TrimPadded(t);
    }
    assert ParseNumber(p) == FromInt(n) by {
      ParseIntegerText(n);
      ParseTrimmed(p);
    }
    NumToStringOfInt(n);
  }

  /** Plain decimal digits name a user id exactly below 10^21 in
      magnitude: a longer digit string is read back in exponent form, so
      it is looked up as a correo or usuario. */
  lemma NumericIdPlainDigits(n: int)
    ensures IsNumericId(IntToString(n)) <==> -ExponentFrom < n < ExponentFrom
  {
    var t := IntToString(n);
    assert Trim(t) == t && ParseNumber(t) == FromInt(n) by {
      ParseIntToString(n);
      if n < 0 {
        SignedNotWhite('-', NatToString(-n));
        assert t == ['-'] + NatToString(-n);
      } else {
        DigitsNotWhite(t);
      }
      TrimNoWhite(t);
    }
    NumToStringOfInt(n);
    if n >= ExponentFrom || n <= -ExponentFrom {
      assert NumToString(FromInt(n)) != t by {
        IntegerTextHasE(n);
        IntToStringNoE(n);
      }
    }
  }

  /** A leading zero, a plus sign or an empty identifier makes the
      identifier a name rather than an id, although Number(...) of each is
      an integer. */
  lemma NumericIdRejects(digits: string)
    requires digits != [] && AllDigits(digits)
    ensures !IsNumericId("0" + digits) && IsInteger(ParseNumber("0" + digits))
    ensures !IsNumericId("+" + digits) && IsInteger(ParseNumber("+" + digits))
    ensures !IsNumericId("") && IsInteger(ParseNumber(""))
  {
    var zero, plus := "0" + digits, "+" + digits;
    assert plus == ['+'] + digits;
    assert AllDigits(zero) by {
      assert forall i :: 1 <= i < |zero| ==> zero[i] == digits[i - 1];
    }
    ParseDigitsText(zero);
    ParseSignedDigits('+', digits);
    DigitsNotWhite(zero);
    TrimNoWhite(zero);
    SignedNotWhite('+', digits);
    TrimNoWhite(plus);
    forall k: int
      ensures IntegerText(k) != zero && IntegerText(k) != plus
    {
      IntegerTextHead(k);
    }
    assert ParseNumber("") == Fin(0.0);
    assert IntToString(0) == "0";
  }

  /** A numeric identifier looks the user up by id and finds exactly the
      user with that id; a non-numeric one finds only a user whose correo
      or usuario is the trimmed identifier, and the lowest such id. */
  lemma IdentifierLookupFinds(d: Db, identifier: string)
    requires Valid(d)
    ensures var r := IdentifierLookup(d, identifier);
      var t := Trim(identifier);
      && (IsNumericId(identifier) ==>
            (r.Some? <==> ToInt(ParseNumber(identifier)) in d.users)
            && (r.Some? ==> r.value == ToInt(ParseNumber(identifier)) && IntegerText(r.value) == t))
      && (!IsNumericId(identifier) ==>
            (r.Some? ==> r.value in d.users && (d.users[r.value].correo == t || d.users[r.value].usuario == t)
                         && forall id :: id in d.users && id < r.value ==> d.users[id].correo != t && d.users[id].usuario != t)
            && (r.None? <==> forall id :: id in d.users ==> d.users[id].correo != t && d.users[id].usuario != t))
  {
  }

  /** Each lookup returns NotFound exactly when no user matches; a found
      user's statement has its id, its balance without creating a wallet,
      and at most ten of its own movements, newest first. */
  lemma StatementOfShape(d: Db, id: int)
    requires Ledger(d)
    ensures var s := StatementOf(d, id);
      && s.userId == id
      && s.saldo == (if id in d.wallets then SumDeltas(d.movements, id) else 0)
      && |s.movimientos| <= StatementTake
      && (forall i :: 0 <= i < |s.movimientos| ==>
            var k := s.movimientos[i].id - 1;
            0 <= k < |d.movements| && d.movements[k].usuarioId == id && Line(d.movements[k]) == s.movimientos[i])
      && (forall i, j :: 0 <= i < j < |s.movimientos| ==> s.movimientos[i].id > s.movimientos[j].id)
  {
    var r := Resumen(d.movements, id, StatementTake);
    var s := StatementOf(d, id);
    assert s.movimientos == Lines(r);
    ResumenNewestFirst(d, id, StatementTake);
    forall i, j | 0 <= i < j < |s.movimientos|
      ensures s.movimientos[i].id > s.movimientos[j].id
    {
      assert s.movimientos[i].id == r[i].id && s.movimientos[j].id == r[j].id;
    }
    forall i | 0 <= i < |s.movimientos|
      ensures var k := s.movimientos[i].id - 1;
        0 <= k < |d.movements| && d.movements[k].usuarioId == id && Line(d.movements[k]) == s.movimientos[i]
    {
      var k :| 0 <= k < |d.movements| && d.movements[k] == r[i];
      assert PostingOk(d.movements, k);
      assert Line(d.movements[k]) == s.movimientos[i];
    }
  }

  /** The user-id lookup fails exactly for an unknown id. */
  lemma ResumenByUserIdFinds(d: Db, u: int)
    ensures ResumenByUserIdSpec(d, u).Err? <==> u !in d.users
    ensures ResumenByUserIdSpec(d, u).Err? ==> ResumenByUserIdSpec(d, u).error == UserNotFound
    ensures ResumenByUserIdSpec(d, u).Ok? ==> ResumenByUserIdSpec(d, u).value == StatementOf(d, u)
  {
  }

  /** The firebase lookup fails exactly when no user has that uid. */
  lemma ResumenByFirebaseUidFinds(d: Db, firebaseUid: string)
    requires Valid(d)
    ensures ResumenByFirebaseUidSpec(d, firebaseUid).Err? <==>
              forall id :: id in d.users ==> d.users[id].firebaseUid != Some(firebaseUid)
    ensures ResumenByFirebaseUidSpec(d, firebaseUid).Ok? ==>
              var id := ResumenByFirebaseUidSpec(d, firebaseUid).value.userId;
              id in d.users && d.users[id].firebaseUid == Some(firebaseUid)
  {
  }

  // ---------------------------------------------------------------------
  // applyMovement
  // ---------------------------------------------------------------------

  /** `applyMovement`: the delta must be a nonzero finite integer; inside
      the transaction the wallet must already exist and must not go below
      zero; then the balance is written (the version is not touched) and
      the movement, with all the caller's columns, is returned. */
  function ApplyMovementSpec(d: Db, u: int, tipo: MovementKind, delta: Num, referencia: Option<string>,
                             juegoId: Option<int>, apuestaId: Option<int>, transferenciaId: Option<int>,
                             metadata: Metadata): (o: Outcome<Movement>)
    ensures o.result.Err? ==> o.db == d
  {
    match MovementRefusal(d, u, delta)
    case Some(e) => Outcome(Err(e), d)
    case None =>
      var d' := Posted(d, u, Entry(tipo, ToInt(delta), referencia, juegoId, apuestaId, transferenciaId, metadata), false);
      Outcome(Ok(d'.movements[|d.movements|]), d')
  }

  /** The checks of `applyMovement`, in order: the delta, the wallet, the
      resulting balance. */
  function MovementRefusal(d: Db, u: int, delta: Num): (r: Option<Exception>)
    ensures r.None? ==> IsInteger(delta) && u in d.wallets
  {
    if !IsInteger(delta) || ToInt(delta) == 0 then
      Some(BadRequest("deltaPesos inválido (debe ser entero en pesos y distinto de 0)"))
    else if u !in d.wallets then Some(BadRequest("Wallet no existe"))
    else if d.wallets[u].balance + ToInt(delta) < 0 then Some(BadRequest("Saldo insuficiente"))
    else None
  }

  /** The three rejections, each leaving the database as it was, and the
      condition for success. */
  lemma {:induction false} ApplyMovementRejects(d: Db, u: int, tipo: MovementKind, delta: Num, referencia: Option<string>,
                             juegoId: Option<int>, apuestaId: Option<int>, transferenciaId: Option<int>,
                             metadata: Metadata)
    ensures var o := ApplyMovementSpec(d, u, tipo, delta, referencia, juegoId, apuestaId, transferenciaId, metadata);
      && (!IsInteger(delta) || delta == Fin(0.0) ==>
            o.result == Err(BadRequest("deltaPesos inválido (debe ser entero en pesos y distinto de 0)")))
      && (IsInteger(delta) && delta != Fin(0.0) && u !in d.wallets ==>
            o.result == Err(BadRequest("Wallet no existe")))
      && (o.result.Ok? <==> IsInteger(delta) && delta != Fin(0.0) && u in d.wallets
                            && d.wallets[u].balance + ToInt(delta) >= 0)
  {
  }

  /** A successful posting returns the appended movement: the next id, the
      caller's columns, saldoAntes the balance read and saldoDespues the
      balance written; the version and the other wallets are unchanged,
      the ledger invariant holds and no wallet went negative. */
  lemma ApplyMovementEffects(d: Db, u: int, tipo: MovementKind, delta: Num, referencia: Option<string>,
                             juegoId: Option<int>, apuestaId: Option<int>, transferenciaId: Option<int>,
                             metadata: Metadata)
    requires Ledger(d)
    requires ApplyMovementSpec(d, u, tipo, delta, referencia, juegoId, apuestaId, transferenciaId, metadata).result.Ok?
    ensures var o := ApplyMovementSpec(d, u, tipo, delta, referencia, juegoId, apuestaId, transferenciaId, metadata);
      var m := o.result.value;
      && m == Movement(|d.movements| + 1, u, d.wallets[u].balance, d.wallets[u].balance + ToInt(delta),
                       Entry(tipo, ToInt(delta), referencia, juegoId, apuestaId, transferenciaId, metadata))
      && o.db.movements == d.movements + [m]
      && o.db.wallets == d.wallets[u := Wallet(m.saldoDespues, d.wallets[u].version)]
      && m.saldoDespues >= 0
      && Ledger(o.db)
      && (Solvent(d) ==> Solvent(o.db))
  {
    PostedLedger(d, u, Entry(tipo, ToInt(delta), referencia, juegoId, apuestaId, transferenciaId, metadata), false);
  }

  class LedgerService {
    const db: Store

    constructor(db: Store)
      ensures this.db == db
    {
      this.db := db;
    }

    /** `getBalancePesos` */
    method GetBalancePesos(u: int) returns (saldo: int)
      ensures saldo == GetBalancePesosSpec(db.State(), u)
    {
      saldo := if u in db.wallets then db.wallets[u].balance else 0;
    }

    method LookupStatement(found: Option<int>) returns (r: Result<Statement>)
      ensures r == StatementFor(db.State(), found)
    {
      if found.None? {
        return Err(UserNotFound);
      }
      var id := found.value;
      var saldo := GetBalancePesos(id);
      var movs := Resumen(db.movements, id, StatementTake);
      r := Ok(Statement(id, saldo, Lines(movs)));
    }

    /** `getResumenByFirebaseUid` */
    method ResumenByFirebaseUid(firebaseUid: string) returns (r: Result<Statement>)
      ensures r == ResumenByFirebaseUidSpec(db.State(), firebaseUid)
    {
      var found := db.FindFirst((x: Usuario) => x.firebaseUid == Some(firebaseUid));
      r := LookupStatement(found);
    }

    /** `getResumenByIdentifier` */
    method ResumenByIdentifier(identifier: string) returns (r: Result<Statement>)
      ensures r == ResumenByIdentifierSpec(db.State(), identifier)
    {
      var asNumber := ParseNumber(identifier);
      var found: Option<int>;
      if IsInteger(asNumber) && NumToString(asNumber) == Trim(identifier) {
        var id := ToInt(asNumber);
        found := if id in db.users then Some(id) else None;
      } else {
        var t := Trim(identifier);
        found := db.FindFirst((x: Usuario) => x.correo == t || x.usuario == t);
      }
      r := LookupStatement(found);
    }

    /** `getResumenByUserId` */
    method ResumenByUserId(u: int) returns (r: Result<Statement>)
      ensures r == ResumenByUserIdSpec(db.State(), u)
    {
      r := LookupStatement(if u in db.users then Some(u) else None);
    }

    /** `applyMovement` */
    method ApplyMovement(u: int, tipo: MovementKind, delta: Num, referencia: Option<string>,
                         juegoId: Option<int>, apuestaId: Option<int>, transferenciaId: Option<int>,
                         metadata: Metadata) returns (r: Result<Movement>)
      modifies db
      ensures var o := ApplyMovementSpec(old(db.State()), u, tipo, delta, referencia, juegoId, apuestaId,
                                         transferenciaId, metadata);
        r == o.result && db.State() == o.db
    {
      var refusal := MovementRefusal(db.State(), u, delta);
      if refusal.Some? {
        return Err(refusal.value);
      }
      var m := Append(u, Entry(tipo, ToInt(delta), referencia, juegoId, apuestaId, transferenciaId, metadata));
      r := Ok(m);
    }

    /** The movement row and the new balance, written together; the
        movement is returned. */
    method Append(u: int, e: Entry) returns (m: Movement)
      requires u in db.wallets
      modifies db
      ensures db.State() == Posted(old(db.State()), u, e, false)
      ensures m == db.movements[|old(db.movements)|]
    {
      var n := |db.movements|;
      db.Post(u, e, false);
      m := db.movements[n];
    }
  }
}
