/** BetController: how the two bet routes turn an HTTP request into a call
    of the bet service. `placeCrash` resolves the user (header id, else the
    token's e-mail), reads the round id, sanitises the amount, and reads
    the optional auto cash-out and slot; `cashout/:betId` checks the id
    and the multiplier. */
module BetRoutes {
  import opened Wrappers
  import opened Js
  import opened Store
  import opened Bets

  /** The request `placeCrash` builds for the service. */
  datatype PlaceRequest = PlaceRequest(roundId: Num, amountPesos: Num, autoCashout: Option<Num>, slot: Option<string>)

  /** `!Number.isFinite(n) || n <= 0` negated: a usable positive id. */
  predicate PositiveNumber(n: Num) {
    IsFinite(n) && !LessEq(n, 0.0)
  }

  /** `Number(headers['x-user-id'] ?? headers['X-User-Id'])` */
  function HeaderUserId(lower: JsValue, upper: JsValue): Num {
    ToNumber(Coalesce(lower, upper))
  }

  /** `where: { correo }` */
  function ByCorreo(email: string): Usuario -> bool {
    (x: Usuario) => x.correo == email
  }

  /** The user id: the header's when it is a positive number; otherwise
      the id of the user whose correo is the token's e-mail. */
  function ResolveUserId(d: Db, h: Num, email: Option<string>): (r: Result<Num>)
    ensures r.Ok? && !PositiveNumber(h) ==> IsInteger(r.value) && ToInt(r.value) in d.users
  {
    if PositiveNumber(h) then Ok(h)
    else if email.None? || email.value == "" then Err(BadRequest("X-User-Id requerido (o token con email)"))
    else
      match FindUser(d, ByCorreo(email.value))
      case None => Err(BadRequest("Usuario no existe"))
      case Some(id) => Ok(FromInt(id))
  }

  /** `Number(body?.roundId ?? body?.round_id)` */
  function RoundIdOf(body: JsValue): Num {
    ToNumber(Coalesce(Get(body, "roundId"), Get(body, "round_id")))
  }

  /** `body?.amountPesos ?? body?.amount ?? body?.monto ?? body?.bet` */
  function RawAmount(body: JsValue): JsValue {
    Coalesce(Coalesce(Coalesce(Get(body, "amountPesos"), Get(body, "amount")), Get(body, "monto")), Get(body, "bet"))
  }

  /** `replace(/[^\d-]/g, '')`: keep only digits and minus signs. */
  function KeepDigitsMinus(s: string): (r: string)
    ensures forall i :: 0 <= i < |r| ==> IsDigit(r[i]) || r[i] == '-'
    ensures |r| <= |s|
  {
    if s == [] then []
    else if IsDigit(s[0]) || s[0] == '-' then [s[0]] + KeepDigitsMinus(s[1..])
    else KeepDigitsMinus(s[1..])
  }

  /** `Math.trunc(Number(text.replace(/[^\d-]/g, '')))` */
  function SanitizeText(text: string): Num {
    Trunc(ParseNumber(KeepDigitsMinus(text)))
  }

  /** `Math.trunc(Number(String(raw).replace(/[^\d-]/g, '')))` */
  function SanitizeAmount(raw: JsValue): Num {
    SanitizeText(ToString(raw))
  }

  /** `autoCashout != null && autoCashout !== '' ? Number(autoCashout) : null` */
  function AutoCashoutOf(body: JsValue): Option<Num> {
    var v := Get(body, "autoCashout");
    if !Nullish(v) && v != JStr("") then Some(ToNumber(v)) else None
  }

  /** The slot trimmed when it is a string with something besides white
      space, otherwise null. */
  function SlotOf(body: JsValue): (r: Option<string>)
    ensures r.Some? ==> r.value != [] && r.value == Trim(r.value)
  {
    match Get(body, "slot")
    case JStr(s) =>
      if |Trim(s)| > 0 then
        assert Trim(Trim(s)) == Trim(s) by {
          var t := Trim(s);
          assert TrimStart(t) == t;
        }
        Some(Trim(s))
      else None
    case _ => None
  }

  /** The body checks of `placeCrash` after the user is known: round id,
      then amount. */
  function ParsePlaceBody(body: JsValue): (r: Result<PlaceRequest>)
    ensures r.Ok? ==> PositiveNumber(r.value.roundId) && IsInteger(r.value.amountPesos) && r.value.amountPesos.v > 0.0
  {
    var roundId := RoundIdOf(body);
    if !PositiveNumber(roundId) then Err(BadRequest("roundId inválido"))
    else
      var amount := SanitizeAmount(RawAmount(body));
      if !IsFinite(amount) || LessEq(amount, 0.0) then Err(BadRequest("amount inválido (pesos enteros)"))
      else Ok(PlaceRequest(roundId, amount, AutoCashoutOf(body), SlotOf(body)))
  }

  /** The service call with the numbers the controller passes: a
      fractional round id reaches Prisma's Int filter at the round lookup,
      a fractional user id at the wallet upsert after the round checks. */
  function PlaceDispatch(d: Db, userId: Num, q: PlaceRequest, now: int): (o: Outcome<Placement>)
    requires IsInteger(q.amountPesos) && q.amountPesos.v > 0.0
    ensures o.result.Err? ==> o.db == d
  {
    if !IsInteger(q.roundId) then Outcome(Err(InvalidInt), d)
    else if IsInteger(userId) then
      PlaceCrashBetSpec(d, ToInt(q.roundId), ToInt(userId), q.amountPesos, q.autoCashout, NormalizeSlot(q.slot), now)
    else if ToInt(q.roundId) !in d.rounds then Outcome(Err(NotFound("Ronda no existe")), d)
    else if d.rounds[ToInt(q.roundId)].estado != Run then
      Outcome(Err(BadRequest("La ronda no está abierta para apostar")), d)
    else Outcome(Err(InvalidInt), d)
  }

  /** `place(req, body)` */
  function PlaceSpec(d: Db, lower: JsValue, upper: JsValue, email: Option<string>, body: JsValue,
                     now: int): (o: Outcome<Placement>)
    ensures o.result.Err? ==> o.db == d
  {
    match ResolveUserId(d, HeaderUserId(lower, upper), email)
    case Err(e) => Outcome(Err(e), d)
    case Ok(userId) => PlaceForSpec(d, userId, body, now)
  }

  /** `placeCrash` once the user id is known: the body checks, then the
      service call. */
  function PlaceForSpec(d: Db, userId: Num, body: JsValue, now: int): (o: Outcome<Placement>)
    ensures o.result.Err? ==> o.db == d
  {
    match ParsePlaceBody(body)
    case Err(e) => Outcome(Err(e), d)
    case Ok(q) => PlaceDispatch(d, userId, q, now)
  }

  /** `cashout(req, body)`: the path id must be a positive number and
      `Number(body?.x ?? 0)` at least 1. */
  function CashoutRouteSpec(d: Db, betIdParam: string, body: JsValue, now: int): (o: Outcome<CashoutResult>)
    ensures o.result.Err? ==> o.db == d
  {
    var id := ParseNumber(betIdParam);
    if !PositiveNumber(id) then Outcome(Err(BadRequest("betId inválido")), d)
    else
      var x := ToNumber(Coalesce(Get(body, "x"), JNum(Fin(0.0))));
      if !GreaterEq(x, 1.0) then Outcome(Err(BadRequest("x inválido")), d)
      else if !IsInteger(id) then Outcome(Err(InvalidInt), d)
      else CashoutSpec(d, ToInt(id), x, now)
  }

  // ---------------------------------------------------------------------
  // Properties
  // ---------------------------------------------------------------------

  /** The header wins whenever it is a positive number, whether or not a
      user has that id; otherwise the e-mail decides, and without one the
      request is refused. */
  lemma ResolveUserIdCases(d: Db, h: Num, email: Option<string>)
    requires Valid(d)
    ensures var r := ResolveUserId(d, h, email);
      && (PositiveNumber(h) ==> r == Ok(h))
      && (!PositiveNumber(h) && (email.None? || email.value == "") ==>
            r == Err(BadRequest("X-User-Id requerido (o token con email)")))
      && (!PositiveNumber(h) && email.Some? && email.value != "" ==>
            (r.Ok? <==> exists id :: id in d.users && d.users[id].correo == email.value)
            && (r.Ok? ==> d.users[ToInt(r.value)].correo == email.value))
  {
  }

  /** The header is read as Number(text), from either spelling: the
      decimal text of an integer n is user n, usable exactly when n is
      positive ("7" is user 7, "0" falls back to the e-mail); a missing
      header is not usable. */
  lemma HeaderUserIdCases(n: int)
    ensures HeaderUserId(JStr(IntToString(n)), JUndefined) == FromInt(n)
    ensures HeaderUserId(JUndefined, JStr(IntToString(n))) == FromInt(n)
    ensures PositiveNumber(FromInt(n)) <==> n > 0
    ensures !PositiveNumber(HeaderUserId(JUndefined, JUndefined))
  {
    ParseIntToString(n);
  }

  /** The amount is the first of amountPesos, amount, monto and bet that is
      neither null nor undefined. */
  lemma RawAmountFirstPresent(body: JsValue)
    ensures var a, b, c, e := Get(body, "amountPesos"), Get(body, "amount"), Get(body, "monto"), Get(body, "bet");
      RawAmount(body) == (if !Nullish(a) then a else if !Nullish(b) then b else if !Nullish(c) then c else e)
  {
  }

  /** When what survives the filter is the decimal text of an integer,
      that integer is the amount. */
  lemma SanitizeToInt(text: string, n: int)
    requires KeepDigitsMinus(text) == IntToString(n)
    ensures SanitizeText(text) == FromInt(n)
  {
    ParseIntToString(n);
    TruncFixed(FromInt(n));
  }

  /** When what survives the filter is a run of digits, the amount is
      the number those digits denote. */
  lemma SanitizeDigits(text: string, digits: string)
    requires KeepDigitsMinus(text) == digits && digits != [] && AllDigits(digits)
    ensures SanitizeText(text) == Fin(DigitsValue(digits) as real)
  {
    TruncParseDigits(digits);
  }

  /** The sanitiser drops currency symbols and separators: a prefix
      without digits (such as "$"), digits, a separator (such as "." or
      ","), and digits read as the digits run together, so "$20,000" is
      20000 and "1.500" is 1500. */
  lemma SanitizeSeparated(prefix: string, whole: string, sep: char, rest: string)
    requires forall i :: 0 <= i < |prefix| ==> !IsDigit(prefix[i]) && prefix[i] != '-'
    requires whole != [] && AllDigits(whole) && AllDigits(rest)
    requires !IsDigit(sep) && sep != '-'
    ensures AllDigits(whole + rest)
    ensures SanitizeText(prefix + whole + [sep] + rest) == Fin(DigitsValue(whole + rest) as real)
  {
    var front := prefix + whole;
    var text := front + [sep] + rest;
    assert KeepDigitsMinus(front) == whole by {
      KeepSplit(prefix, whole);
      KeepNone(prefix);
      KeepAllDigits(whole);
      assert [] + whole == whole;
    }
    assert KeepDigitsMinus(front + [sep]) == whole by {
      KeepSplit(front, [sep]);
      KeepNone([sep]);
      assert whole + [] == whole;
    }
    assert KeepDigitsMinus(text) == whole + rest by {
      KeepSplit(front + [sep], rest);
      KeepAllDigits(rest);
    }
    SanitizeDigits(text, whole + rest);
  }

  /** A missing amount becomes the text "undefined", then "" and 0. */
  lemma SanitizeAmountMissing()
    ensures SanitizeAmount(JUndefined) == Fin(0.0)
  {
    KeepNone("undefined");
    assert ParseNumber("") == Fin(0.0);
  }

  /** A trailing minus makes the kept text unparsable: "5-" is NaN,
      which the service then refuses. */
  lemma SanitizeTrailingMinus(whole: string)
    requires whole != [] && AllDigits(whole)
    ensures SanitizeText(whole + "-") == NaN
  {
    var t := whole + "-";
    assert KeepDigitsMinus(t) == t by {
      KeepSplit(whole, "-");
      KeepAllDigits(whole);
      assert KeepDigitsMinus("-") == "-";
    }
    assert t[..|t| - 1] == whole;
    ParseTrailingMinus(t);
  }

  /** A positive integer amount below 10^21 passes the sanitiser
      unchanged. */
  lemma SanitizeAmountIntegers(n: int)
    requires 0 < n < ExponentFrom
    ensures SanitizeAmount(JNum(FromInt(n))) == FromInt(n)
  {
    NumToStringOfInt(n);
    var t := IntToString(n);
    assert ToString(JNum(FromInt(n))) == t;
    KeepAllDigits(t);
    SanitizeToInt(t, n);
  }

  /** What the filter keeps of String(n) from 10^21 on: the mantissa
      digits and then the exponent digits. */
  function LargeKept(n: nat): string
    requires n > 0
  {
    var s := NatToString(n);
    StripZeros(s) + NatToString(|s| - 1)
  }

  /** From 10^21 on String(n) is exponent form, and the filter keeps the
      mantissa digits run together with the exponent digits: 1e21 is
      "1e+21", kept as "121", and the amount is 121. */
  lemma SanitizeAmountLarge(n: nat)
    requires n >= ExponentFrom
    ensures LargeKept(n) != [] && AllDigits(LargeKept(n))
    ensures SanitizeAmount(JNum(FromInt(n))) == Fin(DigitsValue(LargeKept(n)) as real)
  {
    var text := LargeText(n);
    LargeKeptDigits(n);
    assert SanitizeAmount(JNum(FromInt(n))) == SanitizeText(text) by {
      NumToStringOfInt(n);
    }
    assert KeepDigitsMinus(text) == LargeKept(n) by {
      KeepLargeText(n);
    }
    SanitizeDigits(text, LargeKept(n));
  }

  lemma LargeKeptDigits(n: nat)
    requires n > 0
    ensures LargeKept(n) != [] && AllDigits(LargeKept(n))
  {
    var s := NatToString(n);
    StripZerosValue(s);
    AllDigitsJoin(StripZeros(s), NatToString(|s| - 1));
  }

  lemma KeepLargeText(n: nat)
    requires n > 0
    ensures KeepDigitsMinus(LargeText(n)) == LargeKept(n)
  {
    var s := NatToString(n);
    StripZerosValue(s);
    LargeTextSplit(n);
    KeepExponentForm(StripZeros(s), NatToString(|s| - 1));
  }

  lemma KeepExponentForm(ds: string, ex: string)
    requires ds != [] && AllDigits(ds) && AllDigits(ex)
    ensures KeepDigitsMinus(MantissaText(ds) + ['e'] + ("+" + ex)) == ds + ex
  {
    var mt := MantissaText(ds);
    assert KeepDigitsMinus(mt) == ds by {
      KeepMantissa(ds);
    }
    assert KeepDigitsMinus("+" + ex) == ex by {
      KeepSplit("+", ex);
      KeepNone("+");
      KeepAllDigits(ex);
      assert [] + ex == ex;
    }
    assert KeepDigitsMinus(mt + ['e']) == ds by {
      KeepSplit(mt, ['e']);
      KeepNone(['e']);
      assert ds + [] == ds;
    }
    KeepSplit(mt + ['e'], "+" + ex);
  }

  lemma KeepMantissa(ds: string)
    requires ds != [] && AllDigits(ds)
    ensures KeepDigitsMinus(MantissaText(ds)) == ds
  {
    KeepAllDigits(ds);
    if |ds| > 1 {
      KeepSplit([ds[0]] + ".", ds[1..]);
      KeepSplit([ds[0]], ".");
      KeepNone(".");
      KeepAllDigits([ds[0]]);
      KeepAllDigits(ds[1..]);
      assert [ds[0]] + [] + ds[1..] == ds;
    }
  }

  lemma AllDigitsJoin(a: string, b: string)
    requires AllDigits(a) && AllDigits(b)
    ensures AllDigits(a + b)
  {
    assert forall i :: |a| <= i < |a + b| ==> (a + b)[i] == b[i - |a|];
  }

  /** Below 10^-6 String(x) is exponent form too, and the filter keeps
      its minus sign between mantissa and exponent: 5e-7 is kept as "5-7",
      which is NaN, so such an amount is refused. */
  lemma SanitizeAmountSmall(d: nat, k: nat)
    requires 1 <= d <= 9 && 7 <= k <= MaxShift
    ensures SanitizeAmount(JNum(Fin(ShiftRight(d as real, k)))) == NaN
  {
    var ex := NatToString(k);
    assert SanitizeAmount(JNum(Fin(ShiftRight(d as real, k)))) == SanitizeText([DigitChar(d)] + "e-" + ex) by {
      SmallDigitText(d, k);
    }
    KeepSmallText(DigitChar(d), ex);
    ParseInnerMinus([DigitChar(d)], ex);
  }

  /** The filter drops the `e` and keeps the minus sign of a negative
      exponent. */
  lemma KeepSmallText(c: char, ex: string)
    requires IsDigit(c) && AllDigits(ex)
    ensures KeepDigitsMinus([c] + "e-" + ex) == [c] + "-" + ex
  {
    assert [c] + "e-" + ex == ([c] + ['e']) + ("-" + ex);
    assert KeepDigitsMinus([c] + ['e']) == [c] by {
      KeepSplit([c], ['e']);
      KeepNone(['e']);
      KeepAllDigits([c]);
      assert [c] + [] == [c];
    }
    assert KeepDigitsMinus("-" + ex) == "-" + ex by {
      KeepSplit("-", ex);
      KeepAllDigits(ex);
      assert KeepDigitsMinus("-") == "-";
    }
    KeepSplit([c] + ['e'], "-" + ex);
  }

  /** The amount 0.0000005 is written "5e-7" and refused as NaN. */
  lemma SanitizeAmountTiny()
    ensures SanitizeAmount(JNum(Fin(0.0000005))) == NaN
  {
    ShiftRightSeven(5.0);
    SanitizeAmountSmall(5, 7);
  }

  /** The filter works character by character. */
  lemma {:induction false} KeepSplit(a: string, b: string)
    ensures KeepDigitsMinus(a + b) == KeepDigitsMinus(a) + KeepDigitsMinus(b)
  {
    if a != [] {
      assert (a + b)[1..] == a[1..] + b;
      KeepSplit(a[1..], b);
    } else {
      assert a + b == b;
    }
  }

  /** Text without digits or minus signs is dropped entirely. */
  lemma {:induction false} KeepNone(s: string)
    requires forall i :: 0 <= i < |s| ==> !IsDigit(s[i]) && s[i] != '-'
    ensures KeepDigitsMinus(s) == []
  {
    if s != [] {
      KeepNone(s[1..]);
    }
  }

  lemma {:induction false} KeepAllDigits(s: string)
    requires AllDigits(s)
    ensures KeepDigitsMinus(s) == s
  {
    if s != [] {
      KeepAllDigits(s[1..]);
    }
  }

  /** An absent or empty autoCashout is null; anything else goes through
      Number(...). A blank slot is null and any other slot is trimmed. */
  lemma OptionalFields(body: JsValue)
    ensures AutoCashoutOf(body).None? <==> Nullish(Get(body, "autoCashout")) || Get(body, "autoCashout") == JStr("")
    ensures AutoCashoutOf(body).Some? ==> AutoCashoutOf(body).value == ToNumber(Get(body, "autoCashout"))
    ensures Get(body, "slot").JStr? && Trim(Get(body, "slot").s) != [] ==> SlotOf(body) == Some(Trim(Get(body, "slot").s))
    ensures !Get(body, "slot").JStr? ==> SlotOf(body).None?
  {
  }

  /** The body is refused for a round id that is not a positive number,
      then for an amount that does not sanitise to a positive number. */
  lemma ParsePlaceBodyRejects(body: JsValue)
    ensures var r := ParsePlaceBody(body);
      && (!PositiveNumber(RoundIdOf(body)) ==> r == Err(BadRequest("roundId inválido")))
      && (PositiveNumber(RoundIdOf(body)) && !(SanitizeAmount(RawAmount(body)).Fin? && SanitizeAmount(RawAmount(body)).v > 0.0) ==>
            r == Err(BadRequest("amount inválido (pesos enteros)")))
      && (r.Ok? <==> PositiveNumber(RoundIdOf(body)) && SanitizeAmount(RawAmount(body)).Fin?
                     && SanitizeAmount(RawAmount(body)).v > 0.0)
  {
  }

  /** With integral ids the route is exactly the service's placement with
      the controller's request. */
  lemma PlaceDelegates(d: Db, lower: JsValue, upper: JsValue, email: Option<string>, body: JsValue, now: int)
    requires ResolveUserId(d, HeaderUserId(lower, upper), email).Ok? && ParsePlaceBody(body).Ok?
    requires IsInteger(ResolveUserId(d, HeaderUserId(lower, upper), email).value) && IsInteger(ParsePlaceBody(body).value.roundId)
    ensures var u := ResolveUserId(d, HeaderUserId(lower, upper), email).value;
      var q := ParsePlaceBody(body).value;
      PlaceSpec(d, lower, upper, email, body, now)
        == PlaceCrashBetSpec(d, ToInt(q.roundId), ToInt(u), q.amountPesos, q.autoCashout, NormalizeSlot(q.slot), now)
  {
  }

  /** The cash-out route refuses a bad id, then an x below 1 or not a
      number, before calling the service. */
  lemma CashoutRouteRejects(d: Db, betIdParam: string, body: JsValue, now: int)
    ensures var o := CashoutRouteSpec(d, betIdParam, body, now);
      var x := ToNumber(Coalesce(Get(body, "x"), JNum(Fin(0.0))));
      && (!PositiveNumber(ParseNumber(betIdParam)) ==> o.result == Err(BadRequest("betId inválido")))
      && (PositiveNumber(ParseNumber(betIdParam)) && !GreaterEq(x, 1.0) ==> o.result == Err(BadRequest("x inválido")))
      && (IsInteger(ParseNumber(betIdParam)) && ParseNumber(betIdParam).v > 0.0 && GreaterEq(x, 1.0) ==>
            o == CashoutSpec(d, ToInt(ParseNumber(betIdParam)), x, now))
  {
  }

  /** A missing x is 0 and is refused. */
  lemma CashoutRouteMissingX(d: Db, betIdParam: string, now: int)
    requires PositiveNumber(ParseNumber(betIdParam))
    ensures CashoutRouteSpec(d, betIdParam, JObject(map[]), now).result == Err(BadRequest("x inválido"))
  {
  }

  class BetController {
    const db: Store
    const betSrv: BetService

    constructor(db: Store, betSrv: BetService)
      requires betSrv.db == db
      ensures this.db == db && this.betSrv == betSrv
    {
      this.db := db;
      this.betSrv := betSrv;
    }

    /** `place` */
    method Place(lower: JsValue, upper: JsValue, email: Option<string>, body: JsValue, now: int)
      returns (r: Result<Placement>)
      requires betSrv.db == db
      modifies db
      ensures var o := PlaceSpec(old(db.State()), lower, upper, email, body, now);
        r == o.result && db.State() == o.db
    {
      var userId := ResolveUser(HeaderUserId(lower, upper), email);
      if userId.Err? {
        return Err(userId.error);
      }
      r := PlaceFor(userId.value, body, now);
    }

    /** The user id `place` works with: the header's number `h` when it is
        positive, otherwise the id of the user with the token's e-mail. */
    method ResolveUser(h: Num, email: Option<string>) returns (r: Result<Num>)
      ensures r == ResolveUserId(db.State(), h, email)
    {
      if PositiveNumber(h) {
        return Ok(h);
      }
      if email.None? || email.value == "" {
        return Err(BadRequest("X-User-Id requerido (o token con email)"));
      }
      var user := db.FindFirst(ByCorreo(email.value));
      if user.None? {
        return Err(BadRequest("Usuario no existe"));
      }
      r := Ok(FromInt(user.value));
    }

    /** The rest of `place` once the user id is known. */
    method PlaceFor(userId: Num, body: JsValue, now: int) returns (r: Result<Placement>)
      requires betSrv.db == db
      modifies db
      ensures var o := PlaceForSpec(old(db.State()), userId, body, now);
        r == o.result && db.State() == o.db
    {
      var q := ParsePlaceBody(body);
      if q.Err? {
        return Err(q.error);
      }
      var req := q.value;
      if !IsInteger(req.roundId) {
        return Err(InvalidInt);
      }
      var roundId := ToInt(req.roundId);
      if !IsInteger(userId) {
        if roundId !in db.rounds {
          return Err(NotFound("Ronda no existe"));
        }
        if db.rounds[roundId].estado != Run {
          return Err(BadRequest("La ronda no está abierta para apostar"));
        }
        return Err(InvalidInt);
      }
      r := betSrv.PlaceCrashBet(roundId, ToInt(userId), req.amountPesos, req.autoCashout, req.slot, now);
    }

    /** `cashout` */
    method Cashout(betIdParam: string, body: JsValue, now: int) returns (r: Result<CashoutResult>)
      requires betSrv.db == db
      modifies db
      ensures var o := CashoutRouteSpec(old(db.State()), betIdParam, body, now);
        r == o.result && db.State() == o.db
    {
      var id := ParseNumber(betIdParam);
      if !PositiveNumber(id) {
        return Err(BadRequest("betId inválido"));
      }
      var x := ToNumber(Coalesce(Get(body, "x"), JNum(Fin(0.0))));
      if !GreaterEq(x, 1.0) {
        return Err(BadRequest("x inválido"));
      }
      if !IsInteger(id) {
        return Err(InvalidInt);
      }
      r := betSrv.Cashout(ToInt(id), x, now);
    }
  }
}
