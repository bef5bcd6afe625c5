/** Money helpers shared by the services: the integer-pesos guard and the
    conversions between JavaScript numbers and Prisma decimals.

    A Prisma.Decimal (decimal.js) holds an exact value or NaN or an
    infinity, which is the shape of `Num`, so a decimal is a `Num` here. */
module Money {
  import opened Wrappers
  import opened Js

  type Decimal = Num

  /** The inputs `toDec` accepts: `number | string | bigint | Decimal`. */
  datatype DecLike =
    | DNumber(n: Num)
    | DString(s: string)
    | DBigint(i: int)
    | DDecimal(d: Decimal)

  /** `assertPesosEnteros(n, name)`: no error exactly for a finite integer. */
  function AssertPesosEnteros(n: Num, name: string): (r: Option<Exception>)
    ensures r.None? <==> IsInteger(n)
    ensures r.Some? ==> r.value == Thrown(name + " debe ser un entero en pesos")
  {
    if !IsFinite(n) || Trunc(n) != n then
      assert !IsInteger(n) by {
        if IsFinite(n) {
          TruncFixed(n);
        }
      }
      Some(Thrown(name + " debe ser un entero en pesos"))
    else
      assert IsInteger(n) by {
        TruncFixed(n);
      }
      None
  }

  /** `new Prisma.Decimal(text)`: an optional sign, then `Infinity`, `NaN`
      or a decimal literal; no white space is allowed. */
  function DecimalFromString(s: string): (r: Result<Decimal>)
    ensures r.Ok? && r.value.Fin? && s != [] && IsDigit(s[0]) ==> r.value == ParseNumber(s)
  {
    var neg := s != [] && s[0] == '-';
    var rest := if s != [] && (s[0] == '-' || s[0] == '+') then s[1..] else s;
    if rest == "NaN" then Ok(NaN)
    else
      var n := ParseUnsigned(rest);
      if n.NaN? then Err(Thrown("[DecimalError] Invalid argument: " + s))
      else
        assert s != [] && IsDigit(s[0]) && n.Fin? ==> ParseNumber(s) == n by {
          if s != [] && IsDigit(s[0]) && n.Fin? {
            UnsignedIsNumber(s);
          }
        }
        Ok(if neg then Negate(n) else n)
  }

  /** `toDec(v)` */
  function ToDec(v: DecLike): (r: Result<Decimal>)
    ensures v.DDecimal? ==> r == Ok(v.d)
    ensures v.DNumber? ==> (r.Ok? <==> IsInteger(v.n))
    ensures v.DNumber? && r.Ok? ==> r.value == v.n
    ensures v.DBigint? ==> r == Ok(FromInt(v.i))
  {
    match v
    case DDecimal(d) => Ok(d)
    case DBigint(i) => Ok(FromInt(i))
    case DNumber(n) =>
      (match AssertPesosEnteros(n, "Decimal(number)")
       case Some(e) => Err(e)
       case None => Ok(n))
    case DString(s) => DecimalFromString(s)
  }

  /** `decToNumber(v)`: null and undefined are 0; a decimal that is not a
      finite integer throws. */
  function DecToNumber(v: Option<DecLike>): (r: Result<int>)
    ensures v.None? ==> r == Ok(0)
    ensures v.Some? && ToDec(v.value).Err? ==> r == Err(ToDec(v.value).error)
    ensures v.Some? && ToDec(v.value).Ok? ==>
      (r.Ok? <==> IsInteger(ToDec(v.value).value))
    ensures v.Some? && r.Ok? ==> ToDec(v.value) == Ok(FromInt(r.value))
  {
    match v
    case None => Ok(0)
    case Some(x) =>
      match ToDec(x)
      case Err(e) => Err(e)
      case Ok(d) =>
        if !IsFinite(d) || Trunc(d) != d then
          assert !IsInteger(d) by {
            if IsFinite(d) {
              TruncFixed(d);
            }
          }
          Err(Thrown("Decimal a número no es entero en pesos"))
        else
          assert IsInteger(d) by {
            TruncFixed(d);
          }
          Ok(ToInt(d))
  }

  /** decToNumber(toDec(n)) == n for every integer number of pesos. */
  lemma DecToNumberToDec(n: int)
    ensures ToDec(DNumber(FromInt(n))) == Ok(FromInt(n))
    ensures DecToNumber(Some(DDecimal(ToDec(DNumber(FromInt(n))).value))) == Ok(n)
    ensures DecToNumber(Some(DNumber(FromInt(n)))) == Ok(n)
  {
    assert IsInteger(FromInt(n));
  }

  // ---------------------------------------------------------------------
  // decimal.js arithmetic
  // ---------------------------------------------------------------------

  function Add(a: Decimal, b: Decimal): (r: Decimal)
    ensures a.Fin? && b.Fin? ==> r == Fin(a.v + b.v)
    ensures r.Fin? ==> a.Fin? && b.Fin?
  {
    match (a, b)
    case (Fin(x), Fin(y)) => Fin(x + y)
    case (NaN, _) => NaN
    case (_, NaN) => NaN
    case (PosInf, NegInf) => NaN
    case (NegInf, PosInf) => NaN
    case (PosInf, _) => PosInf
    case (NegInf, _) => NegInf
    case (_, PosInf) => PosInf
    case (_, NegInf) => NegInf
  }

  function Sub(a: Decimal, b: Decimal): (r: Decimal)
    ensures a.Fin? && b.Fin? ==> r == Fin(a.v - b.v) && Add(r, b) == a
    ensures a.Fin? && b.Fin? ==> (r == Fin(0.0) <==> a == b)
  {
    Add(a, Negate(b))
  }

  function Sign(n: Decimal): int {
    match n
    case Fin(v) => if v > 0.0 then 1 else if v < 0.0 then -1 else 0
    case PosInf => 1
    case NegInf => -1
    case NaN => 0
  }

  function Infinity(sign: int): Decimal {
    if sign > 0 then PosInf else NegInf
  }

  function Mul(a: Decimal, b: Decimal): (r: Decimal)
    ensures a.Fin? && b.Fin? ==> r == Fin(a.v * b.v)
    ensures r.Fin? <==> a.Fin? && b.Fin?
  {
    if a.NaN? || b.NaN? then NaN
    else if a.Fin? && b.Fin? then Fin(a.v * b.v)
    else if Sign(a) == 0 || Sign(b) == 0 then NaN
    else Infinity(Sign(a) * Sign(b))
  }

  function Div(a: Decimal, b: Decimal): (r: Decimal)
    ensures a.Fin? && b.Fin? && b.v != 0.0 ==> r == Fin(a.v / b.v) && Mul(r, b) == a
    ensures a.Fin? && b == Fin(0.0) ==> !r.Fin?
  {
    if a.NaN? || b.NaN? then NaN
    else if a.Fin? && b.Fin? then
      if b.v != 0.0 then Fin(a.v / b.v)
      else if a.v == 0.0 then NaN
      else Infinity(Sign(a))
    else if !a.Fin? && !b.Fin? then NaN
    else if b.PosInf? || b.NegInf? then Fin(0.0)
    else Infinity(Sign(a) * (if b.v < 0.0 then -1 else 1))
  }

  /** The laws decimal.js arithmetic keeps on every operand, infinities
      and NaN included: addition and multiplication commute, zero is the
      additive identity, NaN absorbs, and an infinity minus itself is NaN. */
  lemma DecimalLaws(a: Decimal, b: Decimal)
    ensures Add(a, b) == Add(b, a) && Mul(a, b) == Mul(b, a)
    ensures Add(a, Fin(0.0)) == a
    ensures Add(a, NaN) == NaN && Mul(a, NaN) == NaN && Div(a, NaN) == NaN && Div(NaN, a) == NaN
    ensures Sub(a, a) == if a.Fin? then Fin(0.0) else NaN
  {
  }

  /** `addDec(a, b)` */
  function AddDec(a: DecLike, b: DecLike): (r: Result<Decimal>)
    ensures ToDec(a).Ok? && ToDec(b).Ok? ==> r == Ok(Add(ToDec(a).value, ToDec(b).value))
    ensures ToDec(a).Err? ==> r == Err(ToDec(a).error)
  {
    var x :- ToDec(a);
    var y :- ToDec(b);
    Ok(Add(x, y))
  }

  /** `subDec(a, b)` */
  function SubDec(a: DecLike, b: DecLike): (r: Result<Decimal>)
    ensures ToDec(a).Ok? && ToDec(b).Ok? ==> r == Ok(Sub(ToDec(a).value, ToDec(b).value))
    ensures ToDec(a).Err? ==> r == Err(ToDec(a).error)
  {
    var x :- ToDec(a);
    var y :- ToDec(b);
    Ok(Sub(x, y))
  }

  /** `mulDec(a, b)` */
  function MulDec(a: DecLike, b: DecLike): (r: Result<Decimal>)
    ensures ToDec(a).Ok? && ToDec(b).Ok? ==> r == Ok(Mul(ToDec(a).value, ToDec(b).value))
  {
    var x :- ToDec(a);
    var y :- ToDec(b);
    Ok(Mul(x, y))
  }

  /** `divDec(a, b)`: the divisor is converted first, and a zero divisor
      throws before the dividend is looked at. */
  function DivDec(a: DecLike, b: DecLike): (r: Result<Decimal>)
    ensures ToDec(b).Ok? && ToDec(b).value == Fin(0.0) ==> r == Err(Thrown("División por cero en Decimal"))
    ensures r.Ok? ==> ToDec(b).Ok? && ToDec(b).value != Fin(0.0) && ToDec(a).Ok?
    ensures r.Ok? ==> r.value == Div(ToDec(a).value, ToDec(b).value)
  {
    var divisor :- ToDec(b);
    if divisor == Fin(0.0) then Err(Thrown("División por cero en Decimal"))
    else
      var x :- ToDec(a);
      Ok(Div(x, divisor))
  }

  /** Integer pesos add and subtract exactly through the decimal helpers. */
  lemma PesosArithmetic(a: int, b: int)
    ensures AddDec(DNumber(FromInt(a)), DNumber(FromInt(b))) == Ok(FromInt(a + b))
    ensures SubDec(DNumber(FromInt(a)), DNumber(FromInt(b))) == Ok(FromInt(a - b))
  {
    assert IsInteger(FromInt(a)) && IsInteger(FromInt(b));
  }
}
