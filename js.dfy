/** The parts of JavaScript's runtime semantics the modelled code relies on:
    numbers with their special values, dynamically typed values with
    truthiness and `String(...)`, and the string operations (trim, case
    mapping, prefix tests, `Number(text)`). */
module Js {

  // ---------------------------------------------------------------------
  // Numbers
  // ---------------------------------------------------------------------

  /** A JavaScript number. Finite values are kept exact (no rounding to
      binary64); NaN and the two infinities are explicit. */
  datatype Num = Fin(v: real) | NaN | PosInf | NegInf

  function FromInt(i: int): Num {
    Fin(i as real)
  }

  /** Number.isFinite */
  predicate IsFinite(n: Num) {
    n.Fin?
  }

  /** Number.isInteger (also what `Math.trunc(n) === n` decides for a finite n) */
  predicate IsInteger(n: Num) {
    n.Fin? && n.v.Floor as real == n.v
  }

  /** The integer held by an integral number. */
  function ToInt(n: Num): (i: int)
    requires IsInteger(n)
    ensures FromInt(i) == n
  {
    n.v.Floor
  }

  /** Math.trunc: rounds toward zero, leaves NaN and the infinities alone. */
  function Trunc(n: Num): (r: Num)
    ensures !n.Fin? ==> r == n
    ensures n.Fin? ==> IsInteger(r)
    ensures n.Fin? && n.v >= 0.0 ==> 0.0 <= r.v <= n.v < r.v + 1.0
    ensures n.Fin? && n.v < 0.0 ==> r.v - 1.0 < n.v <= r.v <= 0.0
  {
    match n
    case Fin(v) =>
      if v >= 0.0 then
        var f := v.Floor;
        assert f as real <= v < f as real + 1.0;
        Fin(f as real)
      else
        var f := (-v).Floor;
        assert f as real <= -v < f as real + 1.0;
        assert ((-f) as real).Floor == -f;
        Fin((-f) as real)
    case _ => n
  }

  /** Math.trunc(n) === n exactly for the integers (for finite n). */
  lemma TruncFixed(n: Num)
    requires n.Fin?
    ensures Trunc(n) == n <==> IsInteger(n)
  {
    if IsInteger(n) {
      var k := n.v.Floor;
      assert n.v == k as real;
      if n.v < 0.0 {
        assert -n.v == (-k) as real;
        assert (-n.v).Floor == -k;
      }
    }
  }

  /** `Number(x.toFixed(2))`: a finite value rounded to hundredths, halves
      away from zero; NaN and the infinities are written as themselves. */
  function ToFixed2(x: Num): (r: Num)
    ensures !x.Fin? ==> r == x
    ensures x.Fin? ==> r.Fin? && IsInteger(Fin(r.v * 100.0))
    ensures x.Fin? ==> (r.v - x.v) * 200.0 <= 1.0 && (x.v - r.v) * 200.0 <= 1.0
  {
    match x
    case Fin(v) =>
      var h := if v >= 0.0 then (v * 100.0 + 0.5).Floor else -((-v * 100.0 + 0.5).Floor);
      assert (h as real / 100.0) * 100.0 == h as real;
      Fin(h as real / 100.0)
    case _ => x
  }

  /** Rounding to hundredths twice is rounding once. */
  lemma ToFixed2Idempotent(x: Num)
    ensures ToFixed2(ToFixed2(x)) == ToFixed2(x)
  {
    if x.Fin? {
      var r := ToFixed2(x);
      var h := (r.v * 100.0).Floor;
      assert r.v * 100.0 == h as real;
      assert r.v == h as real / 100.0;
      if r.v >= 0.0 {
        assert (r.v * 100.0 + 0.5).Floor == h;
      } else {
        assert -r.v * 100.0 == (-h) as real;
        assert (-r.v * 100.0 + 0.5).Floor == -h;
      }
    }
  }

  /** Truthiness of a number: everything but 0 and NaN. */
  predicate NumTruthy(n: Num) {
    !(n.NaN? || n == Fin(0.0))
  }

  /** `-n` */
  function Negate(n: Num): Num {
    match n
    case Fin(v) => Fin(-v)
    case NaN => NaN
    case PosInf => NegInf
    case NegInf => PosInf
  }

  /** `n < k`, `n <= k`, `n > k`, `n >= k` against a finite bound; every
      comparison with NaN is false. */
  predicate Less(n: Num, k: real) {
    match n
    case Fin(v) => v < k
    case NegInf => true
    case _ => false
  }

  predicate LessEq(n: Num, k: real) {
    match n
    case Fin(v) => v <= k
    case NegInf => true
    case _ => false
  }

  predicate Greater(n: Num, k: real) {
    match n
    case Fin(v) => v > k
    case PosInf => true
    case _ => false
  }

  predicate GreaterEq(n: Num, k: real) {
    match n
    case Fin(v) => v >= k
    case PosInf => true
    case _ => false
  }

  // ---------------------------------------------------------------------
  // Characters and strings
  // ---------------------------------------------------------------------

  predicate IsDigit(c: char) {
    '0' <= c <= '9'
  }

  predicate IsLowerAscii(c: char) {
    'a' <= c <= 'z'
  }

  predicate IsUpperAscii(c: char) {
    'A' <= c <= 'Z'
  }

  predicate AllDigits(s: string) {
    forall i :: 0 <= i < |s| ==> IsDigit(s[i])
  }

  /** WhiteSpace and LineTerminator code points of ECMAScript: the set
      `String.prototype.trim` removes and the regular-expression class `\s`
      matches. */
  predicate IsWhite(c: char) {
    var k := c as int;
    k == 0x09 || k == 0x0A || k == 0x0B || k == 0x0C || k == 0x0D || k == 0x20
    || k == 0xA0 || k == 0x1680 || (0x2000 <= k <= 0x200A) || k == 0x2028
    || k == 0x2029 || k == 0x202F || k == 0x205F || k == 0x3000 || k == 0xFEFF
  }

  predicate AllWhite(s: string) {
    forall i :: 0 <= i < |s| ==> IsWhite(s[i])
  }

  function TrimStart(s: string): (r: string)
    ensures |r| <= |s| && r == s[|s| - |r|..]
    ensures AllWhite(s[..|s| - |r|])
    ensures r == [] || !IsWhite(r[0])
  {
    if s != [] && IsWhite(s[0]) then
      var r := TrimStart(s[1..]);
      assert s[..|s| - |r|] == [s[0]] + s[1..][..|s| - 1 - |r|];
      r
    else s
  }

  lemma WhiteSnoc(w: string, c: char)
    requires AllWhite(w) && IsWhite(c)
    ensures AllWhite(w + [c])
  {
    assert forall i :: 0 <= i < |w| ==> (w + [c])[i] == w[i];
  }

  function TrimEnd(s: string): (r: string)
    ensures |r| <= |s| && r == s[..|r|]
    ensures AllWhite(s[|r|..])
    ensures r == [] || !IsWhite(r[|r| - 1])
  {
    if s != [] && IsWhite(s[|s| - 1]) then
      var r := TrimEnd(s[..|s| - 1]);
      assert s[|r|..] == s[..|s| - 1][|r|..] + [s[|s| - 1]];
      WhiteSnoc(s[..|s| - 1][|r|..], s[|s| - 1]);
      r
    else s
  }

  /** String.prototype.trim */
  function Trim(s: string): (r: string)
    ensures r == [] || (!IsWhite(r[0]) && !IsWhite(r[|r| - 1]))
  {
    TrimEnd(TrimStart(s))
  }

  /** Trim is idempotent. */
  lemma TrimTwice(s: string)
    ensures Trim(Trim(s)) == Trim(s)
  {
    var t := Trim(s);
    if t != [] {
      assert TrimStart(t) == t;
      assert TrimEnd(t) == t;
    }
  }

  /** A string with no white space at either end is its own trim. */
  lemma TrimNoWhite(s: string)
    requires forall i :: 0 <= i < |s| ==> !IsWhite(s[i])
    ensures Trim(s) == s
  {
    if s != [] {
      assert !IsWhite(s[0]);
      assert TrimStart(s) == s;
      assert !IsWhite(s[|s| - 1]);
    }
  }

  /** Trimming keeps a first character that is not white space. */
  lemma TrimKeepsFirst(s: string)
    requires s != [] && !IsWhite(s[0])
    ensures Trim(s) != [] && Trim(s)[0] == s[0]
  {
    assert TrimStart(s) == s;
    assert s[0] == s[0..][0];
  }

  /** One space on each side of a word is trimmed away. */
  lemma TrimPadded(s: string)
    requires s != [] && forall i :: 0 <= i < |s| ==> !IsWhite(s[i])
    ensures Trim(" " + s + " ") == s
  {
    var p := " " + s + " ";
    assert p[1..] == s + " ";
    assert TrimStart(s + " ") == s + " ";
    assert TrimStart(p) == s + " ";
    assert (s + " ")[..|s|] == s;
    TrimNoWhite(s);
    assert TrimEnd(s) == s;
    assert TrimEnd(s + " ") == s;
  }

  /** `s.replace(/\s+/g, "")`: every white-space character removed. */
  function StripWhite(s: string): (r: string)
    ensures forall i :: 0 <= i < |r| ==> !IsWhite(r[i])
    ensures |r| <= |s|
  {
    if s == [] then []
    else if IsWhite(s[0]) then StripWhite(s[1..])
    else [s[0]] + StripWhite(s[1..])
  }

  function LowerChar(c: char): char {
    if IsUpperAscii(c) then (c as int + 32) as char else c
  }

  function UpperChar(c: char): char {
    if IsLowerAscii(c) then (c as int - 32) as char else c
  }

  /** toLowerCase / toUpperCase on the ASCII letters. */
  function ToLower(s: string): (r: string)
    ensures |r| == |s|
    ensures forall i :: 0 <= i < |s| ==> r[i] == LowerChar(s[i])
  {
    seq(|s|, i requires 0 <= i < |s| => LowerChar(s[i]))
  }

  function ToUpper(s: string): (r: string)
    ensures |r| == |s|
    ensures forall i :: 0 <= i < |s| ==> r[i] == UpperChar(s[i])
  {
    seq(|s|, i requires 0 <= i < |s| => UpperChar(s[i]))
  }

  lemma ToLowerTwice(s: string)
    ensures ToLower(ToLower(s)) == ToLower(s)
  {
  }

  lemma ToUpperTwice(s: string)
    ensures ToUpper(ToUpper(s)) == ToUpper(s)
  {
  }

  /** Upper-casing a trimmed text leaves nothing to trim. */
  lemma UpperOfTrimmed(t: string)
    requires t == [] || (!IsWhite(t[0]) && !IsWhite(t[|t| - 1]))
    ensures Trim(ToUpper(t)) == ToUpper(t)
  {
    var u := ToUpper(t);
    if u != [] {
      assert !IsWhite(u[0]);
      assert TrimStart(u) == u;
      assert !IsWhite(u[|u| - 1]);
    }
  }

  /** Lower-casing keeps white space where it is, so it commutes with
      trimming. */
  lemma {:induction false} ToLowerTrimStart(s: string)
    ensures TrimStart(ToLower(s)) == ToLower(TrimStart(s))
  {
    if s != [] {
      assert IsWhite(ToLower(s)[0]) == IsWhite(s[0]);
      assert ToLower(s)[1..] == ToLower(s[1..]);
      ToLowerTrimStart(s[1..]);
    }
  }

  lemma {:induction false} ToLowerTrimEnd(s: string)
    ensures TrimEnd(ToLower(s)) == ToLower(TrimEnd(s))
  {
    if s != [] {
      assert IsWhite(ToLower(s)[|s| - 1]) == IsWhite(s[|s| - 1]);
      assert ToLower(s)[..|s| - 1] == ToLower(s[..|s| - 1]);
      ToLowerTrimEnd(s[..|s| - 1]);
    }
  }

  lemma ToLowerTrim(s: string)
    ensures ToLower(Trim(s)) == Trim(ToLower(s))
  {
    ToLowerTrimStart(s);
    ToLowerTrimEnd(TrimStart(s));
  }

  predicate StartsWith(s: string, prefix: string) {
    |prefix| <= |s| && s[..|prefix|] == prefix
  }

  predicate EndsWith(s: string, suffix: string) {
    |suffix| <= |s| && s[|s| - |suffix|..] == suffix
  }

  /** String.prototype.includes */
  predicate Contains(s: string, sub: string)
    decreases |s|
  {
    StartsWith(s, sub) || (s != [] && Contains(s[1..], sub))
  }

  /** `s.slice(i, j)` with JavaScript's clamping to the string's bounds
      (non-negative arguments only). */
  function Slice(s: string, i: nat, j: nat): (r: string)
    ensures |r| <= |s|
  {
    var a := if i < |s| then i else |s|;
    var b := if j < |s| then j else |s|;
    if a <= b then s[a..b] else []
  }

  function IndexOf(s: string, c: char): (k: nat)
    requires c in s
    ensures k < |s| && s[k] == c && c !in s[..k]
  {
    if s[0] == c then 0 else 1 + IndexOf(s[1..], c)
  }

  /** `parts.join(sep)` */
  function Join(parts: seq<string>, sep: string): string {
    if parts == [] then ""
    else if |parts| == 1 then parts[0]
    else parts[0] + sep + Join(parts[1..], sep)
  }

  // ---------------------------------------------------------------------
  // Integers as decimal text: String(n) and Number(text)
  // ---------------------------------------------------------------------

  function DigitChar(d: nat): (c: char)
    requires d < 10
    ensures IsDigit(c)
  {
    ('0' as int + d) as char
  }

  function DigitValue(c: char): (d: nat)
    requires IsDigit(c)
    ensures d < 10 && DigitChar(d) == c
  {
    c as int - '0' as int
  }

  /** Decimal digits of a natural number, without leading zeros. */
  function NatToString(n: nat): (s: string)
    ensures |s| >= 1 && AllDigits(s)
    ensures s[0] == '0' ==> n == 0
  {
    if n < 10 then [DigitChar(n)] else NatToString(n / 10) + [DigitChar(n % 10)]
  }

  /** String(n) for an integer n of ordinary size. */
  function IntToString(i: int): (s: string)
    ensures |s| >= 1
  {
    if i < 0 then "-" + NatToString(-i) else NatToString(i)
  }

  /** The number a string of decimal digits denotes. */
  function DigitsValue(s: string): nat
    requires AllDigits(s)
  {
    if s == [] then 0 else DigitsValue(s[..|s| - 1]) * 10 + DigitValue(s[|s| - 1])
  }

  /** The value of the digits after a decimal point: "25" is 0.25. */
  function FractionValue(s: string): (v: real)
    requires AllDigits(s)
    ensures 0.0 <= v < 1.0
  {
    if s == [] then 0.0 else (DigitValue(s[0]) as real + FractionValue(s[1..])) / 10.0
  }

  lemma {:induction false} NatToStringValue(n: nat)
    ensures DigitsValue(NatToString(n)) == n
  {
    if n >= 10 {
      var s := NatToString(n);
      assert s[..|s| - 1] == NatToString(n / 10);
      NatToStringValue(n / 10);
    }
  }

  /** x·10^k, as k multiplications by ten. */
  function ShiftLeft(x: real, k: nat): real {
    if k == 0 then x else ShiftLeft(x, k - 1) * 10.0
  }

  /** x·10^-k, as k divisions by ten. */
  function ShiftRight(x: real, k: nat): real {
    if k == 0 then x else ShiftRight(x, k - 1) / 10.0
  }

  /** `m` times ten to the power `k`: the value of a mantissa with an
      exponent. */
  function Scaled(m: real, k: int): real {
    if k >= 0 then ShiftLeft(m, k) else ShiftRight(m, -k)
  }

  /** Index of the first `e` or `E` of `t`, or |t| when there is none. */
  function ExponentMark(t: string): (k: nat)
    ensures k <= |t|
    ensures forall i :: 0 <= i < k ==> t[i] != 'e' && t[i] != 'E'
    ensures k < |t| ==> t[k] == 'e' || t[k] == 'E'
  {
    if t == [] || t[0] == 'e' || t[0] == 'E' then 0 else 1 + ExponentMark(t[1..])
  }

  /** The text after `e`: an optional sign, then at least one digit. */
  predicate IsExponent(t: string) {
    var u := if t != [] && (t[0] == '+' || t[0] == '-') then t[1..] else t;
    u != [] && AllDigits(u)
  }

  function ExponentValue(t: string): int
    requires IsExponent(t)
  {
    if t[0] == '-' then -(DigitsValue(t[1..]) as int)
    else if t[0] == '+' then DigitsValue(t[1..])
    else DigitsValue(t)
  }

  /** A decimal literal without exponent: `digits`, `digits.`, `.digits`
      or `digits.digits`. */
  function ParseMantissa(t: string): Num {
    if t != [] && AllDigits(t) then Fin(DigitsValue(t) as real)
    else if '.' in t then
      var k := IndexOf(t, '.');
      var whole, frac := t[..k], t[k + 1..];
      if AllDigits(whole) && AllDigits(frac) && (whole != [] || frac != []) then
        Fin(DigitsValue(whole) as real + FractionValue(frac))
      else NaN
    else NaN
  }

  /** The unsigned part of StringToNumber: `Infinity`, or a decimal literal
      with an optional exponent (`e` or `E`, an optional sign, digits). */
  function ParseUnsigned(t: string): Num {
    if t == "Infinity" then PosInf
    else
      var k := ExponentMark(t);
      if k == |t| then ParseMantissa(t)
      else
        var m := ParseMantissa(t[..k]);
        if m.Fin? && IsExponent(t[k + 1..]) then Fin(Scaled(m.v, ExponentValue(t[k + 1..])))
        else NaN
  }

  /** The value of a hexadecimal digit of either case; 16 for any other
      character. */
  function HexDigitValue(c: char): nat {
    if '0' <= c <= '9' then c as int - '0' as int
    else if 'a' <= c <= 'f' then c as int - 'a' as int + 10
    else if 'A' <= c <= 'F' then c as int - 'A' as int + 10
    else 16
  }

  /** The radix the letter of a `0x`, `0o` or `0b` prefix selects (either
      case); 0 for any other character. */
  function RadixOf(c: char): nat {
    if c == 'x' || c == 'X' then 16
    else if c == 'o' || c == 'O' then 8
    else if c == 'b' || c == 'B' then 2
    else 0
  }

  predicate AllRadixDigits(s: string, radix: nat) {
    forall i :: 0 <= i < |s| ==> HexDigitValue(s[i]) < radix
  }

  /** The number the digits `s` denote in base `radix`. */
  function RadixValue(s: string, radix: nat): nat
    requires AllRadixDigits(s, radix)
  {
    if s == [] then 0 else RadixValue(s[..|s| - 1], radix) * radix + HexDigitValue(s[|s| - 1])
  }

  predicate HasRadixPrefix(t: string) {
    |t| >= 2 && t[0] == '0' && RadixOf(t[1]) > 0
  }

  /** A non-decimal integer literal: the prefix, then at least one digit of
      its radix. */
  function ParseRadix(t: string): Num
    requires HasRadixPrefix(t)
  {
    var radix, digits := RadixOf(t[1]), t[2..];
    if digits != [] && AllRadixDigits(digits, radix) then Fin(RadixValue(digits, radix) as real)
    else NaN
  }

  /** Number(text): surrounding white space ignored, the empty string is 0;
      then either an optional sign followed by `Infinity` or a decimal
      literal, or an unsigned `0x`/`0o`/`0b` literal; anything else is NaN. */
  function ParseNumber(s: string): Num {
    NumberOfTrimmed(Trim(s))
  }

  /** Number(text) once the surrounding white space is gone. */
  function NumberOfTrimmed(t: string): Num {
    if t == [] then Fin(0.0)
    else if t[0] == '-' then Negate(ParseUnsigned(t[1..]))
    else if t[0] == '+' then ParseUnsigned(t[1..])
    else if HasRadixPrefix(t) then ParseRadix(t)
    else ParseUnsigned(t)
  }

  lemma DigitsNotWhite(s: string)
    requires AllDigits(s)
    ensures forall i :: 0 <= i < |s| ==> !IsWhite(s[i])
  {
  }

  lemma ParseDigits(t: string)
    requires t != [] && AllDigits(t)
    ensures ParseUnsigned(t) == Fin(DigitsValue(t) as real)
  {
    assert !IsDigit("Infinity"[0]);
  }

  /** A run of digits has no radix prefix: its second character is a
      digit. */
  lemma DigitsNoRadix(t: string)
    requires |t| >= 2 ==> IsDigit(t[1])
    ensures !HasRadixPrefix(t)
  {
  }

  /** Math.trunc(Number(t)) for a non-empty run of decimal digits is the
      number the digits denote. */
  lemma TruncParseDigits(t: string)
    requires t != [] && AllDigits(t)
    ensures Trunc(ParseNumber(t)) == Fin(DigitsValue(t) as real)
  {
    var n: int := DigitsValue(t);
    ParseDigitsText(t);
    assert Trunc(FromInt(n)) == FromInt(n) by {
      assert IsInteger(FromInt(n));
      TruncFixed(FromInt(n));
    }
  }

  /** Digits followed by a minus sign are not a number. */
  lemma ParseTrailingMinus(t: string)
    requires |t| >= 2 && AllDigits(t[..|t| - 1]) && t[|t| - 1] == '-'
    ensures ParseNumber(t) == NaN
  {
    var d := t[..|t| - 1];
    assert forall i :: 0 <= i < |t| ==> IsNumeralChar(t[i]) by {
      forall i | 0 <= i < |t|
        ensures IsNumeralChar(t[i])
      {
        if i < |d| {
          assert t[i] == d[i];
        }
      }
    }
    assert t[0] == d[0];
    assert RadixOf(t[1]) == 0 by {
      if |t| > 2 {
        assert t[1] == d[1];
      }
    }
    NumeralIsUnsigned(t);
    TrailingMinusUnsigned(t);
  }

  /** Digits, a minus sign and digits again ("5-7") are not a number. */
  lemma {:induction false} ParseInnerMinus(a: string, b: string)
    requires a != [] && AllDigits(a) && AllDigits(b)
    ensures ParseNumber(a + "-" + b) == NaN
  {
    var t := a + "-" + b;
    InnerMinusChars(a, b);
    assert t[0] == a[0];
    assert RadixOf(t[1]) == 0 by {
      if |a| > 1 {
        assert t[1] == a[1];
      }
    }
    NumeralIsUnsigned(t);
    InnerMinusUnsigned(a, b);
  }

  lemma InnerMinusChars(a: string, b: string)
    requires AllDigits(a) && AllDigits(b)
    ensures var t := a + "-" + b;
      forall i :: 0 <= i < |t| ==> IsNumeralChar(t[i]) && t[i] != 'e' && t[i] != 'E' && t[i] != '.'
  {
    var t := a + "-" + b;
    forall i | 0 <= i < |t|
      ensures IsNumeralChar(t[i]) && t[i] != 'e' && t[i] != 'E' && t[i] != '.'
    {
      if i < |a| {
        assert t[i] == a[i];
      } else if i > |a| {
        assert t[i] == b[i - |a| - 1];
      }
    }
  }

  lemma InnerMinusUnsigned(a: string, b: string)
    requires AllDigits(a) && AllDigits(b)
    ensures ParseUnsigned(a + "-" + b) == NaN
  {
    var t := a + "-" + b;
    InnerMinusChars(a, b);
    assert t[|a|] == '-' && !AllDigits(t);
    assert t != "Infinity" by {
      assert '-' in t && '-' !in "Infinity";
    }
    assert ExponentMark(t) == |t|;
    assert '.' !in t;
  }

  lemma TrailingMinusUnsigned(t: string)
    requires |t| >= 2 && AllDigits(t[..|t| - 1]) && t[|t| - 1] == '-'
    ensures ParseUnsigned(t) == NaN
  {
    var d := t[..|t| - 1];
    assert forall i :: 0 <= i < |d| ==> t[i] == d[i];
    assert t[0] != 'I';
    assert !IsDigit(t[|t| - 1]);
  }

  /** Number(String(n)) == n for every integer n. */
  lemma {:induction false} ParseIntToString(n: int)
    ensures ParseNumber(IntToString(n)) == FromInt(n)
  {
    if n < 0 {
      ParseNegative(n);
    } else {
      ParseNonNegative(n);
    }
  }

  lemma ParseNonNegative(n: nat)
    ensures ParseNumber(IntToString(n)) == FromInt(n)
  {
    NatToStringValue(n);
    ParseDigitsText(NatToString(n));
  }

  /** Number(t) for a non-empty run of decimal digits is the number the
      digits denote. */
  lemma ParseDigitsText(t: string)
    requires t != [] && AllDigits(t)
    ensures ParseNumber(t) == Fin(DigitsValue(t) as real)
  {
    TrimmedDigits(t);
    DigitsNotWhite(t);
    ParseNoWhite(t);
  }

  lemma TrimmedDigits(t: string)
    requires t != [] && AllDigits(t)
    ensures NumberOfTrimmed(t) == Fin(DigitsValue(t) as real)
  {
    DigitsNoRadix(t);
    ParseDigits(t);
  }

  lemma ParseNegative(n: int)
    requires n < 0
    ensures ParseNumber(IntToString(n)) == FromInt(n)
  {
    var m: nat := -n;
    var digits := NatToString(m);
    NatToStringValue(m);
    ParseSignedDigits('-', digits);
    NegativeText(n, m);
  }

  lemma NegativeText(n: int, m: nat)
    requires n < 0 && m == -n
    ensures IntToString(n) == ['-'] + NatToString(m)
  {
  }

  /** A sign and a non-empty run of digits: Number reads the digits and
      applies the sign. */
  lemma ParseSignedDigits(sign: char, digits: string)
    requires sign == '-' || sign == '+'
    requires digits != [] && AllDigits(digits)
    ensures ParseNumber([sign] + digits)
         == if sign == '-' then Negate(Fin(DigitsValue(digits) as real)) else Fin(DigitsValue(digits) as real)
  {
    TrimmedSignedDigits(sign, digits);
    SignedNotWhite(sign, digits);
    ParseNoWhite([sign] + digits);
  }

  lemma TrimmedSignedDigits(sign: char, digits: string)
    requires sign == '-' || sign == '+'
    requires digits != [] && AllDigits(digits)
    ensures NumberOfTrimmed([sign] + digits)
         == if sign == '-' then Negate(Fin(DigitsValue(digits) as real)) else Fin(DigitsValue(digits) as real)
  {
    assert ([sign] + digits)[1..] == digits;
    ParseDigits(digits);
  }

  lemma SignedNotWhite(sign: char, digits: string)
    requires sign == '-' || sign == '+'
    requires AllDigits(digits)
    ensures forall i :: 0 <= i < |[sign] + digits| ==> !IsWhite(([sign] + digits)[i])
  {
    var s := [sign] + digits;
    DigitsNotWhite(digits);
    forall i | 0 <= i < |s|
      ensures !IsWhite(s[i])
    {
      if i > 0 {
        assert s[i] == digits[i - 1];
      }
    }
  }

  /** Text with no white space is read as it stands. */
  lemma ParseNoWhite(t: string)
    requires forall i :: 0 <= i < |t| ==> !IsWhite(t[i])
    ensures ParseNumber(t) == NumberOfTrimmed(t)
  {
    TrimNoWhite(t);
  }

  /** String(k) never starts with `+`, and starts with `0` only when it
      is "0". */
  lemma IntToStringHead(k: int)
    ensures IntToString(k)[0] != '+'
    ensures IntToString(k)[0] == '0' ==> IntToString(k) == "0"
  {
    if k >= 0 && IntToString(k)[0] == '0' {
      assert k == 0;
    }
  }

  /** String(n) is injective on integers. */
  lemma IntToStringInjective(a: int, b: int)
    requires IntToString(a) == IntToString(b)
    ensures a == b
  {
    ParseIntToString(a);
    ParseIntToString(b);
  }

  /** String(k) is an exponent whose value is k. */
  lemma ExponentOfIntToString(k: int)
    ensures IsExponent(IntToString(k)) && ExponentValue(IntToString(k)) == k
  {
    if k < 0 {
      var digits := NatToString(-k);
      NatToStringValue(-k);
      assert IntToString(k)[1..] == digits;
    } else {
      NatToStringValue(k);
    }
  }

  /** Characters that may appear in a decimal literal. */
  predicate IsNumeralChar(c: char) {
    IsDigit(c) || c == '.' || c == 'e' || c == 'E' || c == '+' || c == '-'
  }

  /** Text made of numeral characters that starts with a digit and has no
      radix prefix is read as an unsigned decimal literal. */
  lemma NumeralIsUnsigned(t: string)
    requires forall i :: 0 <= i < |t| ==> IsNumeralChar(t[i])
    requires t != [] && IsDigit(t[0]) && !HasRadixPrefix(t)
    ensures ParseNumber(t) == ParseUnsigned(t)
  {
    assert NumberOfTrimmed(t) == ParseUnsigned(t);
    ParseNoWhite(t);
  }

  /** An unsigned decimal literal that starts with a digit is read by
      Number as it stands. */
  lemma UnsignedIsNumber(t: string)
    requires ParseUnsigned(t).Fin? && t != [] && IsDigit(t[0])
    ensures ParseNumber(t) == ParseUnsigned(t)
  {
    UnsignedChars(t);
    NumeralIsUnsigned(t);
  }

  lemma ExponentMarkAt(t: string, j: nat)
    requires j < |t| && (t[j] == 'e' || t[j] == 'E')
    requires forall i :: 0 <= i < j ==> IsDigit(t[i])
    ensures ExponentMark(t) == j
  {
  }

  /** Digits, an exponent mark and an exponent denote the digits' value
      times ten to the exponent. */
  lemma {:induction false} ExponentUnsigned(digits: string, mark: char, ex: string)
    requires digits != [] && AllDigits(digits) && (mark == 'e' || mark == 'E') && IsExponent(ex)
    ensures ParseUnsigned(digits + [mark] + ex)
         == Fin(Scaled(DigitsValue(digits) as real, ExponentValue(ex)))
  {
    var t := digits + [mark] + ex;
    var j := |digits|;
    assert t[..j] == digits;
    assert t[j + 1..] == ex;
    assert t != "Infinity" by {
      assert t[0] == digits[0];
      assert !IsDigit("Infinity"[0]);
    }
    assert forall i :: 0 <= i < j ==> t[i] == digits[i];
    ExponentMarkAt(t, j);
    UnsignedAtMark(t, j);
  }

  lemma UnsignedAtMark(t: string, j: nat)
    requires t != "Infinity" && j < |t| && ExponentMark(t) == j
    ensures var m := ParseMantissa(t[..j]);
      ParseUnsigned(t)
      == if m.Fin? && IsExponent(t[j + 1..]) then Fin(Scaled(m.v, ExponentValue(t[j + 1..]))) else NaN
  {
  }

  /** Number(String(n) + "e" + String(k)) is n·10^k, and so is the form
      with a capital `E`: the exponent part of a decimal literal. */
  lemma ParseExponentLiteral(n: nat, mark: char, k: int)
    requires mark == 'e' || mark == 'E'
    ensures ParseNumber(NatToString(n) + [mark] + IntToString(k)) == Fin(Scaled(n as real, k))
  {
    var digits, ex := NatToString(n), IntToString(k);
    NatToStringValue(n);
    ExponentOfIntToString(k);
    ExponentTextIsUnsigned(digits, mark, ex);
    ExponentUnsigned(digits, mark, ex);
  }

  /** Digits, an exponent mark and an exponent are read as an unsigned
      literal. */
  lemma ExponentTextIsUnsigned(digits: string, mark: char, ex: string)
    requires digits != [] && AllDigits(digits) && (mark == 'e' || mark == 'E') && IsExponent(ex)
    ensures ParseNumber(digits + [mark] + ex) == ParseUnsigned(digits + [mark] + ex)
  {
    var t := digits + [mark] + ex;
    var j := |digits|;
    assert forall i :: 0 <= i < |t| ==> IsNumeralChar(t[i]) by {
      forall i | 0 <= i < |t|
        ensures IsNumeralChar(t[i])
      {
        if i < j {
          assert IsDigit(digits[i]);
        } else if i > j {
          assert t[i] == ex[i - j - 1];
          if i > j + 1 {
            assert ex[i - j - 1] == ex[1..][i - j - 2];
          }
        }
      }
    }
    assert t[0] == digits[0];
    assert !HasRadixPrefix(t) by {
      if j >= 2 {
        assert t[1] == digits[1];
      }
    }
    NumeralIsUnsigned(t);
  }

  /** A mantissa that is a number holds only digits and a point. */
  lemma MantissaChars(t: string)
    requires ParseMantissa(t).Fin?
    ensures forall i :: 0 <= i < |t| ==> IsDigit(t[i]) || t[i] == '.'
  {
    if !(t != [] && AllDigits(t)) {
      var k := IndexOf(t, '.');
      forall i | 0 <= i < |t|
        ensures IsDigit(t[i]) || t[i] == '.'
      {
        if i < k {
          assert t[i] == t[..k][i];
        } else if i > k {
          assert t[i] == t[k + 1..][i - k - 1];
        }
      }
    }
  }

  /** An unsigned decimal literal that is a finite number holds only
      numeral characters. */
  lemma UnsignedChars(t: string)
    requires ParseUnsigned(t).Fin?
    ensures forall i :: 0 <= i < |t| ==> IsNumeralChar(t[i])
  {
    var k := ExponentMark(t);
    if k == |t| {
      MantissaChars(t);
    } else {
      var m, ex := t[..k], t[k + 1..];
      MantissaChars(m);
      forall i | 0 <= i < |t|
        ensures IsNumeralChar(t[i])
      {
        if i < k {
          assert t[i] == m[i];
        } else if i > k {
          assert t[i] == ex[i - k - 1];
          if i > k + 1 {
            assert IsDigit(ex[i - k - 1]);
          }
        }
      }
    }
  }

  /** Text with a radix prefix and hexadecimal digits after it has no
      white space, so Number reads it as a non-decimal literal. */
  lemma RadixIsParsed(t: string)
    requires HasRadixPrefix(t) && forall i :: 2 <= i < |t| ==> HexDigitValue(t[i]) < 16
    ensures ParseNumber(t) == ParseRadix(t)
  {
    assert forall i :: 0 <= i < |t| ==> !IsWhite(t[i]) by {
      forall i | 0 <= i < |t|
        ensures !IsWhite(t[i])
      {
        if i >= 2 {
          assert HexDigitValue(t[i]) < 16;
        }
      }
    }
    ParseNoWhite(t);
  }

  /** A sign in front of a radix prefix makes the text not a number. */
  lemma {:induction false} SignedRadixIsNaN(u: string)
    requires |u| >= 3 && (u[0] == '-' || u[0] == '+') && HasRadixPrefix(u[1..])
    requires forall i :: 3 <= i < |u| ==> HexDigitValue(u[i]) < 16
    ensures ParseNumber(u) == NaN
  {
    var t := u[1..];
    assert ParseUnsigned(t) == NaN by {
      RadixUnsignedIsNaN(t);
    }
    assert forall i :: 0 <= i < |u| ==> !IsWhite(u[i]) by {
      forall i | 0 <= i < |u|
        ensures !IsWhite(u[i])
      {
        if i >= 3 {
          assert HexDigitValue(u[i]) < 16;
        } else if i >= 1 {
          assert u[i] == t[i - 1];
        }
      }
    }
    ParseNoWhite(u);
  }

  /** A radix literal is not an unsigned decimal literal. */
  lemma RadixUnsignedIsNaN(t: string)
    requires |t| >= 2 && HasRadixPrefix(t)
    ensures ParseUnsigned(t) == NaN
  {
    if ParseUnsigned(t).Fin? {
      UnsignedChars(t);
    }
    assert t != "Infinity";
  }

  /** Number("0x" + s), and likewise with `0o` and `0b` in either case, is
      the value of the digits `s` in that radix. */
  lemma ParseRadixLiteral(letter: char, s: string)
    requires RadixOf(letter) > 0 && s != [] && AllRadixDigits(s, RadixOf(letter))
    ensures ParseNumber("0" + [letter] + s) == Fin(RadixValue(s, RadixOf(letter)) as real)
  {
    var t := "0" + [letter] + s;
    assert forall i :: 2 <= i < |t| ==> t[i] == s[i - 2];
    assert t[2..] == s;
    RadixIsParsed(t);
  }

  /** A sign in front of a `0x`, `0o` or `0b` literal makes the text not a
      number. */
  lemma SignedRadixLiteral(sign: char, letter: char, s: string)
    requires sign == '-' || sign == '+'
    requires RadixOf(letter) > 0 && AllRadixDigits(s, RadixOf(letter))
    ensures ParseNumber([sign, '0', letter] + s) == NaN
  {
    var u := [sign, '0', letter] + s;
    assert forall i :: 3 <= i < |u| ==> u[i] == s[i - 3];
    SignedRadixIsNaN(u);
  }

  // ---------------------------------------------------------------------
  // Dynamically typed values
  // ---------------------------------------------------------------------

  /** The digits after the point of a fraction in [0, 1), at most `k` of
      them, stopping when the rest is zero. */
  function FracDigits(f: real, k: nat): (s: string)
    requires 0.0 <= f < 1.0
    ensures AllDigits(s) && |s| <= k
    decreases k
  {
    if f == 0.0 || k == 0 then []
    else
      var d := (f * 10.0).Floor;
      [DigitChar(d)] + FracDigits(f * 10.0 - d as real, k - 1)
  }

  /** 10^21: from this magnitude on, String(n) writes a number in
      exponent form. */
  const ExponentFrom: int := 1_000_000_000_000_000_000_000

  /** The most places a positive binary64 number can lie below 1 before
      its first significant digit (the smallest one is about 4.9e-324). */
  const MaxShift: nat := 400

  /** `ds` without its trailing zeros. */
  function StripZeros(ds: string): (r: string)
    ensures |r| <= |ds| && r == ds[..|r|]
    ensures r != [] ==> r[|r| - 1] != '0'
    ensures ds != [] && ds[0] != '0' ==> r != []
  {
    if ds != [] && ds[|ds| - 1] == '0' then StripZeros(ds[..|ds| - 1]) else ds
  }

  /** The significant digits as exponent form writes them: the first
      digit, then a point and the others when there are others. */
  function MantissaText(ds: string): (r: string)
    requires ds != []
  {
    if |ds| == 1 then ds else [ds[0]] + "." + ds[1..]
  }

  /** Multiplies `m` by ten until it is at least 1, counting the steps
      from `k`. */
  function ShiftUp(m: real, k: nat): (r: (real, nat))
    requires 0.0 < m < 10.0 && k <= MaxShift
    ensures 0.0 < r.0 < 10.0 && k <= r.1 <= MaxShift
    decreases MaxShift - k
  {
    if m < 1.0 && k < MaxShift then ShiftUp(m * 10.0, k + 1) else (m, k)
  }

  /** Exponent form of a magnitude of at least 10^21: "1.5e+21". */
  function LargeText(i: nat): (s: string)
    requires i > 0
  {
    var ds := NatToString(i);
    MantissaText(StripZeros(ds)) + "e+" + NatToString(|ds| - 1)
  }

  /** Exponent form of a magnitude below 10^-6: "5e-7", "1.25e-8". */
  function SmallText(a: real): (s: string)
    requires 0.0 < a < 1.0
  {
    var r := ShiftUp(a, 0);
    var d := r.0.Floor;
    MantissaText([DigitChar(d)] + FracDigits(r.0 - d as real, 20)) + "e-" + NatToString(r.1)
  }

  /** String(i) for an integer: plain decimal digits below 10^21 in
      magnitude, exponent form from there on. */
  function IntegerText(i: int): (s: string)
    ensures -ExponentFrom < i < ExponentFrom ==> s == IntToString(i)
  {
    if i >= ExponentFrom then LargeText(i)
    else if i <= -ExponentFrom then "-" + LargeText(-i)
    else IntToString(i)
  }

  /** String(n) for a number: exponent form from 10^21 on and below 10^-6,
      integers below 10^21 as in `IntToString`, other finite values in
      plain decimal notation (up to 20 fraction digits). */
  function NumToString(n: Num): (s: string)
    ensures IsInteger(n) ==> s == IntegerText(ToInt(n))
    ensures IsInteger(n) && -ExponentFrom < ToInt(n) < ExponentFrom ==> s == IntToString(ToInt(n))
  {
    match n
    case NaN => "NaN"
    case PosInf => "Infinity"
    case NegInf => "-Infinity"
    case Fin(v) =>
      if IsInteger(n) then IntegerText(ToInt(n))
      else
        var a := if v < 0.0 then -v else v;
        var sign := if v < 0.0 then "-" else "";
        if a >= ExponentFrom as real then sign + LargeText(a.Floor)
        else if 0.0 < a && a * 1000000.0 < 1.0 then sign + SmallText(a)
        else sign + NatToString(a.Floor) + "." + FracDigits(a - a.Floor as real, 20)
  }

  // ---------------------------------------------------------------------
  // Number(String(n)) for integers in exponent form
  // ---------------------------------------------------------------------

  lemma {:induction false} ShiftLeftAdd(a: real, b: real, k: nat)
    ensures ShiftLeft(a + b, k) == ShiftLeft(a, k) + ShiftLeft(b, k)
  {
    if k > 0 {
      ShiftLeftAdd(a, b, k - 1);
    }
  }

  lemma {:induction false} ShiftLeftTenth(x: real, k: nat)
    requires k >= 1
    ensures ShiftLeft(x / 10.0, k) == ShiftLeft(x, k - 1)
  {
    if k > 1 {
      ShiftLeftTenth(x, k - 1);
    }
  }

  lemma {:induction false} ShiftLeftCompose(x: real, a: nat, b: nat)
    ensures ShiftLeft(ShiftLeft(x, a), b) == ShiftLeft(x, a + b)
  {
    if b > 0 {
      ShiftLeftCompose(x, a, b - 1);
    }
  }

  /** Digits read from the front: the first digit counts 10^(|s| - 1). */
  lemma {:induction false} DigitsValueFront(s: string)
    requires s != [] && AllDigits(s)
    ensures DigitsValue(s) as real == ShiftLeft(DigitValue(s[0]) as real, |s| - 1) + DigitsValue(s[1..]) as real
  {
    if |s| > 1 {
      var init, rest := s[..|s| - 1], s[1..];
      DigitsValueFront(init);
      assert init[0] == s[0];
      assert rest[..|rest| - 1] == init[1..];
      assert rest[|rest| - 1] == s[|s| - 1];
    } else {
      assert s[1..] == [];
    }
  }

  /** Digits after a point, shifted left past all of them, are the digits
      read as an integer. */
  lemma {:induction false} FractionDigits(f: string)
    requires AllDigits(f)
    ensures ShiftLeft(FractionValue(f), |f|) == DigitsValue(f) as real
  {
    if f != [] {
      var d, rest := DigitValue(f[0]) as real, f[1..];
      FractionDigits(rest);
      DigitsValueFront(f);
      ShiftLeftTenth(d + FractionValue(rest), |f|);
      ShiftLeftAdd(d, FractionValue(rest), |rest|);
    }
  }

  /** Number reads exponent form's mantissa as its first digit plus the
      fraction the others make. */
  lemma MantissaTextParse(ds: string)
    requires ds != [] && AllDigits(ds)
    ensures ParseMantissa(MantissaText(ds)) == Fin(DigitValue(ds[0]) as real + FractionValue(ds[1..]))
  {
    if |ds| > 1 {
      var t := MantissaText(ds);
      assert t[1] == '.';
      assert IndexOf(t, '.') == 1;
      assert t[..1] == [ds[0]] && t[2..] == ds[1..];
      assert DigitsValue([ds[0]]) == DigitValue(ds[0]);
    } else {
      assert ds[1..] == [];
      assert DigitsValue(ds) == DigitsValue([]) * 10 + DigitValue(ds[0]);
    }
  }

  /** The first digit plus the fraction the others make, shifted left
      past all but the first digit, is the digits read as an integer. */
  lemma {:induction false} LeadingDigitValue(ds: string)
    requires ds != [] && AllDigits(ds)
    ensures ShiftLeft(DigitValue(ds[0]) as real + FractionValue(ds[1..]), |ds| - 1) == DigitsValue(ds) as real
  {
    var d, rest := DigitValue(ds[0]) as real, ds[1..];
    var k := |ds| - 1;
    var dv, rv, f := DigitsValue(ds) as real, DigitsValue(rest) as real, FractionValue(rest);
    assert dv == ShiftLeft(d, k) + rv by {
      DigitsValueFront(ds);
    }
    assert ShiftLeft(f, k) == rv by {
      FractionDigits(rest);
    }
    AddShifted(d, f, rv, dv, k);
  }

  lemma AddShifted(d: real, f: real, fv: real, total: real, k: nat)
    requires ShiftLeft(f, k) == fv && total == ShiftLeft(d, k) + fv
    ensures ShiftLeft(d + f, k) == total
  {
    ShiftLeftAdd(d, f, k);
  }

  /** Trailing zeros only shift the value left. */
  lemma {:induction false} StripZerosValue(s: string)
    requires AllDigits(s)
    ensures AllDigits(StripZeros(s))
    ensures DigitsValue(s) as real == ShiftLeft(DigitsValue(StripZeros(s)) as real, |s| - |StripZeros(s)|)
  {
    if s != [] && s[|s| - 1] == '0' {
      StripZerosValue(s[..|s| - 1]);
    }
  }

  /** `+` and the digits of k are an exponent of value k. */
  lemma PlusExponent(k: nat)
    ensures IsExponent("+" + NatToString(k)) && ExponentValue("+" + NatToString(k)) == k
  {
    NatToStringValue(k);
    assert ("+" + NatToString(k))[1..] == NatToString(k);
  }

  lemma ExponentMarkAfter(t: string, j: nat)
    requires j < |t| && t[j] == 'e'
    requires forall i :: 0 <= i < j ==> t[i] != 'e' && t[i] != 'E'
    ensures ExponentMark(t) == j
  {
  }

  /** A mantissa made of digits and a point, `e` and an exponent denote
      the mantissa times ten to the exponent. */
  lemma MantissaExponent(mt: string, ex: string, m: real, k: int)
    requires mt != [] && IsDigit(mt[0]) && ParseMantissa(mt) == Fin(m)
    requires IsExponent(ex) && ExponentValue(ex) == k
    ensures ParseUnsigned(mt + ['e'] + ex) == Fin(Scaled(m, k))
  {
    var t := mt + ['e'] + ex;
    var j := |mt|;
    MantissaChars(mt);
    assert t[..j] == mt && t[j + 1..] == ex;
    assert t != "Infinity" by {
      assert t[0] == mt[0];
      assert !IsDigit("Infinity"[0]);
    }
    assert forall i :: 0 <= i < j ==> t[i] == mt[i];
    ExponentMarkAfter(t, j);
    UnsignedAtMark(t, j);
  }

  /** A finite unsigned literal that starts with a digit and has no
      radix prefix is read by Number as it stands, and negated behind a
      minus sign. */
  lemma SignedUnsigned(t: string)
    requires ParseUnsigned(t).Fin? && t != [] && IsDigit(t[0]) && !HasRadixPrefix(t)
    ensures ParseNumber(t) == ParseUnsigned(t)
    ensures ParseNumber("-" + t) == Negate(ParseUnsigned(t))
  {
    UnsignedChars(t);
    NumeralIsUnsigned(t);
    NegatedNumeral(t);
  }

  /** A minus sign in front of numeral characters negates what they read as. */
  lemma NegatedNumeral(t: string)
    requires forall i :: 0 <= i < |t| ==> IsNumeralChar(t[i])
    ensures ParseNumber("-" + t) == Negate(ParseUnsigned(t))
  {
    var u := "-" + t;
    assert u[1..] == t;
    assert forall i :: 0 <= i < |u| ==> !IsWhite(u[i]) by {
      forall i | 0 <= i < |u|
        ensures !IsWhite(u[i])
      {
        if i > 0 {
          assert u[i] == t[i - 1] && IsNumeralChar(t[i - 1]);
        }
      }
    }
    ParseNoWhite(u);
  }

  /** The parts exponent form is made of. */
  lemma LargeTextSplit(i: nat)
    requires i > 0
    ensures var s := NatToString(i);
      LargeText(i) == MantissaText(StripZeros(s)) + ['e'] + ("+" + NatToString(|s| - 1))
  {
  }

  /** Number reads an unsigned literal of value x that starts with a digit
      and has no radix prefix as x ... */
  lemma PlainValue(t: string, x: real)
    requires ParseUnsigned(t) == Fin(x) && t != [] && IsDigit(t[0]) && !HasRadixPrefix(t)
    ensures ParseNumber(t) == Fin(x)
  {
    SignedUnsigned(t);
  }

  /** ... and as -x behind a minus sign. */
  lemma {:induction false} NegatedValue(t: string, x: real)
    requires ParseUnsigned(t) == Fin(x)
    ensures ParseNumber("-" + t) == Fin(-x)
  {
    var p := ParseUnsigned(t);
    assert ParseNumber("-" + t) == Negate(p) by {
      UnsignedChars(t);
      NegatedNumeral(t);
    }
  }

  /** The mantissa written by `LargeText(i)`, as a real in [1, 10). */
  function LargeMantissa(i: nat): real
  {
    var ds := StripZeros(NatToString(i));
    if ds == [] then 0.0 else DigitValue(ds[0]) as real + FractionValue(ds[1..])
  }

  /** The exponent written by `LargeText(i)`. */
  function LargeExponent(i: nat): nat
  {
    if i == 0 then 0 else |NatToString(i)| - 1
  }

  lemma {:induction false} LargeTextScaled(i: nat)
    requires i > 0
    ensures ParseUnsigned(LargeText(i)) == Fin(Scaled(LargeMantissa(i), LargeExponent(i)))
  {
    var s := NatToString(i);
    var ds := StripZeros(s);
    var mt, ex := MantissaText(ds), "+" + NatToString(|s| - 1);
    StripZerosValue(s);
    MantissaTextParse(ds);
    PlusExponent(|s| - 1);
    assert mt[0] == ds[0];
    MantissaExponent(mt, ex, LargeMantissa(i), |s| - 1);
    LargeTextSplit(i);
  }

  lemma {:induction false} LargeMantissaValue(i: nat)
    requires i > 0
    ensures Scaled(LargeMantissa(i), LargeExponent(i)) == i as real
  {
    var s := NatToString(i);
    var ds := StripZeros(s);
    var m := LargeMantissa(i);
    var v := DigitsValue(ds) as real;
    assert |ds| >= 1 && ShiftLeft(m, |ds| - 1) == v by {
      StripZerosValue(s);
      LeadingDigitValue(ds);
    }
    assert i as real == ShiftLeft(v, |s| - |ds|) by {
      StripZerosValue(s);
      NatToStringValue(i);
    }
    ComposeShifts(m, v, i as real, |ds| - 1, |s| - |ds|);
  }

  lemma ComposeShifts(m: real, v: real, x: real, a: nat, b: nat)
    requires ShiftLeft(m, a) == v && x == ShiftLeft(v, b)
    ensures Scaled(m, a + b) == x
  {
    ShiftLeftCompose(m, a, b);
  }

  /** Exponent form read without Number's sign handling: the unsigned
      literal denotes the magnitude it was made from. */
  lemma LargeTextUnsigned(i: nat)
    requires i > 0
    ensures ParseUnsigned(LargeText(i)) == Fin(i as real)
  {
    LargeTextScaled(i);
    LargeMantissaValue(i);
  }

  /** Number reads exponent form back as the magnitude it was made from. */
  lemma {:induction false} ParseLargeText(i: nat)
    requires i > 0
    ensures ParseNumber(LargeText(i)) == Fin(i as real)
  {
    LargeTextFacts(i);
    PlainValue(LargeText(i), i as real);
  }

  /** ... and a minus sign in front negates it. */
  lemma {:induction false} ParseLargeNegative(i: nat)
    requires i > 0
    ensures ParseNumber("-" + LargeText(i)) == Fin(-(i as real))
  {
    LargeTextFacts(i);
    NegatedValue(LargeText(i), i as real);
  }

  lemma LargeTextFacts(i: nat)
    requires i > 0
    ensures ParseUnsigned(LargeText(i)) == Fin(i as real)
    ensures LargeText(i) != [] && IsDigit(LargeText(i)[0]) && !HasRadixPrefix(LargeText(i))
  {
    LargeTextUnsigned(i);
    LargeTextShape(i);
  }

  /** Exponent form starts with a non-zero digit followed by a point or
      the `e`. */
  lemma LargeTextShape(i: nat)
    requires i > 0
    ensures |LargeText(i)| >= 2 && IsDigit(LargeText(i)[0]) && LargeText(i)[0] != '0'
    ensures LargeText(i)[1] == '.' || LargeText(i)[1] == 'e'
  {
    var s := NatToString(i);
    assert LargeText(i)[0] == StripZeros(s)[0] == s[0];
  }

  /** Number(String(n)) == n for every integer n, in either notation. */
  lemma ParseIntegerText(n: int)
    ensures ParseNumber(IntegerText(n)) == FromInt(n)
  {
    if n >= ExponentFrom {
      ParseIntegerLarge(n);
    } else if n <= -ExponentFrom {
      var m: nat := -n;
      ParseIntegerLargeNegative(m);
      assert -(m as int) == n;
    } else {
      ParseIntToString(n);
    }
  }

  lemma ParseIntegerLarge(n: int)
    requires n >= ExponentFrom
    ensures ParseNumber(IntegerText(n)) == FromInt(n)
  {
    assert IntegerText(n) == LargeText(n);
    ParseLargeText(n);
  }

  lemma {:induction false} ParseIntegerLargeNegative(m: nat)
    requires m >= ExponentFrom
    ensures ParseNumber(IntegerText(-(m as int))) == FromInt(-(m as int))
  {
    var s := LargeText(m);
    assert IntegerText(-(m as int)) == "-" + s;
    assert FromInt(-(m as int)) == Fin(-(m as real));
    ParseLargeNegative(m);
  }

  /** String(n) is injective on integers. */
  lemma IntegerTextInjective(a: int, b: int)
    requires IntegerText(a) == IntegerText(b)
    ensures a == b
  {
    ParseIntegerText(a);
    ParseIntegerText(b);
  }

  /** Exponent form holds an `e`, which plain decimal digits never do. */
  lemma LargeTextHasE(i: nat)
    requires i > 0
    ensures 'e' in LargeText(i) && 'e' in "-" + LargeText(i)
  {
    var mt := MantissaText(StripZeros(NatToString(i)));
    assert LargeText(i)[|mt|] == 'e';
    assert ("-" + LargeText(i))[|mt| + 1] == 'e';
  }

  /** String(k) for an integer never starts with `+`, and starts with `0`
      only when it is "0". */
  lemma IntegerTextHead(k: int)
    ensures IntegerText(k) != [] && IntegerText(k)[0] != '+'
    ensures IntegerText(k)[0] == '0' ==> IntegerText(k) == "0"
  {
    if k >= ExponentFrom || k <= -ExponentFrom {
      var i := if k < 0 then -k else k;
      var s := NatToString(i);
      assert LargeText(i)[0] == StripZeros(s)[0] == s[0];
    } else {
      IntToStringHead(k);
    }
  }

  /** String(k) for an integer is made of numeral characters only, so it
      holds no white space. */
  lemma {:induction false} IntegerTextNumeral(k: int)
    ensures forall i :: 0 <= i < |IntegerText(k)| ==> IsNumeralChar(IntegerText(k)[i])
  {
    if k >= ExponentFrom {
      assert IntegerText(k) == LargeText(k);
      LargeTextNumeral(k);
    } else if k <= -ExponentFrom {
      var m: nat := -k;
      NegativeLargeNumeral(m);
      assert -(m as int) == k;
    } else if k < 0 {
      var t := NatToString(-k);
      assert IntegerText(k) == "-" + t;
      SignedNumeral(t);
    }
  }

  lemma IntegerTextNoWhite(k: int)
    ensures forall i :: 0 <= i < |IntegerText(k)| ==> !IsWhite(IntegerText(k)[i])
  {
    var t := IntegerText(k);
    IntegerTextNumeral(k);
    forall i | 0 <= i < |t|
      ensures !IsWhite(t[i])
    {
      assert IsNumeralChar(t[i]);
    }
  }

  /** String of an integral number is `IntegerText` of the integer. */
  lemma NumToStringOfInt(k: int)
    ensures IsInteger(FromInt(k)) && ToInt(FromInt(k)) == k
    ensures NumToString(FromInt(k)) == IntegerText(k)
  {
    assert (k as real).Floor == k;
  }

  lemma LargeTextNumeral(i: nat)
    requires i > 0
    ensures forall j :: 0 <= j < |LargeText(i)| ==> IsNumeralChar(LargeText(i)[j])
  {
    LargeTextUnsigned(i);
    UnsignedChars(LargeText(i));
  }

  lemma {:induction false} NegativeLargeNumeral(m: nat)
    requires m >= ExponentFrom
    ensures var t := IntegerText(-(m as int));
      forall j :: 0 <= j < |t| ==> IsNumeralChar(t[j])
  {
    assert IntegerText(-(m as int)) == "-" + LargeText(m);
    LargeTextNumeral(m);
    SignedNumeral(LargeText(m));
  }

  lemma SignedNumeral(t: string)
    requires forall j :: 0 <= j < |t| ==> IsNumeralChar(t[j])
    ensures forall j :: 0 <= j < |"-" + t| ==> IsNumeralChar(("-" + t)[j])
  {
    assert forall j :: 1 <= j < |"-" + t| ==> ("-" + t)[j] == t[j - 1];
  }

  /** String(k) for an integer from 10^21 on in magnitude holds an `e`. */
  lemma IntegerTextHasE(k: int)
    requires k >= ExponentFrom || k <= -ExponentFrom
    ensures 'e' in IntegerText(k)
  {
    if k >= ExponentFrom {
      LargeTextHasE(k);
    } else {
      var m: nat := -k;
      NegativeLargeHasE(m);
      assert -(m as int) == k;
    }
  }

  lemma {:induction false} NegativeLargeHasE(m: nat)
    requires m >= ExponentFrom
    ensures 'e' in IntegerText(-(m as int))
  {
    assert IntegerText(-(m as int)) == "-" + LargeText(m);
    LargeTextHasE(m);
  }

  /** Plain decimal text has no `e`. */
  lemma IntToStringNoE(k: int)
    ensures 'e' !in IntToString(k)
  {
    var t := NatToString(if k < 0 then -k else k);
    assert forall i :: 0 <= i < |t| ==> t[i] != 'e';
    if k < 0 {
      assert forall i :: 1 <= i < |"-" + t| ==> ("-" + t)[i] == t[i - 1];
    }
  }

  // ---------------------------------------------------------------------
  // String(n) below 10^-6
  // ---------------------------------------------------------------------

  /** A positive value shifted right stays positive and, after at least
      one step, falls below a tenth of itself. */
  lemma {:induction false} ShiftRightBounds(x: real, k: nat)
    requires x > 0.0
    ensures 0.0 < ShiftRight(x, k) <= x
    ensures k >= 1 ==> ShiftRight(x, k) <= x / 10.0
  {
    if k > 0 {
      ShiftRightBounds(x, k - 1);
    }
  }

  /** Shifting d·10^-j up to a single leading digit takes j steps. */
  lemma {:induction false} ShiftUpExact(d: real, j: nat, k: nat)
    requires 1.0 <= d < 10.0 && k + j <= MaxShift
    ensures 0.0 < ShiftRight(d, j) < 10.0
    ensures ShiftUp(ShiftRight(d, j), k) == (d, k + j)
  {
    ShiftRightBounds(d, j);
    if j > 0 {
      ShiftUpExact(d, j - 1, k + 1);
    }
  }

  lemma ShiftRightSeven(x: real)
    ensures ShiftRight(x, 7) == x / 10000000.0
  {
    assert ShiftRight(x, 1) == x / 10.0;
    assert ShiftRight(x, 2) == x / 100.0;
    assert ShiftRight(x, 3) == x / 1000.0;
    assert ShiftRight(x, 4) == x / 10000.0;
    assert ShiftRight(x, 5) == x / 100000.0;
    assert ShiftRight(x, 6) == x / 1000000.0;
  }

  /** Below 10^-6 from seven places on. */
  lemma {:induction false} ShiftRightTiny(x: real, k: nat)
    requires 0.0 < x < 10.0 && k >= 7
    ensures ShiftRight(x, k) * 1000000.0 < 1.0
  {
    if k == 7 {
      ShiftRightSeven(x);
    } else {
      ShiftRightTiny(x, k - 1);
      ShiftRightBounds(x, k - 1);
    }
  }

  /** A single digit d times 10^-k, k at least 7, is written "de-k":
      5·10^-7 is "5e-7". */
  lemma SmallDigitText(d: nat, k: nat)
    requires 1 <= d <= 9 && 7 <= k <= MaxShift
    ensures NumToString(Fin(ShiftRight(d as real, k))) == [DigitChar(d)] + "e-" + NatToString(k)
  {
    var v := ShiftRight(d as real, k);
    assert 0.0 < v < 1.0 && v * 1000000.0 < 1.0 by {
      ShiftRightBounds(d as real, k);
      ShiftRightTiny(d as real, k);
    }
    SmallBranch(v);
    SmallTextDigit(d, k);
  }

  /** Below 10^-6 String(x) takes the exponent-form branch. */
  lemma SmallBranch(v: real)
    requires 0.0 < v < 1.0 && v * 1000000.0 < 1.0
    ensures NumToString(Fin(v)) == SmallText(v)
  {
    assert v.Floor == 0;
    assert !IsInteger(Fin(v));
  }

  lemma SmallTextDigit(d: nat, k: nat)
    requires 1 <= d <= 9 && 7 <= k <= MaxShift
    ensures 0.0 < ShiftRight(d as real, k) < 1.0
    ensures SmallText(ShiftRight(d as real, k)) == [DigitChar(d)] + "e-" + NatToString(k)
  {
    var v := ShiftRight(d as real, k);
    ShiftRightBounds(d as real, k);
    ShiftUpExact(d as real, k, 0);
    assert (d as real).Floor == d;
    assert FracDigits(0.0, 20) == [];
    assert MantissaText([DigitChar(d)]) == [DigitChar(d)];
  }

  /** A JavaScript value as it reaches the modelled code from JSON bodies,
      decoded tokens and thrown errors. */
  datatype JsValue =
    | JUndefined
    | JNull
    | JBool(b: bool)
    | JNum(n: Num)
    | JStr(s: string)
    | JArray(items: seq<JsValue>)
    | JObject(fields: map<string, JsValue>)

  /** `!!v` */
  predicate Truthy(v: JsValue) {
    match v
    case JUndefined => false
    case JNull => false
    case JBool(b) => b
    case JNum(n) => NumTruthy(n)
    case JStr(s) => s != ""
    case _ => true
  }

  /** `v == null` */
  predicate Nullish(v: JsValue) {
    v.JUndefined? || v.JNull?
  }

  /** `v?.key`: an own field of an object, otherwise undefined. */
  function Get(v: JsValue, key: string): JsValue {
    if v.JObject? && key in v.fields then v.fields[key] else JUndefined
  }

  /** `a ?? b` */
  function Coalesce(a: JsValue, b: JsValue): (r: JsValue)
    ensures Nullish(r) ==> Nullish(a) && r == b
  {
    if Nullish(a) then b else a
  }

  /** String(v); an array is joined with "," and renders null and
      undefined elements as "". */
  function ToString(v: JsValue): string
    decreases v, 1
  {
    match v
    case JUndefined => "undefined"
    case JNull => "null"
    case JBool(b) => if b then "true" else "false"
    case JNum(n) => NumToString(n)
    case JStr(s) => s
    case JArray(items) => ItemsText(items)
    case JObject(_) => "[object Object]"
  }

  /** The elements of an array joined with ",", null and undefined
      rendered as "". */
  function ItemsText(items: seq<JsValue>): string
    decreases items, 0
  {
    if items == [] then ""
    else
      var first := if Nullish(items[0]) then "" else ToString(items[0]);
      if |items| == 1 then first else first + "," + ItemsText(items[1..])
  }

  /** Number(v) */
  function ToNumber(v: JsValue): Num {
    match v
    case JUndefined => NaN
    case JNull => Fin(0.0)
    case JBool(b) => if b then Fin(1.0) else Fin(0.0)
    case JNum(n) => n
    case JStr(s) => ParseNumber(s)
    case _ => ParseNumber(ToString(v))
  }
}
