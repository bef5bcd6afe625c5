/** The field rules both sign-up forms share: the password rule and
    strength meter, the username, e-mail, cedula and name checks, and the
    first-match lookup their error mappers perform. */
module Forms {
  import opened Wrappers
  import opened Js

  // ---------------------------------------------------------------------
  // Character classes
  // ---------------------------------------------------------------------

  /** The characters a regular-expression `.` does not match. */
  predicate IsLineTerminator(c: char) {
    c == '\n' || c == '\r' || c as int == 0x2028 || c as int == 0x2029
  }

  /** `[!@#$%^&*]` */
  predicate IsSymbol(c: char) {
    c == '!' || c == '@' || c == '#' || c == '$' || c == '%' || c == '^' || c == '&' || c == '*'
  }

  /** `[a-zA-Z0-9_.-]` */
  predicate IsUsuarioChar(c: char) {
    IsLowerAscii(c) || IsUpperAscii(c) || IsDigit(c) || c == '_' || c == '.' || c == '-'
  }

  predicate HasUpper(s: string) {
    exists i :: 0 <= i < |s| && IsUpperAscii(s[i])
  }

  predicate HasLower(s: string) {
    exists i :: 0 <= i < |s| && IsLowerAscii(s[i])
  }

  predicate HasDigit(s: string) {
    exists i :: 0 <= i < |s| && IsDigit(s[i])
  }

  /** `/\d|[!@#$%^&*]/` */
  predicate HasDigitOrSymbol(s: string) {
    exists i :: 0 <= i < |s| && (IsDigit(s[i]) || IsSymbol(s[i]))
  }

  // ---------------------------------------------------------------------
  // Field rules
  // ---------------------------------------------------------------------

  /** `/^(?=.*[A-Z])(?=.*\d).{8,}$/`: at least eight characters, none of
      them a line terminator, with an uppercase letter and a digit. */
  predicate PassRule(p: string) {
    && |p| >= 8
    && (forall i :: 0 <= i < |p| ==> !IsLineTerminator(p[i]))
    && HasUpper(p)
    && HasDigit(p)
  }

  /** `/^[a-zA-Z0-9_.-]{3,20}$/` */
  predicate UsuarioRule(u: string) {
    3 <= |u| <= 20 && forall i :: 0 <= i < |u| ==> IsUsuarioChar(u[i])
  }

  /** An "@" at `at` after a non-blank character, then only non-blank
      characters up to a "." at `dot`, followed by a non-blank one. */
  predicate EmailShapeAt(s: string, at: int, dot: int) {
    && 1 <= at && at + 1 < dot && dot + 1 < |s|
    && s[at] == '@' && s[dot] == '.'
    && !IsWhite(s[at - 1]) && !IsWhite(s[dot + 1])
    && (forall k :: at < k < dot ==> !IsWhite(s[k]))
  }

  /** `/\S+@\S+\.\S+/`, unanchored: the shape occurs somewhere. */
  predicate EmailOk(s: string) {
    exists at, dot :: 0 <= at < |s| && 0 <= dot < |s| && EmailShapeAt(s, at, dot)
  }

  /** `/^[0-9]{8,}$/` on the trimmed cedula. */
  predicate CedulaOk(cedula: string) {
    |Trim(cedula)| >= 8 && AllDigits(Trim(cedula))
  }

  /** A name or surname with at least two characters once trimmed. */
  predicate NameOk(name: string) {
    |Trim(name)| >= 2
  }

  // ---------------------------------------------------------------------
  // Password strength
  // ---------------------------------------------------------------------

  /** The four tests the strength meter counts, in order. */
  function StrengthTests(p: string): seq<bool> {
    [|p| >= 8, HasUpper(p), HasLower(p), HasDigitOrSymbol(p)]
  }

  function CountTrue(tests: seq<bool>): (n: nat)
    ensures n <= |tests|
  {
    if tests == [] then 0
    else (if tests[0] then 1 else 0) + CountTrue(tests[1..])
  }

  function Point(t: bool): nat {
    if t then 1 else 0
  }

  lemma CountFour(a: bool, b: bool, c: bool, d: bool)
    ensures CountTrue([a, b, c, d]) == Point(a) + Point(b) + Point(c) + Point(d)
  {
    assert [d][1..] == [];
    assert CountTrue([d]) == Point(d);
    assert [c, d][1..] == [d];
    assert CountTrue([c, d]) == Point(c) + Point(d);
    assert [b, c, d][1..] == [c, d];
    assert CountTrue([b, c, d]) == Point(b) + Point(c) + Point(d);
    assert [a, b, c, d][1..] == [b, c, d];
  }

  /** `pwdScore`: one point per test passed. */
  method PwdScore(p: string) returns (s: int)
    ensures s == CountTrue(StrengthTests(p))
    ensures 0 <= s <= 4
  {
    s := 0;
    if |p| >= 8 {
      s := s + 1;
    }
    if HasUpper(p) {
      s := s + 1;
    }
    if HasLower(p) {
      s := s + 1;
    }
    if HasDigitOrSymbol(p) {
      s := s + 1;
    }
    CountFour(|p| >= 8, HasUpper(p), HasLower(p), HasDigitOrSymbol(p));
  }

  const MeterLabels: seq<string> := ["Muy débil", "Débil", "Media", "Buena", "Fuerte"]

  /** `[...labels][score] ?? "Muy débil"` */
  function MeterLabel(score: int): string {
    if 0 <= score < |MeterLabels| then MeterLabels[score] else "Muy débil"
  }

  /** A password the rule accepts passes at least three of the four
      tests, so the meter shows "Buena" or "Fuerte"; it shows "Fuerte"
      exactly when it also has a lowercase letter. */
  lemma PassRuleStrength(p: string)
    requires PassRule(p)
    ensures CountTrue(StrengthTests(p)) >= 3
    ensures MeterLabel(CountTrue(StrengthTests(p))) in {"Buena", "Fuerte"}
    ensures MeterLabel(CountTrue(StrengthTests(p))) == "Fuerte" <==> HasLower(p)
  {
    var i :| 0 <= i < |p| && IsDigit(p[i]);
    assert HasDigitOrSymbol(p);
    CountFour(|p| >= 8, HasUpper(p), HasLower(p), HasDigitOrSymbol(p));
  }

  /** Every score the meter can get has its own label: the fallback is
      never reached, and a higher score never shows the same label. */
  lemma MeterLabelsDistinct(a: int, b: int)
    requires 0 <= a < b <= 4
    ensures MeterLabel(a) != MeterLabel(b)
    ensures MeterLabel(a) == MeterLabels[a] && MeterLabel(b) == MeterLabels[b]
  {
  }

  // ---------------------------------------------------------------------
  // Error-message lookup
  // ---------------------------------------------------------------------

  /** The index, from `i` on, of the first key contained in `m`. */
  function FirstKey(keys: seq<string>, m: string, i: nat): (r: Option<nat>)
    requires i <= |keys|
    ensures r.Some? ==> i <= r.value < |keys| && Contains(m, keys[r.value])
    ensures r.Some? ==> forall j :: i <= j < r.value ==> !Contains(m, keys[j])
    ensures r.None? <==> forall j :: i <= j < |keys| ==> !Contains(m, keys[j])
    decreases |keys| - i
  {
    if i == |keys| then None
    else if Contains(m, keys[i]) then Some(i)
    else FirstKey(keys, m, i + 1)
  }

  /** The message paired with the first key found, if any. */
  function Lookup(keys: seq<string>, messages: seq<string>, m: string): Option<string>
    requires |keys| == |messages|
  {
    match FirstKey(keys, m, 0)
    case None => None
    case Some(k) => Some(messages[k])
  }

  // ---------------------------------------------------------------------
  // Case mapping
  // ---------------------------------------------------------------------

  /** Lower-casing forgets an earlier upper-casing. */
  lemma LowerOfUpper(s: string)
    ensures ToLower(ToUpper(s)) == ToLower(s)
  {
    assert forall i :: 0 <= i < |s| ==> LowerChar(UpperChar(s[i])) == LowerChar(s[i]);
  }
}
