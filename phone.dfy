/** The Colombian mobile-number formatting shared by both sign-up forms:
    the digits of what was typed, and the "+57 3xx xxx xxxx" display of a
    national part. */
module Phone {
  import opened Js

  /** `raw.replace(/\D/g, "")`: the ASCII digits of `raw`, in order. */
  function KeepDigits(raw: string): (r: string)
    ensures AllDigits(r) && |r| <= |raw|
  {
    if raw == [] then []
    else if IsDigit(raw[0]) then [raw[0]] + KeepDigits(raw[1..])
    else KeepDigits(raw[1..])
  }

  /** `` `+57 ${rest.slice(0, 3)} ${rest.slice(3, 6)} ${rest.slice(6, 10)}`.trim() `` */
  function Grouped(rest: string): string {
    Trim("+57 " + Slice(rest, 0, 3) + " " + Slice(rest, 3, 6) + " " + Slice(rest, 6, 10))
  }

  /** The display of a non-empty national part: at most ten of its digits,
      in groups of three, three and four after "+57 ", with no separator
      after the last group. */
  function Layout(rest: string): string {
    "+57 " + Slice(rest, 0, 3)
    + (if |rest| > 3 then " " + Slice(rest, 3, 6) else "")
    + (if |rest| > 6 then " " + Slice(rest, 6, 10) else "")
  }

  // ---------------------------------------------------------------------
  // Trimming and filtering lemmas
  // ---------------------------------------------------------------------

  lemma TrimStartKeeps(s: string)
    requires s != [] && !IsWhite(s[0])
    ensures TrimStart(s) == s
  {
  }

  /** Trailing white space after a non-white character is what TrimEnd
      removes. */
  lemma {:induction false} TrimEndPadding(a: string, w: string)
    requires a != [] && !IsWhite(a[|a| - 1]) && AllWhite(w)
    ensures TrimEnd(a + w) == a
    decreases |w|
  {
    if w == [] {
      assert a + w == a;
      assert TrimEnd(a) == a;
    } else {
      var shorter := w[..|w| - 1];
      assert (a + w)[..|a + w| - 1] == a + shorter;
      TrimEndPadding(a, shorter);
    }
  }

  lemma {:induction false} KeepDigitsConcat(a: string, b: string)
    ensures KeepDigits(a + b) == KeepDigits(a) + KeepDigits(b)
    decreases |a|
  {
    if a == [] {
      assert a + b == b;
    } else {
      assert (a + b)[1..] == a[1..] + b;
      KeepDigitsConcat(a[1..], b);
    }
  }

  lemma {:induction false} KeepDigitsOfDigits(s: string)
    requires AllDigits(s)
    ensures KeepDigits(s) == s
    decreases |s|
  {
    if s != [] {
      KeepDigitsOfDigits(s[1..]);
      assert s == [s[0]] + s[1..];
    }
  }

  lemma {:induction false} StripWhiteConcat(a: string, b: string)
    ensures StripWhite(a + b) == StripWhite(a) + StripWhite(b)
    decreases |a|
  {
    if a == [] {
      assert a + b == b;
    } else {
      assert (a + b)[1..] == a[1..] + b;
      StripWhiteConcat(a[1..], b);
    }
  }

  lemma {:induction false} StripWhiteOfDigits(s: string)
    requires AllDigits(s)
    ensures StripWhite(s) == s
    decreases |s|
  {
    if s != [] {
      StripWhiteOfDigits(s[1..]);
      assert s == [s[0]] + s[1..];
    }
  }

  lemma SliceDigits(rest: string, i: nat, j: nat)
    requires AllDigits(rest)
    ensures AllDigits(Slice(rest, i, j))
  {
  }

  // ---------------------------------------------------------------------
  // Properties of the display
  // ---------------------------------------------------------------------

  /** The national part's first ten characters split into the three
      groups. */
  lemma TenSplit(rest: string)
    ensures Slice(rest, 0, 10)
      == Slice(rest, 0, 3)
         + (if |rest| > 3 then Slice(rest, 3, 6) else "")
         + (if |rest| > 6 then Slice(rest, 6, 10) else "")
  {
  }

  /** For a non-empty run of digits, the trimmed template is the layout:
      only the separators of empty groups are trimmed away. */
  lemma GroupedLayout(rest: string)
    requires rest != [] && AllDigits(rest)
    ensures Grouped(rest) == Layout(rest)
  {
    var raw := "+57 " + Slice(rest, 0, 3) + " " + Slice(rest, 3, 6) + " " + Slice(rest, 6, 10);
    var l := Layout(rest);
    TrimStartKeeps(raw);
    assert l[|l| - 1] == rest[(if |rest| < 10 then |rest| else 10) - 1];
    if |rest| > 6 {
      assert raw == l + "";
      TrimEndPadding(l, "");
    } else if |rest| > 3 {
      assert raw == l + " ";
      TrimEndPadding(l, " ");
    } else {
      assert raw == l + "  ";
      TrimEndPadding(l, "  ");
    }
  }

  /** A separator followed by a group of digits. */
  function Sep(present: bool, group: string): string {
    if present then " " + group else ""
  }

  lemma LayoutPieces(rest: string)
    ensures Layout(rest) == "+57 " + Slice(rest, 0, 3) + Sep(|rest| > 3, Slice(rest, 3, 6)) + Sep(|rest| > 6, Slice(rest, 6, 10))
  {
  }

  lemma KeepDigitsFour(a: string, b: string, c: string, d: string)
    ensures KeepDigits(a + b + c + d) == KeepDigits(a) + KeepDigits(b) + KeepDigits(c) + KeepDigits(d)
  {
    KeepDigitsConcat(a + b + c, d);
    KeepDigitsConcat(a + b, c);
    KeepDigitsConcat(a, b);
  }

  lemma StripWhiteFour(a: string, b: string, c: string, d: string)
    ensures StripWhite(a + b + c + d) == StripWhite(a) + StripWhite(b) + StripWhite(c) + StripWhite(d)
  {
    StripWhiteConcat(a + b + c, d);
    StripWhiteConcat(a + b, c);
    StripWhiteConcat(a, b);
  }

  lemma SepDigits(present: bool, group: string)
    requires AllDigits(group)
    ensures KeepDigits(Sep(present, group)) == (if present then group else "")
    ensures StripWhite(Sep(present, group)) == (if present then group else "")
  {
    KeepDigitsOfDigits(group);
    StripWhiteOfDigits(group);
    if present {
      assert (" " + group)[1..] == group;
    }
  }

  lemma BareCompact()
    ensures StripWhite("+57 ") == "+57"
  {
    assert StripWhite(" ") == "";
    assert StripWhite("7 ") == "7";
    assert StripWhite("57 ") == "57";
  }

  /** The display starts with "+57 ". */
  lemma LayoutPrefix(rest: string)
    ensures StartsWith(Layout(rest), "+57 ")
  {
    LayoutPieces(rest);
  }

  /** The display holds exactly the first ten digits of the national
      part after the country code. */
  lemma {:induction false} LayoutDigits(rest: string)
    requires AllDigits(rest)
    ensures KeepDigits(Layout(rest)) == "57" + Slice(rest, 0, 10)
  {
    var g1, g2, g3 := Slice(rest, 0, 3), Slice(rest, 3, 6), Slice(rest, 6, 10);
    var s2, s3 := Sep(|rest| > 3, g2), Sep(|rest| > 6, g3);
    var d2, d3 := if |rest| > 3 then g2 else "", if |rest| > 6 then g3 else "";
    calc {
      KeepDigits(Layout(rest));
    == { LayoutPieces(rest); }
      KeepDigits("+57 " + g1 + s2 + s3);
    == { KeepDigitsFour("+57 ", g1, s2, s3); }
      KeepDigits("+57 ") + KeepDigits(g1) + KeepDigits(s2) + KeepDigits(s3);
    == { BareDigits(); KeepDigitsOfDigits(g1); SepDigits(|rest| > 3, g2); SepDigits(|rest| > 6, g3); }
      "57" + g1 + d2 + d3;
    == { TenSplit(rest); }
      "57" + Slice(rest, 0, 10);
    }
  }

  /** Without its spaces, the display is "+57" and the first ten digits
      of the national part. */
  lemma {:induction false} LayoutCompact(rest: string)
    requires AllDigits(rest)
    ensures StripWhite(Layout(rest)) == "+57" + Slice(rest, 0, 10)
  {
    var g1, g2, g3 := Slice(rest, 0, 3), Slice(rest, 3, 6), Slice(rest, 6, 10);
    var s2, s3 := Sep(|rest| > 3, g2), Sep(|rest| > 6, g3);
    var d2, d3 := if |rest| > 3 then g2 else "", if |rest| > 6 then g3 else "";
    calc {
      StripWhite(Layout(rest));
    == { LayoutPieces(rest); }
      StripWhite("+57 " + g1 + s2 + s3);
    == { StripWhiteFour("+57 ", g1, s2, s3); }
      StripWhite("+57 ") + StripWhite(g1) + StripWhite(s2) + StripWhite(s3);
    == { BareCompact(); StripWhiteOfDigits(g1); SepDigits(|rest| > 3, g2); SepDigits(|rest| > 6, g3); }
      "+57" + g1 + d2 + d3;
    == { TenSplit(rest); }
      "+57" + Slice(rest, 0, 10);
    }
  }

  /** The layout only depends on the first ten digits. */
  lemma LayoutFirstTen(rest: string)
    ensures Layout(Slice(rest, 0, 10)) == Layout(rest)
  {
    var t := Slice(rest, 0, 10);
    assert Slice(t, 0, 3) == Slice(rest, 0, 3);
    assert Slice(t, 3, 6) == Slice(rest, 3, 6);
    assert Slice(t, 6, 10) == Slice(rest, 6, 10);
  }

  /** The digits of "+57 " are the country code alone. */
  lemma BareDigits()
    ensures KeepDigits("+57 ") == "57"
  {
    assert KeepDigits(" ") == "";
    assert KeepDigits("7 ") == "7";
    assert KeepDigits("57 ") == "57";
  }
}
