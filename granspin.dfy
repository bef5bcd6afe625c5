/** GranSpinService: the payout of a three-reel spin. The random draw of
    the reels and the broadcast of the result are not part of this model. */
module GranSpin {
  /** The three symbols of a spin. */
  datatype Reels = Reels(a: string, b: string, c: string)

  /** `calculatePayout(spin, betAmount)`: five times the bet for three
      equal symbols, twice for a pair, nothing otherwise. */
  function CalculatePayout(spin: Reels, betAmount: real): real {
    if spin.a == spin.b && spin.b == spin.c then betAmount * 5.0
    else if spin.a == spin.b || spin.b == spin.c || spin.a == spin.c then betAmount * 2.0
    else 0.0
  }

  /** The set of symbols shown. */
  function Shown(spin: Reels): set<string> {
    {spin.a, spin.b, spin.c}
  }

  // ---------------------------------------------------------------------
  // Properties
  // ---------------------------------------------------------------------

  /** How many different symbols a spin shows, from 1 to 3. */
  lemma ShownSize(spin: Reels)
    ensures spin.a == spin.b == spin.c <==> |Shown(spin)| == 1
    ensures spin.a != spin.b && spin.b != spin.c && spin.a != spin.c <==> |Shown(spin)| == 3
    ensures 1 <= |Shown(spin)| <= 3
  {
    var a, b, c := spin.a, spin.b, spin.c;
    if a == b && b == c {
      assert Shown(spin) == {a};
    } else if a == b {
      assert Shown(spin) == {a, c};
    } else if b == c || a == c {
      assert Shown(spin) == {a, b};
    } else {
      assert Shown(spin) == {a} + {b} + {c};
      assert |{a} + {b}| == 2;
    }
  }

  /** The payout table by the number of different symbols shown: one
      symbol pays five times the bet, two (exactly one pair) twice, three
      nothing. */
  lemma PayoutTable(spin: Reels, betAmount: real)
    ensures |Shown(spin)| == 1 ==> CalculatePayout(spin, betAmount) == betAmount * 5.0
    ensures |Shown(spin)| == 2 ==> CalculatePayout(spin, betAmount) == betAmount * 2.0
    ensures |Shown(spin)| == 3 ==> CalculatePayout(spin, betAmount) == 0.0
  {
    ShownSize(spin);
  }

  /** The payout is always 0, twice or five times the bet. */
  lemma PayoutValues(spin: Reels, betAmount: real)
    ensures CalculatePayout(spin, betAmount) in {0.0, 2.0 * betAmount, 5.0 * betAmount}
  {
  }

  /** The symbols shown are those of the reels' multiset. */
  lemma ShownOfMultiset(spin: Reels, m: multiset<string>)
    requires m == multiset{spin.a, spin.b, spin.c}
    ensures Shown(spin) == set x | x in m
  {
  }

  /** Reordering the reels never changes the payout: it depends only on
      the set of symbols shown. */
  lemma PayoutSymmetric(spin: Reels, other: Reels, betAmount: real)
    requires multiset{spin.a, spin.b, spin.c} == multiset{other.a, other.b, other.c}
    ensures CalculatePayout(spin, betAmount) == CalculatePayout(other, betAmount)
  {
    var m := multiset{spin.a, spin.b, spin.c};
    ShownOfMultiset(spin, m);
    ShownOfMultiset(other, m);
    PayoutTable(spin, betAmount);
    PayoutTable(other, betAmount);
    ShownSize(spin);
  }

  /** A positive bet never loses more than it stakes and pays at most five
      times it. */
  lemma PayoutBounds(spin: Reels, betAmount: real)
    requires betAmount > 0.0
    ensures 0.0 <= CalculatePayout(spin, betAmount) <= 5.0 * betAmount
  {
  }
}
