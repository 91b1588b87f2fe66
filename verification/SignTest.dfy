/** The exact two-sided sign test, in its two implementations, and what its p-value means: the
    fraction of all sign patterns that are at least as lopsided. */
module SignTest {
  import opened Collections
  import opened Options
  import opened Reals

  // ---------------------------------------------------------------- the two implementations

  /** `math.comb(n, k)`, by the rule of Pascal's triangle. */
  function Comb(n: nat, k: nat): nat
    decreases n, k
  {
    if k == 0 then 1 else if n == 0 then 0 else Comb(n - 1, k - 1) + Comb(n - 1, k)
  }

  /** The sum of `comb(n, i)` for `i` from 0 to `k`. */
  function TailSum(n: nat, k: nat): nat
    decreases k
  {
    if k == 0 then Comb(n, 0) else TailSum(n, k - 1) + Comb(n, k)
  }

  function Pow2(n: nat): nat {
    if n == 0 then 1 else 2 * Pow2(n - 1)
  }

  function Min(a: nat, b: nat): nat {
    if a <= b then a else b
  }

  lemma {:induction false} Pow2Positive(n: nat)
    ensures Pow2(n) > 0
  {
    if n > 0 {
      Pow2Positive(n - 1);
    }
  }

  /** The report's p-value, from the counts of positive and negative differences. */
  function SignTestPValue(nPos: nat, nNeg: nat): Option<real> {
    var n := nPos + nNeg;
    if n == 0 then None
    else
      var k := Min(nPos, nNeg);
      Pow2Positive(n);
      var tail := TailSum(n, k) as real / Pow2(n) as real;
      Some(MinReal(1.0, 2.0 * tail))
  }

  function NonZero(deltas: seq<real>): seq<real> {
    if deltas == [] then []
    else (if deltas[0] != 0.0 then [deltas[0]] else []) + NonZero(deltas[1..])
  }

  function CountNegative(deltas: seq<real>): nat {
    if deltas == [] then 0 else (if deltas[0] < 0.0 then 1 else 0) + CountNegative(deltas[1..])
  }

  function CountPositive(deltas: seq<real>): nat {
    if deltas == [] then 0 else (if deltas[0] > 0.0 then 1 else 0) + CountPositive(deltas[1..])
  }

  /** Dropping the ties keeps every positive and every negative difference. */
  lemma {:induction false} NonZeroCounts(deltas: seq<real>)
    ensures |NonZero(deltas)| == CountPositive(deltas) + CountNegative(deltas)
    ensures CountNegative(NonZero(deltas)) == CountNegative(deltas)
  {
    if deltas != [] {
      NonZeroCounts(deltas[1..]);
      var rest := NonZero(deltas[1..]);
      if deltas[0] != 0.0 {
        assert ([deltas[0]] + rest)[1..] == rest;
      } else {
        assert [] + rest == rest;
      }
    }
  }

  /** The study record's p-value, from the differences themselves. */
  function SignTestP(deltas: seq<real>): real {
    var nonzero := NonZero(deltas);
    var n := |nonzero|;
    if n == 0 then 1.0
    else
      NonZeroCounts(deltas);
      var k := CountNegative(nonzero);
      var tail := Min(k, n - k);
      Pow2Positive(n);
      var p := TailSum(n, tail) as real * 2.0 / Pow2(n) as real;
      MinReal(p, 1.0)
  }

  // ---------------------------------------------------------------- sign patterns

  function Ones(s: seq<bool>): nat {
    if s == [] then 0 else (if s[0] then 1 else 0) + Ones(s[1..])
  }

  function Prefixed(b: bool, ps: set<seq<bool>>): set<seq<bool>> {
    set s | s in ps :: [b] + s
  }

  /** All ways in which `n` differences can turn out positive or negative. */
  function Patterns(n: nat): set<seq<bool>> {
    if n == 0 then {[]} else Prefixed(true, Patterns(n - 1)) + Prefixed(false, Patterns(n - 1))
  }

  function AtMost(n: nat, k: int): set<seq<bool>> {
    set s | s in Patterns(n) && Ones(s) <= k
  }

  function AtLeast(n: nat, k: int): set<seq<bool>> {
    set s | s in Patterns(n) && Ones(s) >= k
  }

  /** The patterns at least as lopsided as one with `k` signs of the rarer kind. */
  function Extreme(n: nat, k: int): set<seq<bool>> {
    set s | s in Patterns(n) && (Ones(s) <= k || n - Ones(s) <= k)
  }

  lemma PrefixedMember(b: bool, ps: set<seq<bool>>, s: seq<bool>)
    ensures s in Prefixed(b, ps) <==> |s| > 0 && s[0] == b && s[1..] in ps
  {
    if s in Prefixed(b, ps) {
      var t :| t in ps && s == [b] + t;
      assert s[1..] == t;
    }
    if |s| > 0 && s[0] == b && s[1..] in ps {
      assert s == [b] + s[1..];
    }
  }

  lemma {:induction false} PatternsExact(n: nat, s: seq<bool>)
    ensures s in Patterns(n) <==> |s| == n
    decreases n
  {
    if n > 0 {
      PrefixedMember(true, Patterns(n - 1), s);
      PrefixedMember(false, Patterns(n - 1), s);
      if |s| > 0 {
        PatternsExact(n - 1, s[1..]);
      }
    }
  }

  lemma {:induction false} PrefixedSize(b: bool, ps: set<seq<bool>>)
    ensures |Prefixed(b, ps)| == |ps|
  {
    if ps == {} {
      assert Prefixed(b, ps) == {};
    } else {
      var s :| s in ps;
      PrefixedSize(b, ps - {s});
      assert Prefixed(b, ps) == Prefixed(b, ps - {s}) + {[b] + s};
      PrefixedMember(b, ps - {s}, [b] + s);
      assert ([b] + s)[1..] == s;
    }
  }

  /** Two prefixed sets stay apart, so their sizes add up. */
  lemma BothPrefixed(ps: set<seq<bool>>, qs: set<seq<bool>>)
    ensures |Prefixed(true, ps) + Prefixed(false, qs)| == |ps| + |qs|
  {
    PrefixedSize(true, ps);
    PrefixedSize(false, qs);
    forall s ensures !(s in Prefixed(true, ps) && s in Prefixed(false, qs)) {
      PrefixedMember(true, ps, s);
      PrefixedMember(false, qs, s);
    }
    assert Prefixed(true, ps) !! Prefixed(false, qs);
  }

  lemma {:induction false} PatternsSize(n: nat)
    ensures |Patterns(n)| == Pow2(n)
  {
    if n > 0 {
      PatternsSize(n - 1);
      BothPrefixed(Patterns(n - 1), Patterns(n - 1));
    }
  }

  /** The patterns of length `n` split by their first sign. */
  lemma PatternsSplit(n: nat, s: seq<bool>)
    requires n > 0
    ensures s in Patterns(n) <==> |s| > 0 && s[1..] in Patterns(n - 1)
  {
    PatternsExact(n, s);
    if |s| > 0 {
      PatternsExact(n - 1, s[1..]);
    }
  }

  lemma AtMostSplit(n: nat, k: int)
    requires n > 0
    ensures AtMost(n, k) == Prefixed(true, AtMost(n - 1, k - 1)) + Prefixed(false, AtMost(n - 1, k))
  {
    hide Patterns, Prefixed;
    forall s ensures s in AtMost(n, k)
                     <==> s in Prefixed(true, AtMost(n - 1, k - 1)) + Prefixed(false, AtMost(n - 1, k)) {
      PatternsSplit(n, s);
      PrefixedMember(true, AtMost(n - 1, k - 1), s);
      PrefixedMember(false, AtMost(n - 1, k), s);
    }
  }

  lemma AtLeastSplit(n: nat, k: int)
    requires n > 0
    ensures AtLeast(n, k) == Prefixed(true, AtLeast(n - 1, k - 1)) + Prefixed(false, AtLeast(n - 1, k))
  {
    hide Patterns, Prefixed;
    forall s ensures s in AtLeast(n, k)
                     <==> s in Prefixed(true, AtLeast(n - 1, k - 1)) + Prefixed(false, AtLeast(n - 1, k)) {
      PatternsSplit(n, s);
      PrefixedMember(true, AtLeast(n - 1, k - 1), s);
      PrefixedMember(false, AtLeast(n - 1, k), s);
    }
  }

  // ---------------------------------------------------------------- binomial sums count patterns

  /** `TailSum`, continued by zero below zero. */
  function Tail(n: nat, k: int): nat {
    if k < 0 then 0 else TailSum(n, k)
  }

  lemma {:induction false} TailPascal(n: nat, k: int)
    requires n > 0
    ensures Tail(n, k) == Tail(n - 1, k - 1) + Tail(n - 1, k)
    decreases if k < 0 then 0 else k + 1
  {
    if k > 0 {
      TailPascal(n, k - 1);
    }
  }

  lemma {:induction false} TailOfNone(k: nat)
    ensures TailSum(0, k) == 1
  {
    if k > 0 {
      TailOfNone(k - 1);
    }
  }

  lemma NoSigns(k: int)
    ensures |AtMost(0, k)| == |AtLeast(0, -k)| == Tail(0, k)
  {
    if k >= 0 {
      TailOfNone(k);
      assert AtMost(0, k) == {[]} && AtLeast(0, -k) == {[]};
    } else {
      assert AtMost(0, k) == {} && AtLeast(0, -k) == {};
    }
  }

  /** The binomial sum counts the patterns with at most `k` ones. */
  lemma {:induction false} AtMostCount(n: nat, k: int)
    ensures |AtMost(n, k)| == Tail(n, k)
    decreases n
  {
    hide AtMost, Prefixed, Tail;
    if n == 0 {
      NoSigns(k);
    } else {
      AtMostCount(n - 1, k - 1);
      AtMostCount(n - 1, k);
      TailPascal(n, k);
      AtMostSplit(n, k);
      BothPrefixed(AtMost(n - 1, k - 1), AtMost(n - 1, k));
    }
  }

  /** It counts the patterns with at most `k` zeros as well. */
  lemma {:induction false} AtLeastCount(n: nat, k: int)
    ensures |AtLeast(n, n - k)| == Tail(n, k)
    decreases n
  {
    hide AtLeast, Prefixed, Tail;
    if n == 0 {
      NoSigns(k);
    } else {
      AtLeastCount(n - 1, k - 1);
      AtLeastCount(n - 1, k);
      TailPascal(n, k);
      AtLeastSplit(n, n - k);
      BothPrefixed(AtLeast(n - 1, n - k - 1), AtLeast(n - 1, n - k));
    }
  }

  // ---------------------------------------------------------------- what the p-value is

  function Evenly(n: nat, k: nat): (s: seq<bool>)
    requires k <= n
    ensures |s| == n
  {
    if n == 0 then [] else if k == 0 then [false] + Evenly(n - 1, 0) else [true] + Evenly(n - 1, k - 1)
  }

  lemma {:induction false} EvenlyOnes(n: nat, k: nat)
    requires k <= n
    ensures Ones(Evenly(n, k)) == k
    ensures Evenly(n, k) in Patterns(n)
  {
    PatternsExact(n, Evenly(n, k));
    if n > 0 {
      EvenlyOnes(n - 1, if k == 0 then 0 else k - 1);
    }
  }

  lemma ExtremeUnion(n: nat, k: nat)
    ensures Extreme(n, k) == AtMost(n, k) + AtLeast(n, n - k)
  {
    hide Patterns, Ones;
  }

  lemma AllExtreme(n: nat, k: nat)
    requires n <= 2 * k
    ensures Extreme(n, k) == Patterns(n)
  {
    hide Patterns, Ones;
  }

  /** Twice the tail is the number of extreme patterns, plus the overlap of the two tails: none for
      an uneven split, some pattern for an even one. */
  lemma TwoTails(n: nat, k: nat)
    requires 2 * k <= n
    ensures 2 * k < n ==> 2 * TailSum(n, k) == |Extreme(n, k)| <= Pow2(n)
    ensures 2 * k == n ==> 2 * TailSum(n, k) > |Extreme(n, k)| == Pow2(n)
  {
    AtMostCount(n, k);
    AtLeastCount(n, k);
    ExtremeUnion(n, k);
    PatternsSize(n);
    var low, high := AtMost(n, k), AtLeast(n, n - k);
    UnionSize(low, high);
    EvenlyOnes(n, k);
    hide Patterns, Ones;
    if 2 * k < n {
      assert low * high == {};
      SubsetSize(Extreme(n, k), Patterns(n));
    } else {
      AllExtreme(n, k);
      assert Evenly(n, k) in low * high;
    }
  }

  /** The p-value is the fraction of the sign patterns that are at least as lopsided as the counts. */
  lemma PValueMeaning(nPos: nat, nNeg: nat)
    requires nPos + nNeg > 0
    ensures Pow2(nPos + nNeg) > 0
    ensures SignTestPValue(nPos, nNeg)
            == Some(|Extreme(nPos + nNeg, Min(nPos, nNeg))| as real / Pow2(nPos + nNeg) as real)
  {
    var n, k := nPos + nNeg, Min(nPos, nNeg);
    TwoTails(n, k);
    Pow2Positive(n);
    hide Pow2, TailSum, Extreme;
    Halves(TailSum(n, k) as real, Pow2(n) as real, |Extreme(n, k)| as real);
  }

  lemma Halves(tail: real, all: real, extreme: real)
    requires all > 0.0
    requires 2.0 * tail == extreme <= all || 2.0 * tail > extreme == all
    ensures MinReal(1.0, 2.0 * (tail / all)) == extreme / all
  {
    assert 2.0 * (tail / all) == (2.0 * tail) / all;
    Quotient(2.0 * tail, all);
  }

  lemma Quotient(x: real, all: real)
    requires all > 0.0
    ensures x <= all <==> x / all <= 1.0
    ensures x == all ==> x / all == 1.0
    ensures x > 0.0 ==> x / all > 0.0
  {
    assert (x / all) * all == x;
  }

  lemma QuotientGrows(x: real, y: real, all: real)
    requires all > 0.0 && x < y
    ensures x / all < y / all
  {
    assert (x / all) * all == x && (y / all) * all == y;
  }

  /** The p-value lies in (0, 1], does not care which sign is which, and `min` with 1 changes it
      exactly when the counts are equal. */
  lemma PValueLaws(nPos: nat, nNeg: nat)
    requires nPos + nNeg > 0
    ensures SignTestPValue(nPos, nNeg).Some?
    ensures 0.0 < SignTestPValue(nPos, nNeg).value <= 1.0
    ensures SignTestPValue(nPos, nNeg) == SignTestPValue(nNeg, nPos)
    ensures Pow2(nPos + nNeg) > 0
    ensures nPos == nNeg
            <==> SignTestPValue(nPos, nNeg).value
                 != 2.0 * (TailSum(nPos + nNeg, Min(nPos, nNeg)) as real / Pow2(nPos + nNeg) as real)
  {
    var n, k := nPos + nNeg, Min(nPos, nNeg);
    TwoTails(n, k);
    TailPositive(n, k);
    Pow2Positive(n);
    hide Pow2, TailSum, Extreme;
    Clamped(TailSum(n, k), Pow2(n));
  }

  lemma Clamped(tail: nat, all: nat)
    requires all > 0 && tail > 0
    ensures 0.0 < MinReal(1.0, 2.0 * (tail as real / all as real)) <= 1.0
    ensures MinReal(1.0, 2.0 * (tail as real / all as real)) != 2.0 * (tail as real / all as real)
            <==> 2 * tail > all
  {
    var t, a := tail as real, all as real;
    var q := t / a;
    assert q * a == t;
    Quotient(2.0 * t, a);
    SameQuotient(t, a);
  }

  lemma SameQuotient(tail: real, all: real)
    requires all > 0.0
    ensures tail * 2.0 / all == (2.0 * tail) / all == 2.0 * (tail / all)
  {
    var q := tail / all;
    assert q * all == tail;
    assert (2.0 * q) * all == 2.0 * tail;
  }

  lemma {:induction false} TailPositive(n: nat, k: nat)
    ensures TailSum(n, k) > 0
    decreases k
  {
    if k > 0 {
      TailPositive(n, k - 1);
    }
  }

  lemma ExtremeGrows(n: nat, k: nat, m: nat)
    requires k < m && 2 * m <= n
    ensures |Extreme(n, k)| < |Extreme(n, m)|
  {
    EvenlyOnes(n, m);
    var split := Evenly(n, m);
    hide Patterns, Ones;
    assert split in Extreme(n, m) && split !in Extreme(n, k);
    SubsetSize(Extreme(n, k), Extreme(n, m));
  }

  /** For a fixed number of differences, a more lopsided split has a strictly smaller p-value. */
  lemma PValueFalls(nPos: nat, nNeg: nat, mPos: nat, mNeg: nat)
    requires nPos + nNeg == mPos + mNeg
    requires Min(nPos, nNeg) < Min(mPos, mNeg)
    ensures SignTestPValue(nPos, nNeg).Some? && SignTestPValue(mPos, mNeg).Some?
    ensures SignTestPValue(nPos, nNeg).value < SignTestPValue(mPos, mNeg).value
  {
    var n, k, m := nPos + nNeg, Min(nPos, nNeg), Min(mPos, mNeg);
    PValueMeaning(nPos, nNeg);
    PValueMeaning(mPos, mNeg);
    ExtremeGrows(n, k, m);
    hide Extreme, SignTestPValue;
    QuotientGrows(|Extreme(n, k)| as real, |Extreme(n, m)| as real, Pow2(n) as real);
  }

  lemma RecordValue(deltas: seq<real>, nPos: nat, nNeg: nat)
    requires |NonZero(deltas)| == nPos + nNeg > 0 && CountNegative(NonZero(deltas)) == nNeg
    ensures Pow2(nPos + nNeg) > 0
    ensures SignTestP(deltas)
            == MinReal(TailSum(nPos + nNeg, Min(nPos, nNeg)) as real * 2.0 / Pow2(nPos + nNeg) as real, 1.0)
  {
    Pow2Positive(nPos + nNeg);
    assert Min(nNeg, nPos) == Min(nPos, nNeg);
    hide Pow2, TailSum, NonZero, CountPositive, CountNegative;
  }

  /** The two implementations agree on every list of differences with one that is not zero; without
      one, the record says 1 and the report has no value. */
  lemma ImplementationsAgree(deltas: seq<real>)
    ensures NonZero(deltas) == [] <==> SignTestPValue(CountPositive(deltas), CountNegative(deltas)).None?
    ensures NonZero(deltas) == [] ==> SignTestP(deltas) == 1.0
    ensures NonZero(deltas) != []
            ==> SignTestPValue(CountPositive(deltas), CountNegative(deltas)) == Some(SignTestP(deltas))
  {
    NonZeroCounts(deltas);
    var nPos, nNeg := CountPositive(deltas), CountNegative(deltas);
    var n, k := nPos + nNeg, Min(nPos, nNeg);
    if n > 0 {
      Pow2Positive(n);
      SameQuotient(TailSum(n, k) as real, Pow2(n) as real);
      hide Pow2, TailSum, NonZero, CountPositive, CountNegative;
      RecordValue(deltas, nPos, nNeg);
    }
  }
}
