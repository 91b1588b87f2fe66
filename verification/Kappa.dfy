/** Cohen's kappa between a human and a scorer, in exact arithmetic, against the confusion counts. */
module Kappa {
  import opened Options
  import opened Reals

  datatype LabelError = CountsDiffer | NoLabels

  // ---------------------------------------------------------------- the code

  function Agreements(human: seq<bool>, scorer: seq<bool>): nat
    requires |human| == |scorer|
  {
    if human == [] then 0
    else (if human[0] == scorer[0] then 1 else 0) + Agreements(human[1..], scorer[1..])
  }

  function Passes(labels: seq<bool>): nat {
    if labels == [] then 0 else (if labels[0] then 1 else 0) + Passes(labels[1..])
  }

  predicate Varies(labels: seq<bool>) {
    true in labels && false in labels
  }

  /** `None` is the undefined kappa of a rater without variance. */
  function CohensKappa(human: seq<bool>, scorer: seq<bool>): Result<Option<real>, LabelError> {
    if |human| != |scorer| then Err(CountsDiffer)
    else if human == [] then Err(NoLabels)
    else if !Varies(human) || !Varies(scorer) then Ok(None)
    else
      var count := |human|;
      var observed := Rate(Agreements(human, scorer), count);
      var humanPass := Rate(Passes(human), count);
      var scorerPass := Rate(Passes(scorer), count);
      var expected := Expected(humanPass, scorerPass);
      if expected == 1.0 then Ok(None) else Ok(Some((observed - expected) / (1.0 - expected)))
  }

  function Rate(part: nat, count: nat): real
    requires count > 0
  {
    part as real / count as real
  }

  /** The agreement two independent raters with these pass rates would have. */
  function Expected(humanPass: real, scorerPass: real): real {
    humanPass * scorerPass + (1.0 - humanPass) * (1.0 - scorerPass)
  }

  datatype Rater = Human | Scorer

  function UndefinedVariance(human: seq<bool>, scorer: seq<bool>): Option<Rater> {
    if !Varies(human) then Some(Human) else if !Varies(scorer) then Some(Scorer) else None
  }

  /** How often the human says `h` and the scorer says `s`. */
  function Cell(human: seq<bool>, scorer: seq<bool>, h: bool, s: bool): nat
    requires |human| == |scorer|
  {
    if human == [] then 0
    else (if human[0] == h && scorer[0] == s then 1 else 0) + Cell(human[1..], scorer[1..], h, s)
  }

  // ---------------------------------------------------------------- counts

  /** The confusion counts partition the items: rows are the human's counts, columns the scorer's, the
      diagonal the agreements. */
  lemma {:induction false} Partition(human: seq<bool>, scorer: seq<bool>)
    requires |human| == |scorer|
    ensures Cell(human, scorer, true, true) + Cell(human, scorer, true, false) == Passes(human)
    ensures Cell(human, scorer, true, true) + Cell(human, scorer, false, true) == Passes(scorer)
    ensures Cell(human, scorer, true, true) + Cell(human, scorer, false, false) == Agreements(human, scorer)
    ensures Passes(human) + Cell(human, scorer, false, true) + Cell(human, scorer, false, false) == |human|
  {
    if human != [] {
      Partition(human[1..], scorer[1..]);
    }
  }

  lemma {:induction false} PassesBound(labels: seq<bool>)
    ensures Passes(labels) <= |labels|
    ensures Varies(labels) <==> 0 < Passes(labels) < |labels|
  {
    if labels != [] {
      PassesBound(labels[1..]);
      AnyPass(labels);
      AnyFail(labels);
    }
  }

  lemma {:induction false} AnyPass(labels: seq<bool>)
    ensures true in labels <==> Passes(labels) > 0
  {
    if labels != [] {
      AnyPass(labels[1..]);
      assert labels == [labels[0]] + labels[1..];
    }
  }

  lemma {:induction false} AnyFail(labels: seq<bool>)
    ensures false in labels <==> Passes(labels) < |labels|
    ensures Passes(labels) <= |labels|
  {
    if labels != [] {
      AnyFail(labels[1..]);
      assert labels == [labels[0]] + labels[1..];
    }
  }

  /** No disagreement is counted exactly when the labels are the same. */
  lemma {:induction false} AllAgree(human: seq<bool>, scorer: seq<bool>)
    requires |human| == |scorer|
    ensures Agreements(human, scorer) <= |human|
    ensures Agreements(human, scorer) == |human| <==> human == scorer
  {
    if human != [] {
      AllAgree(human[1..], scorer[1..]);
      assert human == [human[0]] + human[1..] && scorer == [scorer[0]] + scorer[1..];
    }
  }

  // ---------------------------------------------------------------- the formula

  /** Chance disagreement, from the counts. */
  function Chance(a: real, b: real, c: real, d: real): real {
    Crossed(a + b, c + d, a + c, b + d)
  }

  /** From the row and column sums: the human's pass with the scorer's fail, and the reverse. */
  function Crossed(pass: real, fail: real, pass': real, fail': real): real {
    pass * fail' + pass' * fail
  }

  /** Agreement beyond chance, from the counts. */
  function Excess(a: real, b: real, c: real, d: real): real {
    2.0 * (a * d - b * c)
  }

  lemma Quotient(x: real, d: real)
    requires d > 0.0
    ensures (x / d) * d == x
    ensures x > 0.0 ==> x / d > 0.0
  {
    var q := x / d;
    assert q * d == x;
    if x > 0.0 && q <= 0.0 {
      NotPositive(q, d);
    }
  }

  /** Scaled by n*n, what is left of 1 after chance agreement is `Chance`. */
  lemma ChanceLeft(a: real, b: real, c: real, d: real, n: real, hp: real, sp: real)
    requires n == a + b + c + d && hp * n == a + b && sp * n == a + c
    ensures (1.0 - Expected(hp, sp)) * (n * n) == Chance(a, b, c, d)
  {
    assert (hp * sp) * (n * n) == (hp * n) * (sp * n);
    assert ((1.0 - hp) * (1.0 - sp)) * (n * n) == ((1.0 - hp) * n) * ((1.0 - sp) * n);
    assert (1.0 - hp) * n == c + d && (1.0 - sp) * n == b + d;
    assert n * n - (a + b) * (a + c) - (c + d) * (b + d) == Chance(a, b, c, d);
  }

  lemma BeyondChance(a: real, b: real, c: real, d: real, n: real, hp: real, sp: real, po: real)
    requires n == a + b + c + d && hp * n == a + b && sp * n == a + c && po * n == a + d
    ensures (po - Expected(hp, sp)) * (n * n) == Excess(a, b, c, d)
  {
    ChanceLeft(a, b, c, d, n, hp, sp);
    assert (po - 1.0) * (n * n) == (po * n - n) * n;
    assert (a + d - n) * n == -((b + c) * n);
    assert Chance(a, b, c, d) - (b + c) * n == 2.0 * (a * d - b * c);
  }

  lemma Cancel(x: real, y: real, s: real)
    requires s > 0.0 && y > 0.0
    ensures (x / y) * (y * s) == x * s
  {
    Quotient(x, y);
    assert (x / y) * (y * s) == ((x / y) * y) * s;
  }

  lemma ChancePositive(a: real, b: real, c: real, d: real)
    requires a + b > 0.0 && c + d > 0.0 && a + c > 0.0 && b + d > 0.0
    ensures Chance(a, b, c, d) > 0.0
  {
    hide Crossed;
    CrossedPositive(a + b, c + d, a + c, b + d);
  }

  lemma CrossedPositive(pass: real, fail: real, pass': real, fail': real)
    requires pass > 0.0 && fail > 0.0 && pass' > 0.0 && fail' > 0.0
    ensures Crossed(pass, fail, pass', fail') > 0.0
  {
    BothPositive(pass, fail');
    BothPositive(pass', fail);
  }

  lemma BothPositive(x: real, y: real)
    requires x > 0.0 && y > 0.0
    ensures x * y > 0.0
  {
  }

  lemma Sizes(a: real, b: real, c: real, d: real, n: real, hp: real, sp: real, po: real)
    returns (e: real, chance: real, excess: real, nn: real)
    requires n == a + b + c + d && hp * n == a + b && sp * n == a + c && po * n == a + d
    requires a + b > 0.0 && c + d > 0.0 && a + c > 0.0 && b + d > 0.0
    ensures e == Expected(hp, sp) && chance == Chance(a, b, c, d) && excess == Excess(a, b, c, d)
    ensures nn > 0.0 && chance > 0.0
    ensures (1.0 - e) * nn == chance && (po - e) * nn == excess
  {
    hide Expected, Chance, Excess;
    ChanceLeft(a, b, c, d, n, hp, sp);
    BeyondChance(a, b, c, d, n, hp, sp, po);
    ChancePositive(a, b, c, d);
    BothPositive(n, n);
    e, chance, excess, nn := Expected(hp, sp), Chance(a, b, c, d), Excess(a, b, c, d), n * n;
  }

  lemma KappaFraction(a: real, b: real, c: real, d: real, n: real, hp: real, sp: real, po: real)
    requires n == a + b + c + d && hp * n == a + b && sp * n == a + c && po * n == a + d
    requires a + b > 0.0 && c + d > 0.0 && a + c > 0.0 && b + d > 0.0
    ensures Expected(hp, sp) < 1.0 && Chance(a, b, c, d) > 0.0
    ensures (po - Expected(hp, sp)) / (1.0 - Expected(hp, sp)) * Chance(a, b, c, d) == Excess(a, b, c, d)
  {
    hide Expected, Chance, Excess;
    var e, chance, excess, nn := Sizes(a, b, c, d, n, hp, sp, po);
    Scaled(po - e, 1.0 - e, nn, excess, chance);
  }

  lemma Scaled(x: real, y: real, s: real, xs: real, ys: real)
    requires s > 0.0 && ys > 0.0 && x * s == xs && y * s == ys
    ensures y > 0.0 && x / y * ys == xs
  {
    if y <= 0.0 {
      NotPositive(y, s);
    } else {
      Cancel(x, y, s);
    }
  }

  // ---------------------------------------------------------------- kappa

  lemma RateTimes(part: nat, count: nat)
    requires count > 0
    ensures Rate(part, count) * count as real == part as real
  {
    Quotient(part as real, count as real);
  }

  lemma Rates(human: seq<bool>, scorer: seq<bool>) returns (po: real, hp: real, sp: real)
    requires |human| == |scorer| && Varies(human) && Varies(scorer)
    ensures hp == Rate(Passes(human), |human|) && sp == Rate(Passes(scorer), |human|)
    ensures po * |human| as real == Agreements(human, scorer) as real
    ensures hp * |human| as real == Passes(human) as real && sp * |human| as real == Passes(scorer) as real
    ensures Expected(hp, sp) != 1.0
            ==> CohensKappa(human, scorer) == Ok(Some((po - Expected(hp, sp)) / (1.0 - Expected(hp, sp))))
  {
    hide Expected, Agreements, Passes, Rate;
    po := Rate(Agreements(human, scorer), |human|);
    hp, sp := Rate(Passes(human), |human|), Rate(Passes(scorer), |human|);
    RateTimes(Agreements(human, scorer), |human|);
    RateTimes(Passes(human), |human|);
    RateTimes(Passes(scorer), |human|);
  }

  /** The four confusion counts as numbers: `a` both pass, `b` only the human, `c` only the scorer,
      `d` neither; and what kappa, agreement and the pass rates are in terms of them. */
  lemma KappaFormula(human: seq<bool>, scorer: seq<bool>)
    returns (a: real, b: real, c: real, d: real, kappa: real)
    requires |human| == |scorer| && Varies(human) && Varies(scorer)
    ensures a == Cell(human, scorer, true, true) as real && b == Cell(human, scorer, true, false) as real
    ensures c == Cell(human, scorer, false, true) as real && d == Cell(human, scorer, false, false) as real
    ensures CohensKappa(human, scorer) == Ok(Some(kappa))
    ensures Expected(Rate(Passes(human), |human|), Rate(Passes(scorer), |human|)) < 1.0
    ensures Chance(a, b, c, d) > 0.0
    ensures kappa * Chance(a, b, c, d) == Excess(a, b, c, d)
    ensures (b + c == 0.0) == (human == scorer)
  {
    hide CohensKappa, Expected, Rate, Chance, Excess, Varies, Cell, Passes, Agreements;
    a, b := Cell(human, scorer, true, true) as real, Cell(human, scorer, true, false) as real;
    c, d := Cell(human, scorer, false, true) as real, Cell(human, scorer, false, false) as real;
    Partition(human, scorer);
    PassesBound(human);
    PassesBound(scorer);
    AllAgree(human, scorer);
    var po, hp, sp := Rates(human, scorer);
    KappaFraction(a, b, c, d, |human| as real, hp, sp, po);
    kappa := (po - Expected(hp, sp)) / (1.0 - Expected(hp, sp));
  }

  /** Kappa has a value exactly when both raters vary; then chance agreement is below 1, so the second
      test for it never fires. */
  lemma KappaDefined(human: seq<bool>, scorer: seq<bool>)
    requires |human| == |scorer| > 0
    ensures CohensKappa(human, scorer).Ok?
    ensures CohensKappa(human, scorer).value.Some? <==> UndefinedVariance(human, scorer).None?
    ensures UndefinedVariance(human, scorer).None?
            ==> Expected(Rate(Passes(human), |human|), Rate(Passes(scorer), |human|)) < 1.0
  {
    if UndefinedVariance(human, scorer).None? {
      var _, _, _, _, _ := KappaFormula(human, scorer);
    }
  }

  lemma SameSign(x: real, chance: real)
    requires chance > 0.0
    ensures x * chance >= 0.0 <==> x >= 0.0
    ensures x * chance == 0.0 <==> x == 0.0
  {
  }

  lemma UpperGap(a: real, b: real, c: real, d: real)
    ensures Chance(a, b, c, d) - Excess(a, b, c, d) == (b + c) * (a + b + c + d)
  {
  }

  lemma LowerGap(a: real, b: real, c: real, d: real)
    ensures Chance(a, b, c, d) + Excess(a, b, c, d)
            == (b - c) * (b - c) + 4.0 * (a * d) + (a + d) * (b + c)
  {
  }

  lemma NonNegative(x: real, y: real)
    requires x >= 0.0 && y >= 0.0
    ensures x * y >= 0.0
  {
  }

  lemma Gaps(a: real, b: real, c: real, d: real) returns (up: real, low: real)
    requires a >= 0.0 && b >= 0.0 && c >= 0.0 && d >= 0.0 && a + b + c + d > 0.0
    ensures up == Chance(a, b, c, d) - Excess(a, b, c, d) && low == Chance(a, b, c, d) + Excess(a, b, c, d)
    ensures up >= 0.0 && low >= 0.0
    ensures up == 0.0 <==> b + c == 0.0
  {
    hide Chance, Excess;
    UpperGap(a, b, c, d);
    up, low := (b + c) * (a + b + c + d), (b - c) * (b - c) + 4.0 * (a * d) + (a + d) * (b + c);
    SameSign(b + c, a + b + c + d);
    LowerGap(a, b, c, d);
    NonNegative(a, d);
    NonNegative(a + d, b + c);
    Square(b - c);
  }

  lemma ExcessWithinChance(a: real, b: real, c: real, d: real)
    requires a >= 0.0 && b >= 0.0 && c >= 0.0 && d >= 0.0 && a + b + c + d > 0.0
    ensures -Chance(a, b, c, d) <= Excess(a, b, c, d) <= Chance(a, b, c, d)
    ensures Excess(a, b, c, d) == Chance(a, b, c, d) <==> b + c == 0.0
  {
    hide Chance, Excess;
    var _, _ := Gaps(a, b, c, d);
  }

  lemma NoExcess(a: real, b: real, c: real, d: real)
    ensures Excess(a, b, c, d) == 0.0 <==> a * d == b * c
  {
  }

  lemma Ratio(k: real, chance: real, v: real)
    requires chance > 0.0 && k * chance == v
    ensures k <= 1.0 <==> v <= chance
    ensures k == 1.0 <==> v == chance
    ensures -1.0 <= k <==> -chance <= v
    ensures k == 0.0 <==> v == 0.0
  {
    SameSign(1.0 - k, chance);
    SameSign(k + 1.0, chance);
    SameSign(k, chance);
    assert (1.0 - k) * chance == chance - v;
    assert (k + 1.0) * chance == v + chance;
  }

  /** Kappa lies in [-1, 1]; it is 1 exactly for identical labels, and 0 exactly for raters whose
      confusion counts are those of independent ones. */
  lemma KappaRange(human: seq<bool>, scorer: seq<bool>)
    requires |human| == |scorer| && Varies(human) && Varies(scorer)
    ensures CohensKappa(human, scorer).Ok? && CohensKappa(human, scorer).value.Some?
    ensures -1.0 <= CohensKappa(human, scorer).value.value <= 1.0
    ensures CohensKappa(human, scorer).value.value == 1.0 <==> human == scorer
    ensures CohensKappa(human, scorer).value.value == 0.0
            <==> Cell(human, scorer, true, true) as real * Cell(human, scorer, false, false) as real
                 == Cell(human, scorer, true, false) as real * Cell(human, scorer, false, true) as real
  {
    hide CohensKappa, Expected, Chance, Excess, Varies, Cell, Passes, Agreements;
    var a, b, c, d, k := KappaFormula(human, scorer);
    CellsSum(human, scorer, a, b, c, d);
    ExcessWithinChance(a, b, c, d);
    NoExcess(a, b, c, d);
    Ratio(k, Chance(a, b, c, d), Excess(a, b, c, d));
  }

  lemma CellsSum(human: seq<bool>, scorer: seq<bool>, a: real, b: real, c: real, d: real)
    requires |human| == |scorer| && Varies(human)
    requires a == Cell(human, scorer, true, true) as real && b == Cell(human, scorer, true, false) as real
    requires c == Cell(human, scorer, false, true) as real && d == Cell(human, scorer, false, false) as real
    ensures a + b + c + d > 0.0
  {
    Partition(human, scorer);
  }

}
