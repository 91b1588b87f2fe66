/** The Wilson score interval in exact arithmetic: both implementations, what the interval means, and
    why clamping it to [0, 1] changes nothing. */
module Wilson {
  import opened Options
  import opened Reals

  /** Exact square roots: of each number that has one, the non-negative one. */
  ghost predicate IsSqrt(sqrt: real -> real) {
    forall x: real :: x >= 0.0 ==> sqrt(x) >= 0.0 && sqrt(x) * sqrt(x) == x
  }

  function Centre(p: real, n: real, z2: real): real
    requires n > 0.0
  {
    p + z2 / (2.0 * n)
  }

  function Radicand(p: real, n: real, z2: real): real
    requires n > 0.0
  {
    (p * (1.0 - p) + z2 / (4.0 * n)) / n
  }

  function Denom(n: real, z2: real): real
    requires n > 0.0
  {
    1.0 + z2 / n
  }

  /** The bounds before they are clamped. */
  function RawInterval(sqrt: real -> real, k: int, n: int, z: real): (real, real)
    requires n > 0
  {
    var trials := n as real;
    var pHat := k as real / trials;
    var z2 := z * z;
    var center := Centre(pHat, trials, z2);
    var margin := z * sqrt(Radicand(pHat, trials, z2));
    DenomPositive(z, trials);
    var denom := Denom(trials, z2);
    ((center - margin) / denom, (center + margin) / denom)
  }

  function WilsonInterval(sqrt: real -> real, k: int, n: nat, z: real): (real, real) {
    if n == 0 then (0.0, 0.0)
    else
      var (low, high) := RawInterval(sqrt, k, n, z);
      (MinReal(1.0, MaxReal(0.0, low)), MinReal(1.0, MaxReal(0.0, high)))
  }

  /** The benchmark report's version: another radicand, the division moved inside, one clamp a side. */
  function ReportInterval(sqrt: real -> real, k: int, n: nat, z: real): Option<(real, real)> {
    if n == 0 then None
    else
      var trials := n as real;
      var p := k as real / trials;
      DenomPositive(z, trials);
      var denom := Denom(trials, z * z);
      var centre := Centre(p, trials, z * z) / denom;
      var half := z * sqrt(ReportRadicand(p, trials, z * z)) / denom;
      Some((MaxReal(0.0, centre - half), MinReal(1.0, centre + half)))
  }

  function ReportRadicand(p: real, n: real, z2: real): real
    requires n > 0.0
  {
    p * (1.0 - p) / n + z2 / (4.0 * n * n)
  }

  lemma DenomPositive(z: real, trials: real)
    requires trials > 0.0
    ensures Denom(trials, z * z) >= 1.0
  {
    Square(z);
    Share(z * z, trials);
  }

  /** A quotient undone, and its sign. */
  lemma Share(x: real, d: real)
    requires d > 0.0
    ensures (x / d) * d == x
    ensures x >= 0.0 ==> x / d >= 0.0
    ensures x <= d ==> x / d <= 1.0
  {
    var q := x / d;
    assert q * d == x;
    SameSign(d, q);
    SameSign(d, -q);
    SameSign(d, q - 1.0);
    assert d * (q - 1.0) == x - d;
  }

  lemma SameSign(d: real, v: real)
    requires d > 0.0
    ensures d * v <= 0.0 <==> v <= 0.0
  {
  }

  lemma Product(a: real, b: real)
    ensures a >= 0.0 && b >= 0.0 ==> a * b >= 0.0
    ensures a > 0.0 && b > 0.0 ==> a * b > 0.0
  {
  }

  // ---------------------------------------------------------------- the quadratic behind the bounds

  /** The score test at level `z` does not reject the proportion `x`, given the observed `p`. */
  predicate Accepted(p: real, n: real, z: real, x: real) {
    n * ((x - p) * (x - p)) <= z * z * (x * (1.0 - x))
  }

  /** The numbers the code computes: `w` is z*z/n, `d` the denominator, `c` the centre, `m` the margin. */
  predicate Parts(p: real, n: real, z: real, w: real, d: real, c: real, m: real) {
    && n > 0.0
    && w * n == z * z
    && w >= 0.0
    && d == 1.0 + w
    && c == p + w / 2.0
    && m >= 0.0
    && m * m == w * (p * (1.0 - p) + w / 4.0)
  }

  /** Completing the square. */
  lemma Completed(p: real, w: real, x: real)
    ensures var d, c := 1.0 + w, p + w / 2.0;
            d * ((x - p) * (x - p) - w * (x * (1.0 - x)))
            == (d * x - c) * (d * x - c) - w * (p * (1.0 - p) + w / 4.0)
  {
    var d, c := 1.0 + w, p + w / 2.0;
    assert (x - p) * (x - p) - w * (x * (1.0 - x)) == d * (x * x) - 2.0 * c * x + p * p;
    assert d * (d * (x * x) - 2.0 * c * x + p * p) == (d * x - c) * (d * x - c) - (c * c - d * (p * p));
    assert c * c - d * (p * p) == w * (p * (1.0 - p) + w / 4.0);
  }

  /** Comparing squares of a number and of a non-negative one. */
  lemma SquareBelow(y: real, m: real)
    requires m >= 0.0
    ensures y * y <= m * m <==> -m <= y <= m
  {
    Product(m - y, m + y);
    Product(y - m, y + m);
    Product(-y - m, -y + m);
    assert (m - y) * (m + y) == m * m - y * y;
    assert (y - m) * (y + m) == y * y - m * m;
    assert (-y - m) * (-y + m) == y * y - m * m;
  }

  lemma AcceptedQuadratic(p: real, n: real, z: real, w: real, x: real)
    requires n > 0.0 && w * n == z * z
    ensures Accepted(p, n, z, x) <==> (x - p) * (x - p) - w * (x * (1.0 - x)) <= 0.0
  {
    var sq, xx := (x - p) * (x - p), x * (1.0 - x);
    assert z * z * xx == (w * n) * xx == n * (w * xx);
    assert n * sq - n * (w * xx) == n * (sq - w * xx);
    SameSign(n, sq - w * xx);
  }

  lemma AcceptedBetween(p: real, n: real, z: real, w: real, d: real, c: real, m: real, x: real)
    requires Parts(p, n, z, w, d, c, m)
    ensures Accepted(p, n, z, x) <==> c - m <= d * x <= c + m
  {
    AcceptedQuadratic(p, n, z, w, x);
    Completed(p, w, x);
    SquareBelow(d * x - c, m);
    SameSign(d, (x - p) * (x - p) - w * (x * (1.0 - x)));
  }

  lemma Divided(a: real, d: real, x: real)
    requires d > 0.0
    ensures a / d <= x <==> a <= d * x
    ensures x <= a / d <==> d * x <= a
  {
    var q := a / d;
    assert q * d == a;
    SameSign(d, q - x);
    SameSign(d, x - q);
    assert d * (q - x) == a - d * x;
    assert d * (x - q) == d * x - a;
  }

  lemma RadicandParts(p: real, n: real, z: real, w: real)
    requires n > 0.0 && w * n == z * z && w >= 0.0 && 0.0 <= p <= 1.0
    ensures Radicand(p, n, z * z) >= 0.0
    ensures Radicand(p, n, z * z) * n == p * (1.0 - p) + w / 4.0
  {
    Product(p, 1.0 - p);
    var q := z * z / (4.0 * n);
    Share(z * z, 4.0 * n);
    assert (4.0 * q - w) * n == q * (4.0 * n) - w * n;
    NoProduct(4.0 * q - w, n);
    Share(p * (1.0 - p) + q, n);
  }

  /** The computed numbers fit together whenever the proportion is one. */
  lemma IntervalParts(sqrt: real -> real, k: nat, n: nat, z: real)
    requires IsSqrt(sqrt) && k <= n && n > 0 && z >= 0.0
    ensures var p, t := k as real / n as real, n as real;
            Parts(p, t, z, z * z / t, Denom(t, z * z), Centre(p, t, z * z), z * sqrt(Radicand(p, t, z * z)))
    ensures 0.0 <= k as real / n as real <= 1.0
  {
    var p, t := k as real / n as real, n as real;
    Share(k as real, t);
    var w := z * z / t;
    Square(z);
    Share(z * z, t);
    RadicandParts(p, t, z, w);
    var r := Radicand(p, t, z * z);
    var s := sqrt(r);
    assert s >= 0.0 && s * s == r;
    Margin(z, s, r, w, t, p * (1.0 - p) + w / 4.0);
    HalfShare(z * z, t);
  }

  lemma Margin(z: real, s: real, r: real, w: real, n: real, v: real)
    requires z >= 0.0 && s >= 0.0 && s * s == r && w * n == z * z && r * n == v
    ensures z * s >= 0.0 && (z * s) * (z * s) == w * v
  {
    assert (z * s) * (z * s) == (z * z) * (s * s);
    assert (w * n) * r == w * (r * n);
  }

  lemma HalfShare(x: real, d: real)
    requires d > 0.0
    ensures x / (2.0 * d) == (x / d) / 2.0
  {
    var q, h := x / d, x / (2.0 * d);
    Share(x, d);
    Share(x, 2.0 * d);
    assert (2.0 * h - q) * d == h * (2.0 * d) - q * d;
    NoProduct(2.0 * h - q, d);
  }

  lemma NoProduct(v: real, d: real)
    requires d > 0.0 && v * d == 0.0
    ensures v == 0.0
  {
    SameSign(d, v);
    SameSign(d, -v);
  }

  // ---------------------------------------------------------------- the interval's meaning

  /** The numbers behind the bounds, and what they satisfy. */
  lemma Numbers(sqrt: real -> real, k: nat, n: nat, z: real)
    returns (p: real, w: real, d: real, c: real, m: real)
    requires IsSqrt(sqrt) && k <= n && n > 0 && z >= 0.0
    ensures p == k as real / n as real && 0.0 <= p <= 1.0
    ensures Parts(p, n as real, z, w, d, c, m)
    ensures RawInterval(sqrt, k, n, z).0 == (c - m) / d
    ensures RawInterval(sqrt, k, n, z).1 == (c + m) / d
  {
    p := k as real / n as real;
    IntervalParts(sqrt, k, n, z);
    hide Centre, Radicand, Denom;
    w := z * z / n as real;
    d := Denom(n as real, z * z);
    c := Centre(p, n as real, z * z);
    m := z * sqrt(Radicand(p, n as real, z * z));
  }

  /** The interval holds exactly the proportions the score test accepts. */
  lemma IntervalMeaning(sqrt: real -> real, k: nat, n: nat, z: real, x: real)
    requires IsSqrt(sqrt) && k <= n && n > 0 && z >= 0.0
    ensures RawInterval(sqrt, k, n, z).0 <= x <= RawInterval(sqrt, k, n, z).1
            <==> Accepted(k as real / n as real, n as real, z, x)
  {
    hide RawInterval, IsSqrt, Accepted;
    var p, w, d, c, m := Numbers(sqrt, k, n, z);
    AcceptedBetween(p, n as real, z, w, d, c, m, x);
    Divided(c - m, d, x);
    Divided(c + m, d, x);
  }

  /** The observed proportion is always accepted, so it lies between the bounds. */
  lemma ObservedInside(sqrt: real -> real, k: nat, n: nat, z: real)
    requires IsSqrt(sqrt) && k <= n && n > 0 && z >= 0.0
    ensures RawInterval(sqrt, k, n, z).0 <= k as real / n as real <= RawInterval(sqrt, k, n, z).1
  {
    var p := k as real / n as real;
    Share(k as real, n as real);
    Product(p, 1.0 - p);
    Square(z);
    Product(z * z, p * (1.0 - p));
    IntervalMeaning(sqrt, k, n, z, p);
  }

  /** An accepted number is a proportion: a square is never below a negative number. */
  lemma AcceptedIsProportion(p: real, n: real, z: real, x: real)
    requires n > 0.0 && 0.0 <= p <= 1.0 && Accepted(p, n, z, x)
    ensures 0.0 <= x <= 1.0
  {
    Square(z);
    var e, v := (x - p) * (x - p), x * (1.0 - x);
    OutsideUnit(p, x, e, v);
    if v < 0.0 && e > 0.0 {
      NoRoom(n, e, z * z, v);
    }
  }

  lemma OutsideUnit(p: real, x: real, e: real, v: real)
    requires 0.0 <= p <= 1.0 && e == (x - p) * (x - p) && v == x * (1.0 - x)
    ensures x < 0.0 || x > 1.0 ==> v < 0.0 && e > 0.0
  {
    if x < 0.0 {
      Opposite(-x, 1.0 - x, v);
      Opposite(p - x, p - x, -e);
    } else if x > 1.0 {
      Opposite(x, x - 1.0, v);
      Opposite(x - p, x - p, -e);
    }
  }

  lemma Opposite(a: real, b: real, v: real)
    requires a > 0.0 && b > 0.0 && a * b == -v
    ensures v < 0.0
  {
    Product(a, b);
  }

  lemma NoRoom(n: real, e: real, zz: real, v: real)
    requires n > 0.0 && e > 0.0 && zz >= 0.0 && v < 0.0
    ensures zz * v < n * e
  {
    Product(n, e);
    Product(zz, -v);
  }

  /** Before any clamping the bounds already lie in [0, 1], around the observed proportion; so the
      clamped interval is the same one. */
  lemma BoundsNeedNoClamp(sqrt: real -> real, k: nat, n: nat, z: real)
    requires IsSqrt(sqrt) && k <= n && n > 0 && z >= 0.0
    ensures 0.0 <= RawInterval(sqrt, k, n, z).0 <= k as real / n as real <= RawInterval(sqrt, k, n, z).1 <= 1.0
    ensures WilsonInterval(sqrt, k, n, z) == RawInterval(sqrt, k, n, z)
  {
    var (low, high) := RawInterval(sqrt, k, n, z);
    var p := k as real / n as real;
    Share(k as real, n as real);
    ObservedInside(sqrt, k, n, z);
    IntervalMeaning(sqrt, k, n, z, low);
    IntervalMeaning(sqrt, k, n, z, high);
    AcceptedIsProportion(p, n as real, z, low);
    AcceptedIsProportion(p, n as real, z, high);
  }

  /** The margin and the shared terms are determined by what they satisfy. */
  lemma SamePart(n: real, z: real, p: real, w: real, d: real, c: real, m: real,
                 q: real, w': real, d': real, c': real, m': real)
    requires Parts(p, n, z, w, d, c, m) && Parts(q, n, z, w', d', c', m')
    ensures w == w' && d == d' && c' - c == q - p
    ensures q == p || q == 1.0 - p ==> m == m'
  {
    assert (w - w') * n == w * n - w' * n;
    NoProduct(w - w', n);
    if q == p || q == 1.0 - p {
      assert p * (1.0 - p) == q * (1.0 - q);
      SquareBelow(m, m');
      SquareBelow(m', m);
    }
  }

  /** Counting failures instead of successes mirrors the interval. */
  lemma Mirrored(sqrt: real -> real, k: nat, n: nat, z: real)
    requires IsSqrt(sqrt) && k <= n && n > 0 && z >= 0.0
    ensures WilsonInterval(sqrt, n - k, n, z).0 == 1.0 - WilsonInterval(sqrt, k, n, z).1
    ensures WilsonInterval(sqrt, n - k, n, z).1 == 1.0 - WilsonInterval(sqrt, k, n, z).0
  {
    hide RawInterval, WilsonInterval, IsSqrt;
    BoundsNeedNoClamp(sqrt, k, n, z);
    BoundsNeedNoClamp(sqrt, n - k, n, z);
    var p, w, d, c, m := Numbers(sqrt, k, n, z);
    var q, w', d', c', m' := Numbers(sqrt, n - k, n, z);
    OtherShare(k, n);
    SamePart(n as real, z, p, w, d, c, m, q, w', d', c', m');
    MirrorQuotient(c, m, d);
  }

  lemma OtherShare(k: nat, n: nat)
    requires k <= n && n > 0
    ensures (n - k) as real / n as real == 1.0 - k as real / n as real
  {
    Share(k as real, n as real);
    Share((n - k) as real, n as real);
    var p, q := k as real / n as real, (n - k) as real / n as real;
    assert (q + p - 1.0) * (n as real) == q * (n as real) + p * (n as real) - n as real;
    NoProduct(q + p - 1.0, n as real);
  }

  lemma MirrorQuotient(c: real, m: real, d: real)
    requires d > 0.0
    ensures (d - c - m) / d == 1.0 - (c + m) / d
    ensures (d - c + m) / d == 1.0 - (c - m) / d
  {
    SumOfQuotients(d - c - m, c + m, d);
    SumOfQuotients(d - c + m, c - m, d);
  }

  lemma SumOfQuotients(a: real, b: real, d: real)
    requires d > 0.0 && a + b == d
    ensures a / d == 1.0 - b / d
  {
    Share(a, d);
    Share(b, d);
    assert (a / d + b / d - 1.0) * d == (a / d) * d + (b / d) * d - d;
    NoProduct(a / d + b / d - 1.0, d);
  }

  /** Both implementations give the same interval, except that without trials one has (0, 0) and the
      other nothing. */
  lemma SameInterval(sqrt: real -> real, k: nat, n: nat, z: real)
    requires IsSqrt(sqrt) && k <= n && z >= 0.0
    ensures n > 0 ==> ReportInterval(sqrt, k, n, z) == Some(WilsonInterval(sqrt, k, n, z))
    ensures n == 0 ==> ReportInterval(sqrt, k, n, z) == None && WilsonInterval(sqrt, k, n, z) == (0.0, 0.0)
  {
    if n > 0 {
      hide RawInterval, WilsonInterval, ReportInterval, IsSqrt;
      BoundsNeedNoClamp(sqrt, k, n, z);
      var p, w, d, c, m := Numbers(sqrt, k, n, z);
      var w', d', c', m' := ReportNumbers(sqrt, k, n, z);
      SamePart(n as real, z, p, w, d, c, m, p, w', d', c', m');
      SplitQuotient(c, m, d);
    }
  }

  lemma ReportNumbers(sqrt: real -> real, k: nat, n: nat, z: real)
    returns (w: real, d: real, c: real, m: real)
    requires IsSqrt(sqrt) && k <= n && n > 0 && z >= 0.0
    ensures Parts(k as real / n as real, n as real, z, w, d, c, m)
    ensures ReportInterval(sqrt, k, n, z).Some?
    ensures ReportInterval(sqrt, k, n, z).value.0 == MaxReal(0.0, c / d - m / d)
    ensures ReportInterval(sqrt, k, n, z).value.1 == MinReal(1.0, c / d + m / d)
  {
    var p := k as real / n as real;
    IntervalParts(sqrt, k, n, z);
    SameRadicand(p, n as real, z * z);
    hide Centre, Radicand, ReportRadicand, Denom, MaxReal, MinReal;
    w := z * z / n as real;
    d := Denom(n as real, z * z);
    c := Centre(p, n as real, z * z);
    m := z * sqrt(ReportRadicand(p, n as real, z * z));
  }

  lemma SameRadicand(p: real, n: real, z2: real)
    requires n > 0.0
    ensures ReportRadicand(p, n, z2) == Radicand(p, n, z2)
  {
    var v, a := p * (1.0 - p), 4.0 * n;
    var q := z2 / a;
    SplitQuotient(v, q, n);
    TwiceDivided(z2, a, n);
    assert ReportRadicand(p, n, z2) == p * (1.0 - p) / n + z2 / (4.0 * n * n);
    assert p * (1.0 - p) / n == v / n;
    EqualDivisors(z2, 4.0 * n * n, a * n);
    assert Radicand(p, n, z2) == (v + q) / n;
  }

  lemma EqualDivisors(x: real, a: real, b: real)
    requires a == b && b > 0.0
    ensures x / a == x / b
  {
  }

  lemma TwiceDivided(x: real, a: real, b: real)
    requires a > 0.0 && b > 0.0
    ensures a * b > 0.0 && x / (a * b) == x / a / b
  {
    Product(a, b);
    var q, r, s := x / (a * b), x / a, x / a / b;
    Share(x, a * b);
    Share(x, a);
    Share(r, b);
    assert (q - s) * (a * b) == q * (a * b) - (s * b) * a;
    NoProduct(q - s, a * b);
  }

  lemma SplitQuotient(c: real, m: real, d: real)
    requires d > 0.0
    ensures (c - m) / d == c / d - m / d
    ensures (c + m) / d == c / d + m / d
  {
    Share(c, d);
    Share(m, d);
    Share(c - m, d);
    Share(c + m, d);
    assert ((c - m) / d - (c / d - m / d)) * d == ((c - m) / d) * d - (c / d) * d + (m / d) * d;
    NoProduct((c - m) / d - (c / d - m / d), d);
    assert ((c + m) / d - (c / d + m / d)) * d == ((c + m) / d) * d - (c / d) * d - (m / d) * d;
    NoProduct((c + m) / d - (c / d + m / d), d);
  }

  // ---------------------------------------------------------------- more successes, higher bounds

  /** With one more success neither bound goes down, and the middle of the interval goes up. */
  lemma BoundsRise(sqrt: real -> real, k: nat, n: nat, z: real)
    requires IsSqrt(sqrt) && k < n && z >= 0.0
    ensures var (low, high), (low', high') := WilsonInterval(sqrt, k, n, z), WilsonInterval(sqrt, k + 1, n, z);
            low <= low' && high <= high' && low + high < low' + high'
  {
    LowRises(sqrt, k, n, z);
    LowRises(sqrt, n - k - 1, n, z);
    Mirrored(sqrt, k, n, z);
    Mirrored(sqrt, k + 1, n, z);
    MiddleRises(sqrt, k, n, z);
  }

  lemma ProportionRises(k: nat, n: nat)
    requires k < n
    ensures k as real / n as real < (k + 1) as real / n as real
  {
    var p, q, t := k as real / n as real, (k + 1) as real / n as real, n as real;
    Share(k as real, t);
    Share((k + 1) as real, t);
    assert t * (q - p) == q * t - p * t;
    SameSign(t, q - p);
  }

  /** Otherwise the lower bound would be a proportion the smaller count accepts below its interval. */
  lemma LowRises(sqrt: real -> real, k: nat, n: nat, z: real)
    requires IsSqrt(sqrt) && k < n && z >= 0.0
    ensures WilsonInterval(sqrt, k, n, z).0 <= WilsonInterval(sqrt, k + 1, n, z).0
  {
    BoundsNeedNoClamp(sqrt, k, n, z);
    BoundsNeedNoClamp(sqrt, k + 1, n, z);
    ProportionRises(k, n);
    var p, q, t := k as real / n as real, (k + 1) as real / n as real, n as real;
    var low, low' := RawInterval(sqrt, k, n, z).0, RawInterval(sqrt, k + 1, n, z).0;
    IntervalMeaning(sqrt, k, n, z, low');
    IntervalMeaning(sqrt, k + 1, n, z, low');
    if low' <= p {
      Nearer(p, q, t, z, low');
    }
  }

  lemma Nearer(p: real, q: real, n: real, z: real, x: real)
    requires n > 0.0 && x <= p < q && Accepted(q, n, z, x)
    ensures Accepted(p, n, z, x)
  {
    Product(q - p, (p - x) + (q - x));
    assert (q - x) * (q - x) - (p - x) * (p - x) == (q - p) * ((p - x) + (q - x));
    assert (x - q) * (x - q) == (q - x) * (q - x) && (x - p) * (x - p) == (p - x) * (p - x);
    Product(n, (x - q) * (x - q) - (x - p) * (x - p));
    assert n * ((x - q) * (x - q) - (x - p) * (x - p)) == n * ((x - q) * (x - q)) - n * ((x - p) * (x - p));
  }

  lemma MiddleRises(sqrt: real -> real, k: nat, n: nat, z: real)
    requires IsSqrt(sqrt) && k < n && z >= 0.0
    ensures var (low, high), (low', high') := WilsonInterval(sqrt, k, n, z), WilsonInterval(sqrt, k + 1, n, z);
            low + high < low' + high'
  {
    hide RawInterval, WilsonInterval, IsSqrt;
    BoundsNeedNoClamp(sqrt, k, n, z);
    BoundsNeedNoClamp(sqrt, k + 1, n, z);
    ProportionRises(k, n);
    var p, w, d, c, m := Numbers(sqrt, k, n, z);
    var q, w', d', c', m' := Numbers(sqrt, k + 1, n, z);
    SamePart(n as real, z, p, w, d, c, m, q, w', d', c', m');
    SplitQuotient(c, m, d);
    SplitQuotient(c', m', d);
    QuotientRises(c, c', d);
  }

  lemma QuotientRises(a: real, b: real, d: real)
    requires d > 0.0 && a < b
    ensures a / d < b / d
  {
    Share(a, d);
    Share(b, d);
    assert d * (b / d - a / d) == (b / d) * d - (a / d) * d;
    SameSign(d, b / d - a / d);
  }
}
