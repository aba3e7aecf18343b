/**
 * The Wilson score interval, in exact arithmetic.
 *
 * A square root is any root with root >= 0 and root * root equal to its argument.
 */
module Wilson {
  import opened Common

  datatype Interval = Interval(lower: real, upper: real, point: real)

  predicate IsSqrt(root: real, x: real) { root >= 0.0 && root * root == x }

  function Radicand(successes: int, trials: int, z: real): real
    requires trials > 0
  {
    Max((successes * (trials - successes)) as real / trials as real + z * z / 4.0, 0.0)
  }

  predicate Computes(successes: int, trials: int, z: real, root: real) {
    trials > 0 ==> IsSqrt(root, Radicand(successes, trials, z))
  }

  lemma SquareNonNegative(a: real)
    ensures a * a >= 0.0
  {
  }

  // The ends before clamping, for k successes in n trials, z2 the square of z.
  function Low(k: real, n: real, z2: real, spread: real): real
    requires n + z2 > 0.0
  {
    (k + z2 / 2.0 - spread) / (n + z2)
  }

  function High(k: real, n: real, z2: real, spread: real): real
    requires n + z2 > 0.0
  {
    (k + z2 / 2.0 + spread) / (n + z2)
  }

  function WilsonInterval(successes: int, trials: int, z: real, prior: real, root: real): Interval
    requires Computes(successes, trials, z, root)
  {
    if trials <= 0 then Interval(prior, prior, prior)
    else
      var k, n, z2 := successes as real, trials as real, z * z;
      SquareNonNegative(z);
      Interval(Max(0.0, Low(k, n, z2, z * root)), Min(1.0, High(k, n, z2, z * root)), k / n)
  }

  // ---- algebra ----

  // Completing the square in x.
  lemma CompleteSquare(n: real, p: real, w: real, x: real)
    ensures (n + w) * (n * ((p - x) * (p - x)) - w * (x * (1.0 - x)))
         == ((n + w) * x - (n * p + w / 2.0)) * ((n + w) * x - (n * p + w / 2.0))
            - w * (n * (p * (1.0 - p)) + w / 4.0)
  {
  }

  lemma SquareAtMost(y: real, s: real)
    requires s >= 0.0
    ensures y * y <= s * s <==> -s <= y <= s
    ensures y * y == s * s <==> y == s || y == -s
  {
  }

  lemma SignOfProduct(d: real, e: real)
    requires d > 0.0
    ensures d * e <= 0.0 <==> e <= 0.0
    ensures d * e == 0.0 <==> e == 0.0
  {
  }

  lemma ProductSign(a: real, b: real)
    ensures a >= 0.0 && b >= 0.0 ==> a * b >= 0.0
    ensures a <= 0.0 && b >= 0.0 ==> a * b <= 0.0
  {
  }

  lemma Scale(a: real, b: real, c: real)
    requires a <= b && c >= 0.0
    ensures a * c <= b * c
  {
  }

  lemma Quotient(a: real, d: real, x: real)
    requires d > 0.0
    ensures a / d <= x <==> a <= d * x
    ensures x <= a / d <==> d * x <= a
  {
  }

  lemma Complement(a: real, d: real)
    requires d > 0.0
    ensures (d - a) / d == 1.0 - a / d
  {
    var q, r := a / d, (d - a) / d;
    assert q * d == a && r * d == d - a;
    SignOfProduct(d, r - (1.0 - q));
  }

  lemma SquareOfSpread(z: real, root: real)
    ensures (z * root) * (z * root) == (z * z) * (root * root)
  {
  }

  lemma EndsOfQuadratic(d: real, c: real, s: real, x: real, gap: real)
    requires d > 0.0 && s >= 0.0 && d * gap == (d * x - c) * (d * x - c) - s * s
    ensures gap <= 0.0 <==> (c - s) / d <= x <= (c + s) / d
    ensures gap == 0.0 <==> x == (c - s) / d || x == (c + s) / d
  {
    var y := d * x - c;
    SignOfProduct(d, gap);
    SquareAtMost(y, s);
    Quotient(c - s, d, x);
    Quotient(c + s, d, x);
  }

  // ---- the score test ----

  // A rate x is consistent with p observed in n trials when p lies within z standard errors of
  // it, the error being that of x itself.
  predicate Accepts(n: real, p: real, z2: real, x: real) {
    n * ((p - x) * (p - x)) <= z2 * (x * (1.0 - x))
  }

  predicate Solves(n: real, p: real, z2: real, x: real) {
    n * ((p - x) * (p - x)) == z2 * (x * (1.0 - x))
  }

  // The facts the proofs below share: k successes in n trials at rate p, and the spread for z2.
  ghost predicate Uses(k: real, n: real, p: real, z2: real, spread: real) {
    && n > 0.0 && 0.0 <= p <= 1.0 && k == n * p && z2 >= 0.0
    && IsSqrt(spread, z2 * (n * (p * (1.0 - p)) + z2 / 4.0))
  }

  // The rates a test accepts are those between the two ends, and only the ends are on its edge.
  lemma AcceptsIffBetween(k: real, n: real, p: real, z2: real, spread: real, x: real)
    requires Uses(k, n, p, z2, spread)
    ensures Accepts(n, p, z2, x) <==> Low(k, n, z2, spread) <= x <= High(k, n, z2, spread)
    ensures Solves(n, p, z2, x) <==> x == Low(k, n, z2, spread) || x == High(k, n, z2, spread)
  {
    CompleteSquare(n, p, z2, x);
    EndsOfQuadratic(n + z2, k + z2 / 2.0, spread, x, n * ((p - x) * (p - x)) - z2 * (x * (1.0 - x)));
  }

  // No rate outside [0, 1] is ever accepted, and what was observed always is.
  lemma AcceptedIsRate(n: real, p: real, z2: real, x: real)
    requires n > 0.0 && 0.0 <= p <= 1.0 && z2 >= 0.0
    ensures Accepts(n, p, z2, x) ==> 0.0 <= x <= 1.0
    ensures Accepts(n, p, z2, p)
  {
    ProductSign(p, 1.0 - p);
    ProductSign(z2, p * (1.0 - p));
    if Accepts(n, p, z2, x) && !(0.0 <= x <= 1.0) {
      var e, gap := x * (1.0 - x), p - x;
      OutsideIsNegative(x);
      ProductSign(e, z2);
      SignOfProduct(n, gap * gap);
      SquareAtMost(gap, 0.0);
    }
  }

  lemma OutsideIsNegative(x: real)
    requires !(0.0 <= x <= 1.0)
    ensures x * (1.0 - x) < 0.0
  {
  }

  lemma LowAtMostHigh(k: real, n: real, z2: real, spread: real)
    requires n + z2 > 0.0 && spread >= 0.0
    ensures Low(k, n, z2, spread) <= High(k, n, z2, spread)
  {
    var c, d := k + z2 / 2.0, n + z2;
    Quotient(c - spread, d, (c + spread) / d);
  }

  // Between these two lie exactly the rates a test accepts.
  ghost predicate IsRegion(lower: real, upper: real, n: real, p: real, z2: real) {
    forall x :: Accepts(n, p, z2, x) <==> lower <= x <= upper
  }

  lemma EndsAreRegion(k: real, n: real, p: real, z2: real, spread: real)
    requires Uses(k, n, p, z2, spread)
    ensures IsRegion(Low(k, n, z2, spread), High(k, n, z2, spread), n, p, z2)
  {
    forall x ensures Accepts(n, p, z2, x) <==> Low(k, n, z2, spread) <= x <= High(k, n, z2, spread) {
      AcceptsIffBetween(k, n, p, z2, spread, x);
    }
  }

  lemma RegionAroundRate(lower: real, upper: real, n: real, p: real, z2: real)
    requires n > 0.0 && 0.0 <= p <= 1.0 && z2 >= 0.0 && lower <= upper && IsRegion(lower, upper, n, p, z2)
    ensures 0.0 <= lower <= p <= upper <= 1.0
  {
    AcceptedIsRate(n, p, z2, lower);
    AcceptedIsRate(n, p, z2, upper);
    assert Accepts(n, p, z2, lower) && Accepts(n, p, z2, upper) && Accepts(n, p, z2, p);
  }

  // ---- the interval ----

  predicate Observed(successes: int, trials: int) { 0 <= successes <= trials && trials > 0 }

  lemma RateIsProportion(successes: int, trials: int)
    requires Observed(successes, trials)
    ensures 0.0 <= successes as real / trials as real <= 1.0
    ensures trials as real * (successes as real / trials as real) == successes as real
    ensures var n, p := trials as real, successes as real / trials as real;
            n * (p * (1.0 - p)) == (successes * (trials - successes)) as real / n >= 0.0
  {
    var k, n := successes as real, trials as real;
    var p := k / n;
    Quotient(k, n, 1.0);
    Quotient(k, n, 0.0);
    assert (successes * (trials - successes)) as real == k * (n - k);
    assert n * p == k;
    var product := p * (n - k);
    assert n * product == k * (n - k);
    assert product == k * (n - k) / n;
    assert n * (p * (1.0 - p)) == p * (n - n * p);
    assert p >= 0.0 && n - k >= 0.0;
  }

  lemma UsesRate(successes: int, trials: int, z: real, root: real)
    requires Observed(successes, trials) && z >= 0.0 && Computes(successes, trials, z, root)
    ensures Uses(successes as real, trials as real, successes as real / trials as real, z * z, z * root)
  {
    var n, p, radicand := trials as real, successes as real / trials as real, Radicand(successes, trials, z);
    RateIsProportion(successes, trials);
    SquareNonNegative(z);
    assert radicand == n * (p * (1.0 - p)) + z * z / 4.0;
    SquareOfSpread(z, root);
    ProductSign(z, root);
  }

  // What the computation returns: the two ends as they are, for neither clamp ever acts; and the
  // interval holds exactly the rates that a score test at z does not reject.
  lemma IntervalIsScoreRegion(successes: int, trials: int, z: real, prior: real, root: real)
    requires Observed(successes, trials) && z >= 0.0 && Computes(successes, trials, z, root)
    ensures var k, n := successes as real, trials as real;
            var w := WilsonInterval(successes, trials, z, prior, root);
            && n + z * z > 0.0
            && w == Interval(Low(k, n, z * z, z * root), High(k, n, z * z, z * root), k / n)
            && 0.0 <= w.lower <= w.point <= w.upper <= 1.0
            && IsRegion(w.lower, w.upper, n, w.point, z * z)
  {
    var k, n, z2, spread := successes as real, trials as real, z * z, z * root;
    UsesRate(successes, trials, z, root);
    LowAtMostHigh(k, n, z2, spread);
    EndsAreRegion(k, n, k / n, z2, spread);
    RegionAroundRate(Low(k, n, z2, spread), High(k, n, z2, spread), n, k / n, z2);
  }

  // The ends are exactly the two rates on the edge of rejection.
  lemma EndsSolveScoreEquation(successes: int, trials: int, z: real, prior: real, root: real, x: real)
    requires Observed(successes, trials) && z >= 0.0 && Computes(successes, trials, z, root)
    ensures var w := WilsonInterval(successes, trials, z, prior, root);
            x == w.lower || x == w.upper <==> Solves(trials as real, w.point, z * z, x)
  {
    var k, n := successes as real, trials as real;
    IntervalIsScoreRegion(successes, trials, z, prior, root);
    UsesRate(successes, trials, z, root);
    AcceptsIffBetween(k, n, k / n, z * z, z * root, x);
  }

  // ---- what more evidence does ----

  lemma AcceptsFewer(n: real, m: real, p: real, z2: real, y2: real, x: real)
    requires n <= m && z2 <= y2 && 0.0 <= x <= 1.0
    ensures Accepts(m, p, z2, x) ==> Accepts(n, p, y2, x)
  {
    SquareNonNegative(p - x);
    ProductSign(x, 1.0 - x);
    Scale(n, m, (p - x) * (p - x));
    Scale(z2, y2, x * (1.0 - x));
  }

  lemma RegionsNest(lower: real, upper: real, n: real, y2: real, low: real, high: real, m: real, z2: real, p: real)
    requires IsRegion(lower, upper, n, p, y2) && IsRegion(low, high, m, p, z2)
    requires n <= m && z2 <= y2 && 0.0 <= low <= high <= 1.0
    ensures lower <= low && high <= upper
  {
    assert Accepts(m, p, z2, low) && Accepts(m, p, z2, high);
    AcceptsFewer(n, m, p, z2, y2, low);
    AcceptsFewer(n, m, p, z2, y2, high);
  }

  lemma SameRate(k: int, n: int, l: int, m: int)
    requires n > 0 && m > 0 && k * m == l * n
    ensures k as real / n as real == l as real / m as real
  {
    assert k as real * m as real == l as real * n as real;
    var p := k as real / n as real;
    assert p * n as real == k as real;
    assert (p * m as real - l as real) * n as real == 0.0;
    SignOfProduct(n as real, p * m as real - l as real);
  }

  // At one observed rate, more trials and a smaller z never move either end outward; so a rate
  // seen over a longer run never has the smaller lower bound.
  lemma MoreEvidenceNarrows(k: int, n: int, l: int, m: int, z: real, y: real, prior: real, small: real, large: real)
    requires Observed(k, n) && Observed(l, m) && k * m == l * n && n <= m && 0.0 <= z <= y
    requires Computes(l, m, z, small) && Computes(k, n, y, large)
    ensures var long, short := WilsonInterval(l, m, z, prior, small), WilsonInterval(k, n, y, prior, large);
            short.lower <= long.lower <= long.upper <= short.upper
  {
    var long, short := WilsonInterval(l, m, z, prior, small), WilsonInterval(k, n, y, prior, large);
    SameRate(k, n, l, m);
    IntervalIsScoreRegion(l, m, z, prior, small);
    IntervalIsScoreRegion(k, n, y, prior, large);
    SquareAtMost(z, y);
    RegionsNest(short.lower, short.upper, n as real, y * y, long.lower, long.upper, m as real, z * z, long.point);
  }

  lemma MirroredEnds(k: real, n: real, z2: real, spread: real)
    requires n > 0.0 && z2 >= 0.0
    ensures Low(n - k, n, z2, spread) == 1.0 - High(k, n, z2, spread)
    ensures High(n - k, n, z2, spread) == 1.0 - Low(k, n, z2, spread)
    ensures (n - k) / n == 1.0 - k / n
  {
    Complement(k + z2 / 2.0 + spread, n + z2);
    Complement(k + z2 / 2.0 - spread, n + z2);
    Complement(k, n);
  }

  // Counting failures instead of successes mirrors the interval.
  lemma FailuresMirror(k: int, n: int, z: real, prior: real, root: real)
    requires Observed(k, n) && z >= 0.0 && Computes(k, n, z, root)
    ensures Computes(n - k, n, z, root)
    ensures var w, v := WilsonInterval(k, n, z, prior, root), WilsonInterval(n - k, n, z, prior, root);
            v == Interval(1.0 - w.upper, 1.0 - w.lower, 1.0 - w.point)
  {
    assert (n - k) * (n - (n - k)) == k * (n - k);
    SquareNonNegative(z);
    MirroredEnds(k as real, n as real, z * z, z * root);
  }

  // A negative z swaps the ends, so the interval is the right way round exactly for z >= 0.
  lemma NegativeZSwapsEnds(k: int, n: int, z: real, prior: real, root: real)
    requires Observed(k, n) && z >= 0.0 && Computes(k, n, z, root)
    ensures Computes(k, n, -z, root)
    ensures var w, v := WilsonInterval(k, n, z, prior, root), WilsonInterval(k, n, -z, prior, root);
            v == Interval(w.upper, w.lower, w.point)
  {
    SquareNonNegative(z);
    assert (-z) * (-z) == z * z && (-z) * root == -(z * root);
    IntervalIsScoreRegion(k, n, z, prior, root);
  }

  // ---- ranking by the lower end ----

  lemma HalfRoot(z: real, root: real)
    requires z >= 0.0 && IsSqrt(root, z * z / 4.0)
    ensures root == z / 2.0
  {
    SquareAtMost(root, z / 2.0);
  }

  // Nothing but successes still leaves the lower end short of one, by z * z / (n + z * z).
  lemma LowerOfAllSuccesses(n: int, z: real, prior: real, root: real)
    requires n > 0 && z >= 0.0 && Computes(n, n, z, root)
    ensures var w := WilsonInterval(n, n, z, prior, root);
            w.lower * (n as real + z * z) == n as real && w.upper == 1.0
  {
    SquareNonNegative(z);
    assert Radicand(n, n, z) == z * z / 4.0;
    HalfRoot(z, root);
    assert z * root == z * z / 2.0;
    IntervalIsScoreRegion(n, n, z, prior, root);
  }

  // The lower end after n successes in n trials.
  function PerfectRate(n: int, z: real): real
    requires n > 0
  {
    SquareNonNegative(z);
    n as real / (n as real + z * z)
  }

  lemma LowerOfPerfect(n: int, z: real, prior: real, root: real)
    requires n > 0 && z >= 0.0 && Computes(n, n, z, root)
    ensures WilsonInterval(n, n, z, prior, root).lower == PerfectRate(n, z)
    ensures 0.0 < PerfectRate(n, z) <= 1.0 && (PerfectRate(n, z) == 1.0 ==> z == 0.0)
  {
    var low, d := WilsonInterval(n, n, z, prior, root).lower, n as real + z * z;
    SquareNonNegative(z);
    LowerOfAllSuccesses(n, z, prior, root);
    Quotient(n as real, d, low);
    Quotient(n as real, d, 1.0);
    Quotient(n as real, d, 0.0);
    SquareAtMost(z, 0.0);
  }

  predicate AcceptsStrictly(n: real, p: real, z2: real, x: real) { Accepts(n, p, z2, x) && !Solves(n, p, z2, x) }

  lemma RateIsNoEnd(n: real, p: real, z2: real)
    requires n > 0.0 && 0.0 < p < 1.0 && z2 > 0.0
    ensures !Solves(n, p, z2, p)
  {
    SignOfProduct(p, 1.0 - p);
    SignOfProduct(z2, p * (1.0 - p));
  }

  // A rate x is above the lower end exactly when it is above what was observed or the test accepts it.
  lemma AboveLower(k: int, m: int, z: real, prior: real, root: real, x: real)
    requires Observed(k, m) && z >= 0.0 && Computes(k, m, z, root)
    requires 0.0 < x <= 1.0 && (x == 1.0 ==> z == 0.0)
    ensures var w := WilsonInterval(k, m, z, prior, root);
            && (w.lower <= x <==> w.point <= x || Accepts(m as real, w.point, z * z, x))
            && (w.lower < x <==> w.point < x || AcceptsStrictly(m as real, w.point, z * z, x))
  {
    var w := WilsonInterval(k, m, z, prior, root);
    IntervalIsScoreRegion(k, m, z, prior, root);
    EndsSolveScoreEquation(k, m, z, prior, root, x);
    assert Accepts(m as real, w.point, z * z, x) <==> w.lower <= x <= w.upper;
    if z == 0.0 {
      assert w.lower == w.upper;
    } else if 0.0 < w.point < 1.0 {
      SignOfProduct(z, z);
      RateIsNoEnd(m as real, w.point, z * z);
    }
  }

  // Ranking by the lower end puts k successes in m trials below, or no higher than, n in n exactly
  // when its rate is below n / (n + z * z) or a score test of it accepts that rate. So a longer run
  // of lower rate outranks a short perfect one only if it is both above that rate and precise.
  lemma PerfectRunOutranksIff(k: int, m: int, n: int, z: real, prior: real, root: real, perfect: real)
    requires Observed(k, m) && n > 0 && z >= 0.0 && Computes(k, m, z, root) && Computes(n, n, z, perfect)
    ensures var w, v := WilsonInterval(k, m, z, prior, root), WilsonInterval(n, n, z, prior, perfect);
            var p, x := k as real / m as real, PerfectRate(n, z);
            && (w.lower <= v.lower <==> p <= x || Accepts(m as real, p, z * z, x))
            && (w.lower < v.lower <==> p < x || AcceptsStrictly(m as real, p, z * z, x))
  {
    LowerOfPerfect(n, z, prior, perfect);
    AboveLower(k, m, z, prior, root, PerfectRate(n, z));
  }

  // One success in one try outranks 300 in 10000 at the default z, and at every z up to five: the
  // ranking's own example of what it prevents does not hold.
  lemma SingleSuccessOutranks(z: real, prior: real, one: real, many: real)
    requires 0.0 <= z <= 5.0 && Computes(1, 1, z, one) && Computes(300, 10000, z, many)
    ensures WilsonInterval(300, 10000, z, prior, many).lower < WilsonInterval(1, 1, z, prior, one).lower
  {
    SquareAtMost(z, 5.0);
    Quotient(1.0, 1.0 + z * z, 0.03);
    PerfectRunOutranksIff(300, 10000, 1, z, prior, many, one);
  }

  // With nothing observed the interval is the prior; otherwise the point is the observed rate.
  lemma NoTrialsGivePrior(k: int, n: int, z: real, prior: real, root: real)
    requires Computes(k, n, z, root)
    ensures var w := WilsonInterval(k, n, z, prior, root);
            if n <= 0 then w.lower == w.upper == w.point == prior else w.point * n as real == k as real
  {
  }
}
