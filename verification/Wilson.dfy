/** The Wilson score interval over the reals; the square root is any nonnegative number with the right square. */
module Wilson {
  import opened Folding

  datatype Interval = Interval(low: real, high: real)

  function Max(a: real, b: real): real { if a >= b then a else b }

  function Min(a: real, b: real): real { if a <= b then a else b }

  /** What stands under the square root. */
  function Radicand(p: real, n: real, z: real): real
    requires n > 0.0
  {
    p * (1.0 - p) / n + z * z / (4.0 * n * n)
  }

  ghost predicate IsRoot(s: real, p: real, n: real, z: real)
    requires n > 0.0
  {
    s >= 0.0 && forall k {:trigger Unfolded(k)} :: Unfolded(k) ==> s * s == Radicand(p, n, z)
  }

  function Center(p: real, n: real, z: real): real
    requires n > 0.0
  {
    (p + z * z / (2.0 * n)) / (1.0 + z * z / n)
  }

  function Margin(n: real, z: real, s: real): real
    requires n > 0.0
  {
    z * s / (1.0 + z * z / n)
  }

  /** `wilson_interval`; `s` is the square root of the radicand when there is anything to take one of. */
  function WilsonInterval(successes: int, n: int, z: real, s: real): Interval {
    if n <= 0 then Interval(0.0, 1.0)
    else
      var total := n as real;
      var p := successes as real / total;
      Interval(Max(0.0, Center(p, total, z) - Margin(total, z, s)), Min(1.0, Center(p, total, z) + Margin(total, z, s)))
  }

  /** The observed proportion `p` is within z standard errors of `x`, were `x` the true one. */
  ghost predicate Plausible(x: real, p: real, n: real, z: real)
    requires n > 0.0
  {
    forall k {:trigger Unfolded(k)} :: Unfolded(k) ==> (p - x) * (p - x) <= z * z / n * (x * (1.0 - x))
  }

  /** It is z standard errors away exactly. */
  ghost predicate Edge(x: real, p: real, n: real, z: real)
    requires n > 0.0
  {
    forall k {:trigger Unfolded(k)} :: Unfolded(k) ==> (p - x) * (p - x) == z * z / n * (x * (1.0 - x))
  }

  // ----- Arithmetic -----

  lemma Positive(a: real, b: real)
    requires a > 0.0 && b > 0.0
    ensures a * b > 0.0
  {
  }

  lemma StrictSquares(a: real, b: real)
    requires 0.0 <= b < a
    ensures a * a > b * b
  {
    Positive(a - b, a + b);
    assert (a - b) * (a + b) == a * a - b * b;
  }

  lemma SquaresOrdered(a: real, b: real)
    requires 0.0 <= b && a * a <= b * b
    ensures a <= b
  {
    if a > b {
      StrictSquares(a, b);
    }
  }

  lemma SquareOrder(a: real, u: real)
    requires u >= 0.0
    ensures a * a <= u * u <==> -u <= a <= u
    ensures a == u || a == -u ==> a * a == u * u
  {
    var m := if a >= 0.0 then a else -a;
    assert m * m == a * a;
    if m > u {
      StrictSquares(m, u);
    } else if m < u {
      StrictSquares(u, m);
    }
  }

  lemma Sign(d: real, q: real)
    requires d > 0.0
    ensures d * q <= 0.0 <==> q <= 0.0
    ensures d * q == 0.0 <==> q == 0.0
  {
  }

  lemma Scale(d: real, c: real, x: real)
    requires d > 0.0
    ensures c <= d * x <==> c / d <= x
    ensures d * x <= c <==> x <= c / d
  {
    var r := c / d;
    assert r * d == c;
    Sign(d, r - x);
    Sign(d, x - r);
    assert d * (r - x) == c - d * x;
    assert d * (x - r) == d * x - c;
  }

  lemma Distribute(a: real, b: real, c: real)
    ensures a * (b + c) == a * b + a * c
  {
  }

  lemma Cancel(a: real, b: real, d: real)
    requires d != 0.0 && a * d == b * d
    ensures a == b
  {
    assert a == a * d / d;
  }

  lemma Quotient(zz: real, x: real, n: real, h: real)
    requires n > 0.0 && h == zz / (2.0 * n)
    ensures zz * (x / n) == 2.0 * h * x
  {
    assert zz == 2.0 * h * n;
    assert (x / n) * n == x;
    assert zz * (x / n) == 2.0 * h * (n * (x / n));
  }

  lemma Squared(zz: real, n: real, h: real)
    requires n > 0.0 && h == zz / (2.0 * n)
    ensures zz * (zz / (4.0 * n * n)) == h * h
  {
    var d := 2.0 * n;
    assert zz == h * d;
    assert d * d == 4.0 * n * n;
    assert zz / (d * d) * (d * d) == zz;
    var q := zz / (d * d);
    assert q * d * d == h * d;
    Cancel(q * d, h, d);
    assert zz * q == h * d * q;
  }

  /** With h = z*z/(2n), the square of z times the root is 2h*p*(1-p) + h*h. */
  lemma Scaled(p: real, n: real, z: real, s: real, h: real)
    requires n > 0.0 && IsRoot(s, p, n, z) && h == z * z / (2.0 * n)
    ensures (z * s) * (z * s) == 2.0 * h * (p * (1.0 - p)) + h * h
  {
    assert Unfolded(0);
    var zz := z * z;
    assert (z * s) * (z * s) == zz * (s * s);
    Distribute(zz, p * (1.0 - p) / n, zz / (4.0 * n * n));
    Quotient(zz, p * (1.0 - p), n, h);
    Squared(zz, n, h);
  }

  /** A quadratic in x, completed to a square. */
  lemma Completed(p: real, h: real, uu: real, x: real)
    requires uu == 2.0 * h * (p * (1.0 - p)) + h * h
    ensures var d := 1.0 + 2.0 * h; var a := d * x - (p + h);
      d * ((p - x) * (p - x) - 2.0 * h * (x * (1.0 - x))) == a * a - uu
  {
    var d := 1.0 + 2.0 * h;
    var dx := d * x;
    assert (p - x) * (p - x) == p * p - 2.0 * p * x + x * x;
    assert d * (x * x) == dx * x;
    assert (p - x) * (p - x) - 2.0 * h * (x * (1.0 - x)) == dx * x - 2.0 * (p + h) * x + p * p;
    Distribute(d, dx * x - 2.0 * (p + h) * x, p * p);
    Distribute(d, dx * x, -(2.0 * (p + h) * x));
    assert d * (dx * x) == dx * dx;
    assert d * (2.0 * (p + h) * x) == 2.0 * (p + h) * dx;
    assert (dx - (p + h)) * (dx - (p + h)) == dx * dx - 2.0 * (p + h) * dx + (p + h) * (p + h);
    assert (p + h) * (p + h) == p * p + 2.0 * p * h + h * h;
  }

  lemma SquareIs(zz: real, z: real)
    requires z > 0.0 && zz == z * z
    ensures zz > 0.0
  {
    assert zz / z == z;
  }

  lemma Factors(n: real, z: real)
    requires n > 0.0 && z > 0.0
    ensures z * z / n == 2.0 * (z * z / (2.0 * n)) && z * z / n > 0.0
  {
    var zz := z * z;
    SquareIs(zz, z);
    Fraction(zz, n);
  }

  lemma SquareSign(a: real)
    ensures a * a >= 0.0
  {
  }

  lemma Fraction(a: real, n: real)
    requires a > 0.0 && n > 0.0
    ensures a / n > 0.0 && a / n == 2.0 * (a / (2.0 * n))
  {
  }

  // ----- What the bounds are -----

  /** The signed excess `q` at x, its square form, and what the bounds are in its terms. */
  lemma Excess(x: real, p: real, n: real, z: real, s: real) returns (q: real, d: real, u: real, c: real)
    requires n > 0.0 && z > 0.0 && IsRoot(s, p, n, z)
    ensures d > 0.0 && u >= 0.0 && d * q == (d * x - c) * (d * x - c) - u * u
    ensures Plausible(x, p, n, z) <==> q <= 0.0
    ensures Edge(x, p, n, z) <==> q == 0.0
    ensures Center(p, n, z) == c / d && Margin(n, z, s) == u / d
  {
    var h := z * z / (2.0 * n);
    Factors(n, z);
    Scaled(p, n, z, s, h);
    Completed(p, h, (z * s) * (z * s), x);
    assert Unfolded(0);
    q, d, u, c := (p - x) * (p - x) - 2.0 * h * (x * (1.0 - x)), 1.0 + 2.0 * h, z * s, p + h;
    Positive2(z, s);
  }

  lemma Positive2(a: real, b: real)
    requires a > 0.0 && b >= 0.0
    ensures a * b >= 0.0
  {
  }

  lemma BySquares(q: real, d: real, u: real, c: real, x: real)
    requires d > 0.0 && u >= 0.0 && d * q == (d * x - c) * (d * x - c) - u * u
    ensures q <= 0.0 <==> c / d - u / d <= x <= c / d + u / d
    ensures x == c / d - u / d || x == c / d + u / d ==> q == 0.0
  {
    var a := d * x - c;
    SquareOrder(a, u);
    Sign(d, q);
    Scale(d, c - u, x);
    Scale(d, c + u, x);
    Parts(c, u, d);
    assert x == (c - u) / d ==> a == -u;
    assert x == (c + u) / d ==> a == u;
  }

  lemma Parts(c: real, u: real, d: real)
    requires d > 0.0
    ensures (c - u) / d == c / d - u / d && (c + u) / d == c / d + u / d
    ensures d * ((c - u) / d) == c - u && d * ((c + u) / d) == c + u
  {
  }

  /** The interval is the set of plausible true proportions, and its ends are the edges of that set. */
  lemma BetweenBounds(x: real, p: real, n: real, z: real, s: real)
    requires n > 0.0 && z > 0.0 && IsRoot(s, p, n, z)
    ensures Plausible(x, p, n, z) <==> Center(p, n, z) - Margin(n, z, s) <= x <= Center(p, n, z) + Margin(n, z, s)
    ensures x == Center(p, n, z) - Margin(n, z, s) || x == Center(p, n, z) + Margin(n, z, s) ==> Edge(x, p, n, z)
  {
    var q, d, u, c := Excess(x, p, n, z, s);
    BySquares(q, d, u, c, x);
  }

  /** `low` and `high` bound the plausible proportions. */
  ghost predicate Spans(p: real, n: real, z: real, low: real, high: real)
    requires n > 0.0
  {
    && Edge(low, p, n, z) && Edge(high, p, n, z)
    && forall x {:trigger Plausible(x, p, n, z)} :: Plausible(x, p, n, z) <==> low <= x <= high
  }

  lemma BoundsSpan(p: real, n: real, z: real, s: real)
    requires n > 0.0 && z > 0.0 && IsRoot(s, p, n, z)
    ensures Spans(p, n, z, Center(p, n, z) - Margin(n, z, s), Center(p, n, z) + Margin(n, z, s))
  {
    var low, high := Center(p, n, z) - Margin(n, z, s), Center(p, n, z) + Margin(n, z, s);
    forall x
      ensures Plausible(x, p, n, z) <==> low <= x <= high
    {
      BetweenBounds(x, p, n, z, s);
    }
    BetweenBounds(low, p, n, z, s);
    BetweenBounds(high, p, n, z, s);
  }

  lemma Outside(x: real)
    ensures x * (1.0 - x) >= 0.0 <==> 0.0 <= x <= 1.0
  {
    if x < 0.0 {
      Positive(-x, 1.0 - x);
    } else if x > 1.0 {
      Positive(x, x - 1.0);
    }
  }

  lemma EdgeInUnit(x: real, p: real, n: real, z: real)
    requires n > 0.0 && z > 0.0 && Edge(x, p, n, z)
    ensures 0.0 <= x <= 1.0
  {
    assert Unfolded(0);
    Factors(n, z);
    Outside(x);
    Sign(z * z / n, x * (1.0 - x));
    SquareSign(p - x);
  }

  lemma OwnPlausible(p: real, n: real, z: real)
    requires n > 0.0 && z > 0.0 && 0.0 <= p <= 1.0
    ensures Plausible(p, p, n, z)
  {
    Factors(n, z);
    Outside(p);
    Positive2(z * z / n, p * (1.0 - p));
  }

  /** What spans the plausible proportions lies in the unit interval and contains the observed one. */
  lemma SpanOrdered(p: real, n: real, z: real, low: real, high: real)
    requires n > 0.0 && z > 0.0 && 0.0 <= p <= 1.0 && Spans(p, n, z, low, high)
    ensures 0.0 <= low <= p <= high <= 1.0
  {
    OwnPlausible(p, n, z);
    EdgeInUnit(low, p, n, z);
    EdgeInUnit(high, p, n, z);
  }

  /** An edge for p that is plausible for q is no further from q. */
  lemma Nearer(x: real, p: real, q: real, n: real, z: real)
    requires n > 0.0 && Plausible(x, q, n, z) && Edge(x, p, n, z)
    ensures x <= p ==> q <= p
    ensures x >= p ==> q >= p
  {
    assert Unfolded(0);
    if x <= p {
      SquaresOrdered(q - x, p - x);
    }
    if x >= p {
      assert (x - q) * (x - q) == (q - x) * (q - x) && (x - p) * (x - p) == (p - x) * (p - x);
      SquaresOrdered(x - q, x - p);
    }
  }

  /** A greater proportion has greater bounds. */
  lemma SpanGrows(p: real, q: real, n: real, z: real, a: real, b: real, c: real, d: real)
    requires n > 0.0 && z > 0.0 && 0.0 <= p < q <= 1.0 && Spans(p, n, z, a, b) && Spans(q, n, z, c, d)
    ensures a <= c && b <= d
  {
    SpanOrdered(p, n, z, a, b);
    SpanOrdered(q, n, z, c, d);
    if a > c {
      assert Plausible(a, q, n, z);
      Nearer(a, p, q, n, z);
    }
    if b > d {
      assert Plausible(d, p, n, z);
      Nearer(d, q, p, n, z);
    }
  }

  // ----- The function itself -----

  lemma Proportion(successes: int, n: int)
    requires 0 <= successes <= n && n > 0
    ensures 0.0 <= successes as real / n as real <= 1.0
  {
    var q := successes as real / n as real;
    assert q * (n as real) == successes as real;
  }

  /** The bounds are those of the plausible proportions, in the unit interval, around the observed one; both clamps are
      idle. */
  lemma IntervalSpans(successes: int, n: int, z: real, s: real)
    requires 0 <= successes <= n && n > 0 && z > 0.0
    requires IsRoot(s, successes as real / n as real, n as real, z)
    ensures var p := successes as real / n as real; var i := WilsonInterval(successes, n, z, s);
      && Spans(p, n as real, z, i.low, i.high)
      && 0.0 <= i.low <= p <= i.high <= 1.0
      && i.low == Center(p, n as real, z) - Margin(n as real, z, s)
      && i.high == Center(p, n as real, z) + Margin(n as real, z, s)
  {
    var p, t := successes as real / n as real, n as real;
    Proportion(successes, n);
    BoundsSpan(p, t, z, s);
    SpanOrdered(p, t, z, Center(p, t, z) - Margin(t, z, s), Center(p, t, z) + Margin(t, z, s));
  }

  lemma Ratios(few: int, many: int, n: int)
    requires few < many && n > 0
    ensures few as real / n as real < many as real / n as real
  {
    Scale(n as real, many as real, few as real / n as real);
    assert few as real / n as real * (n as real) == few as real;
  }

  /** More successes of as many never lower a bound. */
  lemma IntervalGrows(few: int, many: int, n: int, z: real, s: real, t: real)
    requires 0 <= few <= many <= n && n > 0 && z > 0.0
    requires IsRoot(s, few as real / n as real, n as real, z) && IsRoot(t, many as real / n as real, n as real, z)
    ensures WilsonInterval(few, n, z, s).low <= WilsonInterval(many, n, z, t).low
    ensures WilsonInterval(few, n, z, s).high <= WilsonInterval(many, n, z, t).high
  {
    if few == many {
      RootUnique(few as real / n as real, n as real, z, s, t);
    } else {
      var i, j := WilsonInterval(few, n, z, s), WilsonInterval(many, n, z, t);
      IntervalSpans(few, n, z, s);
      IntervalSpans(many, n, z, t);
      Proportion(few, n);
      Proportion(many, n);
      Ratios(few, many, n);
      SpanGrows(few as real / n as real, many as real / n as real, n as real, z, i.low, i.high, j.low, j.high);
    }
  }

  lemma RootUnique(p: real, n: real, z: real, s: real, t: real)
    requires n > 0.0 && IsRoot(s, p, n, z) && IsRoot(t, p, n, z)
    ensures s == t
  {
    assert Unfolded(0);
    SquaresOrdered(s, t);
    SquaresOrdered(t, s);
  }
}
