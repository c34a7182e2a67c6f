/** Sums over samples, and the identities behind least squares, variance and regression slope.
    Products of samples are written Mul, so that a proof about whole samples can hide what a
    product is and leave the arithmetic to lemmas about a few numbers. */
module Moments {

  function Mul(x: real, y: real): real { x * y }

  function Div(x: real, y: real): real
    requires y != 0.0
  {
    x / y
  }

  /** The quotient is the number that the divisor turns back into the dividend; of a positive
      divisor it has the dividend's sign. */
  lemma QuotientOf(x: real, y: real)
    requires y > 0.0
    ensures Mul(y, Div(x, y)) == x
    ensures Div(x, y) > 0.0 <==> x > 0.0
    ensures Div(x, y) == 0.0 <==> x == 0.0
  {
    var q := Div(x, y);
    assert q * y == x;
    PositiveFactor(y, q);
  }

  /** Quotients by the same positive divisor are ordered like the dividends. */
  lemma QuotientOrder(x: real, x': real, y: real)
    requires y > 0.0
    ensures Div(x, y) <= Div(x', y) <==> x <= x'
    ensures Div(x, y) == Div(x', y) <==> x == x'
  {
    QuotientOf(x, y);
    QuotientOf(x', y);
    ProductOrder(y, Div(x, y), Div(x', y));
  }

  lemma ProductOrder(k: real, x: real, y: real)
    requires k > 0.0
    ensures Mul(k, x) <= Mul(k, y) <==> x <= y
    ensures Mul(k, x) == Mul(k, y) <==> x == y
  {
    PositiveFactor(k, x - y);
    assert Mul(k, x - y) == Mul(k, x) - Mul(k, y);
  }

  lemma ProductNotNegative(x: real, y: real)
    requires x >= 0.0 && y >= 0.0
    ensures Mul(x, y) >= 0.0
  {
  }

  function Sum(s: seq<real>): real {
    if s == [] then 0.0 else Sum(s[..|s| - 1]) + s[|s| - 1]
  }

  function Times(s: seq<real>, t: seq<real>): (r: seq<real>)
    requires |s| == |t|
    ensures |r| == |s| && forall i :: 0 <= i < |r| ==> r[i] == Mul(s[i], t[i])
  {
    seq(|s|, i requires 0 <= i < |s| => Mul(s[i], t[i]))
  }

  function Dot(s: seq<real>, t: seq<real>): real
    requires |s| == |t|
  {
    Sum(Times(s, t))
  }

  function Ones(n: nat): (r: seq<real>)
    ensures |r| == n && forall i :: 0 <= i < n ==> r[i] == 1.0
  {
    seq(n, i => 1.0)
  }

  lemma {:induction false} SumOnes(n: nat)
    ensures Sum(Ones(n)) == n as real
  {
    if n > 0 {
      assert Ones(n)[..n - 1] == Ones(n - 1);
      SumOnes(n - 1);
    }
  }

  /** The sum of a prefix, one element at a time, as an accumulating loop sees it. */
  lemma SumNext(s: seq<real>, i: nat)
    requires i < |s|
    ensures Sum(s[..i + 1]) == Sum(s[..i]) + s[i]
  {
    assert s[..i + 1][..i] == s[..i];
  }

  lemma SumMore(s: seq<real>, x: real)
    ensures Sum(s + [x]) == Sum(s) + x
  {
    assert (s + [x])[..|s|] == s;
  }

  /** Summation is linear. */
  lemma {:induction false} SumLinear(r: seq<real>, p: seq<real>, q: seq<real>, v: seq<real>, w: seq<real>,
                                     a: real, b: real, c: real, d: real)
    requires |r| == |p| == |q| == |v| == |w|
    requires forall i :: 0 <= i < |r| ==> r[i] == Mul(a, p[i]) + Mul(b, q[i]) + Mul(c, v[i]) + Mul(d, w[i])
    ensures Sum(r) == Mul(a, Sum(p)) + Mul(b, Sum(q)) + Mul(c, Sum(v)) + Mul(d, Sum(w))
  {
    hide Mul, Times, Ones, Cross, Residuals, Gaps;
    if r != [] {
      var n := |r| - 1;
      SumLinear(r[..n], p[..n], q[..n], v[..n], w[..n], a, b, c, d);
      Distribute(a, Sum(p[..n]), p[n], Sum(p));
      Distribute(b, Sum(q[..n]), q[n], Sum(q));
      Distribute(c, Sum(v[..n]), v[n], Sum(v));
      Distribute(d, Sum(w[..n]), w[n], Sum(w));
    } else {
      TimesZero(a, b, c, d);
    }
  }

  lemma Distribute(a: real, p: real, q: real, r: real)
    requires r == p + q
    ensures Mul(a, r) == Mul(a, p) + Mul(a, q)
  {
  }

  lemma TimesZero(a: real, b: real, c: real, d: real)
    ensures Mul(a, 0.0) == Mul(b, 0.0) == Mul(c, 0.0) == Mul(d, 0.0) == 0.0
  {
  }

  /** A sum of non-negative terms is at least any one of them. */
  lemma {:induction false} SumAtLeast(s: seq<real>, i: nat)
    requires forall k :: 0 <= k < |s| ==> s[k] >= 0.0
    ensures Sum(s) >= 0.0
    ensures i < |s| ==> Sum(s) >= s[i]
  {
    if s != [] {
      SumAtLeast(s[..|s| - 1], i);
    }
  }

  lemma {:induction false} SumOfSame(xs: seq<real>, x: real)
    requires forall i :: 0 <= i < |xs| ==> xs[i] == x
    ensures Sum(xs) == |xs| as real * x
  {
    if xs != [] {
      SumOfSame(xs[..|xs| - 1], x);
    }
  }

  lemma SquareSign(d: real)
    ensures Mul(d, d) >= 0.0 && (d != 0.0 ==> Mul(d, d) > 0.0)
  {
    if d > 0.0 {
      PositiveFactor(d, d);
    } else if d < 0.0 {
      PositiveFactor(-d, -d);
    }
  }

  /** A product with a positive factor has the sign of the other factor. */
  lemma PositiveFactor(n: real, g: real)
    requires n > 0.0
    ensures Mul(n, g) > 0.0 <==> g > 0.0
    ensures Mul(n, g) == 0.0 <==> g == 0.0
  {
  }

  // ---- spread: n^2 times variance and covariance ----

  function Spread(s: seq<real>, t: seq<real>): real
    requires |s| == |t|
  {
    Mul(|s| as real, Dot(s, t)) - Mul(Sum(s), Sum(t))
  }

  /** The products (x - s_i) * (y - t_i). */
  function Cross(s: seq<real>, t: seq<real>, x: real, y: real): (r: seq<real>)
    requires |s| == |t|
    ensures |r| == |s| && forall i :: 0 <= i < |r| ==> r[i] == Mul(x - s[i], y - t[i])
  {
    seq(|s|, i requires 0 <= i < |s| => Mul(x - s[i], y - t[i]))
  }

  lemma CrossExpands(s: seq<real>, t: seq<real>, x: real, y: real)
    requires |s| == |t|
    ensures Sum(Cross(s, t, x, y))
            == Mul(Mul(x, y), |s| as real) + Mul(-x, Sum(t)) + Mul(-y, Sum(s)) + Mul(1.0, Dot(s, t))
  {
    hide Mul, Times, Ones, Cross, Residuals, Gaps;
    var r := Cross(s, t, x, y);
    forall i | 0 <= i < |s|
      ensures r[i] == Mul(Mul(x, y), Ones(|s|)[i]) + Mul(-x, t[i]) + Mul(-y, s[i]) + Mul(1.0, Times(s, t)[i])
    {
      CrossPoint(x, y, s[i], t[i]);
    }
    SumLinear(r, Ones(|s|), t, s, Times(s, t), Mul(x, y), -x, -y, 1.0);
    SumOnes(|s|);
  }

  lemma CrossPoint(x: real, y: real, s: real, t: real)
    ensures Mul(x - s, y - t) == Mul(Mul(x, y), 1.0) + Mul(-x, t) + Mul(-y, s) + Mul(1.0, Mul(s, t))
  {
  }

  /** One more sample adds to the spread its distances from all earlier ones. */
  lemma SpreadStep(s: seq<real>, t: seq<real>)
    requires |s| == |t| > 0
    ensures var n := |s| - 1;
            Spread(s, t) == Spread(s[..n], t[..n]) + Sum(Cross(s[..n], t[..n], s[n], t[n]))
  {
    hide Mul, Times, Ones, Cross, Residuals, Gaps;
    var n := |s| - 1;
    CrossExpands(s[..n], t[..n], s[n], t[n]);
    assert Times(s, t)[..n] == Times(s[..n], t[..n]);
    SpreadAlgebra(n as real, Dot(s[..n], t[..n]), Sum(s[..n]), Sum(t[..n]), s[n], t[n]);
  }

  lemma SpreadAlgebra(n: real, d: real, s: real, t: real, x: real, y: real)
    ensures Mul(n + 1.0, d + Mul(x, y)) - Mul(s + x, t + y)
            == Mul(n, d) - Mul(s, t) + (Mul(Mul(x, y), n) + Mul(-x, t) + Mul(-y, s) + Mul(1.0, d))
  {
    assert (s + x) * (t + y) == s * t + s * y + x * t + x * y;
  }

  /** The spread of a sample with itself is never negative (Cauchy-Schwarz), and positive
      as soon as two samples differ. */
  lemma {:induction false} SpreadPositive(s: seq<real>, i: nat, j: nat)
    requires i < |s| && j < |s|
    ensures Spread(s, s) >= 0.0
    ensures s[i] != s[j] ==> Spread(s, s) > 0.0
  {
    hide Mul, Times, Ones, Cross, Residuals, Gaps;
    var n := |s| - 1;
    var c := Cross(s[..n], s[..n], s[n], s[n]);
    SpreadStep(s, s);
    forall k | 0 <= k < n ensures c[k] >= 0.0 && (s[k] != s[n] ==> c[k] > 0.0) {
      SquareSign(s[n] - s[k]);
    }
    SumAtLeast(c, i);
    SumAtLeast(c, j);
    if n > 0 {
      SpreadPositive(s[..n], if i < n then i else 0, if j < n then j else 0);
    } else {
      SpreadOfNone();
    }
  }

  lemma SpreadOfNone()
    ensures Spread([], []) == 0.0
  {
  }

  /** Chebyshev's sum inequality: two samples that rise together spread together, strictly
      when the first is strictly increasing and the second ends above its start. */
  lemma {:induction false} Chebyshev(s: seq<real>, t: seq<real>)
    requires |s| == |t| > 0
    requires forall i, j :: 0 <= i < j < |s| ==> s[i] < s[j] && t[i] <= t[j]
    ensures Spread(s, t) >= 0.0
    ensures t[0] < t[|t| - 1] ==> Spread(s, t) > 0.0
  {
    hide Mul, Times, Ones, Cross, Residuals, Gaps;
    var n := |s| - 1;
    var c := Cross(s[..n], t[..n], s[n], t[n]);
    SpreadStep(s, t);
    forall k | 0 <= k < n ensures c[k] >= 0.0 && (t[k] < t[n] ==> c[k] > 0.0) {
      PositiveFactor(s[n] - s[k], t[n] - t[k]);
    }
    SumAtLeast(c, 0);
    if n > 0 {
      Chebyshev(s[..n], t[..n]);
    } else {
      SpreadOfNone();
    }
  }

  /** Samuelson's inequality for the newest of n samples: its squared distance from the mean
      is at most n - 1 variances (both sides multiplied by n^2). */
  lemma Samuelson(s: seq<real>)
    requires s != []
    ensures var d := Mul(|s| as real, s[|s| - 1]) - Sum(s);
            Mul(d, d) <= Mul((|s| - 1) as real, Spread(s, s))
  {
    hide Mul, Times, Ones, Cross, Residuals, Gaps;
    var n := |s| - 1;
    var r, x := s[..n], s[n];
    NewestSpread(s);
    SamuelsonAlgebra(n as real, Dot(r, r), Sum(r), x, Mul(|s| as real, x) - Sum(s), Spread(s, s));
  }

  lemma NewestSpread(s: seq<real>)
    requires s != []
    ensures var r, x := s[..|s| - 1], s[|s| - 1];
            && Spread(r, r) >= 0.0
            && Spread(s, s) == Spread(r, r) + (Mul(Mul(x, x), |r| as real) + Mul(-x, Sum(r))
                                               + Mul(-x, Sum(r)) + Mul(1.0, Dot(r, r)))
  {
    hide Mul, Times, Ones, Cross, Residuals, Gaps;
    var r, x := s[..|s| - 1], s[|s| - 1];
    SpreadStep(s, s);
    CrossExpands(r, r, x, x);
    if r != [] {
      SpreadPositive(r, 0, 0);
    } else {
      SpreadOfNone();
    }
  }

  lemma SamuelsonAlgebra(m: real, d: real, s: real, x: real, gap: real, total: real)
    requires m >= 0.0 && Mul(m, d) - Mul(s, s) >= 0.0
    requires gap == Mul(m + 1.0, x) - (s + x)
    requires total == Mul(m, d) - Mul(s, s) + (Mul(Mul(x, x), m) + Mul(-x, s) + Mul(-x, s) + Mul(1.0, d))
    ensures Mul(gap, gap) <= Mul(m, total)
  {
    var spread, cross := m * d - s * s, m * (x * x) - x * s - x * s + d;
    assert gap == m * x - s;
    assert gap * gap == m * x * (m * x) - 2.0 * (m * x * s) + s * s;
    assert m * cross == gap * gap + spread;
    assert m * spread >= 0.0;
    assert m * total == m * spread + m * cross;
  }

  function Indices(n: nat): (r: seq<real>)
    ensures |r| == n && forall i :: 0 <= i < n ==> r[i] == i as real
  {
    seq(n, (i: nat) => i as real)
  }

  /** Over the indices 0..n-1 the spread has the closed form n^2(n^2 - 1)/12. */
  lemma IndexSpread(n: nat)
    ensures var k := n as real; Spread(Indices(n), Indices(n)) == k * k * (k * k - 1.0) / 12.0
  {
    IndexSums(n);
  }

  lemma {:induction false} IndexSums(n: nat)
    ensures var k := n as real;
            && Sum(Indices(n)) == k * (k - 1.0) / 2.0
            && Dot(Indices(n), Indices(n)) == (k - 1.0) * k * (2.0 * k - 1.0) / 6.0
  {
    if n > 0 {
      IndexSums(n - 1);
      assert Indices(n)[..n - 1] == Indices(n - 1);
      assert Times(Indices(n), Indices(n))[..n - 1] == Times(Indices(n - 1), Indices(n - 1));
    }
  }

  // ---- least squares ----

  /** The distances of the points above the line a*t + b. */
  function Residuals(ts: seq<real>, us: seq<real>, a: real, b: real): (r: seq<real>)
    requires |ts| == |us|
    ensures |r| == |ts| && forall i :: 0 <= i < |r| ==> r[i] == us[i] - (Mul(a, ts[i]) + b)
  {
    seq(|ts|, i requires 0 <= i < |ts| => us[i] - (Mul(a, ts[i]) + b))
  }

  /** The sum of squared residuals of the line a*t + b. */
  function Sse(ts: seq<real>, us: seq<real>, a: real, b: real): real
    requires |ts| == |us|
  {
    Dot(Residuals(ts, us, a, b), Residuals(ts, us, a, b))
  }

  lemma SseNotNegative(ts: seq<real>, us: seq<real>, a: real, b: real)
    requires |ts| == |us|
    ensures Sse(ts, us, a, b) >= 0.0
  {
    hide Mul, Times, Residuals;
    var e := Residuals(ts, us, a, b);
    forall k | 0 <= k < |e| ensures Times(e, e)[k] >= 0.0 {
      SquareSign(e[k]);
    }
    SumAtLeast(Times(e, e), 0);
  }

  /** The normal equations of the least-squares line. */
  predicate Normal(ts: seq<real>, us: seq<real>, a: real, b: real)
    requires |ts| == |us|
  {
    && Mul(a, Dot(ts, ts)) + Mul(b, Sum(ts)) == Dot(ts, us)
    && Mul(a, Sum(ts)) + Mul(b, |ts| as real) == Sum(us)
  }

  /** They say that the residuals have no sum and no trend. */
  lemma NormalResiduals(ts: seq<real>, us: seq<real>, a: real, b: real)
    requires |ts| == |us| && Normal(ts, us, a, b)
    ensures Sum(Residuals(ts, us, a, b)) == 0.0
    ensures Dot(ts, Residuals(ts, us, a, b)) == 0.0
  {
    hide Mul, Times, Ones, Cross, Residuals, Gaps;
    var e, one := Residuals(ts, us, a, b), Ones(|ts|);
    forall i | 0 <= i < |ts|
      ensures e[i] == Mul(1.0, us[i]) + Mul(-a, ts[i]) + Mul(-b, one[i]) + Mul(0.0, one[i])
      ensures Times(ts, e)[i]
              == Mul(1.0, Times(ts, us)[i]) + Mul(-a, Times(ts, ts)[i]) + Mul(-b, ts[i]) + Mul(0.0, ts[i])
    {
      ResidualPoint(ts[i], us[i], a, b);
    }
    SumLinear(e, us, ts, one, one, 1.0, -a, -b, 0.0);
    SumLinear(Times(ts, e), Times(ts, us), Times(ts, ts), ts, ts, 1.0, -a, -b, 0.0);
    SumOnes(|ts|);
    Combination(Sum(us), Sum(ts), |ts| as real, a, b);
    Combination(Dot(ts, us), Dot(ts, ts), Sum(ts), a, b);
  }

  lemma ResidualPoint(t: real, u: real, a: real, b: real)
    ensures var e := u - (Mul(a, t) + b);
            && e == Mul(1.0, u) + Mul(-a, t) + Mul(-b, 1.0) + Mul(0.0, 1.0)
            && Mul(t, e) == Mul(1.0, Mul(t, u)) + Mul(-a, Mul(t, t)) + Mul(-b, t) + Mul(0.0, t)
  {
  }

  lemma Combination(p: real, q: real, r: real, a: real, b: real)
    ensures Mul(1.0, p) + Mul(-a, q) + Mul(-b, r) + Mul(0.0, r) == p - Mul(a, q) - Mul(b, r)
  {
  }

  /** How far apart two lines are at each t, when they differ by da*t + db. */
  function Gaps(ts: seq<real>, da: real, db: real): (r: seq<real>)
    ensures |r| == |ts| && forall i :: 0 <= i < |r| ==> r[i] == Mul(da, ts[i]) + db
  {
    seq(|ts|, i requires 0 <= i < |ts| => Mul(da, ts[i]) + db)
  }

  /** Leaving the line of the normal equations adds the squared gaps, and nothing else. */
  lemma SseOfMovedLine(ts: seq<real>, us: seq<real>, a: real, b: real, a': real, b': real)
    requires |ts| == |us| && Normal(ts, us, a, b)
    ensures var d := Gaps(ts, a' - a, b' - b);
            Sse(ts, us, a', b') == Sse(ts, us, a, b) + Dot(d, d)
  {
    hide Mul, Times, Ones, Cross, Residuals, Gaps;
    var e, f, d := Residuals(ts, us, a, b), Residuals(ts, us, a', b'), Gaps(ts, a' - a, b' - b);
    var ca, cb := -2.0 * (a' - a), -2.0 * (b' - b);
    forall k | 0 <= k < |ts|
      ensures Times(f, f)[k] == Mul(1.0, Times(e, e)[k]) + Mul(1.0, Times(d, d)[k])
                                + Mul(ca, Times(ts, e)[k]) + Mul(cb, e[k])
    {
      MovedPoint(e[k], f[k], d[k], ts[k], us[k], a, b, a', b');
    }
    SumLinear(Times(f, f), Times(e, e), Times(d, d), Times(ts, e), e, 1.0, 1.0, ca, cb);
    NormalResiduals(ts, us, a, b);
    Units(Dot(e, e), Dot(d, d));
    TimesZero(ca, cb, 0.0, 0.0);
  }

  /** A line that solves the normal equations beats every other line, and strictly so when
      the points do not all share one t. */
  lemma NormalMinimises(ts: seq<real>, us: seq<real>, a: real, b: real, a': real, b': real, i: nat, j: nat)
    requires |ts| == |us| && i < |ts| && j < |ts| && ts[i] != ts[j]
    requires Normal(ts, us, a, b)
    ensures Sse(ts, us, a, b) <= Sse(ts, us, a', b')
    ensures Sse(ts, us, a, b) == Sse(ts, us, a', b') ==> a' == a && b' == b
  {
    hide Mul, Times, Ones, Cross, Residuals, Gaps;
    var d := Gaps(ts, a' - a, b' - b);
    SseOfMovedLine(ts, us, a, b, a', b');
    forall k | 0 <= k < |ts|
      ensures Times(d, d)[k] >= 0.0 && (d[k] != 0.0 ==> Times(d, d)[k] > 0.0)
    {
      SquareSign(d[k]);
    }
    SumAtLeast(Times(d, d), i);
    SumAtLeast(Times(d, d), j);
    if Dot(d, d) == 0.0 {
      TwoRoots(a' - a, b' - b, ts[i], ts[j]);
    }
  }

  lemma Units(x: real, y: real)
    ensures Mul(1.0, x) == x && Mul(1.0, y) == y
  {
  }

  lemma MovedPoint(e: real, f: real, d: real, t: real, u: real, a: real, b: real, a': real, b': real)
    requires e == u - (Mul(a, t) + b) && f == u - (Mul(a', t) + b') && d == Mul(a' - a, t) + (b' - b)
    ensures Mul(f, f) == Mul(1.0, Mul(e, e)) + Mul(1.0, Mul(d, d))
                         + Mul(-2.0 * (a' - a), Mul(t, e)) + Mul(-2.0 * (b' - b), e)
  {
    assert f == e - d;
    assert e * d == (a' - a) * (t * e) + (b' - b) * e;
  }

  lemma TwoRoots(da: real, db: real, s: real, t: real)
    requires s != t && Mul(da, s) + db == 0.0 && Mul(da, t) + db == 0.0
    ensures da == 0.0 && db == 0.0
  {
    var gap := if s > t then s - t else t - s;
    assert Mul(gap, da) == 0.0;
    PositiveFactor(gap, da);
  }

  /** No other line has a sum of squared residuals as small. */
  ghost predicate BestLine(ts: seq<real>, us: seq<real>, a: real, b: real)
    requires |ts| == |us|
  {
    forall a', b' {:trigger Sse(ts, us, a', b')} ::
      && Sse(ts, us, a, b) <= Sse(ts, us, a', b')
      && (Sse(ts, us, a, b) == Sse(ts, us, a', b') ==> a' == a && b' == b)
  }

  lemma NormalIsBest(ts: seq<real>, us: seq<real>, a: real, b: real, i: nat, j: nat)
    requires |ts| == |us| && i < |ts| && j < |ts| && ts[i] != ts[j]
    requires Normal(ts, us, a, b)
    ensures BestLine(ts, us, a, b)
  {
    forall a', b'
      ensures Sse(ts, us, a, b) <= Sse(ts, us, a', b')
      ensures Sse(ts, us, a, b) == Sse(ts, us, a', b') ==> a' == a && b' == b
    {
      NormalMinimises(ts, us, a, b, a', b', i, j);
    }
  }

  // The code's formulas for the line, by Cramer's rule from the five sums.

  function CramerSlope(n: real, t: real, u: real, tt: real, tu: real): real
    requires Mul(n, tt) - Mul(t, t) != 0.0
  {
    (Mul(n, tu) - Mul(t, u)) / (Mul(n, tt) - Mul(t, t))
  }

  function CramerIntercept(n: real, t: real, u: real, slope: real): real
    requires n != 0.0
  {
    (u - Mul(slope, t)) / n
  }

  lemma CramerSolves(n: real, t: real, u: real, tt: real, tu: real)
    requires n > 0.0 && Mul(n, tt) - Mul(t, t) != 0.0
    ensures var a := CramerSlope(n, t, u, tt, tu);
            var b := CramerIntercept(n, t, u, a);
            Mul(a, tt) + Mul(b, t) == tu && Mul(a, t) + Mul(b, n) == u
  {
    var a := CramerSlope(n, t, u, tt, tu);
    var b := CramerIntercept(n, t, u, a);
    CramerAlgebra(n, t, u, tt, tu, a, b);
  }

  lemma CramerAlgebra(n: real, t: real, u: real, tt: real, tu: real, a: real, b: real)
    requires n > 0.0
    requires a * (n * tt - t * t) == n * tu - t * u && b * n == u - a * t
    ensures a * tt + b * t == tu && a * t + b * n == u
  {
    var x := a * tt + b * t;
    assert n * x == a * (n * tt) + b * n * t;
    assert b * n * t == u * t - a * (t * t);
    assert a * (n * tt - t * t) == a * (n * tt) - a * (t * t);
    assert Mul(n, x - tu) == 0.0;
    PositiveFactor(n, x - tu);
  }
}
