/**
 The lag window of the iLBC encoder. The window's Toeplitz matrix is three outer products
 and a small remainder that its diagonal outweighs; so the windowed lags of a signal
 that is not silent are still positive on every predictor, and the recursion that gets
 them never divides by zero.
 */
module LagWindow {
  import opened CodecConstants
  import opened Vectors
  import opened Levinson

  const LPC_LAGWIN: seq<real> := [
    1.000100, 0.998890, 0.995569, 0.990057, 0.982392, 0.972623, 0.960816, 0.947047,
    0.931405, 0.913989, 0.894909
  ]

  // ----- the window ------------------------------------------------------------------

  /** Element by element. */
  function Weigh(w: seq<real>, c: seq<real>): (v: seq<real>)
    requires |c| <= |w|
    ensures |v| == |c|
  {
    seq(|c|, i requires 0 <= i < |c| => Times(w[i], c[i]))
  }

  /** Windowing; source and destination may be the same. */
  method Window(z: array<real>, x: array<real>, y: seq<real>, n: nat)
    requires n <= z.Length && n <= x.Length && n <= |y|
    modifies z
    ensures z[..n] == Weigh(y, old(x[..n]))
    ensures forall q :: n <= q < z.Length ==> z[q] == old(z[q])
  {
    ghost var v := Weigh(y, x[..n]);
    var i := 0;
    while i < n
      invariant 0 <= i <= n
      invariant forall q :: 0 <= q < i ==> z[q] == v[q]
      invariant forall q :: i <= q < n ==> x[q] == old(x[q])
      invariant forall q :: n <= q < z.Length ==> z[q] == old(z[q])
    {
      z[i] := x[i] * y[i];
      i := i + 1;
    }
  }

  // ----- the window's matrix ---------------------------------------------------------

  const OUTER0: seq<real> := [
    1.000001, 0.998889, 0.995568, 0.990056, 0.982391, 0.972622, 0.960815, 0.947046,
    0.931404, 0.913988, 0.894908
  ]

  const OUTER1: seq<real> := [
    0.000000, 0.044986, 0.090673, 0.136779, 0.183005, 0.229053, 0.274622, 0.319411,
    0.363131, 0.405498, 0.446253
  ]

  const OUTER2: seq<real> := [
    0.000001, 0.013909, 0.024864, 0.032816, 0.037600, 0.039283, 0.037604, 0.032818,
    0.024864, 0.013915, 0.000005
  ]

  const OFF := 0.000005
  const ON := 0.00009

  /** What the three outer products leave of the window's matrix. */
  function Leftover(n: nat, i: nat): real
    requires n < 11 && i < 11
  {
    LPC_LAGWIN[Distance(n, i)] - OUTER0[n] * OUTER0[i] - OUTER1[n] * OUTER1[i] - OUTER2[n] * OUTER2[i]
  }

  predicate Small(n: nat, i: nat)
    requires n < 11 && i < 11
  {
    if n == i then Leftover(n, i) >= ON else -OFF <= Leftover(n, i) <= OFF
  }

  lemma {:induction false} LeftoverSym(n: nat, i: nat)
    requires n < 11 && i < 11
    ensures Leftover(n, i) == Leftover(i, n)
  {
  }

  lemma {:induction false} Row0(i: nat)
    requires 0 <= i < 11
    ensures Small(0, i)
  {
  }

  lemma {:induction false} Row1(i: nat)
    requires 1 <= i < 11
    ensures Small(1, i)
  {
  }

  lemma {:induction false} Row2(i: nat)
    requires 2 <= i < 11
    ensures Small(2, i)
  {
  }

  lemma {:induction false} Row3(i: nat)
    requires 3 <= i < 11
    ensures Small(3, i)
  {
  }

  lemma {:induction false} Row4(i: nat)
    requires 4 <= i < 11
    ensures Small(4, i)
  {
  }

  lemma {:induction false} Row5(i: nat)
    requires 5 <= i < 11
    ensures Small(5, i)
  {
  }

  lemma {:induction false} Row6(i: nat)
    requires 6 <= i < 11
    ensures Small(6, i)
  {
  }

  lemma {:induction false} Row7(i: nat)
    requires 7 <= i < 11
    ensures Small(7, i)
  {
  }

  lemma {:induction false} Row8(i: nat)
    requires 8 <= i < 11
    ensures Small(8, i)
  {
  }

  lemma {:induction false} Row9(i: nat)
    requires 9 <= i < 11
    ensures Small(9, i)
  {
  }

  lemma {:induction false} Row10(i: nat)
    requires 10 <= i < 11
    ensures Small(10, i)
  {
  }

  lemma {:induction false} LeftoverIsSmall(n: nat, i: nat)
    requires n < 11 && i < 11
    ensures Small(n, i)
  {
    hide Small;
    if i < n {
      LeftoverIsSmall(i, n);
      SmallSym(i, n);
    } else {
      match n
      case 0 => Row0(i);
      case 1 => Row1(i);
      case 2 => Row2(i);
      case 3 => Row3(i);
      case 4 => Row4(i);
      case 5 => Row5(i);
      case 6 => Row6(i);
      case 7 => Row7(i);
      case 8 => Row8(i);
      case 9 => Row9(i);
      case 10 => Row10(i);
    }
  }

  lemma {:induction false} SmallSym(n: nat, i: nat)
    requires n < 11 && i < 11
    ensures Small(n, i) <==> Small(i, n)
  {
    hide Leftover;
    LeftoverSym(n, i);
  }

  // ----- the form under the window ----------------------------------------------------

  /** A factor of each element can stand on either side. */
  lemma {:induction false} DotWeigh(w: seq<real>, c: seq<real>, v: seq<real>)
    requires |c| == |v| <= |w|
    ensures Dot(c, Weigh(w, v)) == Dot(Weigh(w, c), v)
  {
    if c != [] {
      var n := |c| - 1;
      hide Times;
      DotWeigh(w, c[..n], v[..n]);
      WeighPrefix(w, c, n);
      WeighPrefix(w, v, n);
      Swap(w[n], c[n], v[n]);
    }
  }

  lemma {:induction false} WeighPrefix(w: seq<real>, c: seq<real>, n: nat)
    requires n <= |c| <= |w|
    ensures Weigh(w, c)[..n] == Weigh(w, c[..n])
  {
    hide Times;
  }

  lemma {:induction false} Swap(w: real, c: real, v: real)
    ensures c * Times(w, v) == Times(w, c) * v
  {
  }

  /** The remainder's row, weighted by the lags. */
  function LeftoverRow(r: seq<real>, n: nat, len: nat): (row: seq<real>)
    requires n < |r| <= 11 && len <= |r|
    ensures |row| == len
  {
    seq(len, i requires 0 <= i < len => Times(Leftover(n, i), r[Distance(n, i)]))
  }

  function Leftovers(c: seq<real>, r: seq<real>): (v: seq<real>)
    requires |c| <= |r| <= 11
    ensures |v| == |c|
  {
    seq(|c|, n requires 0 <= n < |c| => Dot(c, LeftoverRow(r, n, |c|)))
  }

  /** x + a * p + b * q + d * s, element by element. */
  function Sum(x: seq<real>, a: real, p: seq<real>, b: real, q: seq<real>, d: real, s: seq<real>): (y: seq<real>)
    requires |x| == |p| == |q| == |s|
    ensures |y| == |x|
  {
    Axpy(Axpy(Axpy(x, a, p), b, q), d, s)
  }

  lemma {:induction false} DotSum(c: seq<real>, x: seq<real>, a: real, p: seq<real>, b: real, q: seq<real>, d: real,
                                  s: seq<real>)
    requires |c| == |x| == |p| == |q| == |s|
    ensures Dot(c, Sum(x, a, p, b, q, d, s)) == Dot(c, x) + a * Dot(c, p) + b * Dot(c, q) + d * Dot(c, s)
  {
    hide Dot, Axpy;
    var y, z := Axpy(x, a, p), Axpy(Axpy(x, a, p), b, q);
    DotSym(c, Sum(x, a, p, b, q, d, s));
    DotAxpy(z, d, s, c);
    DotAxpy(y, b, q, c);
    DotAxpy(x, a, p, c);
    DotSym(c, x);
    DotSym(c, p);
    DotSym(c, q);
    DotSym(c, s);
  }

  /** A row of the windowed lags is a combination of weighted rows of the lags. */
  lemma {:induction false} WindowedRow(r: seq<real>, n: nat, len: nat)
    requires n < |r| <= 11 && len <= |r|
    ensures var row := Row(r, n, len);
            Row(Weigh(LPC_LAGWIN, r), n, len)
            == Sum(LeftoverRow(r, n, len), OUTER0[n], Weigh(OUTER0, row), OUTER1[n], Weigh(OUTER1, row),
                   OUTER2[n], Weigh(OUTER2, row))
  {
    hide OUTER0, OUTER1, OUTER2, LPC_LAGWIN;
    Lengths();
    var row := Row(r, n, len);
    var sum := Sum(LeftoverRow(r, n, len), OUTER0[n], Weigh(OUTER0, row), OUTER1[n], Weigh(OUTER1, row),
                   OUTER2[n], Weigh(OUTER2, row));
    forall i | 0 <= i < len ensures Row(Weigh(LPC_LAGWIN, r), n, len)[i] == sum[i] {
      Split(LPC_LAGWIN[Distance(n, i)], r[Distance(n, i)], OUTER0[n], OUTER0[i], OUTER1[n], OUTER1[i],
            OUTER2[n], OUTER2[i]);
    }
  }

  lemma {:induction false} Lengths()
    ensures |OUTER0| == |OUTER1| == |OUTER2| == |LPC_LAGWIN| == 11
  {
  }

  lemma {:induction false} Split(w: real, r: real, a: real, a': real, b: real, b': real, d: real, d': real)
    ensures Times(w, r) == Times(w - a * a' - b * b' - d * d', r) + a * Times(a', r) + b * Times(b', r)
            + d * Times(d', r)
  {
    assert (w - a * a' - b * b' - d * d') * r == w * r - (a * a') * r - (b * b') * r - (d * d') * r;
    assert (a * a') * r == a * (a' * r) && (b * b') * r == b * (b' * r) && (d * d') * r == d * (d' * r);
  }

  lemma {:induction false} WindowedCorr(c: seq<real>, r: seq<real>, n: nat)
    requires n < |c| <= |r| <= 11
    ensures Corr(c, Weigh(LPC_LAGWIN, r), n)
            == Dot(c, LeftoverRow(r, n, |c|)) + OUTER0[n] * Corr(Weigh(OUTER0, c), r, n)
               + OUTER1[n] * Corr(Weigh(OUTER1, c), r, n) + OUTER2[n] * Corr(Weigh(OUTER2, c), r, n)
  {
    hide OUTER0, OUTER1, OUTER2, LPC_LAGWIN, Dot, Row, LeftoverRow, Sum;
    Lengths();
    var row := Row(r, n, |c|);
    WindowedRow(r, n, |c|);
    DotSum(c, LeftoverRow(r, n, |c|), OUTER0[n], Weigh(OUTER0, row), OUTER1[n], Weigh(OUTER1, row),
           OUTER2[n], Weigh(OUTER2, row));
    DotWeigh(OUTER0, c, row);
    DotWeigh(OUTER1, c, row);
    DotWeigh(OUTER2, c, row);
  }

  /** The form of the windowed lags: three forms of the lags themselves, and what the
      remainder adds. */
  lemma {:induction false} WindowedForm(c: seq<real>, r: seq<real>)
    requires |c| <= |r| <= 11
    ensures Form(c, Weigh(LPC_LAGWIN, r))
            == Dot(c, Leftovers(c, r)) + Form(Weigh(OUTER0, c), r) + Form(Weigh(OUTER1, c), r)
               + Form(Weigh(OUTER2, c), r)
  {
    hide OUTER0, OUTER1, OUTER2, LPC_LAGWIN, Dot, Corr, LeftoverRow;
    Lengths();
    var v0, v1, v2 := Corrs(Weigh(OUTER0, c), r), Corrs(Weigh(OUTER1, c), r), Corrs(Weigh(OUTER2, c), r);
    var sum := Sum(Leftovers(c, r), 1.0, Weigh(OUTER0, v0), 1.0, Weigh(OUTER1, v1), 1.0, Weigh(OUTER2, v2));
    forall n | 0 <= n < |c| ensures Corrs(c, Weigh(LPC_LAGWIN, r))[n] == sum[n] {
      WindowedCorr(c, r, n);
      TimesIs(OUTER0[n], v0[n]);
      TimesIs(OUTER1[n], v1[n]);
      TimesIs(OUTER2[n], v2[n]);
    }
    assert Corrs(c, Weigh(LPC_LAGWIN, r)) == sum;
    DotSum(c, Leftovers(c, r), 1.0, Weigh(OUTER0, v0), 1.0, Weigh(OUTER1, v1), 1.0, Weigh(OUTER2, v2));
    DotWeigh(OUTER0, c, v0);
    DotWeigh(OUTER1, c, v1);
    DotWeigh(OUTER2, c, v2);
  }

  // ----- the remainder is outweighed -----------------------------------------------------

  /** No lag of a signal exceeds its energy. */
  lemma {:induction false} LagBelowEnergy(x: seq<real>, order: nat, k: nat)
    requires k <= order
    ensures -Lags(x, order)[0] <= Lags(x, order)[k] <= Lags(x, order)[0]
  {
    hide Dot, Delayed, LagSum;
    var len := |x| + order;
    var a, b := Delayed(x, 0, len), Delayed(x, k, len);
    DelayedDot(x, 0, 0, len);
    DelayedDot(x, 0, k, len);
    DelayedDot(x, k, k, len);
    EnergyOfSum(a, 1.0, b);
    EnergyOfSum(a, -1.0, b);
  }

  lemma {:induction false} EnergyOfSum(a: seq<real>, k: real, b: seq<real>)
    requires |a| == |b| && (k == 1.0 || k == -1.0)
    ensures Dot(a, a) + 2.0 * k * Dot(a, b) + Dot(b, b) >= 0.0
  {
    hide Dot;
    var s := Axpy(a, k, b);
    DotAxpy(a, k, b, s);
    DotSym(a, s);
    DotAxpy(a, k, b, a);
    DotSym(b, s);
    DotAxpy(a, k, b, b);
    DotSym(b, a);
    DotSelfNonNegative(s);
  }

  /** A product with a bounded factor, against the two squares. */
  lemma {:induction false} BoundedTerm(p: real, q: real, m: real, b: real)
    requires -b <= m <= b
    ensures Times(p, Times(q, m)) >= -Times(b, (Times(p, p) + Times(q, q)) / 2.0)
  {
    assert (b + m) * ((p + q) * (p + q)) >= 0.0 by { Nonneg(b + m, p + q); }
    assert (b - m) * ((p - q) * (p - q)) >= 0.0 by { Nonneg(b - m, p - q); }
    FourTimes(p, q, m, b);
  }

  lemma {:induction false} Nonneg(x: real, y: real)
    requires x >= 0.0
    ensures x * (y * y) >= 0.0
  {
    SquareSign(y);
  }

  lemma {:induction false} FourTimes(p: real, q: real, m: real, b: real)
    ensures (b + m) * ((p + q) * (p + q)) + (b - m) * ((p - q) * (p - q))
            == 4.0 * (p * (q * m)) + 2.0 * (b * (p * p + q * q))
  {
    var s, d := p * p + q * q, p * q;
    assert (p + q) * (p + q) == s + 2.0 * d;
    assert (p - q) * (p - q) == s - 2.0 * d;
    assert (b + m) * (s + 2.0 * d) + (b - m) * (s - 2.0 * d) == 2.0 * (b * s) + 4.0 * (m * d);
    assert m * d == p * (q * m);
  }

  /** The least that one entry of the remainder adds, off the diagonal and on it, in terms
      of the squares of the two coefficients. */
  function EntryFloor(n: nat, i: nat, pp: real, qq: real): real {
    (if n == i then ON * pp else 0.0) - OFF / 2.0 * (pp + qq)
  }

  lemma {:induction false} EntryBound(n: nat, i: nat, p: real, q: real, r: real, r0: real)
    requires n < 11 && i < 11 && -r0 <= r <= r0 && (n == i ==> r == r0 && p == q)
    ensures Times(p, Times(q, Times(Leftover(n, i), r))) >= Times(r0, EntryFloor(n, i, Times(p, p), Times(q, q)))
  {
    hide Leftover, Times;
    LeftoverIsSmall(n, i);
    var l := Leftover(n, i);
    if n == i {
      DiagonalTerm(p, l, r0);
    } else {
      BoundedProduct(l, r, r0);
      BoundedTerm(p, q, Times(l, r), OFF * r0);
      Reorder(r0, Times(p, p) + Times(q, q));
    }
  }

  lemma {:induction false} BoundedProduct(l: real, r: real, r0: real)
    requires -OFF <= l <= OFF && -r0 <= r <= r0
    ensures -(OFF * r0) <= Times(l, r) <= OFF * r0
  {
    FactorNonneg(OFF - l, r0 + r);
    FactorNonneg(OFF + l, r0 - r);
    FactorNonneg(OFF - l, r0 - r);
    FactorNonneg(OFF + l, r0 + r);
  }

  lemma {:induction false} FactorNonneg(x: real, y: real)
    requires x >= 0.0 && y >= 0.0
    ensures x * y >= 0.0
  {
  }

  lemma {:induction false} DiagonalTerm(p: real, l: real, r0: real)
    requires l >= ON && r0 >= 0.0
    ensures Times(p, Times(p, Times(l, r0))) >= Times(r0, ON * Times(p, p) - OFF / 2.0 * (Times(p, p) + Times(p, p)))
  {
    var s := p * p;
    SquareSign(p);
    assert p * (p * (l * r0)) == r0 * (l * s);
    assert (l - ON) * s >= 0.0;
    assert (l - ON) * s == l * s - ON * s;
    assert r0 * (l * s - (ON * s - OFF * s)) >= 0.0;
  }

  lemma {:induction false} Reorder(r0: real, s: real)
    ensures -Times(OFF * r0, s / 2.0) == Times(r0, 0.0 - OFF / 2.0 * s)
  {
  }

  ghost predicate Bounded(r: seq<real>) {
    r != [] && forall k :: 0 <= k < |r| ==> -r[0] <= r[k] <= r[0]
  }

  lemma {:induction false} TimesSum(p: real, x: real, y: real)
    ensures Times(p, x + y) == Times(p, x) + Times(p, y)
  {
  }

  lemma {:induction false} OneMore(k: nat, s: real)
    requires k > 0
    ensures k as real * s == (k - 1) as real * s + s
  {
    assert k as real == (k - 1) as real + 1.0;
  }

  lemma {:induction false} ZeroTimes(x: real)
    ensures 0 as real * x == 0.0
  {
  }

  lemma {:induction false} DotNext(a: seq<real>, b: seq<real>, k: nat)
    requires 0 < k <= |a| && k <= |b|
    ensures Dot(a[..k], b[..k]) == Dot(a[..k - 1], b[..k - 1]) + Times(a[k - 1], b[k - 1])
  {
    DotStep(a, b, k - 1);
  }

  lemma {:induction false} DotNone(a: seq<real>, b: seq<real>)
    ensures Dot(a[..0], b[..0]) == 0.0
  {
    assert a[..0] == [] && b[..0] == [];
  }

  /** The least that one row adds, up to entry k: `pp` is the square of its coefficient
      and `ss` the sum of the squares up to k. */
  function RowFloor(n: nat, k: nat, pp: real, ss: real): real {
    (if n < k then ON * pp else 0.0) - OFF / 2.0 * (k as real * pp + ss)
  }

  lemma {:induction false} RowFloorStep(n: nat, k: nat, pp: real, ss: real, qq: real)
    ensures RowFloor(n, 0, pp, 0.0) == 0.0
    ensures RowFloor(n, k + 1, pp, ss + qq) == RowFloor(n, k, pp, ss) + EntryFloor(n, k, pp, qq)
  {
    OneMore(k + 1, pp);
    ZeroTimes(pp);
  }

  /** One row of the remainder, up to entry k. */
  lemma {:induction false} RowBound(c: seq<real>, r: seq<real>, n: nat, k: nat)
    requires n < |c| <= |r| <= 11 && k <= |c| && Bounded(r)
    ensures Times(c[n], Dot(c[..k], LeftoverRow(r, n, |c|)[..k]))
            >= Times(r[0], RowFloor(n, k, Times(c[n], c[n]), Dot(c[..k], c[..k])))
    decreases k
  {
    hide Dot, Times, Leftover, RowFloor, EntryFloor;
    var p, row := c[n], LeftoverRow(r, n, |c|);
    if k == 0 {
      DotNone(c, row);
      DotNone(c, c);
      RowFloorStep(n, 0, Times(p, p), 0.0, 0.0);
      NoProduct(p);
      NoProduct(r[0]);
    } else {
      var i := k - 1;
      RowBound(c, r, n, i);
      DotNext(c, row, k);
      DotNext(c, c, k);
      EntryBound(n, i, p, c[i], r[Distance(n, i)], r[0]);
      TimesSum(p, Dot(c[..i], row[..i]), Times(c[i], row[i]));
      RowFloorStep(n, i, Times(p, p), Dot(c[..i], c[..i]), Times(c[i], c[i]));
      TimesSum(r[0], RowFloor(n, i, Times(p, p), Dot(c[..i], c[..i])),
               EntryFloor(n, i, Times(p, p), Times(c[i], c[i])));
    }
  }

  lemma {:induction false} NoProduct(x: real)
    ensures Times(x, 0.0) == 0.0
  {
  }

  /** The least that the first k of n rows add: `ss` is the sum of the squares up to k and
      `all` that of all coefficients. */
  function RowsFloor(n: nat, k: nat, ss: real, all: real): real {
    ON * ss - OFF / 2.0 * (n as real * ss + k as real * all)
  }

  lemma {:induction false} RowsFloorStep(n: nat, k: nat, ss: real, all: real, pp: real)
    requires k < n
    ensures RowsFloor(n, 0, 0.0, all) == 0.0
    ensures RowsFloor(n, k + 1, ss + pp, all) == RowsFloor(n, k, ss, all) + RowFloor(k, n, pp, all)
  {
    OneMore(k + 1, all);
    ZeroTimes(all);
    assert n as real * (ss + pp) == n as real * ss + n as real * pp;
  }

  /** All rows up to row k. */
  lemma {:induction false} RowsBound(c: seq<real>, r: seq<real>, k: nat)
    requires k <= |c| <= |r| <= 11 && c != [] && Bounded(r)
    ensures Dot(c[..k], Leftovers(c, r)[..k]) >= Times(r[0], RowsFloor(|c|, k, Dot(c[..k], c[..k]), Dot(c, c)))
    decreases k
  {
    hide Dot, Times, LeftoverRow, RowFloor, RowsFloor;
    var v, all := Leftovers(c, r), Dot(c, c);
    if k == 0 {
      DotNone(c, v);
      DotNone(c, c);
      RowsFloorStep(|c|, 0, 0.0, all, 0.0);
      NoProduct(r[0]);
    } else {
      var n := k - 1;
      RowsBound(c, r, n);
      DotNext(c, v, k);
      DotNext(c, c, k);
      RowBound(c, r, n, |c|);
      assert c[..|c|] == c && LeftoverRow(r, n, |c|)[..|c|] == LeftoverRow(r, n, |c|);
      RowsFloorStep(|c|, n, Dot(c[..n], c[..n]), all, Times(c[n], c[n]));
      TimesSum(r[0], RowsFloor(|c|, n, Dot(c[..n], c[..n]), all), RowFloor(n, |c|, Times(c[n], c[n]), all));
    }
  }

  /** The remainder adds energy to every predictor. */
  lemma {:induction false} LeftoversArePositive(c: seq<real>, r: seq<real>)
    requires 0 < |c| <= |r| <= 11 && Bounded(r) && c[0] == 1.0 && r[0] > 0.0
    ensures Dot(c, Leftovers(c, r)) > 0.0
  {
    hide Dot, Times, Leftovers;
    RowsBound(c, r, |c|);
    assert c[..|c|] == c && Leftovers(c, r)[..|c|] == Leftovers(c, r);
    DotSelfPositive(c, 0);
    Outweighs(|c|, Dot(c, c));
    TimesSigns(r[0], RowsFloor(|c|, |c|, Dot(c, c), Dot(c, c)));
  }

  lemma {:induction false} Outweighs(n: nat, s: real)
    requires n <= 11 && s > 0.0
    ensures RowsFloor(n, n, s, s) > 0.0
  {
    assert n as real <= 11.0;
    assert (11.0 - n as real) * s >= 0.0;
  }

  // ----- what the encoder's recursion gets -------------------------------------------------

  /** The windowed lags of a signal that is not silent are positive on every predictor. */
  lemma {:induction false} WindowedLagsArePositive(c: seq<real>, x: seq<real>, order: nat, s: nat)
    requires 0 < |c| <= order + 1 <= 11 && c[0] == 1.0
    requires s < |x| && x[s] != 0.0
    ensures Form(c, Weigh(LPC_LAGWIN, Lags(x, order))) > 0.0
  {
    hide Lags, Form, Leftovers, OUTER0, OUTER1, OUTER2, LPC_LAGWIN, Dot;
    Lengths();
    var r := Lags(x, order);
    WindowedForm(c, r);
    forall k | 0 <= k < |r| ensures -r[0] <= r[k] <= r[0] {
      LagBelowEnergy(x, order, k);
    }
    SignalLagsArePositive([1.0], x, order, s);
    UnitForm(r);
    LeftoversArePositive(c, r);
    FormIsNotNegative(Weigh(OUTER0, c), x, order);
    FormIsNotNegative(Weigh(OUTER1, c), x, order);
    FormIsNotNegative(Weigh(OUTER2, c), x, order);
  }

  lemma {:induction false} UnitForm(r: seq<real>)
    requires r != []
    ensures Form([1.0], r) == r[0]
  {
    assert Corrs([1.0], r)[0] == Dot([1.0], Row(r, 0, 1));
    assert Row(r, 0, 1) == [r[0]];
    DotSingle(1.0, r[0]);
    assert Corrs([1.0], r) == [r[0]];
  }

  lemma {:induction false} FormIsNotNegative(c: seq<real>, x: seq<real>, order: nat)
    requires |c| <= order + 1
    ensures Form(c, Lags(x, order)) >= 0.0
  {
    var len := |x| + order;
    FormIsErrorEnergy(c, x, order, len);
    DotSelfNonNegative(Residual(c, x, len));
  }

  /** So the recursion on the windowed lags never divides by zero, every prediction error
      is positive and every reflection coefficient lies strictly inside the unit interval. */
  lemma {:induction false} WindowedIsRegular(x: seq<real>, order: nat, s: nat)
    requires order <= LPC_FILTERORDER && s < |x| && x[s] != 0.0
    ensures var r := Weigh(LPC_LAGWIN, Lags(x, order));
            && Regular(r, order)
            && (forall m :: 0 <= m <= order ==> Solve(r, m).alpha > 0.0)
            && (forall m :: 0 <= m < order ==> -1.0 < Reflection(Solve(r, m), r) < 1.0)
  {
    var r := Weigh(LPC_LAGWIN, Lags(x, order));
    forall c: seq<real> | 0 < |c| <= order + 1 && c[0] == 1.0 ensures Form(c, r) > 0.0 {
      WindowedLagsArePositive(c, x, order, s);
    }
    PositiveLagsAreRegular(r, order);
  }

  lemma {:induction false} SolveReflections(r: seq<real>, order: nat, m: nat)
    requires m < order < |r|
    ensures Solve(r, order).k[m] == Reflection(Solve(r, m), r)
    decreases order
  {
    hide Reflection;
    if m < order - 1 {
      SolveReflections(r, order - 1, m);
    }
  }

  lemma {:induction false} LoudHasNonzero(x: seq<real>) returns (s: nat)
    requires LagSum(x, 0) != 0.0
    ensures s < |x| && x[s] != 0.0
  {
    assert x[..|x| - 0] == x && x[0..] == x;
    if forall i :: 0 <= i < |x| ==> x[i] == 0.0 {
      DotZero(x, x);
    }
    s :| 0 <= s < |x| && x[s] != 0.0;
  }

  /** The encoder's analysis of one windowed block, whatever the signal is: `temp` holds
      the block and then the reflection coefficients. No step divides by zero, the
      coefficients solve the normal equations of the windowed lags, and every reflection
      coefficient lies strictly inside the unit interval. */
  method Predictor(lp: array<real>, temp: array<real>, r: array<real>, n: nat)
    requires lp.Length == LPC_FILTERORDER + 1 && r.Length == LPC_FILTERORDER + 1
    requires n <= temp.Length && LPC_FILTERORDER <= temp.Length && lp != temp && lp != r && temp != r
    modifies lp, temp, r
    ensures r[..] == Weigh(LPC_LAGWIN, Lags(old(temp[..n]), LPC_FILTERORDER))
    ensures forall m :: 0 <= m < LPC_FILTERORDER ==> -1.0 < temp[m] < 1.0
    ensures if r[0] < EPS then lp[0] == 1.0 && forall i :: 1 <= i <= LPC_FILTERORDER ==> lp[i] == 0.0
            else var p := Solve(r[..], LPC_FILTERORDER);
                 lp[..] == p.c && p.alpha > 0.0 && Normal(lp[..], r[..], p.alpha)
  {
    hide Lags, LPC_LAGWIN, Solve, Normal, Regular, Weigh, Reflection;
    Lengths();
    ghost var x := temp[..n];
    Autocorr(r, temp, n, LPC_FILTERORDER);
    Window(r, r, LPC_LAGWIN, LPC_FILTERORDER + 1);
    ghost var rs := r[..];
    assert rs == r[..LPC_FILTERORDER + 1];
    if r[0] >= EPS {
      FirstLag(x);
      ghost var s := LoudHasNonzero(x);
      WindowedIsRegular(x, LPC_FILTERORDER, s);
    }
    Levdurb(lp, temp, r, LPC_FILTERORDER);
    assert lp[..] == lp[..LPC_FILTERORDER + 1];
    if r[0] >= EPS {
      forall m | 0 <= m < LPC_FILTERORDER ensures -1.0 < temp[m] < 1.0 {
        SolveReflections(rs, LPC_FILTERORDER, m);
        assert temp[m] == temp[..LPC_FILTERORDER][m];
      }
    }
  }

  /** A windowed first lag is positive only on a signal that has energy. */
  lemma {:induction false} FirstLag(x: seq<real>)
    requires Weigh(LPC_LAGWIN, Lags(x, LPC_FILTERORDER))[0] > 0.0
    ensures LagSum(x, 0) != 0.0
  {
    assert Weigh(LPC_LAGWIN, Lags(x, LPC_FILTERORDER))[0] == Times(LPC_LAGWIN[0], LagSum(x, 0));
  }
}
