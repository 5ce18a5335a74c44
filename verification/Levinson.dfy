/**
 Linear prediction: the autocorrelation of a signal and the Levinson-Durbin
 recursion that turns it into predictor coefficients, in place.
 */
module Levinson {
  import opened CodecConstants
  import opened Vectors

  // ----- specification ---------------------------------------------------

  function Distance(n: int, i: int): (d: nat)
    ensures d == if n < i then i - n else n - i
  {
    if n < i then i - n else n - i
  }

  /** Row n of the symmetric Toeplitz matrix of the lags `r`. */
  function Row(r: seq<real>, n: nat, len: nat): (row: seq<real>)
    requires n < |r| && len <= |r|
    ensures |row| == len
  {
    seq(len, i requires 0 <= i < len => r[Distance(n, i)])
  }

  /** Row n of the matrix times the coefficient vector: the correlation of the
      prediction error with the signal delayed by n. */
  function Corr(c: seq<real>, r: seq<real>, n: nat): real
    requires n < |r| && |c| <= |r|
  {
    Dot(c, Row(r, n, |c|))
  }

  /** The normal equations of linear prediction, with prediction error `alpha`. */
  ghost predicate Normal(c: seq<real>, r: seq<real>, alpha: real)
    requires |c| <= |r|
  {
    && |c| > 0 && c[0] == 1.0
    && Corr(c, r, 0) == alpha
    && forall n :: 1 <= n < |c| ==> Corr(c, r, n) == 0.0
  }

  /** A predictor with its reflection coefficients and its prediction error. */
  datatype Lpc = Lpc(c: seq<real>, k: seq<real>, alpha: real)

  /** The reflection coefficient that raises the order of `p` by one. */
  function Reflection(p: Lpc, r: seq<real>): real
    requires |p.c| < |r|
  {
    if p.alpha == 0.0 then 0.0 else -Corr(p.c, r, |p.c|) / p.alpha
  }

  /** The predictor of the next order: the old one plus a multiple of itself
      reversed. */
  function Raise(p: Lpc, r: seq<real>): Lpc
    requires |p.c| < |r|
  {
    var k := Reflection(p, r);
    var e := p.c + [0.0];
    Lpc(Axpy(e, k, Reversed(e)), p.k + [k], p.alpha + k * Corr(p.c, r, |p.c|))
  }

  function Solve(r: seq<real>, order: nat): (p: Lpc)
    requires order < |r|
    ensures |p.c| == order + 1 && |p.k| == order
  {
    if order == 0 then Lpc([1.0], [], r[0]) else Raise(Solve(r, order - 1), r)
  }

  /** No prediction error before the last order vanishes. */
  ghost predicate Regular(r: seq<real>, order: nat)
    requires order < |r|
  {
    forall m :: 0 <= m < order ==> Solve(r, m).alpha != 0.0
  }

  // ----- the recursion solves the normal equations --------------------------

  lemma {:induction false} CorrPadded(c: seq<real>, r: seq<real>, n: nat)
    requires n < |r| && |c| < |r|
    ensures Corr(c + [0.0], r, n) == Corr(c, r, n)
  {
    var e, row := c + [0.0], Row(r, n, |c| + 1);
    assert e[..|c|] == c && row[..|c|] == Row(r, n, |c|);
  }

  /** The reversed predictor meets the rows in the opposite order. */
  lemma {:induction false} CorrReversed(e: seq<real>, r: seq<real>, n: nat)
    requires n < |e| <= |r|
    ensures Corr(Reversed(e), r, n) == Corr(e, r, |e| - 1 - n)
  {
    var row := Row(r, |e| - 1 - n, |e|);
    assert Row(r, n, |e|) == Reversed(row);
    DotReversed(e, row);
  }

  lemma {:induction false} CorrRaised(p: Lpc, r: seq<real>, n: nat)
    requires n <= |p.c| < |r|
    ensures Corr(Raise(p, r).c, r, n) == Corr(p.c, r, n) + Reflection(p, r) * Corr(p.c, r, |p.c| - n)
  {
    var e := p.c + [0.0];
    DotAxpy(e, Reflection(p, r), Reversed(e), Row(r, n, |e|));
    CorrReversed(e, r, n);
    CorrPadded(p.c, r, n);
    CorrPadded(p.c, r, |p.c| - n);
  }

  lemma {:induction false} ReflectionCancels(p: Lpc, r: seq<real>)
    requires |p.c| < |r| && p.alpha != 0.0
    ensures Corr(p.c, r, |p.c|) + Reflection(p, r) * p.alpha == 0.0
  {
    hide Corr;
  }

  lemma {:induction false} RaiseKeepsNormal(p: Lpc, r: seq<real>)
    requires |p.c| < |r| && p.alpha != 0.0
    requires Normal(p.c, r, p.alpha)
    ensures Normal(Raise(p, r).c, r, Raise(p, r).alpha)
  {
    hide Corr, Reflection;
    var q := Raise(p, r);
    CorrRaised(p, r, 0);
    ReflectionCancels(p, r);
    forall n | 1 <= n < |q.c|
      ensures Corr(q.c, r, n) == 0.0
    {
      CorrRaised(p, r, n);
    }
    assert q.c[0] == 1.0 + Reflection(p, r) * 0.0;
  }

  /** The recursion of any order solves the normal equations. */
  lemma {:induction false} SolveIsNormal(r: seq<real>, order: nat)
    requires order < |r| && Regular(r, order)
    ensures Normal(Solve(r, order).c, r, Solve(r, order).alpha)
  {
    if order == 0 {
      assert Row(r, 0, 1) == [r[0]];
      assert Dot([1.0], [r[0]]) == Dot([], []) + 1.0 * r[0];
    } else {
      SolveIsNormal(r, order - 1);
      RaiseKeepsNormal(Solve(r, order - 1), r);
    }
  }

  // ----- what the prediction error is ---------------------------------------

  /** The quadratic form of the Toeplitz matrix. */
  function Form(c: seq<real>, r: seq<real>): real
    requires |c| <= |r|
  {
    Dot(c, Corrs(c, r))
  }

  function Corrs(c: seq<real>, r: seq<real>): (v: seq<real>)
    requires |c| <= |r|
    ensures |v| == |c|
  {
    seq(|c|, n requires 0 <= n < |c| => Corr(c, r, n))
  }

  /** For a solution of the normal equations the form is the prediction error. */
  lemma {:induction false} NormalForm(c: seq<real>, r: seq<real>, alpha: real)
    requires |c| <= |r| && Normal(c, r, alpha)
    ensures Form(c, r) == alpha
  {
    var v := Corrs(c, r);
    DotSplit(c, v, 1);
    DotStep(c, v, 0);
    DotSym(c[1..], v[1..]);
    DotZero(c[1..], v[1..]);
    assert c[..0] == [] && v[..0] == [];
  }

  /** If the lags are positive on every predictor, no step divides by zero, every
      prediction error is positive and every reflection coefficient is below one. */
  lemma {:induction false} PositiveLagsAreRegular(r: seq<real>, order: nat)
    requires order < |r|
    requires forall c: seq<real> | 0 < |c| <= order + 1 && c[0] == 1.0 :: Form(c, r) > 0.0
    ensures Regular(r, order)
    ensures forall m :: 0 <= m <= order ==> Solve(r, m).alpha > 0.0
    ensures forall m :: 0 <= m < order ==> -1.0 < Reflection(Solve(r, m), r) < 1.0
  {
    if order > 0 {
      PositiveLagsAreRegular(r, order - 1);
    }
    SolveIsNormal(r, order);
    var p := Solve(r, order);
    NormalForm(p.c, r, p.alpha);
    if order > 0 {
      ErrorShrinks(Solve(r, order - 1), r);
    }
  }

  lemma {:induction false} ErrorShrinks(p: Lpc, r: seq<real>)
    requires |p.c| < |r| && p.alpha > 0.0 && Raise(p, r).alpha > 0.0
    ensures -1.0 < Reflection(p, r) < 1.0
  {
    hide Corr;
    var k := Reflection(p, r);
    var g := Corr(p.c, r, |p.c|);
    assert g == -(k * p.alpha) by { ReflectionCancels(p, r); }
    ShrinkFactor(p.alpha, k, g);
    if !(-1.0 < k < 1.0) {
      OutsideUnit(k, p.alpha);
    }
  }

  lemma {:induction false} ShrinkFactor(a: real, k: real, g: real)
    requires g == -(k * a)
    ensures a + k * g == a * (1.0 - k * k)
  {
  }

  lemma {:induction false} OutsideUnit(k: real, a: real)
    requires a > 0.0 && (k >= 1.0 || k <= -1.0)
    ensures a * (1.0 - k * k) <= 0.0
  {
    var s := 1.0 - k * k;
    assert s <= 0.0 by {
      var m := if k >= 1.0 then k else -k;
      assert m * m >= m && m * m == k * k;
    }
    assert a * (-s) >= 0.0;
  }

  // ----- the lags of a signal ------------------------------------------------

  /** The signal, zero outside its support. */
  function At(x: seq<real>, t: int): real {
    if 0 <= t < |x| then x[t] else 0.0
  }

  /** The signal delayed by `d`, on a time axis of length `len`. */
  function Delayed(x: seq<real>, d: nat, len: nat): (s: seq<real>)
    ensures |s| == len
  {
    seq(len, t => At(x, t - d))
  }

  /** The sum computed for one lag. */
  function LagSum(x: seq<real>, lag: nat): real {
    if lag >= |x| then 0.0 else Dot(x[..|x| - lag], x[lag..])
  }

  function Lags(x: seq<real>, order: nat): (r: seq<real>)
    ensures |r| == order + 1
  {
    seq(order + 1, lag requires 0 <= lag => LagSum(x, lag))
  }

  /** The prediction error of the predictor `c` on the signal: the signal filtered
      by c, on a time axis of length `len`. */
  function Residual(c: seq<real>, x: seq<real>, len: nat): (y: seq<real>)
    ensures |y| == len
  {
    if c == [] then seq(len, _ => 0.0)
    else
      var n := |c| - 1;
      Axpy(Residual(c[..n], x, len), c[n], Delayed(x, n, len))
  }

  /** The inner products of the delayed signals with one vector. */
  function DelayedDots(x: seq<real>, len: nat, v: seq<real>, count: nat): (w: seq<real>)
    requires |v| == len
    ensures |w| == count
  {
    seq(count, i requires 0 <= i => Dot(Delayed(x, i, len), v))
  }

  /** The inner product of the error with any vector, term by term. */
  lemma {:induction false} ResidualDot(c: seq<real>, x: seq<real>, len: nat, v: seq<real>)
    requires |v| == len
    ensures Dot(Residual(c, x, len), v) == Dot(c, DelayedDots(x, len, v, |c|))
  {
    hide Dot, Axpy, Delayed;
    var w := DelayedDots(x, len, v, |c|);
    if c == [] {
      DotZeroLeft(Residual(c, x, len), v);
      DotZeroLeft(c, w);
    } else {
      var n := |c| - 1;
      ResidualDot(c[..n], x, len, v);
      DotAxpy(Residual(c[..n], x, len), c[n], Delayed(x, n, len), v);
      DotStep(c, w, n);
      assert w[..n] == DelayedDots(x, len, v, n);
      assert c[..n + 1] == c && w[..n + 1] == w;
    }
  }

  /** Two delayed copies of the signal correlate as the lag between them says, on
      any time axis long enough to hold them. */
  lemma {:induction false} DelayedDot(x: seq<real>, i: nat, j: nat, len: nat)
    requires i <= j && |x| + j <= len
    ensures Dot(Delayed(x, i, len), Delayed(x, j, len)) == LagSum(x, j - i)
  {
    hide Dot;
    var a, b := Delayed(x, i, len), Delayed(x, j, len);
    DotSplit(a, b, j);
    forall t | 0 <= t < j
      ensures b[..j][t] == 0.0
    {
      assert b[..j][t] == At(x, t - j);
    }
    DotZero(a[..j], b[..j]);
    var p, q := a[j..], b[j..];
    var lag := j - i;
    assert forall t :: 0 <= t < |p| ==> p[t] == At(x, t + lag);
    assert forall t :: 0 <= t < |p| ==> q[t] == At(x, t);
    OverlapDot(x, lag, p, q);
  }

  /** Only where the delayed copies overlap is there anything to multiply. */
  lemma {:induction false} OverlapDot(x: seq<real>, lag: nat, p: seq<real>, q: seq<real>)
    requires |x| <= |p| == |q|
    requires forall t :: 0 <= t < |p| ==> p[t] == At(x, t + lag)
    requires forall t :: 0 <= t < |p| ==> q[t] == At(x, t)
    ensures Dot(p, q) == LagSum(x, lag)
  {
    hide Dot;
    var m := if lag >= |x| then 0 else |x| - lag;
    DotSplit(p, q, m);
    forall t | 0 <= t < |p| - m
      ensures p[m..][t] == 0.0
    {
      assert p[m..][t] == p[m + t];
    }
    DotZeroLeft(p[m..], q[m..]);
    if lag < |x| {
      assert p[..m] == x[lag..];
      assert q[..m] == x[..m];
      DotSym(p[..m], q[..m]);
    } else {
      DotZero(p[..m], q[..m]);
    }
  }

  /** The correlations that the normal equations speak of are inner products of
      the prediction error with the delayed signal. */
  lemma {:induction false} CorrIsErrorCorrelation(c: seq<real>, x: seq<real>, order: nat, n: nat, len: nat)
    requires |c| <= order + 1 && n <= order && |x| + order <= len
    ensures Corr(c, Lags(x, order), n) == Dot(Residual(c, x, len), Delayed(x, n, len))
  {
    hide Dot, Delayed;
    var v := Delayed(x, n, len);
    ResidualDot(c, x, len, v);
    forall i | 0 <= i < |c|
      ensures Dot(Delayed(x, i, len), v) == Row(Lags(x, order), n, |c|)[i]
    {
      if i <= n {
        DelayedDot(x, i, n, len);
      } else {
        DelayedDot(x, n, i, len);
        DotSym(Delayed(x, i, len), v);
      }
    }
    assert DelayedDots(x, len, v, |c|) == Row(Lags(x, order), n, |c|);
  }

  /** The quadratic form of the lags is the energy of the prediction error. */
  lemma {:induction false} FormIsErrorEnergy(c: seq<real>, x: seq<real>, order: nat, len: nat)
    requires |c| <= order + 1 && |x| + order <= len
    ensures var y := Residual(c, x, len); Form(c, Lags(x, order)) == Dot(y, y)
  {
    hide Dot, Delayed;
    var y := Residual(c, x, len);
    ResidualDot(c, x, len, y);
    forall n | 0 <= n < |c|
      ensures Dot(Delayed(x, n, len), y) == Corrs(c, Lags(x, order))[n]
    {
      CorrIsErrorCorrelation(c, x, order, n, len);
      DotSym(Delayed(x, n, len), y);
    }
    assert DelayedDots(x, len, y, |c|) == Corrs(c, Lags(x, order));
  }

  /** Before the signal starts, and at its first nonzero sample, the error of a
      predictor with unit lead is the signal. */
  lemma {:induction false} ResidualStart(c: seq<real>, x: seq<real>, len: nat, t: nat)
    requires |c| > 0 && c[0] == 1.0 && t < |x| <= len
    requires forall q :: 0 <= q < t ==> x[q] == 0.0
    ensures Residual(c, x, len)[t] == x[t]
  {
    var n := |c| - 1;
    if n == 0 {
      assert Residual(c, x, len)[t] == 0.0 + 1.0 * At(x, t);
    } else {
      ResidualStart(c[..n], x, len, t);
      assert At(x, t - n) == 0.0;
      assert Residual(c, x, len)[t] == Residual(c[..n], x, len)[t] + c[n] * At(x, t - n);
    }
  }

  /** The lags of a signal that is not silent are positive on every predictor. */
  lemma {:induction false} SignalLagsArePositive(c: seq<real>, x: seq<real>, order: nat, s: nat)
    requires 0 < |c| <= order + 1 && c[0] == 1.0
    requires s < |x| && x[s] != 0.0
    ensures Form(c, Lags(x, order)) > 0.0
  {
    var len := |x| + order;
    var t := FirstNonzero(x, s);
    ResidualStart(c, x, len, t);
    DotSelfPositive(Residual(c, x, len), t);
    FormIsErrorEnergy(c, x, order, len);
  }

  lemma {:induction false} FirstNonzero(x: seq<real>, s: nat) returns (t: nat)
    requires s < |x| && x[s] != 0.0
    ensures t <= s && x[t] != 0.0
    ensures forall q :: 0 <= q < t ==> x[q] == 0.0
  {
    if q :| 0 <= q < s && x[q] != 0.0 {
      t := FirstNonzero(x, q);
    } else {
      t := s;
    }
  }

  /** On the autocorrelation of a signal that is not silent the recursion never
      divides by zero, and every reflection coefficient lies strictly inside the
      unit interval. */
  lemma {:induction false} AutocorrelationIsRegular(x: seq<real>, order: nat, s: nat)
    requires s < |x| && x[s] != 0.0
    ensures Regular(Lags(x, order), order)
    ensures Solve(Lags(x, order), order).alpha > 0.0
    ensures forall m :: 0 <= m < order ==> -1.0 < Reflection(Solve(Lags(x, order), m), Lags(x, order)) < 1.0
  {
    forall c: seq<real> | 0 < |c| <= order + 1 && c[0] == 1.0
      ensures Form(c, Lags(x, order)) > 0.0
    {
      SignalLagsArePositive(c, x, order, s);
    }
    PositiveLagsAreRegular(Lags(x, order), order);
  }

  // ----- the best predictor ----------------------------------------------------

  lemma {:induction false} ResidualAt(c: seq<real>, x: seq<real>, len: nat, t: nat)
    requires |c| > 0 && t < len
    ensures Residual(c, x, len)[t] == Residual(c[..|c| - 1], x, len)[t] + c[|c| - 1] * Delayed(x, |c| - 1, len)[t]
  {
  }

  lemma {:induction false} AxpyAt(a: seq<real>, k: real, b: seq<real>, t: nat)
    requires t < |a| == |b|
    ensures Axpy(a, k, b)[t] == a[t] + k * b[t]
  {
  }

  /** Residuals are linear in the predictor. */
  lemma {:induction false} ResidualAxpy(c: seq<real>, k: real, d: seq<real>, x: seq<real>, len: nat)
    requires |c| == |d|
    ensures Residual(Axpy(c, k, d), x, len) == Axpy(Residual(c, x, len), k, Residual(d, x, len))
  {
    var l, m := Residual(Axpy(c, k, d), x, len), Axpy(Residual(c, x, len), k, Residual(d, x, len));
    if c == [] {
      assert forall t :: 0 <= t < len ==> m[t] == 0.0 + k * 0.0;
    } else {
      ResidualAxpyStep(c, k, d, x, len) by {
        ResidualAxpy(c[..|c| - 1], k, d[..|c| - 1], x, len);
      }
    }
  }

  lemma {:induction false} ResidualAxpyStep(c: seq<real>, k: real, d: seq<real>, x: seq<real>, len: nat)
    requires |c| == |d| > 0
    requires Residual(Axpy(c[..|c| - 1], k, d[..|c| - 1]), x, len)
             == Axpy(Residual(c[..|c| - 1], x, len), k, Residual(d[..|c| - 1], x, len))
    ensures Residual(Axpy(c, k, d), x, len) == Axpy(Residual(c, x, len), k, Residual(d, x, len))
  {
    hide Residual, Axpy, Delayed;
    var n := |c| - 1;
    var l, m := Residual(Axpy(c, k, d), x, len), Axpy(Residual(c, x, len), k, Residual(d, x, len));
    AxpyPrefix(c, k, d, n);
    AxpyAt(c, k, d, n);
    forall t | 0 <= t < len
      ensures l[t] == m[t]
    {
      ResidualAt(Axpy(c, k, d), x, len, t);
      ResidualAt(c, x, len, t);
      ResidualAt(d, x, len, t);
      AxpyAt(Residual(c[..n], x, len), k, Residual(d[..n], x, len), t);
      AxpyAt(Residual(c, x, len), k, Residual(d, x, len), t);
      var p, q, s := Residual(c[..n], x, len)[t], Residual(d[..n], x, len)[t], Delayed(x, n, len)[t];
      Regroup(p, q, k, c[n], d[n], s);
    }
  }

  lemma {:induction false} Regroup(p: real, q: real, k: real, c: real, d: real, s: real)
    ensures (p + k * q) + (c + k * d) * s == (p + c * s) + k * (q + d * s)
  {
  }

  /** The recursion returns the predictor with the least error energy: no predictor
      of the same order with unit lead does better on the signal. */
  lemma {:induction false} SolveIsBestPredictor(x: seq<real>, order: nat, c: seq<real>, len: nat)
    requires Regular(Lags(x, order), order)
    requires |c| == order + 1 && c[0] == 1.0 && |x| + order <= len
    ensures var best := Residual(Solve(Lags(x, order), order).c, x, len);
            var other := Residual(c, x, len);
            Solve(Lags(x, order), order).alpha == Dot(best, best) <= Dot(other, other)
  {
    hide Dot, Axpy, Residual, Corr;
    var r := Lags(x, order);
    var p := Solve(r, order);
    SolveIsNormal(r, order);
    NormalForm(p.c, r, p.alpha);
    FormIsErrorEnergy(p.c, x, order, len);
    // c = p.c + d, and the errors of p.c and of d are orthogonal
    var d := Difference(c, p.c);
    ResidualAxpy(p.c, 1.0, d, x, len);
    var best, rest := Residual(p.c, x, len), Residual(d, x, len);
    ErrorOrthogonal(x, order, d, len);
    Pythagoras(best, rest);
  }

  function Difference(a: seq<real>, b: seq<real>): (d: seq<real>)
    requires |a| == |b|
    ensures |d| == |a| && Axpy(b, 1.0, d) == a
  {
    var d := seq(|a|, i requires 0 <= i < |a| => a[i] - b[i]);
    assert forall i :: 0 <= i < |a| ==> Axpy(b, 1.0, d)[i] == b[i] + 1.0 * d[i];
    d
  }

  lemma {:induction false} Pythagoras(a: seq<real>, b: seq<real>)
    requires |a| == |b| && Dot(b, a) == 0.0
    ensures var s := Axpy(a, 1.0, b); Dot(s, s) == Dot(a, a) + Dot(b, b) && Dot(a, a) <= Dot(s, s)
  {
    var s := Axpy(a, 1.0, b);
    DotAxpy(a, 1.0, b, s);
    DotSym(a, s);
    DotSym(b, s);
    DotAxpy(a, 1.0, b, a);
    DotAxpy(a, 1.0, b, b);
    DotSym(a, b);
    DotSelfNonNegative(b);
  }

  /** The error of the solution is orthogonal to the error of every combination of
      the delayed signals. */
  lemma {:induction false} ErrorOrthogonal(x: seq<real>, order: nat, d: seq<real>, len: nat)
    requires Regular(Lags(x, order), order)
    requires |d| == order + 1 && d[0] == 0.0 && |x| + order <= len
    ensures Dot(Residual(d, x, len), Residual(Solve(Lags(x, order), order).c, x, len)) == 0.0
  {
    hide Dot, Residual, Delayed;
    var r := Lags(x, order);
    var p := Solve(r, order);
    SolveIsNormal(r, order);
    var best := Residual(p.c, x, len);
    ResidualDot(d, x, len, best);
    var w := DelayedDots(x, len, best, |d|);
    forall n | 1 <= n < |d|
      ensures w[n] == 0.0
    {
      CorrIsErrorCorrelation(p.c, x, order, n, len);
      DotSym(Delayed(x, n, len), best);
    }
    DotSplit(d, w, 1);
    DotZeroLeft(d[..1], w[..1]);
    DotZero(d[1..], w[1..]);
  }

  // ----- the program -----------------------------------------------------------

  /** The inner loop of the autocorrelation. */
  method SumOfProducts(x: array<real>, n: nat, lag: nat) returns (sum: real)
    requires n <= x.Length
    ensures sum == LagSum(x[..n], lag)
  {
    ghost var s := x[..n];
    ghost var u, v := if lag <= n then s[..n - lag] else [], if lag <= n then s[lag..] else [];
    sum := 0.0;
    var i := 0;
    while i < n - lag
      invariant 0 <= i <= |u|
      invariant sum == Dot(u[..i], v[..i])
    {
      DotStep(u, v, i);
      sum := sum + x[i] * x[i + lag];
      i := i + 1;
    }
    assert u[..i] == u && v[..i] == v;
  }

  /** Autocorrelation of the first n samples, for lags up to the order. */
  method Autocorr(r: array<real>, x: array<real>, n: nat, order: nat)
    requires order < r.Length && n <= x.Length && r != x
    modifies r
    ensures r[..order + 1] == Lags(x[..n], order)
    ensures forall i :: order < i < r.Length ==> r[i] == old(r[i])
  {
    ghost var s := x[..n];
    var lag := 0;
    while lag <= order
      invariant 0 <= lag <= order + 1
      invariant forall i :: 0 <= i < lag ==> r[i] == LagSum(s, i)
      invariant forall i :: order < i < r.Length ==> r[i] == old(r[i])
    {
      var sum := SumOfProducts(x, n, lag);
      r[lag] := sum;
      lag := lag + 1;
    }
  }

  /** The update of one order: coefficient i becomes a[i] + k * a[m + 1 - i], worked
      from both ends at once so that no copy is needed. */
  method TwoEndedUpdate(a: array<real>, m: nat, km: real)
    requires m < a.Length
    modifies a
    ensures forall i :: 1 <= i <= m ==> a[i] == old(a[i]) + km * old(a[m + 1 - i])
    ensures forall i :: 0 <= i < a.Length && !(1 <= i <= m) ==> a[i] == old(a[i])
  {
    var mh := (m + 1) / 2;
    var i := 0;
    while i < mh
      invariant 0 <= i <= mh
      invariant forall q :: 1 <= q <= m && (q <= i || q >= m + 1 - i) ==>
                  a[q] == old(a[q]) + km * old(a[m + 1 - q])
      invariant forall q :: 0 <= q < a.Length && (q < 1 || i < q < m + 1 - i || q > m) ==> a[q] == old(a[q])
    {
      var sum := a[i + 1] + km * a[m - i];
      a[m - i] := a[m - i] + km * a[i + 1];
      a[i + 1] := sum;
      i := i + 1;
    }
  }

  /** Levinson-Durbin: predictor coefficients and reflection coefficients from the
      lags, in place. A first lag below EPS gives the trivial predictor. */
  method Levdurb(a: array<real>, k: array<real>, r: array<real>, order: nat)
    requires 1 <= order < a.Length && order <= k.Length && order < r.Length
    requires a != k && a != r && k != r
    requires r[0] >= EPS ==> Regular(r[..order + 1], order)
    modifies a, k
    ensures r[0] < EPS ==> a[0] == 1.0 && forall i :: 1 <= i <= order ==> a[i] == 0.0
    ensures r[0] < EPS ==> forall i :: 0 <= i < order ==> k[i] == 0.0
    ensures r[0] >= EPS ==> a[..order + 1] == Solve(r[..order + 1], order).c
    ensures r[0] >= EPS ==> k[..order] == Solve(r[..order + 1], order).k
    ensures r[0] >= EPS ==>
              Normal(a[..order + 1], r[..order + 1], Solve(r[..order + 1], order).alpha)
    ensures forall i :: order < i < a.Length ==> a[i] == old(a[i])
    ensures forall i :: order <= i < k.Length ==> k[i] == old(k[i])
  {
    ghost var rs := r[..order + 1];
    a[0] := 1.0;
    if r[0] < EPS {
      var i := 0;
      while i < order
        invariant 0 <= i <= order
        invariant a[0] == 1.0 && forall q :: 1 <= q <= i ==> a[q] == 0.0
        invariant forall q :: 0 <= q < i ==> k[q] == 0.0
        invariant forall q :: order < q < a.Length ==> a[q] == old(a[q])
        invariant forall q :: order <= q < k.Length ==> k[q] == old(k[q])
      {
        k[i] := 0.0;
        a[i + 1] := 0.0;
        i := i + 1;
      }
    } else {
      ghost var p := Recursion(a, k, r, order, rs);
      SolveIsNormal(rs, order);
      assert a[..order + 1] == p.c && k[..order] == p.k;
    }
  }

  /** The loop over the orders. */
  method Recursion(a: array<real>, k: array<real>, r: array<real>, order: nat, ghost rs: seq<real>)
    returns (ghost p: Lpc)
    requires 1 <= order < a.Length && order <= k.Length && order < r.Length
    requires a != k && a != r && k != r
    requires rs == r[..order + 1] && a[0] == 1.0 && r[0] != 0.0
    requires Regular(rs, order)
    modifies a, k
    ensures p == Solve(rs, order)
    ensures forall i :: 0 <= i <= order ==> a[i] == p.c[i]
    ensures forall i :: 0 <= i < order ==> k[i] == p.k[i]
    ensures forall i :: order < i < a.Length ==> a[i] == old(a[i])
    ensures forall i :: order <= i < k.Length ==> k[i] == old(k[i])
  {
    hide Dot, Corr, Reflection, Raise, Solve;
    k[0] := -r[1] / r[0];
    a[1] := k[0];
    var alpha := r[0] + r[1] * k[0];
    FirstOrder(rs, k[0]);
    p := Solve(rs, 1);
    var m := 1;
    while m < order
      invariant 1 <= m <= order && p == Solve(rs, m) && alpha == p.alpha
      invariant p.c[0] == 1.0
      invariant forall i :: 0 <= i <= m ==> a[i] == p.c[i]
      invariant forall i :: 0 <= i < m ==> k[i] == p.k[i]
      invariant forall i :: order < i < a.Length ==> a[i] == old(a[i])
      invariant forall i :: order <= i < k.Length ==> k[i] == old(k[i])
    {
      SolveStep(rs, m);
      alpha, p := NextOrder(a, k, r, m, alpha, rs, order, p);
      m := m + 1;
    }
  }

  /** One order more, in place. */
  method NextOrder(a: array<real>, k: array<real>, r: array<real>, m: nat, alpha: real,
                   ghost rs: seq<real>, ghost order: nat, ghost p: Lpc)
    returns (alpha': real, ghost q: Lpc)
    requires 1 <= m < order < a.Length && order <= k.Length && order < r.Length
    requires a != k && a != r && k != r
    requires rs == r[..order + 1] && Regular(rs, order)
    requires p == Solve(rs, m) && alpha == p.alpha && p.c[0] == 1.0
    requires forall i :: 0 <= i <= m ==> a[i] == p.c[i]
    requires forall i :: 0 <= i < m ==> k[i] == p.k[i]
    modifies a, k
    ensures q == Raise(p, rs) == Solve(rs, m + 1) && alpha' == q.alpha && q.c[0] == 1.0
    ensures forall i :: 0 <= i <= m + 1 ==> a[i] == q.c[i]
    ensures forall i :: 0 <= i < m + 1 ==> k[i] == q.k[i]
    ensures forall i :: m + 1 < i < a.Length ==> a[i] == old(a[i])
    ensures forall i :: m + 1 <= i < k.Length ==> k[i] == old(k[i])
  {
    hide Dot, Corr, Reflection, Raise, Solve;
    var sum := PredictionSum(a, r, m, rs, p.c);
    k[m] := -sum / alpha;
    alpha' := alpha + k[m] * sum;
    TwoEndedUpdate(a, m, k[m]);
    a[m + 1] := k[m];
    Raised(p, rs, a[..m + 2], k[m], alpha');
    SolveStep(rs, m);
    q := Raise(p, rs);
  }

  lemma {:induction false} SolveStep(r: seq<real>, m: nat)
    requires m + 1 < |r|
    ensures Solve(r, m + 1) == Raise(Solve(r, m), r)
  {
  }

  lemma {:induction false} FirstOrder(r: seq<real>, k: real)
    requires |r| > 1 && r[0] != 0.0 && k == -r[1] / r[0]
    ensures Solve(r, 1) == Lpc([1.0, k], [k], r[0] + r[1] * k)
  {
    hide Dot;
    var p := Solve(r, 0);
    assert Row(r, 1, 1) == [r[1]];
    DotSingle(1.0, r[1]);
    assert Corr(p.c, r, 1) == r[1];
    assert Reflection(p, r) == k;
    var e := [1.0, 0.0];
    assert p.c + [0.0] == e;
    assert Axpy(e, k, Reversed(e)) == [1.0 + k * 0.0, 0.0 + k * 1.0];
  }

  lemma {:induction false} DotSingle(x: real, y: real)
    ensures Dot([x], [y]) == x * y
  {
    assert [x][..0] == [] && [y][..0] == [];
  }

  /** The sum that the next reflection coefficient is made of. */
  method PredictionSum(a: array<real>, r: array<real>, m: nat, ghost rs: seq<real>, ghost c: seq<real>)
    returns (sum: real)
    requires m < a.Length && m + 1 < r.Length && m + 1 < |rs| <= r.Length && rs == r[..|rs|]
    requires |c| == m + 1 && c[0] == 1.0
    requires forall i :: 0 <= i <= m ==> a[i] == c[i]
    ensures sum == Corr(c, rs, m + 1)
  {
    ghost var row := Row(rs, m + 1, m + 1);
    sum := r[m + 1];
    DotStep(c, row, 0);
    var i := 0;
    while i < m
      invariant 0 <= i <= m
      invariant sum == Dot(c[..i + 1], row[..i + 1])
    {
      DotStep(c, row, i + 1);
      sum := sum + a[i + 1] * r[m - i];
      i := i + 1;
    }
    assert c[..m + 1] == c && row[..m + 1] == row;
  }

  /** What one pass of the loop leaves in the arrays is the raised predictor. */
  lemma {:induction false} Raised(p: Lpc, r: seq<real>, c: seq<real>, k: real, alpha: real)
    requires 0 < |p.c| < |r| && p.c[0] == 1.0 && p.alpha != 0.0
    requires k == -Corr(p.c, r, |p.c|) / p.alpha
    requires alpha == p.alpha + k * Corr(p.c, r, |p.c|)
    requires |c| == |p.c| + 1 && c[0] == 1.0 && c[|p.c|] == k
    requires forall i :: 1 <= i < |p.c| ==> c[i] == p.c[i] + k * p.c[|p.c| - i]
    ensures Raise(p, r) == Lpc(c, p.k + [k], alpha)
  {
    hide Corr, Axpy;
    assert Reflection(p, r) == k;
    RaisedAxpy(p.c, c, k);
  }

  lemma {:induction false} RaisedAxpy(b: seq<real>, c: seq<real>, k: real)
    requires 0 < |b| && b[0] == 1.0
    requires |c| == |b| + 1 && c[0] == 1.0 && c[|b|] == k
    requires forall i :: 1 <= i < |b| ==> c[i] == b[i] + k * b[|b| - i]
    ensures var e := b + [0.0]; Axpy(e, k, Reversed(e)) == c
  {
    hide Axpy;
    var e := b + [0.0];
    var f := Reversed(e);
    assert f[0] == 0.0 && f[|b|] == 1.0;
    assert k * 0.0 == 0.0 && k * 1.0 == k;
    forall i | 0 <= i < |c|
      ensures c[i] == Axpy(e, k, f)[i]
    {
      AxpyAt(e, k, f, i);
      if 1 <= i < |b| {
        assert f[i] == b[|b| - i] && e[i] == b[i];
      }
    }
  }
}
