/**
 Inner products of real vectors, shared by the signal-processing modules.
 Samples are exact reals; rounding is not modelled.
 */
module Vectors {

  /** Sum of the products of corresponding elements. */
  function Dot(a: seq<real>, b: seq<real>): real
    requires |a| == |b|
  {
    if |a| == 0 then 0.0
    else Dot(a[..|a| - 1], b[..|b| - 1]) + a[|a| - 1] * b[|b| - 1]
  }

  /** Extending both prefixes by one position adds one product. */
  lemma {:induction false} DotStep(a: seq<real>, b: seq<real>, n: nat)
    requires n < |a| && n < |b|
    ensures Dot(a[..n + 1], b[..n + 1]) == Dot(a[..n], b[..n]) + a[n] * b[n]
  {
    assert a[..n + 1][..n] == a[..n];
    assert b[..n + 1][..n] == b[..n];
  }

  lemma {:induction false} DotSplit(a: seq<real>, b: seq<real>, n: nat)
    requires |a| == |b| && n <= |a|
    ensures Dot(a, b) == Dot(a[..n], b[..n]) + Dot(a[n..], b[n..])
  {
    if n == |a| {
      assert a[..n] == a && b[..n] == b;
    } else {
      var m := |a| - 1;
      DotSplit(a[..m], b[..m], n);
      assert a[..m][..n] == a[..n] && b[..m][..n] == b[..n];
      assert a[..m][n..] == a[n..][..m - n] && b[..m][n..] == b[n..][..m - n];
    }
  }

  /** A vector of zeros. */
  lemma {:induction false} DotZero(a: seq<real>, b: seq<real>)
    requires |a| == |b|
    requires forall i :: 0 <= i < |b| ==> b[i] == 0.0
    ensures Dot(a, b) == 0.0
  {
    if a != [] {
      var m := |a| - 1;
      DotZero(a[..m], b[..m]);
    }
  }

  /** A vector with a single one picks an element. */
  lemma {:induction false} DotUnit(a: seq<real>, b: seq<real>, i: nat)
    requires |a| == |b| && i < |b| && b[i] == 1.0
    requires forall j :: 0 <= j < |b| && j != i ==> b[j] == 0.0
    ensures Dot(a, b) == a[i] && Dot(b, a) == a[i]
  {
    var m := |a| - 1;
    if i == m {
      DotZero(a[..m], b[..m]);
    } else {
      DotUnit(a[..m], b[..m], i);
    }
    DotSym(a, b);
  }

  /** a + k * b, element by element. */
  function Axpy(a: seq<real>, k: real, b: seq<real>): (c: seq<real>)
    requires |a| == |b|
    ensures |c| == |a|
  {
    seq(|a|, i requires 0 <= i < |a| => a[i] + k * b[i])
  }

  function Reversed(a: seq<real>): (b: seq<real>)
    ensures |b| == |a|
  {
    seq(|a|, i requires 0 <= i < |a| => a[|a| - 1 - i])
  }

  lemma {:induction false} DotSym(a: seq<real>, b: seq<real>)
    requires |a| == |b|
    ensures Dot(a, b) == Dot(b, a)
  {
    if a != [] {
      DotSym(a[..|a| - 1], b[..|b| - 1]);
    }
  }

  lemma {:induction false} AxpyPrefix(a: seq<real>, k: real, b: seq<real>, n: nat)
    requires |a| == |b| && n <= |a|
    ensures Axpy(a, k, b)[..n] == Axpy(a[..n], k, b[..n])
  {
    forall i | 0 <= i < n
      ensures Axpy(a, k, b)[..n][i] == Axpy(a[..n], k, b[..n])[i]
    {
      assert a[..n][i] == a[i] && b[..n][i] == b[i];
    }
  }

  lemma {:induction false} DotAxpy(a: seq<real>, k: real, b: seq<real>, v: seq<real>)
    requires |a| == |b| == |v|
    ensures Dot(Axpy(a, k, b), v) == Dot(a, v) + k * Dot(b, v)
  {
    if a != [] {
      var n := |a| - 1;
      DotAxpy(a[..n], k, b[..n], v[..n]);
      AxpyPrefix(a, k, b, n);
      Distribute(a[n], k, b[n], v[n]);
      Distribute(Dot(a[..n], v[..n]), k, Dot(b[..n], v[..n]), 1.0);
    }
  }

  lemma {:induction false} DotReversed(a: seq<real>, b: seq<real>)
    requires |a| == |b|
    ensures Dot(Reversed(a), Reversed(b)) == Dot(a, b)
  {
    if a != [] {
      var n := |a| - 1;
      DotReversed(a[..n], b[..n]);
      var p, q := Reversed(a), Reversed(b);
      DotSplit(p, q, 1);
      DotStep(p, q, 0);
      assert p[1..] == Reversed(a[..n]) && q[1..] == Reversed(b[..n]);
    }
  }

  function Abs(x: real): (a: real)
    ensures a >= 0.0 && (a == x || a == -x)
  {
    if x < 0.0 then -x else x
  }

  function Times(x: real, y: real): real { x * y }

  lemma {:induction false} TimesIs(x: real, y: real)
    ensures Times(x, y) == x * y
  {
  }

  lemma {:induction false} TimesSigns(x: real, y: real)
    ensures x > 0.0 && y > 0.0 ==> Times(x, y) > 0.0
    ensures x < 0.0 && y < 0.0 ==> Times(x, y) > 0.0
    ensures x == 0.0 ==> Times(x, y) == 0.0
  {
    if x > 0.0 && y > 0.0 {
      assert x * y > 0.0;
    } else if x < 0.0 && y < 0.0 {
      assert x * y > 0.0;
    }
  }

  lemma {:induction false} SquareSign(x: real)
    ensures Times(x, x) >= 0.0
    ensures x != 0.0 ==> Times(x, x) > 0.0
  {
    hide Times;
    TimesSigns(x, x);
  }

  lemma {:induction false} DotLast(a: seq<real>, b: seq<real>)
    requires |a| == |b| > 0
    ensures Dot(a, b) == Dot(a[..|a| - 1], b[..|b| - 1]) + Times(a[|a| - 1], b[|b| - 1])
  {
  }

  lemma {:induction false} DotSelfNonNegative(a: seq<real>)
    ensures Dot(a, a) >= 0.0
  {
    if a != [] {
      hide Dot, Times;
      DotSelfNonNegative(a[..|a| - 1]);
      DotLast(a, a);
      SquareSign(a[|a| - 1]);
    }
  }

  /** A nonzero element makes the energy positive. */
  lemma {:induction false} DotSelfPositive(a: seq<real>, i: nat)
    requires i < |a| && a[i] != 0.0
    ensures Dot(a, a) > 0.0
  {
    hide Dot, Times;
    var n := |a| - 1;
    DotLast(a, a);
    SquareSign(a[n]);
    if i == n {
      DotSelfNonNegative(a[..n]);
    } else {
      DotSelfPositive(a[..n], i);
    }
  }

  lemma {:induction false} DotZeroLeft(a: seq<real>, b: seq<real>)
    requires |a| == |b|
    requires forall i :: 0 <= i < |a| ==> a[i] == 0.0
    ensures Dot(a, b) == 0.0
  {
    DotSym(a, b);
    DotZero(b, a);
  }

  /** Multiplication distributes; kept apart from the inductions that use it. */
  lemma {:induction false} Distribute(x: real, k: real, y: real, z: real)
    ensures (x + k * y) * z == x * z + k * (y * z)
  {
  }
}
