/**
 What the filters of the codec are, told by what they make of an impulse: the all-zero
 filter by its response, its linearity and its memory, the codebook's expansion filter by
 its response, and the interpolated vectors by their period and the ends of their fade.
 */
module FilterResponses {
  import opened CodecConstants
  import opened Vectors
  import opened LpcFilters
  import opened Codebook

  function Silence(n: nat): (z: seq<real>)
    ensures |z| == n && forall i :: 0 <= i < n ==> z[i] == 0.0
  {
    seq(n, i => 0.0)
  }

  /** A single one at position p. */
  function Impulse(n: nat, p: nat): (x: seq<real>)
    ensures |x| == n && forall i :: 0 <= i < n ==> x[i] == if i == p then 1.0 else 0.0
  {
    seq(n, i => if i == p then 1.0 else 0.0)
  }

  /** An impulse comes out as the coefficients, from where it stood on. */
  lemma {:induction false} FirOfImpulse(c: seq<real>, n: nat, p: nat, i: nat)
    requires |c| > 0 && p < n && i < n
    ensures Fir(c, Silence(|c| - 1), Impulse(n, p))[i] == if p <= i < p + |c| then c[i - p] else 0.0
  {
    var s := Silence(|c| - 1) + Impulse(n, p);
    var w := Past(s, |c| - 1 + i, |c|);
    forall k | 0 <= k < |c| ensures w[k] == if i - k == p then 1.0 else 0.0 {
      var q := |c| - 1 + i - k;
      assert w[k] == s[q];
      if q >= |c| - 1 {
        assert s[q] == Impulse(n, p)[i - k];
      }
    }
    if p <= i < p + |c| {
      DotUnit(c, w, i - p);
    } else {
      DotZero(c, w);
    }
  }

  /** The filter is linear in its memory and its input together. */
  lemma {:induction false} FirIsLinear(c: seq<real>, s: seq<real>, s': seq<real>, x: seq<real>, x': seq<real>, g: real)
    requires |c| == |s| + 1 && |s| == |s'| && |x| == |x'|
    ensures Fir(c, Axpy(s, g, s'), Axpy(x, g, x')) == Axpy(Fir(c, s, x), g, Fir(c, s', x'))
  {
    hide Dot;
    forall i | 0 <= i < |x|
      ensures Fir(c, Axpy(s, g, s'), Axpy(x, g, x'))[i] == Axpy(Fir(c, s, x), g, Fir(c, s', x'))[i]
    {
      var p := |s| + i;
      var w, w' := Past(s + x, p, |c|), Past(s' + x', p, |c|);
      var both := Past(Axpy(s, g, s') + Axpy(x, g, x'), p, |c|);
      forall k | 0 <= k < |c| ensures both[k] == Axpy(w, g, w')[k] {
        assert w[k] == (s + x)[p - k] && w'[k] == (s' + x')[p - k];
      }
      assert both == Axpy(w, g, w');
      DotSym(c, both);
      DotAxpy(w, g, w', c);
      DotSym(w, c);
      DotSym(w', c);
    }
  }

  /** The memory is the input that came before. */
  lemma {:induction false} FirMemoryIsPast(c: seq<real>, s: seq<real>, x: seq<real>)
    requires |c| == |s| + 1
    ensures Fir(c, s, x) == Fir(c, Silence(|s|), s + x)[|s|..]
  {
    var y := Fir(c, Silence(|s|), s + x);
    forall i | 0 <= i < |x| ensures Fir(c, s, x)[i] == y[|s| + i] {
      var a, b := Past(s + x, |s| + i, |c|), Past(Silence(|s|) + (s + x), |s| + (|s| + i), |c|);
      forall k | 0 <= k < |c| ensures a[k] == b[k] {
        assert (Silence(|s|) + (s + x))[2 * |s| + i - k] == (s + x)[|s| + i - k];
      }
      assert a == b;
    }
  }

  /** The expansion filter answers an impulse with its eight taps, from four samples before
      the impulse to three after it. */
  lemma {:induction false} FilteredImpulse(n: nat, p: nat, k: nat)
    requires p < n && k < n
    ensures Filtered(Impulse(n, p))[k] == if 0 <= k - p + 4 < 8 then CB_FILTERS[k - p + 4] else 0.0
  {
    var w := FilterWindow(Impulse(n, p), k);
    forall j | 0 <= j < 8 ensures w[j] == if k + j - 3 == p then 1.0 else 0.0 {
      assert w[j] == Padded(Impulse(n, p), k + j - 3);
    }
    if 0 <= k - p + 4 < 8 {
      DotUnit(FilterTaps(), w, p - k + 3);
    } else {
      DotZeroLeft(w, FilterTaps());
    }
  }

  /** The fade starts at the old sample and would reach the new one with the sixth step,
      always by the same part. */
  lemma {:induction false} FadeEnds(a: real, b: real, t: int)
    ensures Blend(0, a, b) == a && Blend(5, a, b) == b
    ensures Blend(t + 1, a, b) - Blend(t, a, b) == (b - a) / 5.0
    ensures Blend(t, a, a) == a
  {
    var r := t as real;
    assert (t + 1) as real == r + 1.0;
    assert Blend(t + 1, a, b) == (1.0 - 0.2 * r - 0.2) * a + (0.2 * r + 0.2) * b;
    assert (1.0 - 0.2 * r) * a + 0.2 * r * a == a;
  }

  /** The interpolated vector of lag i repeats itself with period i: exactly from the seam
      on wherever the fade does not reach, and everywhere if the memory itself has that
      period at its end. */
  lemma {:induction false} InterpolatedRepeats(m: seq<real>, i: nat, j: nat)
    requires 20 <= i < 40 && 2 * i <= |m| && i <= j < 40
    ensures var v := Interpolated(m, i);
            && (j - i < i - 5 ==> v[j] == v[j - i])
            && ((forall q :: |m| - i <= q < |m| ==> m[q] == m[q - i]) ==> v[j] == v[j - i])
  {
    var v := Interpolated(m, i);
    var q := |m| - 2 * i + j;
    assert v[j] == m[q];
    if j - i >= i - 5 {
      var t := j - i - (i - 5);
      assert v[j - i] == Blend(t, m[|m| - i + (j - i)], m[|m| - 2 * i + (j - i)]);
      if m[q] == m[q - i] {
        FadeEnds(m[q], m[q], t);
      }
    }
  }
}
