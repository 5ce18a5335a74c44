/**
 The linear-prediction filters of the iLBC codec: the analysis filter of the
 encoder, the synthesis filter of the decoder, and the general all-zero,
 all-pole and pole-zero filters. Buffers are arrays with a start offset, as the
 pointers in the program are.
 */
module LpcFilters {
  import opened CodecConstants
  import opened Vectors

  // ----- specification ---------------------------------------------------

  /** The n samples ending at position p, newest first. */
  function Past(s: seq<real>, p: int, n: nat): (w: seq<real>)
    requires n - 1 <= p < |s|
    ensures |w| == n
  {
    seq(n, k requires 0 <= k < n => s[p - k])
  }

  /** The convolution of `x`, preceded by `state`, with the coefficients. */
  function Fir(c: seq<real>, state: seq<real>, x: seq<real>): (y: seq<real>)
    requires |c| == |state| + 1
    ensures |y| == |x|
  {
    seq(|x|, i requires 0 <= i < |x| => Dot(c, Past(state + x, |state| + i, |c|)))
  }

  /** The outputs that the taps of the recursive filter meet, newest first. */
  function Window(state: seq<real>, o: seq<real>): (w: seq<real>)
    ensures |w| == |state|
  {
    Past(state + o, |state| + |o| - 1, |state|)
  }

  /** What the recursive filter makes of the next input, after the outputs `o`. */
  function NextOutput(c: seq<real>, state: seq<real>, o: seq<real>, input: real): real
    requires |c| == |state| + 1
  {
    input - Dot(c[1..], Window(state, o))
  }

  /** The recursive filter: each output subtracts a combination of the outputs
      before it. The leading coefficient is not read. */
  function Iir(c: seq<real>, state: seq<real>, y: seq<real>): (o: seq<real>)
    requires |c| == |state| + 1
    ensures |o| == |y|
  {
    if y == [] then []
    else
      var n := |y| - 1;
      var o := Iir(c, state, y[..n]);
      o + [NextOutput(c, state, o, y[n])]
  }

  /** The filter memory that the next block sees. */
  function NextState(state: seq<real>, x: seq<real>): (st: seq<real>)
    ensures |st| == |state|
  {
    (state + x)[|x|..]
  }

  function StateAfter(state: seq<real>, xs: seq<seq<real>>): (st: seq<real>)
    ensures |st| == |state|
  {
    if xs == [] then state
    else NextState(StateAfter(state, xs[..|xs| - 1]), xs[|xs| - 1])
  }

  /** Blocks filtered one after the other, each with its own coefficients. */
  function FirRun(cs: seq<seq<real>>, state: seq<real>, xs: seq<seq<real>>): (ys: seq<seq<real>>)
    requires |cs| == |xs|
    requires forall i :: 0 <= i < |cs| ==> |cs[i]| == |state| + 1
    ensures |ys| == |xs|
  {
    if xs == [] then []
    else
      var n := |xs| - 1;
      FirRun(cs[..n], state, xs[..n]) + [Fir(cs[n], StateAfter(state, xs[..n]), xs[n])]
  }

  function IirRun(cs: seq<seq<real>>, state: seq<real>, ys: seq<seq<real>>): (os: seq<seq<real>>)
    requires |cs| == |ys|
    requires forall i :: 0 <= i < |cs| ==> |cs[i]| == |state| + 1
    ensures |os| == |ys|
  {
    if ys == [] then []
    else
      var n := |ys| - 1;
      var os := IirRun(cs[..n], state, ys[..n]);
      os + [Iir(cs[n], StateAfter(state, os), ys[n])]
  }

  /** The sub-frames of a signal: windows of SUBL = 40 samples. */
  function SubFrames(s: seq<real>, nsub: nat): (bs: seq<seq<real>>)
    requires 40 * nsub <= |s|
    ensures |bs| == nsub
  {
    seq(nsub, i requires 0 <= i < nsub => s[40 * i..40 * i + 40])
  }

  /** The coefficient vectors of the sub-frames, LPC_FILTERORDER + 1 = 11 each. */
  function Coefficients(synt: seq<real>, nsub: nat): (cs: seq<seq<real>>)
    requires 11 * nsub <= |synt|
    ensures |cs| == nsub
    ensures forall i :: 0 <= i < nsub ==> |cs[i]| == LPC_FILTERORDER + 1
  {
    seq(nsub, i requires 0 <= i < nsub => synt[11 * i..11 * i + 11])
  }

  // ----- properties ------------------------------------------------------

  /** The convolution splits into the newest sample and the taps on the past. */
  lemma {:induction false} FirLast(c: seq<real>, state: seq<real>, x: seq<real>)
    requires |c| == |state| + 1 && |x| > 0
    ensures var n := |x| - 1;
            && Fir(c, state, x)[..n] == Fir(c, state, x[..n])
            && Fir(c, state, x)[n]
               == c[0] * x[n] + Dot(c[1..], Window(state, x[..n]))
  {
    var n := |x| - 1;
    forall i | 0 <= i < n
      ensures Fir(c, state, x)[i] == Fir(c, state, x[..n])[i]
    {
      assert Past(state + x, |state| + i, |c|) == Past(state + x[..n], |state| + i, |c|);
    }
    var w := Past(state + x, |state| + n, |c|);
    DotSplit(c, w, 1);
    DotStep(c, w, 0);
    assert w[1..] == Window(state, x[..n]);
  }

  /** Analysis followed by synthesis gives the block back. */
  lemma {:induction false} IirUndoesFir(c: seq<real>, state: seq<real>, x: seq<real>)
    requires |c| == |state| + 1 && c[0] == 1.0
    ensures Iir(c, state, Fir(c, state, x)) == x
  {
    if x != [] {
      var n := |x| - 1;
      IirUndoesFir(c, state, x[..n]);
      FirLast(c, state, x);
    }
  }

  /** Synthesis followed by analysis gives the residual back. */
  lemma {:induction false} FirUndoesIir(c: seq<real>, state: seq<real>, y: seq<real>)
    requires |c| == |state| + 1 && c[0] == 1.0
    ensures Fir(c, state, Iir(c, state, y)) == y
  {
    if y != [] {
      var n := |y| - 1;
      FirUndoesIir(c, state, y[..n]);
      var o := Iir(c, state, y);
      FirLast(c, state, o);
      assert o[..n] == Iir(c, state, y[..n]);
    }
  }

  /** A leading coefficient of one is exactly what the inversion needs. */
  lemma {:induction false} InversionNeedsUnitLead(c: seq<real>)
    requires |c| > 0
    ensures c[0] == 1.0
            <==> forall state: seq<real>, x: seq<real> | |c| == |state| + 1 ::
              Iir(c, state, Fir(c, state, x)) == x
  {
    if c[0] == 1.0 {
      forall state: seq<real>, x: seq<real> | |c| == |state| + 1
        ensures Iir(c, state, Fir(c, state, x)) == x
      {
        IirUndoesFir(c, state, x);
      }
    } else {
      var state := seq(|c| - 1, _ => 0.0);
      var x := [1.0];
      FirLast(c, state, x);
      var y := Fir(c, state, x);
      assert y[..0] == [];
      assert x[..0] == [];
      DotZero(c[1..], Window(state, []));
      assert Iir(c, state, y)[0] == c[0];
      assert Iir(c, state, Fir(c, state, x)) != x;
    }
  }

  /** Over any run of blocks, with coefficients that change from block to block,
      the synthesis filter returns every block and ends in the same memory. */
  lemma {:induction false} RunRoundTrip(cs: seq<seq<real>>, state: seq<real>, xs: seq<seq<real>>)
    requires |cs| == |xs|
    requires forall i :: 0 <= i < |cs| ==> |cs[i]| == |state| + 1 && cs[i][0] == 1.0
    ensures IirRun(cs, state, FirRun(cs, state, xs)) == xs
  {
    hide Fir, Iir, StateAfter;
    if xs != [] {
      var n := |xs| - 1;
      RunRoundTrip(cs[..n], state, xs[..n]);
      assert FirRun(cs, state, xs)[..n] == FirRun(cs[..n], state, xs[..n]);
      IirUndoesFir(cs[n], StateAfter(state, xs[..n]), xs[n]);
    }
  }

  /** Blocks at least as long as the memory leave their own tail in it. */
  lemma {:induction false} NextStateIsTail(state: seq<real>, x: seq<real>)
    requires |state| <= |x|
    ensures NextState(state, x) == x[|x| - |state|..]
  {
  }

  lemma {:induction false} IirStep(c: seq<real>, state: seq<real>, y: seq<real>, n: nat, o: seq<real>, v: real)
    requires |c| == |state| + 1 && n < |y|
    requires o == Iir(c, state, y[..n])
    requires v == NextOutput(c, state, o, y[n])
    ensures o + [v] == Iir(c, state, y[..n + 1])
  {
    var z := y[..n + 1];
    assert z[..n] == y[..n] && z[n] == y[n] && |z| - 1 == n;
  }

  /** One more sub-frame of the encoder's loop. */
  lemma {:induction false} FirRunStep(cs: seq<seq<real>>, st: seq<real>, xs: seq<seq<real>>, n: nat)
    requires n < |cs| && n < |xs|
    requires forall i :: 0 <= i < |cs| ==> |cs[i]| == |st| + 1
    ensures FirRun(cs[..n + 1], st, xs[..n + 1])
            == FirRun(cs[..n], st, xs[..n]) + [Fir(cs[n], StateAfter(st, xs[..n]), xs[n])]
  {
    hide Fir, NextState, StateAfter;
    var cz, xz := cs[..n + 1], xs[..n + 1];
    assert cz[..n] == cs[..n] && xz[..n] == xs[..n] && |xz| - 1 == n;
  }

  lemma {:induction false} StateAfterStep(st: seq<real>, os: seq<seq<real>>, o: seq<real>)
    ensures StateAfter(st, os + [o]) == NextState(StateAfter(st, os), o)
  {
    assert (os + [o])[..|os|] == os;
  }

  /** One more sub-frame of the decoder's loop. */
  lemma {:induction false} IirRunStep(cs: seq<seq<real>>, st: seq<real>, ys: seq<seq<real>>, n: nat,
                                      os: seq<seq<real>>, o: seq<real>)
    requires n < |cs| && n < |ys|
    requires forall i :: 0 <= i < |cs| ==> |cs[i]| == |st| + 1
    requires os == IirRun(cs[..n], st, ys[..n])
    requires o == Iir(cs[n], StateAfter(st, os), ys[n])
    ensures IirRun(cs[..n + 1], st, ys[..n + 1]) == os + [o]
  {
    hide Fir, Iir, NextState, StateAfter;
    var cz, yz := cs[..n + 1], ys[..n + 1];
    assert cz[..n] == cs[..n] && yz[..n] == ys[..n] && |yz| - 1 == n;
  }

  lemma {:induction false} RunStart(cs: seq<seq<real>>, st: seq<real>, xs: seq<seq<real>>)
    ensures FirRun(cs[..0], st, xs[..0]) == [] == IirRun(cs[..0], st, xs[..0])
    ensures StateAfter(st, xs[..0]) == st == StateAfter(st, [])
  {
  }

  lemma {:induction false} FrameParts(s: seq<real>, synt: seq<real>, nsub: nat, n: nat)
    requires n < nsub && 40 * nsub <= |s| && 11 * nsub <= |synt|
    ensures SubFrames(s, nsub)[n] == s[40 * n..40 * n + 40]
    ensures Coefficients(synt, nsub)[n] == synt[11 * n..11 * n + 11]
  {
  }

  /** Writing sub-frame n leaves the earlier ones alone. */
  lemma {:induction false} SubFramesKept(before: seq<real>, after: seq<real>, n: nat, fs: seq<seq<real>>)
    requires |fs| == n && 40 * n <= |before| == |after|
    requires forall i :: 0 <= i < n ==> before[40 * i..40 * i + 40] == fs[i]
    requires forall q :: 0 <= q < 40 * n ==> after[q] == before[q]
    ensures forall i :: 0 <= i < n ==> after[40 * i..40 * i + 40] == fs[i]
  {
    forall i | 0 <= i < n
      ensures after[40 * i..40 * i + 40] == fs[i]
    {
      assert after[40 * i..40 * i + 40] == before[40 * i..40 * i + 40];
    }
  }

  lemma {:induction false} SubFramesAre(s: seq<real>, fs: seq<seq<real>>)
    requires 40 * |fs| <= |s|
    requires forall i :: 0 <= i < |fs| ==> s[40 * i..40 * i + 40] == fs[i]
    ensures SubFrames(s, |fs|) == fs
  {
  }

  // ----- the filters -----------------------------------------------------

  /** One output of the analysis filter whose window still reaches into the memory:
      the inner loops of the first part. `w` names the window. */
  method AnaSampleWithMemory(input: array<real>, inPos: nat, a: array<real>, aPos: nat, i: nat,
                             output: array<real>, po: nat, mem: array<real>, ghost c: seq<real>, ghost w: seq<real>)
    requires i < LPC_FILTERORDER && inPos + i < input.Length && po < output.Length
    requires aPos + LPC_FILTERORDER < a.Length && mem.Length == LPC_FILTERORDER
    requires output != input && output != a && output != mem
    requires |c| == |w| == LPC_FILTERORDER + 1
    requires forall k :: 0 <= k <= LPC_FILTERORDER ==> c[k] == a[aPos + k]
    requires forall k :: 0 <= k <= LPC_FILTERORDER ==>
               w[k] == if k <= i then input[inPos + i - k] else mem[LPC_FILTERORDER + i - k]
    modifies output
    ensures output[po] == Dot(c, w)
    ensures forall q :: 0 <= q < output.Length && q != po ==> output[q] == old(output[q])
  {
    output[po] := 0.0;
    var j := 0;
    while j <= i
      invariant 0 <= j <= i + 1
      invariant output[po] == Dot(c[..j], w[..j])
      invariant forall q :: 0 <= q < output.Length && q != po ==> output[q] == old(output[q])
    {
      DotStep(c, w, j);
      output[po] := output[po] + a[aPos + j] * input[inPos + i - j];
      j := j + 1;
    }
    AnaMemoryTaps(a, aPos, i, output, po, mem, c, w);
    assert c[..LPC_FILTERORDER + 1] == c && w[..LPC_FILTERORDER + 1] == w;
  }

  /** The taps that still reach into the memory, added to one sample. */
  method AnaMemoryTaps(a: array<real>, aPos: nat, i: nat, output: array<real>, po: nat, mem: array<real>,
                       ghost c: seq<real>, ghost w: seq<real>)
    requires i < LPC_FILTERORDER && po < output.Length
    requires aPos + LPC_FILTERORDER < a.Length && mem.Length == LPC_FILTERORDER
    requires output != a && output != mem
    requires |c| == |w| == LPC_FILTERORDER + 1
    requires forall k :: 0 <= k <= LPC_FILTERORDER ==> c[k] == a[aPos + k]
    requires forall k :: i < k <= LPC_FILTERORDER ==> w[k] == mem[LPC_FILTERORDER + i - k]
    requires output[po] == Dot(c[..i + 1], w[..i + 1])
    modifies output
    ensures output[po] == Dot(c[..LPC_FILTERORDER + 1], w[..LPC_FILTERORDER + 1])
    ensures forall q :: 0 <= q < output.Length && q != po ==> output[q] == old(output[q])
  {
    var j := i + 1;
    while j < LPC_FILTERORDER + 1
      invariant i + 1 <= j <= LPC_FILTERORDER + 1
      invariant output[po] == Dot(c[..j], w[..j])
      invariant forall q :: 0 <= q < output.Length && q != po ==> output[q] == old(output[q])
    {
      DotStep(c, w, j);
      output[po] := output[po] + a[aPos + j] * mem[LPC_FILTERORDER + i - j];
      j := j + 1;
    }
  }

  /** One output of the analysis filter whose window lies in the input. */
  method AnaSample(input: array<real>, pi: nat, coef: array<real>, cPos: nat, order: nat,
                   output: array<real>, po: nat, ghost c: seq<real>, ghost w: seq<real>)
    requires order <= pi < input.Length && po < output.Length
    requires cPos + order < coef.Length
    requires output != input && output != coef
    requires |c| == |w| == order + 1
    requires forall k :: 0 <= k <= order ==> c[k] == coef[cPos + k] && w[k] == input[pi - k]
    modifies output
    ensures output[po] == Dot(c, w)
    ensures forall q :: 0 <= q < output.Length && q != po ==> output[q] == old(output[q])
  {
    output[po] := 0.0;
    var j := 0;
    while j < order + 1
      invariant 0 <= j <= order + 1
      invariant output[po] == Dot(c[..j], w[..j])
      invariant forall q :: 0 <= q < output.Length && q != po ==> output[q] == old(output[q])
    {
      DotStep(c, w, j);
      output[po] := output[po] + coef[cPos + j] * input[pi - j];
      j := j + 1;
    }
    assert c[..j] == c && w[..j] == w;
  }

  /** LP analysis filter: the residual of `len` samples and the new memory. */
  method AnaFilter(input: array<real>, inPos: nat, a: array<real>, aPos: nat, len: nat,
                   output: array<real>, outPos: nat, mem: array<real>)
    requires LPC_FILTERORDER <= len
    requires inPos + len <= input.Length && outPos + len <= output.Length
    requires aPos + LPC_FILTERORDER < a.Length && mem.Length == LPC_FILTERORDER
    requires output != input && output != a && output != mem
    requires mem != input && mem != a
    modifies output, mem
    ensures output[outPos..outPos + len]
            == Fir(a[aPos..aPos + LPC_FILTERORDER + 1], old(mem[..]), input[inPos..inPos + len])
    ensures mem[..] == NextState(old(mem[..]), input[inPos..inPos + len])
    ensures forall q :: 0 <= q < output.Length && !(outPos <= q < outPos + len) ==> output[q] == old(output[q])
  {
    hide Dot;
    ghost var c := a[aPos..aPos + LPC_FILTERORDER + 1];
    ghost var st := mem[..];
    ghost var x := input[inPos..inPos + len];
    ghost var y := Fir(c, st, x);
    var i := 0;
    while i < LPC_FILTERORDER
      invariant 0 <= i <= LPC_FILTERORDER
      invariant mem[..] == st
      invariant forall q :: 0 <= q < i ==> output[outPos + q] == y[q]
      invariant forall q :: 0 <= q < output.Length && !(outPos <= q < outPos + len) ==> output[q] == old(output[q])
    {
      AnaSampleWithMemory(input, inPos, a, aPos, i, output, outPos + i, mem, c,
                          Past(st + x, LPC_FILTERORDER + i, LPC_FILTERORDER + 1));
      i := i + 1;
    }
    while i < len
      invariant LPC_FILTERORDER <= i <= len
      invariant mem[..] == st
      invariant forall q :: 0 <= q < i ==> output[outPos + q] == y[q]
      invariant forall q :: 0 <= q < output.Length && !(outPos <= q < outPos + len) ==> output[q] == old(output[q])
    {
      AnaSample(input, inPos + i, a, aPos, LPC_FILTERORDER, output, outPos + i, c,
                Past(st + x, LPC_FILTERORDER + i, LPC_FILTERORDER + 1));
      i := i + 1;
    }
    assert output[outPos..outPos + len] == y;
    CopyTail(input, inPos + len, mem);
    NextStateIsTail(st, x);
    assert a[aPos..aPos + LPC_FILTERORDER + 1] == c;
  }

  /** The taps that still reach into the memory, subtracted from one sample.
      `c` and `w` name the taps and the memory cells they meet. */
  method MemoryTaps(signal: array<real>, po: nat, a: array<real>, aPos: nat, i: nat, mem: array<real>,
                    ghost c: seq<real>, ghost w: seq<real>)
    requires i < LPC_FILTERORDER && po < signal.Length
    requires aPos + LPC_FILTERORDER < a.Length && mem.Length == LPC_FILTERORDER
    requires signal != a && signal != mem
    requires |c| == |w| == LPC_FILTERORDER - i
    requires forall k :: 0 <= k < |c| ==> c[k] == a[aPos + i + k + 1]
    requires forall k :: 0 <= k < |c| ==> w[k] == mem[LPC_FILTERORDER - 1 - k]
    modifies signal
    ensures signal[po] == old(signal[po]) - Dot(c, w)
    ensures forall q :: 0 <= q < signal.Length && q != po ==> signal[q] == old(signal[q])
  {
    var j := i + 1;
    while j < LPC_FILTERORDER + 1
      invariant i + 1 <= j <= LPC_FILTERORDER + 1
      invariant signal[po] == old(signal[po]) - Dot(c[..j - i - 1], w[..j - i - 1])
      invariant forall q :: 0 <= q < signal.Length && q != po ==> signal[q] == old(signal[q])
    {
      DotStep(c, w, j - i - 1);
      signal[po] := signal[po] - a[aPos + j] * mem[LPC_FILTERORDER + i - j];
      j := j + 1;
    }
    assert c[..j - i - 1] == c && w[..j - i - 1] == w;
  }

  /** One output of the synthesis filter whose window still reaches into the memory. */
  method SyntSampleWithMemory(signal: array<real>, pos: nat, a: array<real>, aPos: nat, i: nat, mem: array<real>,
                              ghost c: seq<real>, ghost o: seq<real>)
    requires i < LPC_FILTERORDER && pos + i < signal.Length
    requires aPos + LPC_FILTERORDER < a.Length && mem.Length == LPC_FILTERORDER
    requires signal != a && signal != mem
    requires c == a[aPos..aPos + LPC_FILTERORDER + 1]
    requires |o| == i && forall q :: 0 <= q < i ==> signal[pos + q] == o[q]
    modifies signal
    ensures signal[pos + i] == NextOutput(c, mem[..], o, old(signal[pos + i]))
    ensures forall q :: 0 <= q < signal.Length && q != pos + i ==> signal[q] == old(signal[q])
  {
    ghost var w := Window(mem[..], o);
    DotSplit(c[1..], w, i);
    AllPoleSample(signal, pos + i, a, aPos, i, c[1..][..i], w[..i]);
    MemoryTaps(signal, pos + i, a, aPos, i, mem, c[1..][i..], w[i..]);
  }

  /** LP synthesis filter, in place. */
  method SyntFilter(signal: array<real>, pos: nat, a: array<real>, aPos: nat, len: nat, mem: array<real>)
    requires LPC_FILTERORDER <= len && pos + len <= signal.Length
    requires aPos + LPC_FILTERORDER < a.Length && mem.Length == LPC_FILTERORDER
    requires signal != a && signal != mem && mem != a
    modifies signal, mem
    ensures signal[pos..pos + len]
            == Iir(a[aPos..aPos + LPC_FILTERORDER + 1], old(mem[..]), old(signal[pos..pos + len]))
    ensures mem[..] == NextState(old(mem[..]), signal[pos..pos + len])
    ensures forall q :: 0 <= q < signal.Length && !(pos <= q < pos + len) ==> signal[q] == old(signal[q])
  {
    hide Dot, Iir, NextState;
    ghost var c := a[aPos..aPos + LPC_FILTERORDER + 1];
    ghost var st := mem[..];
    ghost var y := signal[pos..pos + len];
    ghost var o := SyntHead(signal, pos, a, aPos, mem, c, y);
    var i := LPC_FILTERORDER;
    while i < len
      invariant LPC_FILTERORDER <= i <= len && |o| == i
      invariant mem[..] == st && o == Iir(c, st, y[..i])
      invariant forall q :: 0 <= q < i ==> signal[pos + q] == o[q]
      invariant forall q :: 0 <= q < signal.Length && !(pos <= q < pos + i) ==> signal[q] == old(signal[q])
    {
      ghost var w := Window(st, o);
      AllPoleSample(signal, pos + i, a, aPos, LPC_FILTERORDER, c[1..], w);
      IirStep(c, st, y, i, o, signal[pos + i]);
      o := o + [signal[pos + i]];
      i := i + 1;
    }
    assert y[..i] == y;
    assert signal[pos..pos + len] == o;
    CopyTail(signal, pos + len, mem);
    NextStateIsTail(st, o);
    assert a[aPos..aPos + LPC_FILTERORDER + 1] == c;
  }

  /** The first part of the synthesis filter: the samples whose window reaches
      into the memory. */
  method SyntHead(signal: array<real>, pos: nat, a: array<real>, aPos: nat, mem: array<real>,
                  ghost c: seq<real>, ghost y: seq<real>) returns (ghost o: seq<real>)
    requires LPC_FILTERORDER <= |y| && pos + |y| <= signal.Length
    requires aPos + LPC_FILTERORDER < a.Length && mem.Length == LPC_FILTERORDER
    requires signal != a && signal != mem && mem != a
    requires c == a[aPos..aPos + LPC_FILTERORDER + 1]
    requires forall q :: 0 <= q < |y| ==> signal[pos + q] == y[q]
    modifies signal
    ensures o == Iir(c, mem[..], y[..LPC_FILTERORDER])
    ensures forall q :: 0 <= q < LPC_FILTERORDER ==> signal[pos + q] == o[q]
    ensures forall q :: 0 <= q < signal.Length && !(pos <= q < pos + LPC_FILTERORDER) ==> signal[q] == old(signal[q])
  {
    hide Dot;
    o := [];
    var i := 0;
    while i < LPC_FILTERORDER
      invariant 0 <= i <= LPC_FILTERORDER && |o| == i
      invariant o == Iir(c, mem[..], y[..i])
      invariant forall q :: 0 <= q < i ==> signal[pos + q] == o[q]
      invariant forall q :: 0 <= q < signal.Length && !(pos <= q < pos + i) ==> signal[q] == old(signal[q])
    {
      SyntSampleWithMemory(signal, pos, a, aPos, i, mem, c, o);
      IirStep(c, mem[..], y, i, o, signal[pos + i]);
      o := o + [signal[pos + i]];
      i := i + 1;
    }
  }

  /** The filter memory becomes the samples before `end`. */
  method CopyTail(signal: array<real>, end: nat, mem: array<real>)
    requires mem.Length == LPC_FILTERORDER <= end <= signal.Length && mem != signal
    modifies mem
    ensures mem[..] == signal[end - LPC_FILTERORDER..end]
  {
    forall q | 0 <= q < LPC_FILTERORDER {
      mem[q] := signal[end - LPC_FILTERORDER + q];
    }
  }

  // ----- the general filters -----------------------------------------------

  /** One output of a recursive filter whose window lies in the array.
      `c` and `w` name the taps and the window they meet. */
  method AllPoleSample(signal: array<real>, po: nat, coef: array<real>, cPos: nat, order: nat,
                       ghost c: seq<real>, ghost w: seq<real>)
    requires order <= po < signal.Length && cPos + order < coef.Length && signal != coef
    requires |c| == |w| == order
    requires forall k :: 0 <= k < order ==> c[k] == coef[cPos + k + 1] && w[k] == signal[po - 1 - k]
    modifies signal
    ensures signal[po] == old(signal[po]) - Dot(c, w)
    ensures forall q :: 0 <= q < signal.Length && q != po ==> signal[q] == old(signal[q])
  {
    var k := 1;
    while k <= order
      invariant 1 <= k <= order + 1
      invariant signal[po] == old(signal[po]) - Dot(c[..k - 1], w[..k - 1])
      invariant forall q :: 0 <= q < signal.Length && q != po ==> signal[q] == old(signal[q])
    {
      DotStep(c, w, k - 1);
      signal[po] := signal[po] - coef[cPos + k] * signal[po - k];
      k := k + 1;
    }
    assert c[..k - 1] == c && w[..k - 1] == w;
  }

  /** All-pole filter in place; the `order` samples before `pos` are its state. */
  method AllPoleFilter(signal: array<real>, pos: nat, coef: array<real>, len: nat, order: nat)
    requires order <= pos && pos + len <= signal.Length && order < coef.Length && signal != coef
    modifies signal
    ensures signal[pos..pos + len]
            == Iir(coef[..order + 1], old(signal[pos - order..pos]), old(signal[pos..pos + len]))
    ensures forall q :: 0 <= q < signal.Length && !(pos <= q < pos + len) ==> signal[q] == old(signal[q])
  {
    hide Dot;
    ghost var c := coef[..order + 1];
    ghost var st := signal[pos - order..pos];
    ghost var y := signal[pos..pos + len];
    ghost var o: seq<real> := [];
    var n := 0;
    while n < len
      invariant 0 <= n <= len && |o| == n
      invariant o == Iir(c, st, y[..n])
      invariant forall q :: 0 <= q < n ==> signal[pos + q] == o[q]
      invariant forall q :: 0 <= q < signal.Length && !(pos <= q < pos + n) ==> signal[q] == old(signal[q])
    {
      ghost var w := Window(st, o);
      AllPoleSample(signal, pos + n, coef, 0, order, c[1..], w);
      IirStep(c, st, y, n, o, signal[pos + n]);
      o := o + [signal[pos + n]];
      n := n + 1;
    }
    assert y[..n] == y;
    assert signal[pos..pos + len] == o;
  }

  /** All-zero filter; the `order` samples before `inPos` are its state. */
  method AllZeroFilter(input: array<real>, inPos: nat, coef: array<real>, len: nat, order: nat,
                       output: array<real>, outPos: nat)
    requires order <= inPos && inPos + len <= input.Length && order < coef.Length
    requires outPos + len <= output.Length && output != input && output != coef
    modifies output
    ensures output[outPos..outPos + len]
            == Fir(coef[..order + 1], input[inPos - order..inPos], input[inPos..inPos + len])
    ensures forall q :: 0 <= q < output.Length && !(outPos <= q < outPos + len) ==> output[q] == old(output[q])
  {
    hide Dot;
    ghost var c := coef[..order + 1];
    ghost var st := input[inPos - order..inPos];
    ghost var x := input[inPos..inPos + len];
    ghost var y := Fir(c, st, x);
    var n := 0;
    while n < len
      invariant 0 <= n <= len
      invariant forall q :: 0 <= q < n ==> output[outPos + q] == y[q]
      invariant forall q :: 0 <= q < output.Length && !(outPos <= q < outPos + len) ==> output[q] == old(output[q])
    {
      AllZeroSample(input, inPos + n, coef, order, output, outPos + n, c, Past(st + x, order + n, order + 1));
      n := n + 1;
    }
    assert output[outPos..outPos + len] == y;
  }

  method AllZeroSample(input: array<real>, pi: nat, coef: array<real>, order: nat, output: array<real>, po: nat,
                       ghost c: seq<real>, ghost w: seq<real>)
    requires order <= pi < input.Length && order < coef.Length
    requires po < output.Length && output != input && output != coef
    requires |c| == |w| == order + 1
    requires forall k :: 0 <= k <= order ==> c[k] == coef[k] && w[k] == input[pi - k]
    modifies output
    ensures output[po] == Dot(c, w)
    ensures forall q :: 0 <= q < output.Length && q != po ==> output[q] == old(output[q])
  {
    output[po] := coef[0] * input[pi];
    DotStep(c, w, 0);
    var k := 1;
    while k <= order
      invariant 1 <= k <= order + 1
      invariant output[po] == Dot(c[..k], w[..k])
      invariant forall q :: 0 <= q < output.Length && q != po ==> output[q] == old(output[q])
    {
      DotStep(c, w, k);
      output[po] := output[po] + coef[k] * input[pi - k];
      k := k + 1;
    }
    assert c[..k] == c && w[..k] == w;
  }

  /** Pole-zero filter: the all-zero section into `output`, then the all-pole
      section over it. When both sections have the same coefficients, a unit lead
      and equal states, the filter is the identity. */
  method ZeroPoleFilter(input: array<real>, inPos: nat, zeroCoef: array<real>, poleCoef: array<real>,
                        len: nat, order: nat, output: array<real>, outPos: nat)
    requires order <= inPos && inPos + len <= input.Length
    requires order < zeroCoef.Length && order < poleCoef.Length
    requires order <= outPos && outPos + len <= output.Length
    requires output != input && output != zeroCoef && output != poleCoef
    modifies output
    ensures output[outPos..outPos + len]
            == Iir(poleCoef[..order + 1], old(output[outPos - order..outPos]),
                   Fir(zeroCoef[..order + 1], input[inPos - order..inPos], input[inPos..inPos + len]))
    ensures forall q :: 0 <= q < output.Length && !(outPos <= q < outPos + len) ==> output[q] == old(output[q])
    ensures zeroCoef[..order + 1] == poleCoef[..order + 1] && zeroCoef[0] == 1.0
            && input[inPos - order..inPos] == old(output[outPos - order..outPos])
            ==> output[outPos..outPos + len] == input[inPos..inPos + len]
  {
    AllZeroFilter(input, inPos, zeroCoef, len, order, output, outPos);
    assert output[outPos - order..outPos] == old(output[outPos - order..outPos]);
    AllPoleFilter(output, outPos, poleCoef, len, order);
    if zeroCoef[0] == 1.0 {
      IirUndoesFir(zeroCoef[..order + 1], input[inPos - order..inPos], input[inPos..inPos + len]);
    }
  }

  // ----- whole frames ------------------------------------------------------

  /** The encoder's loop: the residual of every sub-frame, memory carried along. */
  method ResidualOfFrame(data: array<real>, synt: array<real>, nsub: nat, residual: array<real>, anaMem: array<real>)
    requires 40 * nsub <= data.Length && 40 * nsub <= residual.Length
    requires 11 * nsub <= synt.Length && anaMem.Length == LPC_FILTERORDER
    requires residual != data && residual != synt && residual != anaMem
    requires anaMem != data && anaMem != synt
    modifies residual, anaMem
    ensures SubFrames(residual[..], nsub)
            == FirRun(Coefficients(synt[..], nsub), old(anaMem[..]), SubFrames(data[..], nsub))
    ensures anaMem[..] == StateAfter(old(anaMem[..]), SubFrames(data[..], nsub))
  {
    hide Fir, Iir, FirRun, IirRun, NextState, StateAfter, SubFrames, Coefficients;
    ghost var st := anaMem[..];
    ghost var xs := SubFrames(data[..], nsub);
    ghost var cs := Coefficients(synt[..], nsub);
    ghost var ys: seq<seq<real>> := [];
    var n := 0;
    RunStart(cs, st, xs);
    while n < nsub
      invariant 0 <= n <= nsub && |ys| == n
      invariant ys == FirRun(cs[..n], st, xs[..n])
      invariant anaMem[..] == StateAfter(st, xs[..n])
      invariant forall i :: 0 <= i < n ==> residual[40 * i..40 * i + 40] == ys[i]
    {
      ghost var before := residual[..];
      AnaFilter(data, n * 40, synt, n * 11, SUBL, residual, n * 40, anaMem);
      FrameParts(data[..], synt[..], nsub, n);
      FirRunStep(cs, st, xs, n);
      assert xs[..n + 1] == xs[..n] + [xs[n]];
      StateAfterStep(st, xs[..n], xs[n]);
      SubFramesKept(before, residual[..], n, ys);
      ys := ys + [residual[40 * n..40 * n + 40]];
      n := n + 1;
    }
    assert cs[..n] == cs && xs[..n] == xs;
    SubFramesAre(residual[..], ys);
  }

  /** The decoder's loop without enhancement: every sub-frame is synthesised in place. */
  method SynthesiseFrame(data: array<real>, synt: array<real>, nsub: nat, syntMem: array<real>)
    requires 40 * nsub <= data.Length
    requires 11 * nsub <= synt.Length && syntMem.Length == LPC_FILTERORDER
    requires data != synt && data != syntMem && syntMem != synt
    modifies data, syntMem
    ensures SubFrames(data[..], nsub)
            == IirRun(Coefficients(synt[..], nsub), old(syntMem[..]), SubFrames(old(data[..]), nsub))
    ensures syntMem[..] == StateAfter(old(syntMem[..]), SubFrames(data[..], nsub))
  {
    hide Fir, Iir, FirRun, IirRun, NextState, StateAfter, SubFrames, Coefficients;
    ghost var st := syntMem[..];
    ghost var y := data[..];
    ghost var ys := SubFrames(y, nsub);
    ghost var cs := Coefficients(synt[..], nsub);
    ghost var os: seq<seq<real>> := [];
    var i := 0;
    RunStart(cs, st, ys);
    while i < nsub
      invariant 0 <= i <= nsub && |os| == i
      invariant os == IirRun(cs[..i], st, ys[..i])
      invariant syntMem[..] == StateAfter(st, os)
      invariant forall k :: 0 <= k < i ==> data[40 * k..40 * k + 40] == os[k]
      invariant forall q :: 40 * i <= q < data.Length ==> data[q] == y[q]
    {
      ghost var before := data[..];
      SyntFilter(data, i * 40, synt, i * 11, SUBL, syntMem);
      FrameParts(y, synt[..], nsub, i);
      assert before[40 * i..40 * i + 40] == y[40 * i..40 * i + 40];
      IirRunStep(cs, st, ys, i, os, data[40 * i..40 * i + 40]);
      StateAfterStep(st, os, data[40 * i..40 * i + 40]);
      SubFramesKept(before, data[..], i, os);
      os := os + [data[40 * i..40 * i + 40]];
      i := i + 1;
    }
    assert cs[..i] == cs && ys[..i] == ys;
    SubFramesAre(data[..], os);
  }

  /** Encoder loop then decoder loop, from equal memories and with coefficient
      vectors that start with one: the speech comes back and the memories agree. */
  method FrameRoundTrip(data: array<real>, synt: array<real>, nsub: nat,
                        residual: array<real>, anaMem: array<real>, syntMem: array<real>)
    requires 40 * nsub <= data.Length && 40 * nsub <= residual.Length
    requires 11 * nsub <= synt.Length
    requires anaMem.Length == LPC_FILTERORDER == syntMem.Length
    requires residual != data && residual != synt && residual != anaMem && residual != syntMem
    requires anaMem != data && anaMem != synt && anaMem != syntMem && syntMem != synt && syntMem != data
    requires anaMem[..] == syntMem[..]
    requires forall i :: 0 <= i < nsub ==> Coefficients(synt[..], nsub)[i][0] == 1.0
    modifies residual, anaMem, syntMem
    ensures SubFrames(residual[..], nsub) == SubFrames(data[..], nsub)
    ensures anaMem[..] == syntMem[..] == StateAfter(old(anaMem[..]), SubFrames(data[..], nsub))
  {
    ResidualOfFrame(data, synt, nsub, residual, anaMem);
    SynthesiseFrame(residual, synt, nsub, syntMem);
    RunRoundTrip(Coefficients(synt[..], nsub), old(anaMem[..]), SubFrames(data[..], nsub));
  }
}
