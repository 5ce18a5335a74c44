/**
 The adaptive codebook of the iLBC codec. The encoder takes a chosen vector from its
 buffers (the filtered buffer, and interpolated vectors built on demand); the decoder
 rebuilds it from the index. Both are proved to give the same vector.
 */
module Codebook {
  import opened CodecConstants
  import opened Vectors
  import Sequences

  const CB_MEML := 147
  const CB_FILTERLEN := 8
  const CB_HALFFILTERLEN := 4
  const STATE_LEN := 80

  /** The expansion filter. */
  const CB_FILTERS: seq<real> := [-0.034180, 0.108887, -0.184326, 0.806152, 0.713379, -0.144043, 0.083740, -0.033691]

  // ----- specification --------------------------------------------------------

  /** The memory, zero outside its support. */
  function Padded(m: seq<real>, i: int): real {
    if 0 <= i < |m| then m[i] else 0.0
  }

  function FilterWindow(m: seq<real>, k: nat): (w: seq<real>)
    ensures |w| == 8
  {
    seq(8, j => Padded(m, k + j - 3))
  }

  function FilterTaps(): (t: seq<real>)
    ensures |t| == 8 == |CB_FILTERS| && forall j :: 0 <= j < 8 ==> t[j] == CB_FILTERS[7 - j]
  {
    seq(8, j requires 0 <= j < 8 => CB_FILTERS[7 - j])
  }

  /** The memory after the expansion filter: a convolution with eight taps. */
  function Filtered(m: seq<real>): (f: seq<real>)
    ensures |f| == |m|
  {
    seq(|m|, k requires 0 <= k => Dot(FilterWindow(m, k), FilterTaps()))
  }

  /** Cross-fade weight of the t-th interpolated sample. */
  function Blend(t: int, old': real, new': real): real {
    (1.0 - 0.2 * (t as real)) * old' + 0.2 * (t as real) * new'
  }

  /** The interpolated vector of lag i: the last i samples, then again from the start of
      those, with a five-sample cross-fade before the seam. */
  function Interpolated(m: seq<real>, i: nat): (v: seq<real>)
    requires 20 <= i < 40 && i + 5 <= |m|
    ensures |v| == 40
  {
    seq(40, j requires 0 <= j < 40 =>
      if j < i - 5 then m[|m| - i + j]
      else if j < i then Blend(j - (i - 5), m[|m| - i + j], m[|m| - 2 * i + j])
      else m[|m| - 2 * i + j])
  }

  /** Number of vectors in the first half of the codebook: every window of the memory,
      and the interpolated vectors when a whole sub-block is coded. */
  function BaseSize(lMem: nat, len: nat): nat
    requires len <= lMem
  {
    lMem - len + 1 + (if len == SUBL then len / 2 else 0)
  }

  /** Whether the codebook exists: the lengths that the codec uses. */
  predicate Usable(lMem: nat, len: nat) {
    0 < len <= SUBL && len <= lMem <= CB_MEML && (len == SUBL ==> 78 <= lMem)
  }

  /** A vector of the first half. */
  function FirstHalf(m: seq<real>, index: nat, len: nat): (v: seq<real>)
    requires Usable(|m|, len) && index < BaseSize(|m|, len)
    ensures |v| == len
  {
    if index < |m| - len + 1 then m[|m| - len - index..|m| - index]
    else Interpolated(m, index - BaseSize(|m|, len) + 40)
  }

  /** The codebook: the first half on the memory, the second half is the first half on
      the filtered memory. */
  function CodebookVector(m: seq<real>, index: nat, len: nat): (v: seq<real>)
    requires Usable(|m|, len) && index < 2 * BaseSize(|m|, len)
    ensures |v| == len
  {
    if index < BaseSize(|m|, len) then FirstHalf(m, index, len)
    else FirstHalf(Filtered(m), index - BaseSize(|m|, len), len)
  }

  // ----- shared steps ------------------------------------------------------------

  method Copy(dst: array<real>, dPos: nat, src: array<real>, sPos: nat, n: nat)
    requires dPos + n <= dst.Length && sPos + n <= src.Length && dst != src
    modifies dst
    ensures dst[dPos..dPos + n] == src[sPos..sPos + n]
    ensures forall q :: dPos <= q < dPos + n ==> dst[q] == src[sPos + (q - dPos)]
    ensures forall q :: 0 <= q < dst.Length && !(dPos <= q < dPos + n) ==> dst[q] == old(dst[q])
  {
    forall q | 0 <= q < n {
      dst[dPos + q] := src[sPos + q];
    }
  }

  method Clear(dst: array<real>, dPos: nat, n: nat)
    requires dPos + n <= dst.Length
    modifies dst
    ensures forall q :: dPos <= q < dPos + n ==> dst[q] == 0.0
    ensures forall q :: 0 <= q < dst.Length && !(dPos <= q < dPos + n) ==> dst[q] == old(dst[q])
  {
    forall q | 0 <= q < n {
      dst[dPos + q] := 0.0;
    }
  }

  /** The inner loop of the expansion filter: one output from eight padded samples. */
  method FilterSample(padded: array<real>, pp: nat, dst: array<real>, pos: nat, ghost w: seq<real>)
    requires pp + CB_FILTERLEN <= padded.Length && pos < dst.Length && dst != padded
    requires dst[pos] == 0.0
    requires |w| == 8 && forall j :: 0 <= j < 8 ==> w[j] == padded[pp + j]
    modifies dst
    ensures dst[pos] == Dot(w, FilterTaps())
    ensures forall q :: 0 <= q < dst.Length && q != pos ==> dst[q] == old(dst[q])
  {
    ghost var taps := FilterTaps();
    var j := 0;
    while j < CB_FILTERLEN
      invariant 0 <= j <= CB_FILTERLEN
      invariant dst[pos] == Dot(w[..j], taps[..j])
      invariant forall q :: 0 <= q < dst.Length && q != pos ==> dst[q] == old(dst[q])
    {
      DotStep(w, taps, j);
      dst[pos] := dst[pos] + padded[pp + j] * CB_FILTERS[CB_FILTERLEN - 1 - j];
      j := j + 1;
    }
    assert w[..j] == w && taps[..j] == taps;
  }

  /** The cross-fade: five samples from `ilow`, out of the samples at `ppo` and `ppi`. */
  method CrossFade(dst: array<real>, ilow: nat, src: array<real>, ppo: nat, ppi: nat)
    requires ilow + 5 <= dst.Length && ppo + 5 <= src.Length && ppi + 5 <= src.Length && dst != src
    modifies dst
    ensures forall t :: ilow <= t < ilow + 5 ==> dst[t] == Blend(t - ilow, src[ppo + (t - ilow)], src[ppi + (t - ilow)])
    ensures forall q :: 0 <= q < dst.Length && !(ilow <= q < ilow + 5) ==> dst[q] == old(dst[q])
  {
    var alfa1 := 0.2;
    var alfa := 0.0;
    var j := ilow;
    while j < ilow + 5
      invariant ilow <= j <= ilow + 5
      invariant alfa == 0.2 * ((j - ilow) as real)
      invariant forall t :: ilow <= t < j ==> dst[t] == Blend(t - ilow, src[ppo + (t - ilow)], src[ppi + (t - ilow)])
      invariant forall q :: 0 <= q < dst.Length && !(ilow <= q < ilow + 5) ==> dst[q] == old(dst[q])
    {
      dst[j] := (1.0 - alfa) * src[ppo + (j - ilow)] + alfa * src[ppi + (j - ilow)];
      assert dst[j] == Blend(j - ilow, src[ppo + (j - ilow)], src[ppi + (j - ilow)]);
      alfa := alfa + alfa1;
      j := j + 1;
    }
  }

  lemma {:induction false} IsInterpolated(v: seq<real>, m: seq<real>, i: nat)
    requires 20 <= i < 40 && i + 5 <= |m| && |v| == 40
    requires forall j :: 0 <= j < i - 5 ==> v[j] == m[|m| - i + j]
    requires forall j :: i - 5 <= j < i ==> v[j] == Blend(j - (i - 5), m[|m| - i + j], m[|m| - 2 * i + j])
    requires forall j :: i <= j < 40 ==> v[j] == m[|m| - 2 * i + j]
    ensures v == Interpolated(m, i)
  {
    hide Blend;
  }

  /** The three steps of building an interpolated vector: `n1` samples from `p1`, the
      cross-fade over the five samples before `ihigh`, and the rest from `p2`. */
  method Seam(cbVec: array<real>, src: array<real>, p1: nat, n1: nat, ihigh: nat, ppo: nat, ppi: nat, p2: nat)
    requires 20 <= ihigh < SUBL <= cbVec.Length && cbVec != src && ihigh - 5 <= n1 <= ihigh
    requires p1 + n1 <= src.Length && ppo + 5 <= src.Length && ppi + 5 <= src.Length
    requires p2 + SUBL - ihigh <= src.Length
    modifies cbVec
    ensures forall j :: 0 <= j < ihigh - 5 ==> cbVec[j] == src[p1 + j]
    ensures forall j :: ihigh - 5 <= j < ihigh ==>
              cbVec[j] == Blend(j - (ihigh - 5), src[ppo + (j - (ihigh - 5))], src[ppi + (j - (ihigh - 5))])
    ensures forall j :: ihigh <= j < SUBL ==> cbVec[j] == src[p2 + (j - ihigh)]
    ensures forall j :: SUBL <= j < cbVec.Length ==> cbVec[j] == old(cbVec[j])
  {
    hide Blend;
    Copy(cbVec, 0, src, p1, n1);
    CrossFade(cbVec, ihigh - 5, src, ppo, ppi);
    Copy(cbVec, ihigh, src, p2, SUBL - ihigh);
  }

  // ----- encoder ------------------------------------------------------------------

  /** The filtered buffer of the encoder. */
  method FilteredCBvecs(cbvectors: array<real>, mem: array<real>, mPos: nat, lMem: nat)
    requires lMem <= CB_MEML && lMem <= cbvectors.Length && mPos + lMem <= mem.Length && cbvectors != mem
    modifies cbvectors
    ensures cbvectors[..lMem] == Filtered(mem[mPos..mPos + lMem])
    ensures forall q :: lMem <= q < cbvectors.Length ==> cbvectors[q] == old(cbvectors[q])
  {
    ghost var m := mem[mPos..mPos + lMem];
    var tempbuff2 := new real[CB_MEML + CB_FILTERLEN];
    Clear(tempbuff2, 0, CB_HALFFILTERLEN - 1);
    Copy(tempbuff2, CB_HALFFILTERLEN - 1, mem, mPos, lMem);
    Clear(tempbuff2, lMem + CB_HALFFILTERLEN - 1, CB_HALFFILTERLEN + 1);
    assert forall q :: 0 <= q < lMem + 8 ==> tempbuff2[q] == Padded(m, q - 3);
    Clear(cbvectors, 0, lMem);
    var k := 0;
    while k < lMem
      invariant 0 <= k <= lMem
      invariant forall q :: 0 <= q < lMem + 8 ==> tempbuff2[q] == Padded(m, q - 3)
      invariant forall q :: 0 <= q < k ==> cbvectors[q] == Filtered(m)[q]
      invariant forall q :: k <= q < lMem ==> cbvectors[q] == 0.0
      invariant forall q :: lMem <= q < cbvectors.Length ==> cbvectors[q] == old(cbvectors[q])
    {
      FilterSample(tempbuff2, k, cbvectors, k, FilterWindow(m, k));
      k := k + 1;
    }
  }

  /** The interpolated vector of lag `index`, whose buffer ends at `end`. */
  method CreateAugmentedVec(index: nat, buffer: array<real>, end: nat, cbVec: array<real>)
    requires 20 <= index < SUBL && index + 5 <= end <= buffer.Length && cbVec.Length == SUBL && cbVec != buffer
    modifies cbVec
    ensures cbVec[..] == Interpolated(buffer[..end], index)
  {
    hide Blend, Interpolated;
    Seam(cbVec, buffer, end - index, index, index, end - 5, end - index - 5, end - index);
    IsInterpolated(cbVec[..], buffer[..end], index);
  }

  /** The extraction of the chosen vector: where it starts and in which array. `buf`
      holds the memory from `bPos` on, `cbvectors` the filtered memory, `augVec` room
      for an interpolated vector. `stateShortLen` tells the two block lengths apart. */
  method ExtractVector(buf: array<real>, bPos: nat, lMem: nat, lTarget: nat, stateShortLen: nat,
                       cbvectors: array<real>, augVec: array<real>, index: nat)
    returns (src: array<real>, pp: nat)
    requires Usable(lMem, lTarget) && index < 2 * BaseSize(lMem, lTarget)
    requires stateShortLen <= STATE_LEN && (lTarget == STATE_LEN - stateShortLen) != (lTarget == SUBL)
    requires bPos + lMem <= buf.Length && lMem <= cbvectors.Length && augVec.Length == SUBL
    requires augVec != buf && augVec != cbvectors && buf != cbvectors
    requires cbvectors[..lMem] == Filtered(buf[bPos..bPos + lMem])
    modifies augVec
    ensures src == buf || src == cbvectors || src == augVec
    ensures pp + lTarget <= src.Length
    ensures src[pp..pp + lTarget] == CodebookVector(buf[bPos..bPos + lMem], index, lTarget)
  {
    hide Filtered, Interpolated, FirstHalf;
    var baseSize := lMem - lTarget + 1;
    if lTarget == SUBL {
      baseSize := lMem - lTarget + 1 + lTarget / 2;
    }
    if lTarget == STATE_LEN - stateShortLen {
      if index < baseSize {
        src, pp := buf, bPos + lMem - lTarget - index;
        PlainWindow(buf[..], bPos, lMem, lTarget, index);
      } else {
        src, pp := cbvectors, lMem - lTarget - index + baseSize;
        PlainWindow(cbvectors[..], 0, lMem, lTarget, index - baseSize);
      }
    } else {
      if index < baseSize {
        src, pp := ExtractHalf(buf, bPos, lMem, augVec, index, baseSize);
      } else {
        src, pp := ExtractFiltered(cbvectors, lMem, augVec, index, baseSize);
      }
    }
  }

  /** Extraction from the unfiltered buffer for a whole sub-block. */
  method ExtractHalf(buf: array<real>, bPos: nat, lMem: nat, augVec: array<real>, index: nat, baseSize: nat)
    returns (src: array<real>, pp: nat)
    requires Usable(lMem, SUBL) && index < baseSize == BaseSize(lMem, SUBL)
    requires bPos + lMem <= buf.Length && augVec.Length == SUBL && augVec != buf
    modifies augVec
    ensures src == buf || src == augVec
    ensures pp + SUBL <= src.Length
    ensures src[pp..pp + SUBL] == FirstHalf(buf[bPos..bPos + lMem], index, SUBL)
  {
    hide Interpolated;
    if index < baseSize - 20 {
      src, pp := buf, bPos + lMem - SUBL - index;
      WindowOf(buf[..], bPos, lMem, lMem - SUBL - index, SUBL);
    } else {
      CreateAugmentedVec(index - baseSize + 40, buf, bPos + lMem, augVec);
      InterpolatedLocal(buf[..bPos + lMem], buf[bPos..bPos + lMem], index - baseSize + 40);
      src, pp := augVec, 0;
      assert augVec[0..SUBL] == augVec[..];
    }
  }

  /** Extraction from the filtered buffer for a whole sub-block. */
  method ExtractFiltered(cbvectors: array<real>, lMem: nat, augVec: array<real>, index: nat, baseSize: nat)
    returns (src: array<real>, pp: nat)
    requires Usable(lMem, SUBL) && BaseSize(lMem, SUBL) == baseSize <= index < 2 * baseSize
    requires lMem <= cbvectors.Length && augVec.Length == SUBL && augVec != cbvectors
    modifies augVec
    ensures src == cbvectors || src == augVec
    ensures pp + SUBL <= src.Length
    ensures src[pp..pp + SUBL] == FirstHalf(cbvectors[..lMem], index - baseSize, SUBL)
  {
    hide Interpolated;
    var filterno := index / baseSize;
    QuotientOne(index, baseSize);
    var position := index - filterno * baseSize;
    if position < baseSize - 20 {
      src, pp := cbvectors, filterno * lMem - SUBL - index + filterno * baseSize;
      WindowOf(cbvectors[..], 0, lMem, pp, SUBL);
    } else {
      CreateAugmentedVec(index - (filterno + 1) * baseSize + 40, cbvectors, filterno * lMem, augVec);
      src, pp := augVec, 0;
      assert augVec[0..SUBL] == augVec[..];
    }
  }

  lemma {:induction false} QuotientOne(a: nat, b: nat)
    requires b <= a < 2 * b
    ensures a / b == 1
  {
  }

  lemma {:induction false} PlainWindow(s: seq<real>, base: nat, lMem: nat, len: nat, index: nat)
    requires Usable(lMem, len) && base + lMem <= |s| && index < lMem - len + 1
    ensures s[base + lMem - len - index..base + lMem - index] == FirstHalf(s[base..base + lMem], index, len)
    ensures base == 0 ==> s[lMem - len - index..lMem - index] == FirstHalf(s[..lMem], index, len)
  {
    WindowOf(s, base, lMem, lMem - len - index, len);
    if base == 0 {
      assert s[base..base + lMem] == s[..lMem];
    }
  }

  lemma {:induction false} WindowOf(s: seq<real>, base: nat, n: nat, from: nat, len: nat)
    requires base + n <= |s| && from + len <= n
    ensures s[base + from..base + from + len] == s[base..base + n][from..from + len]
    ensures base == 0 ==> s[..n][from..from + len] == s[from..from + len]
  {
    Sequences.SliceOfSlice(s, base, n, from, len);
    if base == 0 {
      assert s[..n][from..from + len] == s[from..from + len];
    }
  }

  /** The interpolated vector depends on the end of the memory only. */
  lemma {:induction false} InterpolatedLocal(s: seq<real>, m: seq<real>, i: nat)
    requires 20 <= i < 40 && i + 5 <= |m| <= |s| && s[|s| - |m|..] == m
    ensures Interpolated(s, i) == Interpolated(m, i)
  {
    hide Blend;
    var d := |s| - |m|;
    assert forall q :: 0 <= q < |m| ==> m[q] == s[d..][q] == s[d + q];
  }

  // ----- decoder ------------------------------------------------------------------

  /** The decoder's padded copy of the memory: four zeros before, five after. */
  method PaddedCopy(mem: array<real>, mPos: nat, lMem: nat) returns (tempbuff2: array<real>)
    requires lMem <= CB_MEML && mPos + lMem <= mem.Length
    ensures fresh(tempbuff2) && tempbuff2.Length == CB_MEML + CB_FILTERLEN + 1
    ensures forall q :: 0 <= q < lMem + 9 ==> tempbuff2[q] == Padded(mem[mPos..mPos + lMem], q - 4)
  {
    tempbuff2 := new real[CB_MEML + CB_FILTERLEN + 1];
    Clear(tempbuff2, 0, CB_HALFFILTERLEN);
    Copy(tempbuff2, CB_HALFFILTERLEN, mem, mPos, lMem);
    Clear(tempbuff2, lMem + CB_HALFFILTERLEN, CB_HALFFILTERLEN + 1);
  }

  /** The decoder's filtering of the last k samples of the memory, written to `dst`
      from `dPos` on. */
  method FilterTail(dst: array<real>, dPos: nat, n: nat, mem: array<real>, mPos: nat, lMem: nat, k: nat)
    requires lMem <= CB_MEML && mPos + lMem <= mem.Length && n <= k <= lMem
    requires dPos + n <= dst.Length && dst != mem
    modifies dst
    ensures forall q :: dPos <= q < dPos + n ==>
              dst[q] == Filtered(mem[mPos..mPos + lMem])[lMem - k + (q - dPos)]
    ensures forall q :: 0 <= q < dst.Length && !(dPos <= q < dPos + n) ==> dst[q] == old(dst[q])
  {
    ghost var m := mem[mPos..mPos + lMem];
    var tempbuff2 := PaddedCopy(mem, mPos, lMem);
    var sFilt := lMem - k;
    var memInd := sFilt + 1 - CB_HALFFILTERLEN;
    Clear(dst, dPos, n);
    var i := 0;
    while i < n
      invariant 0 <= i <= n
      invariant forall q :: 0 <= q < lMem + 9 ==> tempbuff2[q] == Padded(m, q - 4)
      invariant forall q :: dPos <= q < dPos + i ==> dst[q] == Filtered(m)[sFilt + (q - dPos)]
      invariant forall q :: dPos + i <= q < dPos + n ==> dst[q] == 0.0
      invariant forall q :: 0 <= q < dst.Length && !(dPos <= q < dPos + n) ==> dst[q] == old(dst[q])
    {
      FilterSample(tempbuff2, memInd + i + CB_HALFFILTERLEN, dst, dPos + i, FilterWindow(m, sFilt + i));
      i := i + 1;
    }
  }

  /** The decoder's interpolated vector of even lag k: seam at k / 2. */
  method InterpolateInto(cbvec: array<real>, src: array<real>, end: nat, k: nat, ghost m: seq<real>)
    requires cbvec.Length >= SUBL && cbvec != src && k % 2 == 0 && 40 <= k < 80 && k <= |m| && end <= src.Length
    requires |m| <= end && forall q :: |m| - k <= q < |m| ==> m[q] == src[end - |m| + q]
    modifies cbvec
    ensures cbvec[..SUBL] == Interpolated(m, k / 2)
    ensures forall q :: SUBL <= q < cbvec.Length ==> cbvec[q] == old(cbvec[q])
  {
    hide Blend, Interpolated;
    var ihigh := k / 2;
    var ilow := ihigh - 5;
    Seam(cbvec, src, end - k / 2, ilow, ihigh, end - k / 2 + ilow, end - k + ilow, end - k + ihigh);
    IsInterpolated(cbvec[..SUBL], m, ihigh);
  }

  /** Rebuilds the codebook vector of an index. */
  method GetCBvec(cbvec: array<real>, mem: array<real>, mPos: nat, index: nat, lMem: nat, cbveclen: nat)
    requires Usable(lMem, cbveclen) && index < 2 * BaseSize(lMem, cbveclen)
    requires mPos + lMem <= mem.Length && cbveclen <= cbvec.Length && cbvec != mem
    modifies cbvec
    ensures cbvec[..cbveclen] == CodebookVector(mem[mPos..mPos + lMem], index, cbveclen)
    ensures forall q :: cbveclen <= q < cbvec.Length ==> cbvec[q] == old(cbvec[q])
  {
    hide Filtered, Interpolated;
    ghost var m := mem[mPos..mPos + lMem];
    var baseSize := lMem - cbveclen + 1;
    if cbveclen == SUBL {
      baseSize := baseSize + cbveclen / 2;
    }
    if index < lMem - cbveclen + 1 {
      var k := index + cbveclen;
      Copy(cbvec, 0, mem, mPos + lMem - k, cbveclen);
      assert cbvec[..cbveclen] == m[lMem - k..lMem - index];
    } else if index < baseSize {
      var k := 2 * (index - (lMem - cbveclen + 1)) + cbveclen;
      InterpolateInto(cbvec, mem, mPos + lMem, k, m);
    } else {
      FilteredInto(cbvec, mem, mPos, index - baseSize, lMem, cbveclen);
    }
  }

  /** The higher section of the codebook: the first half on the filtered memory, of
      which only the part in use is computed. */
  method FilteredInto(cbvec: array<real>, mem: array<real>, mPos: nat, index: nat, lMem: nat, cbveclen: nat)
    requires Usable(lMem, cbveclen) && index < BaseSize(lMem, cbveclen)
    requires mPos + lMem <= mem.Length && cbveclen <= cbvec.Length && cbvec != mem
    modifies cbvec
    ensures cbvec[..cbveclen] == FirstHalf(Filtered(mem[mPos..mPos + lMem]), index, cbveclen)
    ensures forall q :: cbveclen <= q < cbvec.Length ==> cbvec[q] == old(cbvec[q])
  {
    hide Filtered, Interpolated;
    ghost var m := mem[mPos..mPos + lMem];
    if index < lMem - cbveclen + 1 {
      var k := index + cbveclen;
      FilterTail(cbvec, 0, cbveclen, mem, mPos, lMem, k);
      assert cbvec[..cbveclen] == Filtered(m)[lMem - k..lMem - k + cbveclen];
    } else {
      var k := 2 * (index - (lMem - cbveclen + 1)) + cbveclen;
      var tmpbuf := new real[CB_MEML];
      FilterTail(tmpbuf, lMem - k, k, mem, mPos, lMem, k);
      InterpolateInto(cbvec, tmpbuf, lMem, k, Filtered(m));
    }
  }

  /** Both sides, from equal memories: the decoder rebuilds the vector that the encoder
      extracts, for every valid index of every section. */
  method CodebooksAgree(buf: array<real>, bPos: nat, mem: array<real>, mPos: nat, lMem: nat, lTarget: nat,
                        stateShortLen: nat, index: nat, cbvec: array<real>)
    returns (src: array<real>, pp: nat)
    requires Usable(lMem, lTarget) && index < 2 * BaseSize(lMem, lTarget)
    requires stateShortLen <= STATE_LEN && (lTarget == STATE_LEN - stateShortLen) != (lTarget == SUBL)
    requires bPos + lMem <= buf.Length && mPos + lMem <= mem.Length && lTarget <= cbvec.Length
    requires cbvec != buf && cbvec != mem
    requires buf[bPos..bPos + lMem] == mem[mPos..mPos + lMem]
    modifies cbvec
    ensures pp + lTarget <= src.Length && src[pp..pp + lTarget] == cbvec[..lTarget]
  {
    hide CodebookVector, Filtered;
    var cbvectors := new real[CB_MEML];
    FilteredCBvecs(cbvectors, buf, bPos, lMem);
    var augVec := new real[SUBL];
    src, pp := ExtractVector(buf, bPos, lMem, lTarget, stateShortLen, cbvectors, augVec, index);
    ghost var v := src[pp..pp + lTarget];
    GetCBvec(cbvec, mem, mPos, index, lMem, lTarget);
    assert src[pp..pp + lTarget] == v;
  }
}
