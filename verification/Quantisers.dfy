/**
 The quantisers of the iLBC codec: the scalar search in a sorted codebook, the vector
 search, the split vector search, and the coding and decoding of line spectral
 frequencies built on it.
 */
module Quantisers {
  import opened CodecConstants
  import opened Vectors
  import Sequences

  const FLOAT_MAX := 10000000000000000000000000000000000000.0
  const LSF_NSPLIT := 3

  // ----- scalar ------------------------------------------------------------------

  ghost predicate Sorted(cb: seq<real>) {
    forall i, j :: 0 <= i < j < |cb| ==> cb[i] <= cb[j]
  }

  ghost predicate StrictlySorted(cb: seq<real>) {
    forall i, j :: 0 <= i < j < |cb| ==> cb[i] < cb[j]
  }

  /** Scalar quantisation: a nearest entry of a sorted codebook, the lower one on a tie. */
  method SortSq(x: real, cb: array<real>, cbSize: nat) returns (xq: real, index: nat)
    requires 2 <= cbSize <= cb.Length && Sorted(cb[..cbSize])
    ensures index < cbSize && xq == cb[index]
    ensures forall j :: 0 <= j < cbSize ==> Abs(x - cb[index]) <= Abs(x - cb[j])
    ensures StrictlySorted(cb[..cbSize]) ==> forall j :: 0 <= j < index ==> Abs(x - cb[index]) < Abs(x - cb[j])
  {
    ghost var s := cb[..cbSize];
    assert forall j :: 0 <= j < cbSize ==> cb[j] == s[j];
    if x <= cb[0] {
      index := 0;
      xq := cb[0];
    } else {
      var i := 0;
      while x > cb[i] && i < cbSize - 1
        invariant 0 <= i < cbSize
        invariant i > 0 ==> x > cb[i - 1]
        decreases cbSize - i
      {
        i := i + 1;
      }
      if x > (cb[i] + cb[i - 1]) / 2.0 {
        index := i;
        xq := cb[i];
      } else {
        index := i - 1;
        xq := cb[i - 1];
      }
    }
  }

  // ----- vector ------------------------------------------------------------------

  /** Squared distance. */
  function Dist(x: seq<real>, c: seq<real>): real
    requires |x| == |c|
  {
    if x == [] then 0.0
    else Dist(x[..|x| - 1], c[..|c| - 1]) + Times(x[|x| - 1] - c[|c| - 1], x[|x| - 1] - c[|c| - 1])
  }

  lemma {:induction false} DistStep(x: seq<real>, c: seq<real>, n: nat)
    requires n < |x| && n < |c|
    ensures Dist(x[..n + 1], c[..n + 1]) == Dist(x[..n], c[..n]) + Times(x[n] - c[n], x[n] - c[n])
  {
    hide Times;
    assert x[..n + 1][..n] == x[..n] && c[..n + 1][..n] == c[..n];
  }

  lemma {:induction false} DistConcat(x: seq<real>, c: seq<real>, y: seq<real>, d: seq<real>)
    requires |x| == |c| && |y| == |d|
    ensures Dist(x + y, c + d) == Dist(x, c) + Dist(y, d)
  {
    hide Times;
    if y == [] {
      assert x + y == x && c + d == c;
    } else {
      var n := |y| - 1;
      DistConcat(x, c, y[..n], d[..n]);
      assert (x + y)[..|x| + n] == x + y[..n] && (c + d)[..|c| + n] == c + d[..n];
    }
  }

  /** The squared distance is the energy of the difference: it is zero only between equal
      vectors. */
  lemma {:induction false} DistIsEnergy(x: seq<real>, c: seq<real>)
    requires |x| == |c|
    ensures var d := Axpy(x, -1.0, c); Dist(x, c) == Dot(d, d)
    ensures Dist(x, c) >= 0.0 && (Dist(x, c) == 0.0 <==> x == c)
  {
    var d := Axpy(x, -1.0, c);
    DistIsDot(x, c);
    DotSelfNonNegative(d);
    if x == c {
      forall i | 0 <= i < |d| ensures d[i] == 0.0 {
      }
      DotZero(d, d);
    } else {
      var i :| 0 <= i < |x| && x[i] != c[i];
      DotSelfPositive(d, i);
    }
  }

  lemma {:induction false} DistIsDot(x: seq<real>, c: seq<real>)
    requires |x| == |c|
    ensures var d := Axpy(x, -1.0, c); Dist(x, c) == Dot(d, d)
  {
    if x != [] {
      var n := |x| - 1;
      DistIsDot(x[..n], c[..n]);
      AxpyPrefix(x, -1.0, c, n);
      var d := Axpy(x, -1.0, c);
      assert d[n] == x[n] - c[n];
      DotLast(d, d);
    }
  }

  /** Start of entry j of a codebook of vectors of one dimension. */
  function RowPos(dim: nat, j: nat): nat
    decreases j
  {
    if j == 0 then 0 else RowPos(dim, j - 1) + dim
  }

  lemma {:induction false} RowPosProduct(dim: nat, j: nat)
    ensures RowPos(dim, j) == j * dim
  {
    if j > 0 {
      RowPosProduct(dim, j - 1);
      assert j * dim == (j - 1) * dim + dim;
    }
  }

  lemma {:induction false} RowPosMonotone(dim: nat, i: nat, j: nat)
    requires i < j
    ensures RowPos(dim, i) + dim <= RowPos(dim, j)
    decreases j
  {
    if i < j - 1 {
      RowPosMonotone(dim, i, j - 1);
    }
  }

  /** Entry j of the codebook of n vectors that starts at `pos`. */
  function Entry(cb: seq<real>, pos: nat, dim: nat, n: nat, j: nat): (e: seq<real>)
    requires j < n && pos + RowPos(dim, n) <= |cb|
    ensures |e| == dim
  {
    RowPosMonotone(dim, j, n);
    cb[pos + RowPos(dim, j)..pos + RowPos(dim, j) + dim]
  }

  /** Entry `best` is the first of the nearest entries; when no distance is below the
      largest float the first entry is taken unseen. */
  ghost predicate Chosen(cb: seq<real>, pos: nat, dim: nat, n: nat, x: seq<real>, best: nat)
    requires best < n && pos + RowPos(dim, n) <= |cb| && |x| == dim
  {
    if exists j :: 0 <= j < n && Dist(x, Entry(cb, pos, dim, n, j)) < FLOAT_MAX then
      && (forall j :: 0 <= j < n ==> Dist(x, Entry(cb, pos, dim, n, best)) <= Dist(x, Entry(cb, pos, dim, n, j)))
      && (forall j :: 0 <= j < best ==> Dist(x, Entry(cb, pos, dim, n, best)) < Dist(x, Entry(cb, pos, dim, n, j)))
    else best == 0
  }

  /** Distance from a vector in an array to a codebook entry. */
  method DistanceTo(cb: array<real>, pos: nat, xs: array<real>, xPos: nat, dim: nat) returns (dist: real)
    requires 0 < dim && pos + dim <= cb.Length && xPos + dim <= xs.Length
    ensures dist == Dist(xs[xPos..xPos + dim], cb[pos..pos + dim])
  {
    ghost var x, c := xs[xPos..xPos + dim], cb[pos..pos + dim];
    dist := xs[xPos] - cb[pos];
    dist := dist * dist;
    DistStep(x, c, 0);
    var i := 1;
    while i < dim
      invariant 1 <= i <= dim
      invariant dist == Dist(x[..i], c[..i])
    {
      var tmp := xs[xPos + i] - cb[pos + i];
      DistStep(x, c, i);
      dist := dist + tmp * tmp;
      i := i + 1;
    }
    assert x[..i] == x && c[..i] == c;
  }

  /** What the search knows after the first j entries. */
  ghost predicate SearchedUpTo(cb: seq<real>, pos: nat, dim: nat, n: nat, x: seq<real>, j: nat,
                               best: nat, mindist: real)
    requires j <= n && pos + RowPos(dim, n) <= |cb| && |x| == dim
  {
    if mindist < FLOAT_MAX then
      && best < j && mindist == Dist(x, Entry(cb, pos, dim, n, best))
      && (forall i :: 0 <= i < j ==> mindist <= Dist(x, Entry(cb, pos, dim, n, i)))
      && (forall i :: 0 <= i < best ==> mindist < Dist(x, Entry(cb, pos, dim, n, i)))
    else
      && best == 0 && mindist == FLOAT_MAX
      && (forall i :: 0 <= i < j ==> Dist(x, Entry(cb, pos, dim, n, i)) >= FLOAT_MAX)
  }

  lemma {:induction false} NothingSearched(cb: seq<real>, pos: nat, dim: nat, n: nat, x: seq<real>)
    requires pos + RowPos(dim, n) <= |cb| && |x| == dim
    ensures SearchedUpTo(cb, pos, dim, n, x, 0, 0, FLOAT_MAX)
  {
  }

  lemma {:induction false} SearchedOneMore(cb: seq<real>, pos: nat, dim: nat, n: nat, x: seq<real>, j: nat,
                                           best: nat, mindist: real, dist: real)
    requires j < n && pos + RowPos(dim, n) <= |cb| && |x| == dim
    requires SearchedUpTo(cb, pos, dim, n, x, j, best, mindist) && dist == Dist(x, Entry(cb, pos, dim, n, j))
    ensures if dist < mindist then SearchedUpTo(cb, pos, dim, n, x, j + 1, j, dist)
            else SearchedUpTo(cb, pos, dim, n, x, j + 1, best, mindist)
  {
    hide Dist, Entry;
  }

  lemma {:induction false} SearchedAll(cb: seq<real>, pos: nat, dim: nat, n: nat, x: seq<real>, best: nat,
                                       mindist: real)
    requires 0 < n && pos + RowPos(dim, n) <= |cb| && |x| == dim
    requires SearchedUpTo(cb, pos, dim, n, x, n, best, mindist)
    ensures best < n && Chosen(cb, pos, dim, n, x, best)
  {
    hide Dist, Entry;
  }

  method SearchVq(cb: array<real>, cbPos: nat, xs: array<real>, xPos: nat, n: nat, dim: nat) returns (minindex: nat)
    requires 0 < dim && 0 < n && cbPos + RowPos(dim, n) <= cb.Length && xPos + dim <= xs.Length
    ensures minindex < n && Chosen(cb[..], cbPos, dim, n, xs[xPos..xPos + dim], minindex)
  {
    hide Dist, SearchedUpTo, Chosen;
    ghost var c, x := cb[..], xs[xPos..xPos + dim];
    var pos := 0;
    var mindist := FLOAT_MAX;
    minindex := 0;
    var j := 0;
    assert SearchedUpTo(c, cbPos, dim, n, x, j, minindex, mindist) by {
      NothingSearched(c, cbPos, dim, n, x);
    }
    while j < n
      invariant 0 <= j <= n && pos == RowPos(dim, j)
      invariant SearchedUpTo(c, cbPos, dim, n, x, j, minindex, mindist)
    {
      RowPosMonotone(dim, j, n);
      var dist := DistanceTo(cb, cbPos + pos, xs, xPos, dim);
      assert dist == Dist(x, Entry(c, cbPos, dim, n, j));
      SearchedOneMore(c, cbPos, dim, n, x, j, minindex, mindist, dist);
      if dist < mindist {
        mindist := dist;
        minindex := j;
      }
      pos := pos + dim;
      j := j + 1;
    }
    SearchedAll(c, cbPos, dim, n, x, minindex, mindist);
  }

  /** Copies entry `index` of a codebook. */
  method CopyEntry(dst: array<real>, dPos: nat, cb: array<real>, cbPos: nat, index: nat, dim: nat, n: nat)
    requires index < n && cbPos + RowPos(dim, n) <= cb.Length && dPos + dim <= dst.Length && dst != cb
    modifies dst
    ensures dst[dPos..dPos + dim] == Entry(cb[..], cbPos, dim, n, index)
    ensures forall q :: 0 <= q < dst.Length && !(dPos <= q < dPos + dim) ==> dst[q] == old(dst[q])
  {
    RowPosProduct(dim, index);
    RowPosMonotone(dim, index, n);
    var row := cbPos + index * dim;
    var i := 0;
    while i < dim
      invariant 0 <= i <= dim
      invariant forall q :: dPos <= q < dPos + i ==> dst[q] == cb[row + (q - dPos)]
      invariant forall q :: 0 <= q < dst.Length && !(dPos <= q < dPos + dim) ==> dst[q] == old(dst[q])
    {
      dst[dPos + i] := cb[row + i];
      i := i + 1;
    }
    assert dst[dPos..dPos + dim] == cb[row..row + dim];
  }

  /** Vector quantisation by exhaustive search. */
  method Vq(xq: array<real>, qPos: nat, cb: array<real>, cbPos: nat, xs: array<real>, xPos: nat, n: nat, dim: nat)
    returns (index: nat)
    requires 0 < dim && 0 < n && cbPos + RowPos(dim, n) <= cb.Length
    requires xPos + dim <= xs.Length && qPos + dim <= xq.Length && xq != cb && xq != xs
    modifies xq
    ensures index < n && Chosen(cb[..], cbPos, dim, n, xs[xPos..xPos + dim], index)
    ensures xq[qPos..qPos + dim] == Entry(cb[..], cbPos, dim, n, index)
    ensures forall q :: 0 <= q < xq.Length && !(qPos <= q < qPos + dim) ==> xq[q] == old(xq[q])
  {
    hide Chosen, Entry;
    index := SearchVq(cb, cbPos, xs, xPos, n, dim);
    CopyEntry(xq, qPos, cb, cbPos, index, dim, n);
  }

  // ----- split vector --------------------------------------------------------------

  function XPos(dims: seq<nat>, i: nat): nat
    requires i <= |dims|
  {
    if i == 0 then 0 else XPos(dims, i - 1) + dims[i - 1]
  }

  function CbPos(dims: seq<nat>, sizes: seq<nat>, i: nat): nat
    requires i <= |dims| && i <= |sizes|
  {
    if i == 0 then 0 else CbPos(dims, sizes, i - 1) + RowPos(dims[i - 1], sizes[i - 1])
  }

  lemma {:induction false} XPosMonotone(dims: seq<nat>, i: nat, j: nat)
    requires i < j <= |dims|
    ensures XPos(dims, i) + dims[i] <= XPos(dims, j)
  {
    if i < j - 1 {
      XPosMonotone(dims, i, j - 1);
    }
  }

  lemma {:induction false} CbPosMonotone(dims: seq<nat>, sizes: seq<nat>, i: nat, j: nat)
    requires i < j <= |dims| && j <= |sizes|
    ensures CbPos(dims, sizes, i) + RowPos(dims[i], sizes[i]) <= CbPos(dims, sizes, j)
  {
    if i < j - 1 {
      CbPosMonotone(dims, sizes, i, j - 1);
    }
  }

  /** A split quantiser: the codebooks of all splits, one after the other in `cb`. */
  ghost predicate IsSplit(cb: seq<real>, dims: seq<nat>, sizes: seq<nat>) {
    && |dims| == |sizes|
    && (forall i :: 0 <= i < |dims| ==> dims[i] > 0 && sizes[i] > 0)
    && CbPos(dims, sizes, |dims|) <= |cb|
  }

  function SplitEntry(cb: seq<real>, dims: seq<nat>, sizes: seq<nat>, i: nat, j: nat): (e: seq<real>)
    requires IsSplit(cb, dims, sizes) && i < |dims| && j < sizes[i]
    ensures |e| == dims[i]
  {
    CbPosMonotone(dims, sizes, i, |dims|);
    Entry(cb, CbPos(dims, sizes, i), dims[i], sizes[i], j)
  }

  /** Indices for the first splits. */
  ghost predicate ValidIndices(dims: seq<nat>, sizes: seq<nat>, index: seq<nat>) {
    |index| <= |dims| && |index| <= |sizes| && forall i :: 0 <= i < |index| ==> index[i] < sizes[i]
  }

  /** The vector that a list of split indices denotes. */
  function Dequantised(cb: seq<real>, dims: seq<nat>, sizes: seq<nat>, index: seq<nat>): (v: seq<real>)
    requires IsSplit(cb, dims, sizes) && ValidIndices(dims, sizes, index)
    ensures |v| == XPos(dims, |index|)
  {
    if index == [] then []
    else
      var n := |index| - 1;
      Dequantised(cb, dims, sizes, index[..n]) + SplitEntry(cb, dims, sizes, n, index[n])
  }

  lemma {:induction false} DequantisedStep(cb: seq<real>, dims: seq<nat>, sizes: seq<nat>, index: seq<nat>, j: nat)
    requires IsSplit(cb, dims, sizes) && ValidIndices(dims, sizes, index)
    requires |index| < |dims| && j < sizes[|index|]
    ensures Dequantised(cb, dims, sizes, index + [j])
            == Dequantised(cb, dims, sizes, index) + SplitEntry(cb, dims, sizes, |index|, j)
  {
    assert (index + [j])[..|index|] == index;
  }

  /** The part of a vector that split i quantises. */
  function Part(x: seq<real>, dims: seq<nat>, i: nat): (p: seq<real>)
    requires i < |dims| && XPos(dims, |dims|) <= |x|
    ensures |p| == dims[i]
  {
    XPosMonotone(dims, i, |dims|);
    x[XPos(dims, i)..XPos(dims, i) + dims[i]]
  }

  ghost predicate ChosenSplit(cb: seq<real>, dims: seq<nat>, sizes: seq<nat>, x: seq<real>, i: nat, best: nat)
    requires IsSplit(cb, dims, sizes) && i < |dims| && XPos(dims, |dims|) <= |x| && best < sizes[i]
  {
    CbPosMonotone(dims, sizes, i, |dims|);
    Chosen(cb, CbPos(dims, sizes, i), dims[i], sizes[i], Part(x, dims, i), best)
  }

  /** Every split of the list took its own nearest entry. */
  ghost predicate AllChosen(cb: seq<real>, dims: seq<nat>, sizes: seq<nat>, x: seq<real>, index: seq<nat>)
    requires IsSplit(cb, dims, sizes) && XPos(dims, |dims|) <= |x|
  {
    ValidIndices(dims, sizes, index)
    && forall i :: 0 <= i < |index| ==> ChosenSplit(cb, dims, sizes, x, i, index[i])
  }

  /** Split vector quantisation: each part by its own codebook. */
  method SplitVQ(qX: array<real>, qPos: nat, index: array<nat>, iPos: nat, xs: array<real>, xPos: nat,
                 cb: array<real>, dims: seq<nat>, sizes: seq<nat>)
    requires IsSplit(cb[..], dims, sizes)
    requires xPos + XPos(dims, |dims|) <= xs.Length && qPos + XPos(dims, |dims|) <= qX.Length
    requires iPos + |dims| <= index.Length && qX != cb && qX != xs
    modifies qX, index
    ensures AllChosen(cb[..], dims, sizes, xs[xPos..xPos + XPos(dims, |dims|)], index[iPos..iPos + |dims|])
    ensures qX[qPos..qPos + XPos(dims, |dims|)] == Dequantised(cb[..], dims, sizes, index[iPos..iPos + |dims|])
    ensures forall q :: 0 <= q < qX.Length && !(qPos <= q < qPos + XPos(dims, |dims|)) ==> qX[q] == old(qX[q])
    ensures forall q :: 0 <= q < index.Length && !(iPos <= q < iPos + |dims|) ==> index[q] == old(index[q])
  {
    hide Chosen, Entry, Dequantised, ChosenSplit, SplitEntry, XPos, CbPos, RowPos, Part;
    ghost var c, n := cb[..], |dims|;
    ghost var x := xs[xPos..xPos + XPos(dims, n)];
    ghost var done: seq<nat> := [];
    NothingDequantised(c, dims, sizes);
    var cbAt: nat, xAt: nat := 0, 0;
    var i := 0;
    while i < |dims|
      invariant 0 <= i <= n && |done| == i && xAt == XPos(dims, i) && cbAt == CbPos(dims, sizes, i)
      invariant xAt <= XPos(dims, n)
      invariant AllChosen(c, dims, sizes, x, done)
      invariant index[iPos..iPos + i] == done
      invariant qX[qPos..qPos + xAt] == Dequantised(c, dims, sizes, done)
      invariant forall q :: 0 <= q < qX.Length && !(qPos <= q < qPos + XPos(dims, n)) ==> qX[q] == old(qX[q])
      invariant forall q :: 0 <= q < index.Length && !(iPos <= q < iPos + n) ==> index[q] == old(index[q])
    {
      PositionsStep(c, dims, sizes, i);
      ghost var before := qX[..];
      var j := Vq(qX, qPos + xAt, cb, cbAt, xs, xPos + xAt, sizes[i], dims[i]);
      PartOfSlice(xs[..], xPos, dims, i);
      index[iPos + i] := j;
      assert index[iPos..iPos + i + 1] == done + [j];
      IsChosenSplit(c, dims, sizes, x, i, j);
      EntryIsSplitEntry(c, dims, sizes, i, j);
      DequantisedStep(c, dims, sizes, done, j);
      SliceExtended(before, qX[..], qPos, xAt, dims[i]);
      done := done + [j];
      xAt := xAt + dims[i];
      cbAt := cbAt + dims[i] * sizes[i];
      i := i + 1;
    }
  }

  lemma {:induction false} NothingDequantised(cb: seq<real>, dims: seq<nat>, sizes: seq<nat>)
    requires IsSplit(cb, dims, sizes)
    ensures Dequantised(cb, dims, sizes, []) == [] && XPos(dims, 0) == 0 && CbPos(dims, sizes, 0) == 0
  {
  }

  lemma {:induction false} PositionsStep(cb: seq<real>, dims: seq<nat>, sizes: seq<nat>, i: nat)
    requires IsSplit(cb, dims, sizes) && i < |dims|
    ensures XPos(dims, i + 1) == XPos(dims, i) + dims[i] <= XPos(dims, |dims|)
    ensures CbPos(dims, sizes, i + 1) == CbPos(dims, sizes, i) + dims[i] * sizes[i]
    ensures CbPos(dims, sizes, i) + RowPos(dims[i], sizes[i]) <= |cb|
  {
    XPosMonotone(dims, i, |dims|);
    CbPosMonotone(dims, sizes, i, |dims|);
    RowPosProduct(dims[i], sizes[i]);
    assert sizes[i] * dims[i] == dims[i] * sizes[i];
  }

  lemma {:induction false} PartOfSlice(s: seq<real>, pos: nat, dims: seq<nat>, i: nat)
    requires i < |dims| && pos + XPos(dims, |dims|) <= |s|
    ensures pos + XPos(dims, i) + dims[i] <= |s|
    ensures Part(s[pos..pos + XPos(dims, |dims|)], dims, i) == s[pos + XPos(dims, i)..pos + XPos(dims, i) + dims[i]]
  {
    hide XPos;
    XPosMonotone(dims, i, |dims|);
    Sequences.SliceOfSlice(s, pos, XPos(dims, |dims|), XPos(dims, i), dims[i]);
  }

  lemma {:induction false} IsChosenSplit(cb: seq<real>, dims: seq<nat>, sizes: seq<nat>, x: seq<real>, i: nat,
                                         best: nat)
    requires IsSplit(cb, dims, sizes) && i < |dims| && XPos(dims, |dims|) <= |x| && best < sizes[i]
    requires CbPos(dims, sizes, i) + RowPos(dims[i], sizes[i]) <= |cb|
    ensures Chosen(cb, CbPos(dims, sizes, i), dims[i], sizes[i], Part(x, dims, i), best)
            ==> ChosenSplit(cb, dims, sizes, x, i, best)
  {
  }

  /** A slice grows by a window written behind it. */
  lemma {:induction false} SliceExtended(before: seq<real>, after: seq<real>, pos: nat, n: nat, w: nat)
    requires pos + n + w <= |before| == |after|
    requires forall q :: pos <= q < pos + n ==> after[q] == before[q]
    ensures after[pos..pos + n + w] == before[pos..pos + n] + after[pos + n..pos + n + w]
  {
  }

  ghost predicate HasCloseEntry(cb: seq<real>, dims: seq<nat>, sizes: seq<nat>, x: seq<real>, i: nat)
    requires IsSplit(cb, dims, sizes) && i < |dims| && XPos(dims, |dims|) <= |x|
  {
    exists j: nat | j < sizes[i] :: Dist(Part(x, dims, i), SplitEntry(cb, dims, sizes, i, j)) < FLOAT_MAX
  }

  lemma {:induction false} HeadAndPart(x: seq<real>, dims: seq<nat>, n: nat)
    requires n < |dims| && XPos(dims, |dims|) <= |x|
    ensures XPos(dims, n) <= XPos(dims, n + 1) <= |x|
    ensures x[..XPos(dims, n + 1)] == x[..XPos(dims, n)] + Part(x, dims, n)
  {
    XPosMonotone(dims, n, |dims|);
  }

  /** The distance of the first splits of a combination. */
  function SplitDist(cb: seq<real>, dims: seq<nat>, sizes: seq<nat>, x: seq<real>, index: seq<nat>): real
    requires IsSplit(cb, dims, sizes) && ValidIndices(dims, sizes, index) && XPos(dims, |dims|) <= |x|
  {
    XPosUpTo(dims, |index|);
    Dist(x[..XPos(dims, |index|)], Dequantised(cb, dims, sizes, index))
  }

  lemma {:induction false} XPosUpTo(dims: seq<nat>, n: nat)
    requires n <= |dims|
    ensures XPos(dims, n) <= XPos(dims, |dims|)
  {
    if n < |dims| {
      XPosMonotone(dims, n, |dims|);
    }
  }

  /** It is the distance of one split less plus that of the last. */
  lemma {:induction false} SplitDistStep(cb: seq<real>, dims: seq<nat>, sizes: seq<nat>, x: seq<real>, h: seq<nat>,
                                         j: nat)
    requires IsSplit(cb, dims, sizes) && ValidIndices(dims, sizes, h) && XPos(dims, |dims|) <= |x|
    requires |h| < |dims| && j < sizes[|h|]
    ensures SplitDist(cb, dims, sizes, x, h + [j])
            == SplitDist(cb, dims, sizes, x, h) + Dist(Part(x, dims, |h|), SplitEntry(cb, dims, sizes, |h|, j))
  {
    hide Dist, SplitEntry, Part, XPos, Dequantised;
    XPosUpTo(dims, |h|);
    XPosUpTo(dims, |h| + 1);
    HeadAndPart(x, dims, |h|);
    DequantisedStep(cb, dims, sizes, h, j);
    DistConcat(x[..XPos(dims, |h|)], Dequantised(cb, dims, sizes, h),
               Part(x, dims, |h|), SplitEntry(cb, dims, sizes, |h|, j));
  }

  /** When every split has an entry at a representable distance, the result is nearest
      over all combinations of entries, not only split by split. */
  lemma {:induction false} SplitIsGloballyNearest(cb: seq<real>, dims: seq<nat>, sizes: seq<nat>, x: seq<real>,
                                                  index: seq<nat>, other: seq<nat>)
    requires IsSplit(cb, dims, sizes) && XPos(dims, |dims|) <= |x|
    requires AllChosen(cb, dims, sizes, x, index) && ValidIndices(dims, sizes, other) && |other| == |index|
    requires forall i :: 0 <= i < |index| ==> HasCloseEntry(cb, dims, sizes, x, i)
    ensures SplitDist(cb, dims, sizes, x, index) <= SplitDist(cb, dims, sizes, x, other)
  {
    hide Dist, Part, SplitEntry, ChosenSplit, HasCloseEntry, SplitDist, XPos;
    if index == [] {
      assert other == [] == index;
    } else {
      var n := |index| - 1;
      assert AllChosen(cb, dims, sizes, x, index[..n]);
      SplitIsGloballyNearest(cb, dims, sizes, x, index[..n], other[..n]);
      SplitDistStep(cb, dims, sizes, x, index[..n], index[n]);
      SplitDistStep(cb, dims, sizes, x, other[..n], other[n]);
      assert index == index[..n] + [index[n]] && other == other[..n] + [other[n]];
      SplitBeats(cb, dims, sizes, x, n, index[n], other[n]);
    }
  }

  lemma {:induction false} SplitBeats(cb: seq<real>, dims: seq<nat>, sizes: seq<nat>, x: seq<real>, i: nat, best: nat,
                                      other: nat)
    requires IsSplit(cb, dims, sizes) && i < |dims| && XPos(dims, |dims|) <= |x| && best < sizes[i] && other < sizes[i]
    requires ChosenSplit(cb, dims, sizes, x, i, best) && HasCloseEntry(cb, dims, sizes, x, i)
    ensures Dist(Part(x, dims, i), SplitEntry(cb, dims, sizes, i, best))
            <= Dist(Part(x, dims, i), SplitEntry(cb, dims, sizes, i, other))
  {
    hide Dist, Entry;
    CbPosMonotone(dims, sizes, i, |dims|);
    var j: nat :| j < sizes[i] && Dist(Part(x, dims, i), SplitEntry(cb, dims, sizes, i, j)) < FLOAT_MAX;
    EntryIsSplitEntry(cb, dims, sizes, i, j);
    EntryIsSplitEntry(cb, dims, sizes, i, best);
    EntryIsSplitEntry(cb, dims, sizes, i, other);
  }

  // ----- line spectral frequencies -----------------------------------------------------

  const DIM_LSF_CB: seq<nat> := [3, 3, 4]
  const SIZE_LSF_CB: seq<nat> := [64, 128, 128]

  lemma {:induction false} LsfLayout()
    ensures XPos(DIM_LSF_CB, 1) == 3 && XPos(DIM_LSF_CB, 2) == 6 && XPos(DIM_LSF_CB, 3) == LPC_FILTERORDER
    ensures CbPos(DIM_LSF_CB, SIZE_LSF_CB, 1) == 192 && CbPos(DIM_LSF_CB, SIZE_LSF_CB, 2) == 576
    ensures CbPos(DIM_LSF_CB, SIZE_LSF_CB, 3) == 1088
  {
    RowPosProduct(3, 64);
    RowPosProduct(3, 128);
    RowPosProduct(4, 128);
    assert XPos(DIM_LSF_CB, 2) == XPos(DIM_LSF_CB, 1) + 3;
    assert CbPos(DIM_LSF_CB, SIZE_LSF_CB, 2) == CbPos(DIM_LSF_CB, SIZE_LSF_CB, 1) + RowPos(3, 128);
  }

  /** Quantises one or two sets of line spectral frequencies. */
  method SimplelsfQ(lsfdeq: array<real>, index: array<nat>, lsf: array<real>, lpcN: nat, lsfCbTbl: array<real>)
    requires IsSplit(lsfCbTbl[..], DIM_LSF_CB, SIZE_LSF_CB)
    requires 1 <= lpcN <= 2 && LPC_FILTERORDER * lpcN <= lsf.Length && LPC_FILTERORDER * lpcN <= lsfdeq.Length
    requires LSF_NSPLIT * lpcN <= index.Length && lsfdeq != lsf && lsfdeq != lsfCbTbl
    modifies lsfdeq, index
    ensures XPos(DIM_LSF_CB, 3) == 10
    ensures forall s :: 0 <= s < lpcN ==>
              && AllChosen(lsfCbTbl[..], DIM_LSF_CB, SIZE_LSF_CB, lsf[10 * s..10 * s + 10], index[3 * s..3 * s + 3])
              && lsfdeq[10 * s..10 * s + 10]
                 == Dequantised(lsfCbTbl[..], DIM_LSF_CB, SIZE_LSF_CB, index[3 * s..3 * s + 3])
  {
    hide AllChosen, Dequantised, IsSplit;
    LsfLayout();
    SplitVQ(lsfdeq, 0, index, 0, lsf, 0, lsfCbTbl, DIM_LSF_CB, SIZE_LSF_CB);
    ghost var d, x := lsfdeq[0..10], index[0..3];
    if lpcN == 2 {
      SplitVQ(lsfdeq, LPC_FILTERORDER, index, LSF_NSPLIT, lsf, LPC_FILTERORDER, lsfCbTbl, DIM_LSF_CB, SIZE_LSF_CB);
      assert lsfdeq[0..10] == d && index[0..3] == x;
    }
  }

  /** Looks up one set of line spectral frequencies. */
  method LookUpSet(lsfdeq: array<real>, dPos: nat, index: array<nat>, iPos: nat, cb: array<real>,
                   dims: seq<nat>, sizes: seq<nat>)
    requires IsSplit(cb[..], dims, sizes) && iPos + |dims| <= index.Length
    requires ValidIndices(dims, sizes, index[iPos..iPos + |dims|])
    requires dPos + XPos(dims, |dims|) <= lsfdeq.Length && lsfdeq != cb
    modifies lsfdeq
    ensures lsfdeq[dPos..dPos + XPos(dims, |dims|)]
            == Dequantised(cb[..], dims, sizes, index[iPos..iPos + |dims|])
    ensures forall q :: 0 <= q < lsfdeq.Length && !(dPos <= q < dPos + XPos(dims, |dims|)) ==>
              lsfdeq[q] == old(lsfdeq[q])
  {
    hide Dequantised, Entry, SplitEntry, XPos, CbPos, RowPos;
    ghost var c, n := cb[..], |dims|;
    ghost var idx := index[iPos..iPos + n];
    NothingDequantised(c, dims, sizes);
    assert idx[..0] == [];
    var pos: nat, cbPos: nat := 0, 0;
    var i := 0;
    while i < |dims|
      invariant 0 <= i <= n && pos == XPos(dims, i) && cbPos == CbPos(dims, sizes, i)
      invariant pos <= XPos(dims, n) && ValidIndices(dims, sizes, idx[..i])
      invariant lsfdeq[dPos..dPos + pos] == Dequantised(c, dims, sizes, idx[..i])
      invariant forall q :: 0 <= q < lsfdeq.Length && !(dPos <= q < dPos + XPos(dims, n)) ==>
                  lsfdeq[q] == old(lsfdeq[q])
    {
      PositionsStep(c, dims, sizes, i);
      ghost var before := lsfdeq[..];
      CopyEntry(lsfdeq, dPos + pos, cb, cbPos, index[iPos + i], dims[i], sizes[i]);
      EntryIsSplitEntry(c, dims, sizes, i, idx[i]);
      DequantisedStep(c, dims, sizes, idx[..i], idx[i]);
      assert idx[..i + 1] == idx[..i] + [idx[i]];
      SliceExtended(before, lsfdeq[..], dPos, pos, dims[i]);
      pos := pos + dims[i];
      cbPos := cbPos + dims[i] * sizes[i];
      i := i + 1;
    }
    assert idx[..i] == idx;
  }

  lemma {:induction false} EntryIsSplitEntry(cb: seq<real>, dims: seq<nat>, sizes: seq<nat>, i: nat, j: nat)
    requires IsSplit(cb, dims, sizes) && i < |dims| && j < sizes[i]
    requires CbPos(dims, sizes, i) + RowPos(dims[i], sizes[i]) <= |cb|
    ensures SplitEntry(cb, dims, sizes, i, j) == Entry(cb, CbPos(dims, sizes, i), dims[i], sizes[i], j)
  {
  }

  /** The decoder's look-up of one or two sets. */
  method SimplelsfDEQ(lsfdeq: array<real>, index: array<nat>, lpcN: nat, lsfCbTbl: array<real>)
    requires IsSplit(lsfCbTbl[..], DIM_LSF_CB, SIZE_LSF_CB)
    requires 1 <= lpcN <= 2 && LPC_FILTERORDER * lpcN <= lsfdeq.Length && LSF_NSPLIT * lpcN <= index.Length
    requires forall s :: 0 <= s < lpcN ==> ValidIndices(DIM_LSF_CB, SIZE_LSF_CB, index[3 * s..3 * s + 3])
    requires lsfdeq != lsfCbTbl
    modifies lsfdeq
    ensures forall s :: 0 <= s < lpcN ==>
              lsfdeq[10 * s..10 * s + 10] == Dequantised(lsfCbTbl[..], DIM_LSF_CB, SIZE_LSF_CB, index[3 * s..3 * s + 3])
  {
    hide Dequantised, IsSplit, ValidIndices;
    LsfLayout();
    assert ValidIndices(DIM_LSF_CB, SIZE_LSF_CB, index[3 * 0..3 * 0 + 3]);
    LookUpSet(lsfdeq, 0, index, 0, lsfCbTbl, DIM_LSF_CB, SIZE_LSF_CB);
    ghost var d := lsfdeq[0..10];
    if lpcN > 1 {
      assert ValidIndices(DIM_LSF_CB, SIZE_LSF_CB, index[3 * 1..3 * 1 + 3]);
      LookUpSet(lsfdeq, LPC_FILTERORDER, index, LSF_NSPLIT, lsfCbTbl, DIM_LSF_CB, SIZE_LSF_CB);
      assert lsfdeq[0..10] == d;
    }
  }

  /** The decoder looks up exactly the vector that the encoder went on with. */
  method LsfAgree(lsf: array<real>, lpcN: nat, lsfCbTbl: array<real>, index: array<nat>,
                  encoded: array<real>, decoded: array<real>)
    requires IsSplit(lsfCbTbl[..], DIM_LSF_CB, SIZE_LSF_CB)
    requires 1 <= lpcN <= 2 && LPC_FILTERORDER * lpcN <= lsf.Length
    requires encoded.Length == decoded.Length == LPC_FILTERORDER * lpcN && LSF_NSPLIT * lpcN <= index.Length
    requires encoded != lsf && encoded != lsfCbTbl && decoded != encoded && decoded != lsfCbTbl && decoded != lsf
    modifies encoded, decoded, index
    ensures decoded[..] == encoded[..]
  {
    hide Dequantised, IsSplit;
    SimplelsfQ(encoded, index, lsf, lpcN, lsfCbTbl);
    SimplelsfDEQ(decoded, index, lpcN, lsfCbTbl);
    assert encoded[10 * 0..10 * 0 + 10] == decoded[10 * 0..10 * 0 + 10];
    if lpcN == 2 {
      assert encoded[10 * 1..10 * 1 + 10] == decoded[10 * 1..10 * 1 + 10];
      assert encoded[..] == encoded[0..10] + encoded[10..20];
      assert decoded[..] == decoded[0..10] + decoded[10..20];
    } else {
      assert encoded[..] == encoded[0..10] && decoded[..] == decoded[0..10];
    }
  }
}
