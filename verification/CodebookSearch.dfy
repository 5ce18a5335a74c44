/**
 The codebook search of the iLBC encoder. It keeps running energies and cross products
 instead of building every vector; it is proved to judge each candidate by the inner
 products of the codebook vector that the index denotes, and to keep the best one.
 */
module CodebookSearch {
  import opened CodecConstants
  import opened Vectors
  import opened Codebook

  const CB_MAXGAIN := 1.3
  const CB_RESRANGE := 34
  const NO_MEASURE := -10000000.0

  // ----- specification --------------------------------------------------------

  datatype Best = Best(index: nat, measure: real, gain: real)

  function Energy(v: seq<real>): real { Dot(v, v) }

  function InvEnergy(energy: real): real {
    if energy > 0.0 then 1.0 / (energy + EPS) else 0.0
  }

  /** The measure of a candidate; in the first stage only positive correlation counts. */
  function Measure(stage: nat, cross: real, inv: real): real {
    if stage == 0 && !(cross > 0.0) then NO_MEASURE else cross * cross * inv
  }

  /** A candidate replaces the best so far when its measure is larger and its gain is
      below the limit. */
  function Consider(b: Best, stage: nat, index: nat, cross: real, inv: real): Best {
    if Measure(stage, cross, inv) > b.measure && Abs(cross * inv) < CB_MAXGAIN
    then Best(index, Measure(stage, cross, inv), cross * inv)
    else b
  }

  /** Considering the codebook vector of one index, built outright. */
  function ConsiderVector(b: Best, stage: nat, m: seq<real>, target: seq<real>, index: nat): Best
    requires Usable(|m|, |target|) && index < 2 * BaseSize(|m|, |target|)
  {
    var v := CodebookVector(m, index, |target|);
    Consider(b, stage, index, Dot(target, v), InvEnergy(Energy(v)))
  }

  /** The best of a list of indices, starting from `b`. */
  function BestOf(b: Best, stage: nat, m: seq<real>, target: seq<real>, indices: seq<nat>): Best
    requires Usable(|m|, |target|)
    requires forall i :: 0 <= i < |indices| ==> indices[i] < 2 * BaseSize(|m|, |target|)
  {
    if indices == [] then b
    else
      var n := |indices| - 1;
      ConsiderVector(BestOf(b, stage, m, target, indices[..n]), stage, m, target, indices[n])
  }

  /** Consecutive indices. */
  function Run(from: nat, n: nat): (r: seq<nat>)
    ensures |r| == n && forall i :: 0 <= i < n ==> r[i] == from + i
  {
    seq(n, i requires 0 <= i => from + i)
  }

  /** Whether a candidate may win: its gain is below the limit. */
  predicate Admissible(m: seq<real>, target: seq<real>, index: nat)
    requires Usable(|m|, |target|) && index < 2 * BaseSize(|m|, |target|)
  {
    var v := CodebookVector(m, index, |target|);
    Abs(Dot(target, v) * InvEnergy(Energy(v))) < CB_MAXGAIN
  }

  function MeasureOf(stage: nat, m: seq<real>, target: seq<real>, index: nat): real
    requires Usable(|m|, |target|) && index < 2 * BaseSize(|m|, |target|)
  {
    var v := CodebookVector(m, index, |target|);
    Measure(stage, Dot(target, v), InvEnergy(Energy(v)))
  }

  lemma {:induction false} ConsideredWins(b: Best, stage: nat, m: seq<real>, target: seq<real>, i: nat)
    requires Usable(|m|, |target|) && i < 2 * BaseSize(|m|, |target|)
    ensures var r := ConsiderVector(b, stage, m, target, i);
            && r.measure >= b.measure
            && (r == b || (r.index == i && Admissible(m, target, i) && r.measure == MeasureOf(stage, m, target, i)))
            && (Admissible(m, target, i) ==> MeasureOf(stage, m, target, i) <= r.measure)
  {
    hide Dot, InvEnergy, Measure, CodebookVector, Abs;
  }

  /** The result is the start value or a listed candidate with its own measure, and no
      admissible listed candidate measures more. */
  lemma {:induction false} BestOfIsMaximal(b: Best, stage: nat, m: seq<real>, target: seq<real>, indices: seq<nat>)
    requires Usable(|m|, |target|)
    requires forall i :: 0 <= i < |indices| ==> indices[i] < 2 * BaseSize(|m|, |target|)
    ensures var r := BestOf(b, stage, m, target, indices);
            && r.measure >= b.measure
            && (r == b || (r.index in indices && Admissible(m, target, r.index)
                           && r.measure == MeasureOf(stage, m, target, r.index)))
            && (forall i :: 0 <= i < |indices| && Admissible(m, target, indices[i]) ==>
                  MeasureOf(stage, m, target, indices[i]) <= r.measure)
  {
    hide Dot, InvEnergy, Measure, CodebookVector, Abs;
    if indices != [] {
      var n := |indices| - 1;
      BestOfIsMaximal(b, stage, m, target, indices[..n]);
      var p := BestOf(b, stage, m, target, indices[..n]);
      var r := BestOf(b, stage, m, target, indices);
      ConsideredWins(p, stage, m, target, indices[n]);
      hide Admissible, MeasureOf, ConsiderVector;
      forall i | 0 <= i < |indices| && Admissible(m, target, indices[i])
        ensures MeasureOf(stage, m, target, indices[i]) <= r.measure
      {
        if i < n {
          assert indices[..n][i] == indices[i];
        }
      }
    }
  }

  lemma {:induction false} BestOfNone(b: Best, stage: nat, m: seq<real>, target: seq<real>, from: nat)
    requires Usable(|m|, |target|)
    ensures BestOf(b, stage, m, target, Run(from, 0)) == b
  {
  }

  lemma {:induction false} BestOfStep(b: Best, stage: nat, m: seq<real>, target: seq<real>, from: nat, n: nat)
    requires Usable(|m|, |target|) && from + n < 2 * BaseSize(|m|, |target|)
    ensures BestOf(b, stage, m, target, Run(from, n + 1))
            == ConsiderVector(BestOf(b, stage, m, target, Run(from, n)), stage, m, target, from + n)
  {
    hide ConsiderVector;
    assert Run(from, n + 1)[..n] == Run(from, n);
  }

  lemma {:induction false} BestOfConcat(b: Best, stage: nat, m: seq<real>, target: seq<real>, p: seq<nat>, q: seq<nat>)
    requires Usable(|m|, |target|)
    requires forall i :: 0 <= i < |p| ==> p[i] < 2 * BaseSize(|m|, |target|)
    requires forall i :: 0 <= i < |q| ==> q[i] < 2 * BaseSize(|m|, |target|)
    ensures BestOf(b, stage, m, target, p + q) == BestOf(BestOf(b, stage, m, target, p), stage, m, target, q)
  {
    hide ConsiderVector;
    if q == [] {
      assert p + q == p;
    } else {
      BestOfConcat(b, stage, m, target, p, q[..|q| - 1]);
      assert (p + q)[..|p + q| - 1] == p + q[..|q| - 1];
    }
  }

  /** The stored energies of a run of indices are those of the vectors. */
  ghost predicate EnergiesKnown(energy: seq<real>, invenergy: seq<real>, m: seq<real>, len: nat, from: nat, n: nat)
    requires Usable(|m|, len) && from + n <= 2 * BaseSize(|m|, len)
  {
    && from + n <= |energy| && from + n <= |invenergy|
    && forall i :: from <= i < from + n ==>
         && energy[i] == Energy(CodebookVector(m, i, len))
         && invenergy[i] == InvEnergy(energy[i])
  }

  // ----- running energies -------------------------------------------------------

  /** Moving a window one sample back: the new first sample comes in, the old last one
      goes out. */
  lemma {:induction false} SlideEnergy(s: seq<real>, p: nat, len: nat)
    requires 0 < p && 0 < len && p + len <= |s|
    ensures Energy(s[p - 1..p - 1 + len])
            == Energy(s[p..p + len]) + Times(s[p - 1], s[p - 1]) - Times(s[p + len - 1], s[p + len - 1])
  {
    hide Times;
    var a, b := s[p - 1..p - 1 + len], s[p..p + len];
    DotFirst(a);
    DotLast(b, b);
    assert a[1..] == b[..len - 1];
  }

  lemma {:induction false} DotFirst(a: seq<real>)
    requires |a| > 0
    ensures Dot(a, a) == Times(a[0], a[0]) + Dot(a[1..], a[1..])
  {
    DotSplit(a, a, 1);
    assert a[..1] == [a[0]];
    DotLast([a[0]], [a[0]]);
    assert [a[0]][..0] == [];
  }

  /** Cross product of the target with the samples from `pp` on. */
  method CrossDot(target: array<real>, buf: array<real>, pp: nat, len: nat) returns (crossDot: real)
    requires len <= target.Length && pp + len <= buf.Length
    ensures crossDot == Dot(target[..len], buf[pp..pp + len])
  {
    ghost var t, v := target[..len], buf[pp..pp + len];
    crossDot := 0.0;
    var j := 0;
    while j < len
      invariant 0 <= j <= len
      invariant crossDot == Dot(t[..j], v[..j])
    {
      DotStep(t, v, j);
      crossDot := crossDot + target[j] * buf[pp + j];
      j := j + 1;
    }
    assert t[..j] == t && v[..j] == v;
  }

  method SumOfSquares(buf: array<real>, pp: nat, len: nat) returns (sum: real)
    requires pp + len <= buf.Length
    ensures sum == Energy(buf[pp..pp + len])
  {
    ghost var v := buf[pp..pp + len];
    sum := 0.0;
    var j := 0;
    while j < len
      invariant 0 <= j <= len
      invariant sum == Dot(v[..j], v[..j])
    {
      DotStep(v, v, j);
      sum := sum + buf[pp + j] * buf[pp + j];
      j := j + 1;
    }
    assert v[..j] == v;
  }

  /** The check of the program whether a measure is better. */
  method Update(b: Best, stage: nat, index: nat, crossDot: real, inv: real) returns (r: Best)
    ensures r == Consider(b, stage, index, crossDot, inv)
  {
    var measure: real;
    if stage == 0 {
      measure := NO_MEASURE;
      if crossDot > 0.0 {
        measure := crossDot * crossDot * inv;
      }
    } else {
      measure := crossDot * crossDot * inv;
    }
    var ftmp := crossDot * inv;
    r := b;
    if measure > b.measure && Abs(ftmp) < CB_MAXGAIN {
      r := Best(index, measure, ftmp);
    }
  }

  /** Window i of a memory, counted from its end: the plain vectors of the codebook. */
  lemma {:induction false} WindowIsVector(s: seq<real>, bPos: nat, lMem: nat, len: nat, i: nat)
    requires Usable(lMem, len) && bPos + lMem <= |s| && i < lMem - len + 1
    ensures FirstHalf(s[bPos..bPos + lMem], i, len) == s[bPos + lMem - len - i..bPos + lMem - i]
  {
    PlainWindow(s, bPos, lMem, len, i);
  }

  /** The energies of the first n windows of a memory, stored from `base` on: one
      direct sum, then one sample in and one out per window. */
  method SlidingEnergies(buf: array<real>, bPos: nat, lMem: nat, len: nat, n: nat, energy: array<real>, base: nat)
    requires Usable(lMem, len) && bPos + lMem <= buf.Length && 0 < n <= lMem - len + 1
    requires base + n <= energy.Length && energy != buf
    modifies energy
    ensures forall i :: base <= i < base + n ==>
              energy[i] == Energy(FirstHalf(buf[bPos..bPos + lMem], i - base, len))
    ensures forall q :: 0 <= q < energy.Length && !(base <= q < base + n) ==> energy[q] == old(energy[q])
  {
    hide Energy, FirstHalf;
    ghost var m := buf[bPos..bPos + lMem];
    energy[base] := SumOfSquares(buf, bPos + lMem - len, len);
    WindowIsVector(buf[..], bPos, lMem, len, 0);
    var i := 1;
    while i < n
      invariant 1 <= i <= n
      invariant forall k :: base <= k < base + i ==> energy[k] == Energy(FirstHalf(m, k - base, len))
      invariant forall q :: 0 <= q < energy.Length && !(base <= q < base + n) ==> energy[q] == old(energy[q])
    {
      WindowIsVector(buf[..], bPos, lMem, len, i - 1);
      WindowIsVector(buf[..], bPos, lMem, len, i);
      energy[base + i] := SlideOnce(buf, bPos + lMem - len - i, len, energy[base + i - 1]);
      i := i + 1;
    }
  }

  method SlideOnce(buf: array<real>, p: nat, len: nat, e: real) returns (e': real)
    requires 0 < len && p + 1 + len <= buf.Length
    requires e == Energy(buf[p + 1..p + 1 + len])
    ensures e' == Energy(buf[p..p + len])
  {
    e' := e + buf[p] * buf[p] - buf[p + len] * buf[p + len];
    SlideEnergy(buf[..], p + 1, len);
  }

  // ----- the sections of one stage ------------------------------------------------

  /** Full search of the plain vectors. The first stage also records their energies;
      later stages read them back. */
  method SearchPlain(buf: array<real>, bPos: nat, lMem: nat, lTarget: nat, range: nat, stage: nat,
                     target: array<real>, energy: array<real>, invenergy: array<real>, b: Best)
    returns (best: Best)
    requires Usable(lMem, lTarget) && bPos + lMem <= buf.Length && lTarget <= target.Length
    requires 0 < range <= lMem - lTarget + 1
    requires range <= energy.Length && range <= invenergy.Length
    requires energy != buf && invenergy != buf && energy != invenergy && energy != target && invenergy != target
    requires stage > 0 ==> EnergiesKnown(energy[..], invenergy[..], buf[bPos..bPos + lMem], lTarget, 0, range)
    modifies energy, invenergy
    ensures best == BestOf(b, stage, buf[bPos..bPos + lMem], target[..lTarget], Run(0, range))
    ensures EnergiesKnown(energy[..], invenergy[..], buf[bPos..bPos + lMem], lTarget, 0, range)
    ensures stage > 0 ==> energy[..] == old(energy[..]) && invenergy[..] == old(invenergy[..])
    ensures forall q :: range <= q < energy.Length ==> energy[q] == old(energy[q])
    ensures forall q :: range <= q < invenergy.Length ==> invenergy[q] == old(invenergy[q])
  {
    hide Energy, FirstHalf, Consider, InvEnergy, Dot, BestOf;
    ghost var m, t := buf[bPos..bPos + lMem], target[..lTarget];
    best := b;
    if stage == 0 {
      SlidingEnergies(buf, bPos, lMem, lTarget, range, energy, 0);
    }
    BestOfNone(b, stage, m, t, 0);
    var icount := 0;
    while icount < range
      invariant 0 <= icount <= range
      invariant forall i :: 0 <= i < range ==> energy[i] == Energy(CodebookVector(m, i, lTarget))
      invariant forall i :: 0 <= i < (if stage == 0 then icount else range) ==> invenergy[i] == InvEnergy(energy[i])
      invariant best == BestOf(b, stage, m, t, Run(0, icount))
      invariant forall q :: range <= q < invenergy.Length ==> invenergy[q] == old(invenergy[q])
      invariant stage > 0 ==> forall q :: 0 <= q < energy.Length ==> energy[q] == old(energy[q])
      invariant stage > 0 ==> forall q :: 0 <= q < invenergy.Length ==> invenergy[q] == old(invenergy[q])
      invariant forall q :: range <= q < energy.Length ==> energy[q] == old(energy[q])
    {
      var crossDot := CrossDot(target, buf, bPos + lMem - lTarget - icount, lTarget);
      WindowIsVector(buf[..], bPos, lMem, lTarget, icount);
      if stage == 0 {
        invenergy[icount] := Invert(energy[icount]);
      }
      best := Update(best, stage, icount, crossDot, invenergy[icount]);
      BestOfStep(b, stage, m, t, 0, icount);
      icount := icount + 1;
    }
  }

  method Invert(e: real) returns (inv: real)
    ensures inv == InvEnergy(e)
  {
    if e > 0.0 {
      inv := 1.0 / (e + EPS);
    } else {
      inv := 0.0;
    }
  }

  /** Search of a run of filtered vectors, from `first` up to `last`. The energies are
      known; their inverses are computed here. */
  method SearchFiltered(cbvectors: array<real>, lMem: nat, lTarget: nat, first: nat, last: nat, baseSize: nat,
                        stage: nat, target: array<real>, energy: array<real>, invenergy: array<real>, b: Best,
                        ghost m: seq<real>)
    returns (best: Best)
    requires Usable(lMem, lTarget) && |m| == lMem && baseSize == BaseSize(lMem, lTarget)
    requires lMem <= cbvectors.Length && cbvectors[..lMem] == Filtered(m) && lTarget <= target.Length
    requires first <= last <= lMem - lTarget + 1
    requires baseSize + last <= energy.Length && baseSize + last <= invenergy.Length
    requires energy != invenergy && invenergy != cbvectors && invenergy != target
    requires forall i :: baseSize + first <= i < baseSize + last ==>
               energy[i] == Energy(CodebookVector(m, i, lTarget))
    modifies invenergy
    ensures best == BestOf(b, stage, m, target[..lTarget], Run(baseSize + first, last - first))
    ensures forall i :: baseSize + first <= i < baseSize + last ==> invenergy[i] == InvEnergy(energy[i])
    ensures forall q :: 0 <= q < invenergy.Length && !(baseSize + first <= q < baseSize + last) ==>
              invenergy[q] == old(invenergy[q])
  {
    hide Energy, FirstHalf, Consider, InvEnergy, Dot, Filtered, BestOf;
    ghost var t := target[..lTarget];
    best := b;
    BestOfNone(b, stage, m, t, baseSize + first);
    var counter := first;
    var icount := baseSize + first;
    while icount < baseSize + last
      invariant first <= counter <= last && icount == baseSize + counter
      invariant forall i :: baseSize + first <= i < icount ==> invenergy[i] == InvEnergy(energy[i])
      invariant best == BestOf(b, stage, m, t, Run(baseSize + first, counter - first))
      invariant forall q :: 0 <= q < invenergy.Length && !(baseSize + first <= q < baseSize + last) ==>
                  invenergy[q] == old(invenergy[q])
    {
      var crossDot := CrossDot(target, cbvectors, lMem - counter - lTarget, lTarget);
      PlainWindow(cbvectors[..], 0, lMem, lTarget, counter);
      counter := counter + 1;
      invenergy[icount] := Invert(energy[icount]);
      best := Update(best, stage, icount, crossDot, invenergy[icount]);
      BestOfStep(b, stage, m, t, baseSize + first, icount - baseSize - first);
      icount := icount + 1;
    }
  }

  // ----- interpolated candidates ----------------------------------------------------

  /** The samples of an interpolated vector, and that the first cross-faded sample is
      not changed by the fade: the two constructions start one sample apart. */
  lemma {:induction false} InterpolatedAt(m: seq<real>, i: nat)
    requires 20 <= i < 40 && i + 5 <= |m|
    ensures var v := Interpolated(m, i);
            && (forall j :: 0 <= j < i - 4 ==> v[j] == m[|m| - i + j])
            && (forall j :: i - 4 <= j < i ==> v[j] == Blend(j - (i - 5), m[|m| - i + j], m[|m| - 2 * i + j]))
            && (forall j :: i <= j < 40 ==> v[j] == m[|m| - 2 * i + j])
            && v[..i - 4] == m[|m| - i..|m| - 4]
  {
    var v := Interpolated(m, i);
    forall j | 0 <= j < i - 4
      ensures v[j] == m[|m| - i + j]
    {
      if j == i - 5 {
        BlendStart(m[|m| - i + j], m[|m| - 2 * i + j]);
      }
    }
    assert v[..i - 4] == m[|m| - i..|m| - 4];
  }

  lemma {:induction false} BlendStart(a: real, b: real)
    ensures Blend(0, a, b) == a
  {
    assert 0.2 * (0 as real) == 0.0;
  }

  /** Energy and cross product of one interpolated candidate, from the running energy
      `nrj` of its first samples. */
  method AugmentedCandidate(buffer: array<real>, end: nat, icount: nat, target: array<real>, nrj: real)
    returns (energy: real, crossDot: real)
    requires 20 <= icount < SUBL && icount + 5 <= end <= buffer.Length && SUBL <= target.Length
    requires nrj == Energy(buffer[end - icount..end - 4])
    ensures energy == Energy(Interpolated(buffer[..end], icount))
    ensures crossDot == Dot(target[..SUBL], Interpolated(buffer[..end], icount))
  {
    hide Dot, Blend, Interpolated;
    ghost var m, t := buffer[..end], target[..SUBL];
    ghost var v := Interpolated(m, icount);
    InterpolatedAt(m, icount);
    assert m[end - icount..end - 4] == buffer[end - icount..end - 4];
    var ilow := icount - 4;
    energy := nrj;
    crossDot := CrossDot(target, buffer, end - icount, ilow);
    assert t[..ilow] == target[..ilow];
    energy, crossDot := AddFaded(buffer, end, icount, target, energy, crossDot, v);
    energy, crossDot := AddRest(buffer, end, icount, target, energy, crossDot, v);
    assert v[..SUBL] == v && t[..SUBL] == t;
  }

  /** The four cross-faded samples. */
  method AddFaded(buffer: array<real>, end: nat, icount: nat, target: array<real>, e: real, c: real, ghost v: seq<real>)
    returns (energy: real, crossDot: real)
    requires 20 <= icount < SUBL && icount + 5 <= end <= buffer.Length && SUBL <= target.Length && |v| == SUBL
    requires forall j :: icount - 4 <= j < icount ==>
               v[j] == Blend(j - (icount - 5), buffer[end - icount + j], buffer[end - 2 * icount + j])
    requires e == Dot(v[..icount - 4], v[..icount - 4]) && c == Dot(target[..SUBL][..icount - 4], v[..icount - 4])
    ensures energy == Dot(v[..icount], v[..icount])
    ensures crossDot == Dot(target[..SUBL][..icount], v[..icount])
  {
    hide Dot;
    ghost var t := target[..SUBL];
    energy, crossDot := e, c;
    var alfa := 0.2;
    var j := icount - 4;
    while j < icount
      invariant icount - 4 <= j <= icount
      invariant alfa == 0.2 * ((j - (icount - 5)) as real)
      invariant energy == Dot(v[..j], v[..j]) && crossDot == Dot(t[..j], v[..j])
    {
      var weighted := (1.0 - alfa) * buffer[end - 4 + (j - (icount - 4))]
          + alfa * buffer[end - icount - 4 + (j - (icount - 4))];
      assert weighted == v[j];
      DotStep(v, v, j);
      DotStep(t, v, j);
      energy := energy + weighted * weighted;
      crossDot := crossDot + target[j] * weighted;
      alfa := alfa + 0.2;
      j := j + 1;
    }
  }

  /** The samples after the seam. */
  method AddRest(buffer: array<real>, end: nat, icount: nat, target: array<real>, e: real, c: real, ghost v: seq<real>)
    returns (energy: real, crossDot: real)
    requires 20 <= icount < SUBL && icount + 5 <= end <= buffer.Length && SUBL <= target.Length && |v| == SUBL
    requires forall j :: icount <= j < SUBL ==> v[j] == buffer[end - 2 * icount + j]
    requires e == Dot(v[..icount], v[..icount]) && c == Dot(target[..SUBL][..icount], v[..icount])
    ensures energy == Dot(v[..SUBL], v[..SUBL])
    ensures crossDot == Dot(target[..SUBL][..SUBL], v[..SUBL])
  {
    hide Dot;
    ghost var t := target[..SUBL];
    energy, crossDot := e, c;
    var pp := end - icount;
    var j := icount;
    while j < SUBL
      invariant icount <= j <= SUBL && pp == end - 2 * icount + j
      invariant energy == Dot(v[..j], v[..j]) && crossDot == Dot(t[..j], v[..j])
    {
      DotStep(v, v, j);
      DotStep(t, v, j);
      energy := energy + buffer[pp] * buffer[pp];
      crossDot := crossDot + target[j] * buffer[pp];
      pp := pp + 1;
      j := j + 1;
    }
  }

  /** One more sample in front. */
  method GrowEnergy(buffer: array<real>, p: nat, q: nat, nrj: real) returns (e: real)
    requires p + 1 <= q <= buffer.Length && nrj == Energy(buffer[p + 1..q])
    ensures e == Energy(buffer[p..q])
  {
    e := nrj + buffer[p] * buffer[p];
    ghost var a := buffer[p..q];
    DotFirst(a);
    assert a[1..] == buffer[p + 1..q];
  }

  /** Search of the interpolated vectors of lags `low` to `high`. The memory ends at
      `end` of `buffer`; lag i has codebook index startIndex + i - 20. */
  method SearchAugmentedCB(low: nat, high: nat, stage: nat, startIndex: nat, target: array<real>,
                           buffer: array<real>, end: nat, b: Best, energy: array<real>, invenergy: array<real>,
                           ghost m: seq<real>)
    returns (best: Best)
    requires 20 <= low <= high < SUBL && SUBL + 5 <= end <= buffer.Length && target.Length >= SUBL
    requires Usable(|m|, SUBL) && startIndex + 20 <= 2 * BaseSize(|m|, SUBL)
    requires forall i :: 20 <= i < SUBL ==>
               CodebookVector(m, startIndex + i - 20, SUBL) == Interpolated(buffer[..end], i)
    requires startIndex + 20 <= energy.Length && startIndex + 20 <= invenergy.Length
    requires energy != buffer && invenergy != buffer && energy != invenergy && energy != target && invenergy != target
    modifies energy, invenergy
    ensures best == BestOf(b, stage, m, target[..SUBL], Run(startIndex + low - 20, high - low + 1))
    ensures forall q :: startIndex + low - 20 <= q <= startIndex + high - 20 ==>
              energy[q] == Energy(CodebookVector(m, q, SUBL)) && invenergy[q] == InvEnergy(energy[q])
    ensures forall q :: 0 <= q < energy.Length && !(startIndex + low - 20 <= q <= startIndex + high - 20) ==>
              energy[q] == old(energy[q])
    ensures forall q :: 0 <= q < invenergy.Length && !(startIndex + low - 20 <= q <= startIndex + high - 20) ==>
              invenergy[q] == old(invenergy[q])
  {
    hide Energy, Consider, InvEnergy, Dot, BestOf, CodebookVector, Interpolated;
    ghost var t := target[..SUBL];
    var nrjRecursive := SumOfSquares(buffer, end - low + 1, low - 5);
    var ppe := end - low;
    best := b;
    BestOfNone(b, stage, m, t, startIndex + low - 20);
    var icount := low;
    while icount <= high
      invariant low <= icount <= high + 1 && ppe == end - icount
      invariant nrjRecursive == Energy(buffer[end - icount + 1..end - 4])
      invariant best == BestOf(b, stage, m, t, Run(startIndex + low - 20, icount - low))
      invariant forall q :: startIndex + low - 20 <= q < startIndex + icount - 20 ==>
                  energy[q] == Energy(CodebookVector(m, q, SUBL)) && invenergy[q] == InvEnergy(energy[q])
      invariant forall q :: 0 <= q < energy.Length && !(startIndex + low - 20 <= q <= startIndex + high - 20) ==>
                  energy[q] == old(energy[q])
      invariant forall q :: 0 <= q < invenergy.Length && !(startIndex + low - 20 <= q <= startIndex + high - 20) ==>
                  invenergy[q] == old(invenergy[q])
    {
      var tmpIndex := startIndex + icount - 20;
      nrjRecursive := GrowEnergy(buffer, ppe, end - 4, nrjRecursive);
      ppe := ppe - 1;
      var e, crossDot := AugmentedCandidate(buffer, end, icount, target, nrjRecursive);
      energy[tmpIndex] := e;
      invenergy[tmpIndex] := Invert(energy[tmpIndex]);
      best := Update(best, stage, tmpIndex, crossDot, invenergy[tmpIndex]);
      BestOfStep(b, stage, m, t, startIndex + low - 20, icount - low);
      icount := icount + 1;
    }
  }

  // ----- the restricted second search --------------------------------------------------

  /** Bounds of the search of the filtered half: plain vectors sInd to eInd (exclusive),
      and interpolated lags sIndAug to eIndAug (inclusive) unless sIndAug is 0. */
  datatype Window = Window(sInd: int, eInd: int, sIndAug: int, eIndAug: int)

  function Clamp(x: int, low: int, high: int): int {
    if x < low then low else if x > high then high else x
  }

  /** Laid on a line, the interpolated lags 20 to 39 stand before the plain vectors, at
      positions -20 to -1. The position of a codebook index of the first half. */
  function Position(lTarget: nat, baseSize: nat, index: nat): int {
    if lTarget == SUBL && index >= baseSize - 20 then index - baseSize else index
  }

  /** The second search covers CB_RESRANGE consecutive positions around the best of the
      first, pushed inside the line where they would leave it. */
  function WindowAround(lTarget: nat, baseSize: nat, range: nat, baseIndex: nat): Window {
    var s := Clamp(Position(lTarget, baseSize, baseIndex) - CB_RESRANGE / 2,
                   if lTarget == SUBL then -20 else 0, range - CB_RESRANGE);
    if s < 0 then Window(0, s + CB_RESRANGE, 40 + s, 39) else Window(s, s + CB_RESRANGE, 0, 0)
  }

  /** The best index of the first search. */
  predicate FirstHalfIndex(lTarget: nat, baseSize: nat, range: nat, baseIndex: nat) {
    baseIndex < range || (lTarget == SUBL && baseSize - 20 <= baseIndex < baseSize)
  }

  /** The case analysis of the program computes that window. */
  method SelectRange(lTarget: nat, baseSize: nat, range: nat, baseIndex: nat) returns (w: Window)
    requires CB_RESRANGE <= range && (lTarget == SUBL ==> range <= baseSize - 20)
    requires FirstHalfIndex(lTarget, baseSize, range, baseIndex)
    ensures w == WindowAround(lTarget, baseSize, range, baseIndex)
  {
    var sIndAug, eIndAug := 0, 0;
    var sInd := baseIndex - CB_RESRANGE / 2;
    var eInd := sInd + CB_RESRANGE;
    if lTarget == SUBL {
      if sInd < 0 {
        sIndAug := 40 + sInd;
        eIndAug := 39;
        sInd := 0;
      } else if baseIndex < baseSize - 20 {
        if eInd > range {
          sInd := sInd - (eInd - range);
          eInd := range;
        }
      } else {
        if sInd < baseSize - 20 {
          sIndAug := 20;
          sInd := 0;
          eInd := 0;
          eIndAug := 19 + CB_RESRANGE;
          if eIndAug > 39 {
            eInd := eIndAug - 39;
            eIndAug := 39;
          }
        } else {
          sIndAug := 20 + sInd - (baseSize - 20);
          eIndAug := 39;
          sInd := 0;
          eInd := CB_RESRANGE - (eIndAug - sIndAug + 1);
        }
      }
    } else {
      if sInd < 0 {
        eInd := eInd - sInd;
        sInd := 0;
      }
      if eInd > range {
        sInd := sInd - (eInd - range);
        eInd := range;
      }
    }
    w := Window(sInd, eInd, sIndAug, eIndAug);
  }

  /** The window lies in the filtered half, holds exactly CB_RESRANGE candidates, and
      the filtered counterpart of the best first-half vector is among them. */
  lemma {:induction false} WindowIsSound(lTarget: nat, baseSize: nat, range: nat, baseIndex: nat)
    requires CB_RESRANGE <= range && (lTarget == SUBL ==> range <= baseSize - 20)
    requires FirstHalfIndex(lTarget, baseSize, range, baseIndex)
    ensures var w := WindowAround(lTarget, baseSize, range, baseIndex);
            && 0 <= w.sInd <= w.eInd <= range
            && (w.sIndAug == 0 || (lTarget == SUBL && 20 <= w.sIndAug <= w.eIndAug < SUBL))
            && (w.eInd - w.sInd) + (if w.sIndAug == 0 then 0 else w.eIndAug - w.sIndAug + 1) == CB_RESRANGE
            && var p := Position(lTarget, baseSize, baseIndex);
               if p >= 0 then w.sInd <= p < w.eInd else w.sIndAug != 0 && w.sIndAug <= 40 + p <= w.eIndAug
  {
    var p := Position(lTarget, baseSize, baseIndex);
    assert p >= (if lTarget == SUBL then -20 else 0);
    assert p < range;
  }

  /** The window stands in the middle around the best of the first search, unless it would
      leave the line of candidates; then it stands at that end of the line. */
  lemma {:induction false} WindowIsCentred(lTarget: nat, baseSize: nat, range: nat, baseIndex: nat)
    requires CB_RESRANGE <= range && (lTarget == SUBL ==> range <= baseSize - 20)
    requires FirstHalfIndex(lTarget, baseSize, range, baseIndex)
    ensures var w := WindowAround(lTarget, baseSize, range, baseIndex);
            var p := Position(lTarget, baseSize, baseIndex);
            var low := if lTarget == SUBL then -20 else 0;
            var start := if w.sIndAug == 0 then w.sInd else w.sIndAug - 40;
            && (low <= p - 17 && p + 17 <= range ==> start == p - 17)
            && (p - 17 < low ==> start == low)
            && (p + 17 > range ==> start == range - 34)
  {
  }

  // ----- one stage ---------------------------------------------------------------------

  /** The indices of the first search, and of the second one around its best. */
  function FirstIndices(lMem: nat, lTarget: nat, range: nat): (r: seq<nat>)
    requires Usable(lMem, lTarget) && range <= lMem - lTarget + 1
    ensures forall i :: 0 <= i < |r| ==> r[i] < BaseSize(lMem, lTarget)
    ensures forall i :: 0 <= i < |r| ==> FirstHalfIndex(lTarget, BaseSize(lMem, lTarget), range, r[i])
  {
    Run(0, range) + (if lTarget == SUBL then Run(BaseSize(lMem, lTarget) - 20, 20) else [])
  }

  function SecondIndices(lMem: nat, lTarget: nat, range: nat, baseIndex: nat): (r: seq<nat>)
    requires Usable(lMem, lTarget) && CB_RESRANGE <= range <= lMem - lTarget + 1
    requires FirstHalfIndex(lTarget, BaseSize(lMem, lTarget), range, baseIndex)
    ensures |r| == CB_RESRANGE
    ensures forall i :: 0 <= i < |r| ==> BaseSize(lMem, lTarget) <= r[i] < 2 * BaseSize(lMem, lTarget)
  {
    var base := BaseSize(lMem, lTarget);
    var w := WindowAround(lTarget, base, range, baseIndex);
    WindowIsSound(lTarget, base, range, baseIndex);
    Run(base + w.sInd, w.eInd - w.sInd)
    + (if w.sIndAug == 0 then [] else Run(2 * base - 20 + w.sIndAug - 20, w.eIndAug - w.sIndAug + 1))
  }

  /** The candidates of the first search, and that those of the second are the indices of the
      filtered half whose counterparts lie in the window. */
  lemma {:induction false} IndicesAre(lMem: nat, lTarget: nat, range: nat, baseIndex: nat, i: nat)
    requires Usable(lMem, lTarget) && CB_RESRANGE <= range <= lMem - lTarget + 1
    requires FirstHalfIndex(lTarget, BaseSize(lMem, lTarget), range, baseIndex)
    ensures var base := BaseSize(lMem, lTarget);
            var w := WindowAround(lTarget, base, range, baseIndex);
            && (i in FirstIndices(lMem, lTarget, range) <==> FirstHalfIndex(lTarget, base, range, i))
            && (i in SecondIndices(lMem, lTarget, range, baseIndex)
                <==> base + w.sInd <= i < base + w.eInd
                     || (w.sIndAug != 0 && 2 * base - 40 + w.sIndAug <= i <= 2 * base - 40 + w.eIndAug))
  {
    var base := BaseSize(lMem, lTarget);
    var w := WindowAround(lTarget, base, range, baseIndex);
    WindowIsSound(lTarget, base, range, baseIndex);
    hide WindowAround;
    InRun(0, range, i);
    InRun(base + w.sInd, w.eInd - w.sInd, i);
    if lTarget == SUBL {
      InRun(base - 20, 20, i);
    }
    if w.sIndAug != 0 {
      InRun(2 * base - 40 + w.sIndAug, w.eIndAug - w.sIndAug + 1, i);
    }
  }

  lemma {:induction false} InRun(from: nat, n: nat, i: nat)
    ensures i in Run(from, n) <==> from <= i < from + n
  {
    if from <= i < from + n {
      assert Run(from, n)[i - from] == i;
    }
  }

  /** What one stage finds: the best of the first search, then of the second. */
  function StageBest(stage: nat, m: seq<real>, target: seq<real>, range: nat): Best
    requires Usable(|m|, |target|) && CB_RESRANGE <= range <= |m| - |target| + 1
  {
    var b0 := Best(0, NO_MEASURE, 0.0);
    var b1 := BestOf(b0, stage, m, target, FirstIndices(|m|, |target|, range));
    FirstBestIsFirstHalf(stage, m, target, range);
    BestOf(b1, stage, m, target, SecondIndices(|m|, |target|, range, b1.index))
  }

  lemma {:induction false} FirstBestIsFirstHalf(stage: nat, m: seq<real>, target: seq<real>, range: nat)
    requires Usable(|m|, |target|) && 0 < range <= |m| - |target| + 1
    ensures var b1 := BestOf(Best(0, NO_MEASURE, 0.0), stage, m, target, FirstIndices(|m|, |target|, range));
            FirstHalfIndex(|target|, BaseSize(|m|, |target|), range, b1.index)
  {
    hide BestOf;
    var b0 := Best(0, NO_MEASURE, 0.0);
    BestOfIsMaximal(b0, stage, m, target, FirstIndices(|m|, |target|, range));
  }

  /** One stage of the main loop up to the recorded index: `buf` holds the memory from
      `bPos` on, `cbvectors` the filtered memory. */
  method SearchStage(buf: array<real>, bPos: nat, lMem: nat, lTarget: nat, range: nat, stage: nat,
                     target: array<real>, cbvectors: array<real>, energy: array<real>, invenergy: array<real>)
    returns (best: Best)
    requires Usable(lMem, lTarget) && bPos + lMem <= buf.Length && lTarget <= target.Length
    requires CB_RESRANGE <= range <= lMem - lTarget + 1
    requires lMem <= cbvectors.Length && cbvectors[..lMem] == Filtered(buf[bPos..bPos + lMem])
    requires 2 * BaseSize(lMem, lTarget) <= energy.Length && 2 * BaseSize(lMem, lTarget) <= invenergy.Length
    requires energy != buf && energy != cbvectors && energy != target && energy != invenergy
    requires invenergy != buf && invenergy != cbvectors && invenergy != target
    requires stage > 0 ==> EnergiesKnown(energy[..], invenergy[..], buf[bPos..bPos + lMem], lTarget, 0, range)
    requires stage > 0 ==> forall i :: BaseSize(lMem, lTarget) <= i < BaseSize(lMem, lTarget) + range ==>
               energy[i] == Energy(CodebookVector(buf[bPos..bPos + lMem], i, lTarget))
    modifies energy, invenergy
    ensures best == StageBest(stage, buf[bPos..bPos + lMem], target[..lTarget], range)
    ensures EnergiesKnown(energy[..], invenergy[..], buf[bPos..bPos + lMem], lTarget, 0, range)
    ensures forall i :: BaseSize(lMem, lTarget) <= i < BaseSize(lMem, lTarget) + range ==>
              energy[i] == Energy(CodebookVector(buf[bPos..bPos + lMem], i, lTarget))
  {
    hide BestOf, Energy, CodebookVector, InvEnergy, Filtered, WindowAround, FirstIndices, SecondIndices;
    var baseSize := lMem - lTarget + 1;
    if lTarget == SUBL {
      baseSize := lMem - lTarget + 1 + lTarget / 2;
    }
    best := FirstSearch(buf, bPos, lMem, lTarget, range, stage, target, energy, invenergy, baseSize);
    FirstBestIsFirstHalf(stage, buf[bPos..bPos + lMem], target[..lTarget], range);
    if stage == 0 {
      SlidingEnergies(cbvectors, 0, lMem, lTarget, range, energy, baseSize);
      FilteredSection(cbvectors[..], buf[bPos..bPos + lMem], lTarget, range, energy[..]);
    }
    best := SecondSearch(lMem, lTarget, range, stage, target, cbvectors, energy, invenergy, baseSize, best,
                         buf[bPos..bPos + lMem]);
  }

  /** The search of the first half of the codebook. */
  method FirstSearch(buf: array<real>, bPos: nat, lMem: nat, lTarget: nat, range: nat, stage: nat,
                     target: array<real>, energy: array<real>, invenergy: array<real>, baseSize: nat)
    returns (best: Best)
    requires Usable(lMem, lTarget) && bPos + lMem <= buf.Length && lTarget <= target.Length
    requires 0 < range <= lMem - lTarget + 1 && baseSize == BaseSize(lMem, lTarget)
    requires 2 * baseSize <= energy.Length && 2 * baseSize <= invenergy.Length
    requires energy != buf && energy != target && energy != invenergy && invenergy != buf && invenergy != target
    requires stage > 0 ==> EnergiesKnown(energy[..], invenergy[..], buf[bPos..bPos + lMem], lTarget, 0, range)
    modifies energy, invenergy
    ensures best == BestOf(Best(0, NO_MEASURE, 0.0), stage, buf[bPos..bPos + lMem], target[..lTarget],
                           FirstIndices(lMem, lTarget, range))
    ensures EnergiesKnown(energy[..], invenergy[..], buf[bPos..bPos + lMem], lTarget, 0, range)
    ensures forall q :: baseSize <= q < energy.Length ==> energy[q] == old(energy[q])
  {
    hide BestOf, Energy, CodebookVector, InvEnergy;
    ghost var m, t := buf[bPos..bPos + lMem], target[..lTarget];
    ghost var b0 := Best(0, NO_MEASURE, 0.0);
    best := SearchPlain(buf, bPos, lMem, lTarget, range, stage, target, energy, invenergy, Best(0, NO_MEASURE, 0.0));
    if lTarget == SUBL {
      InterpolatedSection(buf[..bPos + lMem], m);
      best := SearchAugmentedCB(20, 39, stage, baseSize - lTarget / 2, target, buf, bPos + lMem, best,
                                energy, invenergy, m);
      BestOfConcat(b0, stage, m, t, Run(0, range), Run(baseSize - 20, 20));
    } else {
      assert Run(0, range) + [] == Run(0, range);
    }
  }

  /** The restricted search of the filtered half around the best of the first. */
  method SecondSearch(lMem: nat, lTarget: nat, range: nat, stage: nat, target: array<real>, cbvectors: array<real>,
                      energy: array<real>, invenergy: array<real>, baseSize: nat, b: Best, ghost m: seq<real>)
    returns (best: Best)
    requires Usable(lMem, lTarget) && |m| == lMem && lTarget <= target.Length
    requires CB_RESRANGE <= range <= lMem - lTarget + 1 && baseSize == BaseSize(lMem, lTarget)
    requires FirstHalfIndex(lTarget, baseSize, range, b.index)
    requires lMem <= cbvectors.Length && cbvectors[..lMem] == Filtered(m)
    requires 2 * baseSize <= energy.Length && 2 * baseSize <= invenergy.Length
    requires energy != cbvectors && energy != target && energy != invenergy
    requires invenergy != cbvectors && invenergy != target
    requires forall i :: baseSize <= i < baseSize + range ==> energy[i] == Energy(CodebookVector(m, i, lTarget))
    modifies energy, invenergy
    ensures best == BestOf(b, stage, m, target[..lTarget], SecondIndices(lMem, lTarget, range, b.index))
    ensures forall i :: baseSize <= i < baseSize + range ==> energy[i] == Energy(CodebookVector(m, i, lTarget))
    ensures forall q :: 0 <= q < baseSize ==> energy[q] == old(energy[q]) && invenergy[q] == old(invenergy[q])
  {
    hide BestOf, Energy, CodebookVector, InvEnergy, Filtered, WindowAround;
    ghost var t := target[..lTarget];
    var w := SelectRange(lTarget, baseSize, range, b.index);
    WindowIsSound(lTarget, baseSize, range, b.index);
    best := SearchFiltered(cbvectors, lMem, lTarget, w.sInd, w.eInd, baseSize, stage, target, energy, invenergy, b, m);
    if lTarget == SUBL && w.sIndAug != 0 {
      FilteredInterpolatedSection(cbvectors[..lMem], m);
      best := SearchAugmentedCB(w.sIndAug, w.eIndAug, stage, 2 * baseSize - 20, target, cbvectors, lMem, best,
                                energy, invenergy, m);
      BestOfConcat(b, stage, m, t, Run(baseSize + w.sInd, w.eInd - w.sInd),
                   Run(2 * baseSize - 20 + w.sIndAug - 20, w.eIndAug - w.sIndAug + 1));
    } else {
      assert Run(baseSize + w.sInd, w.eInd - w.sInd) + [] == Run(baseSize + w.sInd, w.eInd - w.sInd);
    }
  }

  /** Which codebook vectors the interpolated candidates are. */
  lemma {:induction false} InterpolatedSection(s: seq<real>, m: seq<real>)
    requires Usable(|m|, SUBL) && |m| <= |s| && s[|s| - |m|..] == m
    ensures forall i :: 20 <= i < SUBL ==>
              CodebookVector(m, BaseSize(|m|, SUBL) - 40 + i, SUBL) == Interpolated(s, i)
  {
    hide Interpolated;
    forall i | 20 <= i < SUBL
      ensures CodebookVector(m, BaseSize(|m|, SUBL) - 40 + i, SUBL) == Interpolated(s, i)
    {
      InterpolatedLocal(s, m, i);
    }
  }

  lemma {:induction false} FilteredInterpolatedSection(f: seq<real>, m: seq<real>)
    requires Usable(|m|, SUBL) && f == Filtered(m)
    ensures forall i :: 20 <= i < SUBL ==>
              CodebookVector(m, 2 * BaseSize(|m|, SUBL) - 40 + i, SUBL) == Interpolated(f, i)
  {
    hide Interpolated, Filtered;
  }

  /** The sliding energies over the filtered buffer are those of the filtered vectors. */
  lemma {:induction false} FilteredSection(s: seq<real>, m: seq<real>, len: nat, n: nat, energy: seq<real>)
    requires Usable(|m|, len) && |m| <= |s| && s[..|m|] == Filtered(m) && n <= |m| - len + 1
    requires BaseSize(|m|, len) + n <= |energy|
    requires forall i :: BaseSize(|m|, len) <= i < BaseSize(|m|, len) + n ==>
               energy[i] == Energy(FirstHalf(s[0..0 + |m|], i - BaseSize(|m|, len), len))
    ensures forall i :: BaseSize(|m|, len) <= i < BaseSize(|m|, len) + n ==>
              energy[i] == Energy(CodebookVector(m, i, len))
  {
    hide Filtered, Energy;
    assert s[0..0 + |m|] == s[..|m|];
  }
}
