/**
 The stages of the codebook search: each stage finds a vector for what the stages before
 left of the target, quantises its gain and takes the scaled vector off. Proved are what
 the indices decode to, that no stage but the first can make the remainder larger, and
 what the final adjustment of the first gain does to the decoded vector.
 */
module CodebookStages {
  import opened CodecConstants
  import opened Vectors
  import opened Codebook
  import LpcFilters
  import CodebookSearch
  import Gains

  const CB_NSTAGES := 3

  /** Search range of each stage, for the start of the state and for four sub-blocks. */
  const SEARCH_RANGE: seq<seq<nat>> :=
    [[58, 58, 58], [108, 44, 44], [108, 108, 108], [108, 108, 108], [108, 108, 108]]

  // ----- what indices decode to -------------------------------------------------

  function GainLength(stage: nat): (n: nat)
    ensures Gains.IsLength(n)
  {
    if stage == 0 then 32 else if stage == 1 then 16 else 8
  }

  predicate GainIndices(gi: seq<nat>) {
    forall s :: 0 <= s < |gi| ==> gi[s] < GainLength(s)
  }

  /** The gain of each stage is relative to that of the stage before. */
  function GainsOf(gi: seq<nat>): (g: seq<real>)
    requires GainIndices(gi)
    ensures |g| == |gi|
  {
    if gi == [] then []
    else
      var n := |gi| - 1;
      var g := GainsOf(gi[..n]);
      g + [Gains.GainDequant(gi[n], MaxIn(g), GainLength(n))]
  }

  /** The maximum relative to which the next gain is quantised. */
  function MaxIn(g: seq<real>): real {
    if g == [] then 1.0 else Abs(g[|g| - 1])
  }

  predicate Indices(lMem: nat, len: nat, index: seq<nat>)
    requires Usable(lMem, len)
  {
    forall s :: 0 <= s < |index| ==> index[s] < 2 * BaseSize(lMem, len)
  }

  function Zeros(len: nat): (z: seq<real>)
    ensures |z| == len && forall i :: 0 <= i < len ==> z[i] == 0.0
  {
    seq(len, i => 0.0)
  }

  /** The decoded vector: the codebook vectors of the indices, each times its gain. */
  function Combine(m: seq<real>, index: seq<nat>, g: seq<real>, len: nat): (v: seq<real>)
    requires Usable(|m|, len) && Indices(|m|, len, index) && |g| == |index|
    ensures |v| == len
  {
    if index == [] then Zeros(len)
    else
      var n := |index| - 1;
      Axpy(Combine(m, index[..n], g[..n], len), g[n], CodebookVector(m, index[n], len))
  }

  /** What the vectors leave of the target. */
  function Residual(m: seq<real>, target: seq<real>, index: seq<nat>, g: seq<real>): (t: seq<real>)
    requires Usable(|m|, |target|) && Indices(|m|, |target|, index) && |g| == |index|
    ensures |t| == |target|
  {
    if index == [] then target
    else
      var n := |index| - 1;
      Axpy(Residual(m, target, index[..n], g[..n]), -g[n], CodebookVector(m, index[n], |target|))
  }

  /** The target is the decoded vector and what is left. */
  lemma {:induction false} ResidualCompletes(m: seq<real>, target: seq<real>, index: seq<nat>, g: seq<real>)
    requires Usable(|m|, |target|) && Indices(|m|, |target|, index) && |g| == |index|
    ensures Axpy(Combine(m, index, g, |target|), 1.0, Residual(m, target, index, g)) == target
  {
    hide CodebookVector;
    if index != [] {
      var n := |index| - 1;
      ResidualCompletes(m, target, index[..n], g[..n]);
      var p, r := Combine(m, index[..n], g[..n], |target|), Residual(m, target, index[..n], g[..n]);
      var v := CodebookVector(m, index[n], |target|);
      forall i | 0 <= i < |target|
        ensures Axpy(Axpy(p, g[n], v), 1.0, Axpy(r, -g[n], v))[i] == target[i]
      {
        assert Axpy(p, 1.0, r)[i] == target[i];
        Cancels(p[i], r[i], g[n], v[i]);
      }
    }
  }

  lemma {:induction false} Cancels(p: real, r: real, g: real, v: real)
    ensures (p + g * v) + 1.0 * (r + -g * v) == p + 1.0 * r
  {
  }

  // ----- the search -----------------------------------------------------------------

  /** The gain that is quantised: that of the first stage is kept between the bounds. */
  function GainIn(stage: nat, gain: real): real {
    if stage > 0 then gain
    else if gain < 0.0 then 0.0
    else if gain > CodebookSearch.CB_MAXGAIN then CodebookSearch.CB_MAXGAIN
    else gain
  }

  predicate Ranges(lMem: nat, len: nat, ranges: seq<nat>)
    requires Usable(lMem, len)
  {
    && (forall s :: 0 <= s < |ranges| ==> CodebookSearch.CB_RESRANGE <= ranges[s] <= lMem - len + 1)
    && forall s :: 0 < s < |ranges| ==> ranges[s] <= ranges[s - 1]
  }

  /** Stage s as a choice: the best vector for what was left, and a nearest gain. */
  ghost predicate StageDone(m: seq<real>, target: seq<real>, ranges: seq<nat>, index: seq<nat>, gi: seq<nat>, s: nat)
    requires Usable(|m|, |target|) && Ranges(|m|, |target|, ranges)
    requires Indices(|m|, |target|, index) && GainIndices(gi) && s < |index| == |gi| <= |ranges|
  {
    PrefixIndices(gi, s);
    var g := GainsOf(gi[..s]);
    var b := CodebookSearch.StageBest(s, m, Residual(m, target, index[..s], g), ranges[s]);
    index[s] == b.index && Gains.NearestGain(GainIn(s, b.gain), MaxIn(g), GainLength(s), gi[s])
  }

  ghost predicate Searched(m: seq<real>, target: seq<real>, ranges: seq<nat>, index: seq<nat>, gi: seq<nat>)
    requires Usable(|m|, |target|) && Ranges(|m|, |target|, ranges) && |index| == |gi| <= |ranges|
  {
    && Indices(|m|, |target|, index) && GainIndices(gi)
    && forall s :: 0 <= s < |index| ==> StageDone(m, target, ranges, index, gi, s)
  }

  lemma {:induction false} PrefixIndices(gi: seq<nat>, s: nat)
    requires GainIndices(gi) && s <= |gi|
    ensures GainIndices(gi[..s])
  {
  }

  /** One stage more. */
  lemma {:induction false} SearchedStep(m: seq<real>, target: seq<real>, ranges: seq<nat>, index: seq<nat>,
                                        gi: seq<nat>, i: nat, j: nat)
    requires Usable(|m|, |target|) && Ranges(|m|, |target|, ranges) && |index| == |gi| < |ranges|
    requires Searched(m, target, ranges, index, gi)
    requires i < 2 * BaseSize(|m|, |target|) && j < GainLength(|gi|)
    requires var b := CodebookSearch.StageBest(|index|, m, Residual(m, target, index, GainsOf(gi)), ranges[|index|]);
             && i == b.index
             && Gains.NearestGain(GainIn(|index|, b.gain), MaxIn(GainsOf(gi)), GainLength(|index|), j)
    ensures Searched(m, target, ranges, index + [i], gi + [j])
  {
    hide CodebookSearch.StageBest, Residual, GainsOf, Gains.NearestGain, GainIn;
    var index', gi' := index + [i], gi + [j];
    forall s | 0 <= s < |index'| ensures StageDone(m, target, ranges, index', gi', s) {
      if s < |index| {
        assert StageDone(m, target, ranges, index, gi, s);
        assert index'[..s] == index[..s] && gi'[..s] == gi[..s];
      } else {
        assert index'[..s] == index && gi'[..s] == gi;
      }
    }
  }

  // ----- what one stage finds -------------------------------------------------------

  /** The gain that comes with the best candidate is its own. */
  lemma {:induction false} BestHasItsGain(b: CodebookSearch.Best, stage: nat, m: seq<real>, target: seq<real>,
                                          indices: seq<nat>)
    requires Usable(|m|, |target|)
    requires forall i :: 0 <= i < |indices| ==> indices[i] < 2 * BaseSize(|m|, |target|)
    ensures var r := CodebookSearch.BestOf(b, stage, m, target, indices);
            r == b || (r.index in indices && OwnGain(m, target, r))
  {
    hide CodebookVector, CodebookSearch.Energy, CodebookSearch.InvEnergy, CodebookSearch.Measure;
    if indices != [] {
      var n := |indices| - 1;
      BestHasItsGain(b, stage, m, target, indices[..n]);
    }
  }

  predicate OwnGain(m: seq<real>, target: seq<real>, b: CodebookSearch.Best)
    requires Usable(|m|, |target|)
  {
    && b.index < 2 * BaseSize(|m|, |target|)
    && Abs(b.gain) < CodebookSearch.CB_MAXGAIN
    && var v := CodebookVector(m, b.index, |target|);
       b.gain == Dot(target, v) * CodebookSearch.InvEnergy(CodebookSearch.Energy(v))
  }

  /** What a stage finds is nothing at all or a candidate of the search with its gain. */
  lemma {:induction false} StageFinds(stage: nat, m: seq<real>, target: seq<real>, range: nat)
    requires Usable(|m|, |target|) && CodebookSearch.CB_RESRANGE <= range <= |m| - |target| + 1
    ensures var b := CodebookSearch.StageBest(stage, m, target, range);
            && b.index < 2 * BaseSize(|m|, |target|)
            && ((b.index == 0 && b.gain == 0.0)
                || (OwnGain(m, target, b) && StageIndex(|m|, |target|, range, b.index)))
  {
    hide CodebookSearch.BestOf, OwnGain, CodebookSearch.WindowAround;
    var b0 := CodebookSearch.Best(0, CodebookSearch.NO_MEASURE, 0.0);
    var first := CodebookSearch.FirstIndices(|m|, |target|, range);
    var b1 := CodebookSearch.BestOf(b0, stage, m, target, first);
    CodebookSearch.FirstBestIsFirstHalf(stage, m, target, range);
    BestHasItsGain(b0, stage, m, target, first);
    BestHasItsGain(b1, stage, m, target, CodebookSearch.SecondIndices(|m|, |target|, range, b1.index));
    CodebookSearch.WindowIsSound(|target|, BaseSize(|m|, |target|), range, b1.index);
  }

  /** The indices that a stage of a range can deliver: the first `range` vectors of either
      half, and the interpolated ones of either half when a whole sub-block is coded. */
  predicate StageIndex(lMem: nat, len: nat, range: nat, index: nat)
    requires Usable(lMem, len)
  {
    var base := BaseSize(lMem, len);
    || index < range
    || base <= index < base + range
    || (len == SUBL && (base - 20 <= index < base || 2 * base - 20 <= index < 2 * base))
  }

  // ----- the loop over the stages ---------------------------------------------------

  /** Takes the scaled vector off the target and adds it to what has been built. */
  method Subtract(src: array<real>, pp: nat, gain: real, lTarget: nat, target: array<real>, cvec: array<real>)
    requires pp + lTarget <= src.Length && lTarget <= target.Length && lTarget <= cvec.Length
    requires target != cvec && src != target && src != cvec
    modifies target, cvec
    ensures target[..lTarget] == Axpy(old(target[..lTarget]), -gain, src[pp..pp + lTarget])
    ensures cvec[..lTarget] == Axpy(old(cvec[..lTarget]), gain, src[pp..pp + lTarget])
  {
    ghost var t, c, v := target[..lTarget], cvec[..lTarget], src[pp..pp + lTarget];
    var j := 0;
    while j < lTarget
      invariant 0 <= j <= lTarget
      invariant forall q :: 0 <= q < j ==> target[q] == Axpy(t, -gain, v)[q] && cvec[q] == Axpy(c, gain, v)[q]
      invariant forall q :: j <= q < lTarget ==> target[q] == t[q] && cvec[q] == c[q]
    {
      cvec[j] := cvec[j] + gain * src[pp + j];
      target[j] := target[j] - gain * src[pp + j];
      TakeOff(t[j], gain, v[j]);
      j := j + 1;
    }
  }

  lemma {:induction false} TakeOff(t: real, gain: real, v: real)
    ensures t - gain * v == t + -gain * v
  {
  }

  /** Quantises the gain of a stage relative to that of the stage before. */
  method QuantiseGain(stage: nat, gain: real, ghost gi: seq<nat>, gains: seq<real>) returns (value: real, index: nat)
    requires GainIndices(gi) && stage == |gi| && gains == GainsOf(gi)
    ensures index < GainLength(stage)
    ensures Gains.NearestGain(GainIn(stage, gain), MaxIn(gains), GainLength(stage), index)
    ensures value == Gains.GainDequant(index, MaxIn(gains), GainLength(stage))
  {
    hide Gains.NearestGain, Gains.GainDequant, GainsOf;
    if stage == 0 {
      assert gains == [];
      var g := gain;
      if g < 0.0 {
        g := 0.0;
      }
      if g > CodebookSearch.CB_MAXGAIN {
        g := CodebookSearch.CB_MAXGAIN;
      }
      value, index := Gains.GainQuant(g, 1.0, 32);
    } else if stage == 1 {
      value, index := Gains.GainQuant(gain, Abs(gains[stage - 1]), 16);
    } else {
      value, index := Gains.GainQuant(gain, Abs(gains[stage - 1]), 8);
    }
  }

  /** The main loop: `buf` holds the memory from `bPos` on, `cbvectors` the filtered
      memory; `target` becomes what is left and `cvec` what was built. The energies found
      in the first stage serve all of them. */
  method SearchStages(buf: array<real>, bPos: nat, lMem: nat, lTarget: nat, stateShortLen: nat, nStages: nat,
                      ranges: seq<nat>, target: array<real>, cvec: array<real>, cbvectors: array<real>)
    returns (index: seq<nat>, gainIndex: seq<nat>, gains: seq<real>)
    requires Usable(lMem, lTarget) && bPos + lMem <= buf.Length && 2 * BaseSize(lMem, lTarget) <= 256
    requires stateShortLen <= STATE_LEN && (lTarget == STATE_LEN - stateShortLen) != (lTarget == SUBL)
    requires nStages <= |ranges| && Ranges(lMem, lTarget, ranges)
    requires lTarget <= target.Length && lTarget <= cvec.Length && lMem <= cbvectors.Length
    requires buf != target && buf != cvec && buf != cbvectors
    requires target != cvec && target != cbvectors && cvec != cbvectors
    requires cvec[..lTarget] == Zeros(lTarget)
    requires cbvectors[..lMem] == Filtered(buf[bPos..bPos + lMem])
    modifies target, cvec
    ensures |index| == |gainIndex| == nStages
    ensures Searched(buf[bPos..bPos + lMem], old(target[..lTarget]), ranges, index, gainIndex)
    ensures gains == GainsOf(gainIndex)
    ensures target[..lTarget] == Residual(buf[bPos..bPos + lMem], old(target[..lTarget]), index, gains)
    ensures cvec[..lTarget] == Combine(buf[bPos..bPos + lMem], index, gains, lTarget)
  {
    hide CodebookVector, Filtered, CodebookSearch.StageBest, Gains.NearestGain, Gains.GainDequant, StageDone;
    hide CodebookSearch.EnergiesKnown, FirstKnown, Residual, Combine, GainsOf, GainIn, MaxIn;
    ghost var m, t := buf[bPos..bPos + lMem], target[..lTarget];
    var energy, invenergy, augVec := new real[256], new real[256], new real[SUBL];
    index, gainIndex, gains := [], [], [];
    NoStage(m, t);
    var stage := 0;
    while stage < nStages
      invariant 0 <= stage <= nStages && |index| == |gainIndex| == stage
      invariant m == buf[bPos..bPos + lMem] && cbvectors[..lMem] == Filtered(m)
      invariant Searched(m, t, ranges, index, gainIndex) && gains == GainsOf(gainIndex)
      invariant target[..lTarget] == Residual(m, t, index, gains)
      invariant cvec[..lTarget] == Combine(m, index, gains, lTarget)
      invariant stage > 0 ==> FirstKnown(energy[..], invenergy[..], m, lTarget, ranges[stage - 1])
    {
      if stage > 0 {
        KnownBelow(energy[..], invenergy[..], m, lTarget, ranges[stage - 1], ranges[stage]);
      }
      StageFinds(stage, m, target[..lTarget], ranges[stage]);
      var best := SearchOne(buf, bPos, lMem, lTarget, ranges[stage], stage, target, cbvectors, energy, invenergy);
      var gain, gi := QuantiseGain(stage, best.gain, gainIndex, gains);
      SearchedStep(m, t, ranges, index, gainIndex, best.index, gi);
      AppendStage(m, t, index, gains, gainIndex, best.index, gain, gi);
      TakeVector(buf, bPos, lMem, lTarget, stateShortLen, cbvectors, augVec, best.index, gain, target, cvec);
      index, gainIndex, gains := index + [best.index], gainIndex + [gi], gains + [gain];
      stage := stage + 1;
    }
  }

  lemma {:induction false} NoStage(m: seq<real>, t: seq<real>)
    requires Usable(|m|, |t|)
    ensures GainsOf([]) == [] && Residual(m, t, [], []) == t && Combine(m, [], [], |t|) == Zeros(|t|)
  {
  }

  /** Extracts the best vector and takes it, scaled, off the target. */
  method TakeVector(buf: array<real>, bPos: nat, lMem: nat, lTarget: nat, stateShortLen: nat, cbvectors: array<real>,
                    augVec: array<real>, index: nat, gain: real, target: array<real>, cvec: array<real>)
    requires Usable(lMem, lTarget) && index < 2 * BaseSize(lMem, lTarget)
    requires stateShortLen <= STATE_LEN && (lTarget == STATE_LEN - stateShortLen) != (lTarget == SUBL)
    requires bPos + lMem <= buf.Length && lMem <= cbvectors.Length && augVec.Length == SUBL
    requires lTarget <= target.Length && lTarget <= cvec.Length
    requires augVec != buf && augVec != cbvectors && augVec != target && augVec != cvec && target != cvec
    requires buf != cbvectors && buf != target && buf != cvec && cbvectors != target && cbvectors != cvec
    requires cbvectors[..lMem] == Filtered(buf[bPos..bPos + lMem])
    modifies target, cvec, augVec
    ensures target[..lTarget]
            == Axpy(old(target[..lTarget]), -gain, CodebookVector(buf[bPos..bPos + lMem], index, lTarget))
    ensures cvec[..lTarget]
            == Axpy(old(cvec[..lTarget]), gain, CodebookVector(buf[bPos..bPos + lMem], index, lTarget))
  {
    hide CodebookVector, Filtered;
    var src, pp := ExtractVector(buf, bPos, lMem, lTarget, stateShortLen, cbvectors, augVec, index);
    Subtract(src, pp, gain, lTarget, target, cvec);
  }

  /** The energies that one stage leaves to the next. */
  ghost predicate FirstKnown(energy: seq<real>, invenergy: seq<real>, m: seq<real>, len: nat, range: nat)
    requires Usable(|m|, len) && range <= |m| - len + 1
  {
    && CodebookSearch.EnergiesKnown(energy, invenergy, m, len, 0, range)
    && BaseSize(|m|, len) + range <= |energy|
    && forall i :: BaseSize(|m|, len) <= i < BaseSize(|m|, len) + range ==>
         energy[i] == CodebookSearch.Energy(CodebookVector(m, i, len))
  }

  lemma {:induction false} KnownBelow(energy: seq<real>, invenergy: seq<real>, m: seq<real>, len: nat, range: nat,
                                      range': nat)
    requires Usable(|m|, len) && range' <= range <= |m| - len + 1 && FirstKnown(energy, invenergy, m, len, range)
    ensures FirstKnown(energy, invenergy, m, len, range')
  {
    hide CodebookVector, CodebookSearch.Energy, CodebookSearch.InvEnergy;
  }

  method SearchOne(buf: array<real>, bPos: nat, lMem: nat, lTarget: nat, range: nat, stage: nat, target: array<real>,
                   cbvectors: array<real>, energy: array<real>, invenergy: array<real>)
    returns (best: CodebookSearch.Best)
    requires Usable(lMem, lTarget) && bPos + lMem <= buf.Length && lTarget <= target.Length
    requires CodebookSearch.CB_RESRANGE <= range <= lMem - lTarget + 1
    requires lMem <= cbvectors.Length && cbvectors[..lMem] == Filtered(buf[bPos..bPos + lMem])
    requires 2 * BaseSize(lMem, lTarget) <= energy.Length && 2 * BaseSize(lMem, lTarget) <= invenergy.Length
    requires energy != buf && energy != cbvectors && energy != target && energy != invenergy
    requires invenergy != buf && invenergy != cbvectors && invenergy != target
    requires stage > 0 ==> FirstKnown(energy[..], invenergy[..], buf[bPos..bPos + lMem], lTarget, range)
    modifies energy, invenergy
    ensures best == CodebookSearch.StageBest(stage, buf[bPos..bPos + lMem], target[..lTarget], range)
    ensures FirstKnown(energy[..], invenergy[..], buf[bPos..bPos + lMem], lTarget, range)
  {
    hide CodebookVector, Filtered, CodebookSearch.StageBest, CodebookSearch.EnergiesKnown, CodebookSearch.Energy;
    best := CodebookSearch.SearchStage(buf, bPos, lMem, lTarget, range, stage, target, cbvectors, energy, invenergy);
  }

  /** The remainder and the built vector with one stage more. */
  lemma {:induction false} AppendStage(m: seq<real>, t: seq<real>, index: seq<nat>, gains: seq<real>, gi: seq<nat>,
                                       i: nat, gain: real, j: nat)
    requires Usable(|m|, |t|) && Indices(|m|, |t|, index) && i < 2 * BaseSize(|m|, |t|)
    requires GainIndices(gi) && gains == GainsOf(gi) && |index| == |gi| && j < GainLength(|gi|)
    requires gain == Gains.GainDequant(j, MaxIn(gains), GainLength(|gi|))
    ensures Indices(|m|, |t|, index + [i]) && GainIndices(gi + [j])
    ensures GainsOf(gi + [j]) == gains + [gain]
    ensures Residual(m, t, index + [i], gains + [gain])
            == Axpy(Residual(m, t, index, gains), -gain, CodebookVector(m, i, |t|))
    ensures Combine(m, index + [i], gains + [gain], |t|)
            == Axpy(Combine(m, index, gains, |t|), gain, CodebookVector(m, i, |t|))
  {
    hide CodebookVector, Gains.GainDequant, MaxIn;
    assert (index + [i])[..|index|] == index && (gains + [gain])[..|index|] == gains && (gi + [j])[..|gi|] == gi;
  }

  // ----- the whole search -------------------------------------------------------------

  /** The adjustment of the first gain, by the energies of the target and of what was
      built: the gain is raised step by step while the raised vector keeps less energy
      than the target and the gain was not yet doubled. */
  ghost predicate Matched(tene: real, cene: real, from: nat, to: nat)
    requires from < 32
  {
    && from <= to < 32
    && (from < to ==> LessEnergy(tene, cene, from, to) && Gains.GAIN_SQ5[to - 1] < 2.0 * Gains.GAIN_SQ5[from])
    && (to < 31 ==> !LessEnergy(tene, cene, from, to + 1) || Gains.GAIN_SQ5[to] >= 2.0 * Gains.GAIN_SQ5[from])
  }

  /** Whether raising the first gain to an entry keeps less energy than the target has. */
  predicate LessEnergy(tene: real, cene: real, from: nat, to: nat)
    requires from < 32 && to < 32
  {
    Times(cene, Times(Gains.GAIN_SQ5[to], Gains.GAIN_SQ5[to]))
    < Times(tene, Times(Gains.GAIN_SQ5[from], Gains.GAIN_SQ5[from]))
  }

  lemma {:induction false} LessIs(tene: real, cene: real, from: nat, to: nat)
    requires from < 32 && to < 32
    ensures LessEnergy(tene, cene, from, to)
            <==> Times(cene, Times(Gains.GAIN_SQ5[to], Gains.GAIN_SQ5[to]))
                 < Times(tene, Times(Gains.GAIN_SQ5[from], Gains.GAIN_SQ5[from]))
  {
    hide Times;
  }

  lemma {:induction false} EnergyGrows(tene: real, cene: real, from: nat, i: nat, j: nat)
    requires cene >= 0.0 && from < 32 && i <= j < 32
    ensures LessEnergy(tene, cene, from, j) ==> LessEnergy(tene, cene, from, i)
  {
    if i < j {
      Gains.Increasing(i, j);
      SquareGrows(cene, Gains.GAIN_SQ5[i], Gains.GAIN_SQ5[j]);
    }
  }

  lemma {:induction false} SquareGrows(c: real, x: real, y: real)
    requires c >= 0.0 && 0.0 <= x <= y
    ensures Times(c, Times(x, x)) <= Times(c, Times(y, y))
  {
    assert (y - x) * (y + x) >= 0.0;
    assert (y - x) * (y + x) == y * y - x * x;
    assert c * (y * y - x * x) >= 0.0;
  }

  method AdjustGain(tene: real, cene: real, gain0: real, g: nat) returns (j: nat)
    requires g < 32 && cene >= 0.0 && gain0 == Gains.GAIN_SQ5[g]
    ensures j < 32 && Matched(tene, cene, g, j)
  {
    hide Times, LessEnergy, Gains.GAIN_SQ5;
    Gains.Entries();
    j := g;
    var i := g;
    while i < 32
      invariant g <= i <= 32 && g <= j < 32
      invariant i == g ==> j == g
      invariant g < j ==> LessEnergy(tene, cene, g, j) && Gains.GAIN_SQ5[j - 1] < 2.0 * gain0
      invariant i > g ==> j < i
      invariant i > g && j < i - 1 ==> !LessEnergy(tene, cene, g, j + 1) || Gains.GAIN_SQ5[j] >= 2.0 * gain0
    {
      var ftmp := Times(cene, Times(Gains.GAIN_SQ5[i], Gains.GAIN_SQ5[i]));
      LessIs(tene, cene, g, i);
      if i > g {
        EnergyGrows(tene, cene, g, j + 1, i);
      }
      if ftmp < Times(tene, Times(gain0, gain0)) && Gains.GAIN_SQ5[j] < 2.0 * gain0 {
        j := i;
      }
      i := i + 1;
    }
  }

  /** Memory and target after weighting: one filter over both, from the filter's state. */
  function Weighted(denum: seq<real>, state: seq<real>, m: seq<real>, target: seq<real>): (w: seq<real>)
    requires |denum| == |state| + 1
    ensures |w| == |m| + |target|
  {
    LpcFilters.Iir(denum, state, m + target)
  }

  /** The search of a block: weighting, the filtered memory, the stages, and the
      adjustment of the first gain. `before` are the gain indices before it. */
  method ICBSearch(intarget: array<real>, tPos: nat, mem: array<real>, mPos: nat, lMem: nat, lTarget: nat,
                   nStages: nat, weightDenum: array<real>, weightState: array<real>, stateShortLen: nat, block: nat)
    returns (index: seq<nat>, gainIndex: seq<nat>, ghost before: seq<nat>)
    requires Usable(lMem, lTarget) && 2 * BaseSize(lMem, lTarget) <= 256
    requires tPos + lTarget <= intarget.Length && mPos + lMem <= mem.Length
    requires 0 < nStages <= CB_NSTAGES && block < 5 && SEARCH_RANGE[block][0] <= lMem - lTarget + 1
    requires weightDenum.Length == LPC_FILTERORDER + 1 && weightState.Length == LPC_FILTERORDER
    requires stateShortLen <= STATE_LEN && (lTarget == STATE_LEN - stateShortLen) != (lTarget == SUBL)
    ensures |index| == |gainIndex| == |before| == nStages && GainIndices(gainIndex)
    ensures Ranges(lMem, lTarget, SEARCH_RANGE[block])
    ensures var w := Weighted(weightDenum[..], weightState[..], mem[mPos..mPos + lMem], intarget[tPos..tPos + lTarget]);
            && Searched(w[..lMem], w[lMem..], SEARCH_RANGE[block], index, before)
            && gainIndex == before[0 := gainIndex[0]]
            && Matched(CodebookSearch.Energy(w[lMem..]),
                       CodebookSearch.Energy(Combine(w[..lMem], index, GainsOf(before), lTarget)),
                       before[0], gainIndex[0])
  {
    hide CodebookSearch.Energy, Searched, Combine, GainsOf, Matched, Weighted, SEARCH_RANGE;
    ShippedRanges(block, lMem, lTarget);
    ghost var w := Weighted(weightDenum[..], weightState[..], mem[mPos..mPos + lMem], intarget[tPos..tPos + lTarget]);
    var buf := WeightedBuffer(intarget, tPos, mem, mPos, lMem, lTarget, weightDenum, weightState);
    var tene, cene, gain0;
    index, gainIndex, tene, cene, gain0 := SearchWeighted(buf, lMem, lTarget, stateShortLen, nStages,
                                                          SEARCH_RANGE[block]);
    before := gainIndex;
    var j := AdjustGain(tene, cene, gain0, gainIndex[0]);
    gainIndex := gainIndex[0 := j];
  }

  lemma {:induction false} ShippedRanges(block: nat, lMem: nat, lTarget: nat)
    requires Usable(lMem, lTarget) && block < 5 && SEARCH_RANGE[block][0] <= lMem - lTarget + 1
    ensures |SEARCH_RANGE| == 5 && |SEARCH_RANGE[block]| == CB_NSTAGES && Ranges(lMem, lTarget, SEARCH_RANGE[block])
  {
    var r := SEARCH_RANGE[block];
    assert |r| == 3 && 34 <= r[2] <= r[1] <= r[0];
  }

  /** The search on the weighted buffer, and the energies that the adjustment compares. */
  method SearchWeighted(buf: array<real>, lMem: nat, lTarget: nat, stateShortLen: nat, nStages: nat, ranges: seq<nat>)
    returns (index: seq<nat>, gainIndex: seq<nat>, tene: real, cene: real, gain0: real)
    requires Usable(lMem, lTarget) && 2 * BaseSize(lMem, lTarget) <= 256
    requires stateShortLen <= STATE_LEN && (lTarget == STATE_LEN - stateShortLen) != (lTarget == SUBL)
    requires 0 < nStages <= |ranges| && Ranges(lMem, lTarget, ranges)
    requires LPC_FILTERORDER + lMem + lTarget <= buf.Length
    ensures |index| == |gainIndex| == nStages && GainIndices(gainIndex)
    ensures var m := buf[LPC_FILTERORDER..LPC_FILTERORDER + lMem];
            var t := buf[LPC_FILTERORDER + lMem..LPC_FILTERORDER + lMem + lTarget];
            && Searched(m, t, ranges, index, gainIndex)
            && tene == CodebookSearch.Energy(t)
            && cene == CodebookSearch.Energy(Combine(m, index, GainsOf(gainIndex), lTarget)) >= 0.0
            && gainIndex[0] < 32 && gain0 == Gains.GAIN_SQ5[gainIndex[0]]
  {
    hide Filtered, StageDone, Combine, Residual, GainsOf, Dot, GainLength;
    var target, cvec, cbvectors := new real[SUBL], new real[SUBL], new real[CB_MEML];
    Copy(target, 0, buf, LPC_FILTERORDER + lMem, lTarget);
    Clear(cvec, 0, SUBL);
    assert cvec[..lTarget] == Zeros(lTarget);
    assert target[0..0 + lTarget] == target[..lTarget];
    tene := CodebookSearch.SumOfSquares(target, 0, lTarget);
    FilteredCBvecs(cbvectors, buf, LPC_FILTERORDER, lMem);
    var gains;
    index, gainIndex, gains := SearchStages(buf, LPC_FILTERORDER, lMem, lTarget, stateShortLen, nStages, ranges,
                                            target, cvec, cbvectors);
    assert cvec[0..0 + lTarget] == cvec[..lTarget];
    cene := CodebookSearch.SumOfSquares(cvec, 0, lTarget);
    DotSelfNonNegative(cvec[..lTarget]);
    FirstGain(gainIndex);
    gain0 := gains[0];
  }

  /** The buffer of the search: the filter's state, then memory and target, weighted. */
  method WeightedBuffer(intarget: array<real>, tPos: nat, mem: array<real>, mPos: nat, lMem: nat, lTarget: nat,
                        weightDenum: array<real>, weightState: array<real>)
    returns (buf: array<real>)
    requires lMem <= CB_MEML && lTarget <= SUBL
    requires tPos + lTarget <= intarget.Length && mPos + lMem <= mem.Length
    requires weightDenum.Length == LPC_FILTERORDER + 1 && weightState.Length == LPC_FILTERORDER
    ensures fresh(buf) && buf.Length == CB_MEML + SUBL + 2 * LPC_FILTERORDER
    ensures var w := Weighted(weightDenum[..], weightState[..], mem[mPos..mPos + lMem], intarget[tPos..tPos + lTarget]);
            && buf[LPC_FILTERORDER..LPC_FILTERORDER + lMem] == w[..lMem]
            && buf[LPC_FILTERORDER + lMem..LPC_FILTERORDER + lMem + lTarget] == w[lMem..]
  {
    hide LpcFilters.Iir;
    ghost var c, st := weightDenum[..], weightState[..];
    ghost var x := mem[mPos..mPos + lMem] + intarget[tPos..tPos + lTarget];
    buf := FilledBuffer(intarget, tPos, mem, mPos, lMem, lTarget, weightState);
    assert weightDenum[..LPC_FILTERORDER + 1] == c;
    LpcFilters.AllPoleFilter(buf, LPC_FILTERORDER, weightDenum, lMem + lTarget, LPC_FILTERORDER);
    assert buf[LPC_FILTERORDER..LPC_FILTERORDER + (lMem + lTarget)] == LpcFilters.Iir(c, st, x);
    TwoParts(buf[..], LPC_FILTERORDER, lMem, lTarget);
  }

  method FilledBuffer(intarget: array<real>, tPos: nat, mem: array<real>, mPos: nat, lMem: nat, lTarget: nat,
                      weightState: array<real>)
    returns (buf: array<real>)
    requires lMem <= CB_MEML && lTarget <= SUBL && weightState.Length == LPC_FILTERORDER
    requires tPos + lTarget <= intarget.Length && mPos + lMem <= mem.Length
    ensures fresh(buf) && buf.Length == CB_MEML + SUBL + 2 * LPC_FILTERORDER
    ensures buf[LPC_FILTERORDER - LPC_FILTERORDER..LPC_FILTERORDER] == weightState[..]
    ensures buf[LPC_FILTERORDER..LPC_FILTERORDER + (lMem + lTarget)]
            == mem[mPos..mPos + lMem] + intarget[tPos..tPos + lTarget]
  {
    buf := new real[CB_MEML + SUBL + 2 * LPC_FILTERORDER];
    Copy(buf, 0, weightState, 0, LPC_FILTERORDER);
    Copy(buf, LPC_FILTERORDER, mem, mPos, lMem);
    Copy(buf, LPC_FILTERORDER + lMem, intarget, tPos, lTarget);
  }

  lemma {:induction false} TwoParts(s: seq<real>, p: nat, n: nat, k: nat)
    requires p + n + k <= |s|
    ensures s[p..p + (n + k)][..n] == s[p..p + n] && s[p..p + (n + k)][n..] == s[p + n..p + n + k]
  {
  }

  lemma {:induction false} FirstGain(gi: seq<nat>)
    requires GainIndices(gi) && gi != []
    ensures gi[0] < 32 && GainsOf(gi)[0] == Gains.GAIN_SQ5[gi[0]]
  {
    if |gi| > 1 {
      FirstGain(gi[..|gi| - 1]);
    } else {
      assert gi[..0] == [];
    }
  }

  // ----- the decoder --------------------------------------------------------------------

  /** The decoder's construction: the gains of the indices, and the sum of the scaled
      vectors. */
  method ICBConstruct(decvector: array<real>, index: array<nat>, gainIndex: array<nat>, mem: array<real>, mPos: nat,
                      lMem: nat, veclen: nat, nStages: nat)
    requires Usable(lMem, veclen) && mPos + lMem <= mem.Length && veclen <= decvector.Length && decvector != mem
    requires 0 < nStages <= CB_NSTAGES && nStages <= index.Length && nStages <= gainIndex.Length
    requires Indices(lMem, veclen, index[..nStages]) && GainIndices(gainIndex[..nStages])
    modifies decvector
    ensures decvector[..veclen]
            == Combine(mem[mPos..mPos + lMem], index[..nStages], GainsOf(gainIndex[..nStages]), veclen)
    ensures forall q :: veclen <= q < decvector.Length ==> decvector[q] == old(decvector[q])
  {
    hide CodebookVector, GainsOf, Combine;
    ghost var m, idx, g := mem[mPos..mPos + lMem], index[..nStages], GainsOf(gainIndex[..nStages]);
    var gain := DequantGains(gainIndex, nStages);
    assert forall s :: 0 <= s < nStages ==> gain[s] == g[s];
    var cbvec := new real[SUBL];
    GetCBvec(cbvec, mem, mPos, index[0], lMem, veclen);
    SetScaled(decvector, cbvec, gain[0], veclen);
    CombineStep(m, idx, g, 0, veclen);
    var k := 1;
    while k < nStages
      invariant 1 <= k <= nStages && mem[mPos..mPos + lMem] == m && gain[..nStages] == g
      invariant decvector[..veclen] == Combine(m, idx[..k], g[..k], veclen)
      invariant forall q :: veclen <= q < decvector.Length ==> decvector[q] == old(decvector[q])
    {
      GetCBvec(cbvec, mem, mPos, index[k], lMem, veclen);
      AddScaled(decvector, cbvec, gain[k], veclen);
      CombineStep(m, idx, g, k, veclen);
      k := k + 1;
    }
    assert idx[..k] == idx && g[..k] == g;
  }

  lemma {:induction false} CombineStep(m: seq<real>, index: seq<nat>, g: seq<real>, k: nat, len: nat)
    requires Usable(|m|, len) && Indices(|m|, len, index) && k < |index| == |g|
    ensures Indices(|m|, len, index[..k]) && Indices(|m|, len, index[..k + 1])
    ensures Combine(m, index[..0], g[..0], len) == Zeros(len)
    ensures Combine(m, index[..k + 1], g[..k + 1], len)
            == Axpy(Combine(m, index[..k], g[..k], len), g[k], CodebookVector(m, index[k], len))
  {
    hide CodebookVector;
    assert index[..k + 1][..k] == index[..k] && g[..k + 1][..k] == g[..k];
  }

  method SetScaled(decvector: array<real>, cbvec: array<real>, gain: real, veclen: nat)
    requires veclen <= decvector.Length && veclen <= cbvec.Length && decvector != cbvec
    modifies decvector
    ensures decvector[..veclen] == Axpy(Zeros(veclen), gain, cbvec[..veclen])
    ensures forall q :: veclen <= q < decvector.Length ==> decvector[q] == old(decvector[q])
  {
    ghost var s, c := Zeros(veclen), cbvec[..veclen];
    var j := 0;
    while j < veclen
      invariant 0 <= j <= veclen
      invariant forall q :: 0 <= q < j ==> decvector[q] == Axpy(s, gain, c)[q]
      invariant forall q :: veclen <= q < decvector.Length ==> decvector[q] == old(decvector[q])
    {
      decvector[j] := gain * cbvec[j];
      j := j + 1;
    }
  }

  /** The gains of the stages, each relative to the one before. */
  method DequantGains(gainIndex: array<nat>, nStages: nat) returns (gain: array<real>)
    requires 0 < nStages <= CB_NSTAGES && nStages <= gainIndex.Length && GainIndices(gainIndex[..nStages])
    ensures fresh(gain) && gain.Length == CB_NSTAGES && gain[..nStages] == GainsOf(gainIndex[..nStages])
  {
    hide Gains.GainDequant;
    ghost var gi := gainIndex[..nStages];
    gain := new real[CB_NSTAGES];
    gain[0] := Gains.GainDequant(gainIndex[0], 1.0, 32);
    NextGain(gi, 0);
    assert gain[..1] == GainsOf(gi[..1]);
    if nStages > 1 {
      gain[1] := Gains.GainDequant(gainIndex[1], Abs(gain[0]), 16);
      NextGain(gi, 1);
      assert gain[..2] == GainsOf(gi[..2]);
    }
    if nStages > 2 {
      gain[2] := Gains.GainDequant(gainIndex[2], Abs(gain[1]), 8);
      NextGain(gi, 2);
      assert gain[..3] == GainsOf(gi[..3]);
    }
    assert gi[..nStages] == gi;
  }

  lemma {:induction false} NextGain(gi: seq<nat>, n: nat)
    requires GainIndices(gi) && n < |gi|
    ensures GainsOf(gi[..0]) == []
    ensures GainsOf(gi[..n + 1])
            == GainsOf(gi[..n]) + [Gains.GainDequant(gi[n], MaxIn(GainsOf(gi[..n])), GainLength(n))]
  {
    hide Gains.GainDequant;
    assert gi[..n + 1][..n] == gi[..n];
  }

  method AddScaled(decvector: array<real>, cbvec: array<real>, gain: real, veclen: nat)
    requires veclen <= decvector.Length && veclen <= cbvec.Length && decvector != cbvec
    modifies decvector
    ensures decvector[..veclen] == Axpy(old(decvector[..veclen]), gain, cbvec[..veclen])
    ensures forall q :: veclen <= q < decvector.Length ==> decvector[q] == old(decvector[q])
  {
    ghost var v, c := decvector[..veclen], cbvec[..veclen];
    var j := 0;
    while j < veclen
      invariant 0 <= j <= veclen
      invariant forall q :: 0 <= q < j ==> decvector[q] == Axpy(v, gain, c)[q]
      invariant forall q :: j <= q < veclen ==> decvector[q] == v[q]
      invariant forall q :: veclen <= q < decvector.Length ==> decvector[q] == old(decvector[q])
    {
      decvector[j] := decvector[j] + gain * cbvec[j];
      j := j + 1;
    }
  }
}
