/**
 What the stages of the codebook search achieve: a later stage never makes the remainder
 larger, the first one does exactly when its smallest gain overshoots; the adjustment of
 the first gain scales the decoded vector exactly when no later gain sits on the lower
 bound of its scale, and then keeps the energy below that of the target; and the indices
 of the first sub-block survive their conversion to seven bits.
 */
module StageLaws {
  import opened CodecConstants
  import opened Vectors
  import opened Codebook
  import opened CodebookStages
  import CodebookSearch
  import Gains

  // ----- no stage but the first makes the remainder larger ---------------------------

  /** The energy left when a scaled vector is taken off. */
  lemma {:induction false} EnergyAfter(t: seq<real>, g: real, v: seq<real>)
    requires |t| == |v|
    ensures CodebookSearch.Energy(Axpy(t, -g, v))
            == CodebookSearch.Energy(t) + g * (g * CodebookSearch.Energy(v) - 2.0 * Dot(t, v))
  {
    hide Dot;
    var r := Axpy(t, -g, v);
    DotAxpy(t, -g, v, r);
    DotSym(t, r);
    DotAxpy(t, -g, v, t);
    DotSym(v, r);
    DotAxpy(t, -g, v, v);
    DotSym(v, t);
    Expand(Dot(t, t), g, Dot(t, v), Dot(v, v));
  }

  lemma {:induction false} Expand(tt: real, g: real, tv: real, vv: real)
    ensures (tt + -g * tv) + -g * (tv + -g * vv) == tt + g * (g * vv - 2.0 * tv)
  {
    assert -g * (tv + -g * vv) == -g * tv + g * (g * vv);
    assert g * (g * vv - 2.0 * tv) == g * (g * vv) - 2.0 * (g * tv);
  }

  /** A gain at least as near to the best one as zero is does not increase the energy. */
  lemma {:induction false} NearGainHelps(x: real, g: real, e: real, c: real)
    requires Times(x - g, x - g) <= Times(x, x) && e >= 0.0
    requires if e > 0.0 then c == Times(x, e + EPS) else x == 0.0
    ensures g * (g * e - 2.0 * c) <= 0.0
  {
    hide Times;
    TimesIs(g, g * e - 2.0 * c);
    SquareOfDifference(x, g);
    SquareSign(g);
    Spread(g, e, c);
    if e > 0.0 {
      Overshoot(x, g, e, c);
    } else {
      TimesSigns(x, g);
      NoSquare(g);
      TimesSigns(Times(g, g), e);
      TimesSigns(g, c);
    }
  }

  lemma {:induction false} SquareOfDifference(x: real, g: real)
    ensures Times(x - g, x - g) == Times(x, x) - 2.0 * Times(x, g) + Times(g, g)
  {
  }

  lemma {:induction false} Spread(g: real, e: real, c: real)
    ensures Times(g, g * e - 2.0 * c) == Times(Times(g, g), e) - 2.0 * Times(g, c)
  {
  }

  lemma {:induction false} NoSquare(g: real)
    requires Times(g, g) <= 0.0
    ensures g == 0.0
  {
    hide Times;
    SquareSign(g);
  }

  lemma {:induction false} Overshoot(x: real, g: real, e: real, c: real)
    requires 0.0 <= Times(g, g) <= 2.0 * Times(x, g) && e > 0.0 && c == Times(x, e + EPS)
    ensures Times(Times(g, g), e) <= 2.0 * Times(g, c)
  {
    hide Times;
    Regroup(g, x, e + EPS);
    Grows(Times(g, g), 2.0 * Times(x, g), e + EPS);
    Grows(e, e + EPS, Times(g, g));
    Commutes(e, Times(g, g));
    Commutes(e + EPS, Times(g, g));
  }

  lemma {:induction false} Commutes(x: real, y: real)
    ensures Times(x, y) == Times(y, x)
  {
  }

  lemma {:induction false} Regroup(g: real, x: real, y: real)
    ensures 2.0 * Times(g, Times(x, y)) == Times(2.0 * Times(x, g), y)
  {
  }

  lemma {:induction false} Grows(x: real, y: real, k: real)
    requires x <= y && k >= 0.0
    ensures Times(x, k) <= Times(y, k)
  {
    assert (y - x) * k >= 0.0;
  }

  /** The cross product of the best candidate follows from its gain and its energy. */
  lemma {:induction false} CrossOfGain(c: real, e: real, x: real)
    requires e >= 0.0 && x == c * CodebookSearch.InvEnergy(e)
    ensures if e > 0.0 then c == Times(x, e + EPS) else x == 0.0
  {
    if e > 0.0 {
      var d := e + EPS;
      assert x == c * (1.0 / d);
      Cancel(c, d);
    }
  }

  lemma {:induction false} Cancel(c: real, d: real)
    requires d > 0.0
    ensures c * (1.0 / d) * d == c
  {
    assert 1.0 / d * d == 1.0;
  }

  /** What a stage left and what it leaves. */
  function Left(m: seq<real>, target: seq<real>, index: seq<nat>, gi: seq<nat>, s: nat): (t: seq<real>)
    requires Usable(|m|, |target|) && Indices(|m|, |target|, index) && GainIndices(gi) && s <= |index| == |gi|
    ensures |t| == |target|
  {
    PrefixIndices(gi, s);
    Residual(m, target, index[..s], GainsOf(gi[..s]))
  }

  /** One stage takes its vector, times its gain, off the remainder. */
  lemma {:induction false} LeftStep(m: seq<real>, target: seq<real>, index: seq<nat>, gi: seq<nat>, s: nat)
    requires Usable(|m|, |target|) && Indices(|m|, |target|, index) && GainIndices(gi) && s < |index| == |gi|
    ensures |GainsOf(gi)| == |gi|
    ensures Left(m, target, index, gi, s + 1)
            == Axpy(Left(m, target, index, gi, s), -GainsOf(gi)[s], CodebookVector(m, index[s], |target|))
    ensures GainIndices(gi[..s])
            && GainsOf(gi)[s] == Gains.GainDequant(gi[s], MaxIn(GainsOf(gi[..s])), GainLength(s))
  {
    hide CodebookVector, Gains.GainDequant, MaxIn;
    var g, g' := GainsOf(gi[..s]), GainsOf(gi[..s + 1]);
    assert index[..s + 1][..s] == index[..s] && gi[..s + 1][..s] == gi[..s];
    assert g'[..s] == g;
    GainsPrefix(gi, s + 1);
  }

  lemma {:induction false} GainsPrefix(gi: seq<nat>, n: nat)
    requires GainIndices(gi) && n <= |gi|
    ensures GainIndices(gi[..n]) && GainsOf(gi[..n]) == GainsOf(gi)[..n]
  {
    hide Gains.GainDequant, MaxIn;
    if n < |gi| {
      GainsPrefix(gi[..|gi| - 1], n);
      assert gi[..|gi| - 1][..n] == gi[..n];
    } else {
      assert gi[..n] == gi;
    }
  }

  /** The quantised gain, as an entry of its table. */
  lemma {:induction false} GainIsEntry(g: seq<real>, stage: nat, j: nat)
    requires j < GainLength(stage)
    ensures Gains.GainDequant(j, MaxIn(g), GainLength(stage))
            == Gains.AtLeastTenth(MaxIn(g)) * Gains.Table(GainLength(stage))[j]
    ensures MaxIn(g) >= 0.0
  {
    hide Gains.GainDequant, Gains.Table;
    Gains.DequantIs(j, MaxIn(g), GainLength(stage));
  }

  /** No stage after the first makes the remainder larger: zero is among its gains. */
  lemma {:induction false} LaterStagesNeverHurt(m: seq<real>, target: seq<real>, ranges: seq<nat>, index: seq<nat>,
                                                gi: seq<nat>, s: nat)
    requires Usable(|m|, |target|) && Ranges(|m|, |target|, ranges) && |index| == |gi| <= |ranges|
    requires Searched(m, target, ranges, index, gi) && 0 < s < |index|
    ensures CodebookSearch.Energy(Left(m, target, index, gi, s + 1))
            <= CodebookSearch.Energy(Left(m, target, index, gi, s))
  {
    hide CodebookVector, Gains.GainDequant, CodebookSearch.StageBest, Residual, GainsOf, MaxIn, Gains.Table;
    hide Gains.NearestGain, Gains.Miss, CodebookSearch.InvEnergy, CodebookSearch.Energy, Gains.AtLeastTenth, Times;
    PrefixIndices(gi, s);
    var t, g := Left(m, target, index, gi, s), GainsOf(gi[..s]);
    var b := CodebookSearch.StageBest(s, m, t, ranges[s]);
    var v := CodebookVector(m, index[s], |target|);
    assert StageDone(m, target, ranges, index, gi, s);
    StageFinds(s, m, t, ranges[s]);
    LeftStep(m, target, index, gi, s);
    var gain := GainsOf(gi)[s];
    GainIsEntry(g, s, gi[s]);
    assert gain == Gains.AtLeastTenth(MaxIn(g)) * Gains.Table(GainLength(s))[gi[s]];
    EnergyAfter(t, gain, v);
    NearerThanNone(b.gain, MaxIn(g), GainLength(s), gi[s], gain);
    if OwnGain(m, t, b) {
      OwnCross(m, t, b);
      NearGainHelps(b.gain, gain, CodebookSearch.Energy(v), Dot(t, v));
    } else {
      NearNoneIsNone(b.gain, gain);
    }
  }

  lemma {:induction false} NearNoneIsNone(x: real, g: real)
    requires x == 0.0 && Times(x - g, x - g) <= Times(x, x)
    ensures g == 0.0
  {
    hide Times;
    SquareOfDifference(x, g);
    TimesSigns(x, g);
    TimesSigns(x, x);
    NoSquare(g);
  }

  lemma {:induction false} OwnCross(m: seq<real>, t: seq<real>, b: CodebookSearch.Best)
    requires Usable(|m|, |t|) && OwnGain(m, t, b)
    ensures var v := CodebookVector(m, b.index, |t|);
            var e := CodebookSearch.Energy(v);
            e >= 0.0 && if e > 0.0 then Dot(t, v) == Times(b.gain, e + EPS) else b.gain == 0.0
  {
    hide CodebookVector, Dot, Times, CodebookSearch.InvEnergy;
    var v := CodebookVector(m, b.index, |t|);
    DotSelfNonNegative(v);
    CrossOfGain(Dot(t, v), CodebookSearch.Energy(v), b.gain);
  }

  lemma {:induction false} NearerThanNone(x: real, maxIn: real, cblen: nat, best: nat, g: real)
    requires Gains.IsLength(cblen) && cblen != 32 && -2.0 <= x <= 2.0
    requires best < cblen && Gains.NearestGain(x, maxIn, cblen, best)
    requires g == Gains.AtLeastTenth(maxIn) * Gains.Table(cblen)[best]
    ensures Times(x - g, x - g) <= Times(x, x)
  {
    hide Times, Gains.Table, Gains.AtLeastTenth, Gains.Miss, Gains.NearestGain;
    Gains.NearestIsNearest(x, maxIn, cblen, best);
    Gains.NoGain(x, maxIn);
    Gains.MissIs(x, maxIn, cblen, best);
  }

  /** So the stages after the first together do not either. */
  lemma {:induction false} RefinementNeverHurts(m: seq<real>, target: seq<real>, ranges: seq<nat>, index: seq<nat>,
                                                gi: seq<nat>, s: nat)
    requires Usable(|m|, |target|) && Ranges(|m|, |target|, ranges) && |index| == |gi| <= |ranges|
    requires Searched(m, target, ranges, index, gi) && 0 < s <= |index|
    ensures CodebookSearch.Energy(Left(m, target, index, gi, s))
            <= CodebookSearch.Energy(Left(m, target, index, gi, 1))
    decreases s
  {
    hide Left, Searched, CodebookSearch.Energy;
    if s > 1 {
      LaterStagesNeverHurt(m, target, ranges, index, gi, s - 1);
      RefinementNeverHurts(m, target, ranges, index, gi, s - 1);
    }
  }

  /** A candidate that the first stage may take: positively correlated with the target, and
      with a gain below the limit. */
  predicate Promising(m: seq<real>, target: seq<real>, i: nat)
    requires Usable(|m|, |target|) && i < 2 * BaseSize(|m|, |target|)
  {
    Dot(target, CodebookVector(m, i, |target|)) > 0.0 && CodebookSearch.Admissible(m, target, i)
  }

  /** A result of the first stage that is a candidate. */
  predicate Found(m: seq<real>, target: seq<real>, b: CodebookSearch.Best)
    requires Usable(|m|, |target|)
  {
    OwnGain(m, target, b) && b.gain > 0.0 && b.measure >= 0.0 && Promising(m, target, b.index)
  }

  lemma {:induction false} PositiveGain(t: seq<real>, v: seq<real>)
    requires |t| == |v| && Dot(t, v) > 0.0
    ensures CodebookSearch.Energy(v) > 0.0
    ensures Dot(t, v) * CodebookSearch.InvEnergy(CodebookSearch.Energy(v)) > 0.0
    ensures Dot(t, v) * Dot(t, v) * CodebookSearch.InvEnergy(CodebookSearch.Energy(v)) >= 0.0
  {
    if forall i :: 0 <= i < |v| ==> v[i] == 0.0 {
      DotZero(t, v);
    }
    var i :| 0 <= i < |v| && v[i] != 0.0;
    DotSelfPositive(v, i);
    var c, d := Dot(t, v), 1.0 / (CodebookSearch.Energy(v) + EPS);
    hide Dot;
    TimesSigns(c, d);
    TimesSigns(Times(c, c), d);
    TimesSigns(c, c);
  }

  lemma {:induction false} FoundIs(m: seq<real>, target: seq<real>, b: CodebookSearch.Best, i: nat)
    requires Usable(|m|, |target|) && i < 2 * BaseSize(|m|, |target|) && b.measure >= CodebookSearch.NO_MEASURE
    ensures var r := CodebookSearch.ConsiderVector(b, 0, m, target, i);
            r == b || (r.index == i && Found(m, target, r))
  {
    hide CodebookVector, Dot, CodebookSearch.Energy, CodebookSearch.InvEnergy;
    var v := CodebookVector(m, i, |target|);
    if Dot(target, v) > 0.0 {
      PositiveGain(target, v);
    }
  }

  /** In the first stage the search keeps what it had or takes a promising candidate. */
  lemma {:induction false} PicksPromising(b: CodebookSearch.Best, m: seq<real>, target: seq<real>, indices: seq<nat>)
    requires Usable(|m|, |target|) && b.measure >= CodebookSearch.NO_MEASURE
    requires forall i :: 0 <= i < |indices| ==> indices[i] < 2 * BaseSize(|m|, |target|)
    ensures var r := CodebookSearch.BestOf(b, 0, m, target, indices);
            r == b || (r.index in indices && Found(m, target, r))
  {
    hide Found, CodebookSearch.ConsiderVector;
    if indices != [] {
      var n := |indices| - 1;
      PicksPromising(b, m, target, indices[..n]);
      var p := CodebookSearch.BestOf(b, 0, m, target, indices[..n]);
      assert p.measure >= CodebookSearch.NO_MEASURE by {
        CodebookSearch.BestOfIsMaximal(b, 0, m, target, indices[..n]);
      }
      FoundIs(m, target, p, indices[n]);
    }
  }

  const NOTHING := CodebookSearch.Best(0, CodebookSearch.NO_MEASURE, 0.0)

  /** Among indices without a promising one nothing is found, and otherwise something is. */
  lemma {:induction false} NothingAmongIff(m: seq<real>, target: seq<real>, indices: seq<nat>)
    requires Usable(|m|, |target|)
    requires forall i :: 0 <= i < |indices| ==> indices[i] < 2 * BaseSize(|m|, |target|)
    ensures var r := CodebookSearch.BestOf(NOTHING, 0, m, target, indices);
            && (r == NOTHING || Found(m, target, r))
            && (r == NOTHING <==> forall i :: 0 <= i < |indices| ==> !Promising(m, target, indices[i]))
  {
    hide CodebookSearch.BestOf, CodebookVector, OwnGain;
    PicksPromising(NOTHING, m, target, indices);
    CodebookSearch.BestOfIsMaximal(NOTHING, 0, m, target, indices);
    forall i | 0 <= i < |indices| && Promising(m, target, indices[i])
      ensures CodebookSearch.MeasureOf(0, m, target, indices[i]) >= 0.0
    {
      PositiveGain(target, CodebookVector(m, indices[i], |target|));
    }
  }

  /** No candidate of the first stage is promising: none of the first search, and none of
      the second around index 0. */
  predicate NonePromising(m: seq<real>, target: seq<real>, range: nat)
    requires Usable(|m|, |target|) && CodebookSearch.CB_RESRANGE <= range <= |m| - |target| + 1
  {
    var first := CodebookSearch.FirstIndices(|m|, |target|, range);
    var second := CodebookSearch.SecondIndices(|m|, |target|, range, 0);
    && (forall i :: 0 <= i < |first| ==> !Promising(m, target, first[i]))
    && (forall i :: 0 <= i < |second| ==> !Promising(m, target, second[i]))
  }

  /** The first stage finds nothing exactly when there is nothing promising; what it finds
      has a positive gain. */
  lemma {:induction false} FirstStageFinds(m: seq<real>, target: seq<real>, range: nat)
    requires Usable(|m|, |target|) && CodebookSearch.CB_RESRANGE <= range <= |m| - |target| + 1
    ensures var b := CodebookSearch.StageBest(0, m, target, range);
            && b.index < 2 * BaseSize(|m|, |target|)
            && (if NonePromising(m, target, range) then b == NOTHING else Found(m, target, b))
  {
    hide CodebookSearch.BestOf, Promising, OwnGain;
    var first := CodebookSearch.FirstIndices(|m|, |target|, range);
    var b1 := CodebookSearch.BestOf(NOTHING, 0, m, target, first);
    CodebookSearch.FirstBestIsFirstHalf(0, m, target, range);
    NothingAmongIff(m, target, first);
    var second := CodebookSearch.SecondIndices(|m|, |target|, range, b1.index);
    if b1 == NOTHING {
      NothingAmongIff(m, target, second);
    } else {
      PicksPromising(b1, m, target, second);
    }
    StageFinds(0, m, target, range);
  }

  /** The first stage has no zero gain: it does not make the remainder larger if and only
      if the smallest gain of its table is at most twice the best one, but for EPS, or, with
      nothing promising, does not overshoot on vector 0. */
  lemma {:induction false} FirstStageHelpsIff(m: seq<real>, target: seq<real>, ranges: seq<nat>, index: seq<nat>,
                                              gi: seq<nat>)
    requires Usable(|m|, |target|) && Ranges(|m|, |target|, ranges) && 0 < |index| == |gi| <= |ranges|
    requires Searched(m, target, ranges, index, gi)
    ensures CodebookSearch.StageBest(0, m, target, ranges[0]).index < 2 * BaseSize(|m|, |target|)
    ensures var b := CodebookSearch.StageBest(0, m, target, ranges[0]);
            var e0 := CodebookSearch.Energy(CodebookVector(m, 0, |target|));
            var e := CodebookSearch.Energy(CodebookVector(m, b.index, |target|));
            CodebookSearch.Energy(Left(m, target, index, gi, 1)) <= CodebookSearch.Energy(target)
            <==> (if NonePromising(m, target, ranges[0])
                  then Times(Gains.GAIN_SQ5[0], e0) <= 2.0 * Dot(target, CodebookVector(m, 0, |target|))
                  else Times(Gains.GAIN_SQ5[0], e) <= 2.0 * Times(b.gain, e + EPS))
  {
    hide CodebookVector, CodebookSearch.StageBest, Dot, Times, Gains.GAIN_SQ5, Left, Searched, NonePromising;
    hide CodebookSearch.InvEnergy;
    Gains.Entries();
    FirstRange(|m|, |target|, ranges);
    FirstStageFinds(m, target, ranges[0]);
    FirstStage(m, target, ranges, index, gi);
    OvershootIff(m, target, ranges, index, gi);
    var b := CodebookSearch.StageBest(0, m, target, ranges[0]);
    if !NonePromising(m, target, ranges[0]) {
      OwnCross(m, target, b);
    }
  }

  /** A gain of half the smallest entry is enough. */
  lemma {:induction false} FirstStageHelpsWhen(m: seq<real>, target: seq<real>, ranges: seq<nat>, index: seq<nat>,
                                               gi: seq<nat>)
    requires Usable(|m|, |target|) && Ranges(|m|, |target|, ranges) && 0 < |index| == |gi| <= |ranges|
    requires Searched(m, target, ranges, index, gi)
    requires 2.0 * CodebookSearch.StageBest(0, m, target, ranges[0]).gain >= Gains.GAIN_SQ5[0]
    ensures CodebookSearch.Energy(Left(m, target, index, gi, 1)) <= CodebookSearch.Energy(target)
  {
    hide CodebookVector, CodebookSearch.StageBest, Dot, Times, Left, Searched, NonePromising, Promising;
    hide CodebookSearch.InvEnergy;
    FirstRange(|m|, |target|, ranges);
    FirstStageFinds(m, target, ranges[0]);
    FirstStageHelpsIff(m, target, ranges, index, gi);
    var b := CodebookSearch.StageBest(0, m, target, ranges[0]);
    var e := CodebookSearch.Energy(CodebookVector(m, b.index, |target|));
    DotSelfNonNegative(CodebookVector(m, b.index, |target|));
    EnoughGain(b.gain, Gains.GAIN_SQ5[0], e);
  }

  lemma {:induction false} EnoughGain(x: real, g: real, e: real)
    requires 0.0 < g <= 2.0 * x && e >= 0.0
    ensures Times(g, e) <= 2.0 * Times(x, e + EPS)
  {
    hide Times;
    Grows(g, 2.0 * x, e);
    Grows(e, e + EPS, 2.0 * x);
    Commutes(e, 2.0 * x);
    Commutes(e + EPS, 2.0 * x);
    Regroup(1.0, x, e + EPS);
    Ones(x, Times(x, e + EPS));
  }

  /** In terms of the vector that was taken: the smallest gain does not overshoot. */
  lemma {:induction false} OvershootIff(m: seq<real>, target: seq<real>, ranges: seq<nat>, index: seq<nat>,
                                        gi: seq<nat>)
    requires Usable(|m|, |target|) && Ranges(|m|, |target|, ranges) && 0 < |index| == |gi| <= |ranges|
    requires Searched(m, target, ranges, index, gi)
    ensures var v := CodebookVector(m, index[0], |target|);
            CodebookSearch.Energy(Left(m, target, index, gi, 1)) <= CodebookSearch.Energy(target)
            <==> Times(Gains.GAIN_SQ5[0], CodebookSearch.Energy(v)) <= 2.0 * Dot(target, v)
  {
    hide CodebookVector, Gains.GainDequant, CodebookSearch.StageBest, Residual, Dot;
    hide Gains.NearestGain, Gains.Miss, CodebookSearch.InvEnergy, Times, Gains.GAIN_SQ5, Left, Searched, Ranges;
    Gains.Entries();
    FirstRange(|m|, |target|, ranges);
    FirstStage(m, target, ranges, index, gi);
    var b := CodebookSearch.StageBest(0, m, target, ranges[0]);
    var v := CodebookVector(m, index[0], |target|);
    var gain := Gains.GAIN_SQ5[gi[0]];
    EnergyAfter(target, gain, v);
    DotSelfNonNegative(v);
    if gi[0] > 0 {
      Gains.Increasing(0, gi[0]);
      NearerThanFirst(GainIn(0, b.gain), gi[0]);
      OwnCross(m, target, b);
      Reaches(b.gain, gain, Gains.GAIN_SQ5[0], CodebookSearch.Energy(v), Dot(target, v));
    }
    Gains.Positive(gi[0]);
    PositiveFactor(gain, gain * CodebookSearch.Energy(v) - 2.0 * Dot(target, v));
    TimesIs(gain, CodebookSearch.Energy(v));
  }

  /** What the first stage takes off. */
  lemma {:induction false} FirstStage(m: seq<real>, target: seq<real>, ranges: seq<nat>, index: seq<nat>, gi: seq<nat>)
    requires Usable(|m|, |target|) && Ranges(|m|, |target|, ranges) && 0 < |index| == |gi| <= |ranges|
    requires Searched(m, target, ranges, index, gi)
    ensures var b := CodebookSearch.StageBest(0, m, target, ranges[0]);
            && index[0] == b.index && gi[0] < 32
            && Gains.NearestGain(GainIn(0, b.gain), 1.0, 32, gi[0])
            && ((b.index == 0 && b.gain == 0.0) || OwnGain(m, target, b))
    ensures Left(m, target, index, gi, 1)
            == Axpy(target, -Gains.GAIN_SQ5[gi[0]], CodebookVector(m, index[0], |target|))
  {
    hide CodebookVector, CodebookSearch.StageBest, Gains.NearestGain, GainIn, OwnGain, GainsOf, Residual;
    hide Gains.GAIN_SQ5, Gains.GainDequant, Ranges;
    Gains.Entries();
    assert StageDone(m, target, ranges, index, gi, 0);
    assert index[..0] == [] && gi[..0] == [];
    NoStage(m, target);
    assert Ranges(|m|, |target|, ranges) && GainsOf(gi[..0]) == [] && Left(m, target, index, gi, 0) == target;
    FirstRange(|m|, |target|, ranges);
    StageFinds(0, m, target, ranges[0]);
    LeftStep(m, target, index, gi, 0);
    FirstGain(gi);
  }

  lemma {:induction false} FirstRange(lMem: nat, len: nat, ranges: seq<nat>)
    requires Usable(lMem, len) && Ranges(lMem, len, ranges) && ranges != []
    ensures CodebookSearch.CB_RESRANGE <= ranges[0] <= lMem - len + 1
  {
  }

  /** An entry chosen before a smaller one is at most twice the gain. */
  lemma {:induction false} NearerThanFirst(x: real, k: nat)
    requires 0 < k < 32 && -2.0 <= x <= 2.0 && Gains.NearestGain(x, 1.0, 32, k)
    ensures 2.0 * x >= Gains.GAIN_SQ5[k] + Gains.GAIN_SQ5[0]
  {
    hide Times, Gains.Miss, Gains.NearestGain;
    Gains.NearestIsNearest(x, 1.0, 32, k);
    Gains.MissIs(x, 1.0, 32, k);
    Gains.MissIs(x, 1.0, 32, 0);
    Gains.Increasing(0, k);
    BeyondHalf(x, Gains.GAIN_SQ5[0], Gains.GAIN_SQ5[k]);
  }

  lemma {:induction false} BeyondHalf(x: real, a: real, b: real)
    requires a < b && Times(x - b, x - b) <= Times(x - a, x - a)
    ensures 2.0 * x >= a + b
  {
    assert (x - a) * (x - a) - (x - b) * (x - b) == (b - a) * (2.0 * x - a - b);
    assert (b - a) * (2.0 * x - a - b) == -Times(b - a, a + b - 2.0 * x);
    TimesSigns(b - a, a + b - 2.0 * x);
  }

  /** A gain of at most twice the best one does not overshoot, nor does a smaller one. */
  lemma {:induction false} Reaches(x: real, g: real, g0: real, e: real, c: real)
    requires 0.0 < g0 < g <= 2.0 * x && e > 0.0 && c == Times(x, e + EPS)
    ensures Times(g, e) <= 2.0 * c && Times(g0, e) <= 2.0 * c
  {
    hide Times;
    Grows(g0, g, e);
    Grows(g, 2.0 * x, e + EPS);
    Grows(e, e + EPS, g);
    Commutes(e, g);
    Commutes(e + EPS, g);
    Regroup(1.0, x, e + EPS);
    Ones(x, Times(x, e + EPS));
  }

  lemma {:induction false} Ones(x: real, y: real)
    ensures Times(x, 1.0) == x && Times(1.0, y) == y
  {
  }

  lemma {:induction false} PositiveFactor(g: real, y: real)
    requires g > 0.0
    ensures g * y <= 0.0 <==> y <= 0.0
  {
    if y > 0.0 {
      assert g * y > 0.0;
    } else if y < 0.0 {
      assert g * -y > 0.0;
    }
  }

  /** Silence finds nothing, and the smallest gain is spent on the first vector: the
      first stage leaves more than there was. */
  lemma {:induction false} SilenceGetsLouder(m: seq<real>, target: seq<real>, ranges: seq<nat>, index: seq<nat>,
                                             gi: seq<nat>)
    requires Usable(|m|, |target|) && Ranges(|m|, |target|, ranges) && 0 < |index| == |gi| <= |ranges|
    requires Searched(m, target, ranges, index, gi) && target == Zeros(|target|) && m[|m| - 1] != 0.0
    ensures index[0] == 0
    ensures CodebookSearch.Energy(Left(m, target, index, gi, 1)) > CodebookSearch.Energy(target)
  {
    hide Left, Times, Searched, CodebookSearch.BestOf;
    OvershootIff(m, target, ranges, index, gi);
    FirstStage(m, target, ranges, index, gi);
    var b0 := CodebookSearch.Best(0, CodebookSearch.NO_MEASURE, 0.0);
    var first := CodebookSearch.FirstIndices(|m|, |target|, ranges[0]);
    CodebookSearch.FirstBestIsFirstHalf(0, m, target, ranges[0]);
    SilenceFindsNothing(m, target, first);
    SilenceFindsNothing(m, target, CodebookSearch.SecondIndices(|m|, |target|, ranges[0], 0));
    var v := CodebookVector(m, 0, |target|);
    assert v[|target| - 1] == m[|m| - 1];
    DotSelfPositive(v, |target| - 1);
    DotZeroLeft(target, v);
    TimesSigns(Gains.GAIN_SQ5[0], CodebookSearch.Energy(v));
  }

  lemma {:induction false} SilenceFindsNothing(m: seq<real>, target: seq<real>, indices: seq<nat>)
    requires Usable(|m|, |target|) && target == Zeros(|target|)
    requires forall i :: 0 <= i < |indices| ==> indices[i] < 2 * BaseSize(|m|, |target|)
    ensures var b0 := CodebookSearch.Best(0, CodebookSearch.NO_MEASURE, 0.0);
            CodebookSearch.BestOf(b0, 0, m, target, indices) == b0
  {
    hide CodebookVector, Dot, CodebookSearch.InvEnergy;
    if indices != [] {
      var n := |indices| - 1;
      SilenceFindsNothing(m, target, indices[..n]);
      DotZeroLeft(target, CodebookVector(m, indices[n], |target|));
    }
  }

  // ----- the adjustment of the first gain -----------------------------------------------

  function Scaled(k: real, v: seq<real>): (w: seq<real>)
    ensures |w| == |v|
  {
    seq(|v|, i requires 0 <= i < |v| => Times(k, v[i]))
  }

  /** Whether no later gain rests on the lower bound of its scale. */
  predicate ScalesFreely(gi: seq<nat>)
    requires GainIndices(gi)
  {
    forall s :: 0 < s < |gi| ==>
      Abs(GainsOf(gi)[s - 1]) >= 0.1 || Gains.Table(GainLength(s))[gi[s]] == 0.0
  }

  function Ratio(gi: seq<nat>, j: nat): real
    requires GainIndices(gi) && gi != [] && j < 32
  {
    Gains.Positive(gi[0]);
    Gains.GAIN_SQ5[j] / Gains.GAIN_SQ5[gi[0]]
  }

  /** Raising the first gain raises all of them in proportion if and only if no later one
      rests on the lower bound. */
  lemma {:induction false} GainsScaleIff(gi: seq<nat>, j: nat)
    requires GainIndices(gi) && gi != [] && gi[0] < j < 32
    ensures GainIndices(gi[0 := j])
    ensures GainsOf(gi[0 := j]) == Scaled(Ratio(gi, j), GainsOf(gi)) <==> ScalesFreely(gi)
  {
    hide Gains.Table, Gains.GAIN_SQ5, Gains.GainDequant, Gains.AtLeastTenth, Abs, MaxIn, Times;
    var n := |gi| - 1;
    var k := Ratio(gi, j);
    if n == 0 {
      FirstGain(gi);
      FirstGain(gi[0 := j]);
      FirstScales(gi, j);
      ScaledConcat(k, [], [], GainsOf(gi)[0], GainsOf(gi[0 := j])[0]);
      assert [] + [GainsOf(gi)[0]] == GainsOf(gi) && [] + [GainsOf(gi[0 := j])[0]] == GainsOf(gi[0 := j]);
    } else {
      GainsScaleIff(gi[..n], j);
      assert gi[0 := j][..n] == gi[..n][0 := j];
      var g, g' := GainsOf(gi[..n]), GainsOf(gi[0 := j][..n]);
      assert GainsOf(gi) == g + [GainsOf(gi)[n]] && GainsOf(gi[0 := j]) == g' + [GainsOf(gi[0 := j])[n]];
      ScaledConcat(k, g, g', GainsOf(gi)[n], GainsOf(gi[0 := j])[n]);
      FreelyStep(gi);
      if g' == Scaled(k, g) {
        LastGainScales(gi, j, g, g');
      }
    }
  }

  lemma {:induction false} ScaledConcat(k: real, g: seq<real>, g': seq<real>, x: real, x': real)
    requires |g| == |g'|
    ensures g' + [x'] == Scaled(k, g + [x]) <==> g' == Scaled(k, g) && x' == Times(k, x)
  {
    hide Times;
    var n := |g|;
    assert (g' + [x'])[..n] == g' && (g' + [x'])[n] == x';
    forall i | 0 <= i < n ensures Scaled(k, g + [x])[i] == Scaled(k, g)[i] {
      assert (g + [x])[i] == g[i];
    }
    assert Scaled(k, g + [x]) == Scaled(k, g) + [Times(k, x)];
  }

  lemma {:induction false} FreelyStep(gi: seq<nat>)
    requires GainIndices(gi) && |gi| > 1
    ensures var n := |gi| - 1;
            && GainIndices(gi[..n]) && GainsOf(gi[..n]) == GainsOf(gi)[..n]
            && (ScalesFreely(gi) <==>
                (&& ScalesFreely(gi[..n])
                 && (Abs(GainsOf(gi[..n])[n - 1]) >= 0.1 || Gains.Table(GainLength(n))[gi[n]] == 0.0)))
  {
    hide Gains.Table, Abs, Gains.GainDequant, GainsOf, GainLength;
    var n := |gi| - 1;
    GainsPrefix(gi, n);
    assert forall s :: 0 <= s < n ==> gi[..n][s] == gi[s] && GainsOf(gi[..n])[s] == GainsOf(gi)[s];
  }

  lemma {:induction false} FirstScales(gi: seq<nat>, j: nat)
    requires GainIndices(gi) && gi != [] && gi[0] < j < 32
    ensures Gains.GAIN_SQ5[j] == Times(Ratio(gi, j), Gains.GAIN_SQ5[gi[0]]) && Ratio(gi, j) > 1.0
  {
    Gains.Increasing(gi[0], j);
    QuotientTimes(Gains.GAIN_SQ5[j], Gains.GAIN_SQ5[gi[0]]);
  }

  lemma {:induction false} QuotientTimes(x: real, y: real)
    requires 0.0 < y
    ensures x == x / y * y && (x > y ==> x / y > 1.0)
  {
    PositiveFactor(y, x / y - 1.0);
    assert y * (x / y - 1.0) == x - y;
  }

  lemma {:induction false} LastGainScales(gi: seq<nat>, j: nat, g: seq<real>, g': seq<real>)
    requires GainIndices(gi) && |gi| > 1 && gi[0] < j < 32
    requires g == GainsOf(gi[..|gi| - 1]) && GainIndices(gi[0 := j]) && g' == GainsOf(gi[0 := j][..|gi| - 1])
    requires g' == Scaled(Ratio(gi, j), g)
    ensures var n := |gi| - 1;
            GainsOf(gi[0 := j])[n] == Times(Ratio(gi, j), GainsOf(gi)[n])
            <==> Abs(g[n - 1]) >= 0.1 || Gains.Table(GainLength(n))[gi[n]] == 0.0
  {
    hide Gains.Table, Gains.GAIN_SQ5, Gains.GainDequant, Gains.AtLeastTenth, Ratio, MaxIn, Times;
    var n := |gi| - 1;
    var k := Ratio(gi, j);
    FirstScales(gi, j);
    GainIsEntry(g, n, gi[n]);
    GainIsEntry(g', n, gi[n]);
    assert gi[0 := j][n] == gi[n];
    AbsScales(k, g[n - 1]);
    assert MaxIn(g) == Abs(g[n - 1]) && MaxIn(g') == Times(k, MaxIn(g)) by {
      Last(g);
      Last(g');
    }
    ScaleOrFloor(MaxIn(g), k, Gains.Table(GainLength(n))[gi[n]], GainsOf(gi)[n], GainsOf(gi[0 := j])[n]);
  }

  lemma {:induction false} Last(g: seq<real>)
    requires g != []
    ensures MaxIn(g) == Abs(g[|g| - 1])
  {
  }

  lemma {:induction false} AbsScales(k: real, x: real)
    requires k > 0.0
    ensures Abs(Times(k, x)) == Times(k, Abs(x))
  {
    if x < 0.0 {
      assert k * -x > 0.0;
      assert k * -x == -(k * x);
    } else if x > 0.0 {
      assert k * x > 0.0;
    }
  }

  /** Scaling passes the lower bound only above it. */
  lemma {:induction false} ScaleOrFloor(a: real, k: real, q: real, x: real, x': real)
    requires a >= 0.0 && k > 1.0 && x == Gains.AtLeastTenth(a) * q && x' == Gains.AtLeastTenth(Times(k, a)) * q
    ensures x' == Times(k, x) <==> a >= 0.1 || q == 0.0
  {
    hide Times, Gains.AtLeastTenth;
    var f, f' := Gains.AtLeastTenth(a), Gains.AtLeastTenth(Times(k, a));
    SameTimes(f', Times(k, f), q);
    TimesIs(f, q);
    TimesIs(f', q);
    Regrouped(k, f, q);
    assert x == Times(f, q) && x' == Times(f', q);
    Floors(a, k);
  }

  lemma {:induction false} Associates(k: real, f: real, q: real)
    ensures Times(k, f * q) == Times(k, f) * q
  {
  }

  lemma {:induction false} Regrouped(k: real, f: real, q: real)
    ensures Times(k, Times(f, q)) == Times(Times(k, f), q)
  {
  }

  lemma {:induction false} SameTimes(a: real, b: real, x: real)
    ensures Times(a, x) == Times(b, x) <==> a == b || x == 0.0
  {
    Gains.SameProduct(a, b, x);
  }

  lemma {:induction false} Floors(a: real, k: real)
    requires a >= 0.0 && k > 1.0
    ensures Gains.AtLeastTenth(Times(k, a)) == Times(k, Gains.AtLeastTenth(a)) <==> a >= 0.1
  {
    Grows(1.0, k, a);
    if a < 0.1 {
      StrictlyGrows(a, 0.1, k);
    }
  }

  lemma {:induction false} StrictlyGrows(x: real, y: real, k: real)
    requires x < y && k > 1.0 && y > 0.0
    ensures Times(k, x) < Times(k, y) && y < Times(k, y)
  {
    assert k * (y - x) > 0.0;
    assert (k - 1.0) * y > 0.0;
  }

  lemma {:induction false} ScaledPrefix(k: real, g: seq<real>)
    requires g != []
    ensures var n := |g| - 1; Scaled(k, g)[..n] == Scaled(k, g[..n]) && Scaled(k, g)[n] == Times(k, g[n])
  {
    hide Times;
  }

  /** Scaled gains decode to the scaled vector. */
  lemma {:induction false} CombineScales(m: seq<real>, index: seq<nat>, k: real, g: seq<real>, len: nat)
    requires Usable(|m|, len) && Indices(|m|, len, index) && |g| == |index|
    ensures Combine(m, index, Scaled(k, g), len) == Scaled(k, Combine(m, index, g, len))
  {
    hide CodebookVector, Times;
    if index != [] {
      var n := |index| - 1;
      CombineScales(m, index[..n], k, g[..n], len);
      ScaledPrefix(k, g);
      var c, v := Combine(m, index[..n], g[..n], len), CodebookVector(m, index[n], len);
      AxpyScales(k, c, g[n], v);
    } else {
      forall i | 0 <= i < len ensures Scaled(k, Zeros(len))[i] == 0.0 {
        TimesSigns(0.0, k);
        Commutes(0.0, k);
      }
    }
  }

  lemma {:induction false} AxpyScales(k: real, c: seq<real>, g: real, v: seq<real>)
    requires |c| == |v|
    ensures Axpy(Scaled(k, c), Times(k, g), v) == Scaled(k, Axpy(c, g, v))
  {
    forall i | 0 <= i < |c| ensures Axpy(Scaled(k, c), Times(k, g), v)[i] == Scaled(k, Axpy(c, g, v))[i] {
      Distributes(k, c[i], g, v[i], Axpy(c, g, v)[i]);
    }
  }

  lemma {:induction false} Distributes(k: real, c: real, g: real, v: real, s: real)
    requires s == c + g * v
    ensures Times(k, c) + Times(k, g) * v == Times(k, s)
  {
  }

  lemma {:induction false} EnergyScales(k: real, v: seq<real>)
    ensures CodebookSearch.Energy(Scaled(k, v)) == Times(Times(k, k), CodebookSearch.Energy(v))
  {
    hide Dot;
    var w := Scaled(k, v);
    var z := Zeros(|v|);
    assert Axpy(z, k, v) == w by {
      forall i | 0 <= i < |v| ensures Axpy(z, k, v)[i] == w[i] {
        TimesIs(k, v[i]);
      }
    }
    DotAxpy(z, k, v, w);
    DotZeroLeft(z, w);
    DotSym(v, w);
    DotAxpy(z, k, v, v);
    DotZeroLeft(z, v);
    TimesIs(k, k * Dot(v, v));
    Associates(k, k, Dot(v, v));
    TimesIs(Times(k, k), Dot(v, v));
  }

  /** Where the gains scale, the test of the adjustment compares the energy of the vector
      decoded with the raised first gain to that of the target. */
  lemma {:induction false} RaisedKeepsBelow(m: seq<real>, target: seq<real>, index: seq<nat>, gi: seq<nat>, j: nat)
    requires Usable(|m|, |target|) && Indices(|m|, |target|, index) && GainIndices(gi) && 0 < |gi| == |index|
    requires gi[0] < j < 32 && ScalesFreely(gi)
    ensures GainIndices(gi[0 := j])
    ensures CodebookSearch.Energy(Combine(m, index, GainsOf(gi[0 := j]), |target|)) < CodebookSearch.Energy(target)
            <==> LessEnergy(CodebookSearch.Energy(target),
                            CodebookSearch.Energy(Combine(m, index, GainsOf(gi), |target|)), gi[0], j)
  {
    hide CodebookVector, CodebookSearch.Energy, Combine, GainsOf, Times, Gains.GAIN_SQ5;
    Gains.Entries();
    GainsScaleIff(gi, j);
    var k := Ratio(gi, j);
    var c := Combine(m, index, GainsOf(gi), |target|);
    CombineScales(m, index, k, GainsOf(gi), |target|);
    EnergyScales(k, c);
    Gains.Positive(gi[0]);
    FirstScales(gi, j);
    QuotientLess(CodebookSearch.Energy(target), CodebookSearch.Energy(c), k, Gains.GAIN_SQ5[j], Gains.GAIN_SQ5[gi[0]]);
  }

  /** The adjustment keeps its promise: a raised first gain under which the gains scale
      gives a decoded vector with less energy than the target; and the next entry would not,
      or the gain is doubled, or the table is at its end. */
  lemma {:induction false} AdjustmentStops(m: seq<real>, target: seq<real>, index: seq<nat>, gi: seq<nat>, j: nat)
    requires Usable(|m|, |target|) && Indices(|m|, |target|, index) && GainIndices(gi) && 0 < |gi| == |index|
    requires ScalesFreely(gi)
    requires Matched(CodebookSearch.Energy(target),
                     CodebookSearch.Energy(Combine(m, index, GainsOf(gi), |target|)), gi[0], j)
    ensures gi[0] <= j < 32 && GainIndices(gi[0 := j])
    ensures j > gi[0] ==>
              && CodebookSearch.Energy(Combine(m, index, GainsOf(gi[0 := j]), |target|)) < CodebookSearch.Energy(target)
              && Gains.GAIN_SQ5[j - 1] < 2.0 * Gains.GAIN_SQ5[gi[0]]
    ensures j < 31 && Gains.GAIN_SQ5[j] < 2.0 * Gains.GAIN_SQ5[gi[0]] ==>
              && GainIndices(gi[0 := j + 1])
              && CodebookSearch.Energy(Combine(m, index, GainsOf(gi[0 := j + 1]), |target|))
                 >= CodebookSearch.Energy(target)
  {
    hide CodebookVector, CodebookSearch.Energy, Combine, GainsOf, LessEnergy, ScalesFreely, Gains.GAIN_SQ5;
    Gains.Entries();
    if j > gi[0] {
      RaisedKeepsBelow(m, target, index, gi, j);
    }
    if j < 31 {
      RaisedKeepsBelow(m, target, index, gi, j + 1);
    }
  }

  lemma {:induction false} QuotientLess(tene: real, cene: real, k: real, a: real, b: real)
    requires b > 0.0 && a == Times(k, b)
    ensures Times(cene, Times(a, a)) < Times(tene, Times(b, b)) <==> Times(Times(k, k), cene) < tene
  {
    hide Times;
    SquareSign(b);
    SquareOfProduct(cene, k, a, b);
    var x := Times(Times(k, k), cene);
    LessTimes(x, tene, Times(b, b));
  }

  lemma {:induction false} SquareOfProduct(c: real, k: real, a: real, b: real)
    requires a == Times(k, b)
    ensures Times(c, Times(a, a)) == Times(Times(Times(k, k), c), Times(b, b))
  {
    assert a * a == (k * k) * (b * b);
    assert c * ((k * k) * (b * b)) == ((k * k) * c) * (b * b);
  }

  lemma {:induction false} LessTimes(x: real, y: real, p: real)
    requires p > 0.0
    ensures Times(x, p) < Times(y, p) <==> x < y
  {
    if x < y {
      assert (y - x) * p > 0.0;
    } else {
      assert (x - y) * p >= 0.0;
    }
  }

  /** A first gain below a tenth: raising it leaves the second one where it was. */
  lemma {:induction false} FloorHoldsGain()
    ensures GainsOf([0, 0]) == [0.037476, -0.1049988] && GainsOf([1, 0]) == [0.075012, -0.1049988]
    ensures !ScalesFreely([0, 0])
  {
    assert [0, 0][..1] == [0] && [1, 0][..1] == [1] && [0][..0] == [] && [1][..0] == [];
    assert GainsOf([0]) == [0.037476] && GainsOf([1]) == [0.075012];
  }
}
