/**
 What the codebook search is for: the vector and the gain that a stage finds leave the
 least error of all candidates and of all gains. The error counts the energy left and, with
 the small weight that keeps the program's division from being one by zero, the gain.
 */
module BestFit {
  import opened CodecConstants
  import opened Vectors
  import opened Codebook
  import opened CodebookStages
  import opened StageLaws
  import CodebookSearch

  /** What a scaled vector leaves of the target. */
  function Error(t: seq<real>, g: real, v: seq<real>): real
    requires |t| == |v|
  {
    CodebookSearch.Energy(Axpy(t, -g, v)) + EPS * Times(g, g)
  }

  /** Candidates that may win: with a gain below the limit and, in the first stage, with a
      positive correlation. */
  predicate Candidate(stage: nat, m: seq<real>, t: seq<real>, i: nat)
    requires Usable(|m|, |t|) && i < 2 * BaseSize(|m|, |t|)
  {
    CodebookSearch.Admissible(m, t, i) && (stage == 0 ==> Dot(t, CodebookVector(m, i, |t|)) > 0.0)
  }

  // ----- one vector ---------------------------------------------------------------------

  lemma {:induction false} ErrorIs(t: seq<real>, g: real, v: seq<real>)
    requires |t| == |v|
    ensures Error(t, g, v)
            == CodebookSearch.Energy(t) + Times(Times(g, g), CodebookSearch.Energy(v) + EPS) - 2.0 * Times(g, Dot(t, v))
  {
    EnergyAfter(t, g, v);
    var e, c := CodebookSearch.Energy(v), Dot(t, v);
    hide CodebookSearch.Energy, Times, Dot;
    SpreadError(g, e, c, CodebookSearch.Energy(Axpy(t, -g, v)) - CodebookSearch.Energy(t));
  }

  lemma {:induction false} SpreadError(g: real, e: real, c: real, change: real)
    requires change == g * (g * e - 2.0 * c)
    ensures change + EPS * Times(g, g) == Times(Times(g, g), e + EPS) - 2.0 * Times(g, c)
  {
    assert g * (g * e - 2.0 * c) == (g * g) * e - 2.0 * (g * c);
  }

  /** A vector without energy correlates with nothing. */
  lemma {:induction false} NoEnergyNoCross(t: seq<real>, v: seq<real>)
    requires |t| == |v|
    ensures CodebookSearch.Energy(v) >= 0.0
    ensures CodebookSearch.Energy(v) == 0.0 ==> Dot(t, v) == 0.0
  {
    DotSelfNonNegative(v);
    if i :| 0 <= i < |v| && v[i] != 0.0 {
      DotSelfPositive(v, i);
    } else {
      DotZero(t, v);
    }
  }

  /** How much a vector can take off the error: the square of the correlation over the
      energy. */
  function Reduction(t: seq<real>, v: seq<real>): real
    requires |t| == |v|
  {
    Dot(t, v) * Dot(t, v) * CodebookSearch.InvEnergy(CodebookSearch.Energy(v))
  }

  /** Completing the square. */
  lemma {:induction false} CompletedSquare(g: real, c: real, d: real, x: real, less: real)
    requires d > 0.0 && x == c * (1.0 / d) && less == c * c * (1.0 / d)
    ensures Times(Times(g, g), d) - 2.0 * Times(g, c) == Times(d, Times(g - x, g - x)) - less
    ensures less >= 0.0
  {
    var r := 1.0 / d;
    assert r * d == 1.0;
    assert x * d == c by {
      assert c * r * d == c * (r * d);
    }
    assert less == c * x;
    assert c * x == d * (x * x) by {
      assert (x * d) * x == d * (x * x);
    }
    SquareOfDifference(g, x);
    assert Times(d, Times(g - x, g - x)) == d * (g * g) - 2.0 * (d * (g * x)) + d * (x * x);
    assert d * (g * x) == g * (x * d);
    SquareSign(x);
    assert d * (x * x) >= 0.0;
  }

  /** No gain takes more off the error than the reduction. */
  lemma {:induction false} NoGainBeats(t: seq<real>, v: seq<real>, g: real)
    requires |t| == |v|
    ensures Reduction(t, v) >= 0.0
    ensures Error(t, g, v) >= CodebookSearch.Energy(t) - Reduction(t, v)
  {
    ErrorIs(t, g, v);
    NoEnergyNoCross(t, v);
    hide CodebookSearch.Energy, CodebookSearch.InvEnergy, Dot, Error, Times;
    var x := Dot(t, v) * CodebookSearch.InvEnergy(CodebookSearch.Energy(v));
    Gap(g, Dot(t, v), CodebookSearch.Energy(v), x, Reduction(t, v));
    hide Reduction;
  }

  /** The gain of the program takes off exactly that. */
  lemma {:induction false} OwnGainIsBest(t: seq<real>, v: seq<real>, x: real)
    requires |t| == |v| && x == Dot(t, v) * CodebookSearch.InvEnergy(CodebookSearch.Energy(v))
    ensures Error(t, x, v) == CodebookSearch.Energy(t) - Reduction(t, v)
  {
    ErrorIs(t, x, v);
    NoEnergyNoCross(t, v);
    hide CodebookSearch.Energy, CodebookSearch.InvEnergy, Dot, Error, Times;
    Gap(x, Dot(t, v), CodebookSearch.Energy(v), x, Reduction(t, v));
  }

  lemma {:induction false} Gap(g: real, c: real, e: real, x: real, less: real)
    requires e >= 0.0 && (e == 0.0 ==> c == 0.0)
    requires x == c * CodebookSearch.InvEnergy(e) && less == c * c * CodebookSearch.InvEnergy(e)
    ensures less >= 0.0
    ensures Times(Times(g, g), e + EPS) - 2.0 * Times(g, c) >= -less
    ensures g == x ==> Times(Times(g, g), e + EPS) - 2.0 * Times(g, c) == -less
  {
    hide Times;
    if e > 0.0 {
      assert CodebookSearch.InvEnergy(e) == 1.0 / (e + EPS);
      CompletedSquare(g, c, e + EPS, x, less);
      hide CodebookSearch.InvEnergy;
      ScaledSquare(e + EPS, g - x);
    } else {
      assert less == 0.0 && x == 0.0;
      NothingGained(g, c, e + EPS);
    }
  }

  lemma {:induction false} NothingGained(g: real, c: real, d: real)
    requires c == 0.0 && d > 0.0
    ensures Times(g, c) == 0.0 && Times(Times(g, g), d) >= 0.0
    ensures g == 0.0 ==> Times(Times(g, g), d) == 0.0
  {
    SquareSign(g);
    hide Times;
    TimesIs(g, c);
    TimesSigns(Times(g, g), d);
    TimesSigns(g, g);
  }

  lemma {:induction false} ScaledSquare(d: real, y: real)
    requires d > 0.0
    ensures Times(d, Times(y, y)) >= 0.0
    ensures y == 0.0 ==> Times(d, Times(y, y)) == 0.0
  {
    SquareSign(y);
    assert d * Times(y, y) >= 0.0;
  }

  // ----- the candidates of a stage --------------------------------------------------------

  /** A result that the error bears out: nothing, or a vector with its best gain, measured by
      the reduction. */
  predicate BorneOut(m: seq<real>, t: seq<real>, b: CodebookSearch.Best)
    requires Usable(|m|, |t|)
  {
    && b.index < 2 * BaseSize(|m|, |t|)
    && (b == NOTHING
        || (b.measure >= 0.0
            && Error(t, b.gain, CodebookVector(m, b.index, |t|)) == CodebookSearch.Energy(t) - b.measure))
  }

  lemma {:induction false} ConsideredIsBorneOut(b: CodebookSearch.Best, stage: nat, m: seq<real>, t: seq<real>, i: nat)
    requires Usable(|m|, |t|) && i < 2 * BaseSize(|m|, |t|)
    requires BorneOut(m, t, b)
    ensures var r := CodebookSearch.ConsiderVector(b, stage, m, t, i);
            && BorneOut(m, t, r) && r.measure >= b.measure
            && (Candidate(stage, m, t, i) ==> r.measure >= Reduction(t, CodebookVector(m, i, |t|)))
  {
    var v := CodebookVector(m, i, |t|);
    var r := CodebookSearch.ConsiderVector(b, stage, m, t, i);
    ConsideredIs(b, stage, m, t, i);
    NoGainBeats(t, v, 0.0);
    MeasureIsReduction(stage, t, v);
    hide CodebookVector, Dot, CodebookSearch.Energy, CodebookSearch.InvEnergy, Error, Reduction, CodebookSearch.Measure;
    hide CodebookSearch.ConsiderVector, CodebookSearch.Admissible;
    if r != b {
      OwnGainIsBest(t, v, r.gain);
    }
  }

  lemma {:induction false} ConsideredIs(b: CodebookSearch.Best, stage: nat, m: seq<real>, t: seq<real>, i: nat)
    requires Usable(|m|, |t|) && i < 2 * BaseSize(|m|, |t|)
    ensures var r := CodebookSearch.ConsiderVector(b, stage, m, t, i);
            var v := CodebookVector(m, i, |t|);
            var inv := CodebookSearch.InvEnergy(CodebookSearch.Energy(v));
            var measure := CodebookSearch.Measure(stage, Dot(t, v), inv);
            && (r == b || (r.index == i && r.gain == Dot(t, v) * inv && r.measure == measure && measure > b.measure))
            && (CodebookSearch.Admissible(m, t, i) ==> r.measure >= measure)
  {
    hide CodebookVector, Dot, CodebookSearch.Energy, CodebookSearch.InvEnergy, CodebookSearch.Measure, Abs;
  }

  /** The measure of a vector that counts is the reduction. */
  lemma {:induction false} MeasureIsReduction(stage: nat, t: seq<real>, v: seq<real>)
    requires |t| == |v|
    ensures var c := Dot(t, v);
            CodebookSearch.Measure(stage, c, CodebookSearch.InvEnergy(CodebookSearch.Energy(v)))
            == if stage == 0 && c <= 0.0 then CodebookSearch.NO_MEASURE else Reduction(t, v)
  {
    hide Dot, CodebookSearch.Energy, CodebookSearch.InvEnergy;
  }

  lemma {:induction false} BestIsBorneOut(b: CodebookSearch.Best, stage: nat, m: seq<real>, t: seq<real>,
                                          indices: seq<nat>)
    requires Usable(|m|, |t|) && BorneOut(m, t, b)
    requires forall i :: 0 <= i < |indices| ==> indices[i] < 2 * BaseSize(|m|, |t|)
    ensures var r := CodebookSearch.BestOf(b, stage, m, t, indices);
            && BorneOut(m, t, r) && r.measure >= b.measure
            && forall i :: 0 <= i < |indices| && Candidate(stage, m, t, indices[i]) ==>
                 r.measure >= Reduction(t, CodebookVector(m, indices[i], |t|))
  {
    hide CodebookVector, Candidate, Reduction, BorneOut, CodebookSearch.ConsiderVector;
    if indices != [] {
      var n := |indices| - 1;
      BestIsBorneOut(b, stage, m, t, indices[..n]);
      var p := CodebookSearch.BestOf(b, stage, m, t, indices[..n]);
      ConsideredIsBorneOut(p, stage, m, t, indices[n]);
      forall i | 0 <= i < n ensures indices[..n][i] == indices[i] {
      }
    }
  }

  /** No candidate among some indices, with no gain whatever, leaves a smaller error. */
  ghost predicate Unbeaten(stage: nat, m: seq<real>, t: seq<real>, b: CodebookSearch.Best, indices: seq<nat>)
    requires Usable(|m|, |t|) && b.index < 2 * BaseSize(|m|, |t|)
    requires forall i :: 0 <= i < |indices| ==> indices[i] < 2 * BaseSize(|m|, |t|)
  {
    forall i, g: real :: 0 <= i < |indices| && Candidate(stage, m, t, indices[i]) ==>
      Error(t, b.gain, CodebookVector(m, b.index, |t|)) <= Error(t, g, CodebookVector(m, indices[i], |t|))
  }

  lemma {:induction false} ReductionDecides(stage: nat, m: seq<real>, t: seq<real>, b: CodebookSearch.Best,
                                            indices: seq<nat>)
    requires Usable(|m|, |t|) && BorneOut(m, t, b)
    requires forall i :: 0 <= i < |indices| ==> indices[i] < 2 * BaseSize(|m|, |t|)
    requires forall i :: 0 <= i < |indices| && Candidate(stage, m, t, indices[i]) ==>
               b.measure >= Reduction(t, CodebookVector(m, indices[i], |t|))
    ensures Unbeaten(stage, m, t, b, indices)
  {
    hide CodebookVector, Candidate, Reduction, Error;
    forall i, g: real | 0 <= i < |indices| && Candidate(stage, m, t, indices[i])
      ensures Error(t, b.gain, CodebookVector(m, b.index, |t|)) <= Error(t, g, CodebookVector(m, indices[i], |t|))
    {
      NoGainBeats(t, CodebookVector(m, indices[i], |t|), g);
    }
  }

  /** The best of the first search leaves the least error of its candidates; the result of
      the stage leaves the least of these and of the candidates in the window around that. */
  lemma {:induction false} StageIsBestFit(stage: nat, m: seq<real>, t: seq<real>, range: nat)
    requires Usable(|m|, |t|) && CodebookSearch.CB_RESRANGE <= range <= |m| - |t| + 1
    ensures var first := CodebookSearch.FirstIndices(|m|, |t|, range);
            var b1 := CodebookSearch.BestOf(NOTHING, stage, m, t, first);
            var b := CodebookSearch.StageBest(stage, m, t, range);
            && CodebookSearch.FirstHalfIndex(|t|, BaseSize(|m|, |t|), range, b1.index)
            && b1.index < 2 * BaseSize(|m|, |t|) && b.index < 2 * BaseSize(|m|, |t|)
            && Unbeaten(stage, m, t, b1, first)
            && Unbeaten(stage, m, t, b, first)
            && Unbeaten(stage, m, t, b, CodebookSearch.SecondIndices(|m|, |t|, range, b1.index))
  {
    hide CodebookVector, Candidate, Reduction, Unbeaten, CodebookSearch.BestOf, CodebookSearch.WindowAround;
    var first := CodebookSearch.FirstIndices(|m|, |t|, range);
    var b1 := CodebookSearch.BestOf(NOTHING, stage, m, t, first);
    CodebookSearch.FirstBestIsFirstHalf(stage, m, t, range);
    var second := CodebookSearch.SecondIndices(|m|, |t|, range, b1.index);
    var b := CodebookSearch.StageBest(stage, m, t, range);
    BestIsBorneOut(NOTHING, stage, m, t, first);
    BestIsBorneOut(b1, stage, m, t, second);
    hide BorneOut;
    ReductionDecides(stage, m, t, b1, first);
    ReductionDecides(stage, m, t, b, first);
    ReductionDecides(stage, m, t, b, second);
    BorneOutIndex(m, t, b1);
    BorneOutIndex(m, t, b);
  }

  lemma {:induction false} BorneOutIndex(m: seq<real>, t: seq<real>, b: CodebookSearch.Best)
    requires Usable(|m|, |t|) && BorneOut(m, t, b)
    ensures b.index < 2 * BaseSize(|m|, |t|)
  {
  }
}
