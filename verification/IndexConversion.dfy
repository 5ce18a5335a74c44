/**
 The conversion of the codebook indices of the first sub-block: the later stages search
 only a part of the codebook, and its indices are closed up to seven bits for sending.
 */
module IndexConversion {
  import opened CodecConstants
  import opened Codebook
  import opened CodebookStages
  import CodebookSearch

  function Narrow(i: nat): nat {
    if 108 <= i < 172 then i - 64 else if i >= 236 then i - 128 else i
  }

  function Widen(i: nat): nat {
    if 44 <= i < 108 then i + 64 else if 108 <= i < 128 then i + 128 else i
  }

  /** The encoder's conversion, in place, of all stages but the first. */
  method IndexConvEnc(index: array<nat>)
    requires index.Length >= CB_NSTAGES
    modifies index
    ensures forall k :: 0 < k < CB_NSTAGES ==> index[k] == Narrow(old(index[k]))
    ensures forall k :: 0 <= k < index.Length && !(0 < k < CB_NSTAGES) ==> index[k] == old(index[k])
  {
    var k := 1;
    while k < CB_NSTAGES
      invariant 1 <= k <= CB_NSTAGES
      invariant forall q :: 0 < q < k ==> index[q] == Narrow(old(index[q]))
      invariant forall q :: 0 <= q < index.Length && !(0 < q < k) ==> index[q] == old(index[q])
    {
      if 108 <= index[k] && index[k] < 172 {
        index[k] := index[k] - 64;
      } else if index[k] >= 236 {
        index[k] := index[k] - 128;
      }
      k := k + 1;
    }
  }

  /** The decoder's conversion back. */
  method IndexConvDec(index: array<nat>)
    requires index.Length >= CB_NSTAGES
    modifies index
    ensures forall k :: 0 < k < CB_NSTAGES ==> index[k] == Widen(old(index[k]))
    ensures forall k :: 0 <= k < index.Length && !(0 < k < CB_NSTAGES) ==> index[k] == old(index[k])
  {
    var k := 1;
    while k < CB_NSTAGES
      invariant 1 <= k <= CB_NSTAGES
      invariant forall q :: 0 < q < k ==> index[q] == Widen(old(index[q]))
      invariant forall q :: 0 <= q < index.Length && !(0 < q < k) ==> index[q] == old(index[q])
    {
      if 44 <= index[k] && index[k] < 108 {
        index[k] := index[k] + 64;
      } else if 108 <= index[k] && index[k] < 128 {
        index[k] := index[k] + 128;
      }
      k := k + 1;
    }
  }

  /** The indices that go through seven bits and come back: exactly those that a stage of
      range 44 can deliver on the memory of a whole sub-block. */
  lemma {:induction false} ConversionRoundTripIff(i: nat)
    ensures Narrow(i) < 128 && Widen(Narrow(i)) == i <==> StageIndex(147, SUBL, 44, i)
  {
  }

  /** Whatever the later stages of the first sub-block find survives the conversion. */
  lemma {:induction false} FirstSubBlockConverts(m: seq<real>, target: seq<real>, index: seq<nat>, gi: seq<nat>, s: nat)
    requires |m| == 147 && |target| == SUBL && |index| == |gi| <= |SEARCH_RANGE[1]|
    requires Ranges(147, SUBL, SEARCH_RANGE[1]) && Searched(m, target, SEARCH_RANGE[1], index, gi) && 0 < s < |index|
    ensures Narrow(index[s]) < 128 && Widen(Narrow(index[s])) == index[s]
  {
    hide CodebookSearch.StageBest, OwnGain, Residual, GainsOf;
    assert StageDone(m, target, SEARCH_RANGE[1], index, gi, s);
    PrefixIndices(gi, s);
    StageFinds(s, m, Residual(m, target, index[..s], GainsOf(gi[..s])), SEARCH_RANGE[1][s]);
    assert SEARCH_RANGE[1][s] == 44;
    ConversionRoundTripIff(index[s]);
  }
}
