/**
 The gain quantiser of the iLBC codec: three tables of increasing precision, scaled by
 the gain of the stage before but by no less than a tenth.
 */
module Gains {
  import opened Vectors

  const FAR := 10000000.0

  const GAIN_SQ3: seq<real> := [
    -1.000000, -0.659973, -0.330017, 0.000000, 0.250000, 0.500000, 0.750000, 1.00000
  ]

  const GAIN_SQ4: seq<real> := [
    -1.049988, -0.900024, -0.750000, -0.599976, -0.450012, -0.299988, -0.150024, 0.000000,
    0.150024, 0.299988, 0.450012, 0.599976, 0.750000, 0.900024, 1.049988, 1.200012
  ]

  const GAIN_SQ5: seq<real> := [
    0.037476, 0.075012, 0.112488, 0.150024, 0.187500, 0.224976, 0.262512, 0.299988,
    0.337524, 0.375000, 0.412476, 0.450012, 0.487488, 0.525024, 0.562500, 0.599976,
    0.637512, 0.674988, 0.712524, 0.750000, 0.787476, 0.825012, 0.862488, 0.900024,
    0.937500, 0.974976, 1.012512, 1.049988, 1.087524, 1.125000, 1.162476, 1.200012
  ]

  /** The lengths that have a table. */
  predicate IsLength(cblen: nat) { cblen == 8 || cblen == 16 || cblen == 32 }

  function Table(cblen: nat): (t: seq<real>)
    requires IsLength(cblen)
    ensures |t| == cblen
  {
    if cblen == 8 then GAIN_SQ3 else if cblen == 16 then GAIN_SQ4 else GAIN_SQ5
  }

  /** The lower bound on the scaling factor. */
  function AtLeastTenth(x: real): real { if x < 0.1 then 0.1 else x }

  /** Squared distance from x to the scaled entry i. */
  function Miss(x: real, maxIn: real, cblen: nat, i: nat): real
    requires IsLength(cblen) && i < cblen
  {
    var d := x - AtLeastTenth(maxIn) * Table(cblen)[i];
    Times(d, d)
  }

  /** Entry `best` is the first of the nearest ones; when all are too far away the first
      entry is taken unseen. */
  ghost predicate NearestGain(x: real, maxIn: real, cblen: nat, best: nat)
    requires IsLength(cblen)
  {
    && best < cblen
    && if exists i :: 0 <= i < cblen && Miss(x, maxIn, cblen, i) < FAR then
         && (forall i :: 0 <= i < cblen ==> Miss(x, maxIn, cblen, best) <= Miss(x, maxIn, cblen, i))
         && (forall i :: 0 <= i < best ==> Miss(x, maxIn, cblen, best) < Miss(x, maxIn, cblen, i))
       else best == 0
  }

  /** The decoder's side: the gain that an index stands for. A length without a table
      gives no gain. */
  function GainDequant(index: nat, maxIn: real, cblen: nat): real
    requires IsLength(cblen) ==> index < cblen
  {
    var scale := AtLeastTenth(Abs(maxIn));
    if cblen == 8 then scale * GAIN_SQ3[index]
    else if cblen == 16 then scale * GAIN_SQ4[index]
    else if cblen == 32 then scale * GAIN_SQ5[index]
    else 0.0
  }

  /** The encoder's side: a nearest entry. The decoder, which takes the absolute value of
      the maximum, gets the same gain unless the maximum is below -0.1 and the gain is
      not zero. */
  method GainQuant(x: real, maxIn: real, cblen: nat) returns (value: real, index: nat)
    requires IsLength(cblen)
    ensures index < cblen && NearestGain(x, maxIn, cblen, index)
    ensures value == AtLeastTenth(maxIn) * Table(cblen)[index]
    ensures value == GainDequant(index, maxIn, cblen) <==> maxIn >= -0.1 || Table(cblen)[index] == 0.0
  {
    hide Times, Table, Miss, GainDequant;
    var scale := maxIn;
    if scale < 0.1 {
      scale := 0.1;
    }
    var cb := Table(cblen);
    var minmeasure := FAR;
    index := 0;
    var i := 0;
    while i < cblen
      invariant 0 <= i <= cblen && index < cblen && minmeasure <= FAR
      invariant if minmeasure < FAR then index < i && minmeasure == Miss(x, maxIn, cblen, index) else index == 0
      invariant forall k :: 0 <= k < i ==> minmeasure <= Miss(x, maxIn, cblen, k)
      invariant forall k :: 0 <= k < index ==> minmeasure < Miss(x, maxIn, cblen, k)
    {
      var measure := Times(x - scale * cb[i], x - scale * cb[i]);
      MissIs(x, maxIn, cblen, i);
      if measure < minmeasure {
        index := i;
        minmeasure := measure;
      }
      i := i + 1;
    }
    value := scale * cb[index];
    DequantIs(index, maxIn, cblen);
    SameProduct(AtLeastTenth(maxIn), AtLeastTenth(Abs(maxIn)), cb[index]);
  }

  lemma {:induction false} MissIs(x: real, maxIn: real, cblen: nat, i: nat)
    requires IsLength(cblen) && i < cblen
    ensures Miss(x, maxIn, cblen, i)
            == Times(x - AtLeastTenth(maxIn) * Table(cblen)[i], x - AtLeastTenth(maxIn) * Table(cblen)[i])
  {
    hide Times, Table;
  }

  lemma {:induction false} DequantIs(index: nat, maxIn: real, cblen: nat)
    requires IsLength(cblen) && index < cblen
    ensures GainDequant(index, maxIn, cblen) == AtLeastTenth(Abs(maxIn)) * Table(cblen)[index]
  {
    hide AtLeastTenth, Abs;
    assert Table(8) == GAIN_SQ3 && Table(16) == GAIN_SQ4 && Table(32) == GAIN_SQ5;
  }

  lemma {:induction false} SameProduct(a: real, b: real, x: real)
    ensures a * x == b * x <==> a == b || x == 0.0
  {
    if a != b && x != 0.0 {
      NonZeroProduct(a - b, x);
      assert (a - b) * x == a * x - b * x;
    }
  }

  lemma {:induction false} NonZeroProduct(x: real, y: real)
    requires x != 0.0 && y != 0.0
    ensures x * y != 0.0
  {
    if x > 0.0 && y > 0.0 {
      assert x * y > 0.0;
    } else if x > 0.0 {
      assert x * -y > 0.0;
    } else if y > 0.0 {
      assert -x * y > 0.0;
    } else {
      assert -x * -y > 0.0;
    }
  }

  /** The finest table holds positive gains in increasing order. */
  lemma {:induction false} Increasing(i: nat, j: nat)
    requires i < j < 32
    ensures 0.0 < GAIN_SQ5[0] <= GAIN_SQ5[i] < GAIN_SQ5[j]
    decreases j
  {
    assert GAIN_SQ5[j - 1] < GAIN_SQ5[j];
    if i < j - 1 {
      Increasing(i, j - 1);
    } else if i > 0 {
      Increasing(0, i);
    }
  }

  lemma {:induction false} Positive(i: nat)
    requires i < 32
    ensures GAIN_SQ5[i] > 0.0
  {
    if i > 0 {
      Increasing(0, i);
    }
  }

  lemma {:induction false} Entries()
    ensures |GAIN_SQ5| == 32
  {
  }

  /** Zero is a gain of both tables of the later stages. */
  lemma {:induction false} NoGain(x: real, maxIn: real)
    ensures Miss(x, maxIn, 16, 7) == Times(x, x) && Miss(x, maxIn, 8, 3) == Times(x, x)
  {
    hide Times;
    assert Table(16)[7] == 0.0 && Table(8)[3] == 0.0;
    ZeroProduct(AtLeastTenth(maxIn));
  }

  lemma {:induction false} ZeroProduct(x: real)
    ensures x * 0.0 == 0.0
  {
  }

  /** A square over an interval. */
  lemma {:induction false} SmallSquare(x: real, bound: real)
    requires -bound <= x <= bound
    ensures Times(x, x) <= Times(bound, bound)
  {
    assert (bound - x) * (bound + x) >= 0.0;
    assert (bound - x) * (bound + x) == bound * bound - x * x;
  }

  /** The gains that the search quantises are never too far away: some entry is near, so
      the index is that of a nearest gain. */
  lemma {:induction false} NearestIsNearest(x: real, maxIn: real, cblen: nat, best: nat)
    requires IsLength(cblen) && NearestGain(x, maxIn, cblen, best)
    requires -2.0 <= x <= 2.0 && (cblen == 32 ==> maxIn == 1.0)
    ensures best < cblen
    ensures forall i :: 0 <= i < cblen ==> Miss(x, maxIn, cblen, best) <= Miss(x, maxIn, cblen, i)
  {
    hide Times;
    var near := if cblen == 8 then 3 else if cblen == 16 then 7 else 0;
    NoGain(x, maxIn);
    if cblen == 32 {
      SmallSquare(x - 1.0 * GAIN_SQ5[0], 3.0);
    } else {
      SmallSquare(x, 3.0);
    }
    assert Times(3.0, 3.0) == 9.0 by { Nine(); }
    assert Miss(x, maxIn, cblen, near) < FAR;
  }

  lemma {:induction false} Nine()
    ensures Times(3.0, 3.0) == 9.0
  {
  }
}
