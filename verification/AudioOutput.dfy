/**
 The output stream: the device asks for bytes, the stream plays the saved tail of the last
 frame and then as many frames as are needed, and saves what is left of the last one.
 */
module AudioOutput {

  import opened Sequences
  import opened AudioBuffers

  function Min(a: nat, b: nat): nat { if a < b then a else b }

  /** Bytes still to play, bytes saved, bytes missing in the device buffer. */
  datatype Play = Play(played: Bytes, tail: Bytes, missing: nat)

  /** What one buffer of data does, or none: the saved tail goes first, and a buffer is
      taken only when there is no tail. */
  function Fill(p: Play, data: Bytes): Play {
    if p.missing == 0 then p
    else if p.tail != [] then
      var len := Min(|p.tail|, p.missing);
      Play(p.played + p.tail[..len], p.tail[len..], p.missing - len)
    else
      var len := Min(|data|, p.missing);
      Play(p.played + data[..len], data[len..], p.missing - len)
  }

  function FillAll(p: Play, buffers: seq<Bytes>): Play
    decreases |buffers|
  {
    if buffers == [] then p else FillAll(Fill(p, buffers[0]), buffers[1..])
  }

  /** How many frames of size n cover the missing bytes. */
  function FramesNeeded(missing: nat, n: nat): nat
    requires n > 0
  {
    (missing + n - 1) / n
  }

  /** One request of the device: the tail, then as many buffers as there are frames needed. */
  function Request(tail: Bytes, bytes: nat, buffers: seq<Bytes>): Play {
    FillAll(Fill(Play([], tail, bytes), []), buffers)
  }

  /** Buffers of at most a frame, as many as are needed for what the tail does not cover. */
  predicate Delivered(n: nat, tail: Bytes, bytes: nat, buffers: seq<Bytes>) {
    && n > 0
    && |buffers| == FramesNeeded(bytes - Min(|tail|, bytes), n)
    && forall i :: 0 <= i < |buffers| ==> |buffers[i]| <= n
  }

  lemma {:induction false} EnoughMissing(missing: nat, n: nat, k: nat)
    requires n > 0 && k < FramesNeeded(missing, n)
    ensures k * n < missing
  {
    var q := FramesNeeded(missing, n);
    Quotient(missing + n - 1, n);
    TimesSum(k + 1, q - (k + 1), n);
    TimesSum(k, 1, n);
  }

  lemma {:induction false} Quotient(a: nat, n: nat)
    requires n > 0
    ensures (a / n) * n <= a < (a / n) * n + n
  {
  }

  lemma {:induction false} TimesSum(a: nat, b: nat, n: nat)
    ensures (a + b) * n == a * n + b * n && b * n >= 0 && 1 * n == n
  {
  }

  /** Even the last of k buffers of at most n bytes finds bytes missing. */
  predicate AllWanted(k: nat, n: nat, missing: nat) {
    k > 0 ==> (k - 1) * n < missing
  }

  lemma {:induction false} OneTaken(k: nat, n: nat, missing: nat, len: nat)
    requires k >= 1 && AllWanted(k, n, missing) && len <= n
    ensures missing > 0
    ensures k >= 2 ==> len < missing && AllWanted(k - 1, n, missing - len)
  {
    if k >= 2 {
      TimesSum(1, k - 2, n);
      TimesSum(k - 2, 1, n);
    }
  }

  /** While bytes are missing no buffer is dropped and none overlaps a tail. */
  lemma {:induction false} FillAllConserves(p: Play, n: nat, buffers: seq<Bytes>)
    requires p.tail == [] && AllWanted(|buffers|, n, p.missing)
    requires forall i :: 0 <= i < |buffers| ==> |buffers[i]| <= n
    ensures var z := FillAll(p, buffers);
            && z.played + z.tail == p.played + Flat(buffers)
            && |z.played| == |p.played| + (p.missing - z.missing)
            && |z.tail| <= n && (z.tail != [] ==> z.missing == 0)
    decreases |buffers|
  {
    if buffers == [] {
      assert p.played + [] == p.played;
    } else {
      var b, rest := buffers[0], buffers[1..];
      var q := Fill(p, b);
      OneTaken(|buffers|, n, p.missing, |b|);
      hide AllWanted;
      TakenOrSaved(p, b);
      if rest == [] {
        assert Flat(rest) == [] && b + [] == b;
      } else {
        FillAllConserves(q, n, rest);
        Regroup(p.played, b, Flat(rest));
      }
    }
  }

  /** One buffer with nothing saved: what is not played is saved. */
  lemma {:induction false} TakenOrSaved(p: Play, b: Bytes)
    requires p.tail == [] && p.missing > 0
    ensures var q := Fill(p, b);
            && q.played + q.tail == p.played + b && |q.tail| <= |b|
            && |q.played| == |p.played| + (p.missing - q.missing)
            && (q.tail != [] ==> q.missing == 0)
            && (|b| < p.missing ==> q.played == p.played + b && q.tail == [] && q.missing == p.missing - |b|)
  {
    var len := Min(|b|, p.missing);
    assert b == b[..len] + b[len..];
    Regroup(p.played, b[..len], b[len..]);
  }

  /** One request: what was saved and what came in is what is played and what is saved now;
      no more is played than was asked for, and exactly that if whole frames came in. */
  lemma {:induction false} RequestConserves(n: nat, tail: Bytes, bytes: nat, buffers: seq<Bytes>)
    requires Delivered(n, tail, bytes, buffers) && |tail| <= n
    ensures var z := Request(tail, bytes, buffers);
            && z.played + z.tail == tail + Flat(buffers)
            && |z.played| + z.missing == bytes && |z.tail| <= n
            && ((forall i :: 0 <= i < |buffers| ==> |buffers[i]| == n) ==> z.missing == 0)
  {
    var first := Fill(Play([], tail, bytes), []);
    var len := Min(|tail|, bytes);
    assert tail == tail[..len] + tail[len..];
    assert first.missing == bytes - len && first.played == tail[..len] && first.tail == tail[len..] by {
      assert [] + tail[..len] == tail[..len];
    }
    if buffers == [] {
      NoneNeeded(bytes - len, n);
      assert Flat(buffers) == [] && tail + [] == tail;
    } else {
      EnoughMissing(bytes - len, n, |buffers| - 1);
      assert first.tail == [] && tail[..len] == tail;
      FillAllConserves(first, n, buffers);
      if forall i :: 0 <= i < |buffers| ==> |buffers[i]| == n {
        WholeFrames(n, buffers);
        AllCovered(bytes - len, n);
        PlayedIsEnough(first, n, buffers);
      }
    }
  }

  lemma {:induction false} NoneNeeded(missing: nat, n: nat)
    requires n > 0 && FramesNeeded(missing, n) == 0
    ensures missing == 0
  {
    Quotient(missing + n - 1, n);
  }

  lemma {:induction false} AllCovered(missing: nat, n: nat)
    requires n > 0
    ensures FramesNeeded(missing, n) * n >= missing
  {
    Quotient(missing + n - 1, n);
  }

  lemma {:induction false} WholeFrames(n: nat, buffers: seq<Bytes>)
    requires forall i :: 0 <= i < |buffers| ==> |buffers[i]| == n
    ensures |Flat(buffers)| == |buffers| * n
    decreases |buffers|
  {
    if buffers != [] {
      WholeFrames(n, buffers[1..]);
      TimesSum(|buffers| - 1, 1, n);
    }
  }

  lemma {:induction false} PlayedIsEnough(p: Play, n: nat, buffers: seq<Bytes>)
    requires p.tail == [] && AllWanted(|buffers|, n, p.missing)
    requires forall i :: 0 <= i < |buffers| ==> |buffers[i]| <= n
    requires |Flat(buffers)| >= p.missing
    ensures FillAll(p, buffers).missing == 0
  {
    FillAllConserves(p, n, buffers);
    var z := FillAll(p, buffers);
    assert |z.played| + |z.tail| == |p.played| + |Flat(buffers)| by {
      assert |z.played + z.tail| == |p.played + Flat(buffers)|;
    }
  }

  /** What is played and what is missing stay the request. */
  lemma {:induction false} FillKeepsSum(p: Play, data: Bytes)
    ensures var q := Fill(p, data);
            |q.played| + q.missing == |p.played| + p.missing
            && (p.missing == 0 ==> q == p)
            && (p.missing > 0 && q.missing > 0 ==>
                  |q.played| == |p.played| + |p.tail| + if p.tail == [] then |data| else 0)
            && q.missing == p.missing - Min(if p.tail == [] then |data| else |p.tail|, p.missing)
  {
  }

  // ----- whole runs ---------------------------------------------------------------------------

  /** A request of the device and the buffers that came in for it. */
  datatype Turn = Turn(bytes: nat, buffers: seq<Bytes>)

  /** Everything played over a run, and the tail left at its end. */
  function PlayAll(tail: Bytes, turns: seq<Turn>): (Bytes, Bytes)
    decreases |turns|
  {
    if turns == [] then ([], tail)
    else
      var z := Request(tail, turns[0].bytes, turns[0].buffers);
      var (more, last) := PlayAll(z.tail, turns[1..]);
      (z.played + more, last)
  }

  function Accepted(turns: seq<Turn>): Bytes
    decreases |turns|
  {
    if turns == [] then [] else Flat(turns[0].buffers) + Accepted(turns[1..])
  }

  /** In every turn the source delivers as many buffers as were asked for. */
  predicate AllDelivered(n: nat, tail: Bytes, turns: seq<Turn>)
    decreases |turns|
  {
    turns == [] ||
    (Delivered(n, tail, turns[0].bytes, turns[0].buffers) &&
     AllDelivered(n, Request(tail, turns[0].bytes, turns[0].buffers).tail, turns[1..]))
  }

  /** Over any run the bytes played, followed by the saved tail, are the bytes accepted. */
  lemma {:induction false} RunConserves(n: nat, tail: Bytes, turns: seq<Turn>)
    requires |tail| <= n && AllDelivered(n, tail, turns)
    ensures var (played, last) := PlayAll(tail, turns);
            played + last == tail + Accepted(turns) && |last| <= n
    decreases |turns|
  {
    if turns == [] {
      assert [] + tail == tail + [];
    } else {
      var z := Request(tail, turns[0].bytes, turns[0].buffers);
      RequestConserves(n, tail, turns[0].bytes, turns[0].buffers);
      RunConserves(n, z.tail, turns[1..]);
      var (more, last) := PlayAll(z.tail, turns[1..]);
      var input := Flat(turns[0].buffers);
      assert (z.played + more) + last == z.played + (more + last);
      assert z.played + (z.tail + Accepted(turns[1..])) == (z.played + z.tail) + Accepted(turns[1..]);
      assert (tail + input) + Accepted(turns[1..]) == tail + (input + Accepted(turns[1..]));
    }
  }

  // ----- the stream object -----------------------------------------------------------------------

  class OutputStream {
    const frame: array<int>
    const frameSize: nat
    var frameStart: nat
    var framesToFill: nat
    var bufferStart: nat
    var audioBuffer: array?<int>

    constructor (frameSize: nat)
      requires frameSize > 0
      ensures Valid() && fresh(frame) && Tail() == [] && audioBuffer == null && this.frameSize == frameSize
    {
      this.frameSize := frameSize;
      frame := new int[frameSize](_ => 0);
      frameStart, framesToFill, bufferStart := frameSize, 0, 0;
      audioBuffer := null;
    }

    ghost predicate Valid()
      reads this
    {
      && frameSize > 0 && frame.Length == frameSize && frameStart <= frameSize
      && (audioBuffer != null ==> audioBuffer != frame && bufferStart + framesToFill <= audioBuffer.Length)
    }

    ghost function Tail(): (s: Bytes)
      requires Valid()
      reads this, frame
    {
      frame[frameStart..]
    }

    ghost function State(): (p: Play)
      requires Valid() && audioBuffer != null
      reads this, frame, audioBuffer
    {
      Play(audioBuffer[..bufferStart], Tail(), framesToFill)
    }

    /** Fills the device buffer from the tail, or from the data; without data, length is 0. */
    method FillBuffer(data: Bytes)
      requires Valid() && |data| <= frameSize
      modifies this`frameStart, this`framesToFill, this`bufferStart, frame, audioBuffer
      ensures Valid() && audioBuffer == old(audioBuffer)
      ensures audioBuffer == null ==> Tail() == old(Tail()) && framesToFill == old(framesToFill)
      ensures audioBuffer != null ==> State() == Fill(old(State()), data)
    {
      if audioBuffer == null || framesToFill == 0 {
        return;
      }
      if frameStart != frameSize {
        PlayTail();
      } else if |data| > 0 {
        PlayData(data);
      }
    }

    /** As much of the saved tail as fits. */
    method PlayTail()
      requires Valid() && audioBuffer != null && framesToFill > 0 && frameStart != frameSize
      modifies this`frameStart, this`framesToFill, this`bufferStart, audioBuffer
      ensures Valid() && audioBuffer == old(audioBuffer)
      ensures State() == Fill(old(State()), [])
    {
      ghost var p := State();
      var left := audioBuffer.Length - bufferStart;
      var len := Min(Min(left, frameSize - frameStart), framesToFill);
      assert len == Min(|p.tail|, p.missing);
      assert frame[frameStart..frameStart + len] == p.tail[..len];
      CopyOut(frame[frameStart..frameStart + len]);
      bufferStart := bufferStart + len;
      frameStart := frameStart + len;
      framesToFill := framesToFill - len;
      assert Tail() == p.tail[len..];
    }

    /** As much of the data as fits; the rest becomes the tail. */
    method PlayData(data: Bytes)
      requires Valid() && audioBuffer != null && framesToFill > 0 && frameStart == frameSize
      requires 0 < |data| <= frameSize
      modifies this`frameStart, this`framesToFill, this`bufferStart, frame, audioBuffer
      ensures Valid() && audioBuffer == old(audioBuffer)
      ensures State() == Fill(old(State()), data)
    {
      ghost var p := State();
      var left := audioBuffer.Length - bufferStart;
      var len := Min(Min(left, |data|), framesToFill);
      assert len == Min(|data|, p.missing);
      CopyOut(data[..len]);
      bufferStart := bufferStart + len;
      framesToFill := framesToFill - len;
      if len < |data| {
        frameStart := frameSize - (|data| - len);
        SaveTail(data[len..]);
      }
      assert Tail() == data[len..];
    }

    method CopyOut(bytes: Bytes)
      requires Valid() && audioBuffer != null && bufferStart + |bytes| <= audioBuffer.Length
      modifies audioBuffer
      ensures audioBuffer[..bufferStart + |bytes|] == old(audioBuffer[..bufferStart]) + bytes
    {
      var i := 0;
      while i < |bytes|
        invariant 0 <= i <= |bytes|
        invariant audioBuffer[..bufferStart + i] == old(audioBuffer[..bufferStart]) + bytes[..i]
      {
        audioBuffer[bufferStart + i] := bytes[i];
        i := i + 1;
      }
      assert bytes[..i] == bytes;
    }

    method SaveTail(bytes: Bytes)
      requires frame.Length == frameSize && frameStart + |bytes| == frameSize
      modifies frame
      ensures frame[frameStart..] == bytes
    {
      var i := 0;
      while i < |bytes|
        invariant 0 <= i <= |bytes|
        invariant frame[frameStart..frameStart + i] == bytes[..i]
      {
        frame[frameStart + i] := bytes[i];
        i := i + 1;
      }
      assert bytes[..i] == bytes && frame[frameStart..] == frame[frameStart..frameSize];
    }

    /** The device asks for frames of two bytes each in a buffer that is large enough; the
        source then delivers as many buffers as are still needed. */
    method OutputReady(numberFrames: nat, data: array<int>, deliveries: seq<Bytes>)
      requires Valid() && data != frame && data.Length >= 2 * numberFrames
      requires Delivered(frameSize, Tail(), 2 * numberFrames, deliveries)
      modifies this, frame, data
      ensures Valid() && audioBuffer == null
      ensures var z := Request(old(Tail()), 2 * numberFrames, deliveries);
              Tail() == z.tail && framesToFill <= 2 * numberFrames && framesToFill == z.missing
              && data[..2 * numberFrames - framesToFill] == z.played
    {
      hide Fill, FramesNeeded;
      audioBuffer := data;
      bufferStart := 0;
      framesToFill := numberFrames * 2;
      ghost var first := State();
      assert first == Play([], old(Tail()), 2 * numberFrames);
      FillKeepsSum(first, []);
      FillBuffer([]);
      assert State() == Fill(first, []);
      ghost var z := Request(old(Tail()), 2 * numberFrames, deliveries);
      if framesToFill > 0 {
        var i := 0;
        while i < |deliveries|
          invariant 0 <= i <= |deliveries| && Valid() && audioBuffer == data
          invariant FillAll(State(), deliveries[i..]) == z
          invariant bufferStart + framesToFill == 2 * numberFrames
        {
          assert deliveries[i..][1..] == deliveries[i + 1..];
          FillKeepsSum(State(), deliveries[i]);
          FillBuffer(deliveries[i]);
          i := i + 1;
        }
      } else {
        NothingMissing(0, frameSize);
      }
      audioBuffer := null;
    }
  }

  lemma {:induction false} NothingMissing(missing: nat, n: nat)
    requires n > 0 && missing == 0
    ensures FramesNeeded(missing, n) == 0
  {
  }
}
