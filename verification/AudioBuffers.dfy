/**
 Reframing of audio bytes: the echo filter cuts what is played into frames, without
 copying where it can; the output stream fills device buffers of any size from frames and
 keeps the tail.
 */
module AudioBuffers {

  type Bytes = seq<int>

  // ----- the filter -----------------------------------------------------------------------

  /** Cuts bytes into frames of n; what does not fill a frame remains. */
  function Frames(n: nat, s: Bytes): (r: (seq<Bytes>, Bytes))
    requires n > 0
    ensures |r.1| < n
    ensures forall i :: 0 <= i < |r.0| ==> |r.0[i]| == n
    decreases |s|
  {
    if |s| < n then ([], s)
    else
      var (frames, rest) := Frames(n, s[n..]);
      ([s[..n]] + frames, rest)
  }

  function Flat(pieces: seq<Bytes>): Bytes {
    if pieces == [] then [] else pieces[0] + Flat(pieces[1..])
  }

  /** No byte is lost, repeated or moved. */
  lemma {:induction false} FramesConserve(n: nat, s: Bytes)
    requires n > 0
    ensures Flat(Frames(n, s).0) + Frames(n, s).1 == s
    decreases |s|
  {
    if |s| >= n {
      FramesConserve(n, s[n..]);
      var (frames, rest) := Frames(n, s[n..]);
      assert ([s[..n]] + frames)[1..] == frames;
      assert s == s[..n] + s[n..];
    }
  }

  /** Frames of a text that comes in two chunks. */
  lemma {:induction false} FramesConcat(n: nat, a: Bytes, b: Bytes)
    requires n > 0
    ensures var (frames, rest) := Frames(n, a);
            var (more, last) := Frames(n, rest + b);
            Frames(n, a + b) == (frames + more, last)
    decreases |a|
  {
    if |a| >= n {
      FramesConcat(n, a[n..], b);
      assert (a + b)[..n] == a[..n] && (a + b)[n..] == a[n..] + b;
      var (frames, rest) := Frames(n, a[n..]);
      var (more, last) := Frames(n, rest + b);
      assert [a[..n]] + (frames + more) == ([a[..n]] + frames) + more;
    } else {
      assert [] + Frames(n, a + b).0 == Frames(n, a + b).0;
    }
  }

  /** Chunk after chunk. */
  function FramesOfChunks(n: nat, pending: Bytes, chunks: seq<Bytes>): (seq<Bytes>, Bytes)
    requires n > 0
    decreases |chunks|
  {
    if chunks == [] then ([], pending)
    else
      var (frames, rest) := Frames(n, pending + chunks[0]);
      var (more, last) := FramesOfChunks(n, rest, chunks[1..]);
      (frames + more, last)
  }

  /** However the bytes are chunked, the same frames come out. */
  lemma {:induction false} ChunksDoNotMatter(n: nat, pending: Bytes, chunks: seq<Bytes>)
    requires n > 0 && |pending| < n
    ensures FramesOfChunks(n, pending, chunks) == Frames(n, pending + Flat(chunks))
    decreases |chunks|
  {
    if chunks == [] {
      assert pending + [] == pending;
    } else {
      var (frames, rest) := Frames(n, pending + chunks[0]);
      ChunksDoNotMatter(n, rest, chunks[1..]);
      FramesConcat(n, pending + chunks[0], Flat(chunks[1..]));
      assert (pending + chunks[0]) + Flat(chunks[1..]) == pending + Flat(chunks);
    }
  }

  class AudioFilter {
    const frame: array<int>
    const frameSize: nat
    var frameEnd: nat
    /** The frames handed to the echo canceller. */
    ghost var played: seq<Bytes>

    constructor (frameSize: nat)
      requires frameSize > 0
      ensures Valid() && fresh(frame) && Pending() == [] && played == [] && this.frameSize == frameSize
    {
      this.frameSize := frameSize;
      frame := new int[frameSize](_ => 0);
      frameEnd := 0;
      played := [];
    }

    ghost predicate Valid()
      reads this
    {
      frameSize > 0 && frame.Length == frameSize && frameEnd < frameSize
    }

    /** The bytes of the frame being accumulated. */
    ghost function Pending(): (s: Bytes)
      requires Valid()
      reads this, frame
    {
      frame[..frameEnd]
    }

    /** Whole frames that arrive with nothing pending are passed on where they are; the
        rest is accumulated. Both give the frames of the bytes seen so far. */
    method OutputData(input: Bytes)
      requires Valid()
      modifies this, frame
      ensures Valid()
      ensures played == old(played) + Frames(frameSize, old(Pending()) + input).0
      ensures Pending() == Frames(frameSize, old(Pending()) + input).1
    {
      var data: nat := 0;
      ghost var whole, goal := Pending() + input, Frames(frameSize, Pending() + input);
      assert input[0..] == input && played + goal.0 == played + goal.0;
      while data < |input|
        invariant Valid() && data <= |input|
        invariant played + Frames(frameSize, Pending() + input[data..]).0 == old(played) + goal.0
        invariant Frames(frameSize, Pending() + input[data..]).1 == goal.1
        decreases |input| - data
      {
        ghost var s := Pending() + input[data..];
        ghost var before := played;
        var len := PassOne(input, data);
        data := data + len;
        if |s| < frameSize {
          assert Pending() + input[data..] == s;
        } else {
          assert Pending() + input[data..] == s[frameSize..];
          ghost var more := Frames(frameSize, s[frameSize..]).0;
          assert before + ([s[..frameSize]] + more) == (before + [s[..frameSize]]) + more;
        }
      }
      assert input[data..] == [] && Pending() + [] == Pending() && played + [] == played;
    }

    /** One turn: a frame is passed on, or everything is pending. */
    method PassOne(input: Bytes, data: nat) returns (len: nat)
      requires Valid() && data < |input|
      modifies this, frame
      ensures Valid() && 0 < len <= |input| - data
      ensures var s := old(Pending()) + input[data..];
              if |s| < frameSize then played == old(played) && Pending() == s && len == |input| - data
              else played == old(played) + [s[..frameSize]] && Pending() == [] && input[data + len..] == s[frameSize..]
    {
      ghost var s := Pending() + input[data..];
      var bytes := |input| - data;
      var current: Bytes;
      if frameEnd == 0 && bytes >= frameSize {
        current := input[data..data + frameSize];
        len := frameSize;
      } else {
        len := if frameSize - frameEnd < bytes then frameSize - frameEnd else bytes;
        CopyIn(input[data..data + len]);
        current := frame[..];
      }
      assert input[data..] == input[data..data + len] + input[data + len..];
      if frameEnd + len < frameSize {
        frameEnd := frameEnd + len;
        return;
      }
      assert current == s[..frameSize];
      played := played + [current];
      frameEnd := 0;
    }

    method CopyIn(bytes: Bytes)
      requires Valid() && frameEnd + |bytes| <= frameSize
      modifies frame
      ensures frame[..frameEnd + |bytes|] == old(frame[..frameEnd]) + bytes
    {
      var i := 0;
      while i < |bytes|
        invariant 0 <= i <= |bytes|
        invariant frame[..frameEnd + i] == old(frame[..frameEnd]) + bytes[..i]
      {
        frame[frameEnd + i] := bytes[i];
        i := i + 1;
      }
      assert bytes[..i] == bytes;
    }
  }
}
