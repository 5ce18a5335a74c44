/**
 A file on its way through a peer, whatever the other side does: what has been written of a
 file being sent and what has been kept of a file being received, and what completion means.
 */
module Socks5Files {

  import opened Options
  import opened Socks5Peers
  import opened Socks5Outcomes

  /** The two kinds of peers. */
  datatype Side = Dialling | Listening

  function SideDo(side: Side, x: Trace, address: Bytes, e: Event): Trace
    requires Transferring(x.p)
  {
    if side.Dialling? then TargetDo(x, address, e) else InitiatorDo(x, address, e)
  }

  /** In the middle of a transfer, at its end, or aborted. */
  predicate Transferring(p: Peer) {
    p.state in {8, 9, 10, 11, 12} && (p.state in {8, 9} ==> p.ilen == 0)
  }

  /** A callback that was asked for, or an abort. */
  predicate MayHappen(p: Peer, e: Event) {
    (e.In? && p.waitIn) || (e.Out? && p.waitOut) || e.GiveUp?
  }

  function SideRun(side: Side, x: Trace, address: Bytes, events: seq<Event>): Option<Trace>
    requires Transferring(x.p)
    decreases |events|
  {
    if events == [] then Some(x)
    else if !MayHappen(x.p, events[0]) then None
    else
      StaysTransferring(side, x, address, events[0]);
      SideRun(side, SideDo(side, x, address, events[0]), address, events[1..])
  }

  lemma {:induction false} StaysTransferring(side: Side, x: Trace, address: Bytes, e: Event)
    requires Transferring(x.p) && MayHappen(x.p, e)
    ensures Transferring(SideDo(side, x, address, e).p)
  {
  }

  // ----- sending --------------------------------------------------------------------------

  /** What has been written of a file since `base`, and what is left of it. */
  predicate Written(p: Peer, base: Bytes, file: Bytes) {
    && p.state != 11 && base <= p.out && p.out[|base|..] <= file
    && (p.state == 10 ==> p.out + p.file == base + file)
  }

  /** No abort and no failed write. */
  predicate Undisturbed(events: seq<Event>) {
    forall e <- events :: !e.GiveUp? && (e.Out? ==> e.ok)
  }

  /** The end is not reported before it: without a disturbance a transfer is over only when
      everything has been written. */
  predicate EndsWhole(p: Peer, base: Bytes, file: Bytes, completed: nat) {
    && p.state != 12
    && (p.state in {8, 9} ==> p.out == base + file)
    && (p.state == 10 ==> Times(p.calls, Complete) == completed)
  }

  lemma {:induction false} SendKeepsWritten(side: Side, x: Trace, address: Bytes, e: Event, base: Bytes, file: Bytes)
    requires Transferring(x.p) && MayHappen(x.p, e) && Written(x.p, base, file)
    ensures Written(SideDo(side, x, address, e).p, base, file)
    ensures forall c: nat :: EndsWhole(x.p, base, file, c) && !e.GiveUp? && (e.Out? ==> e.ok) ==>
              EndsWhole(SideDo(side, x, address, e).p, base, file, c)
  {
    var p := x.p;
    if p.state == 10 && e.Out? {
      BlockGoesOut(side, x, address, e.ok);
      var n := Least(CHUNK, |p.file|);
      hide SideDo, Times;
      WrittenGrows(p.out, p.file, n, base, file);
      if p.file == [] {
        assert p.out == base + file;
      }
    } else {
      hide SendBlock, Times;
    }
  }

  function Least(a: nat, b: nat): nat { if a < b then a else b }

  lemma {:induction false} WrittenGrows(out: Bytes, left: Bytes, n: nat, base: Bytes, file: Bytes)
    requires n <= |left| && out + left == base + file && base <= out
    ensures base <= out + left[..n] && (out + left[..n])[|base|..] <= file
    ensures (out + left[..n]) + left[n..] == base + file
  {
    var all := base + file;
    assert (out + left[..n]) + left[n..] == out + left;
    assert all[|base|..] == file;
    var now := out + left[..n];
    assert now == all[..|now|];
    assert now[|base|..] == all[|base|..|now|] == file[..|now| - |base|];
  }

  /** A writable callback while the file goes out writes the next block of up to 4096 bytes
      and asks for the next one; when nothing is left it closes the connection. */
  lemma {:induction false} BlockGoesOut(side: Side, x: Trace, address: Bytes, ok: bool)
    requires x.p.state == 10
    ensures var p, q := x.p, SideDo(side, x, address, Out(ok)).p;
            var n := Least(CHUNK, |p.file|);
            if ok && p.file != [] then
              && n > 0 && q.out == p.out + p.file[..n] && q.file == p.file[n..] && q.state == 10 && q.waitOut
              && !(q.closed && !p.closed) && q.calls == p.calls + [Progress(n)]
            else q.out == p.out && q.state == 8 && q.closed && q.ilen == 0 && q.calls == p.calls
  {
  }

  lemma {:induction false} SendRun(side: Side, x: Trace, address: Bytes, events: seq<Event>, base: Bytes, file: Bytes,
                                   c: nat)
    requires Transferring(x.p) && Written(x.p, base, file) && SideRun(side, x, address, events).Some?
    ensures var p := SideRun(side, x, address, events).value.p;
            && Written(p, base, file)
            && (Undisturbed(events) && EndsWhole(x.p, base, file, c) ==> EndsWhole(p, base, file, c))
    decreases |events|
  {
    if events != [] {
      var e, rest := events[0], events[1..];
      assert events == [e] + rest;
      StaysTransferring(side, x, address, e);
      SendKeepsWritten(side, x, address, e, base, file);
      hide SideDo, Transferring, MayHappen, Written, EndsWhole;
      SendRun(side, SideDo(side, x, address, e), address, rest, base, file, c);
      assert Undisturbed(events) ==> Undisturbed(rest) && !e.GiveUp? && (e.Out? ==> e.ok);
    }
  }

  /** From the call for a file on, in whatever state it comes and whatever follows: the bytes
      written are a beginning of the file, and without an abort or a failed write the
      transfer is reported complete only when they are the whole file. */
  lemma {:induction false} FileIsSent(side: Side, p: Peer, file: Bytes, taken: Bytes, address: Bytes,
                                      events: seq<Event>)
    ensures Transferring(SendFile(p, file))
    ensures var r := SideRun(side, Trace(SendFile(p, file), taken), address, events);
            r.Some? ==>
              var q := r.value.p;
              && p.out <= q.out && q.out[|p.out|..] <= file
              && (Undisturbed(events) && Times(q.calls, Complete) > Times(p.calls, Complete) ==> q.out == p.out + file)
  {
    var x := Trace(SendFile(p, file), taken);
    if SideRun(side, x, address, events).Some? {
      SendRun(side, x, address, events, p.out, file, Times(p.calls, Complete));
      SideRunStays(side, x, address, events);
    }
  }

  lemma {:induction false} SideRunStays(side: Side, x: Trace, address: Bytes, events: seq<Event>)
    requires Transferring(x.p) && SideRun(side, x, address, events).Some?
    ensures Transferring(SideRun(side, x, address, events).value.p)
    decreases |events|
  {
    if events != [] {
      StaysTransferring(side, x, address, events[0]);
      hide SideDo, Transferring, MayHappen;
      SideRunStays(side, SideDo(side, x, address, events[0]), address, events[1..]);
    }
  }

  /** As many writable callbacks as it takes: the whole file goes out and the connection is
      closed after it. */
  lemma {:induction false} WholeFileGoesOut(side: Side, p: Peer, taken: Bytes, address: Bytes)
    returns (events: seq<Event>)
    requires p.state == 10 && p.waitOut
    ensures var r := SideRun(side, Trace(p, taken), address, events);
            && Undisturbed(events) && |events| == 1 + (|p.file| + CHUNK - 1) / CHUNK
            && r.Some? && r.value.p.out == p.out + p.file && r.value.p.state == 8 && r.value.p.closed
    decreases |p.file|
  {
    var x := Trace(p, taken);
    BlockGoesOut(side, x, address, true);
    StaysTransferring(side, x, address, Out(true));
    var y := SideDo(side, x, address, Out(true));
    if p.file == [] {
      events := [Out(true)];
      assert SideRun(side, y, address, []) == Some(y);
      assert events[1..] == [];
    } else {
      hide SideDo;
      var rest := WholeFileGoesOut(side, y.p, y.taken, address);
      events := [Out(true)] + rest;
      assert events[1..] == rest;
      assert (p.out + p.file[..Least(CHUNK, |p.file|)]) + p.file[Least(CHUNK, |p.file|)..] == p.out + p.file;
    }
  }

  // ----- receiving ------------------------------------------------------------------------

  /** What has been received since a call for it is what has been taken off the connection. */
  lemma {:induction false} FileIsReceived(side: Side, x: Trace, address: Bytes, events: seq<Event>)
    requires x.p.state == 11 && SideRun(side, x, address, events).Some?
    ensures var y := SideRun(side, x, address, events).value;
            x.taken <= y.taken && y.p.received == x.p.received + y.taken[|x.taken|..]
  {
    ReceiveRun(side, x, address, events, x.p.received, x.taken);
  }

  predicate Kept(x: Trace, received: Bytes, taken: Bytes) {
    && x.p.state != 10 && taken <= x.taken && x.p.received == received + x.taken[|taken|..]
  }

  lemma {:induction false} ReceiveRun(side: Side, x: Trace, address: Bytes, events: seq<Event>, received: Bytes,
                                      taken: Bytes)
    requires Transferring(x.p) && Kept(x, received, taken) && SideRun(side, x, address, events).Some?
    ensures Kept(SideRun(side, x, address, events).value, received, taken)
    decreases |events|
  {
    if events != [] {
      StaysTransferring(side, x, address, events[0]);
      ReceiveStep(side, x, address, events[0], received, taken);
      hide SideDo, Transferring, MayHappen, Kept;
      ReceiveRun(side, SideDo(side, x, address, events[0]), address, events[1..], received, taken);
    }
  }

  lemma {:induction false} ReceiveStep(side: Side, x: Trace, address: Bytes, e: Event, received: Bytes, taken: Bytes)
    requires Transferring(x.p) && MayHappen(x.p, e) && Kept(x, received, taken)
    ensures Kept(SideDo(side, x, address, e), received, taken)
  {
    hide SendBlock;
    var y := SideDo(side, x, address, e);
    if e.In? && e.available.Some? && x.p.state == 11 {
      var more := e.available.value;
      assert more[..|more|] == more;
      assert (x.taken + more)[|taken|..] == x.taken[|taken|..] + more;
    } else {
      assert y.taken == x.taken;
    }
  }
}
