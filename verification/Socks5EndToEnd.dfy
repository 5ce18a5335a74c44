/**
 Both peers of a bytestream over two byte queues, in every interleaving and under every
 fragmentation, without abort or transport failure.
 */
module Socks5EndToEnd {

  import opened Options
  import opened Sequences
  import opened Socks5Peers

  /** The address both sides were given and the file to transfer; the peers; the bytes on
      their way; whether the connection was accepted. */
  datatype System = System(
    address: Bytes,
    file: Bytes,
    t: Peer,
    i: Peer,
    toT: Bytes,
    toI: Bytes,
    accepted: bool)

  const ADDRESS: nat := 40

  const IDLE: Peer := Peer(0, 0, [], false, false, false, [], 0, [], [], [], [], [])

  function Start(address: Bytes, file: Bytes, host: string): System {
    System(address, file, Connect(IDLE.(addresses := [host])), IDLE, [], [], false)
  }

  // ----- moves --------------------------------------------------------------------------

  /** What can happen next: the connection is accepted; a stream calls back because it can
      be written, because n bytes are available, or because it is closed; the service
      starts sending. */
  datatype Move =
    | AcceptConnection
    | TargetWrites
    | TargetReads(n: nat)
    | TargetEnds
    | InitiatorWrites
    | InitiatorReads(n: nat)
    | InitiatorEnds
    | StartSending

  predicate Enabled(s: System, m: Move) {
    match m
    case AcceptConnection => !s.accepted
    case TargetWrites => s.t.waitOut
    case TargetReads(n) => s.t.waitIn && !s.t.closed && 1 <= n <= |s.toT|
    case TargetEnds => s.t.waitIn && (s.t.closed || (s.toT == [] && s.i.closed))
    case InitiatorWrites => s.accepted && s.i.waitOut
    case InitiatorReads(n) => s.accepted && s.i.waitIn && !s.i.closed && 1 <= n <= |s.toI|
    case InitiatorEnds => s.accepted && s.i.waitIn && (s.i.closed || (s.toI == [] && s.t.closed))
    case StartSending => s.accepted && s.i.state == 5
  }

  /** What a peer wrote between two moments. */
  function Written(p: Peer, q: Peer): Bytes {
    if |p.out| <= |q.out| then q.out[|p.out|..] else []
  }

  /** The service answers readiness of the target by receiving the file. */
  function ServeTarget(p: Peer, q: Peer): Peer {
    if q.calls == p.calls + [Ready] then RecvFile(q) else q
  }

  function Do(s: System, m: Move): System
    requires Enabled(s, m) && Inv(s)
  {
    match m
    case AcceptConnection => s.(accepted := true, i := Accept(s.i))
    case TargetWrites =>
      var t := TargetOut(s.t, s.address, true);
      s.(t := t, toI := s.toI + Written(s.t, t))
    case TargetReads(n) =>
      var (t, k) := TargetIn(s.t, Some(s.toT[..n]));
      s.(t := ServeTarget(s.t, t), toT := if k <= |s.toT| then s.toT[k..] else [])
    case TargetEnds => s.(t := TargetIn(s.t, None).0)
    case InitiatorWrites =>
      var i := InitiatorOut(s.i, s.address, true);
      s.(i := i, toT := s.toT + Written(s.i, i))
    case InitiatorReads(n) =>
      var (i, k) := InitiatorIn(s.i, s.address, Some(s.toI[..n]));
      s.(i := i, toI := if k <= |s.toI| then s.toI[k..] else [])
    case InitiatorEnds => s.(i := InitiatorIn(s.i, s.address, None).0)
    case StartSending => s.(i := SendFile(s.i, s.file))
  }

  // ----- the invariant --------------------------------------------------------------------

  /** The bytes the target has taken off its stream, by its state. */
  function TargetRead(s: System): Bytes
    requires |s.address| == ADDRESS
  {
    var t := s.t;
    if t.state == 0 then []
    else if t.state == 1 then t.data
    else if t.state == 2 then METHOD
    else if t.state == 3 then METHOD + t.data
    else if t.state == 4 then METHOD + Reply(s.address)[..5] + t.data
    else METHOD + Reply(s.address) + t.received
  }

  function TargetWrote(s: System): Bytes {
    if s.t.state == 0 then [] else if s.t.state <= 2 then GREETING else GREETING + Request(s.address)
  }

  function InitiatorRead(s: System): Bytes
    requires |s.address| == ADDRESS
  {
    var i := s.i;
    if !s.accepted then []
    else if i.state == 0 then i.data
    else if i.state == 1 then if i.waitIn then [5, 1] else GREETING
    else if i.state == 2 then GREETING + i.data
    else if i.state == 3 then GREETING + Request(s.address)[..5] + i.data
    else GREETING + Request(s.address)
  }

  /** What the initiator has written of the file. */
  function Sent(s: System): Bytes {
    if |s.i.file| <= |s.file| then s.file[..|s.file| - |s.i.file|] else []
  }

  function InitiatorWrote(s: System): Bytes {
    if !s.accepted || s.i.state <= 1 then []
    else if s.i.state <= 4 then METHOD
    else if s.i.state == 5 then METHOD + Reply(s.address)
    else METHOD + Reply(s.address) + Sent(s)
  }

  /** The target's own fields. */
  predicate TargetInv(t: Peer) {
    && TargetSane(t)
    && (t.state in {0, 1, 2, 3, 4, 8, 9, 11})
    && (t.waitOut <==> t.state in {0, 2, 8} || (t.state == 9 && t.waitOut))
    && (t.waitIn <==> t.state in {1, 3, 4, 8, 11} || (t.state == 9 && t.waitIn))
    && !(t.state == 9 && t.waitIn && t.waitOut)
    && (t.closed <==> t.state in {8, 9})
    && (Ready in t.calls <==> t.state in {8, 9, 11})
    && (Complete in t.calls <==> t.state == 9 && !t.waitIn && !t.waitOut)
    && Failure !in t.calls
    && (t.state in {0, 1, 2, 3, 4} ==> t.received == [])
    && (t.state in {0, 2, 8, 9, 11} ==> t.data == [])
    && (t.state in {0, 8, 9, 11} ==> t.ilen == 0)
    && (t.state == 4 ==> t.ilen == ADDRESS + 2)
  }

  /** The initiator's own fields. */
  predicate InitiatorInv(i: Peer) {
    && InitiatorSane(i)
    && (i.state in {0, 1, 2, 3, 4, 5, 8, 9, 10})
    && (i.waitOut <==> i.state in {4, 8, 10} || (i.state == 1 && !i.waitIn) || (i.state == 9 && i.waitOut))
    && (i.waitIn <==> i.state in {0, 2, 3, 8} || (i.state == 1 && !i.waitOut) || (i.state == 9 && i.waitIn))
    && !(i.state == 9 && i.waitIn && i.waitOut)
    && (i.closed <==> i.state in {8, 9})
    && (Ready in i.calls <==> i.state in {5, 8, 9, 10})
    && (Complete in i.calls <==> i.state == 9 && !i.waitIn && !i.waitOut)
    && Failure !in i.calls
    && (i.state == 1 ==> i.ilen == 1 && i.data == [])
    && (i.state in {4, 5, 8, 9, 10} ==> i.data == [])
    && (i.state in {8, 9} ==> i.ilen == 0)
  }

  /** The file: what the initiator has not read yet is its end. */
  predicate FileInv(s: System) {
    && (s.accepted && s.i.state in {8, 9, 10} ==>
          |s.i.file| <= |s.file| && s.i.file == s.file[|s.file| - |s.i.file|..])
    && (s.i.state in {8, 9} ==> s.i.file == [])
    && (s.t.state in {8, 9} ==> s.i.closed && s.toT == [])
  }

  /** Every byte is accounted for: what one peer wrote is what the other has taken and what
      is on its way. */
  predicate StreamInv(s: System)
    requires |s.address| == ADDRESS
  {
    && s.t.out == TargetWrote(s)
    && s.i.out == InitiatorWrote(s)
    && TargetRead(s) + s.toT == s.i.out
    && InitiatorRead(s) + s.toI == s.t.out
  }

  predicate Inv(s: System) {
    && |s.address| == ADDRESS
    && TargetInv(s.t)
    && (if s.accepted then InitiatorInv(s.i) else s.i == IDLE)
    && FileInv(s)
    && StreamInv(s)
  }

  lemma {:induction false} StartInv(address: Bytes, file: Bytes, host: string)
    requires |address| == ADDRESS
    ensures Inv(Start(address, file, host))
  {
  }

  lemma {:induction false} AcceptKeepsInv(s: System)
    requires Inv(s) && Enabled(s, AcceptConnection)
    ensures Inv(Do(s, AcceptConnection))
  {
  }

  lemma {:induction false} WrittenIs(p: Peer, q: Peer, bytes: Bytes)
    requires q.out == p.out + bytes
    ensures Written(p, q) == bytes
  {
  }

  lemma {:induction false} TargetSpeaks(s: System, bytes: Bytes)
    requires Inv(s) && s.t.state in {0, 2}
    requires bytes == if s.t.state == 0 then GREETING else Request(s.address)
    ensures var t := Expect(s.t.(waitOut := false, state := s.t.state + 1, out := s.t.out + bytes),
                            if s.t.state == 0 then 2 else 5);
            Inv(s.(t := t, toI := s.toI + bytes))
  {
    var t := Expect(s.t.(waitOut := false, state := s.t.state + 1, out := s.t.out + bytes),
                    if s.t.state == 0 then 2 else 5);
    var s' := s.(t := t, toI := s.toI + bytes);
    assert TargetInv(t) && FileInv(s');
    assert TargetRead(s') == TargetRead(s) by {
      if s.t.state == 2 { assert METHOD + [] == METHOD; }
    }
    assert TargetWrote(s') == TargetWrote(s) + bytes;
    hide TargetInv, FileInv, TargetRead, TargetWrote, InitiatorInv, StreamInv;
    TargetAdds(s, t, bytes);
  }

  lemma {:induction false} TargetAdds(s: System, t: Peer, bytes: Bytes)
    requires Inv(s) && TargetInv(t) && t.out == s.t.out + bytes
    requires var s' := s.(t := t, toI := s.toI + bytes);
             TargetRead(s') == TargetRead(s) && TargetWrote(s') == TargetWrote(s) + bytes && FileInv(s')
    ensures Inv(s.(t := t, toI := s.toI + bytes))
  {
    hide TargetInv, FileInv, TargetRead, TargetWrote, InitiatorInv, InitiatorRead, InitiatorWrote;
    InitiatorSideSame(s, s.(t := t, toI := s.toI + bytes));
    Regroup(InitiatorRead(s), s.toI, bytes);
  }

  /** What the initiator's side reads and wrote depends on its own fields. */
  lemma {:induction false} InitiatorSideSame(s: System, s': System)
    requires |s.address| == ADDRESS && s' == s.(t := s'.t, toI := s'.toI, toT := s'.toT)
    ensures InitiatorRead(s') == InitiatorRead(s) && InitiatorWrote(s') == InitiatorWrote(s)
  {
  }

  lemma {:induction false} TargetWritesKeepsInv(s: System)
    requires Inv(s) && Enabled(s, TargetWrites)
    ensures Inv(Do(s, TargetWrites))
  {
    var t := TargetOut(s.t, s.address, true);
    if s.t.state in {0, 2} {
      var bytes := if s.t.state == 0 then GREETING else Request(s.address);
      TargetSpeaks(s, bytes);
      WrittenIs(s.t, t, bytes);
    } else {
      WrittenIs(s.t, t, []);
      assert s.toI + [] == s.toI;
      TargetClosing(s, s.t.(waitOut := false));
    }
  }

  /** The callbacks after a close change nothing but the target's state and reports. */
  lemma {:induction false} TargetClosing(s: System, q: Peer)
    requires Inv(s) && s.t.state in {8, 9}
    requires (s.t.waitOut && q == s.t.(waitOut := false)) || (s.t.waitIn && q == s.t.(waitIn := false))
    ensures Inv(s.(t := Closing(q)))
  {
    InitiatorSideSame(s, s.(t := Closing(q)));
  }

  /** At the end of the stream the target has read the whole file. */
  lemma {:induction false} TargetAtEnd(s: System)
    requires Inv(s) && s.t.waitIn && !s.t.closed && s.toT == [] && s.i.closed
    ensures s.t.state == 11 && s.t.received == s.file
  {
    assert s.i.out == METHOD + Reply(s.address) + Sent(s);
    assert TargetRead(s) + [] == TargetRead(s);
    assert Sent(s) == s.file;
    if s.t.state == 11 {
      assert (METHOD + Reply(s.address) + s.t.received)[49..] == s.t.received;
      assert (METHOD + Reply(s.address) + s.file)[49..] == s.file;
    }
  }

  lemma {:induction false} TargetEndsKeepsInv(s: System)
    requires Inv(s) && Enabled(s, TargetEnds)
    ensures Inv(Do(s, TargetEnds))
  {
    if s.t.state in {8, 9} {
      TargetClosing(s, s.t.(waitIn := false));
    } else {
      TargetAtEnd(s);
      var s' := Do(s, TargetEnds);
      InitiatorSideSame(s, s');
    }
  }

  /** What the target's side reads and wrote depends on its own fields. */
  lemma {:induction false} TargetSideSame(s: System, s': System)
    requires |s.address| == ADDRESS && s' == s.(i := s'.i, toI := s'.toI, toT := s'.toT, accepted := s'.accepted)
    ensures TargetRead(s') == TargetRead(s) && TargetWrote(s') == TargetWrote(s)
  {
  }

  lemma {:induction false} InitiatorSpeaks(s: System, i: Peer, bytes: Bytes)
    requires Inv(s) && s.accepted
    requires i.out == s.i.out + bytes && InitiatorInv(i)
    requires var s' := s.(i := i, toT := s.toT + bytes);
             InitiatorRead(s') == InitiatorRead(s) && InitiatorWrote(s') == InitiatorWrote(s) + bytes && FileInv(s')
    ensures Inv(s.(i := i, toT := s.toT + bytes))
  {
    var s' := s.(i := i, toT := s.toT + bytes);
    TargetSideSame(s, s');
    Regroup(TargetRead(s), s.toT, bytes);
  }

  lemma {:induction false} InitiatorAnswers(s: System)
    requires Inv(s) && Enabled(s, InitiatorWrites) && s.i.state in {1, 4}
    ensures Inv(Do(s, InitiatorWrites))
  {
    var i := InitiatorOut(s.i, s.address, true);
    var bytes := if s.i.state == 1 then METHOD else Reply(s.address);
    WrittenIs(s.i, i, bytes);
    var s' := s.(i := i, toT := s.toT + bytes);
    assert InitiatorRead(s') == InitiatorRead(s) by {
      if s.i.state == 1 { assert GREETING + [] == GREETING; }
    }
    assert InitiatorWrote(s') == InitiatorWrote(s) + bytes;
    InitiatorSpeaks(s, i, bytes);
  }

  lemma {:induction false} InitiatorSends(s: System)
    requires Inv(s) && Enabled(s, InitiatorWrites) && s.i.state == 10
    ensures Inv(Do(s, InitiatorWrites))
  {
    var i := InitiatorOut(s.i, s.address, true);
    var n := if |s.i.file| < CHUNK then |s.i.file| else CHUNK;
    var bytes := s.i.file[..n];
    SendBlockIs(s.i, s.address);
    WrittenIs(s.i, i, bytes);
    SentMore(s, i, n);
    hide InitiatorOut, InitiatorInv, TargetRead, TargetInv, Written, FileInv, StreamInv, InitiatorRead, InitiatorWrote,
         Sent;
    InitiatorSpeaks(s, i, bytes);
  }

  lemma {:induction false} SendBlockIs(p: Peer, address: Bytes)
    requires InitiatorInv(p) && p.state == 10
    ensures var q := InitiatorOut(p, address, true);
            var n := if |p.file| < CHUNK then |p.file| else CHUNK;
            && q.out == p.out + p.file[..n] && q.file == p.file[n..] && InitiatorInv(q)
            && q.state == (if n == 0 then 8 else 10)
  {
    if p.file == [] {
      assert p.out + [] == p.out;
    } else {
      var n := if |p.file| < CHUNK then |p.file| else CHUNK;
      assert (p.calls + [Progress(n)])[|p.calls|] == Progress(n);
    }
  }

  lemma {:induction false} SentMore(s: System, i: Peer, n: nat)
    requires |s.address| == ADDRESS && s.accepted && s.i.state == 10 && FileInv(s)
    requires n <= |s.i.file| && (n == 0 ==> s.i.file == [])
    requires i.file == s.i.file[n..] && i.state == (if n == 0 then 8 else 10)
    requires s.t.state !in {8, 9}
    ensures var s' := s.(i := i, toT := s.toT + s.i.file[..n]);
            && InitiatorRead(s') == InitiatorRead(s) && InitiatorWrote(s') == InitiatorWrote(s) + s.i.file[..n]
            && FileInv(s')
  {
    var s' := s.(i := i, toT := s.toT + s.i.file[..n]);
    FileAdvances(s.file, s.i.file, n);
    assert FileInv(s');
    assert Sent(s') == Sent(s) + s.i.file[..n];
    hide Sent, FileInv, Reply;
    Regroup(METHOD + Reply(s.address), Sent(s), s.i.file[..n]);
  }

  lemma {:induction false} FileAdvances(file: Bytes, left: Bytes, n: nat)
    requires |left| <= |file| && left == file[|file| - |left|..] && n <= |left|
    ensures left[n..] == file[|file| - |left[n..]|..]
    ensures file[..|file| - |left[n..]|] == file[..|file| - |left|] + left[..n]
  {
  }

  lemma {:induction false} InitiatorHangup(s: System, q: Peer)
    requires Inv(s) && s.accepted && s.i.state in {8, 9}
    requires (s.i.waitOut && q == s.i.(waitOut := false)) || (s.i.waitIn && q == s.i.(waitIn := false))
    ensures Inv(s.(i := Hangup(q)))
  {
    TargetSideSame(s, s.(i := Hangup(q)));
  }

  lemma {:induction false} InitiatorWritesKeepsInv(s: System)
    requires Inv(s) && Enabled(s, InitiatorWrites)
    ensures Inv(Do(s, InitiatorWrites))
  {
    if s.i.state in {1, 4} {
      InitiatorAnswers(s);
    } else if s.i.state == 10 {
      InitiatorSends(s);
    } else {
      WrittenIs(s.i, InitiatorOut(s.i, s.address, true), []);
      assert s.toT + [] == s.toT;
      InitiatorHangup(s, s.i.(waitOut := false));
    }
  }

  lemma {:induction false} InitiatorEndsKeepsInv(s: System)
    requires Inv(s) && Enabled(s, InitiatorEnds)
    ensures Inv(Do(s, InitiatorEnds))
  {
    InitiatorHangup(s, s.i.(waitIn := false));
  }

  lemma {:induction false} StartSendingKeepsInv(s: System)
    requires Inv(s) && Enabled(s, StartSending)
    ensures Inv(Do(s, StartSending))
  {
  }

  // ----- reading ----------------------------------------------------------------------------

  /** A message in the making and the rest of the queue stay together. */
  lemma {:induction false} GatherMoves(p: Peer, queue: Bytes, n: nat)
    requires Sane(p) && p.state < 10 && p.ilen > 0 && 1 <= n <= |queue|
    ensures var (q, k, m) := Gather(p, queue[..n]);
            && 1 <= k <= |queue|
            && (m.None? ==>
                  && q.data + queue[k..] == p.data + queue && q == p.(data := q.data, waitIn := true)
                  && |q.data| < p.ilen)
            && (m.Some? ==> m.value + queue[k..] == p.data + queue && q == p.(data := []) && |m.value| == p.ilen)
  {
    var (q, k, m) := Gather(p, queue[..n]);
    assert queue[..n][..k] == queue[..k];
    assert queue[..k] + queue[k..] == queue;
    assert (p.data + queue[..k]) + queue[k..] == p.data + queue;
  }

  /** What follows a known beginning is known too. */
  lemma {:induction false} SecondPart(a: Bytes, m: Bytes, rest: Bytes, whole: Bytes)
    requires a + (m + rest) == whole
    ensures |a| + |m| <= |whole| && m == whole[|a|..|a| + |m|] && rest == whole[|a| + |m|..]
  {
    assert whole[|a|..] == m + rest;
  }

  /** The part of what was taken that does not belong to the message being read. */
  function TargetBefore(s: System): Bytes
    requires |s.address| == ADDRESS
  {
    if s.t.state == 3 then METHOD else if s.t.state == 4 then METHOD + Reply(s.address)[..5] else []
  }

  /** The message that the target is waiting for is a piece of what was written to it. */
  lemma {:induction false} TargetMessageIs(s: System, m: Bytes, rest: Bytes)
    requires Inv(s) && s.t.state in {1, 3, 4} && |m| == s.t.ilen && m + rest == s.t.data + s.toT
    ensures s.t.state == 1 ==> m == METHOD
    ensures s.t.state == 3 ==> m == Reply(s.address)[..5]
    ensures s.t.state == 4 ==> m == Reply(s.address)[5..]
    ensures TargetBefore(s) + (m + rest) == s.i.out
  {
    var before := TargetBefore(s);
    Regroup(before, s.t.data, s.toT);
    assert TargetRead(s) == before + s.t.data;
    SecondPart(before, m, rest, s.i.out);
    InitiatorOutIs(s);
    hide InitiatorWrote, TargetRead, TargetWrote, InitiatorRead, InitiatorInv;
  }

  /** The shape of what the initiator wrote. */
  lemma {:induction false} InitiatorOutIs(s: System)
    requires |s.address| == ADDRESS
    ensures var out := InitiatorWrote(s);
            && (|out| == 0 || |out| == 2 || |out| >= 49)
            && (|out| >= 2 ==> out[..2] == METHOD)
            && (|out| >= 49 ==> out[2..7] == Reply(s.address)[..5] && out[7..49] == Reply(s.address)[5..])
  {
    var reply := Reply(s.address);
    assert (METHOD + reply)[2..7] == reply[..5] && (METHOD + reply)[7..49] == reply[5..];
  }

  lemma {:induction false} TargetReadsMessage(s: System, n: nat)
    requires Inv(s) && Enabled(s, TargetReads(n)) && s.t.state in {1, 3, 4}
    ensures Inv(Do(s, TargetReads(n)))
  {
    var p := s.t.(waitIn := false);
    GatherMoves(p, s.toT, n);
    var (q, k, m) := Gather(p, s.toT[..n]);
    var rest := s.toT[k..];
    hide Gather;
    var s' := Do(s, TargetReads(n));
    if m.None? {
      var before := TargetBefore(s);
      Regroup(before, s.t.data, s.toT);
      Regroup(before, q.data, rest);
      assert TargetRead(s) == before + s.t.data && TargetRead(s') == before + q.data;
    } else {
      TargetMessageIs(s, m.value, rest);
      TargetGotMessage(s, m.value, rest);
    }
  }

  /** The state after a message. */
  lemma {:induction false} TargetGotMessage(s: System, m: Bytes, rest: Bytes)
    requires Inv(s) && s.t.state in {1, 3, 4} && |m| == s.t.ilen
    requires s.t.state == 1 ==> m == METHOD
    requires s.t.state == 3 ==> m == Reply(s.address)[..5]
    requires s.t.state == 4 ==> m == Reply(s.address)[5..]
    requires TargetBefore(s) + (m + rest) == s.i.out
    ensures var q := s.t.(waitIn := false, data := []);
            Inv(s.(t := ServeTarget(s.t, TargetMessage(q, m)), toT := rest))
  {
    var q := s.t.(waitIn := false, data := []);
    var s' := s.(t := ServeTarget(s.t, TargetMessage(q, m)), toT := rest);
    var before := TargetBefore(s);
    Regroup(before, m, rest);
    if s.t.state == 1 {
      assert before + m == METHOD;
    } else if s.t.state == 3 {
      assert TargetRead(s') == before + m + [] == before + m;
    } else {
      assert Reply(s.address)[..5] + m == Reply(s.address);
      Regroup(METHOD, Reply(s.address)[..5], m);
      assert TargetRead(s') == before + m + [] == before + m;
    }
  }

  lemma {:induction false} TargetReadsFile(s: System, n: nat)
    requires Inv(s) && Enabled(s, TargetReads(n)) && s.t.state == 11
    ensures Inv(Do(s, TargetReads(n)))
  {
    var s' := Do(s, TargetReads(n));
    var block := s.toT[..n];
    assert block + s'.toT == s.toT;
    assert (s.t.calls + [Progress(n)])[|s.t.calls|] == Progress(n);
    Regroup(METHOD + Reply(s.address), s.t.received, block);
    Regroup(TargetRead(s), block, s'.toT);
  }

  lemma {:induction false} TargetReadsKeepsInv(s: System, n: nat)
    requires Inv(s) && Enabled(s, TargetReads(n))
    ensures Inv(Do(s, TargetReads(n)))
  {
    if s.t.state == 11 {
      TargetReadsFile(s, n);
    } else {
      TargetReadsMessage(s, n);
    }
  }

  function InitiatorBefore(s: System): Bytes
    requires |s.address| == ADDRESS
  {
    if s.i.state == 0 then []
    else if s.i.state == 1 then [5, 1]
    else if s.i.state == 2 then GREETING
    else GREETING + Request(s.address)[..5]
  }

  lemma {:induction false} InitiatorMessageIs(s: System, m: Bytes, rest: Bytes)
    requires Inv(s) && s.accepted && s.i.state in {0, 1, 2, 3} && s.i.waitIn
    requires |m| == s.i.ilen && m + rest == s.i.data + s.toI
    ensures s.i.state == 0 ==> m == [5, 1]
    ensures s.i.state == 1 ==> m == [0]
    ensures s.i.state == 2 ==> m == Request(s.address)[..5]
    ensures s.i.state == 3 ==> m == Request(s.address)[5..]
    ensures InitiatorBefore(s) + (m + rest) == s.t.out
  {
    var before := InitiatorBefore(s);
    Regroup(before, s.i.data, s.toI);
    assert InitiatorRead(s) == before + s.i.data;
    SecondPart(before, m, rest, s.t.out);
    TargetOutIs(s);
    hide InitiatorWrote, TargetRead, InitiatorRead, TargetInv, TargetWrote;
  }

  /** The shape of what the target wrote. */
  lemma {:induction false} TargetOutIs(s: System)
    requires |s.address| == ADDRESS
    ensures var out := TargetWrote(s);
            && (|out| == 0 || |out| == 3 || |out| == 50)
            && (|out| >= 3 ==> out[0..2] == [5, 1] && out[2..3] == [0])
            && (|out| >= 50 ==> out[3..8] == Request(s.address)[..5] && out[8..50] == Request(s.address)[5..])
  {
    var request := Request(s.address);
    assert (GREETING + request)[3..8] == request[..5] && (GREETING + request)[8..50] == request[5..];
  }

  lemma {:induction false} InitiatorReadsKeepsInv(s: System, n: nat)
    requires Inv(s) && Enabled(s, InitiatorReads(n))
    ensures Inv(Do(s, InitiatorReads(n)))
  {
    var p := s.i.(waitIn := false);
    GatherMoves(p, s.toI, n);
    var (q, k, m) := Gather(p, s.toI[..n]);
    var rest := s.toI[k..];
    hide Gather;
    var s' := Do(s, InitiatorReads(n));
    if m.None? {
      var before := InitiatorBefore(s);
      Regroup(before, s.i.data, s.toI);
      Regroup(before, q.data, rest);
      assert InitiatorRead(s) == before + s.i.data && InitiatorRead(s') == before + q.data;
    } else {
      InitiatorMessageIs(s, m.value, rest);
      InitiatorGotMessage(s, m.value, rest);
    }
  }

  lemma {:induction false} InitiatorGotMessage(s: System, m: Bytes, rest: Bytes)
    requires Inv(s) && s.accepted && s.i.state in {0, 1, 2, 3} && s.i.waitIn && |m| == s.i.ilen
    requires s.i.state == 0 ==> m == [5, 1]
    requires s.i.state == 1 ==> m == [0]
    requires s.i.state == 2 ==> m == Request(s.address)[..5]
    requires s.i.state == 3 ==> m == Request(s.address)[5..]
    requires InitiatorBefore(s) + (m + rest) == s.t.out
    ensures var q := s.i.(waitIn := false, data := []);
            Inv(s.(i := InitiatorMessage(q, s.address, m), toI := rest))
  {
    var q := s.i.(waitIn := false, data := []);
    var s' := s.(i := InitiatorMessage(q, s.address, m), toI := rest);
    var before := InitiatorBefore(s);
    Regroup(before, m, rest);
    var request := Request(s.address);
    if s.i.state == 0 {
      assert InitiatorRead(s') == before + m;
    } else if s.i.state == 1 {
      assert InitiatorRead(s') == before + m;
    } else if s.i.state == 2 {
      assert InitiatorRead(s') == before + m + [] == before + m;
    } else {
      assert request[..5] + m == request;
      Regroup(GREETING, request[..5], m);
      assert m[..40] == s.address && m[40] == 0 && m[41] == 0;
      assert InitiatorRead(s') == before + m;
    }
  }

  lemma {:induction false} MoveKeepsInv(s: System, m: Move)
    requires Inv(s) && Enabled(s, m)
    ensures Inv(Do(s, m))
    ensures Do(s, m).address == s.address && Do(s, m).file == s.file
  {
    match m
    case AcceptConnection => AcceptKeepsInv(s);
    case TargetWrites => TargetWritesKeepsInv(s);
    case TargetReads(n) => TargetReadsKeepsInv(s, n);
    case TargetEnds => TargetEndsKeepsInv(s);
    case InitiatorWrites => InitiatorWritesKeepsInv(s);
    case InitiatorReads(n) => InitiatorReadsKeepsInv(s, n);
    case InitiatorEnds => InitiatorEndsKeepsInv(s);
    case StartSending => StartSendingKeepsInv(s);
  }

  // ----- safety -----------------------------------------------------------------------------

  /** In every reachable state: neither peer has given up, the target has taken exactly the
      replies off its stream before the file, and what it received is a beginning of the
      file. */
  lemma {:induction false} ReceivedIsPrefix(s: System)
    requires Inv(s)
    ensures s.t.state !in {6, 7, 12, 13} && s.i.state !in {6, 7, 12, 13}
    ensures Failure !in s.t.calls && Failure !in s.i.calls
    ensures Ready in s.t.calls ==> Ready in s.i.calls && |TargetRead(s)| == 2 + 5 + 42 + |s.t.received|
    ensures s.t.received <= s.file
    ensures s.t.received != [] ==> s.accepted && s.i.state in {8, 9, 10} && s.t.received <= Sent(s)
  {
    if s.t.state in {8, 9, 11} {
      var head := METHOD + Reply(s.address);
      assert |head| == 49;
      assert |s.i.out| >= 49;
      if s.i.state == 5 {
        assert s.i.out == head + [];
        TailIsPrefix(head, s.t.received, s.toT, []);
      } else {
        TailIsPrefix(head, s.t.received, s.toT, Sent(s));
      }
    }
  }

  lemma {:induction false} TailIsPrefix(head: Bytes, a: Bytes, b: Bytes, c: Bytes)
    requires (head + a) + b == head + c
    ensures a <= c
  {
    assert ((head + a) + b)[|head|..] == a + b;
    assert (head + c)[|head|..] == c;
  }

  /** When the target reports completion it has the whole file. */
  lemma {:induction false} CompleteHasAll(s: System)
    requires Inv(s) && Complete in s.t.calls
    ensures s.t.received == s.file && s.toT == []
  {
    var head := METHOD + Reply(s.address);
    assert Sent(s) == s.file;
    assert TargetRead(s) + [] == head + s.t.received;
    assert (head + s.t.received)[49..] == s.t.received && (head + s.file)[49..] == s.file;
  }

  // ----- progress -----------------------------------------------------------------------------

  function ClosingCost(p: Peer): nat {
    if p.state == 8 then 2 else if p.state == 9 && (p.waitIn || p.waitOut) then 1 else if p.state == 9 then 0 else 3
  }

  function FileLeft(s: System): nat {
    if s.accepted && s.i.state in {8, 9, 10} then |s.i.file| else |s.file|
  }

  function TargetCallbacks(s: System): nat {
    ClosingCost(s.t) + if s.t.state == 0 then 2 else if s.t.state <= 2 then 1 else 0
  }

  function InitiatorCallbacks(s: System): nat {
    ClosingCost(s.i) +
    if !s.accepted then 5 else if s.i.state <= 1 then 4 else if s.i.state <= 4 then 3 else if s.i.state == 5 then 2
    else if s.i.state == 10 then 1 else 0
  }

  /** Bytes to take, bytes to send, and callbacks to come. */
  function Cost(s: System): int
    requires |s.address| == ADDRESS
  {
    (49 + |s.file| - |TargetRead(s)|) + (50 - |InitiatorRead(s)|)
    + FileLeft(s) + TargetCallbacks(s) + InitiatorCallbacks(s)
  }

  lemma {:induction false} CostIsNatural(s: System)
    requires Inv(s)
    ensures Cost(s) >= 0
  {
    ReceivedIsPrefix(s);
  }

  /** A reading target takes something off its queue and owes no more callbacks. */
  lemma {:induction false} TargetTakes(s: System, n: nat)
    requires Inv(s) && Enabled(s, TargetReads(n))
    ensures var s' := Do(s, TargetReads(n));
            |s'.toT| < |s.toT| && TargetCallbacks(s') <= TargetCallbacks(s) && s' == s.(t := s'.t, toT := s'.toT)
  {
    hide StreamInv, FileInv, InitiatorInv;
    if s.t.state != 11 {
      GatherMoves(s.t.(waitIn := false), s.toT, n);
    }
  }

  lemma {:induction false} TargetReadsMore(s: System, n: nat)
    requires Inv(s) && Enabled(s, TargetReads(n))
    ensures var s' := Do(s, TargetReads(n));
            && |TargetRead(s')| > |TargetRead(s)| && TargetCallbacks(s') <= TargetCallbacks(s)
            && s' == s.(t := s'.t, toT := s'.toT)
  {
    TargetReadsKeepsInv(s, n);
    TargetTakes(s, n);
    hide Do, TargetRead, TargetInv, InitiatorInv, FileInv, TargetCallbacks, InitiatorRead, InitiatorWrote, TargetWrote,
         Enabled;
    assert |TargetRead(s)| + |s.toT| == |s.i.out|;
  }

  lemma {:induction false} InitiatorTakes(s: System, n: nat)
    requires Inv(s) && Enabled(s, InitiatorReads(n))
    ensures var s' := Do(s, InitiatorReads(n));
            && |s'.toI| < |s.toI| && InitiatorCallbacks(s') <= InitiatorCallbacks(s)
            && FileLeft(s') == FileLeft(s) && s' == s.(i := s'.i, toI := s'.toI)
  {
    hide StreamInv, FileInv, TargetInv;
    GatherMoves(s.i.(waitIn := false), s.toI, n);
    InitiatorReadsKeepsInv(s, n);
  }

  lemma {:induction false} InitiatorReadsMore(s: System, n: nat)
    requires Inv(s) && Enabled(s, InitiatorReads(n))
    ensures var s' := Do(s, InitiatorReads(n));
            && |InitiatorRead(s')| > |InitiatorRead(s)| && InitiatorCallbacks(s') <= InitiatorCallbacks(s)
            && FileLeft(s') == FileLeft(s) && s' == s.(i := s'.i, toI := s'.toI)
  {
    InitiatorReadsKeepsInv(s, n);
    InitiatorTakes(s, n);
    hide Do, TargetRead, TargetInv, InitiatorInv, FileInv, FileLeft, InitiatorCallbacks, InitiatorRead, InitiatorWrote,
         TargetWrote, Enabled;
    assert |InitiatorRead(s)| + |s.toI| == |s.t.out|;
  }

  /** Writing callbacks and ends of streams are used up; what was read stays. */
  lemma {:induction false} TargetCallbackUsed(s: System, m: Move)
    requires Inv(s) && Enabled(s, m) && (m.TargetWrites? || m.TargetEnds?)
    ensures var s' := Do(s, m);
            && |TargetRead(s')| == |TargetRead(s)| && TargetCallbacks(s') < TargetCallbacks(s)
            && s' == s.(t := s'.t, toI := s'.toI)
  {
    if m.TargetEnds? && !s.t.closed {
      TargetAtEnd(s);
    }
  }

  lemma {:induction false} InitiatorCallbackUsed(s: System, m: Move)
    requires Inv(s) && Enabled(s, m)
    requires m.AcceptConnection? || m.InitiatorWrites? || m.InitiatorEnds? || m.StartSending?
    ensures var s' := Do(s, m);
            && |InitiatorRead(s')| == |InitiatorRead(s)|
            && FileLeft(s') + InitiatorCallbacks(s') < FileLeft(s) + InitiatorCallbacks(s)
            && s' == s.(i := s'.i, toT := s'.toT, accepted := s'.accepted)
  {
    hide StreamInv;
    if m.InitiatorWrites? && s.i.state == 10 {
      SendBlockIs(s.i, s.address);
    }
  }

  /** Every move comes closer to the end. */
  lemma {:induction false} MoveDecreases(s: System, m: Move)
    requires Inv(s) && Enabled(s, m)
    ensures Cost(Do(s, m)) < Cost(s)
  {
    var s' := Do(s, m);
    hide Do, Inv, TargetRead, InitiatorRead, TargetCallbacks, InitiatorCallbacks, FileLeft, Enabled;
    match m
    case TargetReads(n) =>
      TargetReadsMore(s, n);
      InitiatorPart(s, s');
    case InitiatorReads(n) =>
      InitiatorReadsMore(s, n);
      TargetPart(s, s');
    case TargetWrites =>
      TargetCallbackUsed(s, m);
      InitiatorPart(s, s');
    case TargetEnds =>
      TargetCallbackUsed(s, m);
      InitiatorPart(s, s');
    case _ =>
      InitiatorCallbackUsed(s, m);
      TargetPart(s, s');
  }

  lemma {:induction false} InitiatorPart(s: System, s': System)
    requires |s.address| == ADDRESS && s' == s.(t := s'.t, toI := s'.toI, toT := s'.toT)
    ensures InitiatorRead(s') == InitiatorRead(s) && InitiatorCallbacks(s') == InitiatorCallbacks(s)
    ensures FileLeft(s') == FileLeft(s)
  {
  }

  lemma {:induction false} TargetPart(s: System, s': System)
    requires |s.address| == ADDRESS && s' == s.(i := s'.i, toI := s'.toI, toT := s'.toT, accepted := s'.accepted)
    ensures TargetRead(s') == TargetRead(s) && TargetCallbacks(s') == TargetCallbacks(s)
  {
  }

  predicate Finished(s: System) {
    Complete in s.t.calls && Complete in s.i.calls
  }

  /** As long as not both peers are done, something can happen. */
  lemma {:induction false} NeverStuck(s: System) returns (m: Move)
    requires Inv(s) && !Finished(s)
    ensures Enabled(s, m)
  {
    var t, i := s.t, s.i;
    if !s.accepted {
      m := AcceptConnection;
    } else if t.waitOut {
      m := TargetWrites;
    } else if i.waitOut {
      m := InitiatorWrites;
    } else if i.state == 5 {
      m := StartSending;
    } else if t.waitIn && t.closed {
      m := TargetEnds;
    } else if i.waitIn && i.closed {
      m := InitiatorEnds;
    } else if s.toT != [] {
      m := TargetReads(1);
    } else if s.toI != [] {
      m := InitiatorReads(1);
    } else {
      m := TargetEnds;
      assert TargetRead(s) + [] == TargetRead(s) && InitiatorRead(s) + [] == InitiatorRead(s);
    }
  }

  // ----- runs ---------------------------------------------------------------------------------

  /** Where a sequence of moves leads; None if one of them could not happen. */
  function Execute(s: System, moves: seq<Move>): Option<System>
    requires Inv(s)
    decreases |moves|
  {
    if moves == [] then Some(s)
    else if !Enabled(s, moves[0]) then None
    else
      MoveKeepsInv(s, moves[0]);
      Execute(Do(s, moves[0]), moves[1..])
  }

  lemma {:induction false} ExecuteKeepsInv(s: System, moves: seq<Move>)
    requires Inv(s) && Execute(s, moves).Some?
    ensures var s' := Execute(s, moves).value;
            Inv(s') && s'.address == s.address && s'.file == s.file && |moves| + Cost(s') <= Cost(s)
    decreases |moves|
  {
    if moves != [] {
      MoveKeepsInv(s, moves[0]);
      MoveDecreases(s, moves[0]);
      hide Do, Enabled, Inv, Cost;
      ExecuteKeepsInv(Do(s, moves[0]), moves[1..]);
    }
  }

  /** In every interleaving and under every fragmentation: neither peer fails, the target
      receives a beginning of the file and nothing else, and has all of it when it reports
      completion; the number of moves is bounded, and a run that cannot go on is complete
      on both sides. */
  lemma {:induction false} TransferIsCorrect(address: Bytes, file: Bytes, host: string, moves: seq<Move>)
    requires |address| == ADDRESS
    requires Inv(Start(address, file, host)) && Execute(Start(address, file, host), moves).Some?
    ensures var s := Execute(Start(address, file, host), moves).value;
            && Failure !in s.t.calls && Failure !in s.i.calls
            && s.t.received <= file
            && (Complete in s.t.calls ==> s.t.received == file)
            && |moves| <= 115 + 2 * |file|
            && ((forall m :: !Enabled(s, m)) ==> Finished(s) && s.t.received == file)
  {
    var s0 := Start(address, file, host);
    ExecuteKeepsInv(s0, moves);
    var s := Execute(s0, moves).value;
    CostIsNatural(s);
    assert Cost(s0) == 49 + |file| + 50 + |file| + 3 + 2 + 3 + 5;
    hide Execute, Inv, Cost;
    ReceivedIsPrefix(s);
    if Complete in s.t.calls {
      CompleteHasAll(s);
    }
    if !Finished(s) {
      var m := NeverStuck(s);
    }
  }
}
