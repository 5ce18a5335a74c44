/**
 A bytestream beyond its handshake's end: a listening peer, whose connection may still come
 in after the service has aborted it, and a dialling peer on which the service starts to
 send before it is ready. They decide what the service above may still hear.
 */
module Socks5Listener {

  import opened Options
  import opened Socks5Peers
  import opened Socks5Outcomes

  // ----- the listening peer -------------------------------------------------------------

  datatype Listener = Listener(connected: bool, x: Trace)

  /** A connection comes in, or something happens to the peer. */
  datatype ListenEvent = Incoming | Happens(e: Event)

  const LISTENING := Listener(false, Trace(Peer(0, 0, [], false, false, false, [], 0, [], [], [], [], []), []))

  /** Before a connection nothing was reported and nothing is waited for. */
  predicate ListenerInv(l: Listener) {
    if l.connected then InitiatorOutcome(l.x.p)
    else l.x.p.calls == [] && !l.x.p.waitIn && !l.x.p.waitOut
  }

  predicate CanListen(l: Listener, e: ListenEvent) {
    match e
    case Incoming => true
    case Happens(d) => d.GiveUp? || (l.connected && Allowed(l.x.p, d))
  }

  /** The first connection starts with the greeting, a second one is closed at once; an
      abort without a connection only stops the listening. */
  function ListenDo(l: Listener, address: Bytes, e: ListenEvent): Listener
    requires ListenerInv(l) && CanListen(l, e)
  {
    match e
    case Incoming => if l.connected then l else Listener(true, Trace(Accept(l.x.p), []))
    case Happens(d) => if l.connected then Listener(true, InitiatorDo(l.x, address, d)) else l
  }

  lemma {:induction false} ListenKeepsInv(l: Listener, address: Bytes, e: ListenEvent)
    requires ListenerInv(l) && CanListen(l, e)
    ensures ListenerInv(ListenDo(l, address, e))
  {
    hide InitiatorOutcome, Allowed, InitiatorDo;
    match e
    case Incoming =>
      if !l.connected {
        FreshInitiator(l.x.p, address);
      }
    case Happens(d) =>
      if l.connected {
        assert Allowed(l.x.p, d) by {
          AbortIsAllowed(l.x.p);
        }
        InitiatorKeepsOutcome(l.x, address, d);
      }
  }

  lemma {:induction false} AbortIsAllowed(p: Peer)
    ensures Allowed(p, GiveUp)
  {
  }

  function ListenRun(l: Listener, address: Bytes, events: seq<ListenEvent>): (r: Option<Listener>)
    requires ListenerInv(l)
    ensures r.Some? ==> ListenerInv(r.value)
    decreases |events|
  {
    if events == [] then Some(l)
    else if !CanListen(l, events[0]) then None
    else
      ListenKeepsInv(l, address, events[0]);
      ListenRun(ListenDo(l, address, events[0]), address, events[1..])
  }

  /** Over any run, aborts before the connection included: never readiness and failure, each
      at most once, and nothing before there is a connection. */
  lemma {:induction false} ListenerOutcomes(address: Bytes, events: seq<ListenEvent>)
    requires ListenRun(LISTENING, address, events).Some?
    ensures var z := ListenRun(LISTENING, address, events).value;
            OneOutcome(z.x.p.calls) && (!z.connected ==> z.x.p.calls == [])
  {
  }

  /** With a connection, nothing is reported after the abort. */
  lemma {:induction false} SilentWhenConnected(l: Listener, address: Bytes, events: seq<ListenEvent>)
    requires ListenerInv(l) && l.connected && l.x.p.state == 12 && ListenRun(l, address, events).Some?
    ensures ListenRun(l, address, events).value.x.p.calls == l.x.p.calls
    decreases |events|
  {
    if events != [] {
      var m := ListenDo(l, address, events[0]);
      assert m.connected && m.x.p.state == 12 && m.x.p.calls == l.x.p.calls;
      ListenKeepsInv(l, address, events[0]);
      hide ListenerInv, ListenDo, CanListen;
      SilentWhenConnected(m, address, events[1..]);
    }
  }

  /** A listening peer is silent after an abort, whatever comes, if and only if it had a
      connection when it was aborted. */
  lemma {:induction false} SilentAfterAbortIff(l: Listener, address: Bytes)
    requires ListenerInv(l)
    ensures ListenerInv(ListenDo(l, address, Happens(GiveUp)))
    ensures (forall events :: var r := ListenRun(ListenDo(l, address, Happens(GiveUp)), address, events);
                              r.Some? ==> r.value.x.p.calls == l.x.p.calls)
            <==> l.connected
  {
    ListenKeepsInv(l, address, Happens(GiveUp));
    var m := ListenDo(l, address, Happens(GiveUp));
    if l.connected {
      forall events | ListenRun(m, address, events).Some?
        ensures ListenRun(m, address, events).value.x.p.calls == l.x.p.calls
      {
        SilentWhenConnected(m, address, events);
      }
    } else {
      LateConnection(l, address);
    }
  }

  /** The run after an abort that reports a failure: a connection comes in and is lost. */
  lemma {:induction false} LateConnection(l: Listener, address: Bytes)
    requires ListenerInv(l) && !l.connected
    ensures var z := ListenRun(l, address, [Incoming, Happens(In(None)), Happens(In(None)), Happens(Out(false))]);
            z.Some? && z.value.x.p.calls == [Failure]
  {
    var a, b, d := Incoming, Happens(In(None)), Happens(Out(false));
    ListenKeepsInv(l, address, a);
    var l1 := ListenDo(l, address, a);
    ListenKeepsInv(l1, address, b);
    var l2 := ListenDo(l1, address, b);
    ListenKeepsInv(l2, address, b);
    var l3 := ListenDo(l2, address, b);
    ListenKeepsInv(l3, address, d);
    var l4 := ListenDo(l3, address, d);
    assert l4.x.p.calls == [Failure];
    hide ListenDo, ListenerInv, CanListen;
    assert [a, b, b, d][1..] == [b, b, d] && [b, b, d][1..] == [b, d] && [b, d][1..] == [d] && [d][1..] == [];
    assert ListenRun(l4, address, []) == Some(l4);
    assert ListenRun(l3, address, [d]) == Some(l4);
    assert ListenRun(l2, address, [b, d]) == Some(l4);
    assert ListenRun(l1, address, [b, b, d]) == Some(l4);
  }

  // ----- the dialling peer on which a file is started or which is aborted --------------------

  /** The service has called for the file, or has aborted the peer, in any state. */
  predicate TakenOver(p: Peer) {
    p.state in {8, 9, 10, 12} && (p.state in {8, 9} ==> p.ilen == 0)
  }

  /** From then on files may be started again at any time. */
  function TakenRun(x: Trace, address: Bytes, events: seq<Event>): Option<Trace>
    requires TakenOver(x.p)
    decreases |events|
  {
    if events == [] then Some(x)
    else if events[0].StartReceiving? || !(events[0].StartSending? || Allowed(x.p, events[0])) then None
    else TakenRun(TargetDo(x, address, events[0]), address, events[1..])
  }

  /** Neither readiness nor failure is reported any more, however far the handshake was. */
  lemma {:induction false} QuietOnceTakenOver(p: Peer, file: Bytes, taken: Bytes, address: Bytes, events: seq<Event>)
    ensures TakenOver(SendFile(p, file)) && TakenOver(Abort(p))
    ensures forall q :: q in {SendFile(p, file), Abort(p)} ==>
              var r := TakenRun(Trace(q, taken), address, events);
              r.Some? ==> forall c :: c in {Ready, Failure} ==> Times(r.value.p.calls, c) == Times(p.calls, c)
  {
    forall q | q in {SendFile(p, file), Abort(p)} && TakenRun(Trace(q, taken), address, events).Some?
      ensures var z := TakenRun(Trace(q, taken), address, events).value;
              forall c :: c in {Ready, Failure} ==> Times(z.p.calls, c) == Times(p.calls, c)
    {
      QuietRun(Trace(q, taken), address, events);
    }
  }

  lemma {:induction false} QuietRun(x: Trace, address: Bytes, events: seq<Event>)
    requires TakenOver(x.p) && TakenRun(x, address, events).Some?
    ensures var z := TakenRun(x, address, events).value;
            && TakenOver(z.p)
            && Times(z.p.calls, Ready) == Times(x.p.calls, Ready)
            && Times(z.p.calls, Failure) == Times(x.p.calls, Failure)
    decreases |events|
  {
    if events != [] {
      QuietStep(x, address, events[0]);
      hide TargetDo, Times, TakenOver;
      QuietRun(TargetDo(x, address, events[0]), address, events[1..]);
    }
  }

  lemma {:induction false} QuietStep(x: Trace, address: Bytes, e: Event)
    requires TakenOver(x.p) && !e.StartReceiving?
    ensures var z := TargetDo(x, address, e);
            && TakenOver(z.p)
            && Times(z.p.calls, Ready) == Times(x.p.calls, Ready)
            && Times(z.p.calls, Failure) == Times(x.p.calls, Failure)
  {
    TimesOneMore(x.p.calls, Complete, Ready);
    TimesOneMore(x.p.calls, Complete, Failure);
    if e.Out? && x.p.state == 10 {
      QuietBlock(x.p.(waitOut := false), e.ok);
    }
    hide Times, SendBlock;
  }

  lemma {:induction false} QuietBlock(p: Peer, ok: bool)
    requires p.state == 10
    ensures var q := SendBlock(p, ok);
            && TakenOver(q)
            && Times(q.calls, Ready) == Times(p.calls, Ready)
            && Times(q.calls, Failure) == Times(p.calls, Failure)
  {
    var n := if |p.file| < CHUNK then |p.file| else CHUNK;
    TimesOneMore(p.calls, Progress(n), Ready);
    TimesOneMore(p.calls, Progress(n), Failure);
    hide Times;
  }
}
