/**
 What the peers say and understand, against any other side: the bytes written up to each
 state of the handshake, which replies make a dialling peer ready and which greetings and
 requests a listening peer grants, however they are fragmented.
 */
module Socks5Handshake {

  import opened Options
  import opened Socks5Peers
  import opened Socks5Outcomes

  function Least(a: nat, b: nat): nat { if a < b then a else b }

  predicate AllPositive(sizes: seq<nat>) {
    forall i :: 0 <= i < |sizes| ==> sizes[i] > 0
  }

  // ----- the dialling peer ----------------------------------------------------------------

  /** The bytes of a queue come in: at each callback as many are available as the next size
      says, or all that are left. */
  function TargetReads(p: Peer, queue: Bytes, sizes: seq<nat>): (r: (Peer, Bytes))
    requires OutcomeInv(p)
    decreases |sizes|
  {
    if sizes == [] || !p.waitIn then (p, queue)
    else
      var available := queue[..Least(sizes[0], |queue|)];
      var (q, k) := TargetIn(p, Some(available));
      TargetInKeepsOutcome(p, Some(available));
      if k <= |queue| then TargetReads(q, queue[k..], sizes[1..]) else (q, [])
  }

  lemma {:induction false} TargetReadsStep(p: Peer, queue: Bytes, sizes: seq<nat>)
    requires OutcomeInv(p) && sizes != [] && p.waitIn
    ensures var (q, k) := TargetIn(p, Some(queue[..Least(sizes[0], |queue|)]));
            OutcomeInv(q) && (k <= |queue| ==> TargetReads(p, queue, sizes) == TargetReads(q, queue[k..], sizes[1..]))
  {
    TargetInKeepsOutcome(p, Some(queue[..Least(sizes[0], |queue|)]));
    hide TargetIn, OutcomeInv;
  }

  /** A message of which something is still to come. */
  predicate StillComing(p: Peer, rest: Bytes, more: Bytes, sizes: seq<nat>, r: (Peer, Bytes)) {
    && r.0 == p.(data := r.0.data) && p.data <= r.0.data && |r.0.data| < p.ilen && |r.1| > |more|
    && (AllPositive(sizes) ==> |sizes| < |rest|)
  }

  /** The callbacks left after a message of so many bytes. */
  predicate Later(left: seq<nat>, sizes: seq<nat>, length: nat) {
    |left| < |sizes| && (AllPositive(sizes) ==> AllPositive(left) && |sizes| <= |left| + length)
  }

  /** A message that comes in pieces is either still in the making or has been handled as a
      whole, and the rest of the callbacks are for what follows it. */
  lemma {:induction false} TargetMessageComes(p: Peer, rest: Bytes, more: Bytes, sizes: seq<nat>)
    returns (left: Option<seq<nat>>)
    requires OutcomeInv(p) && p.state in {1, 3, 4} && rest != [] && p.ilen == |p.data| + |rest|
    ensures left.None? ==> StillComing(p, rest, more, sizes, TargetReads(p, rest + more, sizes))
    ensures left.Some? ==>
              var q := TargetMessage(p.(data := [], waitIn := false), p.data + rest);
              && OutcomeInv(q) && Later(left.value, sizes, |rest|)
              && TargetReads(p, rest + more, sizes) == TargetReads(q, more, left.value)
    decreases |sizes|
  {
    var queue := rest + more;
    hide TargetIn, OutcomeInv, TargetMessage;
    if sizes == [] {
      left := None;
    } else {
      var n := Least(sizes[0], |queue|);
      var k := Least(n, |rest|);
      TargetPiece(p, rest, more, n);
      TargetReadsStep(p, queue, sizes);
      hide TargetReads;
      assert AllPositive(sizes) ==> AllPositive(sizes[1..]);
      if k < |rest| {
        var q := p.(data := p.data + rest[..k]);
        assert queue[k..] == rest[k..] + more;
        assert q.data + rest[k..] == p.data + rest;
        left := TargetMessageComes(q, rest[k..], more, sizes[1..]);
        assert q.(data := [], waitIn := false) == p.(data := [], waitIn := false);
      } else {
        assert queue[k..] == more;
        left := Some(sizes[1..]);
      }
    }
  }

  /** One callback of it. */
  lemma {:induction false} TargetPiece(p: Peer, rest: Bytes, more: Bytes, n: nat)
    requires OutcomeInv(p) && p.state in {1, 3, 4} && rest != [] && p.ilen == |p.data| + |rest|
    requires n <= |rest + more|
    ensures p.waitIn && !p.waitOut
    ensures var k := Least(n, |rest|);
            TargetIn(p, Some((rest + more)[..n]))
            == (if k < |rest| then p.(data := p.data + rest[..k])
                else TargetMessage(p.(data := [], waitIn := false), p.data + rest), k)
  {
    hide TargetMessage, OneOutcome;
    var k := Least(n, |rest|);
    assert (rest + more)[..n][..k] == rest[..k];
    if k == |rest| {
      assert rest[..k] == rest;
    }
  }

  /** Nothing more is read while no callback is asked for. */
  lemma {:induction false} TargetReadsNothing(p: Peer, queue: Bytes, sizes: seq<nat>)
    requires OutcomeInv(p) && !p.waitIn
    ensures TargetReads(p, queue, sizes) == (p, queue)
  {
  }

  /** The first five bytes of a reply that grants. */
  predicate GrantingHead(h: Bytes) {
    |h| == 5 && h[0] == 5 && h[1] == 0 && h[3] in {1, 3, 4}
  }

  /** What a head of five bytes leads to. */
  lemma {:induction false} HeadDecides(p: Peer, head: Bytes)
    requires TargetSane(p) && p.state == 3 && |head| == 5
    ensures TargetMessage(p, head)
            == if GrantingHead(head) then p.(state := 4, ilen := ReplyLength(head) - 5, waitIn := true) else Finish(p)
  {
  }

  /** Every reply that grants the request, of any address type and in any pieces, makes a
      dialling peer ready: exactly when all of it has come, and nothing that follows it is
      taken. */
  lemma {:induction false} GrantMakesReady(p: Peer, reply: Bytes, more: Bytes, sizes: seq<nat>)
    requires OutcomeInv(p) && p.state == 3 && p.data == [] && Grants(reply)
    ensures var (q, queue) := TargetReads(p, reply + more, sizes);
            && (if q.state == 5 then queue == more && q.calls == p.calls + [Ready]
                else q.state in {3, 4} && q.calls == p.calls && |queue| > |more|)
            && (AllPositive(sizes) && |sizes| >= |reply| ==> q.state == 5)
  {
    var head, rest := reply[..5], reply[5..];
    hide TargetMessage, TargetReads, OneOutcome;
    assert reply + more == head + (rest + more);
    var left := TargetMessageComes(p, head, rest + more, sizes);
    if left.Some? {
      var p4 := TargetMessage(p.(data := [], waitIn := false), p.data + head);
      assert p.data + head == head && head == reply[..5];
      HeadDecides(p.(data := [], waitIn := false), head);
      var after := TargetMessageComes(p4, rest, more, left.value);
      if after.Some? {
        var p5 := TargetMessage(p4.(data := [], waitIn := false), p4.data + rest);
        RestMakesReady(p4.(data := [], waitIn := false), p4.data + rest);
        TargetReadsNothing(p5, more, after.value);
      }
    }
  }

  lemma {:induction false} RestMakesReady(p: Peer, rest: Bytes)
    requires TargetSane(p) && p.state == 4 && |rest| == p.ilen
    ensures TargetMessage(p, rest) == p.(state := 5, ilen := 0, calls := p.calls + [Ready])
  {
  }

  /** Any other head closes the connection as soon as it has come. */
  lemma {:induction false} OtherHeadCloses(p: Peer, head: Bytes, more: Bytes, sizes: seq<nat>)
    returns (left: Option<seq<nat>>)
    requires OutcomeInv(p) && p.state == 3 && p.data == [] && |head| == 5 && !GrantingHead(head)
    ensures left.None? ==> StillComing(p, head, more, sizes, TargetReads(p, head + more, sizes))
    ensures left.Some? ==>
              var q := Finish(p.(waitIn := false));
              OutcomeInv(q) && q.closed && TargetReads(p, head + more, sizes) == TargetReads(q, more, left.value)
  {
    SaneWhileReading(p);
    hide TargetMessage, TargetReads, OutcomeInv;
    left := TargetMessageComes(p, head, more, sizes);
    assert p.data + head == head && p.(data := [], waitIn := false) == p.(waitIn := false);
    HeadDecides(p.(waitIn := false), head);
  }

  lemma {:induction false} SaneWhileReading(p: Peer)
    requires OutcomeInv(p)
    ensures TargetSane(p.(waitIn := false)) && (p.state == 3 ==> p.waitIn && p.ilen == 5)
  {
  }

  /** Both bytes of the method selection decide. */
  lemma {:induction false} MethodDecides(p: Peer, method': Bytes, more: Bytes, sizes: seq<nat>)
    returns (left: Option<seq<nat>>)
    requires OutcomeInv(p) && p.state == 1 && p.data == [] && |method'| == 2
    ensures left.None? ==> StillComing(p, method', more, sizes, TargetReads(p, method' + more, sizes))
    ensures left.Some? ==>
              if method' == METHOD
              then TargetReads(p, method' + more, sizes) == (p.(state := 2, waitIn := false, waitOut := true), more)
              else
                var q := Finish(p.(waitIn := false));
                OutcomeInv(q) && TargetReads(p, method' + more, sizes) == TargetReads(q, more, left.value)
  {
    hide TargetReads, OneOutcome;
    left := TargetMessageComes(p, method', more, sizes);
    assert p.data + method' == method' && p.(data := [], waitIn := false) == p.(waitIn := false);
    if left.Some? {
      var q := TargetMessage(p.(waitIn := false), method');
      if method' == METHOD {
        TargetReadsNothing(q, more, left.value);
      }
    }
  }

  /** What a dialling peer has written on its connection, by its state. */
  predicate TargetSpoke(p: Peer, address: Bytes) {
    && (p.state == 0 ==> p.out == [])
    && (p.state in {1, 2} ==> p.out == [5, 1, 0])
    && (p.state in {3, 4, 5} ==> p.out == [5, 1, 0] + ([5, 1, 0, 3, 40] + address + [0, 0]))
  }

  lemma {:induction false} TargetKeepsSpeech(x: Trace, address: Bytes, e: Event)
    requires OutcomeInv(x.p) && Allowed(x.p, e) && TargetSpoke(x.p, address)
    ensures TargetSpoke(TargetDo(x, address, e).p, address)
  {
    hide OneOutcome, Times;
    match e
    case In(available) => hide SendBlock;
    case Out(ok) =>
      if x.p.state == 10 {
        var q := SendBlock(x.p.(waitOut := false), ok);
        assert q.state in {8, 10};
      }
      hide SendBlock;
    case _ =>
  }

  lemma {:induction false} SpeechIsKept(x: Trace, address: Bytes, events: seq<Event>)
    requires OutcomeInv(x.p) && TargetSpoke(x.p, address) && TargetRun(x, address, events).Some?
    ensures TargetSpoke(TargetRun(x, address, events).value.p, address)
    decreases |events|
  {
    if events != [] {
      TargetKeepsOutcome(x, address, events[0]);
      TargetKeepsSpeech(x, address, events[0]);
      hide OutcomeInv, TargetDo, TargetSpoke, Allowed;
      SpeechIsKept(TargetDo(x, address, events[0]), address, events[1..]);
    }
  }

  /** Whatever the other side does, a dialling peer says its greeting and its request, in
      this order, once each on every connection, and nothing else up to its readiness. */
  lemma {:induction false} TargetSpeech(addresses: seq<string>, address: Bytes, events: seq<Event>)
    requires addresses != []
    ensures var p := Connect(Peer(0, 0, [], false, false, false, addresses, 0, [], [], [], [], []));
            && OutcomeInv(p)
            && (TargetRun(Trace(p, []), address, events).Some? ==>
                  TargetSpoke(TargetRun(Trace(p, []), address, events).value.p, address))
  {
    FreshTarget(addresses);
    var p := Connect(Peer(0, 0, [], false, false, false, addresses, 0, [], [], [], [], []));
    hide OutcomeInv;
    if TargetRun(Trace(p, []), address, events).Some? {
      SpeechIsKept(Trace(p, []), address, events);
    }
  }

  // ----- the listening peer ---------------------------------------------------------------

  /** The same for a listening peer. */
  function InitiatorReads(p: Peer, address: Bytes, queue: Bytes, sizes: seq<nat>): (r: (Peer, Bytes))
    requires InitiatorOutcome(p)
    decreases |sizes|
  {
    if sizes == [] || !p.waitIn then (p, queue)
    else
      var available := queue[..Least(sizes[0], |queue|)];
      var (q, k) := InitiatorIn(p, address, Some(available));
      InitiatorInKeepsOutcome(p, address, Some(available));
      if k <= |queue| then InitiatorReads(q, address, queue[k..], sizes[1..]) else (q, [])
  }

  lemma {:induction false} InitiatorReadsStep(p: Peer, address: Bytes, queue: Bytes, sizes: seq<nat>)
    requires InitiatorOutcome(p) && sizes != [] && p.waitIn
    ensures var (q, k) := InitiatorIn(p, address, Some(queue[..Least(sizes[0], |queue|)]));
            && InitiatorOutcome(q)
            && (k <= |queue| ==>
                  InitiatorReads(p, address, queue, sizes) == InitiatorReads(q, address, queue[k..], sizes[1..]))
  {
    InitiatorInKeepsOutcome(p, address, Some(queue[..Least(sizes[0], |queue|)]));
    hide InitiatorIn, InitiatorOutcome;
  }

  lemma {:induction false} InitiatorReadsNothing(p: Peer, address: Bytes, queue: Bytes, sizes: seq<nat>)
    requires InitiatorOutcome(p) && !p.waitIn
    ensures InitiatorReads(p, address, queue, sizes) == (p, queue)
  {
  }

  /** One callback of a message that comes in pieces. */
  lemma {:induction false} InitiatorPiece(p: Peer, address: Bytes, rest: Bytes, more: Bytes, n: nat)
    requires InitiatorOutcome(p) && p.state in {0, 1, 2, 3} && p.waitIn
    requires rest != [] && p.ilen == |p.data| + |rest| && n <= |rest + more|
    ensures !p.waitOut
    ensures var k := Least(n, |rest|);
            InitiatorIn(p, address, Some((rest + more)[..n]))
            == (if k < |rest| then p.(data := p.data + rest[..k])
                else InitiatorMessage(p.(data := [], waitIn := false), address, p.data + rest), k)
  {
    hide InitiatorMessage, OneOutcome;
    var k := Least(n, |rest|);
    assert (rest + more)[..n][..k] == rest[..k];
    if k == |rest| {
      assert rest[..k] == rest;
    }
  }

  lemma {:induction false} InitiatorMessageComes(p: Peer, address: Bytes, rest: Bytes, more: Bytes, sizes: seq<nat>)
    returns (left: Option<seq<nat>>)
    requires InitiatorOutcome(p) && p.state in {0, 1, 2, 3} && p.waitIn && rest != [] && p.ilen == |p.data| + |rest|
    ensures left.None? ==> StillComing(p, rest, more, sizes, InitiatorReads(p, address, rest + more, sizes))
    ensures left.Some? ==>
              var q := InitiatorMessage(p.(data := [], waitIn := false), address, p.data + rest);
              && InitiatorOutcome(q) && Later(left.value, sizes, |rest|)
              && InitiatorReads(p, address, rest + more, sizes) == InitiatorReads(q, address, more, left.value)
    decreases |sizes|
  {
    var queue := rest + more;
    hide InitiatorIn, InitiatorOutcome, InitiatorMessage;
    if sizes == [] {
      left := None;
    } else {
      var n := Least(sizes[0], |queue|);
      var k := Least(n, |rest|);
      InitiatorPiece(p, address, rest, more, n);
      InitiatorReadsStep(p, address, queue, sizes);
      hide InitiatorReads;
      assert AllPositive(sizes) ==> AllPositive(sizes[1..]);
      if k < |rest| {
        var q := p.(data := p.data + rest[..k]);
        assert queue[k..] == rest[k..] + more;
        assert q.data + rest[k..] == p.data + rest;
        left := InitiatorMessageComes(q, address, rest[k..], more, sizes[1..]);
        assert q.(data := [], waitIn := false) == p.(data := [], waitIn := false);
      } else {
        assert queue[k..] == more;
        left := Some(sizes[1..]);
      }
    }
  }

  /** A greeting: version, the number of methods and the methods. */
  predicate Greeting(g: Bytes) {
    |g| >= 2 && g[0] == 5 && |g| == 2 + g[1] as nat
  }

  /** Every greeting, with any number of methods and in any pieces, is read to its end and
      to the byte; it is accepted if and only if it offers method 0. */
  lemma {:induction false} GreetingIsRead(p: Peer, address: Bytes, g: Bytes, more: Bytes, sizes: seq<nat>)
    requires InitiatorOutcome(p) && p.state == 0 && p.data == [] && Greeting(g)
    ensures var (q, queue) := InitiatorReads(p, address, g + more, sizes);
            && q.calls == p.calls && q.out == p.out
            && (if q.waitOut then queue == more && q.state == (if 0 in g[2..] then 1 else 13)
                else q.waitIn && q.state in {0, 1})
            && (AllPositive(sizes) && |sizes| > |g| ==> q.waitOut)
  {
    var head, methods := g[..2], g[2..];
    hide InitiatorMessage, InitiatorReads, OneOutcome;
    assert g + more == head + (methods + more);
    var left := InitiatorMessageComes(p, address, head, methods + more, sizes);
    if left.Some? {
      var p1 := p.(data := [], state := 1, ilen := g[1]);
      HeadOfGreeting(p.(data := [], waitIn := false), address, p.data + head);
      assert p.data + head == head;
      assert InitiatorOutcome(p1);
      if methods == [] {
        assert methods + more == more;
        NoMethods(p1, address, more, left.value);
      } else {
        MethodsAreRead(p1, address, methods, more, left.value);
      }
    }
  }

  lemma {:induction false} HeadOfGreeting(p: Peer, address: Bytes, head: Bytes)
    requires InitiatorSane(p) && p.state == 0 && |head| == 2 && head[0] == 5
    ensures InitiatorMessage(p, address, head) == p.(state := 1, ilen := head[1], waitIn := true)
  {
  }

  lemma {:induction false} NoMethods(p: Peer, address: Bytes, more: Bytes, sizes: seq<nat>)
    requires InitiatorOutcome(p) && p.state == 1 && p.waitIn && p.ilen == 0
    ensures var (q, queue) := InitiatorReads(p, address, more, sizes);
            && queue == more && q.calls == p.calls && q.out == p.out
            && (if sizes == [] then q == p else q.waitOut && q.state == 13)
  {
    if sizes != [] {
      InitiatorReadsStep(p, address, more, sizes);
      assert more[0..] == more;
      InitiatorReadsNothing(p.(waitIn := false, state := 13, waitOut := true), address, more, sizes[1..]);
    }
  }

  lemma {:induction false} MethodsAreRead(p: Peer, address: Bytes, methods: Bytes, more: Bytes, sizes: seq<nat>)
    requires InitiatorOutcome(p) && p.state == 1 && p.waitIn && p.data == [] && p.ilen == |methods| > 0
    ensures var (q, queue) := InitiatorReads(p, address, methods + more, sizes);
            && q.calls == p.calls && q.out == p.out
            && (if q.waitOut then queue == more && q.state == (if 0 in methods then 1 else 13)
                else q.waitIn && q.state == 1)
            && (AllPositive(sizes) && |sizes| >= |methods| ==> q.waitOut)
  {
    hide InitiatorReads, OneOutcome;
    var left := InitiatorMessageComes(p, address, methods, more, sizes);
    if left.Some? {
      assert p.data + methods == methods;
      var q := InitiatorMessage(p.(data := [], waitIn := false), address, methods);
      InitiatorReadsNothing(q, address, more, left.value);
    }
  }

  /** The answers: the method, or the refusal after which the connection is closed. */
  lemma {:induction false} GreetingIsAnswered(p: Peer, address: Bytes)
    requires InitiatorOutcome(p) && p.waitOut && p.state in {1, 13}
    ensures var q := InitiatorOut(p, address, true);
            && q.calls == p.calls
            && (p.state == 1 ==> q.out == p.out + [5, 0] && q.state == 2 && q.waitIn && q.ilen == 5 && q.data == [])
            && (p.state == 13 ==> q.out == p.out + [5, 0xff] && q.closed && q.state == 6)
  {
  }

  /** A request for the peer's own address at port 0, in any pieces, is granted: the peer
      answers with the address and reports readiness. */
  lemma {:induction false} OwnRequestIsGranted(p: Peer, address: Bytes, request: Bytes, more: Bytes, sizes: seq<nat>)
    requires InitiatorOutcome(p) && p.state == 2 && p.data == [] && RequestsOwn(request, address)
    ensures var (q, queue) := InitiatorReads(p, address, request + more, sizes);
            && q.calls == p.calls && q.out == p.out
            && (if q.state == 4 then
                  && queue == more && q.waitOut
                  && var z := InitiatorOut(q, address, true);
                     && z.state == 5 && z.out == p.out + ([5, 0, 0, 3, 40] + address + [0, 0])
                     && z.calls == p.calls + [Ready]
                else q.state in {2, 3} && |queue| > |more|)
            && (AllPositive(sizes) && |sizes| >= |request| ==> q.state == 4)
  {
    var head, rest := request[..5], request[5..];
    hide InitiatorMessage, InitiatorReads, OneOutcome;
    assert request + more == head + (rest + more);
    var left := InitiatorMessageComes(p, address, head, rest + more, sizes);
    if left.Some? {
      assert p.data + head == head;
      HeadOfRequest(p.(data := [], waitIn := false), address, head);
      var p3 := p.(data := [], state := 3, ilen := 42);
      assert InitiatorOutcome(p3);
      var after := InitiatorMessageComes(p3, address, rest, more, left.value);
      if after.Some? {
        assert p3.data + rest == rest;
        RestOfRequest(p3.(waitIn := false), address, request);
        InitiatorReadsNothing(p3.(waitIn := false, state := 4, waitOut := true), address, more, after.value);
      }
    }
  }

  lemma {:induction false} HeadOfRequest(p: Peer, address: Bytes, head: Bytes)
    requires InitiatorSane(p) && p.state == 2 && |head| == 5 && ConnectHead(head)
    ensures InitiatorMessage(p, address, head) == p.(state := 3, ilen := 42, waitIn := true)
  {
  }

  lemma {:induction false} RestOfRequest(p: Peer, address: Bytes, request: Bytes)
    requires InitiatorSane(p) && p.state == 3 && RequestsOwn(request, address)
    ensures InitiatorMessage(p, address, request[5..]) == p.(state := 4, waitOut := true)
  {
    var rest := request[5..];
    assert rest[..40] == request[5..45] && rest[40] == request[45] && rest[41] == request[46];
  }

  /** What a listening peer has written on its connection, by its state. */
  predicate InitiatorSpoke(p: Peer, address: Bytes) {
    && (p.state in {0, 1, 13} ==> p.out == [])
    && (p.state in {2, 3, 4} ==> p.out == [5, 0])
    && (p.state == 5 ==> p.out == [5, 0] + ([5, 0, 0, 3, 40] + address + [0, 0]))
  }

  lemma {:induction false} InitiatorKeepsSpeech(x: Trace, address: Bytes, e: Event)
    requires InitiatorOutcome(x.p) && Allowed(x.p, e) && InitiatorSpoke(x.p, address)
    ensures InitiatorSpoke(InitiatorDo(x, address, e).p, address)
  {
    hide OneOutcome, Times;
    match e
    case In(available) => hide SendBlock;
    case Out(ok) =>
      if x.p.state == 10 {
        var q := SendBlock(x.p.(waitOut := false), ok);
        assert q.state in {8, 10};
      }
      hide SendBlock;
    case _ =>
  }

  /** From its first connection on, whatever the other side does, a listening peer says the
      method and then its own address, and nothing else up to its readiness. */
  lemma {:induction false} InitiatorSpeech(p: Peer, address: Bytes, events: seq<Event>)
    requires p.calls == [] && !p.waitIn && !p.waitOut
    ensures InitiatorOutcome(Accept(p))
    ensures InitiatorRun(Trace(Accept(p), []), address, events).Some? ==>
              InitiatorSpoke(InitiatorRun(Trace(Accept(p), []), address, events).value.p, address)
  {
    FreshInitiator(p, address);
    hide InitiatorOutcome;
    if InitiatorRun(Trace(Accept(p), []), address, events).Some? {
      InitiatorSpeechIsKept(Trace(Accept(p), []), address, events);
    }
  }

  lemma {:induction false} InitiatorSpeechIsKept(x: Trace, address: Bytes, events: seq<Event>)
    requires InitiatorOutcome(x.p) && InitiatorSpoke(x.p, address) && InitiatorRun(x, address, events).Some?
    ensures InitiatorSpoke(InitiatorRun(x, address, events).value.p, address)
    decreases |events|
  {
    if events != [] {
      InitiatorKeepsOutcome(x, address, events[0]);
      InitiatorKeepsSpeech(x, address, events[0]);
      hide InitiatorOutcome, InitiatorDo, InitiatorSpoke, Allowed;
      InitiatorSpeechIsKept(InitiatorDo(x, address, events[0]), address, events[1..]);
    }
  }
}
