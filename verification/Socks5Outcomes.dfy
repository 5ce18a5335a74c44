/**
 Each peer against an arbitrary other side, with aborts and transport failures: what it
 reports, how often, and what it must have read before it reports readiness.
 */
module Socks5Outcomes {

  import opened Options
  import opened Socks5Peers

  /** What may happen to a peer: a stream calls back, the service aborts it or, once it is
      ready, starts the transfer. */
  datatype Event =
    | In(available: Option<Bytes>)
    | Out(ok: bool)
    | GiveUp
    | StartSending(file: Bytes)
    | StartReceiving

  predicate Allowed(p: Peer, e: Event) {
    match e
    case In(_) => p.waitIn
    case Out(_) => p.waitOut
    case GiveUp => true
    case StartSending(_) => p.state == 5
    case StartReceiving => p.state == 5
  }

  /** A peer and the bytes it has taken off the current connection. */
  datatype Trace = Trace(p: Peer, taken: Bytes)

  function Taken(e: Event, k: nat): Bytes {
    if e.In? && e.available.Some? && k <= |e.available.value| then e.available.value[..k] else []
  }

  function Times(calls: seq<Call>, call: Call): nat { multiset(calls)[call] }

  lemma {:induction false} TimesOneMore(calls: seq<Call>, c: Call, call: Call)
    ensures Times(calls + [c], call) == Times(calls, call) + (if c == call then 1 else 0)
  {
    assert multiset(calls + [c]) == multiset(calls) + multiset{c};
  }

  // ----- the target ---------------------------------------------------------------------

  function TargetDo(x: Trace, address: Bytes, e: Event): Trace
    requires TargetSane(x.p)
  {
    var p := x.p;
    match e
    case In(available) =>
      var (q, k) := TargetIn(p, available);
      Trace(q, if |q.dialled| > |p.dialled| then [] else x.taken + Taken(e, k))
    case Out(ok) =>
      var q := TargetOut(p, address, ok);
      Trace(q, if |q.dialled| > |p.dialled| then [] else x.taken)
    case GiveUp => Trace(Abort(p), x.taken)
    case StartSending(file) => Trace(SendFile(p, file), x.taken)
    case StartReceiving => Trace(RecvFile(p), x.taken)
  }

  /** Not both, and each at most once. */
  predicate OneOutcome(calls: seq<Call>) {
    Times(calls, Ready) + Times(calls, Failure) <= 1 && Times(calls, Complete) <= 1
  }

  /** A transfer has been made ready. */
  predicate Served(state: nat) { state in {5, 8, 9, 10, 11} }

  predicate OutcomeInv(p: Peer) {
    && TargetSane(p) && p.state <= 12
    && p.currentAddr <= |p.addresses| && p.dialled == p.addresses[..p.currentAddr]
    && OneOutcome(p.calls)
    && (Served(p.state) ==> Times(p.calls, Ready) == 1)
    && (p.state in {0, 1, 2, 3, 4, 6} ==> Times(p.calls, Ready) + Times(p.calls, Failure) == 0)
    && (p.state == 7 ==> Times(p.calls, Ready) == 0)
    && (Times(p.calls, Failure) > 0 ==> p.currentAddr == |p.addresses| && p.state in {7, 12})
    && (p.state == 7 ==> !(p.waitIn && p.waitOut) && (Times(p.calls, Failure) > 0 ==> !p.waitIn && !p.waitOut))
    && (p.state == 9 ==> !(p.waitIn && p.waitOut) && (Times(p.calls, Complete) > 0 ==> !p.waitIn && !p.waitOut))
    && (p.state == 5 ==> !p.waitIn && !p.waitOut && p.ilen == 0)
    && (p.state in {1, 3, 4} ==> p.waitIn && !p.waitOut)
    && (p.state in {0, 2} ==> p.waitOut && !p.waitIn && p.data == [])
    && (p.state == 4 ==> p.ilen <= 257)
    && (p.state in {6, 8} ==> p.waitIn && p.waitOut)
    && (p.state == 7 && Times(p.calls, Failure) == 0 ==> p.waitIn || p.waitOut)
    && (p.state == 10 ==> !p.waitIn) && (p.state == 11 ==> !p.waitOut)
    && (p.state in {0, 6, 7, 8, 9, 12} ==> p.ilen == 0)
    && (p.state !in {9, 12} ==> Times(p.calls, Complete) == 0)
  }

  /** The length of a reply, from its first five bytes: version, status, a reserved byte,
      an address of the given type, and a port. */
  function ReplyLength(head: Bytes): nat
    requires |head| >= 5
  {
    4 + (if head[3] == 1 then 4 else if head[3] == 3 then 1 + head[4] as nat else 16) + 2
  }

  /** A whole reply that grants the request. */
  predicate Grants(reply: Bytes) {
    |reply| >= 5 && reply[0] == 5 && reply[1] == 0 && reply[3] in {1, 3, 4} && |reply| == ReplyLength(reply)
  }

  /** What a target has read, by its state. */
  predicate TargetHeard(x: Trace) {
    var p, taken := x.p, x.taken;
    && (p.state == 0 ==> taken == [] && p.data == [])
    && (p.state == 1 ==> taken == p.data)
    && (p.state == 2 ==> taken == METHOD && p.data == [])
    && (p.state == 3 ==> taken == METHOD + p.data)
    && (p.state == 4 ==> |taken| >= 7 && |taken| == 7 + |p.data| && taken[..2] == METHOD
                         && taken[2] == 5 && taken[3] == 0 && taken[5] in {1, 3, 4}
                         && p.ilen + 5 == ReplyLength(taken[2..7]))
  }

  lemma {:induction false} ConnectKeepsOutcome(p: Peer)
    requires OutcomeInv(p.(waitIn := true, waitOut := false)) || OutcomeInv(p.(waitIn := false, waitOut := true))
    requires p.state == 7 && !p.waitIn && !p.waitOut && Times(p.calls, Failure) == 0
    ensures OutcomeInv(Connect(p))
  {
    TimesOneMore(p.calls, Failure, Failure);
    TimesOneMore(p.calls, Failure, Ready);
    TimesOneMore(p.calls, Failure, Complete);
    if p.currentAddr < |p.addresses| {
      assert p.addresses[..p.currentAddr + 1] == p.addresses[..p.currentAddr] + [p.addresses[p.currentAddr]];
    }
  }

  /** The callback after which q is left; p still waited for it. */
  predicate Calls(p: Peer, q: Peer) {
    (p.waitIn && q == p.(waitIn := false)) || (p.waitOut && q == p.(waitOut := false))
  }

  lemma {:induction false} ClosingKeepsOutcome(p: Peer, q: Peer)
    requires OutcomeInv(p) && Calls(p, q) && p.state in {6, 7, 8, 9, 12}
    ensures OutcomeInv(Closing(q))
  {
    if p.state == 7 {
      assert q == p.(waitIn := false, waitOut := false);
      ConnectKeepsOutcome(q);
    } else if p.state == 9 {
      TimesOneMore(p.calls, Complete, Failure);
      TimesOneMore(p.calls, Complete, Ready);
      TimesOneMore(p.calls, Complete, Complete);
    }
  }

  /** Any step of a target keeps the invariant. */
  lemma {:induction false} TargetKeepsOutcome(x: Trace, address: Bytes, e: Event)
    requires OutcomeInv(x.p) && Allowed(x.p, e)
    ensures OutcomeInv(TargetDo(x, address, e).p)
  {
    var p := x.p;
    match e
    case In(available) => TargetInKeepsOutcome(p, available);
    case Out(ok) => TargetOutKeepsOutcome(p, address, ok);
    case _ =>
  }

  lemma {:induction false} TargetOutKeepsOutcome(p: Peer, address: Bytes, ok: bool)
    requires OutcomeInv(p) && p.waitOut
    ensures OutcomeInv(TargetOut(p, address, ok))
  {
    if p.state in {6, 7, 8, 9, 12} {
      ClosingKeepsOutcome(p, p.(waitOut := false));
    } else if p.state == 10 {
      ReportingProgress(p.calls, if |p.file| < CHUNK then |p.file| else CHUNK);
    }
  }

  lemma {:induction false} ReportingProgress(calls: seq<Call>, n: nat)
    ensures var more := calls + [Progress(n)];
            Times(more, Ready) == Times(calls, Ready) && Times(more, Failure) == Times(calls, Failure)
            && Times(more, Complete) == Times(calls, Complete)
  {
    TimesOneMore(calls, Progress(n), Ready);
    TimesOneMore(calls, Progress(n), Failure);
    TimesOneMore(calls, Progress(n), Complete);
  }

  lemma {:induction false} TargetReadingKeepsOutcome(p: Peer, available: Option<Bytes>)
    requires OutcomeInv(p) && p.waitIn && p.state < 10 && p.ilen > 0
    ensures OutcomeInv(TargetIn(p, available).0)
  {
    hide Closing;
    TimesOneMore(p.calls, Ready, Ready);
    TimesOneMore(p.calls, Ready, Failure);
    TimesOneMore(p.calls, Ready, Complete);
    hide Times;
  }

  lemma {:induction false} TargetInKeepsOutcome(p: Peer, available: Option<Bytes>)
    requires OutcomeInv(p) && p.waitIn
    ensures OutcomeInv(TargetIn(p, available).0)
  {
    var q := p.(waitIn := false);
    if p.state < 10 && p.ilen > 0 {
      TargetReadingKeepsOutcome(p, available);
    } else if p.state == 11 {
      if available.Some? {
        ReportingProgress(p.calls, |available.value|);
      }
    } else {
      ClosingKeepsOutcome(p, q);
    }
  }

  /** What the target has read stays in step with its state. */
  lemma {:induction false} TargetKeepsHeard(x: Trace, address: Bytes, e: Event)
    requires OutcomeInv(x.p) && Allowed(x.p, e) && TargetHeard(x)
    ensures TargetHeard(TargetDo(x, address, e))
    ensures var y := TargetDo(x, address, e);
            y.p.calls == x.p.calls + [Ready] ==> |y.taken| >= 2 && y.taken[..2] == METHOD && Grants(y.taken[2..])
  {
    var p := x.p;
    match e
    case In(available) =>
      if p.state in {1, 3, 4} && available.Some? {
        TargetHears(x, available.value);
      } else {
        QuietIn(x, address, available);
      }
    case Out(ok) =>
      QuietOut(x, address, ok);
    case _ =>
  }

  lemma {:induction false} QuietOut(x: Trace, address: Bytes, ok: bool)
    requires OutcomeInv(x.p) && x.p.waitOut && TargetHeard(x)
    ensures TargetHeard(TargetDo(x, address, Out(ok)))
    ensures TargetDo(x, address, Out(ok)).p.calls != x.p.calls + [Ready]
  {
    hide OneOutcome;
    var p := x.p;
    QuietClosing(p.(waitOut := false));
    QuietBlock(p.calls, if |p.file| < CHUNK then |p.file| else CHUNK);
    assert METHOD + [] == METHOD;
  }

  lemma {:induction false} QuietIn(x: Trace, address: Bytes, available: Option<Bytes>)
    requires OutcomeInv(x.p) && x.p.waitIn && TargetHeard(x) && (x.p.state !in {1, 3, 4} || available.None?)
    ensures TargetHeard(TargetDo(x, address, In(available)))
    ensures TargetDo(x, address, In(available)).p.calls != x.p.calls + [Ready]
  {
    hide OneOutcome;
    QuietClosing(x.p.(waitIn := false));
    if available.Some? {
      QuietBlock(x.p.calls, |available.value|);
    }
  }

  lemma {:induction false} QuietBlock(calls: seq<Call>, n: nat)
    ensures calls != calls + [Ready] && calls + [Progress(n)] != calls + [Ready]
  {
    assert (calls + [Progress(n)])[|calls|] == Progress(n);
    assert (calls + [Ready])[|calls|] == Ready;
  }

  /** The callbacks after a close never report readiness. */
  lemma {:induction false} QuietClosing(p: Peer)
    ensures Closing(p).calls != p.calls + [Ready]
    ensures Closing(p).state == 0 && p.state in {6, 7, 8, 9} ==>
              |Closing(p).dialled| > |p.dialled| && Closing(p).data == []
  {
    assert (p.calls + [Failure])[|p.calls|] == Failure;
    assert (p.calls + [Complete])[|p.calls|] == Complete;
  }

  lemma {:induction false} TargetHears(x: Trace, available: Bytes)
    requires TargetSane(x.p) && TargetHeard(x) && x.p.state in {1, 3, 4}
    ensures var y := TargetDo(x, [], In(Some(available)));
            && TargetHeard(y)
            && (y.p.calls == x.p.calls + [Ready] ==> |y.taken| >= 2 && y.taken[..2] == METHOD && Grants(y.taken[2..]))
  {
    var p := x.p.(waitIn := false);
    var (q, k, message) := Gather(p, available);
    var data, taken := p.data + available[..k], x.taken + available[..k];
    QuietBlock(p.calls, 0);
    assert p.state == 3 ==> taken == METHOD + data;
    if p.state == 4 {
      LongerReply(x.taken, available[..k]);
    }
    if message.Some? {
      assert TargetDo(x, [], In(Some(available))) == Trace(TargetMessage(q, data), taken);
      hide Gather;
      TargetHearsMessage(q, data, taken);
    } else {
      hide TargetMessage;
    }
  }

  lemma {:induction false} LongerReply(taken: Bytes, more: Bytes)
    requires |taken| >= 7
    ensures (taken + more)[..2] == taken[..2] && (taken + more)[2..7] == taken[2..7]
    ensures (taken + more)[2] == taken[2] && (taken + more)[3] == taken[3] && (taken + more)[5] == taken[5]
  {
  }

  lemma {:induction false} TargetHearsMessage(q: Peer, data: Bytes, taken: Bytes)
    requires TargetSane(q) && q.state in {1, 3, 4} && |data| == q.ilen && q.data == []
    requires q.state == 1 ==> taken == data
    requires q.state == 3 ==> taken == METHOD + data
    requires q.state == 4 ==>
               && |taken| == 7 + |data| && taken[..2] == METHOD
               && taken[2] == 5 && taken[3] == 0 && taken[5] in {1, 3, 4}
               && q.ilen + 5 == ReplyLength(taken[2..7])
    ensures var y := Trace(TargetMessage(q, data), taken);
            && TargetHeard(y)
            && (y.p.calls == q.calls + [Ready] ==> |y.taken| >= 2 && y.taken[..2] == METHOD && Grants(y.taken[2..]))
  {
    QuietBlock(q.calls, 0);
    if q.state == 1 {
      assert data[0] == 5 && data[1] == 0 ==> data == METHOD;
    } else if q.state == 3 {
      assert taken[..2] == METHOD && taken[2..7] == data;
    } else {
      var reply := taken[2..];
      assert reply[0] == taken[2] && reply[1] == taken[3] && reply[3] == taken[5];
      assert reply[..5] == taken[2..7];
      assert ReplyLength(reply) == ReplyLength(reply[..5]);
    }
  }

  // ----- runs of a target -------------------------------------------------------------------

  function TargetRun(x: Trace, address: Bytes, events: seq<Event>): Option<Trace>
    requires OutcomeInv(x.p)
    decreases |events|
  {
    if events == [] then Some(x)
    else if !Allowed(x.p, events[0]) then None
    else
      TargetKeepsOutcome(x, address, events[0]);
      TargetRun(TargetDo(x, address, events[0]), address, events[1..])
  }

  lemma {:induction false} FreshTarget(addresses: seq<string>)
    requires addresses != []
    ensures var p := Connect(Peer(0, 0, [], false, false, false, addresses, 0, [], [], [], [], []));
            OutcomeInv(p) && TargetHeard(Trace(p, [])) && p.addresses == addresses
  {
    assert addresses[..1] == [addresses[0]];
  }

  /** Against any other side: never both readiness and failure, each at most once; failure
      only when every address was dialled, in order. */
  lemma {:induction false} TargetOutcomes(x: Trace, address: Bytes, events: seq<Event>)
    requires OutcomeInv(x.p) && TargetRun(x, address, events).Some?
    ensures var p := TargetRun(x, address, events).value.p;
            && p.addresses == x.p.addresses
            && OneOutcome(p.calls)
            && p.dialled <= p.addresses
            && (Times(p.calls, Failure) > 0 ==> p.dialled == p.addresses)
    decreases |events|
  {
    if events != [] {
      TargetKeepsOutcome(x, address, events[0]);
      TargetRunStep(x, address, events);
      hide OutcomeInv, TargetDo, OneOutcome, Allowed;
      TargetOutcomes(TargetDo(x, address, events[0]), address, events[1..]);
    } else {
      assert x.p.dialled <= x.p.addresses;
    }
  }

  lemma {:induction false} TargetRunStep(x: Trace, address: Bytes, events: seq<Event>)
    requires OutcomeInv(x.p) && events != [] && Allowed(x.p, events[0])
    ensures TargetDo(x, address, events[0]).p.addresses == x.p.addresses
  {
  }

  /** Readiness is reported only once the reply was read completely, and nothing after it. */
  lemma {:induction false} ReadyMeansGranted(x: Trace, address: Bytes, events: seq<Event>, e: Event)
    requires OutcomeInv(x.p) && TargetHeard(x) && TargetRun(x, address, events).Some?
    requires var y := TargetRun(x, address, events).value;
             Allowed(y.p, e) && OutcomeInv(y.p)
    ensures var y := TargetRun(x, address, events).value;
            var z := TargetDo(y, address, e);
            z.p.calls == y.p.calls + [Ready] ==> |z.taken| >= 2 && z.taken[..2] == METHOD && Grants(z.taken[2..])
    decreases |events|
  {
    if events == [] {
      TargetKeepsHeard(x, address, e);
    } else {
      TargetKeepsOutcome(x, address, events[0]);
      TargetKeepsHeard(x, address, events[0]);
      hide OutcomeInv, TargetHeard, TargetDo, Allowed, Grants;
      ReadyMeansGranted(TargetDo(x, address, events[0]), address, events[1..], e);
    }
  }

  /** Nothing is reported after an abort. */
  lemma {:induction false} SilentAfterAbort(x: Trace, address: Bytes, events: seq<Event>)
    requires OutcomeInv(x.p) && x.p.state == 12 && TargetRun(x, address, events).Some?
    ensures TargetRun(x, address, events).value.p.calls == x.p.calls
    decreases |events|
  {
    if events != [] {
      TargetKeepsOutcome(x, address, events[0]);
      var y := TargetDo(x, address, events[0]);
      assert y.p.state == 12 && y.p.calls == x.p.calls;
      hide OutcomeInv, TargetDo, Allowed;
      SilentAfterAbort(y, address, events[1..]);
    }
  }

  /** What a target that is not ready yet may still go through. */
  function Bound(p: Peer): int {
    500 * (|p.addresses| - p.currentAddr) +
    (if p.state == 0 then 400
     else if p.state == 1 then 399 - |p.data|
     else if p.state == 2 then 390
     else if p.state == 3 then 389 - |p.data|
     else if p.state == 4 then 10 + p.ilen - |p.data|
     else if p.state == 6 then 2
     else if p.state == 7 && (p.waitIn || p.waitOut) then 1
     else 0)
  }

  predicate Negotiating(p: Peer) {
    p.state in {0, 1, 2, 3, 4, 6, 7}
  }

  /** Every callback of a target that still negotiates brings it closer to a decision, and
      without a decision there is a callback to come. */
  lemma {:induction false} TargetDecides(x: Trace, address: Bytes, e: Event)
    requires OutcomeInv(x.p) && Allowed(x.p, e) && Negotiating(x.p)
    requires Callback(e)
    ensures var q := TargetDo(x, address, e).p;
            q.state == 5 || (Negotiating(q) && 0 <= Bound(q) < Bound(x.p))
  {
    TargetKeepsOutcome(x, address, e);
    hide OneOutcome;
    if e.In? && e.available.Some? && x.p.state in {1, 3, 4} {
      hide TargetDo;
      MessageDecides(x, address, e.available.value);
    }
  }

  lemma {:induction false} MessageDecides(x: Trace, address: Bytes, available: Bytes)
    requires OutcomeInv(x.p) && x.p.state in {1, 3, 4} && available != []
    requires OutcomeInv(TargetDo(x, address, In(Some(available))).p)
    ensures var q := TargetDo(x, address, In(Some(available))).p;
            q.state == 5 || (Negotiating(q) && 0 <= Bound(q) < Bound(x.p))
  {
    hide OneOutcome, TargetHeard;
    var (q, k, m) := Gather(x.p.(waitIn := false), available);
    assert k >= 1;
  }

  lemma {:induction false} TargetNeverStuck(p: Peer)
    requires OutcomeInv(p) && Negotiating(p) && Times(p.calls, Failure) == 0
    ensures p.waitIn || p.waitOut
  {
  }

  /** A stream calls back, and an input callback that does not fail brings something. */
  predicate Callback(e: Event) {
    e.Out? || (e.In? && (e.available.Some? ==> e.available.value != []))
  }

  lemma {:induction false} BoundIsNatural(p: Peer)
    requires OutcomeInv(p) && Negotiating(p)
    ensures Bound(p) >= 0
  {
  }

  /** Until a target has decided there are at most as many callbacks as its bound, and a
      target without a callback to come has reported one outcome. */
  lemma {:induction false} TargetDecidesInTime(x: Trace, address: Bytes, events: seq<Event>)
    requires OutcomeInv(x.p) && Negotiating(x.p) && TargetRun(x, address, events).Some?
    requires forall e <- events :: Callback(e)
    ensures var p := TargetRun(x, address, events).value.p;
            && (p.state == 5 || Negotiating(p))
            && |events| <= Bound(x.p)
            && (!p.waitIn && !p.waitOut ==> Times(p.calls, Ready) + Times(p.calls, Failure) == 1)
    decreases |events|
  {
    BoundIsNatural(x.p);
    if events == [] {
      hide Bound;
      if !x.p.waitIn && !x.p.waitOut {
        WithoutCallback(x.p);
      }
    } else {
      var e, rest := events[0], events[1..];
      assert e in events;
      assert forall d <- rest :: d in events;
      TargetKeepsOutcome(x, address, e);
      TargetDecides(x, address, e);
      var y := TargetDo(x, address, e);
      hide TargetDo, Bound, Callback;
      if y.p.state == 5 {
        DecidedIsQuiet(y, address, rest);
      } else {
        hide OutcomeInv;
        TargetDecidesInTime(y, address, rest);
      }
    }
  }

  lemma {:induction false} WithoutCallback(p: Peer)
    requires OutcomeInv(p) && Negotiating(p) && !p.waitIn && !p.waitOut
    ensures Times(p.calls, Ready) + Times(p.calls, Failure) == 1
  {
  }

  lemma {:induction false} DecidedIsQuiet(x: Trace, address: Bytes, events: seq<Event>)
    requires OutcomeInv(x.p) && x.p.state == 5 && forall e <- events :: Callback(e)
    ensures TargetRun(x, address, events) == if events == [] then Some(x) else None
    ensures Times(x.p.calls, Ready) + Times(x.p.calls, Failure) == 1
  {
    if events != [] {
      assert events[0] in events;
    }
  }

  /** A fresh target with n addresses decides within 500 n callbacks. */
  lemma {:induction false} FreshTargetDecides(addresses: seq<string>, address: Bytes, events: seq<Event>)
    requires addresses != [] && forall e <- events :: Callback(e)
    requires var p := Connect(Peer(0, 0, [], false, false, false, addresses, 0, [], [], [], [], []));
             OutcomeInv(p) && TargetRun(Trace(p, []), address, events).Some?
    ensures var p := Connect(Peer(0, 0, [], false, false, false, addresses, 0, [], [], [], [], []));
            var q := TargetRun(Trace(p, []), address, events).value.p;
            && |events| < 500 * |addresses|
            && (!q.waitIn && !q.waitOut ==> Times(q.calls, Ready) + Times(q.calls, Failure) == 1)
  {
    var p := Connect(Peer(0, 0, [], false, false, false, addresses, 0, [], [], [], [], []));
    assert Bound(p) == 500 * (|addresses| - 1) + 400;
    TargetDecidesInTime(Trace(p, []), address, events);
  }

  // ----- the initiator ------------------------------------------------------------------------

  function InitiatorDo(x: Trace, address: Bytes, e: Event): Trace
    requires InitiatorSane(x.p)
  {
    var p := x.p;
    match e
    case In(available) =>
      var (q, k) := InitiatorIn(p, address, available);
      Trace(q, x.taken + Taken(e, k))
    case Out(ok) => Trace(InitiatorOut(p, address, ok), x.taken)
    case GiveUp => Trace(Abort(p), x.taken)
    case StartSending(file) => Trace(SendFile(p, file), x.taken)
    case StartReceiving => Trace(RecvFile(p), x.taken)
  }

  predicate InitiatorOutcome(p: Peer) {
    && InitiatorSane(p) && p.state <= 13
    && OneOutcome(p.calls)
    && (Served(p.state) ==> Times(p.calls, Ready) == 1)
    && (p.state in {0, 1, 2, 3, 4, 6, 13} ==> Times(p.calls, Ready) + Times(p.calls, Failure) == 0)
    && (p.state == 7 ==> Times(p.calls, Ready) == 0)
    && (Times(p.calls, Failure) > 0 ==> p.state in {7, 12})
    && (p.state == 7 ==> !(p.waitIn && p.waitOut) && (Times(p.calls, Failure) > 0 ==> !p.waitIn && !p.waitOut))
    && (p.state == 9 ==> !(p.waitIn && p.waitOut) && (Times(p.calls, Complete) > 0 ==> !p.waitIn && !p.waitOut))
    && (p.state == 5 ==> !p.waitIn && !p.waitOut)
    && (p.state in {0, 2, 3} ==> p.waitIn && !p.waitOut)
    && (p.state == 1 ==> p.waitIn != p.waitOut)
    && (p.state in {4, 13} ==> p.waitOut && !p.waitIn)
    && (p.state == 1 && p.waitOut ==> p.data == [])
    && (p.state == 4 ==> p.data == [])
    && (p.state == 10 ==> !p.waitIn) && (p.state == 11 ==> !p.waitOut)
    && (p.state in {6, 7, 8, 9, 12} ==> p.ilen == 0)
    && (p.state !in {9, 12} ==> Times(p.calls, Complete) == 0)
  }

  /** A greeting that offers method 0: version, number of methods, methods. */
  predicate Greeted(b: Bytes) {
    |b| >= 2 && b[0] == 5 && |b| >= 2 + b[1] as nat && 0 in b[2..2 + b[1] as nat]
  }

  /** What comes after the greeting. */
  function AfterGreeting(b: Bytes): Bytes
    requires Greeted(b)
  {
    b[2 + b[1] as nat..]
  }

  predicate ConnectHead(h: Bytes) {
    |h| >= 5 && h[0] == 5 && h[1] == 1 && h[3] == 3 && h[4] == 0x28
  }

  /** A request to connect to the given 40-byte name at port 0. */
  predicate RequestsOwn(h: Bytes, address: Bytes) {
    |h| == 47 && ConnectHead(h) && h[5..45] == address && h[45] == 0 && h[46] == 0
  }

  /** What an initiator has read, by its state. */
  predicate InitiatorHeard(x: Trace, address: Bytes) {
    var p, b := x.p, x.taken;
    && (p.state == 0 ==> b == p.data)
    && (p.state == 1 && p.waitIn ==> |b| >= 2 && b[0] == 5 && p.ilen == b[1] && b[2..] == p.data)
    && (p.state == 1 && p.waitOut ==> Greeted(b) && AfterGreeting(b) == [])
    && (p.state == 2 ==> Greeted(b) && AfterGreeting(b) == p.data)
    && (p.state == 3 ==> Greeted(b) && ConnectHead(AfterGreeting(b)) && AfterGreeting(b)[5..] == p.data)
    && (p.state == 4 ==> Greeted(b) && RequestsOwn(AfterGreeting(b), address))
  }

  lemma {:induction false} HangupKeepsOutcome(p: Peer, q: Peer)
    requires InitiatorOutcome(p) && Calls(p, q) && p.state in {6, 7, 8, 9, 12}
    ensures InitiatorOutcome(Hangup(q))
  {
    if p.state == 7 {
      TimesOneMore(p.calls, Failure, Failure);
      TimesOneMore(p.calls, Failure, Ready);
      TimesOneMore(p.calls, Failure, Complete);
    } else if p.state == 9 {
      TimesOneMore(p.calls, Complete, Failure);
      TimesOneMore(p.calls, Complete, Ready);
      TimesOneMore(p.calls, Complete, Complete);
    }
  }

  lemma {:induction false} InitiatorAnswerKeepsOutcome(p: Peer, address: Bytes, ok: bool)
    requires InitiatorOutcome(p) && p.waitOut && p.state in {1, 4, 13}
    ensures InitiatorOutcome(InitiatorOut(p, address, ok))
  {
    TimesOneMore(p.calls, Ready, Ready);
    TimesOneMore(p.calls, Ready, Failure);
    TimesOneMore(p.calls, Ready, Complete);
    hide Times;
  }

  lemma {:induction false} InitiatorBlockKeepsOutcome(p: Peer, address: Bytes, ok: bool)
    requires InitiatorOutcome(p) && p.waitOut && p.state == 10
    ensures InitiatorOutcome(InitiatorOut(p, address, ok))
  {
    ReportingProgress(p.calls, if |p.file| < CHUNK then |p.file| else CHUNK);
    hide Times;
  }

  lemma {:induction false} InitiatorOutKeepsOutcome(p: Peer, address: Bytes, ok: bool)
    requires InitiatorOutcome(p) && p.waitOut
    ensures InitiatorOutcome(InitiatorOut(p, address, ok))
  {
    if p.state in {6, 7, 8, 9, 12} {
      HangupKeepsOutcome(p, p.(waitOut := false));
      assert InitiatorOut(p, address, ok) == Hangup(p.(waitOut := false));
    } else {
      hide InitiatorOut;
      if p.state == 10 {
        InitiatorBlockKeepsOutcome(p, address, ok);
      } else {
        InitiatorAnswerKeepsOutcome(p, address, ok);
      }
    }
  }

  lemma {:induction false} InitiatorReadingKeepsOutcome(p: Peer, address: Bytes, available: Option<Bytes>)
    requires InitiatorOutcome(p) && p.waitIn && p.state in {0, 1, 2, 3}
    ensures InitiatorOutcome(InitiatorIn(p, address, available).0)
  {
    hide OneOutcome, Times;
  }

  lemma {:induction false} InitiatorInKeepsOutcome(p: Peer, address: Bytes, available: Option<Bytes>)
    requires InitiatorOutcome(p) && p.waitIn
    ensures InitiatorOutcome(InitiatorIn(p, address, available).0)
  {
    var q := p.(waitIn := false);
    if p.state in {6, 7, 8, 9, 12} {
      HangupKeepsOutcome(p, q);
    } else if p.state == 11 {
      if available.Some? {
        ReportingProgress(p.calls, |available.value|);
      }
    } else {
      InitiatorReadingKeepsOutcome(p, address, available);
    }
  }

  lemma {:induction false} InitiatorKeepsOutcome(x: Trace, address: Bytes, e: Event)
    requires InitiatorOutcome(x.p) && Allowed(x.p, e)
    ensures InitiatorOutcome(InitiatorDo(x, address, e).p)
  {
    var p := x.p;
    match e
    case In(available) => InitiatorInKeepsOutcome(p, address, available);
    case Out(ok) => InitiatorOutKeepsOutcome(p, address, ok);
    case _ =>
  }

  lemma {:induction false} MoreAfterGreeting(b: Bytes, more: Bytes)
    requires Greeted(b)
    ensures Greeted(b + more) && AfterGreeting(b + more) == AfterGreeting(b) + more
  {
    assert (b + more)[2..2 + b[1] as nat] == b[2..2 + b[1] as nat];
  }

  lemma {:induction false} InitiatorHears(x: Trace, address: Bytes, available: Bytes)
    requires InitiatorOutcome(x.p) && InitiatorHeard(x, address) && x.p.waitIn && x.p.state in {0, 1, 2, 3}
             && x.p.ilen > 0
    ensures InitiatorHeard(InitiatorDo(x, address, In(Some(available))), address)
  {
    hide OneOutcome;
    var p := x.p.(waitIn := false);
    var b := x.taken;
    var (q, k, message) := Gather(p, available);
    var data, more := p.data + available[..k], available[..k];
    assert Half(p, data, b + more) by {
      HalfGrows(p, b, more);
    }
    if message.Some? {
      assert InitiatorDo(x, address, In(Some(available))) == Trace(InitiatorMessage(q, address, data), b + more);
      assert Half(q, data, b + more);
      hide Gather, Half;
      InitiatorHearsMessage(q, address, data, b + more);
    } else {
      hide InitiatorMessage;
      assert InitiatorDo(x, address, In(Some(available))) == Trace(q, b + more);
      hide InitiatorDo, Gather;
    }
  }

  /** What has been read up to a message in the making, and the message so far. */
  predicate Half(p: Peer, data: Bytes, b: Bytes) {
    && (p.state == 0 ==> b == data)
    && (p.state == 1 ==> |b| >= 2 && b[0] == 5 && p.ilen == b[1] && b[2..] == data)
    && (p.state == 2 ==> Greeted(b) && AfterGreeting(b) == data)
    && (p.state == 3 ==> Greeted(b) && ConnectHead(AfterGreeting(b)) && AfterGreeting(b)[5..] == data)
  }

  lemma {:induction false} HalfGrows(p: Peer, b: Bytes, more: Bytes)
    requires p.state in {0, 1, 2, 3} && Half(p, p.data, b)
    ensures Half(p, p.data + more, b + more)
  {
    if p.state == 1 {
      assert (b + more)[2..] == p.data + more;
    } else if p.state >= 2 {
      MoreAfterGreeting(b, more);
      var rest := AfterGreeting(b);
      hide Greeted, AfterGreeting;
      assert p.state == 3 ==> (rest + more)[5..] == p.data + more;
    }
  }

  lemma {:induction false} InitiatorHearsMessage(q: Peer, address: Bytes, data: Bytes, b: Bytes)
    requires InitiatorSane(q) && q.state in {0, 1, 2, 3} && |data| == q.ilen && q.data == [] && !q.waitIn && !q.waitOut
    requires Half(q, data, b)
    ensures InitiatorHeard(Trace(InitiatorMessage(q, address, data), b), address)
  {
    if q.state == 0 {
      hide AfterGreeting, RequestsOwn, ConnectHead;
      assert b[2..] == [];
    } else if q.state == 1 {
      hide RequestsOwn, ConnectHead;
      assert |b[2..]| == |b| - 2 && |data| == b[1];
      assert b[2..2 + b[1] as nat] == b[2..] == data;
    } else if q.state == 3 {
      var h := AfterGreeting(b);
      assert h[5..45] == h[5..][..40] && h[45] == h[5..][40] && h[46] == h[5..][41];
    }
  }

  lemma {:induction false} InitiatorKeepsHeard(x: Trace, address: Bytes, e: Event)
    requires InitiatorOutcome(x.p) && Allowed(x.p, e) && InitiatorHeard(x, address)
    ensures InitiatorHeard(InitiatorDo(x, address, e), address)
    ensures var y := InitiatorDo(x, address, e);
            Times(y.p.calls, Ready) > Times(x.p.calls, Ready) ==>
              Greeted(y.taken) && RequestsOwn(AfterGreeting(y.taken), address)
  {
    var p := x.p;
    match e
    case In(available) =>
      if p.state in {0, 1, 2, 3} && available.Some? && p.ilen > 0 {
        InitiatorHears(x, address, available.value);
        NotReadyByReading(p, address, available);
      } else {
        NotReadyByReading(p, address, available);
        hide OneOutcome, Times;
        assert x.taken + [] == x.taken;
      }
    case Out(ok) =>
      InitiatorOutKeepsHeard(x, address, ok);
    case _ =>
  }

  lemma {:induction false} NotReadyByReading(p: Peer, address: Bytes, available: Option<Bytes>)
    requires InitiatorSane(p)
    ensures Times(InitiatorIn(p, address, available).0.calls, Ready) == Times(p.calls, Ready)
  {
    var calls := InitiatorIn(p, address, available).0.calls;
    var k := if available.Some? then |available.value| else 0;
    assert || calls == p.calls || calls == p.calls + [Failure] || calls == p.calls + [Complete]
           || calls == p.calls + [Progress(k)] by {
      hide Times;
    }
    hide InitiatorIn;
    TimesOneMore(p.calls, Failure, Ready);
    TimesOneMore(p.calls, Complete, Ready);
    TimesOneMore(p.calls, Progress(k), Ready);
  }

  lemma {:induction false} InitiatorOutKeepsHeard(x: Trace, address: Bytes, ok: bool)
    requires InitiatorOutcome(x.p) && x.p.waitOut && InitiatorHeard(x, address)
    ensures InitiatorHeard(InitiatorDo(x, address, Out(ok)), address)
    ensures var y := InitiatorDo(x, address, Out(ok));
            Times(y.p.calls, Ready) > Times(x.p.calls, Ready) ==>
              Greeted(y.taken) && RequestsOwn(AfterGreeting(y.taken), address)
  {
    hide OneOutcome;
    if x.p.state in {1, 4} {
      AnswerKeepsHeard(x, address, ok);
    } else {
      hide InitiatorHeard, InitiatorDo;
      QuietInitiatorOut(x, address, ok);
    }
  }

  lemma {:induction false} AnswerKeepsHeard(x: Trace, address: Bytes, ok: bool)
    requires InitiatorSane(x.p) && x.p.waitOut && !x.p.waitIn && x.p.state in {1, 4} && x.p.data == []
    requires InitiatorHeard(x, address)
    ensures InitiatorHeard(InitiatorDo(x, address, Out(ok)), address)
    ensures var y := InitiatorDo(x, address, Out(ok));
            Times(y.p.calls, Ready) > Times(x.p.calls, Ready) ==>
              Greeted(y.taken) && RequestsOwn(AfterGreeting(y.taken), address)
  {
    hide Times, RequestsOwn, ConnectHead;
  }

  lemma {:induction false} QuietInitiatorOut(x: Trace, address: Bytes, ok: bool)
    requires InitiatorSane(x.p) && x.p.state !in {0, 1, 2, 3, 4}
    ensures InitiatorHeard(InitiatorDo(x, address, Out(ok)), address)
    ensures Times(InitiatorDo(x, address, Out(ok)).p.calls, Ready) == Times(x.p.calls, Ready)
  {
    hide InitiatorHeard, Times;
    QuietAnswer(x.p, address, ok);
    hide InitiatorOut;
    NothingHeard(InitiatorDo(x, address, Out(ok)), address);
  }

  lemma {:induction false} QuietAnswer(p: Peer, address: Bytes, ok: bool)
    requires p.state !in {0, 1, 2, 3, 4}
    ensures var q := InitiatorOut(p, address, ok);
            Times(q.calls, Ready) == Times(p.calls, Ready) && q.state !in {0, 1, 2, 3, 4}
  {
    hide Times;
    var n := if |p.file| < CHUNK then |p.file| else CHUNK;
    TimesOneMore(p.calls, Failure, Ready);
    TimesOneMore(p.calls, Complete, Ready);
    TimesOneMore(p.calls, Progress(n), Ready);
  }

  lemma {:induction false} NothingHeard(x: Trace, address: Bytes)
    requires x.p.state !in {0, 1, 2, 3, 4}
    ensures InitiatorHeard(x, address)
  {
  }

  // ----- runs of an initiator -----------------------------------------------------------------

  function InitiatorRun(x: Trace, address: Bytes, events: seq<Event>): Option<Trace>
    requires InitiatorOutcome(x.p)
    decreases |events|
  {
    if events == [] then Some(x)
    else if !Allowed(x.p, events[0]) then None
    else
      InitiatorKeepsOutcome(x, address, events[0]);
      InitiatorRun(InitiatorDo(x, address, events[0]), address, events[1..])
  }

  /** An initiator reports readiness only when it has read a greeting that offers method 0
      and a request for exactly its own address with port 0; never readiness and failure;
      each at most once. */
  lemma {:induction false} ReadyMeansRequested(x: Trace, address: Bytes, events: seq<Event>, e: Event)
    requires InitiatorOutcome(x.p) && InitiatorHeard(x, address) && InitiatorRun(x, address, events).Some?
    requires var y := InitiatorRun(x, address, events).value;
             Allowed(y.p, e) && InitiatorOutcome(y.p)
    ensures var y := InitiatorRun(x, address, events).value;
            var z := InitiatorDo(y, address, e);
            && OneOutcome(z.p.calls)
            && (Times(z.p.calls, Ready) > Times(y.p.calls, Ready) ==>
                  Greeted(z.taken) && RequestsOwn(AfterGreeting(z.taken), address))
    decreases |events|
  {
    if events == [] {
      InitiatorKeepsOutcome(x, address, e);
      InitiatorKeepsHeard(x, address, e);
    } else {
      InitiatorKeepsOutcome(x, address, events[0]);
      InitiatorKeepsHeard(x, address, events[0]);
      hide InitiatorOutcome, InitiatorHeard, InitiatorDo, Allowed, RequestsOwn, Greeted;
      ReadyMeansRequested(InitiatorDo(x, address, events[0]), address, events[1..], e);
    }
  }

  /** A connection accepted by an initiator that has reported nothing. */
  lemma {:induction false} FreshInitiator(p: Peer, address: Bytes)
    requires p.calls == [] && !p.waitIn && !p.waitOut
    ensures InitiatorOutcome(Accept(p)) && InitiatorHeard(Trace(Accept(p), []), address)
  {
    assert forall c :: Times(p.calls, c) == 0;
    hide Times, Greeted, RequestsOwn, ConnectHead;
  }
}
