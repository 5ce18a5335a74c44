/**
 The service above the bytestreams: it joins the answer to an offer with the readiness of
 a stream on the sending side, and picks the first stream that gets through on the
 receiving side.
 */
module Socks5Service {

  import opened Options

  // ----- the sending side -----------------------------------------------------------------

  /** Our own identifier, and the proxies that can be dialled. */
  datatype Us = Us(own: string, proxies: set<string>)

  /** The token of an outgoing transfer: whether one of the two conditions of a direct
      transfer is met, the proxy in use, and what was done with the transfer. */
  datatype Sender = Sender(
    accepted: bool,
    proxy: Option<string>,
    starts: nat,
    rejections: nat,
    failures: nat,
    activations: nat,
    aborts: nat)

  const OFFERED: Sender := Sender(false, None, 0, 0, 0, 0, 0)

  function StartTransfer(t: Sender): Sender { t.(starts := t.starts + 1) }

  function Join(t: Sender): Sender {
    if t.accepted then StartTransfer(t) else t.(accepted := true)
  }

  /** The other side answers the offer with the host it used, or refuses. A host that is
      not known cannot be dialled: the step fails after the abort. */
  function Answered(t: Sender, used: Option<string>, us: Us): Sender {
    match used
    case None => t.(aborts := t.aborts + 1, rejections := t.rejections + 1)
    case Some(jid) =>
      if jid == us.own then Join(t)
      else t.(aborts := t.aborts + 1, proxy := if jid in us.proxies then Some(jid) else t.proxy)
  }

  /** A bytestream is ready, whichever it is. */
  function StreamReady(t: Sender): Sender {
    if t.proxy.Some? then t.(activations := t.activations + 1) else Join(t)
  }

  /** The proxy answers an activation. */
  function Activated(t: Sender, ok: bool): Sender {
    if ok then StartTransfer(t) else t.(aborts := t.aborts + 1, failures := t.failures + 1)
  }

  /** A bytestream has failed; an outgoing transfer has no list of streams. */
  function StreamLost(t: Sender): Sender { t.(failures := t.failures + 1) }

  class SenderToken {
    const own: string
    const proxies: set<string>
    var accepted: bool
    var proxy: Option<string>
    var starts: nat
    var rejections: nat
    var failures: nat
    var activations: nat
    var aborts: nat

    constructor (own: string, proxies: set<string>)
      ensures this.own == own && this.proxies == proxies && Value() == OFFERED
    {
      this.own, this.proxies := own, proxies;
      accepted, proxy, starts, rejections, failures, activations, aborts := false, None, 0, 0, 0, 0, 0;
    }

    ghost function Value(): (t: Sender)
      reads this
    {
      Sender(accepted, proxy, starts, rejections, failures, activations, aborts)
    }

    method SendFileStep(used: Option<string>)
      modifies this
      ensures Value() == Answered(old(Value()), used, Us(own, proxies))
    {
      if used.None? {
        aborts, rejections := aborts + 1, rejections + 1;
        return;
      }
      if used.value == own {
        if accepted {
          starts := starts + 1;
        } else {
          accepted := true;
        }
      } else {
        aborts := aborts + 1;
        if used.value !in proxies {
          return;
        }
        proxy := Some(used.value);
      }
    }

    method SendFileStep2(ok: bool)
      modifies this
      ensures Value() == Activated(old(Value()), ok)
    {
      if !ok {
        aborts, failures := aborts + 1, failures + 1;
        return;
      }
      starts := starts + 1;
    }

    method OnBytestreamFailure()
      modifies this
      ensures Value() == StreamLost(old(Value()))
    {
      failures := failures + 1;
    }

    method OnBytestreamReady()
      modifies this
      ensures Value() == StreamReady(old(Value()))
    {
      if proxy.Some? {
        activations := activations + 1;
        return;
      }
      if accepted {
        starts := starts + 1;
      } else {
        accepted := true;
      }
    }
  }

  /** What happens to an outgoing transfer: its direct stream accepts a connection, gets
      through or fails, the offer is answered, the stream to the proxy gets through or
      fails, an activation is answered. */
  datatype SendEvent =
    | Accepted
    | DirectReady
    | DirectLost
    | Answer(used: Option<string>)
    | ProxyReady
    | ProxyLost
    | Granted
    | Denied

  /** An outgoing transfer and what has happened so far. The connection is late if it was
      accepted after the answer. */
  datatype Sending = Sending(
    t: Sender,
    answer: Option<Option<string>>,
    connected: bool,
    late: bool,
    directReady: bool,
    directLost: bool,
    proxyReady: bool,
    proxyLost: bool,
    granted: nat,
    denied: nat)

  const START: Sending := Sending(OFFERED, None, false, false, false, false, false, false, 0, 0)

  /** The offer was answered with a proxy that can be dialled. */
  predicate Proxied(w: Sending, us: Us) {
    w.answer.Some? && w.answer.value.Some? && w.answer.value.value != us.own && w.answer.value.value in us.proxies
  }

  /** The offer was refused. */
  predicate Refused(w: Sending) { w.answer == Some(None) }

  /** The answer aborted the direct stream. */
  predicate Turned(w: Sending, us: Us) { w.answer.Some? && w.answer != Some(Some(us.own)) }

  /** The direct stream can still report: an abort silences it only if it found a
      connection, and a connection may be accepted after it. */
  predicate DirectOpen(w: Sending, us: Us) {
    w.connected && !w.directReady && !w.directLost && (Turned(w, us) ==> w.late)
  }

  /** The stream to the proxy can still report: the first answer to an activation either
      aborts it or sends the file on it. */
  predicate ProxyOpen(w: Sending, us: Us) {
    Proxied(w, us) && !w.proxyReady && !w.proxyLost && w.granted + w.denied == 0
  }

  /** One connection is accepted, at any time; an offer is answered once, and so is every
      activation. */
  predicate CanHappen(w: Sending, us: Us, e: SendEvent) {
    match e
    case Accepted => !w.connected
    case DirectReady => DirectOpen(w, us)
    case DirectLost => DirectOpen(w, us)
    case Answer(_) => w.answer.None?
    case ProxyReady => ProxyOpen(w, us)
    case ProxyLost => ProxyOpen(w, us)
    case Granted => w.granted + w.denied < w.t.activations
    case Denied => w.granted + w.denied < w.t.activations
  }

  function Happen(w: Sending, us: Us, e: SendEvent): Sending {
    match e
    case Accepted => w.(connected := true, late := w.answer.Some?)
    case DirectReady => w.(t := StreamReady(w.t), directReady := true)
    case DirectLost => w.(t := StreamLost(w.t), directLost := true)
    case Answer(used) => w.(t := Answered(w.t, used, us), answer := Some(used))
    case ProxyReady => w.(t := StreamReady(w.t), proxyReady := true)
    case ProxyLost => w.(t := StreamLost(w.t), proxyLost := true)
    case Granted => w.(t := Activated(w.t, true), granted := w.granted + 1)
    case Denied => w.(t := Activated(w.t, false), denied := w.denied + 1)
  }

  function HappenAll(w: Sending, us: Us, events: seq<SendEvent>): Option<Sending>
    decreases |events|
  {
    if events == [] then Some(w)
    else if !CanHappen(w, us, events[0]) then None
    else HappenAll(Happen(w, us, events[0]), us, events[1..])
  }

  function One(b: bool): nat { if b then 1 else 0 }

  predicate SendingInv(w: Sending, us: Us) {
    var direct := w.answer == Some(Some(us.own));
    && (w.t.proxy.Some? <==> Proxied(w, us))
    && (w.t.accepted <==> direct || (w.directReady && !(Proxied(w, us) && w.late)))
    && (w.directReady || w.directLost ==> w.connected) && !(w.directReady && w.directLost)
    && (w.late ==> w.connected && w.answer.Some?)
    && (w.proxyReady || w.proxyLost ==> Proxied(w, us)) && !(w.proxyReady && w.proxyLost)
    && w.t.activations == One(Proxied(w, us) && w.late && w.directReady) + One(w.proxyReady)
    && w.granted + w.denied <= w.t.activations
    && w.t.starts == One(direct && w.directReady) + w.granted
    && w.t.rejections == One(Refused(w))
    && w.t.failures == One(w.directLost) + One(w.proxyLost) + w.denied
    && w.t.aborts == One(Turned(w, us)) + w.denied
  }

  lemma {:induction false} HappenKeepsInv(w: Sending, us: Us, e: SendEvent)
    requires SendingInv(w, us) && CanHappen(w, us, e)
    ensures SendingInv(Happen(w, us, e), us)
  {
    if e.Answer? {
      AnswerKeepsInv(w, us, e.used);
    }
  }

  lemma {:induction false} AnswerKeepsInv(w: Sending, us: Us, used: Option<string>)
    requires SendingInv(w, us) && w.answer.None?
    ensures SendingInv(Happen(w, us, Answer(used)), us)
  {
  }

  lemma {:induction false} StartInv(us: Us)
    ensures SendingInv(START, us)
  {
  }

  function Count(events: seq<SendEvent>, e: SendEvent): nat {
    if events == [] then 0 else One(events[0] == e) + Count(events[1..], e)
  }

  /** The direct stream is lost before the offer is answered. */
  predicate LostBeforeAnswer(events: seq<SendEvent>) {
    events != [] && (events[0].DirectLost? || (!events[0].Answer? && LostBeforeAnswer(events[1..])))
  }

  /** A connection is accepted after the offer was answered. */
  predicate AcceptedLate(events: seq<SendEvent>) {
    events != [] && (if events[0].Answer? then Accepted in events[1..] else AcceptedLate(events[1..]))
  }

  lemma {:induction false} RunKeepsInv(w: Sending, us: Us, events: seq<SendEvent>)
    requires SendingInv(w, us) && HappenAll(w, us, events).Some?
    ensures SendingInv(HappenAll(w, us, events).value, us)
    decreases |events|
  {
    hide SendingInv;
    if events != [] {
      HappenKeepsInv(w, us, events[0]);
      RunKeepsInv(Happen(w, us, events[0]), us, events[1..]);
    }
  }

  lemma {:induction false} InFirstOrRest(events: seq<SendEvent>, x: SendEvent)
    requires events != []
    ensures x in events <==> x == events[0] || x in events[1..]
  {
    assert events == [events[0]] + events[1..];
  }

  /** What one event leaves in the flags. */
  lemma {:induction false} FlagsStep(w: Sending, us: Us, e: SendEvent)
    ensures var v := Happen(w, us, e);
            && v.answer == (if e.Answer? then Some(e.used) else w.answer)
            && v.connected == (w.connected || e == Accepted)
            && v.late == (if e == Accepted then w.answer.Some? else w.late)
  {
    hide Answered, StreamReady, StreamLost, Activated;
  }

  lemma {:induction false} ReportsStep(w: Sending, us: Us, e: SendEvent)
    ensures var v := Happen(w, us, e);
            && v.directReady == (w.directReady || e == DirectReady)
            && v.directLost == (w.directLost || e == DirectLost)
            && v.proxyReady == (w.proxyReady || e == ProxyReady)
            && v.proxyLost == (w.proxyLost || e == ProxyLost)
  {
    hide Answered, StreamReady, StreamLost, Activated;
    match e
    case DirectReady =>
    case DirectLost =>
    case ProxyReady =>
    case ProxyLost =>
    case _ =>
  }

  lemma {:induction false} ActivationsStep(w: Sending, us: Us, e: SendEvent)
    ensures var v := Happen(w, us, e);
            && v.granted == w.granted + One(e == Granted)
            && v.denied == w.denied + One(e == Denied)
  {
    hide Answered, StreamReady, StreamLost, Activated;
    match e
    case Granted =>
    case Denied =>
    case _ =>
  }

  /** What the flags remember of the streams' reports. */
  lemma {:induction false} ReportsRemembered(w: Sending, us: Us, events: seq<SendEvent>)
    requires HappenAll(w, us, events).Some?
    ensures var z := HappenAll(w, us, events).value;
            && (z.directReady <==> w.directReady || DirectReady in events)
            && (z.directLost <==> w.directLost || DirectLost in events)
            && (z.proxyReady <==> w.proxyReady || ProxyReady in events)
            && (z.proxyLost <==> w.proxyLost || ProxyLost in events)
    decreases |events|
  {
    hide Answered, StreamReady, StreamLost, Activated, CanHappen;
    if events != [] {
      InFirstOrRest(events, DirectReady);
      InFirstOrRest(events, DirectLost);
      InFirstOrRest(events, ProxyReady);
      InFirstOrRest(events, ProxyLost);
      ReportsStep(w, us, events[0]);
      hide Happen;
      ReportsRemembered(Happen(w, us, events[0]), us, events[1..]);
    }
  }

  /** What the counters remember of the answers to activations. */
  lemma {:induction false} ActivationsCounted(w: Sending, us: Us, events: seq<SendEvent>)
    requires HappenAll(w, us, events).Some?
    ensures var z := HappenAll(w, us, events).value;
            && z.granted == w.granted + Count(events, Granted)
            && z.denied == w.denied + Count(events, Denied)
    decreases |events|
  {
    hide Answered, StreamReady, StreamLost, Activated, CanHappen;
    if events != [] {
      ActivationsStep(w, us, events[0]);
      hide Happen;
      ActivationsCounted(Happen(w, us, events[0]), us, events[1..]);
    }
  }

  /** The answer is the one that was given. */
  lemma {:induction false} AnswerRemembered(w: Sending, us: Us, events: seq<SendEvent>, x: Option<string>)
    requires HappenAll(w, us, events).Some?
    ensures var z := HappenAll(w, us, events).value;
            z.answer == Some(x) <==> w.answer == Some(x) || Answer(x) in events
    ensures w.answer.Some? ==> HappenAll(w, us, events).value.answer == w.answer
    decreases |events|
  {
    hide Happen, DirectOpen, ProxyOpen;
    if events != [] {
      InFirstOrRest(events, Answer(x));
      FlagsStep(w, us, events[0]);
      AnswerRemembered(Happen(w, us, events[0]), us, events[1..], x);
    }
  }

  /** Whether the connection was accepted before or after the answer. */
  lemma {:induction false} LateRemembered(w: Sending, us: Us, events: seq<SendEvent>)
    requires HappenAll(w, us, events).Some? && (w.late ==> w.connected)
    ensures HappenAll(w, us, events).value.late
            <==> w.late || if w.answer.Some? then Accepted in events else AcceptedLate(events)
    decreases |events|
  {
    hide Happen, DirectOpen, ProxyOpen;
    if events != [] {
      InFirstOrRest(events, Accepted);
      FlagsStep(w, us, events[0]);
      LateRemembered(Happen(w, us, events[0]), us, events[1..]);
      if events[0] == Accepted {
        AcceptedOnce(Happen(w, us, Accepted), us, events[1..]);
      }
    }
  }

  lemma {:induction false} AcceptedOnce(w: Sending, us: Us, events: seq<SendEvent>)
    requires HappenAll(w, us, events).Some? && w.connected
    ensures Accepted !in events && !AcceptedLate(events)
    decreases |events|
  {
    hide Happen, DirectOpen, ProxyOpen;
    if events != [] {
      InFirstOrRest(events, Accepted);
      FlagsStep(w, us, events[0]);
      AcceptedOnce(Happen(w, us, events[0]), us, events[1..]);
    }
  }

  /** On a stream that the answer aborts, a loss without a late connection is one before
      the answer. */
  lemma {:induction false} LossRemembered(w: Sending, us: Us, events: seq<SendEvent>)
    requires SendingInv(w, us) && HappenAll(w, us, events).Some? && Turned(HappenAll(w, us, events).value, us)
    ensures var z := HappenAll(w, us, events).value;
            z.directLost && !z.late
            <==> (w.directLost && !w.late) || (w.answer.None? && LostBeforeAnswer(events))
    decreases |events|
  {
    hide Answered, StreamReady, StreamLost, Activated, SendingInv;
    if events != [] {
      HappenKeepsInv(w, us, events[0]);
      LossStep(w, us, events);
      LossRemembered(Happen(w, us, events[0]), us, events[1..]);
    }
  }

  lemma {:induction false} LossStep(w: Sending, us: Us, events: seq<SendEvent>)
    requires events != [] && SendingInv(w, us) && HappenAll(w, us, events).Some?
    requires Turned(HappenAll(w, us, events).value, us)
    ensures var v := Happen(w, us, events[0]);
            (v.directLost && !v.late) || (v.answer.None? && LostBeforeAnswer(events[1..]))
            <==> (w.directLost && !w.late) || (w.answer.None? && LostBeforeAnswer(events))
  {
    hide Answered, StreamReady, StreamLost, Activated, HappenAll;
    var e := events[0];
    assert HappenAll(w, us, events) == HappenAll(Happen(w, us, e), us, events[1..]) && CanHappen(w, us, e) by {
      Unfold(w, us, events);
    }
    if w.answer.Some? {
      AnswerRemembered(w, us, events, w.answer.value);
    }
  }

  lemma {:induction false} Unfold(w: Sending, us: Us, events: seq<SendEvent>)
    requires events != [] && HappenAll(w, us, events).Some?
    ensures CanHappen(w, us, events[0])
    ensures HappenAll(w, us, events) == HappenAll(Happen(w, us, events[0]), us, events[1..])
  {
  }

  /** What the end of a run remembers of all its events. */
  lemma {:induction false} FlagsRemember(us: Us, events: seq<SendEvent>)
    requires HappenAll(START, us, events).Some?
    ensures var z := HappenAll(START, us, events).value;
            && SendingInv(z, us)
            && (z.answer == Some(None) <==> Answer(None) in events)
            && (z.answer == Some(Some(us.own)) <==> Answer(Some(us.own)) in events)
            && (z.directReady <==> DirectReady in events)
            && (z.directLost <==> DirectLost in events)
            && (z.proxyReady <==> ProxyReady in events)
            && (z.proxyLost <==> ProxyLost in events)
            && z.granted == Count(events, Granted)
            && z.denied == Count(events, Denied)
            && (z.late <==> AcceptedLate(events))
            && (Turned(z, us) ==> (z.directLost && !z.late <==> LostBeforeAnswer(events)))
  {
    StartInv(us);
    RunKeepsInv(START, us, events);
    ReportsRemembered(START, us, events);
    ActivationsCounted(START, us, events);
    AnswerRemembered(START, us, events, None);
    AnswerRemembered(START, us, events, Some(us.own));
    LateRemembered(START, us, events);
    hide SendingInv;
    if Turned(HappenAll(START, us, events).value, us) {
      LossRemembered(START, us, events) by {
        StartInv(us);
      }
    }
  }

  /** What an outgoing transfer has done, in terms of what happened: every loss of a stream
      and every failed activation is reported, and the transfer starts when the offer was
      taken up directly and the stream is ready, in either order, and with every activation
      that is granted. */
  lemma {:induction false} SenderAccount(us: Us, events: seq<SendEvent>)
    requires HappenAll(START, us, events).Some?
    ensures var t := HappenAll(START, us, events).value.t;
            && t.starts == One(Answer(Some(us.own)) in events && DirectReady in events)
                           + Count(events, Granted)
            && t.rejections == One(Answer(None) in events)
            && t.failures == One(DirectLost in events) + One(ProxyLost in events) + Count(events, Denied)
            && t.starts + t.rejections <= 2 && (t.rejections > 0 ==> t.starts == 0)
  {
    FlagsRemember(us, events);
  }

  /** The transfer starts at most twice, and twice if and only if the direct connection was
      accepted after the answer had aborted its stream and two activations are granted: the
      late stream asks for the first one as if it were the proxy's. */
  lemma {:induction false} StartsTwiceIff(us: Us, events: seq<SendEvent>)
    requires HappenAll(START, us, events).Some?
    ensures var t := HappenAll(START, us, events).value.t;
            && t.starts <= 2
            && (t.starts == 2 <==> AcceptedLate(events) && Count(events, Granted) == 2)
            && (t.starts == 2 ==> DirectReady in events && ProxyReady in events && t.failures == 0)
  {
    FlagsRemember(us, events);
  }

  /** Without a late connection a transfer starts at most once, exactly when it was taken up
      directly and ready or when its one activation was granted, and asks for at most one. */
  lemma {:induction false} StartsOnce(us: Us, events: seq<SendEvent>)
    requires HappenAll(START, us, events).Some? && !AcceptedLate(events)
    ensures var t := HappenAll(START, us, events).value.t;
            && t.starts <= 1 && t.activations <= 1
            && (t.starts == 1 <==>
                  (Answer(Some(us.own)) in events && DirectReady in events) || Granted in events)
  {
    FlagsRemember(us, events);
    CountIn(events, Granted);
  }

  lemma {:induction false} CountIn(events: seq<SendEvent>, e: SendEvent)
    ensures Count(events, e) > 0 <==> e in events
  {
    if events != [] {
      CountIn(events[1..], e);
    }
  }

  /** A failure is reported along with a start, or along with a rejection, exactly when the
      direct stream was lost before the answer, or its connection was accepted after the
      answer and something then failed: that stream, or, along with a start, the stream to
      the proxy or one of two activations. */
  lemma {:induction false} FailureCoincidesIff(us: Us, events: seq<SendEvent>)
    requires HappenAll(START, us, events).Some?
    ensures var t := HappenAll(START, us, events).value.t;
            && (t.starts > 0 && t.failures > 0 <==>
                  && Granted in events
                  && (|| LostBeforeAnswer(events)
                      || (AcceptedLate(events)
                          && (DirectLost in events || ProxyLost in events || Denied in events))))
            && (t.rejections > 0 && t.failures > 0 <==>
                  && Answer(None) in events
                  && (LostBeforeAnswer(events) || (AcceptedLate(events) && DirectLost in events)))
  {
    FlagsRemember(us, events);
    CountIn(events, Granted);
    CountIn(events, Denied);
  }

  /** One event more in a run. */
  lemma {:induction false} Extend(w: Sending, us: Us, events: seq<SendEvent>, e: SendEvent)
    returns (more: seq<SendEvent>)
    requires HappenAll(w, us, events).Some? && CanHappen(HappenAll(w, us, events).value, us, e)
    ensures more == events + [e] && HappenAll(w, us, more) == Some(Happen(HappenAll(w, us, events).value, us, e))
    decreases |events|
  {
    hide CanHappen, Happen;
    more := events + [e];
    if events == [] {
      assert HappenAll(Happen(w, us, e), us, more[1..]) == Some(Happen(w, us, e));
    } else {
      var rest := Extend(Happen(w, us, events[0]), us, events[1..], e);
      assert more[1..] == rest;
    }
  }

  /** The direct stream fails before the answer, or after it on a connection accepted late,
      and the transfer starts through the proxy. */
  lemma {:induction false} FailureThenStart(us: Us, proxy: string)
    requires proxy != us.own && proxy in us.proxies
    ensures var a := HappenAll(START, us, [Accepted, DirectLost, Answer(Some(proxy)), ProxyReady, Granted]);
            a.Some? && a.value.t.starts == 1 && a.value.t.failures == 1
    ensures var b := HappenAll(START, us, [Answer(Some(proxy)), Accepted, DirectLost, ProxyReady, Granted]);
            b.Some? && b.value.t.starts == 1 && b.value.t.failures == 1
  {
    var a := Extend(START, us, [], Accepted);
    a := Extend(START, us, a, DirectLost);
    a := Extend(START, us, a, Answer(Some(proxy)));
    a := Extend(START, us, a, ProxyReady);
    a := Extend(START, us, a, Granted);
    assert a == [Accepted, DirectLost, Answer(Some(proxy)), ProxyReady, Granted];
    var b := Extend(START, us, [], Answer(Some(proxy)));
    b := Extend(START, us, b, Accepted);
    b := Extend(START, us, b, DirectLost);
    b := Extend(START, us, b, ProxyReady);
    b := Extend(START, us, b, Granted);
    assert b == [Answer(Some(proxy)), Accepted, DirectLost, ProxyReady, Granted];
  }

  /** The same two losses along with a refusal. */
  lemma {:induction false} FailureAndRejection(us: Us)
    ensures var a := HappenAll(START, us, [Accepted, DirectLost, Answer(None)]);
            a.Some? && a.value.t.rejections == 1 && a.value.t.failures == 1
    ensures var b := HappenAll(START, us, [Answer(None), Accepted, DirectLost]);
            b.Some? && b.value.t.rejections == 1 && b.value.t.failures == 1
  {
    var a := Extend(START, us, [], Accepted);
    a := Extend(START, us, a, DirectLost);
    a := Extend(START, us, a, Answer(None));
    assert a == [Accepted, DirectLost, Answer(None)];
    var b := Extend(START, us, [], Answer(None));
    b := Extend(START, us, b, Accepted);
    b := Extend(START, us, b, DirectLost);
    assert b == [Answer(None), Accepted, DirectLost];
  }

  /** A late stream gets through: two activations are asked for, and both are granted; or
      the stream to the proxy is lost and the late stream's activation starts the transfer
      all the same. */
  lemma {:induction false} LateStreamStarts(us: Us, proxy: string)
    requires proxy != us.own && proxy in us.proxies
    ensures var a := HappenAll(START, us, [Answer(Some(proxy)), Accepted, DirectReady, ProxyReady,
                                           Granted, Granted]);
            a.Some? && a.value.t.starts == 2 && a.value.t.activations == 2
    ensures var b := HappenAll(START, us, [Answer(Some(proxy)), Accepted, DirectReady, ProxyLost, Granted]);
            b.Some? && b.value.t.starts == 1 && b.value.t.failures == 1
  {
    var late := Extend(START, us, [], Answer(Some(proxy)));
    late := Extend(START, us, late, Accepted);
    late := Extend(START, us, late, DirectReady);
    var a := Extend(START, us, late, ProxyReady);
    a := Extend(START, us, a, Granted);
    a := Extend(START, us, a, Granted);
    assert a == [Answer(Some(proxy)), Accepted, DirectReady, ProxyReady, Granted, Granted];
    var b := Extend(START, us, late, ProxyLost);
    b := Extend(START, us, b, Granted);
    assert b == [Answer(Some(proxy)), Accepted, DirectReady, ProxyLost, Granted];
  }

  /** The direct case spelled out: one answer, one readiness, either first. */
  lemma {:induction false} EitherOrder(us: Us)
    ensures var a := HappenAll(START, us, [Accepted, Answer(Some(us.own)), DirectReady]);
            var b := HappenAll(START, us, [Accepted, DirectReady, Answer(Some(us.own))]);
            a.Some? && b.Some? && a.value == b.value && a.value.t.starts == 1
  {
    var first := Extend(START, us, [], Accepted);
    var a := Extend(START, us, first, Answer(Some(us.own)));
    a := Extend(START, us, a, DirectReady);
    assert a == [Accepted, Answer(Some(us.own)), DirectReady];
    var b := Extend(START, us, first, DirectReady);
    b := Extend(START, us, b, Answer(Some(us.own)));
    assert b == [Accepted, DirectReady, Answer(Some(us.own))];
  }

  // ----- the receiving side ------------------------------------------------------------------

  /** The token of an incoming transfer: the number of its streams until one is chosen, the
      connections still pending, the streams aborted, the answers sent, each naming the
      stream used, and what was done with the transfer. */
  datatype Receiver = Receiver(
    streams: Option<nat>,
    pending: int,
    aborted: set<nat>,
    answers: seq<nat>,
    starts: nat,
    failures: nat)

  /** The numbers below n. */
  function Below(n: nat): (r: set<nat>)
    ensures |r| == n && forall i: nat :: i in r <==> i < n
  {
    if n == 0 then {} else Below(n - 1) + {n - 1}
  }

  lemma {:induction false} OthersBelow(a: set<nat>, i: nat, j: nat)
    ensures a + (Below(0) - {i}) == a
    ensures a + (Below(j + 1) - {i}) == a + (Below(j) - {i}) + if j != i then {j} else {}
  {
  }

  /** Stream i got through: the others are aborted, the offer is answered with it, and the
      transfer starts. */
  function Chosen(t: Receiver, i: nat): Receiver {
    t.(streams := None,
       aborted := t.aborted + if t.streams.Some? then Below(t.streams.value) - {i} else {},
       answers := t.answers + [i],
       starts := t.starts + 1)
  }

  function StreamFailed(t: Receiver): Receiver {
    if t.streams.None? then t.(failures := t.failures + 1)
    else if t.pending - 1 <= 0 then t.(pending := t.pending - 1, failures := t.failures + 1)
    else t.(pending := t.pending - 1)
  }

  class ReceiverToken {
    var streams: Option<nat>
    var pending: int
    var aborted: set<nat>
    var answers: seq<nat>
    var starts: nat
    var failures: nat

    /** An offer with n hosts: one stream to each. */
    constructor (n: nat)
      ensures Value() == Receiver(Some(n), n, {}, [], 0, 0)
    {
      streams, pending, aborted, answers, starts, failures := Some(n), n, {}, [], 0, 0;
    }

    ghost function Value(): (t: Receiver)
      reads this
    {
      Receiver(streams, pending, aborted, answers, starts, failures)
    }

    method OnBytestreamReady(i: nat)
      requires streams.Some?
      modifies this
      ensures Value() == Chosen(old(Value()), i)
    {
      AbortOthers(i, streams.value);
      streams := None;
      answers := answers + [i];
      starts := starts + 1;
    }

    method AbortOthers(i: nat, n: nat)
      modifies this`aborted
      ensures aborted == old(aborted) + (Below(n) - {i})
    {
      hide Below;
      var j := 0;
      OthersBelow(old(aborted), i, 0);
      while j < n
        invariant 0 <= j <= n
        invariant aborted == old(aborted) + (Below(j) - {i})
      {
        OthersBelow(old(aborted), i, j);
        if j != i {
          aborted := aborted + {j};
        }
        j := j + 1;
      }
    }

    method OnBytestreamFailure()
      modifies this
      ensures Value() == StreamFailed(old(Value()))
    {
      if streams.Some? {
        pending := pending - 1;
      }
      if streams.None? || pending <= 0 {
        failures := failures + 1;
      }
    }
  }

  datatype ReceiveEvent = Through(i: nat) | Lost(i: nat)

  /** An incoming transfer with n streams: those that have reported nothing yet and were
      not aborted, and those that failed. */
  datatype Receiving = Receiving(n: nat, t: Receiver, live: set<nat>, lost: set<nat>)

  function Offered(n: nat): Receiving {
    Receiving(n, Receiver(Some(n), n, {}, [], 0, 0), Below(n), {})
  }

  /** Every stream reports one outcome, and nothing once it is aborted. */
  predicate CanReport(w: Receiving, e: ReceiveEvent) {
    e.i in w.live
  }

  /** A stream that gets through has all the others aborted. */
  function Reported(w: Receiving, e: ReceiveEvent): Receiving {
    match e
    case Through(i) =>
      var t := Chosen(w.t, i);
      w.(t := t, live := w.live - {i} - t.aborted)
    case Lost(i) => w.(t := StreamFailed(w.t), live := w.live - {i}, lost := w.lost + {i})
  }

  function ReportedAll(w: Receiving, events: seq<ReceiveEvent>): Option<Receiving>
    decreases |events|
  {
    if events == [] then Some(w)
    else if !CanReport(w, events[0]) then None
    else ReportedAll(Reported(w, events[0]), events[1..])
  }

  predicate ReceivingInv(w: Receiving) {
    var all := Below(w.n);
    && w.live + w.lost <= all && w.live !! w.lost
    && (w.t.streams.Some? ==>
          && w.t.streams.value == w.n && w.live + w.lost == all && w.t.pending == |w.live|
          && w.t.starts == 0 && w.t.answers == [] && w.t.aborted == {})
    && (w.t.streams.None? ==>
          && w.live == {} && w.t.starts == 1 && w.t.failures == 0 && |w.t.answers| == 1
          && w.t.answers[0] in all && w.t.answers[0] !in w.lost && w.t.aborted == all - {w.t.answers[0]})
    && w.t.failures == (if w.lost == all && w.n > 0 then 1 else 0)
  }

  lemma {:induction false} ReportKeepsInv(w: Receiving, e: ReceiveEvent)
    requires ReceivingInv(w) && CanReport(w, e)
    ensures ReceivingInv(Reported(w, e))
  {
    match e
    case Through(i) => ThroughKeepsInv(w, i);
    case Lost(i) => LostKeepsInv(w, i);
  }

  lemma {:induction false} ThroughKeepsInv(w: Receiving, i: nat)
    requires ReceivingInv(w) && i in w.live
    ensures ReceivingInv(Reported(w, Through(i)))
  {
    hide Below;
    var z := Reported(w, Through(i));
    assert z.t.answers[0] == i && i !in w.lost;
    assert z.live == {};
  }

  lemma {:induction false} LostKeepsInv(w: Receiving, i: nat)
    requires ReceivingInv(w) && i in w.live
    ensures ReceivingInv(Reported(w, Lost(i)))
  {
    hide Below;
    var all := Below(w.n);
    var z := Reported(w, Lost(i));
    assert z.live + z.lost == all;
    assert |z.live| == |w.live| - 1;
    if |z.live| == 0 {
      assert z.live == {} && z.lost == all;
    } else {
      var k :| k in z.live;
      assert k !in z.lost;
    }
  }

  /** An incoming transfer either starts, once, on a stream that got through, which is
      the only one named to the other side while all others are aborted, or fails, once,
      when every stream has failed; when no stream is left to report it has done one
      of the two. */
  lemma {:induction false} StartsOrFails(n: nat, events: seq<ReceiveEvent>)
    requires ReportedAll(Offered(n), events).Some?
    ensures var z := ReportedAll(Offered(n), events).value;
            && z.t.starts + z.t.failures <= 1
            && (z.t.starts == 1 ==>
                  |z.t.answers| == 1 && z.t.answers[0] !in z.lost && z.t.answers[0] < n
                  && z.t.aborted == Below(n) - {z.t.answers[0]})
            && (z.t.failures == 1 <==> n > 0 && z.lost == Below(n))
            && (z.live == {} && n > 0 ==> z.t.starts + z.t.failures == 1)
  {
    OfferedInv(n);
    ReportsKeepInv(Offered(n), events);
    hide Below;
    var z := ReportedAll(Offered(n), events).value;
    if z.t.streams.None? {
      assert z.t.answers[0] in Below(n);
    }
  }

  /** Any number of reports keeps the invariant. */
  lemma {:induction false} ReportsKeepInv(w: Receiving, events: seq<ReceiveEvent>)
    requires ReceivingInv(w) && ReportedAll(w, events).Some?
    ensures ReceivingInv(ReportedAll(w, events).value) && ReportedAll(w, events).value.n == w.n
    decreases |events|
  {
    if events != [] {
      ReportKeepsInv(w, events[0]);
      hide ReceivingInv;
      ReportsKeepInv(Reported(w, events[0]), events[1..]);
    }
  }

  lemma {:induction false} OfferedInv(n: nat)
    ensures ReceivingInv(Offered(n))
  {
  }
}
