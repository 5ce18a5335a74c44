/**
 Stack discipline of the parser: namespace frames follow the open tags, start and end
 calls are balanced, the reserved prefixes stay what they are.
 */
module XmlDiscipline {

  import opened Options
  import opened XmlText
  import opened StanzaBuilder
  import opened XmlParser
  import opened XmlSegmentation

  /** Inside a start tag: its namespace frame exists and its element is not open yet. */
  predicate InTag(state: nat) {
    state == 15 || state == 19 || state == 21 || state == 22 || state == 24 || state == 25 || state == 27 || state == 28
    || state == 34 || state == 40 || state == 41 || state == 44 || state == 47 || state == 48 || state == 51
    || state == 52
  }

  predicate InEndTag(state: nat) { state == 39 || state == 58 || state == 59 }

  /** No frame but the base binds "xmlns", and none rebinds "xml". */
  predicate Reserved(frames: seq<Frame>) {
    && frames != [] && frames[0] == BASE_FRAME
    && (forall i :: 1 <= i < |frames| ==> "xmlns" !in frames[i])
    && (forall i :: 1 <= i < |frames| ==> "xml" in frames[i] ==> frames[i]["xml"] == XML_NS)
  }

  /** Frames above the base are the open tags, and one more inside a start tag. */
  predicate Disciplined(p: Parser) {
    && 11 <= p.state <= 59
    && (p.state < 29 <==> p.tags == [])
    && |p.frames| == 1 + |p.tags| + (if InTag(p.state) then 1 else 0)
    && Reserved(p.frames)
  }

  // ----- calls ---------------------------------------------------------------------------

  /** An element that was started: its resolved name and the name as written. */
  datatype Open = Open(name: Name, qname: string)

  /** The elements open after some calls; None as soon as an end does not match. */
  function Nest(stack: seq<Open>, events: seq<Event>): Option<seq<Open>>
    decreases |events|
  {
    if events == [] then Some(stack)
    else
      match events[0]
      case StartElement(ns, local, qname, _) => Nest(stack + [Open(Name(ns, local), qname)], events[1..])
      case EndElement(ns, local, _) =>
        if stack == [] || stack[|stack| - 1].name != Name(ns, local) then None
        else Nest(stack[..|stack| - 1], events[1..])
      case _ => Nest(stack, events[1..])
  }

  lemma {:induction false} NestConcat(stack: seq<Open>, a: seq<Event>, b: seq<Event>)
    ensures Nest(stack, a + b) == (if Nest(stack, a).Some? then Nest(Nest(stack, a).value, b) else None)
    decreases |a|
  {
    if a == [] {
      assert a + b == b;
    } else {
      assert (a + b)[1..] == a[1..] + b;
      match a[0]
      case StartElement(ns, local, qname, _) => NestConcat(stack + [Open(Name(ns, local), qname)], a[1..], b);
      case EndElement(ns, local, _) =>
        if stack != [] && stack[|stack| - 1].name == Name(ns, local) {
          NestConcat(stack[..|stack| - 1], a[1..], b);
        }
      case _ => NestConcat(stack, a[1..], b);
    }
  }

  /** The parser's tag stack is what the calls have opened, and every tag is the name its
      element resolves to in the frames up to its own. */
  predicate Linked(p: Parser, stack: seq<Open>) {
    && |stack| == |p.tags| && |p.tags| < |p.frames|
    && forall i :: 0 <= i < |stack| ==>
         stack[i].name == p.tags[i] == ResolveTag(p.frames[..i + 2], stack[i].qname)
  }

  // ----- one character ---------------------------------------------------------------------

  /** How the actions move between the parts of the document. */
  lemma {:induction false} TransitionShape(state: nat, c: char)
    requires 11 <= state <= 59
    ensures var (action, next) := Transition(state, c);
            && 11 <= next <= 59
            && (action.BeginTag? ==> !InTag(state) && InTag(next) && (next < 29 <==> state < 29))
            && (action.OpenElement? ==> InTag(state) && next == 29)
            && (action.EmptyElement? ==> InTag(state) && next == 29 && state >= 29)
            && (action.EmptyRoot? ==> InTag(state) && next == 11 && state < 29)
            && (action.CloseElement? ==> InEndTag(state) && next == 29)
            && (action.EndAttribute? ==> InTag(state))
            && (!(action.BeginTag? || action.OpenElement? || action.EmptyElement? || action.EmptyRoot?
                  || action.CloseElement?) ==>
                  (InTag(next) <==> InTag(state)) && (next < 29 <==> state < 29))
  {
  }

  lemma {:induction false} ReservedLookup(frames: seq<Frame>)
    requires Reserved(frames)
    ensures Lookup(frames, "xmlns") == XMLNS_NS && Lookup(frames, "xml") == XML_NS
    decreases |frames|
  {
    var n := |frames| - 1;
    if n > 0 {
      ReservedLookup(frames[..n]);
    }
  }

  /** Declaring prefixes touches the innermost frame only, and never a reserved prefix. */
  lemma {:induction false} AttributeKeepsFrames(p: Parser, name: string, value: string)
    requires Reserved(p.frames) && |p.frames| >= 2
    ensures var q := AddAttribute(p, name, value).0;
            && q == p.(attributes := q.attributes, frames := q.frames)
            && |q.frames| == |p.frames| && q.frames[..|p.frames| - 1] == p.frames[..|p.frames| - 1]
            && Reserved(q.frames)
    ensures AddAttribute(p, name, value).1 != Some(UNDERFLOW)
  {
    ReservedLookup(p.frames);
  }

  /** Linked depends on the tags and their frames only. */
  lemma {:induction false} LinkedIn(p: Parser, q: Parser, stack: seq<Open>)
    requires Linked(p, stack) && q.tags == p.tags && |q.frames| > |q.tags|
    requires q.frames[..|p.tags| + 1] == p.frames[..|p.tags| + 1]
    ensures Linked(q, stack)
  {
    forall i | 0 <= i < |stack|
      ensures stack[i].name == q.tags[i] == ResolveTag(q.frames[..i + 2], stack[i].qname)
    {
      assert q.frames[..i + 2] == q.frames[..|p.tags| + 1][..i + 2];
      assert p.frames[..i + 2] == p.frames[..|p.tags| + 1][..i + 2];
    }
  }

  /** A start tag completed: its frame becomes the frame of an open tag. */
  lemma {:induction false} OpenStep(p: Parser, stack: seq<Open>)
    requires Disciplined(p) && Linked(p, stack) && InTag(p.state)
    ensures var r := Perform(p, OpenElement, 29, '>');
            var stack' := stack + [Open(ResolveTag(p.frames, p.tagName), p.tagName)];
            && Disciplined(r.p) && Nest(stack, r.events) == Some(stack') && Linked(r.p, stack')
  {
    hide ResolveAttributes;
    var r := Perform(p, OpenElement, 29, '>');
    var stack' := stack + [Open(ResolveTag(p.frames, p.tagName), p.tagName)];
    assert r.events[1..] == [];
    assert Nest(stack, r.events) == Some(stack');
    assert p.frames[..|p.tags| + 2] == p.frames;
    assert Disciplined(r.p);
    assert Linked(r.p, stack');
  }

  lemma {:induction false} EmptyCalls(p: Parser, stack: seq<Open>)
    ensures Nest(stack, [Opened(p), Closed(p)]) == Some(stack)
    ensures Nest(stack, [Opened(p), Closed(p), EndDocument]) == Some(stack)
  {
    hide ResolveTag, ResolveAttributes;
    var o := Open(ResolveTag(p.frames, p.tagName), p.tagName);
    assert [Opened(p)][1..] == [] && [Closed(p)][1..] == [];
    assert (stack + [o])[..|stack|] == stack;
    assert Nest(stack, [Opened(p)]) == Some(stack + [o]);
    assert Nest(stack + [o], [Closed(p)]) == Some(stack);
    NestConcat(stack, [Opened(p)], [Closed(p)]);
    assert [Opened(p)] + [Closed(p)] == [Opened(p), Closed(p)];
    NestConcat(stack, [Opened(p), Closed(p)], [EndDocument]);
    assert [Opened(p), Closed(p)] + [EndDocument] == [Opened(p), Closed(p), EndDocument];
    assert [EndDocument][1..] == [];
  }

  /** An empty-element tag leaves the stacks as they were before it. */
  lemma {:induction false} EmptyStep(p: Parser, stack: seq<Open>, root: bool)
    requires Disciplined(p) && Linked(p, stack) && InTag(p.state) && (root <==> p.state < 29)
    ensures var r := Perform(p, if root then EmptyRoot else EmptyElement, if root then 11 else 29, '>');
            && Disciplined(r.p) && Nest(stack, r.events) == Some(stack) && Linked(r.p, stack)
  {
    hide ResolveTag, ResolveAttributes;
    EmptyCalls(p, stack);
    var q := p.(frames := Outer(p.frames));
    assert q.frames[..|p.tags| + 1] == p.frames[..|p.tags| + 1];
    LinkedIn(p, q, stack);
  }

  lemma {:induction false} CloseCalls(p: Parser, stack: seq<Open>)
    requires stack != [] && stack[|stack| - 1].name == ResolveTag(p.frames, p.tagName)
    ensures Nest(stack, [Closed(p)]) == Some(stack[..|stack| - 1])
    ensures Nest(stack, [Closed(p), EndDocument]) == Some(stack[..|stack| - 1])
  {
    hide ResolveTag;
    assert [Closed(p)][1..] == [] && [EndDocument][1..] == [];
    assert Nest(stack, [Closed(p)]) == Some(stack[..|stack| - 1]);
    NestConcat(stack, [Closed(p)], [EndDocument]);
    assert [Closed(p)] + [EndDocument] == [Closed(p), EndDocument];
  }

  /** An end tag pops one tag and its frame, if the names match. */
  lemma {:induction false} CloseStep(p: Parser, stack: seq<Open>)
    requires Disciplined(p) && Linked(p, stack) && InEndTag(p.state)
    ensures var r := Close(p, 29);
            && stack != []
            && r.stopped != Some(UNDERFLOW)
            && (r.stopped.Some? <==> ResolveTag(p.frames, p.tagName) != ResolveTag(p.frames, stack[|stack| - 1].qname))
            && (r.stopped.None? ==>
                  && Disciplined(r.p) && Nest(stack, r.events) == Some(stack[..|stack| - 1])
                  && Linked(r.p, stack[..|stack| - 1]))
  {
    hide ResolveTag, Nest, Closed;
    var n := |stack| - 1;
    var r := Close(p, 29);
    assert p.frames[..n + 2] == p.frames;
    if r.stopped.None? {
      var rest := stack[..n];
      CloseCalls(p, stack);
      var q := p.(tags := Outer(p.tags));
      assert Linked(q, rest);
      assert r.p.frames[..n + 1] == p.frames[..n + 1];
      LinkedIn(q, r.p, rest);
    }
  }

  predicate Minor(action: Action) {
    !action.OpenElement? && !action.EmptyElement? && !action.EmptyRoot? && !action.CloseElement?
  }

  /** Every other action keeps the tags, and the frames below the start tag being read. */
  lemma {:induction false} MinorStep(p: Parser, c: char)
    requires Disciplined(p) && Minor(Transition(p.state, c).0)
    ensures var r := Step(p, c);
            && r.stopped != Some(UNDERFLOW)
            && (r.stopped.None? ==>
                  && Disciplined(r.p) && r.p.tags == p.tags
                  && r.p.frames[..|p.tags| + 1] == p.frames[..|p.tags| + 1])
  {
    TransitionShape(p.state, c);
    NoUnderflow(p.state, c);
    hide Transition, InTag, Opened, Closed, Close, XmlUnescape, Lookup, Say, AddAttribute, UNDERFLOW;
    var (action, next) := Transition(p.state, c);
    if action.EndAttribute? {
      AttributeStep(p, next, c);
    } else if action.BeginTag? {
      hide Reserved;
      NewFrame(p.frames);
    } else {
      hide Reserved;
    }
  }

  lemma {:induction false} NewFrame(frames: seq<Frame>)
    requires Reserved(frames)
    ensures Reserved(frames + [map[]])
  {
  }

  lemma {:induction false} AttributeStep(p: Parser, next: nat, c: char)
    requires Disciplined(p) && InTag(p.state) && InTag(next) && 11 <= next <= 59 && (next < 29 <==> p.state < 29)
    ensures var r := Perform(p, EndAttribute, next, c);
            && r.stopped != Some(UNDERFLOW)
            && (r.stopped.None? ==>
                  && Disciplined(r.p) && r.p.tags == p.tags
                  && r.p.frames[..|p.tags| + 1] == p.frames[..|p.tags| + 1])
  {
    hide XmlUnescape, Lookup, Reserved, AddAttribute, InTag, UNDERFLOW;
    AttributeKeepsFrames(p, p.attrName, XmlUnescape(p.attrValue));
  }

  lemma {:induction false} MinorCalls(p: Parser, stack: seq<Open>, c: char)
    requires Minor(Transition(p.state, c).0)
    ensures Nest(stack, Step(p, c).events) == Some(stack)
  {
    hide Transition, XmlUnescape, AddAttribute;
    var r := Step(p, c);
    assert |r.events| == 1 ==> r.events[1..] == [];
  }

  lemma {:induction false} OtherStep(p: Parser, stack: seq<Open>, c: char)
    requires Disciplined(p) && Linked(p, stack) && Minor(Transition(p.state, c).0)
    ensures var r := Step(p, c);
            && r.stopped != Some(UNDERFLOW)
            && (r.stopped.None? ==> Disciplined(r.p) && Nest(stack, r.events) == Some(stack) && Linked(r.p, stack))
  {
    MinorStep(p, c);
    MinorCalls(p, stack, c);
    hide Step, Linked, Nest, Reserved;
    if Step(p, c).stopped.None? {
      LinkedIn(p, Step(p, c).p, stack);
    }
  }

  lemma {:induction false} NoUnderflow(state: nat, c: char)
    ensures Transition(state, c).0 != Fail(UNDERFLOW)
  {
  }

  /** One character keeps the discipline, pops nothing that is not there, and continues
      the balance of the calls. */
  lemma {:induction false} StepKeepsDiscipline(p: Parser, stack: seq<Open>, c: char) returns (stack': seq<Open>)
    requires Disciplined(p) && Linked(p, stack)
    ensures var r := Step(p, c);
            && r.stopped != Some(UNDERFLOW)
            && (r.stopped.None? ==> Disciplined(r.p) && Nest(stack, r.events) == Some(stack') && Linked(r.p, stack'))
  {
    TransitionShape(p.state, c);
    var (action, next) := Transition(p.state, c);
    hide Transition, Nest, Disciplined, Linked, ResolveTag, ResolveAttributes;
    if action.OpenElement? {
      stack' := stack + [Open(ResolveTag(p.frames, p.tagName), p.tagName)];
      OpenStep(p, stack);
    } else if action.EmptyElement? {
      stack' := stack;
      EmptyStep(p, stack, false);
    } else if action.EmptyRoot? {
      stack' := stack;
      EmptyStep(p, stack, true);
    } else if action.CloseElement? {
      CloseStep(p, stack);
      stack' := stack[..|stack| - 1];
    } else {
      stack' := stack;
      OtherStep(p, stack, c);
    }
  }

  lemma {:induction false} RunKeepsDiscipline(p: Parser, stack: seq<Open>, s: string) returns (stack': seq<Open>)
    requires Disciplined(p) && Linked(p, stack)
    ensures var r := Run(p, s);
            && r.stopped != Some(UNDERFLOW)
            && (r.stopped.None? ==> Disciplined(r.p) && Nest(stack, r.events) == Some(stack') && Linked(r.p, stack'))
    decreases |s|
  {
    hide Step, Disciplined, Linked;
    stack' := stack;
    if s != "" {
      stack' := StepKeepsDiscipline(p, stack, s[0]);
      var r := Step(p, s[0]);
      if r.stopped.None? {
        var between := stack';
        stack' := RunKeepsDiscipline(r.p, between, s[1..]);
        NestConcat(stack, r.events, Run(r.p, s[1..]).events);
      }
    }
  }

  /** The flush at the end of a chunk makes no difference to the stacks. */
  lemma {:induction false} FeedKeepsDiscipline(p: Parser, stack: seq<Open>, chunk: string) returns (stack': seq<Open>)
    requires Disciplined(p) && Linked(p, stack)
    ensures var r := Feed(p, chunk);
            && r.stopped != Some(UNDERFLOW)
            && (r.stopped.None? ==> Disciplined(r.p) && Nest(stack, r.events) == Some(stack') && Linked(r.p, stack'))
  {
    hide Run, XmlUnescape, Nest;
    stack' := RunKeepsDiscipline(p, stack, chunk);
    var r := Run(p, chunk);
    if r.stopped.None? {
      FlushIsNeutral(stack', r.p);
      NestConcat(stack, r.events, Flush(r.p).events);
      LinkedIn(r.p, Flush(r.p).p, stack');
    }
  }

  lemma {:induction false} FlushIsNeutral(stack: seq<Open>, p: Parser)
    ensures Nest(stack, Flush(p).events) == Some(stack)
  {
    hide XmlUnescape;
    var a, b := Say(XmlUnescape(p.data)), Say(p.cdata);
    NestConcat(stack, a, b);
    assert |a| > 0 ==> a[1..] == [];
    assert |b| > 0 ==> b[1..] == [];
  }

  /** However the stream is cut, as long as no error stops it: the calls are balanced, the
      elements left open are the parser's tags, and none is left open outside a root. */
  lemma {:induction false} StreamIsDisciplined(chunks: seq<string>) returns (stack: seq<Open>)
    ensures var r := FeedAll(START, chunks);
            && (r.stopped.None? ==>
                  && Disciplined(r.p) && Linked(r.p, stack) && Nest([], r.events) == Some(stack)
                  && (stack == [] <==> r.p.state < 29))
  {
    StartIsDisciplined();
    stack := ChunksKeepDiscipline(chunks, START, []);
  }

  /** The same from any point of a stream. */
  lemma {:induction false} ChunksKeepDiscipline(chunks: seq<string>, p: Parser, stack: seq<Open>)
    returns (stack': seq<Open>)
    requires Disciplined(p) && Linked(p, stack)
    ensures var r := FeedAll(p, chunks);
            && (r.stopped.None? ==>
                  && Disciplined(r.p) && Linked(r.p, stack') && Nest(stack, r.events) == Some(stack')
                  && (stack' == [] <==> r.p.state < 29))
    decreases |chunks|
  {
    hide Feed;
    stack' := stack;
    if chunks != [] {
      var r := Feed(p, chunks[0]);
      if r.stopped.None? {
        var between := FeedKeepsDiscipline(p, stack, chunks[0]);
        stack' := ChunksKeepDiscipline(chunks[1..], r.p, between);
        NestConcat(stack, r.events, FeedAll(r.p, chunks[1..]).events);
      }
    }
  }

  lemma {:induction false} StartIsDisciplined()
    ensures Disciplined(START) && Linked(START, [])
  {
  }

  /** An end tag is refused exactly when its name does not resolve, in the frame of the
      innermost open tag, to that tag's name; the name as written always does. */
  lemma {:induction false} EndTagMatchesIff(p: Parser, stack: seq<Open>)
    requires Disciplined(p) && Linked(p, stack) && InEndTag(p.state)
    ensures stack != []
    ensures Step(p, '>').stopped == Some(MISMATCH) <==>
              ResolveTag(p.frames, p.tagName) != ResolveTag(p.frames, stack[|stack| - 1].qname)
    ensures p.tagName == stack[|stack| - 1].qname ==> Step(p, '>').stopped.None?
  {
    CloseStep(p, stack);
    assert Transition(p.state, '>') == (CloseElement, 29);
  }
}
