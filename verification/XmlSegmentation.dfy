/**
 The stanzas do not depend on how the transport cuts the stream: whatever the chunks,
 the parser and the builder end up as after one uncut parse, as long as no entity
 reference is cut in two.
 */
module XmlSegmentation {

  import opened Options
  import opened Sequences
  import opened XmlText
  import opened StanzaBuilder
  import opened XmlParser

  /** Text is held back only while reading text, CDATA only inside its section. */
  predicate Buffered(p: Parser) {
    (p.data != "" ==> p.state == 29) && (p.cdata != "" ==> 55 <= p.state <= 57)
  }

  function Concat(chunks: seq<string>): string {
    if chunks == [] then "" else chunks[0] + Concat(chunks[1..])
  }

  /** The chunks one after the other. */
  function FeedAll(p: Parser, chunks: seq<string>): Reaction
    decreases |chunks|
  {
    if chunks == [] then Reaction(p, [], None)
    else
      var r := Feed(p, chunks[0]);
      var t := FeedAll(r.p, chunks[1..]);
      Reaction(t.p, r.events + t.events, if r.stopped.Some? then r.stopped else t.stopped)
  }

  // ----- one cut ------------------------------------------------------------------------

  /** The parser that has not been cut still holds the text q and the CDATA r, which the
      other has handed over. */
  function Uncut(p: Parser, q: string, r: string): Parser {
    p.(data := q + p.data, cdata := r + p.cdata)
  }

  predicate Pending(p: Parser, q: string, r: string) {
    (q != "" ==> p.state == 29) && (r != "" ==> 55 <= p.state <= 57)
  }

  function Told(f: Forest, q: string, r: string): Forest {
    Hear(Hear(f, Decode(q)), r)
  }

  /** Where held-back text matters: text and CDATA are read by these states only. */
  lemma {:induction false} TransitionsOfText(state: nat, c: char)
    ensures var (action, next) := Transition(state, c);
            && (action.GrowData? ==> state == next == 29)
            && (action.EndData? ==> state == 29 && next == 30)
            && (action.GrowCdata? ==> 55 <= state <= 57 && next == 55)
            && (action.EndCdata? ==> state == 57 && next == 29)
            && (state == 29 ==> action.GrowData? || action.EndData?)
            && (55 <= state <= 57 ==> (action.Skip? && 55 <= next <= 57) || action.GrowCdata? || action.EndCdata?)
  {
  }

  lemma {:induction false} StepKeepsBuffered(p: Parser, c: char)
    requires Buffered(p) && Step(p, c).stopped.None?
    ensures Buffered(Step(p, c).p)
  {
    TransitionsOfText(p.state, c);
    hide Transition, ResolveTag, ResolveAttributes, Lookup, Opened, Closed;
  }

  /** Text that is complete: what the cut parser says now completes what it said before. */
  lemma {:induction false} TextCompleted(f: Forest, q: string, d: string)
    requires !Straddles(q, d)
    ensures HandleAll(f, Say(XmlUnescape(q + d))) == HandleAll(Hear(f, Decode(q)), Say(XmlUnescape(d)))
  {
    UnescapeIsDecode(q + d);
    UnescapeIsDecode(d);
    DecodeDistributes(q, d);
    SayIsHeard(f, Decode(q + d));
    SayIsHeard(Hear(f, Decode(q)), Decode(d));
    TextCoalesces(f, Decode(q), Decode(d));
  }

  lemma {:induction false} CdataCompleted(f: Forest, r: string, c: string)
    ensures HandleAll(f, Say(r + c)) == HandleAll(Hear(f, r), Say(c))
  {
    SayIsHeard(f, r + c);
    SayIsHeard(Hear(f, r), c);
    TextCoalesces(f, r, c);
  }

  /** One character takes both parsers along together. */
  lemma {:induction false} StepTogether(f: Forest, p: Parser, q: string, r: string, c: char, s: string)
    returns (q': string, r': string)
    requires Buffered(p) && Pending(p, q, r) && !Straddles(q, p.data + ([c] + s))
    ensures var a, b := Step(p, c), Step(Uncut(p, q, r), c);
            && a.stopped == b.stopped
            && (a.stopped.None? ==>
                  && Buffered(a.p) && Pending(a.p, q', r') && b.p == Uncut(a.p, q', r')
                  && !Straddles(q', a.p.data + s)
                  && HandleAll(Told(f, q, r), a.events) == Told(HandleAll(f, b.events), q', r'))
  {
    if q == "" && r == "" {
      q', r' := "", "";
      NothingPending(f, p, c, s);
    } else {
      q', r' := StepPending(f, p, q, r, c, s);
    }
  }

  lemma {:induction false} NothingPending(f: Forest, p: Parser, c: char, s: string)
    requires Buffered(p)
    ensures Uncut(p, "", "") == p && (forall a: Parser :: Uncut(a, "", "") == a)
    ensures forall g :: Told(g, "", "") == g
    ensures !Straddles("", Step(p, c).p.data + s)
    ensures Step(p, c).stopped.None? ==> Buffered(Step(p, c).p)
  {
    if Step(p, c).stopped.None? {
      StepKeepsBuffered(p, c);
    }
    NoReferenceInNothing(Step(p, c).p.data + s);
  }

  lemma {:induction false} StepPending(f: Forest, p: Parser, q: string, r: string, c: char, s: string)
    returns (q': string, r': string)
    requires Buffered(p) && Pending(p, q, r) && !Straddles(q, p.data + ([c] + s)) && (q != "" || r != "")
    ensures var a, b := Step(p, c), Step(Uncut(p, q, r), c);
            && a.stopped == b.stopped == None
            && Buffered(a.p) && Pending(a.p, q', r') && b.p == Uncut(a.p, q', r')
            && !Straddles(q', a.p.data + s)
            && HandleAll(Told(f, q, r), a.events) == Told(HandleAll(f, b.events), q', r')
  {
    if q != "" {
      r' := "";
      q' := StepInText(f, p, q, c, s);
    } else {
      hide Straddles, Decode;
      q' := "";
      NoReferenceInNothing(s);
      assert "" + s == s;
      assert Decode("") == "" by { UnescapeIsDecode(""); }
      r' := StepInCdata(f, p, r, c);
    }
  }

  lemma {:induction false} StepInText(f: Forest, p: Parser, q: string, c: char, s: string) returns (q': string)
    requires Buffered(p) && Pending(p, q, "") && !Straddles(q, p.data + ([c] + s)) && q != ""
    ensures var a, b := Step(p, c), Step(Uncut(p, q, ""), c);
            && a.stopped == b.stopped == None
            && Buffered(a.p) && Pending(a.p, q', "") && b.p == Uncut(a.p, q', "")
            && !Straddles(q', a.p.data + s)
            && HandleAll(Told(f, q, ""), a.events) == Told(HandleAll(f, b.events), q', "")
  {
    hide Straddles, Decode;
    if c == '<' {
      q' := "";
      NotStraddlingPart(q, p.data, [c] + s);
      TextCompleted(f, q, p.data);
      NoReferenceInNothing(s);
      assert "" + s == s;
      assert Decode("") == "" by { UnescapeIsDecode(""); }
    } else {
      q' := q;
      Regroup(q, p.data, [c]);
      Regroup(p.data, [c], s);
    }
  }

  lemma {:induction false} StepInCdata(f: Forest, p: Parser, r: string, c: char) returns (r': string)
    requires Buffered(p) && 55 <= p.state <= 57
    ensures var a, b := Step(p, c), Step(Uncut(p, "", r), c);
            && a.stopped == b.stopped == None
            && Buffered(a.p) && Pending(a.p, "", r') && b.p == Uncut(a.p, "", r') && a.p.data == ""
            && HandleAll(Hear(f, r), a.events) == Hear(HandleAll(f, b.events), r')
  {
    var u := Uncut(p, "", r);
    CdataStep(p, c);
    CdataStep(u, c);
    hide Step, Handle, AppendText;
    assert "" + p.data == p.data;
    if p.state == 57 && c == '>' {
      r' := "";
      CdataCompleted(f, r, p.cdata);
      assert "" + "" == "";
    } else {
      r' := r;
      var more := CdataMore(p.state, c);
      Regroup(r, p.cdata, more);
    }
  }

  /** What one character adds to the CDATA held back. */
  function CdataMore(state: nat, c: char): string {
    if state == 55 then if c == ']' then "" else [c]
    else if state == 56 then if c == ']' then "" else "]" + [c]
    else "]]" + [c]
  }

  lemma {:induction false} CdataStep(p: Parser, c: char)
    requires 55 <= p.state <= 57
    ensures p.state == 57 && c == '>' ==> Step(p, c) == Reaction(p.(state := 29, cdata := ""), Say(p.cdata), None)
    ensures !(p.state == 57 && c == '>') ==>
              Step(p, c) == Reaction(p.(state := if c == ']' && p.state < 57 then p.state + 1 else 55,
                                         cdata := p.cdata + CdataMore(p.state, c)), [], None)
  {
    hide PrologTransition, ContentTransition, AddAttribute, Close, Opened, Closed, XmlUnescape, Say;
    assert p.cdata + "" == p.cdata;
    assert (p.cdata + "]") + [c] == p.cdata + ("]" + [c]);
    assert (p.cdata + "]]") + [c] == p.cdata + ("]]" + [c]);
  }

  lemma {:induction false} NoReferenceInNothing(s: string)
    ensures !Straddles("", s)
  {
  }

  lemma {:induction false} NotStraddlingPart(q: string, d: string, s: string)
    requires !Straddles(q, d + s)
    ensures !Straddles(q, d)
  {
    if Straddles(q, d) {
      StraddlesPrefix(q, d, s);
    }
  }

  /** The trees after a run and the end of its chunk. */
  function Outcome(f: Forest, r: Reaction): Forest {
    HandleAll(f, r.events + Flush(r.p).events)
  }

  lemma {:induction false} OutcomeIs(f: Forest, r: Reaction)
    ensures Outcome(f, r) == HandleAll(HandleAll(f, r.events), Flush(r.p).events)
  {
    HandleAllConcat(f, r.events, Flush(r.p).events);
  }

  lemma {:induction false} OutcomeAfter(f: Forest, r: Reaction, events: seq<Event>)
    ensures Outcome(f, r.(events := events + r.events)) == Outcome(HandleAll(f, events), r)
  {
    var e := Flush(r.p).events;
    assert (events + r.events) + e == events + (r.events + e);
    HandleAllConcat(f, events, r.events + e);
  }

  lemma {:induction false} FlushTogether(f: Forest, p: Parser, q: string, r: string)
    requires Buffered(p) && Pending(p, q, r) && !Straddles(q, p.data)
    ensures HandleAll(Told(f, q, r), Flush(p).events) == HandleAll(f, Flush(Uncut(p, q, r)).events)
  {
    var u := Uncut(p, q, r);
    HandleAllConcat(Told(f, q, r), Say(XmlUnescape(p.data)), Say(p.cdata));
    HandleAllConcat(f, Say(XmlUnescape(u.data)), Say(u.cdata));
    if q == "" && r == "" {
      assert u == p;
    } else if q != "" {
      TextCompleted(f, q, p.data);
      assert u.cdata == p.cdata == "";
    } else {
      assert u.data == p.data == "";
      assert XmlUnescape("") == "" by { UnescapeIsDecode(""); }
      CdataCompleted(f, r, p.cdata);
    }
  }

  lemma {:induction false} RunTogether(f: Forest, p: Parser, q: string, r: string, s: string)
    requires Buffered(p) && Pending(p, q, r) && !Straddles(q, p.data + s)
    ensures var a, b := Run(p, s), Run(Uncut(p, q, r), s);
            && a.stopped == b.stopped
            && (a.stopped.None? ==> Flush(a.p).p == Flush(b.p).p && Outcome(Told(f, q, r), a) == Outcome(f, b))
    decreases |s|
  {
    hide Step, Flush, Straddles, Buffered, Pending;
    if s == "" {
      assert p.data + s == p.data;
      FlushTogether(f, p, q, r);
      OutcomeIs(Told(f, q, r), Run(p, s));
      OutcomeIs(f, Run(Uncut(p, q, r), s));
      SameAfterFlush(p, q, r);
    } else {
      assert s == [s[0]] + s[1..];
      var u := Uncut(p, q, r);
      var q', r' := StepTogether(f, p, q, r, s[0], s[1..]);
      var a, b := Step(p, s[0]), Step(u, s[0]);
      if a.stopped.None? {
        RunTogether(HandleAll(f, b.events), a.p, q', r', s[1..]);
        OutcomeAfter(Told(f, q, r), Run(a.p, s[1..]), a.events);
        OutcomeAfter(f, Run(b.p, s[1..]), b.events);
      }
    }
  }

  lemma {:induction false} SameAfterFlush(p: Parser, q: string, r: string)
    ensures Flush(p).p == Flush(Uncut(p, q, r)).p
  {
  }

  lemma {:induction false} RunKeepsBuffered(p: Parser, s: string)
    requires Buffered(p) && Run(p, s).stopped.None?
    ensures Buffered(Run(p, s).p)
    decreases |s|
  {
    hide Step, Buffered;
    if s != "" {
      StepKeepsBuffered(p, s[0]);
      RunKeepsBuffered(Step(p, s[0]).p, s[1..]);
    }
  }

  /** A cut after a is harmless: no text is being read there, or no reference is cut. */
  ghost predicate CutIsSafe(p: Parser, a: string, b: string) {
    var m := Run(p, a).p;
    m.state == 29 ==> !Straddles(m.data, b)
  }

  /** One safe cut changes neither the parser nor the trees. */
  lemma {:induction false} CutOnce(f: Forest, p: Parser, a: string, b: string)
    requires Buffered(p) && Feed(p, a + b).stopped.None? && CutIsSafe(p, a, b)
    ensures var x := Feed(p, a);
            var y := Feed(x.p, b);
            && x.stopped.None? && y.stopped.None?
            && y.p == Feed(p, a + b).p
            && HandleAll(f, x.events + y.events) == HandleAll(f, Feed(p, a + b).events)
  {
    RunConcat(p, a, b);
    var r := Run(p, a);
    var m := r.p;
    RunKeepsBuffered(p, a);
    hide Run, Straddles, Step;
    if m.state != 29 {
      NoReferenceInNothing(b);
    }
    AfterCut(HandleAll(f, r.events), m, b);
    var x := Flush(m);
    var y, z := Feed(x.p, b), Feed(m, b);
    FeedSplits(p, a, b);
    JoinEvents(f, r.events, x.events, y.events);
    HandleAllConcat(f, r.events, z.events);
  }

  lemma {:induction false} FeedSplits(p: Parser, a: string, b: string)
    requires Run(p, a).stopped.None? && Run(p, a + b) == Then(Run(p, a), Run(Run(p, a).p, b))
    ensures var r, t := Run(p, a), Feed(Run(p, a).p, b);
            Feed(p, a + b) == Reaction(t.p, r.events + t.events, t.stopped)
  {
    hide Run;
    var r := Run(p, a);
    var t := Run(r.p, b);
    var e := Flush(t.p).events;
    assert (r.events + t.events) + e == r.events + (t.events + e);
  }

  lemma {:induction false} JoinEvents(f: Forest, a: seq<Event>, b: seq<Event>, c: seq<Event>)
    ensures HandleAll(f, (a + b) + c) == HandleAll(HandleAll(HandleAll(f, a), b), c)
  {
    HandleAllConcat(f, a + b, c);
    HandleAllConcat(f, a, b);
  }

  /** The rest of the text, with and without handing over what came before. */
  lemma {:induction false} AfterCut(f: Forest, m: Parser, b: string)
    requires Buffered(m) && !Straddles(m.data, b) && Feed(m, b).stopped.None?
    ensures var x := Flush(m);
            var y, z := Feed(x.p, b), Feed(m, b);
            && y.stopped.None? && y.p == z.p
            && HandleAll(HandleAll(f, x.events), y.events) == HandleAll(f, z.events)
  {
    hide Run, Straddles, Step, XmlUnescape, DecodeSome;
    var x := Flush(m);
    assert Uncut(x.p, m.data, m.cdata) == m;
    assert "" + b == b;
    RunTogether(f, x.p, m.data, m.cdata, b);
    FlushIsTold(f, m);
  }

  lemma {:induction false} FlushIsTold(f: Forest, p: Parser)
    ensures HandleAll(f, Flush(p).events) == Told(f, p.data, p.cdata)
  {
    UnescapeIsDecode(p.data);
    HandleAllConcat(f, Say(Decode(p.data)), Say(p.cdata));
    SayIsHeard(f, Decode(p.data));
    SayIsHeard(Hear(f, Decode(p.data)), p.cdata);
  }

  // ----- every way to cut ----------------------------------------------------------------

  ghost predicate CutsAreSafe(p: Parser, chunks: seq<string>)
    decreases |chunks|
  {
    |chunks| > 1 ==>
      CutIsSafe(p, chunks[0], Concat(chunks[1..])) && CutsAreSafe(Feed(p, chunks[0]).p, chunks[1..])
  }

  lemma {:induction false} FeedKeepsBuffered(p: Parser, chunk: string)
    requires Feed(p, chunk).stopped.None?
    ensures Buffered(Feed(p, chunk).p) && Feed(p, chunk).p.data == ""
  {
  }

  /** Any number of safe cuts: the parser and the trees are those of the uncut parse. */
  lemma {:induction false} SegmentationIndependence(f: Forest, p: Parser, chunks: seq<string>)
    requires chunks != [] && Buffered(p) && CutsAreSafe(p, chunks)
    requires Feed(p, Concat(chunks)).stopped.None?
    ensures var whole, cut := Feed(p, Concat(chunks)), FeedAll(p, chunks);
            && cut.stopped.None? && cut.p == whole.p
            && HandleAll(f, cut.events) == HandleAll(f, whole.events)
    decreases |chunks|
  {
    var a, rest := chunks[0], chunks[1..];
    var x := Feed(p, a);
    if rest == [] {
      assert Concat(chunks) == a + "" == a;
      assert FeedAll(x.p, rest) == Reaction(x.p, [], None);
      assert x.events + [] == x.events;
    } else {
      var b := Concat(rest);
      CutOnce(f, p, a, b);
      FeedKeepsBuffered(p, a);
      SegmentationIndependence(HandleAll(f, x.events), x.p, rest);
      HandleAllConcat(f, x.events, Feed(x.p, b).events);
      HandleAllConcat(f, x.events, FeedAll(x.p, rest).events);
    }
  }

  /** No entity reference of the raw stream lies across a cut. */
  ghost predicate OutsideReferences(chunks: seq<string>) {
    forall k :: 0 <= k < |chunks| ==> !Straddles(Concat(chunks[..k]), Concat(chunks[k..]))
  }

  predicate EndsWith(s: string, t: string) {
    |t| <= |s| && s[|s| - |t|..] == t
  }

  /** The text held back is the end of what was read. */
  lemma {:induction false} DataIsTail(p: Parser, s: string)
    requires Buffered(p) && Run(p, s).stopped.None?
    ensures EndsWith(p.data + s, Run(p, s).p.data)
    decreases |s|
  {
    hide Step, Buffered, EndsWith;
    if s == "" {
      assert p.data + s == p.data;
      assert EndsWith(p.data, p.data) by { EndsWithItself(p.data); }
    } else {
      var r := Step(p, s[0]);
      StepKeepsBuffered(p, s[0]);
      DataStep(p, s[0]);
      DataIsTail(r.p, s[1..]);
      EndsWithMore(p.data + [s[0]], r.p.data, s[1..], Run(p, s).p.data);
      assert s == [s[0]] + s[1..];
      Regroup(p.data, [s[0]], s[1..]);
    }
  }

  lemma {:induction false} EndsWithItself(s: string)
    ensures EndsWith(s, s)
  {
  }

  lemma {:induction false} EndsWithMore(s: string, t: string, w: string, d: string)
    requires EndsWith(s, t) && EndsWith(t + w, d)
    ensures EndsWith(s + w, d)
  {
    var h := s[..|s| - |t|];
    assert s == h + t;
    Regroup(h, t, w);
    assert (h + (t + w))[|h| + |t + w| - |d|..] == (t + w)[|t + w| - |d|..];
  }

  lemma {:induction false} DataStep(p: Parser, c: char)
    requires Buffered(p) && Step(p, c).stopped.None?
    ensures EndsWith(p.data + [c], Step(p, c).p.data)
  {
    DataGrowsOrGoes(p, c);
    hide Step, Buffered, EndsWith;
    if Step(p, c).p.data == "" {
      EndsWithNothing(p.data + [c]);
    } else {
      EndsWithItself(p.data + [c]);
    }
  }

  lemma {:induction false} DataGrowsOrGoes(p: Parser, c: char)
    requires Buffered(p) && Step(p, c).stopped.None?
    ensures Step(p, c).p.data == "" || Step(p, c).p.data == p.data + [c]
  {
    TransitionsOfText(p.state, c);
    hide Transition, ResolveTag, ResolveAttributes, Lookup, Opened, Closed, XmlUnescape;
  }

  lemma {:induction false} EndsWithNothing(s: string)
    ensures EndsWith(s, "")
  {
    assert s[|s|..] == "";
  }

  lemma {:induction false} OutsideReferencesIsSafe(p: Parser, chunks: seq<string>)
    requires Buffered(p) && p.data == "" && OutsideReferences(chunks)
    requires Feed(p, Concat(chunks)).stopped.None?
    ensures CutsAreSafe(p, chunks)
    decreases |chunks|
  {
    if |chunks| > 1 {
      var a, rest := chunks[0], chunks[1..];
      var b := Concat(rest);
      FirstCutIsOutside(chunks);
      RestIsOutside(chunks);
      RunConcat(p, a, b);
      CutOutsideIsSafe(p, a, b);
      CutOnce(Forest([], [], []), p, a, b);
      FeedKeepsBuffered(p, a);
      hide OutsideReferences, Feed;
      OutsideReferencesIsSafe(Feed(p, a).p, rest);
    }
  }

  lemma {:induction false} RestIsOutside(chunks: seq<string>)
    requires chunks != [] && OutsideReferences(chunks)
    ensures OutsideReferences(chunks[1..])
  {
    hide Straddles;
    var a, rest := chunks[0], chunks[1..];
    forall k | 0 <= k < |rest| ensures !Straddles(Concat(rest[..k]), Concat(rest[k..])) {
      assert chunks[..k + 1][1..] == rest[..k] && chunks[k + 1..] == rest[k..];
      assert Concat(chunks[..k + 1]) == a + Concat(rest[..k]);
      if Straddles(Concat(rest[..k]), Concat(rest[k..])) {
        StraddlesSuffix(a, Concat(rest[..k]), Concat(rest[k..]));
      }
    }
  }

  lemma {:induction false} CutOutsideIsSafe(p: Parser, a: string, b: string)
    requires Buffered(p) && p.data == "" && !Straddles(a, b) && Run(p, a).stopped.None?
    ensures CutIsSafe(p, a, b)
  {
    hide Straddles, Run;
    DataIsTail(p, a);
    assert "" + a == a;
    TailCut(a, Run(p, a).p.data, b);
  }

  lemma {:induction false} FirstCutIsOutside(chunks: seq<string>)
    requires |chunks| > 1 && OutsideReferences(chunks)
    ensures !Straddles(chunks[0], Concat(chunks[1..]))
  {
    hide Straddles;
    var a := chunks[0];
    assert Concat(chunks[..1]) == a by {
      assert chunks[..1][1..] == [] && a + "" == a;
    }
  }

  lemma {:induction false} TailCut(a: string, d: string, b: string)
    requires EndsWith(a, d) && !Straddles(a, b)
    ensures !Straddles(d, b)
  {
    var h := a[..|a| - |d|];
    assert a == h + d;
    if Straddles(d, b) {
      StraddlesSuffix(h, d, b);
    }
  }

  /** From the start of the stream on: chunks cut anywhere outside references give the
      stanzas of the uncut text. */
  lemma {:induction false} StanzasIgnoreSegmentation(chunks: seq<string>)
    requires chunks != [] && OutsideReferences(chunks) && Feed(START, Concat(chunks)).stopped.None?
    ensures var f := Forest([], [], []);
            && FeedAll(START, chunks).stopped.None?
            && HandleAll(f, FeedAll(START, chunks).events) == HandleAll(f, Feed(START, Concat(chunks)).events)
  {
    OutsideReferencesIsSafe(START, chunks);
    SegmentationIndependence(Forest([], [], []), START, chunks);
  }

  // ----- when a cut does show -----------------------------------------------------------

  /** Reading text only: everything is held back. */
  lemma {:induction false} RunText(p: Parser, b: string)
    requires p.state == 29 && '<' !in b
    ensures Run(p, b) == Reaction(p.(data := p.data + b), [], None)
    decreases |b|
  {
    if b == "" {
      assert p.data + b == p.data;
    } else {
      RunText(Step(p, b[0]).p, b[1..]);
      assert b == [b[0]] + b[1..];
      Regroup(p.data, [b[0]], b[1..]);
    }
  }

  lemma {:induction false} ToldTextIsVisible(f: Forest, x: string, y: string)
    requires f.open != [] && f.open[|f.open| - 1].Element?
    requires Hear(f, x) == Hear(f, y)
    ensures x == y
  {
    var n := |f.open| - 1;
    var parent := f.open[n];
    if x == "" && y != "" {
      assert Hear(f, y).open[n] == AppendText(parent, y);
      NewTextIsVisible(parent, y);
    } else if y == "" && x != "" {
      assert Hear(f, x).open[n] == AppendText(parent, x);
      NewTextIsVisible(parent, x);
    } else if x != "" && y != "" {
      assert AppendText(parent, x) == Hear(f, x).open[n] == Hear(f, y).open[n] == AppendText(parent, y);
      LastTextIsVisible(parent, x, y);
    }
  }

  lemma {:induction false} NewTextIsVisible(parent: Node, x: string)
    requires parent.Element? && x != ""
    ensures AppendText(parent, x) != parent
  {
    var c, d := parent.children, AppendText(parent, x).children;
    if c != [] && c[|c| - 1].Text? {
      assert d[|c| - 1] == Text(c[|c| - 1].text + x);
      assert |c[|c| - 1].text + x| > |c[|c| - 1].text|;
    }
  }

  lemma {:induction false} LastTextIsVisible(parent: Node, x: string, y: string)
    requires parent.Element? && AppendText(parent, x) == AppendText(parent, y)
    ensures x == y
  {
    var c := parent.children;
    var d, e := AppendText(parent, x).children, AppendText(parent, y).children;
    var m := |d| - 1;
    assert d[m] == e[m];
    if c != [] && c[|c| - 1].Text? {
      var was := c[|c| - 1].text;
      assert d[m].text == was + x && e[m].text == was + y;
      assert x == (was + x)[|was|..] == (was + y)[|was|..] == y;
    } else {
      assert d[m] == Text(x) && e[m] == Text(y);
    }
  }

  /** A cut inside text, before its next tag: the trees are the same exactly when no
      reference lies across the cut. */
  lemma {:induction false} TextCutIff(f: Forest, p: Parser, b: string)
    requires p.state == 29 && p.cdata == "" && '<' !in b
    requires f.open != [] && f.open[|f.open| - 1].Element?
    ensures var x := Flush(p);
            (HandleAll(HandleAll(f, x.events), Feed(x.p, b).events) == HandleAll(f, Feed(p, b).events))
            <==> !Straddles(p.data, b)
  {
    var x := Flush(p);
    hide Straddles, DecodeSome, Handle, XmlUnescape;
    RunText(p, b);
    RunText(x.p, b);
    assert "" + b == b;
    var d := p.data;
    FlushIsTold(f, p);
    FlushIsTold(f, p.(data := d + b));
    FlushIsTold(Hear(f, Decode(d)), x.p.(data := b));
    TextCoalesces(f, Decode(d), Decode(b));
    DecodeDistributesIff(d, b);
    if Hear(f, Decode(d) + Decode(b)) == Hear(f, Decode(d + b)) {
      ToldTextIsVisible(f, Decode(d) + Decode(b), Decode(d + b));
    }
  }
}
