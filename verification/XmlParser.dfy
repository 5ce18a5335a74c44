/**
 The streaming XML parser from its first decoded character on: a character-driven
 machine with a stack of open tags and a stack of namespace frames, given as a transition
 table and as the object that switches on its state.
 */
module XmlParser {

  import opened Options
  import opened XmlText
  import opened StanzaBuilder

  const XML_NS: string := "http://www.w3.org/XML/1998/namespace"
  const XMLNS_NS: string := "http://www.w3.org/2000/xmlns/"

  /** A namespace and a local name. */
  datatype Name = Name(ns: string, local: string)

  /** A namespace frame holds the prefixes bound by one start tag; "" is the default. */
  type Frame = map<string, string>

  /** The fields of the parser; the innermost tag and frame come last. */
  datatype Parser = Parser(
    state: nat,
    data: string,
    cdata: string,
    tagName: string,
    attrName: string,
    attrValue: string,
    attributes: seq<(string, string)>,
    tags: seq<Name>,
    frames: seq<Frame>)

  const BASE_FRAME: Frame := map["xml" := XML_NS, "xmlns" := XMLNS_NS]

  /** The parser once the character set is settled. */
  const START: Parser := Parser(11, "", "", "", "", "", [], [], [BASE_FRAME])

  /** A machine after some input: its fields, the handler calls it made, and the error
      that stopped it, if any. */
  datatype Reaction = Reaction(p: Parser, events: seq<Event>, stopped: Option<string>)

  // ----- names ----------------------------------------------------------------------

  /** The namespace bound to a prefix by the innermost frame that binds it. */
  function Lookup(frames: seq<Frame>, prefix: string): string {
    if frames == [] then ""
    else
      var top := frames[|frames| - 1];
      if prefix in top then top[prefix] else Lookup(frames[..|frames| - 1], prefix)
  }

  /** The position of the last colon, or the length if there is none. */
  function LastColon(name: string): (k: nat)
    ensures k <= |name|
    ensures k < |name| ==> name[k] == ':' && ':' !in name[k + 1..]
    ensures k == |name| ==> ':' !in name
  {
    if name == "" then 0
    else
      var n := |name| - 1;
      if name[n] == ':' then n
      else
        var k := LastColon(name[..n]);
        assert name == name[..n] + [name[n]];
        if k == n then n + 1 else assert name[k + 1..] == name[..n][k + 1..] + [name[n]]; k
  }

  function ResolveTag(frames: seq<Frame>, name: string): Name {
    var k := LastColon(name);
    if k < |name| then Name(Lookup(frames, name[..k]), name[k + 1..])
    else Name(Lookup(frames, ""), name)
  }

  function ResolveAttribute(frames: seq<Frame>, a: (string, string)): Attribute {
    var name := a.0;
    var k := LastColon(name);
    if k < |name| then Attribute(name, a.1, Lookup(frames, name[..k]), name[k + 1..])
    else if name == "xmlns" then Attribute(name, a.1, Lookup(frames, "xmlns"), name)
    else Attribute(name, a.1, "", name)
  }

  function ResolveAttributes(frames: seq<Frame>, attributes: seq<(string, string)>): (r: seq<Attribute>)
    ensures |r| == |attributes|
    ensures forall i :: 0 <= i < |r| ==> r[i] == ResolveAttribute(frames, attributes[i])
  {
    seq(|attributes|, i requires 0 <= i < |attributes| => ResolveAttribute(frames, attributes[i]))
  }

  predicate DeclaresPrefix(name: string) {
    name == "xmlns" || "xmlns:" <= name
  }

  function DeclaredPrefix(name: string): string
    requires DeclaresPrefix(name)
  {
    if name == "xmlns" then "" else name[6..]
  }

  function Outer<T>(stack: seq<T>): seq<T> {
    if stack == [] then [] else stack[..|stack| - 1]
  }

  // ----- the transition table ----------------------------------------------------------

  datatype Action =
    | Skip
    | Fail(code: string)
    | BeginDocument
    | BeginTag
    | GrowTag
    | BeginAttribute
    | GrowAttribute
    | BeginValue
    | GrowValue
    | EndAttribute
    | OpenElement
    | EmptyElement
    | EmptyRoot
    | BeginName
    | CloseElement
    | GrowData
    | EndData
    | GrowCdata(held: string)
    | EndCdata

  predicate Blank(c: char) { c == ' ' || c == '\t' || c == '\r' || c == '\n' }

  /** What a state does on a character, and the state that follows. */
  function Transition(state: nat, c: char): (Action, nat) {
    if state < 29 then PrologTransition(state, c)
    else if state < 43 then ContentTransition(state, c)
    else LateTransition(state, c)
  }

  /** Before and in the root's start tag. */
  function PrologTransition(state: nat, c: char): (Action, nat) {
    match state
    case 11 =>
      if Blank(c) then (Skip, 11) else if c == '<' then (BeginDocument, 12) else (Fail("INVALID_FORMAT"), 11)
    case 12 =>
      if Blank(c) then (Fail("INVALID_TAG_NAME"), 12) else if c == '?' then (Skip, 13) else if c == '!' then (Skip, 14)
      else if c == '/' then (Fail("CLOSING_UNOPENED_TAG"), 12) else (BeginTag, 15)
    case 13 => (Skip, if c == '?' then 16 else 13)
    case 14 => (Skip, if c == '-' then 17 else 14)
    case 15 =>
      if Blank(c) then (Skip, 19) else if c == '/' then (Skip, 21)
      else if c == '>' then (OpenElement, 29) else (GrowTag, 15)
    case 16 => (Skip, if c == '>' then 11 else 13)
    case 17 => if c == '-' then (Skip, 20) else (Fail("INVALID_COMMENT_DECLARATION"), 17)
    case 18 => (Skip, if c == '>' then 11 else 18)
    case 19 =>
      if Blank(c) then (Skip, 19) else if c == '/' then (Skip, 21) else if c == '>' then (OpenElement, 29)
      else (BeginAttribute, 22)
    case 20 => (Skip, if c == '-' then 23 else 20)
    case 21 => if c == '>' then (EmptyRoot, 11) else (Fail("INVALID_TAG_ENDING"), 21)
    case 22 => if Blank(c) then (Skip, 24) else if c == '=' then (Skip, 25) else (GrowAttribute, 22)
    case 23 => (Skip, if c == '-' then 26 else 20)
    case 24 =>
      if Blank(c) then (Skip, 24) else if c == '=' then (Skip, 25) else (Fail("INVALID_ATTRIBUTE_DEFINITION"), 24)
    case 25 =>
      if Blank(c) then (Skip, 25) else if c == '\'' then (BeginValue, 27) else if c == '\"' then (BeginValue, 28)
      else (Fail("INVALID_ATTRIBUTE_DEFINITION"), 25)
    case 26 => (Skip, if c == '>' then 11 else 20)
    case 27 =>
      if c == '\'' then (EndAttribute, 19) else if c == '<' then (Fail("INVALID_ATTRIBUTE_VALUE_DEFINITION"), 27)
      else (GrowValue, 27)
    case 28 =>
      if c == '\"' then (EndAttribute, 19) else if c == '<' then (Fail("INVALID_ATTRIBUTE_VALUE_DEFINITION"), 28)
      else (GrowValue, 28)
    case _ => (Skip, state)
  }

  /** Inside the root: text, tags, and the heads of declarations. */
  function ContentTransition(state: nat, c: char): (Action, nat) {
    match state
    case 29 => if c == '<' then (EndData, 30) else (GrowData, 29)
    case 30 =>
      if Blank(c) then (Fail("INVALID_TAG_NAME"), 30) else if c == '?' then (Skip, 31) else if c == '!' then (Skip, 32)
      else if c == '/' then (Skip, 33) else (BeginTag, 34)
    case 31 => (Skip, if c == '?' then 35 else 31)
    case 32 =>
      if Blank(c) then (Fail("INVALID_DOCTYPE_DECLARATION"), 32) else if c == '-' then (Skip, 36)
      else if c == '[' then (Skip, 37) else (BeginName, 38)
    case 33 => if Blank(c) then (Fail("INVALID_TAG_NAME"), 33) else (BeginName, 39)
    case 34 =>
      if Blank(c) then (Skip, 40) else if c == '/' then (Skip, 41)
      else if c == '>' then (OpenElement, 29) else (GrowTag, 34)
    case 35 => (Skip, if c == '>' then 29 else 31)
    case 36 => if c == '-' then (Skip, 42) else (Fail("INVALID_COMMENT_DECLARATION"), 36)
    case 37 => if c == 'C' then (Skip, 43) else (Fail("INVALID_CDATA_DECLARATION"), 37)
    case 38 => (Skip, if c == '>' then 29 else 38)
    case 39 =>
      if Blank(c) then (Skip, 58) else if c == '>' then (CloseElement, 29) else if c == '/' then (Skip, 59)
      else (GrowTag, 39)
    case 40 =>
      if Blank(c) then (Skip, 40) else if c == '/' then (Skip, 41) else if c == '>' then (OpenElement, 29)
      else (BeginAttribute, 44)
    case 41 => if c == '>' then (EmptyElement, 29) else (Fail("INVALID_TAG_ENDING"), 41)
    case 42 => (Skip, if c == '-' then 45 else 42)
    case _ => (Skip, state)
  }

  /** Inside the root: attributes, CDATA sections and the tails of end tags. */
  function LateTransition(state: nat, c: char): (Action, nat) {
    match state
    case 43 => if c == 'D' then (Skip, 46) else (Fail("INVALID_CDATA_DECLARATION"), 43)
    case 44 => if Blank(c) then (Skip, 47) else if c == '=' then (Skip, 48) else (GrowAttribute, 44)
    case 45 => (Skip, if c == '-' then 49 else 42)
    case 46 => if c == 'A' then (Skip, 50) else (Fail("INVALID_CDATA_DECLARATION"), 46)
    case 47 =>
      if Blank(c) then (Skip, 47) else if c == '=' then (Skip, 48) else (Fail("INVALID_ATTRIBUTE_DEFINITION"), 47)
    case 48 =>
      if Blank(c) then (Skip, 48) else if c == '\'' then (BeginValue, 51) else if c == '\"' then (BeginValue, 52)
      else (Fail("INVALID_ATTRIBUTE_VALUE_DEFINITION"), 48)
    case 49 => (Skip, if c == '>' then 29 else 42)
    case 50 => if c == 'T' then (Skip, 53) else (Fail("INVALID_CDATA_DECLARATION"), 50)
    case 51 =>
      if c == '\'' then (EndAttribute, 40) else if c == '<' then (Fail("INVALID_ATTRIBUTE_VALUE_DEFINITION"), 51)
      else (GrowValue, 51)
    case 52 =>
      if c == '\"' then (EndAttribute, 40) else if c == '<' then (Fail("INVALID_ATTRIBUTE_VALUE_DEFINITION"), 52)
      else (GrowValue, 52)
    case 53 => if c == 'A' then (Skip, 54) else (Fail("INVALID_CDATA_DECLARATION"), 53)
    case 54 => if c == '[' then (Skip, 55) else (Fail("INVALID_CDATA_DECLARATION"), 54)
    case 55 => if c == ']' then (Skip, 56) else (GrowCdata(""), 55)
    case 56 => if c == ']' then (Skip, 57) else (GrowCdata("]"), 55)
    case 57 => if c == '>' then (EndCdata, 29) else (GrowCdata("]]"), 55)
    case 58 => if Blank(c) then (Skip, 58) else if c == '>' then (CloseElement, 29)
      else (Fail("INVALID_TAG_DECLARATION"), 58)
    case 59 => if c == '>' then (CloseElement, 29) else (Fail("INVALID_TAG_ENDING"), 59)
    case _ => (Skip, state)
  }

  // ----- what the actions do -------------------------------------------------------------

  function Bind(frames: seq<Frame>, prefix: string, value: string): seq<Frame> {
    if frames == [] then []
    else frames[..|frames| - 1] + [frames[|frames| - 1][prefix := value]]
  }

  /** A finished attribute is recorded, and binds a prefix if it declares one. Declarations
      that would rebind the reserved namespaces are dropped. */
  function AddAttribute(p: Parser, name: string, value: string): (Parser, Option<string>) {
    if DeclaresPrefix(name) then
      var prefix := DeclaredPrefix(name);
      if prefix == "xmlns" then (p, Some("INVALID_NAMESPACE_NAME"))
      else if value == Lookup(p.frames, "xmlns") || (prefix == "xml" && value != Lookup(p.frames, "xml")) then (p, None)
      else
        (p.(frames := Bind(p.frames, prefix, value), attributes := p.attributes + [(name, value)]), None)
    else
      (p.(attributes := p.attributes + [(name, value)]), None)
  }

  /** A start tag that is complete. */
  function Opened(p: Parser): Event {
    var name := ResolveTag(p.frames, p.tagName);
    StartElement(name.ns, name.local, p.tagName, ResolveAttributes(p.frames, p.attributes))
  }

  function Closed(p: Parser): Event {
    var name := ResolveTag(p.frames, p.tagName);
    EndElement(name.ns, name.local, p.tagName)
  }

  const MISMATCH: string := "CLOSING_TAG_NOT_MATCH"
  /** Popping from the empty stack is a fault of the host language. */
  const UNDERFLOW: string := "TypeError"

  /** An end tag must resolve to the name of the innermost open tag. */
  function Close(p: Parser, next: nat): Reaction {
    if p.tags == [] then Reaction(p, [], Some(UNDERFLOW))
    else
      var last, rest := p.tags[|p.tags| - 1], Outer(p.tags);
      if last != ResolveTag(p.frames, p.tagName) then Reaction(p.(tags := rest), [], Some(MISMATCH))
      else
        var p' := p.(tags := rest, frames := Outer(p.frames));
        if rest == [] then Reaction(p'.(state := 11), [Closed(p), EndDocument], None)
        else Reaction(p'.(state := next), [Closed(p)], None)
  }

  function Perform(p: Parser, action: Action, next: nat, c: char): Reaction {
    match action
    case Skip => Reaction(p.(state := next), [], None)
    case Fail(code) => Reaction(p, [], Some(code))
    case BeginDocument => Reaction(p.(state := next), [StartDocument], None)
    case BeginTag =>
      Reaction(p.(state := next, tagName := [c], attributes := [], frames := p.frames + [map[]]), [], None)
    case GrowTag => Reaction(p.(state := next, tagName := p.tagName + [c]), [], None)
    case BeginAttribute => Reaction(p.(state := next, attrName := [c]), [], None)
    case GrowAttribute => Reaction(p.(state := next, attrName := p.attrName + [c]), [], None)
    case BeginValue => Reaction(p.(state := next, attrValue := ""), [], None)
    case GrowValue => Reaction(p.(state := next, attrValue := p.attrValue + [c]), [], None)
    case EndAttribute =>
      var (p', error) := AddAttribute(p, p.attrName, XmlUnescape(p.attrValue));
      if error.Some? then Reaction(p', [], error) else Reaction(p'.(state := next), [], None)
    case OpenElement =>
      Reaction(p.(state := next, tags := p.tags + [ResolveTag(p.frames, p.tagName)]), [Opened(p)], None)
    case EmptyElement => Reaction(p.(state := next, frames := Outer(p.frames)), [Opened(p), Closed(p)], None)
    case EmptyRoot => Reaction(p.(state := next, frames := Outer(p.frames)), [Opened(p), Closed(p), EndDocument], None)
    case BeginName => Reaction(p.(state := next, tagName := [c]), [], None)
    case CloseElement => Close(p, next)
    case GrowData => Reaction(p.(state := next, data := p.data + [c]), [], None)
    case EndData => Reaction(p.(state := next, data := ""), Say(XmlUnescape(p.data)), None)
    case GrowCdata(held) => Reaction(p.(state := next, cdata := p.cdata + held + [c]), [], None)
    case EndCdata => Reaction(p.(state := next, cdata := ""), Say(p.cdata), None)
  }

  function Step(p: Parser, c: char): Reaction {
    var (action, next) := Transition(p.state, c);
    Perform(p, action, next, c)
  }

  /** The characters of a chunk in turn, up to the first error. */
  function Run(p: Parser, s: string): Reaction
    decreases |s|
  {
    if s == "" then Reaction(p, [], None)
    else
      var r := Step(p, s[0]);
      if r.stopped.Some? then r
      else
        var t := Run(r.p, s[1..]);
        Reaction(t.p, r.events + t.events, t.stopped)
  }

  function Then(r: Reaction, t: Reaction): Reaction {
    if r.stopped.Some? then r else Reaction(t.p, r.events + t.events, t.stopped)
  }

  /** A run over two texts is a run over the first, then over the second. */
  lemma {:induction false} RunConcat(p: Parser, a: string, b: string)
    ensures Run(p, a + b) == Then(Run(p, a), Run(Run(p, a).p, b))
    decreases |a|
  {
    hide Step;
    if a == "" {
      assert a + b == b;
    } else {
      var r := Step(p, a[0]);
      assert (a + b)[1..] == a[1..] + b;
      if r.stopped.None? {
        RunConcat(r.p, a[1..], b);
        var t := Run(r.p, a[1..]);
        var u := Run(t.p, b);
        assert r.events + (t.events + u.events) == (r.events + t.events) + u.events;
      }
    }
  }

  lemma {:induction false} RunOne(p: Parser, c: char)
    ensures Run(p, [c]) == Step(p, c)
  {
    hide Step;
    assert [c][1..] == "";
    var r := Step(p, c);
    assert r.events + [] == r.events;
  }

  /** One more character: the run stops there, or goes on. */
  lemma {:induction false} RunStep(p: Parser, s: string, i: nat)
    requires i < |s| && Run(p, s[..i]).stopped.None?
    ensures var r := Run(p, s[..i]);
            var t := Step(r.p, s[i]);
            && Run(p, s[..i + 1]) == Then(r, t)
            && (t.stopped.Some? ==> Run(p, s) == Then(r, t))
  {
    hide Step;
    var r := Run(p, s[..i]);
    RunConcat(p, s[..i], [s[i]]);
    RunOne(r.p, s[i]);
    assert s[..i + 1] == s[..i] + [s[i]];
    RunConcat(p, s[..i + 1], s[i + 1..]);
    assert s == s[..i + 1] + s[i + 1..];
  }

  /** At the end of a chunk the text so far is handed over. */
  function Flush(p: Parser): Reaction {
    Reaction(p.(data := "", cdata := ""), Say(XmlUnescape(p.data)) + Say(p.cdata), None)
  }

  /** One chunk; an error drops what is left of it. */
  function Feed(p: Parser, chunk: string): Reaction {
    var r := Run(p, chunk);
    if r.stopped.Some? then r
    else
      var f := Flush(r.p);
      Reaction(f.p, r.events + f.events, None)
  }

  // ----- the parser object -----------------------------------------------------------------

  class OTXMLParser {
    const handler: SocketHandler
    var state: nat
    var data: string
    var cdata: string
    var tagName: string
    var attrName: string
    var attrValue: string
    var attributes: seq<(string, string)>
    var tags: seq<Name>
    var frames: seq<Frame>

    constructor (handler: SocketHandler)
      ensures this.handler == handler
      ensures Value() == START
    {
      this.handler := handler;
      state, data, cdata, tagName, attrName, attrValue := 11, "", "", "", "", "";
      attributes, tags, frames := [], [], [BASE_FRAME];
    }

    ghost function Value(): (p: Parser)
      reads this
    {
      Parser(state, data, cdata, tagName, attrName, attrValue, attributes, tags, frames)
    }

    /** A reaction has left the parser as it is, and the handler has heard its calls. */
    ghost predicate Reached(before: Forest, r: Reaction)
      reads this, handler
    {
      Value() == r.p && handler.Trees() == HandleAll(before, r.events)
    }

    method OnAttribute(name: string, value: string) returns (stop: Option<string>)
      modifies this
      ensures (Value(), stop) == AddAttribute(old(Value()), name, value)
    {
      stop := None;
      if DeclaresPrefix(name) {
        var prefix := DeclaredPrefix(name);
        if prefix == "xmlns" {
          return Some("INVALID_NAMESPACE_NAME");
        } else if value == Lookup(frames, "xmlns") || (prefix == "xml" && value != Lookup(frames, "xml")) {
          return;
        }
        frames := Bind(frames, prefix, value);
      }
      attributes := attributes + [(name, value)];
    }

    method OnStartTag()
      modifies this
      ensures Value() == old(Value()).(attributes := [], frames := old(frames) + [map[]])
    {
      attributes := [];
      frames := frames + [map[]];
    }

    method OnStartElement()
      modifies this, handler
      ensures Value() == old(Value()).(tags := old(tags) + [ResolveTag(old(frames), old(tagName))])
      ensures handler.Trees() == Handle(old(handler.Trees()), old(Opened(Value())))
    {
      var name := ResolveTag(frames, tagName);
      var resolved := ResolveAttributes(frames, attributes);
      tags := tags + [name];
      handler.OnStartElement(name.ns, name.local, tagName, resolved);
    }

    method OnEndElement() returns (stop: Option<string>)
      modifies this, handler
      ensures var r := old(Close(Value(), 29));
              && stop == r.stopped
              && Value() == r.p.(state := old(state))
              && handler.Trees() == (if stop.Some? then old(handler.Trees())
                                     else Handle(old(handler.Trees()), old(Closed(Value()))))
    {
      var name := ResolveTag(frames, tagName);
      if tags == [] {
        return Some(UNDERFLOW);
      }
      var last := tags[|tags| - 1];
      tags := tags[..|tags| - 1];
      if last.ns != name.ns || last.local != name.local {
        return Some(MISMATCH);
      }
      frames := Outer(frames);
      handler.OnEndElement(name.ns, name.local, tagName);
      stop := None;
    }

    method OnStartEndElement()
      modifies this, handler
      ensures Value() == old(Value()).(frames := Outer(old(frames)))
      ensures handler.Trees() == Handle(Handle(old(handler.Trees()), old(Opened(Value()))), old(Closed(Value())))
    {
      var name := ResolveTag(frames, tagName);
      var resolved := ResolveAttributes(frames, attributes);
      frames := Outer(frames);
      handler.OnStartElement(name.ns, name.local, tagName, resolved);
      handler.OnEndElement(name.ns, name.local, tagName);
    }

    /** The end of an end tag. */
    method FinishEndTag() returns (stop: Option<string>)
      modifies this, handler
      ensures var r := old(Close(Value(), 29));
              stop == r.stopped && Reached(old(handler.Trees()), r)
    {
      ghost var p, before := Value(), handler.Trees();
      stop := OnEndElement();
      if stop.Some? {
        return;
      }
      HandleAllOne(before, Closed(p));
      if |tags| == 0 {
        state := 11;
        HandleAllTwo(before, Closed(p), EndDocument);
      } else {
        state := 29;
      }
    }

    /** A start tag is complete; its element stays open. */
    method FinishStartTag()
      modifies this, handler
      ensures Reached(old(handler.Trees()), old(Perform(Value(), OpenElement, 29, '>')))
    {
      HandleAllOne(handler.Trees(), Opened(Value()));
      OnStartElement();
      state := 29;
    }

    /** An empty-element tag is complete; the document ends with it if it is the root. */
    method FinishEmptyTag(root: bool)
      modifies this, handler
      ensures Reached(old(handler.Trees()),
                      old(Perform(Value(), if root then EmptyRoot else EmptyElement, if root then 11 else 29, '>')))
    {
      ghost var p, before := Value(), handler.Trees();
      HandleAllTwo(before, Opened(p), Closed(p));
      HandleAllConcat(before, [Opened(p), Closed(p)], [EndDocument]);
      HandleAllOne(Handle(Handle(before, Opened(p)), Closed(p)), EndDocument);
      assert [Opened(p), Closed(p)] + [EndDocument] == [Opened(p), Closed(p), EndDocument];
      OnStartEndElement();
      state := if root then 11 else 29;
    }

    method FinishAttribute(next: nat) returns (stop: Option<string>)
      modifies this, handler
      ensures var r := old(Perform(Value(), EndAttribute, next, '='));
              stop == r.stopped && Reached(old(handler.Trees()), r)
    {
      stop := OnAttribute(attrName, XmlUnescape(attrValue));
      if stop.None? {
        state := next;
      }
    }

    method SendData()
      modifies this, handler
      ensures Value() == old(Value()).(data := "")
      ensures handler.Trees() == HandleAll(old(handler.Trees()), Say(XmlUnescape(old(data))))
    {
      SayIsHeard(handler.Trees(), XmlUnescape(data));
      UnescapeIsDecode(data);
      DecodeNonempty(data);
      if |data| > 0 {
        handler.OnCharacters(XmlUnescape(data));
        data := "";
      }
    }

    method SendCdata()
      modifies this, handler
      ensures Value() == old(Value()).(cdata := "")
      ensures handler.Trees() == HandleAll(old(handler.Trees()), Say(old(cdata)))
    {
      SayIsHeard(handler.Trees(), cdata);
      if |cdata| > 0 {
        handler.OnCharacters(cdata);
      }
      cdata := "";
    }

    /** One character, by the state. */
    method Consume(ch: char) returns (stop: Option<string>)
      modifies this, handler
      ensures var r := old(Step(Value(), ch));
              stop == r.stopped && Reached(old(handler.Trees()), r)
    {
      hide Step, Handle;
      if state < 15 {
        stop := ConsumeProlog(ch);
      } else if state < 19 {
        stop := ConsumeRootName(ch);
      } else if state < 22 {
        stop := ConsumeRootTag(ch);
      } else if state < 26 {
        stop := ConsumeRootAttribute(ch);
      } else if state < 29 {
        stop := ConsumeRootValue(ch);
      } else if state < 32 {
        stop := ConsumeText(ch);
      } else if state < 36 {
        stop := ConsumeMarkup(ch);
      } else if state < 40 {
        stop := ConsumeDeclaration(ch);
      } else if state < 43 {
        stop := ConsumeTag(ch);
      } else if state < 47 {
        stop := ConsumeKeyword(ch);
      } else if state < 51 {
        stop := ConsumeAttribute(ch);
      } else if state < 55 {
        stop := ConsumeValue(ch);
      } else if state < 58 {
        stop := ConsumeCdata(ch);
      } else {
        stop := ConsumeEndTag(ch);
      }
    }

    method ConsumeProlog(ch: char) returns (stop: Option<string>)
      requires state < 15
      modifies this, handler
      ensures var r := old(Step(Value(), ch));
              stop == r.stopped && Reached(old(handler.Trees()), r)
    {
      hide AddAttribute, Close, Opened, Closed, XmlUnescape, Lookup, LastColon;
      hide ContentTransition, LateTransition;
      stop := None;
      match state {
        case 11 =>
          if Blank(ch) {
          } else if ch == '<' {
            HandleAllOne(handler.Trees(), StartDocument);
            state := 12;
          } else {
            stop := Some("INVALID_FORMAT");
          }
        case 12 =>
          if Blank(ch) {
            stop := Some("INVALID_TAG_NAME");
          } else if ch == '?' {
            state := 13;
          } else if ch == '!' {
            state := 14;
          } else if ch == '/' {
            stop := Some("CLOSING_UNOPENED_TAG");
          } else {
            OnStartTag();
            tagName := [ch];
            state := 15;
          }
        case 13 =>
          if ch == '?' {
            state := 16;
          }
        case 14 =>
          if ch == '-' {
            state := 17;
          }
        case _ =>
      }
    }

    method ConsumeRootName(ch: char) returns (stop: Option<string>)
      requires 15 <= state < 19
      modifies this, handler
      ensures var r := old(Step(Value(), ch));
              stop == r.stopped && Reached(old(handler.Trees()), r)
    {
      hide AddAttribute, Close, Opened, Closed, XmlUnescape, Lookup, LastColon;
      hide ContentTransition, LateTransition;
      stop := None;
      match state {
        case 15 =>
          if Blank(ch) {
            state := 19;
          } else if ch == '/' {
            state := 21;
          } else if ch == '>' {
            FinishStartTag();
          } else {
            tagName := tagName + [ch];
          }
        case 16 =>
          state := if ch == '>' then 11 else 13;
        case 17 =>
          if ch == '-' {
            state := 20;
          } else {
            stop := Some("INVALID_COMMENT_DECLARATION");
          }
        case 18 =>
          if ch == '>' {
            state := 11;
          }
      }
    }

    method ConsumeRootTag(ch: char) returns (stop: Option<string>)
      requires 19 <= state < 22
      modifies this, handler
      ensures var r := old(Step(Value(), ch));
              stop == r.stopped && Reached(old(handler.Trees()), r)
    {
      hide AddAttribute, Close, Opened, Closed, XmlUnescape, Lookup, LastColon;
      hide ContentTransition, LateTransition;
      stop := None;
      match state {
        case 19 =>
          if Blank(ch) {
          } else if ch == '/' {
            state := 21;
          } else if ch == '>' {
            FinishStartTag();
          } else {
            attrName := [ch];
            state := 22;
          }
        case 20 =>
          if ch == '-' {
            state := 23;
          }
        case 21 =>
          if ch != '>' {
            stop := Some("INVALID_TAG_ENDING");
          } else {
            FinishEmptyTag(true);
          }
      }
    }

    method ConsumeRootAttribute(ch: char) returns (stop: Option<string>)
      requires 22 <= state < 26
      modifies this, handler
      ensures var r := old(Step(Value(), ch));
              stop == r.stopped && Reached(old(handler.Trees()), r)
    {
      hide AddAttribute, Close, Opened, Closed, XmlUnescape, Lookup, LastColon;
      hide ContentTransition, LateTransition;
      stop := None;
      match state {
        case 22 =>
          if Blank(ch) {
            state := 24;
          } else if ch == '=' {
            state := 25;
          } else {
            attrName := attrName + [ch];
          }
        case 23 =>
          state := if ch == '-' then 26 else 20;
        case 24 =>
          if Blank(ch) {
          } else if ch == '=' {
            state := 25;
          } else {
            stop := Some("INVALID_ATTRIBUTE_DEFINITION");
          }
        case 25 =>
          if Blank(ch) {
          } else if ch == '\'' {
            state := 27;
            attrValue := "";
          } else if ch == '\"' {
            state := 28;
            attrValue := "";
          } else {
            stop := Some("INVALID_ATTRIBUTE_DEFINITION");
          }
      }
    }

    method ConsumeRootValue(ch: char) returns (stop: Option<string>)
      requires 26 <= state < 29
      modifies this, handler
      ensures var r := old(Step(Value(), ch));
              stop == r.stopped && Reached(old(handler.Trees()), r)
    {
      hide AddAttribute, Close, Opened, Closed, XmlUnescape, Lookup, LastColon;
      hide ContentTransition, LateTransition;
      stop := None;
      match state {
        case 26 =>
          state := if ch == '>' then 11 else 20;
        case 27 =>
          if ch == '\'' {
            stop := FinishAttribute(19);
          } else if ch == '<' {
            stop := Some("INVALID_ATTRIBUTE_VALUE_DEFINITION");
          } else {
            attrValue := attrValue + [ch];
          }
        case 28 =>
          if ch == '\"' {
            stop := FinishAttribute(19);
          } else if ch == '<' {
            stop := Some("INVALID_ATTRIBUTE_VALUE_DEFINITION");
          } else {
            attrValue := attrValue + [ch];
          }
      }
    }

    method ConsumeText(ch: char) returns (stop: Option<string>)
      requires 29 <= state < 32
      modifies this, handler
      ensures var r := old(Step(Value(), ch));
              stop == r.stopped && Reached(old(handler.Trees()), r)
    {
      hide AddAttribute, Close, Opened, Closed, XmlUnescape, Lookup, LastColon;
      hide Handle, PrologTransition, LateTransition;
      stop := None;
      match state {
        case 29 =>
          if ch == '<' {
            SendData();
            state := 30;
          } else {
            data := data + [ch];
          }
        case 30 =>
          if Blank(ch) {
            stop := Some("INVALID_TAG_NAME");
          } else if ch == '?' {
            state := 31;
          } else if ch == '!' {
            state := 32;
          } else if ch == '/' {
            state := 33;
          } else {
            OnStartTag();
            tagName := [ch];
            state := 34;
          }
        case 31 =>
          if ch == '?' {
            state := 35;
          }
      }
    }

    method ConsumeMarkup(ch: char) returns (stop: Option<string>)
      requires 32 <= state < 36
      modifies this, handler
      ensures var r := old(Step(Value(), ch));
              stop == r.stopped && Reached(old(handler.Trees()), r)
    {
      hide AddAttribute, Close, Opened, Closed, XmlUnescape, Lookup, LastColon;
      hide Handle, PrologTransition, LateTransition;
      stop := None;
      match state {
        case 32 =>
          if Blank(ch) {
            stop := Some("INVALID_DOCTYPE_DECLARATION");
          } else if ch == '-' {
            state := 36;
          } else if ch == '[' {
            state := 37;
          } else {
            tagName := [ch];
            state := 38;
          }
        case 33 =>
          if Blank(ch) {
            stop := Some("INVALID_TAG_NAME");
          } else {
            tagName := [ch];
            state := 39;
          }
        case 34 =>
          if Blank(ch) {
            state := 40;
          } else if ch == '/' {
            state := 41;
          } else if ch == '>' {
            FinishStartTag();
          } else {
            tagName := tagName + [ch];
          }
        case 35 =>
          state := if ch == '>' then 29 else 31;
      }
    }

    method ConsumeDeclaration(ch: char) returns (stop: Option<string>)
      requires 36 <= state < 40
      modifies this, handler
      ensures var r := old(Step(Value(), ch));
              stop == r.stopped && Reached(old(handler.Trees()), r)
    {
      hide AddAttribute, Close, Opened, Closed, XmlUnescape, Lookup, LastColon;
      hide Handle, PrologTransition, LateTransition;
      stop := None;
      match state {
        case 36 =>
          if ch == '-' {
            state := 42;
          } else {
            stop := Some("INVALID_COMMENT_DECLARATION");
          }
        case 37 =>
          if ch != 'C' {
            stop := Some("INVALID_CDATA_DECLARATION");
          } else {
            state := 43;
          }
        case 38 =>
          if ch == '>' {
            state := 29;
          }
        case 39 =>
          if Blank(ch) {
            state := 58;
          } else if ch == '>' {
            stop := FinishEndTag();
          } else if ch == '/' {
            state := 59;
          } else {
            tagName := tagName + [ch];
          }
      }
    }

    method ConsumeTag(ch: char) returns (stop: Option<string>)
      requires 40 <= state < 43
      modifies this, handler
      ensures var r := old(Step(Value(), ch));
              stop == r.stopped && Reached(old(handler.Trees()), r)
    {
      hide AddAttribute, Close, Opened, Closed, XmlUnescape, Lookup, LastColon;
      hide Handle, PrologTransition, LateTransition;
      stop := None;
      match state {
        case 40 =>
          if Blank(ch) {
          } else if ch == '/' {
            state := 41;
          } else if ch == '>' {
            FinishStartTag();
          } else {
            attrName := [ch];
            state := 44;
          }
        case 41 =>
          if ch != '>' {
            stop := Some("INVALID_TAG_ENDING");
          } else {
            FinishEmptyTag(false);
          }
        case 42 =>
          if ch == '-' {
            state := 45;
          }
      }
    }

    method ConsumeKeyword(ch: char) returns (stop: Option<string>)
      requires 43 <= state < 47
      modifies this, handler
      ensures var r := old(Step(Value(), ch));
              stop == r.stopped && Reached(old(handler.Trees()), r)
    {
      hide AddAttribute, Close, Opened, Closed, XmlUnescape, Lookup, LastColon;
      hide Handle, PrologTransition, ContentTransition;
      stop := None;
      match state {
        case 43 =>
          if ch != 'D' {
            stop := Some("INVALID_CDATA_DECLARATION");
          } else {
            state := 46;
          }
        case 44 =>
          if Blank(ch) {
            state := 47;
          } else if ch == '=' {
            state := 48;
          } else {
            attrName := attrName + [ch];
          }
        case 45 =>
          state := if ch == '-' then 49 else 42;
        case 46 =>
          if ch != 'A' {
            stop := Some("INVALID_CDATA_DECLARATION");
          } else {
            state := 50;
          }
      }
    }

    method ConsumeAttribute(ch: char) returns (stop: Option<string>)
      requires 47 <= state < 51
      modifies this, handler
      ensures var r := old(Step(Value(), ch));
              stop == r.stopped && Reached(old(handler.Trees()), r)
    {
      hide AddAttribute, Close, Opened, Closed, XmlUnescape, Lookup, LastColon;
      hide Handle, PrologTransition, ContentTransition;
      stop := None;
      match state {
        case 47 =>
          if Blank(ch) {
          } else if ch == '=' {
            state := 48;
          } else {
            stop := Some("INVALID_ATTRIBUTE_DEFINITION");
          }
        case 48 =>
          if Blank(ch) {
          } else if ch == '\'' {
            state := 51;
            attrValue := "";
          } else if ch == '\"' {
            state := 52;
            attrValue := "";
          } else {
            stop := Some("INVALID_ATTRIBUTE_VALUE_DEFINITION");
          }
        case 49 =>
          state := if ch == '>' then 29 else 42;
        case 50 =>
          if ch != 'T' {
            stop := Some("INVALID_CDATA_DECLARATION");
          } else {
            state := 53;
          }
      }
    }

    method ConsumeValue(ch: char) returns (stop: Option<string>)
      requires 51 <= state < 55
      modifies this, handler
      ensures var r := old(Step(Value(), ch));
              stop == r.stopped && Reached(old(handler.Trees()), r)
    {
      hide AddAttribute, Close, Opened, Closed, XmlUnescape, Lookup, LastColon;
      hide Handle, PrologTransition, ContentTransition;
      stop := None;
      match state {
        case 51 =>
          if ch == '\'' {
            stop := FinishAttribute(40);
          } else if ch == '<' {
            stop := Some("INVALID_ATTRIBUTE_VALUE_DEFINITION");
          } else {
            attrValue := attrValue + [ch];
          }
        case 52 =>
          if ch == '\"' {
            stop := FinishAttribute(40);
          } else if ch == '<' {
            stop := Some("INVALID_ATTRIBUTE_VALUE_DEFINITION");
          } else {
            attrValue := attrValue + [ch];
          }
        case 53 =>
          if ch != 'A' {
            stop := Some("INVALID_CDATA_DECLARATION");
          } else {
            state := 54;
          }
        case 54 =>
          if ch != '[' {
            stop := Some("INVALID_CDATA_DECLARATION");
          } else {
            state := 55;
          }
      }
    }

    method ConsumeCdata(ch: char) returns (stop: Option<string>)
      requires 55 <= state < 58
      modifies this, handler
      ensures var r := old(Step(Value(), ch));
              stop == r.stopped && Reached(old(handler.Trees()), r)
    {
      hide AddAttribute, Close, Opened, Closed, XmlUnescape, Lookup, LastColon;
      hide Handle, PrologTransition, ContentTransition;
      stop := None;
      match state {
        case 55 =>
          if ch != ']' {
            cdata := cdata + [ch];
          } else {
            state := 56;
          }
        case 56 =>
          if ch != ']' {
            cdata := cdata + "]" + [ch];
            state := 55;
          } else {
            state := 57;
          }
        case 57 =>
          if ch != '>' {
            cdata := cdata + "]]" + [ch];
            state := 55;
          } else {
            SendCdata();
            state := 29;
          }
      }
    }

    method ConsumeEndTag(ch: char) returns (stop: Option<string>)
      requires state >= 58
      modifies this, handler
      ensures var r := old(Step(Value(), ch));
              stop == r.stopped && Reached(old(handler.Trees()), r)
    {
      hide AddAttribute, Close, Opened, Closed, XmlUnescape, Lookup, LastColon;
      hide Handle, PrologTransition, ContentTransition;
      stop := None;
      match state {
        case 58 =>
          if Blank(ch) {
          } else if ch == '>' {
            stop := FinishEndTag();
          } else {
            stop := Some("INVALID_TAG_DECLARATION");
          }
        case 59 =>
          if ch != '>' {
            stop := Some("INVALID_TAG_ENDING");
          } else {
            stop := FinishEndTag();
          }
        case _ =>
      }
    }

    /** One chunk of decoded text, as it comes off the socket. */
    method Parse(chunk: string) returns (stop: Option<string>)
      modifies this, handler
      ensures var r := old(Feed(Value(), chunk));
              stop == r.stopped && Reached(old(handler.Trees()), r)
    {
      ghost var p, before := Value(), handler.Trees();
      var i := 0;
      stop := None;
      while i < |chunk|
        invariant 0 <= i <= |chunk|
        invariant stop.None?
        invariant var r := Run(p, chunk[..i]);
                  r.stopped.None? && Reached(before, r)
      {
        ghost var r, rest := Run(p, chunk[..i]), Step(Value(), chunk[i]);
        RunStep(p, chunk, i);
        HandleAllConcat(before, r.events, rest.events);
        stop := Consume(chunk[i]);
        if stop.Some? {
          return;
        }
        i := i + 1;
      }
      assert chunk[..i] == chunk;
      ghost var r := Run(p, chunk);
      ghost var said, trees := Say(XmlUnescape(data)), handler.Trees();
      HandleAllConcat(trees, said, Say(cdata));
      HandleAllConcat(before, r.events, said + Say(cdata));
      SendData();
      SendCdata();
    }
  }
}
