/**
 The document builder behind the streaming parser: it turns handler calls into stanza
 trees and hands every finished top-level element to its listener.
 */
module StanzaBuilder {

  const STREAMS: string := "http://etherx.jabber.org/streams"

  /** An attribute as the parser resolved it. */
  datatype Attribute = Attribute(name: string, value: string, ns: string, local: string)

  datatype Node =
    | Element(ns: string, local: string, attributes: seq<Attribute>, children: seq<Node>)
    | Text(text: string)

  /** A call on the content handler. */
  datatype Event =
    | StartDocument
    | EndDocument
    | StartElement(ns: string, local: string, qname: string, attributes: seq<Attribute>)
    | EndElement(ns: string, local: string, qname: string)
    | Characters(text: string)

  /** The chain of elements from a stanza down to the current parent, each without its
      open child; the stream headers and the stanzas delivered. */
  datatype Forest = Forest(open: seq<Node>, headers: seq<Node>, stanzas: seq<Node>)

  predicate IsStreamHeader(ns: string, qname: string) {
    ns == STREAMS && qname == "stream:stream"
  }

  function AppendChild(parent: Node, child: Node): Node {
    match parent
    case Element(ns, local, attributes, children) => Element(ns, local, attributes, children + [child])
    case Text(_) => parent
  }

  /** Text extends a last child that is text already. */
  function AppendText(parent: Node, text: string): Node {
    match parent
    case Element(ns, local, attributes, children) =>
      if children != [] && children[|children| - 1].Text? then
        Element(ns, local, attributes, children[..|children| - 1] + [Text(children[|children| - 1].text + text)])
      else
        Element(ns, local, attributes, children + [Text(text)])
    case Text(_) => parent
  }

  /** What one call does to the trees. */
  function Handle(f: Forest, e: Event): Forest {
    match e
    case StartDocument => f
    case EndDocument => f
    case StartElement(ns, local, qname, attributes) =>
      var el := Element(ns, local, attributes, []);
      if IsStreamHeader(ns, qname) then f.(headers := f.headers + [el], open := [])
      else f.(open := f.open + [el])
    case EndElement(_, _, _) =>
      var n := |f.open|;
      if n == 0 then f
      else if n == 1 then f.(open := [], stanzas := f.stanzas + [f.open[0]])
      else f.(open := f.open[..n - 2] + [AppendChild(f.open[n - 2], f.open[n - 1])])
    case Characters(text) =>
      var n := |f.open|;
      if n == 0 then f else f.(open := f.open[..n - 1] + [AppendText(f.open[n - 1], text)])
  }

  function HandleAll(f: Forest, events: seq<Event>): Forest
    decreases |events|
  {
    if events == [] then f else HandleAll(Handle(f, events[0]), events[1..])
  }

  lemma {:induction false} HandleAllConcat(f: Forest, a: seq<Event>, b: seq<Event>)
    ensures HandleAll(f, a + b) == HandleAll(HandleAll(f, a), b)
    decreases |a|
  {
    if a == [] {
      assert a + b == b;
    } else {
      assert (a + b)[1..] == a[1..] + b;
      HandleAllConcat(Handle(f, a[0]), a[1..], b);
    }
  }

  lemma {:induction false} HandleAllOne(f: Forest, e: Event)
    ensures HandleAll(f, [e]) == Handle(f, e)
  {
    assert [e][1..] == [];
  }

  lemma {:induction false} HandleAllTwo(f: Forest, d: Event, e: Event)
    ensures HandleAll(f, [d, e]) == Handle(Handle(f, d), e)
  {
    assert [d, e][1..] == [e];
    HandleAllOne(Handle(f, d), e);
  }

  /** Text that may be empty, in which case the handler is not called. */
  function Say(text: string): seq<Event> {
    if text == "" then [] else [Characters(text)]
  }

  function Hear(f: Forest, text: string): Forest {
    if text == "" then f else Handle(f, Characters(text))
  }

  lemma {:induction false} SayIsHeard(f: Forest, text: string)
    ensures HandleAll(f, Say(text)) == Hear(f, text)
  {
    if text != "" {
      HandleAllOne(f, Characters(text));
    }
  }

  /** Adjacent texts coalesce: how text is divided over calls leaves no trace. */
  lemma {:induction false} TextCoalesces(f: Forest, a: string, b: string)
    ensures Hear(Hear(f, a), b) == Hear(f, a + b)
  {
    if a == "" {
      assert a + b == b;
    } else if b == "" {
      assert a + b == a;
    } else if f.open != [] {
      var n := |f.open|;
      var top := f.open[n - 1];
      AppendTextTwice(top, a, b);
      var once := Hear(f, a);
      assert once.open[..n - 1] == f.open[..n - 1];
      assert once.open[n - 1] == AppendText(top, a);
    }
  }

  lemma {:induction false} AppendTextTwice(parent: Node, a: string, b: string)
    ensures AppendText(AppendText(parent, a), b) == AppendText(parent, a + b)
  {
    if parent.Element? {
      var c, once := parent.children, AppendText(parent, a).children;
      var n := |once|;
      if c != [] && c[|c| - 1].Text? {
        assert once[..n - 1] == c[..|c| - 1];
        assert (c[|c| - 1].text + a) + b == c[|c| - 1].text + (a + b);
      } else {
        assert once[..n - 1] == c;
      }
    }
  }

  /** The handler object; parent is the last element of open. */
  class SocketHandler {
    var open: seq<Node>
    var headers: seq<Node>
    var stanzas: seq<Node>

    constructor ()
      ensures Trees() == Forest([], [], [])
    {
      open, headers, stanzas := [], [], [];
    }

    ghost function Trees(): (f: Forest)
      reads this
    {
      Forest(open, headers, stanzas)
    }

    method OnStartElement(ns: string, local: string, qname: string, attributes: seq<Attribute>)
      modifies this
      ensures Trees() == Handle(old(Trees()), StartElement(ns, local, qname, attributes))
    {
      var el := Element(ns, local, attributes, []);
      if IsStreamHeader(ns, qname) {
        headers := headers + [el];
        open := [];
      } else {
        open := open + [el];
      }
    }

    method OnEndElement(ns: string, local: string, qname: string)
      modifies this
      ensures Trees() == Handle(old(Trees()), EndElement(ns, local, qname))
    {
      if open != [] {
        var el := open[|open| - 1];
        open := open[..|open| - 1];
        if open == [] {
          stanzas := stanzas + [el];
        } else {
          var n := |open|;
          open := open[..n - 1] + [AppendChild(open[n - 1], el)];
        }
      }
    }

    method OnCharacters(text: string)
      modifies this
      ensures Trees() == Handle(old(Trees()), Characters(text))
    {
      if open == [] {
        return;
      }
      var n := |open|;
      open := open[..n - 1] + [AppendText(open[n - 1], text)];
    }
  }
}
