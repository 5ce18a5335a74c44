/**
 XML as it may be written: attributes in either quote and with blanks around their parts,
 empty elements in both forms, CDATA sections, comments, processing instructions and
 declarations; and what it means as a stanza.
 */
module XmlMarkup {

  import opened Options
  import opened XmlText
  import opened StanzaBuilder
  import opened XmlParser

  /** An attribute as it is written: the blanks before it, its name, the blanks on both sides
      of the equals sign, the quote, and the value between the quotes with its references. */
  datatype Attr = Attr(gap: string, name: string, left: string, right: string, quote: char, raw: string)

  /** A piece of a document. A tag has blanks before its end, is written in the short form or
      not, and has a tail in its end tag. */
  datatype Markup =
    | Tag(qname: string, attributes: seq<Attr>, space: string, short: bool, children: seq<Markup>, tail: string)
    | Chars(raw: string)
    | Cdata(content: string)
    | Comment(body: string)
    | Instruction(body: string)
    | Declaration(body: string)

  const CDATA_HEAD: string := "![CDATA["

  // ----- writing ------------------------------------------------------------------------

  function RenderAttribute(a: Attr): string {
    a.gap + (a.name + (a.left + "=" + (a.right + ([a.quote] + (a.raw + [a.quote])))))
  }

  function RenderAttributes(attributes: seq<Attr>): string
    decreases |attributes|
  {
    if attributes == [] then "" else RenderAttribute(attributes[0]) + RenderAttributes(attributes[1..])
  }

  function Render(t: Markup): string {
    if t.Chars? then t.raw else "<" + Inside(t)
  }

  /** A start tag from its name up to its end. */
  function Head(t: Markup): string
    requires t.Tag?
  {
    t.qname + RenderAttributes(t.attributes) + t.space
  }

  /** A piece of markup after its first angle bracket. */
  function Inside(t: Markup): string
    requires !t.Chars?
    decreases t, 0
  {
    match t
    case Tag(qname, _, _, short, children, tail) =>
      if short then Head(t) + "/" + ">"
      else Head(t) + ">" + (RenderAll(children) + "<") + ("/" + qname + (tail + ">"))
    case Cdata(content) => CDATA_HEAD + (content + "]]>")
    case Comment(body) => "!--" + (body + "-->")
    case Instruction(body) => "?" + (body + "?>")
    case Declaration(body) => "!" + (body + ">")
  }

  function RenderAll(ts: seq<Markup>): string {
    if ts == [] then "" else Render(ts[0]) + RenderAll(ts[1..])
  }

  // ----- meaning -------------------------------------------------------------------------

  /** The attributes of a start tag one after the other, as far as they are accepted. */
  function Dress(p: Parser, attributes: seq<Attr>): (Parser, Option<string>)
    decreases |attributes|
  {
    if attributes == [] then (p, None)
    else
      var (q, error) := AddAttribute(p, attributes[0].name, XmlUnescape(attributes[0].raw));
      if error.Some? then (q, error) else Dress(q, attributes[1..])
  }

  /** A fresh start tag inside some frames. */
  function Bare(frames: seq<Frame>): Parser {
    START.(frames := frames + [map[]])
  }

  /** The frames that a tag's own name and its children see, and the attributes it keeps. */
  function Dressed(frames: seq<Frame>, t: Markup): Parser
    requires t.Tag?
  {
    Dress(Bare(frames), t.attributes).0
  }

  /** The element of a tag before it has children. */
  function Opening(frames: seq<Frame>, t: Markup): (n: Node)
    requires t.Tag?
    ensures n.Element? && n.children == []
  {
    var d := Dressed(frames, t);
    var name := ResolveTag(d.frames, t.qname);
    Element(name.ns, name.local, ResolveAttributes(d.frames, d.attributes), [])
  }

  function Meaning(frames: seq<Frame>, t: Markup): Node
    requires t.Tag?
    decreases t, 0
  {
    var n := Opening(frames, t);
    Element(n.ns, n.local, n.attributes, Content(Dressed(frames, t).frames, "", t.children))
  }

  /** What is said before an element or at the end, if anything. */
  function Spoken(said: string): seq<Node> {
    if said == "" then [] else [Text(said)]
  }

  /** The children of an element: its elements in order, and between them, as one text, all
      character data and CDATA content; other markup leaves no trace. */
  function Content(frames: seq<Frame>, said: string, ts: seq<Markup>): seq<Node>
    decreases ts
  {
    if ts == [] then Spoken(said)
    else
      match ts[0]
      case Chars(raw) => Content(frames, said + XmlUnescape(raw), ts[1..])
      case Cdata(content) => Content(frames, said + content, ts[1..])
      case Tag(_, _, _, _, _, _) => Spoken(said) + ([Meaning(frames, ts[0])] + Content(frames, "", ts[1..]))
      case _ => Content(frames, said, ts[1..])
  }

  /** The elements among some pieces. */
  function Elements(frames: seq<Frame>, ts: seq<Markup>): seq<Node> {
    if ts == [] then []
    else (if ts[0].Tag? then [Meaning(frames, ts[0])] else []) + Elements(frames, ts[1..])
  }

  // ----- what can be written --------------------------------------------------------------

  predicate Blanks(s: string) { forall c <- s :: Blank(c) }

  /** A character of a name. */
  predicate Plain(c: char) {
    !Blank(c) && c != '/' && c != '>' && c != '=' && c != '?' && c != '!'
  }

  predicate PlainName(name: string) {
    name != "" && forall c <- name :: Plain(c)
  }

  predicate WellWritten(a: Attr) {
    && Blanks(a.gap) && Blanks(a.left) && Blanks(a.right) && PlainName(a.name)
    && (a.quote == '\'' || a.quote == '\"') && a.quote !in a.raw && '<' !in a.raw
  }

  /** How many brackets at the end of a CDATA content are held back: every third one in a row
      is taken for content. */
  function Brackets(s: string): (n: nat)
    ensures n <= 2 && n <= |s|
  {
    if s == "" then 0
    else
      var n := |s| - 1;
      if s[n] == ']' then (if Brackets(s[..n]) == 2 then 0 else Brackets(s[..n]) + 1) else 0
  }

  /** The content holds what ends a section. */
  predicate HoldsEnd(s: string) {
    exists i :: 0 <= i < |s| && s[i] == '>' && Brackets(s[..i]) == 2
  }

  predicate NoDoubleDash(s: string) {
    && (forall i :: 0 <= i < |s| - 1 ==> !(s[i] == '-' && s[i + 1] == '-'))
    && (s != "" ==> s[|s| - 1] != '-')
  }

  predicate StartsDeclaration(c: char) { !Blank(c) && c != '-' && c != '[' }

  /** A start tag whose parts can be written and whose attributes are accepted. */
  predicate WritableHead(frames: seq<Frame>, t: Markup)
    requires t.Tag?
  {
    && PlainName(t.qname) && (forall a <- t.attributes :: WellWritten(a)) && Blanks(t.space)
    && (t.attributes != [] ==> t.attributes[0].gap != "")
    && Dress(Bare(frames), t.attributes).1.None?
  }

  /** Markup that can be written inside the root; a stream header is none of it. */
  predicate Writable(frames: seq<Frame>, t: Markup)
    decreases t
  {
    match t
    case Chars(raw) => '<' !in raw
    case Cdata(content) => !HoldsEnd(content) && Brackets(content) == 0
    case Comment(body) => NoDoubleDash(body)
    case Instruction(body) => '?' !in body
    case Declaration(body) => body != "" && StartsDeclaration(body[0]) && '>' !in body
    case Tag(qname, _, _, short, children, tail) =>
      && WritableHead(frames, t)
      && !IsStreamHeader(ResolveTag(Dressed(frames, t).frames, qname).ns, qname)
      && (short ==> children == []) && (Blanks(tail) || tail == "/")
      && WritableAll(Dressed(frames, t).frames, children)
  }

  /** No two pieces of character data stand side by side. */
  predicate WritableAll(frames: seq<Frame>, ts: seq<Markup>)
    decreases ts
  {
    ts == [] ||
    (Writable(frames, ts[0]) && WritableAll(frames, ts[1..]) && (|ts| >= 2 && ts[0].Chars? ==> !ts[1].Chars?))
  }

  // ----- every value can be written ---------------------------------------------------------

  lemma {:induction false} EscapedIsQuiet(s: string)
    ensures '<' !in XmlEscape(s) && '\'' !in XmlEscape(s) && '\"' !in XmlEscape(s)
  {
    EscapeIsEach(s);
    EachIsQuiet(s);
  }

  lemma {:induction false} EachIsQuiet(s: string)
    ensures '<' !in EscapeEach(s) && '\'' !in EscapeEach(s) && '\"' !in EscapeEach(s)
  {
    if s != "" {
      EachIsQuiet(s[1..]);
    }
  }

  /** Any value whatever, escaped, can stand in an attribute in either quote, and any text
      between tags; both mean what was escaped. */
  lemma {:induction false} EscapedCanBeWritten(name: string, value: string, quote: char, frames: seq<Frame>)
    requires PlainName(name) && (quote == '\'' || quote == '\"')
    ensures WellWritten(Attr(" ", name, "", "", quote, XmlEscape(value)))
    ensures Writable(frames, Chars(XmlEscape(value)))
    ensures XmlUnescape(XmlEscape(value)) == value
  {
    EscapedIsQuiet(value);
    EscapeRoundTrip(value);
  }
}
