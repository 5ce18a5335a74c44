/**
 What is written is read: from the first character of a stream over its header to its
 stanzas and its end, however the markup is written and however the text is cut.
 */
module XmlRoundTrip {

  import opened Options
  import opened Sequences
  import opened XmlText
  import opened StanzaBuilder
  import opened XmlParser
  import opened XmlSegmentation
  import opened XmlMarkup
  import opened XmlPieces
  import XmlNames

  // ----- reading and the trees --------------------------------------------------------------

  /** Between two tags inside the root, with nothing held back. */
  predicate Idle(p: Parser) {
    p.state == 29 && p.data == "" && p.cdata == "" && p.tags != []
  }

  /** Reading s takes the parser from p to q and the trees from f to g. */
  predicate Leads(p: Parser, f: Forest, s: string, q: Parser, g: Forest) {
    var r := Run(p, s);
    r.stopped.None? && r.p == q && HandleAll(f, r.events) == g
  }

  lemma {:induction false} LeadsOn(p: Parser, f: Forest, a: string, q: Parser, g: Forest, b: string, q': Parser,
                                   g': Forest)
    requires Leads(p, f, a, q, g) && Leads(q, g, b, q', g')
    ensures Leads(p, f, a + b, q', g')
  {
    RunConcat(p, a, b);
    HandleAllConcat(f, Run(p, a).events, Run(q, b).events);
  }

  lemma {:induction false} LeadsQuietly(p: Parser, f: Forest, a: string, q: Parser)
    requires Quiet(p, a, q)
    ensures Leads(p, f, a, q, f)
  {
  }

  lemma {:induction false} LeadsByOne(p: Parser, f: Forest, c: char, q: Parser, g: Forest)
    requires Step(p, c).stopped.None? && Step(p, c).p == q && HandleAll(f, Step(p, c).events) == g
    ensures Leads(p, f, [c], q, g)
  {
    RunOne(p, c);
  }

  /** A child that is complete goes to its parent; without one it is a stanza. */
  function Attach(f: Forest, node: Node): Forest {
    if f.open == [] then f.(stanzas := f.stanzas + [node])
    else f.(open := f.open[..|f.open| - 1] + [AppendChild(f.open[|f.open| - 1], node)])
  }

  function AttachAll(f: Forest, nodes: seq<Node>): Forest
    decreases |nodes|
  {
    if nodes == [] then f else AttachAll(Attach(f, nodes[0]), nodes[1..])
  }

  lemma {:induction false} AttachAllConcat(f: Forest, a: seq<Node>, b: seq<Node>)
    ensures AttachAll(f, a + b) == AttachAll(AttachAll(f, a), b)
    decreases |a|
  {
    hide Attach;
    if a == [] {
      assert a + b == b;
    } else {
      assert (a + b)[1..] == a[1..] + b;
      AttachAllConcat(Attach(f, a[0]), a[1..], b);
    }
  }

  lemma {:induction false} AttachAllExtends(f: Forest, nodes: seq<Node>)
    requires f.open != [] && f.open[|f.open| - 1].Element?
    ensures var n := |f.open| - 1;
            var top := f.open[n];
            AttachAll(f, nodes) == f.(open := f.open[..n] + [top.(children := top.children + nodes)])
    decreases |nodes|
  {
    var n := |f.open| - 1;
    var top := f.open[n];
    if nodes == [] {
      assert top.children + nodes == top.children;
      assert f.open[..n] + [top] == f.open;
    } else {
      var g := Attach(f, nodes[0]);
      assert g.open[..n] == f.open[..n] && g.open[n] == top.(children := top.children + [nodes[0]]);
      AttachAllExtends(g, nodes[1..]);
      assert (top.children + [nodes[0]]) + nodes[1..] == top.children + nodes;
    }
  }

  lemma {:induction false} ChildrenOf(f: Forest, node: Node, nodes: seq<Node>)
    requires node.Element? && node.children == []
    ensures AttachAll(f.(open := f.open + [node]), nodes) == f.(open := f.open + [node.(children := nodes)])
  {
    var g := f.(open := f.open + [node]);
    AttachAllExtends(g, nodes);
    assert g.open[..|f.open|] == f.open;
    assert [] + nodes == nodes;
  }

  /** The parent can take a text node of its own. */
  predicate TakesText(f: Forest) {
    && f.open != [] && f.open[|f.open| - 1].Element?
    && var c := f.open[|f.open| - 1].children; (c == [] || c[|c| - 1].Element?)
  }

  /** What is said becomes one text node. */
  lemma {:induction false} HearAttaches(f: Forest, said: string)
    requires TakesText(f)
    ensures Hear(f, said) == AttachAll(f, Spoken(said))
  {
    if said != "" {
      assert [Text(said)][1..] == [];
    }
  }

  lemma {:induction false} AttachedTakesText(f: Forest, said: string, node: Node)
    requires TakesText(f) && node.Element?
    ensures TakesText(Attach(Hear(f, said), node))
    ensures AttachAll(f, Spoken(said) + [node]) == Attach(Hear(f, said), node)
  {
    HearAttaches(f, said);
    AttachAllConcat(f, Spoken(said), [node]);
    assert [node][1..] == [];
  }

  // ----- tags -----------------------------------------------------------------------------------

  /** The handler call of a start tag that was read completely. */
  lemma {:induction false} OpenedIs(f: Forest, q: Parser, t: Markup, frames: seq<Frame>)
    requires t.Tag? && q.tagName == t.qname
    requires var d := Dressed(frames, t); q.frames == d.frames && q.attributes == d.attributes
    ensures var header := IsStreamHeader(ResolveTag(Dressed(frames, t).frames, t.qname).ns, t.qname);
            Handle(f, Opened(q))
            == if header then f.(headers := f.headers + [Opening(frames, t)], open := [])
               else f.(open := f.open + [Opening(frames, t)])
  {
    hide ResolveAttributes, Dressed;
  }

  lemma {:induction false} ClosedAttaches(f: Forest, q: Parser, node: Node)
    ensures Handle(f.(open := f.open + [node]), Closed(q)) == Attach(f, node)
  {
    assert (f.open + [node])[..|f.open| - 1 + 1] == f.open;
  }

  /** The calls depend on the frames, the tag's name and its attributes only. */
  lemma {:induction false} NamesAreBlind(p: Parser, q: Parser)
    requires p.frames == q.frames && p.tagName == q.tagName
    ensures Closed(p) == Closed(q) && (p.attributes == q.attributes ==> Opened(p) == Opened(q))
  {
  }

  /** The end of a start tag whose element stays open. */
  lemma {:induction false} EndOfStart(w: Place, p: Parser, f: Forest, g: Forest)
    requires (p.state == InName(w) || p.state == Between(w)) && Handle(f, Opened(p)) == g
    ensures Leads(p, f, ">", p.(state := 29, tags := p.tags + [ResolveTag(p.frames, p.tagName)]), g)
  {
    hide Opened, ResolveTag;
    HandleAllOne(f, Opened(p));
    LeadsByOne(p, f, '>', p.(state := 29, tags := p.tags + [ResolveTag(p.frames, p.tagName)]), g);
  }

  /** The end of an empty-element tag inside the root. */
  lemma {:induction false} EndOfEmpty(p: Parser, f: Forest, g: Forest)
    requires (p.state == InName(InRoot) || p.state == Between(InRoot))
    requires Handle(Handle(f, Opened(p)), Closed(p)) == g
    ensures Leads(p, f, "/" + ">", p.(state := 29, frames := Outer(p.frames)), g)
  {
    var q := p.(state := AfterSlash(InRoot));
    NamesAreBlind(p, q);
    hide Opened, Closed;
    LeadsByOne(p, f, '/', q, f);
    HandleAllTwo(f, Opened(p), Closed(p));
    LeadsByOne(q, f, '>', q.(state := 29, frames := Outer(p.frames)), g);
    LeadsOn(p, f, "/", q, f, ">", q.(state := 29, frames := Outer(p.frames)), g);
  }

  /** Where the end of an end tag leads: the root's end ends the document. */
  function Ended(p: Parser): Parser {
    p.(state := if |p.tags| == 1 then 11 else 29, tags := Outer(p.tags), frames := Outer(p.frames))
  }

  /** An end tag, after its angle bracket, with blanks or a slash behind its name. */
  lemma {:induction false} RunEndTag(p: Parser, f: Forest, name: string, tail: string, g: Forest)
    requires p.state == 30 && PlainName(name) && p.tags != [] && (Blanks(tail) || tail == "/")
    requires p.tags[|p.tags| - 1] == ResolveTag(p.frames, name)
    requires Handle(f, Closed(p.(tagName := name))) == g
    ensures Leads(p, f, "/" + name + (tail + ">"), Ended(p.(tagName := name)), g)
  {
    var p3 := p.(state := 39, tagName := name);
    assert Closed(p3) == Closed(p.(tagName := name)) by { NamesAreBlind(p3, p.(tagName := name)); }
    assert Closed(p3.(state := 30)) == Closed(p3) by { NamesAreBlind(p3.(state := 30), p3); }
    hide ResolveTag, Leads, Closed, Quiet;
    RunEndName(p, name);
    LeadsQuietly(p, f, "/" + name, p3);
    RunTail(p3, f, tail, g);
    LeadsOn(p, f, "/" + name, p3, f, tail + ">", Ended(p.(tagName := name)), g);
  }

  lemma {:induction false} RunEndName(p: Parser, name: string)
    requires p.state == 30 && PlainName(name)
    ensures Quiet(p, "/" + name, p.(state := 39, tagName := name))
  {
    assert name[0] in name && forall c <- name[1..] :: c in name;
    assert name == [name[0]] + name[1..];
    var p1, p2, p3 := p.(state := 33), p.(state := 39, tagName := [name[0]]), p.(state := 39, tagName := name);
    assert Step(p1, name[0]) == Reaction(p2, [], None);
    hide Step, Quiet;
    Skips(p, '/', p1);
    RunTagName(p2, name[1..]);
    QuietCons(p1, name[0], p2, name[1..], p3);
    QuietCons(p, '/', p1, name, p3);
  }

  lemma {:induction false} RunTail(p: Parser, f: Forest, tail: string, g: Forest)
    requires p.state == 39 && p.tags != [] && (Blanks(tail) || tail == "/")
    requires p.tags[|p.tags| - 1] == ResolveTag(p.frames, p.tagName)
    requires Handle(f, Closed(p.(state := 30))) == g
    ensures Leads(p, f, tail + ">", Ended(p), g)
  {
    assert Closed(p.(state := 30)) == Closed(p);
    hide Quiet, Leads, Closed;
    if tail == "" {
      assert tail + ">" == ">";
      EndOfEnd(p, f, g);
    } else {
      var q := p.(state := if tail == "/" then 59 else 58);
      var rest := tail[1..];
      assert tail == [tail[0]] + rest;
      if tail == "/" {
        QuietNothing(q);
      } else {
        assert tail[0] in tail && forall c <- rest :: c in tail;
        RunBlanks(q, rest);
      }
      assert Step(p, tail[0]) == Reaction(q, [], None);
      hide Step;
      QuietCons(p, tail[0], q, rest, q);
      LeadsQuietly(p, f, tail, q);
      assert Closed(q) == Closed(p) by { NamesAreBlind(p, q); }
      EndOfEnd(q, f, g);
      LeadsOn(p, f, tail, q, f, ">", Ended(p), g);
    }
  }

  lemma {:induction false} EndOfEnd(p: Parser, f: Forest, g: Forest)
    requires p.state in {39, 58, 59} && p.tags != [] && Handle(f, Closed(p)) == g
    requires p.tags[|p.tags| - 1] == ResolveTag(p.frames, p.tagName)
    ensures Leads(p, f, ">", Ended(p), g)
  {
    hide Closed, ResolveTag;
    HandleAllOne(f, Closed(p));
    HandleAllTwo(f, Closed(p), EndDocument);
    LeadsByOne(p, f, '>', Ended(p), g);
  }

  // ----- content --------------------------------------------------------------------------------

  /** The next angle bracket hands over the character data before it. */
  lemma {:induction false} EndOfChars(p: Parser, f: Forest)
    requires p.state == 29
    ensures Leads(p, f, "<", p.(state := 30, data := ""), Hear(f, XmlUnescape(p.data)))
  {
    hide XmlUnescape;
    SayIsHeard(f, XmlUnescape(p.data));
    LeadsByOne(p, f, '<', p.(state := 30, data := ""), Hear(f, XmlUnescape(p.data)));
  }

  lemma {:induction false} RunCdata(p: Parser, f: Forest, content: string)
    requires p.state == 30 && p.cdata == "" && !HoldsEnd(content) && Brackets(content) == 0
    ensures Leads(p, f, Inside(Cdata(content)), p.(state := 29), Hear(f, content))
  {
    CdataDeliveredIff(p, content);
    SayIsHeard(f, content);
  }

  /** Markup other than tags and sections leaves the trees alone. */
  lemma {:induction false} RunOther(p: Parser, f: Forest, t: Markup) returns (q: Parser)
    requires p.state == 30 && (t.Comment? || t.Instruction? || t.Declaration?) && Writable(p.frames, t)
    ensures Alike(p.(state := 29), q) && Leads(p, f, Inside(t), q, f)
  {
    hide Leads, Quiet, Inside;
    match t
    case Comment(body) =>
      q := p.(state := 29);
      RunComment(InRoot, p, body);
      LeadsQuietly(p, f, Inside(t), q);
    case Instruction(body) =>
      q := p.(state := 29);
      RunInstruction(InRoot, p, body);
      LeadsQuietly(p, f, Inside(t), q);
    case Declaration(body) =>
      q := p.(state := 29, tagName := [body[0]]);
      RunDeclaration(p, body);
      LeadsQuietly(p, f, Inside(t), q);
  }

  lemma {:induction false} WritableTag(frames: seq<Frame>, t: Markup)
    requires t.Tag? && Writable(frames, t)
    ensures WritableHead(frames, t) && PlainName(t.qname) && (Blanks(t.tail) || t.tail == "/")
    ensures !IsStreamHeader(ResolveTag(Dressed(frames, t).frames, t.qname).ns, t.qname)
    ensures t.short ==> t.children == []
    ensures WritableAll(Dressed(frames, t).frames, t.children)
  {
  }

  /** A tag from its name on, under any parent or none: its element, with everything in it,
      goes to the parent or is delivered, and the parser is where it was. */
  lemma {:induction false} RunInside(p: Parser, f: Forest, t: Markup) returns (q: Parser)
    requires p.state == 30 && Idle(p.(state := 29)) && t.Tag? && Writable(p.frames, t)
    ensures Alike(p.(state := 29), q)
    ensures Leads(p, f, Inside(t), q, Attach(f, Meaning(p.frames, t)))
    decreases t, 0
  {
    WritableTag(p.frames, t);
    hide Leads, Quiet, WritableHead, Writable, WritableAll, Dress, ResolveTag;
    if t.short {
      q := RunShort(p, f, t);
    } else {
      var g := f.(open := f.open + [Opening(p.frames, t)]);
      var q2 := RunStart(InRoot, p, f, t);
      var q3 := RunChildren(q2, g, t.children, "");
      var whole := Meaning(p.frames, t);
      ChildrenOf(f, Opening(p.frames, t), whole.children);
      q := RunEnd(q2, g, q3, f, t, whole);
      LeadsOn(p, f, Head(t) + ">", q2, g, (RenderAll(t.children) + "<") + ("/" + t.qname + (t.tail + ">")), q,
              Attach(f, whole));
      Regroup(Head(t) + ">", RenderAll(t.children) + "<", "/" + t.qname + (t.tail + ">"));
    }
  }

  /** The end of an element whose children have been read. */
  lemma {:induction false} RunEnd(q2: Parser, g: Forest, q3: Parser, f: Forest, t: Markup, whole: Node)
    returns (q: Parser)
    requires t.Tag? && PlainName(t.qname) && (Blanks(t.tail) || t.tail == "/") && q3.state == 30 && |q3.tags| > 1
    requires q3.tags[|q3.tags| - 1] == ResolveTag(q3.frames, t.qname)
    requires Leads(q2, g, RenderAll(t.children) + "<", q3, f.(open := f.open + [whole]))
    ensures q == Ended(q3.(tagName := t.qname))
    ensures Leads(q2, g, (RenderAll(t.children) + "<") + ("/" + t.qname + (t.tail + ">")), q, Attach(f, whole))
  {
    hide Leads, ResolveTag;
    var h := f.(open := f.open + [whole]);
    ClosedAttaches(f, q3.(tagName := t.qname), whole);
    hide Closed;
    RunEndTag(q3, h, t.qname, t.tail, Attach(f, whole));
    q := Ended(q3.(tagName := t.qname));
    LeadsOn(q2, g, RenderAll(t.children) + "<", q3, h, "/" + t.qname + (t.tail + ">"), q, Attach(f, whole));
  }

  /** A start tag from its name on, of an element that stays open. */
  lemma {:induction false} RunStart(w: Place, p: Parser, f: Forest, t: Markup) returns (q: Parser)
    requires p.state == AtTag(w) && t.Tag? && WritableHead(p.frames, t)
    ensures var d := Dressed(p.frames, t);
            && q.frames == d.frames && |d.frames| == |p.frames| + 1 && Outer(d.frames) == p.frames
            && q.tags == p.tags + [ResolveTag(d.frames, t.qname)]
            && Alike(p.(state := 29, frames := q.frames, tags := q.tags), q)
            && Leads(p, f, Head(t) + ">", q,
                     if IsStreamHeader(ResolveTag(d.frames, t.qname).ns, t.qname)
                     then f.(headers := f.headers + [Opening(p.frames, t)], open := [])
                     else f.(open := f.open + [Opening(p.frames, t)]))
  {
    hide Leads, Quiet, WritableHead, Dress, ResolveTag;
    var q1 := RunHead(w, p, t);
    LeadsQuietly(p, f, Head(t), q1);
    OpenedIs(f, q1, t, p.frames);
    var g := Handle(f, Opened(q1));
    hide Opened, Handle;
    q := q1.(state := 29, tags := q1.tags + [ResolveTag(q1.frames, t.qname)]);
    EndOfStart(w, q1, f, g);
    LeadsOn(p, f, Head(t), q1, f, ">", q, g);
  }

  /** A tag in the short form from its name on. */
  lemma {:induction false} RunShort(p: Parser, f: Forest, t: Markup) returns (q: Parser)
    requires p.state == 30 && t.Tag? && WritableHead(p.frames, t) && t.short && t.children == []
    requires !IsStreamHeader(ResolveTag(Dressed(p.frames, t).frames, t.qname).ns, t.qname)
    ensures Alike(p.(state := 29), q)
    ensures Leads(p, f, Inside(t), q, Attach(f, Meaning(p.frames, t)))
  {
    hide Leads, Quiet, WritableHead, Dress, ResolveTag;
    var q1 := RunHead(InRoot, p, t);
    LeadsQuietly(p, f, Head(t), q1);
    OpenedIs(f, q1, t, p.frames);
    ClosedAttaches(f, q1, Opening(p.frames, t));
    NoContent(Dressed(p.frames, t).frames);
    hide Opened, Closed, Handle;
    q := q1.(state := 29, frames := Outer(q1.frames));
    EndOfEmpty(q1, f, Attach(f, Opening(p.frames, t)));
    LeadsOn(p, f, Head(t), q1, f, "/" + ">", q, Attach(f, Opening(p.frames, t)));
    Regroup(Head(t), "/", ">");
  }

  lemma {:induction false} NoContent(frames: seq<Frame>)
    ensures Content(frames, "", []) == []
  {
  }

  /** The children of an element up to the angle bracket after them: g is the forest before
      anything was said since the last element, `said` what has been said since, and the
      character data held back comes after it. */
  lemma {:induction false} RunChildren(p: Parser, g: Forest, ts: seq<Markup>, said: string) returns (q: Parser)
    requires Idle(p.(data := "")) && WritableAll(p.frames, ts)
    requires TakesText(g) && (p.data != "" && ts != [] ==> !ts[0].Chars?)
    ensures Alike(p.(state := 30, data := ""), q)
    ensures Leads(p, Hear(g, said), RenderAll(ts) + "<", q,
                  AttachAll(g, Content(p.frames, said + XmlUnescape(p.data), ts)))
    decreases ts, 1
  {
    hide Leads;
    if ts != [] && ts[0].Chars? {
      q := RunCharsThen(p, g, ts, said);
    } else {
      var all := said + XmlUnescape(p.data);
      var p1, h := p.(state := 30, data := ""), Hear(g, all);
      EndOfChars(p, Hear(g, said));
      TextCoalesces(g, said, XmlUnescape(p.data));
      if ts == [] {
        q := p1;
        HearAttaches(g, all);
        assert "" + "<" == "<";
      } else {
        q := RunMarkupThen(p1, g, ts, all);
        LeadsOn(p, Hear(g, said), "<", p1, h, Inside(ts[0]) + (RenderAll(ts[1..]) + "<"), q,
                AttachAll(g, Content(p.frames, all, ts)));
        Shifted(ts[0], RenderAll(ts[1..]));
      }
    }
  }

  lemma {:induction false} Shifted(t: Markup, rest: string)
    requires !t.Chars?
    ensures "<" + (Inside(t) + (rest + "<")) == (Render(t) + rest) + "<"
  {
    hide Inside;
    Regroup("<", Inside(t), rest + "<");
    Regroup("<" + Inside(t), rest, "<");
  }

  lemma {:induction false} RunCharsThen(p: Parser, g: Forest, ts: seq<Markup>, said: string) returns (q: Parser)
    requires Idle(p) && ts != [] && ts[0].Chars? && WritableAll(p.frames, ts) && TakesText(g)
    ensures Alike(p.(state := 30, data := ""), q)
    ensures Leads(p, Hear(g, said), RenderAll(ts) + "<", q,
                  AttachAll(g, Content(p.frames, said + XmlUnescape(p.data), ts)))
    decreases ts, 0
  {
    hide Leads, XmlUnescape, DecodeSome, Hear, Quiet, Run, AttachAll;
    var raw, rest := ts[0].raw, ts[1..];
    var p1 := p.(data := raw);
    CharsAreHeld(p, raw);
    LeadsQuietly(p, Hear(g, said), raw, p1);
    q := RunChildren(p1, g, rest, said);
    assert XmlUnescape("") == "" by { NothingUnescaped(); }
    assert said + "" == said;
    LeadsOn(p, Hear(g, said), raw, p1, Hear(g, said), RenderAll(rest) + "<", q,
            AttachAll(g, Content(p.frames, said + XmlUnescape(raw), rest)));
    Regroup(raw, RenderAll(rest), "<");
  }

  lemma {:induction false} CharsAreHeld(p: Parser, raw: string)
    requires p.state == 29 && p.data == "" && '<' !in raw
    ensures Quiet(p, raw, p.(data := raw))
  {
    RunText(p, raw);
    assert "" + raw == raw;
  }

  lemma {:induction false} NothingUnescaped()
    ensures XmlUnescape("") == ""
  {
    UnescapeIsDecode("");
  }

  /** A piece of markup after its angle bracket, and what follows it. */
  lemma {:induction false} RunMarkupThen(p: Parser, g: Forest, ts: seq<Markup>, all: string) returns (q: Parser)
    requires p.state == 30 && Idle(p.(state := 29)) && ts != [] && !ts[0].Chars? && WritableAll(p.frames, ts)
    requires TakesText(g)
    ensures Alike(p, q)
    ensures Leads(p, Hear(g, all), Inside(ts[0]) + (RenderAll(ts[1..]) + "<"), q,
                  AttachAll(g, Content(p.frames, all, ts)))
    decreases ts, 0
  {
    hide Leads, XmlUnescape, DecodeSome, Inside, Handle;
    var t, rest := ts[0], ts[1..];
    NothingUnescaped();
    assert forall s: string {:trigger s + ""} :: s + "" == s;
    var tail := RenderAll(rest) + "<";
    if t.Tag? {
      var node := Meaning(p.frames, t);
      var g' := Attach(Hear(g, all), node);
      var p1 := RunInside(p, Hear(g, all), t);
      AttachedTakesText(g, all, node);
      q := RunChildren(p1, g', rest, "");
      LeadsOn(p, Hear(g, all), Inside(t), p1, g', tail, q, AttachAll(g', Content(p.frames, "", rest)));
      AttachAllConcat(g, Spoken(all) + [node], Content(p.frames, "", rest));
      Regroup(Spoken(all), [node], Content(p.frames, "", rest));
    } else if t.Cdata? {
      RunCdata(p, Hear(g, all), t.content);
      TextCoalesces(g, all, t.content);
      var p1 := p.(state := 29);
      q := RunChildren(p1, g, rest, all + t.content);
      LeadsOn(p, Hear(g, all), Inside(t), p1, Hear(g, all + t.content), tail, q,
              AttachAll(g, Content(p.frames, all + t.content, rest)));
    } else {
      var p1 := RunOther(p, Hear(g, all), t);
      q := RunChildren(p1, g, rest, all);
      LeadsOn(p, Hear(g, all), Inside(t), p1, Hear(g, all), tail, q, AttachAll(g, Content(p.frames, all, rest)));
    }
  }

  // ----- stanzas --------------------------------------------------------------------------------

  /** A stanza, however it is written, is delivered as the tree it means, and leaves the parser
      ready for the next one. */
  lemma {:induction false} StanzaRoundTrip(p: Parser, f: Forest, t: Markup)
    requires Idle(p) && f.open == [] && t.Tag? && Writable(p.frames, t)
    ensures var r := Run(p, Render(t));
            && r.stopped.None? && Alike(p, r.p)
            && HandleAll(f, r.events) == f.(stanzas := f.stanzas + [Meaning(p.frames, t)])
  {
    var p1 := p.(state := 30, data := "");
    NothingUnescaped();
    EndOfChars(p, f);
    var q := RunInside(p1, f, t);
    LeadsOn(p, f, "<", p1, f, Inside(t), q, Attach(f, Meaning(p.frames, t)));
  }

  /** Between stanzas nothing is heard. */
  lemma {:induction false} Unheard(f: Forest, said: string)
    requires f.open == []
    ensures Hear(f, said) == f
  {
  }

  /** The last piece of character data, if it ends the pieces, is held back. */
  function Held(ts: seq<Markup>): string {
    if ts != [] && ts[|ts| - 1].Chars? then ts[|ts| - 1].raw else ""
  }

  /** Any pieces between and around stanzas: the stanzas are delivered in order, whatever
      stands between them is dropped. */
  lemma {:induction false} RunStanzas(p: Parser, f: Forest, ts: seq<Markup>) returns (q: Parser)
    requires Idle(p.(data := "")) && WritableAll(p.frames, ts) && f.open == []
    requires p.data != "" && ts != [] ==> !ts[0].Chars?
    ensures Alike(p.(data := if ts == [] then p.data else Held(ts)), q)
    ensures Leads(p, f, RenderAll(ts), q, f.(stanzas := f.stanzas + Elements(p.frames, ts)))
    decreases |ts|
  {
    hide Leads, Meaning, Writable, Render;
    if ts == [] {
      q := p;
      QuietNothing(p);
      LeadsQuietly(p, f, "", p);
      assert f.stanzas + [] == f.stanzas;
    } else {
      var t, rest := ts[0], ts[1..];
      var p1, g := RunPiece(p, f, t);
      q := RunStanzas(p1, g, rest);
      LeadsOn(p, f, Render(t), p1, g, RenderAll(rest), q, g.(stanzas := g.stanzas + Elements(p.frames, rest)));
      var first := if t.Tag? then [Meaning(p.frames, t)] else [];
      Regroup(f.stanzas, first, Elements(p.frames, rest));
    }
  }

  /** One of them. */
  lemma {:induction false} RunPiece(p: Parser, f: Forest, t: Markup) returns (q: Parser, g: Forest)
    requires Idle(p.(data := "")) && Writable(p.frames, t) && f.open == []
    requires p.data != "" ==> !t.Chars?
    ensures g == f.(stanzas := f.stanzas + if t.Tag? then [Meaning(p.frames, t)] else [])
    ensures Alike(p.(data := if t.Chars? then t.raw else ""), q)
    ensures Leads(p, f, Render(t), q, g)
  {
    hide Leads, Quiet, Inside, Meaning, XmlUnescape;
    g := f.(stanzas := f.stanzas + if t.Tag? then [Meaning(p.frames, t)] else []);
    assert f.stanzas + [] == f.stanzas;
    if t.Chars? {
      q := p.(data := t.raw);
      CharsAreHeld(p, t.raw);
      LeadsQuietly(p, f, t.raw, q);
    } else {
      var p1 := p.(state := 30, data := "");
      EndOfChars(p, f);
      Unheard(f, XmlUnescape(p.data));
      if t.Tag? {
        q := RunInside(p1, f, t);
      } else if t.Cdata? {
        q := p1.(state := 29);
        RunCdata(p1, f, t.content);
        Unheard(f, t.content);
      } else {
        q := RunOther(p1, f, t);
      }
      LeadsOn(p, f, "<", p1, f, Inside(t), q, g);
    }
  }

  // ----- the prolog and the header -----------------------------------------------------------------

  /** What may stand before the root: blanks, comments and processing instructions, the XML
      declaration among them. */
  predicate WritableProlog(ts: seq<Markup>) {
    forall t <- ts ::
      match t
      case Chars(raw) => Blanks(raw)
      case Comment(body) => NoDoubleDash(body)
      case Instruction(body) => '?' !in body
      case _ => false
  }

  /** An angle bracket outside the root begins a document, which the trees do not show. */
  lemma {:induction false} BeginsDocument(p: Parser, f: Forest)
    requires p.state == 11
    ensures Leads(p, f, "<", p.(state := 12), f)
  {
    HandleAllOne(f, StartDocument);
    LeadsByOne(p, f, '<', p.(state := 12), f);
  }

  lemma {:induction false} RunProlog(p: Parser, f: Forest, ts: seq<Markup>)
    requires p.state == 11 && WritableProlog(ts)
    ensures Leads(p, f, RenderAll(ts), p, f)
    decreases |ts|
  {
    hide Leads, Quiet;
    if ts == [] {
      QuietNothing(p);
      LeadsQuietly(p, f, "", p);
    } else {
      var t := ts[0];
      assert t in ts && forall u <- ts[1..] :: u in ts;
      RunProlog(p, f, ts[1..]);
      if t.Chars? {
        RunBlanks(p, t.raw);
        LeadsQuietly(p, f, t.raw, p);
      } else {
        var p1 := p.(state := 12);
        BeginsDocument(p, f);
        if t.Comment? {
          RunComment(InProlog, p1, t.body);
        } else {
          RunInstruction(InProlog, p1, t.body);
        }
        LeadsQuietly(p1, f, Inside(t), p);
        LeadsOn(p, f, "<", p1, f, Inside(t), p, f);
      }
      LeadsOn(p, f, Render(t), p, f, RenderAll(ts[1..]), p, f);
    }
  }

  /** The start of a stream up to the end of its header's start tag. */
  function RenderStart(prolog: seq<Markup>, header: Markup): string
    requires header.Tag?
  {
    RenderAll(prolog) + ("<" + (Head(header) + ">"))
  }

  /** A header that can be written: a stream header for whatever reads it. */
  predicate WritableHeader(header: Markup) {
    && header.Tag? && WritableHead([BASE_FRAME], header)
    && IsStreamHeader(ResolveTag(Dressed([BASE_FRAME], header).frames, header.qname).ns, header.qname)
  }

  /** From the first character of a stream, over any prolog, to the end of its header: the
      header is recorded with its attributes, its prefixes are bound, and the parser waits
      for stanzas inside the root. */
  lemma {:induction false} HeaderIsRead(prolog: seq<Markup>, header: Markup, f: Forest) returns (q: Parser)
    requires WritableProlog(prolog) && WritableHeader(header)
    ensures Idle(q) && q.frames == Dressed([BASE_FRAME], header).frames
    ensures q.tags == [ResolveTag(q.frames, header.qname)] && Outer(q.frames) == [BASE_FRAME]
    ensures Leads(START, f, RenderStart(prolog, header), q,
                  f.(headers := f.headers + [Opening([BASE_FRAME], header)], open := []))
  {
    hide Leads, WritableHead, Dress, ResolveTag;
    var p1 := START.(state := 12);
    RunProlog(START, f, prolog);
    BeginsDocument(START, f);
    q := RunStart(InProlog, p1, f, header);
    var g := f.(headers := f.headers + [Opening([BASE_FRAME], header)], open := []);
    LeadsOn(START, f, "<", p1, f, Head(header) + ">", q, g);
    LeadsOn(START, f, RenderAll(prolog), START, f, "<" + (Head(header) + ">"), q, g);
  }

  /** The header that servers send, in either quote, is one that can be written. */
  lemma {:induction false} UsualHeader(quote: char)
    requires quote == '\'' || quote == '\"'
    ensures var header := Tag("stream:stream", [Attr(" ", "xmlns", "", "", quote, "jabber:client"),
                                                Attr(" ", "xmlns:stream", "", "", quote, STREAMS)],
                              "", false, [], "");
            && WritableHeader(header)
            && Dressed([BASE_FRAME], header).frames == [BASE_FRAME, map["" := "jabber:client", "stream" := STREAMS]]
  {
    var a, b := Attr(" ", "xmlns", "", "", quote, "jabber:client"), Attr(" ", "xmlns:stream", "", "", quote, STREAMS);
    UsualTexts();
    hide XmlUnescape, XmlEscape, AddAttribute, ResolveTag, IsStreamHeader, PlainName, WellWritten, STREAMS;
    UsualAttributes(quote);
    UsualNames();
    var p1, p2 := UsualPrefixes();
    assert [a, b][1..] == [b] && [b][1..] == [];
    assert Dress(p2, []) == (p2, None);
    assert Dress(p1, [b]) == Dress(p2, []);
    assert Dress(Bare([BASE_FRAME]), [a, b]) == Dress(p1, [b]);
    UsualName(p2.frames);
  }

  lemma {:induction false} UsualTexts()
    ensures XmlUnescape("jabber:client") == "jabber:client" && XmlUnescape(STREAMS) == STREAMS
    ensures XmlEscape("jabber:client") == "jabber:client" && XmlEscape(STREAMS) == STREAMS
  {
    hide XmlUnescape, XmlEscape;
    OrdinaryStays("jabber:client");
    OrdinaryStays(STREAMS);
  }

  lemma {:induction false} UsualAttributes(quote: char)
    requires quote == '\'' || quote == '\"'
    ensures WellWritten(Attr(" ", "xmlns", "", "", quote, "jabber:client"))
    ensures WellWritten(Attr(" ", "xmlns:stream", "", "", quote, STREAMS))
  {
    UsualTexts();
    UsualNames();
    EscapedIsQuiet("jabber:client");
    EscapedIsQuiet(STREAMS);
    hide XmlEscape, XmlUnescape, PlainName, STREAMS;
  }

  lemma {:induction false} UsualNames()
    ensures PlainName("xmlns") && PlainName("xmlns:stream") && PlainName("stream:stream")
  {
    assert "xmlns:stream" == "xmlns" + (":" + "stream") && "stream:stream" == "stream" + (":" + "stream");
    assert PlainName("xmlns") && PlainName(":") && PlainName("stream");
    hide Plain;
  }

  lemma {:induction false} UsualPrefixes() returns (p1: Parser, p2: Parser)
    ensures AddAttribute(Bare([BASE_FRAME]), "xmlns", "jabber:client") == (p1, None)
    ensures AddAttribute(p1, "xmlns:stream", STREAMS) == (p2, None)
    ensures p2.frames == [BASE_FRAME, map["" := "jabber:client", "stream" := STREAMS]]
  {
    var p0 := Bare([BASE_FRAME]);
    p1 := AddAttribute(p0, "xmlns", "jabber:client").0;
    p2 := AddAttribute(p1, "xmlns:stream", STREAMS).0;
    assert p0.frames == [BASE_FRAME, map[]] && p0.frames[..1] == [BASE_FRAME];
    ReservedBelow(p0.frames);
    assert p1.frames == [BASE_FRAME, map["" := "jabber:client"]] && p1.frames[..1] == [BASE_FRAME];
    ReservedBelow(p1.frames);
    hide Lookup;
    assert DeclaredPrefix("xmlns:stream") == "stream";
  }

  lemma {:induction false} ReservedBelow(frames: seq<Frame>)
    requires |frames| == 2 && frames[0] == BASE_FRAME && "xmlns" !in frames[1]
    ensures Lookup(frames, "xmlns") == XMLNS_NS
  {
    assert frames[..1] == [BASE_FRAME];
  }

  lemma {:induction false} UsualName(frames: seq<Frame>)
    requires frames == [BASE_FRAME, map["" := "jabber:client", "stream" := STREAMS]]
    ensures IsStreamHeader(ResolveTag(frames, "stream:stream").ns, "stream:stream")
  {
    XmlNames.ColonAt("stream", "stream");
    assert "stream" + ":" + "stream" == "stream:stream";
    assert "stream:stream"[..6] == "stream";
    assert Lookup(frames, "stream") == STREAMS;
  }

  /** A whole stream as far as it has come: its header is recorded and its stanzas are
      delivered, in order. */
  lemma {:induction false} StreamRoundTrip(prolog: seq<Markup>, header: Markup, ts: seq<Markup>) returns (q: Parser)
    requires WritableProlog(prolog) && WritableHeader(header)
    requires WritableAll(Dressed([BASE_FRAME], header).frames, ts)
    ensures var frames := Dressed([BASE_FRAME], header).frames;
            && Idle(q.(data := "")) && q.data == Held(ts) && q.frames == frames && Outer(frames) == [BASE_FRAME]
            && q.tags == [ResolveTag(frames, header.qname)]
            && Leads(START, Forest([], [], []), RenderStart(prolog, header) + RenderAll(ts), q,
                     Forest([], [Opening([BASE_FRAME], header)], Elements(frames, ts)))
  {
    assert header.Tag?;
    hide Leads, WritableHead, Dress, ResolveTag, WritableHeader, WritableAll, Elements;
    var f := Forest([], [], []);
    var p := HeaderIsRead(prolog, header, f);
    var g := f.(headers := f.headers + [Opening([BASE_FRAME], header)], open := []);
    q := RunStanzas(p, g, ts);
    assert [] + [Opening([BASE_FRAME], header)] == [Opening([BASE_FRAME], header)];
    assert [] + Elements(p.frames, ts) == Elements(p.frames, ts);
    LeadsOn(START, f, RenderStart(prolog, header), p, g, RenderAll(ts), q,
            g.(stanzas := g.stanzas + Elements(p.frames, ts)));
  }

  /** The end tag of the root ends the document: the parser is where it started, and the trees
      stay as they are. */
  lemma {:induction false} StreamEnds(p: Parser, f: Forest, name: string, tail: string)
    requires Idle(p.(data := "")) && |p.tags| == 1 && f.open == [] && PlainName(name) && (Blanks(tail) || tail == "/")
    requires p.tags[0] == ResolveTag(p.frames, name) && Outer(p.frames) == [BASE_FRAME]
    ensures var q := p.(state := 11, data := "", tagName := name, tags := [], frames := [BASE_FRAME]);
            Leads(p, f, "<" + ("/" + name + (tail + ">")), q, f)
  {
    hide Leads, ResolveTag, XmlUnescape;
    var p1 := p.(state := 30, data := "");
    EndOfChars(p, f);
    Unheard(f, XmlUnescape(p.data));
    RunEndTag(p1, f, name, tail, f);
    LeadsOn(p, f, "<", p1, f, "/" + name + (tail + ">"), Ended(p1.(tagName := name)), f);
  }

  // ----- however the text is cut --------------------------------------------------------------------

  /** Between stanzas the flush at the end of a chunk tells nothing. */
  lemma {:induction false} FlushedBetween(p: Parser, f: Forest, s: string, q: Parser, g: Forest)
    requires Leads(p, f, s, q, g) && q.cdata == "" && g.open == []
    ensures var r := Feed(p, s);
            r.stopped.None? && r.p == q.(data := "") && HandleAll(f, r.events) == g
  {
    hide Run, DecodeSome, XmlUnescape;
    var r := Run(p, s);
    HandleAllConcat(f, r.events, Say(XmlUnescape(q.data)) + []);
    SayIsHeard(g, XmlUnescape(q.data));
    Unheard(g, XmlUnescape(q.data));
    assert Say(XmlUnescape(q.data)) + [] == Say(XmlUnescape(q.data));
  }

  /** A stanza for every way in which the transport may cut it outside references. */
  lemma {:induction false} StanzaArrives(p: Parser, f: Forest, t: Markup, chunks: seq<string>)
    requires Idle(p) && f.open == [] && t.Tag? && Writable(p.frames, t)
    requires chunks != [] && Concat(chunks) == Render(t) && OutsideReferences(chunks)
    ensures var r := FeedAll(p, chunks);
            && r.stopped.None? && Alike(p, r.p)
            && HandleAll(f, r.events) == f.(stanzas := f.stanzas + [Meaning(p.frames, t)])
  {
    hide Run, Meaning, Render, Feed, FeedAll, HandleAll, OutsideReferences, CutsAreSafe, Concat, Writable;
    StanzaRoundTrip(p, f, t);
    FlushedBetween(p, f, Render(t), Run(p, Render(t)).p, f.(stanzas := f.stanzas + [Meaning(p.frames, t)]));
    OutsideReferencesIsSafe(p, chunks);
    SegmentationIndependence(f, p, chunks);
  }

  /** A whole stream for every way in which the transport may cut it outside references. */
  lemma {:induction false} StreamArrives(prolog: seq<Markup>, header: Markup, ts: seq<Markup>, chunks: seq<string>)
    requires WritableProlog(prolog) && WritableHeader(header)
    requires WritableAll(Dressed([BASE_FRAME], header).frames, ts)
    requires chunks != [] && Concat(chunks) == RenderStart(prolog, header) + RenderAll(ts)
    requires OutsideReferences(chunks)
    ensures var r := FeedAll(START, chunks);
            && r.stopped.None?
            && HandleAll(Forest([], [], []), r.events)
               == Forest([], [Opening([BASE_FRAME], header)], Elements(Dressed([BASE_FRAME], header).frames, ts))
  {
    assert header.Tag?;
    hide Run, RenderAll, Feed, FeedAll, HandleAll, OutsideReferences, CutsAreSafe, Concat;
    hide WritableAll, WritableHeader, WritableProlog, Elements, Opening, Dressed, Leads, RenderStart;
    var q := StreamRoundTrip(prolog, header, ts);
    var f, s := Forest([], [], []), RenderStart(prolog, header) + RenderAll(ts);
    FlushedBetween(START, f, s, q,
                   Forest([], [Opening([BASE_FRAME], header)], Elements(Dressed([BASE_FRAME], header).frames, ts)));
    OutsideReferencesIsSafe(START, chunks);
    SegmentationIndependence(f, START, chunks);
  }
}
