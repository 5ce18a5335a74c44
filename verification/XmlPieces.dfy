/**
 How the parser reads the pieces of a tag and the markup that is not a tag, in the prolog
 and inside the root, where the same pieces have other states.
 */
module XmlPieces {

  import opened Options
  import opened Sequences
  import opened XmlText
  import opened StanzaBuilder
  import opened XmlParser
  import opened XmlMarkup

  datatype Place = InProlog | InRoot

  /** The states of a place: outside tags, after an angle bracket, in a tag's name, between
      attributes, after a slash, in an attribute's name, before and after the equals sign. */
  function Outside(w: Place): nat { if w.InProlog? then 11 else 29 }
  function AtTag(w: Place): nat { if w.InProlog? then 12 else 30 }
  function InName(w: Place): nat { if w.InProlog? then 15 else 34 }
  function Between(w: Place): nat { if w.InProlog? then 19 else 40 }
  function AfterSlash(w: Place): nat { if w.InProlog? then 21 else 41 }
  function InAttribute(w: Place): nat { if w.InProlog? then 22 else 44 }
  function BeforeEquals(w: Place): nat { if w.InProlog? then 24 else 47 }
  function AfterEquals(w: Place): nat { if w.InProlog? then 25 else 48 }

  /** Inside a value, by its quote. */
  function InValue(w: Place, quote: char): nat {
    if quote == '\'' then (if w.InProlog? then 27 else 51) else (if w.InProlog? then 28 else 52)
  }

  // ----- quiet text -----------------------------------------------------------------------

  /** A piece of text that only moves the parser along. */
  predicate Quiet(p: Parser, s: string, q: Parser) {
    Run(p, s) == Reaction(q, [], None)
  }

  lemma {:induction false} QuietOn(p: Parser, a: string, q: Parser, b: string, r: Parser)
    requires Quiet(p, a, q) && Quiet(q, b, r)
    ensures Quiet(p, a + b, r)
  {
    hide Run;
    RunConcat(p, a, b);
    assert Run(p, a).events + Run(q, b).events == [];
  }

  lemma {:induction false} QuietChar(p: Parser, c: char, q: Parser)
    requires Step(p, c) == Reaction(q, [], None)
    ensures Quiet(p, [c], q)
  {
    hide Step;
    RunOne(p, c);
  }

  /** A character that only changes the state. */
  lemma {:induction false} Skips(p: Parser, c: char, q: Parser)
    requires Transition(p.state, c) == (Skip, q.state) && q == p.(state := q.state)
    ensures Step(p, c) == Reaction(q, [], None)
  {
    hide Transition, AddAttribute, ResolveTag, Opened, Closed, Close, XmlUnescape;
  }

  /** A character that is kept as CDATA content. */
  lemma {:induction false} Keeps(p: Parser, c: char, held: string, q: Parser)
    requires Transition(p.state, c) == (GrowCdata(held), q.state)
    requires q == p.(state := q.state, cdata := p.cdata + held + [c])
    ensures Step(p, c) == Reaction(q, [], None)
  {
    hide Transition, AddAttribute, ResolveTag, Opened, Closed, Close, XmlUnescape;
  }

  /** A character, then the rest. */
  lemma {:induction false} QuietCons(p: Parser, c: char, q: Parser, s: string, r: Parser)
    requires Step(p, c) == Reaction(q, [], None) && Quiet(q, s, r)
    ensures Quiet(p, [c] + s, r)
  {
    hide Step, Quiet;
    QuietChar(p, c, q);
    QuietOn(p, [c], q, s, r);
  }

  lemma {:induction false} QuietNothing(p: Parser)
    ensures Quiet(p, "", p)
  {
  }

  /** States in which blanks change nothing. */
  predicate SkipsBlanks(state: nat) {
    state in {11, 19, 24, 25, 40, 47, 48, 58}
  }

  lemma {:induction false} RunBlanks(p: Parser, s: string)
    requires SkipsBlanks(p.state) && Blanks(s)
    ensures Quiet(p, s, p)
    decreases |s|
  {
    hide Run, AddAttribute, Perform;
    if s == "" {
      QuietNothing(p);
    } else {
      assert s[0] in s && forall c <- s[1..] :: c in s;
      assert s == [s[0]] + s[1..];
      BlankIsSkipped(p, s[0]);
      RunBlanks(p, s[1..]);
      QuietCons(p, s[0], p, s[1..], p);
    }
  }

  lemma {:induction false} BlankIsSkipped(p: Parser, c: char)
    requires SkipsBlanks(p.state) && Blank(c)
    ensures Step(p, c) == Reaction(p, [], None)
  {
    hide AddAttribute, ResolveTag, Opened, Closed, Close;
  }

  // ----- names and values --------------------------------------------------------------------

  lemma {:induction false} RunTagName(p: Parser, name: string)
    requires p.state in {15, 34, 39} && forall c <- name :: Plain(c)
    ensures Quiet(p, name, p.(tagName := p.tagName + name))
    decreases |name|
  {
    if name == "" {
      assert p.tagName + name == p.tagName;
      QuietNothing(p);
    } else {
      var q := p.(tagName := p.tagName + [name[0]]);
      assert name[0] in name && forall c <- name[1..] :: c in name;
      assert name == [name[0]] + name[1..];
      assert Step(p, name[0]) == Reaction(q, [], None);
      hide Quiet, Step;
      RunTagName(q, name[1..]);
      Regroup(p.tagName, [name[0]], name[1..]);
      QuietCons(p, name[0], q, name[1..], q.(tagName := q.tagName + name[1..]));
    }
  }

  lemma {:induction false} RunAttributeName(w: Place, p: Parser, name: string)
    requires p.state == InAttribute(w) && forall c <- name :: Plain(c)
    ensures Quiet(p, name, p.(attrName := p.attrName + name))
    decreases |name|
  {
    if name == "" {
      assert p.attrName + name == p.attrName;
      QuietNothing(p);
    } else {
      var q := p.(attrName := p.attrName + [name[0]]);
      assert name[0] in name && forall c <- name[1..] :: c in name;
      assert name == [name[0]] + name[1..];
      assert Step(p, name[0]) == Reaction(q, [], None);
      hide Quiet, Step;
      RunAttributeName(w, q, name[1..]);
      Regroup(p.attrName, [name[0]], name[1..]);
      QuietCons(p, name[0], q, name[1..], q.(attrName := q.attrName + name[1..]));
    }
  }

  lemma {:induction false} RunValue(w: Place, quote: char, p: Parser, raw: string)
    requires p.state == InValue(w, quote) && (quote == '\'' || quote == '\"') && quote !in raw && '<' !in raw
    ensures Quiet(p, raw, p.(attrValue := p.attrValue + raw))
    decreases |raw|
  {
    if raw == "" {
      assert p.attrValue + raw == p.attrValue;
      QuietNothing(p);
    } else {
      var q := p.(attrValue := p.attrValue + [raw[0]]);
      assert raw == [raw[0]] + raw[1..];
      assert Step(p, raw[0]) == Reaction(q, [], None) by {
        hide AddAttribute, ResolveTag, Opened, Closed, Close, XmlUnescape;
      }
      hide Quiet, Step;
      RunValue(w, quote, q, raw[1..]);
      Regroup(p.attrValue, [raw[0]], raw[1..]);
      QuietCons(p, raw[0], q, raw[1..], q.(attrValue := q.attrValue + raw[1..]));
    }
  }

  // ----- attributes ----------------------------------------------------------------------------

  /** Adding an attribute looks at the frames and the attributes only. */
  lemma {:induction false} AddIsBlind(p: Parser, q: Parser)
    requires p.frames == q.frames && p.attributes == q.attributes
    ensures forall name, value ::
              var (a, e) := AddAttribute(p, name, value);
              var (b, d) := AddAttribute(q, name, value);
              e == d && a == p.(frames := b.frames, attributes := b.attributes)
  {
  }

  /** Two parsers that agree on frames and attributes dress alike. */
  lemma {:induction false} DressIsBlind(p: Parser, q: Parser, attributes: seq<Attr>)
    requires p.frames == q.frames && p.attributes == q.attributes
    ensures var (a, e) := Dress(p, attributes);
            var (b, d) := Dress(q, attributes);
            e == d && a == p.(frames := b.frames, attributes := b.attributes)
    decreases |attributes|
  {
    hide AddAttribute, XmlUnescape;
    AddIsBlind(p, q);
    if attributes != [] {
      var value := XmlUnescape(attributes[0].raw);
      var (p', e) := AddAttribute(p, attributes[0].name, value);
      var (q', d) := AddAttribute(q, attributes[0].name, value);
      AddIsBlind(q, q);
      if e.None? {
        DressIsBlind(p', q', attributes[1..]);
      }
    }
  }

  /** The blanks before an attribute. */
  lemma {:induction false} RunGap(w: Place, p: Parser, gap: string)
    requires p.state == Between(w) || (p.state == InName(w) && gap != "")
    requires Blanks(gap)
    ensures Quiet(p, gap, p.(state := Between(w)))
  {
    var q := p.(state := Between(w));
    if p.state == Between(w) {
      RunBlanks(p, gap);
    } else {
      assert gap[0] in gap && forall c <- gap[1..] :: c in gap;
      assert gap == [gap[0]] + gap[1..];
      assert Step(p, gap[0]) == Reaction(q, [], None);
      hide Quiet, Step;
      RunBlanks(q, gap[1..]);
      QuietCons(p, gap[0], q, gap[1..], q);
    }
  }

  /** The blanks before the equals sign, and the sign. */
  lemma {:induction false} RunEquals(w: Place, p: Parser, left: string)
    requires p.state == InAttribute(w) && Blanks(left)
    ensures Quiet(p, left + "=", p.(state := AfterEquals(w)))
  {
    var q := p.(state := AfterEquals(w));
    if left == "" {
      assert left + "=" == ['='];
      assert Step(p, '=') == Reaction(q, [], None);
      QuietChar(p, '=', q);
    } else {
      var b := p.(state := BeforeEquals(w));
      assert left[0] in left && forall c <- left[1..] :: c in left;
      assert left == [left[0]] + left[1..];
      assert Step(p, left[0]) == Reaction(b, [], None);
      assert Step(b, '=') == Reaction(q, [], None);
      hide Quiet, Step;
      RunBlanks(b, left[1..]);
      QuietCons(p, left[0], b, left[1..], b);
      QuietChar(b, '=', q);
      QuietOn(p, left, b, ['='], q);
    }
  }

  /** The closing quote records the attribute, with its value unescaped. */
  lemma {:induction false} EndOfValue(w: Place, quote: char, p: Parser)
    requires p.state == InValue(w, quote) && (quote == '\'' || quote == '\"')
    requires AddAttribute(p, p.attrName, XmlUnescape(p.attrValue)).1.None?
    ensures Quiet(p, [quote], AddAttribute(p, p.attrName, XmlUnescape(p.attrValue)).0.(state := Between(w)))
  {
    hide AddAttribute, XmlUnescape, ResolveTag, Opened, Closed, Close;
    QuietChar(p, quote, AddAttribute(p, p.attrName, XmlUnescape(p.attrValue)).0.(state := Between(w)));
  }

  /** A value in its quotes. */
  lemma {:induction false} RunQuoted(w: Place, p: Parser, a: Attr)
    requires p.state == AfterEquals(w) && WellWritten(a) && p.attrName == a.name
    requires AddAttribute(p, a.name, XmlUnescape(a.raw)).1.None?
    ensures Quiet(p, [a.quote] + (a.raw + [a.quote]),
                  AddAttribute(p, a.name, XmlUnescape(a.raw)).0.(state := Between(w), attrValue := a.raw))
  {
    var p1 := p.(state := InValue(w, a.quote), attrValue := "");
    var p2 := p1.(attrValue := a.raw);
    assert Step(p, a.quote) == Reaction(p1, [], None);
    hide Step, XmlUnescape, Quiet;
    AddIsBlind(p2, p);
    AddIsBlind(p, p);
    hide AddAttribute;
    RunValue(w, a.quote, p1, a.raw);
    assert "" + a.raw == a.raw;
    EndOfValue(w, a.quote, p2);
    var q := AddAttribute(p2, a.name, XmlUnescape(a.raw)).0.(state := Between(w));
    QuietOn(p1, a.raw, p2, [a.quote], q);
    QuietCons(p, a.quote, p1, a.raw + [a.quote], q);
  }

  /** One attribute, however it is written, from the blanks before it to its closing quote:
      its name and its value with the references replaced. */
  lemma {:induction false} RunAttribute(w: Place, p: Parser, a: Attr)
    requires p.state == Between(w) || (p.state == InName(w) && a.gap != "")
    requires WellWritten(a) && AddAttribute(p, a.name, XmlUnescape(a.raw)).1.None?
    ensures Quiet(p, RenderAttribute(a),
                  AddAttribute(p, a.name, XmlUnescape(a.raw)).0.
                    (state := Between(w), attrName := a.name, attrValue := a.raw))
  {
    var name := a.name;
    var p1 := p.(state := Between(w));
    var p2 := p.(state := InAttribute(w), attrName := [name[0]]);
    var p3 := p.(state := InAttribute(w), attrName := name);
    var p4 := p.(state := AfterEquals(w), attrName := name);
    assert name[0] in name && forall c <- name[1..] :: c in name;
    assert name == [name[0]] + name[1..];
    assert Step(p1, name[0]) == Reaction(p2, [], None);
    AddIsBlind(p4, p);
    AddIsBlind(p, p);
    hide Step, AddAttribute, XmlUnescape, Quiet;
    var q := AddAttribute(p4, name, XmlUnescape(a.raw)).0.(state := Between(w), attrValue := a.raw);
    var quoted := [a.quote] + (a.raw + [a.quote]);
    RunQuoted(w, p4, a);
    RunBlanks(p4, a.right);
    QuietOn(p4, a.right, p4, quoted, q);
    RunEquals(w, p3, a.left);
    QuietOn(p3, a.left + "=", p4, a.right + quoted, q);
    RunAttributeName(w, p2, name[1..]);
    QuietCons(p1, name[0], p2, name[1..], p3);
    QuietOn(p1, name, p3, a.left + "=" + (a.right + quoted), q);
    RunGap(w, p, a.gap);
    QuietOn(p, a.gap, p1, name + (a.left + "=" + (a.right + quoted)), q);
  }

  lemma {:induction false} RunAttributes(w: Place, p: Parser, attributes: seq<Attr>) returns (q: Parser)
    requires p.state == Between(w) || (p.state == InName(w) && (attributes != [] ==> attributes[0].gap != ""))
    requires (forall a <- attributes :: WellWritten(a)) && Dress(p, attributes).1.None?
    ensures Quiet(p, RenderAttributes(attributes), q)
    ensures q.state == Between(w) || (q.state == p.state && attributes == [])
    ensures var d := Dress(p, attributes).0;
            q == d.(state := q.state, attrName := q.attrName, attrValue := q.attrValue)
    decreases |attributes|
  {
    if attributes == [] {
      QuietNothing(p);
      q := p;
    } else {
      var a, rest := attributes[0], attributes[1..];
      assert a in attributes && forall b <- rest :: b in attributes;
      var d := AddAttribute(p, a.name, XmlUnescape(a.raw)).0;
      var p1 := d.(state := Between(w), attrName := a.name, attrValue := a.raw);
      RunAttribute(w, p, a);
      hide Quiet, AddAttribute, XmlUnescape, RenderAttribute, WellWritten;
      DressIsBlind(p1, d, rest);
      DressIsBlind(d, d, rest);
      q := RunAttributes(w, p1, rest);
      QuietOn(p, RenderAttribute(a), p1, RenderAttributes(rest), q);
    }
  }

  /** Attributes bind prefixes in the frame of their own tag. */
  lemma {:induction false} DressKeepsDepth(p: Parser, attributes: seq<Attr>)
    requires p.frames != []
    ensures var d := Dress(p, attributes).0;
            |d.frames| == |p.frames| && Outer(d.frames) == Outer(p.frames)
    decreases |attributes|
  {
    if attributes != [] {
      var (q, error) := AddAttribute(p, attributes[0].name, XmlUnescape(attributes[0].raw));
      hide DeclaresPrefix, Lookup, XmlUnescape;
      if error.None? {
        DressKeepsDepth(q, attributes[1..]);
      }
    }
  }

  /** Parsers that differ in what the tag being read left behind. */
  predicate Alike(p: Parser, q: Parser) {
    q == p.(tagName := q.tagName, attrName := q.attrName, attrValue := q.attrValue, attributes := q.attributes)
  }

  /** After the angle bracket of a start tag: its name, its attributes and the blanks after
      them. */
  lemma {:induction false} RunHead(w: Place, p: Parser, t: Markup) returns (q: Parser)
    requires p.state == AtTag(w) && t.Tag? && WritableHead(p.frames, t)
    ensures Quiet(p, Head(t), q)
    ensures (q.state == InName(w) || q.state == Between(w)) && q.tagName == t.qname
    ensures var d := Dressed(p.frames, t);
            && q.frames == d.frames && q.attributes == d.attributes
            && |d.frames| == |p.frames| + 1 && Outer(d.frames) == p.frames
    ensures Alike(p.(state := q.state, frames := q.frames), q)
  {
    var name := t.qname;
    var p1 := p.(state := InName(w), tagName := [name[0]], attributes := [], frames := p.frames + [map[]]);
    var p2 := p1.(tagName := name);
    assert name[0] in name && forall c <- name[1..] :: c in name;
    assert name == [name[0]] + name[1..];
    assert Step(p, name[0]) == Reaction(p1, [], None);
    hide Step, Quiet, Dress, PlainName;
    DressIsBlind(p2, Bare(p.frames), t.attributes);
    DressKeepsDepth(Bare(p.frames), t.attributes);
    assert Outer(Bare(p.frames).frames) == p.frames;
    RunTagName(p1, name[1..]);
    QuietCons(p, name[0], p1, name[1..], p2);
    var q1 := RunAttributes(w, p2, t.attributes);
    QuietOn(p, name, p2, RenderAttributes(t.attributes), q1);
    if t.space == "" {
      q := q1;
      QuietNothing(q);
    } else {
      q := q1.(state := Between(w));
      RunGap(w, q1, t.space);
    }
    QuietOn(p, name + RenderAttributes(t.attributes), q1, t.space, q);
  }

  // ----- markup that is not a tag ---------------------------------------------------------------

  function InComment(w: Place): nat { if w.InProlog? then 20 else 42 }
  function AtDash(w: Place): nat { if w.InProlog? then 23 else 45 }
  function AtDashes(w: Place): nat { if w.InProlog? then 26 else 49 }
  function InInstruction(w: Place): nat { if w.InProlog? then 13 else 31 }
  function AtMark(w: Place): nat { if w.InProlog? then 16 else 35 }

  lemma {:induction false} RunCommentBody(w: Place, p: Parser, body: string)
    requires p.state == InComment(w) && NoDoubleDash(body)
    ensures Quiet(p, body, p)
    decreases |body|
  {
    if body == "" {
      QuietNothing(p);
    } else if body[0] != '-' {
      assert body == [body[0]] + body[1..];
      assert Step(p, body[0]) == Reaction(p, [], None);
      hide Step, Quiet;
      RunCommentBody(w, p, body[1..]);
      QuietCons(p, body[0], p, body[1..], p);
    } else {
      var q := p.(state := AtDash(w));
      var rest := body[1..];
      assert rest != "" && rest[0] != '-';
      assert body == ['-'] + rest && rest == [rest[0]] + rest[1..];
      assert Step(p, '-') == Reaction(q, [], None) && Step(q, rest[0]) == Reaction(p, [], None);
      hide Step, Quiet;
      RunCommentBody(w, p, rest[1..]);
      QuietCons(q, rest[0], p, rest[1..], p);
      QuietCons(p, '-', q, rest, p);
    }
  }

  /** A comment, from its exclamation mark on, leaves no trace. */
  lemma {:induction false} RunComment(w: Place, p: Parser, body: string)
    requires p.state == AtTag(w) && NoDoubleDash(body)
    ensures Quiet(p, Inside(Comment(body)), p.(state := Outside(w)))
  {
    var p1 := p.(state := if w.InProlog? then 14 else 32);
    var p2 := p.(state := if w.InProlog? then 17 else 36);
    var p3, p4, p5 := p.(state := InComment(w)), p.(state := AtDash(w)), p.(state := AtDashes(w));
    var q := p.(state := Outside(w));
    hide Step, Quiet;
    Skips(p, '!', p1);
    Skips(p1, '-', p2);
    Skips(p2, '-', p3);
    Skips(p3, '-', p4);
    Skips(p4, '-', p5);
    Skips(p5, '>', q);
    hide Transition;
    ThreeQuiet(p, '!', p1, '-', p2, '-', p3);
    ThreeQuiet(p3, '-', p4, '-', p5, '>', q);
    assert ['!'] + (['-'] + ['-']) == "!--" && ['-'] + (['-'] + ['>']) == "-->";
    RunCommentBody(w, p3, body);
    QuietOn(p3, body, p3, "-->", q);
    QuietOn(p, "!--", p3, body + "-->", q);
  }

  lemma {:induction false} ThreeQuiet(p: Parser, a: char, q: Parser, b: char, r: Parser, c: char, s: Parser)
    requires Step(p, a) == Reaction(q, [], None) && Step(q, b) == Reaction(r, [], None)
    requires Step(r, c) == Reaction(s, [], None)
    ensures Quiet(p, [a] + ([b] + [c]), s)
  {
    hide Step, Quiet;
    QuietChar(r, c, s);
    QuietCons(q, b, r, [c], s);
    QuietCons(p, a, q, [b] + [c], s);
  }

  lemma {:induction false} RunInstructionBody(w: Place, p: Parser, body: string)
    requires p.state == InInstruction(w) && '?' !in body
    ensures Quiet(p, body, p)
    decreases |body|
  {
    if body == "" {
      QuietNothing(p);
    } else {
      assert body == [body[0]] + body[1..];
      assert Step(p, body[0]) == Reaction(p, [], None);
      hide Step, Quiet;
      RunInstructionBody(w, p, body[1..]);
      QuietCons(p, body[0], p, body[1..], p);
    }
  }

  /** A processing instruction, and the XML declaration, which is read as one. */
  lemma {:induction false} RunInstruction(w: Place, p: Parser, body: string)
    requires p.state == AtTag(w) && '?' !in body
    ensures Quiet(p, Inside(Instruction(body)), p.(state := Outside(w)))
  {
    var p1, p2, q := p.(state := InInstruction(w)), p.(state := AtMark(w)), p.(state := Outside(w));
    hide Step, Quiet;
    Skips(p, '?', p1);
    Skips(p1, '?', p2);
    Skips(p2, '>', q);
    hide Transition;
    RunInstructionBody(w, p1, body);
    QuietChar(p2, '>', q);
    QuietCons(p1, '?', p2, [">"[0]], q);
    assert ['?'] + [">"[0]] == "?>";
    QuietOn(p1, body, p1, "?>", q);
    QuietCons(p, '?', p1, body + "?>", q);
  }

  lemma {:induction false} RunDeclarationBody(p: Parser, body: string)
    requires p.state == 38 && '>' !in body
    ensures Quiet(p, body, p)
    decreases |body|
  {
    if body == "" {
      QuietNothing(p);
    } else {
      assert body == [body[0]] + body[1..];
      assert Step(p, body[0]) == Reaction(p, [], None);
      hide Step, Quiet;
      RunDeclarationBody(p, body[1..]);
      QuietCons(p, body[0], p, body[1..], p);
    }
  }

  /** A declaration inside the root is skipped. */
  lemma {:induction false} RunDeclaration(p: Parser, body: string)
    requires p.state == 30 && body != "" && StartsDeclaration(body[0]) && '>' !in body
    ensures Quiet(p, Inside(Declaration(body)), p.(state := 29, tagName := [body[0]]))
  {
    var p1, p2, q := p.(state := 32), p.(state := 38, tagName := [body[0]]), p.(state := 29, tagName := [body[0]]);
    assert body == [body[0]] + body[1..] && forall c <- body[1..] :: c in body;
    hide Quiet;
    DeclarationStarts(p1, body[0]);
    hide Step;
    Skips(p, '!', p1);
    Skips(p2, '>', q);
    hide Transition;
    RunDeclarationBody(p2, body[1..]);
    QuietCons(p1, body[0], p2, body[1..], p2);
    QuietChar(p2, '>', q);
    QuietOn(p1, body, p2, ">", q);
    QuietCons(p, '!', p1, body + ">", q);
  }

  lemma {:induction false} DeclarationStarts(p: Parser, c: char)
    requires p.state == 32 && StartsDeclaration(c)
    ensures Step(p, c) == Reaction(p.(state := 38, tagName := [c]), [], None)
  {
    hide AddAttribute, ResolveTag, Opened, Closed, Close, XmlUnescape;
  }

  /** A declaration in the prolog that is no comment, such as a DOCTYPE, is never left, not
      even at its end, until a hyphen comes. */
  lemma {:induction false} DoctypeIsNotLeft(p: Parser, s: string)
    requires p.state == 14 && '-' !in s
    ensures Quiet(p, s, p)
    decreases |s|
  {
    if s == "" {
      QuietNothing(p);
    } else {
      assert s == [s[0]] + s[1..];
      Skips(p, s[0], p);
      hide Step, Quiet;
      DoctypeIsNotLeft(p, s[1..]);
      QuietCons(p, s[0], p, s[1..], p);
    }
  }

  lemma {:induction false} BracketRefused(w: Place, quote: char, p: Parser)
    requires p.state == InValue(w, quote) && (quote == '\'' || quote == '\"')
    ensures Step(p, '<') == Reaction(p, [], Some("INVALID_ATTRIBUTE_VALUE_DEFINITION"))
  {
    hide AddAttribute, ResolveTag, Opened, Closed, Close, XmlUnescape;
  }

  /** An angle bracket inside a value, after whatever came before it, is refused. */
  lemma {:induction false} ValueRefusesBracket(w: Place, quote: char, p: Parser, raw: string)
    requires p.state == InValue(w, quote) && (quote == '\'' || quote == '\"') && quote !in raw && '<' !in raw
    ensures var r := Run(p, raw + "<");
            && r.stopped == Some("INVALID_ATTRIBUTE_VALUE_DEFINITION") && r.events == []
            && r.p == p.(attrValue := p.attrValue + raw)
  {
    var q := p.(attrValue := p.attrValue + raw);
    RunValue(w, quote, p, raw);
    BracketRefused(w, quote, q);
    hide Quiet, Step, Run;
    QuietThen(p, raw, q, "<");
    RunOne(q, '<');
  }

  // ----- CDATA sections -----------------------------------------------------------------------

  /** The head of a section. */
  lemma {:induction false} RunCdataHead(p: Parser)
    requires p.state == 30
    ensures Quiet(p, CDATA_HEAD, p.(state := 55))
  {
    hide Quiet, Transition;
    RunBracketC(p);
    RunData(p.(state := 43));
    QuietOn(p, "![C", p.(state := 43), "DATA[", p.(state := 55));
    assert "![C" + "DATA[" == CDATA_HEAD;
  }

  lemma {:induction false} RunBracketC(p: Parser)
    requires p.state == 30
    ensures Quiet(p, "![C", p.(state := 43))
  {
    var a, b, c := p.(state := 32), p.(state := 37), p.(state := 43);
    hide Step, Quiet;
    Skips(p, '!', a);
    Skips(a, '[', b);
    Skips(b, 'C', c);
    hide Transition;
    ThreeQuiet(p, '!', a, '[', b, 'C', c);
    assert ['!'] + (['['] + ['C']) == "![C";
  }

  lemma {:induction false} RunData(p: Parser)
    requires p.state == 43
    ensures Quiet(p, "DATA[", p.(state := 55))
  {
    var a, b, c, d, e := p.(state := 46), p.(state := 50), p.(state := 53), p.(state := 54), p.(state := 55);
    hide Step, Quiet;
    Skips(p, 'D', a);
    Skips(a, 'A', b);
    Skips(b, 'T', c);
    Skips(c, 'A', d);
    Skips(d, '[', e);
    hide Transition;
    ThreeQuiet(p, 'D', a, 'A', b, 'T', c);
    QuietChar(d, '[', e);
    QuietCons(c, 'A', d, ['['], e);
    QuietOn(p, ['D'] + (['A'] + ['T']), c, ['A'] + ['['], e);
    assert ['D'] + (['A'] + ['T']) + (['A'] + ['[']) == "DATA[";
  }

  /** What of a content is not held back as a possible end. */
  function Settled(body: string): string {
    body[..|body| - Brackets(body)]
  }

  /** Content before its end: what is not held back as a possible end has been kept. */
  lemma {:induction false} RunCdataBody(p: Parser, body: string)
    requires p.state == 55 && !HoldsEnd(body)
    ensures Quiet(p, body, p.(state := 55 + Brackets(body), cdata := p.cdata + Settled(body)))
    decreases |body|
  {
    if body == "" {
      assert p.cdata + "" == p.cdata;
      QuietNothing(p);
    } else {
      var n := |body| - 1;
      var part, c := body[..n], body[n];
      assert body == part + [c];
      HoldsEndMore(part, c);
      RunCdataBody(p, part);
      BracketsMore(part, c);
      SettledMore(p.cdata, part, c);
      hide Quiet, HoldsEnd, Brackets, Settled, Withheld, Step;
      var q := p.(state := 55 + Brackets(part), cdata := p.cdata + Settled(part));
      var r := p.(state := 55 + Brackets(part + [c]), cdata := p.cdata + Settled(part + [c]));
      CdataChar(q, Brackets(part), c);
      QuietChar(q, c, r);
      QuietOn(p, part, q, [c], r);
    }
  }

  lemma {:induction false} HoldsEndMore(part: string, c: char)
    requires !HoldsEnd(part + [c])
    ensures !HoldsEnd(part) && !(c == '>' && Brackets(part) == 2)
  {
    var s := part + [c];
    hide Brackets;
    assert s[..|part|] == part && s[|part|] == c;
    forall i | 0 <= i < |part| ensures !(part[i] == '>' && Brackets(part[..i]) == 2) {
      assert part[..i] == s[..i] && part[i] == s[i];
    }
  }

  /** What is held back after k brackets. */
  function Withheld(k: nat): string {
    if k == 0 then "" else if k == 1 then "]" else "]]"
  }

  /** One character of a section after k brackets. */
  lemma {:induction false} CdataChar(q: Parser, k: nat, c: char)
    requires k <= 2 && q.state == 55 + k && !(c == '>' && k == 2)
    ensures Step(q, c)
            == Reaction(if c == ']' && k < 2 then q.(state := 55 + k + 1)
                        else q.(state := 55, cdata := q.cdata + Withheld(k) + [c]), [], None)
  {
    CdataTransition(k, c);
    hide Step, Transition, Withheld;
    if c == ']' && k < 2 {
      Skips(q, c, q.(state := 55 + k + 1));
    } else {
      Keeps(q, c, Withheld(k), q.(state := 55, cdata := q.cdata + Withheld(k) + [c]));
    }
  }

  /** A bracket that is held back settles nothing, any other character settles all. */
  lemma {:induction false} SettledMore(cdata: string, part: string, c: char)
    ensures var k := Brackets(part);
            cdata + Settled(part + [c])
            == if c == ']' && k < 2 then cdata + Settled(part) else cdata + Settled(part) + Withheld(k) + [c]
  {
    var k := Brackets(part);
    BracketsMore(part, c);
    SettledAndHeld(part);
    hide Withheld, Brackets;
    if c == ']' && k < 2 {
      assert (part + [c])[..|part| + 1 - (k + 1)] == part[..|part| - k];
    } else {
      assert (part + [c])[..|part| + 1] == part + [c];
      hide Settled;
      Regroup(cdata, Settled(part), Withheld(k));
      Regroup(cdata, part, [c]);
    }
  }

  lemma {:induction false} CdataTransition(k: nat, c: char)
    requires k <= 2 && !(c == '>' && k == 2)
    ensures Transition(55 + k, c)
            == if c == ']' && k < 2 then (Skip, 55 + k + 1)
               else (GrowCdata(Withheld(k)), 55)
  {
  }

  lemma {:induction false} BracketsMore(s: string, c: char)
    ensures Brackets(s + [c]) == if c != ']' || Brackets(s) == 2 then 0 else Brackets(s) + 1
  {
    assert (s + [c])[..|s|] == s;
  }

  /** What is held back are brackets. */
  lemma {:induction false} HeldBack(s: string)
    ensures var k := Brackets(s); s[|s| - k..] == Withheld(k)
  {
    if s != "" {
      var n := |s| - 1;
      var k := Brackets(s[..n]);
      HeldBack(s[..n]);
      if s[n] == ']' && k < 2 {
        assert s[n - k..] == s[..n][n - k..] + ["]"[0]];
      } else {
        assert s[|s|..] == "";
      }
    }
  }

  /** A section is handed over as it stands between its brackets if and only if the content
      ends in no bracket, or in three, six and so on; otherwise the section goes on behind
      its end. */
  lemma {:induction false} CdataDeliveredIff(p: Parser, content: string)
    requires p.state == 30 && p.cdata == "" && !HoldsEnd(content)
    ensures var r := Run(p, Inside(Cdata(content)));
            && r.stopped.None?
            && (if Brackets(content) == 0 then r.p == p.(state := 29) && r.events == Say(content)
                else r.p == p.(state := 55, cdata := content + "]]>") && r.events == [])
  {
    var k, kept := Brackets(content), Settled(content);
    var q := p.(state := 55 + k, cdata := kept);
    SettledAndHeld(content);
    RunCdataContent(p, content);
    hide Quiet, Run, Brackets, HoldsEnd, Inside, Withheld, CDATA_HEAD, Settled;
    QuietThen(p, CDATA_HEAD + content, q, "]]>");
    CdataWritten(content);
    EndOfCdata(q, k);
    Regroup(kept, Withheld(k), "]]>");
  }

  lemma {:induction false} SettledAndHeld(content: string)
    ensures content == Settled(content) + Withheld(Brackets(content))
    ensures Brackets(content) == 0 ==> Settled(content) == content
  {
    HeldBack(content);
    hide Withheld;
    assert content == Settled(content) + content[|content| - Brackets(content)..];
  }

  lemma {:induction false} RunCdataContent(p: Parser, content: string)
    requires p.state == 30 && p.cdata == "" && !HoldsEnd(content)
    ensures Quiet(p, CDATA_HEAD + content, p.(state := 55 + Brackets(content), cdata := Settled(content)))
  {
    var s7 := p.(state := 55);
    hide Quiet, Brackets, HoldsEnd, CDATA_HEAD, Settled;
    RunCdataHead(p);
    RunCdataBody(s7, content);
    NothingBefore(Settled(content));
    QuietOn(p, CDATA_HEAD, s7, content, p.(state := 55 + Brackets(content), cdata := Settled(content)));
  }

  lemma {:induction false} NothingBefore(s: string)
    ensures "" + s == s
  {
  }

  lemma {:induction false} CdataWritten(content: string)
    ensures Inside(Cdata(content)) == CDATA_HEAD + content + "]]>"
  {
    Regroup(CDATA_HEAD, content, "]]>");
  }

  lemma {:induction false} QuietThen(p: Parser, a: string, q: Parser, b: string)
    requires Quiet(p, a, q)
    ensures Run(p, a + b) == Run(q, b)
  {
    hide Run;
    RunConcat(p, a, b);
    assert [] + Run(q, b).events == Run(q, b).events;
  }

  /** The three characters that should end a section, after none, one or two brackets. */
  lemma {:induction false} EndOfCdata(p: Parser, k: nat)
    requires k <= 2 && p.state == 55 + k
    ensures Run(p, "]]>")
            == if k == 0 then Reaction(p.(state := 29, cdata := ""), Say(p.cdata), None)
               else Reaction(p.(state := 55, cdata := p.cdata + (Withheld(k) + "]]>")), [], None)
  {
    hide Step;
    if k == 0 {
      var a, b := p.(state := 56), p.(state := 57);
      Skips(p, ']', a);
      Skips(a, ']', b);
      CdataEnds(b);
      RunThree(p, a, b, Reaction(p.(state := 29, cdata := ""), Say(p.cdata), None));
    } else if k == 1 {
      var a, b := p.(state := 57), p.(state := 55, cdata := p.cdata + "]]" + "]");
      var q := b.(cdata := b.cdata + "" + ">");
      Skips(p, ']', a);
      Keeps(a, ']', "]]", b);
      Keeps(b, '>', "", q);
      RunThree(p, a, b, Reaction(q, [], None));
      assert q.cdata == p.cdata + ("]" + "]]>");
    } else {
      var a := p.(state := 55, cdata := p.cdata + "]]" + "]");
      var b := a.(state := 56);
      var q := b.(state := 55, cdata := b.cdata + "]" + ">");
      Keeps(p, ']', "]]", a);
      Skips(a, ']', b);
      Keeps(b, '>', "]", q);
      RunThree(p, a, b, Reaction(q, [], None));
      assert q.cdata == p.cdata + ("]]" + "]]>");
    }
  }

  lemma {:induction false} CdataEnds(p: Parser)
    requires p.state == 57
    ensures Step(p, '>') == Reaction(p.(state := 29, cdata := ""), Say(p.cdata), None)
  {
  }

  lemma {:induction false} RunThree(p: Parser, a: Parser, b: Parser, r: Reaction)
    requires Step(p, ']') == Reaction(a, [], None) && Step(a, ']') == Reaction(b, [], None)
    requires Step(b, '>') == r
    ensures Run(p, "]]>") == r
  {
    hide Step, Quiet;
    QuietChar(a, ']', b);
    QuietCons(p, ']', a, [']'], b);
    QuietThen(p, [']'] + [']'], b, ['>']);
    RunOne(b, '>');
    assert [']'] + [']'] + ['>'] == "]]>";
  }
}
