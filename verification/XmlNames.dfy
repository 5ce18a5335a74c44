/**
 What prefixes mean: the innermost declaration counts, attributes without a prefix have no
 namespace, and which declarations a start tag keeps.
 */
module XmlNames {

  import opened Options
  import Sequences
  import opened XmlText
  import opened StanzaBuilder
  import opened XmlParser
  import opened XmlDiscipline
  import opened XmlMarkup
  import opened XmlPieces

  /** A prefix stands for what the innermost frame that binds it says, and for nothing if
      none does. */
  lemma {:induction false} InnermostBinding(frames: seq<Frame>, prefix: string, i: nat)
    requires i <= |frames| && (i < |frames| ==> prefix in frames[i])
    requires i == |frames| ==> forall j :: 0 <= j < |frames| ==> prefix !in frames[j]
    requires forall j :: i < j < |frames| ==> prefix !in frames[j]
    ensures Lookup(frames, prefix) == if i < |frames| then frames[i][prefix] else ""
    decreases |frames|
  {
    if frames != [] {
      var n := |frames| - 1;
      if i == |frames| {
        InnermostBinding(frames[..n], prefix, n);
      } else if i < n {
        InnermostBinding(frames[..n], prefix, i);
      }
    }
  }

  /** The last colon separates prefix and local name. */
  lemma {:induction false} ColonAt(a: string, b: string)
    requires ':' !in b
    ensures LastColon(a + ":" + b) == |a| && LastColon(b) == |b|
  {
    var s := a + ":" + b;
    assert s[|a|] == ':' && s[|a| + 1..] == b;
  }

  /** Names with and without a prefix: an element without one is in the default namespace, an
      attribute without one in none, but for the declaration of the default namespace. */
  lemma {:induction false} NamesAre(frames: seq<Frame>, prefix: string, local: string, value: string)
    requires ':' !in local
    ensures ResolveTag(frames, prefix + ":" + local) == Name(Lookup(frames, prefix), local)
    ensures ResolveTag(frames, local) == Name(Lookup(frames, ""), local)
    ensures ResolveAttribute(frames, (prefix + ":" + local, value))
            == Attribute(prefix + ":" + local, value, Lookup(frames, prefix), local)
    ensures ResolveAttribute(frames, (local, value))
            == Attribute(local, value, if local == "xmlns" then Lookup(frames, "xmlns") else "", local)
  {
    hide Lookup;
    ColonAt(prefix, local);
    var s := prefix + ":" + local;
    assert s[..|prefix|] == prefix && s[|prefix| + 1..] == local;
  }

  // ----- the attributes a start tag keeps ------------------------------------------------------

  /** A declaration that would rebind what is reserved: it is dropped without an error. */
  predicate Dropped(name: string, value: string) {
    DeclaresPrefix(name) && (value == XMLNS_NS || (DeclaredPrefix(name) == "xml" && value != XML_NS))
  }

  /** What one attribute does, in a start tag below the reserved names. */
  lemma {:induction false} AttributeIs(p: Parser, name: string, value: string)
    requires Reserved(p.frames) && |p.frames| >= 2
    ensures var (q, error) := AddAttribute(p, name, value);
            var n := |p.frames| - 1;
            && (error.Some? <==> name == "xmlns:xmlns")
            && (error.None? && Dropped(name, value) ==> q == p)
            && (error.None? && !Dropped(name, value) ==>
                  && q.attributes == p.attributes + [(name, value)] && q.frames[..n] == p.frames[..n]
                  && q.frames[n..] == [if DeclaresPrefix(name) then p.frames[n][DeclaredPrefix(name) := value]
                                       else p.frames[n]])
  {
    ReservedLookup(p.frames);
    hide Lookup;
  }

  /** The attributes that are kept, in order, with their references replaced. */
  function KeptAttributes(attributes: seq<Attr>): seq<(string, string)>
    decreases |attributes|
  {
    if attributes == [] then []
    else
      var a := (attributes[0].name, XmlUnescape(attributes[0].raw));
      (if Dropped(a.0, a.1) then [] else [a]) + KeptAttributes(attributes[1..])
  }

  /** What the last kept declaration of a prefix among some attributes says, if there is one. */
  function Declared(attributes: seq<Attr>, prefix: string): Option<string>
    decreases |attributes|
  {
    if attributes == [] then None
    else
      var a := attributes[|attributes| - 1];
      var value := XmlUnescape(a.raw);
      if DeclaresPrefix(a.name) && DeclaredPrefix(a.name) == prefix && !Dropped(a.name, value) then Some(value)
      else Declared(attributes[..|attributes| - 1], prefix)
  }

  /** A start tag keeps all its attributes but the dropped ones, and its frame binds exactly
      the prefixes that it declares, each to the last value. */
  lemma {:induction false} StartTagBinds(frames: seq<Frame>, t: Markup, prefix: string)
    requires t.Tag? && Reserved(frames) && Dress(Bare(frames), t.attributes).1.None?
    ensures var d := Dressed(frames, t);
            var n := |frames|;
            && d.attributes == KeptAttributes(t.attributes)
            && |d.frames| == n + 1 && d.frames[..n] == frames
            && (prefix in d.frames[n] <==> Declared(t.attributes, prefix).Some?)
            && (prefix in d.frames[n] ==> d.frames[n][prefix] == Declared(t.attributes, prefix).value)
  {
    var p := Bare(frames);
    var n := |frames|;
    assert p.frames[..n] == frames && p.frames[n] == map[];
    assert Reserved(p.frames);
    DressedKeeps(p, t.attributes);
    DressedBinds(p, t.attributes, prefix);
    assert [] + KeptAttributes(t.attributes) == KeptAttributes(t.attributes);
  }

  lemma {:induction false} DressedKeeps(p: Parser, attributes: seq<Attr>)
    requires Reserved(p.frames) && |p.frames| >= 2 && Dress(p, attributes).1.None?
    ensures var d := Dress(p, attributes).0;
            var n := |p.frames| - 1;
            && d.attributes == p.attributes + KeptAttributes(attributes)
            && |d.frames| == n + 1 && d.frames[..n] == p.frames[..n]
    decreases |attributes|
  {
    hide XmlUnescape, Dropped, DeclaresPrefix;
    if attributes != [] {
      var value := XmlUnescape(attributes[0].raw);
      AttributeIs(p, attributes[0].name, value);
      AttributeKeepsFrames(p, attributes[0].name, value);
      var q := AddAttribute(p, attributes[0].name, value).0;
      hide AddAttribute, Reserved;
      DressedKeeps(q, attributes[1..]);
      hide Dress;
      var a := (attributes[0].name, value);
      var kept := if Dropped(a.0, a.1) then [] else [a];
      assert q.attributes == p.attributes + kept;
      Sequences.Regroup(p.attributes, kept, KeptAttributes(attributes[1..]));
    } else {
      assert p.attributes + [] == p.attributes;
    }
  }

  /** What the innermost frame says of a prefix. */
  function Innermost(p: Parser, prefix: string): Option<string>
    requires p.frames != []
  {
    var top := p.frames[|p.frames| - 1];
    if prefix in top then Some(top[prefix]) else None
  }

  lemma {:induction false} AttributeBinds(p: Parser, name: string, value: string, prefix: string)
    requires Reserved(p.frames) && |p.frames| >= 2 && AddAttribute(p, name, value).1.None?
    ensures var q := AddAttribute(p, name, value).0;
            && Reserved(q.frames) && |q.frames| == |p.frames|
            && Innermost(q, prefix)
               == if DeclaresPrefix(name) && DeclaredPrefix(name) == prefix && !Dropped(name, value) then Some(value)
                  else Innermost(p, prefix)
  {
    AttributeIs(p, name, value);
    AttributeKeepsFrames(p, name, value);
    var q := AddAttribute(p, name, value).0;
    hide AddAttribute, Reserved, Dropped, DeclaresPrefix;
    var n := |p.frames| - 1;
    if !Dropped(name, value) {
      assert q.frames[n] == q.frames[n..][0];
    }
  }

  lemma {:induction false} DressedBinds(p: Parser, attributes: seq<Attr>, prefix: string)
    requires Reserved(p.frames) && |p.frames| >= 2 && Dress(p, attributes).1.None?
    ensures var d := Dress(p, attributes).0;
            && d.frames != []
            && Innermost(d, prefix) == if Declared(attributes, prefix).Some? then Declared(attributes, prefix)
                                       else Innermost(p, prefix)
    decreases |attributes|
  {
    hide XmlUnescape, Dropped, DeclaresPrefix, Innermost, Declared;
    if attributes != [] {
      var value := XmlUnescape(attributes[0].raw);
      AttributeBinds(p, attributes[0].name, value, prefix);
      DeclaredFirst(attributes, prefix);
      hide AddAttribute, Reserved;
      DressedBinds(AddAttribute(p, attributes[0].name, value).0, attributes[1..], prefix);
    } else {
      NothingDeclared(prefix);
    }
  }

  lemma {:induction false} NothingDeclared(prefix: string)
    ensures Declared([], prefix) == None
  {
  }

  /** The first attribute counts if no later one declares the prefix. */
  lemma {:induction false} DeclaredFirst(attributes: seq<Attr>, prefix: string)
    requires attributes != []
    ensures var a := attributes[0];
            Declared(attributes, prefix)
            == if Declared(attributes[1..], prefix).Some? then Declared(attributes[1..], prefix)
               else if DeclaresPrefix(a.name) && DeclaredPrefix(a.name) == prefix
                       && !Dropped(a.name, XmlUnescape(a.raw))
               then Some(XmlUnescape(a.raw)) else None
    decreases |attributes|
  {
    hide XmlUnescape, Dropped, DeclaresPrefix;
    var n := |attributes| - 1;
    if n > 0 {
      DeclaredFirst(attributes[..n], prefix);
      assert attributes[..n][1..] == attributes[1..][..n - 1] && attributes[1..][n - 1] == attributes[n];
    } else {
      assert attributes[..0] == [];
    }
  }
}
