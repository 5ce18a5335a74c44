/**
 Jabber identifiers: escaping of the node part, the parser, and the cache of interned
 objects that stands in front of the parser.
 */
module Jid {

  datatype Result<T> = Ok(value: T) | Err(message: string)

  // ----- escaping -----------------------------------------------------------------------

  /** The position of a character, or the length. */
  function IndexOf(s: string, c: char): (k: nat)
    ensures k <= |s| && (k < |s| ==> s[k] == c) && forall i :: 0 <= i < k ==> s[i] != c
    ensures k == |s| <==> c !in s
  {
    if s == "" then 0 else if s[0] == c then 0 else 1 + IndexOf(s[1..], c)
  }

  /** The two digits a character is escaped with; none for an ordinary character. */
  function Digits(c: char): (d: string)
    ensures |d| == 0 || |d| == 2
  {
    if c == ' ' then "20" else if c == '\"' then "22" else if c == '&' then "26" else if c == '\'' then "27"
    else if c == '/' then "2f" else if c == ':' then "3a" else if c == '<' then "3c" else if c == '>' then "3e"
    else if c == '@' then "40" else if c == '\\' then "5c" else ""
  }

  /** The character that two digits stand for, if any. */
  function Decoded(a: char, b: char): (s: string)
    ensures |s| <= 1
  {
    if a == '2' then
      if b == '0' then " " else if b == '2' then "\"" else if b == '6' then "&" else if b == '7' then "'"
      else if b == 'f' then "/" else ""
    else if a == '3' then
      if b == 'a' then ":" else if b == 'c' then "<" else if b == 'e' then ">" else ""
    else if a == '4' && b == '0' then "@"
    else if a == '5' && b == 'c' then "\\"
    else ""
  }

  predicate HexDigit(c: char) { '0' <= c <= '9' || 'a' <= c <= 'f' }

  function EscapeChar(c: char): string {
    if Digits(c) == "" then [c] else ['\\', Digits(c)[0], Digits(c)[1]]
  }

  function Escape(s: string): string {
    if s == "" then "" else EscapeChar(s[0]) + Escape(s[1..])
  }

  /** Escape sequences are decoded from left to right; unknown ones stay. */
  function Unescape(s: string): string
    decreases |s|
  {
    if s == "" then ""
    else if s[0] == '\\' && |s| >= 3 && HexDigit(s[1]) && HexDigit(s[2]) then
      (if Decoded(s[1], s[2]) != "" then Decoded(s[1], s[2]) else s[..3]) + Unescape(s[3..])
    else [s[0]] + Unescape(s[1..])
  }

  /** A character that a node in escaped form cannot hold. */
  predicate Forbidden(c: char) {
    Digits(c) != "" && c != '\\'
  }

  predicate Clean(s: string) {
    forall c <- s :: !Forbidden(c)
  }

  /** Escapes unless the text can be an escaped node already. */
  function MaybeEscape(s: string): string {
    if s != "" && !Clean(s) then Escape(s) else s
  }

  /** The digits decode to the character and are ordinary characters themselves. */
  lemma {:induction false} Tables(c: char)
    requires Digits(c) != ""
    ensures var d := Digits(c);
            HexDigit(d[0]) && HexDigit(d[1]) && Decoded(d[0], d[1]) == [c] && Digits(d[0]) == "" == Digits(d[1])
  {
  }

  /** One escaped character. */
  lemma {:induction false} EscapedChar(c: char)
    ensures Clean(EscapeChar(c)) && |EscapeChar(c)| >= 1 && (Forbidden(c) ==> |EscapeChar(c)| > 1)
  {
    if Digits(c) != "" {
      Tables(c);
      hide Digits;
    }
  }

  lemma {:induction false} UnescapeChar(c: char, rest: string)
    ensures Unescape(EscapeChar(c) + rest) == [c] + Unescape(rest)
  {
    var s := EscapeChar(c) + rest;
    if Digits(c) != "" {
      Tables(c);
      hide Digits, Decoded, HexDigit;
      assert s[0] == '\\' && s[1] == Digits(c)[0] && s[2] == Digits(c)[1] && s[3..] == rest;
    } else {
      assert s[1..] == rest;
    }
  }

  /** Escaping loses nothing. */
  lemma {:induction false} EscapeRoundTrip(s: string)
    ensures Unescape(Escape(s)) == s
  {
    if s != "" {
      EscapeRoundTrip(s[1..]);
      UnescapeChar(s[0], Escape(s[1..]));
      hide Unescape, EscapeChar;
      assert s == [s[0]] + s[1..];
    }
  }

  /** Escaped text is in escaped form, so it is left alone from then on. */
  lemma {:induction false} EscapedIsClean(s: string)
    ensures Clean(Escape(s)) && MaybeEscape(Escape(s)) == Escape(s)
  {
    if s != "" {
      EscapedIsClean(s[1..]);
      EscapedChar(s[0]);
      hide EscapeChar, Forbidden, Unescape;
      assert forall c <- EscapeChar(s[0]) + Escape(s[1..]) :: c in EscapeChar(s[0]) || c in Escape(s[1..]);
    }
  }

  /** A text with a forbidden character changes when it is escaped. */
  lemma {:induction false} EscapeLengthens(s: string)
    ensures |Escape(s)| >= |s|
    ensures !Clean(s) ==> |Escape(s)| > |s|
  {
    if s != "" {
      EscapeLengthens(s[1..]);
      EscapedChar(s[0]);
      hide EscapeChar, Forbidden, Unescape;
      assert forall c <- s :: c == s[0] || c in s[1..];
    }
  }

  lemma {:induction false} MaybeEscapeFixes(s: string)
    ensures Clean(MaybeEscape(s))
    ensures MaybeEscape(s) == s <==> Clean(s)
    ensures MaybeEscape(s) == "" <==> s == ""
    ensures !Clean(s) ==> Unescape(MaybeEscape(s)) == s
  {
    EscapedIsClean(s);
    EscapeLengthens(s);
    EscapeRoundTrip(s);
  }

  // ----- parsing ---------------------------------------------------------------------------

  /** The three parts; an absent node or resource is empty. */
  datatype Parts = Parts(node: string, domain: string, resource: string)

  function Short(p: Parts): string {
    (if p.node != "" then p.node + "@" else "") + p.domain
  }

  function Long(p: Parts): string {
    Short(p) + if p.resource != "" then "/" + p.resource else ""
  }

  /** What the user is shown. */
  function UserShort(p: Parts): string {
    (if p.node != "" then Unescape(p.node) + "@" else "") + p.domain
  }

  function UserLong(p: Parts): string {
    UserShort(p) + if p.resource != "" then "/" + p.resource else ""
  }

  /** Up to the first '@' is the node; the domain ends at the next slash from there on. */
  function Parse(s: string): Parts {
    var at := IndexOf(s, '@');
    if at < |s| then ParseRest(MaybeEscape(s[..at]), s[at + 1..]) else ParseRest("", s)
  }

  /** The node is known; domain and resource remain. */
  function ParseRest(node: string, rest: string): Parts {
    var slash := IndexOf(rest, '/');
    Parts(node, rest[..slash], if slash < |rest| then rest[slash + 1..] else "")
  }

  /** The node of a text is what stands before its first '@': as it is, if it can be a node in
      escaped form, and otherwise escaped so that it reads as what stood there. */
  lemma {:induction false} NodeOfText(x: string, rest: string)
    requires '@' !in x
    ensures var p := Parse(x + ['@'] + rest);
            && Clean(p.node)
            && (if Clean(x) then p.node == x else Unescape(p.node) == x)
            && p == ParseRest(p.node, rest)
  {
    hide Clean, MaybeEscape, Unescape;
    var s := x + ['@'] + rest;
    IndexBehind(x, '@', rest);
    assert s[..|x|] == x && s[|x| + 1..] == rest;
    MaybeEscapeFixes(x);
  }

  /** A slash behind which nothing follows is dropped. */
  predicate EndsInSlash(rest: string) {
    rest != "" && IndexOf(rest, '/') == |rest| - 1
  }

  /** The user is shown the text as it was typed if and only if its node does not look like
      an escaped one that reads otherwise, and no lone slash ends it. */
  lemma {:induction false} ShownAsTypedIff(x: string, rest: string)
    requires x != "" && '@' !in x
    ensures UserLong(Parse(x + ['@'] + rest)) == x + ['@'] + rest
            <==> (Clean(x) ==> Unescape(x) == x) && !EndsInSlash(rest)
  {
    var p := Parse(x + ['@'] + rest);
    NodeOfText(x, rest);
    var shown := if Clean(x) then Unescape(x) else x;
    NodeIsThere(x, p.node);
    UnescapeShortens(x);
    RestShown(rest, p);
    hide Clean, Unescape, Parse, EndsInSlash, ParseRest;
    var tail := p.domain + Tail(p);
    UserLongIs(p);
    SameCut(shown, tail, x, rest);
  }

  lemma {:induction false} UserLongIs(p: Parts)
    requires p.node != ""
    ensures UserLong(p) == Unescape(p.node) + ['@'] + (p.domain + Tail(p))
  {
    hide Unescape;
  }

  lemma {:induction false} UnescapeShortens(s: string)
    ensures |Unescape(s)| <= |s|
    decreases |s|
  {
    hide Decoded;
    if s != "" {
      UnescapeShortens(s[1..]);
      if |s| >= 3 {
        UnescapeShortens(s[3..]);
      }
    }
  }

  lemma {:induction false} NodeIsThere(x: string, node: string)
    requires x != "" && if Clean(x) then node == x else Unescape(node) == x
    ensures node != ""
  {
  }

  lemma {:induction false} RestShown(rest: string, p: Parts)
    requires p == ParseRest(p.node, rest)
    ensures p.domain + Tail(p) == if EndsInSlash(rest) then rest[..|rest| - 1] else rest
  {
    var slash := IndexOf(rest, '/');
    if slash < |rest| {
      assert rest == rest[..slash] + ['/'] + rest[slash + 1..];
    } else {
      assert rest[..slash] == rest;
    }
  }

  lemma {:induction false} SameCut(a: string, b: string, x: string, y: string)
    requires '@' !in x && |a| <= |x| && |b| <= |y|
    ensures a + ['@'] + b == x + ['@'] + y <==> a == x && b == y
  {
    var s, t := a + ['@'] + b, x + ['@'] + y;
    assert s[..|a|] == a && s[|a| + 1..] == b && t[..|x|] == x && t[|x| + 1..] == y;
    assert |s| == |a| + 1 + |b| && |t| == |x| + 1 + |y|;
  }

  // ----- does a fresh parse agree? -------------------------------------------------------------

  /** Parsing the full form gives the parts back. */
  predicate Faithful(p: Parts) {
    Long(p) != "" && Parse(Long(p)) == p
  }

  /** What it takes, in terms of the parts. */
  predicate Readable(p: Parts) {
    && Long(p) != ""
    && '/' !in p.domain
    && (p.node != "" ==> Clean(p.node))
    && (p.node == "" ==> '@' !in p.domain && '@' !in p.resource)
  }

  /** The position of a character behind a part without it. */
  lemma {:induction false} IndexBehind(a: string, c: char, b: string)
    requires c !in a
    ensures IndexOf(a + [c] + b, c) == |a|
    ensures IndexOf(a, c) == |a|
  {
    var s := a + [c] + b;
    assert s[|a|] == c;
    assert forall i :: 0 <= i < |a| ==> s[i] == a[i];
  }

  /** The tail that follows the domain. */
  function Tail(p: Parts): string {
    if p.resource != "" then "/" + p.resource else ""
  }

  /** A domain without a slash is found again, whatever the resource. */
  lemma {:induction false} DomainFound(p: Parts)
    ensures var rest := p.domain + Tail(p);
            var slash := IndexOf(rest, '/');
            (rest[..slash] == p.domain && (if slash < |rest| then rest[slash + 1..] else "") == p.resource)
            <==> '/' !in p.domain
  {
    var rest := p.domain + Tail(p);
    var slash := IndexOf(rest, '/');
    if '/' !in p.domain {
      if p.resource != "" {
        assert rest == p.domain + ['/'] + p.resource;
        IndexBehind(p.domain, '/', p.resource);
      } else {
        assert rest == p.domain;
      }
    } else {
      var i :| 0 <= i < |p.domain| && p.domain[i] == '/';
      assert rest[i] == '/';
      assert slash <= i;
    }
  }

  lemma {:induction false} AtIsForbidden(s: string)
    requires '@' in s
    ensures !Clean(s)
  {
  }

  lemma {:induction false} Printed(p: Parts)
    ensures p.node != "" ==> Long(p) == p.node + ['@'] + (p.domain + Tail(p))
    ensures p.node == "" ==> Long(p) == p.domain + Tail(p)
  {
  }

  /** Parsing what was printed gives the same parts exactly when the parts are readable. */
  lemma {:induction false} FaithfulIff(p: Parts)
    ensures Faithful(p) <==> Readable(p)
  {
    Printed(p);
    if p.node != "" {
      if '@' in p.node {
        AtIsForbidden(p.node);
        hide Long, Clean, MaybeEscape, Unescape;
        MaybeEscapeFixes(Long(p)[..IndexOf(Long(p), '@')]);
      } else {
        WithNode(p);
      }
    } else {
      WithoutNode(p);
    }
  }

  lemma {:induction false} WithNode(p: Parts)
    requires p.node != "" && '@' !in p.node && Long(p) == p.node + ['@'] + (p.domain + Tail(p))
    ensures Faithful(p) <==> Readable(p)
  {
    hide Long, Clean, MaybeEscape, Tail, Unescape;
    var s, rest := Long(p), p.domain + Tail(p);
    IndexBehind(p.node, '@', rest);
    assert s[..|p.node|] == p.node && s[|p.node| + 1..] == rest;
    hide IndexOf;
    assert Parse(s) == ParseRest(MaybeEscape(p.node), rest);
    hide Parse;
    DomainFound(p);
    MaybeEscapeFixes(p.node);
  }

  lemma {:induction false} WithoutNode(p: Parts)
    requires p.node == "" && Long(p) == p.domain + Tail(p)
    ensures Faithful(p) <==> Readable(p)
  {
    var s := Long(p);
    DomainFound(p);
    assert '@' in Tail(p) <==> '@' in p.resource;
    hide Long, Clean, MaybeEscape, Tail, Unescape;
    assert '@' in s <==> '@' in p.domain || '@' in Tail(p);
    if '@' in s {
      NodeLess(s, p);
    }
  }

  /** With an '@' in it the text does not parse to a bare domain of its own length. */
  lemma {:induction false} NodeLess(s: string, p: Parts)
    requires '@' in s && p.node == "" && s == p.domain + Tail(p)
    ensures Parse(s) != p
  {
    hide Escape, Clean, MaybeEscape, Unescape;
    var at := IndexOf(s, '@');
    MaybeEscapeFixes(s[..at]);
    if at == 0 {
      var q := Parse(s);
      assert |q.domain| + |Tail(q)| <= |s| - 1;
    }
  }

  /** A text whose parse does not print to a text that parses alike: one that starts with
      '@' and holds another '@' or nothing else, or a lone slash. */
  predicate Ambiguous(s: string) {
    s == "/" || s == "@" || s == "@/" || (s != "" && s[0] == '@' && '@' in s[1..])
  }

  /** What comes out of the parser agrees with a fresh parse of its full form, but for the
      ambiguous texts. */
  lemma {:induction false} ParsedIsFaithfulIff(s: string)
    requires s != ""
    ensures Faithful(Parse(s)) <==> !Ambiguous(s)
  {
    FaithfulIff(Parse(s));
    hide Escape, Clean, MaybeEscape, Faithful, Unescape;
    var at := IndexOf(s, '@');
    if at < |s| {
      ParsedWithAt(s, at);
    } else {
      CutAtSlash(s);
      Printed(Parse(s));
      assert s[0] != '@';
    }
  }

  /** Cutting at the first slash loses the slash only. */
  lemma {:induction false} CutAtSlash(rest: string)
    ensures var slash := IndexOf(rest, '/');
            var (domain, resource) := (rest[..slash], if slash < |rest| then rest[slash + 1..] else "");
            && '/' !in domain
            && (domain == "" && resource == "" <==> rest == "" || rest == "/")
            && ('@' in rest <==> '@' in domain || '@' in resource)
  {
    var slash := IndexOf(rest, '/');
    if slash < |rest| {
      assert rest == rest[..slash] + ['/'] + rest[slash + 1..];
    } else {
      assert rest[..slash] == rest;
    }
  }

  lemma {:induction false} ReadableRest(rest: string)
    ensures Readable(ParseRest("", rest)) <==> rest != "" && rest != "/" && '@' !in rest
  {
    CutAtSlash(rest);
    LongIsEmpty(ParseRest("", rest));
    hide Long, IndexOf, Clean;
  }

  lemma {:induction false} ParsedWithAt(s: string, at: nat)
    requires at < |s| && at == IndexOf(s, '@')
    ensures Readable(Parse(s)) <==> !Ambiguous(s)
  {
    hide Escape, Clean, MaybeEscape, IndexOf, Parse, ParseRest, Readable, Unescape;
    var rest := s[at + 1..];
    MaybeEscapeFixes(s[..at]);
    ParseFromAt(s, at);
    if at == 0 {
      assert s[..at] == "";
      ReadableRest(rest);
      AmbiguousRest(s, rest);
    } else {
      ReadableWithNode(MaybeEscape(s[..at]), rest);
    }
  }

  lemma {:induction false} ParseFromAt(s: string, at: nat)
    requires at < |s| && at == IndexOf(s, '@')
    ensures Parse(s) == ParseRest(MaybeEscape(s[..at]), s[at + 1..])
    ensures at > 0 ==> s[0] != '@' && !Ambiguous(s)
  {
    hide Escape, Clean, MaybeEscape, ParseRest, IndexOf;
    assert s[at] == '@';
    if at > 0 {
      assert s != "/" && s[0] != '@';
      assert s != "@" && s != "@/";
    }
  }

  lemma {:induction false} ReadableWithNode(node: string, rest: string)
    requires node != "" && Clean(node)
    ensures Readable(ParseRest(node, rest))
  {
    hide Clean;
    CutAtSlash(rest);
    LongIsEmpty(ParseRest(node, rest));
    hide Long, IndexOf;
  }

  lemma {:induction false} AmbiguousRest(s: string, rest: string)
    requires s != "" && s[0] == '@' && rest == s[1..]
    ensures Ambiguous(s) <==> rest == "" || rest == "/" || '@' in rest
  {
    assert s == ['@'] + rest;
  }

  lemma {:induction false} LongIsEmpty(p: Parts)
    ensures Long(p) == "" <==> p.node == "" && p.domain == "" && p.resource == ""
  {
  }

  // ----- the cache --------------------------------------------------------------------------

  /** An interned identifier. */
  datatype Jid = Jid(parts: Parts, shortJid: string, longJid: string)

  function Make(p: Parts): Jid { Jid(p, Short(p), Long(p)) }

  /** Every entry stands under its own full form and is what the parser makes of it. */
  predicate Agrees(cache: map<string, Jid>) {
    forall k <- cache :: cache[k] == Make(cache[k].parts) && cache[k].longJid == k && Faithful(cache[k].parts)
  }

  /** Keys and full forms, whatever the entries. */
  predicate Keyed(cache: map<string, Jid>) {
    forall k <- cache :: cache[k] == Make(cache[k].parts) && cache[k].longJid == k
  }

  class JidCache {
    var cache: map<string, Jid>

    constructor ()
      ensures cache == map[]
    {
      cache := map[];
    }

    method Intern(p: Parts) returns (j: Jid)
      requires Keyed(cache)
      modifies this
      ensures Keyed(cache)
      ensures Long(p) in old(cache) ==> j == old(cache)[Long(p)] && cache == old(cache)
      ensures Long(p) !in old(cache) ==> j == Make(p) && cache == old(cache)[Long(p) := j]
    {
      var longJid := Long(p);
      if longJid in cache {
        return cache[longJid];
      }
      j := Jid(p, Short(p), longJid);
      cache := cache[longJid := j];
    }

    /** From the parts; the node is escaped unless it is known to be. */
    method FromParts(node: string, domain: string, resource: string, escaped: bool) returns (j: Jid)
      requires Keyed(cache)
      modifies this
      ensures Keyed(cache) && j.longJid in cache && cache[j.longJid] == j
      ensures var p := Parts(if escaped then node else Escape(node), domain, resource);
              && j.longJid == Long(p) && j.shortJid == Short(j.parts)
              && (old(Agrees(cache)) && Readable(p) ==> Agrees(cache) && j == Make(p))
              && (old(Agrees(cache)) && Long(p) !in old(cache) && !Readable(p) ==> !Agrees(cache))
              && (old(Agrees(cache)) && Readable(p) && !escaped ==> Unescape(j.parts.node) == node)
    {
      var p := Parts(if escaped then node else Escape(node), domain, resource);
      FaithfulIff(p);
      EscapeRoundTrip(node);
      hide Faithful, Readable, Escape, Unescape;
      j := Intern(p);
      if old(Agrees(cache)) && Faithful(p) && Long(p) in old(cache) {
        SamePrint(p, old(cache)[Long(p)].parts);
      }
    }

    /** From a text; the cache is asked before the parser. */
    method FromString(s: string) returns (r: Result<Jid>)
      requires Keyed(cache)
      modifies this
      ensures Keyed(cache)
      ensures s == "" && s !in old(cache) ==> r.Err? && cache == old(cache)
      ensures old(Agrees(cache)) && s != "" && !Ambiguous(s) ==> Agrees(cache) && r == Ok(Make(Parse(s)))
      ensures old(Agrees(cache)) && !Ambiguous(s) && '@' in s ==>
                && r.Ok?
                && var x, node := s[..IndexOf(s, '@')], r.value.parts.node;
                   if Clean(x) then node == x else Clean(node) && Unescape(node) == x
    {
      hide Faithful, Parse, Ambiguous, Clean, Unescape;
      if '@' in s {
        CutAtSign(s);
      }
      if s in cache {
        if Agrees(cache) && s != "" && !Ambiguous(s) {
          CachedIsParsed(cache[s].parts);
        }
        return Ok(cache[s]);
      }
      if s == "" {
        return Err("invalid jid");
      }
      var p := Parse(s);
      ParsedIsFaithfulIff(s);
      var j := Intern(p);
      if old(Agrees(cache)) && !Ambiguous(s) && Long(p) in old(cache) {
        SamePrint(p, old(cache)[Long(p)].parts);
      }
      r := Ok(j);
    }
  }

  lemma {:induction false} CutAtSign(s: string)
    requires '@' in s
    ensures s != ""
    ensures var x, node := s[..IndexOf(s, '@')], Parse(s).node;
            if Clean(x) then node == x else Clean(node) && Unescape(node) == x
  {
    hide Clean, Unescape, Parse;
    var at := IndexOf(s, '@');
    assert s == s[..at] + ['@'] + s[at + 1..];
    NodeOfText(s[..at], s[at + 1..]);
  }

  /** Faithful parts with the same full form are the same parts. */
  lemma {:induction false} SamePrint(p: Parts, q: Parts)
    requires Faithful(p) && Faithful(q) && Long(p) == Long(q)
    ensures p == q
  {
  }

  lemma {:induction false} CachedIsParsed(p: Parts)
    requires Faithful(p)
    ensures Parse(Long(p)) == p
  {
  }

  /** What an ambiguous text leaves behind: the full form of "@x@y" is "x@y", which parses
      to other parts. */
  lemma {:induction false} AmbiguousExample(x: string, y: string)
    requires x != "" && Clean(x) && '@' !in x && '/' !in x && '/' !in y
    ensures var p := Parse(['@'] + x + ['@'] + y);
            p == Parts("", x + ['@'] + y, "") && Long(p) == x + ['@'] + y && Parse(Long(p)) == Parts(x, y, "")
  {
    hide Long, MaybeEscape, IndexOf, Clean, Parse, Unescape;
    var t := x + ['@'] + y;
    assert ['@'] + x + ['@'] + y == "" + ['@'] + t;
    MaybeEscapeFixes("");
    MaybeEscapeFixes(x);
    ParseAtSign("", t);
    ParseAtSign(x, y);
    Printed(Parts("", t, ""));
    assert t + "" == t;
  }

  /** Without a slash, the first '@' splits node and domain. */
  lemma {:induction false} ParseAtSign(x: string, y: string)
    requires '@' !in x && '/' !in y
    ensures Parse(x + ['@'] + y) == Parts(MaybeEscape(x), y, "")
  {
    hide MaybeEscape, IndexOf;
    var s := x + ['@'] + y;
    IndexBehind(x, '@', y);
    assert s[..|x|] == x && s[|x| + 1..] == y && y[..|y|] == y;
  }
}
