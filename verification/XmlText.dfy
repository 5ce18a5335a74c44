/**
 Escaping of XML character data: chained global replacements, as the program performs
 them, proved to be a single left-to-right decoding.
 */
module XmlText {

  import opened Sequences

  /** The five references, in the order in which they are replaced. */
  const REFERENCES: seq<string> := ["&lt;", "&gt;", "&apos;", "&quot;", "&amp;"]
  const CHARACTERS: string := "<>'\"&"

  /** Replaces every occurrence of a pattern, left to right, without overlap. */
  function ReplaceAll(s: string, pattern: string, image: string): string
    requires |pattern| > 0
  {
    if s == "" then ""
    else if pattern <= s then image + ReplaceAll(s[|pattern|..], pattern, image)
    else [s[0]] + ReplaceAll(s[1..], pattern, image)
  }

  function XmlEscape(str: string): string {
    ReplaceAll(
      ReplaceAll(
        ReplaceAll(
          ReplaceAll(
            ReplaceAll(str, "&", "&amp;"),
            "<", "&lt;"),
          ">", "&gt;"),
        "'", "&apos;"),
      "\"", "&quot;")
  }

  function XmlUnescape(str: string): string {
    ReplaceAll(
      ReplaceAll(
        ReplaceAll(
          ReplaceAll(
            ReplaceAll(str, "&lt;", "<"),
            "&gt;", ">"),
          "&apos;", "'"),
        "&quot;", "\""),
      "&amp;", "&")
  }

  // ----- one pass -----------------------------------------------------------------

  /** The reference, among the first k, that a text starts with; k if there is none. */
  function Leading(s: string, k: nat): (j: nat)
    requires k <= 5
    ensures j <= k && (j < k ==> REFERENCES[j] <= s)
    ensures j == k ==> forall i :: 0 <= i < k ==> !(REFERENCES[i] <= s)
  {
    if k == 0 then 0
    else
      var j := Leading(s, k - 1);
      if j < k - 1 then j else if REFERENCES[k - 1] <= s then k - 1 else k
  }

  /** Decodes the first k kinds of reference in one pass. */
  function DecodeSome(s: string, k: nat): string
    requires k <= 5
  {
    if s == "" then ""
    else
      var j := Leading(s, k);
      if j < k then [CHARACTERS[j]] + DecodeSome(s[|REFERENCES[j]|..], k)
      else [s[0]] + DecodeSome(s[1..], k)
  }

  /** Decodes every reference in one pass. */
  function Decode(s: string): string { DecodeSome(s, 5) }

  /** References start with an ampersand and have no other; no reference is a prefix of
      another; the characters they stand for do not occur in them, except the last. */
  lemma {:induction false} ReferenceShapes()
    ensures forall j :: 0 <= j < 5 ==>
              |REFERENCES[j]| >= 4 && REFERENCES[j][0] == '&' && '&' !in REFERENCES[j][1..]
    ensures forall j, i :: 0 <= j < 5 && 0 <= i < |REFERENCES[j]| ==>
              REFERENCES[j][i] != '<' && REFERENCES[j][i] != '>' && REFERENCES[j][i] != '\'' && REFERENCES[j][i] != '\"'
    ensures forall i, j :: 0 <= i < 5 && 0 <= j < 5 && i != j ==>
              REFERENCES[i][1] != REFERENCES[j][1] || REFERENCES[i][2] != REFERENCES[j][2]
  {
  }

  lemma {:induction false} LeadingUnique(s: string, i: nat, j: nat)
    requires i < 5 && j < 5 && REFERENCES[i] <= s && REFERENCES[j] <= s
    ensures i == j
  {
    ReferenceShapes();
    assert REFERENCES[i][1] == s[1] == REFERENCES[j][1];
    assert REFERENCES[i][2] == s[2] == REFERENCES[j][2];
  }

  lemma {:induction false} LeadingIs(s: string, j: nat, k: nat)
    requires j < k <= 5 && REFERENCES[j] <= s
    ensures Leading(s, k) == j
    ensures DecodeSome(s, k) == [CHARACTERS[j]] + DecodeSome(s[|REFERENCES[j]|..], k)
  {
    if Leading(s, k) < k {
      LeadingUnique(s, j, Leading(s, k));
    }
    ReferenceShapes();
  }

  lemma {:induction false} PlainHead(s: string, k: nat)
    requires k <= 5 && s != "" && s[0] != '&'
    ensures Leading(s, k) == k
    ensures DecodeSome(s, k) == [s[0]] + DecodeSome(s[1..], k)
  {
    ReferenceShapes();
  }

  /** Without an ampersand in front, text is copied. */
  lemma {:induction false} DecodePlain(w: string, t: string, k: nat)
    requires k <= 5 && '&' !in w
    ensures DecodeSome(w + t, k) == w + DecodeSome(t, k)
  {
    hide DecodeSome, Leading;
    if w == "" {
      assert w + t == t;
    } else {
      PlainHead(w + t, k);
      DecodePlain(w[1..], t, k);
      assert (w + t)[1..] == w[1..] + t;
      assert w == [w[0]] + w[1..];
      Regroup([w[0]], w[1..], DecodeSome(t, k));
    }
  }

  /** A decoded text starts with a decoded character or as the text itself does. */
  lemma {:induction false} DecodedHead(t: string, k: nat)
    requires k <= 4 && t != ""
    ensures var d := DecodeSome(t, k);
            d[0] == '<' || d[0] == '>' || d[0] == '\'' || d[0] == '\"'
            || (Leading(t, k) == k && d[0] == t[0] && d[1..] == DecodeSome(t[1..], k))
  {
    assert CHARACTERS[0] == '<' && CHARACTERS[1] == '>' && CHARACTERS[2] == '\'' && CHARACTERS[3] == '\"';
    var j := Leading(t, k);
    if j < k {
      assert j == 0 || j == 1 || j == 2 || j == 3;
    }
  }

  /** Text that the decoding shows, and that holds neither an ampersand nor a decoded
      character, was there before. */
  lemma {:induction false} DecodeReflects(w: string, t: string, k: nat)
    requires k <= 4 && w <= DecodeSome(t, k)
    requires forall i :: 0 <= i < |w| ==> w[i] != '&' && w[i] != '<' && w[i] != '>' && w[i] != '\'' && w[i] != '\"'
    ensures w <= t
  {
    if w != "" {
      var d := DecodeSome(t, k);
      assert t != "";
      assert w[0] == d[0];
      DecodedHead(t, k);
      assert w[1..] <= d[1..] == DecodeSome(t[1..], k);
      DecodeReflects(w[1..], t[1..], k);
      assert w == [w[0]] + w[1..];
    }
  }

  /** Replacing one more kind of reference after decoding the earlier ones is decoding
      all of them at once. */
  lemma {:induction false} ReplaceStep(s: string, k: nat)
    requires k < 5
    ensures ReplaceAll(DecodeSome(s, k), REFERENCES[k], [CHARACTERS[k]]) == DecodeSome(s, k + 1)
  {
    if s != "" {
      var j := Leading(s, k);
      if j < k {
        ReplaceStep(s[|REFERENCES[j]|..], k);
        StepOverDecoded(s, k);
      } else if REFERENCES[k] <= s {
        ReplaceStep(s[|REFERENCES[k]|..], k);
        StepAtReference(s, k);
      } else {
        ReplaceStep(s[1..], k);
        StepOverPlain(s, k);
      }
    }
  }

  lemma {:induction false} StepOverDecoded(s: string, k: nat)
    requires k < 5 && s != "" && Leading(s, k) < k
    requires var rest := s[|REFERENCES[Leading(s, k)]|..];
             ReplaceAll(DecodeSome(rest, k), REFERENCES[k], [CHARACTERS[k]]) == DecodeSome(rest, k + 1)
    ensures ReplaceAll(DecodeSome(s, k), REFERENCES[k], [CHARACTERS[k]]) == DecodeSome(s, k + 1)
  {
    var j := Leading(s, k);
    var r, d := REFERENCES[k], DecodeSome(s, k);
    LeadingIs(s, j, k + 1);
    assert d[0] == CHARACTERS[j] && d[1..] == DecodeSome(s[|REFERENCES[j]|..], k);
    assert CHARACTERS[j] != '&' by {
      assert j == 0 || j == 1 || j == 2 || j == 3;
    }
    NotAtReference(d, k);
  }

  lemma {:induction false} NotAtReference(d: string, k: nat)
    requires k < 5 && d != "" && d[0] != '&'
    ensures !(REFERENCES[k] <= d)
  {
    ReferenceShapes();
  }

  lemma {:induction false} StepAtReference(s: string, k: nat)
    requires k < 5 && REFERENCES[k] <= s && Leading(s, k) == k
    requires var rest := s[|REFERENCES[k]|..];
             ReplaceAll(DecodeSome(rest, k), REFERENCES[k], [CHARACTERS[k]]) == DecodeSome(rest, k + 1)
    ensures ReplaceAll(DecodeSome(s, k), REFERENCES[k], [CHARACTERS[k]]) == DecodeSome(s, k + 1)
  {
    var r := REFERENCES[k];
    var rest := s[|r|..];
    var d := DecodeSome(rest, k);
    LeadingIs(s, k, k + 1);
    UndecodedReference(s, k);
    hide DecodeSome, Leading;
    assert r + d != "" && r <= r + d && (r + d)[|r|..] == d;
  }

  lemma {:induction false} UndecodedReference(s: string, k: nat)
    requires k < 5 && REFERENCES[k] <= s && Leading(s, k) == k
    ensures DecodeSome(s, k) == REFERENCES[k] + DecodeSome(s[|REFERENCES[k]|..], k)
  {
    var r := REFERENCES[k];
    assert r != "" && '&' !in r[1..] by { ReferenceShapes(); }
    assert DecodeSome(s, k) == [s[0]] + DecodeSome(s[1..], k);
    CopyReference(s, r, k);
  }

  lemma {:induction false} CopyReference(s: string, r: string, k: nat)
    requires k <= 5 && r != "" && '&' !in r[1..] && r <= s
    ensures [s[0]] + DecodeSome(s[1..], k) == r + DecodeSome(s[|r|..], k)
  {
    hide DecodeSome;
    assert s[1..] == r[1..] + s[|r|..];
    DecodePlain(r[1..], s[|r|..], k);
    assert r == [s[0]] + r[1..];
    Regroup([s[0]], r[1..], DecodeSome(s[|r|..], k));
  }

  lemma {:induction false} StepOverPlain(s: string, k: nat)
    requires k < 5 && s != "" && !(REFERENCES[k] <= s) && Leading(s, k) == k
    requires ReplaceAll(DecodeSome(s[1..], k), REFERENCES[k], [CHARACTERS[k]]) == DecodeSome(s[1..], k + 1)
    ensures ReplaceAll(DecodeSome(s, k), REFERENCES[k], [CHARACTERS[k]]) == DecodeSome(s, k + 1)
  {
    var r, d := REFERENCES[k], DecodeSome(s, k);
    assert d[0] == s[0] && d[1..] == DecodeSome(s[1..], k);
    if r <= d {
      ReferenceReflected(s, k);
    }
    assert Leading(s, k + 1) == k + 1;
  }

  /** A reference at the front of a text decoded so far was in the text. */
  lemma {:induction false} ReferenceReflected(s: string, k: nat)
    requires k < 5 && s != "" && Leading(s, k) == k && REFERENCES[k] <= DecodeSome(s, k)
    ensures REFERENCES[k] <= s
  {
    ReferenceShapes();
    var r, d := REFERENCES[k], DecodeSome(s, k);
    assert d[0] == s[0] && d[1..] == DecodeSome(s[1..], k);
    assert r[1..] <= d[1..];
    DecodeReflects(r[1..], s[1..], k);
    assert r == [r[0]] + r[1..];
  }

  lemma {:induction false} DecodeNone(s: string)
    ensures DecodeSome(s, 0) == s
  {
    if s != "" {
      DecodeNone(s[1..]);
    }
  }

  /** The chain of replacements is one left-to-right decoding. */
  lemma {:induction false} UnescapeIsDecode(s: string)
    ensures XmlUnescape(s) == Decode(s)
  {
    DecodeNone(s);
    ReplaceStep(s, 0);
    ReplaceStep(s, 1);
    ReplaceStep(s, 2);
    ReplaceStep(s, 3);
    ReplaceStep(s, 4);
    assert REFERENCES[0] == "&lt;" && REFERENCES[1] == "&gt;" && REFERENCES[2] == "&apos;" && REFERENCES[3] == "&quot;";
    assert REFERENCES[4] == "&amp;";
  }

  // ----- cutting a text ---------------------------------------------------------------

  /** A reference lies across the cut. */
  ghost predicate Straddles(a: string, b: string) {
    exists j: nat, i: nat :: CutsReference(a, b, j, i)
  }

  /** Reference j lies across the cut, i of its characters before it. */
  ghost predicate CutsReference(a: string, b: string, j: nat, i: nat) {
    j < 5 && 0 < i < |REFERENCES[j]| && i <= |a| && a[|a| - i..] == REFERENCES[j][..i] && REFERENCES[j][i..] <= b
  }

  lemma {:induction false} StraddlesSuffix(p: string, a: string, b: string)
    requires Straddles(a, b)
    ensures Straddles(p + a, b)
  {
    var j: nat, i: nat :| CutsReference(a, b, j, i);
    assert (p + a)[|p + a| - i..] == a[|a| - i..];
    assert CutsReference(p + a, b, j, i);
  }

  lemma {:induction false} StraddlesPrefix(a: string, b: string, r: string)
    requires Straddles(a, b)
    ensures Straddles(a, b + r)
  {
    var j: nat, i: nat :| CutsReference(a, b, j, i);
    assert CutsReference(a, b + r, j, i);
  }

  /** Away from references decoding distributes over the cut. */
  lemma {:induction false} DecodeDistributes(a: string, b: string)
    requires !Straddles(a, b)
    ensures Decode(a + b) == Decode(a) + Decode(b)
  {
    if a == "" {
      assert a + b == b;
    } else {
      var n, c := CommonStep(a, b);
      NoStraddleAfter(a, n, b);
      DecodeDistributes(a[n..], b);
      hide DecodeSome, Straddles;
      Regroup([c], Decode(a[n..]), Decode(b));
    }
  }

  /** The first decoding step is the same before and after the rest arrives. */
  lemma {:induction false} CommonStep(a: string, b: string) returns (n: nat, c: char)
    requires a != "" && !Straddles(a, b)
    ensures 0 < n <= |a|
    ensures Decode(a) == [c] + Decode(a[n..])
    ensures Decode(a + b) == [c] + Decode(a[n..] + b)
  {
    var j := Leading(a + b, 5);
    if j < 5 {
      n, c := |REFERENCES[j]|, CHARACTERS[j];
      WholeBeforeCut(a, b, j);
      hide Straddles, Leading, DecodeSome;
      CommonReference(a, b, j);
    } else {
      n, c := 1, a[0];
      LeadingOfPart(a, b);
      hide Straddles, Leading;
      assert (a + b)[1..] == a[1..] + b;
    }
  }

  lemma {:induction false} CommonReference(a: string, b: string, j: nat)
    requires j < 5 && REFERENCES[j] <= a
    ensures var n := |REFERENCES[j]|;
            && n > 0 && Decode(a) == [CHARACTERS[j]] + Decode(a[n..])
            && Decode(a + b) == [CHARACTERS[j]] + Decode(a[n..] + b)
  {
    hide DecodeSome, Leading;
    var n := |REFERENCES[j]|;
    LeadingIs(a, j, 5);
    LeadingIs(a + b, j, 5);
    assert n > 0 by { ReferenceShapes(); }
    hide REFERENCES;
    assert (a + b)[n..] == a[n..] + b;
  }

  lemma {:induction false} WholeBeforeCut(a: string, b: string, j: nat)
    requires j < 5 && a != "" && REFERENCES[j] <= a + b
    ensures REFERENCES[j] <= a || Straddles(a, b)
  {
    var r := REFERENCES[j];
    if |r| > |a| {
      assert a[|a| - |a|..] == r[..|a|];
      assert r[|a|..] <= b;
      assert CutsReference(a, b, j, |a|);
    }
  }

  lemma {:induction false} NoStraddleAfter(a: string, n: nat, b: string)
    requires n <= |a| && !Straddles(a, b)
    ensures !Straddles(a[n..], b)
  {
    assert a[..n] + a[n..] == a;
    if Straddles(a[n..], b) {
      StraddlesSuffix(a[..n], a[n..], b);
    }
  }

  lemma {:induction false} LeadingOfPart(a: string, b: string)
    requires Leading(a + b, 5) == 5
    ensures Leading(a, 5) == 5
  {
    assert forall j :: 0 <= j < 5 && REFERENCES[j] <= a ==> REFERENCES[j] <= a + b;
  }

  /** The pieces of a cut reference decode to more characters than the whole. */
  lemma {:induction false} DecodeLength(a: string, b: string)
    requires Straddles(a, b)
    ensures |Decode(a + b)| < |Decode(a)| + |Decode(b)|
  {
    var j: nat, i: nat :| CutsReference(a, b, j, i);
    var r := REFERENCES[j];
    var p, q := a[..|a| - i], b[|r| - i..];
    StraddledLength(p, j, i, q);
    hide DecodeSome, REFERENCES, CutsReference;
    JoinHalves(a, b, r, i);
  }

  lemma {:induction false} JoinHalves(a: string, b: string, r: string, i: nat)
    requires 0 < i < |r| && i <= |a| && a[|a| - i..] == r[..i] && r[i..] <= b
    ensures var p, q := a[..|a| - i], b[|r| - i..];
            a == p + r[..i] && b == r[i..] + q && a + b == p + r + q
  {
    var p, q := a[..|a| - i], b[|r| - i..];
    assert a == p + r[..i];
    assert b == r[i..] + q;
    Regroup(p, r[..i], r[i..] + q);
    Regroup(r[..i], r[i..], q);
    assert r[..i] + r[i..] == r;
    Regroup(p, r, q);
  }

  /** A whole reference decodes to one character, its two halves to themselves. */
  lemma {:induction false} StraddledLength(p: string, j: nat, i: nat, q: string)
    requires j < 5 && 0 < i < |REFERENCES[j]|
    ensures var r := REFERENCES[j];
            |Decode(p + r + q)| < |Decode(p + r[..i])| + |Decode(r[i..] + q)|
  {
    var r := REFERENCES[j];
    var s, t := p + r + q, p + r[..i];
    if p == "" {
      assert s == r + q && t == r[..i];
      WholeAndHalves(j, i, q);
    } else {
      hide DecodeSome, Leading;
      var n := LeadingLength(p, r, i, q);
      StraddledLength(p[n..], j, i, q);
      assert s[n..] == p[n..] + r + q && t[n..] == p[n..] + r[..i];
    }
  }

  /** What decodes to the first character does not reach the reference behind it. */
  lemma {:induction false} LeadingLength(p: string, r: string, i: nat, q: string) returns (n: nat)
    requires p != "" && r in REFERENCES && 0 < i < |r|
    ensures 0 < n <= |p|
    ensures |Decode(p + r + q)| == 1 + |Decode((p + r + q)[n..])|
    ensures |Decode(p + r[..i])| == 1 + |Decode((p + r[..i])[n..])|
  {
    var s, t := p + r + q, p + r[..i];
    var l := Leading(s, 5);
    if l < 5 {
      n := |REFERENCES[l]|;
      StopsBefore(p, r, q, l);
      LeadingIs(t, l, 5);
    } else {
      n := 1;
      assert s == t + (r[i..] + q);
      LeadingOfPart(t, r[i..] + q);
    }
  }

  lemma {:induction false} StopsBefore(p: string, r: string, q: string, l: nat)
    requires p != "" && r in REFERENCES && l < 5 && REFERENCES[l] <= p + r + q
    ensures 0 < |REFERENCES[l]| <= |p| && REFERENCES[l] <= p
  {
    ReferenceShapes();
    Regroup(p, r, q);
    OneAmpersand(REFERENCES[l], p, r + q);
  }

  lemma {:induction false} OneAmpersand(h: string, p: string, rest: string)
    requires p != "" && h <= p + rest && rest != "" && rest[0] == '&' && h != ""
    ensures '&' in h[1..] || (|h| <= |p| && h <= p)
  {
    if |h| > |p| {
      assert h[1..][|p| - 1] == '&';
    }
  }

  lemma {:induction false} WholeAndHalves(j: nat, i: nat, q: string)
    requires j < 5 && 0 < i < |REFERENCES[j]|
    ensures var r := REFERENCES[j];
            |Decode(r + q)| < |Decode(r[..i])| + |Decode(r[i..] + q)|
  {
    var r := REFERENCES[j];
    LeadingIs(r + q, j, 5);
    assert (r + q)[|r|..] == q;
    DecodeHalves(j, i, q);
  }

  lemma {:induction false} DecodeHalves(j: nat, i: nat, q: string)
    requires j < 5 && 0 < i < |REFERENCES[j]|
    ensures var r := REFERENCES[j];
            Decode(r[..i]) == r[..i] && Decode(r[i..] + q) == r[i..] + Decode(q)
  {
    ReferenceShapes();
    var r := REFERENCES[j];
    DecodePlain(r[i..], q, 5);
    var h := r[..i];
    var l := Leading(h, 5);
    if l < 5 {
      LeadingUnique(r, l, j);
    }
    assert DecodeSome(h, 5) == [h[0]] + DecodeSome(h[1..], 5);
    DecodePlain(h[1..], "", 5);
    assert h[1..] + "" == h[1..];
  }

  /** Cutting a text and decoding the pieces gives the decoded text exactly when no
      reference lies across the cut. */
  lemma {:induction false} DecodeDistributesIff(a: string, b: string)
    ensures Decode(a + b) == Decode(a) + Decode(b) <==> !Straddles(a, b)
  {
    if Straddles(a, b) {
      DecodeLength(a, b);
    } else {
      DecodeDistributes(a, b);
    }
  }

  lemma {:induction false} DecodeNonempty(s: string)
    ensures Decode(s) == "" <==> s == ""
  {
  }

  // ----- round trip ---------------------------------------------------------------------

  /** What one character is escaped to. */
  function EscapeChar(c: char): string {
    if c == '&' then "&amp;" else if c == '<' then "&lt;" else if c == '>' then "&gt;"
    else if c == '\'' then "&apos;" else if c == '\"' then "&quot;" else [c]
  }

  function EscapeEach(s: string): string {
    if s == "" then "" else EscapeChar(s[0]) + EscapeEach(s[1..])
  }

  lemma {:induction false} ReplaceHead(s: string, c: char, image: string)
    requires s != ""
    ensures ReplaceAll(s, [c], image) == (if s[0] == c then image else [s[0]]) + ReplaceAll(s[1..], [c], image)
  {
    assert [c] <= s <==> s[0] == c;
  }

  /** Character-wise replacement distributes over concatenation. */
  lemma {:induction false} ReplaceCharConcat(a: string, b: string, c: char, image: string)
    ensures ReplaceAll(a + b, [c], image) == ReplaceAll(a, [c], image) + ReplaceAll(b, [c], image)
  {
    if a == "" {
      assert a + b == b;
    } else {
      ReplaceCharConcat(a[1..], b, c, image);
      ReplaceHead(a + b, c, image);
      ReplaceHead(a, c, image);
      hide ReplaceAll;
      assert (a + b)[1..] == a[1..] + b;
      Regroup(if a[0] == c then image else [a[0]], ReplaceAll(a[1..], [c], image), ReplaceAll(b, [c], image));
    }
  }

  lemma {:induction false} EscapeIsEach(s: string)
    ensures XmlEscape(s) == EscapeEach(s)
  {
    if s != "" {
      EscapeIsEach(s[1..]);
      EscapeConcat([s[0]], s[1..]);
      assert s == [s[0]] + s[1..];
      EscapeOne(s[0]);
    }
  }

  lemma {:induction false} EscapeConcat(a: string, b: string)
    ensures XmlEscape(a + b) == XmlEscape(a) + XmlEscape(b)
  {
    var a1, b1 := ReplaceAll(a, "&", "&amp;"), ReplaceAll(b, "&", "&amp;");
    ReplaceCharConcat(a, b, '&', "&amp;");
    var a2, b2 := ReplaceAll(a1, "<", "&lt;"), ReplaceAll(b1, "<", "&lt;");
    ReplaceCharConcat(a1, b1, '<', "&lt;");
    var a3, b3 := ReplaceAll(a2, ">", "&gt;"), ReplaceAll(b2, ">", "&gt;");
    ReplaceCharConcat(a2, b2, '>', "&gt;");
    var a4, b4 := ReplaceAll(a3, "'", "&apos;"), ReplaceAll(b3, "'", "&apos;");
    ReplaceCharConcat(a3, b3, '\'', "&apos;");
    ReplaceCharConcat(a4, b4, '\"', "&quot;");
  }

  lemma {:induction false} ReplaceAbsent(s: string, c: char, image: string)
    requires c !in s
    ensures ReplaceAll(s, [c], image) == s
  {
    if s != "" {
      ReplaceHead(s, c, image);
      ReplaceAbsent(s[1..], c, image);
    }
  }

  lemma {:induction false} ReplaceOne(c: char, d: char, image: string)
    ensures ReplaceAll([c], [d], image) == if c == d then image else [c]
  {
    if c == d {
      assert [c][1..] == "";
      assert image + "" == image;
    } else {
      ReplaceAbsent([c], d, image);
    }
  }

  lemma {:induction false} EscapeOne(c: char)
    ensures XmlEscape([c]) == EscapeChar(c)
  {
    ReplaceOne(c, '&', "&amp;");
    ReplaceOne(c, '<', "&lt;");
    ReplaceOne(c, '>', "&gt;");
    ReplaceOne(c, '\'', "&apos;");
    ReplaceOne(c, '\"', "&quot;");
    var e := EscapeChar(c);
    if c == '&' || c == '<' || c == '>' || c == '\'' {
      assert '<' !in e && '>' !in e && '\'' !in e && '\"' !in e;
      ReplaceAbsent(e, '<', "&lt;");
      ReplaceAbsent(e, '>', "&gt;");
      ReplaceAbsent(e, '\'', "&apos;");
      ReplaceAbsent(e, '\"', "&quot;");
    }
  }

  /** Unescaping an escaped text gives the text back. */
  lemma {:induction false} EscapeRoundTrip(s: string)
    ensures XmlUnescape(XmlEscape(s)) == s
  {
    EscapeIsEach(s);
    UnescapeIsDecode(EscapeEach(s));
    DecodeEach(s, "");
    assert EscapeEach(s) + "" == EscapeEach(s) && s + "" == s;
  }

  lemma {:induction false} DecodeEach(s: string, t: string)
    ensures Decode(EscapeEach(s) + t) == s + Decode(t)
  {
    if s == "" {
      assert EscapeEach(s) + t == t;
    } else {
      var e, rest := EscapeChar(s[0]), EscapeEach(s[1..]);
      DecodeEach(s[1..], t);
      DecodeEscaped(s[0], rest + t);
      hide DecodeSome, EscapeChar;
      Regroup(e, rest, t);
      assert s == [s[0]] + s[1..];
      Regroup([s[0]], s[1..], Decode(t));
    }
  }

  lemma {:induction false} DecodeEscaped(c: char, rest: string)
    ensures Decode(EscapeChar(c) + rest) == [c] + Decode(rest)
  {
    ReferenceShapes();
    var e := EscapeChar(c);
    if c == '<' || c == '>' || c == '\'' || c == '\"' || c == '&' {
      var j := if c == '<' then 0 else if c == '>' then 1 else if c == '\'' then 2 else if c == '\"' then 3 else 4;
      assert REFERENCES[j] == e && CHARACTERS[j] == c;
      LeadingIs(e + rest, j, 5);
      assert (e + rest)[|e|..] == rest;
    } else {
      DecodePlain(e, rest, 5);
    }
  }

  /** A text without special characters means itself. */
  lemma {:induction false} OrdinaryStays(s: string)
    requires forall c <- s :: c != '&' && c != '<' && c != '>' && c != '\'' && c != '\"'
    ensures XmlEscape(s) == s && XmlUnescape(s) == s
  {
    OrdinaryEach(s);
    EscapeIsEach(s);
    EscapeRoundTrip(s);
  }

  lemma {:induction false} OrdinaryEach(s: string)
    requires forall c <- s :: c != '&' && c != '<' && c != '>' && c != '\'' && c != '\"'
    ensures EscapeEach(s) == s
  {
    if s != "" {
      assert s[0] in s && forall c <- s[1..] :: c in s;
      OrdinaryEach(s[1..]);
      assert EscapeChar(s[0]) == [s[0]];
    }
  }
}
