/**
 Highlighting of edited messages: a memoised longest common subsequence gives a bit mask
 for each side, and a run splitter rebuilds the text with the diverging runs marked.
 */
module EditDiff {

  import opened Sequences

  type Words = seq<string>

  // ----- masks ------------------------------------------------------------------------

  function Zeros(n: nat): (s: string)
    ensures |s| == n && forall i :: 0 <= i < n ==> s[i] == '0'
  {
    seq(n, i => '0')
  }

  /** Zero printed with n decimals. */
  function ToFixed(n: nat): string {
    if n == 0 then "0" else "0." + Zeros(n)
  }

  /** n zeros, by halving. */
  function Zero(n: nat): (s: string)
    ensures s == Zeros(n)
  {
    if n <= 20 then
      if |ToFixed(n)| < 2 then "" else ToFixed(n)[2..]
    else
      var s := Zero(n / 2);
      s + s + (if n % 2 == 1 then "0" else "")
  }

  predicate IsMask(m: string) {
    forall i :: 0 <= i < |m| ==> m[i] == '0' || m[i] == '1'
  }

  /** The words a mask marks as common. */
  function Selected(a: Words, m: string): Words
    requires |a| == |m|
  {
    if m == "" then []
    else
      var n := |m| - 1;
      Selected(a[..n], m[..n]) + if m[n] == '1' then [a[n]] else []
  }

  function Ones(m: string): nat {
    if m == "" then 0
    else Ones(m[..|m| - 1]) + if m[|m| - 1] == '1' then 1 else 0
  }

  // ----- the recursion -------------------------------------------------------------------

  /** Length of a common subsequence and its masks. */
  datatype Common = Common(b1: string, b2: string, w: nat)

  /** The recursion without its memo table. */
  function Lcs(a1: Words, a2: Words, x: nat, y: nat): Common
    requires x <= |a1| && y <= |a2|
    decreases x + y
  {
    if x == 0 then Common("", Zero(y), 0)
    else if y == 0 then Common(Zero(x), "", 0)
    else if a1[x - 1] == a2[y - 1] then
      var m := Lcs(a1, a2, x - 1, y - 1);
      Common(m.b1 + "1", m.b2 + "1", m.w + 1)
    else
      var m1, m2 := Lcs(a1, a2, x, y - 1), Lcs(a1, a2, x - 1, y);
      if m1.w > m2.w then Common(m1.b1, m1.b2 + "0", m1.w) else Common(m2.b1 + "0", m2.b2, m2.w)
  }

  class Diff {
    const a1: Words
    const a2: Words
    var memo: map<(nat, nat), Common>

    constructor (a1: Words, a2: Words)
      ensures this.a1 == a1 && this.a2 == a2 && MemoIsRight()
    {
      this.a1, this.a2 := a1, a2;
      memo := map[];
    }

    /** Every entry is what the plain recursion gives. */
    ghost predicate MemoIsRight()
      reads this
    {
      forall k <- memo :: k.0 <= |a1| && k.1 <= |a2| && memo[k] == Lcs(a1, a2, k.0, k.1)
    }

    method Find(x: nat, y: nat) returns (r: Common)
      requires x <= |a1| && y <= |a2| && MemoIsRight()
      modifies this
      ensures MemoIsRight() && r == Lcs(a1, a2, x, y)
      ensures (x, y) in memo && old(memo).Keys <= memo.Keys
      decreases x + y
    {
      hide Zero;
      if (x, y) !in memo {
        var entry: Common;
        if x == 0 {
          entry := Common("", Zero(y), 0);
        } else if y == 0 {
          entry := Common(Zero(x), "", 0);
        } else if a1[x - 1] == a2[y - 1] {
          var m := Find(x - 1, y - 1);
          entry := Common(m.b1 + "1", m.b2 + "1", m.w + 1);
        } else {
          var m1 := Find(x, y - 1);
          var m2 := Find(x - 1, y);
          entry := if m1.w > m2.w then Common(m1.b1, m1.b2 + "0", m1.w) else Common(m2.b1 + "0", m2.b2, m2.w);
        }
        assert entry == Lcs(a1, a2, x, y);
        hide Lcs;
        memo := memo[(x, y) := entry];
      }
      r := memo[(x, y)];
    }
  }

  /** The masks of two word lists. */
  method FindDiff(a1: Words, a2: Words) returns (r: Common)
    ensures r == Lcs(a1, a2, |a1|, |a2|)
  {
    var d := new Diff(a1, a2);
    r := d.Find(|a1|, |a2|);
  }

  // ----- the masks are a common subsequence -------------------------------------------------

  lemma {:induction false} SelectedNone(a: Words, m: string)
    requires |a| == |m| && m == Zeros(|m|)
    ensures Selected(a, m) == [] && Ones(m) == 0
    decreases |m|
  {
    if m != "" {
      var n := |m| - 1;
      assert m[..n] == Zeros(n);
      SelectedNone(a[..n], m[..n]);
    }
  }

  lemma {:induction false} OnesIsLength(a: Words, m: string)
    requires |a| == |m|
    ensures |Selected(a, m)| == Ones(m)
    decreases |m|
  {
    if m != "" {
      OnesIsLength(a[..|m| - 1], m[..|m| - 1]);
    }
  }

  /** Masks of two word lists that have their lengths, select the same words, and have
      exactly w ones. */
  predicate Agree(a1: Words, a2: Words, r: Common) {
    && |r.b1| == |a1| && |r.b2| == |a2| && IsMask(r.b1) && IsMask(r.b2)
    && Selected(a1, r.b1) == Selected(a2, r.b2)
    && Ones(r.b1) == r.w == Ones(r.b2)
  }

  /** The masks describe a common subsequence of the two prefixes. */
  lemma {:induction false} MasksAgree(a1: Words, a2: Words, x: nat, y: nat)
    requires x <= |a1| && y <= |a2|
    ensures Agree(a1[..x], a2[..y], Lcs(a1, a2, x, y))
    decreases x + y
  {
    hide Agree;
    if x == 0 {
      NothingInCommon([], a2[..y]);
      assert a1[..x] == [];
    } else if y == 0 {
      NothingInCommon(a1[..x], []);
      assert a2[..y] == [];
    } else if a1[x - 1] == a2[y - 1] {
      MasksAgree(a1, a2, x - 1, y - 1);
      CommonWord(a1, a2, x - 1, y - 1, Lcs(a1, a2, x - 1, y - 1));
    } else {
      MasksAgree(a1, a2, x, y - 1);
      MasksAgree(a1, a2, x - 1, y);
      SkippedSecond(a1[..x], a2, y - 1, Lcs(a1, a2, x, y - 1));
      SkippedFirst(a1, a2[..y], x - 1, Lcs(a1, a2, x - 1, y));
    }
  }

  lemma {:induction false} CommonWord(a1: Words, a2: Words, x: nat, y: nat, m: Common)
    requires x < |a1| && y < |a2| && a1[x] == a2[y] && Agree(a1[..x], a2[..y], m)
    ensures Agree(a1[..x + 1], a2[..y + 1], Common(m.b1 + "1", m.b2 + "1", m.w + 1))
  {
    SelectedMore(a1, x, m.b1, '1');
    SelectedMore(a2, y, m.b2, '1');
    hide Selected, Ones;
  }

  lemma {:induction false} SkippedSecond(a1: Words, a2: Words, y: nat, m: Common)
    requires y < |a2| && Agree(a1, a2[..y], m)
    ensures Agree(a1, a2[..y + 1], Common(m.b1, m.b2 + "0", m.w))
  {
    SelectedMore(a2, y, m.b2, '0');
    hide Selected, Ones;
  }

  lemma {:induction false} SkippedFirst(a1: Words, a2: Words, x: nat, m: Common)
    requires x < |a1| && Agree(a1[..x], a2, m)
    ensures Agree(a1[..x + 1], a2, Common(m.b1 + "0", m.b2, m.w))
  {
    SelectedMore(a1, x, m.b1, '0');
    hide Selected, Ones;
  }

  lemma {:induction false} NothingInCommon(a: Words, b: Words)
    requires a == [] || b == []
    ensures Agree(a, b, Common(Zero(|a|), Zero(|b|), 0))
  {
    SelectedNone(a, Zeros(|a|));
    SelectedNone(b, Zeros(|b|));
  }

  /** One more word, one more bit. */
  lemma {:induction false} SelectedMore(a: Words, x: nat, m: string, bit: char)
    requires x < |a| && |m| == x
    ensures Selected(a[..x + 1], m + [bit]) == Selected(a[..x], m) + if bit == '1' then [a[x]] else []
    ensures Ones(m + [bit]) == Ones(m) + if bit == '1' then 1 else 0
  {
    assert (m + [bit])[..x] == m && a[..x + 1][..x] == a[..x];
  }

  // ----- none is longer ---------------------------------------------------------------------

  /** One more word on either side adds at most one to the length. */
  lemma {:induction false} OneMoreWord(a1: Words, a2: Words, x: nat, y: nat)
    requires x <= |a1| && y <= |a2|
    ensures x > 0 ==> Lcs(a1, a2, x - 1, y).w <= Lcs(a1, a2, x, y).w <= Lcs(a1, a2, x - 1, y).w + 1
    ensures y > 0 ==> Lcs(a1, a2, x, y - 1).w <= Lcs(a1, a2, x, y).w <= Lcs(a1, a2, x, y - 1).w + 1
    decreases x + y
  {
    if x > 0 && y > 0 {
      OneMoreWord(a1, a2, x - 1, y);
      OneMoreWord(a1, a2, x, y - 1);
    }
  }

  /** Any two masks that select the same words select at most w. */
  lemma {:induction false} NoneIsLonger(a1: Words, a2: Words, x: nat, y: nat, m1: string, m2: string)
    requires x <= |a1| && y <= |a2| && |m1| == x && |m2| == y
    requires Selected(a1[..x], m1) == Selected(a2[..y], m2)
    ensures Ones(m1) <= Lcs(a1, a2, x, y).w
    decreases x + y
  {
    OnesIsLength(a1[..x], m1);
    OnesIsLength(a2[..y], m2);
    if x > 0 && y > 0 {
      var n1, n2 := m1[..x - 1], m2[..y - 1];
      assert n1 + [m1[x - 1]] == m1 && n2 + [m2[y - 1]] == m2;
      SelectedMore(a1, x - 1, n1, m1[x - 1]);
      SelectedMore(a2, y - 1, n2, m2[y - 1]);
      if m1[x - 1] != '1' {
        NoneIsLonger(a1, a2, x - 1, y, n1, m2);
        OneMoreWord(a1, a2, x, y);
      } else if m2[y - 1] != '1' {
        NoneIsLonger(a1, a2, x, y - 1, m1, n2);
        OneMoreWord(a1, a2, x, y);
      } else {
        var s1, s2 := Selected(a1[..x - 1], n1), Selected(a2[..y - 1], n2);
        LastOfEqual(s1, a1[x - 1], s2, a2[y - 1]);
        NoneIsLonger(a1, a2, x - 1, y - 1, n1, n2);
      }
    }
  }

  lemma {:induction false} LastOfEqual(s: Words, u: string, t: Words, v: string)
    requires s + [u] == t + [v]
    ensures s == t && u == v
  {
    assert |s| == |t|;
    assert (s + [u])[|s|] == u && (t + [v])[|t|] == v;
    assert (s + [u])[..|s|] == s && (t + [v])[..|t|] == t;
  }

  // ----- rebuilding the text ------------------------------------------------------------------

  /** A new text node, inside a highlighting span or not. */
  datatype Piece = Piece(text: string, edited: bool)

  function Join(words: Words): string {
    if words == [] then "" else words[0] + Join(words[1..])
  }

  // ----- words ---------------------------------------------------------------------------------

  predicate WordChar(c: char) {
    'a' <= c <= 'z' || 'A' <= c <= 'Z' || '0' <= c <= '9' || c == '_'
  }

  /** How far a text goes on with characters of the kind of its first one. */
  function KindLength(text: string): (n: nat)
    ensures n <= |text| && (text != "" ==> n > 0)
    ensures forall i :: 0 <= i < n ==> WordChar(text[i]) == WordChar(text[0])
    ensures n < |text| ==> WordChar(text[n]) != WordChar(text[0])
  {
    if text == "" then 0
    else if |text| == 1 || WordChar(text[1]) != WordChar(text[0]) then 1
    else 1 + KindLength(text[1..])
  }

  function Chunks(text: string): Words
    decreases |text|
  {
    if text == "" then []
    else
      var n := KindLength(text);
      [text[..n]] + Chunks(text[n..])
  }

  /** A text cut at its word boundaries; the empty text is one empty word. */
  function SplitWords(text: string): Words {
    if text == "" then [""] else Chunks(text)
  }

  /** Words of one kind each, and of the other kind than the word before. */
  predicate Alternating(w: Words) {
    && (forall i :: 0 <= i < |w| ==> w[i] != "" && forall c <- w[i] :: WordChar(c) == WordChar(w[i][0]))
    && (forall i :: 0 < i < |w| ==> WordChar(w[i][0]) != WordChar(w[i - 1][0]))
  }

  lemma {:induction false} OneMoreChunk(first: string, rest: Words)
    requires first != "" && forall c <- first :: WordChar(c) == WordChar(first[0])
    requires Alternating(rest) && (rest != [] ==> WordChar(rest[0][0]) != WordChar(first[0]))
    ensures Alternating([first] + rest)
  {
    hide WordChar;
    var w := [first] + rest;
    forall i | 0 < i < |w| ensures WordChar(w[i][0]) != WordChar(w[i - 1][0]) {
      assert w[i] == rest[i - 1];
      if i > 1 {
        assert w[i - 1] == rest[i - 2];
      }
    }
  }

  /** The words make up the text; each is of one kind, and the next one is of the other: the
      text is cut at every word boundary and nowhere else. */
  lemma {:induction false} ChunksAreWords(text: string)
    ensures var w := Chunks(text);
            Join(w) == text && Alternating(w) && (w == [] <==> text == "") && (text != "" ==> w[0][0] == text[0])
    decreases |text|
  {
    if text != "" {
      var n := KindLength(text);
      var first, rest := text[..n], Chunks(text[n..]);
      ChunksAreWords(text[n..]);
      assert Chunks(text) == [first] + rest && ([first] + rest)[1..] == rest;
      assert text == first + text[n..];
      assert forall c <- first :: WordChar(c) == WordChar(first[0]);
      assert rest != [] ==> rest[0][0] == text[n];
      hide Chunks, KindLength, WordChar, Alternating;
      OneMoreChunk(first, rest);
    }
  }

  lemma {:induction false} SplitKeepsText(text: string)
    ensures Join(SplitWords(text)) == text
  {
    ChunksAreWords(text);
    assert Join([""]) == "" + Join([]);
  }

  // ----- runs -----------------------------------------------------------------------------------

  /** The number of equal bits a mask starts with. */
  function RunLength(m: string): (n: nat)
    ensures n <= |m| && (m != "" ==> n > 0)
    ensures forall i :: 0 <= i < n ==> m[i] == m[0]
    ensures n < |m| ==> m[n] != m[0]
  {
    if m == "" then 0
    else if |m| == 1 || m[1] != m[0] then 1
    else 1 + RunLength(m[1..])
  }

  /** The text in maximal runs of words that are common or that are not. */
  function Runs(words: Words, m: string): seq<Piece>
    requires |words| == |m|
    decreases |m|
  {
    if m == "" then []
    else
      var n := RunLength(m);
      [Piece(Join(words[..n]), m[0] == '0')] + Runs(words[n..], m[n..])
  }

  function Texts(pieces: seq<Piece>): string {
    if pieces == [] then "" else pieces[0].text + Texts(pieces[1..])
  }

  /** The text outside highlighting. */
  function PlainTexts(pieces: seq<Piece>): string {
    if pieces == [] then "" else (if pieces[0].edited then "" else pieces[0].text) + PlainTexts(pieces[1..])
  }

  lemma {:induction false} JoinConcat(a: Words, b: Words)
    ensures Join(a + b) == Join(a) + Join(b)
    decreases |a|
  {
    if a == [] {
      assert a + b == b;
    } else {
      assert (a + b)[1..] == a[1..] + b;
      JoinConcat(a[1..], b);
    }
  }

  lemma {:induction false} SelectedConcat(a: Words, m: string, b: Words, n: string)
    requires |a| == |m| && |b| == |n|
    ensures Selected(a + b, m + n) == Selected(a, m) + Selected(b, n)
    decreases |n|
  {
    if n == "" {
      assert a + b == a && m + n == m;
    } else {
      var k := |n| - 1;
      SelectedConcat(a, m, b[..k], n[..k]);
      assert (a + b)[..|m| + k] == a + b[..k] && (m + n)[..|m| + k] == m + n[..k];
    }
  }

  lemma {:induction false} SelectedRun(a: Words, m: string, bit: char)
    requires |a| == |m| && (bit == '0' || bit == '1') && forall i :: 0 <= i < |m| ==> m[i] == bit
    ensures Selected(a, m) == if bit == '1' then a else []
    decreases |m|
  {
    if m != "" {
      var n := |m| - 1;
      SelectedRun(a[..n], m[..n], bit);
      assert a == a[..n] + [a[n]];
    }
  }

  lemma {:induction false} Alternate(first: Piece, rest: seq<Piece>)
    requires rest != [] ==> rest[0].edited != first.edited
    requires forall i :: 0 < i < |rest| ==> rest[i].edited != rest[i - 1].edited
    ensures var r := [first] + rest; forall i :: 0 < i < |r| ==> r[i].edited != r[i - 1].edited
  {
    var r := [first] + rest;
    forall i | 0 < i < |r| ensures r[i].edited != r[i - 1].edited {
      assert r[i] == rest[i - 1];
      if i > 1 {
        assert r[i - 1] == rest[i - 2];
      }
    }
  }

  /** A first run of equal bits, and the rest. */
  lemma {:induction false} FirstRun(words: Words, m: string, n: nat)
    requires |words| == |m| && 0 < n <= |m| && IsMask(m) && forall i :: 0 <= i < n ==> m[i] == m[0]
    ensures Join(words) == Join(words[..n]) + Join(words[n..])
    ensures Join(Selected(words, m))
            == (if m[0] == '0' then "" else Join(words[..n])) + Join(Selected(words[n..], m[n..]))
  {
    assert words == words[..n] + words[n..] && m == m[..n] + m[n..];
    JoinConcat(words[..n], words[n..]);
    SelectedRun(words[..n], m[..n], m[0]);
    SelectedConcat(words[..n], m[..n], words[n..], m[n..]);
    hide Selected;
    JoinConcat(Selected(words[..n], m[..n]), Selected(words[n..], m[n..]));
  }

  /** The runs keep the text, leave exactly the common words outside highlighting, and
      alternate: no run could be longer. */
  lemma {:induction false} RunsKeepText(words: Words, m: string)
    requires |words| == |m| && IsMask(m)
    ensures var r := Runs(words, m);
            && Texts(r) == Join(words)
            && PlainTexts(r) == Join(Selected(words, m))
            && (r == [] <==> m == "")
            && (m != "" ==> r[0].edited == (m[0] == '0'))
            && (forall i :: 0 < i < |r| ==> r[i].edited != r[i - 1].edited)
    decreases |m|
  {
    if m != "" {
      var n := RunLength(m);
      var r, rest := Runs(words, m), Runs(words[n..], m[n..]);
      RunsKeepText(words[n..], m[n..]);
      FirstRun(words, m, n);
      assert r == [Piece(Join(words[..n]), m[0] == '0')] + rest && r[1..] == rest;
      hide Runs, Selected, RunLength;
      assert n < |m| ==> m[n..][0] != m[0];
      Alternate(r[0], rest);
    }
  }

  lemma {:induction false} NoRuns(words: Words, m: string)
    requires |words| == |m| == 0
    ensures Runs(words, m) == []
  {
  }

  /** One text node of words whose bits start at i. */
  method SplitNode(text: Words, mask: string, i: nat) returns (out: seq<Piece>)
    requires i + |text| <= |mask| && IsMask(mask)
    ensures out == Runs(text, mask[i..i + |text|])
  {
    hide Runs, Join;
    out := [];
    var j: nat, k: nat := 0, 0;
    ghost var bits := mask[i..i + |text|];
    while k < |text|
      invariant j == k <= |text|
      invariant Runs(text, bits) == out + Runs(text[k..], bits[k..])
      decreases |text| - k
    {
      ghost var from := k;
      while k < |text| && mask[i + k] == '1'
        invariant from <= k <= |text| && j == from
        invariant forall q :: from <= q < k ==> bits[q] == '1'
      {
        k := k + 1;
      }
      if k > j {
        NextRun(text, bits, from, k);
        out := out + [Piece(Join(text[j..k]), false)];
        j := k;
      }
      ghost var middle := k;
      while k < |text| && mask[i + k] == '0'
        invariant middle <= k <= |text| && j == middle
        invariant forall q :: middle <= q < k ==> bits[q] == '0'
      {
        k := k + 1;
      }
      if k > j {
        NextRun(text, bits, middle, k);
        out := out + [Piece(Join(text[j..k]), true)];
        j := k;
      }
    }
    NoRuns(text[k..], bits[k..]);
  }

  lemma {:induction false} RunLengthIs(m: string, n: nat)
    requires 0 < n <= |m| && (forall q :: 0 <= q < n ==> m[q] == m[0]) && (n < |m| ==> m[n] != m[0])
    ensures RunLength(m) == n
    decreases n
  {
    if n > 1 {
      assert m[1] == m[0];
      RunLengthIs(m[1..], n - 1);
    }
  }

  /** A run that cannot be extended is the next one. */
  lemma {:induction false} NextRun(text: Words, bits: string, from: nat, k: nat)
    requires |text| == |bits| && from < k <= |bits|
    requires forall q :: from <= q < k ==> bits[q] == bits[from]
    requires k < |bits| ==> bits[k] != bits[from]
    ensures Runs(text[from..], bits[from..]) ==
              [Piece(Join(text[from..k]), bits[from] == '0')] + Runs(text[k..], bits[k..])
  {
    var m := bits[from..];
    var n := k - from;
    assert m[0] == bits[from];
    RunLengthIs(m, n);
    assert text[from..][..n] == text[from..k] && text[from..][n..] == text[k..] && m[n..] == bits[k..];
  }

  function WordsOf(texts: seq<string>): seq<Words> {
    if texts == [] then [] else [SplitWords(texts[0])] + WordsOf(texts[1..])
  }

  /** The words of some text nodes, one after the other. */
  function Flat(nodes: seq<Words>): Words {
    if nodes == [] then [] else nodes[0] + Flat(nodes[1..])
  }

  /** The pieces of some text nodes whose bits follow one another. */
  function RunsOfAll(texts: seq<string>, m: string): seq<seq<Piece>>
    requires |Flat(WordsOf(texts))| == |m|
    decreases |texts|
  {
    if texts == [] then []
    else
      FlatStep(texts);
      var words := SplitWords(texts[0]);
      [Runs(words, m[..|words|])] + RunsOfAll(texts[1..], m[|words|..])
  }

  lemma {:induction false} FlatStep(texts: seq<string>)
    requires texts != []
    ensures Flat(WordsOf(texts)) == SplitWords(texts[0]) + Flat(WordsOf(texts[1..]))
  {
    assert WordsOf(texts)[1..] == WordsOf(texts[1..]);
  }

  /** Rebuilds every text node; the mask covers all their words. */
  method Unsplit(texts: seq<string>, mask: string) returns (out: seq<seq<Piece>>)
    requires |Flat(WordsOf(texts))| == |mask| && IsMask(mask)
    ensures out == RunsOfAll(texts, mask)
  {
    hide Runs, SplitWords, Flat, WordsOf;
    out := [];
    var i, n := 0, 0;
    assert texts[0..] == texts && mask[0..] == mask;
    while n < |texts|
      invariant 0 <= n <= |texts| && 0 <= i && i + |Flat(WordsOf(texts[n..]))| == |mask|
      invariant RunsOfAll(texts, mask) == out + RunsOfAll(texts[n..], mask[i..])
    {
      ghost var m := mask[i..];
      FlatStep(texts[n..]);
      assert texts[n..][1..] == texts[n + 1..];
      var text := SplitWords(texts[n]);
      var pieces := SplitNode(text, mask, i);
      assert mask[i..i + |text|] == m[..|text|] && mask[i + |text|..] == m[|text|..];
      out := out + [pieces];
      i := i + |text|;
      n := n + 1;
    }
  }

  function AllPlain(all: seq<seq<Piece>>): string {
    if all == [] then "" else PlainTexts(all[0]) + AllPlain(all[1..])
  }

  lemma {:induction false} RunsOfAllKeepText(texts: seq<string>, m: string)
    requires |Flat(WordsOf(texts))| == |m| && IsMask(m)
    ensures var all := RunsOfAll(texts, m);
            && |all| == |texts|
            && (forall n :: 0 <= n < |texts| ==> Texts(all[n]) == texts[n])
            && AllPlain(all) == Join(Selected(Flat(WordsOf(texts)), m))
    decreases |texts|
  {
    hide Runs, Selected, PlainTexts, Texts, Join, SplitWords;
    if texts == [] {
      assert Selected([], m) == [] && Join([]) == "" by { NothingSelected(m); }
    } else {
      var words, rest := SplitWords(texts[0]), Flat(WordsOf(texts[1..]));
      var n := |words|;
      FlatStep(texts);
      SplitKeepsText(texts[0]);
      RunsKeepText(words, m[..n]);
      RunsOfAllKeepText(texts[1..], m[n..]);
      assert m == m[..n] + m[n..];
      SelectedConcat(words, m[..n], rest, m[n..]);
      JoinConcat(Selected(words, m[..n]), Selected(rest, m[n..]));
    }
  }

  lemma {:induction false} NothingSelected(m: string)
    requires m == ""
    ensures Selected([], m) == [] && Join([]) == ""
  {
  }

  /** Highlights what differs between two messages. Every text node keeps its text; what is
      not highlighted is the same on both sides, and no choice of common words could leave
      more of them unhighlighted. */
  method HighlightDiff(texts1: seq<string>, texts2: seq<string>) returns (out1: seq<seq<Piece>>, out2: seq<seq<Piece>>)
    ensures |out1| == |texts1| && |out2| == |texts2|
    ensures forall n :: 0 <= n < |texts1| ==> Texts(out1[n]) == texts1[n]
    ensures forall n :: 0 <= n < |texts2| ==> Texts(out2[n]) == texts2[n]
    ensures AllPlain(out1) == AllPlain(out2)
    ensures var a1, a2 := Flat(WordsOf(texts1)), Flat(WordsOf(texts2));
            exists m1, m2 :: IsMask(m1) && IsMask(m2) && LongestMasks(a1, a2, m1, m2)
              && out1 == RunsOfAll(texts1, m1) && out2 == RunsOfAll(texts2, m2)
  {
    var a1 := Split(texts1);
    var a2 := Split(texts2);
    var diff := FindDiff(a1, a2);
    MasksAgree(a1, a2, |a1|, |a2|);
    assert a1[..|a1|] == a1 && a2[..|a2|] == a2;
    DiffIsLongest(a1, a2);
    hide Lcs, RunsOfAll, Selected, Ones, LongestMasks, WordsOf, Flat;
    out1 := Unsplit(texts1, diff.b1);
    out2 := Unsplit(texts2, diff.b2);
    RunsOfAllKeepText(texts1, diff.b1);
    RunsOfAllKeepText(texts2, diff.b2);
  }

  /** The words of all text nodes of a message. */
  method Split(texts: seq<string>) returns (res: Words)
    ensures res == Flat(WordsOf(texts))
  {
    hide SplitWords, WordsOf, Flat;
    res := [];
    var n := 0;
    assert texts[0..] == texts;
    while n < |texts|
      invariant 0 <= n <= |texts| && res + Flat(WordsOf(texts[n..])) == Flat(WordsOf(texts))
    {
      FlatStep(texts[n..]);
      assert texts[n..][1..] == texts[n + 1..];
      Regroup(res, SplitWords(texts[n]), Flat(WordsOf(texts[n + 1..])));
      res := res + SplitWords(texts[n]);
      n := n + 1;
    }
    NoTexts(texts[n..]);
    assert res + [] == res;
  }

  lemma {:induction false} NoTexts(texts: seq<string>)
    requires texts == []
    ensures Flat(WordsOf(texts)) == []
  {
  }

  /** Masks that select the same words, as many as any two masks could. */
  ghost predicate LongestMasks(a1: Words, a2: Words, m1: string, m2: string) {
    && |m1| == |a1| && |m2| == |a2| && Selected(a1, m1) == Selected(a2, m2)
    && forall n1, n2 | |n1| == |a1| && |n2| == |a2| && Selected(a1, n1) == Selected(a2, n2) :: Ones(n1) <= Ones(m1)
  }

  lemma {:induction false} DiffIsLongest(a1: Words, a2: Words)
    ensures var r := Lcs(a1, a2, |a1|, |a2|);
            LongestMasks(a1, a2, r.b1, r.b2)
  {
    var r := Lcs(a1, a2, |a1|, |a2|);
    assert a1[..|a1|] == a1 && a2[..|a2|] == a2;
    MasksAgree(a1, a2, |a1|, |a2|);
    forall n1, n2 | |n1| == |a1| && |n2| == |a2| && Selected(a1, n1) == Selected(a2, n2)
      ensures Ones(n1) <= Ones(r.b1)
    {
      NoneIsLonger(a1, a2, |a1|, |a2|, n1, n2);
    }
  }
}
