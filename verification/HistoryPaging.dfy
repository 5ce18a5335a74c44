/**
 Paging back through the archived messages of a contact: a cursor over threads, newest
 first, that neither loses nor repeats a message.
 */
module HistoryPaging {

  import opened Options
  import opened Sequences

  /** An archived message; an edit names the message it replaces. */
  datatype Message = Message(id: string, system: bool, time: int, edited: string)

  type Thread = seq<Message>

  /** The messages a call lets through: with a time bound, only older ones. */
  datatype Bound = Always | Before(time: int)

  predicate Shown(m: Message, bound: Bound) {
    && !m.system && m.edited == ""
    && (bound.Before? ==> m.time < bound.time)
  }

  function Visible(s: seq<Message>, bound: Bound): seq<Message> {
    if s == [] then []
    else
      var n := |s| - 1;
      Visible(s[..n], bound) + if Shown(s[n], bound) then [s[n]] else []
  }

  /** The position of a reader: the threads left, oldest first, and the index of the next
      message of the last one, negative once that thread is exhausted. */
  datatype Cursor = Cursor(threads: seq<Thread>, lastIndex: int)

  predicate ValidCursor(c: Cursor) {
    if c.threads == [] then c.lastIndex < 0
    else -2 <= c.lastIndex < |c.threads[|c.threads| - 1]|
  }

  function Flat(threads: seq<Thread>): seq<Message> {
    if threads == [] then [] else Flat(threads[..|threads| - 1]) + threads[|threads| - 1]
  }

  /** Everything that has not been read yet, in the order in which it was written. */
  function Unread(c: Cursor): seq<Message>
    requires ValidCursor(c)
  {
    if c.threads == [] then []
    else
      var n := |c.threads| - 1;
      Flat(c.threads[..n]) + c.threads[n][..if c.lastIndex < 0 then 0 else c.lastIndex + 1]
  }

  function Remaining(c: Cursor, bound: Bound): seq<Message>
    requires ValidCursor(c)
  {
    Visible(Unread(c), bound)
  }

  /** A fresh cursor stands behind the last message of the last thread. */
  function Open(threads: seq<Thread>): Cursor {
    Cursor(threads, if threads == [] then -1 else |threads[|threads| - 1]| - 1)
  }

  /** There is another thread, or a message left in this one. */
  predicate More(c: Cursor) {
    c.lastIndex >= 0 || |c.threads| > 1
  }

  lemma {:induction false} OpenSeesAll(threads: seq<Thread>)
    ensures ValidCursor(Open(threads)) && Unread(Open(threads)) == Flat(threads)
  {
    if threads != [] {
      var n := |threads| - 1;
      assert threads[n][..|threads[n]|] == threads[n];
    }
  }

  // ----- one step of the loop ---------------------------------------------------------------

  /** The cursor at the next thread, once this one is exhausted. */
  function Drop(c: Cursor): Cursor
    requires ValidCursor(c)
  {
    if |c.threads| <= 1 then Cursor([], c.lastIndex)
    else
      var left := c.threads[..|c.threads| - 1];
      Cursor(left, |left[|left| - 1]| - 1)
  }

  lemma {:induction false} DropKeepsUnread(c: Cursor, bound: Bound)
    requires ValidCursor(c) && c.lastIndex < 0
    ensures ValidCursor(Drop(c)) && Unread(Drop(c)) == Unread(c) && Remaining(Drop(c), bound) == Remaining(c, bound)
  {
    if |c.threads| > 1 {
      var left := c.threads[..|c.threads| - 1];
      OpenSeesAll(left);
      assert c.threads[|c.threads| - 1][..0] == [];
      assert Flat(left) + [] == Flat(left);
    } else if |c.threads| == 1 {
      assert c.threads[..0] == [] && c.threads[0][..0] == [];
    }
  }

  lemma {:induction false} StepBack(c: Cursor, bound: Bound)
    requires ValidCursor(c) && c.threads != [] && c.lastIndex >= -1
    ensures ValidCursor(c.(lastIndex := c.lastIndex - 1))
    ensures Unread(c.(lastIndex := c.lastIndex - 1)) <= Unread(c)
    ensures c.lastIndex >= 0 ==>
              Unread(c.(lastIndex := c.lastIndex - 1)) + [c.threads[|c.threads| - 1][c.lastIndex]] <= Unread(c)
    ensures var d := c.(lastIndex := c.lastIndex - 1);
            var last := c.threads[|c.threads| - 1];
            Remaining(c, bound) ==
              Remaining(d, bound)
              + if c.lastIndex >= 0 && Shown(last[c.lastIndex], bound) then [last[c.lastIndex]] else []
  {
    var d := c.(lastIndex := c.lastIndex - 1);
    if c.lastIndex >= 0 {
      var n := |c.threads| - 1;
      var last := c.threads[n];
      var u := Unread(c);
      assert u[..|u| - 1] == Unread(d);
      assert u[|u| - 1] == last[c.lastIndex];
    }
  }

  /** One turn of the loop: to the next thread if this one is exhausted, then one message
      back, which may be one to show. Without a thread nothing is left. */
  function Turn(c: Cursor, bound: Bound): (r: (Cursor, Option<Message>))
    requires ValidCursor(c)
    ensures ValidCursor(r.0) && r.0.threads <= c.threads
    ensures r.0.threads == [] || |r.0.threads| < |c.threads|
            || (|r.0.threads| == |c.threads| && r.0.lastIndex < c.lastIndex)
  {
    var d := if c.lastIndex < 0 then Drop(c) else c;
    if d.threads == [] then (d, None)
    else
      var last, i := d.threads[|d.threads| - 1], d.lastIndex;
      (d.(lastIndex := i - 1), if i >= 0 && Shown(last[i], bound) then Some(last[i]) else None)
  }

  function Listed(m: Option<Message>): (s: seq<Message>)
    ensures |s| <= 1 && (m.Some? <==> |s| == 1)
  {
    if m.Some? then [m.value] else []
  }

  /** The message next to the cursor, the last one it passed. */
  predicate StandsBehind(c: Cursor, m: Message) {
    && c.threads != [] && -1 <= c.lastIndex < |c.threads[|c.threads| - 1]| - 1
    && c.threads[|c.threads| - 1][c.lastIndex + 1] == m
  }

  /** A turn takes its message off what remains. */
  lemma {:induction false} TurnTakes(c: Cursor, bound: Bound)
    requires ValidCursor(c)
    ensures var (d, m) := Turn(c, bound);
            && Remaining(c, bound) == Remaining(d, bound) + Listed(m) && Unread(d) <= Unread(c)
            && (m.Some? ==> Shown(m.value, bound) && Unread(d) + [m.value] <= Unread(c))
            && (m.Some? ==> StandsBehind(d, m.value))
            && (d.threads == [] ==> Unread(c) == [])
  {
    hide Remaining, Unread, Shown;
    var b := if c.lastIndex < 0 then Drop(c) else c;
    if c.lastIndex < 0 {
      DropKeepsUnread(c, bound);
    }
    if b.threads == [] {
      NothingRemains(b, bound);
      assert Remaining(b, bound) + [] == Remaining(b, bound);
    } else {
      StepBack(b, bound);
    }
  }

  /** A call for a number of messages: where the cursor ends up, and the page. */
  function Walk(c: Cursor, count: int, bound: Bound): (r: (Cursor, seq<Message>))
    requires ValidCursor(c)
    ensures ValidCursor(r.0) && r.0.threads <= c.threads
    decreases |c.threads|, c.lastIndex + 2
  {
    if count <= 0 then (c, [])
    else
      var (d, m) := Turn(c, bound);
      if d.threads == [] then (d, [])
      else
        var (z, older) := Walk(d, count - |Listed(m)|, bound);
        (z, older + Listed(m))
  }

  /** What a call leaves and what it returns is what remained; a short page exhausts. */
  lemma {:induction false} WalkTakes(c: Cursor, count: int, bound: Bound)
    requires ValidCursor(c)
    ensures var (z, page) := Walk(c, count, bound);
            && Remaining(c, bound) == Remaining(z, bound) + page && Unread(z) <= Unread(c)
            && (|page| <= count || page == []) && (|page| < count ==> z.threads == [])
    decreases |c.threads|, c.lastIndex + 2
  {
    hide Remaining, Unread, Turn, Listed, Walk;
    if count <= 0 {
      WalkNowhere(c, count, bound);
      assert Remaining(c, bound) + [] == Remaining(c, bound);
    } else {
      WalkStep(c, count, bound);
      TurnTakes(c, bound);
      var (d, m) := Turn(c, bound);
      var k := count - |Listed(m)|;
      if d.threads != [] {
        WalkTakes(d, k, bound);
        Regroup(Remaining(Walk(d, k, bound).0, bound), Walk(d, k, bound).1, Listed(m));
      } else {
        NothingRemains(c, bound);
        NothingRemains(d, bound);
      }
    }
  }

  /** Two calls are one call for both pages. */
  lemma {:induction false} WalkTwice(c: Cursor, a: nat, b: nat, bound: Bound)
    requires ValidCursor(c)
    ensures var (z, page) := Walk(c, a, bound);
            Walk(c, a + b, bound) == (Walk(z, b, bound).0, Walk(z, b, bound).1 + page)
    decreases |c.threads|, c.lastIndex + 2
  {
    hide Turn, Listed, Walk;
    if a == 0 {
      WalkNowhere(c, a, bound);
      assert Walk(c, b, bound).1 + [] == Walk(c, b, bound).1;
    } else {
      WalkStep(c, a, bound);
      WalkStep(c, a + b, bound);
      var (d, m) := Turn(c, bound);
      var k := a - |Listed(m)|;
      if d.threads != [] {
        WalkTwice(d, k, b, bound);
        var (z, page) := Walk(d, k, bound);
        Regroup(Walk(z, b, bound).1, page, Listed(m));
      } else {
        StaysAtEnd(c, d, bound);
        if b == 0 {
          WalkNowhere(d, b, bound);
        } else {
          WalkStep(d, b, bound);
        }
        Regroup<Message>([], [], []);
      }
    }
  }

  lemma {:induction false} StaysAtEnd(c: Cursor, d: Cursor, bound: Bound)
    requires ValidCursor(c) && Turn(c, bound).0 == d && d.threads == []
    ensures ValidCursor(d) && Turn(d, bound) == (d, None)
  {
  }

  /** A full page ends right behind the oldest message it shows. */
  lemma {:induction false} StopsAtShown(c: Cursor, count: nat, bound: Bound) returns (m: Message)
    requires ValidCursor(c) && 0 < count <= |Remaining(c, bound)|
    ensures var z := Walk(c, count, bound).0;
            StandsBehind(z, m) && Shown(m, bound) && Unread(z) + [m] <= Unread(c)
    decreases |c.threads|, c.lastIndex + 2
  {
    hide Remaining, Unread, Turn, Shown, StandsBehind, Listed;
    TurnTakes(c, bound);
    var (d, said) := Turn(c, bound);
    NothingRemains(d, bound);
    if count > |Listed(said)| {
      m := StopsAtShown(d, count - |Listed(said)|, bound);
    } else {
      m := said.value;
    }
  }

  lemma {:induction false} NothingRemains(c: Cursor, bound: Bound)
    requires ValidCursor(c)
    ensures Unread(c) == [] ==> Remaining(c, bound) == []
    ensures c.threads == [] ==> Unread(c) == [] && Remaining(c, bound) == []
  {
  }

  // ----- the object ---------------------------------------------------------------------------

  class Token {
    var threads: seq<Thread>
    var lastIndex: int

    constructor (threads: seq<Thread>)
      ensures Value() == Open(threads) && ValidCursor(Value())
    {
      this.threads := threads;
      lastIndex := if threads == [] then -1 else |threads[|threads| - 1]| - 1;
    }

    ghost function Value(): (c: Cursor)
      reads this
    {
      Cursor(threads, lastIndex)
    }
  }

  /** The newest messages among those not yet read, at most count of them. */
  method GetLastMessages(token: Token, count: int, bound: Bound) returns (msgs: seq<Message>, more: bool)
    requires ValidCursor(token.Value())
    modifies token
    ensures ValidCursor(token.Value()) && more == More(token.Value())
    ensures (token.Value(), msgs) == Walk(old(token.Value()), count, bound)
    ensures Remaining(old(token.Value()), bound) == Remaining(token.Value(), bound) + msgs
    ensures msgs == Newest(Remaining(old(token.Value()), bound), count)
    ensures |msgs| < count ==> token.threads == [] && !more
    ensures !more ==> Unread(token.Value()) == []
    ensures Unread(token.Value()) <= Unread(old(token.Value()))
  {
    hide Remaining, Unread, Shown, Turn, Walk, Listed, Newest;
    msgs := [];
    ghost var c0, goal := token.Value(), Walk(token.Value(), count, bound);
    assert goal.1 + [] == goal.1;
    while |msgs| < count
      invariant ValidCursor(token.Value()) && (|msgs| <= count || msgs == [])
      invariant Walk(token.Value(), count - |msgs|, bound).0 == goal.0
      invariant Walk(token.Value(), count - |msgs|, bound).1 + msgs == goal.1
      decreases |token.threads|, token.lastIndex + 2
    {
      WalkStep(token.Value(), count - |msgs|, bound);
      ghost var before := msgs;
      var msg := ReadOne(token, bound);
      if token.threads == [] {
        assert [] + msgs == msgs;
        break;
      }
      if msg.Some? {
        msgs := [msg.value] + msgs;
      }
      PagePieces(Walk(token.Value(), count - |msgs|, bound).1, msg, before);
    }
    if |msgs| >= count {
      WalkNowhere(token.Value(), count - |msgs|, bound);
    }
    assert [] + msgs == msgs;
    more := token.lastIndex >= 0 || |token.threads| > 1;
    WalkTakes(c0, count, bound);
    NothingRemains(token.Value(), bound);
    NewestIs(Remaining(c0, bound), Remaining(token.Value(), bound), msgs, count);
    NothingLeft(token.Value(), bound);
  }

  lemma {:induction false} WalkStep(c: Cursor, count: int, bound: Bound)
    requires ValidCursor(c) && count > 0
    ensures var (d, m) := Turn(c, bound);
            if d.threads == [] then Walk(c, count, bound) == (d, [])
            else
              var z := Walk(d, count - |Listed(m)|, bound);
              Walk(c, count, bound) == (z.0, z.1 + Listed(m))
  {
    hide Turn, Listed;
  }

  lemma {:induction false} WalkNowhere(c: Cursor, count: int, bound: Bound)
    requires ValidCursor(c) && count <= 0
    ensures Walk(c, count, bound) == (c, [])
  {
  }

  lemma {:induction false} PagePieces(older: seq<Message>, m: Option<Message>, newer: seq<Message>)
    ensures (older + Listed(m)) + newer == older + if m.Some? then [m.value] + newer else newer
    ensures |Listed(m)| == if m.Some? then 1 else 0
  {
  }

  /** One turn of the loop. */
  method ReadOne(token: Token, bound: Bound) returns (msg: Option<Message>)
    requires ValidCursor(token.Value())
    modifies token
    ensures ValidCursor(token.Value()) && (token.Value(), msg) == Turn(old(token.Value()), bound)
  {
    msg := None;
    if token.lastIndex < 0 {
      token.threads := if token.threads == [] then [] else token.threads[..|token.threads| - 1];
      if token.threads == [] {
        return;
      }
      token.lastIndex := |token.threads[|token.threads| - 1]| - 1;
    }
    var lastThread := token.threads[|token.threads| - 1];
    var i := token.lastIndex;
    token.lastIndex := token.lastIndex - 1;
    if i >= 0 && Shown(lastThread[i], bound) {
      msg := Some(lastThread[i]);
    }
  }

  lemma {:induction false} NothingLeft(c: Cursor, bound: Bound)
    requires ValidCursor(c)
    ensures !More(c) ==> Unread(c) == [] && Remaining(c, bound) == []
  {
    if c.threads != [] && !More(c) {
      assert c.threads[..0] == [];
    }
  }

  // ----- pages ---------------------------------------------------------------------------------

  /** The last count of some messages, or all of them. */
  function Newest(r: seq<Message>, count: int): seq<Message> {
    if count <= 0 then [] else if |r| <= count then r else r[|r| - count..]
  }

  lemma {:induction false} NewestIs(r: seq<Message>, left: seq<Message>, msgs: seq<Message>, count: int)
    requires r == left + msgs && (|msgs| <= count || msgs == []) && (|msgs| < count ==> left == [])
    ensures msgs == Newest(r, count)
  {
  }

  /** The pages of successive calls, older before newer, and what is left. */
  function Pages(r: seq<Message>, counts: seq<nat>): (seq<Message>, seq<Message>)
    decreases |counts|
  {
    if counts == [] then ([], r)
    else
      var page := Newest(r, counts[0]);
      var (older, left) := Pages(r[..|r| - |page|], counts[1..]);
      (older + page, left)
  }

  function Sum(counts: seq<nat>): nat {
    if counts == [] then 0 else counts[0] + Sum(counts[1..])
  }

  lemma {:induction false} PageAndRest(r: seq<Message>, count: nat)
    ensures var page := Newest(r, count);
            |page| <= |r| && r[..|r| - |page|] + page == r && |page| <= count && (|page| < count ==> page == r)
  {
  }

  lemma {:induction false} NewestSizes(r: seq<Message>, count: nat)
    ensures |Newest(r, count)| <= count && (|Newest(r, count)| < count ==> Newest(r, count) == r)
  {
  }

  /** Any number of pages together are the newest messages, as many as were asked for: none
      is lost, none comes twice, and the order is kept. */
  lemma {:induction false} PagesAreSuffix(r: seq<Message>, counts: seq<nat>)
    ensures var (pages, left) := Pages(r, counts);
            && pages == Newest(r, Sum(counts))
            && left + pages == r
    decreases |counts|
  {
    if counts == [] {
      assert r + [] == r;
    } else {
      var page, more := Newest(r, counts[0]), Sum(counts[1..]);
      var rest := r[..|r| - |page|];
      PageAndRest(r, counts[0]);
      PagesAreSuffix(rest, counts[1..]);
      var (older, left) := Pages(rest, counts[1..]);
      NewestSizes(rest, more);
      hide Newest, Pages;
      Regroup(left, older, page);
      NewestIs(r, left, older + page, counts[0] + more);
    }
  }

  lemma {:induction false} JoinPages(left: seq<Message>, rest: seq<Message>, page: seq<Message>, newer: seq<Message>)
    requires left == rest + page
    ensures left + newer == rest + (page + newer) && |left| == |rest| + |page| && [] + page == page
  {
  }

  /** A reader who asks for pages as long as there is more. */
  method ReadAll(threads: seq<Thread>, count: nat) returns (all: seq<Message>)
    requires count > 0
    ensures all == Visible(Flat(threads), Always)
  {
    var token := new Token(threads);
    OpenSeesAll(threads);
    all := [];
    var more := true;
    ghost var r := Remaining(token.Value(), Always);
    assert r == Visible(Flat(threads), Always);
    hide Remaining, Unread, Visible, Newest, Flat, ValidCursor, More, Shown;
    while more
      invariant ValidCursor(token.Value())
      invariant r == Remaining(token.Value(), Always) + all
      invariant !more ==> Remaining(token.Value(), Always) == []
      decreases |Remaining(token.Value(), Always)|, if more then 1 else 0
    {
      ghost var before, left := all, Remaining(token.Value(), Always);
      var page;
      page, more := GetLastMessages(token, count, Always);
      NothingLeft(token.Value(), Always);
      all := page + all;
      JoinPages(left, Remaining(token.Value(), Always), page, before);
    }
    JoinPages(all, [], all, []);
  }

  // ----- the flag ---------------------------------------------------------------------------------

  /** A flag that promises more keeps its promise. */
  predicate Truthful(c: Cursor)
    requires ValidCursor(c)
  {
    More(c) ==> Remaining(c, Always) != []
  }

  /** The oldest message of all is one to show. */
  predicate OldestIsShown(archive: seq<Thread>) {
    archive != [] && archive[0] != [] && Shown(archive[0][0], Always)
  }

  lemma {:induction false} FirstIsVisible(s: seq<Message>, bound: Bound)
    requires s != [] && Shown(s[0], bound)
    ensures Visible(s, bound) != []
  {
    if |s| > 1 {
      FirstIsVisible(s[..|s| - 1], bound);
    }
  }

  lemma {:induction false} FlatStart(threads: seq<Thread>)
    requires threads != []
    ensures threads[0] <= Flat(threads)
  {
    var n := |threads| - 1;
    if n > 0 {
      FlatStart(threads[..n]);
    } else {
      assert threads[..0] == [] && Flat([]) + threads[0] == threads[0];
    }
  }

  /** While there is more, the oldest message is still unread. */
  lemma {:induction false} OldestIsUnread(archive: seq<Thread>, c: Cursor)
    requires ValidCursor(c) && c.threads != [] && c.threads <= archive && More(c) && OldestIsShown(archive)
    ensures Remaining(c, Always) != []
  {
    hide Shown, Visible;
    var n := |c.threads| - 1;
    if n > 0 {
      FlatStart(c.threads[..n]);
    } else {
      assert c.threads[..0] == [];
    }
    assert Unread(c)[0] == archive[0][0];
    FirstIsVisible(Unread(c), Always);
  }

  /** Wherever a reader of an archive may stand, the flag keeps its promise if and only if
      the oldest message is one to show. */
  lemma {:induction false} FlagIsTruthfulIff(archive: seq<Thread>)
    requires |archive| > 1 || Flat(archive) != []
    ensures (forall c: Cursor | ValidCursor(c) && c.threads != [] && c.threads <= archive :: Truthful(c))
            <==> OldestIsShown(archive)
  {
    if OldestIsShown(archive) {
      forall c: Cursor | ValidCursor(c) && c.threads != [] && c.threads <= archive ensures Truthful(c) {
        if More(c) {
          OldestIsUnread(archive, c);
        }
      }
    } else {
      var c := UntruthfulCursor(archive);
    }
  }

  lemma {:induction false} UntruthfulCursor(archive: seq<Thread>) returns (c: Cursor)
    requires |archive| > 1 || Flat(archive) != []
    requires !OldestIsShown(archive)
    ensures ValidCursor(c) && c.threads != [] && c.threads <= archive && !Truthful(c)
  {
    if archive != [] {
      assert archive[..1][..0] == [] && Flat([]) == [];
      if |archive| == 1 {
        assert archive[..0] == [] && Flat(archive) == archive[0];
      }
      if archive[0] == [] {
        c := Cursor(archive[..2], -1);
        assert c.threads[..1] == [archive[0]] && [archive[0]][..0] == [] && c.threads[1][..0] == [];
        assert Flat([archive[0]]) == Flat([]) + archive[0] == [];
        assert Unread(c) == [];
        NothingRemains(c, Always);
      } else {
        c := Cursor(archive[..1], 0);
        var first := archive[0][0];
        assert Unread(c) == Flat([]) + archive[0][..1] == [first];
        assert Visible([first], Always) == Visible([first][..0], Always) + [] == [];
      }
    }
  }

  /** A reader who starts at the end and asks for any number of messages is told the truth
      about whether there are more, for every number, if and only if the oldest message of
      the archive is one to show, or there is one thread at most and it is empty. Several
      calls are one call for the sum of their numbers. */
  lemma {:induction false} ReaderIsToldTruthIff(archive: seq<Thread>)
    ensures (forall count: nat :: Truthful(Walk(Open(archive), count, Always).0))
            <==> OldestIsShown(archive) || (|archive| <= 1 && Flat(archive) == [])
  {
    hide Visible, Shown, Flat, Walk;
    OpenSeesAll(archive);
    var c := Open(archive);
    if OldestIsShown(archive) {
      forall count: nat ensures Truthful(Walk(c, count, Always).0) {
        var z := Walk(c, count, Always).0;
        if More(z) {
          OldestIsUnread(archive, z);
        }
      }
    } else if Visible(Flat(archive), Always) != [] {
      var count := LyingPage(archive);
      assert !Truthful(Walk(c, count, Always).0);
      assert Flat(archive) != [] by {
        NothingRemains(c, Always);
      }
    } else {
      NothingToRead(archive);
      hide Truthful, OldestIsShown;
      assert Truthful(Walk(c, 0, Always).0) <==> |archive| <= 1 && Flat(archive) == [];
    }
  }

  /** With nothing to show, the flag is true until a first call has exhausted the archive:
      a reader who asks for no message at all is told so, unless there is nothing. */
  lemma {:induction false} NothingToRead(archive: seq<Thread>)
    requires Visible(Flat(archive), Always) == []
    ensures forall count: nat :: Truthful(Walk(Open(archive), count, Always).0)
                                 <==> count > 0 || (|archive| <= 1 && Flat(archive) == [])
  {
    OpenSeesAll(archive);
    var c := Open(archive);
    forall count: nat
      ensures Truthful(Walk(c, count, Always).0) <==> count > 0 || (|archive| <= 1 && Flat(archive) == [])
    {
      hide Visible, Shown, Walk;
      WalkTakes(c, count, Always);
      if count == 0 {
        WalkNowhere(c, count, Always);
        OpensWithMore(archive);
      } else {
        assert Walk(c, count, Always).1 == [];
        NoMoreAtEnd(Walk(c, count, Always).0);
      }
    }
  }

  lemma {:induction false} NoMoreAtEnd(c: Cursor)
    requires ValidCursor(c) && c.threads == []
    ensures !More(c)
  {
  }

  /** A fresh cursor has more before it unless the archive is one empty thread or none. */
  lemma {:induction false} OpensWithMore(archive: seq<Thread>)
    ensures More(Open(archive)) <==> !(|archive| <= 1 && Flat(archive) == [])
  {
    if |archive| == 1 {
      assert archive[..0] == [] && Flat([]) == [];
      assert Flat(archive) == archive[0];
    }
  }

  /** The run that is told wrong: a page of exactly the messages there are. */
  lemma {:induction false} LyingPage(archive: seq<Thread>) returns (count: nat)
    requires Visible(Flat(archive), Always) != [] && !OldestIsShown(archive)
    ensures var (z, page) := Walk(Open(archive), count, Always);
            page == Visible(Flat(archive), Always) && More(z) && Remaining(z, Always) == []
  {
    hide Visible, Shown, Walk, Flat;
    OpenSeesAll(archive);
    var c := Open(archive);
    count := |Remaining(c, Always)|;
    WalkTakes(c, count, Always);
    var m := StopsAtShown(c, count, Always);
    var (z, page) := Walk(c, count, Always);
    if |page| < count {
      NothingRemains(z, Always);
    }
    assert Remaining(z, Always) == [] && [] + page == page;
    if !More(z) {
      BehindOldest(archive, z, m);
    }
  }

  lemma {:induction false} BehindOldest(archive: seq<Thread>, c: Cursor, m: Message)
    requires c.threads <= archive && StandsBehind(c, m) && !More(c)
    ensures archive != [] && archive[0] != [] && m == archive[0][0]
  {
  }

  // ----- a bound in the first call only -------------------------------------------------------------

  predicate Ordered(s: seq<Message>) {
    forall i, j :: 0 <= i < j < |s| ==> s[i].time <= s[j].time
  }

  lemma {:induction false} OlderNeedsNoBound(s: seq<Message>, time: int)
    requires forall i :: 0 <= i < |s| ==> s[i].time < time
    ensures Visible(s, Always) == Visible(s, Before(time))
  {
    if s != [] {
      OlderNeedsNoBound(s[..|s| - 1], time);
    }
  }

  /** In an archive ordered by time, once a bounded call has asked for a message at all, the
      calls after it need no bound. */
  lemma {:induction false} BoundCarriesOver(archive: seq<Thread>, time: int, count: nat)
    requires Ordered(Flat(archive)) && count > 0
    ensures var z := Walk(Open(archive), count, Before(time)).0;
            Remaining(z, Always) == Remaining(z, Before(time))
  {
    hide Visible, Shown, Walk;
    OpenSeesAll(archive);
    var c, bound := Open(archive), Before(time);
    WalkTakes(c, count, bound);
    var (z, page) := Walk(c, count, bound);
    if |page| < count {
      NothingRemains(z, Always);
      NothingRemains(z, bound);
    } else {
      var m := StopsAtShown(c, count, bound);
      BeforeShown(Flat(archive), Unread(z), m, time);
      OlderNeedsNoBound(Unread(z), time);
    }
  }

  lemma {:induction false} BeforeShown(all: seq<Message>, s: seq<Message>, m: Message, time: int)
    requires Ordered(all) && s + [m] <= all && Shown(m, Before(time))
    ensures forall i :: 0 <= i < |s| ==> s[i].time < time
  {
    assert all[|s|] == (s + [m])[|s|] == m;
    assert forall i :: 0 <= i < |s| ==> all[i] == (s + [m])[i] == s[i];
  }

  /** A bounded first page and the unbounded pages after it are together the newest messages
      older than the bound. */
  lemma {:induction false} BoundedThenUnbounded(archive: seq<Thread>, time: int, count: nat, counts: seq<nat>)
    requires Ordered(Flat(archive)) && count > 0
    ensures var (z, page) := Walk(Open(archive), count, Before(time));
            Pages(Remaining(z, Always), counts).0 + page
            == Newest(Visible(Flat(archive), Before(time)), count + Sum(counts))
  {
    hide Visible, Walk, Flat, Ordered, Newest;
    OpenSeesAll(archive);
    BoundCarriesOver(archive, time, count);
    var c, bound := Open(archive), Before(time);
    WalkTakes(c, count, bound);
    var (z, page) := Walk(c, count, bound);
    var r := Remaining(z, bound);
    PagesAreSuffix(r, counts);
    NewestSizes(r, Sum(counts));
    NothingRemains(z, bound);
    var (older, left) := Pages(r, counts);
    Regroup(left, older, page);
    NewestIs(Remaining(c, bound), left, older + page, count + Sum(counts));
  }
}
