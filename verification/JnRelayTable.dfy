/**
 The relay's socket table: slot 0 is the wake-up event, then four sockets a relay. Packets
 go between paired sockets of one relay; expired relays are compacted away in place.
 */
module JnRelayTable {

  import opened Options

  const MAX_RELAYS: nat := 5
  const CAPACITY: nat := 21

  datatype Fd = Fd(id: nat)

  /** An address with the part of it that is compared. */
  datatype Addr = Addr(family: nat, body: seq<int>)

  const INET: nat := 2
  const INET6: nat := 10

  predicate SameAddr(a: Addr, b: Addr) {
    a.family == b.family && (a.family == INET || a.family == INET6 ==> a.body == b.body)
  }

  /** A socket and the peer learnt for it. */
  datatype Entry = Entry(fd: Fd, peer: Option<Addr>)

  // ----- pairing -----------------------------------------------------------------------

  /** The relay of a table index. */
  function RelayOf(i: nat): nat
    requires i >= 1
  {
    (i - 1) / 4
  }

  function Paired(i: nat): nat
    requires i >= 1
  {
    1 + 4 * ((i - 1) / 4) + (i + 1) % 4
  }

  /** Pairing stays inside a relay, has no fixed point, and undoes itself; the two pairs of
      a relay do not mix. */
  lemma {:induction false} PairingIsInvolution(i: nat, n: nat)
    requires 1 <= i < n && n % 4 == 1
    ensures 1 <= Paired(i) < n && RelayOf(Paired(i)) == RelayOf(i)
    ensures Paired(i) != i && Paired(Paired(i)) == i
    ensures Paired(i) == i + 2 || Paired(i) == i - 2
  {
    var k, r := (i - 1) / 4, (i - 1) % 4;
    assert i == 1 + 4 * k + r;
    assert (i + 1) % 4 == (r + 2) % 4;
    assert r == 0 || r == 1 || r == 2 || r == 3;
    assert Paired(i) == 1 + 4 * k + (r + 2) % 4;
  }

  // ----- compaction ----------------------------------------------------------------------

  /** Relay k has reached its deadline. */
  predicate Expired(timeouts: seq<int>, k: nat, now: int)
    requires k < |timeouts|
  {
    timeouts[k] <= now
  }

  /** The entries are k whole relays with their deadlines. */
  predicate WholeRelays(e: seq<Entry>, timeouts: seq<int>, k: nat) {
    |e| == 4 * k && k <= |timeouts|
  }

  function Relay(e: seq<Entry>, i: nat): (r: seq<Entry>)
    requires 4 * i + 4 <= |e|
    ensures |r| == 4
  {
    e[4 * i..4 * i + 4]
  }

  /** The relays from i on that have not expired, in order. */
  function Kept(e: seq<Entry>, timeouts: seq<int>, i: nat, k: nat, now: int): seq<Entry>
    requires WholeRelays(e, timeouts, k) && i <= k
    decreases k - i
  {
    if i == k then []
    else (if Expired(timeouts, i, now) then [] else Relay(e, i)) + Kept(e, timeouts, i + 1, k, now)
  }

  function Fds(e: seq<Entry>): (r: seq<Fd>)
    ensures |r| == |e| && forall i :: 0 <= i < |e| ==> r[i] == e[i].fd
  {
    seq(|e|, i requires 0 <= i < |e| => e[i].fd)
  }

  /** The sockets of the expired relays from i on, last relay first. */
  function Shut(e: seq<Entry>, timeouts: seq<int>, i: nat, k: nat, now: int): seq<Fd>
    requires WholeRelays(e, timeouts, k) && i <= k
    decreases k - i
  {
    if i == k then []
    else Shut(e, timeouts, i + 1, k, now) + if Expired(timeouts, i, now) then Fds(Relay(e, i)) else []
  }

  /** How many relays a pass keeps. */
  function Survivors(timeouts: seq<int>, i: nat, k: nat, now: int): (s: nat)
    requires i <= k <= |timeouts|
    ensures s <= k - i
    decreases k - i
  {
    if i == k then 0
    else (if Expired(timeouts, i, now) then 0 else 1) + Survivors(timeouts, i + 1, k, now)
  }

  /** A pass keeps whole relays. */
  lemma {:induction false} KeptIsWhole(e: seq<Entry>, timeouts: seq<int>, i: nat, k: nat, now: int)
    requires WholeRelays(e, timeouts, k) && i <= k
    ensures |Kept(e, timeouts, i, k, now)| == 4 * Survivors(timeouts, i, k, now)
    decreases k - i
  {
    if i < k {
      KeptIsWhole(e, timeouts, i + 1, k, now);
    }
  }

  predicate LiveRelayHolds(e: seq<Entry>, timeouts: seq<int>, r: nat, now: int, x: Entry)
    requires 4 * r + 4 <= |e| && r < |timeouts|
  {
    !Expired(timeouts, r, now) && x in Relay(e, r)
  }

  /** The deadlines at the start of a pass alone decide: an entry, with its socket and the
      peer learnt for it, stays if and only if its relay has not expired. */
  lemma {:induction false} KeptIff(e: seq<Entry>, timeouts: seq<int>, k: nat, now: int, x: Entry)
    requires WholeRelays(e, timeouts, k)
    ensures x in Kept(e, timeouts, 0, k, now) <==> exists r: nat :: r < k && LiveRelayHolds(e, timeouts, r, now, x)
  {
    hide Kept, LiveRelayHolds;
    if x in Kept(e, timeouts, 0, k, now) {
      var r := KeptWasLive(e, timeouts, 0, k, now, x);
    }
    if r: nat :| r < k && LiveRelayHolds(e, timeouts, r, now, x) {
      LiveIsKept(e, timeouts, 0, k, now, x, r);
    }
  }

  lemma {:induction false} KeptWasLive(e: seq<Entry>, timeouts: seq<int>, i: nat, k: nat, now: int, x: Entry)
    returns (r: nat)
    requires WholeRelays(e, timeouts, k) && i <= k && x in Kept(e, timeouts, i, k, now)
    ensures i <= r < k && LiveRelayHolds(e, timeouts, r, now, x)
    decreases k - i
  {
    FirstKept(e, timeouts, i, k, now, x);
    hide Kept, Relay;
    if LiveRelayHolds(e, timeouts, i, now, x) {
      r := i;
    } else {
      r := KeptWasLive(e, timeouts, i + 1, k, now, x);
    }
  }

  lemma {:induction false} LiveIsKept(e: seq<Entry>, timeouts: seq<int>, i: nat, k: nat, now: int, x: Entry, r: nat)
    requires WholeRelays(e, timeouts, k) && i <= r < k && LiveRelayHolds(e, timeouts, r, now, x)
    ensures x in Kept(e, timeouts, i, k, now)
    decreases k - i
  {
    hide Kept, Relay;
    FirstKept(e, timeouts, i, k, now, x);
    if i < r {
      LiveIsKept(e, timeouts, i + 1, k, now, x, r);
    }
  }

  lemma {:induction false} FirstKept(e: seq<Entry>, timeouts: seq<int>, i: nat, k: nat, now: int, x: Entry)
    requires WholeRelays(e, timeouts, k) && i <= k
    ensures i == k ==> x !in Kept(e, timeouts, i, k, now)
    ensures i < k ==>
              (x in Kept(e, timeouts, i, k, now) <==>
                 LiveRelayHolds(e, timeouts, i, now, x) || x in Kept(e, timeouts, i + 1, k, now))
  {
    hide Relay;
  }

  /** A pass closes exactly the sockets it drops: none twice, none that stays. */
  lemma {:induction false} NothingIsLost(e: seq<Entry>, timeouts: seq<int>, i: nat, k: nat, now: int)
    requires WholeRelays(e, timeouts, k) && i <= k
    ensures multiset(Fds(e[4 * i..])) ==
              multiset(Fds(Kept(e, timeouts, i, k, now))) + multiset(Shut(e, timeouts, i, k, now))
    decreases k - i
  {
    hide Fds, Relay, Kept, Shut;
    if i == k {
      assert e[4 * i..] == [];
      NothingFromEnd(e, timeouts, k, now);
      FdsConcat([], []);
    } else {
      NothingIsLost(e, timeouts, i + 1, k, now);
      FirstRelay(e, timeouts, i, k, now);
      var relay, rest := Relay(e, i), e[4 * (i + 1)..];
      var kept, shut := Kept(e, timeouts, i + 1, k, now), Shut(e, timeouts, i + 1, k, now);
      FdsConcat(relay, rest);
      FdsConcat(relay, kept);
      Balance(Fds(relay), Fds(rest), Fds(kept), shut);
    }
  }

  lemma {:induction false} FirstRelay(e: seq<Entry>, timeouts: seq<int>, i: nat, k: nat, now: int)
    requires WholeRelays(e, timeouts, k) && i < k
    ensures e[4 * i..] == Relay(e, i) + e[4 * (i + 1)..]
    ensures var kept, shut := Kept(e, timeouts, i + 1, k, now), Shut(e, timeouts, i + 1, k, now);
            if timeouts[i] <= now then
              Kept(e, timeouts, i, k, now) == kept && Shut(e, timeouts, i, k, now) == shut + Fds(Relay(e, i))
            else
              Kept(e, timeouts, i, k, now) == Relay(e, i) + kept && Shut(e, timeouts, i, k, now) == shut
  {
    assert e[4 * i..] == Relay(e, i) + e[4 * (i + 1)..];
    hide Relay, Fds;
    var kept, shut := Kept(e, timeouts, i + 1, k, now), Shut(e, timeouts, i + 1, k, now);
    assert [] + kept == kept && shut + [] == shut;
  }

  lemma {:induction false} FdsConcat(a: seq<Entry>, b: seq<Entry>)
    ensures Fds(a + b) == Fds(a) + Fds(b)
    ensures a == [] ==> Fds(a) == []
  {
  }

  lemma {:induction false} Balance(relay: seq<Fd>, rest: seq<Fd>, kept: seq<Fd>, shut: seq<Fd>)
    requires multiset(rest) == multiset(kept) + multiset(shut)
    ensures multiset(relay + rest) == multiset(relay + kept) + multiset(shut)
    ensures multiset(relay + rest) == multiset(kept) + multiset(shut + relay)
  {
  }

  // ----- packets and new relays ------------------------------------------------------------

  lemma {:induction false} PairingInTable(i: nat, k: nat)
    requires 1 <= i < 1 + 4 * k
    ensures (i - 1) / 4 < k && 1 <= Paired(i) < 1 + 4 * k && Paired(i) != i
  {
    PairingIsInvolution(i, 1 + 4 * k);
  }

  /** What a packet does to the entries and deadlines of k relays, and where it goes. */
  function Packet(e: seq<Entry>, timeouts: seq<int>, i: nat, from: Addr, size: int, deadline: int)
    : (seq<Entry>, seq<int>, Option<(Fd, Addr)>)
    requires |e| % 4 == 0 && |e| <= 4 * |timeouts| && 1 <= i <= |e|
  {
    PairingIsInvolution(i, 1 + |e|);
    var x := e[i - 1];
    if x.peer.Some? && !SameAddr(x.peer.value, from) then (e, timeouts, None)
    else
      var e' := if x.peer.None? then e[i - 1 := x.(peer := Some(from))] else e;
      var other := e'[Paired(i) - 1];
      (e', timeouts[(i - 1) / 4 := deadline],
       if size > 0 && other.peer.Some? then Some((other.fd, other.peer.value)) else None)
  }

  function NewRelay(e: seq<Entry>, timeouts: seq<int>, k: nat, fds: seq<Fd>, deadline: int)
    : (seq<Entry>, seq<int>, bool)
    requires |e| == 4 * k && k <= |timeouts| && |fds| == 4
  {
    if k >= |timeouts| then (e, timeouts, false)
    else (e + seq(4, i requires 0 <= i < 4 => Entry(fds[i], None)), timeouts[k := deadline], true)
  }

  /** A learnt peer is never replaced, sockets never change, and a packet goes to the other
      half of its own pair only, under the peer learnt there. */
  lemma {:induction false} PacketStaysInPair(e: seq<Entry>, timeouts: seq<int>, i: nat, from: Addr, size: int,
                                             deadline: int)
    requires |e| % 4 == 0 && |e| <= 4 * |timeouts| && 1 <= i <= |e|
    ensures var (e', ts, forward) := Packet(e, timeouts, i, from, size, deadline);
            && |e'| == |e| && Fds(e') == Fds(e)
            && (forall j :: 0 <= j < |e| && e[j].peer.Some? ==> e'[j] == e[j])
            && (forall j :: 0 <= j < |e| && j != i - 1 ==> e'[j] == e[j])
            && (forward.Some? ==>
                  && size > 0 && 1 <= Paired(i) <= |e| && RelayOf(Paired(i)) == RelayOf(i)
                  && e[Paired(i) - 1] == Entry(forward.value.0, Some(forward.value.1))
                  && e'[i - 1].peer.Some? && SameAddr(e'[i - 1].peer.value, from))
  {
    PairingIsInvolution(i, 1 + |e|);
  }

  /** Addresses of the two internet families match exactly when they are equal. */
  lemma {:induction false} SameAddrIff(a: Addr, b: Addr)
    ensures SameAddr(a, a) && (SameAddr(a, b) <==> SameAddr(b, a))
    ensures a.family == INET || a.family == INET6 ==> (SameAddr(a, b) <==> a == b)
  {
  }

  /** The sender is the first one on its socket or matches the one learnt there. */
  predicate Welcome(e: seq<Entry>, i: nat, from: Addr)
    requires 1 <= i <= |e|
  {
    e[i - 1].peer.None? || SameAddr(e[i - 1].peer.value, from)
  }

  /** A packet goes on exactly when it has content, its sender is welcome and the other half
      of the pair has been heard; a welcome sender is learnt and prolongs its own relay
      only, an unwelcome one changes nothing. */
  lemma {:induction false} PacketGoesOnIff(e: seq<Entry>, timeouts: seq<int>, i: nat, from: Addr, size: int,
                                           deadline: int)
    requires |e| % 4 == 0 && |e| <= 4 * |timeouts| && 1 <= i <= |e|
    ensures 1 <= Paired(i) <= |e| && RelayOf(i) < |timeouts|
    ensures var (e', ts, forward) := Packet(e, timeouts, i, from, size, deadline);
            var other := e[Paired(i) - 1];
            && (forward.Some? <==> size > 0 && Welcome(e, i, from) && other.peer.Some?)
            && (forward.Some? ==> forward.value == (other.fd, other.peer.value))
            && |e'| == |e| && |ts| == |timeouts|
            && e'[i - 1].fd == e[i - 1].fd
            && (Welcome(e, i, from) ==>
                  && e'[i - 1].peer == (if e[i - 1].peer.Some? then e[i - 1].peer else Some(from))
                  && ts[RelayOf(i)] == deadline)
            && (forall k :: 0 <= k < |ts| && k != RelayOf(i) ==> ts[k] == timeouts[k])
            && (!Welcome(e, i, from) ==> e' == e && ts == timeouts)
  {
    PairingIsInvolution(i, 1 + |e|);
  }

  /** A new relay lives until its deadline: it is in the table from then on, with no peer
      known, and a pass over the table keeps it exactly while the deadline is to come. */
  lemma {:induction false} NewRelayLives(e: seq<Entry>, timeouts: seq<int>, k: nat, fds: seq<Fd>, deadline: int,
                                         now: int)
    requires |e| == 4 * k && k < |timeouts| && |fds| == 4
    ensures var (e', ts, ok) := NewRelay(e, timeouts, k, fds, deadline);
            && ok && WholeRelays(e', ts, k + 1) && e'[..4 * k] == e && ts[..k] == timeouts[..k]
            && Fds(Relay(e', k)) == fds && (forall x <- Relay(e', k) :: x.peer.None?)
            && Kept(e', ts, k, k + 1, now) == if deadline <= now then [] else Relay(e', k)
  {
    var (e', ts, ok) := NewRelay(e, timeouts, k, fds, deadline);
    assert Kept(e', ts, k + 1, k + 1, now) == [];
    assert Fds(Relay(e', k)) == fds;
  }

  // ----- the table in place --------------------------------------------------------------------

  /** Moves count elements down within an array. */
  method MoveDown<T>(a: array<T>, to: nat, from: nat, count: nat)
    requires to <= from && from + count <= a.Length
    modifies a
    ensures forall j :: 0 <= j < to ==> a[j] == old(a[j])
    ensures forall j :: to <= j < to + count ==> a[j] == old(a[j + (from - to)])
    ensures forall j :: to + count <= j < a.Length ==> a[j] == old(a[j])
  {
    var i := 0;
    while i < count
      invariant 0 <= i <= count
      invariant forall j :: 0 <= j < to ==> a[j] == old(a[j])
      invariant forall j :: to <= j < to + i ==> a[j] == old(a[j + (from - to)])
      invariant forall j :: to + i <= j < a.Length ==> a[j] == old(a[j])
    {
      a[to + i] := a[from + i];
      i := i + 1;
    }
  }

  /** The entries of a table with n slots, without the wake-up event. */
  function Zip(sockets: seq<Fd>, peers: seq<Option<Addr>>, n: nat): (e: seq<Entry>)
    requires |sockets| == |peers| && 1 <= n <= |sockets|
    ensures |e| == n - 1 && forall i :: 0 <= i < |e| ==> e[i] == Entry(sockets[i + 1], peers[i + 1])
  {
    seq(n - 1, i requires 0 <= i < n - 1 => Entry(sockets[i + 1], peers[i + 1]))
  }

  /** A column after the slots above k + 5 have moved down by four. */
  predicate Moved<T(==)>(s: seq<T>, s': seq<T>, n: nat, k: nat) {
    && |s'| == |s| && k + 5 <= n <= |s|
    && (forall q :: 0 <= q <= k ==> s'[q] == s[q])
    && (forall q :: k < q < n - 4 ==> s'[q] == s[q + 4])
  }

  /** Cutting a stretch out of both columns cuts it out of the entries. */
  lemma {:induction false} ZipCut(s: seq<Fd>, p: seq<Option<Addr>>, s': seq<Fd>, p': seq<Option<Addr>>, n: nat, k: nat)
    requires |s| == |p| && Moved(s, s', n, k) && Moved(p, p', n, k)
    ensures var e := Zip(s, p, n);
            Zip(s', p', n - 4) == e[..k] + e[k + 4..]
  {
    var e, z := Zip(s, p, n), Zip(s', p', n - 4);
    var c := e[..k] + e[k + 4..];
    forall q | 0 <= q < |z| ensures z[q] == c[q] {
      if q < k {
        assert c[q] == e[q];
      } else {
        assert c[q] == e[q + 4];
      }
    }
  }

  class RelayTable {
    const sockets: array<Fd>
    const peers: array<Option<Addr>>
    const timeouts: array<int>
    const inactivity: nat
    var num: nat
    var closed: seq<Fd>
    ghost var relays: nat

    constructor (event: Fd, inactivity: nat)
      ensures Valid() && Entries() == [] && closed == [] && num == 1 && sockets[0] == event
              && this.inactivity == inactivity
      ensures fresh(sockets) && fresh(peers) && fresh(timeouts)
    {
      sockets := new Fd[CAPACITY](_ => event);
      peers := new Option<Addr>[CAPACITY](_ => None);
      timeouts := new int[MAX_RELAYS](_ => 0);
      this.inactivity := inactivity;
      num, relays := 1, 0;
      closed := [];
    }

    /** One wake-up event and whole relays. */
    ghost predicate Valid()
      reads this
    {
      && sockets.Length == CAPACITY && peers.Length == CAPACITY && timeouts.Length == MAX_RELAYS
      && num == 1 + 4 * relays && relays <= MAX_RELAYS
    }

    ghost function Entries(): (e: seq<Entry>)
      requires Valid()
      reads this, sockets, peers
      ensures |e| == num - 1
      ensures forall i :: 0 <= i < num - 1 ==> e[i] == Entry(sockets[i + 1], peers[i + 1])
    {
      Zip(sockets[..], peers[..], num)
    }

    /** A packet has come in on socket i: its sender is learnt or must be the learnt one,
        the relay's deadline moves, and a packet with content goes to the peer of the
        paired socket, if that one is known. */
    method OnPacket(i: nat, from: Addr, size: int, now: int) returns (forward: Option<(Fd, Addr)>)
      requires Valid() && 1 <= i < num
      modifies peers, timeouts
      ensures Valid() && sockets[0] == old(sockets[0])
      ensures var (e, ts, f) := Packet(old(Entries()), old(timeouts[..]), i, from, size, now + inactivity);
              Entries() == e && timeouts[..] == ts && forward == f
    {
      forward := None;
      PairingInTable(i, relays);
      ghost var e := Entries();
      if peers[i].None? {
        peers[i] := Some(from);
        assert Entries() == e[i - 1 := Entry(sockets[i], Some(from))];
      } else if !SameAddr(peers[i].value, from) {
        return;
      }
      timeouts[(i - 1) / 4] := now + inactivity;
      if size <= 0 {
        return;
      }
      var paired := 1 + 4 * ((i - 1) / 4) + (i + 1) % 4;
      assert paired == Paired(i) && Entries()[paired - 1] == Entry(sockets[paired], peers[paired]);
      if peers[paired].Some? {
        forward := Some((sockets[paired], peers[paired].value));
      }
    }

    /** Four new sockets make a relay, if there is room. */
    method Append(fds: seq<Fd>, now: int) returns (ok: bool)
      requires Valid() && |fds| == 4
      modifies this, sockets, peers, timeouts
      ensures Valid() && sockets[0] == old(sockets[0]) && closed == old(closed)
      ensures var (e, ts, done) := NewRelay(old(Entries()), old(timeouts[..]), old(relays), fds, now + inactivity);
              Entries() == e && timeouts[..] == ts && ok == done
    {
      if num >= 1 + 4 * MAX_RELAYS {
        return false;
      }
      var i := 0;
      ghost var e := Entries();
      while i < 4
        invariant 0 <= i <= 4 && num == old(num) && relays == old(relays) && closed == old(closed)
        invariant timeouts[..] == old(timeouts[..])
        invariant forall j :: 0 <= j < num ==> sockets[j] == old(sockets[j]) && peers[j] == old(peers[j])
        invariant forall j :: num <= j < num + i ==> sockets[j] == fds[j - num] && peers[j] == None
      {
        sockets[num + i] := fds[i];
        peers[num + i] := None;
        i := i + 1;
      }
      timeouts[(num - 1) / 4] := now + inactivity;
      num, relays := num + 4, relays + 1;
      ghost var more := seq(4, i requires 0 <= i < 4 => Entry(fds[i], None));
      forall q | 0 <= q < num - 1 ensures Entries()[q] == (e + more)[q] {
        if q >= |e| {
          assert sockets[q + 1] == fds[q - |e|];
        }
      }
      assert Entries() == e + more;
      assert timeouts[..] == old(timeouts[..])[old(relays) := now + inactivity];
      assert sockets[0] == old(sockets[0]);
      ok := true;
    }

    method CloseSockets(k: nat)
      requires Valid() && 5 + 4 * k <= num
      modifies this`closed
      ensures closed == old(closed) + Fds(Entries()[4 * k..4 * k + 4])
    {
      ghost var e, was := Entries(), closed;
      var j := 1 + k * 4;
      while j < 1 + k * 4 + 4
        invariant 1 + k * 4 <= j <= 1 + k * 4 + 4
        invariant closed == was + Fds(e[4 * k..j - 1])
      {
        assert e[4 * k..j] == e[4 * k..j - 1] + [e[j - 1]];
        assert e[j - 1].fd == sockets[j];
        closed := closed + [sockets[j]];
        j := j + 1;
      }
    }

    /** Closes the sockets of relay k and moves the relays above it down. */
    method DropRelay(k: nat)
      requires Valid() && 5 + 4 * k <= num
      modifies this, sockets, peers
      ensures Valid() && sockets[0] == old(sockets[0])
      ensures Entries() == old(Entries()[..4 * k] + Entries()[4 * k + 4..])
      ensures closed == old(closed + Fds(Entries()[4 * k..4 * k + 4]))
    {
      CloseSockets(k);
      hide Fds, Zip;
      CutRelay(k);
    }

    /** Moves the relays above relay k down by one. */
    method CutRelay(k: nat)
      requires Valid() && 5 + 4 * k <= num
      modifies this, sockets, peers
      ensures Valid() && sockets[0] == old(sockets[0]) && closed == old(closed)
      ensures Entries() == old(Entries()[..4 * k] + Entries()[4 * k + 4..])
    {
      ghost var n, s, p := num, sockets[..], peers[..];
      num, relays := num - 4, relays - 1;
      MoveDown(sockets, 1 + k * 4, 1 + k * 4 + 4, num - 1 - k * 4);
      assert Moved(s, sockets[..], n, 4 * k);
      MoveDown(peers, 1 + k * 4, 1 + k * 4 + 4, num - 1 - k * 4);
      assert Moved(p, peers[..], n, 4 * k);
      hide Moved, Zip;
      ZipCut(s, p, sockets[..], peers[..], n, 4 * k);
      assert sockets[0] == sockets[..][0] == s[0];
    }

    /** Drops the relays whose deadline has passed and closes their sockets; returns the
        earliest deadline seen among the others, or 0. */
    method Compact(now: int) returns (timeout: int)
      requires Valid()
      modifies this, sockets, peers
      ensures Valid() && sockets[0] == old(sockets[0])
      ensures Entries() == Kept(old(Entries()), timeouts[..], 0, old(relays), now)
      ensures closed == old(closed) + Shut(old(Entries()), timeouts[..], 0, old(relays), now)
    {
      hide Kept, Shut, Fds, Relay, Zip;
      timeout := 0;
      // integer division truncates: with no relay left the first index is 0
      var i := if num >= 2 then (num - 2) / 4 else 0;
      ghost var e, was, ts, k := Entries(), closed, timeouts[..], relays;
      NothingFromEnd(e, ts, k, now);
      assert e == e[..4 * k] + [] && was == was + [];
      while num > 1 && i >= 0
        invariant Valid() && sockets[0] == old(sockets[0]) && timeouts[..] == ts
        invariant -1 <= i && (k == 0 ==> num == 1 && closed == was && i == 0)
        invariant k > 0 ==> i < k && Entries() == e[..4 * (i + 1)] + Kept(e, ts, i + 1, k, now)
        invariant k > 0 ==> closed == was + Shut(e, ts, i + 1, k, now)
        decreases i
      {
        PassStep(e, was, ts, i, k, now);
        if timeouts[i] <= now {
          DropRelay(i);
        } else if timeout == 0 || timeouts[i] < timeout {
          timeout := timeouts[i];
        }
        i := i - 1;
      }
      assert i == -1 || k == 0;
      assert e[..0] + Kept(e, ts, 0, k, now) == Kept(e, ts, 0, k, now);
    }
  }

  lemma {:induction false} NothingFromEnd(e: seq<Entry>, timeouts: seq<int>, k: nat, now: int)
    requires WholeRelays(e, timeouts, k)
    ensures Kept(e, timeouts, k, k, now) == [] && Shut(e, timeouts, k, k, now) == []
  {
  }

  /** One relay further down: cut out, or left where it is. */
  lemma {:induction false} PassStep(e: seq<Entry>, was: seq<Fd>, timeouts: seq<int>, i: nat, k: nat, now: int)
    requires WholeRelays(e, timeouts, k) && i < k
    ensures var kept, shut := Kept(e, timeouts, i + 1, k, now), Shut(e, timeouts, i + 1, k, now);
            var f := e[..4 * (i + 1)] + kept;
            var kept', shut' := Kept(e, timeouts, i, k, now), Shut(e, timeouts, i, k, now);
            if timeouts[i] <= now then
              f[..4 * i] + f[4 * i + 4..] == e[..4 * i] + kept'
              && (was + shut) + Fds(f[4 * i..4 * i + 4]) == was + shut'
            else
              f == e[..4 * i] + kept' && shut' == shut
  {
    var kept, shut := Kept(e, timeouts, i + 1, k, now), Shut(e, timeouts, i + 1, k, now);
    CutAt(e, i, kept);
    assert Kept(e, timeouts, i, k, now) == (if timeouts[i] <= now then [] else Relay(e, i)) + kept;
    assert Shut(e, timeouts, i, k, now) == shut + if timeouts[i] <= now then Fds(Relay(e, i)) else [];
    hide Fds, Relay, Kept, Shut;
    assert [] + kept == kept && shut + [] == shut;
  }

  lemma {:induction false} CutAt(e: seq<Entry>, i: nat, kept: seq<Entry>)
    requires 4 * i + 4 <= |e|
    ensures var f := e[..4 * (i + 1)] + kept;
            && f[..4 * i] == e[..4 * i] && f[4 * i + 4..] == kept && f[4 * i..4 * i + 4] == Relay(e, i)
            && f == e[..4 * i] + (Relay(e, i) + kept)
  {
    assert e[..4 * (i + 1)] == e[..4 * i] + Relay(e, i);
  }
}
