/**
 The relay thread and an allocator under one monitor, step by step: who may touch the
 table, why no wake-up is lost, and what the table holds over whole runs.
 */
module JnRelay {

  import opened Options
  import opened JnRelayTable

  /** Where the relay thread is: in its poll, serving packets, at the monitor's entry,
      inside, waiting on the monitor, or compacting the table. */
  datatype ThreadAt = Polling | Serving | AtEntry | Inside | Parked | Compacting

  /** Where the allocator is: outside, at the monitor's entry, inside before its wait,
      waiting on the monitor, or filling in the table. */
  datatype AllocatorAt = Idle | Arriving | Signalling | Waiting | Writing

  datatype Owner = Nobody | Thread | Allocator

  /** The table, the sockets closed and those ever made. */
  datatype Table = Table(entries: seq<Entry>, timeouts: seq<int>, relays: nat, closed: seq<Fd>, made: seq<Fd>)

  /** The wake-up event, the thread's note of it, who has been notified, and who owns the
      monitor; the number of relay threads started. */
  datatype World = World(
    thread: ThreadAt,
    notify: bool,
    threadNotified: bool,
    allocator: AllocatorAt,
    allocatorNotified: bool,
    event: bool,
    owner: Owner,
    threads: nat,
    table: Table)

  datatype PacketIn = PacketIn(i: nat, from: Addr, size: int, deadline: int)

  /** The first allocation has just started the relay thread. */
  const START: World :=
    World(Polling, false, false, Arriving, false, false, Nobody, 1, Table([], [0, 0, 0, 0, 0], 0, [], []))

  datatype Move =
    | PollWakes
    | PollReturns
    | Serve(packets: seq<PacketIn>)
    | ThreadEnters
    | NotifyAndPark
    | GoOn
    | ThreadResumes
    | Compact(now: int)
    | Call
    | AllocatorEnters
    | SignalAndWait
    | AllocatorResumes
    | Write(fds: seq<Fd>, deadline: int)

  /** The poll reports the event whenever it is set; a waiter goes on once it is notified
      and the monitor is free. A second thread brings a second event and a second monitor
      with it: from there on nothing is modelled. */
  predicate Enabled(w: World, m: Move) {
    w.threads == 1 &&
    match m
    case PollWakes => w.thread == Polling && w.event
    case PollReturns => w.thread == Polling && !w.event
    case Serve(packets) => w.thread == Serving && InRange(w.table, packets)
    case ThreadEnters => w.thread == AtEntry && w.owner == Nobody
    case NotifyAndPark => w.thread == Inside && w.notify
    case GoOn => w.thread == Inside && !w.notify
    case ThreadResumes => w.thread == Parked && w.threadNotified && w.owner == Nobody
    case Compact(_) => w.thread == Compacting
    case Call => w.allocator == Idle
    case AllocatorEnters => w.allocator == Arriving && w.owner == Nobody
    case SignalAndWait => w.allocator == Signalling
    case AllocatorResumes => w.allocator == Waiting && w.allocatorNotified && w.owner == Nobody
    case Write(fds, _) => w.allocator == Writing && |fds| == 4
  }

  predicate ValidTable(t: Table) {
    |t.entries| == 4 * t.relays && t.relays <= MAX_RELAYS && |t.timeouts| == MAX_RELAYS
  }

  predicate InRange(t: Table, packets: seq<PacketIn>) {
    ValidTable(t) && forall k :: 0 <= k < |packets| ==> 1 <= packets[k].i <= |t.entries|
  }

  function ServeAll(t: Table, packets: seq<PacketIn>): Table
    requires InRange(t, packets)
    decreases |packets|
  {
    if packets == [] then t
    else
      var p := packets[0];
      PacketStaysInPair(t.entries, t.timeouts, p.i, p.from, p.size, p.deadline);
      var (e, ts, _) := Packet(t.entries, t.timeouts, p.i, p.from, p.size, p.deadline);
      ServeAll(t.(entries := e, timeouts := ts), packets[1..])
  }

  function CompactTable(t: Table, now: int): Table
    requires ValidTable(t)
  {
    t.(entries := Kept(t.entries, t.timeouts, 0, t.relays, now),
       relays := Survivors(t.timeouts, 0, t.relays, now),
       closed := t.closed + Shut(t.entries, t.timeouts, 0, t.relays, now))
  }

  function AppendTable(t: Table, fds: seq<Fd>, deadline: int): Table
    requires ValidTable(t) && |fds| == 4
  {
    var (e, ts, ok) := NewRelay(t.entries, t.timeouts, t.relays, fds, deadline);
    if ok then t.(entries := e, timeouts := ts, relays := t.relays + 1, made := t.made + fds) else t
  }

  function Do(w: World, m: Move): World
    requires Enabled(w, m) && ValidTable(w.table)
  {
    match m
    case PollWakes => w.(event := false, notify := true, thread := Serving)
    case PollReturns => w.(thread := Serving)
    case Serve(packets) => w.(table := ServeAll(w.table, packets), thread := AtEntry)
    case ThreadEnters => w.(owner := Thread, thread := Inside)
    case NotifyAndPark =>
      w.(allocatorNotified := w.allocatorNotified || w.allocator == Waiting, owner := Nobody, thread := Parked,
         threadNotified := false)
    case GoOn => w.(thread := Compacting)
    case ThreadResumes => w.(owner := Thread, notify := false, thread := Compacting)
    case Compact(now) => w.(table := CompactTable(w.table, now), owner := Nobody, thread := Polling)
    case Call => w.(allocator := Arriving, threads := if |w.table.entries| == 0 then w.threads + 1 else w.threads)
    case AllocatorEnters => w.(owner := Allocator, allocator := Signalling)
    case SignalAndWait => w.(event := true, allocator := Waiting, allocatorNotified := false, owner := Nobody)
    case AllocatorResumes => w.(owner := Allocator, allocator := Writing)
    case Write(fds, deadline) =>
      w.(table := AppendTable(w.table, fds, deadline), owner := Nobody, allocator := Idle,
         threadNotified := w.threadNotified || w.thread == Parked)
  }

  // ----- the monitor -----------------------------------------------------------------------

  /** The thread has taken note of the event and not yet passed it on. */
  predicate Carrying(w: World) {
    w.notify && w.thread in {Serving, AtEntry, Inside}
  }

  predicate MonitorInv(w: World) {
    && (w.owner == Thread <==> w.thread in {Inside, Compacting})
    && (w.owner == Allocator <==> w.allocator in {Signalling, Writing})
    && (w.notify <==> Carrying(w) || w.thread == Parked)
    && (w.event ==> w.allocator == Waiting && !w.allocatorNotified && !Carrying(w))
    && (Carrying(w) ==> w.allocator == Waiting && !w.allocatorNotified)
    && (w.allocator == Waiting && !w.allocatorNotified ==> w.event || Carrying(w))
    && (w.allocator == Writing || (w.allocator == Waiting && w.allocatorNotified) ==>
          w.thread == Parked && !w.threadNotified)
    && (w.thread == Parked && !w.threadNotified ==>
          w.allocator == Writing || (w.allocator == Waiting && w.allocatorNotified))
  }

  /** Sockets ever made are open or closed, each once. */
  predicate Accounted(t: Table) {
    multiset(t.made) == multiset(Fds(t.entries)) + multiset(t.closed)
  }

  predicate Inv(w: World) {
    w.threads == 1 && MonitorInv(w) && ValidTable(w.table) && Accounted(w.table)
  }

  lemma {:induction false} ServeKeepsTable(t: Table, packets: seq<PacketIn>)
    requires InRange(t, packets)
    ensures var z := ServeAll(t, packets);
            && ValidTable(z) && z.relays == t.relays && z.closed == t.closed && z.made == t.made
            && Fds(z.entries) == Fds(t.entries)
            && forall j :: 0 <= j < |t.entries| && t.entries[j].peer.Some? ==> z.entries[j] == t.entries[j]
    decreases |packets|
  {
    if packets != [] {
      var p := packets[0];
      PacketStaysInPair(t.entries, t.timeouts, p.i, p.from, p.size, p.deadline);
      var (e, ts, f) := Packet(t.entries, t.timeouts, p.i, p.from, p.size, p.deadline);
      hide Packet, Fds;
      ServeKeepsTable(t.(entries := e, timeouts := ts), packets[1..]);
    }
  }

  // ----- what the packets of one round are worth --------------------------------------------

  /** Where each packet goes. */
  function Forwards(t: Table, packets: seq<PacketIn>): (f: seq<Option<(Fd, Addr)>>)
    requires InRange(t, packets)
    ensures |f| == |packets|
    decreases |packets|
  {
    if packets == [] then []
    else
      var p := packets[0];
      PacketStaysInPair(t.entries, t.timeouts, p.i, p.from, p.size, p.deadline);
      var (e, ts, f) := Packet(t.entries, t.timeouts, p.i, p.from, p.size, p.deadline);
      [f] + Forwards(t.(entries := e, timeouts := ts), packets[1..])
  }

  /** The sender of the first packet on a socket. */
  function FirstSender(packets: seq<PacketIn>, i: nat): Option<Addr>
    decreases |packets|
  {
    if packets == [] then None
    else if packets[0].i == i then Some(packets[0].from)
    else FirstSender(packets[1..], i)
  }

  /** The peer of a socket after some packets: the one learnt before, or the first sender. */
  function Peer(t: Table, packets: seq<PacketIn>, i: nat): Option<Addr>
    requires 1 <= i <= |t.entries|
  {
    if t.entries[i - 1].peer.Some? then t.entries[i - 1].peer else FirstSender(packets, i)
  }

  lemma {:induction false} PeerStep(t: Table, packets: seq<PacketIn>, i: nat)
    requires InRange(t, packets) && packets != [] && 1 <= i <= |t.entries|
    ensures var p := packets[0];
            var (e, ts, f) := Packet(t.entries, t.timeouts, p.i, p.from, p.size, p.deadline);
            |e| == |t.entries| && Peer(t, packets, i) == Peer(t.(entries := e, timeouts := ts), packets[1..], i)
  {
    var p := packets[0];
    PacketStaysInPair(t.entries, t.timeouts, p.i, p.from, p.size, p.deadline);
    PacketGoesOnIff(t.entries, t.timeouts, p.i, p.from, p.size, p.deadline);
    hide Packet;
  }

  /** The table after a round knows, for every socket, its peer: the one it had, or else
      the first sender. */
  lemma {:induction false} ServeLearns(t: Table, packets: seq<PacketIn>, i: nat)
    requires InRange(t, packets) && 1 <= i <= |t.entries|
    ensures |ServeAll(t, packets).entries| == |t.entries|
    ensures ServeAll(t, packets).entries[i - 1] == Entry(t.entries[i - 1].fd, Peer(t, packets, i))
    decreases |packets|
  {
    if packets != [] {
      var p := packets[0];
      PacketStaysInPair(t.entries, t.timeouts, p.i, p.from, p.size, p.deadline);
      PacketGoesOnIff(t.entries, t.timeouts, p.i, p.from, p.size, p.deadline);
      PeerStep(t, packets, i);
      var (e, ts, f) := Packet(t.entries, t.timeouts, p.i, p.from, p.size, p.deadline);
      hide Packet, Peer;
      ServeLearns(t.(entries := e, timeouts := ts), packets[1..], i);
    }
  }

  /** Where packet k of a round should go: through the other half of its pair and to the peer
      known there, if it has content, comes from the peer of its own socket, and the other
      half has been heard, before this round or earlier in it. */
  function Destination(t: Table, packets: seq<PacketIn>, k: nat): Option<(Fd, Addr)>
    requires InRange(t, packets) && k < |packets|
  {
    var p := packets[k];
    PairingIsInvolution(p.i, 1 + |t.entries|);
    var own, other := Peer(t, packets[..k + 1], p.i), Peer(t, packets[..k], Paired(p.i));
    if p.size > 0 && own.Some? && SameAddr(own.value, p.from) && other.Some?
    then Some((t.entries[Paired(p.i) - 1].fd, other.value)) else None
  }

  /** Every packet of a round goes where it should, and nowhere else. */
  lemma {:induction false} RelayDelivers(t: Table, packets: seq<PacketIn>, k: nat)
    requires InRange(t, packets) && k < |packets|
    ensures Forwards(t, packets)[k] == Destination(t, packets, k)
    ensures Peer(t, packets[..k + 1], packets[k].i).Some?
    decreases k
  {
    var p := packets[0];
    PacketStaysInPair(t.entries, t.timeouts, p.i, p.from, p.size, p.deadline);
    if k == 0 {
      FirstDelivered(t, packets);
    } else {
      var (e, ts, f) := Packet(t.entries, t.timeouts, p.i, p.from, p.size, p.deadline);
      var z := t.(entries := e, timeouts := ts);
      assert Forwards(t, packets)[k] == Forwards(z, packets[1..])[k - 1];
      DestinationStep(t, z, packets, k);
      hide Packet, Peer, Forwards, Destination;
      RelayDelivers(z, packets[1..], k - 1);
    }
  }

  lemma {:induction false} DestinationStep(t: Table, z: Table, packets: seq<PacketIn>, k: nat)
    requires InRange(t, packets) && 0 < k < |packets|
    requires var p := packets[0];
             var r := Packet(t.entries, t.timeouts, p.i, p.from, p.size, p.deadline);
             z == t.(entries := r.0, timeouts := r.1)
    ensures InRange(z, packets[1..])
    ensures Destination(t, packets, k) == Destination(z, packets[1..], k - 1)
    ensures Peer(t, packets[..k + 1], packets[k].i) == Peer(z, packets[1..][..k], packets[k].i)
  {
    var p, q := packets[0], packets[k];
    PacketStaysInPair(t.entries, t.timeouts, p.i, p.from, p.size, p.deadline);
    hide Packet, Peer, SameAddr;
    PairingIsInvolution(q.i, 1 + |t.entries|);
    assert packets[1..][k - 1] == q;
    PeerStep(t, packets[..k + 1], q.i);
    PeerStep(t, packets[..k], Paired(q.i));
    assert packets[..k + 1][1..] == packets[1..][..k] && packets[..k][1..] == packets[1..][..k - 1];
    assert Fds(z.entries)[Paired(q.i) - 1] == Fds(t.entries)[Paired(q.i) - 1];
  }

  lemma {:induction false} FirstDelivered(t: Table, packets: seq<PacketIn>)
    requires InRange(t, packets) && packets != []
    ensures Forwards(t, packets)[0] == Destination(t, packets, 0)
    ensures Peer(t, packets[..1], packets[0].i).Some?
  {
    var p := packets[0];
    PacketGoesOnIff(t.entries, t.timeouts, p.i, p.from, p.size, p.deadline);
    SameAddrIff(p.from, p.from);
    assert packets[..1][0] == p && packets[..0] == [];
  }

  lemma {:induction false} CompactKeepsTable(t: Table, now: int)
    requires ValidTable(t) && Accounted(t)
    ensures ValidTable(CompactTable(t, now)) && Accounted(CompactTable(t, now))
  {
    KeptIsWhole(t.entries, t.timeouts, 0, t.relays, now);
    NothingIsLost(t.entries, t.timeouts, 0, t.relays, now);
    assert t.entries[4 * 0..] == t.entries;
    hide Kept, Shut, Fds, Survivors;
    MultisetSum(t.closed, Shut(t.entries, t.timeouts, 0, t.relays, now));
  }

  lemma {:induction false} AppendKeepsTable(t: Table, fds: seq<Fd>, deadline: int)
    requires ValidTable(t) && Accounted(t) && |fds| == 4
    ensures ValidTable(AppendTable(t, fds, deadline)) && Accounted(AppendTable(t, fds, deadline))
  {
    var more := seq(4, i requires 0 <= i < 4 => Entry(fds[i], None));
    FdsConcat(t.entries, more);
    assert Fds(more) == fds;
    MultisetSum(Fds(t.entries), fds);
    MultisetSum(t.made, fds);
    hide Fds;
  }

  lemma {:induction false} MultisetSum(a: seq<Fd>, b: seq<Fd>)
    ensures multiset(a + b) == multiset(a) + multiset(b)
  {
  }

  /** The move that starts another relay thread. */
  predicate StartsThread(w: World, m: Move) {
    m.Call? && w.table.entries == []
  }

  /** Every move of either side keeps the invariant, except a call on an empty table. */
  lemma {:induction false} MoveKeepsInv(w: World, m: Move)
    requires Inv(w) && Enabled(w, m)
    ensures ValidTable(Do(w, m).table)
    ensures Inv(Do(w, m)) <==> !StartsThread(w, m)
  {
    hide Accounted;
    match m
    case Serve(packets) =>
      ServeKeepsTable(w.table, packets);
      SameAccount(w.table, ServeAll(w.table, packets));
    case Compact(now) => CompactKeepsTable(w.table, now);
    case Write(fds, deadline) => AppendKeepsTable(w.table, fds, deadline);
    case _ =>
  }

  lemma {:induction false} SameAccount(t: Table, z: Table)
    requires Fds(z.entries) == Fds(t.entries) && z.closed == t.closed && z.made == t.made
    ensures Accounted(t) ==> Accounted(z)
  {
  }

  lemma {:induction false} StartInv()
    ensures Inv(START)
  {
  }

  /** The allocator changes the table only while the thread waits in the monitor. */
  lemma {:induction false} WritesWhileParked(w: World, m: Move)
    requires Inv(w) && Enabled(w, m) && m.Write?
    ensures w.thread == Parked && w.owner == Allocator
  {
  }

  // ----- no lost wake-up ---------------------------------------------------------------------

  /** How many moves of the thread it takes until a waiting allocator is notified. */
  function Distance(w: World): nat {
    if w.notify && w.thread == Inside then 1
    else if w.notify && w.thread == AtEntry then 2
    else if w.notify && w.thread == Serving then 3
    else if w.thread == Polling then 4
    else if w.thread == Compacting then 5
    else if w.thread == Inside || w.thread == Parked then 6
    else if w.thread == AtEntry then 7
    else 8
  }

  predicate ThreadMoves(m: Move) {
    m.PollWakes? || m.PollReturns? || m.Serve? || m.ThreadEnters? || m.NotifyAndPark? || m.GoOn? || m.ThreadResumes?
    || m.Compact?
  }

  /** While the allocator waits for its notification, the only moves are the thread's, there
      always is one, and each brings the notification closer; once notified, the allocator
      is the only one that can move. */
  lemma {:induction false} NoLostWakeup(w: World) returns (m: Move)
    requires Inv(w) && w.allocator == Waiting
    ensures Enabled(w, m) && Inv(Do(w, m))
    ensures w.allocatorNotified ==> Do(w, m).allocator == Writing && forall n :: Enabled(w, n) ==> n == m
    ensures !w.allocatorNotified ==>
              forall n :: Enabled(w, n) ==>
                ThreadMoves(n) && (Do(w, n).allocatorNotified || Distance(Do(w, n)) < Distance(w))
  {
    hide Accounted, ValidTable;
    m :=
      if w.allocatorNotified then AllocatorResumes
      else
        match w.thread
        case Polling => if w.event then PollWakes else PollReturns
        case Serving => Serve([])
        case AtEntry => ThreadEnters
        case Inside => if w.notify then NotifyAndPark else GoOn
        case Parked => ThreadResumes
        case Compacting => Compact(0);
    MoveKeepsInv(w, m);
  }

  // ----- runs -----------------------------------------------------------------------------------

  lemma {:induction false} DoKeepsTable(w: World, m: Move)
    requires Enabled(w, m) && ValidTable(w.table)
    ensures ValidTable(Do(w, m).table)
  {
    match m
    case Serve(packets) => ServeKeepsTable(w.table, packets);
    case Compact(now) => KeptIsWhole(w.table.entries, w.table.timeouts, 0, w.table.relays, now);
    case _ =>
  }

  /** Where a sequence of moves leads; None if one of them could not happen. */
  function Execute(w: World, moves: seq<Move>): Option<World>
    requires ValidTable(w.table)
    decreases |moves|
  {
    if moves == [] then Some(w)
    else if !Enabled(w, moves[0]) then None
    else
      DoKeepsTable(w, moves[0]);
      Execute(Do(w, moves[0]), moves[1..])
  }

  /** Every call along the way finds a relay in the table. */
  predicate CallsMeetRelays(w: World, moves: seq<Move>)
    requires ValidTable(w.table)
    decreases |moves|
  {
    moves == [] || !Enabled(w, moves[0]) ||
    (!StartsThread(w, moves[0]) &&
     (DoKeepsTable(w, moves[0]);
      CallsMeetRelays(Do(w, moves[0]), moves[1..])))
  }

  /** Over any run there is one relay thread if and only if every call met a relay. */
  lemma {:induction false} OneThreadIff(w: World, moves: seq<Move>)
    requires Inv(w) && Execute(w, moves).Some?
    ensures Execute(w, moves).value.threads == 1 <==> CallsMeetRelays(w, moves)
    decreases |moves|
  {
    if moves != [] {
      MoveKeepsInv(w, moves[0]);
      DoKeepsTable(w, moves[0]);
      if StartsThread(w, moves[0]) {
        assert Do(w, moves[0]).threads == 2;
        assert moves[1..] == [];
      } else {
        hide Inv, Do, Enabled;
        OneThreadIff(Do(w, moves[0]), moves[1..]);
      }
    }
  }

  /** In every interleaving in which every call met a relay: one wake-up event and whole
      relays, at most 21 slots; no socket is lost or closed twice; both never change the
      table at once. */
  lemma {:induction false} TableIsSafe(w: World, moves: seq<Move>)
    requires Inv(w) && Execute(w, moves).Some? && CallsMeetRelays(w, moves)
    ensures var z := Execute(w, moves).value;
            var num := 1 + |z.table.entries|;
            && Inv(z) && num % 4 == 1 && num <= 21
            && multiset(z.table.made) == multiset(Fds(z.table.entries)) + multiset(z.table.closed)
            && !(z.thread == Compacting && z.allocator == Writing)
            && (z.allocator == Writing ==> z.thread == Parked)
    decreases |moves|
  {
    if moves != [] {
      MoveKeepsInv(w, moves[0]);
      DoKeepsTable(w, moves[0]);
      hide Inv, Do, Enabled;
      TableIsSafe(Do(w, moves[0]), moves[1..]);
    }
  }

  lemma {:induction false} Prepend(w: World, m: Move, rest: seq<Move>)
    requires Inv(w) && Enabled(w, m)
    ensures ValidTable(Do(w, m).table) && (!StartsThread(w, m) ==> Inv(Do(w, m)))
    ensures Execute(w, [m] + rest) == Execute(Do(w, m), rest)
  {
    MoveKeepsInv(w, m);
    DoKeepsTable(w, m);
    assert ([m] + rest)[1..] == rest;
  }

  /** Such a state is reachable: a relay is allocated, expires, and the next call finds the
      table empty and starts a second thread. */
  lemma {:induction false} SecondThreadIsReachable() returns (moves: seq<Move>)
    ensures Inv(START) && Execute(START, moves).Some? && Execute(START, moves).value.threads == 2
  {
    StartInv();
    hide Execute, Inv;
    var fds := [Fd(1), Fd(2), Fd(3), Fd(4)];
    var last := [Compact(60)] + ([Call] + []);
    var middle := [AllocatorResumes] + ([Write(fds, 60)] + ([ThreadResumes] + last));
    moves := [AllocatorEnters]
             + ([SignalAndWait] + ([PollWakes] + ([Serve([])] + ([ThreadEnters] + ([NotifyAndPark] + middle)))));
    var w := Notified(middle);
    var z := Written(w, fds, last);
    LastRelayGone(z);
  }

  lemma {:induction false} LastRelayGone(z: World)
    requires Inv(z) && z.thread == Compacting && z.allocator == Idle && z.threads == 1
    requires z.table.relays == 1 && z.table.timeouts == [60, 0, 0, 0, 0]
    ensures var r := Execute(z, [Compact(60)] + ([Call] + []));
            r.Some? && r.value.threads == 2
  {
    hide Fds;
    Prepend(z, Compact(60), [Call] + []);
    assert Kept(z.table.entries, z.table.timeouts, 1, 1, 60) == [];
    Prepend(Do(z, Compact(60)), Call, []);
  }

  lemma {:induction false} Notified(rest: seq<Move>) returns (w: World)
    ensures Inv(START) && Inv(w)
    ensures Execute(START,
                    [AllocatorEnters]
                    + ([SignalAndWait]
                       + ([PollWakes] + ([Serve([])] + ([ThreadEnters] + ([NotifyAndPark] + rest))))))
            == Execute(w, rest)
    ensures w == START.(thread := Parked, notify := true, allocator := Waiting, allocatorNotified := true)
  {
    StartInv();
    var w1 := Do(START, AllocatorEnters);
    Prepend(START, AllocatorEnters,
            [SignalAndWait] + ([PollWakes] + ([Serve([])] + ([ThreadEnters] + ([NotifyAndPark] + rest)))));
    var w2 := Do(w1, SignalAndWait);
    Prepend(w1, SignalAndWait, [PollWakes] + ([Serve([])] + ([ThreadEnters] + ([NotifyAndPark] + rest))));
    var w3 := Do(w2, PollWakes);
    Prepend(w2, PollWakes, [Serve([])] + ([ThreadEnters] + ([NotifyAndPark] + rest)));
    var w4 := Do(w3, Serve([]));
    Prepend(w3, Serve([]), [ThreadEnters] + ([NotifyAndPark] + rest));
    var w5 := Do(w4, ThreadEnters);
    Prepend(w4, ThreadEnters, [NotifyAndPark] + rest);
    w := Do(w5, NotifyAndPark);
    Prepend(w5, NotifyAndPark, rest);
  }

  lemma {:induction false} Written(w: World, fds: seq<Fd>, rest: seq<Move>) returns (z: World)
    requires Inv(w) && w == START.(thread := Parked, notify := true, allocator := Waiting, allocatorNotified := true)
    requires |fds| == 4
    ensures Inv(z)
    ensures Execute(w, [AllocatorResumes] + ([Write(fds, 60)] + ([ThreadResumes] + rest))) == Execute(z, rest)
    ensures z.thread == Compacting && z.allocator == Idle && z.threads == 1
    ensures z.table.relays == 1 && z.table.timeouts == [60, 0, 0, 0, 0]
  {
    var w1 := Do(w, AllocatorResumes);
    Prepend(w, AllocatorResumes, [Write(fds, 60)] + ([ThreadResumes] + rest));
    var w2 := Do(w1, Write(fds, 60));
    Prepend(w1, Write(fds, 60), [ThreadResumes] + rest);
    z := Do(w2, ThreadResumes);
    Prepend(w2, ThreadResumes, rest);
  }
}
