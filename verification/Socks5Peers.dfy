/**
 The two numbered-state machines of a SOCKS5 bytestream: the target, which dials and
 speaks first, and the initiator, which listens and answers.
 */
module Socks5Peers {

  import opened Options

  type Byte = x: int | 0 <= x < 256
  type Bytes = seq<Byte>

  /** What a peer reports to the service that owns it. */
  datatype Call = Ready | Failure | Complete | Progress(bytes: nat)

  /** The fields of either peer, its wait requests, and what it did to the outside: the
      addresses it dialled, the bytes written on the current connection, the bytes of the
      file still to be read and those received, its reports. Only a target has addresses. */
  datatype Peer = Peer(
    state: nat,
    ilen: nat,
    data: Bytes,
    waitIn: bool,
    waitOut: bool,
    closed: bool,
    addresses: seq<string>,
    currentAddr: nat,
    dialled: seq<string>,
    out: Bytes,
    file: Bytes,
    received: Bytes,
    calls: seq<Call>)

  const CHUNK: nat := 4096

  /** While a message is being read, part of it is missing. */
  predicate Sane(p: Peer) {
    p.state < 10 && p.ilen > 0 ==> |p.data| < p.ilen
  }

  /** The lengths the target's states wait for. */
  predicate TargetSane(p: Peer) {
    Sane(p) && (p.state == 1 ==> p.ilen == 2) && (p.state == 3 ==> p.ilen == 5) && (p.state == 4 ==> p.ilen > 0)
  }

  /** The lengths the initiator's states wait for. */
  predicate InitiatorSane(p: Peer) {
    Sane(p) && (p.state == 0 ==> p.ilen == 2) && (p.state == 2 ==> p.ilen == 5) && (p.state == 3 ==> p.ilen == 42)
  }

  // ----- both peers ---------------------------------------------------------------------

  function Write(p: Peer, bytes: Bytes): Peer { p.(out := p.out + bytes) }

  function Report(p: Peer, call: Call): Peer { p.(calls := p.calls + [call]) }

  /** Asks for a message of n bytes. */
  function Expect(p: Peer, n: nat): Peer { p.(ilen := n, waitIn := true) }

  function Finish(p: Peer): Peer {
    if p.state == 12 then p
    else p.(ilen := 0, state := if p.state > 9 then 8 else 6, closed := true, waitIn := true, waitOut := true)
  }

  function Abort(p: Peer): Peer {
    p.(ilen := 0, state := 12, closed := true, waitIn := true, waitOut := true)
  }

  function SendFile(p: Peer, file: Bytes): Peer {
    p.(file := file, state := 10, waitOut := true)
  }

  function RecvFile(p: Peer): Peer {
    p.(received := [], state := 11, waitIn := true)
  }

  /** One block of the file goes out, or the end of the file closes the stream. */
  function SendBlock(p: Peer, ok: bool): Peer {
    var n := if |p.file| < CHUNK then |p.file| else CHUNK;
    var q := p.(file := p.file[n..]);
    if n == 0 || !ok then Finish(q)
    else Report(Write(q, p.file[..n]).(waitOut := true), Progress(n))
  }

  function ReceiveBlock(p: Peer, bytes: Bytes): Peer {
    Report(p.(received := p.received + bytes, waitIn := true), Progress(|bytes|))
  }

  /** A message of ilen bytes comes together; the second part of the result is the number
      of bytes taken from the stream, the third the message once it is complete. */
  function Gather(p: Peer, available: Bytes): (Peer, nat, Option<Bytes>)
    requires Sane(p) && p.state < 10 && p.ilen > 0
  {
    var missing := p.ilen - |p.data|;
    var k := if |available| > missing then missing else |available|;
    var data := p.data + available[..k];
    if missing > k then (p.(data := data, waitIn := true), k, None)
    else (p.(data := []), k, Some(data))
  }

  // ----- the target -----------------------------------------------------------------------

  const GREETING: Bytes := [5, 1, 0]
  const METHOD: Bytes := [5, 0]
  const REFUSAL: Bytes := [5, 255]

  /** A request for an address, with port 0. */
  function Request(address: Bytes): Bytes { [5, 1, 0, 3, 0x28] + address + [0, 0] }

  function Reply(address: Bytes): Bytes { [5, 0, 0, 3, 0x28] + address + [0, 0] }

  /** The next address is dialled, or there is none left. */
  function Connect(p: Peer): Peer {
    if |p.addresses| <= p.currentAddr then Report(p, Failure)
    else
      p.(dialled := p.dialled + [p.addresses[p.currentAddr]], currentAddr := p.currentAddr + 1,
         data := [], out := [], closed := false, state := 0, waitIn := false, waitOut := true)
  }

  /** What is left of a reply after its first five bytes. */
  function ReplyRest(head: Bytes): Option<nat>
    requires |head| == 5
  {
    if head[3] == 1 then Some(5)
    else if head[3] == 3 then Some(head[4] as nat + 2)
    else if head[3] == 4 then Some(17)
    else None
  }

  function TargetMessage(p: Peer, data: Bytes): Peer
    requires TargetSane(p) && |data| == p.ilen
  {
    if p.state == 1 then
      if data[0] != 5 || data[1] != 0 then Finish(p) else p.(state := 2, waitOut := true)
    else if p.state == 3 then
      if data[0] != 5 || data[1] != 0 || ReplyRest(data).None? then Finish(p)
      else Expect(p, ReplyRest(data).value).(state := 4)
    else if p.state == 4 then
      Report(p.(state := 5, ilen := 0), Ready)
    else
      Closing(p)
  }

  /** The two callbacks that follow a close: after the second one a failed target dials
      again, and a finished transfer is complete. */
  function Closing(p: Peer): Peer {
    if p.state == 6 || p.state == 8 then p.(state := p.state + 1)
    else if p.state == 7 then Connect(p)
    else if p.state == 9 then Report(p, Complete)
    else p
  }

  /** The input stream calls back with what is available, or fails. The second part of the
      result is the number of bytes taken. */
  function TargetIn(p: Peer, available: Option<Bytes>): (Peer, nat)
    requires TargetSane(p)
  {
    var q := p.(waitIn := false);
    if p.state < 10 && p.ilen > 0 then
      if available.None? then (Finish(q), 0)
      else
        var (r, k, message) := Gather(q, available.value);
        (if message.Some? then TargetMessage(r, message.value) else r, k)
    else if p.state == 11 then
      if available.None? then (Finish(q), 0) else (ReceiveBlock(q, available.value), |available.value|)
    else
      (Closing(q), 0)
  }

  /** The output stream calls back; a write may fail. */
  function TargetOut(p: Peer, address: Bytes, ok: bool): Peer {
    var q := p.(waitOut := false);
    if p.state == 0 then
      if ok then Expect(Write(q.(state := 1), GREETING), 2) else Finish(q.(state := 1))
    else if p.state == 2 then
      if ok then Expect(Write(q.(state := 3), Request(address)), 5) else Finish(q.(state := 3))
    else if p.state == 10 then SendBlock(q, ok)
    else Closing(q)
  }

  // ----- the initiator ---------------------------------------------------------------------

  /** A connection has been accepted: the greeting comes first. */
  function Accept(p: Peer): Peer {
    Expect(p.(data := [], out := [], closed := false, state := 0), 2)
  }

  function InitiatorMessage(p: Peer, address: Bytes, data: Bytes): Peer
    requires InitiatorSane(p) && |data| == p.ilen
  {
    if p.state == 0 then
      if data[0] != 5 then Finish(p) else Expect(p.(state := 1), data[1])
    else if p.state == 1 then
      p.(state := if 0 in data then 1 else 13, waitOut := true)
    else if p.state == 2 then
      if data[0] != 5 || data[1] != 1 || data[3] != 3 || data[4] != 0x28 then Finish(p)
      else Expect(p.(state := 3), 42)
    else if p.state == 3 then
      if data[40] != 0 || data[41] != 0 || data[..40] != address then Finish(p)
      else p.(state := 4, waitOut := true)
    else
      Hangup(p)
  }

  /** The callbacks that follow a close; a failed initiator gives up. */
  function Hangup(p: Peer): Peer {
    if p.state == 6 || p.state == 8 then p.(state := p.state + 1)
    else if p.state == 7 then Report(p, Failure)
    else if p.state == 9 then Report(p, Complete)
    else p
  }

  function InitiatorIn(p: Peer, address: Bytes, available: Option<Bytes>): (Peer, nat)
    requires InitiatorSane(p)
  {
    var q := p.(waitIn := false);
    if p.state < 10 && p.ilen > 0 then
      if available.None? then (Finish(q), 0)
      else
        var (r, k, message) := Gather(q, available.value);
        (if message.Some? then InitiatorMessage(r, address, message.value) else r, k)
    else if p.state == 1 then
      (q.(state := 13, waitOut := true), 0)
    else if p.state == 11 then
      if available.None? then (Finish(q), 0) else (ReceiveBlock(q, available.value), |available.value|)
    else
      (Hangup(q), 0)
  }

  function InitiatorOut(p: Peer, address: Bytes, ok: bool): Peer {
    var q := p.(waitOut := false);
    if p.state == 1 then
      if ok then Expect(Write(q.(state := 2), METHOD), 5) else Finish(q.(state := 2))
    else if p.state == 13 then
      Finish(if ok then Write(q.(state := 1), REFUSAL) else q.(state := 1))
    else if p.state == 4 then
      if ok then Report(Write(q.(state := 5), Reply(address)), Ready) else Finish(q.(state := 5))
    else if p.state == 10 then SendBlock(q, ok)
    else Hangup(q)
  }
}
