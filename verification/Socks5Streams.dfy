/**
 The bytestream objects: callbacks of the input and the output stream that switch on the
 state. Whatever the other side does, as long as a callback comes only when it was asked
 for, an object stays able to take the next one and never reports both readiness and
 failure.
 */
module Socks5Streams {

  import opened Options
  import opened Socks5Peers
  import opened Socks5Outcomes

  class SOCKSBytestreamTarget {
    const addresses: seq<string>
    const socksAddr: Bytes
    var state: nat
    var ilen: nat
    var data: Bytes
    var waitIn: bool
    var waitOut: bool
    var closed: bool
    var currentAddr: nat
    var dialled: seq<string>
    var out: Bytes
    var file: Bytes
    var received: Bytes
    var calls: seq<Call>

    constructor (addresses: seq<string>, socksAddr: Bytes)
      ensures this.addresses == addresses && this.socksAddr == socksAddr
      ensures Value() == Connect(Peer(0, 0, [], false, false, false, addresses, 0, [], [], [], [], []))
      ensures addresses != [] ==> Valid()
    {
      this.addresses, this.socksAddr := addresses, socksAddr;
      state, ilen, data, waitIn, waitOut, closed, currentAddr := 0, 0, [], false, false, false, 0;
      dialled, out, file, received, calls := [], [], [], [], [];
      new;
      Dial();
      if addresses != [] {
        FreshTarget(addresses);
      }
    }

    /** The account of what was reported, which bounds what can be. */
    ghost predicate Valid()
      reads this
    {
      OutcomeInv(Value())
    }

    ghost function Value(): (p: Peer)
      reads this
    {
      Peer(state, ilen, data, waitIn, waitOut, closed, addresses, currentAddr, dialled, out, file, received, calls)
    }

    method Dial()
      modifies this
      ensures Value() == Connect(old(Value()))
    {
      if |addresses| <= currentAddr {
        calls := calls + [Failure];
        return;
      }
      dialled := dialled + [addresses[currentAddr]];
      currentAddr := currentAddr + 1;
      data, out, closed := [], [], false;
      waitIn, waitOut := false, true;
      state := 0;
    }

    method Close()
      modifies this
      ensures Value() == Finish(old(Value()))
    {
      if state == 12 {
        return;
      }
      ilen := 0;
      state := if state > 9 then 8 else 6;
      closed, waitIn, waitOut := true, true, true;
    }

    method GiveUp()
      requires Valid()
      modifies this
      ensures Valid() && OneOutcome(calls)
      ensures Value() == Abort(old(Value()))
    {
      TargetKeepsOutcome(Trace(Value(), []), socksAddr, Event.GiveUp);
      assert OneOutcome(calls);
      hide OneOutcome, OutcomeInv;
      ilen := 0;
      state := 12;
      closed, waitIn, waitOut := true, true, true;
    }

    method Send(f: Bytes)
      requires Valid() && state == 5
      modifies this
      ensures Valid() && OneOutcome(calls)
      ensures Value() == SendFile(old(Value()), f)
    {
      TargetKeepsOutcome(Trace(Value(), []), socksAddr, StartSending(f));
      file := f;
      state := 10;
      waitOut := true;
    }

    method Receive()
      requires Valid() && state == 5
      modifies this
      ensures Valid() && OneOutcome(calls)
      ensures Value() == RecvFile(old(Value()))
    {
      TargetKeepsOutcome(Trace(Value(), []), socksAddr, StartReceiving);
      received := [];
      state := 11;
      waitIn := true;
    }

    /** Takes what is missing of a message from what is available. */
    method ReadMessage(available: Bytes) returns (taken: nat, message: Option<Bytes>)
      requires Sane(Value()) && state < 10 && ilen > 0
      modifies this
      ensures (Value(), taken, message) == Gather(old(Value()), available)
    {
      var missing := ilen - |data|;
      taken := if |available| > missing then missing else |available|;
      data := data + available[..taken];
      if missing > taken {
        waitIn := true;
        message := None;
      } else {
        message := Some(data);
        data := [];
      }
    }

    method OnMessage(message: Bytes)
      requires TargetSane(Value()) && |message| == ilen
      modifies this
      ensures Value() == TargetMessage(old(Value()), message)
    {
      match state {
        case 1 =>
          if message[0] != 5 || message[1] != 0 {
            Close();
          } else {
            state := 2;
            waitOut := true;
          }
        case 3 =>
          if message[0] != 5 || message[1] != 0 {
            Close();
          } else {
            if message[3] == 1 {
              ilen := 5;
            } else if message[3] == 3 {
              ilen := message[4] as nat + 2;
            } else if message[3] == 4 {
              ilen := 17;
            } else {
              Close();
              return;
            }
            state := 4;
            waitIn := true;
          }
        case 4 =>
          state := 5;
          ilen := 0;
          calls := calls + [Ready];
        case _ =>
          OnClosed();
      }
    }

    method OnClosed()
      modifies this
      ensures Value() == Closing(old(Value()))
    {
      match state {
        case 6 =>
          state := 7;
        case 8 =>
          state := 9;
        case 7 =>
          Dial();
        case 9 =>
          calls := calls + [Complete];
        case _ =>
      }
    }

    /** The input stream calls back, because it was asked to. */
    method OnInputStreamReady(available: Option<Bytes>) returns (taken: nat)
      requires Valid() && waitIn
      modifies this
      ensures Valid() && OneOutcome(calls)
      ensures (Value(), taken) == TargetIn(old(Value()), available)
    {
      TargetInKeepsOutcome(Value(), available);
      hide TargetIn, OneOutcome, Times;
      taken := TakeInput(available);
    }

    method TakeInput(available: Option<Bytes>) returns (taken: nat)
      requires TargetSane(Value())
      modifies this
      ensures (Value(), taken) == TargetIn(old(Value()), available)
    {
      waitIn := false;
      taken := 0;
      if state < 10 && ilen > 0 {
        if available.None? {
          Close();
          return;
        }
        var message;
        taken, message := ReadMessage(available.value);
        if message.Some? {
          OnMessage(message.value);
        }
      } else if state == 11 {
        if available.None? {
          Close();
          return;
        }
        taken := |available.value|;
        received := received + available.value;
        waitIn := true;
        calls := calls + [Progress(taken)];
      } else {
        OnClosed();
      }
    }

    /** The output stream calls back, because it was asked to. */
    method OnOutputStreamReady(ok: bool)
      requires Valid() && waitOut
      modifies this
      ensures Valid() && OneOutcome(calls)
      ensures Value() == TargetOut(old(Value()), socksAddr, ok)
    {
      TargetOutKeepsOutcome(Value(), socksAddr, ok);
      hide TargetOut, OneOutcome, Times;
      TakeOutput(ok);
    }

    /** One block of the file, or the end of it. */
    method WriteBlock(ok: bool)
      modifies this
      ensures Value() == SendBlock(old(Value()), ok)
    {
      var n := if |file| < CHUNK then |file| else CHUNK;
      var block := file[..n];
      file := file[n..];
      if n == 0 || !ok {
        Close();
        return;
      }
      out := out + block;
      waitOut := true;
      calls := calls + [Progress(n)];
    }

    method TakeOutput(ok: bool)
      modifies this
      ensures Value() == TargetOut(old(Value()), socksAddr, ok)
    {
      hide SendBlock;
      waitOut := false;
      match state {
        case 0 =>
          state := 1;
          if !ok {
            Close();
            return;
          }
          out := out + [5, 1, 0];
          ilen, waitIn := 2, true;
        case 2 =>
          state := 3;
          if !ok {
            Close();
            return;
          }
          out := out + ([5, 1, 0, 3, 0x28] + socksAddr + [0, 0]);
          ilen, waitIn := 5, true;
        case 10 =>
          WriteBlock(ok);
        case _ =>
          OnClosed();
      }
    }
  }

  class SOCKSBytestreamInitiator {
    const socksAddr: Bytes
    /** Still listening; a connection has been accepted. */
    var listening: bool
    var connected: bool
    var state: nat
    var ilen: nat
    var data: Bytes
    var waitIn: bool
    var waitOut: bool
    var closed: bool
    var out: Bytes
    var file: Bytes
    var received: Bytes
    var calls: seq<Call>

    constructor (socksAddr: Bytes)
      ensures this.socksAddr == socksAddr
      ensures Value() == Peer(0, 0, [], false, false, false, [], 0, [], [], [], [], [])
      ensures Valid() && listening && !connected
    {
      this.socksAddr := socksAddr;
      listening, connected := true, false;
      state, ilen, data, waitIn, waitOut, closed := 0, 0, [], false, false, false;
      out, file, received, calls := [], [], [], [];
    }

    ghost function Value(): (p: Peer)
      reads this
    {
      Peer(state, ilen, data, waitIn, waitOut, closed, [], 0, [], out, file, received, calls)
    }

    /** Once connected, the account of what was reported; before that, nothing was. */
    ghost predicate Valid()
      reads this
    {
      if connected then InitiatorOutcome(Value()) else calls == [] && !waitIn && !waitOut
    }

    /** The first connection is taken and starts with the greeting; a second one, which may
        still come in, is closed at once. */
    method OnSocketAccepted() returns (refused: bool)
      requires Valid()
      modifies this
      ensures Valid() && connected && !listening && refused == old(connected)
      ensures Value() == if refused then old(Value()) else Accept(old(Value()))
    {
      listening := false;
      if connected {
        return true;
      }
      FreshInitiator(Value(), socksAddr);
      hide InitiatorOutcome, InitiatorHeard;
      connected := true;
      Start();
      refused := false;
    }

    method Start()
      modifies this
      ensures listening == old(listening) && connected == old(connected)
      ensures Value() == Accept(old(Value()))
    {
      data, out, closed := [], [], false;
      state := 0;
      ilen, waitIn := 2, true;
    }

    method Close()
      modifies this
      ensures connected == old(connected)
      ensures Value() == Finish(old(Value()))
    {
      if state == 12 {
        return;
      }
      ilen := 0;
      state := if state > 9 then 8 else 6;
      closed, waitIn, waitOut := true, true, true;
    }

    method Drop()
      modifies this
      ensures listening == old(listening) && connected == old(connected)
      ensures Value() == Abort(old(Value()))
    {
      ilen := 0;
      state := 12;
      closed, waitIn, waitOut := true, true, true;
    }

    /** Nothing is accepted any more, and a connection is closed. */
    method GiveUp()
      requires Valid()
      modifies this
      ensures Valid() && OneOutcome(calls) && !listening && connected == old(connected)
      ensures Value() == if connected then Abort(old(Value())) else old(Value())
    {
      listening := false;
      if connected {
        InitiatorKeepsOutcome(Trace(Value(), []), socksAddr, Event.GiveUp);
        assert OneOutcome(calls);
        hide OneOutcome, InitiatorOutcome;
        Drop();
      } else {
        NothingReported(calls);
      }
    }

    method Receive()
      requires Valid() && connected && state == 5
      modifies this
      ensures Valid() && OneOutcome(calls) && connected
      ensures Value() == RecvFile(old(Value()))
    {
      InitiatorKeepsOutcome(Trace(Value(), []), socksAddr, StartReceiving);
      received := [];
      state := 11;
      waitIn := true;
    }

    method Send(f: Bytes)
      requires Valid() && connected && state == 5
      modifies this
      ensures Valid() && OneOutcome(calls) && connected
      ensures Value() == SendFile(old(Value()), f)
    {
      InitiatorKeepsOutcome(Trace(Value(), []), socksAddr, StartSending(f));
      file := f;
      state := 10;
      waitOut := true;
    }

    /** Takes what is missing of a message from what is available. */
    method ReadMessage(available: Bytes) returns (taken: nat, message: Option<Bytes>)
      requires Sane(Value()) && state < 10 && ilen > 0
      modifies this
      ensures connected == old(connected)
      ensures (Value(), taken, message) == Gather(old(Value()), available)
    {
      var missing := ilen - |data|;
      taken := if |available| > missing then missing else |available|;
      data := data + available[..taken];
      if missing > taken {
        waitIn := true;
        message := None;
      } else {
        message := Some(data);
        data := [];
      }
    }

    method OnMessage(message: Bytes)
      requires InitiatorSane(Value()) && |message| == ilen
      modifies this
      ensures connected == old(connected)
      ensures Value() == InitiatorMessage(old(Value()), socksAddr, message)
    {
      match state {
        case 0 =>
          if message[0] != 5 {
            Close();
          } else {
            state := 1;
            ilen, waitIn := message[1], true;
          }
        case 1 =>
          OnMethods(message);
        case 2 =>
          if message[0] != 5 || message[1] != 1 || message[3] != 3 || message[4] != 0x28 {
            Close();
          } else {
            state := 3;
            ilen, waitIn := 42, true;
          }
        case 3 =>
          if message[40] != 0 || message[41] != 0 || message[..40] != socksAddr {
            Close();
          } else {
            state := 4;
            waitOut := true;
          }
        case _ =>
          OnClosed();
      }
    }

    /** Looks for method 0 among those offered. */
    method OnMethods(methods: Bytes)
      modifies this
      ensures connected == old(connected)
      ensures Value() == old(Value()).(state := if 0 in methods then 1 else 13, waitOut := true)
    {
      state := 13;
      var i := 0;
      while i < |methods|
        invariant 0 <= i <= |methods|
        invariant connected == old(connected)
        invariant Value() == old(Value()).(state := if 0 in methods[..i] then 1 else 13)
      {
        assert methods[..i + 1] == methods[..i] + [methods[i]];
        if methods[i] == 0 {
          state := 1;
        }
        i := i + 1;
      }
      assert methods[..i] == methods;
      waitOut := true;
    }

    method OnClosed()
      modifies this
      ensures connected == old(connected)
      ensures Value() == Hangup(old(Value()))
    {
      match state {
        case 6 =>
          state := 7;
        case 8 =>
          state := 9;
        case 7 =>
          calls := calls + [Failure];
        case 9 =>
          calls := calls + [Complete];
        case _ =>
      }
    }

    /** The input stream calls back, because it was asked to. */
    method OnInputStreamReady(available: Option<Bytes>) returns (taken: nat)
      requires Valid() && connected && waitIn
      modifies this
      ensures Valid() && OneOutcome(calls) && connected
      ensures (Value(), taken) == InitiatorIn(old(Value()), socksAddr, available)
    {
      InitiatorInKeepsOutcome(Value(), socksAddr, available);
      hide InitiatorIn, OneOutcome, Times;
      taken := TakeInput(available);
    }

    method TakeInput(available: Option<Bytes>) returns (taken: nat)
      requires InitiatorSane(Value())
      modifies this
      ensures connected == old(connected)
      ensures (Value(), taken) == InitiatorIn(old(Value()), socksAddr, available)
    {
      waitIn := false;
      taken := 0;
      if state < 10 && ilen > 0 {
        if available.None? {
          Close();
          return;
        }
        var message;
        taken, message := ReadMessage(available.value);
        if message.Some? {
          OnMessage(message.value);
        }
      } else if state == 1 {
        OnMethods([]);
      } else if state == 11 {
        if available.None? {
          Close();
          return;
        }
        taken := |available.value|;
        received := received + available.value;
        waitIn := true;
        calls := calls + [Progress(taken)];
      } else {
        OnClosed();
      }
    }

    /** The output stream calls back, because it was asked to. */
    method OnOutputStreamReady(ok: bool)
      requires Valid() && connected && waitOut
      modifies this
      ensures Valid() && OneOutcome(calls) && connected
      ensures Value() == InitiatorOut(old(Value()), socksAddr, ok)
    {
      InitiatorOutKeepsOutcome(Value(), socksAddr, ok);
      hide InitiatorOut, OneOutcome, Times;
      TakeOutput(ok);
    }

    /** One block of the file, or the end of it. */
    method WriteBlock(ok: bool)
      modifies this
      ensures connected == old(connected)
      ensures Value() == SendBlock(old(Value()), ok)
    {
      var n := if |file| < CHUNK then |file| else CHUNK;
      var block := file[..n];
      file := file[n..];
      if n == 0 || !ok {
        Close();
        return;
      }
      out := out + block;
      waitOut := true;
      calls := calls + [Progress(n)];
    }

    method TakeOutput(ok: bool)
      modifies this
      ensures connected == old(connected)
      ensures Value() == InitiatorOut(old(Value()), socksAddr, ok)
    {
      hide SendBlock;
      waitOut := false;
      match state {
        case 1 =>
          state := 2;
          if !ok {
            Close();
            return;
          }
          out := out + [5, 0];
          ilen, waitIn := 5, true;
        case 13 =>
          state := 1;
          if ok {
            out := out + [5, 255];
          }
          Close();
        case 4 =>
          state := 5;
          if !ok {
            Close();
            return;
          }
          out := out + ([5, 0, 0, 3, 0x28] + socksAddr + [0, 0]);
          calls := calls + [Ready];
        case 10 =>
          WriteBlock(ok);
        case _ =>
          OnClosed();
      }
    }
  }

  lemma {:induction false} NothingReported(calls: seq<Call>)
    requires calls == []
    ensures OneOutcome(calls)
  {
  }
}
