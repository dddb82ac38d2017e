// The Telnet receiver of RFC 854 and RFC 855, and the sender that escapes
// IAC. The receiver scans in bulk; it is proved to refine an automaton that
// takes one byte at a time, however the stream is cut into chunks.
module Telnet {
  import opened Bytes
  import opened Wrappers
  import Connections

  const SE: byte := 0xF0
  const SB: byte := 0xFA
  const WILL: byte := 0xFB
  const WONT: byte := 0xFC
  const DO: byte := 0xFD
  const DONT: byte := 0xFE
  const IAC: byte := 0xFF

  predicate IsOption(b: byte) {
    b == WILL || b == WONT || b == DO || b == DONT
  }

  /** What the receiver does, in order. */
  datatype Event =
    | Device(b: byte)                        // a byte for the serial port
    | Command(option: byte, value: byte)     // an option negotiation
    | Subnegotiation(frame: seq<byte>)
    | StraySe                                // SE with no frame open
    | Unexpected(b: byte)                    // an IAC command not handled

  datatype Receiver = Receiver(iac: bool, state: Option<byte>, frame: Option<seq<byte>>) {
    /** A frame is live while SB is set, and an IAC is pending nowhere else. */
    predicate Consistent() {
      && (state.Some? ==> IsOption(state.value) || state.value == SB)
      && (state == Some(SB) ==> frame.Some?)
      && (iac ==> state.None? || state == Some(SB))
    }
  }

  const REST := Receiver(false, None, None)

  datatype Progress = Progress(rcv: Receiver, log: seq<Event>)

  // ---- the automaton: one byte at a time

  /** A data byte, or a doubled IAC: to the device, or into the open frame. */
  function Literal(r: Receiver, b: byte, canWrite: bool): Progress
    requires r.Consistent()
  {
    if r.state.None? then Progress(r, if canWrite then [Device(b)] else [])
    else if r.state == Some(SB) then Progress(r.(frame := Some(r.frame.value + [b])), [])
    else Progress(r, [])
  }

  function Feed(r: Receiver, b: byte, canWrite: bool): (p: Progress)
    requires r.Consistent()
    ensures p.rcv.Consistent()
  {
    if r.iac then
      var r' := r.(iac := false);
      if IsOption(b) then Progress(r'.(state := Some(b)), [])
      else if b == SB then Progress(r'.(state := Some(SB), frame := Some([])), [])
      else if b == SE then
        Progress(r'.(state := None, frame := None),
                 [if r.frame.Some? then Subnegotiation(r.frame.value) else StraySe])
      else if b == IAC then Literal(r', b, canWrite)
      else Progress(r', [Unexpected(b)])
    else if r.state.Some? && IsOption(r.state.value) then
      Progress(r.(state := None), [Command(r.state.value, b)])
    else if b == IAC then Progress(r.(iac := true), [])
    else Literal(r, b, canWrite)
  }

  function Run(r: Receiver, bytes: seq<byte>, canWrite: bool): (p: Progress)
    requires r.Consistent()
    ensures p.rcv.Consistent()
    decreases |bytes|
  {
    if bytes == [] then Progress(r, [])
    else
      var one := Feed(r, bytes[0], canWrite);
      var rest := Run(one.rcv, bytes[1..], canWrite);
      Progress(rest.rcv, one.log + rest.log)
  }

  lemma {:induction false} RunConcat(r: Receiver, a: seq<byte>, b: seq<byte>, canWrite: bool)
    requires r.Consistent()
    ensures var first := Run(r, a, canWrite);
            var second := Run(first.rcv, b, canWrite);
            Run(r, a + b, canWrite) == Progress(second.rcv, first.log + second.log)
    decreases |a|
  {
    if a == [] {
      assert a + b == b;
      assert [] + Run(r, b, canWrite).log == Run(r, b, canWrite).log;
    } else {
      var one := Feed(r, a[0], canWrite);
      assert (a + b)[1..] == a[1..] + b;
      RunConcat(one.rcv, a[1..], b, canWrite);
      var mid := Run(one.rcv, a[1..], canWrite);
      var end := Run(mid.rcv, b, canWrite);
      assert one.log + (mid.log + end.log) == (one.log + mid.log) + end.log;
    }
  }

  lemma RunOne(r: Receiver, one: seq<byte>, canWrite: bool)
    requires r.Consistent() && |one| == 1
    ensures Run(r, one, canWrite) == Feed(r, one[0], canWrite)
  {
    assert Run(Feed(r, one[0], canWrite).rcv, one[1..], canWrite).log == [];
  }

  lemma RunPair(r: Receiver, a: byte, b: byte, canWrite: bool)
    requires r.Consistent()
    ensures var first := Feed(r, a, canWrite);
            var second := Feed(first.rcv, b, canWrite);
            Run(r, [a, b], canWrite) == Progress(second.rcv, first.log + second.log)
  {
    assert [a, b][1..] == [b];
    RunOne(Feed(r, a, canWrite).rcv, [b], canWrite);
  }

  /** A history, and then more bytes. */
  function After(s: Progress, bytes: seq<byte>, canWrite: bool): (p: Progress)
    requires s.rcv.Consistent()
    ensures p.rcv.Consistent()
  {
    var p := Run(s.rcv, bytes, canWrite);
    Progress(p.rcv, s.log + p.log)
  }

  lemma AfterConcat(s: Progress, a: seq<byte>, b: seq<byte>, canWrite: bool)
    requires s.rcv.Consistent()
    ensures After(s, a + b, canWrite) == After(After(s, a, canWrite), b, canWrite)
  {
    RunConcat(s.rcv, a, b, canWrite);
  }

  // ---- any split into chunks

  function RunChunks(r: Receiver, chunks: seq<seq<byte>>, canWrite: bool): (p: Progress)
    requires r.Consistent()
    ensures p.rcv.Consistent()
    decreases |chunks|
  {
    if chunks == [] then Progress(r, [])
    else
      var one := Run(r, chunks[0], canWrite);
      var rest := RunChunks(one.rcv, chunks[1..], canWrite);
      Progress(rest.rcv, one.log + rest.log)
  }

  /** Where the stream is cut changes nothing: not the state, not the log. */
  lemma {:induction false} ChunkingInvisible(r: Receiver, chunks: seq<seq<byte>>, canWrite: bool)
    requires r.Consistent()
    ensures RunChunks(r, chunks, canWrite) == Run(r, Concat(chunks), canWrite)
    decreases |chunks|
  {
    if chunks != [] {
      var one := Run(r, chunks[0], canWrite);
      ChunkingInvisible(one.rcv, chunks[1..], canWrite);
      RunConcat(r, chunks[0], Concat(chunks[1..]), canWrite);
    }
  }

  // ---- bulk segments

  function Devices(data: seq<byte>, canWrite: bool): (log: seq<Event>)
    ensures |log| == if canWrite then |data| else 0
    ensures forall i | 0 <= i < |log| :: log[i] == Device(data[i])
  {
    if canWrite then seq(|data|, i requires 0 <= i < |data| => Device(data[i])) else []
  }

  /** What handing over a whole segment does in one go. */
  function Segment(r: Receiver, data: seq<byte>, canWrite: bool): Progress
    requires r.Consistent()
  {
    if r.state.None? then Progress(r, Devices(data, canWrite))
    else if r.state == Some(SB) then Progress(r.(frame := Some(r.frame.value + data)), [])
    else Progress(r, [])
  }

  lemma {:induction false} SegmentIsRun(r: Receiver, data: seq<byte>, canWrite: bool)
    requires r.Consistent() && !r.iac && (r.state.None? || r.state == Some(SB))
    requires IAC !in data
    ensures Run(r, data, canWrite) == Segment(r, data, canWrite)
    decreases |data|
  {
    if data == [] {
      if r.state == Some(SB) {
        assert r.frame.value + [] == r.frame.value;
      }
    } else {
      var one := Feed(r, data[0], canWrite);
      SegmentIsRun(one.rcv, data[1..], canWrite);
      if r.state == Some(SB) {
        assert r.frame.value + data == (r.frame.value + [data[0]]) + data[1..];
      } else {
        DevicesHead(data, canWrite);
      }
    }
  }

  lemma DevicesHead(data: seq<byte>, canWrite: bool)
    requires data != []
    ensures Devices(data, canWrite) == (if canWrite then [Device(data[0])] else []) + Devices(data[1..], canWrite)
  {
  }

  lemma SegmentEmpty(r: Receiver, canWrite: bool)
    requires r.Consistent()
    ensures Segment(r, [], canWrite) == Progress(r, [])
  {
    if r.state == Some(SB) {
      assert r.frame.value + [] == r.frame.value;
    }
  }

  /** Handing over the segment before an IAC, and noting the IAC, is a run. */
  lemma ScanSplit(s: Progress, data: seq<byte>, index: nat, canWrite: bool)
    requires s.rcv.Consistent() && !s.rcv.iac && (s.rcv.state.None? || s.rcv.state == Some(SB))
    requires index < |data| && data[index] == IAC && IAC !in data[..index]
    ensures var p := Segment(s.rcv, data[..index], canWrite);
            After(Progress(p.rcv.(iac := true), s.log + p.log), data[index + 1..], canWrite) == After(s, data, canWrite)
  {
    var head, tail := data[..index], [IAC];
    var mid := After(s, head, canWrite);
    SegmentIsRun(s.rcv, head, canWrite);
    RunOne(mid.rcv, tail, canWrite);
    assert mid.log + [] == mid.log;
    AfterConcat(s, head, tail, canWrite);
    AfterConcat(s, head + tail, data[index + 1..], canWrite);
    SplitAt(data, index);
  }

  // ---- what escaping buys

  lemma SegmentConcat(r: Receiver, a: seq<byte>, b: seq<byte>, canWrite: bool)
    requires r.Consistent() && (r.state.None? || r.state == Some(SB))
    ensures var first := Segment(r, a, canWrite);
            var second := Segment(first.rcv, b, canWrite);
            Segment(r, a + b, canWrite) == Progress(second.rcv, first.log + second.log)
  {
    if r.state == Some(SB) {
      assert r.frame.value + (a + b) == (r.frame.value + a) + b;
    } else {
      assert Devices(a + b, canWrite) == Devices(a, canWrite) + Devices(b, canWrite);
    }
  }

  lemma EscapedByte(r: Receiver, b: byte, canWrite: bool)
    requires r.Consistent() && !r.iac && (r.state.None? || r.state == Some(SB))
    ensures Run(r, if b == IAC then [IAC, IAC] else [b], canWrite) == Segment(r, [b], canWrite)
  {
    if b == IAC {
      RunPair(r, IAC, IAC, canWrite);
      assert Devices([b], canWrite) == if canWrite then [Device(IAC)] else [];
    } else {
      SegmentIsRun(r, [b], canWrite);
    }
  }

  /**
   * From rest, or inside a subnegotiation, an escaped stream is pure data:
   * it comes out as it went in and the receiver ends where it began.
   */
  lemma {:induction false} EscapedIsData(r: Receiver, data: seq<byte>, canWrite: bool)
    requires r.Consistent() && !r.iac && (r.state.None? || r.state == Some(SB))
    ensures Run(r, Doubled(data), canWrite) == Segment(r, data, canWrite)
    decreases |data|
  {
    if data == [] {
      SegmentEmpty(r, canWrite);
    } else {
      var head := if data[0] == IAC then [IAC, IAC] else [data[0]];
      var one := Segment(r, [data[0]], canWrite);
      EscapedByte(r, data[0], canWrite);
      EscapedIsData(one.rcv, data[1..], canWrite);
      RunConcat(r, head, Doubled(data[1..]), canWrite);
      SegmentConcat(r, [data[0]], data[1..], canWrite);
      assert data == [data[0]] + data[1..];
    }
  }

  /**
   * What follows an IAC, byte by byte as RFC 854 assigns them: the four
   * negotiations take a value, FA opens a frame and F0 ends it, FF is itself,
   * and every other command is passed over, in a frame or out of it.
   */
  lemma AfterIac(r: Receiver, b: byte, value: byte, canWrite: bool)
    requires r.Consistent() && !r.iac && (r.state.None? || r.state == Some(0xFA))
    ensures Feed(r, 0xFF, canWrite) == Progress(r.(iac := true), [])
    ensures 0xFB <= b <= 0xFE ==>
              Run(r, [0xFF, b, value], canWrite) == Progress(r.(state := None), [Command(b, value)])
    ensures Run(r, [0xFF, 0xFA], canWrite) == Progress(Receiver(false, Some(0xFA), Some([])), [])
    ensures Run(r, [0xFF, 0xF0], canWrite) ==
            Progress(Receiver(false, None, None), [if r.frame.Some? then Subnegotiation(r.frame.value) else StraySe])
    ensures Run(r, [0xFF, 0xFF], canWrite) ==
            if r.state.None? then Progress(r, if canWrite then [Device(0xFF)] else [])
            else Progress(r.(frame := Some(r.frame.value + [0xFF])), [])
    ensures b < 0xF0 || 0xF1 <= b <= 0xF9 ==> Run(r, [0xFF, b], canWrite) == Progress(r, [Unexpected(b)])
  {
    AfterIacPair(r, b, canWrite);
    AfterIacPair(r, 0xFA, canWrite);
    AfterIacPair(r, 0xF0, canWrite);
    AfterIacPair(r, 0xFF, canWrite);
    if 0xFB <= b <= 0xFE {
      RunConcat(r, [0xFF, b], [value], canWrite);
      RunOne(r.(state := Some(b)), [value], canWrite);
      assert [0xFF, b] + [value] == [0xFF, b, value];
      assert Run(r, [0xFF, b], canWrite) == Progress(r.(state := Some(b)), []);
    }
  }

  lemma AfterIacPair(r: Receiver, b: byte, canWrite: bool)
    requires r.Consistent() && !r.iac && (r.state.None? || r.state == Some(SB))
    ensures Run(r, [IAC, b], canWrite) == Feed(r.(iac := true), b, canWrite)
  {
    RunPair(r, IAC, b, canWrite);
    var log := Feed(r.(iac := true), b, canWrite).log;
    assert [] + log == log;
  }

  // ---- the grammar of a well-formed stream

  datatype Item =
    | Text(data: seq<byte>)
    | Negotiate(option: byte, value: byte)
    | Frame(payload: seq<byte>)

  predicate WellFormed(items: seq<Item>) {
    forall i | 0 <= i < |items| :: items[i].Negotiate? ==> IsOption(items[i].option)
  }

  /** How RFC 854 and RFC 855 put one item on the wire. */
  function Encode(item: Item): seq<byte> {
    match item
    case Text(data) => Doubled(data)
    case Negotiate(option, value) => [IAC, option, value]
    case Frame(payload) => [IAC, SB] + Doubled(payload) + [IAC, SE]
  }

  function Wire(items: seq<Item>): seq<byte> {
    if items == [] then [] else Encode(items[0]) + Wire(items[1..])
  }

  function Meaning(item: Item, canWrite: bool): seq<Event> {
    match item
    case Text(data) => Devices(data, canWrite)
    case Negotiate(option, value) => [Command(option, value)]
    case Frame(payload) => [Subnegotiation(payload)]
  }

  function Meanings(items: seq<Item>, canWrite: bool): seq<Event> {
    if items == [] then [] else Meaning(items[0], canWrite) + Meanings(items[1..], canWrite)
  }

  lemma ItemRoundTrip(item: Item, canWrite: bool)
    requires WellFormed([item])
    ensures Run(REST, Encode(item), canWrite) == Progress(REST, Meaning(item, canWrite))
  {
    match item
    case Text(data) =>
      EscapedIsData(REST, data, canWrite);
    case Negotiate(option, value) =>
      assert [item][0].option == option;
      assert [IAC, option, value] == [IAC, option] + [value];
      RunConcat(REST, [IAC, option], [value], canWrite);
      RunPair(REST, IAC, option, canWrite);
      RunOne(Receiver(false, Some(option), None), [value], canWrite);
    case Frame(payload) =>
      var open := Receiver(false, Some(SB), Some([]));
      var full := Receiver(false, Some(SB), Some(payload));
      RunPair(REST, IAC, SB, canWrite);
      EscapedIsData(open, payload, canWrite);
      assert [] + payload == payload;
      RunPair(full, IAC, SE, canWrite);
      RunConcat(REST, [IAC, SB], Doubled(payload), canWrite);
      RunConcat(REST, [IAC, SB] + Doubled(payload), [IAC, SE], canWrite);
  }

  /**
   * Every well-formed stream of text, option negotiations and
   * subnegotiations is received as exactly that, however it is cut up.
   */
  lemma {:induction false} StreamRoundTrip(items: seq<Item>, chunks: seq<seq<byte>>, canWrite: bool)
    requires WellFormed(items) && Concat(chunks) == Wire(items)
    ensures RunChunks(REST, chunks, canWrite) == Progress(REST, Meanings(items, canWrite))
  {
    ChunkingInvisible(REST, chunks, canWrite);
    WireRoundTrip(items, canWrite);
  }

  lemma {:induction false} WireRoundTrip(items: seq<Item>, canWrite: bool)
    requires WellFormed(items)
    ensures Run(REST, Wire(items), canWrite) == Progress(REST, Meanings(items, canWrite))
  {
    if items != [] {
      assert [items[0]][0] == items[0];
      ItemRoundTrip(items[0], canWrite);
      WireRoundTrip(items[1..], canWrite);
      RunConcat(REST, Encode(items[0]), Wire(items[1..]), canWrite);
    }
  }

  // ---- the opening negotiation

  const NEGOTIATION: seq<Item> := [Negotiate(DO, 0x22), Negotiate(WILL, 0x01)]

  /** What a Telnet connection has queued before anything else is sent. */
  const GREETING: seq<byte> := Doubled([IAC, DO, 0x22]) + Doubled([IAC, WILL, 0x01])

  lemma EscapedOption(option: byte, value: byte)
    requires option != 0xFF && value != 0xFF
    ensures Doubled([0xFF, option, value]) == [0xFF, 0xFF, option, value]
  {
    assert [0xFF, option, value][1..] == [option, value] && [option, value][1..] == [value] && [value][1..] == [];
    assert Doubled([value]) == [value];
    assert Doubled([option, value]) == [option] + [value];
  }

  /**
   * The opening negotiation goes through the escaping sender, so a receiver
   * of this protocol reads it as six data bytes. Sent as the wire form of
   * its items it would have been two option commands.
   */
  lemma NegotiationArrivesAsData()
    ensures Run(REST, GREETING, true) == Progress(REST, Devices(Wire(NEGOTIATION), true))
    ensures Wire(NEGOTIATION) == [0xFF, 0xFD, 0x22, 0xFF, 0xFB, 0x01]
    ensures GREETING == [0xFF, 0xFF, 0xFD, 0x22, 0xFF, 0xFF, 0xFB, 0x01]
    ensures Run(REST, Wire(NEGOTIATION), true) == Progress(REST, [Command(DO, 0x22), Command(WILL, 0x01)])
  {
    DoubledConcat([IAC, DO, 0x22], [IAC, WILL, 0x01]);
    var tail := NEGOTIATION[1..];
    assert tail == [Negotiate(WILL, 0x01)] && tail[1..] == [];
    assert Wire(tail) == [IAC, WILL, 0x01] + [];
    assert Wire(NEGOTIATION) == [IAC, DO, 0x22] + [IAC, WILL, 0x01];
    EscapedOption(0xFD, 0x22);
    EscapedOption(0xFB, 0x01);
    EscapedIsData(REST, Wire(NEGOTIATION), true);
    WireRoundTrip(NEGOTIATION, true);
    assert Meanings(tail, true) == [Command(WILL, 0x01)] + [];
  }

  // ---- the connection

  class ConnectionTelnet {
    const base: Connections.Connection
    var iac: bool
    var state: Option<byte>
    var frame: Option<seq<byte>>
    ghost var log: seq<Event>     // everything received from the client so far

    function State(): Receiver
      reads this
    {
      Receiver(iac, state, frame)
    }

    /** The history as the automaton sees it. */
    ghost function Received(): Progress
      reads this
    {
      Progress(State(), log)
    }

    constructor (base: Connections.Connection, now: int)
      requires base.Valid() && base.socket.Some? && base.selector == null && base.accepted == []
      modifies base
      ensures this.base == base && base.Valid()
      ensures State() == REST && log == []
      ensures base.socket.Some? ==> base.accepted == GREETING
      ensures base.Limited(|GREETING|) ==> base.socket.Some?
    {
      this.base := base;
      iac, state, frame, log := false, None, None, [];
      new;
      var _ := Send([IAC, DO, 0x22], now);
      var _ := Send([IAC, WILL, 0x01], now);
    }

    method Send(data: seq<byte>, now: int) returns (r: Option<nat>)
      requires base.Valid()
      modifies base, base.selector
      ensures base.Valid() && base.wire == old(base.wire)
      ensures r.Some? <==> old(base.socket).Some? && base.Limited(|old(base.outBuffer)| + |Doubled(data)|)
      ensures r.Some? ==>
                && base.accepted == old(base.accepted) + Doubled(data)
                && base.outBuffer == old(base.outBuffer) + Doubled(data)
                && base.socket == old(base.socket)
      ensures r.None? ==> base.IsClosed() && base.accepted == old(base.accepted)
      ensures base.selector == old(base.selector)
    {
      r := base.Send(Doubled(data), now);
    }

    method SendData(data: seq<byte>)
      requires State().Consistent()
      modifies this
      ensures var p := Segment(old(State()), data, base.canWrite);
              Received() == Progress(p.rcv, old(log) + p.log)
    {
      if state.None? {
        if data != [] && base.canWrite {
          log := log + Devices(data, true);
        }
      } else if state == Some(SB) {
        frame := Some(frame.value + data);
      }
    }

    method ProcessIac(b: byte)
      requires State().Consistent() && !iac && (state.None? || state == Some(SB))
      modifies this
      ensures var p := Feed(old(State()).(iac := true), b, base.canWrite);
              Received() == Progress(p.rcv, old(log) + p.log)
    {
      if IsOption(b) {
        state := Some(b);
      } else if b == SB {
        state := Some(SB);
        frame := Some([]);
      } else if b == SE {
        if frame.Some? {
          log := log + [Subnegotiation(frame.value)];
          frame := None;
        } else {
          log := log + [StraySe];
        }
        state := None;
      } else if b == IAC {
        SendData([b]);
      } else {
        log := log + [Unexpected(b)];
      }
    }

    /** Up to and including the next IAC, which becomes pending. */
    method ScanToIac(data: seq<byte>) returns (rest: seq<byte>)
      requires State().Consistent() && !iac && (state.None? || state == Some(SB))
      requires IAC in data
      modifies this
      ensures State().Consistent() && |rest| < |data|
      ensures After(Received(), rest, base.canWrite) == After(old(Received()), data, base.canWrite)
    {
      ghost var before := Received();
      var index := IndexOf(data, IAC);
      if index > 0 {
        SendData(data[..index]);
      } else {
        SegmentEmpty(before.rcv, base.canWrite);
      }
      iac := true;
      rest := data[index + 1..];
      ScanSplit(before, data, index, base.canWrite);
    }

    /** One chunk from the client, scanned in bulk. */
    method OnReceived(chunk: seq<byte>)
      requires State().Consistent()
      modifies this
      ensures State().Consistent()
      ensures Received() == After(old(Received()), chunk, base.canWrite)
    {
      var data := chunk;
      while data != []
        invariant State().Consistent()
        invariant After(Received(), data, base.canWrite) == After(old(Received()), chunk, base.canWrite)
        decreases |data|
      {
        ghost var before := Received();
        if iac {
          iac := false;
          ProcessIac(data[0]);
          RunOne(before.rcv, data[..1], base.canWrite);
        } else if state.Some? && IsOption(state.value) {
          log := log + [Command(state.value, data[0])];
          state := None;
          RunOne(before.rcv, data[..1], base.canWrite);
        } else if IAC in data {
          data := ScanToIac(data);
          continue;
        } else {
          SendData(data);
          SegmentIsRun(before.rcv, data, base.canWrite);
          break;
        }
        AfterConcat(before, data[..1], data[1..], base.canWrite);
        assert data == data[..1] + data[1..];
        data := data[1..];
      }
    }
  }
}
