// The signal lines, and the private escape protocol that carries them beside
// the data: FF FF is a literal, FF 8x a report, FF and another byte a command.
module Signals {
  import opened Bytes
  import opened Wrappers

  /** A line a configuration may name; anything else is not a line. */
  datatype Line = Rts | Dtr | Cts | Dsr | Ri | Cd | Unknown(name: string)

  const SIGNAL_NAMES: seq<Line> := [Rts, Dtr, Cts, Dsr, Ri, Cd]
  const REPORT_MASK: byte := 0x3F

  /** The bit a line is reported in, if it is a line at all. */
  function SignalBit(line: Line): Option<byte> {
    match line
    case Rts => Some(0x01)
    case Dtr => Some(0x02)
    case Cts => Some(0x04)
    case Dsr => Some(0x08)
    case Ri => Some(0x10)
    case Cd => Some(0x20)
    case Unknown(_) => None
  }

  /** A reading of named lines. */
  type Reading = map<Line, bool>

  /** The named lines of a bitmask; unknown names are left out. */
  function Named(bitmask: byte, names: seq<Line>): Reading {
    map name | name in names && SignalBit(name).Some? :: bitmask & SignalBit(name).value != 0
  }

  lemma NamedMore(bitmask: byte, names: seq<Line>, name: Line)
    ensures Named(bitmask, names + [name]) ==
            if SignalBit(name).Some? then Named(bitmask, names)[name := bitmask & SignalBit(name).value != 0]
            else Named(bitmask, names)
  {
  }

  method SignalsDict(bitmask: byte, names: seq<Line>) returns (signals: Reading)
    ensures signals == Named(bitmask, names)
  {
    signals := map[];
    for i := 0 to |names|
      invariant signals == Named(bitmask, names[..i])
    {
      var bit := SignalBit(names[i]);
      assert names[..i + 1] == names[..i] + [names[i]];
      NamedMore(bitmask, names[..i], names[i]);
      if bit.Some? {
        signals := signals[names[i] := bitmask & bit.value != 0];
      }
    }
    assert names[..|names|] == names;
  }

  function Keep(bitmask: byte, names: set<Line>, name: Line): byte
    requires SignalBit(name).Some?
  {
    if name in names then bitmask & SignalBit(name).value else 0
  }

  /** A bitmask with only the named lines left in it. */
  function Masked(bitmask: byte, names: set<Line>): (r: byte)
    ensures r & REPORT_MASK == r
    ensures forall name | SignalBit(name).Some? ::
              (r & SignalBit(name).value != 0) <==> (name in names && bitmask & SignalBit(name).value != 0)
  {
    Keep(bitmask, names, Rts) | Keep(bitmask, names, Dtr) | Keep(bitmask, names, Cts)
    | Keep(bitmask, names, Dsr) | Keep(bitmask, names, Ri) | Keep(bitmask, names, Cd)
  }

  /** Naming one more line adds that line's bit. */
  lemma MaskedAdd(bitmask: byte, names: set<Line>, line: Line)
    ensures Masked(bitmask, names + {line}) ==
            if SignalBit(line).Some? then Masked(bitmask, names) | (bitmask & SignalBit(line).value)
            else Masked(bitmask, names)
  {
    var more := names + {line};
    assert forall l :: l in more <==> l in names || l == line;
  }
}

module Control {
  import opened Bytes
  import opened Lists
  import opened Wrappers
  import opened Signals
  import Connections

  const CMD_RTS_LOW: byte := 0x00
  const CMD_RTS_HIGH: byte := 0x01
  const CMD_DTR_LOW: byte := 0x10
  const CMD_DTR_HIGH: byte := 0x11
  const CMD_GET_SIGNALS: byte := 0xC0
  const REPORT_BASE: byte := 0x80

  // ================ what the client is sent

  datatype Out = Data(bytes: seq<byte>) | Report(mask: byte)

  predicate SixBits(outs: seq<Out>) {
    forall i | 0 <= i < |outs| :: outs[i].Report? ==> outs[i].mask & REPORT_MASK == outs[i].mask
  }

  function Encode(out: Out): seq<byte> {
    match out
    case Data(bytes) => Doubled(bytes)
    case Report(mask) => [ESCAPE, REPORT_BASE | (mask & REPORT_MASK)]
  }

  /** A report is FF and one byte from 80 up to BF. */
  lemma ReportBytes(mask: byte)
    requires mask < 64
    ensures Encode(Report(mask)) == [0xFF, 0x80 + mask]
  {
  }

  function Wire(outs: seq<Out>): seq<byte> {
    if outs == [] then [] else Encode(outs[0]) + Wire(outs[1..])
  }

  datatype Token = Plain(b: byte) | Lines(mask: byte) | Stray(b: byte)

  function Plains(data: seq<byte>): (tokens: seq<Token>)
    ensures |tokens| == |data| && forall i | 0 <= i < |data| :: tokens[i] == Plain(data[i])
  {
    seq(|data|, i requires 0 <= i < |data| => Plain(data[i]))
  }

  function Meaning(outs: seq<Out>): seq<Token> {
    if outs == [] then []
    else (match outs[0] case Data(bytes) => Plains(bytes) case Report(mask) => [Lines(mask)]) + Meaning(outs[1..])
  }

  datatype Decoded = Decoded(escape: bool, tokens: seq<Token>)

  /** A client's decoder, one byte at a time. */
  function Decode(escape: bool, bytes: seq<byte>): Decoded
    decreases |bytes|
  {
    if bytes == [] then Decoded(escape, [])
    else
      var b := bytes[0];
      if !escape && b == ESCAPE then Decode(true, bytes[1..])
      else
        var token := if !escape || b == ESCAPE then Plain(b)
                     else if b & 0xC0 == REPORT_BASE then Lines(b & REPORT_MASK)
                     else Stray(b);
        var rest := Decode(false, bytes[1..]);
        Decoded(rest.escape, [token] + rest.tokens)
  }

  lemma {:induction false} DecodeConcat(escape: bool, a: seq<byte>, b: seq<byte>)
    ensures var first := Decode(escape, a);
            var second := Decode(first.escape, b);
            Decode(escape, a + b) == Decoded(second.escape, first.tokens + second.tokens)
    decreases |a|
  {
    if a == [] {
      assert a + b == b;
      assert [] + Decode(escape, b).tokens == Decode(escape, b).tokens;
    } else {
      assert (a + b)[1..] == a[1..] + b;
      DecodeConcat(!escape && a[0] == ESCAPE, a[1..], b);
      var rest := Decode(!escape && a[0] == ESCAPE, a[1..]);
      var end := Decode(rest.escape, b);
      assert forall token: Token :: ([token] + rest.tokens) + end.tokens == [token] + (rest.tokens + end.tokens);
    }
  }

  lemma {:induction false} DecodeDoubled(data: seq<byte>)
    ensures Decode(false, Doubled(data)) == Decoded(false, Plains(data))
  {
    if data != [] {
      var head := if data[0] == ESCAPE then [ESCAPE, ESCAPE] else [data[0]];
      if data[0] == ESCAPE {
        assert head[1..] == [ESCAPE];
        assert Decode(true, [ESCAPE]).tokens == [Plain(ESCAPE)] + [];
      } else {
        assert Decode(false, head).tokens == [Plain(data[0])] + [];
      }
      DecodeConcat(false, head, Doubled(data[1..]));
      DecodeDoubled(data[1..]);
      assert Plains(data) == [Plain(data[0])] + Plains(data[1..]);
    }
  }

  /** Every frame sent is recovered, in order, and the decoder is at rest. */
  lemma {:induction false} OutputRoundTrip(outs: seq<Out>)
    requires SixBits(outs)
    ensures Decode(false, Wire(outs)) == Decoded(false, Meaning(outs))
  {
    if outs != [] {
      var head := Encode(outs[0]);
      match outs[0] {
        case Data(bytes) =>
          DecodeDoubled(bytes);
        case Report(mask) =>
          var b := REPORT_BASE | (mask & REPORT_MASK);
          assert mask & REPORT_MASK == mask;
          assert b & 0xC0 == REPORT_BASE && b & REPORT_MASK == mask && b != ESCAPE;
          assert head[1..] == [b] && [b][1..] == [];
          assert Decode(true, [b]) == Decoded(false, [Lines(mask)] + []);
      }
      DecodeConcat(false, head, Wire(outs[1..]));
      OutputRoundTrip(outs[1..]);
    }
  }

  /** Whatever part has left so far decodes to a prefix of what was sent. */
  lemma PartialOutput(outs: seq<Out>, sent: seq<byte>)
    requires SixBits(outs) && sent <= Wire(outs)
    ensures Decode(false, sent).tokens <= Meaning(outs)
  {
    OutputRoundTrip(outs);
    var rest := Wire(outs)[|sent|..];
    assert Wire(outs) == sent + rest;
    DecodeConcat(false, sent, rest);
  }

  lemma {:induction false} WireSnoc(outs: seq<Out>, out: Out)
    ensures Wire(outs + [out]) == Wire(outs) + Encode(out)
  {
    if outs == [] {
      assert outs + [out] == [out];
      assert Wire([out]) == Encode(out) + Wire([out][1..]);
    } else {
      assert (outs + [out])[1..] == outs[1..] + [out];
      WireSnoc(outs[1..], out);
    }
  }

  lemma OneMore(outs: seq<Out>, out: Out)
    requires SixBits(outs) && SixBits([out])
    ensures Wire(outs + [out]) == Wire(outs) + Encode(out) && SixBits(outs + [out])
  {
    assert [out][0] == out;
    WireSnoc(outs, out);
  }

  // ================ what the client sends

  datatype Action = SetRts(high: bool) | SetDtr(high: bool) | GetSignals

  datatype Event = Byte(b: byte) | Act(action: Action)

  /**
   * Which of a client's wishes are granted. `accept` is asked where plain
   * data is collected, `canWrite` where it is handed to the device.
   */
  datatype Rights = Rights(accept: bool, canWrite: bool, rts: bool, dtr: bool)

  datatype Heard = Heard(escape: bool, log: seq<Event>)

  /** A command byte after an escape, gated by the configuration. */
  function CommandOf(b: byte, rights: Rights): Option<Action> {
    if b == CMD_RTS_LOW && rights.rts then Some(SetRts(false))
    else if b == CMD_RTS_HIGH && rights.rts then Some(SetRts(true))
    else if b == CMD_DTR_LOW && rights.dtr then Some(SetDtr(false))
    else if b == CMD_DTR_HIGH && rights.dtr then Some(SetDtr(true))
    else if b == CMD_GET_SIGNALS then Some(GetSignals)
    else None
  }

  /** What one byte does; a doubled escape is collected without asking `accept`. */
  function Feed(escape: bool, b: byte, rights: Rights): Heard {
    if escape then
      if b == ESCAPE then Heard(false, if rights.canWrite then [Byte(b)] else [])
      else if CommandOf(b, rights).Some? then Heard(false, [Act(CommandOf(b, rights).value)])
      else Heard(false, [])
    else if b == ESCAPE then Heard(true, [])
    else Heard(false, if rights.accept && rights.canWrite then [Byte(b)] else [])
  }

  function Run(escape: bool, bytes: seq<byte>, rights: Rights): Heard
    decreases |bytes|
  {
    if bytes == [] then Heard(escape, [])
    else
      var one := Feed(escape, bytes[0], rights);
      var rest := Run(one.escape, bytes[1..], rights);
      Heard(rest.escape, one.log + rest.log)
  }

  lemma {:induction false} RunConcat(escape: bool, a: seq<byte>, b: seq<byte>, rights: Rights)
    ensures var first := Run(escape, a, rights);
            var second := Run(first.escape, b, rights);
            Run(escape, a + b, rights) == Heard(second.escape, first.log + second.log)
    decreases |a|
  {
    if a == [] {
      assert a + b == b;
      assert [] + Run(escape, b, rights).log == Run(escape, b, rights).log;
    } else {
      var one := Feed(escape, a[0], rights);
      assert (a + b)[1..] == a[1..] + b;
      RunConcat(one.escape, a[1..], b, rights);
      var mid := Run(one.escape, a[1..], rights);
      var end := Run(mid.escape, b, rights);
      assert one.log + (mid.log + end.log) == (one.log + mid.log) + end.log;
    }
  }

  /**
   * The commands, byte by byte: 00 and 01 lower and raise RTS, 10 and 11
   * DTR, each only if the configuration grants that line; C0 asks for a
   * report, whatever is granted.
   */
  lemma AfterEscape(rights: Rights)
    ensures Run(false, [0xFF, 0x00], rights) == Heard(false, if rights.rts then [Act(SetRts(false))] else [])
    ensures Run(false, [0xFF, 0x01], rights) == Heard(false, if rights.rts then [Act(SetRts(true))] else [])
    ensures Run(false, [0xFF, 0x10], rights) == Heard(false, if rights.dtr then [Act(SetDtr(false))] else [])
    ensures Run(false, [0xFF, 0x11], rights) == Heard(false, if rights.dtr then [Act(SetDtr(true))] else [])
    ensures Run(false, [0xFF, 0xC0], rights) == Heard(false, [Act(GetSignals)])
  {
    EscapedPair(0x00, rights);
    EscapedPair(0x01, rights);
    EscapedPair(0x10, rights);
    EscapedPair(0x11, rights);
    EscapedPair(0xC0, rights);
  }

  /** An escaped FF is itself, any other escaped byte nothing, and the rest is data. */
  lemma NoCommandByte(b: byte, rights: Rights)
    ensures Run(false, [0xFF, 0xFF], rights) == Heard(false, if rights.canWrite then [Byte(0xFF)] else [])
    ensures b !in [0x00, 0x01, 0x10, 0x11, 0xC0, 0xFF] ==> Run(false, [0xFF, b], rights) == Heard(false, [])
    ensures b != 0xFF ==>
              Run(false, [b], rights) == Heard(false, if rights.accept && rights.canWrite then [Byte(b)] else [])
  {
    EscapedPair(0xFF, rights);
    EscapedPair(b, rights);
    assert [b][1..] == [];
    assert Feed(false, b, rights).log + [] == Feed(false, b, rights).log;
  }

  lemma EscapedPair(b: byte, rights: Rights)
    ensures Run(false, [ESCAPE, b], rights) == Feed(true, b, rights)
  {
    var one := Feed(true, b, rights);
    assert [ESCAPE, b][1..] == [b] && [b][1..] == [];
    assert one.log + [] == one.log && [] + one.log == one.log;
    assert Run(true, [b], rights) == one;
  }

  /** What a client sends to have this carried out. */
  function Wish(action: Action): seq<byte> {
    match action
    case SetRts(high) => if high then [0xFF, 0x01] else [0xFF, 0x00]
    case SetDtr(high) => if high then [0xFF, 0x11] else [0xFF, 0x10]
    case GetSignals => [0xFF, 0xC0]
  }

  function Wishes(actions: seq<Action>): seq<byte> {
    if actions == [] then [] else Wish(actions[0]) + Wishes(actions[1..])
  }

  predicate IsGranted(action: Action, rights: Rights) {
    match action
    case SetRts(_) => rights.rts
    case SetDtr(_) => rights.dtr
    case GetSignals => true
  }

  /** Those the configuration grants, in order. */
  function GrantedOf(actions: seq<Action>, rights: Rights): seq<Event> {
    if actions == [] then []
    else (if IsGranted(actions[0], rights) then [Act(actions[0])] else []) + GrantedOf(actions[1..], rights)
  }

  lemma WishDone(action: Action, rights: Rights)
    ensures Run(false, Wish(action), rights) == Heard(false, if IsGranted(action, rights) then [Act(action)] else [])
  {
    AfterEscape(rights);
    match action {
      case SetRts(high) => assert Wish(action) == if high then [0xFF, 0x01] else [0xFF, 0x00];
      case SetDtr(high) => assert Wish(action) == if high then [0xFF, 0x11] else [0xFF, 0x10];
      case GetSignals => assert Wish(action) == [0xFF, 0xC0];
    }
  }

  /** What is wished for is done, if it is granted, and in that order. */
  lemma {:induction false} WishesRoundTrip(actions: seq<Action>, rights: Rights)
    ensures Run(false, Wishes(actions), rights) == Heard(false, GrantedOf(actions, rights))
  {
    if actions != [] {
      WishDone(actions[0], rights);
      WishesRoundTrip(actions[1..], rights);
      RunConcat(false, Wish(actions[0]), Wishes(actions[1..]), rights);
    }
  }

  // ---- the two projections

  function DataOf(log: seq<Event>): seq<Event> {
    if log == [] then [] else (if log[0].Byte? then [log[0]] else []) + DataOf(log[1..])
  }

  function CommandsOf(log: seq<Event>): seq<Event> {
    if log == [] then [] else (if log[0].Act? then [log[0]] else []) + CommandsOf(log[1..])
  }

  lemma {:induction false} ProjectConcat(a: seq<Event>, b: seq<Event>)
    ensures DataOf(a + b) == DataOf(a) + DataOf(b)
    ensures CommandsOf(a + b) == CommandsOf(a) + CommandsOf(b)
  {
    if a == [] {
      assert a + b == b;
    } else {
      var tail := a[1..];
      assert (a + b)[0] == a[0] && (a + b)[1..] == tail + b;
      ProjectConcat(tail, b);
      Assoc(if a[0].Byte? then [a[0]] else [], DataOf(tail), DataOf(b));
      Assoc(if a[0].Act? then [a[0]] else [], CommandsOf(tail), CommandsOf(b));
    }
  }

  lemma {:induction false} AllBytes(log: seq<Event>)
    requires forall i | 0 <= i < |log| :: log[i].Byte?
    ensures CommandsOf(log) == [] && DataOf(log) == log
  {
    if log != [] {
      AllBytes(log[1..]);
    }
  }

  lemma {:induction false} AllCommands(log: seq<Event>)
    requires forall i | 0 <= i < |log| :: log[i].Act?
    ensures CommandsOf(log) == log && DataOf(log) == []
  {
    if log != [] {
      AllCommands(log[1..]);
    }
  }

  lemma {:induction false} ProjectSorted(log: seq<Event>)
    ensures |CommandsOf(log)| + |DataOf(log)| == |log|
    ensures forall i | 0 <= i < |CommandsOf(log)| :: CommandsOf(log)[i].Act?
    ensures forall i | 0 <= i < |DataOf(log)| :: DataOf(log)[i].Byte?
  {
    if log != [] {
      ProjectSorted(log[1..]);
    }
  }

  /** What handling one chunk does: its commands first, then its data. */
  function Handled(log: seq<Event>): seq<Event> {
    CommandsOf(log) + DataOf(log)
  }

  /** Reordering a chunk loses and repeats nothing. */
  lemma HandledProjects(log: seq<Event>)
    ensures DataOf(Handled(log)) == DataOf(log) && CommandsOf(Handled(log)) == CommandsOf(log)
  {
    ProjectSorted(log);
    AllBytes(DataOf(log));
    AllCommands(CommandsOf(log));
    ProjectConcat(CommandsOf(log), DataOf(log));
  }

  function HandledChunks(escape: bool, chunks: seq<seq<byte>>, rights: Rights): Heard
    decreases |chunks|
  {
    if chunks == [] then Heard(escape, [])
    else
      var one := Run(escape, chunks[0], rights);
      var rest := HandledChunks(one.escape, chunks[1..], rights);
      Heard(rest.escape, Handled(one.log) + rest.log)
  }

  /** Data and commands, each taken alone, do not depend on the chunking. */
  lemma {:induction false} ProjectionsChunkInvariant(escape: bool, chunks: seq<seq<byte>>, rights: Rights)
    ensures var whole := Run(escape, Concat(chunks), rights);
            var parts := HandledChunks(escape, chunks, rights);
            && parts.escape == whole.escape
            && DataOf(parts.log) == DataOf(whole.log) && CommandsOf(parts.log) == CommandsOf(whole.log)
    decreases |chunks|
  {
    if chunks != [] {
      var one := Run(escape, chunks[0], rights);
      var rest := HandledChunks(one.escape, chunks[1..], rights);
      ProjectionsChunkInvariant(one.escape, chunks[1..], rights);
      RunConcat(escape, chunks[0], Concat(chunks[1..]), rights);
      ProjectConcat(one.log, Run(one.escape, Concat(chunks[1..]), rights).log);
      HandledProjects(one.log);
      ProjectConcat(Handled(one.log), rest.log);
    }
  }

  /** No command in the chunk comes after a data byte of the same chunk. */
  predicate CommandsFirst(log: seq<Event>) {
    forall i, j | 0 <= i < j < |log| :: log[i].Byte? ==> log[j].Byte?
  }

  lemma {:induction false} HandledInOrder(log: seq<Event>)
    ensures Handled(log) == log <==> CommandsFirst(log)
  {
    ProjectSorted(log);
    var n := |CommandsOf(log)|;
    if Handled(log) == log {
      forall i, j | 0 <= i < j < |log| && log[i].Byte?
        ensures log[j].Byte?
      {
        assert log[i] == Handled(log)[i] && log[j] == Handled(log)[j];
        assert i >= n;
        assert Handled(log)[j] == DataOf(log)[j - n];
      }
    }
    if CommandsFirst(log) && log != [] {
      forall i, j | 0 <= i < j < |log[1..]| && log[1..][i].Byte?
        ensures log[1..][j].Byte?
      {
        assert log[i + 1].Byte? && log[j + 1].Byte?;
      }
      HandledInOrder(log[1..]);
      if log[0].Act? {
        assert Handled(log) == [log[0]] + Handled(log[1..]);
      } else {
        AllBytes(log);
      }
    }
  }

  /** Every chunk of the stream, as it will be heard, has its commands first. */
  predicate EveryChunkCommandsFirst(escape: bool, chunks: seq<seq<byte>>, rights: Rights)
    decreases |chunks|
  {
    chunks != [] ==>
      var one := Run(escape, chunks[0], rights);
      CommandsFirst(one.log) && EveryChunkCommandsFirst(one.escape, chunks[1..], rights)
  }

  /**
   * The order the client meant is kept exactly when no chunk carries a
   * command behind a data byte: within a chunk, commands overtake data.
   */
  lemma {:induction false} InterleavingKept(escape: bool, chunks: seq<seq<byte>>, rights: Rights)
    ensures EveryChunkCommandsFirst(escape, chunks, rights) <==>
            HandledChunks(escape, chunks, rights).log == Run(escape, Concat(chunks), rights).log
    ensures |HandledChunks(escape, chunks, rights).log| == |Run(escape, Concat(chunks), rights).log|
    decreases |chunks|
  {
    if chunks != [] {
      var one := Run(escape, chunks[0], rights);
      var rest := HandledChunks(one.escape, chunks[1..], rights);
      var tail := Run(one.escape, Concat(chunks[1..]), rights);
      InterleavingKept(one.escape, chunks[1..], rights);
      RunConcat(escape, chunks[0], Concat(chunks[1..]), rights);
      ProjectSorted(one.log);
      HandledInOrder(one.log);
      var parts, whole := Handled(one.log) + rest.log, one.log + tail.log;
      if parts == whole {
        assert Handled(one.log) == parts[..|one.log|] == whole[..|one.log|] == one.log;
        assert rest.log == parts[|one.log|..] == whole[|one.log|..] == tail.log;
      }
    }
  }

  /** `A` then RTS high: one chunk raises RTS first, two chunks do not. */
  lemma CommandOvertakesData()
    ensures var rights := Rights(true, true, true, true);
            var whole, split := [[0x41, ESCAPE, CMD_RTS_HIGH]], [[0x41], [ESCAPE, CMD_RTS_HIGH]];
            && Concat(whole) == Concat(split)
            && HandledChunks(false, whole, rights).log == [Act(SetRts(true)), Byte(0x41)]
            && HandledChunks(false, split, rights).log == [Byte(0x41), Act(SetRts(true))]
  {
    var rights := Rights(true, true, true, true);
    var command := [ESCAPE, CMD_RTS_HIGH];
    var whole, split := [[0x41] + command], [[0x41], command];
    assert [0x41] + command == [0x41, ESCAPE, CMD_RTS_HIGH];
    assert Run(false, command, rights) == Heard(false, [Act(SetRts(true))]) by {
      assert command[1..] == [CMD_RTS_HIGH] && command[1..][1..] == [];
      assert Run(true, [CMD_RTS_HIGH], rights).log == [Act(SetRts(true))] + [];
    }
    assert Run(false, [0x41], rights) == Heard(false, [Byte(0x41)] + []);
    RunConcat(false, [0x41], command, rights);
    var log := [Byte(0x41), Act(SetRts(true))];
    assert log[1..] == [Act(SetRts(true))] && log[1..][1..] == [];
    assert CommandsOf(log[1..]) == [Act(SetRts(true))] + [] && DataOf(log[1..]) == [];
    assert Handled(log) == [Act(SetRts(true)), Byte(0x41)];
    assert whole[1..] == [] && split[1..] == [command] && split[1..][1..] == [];
    assert Concat([command]) == command + [];
    assert Concat(split) == [0x41] + command;
    assert Concat(whole) == [0x41] + command + [];
    assert Handled([Byte(0x41)]) == [Byte(0x41)] by { AllBytes([Byte(0x41)]); }
    assert CommandsOf([Act(SetRts(true))]) == [Act(SetRts(true))] + [];
    assert Handled([Act(SetRts(true))]) == [Act(SetRts(true))];
    assert HandledChunks(false, [command], rights).log == [Act(SetRts(true))] + [];
  }

  // ---- what escaping and the rights buy

  function ByteEvents(data: seq<byte>): (log: seq<Event>)
    ensures |log| == |data| && forall i | 0 <= i < |data| :: log[i] == Byte(data[i])
  {
    seq(|data|, i requires 0 <= i < |data| => Byte(data[i]))
  }

  /** Escaped data arrives as it was, and commands nothing. */
  lemma {:induction false} InputRoundTrip(data: seq<byte>, rights: Rights)
    requires rights.accept && rights.canWrite
    ensures Run(false, Doubled(data), rights) == Heard(false, ByteEvents(data))
  {
    if data != [] {
      var head := if data[0] == ESCAPE then [ESCAPE, ESCAPE] else [data[0]];
      if data[0] == ESCAPE {
        assert head[1..] == [ESCAPE];
        assert Run(true, [ESCAPE], rights).log == [Byte(ESCAPE)] + [];
      } else {
        assert Run(false, head, rights).log == [Byte(data[0])] + [];
      }
      RunConcat(false, head, Doubled(data[1..]), rights);
      InputRoundTrip(data[1..], rights);
      assert ByteEvents(data) == [Byte(data[0])] + ByteEvents(data[1..]);
    }
  }

  lemma FeedMute(escape: bool, b: byte, rights: Rights)
    ensures var full, mute := Feed(escape, b, rights), Feed(escape, b, rights.(canWrite := false));
            mute.escape == full.escape && mute.log == CommandsOf(full.log)
  {
    var log := Feed(escape, b, rights).log;
    if log != [] {
      assert log == [log[0]] && log[1..] == [];
    }
  }

  lemma {:induction false} MuteIsCommands(escape: bool, bytes: seq<byte>, rights: Rights)
    ensures var full, mute := Run(escape, bytes, rights), Run(escape, bytes, rights.(canWrite := false));
            mute.escape == full.escape && mute.log == CommandsOf(full.log)
    decreases |bytes|
  {
    if bytes != [] {
      var one := Feed(escape, bytes[0], rights);
      FeedMute(escape, bytes[0], rights);
      MuteIsCommands(one.escape, bytes[1..], rights);
      ProjectConcat(one.log, Run(one.escape, bytes[1..], rights).log);
    }
  }

  /**
   * Without the right to write no byte ever reaches the device, and every
   * command still runs as it would have with it.
   */
  lemma ReadOnlyStillCommands(escape: bool, bytes: seq<byte>, rights: Rights)
    ensures var full, mute := Run(escape, bytes, rights), Run(escape, bytes, rights.(canWrite := false));
            mute.escape == full.escape && CommandsOf(mute.log) == CommandsOf(full.log) && DataOf(mute.log) == []
  {
    MuteIsCommands(escape, bytes, rights);
    ProjectSorted(Run(escape, bytes, rights).log);
    AllCommands(CommandsOf(Run(escape, bytes, rights).log));
  }

  lemma {:induction false} PlainRun(data: seq<byte>, rights: Rights)
    requires ESCAPE !in data
    ensures Run(false, data, rights) == Heard(false, if rights.accept && rights.canWrite then ByteEvents(data) else [])
  {
    if data != [] {
      PlainRun(data[1..], rights);
      assert ByteEvents(data) == [Byte(data[0])] + ByteEvents(data[1..]);
    }
  }

  /** What the device made of one command: whether the line could be set, and how all of them then read. */
  datatype Reaction = Reaction(obeyed: bool, lines: byte)

  /**
   * A question is always answered. A line that was set is reported to every
   * control client, the one that asked among them.
   */
  function ReportFor(command: Event, reaction: Reaction, names: set<Line>): seq<Out> {
    if command.Act? && (command.action.GetSignals? || reaction.obeyed) then [Report(Masked(reaction.lines, names))]
    else []
  }

  /** The reports a chunk's commands bring its own client, the first being command `k`. */
  function ReportsFor(commands: seq<Event>, k: nat, device: nat -> Reaction, names: set<Line>): seq<Out>
    decreases |commands|
  {
    if commands == [] then []
    else ReportFor(commands[0], device(k), names) + ReportsFor(commands[1..], k + 1, device, names)
  }

  /** A request is always answered, and a line that was set reported if the device took it. */
  lemma ReportWhen(command: Event, reaction: Reaction, names: set<Line>)
    ensures command == Act(GetSignals) ==>
              ReportFor(command, reaction, names) == [Report(Masked(reaction.lines, names))]
    ensures command.Act? && !command.action.GetSignals? ==>
              ReportFor(command, reaction, names) ==
              if reaction.obeyed then [Report(Masked(reaction.lines, names))] else []
  {
  }

  lemma {:induction false} ReportsConcat(a: seq<Event>, b: seq<Event>, k: nat, device: nat -> Reaction,
                                         names: set<Line>)
    ensures ReportsFor(a + b, k, device, names) ==
            ReportsFor(a, k, device, names) + ReportsFor(b, k + |a|, device, names)
    decreases |a|
  {
    if a == [] {
      assert a + b == b;
    } else {
      assert (a + b)[1..] == a[1..] + b;
      ReportsConcat(a[1..], b, k + 1, device, names);
    }
  }

  lemma OneReport(command: Event, k: nat, device: nat -> Reaction, names: set<Line>)
    ensures ReportsFor([command], k, device, names) == ReportFor(command, device(k), names)
  {
    assert [command][1..] == [];
    assert ReportFor(command, device(k), names) + [] == ReportFor(command, device(k), names);
  }

  lemma ReportsGoOn(before: seq<Out>, a: seq<Event>, b: seq<Event>, device: nat -> Reaction, names: set<Line>)
    ensures before + ReportsFor(a + b, 0, device, names) ==
            before + ReportsFor(a, 0, device, names) + ReportsFor(b, |a|, device, names)
  {
    var first, second := ReportsFor(a, 0, device, names), ReportsFor(b, |a|, device, names);
    ReportsConcat(a, b, 0, device, names);
    Assoc(before, first, second);
  }

  /** How far a chunk has got: commands done, data collected, commands counted. */
  datatype Work = Work(escape: bool, done: seq<Event>, clean: seq<Event>, ran: nat)

  function Finish(w: Work, bytes: seq<byte>, rights: Rights): Work {
    var heard := Run(w.escape, bytes, rights);
    Work(heard.escape, w.done + CommandsOf(heard.log), w.clean + DataOf(heard.log), w.ran + |CommandsOf(heard.log)|)
  }

  lemma FinishConcat(w: Work, a: seq<byte>, b: seq<byte>, rights: Rights)
    ensures Finish(w, a + b, rights) == Finish(Finish(w, a, rights), b, rights)
  {
    var first := Run(w.escape, a, rights);
    var second := Run(first.escape, b, rights);
    RunConcat(w.escape, a, b, rights);
    ProjectConcat(first.log, second.log);
    Assoc(w.done, CommandsOf(first.log), CommandsOf(second.log));
    Assoc(w.clean, DataOf(first.log), DataOf(second.log));
  }

  lemma FinishOne(w: Work, bytes: seq<byte>, rights: Rights)
    requires bytes != []
    ensures var one := Feed(w.escape, bytes[0], rights);
            Finish(w, bytes, rights) ==
            Finish(Work(one.escape, w.done + CommandsOf(one.log), w.clean + DataOf(one.log),
                        w.ran + |CommandsOf(one.log)|),
                   bytes[1..], rights)
  {
    var one := Feed(w.escape, bytes[0], rights);
    assert bytes[..1][1..] == [] && one.log + [] == one.log;
    assert Run(w.escape, bytes[..1], rights) == one;
    assert bytes == bytes[..1] + bytes[1..];
    FinishConcat(w, bytes[..1], bytes[1..], rights);
  }

  /** The collected bytes, as far as the device will ever see them. */
  function Delivered(clean: seq<byte>, rights: Rights): seq<Event> {
    if rights.canWrite then ByteEvents(clean) else []
  }

  lemma DeliveredConcat(a: seq<byte>, b: seq<byte>, rights: Rights)
    ensures Delivered(a + b, rights) == Delivered(a, rights) + Delivered(b, rights)
  {
    var whole, parts := ByteEvents(a + b), ByteEvents(a) + ByteEvents(b);
    assert |whole| == |parts|;
    forall i | 0 <= i < |whole|
      ensures whole[i] == parts[i]
    {
    }
    assert whole == parts;
  }

  /** A stretch without escapes is collected whole, or not at all. */
  lemma FinishPlain(w: Work, data: seq<byte>, rights: Rights)
    requires !w.escape && ESCAPE !in data
    ensures Finish(w, data, rights) ==
            w.(clean := w.clean + Delivered(if rights.accept then data else [], rights))
  {
    PlainRun(data, rights);
    var log := Run(false, data, rights).log;
    AllBytes(log);
    assert w.done + [] == w.done;
    assert Delivered([], rights) == [];
  }

  /** Collecting up to an escape, and noting the escape, loses nothing. */
  lemma FinishScan(w: Work, data: seq<byte>, index: nat, rights: Rights)
    requires !w.escape && index < |data| && data[index] == ESCAPE && ESCAPE !in data[..index]
    ensures var w' := w.(escape := true,
                         clean := w.clean + Delivered(if rights.accept then data[..index] else [], rights));
            Finish(w', data[index + 1..], rights) == Finish(w, data, rights)
  {
    var mid := Finish(w, data[..index], rights);
    FinishPlain(w, data[..index], rights);
    assert data == data[..index] + data[index..];
    FinishConcat(w, data[..index], data[index..], rights);
    FinishOne(mid, data[index..], rights);
    assert data[index..][1..] == data[index + 1..];
    assert mid.done + [] == mid.done && mid.clean + [] == mid.clean;
  }

  /** What the byte after an escape amounts to, in all three projections. */
  lemma CommandEffect(w: Work, b: byte, rights: Rights)
    requires w.escape
    ensures Finish(w, [b], rights) ==
            var command := CommandOf(b, rights);
            if b == ESCAPE then w.(escape := false, clean := w.clean + Delivered([ESCAPE], rights))
            else if command.None? then w.(escape := false)
            else w.(escape := false, done := w.done + [Act(command.value)], ran := w.ran + 1)
  {
    var log := Feed(true, b, rights).log;
    assert log + [] == log && [b][1..] == [];
    assert Run(true, [b], rights) == Heard(false, log);
    assert w.done + [] == w.done && w.clean + [] == w.clean;
    if b == ESCAPE {
      assert Delivered([ESCAPE], rights) == if rights.canWrite then [Byte(ESCAPE)] else [];
      AllBytes(log);
    } else {
      assert log != [] ==> log == [log[0]] && log[1..] == [];
    }
  }

  /** The same for what a chunk has collected so far. */
  lemma AfterCommand(w: Work, clean: seq<byte>, b: byte, rights: Rights)
    requires !w.escape && w.clean == Delivered(clean, rights)
    ensures Finish(w.(escape := true), [b], rights) ==
            var command := CommandOf(b, rights);
            if b == ESCAPE then w.(clean := Delivered(clean + [ESCAPE], rights))
            else if command.None? then w
            else w.(done := w.done + [Act(command.value)], ran := w.ran + 1)
  {
    CommandEffect(w.(escape := true), b, rights);
    DeliveredConcat(clean, [ESCAPE], rights);
  }

  /** Where no command ran, nothing is added to the record or sent. */
  lemma NoCommand(history: seq<Event>, outs: seq<Out>, ran: nat, device: nat -> Reaction, names: set<Line>)
    ensures history + [] == history && outs + ReportsFor([], ran, device, names) == outs
  {
  }

  class ControlConnection {
    const base: Connections.Connection
    const names: set<Line>          // the lines to report
    const forward: bool               // may the device's output be sent?
    const rights: Rights
    var escape: bool

    ghost var outs: seq<Out>          // every frame accepted for the client
    ghost var history: seq<Event>     // what its input did, in the order done

    /** The client's stream is made of whole frames and nothing else. */
    ghost predicate Valid()
      reads this, base, base.selector
    {
      && base.Valid()
      && rights.accept == rights.canWrite == base.canWrite
      && base.accepted == Wire(outs)
      && SixBits(outs)
    }

    /** The server asks one question for both rights to write. */
    constructor (base: Connections.Connection, names: set<Line>, forward: bool, rts: bool, dtr: bool)
      requires base.Valid() && base.accepted == []
      ensures Valid() && this.base == base && this.names == names && this.forward == forward
      ensures rights == Rights(base.canWrite, base.canWrite, rts, dtr)
      ensures !escape && outs == [] && history == []
    {
      this.base, this.names, this.forward := base, names, forward;
      rights := Rights(base.canWrite, base.canWrite, rts, dtr);
      escape, outs, history := false, [], [];
    }

    /** What the client has been handed decodes to a prefix of what was sent. */
    lemma ClientView()
      requires Valid()
      ensures Decode(false, base.wire).tokens <= Meaning(outs)
      ensures base.outBuffer == [] ==> Decode(false, base.wire) == Decoded(false, Meaning(outs))
    {
      assert base.wire + base.outBuffer == Wire(outs);
      assert base.outBuffer == [] ==> base.wire + base.outBuffer == base.wire;
      PartialOutput(outs, base.wire);
      OutputRoundTrip(outs);
    }

    method SendOut(out: Out, now: int) returns (r: Option<nat>)
      requires Valid() && SixBits([out])
      modifies base, base.selector, this`outs
      ensures Valid() && base.wire == old(base.wire) && base.selector == old(base.selector)
      ensures r.Some? <==> old(base.socket).Some? && base.Limited(|old(base.outBuffer)| + |Encode(out)|)
      ensures outs == if r.Some? then old(outs) + [out] else old(outs)
      ensures r.Some? ==> base.socket == old(base.socket)
      ensures r.None? ==> base.IsClosed()
    {
      OneMore(outs, out);
      ghost var more := outs + [out];
      r := base.Send(Encode(out), now);
      if r.Some? {
        outs := more;
      }
    }

    /** One escaped frame, or none where the device is not to be heard. */
    method Send(data: seq<byte>, now: int) returns (r: Option<nat>)
      requires Valid()
      modifies base, base.selector, this`outs
      ensures Valid() && base.wire == old(base.wire) && base.selector == old(base.selector)
      ensures !forward ==> r == Some(0) && outs == old(outs) && base.socket == old(base.socket)
      ensures forward ==>
                (r.Some? <==> old(base.socket).Some? && base.Limited(|old(base.outBuffer)| + |Doubled(data)|))
      ensures forward ==> outs == if r.Some? then old(outs) + [Data(data)] else old(outs)
      ensures r.None? ==> base.IsClosed()
    {
      if !forward {
        return Some(0);
      }
      var out := Data(data);
      assert Encode(out) == Doubled(data) && out.Data?;
      r := SendOut(out, now);
    }

    method FilterMask(bitmask: byte) returns (filtered: byte)
      ensures filtered == Masked(bitmask, names)
    {
      filtered := 0;
      var todo := names;
      while todo != {}
        invariant todo <= names
        invariant filtered == Masked(bitmask, names - todo)
        decreases todo
      {
        var name :| name in todo;
        var bit := SignalBit(name);
        MaskedAdd(bitmask, names - todo, name);
        assert names - (todo - {name}) == (names - todo) + {name};
        if bit.Some? && bitmask & bit.value != 0 {
          filtered := filtered | bit.value;
        }
        todo := todo - {name};
      }
      assert names - {} == names;
    }

    method SendSignalReport(bitmask: byte, now: int) returns (r: Option<nat>)
      requires Valid()
      modifies base, base.selector, this`outs
      ensures Valid() && base.wire == old(base.wire) && base.selector == old(base.selector)
      ensures r.Some? <==> old(base.socket).Some? && base.Limited(|old(base.outBuffer)| + 2)
      ensures outs == if r.Some? then old(outs) + [Report(Masked(bitmask, names))] else old(outs)
      ensures r.Some? ==> base.socket == old(base.socket)
      ensures r.None? ==> base.IsClosed()
    {
      var filtered := FilterMask(bitmask);
      r := SendOut(Report(filtered), now);
    }

    ghost function Progress(clean: seq<byte>, ran: nat): Work
      reads this
    {
      Work(escape, history, Delivered(clean, rights), ran)
    }

    /** Since `before`, one report went out for each of these commands that calls for one. */
    ghost predicate Reported(before: seq<Out>, commands: seq<Event>, device: nat -> Reaction)
      reads this, base
    {
      base.socket.Some? ==> outs == before + ReportsFor(commands, 0, device, names)
    }

    /**
     * One command byte; `ran` counts the commands of this chunk so far and
     * `device` says what it makes of each of them.
     */
    method ProcessControlCmd(b: byte, clean: seq<byte>, now: int, device: nat -> Reaction, ran: nat)
        returns (clean': seq<byte>, ran': nat, ghost command: seq<Event>)
      requires Valid() && !escape
      modifies base, base.selector, this`outs, this`history
      ensures Valid() && base.wire == old(base.wire) && base.selector == old(base.selector)
      ensures history == old(history) + command && ran' == ran + |command|
      ensures Progress(clean', ran') == Finish(old(Progress(clean, ran)).(escape := true), [b], rights)
      ensures old(base.socket).None? ==> base.IsClosed()
      ensures base.socket.Some? ==> outs == old(outs) + ReportsFor(command, ran, device, names)
      ensures old(outs) <= outs
    {
      clean', ran', command := clean, ran, [];
      AfterCommand(Progress(clean, ran), clean, b, rights);
      NoCommand(history, outs, ran, device, names);
      if b == ESCAPE {
        clean' := clean + [ESCAPE];
      } else {
        var action := CommandOf(b, rights);
        if action.Some? {
          command := Carry(action.value, now, device, ran);
          ran' := ran + 1;
        }
      }
    }

    method Carry(action: Action, now: int, device: nat -> Reaction, ran: nat) returns (ghost command: seq<Event>)
      requires Valid()
      modifies base, base.selector, this`outs, this`history
      ensures Valid() && base.wire == old(base.wire) && base.selector == old(base.selector)
      ensures command == [Act(action)] && history == old(history) + command
      ensures old(base.socket).None? ==> base.IsClosed()
      ensures base.socket.Some? ==> outs == old(outs) + ReportsFor(command, ran, device, names)
      ensures old(outs) <= outs
    {
      command := [Act(action)];
      OneReport(Act(action), ran, device, names);
      Obey(action, device(ran), now);
    }

    /** Run one command; whatever report it brings is queued before the next. */
    method Obey(action: Action, reaction: Reaction, now: int)
      requires Valid()
      modifies base, base.selector, this`outs, this`history
      ensures Valid() && base.wire == old(base.wire) && base.selector == old(base.selector)
      ensures history == old(history) + [Act(action)]
      ensures old(base.socket).None? ==> base.IsClosed()
      ensures base.socket.Some? ==> outs == old(outs) + ReportFor(Act(action), reaction, names)
      ensures old(outs) <= outs
    {
      history := history + [Act(action)];
      if action.GetSignals? || reaction.obeyed {
        var _ := SendSignalReport(reaction.lines, now);
      }
    }

    /** Hand the collected data to the device, if this client may. */
    method ToSerial(clean: seq<byte>)
      modifies this`history
      ensures history == old(history) + Delivered(clean, rights)
    {
      if clean != [] && rights.canWrite {
        history := history + ByteEvents(clean);
      }
    }

    /** Collect up to the next escape, which becomes pending, or to the end. */
    method ScanData(data: seq<byte>, clean: seq<byte>, ghost ran: nat) returns (rest: seq<byte>, clean': seq<byte>)
      requires !escape && data != []
      modifies this`escape
      ensures |rest| < |data|
      ensures Finish(Progress(clean', ran), rest, rights) == Finish(old(Progress(clean, ran)), data, rights)
    {
      clean' := clean;
      if ESCAPE in data {
        var index := IndexOf(data, ESCAPE);
        FinishScan(Progress(clean, ran), data, index, rights);
        DeliveredConcat(clean, data[..index], rights);
        DeliveredConcat(clean, [], rights);
        if rights.accept && index > 0 {
          clean' := clean + data[..index];
        }
        rest := data[index + 1..];
        escape := true;
      } else {
        FinishPlain(Progress(clean, ran), data, rights);
        DeliveredConcat(clean, data, rights);
        DeliveredConcat(clean, [], rights);
        if rights.accept {
          clean' := clean + data;
        }
        rest := [];
        NothingLeft(Progress(clean', ran), rights);
      }
    }

    /** Carry out the command byte a pending escape was waiting for. */
    method TakeCommand(data: seq<byte>, clean: seq<byte>, now: int, device: nat -> Reaction, ghost before: seq<Out>,
                       ghost commands: seq<Event>, ran: nat)
        returns (rest: seq<byte>, clean': seq<byte>, ran': nat, ghost command: seq<Event>)
      requires Valid() && escape && data != []
      requires ran == |commands| && Reported(before, commands, device)
      modifies this`escape, this`outs, this`history, base, base.selector
      ensures Valid() && base.wire == old(base.wire) && base.selector == old(base.selector)
      ensures |rest| < |data| && old(outs) <= outs && history == old(history) + command
      ensures ran' == ran + |command|
      ensures Finish(Progress(clean', ran'), rest, rights) == Finish(old(Progress(clean, ran)), data, rights)
      ensures old(base.socket).None? ==> base.IsClosed()
      ensures Reported(before, commands + command, device)
    {
      ghost var w := Progress(clean, ran);
      FinishHead(w, data, rights);
      escape := false;
      assert Progress(clean, ran).(escape := true) == w;
      clean', ran', command := ProcessControlCmd(data[0], clean, now, device, ran);
      ReportsGoOn(before, commands, command, device, names);
      rest := data[1..];
    }

    method Advance(data: seq<byte>, clean: seq<byte>, now: int, device: nat -> Reaction, ghost before: seq<Out>,
                   ghost commands: seq<Event>, ran: nat)
        returns (rest: seq<byte>, clean': seq<byte>, ran': nat, ghost command: seq<Event>)
      requires Valid() && data != [] && ran == |commands| && Reported(before, commands, device)
      modifies this`escape, this`outs, this`history, base, base.selector
      ensures Valid() && base.wire == old(base.wire) && base.selector == old(base.selector)
      ensures |rest| < |data| && old(outs) <= outs && history == old(history) + command
      ensures ran' == ran + |command|
      ensures Finish(Progress(clean', ran'), rest, rights) == Finish(old(Progress(clean, ran)), data, rights)
      ensures old(base.socket).None? ==> base.IsClosed()
      ensures Reported(before, commands + command, device)
    {
      if escape {
        rest, clean', ran', command := TakeCommand(data, clean, now, device, before, commands, ran);
      } else {
        rest, clean' := ScanData(data, clean, ran);
        ran', command := ran, [];
        assert history + command == history && commands + command == commands;
      }
    }

    /** The loop over one chunk; what it collects is still to be handed on. */
    method Parse(chunk: seq<byte>, now: int, device: nat -> Reaction)
        returns (clean: seq<byte>, ghost commands: seq<Event>)
      requires Valid()
      modifies this`escape, this`outs, this`history, base, base.selector
      ensures Valid() && base.wire == old(base.wire) && base.selector == old(base.selector)
      ensures Progress(clean, |commands|) == Finish(old(Progress([], 0)), chunk, rights)
      ensures history == old(history) + commands && Reported(old(outs), commands, device)
      ensures old(base.socket).None? ==> base.IsClosed()
      ensures old(outs) <= outs
    {
      var data, ran := chunk, 0;
      clean, commands := [], [];
      while data != []
        invariant Valid() && base.wire == old(base.wire) && base.selector == old(base.selector) && old(outs) <= outs
        invariant old(base.socket).None? ==> base.IsClosed()
        invariant ran == |commands| && history == old(history) + commands
        invariant Reported(old(outs), commands, device)
        invariant Finish(Progress(clean, ran), data, rights) == Finish(old(Progress([], 0)), chunk, rights)
        decreases |data|
      {
        ghost var command;
        data, clean, ran, command := Advance(data, clean, now, device, old(outs), commands, ran);
        Assoc(old(history), commands, command);
        commands := commands + command;
      }
      NothingLeft(Progress(clean, ran), rights);
    }

    /** One chunk from the client: commands as they come, the data at the end. */
    method OnReceived(chunk: seq<byte>, now: int, device: nat -> Reaction)
      requires Valid()
      modifies this`escape, this`outs, this`history, base, base.selector
      ensures Valid() && base.wire == old(base.wire) && base.selector == old(base.selector)
      ensures var heard := Run(old(escape), chunk, rights);
              && escape == heard.escape
              && history == old(history) + Handled(heard.log)
              && (base.socket.Some? ==> outs == old(outs) + ReportsFor(CommandsOf(heard.log), 0, device, names))
      ensures !base.canWrite ==> DataOf(history) == DataOf(old(history))
      ensures old(base.socket).None? ==> base.IsClosed()
      ensures old(outs) <= outs
    {
      ghost var log := Run(escape, chunk, rights).log;
      var clean := Hear(chunk, now, device);
      ToSerial(clean);
      Assoc(old(history), CommandsOf(log), DataOf(log));
      NothingGetsThrough(old(escape), chunk, rights, old(history));
    }

    method Hear(chunk: seq<byte>, now: int, device: nat -> Reaction) returns (clean: seq<byte>)
      requires Valid()
      modifies this`escape, this`outs, this`history, base, base.selector
      ensures Valid() && base.wire == old(base.wire) && base.selector == old(base.selector)
      ensures var heard := Run(old(escape), chunk, rights);
              && escape == heard.escape
              && history == old(history) + CommandsOf(heard.log)
              && Delivered(clean, rights) == DataOf(heard.log)
              && Reported(old(outs), CommandsOf(heard.log), device)
      ensures old(base.socket).None? ==> base.IsClosed()
      ensures old(outs) <= outs
    {
      ghost var log := Run(escape, chunk, rights).log;
      ghost var commands;
      clean, commands := Parse(chunk, now, device);
      SamePrefix(old(history), commands, CommandsOf(log));
      assert Delivered(clean, rights) == [] + DataOf(log);
    }
  }

  /** A client that may not write adds no byte to what the device was given. */
  lemma NothingGetsThrough(escape: bool, chunk: seq<byte>, rights: Rights, history: seq<Event>)
    ensures var log := Run(escape, chunk, rights).log;
            !rights.canWrite ==> DataOf(history + Handled(log)) == DataOf(history)
  {
    var log := Run(escape, chunk, rights).log;
    ProjectConcat(history, Handled(log));
    HandledProjects(log);
    if !rights.canWrite {
      assert rights.(canWrite := false) == rights;
      ReadOnlyStillCommands(escape, chunk, rights);
    }
  }

  lemma NothingLeft(w: Work, rights: Rights)
    ensures Finish(w, [], rights) == w
  {
    assert w.done + [] == w.done && w.clean + [] == w.clean;
  }

  lemma FinishHead(w: Work, data: seq<byte>, rights: Rights)
    requires data != []
    ensures Finish(Finish(w, [data[0]], rights), data[1..], rights) == Finish(w, data, rights)
  {
    FinishConcat(w, [data[0]], data[1..], rights);
    assert data == [data[0]] + data[1..];
  }
}
