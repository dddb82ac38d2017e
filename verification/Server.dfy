// A listening server and the clients it tracks, all watched by one selector.
module Servers {
  import opened Bytes
  import opened Lists
  import opened Wrappers
  import opened Selectors
  import opened Connections

  /** What one batch makes the server queue, for its own client or for everybody. */
  datatype Effect =
    | Answer(bytes: seq<byte>)
    | Report(bytes: seq<byte>, os: nat -> Verdict)

  /**
   * What one step of the read loop meets. A batch may also bring a device
   * write that fails, and that takes the whole port down.
   */
  datatype ReadOutcome =
    | Failed                                   // recv() raised
    | Nothing                                  // would block
    | Hangup                                   // the peer has gone
    | Received(effects: seq<Effect>, down: bool, more: bool)

  /** How a read loop ends: with the client as it is, gone, or everybody gone. */
  datatype Ending = Stopped | Gone | PortDown

  /** One client at one moment. */
  datatype Snap = Snap(open: bool, wire: seq<byte>, accepted: seq<byte>, limit: Option<nat>)

  /** Its buffer has room for these bytes behind what it holds. */
  ghost predicate Fits(a: Snap, bytes: seq<byte>) {
    a.limit.Some? && a.limit.value > 0 ==> |a.accepted| - |a.wire| + |bytes| <= a.limit.value
  }

  /** From one moment to another: a client that is still there was queued exactly these bytes. */
  ghost predicate Bigger(a: Snap, b: Snap, bytes: seq<byte>) {
    && b.wire == a.wire && a.accepted <= b.accepted && b.limit == a.limit
    && (!a.open ==> !b.open && b.accepted == a.accepted)
    && (b.open ==> b.accepted == a.accepted + bytes && Fits(a, bytes))
  }

  /** It was closed, if it was, for want of room for these bytes. */
  ghost predicate Overflowed(a: Snap, b: Snap, bytes: seq<byte>) {
    a.open && !b.open ==> !Fits(a, bytes)
  }

  /**
   * What a client was given in the end: all of it, if it was reached and is
   * there; and it is there if nothing but a full buffer could close it.
   */
  ghost predicate Given(a: Snap, b: Snap, bytes: seq<byte>, reached: bool, safe: bool) {
    && b.wire == a.wire && a.accepted <= b.accepted
    && (reached && b.open ==> a.open && b.accepted == a.accepted + bytes && Fits(a, bytes))
    && (safe && a.open && Fits(a, bytes) ==> b.open)
  }

  lemma GivenFrom(a: Snap, m: Snap, b: Snap, part: seq<byte>, bytes: seq<byte>, reached: bool, safe: bool)
    requires Bigger(a, m, part) && part <= bytes && (reached && m.open ==> part == bytes)
    requires b == m || b == m.(open := false)
    requires safe ==> b == m && Overflowed(a, m, part)
    ensures Given(a, b, bytes, reached, safe)
  {
  }

  lemma BiggerOn(a: Snap, b: Snap, c: Snap, x: seq<byte>, y: seq<byte>)
    requires Bigger(a, b, x) && Bigger(b, c, y)
    ensures Bigger(a, c, x + y)
    ensures Overflowed(a, b, x) && Overflowed(b, c, y) ==> Overflowed(a, c, x + y)
  {
    assert c.open ==> c.accepted == a.accepted + (x + y);
  }

  class Server {
    const selector: Selector?
    const canRead: bool
    const control: bool
    var connections: seq<Connection>
    var connBySocket: map<Option<nat>, Connection>
    var readPaused: bool

    ghost predicate DistinctIds()
      reads this
    {
      forall i, j | 0 <= i < j < |connections| ::
        connections[i] != connections[j] && connections[i].id != connections[j].id
    }

    /** What the loop needs to reach and watch one tracked client. */
    ghost predicate Wired(con: Connection)
      reads this, con, selector
    {
      && (con.selector == null || con.selector == selector)
      && con.Valid()
      && (con.socket.Some? ==>
        && con.selector == selector
        && con.socket in connBySocket
        && connBySocket[con.socket] == con)
    }

    ghost predicate AllWired()
      reads this, connections, selector
    {
      DistinctIds() && forall i | 0 <= i < |connections| :: Wired(connections[i])
    }

    ghost predicate Valid()
      reads this, connections, selector
    {
      AllWired() && forall i | 0 <= i < |connections| :: connections[i].readPaused == readPaused
    }

    /** Every tracked client is watched for exactly what it wants. */
    ghost predicate AllSettled()
      reads this, connections
    {
      forall i | 0 <= i < |connections| :: connections[i].Settled()
    }

    constructor (selector: Selector?, canRead: bool, control: bool)
      ensures Valid() && AllSettled()
      ensures this.selector == selector && this.canRead == canRead && this.control == control
      ensures connections == [] && connBySocket == map[] && !readPaused
    {
      this.selector, this.canRead, this.control := selector, canRead, control;
      connections, connBySocket, readPaused := [], map[], false;
    }

    /** What a broadcast of `data` does to one client's accepted stream. */
    twostate predicate Queued(con: Connection, data: seq<byte>)
      reads con
    {
      && con.wire == old(con.wire)
      && con.accepted ==
         (if old(con.socket).Some? && con.Limited(|old(con.outBuffer)| + |data|)
          then old(con.accepted) + data else old(con.accepted))
      && Bigger(old(Now(con)), Now(con), data)
    }

    /** Queued, or closed for want of room or by a refused mask; and watched accordingly. */
    twostate predicate Told(con: Connection, data: seq<byte>, os: Verdict)
      reads con
    {
      && con.Settled() && Queued(con, data)
      && (os.Accepted? ==> Overflowed(old(Now(con)), Now(con), data))
    }

    ghost function Now(con: Connection): Snap
      reads con
    {
      Snap(con.socket.Some?, con.wire, con.accepted, con.bufferLimit)
    }

    method SendOne(i: nat, data: seq<byte>, now: int, os: Verdict)
      requires Valid() && i < |connections|
      modifies connections[i], selector
      ensures Valid()
      ensures Told(connections[i], data, os)
    {
      var con := connections[i];
      var _ := con.Send(data, now);
      con.UpdateInterest(os);
      forall j | 0 <= j < |connections|
        ensures Wired(connections[j]) && connections[j].readPaused == readPaused
      {
        if j != i {
          assert connections[j] != con && connections[j].id != con.id;
        }
      }
    }

    /** Queue for everyone, and re-arm everyone. */
    method QueueAll(data: seq<byte>, now: int, os: nat -> Verdict)
      requires Valid()
      modifies connections, selector
      ensures Valid()
      ensures forall i: nat | i < |connections| :: Told(connections[i], data, os(i))
    {
      var i := 0;
      while i < |connections|
        invariant 0 <= i <= |connections|
        invariant Valid()
        invariant forall j: nat | j < i :: Told(connections[j], data, os(j))
        invariant forall j | i <= j < |connections| :: unchanged(connections[j])
      {
        SendOne(i, data, now, os(i));
        i := i + 1;
      }
    }

    /** What the device says, unless nobody here may hear it. */
    method Send(data: seq<byte>, now: int, os: nat -> Verdict)
      requires Valid()
      modifies connections, selector
      ensures Valid()
      ensures !canRead ==> forall c | c in connections :: unchanged(c)
      ensures canRead ==> AllSettled() && forall i: nat | i < |connections| :: Told(connections[i], data, os(i))
    {
      if canRead {
        QueueAll(data, now, os);
      }
    }

    /** How the lines read, to the clients of a control server. */
    method SendSignalReport(report: seq<byte>, now: int, os: nat -> Verdict)
      requires Valid()
      modifies connections, selector
      ensures Valid()
      ensures !control ==> forall c | c in connections :: unchanged(c)
      ensures control ==> AllSettled() && forall i: nat | i < |connections| :: Told(connections[i], report, os(i))
    {
      if control {
        QueueAll(report, now, os);
      }
    }

    /** Backpressure reaches everyone, and is remembered for newcomers. */
    method SetReadPaused(paused: bool, os: nat -> Verdict)
      requires Valid()
      modifies this`readPaused, connections, selector
      ensures Valid() && readPaused == paused
      ensures old(AllSettled()) || paused != old(readPaused) ==> AllSettled()
      ensures forall c | c in connections :: c.accepted == old(c.accepted) && c.wire == old(c.wire)
    {
      readPaused := paused;
      var i := 0;
      while i < |connections|
        invariant 0 <= i <= |connections|
        invariant AllWired() && readPaused == paused
        invariant forall j | 0 <= j < i :: Turned(connections[j], paused, paused != old(readPaused))
        invariant forall j | i <= j < |connections| :: unchanged(connections[j])
      {
        PauseOne(connections[i], paused, os(i));
        i := i + 1;
      }
    }

    /** Paused or not as asked, re-armed if that is a change, and sent nothing. */
    twostate predicate Turned(con: Connection, paused: bool, changed: bool)
      reads con
    {
      && con.readPaused == paused
      && (old(con.Settled()) || changed ==> con.Settled())
      && con.accepted == old(con.accepted) && con.wire == old(con.wire)
    }

    method PauseOne(con: Connection, paused: bool, os: Verdict)
      requires AllWired() && con in connections
      modifies con`readPaused, con`socket, con`interest, selector
      ensures AllWired()
      ensures Turned(con, paused, paused != old(con.readPaused))
    {
      ghost var i :| 0 <= i < |connections| && connections[i] == con;
      con.SetReadPaused(paused, os);
      forall j | 0 <= j < |connections|
        ensures Wired(connections[j])
      {
        if j != i {
          assert connections[j] != con && connections[j].id != con.id;
        }
      }
    }

    /**
     * Track a client. Watching starts with READ alone, so a client that
     * arrives with bytes already queued is not yet watched for writing.
     */
    method AddConnection(con: Connection, os: Verdict)
      requires Valid()
      requires con.Valid() && con.selector == null && !con.readPaused
      requires forall i | 0 <= i < |connections| :: connections[i] != con && connections[i].id != con.id
      requires selector != null ==> con.id !in selector.watched
      modifies this`connections, this`connBySocket, con, selector
      ensures Valid() && connections == old(connections) + [con]
      ensures connBySocket == old(connBySocket)[old(con.socket) := con]
      ensures con.accepted == old(con.accepted) && con.outBuffer == old(con.outBuffer)
      ensures selector != null && con.socket.Some? ==>
                (con.Settled() <==> con.outBuffer == [] || readPaused)
      ensures old(AllSettled()) && con.Settled() ==> AllSettled()
    {
      Watch(con);
      if readPaused {
        PauseOne(con, true, os);
      }
    }

    method Watch(con: Connection)
      requires AllWired()
      requires con.Valid() && con.selector == null
      requires forall i | 0 <= i < |connections| :: connections[i] != con && connections[i].id != con.id
      requires selector != null ==> con.id !in selector.watched
      modifies this`connections, this`connBySocket, con`selector, con`interest, selector
      ensures AllWired() && connections == old(connections) + [con]
      ensures connBySocket == old(connBySocket)[con.socket := con]
      ensures selector != null && con.socket.Some? ==> con.selector == selector && con.interest == Some(READ)
    {
      connections := connections + [con];
      connBySocket := connBySocket[con.socket := con];
      con.Attach(selector);
      assert forall j | 0 <= j < |connections| - 1 :: connections[j] == old(connections)[j];
    }

    lemma RemovedKeepsIds(cons: seq<Connection>, con: Connection)
      requires forall i, j | 0 <= i < j < |cons| :: cons[i] != cons[j] && cons[i].id != cons[j].id
      ensures forall c | c in cons && c != con :: c in Removed(cons, con)
      ensures forall k | 0 <= k < |Removed(cons, con)| :: Removed(cons, con)[k] in cons && Removed(cons, con)[k] != con
      ensures forall i, j | 0 <= i < j < |Removed(cons, con)| ::
                Removed(cons, con)[i] != Removed(cons, con)[j] && Removed(cons, con)[i].id != Removed(cons, con)[j].id
    {
      if cons != [] && cons[0] != con {
        RemovedKeepsIds(cons[1..], con);
      }
    }

    /**
     * Stop tracking a client; `release` says the port may be let go of. A
     * client that had already closed itself leaves its dispatch entry behind,
     * because the entry is looked up by a socket that is no longer known.
     */
    method RemoveConnection(con: Connection) returns (release: bool)
      requires Valid() && con in connections
      modifies this`connections, this`connBySocket, con, selector
      ensures Valid() && con.IsClosed()
      ensures connections == Removed(old(connections), con)
      ensures forall c :: c in connections <==> c in old(connections) && c != con
      ensures release <==> connections == []
      ensures connBySocket == old(connBySocket) - {old(con.socket)}
      ensures Some(con.id) in old(connBySocket) ==>
                (Some(con.id) in connBySocket <==> old(con.socket).None?)
      ensures (forall c | c in old(connections) && c != con :: old(c.Settled())) ==> AllSettled()
      ensures con.accepted == old(con.accepted) && con.wire == old(con.wire)
    {
      connBySocket := connBySocket - {con.socket};
      con.Close();
      connections := Removed(connections, con);
      RemovedKeepsIds(old(connections), con);
      forall j | 0 <= j < |connections|
        ensures Wired(connections[j]) && connections[j].readPaused == readPaused
        ensures var c := connections[j]; c != con && c in old(connections) && unchanged(c)
      {
        var c := connections[j];
        assert c != con && c in old(connections);
        assert c.id != con.id;
      }
      release := connections == [];
    }

    /** Write what the socket takes; false when the client was dropped. */
    method Flush(con: Connection, out: WriteOutcome, now: int, os: Verdict) returns (kept: bool, release: bool)
      requires Valid() && con in connections
      requires out.Took? ==> out.count <= |con.outBuffer|
      modifies this`connections, this`connBySocket, con, selector
      ensures Valid()
      ensures kept <==> !(old(con.socket).Some? && old(con.outBuffer) != [] && out.Broken?)
      ensures connections == if kept then old(connections) else Removed(old(connections), con)
      ensures kept ==> con.Settled() && !release
      ensures old(AllSettled()) ==> AllSettled()
      ensures con.accepted == old(con.accepted) && old(con.wire) <= con.wire
    {
      var sent := WriteOut(con, out, now);
      if sent.None? {
        release := RemoveConnection(con);
        return false, release;
      }
      Rearm(con, os);
      return true, false;
    }

    method WriteOut(con: Connection, out: WriteOutcome, now: int) returns (sent: Option<nat>)
      requires Valid() && con in connections
      requires out.Took? ==> out.count <= |con.outBuffer|
      modifies con`outBuffer, con`lastWriteTime, con`wire
      ensures Valid()
      ensures sent.None? <==> con.socket.Some? && old(con.outBuffer) != [] && out.Broken?
      ensures old(con.wire) <= con.wire
    {
      ghost var k :| 0 <= k < |connections| && connections[k] == con;
      sent := con.Flush(out, now);
      assert forall j | 0 <= j < |connections| && j != k :: connections[j] != con && connections[j].id != con.id;
    }

    /** What a batch queues for everybody. */
    function Shared(effects: seq<Effect>): seq<byte> {
      if effects == [] then []
      else (if effects[0].Report? && control then effects[0].bytes else []) + Shared(effects[1..])
    }

    /** What it queues for its own client. */
    function Own(effects: seq<Effect>): seq<byte> {
      if effects == [] then []
      else (if effects[0].Answer? || control then effects[0].bytes else []) + Own(effects[1..])
    }

    /** What a read loop over these outcomes queues for the client it reads. */
    function Replies(outcomes: seq<ReadOutcome>): seq<byte> {
      if outcomes == [] || !outcomes[0].Received? then []
      else Own(outcomes[0].effects) + if outcomes[0].more && !outcomes[0].down then Replies(outcomes[1..]) else []
    }

    /** What it queues for each of the others. */
    function Reports(outcomes: seq<ReadOutcome>): seq<byte> {
      if outcomes == [] || !outcomes[0].Received? then []
      else Shared(outcomes[0].effects) + if outcomes[0].more && !outcomes[0].down then Reports(outcomes[1..]) else []
    }

    /** How a read loop over these outcomes ends, its client staying open. */
    static function Ends(outcomes: seq<ReadOutcome>): Ending {
      if outcomes == [] then Stopped
      else
        match outcomes[0]
        case Failed => Gone
        case Hangup => Gone
        case Nothing => Stopped
        case Received(_, down, more) => if down then PortDown else if more then Ends(outcomes[1..]) else Stopped
    }

    /** The first step that is not one of many decides how the loop ends. */
    static lemma {:induction false} EndsAt(outcomes: seq<ReadOutcome>, k: nat)
      requires k <= |outcomes|
      requires forall i | 0 <= i < k :: outcomes[i].Received? && outcomes[i].more && !outcomes[i].down
      ensures k == |outcomes| || outcomes[k].Nothing? ==> Ends(outcomes).Stopped?
      ensures k < |outcomes| && (outcomes[k].Hangup? || outcomes[k].Failed?) ==> Ends(outcomes).Gone?
      ensures k < |outcomes| && outcomes[k].Received? && outcomes[k].down ==> Ends(outcomes).PortDown?
      ensures k < |outcomes| && outcomes[k].Received? && !outcomes[k].down && !outcomes[k].more ==>
                Ends(outcomes).Stopped?
    {
      if k > 0 {
        EndsAt(outcomes[1..], k - 1);
      }
    }

    /** Queue a protocol's own answer to one client. */
    method Reply(con: Connection, reply: seq<byte>, now: int)
      requires Valid() && con in connections
      modifies con, selector
      ensures Valid() && Bigger(old(Now(con)), Now(con), reply) && Overflowed(old(Now(con)), Now(con), reply)
    {
      ghost var k :| 0 <= k < |connections| && connections[k] == con;
      assert forall j | 0 <= j < |connections| && j != k :: connections[j] != con && connections[j].id != con.id;
      if reply != [] {
        var _ := con.Send(reply, now);
      }
    }

    method Rearm(con: Connection, os: Verdict)
      requires Valid() && con in connections
      modifies con`socket, con`interest, selector
      ensures Valid() && con.Settled()
      ensures old(con.socket).None? ==> con.IsClosed()
      ensures os.Accepted? ==> con.socket == old(con.socket)
    {
      ghost var k :| 0 <= k < |connections| && connections[k] == con;
      assert forall j | 0 <= j < |connections| && j != k :: connections[j] != con && connections[j].id != con.id;
      con.UpdateInterest(os);
    }

    /** Whether every mask asked for in these batches is taken. */
    ghost predicate Willing(effects: seq<Effect>) {
      forall e | e in effects && e.Report? :: forall k: nat :: e.os(k).Accepted?
    }

    ghost predicate AllWilling(outcomes: seq<ReadOutcome>) {
      forall o | o in outcomes && o.Received? :: Willing(o.effects)
    }

    /** Since `was`, what each client was queued; the calm are still watched for what they want. */
    ghost predicate Since(was: map<Connection, Snap>, calm: set<Connection>, con: Connection, own: seq<byte>,
                          shared: seq<byte>, willing: bool)
      reads this, connections
    {
      forall c | c in connections ::
        && c in was && Bigger(was[c], Now(c), if c == con then own else shared)
        && (willing ==> Overflowed(was[c], Now(c), if c == con then own else shared))
        && (c != con && c in calm ==> c.Settled())
    }

    /** One thing a batch queues, for its own client or for everybody. */
    method Carry(con: Connection, e: Effect, now: int, ghost was: map<Connection, Snap>, ghost calm: set<Connection>,
                 ghost own: seq<byte>, ghost shared: seq<byte>, ghost willing: bool)
      requires Valid() && con in connections && Since(was, calm, con, own, shared, willing)
      requires willing ==> Willing([e])
      modifies connections, selector
      ensures Valid() && Since(was, calm, con, own + Own([e]), shared + Shared([e]), willing)
    {
      ghost var mid := map c | c in connections :: Now(c);
      CarryOne(con, e, now, mid);
      forall c | c in connections
        ensures var bytes := if c == con then own + Own([e]) else shared + Shared([e]);
                Bigger(was[c], Now(c), bytes) && (willing ==> Overflowed(was[c], Now(c), bytes))
      {
        if c == con {
          BiggerOn(was[c], mid[c], Now(c), own, Own([e]));
        } else {
          BiggerOn(was[c], mid[c], Now(c), shared, Shared([e]));
        }
      }
    }

    method CarryOne(con: Connection, e: Effect, now: int, ghost mid: map<Connection, Snap>)
      requires Valid() && con in connections
      requires forall c | c in connections :: c in mid && mid[c] == Now(c)
      modifies connections, selector
      ensures Valid()
      ensures forall c | c in connections :: Bigger(mid[c], Now(c), if c == con then Own([e]) else Shared([e]))
      ensures forall c | c in connections && c != con && old(c.Settled()) :: c.Settled()
      ensures Willing([e]) ==>
                forall c | c in connections :: Overflowed(mid[c], Now(c), if c == con then Own([e]) else Shared([e]))
    {
      assert [e][1..] == [] && e.bytes + [] == e.bytes && e in [e];
      forall c | c in connections
        ensures mid[c].accepted + [] == mid[c].accepted
      {
      }
      if e.Answer? {
        Reply(con, e.bytes, now);
      } else {
        SendSignalReport(e.bytes, now, e.os);
        forall c | c in connections
          ensures control ==> Bigger(mid[c], Now(c), e.bytes) && c.Settled()
          ensures control && Willing([e]) ==> Overflowed(mid[c], Now(c), e.bytes)
        {
          var k: nat :| k < |connections| && connections[k] == c;
          assert control ==> Told(connections[k], e.bytes, e.os(k));
        }
      }
    }

    lemma {:induction false} OwnConcat(a: seq<Effect>, b: seq<Effect>)
      ensures Own(a + b) == Own(a) + Own(b)
    {
      if a == [] {
        assert a + b == b;
      } else {
        assert (a + b)[1..] == a[1..] + b;
        OwnConcat(a[1..], b);
      }
    }

    lemma {:induction false} SharedConcat(a: seq<Effect>, b: seq<Effect>)
      ensures Shared(a + b) == Shared(a) + Shared(b)
    {
      if a == [] {
        assert a + b == b;
      } else {
        assert (a + b)[1..] == a[1..] + b;
        SharedConcat(a[1..], b);
      }
    }

    method CarryAll(con: Connection, effects: seq<Effect>, now: int, ghost was: map<Connection, Snap>,
                    ghost calm: set<Connection>, ghost own: seq<byte>, ghost shared: seq<byte>, ghost willing: bool)
      requires Valid() && con in connections && Since(was, calm, con, own, shared, willing)
      requires willing ==> Willing(effects)
      modifies connections, selector
      ensures Valid() && Since(was, calm, con, own + Own(effects), shared + Shared(effects), willing)
    {
      assert own + [] == own && shared + [] == shared;
      for i := 0 to |effects|
        invariant Valid() && Since(was, calm, con, own + Own(effects[..i]), shared + Shared(effects[..i]), willing)
      {
        EffectsMore(effects, i, own, shared);
        Carry(con, effects[i], now, was, calm, own + Own(effects[..i]), shared + Shared(effects[..i]), willing);
      }
      assert effects[..|effects|] == effects;
    }

    lemma EffectsMore(effects: seq<Effect>, i: nat, own: seq<byte>, shared: seq<byte>)
      requires i < |effects|
      ensures own + Own(effects[..i + 1]) == own + Own(effects[..i]) + Own([effects[i]])
      ensures shared + Shared(effects[..i + 1]) == shared + Shared(effects[..i]) + Shared([effects[i]])
    {
      assert effects[..i + 1] == effects[..i] + [effects[i]];
      OwnConcat(effects[..i], [effects[i]]);
      SharedConcat(effects[..i], [effects[i]]);
      Assoc(own, Own(effects[..i]), Own([effects[i]]));
      Assoc(shared, Shared(effects[..i]), Shared([effects[i]]));
    }

    /** What the loop has been through, and what it still has to go through. */
    ghost predicate Through(outcomes: seq<ReadOutcome>, i: nat, own: seq<byte>, shared: seq<byte>) {
      && i <= |outcomes|
      && own + Replies(outcomes[i..]) == Replies(outcomes)
      && shared + Reports(outcomes[i..]) == Reports(outcomes)
      && Ends(outcomes) == Ends(outcomes[i..])
    }

    lemma NextBatch(outcomes: seq<ReadOutcome>, i: nat, own: seq<byte>, shared: seq<byte>)
      requires i < |outcomes| && outcomes[i].Received? && Through(outcomes, i, own, shared)
      ensures var next := outcomes[i];
              var own', shared' := own + Own(next.effects), shared + Shared(next.effects);
              if next.down || !next.more then
                && own' == Replies(outcomes) && shared' == Reports(outcomes)
                && Ends(outcomes) == if next.down then PortDown else Stopped
              else own' <= Replies(outcomes) && shared' <= Reports(outcomes) && Through(outcomes, i + 1, own', shared')
    {
      var next, rest, tail := outcomes[i], outcomes[i..], outcomes[i + 1..];
      assert rest[0] == next && rest[1..] == tail;
      var mine := if next.more && !next.down then Replies(tail) else [];
      var theirs := if next.more && !next.down then Reports(tail) else [];
      assert Replies(rest) == Own(next.effects) + mine && Reports(rest) == Shared(next.effects) + theirs;
      Joined(Replies(outcomes), own, Own(next.effects), mine);
      Joined(Reports(outcomes), shared, Shared(next.effects), theirs);
    }

    static lemma Joined(all: seq<byte>, a: seq<byte>, b: seq<byte>, c: seq<byte>)
      requires all == a + (b + c)
      ensures all == a + b + c && a + b <= all && (c == [] ==> a + b == all)
    {
    }

    lemma LastBatch(outcomes: seq<ReadOutcome>, i: nat, own: seq<byte>, shared: seq<byte>)
      requires Through(outcomes, i, own, shared) && (i < |outcomes| ==> !outcomes[i].Received?)
      ensures own == Replies(outcomes) && shared == Reports(outcomes)
      ensures Ends(outcomes) == if i < |outcomes| && !outcomes[i].Nothing? then Gone else Stopped
    {
      assert own + [] == own && shared + [] == shared;
    }

    /** How far a read loop gets before it has nothing more to do. */
    method ReadAll(con: Connection, outcomes: seq<ReadOutcome>, now: int, ghost was: map<Connection, Snap>,
                   ghost calm: set<Connection>, ghost willing: bool)
        returns (end: Ending, ghost cut: bool, ghost own: seq<byte>, ghost shared: seq<byte>)
      requires Valid() && con in connections && Since(was, calm, con, [], [], willing) && was[con] == Now(con)
      requires willing ==> AllWilling(outcomes)
      modifies connections, selector
      ensures Valid() && Since(was, calm, con, own, shared, willing)
      ensures own <= Replies(outcomes) && shared <= Reports(outcomes)
      ensures if cut then end.Stopped? && con.IsClosed()
              else end == Ends(outcomes) && shared == Reports(outcomes) && own == Replies(outcomes)
      ensures end.Gone? && was[con].open ==> con.socket.Some?
    {
      var i := 0;
      cut, own, shared := false, [], [];
      while i < |outcomes|
        invariant Valid() && Since(was, calm, con, own, shared, willing)
        invariant con.IsClosed() ==> !was[con].open
        invariant Through(outcomes, i, own, shared)
      {
        var next := outcomes[i];
        if !next.Received? {
          LastBatch(outcomes, i, own, shared);
          return if next.Nothing? then Stopped else Gone, false, own, shared;
        }
        NextBatch(outcomes, i, own, shared);
        CarryAll(con, next.effects, now, was, calm, own, shared, willing);
        own, shared := own + Own(next.effects), shared + Shared(next.effects);
        if next.down {
          return PortDown, false, own, shared;
        }
        if con.IsClosed() || !next.more {
          return Stopped, next.more, own, shared;
        }
        i := i + 1;
      }
      LastBatch(outcomes, i, own, shared);
      end := Stopped;
    }

    /**
     * Read a client until it has nothing more to give. Its own batches may
     * close it for want of room, and it is then left for ProcessStale to
     * reap; or they may take the port down, and everybody with it.
     */
    method Read(con: Connection, outcomes: seq<ReadOutcome>, now: int, os: Verdict)
        returns (release: bool, ghost end: Ending, ghost cut: bool)
      requires Valid() && con in connections
      modifies this`connections, this`connBySocket, connections, selector
      ensures Valid() && (old(AllSettled()) ==> AllSettled())
      ensures Left(con, old(connections), end, release)
      ensures if cut then end.Stopped? && con.IsClosed() else end == Ends(outcomes)
      ensures Given(old(Now(con)), Now(con), Replies(outcomes), true,
                    AllWilling(outcomes) && end.Stopped? && (cut || os.Accepted?))
      ensures end.Gone? && old(con.socket).Some? ==> con.accepted == old(con.accepted) + Replies(outcomes)
      ensures forall c | c in old(connections) && c != con ::
                Given(old(Now(c)), Now(c), Reports(outcomes), !cut, AllWilling(outcomes) && !end.PortDown?)
    {
      ghost var was := map c | c in connections :: Now(c);
      ghost var calm := set c | c in connections && c.Settled();
      NothingYet(was, calm, con);
      ghost var own, shared, willing := [], [], AllWilling(outcomes);
      var how;
      ghost var before := connections;
      how, cut, own, shared := ReadAll(con, outcomes, now, was, calm, willing);
      assert connections == before;
      release := EndRead(con, how, os, was, calm, cut, own, shared, Replies(outcomes), Reports(outcomes), willing);
      end := how;
    }

    /** The end of a read loop that queued all of `mine` and `theirs`, or was cut short. */
    method EndRead(con: Connection, how: Ending, os: Verdict, ghost was: map<Connection, Snap>,
                   ghost calm: set<Connection>, ghost cut: bool, ghost own: seq<byte>, ghost shared: seq<byte>,
                   ghost mine: seq<byte>, ghost theirs: seq<byte>, ghost willing: bool) returns (release: bool)
      requires Valid() && con in connections && Since(was, calm, con, own, shared, willing)
      requires own <= mine && shared <= theirs
      requires if cut then how.Stopped? && con.IsClosed() else own == mine && shared == theirs
      modifies this`connections, this`connBySocket, connections, selector
      ensures Valid() && Left(con, old(connections), how, release)
      ensures cut ==> con.IsClosed()
      ensures (forall c | c in old(connections) && c != con :: c in calm) ==> AllSettled()
      ensures Given(was[con], Now(con), mine, true, willing && how.Stopped? && (cut || os.Accepted?))
      ensures old(con.socket).Some? ==> con.accepted == was[con].accepted + mine
      ensures forall c | c in old(connections) && c != con ::
                Given(was[c], Now(c), theirs, !cut, willing && !how.PortDown?)
    {
      ghost var mid := map c | c in connections :: Now(c);
      release := End(con, how, os);
      forall c | c in old(connections) && c != con
        ensures Given(was[c], Now(c), theirs, !cut, willing && !how.PortDown?)
      {
        GivenFrom(was[c], mid[c], Now(c), shared, theirs, !cut, willing && !how.PortDown?);
      }
      ghost var safe := willing && how.Stopped? && (cut || os.Accepted?);
      GivenFrom(was[con], mid[con], Now(con), own, mine, true, safe);
    }

    lemma NothingYet(was: map<Connection, Snap>, calm: set<Connection>, con: Connection)
      requires Valid() && forall c | c in connections :: c in was && was[c] == Now(c) && (c in calm ==> c.Settled())
      ensures Since(was, calm, con, [], [], true)
    {
      forall c | c in connections
        ensures Bigger(was[c], Now(c), [])
      {
        assert was[c].accepted + [] == was[c].accepted;
      }
    }

    /** Who is still tracked after a read loop that ended so. */
    ghost predicate Left(con: Connection, before: seq<Connection>, end: Ending, release: bool)
      reads this, con, before
    {
      && (end.PortDown? ==> connections == [] && forall c | c in before :: c.IsClosed())
      && (end.Gone? ==> connections == Removed(before, con) && con.IsClosed())
      && (end.Stopped? ==> connections == before && con.Settled())
      && (release <==> end.Gone? && connections == [])
    }

    method End(con: Connection, how: Ending, os: Verdict) returns (release: bool)
      requires Valid() && con in connections
      modifies this`connections, this`connBySocket, connections, selector
      ensures Valid() && Left(con, old(connections), how, release)
      ensures forall c | c in old(connections) ::
                Now(c) == old(Now(c)) || Now(c) == old(Now(c)).(open := false)
      ensures !how.PortDown? ==> forall c | c in old(connections) && c != con :: Now(c) == old(Now(c))
      ensures how.Stopped? && (os.Accepted? || old(con.IsClosed())) ==> Now(con) == old(Now(con))
      ensures (forall c | c in old(connections) && c != con :: old(c.Settled())) ==> AllSettled()
    {
      release := false;
      match how
      case PortDown =>
        CloseConnections();
      case Gone =>
        release := RemoveConnection(con);
      case Stopped =>
        if !con.IsClosed() {
          Rearm(con, os);
        }
    }

    /** Reap one client if it closed itself or stopped taking bytes. */
    method Reap(con: Connection, now: int) returns (release: bool)
      requires Valid() && con in connections
      modifies this`connections, this`connBySocket, con, selector
      ensures Valid()
      ensures var reaped := old(con.socket).None? || old(con.IsStale(now));
              if reaped then con.IsClosed() && forall c :: c in connections <==> c in old(connections) && c != con
              else unchanged(con) && connections == old(connections)
      ensures release <==> connections == []
    {
      release := false;
      if con.IsClosed() || con.IsStale(now) {
        release := RemoveConnection(con);
      }
    }

    /** Reap everyone who closed themselves or stopped taking bytes. */
    method ProcessStale(now: int) returns (release: bool)
      requires Valid()
      modifies this`connections, this`connBySocket, connections, selector
      ensures Valid()
      ensures forall c | c in old(connections) ::
                if old(c.socket).None? || old(c.outBuffer != [] && c.lastWriteTime + c.sendTimeout < now)
                then c !in connections && c.IsClosed()
                else c in connections && unchanged(c)
      ensures forall c | c in connections :: c in old(connections)
      ensures release <==> connections == [] && old(connections) != []
    {
      var snapshot := connections;
      var i := 0;
      release := false;
      while i < |snapshot|
        invariant 0 <= i <= |snapshot| && snapshot == old(connections)
        invariant Valid()
        invariant forall j | i <= j < |snapshot| :: snapshot[j] in connections && unchanged(snapshot[j])
        invariant forall j | 0 <= j < i ::
          if old(snapshot[j].socket).None? || old(snapshot[j].IsStale(now))
          then snapshot[j] !in connections && snapshot[j].IsClosed()
          else snapshot[j] in connections && unchanged(snapshot[j])
        invariant forall c | c in connections :: c in snapshot
        invariant release <==> connections == [] && snapshot != []
      {
        var con := snapshot[i];
        assert forall j | 0 <= j < |snapshot| && j != i :: snapshot[j] != con;
        var last := Reap(con, now);
        release := release || last;
        i := i + 1;
      }
    }

    method PopConnection() returns (con: Connection)
      requires Valid() && connections != []
      modifies this`connections, this`connBySocket, connections[|connections| - 1], selector
      ensures Valid() && con == old(connections)[|old(connections)| - 1]
      ensures connections == old(connections)[..|old(connections)| - 1]
      ensures connBySocket == old(connBySocket) - {old(con.socket)}
      ensures con.IsClosed() && con.wire == old(con.wire) && con.accepted == old(con.accepted)
      ensures selector != null ==> SameElsewhere(old(selector.watched), selector.watched, con.id)
      ensures selector != null && old(con.selector) != null ==> con.id !in selector.watched
    {
      con := connections[|connections| - 1];
      assert forall j | 0 <= j < |connections| - 1 :: connections[j] != con && connections[j].id != con.id;
      connections := connections[..|connections| - 1];
      connBySocket := connBySocket - {con.socket};
      con.Close();
    }

    /** Close everyone, as when the device has gone. */
    method CloseConnections()
      requires Valid()
      modifies this`connections, this`connBySocket, connections, selector
      ensures Valid() && connections == []
      ensures forall c | c in old(connections) :: c.IsClosed() && c.wire == old(c.wire) && c.accepted == old(c.accepted)
      ensures connBySocket == old(connBySocket) - set c | c in old(connections) :: old(c.socket)
      ensures selector != null ==>
                forall c | c in old(connections) && old(c.selector) != null :: c.id !in selector.watched
    {
      ghost var was := connections;
      while connections != []
        invariant Valid() && connections <= was && was == old(connections)
        invariant forall j | |connections| <= j < |was| ::
          was[j].IsClosed() && was[j].wire == old(was[j].wire) && was[j].accepted == old(was[j].accepted) &&
          (selector != null && old(was[j].selector) != null ==> was[j].id !in selector.watched)
        invariant forall j | 0 <= j < |connections| :: unchanged(was[j])
        invariant connBySocket == old(connBySocket) - set c | c in was[|connections|..] :: old(c.socket)
        decreases |connections|
      {
        var con := connections[|connections| - 1];
        assert con == was[|connections| - 1];
        assert forall j | 0 <= j < |was| && j != |connections| - 1 :: was[j] != con && was[j].id != con.id;
        assert was[|connections| - 1..] == [con] + was[|connections|..];
        var _ := PopConnection();
      }
      assert was[0..] == was;
    }
  }
}
