// One serial port shared by its servers: who holds the device open, what
// every WebSocket client has been told about it, and which servers survive
// a change of configuration.
module Ports {
  import opened Bytes
  import opened Lists
  import opened Wrappers
  import opened Signals
  import opened SignalDeltas
  import opened Mail
  import Matching

  type Client = nat

  const REOPEN_INTERVAL: int := 2000      // in milliseconds

  /** `text` is the canonical rendering two equal configurations share. */
  datatype ServerConfig = ServerConfig(
    text: string, websocket: bool, maxConnections: nat, control: bool, canRead: bool, names: seq<Line>)

  function Texts(configs: seq<ServerConfig>): (texts: seq<string>)
    ensures |texts| == |configs| && forall i | 0 <= i < |configs| :: texts[i] == configs[i].text
  {
    seq(|configs|, i requires 0 <= i < |configs| => configs[i].text)
  }

  /** The lines an endpoint is configured to show: none without the control role. */
  function NamesOf(config: ServerConfig): seq<Line> {
    if config.control then config.names else []
  }

  /** How it shows them. */
  function Configured(config: ServerConfig, lines: byte): Reading {
    Named(lines, NamesOf(config))
  }

  /** A line is shown iff the endpoint has the control role, names it, and it is one; and as its bit says. */
  lemma ConfiguredLines(config: ServerConfig, lines: byte, line: Line)
    ensures line in Configured(config, lines) <==> config.control && line in config.names && !line.Unknown?
    ensures line in Configured(config, lines) ==>
              Configured(config, lines)[line] ==
              match line
              case Rts => lines & 0x01 != 0
              case Dtr => lines & 0x02 != 0
              case Cts => lines & 0x04 != 0
              case Dsr => lines & 0x08 != 0
              case Ri => lines & 0x10 != 0
              case Cd => lines & 0x20 != 0
              case Unknown(_) => false
  {
  }

  /** The running server each new entry keeps. */
  function KeptFor(was: seq<ServerConfig>, now: seq<ServerConfig>): (kept: seq<Option<nat>>)
    ensures |kept| == |now|
  {
    Matching.Kept(Texts(was), Texts(now))
  }

  /** The running servers nothing is left for, in the order they are closed. */
  function RemovedFor(was: seq<ServerConfig>, now: seq<ServerConfig>): seq<nat> {
    Matching.Leftovers(Texts(was), Texts(now))
  }

  /** They are closed key by key as the keys first come in the old configuration. */
  lemma RemovedInOrder(was: seq<ServerConfig>, now: seq<ServerConfig>)
    ensures var removed := RemovedFor(was, now);
            && (forall a | 0 <= a < |removed| :: removed[a] < |was|)
            && (forall a, b | 0 <= a < b < |removed| && was[removed[a]].text == was[removed[b]].text ::
                  removed[a] < removed[b])
            && forall a, b | 0 <= a < b < |removed| && was[removed[a]].text != was[removed[b]].text ::
                 exists i | 0 <= i < |was| ::
                   was[i].text == was[removed[a]].text && forall h | 0 <= h < i :: was[h].text != was[removed[b]].text
  {
    var texts, removed := Texts(was), RemovedFor(was, now);
    Matching.LeftoversAre(texts, Texts(now));
    Matching.LeftoversInOrder(texts, Texts(now));
    Matching.InOrder(texts, removed);
    forall a, b | 0 <= a < b < |removed| && was[removed[a]].text != was[removed[b]].text
      ensures exists i | 0 <= i < |was| ::
                was[i].text == was[removed[a]].text && forall h | 0 <= h < i :: was[h].text != was[removed[b]].text
    {
      assert texts[removed[a]] != texts[removed[b]];
      var i :| 0 <= i < |texts| && texts[i] == texts[removed[a]] && texts[removed[b]] !in texts[..i];
      assert forall h | 0 <= h < i :: texts[..i][h] == texts[h];
      assert was[i].text == was[removed[a]].text;
    }
  }

  /** The match of the two configurations: who is kept, and who is left over. */
  ghost predicate Matched(was: seq<ServerConfig>, now: seq<ServerConfig>, kept: seq<Option<nat>>, removed: seq<nat>) {
    && kept == KeptFor(was, now) && removed == RemovedFor(was, now)
    && forall i: nat :: i in removed <==> i < |was| && Some(i) !in kept
  }

  /** No running server is taken twice. */
  ghost predicate OneEach(kept: seq<Option<nat>>) {
    forall i, j {:trigger Apart(kept[i], kept[j])} | 0 <= i < j < |kept| && kept[i].Some? :: Apart(kept[i], kept[j])
  }

  lemma TakenOnce(kept: seq<Option<nat>>)
    requires OneEach(kept)
    ensures forall i, j | 0 <= i < j < |kept| && kept[i].Some? :: kept[i] != kept[j]
  {
    forall i, j | 0 <= i < j < |kept| && kept[i].Some?
      ensures kept[i] != kept[j]
    {
      assert Apart(kept[i], kept[j]);
    }
  }

  /** One server at one moment. */
  datatype Station = Station(
    connections: seq<Client>, attached: seq<Client>, greeted: set<Client>, reported: Option<Reading>,
    inbox: map<Client, seq<Frame>>, synced: set<Client>, closed: bool)

  /** From one moment to another a server heard that the device went, if it did, and nothing else. */
  ghost predicate Follows(websocket: bool, a: Station, b: Station, wasOpen: bool, open: bool) {
    if open == wasOpen then a == b
    else
      && b == Station(a.connections, a.attached, a.greeted, b.reported, b.inbox, b.synced, a.closed)
      && b.inbox.Keys == a.inbox.Keys && a.synced <= b.synced
      && (websocket ==>
            && b.synced == b.greeted && b.reported == None
            && forall c | c in b.inbox ::
                 b.inbox[c] == a.inbox[c] + if c in b.greeted then FramesFor(a.reported, Lost) else [])
  }

  lemma FollowsOn(websocket: bool, a: Station, b: Station, c: Station, first: bool, second: bool, third: bool)
    requires third ==> second
    requires second ==> first
    requires Follows(websocket, a, b, first, second) && Follows(websocket, b, c, second, third)
    ensures Follows(websocket, a, c, first, third)
  {
  }

  /** Clients may have gone; of the rest none lost mail, or fell out of step. */
  ghost predicate Fewer(a: Station, b: Station) {
    && b.greeted <= a.greeted && a.synced * b.greeted <= b.synced
    && forall c | c in a.inbox :: c in b.inbox && a.inbox[c] <= b.inbox[c]
  }

  /** One client may have gone. */
  ghost predicate Less(a: Station, b: Station, c: Client, gone: bool) {
    && Fewer(a, b)
    && (forall x :: x in b.connections <==> x in a.connections && !(gone && x == c))
    && (forall x :: x in b.attached <==> x in a.attached && !(gone && x == c))
  }

  /** Device data has reached one attached client, or cost it its place. */
  ghost predicate Fed(a: Station, b: Station, c: Client, fails: bool, data: seq<byte>) {
    && Less(a, b, c, fails)
    && (!fails ==> c in a.inbox && b.inbox == a.inbox[c := a.inbox[c] + [Data(data)]])
    && (fails && b.attached != [] ==> b.inbox == a.inbox)
  }

  /** It has reached all of these. */
  ghost predicate Served(a: Station, b: Station, done: seq<Client>, failing: set<Client>, data: seq<byte>) {
    && Fewer(a, b)
    && (forall c :: c in b.connections <==> c in a.connections && !(c in done && c in failing))
    && (forall c :: c in b.attached <==> c in a.attached && !(c in done && c in failing))
    && (forall c | c in b.attached :: c in b.inbox && c in a.inbox &&
          b.inbox[c] == a.inbox[c] + if c in done then [Data(data)] else [])
  }

  /** These have gone, if they had to. */
  ghost predicate Reaped(a: Station, b: Station, done: seq<Client>, dead: set<Client>) {
    && Fewer(a, b)
    && (forall c :: c in b.connections <==> c in a.connections && !(c in done && c in dead))
    && (forall c :: c in b.attached <==> c in a.attached && !(c in done && c in dead))
  }

  lemma ReapedOn(a: Station, m: Station, b: Station, done: seq<Client>, c: Client, dead: set<Client>)
    requires Reaped(a, m, done, dead) && Less(m, b, c, c in dead)
    ensures Reaped(a, b, done + [c], dead)
  {
  }

  lemma ServedOn(a: Station, m: Station, b: Station, done: seq<Client>, c: Client, failing: set<Client>,
                 data: seq<byte>)
    requires Served(a, m, done, failing, data) && Fed(m, b, c, c in failing, data) && c !in done
    ensures Served(a, b, done + [c], failing, data)
  {
    forall x | x in b.attached
      ensures x in b.inbox && x in a.inbox
      ensures b.inbox[x] == a.inbox[x] + if x in done + [c] then [Data(data)] else []
    {
      assert x in m.attached;
    }
  }

  lemma NoneServed(a: Station, failing: set<Client>, data: seq<byte>)
    requires forall c | c in a.attached :: c in a.inbox
    ensures Served(a, a, [], failing, data)
  {
    assert forall c | c in a.attached :: a.inbox[c] + [] == a.inbox[c];
  }

  class PortServer {
    const port: SerialProxy
    const config: ServerConfig
    const names: seq<Line>
    var connections: seq<Client>
    var attachedList: seq<Client>          // of a WebSocket endpoint
    var greeted: set<Client>
    var reported: Option<Reading>

    // History: each client's mail, and those whose lines are the ones last reported.
    ghost var inbox: map<Client, seq<Frame>>
    ghost var synced: set<Client>
    ghost var closed: bool

    ghost function Now(): Station
      reads this
    {
      Station(connections, attachedList, greeted, reported, inbox, synced, closed)
    }

    /** Whose claims keep the device: every socket client, but only attached WebSocket ones. */
    function Attached(): seq<Client>
      reads this
    {
      if config.websocket then attachedList else connections
    }

    ghost function Lines(): set<Line> {
      set line | line in names && SignalBit(line).Some?
    }

    ghost predicate Lists()
      reads this
    {
      && Distinct(connections) && Distinct(attachedList) && names == NamesOf(config)
      && (forall c | c in attachedList :: c in connections)
      && (forall c | c in greeted :: c in connections)
      && (!config.websocket ==> attachedList == [] && greeted == {})
    }

    /** Greeted first, and told about the device exactly as it is. */
    ghost predicate Informed(c: Client, open: bool)
      reads this
    {
      c in inbox && if c in greeted then Knows(inbox[c], open, Lines()) else inbox[c] == []
    }

    /** The lines of a client are the ones last reported. */
    ghost predicate InStep(c: Client)
      reads this
    {
      c in inbox && View(inbox[c]) == Shown(reported)
    }

    ghost predicate Reports(open: bool)
      reads this
    {
      && Covers(reported, Lines()) && (reported.Some? ==> open)
      && (reported.None? && open && Lines() != {} ==> greeted == {})
      && synced <= greeted && (!open ==> synced == greeted)
      && forall c | c in greeted :: c in synced <==> InStep(c)
    }

    ghost predicate Ok(open: bool)
      reads this
    {
      && Lists()
      && (config.websocket ==> Reports(open) && forall c | c in connections :: Informed(c, open))
    }

    twostate predicate SameStanding()
      reads this
    {
      && attachedList == old(attachedList) && greeted == old(greeted)
      && inbox.Keys == old(inbox).Keys && closed == old(closed) && old(synced) <= synced
    }

    /** Nothing a client was ever sent is taken back. */
    twostate predicate MailKept()
      reads this
    {
      forall c | c in old(inbox) :: c in inbox && old(inbox)[c] <= inbox[c]
    }

    /** Everyone greeted was sent exactly the frames for this turn. */
    twostate predicate Turned(turn: Turn)
      reads this
    {
      && reported == ReportedAfter(old(reported), turn)
      && inbox.Keys == old(inbox).Keys
      && forall c | c in inbox ::
           inbox[c] == old(inbox)[c] + if c in greeted then FramesFor(old(reported), turn) else []
    }

    /** Whoever was in step and is still here is in step. */
    twostate predicate StepKept()
      reads this
    {
      old(synced) * greeted <= synced
    }

    twostate predicate Silent()
      reads this
    {
      reported == old(reported) && inbox == old(inbox)
    }

    twostate predicate SameLists()
      reads this
    {
      connections == old(connections) && SameStanding()
    }

    constructor (config: ServerConfig, port: SerialProxy)
      ensures this.config == config && this.port == port && names == NamesOf(config)
      ensures connections == [] && attachedList == [] && !closed && Ok(true) && Ok(false)
    {
      this.config, this.port := config, port;
      names := NamesOf(config);
      connections, attachedList, greeted, reported := [], [], {}, None;
      inbox, synced, closed := map[], {}, false;
    }

    /** The frame goes to the greeted and to nobody still joining. */
    method Broadcast(f: Frame)
      requires Lists() && forall c | c in greeted :: c in inbox
      modifies this`inbox
      ensures inbox.Keys == old(inbox).Keys
      ensures forall c | c in inbox :: inbox[c] == if c in greeted then old(inbox[c]) + [f] else old(inbox[c])
    {
      for i := 0 to |connections|
        invariant inbox.Keys == old(inbox).Keys
        invariant forall c | c in inbox ::
          inbox[c] == if c in connections[..i] && c in greeted then old(inbox[c]) + [f] else old(inbox[c])
      {
        assert connections[..i + 1] == connections[..i] + [connections[i]];
        NotBefore(connections, i);
        if connections[i] in greeted {
          inbox := inbox[connections[i] := inbox[connections[i]] + [f]];
        }
      }
      assert connections[..|connections|] == connections;
    }

    method CurrentSignals(lines: byte) returns (signals: Reading)
      requires Lists()
      ensures signals == if port.open then Configured(config, lines) else map[]
    {
      if !port.open {
        return map[];
      }
      signals := SignalsDict(lines, names);
    }

    /** What follows for everyone's mail once a turn has been told. */
    lemma Heard(before: map<Client, seq<Frame>>, was: Option<Reading>, turn: Turn, open: bool, now: bool,
                step: set<Client>)
      requires Lists() && Covers(was, Lines()) && Reads(turn, Lines()) && Brings(turn, open, now)
      requires forall c | c in connections :: c in before && c in inbox
      requires forall c | c in connections ::
                 if c in greeted then Knows(before[c], open, Lines()) && inbox[c] == before[c] + FramesFor(was, turn)
                 else inbox[c] == before[c] == []
      requires reported == ReportedAfter(was, turn)
      requires step <= greeted && forall c | c in step :: View(before[c]) == Shown(was)
      ensures forall c | c in connections :: Informed(c, now)
      ensures Covers(reported, Lines())
      ensures forall c | c in step || (c in greeted && (turn.Polled? ==> was.None?)) :: InStep(c)
    {
      forall c | c in greeted
        ensures Informed(c, now)
        ensures c in step || (turn.Polled? ==> was.None?) ==> InStep(c)
      {
        TurnKnown(before[c], was, turn, open, now, Lines());
        if c in step {
          TurnInStep(before[c], was, turn, Lines());
        } else if turn.Polled? ==> was.None? {
          TurnRenews(before[c], was, turn, Lines());
        }
      }
    }

    /** A socket server loses its clients; an endpoint keeps them, and tells them. */
    method OnSerialLost()
      requires Ok(true)
      modifies this
      ensures Ok(false) && SameStanding()
      ensures connections == if config.websocket then old(connections) else []
      ensures config.websocket ==> Turned(Lost) && synced == greeted
    {
      if !config.websocket {
        connections := [];
        return;
      }
      ghost var before, was, step := inbox, reported, synced;
      reported := None;
      Broadcast(SerialState(false, map[]));
      Heard(before, was, Lost, true, false, step);
      synced := greeted;
    }

    /** A frame that shows every line, which is then what differences are held against. */
    method OnSerialFound(lines: byte)
      requires Ok(false) && port.open
      modifies this
      ensures Ok(true) && SameLists()
      ensures config.websocket ==> Turned(Found(Configured(config, lines))) && synced == greeted
    {
      if !config.websocket {
        return;
      }
      ghost var before, was, step := inbox, reported, synced;
      var signals := CurrentSignals(lines);
      if signals != map[] {
        reported := Some(signals);
      }
      Broadcast(SerialState(true, signals));
      Heard(before, was, Found(signals), false, true, step);
      synced := greeted;
    }

    /** Only the lines that differ from the last report, and no frame if none do. */
    method SendSignalReport(lines: byte)
      requires Ok(true) && config.websocket
      modifies this`reported, this`inbox, this`synced
      ensures Ok(true) && SameLists()
      ensures if config.control then Turned(Polled(Configured(config, lines))) else Silent()
      ensures config.control && old(reported).None? ==> synced == greeted
    {
      if !config.control {
        return;
      }
      var signals := SignalsDict(lines, names);
      BroadcastChanges(signals);
      synced := set c | c in greeted && InStep(c);
    }

    /** The difference goes out, and the reading becomes what the next is held against. */
    method BroadcastChanges(signals: Reading)
      requires Ok(true) && config.websocket && signals.Keys == Lines()
      modifies this`reported, this`inbox
      ensures Turned(Polled(signals)) && forall c | c in connections :: Informed(c, true)
      ensures forall c | c in synced || (c in greeted && old(reported).None?) :: InStep(c)
    {
      ghost var before, was := inbox, reported;
      var changed := Changed(reported, signals);
      reported := Some(signals);
      forall c | c in before
        ensures before[c] + [] == before[c]
      {
      }
      if changed != map[] {
        Broadcast(Report(changed));
      }
      Heard(before, was, Polled(signals), true, true, synced);
    }

    // ---- WebSocket clients come, go, attach and detach

    ghost predicate Member()
      reads port
    {
      this in port.servers
    }

    /** The device after this event: still open unless a claim went and nobody holds it. */
    ghost predicate Released(wasOpen: bool, gone: bool)
      reads port, port.servers
    {
      port.open == (wasOpen && (gone ==> port.HasConnections()))
    }

    twostate predicate OthersStay()
      reads port, port.servers
    {
      port.servers == old(port.servers) && forall s | s in port.servers && s != this :: s.SameLists()
    }

    /** The others, and what they were when the device was found `wasOpen`. */
    ghost predicate OthersSince(was: map<PortServer, Station>, wasOpen: bool)
      reads port, port.servers
    {
      && (port.open ==> wasOpen)
      && forall s | s in port.servers && s != this ::
           s in was && Follows(s.config.websocket, was[s], s.Now(), wasOpen, port.open)
    }

    /** What losing a client may do to the device. */
    twostate predicate Parted(c: Client, gone: bool)
      reads this, port, port.servers
    {
      && port.servers == old(port.servers)
      && Released(old(port.open), gone && c in old(attachedList))
      && (port.HasConnections() ==> old(port.HasConnections()))
      && (!(gone && c in old(attachedList)) ==> port.HasConnections() == old(port.HasConnections()))
    }

    /** Nobody else's clients come, go, attach or detach, or hear of more than the device. */
    twostate predicate OthersKept(lines: byte)
      reads port, port.servers
    {
      port.servers == old(port.servers) && forall s | s in port.servers && s != this :: port.KeptUp(s, lines)
    }

    /**
     * Give a client a claim. Only the port limit refuses it: a missing
     * device is no reason to.
     */
    method Attach(c: Client, there: bool, lines: byte) returns (ok: bool)
      requires port.Coherent() && port.Limited() && Member() && config.websocket
      modifies port`open, port`announced, port.servers
      ensures port.Coherent() && port.Limited() && OthersKept(lines)
      ensures ok <==>
                c in old(connections) && (c in old(attachedList) || port.max == 0 || old(port.Total()) < port.max)
      ensures attachedList == old(attachedList) + if ok && c !in old(attachedList) then [c] else []
      ensures connections == old(connections) && greeted == old(greeted)
      ensures closed == old(closed) && StepKept()
      ensures if port.open == old(port.open) then Silent() else Turned(Found(Configured(config, lines)))
      ensures port.open == (old(port.open) || (ok && c !in old(attachedList) && there))
      ensures old(port.Held()) || ok ==> port.Held()
    {
      if c !in connections {
        return false;
      }
      if c in attachedList {
        assert Attached() != [];
        return true;
      }
      if !port.CanAddConnection() {
        return false;
      }
      ConnectAndJoin(c, there, lines);
      ok := true;
    }

    method ConnectAndJoin(c: Client, there: bool, lines: byte)
      requires port.Coherent() && port.CanAddConnection() && Member() && config.websocket
      requires c in connections && c !in attachedList
      modifies port`open, port`announced, port.servers
      ensures port.Coherent() && port.Limited() && OthersKept(lines)
      ensures attachedList == old(attachedList) + [c]
      ensures connections == old(connections) && greeted == old(greeted)
      ensures closed == old(closed) && StepKept()
      ensures if port.open == old(port.open) then Silent() else Turned(Found(Configured(config, lines)))
      ensures port.open == (old(port.open) || there) && port.HasConnections()
    {
      ConnectPort(there, lines);
      label connected:
      Join(c);
      forall s | s in port.servers && s != this
        ensures port.KeptUp(s, lines)
      {
        assert unchanged@connected(s);
      }
    }

    /** Connect, as this server sees it. */
    method ConnectPort(there: bool, lines: byte)
      requires port.Coherent() && port.CanAddConnection() && Member()
      modifies port`open, port`announced, port.servers
      ensures port.Coherent() && port.CanAddConnection() && OthersKept(lines) && SameLists()
      ensures port.open == (old(port.open) || there)
      ensures config.websocket ==>
                if port.open == old(port.open) then Silent() else Turned(Found(Configured(config, lines)))
    {
      var _ := port.Connect(there, lines);
      assert this in port.servers && (port.open != old(port.open) ==> port.Told(this, true, lines));
    }

    method Join(c: Client)
      requires port.Coherent() && port.CanAddConnection() && Member() && config.websocket
      requires c in connections && c !in attachedList
      modifies this`attachedList
      ensures port.Coherent() && port.Limited() && port.HasConnections()
      ensures attachedList == old(attachedList) + [c]
    {
      ghost var before := Sizes(port.servers);
      AddAttached(c, port.open);
      GrownByOne(before, port.servers, this);
      assert Attached() != [];
    }

    method AddAttached(c: Client, ghost told: bool)
      requires Ok(told) && config.websocket && c in connections && c !in attachedList
      modifies this`attachedList
      ensures Ok(told) && attachedList == old(attachedList) + [c]
    {
      attachedList := attachedList + [c];
    }

    method DropAttached(c: Client, ghost told: bool)
      requires Ok(told) && config.websocket
      modifies this`attachedList
      ensures Ok(told) && attachedList == Removed(old(attachedList), c) && c !in attachedList
      ensures |attachedList| <= old(|attachedList|)
    {
      RemovedMembers(attachedList, c);
      attachedList := Removed(attachedList, c);
    }

    method DropConnection(c: Client, ghost told: bool)
      requires Ok(told) && config.websocket && c !in attachedList
      modifies this`connections, this`greeted, this`synced, this`reported
      ensures Ok(told) && connections == Removed(old(connections), c)
      ensures reported == if connections == [] then None else old(reported)
      ensures greeted == old(greeted) - {c} && StepKept() && MailKept()
    {
      Unlist(c, told);
      if connections == [] {
        reported := None;
      }
    }

    method Unlist(c: Client, ghost told: bool)
      requires Ok(told) && config.websocket && c !in attachedList
      modifies this`connections, this`greeted, this`synced
      ensures Ok(told) && connections == Removed(old(connections), c)
      ensures greeted == old(greeted) - {c} && StepKept() && MailKept()
    {
      RemovedMembers(connections, c);
      connections := Removed(connections, c);
      greeted := greeted - {c};
      synced := synced - {c};
    }

    method Leave(c: Client)
      requires port.Coherent() && Member() && config.websocket
      modifies this`attachedList
      ensures port.Coherent() && attachedList == Removed(old(attachedList), c) && c !in attachedList
      ensures port.Total() <= old(port.Total())
    {
      DropAttached(c, port.open);
      SumMonotone(Sizes(port.servers), old(Sizes(port.servers)));
    }

    method Forget(c: Client)
      requires port.Coherent() && Member() && config.websocket && c !in attachedList
      modifies this`connections, this`greeted, this`synced, this`reported
      ensures port.Coherent() && connections == Removed(old(connections), c)
      ensures inbox == old(inbox) && reported == if connections == [] then None else old(reported)
      ensures greeted == old(greeted) - {c} && StepKept() && MailKept()
      ensures port.SameHolders()
    {
      DropConnection(c, port.open);
      SizesKept(port.servers);
    }

    /** Disconnect: the device stays open for whoever still holds it. */
    method LetGo()
      requires port.Coherent() && port.Limited() && Member()
      modifies port`open, port`announced, port.servers
      ensures port.Coherent() && port.Limited() && port.Held()
      ensures OthersKept(0) && SameLists()
      ensures port.open == (old(port.open) && port.HasConnections())
      ensures config.websocket ==> if port.open == old(port.open) then Silent() else Turned(Lost)
      ensures Attached() != [] ==> port.open == old(port.open)
    {
      assert Attached() != [] ==> port.HasConnections();
      port.Disconnect();
    }

    /** Give up one claim; the last one takes the device with it. */
    method Detach(c: Client)
      requires port.Coherent() && port.Limited() && Member() && config.websocket
      modifies port`open, port`announced, port.servers
      ensures port.Coherent() && port.Limited() && OthersKept(0)
      ensures attachedList == Removed(old(attachedList), c) && c !in attachedList
      ensures connections == old(connections) && greeted == old(greeted)
      ensures closed == old(closed) && StepKept()
      ensures if port.open == old(port.open) then Silent() else Turned(Lost)
      ensures Released(old(port.open), c in old(attachedList))
      ensures attachedList != [] ==> port.HasConnections()
      ensures old(port.Held()) || c in old(attachedList) ==> port.Held()
    {
      if c !in attachedList {
        NotThere(attachedList, c);
        return;
      }
      Leave(c);
      label left:
      LetGo();
      forall s | s in port.servers && s != this
        ensures port.KeptUp(s, 0)
      {
        assert port.KeptUp@left(s, 0);
      }
    }

    /** Forget a client; its claim on the port goes with it. */
    method RemoveConnection(c: Client)
      requires port.Coherent() && port.Limited() && Member() && config.websocket
      modifies port`open, port`announced, port.servers
      ensures port.Coherent() && port.Limited() && OthersKept(0)
      ensures connections == Removed(old(connections), c) && c !in connections
      ensures c in old(connections) ==> attachedList == Removed(old(attachedList), c)
      ensures c !in old(connections) ==> SameLists()
      ensures greeted == old(greeted) - {c} && closed == old(closed) && StepKept() && MailKept()
      ensures Released(old(port.open), c in old(attachedList))
      ensures old(port.Held()) || c in old(attachedList) ==> port.Held()
      ensures attachedList != [] ==> inbox == old(inbox)
      ensures c in old(connections) ==>
                reported == if connections == [] || port.open != old(port.open) then None else old(reported)
      ensures inbox.Keys == old(inbox).Keys && forall x | x in inbox ::
                inbox[x] == old(inbox)[x] +
                            (if port.open != old(port.open) && x in old(greeted) then FramesFor(old(reported), Lost)
                             else [])
    {
      RemovedMembers(connections, c);
      if c !in connections {
        NotThere(connections, c);
        return;
      }
      Detach(c);
      label detached:
      Forget(c);
      forall s | s in port.servers && s != this
        ensures port.KeptUp(s, 0)
      {
        assert unchanged@detached(s);
      }
    }

    /**
     * A joiner is in step unless a baseline was there and its greeting is
     * not that; and it moves no baseline that was there.
     */
    ghost predicate Greeting(c: Client, before: Option<Reading>, signals: Reading)
      reads this
    {
      && (c in synced <==> before.None? || before.value == signals)
      && reported == if before.Some? || signals == map[] then before else Some(signals)
    }

    /** The one frame a client is greeted with. */
    method SendHello(c: Client, lines: byte)
      requires port.Coherent() && Member() && config.websocket
      requires c in connections && c !in greeted
      modifies this`reported, this`greeted, this`inbox, this`synced
      ensures port.Coherent() && greeted == old(greeted) + {c} && inbox.Keys == old(inbox).Keys
      ensures inbox[c] == [Hello(port.open, c in attachedList, if port.open then Configured(config, lines) else map[])]
      ensures Greeting(c, old(reported), if port.open then Configured(config, lines) else map[])
      ensures StepKept() && MailKept() && port.SameHolders()
    {
      var signals := CurrentSignals(lines);
      Greet(c, signals, port.open);
      SizesKept(port.servers);
    }

    method Greet(c: Client, signals: Reading, open: bool)
      requires Ok(open) && config.websocket
      requires c in connections && c !in greeted
      requires signals.Keys == if open then Lines() else {}
      modifies this`reported, this`greeted, this`inbox, this`synced
      ensures Ok(open) && greeted == old(greeted) + {c} && inbox.Keys == old(inbox).Keys
      ensures inbox[c] == [Hello(open, c in attachedList, signals)]
      ensures View(inbox[c]) == signals
      ensures Greeting(c, old(reported), signals) && StepKept() && MailKept()
    {
      var f := Hello(open, c in attachedList, signals);
      Snoc([], f);
      assert [] + [f] == [f];
      if signals != map[] && reported.None? {
        reported := Some(signals);
      }
      greeted := greeted + {c};
      inbox := inbox[c := [f]];
      synced := if reported.None? || reported.value == signals then synced + {c} else synced;
    }

    /** What a joiner's greeting is held against, the device having been opened for it or not. */
    ghost function Baseline(before: Option<Reading>, wasOpen: bool, lines: byte): Option<Reading>
      reads port
    {
      if port.open == wasOpen then before else ReportedAfter(before, Found(Configured(config, lines)))
    }

    /** Arrival: within both limits a client gets a claim and its greeting. */
    method AddConnection(c: Client, there: bool, atOpen: byte, atHello: byte) returns (accepted: bool)
      requires port.Valid() && Member() && config.websocket && c !in inbox && c !in connections
      modifies port`open, port`announced, port.servers
      ensures port.Valid() && OthersKept(atOpen) && (old(port.Held()) || accepted ==> port.Held())
      ensures accepted <==>
                && (config.maxConnections == 0 || |old(connections)| < config.maxConnections)
                && (port.max == 0 || old(port.Total()) < port.max)
      ensures !accepted ==>
                && connections == old(connections) && attachedList == old(attachedList)
                && greeted == old(greeted) && port.open == old(port.open)
      ensures accepted ==>
                && connections == old(connections) + [c] && attachedList == old(attachedList) + [c]
                && greeted == old(greeted) + {c} && port.open == (old(port.open) || there)
                && inbox[c] == [Hello(port.open, true, if port.open then Configured(config, atHello) else map[])]
      ensures StepKept() && MailKept()
      ensures accepted ==>
                Greeting(c, Baseline(old(reported), old(port.open), atOpen),
                         if port.open then Configured(config, atHello) else map[])
    {
      if config.maxConnections > 0 && |connections| >= config.maxConnections {
        return false;
      }
      accepted := Arrive(c, there, atOpen);
      if accepted {
        SendHello(c, atHello);
      }
      StillGreeted(if accepted then {c} else {});
    }

    /** Newcomers were greeted and nobody else's clients changed. */
    twostate lemma StillGreeted(newcomers: set<Client>)
      requires old(port.AllGreeted()) && OthersStay()
      requires forall c | c in connections :: c in old(connections) || c in newcomers
      requires greeted == old(greeted) + newcomers && old(allocated(this)) && old(this in port.servers)
      ensures port.AllGreeted()
    {
      forall s | s in port.servers && s.config.websocket
        ensures forall c | c in s.connections :: c in s.greeted
      {
        assert s != this ==> s.SameLists();
      }
    }

    /** Join the list, and leave it again when the port takes no more. */
    method Arrive(c: Client, there: bool, atOpen: byte) returns (accepted: bool)
      requires port.Coherent() && port.Limited()
      requires Member() && config.websocket && c !in inbox && c !in connections
      modifies port`open, port`announced, port.servers
      ensures port.Coherent() && port.Limited() && OthersKept(atOpen) && (old(port.Held()) || accepted ==> port.Held())
      ensures accepted <==> (port.max == 0 || old(port.Total()) < port.max)
      ensures greeted == old(greeted) && c !in greeted && StepKept() && MailKept()
      ensures c in inbox && reported == Baseline(old(reported), old(port.open), atOpen)
      ensures !accepted ==>
                && connections == old(connections) && attachedList == old(attachedList)
                && port.open == old(port.open)
      ensures accepted ==>
                && connections == old(connections) + [c] && attachedList == old(attachedList) + [c]
                && port.open == (old(port.open) || there)
    {
      Admit(c);
      label admitted:
      accepted := AttachOrLeave(c, there, atOpen, old(connections));
      forall s | s in port.servers && s != this
        ensures port.KeptUp(s, atOpen)
      {
        assert port.KeptUp@admitted(s, atOpen);
      }
    }

    method AttachOrLeave(c: Client, there: bool, atOpen: byte, ghost before: seq<Client>) returns (accepted: bool)
      requires port.Coherent() && port.Limited() && Member() && config.websocket
      requires c !in greeted && c !in attachedList && c !in before && connections == before + [c]
      modifies port`open, port`announced, port.servers
      ensures port.Coherent() && port.Limited() && OthersKept(atOpen) && (old(port.Held()) || accepted ==> port.Held())
      ensures accepted <==> (port.max == 0 || old(port.Total()) < port.max)
      ensures greeted == old(greeted) && StepKept() && MailKept()
      ensures inbox.Keys == old(inbox).Keys && reported == Baseline(old(reported), old(port.open), atOpen)
      ensures !accepted ==> connections == before && attachedList == old(attachedList) && port.open == old(port.open)
      ensures accepted ==>
                && connections == before + [c] && attachedList == old(attachedList) + [c]
                && port.open == (old(port.open) || there)
    {
      accepted := Attach(c, there, atOpen);
      if !accepted {
        label refused:
        Unadmit(c, before);
        forall s | s in port.servers && s != this
          ensures port.KeptUp(s, atOpen)
        {
          assert unchanged@refused(s);
        }
      }
    }

    method Admit(c: Client)
      requires port.Coherent() && Member() && config.websocket && c !in inbox && c !in connections
      modifies this`connections, this`inbox
      ensures port.Coherent() && port.SameHolders()
      ensures connections == old(connections) + [c] && inbox == old(inbox)[c := []]
    {
      AddToLists(c, port.open);
      SizesKept(port.servers);
    }

    method AddToLists(c: Client, ghost told: bool)
      requires Ok(told) && config.websocket && c !in inbox && c !in connections
      modifies this`connections, this`inbox
      ensures Ok(told) && connections == old(connections) + [c] && inbox == old(inbox)[c := []]
    {
      assert c !in attachedList;
      connections := connections + [c];
      inbox := inbox[c := []];
    }

    /** A client refused at the port limit leaves as if it had never come. */
    method Unadmit(c: Client, ghost before: seq<Client>)
      requires port.Coherent() && Member() && config.websocket && c !in attachedList && c !in greeted
      requires c !in before && connections == before + [c]
      modifies this`connections
      ensures port.Coherent() && port.SameHolders() && connections == before
    {
      RemoveFromLists(c, port.open);
      RemovedSnoc(before, c);
      SizesKept(port.servers);
    }

    method RemoveFromLists(c: Client, ghost told: bool)
      requires Ok(told) && config.websocket && c !in attachedList && c !in greeted
      modifies this`connections
      ensures Ok(told) && connections == Removed(old(connections), c)
    {
      RemovedMembers(connections, c);
      connections := Removed(connections, c);
    }

    /** A frame for one greeted client alone, with no news of the device in it. */
    method SendTo(c: Client, f: Frame)
      requires port.Coherent() && Member() && config.websocket && c in greeted
      requires f.AttachReply? || f.Data?
      modifies this`inbox
      ensures port.Coherent() && port.SameHolders()
      ensures c in old(inbox) && inbox == old(inbox)[c := old(inbox)[c] + [f]]
    {
      Post(c, f, port.open);
      SizesKept(port.servers);
    }

    method Post(c: Client, f: Frame, ghost told: bool)
      requires Ok(told) && config.websocket && c in greeted
      requires f.AttachReply? || f.Data?
      modifies this`inbox
      ensures Ok(told)
      ensures c in old(inbox) && inbox == old(inbox)[c := old(inbox)[c] + [f]]
    {
      assert Informed(c, told);
      Snoc(inbox[c], f);
      inbox := inbox[c := inbox[c] + [f]];
    }

    /** Change a claim on request; the answer is the state that came of it. */
    method RequestAttach(c: Client, wanted: bool, there: bool, lines: byte)
      requires port.Valid() && Member() && config.websocket && c in greeted
      modifies port`open, port`announced, port.servers
      ensures port.Valid() && OthersKept(lines)
      ensures connections == old(connections) && greeted == old(greeted)
      ensures c in attachedList <==>
                wanted && (c in old(attachedList) || port.max == 0 || old(port.Total()) < port.max)
      ensures forall x | x != c :: x in attachedList <==> x in old(attachedList)
      ensures wanted ==> port.open == (old(port.open) || (c in attachedList && c !in old(attachedList) && there))
      ensures !wanted ==> Released(old(port.open), c in old(attachedList))
      ensures old(port.Held()) || c in old(attachedList) || c in attachedList ==> port.Held()
      ensures StepKept() && MailKept()
      ensures c in inbox && inbox[c] != []
      ensures inbox[c][|inbox[c]| - 1] == AttachReply(c in attachedList, wanted && c !in attachedList)
    {
      var refused := ChangeClaim(c, wanted, there, lines);
      label changed:
      SendTo(c, AttachReply(c in attachedList, refused));
      forall s | s in port.servers && s != this
        ensures port.KeptUp(s, lines)
      {
        assert unchanged@changed(s);
      }
    }

    method ChangeClaim(c: Client, wanted: bool, there: bool, lines: byte) returns (refused: bool)
      requires port.Valid() && Member() && config.websocket && c in greeted
      modifies port`open, port`announced, port.servers
      ensures port.Valid() && OthersKept(lines)
      ensures connections == old(connections) && greeted == old(greeted)
      ensures c in attachedList <==>
                wanted && (c in old(attachedList) || port.max == 0 || old(port.Total()) < port.max)
      ensures forall x | x != c :: x in attachedList <==> x in old(attachedList)
      ensures wanted ==> port.open == (old(port.open) || (c in attachedList && c !in old(attachedList) && there))
      ensures !wanted ==> Released(old(port.open), c in old(attachedList))
      ensures old(port.Held()) || c in old(attachedList) || c in attachedList ==> port.Held()
      ensures StepKept() && MailKept()
      ensures refused <==> wanted && c !in attachedList
    {
      assert c in connections;
      refused := false;
      if wanted {
        var ok := Attach(c, there, lines);
        refused := !ok;
      } else {
        Unclaim(c);
      }
    }

    method Unclaim(c: Client)
      requires port.Valid() && Member() && config.websocket && c in greeted
      modifies port`open, port`announced, port.servers
      ensures port.Valid() && OthersKept(0)
      ensures connections == old(connections) && greeted == old(greeted)
      ensures forall x :: x in attachedList <==> x in old(attachedList) && x != c
      ensures Released(old(port.open), c in old(attachedList))
      ensures old(port.Held()) || c in old(attachedList) ==> port.Held()
      ensures StepKept() && MailKept()
    {
      RemovedMembers(attachedList, c);
      Detach(c);
    }

    /** What the device says, to those with a claim, where reading is allowed at all. */
    method Send(data: seq<byte>, failing: set<Client>)
      requires port.Valid() && Member() && config.websocket
      modifies port`open, port`announced, port.servers
      ensures port.Valid() && OthersKept(0) && StepKept() && MailKept()
      ensures Released(old(port.open), config.canRead && Meet(old(attachedList), failing))
      ensures old(port.Held()) ==> port.Held()
      ensures !config.canRead ==>
                connections == old(connections) && attachedList == old(attachedList) && inbox == old(inbox)
      ensures config.canRead ==> forall c :: c in connections <==>
                c in old(connections) && !(c in old(attachedList) && c in failing)
      ensures config.canRead ==> forall c :: c in attachedList <==> c in old(attachedList) && c !in failing
      ensures config.canRead ==> forall c | c in attachedList ::
                c in inbox && c in old(inbox) && inbox[c] == old(inbox)[c] + [Data(data)]
    {
      if config.canRead {
        ghost var was := map s | s in port.servers :: s.Now();
        SendAll(data, failing, was);
        forall s | s in port.servers && s != this
          ensures port.KeptUp(s, 0)
        {
          assert was[s] == old(s.Now());
        }
      }
    }

    /** One after the other; a client whose socket is gone is dropped. */
    method SendAll(data: seq<byte>, failing: set<Client>, ghost was: map<PortServer, Station>)
      requires port.Valid() && Member() && config.websocket && OthersSince(was, port.open)
      modifies port`open, port`announced, port.servers
      ensures port.Valid() && port.servers == old(port.servers) && OthersSince(was, old(port.open))
      ensures Released(old(port.open), Meet(old(attachedList), failing)) && (old(port.Held()) ==> port.Held())
      ensures Served(old(Now()), Now(), old(attachedList), failing, data)
    {
      var snapshot := attachedList;
      NoneServed(Now(), failing, data);
      for i := 0 to |snapshot|
        invariant port.Valid() && port.servers == old(port.servers) && OthersSince(was, old(port.open))
        invariant Released(old(port.open), Meet(snapshot[..i], failing)) && (old(port.Held()) ==> port.Held())
        invariant Served(old(Now()), Now(), snapshot[..i], failing, data)
      {
        assert snapshot[..i + 1] == snapshot[..i] + [snapshot[i]];
        NotBefore(snapshot, i);
        MeetSnoc(snapshot[..i], snapshot[i], failing);
        ghost var mid := Now();
        assert snapshot[i] in attachedList;
        SendOne(snapshot[i], data, snapshot[i] in failing, was, old(port.open));
        ServedOn(old(Now()), mid, Now(), snapshot[..i], snapshot[i], failing, data);
      }
      assert snapshot[..|snapshot|] == snapshot;
    }

    method SendOne(c: Client, data: seq<byte>, fails: bool, ghost was: map<PortServer, Station>, ghost wasOpen: bool)
      requires port.Valid() && Member() && config.websocket && c in greeted && OthersSince(was, wasOpen)
      modifies port`open, port`announced, port.servers
      ensures port.Valid() && Parted(c, fails) && OthersSince(was, wasOpen)
      ensures Fed(old(Now()), Now(), c, fails, data)
    {
      if fails {
        Reap(c, true, was, wasOpen);
      } else {
        Deliver(c, data);
      }
    }

    method Deliver(c: Client, data: seq<byte>)
      requires port.Valid() && Member() && config.websocket && c in greeted
      modifies this`inbox
      ensures port.Valid() && port.SameHolders() && Fed(old(Now()), Now(), c, false, data)
    {
      SendTo(c, Data(data));
      assert port.AllGreeted();
    }

    /** RemoveConnection by its effect on membership. */
    method DropClient(c: Client)
      requires port.Valid() && Member() && config.websocket
      modifies port`open, port`announced, port.servers
      ensures port.Valid() && OthersKept(0) && Parted(c, true)
      ensures Less(old(Now()), Now(), c, true)
      ensures attachedList != [] ==> inbox == old(inbox)
    {
      RemovedMembers(connections, c);
      RemovedMembers(attachedList, c);
      RemoveConnection(c);
    }

    method Reap(c: Client, gone: bool, ghost was: map<PortServer, Station>, ghost wasOpen: bool)
      requires port.Valid() && Member() && config.websocket && OthersSince(was, wasOpen)
      modifies port`open, port`announced, port.servers
      ensures port.Valid() && Parted(c, gone) && OthersSince(was, wasOpen)
      ensures Less(old(Now()), Now(), c, gone)
      ensures gone && attachedList != [] ==> inbox == old(inbox)
    {
      if gone {
        ghost var before := port.open;
        ghost var mid := map s | s in port.servers :: s.Now();
        DropClient(c);
        forall s | s in port.servers && s != this
          ensures Follows(s.config.websocket, was[s], s.Now(), wasOpen, port.open)
        {
          assert port.KeptUp(s, 0);
          FollowsOn(s.config.websocket, was[s], mid[s], s.Now(), wasOpen, before, port.open);
        }
      }
    }

    /** Reap the clients whose sockets are gone. */
    method ProcessStale(dead: set<Client>)
      requires port.Valid() && Member() && config.websocket
      modifies port`open, port`announced, port.servers
      ensures port.Valid() && OthersKept(0)
      ensures Released(old(port.open), Meet(old(attachedList), dead)) && (old(port.Held()) ==> port.Held())
      ensures forall c :: c in connections <==> c in old(connections) && c !in dead
      ensures forall c :: c in attachedList <==> c in old(attachedList) && c !in dead
      ensures StepKept() && MailKept()
    {
      ghost var was := map s | s in port.servers :: s.Now();
      ReapAll(dead, was);
      forall s | s in port.servers && s != this
        ensures port.KeptUp(s, 0)
      {
        assert was[s] == old(s.Now());
      }
    }

    method ReapAll(dead: set<Client>, ghost was: map<PortServer, Station>)
      requires port.Valid() && Member() && config.websocket && OthersSince(was, port.open)
      modifies port`open, port`announced, port.servers
      ensures port.Valid() && port.servers == old(port.servers) && OthersSince(was, old(port.open))
      ensures Released(old(port.open), Meet(old(attachedList), dead)) && (old(port.Held()) ==> port.Held())
      ensures Reaped(old(Now()), Now(), old(connections), dead)
    {
      var snapshot := connections;
      ghost var leaving := set c | c in attachedList && c in dead;
      for i := 0 to |snapshot|
        invariant port.Valid() && port.servers == old(port.servers) && OthersSince(was, old(port.open))
        invariant Released(old(port.open), Meet(snapshot[..i], leaving)) && (old(port.Held()) ==> port.Held())
        invariant Reaped(old(Now()), Now(), snapshot[..i], dead)
      {
        assert snapshot[..i + 1] == snapshot[..i] + [snapshot[i]];
        NotBefore(snapshot, i);
        MeetSnoc(snapshot[..i], snapshot[i], leaving);
        ghost var mid := Now();
        Reap(snapshot[i], snapshot[i] in dead, was, old(port.open));
        ReapedOn(old(Now()), mid, Now(), snapshot[..i], snapshot[i], dead);
      }
      assert snapshot[..|snapshot|] == snapshot;
      MeetSame(snapshot, leaving, old(attachedList), dead);
    }

    // ---- closing, and the socket protocols

    method ClearLists(ghost told: bool)
      requires Ok(told)
      modifies this`connections, this`attachedList, this`greeted, this`synced, this`reported, this`closed
      ensures Ok(told) && connections == [] && Attached() == [] && closed
    {
      attachedList, greeted, synced, reported := [], {}, {}, None;
      connections := [];
      closed := true;
    }

    /** Drop every client, as part of the port or after having left it. */
    method DropEveryone()
      requires port.Coherent() && this.Ok(port.open)
      modifies this`connections, this`attachedList, this`greeted, this`synced, this`reported, this`closed
      ensures port.Coherent() && connections == [] && Attached() == [] && closed
      ensures old(port.Limited()) ==> port.Limited()
      ensures forall s | s in port.servers && s != this :: unchanged(s)
      ensures this !in port.servers ==> port.HasConnections() == old(port.HasConnections())
    {
      ClearLists(port.open);
      SumMonotone(Sizes(port.servers), old(Sizes(port.servers)));
    }

    /**
     * Close this server. A WebSocket endpoint lets go of the port at once;
     * a socket server leaves that to whoever closes it.
     */
    method Close()
      requires port.Coherent() && port.Limited() && this.Ok(port.open)
      modifies this, port`open, port`announced, port.servers
      ensures port.Coherent() && port.Limited()
      ensures port.servers == old(port.servers)
      ensures closed && connections == [] && Attached() == []
      ensures Released(old(port.open), config.websocket)
      ensures this !in port.servers ==> port.HasConnections() == old(port.HasConnections())
      ensures forall s | s in port.servers && s != this :: port.KeptUp(s, 0)
    {
      DropEveryone();
      Release();
    }

    method Release()
      requires port.Coherent()
      modifies port`open, port`announced, port.servers
      ensures port.Coherent() && SameLists()
      ensures Released(old(port.open), config.websocket)
      ensures port.HasConnections() == old(port.HasConnections())
      ensures old(port.Limited()) ==> port.Limited()
      ensures forall s | s in port.servers :: port.KeptUp(s, 0)
    {
      if config.websocket {
        port.Disconnect();
        assert this in port.servers ==> SameLists();
      }
    }

    /** A socket client past both limits; it keeps its place only if the device opens. */
    method Accept(c: Client, there: bool, lines: byte) returns (accepted: bool)
      requires port.Valid() && Member() && !config.websocket && c !in connections
      modifies port`open, port`announced, port.servers
      ensures port.Valid() && OthersKept(lines) && (old(port.Held()) ==> port.Held())
      ensures accepted <==>
                && (config.maxConnections == 0 || |old(connections)| < config.maxConnections)
                && (port.max == 0 || old(port.Total()) < port.max) && (old(port.open) || there)
      ensures connections == old(connections) + if accepted then [c] else []
      ensures port.open == (old(port.open) || accepted) && (accepted ==> port.HasConnections())
    {
      if config.maxConnections > 0 && |connections| >= config.maxConnections {
        return false;
      }
      if !port.CanAddConnection() {
        return false;
      }
      accepted := Keep(c, there, lines);
      OthersGreeted();
    }

    method Keep(c: Client, there: bool, lines: byte) returns (accepted: bool)
      requires port.Coherent() && port.CanAddConnection()
      requires Member() && !config.websocket && c !in connections
      modifies port`open, port`announced, port.servers
      ensures port.Coherent() && port.Limited() && OthersKept(lines) && (accepted ==> port.HasConnections())
      ensures accepted == port.open == (old(port.open) || there)
      ensures connections == old(connections) + if accepted then [c] else []
    {
      ConnectPort(there, lines);
      accepted := port.open;
      if accepted {
        label connected:
        Track(c);
        forall s | s in port.servers && s != this
          ensures port.KeptUp(s, lines)
        {
          assert unchanged@connected(s);
        }
      }
    }

    /** A socket server greets nobody, and nobody else's clients changed. */
    twostate lemma OthersGreeted()
      requires old(port.AllGreeted()) && OthersStay() && !config.websocket
      ensures port.AllGreeted()
    {
      forall s | s in port.servers && s.config.websocket
        ensures forall c | c in s.connections :: c in s.greeted
      {
        assert s.SameLists();
      }
    }

    /** A TLS client is tracked, and counts, before its handshake is over. */
    method AcceptPending(c: Client) returns (accepted: bool)
      requires port.Valid() && Member() && !config.websocket && c !in connections
      modifies this`connections
      ensures port.Valid() && port.open == old(port.open) && OthersKept(0)
      ensures old(port.Held()) || accepted ==> port.Held()
      ensures accepted <==>
                && (config.maxConnections == 0 || |old(connections)| < config.maxConnections)
                && (port.max == 0 || old(port.Total()) < port.max)
      ensures connections == old(connections) + if accepted then [c] else []
    {
      accepted := (config.maxConnections == 0 || |connections| < config.maxConnections) && port.CanAddConnection();
      if accepted {
        Track(c);
      }
    }

    method Track(c: Client)
      requires port.Coherent() && port.CanAddConnection() && Member() && !config.websocket && c !in connections
      modifies this`connections
      ensures port.Coherent() && port.Limited() && port.HasConnections()
      ensures connections == old(connections) + [c]
    {
      ghost var before := Sizes(port.servers);
      AddSocket(c, port.open);
      GrownByOne(before, port.servers, this);
      assert Attached() != [];
    }

    method AddSocket(c: Client, ghost told: bool)
      requires Ok(told) && !config.websocket && c !in connections
      modifies this`connections
      ensures Ok(told) && connections == old(connections) + [c]
    {
      connections := connections + [c];
    }

    /** The handshake failed, goes on, or is over and wants the device. */
    method Handshake(c: Client, over: Option<bool>, there: bool, lines: byte)
      requires port.Valid() && Member() && !config.websocket && c in connections
      modifies port`open, port`announced, port.servers
      ensures port.Valid() && OthersKept(lines) && port.Held()
      ensures port.open == match over
                           case None => old(port.open) && (connections == [] ==> port.HasConnections())
                           case Some(done) => old(port.open) || (done && there)
      ensures c in connections <==> over == Some(false) || (over == Some(true) && (old(port.open) || there))
      ensures forall x | x != c :: x in connections <==> x in old(connections)
    {
      assert Attached() != [];
      match over
      case None =>
        RemoveSocket(c);
      case Some(done) =>
        if done {
          var ok := port.ConnectHeld(there, lines);
          if !ok {
            RemoveSocket(c);
          }
        }
    }

    /** One socket client less; with none left the claim of the server ends. */
    method RemoveSocket(c: Client)
      requires port.Valid() && Member() && !config.websocket
      modifies port`open, port`announced, port.servers
      ensures port.Valid() && OthersKept(0) && port.Held()
      ensures c !in connections && forall x | x != c :: x in connections <==> x in old(connections)
      ensures Released(old(port.open), connections == [])
    {
      RemovedMembers(connections, c);
      ShrinkTo(Removed(connections, c));
      ReleaseIfEmpty();
    }

    method ReleaseIfEmpty()
      requires port.Coherent() && port.Limited() && Member() && !config.websocket
      modifies port`open, port`announced, port.servers
      ensures port.Coherent() && port.Limited() && port.Held()
      ensures OthersKept(0) && SameLists()
      ensures Released(old(port.open), connections == [])
    {
      if connections == [] {
        LetGo();
      } else {
        assert Attached() != [];
      }
    }

    method ShrinkTo(rest: seq<Client>)
      requires port.Coherent() && port.Limited() && Member() && !config.websocket
      requires Distinct(rest) && |rest| <= |connections|
      modifies this`connections
      ensures port.Coherent() && port.Limited() && connections == rest
    {
      KeepSockets(rest, port.open);
      SumMonotone(Sizes(port.servers), old(Sizes(port.servers)));
    }

    method KeepSockets(rest: seq<Client>, ghost told: bool)
      requires Ok(told) && !config.websocket && Distinct(rest)
      modifies this`connections
      ensures Ok(told) && connections == rest
    {
      connections := rest;
    }
  }

  /** Somebody holding the device is not among those gone. */
  ghost predicate SomeoneLeft(holders: set<nat>, gone: seq<nat>) {
    exists h | h in holders :: h !in gone
  }

  /** Every endpoint among those gone, one after another, left somebody behind it. */
  ghost predicate EndpointsLeave(holders: set<nat>, endpoints: set<nat>, gone: seq<nat>) {
    gone != [] ==>
      var n := |gone| - 1;
      && EndpointsLeave(holders, endpoints, gone[..n])
      && (gone[n] in endpoints ==> SomeoneLeft(holders, gone))
  }

  /** That is, after each of them some holder is not among those gone by then. */
  lemma {:induction false} EndpointsLeaveIs(holders: set<nat>, endpoints: set<nat>, gone: seq<nat>)
    ensures EndpointsLeave(holders, endpoints, gone) <==>
            forall a | 0 <= a < |gone| :: gone[a] in endpoints ==> exists h :: h in holders && h !in gone[..a + 1]
  {
    if gone != [] {
      var n := |gone| - 1;
      var before := gone[..n];
      EndpointsLeaveIs(holders, endpoints, before);
      assert gone[..n + 1] == gone;
      assert forall a | 0 <= a < n :: before[a] == gone[a] && before[..a + 1] == gone[..a + 1];
    }
  }

  lemma EndpointsStep(holders: set<nat>, endpoints: set<nat>, gone: seq<nat>, next: nat)
    ensures EndpointsLeave(holders, endpoints, gone + [next]) <==>
            EndpointsLeave(holders, endpoints, gone) && (next in endpoints ==> SomeoneLeft(holders, gone + [next]))
  {
    assert (gone + [next])[..|gone|] == gone;
  }

  /** Whether the device is open, who holds it, and which servers are WebSocket endpoints. */
  datatype Standing = Standing(open: bool, holders: set<nat>, endpoints: set<nat>)

  /** The entry is missing, and so far everything missing can be built. */
  predicate Reached(kept: seq<Option<nat>>, builds: nat -> bool, j: nat) {
    j < |kept| && kept[j].None? && forall k: nat | k <= j && kept[k].None? :: builds(k)
  }

  /** A WebSocket endpoint is built, whether or not something later fails. */
  predicate EndpointReached(now: seq<ServerConfig>, kept: seq<Option<nat>>, builds: nat -> bool)
    requires |kept| == |now|
  {
    exists j: nat | j < |now| && Reached(kept, builds, j) :: now[j].websocket
  }

  predicate EndpointMissing(now: seq<ServerConfig>, kept: seq<Option<nat>>, n: nat)
    requires n <= |kept| == |now|
  {
    exists j: nat | j < n && kept[j].None? :: now[j].websocket
  }

  lemma OneMoreMissing(now: seq<ServerConfig>, kept: seq<Option<nat>>, n: nat)
    requires n < |kept| == |now|
    ensures EndpointMissing(now, kept, n + 1) <==>
            EndpointMissing(now, kept, n) || (kept[n].None? && now[n].websocket)
  {
    if EndpointMissing(now, kept, n) {
      var j: nat :| j < n && kept[j].None? && now[j].websocket;
      assert j < n + 1;
    }
  }

  lemma StoppedAt(now: seq<ServerConfig>, kept: seq<Option<nat>>, builds: nat -> bool, j: nat)
    requires |kept| == |now| && j < |now| && kept[j].None? && !builds(j)
    requires forall i: nat | i < j && kept[i].None? :: builds(i)
    ensures EndpointReached(now, kept, builds) <==> EndpointMissing(now, kept, j)
  {
    if EndpointMissing(now, kept, j) {
      var i: nat :| i < j && kept[i].None? && now[i].websocket;
      assert Reached(kept, builds, i);
    }
  }

  lemma OneMoreBuilt(built: seq<PortServer>, s: PortServer)
    ensures EndpointAmong(built + [s]) <==> EndpointAmong(built) || s.config.websocket
  {
    var all := built + [s];
    assert all[|built|] == s;
    if EndpointAmong(built) {
      var b :| 0 <= b < |built| && built[b].config.websocket;
      assert all[b].config.websocket;
    }
  }

  predicate EndpointAmong(built: seq<PortServer>) {
    exists b | 0 <= b < |built| :: built[b].config.websocket
  }

  /**
   * What a reconciliation that fails leaves open for nobody: an open device
   * all of whose holders went, with no endpoint closed after the last of
   * them, and none built that the failure closes again.
   */
  ghost predicate Orphans(start: Standing, removed: seq<nat>, now: seq<ServerConfig>, kept: seq<Option<nat>>,
                          builds: nat -> bool)
    requires |kept| == |now|
  {
    && start.open && !SomeoneLeft(start.holders, removed)
    && EndpointsLeave(start.holders, start.endpoints, removed)
    && !EndpointReached(now, kept, builds)
  }

  /** A missing entry cannot be built. */
  predicate Fails(kept: seq<Option<nat>>, builds: nat -> bool) {
    exists j: nat | j < |kept| :: kept[j].None? && !builds(j)
  }

  /**
   * Whether an open device is still open after a change of configuration. A
   * new order closes nothing; what is rebuilt asks who holds the device at
   * the end, and what fails asks only when an endpoint is closed.
   */
  ghost predicate StaysOpen(start: Standing, removed: seq<nat>, now: seq<ServerConfig>, kept: seq<Option<nat>>,
                            builds: nat -> bool)
    requires |kept| == |now|
  {
    start.open &&
    if Fails(kept, builds) then
      && EndpointsLeave(start.holders, start.endpoints, removed)
      && (EndpointReached(now, kept, builds) ==> SomeoneLeft(start.holders, removed))
    else (removed != [] || None in kept) ==> SomeoneLeft(start.holders, removed)
  }

  lemma {:induction false} EveryoneLeaves(holders: set<nat>, endpoints: set<nat>, gone: seq<nat>)
    ensures SomeoneLeft(holders, gone) ==> EndpointsLeave(holders, endpoints, gone)
  {
    if gone != [] {
      EveryoneLeaves(holders, endpoints, gone[..|gone| - 1]);
      if h :| h in holders && h !in gone {
        assert h !in gone[..|gone| - 1];
      }
    }
  }

  lemma LeftOver(holders: set<nat>, gone: seq<nat>, rest: set<nat>)
    requires forall h :: h in rest <==> h in holders && h !in gone
    ensures SomeoneLeft(holders, gone) <==> rest != {}
  {
    if SomeoneLeft(holders, gone) {
      var h :| h in holders && h !in gone;
      assert h in rest;
    }
  }

  /** How many clients of each server share the device. */
  function Sizes(servers: seq<PortServer>): (sizes: seq<nat>)
    reads servers
    ensures |sizes| == |servers| && forall i | 0 <= i < |servers| :: sizes[i] == |servers[i].Attached()|
  {
    if servers == [] then [] else [|servers[0].Attached()|] + Sizes(servers[1..])
  }

  twostate lemma SizesKept(servers: seq<PortServer>)
    requires forall s | s in servers :: s.Attached() == old(s.Attached())
    ensures Sizes(servers) == old(Sizes(servers))
  {
    assert forall i | 0 <= i < |servers| :: servers[i] in servers;
  }

  function Sum(sizes: seq<nat>): nat {
    if sizes == [] then 0 else sizes[0] + Sum(sizes[1..])
  }

  ghost function Places(sizes: seq<nat>): set<(int, int)> {
    set i, k | 0 <= i < |sizes| && 0 <= k < sizes[i] :: (i, k)
  }

  ghost function Row(n: int, m: nat): set<(int, int)> {
    set k | 0 <= k < m :: (n, k)
  }

  /** One for every client of every server. */
  lemma {:induction false} SumCounts(sizes: seq<nat>)
    ensures Sum(sizes) == |Places(sizes)|
  {
    if sizes != [] {
      var n := |sizes| - 1;
      var others, own := Places(sizes[..n]), Row(n, sizes[n]);
      SumCounts(sizes[..n]);
      SumSnoc(sizes);
      RowSize(n, sizes[n]);
      assert Places(sizes) == others + own && others * own == {};
    }
  }

  lemma {:induction false} RowSize(n: int, m: nat)
    ensures |Row(n, m)| == m
  {
    if m > 0 {
      RowSize(n, m - 1);
      assert Row(n, m) == Row(n, m - 1) + {(n, m - 1)};
    }
  }

  lemma {:induction false} SumSnoc(sizes: seq<nat>)
    requires sizes != []
    ensures Sum(sizes) == Sum(sizes[..|sizes| - 1]) + sizes[|sizes| - 1]
  {
    if |sizes| > 1 {
      SumSnoc(sizes[1..]);
      assert sizes[1..][..|sizes| - 2] == sizes[..|sizes| - 1][1..];
    }
  }

  lemma {:induction false} SumMonotone(small: seq<nat>, large: seq<nat>)
    requires |small| == |large| && forall i | 0 <= i < |small| :: small[i] <= large[i]
    ensures Sum(small) <= Sum(large)
  {
    if small != [] {
      SumMonotone(small[1..], large[1..]);
    }
  }

  /** One server gaining one client adds at most one. */
  lemma {:induction false} SumPlusOne(small: seq<nat>, large: seq<nat>, at: nat)
    requires |small| == |large| && at < |large|
    requires forall i | 0 <= i < |large| :: large[i] <= small[i] + if i == at then 1 else 0
    ensures Sum(large) <= Sum(small) + 1
  {
    if at == 0 {
      SumMonotone(large[1..], small[1..]);
    } else {
      SumPlusOne(small[1..], large[1..], at - 1);
    }
  }

  /** One server gaining one client, and nobody else any. */
  lemma GrownByOne(before: seq<nat>, servers: seq<PortServer>, grown: PortServer)
    requires |before| == |servers| && grown in servers
    requires Distinct(servers)
    requires forall i | 0 <= i < |servers| ::
               |servers[i].Attached()| == before[i] + if servers[i] == grown then 1 else 0
    ensures Sum(Sizes(servers)) <= Sum(before) + 1
  {
    Pairwise(servers);
    var at :| 0 <= at < |servers| && servers[at] == grown;
    SumPlusOne(before, Sizes(servers), at);
  }

  /** A part of the servers holds no more clients than all of them. */
  lemma {:induction false} SumOfDistinct(sizes: seq<nat>, picks: seq<Option<nat>>)
    requires forall j | 0 <= j < |picks| && picks[j].Some? :: picks[j].value < |sizes|
    requires OneEach(picks)
    ensures Sum(Picked(sizes, picks)) <= Sum(sizes)
    decreases |picks|
  {
    if picks != [] {
      TakenOnce(picks);
      var rest := picks[1..];
      if picks[0].None? {
        SumOfDistinct(sizes, rest);
      } else {
        var i := picks[0].value;
        SumOfDistinct(sizes[i := 0], rest);
        SumUpdate(sizes, i);
        SamePicks(sizes, i, rest);
      }
    }
  }

  /** The sizes picked, nothing for an entry that picks none. */
  function Picked(sizes: seq<nat>, picks: seq<Option<nat>>): (r: seq<nat>)
    requires forall j | 0 <= j < |picks| && picks[j].Some? :: picks[j].value < |sizes|
    ensures |r| == |picks|
    ensures forall j | 0 <= j < |picks| :: r[j] == if picks[j].Some? then sizes[picks[j].value] else 0
  {
    if picks == [] then []
    else [if picks[0].Some? then sizes[picks[0].value] else 0] + Picked(sizes, picks[1..])
  }

  lemma {:induction false} SumUpdate(sizes: seq<nat>, i: nat)
    requires i < |sizes|
    ensures Sum(sizes) == Sum(sizes[i := 0]) + sizes[i]
  {
    if i > 0 {
      SumUpdate(sizes[1..], i - 1);
      assert sizes[i := 0][1..] == sizes[1..][i - 1 := 0];
    } else {
      assert sizes[i := 0][1..] == sizes[1..];
    }
  }

  lemma SamePicks(sizes: seq<nat>, i: nat, picks: seq<Option<nat>>)
    requires i < |sizes| && Some(i) !in picks
    requires forall j | 0 <= j < |picks| && picks[j].Some? :: picks[j].value < |sizes|
    ensures Picked(sizes[i := 0], picks) == Picked(sizes, picks)
  {
  }

  class SerialProxy {
    const max: nat
    var lastReopen: int
    var open: bool
    var announced: bool
    var servers: seq<PortServer>

    ghost predicate Wired()
      reads this, servers
    {
      && Distinct(servers)
      && (forall s | s in servers :: s.port == this)
    }

    ghost predicate AllOk(told: bool)
      reads this, servers
    {
      forall s | s in servers :: s.Ok(told)
    }

    /** Everyone has been told what is the case. */
    ghost predicate Coherent()
      reads this, servers
    {
      Wired() && announced == open && AllOk(open)
    }

    predicate HasConnections()
      reads this, servers
    {
      exists s | s in servers :: s.Attached() != []
    }

    /** An open device has somebody holding it. */
    ghost predicate Held()
      reads this, servers
    {
      open ==> HasConnections()
    }

    /** How many clients share the device, over all servers. */
    function Total(): nat
      reads this, servers
    {
      Sum(Sizes(servers))
    }

    ghost predicate Limited()
      reads this, servers
    {
      max > 0 ==> Total() <= max
    }

    /** Between events nobody is left half joined. */
    ghost predicate AllGreeted()
      reads this, servers
    {
      forall s | s in servers && s.config.websocket :: forall c | c in s.connections :: c in s.greeted
    }

    /** What every event finds and leaves, whether or not somebody holds the device. */
    ghost predicate Valid()
      reads this, servers
    {
      Coherent() && Limited() && AllGreeted()
    }

    /** The same device state, held by as many clients on the same servers. */
    twostate predicate SameHolders()
      reads this, servers
    {
      && open == old(open) && servers == old(servers)
      && Sizes(servers) == old(Sizes(servers)) && HasConnections() == old(HasConnections())
    }

    /** The total counts every client that holds the device, each once. */
    lemma TotalCounts()
      ensures Total() == |set i, k | 0 <= i < |servers| && 0 <= k < |servers[i].Attached()| :: (i, k)|
    {
      SumCounts(Sizes(servers));
      assert Places(Sizes(servers)) == set i, k | 0 <= i < |servers| && 0 <= k < |servers[i].Attached()| :: (i, k);
    }

    predicate CanAddConnection()
      reads this, servers
    {
      max > 0 ==> Total() < max
    }

    constructor (max: nat)
      ensures Valid() && Held() && this.max == max && !open && servers == [] && Paired([])
    {
      this.max, lastReopen, open, announced, servers := max, 0, false, false, [];
    }

    /** Build the servers a port starts with; if one cannot be, close those that were. */
    method Start(configs: seq<ServerConfig>, builds: nat -> bool) returns (ok: bool, ghost built: seq<PortServer>)
      requires Valid() && !open && servers == []
      modifies this
      ensures Valid() && !open
      ensures ok <==> forall j: nat | j < |configs| :: builds(j)
      ensures forall s | s in built :: fresh(s)
      ensures ok ==> servers == built && Paired(Texts(configs))
      ensures ok ==> forall j: nat | j < |configs| ::
                servers[j].config == configs[j] && servers[j].connections == [] && !servers[j].closed
      ensures !ok ==> servers == [] && forall s | s in built :: s.closed && s.connections == []
    {
      built := [];
      for j := 0 to |configs|
        invariant Valid() && !open && servers == built && |built| == j
        invariant forall i: nat | i < j :: builds(i)
        invariant forall i: nat | i < j ::
          fresh(built[i]) && built[i].config == configs[i] && built[i].connections == [] && !built[i].closed
      {
        if !builds(j) {
          Close();
          return false, built;
        }
        var s := new PortServer(configs[j], this);
        AddServer(s);
        built := built + [s];
      }
      ok := true;
    }

    method AddServer(s: PortServer)
      requires Valid() && !open && Pristine(s) && s !in servers
      modifies this`servers
      ensures Valid() && servers == old(servers) + [s]
    {
      SizesAdd(servers, s);
      Pairwise(servers);
      servers := servers + [s];
    }

    /**
     * One server has heard that the device is there, or is gone: a socket
     * server loses its clients to a loss, an endpoint tells its own.
     */
    twostate predicate Told(s: PortServer, connected: bool, lines: byte)
      reads s
    {
      && s.SameStanding()
      && s.connections == (if connected || s.config.websocket then old(s.connections) else [])
      && (s.config.websocket ==>
            s.synced == s.greeted && s.Turned(if connected then Found(Configured(s.config, lines)) else Lost))
    }

    /** No client of it is lost, and all it hears is that the device came or went, if it did. */
    twostate predicate KeptUp(s: PortServer, lines: byte)
      reads this, s
    {
      s.SameLists() && if open == old(open) then s.Now() == old(s.Now()) else Told(s, open, lines)
    }

    /** Every server hears of a transition, and of nothing that is none. */
    method AnnounceSerial(connected: bool, lines: byte)
      requires Wired() && AllOk(announced) && open
      modifies this`announced, servers
      ensures Wired() && AllOk(connected) && announced == connected
      ensures forall s | s in servers ::
                if connected == old(announced) then unchanged(s) else Told(s, connected, lines)
    {
      if connected == announced {
        return;
      }
      announced := connected;
      Pairwise(servers);
      for i := 0 to |servers|
        invariant forall j | 0 <= j < i :: servers[j].Ok(connected)
        invariant announced == connected
        invariant forall j | 0 <= j < i :: Told(servers[j], connected, lines)
        invariant forall j | i <= j < |servers| :: unchanged(servers[j])
      {
        if connected {
          servers[i].OnSerialFound(lines);
        } else {
          servers[i].OnSerialLost();
        }
      }
    }

    /** `there` says whether the device can be opened now. */
    method Connect(there: bool, lines: byte) returns (ok: bool)
      requires Coherent()
      modifies this`open, this`announced, servers
      ensures Coherent() && ok == open && open == (old(open) || there)
      ensures forall s | s in servers :: KeptUp(s, lines)
      ensures Sizes(servers) == old(Sizes(servers))
    {
      if !open {
        if !there {
          return false;
        }
        open := true;
        AnnounceSerial(true, lines);
        SizesKept(servers);
      }
      ok := true;
    }

    /** The device goes, claims or no claims. */
    method CloseDevice()
      requires Coherent()
      modifies this`open, this`announced, servers
      ensures Coherent() && !open
      ensures forall s | s in servers :: if old(open) then Told(s, false, 0) else unchanged(s)
      ensures old(Limited()) ==> Limited()
    {
      if !open {
        return;
      }
      AnnounceLost();
      open := false;
    }

    method AnnounceLost()
      requires Coherent() && open
      modifies this`announced, servers
      ensures Wired() && AllOk(false) && !announced
      ensures forall s | s in servers :: Told(s, false, 0)
      ensures Total() <= old(Total())
    {
      ghost var before := Sizes(servers);
      AnnounceSerial(false, 0);
      forall i | 0 <= i < |servers|
        ensures |servers[i].Attached()| <= before[i]
      {
        assert servers[i] in servers && Told(servers[i], false, 0);
      }
      Shrunk(before);
    }

    lemma Shrunk(before: seq<nat>)
      requires |before| == |servers|
      requires forall i | 0 <= i < |servers| :: |servers[i].Attached()| <= before[i]
      ensures Total() <= Sum(before)
    {
      SumMonotone(Sizes(servers), before);
    }

    /** The device goes when the claims on it have gone; that drops no client. */
    method Disconnect()
      requires Coherent()
      modifies this`open, this`announced, servers
      ensures Coherent() && Held() && open == (old(open) && old(HasConnections()))
      ensures forall s | s in servers :: KeptUp(s, 0)
      ensures Sizes(servers) == old(Sizes(servers)) && HasConnections() == old(HasConnections())
    {
      if open && !HasConnections() {
        CloseUnheld();
      }
    }

    method CloseUnheld()
      requires Coherent() && open && forall s | s in servers :: s.Attached() == []
      modifies this`open, this`announced, servers
      ensures Coherent() && !open && !HasConnections()
      ensures forall s | s in servers :: s.SameLists() && Told(s, false, 0)
      ensures Sizes(servers) == old(Sizes(servers))
    {
      CloseDevice();
      forall s | s in servers
        ensures s.SameLists() && s.Attached() == old(s.Attached()) == []
      {
        assert Told(s, false, 0) && old(s.Attached()) == [];
      }
      SizesKept(servers);
    }

    /** A device that fails costs socket servers their clients, and endpoints none. */
    method SerialFailed()
      requires Valid()
      modifies this`open, this`announced, servers
      ensures Valid() && !open
      ensures forall s | s in servers :: if old(open) then Told(s, false, 0) else unchanged(s)
      ensures old(open) ==> forall s | s in servers && !s.config.websocket :: s.connections == []
      ensures forall s | s in servers && s.config.websocket :: s.SameLists()
    {
      CloseDevice();
    }

    /** Connect for somebody already counted as holding the port. */
    method ConnectHeld(there: bool, lines: byte) returns (ok: bool)
      requires Valid() && HasConnections()
      modifies this`open, this`announced, servers
      ensures Valid() && Held() && ok == open == (old(open) || there)
      ensures forall s | s in servers :: KeptUp(s, lines)
    {
      ok := Connect(there, lines);
      ListsKeptValid();
    }

    /** Whether somebody waits for a device that is not open, and it is time to look again. */
    predicate Due(now: int)
      reads this, servers
    {
      !open && HasConnections() && now - lastReopen >= REOPEN_INTERVAL
    }

    method Reopen(now: int, there: bool, lines: byte)
      requires Valid()
      modifies this`open, this`announced, this`lastReopen, servers
      ensures Valid() && open == (old(open) || (there && old(HasConnections() && now - lastReopen >= 2000)))
      ensures HasConnections() == old(HasConnections()) && (old(Held()) ==> Held())
      ensures lastReopen == if old(!open && HasConnections() && now - lastReopen >= 2000) then now else old(lastReopen)
      ensures forall s | s in servers :: KeptUp(s, lines)
    {
      if Due(now) {
        lastReopen := now;
        var _ := ConnectHeld(there, lines);
      }
    }

    /** Report the lines to every endpoint, after a poll or a change. */
    method BroadcastSignals(lines: byte)
      requires Valid() && open
      modifies servers
      ensures Valid() && HasConnections() == old(HasConnections()) && forall s | s in servers :: Reported(s, lines)
    {
      ReportAll(lines);
      ListsKeptValid();
    }

    method ReportAll(lines: byte)
      requires Coherent() && open
      modifies servers
      ensures Coherent() && forall s | s in servers :: Reported(s, lines)
    {
      Pairwise(servers);
      for i := 0 to |servers|
        invariant Wired() && announced == open && AllOk(open)
        invariant forall j | 0 <= j < i :: Reported(servers[j], lines)
        invariant forall j | i <= j < |servers| :: unchanged(servers[j])
      {
        if servers[i].config.websocket {
          servers[i].SendSignalReport(lines);
        }
      }
    }

    /** With every list as it was, whoever held the device still does. */
    twostate lemma ListsKeptValid()
      requires old(Valid()) && Coherent() && servers == old(servers)
      requires forall s | s in servers :: s.SameLists()
      ensures Valid() && HasConnections() == old(HasConnections())
    {
      SizesKept(servers);
      assert forall s | s in servers :: s.Attached() == old(s.Attached());
    }

    twostate predicate Reported(s: PortServer, lines: byte)
      reads s
    {
      && s.SameLists()
      && (s.config.websocket && s.config.control ==> s.Turned(Polled(Configured(s.config, lines))))
    }

    /** Close every server and then the port. */
    method Close()
      requires Coherent() && Limited()
      modifies this, servers
      ensures Valid() && !open && servers == []
      ensures forall s | s in old(servers) :: s.closed && s.connections == []
    {
      ghost var all := servers;
      Pairwise(all);
      while servers != []
        invariant |servers| <= |all| && servers == all[..|servers|]
        invariant Coherent() && Limited()
        invariant Distinct(all)
        invariant forall j | |servers| <= j < |all| :: all[j].closed && all[j].connections == []
        decreases |servers|
      {
        CloseLast();
      }
      Disconnect();
    }

    method CloseLast()
      requires Coherent() && Limited() && servers != []
      modifies this, servers
      ensures Coherent() && Limited() && servers == old(servers)[..|old(servers)| - 1]
      ensures var last := old(servers)[|old(servers)| - 1]; last.closed && last.connections == []
    {
      var last := servers[|servers| - 1];
      PopServer();
      last.Close();
    }

    method PopServer()
      requires Coherent() && Limited() && servers != []
      modifies this`servers
      ensures Coherent() && Limited() && servers == old(servers)[..|old(servers)| - 1]
      ensures old(servers)[|old(servers)| - 1].Ok(open)
      ensures old(servers)[|old(servers)| - 1] !in servers
    {
      var rest := servers[..|servers| - 1];
      SizesPrefix(servers);
      NotBefore(servers, |servers| - 1);
      DistinctPrefix(servers, |servers| - 1);
      forall s | s in rest
        ensures s in servers && s.Ok(open)
      {
      }
      assert servers[|servers| - 1] in servers;
      Become(rest);
    }

    /** Have just these servers, none of which is news to anybody. */
    method Become(all: seq<PortServer>)
      requires announced == open && Distinct(all) && forall s | s in all :: s.port == this && s.Ok(open)
      requires max > 0 ==> Sum(Sizes(all)) <= max
      modifies this`servers
      ensures Coherent() && Limited() && servers == all
    {
      servers := all;
    }

    // ---- a change of configuration

    /** Each running server was built from the entry at its own position. */
    ghost predicate Paired(texts: seq<string>)
      reads this, servers
    {
      |texts| == |servers| && forall i | 0 <= i < |servers| :: servers[i].config.text == texts[i]
    }

    /** A server just built: nobody on it, nobody closed it. */
    ghost predicate Pristine(s: PortServer)
      reads s
    {
      s.port == this && s.connections == [] && s.attachedList == [] && !s.closed && s.Ok(true) && s.Ok(false)
    }

    /** Build what nothing was kept for; stop at the first that cannot be. */
    method BuildMissing(now: seq<ServerConfig>, kept: seq<Option<nat>>, builds: nat -> bool)
        returns (ok: bool, built: seq<PortServer>)
      requires |kept| == |now|
      ensures forall s | s in built :: fresh(s) && Pristine(s)
      ensures Distinct(built)
      ensures ok <==> forall j | 0 <= j < |now| && kept[j].None? :: builds(j)
      ensures ok ==> |built| == Nones(kept, |kept|)
      ensures ok ==> forall j | 0 <= j < |now| && kept[j].None? ::
                Nones(kept, j) < |built| && built[Nones(kept, j)].config == now[j]
      ensures !ok ==> (EndpointAmong(built) <==> EndpointReached(now, kept, builds))
    {
      built := [];
      for j := 0 to |now|
        invariant EndpointAmong(built) <==> EndpointMissing(now, kept, j)
        invariant |built| == Nones(kept, j)
        invariant forall s | s in built :: fresh(s) && Pristine(s)
        invariant Distinct(built)
        invariant forall i: nat | i < j && kept[i].None? :: builds(i)
        invariant forall i: nat | i < j && kept[i].None? ::
          Nones(kept, i) < |built| && built[Nones(kept, i)].config == now[i]
      {
        if kept[j].None? {
          if !builds(j) {
            StoppedAt(now, kept, builds, j);
            return false, built;
          }
          var s := new PortServer(now[j], this);
          OneMoreBuilt(built, s);
          built := built + [s];
        }
        OneMoreMissing(now, kept, j);
      }
      ok := true;
    }

    /** Which servers are holding the device, by position. */
    ghost function Holders(): (holders: set<nat>)
      reads this, servers
      ensures forall i: nat :: i in holders <==> i < |servers| && servers[i].Attached() != []
    {
      set i: nat | i < |servers| && servers[i].Attached() != []
    }

    ghost function Endpoints(): (endpoints: set<nat>)
      reads this
      ensures forall i: nat :: i in endpoints <==> i < |servers| && servers[i].config.websocket
    {
      set i: nat | i < |servers| && servers[i].config.websocket
    }

    ghost function Stands(): Standing
      reads this, servers
    {
      Standing(open, Holders(), Endpoints())
    }

    /** Close the servers nothing in the new configuration matches. */
    method CloseRemoved(removed: seq<nat>)
      requires Coherent() && Limited()
      requires forall b | 0 <= b < |removed| :: removed[b] < |servers|
      requires Distinct(removed)
      modifies this`open, this`announced, servers
      ensures Coherent() && Limited()
      ensures open == (old(open) && EndpointsLeave(old(Holders()), old(Endpoints()), removed))
      ensures HasConnections() <==> SomeoneLeft(old(Holders()), removed)
      ensures forall i: nat | i < |servers| && i !in removed :: KeptUp(servers[i], 0)
      ensures forall b | 0 <= b < |removed| ::
                var s := servers[removed[b]]; s.closed && s.connections == [] && s.Attached() == []
      ensures old(AllGreeted()) ==> AllGreeted()
    {
      ghost var holders := Holders();
      ghost var was := Stations();
      CloseEach(removed, was);
      EveryoneLeaves(holders, old(Endpoints()), removed);
      forall i: nat | i < |servers| && i !in removed
        ensures KeptUp(servers[i], 0)
      {
        assert was[i] == old(servers[i].Now());
        assert open != old(open) ==> i !in Holders();
      }
      NoneHold(removed);
      LeftOver(holders, removed, Holders());
      HoldersHave();
      forall s | s in servers && s.config.websocket
        ensures old(AllGreeted()) ==> forall c | c in s.connections :: c in s.greeted
      {
        var i :| 0 <= i < |servers| && servers[i] == s;
        if i in removed {
          var b :| 0 <= b < |removed| && removed[b] == i;
          assert servers[removed[b]].connections == [];
        } else {
          assert KeptUp(servers[i], 0);
        }
      }
    }

    ghost function Stations(): (stations: seq<Station>)
      reads this, servers
      ensures |stations| == |servers| && forall i | 0 <= i < |servers| :: stations[i] == servers[i].Now()
    {
      seq(|servers|, i requires 0 <= i < |servers| reads this, servers => servers[i].Now())
    }

    /** These servers are closed, and the others are as they were but for the device. */
    ghost predicate Leaving(was: seq<Station>, wasOpen: bool, gone: seq<nat>)
      reads this, servers
    {
      && |was| == |servers| && (open ==> wasOpen)
      && (forall i: nat | i < |servers| && i !in gone ::
            Follows(servers[i].config.websocket, was[i], servers[i].Now(), wasOpen, open))
      && (forall b | 0 <= b < |gone| ::
            gone[b] < |servers| && servers[gone[b]].closed && servers[gone[b]].connections == [])
    }

    method CloseEach(removed: seq<nat>, ghost was: seq<Station>)
      requires Coherent() && Limited() && Leaving(was, open, [])
      requires forall b | 0 <= b < |removed| :: removed[b] < |servers|
      requires Distinct(removed)
      modifies this`open, this`announced, servers
      ensures Coherent() && Limited() && Remain(old(open), old(Holders()), old(Endpoints()), removed)
      ensures Leaving(was, old(open), removed)
    {
      ghost var holders, endpoints := Holders(), Endpoints();
      assert removed[..0] == [];
      for a := 0 to |removed|
        invariant Coherent() && Limited()
        invariant Remain(old(open), holders, endpoints, removed[..a])
        invariant Leaving(was, old(open), removed[..a])
      {
        assert removed[..a + 1] == removed[..a] + [removed[a]];
        CloseNext(removed[a], was, old(open), removed[..a], holders, endpoints);
      }
      assert removed[..|removed|] == removed;
    }

    method CloseNext(i: nat, ghost was: seq<Station>, ghost wasOpen: bool, ghost gone: seq<nat>,
                     ghost holders: set<nat>, ghost endpoints: set<nat>)
      requires Coherent() && Limited() && i < |servers| && Leaving(was, wasOpen, gone)
      requires Remain(wasOpen, holders, endpoints, gone) && Endpoints() == endpoints
      modifies this`open, this`announced, servers
      ensures Coherent() && Limited() && Leaving(was, wasOpen, gone + [i])
      ensures Remain(wasOpen, holders, endpoints, gone + [i])
    {
      ghost var before, mid := open, Stations();
      ghost var prev := Holders();
      CloseAt(i);
      RemainStep(wasOpen, holders, endpoints, gone, i, before, prev);
      forall j: nat | j < |servers| && j !in gone + [i]
        ensures Follows(servers[j].config.websocket, was[j], servers[j].Now(), wasOpen, open)
      {
        assert KeptUp(servers[j], 0) && i in gone + [i];
        FollowsOn(servers[j].config.websocket, was[j], mid[j], servers[j].Now(), wasOpen, before, open);
      }
      forall b | 0 <= b < |gone|
        ensures servers[gone[b]].closed && servers[gone[b]].connections == []
      {
        assert gone[b] != i ==> KeptUp(servers[gone[b]], 0);
      }
    }

    /** Nobody is on these servers, so none of them holds anything. */
    lemma NoneHold(removed: seq<nat>)
      requires AllOk(open) && forall b | 0 <= b < |removed| ::
                 removed[b] < |servers| && servers[removed[b]].connections == []
      ensures forall b | 0 <= b < |removed| :: servers[removed[b]].Attached() == []
    {
      forall b | 0 <= b < |removed|
        ensures servers[removed[b]].Attached() == []
      {
        var s := servers[removed[b]];
        assert s.Ok(open);
        NonEmpty(s.attachedList);
      }
    }

    lemma HoldersHave()
      ensures HasConnections() <==> Holders() != {}
    {
      if HasConnections() {
        var s :| s in servers && s.Attached() != [];
        var i: nat :| i < |servers| && servers[i] == s;
        assert i in Holders();
      }
    }

    /** Where the device and its holders stand once these servers are gone. */
    ghost predicate Remain(wasOpen: bool, holders: set<nat>, endpoints: set<nat>, gone: seq<nat>)
      reads this, servers
    {
      && open == (wasOpen && EndpointsLeave(holders, endpoints, gone))
      && forall h :: h in Holders() <==> h in holders && h !in gone
    }

    lemma RemainStep(wasOpen: bool, holders: set<nat>, endpoints: set<nat>, gone: seq<nat>, next: nat, before: bool,
                     prev: set<nat>)
      requires before == (wasOpen && EndpointsLeave(holders, endpoints, gone))
      requires forall h :: h in prev <==> h in holders && h !in gone
      requires Holders() == prev - {next}
      requires open == (before && (next in endpoints ==> Holders() != {}))
      ensures Remain(wasOpen, holders, endpoints, gone + [next])
    {
      EndpointsStep(holders, endpoints, gone, next);
      LeftOver(holders, gone + [next], Holders());
    }

    method CloseAt(i: nat)
      requires Coherent() && Limited() && i < |servers|
      modifies this`open, this`announced, servers
      ensures Coherent() && Limited()
      ensures open == (old(open) && (servers[i].config.websocket ==> Holders() != {}))
      ensures Holders() == old(Holders()) - {i}
      ensures var s := servers[i]; s.closed && s.connections == [] && s.Attached() == []
      ensures forall j: nat | j < |servers| && j != i :: KeptUp(servers[j], 0)
    {
      assert servers[i] in servers;
      Pairwise(servers);
      servers[i].Close();
      forall j: nat
        ensures j in Holders() <==> j in old(Holders()) && j != i
      {
        assert j < |servers| && j != i ==> KeptUp(servers[j], 0);
      }
      HoldersHave();
    }

    /** Throw away what was built before the failure. */
    method Scrap(built: seq<PortServer>)
      requires Coherent() && Limited()
      requires forall s | s in built :: s !in servers && Pristine(s)
      requires Distinct(built)
      modifies this`open, this`announced, servers, built
      ensures Coherent() && Limited() && HasConnections() == old(HasConnections())
      ensures open == (old(open) && (EndpointAmong(built) ==> HasConnections()))
      ensures forall s | s in servers :: KeptUp(s, 0)
      ensures forall s | s in built :: s.closed && s.connections == []
    {
      Pairwise(built);
      for a := 0 to |built|
        invariant Coherent() && Limited() && HasConnections() == old(HasConnections())
        invariant open == (old(open) && ((exists b | 0 <= b < a :: built[b].config.websocket) ==> HasConnections()))
        invariant forall s | s in servers :: KeptUp(s, 0)
        invariant forall b | 0 <= b < a :: built[b].closed && built[b].connections == []
        invariant forall b | a <= b < |built| :: Pristine(built[b])
      {
        assert built[a] in built;
        label step:
        ghost var before := open;
        built[a].Close();
        forall s | s in servers
          ensures KeptUp(s, 0)
        {
          if open == before {
            assert s.Now() == old@step(s.Now());
          } else {
            assert s.SameLists@step() && Told@step(s, false, 0);
          }
        }
      }
    }

    /** Put the closed ones back, rebuilt where they can be. */
    method RestoreServers(was: seq<ServerConfig>, removed: seq<nat>, rebuilds: nat -> bool)
      requires Coherent() && Limited() && |was| == |servers|
      requires forall b | 0 <= b < |removed| :: removed[b] < |servers|
      requires Distinct(removed)
      requires forall b | 0 <= b < |removed| :: servers[removed[b]].Attached() == []
      modifies this`servers
      ensures Coherent() && Limited() && |servers| == |old(servers)|
      ensures HasConnections() == old(HasConnections())
      ensures forall i: nat | i < |servers| && i !in removed :: servers[i] == old(servers)[i]
      ensures forall b | 0 <= b < |removed| ::
                var i := removed[b];
                if rebuilds(i) then fresh(servers[i]) && Pristine(servers[i]) && servers[i].config == was[i]
                else servers[i] == old(servers)[i]
      ensures old(AllGreeted()) ==> AllGreeted()
    {
      var all := servers;
      for a := 0 to |removed|
        invariant |all| == |servers| && servers == old(servers)
        invariant Coherent() && Limited()
        invariant Distinct(all)
        invariant forall i: nat | i < |all| && i !in removed[..a] :: all[i] == servers[i]
        invariant forall b | 0 <= b < a ::
          var i := removed[b];
          if rebuilds(i) then fresh(all[i]) && Pristine(all[i]) && all[i].config == was[i]
          else all[i] == servers[i]
      {
        var i := removed[a];
        assert removed[..a + 1] == removed[..a] + [i];
        if rebuilds(i) {
          var s := new PortServer(was[i], this);
          all := all[i := s];
        }
      }
      assert removed[..|removed|] == removed;
      forall i: nat | i < |all|
        ensures all[i] == servers[i] || (Pristine(all[i]) && servers[i].Attached() == [])
      {
        if i in removed {
          var b :| 0 <= b < |removed| && removed[b] == i;
          assert servers[removed[b]].Attached() == [];
        }
      }
      PutBack(all);
    }

    /** Replace servers nobody is on, and nothing else. */
    method PutBack(all: seq<PortServer>)
      requires Coherent() && Limited() && |all| == |servers|
      requires Distinct(all)
      requires forall i: nat | i < |all| :: all[i] == servers[i] || (Pristine(all[i]) && servers[i].Attached() == [])
      modifies this`servers
      ensures Coherent() && Limited() && servers == all
      ensures HasConnections() == old(HasConnections())
      ensures old(AllGreeted()) ==> AllGreeted()
    {
      SumMonotone(Sizes(all), Sizes(servers));
      SameHolding(all, servers);
      servers := all;
    }

    lemma SameHolding(all: seq<PortServer>, others: seq<PortServer>)
      requires |all| == |others| && forall i: nat | i < |all| :: all[i].Attached() == others[i].Attached()
      ensures (exists s | s in all :: s.Attached() != []) <==> exists s | s in others :: s.Attached() != []
    {
      if s :| s in all && s.Attached() != [] {
        var i: nat :| i < |all| && all[i] == s;
        assert others[i].Attached() != [];
      }
      if s :| s in others && s.Attached() != [] {
        var i: nat :| i < |others| && others[i] == s;
        assert all[i].Attached() != [];
      }
    }

    /** The kept servers in their new places, the fresh ones between them. */
    method Install(kept: seq<Option<nat>>, built: seq<PortServer>)
      requires Coherent() && Limited()
      requires forall j | 0 <= j < |kept| && kept[j].Some? :: kept[j].value < |servers|
      requires OneEach(kept)
      requires |built| == Nones(kept, |kept|)
      requires forall s | s in built :: s !in servers && Pristine(s)
      requires Distinct(built)
      modifies this`servers
      ensures Coherent() && Limited() && |servers| == |kept|
      ensures forall j | 0 <= j < |kept| ::
                if kept[j].Some? then servers[j] == old(servers)[kept[j].value]
                else Nones(kept, j) < |built| && servers[j] == built[Nones(kept, j)]
      ensures old(AllGreeted()) ==> AllGreeted()
    {
      var all: seq<PortServer>, next := [], 0;
      for j := 0 to |kept|
        invariant servers == old(servers) && |all| == j && next == Nones(kept, j)
        invariant forall i | 0 <= i < j ::
          if kept[i].Some? then all[i] == servers[kept[i].value]
          else Nones(kept, i) < |built| && all[i] == built[Nones(kept, i)]
      {
        NonesMonotone(kept, j, |kept|);
        if kept[j].Some? {
          all := all + [servers[kept[j].value]];
        } else {
          all := all + [built[next]];
          next := next + 1;
        }
      }
      Replace(kept, built, all);
    }

    method Replace(kept: seq<Option<nat>>, built: seq<PortServer>, all: seq<PortServer>)
      requires Coherent() && Limited()
      requires forall j | 0 <= j < |kept| && kept[j].Some? :: kept[j].value < |servers|
      requires OneEach(kept)
      requires forall s | s in built :: s !in servers && Pristine(s)
      requires Distinct(built)
      requires |all| == |kept|
      requires forall j | 0 <= j < |kept| ::
                 if kept[j].Some? then all[j] == servers[kept[j].value]
                 else Nones(kept, j) < |built| && all[j] == built[Nones(kept, j)]
      modifies this`servers
      ensures Coherent() && Limited() && servers == all
      ensures old(AllGreeted()) ==> AllGreeted()
    {
      AllDifferent(kept, built, all);
      SumOfDistinct(Sizes(servers), kept);
      PickedSizes(kept, built, all);
      servers := all;
    }

    /** `all` puts a kept server or a fresh one at every place. */
    ghost predicate Composed(kept: seq<Option<nat>>, built: seq<PortServer>, all: seq<PortServer>)
      reads this
    {
      && |all| == |kept|
      && forall j | 0 <= j < |kept| ::
           if kept[j].Some? then kept[j].value < |servers| && all[j] == servers[kept[j].value]
           else Nones(kept, j) < |built| && all[j] == built[Nones(kept, j)]
    }

    lemma AllDifferent(kept: seq<Option<nat>>, built: seq<PortServer>, all: seq<PortServer>)
      requires Distinct(servers)
      requires OneEach(kept)
      requires forall a | 0 <= a < |built| :: built[a] !in servers
      requires Distinct(built)
      requires Composed(kept, built, all)
      ensures Distinct(all)
      ensures forall j | 0 <= j < |all| :: all[j] in servers || all[j] in built
    {
      forall i, j | 0 <= i < j < |all|
        ensures Apart(all[i], all[j])
      {
        NonesMonotone(kept, i, j);
        if kept[i].Some? && kept[j].Some? {
          assert Apart(kept[i], kept[j]);
          EitherWay(servers, kept[i].value, kept[j].value);
        } else if kept[i].None? && kept[j].None? {
          EitherWay(built, Nones(kept, i), Nones(kept, j));
        }
      }
    }

    lemma PickedSizes(kept: seq<Option<nat>>, built: seq<PortServer>, all: seq<PortServer>)
      requires Composed(kept, built, all)
      requires forall s | s in built :: Pristine(s)
      requires forall j | 0 <= j < |kept| && kept[j].Some? :: kept[j].value < |servers|
      ensures Sizes(all) == Picked(Sizes(servers), kept)
    {
      forall j | 0 <= j < |all|
        ensures |all[j].Attached()| == if kept[j].Some? then |servers[kept[j].value].Attached()| else 0
      {
        assert kept[j].None? ==> all[j] in built;
      }
    }

    /** `kept` takes each running server once at most. */
    ghost predicate Takes(kept: seq<Option<nat>>)
      reads this
    {
      && (forall j | 0 <= j < |kept| && kept[j].Some? :: kept[j].value < |servers|)
      && OneEach(kept)
    }

    /** `removed` is the rest of the running servers, each once. */
    ghost predicate Leaves(kept: seq<Option<nat>>, removed: seq<nat>)
      reads this
    {
      && (forall b | 0 <= b < |removed| :: removed[b] < |servers|)
      && Distinct(removed)
      && (forall i: nat :: i in removed <==> i < |servers| && Some(i) !in kept)
    }

    /** Nothing to build and nothing to close: a new order, or the old one. */
    method Reorder(kept: seq<Option<nat>>, ghost now: seq<ServerConfig>) returns (changed: bool)
      requires |now| == |kept|
      requires Valid() && Takes(kept) && None !in kept
      requires forall i: nat | i < |servers| :: Some(i) in kept
      modifies this`servers
      ensures Valid() && ClosedExactly(old(servers), []) && Arranged(old(servers), now, kept)
      ensures open == old(open) && HasConnections() == old(HasConnections())
      ensures !changed ==> servers == old(servers)
      ensures !changed <==> |kept| == |old(servers)| && forall j: nat | j < |kept| :: kept[j] == Some(j)
    {
      assert forall j | 0 <= j < |kept| :: kept[j] in kept;
      if kept == seq(|servers|, i => Some(i)) {
        return false;
      }
      Rearrange(kept, now);
      changed := true;
    }

    method Rearrange(kept: seq<Option<nat>>, ghost now: seq<ServerConfig>)
      requires |now| == |kept|
      requires Valid() && Takes(kept) && None !in kept
      requires forall i: nat | i < |servers| :: Some(i) in kept
      modifies this`servers
      ensures Valid() && HasConnections() == old(HasConnections())
      ensures Arranged(old(servers), now, kept)
    {
      assert forall j | 0 <= j < |kept| :: kept[j] in kept;
      NoNones(kept, |kept|);
      ghost var before := servers;
      Install(kept, []);
      HeldAsBefore(before, kept, [], []);
    }

    /** Exactly the removed are closed; the rest keep all their clients. */
    twostate predicate ClosedExactly(before: seq<PortServer>, removed: seq<nat>)
      reads this, before
    {
      && (forall i: nat | i < |before| && i !in removed :: KeptUp(before[i], 0))
      && (forall b | 0 <= b < |removed| ::
        removed[b] < |before| && before[removed[b]].closed && before[removed[b]].connections == [])
    }

    /** Every new entry has the server it kept, or a fresh one of its own. */
    twostate predicate Arranged(before: seq<PortServer>, now: seq<ServerConfig>, kept: seq<Option<nat>>)
      requires |kept| == |now|
      reads this, servers
    {
      && |servers| == |now|
      && forall j | 0 <= j < |now| ::
           if kept[j].Some? then kept[j].value < |before| && servers[j] == before[kept[j].value]
           else fresh(servers[j]) && servers[j].config == now[j] && servers[j].connections == [] && !servers[j].closed
    }

    /** Everything is back in its place, rebuilt where it had been closed. */
    twostate predicate RolledBack(before: seq<PortServer>, was: seq<ServerConfig>, removed: seq<nat>,
                                  rebuilds: nat -> bool)
      reads this, servers
    {
      && |servers| == |was| == |before|
      && (forall i: nat | i < |was| && i !in removed :: servers[i] == before[i])
      && (forall b | 0 <= b < |removed| ::
        removed[b] < |was| && PutBackOrLeft(before, was, removed[b], rebuilds(removed[b])))
    }

    twostate predicate Scrapped(new built: seq<PortServer>)
      reads this, built
    {
      forall s | s in built :: fresh(s) && s.closed && s.connections == [] && s !in servers
    }

    /** Close what goes, build what is missing, or put everything back. */
    method Rebuild(was: seq<ServerConfig>, now: seq<ServerConfig>, kept: seq<Option<nat>>, removed: seq<nat>,
                   builds: nat -> bool, rebuilds: nat -> bool, ghost start: Standing)
        returns (ok: bool, built: seq<PortServer>)
      requires start == Stands()
      requires removed != [] || None in kept
      requires Valid() && |was| == |servers| && |kept| == |now|
      requires Takes(kept) && Leaves(kept, removed)
      modifies this, servers
      ensures Valid() && (ok ==> Held())
      ensures ok <==> !Fails(kept, builds)
      ensures ClosedExactly(old(servers), removed)
      ensures ok ==> Arranged(old(servers), now, kept)
      ensures !ok ==> RolledBack(old(servers), was, removed, rebuilds) && Scrapped(built)
      ensures !ok ==>
                (Held() <==> !Orphans(start, removed, now, kept, builds))
      ensures HasConnections() <==> SomeoneLeft(start.holders, removed)
      ensures open == StaysOpen(start, removed, now, kept, builds)
    {
      ghost var all := servers;
      CloseRemoved(removed);
      EveryoneLeaves(start.holders, start.endpoints, removed);
      ok, built := BuildMissing(now, kept, builds);
      label closing:
      ghost var mid := open;
      Settle(ok, was, kept, removed, built, rebuilds);
      if ok {
        forall j | 0 <= j < |now| && kept[j].None?
          ensures fresh(servers[j]) && servers[j].config == now[j] && servers[j].connections == [] && !servers[j].closed
        {
          assert servers[j] == built[Nones(kept, j)] && servers[j] in built;
        }
      }
      forall b | 0 <= b < |removed|
        ensures all[removed[b]].closed && all[removed[b]].connections == []
      {
        assert all[removed[b]] in all && all[removed[b]].SameLists@closing();
      }
      forall i: nat | i < |all| && i !in removed
        ensures KeptUp(all[i], 0)
      {
        assert KeptUp@closing(all[i], 0);
        if open == mid {
          assert all[i].Now() == old@closing(all[i].Now());
        } else {
          assert all[i].SameLists@closing() && Told@closing(all[i], false, 0);
        }
      }
    }

    method Settle(ok: bool, was: seq<ServerConfig>, kept: seq<Option<nat>>, removed: seq<nat>, built: seq<PortServer>,
                  rebuilds: nat -> bool)
      requires Coherent() && Limited() && AllGreeted() && |was| == |servers|
      requires Takes(kept) && Leaves(kept, removed) && (ok ==> |built| == Nones(kept, |kept|))
      requires forall b | 0 <= b < |removed| :: servers[removed[b]].Attached() == []
      requires forall s | s in built :: s !in servers && Pristine(s)
      requires Distinct(built)
      modifies this, servers, set s | s in built
      ensures Coherent() && Limited() && AllGreeted() && (ok ==> Held())
      ensures forall s | s in old(servers) :: s.SameLists()
      ensures forall i: nat | i < |old(servers)| && i !in removed :: KeptUp(old(servers)[i], 0)
      ensures ok ==> forall s | s in built :: s.SameLists()
      ensures HasConnections() == old(HasConnections())
      ensures open == (old(open) && (ok || EndpointAmong(built) ==> HasConnections()))
      ensures ok ==> |servers| == |kept| && forall j | 0 <= j < |kept| ::
                if kept[j].Some? then servers[j] == old(servers)[kept[j].value]
                else Nones(kept, j) < |built| && servers[j] == built[Nones(kept, j)]
      ensures !ok ==>
                && |servers| == |was|
                && (forall i: nat | i < |was| && i !in removed :: servers[i] == old(servers)[i])
                && (forall b | 0 <= b < |removed| :: PutBackOrLeft(old(servers), was, removed[b], rebuilds(removed[b])))
                && (forall s | s in built :: s.closed && s.connections == [] && s !in servers)
    {
      if ok {
        TakeOver(kept, removed, built);
      } else {
        RollBack(was, removed, built, rebuilds);
      }
    }

    method TakeOver(kept: seq<Option<nat>>, ghost removed: seq<nat>, built: seq<PortServer>)
      requires Coherent() && Limited() && AllGreeted()
      requires Takes(kept) && Leaves(kept, removed)
      requires forall b | 0 <= b < |removed| :: servers[removed[b]].Attached() == []
      requires |built| == Nones(kept, |kept|)
      requires forall s | s in built :: s !in servers && Pristine(s)
      requires Distinct(built)
      modifies this, servers, set s | s in built
      ensures Coherent() && Limited() && AllGreeted() && Held()
      ensures |servers| == |kept| && forall j | 0 <= j < |kept| ::
                if kept[j].Some? then servers[j] == old(servers)[kept[j].value]
                else Nones(kept, j) < |built| && servers[j] == built[Nones(kept, j)]
      ensures open == (old(open) && HasConnections()) && HasConnections() == old(HasConnections())
      ensures forall i: nat | i < |old(servers)| && i !in removed :: KeptUp(old(servers)[i], 0)
      ensures forall s | s in old(servers) || s in built :: s.SameLists()
    {
      ghost var before := servers;
      ghost var all := before + built;
      Install(kept, built);
      HeldAsBefore(before, kept, removed, built);
      label before:
      LetGo(all);
      forall s | s in old(servers) || s in built
        ensures s.SameLists()
      {
        assert s in all && s.SameLists@before();
      }
      forall i: nat | i < |before| && i !in removed
        ensures KeptUp(before[i], 0)
      {
        var j :| 0 <= j < |kept| && kept[j] == Some(i);
        assert servers[j] == before[i] && KeptUp@before(servers[j], 0);
      }
    }

    /** A new arrangement of the servers holds the device as the old one did. */
    lemma HeldAsBefore(before: seq<PortServer>, kept: seq<Option<nat>>, removed: seq<nat>, built: seq<PortServer>)
      requires |servers| == |kept| && forall j | 0 <= j < |kept| ::
                 if kept[j].Some? then kept[j].value < |before| && servers[j] == before[kept[j].value]
                 else Nones(kept, j) < |built| && servers[j] == built[Nones(kept, j)]
      requires forall i: nat | i < |before| :: i in removed || Some(i) in kept
      requires forall b | 0 <= b < |removed| :: removed[b] < |before| && before[removed[b]].Attached() == []
      requires forall s | s in built :: s.Attached() == []
      ensures HasConnections() <==> exists s | s in before :: s.Attached() != []
    {
      if s :| s in servers && s.Attached() != [] {
        var j :| 0 <= j < |servers| && servers[j] == s;
        assert kept[j].Some? ==> s in before;
        assert kept[j].None? ==> s in built;
      }
      if s :| s in before && s.Attached() != [] {
        var i: nat :| i < |before| && before[i] == s;
        assert i !in removed;
        var j :| 0 <= j < |kept| && kept[j] == Some(i);
        assert servers[j] in servers;
      }
    }

    /** Disconnect as every server sees it, on the port or not. */
    method LetGo(ghost all: seq<PortServer>)
      requires Coherent() && Limited() && AllGreeted()
      modifies this`open, this`announced, servers
      ensures Coherent() && Limited() && AllGreeted() && Held()
      ensures open == (old(open) && HasConnections()) && HasConnections() == old(HasConnections())
      ensures forall s | s in servers :: KeptUp(s, 0)
      ensures forall s | s in all :: s.SameLists()
    {
      Disconnect();
      forall s | s in all
        ensures s.SameLists()
      {
        assert s in servers ==> s.SameLists();
      }
    }

    method RollBack(was: seq<ServerConfig>, removed: seq<nat>, built: seq<PortServer>, rebuilds: nat -> bool)
      requires Coherent() && Limited() && AllGreeted() && |was| == |servers|
      requires forall b | 0 <= b < |removed| :: removed[b] < |servers|
      requires Distinct(removed)
      requires forall b | 0 <= b < |removed| :: servers[removed[b]].Attached() == []
      requires forall s | s in built :: s !in servers && Pristine(s)
      requires Distinct(built)
      modifies this, servers, set s | s in built
      ensures Coherent() && Limited() && AllGreeted() && |servers| == |was|
      ensures HasConnections() == old(HasConnections())
      ensures open == (old(open) && (EndpointAmong(built) ==> HasConnections()))
      ensures forall s | s in old(servers) :: KeptUp(s, 0)
      ensures forall i: nat | i < |was| && i !in removed :: servers[i] == old(servers)[i]
      ensures forall b | 0 <= b < |removed| :: PutBackOrLeft(old(servers), was, removed[b], rebuilds(removed[b]))
      ensures forall s | s in built :: s.closed && s.connections == [] && s !in servers
    {
      Scrap(built);
      forall b | 0 <= b < |removed|
        ensures servers[removed[b]].Attached() == []
      {
        assert servers[removed[b]] in servers && KeptUp(servers[removed[b]], 0);
      }
      RestoreServers(was, removed, rebuilds);
    }

    ghost predicate PutBackOrLeft(before: seq<PortServer>, was: seq<ServerConfig>, i: nat, rebuilt: bool)
      requires |before| == |was| == |servers| && i < |was|
      reads this, servers
    {
      if rebuilt then servers[i] !in before && servers[i].config == was[i] && Pristine(servers[i])
      else servers[i] == before[i]
    }

    /** The matching is one the running servers can be rearranged by. */
    lemma MatchTakes(was: seq<ServerConfig>, now: seq<ServerConfig>, kept: seq<Option<nat>>, removed: seq<nat>)
      requires Paired(Texts(was))
      requires Matched(was, now, kept, removed)
      requires Distinct(removed)
      ensures Takes(kept) && Leaves(kept, removed) && SameTexts(was, now, kept)
    {
      Matching.KeptSound(Texts(was), Texts(now));
      forall i, j | 0 <= i < j < |kept| && kept[i].Some?
        ensures Apart(kept[i], kept[j])
      {
      }
      assert forall b | 0 <= b < |removed| :: removed[b] in removed;
    }

    /** Nothing to close, to build or to move. */
    ghost predicate Unmoved(was: seq<ServerConfig>, kept: seq<Option<nat>>, removed: seq<nat>) {
      removed == [] && None !in kept && |kept| == |was| && forall j: nat | j < |kept| :: kept[j] == Some(j)
    }

    /** Carry out a match that has been made. */
    method Apply(was: seq<ServerConfig>, now: seq<ServerConfig>, kept: seq<Option<nat>>, removed: seq<nat>,
                 builds: nat -> bool, rebuilds: nat -> bool, ghost start: Standing)
        returns (outcome: Outcome, built: seq<PortServer>)
      requires start == Stands()
      requires Valid() && |was| == |servers| && |kept| == |now|
      requires Takes(kept) && Leaves(kept, removed)
      modifies this, servers
      ensures Valid() && (!outcome.Raised? && (old(Held()) || removed != [] || None in kept) ==> Held())
      ensures outcome.Same? ==> servers == old(servers) && open == old(open)
      ensures outcome.Same? <==> Unmoved(was, kept, removed)
      ensures outcome.Raised? <==> Fails(kept, builds)
      ensures ClosedExactly(old(servers), removed)
      ensures !outcome.Raised? ==> Arranged(old(servers), now, kept)
      ensures outcome.Raised? ==> RolledBack(old(servers), was, removed, rebuilds) && Scrapped(built)
      ensures outcome.Raised? ==>
                (Held() <==> !Orphans(start, removed, now, kept, builds))
      ensures HasConnections() <==> SomeoneLeft(start.holders, removed)
      ensures open == StaysOpen(start, removed, now, kept, builds)
    {
      if removed == [] && None !in kept {
        var changed := Reorder(kept, now);
        outcome, built := if changed then Replaced else Same, [];
        assert forall j | 0 <= j < |now| :: kept[j] in kept;
      } else {
        var ok;
        ok, built := Rebuild(was, now, kept, removed, builds, rebuilds, start);
        outcome := if ok then Replaced else Raised;
      }
    }

    /**
     * From the old configuration to the new one, leaving alone what both
     * have. `builds` and `rebuilds` say which servers can be built.
     */
    method ReconcileServers(was: seq<ServerConfig>, now: seq<ServerConfig>, builds: nat -> bool, rebuilds: nat -> bool)
        returns (outcome: Outcome, kept: seq<Option<nat>>, removed: seq<nat>, built: seq<PortServer>)
      requires Valid() && Paired(Texts(was))
      modifies this, servers
      ensures Matched(was, now, kept, removed)
      ensures Valid() && (!outcome.Raised? && (old(Held()) || removed != [] || None in kept) ==> Held())
      ensures outcome.Same? ==> servers == old(servers) && open == old(open)
      ensures outcome.Same? <==> Texts(was) == Texts(now)
      ensures outcome.Raised? <==> Fails(KeptFor(was, now), builds)
      ensures ClosedExactly(old(servers), removed)
      ensures !outcome.Raised? ==> Arranged(old(servers), now, kept)
      ensures outcome.Raised? ==> RolledBack(old(servers), was, removed, rebuilds) && Scrapped(built)
      ensures open == StaysOpen(old(Stands()), RemovedFor(was, now), now, KeptFor(was, now), builds)
      ensures HasConnections() <==> SomeoneLeft(old(Holders()), RemovedFor(was, now))
      ensures outcome.Raised? ==>
                (Held() <==> !Orphans(old(Stands()), RemovedFor(was, now), now, KeptFor(was, now), builds))
      ensures Paired(Texts(if outcome.Raised? then was else now))
    {
      kept, removed := Plan(was, now);
      label planned:
      ghost var all := servers;
      outcome, built := CarryOut(was, now, kept, removed, builds, rebuilds, Stands());
      forall i: nat | i < |all| && i !in removed
        ensures KeptUp(all[i], 0)
      {
        assert KeptUp@planned(all[i], 0);
      }
    }

    /** Carry out a match of equal configurations, and stay paired with them. */
    method CarryOut(was: seq<ServerConfig>, now: seq<ServerConfig>, kept: seq<Option<nat>>, removed: seq<nat>,
                    builds: nat -> bool, rebuilds: nat -> bool, ghost start: Standing)
        returns (outcome: Outcome, built: seq<PortServer>)
      requires start == Stands()
      requires Valid() && Paired(Texts(was)) && |kept| == |now|
      requires Takes(kept) && Leaves(kept, removed) && SameTexts(was, now, kept)
      modifies this, servers
      ensures Valid() && (!outcome.Raised? && (old(Held()) || removed != [] || None in kept) ==> Held())
      ensures outcome.Same? ==> servers == old(servers) && open == old(open)
      ensures outcome.Same? <==> Unmoved(was, kept, removed)
      ensures outcome.Raised? <==> Fails(kept, builds)
      ensures ClosedExactly(old(servers), removed)
      ensures !outcome.Raised? ==> Arranged(old(servers), now, kept)
      ensures outcome.Raised? ==> RolledBack(old(servers), was, removed, rebuilds) && Scrapped(built)
      ensures outcome.Raised? ==>
                (Held() <==> !Orphans(start, removed, now, kept, builds))
      ensures HasConnections() <==> SomeoneLeft(start.holders, removed)
      ensures open == StaysOpen(start, removed, now, kept, builds)
      ensures Paired(Texts(if outcome.Raised? then was else now))
    {
      ghost var before := servers;
      outcome, built := Apply(was, now, kept, removed, builds, rebuilds, start);
      if outcome.Raised? {
        StillPaired(before, was, removed);
      } else {
        NowPaired(before, was, now, kept);
      }
    }

    /** A kept server and its entry have the same text. */
    ghost predicate SameTexts(was: seq<ServerConfig>, now: seq<ServerConfig>, kept: seq<Option<nat>>)
      requires |kept| == |now|
    {
      forall j | 0 <= j < |now| && kept[j].Some? ::
        kept[j].value < |was| && was[kept[j].value].text == now[j].text
    }

    /** Match the two configurations, as something that can be carried out. */
    method Plan(was: seq<ServerConfig>, now: seq<ServerConfig>)
        returns (kept: seq<Option<nat>>, removed: seq<nat>)
      requires Valid() && Paired(Texts(was))
      ensures Valid() && Paired(Texts(was)) && Stands() == old(Stands())
      ensures |kept| == |now| && Matched(was, now, kept, removed)
      ensures Takes(kept) && Leaves(kept, removed) && SameTexts(was, now, kept)
      ensures Texts(was) == Texts(now) <==> Unmoved(was, kept, removed)
    {
      kept, removed := Matching.Match(Texts(was), Texts(now));
      MatchTakes(was, now, kept, removed);
      Matching.SameKept(Texts(was), Texts(now));
    }

    lemma NowPaired(before: seq<PortServer>, was: seq<ServerConfig>, now: seq<ServerConfig>, kept: seq<Option<nat>>)
      requires |before| == |was| && forall i | 0 <= i < |was| :: before[i].config.text == was[i].text
      requires |servers| == |kept| == |now| && SameTexts(was, now, kept)
      requires forall j | 0 <= j < |now| ::
                 if kept[j].Some? then kept[j].value < |before| && servers[j] == before[kept[j].value]
                 else servers[j].config == now[j]
      ensures Paired(Texts(now))
    {
    }

    lemma StillPaired(before: seq<PortServer>, was: seq<ServerConfig>, removed: seq<nat>)
      requires |before| == |was| == |servers| && forall i | 0 <= i < |was| :: before[i].config.text == was[i].text
      requires forall i: nat | i < |was| && i !in removed :: servers[i] == before[i]
      requires forall b | 0 <= b < |removed| ::
                 && removed[b] < |was|
                 && (servers[removed[b]] == before[removed[b]] || servers[removed[b]].config == was[removed[b]])
      ensures Paired(Texts(was))
    {
      forall i | 0 <= i < |was|
        ensures servers[i].config.text == was[i].text
      {
        if i in removed {
          var b :| 0 <= b < |removed| && removed[b] == i;
          assert servers[removed[b]] == before[removed[b]] || servers[removed[b]].config == was[removed[b]];
        }
      }
    }
  }

  lemma {:induction false} NoNones(kept: seq<Option<nat>>, n: nat)
    requires n <= |kept| && forall j | 0 <= j < |kept| :: kept[j].Some?
    ensures Nones(kept, n) == 0
  {
    if n > 0 {
      NoNones(kept, n - 1);
    }
  }

  datatype Outcome = Same | Replaced | Raised

  /** How many of the first `n` entries have to be built. */
  function Nones(kept: seq<Option<nat>>, n: nat): nat
    requires n <= |kept|
  {
    if n == 0 then 0 else Nones(kept, n - 1) + if kept[n - 1].None? then 1 else 0
  }

  lemma {:induction false} NonesMonotone(kept: seq<Option<nat>>, i: nat, j: nat)
    requires i <= j <= |kept|
    ensures Nones(kept, i) <= Nones(kept, j)
    ensures i < j && kept[i].None? ==> Nones(kept, i) < Nones(kept, j)
    decreases j
  {
    if i < j {
      NonesMonotone(kept, i, j - 1);
    }
  }

  lemma {:induction false} SizesAdd(servers: seq<PortServer>, s: PortServer)
    requires s.Attached() == []
    ensures Sum(Sizes(servers + [s])) == Sum(Sizes(servers))
  {
    if servers == [] {
      assert servers + [s] == [s] && [s][1..] == [];
    } else {
      assert (servers + [s])[1..] == servers[1..] + [s];
      SizesAdd(servers[1..], s);
    }
  }

  lemma {:induction false} SizesPrefix(servers: seq<PortServer>)
    requires servers != []
    ensures Sum(Sizes(servers[..|servers| - 1])) <= Sum(Sizes(servers))
  {
    if |servers| > 1 {
      SizesPrefix(servers[1..]);
      assert servers[1..][..|servers| - 2] == servers[..|servers| - 1][1..];
    }
  }

  /**
   * A socket server with one client, exchanged for one that cannot be built:
   * the device stays open, and nobody holds it.
   */
  method OrphanedDevice(running: ServerConfig, wanted: ServerConfig, c: Client) returns (port: SerialProxy)
    requires !running.websocket && running.maxConnections == 0 && running.text != wanted.text
    ensures port.Valid() && port.open && !port.HasConnections()
  {
    port := OneHolder(running, c);
    var was, now, never := [running], [wanted], (j: nat) => false;
    SameText(port, running);
    var outcome, kept, removed, _ := port.ReconcileServers(was, now, never, never);
    AllOrphaned(port, running, wanted, kept, removed, never);
  }

  lemma SameText(port: SerialProxy, config: ServerConfig)
    ensures Texts([config]) == [config.text]
  {
  }

  lemma AllOrphaned(port: SerialProxy, running: ServerConfig, wanted: ServerConfig, kept: seq<Option<nat>>,
                   removed: seq<nat>, builds: nat -> bool)
    requires running.text != wanted.text && !builds(0)
    requires Matched([running], [wanted], kept, removed)
    ensures |kept| == 1 && kept[0].None?
    ensures Orphans(Standing(true, {0}, {}), removed, [wanted], kept, builds)
  {
    SameText(port, running);
    SameText(port, wanted);
    NothingKept(running.text, wanted.text);
    assert kept == [None];
    assert 0 in removed;
    EndpointsLeaveIs({0}, {}, removed);
  }

  method OneHolder(running: ServerConfig, c: Client) returns (port: SerialProxy)
    requires !running.websocket && running.maxConnections == 0
    ensures fresh(port) && fresh(port.servers) && port.Valid() && port.Paired([running.text])
    ensures port.Stands() == Standing(true, {0}, {})
  {
    port := new SerialProxy(0);
    var configs := [running];
    var _, _ := port.Start(configs, j => true);
    SameText(port, running);
    var s := port.servers[0];
    var _ := s.Accept(c, true, 0);
    OnlyHolder(port);
  }

  lemma OnlyHolder(port: SerialProxy)
    requires |port.servers| == 1 && port.servers[0].Attached() != [] && !port.servers[0].config.websocket
    ensures port.Holders() == {0} && port.Endpoints() == {}
  {
  }

  lemma NothingKept(a: string, b: string)
    requires a != b
    ensures Matching.Keeper([a], [b], 0) == None
  {
    Matching.NoPositions([a], b);
  }
}
