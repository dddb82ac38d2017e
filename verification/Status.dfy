// The live status stream: one snapshot, then only what changed. What a
// client folds the lines into has to be the server's own list.
module Status {
  import opened Lists
  import opened Wrappers

  /** A JSON value, as far as comparing and testing it needs; a number, list or object may be zero or empty. */
  datatype Value = Null | Text(text: string) | Flag(flag: bool) | Other(content: nat, empty: bool)

  type Port = map<string, Value>

  /** The attached USB devices, compared as a whole. */
  type Devices = seq<Port>

  const KEEPALIVE: int := 30

  predicate Truthy(v: Value) {
    match v
    case Null => false
    case Text(text) => text != ""
    case Flag(flag) => flag
    case Other(_, empty) => !empty
  }

  /** Null, false and whatever is empty or zero count as nothing. */
  lemma TruthyIs(v: Value)
    ensures Truthy(v) <==> v != Null && v != Text("") && v != Flag(false) && !(v.Other? && v.empty)
  {
  }

  function Get(p: Port, key: string): Value {
    if key in p then p[key] else Null
  }

  /** A port without its null fields, which a client cannot tell from absent ones. */
  function Norm(p: Port): Port {
    map key | key in p && p[key] != Null :: p[key]
  }

  predicate NullFree(p: Port) {
    forall key | key in p :: p[key] != Null
  }

  /** What differs, by its new value; null where a field went away. */
  function Differences(last: Port, cur: Port): (changes: Port)
    ensures "id" in changes <==> Get(last, "id") != Get(cur, "id")
  {
    map key | key in last.Keys + cur.Keys && Get(last, key) != Get(cur, key) :: Get(cur, key)
  }

  /** A delta names just the fields that moved, each with what is there now. */
  lemma DifferencesAre(last: Port, cur: Port, key: string)
    ensures key in Differences(last, cur) <==>
            if key in last && key in cur then last[key] != cur[key]
            else (key in last && last[key] != Null) || (key in cur && cur[key] != Null)
    ensures key in Differences(last, cur) ==> Differences(last, cur)[key] == if key in cur then cur[key] else Null
  {
  }

  /** How a client applies such changes: null deletes, anything else sets. */
  function Merge(p: Port, changes: Port): Port {
    map key | key in p.Keys + changes.Keys && !(key in changes && changes[key] == Null) ::
      if key in changes then changes[key] else p[key]
  }

  /** Two ports agree up to nulls when every lookup agrees. */
  lemma SameLookups(p: Port, q: Port)
    ensures Norm(p) == Norm(q) <==> forall key :: Get(p, key) == Get(q, key)
  {
    if Norm(p) == Norm(q) {
      forall key
        ensures Get(p, key) == Get(q, key)
      {
        assert key in Norm(p) <==> key in Norm(q);
      }
    }
    if forall key :: Get(p, key) == Get(q, key) {
      forall key
        ensures key in Norm(p) <==> key in Norm(q)
        ensures key in Norm(p) ==> Norm(p)[key] == Norm(q)[key]
      {
        assert Get(p, key) == Get(q, key);
      }
    }
  }

  /** A client that was right about the port is right again after the delta. */
  lemma DeltaKeepsMeaning(held: Port, last: Port, cur: Port)
    requires Norm(held) == Norm(last)
    ensures Norm(Merge(held, Differences(last, cur))) == Norm(cur)
  {
    SameLookups(held, last);
    var next := Merge(held, Differences(last, cur));
    forall key
      ensures Get(next, key) == Get(cur, key)
    {
      assert Get(held, key) == Get(last, key);
    }
    SameLookups(next, cur);
  }

  /** Where no field is null the client holds the very same port. */
  lemma ExactWithoutNulls(held: Port, last: Port, cur: Port)
    requires Norm(held) == Norm(last) && NullFree(held) && NullFree(cur)
    ensures Merge(held, Differences(last, cur)) == cur && NullFree(Merge(held, Differences(last, cur)))
  {
    DeltaKeepsMeaning(held, last, cur);
    NullFreeNorm(Merge(held, Differences(last, cur)));
    NullFreeNorm(cur);
  }

  lemma NullFreeNorm(p: Port)
    ensures NullFree(p) <==> Norm(p) == p
  {
    if Norm(p) == p {
      forall key | key in p
        ensures p[key] != Null
      {
        assert key in Norm(p);
      }
    }
  }

  // ================ all ports

  datatype Line =
    | Snapshot(ports: seq<Port>, detected: Devices, admin: bool)
    | Delta(id: Value, changes: Port)
    | Detected(devices: Devices)
    | Heartbeat

  /** A client page; no ports until the first snapshot. */
  datatype Page = Page(ports: Option<seq<Port>>, detected: Devices, admin: bool)

  /** The first port with this id. */
  function Find(ports: seq<Port>, id: Value): (at: Option<nat>)
    ensures at.Some? ==> at.value < |ports| && Get(ports[at.value], "id") == id
    ensures at.None? ==> forall i | 0 <= i < |ports| :: Get(ports[i], "id") != id
  {
    if ports == [] then None
    else if Get(ports[0], "id") == id then Some(0)
    else
      var rest := Find(ports[1..], id);
      if rest.Some? then Some(rest.value + 1) else None
  }

  function ApplyStatusLine(page: Page, line: Line): Page {
    match line
    case Heartbeat => page
    case Snapshot(ports, detected, admin) => Page(Some(ports), detected, admin)
    case Detected(devices) => page.(detected := devices)
    case Delta(id, changes) =>
      if page.ports.None? || Find(page.ports.value, id).None? then page
      else
        var ports, at := page.ports.value, Find(page.ports.value, id).value;
        page.(ports := Some(ports[at := Merge(ports[at], changes)]))
  }

  function Ids(ports: seq<Port>): (ids: seq<Value>)
    ensures |ids| == |ports| && forall i | 0 <= i < |ports| :: ids[i] == Get(ports[i], "id")
  {
    seq(|ports|, i requires 0 <= i < |ports| => Get(ports[i], "id"))
  }

  /** Same ids in the same places, all present and no two alike. */
  predicate SamePortIds(last: seq<Port>, cur: seq<Port>) {
    && Ids(last) == Ids(cur)
    && (forall id | id in Ids(cur) :: Truthy(id))
    && (forall i, j | 0 <= i < j < |cur| :: Ids(cur)[i] != Ids(cur)[j])
  }

  /** A port can be told by its id alone: each stands where it stood, under an id of its own. */
  ghost predicate Addressed(last: seq<Port>, cur: seq<Port>) {
    && |last| == |cur|
    && (forall i | 0 <= i < |cur| :: Get(last[i], "id") == Get(cur[i], "id") && Truthy(Get(cur[i], "id")))
    && Distinct(Ids(cur))
  }

  lemma Addressable(last: seq<Port>, cur: seq<Port>)
    ensures SamePortIds(last, cur) <==> Addressed(last, cur)
  {
    assert |Ids(last)| == |last| && |Ids(cur)| == |cur|;
    if SamePortIds(last, cur) {
      assert forall i | 0 <= i < |cur| :: Ids(cur)[i] in Ids(cur) && Ids(last)[i] == Ids(cur)[i];
    }
    if Addressed(last, cur) {
      Pairwise(Ids(cur));
    }
  }

  /** One delta for each of the first `n` ports that changed. */
  function Deltas(last: seq<Port>, cur: seq<Port>, n: nat): seq<Line>
    requires n <= |last| && n <= |cur|
  {
    if n == 0 then []
    else
      Deltas(last, cur, n - 1) +
      if last[n - 1] == cur[n - 1] then []
      else [Delta(Get(cur[n - 1], "id"), Differences(last[n - 1], cur[n - 1]))]
  }

  /** The page shows these ports, whatever nulls are among their fields. */
  ghost predicate Shows(held: seq<Port>, ports: seq<Port>) {
    |held| == |ports| && forall i | 0 <= i < |ports| :: Norm(held[i]) == Norm(ports[i])
  }

  predicate NoNulls(ports: seq<Port>) {
    forall p | p in ports :: NullFree(p)
  }

  /** Without nulls on either side the page has exactly these ports. */
  lemma ShowsExactly(held: seq<Port>, ports: seq<Port>)
    requires Shows(held, ports) && NoNulls(held) && NoNulls(ports)
    ensures held == ports
  {
    forall i | 0 <= i < |ports|
      ensures held[i] == ports[i]
    {
      NullFreeNorm(held[i]);
      NullFreeNorm(ports[i]);
    }
  }

  predicate PageNoNulls(page: Page) {
    page.ports.Some? ==> NoNulls(page.ports.value)
  }

  /** A null in a delta deletes; only a snapshot can bring one in. */
  lemma LineKeepsNoNulls(page: Page, line: Line)
    requires PageNoNulls(page) && (line.Snapshot? ==> NoNulls(line.ports))
    ensures PageNoNulls(ApplyStatusLine(page, line))
  {
    if line.Delta? && page.ports.Some? && Find(page.ports.value, line.id).Some? {
      var ports, at := page.ports.value, Find(page.ports.value, line.id).value;
      assert ports[at] in ports;
      assert NullFree(Merge(ports[at], line.changes));
    }
  }

  /** A page halfway through a round of deltas. */
  ghost predicate Halfway(held: seq<Port>, last: seq<Port>, cur: seq<Port>, n: nat) {
    && |held| == |last| == |cur|
    && forall i | 0 <= i < |held| :: Norm(held[i]) == Norm(if i < n then cur[i] else last[i])
  }

  /** The same for a whole page, of which nothing else has changed. */
  ghost predicate Partway(was: Page, page: Page, last: seq<Port>, cur: seq<Port>, n: nat, sent: bool) {
    && page.ports.Some? && Halfway(page.ports.value, last, cur, n)
    && page.detected == was.detected && page.admin == was.admin
    && (PageNoNulls(was) ==> PageNoNulls(page))
    && (!sent ==> page == was)
  }

  /** What went out so far. */
  ghost predicate Recorded(before: seq<Line>, wire: seq<Line>, last: seq<Port>, cur: seq<Port>, n: nat, sent: bool) {
    && n <= |last| && n <= |cur|
    && wire == before + Deltas(last, cur, n) && (sent <==> Deltas(last, cur, n) != [])
  }

  lemma StartWay(page: Page, wire: seq<Line>, last: seq<Port>, cur: seq<Port>)
    requires page.ports.Some? && Shows(page.ports.value, last) && |last| == |cur|
    ensures Partway(page, page, last, cur, 0, false) && Recorded(wire, wire, last, cur, 0, false)
  {
  }

  lemma WholeWay(was: Page, page: Page, last: seq<Port>, cur: seq<Port>, sent: bool)
    requires Partway(was, page, last, cur, |cur|, sent)
    ensures page.ports.Some? && Shows(page.ports.value, cur)
  {
  }

  lemma SkipPort(was: Page, page: Page, before: seq<Line>, wire: seq<Line>, last: seq<Port>, cur: seq<Port>, n: nat,
                 sent: bool)
    requires Partway(was, page, last, cur, n, sent) && Recorded(before, wire, last, cur, n, sent)
    requires n < |cur| && last[n] == cur[n]
    ensures Partway(was, page, last, cur, n + 1, sent) && Recorded(before, wire, last, cur, n + 1, sent)
  {
    assert Deltas(last, cur, n + 1) == Deltas(last, cur, n) + [];
  }

  /** One port's delta takes the page one port further, and touches no other. */
  lemma DeltaStep(page: Page, last: seq<Port>, cur: seq<Port>, n: nat)
    requires page.ports.Some? && Halfway(page.ports.value, last, cur, n) && n < |cur|
    requires Addressed(last, cur)
    ensures var next := ApplyStatusLine(page, Delta(Get(cur[n], "id"), Differences(last[n], cur[n])));
            && next.ports.Some? && Halfway(next.ports.value, last, cur, n + 1)
            && next.detected == page.detected && next.admin == page.admin
  {
    var held := page.ports.value;
    forall i | 0 <= i < |held|
      ensures Get(held[i], "id") == Get(cur[i], "id")
    {
      SameId(held[i], if i < n then cur[i] else last[i]);
    }
    Pairwise(Ids(cur));
    assert forall i | 0 <= i < |cur| :: Ids(cur)[i] == Get(cur[i], "id");
    assert Find(held, Get(cur[n], "id")) == Some(n);
    DeltaKeepsMeaning(held[n], last[n], cur[n]);
  }

  lemma SameId(held: Port, port: Port)
    requires Norm(held) == Norm(port)
    ensures Get(held, "id") == Get(port, "id")
  {
    assert "id" in Norm(held) <==> "id" in Norm(port);
  }

  /** What a round has to say to a client that was shown `last`. */
  function NewsFor(last: Option<seq<Port>>, lastDetected: Devices, admin: bool, ports: seq<Port>, detected: Devices)
      : (news: seq<Line>)
  {
    if last.None? || !SamePortIds(last.value, ports) then [Snapshot(ports, detected, admin)]
    else
      assert |last.value| == |Ids(last.value)| && |ports| == |Ids(ports)|;
      Deltas(last.value, ports, |ports|) + if lastDetected == detected then [] else [Detected(detected)]
  }

  /** Nothing is said exactly when nothing has changed that a client could be told. */
  lemma NothingToSay(last: seq<Port>, lastDetected: Devices, admin: bool, ports: seq<Port>, detected: Devices)
    requires SamePortIds(last, ports)
    ensures NewsFor(Some(last), lastDetected, admin, ports, detected) == [] <==>
            last == ports && lastDetected == detected
  {
    assert |last| == |Ids(last)| && |ports| == |Ids(ports)|;
    NoDeltas(last, ports, |ports|);
    assert last[..|ports|] == last && ports[..|ports|] == ports;
  }

  lemma {:induction false} NoDeltas(last: seq<Port>, cur: seq<Port>, n: nat)
    requires n <= |last| && n <= |cur|
    ensures Deltas(last, cur, n) == [] <==> last[..n] == cur[..n]
  {
    if n > 0 {
      NoDeltas(last, cur, n - 1);
      assert last[..n] == last[..n - 1] + [last[n - 1]] && cur[..n] == cur[..n - 1] + [cur[n - 1]];
      assert last[..n] == cur[..n] ==> last[..n][n - 1] == cur[..n][n - 1];
      assert last[..n] == cur[..n] ==> last[..n][..n - 1] == cur[..n][..n - 1];
      assert last[..n][..n - 1] == last[..n - 1] && cur[..n][..n - 1] == cur[..n - 1];
    }
  }

  class StreamEntry {
    var lastPorts: Option<seq<Port>>
    var lastDetected: Devices
    var lastSend: int
    var admin: bool
    ghost var wire: seq<Line>  // the lines that reached the client
    ghost var page: Page       // and what they come to

    /** What the entry remembers is what the page shows. */
    ghost predicate Valid()
      reads this
    {
      && page.ports.Some?
      && page.detected == lastDetected
      && (lastPorts.Some? ==> Shows(page.ports.value, lastPorts.value) && page.admin == admin)
    }

    /** Registered once the first snapshot is out. */
    constructor (ports: seq<Port>, detected: Devices, admin: bool, now: int)
      ensures Valid() && this.admin == admin && page == Page(Some(ports), detected, admin)
      ensures wire == [Snapshot(ports, detected, admin)] && lastSend == now
    {
      lastPorts, lastDetected, lastSend, this.admin := Some(ports), detected, now, admin;
      wire := [Snapshot(ports, detected, admin)];
      page := ApplyStatusLine(Page(None, [], false), Snapshot(ports, detected, admin));
    }

    /** One line; a client that is gone gets none of it. */
    method SendLine(line: Line, works: bool) returns (ok: bool)
      modifies this`page, this`wire
      ensures wire == old(wire) + if works then [line] else []
      ensures ok == works && page == if works then ApplyStatusLine(old(page), line) else old(page)
      ensures PageNoNulls(old(page)) && (line.Snapshot? ==> NoNulls(line.ports)) ==> PageNoNulls(page)
    {
      if works {
        if PageNoNulls(page) && (line.Snapshot? ==> NoNulls(line.ports)) {
          LineKeepsNoNulls(page, line);
        }
        page, wire := ApplyStatusLine(page, line), wire + [line];
      }
      ok := works;
    }

    /**
     * Ask the account again. A changed admin flag makes the next round a
     * full snapshot, because the flag travels only with one.
     */
    method StillAuthorised(open: bool, account: Option<bool>) returns (ok: bool)
      requires Valid()
      modifies this`admin, this`lastPorts
      ensures Valid() && ok == (open || account.Some?)
      ensures ok ==> admin == if open then old(admin) else account.value
      ensures ok && admin == old(admin) ==> lastPorts == old(lastPorts)
    {
      if open {
        return true;
      }
      if account.None? {
        return false;
      }
      if account.value != admin {
        admin := account.value;
        lastPorts := None;
      }
      ok := true;
    }

    /** A delta for every port that changed, until a send fails. */
    method SendDeltas(last: seq<Port>, cur: seq<Port>, sends: nat -> bool) returns (ok: bool, sent: bool)
      requires page.ports.Some? && Shows(page.ports.value, last) && Addressed(last, cur)
      modifies this`page, this`wire
      ensures ok ==> Recorded(old(wire), wire, last, cur, |cur|, sent)
      ensures (forall k: nat :: sends(k)) ==> ok
      ensures page.detected == old(page).detected && page.admin == old(page).admin
      ensures ok ==> page.ports.Some? && Shows(page.ports.value, cur)
      ensures ok && !sent ==> page == old(page)
      ensures PageNoNulls(old(page)) ==> PageNoNulls(page)
    {
      ok, sent := true, false;
      ghost var was, before := page, wire;
      StartWay(was, before, last, cur);
      for i := 0 to |cur|
        invariant ok && Partway(was, page, last, cur, i, sent) && Recorded(before, wire, last, cur, i, sent)
      {
        if last[i] == cur[i] {
          SkipPort(was, page, before, wire, last, cur, i, sent);
        } else {
          ok := SendDelta(last, cur, i, sends(i), was, before, sent);
          sent := true;
          if !ok {
            return;
          }
        }
      }
      WholeWay(was, page, last, cur, sent);
    }

    method SendDelta(last: seq<Port>, cur: seq<Port>, i: nat, works: bool, ghost was: Page, ghost before: seq<Line>,
                     ghost sent: bool) returns (ok: bool)
      requires Addressed(last, cur) && i < |cur| && last[i] != cur[i]
      requires Partway(was, page, last, cur, i, sent) && Recorded(before, wire, last, cur, i, sent)
      modifies this`page, this`wire
      ensures ok == works
      ensures ok ==> Partway(was, page, last, cur, i + 1, true) && Recorded(before, wire, last, cur, i + 1, true)
      ensures page.detected == was.detected && page.admin == was.admin && (PageNoNulls(was) ==> PageNoNulls(page))
    {
      DeltaStep(page, last, cur, i);
      ghost var line := Delta(Get(cur[i], "id"), Differences(last[i], cur[i]));
      Assoc(before, Deltas(last, cur, i), [line]);
      ok := SendLine(Delta(Get(cur[i], "id"), Differences(last[i], cur[i])), works);
    }

    /** What there is to say: deltas if they can be addressed, or everything. */
    method SendNews(ports: seq<Port>, detected: Devices, sends: nat -> bool) returns (ok: bool, sent: bool)
      requires Valid()
      modifies this`page, this`wire
      ensures (forall k: nat :: sends(k)) ==> ok
      ensures ok ==> wire == old(wire) + NewsFor(lastPorts, lastDetected, admin, ports, detected)
      ensures ok ==> (sent <==> NewsFor(lastPorts, lastDetected, admin, ports, detected) != [])
      ensures ok ==> page.ports.Some? && Shows(page.ports.value, ports)
      ensures ok ==> page.detected == detected && page.admin == admin
      ensures ok && PageNoNulls(old(page)) && NoNulls(ports) ==> PageNoNulls(page)
    {
      if lastPorts.None? || !SamePortIds(lastPorts.value, ports) {
        ok := SendLine(Snapshot(ports, detected, admin), sends(0));
        sent := true;
      } else {
        Addressable(lastPorts.value, ports);
        ok, sent := SendDeltas(lastPorts.value, ports, sends);
        if ok && lastDetected != detected {
          ok := SendLine(Detected(detected), sends(|ports|));
          sent := true;
        }
      }
    }

    /** One round for this client; false when it is gone. */
    method BroadcastAll(now: int, ports: seq<Port>, detected: Devices, sends: nat -> bool) returns (ok: bool)
      requires Valid()
      modifies this`lastPorts, this`lastDetected, this`lastSend, this`page, this`wire
      ensures (forall k: nat :: sends(k)) ==> ok
      ensures ok ==>
                var news := NewsFor(old(lastPorts), old(lastDetected), admin, ports, detected);
                && wire == old(wire) + (if news == [] && now - old(lastSend) > 30 then [Heartbeat] else news)
                && lastSend == if news == [] && now - old(lastSend) <= 30 then old(lastSend) else now
      ensures ok ==> Valid() && lastPorts == Some(ports) && lastDetected == detected
      ensures ok ==> Shows(page.ports.value, ports) && page.detected == detected && page.admin == admin
      ensures ok && PageNoNulls(old(page)) && NoNulls(ports) ==> PageNoNulls(page) && page.ports == Some(ports)
    {
      var sent;
      ok, sent := SendNews(ports, detected, sends);
      if ok && !sent && now - lastSend > KEEPALIVE {
        ok := SendLine(Heartbeat, sends(|ports| + 1));
        sent := true;
      }
      if !ok {
        return;
      }
      if sent {
        lastSend := now;
      }
      lastPorts, lastDetected := Some(ports), detected;
      if PageNoNulls(page) && NoNulls(ports) {
        ShowsExactly(page.ports.value, ports);
      }
    }

    /** A whole tick: the account first, then the round. */
    method BroadcastToEntry(open: bool, account: Option<bool>, now: int, ports: seq<Port>, detected: Devices,
                            sends: nat -> bool) returns (ok: bool)
      requires Valid()
      modifies this
      ensures (open || account.Some?) && (forall k: nat :: sends(k)) ==> ok
      ensures ok ==> Valid() && lastPorts == Some(ports)
      ensures ok ==> (open || account.Some?) && admin == if open then old(admin) else account.value
      ensures ok ==> Shows(page.ports.value, ports) && page.detected == detected && page.admin == admin
      ensures ok && PageNoNulls(old(page)) && NoNulls(ports) ==> PageNoNulls(page) && page.ports == Some(ports)
    {
      ok := StillAuthorised(open, account);
      if ok {
        ok := BroadcastAll(now, ports, detected, sends);
      }
    }
  }

  // ================ one port

  datatype FilterLine =
    | PortSnapshot(port: Option<Port>, admin: bool)
    | PortDelta(changes: Port)
    | PortRemoved
    | PortHeartbeat

  datatype FilterPage = FilterPage(port: Option<Port>, admin: bool)

  /** How a client reads these lines: the format gives each of them one meaning. */
  function ApplyFilterLine(page: FilterPage, line: FilterLine): FilterPage {
    match line
    case PortHeartbeat => page
    case PortSnapshot(port, admin) => FilterPage(port, admin)
    case PortRemoved => page.(port := None)
    case PortDelta(changes) =>
      if page.port.None? then page else page.(port := Some(Merge(page.port.value, changes)))
  }

  predicate PortNoNulls(held: Option<Port>) {
    held.Some? ==> NullFree(held.value)
  }

  /** Here too a delta brings no null in. */
  lemma FilterLineKeepsNoNulls(page: FilterPage, line: FilterLine)
    requires PortNoNulls(page.port) && (line.PortSnapshot? ==> PortNoNulls(line.port))
    ensures PortNoNulls(ApplyFilterLine(page, line).port)
  {
    if line.PortDelta? && page.port.Some? {
      assert NullFree(Merge(page.port.value, line.changes));
    }
  }

  /** Without nulls on either side the page has exactly this port. */
  lemma ShowsPortExactly(held: Option<Port>, port: Option<Port>)
    requires ShowsPort(held, port) && PortNoNulls(held) && PortNoNulls(port)
    ensures held == port
  {
    if held.Some? {
      NullFreeNorm(held.value);
      NullFreeNorm(port.value);
    }
  }

  ghost predicate ShowsPort(held: Option<Port>, port: Option<Port>) {
    (held.None? <==> port.None?) && (held.Some? ==> Norm(held.value) == Norm(port.value))
  }

  class FilterEntry {
    var lastPort: Option<Port>
    var lastSend: int
    var admin: bool
    ghost var wire: seq<FilterLine>
    ghost var page: FilterPage

    /** Forgotten by the server, still on the page. */
    ghost predicate Stale()
      reads this
    {
      lastPort.None? && page.port.Some?
    }

    ghost predicate Valid()
      reads this
    {
      lastPort.Some? ==> ShowsPort(page.port, lastPort) && page.admin == admin
    }

    constructor (port: Option<Port>, admin: bool, now: int)
      ensures Valid() && !Stale() && lastPort == port && this.admin == admin && ShowsPort(page.port, port)
      ensures wire == [PortSnapshot(port, admin)] && lastSend == now
    {
      lastPort, lastSend, this.admin := port, now, admin;
      wire := [PortSnapshot(port, admin)];
      page := ApplyFilterLine(FilterPage(None, false), PortSnapshot(port, admin));
    }

    method SendLine(line: FilterLine, works: bool) returns (ok: bool)
      modifies this`page, this`wire
      ensures wire == old(wire) + if works then [line] else []
      ensures ok == works && page == if works then ApplyFilterLine(old(page), line) else old(page)
      ensures PortNoNulls(old(page.port)) && (line.PortSnapshot? ==> PortNoNulls(line.port)) ==> PortNoNulls(page.port)
    {
      if PortNoNulls(page.port) && (line.PortSnapshot? ==> PortNoNulls(line.port)) {
        FilterLineKeepsNoNulls(page, line);
      }
      if works {
        page, wire := ApplyFilterLine(page, line), wire + [line];
      }
      ok := works;
    }

    method StillAuthorised(open: bool, account: Option<bool>) returns (ok: bool)
      requires Valid()
      modifies this`admin, this`lastPort
      ensures Valid() && ok == (open || account.Some?)
      ensures ok ==> admin == if open then old(admin) else account.value
      ensures ok ==> lastPort == if admin == old(admin) then old(lastPort) else None
    {
      if open {
        return true;
      }
      if account.None? {
        return false;
      }
      if account.value != admin {
        admin := account.value;
        lastPort := None;
      }
      ok := true;
    }

    /** A port's payload is never empty: it always says how it is connected. */
    method BroadcastFilter(now: int, port: Option<Port>, sends: nat -> bool) returns (ok: bool)
      requires Valid() && (port.Some? ==> port.value != map[])
      modifies this`lastPort, this`lastSend, this`page, this`wire
      ensures ok ==>
                var news := match (old(lastPort), port)
                            case (None, None) => []
                            case (Some(_), None) => [PortRemoved]
                            case (None, Some(_)) => [PortSnapshot(port, admin)]
                            case (Some(was), Some(cur)) =>
                              if was == cur then [] else [PortDelta(Differences(was, cur))];
                && wire == old(wire) + (if news == [] && now - old(lastSend) > 30 then [PortHeartbeat] else news)
                && lastSend == if news == [] && now - old(lastSend) <= 30 then old(lastSend) else now
      ensures (forall k: nat :: sends(k)) ==> ok
      ensures ok ==> Valid() && lastPort == port
      ensures ok ==> (ShowsPort(page.port, port) <==> !(port.None? && old(Stale())))
      ensures ok ==> (Stale() <==> port.None? && old(Stale()))
      ensures ok && PortNoNulls(old(page.port)) && PortNoNulls(port) ==>
                PortNoNulls(page.port) && (page.port == port <==> !Stale())
      ensures ok && port.Some? ==> page.admin == admin
    {
      ok := true;
      var sent := false;
      if port.None? && lastPort.Some? {
        ok := SendLine(PortRemoved, sends(0));
        sent := true;
      } else if port.Some? && lastPort.None? {
        ok := SendLine(PortSnapshot(port, admin), sends(0));
        sent := true;
      } else if port.Some? && port != lastPort {
        DeltaKeepsMeaning(page.port.value, lastPort.value, port.value);
        ok := SendLine(PortDelta(Differences(lastPort.value, port.value)), sends(0));
        sent := true;
      }
      if ok && !sent && now - lastSend > KEEPALIVE {
        ok := SendLine(PortHeartbeat, sends(1));
        sent := true;
      }
      if !ok {
        return;
      }
      if sent {
        lastSend := now;
      }
      lastPort := port;
      if PortNoNulls(page.port) && PortNoNulls(port) && ShowsPort(page.port, port) {
        ShowsPortExactly(page.port, port);
      }
    }

    /**
     * A whole tick. The page is right about the port unless the port is not
     * there and the admin flag changed in the very tick it went: the server
     * forgets it has shown the port, so it never says it is gone.
     */
    method BroadcastToEntry(open: bool, account: Option<bool>, now: int, port: Option<Port>, sends: nat -> bool)
        returns (ok: bool)
      requires Valid() && (port.Some? ==> port.value != map[])
      modifies this
      ensures (open || account.Some?) && (forall k: nat :: sends(k)) ==> ok
      ensures ok ==> Valid() && lastPort == port && (port.Some? ==> page.admin == admin)
      ensures ok ==> (open || account.Some?) && admin == if open then old(admin) else account.value
      ensures ok ==> (ShowsPort(page.port, port) <==> !Stale())
      ensures ok ==> (Stale() <==>
                port.None? && (old(Stale()) || (old(lastPort).Some? && admin != old(admin))))
      ensures ok && PortNoNulls(old(page.port)) && PortNoNulls(port) ==>
                PortNoNulls(page.port) && (page.port == port <==> !Stale())
    {
      ok := StillAuthorised(open, account);
      if ok {
        ok := BroadcastFilter(now, port, sends);
      }
    }
  }

  /** A page watching a port that goes as its reader becomes an admin keeps showing it. */
  method ForgottenRemoval(port: Port) returns (entry: FilterEntry)
    requires port != map[]
    ensures entry.lastPort == None && entry.page.port.Some?
  {
    entry := new FilterEntry(Some(port), false, 0);
    var ok := entry.BroadcastToEntry(false, Some(true), 1, None, k => true);
    assert ok && entry.Stale();
  }
}
