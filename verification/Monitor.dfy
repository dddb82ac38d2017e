// Watching a shared line: every byte is tagged with a slot, and the slot has
// to mean, to each watcher, exactly the client that wrote the byte.
module Monitor {
  import opened Bytes
  import opened Lists
  import opened Wrappers

  const DEVICE: nat := 0
  const FIRST_SLOT: nat := 1
  const LAST_SLOT: nat := 254
  const OVERFLOW: nat := 255

  type Con = nat
  type Watcher = nat

  datatype Peer = Peer(slot: nat, con: Con)

  /** A traffic frame is recorded beside whoever produced it (None: the device). */
  datatype Frame =
    | Hello(peers: seq<Peer>)
    | PeerConnected(peer: Peer, peers: seq<Peer>)
    | PeerDisconnected(peer: Peer, peers: seq<Peer>)
    | Traffic(tag: nat, data: seq<byte>, writer: Option<Con>)

  // ---- what a watcher can conclude

  /** The last list of peers in some mail. */
  function LastPeers(frames: seq<Frame>): seq<Peer> {
    if frames == [] then []
    else if frames[|frames| - 1].Traffic? then LastPeers(frames[..|frames| - 1])
    else frames[|frames| - 1].peers
  }

  /** In this list the tag names the writer and nobody else. */
  ghost predicate Names(peers: seq<Peer>, tag: nat, writer: Option<Con>) {
    && (tag == DEVICE <==> writer.None?)
    && (FIRST_SLOT <= tag <= LAST_SLOT ==>
      && writer.Some? && Peer(tag, writer.value) in peers
      && forall p | p in peers :: p.slot == tag ==> p.con == writer.value)
  }

  /** Every traffic frame is named by the last list sent before it. */
  ghost predicate Attributed(frames: seq<Frame>) {
    frames != [] ==>
      var n := |frames| - 1;
      && Attributed(frames[..n])
      && (frames[n].Traffic? ==> Names(LastPeers(frames[..n]), frames[n].tag, frames[n].writer))
  }

  lemma {:induction false} AttributedAt(frames: seq<Frame>, k: nat)
    requires Attributed(frames) && k < |frames| && frames[k].Traffic?
    ensures Names(LastPeers(frames[..k]), frames[k].tag, frames[k].writer)
    decreases |frames|
  {
    var n := |frames| - 1;
    if k < n {
      AttributedAt(frames[..n], k);
      assert frames[..n][..k] == frames[..k];
    }
  }

  /** The last list from before those it has reported gone since. */
  function ListedBefore(frames: seq<Frame>): seq<Peer> {
    if frames == [] then []
    else
      var f := frames[|frames| - 1];
      if f.Traffic? || f.PeerDisconnected? then ListedBefore(frames[..|frames| - 1]) else f.peers
  }

  /**
   * Who is announced is on the list sent with it, and had no slot on the
   * last; who leaves was on a list before, and is not on the one sent.
   */
  ghost predicate IsNews(before: seq<Frame>, f: Frame) {
    && (f.PeerConnected? ==>
          && f.peer in f.peers
          && forall p | p in LastPeers(before) && p.con == f.peer.con :: p.slot > LAST_SLOT)
    && (f.PeerDisconnected? ==>
          && f.peer in ListedBefore(before)
          && forall p | p in f.peers :: p.con != f.peer.con)
  }

  ghost predicate Announced(frames: seq<Frame>) {
    frames != [] ==>
      var n := |frames| - 1;
      Announced(frames[..n]) && IsNews(frames[..n], frames[n])
  }

  /** What any announcement in such mail says of its client. */
  lemma {:induction false} AnnouncedAt(frames: seq<Frame>, k: nat)
    requires Announced(frames) && k < |frames|
    ensures frames[k].PeerConnected? ==>
              && frames[k].peer in frames[k].peers
              && forall p | p in LastPeers(frames[..k]) && p.con == frames[k].peer.con :: p.slot > LAST_SLOT
    ensures frames[k].PeerDisconnected? ==>
              && frames[k].peer in ListedBefore(frames[..k])
              && forall p | p in frames[k].peers :: p.con != frames[k].peer.con
    decreases |frames|
  {
    var n := |frames| - 1;
    if k < n {
      AnnouncedAt(frames[..n], k);
      assert frames[..n][..k] == frames[..k];
    }
  }

  lemma Delivered(frames: seq<Frame>, f: Frame)
    ensures LastPeers(frames + [f]) == if f.Traffic? then LastPeers(frames) else f.peers
    ensures ListedBefore(frames + [f]) == if f.Traffic? || f.PeerDisconnected? then ListedBefore(frames) else f.peers
    ensures Attributed(frames) && (f.Traffic? ==> Names(LastPeers(frames), f.tag, f.writer)) ==>
              Attributed(frames + [f])
    ensures Announced(frames) && IsNews(frames, f) ==> Announced(frames + [f])
  {
    assert (frames + [f])[..|frames|] == frames;
  }

  // ---- slots

  /** No two clients share a slot that names one. */
  ghost predicate Slotted(slots: map<Con, nat>) {
    && (forall c | c in slots :: FIRST_SLOT <= slots[c] <= OVERFLOW)
    && (forall a, b | a in slots && b in slots && a != b && slots[a] <= LAST_SLOT :: slots[a] != slots[b])
  }

  /** The lowest free slot from `slot` on, or the overflow. */
  function Free(slots: map<Con, nat>, slot: nat): (r: nat)
    requires FIRST_SLOT <= slot <= OVERFLOW
    ensures slot <= r <= OVERFLOW
    ensures r <= LAST_SLOT ==> r !in slots.Values
    ensures forall s | slot <= s < r :: s in slots.Values
    decreases OVERFLOW - slot
  {
    if slot == OVERFLOW || slot !in slots.Values then slot else Free(slots, slot + 1)
  }

  lemma SlottedAdd(slots: map<Con, nat>, c: Con)
    requires Slotted(slots) && c !in slots
    ensures Slotted(slots[c := Free(slots, FIRST_SLOT)])
  {
    assert forall a | a in slots :: slots[a] in slots.Values;
  }

  /** Hand out slots to the newcomers of a walk, in the order met. */
  function Assign(slots: map<Con, nat>, present: seq<Con>): map<Con, nat> {
    if present == [] then slots
    else
      var before := Assign(slots, present[..|present| - 1]);
      var c := present[|present| - 1];
      if c in before then before else before[c := Free(before, FIRST_SLOT)]
  }

  /** Those who stay keep their slot, and newcomers never take a taken one. */
  lemma {:induction false} AssignKeeps(slots: map<Con, nat>, present: seq<Con>)
    requires Slotted(slots)
    ensures Slotted(Assign(slots, present))
    ensures forall c | c in slots :: c in Assign(slots, present) && Assign(slots, present)[c] == slots[c]
    ensures forall c :: c in Assign(slots, present) <==> c in slots || c in present
  {
    if present != [] {
      var n := |present| - 1;
      var before, c := Assign(slots, present[..n]), present[n];
      AssignKeeps(slots, present[..n]);
      assert forall x :: x in present <==> x in present[..n] || x == c;
      if c !in before {
        SlottedAdd(before, c);
      }
    }
  }

  /** The slot a newcomer is given is the least nobody has, or the overflow. */
  lemma NewcomerSlot(slots: map<Con, nat>, present: seq<Con>, k: nat)
    requires Slotted(slots) && Distinct(present) && k < |present| && present[k] !in slots
    ensures present[k] in Assign(slots, present)
    ensures Assign(slots, present)[present[k]] == Free(Assign(slots, present[..k]), FIRST_SLOT)
  {
    AssignKeeps(slots, present[..k]);
    assert present[..k + 1][..k] == present[..k] && present[..k + 1][k] == present[k];
    NotBefore(present, k);
    AssignPrefix(slots, present, k + 1);
  }

  /** 255 is given exactly when all 254 slots are taken. */
  lemma OverflowOnlyWhenFull(slots: map<Con, nat>)
    ensures Free(slots, FIRST_SLOT) == OVERFLOW <==> forall s | FIRST_SLOT <= s <= LAST_SLOT :: s in slots.Values
  {
    if forall s | FIRST_SLOT <= s <= LAST_SLOT :: s in slots.Values {
      assert Free(slots, FIRST_SLOT) > LAST_SLOT;
    }
  }

  lemma {:induction false} AssignPrefix(slots: map<Con, nat>, present: seq<Con>, n: nat)
    requires Slotted(slots) && n <= |present|
    ensures var part, all := Assign(slots, present[..n]), Assign(slots, present);
            forall c | c in part :: c in all && all[c] == part[c]
    decreases |present|
  {
    if n < |present| {
      var m := |present| - 1;
      AssignPrefix(slots, present[..m], n);
      assert present[..m][..n] == present[..n];
    } else {
      assert present[..n] == present;
    }
  }

  function PeerList(slots: map<Con, nat>, present: seq<Con>): (peers: seq<Peer>)
    ensures |peers| == |present|
    ensures forall i | 0 <= i < |present| ::
              peers[i] == Peer(if present[i] in slots then slots[present[i]] else OVERFLOW, present[i])
  {
    seq(|present|, i requires 0 <= i < |present| =>
      Peer(if present[i] in slots then slots[present[i]] else OVERFLOW, present[i]))
  }

  /** A list that names every slotted client but `gone`, and nobody wrongly. */
  ghost predicate Agrees(peers: seq<Peer>, slots: map<Con, nat>, gone: set<Con>) {
    && (forall c | c in slots && c !in gone :: slots[c] <= LAST_SLOT ==> Peer(slots[c], c) in peers)
    && (forall p | p in peers :: p.slot <= LAST_SLOT ==> p.con in slots && slots[p.con] == p.slot)
  }

  lemma ListAgrees(slots: map<Con, nat>, present: seq<Con>, gone: set<Con>)
    requires forall c | c in slots && c !in gone :: c in present
    requires Slotted(slots)
    ensures Agrees(PeerList(slots, present), slots, gone)
  {
    forall c | c in slots && c !in gone
      ensures Peer(slots[c], c) in PeerList(slots, present)
    {
      var i :| 0 <= i < |present| && present[i] == c;
      assert PeerList(slots, present)[i] == Peer(slots[c], c);
    }
  }

  /** One watcher's mail: all named, all news, and its lists agree with the slots. */
  ghost predicate InTouch(frames: seq<Frame>, slots: map<Con, nat>, gone: set<Con>) {
    && Attributed(frames) && Announced(frames)
    && Agrees(LastPeers(frames), slots, gone)
    && forall c | c in slots :: Peer(slots[c], c) in ListedBefore(frames)
  }

  lemma SlottedListed(slots: map<Con, nat>, present: seq<Con>, c: Con)
    requires c in slots && c in present
    ensures Peer(slots[c], c) in PeerList(slots, present)
  {
    var i :| 0 <= i < |present| && present[i] == c;
    assert PeerList(slots, present)[i] == Peer(slots[c], c);
  }

  /** Mail that starts from a list, or takes in somebody new. */
  lemma FreshList(frames: seq<Frame>, f: Frame, slots: map<Con, nat>, present: seq<Con>)
    requires Slotted(slots) && forall c | c in slots :: c in present
    requires Attributed(frames) && Announced(frames)
    requires f.Hello? || f.PeerConnected?
    requires f.peers == PeerList(slots, present) && IsNews(frames, f)
    ensures InTouch(frames + [f], slots, {})
  {
    Delivered(frames, f);
    ListAgrees(slots, present, {});
    forall c | c in slots
      ensures Peer(slots[c], c) in f.peers
    {
      SlottedListed(slots, present, c);
    }
  }

  lemma NewcomerTold(frames: seq<Frame>, slots: map<Con, nat>, present: seq<Con>, c: Con, slot: nat)
    requires InTouch(frames, slots, {}) && c !in slots && c in present && Slotted(slots[c := slot])
    requires forall x | x in slots :: x in present
    ensures var more := slots[c := slot];
            InTouch(frames + [PeerConnected(Peer(slot, c), PeerList(more, present))], more, {})
  {
    var more := slots[c := slot];
    SlottedListed(more, present, c);
    forall p | p in LastPeers(frames) && p.con == c
      ensures p.slot > LAST_SLOT
    {
      assert p.slot <= LAST_SLOT ==> p.con in slots;
    }
    FreshList(frames, PeerConnected(Peer(slot, c), PeerList(more, present)), more, present);
  }

  lemma LeaverTold(frames: seq<Frame>, slots: map<Con, nat>, present: seq<Con>, gone: set<Con>, c: Con)
    requires InTouch(frames, slots, gone) && Slotted(slots) && c in slots && c in gone && c !in present
    requires forall x | x in slots :: x in present || x in gone
    ensures InTouch(frames + [PeerDisconnected(Peer(slots[c], c), PeerList(slots, present))], slots - {c}, gone - {c})
  {
    var f := PeerDisconnected(Peer(slots[c], c), PeerList(slots, present));
    Delivered(frames, f);
    ListAgrees(slots - {c}, present, gone - {c});
    assert PeerList(slots - {c}, present) == PeerList(slots, present);
  }

  lemma TrafficTold(frames: seq<Frame>, f: Frame, slots: map<Con, nat>)
    requires InTouch(frames, slots, {}) && Slotted(slots) && f.Traffic?
    requires f.tag == if f.writer.None? then DEVICE
                      else if f.writer.value in slots then slots[f.writer.value] else OVERFLOW
    ensures InTouch(frames + [f], slots, {})
  {
    Delivered(frames, f);
    if f.writer.Some? {
      TagNames(LastPeers(frames), slots, f.writer.value);
    }
  }

  /** A tag taken from the slots is named by any list that agrees with them. */
  lemma TagNames(peers: seq<Peer>, slots: map<Con, nat>, writer: Con)
    requires Slotted(slots) && Agrees(peers, slots, {})
    ensures Names(peers, if writer in slots then slots[writer] else OVERFLOW, Some(writer))
  {
  }

  /** The slots of those who are still there. */
  function Staying(slots: map<Con, nat>, present: seq<Con>): map<Con, nat> {
    map c | c in slots && c in present :: slots[c]
  }

  /** The slots of those present and of those still to be reported gone. */
  function Remaining(slots: map<Con, nat>, present: seq<Con>, gone: set<Con>): map<Con, nat> {
    map c | c in slots && (c in present || c in gone) :: slots[c]
  }

  lemma RemainingSteps(slots: map<Con, nat>, present: seq<Con>, gone: set<Con>, c: Con)
    ensures c !in present ==> Remaining(slots, present, gone) - {c} == Remaining(slots, present, gone - {c})
    ensures Remaining(slots, present, {}) == Staying(slots, present)
    ensures (forall x | x in slots :: x in present || x in gone) ==> Remaining(slots, present, gone) == slots
    ensures c in gone && c in slots ==> c in Remaining(slots, present, gone)
  {
  }

  function Departed(slots: map<Con, nat>, present: seq<Con>): set<Con> {
    set c | c in slots && c !in present
  }

  /** Somebody has left or come since the slots were last brought up to date. */
  predicate Stirred(slots: map<Con, nat>, present: seq<Con>) {
    Departed(slots, present) != {} || Newcomers(slots, present)
  }

  predicate Newcomers(slots: map<Con, nat>, present: seq<Con>) {
    exists c | c in present :: c !in slots
  }

  lemma OneMorePresent(slots: map<Con, nat>, present: seq<Con>, i: nat)
    requires Slotted(slots) && i < |present|
    ensures var before := Assign(slots, present[..i]);
            && Assign(slots, present[..i + 1]) ==
               (if present[i] in before then before else before[present[i] := Free(before, FIRST_SLOT)])
            && (Newcomers(slots, present[..i + 1]) <==> Newcomers(slots, present[..i]) || present[i] !in before)
  {
    assert present[..i + 1][..i] == present[..i] && present[..i + 1][i] == present[i];
    AssignKeeps(slots, present[..i]);
    if c :| c in present[..i + 1] && c !in slots {
      assert c == present[i] || c in present[..i];
    }
    assert present[i] in present[..i + 1];
    assert forall c | c in present[..i] :: c in present[..i + 1];
  }

  /** The first departure loses every watcher, and there is a second to report. */
  predicate WalkBreaks(watchers: set<Watcher>, slots: map<Con, nat>, present: seq<Con>, failing: set<Watcher>) {
    watchers != {} && watchers <= failing && |Departed(slots, present)| >= 2
  }

  lemma MoreThanOne(s: set<Con>, c: Con)
    requires c in s
    ensures |s| == |s - {c}| + 1
  {
  }

  /** One frame for each that left, with the slot it had and the list of those still here. */
  function Farewells(slots: map<Con, nat>, present: seq<Con>, left: seq<Con>): (frames: seq<Frame>)
    requires forall c | c in left :: c in slots
    ensures |frames| == |left|
    ensures forall i | 0 <= i < |left| ::
              frames[i] == PeerDisconnected(Peer(slots[left[i]], left[i]), PeerList(slots, present))
  {
    seq(|left|, i requires 0 <= i < |left| => PeerDisconnected(Peer(slots[left[i]], left[i]), PeerList(slots, present)))
  }

  function Farewell(slots: map<Con, nat>, present: seq<Con>, c: Con): seq<Frame>
    requires c in slots
  {
    [PeerDisconnected(Peer(slots[c], c), PeerList(slots, present))]
  }

  lemma FarewellsMore(slots: map<Con, nat>, rest: map<Con, nat>, present: seq<Con>, left: seq<Con>, c: Con)
    requires c in slots && forall x | x in left :: x in slots
    requires rest.Keys <= slots.Keys && forall x | x in rest :: rest[x] == slots[x]
    requires c in rest && forall x | x in present && x in slots :: x in rest
    ensures Farewells(slots, present, left + [c]) == Farewells(slots, present, left) + Farewell(rest, present, c)
  {
    assert PeerList(rest, present) == PeerList(slots, present);
  }

  /** The frame for one that is new, with the slot it gets. */
  function Welcome(slots: map<Con, nat>, present: seq<Con>, c: Con): seq<Frame> {
    var slot := Free(slots, FIRST_SLOT);
    [PeerConnected(Peer(slot, c), PeerList(slots[c := slot], present))]
  }

  /** One for each of the first `n` that is new, in the order met. */
  function Welcomes(slots: map<Con, nat>, present: seq<Con>, n: nat): seq<Frame>
    requires n <= |present|
  {
    if n == 0 then []
    else
      var c, before := present[n - 1], Assign(slots, present[..n - 1]);
      Welcomes(slots, present, n - 1) + if c in before then [] else Welcome(before, present, c)
  }

  lemma Prefixed(a: seq<Frame>, b: seq<Frame>, c: seq<Frame>)
    requires a <= b <= c
    ensures a <= c
  {
  }

  lemma {:induction false} WelcomesGrow(slots: map<Con, nat>, present: seq<Con>, i: nat, n: nat)
    requires i <= n <= |present|
    ensures Welcomes(slots, present, i) <= Welcomes(slots, present, n)
    decreases n
  {
    if i < n {
      WelcomesGrow(slots, present, i, n - 1);
      MoreWelcomes(slots, present, n - 1);
      Prefixed(Welcomes(slots, present, i), Welcomes(slots, present, n - 1), Welcomes(slots, present, n));
    }
  }

  /**
   * Every newcomer has exactly one frame among the welcomes, at the place
   * of its turn, with the least slot free then and a list it is on.
   */
  lemma WelcomedInTurn(slots: map<Con, nat>, present: seq<Con>, i: nat)
    requires Slotted(slots) && i < |present| && present[i] !in slots && present[i] !in present[..i]
    ensures var frames, k := Welcomes(slots, present, |present|), |Welcomes(slots, present, i)|;
            var slot := Free(Assign(slots, present[..i]), FIRST_SLOT);
            && k < |frames| && frames[k].PeerConnected? && frames[k].peer == Peer(slot, present[i])
            && frames[k].peer in frames[k].peers
            && forall j | 0 <= j < |frames| && j != k :: frames[j].PeerConnected? && frames[j].peer.con != present[i]
  {
    var frames, k := Welcomes(slots, present, |present|), |Welcomes(slots, present, i)|;
    AssignKeeps(slots, present[..i]);
    MoreWelcomes(slots, present, i);
    WelcomesGrow(slots, present, i + 1, |present|);
    assert frames[k] == Welcomes(slots, present, i + 1)[k];
    SlottedListed(Assign(slots, present[..i])[present[i] := frames[k].peer.slot], present, present[i]);
    forall j | 0 <= j < |frames| && j != k
      ensures frames[j].PeerConnected? && frames[j].peer.con != present[i]
    {
      var a := WelcomeAt(slots, present, |present|, j);
      if a < i {
        assert present[..i][a] == present[a];
      } else if a > i {
        AssignKeeps(slots, present[..a]);
        assert present[..a][i] == present[i];
      }
    }
  }

  /** Which turn a welcome belongs to. */
  lemma {:induction false} WelcomeAt(slots: map<Con, nat>, present: seq<Con>, n: nat, j: nat) returns (a: nat)
    requires n <= |present| && j < |Welcomes(slots, present, n)|
    ensures a < n && j == |Welcomes(slots, present, a)| && present[a] !in Assign(slots, present[..a])
    ensures var f := Welcomes(slots, present, n)[j]; f.PeerConnected? && f.peer.con == present[a]
  {
    var rest := Welcomes(slots, present, n - 1);
    if j < |rest| {
      a := WelcomeAt(slots, present, n - 1, j);
      assert Welcomes(slots, present, n)[j] == rest[j];
    } else {
      a := n - 1;
      assert Welcomes(slots, present, n)[j] == Welcome(Assign(slots, present[..a]), present, present[a])[0];
    }
  }

  /** All that one walk says: the farewells, then the welcomes. */
  function News(slots: map<Con, nat>, present: seq<Con>, left: seq<Con>): seq<Frame>
    requires forall c | c in left :: c in slots
  {
    Farewells(slots, present, left) + Welcomes(Staying(slots, present), present, |present|)
  }

  /** The watchers and their mail at one moment. */
  datatype Room = Room(watchers: seq<Watcher>, inbox: map<Watcher, seq<Frame>>)

  /** These frames went out: who cannot be reached by any is gone, and everybody else has just them. */
  ghost predicate Heard(a: Room, b: Room, frames: seq<Frame>, failing: set<Watcher>) {
    && (forall w :: w in b.watchers <==> w in a.watchers && !(frames != [] && w in failing))
    && forall w | w in b.watchers :: w in a.inbox && w in b.inbox && b.inbox[w] == a.inbox[w] + frames
  }

  lemma HeardOn(a: Room, m: Room, b: Room, first: seq<Frame>, second: seq<Frame>, failing: set<Watcher>)
    requires Heard(a, m, first, failing) && Heard(m, b, second, failing)
    ensures Heard(a, b, first + second, failing)
  {
    forall w | w in b.watchers
      ensures w in a.inbox && b.inbox[w] == a.inbox[w] + (first + second)
    {
      Assoc(a.inbox[w], first, second);
    }
  }

  /** With nobody left it does not matter what else would have been said. */
  lemma HeardEnough(a: Room, b: Room, said: seq<Frame>, frames: seq<Frame>, failing: set<Watcher>)
    requires Heard(a, b, said, failing)
    requires if b.watchers == [] then frames != [] || a.watchers == [] else frames == said
    ensures Heard(a, b, frames, failing)
  {
  }

  lemma MoreWelcomes(slots: map<Con, nat>, present: seq<Con>, i: nat)
    requires i < |present|
    ensures var before := Assign(slots, present[..i]);
            Welcomes(slots, present, i + 1) ==
            Welcomes(slots, present, i) + if present[i] in before then [] else Welcome(before, present, present[i])
  {
  }

  /** Nobody watching can be reached any more. */
  predicate Lost(a: Room, failing: set<Watcher>) {
    a.watchers != [] && forall w | w in a.watchers :: w in failing
  }

  lemma LostThen(a: Room, b: Room, frames: seq<Frame>, failing: set<Watcher>)
    requires Heard(a, b, frames, failing)
    ensures Lost(a, failing) && frames != [] ==> b.watchers == []
    ensures !Lost(a, failing) || frames == [] ==> (b.watchers == [] <==> a.watchers == [])
  {
    assert b.watchers != [] ==> b.watchers[0] in b.watchers;
    assert a.watchers != [] ==> a.watchers[0] in a.watchers;
  }

  lemma NothingHeard(a: Room, failing: set<Watcher>)
    requires forall w | w in a.watchers :: w in a.inbox
    ensures Heard(a, a, [], failing)
  {
    assert forall w | w in a.watchers :: a.inbox[w] + [] == a.inbox[w];
  }

  /** Something is said exactly when somebody has left or come. */
  lemma SaidWhenStirred(slots: map<Con, nat>, present: seq<Con>, left: seq<Con>)
    requires Slotted(slots) && forall c :: c in left <==> c in slots && c !in present
    ensures News(slots, present, left) != [] <==> Stirred(slots, present)
  {
    var stay := Staying(slots, present);
    WelcomesWhenNew(stay, present, |present|);
    assert present[..|present|] == present;
    assert left != [] ==> left[0] in Departed(slots, present);
    if Newcomers(slots, present) {
      var c :| c in present && c !in slots;
      assert c !in stay;
    }
  }

  lemma {:induction false} WelcomesWhenNew(slots: map<Con, nat>, present: seq<Con>, n: nat)
    requires Slotted(slots) && n <= |present|
    ensures Welcomes(slots, present, n) != [] <==> Newcomers(slots, present[..n])
  {
    if n > 0 {
      WelcomesWhenNew(slots, present, n - 1);
      OneMorePresent(slots, present, n - 1);
    }
  }

  class ServerMonitor {
    var connections: seq<Watcher>
    var registered: bool                 // with the port, as a monitor
    var slots: map<Con, nat>
    var known: map<Con, Peer>
    ghost var inbox: map<Watcher, seq<Frame>>

    /** Slots are unshared, and what is known of a client is its slot. */
    ghost predicate SlotsOk()
      reads this
    {
      Slotted(slots) && known.Keys == slots.Keys && forall c | c in known :: known[c] == Peer(slots[c], c)
    }

    /** Every watcher's mail is attributed, and its last list agrees with the slots. */
    ghost predicate MailOk(gone: set<Con>)
      reads this
    {
      && Distinct(connections)
      && forall w | w in connections ::
           w in inbox && InTouch(inbox[w], slots, gone)
    }

    ghost predicate Valid()
      reads this
    {
      SlotsOk() && MailOk({}) && (registered <==> connections != [])
    }

    constructor ()
      ensures Valid() && connections == [] && slots == map[]
    {
      connections, registered, slots, known, inbox := [], false, map[], map[], map[];
    }

    method RemoveConnection(w: Watcher)
      requires Distinct(connections)
      modifies this`connections, this`registered, this`slots, this`known
      ensures Distinct(connections) && (connections != [] ==> old(connections) != [])
      ensures forall x :: x in connections <==> x in old(connections) && x != w
      ensures w !in old(connections) ==> connections == old(connections)
      ensures connections != [] || w !in old(connections) ==>
                slots == old(slots) && known == old(known) && registered == old(registered)
      ensures connections == [] && w in old(connections) ==> slots == map[] && known == map[] && !registered
    {
      RemovedMembers(connections, w);
      if w in connections {
        connections := Removed(connections, w);
        if connections == [] {
          registered, slots, known := false, map[], map[];
        }
      }
      assert connections != [] ==> connections[0] in connections;
    }

    /** One frame to every watcher; one whose socket is gone is dropped. */
    method Broadcast(f: Frame, failing: set<Watcher>)
      requires Distinct(connections) && forall w | w in connections :: w in inbox
      modifies this`connections, this`registered, this`slots, this`known, this`inbox
      ensures Distinct(connections) && (connections != [] ==> old(connections) != [])
      ensures forall w :: w in connections <==> w in old(connections) && w !in failing
      ensures connections != [] || old(connections) == [] ==>
                slots == old(slots) && known == old(known) && registered == old(registered)
      ensures connections == [] && old(connections) != [] ==> slots == map[] && known == map[] && !registered
      ensures forall w | w in connections :: w in inbox && inbox[w] == old(inbox[w]) + [f]
    {
      var snapshot := connections;
      for i := 0 to |snapshot|
        invariant Distinct(connections)
        invariant forall w :: w in connections <==> w in snapshot && !(w in snapshot[..i] && w in failing)
        invariant connections != [] || snapshot == [] ==>
          slots == old(slots) && known == old(known) && registered == old(registered)
        invariant connections == [] && snapshot != [] ==> slots == map[] && known == map[] && !registered
        invariant forall w | w in connections ::
          w in inbox && inbox[w] == old(inbox[w]) + if w in snapshot[..i] then [f] else []
      {
        var w := snapshot[i];
        assert snapshot[..i + 1] == snapshot[..i] + [w];
        NotBefore(snapshot, i);
        if w in failing {
          RemoveConnection(w);
        } else {
          inbox := inbox[w := inbox[w] + [f]];
        }
      }
      assert snapshot[..|snapshot|] == snapshot;
      assert connections != [] ==> connections[0] in snapshot;
    }

    /** News that everybody's mail has been waiting for. */
    method BroadcastNews(f: Frame, ghost gone: set<Con>, failing: set<Watcher>)
      requires SlotsOk() && Distinct(connections) && (registered <==> connections != [])
      requires forall w | w in connections :: w in inbox && InTouch(inbox[w] + [f], slots, gone)
      modifies this`connections, this`registered, this`slots, this`known, this`inbox
      ensures SlotsOk() && MailOk(gone) && (registered <==> connections != [])
      ensures Heard(old(Now()), Now(), [f], failing) && (connections != [] ==> old(connections) != [])
      ensures connections != [] || old(connections) == [] ==>
                slots == old(slots) && known == old(known) && registered == old(registered)
      ensures connections == [] && old(connections) != [] ==> slots == map[]
    {
      Broadcast(f, failing);
    }

    /** A search from 1 upwards, and 255 when it finds nothing. */
    method FreeSlot() returns (slot: nat)
      ensures slot == Free(slots, FIRST_SLOT)
    {
      slot := FIRST_SLOT;
      while slot <= LAST_SLOT
        invariant FIRST_SLOT <= slot <= OVERFLOW
        invariant Free(slots, FIRST_SLOT) == Free(slots, slot)
      {
        if slot !in slots.Values {
          return;
        }
        slot := slot + 1;
      }
    }

    ghost function Now(): Room
      reads this
    {
      Room(connections, inbox)
    }

    ghost function Watchers(): set<Watcher>
      reads this
    {
      set w | w in connections
    }

    /**
     * Report everyone who left, each in a frame of its own. The walk breaks
     * off when the last watcher is lost with departures still to report:
     * their slots are gone by then.
     */
    method ReportDepartures(present: seq<Con>, failing: set<Watcher>) returns (raised: bool, ghost left: seq<Con>)
      requires Valid()
      modifies this`connections, this`registered, this`slots, this`known, this`inbox
      ensures Valid()
      ensures Distinct(left) && forall c | c in left :: c in old(slots) && c !in present
      ensures !raised ==> forall c :: c in left <==> c in old(slots) && c !in present
      ensures Heard(old(Now()), Now(), Farewells(old(slots), present, left), failing)
      ensures raised <==> WalkBreaks(old(Watchers()), old(slots), present, failing)
      ensures raised ==> connections == []
      ensures connections != [] ==> old(connections) != []
      ensures forall c | c in slots :: c in present
      ensures connections != [] || old(connections) == [] ==> slots == Staying(old(slots), present)
    {
      ghost var start, was := Now(), slots;
      StartWalk(present, failing);
      assert connections != [] ==> connections[0] in Watchers();
      assert Lost(start, failing) <==> Watchers() != {} && Watchers() <= failing;
      raised, left := Walk(present, failing, start, was);
      LostThen(start, Now(), Farewells(was, present, left), failing);
      RemainingSteps(was, present, {}, 0);
    }

    lemma StartWalk(present: seq<Con>, failing: set<Watcher>)
      requires Valid()
      ensures Walking(Now(), slots, present, failing, Departed(slots, present), [])
    {
      NothingHeard(Now(), failing);
      RemainingSteps(slots, present, Departed(slots, present), 0);
    }

    method Walk(present: seq<Con>, failing: set<Watcher>, ghost start: Room, ghost was: map<Con, nat>)
        returns (raised: bool, ghost left: seq<Con>)
      requires slots == was && Walking(start, was, present, failing, Departed(was, present), [])
      modifies this`connections, this`registered, this`slots, this`known, this`inbox
      ensures raised <==> Lost(start, failing) && |Departed(was, present)| >= 2
      ensures Distinct(left) && forall c | c in left :: c in was && c !in present
      ensures !raised ==>
                Walking(start, was, present, failing, {}, left) && forall c :: c in left <==> c in was && c !in present
      ensures raised ==>
                && SlotsOk() && slots == map[] && left != [] && MailOk({}) && (registered <==> connections != [])
                && Heard(start, Now(), Farewells(was, present, left), failing)
    {
      ghost var all := Departed(was, present);
      var gone := Departed(slots, present);
      left := [];
      while gone != {}
        invariant Walking(start, was, present, failing, gone, left)
        invariant gone <= all && |gone| + |left| == |all| && (left != [] && Lost(start, failing) ==> |left| == 1)
        invariant Distinct(left) && forall c :: c in left <==> c in all && c !in gone
        decreases gone
      {
        var c :| c in gone;
        MoreThanOne(gone, c);
        LostThen(start, Now(), Farewells(was, present, left), failing);
        RemainingSteps(was, present, gone, c);
        if c !in slots {
          return true, left;
        }
        LeaveOne(c, present, failing, start, was, gone, left);
        DistinctSnoc(left, c);
        gone, left := gone - {c}, left + [c];
      }
      raised := false;
    }

    /** What holds while departures are reported: `left` are, `gone` are still to be. */
    ghost predicate Walking(start: Room, was: map<Con, nat>, present: seq<Con>, failing: set<Watcher>, gone: set<Con>,
                            left: seq<Con>)
      reads this
    {
      && SlotsOk() && MailOk(gone) && (registered <==> connections != [])
      && (forall c | c in left :: c in was) && (forall c | c in gone :: c in was && c !in present)
      && Heard(start, Now(), Farewells(was, present, left), failing)
      && (connections != [] || start.watchers == [] ==> slots == Remaining(was, present, gone))
      && (connections == [] && start.watchers != [] ==> slots == map[])
    }

    method LeaveOne(c: Con, present: seq<Con>, failing: set<Watcher>, ghost start: Room, ghost was: map<Con, nat>,
                    ghost gone: set<Con>, ghost left: seq<Con>)
      requires Walking(start, was, present, failing, gone, left) && c in gone && c in slots
      modifies this`connections, this`registered, this`slots, this`known, this`inbox
      ensures Walking(start, was, present, failing, gone - {c}, left + [c])
    {
      RemainingSteps(was, present, gone, c);
      FarewellsMore(was, slots, present, left, c);
      LostThen(start, Now(), Farewells(was, present, left), failing);
      ghost var mid, next := Now(), Farewell(slots, present, c);
      ReportLeaver(c, present, gone, failing);
      HeardOn(start, mid, Now(), Farewells(was, present, left), next, failing);
      LostThen(start, Now(), Farewells(was, present, left + [c]), failing);
    }

    method ReportLeaver(c: Con, present: seq<Con>, ghost gone: set<Con>, failing: set<Watcher>)
      requires SlotsOk() && MailOk(gone) && (registered <==> connections != [])
      requires c in slots && c in gone && c !in present
      requires forall x | x in slots :: x in present || x in gone
      modifies this`connections, this`registered, this`slots, this`known, this`inbox
      ensures SlotsOk() && MailOk(gone - {c}) && (registered <==> connections != [])
      ensures Heard(old(Now()), Now(), Farewell(old(slots), present, c), failing)
      ensures old(Watchers()) <= failing ==> connections == []
      ensures connections != [] ==> old(connections) != []
      ensures connections != [] || old(connections) == [] ==> slots == old(slots) - {c}
      ensures connections == [] && old(connections) != [] ==> slots == map[]
    {
      forall w | w in connections
        ensures InTouch(inbox[w] + [PeerDisconnected(Peer(slots[c], c), PeerList(slots, present))],
                        slots - {c}, gone - {c})
      {
        LeaverTold(inbox[w], slots, present, gone, c);
      }
      assert PeerList(slots - {c}, present) == PeerList(slots, present);
      var entry := known[c];
      known, slots := known - {c}, slots - {c};
      BroadcastNews(PeerDisconnected(entry, PeerList(slots, present)), gone - {c}, failing);
      assert connections != [] ==> connections[0] in connections && connections[0] in old(Watchers());
    }

    /** Give everyone new a slot, and say so. */
    method ReportArrivals(present: seq<Con>, failing: set<Watcher>)
      requires Valid() && forall c | c in slots :: c in present
      modifies this`connections, this`registered, this`slots, this`known, this`inbox
      ensures Valid()
      ensures Heard(old(Now()), Now(), Welcomes(old(slots), present, |present|), failing)
      ensures connections != [] ==> old(connections) != []
      ensures forall c | c in slots :: c in present
      ensures connections != [] || old(connections) == [] ==> slots == Assign(old(slots), present)
    {
      NothingHeard(Now(), failing);
      ghost var start, was := Now(), slots;
      for i := 0 to |present|
        invariant Arriving(start, was, present, failing, i)
      {
        ArriveOne(present, i, failing, start, was);
      }
      assert present[..|present|] == present;
      LostThen(start, Now(), Welcomes(was, present, |present|), failing);
    }

    /** What holds once the first `i` of those present have been looked at. */
    ghost predicate Arriving(start: Room, was: map<Con, nat>, present: seq<Con>, failing: set<Watcher>, i: nat)
      requires i <= |present|
      reads this
    {
      && Valid() && (forall c | c in slots :: c in present)
      && Heard(start, Now(), Welcomes(was, present, i), failing)
      && (connections != [] || start.watchers == [] ==> slots == Assign(was, present[..i]))
    }

    method ArriveOne(present: seq<Con>, i: nat, failing: set<Watcher>, ghost start: Room, ghost was: map<Con, nat>)
      requires i < |present| && Slotted(was) && Arriving(start, was, present, failing, i)
      modifies this`connections, this`registered, this`slots, this`known, this`inbox
      ensures Arriving(start, was, present, failing, i + 1)
    {
      OneMorePresent(was, present, i);
      LostThen(start, Now(), Welcomes(was, present, i), failing);
      MoreWelcomes(was, present, i);
      ghost var said := Welcomes(was, present, i);
      if present[i] !in slots {
        said := said + Welcome(slots, present, present[i]);
        WelcomeNext(present, i, failing, start, was);
      }
      HeardEnough(start, Now(), said, Welcomes(was, present, i + 1), failing);
    }

    method WelcomeNext(present: seq<Con>, i: nat, failing: set<Watcher>, ghost start: Room, ghost was: map<Con, nat>)
      requires i < |present| && Valid() && (forall c | c in slots :: c in present) && present[i] !in slots
      requires Heard(start, Now(), Welcomes(was, present, i), failing)
      modifies this`connections, this`registered, this`slots, this`known, this`inbox
      ensures Valid() && forall c | c in slots :: c in present
      ensures Heard(start, Now(), Welcomes(was, present, i) + Welcome(old(slots), present, present[i]), failing)
      ensures connections != [] ==> old(connections) != []
      ensures connections != [] || old(connections) == [] ==>
                slots == old(slots)[present[i] := Free(old(slots), FIRST_SLOT)]
    {
      ghost var mid, next := Now(), Welcome(slots, present, present[i]);
      ReportNewcomer(present[i], present, failing);
      HeardOn(start, mid, Now(), Welcomes(was, present, i), next, failing);
    }

    method ReportNewcomer(c: Con, present: seq<Con>, failing: set<Watcher>)
      requires Valid() && c !in slots && c in present && forall x | x in slots :: x in present
      modifies this`connections, this`registered, this`slots, this`known, this`inbox
      ensures Valid() && Heard(old(Now()), Now(), Welcome(old(slots), present, c), failing)
      ensures connections != [] ==> old(connections) != []
      ensures forall x | x in slots :: x in present
      ensures connections != [] || old(connections) == [] ==> slots == old(slots)[c := Free(old(slots), FIRST_SLOT)]
    {
      SlottedAdd(slots, c);
      forall w | w in connections
        ensures var slot := Free(slots, FIRST_SLOT);
                var more := slots[c := slot];
                InTouch(inbox[w] + [PeerConnected(Peer(slot, c), PeerList(more, present))], more, {})
      {
        NewcomerTold(inbox[w], slots, present, c, Free(slots, FIRST_SLOT));
      }
      GiveSlot(c);
      BroadcastNews(PeerConnected(known[c], PeerList(slots, present)), {}, failing);
    }

    method GiveSlot(c: Con)
      requires SlotsOk() && c !in slots
      modifies this`slots, this`known
      ensures SlotsOk() && slots == old(slots)[c := Free(old(slots), FIRST_SLOT)] && known[c] == Peer(slots[c], c)
    {
      var slot := FreeSlot();
      SlottedAdd(slots, c);
      slots := slots[c := slot];
      known := known[c := Peer(slot, c)];
    }

    /** Bring the slots up to date with the clients there are, a frame for each change. */
    method RefreshPeers(present: seq<Con>, failing: set<Watcher>) returns (raised: bool, ghost left: seq<Con>)
      requires Valid()
      modifies this`connections, this`registered, this`slots, this`known, this`inbox
      ensures Valid()
      ensures forall w :: w in connections <==> w in old(connections) && !(Stirred(old(slots), present) && w in failing)
      ensures forall c | c in left :: c in old(slots) && c !in present
      ensures Distinct(left) && (!raised ==> forall c :: c in left <==> c in old(slots) && c !in present)
      ensures Heard(old(Now()), Now(), News(old(slots), present, left), failing)
      ensures raised <==> WalkBreaks(old(Watchers()), old(slots), present, failing)
      ensures raised ==> connections == []
      ensures connections != [] ==> old(connections) != []
      ensures forall c | c in slots :: c in present
      ensures connections != [] || old(connections) == [] ==>
                slots == Assign(Staying(old(slots), present), present)
    {
      raised, left := ReportDepartures(present, failing);
      if !raised {
        ghost var first, second := Farewells(old(slots), present, left), Welcomes(slots, present, |present|);
        ghost var mid := Now();
        ReportArrivals(present, failing);
        HeardOn(old(Now()), mid, Now(), first, second, failing);
        SaidWhenStirred(old(slots), present, left);
      } else {
        HeardEnough(old(Now()), Now(), Farewells(old(slots), present, left), News(old(slots), present, left), failing);
      }
    }

    /** A new watcher starts from a complete list. */
    method AddConnection(w: Watcher, present: seq<Con>, failing: set<Watcher>)
        returns (added: bool, ghost left: seq<Con>)
      requires Valid() && w !in connections
      modifies this
      ensures Valid()
      ensures added <==> !WalkBreaks(old(Watchers()), old(slots), present, failing) && w !in failing
      ensures added ==> w in connections && inbox[w] == [Hello(PeerList(slots, present))]
      ensures added && old(connections) == [] ==>
                connections == [w] && slots == Assign(Staying(old(slots), present), present)
      ensures forall c | c in slots :: c in present
      ensures forall x :: x in connections <==>
                (added && x == w) || (x in old(connections) && !(Stirred(old(slots), present) && x in failing))
      ensures forall c | c in left :: c in old(slots) && c !in present
      ensures forall x | x in connections && x != w ::
                x in old(inbox) && inbox[x] == old(inbox)[x] + News(old(slots), present, left)
    {
      var raised;
      raised, left := RefreshPeers(present, failing);
      added := !raised && w !in failing;
      if !raised {
        Admit(w, present, w in failing);
      }
    }

    method Admit(w: Watcher, present: seq<Con>, fails: bool)
      requires Valid() && w !in connections && forall c | c in slots :: c in present
      modifies this
      ensures Valid() && forall c | c in slots :: c in present
      ensures !fails ==> connections == old(connections) + [w] && slots == old(slots)
      ensures !fails ==> inbox[w] == [Hello(PeerList(slots, present))]
      ensures fails ==> forall x :: x in connections <==> x in old(connections)
      ensures forall x | x != w && x in old(inbox) :: x in inbox && inbox[x] == old(inbox)[x]
    {
      Greet(w, present);
      if fails {
        RemoveConnection(w);
      }
    }

    method Greet(w: Watcher, present: seq<Con>)
      requires Valid() && w !in connections && forall c | c in slots :: c in present
      modifies this`connections, this`registered, this`inbox
      ensures Valid() && connections == old(connections) + [w]
      ensures inbox == old(inbox)[w := [Hello(PeerList(slots, present))]]
    {
      var f := Hello(PeerList(slots, present));
      FreshList([], f, slots, present);
      assert [] + [f] == [f];
      connections := connections + [w];
      registered := true;
      inbox := inbox[w := [f]];
    }

    /** Data goes out under the tag of its writer, who has one by then. */
    method OnData(source: Option<Con>, data: seq<byte>, present: seq<Con>, failing: set<Watcher>)
        returns (ghost tag: nat, ghost left: seq<Con>)
      requires Valid()
      modifies this`connections, this`registered, this`slots, this`known, this`inbox
      ensures Valid()
      ensures forall w :: w in connections <==> w in old(connections) && w !in failing
      ensures forall c | c in left :: c in old(slots) && c !in present
      ensures var said := if source.None? || source.value in old(slots) then [] else News(old(slots), present, left);
              Heard(old(Now()), Now(), said + [Traffic(tag, data, source)], failing)
      ensures connections != [] ==>
                && (tag == if source.None? then DEVICE
                           else if source.value in slots then slots[source.value] else OVERFLOW)
                && (source.Some? && source.value in present ==> source.value in slots)
    {
      var raised;
      ghost var said;
      raised, said, left := NoticeSource(source, present, failing);
      if raised {
        tag := DEVICE;
        HeardEnough(old(Now()), Now(), said, said + [Traffic(tag, data, source)], failing);
        return;
      }
      var slot := if source.None? then DEVICE else if source.value in slots then slots[source.value] else OVERFLOW;
      tag := slot;
      ghost var mid := Now();
      BroadcastTraffic(Traffic(slot, data, source), failing);
      LostThen(mid, Now(), [Traffic(slot, data, source)], failing);
      HeardOn(old(Now()), mid, Now(), said, [Traffic(slot, data, source)], failing);
    }

    /** Whoever wrote may not have a slot yet. */
    method NoticeSource(source: Option<Con>, present: seq<Con>, failing: set<Watcher>)
        returns (raised: bool, ghost said: seq<Frame>, ghost left: seq<Con>)
      requires Valid()
      modifies this`connections, this`registered, this`slots, this`known, this`inbox
      ensures Valid() && (raised ==> connections == [])
      ensures forall c | c in left :: c in old(slots) && c !in present
      ensures said == if source.None? || source.value in old(slots) then [] else News(old(slots), present, left)
      ensures Heard(old(Now()), Now(), said, failing)
      ensures !raised && connections != [] && source.Some? && source.value in present ==> source.value in slots
    {
      raised, said, left := false, [], [];
      if source.Some? && source.value !in slots {
        raised, left := RefreshPeers(present, failing);
        said := News(old(slots), present, left);
        AssignKeeps(Staying(old(slots), present), present);
      } else {
        NothingHeard(Now(), failing);
      }
    }

    method BroadcastTraffic(f: Frame, failing: set<Watcher>)
      requires Valid() && f.Traffic?
      requires f.tag == if f.writer.None? then DEVICE
                        else if f.writer.value in slots then slots[f.writer.value] else OVERFLOW
      modifies this`connections, this`registered, this`slots, this`known, this`inbox
      ensures Valid() && Heard(old(Now()), Now(), [f], failing)
      ensures connections != [] ==> slots == old(slots)
    {
      forall w | w in connections
        ensures InTouch(inbox[w] + [f], slots, {})
      {
        TrafficTold(inbox[w], f, slots);
      }
      BroadcastNews(f, {}, failing);
    }

    /** Drop the watchers that are gone and bring the rest up to date. */
    method ProcessStale(dead: set<Watcher>, present: seq<Con>, failing: set<Watcher>)
        returns (raised: bool, ghost left: seq<Con>)
      requires Valid()
      modifies this`connections, this`registered, this`slots, this`known, this`inbox
      ensures Valid()
      ensures forall w :: w in connections <==>
                w in old(connections) && w !in dead && !(Stirred(old(slots), present) && w in failing)
      ensures raised <==> WalkBreaks(old(Watchers()) - dead, old(slots), present, failing)
      ensures forall c | c in left :: c in old(slots) && c !in present
      ensures forall w | w in connections ::
                w in old(inbox) && w in inbox && inbox[w] == old(inbox)[w] + News(old(slots), present, left)
      ensures connections != [] ==> !raised && slots == Assign(Staying(old(slots), present), present)
    {
      DropDead(dead);
      assert Watchers() == old(Watchers()) - dead;
      raised, left := false, [];
      if connections != [] {
        raised, left := RefreshPeers(present, failing);
      }
    }

    method DropDead(dead: set<Watcher>)
      requires Valid()
      modifies this`connections, this`registered, this`slots, this`known
      ensures Valid()
      ensures forall w :: w in connections <==> w in old(connections) && w !in dead
      ensures connections != [] ==> slots == old(slots)
    {
      var snapshot := connections;
      for i := 0 to |snapshot|
        invariant Valid()
        invariant forall w :: w in connections <==> w in snapshot && !(w in snapshot[..i] && w in dead)
        invariant connections != [] ==> slots == old(slots)
      {
        assert snapshot[..i + 1] == snapshot[..i] + [snapshot[i]];
        if snapshot[i] in dead {
          RemoveConnection(snapshot[i]);
        }
      }
      assert snapshot[..|snapshot|] == snapshot;
    }
  }

  /** One watcher whose socket is gone, and two clients that left together. */
  method BrokenWalk(w: Watcher, a: Con, b: Con) returns (raised: bool)
    requires a != b
    ensures raised
  {
    var monitor := new ServerMonitor();
    var both := [a, b];
    var _, _ := monitor.AddConnection(w, both, {});
    BothDepart(monitor.slots, both, a, b);
    ghost var left;
    raised, left := monitor.RefreshPeers([], {w});
  }

  lemma BothDepart(slots: map<Con, nat>, present: seq<Con>, a: Con, b: Con)
    requires a != b && a in present && b in present
    requires slots == Assign(Staying(map[], present), present)
    ensures |Departed(slots, [])| >= 2
  {
    AssignKeeps(Staying(map[], present), present);
    var departed := Departed(slots, []);
    assert a in departed && b in departed - {a};
    assert |departed - {a}| == |departed| - 1;
  }
}
