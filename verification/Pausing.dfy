// Backpressure on WebSocket clients: which of them are not being read, and
// which of those nobody will resume.
module Pausing {
  import opened Lists
  import opened Ports

  datatype Event =
    | Attach(client: Client)       // the port limit allowed it
    | Detach(client: Client)
    | Leave(client: Client)        // the connection is gone
    | SetReadPaused(paused: bool)

  /** `held` are the clients whose sockets are not being read. */
  datatype State = State(attached: set<Client>, paused: bool, held: set<Client>)

  const START := State({}, false, {})

  /** Only the attached are paused and resumed, and only when the state turns. */
  function Step(s: State, e: Event): State {
    match e
    case Attach(c) =>
      if c in s.attached then s
      else State(s.attached + {c}, s.paused, if s.paused then s.held + {c} else s.held)
    case Detach(c) =>
      s.(attached := s.attached - {c})
    case Leave(c) =>
      s.(attached := s.attached - {c}, held := s.held - {c})
    case SetReadPaused(paused) =>
      if s.paused == paused then s
      else State(s.attached, paused, if paused then s.held + s.attached else s.held - s.attached)
  }

  function After(run: seq<Event>): State {
    if run == [] then START else Step(After(run[..|run| - 1]), run[|run| - 1])
  }

  /** At step `k` the client let go of the port while it was being held back. */
  ghost predicate LetGo(run: seq<Event>, k: nat, c: Client)
    requires k < |run|
  {
    var s := After(run[..k]);
    run[k] == Detach(c) && c in s.attached && s.paused
  }

  /** At step `k` the client is put into the state the port is in, or is gone. */
  ghost predicate PutRight(run: seq<Event>, k: nat, c: Client)
    requires k < |run|
  {
    var s := After(run[..k]);
    match run[k]
    case Attach(d) => d == c && c !in s.attached && s.paused
    case Detach(_) => false
    case Leave(d) => d == c
    case SetReadPaused(paused) => paused != s.paused && c in s.attached
  }

  /** It let go while held back, and nothing has put it right since. */
  ghost predicate Stranded(run: seq<Event>, c: Client) {
    exists k: nat | k < |run| && LetGo(run, k, c) :: forall j: nat | k < j < |run| :: !PutRight(run, j, c)
  }

  /**
   * Over any run, a client is not being read exactly when it is attached to
   * a paused port, or was stranded by letting go of one.
   */
  lemma {:induction false} HeldExactly(run: seq<Event>, c: Client)
    ensures c in After(run).held <==> (After(run).paused && c in After(run).attached) || Stranded(run, c)
    decreases |run|
  {
    if run != [] {
      var n := |run| - 1;
      HeldExactly(run[..n], c);
      StrandedStep(run, c);
    }
  }

  lemma StrandedStep(run: seq<Event>, c: Client)
    requires run != []
    ensures var n := |run| - 1;
            Stranded(run, c) <==> LetGo(run, n, c) || (Stranded(run[..n], c) && !PutRight(run, n, c))
  {
    var n := |run| - 1;
    var before := run[..n];
    forall k: nat | k < n
      ensures before[..k] == run[..k]
      ensures LetGo(before, k, c) == LetGo(run, k, c) && PutRight(before, k, c) == PutRight(run, k, c)
    {
      assert before[..k] == run[..k];
    }
    if Stranded(run, c) && !LetGo(run, n, c) {
      var k: nat :| k < |run| && LetGo(run, k, c) && forall j: nat | k < j < |run| :: !PutRight(run, j, c);
      assert LetGo(before, k, c) && !PutRight(run, n, c);
    }
    if Stranded(before, c) && !PutRight(run, n, c) {
      var k: nat :| k < n && LetGo(before, k, c) && forall j: nat | k < j < n :: !PutRight(before, j, c);
      assert LetGo(run, k, c);
    }
  }

  /** The port has long resumed, and even attaching again does not wake the client. */
  lemma StillHeld(c: Client)
    ensures var run := [Attach(c), SetReadPaused(true), Detach(c), SetReadPaused(false), Attach(c)];
            After(run) == State({c}, false, {c})
  {
    var run := [Attach(c), SetReadPaused(true), Detach(c), SetReadPaused(false), Attach(c)];
    assert run[..1] + [run[1]] == run[..2] && run[..2] + [run[2]] == run[..3];
    assert run[..3] + [run[3]] == run[..4] && run[..4] + [run[4]] == run;
    AfterMore(run[..1], run[1]);
    AfterMore(run[..2], run[2]);
    AfterMore(run[..3], run[3]);
    AfterMore(run[..4], run[4]);
  }

  lemma AfterMore(run: seq<Event>, e: Event)
    ensures After(run + [e]) == Step(After(run), e)
  {
    assert (run + [e])[..|run|] == run;
  }

  class Endpoint {
    var attached: seq<Client>
    var readPaused: bool
    var held: set<Client>

    function Abstract(): State
      reads this
    {
      State((set c | c in attached), readPaused, held)
    }

    constructor ()
      ensures Distinct(attached) && Abstract() == START
    {
      attached, readPaused, held := [], false, {};
    }

    method Attach(c: Client)
      requires Distinct(attached)
      modifies this
      ensures Distinct(attached) && Abstract() == Step(old(Abstract()), Event.Attach(c))
    {
      if c in attached {
        return;
      }
      attached := attached + [c];
      if readPaused {
        ApplyReadPaused(c);
      }
    }

    method Detach(c: Client)
      requires Distinct(attached)
      modifies this`attached
      ensures Distinct(attached) && Abstract() == Step(old(Abstract()), Event.Detach(c))
    {
      RemovedMembers(attached, c);
      if c in attached {
        attached := Removed(attached, c);
      }
    }

    /** The connection has gone, and its socket with it. */
    method Leave(c: Client)
      requires Distinct(attached)
      modifies this`attached, this`held
      ensures Distinct(attached) && Abstract() == Step(old(Abstract()), Event.Leave(c))
    {
      Detach(c);
      held := held - {c};
    }

    /** uhttp stops or resumes reading one socket. */
    method ApplyReadPaused(c: Client)
      modifies this`held
      ensures held == if readPaused then old(held) + {c} else old(held) - {c}
    {
      held := if readPaused then held + {c} else held - {c};
    }

    method SetReadPaused(paused: bool)
      modifies this`readPaused, this`held
      ensures Abstract() == Step(old(Abstract()), Event.SetReadPaused(paused))
    {
      if readPaused == paused {
        return;
      }
      readPaused := paused;
      for i := 0 to |attached|
        invariant readPaused == paused
        invariant forall c :: c in held <==>
          if c in attached[..i] then paused else c in old(held)
      {
        assert attached[..i + 1] == attached[..i] + [attached[i]];
        ApplyReadPaused(attached[i]);
      }
      assert attached[..|attached|] == attached;
    }
  }

  /** The port turns every endpoint it has; one built later is not told. */
  class PausingPort {
    var paused: bool
    var servers: seq<Endpoint>
    ghost var late: set<Endpoint>     // built since the port last turned

    ghost predicate Valid()
      reads this, servers
    {
      && Distinct(servers)
      && (forall s | s in servers :: s.readPaused == (paused && s !in late))
    }

    constructor ()
      ensures Valid() && !paused && servers == []
    {
      paused, servers, late := false, [], {};
    }

    method SetReadPaused(on: bool)
      requires Valid()
      modifies this`paused, this`late, servers
      ensures Valid() && paused == on && late == {}
      ensures forall s | s in servers :: s.Abstract() == Step(old(s.Abstract()), Event.SetReadPaused(on))
    {
      paused, late := on, {};
      Pairwise(servers);
      for i := 0 to |servers|
        invariant paused == on && late == {}
        invariant forall j | 0 <= j < i ::
          servers[j].Abstract() == Step(old(servers[j].Abstract()), Event.SetReadPaused(on))
        invariant forall j | i <= j < |servers| :: unchanged(servers[j])
      {
        servers[i].SetReadPaused(on);
      }
      forall s | s in servers
        ensures s.Abstract() == Step(old(s.Abstract()), Event.SetReadPaused(on)) && s.readPaused == on
      {
        var i :| 0 <= i < |servers| && servers[i] == s;
        assert s.Abstract().paused == on;
      }
    }

    method Build() returns (s: Endpoint)
      requires Valid()
      modifies this`servers, this`late
      ensures Valid() && servers == old(servers) + [s] && fresh(s) && s.Abstract() == START
      ensures late == old(late) + {s}
    {
      s := new Endpoint();
      servers, late := servers + [s], late + {s};
    }
  }
}
