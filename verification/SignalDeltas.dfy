// Signal reports carry only the lines that moved. What a client must have
// been told for them to add up to the whole reading, through loss and return.
module SignalDeltas {
  import opened Lists
  import opened Mail
  import opened Signals
  import opened Wrappers

  /** The lines of `now` that differ from what was last reported. */
  function Changed(reported: Option<Reading>, now: Reading): (changes: Reading)
    ensures changes.Keys <= now.Keys
  {
    if reported.None? then now
    else map line | line in now && !(line in reported.value && reported.value[line] == now[line]) :: now[line]
  }

  /** What the device does that a greeted client hears of. */
  datatype Turn = Lost | Found(reading: Reading) | Polled(reading: Reading)

  /** The frames that say so, given what was last reported. */
  function FramesFor(reported: Option<Reading>, turn: Turn): seq<Frame> {
    match turn
    case Lost => [SerialState(false, map[])]
    case Found(reading) => [SerialState(true, reading)]
    case Polled(reading) => if Changed(reported, reading) == map[] then [] else [Report(Changed(reported, reading))]
  }

  /** What counts as reported from then on. */
  function ReportedAfter(reported: Option<Reading>, turn: Turn): Option<Reading> {
    match turn
    case Lost => None
    case Found(reading) => if reading == map[] then reported else Some(reading)
    case Polled(reading) => Some(reading)
  }

  /** The reading every client in step is looking at. */
  function Shown(reported: Option<Reading>): Reading {
    if reported.Some? then reported.value else map[]
  }

  function Sent(reported: Option<Reading>, turns: seq<Turn>): seq<Frame>
    decreases |turns|
  {
    if turns == [] then [] else FramesFor(reported, turns[0]) + Sent(ReportedAfter(reported, turns[0]), turns[1..])
  }

  function Last(reported: Option<Reading>, turns: seq<Turn>): Option<Reading>
    decreases |turns|
  {
    if turns == [] then reported else Last(ReportedAfter(reported, turns[0]), turns[1..])
  }

  predicate Reads(turn: Turn, lines: set<Line>) {
    turn.Lost? || turn.reading.Keys == lines
  }

  /** A reading of just these lines has been reported, or none. */
  predicate Covers(reported: Option<Reading>, lines: set<Line>) {
    reported.Some? ==> reported.value.Keys == lines
  }

  /** What a turn makes of a client's view. */
  function ViewOn(view: Reading, reported: Option<Reading>, turn: Turn): Reading {
    match turn
    case Lost => map[]
    case Found(reading) => view + reading
    case Polled(reading) => view + Changed(reported, reading)
  }

  lemma TurnView(mail: seq<Frame>, reported: Option<Reading>, turn: Turn)
    ensures View(mail + FramesFor(reported, turn)) == ViewOn(View(mail), reported, turn)
  {
    var frames := FramesFor(reported, turn);
    if frames == [] {
      assert mail + [] == mail;
    } else {
      Snoc(mail, frames[0]);
    }
  }

  /** A turn that takes the device from one state to the other. */
  predicate Brings(turn: Turn, open: bool, now: bool) {
    match turn
    case Lost => open && !now
    case Found(_) => !open && now
    case Polled(_) => open && now
  }

  /** Whoever knew how things stood knows it again. */
  lemma TurnKnown(mail: seq<Frame>, reported: Option<Reading>, turn: Turn, open: bool, now: bool, lines: set<Line>)
    requires Knows(mail, open, lines) && Reads(turn, lines) && Brings(turn, open, now)
    ensures Knows(mail + FramesFor(reported, turn), now, lines)
  {
    var frames := FramesFor(reported, turn);
    if frames == [] {
      assert mail + [] == mail;
    } else {
      Snoc(mail, frames[0]);
    }
  }

  /** The device going or coming back puts every client in step. */
  lemma TurnRenews(mail: seq<Frame>, reported: Option<Reading>, turn: Turn, lines: set<Line>)
    requires Covers(reported, lines) && Reads(turn, lines) && View(mail).Keys <= lines
    requires turn.Polled? ==> reported.None?
    ensures View(mail + FramesFor(reported, turn)) == Shown(ReportedAfter(reported, turn))
  {
    TurnView(mail, reported, turn);
  }

  /** A client in step stays in step. */
  lemma TurnInStep(mail: seq<Frame>, reported: Option<Reading>, turn: Turn, lines: set<Line>)
    requires Covers(reported, lines) && Reads(turn, lines)
    requires View(mail) == Shown(reported)
    ensures View(mail + FramesFor(reported, turn)) == Shown(ReportedAfter(reported, turn))
  {
    TurnView(mail, reported, turn);
  }

  /**
   * Over any run of losses, returns and reports a client that starts in step
   * holds the whole of the last reading reported.
   */
  lemma {:induction false} FollowsExactly(mail: seq<Frame>, reported: Option<Reading>, turns: seq<Turn>,
                                          lines: set<Line>)
    requires Covers(reported, lines) && forall t | t in turns :: Reads(t, lines)
    requires View(mail) == Shown(reported)
    ensures View(mail + Sent(reported, turns)) == Shown(Last(reported, turns))
    decreases |turns|
  {
    if turns == [] {
      assert mail + [] == mail;
    } else {
      var frames, rest := FramesFor(reported, turns[0]), ReportedAfter(reported, turns[0]);
      TurnInStep(mail, reported, turns[0], lines);
      FollowsExactly(mail + frames, rest, turns[1..], lines);
      Assoc(mail, frames, Sent(rest, turns[1..]));
    }
  }

  /** A view is right about a line. */
  predicate RightAbout(line: Line, view: Reading, reported: Option<Reading>) {
    var shown := Shown(reported);
    (line in view <==> line in shown) && (line in shown ==> view[line] == shown[line])
  }

  /** Whether a turn says anything new about a line. */
  predicate Renews(line: Line, reported: Option<Reading>, turn: Turn) {
    match turn
    case Lost => true
    case Found(_) => true
    case Polled(reading) =>
      reported.None? || line !in reported.value || line !in reading || reported.value[line] != reading[line]
  }

  predicate EverRenewed(line: Line, reported: Option<Reading>, turns: seq<Turn>)
    decreases |turns|
  {
    turns != [] &&
    (Renews(line, reported, turns[0]) || EverRenewed(line, ReportedAfter(reported, turns[0]), turns[1..]))
  }

  lemma TurnRights(line: Line, view: Reading, reported: Option<Reading>, turn: Turn, lines: set<Line>)
    requires Covers(reported, lines) && line in lines && Reads(turn, lines)
    ensures Covers(ReportedAfter(reported, turn), lines)
    ensures RightAbout(line, ViewOn(view, reported, turn), ReportedAfter(reported, turn)) <==>
            RightAbout(line, view, reported) || Renews(line, reported, turn)
  {
    assert turn.Found? ==> line in turn.reading;
  }

  /**
   * Any client, whatever it was greeted with: line by line it is right about
   * the last reading exactly when it was right to begin with, or the line
   * has moved, or the device has gone or come back, since.
   */
  lemma {:induction false} JoinerView(mail: seq<Frame>, reported: Option<Reading>, turns: seq<Turn>,
                                      lines: set<Line>, line: Line)
    requires Covers(reported, lines) && line in lines && forall t | t in turns :: Reads(t, lines)
    ensures RightAbout(line, View(mail + Sent(reported, turns)), Last(reported, turns)) <==>
            RightAbout(line, View(mail), reported) || EverRenewed(line, reported, turns)
    decreases |turns|
  {
    if turns == [] {
      assert mail + [] == mail;
    } else {
      var frames, rest := FramesFor(reported, turns[0]), ReportedAfter(reported, turns[0]);
      assert Reads(turns[0], lines);
      TurnView(mail, reported, turns[0]);
      TurnRights(line, View(mail), reported, turns[0], lines);
      JoinerView(mail + frames, rest, turns[1..], lines, line);
      Assoc(mail, frames, Sent(rest, turns[1..]));
    }
  }

  /** RTS was raised after the baseline, a client joined, and RTS fell back. */
  lemma StaleJoiner()
    ensures var low, raised := map[Rts := false], map[Rts := true];
            var mail := [Hello(true, true, raised)];
            Sent(Some(low), [Polled(low)]) == [] && View(mail) == raised != Shown(Last(Some(low), [Polled(low)]))
  {
    var low: Reading, raised: Reading := map[Rts := false], map[Rts := true];
    assert Changed(Some(low), low) == map[];
    assert [Polled(low)][1..] == [];
    assert Sent(Some(low), []) == [] && Last(Some(low), []) == Some(low);
    Snoc([], Hello(true, true, raised));
    assert [] + [Hello(true, true, raised)] == [Hello(true, true, raised)];
    assert raised[Rts] != low[Rts];
  }
}
