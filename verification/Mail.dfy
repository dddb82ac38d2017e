// What one WebSocket client is sent, and what it can conclude from it.
module Mail {
  import opened Bytes
  import opened Wrappers
  import opened Signals

  /** An empty reading stands for a frame with no `signals` key. */
  datatype Frame =
    | Hello(connected: bool, attached: bool, signals: Reading)
    | SerialState(connected: bool, signals: Reading)
    | Report(changes: Reading)
    | AttachReply(attached: bool, refused: bool)
    | Data(bytes: seq<byte>)

  function ToldBy(f: Frame, before: Option<bool>): Option<bool> {
    if f.Hello? || f.SerialState? then Some(f.connected) else before
  }

  function ViewAfter(f: Frame, before: Reading): Reading {
    if f.Hello? then f.signals
    else if f.SerialState? then if f.connected then before + f.signals else map[]
    else if f.Report? then before + f.changes
    else before
  }

  /** The last `connected` the client was told. */
  function Told(frames: seq<Frame>): Option<bool> {
    if frames == [] then None else ToldBy(frames[|frames| - 1], Told(frames[..|frames| - 1]))
  }

  /** The lines as the client has them: lost with the device, merged otherwise. */
  function View(frames: seq<Frame>): Reading {
    if frames == [] then map[] else ViewAfter(frames[|frames| - 1], View(frames[..|frames| - 1]))
  }

  /** Greeted first and once; every notice after that is news. */
  predicate Proper(frames: seq<Frame>) {
    frames != [] &&
    var n := |frames| - 1;
    if n == 0 then frames[0].Hello?
    else
      && Proper(frames[..n])
      && !frames[n].Hello?
      && (frames[n].SerialState? ==> Told(frames[..n]) == Some(!frames[n].connected))
  }

  /** Greeted, told about the device as it is, and shown nothing but these lines. */
  predicate Knows(frames: seq<Frame>, open: bool, lines: set<Line>) {
    Proper(frames) && Told(frames) == Some(open) && View(frames).Keys <= lines
  }

  lemma Snoc(frames: seq<Frame>, f: Frame)
    ensures Told(frames + [f]) == ToldBy(f, Told(frames))
    ensures View(frames + [f]) == ViewAfter(f, View(frames))
    ensures Proper(frames) && !f.Hello? && (f.SerialState? ==> Told(frames) == Some(!f.connected)) ==>
              Proper(frames + [f])
    ensures frames == [] && f.Hello? ==> Proper(frames + [f])
  {
    assert (frames + [f])[..|frames|] == frames;
  }

  /** Before `n`, the last thing told is what the last notice or greeting said. */
  lemma {:induction false} ToldSince(frames: seq<Frame>, i: nat, n: nat)
    requires i < n <= |frames| && frames[i].SerialState?
    requires forall k | i < k < n :: !frames[k].SerialState? && !frames[k].Hello?
    ensures Told(frames[..n]) == Some(frames[i].connected)
    decreases n
  {
    assert frames[..n][..n - 1] == frames[..n - 1];
    if i < n - 1 {
      ToldSince(frames, i, n - 1);
    }
  }

  lemma {:induction false} ProperPrefix(frames: seq<Frame>, n: nat)
    requires Proper(frames) && 0 < n <= |frames|
    ensures Proper(frames[..n])
    decreases |frames|
  {
    if n < |frames| {
      ProperPrefix(frames[..|frames| - 1], n);
      assert frames[..|frames| - 1][..n] == frames[..n];
    } else {
      assert frames[..n] == frames;
    }
  }

  /** In proper mail the greeting is first, and lost and found strictly alternate. */
  lemma ProperMail(frames: seq<Frame>, i: nat, j: nat)
    requires Proper(frames)
    requires i < j < |frames| && frames[i].SerialState? && frames[j].SerialState?
    requires forall k | i < k < j :: !frames[k].SerialState?
    ensures frames[0].Hello? && forall k | 0 < k < |frames| :: !frames[k].Hello?
    ensures frames[j].connected == !frames[i].connected
  {
    forall n | 0 < n <= |frames|
      ensures Proper(frames[..n])
    {
      ProperPrefix(frames, n);
    }
    assert frames[..1][0] == frames[0];
    forall k | 0 < k < |frames|
      ensures !frames[k].Hello?
    {
      assert Proper(frames[..k + 1]) && frames[..k + 1][k] == frames[k];
    }
    ToldSince(frames, i, j);
    assert Proper(frames[..j + 1]) && frames[..j + 1][j] == frames[j];
    assert frames[..j + 1][..j] == frames[..j];
  }
}
