// Moving one entry before or after another: the configured entries and the
// running objects paired with them change places together.
module Moves {
  datatype Place = Before | After

  function Positions(n: nat): (ps: seq<nat>)
    ensures |ps| == n && forall i | 0 <= i < n :: ps[i] == i
  {
    seq(n, i => i)
  }

  /** `s.pop(i)` */
  function Without<T>(s: seq<T>, i: nat): seq<T>
    requires i < |s|
  {
    s[..i] + s[i + 1..]
  }

  /** Where the moved entry ends up. */
  function Landing(index: nat, target: nat, place: Place): nat {
    if target == index then index
    else (if target < index then target else target - 1) + if place.After? then 1 else 0
  }

  /** The old positions, in their new order. */
  ghost predicate Moved(order: seq<nat>, n: nat, index: nat, target: nat, place: Place)
    requires index < n && target < n
  {
    var at := Landing(index, target, place);
    && |order| == n && at < n && order[at] == index
    && Without(order, at) == Without(Positions(n), index)
  }

  /** Every place of the new order, spelled out. */
  lemma MovedAt(order: seq<nat>, n: nat, index: nat, target: nat, place: Place, i: nat)
    requires index < n && target < n && i < n && Moved(order, n, index, target, place)
    ensures var at := Landing(index, target, place);
            var r := if i < at then i else i - 1;
            order[i] == if i == at then index else if r < index then r else r + 1
  {
    var at := Landing(index, target, place);
    if i != at {
      var r := if i < at then i else i - 1;
      assert Without(order, at)[r] == order[i];
      assert Without(Positions(n), index)[r] == if r < index then r else r + 1;
    }
  }

  /** Nobody is lost, nobody is doubled, and everyone else keeps their order. */
  lemma MovedKeepsAll(order: seq<nat>, n: nat, index: nat, target: nat, place: Place)
    requires index < n && target < n && Moved(order, n, index, target, place)
    ensures forall k: nat :: k in order <==> k < n
    ensures forall i, j | 0 <= i < j < n :: order[i] != order[j]
    ensures forall i, j | 0 <= i < j < n && order[i] != index && order[j] != index :: order[i] < order[j]
  {
    forall i | 0 <= i < n
      ensures order[i] < n && forall j | i < j < n :: order[i] != order[j]
      ensures forall j | i < j < n && order[i] != index && order[j] != index :: order[i] < order[j]
    {
      MovedAt(order, n, index, target, place, i);
      forall j | i < j < n
        ensures order[i] != order[j]
        ensures order[i] != index && order[j] != index ==> order[i] < order[j]
      {
        MovedAt(order, n, index, target, place, j);
      }
    }
    forall k: nat | k < n
      ensures k in order
    {
      var at := Landing(index, target, place);
      var r := if k < index then k else k - 1;
      var i := if k == index then at else if r < at then r else r + 1;
      MovedAt(order, n, index, target, place, i);
      assert order[i] == k;
    }
  }

  /** The moved entry stands right beside the one it was moved to. */
  lemma MovedBeside(order: seq<nat>, n: nat, index: nat, target: nat, place: Place) returns (at: nat)
    requires index < n && target < n && target != index && Moved(order, n, index, target, place)
    ensures at < n && order[at] == index
    ensures if place.After? then at > 0 && order[at - 1] == target else at + 1 < n && order[at + 1] == target
  {
    at := Landing(index, target, place);
    MovedAt(order, n, index, target, place, if place.After? then at - 1 else at + 1);
  }

  /** Nothing changes exactly when it stood there already. */
  lemma MovedNowhere(order: seq<nat>, n: nat, index: nat, target: nat, place: Place)
    requires index < n && target < n && Moved(order, n, index, target, place)
    ensures order == Positions(n) <==>
            target == index || (if place.After? then target + 1 == index else target == index + 1)
  {
    var at := Landing(index, target, place);
    if at == index {
      forall i | 0 <= i < n
        ensures order[i] == i
      {
        MovedAt(order, n, index, target, place, i);
      }
    }
  }

  /** Take the moved position out, find the anchor, and put it back beside it. */
  method NewOrder(n: nat, index: nat, target: nat, place: Place) returns (order: seq<nat>)
    requires index < n && target < n
    ensures Moved(order, n, index, target, place)
  {
    var rest := Without(Positions(n), index);
    var at := index;
    if target != index {
      at := Find(rest, target, Landing(index, target, Before));
      if place.After? {
        at := at + 1;
      }
    }
    order := rest[..at] + [index] + rest[at..];
    PutIn(rest, at, index);
  }

  /** `s.insert(i, x)`, and taking it out again. */
  lemma PutIn<T>(s: seq<T>, i: nat, x: T)
    requires i <= |s|
    ensures var put := s[..i] + [x] + s[i..];
            |put| == |s| + 1 && put[i] == x && Without(put, i) == s
  {
    var put := s[..i] + [x] + s[i..];
    assert put[..i] == s[..i] && put[i + 1..] == s[i..];
  }

  method Find(s: seq<nat>, k: nat, ghost only: nat) returns (at: nat)
    requires only < |s| && forall i | 0 <= i < |s| :: s[i] == k <==> i == only
    ensures at == only
  {
    at := 0;
    while s[at] != k
      invariant at <= only
      decreases |s| - at
    {
      at := at + 1;
    }
  }

  /** Two lists paired by position, as the entries and what runs for them. */
  class PairedLists<Entry, Running> {
    var entries: seq<Entry>
    var runtime: seq<Running>

    constructor (entries: seq<Entry>, runtime: seq<Running>)
      ensures this.entries == entries && this.runtime == runtime
    {
      this.entries, this.runtime := entries, runtime;
    }

    /** Every pair of the old lists, whole, at its place in the new order. */
    method MoveEntry(index: nat, target: nat, place: Place) returns (moved: bool, ghost order: seq<nat>)
      requires |entries| == |runtime| && index < |entries| && target < |entries|
      modifies this
      ensures Moved(order, |old(entries)|, index, target, place)
      ensures |entries| == |runtime| == |old(entries)|
      ensures forall i | 0 <= i < |entries| ::
                0 <= order[i] < |entries|
                && entries[i] == old(entries)[order[i]] && runtime[i] == old(runtime)[order[i]]
      ensures moved <==> order != Positions(|entries|)
    {
      var n := |entries|;
      var places := NewOrder(n, index, target, place);
      MovedKeepsAll(places, n, index, target, place);
      assert forall i | 0 <= i < n :: places[i] in places;
      order, moved := places, places != Positions(n);
      if moved {
        var es, rs := entries, runtime;
        entries := seq(n, i requires 0 <= i < n => es[places[i]]);
        runtime := seq(n, i requires 0 <= i < n => rs[places[i]]);
      }
    }
  }
}
