// Lists without repetitions, and taking one element out of a list.
module Lists {
  function Min(a: nat, b: nat): nat {
    if a < b then a else b
  }

  ghost predicate Apart<T>(a: T, b: T) {
    a != b
  }

  /** Nothing twice. */
  ghost predicate Distinct<T>(s: seq<T>) {
    forall i, j {:trigger Apart(s[i], s[j])} | 0 <= i < j < |s| :: Apart(s[i], s[j])
  }

  lemma EitherWay<T>(s: seq<T>, i: nat, j: nat)
    requires Distinct(s) && i < |s| && j < |s| && i != j
    ensures s[i] != s[j]
  {
    assert if i < j then Apart(s[i], s[j]) else Apart(s[j], s[i]);
  }

  lemma DistinctPrefix<T>(s: seq<T>, n: nat)
    requires Distinct(s) && n <= |s|
    ensures Distinct(s[..n])
  {
    Pairwise(s);
  }

  lemma Pairwise<T>(s: seq<T>)
    requires Distinct(s)
    ensures forall i, j | 0 <= i < j < |s| :: s[i] != s[j]
  {
    forall i, j | 0 <= i < j < |s|
      ensures s[i] != s[j]
    {
      assert Apart(s[i], s[j]);
    }
  }

  lemma NotBefore<T>(s: seq<T>, i: nat)
    requires Distinct(s) && i < |s|
    ensures s[i] !in s[..i]
  {
    Pairwise(s);
  }

  lemma DistinctJoin<T>(a: seq<T>, b: seq<T>)
    requires Distinct(a) && Distinct(b) && forall x | x in a :: x !in b
    ensures Distinct(a + b)
  {
    forall i, j | 0 <= i < j < |a + b|
      ensures Apart((a + b)[i], (a + b)[j])
    {
      if j < |a| {
        EitherWay(a, i, j);
      } else if i >= |a| {
        EitherWay(b, i - |a|, j - |a|);
      } else {
        assert a[i] in a && b[j - |a|] in b;
      }
    }
  }

  lemma DistinctSnoc<T>(s: seq<T>, c: T)
    requires Distinct(s) && c !in s
    ensures Distinct(s + [c])
  {
    DistinctJoin(s, [c]);
  }

  lemma NonEmpty(s: seq<nat>)
    ensures s == [] || exists i: nat :: i in s
  {
    if s != [] {
      assert s[0] in s;
    }
  }

  /** One list after another. */
  function Joined<K, T>(order: seq<K>, part: K -> seq<T>): seq<T> {
    if order == [] then [] else Joined(order[..|order| - 1], part) + part(order[|order| - 1])
  }

  /** Which part an element comes from, and where it stands in that. */
  lemma {:induction false} JoinedPlace<K, T>(order: seq<K>, part: K -> seq<T>, a: nat) returns (p: nat, q: nat)
    requires a < |Joined(order, part)|
    ensures p < |order| && q < |part(order[p])| && Joined(order, part)[a] == part(order[p])[q]
  {
    var n := |order| - 1;
    var before := Joined(order[..n], part);
    if a < |before| {
      p, q := JoinedPlace(order[..n], part, a);
    } else {
      p, q := n, a - |before|;
    }
  }

  /** Earlier elements come from earlier parts, or stand earlier in the same. */
  lemma {:induction false} JoinedInOrder<K, T>(order: seq<K>, part: K -> seq<T>, a: nat, b: nat)
      returns (p: nat, q: nat, u: nat, v: nat)
    requires a < b < |Joined(order, part)|
    ensures p < |order| && q < |part(order[p])| && Joined(order, part)[a] == part(order[p])[q]
    ensures u < |order| && v < |part(order[u])| && Joined(order, part)[b] == part(order[u])[v]
    ensures p < u || (p == u && q < v)
  {
    var n := |order| - 1;
    var before := Joined(order[..n], part);
    if b < |before| {
      p, q, u, v := JoinedInOrder(order[..n], part, a, b);
    } else if a < |before| {
      p, q := JoinedPlace(order[..n], part, a);
      u, v := n, b - |before|;
    } else {
      p, q, u, v := n, a - |before|, n, b - |before|;
    }
  }

  lemma {:induction false} JoinedNone<K, T>(order: seq<K>, part: K -> seq<T>, x: T)
    requires forall k | k in order :: x !in part(k)
    ensures x !in Joined(order, part)
  {
    if order != [] {
      var n := |order| - 1;
      JoinedNone(order[..n], part, x);
      assert order[n] in order;
    }
  }

  lemma {:induction false} JoinedMember<K, T>(order: seq<K>, part: K -> seq<T>, own: K, x: T)
    requires forall k | x in part(k) :: k == own
    ensures x in Joined(order, part) <==> own in order && x in part(own)
  {
    if order != [] {
      var n := |order| - 1;
      JoinedMember(order[..n], part, own, x);
      assert order == order[..n] + [order[n]];
    }
  }

  lemma {:induction false} JoinedOnce<K, T>(order: seq<K>, part: K -> seq<T>)
    requires Distinct(order) && forall k :: Distinct(part(k))
    requires forall k, l, x | x in part(k) && x in part(l) :: k == l
    ensures Distinct(Joined(order, part))
  {
    if order != [] {
      var n := |order| - 1;
      DistinctPrefix(order, n);
      NotBefore(order, n);
      JoinedOnce(order[..n], part);
      forall x | x in part(order[n])
        ensures x !in Joined(order[..n], part)
      {
        JoinedNone(order[..n], part, x);
      }
      DistinctJoin(Joined(order[..n], part), part(order[n]));
    }
  }

  ghost predicate Meet<T(!new)>(s: seq<T>, t: set<T>) {
    exists x | x in s :: x in t
  }

  lemma MeetSame<T(!new)>(s: seq<T>, t: set<T>, u: seq<T>, v: set<T>)
    requires forall x :: x in s && x in t <==> x in u && x in v
    ensures Meet(s, t) <==> Meet(u, v)
  {
  }

  lemma MeetSnoc<T(!new)>(s: seq<T>, c: T, t: set<T>)
    ensures Meet(s + [c], t) <==> Meet(s, t) || c in t
  {
    assert c in s + [c];
    if Meet(s, t) {
      var x :| x in s && x in t;
      assert x in s + [c];
    }
  }

  /** `s.remove(c)`: without the first occurrence. */
  function Removed<T(==)>(s: seq<T>, c: T): seq<T> {
    if s == [] then [] else if s[0] == c then s[1..] else [s[0]] + Removed(s[1..], c)
  }

  lemma {:induction false} RemovedMembers<T>(s: seq<T>, c: T)
    requires Distinct(s)
    ensures Distinct(Removed(s, c))
    ensures forall x :: x in Removed(s, c) <==> x in s && x != c
    ensures |Removed(s, c)| == |s| - if c in s then 1 else 0
  {
    Pairwise(s);
    if s != [] && s[0] != c {
      var tail := s[1..];
      RemovedMembers(tail, c);
      assert forall x :: x in s <==> x == s[0] || x in tail;
      assert s[0] !in tail;
      assert s[0] !in Removed(tail, c);
      Pairwise(Removed(tail, c));
    }
  }

  lemma {:induction false} RemovedSnoc<T>(s: seq<T>, c: T)
    requires c !in s
    ensures Removed(s + [c], c) == s
  {
    if s == [] {
      assert s + [c] == [c];
    } else {
      assert (s + [c])[1..] == s[1..] + [c];
      RemovedSnoc(s[1..], c);
    }
  }

  lemma {:induction false} NotThere<T>(s: seq<T>, c: T)
    requires c !in s
    ensures Removed(s, c) == s
  {
    if s != [] {
      NotThere(s[1..], c);
    }
  }

  lemma Assoc<T>(a: seq<T>, b: seq<T>, c: seq<T>)
    ensures a + (b + c) == (a + b) + c
  {
  }

  lemma SamePrefix<T>(a: seq<T>, b: seq<T>, c: seq<T>)
    requires a + b == a + c
    ensures b == c
  {
    assert b == (a + b)[|a|..] && c == (a + c)[|a|..];
  }
}
