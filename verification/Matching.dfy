// Which running servers survive a change of configuration: a multiset match
// by canonical key, first come first kept.
module Matching {
  import opened Lists
  import opened Wrappers

  /** How often `k` occurs. */
  function Count<K(==)>(keys: seq<K>, k: K): nat {
    if keys == [] then 0
    else Count(keys[..|keys| - 1], k) + if keys[|keys| - 1] == k then 1 else 0
  }

  /** Where `k` occurs, in order. */
  function Positions<K(==)>(keys: seq<K>, k: K): (ps: seq<nat>)
    ensures |ps| == Count(keys, k)
    ensures forall a | 0 <= a < |ps| :: ps[a] < |keys| && keys[ps[a]] == k
    ensures forall a, b | 0 <= a < b < |ps| :: ps[a] < ps[b]
  {
    if keys == [] then []
    else
      var n := |keys| - 1;
      Positions(keys[..n], k) + if keys[n] == k then [n] else []
  }

  /** The running server the j-th new entry takes over, if one is left. */
  function Keeper<K(==)>(was: seq<K>, now: seq<K>, j: nat): Option<nat>
    requires j < |now|
  {
    var ps, rank := Positions(was, now[j]), Count(now[..j], now[j]);
    if rank < |ps| then Some(ps[rank]) else None
  }

  lemma {:induction false} CountMonotone<K>(keys: seq<K>, k: K, i: nat, j: nat)
    requires i <= j <= |keys|
    ensures Count(keys[..i], k) <= Count(keys[..j], k)
    ensures i < j && keys[i] == k ==> Count(keys[..i], k) < Count(keys[..j], k)
    decreases j
  {
    if i < j {
      CountMonotone(keys, k, i, j - 1);
      assert keys[..j][..j - 1] == keys[..j - 1];
    }
  }

  /** A server is taken over by one entry at most, and one with its own key. */
  lemma KeeperInjective<K>(was: seq<K>, now: seq<K>, i: nat, j: nat)
    requires i < j < |now|
    requires Keeper(was, now, i).Some?
    ensures was[Keeper(was, now, i).value] == now[i]
    ensures Keeper(was, now, j) != Keeper(was, now, i)
  {
    if Keeper(was, now, j) == Keeper(was, now, i) {
      CountMonotone(now, now[i], i, j);
    }
  }

  /** Entries with one key take the servers in the order they ran. */
  lemma KeeperKeepsOrder<K>(was: seq<K>, now: seq<K>, i: nat, j: nat)
    requires i < j < |now| && now[i] == now[j]
    ensures Keeper(was, now, j).Some? ==>
              Keeper(was, now, i).Some? && Keeper(was, now, i).value < Keeper(was, now, j).value
  {
    CountMonotone(now, now[i], i, j);
  }

  /** How many of the first `n` new entries with key `k` keep a server. */
  function Survivors<K(==)>(was: seq<K>, now: seq<K>, k: K, n: nat): nat
    requires n <= |now|
  {
    if n == 0 then 0
    else Survivors(was, now, k, n - 1) + if now[n - 1] == k && Keeper(was, now, n - 1).Some? then 1 else 0
  }

  /** As many as can survive do: nothing is rebuilt that need not be. */
  lemma {:induction false} MinimalChange<K>(was: seq<K>, now: seq<K>, k: K, n: nat)
    requires n <= |now|
    ensures Survivors(was, now, k, n) == Min(Count(was, k), Count(now[..n], k))
  {
    if n > 0 {
      MinimalChange(was, now, k, n - 1);
      assert now[..n][..n - 1] == now[..n - 1];
    }
  }

  /** Nothing changes exactly when the two key sequences are the same. */
  lemma IdentityMatch<K>(was: seq<K>, now: seq<K>)
    ensures was == now <==> |was| == |now| && forall j | 0 <= j < |now| :: Keeper(was, now, j) == Some(j)
  {
    if was == now {
      forall j | 0 <= j < |now|
        ensures Keeper(was, now, j) == Some(j)
      {
        RankOfPosition(was, j);
      }
    }
    if |was| == |now| && forall j | 0 <= j < |now| :: Keeper(was, now, j) == Some(j) {
      forall j | 0 <= j < |now|
        ensures was[j] == now[j]
      {
        assert Keeper(was, now, j) == Some(j);
      }
    }
  }

  lemma {:induction false} RankOfPosition<K>(keys: seq<K>, j: nat)
    requires j < |keys|
    ensures Count(keys[..j], keys[j]) < Count(keys, keys[j])
    ensures Positions(keys, keys[j])[Count(keys[..j], keys[j])] == j
    decreases |keys|
  {
    var n := |keys| - 1;
    if j == n {
      assert Positions(keys, keys[j]) == Positions(keys[..n], keys[j]) + [n];
    } else {
      RankOfPosition(keys[..n], j);
      assert keys[..n][..j] == keys[..j] && keys[..n][j] == keys[j];
    }
  }

  lemma Grow<K>(keys: seq<K>, i: nat, k: K)
    requires i < |keys|
    ensures Count(keys[..i + 1], k) == Count(keys[..i], k) + if keys[i] == k then 1 else 0
    ensures Positions(keys[..i + 1], k) == Positions(keys[..i], k) + if keys[i] == k then [i] else []
  {
    assert keys[..i + 1][..i] == keys[..i];
  }

  /** The server every new entry takes over. */
  function Kept<K(==)>(was: seq<K>, now: seq<K>): (kept: seq<Option<nat>>)
    ensures |kept| == |now| && forall j | 0 <= j < |now| :: kept[j] == Keeper(was, now, j)
  {
    seq(|now|, j requires 0 <= j < |now| => Keeper(was, now, j))
  }

  /** The keys there are, in the order first seen. */
  function FirstSeen<K(==)>(keys: seq<K>): seq<K> {
    if keys == [] then []
    else
      var n := |keys| - 1;
      FirstSeen(keys[..n]) + if keys[n] in keys[..n] then [] else [keys[n]]
  }

  /** What the new entries leave of a key's servers. */
  function Spare<K(==)>(was: seq<K>, now: seq<K>, k: K): seq<nat> {
    Rest(Positions(was, k), Count(now, k))
  }

  /** The servers no new entry takes over, in the order they are closed: key by key. */
  function Leftovers<K(==)>(was: seq<K>, now: seq<K>): seq<nat> {
    Joined(FirstSeen(was), k => Spare(was, now, k))
  }

  lemma {:induction false} SeenAll<K>(keys: seq<K>, k: K)
    ensures k in FirstSeen(keys) <==> k in keys
  {
    if keys != [] {
      var n := |keys| - 1;
      SeenAll(keys[..n], k);
      assert keys == keys[..n] + [keys[n]];
    }
  }

  lemma {:induction false} SeenOnce<K>(keys: seq<K>)
    ensures Distinct(FirstSeen(keys))
  {
    if keys != [] {
      var n := |keys| - 1;
      SeenOnce(keys[..n]);
      SeenAll(keys[..n], keys[n]);
      if keys[n] !in keys[..n] {
        DistinctSnoc(FirstSeen(keys[..n]), keys[n]);
      }
    }
  }

  /** The first `n` running servers by key, and the keys as they were met. */
  ghost predicate Grouped<K>(was: seq<K>, n: nat, unused: map<K, seq<nat>>, order: seq<K>)
    requires n <= |was|
  {
    && order == FirstSeen(was[..n])
    && (forall k | k in unused :: unused[k] == Positions(was[..n], k) != [])
    && (forall i | 0 <= i < n :: was[i] in unused)
  }

  /** The servers by key, with one more of this key. */
  function Noted<K(==)>(pool: map<K, seq<nat>>, k: K, i: nat): map<K, seq<nat>> {
    pool[k := (if k in pool then pool[k] else []) + [i]]
  }

  lemma NotedAt<K>(was: seq<K>, i: nat, pool: map<K, seq<nat>>, k: K)
    requires i < |was| && k in Noted(pool, was[i], i)
    requires k in pool ==> pool[k] == Positions(was[..i], k) != []
    requires was[i] !in pool ==> Positions(was[..i], was[i]) == []
    ensures Noted(pool, was[i], i)[k] == Positions(was[..i + 1], k) != []
  {
    Grow(was, i, k);
  }

  lemma GroupedStep<K>(was: seq<K>, i: nat, pool: map<K, seq<nat>>)
    requires i < |was| && Grouped(was, i, pool, FirstSeen(was[..i]))
    ensures Grouped(was, i + 1, Noted(pool, was[i], i), FirstSeen(was[..i + 1]))
  {
    OneMoreKey(was, i, pool);
    forall k | k in Noted(pool, was[i], i)
      ensures Noted(pool, was[i], i)[k] == Positions(was[..i + 1], k) != []
    {
      NotedAt(was, i, pool, k);
    }
  }

  lemma OneMoreKey<K>(was: seq<K>, i: nat, pool: map<K, seq<nat>>)
    requires i < |was| && Grouped(was, i, pool, FirstSeen(was[..i]))
    ensures was[i] !in pool ==> Positions(was[..i], was[i]) == []
    ensures FirstSeen(was[..i + 1]) == FirstSeen(was[..i]) + if was[i] in pool then [] else [was[i]]
  {
    assert was[..i + 1][..i] == was[..i] && was[..i + 1][i] == was[i];
    NoPositions(was[..i], was[i]);
    if was[i] in was[..i] {
      assert was[i] in pool;
    }
  }

  /** The running servers by key, with the keys in the order first seen. */
  method Group<K(==)>(was: seq<K>) returns (unused: map<K, seq<nat>>, order: seq<K>)
    ensures Grouped(was, |was|, unused, order)
  {
    unused, order := map[], [];
    for i := 0 to |was|
      invariant Grouped(was, i, unused, order)
    {
      var k := was[i];
      OneMoreKey(was, i, unused);
      GroupedStep(was, i, unused);
      if k !in unused {
        unused, order := unused[k := []], order + [k];
      }
      unused := unused[k := unused[k] + [i]];
    }
  }

  /** What is left of a key's servers once `used` of them are taken. */
  function Rest(ps: seq<nat>, used: nat): seq<nat> {
    if used < |ps| then ps[used..] else []
  }

  lemma RestStep(ps: seq<nat>, used: nat)
    ensures Rest(ps, used) != [] <==> used < |ps|
    ensures used < |ps| ==> Rest(ps, used)[0] == ps[used] && Rest(ps, used)[1..] == Rest(ps, used + 1)
    ensures used >= |ps| ==> Rest(ps, used + 1) == []
  {
  }

  /** The pool after the first `j` new entries have taken from it. */
  ghost predicate Taken<K>(was: seq<K>, now: seq<K>, j: nat, pool: map<K, seq<nat>>)
    requires j <= |now|
  {
    && (forall k {:trigger k in pool} | k in was :: k in pool)
    && forall k | k in pool :: pool[k] == Rest(Positions(was, k), Count(now[..j], k))
  }

  /** The pool after one more entry has taken from it, if it could. */
  function Next<K(==)>(k: K, pool: map<K, seq<nat>>): map<K, seq<nat>> {
    if k in pool && pool[k] != [] then pool[k := pool[k][1..]] else pool
  }

  lemma TakenStep<K>(was: seq<K>, now: seq<K>, j: nat, pool: map<K, seq<nat>>)
    requires j < |now| && Taken(was, now, j, pool)
    ensures Taken(was, now, j + 1, Next(now[j], pool))
  {
    forall k | k in pool
      ensures Next(now[j], pool)[k] == Rest(Positions(was, k), Count(now[..j + 1], k))
    {
      TakenAt(was, now, j, pool, k);
    }
  }

  lemma TakenAt<K>(was: seq<K>, now: seq<K>, j: nat, pool: map<K, seq<nat>>, k: K)
    requires j < |now| && k in pool && pool[k] == Rest(Positions(was, k), Count(now[..j], k))
    ensures Next(now[j], pool)[k] == Rest(Positions(was, k), Count(now[..j + 1], k))
  {
    Grow(now, j, k);
    RestStep(Positions(was, k), Count(now[..j], k));
  }

  lemma KeeperFromPool<K>(was: seq<K>, now: seq<K>, j: nat, pool: map<K, seq<nat>>)
    requires j < |now| && Taken(was, now, j, pool)
    ensures Keeper(was, now, j) == if now[j] in pool && pool[now[j]] != [] then Some(pool[now[j]][0]) else None
  {
    var k := now[j];
    RestStep(Positions(was, k), Count(now[..j], k));
    if k !in pool {
      NoPositions(was, k);
    }
  }

  method TakeOne<K(==)>(ghost was: seq<K>, now: seq<K>, j: nat, pool: map<K, seq<nat>>)
      returns (keeper: Option<nat>, unused: map<K, seq<nat>>)
    requires j < |now| && Taken(was, now, j, pool)
    ensures keeper == Keeper(was, now, j) && Taken(was, now, j + 1, unused)
  {
    TakenStep(was, now, j, pool);
    KeeperFromPool(was, now, j, pool);
    var k := now[j];
    if k in pool && pool[k] != [] {
      keeper, unused := Some(pool[k][0]), pool[k := pool[k][1..]];
    } else {
      keeper, unused := None, pool;
    }
  }

  method Take<K(==)>(was: seq<K>, now: seq<K>, pool: map<K, seq<nat>>)
      returns (kept: seq<Option<nat>>, unused: map<K, seq<nat>>)
    requires Taken(was, now, 0, pool)
    ensures kept == Kept(was, now) && Taken(was, now, |now|, unused)
  {
    kept, unused := [], pool;
    for j := 0 to |now|
      invariant |kept| == j && Taken(was, now, j, unused)
      invariant forall i | 0 <= i < j :: kept[i] == Keeper(was, now, i)
    {
      var keeper;
      keeper, unused := TakeOne(was, now, j, unused);
      kept := kept + [keeper];
    }
  }

  /** The indices left in the pool, key by key. */
  method Drain<K(==)>(pool: map<K, seq<nat>>, order: seq<K>, ghost part: K -> seq<nat>) returns (removed: seq<nat>)
    requires forall k | k in order :: k in pool && pool[k] == part(k)
    ensures removed == Joined(order, part)
  {
    removed := [];
    for a := 0 to |order|
      invariant removed == Joined(order[..a], part)
    {
      assert order[..a + 1][..a] == order[..a];
      removed := removed + pool[order[a]];
    }
    assert order[..|order|] == order;
  }

  /**
   * The running servers the new entries take over, and those to close: key
   * by key as the keys are first met, each key's servers in the order they ran.
   */
  method Match<K(==)>(was: seq<K>, now: seq<K>) returns (kept: seq<Option<nat>>, removed: seq<nat>)
    ensures kept == Kept(was, now) && removed == Leftovers(was, now)
    ensures forall i: nat :: i in removed <==> i < |was| && Some(i) !in kept
    ensures forall a | 0 <= a < |removed| :: removed[a] < |was|
    ensures forall a, b | 0 <= a < b < |removed| && was[removed[a]] == was[removed[b]] :: removed[a] < removed[b]
    ensures forall a, b | 0 <= a < b < |removed| && was[removed[a]] != was[removed[b]] ::
              exists i | 0 <= i < |was| :: was[i] == was[removed[a]] && was[removed[b]] !in was[..i]
    ensures Distinct(removed)
  {
    kept, removed := PickAndDrain(was, now);
    LeftoversAre(was, now);
    LeftoversOnce(was, now);
    LeftoversInOrder(was, now);
    InOrder(was, removed);
  }

  /** Which of two servers is closed first. */
  ghost predicate Before<K>(was: seq<K>, x: nat, y: nat) {
    && x < |was| && y < |was|
    && if was[x] == was[y] then x < y else exists i | 0 <= i < |was| :: was[i] == was[x] && was[y] !in was[..i]
  }

  lemma InOrder<K>(was: seq<K>, removed: seq<nat>)
    requires forall i: nat | i in removed :: i < |was|
    requires forall a, b {:trigger removed[a], removed[b]} | 0 <= a < b < |removed| ::
               Before(was, removed[a], removed[b])
    ensures forall a | 0 <= a < |removed| :: removed[a] < |was|
    ensures forall a, b | 0 <= a < b < |removed| && was[removed[a]] == was[removed[b]] :: removed[a] < removed[b]
    ensures forall a, b | 0 <= a < b < |removed| && was[removed[a]] != was[removed[b]] ::
              exists i | 0 <= i < |was| :: was[i] == was[removed[a]] && was[removed[b]] !in was[..i]
  {
    forall a | 0 <= a < |removed|
      ensures removed[a] < |was|
    {
      assert removed[a] in removed;
    }
  }

  method PickAndDrain<K(==)>(was: seq<K>, now: seq<K>) returns (kept: seq<Option<nat>>, removed: seq<nat>)
    ensures kept == Kept(was, now) && removed == Leftovers(was, now)
  {
    var unused, order := Group(was);
    assert was[..|was|] == was;
    StartTaken(was, now, unused);
    kept, unused := Take(was, now, unused);
    PoolSpare(was, now, unused);
    removed := Drain(unused, order, k => Spare(was, now, k));
  }

  lemma LeftoversAre<K>(was: seq<K>, now: seq<K>)
    ensures forall i: nat :: i in Leftovers(was, now) <==> i < |was| && Some(i) !in Kept(was, now)
  {
    forall i: nat
      ensures i in Leftovers(was, now) <==> i < |was| && Some(i) !in Kept(was, now)
    {
      LeftoverExactly(was, now, i);
    }
  }

  lemma LeftoversInOrder<K>(was: seq<K>, now: seq<K>)
    ensures var removed := Leftovers(was, now);
            forall a, b {:trigger removed[a], removed[b]} | 0 <= a < b < |removed| ::
              Before(was, removed[a], removed[b])
  {
    var removed := Leftovers(was, now);
    forall a, b | 0 <= a < b < |removed|
      ensures Before(was, removed[a], removed[b])
    {
      LeftoverBefore(was, now, a, b);
    }
  }

  lemma LeftoverBefore<K>(was: seq<K>, now: seq<K>, a: nat, b: nat)
    requires a < b < |Leftovers(was, now)|
    ensures Before(was, Leftovers(was, now)[a], Leftovers(was, now)[b])
  {
    var order, part := FirstSeen(was), k => Spare(was, now, k);
    var p, q, u, v := JoinedInOrder(order, part, a, b);
    SpareAt(was, now, order[p], q);
    SpareAt(was, now, order[u], v);
    if p < u {
      SeenOnce(was);
      EitherWay(order, p, u);
      var i := SeenInOrder(was, p, u);
    }
  }

  lemma SpareAt<K>(was: seq<K>, now: seq<K>, k: K, q: nat)
    requires q < |Spare(was, now, k)|
    ensures Spare(was, now, k)[q] < |was| && was[Spare(was, now, k)[q]] == k
    ensures forall r | 0 <= r < q :: Spare(was, now, k)[r] < Spare(was, now, k)[q]
  {
    var ps, used := Positions(was, k), Count(now, k);
    assert forall r | 0 <= r <= q :: Spare(was, now, k)[r] == ps[used + r];
  }

  lemma {:induction false} SeenInOrder<K>(keys: seq<K>, p: nat, u: nat) returns (i: nat)
    requires p < u < |FirstSeen(keys)|
    ensures i < |keys| && keys[i] == FirstSeen(keys)[p] && FirstSeen(keys)[u] !in keys[..i]
  {
    var n := |keys| - 1;
    var before := FirstSeen(keys[..n]);
    if u < |before| {
      i := SeenInOrder(keys[..n], p, u);
      assert keys[..n][..i] == keys[..i];
    } else {
      SeenAll(keys[..n], before[p]);
      i :| 0 <= i < n && keys[..n][i] == before[p];
      assert forall k | k in keys[..i] :: k in keys[..n];
    }
  }

  lemma StartTaken<K>(was: seq<K>, now: seq<K>, pool: map<K, seq<nat>>)
    requires forall k | k in pool :: pool[k] == Positions(was, k)
    requires forall i | 0 <= i < |was| :: was[i] in pool
    ensures Taken(was, now, 0, pool)
  {
    forall k | k in pool
      ensures pool[k] == Rest(Positions(was, k), Count(now[..0], k))
    {
      NoneUsed(pool[k], now[..0], k);
    }
  }

  lemma NoneUsed<K>(ps: seq<nat>, none: seq<K>, k: K)
    requires none == []
    ensures Rest(ps, Count(none, k)) == ps
  {
  }

  lemma PoolSpare<K>(was: seq<K>, now: seq<K>, pool: map<K, seq<nat>>)
    requires Taken(was, now, |now|, pool)
    ensures forall k | k in FirstSeen(was) :: k in pool && pool[k] == Spare(was, now, k)
  {
    assert now[..|now|] == now;
    forall k | k in FirstSeen(was)
      ensures k in pool
    {
      SeenAll(was, k);
    }
  }

  /** A server is left over exactly when no new entry took it. */
  lemma LeftoverExactly<K>(was: seq<K>, now: seq<K>, i: nat)
    ensures i in Leftovers(was, now) <==> i < |was| && Some(i) !in Kept(was, now)
  {
    var part := k => Spare(was, now, k);
    forall k | i in part(k)
      ensures i < |was| && was[i] == k
    {
      RestSound(was, k, Count(now, k));
    }
    if i < |was| {
      JoinedMember(FirstSeen(was), part, was[i], i);
      Untaken(was, now, i);
      SeenAll(was, was[i]);
      assert forall j | 0 <= j < |now| :: Kept(was, now)[j] == Keeper(was, now, j);
    } else {
      JoinedNone(FirstSeen(was), part, i);
    }
  }

  /** Nothing is closed twice. */
  lemma LeftoversOnce<K>(was: seq<K>, now: seq<K>)
    ensures Distinct(Leftovers(was, now))
  {
    SeenOnce(was);
    var part := k => Spare(was, now, k);
    forall k
      ensures Distinct(part(k)) && forall i | i in part(k) :: i < |was| && was[i] == k
    {
      RestSound(was, k, Count(now, k));
    }
    JoinedOnce(FirstSeen(was), part);
  }

  lemma RestSound<K>(keys: seq<K>, k: K, used: nat)
    ensures forall i | i in Rest(Positions(keys, k), used) :: i < |keys| && keys[i] == k
    ensures Distinct(Rest(Positions(keys, k), used))
  {
    var ps, rest := Positions(keys, k), Rest(Positions(keys, k), used);
    assert forall x | 0 <= x < |rest| :: rest[x] == ps[used + x];
  }

  /** A new entry keeps a server of its own key, and no two keep the same. */
  lemma KeptSound<K>(was: seq<K>, now: seq<K>)
    ensures var kept := Kept(was, now);
            && (forall j | 0 <= j < |now| && kept[j].Some? :: kept[j].value < |was| && was[kept[j].value] == now[j])
            && (forall i, j | 0 <= i < j < |now| && kept[i].Some? :: kept[i] != kept[j])
  {
    forall i, j | 0 <= i < j < |now| && Kept(was, now)[i].Some?
      ensures Kept(was, now)[i] != Kept(was, now)[j]
    {
      KeeperInjective(was, now, i, j);
    }
  }

  /** Equal configurations keep every server in its place, and leave none over. */
  lemma SameKept<K>(was: seq<K>, now: seq<K>)
    ensures var kept := Kept(was, now);
            was == now <==> Leftovers(was, now) == [] && None !in kept
                            && |kept| == |was| && forall j: nat | j < |kept| :: kept[j] == Some(j)
  {
    IdentityMatch(was, now);
    var kept, removed := Kept(was, now), Leftovers(was, now);
    if was == now {
      assert forall j | 0 <= j < |now| :: kept[j] == Keeper(was, now, j) == Some(j);
      forall i: nat
        ensures i !in removed
      {
        LeftoverExactly(was, now, i);
        assert i < |now| ==> kept[i] == Some(i);
      }
      NonEmpty(removed);
    }
  }

  /** What is left of a key's servers is what no entry with that key took. */
  lemma Untaken<K>(was: seq<K>, now: seq<K>, i: nat)
    requires i < |was|
    ensures i in Rest(Positions(was, was[i]), Count(now, was[i])) <==>
            forall j | 0 <= j < |now| :: Keeper(was, now, j) != Some(i)
  {
    RankOfPosition(was, i);
    TakenByRank(was, now, i);
    RestContains(Positions(was, was[i]), Count(was[..i], was[i]), Count(now, was[i]));
  }

  /** In an increasing list, the element at rank `r` is left iff `r` is not used up. */
  lemma RestContains(ps: seq<nat>, r: nat, used: nat)
    requires r < |ps| && forall a, b | 0 <= a < b < |ps| :: ps[a] < ps[b]
    ensures ps[r] in Rest(ps, used) <==> r >= used
  {
    if r >= used {
      assert ps[used..][r - used] == ps[r];
    }
    if used < |ps| && ps[r] in ps[used..] {
      var x :| 0 <= x < |ps| - used && ps[used..][x] == ps[r];
      assert ps[used + x] == ps[r];
    }
  }

  lemma NoPositions<K>(keys: seq<K>, k: K)
    ensures k !in keys ==> Positions(keys, k) == []
  {
    var ps := Positions(keys, k);
    if ps != [] {
      assert keys[ps[0]] == k;
    }
  }

  /** The r-th occurrence of a key. */
  lemma {:induction false} AtRank<K>(keys: seq<K>, k: K, r: nat) returns (j: nat)
    requires r < Count(keys, k)
    ensures j < |keys| && keys[j] == k && Count(keys[..j], k) == r
  {
    var n := |keys| - 1;
    if keys[n] == k && Count(keys[..n], k) == r {
      j := n;
    } else {
      j := AtRank(keys[..n], k, r);
      assert keys[..n][..j] == keys[..j];
    }
  }

  /** A server is taken over when enough new entries ask for its key. */
  lemma TakenByRank<K>(was: seq<K>, now: seq<K>, i: nat)
    requires i < |was|
    ensures Count(was[..i], was[i]) < Count(now, was[i]) <==>
            exists j | 0 <= j < |now| :: Keeper(was, now, j) == Some(i)
  {
    RankOfPosition(was, i);
    var r := Count(was[..i], was[i]);
    if r < Count(now, was[i]) {
      var j := AtRank(now, was[i], r);
      assert Keeper(was, now, j) == Some(i);
    }
    if j :| 0 <= j < |now| && Keeper(was, now, j) == Some(i) {
      assert now[..|now|] == now && now[j] == was[i];
      CountMonotone(now, was[i], j, |now|);
      assert Positions(was, was[i])[Count(now[..j], was[i])] == i;
    }
  }
}
