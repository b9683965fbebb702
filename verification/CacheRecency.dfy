// Over any sequence of lookups and stores the snapshot store ranks its keys by last use, and
// gives up those unused the longest.
module CacheRecency {
  import opened SnapshotCache

  datatype Use<S> = Looked(key: string) | Saved(key: string, snapshot: S, bytes: nat)

  function AfterUse<S>(c: Cache<S>, u: Use<S>): (d: Cache<S>)
    requires Valid(c)
    ensures Valid(d)
  {
    match u
    case Looked(k) => if k in c.entries then TouchedValid(c, k); Get(c, k) else Get(c, k)
    case Saved(k, s, bytes) => PutKeeps(c, k, s, bytes); Put(c, k, s, bytes)
  }

  /** The store after the first n uses. */
  function AfterUses<S>(budget: nat, us: seq<Use<S>>, n: nat): (c: Cache<S>)
    requires n <= |us|
    ensures Valid(c)
  {
    if n == 0 then Fresh(budget) else AfterUse(AfterUses(budget, us, n - 1), us[n - 1])
  }

  /** When a key was last looked up or stored, among the first n uses; -1 for never. */
  function LastUse<S>(us: seq<Use<S>>, n: nat, k: string): (i: int)
    requires n <= |us|
    ensures -1 <= i < n && (i >= 0 ==> us[i].key == k) && forall j :: i < j < n ==> us[j].key != k
  {
    if n == 0 then -1 else if us[n - 1].key == k then n - 1 else LastUse(us, n - 1, k)
  }

  /** Most recently used first. */
  ghost predicate ByLastUse<S>(us: seq<Use<S>>, n: nat, keys: seq<string>)
    requires n <= |us|
  {
    && (forall k :: k in keys ==> LastUse(us, n, k) >= 0)
    && forall i, j :: 0 <= i < j < |keys| ==> LastUse(us, n, keys[i]) > LastUse(us, n, keys[j])
  }

  lemma {:induction false} WithoutByLastUse<S>(us: seq<Use<S>>, n: nat, keys: seq<string>, k: string)
    requires n <= |us| && ByLastUse(us, n, keys)
    ensures ByLastUse(us, n, Without(keys, k))
  {
    hide LastUse;
    if keys != [] {
      var front, last := keys[..|keys| - 1], keys[|keys| - 1];
      assert last in keys && forall x :: x in front ==> x in keys;
      WithoutByLastUse(us, n, front, k);
      assert forall j :: 0 <= j < |front| ==> front[j] == keys[j];
      OneMoreRanked(us, n, front, Without(front, k), last);
    }
  }

  lemma OneMoreRanked<S>(us: seq<Use<S>>, n: nat, front: seq<string>, rest: seq<string>, last: string)
    requires n <= |us| && ByLastUse(us, n, rest) && LastUse(us, n, last) >= 0
    requires forall j :: 0 <= j < |front| ==> LastUse(us, n, front[j]) > LastUse(us, n, last)
    requires forall x :: x in rest ==> x in front
    ensures ByLastUse(us, n, rest + [last])
  {
    hide LastUse;
    forall i | 0 <= i < |rest| ensures LastUse(us, n, rest[i]) > LastUse(us, n, last) {
      assert rest[i] in rest;
      assert rest[i] in front;
    }
  }

  /** The key used next goes first, and the others stay in order. */
  lemma UsedFirst<S>(us: seq<Use<S>>, n: nat, keys: seq<string>)
    requires n < |us| && ByLastUse(us, n, keys) && Distinct(keys)
    ensures ByLastUse(us, n + 1, [us[n].key] + Without(keys, us[n].key))
  {
    hide LastUse, ByLastUse, Without;
    WithoutByLastUse(us, n, keys, us[n].key);
    WithoutIs(keys, us[n].key);
    MissKeepsRanks(us, n, Without(keys, us[n].key));
    PutFirst(us, n, Without(keys, us[n].key));
  }

  lemma PutFirst<S>(us: seq<Use<S>>, n: nat, rest: seq<string>)
    requires n < |us| && ByLastUse(us, n + 1, rest) && us[n].key !in rest
    ensures ByLastUse(us, n + 1, [us[n].key] + rest)
  {
    LastIs(us, n);
    hide LastUse;
    forall i | 0 <= i < |rest| ensures LastUse(us, n + 1, rest[i]) < n {
      assert rest[i] in rest;
      NotLast(us, n, rest[i]);
    }
  }

  lemma NotLast<S>(us: seq<Use<S>>, n: nat, k: string)
    requires n < |us| && us[n].key != k
    ensures LastUse(us, n + 1, k) == LastUse(us, n, k) < n
  {
  }

  lemma LastIs<S>(us: seq<Use<S>>, n: nat)
    requires n < |us|
    ensures LastUse(us, n + 1, us[n].key) == n
  {
  }

  /** A lookup that misses leaves the ranks alone. */
  lemma MissKeepsRanks<S>(us: seq<Use<S>>, n: nat, keys: seq<string>)
    requires n < |us| && ByLastUse(us, n, keys) && us[n].key !in keys
    ensures ByLastUse(us, n + 1, keys)
  {
    hide LastUse;
    forall x | x in keys ensures LastUse(us, n + 1, x) == LastUse(us, n, x) {
      NotLast(us, n, x);
    }
    assert forall i :: 0 <= i < |keys| ==> keys[i] in keys;
  }

  /** A front of the ranks holds what was used last. */
  lemma FrontUsedLast<S>(us: seq<Use<S>>, n: nat, front: seq<string>, keys: seq<string>, x: string, y: string)
    requires n <= |us| && ByLastUse(us, n, keys) && front <= keys && x in keys && x !in front && y in front
    ensures LastUse(us, n, x) < LastUse(us, n, y)
  {
    hide LastUse;
    var i :| 0 <= i < |keys| && keys[i] == x;
    var j :| 0 <= j < |front| && front[j] == y;
    assert forall m :: 0 <= m < |front| ==> keys[m] == front[m];
    assert keys[j] == y;
  }

  /** Live keys are ranked by last use at any time; what a step drops was used before all it keeps. */
  lemma {:induction false} LiveByLastUse<S>(budget: nat, us: seq<Use<S>>, n: nat)
    requires n <= |us|
    ensures ByLastUse(us, n, AfterUses(budget, us, n).recency)
    ensures n > 0 ==> var before, after := AfterUses(budget, us, n - 1), AfterUses(budget, us, n);
      forall x, y :: x in before.entries && x !in after.entries && y in after.entries ==>
        LastUse(us, n, x) < LastUse(us, n, y)
  {
    hide LastUse, Weight, EvictToBudget, Without, ByLastUse;
    if n == 0 {
      assert ByLastUse(us, 0, []) by { NoneRanked(us); }
    } else {
      var c, u := AfterUses(budget, us, n - 1), us[n - 1];
      LiveByLastUse(budget, us, n - 1);
      var ranked := [u.key] + Without(c.recency, u.key);
      UsedFirst(us, n - 1, c.recency);
      var d := AfterUses(budget, us, n);
      if u.Looked? {
        if u.key !in c.entries {
          MissKeepsRanks(us, n - 1, c.recency);
        }
      } else {
        PutKeeps(c, u.key, u.snapshot, u.bytes);
        WithoutIs(c.recency, u.key);
        FrontRanked(us, n, d.recency, ranked);
        forall x, y | x in c.entries && x !in d.entries && y in d.entries
          ensures LastUse(us, n, x) < LastUse(us, n, y) {
          FrontUsedLast(us, n, d.recency, ranked, x, y);
        }
      }
    }
  }

  lemma NoneRanked<S>(us: seq<Use<S>>)
    ensures ByLastUse(us, 0, [])
  {
  }

  lemma FrontRanked<S>(us: seq<Use<S>>, n: nat, front: seq<string>, keys: seq<string>)
    requires n <= |us| && ByLastUse(us, n, keys) && front <= keys
    ensures ByLastUse(us, n, front)
  {
    hide LastUse;
  }
}
