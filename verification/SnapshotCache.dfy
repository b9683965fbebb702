// The byte-bounded, least-recently-used store of evaluation snapshots.
module SnapshotCache {
  import opened Outcomes

  datatype Entry<S> = Entry(snapshot: S, bytes: nat)

  /** The store as a value. `recency` lists the live keys, most recent first. */
  datatype Cache<S> = Cache(
    entries: map<string, Entry<S>>,
    recency: seq<string>,
    total: int,
    budget: nat,
    hits: nat,
    misses: nat,
    evictions: nat,
    stored: nat)

  function Fresh<S>(budget: nat): Cache<S> {
    Cache(map[], [], 0, budget, 0, 0, 0, 0)
  }

  function Weight<S>(entries: map<string, Entry<S>>, keys: seq<string>): nat
    requires forall k :: k in keys ==> k in entries
  {
    if keys == [] then 0
    else
      var last := keys[|keys| - 1];
      assert last in keys;
      Weight(entries, keys[..|keys| - 1]) + entries[last].bytes
  }

  ghost predicate Distinct(keys: seq<string>) {
    forall i, j :: 0 <= i < j < |keys| ==> keys[i] != keys[j]
  }

  ghost predicate Valid<S>(c: Cache<S>) {
    && Distinct(c.recency)
    && (forall k :: k in c.recency <==> k in c.entries)
    && c.total == Weight(c.entries, c.recency)
  }

  /** A key moved off its place. */
  function Without(keys: seq<string>, k: string): (r: seq<string>)
    ensures forall x :: x in r ==> x in keys
  {
    if keys == [] then []
    else
      var last := keys[|keys| - 1];
      var front := Without(keys[..|keys| - 1], k);
      if last == k then front else front + [last]
  }

  function Touched<S>(c: Cache<S>, k: string): Cache<S> {
    c.(recency := [k] + Without(c.recency, k))
  }

  function EvictLeastRecent<S>(c: Cache<S>): Cache<S>
    requires c.recency != [] && forall k :: k in c.recency ==> k in c.entries
  {
    var n := |c.recency| - 1;
    var k := c.recency[n];
    assert k in c.recency;
    c.(recency := c.recency[..n], total := c.total - c.entries[k].bytes, entries := c.entries - {k},
       evictions := c.evictions + 1)
  }

  lemma {:induction false} WithoutIs(keys: seq<string>, k: string)
    requires Distinct(keys)
    ensures Distinct(Without(keys, k)) && k !in Without(keys, k)
    ensures forall x :: x in Without(keys, k) <==> x in keys && x != k
    ensures k !in keys ==> Without(keys, k) == keys
  {
    if keys != [] {
      var front := keys[..|keys| - 1];
      WithoutIs(front, k);
      assert keys == front + [keys[|keys| - 1]];
      assert keys[|keys| - 1] !in front;
    }
  }

  lemma {:induction false} WeightSame<S>(e: map<string, Entry<S>>, f: map<string, Entry<S>>, keys: seq<string>)
    requires forall k :: k in keys ==> k in e && k in f && e[k] == f[k]
    ensures Weight(e, keys) == Weight(f, keys)
  {
    if keys != [] {
      assert keys[|keys| - 1] in keys;
      WeightSame(e, f, keys[..|keys| - 1]);
    }
  }

  lemma {:induction false} WeightFront<S>(e: map<string, Entry<S>>, k: string, keys: seq<string>)
    requires k in e && forall x :: x in keys ==> x in e
    ensures forall x :: x in [k] + keys ==> x in e
    ensures Weight(e, [k] + keys) == e[k].bytes + Weight(e, keys)
  {
    if keys == [] {
      assert ([k] + keys)[..0] == [];
    } else {
      var n := |keys| - 1;
      assert keys[n] in keys;
      assert ([k] + keys)[..n + 1] == [k] + keys[..n];
      WeightFront(e, k, keys[..n]);
    }
  }

  lemma {:induction false} WeightWithout<S>(e: map<string, Entry<S>>, k: string, keys: seq<string>)
    requires Distinct(keys) && k in keys && forall x :: x in keys ==> x in e
    ensures Weight(e, keys) == e[k].bytes + Weight(e, Without(keys, k))
  {
    var n := |keys| - 1;
    var front := keys[..n];
    WithoutIs(front, k);
    if keys[n] != k {
      assert keys == front + [keys[n]];
      WeightWithout(e, k, front);
      assert (Without(front, k) + [keys[n]])[..|Without(front, k)|] == Without(front, k);
    }
  }

  lemma TouchedValid<S>(c: Cache<S>, k: string)
    requires Valid(c) && k in c.entries
    ensures Valid(Touched(c, k))
  {
    WithoutIs(c.recency, k);
    WeightWithout(c.entries, k, c.recency);
    WeightFront(c.entries, k, Without(c.recency, k));
  }

  lemma EvictedOneValid<S>(c: Cache<S>)
    requires Valid(c) && c.recency != []
    ensures Valid(EvictLeastRecent(c))
  {
    var n := |c.recency| - 1;
    var d := EvictLeastRecent(c);
    assert c.recency == d.recency + [c.recency[n]];
    WeightSame(c.entries, d.entries, d.recency);
  }

  /** The governor's loop: drops least recent entries until within budget, but never the last one. */
  function EvictToBudget<S>(c: Cache<S>): Cache<S>
    requires Valid(c)
    decreases |c.recency|
  {
    if c.total > c.budget && |c.recency| > 1
    then EvictedOneValid(c); EvictToBudget(EvictLeastRecent(c))
    else c
  }

  function Recorded<S>(c: Cache<S>, k: string, snapshot: S, bytes: nat): Cache<S> {
    if k in c.entries
    then Touched(c.(entries := c.entries[k := Entry(snapshot, bytes)],
                    total := c.total - c.entries[k].bytes + bytes), k)
    else c.(entries := c.entries[k := Entry(snapshot, bytes)], recency := [k] + c.recency,
            total := c.total + bytes, stored := c.stored + 1)
  }

  function Put<S>(c: Cache<S>, k: string, snapshot: S, bytes: nat): Cache<S>
    requires Valid(c)
  {
    RecordedValid(c, k, snapshot, bytes);
    EvictToBudget(Recorded(c, k, snapshot, bytes))
  }

  function Get<S>(c: Cache<S>, k: string): Cache<S> {
    if k in c.entries then Touched(c, k) else c
  }

  lemma RecordedValid<S>(c: Cache<S>, k: string, snapshot: S, bytes: nat)
    requires Valid(c)
    ensures Valid(Recorded(c, k, snapshot, bytes))
    ensures Recorded(c, k, snapshot, bytes).recency == [k] + Without(c.recency, k)
  {
    hide Weight, Without;
    var f := c.entries[k := Entry(snapshot, bytes)];
    var rest := Without(c.recency, k);
    WithoutIs(c.recency, k);
    WeightSame(c.entries, f, rest);
    WeightFront(f, k, rest);
    if k in c.entries {
      WeightWithout(c.entries, k, c.recency);
    }
  }

  // ---------- What the governor guarantees ----------

  lemma EvictedOne<S>(c: Cache<S>)
    requires Valid(c) && c.recency != []
    ensures var d := EvictLeastRecent(c);
            && Valid(d) && d.recency == c.recency[..|c.recency| - 1] && d.budget == c.budget
            && (forall k :: k in d.recency ==> k in d.entries && k in c.entries && d.entries[k] == c.entries[k])
            && d.evictions == c.evictions + 1 && d.stored == c.stored
  {
    EvictedOneValid(c);
  }

  /** d is what is left of c once its least recent entries are gone. */
  ghost predicate Trimmed<S>(c: Cache<S>, d: Cache<S>) {
    && Valid(c) && Valid(d) && d.recency <= c.recency && d.budget == c.budget
    && (forall k :: k in d.recency ==> k in c.entries && k in d.entries && d.entries[k] == c.entries[k])
    && d.evictions - c.evictions == |c.recency| - |d.recency| && d.stored == c.stored
  }

  lemma {:induction false} EvictToBudgetIs<S>(c: Cache<S>)
    requires Valid(c)
    ensures var d := EvictToBudget(c);
            && Trimmed(c, d)
            && (c.recency != [] ==> d.recency != [])
            && (d.total <= d.budget || |d.recency| <= 1)
    decreases |c.recency|
  {
    hide EvictLeastRecent, Weight;
    if c.total > c.budget && |c.recency| > 1 {
      EvictedOne(c);
      EvictToBudgetIs(EvictLeastRecent(c));
    }
  }

  /** One entry more would have been over budget. */
  lemma {:induction false} EvictNoMoreThanNeeded<S>(c: Cache<S>)
    requires Valid(c)
    ensures var d := EvictToBudget(c);
            |d.recency| < |c.recency| && d.recency <= c.recency ==>
              Weight(c.entries, c.recency[..|d.recency| + 1]) > c.budget
    decreases |c.recency|
  {
    hide EvictLeastRecent, Weight, Distinct;
    if c.total > c.budget && |c.recency| > 1 {
      var e := EvictLeastRecent(c);
      EvictedOne(c);
      EvictNoMoreThanNeeded(e);
      var n := |EvictToBudget(c).recency|;
      EvictToBudgetIs(e);
      TotalIsWeight(c);
      if n < |e.recency| {
        FrontWeighs(c, e, n + 1);
      } else {
        assert c.recency[..n + 1] == c.recency;
      }
    }
  }

  lemma TotalIsWeight<S>(c: Cache<S>)
    requires Valid(c)
    ensures (forall k :: k in c.recency ==> k in c.entries) && c.total == Weight(c.entries, c.recency)
  {
  }

  /** A front of the recency list that survives weighs what it did. */
  lemma FrontWeighs<S>(c: Cache<S>, e: Cache<S>, n: nat)
    requires n <= |e.recency| && e.recency <= c.recency
    requires forall k :: k in e.recency ==> k in e.entries && k in c.entries && e.entries[k] == c.entries[k]
    ensures (forall k :: k in c.recency[..n] ==> k in c.entries) && (forall k :: k in e.recency[..n] ==> k in e.entries)
    ensures c.recency[..n] == e.recency[..n]
    ensures Weight(c.entries, c.recency[..n]) == Weight(e.entries, e.recency[..n])
  {
    hide Weight;
    assert c.recency[..n] == e.recency[..n];
    assert forall k :: k in e.recency[..n] ==> k in e.recency;
    WeightSame(c.entries, e.entries, c.recency[..n]);
  }

  /** A store keeps the new snapshot and leaves whatever else stays live as it was, dropping
      the least recent first. */
  lemma PutKeeps<S>(c: Cache<S>, k: string, snapshot: S, bytes: nat)
    requires Valid(c)
    ensures var d := Put(c, k, snapshot, bytes);
            && Valid(d) && d.budget == c.budget
            && d.recency != [] && d.recency <= [k] + Without(c.recency, k)
            && k in d.entries && d.entries[k] == Entry(snapshot, bytes)
            && (forall x :: x in d.entries && x != k ==> x in c.entries && d.entries[x] == c.entries[x])
  {
    hide EvictToBudget, Weight, Without;
    RecordedValid(c, k, snapshot, bytes);
    var r := Recorded(c, k, snapshot, bytes);
    EvictToBudgetIs(r);
    var d := EvictToBudget(r);
    assert d.recency[0] == k && k in d.recency;
    forall x | x in d.entries ensures d.entries[x] == r.entries[x] {
      assert x in d.recency;
    }
  }

  /** A snapshot that fits is added and nothing else changes. */
  lemma PutFits<S>(c: Cache<S>, k: string, snapshot: S, bytes: nat)
    requires Valid(c) && c.total + bytes <= c.budget
    ensures var d := Put(c, k, snapshot, bytes);
            && Valid(d) && d.budget == c.budget && d.total <= c.total + bytes
            && d.entries == c.entries[k := Entry(snapshot, bytes)]
  {
    hide Weight, Without;
    RecordedValid(c, k, snapshot, bytes);
  }

  /** The budget is exceeded only when the new snapshot exceeds it by itself, and no entry is
      dropped that would have fitted. */
  lemma PutGoverns<S>(c: Cache<S>, k: string, snapshot: S, bytes: nat)
    requires Valid(c)
    ensures var d := Put(c, k, snapshot, bytes);
            var r := Recorded(c, k, snapshot, bytes);
            && Valid(r) && d.recency <= r.recency
            && (d.total > d.budget <==> bytes > c.budget)
            && (bytes > c.budget ==> d.recency == [k])
            && (|d.recency| < |r.recency| ==> Weight(r.entries, r.recency[..|d.recency| + 1]) > c.budget)
  {
    hide EvictToBudget, Weight, Without, Recorded;
    PutKeeps(c, k, snapshot, bytes);
    RecordedValid(c, k, snapshot, bytes);
    var r := Recorded(c, k, snapshot, bytes);
    RecordedBudget(c, k, snapshot, bytes);
    EvictToBudgetIs(r);
    EvictNoMoreThanNeeded(r);
    FirstWeight(Put(c, k, snapshot, bytes), k);
  }

  lemma RecordedBudget<S>(c: Cache<S>, k: string, snapshot: S, bytes: nat)
    ensures Recorded(c, k, snapshot, bytes).budget == c.budget
  {
  }

  lemma FirstWeight<S>(d: Cache<S>, k: string)
    requires Valid(d) && d.recency != [] && d.recency[0] == k && k in d.entries
    ensures d.total >= d.entries[k].bytes
    ensures |d.recency| == 1 ==> d.recency == [k] && d.total == d.entries[k].bytes
  {
    var rest := d.recency[1..];
    assert d.recency == [k] + rest;
    WeightFront(d.entries, k, rest);
    WeightNone(d.entries, rest);
  }

  lemma WeightNone<S>(entries: map<string, Entry<S>>, keys: seq<string>)
    requires forall k :: k in keys ==> k in entries
    ensures keys == [] ==> Weight(entries, keys) == 0
  {
  }

  /** Lifetime accounting: what is live is what was ever stored less what was evicted. */
  lemma PutAccounts<S>(c: Cache<S>, k: string, snapshot: S, bytes: nat)
    requires Valid(c) && |c.recency| == c.stored - c.evictions
    ensures var d := Put(c, k, snapshot, bytes); |d.recency| == d.stored - d.evictions
  {
    RecordedValid(c, k, snapshot, bytes);
    EvictToBudgetIs(Recorded(c, k, snapshot, bytes));
    if k in c.entries {
      WithoutCount(c.recency, k);
    }
  }

  lemma {:induction false} WithoutCount(keys: seq<string>, k: string)
    requires Distinct(keys) && k in keys
    ensures |Without(keys, k)| == |keys| - 1
  {
    var n := |keys| - 1;
    WithoutIs(keys[..n], k);
    if keys[n] != k {
      assert keys == keys[..n] + [keys[n]];
      WithoutCount(keys[..n], k);
    }
  }

  lemma LastIsLive<S>(c: Cache<S>)
    requires Valid(c) && c.recency != []
    ensures c.recency[|c.recency| - 1] in c.entries
    ensures forall k :: k in c.recency ==> k in c.entries
  {
    assert c.recency[|c.recency| - 1] in c.recency;
  }

  /** The running total never dips below zero while an entry is being replaced. */
  lemma TotalCovers<S>(c: Cache<S>, k: string, snapshot: S, bytes: nat)
    requires Valid(c)
    ensures c.total >= 0 && (k in c.entries ==> c.total >= c.entries[k].bytes)
  {
    if k in c.entries {
      WeightWithout(c.entries, k, c.recency);
    }
  }

  // ---------- The store itself ----------

  class LruCache<S> {
    var entries: map<string, Entry<S>>
    var recency: seq<string>
    var total: int
    const budget: nat
    var hits: nat
    var misses: nat
    var evictions: nat
    var stored: nat

    ghost function State(): Cache<S>
      reads this
    {
      Cache(entries, recency, total, budget, hits, misses, evictions, stored)
    }

    constructor (budget: nat)
      ensures State() == Fresh(budget) && Valid(State())
    {
      this.budget := budget;
      entries, recency, total := map[], [], 0;
      hits, misses, evictions, stored := 0, 0, 0, 0;
    }

    method Lookup(key: string) returns (snapshot: Option<S>)
      requires Valid(State())
      modifies this
      ensures State() == Get(old(State()), key) && Valid(State())
      ensures snapshot == if key in old(entries) then Some(old(entries)[key].snapshot) else None
    {
      if key !in entries {
        return None;
      }
      TouchedValid(State(), key);
      Touch(key);
      return Some(entries[key].snapshot);
    }

    method Touch(key: string)
      modifies `recency
      ensures recency == [key] + Without(old(recency), key)
    {
      recency := [key] + Without(recency, key);
    }

    method Store(key: string, snapshot: S, bytes: nat)
      requires Valid(State())
      modifies this
      ensures State() == Put(old(State()), key, snapshot, bytes) && Valid(State())
    {
      hide Valid, EvictToBudget, Weight;
      ghost var c := State();
      RecordedValid(c, key, snapshot, bytes);
      EvictToBudgetIs(Recorded(c, key, snapshot, bytes));
      TotalCovers(c, key, snapshot, bytes);
      if key in entries {
        total := total - entries[key].bytes;
        entries := entries[key := Entry(snapshot, bytes)];
        total := total + bytes;
        Touch(key);
      } else {
        entries := entries[key := Entry(snapshot, bytes)];
        recency := [key] + recency;
        total := total + bytes;
        stored := stored + 1;
      }
      Govern();
    }

    method Govern()
      requires Valid(State())
      modifies this
      ensures State() == EvictToBudget(old(State())) && Valid(State())
    {
      hide Valid, Weight;
      ghost var start := State();
      while total > budget && |recency| > 1
        invariant Valid(State()) && EvictToBudget(State()) == EvictToBudget(start)
        decreases |recency|
      {
        ghost var c := State();
        LastIsLive(c);
        EvictedOneValid(c);
        var leastRecent := recency[|recency| - 1];
        recency := recency[..|recency| - 1];
        total := total - entries[leastRecent].bytes;
        entries := entries - {leastRecent};
        evictions := evictions + 1;
      }
    }

    method RecordPrefixOutcome(hit: bool)
      modifies `hits, `misses
      ensures hits == old(hits) + (if hit then 1 else 0) && misses == old(misses) + (if hit then 0 else 1)
    {
      if hit {
        hits := hits + 1;
      } else {
        misses := misses + 1;
      }
    }
  }
}
