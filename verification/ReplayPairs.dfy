// Two requests in a row on a fresh evaluator, decided exactly: what the first leaves live, when
// the second gets the cold answer, and two edits that no key sees.
module ReplayPairs {
  import opened Outcomes
  import opened BodyPools
  import opened SnapshotCache
  import opened ReplayEngine
  import opened ReplayLaws
  import opened ReplayHistory

  // ---------- Two requests ----------

  /** The first p features, and no more, have equal projections. */
  ghost predicate SharedExactly(a: Request, p: nat, b: Request) {
    && SharePrefix(a, p, b)
    && (p < |a.features| && p < |b.features| ==> a.features[p].content.canon != b.features[p].content.canon)
  }

  lemma SharedAtMost(a: Request, p: nat, b: Request, q: nat)
    requires SharedExactly(a, p, b)
    ensures SharePrefix(a, q, b) ==> q <= p
  {
    SharedCanons(a, q, b);
  }

  lemma SharedCanons(a: Request, q: nat, b: Request)
    ensures SharePrefix(a, q, b) ==>
              forall k :: 0 <= k < q ==> a.features[k].content.canon == b.features[k].content.canon
  {
    if SharePrefix(a, q, b) {
      forall k | 0 <= k < q ensures a.features[k].content.canon == b.features[k].content.canon {
        assert Canons(a.features[..q])[k] == Canons(b.features[..q])[k];
      }
    }
  }

  lemma {:induction false} TailRuns(
    ex: Execute, host: Host, c: Cache<Snapshot>, r: Request, i: nat, st: State, registry: bool)
    requires Valid(c) && i <= |r.features|
    ensures Tail(ex, host, c, r, i, st, registry).0
         == RunFeatures(ex, Canons(r.features), r.features[i..], st, registry)
    decreases |r.features| - i
  {
    hide Valid, Put, KeyAt;
    if i < |r.features| {
      assert r.features[i..][0] == r.features[i] && r.features[i..][1..] == r.features[i + 1..];
      var next := if r.features[i].suppressed then Some(st)
        else ex(r.features[i].content, Canons(r.features), st, registry);
      if next.Some? {
        var s := SnapshotOf(next.value);
        PutKeeps(c, KeyAt(host, r, i + 1), s, host.weigh(s));
        TailRuns(ex, host, Put(c, KeyAt(host, r, i + 1), s, host.weigh(s)), r, i + 1, next.value, registry);
      }
    }
  }

  /** The cache one evaluation of `first` leaves in a fresh evaluator. */
  function After(ex: Execute, host: Host, budget: nat, first: Request): (c: Cache<Snapshot>)
    ensures Valid(c)
  {
    assert Valid(Fresh<Snapshot>(budget));
    EvaluatedValid(ex, host, Fresh(budget), first);
    Evaluated(ex, host, Fresh(budget), first).1
  }

  lemma AfterIsHonest(ex: Execute, host: Host, budget: nat, first: Request)
    ensures Honest(ex, host, After(ex, host, budget, first), {first})
  {
    hide Valid, Tail, Honest, KindOf, KeyAt;
    var empty := Fresh<Snapshot>(budget);
    FreshIsHonest(ex, host, budget, {first});
    NothingLive(host, budget, first, |first.features|);
    BookkeepingHonest(ex, host, empty, {first}, KeyAt(host, first, 0), false);
    NothingRun(ex, host, first);
    TailIsCold(ex, host, Outcome(empty, false), {first}, first, 0, Start(KindOf(host, first)));
  }

  lemma {:induction false} NothingLive(host: Host, budget: nat, r: Request, n: nat)
    requires n <= |r.features|
    ensures LongestLive(host, Fresh(budget), r, n) == 0
  {
    if n > 0 {
      NothingLive(host, budget, r, n - 1);
    }
  }

  /** A request with a live prefix is continued from the longest one. */
  lemma ResumedIsWarm(ex: Execute, host: Host, c: Cache<Snapshot>, r: Request)
    requires Valid(c) && LongestLive(host, c, r, |r.features|) > 0
    ensures var p := LongestLive(host, c, r, |r.features|);
            Evaluated(ex, host, c, r).0 == Warm(ex, host, r, p, c.entries[KeyAt(host, r, p)].snapshot)
  {
    hide Valid, KindOf, Tail, RunFeatures, KeyAt;
    var p := LongestLive(host, c, r, |r.features|);
    BookkeepingValid(c, KeyAt(host, r, p), true);
    TailRuns(ex, host, Outcome(Get(c, KeyAt(host, r, p)), true), r, p,
             WarmStart(host, r, c.entries[KeyAt(host, r, p)].snapshot), false);
  }

  /** If the longest shared prefix is still live, the second request is continued from it. */
  lemma SecondIsWarm(ex: Execute, host: Host, budget: nat, first: Request, p: nat, second: Request)
    requires CollisionFree(host) && SameLine(first, second) && SharedExactly(first, p, second) && p > 0
    requires KeyAt(host, first, p) in After(ex, host, budget, first).entries
    ensures PrefixState(ex, host, first, p).Some?
    ensures Evaluated(ex, host, After(ex, host, budget, first), second).0
         == Warm(ex, host, second, p, SnapshotOf(PrefixState(ex, host, first, p).value))
  {
    hide CollisionFree, Valid, Honest, PrefixState, After, Evaluated, Warm;
    var c := After(ex, host, budget, first);
    AfterIsHonest(ex, host, budget, first);
    SecondResumesAt(ex, host, c, first, p, second);
    var s := EntryIsCold(ex, host, c, {first}, second, p);
    ResumedIsWarm(ex, host, c, second);
  }

  lemma SecondResumesAt(ex: Execute, host: Host, c: Cache<Snapshot>, first: Request, p: nat, second: Request)
    requires CollisionFree(host) && SameLine(first, second) && SharedExactly(first, p, second) && p > 0
    requires Honest(ex, host, c, {first}) && KeyAt(host, first, p) in c.entries
    ensures KeyAt(host, second, p) == KeyAt(host, first, p)
    ensures LongestLive(host, c, second, |second.features|) == p
  {
    hide CollisionFree, Honest, PrefixState;
    SharedAtMost(first, p, second, LongestLive(host, c, second, |second.features|));
    LiveIsShared(ex, host, c, first, second, LongestLive(host, c, second, |second.features|));
  }

  lemma LiveIsShared(ex: Execute, host: Host, c: Cache<Snapshot>, first: Request, second: Request, q: nat)
    requires CollisionFree(host) && Honest(ex, host, c, {first}) && q <= |second.features|
    ensures q > 0 && KeyAt(host, second, q) in c.entries ==> SameLine(first, second) && SharePrefix(first, q, second)
  {
    hide CollisionFree, Honest, KeyAt;
    if q > 0 && KeyAt(host, second, q) in c.entries {
      var s := EntryIsCold(ex, host, c, {first}, second, q);
    }
  }

  // ---------- The second answer ----------

  /** Two requests that share exactly their first p operations, whatever the budget and the weights:
      among the kernels that leave the shared prefix live, the second answer is the cold one on all
      of them exactly when the requests are replayable there. */
  lemma SecondIsColdIff(host: Host, budget: nat, first: Request, p: nat, second: Request)
    requires CollisionFree(host) && SameLine(first, second) && SharedExactly(first, p, second) && p > 0
    requires KeyAt(host, first, p) in After(Log, host, budget, first).entries
    ensures Replayable(host, first, p, second) <==>
      forall ex: Execute :: Faithful(ex) && KeyAt(host, first, p) in After(ex, host, budget, first).entries ==>
        SameOutcome(Evaluated(ex, host, After(ex, host, budget, first), second).0, Cold(ex, host, second))
  {
    hide CollisionFree, After, Evaluated, Replayable, Faithful, SameOutcome, Warm, Cold, PrefixState, KeyAt;
    if Replayable(host, first, p, second) {
      forall ex: Execute | Faithful(ex) && KeyAt(host, first, p) in After(ex, host, budget, first).entries
        ensures SameOutcome(Evaluated(ex, host, After(ex, host, budget, first), second).0, Cold(ex, host, second))
      {
        SecondIsWarm(ex, host, budget, first, p, second);
        WarmEqualsCold(ex, host, first, p, second);
      }
    }
    LogFaithful();
    SecondIsWarm(Log, host, budget, first, p, second);
    if SameOutcome(Evaluated(Log, host, After(Log, host, budget, first), second).0, Cold(Log, host, second)) {
      WarmEqualsColdOnlyIf(host, first, p, second);
    }
  }

  /** Where no operation is shared, or another document or version is asked for, nothing is live
      and the second answer is cold on every kernel. */
  lemma UnrelatedIsCold(ex: Execute, host: Host, budget: nat, first: Request, second: Request)
    requires Faithful(ex) && CollisionFree(host)
    requires !SameLine(first, second) || SharedExactly(first, 0, second)
    ensures SameOutcome(Evaluated(ex, host, After(ex, host, budget, first), second).0, Cold(ex, host, second))
  {
    hide CollisionFree, Faithful, Evaluated, After, Valid, Honest, KeyAt, SameOutcome, Cold, PrefixState;
    var c := After(ex, host, budget, first);
    AfterIsHonest(ex, host, budget, first);
    HonestToMore(ex, host, c, first, second);
    var q := LongestLive(host, c, second, |second.features|);
    LiveIsShared(ex, host, c, first, second, q);
    if SharedExactly(first, 0, second) {
      SharedAtMost(first, 0, second, q);
    }
    EvaluatedIsCold(ex, host, c, {first, second}, second);
  }

  lemma HonestToMore(ex: Execute, host: Host, c: Cache<Snapshot>, first: Request, second: Request)
    requires Honest(ex, host, c, {first})
    ensures Honest(ex, host, c, {first, second})
  {
    hide ColdEntry;
    forall key | key in c.entries
      ensures exists r: Request, p: nat ::
                r in {first, second} && ColdEntry(ex, host, key, c.entries[key].snapshot, r, p)
    {
      var r: Request, p: nat :| r in {first} && ColdEntry(ex, host, key, c.entries[key].snapshot, r, p);
      assert r in {first, second};
    }
  }

  // ---------- What the first request leaves live ----------

  /** The bytes of the snapshot after j features. */
  function WeightAt(ex: Execute, host: Host, r: Request, j: nat): nat
    requires j <= |r.features|
  {
    var st := PrefixState(ex, host, r, j);
    if st.None? then 0 else host.weigh(SnapshotOf(st.value))
  }

  /** The bytes of the snapshots after p to i features together. */
  function WeightBetween(ex: Execute, host: Host, r: Request, p: nat, i: nat): nat
    requires i <= |r.features|
    decreases i + 1 - p
  {
    if p > i then 0 else WeightBetween(ex, host, r, p + 1, i) + WeightAt(ex, host, r, p)
  }

  lemma {:induction false} WeightShrinks(ex: Execute, host: Host, r: Request, p: nat, q: nat, i: nat)
    requires p <= q && i <= |r.features|
    ensures WeightBetween(ex, host, r, q, i) <= WeightBetween(ex, host, r, p, i)
    decreases q - p
  {
    hide WeightAt;
    if p < q {
      WeightShrinks(ex, host, r, p + 1, q, i);
    }
  }

  lemma {:induction false} WeightUpTo(ex: Execute, host: Host, r: Request, p: nat, i: nat)
    requires p <= i + 1 <= |r.features|
    ensures WeightBetween(ex, host, r, p, i + 1) == WeightBetween(ex, host, r, p, i) + WeightAt(ex, host, r, i + 1)
    decreases i + 1 - p
  {
    hide WeightAt;
    if p <= i {
      WeightUpTo(ex, host, r, p + 1, i);
    } else {
      assert WeightBetween(ex, host, r, i + 2, i + 1) == 0;
    }
  }

  /** The live keys, most recent first, are those of the last few prefixes. */
  ghost predicate HoldsLast(ex: Execute, host: Host, c: Cache<Snapshot>, r: Request, i: nat)
    requires i <= |r.features|
  {
    && Valid(c) && |c.recency| <= i
    && forall t :: 0 <= t < |c.recency| ==>
         c.recency[t] == KeyAt(host, r, i - t) && c.recency[t] in c.entries
         && c.entries[c.recency[t]].bytes == WeightAt(ex, host, r, i - t)
  }

  /** They are as many as fit the budget, and at least one. */
  ghost predicate HoldsMost(ex: Execute, host: Host, c: Cache<Snapshot>, r: Request, i: nat)
    requires i <= |r.features|
  {
    var n := |c.recency|;
    && n <= i && (i > 0 ==> n > 0)
    && (n > 1 ==> WeightBetween(ex, host, r, i - n + 1, i) <= c.budget)
    && (0 < n < i ==> WeightBetween(ex, host, r, i - n, i) > c.budget)
  }

  lemma {:induction false} LastWeigh(
    ex: Execute, host: Host, r: Request, i: nat, entries: map<string, Entry<Snapshot>>, keys: seq<string>)
    requires i <= |r.features| && |keys| <= i
    requires forall t :: 0 <= t < |keys| ==>
      keys[t] in entries && entries[keys[t]].bytes == WeightAt(ex, host, r, i - t)
    ensures forall k :: k in keys ==> k in entries
    ensures Weight(entries, keys) == WeightBetween(ex, host, r, i - |keys| + 1, i)
  {
    hide WeightAt;
    if keys != [] {
      LastWeigh(ex, host, r, i, entries, keys[..|keys| - 1]);
    }
  }

  lemma KeysDiffer(host: Host, r: Request, i: nat, j: nat)
    requires CollisionFree(host) && i <= |r.features| && j <= |r.features|
    ensures KeyAt(host, r, i) == KeyAt(host, r, j) <==> i == j
  {
    hide CollisionFree;
    if KeyAt(host, r, i) == KeyAt(host, r, j) {
      KeysApart(host, r.documentId, r.version, Canons(r.features[..i]),
                r.documentId, r.version, Canons(r.features[..j]));
      assert |Canons(r.features[..i])| == i && |Canons(r.features[..j])| == j;
    }
  }

  /** Storing one more prefix keeps the live keys the last few, as many as fit. */
  lemma PutHoldsLast(ex: Execute, host: Host, c: Cache<Snapshot>, r: Request, i: nat)
    requires CollisionFree(host) && i < |r.features| && PrefixState(ex, host, r, i + 1).Some?
    requires HoldsLast(ex, host, c, r, i) && HoldsMost(ex, host, c, r, i)
    ensures var s := SnapshotOf(PrefixState(ex, host, r, i + 1).value);
            var d := Put(c, KeyAt(host, r, i + 1), s, host.weigh(s));
            && d.budget == c.budget && HoldsLast(ex, host, d, r, i + 1) && HoldsMost(ex, host, d, r, i + 1)
  {
    hide CollisionFree, PrefixState, KeyAt, Put, Weight, Valid, WeightBetween, Recorded;
    var s := SnapshotOf(PrefixState(ex, host, r, i + 1).value);
    var key, bytes := KeyAt(host, r, i + 1), host.weigh(s);
    var d := Put(c, key, s, bytes);
    PutHoldsKeys(ex, host, c, r, i);
    PutGoverns(c, key, s, bytes);
    RecordedValid(c, key, s, bytes);
    var n := |d.recency|;
    WeighRecorded(ex, host, c, r, i);
    TotalIsWeight(d);
    LastWeigh(ex, host, r, i + 1, d.entries, d.recency);
    if n == |c.recency| + 1 && n < i + 1 {
      WeightUpTo(ex, host, r, i + 1 - n, i);
    }
  }

  lemma PutHoldsKeys(ex: Execute, host: Host, c: Cache<Snapshot>, r: Request, i: nat)
    requires CollisionFree(host) && i < |r.features| && PrefixState(ex, host, r, i + 1).Some?
    requires HoldsLast(ex, host, c, r, i)
    ensures var s := SnapshotOf(PrefixState(ex, host, r, i + 1).value);
            var d := Put(c, KeyAt(host, r, i + 1), s, host.weigh(s));
            && d.budget == c.budget && HoldsLast(ex, host, d, r, i + 1) && d.recency != []
            && d.recency <= [KeyAt(host, r, i + 1)] + c.recency
  {
    hide CollisionFree, PrefixState, KeyAt, Put, Weight, Valid, Without;
    var s := SnapshotOf(PrefixState(ex, host, r, i + 1).value);
    var key, bytes := KeyAt(host, r, i + 1), host.weigh(s);
    forall t | 0 <= t < |c.recency| ensures c.recency[t] != key {
      KeysDiffer(host, r, i - t, i + 1);
    }
    NotThere(c, key);
    PutKeeps(c, key, s, bytes);
    var d := Put(c, key, s, bytes);
    KeysLive(d);
    forall t | 0 <= t < |d.recency|
      ensures d.recency[t] == KeyAt(host, r, i + 1 - t) && d.recency[t] in d.entries
           && d.entries[d.recency[t]].bytes == WeightAt(ex, host, r, i + 1 - t)
    {
      assert d.recency[t] in d.recency;
      if t > 0 {
        assert d.recency[t] == c.recency[t - 1];
      }
    }
  }

  lemma NotThere(c: Cache<Snapshot>, key: string)
    requires Valid(c) && key !in c.recency
    ensures Without(c.recency, key) == c.recency && key !in c.entries
  {
    WithoutIs(c.recency, key);
  }

  lemma KeysLive(d: Cache<Snapshot>)
    requires Valid(d)
    ensures forall k :: k in d.recency ==> k in d.entries
  {
  }

  /** What recording weighs before anything is dropped, front by front. */
  lemma WeighRecorded(ex: Execute, host: Host, c: Cache<Snapshot>, r: Request, i: nat)
    requires CollisionFree(host) && i < |r.features| && PrefixState(ex, host, r, i + 1).Some?
    requires HoldsLast(ex, host, c, r, i)
    ensures var s := SnapshotOf(PrefixState(ex, host, r, i + 1).value);
            var rec := Recorded(c, KeyAt(host, r, i + 1), s, host.weigh(s));
            && |rec.recency| == |c.recency| + 1
            && forall n :: 0 <= n <= |rec.recency| ==>
                 (forall k :: k in rec.recency[..n] ==> k in rec.entries)
                 && Weight(rec.entries, rec.recency[..n]) == WeightBetween(ex, host, r, i + 2 - n, i + 1)
  {
    hide CollisionFree, PrefixState, KeyAt, Weight, Valid, Without, WeightBetween;
    var s := SnapshotOf(PrefixState(ex, host, r, i + 1).value);
    var key := KeyAt(host, r, i + 1);
    forall t | 0 <= t < |c.recency| ensures c.recency[t] != key {
      KeysDiffer(host, r, i - t, i + 1);
    }
    NotThere(c, key);
    var rec := Recorded(c, key, s, host.weigh(s));
    assert rec.recency == [key] + c.recency;
    forall n | 0 <= n <= |rec.recency|
      ensures (forall k :: k in rec.recency[..n] ==> k in rec.entries)
      ensures Weight(rec.entries, rec.recency[..n]) == WeightBetween(ex, host, r, i + 2 - n, i + 1)
    {
      forall t | 0 <= t < n
        ensures rec.recency[..n][t] in rec.entries
        ensures rec.entries[rec.recency[..n][t]].bytes == WeightAt(ex, host, r, i + 1 - t)
      {
        if t > 0 {
          assert rec.recency[t] == c.recency[t - 1];
        }
      }
      LastWeigh(ex, host, r, i + 1, rec.entries, rec.recency[..n]);
    }
  }

  /** The features that run before the first throw. */
  ghost predicate Reaches(ex: Execute, host: Host, r: Request, m: nat) {
    && m <= |r.features| && PrefixState(ex, host, r, m).Some?
    && (m < |r.features| ==> PrefixState(ex, host, r, m + 1).None?)
  }

  lemma {:induction false} TailHoldsLast(
    ex: Execute, host: Host, c: Cache<Snapshot>, r: Request, i: nat, st: State, m: nat)
    requires CollisionFree(host) && i <= m && Reaches(ex, host, r, m)
    requires PrefixState(ex, host, r, i) == Some(st)
    requires HoldsLast(ex, host, c, r, i) && HoldsMost(ex, host, c, r, i)
    ensures var d := Tail(ex, host, c, r, i, st, KindOf(host, r).RegisteredKind?).1;
            d.budget == c.budget && HoldsLast(ex, host, d, r, m) && HoldsMost(ex, host, d, r, m)
    decreases m - i
  {
    hide CollisionFree, PrefixState, KindOf, Put, KeyAt, Valid, WeightAt, HoldsLast, HoldsMost;
    HoldsLastValid(ex, host, c, r, i);
    if i < |r.features| {
      NextPrefix(ex, host, r, i);
      var next := PrefixState(ex, host, r, i + 1);
      if i < m {
        ReachesAll(ex, host, r, i + 1, m);
        PutHoldsLast(ex, host, c, r, i);
        var s := SnapshotOf(next.value);
        TailHoldsLast(ex, host, Put(c, KeyAt(host, r, i + 1), s, host.weigh(s)), r, i + 1, next.value, m);
      }
    }
  }

  lemma HoldsLastValid(ex: Execute, host: Host, c: Cache<Snapshot>, r: Request, i: nat)
    requires i <= |r.features| && HoldsLast(ex, host, c, r, i)
    ensures Valid(c)
  {
  }

  lemma ReachesAll(ex: Execute, host: Host, r: Request, i: nat, m: nat)
    requires i <= m <= |r.features| && PrefixState(ex, host, r, m).Some?
    ensures PrefixState(ex, host, r, i).Some?
  {
    hide KindOf;
    assert r.features[..m] == r.features[..i] + r.features[i..m];
    RunConcat(ex, Canons(r.features), r.features[..i], r.features[i..m], Start(KindOf(host, r)),
      KindOf(host, r).RegisteredKind?);
  }

  /** Which prefixes one evaluation leaves live: the last one it reached, and each earlier one
      whose snapshot fits the budget together with all that came after it. */
  lemma PrefixLiveIff(ex: Execute, host: Host, budget: nat, r: Request, m: nat, p: nat)
    requires CollisionFree(host) && Reaches(ex, host, r, m) && 1 <= p <= |r.features|
    ensures KeyAt(host, r, p) in After(ex, host, budget, r).entries
       <==> p == m || (p < m && WeightBetween(ex, host, r, p, m) <= budget)
  {
    hide CollisionFree, PrefixState, KindOf, Tail, KeyAt, Valid, WeightAt, WeightBetween, HoldsLast;
    FreshIsHonest(ex, host, budget, {});
    var counted := Outcome(Fresh<Snapshot>(budget), false);
    NothingLive(host, budget, r, |r.features|);
    BookkeepingValid(Fresh<Snapshot>(budget), KeyAt(host, r, 0), false);
    NothingRun(ex, host, r);
    HoldsNothing(ex, host, counted, r);
    TailHoldsLast(ex, host, counted, r, 0, Start(KindOf(host, r)), m);
    LiveAmongLast(ex, host, After(ex, host, budget, r), r, m, p);
  }

  lemma HoldsNothing(ex: Execute, host: Host, c: Cache<Snapshot>, r: Request)
    requires Valid(c) && c.recency == []
    ensures HoldsLast(ex, host, c, r, 0) && HoldsMost(ex, host, c, r, 0)
  {
  }

  lemma LiveAmongLast(ex: Execute, host: Host, c: Cache<Snapshot>, r: Request, m: nat, p: nat)
    requires CollisionFree(host) && m <= |r.features| && 1 <= p <= |r.features|
    requires HoldsLast(ex, host, c, r, m) && HoldsMost(ex, host, c, r, m)
    ensures KeyAt(host, r, p) in c.entries
       <==> p == m || (p < m && WeightBetween(ex, host, r, p, m) <= c.budget)
  {
    hide CollisionFree, KeyAt, WeightAt, WeightBetween;
    var n := |c.recency|;
    assert KeyAt(host, r, p) in c.entries <==> KeyAt(host, r, p) in c.recency;
    forall t | 0 <= t < n ensures c.recency[t] == KeyAt(host, r, p) <==> m - t == p {
      KeysDiffer(host, r, m - t, p);
    }
    if m - n < p <= m {
      assert c.recency[m - p] == KeyAt(host, r, p);
      WeightShrinks(ex, host, r, m - n + 1, p, m);
    } else if p <= m {
      WeightShrinks(ex, host, r, p, m - n, m);
    }
  }

  // ---------- What the key does not see ----------

  /** The newest snapshot stays live whatever the budget. */
  lemma LastStaysLive(ex: Execute, host: Host, budget: nat, r: Request)
    requires |r.features| == 1 && PrefixState(ex, host, r, 1).Some?
    ensures var c := After(ex, host, budget, r);
            KeyAt(host, r, 1) in c.entries
            && c.entries[KeyAt(host, r, 1)].snapshot == SnapshotOf(PrefixState(ex, host, r, 1).value)
  {
    hide KeyAt, KindOf, Put;
    var counted := Outcome(Fresh<Snapshot>(budget), false);
    NothingLive(host, budget, r, 1);
    BookkeepingValid(Fresh<Snapshot>(budget), KeyAt(host, r, 0), false);
    NothingRun(ex, host, r);
    NextPrefix(ex, host, r, 0);
    var st := PrefixState(ex, host, r, 1).value;
    var s := SnapshotOf(st);
    var more := Put(counted, KeyAt(host, r, 1), s, host.weigh(s));
    PutKeeps(counted, KeyAt(host, r, 1), s, host.weigh(s));
    var kind := KindOf(host, r);
    assert Tail(ex, host, more, r, 1, st, kind.RegisteredKind?) == (Some(st), more);
    assert Tail(ex, host, counted, r, 0, Start(kind), kind.RegisteredKind?).1 == more;
  }

  function OneFeature(d: string, v: string, x: Content, suppressed: bool): Request {
    Request(d, v, [Feature(x, suppressed)], false)
  }

  function KindOfOne(host: Host, x: Content): Kind {
    if host.selects(x.canon) then RegisteredKind else SilentKind
  }

  /** One feature asked for again under its key: the answer is the first one's body. */
  lemma OneFeatureAgain(host: Host, budget: nat, d: string, v: string, x: Content, y: Content, suppressed: bool)
    requires x.canon == y.canon
    ensures var first, second := OneFeature(d, v, x, false), OneFeature(d, v, y, suppressed);
            var kind := KindOfOne(host, x);
            var served := Evaluated(Log, host, After(Log, host, budget, first), second).0;
            && served.Some? && served.value.bodies == [LogBody(x, kind, kind.RegisteredKind?)]
            && Cold(Log, host, second).Some?
            && Cold(Log, host, second).value.bodies
               == if suppressed then [] else [LogBody(y, kind, kind.RegisteredKind?)]
  {
    hide Evaluated, After, PrefixState, KeyAt, Visible;
    var first, second := OneFeature(d, v, x, false), OneFeature(d, v, y, suppressed);
    assert Canons(first.features) == [x.canon] == Canons(second.features);
    assert first.features[..1] == first.features && second.features[..1] == second.features;
    assert KeyAt(host, second, 1) == KeyAt(host, first, 1) by { SameKey(host, first, second, 1); }
    LogPrefix(host, first, 1);
    LastStaysLive(Log, host, budget, first);
    ResumedIsWarm(Log, host, After(Log, host, budget, first), second);
    LogWarm(host, first, 1, second);
    LogCold(host, second, 1);
    assert Active(first.features) == [x];
  }

  lemma SameKey(host: Host, a: Request, b: Request, p: nat)
    requires SharePrefix(a, p, b) && SameLine(a, b)
    ensures KeyAt(host, a, p) == KeyAt(host, b, p)
  {
  }

  /** Suppressing a feature does not change its key: the evaluator answers with the body the
      suppressed feature would have made, where a cold evaluation has none. */
  lemma SuppressionServedStale(host: Host, budget: nat, d: string, v: string, x: Content)
    ensures var shown, hidden := OneFeature(d, v, x, false), OneFeature(d, v, x, true);
            var served := Evaluated(Log, host, After(Log, host, budget, shown), hidden).0;
            && served.Some? && |served.value.bodies| == 1
            && Cold(Log, host, hidden).Some? && Cold(Log, host, hidden).value.bodies == []
  {
    hide Evaluated, After, Cold;
    OneFeatureAgain(host, budget, d, v, x, x, true);
  }

  /** Nor does editing the anchor of a selector: the evaluator answers with the body the old
      anchor picked. */
  lemma AnchorEditServedStale(host: Host, budget: nat, d: string, v: string, c: Canon, was: string, now: string)
    requires host.selects(c) && was != now
    ensures var first, second := OneFeature(d, v, Content(c, was), false), OneFeature(d, v, Content(c, now), false);
            var served := Evaluated(Log, host, After(Log, host, budget, first), second).0;
            && served.Some? && served.value.bodies == [LogBody(Content(c, was), RegisteredKind, true)]
            && Cold(Log, host, second).Some?
            && Cold(Log, host, second).value.bodies == [LogBody(Content(c, now), RegisteredKind, true)]
            && !SameOutcome(served, Cold(Log, host, second))
  {
    hide Evaluated, After, Cold;
    OneFeatureAgain(host, budget, d, v, Content(c, was), Content(c, now), false);
  }
}
