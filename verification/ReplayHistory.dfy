// The evaluator over whole histories of requests.
module ReplayHistory {
  import opened Outcomes
  import opened BodyPools
  import opened SnapshotCache
  import opened ReplayEngine
  import opened ReplayLaws

  /** The state left after p shared features is the one `asked` needs to go on from: the same
      features were active with the same anchors, under one name channel, and if that is a
      registry nothing is left to execute. */
  predicate Resumable(host: Host, stored: Request, p: nat, asked: Request)
    requires p <= |stored.features| && p <= |asked.features|
  {
    && Active(stored.features[..p]) == Active(asked.features[..p])
    && KindOf(host, stored) == KindOf(host, asked)
    && (KindOf(host, asked).RegisteredKind? ==> Active(asked.features[p..]) == [])
  }

  predicate SameLine(a: Request, b: Request) {
    a.documentId == b.documentId && a.version == b.version
  }

  /** Whoever stored the prefix that `asked` would be continued from now, it may be. */
  ghost predicate ResumableNow(host: Host, c: Cache<Snapshot>, past: set<Request>, asked: Request) {
    var p := LongestLive(host, c, asked, |asked.features|);
    forall s :: s in past && p > 0 && SameLine(s, asked) && SharePrefix(s, p, asked) ==> Resumable(host, s, p, asked)
  }

  /** A clientele that never toggles suppression, anchors, names or selectors over a shared prefix. */
  ghost predicate Friendly(host: Host, past: set<Request>) {
    forall s, a, p: nat :: s in past && a in past && 1 <= p && SharePrefix(s, p, a) && SameLine(s, a)
      ==> Resumable(host, s, p, a)
  }

  /** The entry at `key` holds exactly the cold state of some prefix of r. */
  ghost predicate ColdEntry(ex: Execute, host: Host, key: string, s: Snapshot, r: Request, p: nat) {
    && 1 <= p <= |r.features| && key == KeyAt(host, r, p)
    && PrefixState(ex, host, r, p).Some? && s == SnapshotOf(PrefixState(ex, host, r, p).value)
  }

  /** Every live entry is the cold state of a prefix of some past request. */
  ghost predicate Honest(ex: Execute, host: Host, c: Cache<Snapshot>, past: set<Request>) {
    forall key :: key in c.entries ==>
      exists r: Request, p: nat :: r in past && ColdEntry(ex, host, key, c.entries[key].snapshot, r, p)
  }

  // ---------- One evaluation ----------

  /** What a live entry for a prefix of r holds. */
  lemma EntryIsCold(
    ex: Execute, host: Host, c: Cache<Snapshot>, past: set<Request>, r: Request, p: nat) returns (s: Request)
    requires CollisionFree(host) && Honest(ex, host, c, past)
    requires 1 <= p <= |r.features| && KeyAt(host, r, p) in c.entries
    ensures s in past && SameLine(s, r) && SharePrefix(s, p, r)
    ensures PrefixState(ex, host, s, p).Some?
    ensures c.entries[KeyAt(host, r, p)].snapshot == SnapshotOf(PrefixState(ex, host, s, p).value)
  {
    hide KindOf, PrefixState, CollisionFree;
    var key := KeyAt(host, r, p);
    var t: Request, q: nat :| t in past && ColdEntry(ex, host, key, c.entries[key].snapshot, t, q);
    assert 1 <= q <= |t.features|;
    KeysApart(host, t.documentId, t.version, Canons(t.features[..q]), r.documentId, r.version, Canons(r.features[..p]));
    assert |Canons(t.features[..q])| == q && |Canons(r.features[..p])| == p;
    s := t;
  }

  /** Restoring the longest live prefix of a resumable request gives its cold state, but for a
      registry's records, which nothing will read. */
  lemma RestoreIsCold(ex: Execute, host: Host, c: Cache<Snapshot>, past: set<Request>, r: Request)
    requires Faithful(ex) && CollisionFree(host) && ResumableNow(host, c, past, r)
    requires Honest(ex, host, c, past) && LongestLive(host, c, r, |r.features|) > 0
    ensures var p := LongestLive(host, c, r, |r.features|);
            var st := WarmStart(host, r, c.entries[KeyAt(host, r, p)].snapshot);
            && PrefixState(ex, host, r, p).Some? && SnapshotOf(st) == SnapshotOf(PrefixState(ex, host, r, p).value)
            && (KindOf(host, r).RegisteredKind? ==> Active(r.features[p..]) == [])
            && (!KindOf(host, r).RegisteredKind? ==> PrefixState(ex, host, r, p) == Some(st))
  {
    hide KindOf, Faithful, PrefixState, CollisionFree, Honest, KeyAt;
    var p := LongestLive(host, c, r, |r.features|);
    var s := EntryIsCold(ex, host, c, past, r, p);
    assert Resumable(host, s, p, r);
    PrefixesAgree(ex, host, s, p, r);
    PrefixKind(ex, host, r, p);
    RestoredIsSame(KindOf(host, r), PrefixState(ex, host, r, p).value);
  }

  lemma NextPrefix(ex: Execute, host: Host, r: Request, i: nat)
    requires i < |r.features| && PrefixState(ex, host, r, i).Some?
    ensures var st := PrefixState(ex, host, r, i).value;
            var kind := KindOf(host, r);
            PrefixState(ex, host, r, i + 1)
            == if r.features[i].suppressed then Some(st)
              else ex(r.features[i].content, Canons(r.features), st, kind.RegisteredKind?)
  {
    hide KindOf;
    var one := [r.features[i]];
    assert r.features[..i + 1] == r.features[..i] + one;
    RunConcat(ex, Canons(r.features), r.features[..i], one, Start(KindOf(host, r)), KindOf(host, r).RegisteredKind?);
    assert one[1..] == [];
  }

  /** Storing the cold state of one more prefix keeps the cache honest. */
  lemma PutHonest(ex: Execute, host: Host, c: Cache<Snapshot>, past: set<Request>, r: Request, i: nat)
    requires Valid(c) && Honest(ex, host, c, past) && r in past
    requires 1 <= i <= |r.features| && PrefixState(ex, host, r, i).Some?
    ensures var s := SnapshotOf(PrefixState(ex, host, r, i).value);
            var d := Put(c, KeyAt(host, r, i), s, host.weigh(s));
            Valid(d) && Honest(ex, host, d, past)
  {
    hide PrefixState, KeyAt, Put, Valid;
    var s := SnapshotOf(PrefixState(ex, host, r, i).value);
    var key := KeyAt(host, r, i);
    PutKeeps(c, key, s, host.weigh(s));
    assert ColdEntry(ex, host, key, s, r, i);
  }

  /** The tail runs in step with cold execution, storing only cold states. */
  lemma {:induction false} TailIsCold(
    ex: Execute, host: Host, c: Cache<Snapshot>, past: set<Request>, r: Request, i: nat, st: State)
    requires Valid(c) && Honest(ex, host, c, past) && r in past && i <= |r.features|
    requires PrefixState(ex, host, r, i) == Some(st)
    ensures var (last, d) := Tail(ex, host, c, r, i, st, KindOf(host, r).RegisteredKind?);
            && Valid(d) && Honest(ex, host, d, past)
            && last == PrefixState(ex, host, r, |r.features|)
    decreases |r.features| - i
  {
    hide PrefixState, Honest, Valid, KindOf, Put, KeyAt;
    if i < |r.features| {
      NextPrefix(ex, host, r, i);
      var next := PrefixState(ex, host, r, i + 1);
      if next.Some? {
        PutHonest(ex, host, c, past, r, i + 1);
        var s := SnapshotOf(next.value);
        TailIsCold(ex, host, Put(c, KeyAt(host, r, i + 1), s, host.weigh(s)), past, r, i + 1, next.value);
      } else {
        NothingFromNothing(ex, host, r, i + 1);
      }
    }
  }

  /** With nothing left to execute the tail stores one state over and over: the cold one. */
  lemma {:induction false} IdleTailIsCold(
    ex: Execute, host: Host, c: Cache<Snapshot>, past: set<Request>, r: Request, i: nat, st: State, registry: bool)
    requires Valid(c) && Honest(ex, host, c, past) && r in past && i <= |r.features|
    requires Active(r.features[i..]) == []
    requires PrefixState(ex, host, r, i).Some? && SnapshotOf(PrefixState(ex, host, r, i).value) == SnapshotOf(st)
    ensures var (last, d) := Tail(ex, host, c, r, i, st, registry);
            && Valid(d) && Honest(ex, host, d, past) && last == Some(st)
            && PrefixState(ex, host, r, |r.features|) == PrefixState(ex, host, r, i)
    decreases |r.features| - i
  {
    hide PrefixState, Honest, Valid, Put, KeyAt, SnapshotOf;
    if i < |r.features| {
      assert r.features[i..][0] == r.features[i] && r.features[i..][1..] == r.features[i + 1..];
      NextPrefix(ex, host, r, i);
      PutHonest(ex, host, c, past, r, i + 1);
      var s := SnapshotOf(st);
      IdleTailIsCold(ex, host, Put(c, KeyAt(host, r, i + 1), s, host.weigh(s)), past, r, i + 1, st, registry);
    }
  }

  /** Once a prefix has thrown, the whole document throws. */
  lemma NothingFromNothing(ex: Execute, host: Host, r: Request, i: nat)
    requires i <= |r.features| && PrefixState(ex, host, r, i).None?
    ensures PrefixState(ex, host, r, |r.features|).None?
  {
    ColdSplits(ex, host, r, i);
  }

  lemma BookkeepingHonest(ex: Execute, host: Host, c: Cache<Snapshot>, past: set<Request>, k: string, hit: bool)
    requires Valid(c) && Honest(ex, host, c, past)
    ensures var d := Outcome(Get(c, k), hit); Valid(d) && Honest(ex, host, d, past)
    ensures var d := Outcome(c, hit); Valid(d) && Honest(ex, host, d, past)
  {
    BookkeepingValid(c, k, hit);
  }

  /** One reuse evaluation of a request that may be resumed: the cold outcome, the remaining
      operations counted, and a cache that still holds cold states only. */
  lemma EvaluatedIsCold(ex: Execute, host: Host, c: Cache<Snapshot>, past: set<Request>, r: Request)
    requires Faithful(ex) && CollisionFree(host) && ResumableNow(host, c, past, r) && r in past
    requires Valid(c) && Honest(ex, host, c, past)
    ensures var (result, d) := Evaluated(ex, host, c, r);
            && Valid(d) && Honest(ex, host, d, past)
            && SameOutcome(result, Cold(ex, host, r))
            && (result.Some? ==> result.value.executed == |r.features| - LongestLive(host, c, r, |r.features|))
  {
    hide Faithful, CollisionFree, ResumableNow, Honest, Valid, Tail, KindOf, KeyAt, PrefixState, Get, Outcome, Visible;
    var p := LongestLive(host, c, r, |r.features|);
    var key := KeyAt(host, r, p);
    BookkeepingHonest(ex, host, c, past, key, p > 0);
    if p == 0 {
      NothingRun(ex, host, r);
      TailIsCold(ex, host, Outcome(c, false), past, r, 0, Start(KindOf(host, r)));
    } else {
      RestoreIsCold(ex, host, c, past, r);
      var st := WarmStart(host, r, c.entries[key].snapshot);
      if KindOf(host, r).RegisteredKind? {
        IdleTailIsCold(ex, host, Outcome(Get(c, key), true), past, r, p, st, false);
      } else {
        TailIsCold(ex, host, Outcome(Get(c, key), true), past, r, p, st);
      }
    }
  }

  lemma NothingRun(ex: Execute, host: Host, r: Request)
    ensures PrefixState(ex, host, r, 0) == Some(Start(KindOf(host, r)))
  {
  }

  lemma {:induction false} ActiveCount(fs: seq<Feature>)
    ensures |Active(fs)| <= |fs|
    ensures |Active(fs)| == |fs| <==> forall i :: 0 <= i < |fs| ==> !fs[i].suppressed
  {
    if fs != [] {
      ActiveCount(fs[1..]);
      if |Active(fs)| == |fs| {
        forall i | 0 <= i < |fs| ensures !fs[i].suppressed {
          assert i > 0 ==> fs[1..][i - 1] == fs[i];
        }
      }
    }
  }

  /** The reported count is the number of operations handed to the kernel exactly when the tail
      holds no suppressed feature; otherwise it is more. */
  lemma ExecutedCountIff(ex: Execute, host: Host, c: Cache<Snapshot>, r: Request)
    requires Valid(c) && Evaluated(ex, host, c, r).0.Some?
    ensures var executed := Evaluated(ex, host, c, r).0.value.executed;
            var tail := r.features[LongestLive(host, c, r, |r.features|)..];
            && executed >= |Active(tail)|
            && (executed == |Active(tail)| <==> forall i :: 0 <= i < |tail| ==> !tail[i].suppressed)
  {
    hide Valid, KindOf, Tail, KeyAt, Get, Outcome;
    var p := LongestLive(host, c, r, |r.features|);
    BookkeepingValid(c, KeyAt(host, r, p), p > 0);
    ActiveCount(r.features[p..]);
  }

  // ---------- Histories ----------

  /** The results of a sequence of reuse evaluations on one evaluator. */
  function Served(ex: Execute, host: Host, c: Cache<Snapshot>, requests: seq<Request>): seq<Option<Result>>
    requires Valid(c)
    decreases |requests|
  {
    if requests == [] then []
    else
      var (result, d) := Evaluated(ex, host, c, requests[0]);
      EvaluatedValid(ex, host, c, requests[0]);
      [result] + Served(ex, host, d, requests[1..])
  }

  lemma EvaluatedValid(ex: Execute, host: Host, c: Cache<Snapshot>, r: Request)
    requires Valid(c)
    ensures Valid(Evaluated(ex, host, c, r).1)
  {
    hide Valid, KindOf, KeyAt, Get, Outcome;
    var p := LongestLive(host, c, r, |r.features|);
    BookkeepingValid(c, KeyAt(host, r, p), p > 0);
    var kind := KindOf(host, r);
    if p == 0 {
      TailValid(ex, host, Outcome(c, false), r, 0, Start(kind), kind.RegisteredKind?);
    } else {
      TailValid(ex, host, Outcome(Get(c, KeyAt(host, r, p)), true), r, p,
                WarmStart(host, r, c.entries[KeyAt(host, r, p)].snapshot), false);
    }
  }

  lemma {:induction false} TailValid(
    ex: Execute, host: Host, c: Cache<Snapshot>, r: Request, i: nat, st: State, registry: bool)
    requires Valid(c) && i <= |r.features|
    ensures Valid(Tail(ex, host, c, r, i, st, registry).1)
    decreases |r.features| - i
  {
    hide Valid, Put, KeyAt;
    if i < |r.features| {
      var next := if r.features[i].suppressed then Some(st)
        else ex(r.features[i].content, Canons(r.features), st, registry);
      if next.Some? {
        var s := SnapshotOf(next.value);
        PutKeeps(c, KeyAt(host, r, i + 1), s, host.weigh(s));
        TailValid(ex, host, Put(c, KeyAt(host, r, i + 1), s, host.weigh(s)), r, i + 1, next.value, registry);
      }
    }
  }

  /** Each request of the sequence may be resumed by the time it is asked. */
  ghost predicate ResumableThroughout(
    ex: Execute, host: Host, c: Cache<Snapshot>, past: set<Request>, requests: seq<Request>)
    requires Valid(c)
    decreases |requests|
  {
    requests == []
    || (ResumableNow(host, c, past, requests[0])
        && (EvaluatedValid(ex, host, c, requests[0]);
            ResumableThroughout(ex, host, Evaluated(ex, host, c, requests[0]).1, past, requests[1..])))
  }

  /** Whatever was evaluated, edited and evicted before, clients whose requests may be resumed
      whenever something is left of them cannot tell a warm evaluator from a cold one. */
  lemma {:induction false} WarmIsColdThroughout(
    ex: Execute, host: Host, c: Cache<Snapshot>, past: set<Request>, requests: seq<Request>)
    requires Faithful(ex) && CollisionFree(host)
    requires forall r :: r in requests ==> r in past
    requires Valid(c) && Honest(ex, host, c, past)
    requires ResumableThroughout(ex, host, c, past, requests)
    ensures var results := Served(ex, host, c, requests);
            && |results| == |requests|
            && forall j :: 0 <= j < |requests| ==> SameOutcome(results[j], Cold(ex, host, requests[j]))
    decreases |requests|
  {
    hide Faithful, CollisionFree, ResumableNow, Honest, Valid, Evaluated, Cold, SameOutcome;
    if requests != [] {
      assert requests[0] in requests;
      EvaluatedValid(ex, host, c, requests[0]);
      EvaluatedIsCold(ex, host, c, past, requests[0]);
      WarmIsColdThroughout(ex, host, Evaluated(ex, host, c, requests[0]).1, past, requests[1..]);
    }
  }

  /** A friendly clientele meets that condition whatever the cache has kept. */
  lemma {:induction false} FriendsAreResumable(
    ex: Execute, host: Host, c: Cache<Snapshot>, past: set<Request>, requests: seq<Request>)
    requires Valid(c) && Friendly(host, past) && forall r :: r in requests ==> r in past
    ensures ResumableThroughout(ex, host, c, past, requests)
    decreases |requests|
  {
    hide Valid, Evaluated, Resumable, SharePrefix, SameLine;
    if requests != [] {
      assert requests[0] in requests;
      EvaluatedValid(ex, host, c, requests[0]);
      FriendsAreResumable(ex, host, Evaluated(ex, host, c, requests[0]).1, past, requests[1..]);
    }
  }

  /** A fresh evaluator is honest to any clientele. */
  lemma FreshIsHonest(ex: Execute, host: Host, budget: nat, past: set<Request>)
    ensures Valid(Fresh<Snapshot>(budget)) && Honest(ex, host, Fresh(budget), past)
  {
  }
}
