// Evaluating a document's features in order, cold or from a cached prefix.
module ReplayEngine {
  import opened Outcomes
  import opened BodyPools
  import opened SnapshotCache

  // ---------- Documents ----------

  /** The canonical projection of an operation: what its hash is taken over. */
  type Canon = string

  /** What execution reads of an operation: its projection, and the anchors recorded in its
      selector slots (none without slots), which the projection leaves out. */
  datatype Content = Content(canon: Canon, anchors: string)

  /** An operation, with the suppression flag in its metadata, which is not projected either. */
  datatype Feature = Feature(content: Content, suppressed: bool)

  datatype Request = Request(documentId: string, version: string, features: seq<Feature>, names: bool)

  function Canons(fs: seq<Feature>): (cs: seq<Canon>)
    ensures |cs| == |fs| && forall i :: 0 <= i < |fs| ==> cs[i] == fs[i].content.canon
  {
    seq(|fs|, i requires 0 <= i < |fs| => fs[i].content.canon)
  }

  function Active(fs: seq<Feature>): seq<Content> {
    if fs == [] then []
    else (if fs[0].suppressed then [] else [fs[0].content]) + Active(fs[1..])
  }

  // ---------- Evaluation state ----------

  type Book = map<nat, string>

  type AlignedPool = p: Pool | |p.bodies| == |p.consumed| witness EmptyPool

  /** At most one name channel is engaged: none, a bare book, or a registry that owns its book. */
  datatype Channel = Silent | Bare(book: Book) | Registered(book: Book, records: seq<string>)

  datatype Kind = SilentKind | BareKind | RegisteredKind

  function KindOfChannel(c: Channel): Kind {
    match c
    case Silent => SilentKind
    case Bare(_) => BareKind
    case Registered(_, _) => RegisteredKind
  }

  function BookOf(c: Channel): Option<Book> {
    if c.Silent? then None else Some(c.book)
  }

  datatype State = State(pool: AlignedPool, profiles: map<string, nat>, openPaths: map<string, nat>, channel: Channel)

  /** What a cache entry holds: the book, never a registry's records. */
  datatype Snapshot = Snapshot(pool: AlignedPool, profiles: map<string, nat>, openPaths: map<string, nat>,
    book: Option<Book>)

  function SnapshotOf(st: State): Snapshot {
    Snapshot(st.pool, st.profiles, st.openPaths, BookOf(st.channel))
  }

  function RestoredChannel(c: Channel, book: Option<Book>): Channel {
    match c
    case Registered(b, records) => Registered(if book.Some? then book.value else b, records)
    case _ => if book.Some? then Bare(book.value) else Silent
  }

  function Restored(st: State, s: Snapshot): State {
    State(s.pool, s.profiles, s.openPaths, RestoredChannel(st.channel, s.book))
  }

  function StartChannel(kind: Kind): Channel {
    match kind
    case SilentKind => Silent
    case BareKind => Bare(map[])
    case RegisteredKind => Registered(map[], [])
  }

  function Start(kind: Kind): State {
    State(EmptyPool, map[], map[], StartChannel(kind))
  }

  // ---------- Execution ----------

  /** One operation, given the whole document's operations and whether a registry is passed in;
      None stands for whatever it throws. Of other operations only projected fields are read. */
  type Execute = (Content, seq<Canon>, State, bool) -> Option<State>

  /** What is fixed about a host: which operations carry selectors, hashing, and the byte estimate. */
  datatype Host = Host(
    selects: Canon -> bool,
    root: (string, string) -> string,
    mix: (string, Canon) -> string,
    weigh: Snapshot -> nat)

  /** A document with any selector engages a registry; otherwise names are a matter of asking. */
  function KindOf(host: Host, r: Request): Kind {
    if exists i :: 0 <= i < |r.features| && host.selects(r.features[i].content.canon) then RegisteredKind
    else if r.names then BareKind else SilentKind
  }

  function RunFeatures(ex: Execute, all: seq<Canon>, fs: seq<Feature>, st: State, registry: bool): Option<State>
    decreases |fs|
  {
    if fs == [] then Some(st)
    else if fs[0].suppressed then RunFeatures(ex, all, fs[1..], st, registry)
    else
      var next := ex(fs[0].content, all, st, registry);
      if next.None? then None else RunFeatures(ex, all, fs[1..], next.value, registry)
  }

  datatype Result = Result(bodies: seq<Body>, names: Option<Book>, executed: nat)

  function Finish(r: Request, st: State, executed: nat): Result {
    Result(Visible(st.pool), if r.names then BookOf(st.channel) else None, executed)
  }

  function PrefixState(ex: Execute, host: Host, r: Request, p: nat): Option<State>
    requires p <= |r.features|
  {
    var kind := KindOf(host, r);
    RunFeatures(ex, Canons(r.features), r.features[..p], Start(kind), kind.RegisteredKind?)
  }

  /** Evaluation with reuse off: every operation, from nothing. */
  function Cold(ex: Execute, host: Host, r: Request): Option<Result> {
    var st := PrefixState(ex, host, r, |r.features|);
    if st.None? then None else Some(Finish(r, st.value, |r.features|))
  }

  // ---------- What a cold evaluation answers ----------

  /** The states an evaluation goes through: from nothing, with a registry if some operation has
      selectors and else a bare book if names are asked for; each unsuppressed operation executed. */
  ghost predicate IsRun(ex: Execute, host: Host, r: Request, states: seq<State>) {
    var selects := exists i :: 0 <= i < |r.features| && host.selects(r.features[i].content.canon);
    && |states| == |r.features| + 1
    && states[0] == State(Pool([], [], map[]), map[], map[],
                          if selects then Registered(map[], []) else if r.names then Bare(map[]) else Silent)
    && forall i :: 0 <= i < |r.features| ==>
         if r.features[i].suppressed then states[i + 1] == states[i]
         else ex(r.features[i].content, Canons(r.features), states[i], selects) == Some(states[i + 1])
  }

  /** The unconsumed bodies of the last state, and its book if names are asked for and it has one. */
  ghost predicate Answers(r: Request, last: State, result: Result) {
    && Shows(last.pool, result.bodies)
    && result.names == (if r.names && !last.channel.Silent? then Some(last.channel.book) else None)
    && result.executed == |r.features|
  }

  lemma {:induction false} RunThrough(
    ex: Execute, all: seq<Canon>, fs: seq<Feature>, registry: bool, states: seq<State>)
    requires |states| == |fs| + 1
    requires forall i :: 0 <= i < |fs| ==>
               if fs[i].suppressed then states[i + 1] == states[i]
               else ex(fs[i].content, all, states[i], registry) == Some(states[i + 1])
    ensures RunFeatures(ex, all, fs, states[0], registry) == Some(states[|fs|])
    decreases |fs|
  {
    if fs != [] {
      RunThrough(ex, all, fs[1..], registry, states[1..]);
    }
  }

  lemma {:induction false} StatesOf(ex: Execute, all: seq<Canon>, fs: seq<Feature>, st: State, registry: bool)
    returns (states: seq<State>)
    requires RunFeatures(ex, all, fs, st, registry).Some?
    ensures |states| == |fs| + 1 && states[0] == st
    ensures states[|fs|] == RunFeatures(ex, all, fs, st, registry).value
    ensures forall i :: 0 <= i < |fs| ==>
              if fs[i].suppressed then states[i + 1] == states[i]
              else ex(fs[i].content, all, states[i], registry) == Some(states[i + 1])
    decreases |fs|
  {
    states := [st];
    if fs != [] {
      var next := if fs[0].suppressed then st else ex(fs[0].content, all, st, registry).value;
      var rest := StatesOf(ex, all, fs[1..], next, registry);
      states := states + rest;
      forall i | 0 <= i < |fs|
        ensures if fs[i].suppressed then states[i + 1] == states[i]
                else ex(fs[i].content, all, states[i], registry) == Some(states[i + 1])
      {
        assert states[i + 1] == rest[i];
        if i > 0 {
          assert fs[i] == fs[1..][i - 1] && states[i] == rest[i - 1];
        }
      }
    }
  }

  /** A cold evaluation answers with what the operations, executed in order, end in. */
  lemma ColdMeans(ex: Execute, host: Host, r: Request, result: Result)
    ensures Cold(ex, host, r) == Some(result)
       <==> exists states :: IsRun(ex, host, r, states) && Answers(r, states[|r.features|], result)
  {
    hide RunFeatures, Shows;
    var kind, all, fs := KindOf(host, r), Canons(r.features), r.features;
    assert fs[..|fs|] == fs;
    forall st: State, shown ensures shown == Visible(st.pool) <==> Shows(st.pool, shown) {
      VisibleIffShown(st.pool, shown);
    }
    if Cold(ex, host, r) == Some(result) {
      var states := StatesOf(ex, all, fs, Start(kind), kind.RegisteredKind?);
      assert IsRun(ex, host, r, states);
    }
    forall states | IsRun(ex, host, r, states) && Answers(r, states[|fs|], result)
      ensures Cold(ex, host, r) == Some(result)
    {
      RunThrough(ex, all, fs, kind.RegisteredKind?, states);
    }
  }

  /** The state a warm evaluation continues from. */
  function WarmStart(host: Host, r: Request, s: Snapshot): State {
    Restored(Start(KindOf(host, r)), s)
  }

  /** Evaluation from a snapshot of the first p features: the tail never sees a registry. */
  function Warm(ex: Execute, host: Host, r: Request, p: nat, s: Snapshot): Option<Result>
    requires p <= |r.features|
  {
    var st := RunFeatures(ex, Canons(r.features), r.features[p..], WarmStart(host, r, s), false);
    if st.None? then None else Some(Finish(r, st.value, |r.features| - p))
  }

  // ---------- Cache keys ----------

  /** The cumulative hash after the given operations. */
  function KeyOf(host: Host, documentId: string, version: string, cs: seq<Canon>): string {
    if cs == [] then host.root(documentId, version)
    else host.mix(KeyOf(host, documentId, version, cs[..|cs| - 1]), cs[|cs| - 1])
  }

  function KeyAt(host: Host, r: Request, p: nat): string
    requires p <= |r.features|
  {
    KeyOf(host, r.documentId, r.version, Canons(r.features[..p]))
  }

  /** No two different inputs of the hash collide. */
  ghost predicate CollisionFree(host: Host) {
    && (forall d, v, e, w :: host.root(d, v) == host.root(e, w) ==> d == e && v == w)
    && (forall h, c, i, b :: host.mix(h, c) == host.mix(i, b) ==> h == i && c == b)
    && (forall d, v, h, c :: host.root(d, v) != host.mix(h, c))
  }

  /** The key recurrence is injective on document, version and operation sequence. */
  lemma {:induction false} KeysApart(
    host: Host, d: string, v: string, cs: seq<Canon>, e: string, w: string, bs: seq<Canon>)
    requires CollisionFree(host) && KeyOf(host, d, v, cs) == KeyOf(host, e, w, bs)
    ensures d == e && v == w && cs == bs
    decreases |cs|
  {
    if cs != [] && bs != [] {
      KeysApart(host, d, v, cs[..|cs| - 1], e, w, bs[..|bs| - 1]);
      assert cs == cs[..|cs| - 1] + [cs[|cs| - 1]];
      assert bs == bs[..|bs| - 1] + [bs[|bs| - 1]];
    }
  }

  /** All prefix keys of a document, computed by the recurrence. */
  method CumulativeKeys(host: Host, r: Request) returns (keys: seq<string>)
    ensures |keys| == |r.features| + 1
    ensures forall i :: 0 <= i <= |r.features| ==> keys[i] == KeyAt(host, r, i)
  {
    var hash := host.root(r.documentId, r.version);
    keys := [hash];
    for i := 0 to |r.features|
      invariant |keys| == i + 1 && hash == keys[i]
      invariant forall j :: 0 <= j <= i ==> keys[j] == KeyAt(host, r, j)
    {
      var cs := Canons(r.features[..i + 1]);
      assert cs[..i] == Canons(r.features[..i]) && cs[i] == r.features[i].content.canon;
      hash := host.mix(hash, r.features[i].content.canon);
      keys := keys + [hash];
    }
  }

  // ---------- The evaluator's transition ----------

  /** The longest live prefix of at most n features; 0 when none is live. */
  function LongestLive(host: Host, c: Cache<Snapshot>, r: Request, n: nat): (p: nat)
    requires n <= |r.features|
    ensures p <= n && (p > 0 ==> KeyAt(host, r, p) in c.entries)
    ensures forall i :: p < i <= n ==> KeyAt(host, r, i) !in c.entries
  {
    if n == 0 then 0
    else if KeyAt(host, r, n) in c.entries then n
    else LongestLive(host, c, r, n - 1)
  }

  /** Executes features i.. and stores the state after each; a throw leaves what was stored. */
  function Tail(ex: Execute, host: Host, c: Cache<Snapshot>, r: Request, i: nat, st: State, registry: bool)
    : (Option<State>, Cache<Snapshot>)
    requires i <= |r.features| && Valid(c)
    decreases |r.features| - i
  {
    if i == |r.features| then (Some(st), c)
    else
      var next := if r.features[i].suppressed then Some(st)
        else ex(r.features[i].content, Canons(r.features), st, registry);
      if next.None? then (None, c)
      else
        var s := SnapshotOf(next.value);
        PutKeeps(c, KeyAt(host, r, i + 1), s, host.weigh(s));
        Tail(ex, host, Put(c, KeyAt(host, r, i + 1), s, host.weigh(s)), r, i + 1, next.value, registry)
  }

  function Outcome<S>(c: Cache<S>, hit: bool): Cache<S> {
    if hit then c.(hits := c.hits + 1) else c.(misses := c.misses + 1)
  }

  lemma BookkeepingValid<S>(c: Cache<S>, k: string, hit: bool)
    requires Valid(c)
    ensures Valid(Outcome(Get(c, k), hit)) && Valid(Outcome(c, hit))
    ensures Get(c, k).entries == c.entries && Outcome(Get(c, k), hit).entries == c.entries
  {
    if k in c.entries {
      TouchedValid(c, k);
    }
  }

  /** One evaluation with reuse on: its result, and the cache it leaves. */
  function Evaluated(ex: Execute, host: Host, c: Cache<Snapshot>, r: Request): (Option<Result>, Cache<Snapshot>)
    requires Valid(c)
  {
    var n := |r.features|;
    var p := LongestLive(host, c, r, n);
    BookkeepingValid(c, KeyAt(host, r, p), p > 0);
    var kind := KindOf(host, r);
    var (st, d) :=
      if p == 0 then Tail(ex, host, Outcome(c, false), r, 0, Start(kind), kind.RegisteredKind?)
      else Tail(ex, host, Outcome(Get(c, KeyAt(host, r, p)), true), r, p,
                WarmStart(host, r, c.entries[KeyAt(host, r, p)].snapshot), false);
    (if st.None? then None else Some(Finish(r, st.value, n - p)), d)
  }

  lemma {:induction false} EvictCountsNothing<S>(c: Cache<S>)
    requires Valid(c)
    ensures EvictToBudget(c).hits == c.hits && EvictToBudget(c).misses == c.misses
    decreases |c.recency|
  {
    if c.total > c.budget && |c.recency| > 1 {
      EvictedOneValid(c);
      EvictCountsNothing(EvictLeastRecent(c));
    }
  }

  lemma {:induction false} TailCountsNothing(
    ex: Execute, host: Host, c: Cache<Snapshot>, r: Request, i: nat, st: State, registry: bool)
    requires i <= |r.features| && Valid(c)
    ensures var d := Tail(ex, host, c, r, i, st, registry).1; d.hits == c.hits && d.misses == c.misses
    decreases |r.features| - i
  {
    hide Valid, EvictToBudget, KeyAt, EvictLeastRecent;
    if i < |r.features| {
      var next := if r.features[i].suppressed then Some(st)
        else ex(r.features[i].content, Canons(r.features), st, registry);
      if next.Some? {
        var s := SnapshotOf(next.value);
        PutKeeps(c, KeyAt(host, r, i + 1), s, host.weigh(s));
        RecordedValid(c, KeyAt(host, r, i + 1), s, host.weigh(s));
        EvictCountsNothing(Recorded(c, KeyAt(host, r, i + 1), s, host.weigh(s)));
        TailCountsNothing(ex, host, Put(c, KeyAt(host, r, i + 1), s, host.weigh(s)), r, i + 1, next.value, registry);
      }
    }
  }

  /** An evaluation counts as one hit if any nonempty prefix is live, and as one miss if none is. */
  lemma OneOutcomeEach(ex: Execute, host: Host, c: Cache<Snapshot>, r: Request)
    requires Valid(c)
    ensures var d := Evaluated(ex, host, c, r).1;
            var hit := exists p :: 1 <= p <= |r.features| && KeyAt(host, r, p) in c.entries;
            d.hits == c.hits + (if hit then 1 else 0) && d.misses == c.misses + (if hit then 0 else 1)
  {
    hide Valid, Tail, KeyAt, Restored, KindOf;
    var p := LongestLive(host, c, r, |r.features|);
    var kind := KindOf(host, r);
    BookkeepingValid(c, KeyAt(host, r, p), p > 0);
    if p == 0 {
      TailCountsNothing(ex, host, Outcome(c, false), r, 0, Start(kind), kind.RegisteredKind?);
    } else {
      TailCountsNothing(ex, host, Outcome(Get(c, KeyAt(host, r, p)), true), r, p,
                        WarmStart(host, r, c.entries[KeyAt(host, r, p)].snapshot), false);
    }
  }

  // ---------- The evaluator itself ----------

  class DocumentEvaluator {
    const host: Host
    const ex: Execute
    const cache: LruCache<Snapshot>

    constructor (host: Host, ex: Execute, budget: nat)
      ensures this.host == host && this.ex == ex && fresh(cache)
      ensures cache.State() == Fresh(budget) && Valid(cache.State())
    {
      this.host, this.ex := host, ex;
      cache := new LruCache<Snapshot>(budget);
    }

    /** The longest live prefix and the state to continue from; the prefix outcome is counted. */
    method RestoreLongest(r: Request, keys: seq<string>) returns (start: nat, state: State)
      requires Valid(cache.State()) && |keys| == |r.features| + 1
      requires forall i :: 0 <= i <= |r.features| ==> keys[i] == KeyAt(host, r, i)
      modifies cache
      ensures Valid(cache.State())
      ensures var c := old(cache.State());
              && start == LongestLive(host, c, r, |r.features|)
              && (start == 0 ==> state == Start(KindOf(host, r)) && cache.State() == Outcome(c, false))
              && (start > 0 ==> KeyAt(host, r, start) in c.entries
                                && state == WarmStart(host, r, c.entries[KeyAt(host, r, start)].snapshot)
                                && cache.State() == Outcome(Get(c, KeyAt(host, r, start)), true))
    {
      hide Valid, KeyAt, Restored, KindOf, Get;
      ghost var c := cache.State();
      state := Start(KindOf(host, r));
      start := 0;
      var prefix := |r.features|;
      while prefix >= 1
        invariant 0 <= prefix <= |r.features| && Valid(cache.State()) && cache.State() == c
        invariant LongestLive(host, c, r, |r.features|) == LongestLive(host, c, r, prefix)
      {
        LookupMisses(c, keys[prefix]);
        var cached := cache.Lookup(keys[prefix]);
        if cached.Some? {
          state := Restored(state, cached.value);
          start := prefix;
          break;
        }
        prefix := prefix - 1;
      }
      BookkeepingValid(c, KeyAt(host, r, start), start > 0);
      cache.RecordPrefixOutcome(start > 0);
    }

    /** Executes the features from `start` on, storing each new prefix state when reuse is on. */
    method ExecuteTail(r: Request, keys: seq<string>, start: nat, from: State, registry: bool, reuse: bool)
      returns (last: Option<State>)
      requires Valid(cache.State()) && start <= |r.features|
      requires reuse ==> |keys| == |r.features| + 1
      requires reuse ==> forall i :: 0 <= i <= |r.features| ==> keys[i] == KeyAt(host, r, i)
      modifies cache
      ensures Valid(cache.State())
      ensures !reuse ==> cache.State() == old(cache.State())
      ensures !reuse ==> last == RunFeatures(ex, Canons(r.features), r.features[start..], from, registry)
      ensures reuse ==> (last, cache.State()) == Tail(ex, host, old(cache.State()), r, start, from, registry)
    {
      hide Valid, Put, KeyAt;
      var state := from;
      ghost var c := cache.State();
      for index := start to |r.features|
        invariant Valid(cache.State())
        invariant !reuse ==> cache.State() == c
        invariant !reuse ==> (RunFeatures(ex, Canons(r.features), r.features[index..], state, registry)
                              == RunFeatures(ex, Canons(r.features), r.features[start..], from, registry))
        invariant reuse ==>
          Tail(ex, host, cache.State(), r, index, state, registry) == Tail(ex, host, c, r, start, from, registry)
      {
        assert r.features[index..][0] == r.features[index] && r.features[index..][1..] == r.features[index + 1..];
        if !r.features[index].suppressed {
          var next := ex(r.features[index].content, Canons(r.features), state, registry);
          if next.None? {
            return None;
          }
          state := next.value;
        }
        if reuse {
          cache.Store(keys[index + 1], SnapshotOf(state), host.weigh(SnapshotOf(state)));
        }
      }
      return Some(state);
    }

    /** Restores the longest live prefix, executes the rest, and caches each new prefix state;
        with reuse off the cache is not touched. */
    method Evaluate(r: Request, reuse: bool) returns (result: Option<Result>)
      requires Valid(cache.State())
      modifies cache
      ensures Valid(cache.State())
      ensures !reuse ==> result == Cold(ex, host, r) && cache.State() == old(cache.State())
      ensures !reuse && result.Some? ==>
                exists states :: IsRun(ex, host, r, states) && Answers(r, states[|r.features|], result.value)
      ensures reuse ==> (result, cache.State()) == Evaluated(ex, host, old(cache.State()), r)
    {
      hide Valid, RunFeatures, Tail, LongestLive, Get, Outcome, Finish, KindOf, IsRun, Answers;
      var kind := KindOf(host, r);
      var start, state := 0, Start(kind);
      var keys: seq<string> := [];
      ghost var c := cache.State();
      if reuse {
        keys := CumulativeKeys(host, r);
        start, state := RestoreLongest(r, keys);
        BookkeepingValid(c, KeyAt(host, r, start), start > 0);
      }
      var last := ExecuteTail(r, keys, start, state, start == 0 && kind.RegisteredKind?, reuse);
      assert r.features[0..] == r.features && r.features[..|r.features|] == r.features;
      result := if last.None? then None else Some(Finish(r, last.value, |r.features| - start));
      if !reuse && result.Some? {
        ColdMeans(ex, host, r, result.value);
      }
    }
  }

  lemma LookupMisses<S>(c: Cache<S>, k: string)
    ensures k !in c.entries ==> Get(c, k) == c
  {
  }
}
