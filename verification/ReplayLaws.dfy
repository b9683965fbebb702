// When a warm evaluation equals a cold one: the exact condition for one restored prefix, and
// the whole-history law for clients that meet it.
module ReplayLaws {
  import opened Outcomes
  import opened BodyPools
  import opened ReplayEngine

  /** Bodies and names; the count of executed operations is meant to differ. */
  ghost predicate SameOutcome(a: Option<Result>, b: Option<Result>) {
    a.Some? == b.Some? && (a.Some? ==> a.value.bodies == b.value.bodies && a.value.names == b.value.names)
  }

  /** Executing an operation reads no operation after it, and leaves the name channel's kind alone. */
  ghost predicate Faithful(ex: Execute) {
    && (forall x: Content, ds: seq<Canon>, es: seq<Canon>, i: nat, st: State, registry: bool ::
          i < |ds| && i < |es| && ds[..i + 1] == es[..i + 1] && ds[i] == x.canon
          ==> ex(x, ds, st, registry) == ex(x, es, st, registry))
    && (forall x: Content, ds: seq<Canon>, st: State, registry: bool ::
          ex(x, ds, st, registry).Some?
          ==> KindOfChannel(ex(x, ds, st, registry).value.channel) == KindOfChannel(st.channel))
  }

  /** The channel a request is left with after restoring a snapshot taken under kind `stored`. */
  function AfterRestore(stored: Kind, asked: Kind): Kind {
    if asked.RegisteredKind? then RegisteredKind else if stored.SilentKind? then SilentKind else BareKind
  }

  /** Decided from the two requests alone: may the state `stored` left after p features stand in
      for the state `asked` would have reached? They must agree on which of the shared features
      are suppressed and on the anchors of the others, and on the name channel where it counts. */
  predicate Replayable(host: Host, stored: Request, p: nat, asked: Request)
    requires p <= |stored.features| && p <= |asked.features|
  {
    var s, a := KindOf(host, stored), KindOf(host, asked);
    var before, tail := Active(asked.features[..p]), Active(asked.features[p..]);
    && Active(stored.features[..p]) == before
    && (before != [] ==> s == a)
    && (tail != [] ==> AfterRestore(s, a) == a && !a.RegisteredKind?)
    && (asked.names ==> !AfterRestore(s, a).SilentKind?)
  }

  // ---------- Only the active features matter ----------

  function RunActive(ex: Execute, all: seq<Canon>, cs: seq<Content>, st: State, registry: bool): Option<State>
    decreases |cs|
  {
    if cs == [] then Some(st)
    else
      var next := ex(cs[0], all, st, registry);
      if next.None? then None else RunActive(ex, all, cs[1..], next.value, registry)
  }

  lemma {:induction false} RunIsActive(ex: Execute, all: seq<Canon>, fs: seq<Feature>, st: State, registry: bool)
    ensures RunFeatures(ex, all, fs, st, registry) == RunActive(ex, all, Active(fs), st, registry)
    decreases |fs|
  {
    if fs != [] {
      if fs[0].suppressed {
        RunIsActive(ex, all, fs[1..], st, registry);
        assert Active(fs) == Active(fs[1..]);
      } else {
        var next := ex(fs[0].content, all, st, registry);
        assert Active(fs)[0] == fs[0].content && Active(fs)[1..] == Active(fs[1..]);
        if next.Some? {
          RunIsActive(ex, all, fs[1..], next.value, registry);
        }
      }
    }
  }

  lemma {:induction false} RunConcat(
    ex: Execute, all: seq<Canon>, fs: seq<Feature>, gs: seq<Feature>, st: State, registry: bool)
    ensures var m := RunFeatures(ex, all, fs, st, registry);
            RunFeatures(ex, all, fs + gs, st, registry)
            == if m.None? then None else RunFeatures(ex, all, gs, m.value, registry)
    decreases |fs|
  {
    if fs == [] {
      assert fs + gs == gs;
    } else {
      assert (fs + gs)[1..] == fs[1..] + gs;
      if fs[0].suppressed {
        RunConcat(ex, all, fs[1..], gs, st, registry);
      } else if ex(fs[0].content, all, st, registry).Some? {
        RunConcat(ex, all, fs[1..], gs, ex(fs[0].content, all, st, registry).value, registry);
      }
    }
  }

  /** Two documents that agree on their first p operations execute any active part of them alike. */
  lemma {:induction false} RunLocal(
    ex: Execute, ds: seq<Canon>, es: seq<Canon>, p: nat, cs: seq<Content>, st: State, registry: bool)
    requires Faithful(ex) && p <= |ds| && p <= |es| && ds[..p] == es[..p]
    requires forall x :: x in cs ==> x.canon in ds[..p]
    ensures RunActive(ex, ds, cs, st, registry) == RunActive(ex, es, cs, st, registry)
    decreases |cs|
  {
    if cs != [] {
      assert cs[0].canon in ds[..p];
      var i :| 0 <= i < p && ds[i] == cs[0].canon;
      assert ds[..i + 1] == ds[..p][..i + 1] && es[..i + 1] == es[..p][..i + 1];
      var next := ex(cs[0], ds, st, registry);
      if next.Some? {
        RunLocal(ex, ds, es, p, cs[1..], next.value, registry);
      }
    }
  }

  lemma {:induction false} RunKeepsKind(ex: Execute, all: seq<Canon>, cs: seq<Content>, st: State, registry: bool)
    requires Faithful(ex) && RunActive(ex, all, cs, st, registry).Some?
    ensures KindOfChannel(RunActive(ex, all, cs, st, registry).value.channel) == KindOfChannel(st.channel)
    decreases |cs|
  {
    if cs != [] {
      RunKeepsKind(ex, all, cs[1..], ex(cs[0], all, st, registry).value, registry);
    }
  }

  /** On a kernel that leaves the channel engaged, names come back exactly when they are asked for. */
  lemma NamesWhenAsked(ex: Execute, host: Host, r: Request)
    requires Faithful(ex) && Cold(ex, host, r).Some?
    ensures Cold(ex, host, r).value.names.Some? <==> r.names
  {
    hide Faithful, RunFeatures;
    var kind := KindOf(host, r);
    assert r.features[..|r.features|] == r.features;
    RunIsActive(ex, Canons(r.features), r.features, Start(kind), kind.RegisteredKind?);
    RunKeepsKind(ex, Canons(r.features), Active(r.features), Start(kind), kind.RegisteredKind?);
  }

  lemma {:induction false} ActiveAmong(fs: seq<Feature>)
    ensures forall x :: x in Active(fs) ==> x.canon in Canons(fs)
  {
    if fs != [] {
      ActiveAmong(fs[1..]);
      assert Canons(fs) == [fs[0].content.canon] + Canons(fs[1..]);
    }
  }

  // ---------- The condition suffices ----------

  ghost predicate SharePrefix(stored: Request, p: nat, asked: Request) {
    && p <= |stored.features| && p <= |asked.features|
    && Canons(stored.features[..p]) == Canons(asked.features[..p])
  }

  lemma CanonsPrefix(fs: seq<Feature>, p: nat)
    requires p <= |fs|
    ensures Canons(fs)[..p] == Canons(fs[..p])
  {
  }

  /** The part before p runs alike whenever the same features are active under one kind. */
  lemma PrefixesAgree(ex: Execute, host: Host, stored: Request, p: nat, asked: Request)
    requires Faithful(ex) && SharePrefix(stored, p, asked)
    requires Active(stored.features[..p]) == Active(asked.features[..p])
    requires Active(asked.features[..p]) != [] ==> KindOf(host, stored) == KindOf(host, asked)
    ensures KindOf(host, stored) == KindOf(host, asked)
        ==> PrefixState(ex, host, stored, p) == PrefixState(ex, host, asked, p)
    ensures Active(asked.features[..p]) == [] ==>
      PrefixState(ex, host, stored, p) == Some(Start(KindOf(host, stored)))
      && PrefixState(ex, host, asked, p) == Some(Start(KindOf(host, asked)))
  {
    hide KindOf, Faithful;
    var ds, es := Canons(stored.features), Canons(asked.features);
    var s, a := KindOf(host, stored), KindOf(host, asked);
    RunIsActive(ex, ds, stored.features[..p], Start(s), s.RegisteredKind?);
    RunIsActive(ex, es, asked.features[..p], Start(a), a.RegisteredKind?);
    CanonsPrefix(stored.features, p);
    CanonsPrefix(asked.features, p);
    ActiveAmong(asked.features[..p]);
    if s == a {
      RunLocal(ex, ds, es, p, Active(asked.features[..p]), Start(s), s.RegisteredKind?);
    }
  }

  lemma ColdSplits(ex: Execute, host: Host, r: Request, p: nat)
    requires p <= |r.features|
    ensures var kind := KindOf(host, r);
            var m := PrefixState(ex, host, r, p);
            PrefixState(ex, host, r, |r.features|)
            == if m.None? then None
               else RunFeatures(ex, Canons(r.features), r.features[p..], m.value, kind.RegisteredKind?)
  {
    hide KindOf;
    assert r.features[..|r.features|] == r.features[..p] + r.features[p..];
    RunConcat(ex, Canons(r.features), r.features[..p], r.features[p..], Start(KindOf(host, r)),
      KindOf(host, r).RegisteredKind?);
  }

  /** Restoring one's own snapshot gives the state back, unless a registry's records are lost. */
  lemma RestoredIsSame(kind: Kind, st: State)
    requires KindOfChannel(st.channel) == kind
    ensures !kind.RegisteredKind? ==> Restored(Start(kind), SnapshotOf(st)) == st
    ensures SnapshotOf(Restored(Start(kind), SnapshotOf(st))) == SnapshotOf(st)
  {
  }

  lemma PrefixKind(ex: Execute, host: Host, r: Request, p: nat)
    requires Faithful(ex) && p <= |r.features| && PrefixState(ex, host, r, p).Some?
    ensures KindOfChannel(PrefixState(ex, host, r, p).value.channel) == KindOf(host, r)
  {
    hide KindOf, Faithful;
    var kind := KindOf(host, r);
    RunIsActive(ex, Canons(r.features), r.features[..p], Start(kind), kind.RegisteredKind?);
    RunKeepsKind(ex, Canons(r.features), Active(r.features[..p]), Start(kind), kind.RegisteredKind?);
  }

  lemma WarmEqualsCold(ex: Execute, host: Host, stored: Request, p: nat, asked: Request)
    requires Faithful(ex) && SharePrefix(stored, p, asked) && PrefixState(ex, host, stored, p).Some?
    requires Replayable(host, stored, p, asked)
    ensures SameOutcome(
      Warm(ex, host, asked, p, SnapshotOf(PrefixState(ex, host, stored, p).value)), Cold(ex, host, asked))
  {
    hide KindOf, Faithful;
    var s, a := KindOf(host, stored), KindOf(host, asked);
    var st := PrefixState(ex, host, stored, p).value;
    var start := WarmStart(host, asked, SnapshotOf(st));
    var tail := asked.features[p..];
    var all := Canons(asked.features);
    PrefixesAgree(ex, host, stored, p, asked);
    PrefixKind(ex, host, stored, p);
    ColdSplits(ex, host, asked, p);
    RestoredIsSame(s, st);
    RunIsActive(ex, all, tail, start, false);
    var cold := PrefixState(ex, host, asked, p).value;
    RunIsActive(ex, all, tail, cold, a.RegisteredKind?);
    NamesEngage(host, asked);
    RestoredStart(s, a);
    if Active(asked.features[..p]) == [] {
      assert st == Start(s) && cold == Start(a);
    } else {
      assert st == cold && s == a;
    }
  }

  lemma NamesEngage(host: Host, r: Request)
    ensures r.names ==> !KindOf(host, r).SilentKind?
  {
  }

  /** Restoring a snapshot of nothing. */
  lemma RestoredStart(stored: Kind, asked: Kind)
    ensures var st := Restored(Start(asked), SnapshotOf(Start(stored)));
            && st.pool == EmptyPool
            && (AfterRestore(stored, asked) == asked ==> st == Start(asked))
            && (BookOf(st.channel) == if AfterRestore(stored, asked).SilentKind? then None else Some(map[]))
  {
  }

  // ---------- The condition is necessary ----------

  function Tag(kind: Kind, registry: bool): nat {
    (match kind case SilentKind => 0 case BareKind => 1 case RegisteredKind => 2) + (if registry then 3 else 0)
  }

  function LogBody(x: Content, kind: Kind, registry: bool): Body {
    Body(x.canon, x.anchors, Tag(kind, registry), 0)
  }

  /** A kernel whose every operation births one body that records how it was run. */
  function LogStep(x: Content, all: seq<Canon>, st: State, registry: bool): Option<State> {
    Some(st.(pool := Produced(st.pool, LogBody(x, KindOfChannel(st.channel), registry))))
  }

  const Log: Execute := (x, all, st, registry) => LogStep(x, all, st, registry)

  function Logged(cs: seq<Content>, kind: Kind, registry: bool): (bodies: seq<Body>)
    ensures |bodies| == |cs| && forall i :: 0 <= i < |cs| ==> bodies[i] == LogBody(cs[i], kind, registry)
  {
    seq(|cs|, i requires 0 <= i < |cs| => LogBody(cs[i], kind, registry))
  }

  lemma VisibleProduced(p: Pool, body: Body)
    requires |p.bodies| == |p.consumed|
    ensures Visible(Produced(p, body)) == Visible(p) + [body]
  {
    VisibleSame(p, Produced(p, body), |p.bodies|);
  }

  lemma {:induction false} LogRuns(all: seq<Canon>, cs: seq<Content>, st: State, registry: bool)
    ensures var last := RunActive(Log, all, cs, st, registry);
            && last.Some? && last.value.channel == st.channel
            && Visible(last.value.pool) == Visible(st.pool) + Logged(cs, KindOfChannel(st.channel), registry)
    decreases |cs|
  {
    hide Visible, Logged, Produced, LogBody, RunActive, KindOfChannel;
    var kind := KindOfChannel(st.channel);
    LoggedUnfolds(cs, kind, registry);
    LogActive(all, cs, st, registry);
    if cs == [] {
      assert Visible(st.pool) + [] == Visible(st.pool);
    } else {
      var next := LogStep(cs[0], all, st, registry).value;
      LogStepSees(cs[0], all, st, registry);
      LogRuns(all, cs[1..], next, registry);
      assert Visible(st.pool) + [LogBody(cs[0], kind, registry)] + Logged(cs[1..], kind, registry)
          == Visible(st.pool) + ([LogBody(cs[0], kind, registry)] + Logged(cs[1..], kind, registry));
    }
  }

  lemma LogActive(all: seq<Canon>, cs: seq<Content>, st: State, registry: bool)
    ensures RunActive(Log, all, cs, st, registry)
         == if cs == [] then Some(st)
            else RunActive(Log, all, cs[1..], LogStep(cs[0], all, st, registry).value, registry)
  {
    hide Produced, LogBody;
  }

  lemma LogStepSees(x: Content, all: seq<Canon>, st: State, registry: bool)
    ensures var next := LogStep(x, all, st, registry).value;
            && Log(x, all, st, registry) == Some(next) && next.channel == st.channel
            && Visible(next.pool) == Visible(st.pool) + [LogBody(x, KindOfChannel(st.channel), registry)]
  {
    VisibleProduced(st.pool, LogBody(x, KindOfChannel(st.channel), registry));
  }

  lemma LoggedUnfolds(cs: seq<Content>, kind: Kind, registry: bool)
    ensures Logged(cs, kind, registry)
         == if cs == [] then [] else [LogBody(cs[0], kind, registry)] + Logged(cs[1..], kind, registry)
  {
  }

  lemma LogFaithful()
    ensures Faithful(Log)
  {
  }

  lemma LogPrefix(host: Host, r: Request, p: nat)
    requires p <= |r.features|
    ensures var st := PrefixState(Log, host, r, p);
            var kind := KindOf(host, r);
            && st.Some? && st.value.channel == StartChannel(kind)
            && Visible(st.value.pool) == Logged(Active(r.features[..p]), kind, kind.RegisteredKind?)
  {
    hide KindOf;
    var kind := KindOf(host, r);
    RunIsActive(Log, Canons(r.features), r.features[..p], Start(kind), kind.RegisteredKind?);
    LogRuns(Canons(r.features), Active(r.features[..p]), Start(kind), kind.RegisteredKind?);
  }

  /** Equal logs come from equal runs. */
  lemma LogsApart(a: seq<Content>, ka: Kind, b: seq<Content>, kb: Kind, tail: seq<Content>, kt: Kind)
    requires Logged(a, ka, ka.RegisteredKind?) + Logged(tail, kt, false)
          == Logged(b, kb, kb.RegisteredKind?) + Logged(tail, kb, kb.RegisteredKind?)
    ensures a == b && (b != [] ==> ka == kb) && (tail != [] ==> kt == kb && !kb.RegisteredKind?)
  {
    var x, y := Logged(a, ka, ka.RegisteredKind?), Logged(b, kb, kb.RegisteredKind?);
    var u, v := Logged(tail, kt, false), Logged(tail, kb, kb.RegisteredKind?);
    assert |x| == |y|;
    assert x == (x + u)[..|x|] && y == (y + v)[..|y|];
    assert u == (x + u)[|x|..] && v == (y + v)[|y|..];
    forall i | 0 <= i < |a| ensures a[i] == b[i] {
      assert x[i] == y[i];
    }
    if b != [] {
      assert x[0] == y[0];
    }
    if tail != [] {
      assert u[0] == v[0];
    }
  }

  lemma WarmEqualsColdOnlyIf(host: Host, stored: Request, p: nat, asked: Request)
    requires SharePrefix(stored, p, asked)
    requires PrefixState(Log, host, stored, p).Some?
    requires SameOutcome(
      Warm(Log, host, asked, p, SnapshotOf(PrefixState(Log, host, stored, p).value)), Cold(Log, host, asked))
    ensures Replayable(host, stored, p, asked)
  {
    hide KindOf, PrefixState, Visible, Logged, RunFeatures;
    var s, a := KindOf(host, stored), KindOf(host, asked);
    var tail := Active(asked.features[p..]);
    LogPrefix(host, stored, p);
    LogWarm(host, stored, p, asked);
    LogCold(host, asked, p);
    NamesEngage(host, asked);
    LogsApart(Active(stored.features[..p]), s, Active(asked.features[..p]), a, tail, AfterRestore(s, a));
  }

  lemma LogWarm(host: Host, stored: Request, p: nat, asked: Request)
    requires p <= |stored.features| && p <= |asked.features|
    requires PrefixState(Log, host, stored, p).Some?
    ensures var s, a := KindOf(host, stored), KindOf(host, asked);
            var r := Warm(Log, host, asked, p, SnapshotOf(PrefixState(Log, host, stored, p).value));
            && r.Some?
            && r.value.bodies == Logged(Active(stored.features[..p]), s, s.RegisteredKind?)
                               + Logged(Active(asked.features[p..]), AfterRestore(s, a), false)
            && (r.value.names.Some? <==> asked.names && !AfterRestore(s, a).SilentKind?)
  {
    hide KindOf, Visible, Logged, PrefixState;
    LogPrefix(host, stored, p);
    var start := WarmStart(host, asked, SnapshotOf(PrefixState(Log, host, stored, p).value));
    assert KindOfChannel(start.channel) == AfterRestore(KindOf(host, stored), KindOf(host, asked));
    RunIsActive(Log, Canons(asked.features), asked.features[p..], start, false);
    LogRuns(Canons(asked.features), Active(asked.features[p..]), start, false);
  }

  lemma LogCold(host: Host, asked: Request, p: nat)
    requires p <= |asked.features|
    ensures var a := KindOf(host, asked);
            var r := Cold(Log, host, asked);
            && r.Some?
            && r.value.bodies == Logged(Active(asked.features[..p]), a, a.RegisteredKind?)
                               + Logged(Active(asked.features[p..]), a, a.RegisteredKind?)
            && (r.value.names.Some? <==> asked.names && !a.SilentKind?)
  {
    hide KindOf, Visible, Logged, PrefixState;
    var a := KindOf(host, asked);
    LogPrefix(host, asked, |asked.features|);
    assert asked.features[..p] + asked.features[p..] == asked.features[..|asked.features|];
    ActiveConcat(asked.features[..p], asked.features[p..]);
    LoggedConcat(Active(asked.features[..p]), Active(asked.features[p..]), a, a.RegisteredKind?);
  }

  lemma {:induction false} ActiveConcat(fs: seq<Feature>, gs: seq<Feature>)
    ensures Active(fs + gs) == Active(fs) + Active(gs)
  {
    if fs == [] {
      assert fs + gs == gs;
    } else {
      assert (fs + gs)[1..] == fs[1..] + gs;
      ActiveConcat(fs[1..], gs);
    }
  }

  lemma LoggedConcat(a: seq<Content>, b: seq<Content>, kind: Kind, registry: bool)
    ensures Logged(a + b, kind, registry) == Logged(a, kind, registry) + Logged(b, kind, registry)
  {
  }

  /** Continuing `asked` from the state `stored` left after p shared operations gives the cold
      outcome on every kernel exactly when the two requests are replayable. */
  lemma WarmEqualsColdIff(host: Host, stored: Request, p: nat, asked: Request)
    requires SharePrefix(stored, p, asked)
    ensures Replayable(host, stored, p, asked) <==>
      forall ex: Execute :: Faithful(ex) && PrefixState(ex, host, stored, p).Some? ==>
        SameOutcome(Warm(ex, host, asked, p, SnapshotOf(PrefixState(ex, host, stored, p).value)), Cold(ex, host, asked))
  {
    if Replayable(host, stored, p, asked) {
      forall ex: Execute | Faithful(ex) && PrefixState(ex, host, stored, p).Some?
        ensures SameOutcome(Warm(ex, host, asked, p, SnapshotOf(PrefixState(ex, host, stored, p).value)),
          Cold(ex, host, asked))
      {
        WarmEqualsCold(ex, host, stored, p, asked);
      }
    } else {
      LogFaithful();
      LogPrefix(host, stored, p);
      if SameOutcome(Warm(Log, host, asked, p, SnapshotOf(PrefixState(Log, host, stored, p).value)),
        Cold(Log, host, asked)) {
        WarmEqualsColdOnlyIf(host, stored, p, asked);
      }
    }
  }
}
