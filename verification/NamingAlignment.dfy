// Two runs side by side, on the part of their shapes that corresponds. Neither the handles of an
// evaluation, nor what else it contains, nor the order in which the inputs are listed, nor plain
// Modified steps in the inputs' names can be seen in what a run does with that part.
module NamingAlignment {
  import opened Counting
  import opened Outcomes
  import opened NameGrammar
  import opened NameDigest
  import opened ElementNaming
  import opened NamingProgress
  import opened NamingGrammarKept
  import opened NamingRefusal

  // ---------- Corresponding shapes ----------

  /** The shapes of one evaluation that reappear in another, where they do, and the way back. */
  datatype Via = Via(of: Shape -> bool, to: Shape -> Shape, from: Shape -> Shape)

  ghost predicate Inverse(v: Via) {
    forall x :: v.of(x) ==> v.from(v.to(x)) == x
  }

  /** A shape of the second evaluation that stands for one of the first. */
  predicate Back(v: Via, y: Shape) {
    v.of(v.from(y)) && v.to(v.from(y)) == y
  }

  ghost predicate Covers(v: Via, xs: seq<Shape>) {
    forall x :: x in xs ==> v.of(x)
  }

  function Moved(v: Via, xs: seq<Shape>): (r: seq<Shape>)
    ensures |r| == |xs| && forall i :: 0 <= i < |xs| ==> r[i] == v.to(xs[i])
  {
    seq<Shape>(|xs|, i requires 0 <= i < |xs| => v.to(xs[i]))
  }

  ghost function MovedSet(v: Via, xs: set<Shape>): set<Shape> {
    set x | x in xs :: v.to(x)
  }

  lemma ToIsBack(v: Via, x: Shape)
    requires Inverse(v) && v.of(x)
    ensures Back(v, v.to(x)) && v.from(v.to(x)) == x
  {
  }

  lemma MovedIn(v: Via, xs: seq<Shape>)
    requires Inverse(v) && Covers(v, xs)
    ensures forall y :: y in Moved(v, xs) <==> Back(v, y) && v.from(y) in xs
    ensures forall x :: v.of(x) ==> (v.to(x) in Moved(v, xs) <==> x in xs)
  {
    var r := Moved(v, xs);
    forall y ensures y in r <==> Back(v, y) && v.from(y) in xs {
      if y in r {
        var i :| 0 <= i < |xs| && r[i] == y;
        assert xs[i] in xs;
        ToIsBack(v, xs[i]);
      }
      if Back(v, y) && v.from(y) in xs {
        var i :| 0 <= i < |xs| && xs[i] == v.from(y);
        assert r[i] == y;
      }
    }
  }

  lemma MovedSetIn(v: Via, xs: set<Shape>)
    requires Inverse(v) && forall x :: x in xs ==> v.of(x)
    ensures forall y :: y in MovedSet(v, xs) <==> Back(v, y) && v.from(y) in xs
  {
    forall y ensures y in MovedSet(v, xs) <==> Back(v, y) && v.from(y) in xs {
      if y in MovedSet(v, xs) {
        var x :| x in xs && v.to(x) == y;
        ToIsBack(v, x);
      }
    }
  }

  lemma MovedDistinct(v: Via, xs: seq<Shape>)
    requires Inverse(v) && Covers(v, xs) && Distinct(xs)
    ensures Distinct(Moved(v, xs))
  {
    forall i, j | 0 <= i < j < |xs| ensures Moved(v, xs)[i] != Moved(v, xs)[j] {
      assert xs[i] in xs && xs[j] in xs;
      ToIsBack(v, xs[i]);
      ToIsBack(v, xs[j]);
    }
  }

  lemma MovedConcat(v: Via, a: seq<Shape>, b: seq<Shape>)
    ensures Moved(v, a + b) == Moved(v, a) + Moved(v, b)
  {
  }

  lemma MovedSplit(v: Via, xs: seq<Shape>)
    ensures xs == [] ==> Moved(v, xs) == []
    ensures xs != [] ==>
              Moved(v, xs) == [v.to(xs[0])] + Moved(v, xs[1..]) && Moved(v, xs)[0] == v.to(xs[0])
              && Moved(v, xs)[1..] == Moved(v, xs[1..])
    ensures |xs| == 1 ==> Moved(v, xs) == [v.to(xs[0])]
  {
  }

  /** The part has all sub-shapes of its shapes, and the topology library answers alike about it. */
  ghost predicate SameWorld(v: Via, w: World, u: World) {
    && (forall x :: v.of(x) ==> u.kind(v.to(x)) == w.kind(x))
    && (forall x, k :: v.of(x) ==> Covers(v, w.sub(x, k)) && u.sub(v.to(x), k) == Moved(v, w.sub(x, k)))
    && (forall x, anchors :: v.of(x) && (forall a :: a in anchors ==> v.of(a)) ==>
          u.geometryKey(v.to(x), MovedSet(v, anchors)) == w.geometryKey(x, anchors))
    && (forall text :: u.hash8(text) == w.hash8(text))
  }

  /** Equal texts, or (not strict) texts with equal normal forms. */
  predicate Same(strict: bool, a: string, b: string) {
    if strict then a == b else Congruent(a, b)
  }

  ghost predicate SameNames(strict: bool, v: Via, m: map<Shape, string>, n: map<Shape, string>) {
    && (forall x :: v.of(x) ==> (x in m <==> v.to(x) in n))
    && (forall x :: v.of(x) && x in m ==> Same(strict, m[x], n[v.to(x)]))
  }

  function MovedRole(v: Via, r: Role): Role {
    match r
    case Survivor => Survivor
    case ModifiedFrom(s) => ModifiedFrom(v.to(s))
    case GeneratedFrom(s) => GeneratedFrom(v.to(s))
    case SectionOf(parents) => SectionOf(Moved(v, parents))
    case Unattributed => Unattributed
  }

  ghost function Results(c: Context): set<Shape> {
    ResultSet(c.w, c.op.result)
  }

  /** Corresponding input entities, with matching names. */
  ghost predicate SameSources(strict: bool, v: Via, c: Context, d: Context) {
    && d.op.prefix == c.op.prefix
    && (forall s :: v.of(s) ==> (s in c.sources <==> v.to(s) in d.sources))
    && (forall s :: v.of(s) && s in c.sources ==>
          s in c.book && v.to(s) in d.book && Same(strict, c.book[s], d.book[v.to(s)]))
  }

  predicate Lists(op: Operation, s: Shape, x: Shape) {
    x in op.modified(s) || x in op.generated(s)
  }

  /** Corresponding histories: whatever lists a shape of the part belongs to the part. */
  ghost predicate SameHistory(v: Via, c: Context, d: Context) {
    forall x :: v.of(x) && x in Results(c) ==>
      && (forall s :: s in c.sources && Lists(c.op, s, x) ==> v.of(s))
      && (forall t :: t in d.sources && Lists(d.op, t, v.to(x)) ==> Back(v, t))
      && (forall s :: v.of(s) && s in c.sources ==>
            && (x in c.op.modified(s) <==> v.to(x) in d.op.modified(v.to(s)))
            && (x in c.op.generated(s) <==> v.to(x) in d.op.generated(v.to(s))))
  }

  /** Corresponding incidence: whatever contains a shape of the part belongs to the part. */
  ghost predicate SameIncidence(v: Via, c: Context, d: Context) {
    && (forall x :: v.of(x) ==> (x in Results(c) <==> v.to(x) in Results(d)))
    && (forall x :: v.of(x) && x in Results(c) ==>
          Covers(v, Containers(c, x)) && forall f :: f in Containers(d, v.to(x)) ==> Back(v, f))
  }

  /** All images of one step belong to the part, or none. */
  ghost predicate WholeGroups(v: Via, c: Context, d: Context)
    requires ValidContext(c) && ValidContext(d)
  {
    forall x :: v.of(x) && x in Results(c) ==>
      && (Waiting(c, x) ==> forall y :: y in Siblings(c, GroupOf(c, x).value) ==> v.of(y))
      && (Waiting(d, v.to(x)) ==> forall y :: y in Siblings(d, GroupOf(d, v.to(x)).value) ==> Back(v, y))
  }

  ghost predicate SameRoots(v: Via, c: Context, d: Context) {
    forall x :: v.of(x) && x in Results(c) ==> RootName(d, v.to(x)) == RootName(c, x)
  }

  /** Every Modified image goes on from corresponding sources. */
  ghost predicate SameWinnersVia(v: Via, c: Context, d: Context) {
    forall x :: v.of(x) && x in Results(c) && RoleOf(c, x).ModifiedFrom? ==>
      RoleOf(d, v.to(x)) == MovedRole(v, RoleOf(c, x))
  }

  /** A part of one evaluation reappears in another: the part is closed under sub-shapes,
      containers, history and siblings, and on it both agree in all that naming consults. */
  ghost predicate Aligned(strict: bool, v: Via, c: Context, d: Context) {
    && ValidContext(c) && ValidContext(d)
    && Inverse(v) && SameWorld(v, c.w, d.w) && SameSources(strict, v, c, d) && SameHistory(v, c, d)
    && SameIncidence(v, c, d) && WholeGroups(v, c, d) && SameRoots(v, c, d) && SameWinnersVia(v, c, d)
  }

  /** The part is everything there is in both results. */
  ghost predicate Whole(v: Via, c: Context, d: Context) {
    (forall x :: x in Results(c) ==> v.of(x)) && (forall y :: y in Results(d) ==> Back(v, y))
  }

  lemma AlignedParts(strict: bool, v: Via, c: Context, d: Context)
    requires Aligned(strict, v, c, d)
    ensures ValidContext(c) && ValidContext(d) && Inverse(v) && SameWorld(v, c.w, d.w)
    ensures SameSources(strict, v, c, d) && SameHistory(v, c, d) && SameIncidence(v, c, d)
    ensures WholeGroups(v, c, d) && SameRoots(v, c, d) && SameWinnersVia(v, c, d)
  {
  }

  lemma WorldAt(v: Via, w: World, u: World, x: Shape, k: ShapeType)
    requires SameWorld(v, w, u) && v.of(x)
    ensures u.kind(v.to(x)) == w.kind(x)
    ensures Covers(v, w.sub(x, k)) && u.sub(v.to(x), k) == Moved(v, w.sub(x, k))
  {
  }

  lemma ResultAt(v: Via, c: Context, d: Context, x: Shape)
    requires SameIncidence(v, c, d) && v.of(x)
    ensures x in Results(c) <==> v.to(x) in Results(d)
  {
  }

  lemma SameNormal(strict: bool, a: string, b: string)
    requires Same(strict, a, b)
    ensures Normalized(a) == Normalized(b)
  {
  }

  lemma SameExtend(strict: bool, a: string, b: string, tail: string)
    requires Same(strict, a, b)
    ensures Same(strict, a + "/" + tail, b + "/" + tail)
  {
    CongruentExtend2(a, b, tail);
  }

  lemma CongruentExtend2(a: string, b: string, tail: string)
    ensures Congruent(a, b) ==> Congruent(a + "/" + tail, b + "/" + tail)
  {
    if Congruent(a, b) {
      CongruentExtend(a, b, tail);
    }
  }

  lemma SameReflexive(strict: bool, a: string)
    ensures Same(strict, a, a)
  {
  }

  // ---------- Rearranged parents ----------

  lemma {:induction false} OfKindCount(w: World, xs: seq<Shape>, k: ShapeType, x: Shape)
    ensures multiset(OfKind(w, xs, k))[x] == if w.kind(x) == k then multiset(xs)[x] else 0
  {
    if xs != [] {
      OfKindCount(w, xs[1..], k, x);
      assert xs == [xs[0]] + xs[1..];
    }
  }

  lemma OfKindRearranged(w: World, xs: seq<Shape>, ys: seq<Shape>, k: ShapeType)
    requires multiset(xs) == multiset(ys)
    ensures multiset(OfKind(w, xs, k)) == multiset(OfKind(w, ys, k))
    ensures |OfKind(w, xs, k)| == |OfKind(w, ys, k)|
  {
    var a, b := OfKind(w, xs, k), OfKind(w, ys, k);
    forall x ensures multiset(a)[x] == multiset(b)[x] {
      OfKindCount(w, xs, k, x);
      OfKindCount(w, ys, k, x);
    }
    assert multiset(a) == multiset(b);
    assert |multiset(a)| == |a| && |multiset(b)| == |b|;
  }

  lemma ChosenRearranged(w: World, k: ShapeType, xs: seq<Shape>, ys: seq<Shape>)
    requires multiset(xs) == multiset(ys)
    ensures multiset(Chosen(w, k, xs)) == multiset(Chosen(w, k, ys))
  {
    OfKindRearranged(w, xs, ys, if k == Vertex then Edge else Face);
  }

  lemma NormalNamesWithout(n: map<Shape, string>, ys: seq<Shape>, j: nat)
    requires j < |ys| && forall y :: y in ys ==> y in n
    ensures forall y :: y in ys[..j] + ys[j + 1..] ==> y in n
    ensures multiset(NormalNames(n, ys))
         == multiset(NormalNames(n, ys[..j] + ys[j + 1..])) + multiset{Normalized(n[ys[j]])}
  {
    hide Normalized;
    var a, b := ys[..j], ys[j + 1..];
    assert NormalNames(n, ys) == NormalNames(n, a) + [Normalized(n[ys[j]])] + NormalNames(n, b);
    assert NormalNames(n, a + b) == NormalNames(n, a) + NormalNames(n, b);
  }

  lemma NormalNamesFirst(n: map<Shape, string>, xs: seq<Shape>)
    requires xs != [] && forall x :: x in xs ==> x in n
    ensures multiset(NormalNames(n, xs)) == multiset(NormalNames(n, xs[1..])) + multiset{Normalized(n[xs[0]])}
  {
    hide Normalized;
    assert NormalNames(n, xs) == [Normalized(n[xs[0]])] + NormalNames(n, xs[1..]);
  }

  lemma {:induction false} NormalNamesRearranged(n: map<Shape, string>, xs: seq<Shape>, ys: seq<Shape>)
    requires multiset(xs) == multiset(ys)
    requires (forall x :: x in xs ==> x in n) && (forall y :: y in ys ==> y in n)
    ensures multiset(NormalNames(n, xs)) == multiset(NormalNames(n, ys))
    decreases |xs|
  {
    hide Normalized, NormalNames;
    NothingCounts(xs, ys);
    if xs == [] {
      assert ys == [];
    } else {
      var j := MatchedFirst(xs, ys);
      NormalNamesFirst(n, xs);
      NormalNamesWithout(n, ys, j);
      NormalNamesRearranged(n, xs[1..], ys[..j] + ys[j + 1..]);
    }
  }

  /** Matching names of corresponding shapes have the same normal forms, in the same order. */
  lemma NormalNamesMoved(strict: bool, v: Via, m: map<Shape, string>, n: map<Shape, string>, xs: seq<Shape>)
    requires forall x :: x in xs ==> x in m && v.to(x) in n && Same(strict, m[x], n[v.to(x)])
    ensures forall y :: y in Moved(v, xs) ==> y in n
    ensures NormalNames(n, Moved(v, xs)) == NormalNames(m, xs)
  {
    hide Same, Normalized;
    var ys := Moved(v, xs);
    forall i | 0 <= i < |xs| ensures ys[i] in n && Normalized(n[ys[i]]) == Normalized(m[xs[i]]) {
      assert xs[i] in xs;
      SameNormal(strict, m[xs[i]], n[v.to(xs[i])]);
    }
    forall y | y in ys ensures y in n {
      var i :| 0 <= i < |ys| && ys[i] == y;
    }
  }

  lemma HashAligned(
    strict: bool, v: Via, w: World, u: World, m: map<Shape, string>, n: map<Shape, string>,
    xs: seq<Shape>, ys: seq<Shape>)
    requires SameWorld(v, w, u) && multiset(Moved(v, xs)) == multiset(ys)
    requires forall x :: x in xs ==> x in m && v.to(x) in n && Same(strict, m[x], n[v.to(x)])
    requires forall y :: y in ys ==> y in n
    ensures HashNames(w, NormalNames(m, xs)) == HashNames(u, NormalNames(n, ys))
  {
    hide Same, NormalNames, Moved;
    NormalNamesMoved(strict, v, m, n, xs);
    NormalNamesRearranged(n, Moved(v, xs), ys);
    DigestOrderFree(NormalNames(m, xs), NormalNames(n, ys));
  }

  lemma {:induction false} DistinctSameElements(xs: seq<Shape>, ys: seq<Shape>)
    requires Distinct(xs) && Distinct(ys) && forall x :: x in xs <==> x in ys
    ensures multiset(xs) == multiset(ys)
  {
    forall x ensures multiset(xs)[x] == multiset(ys)[x] {
      CountOnce(xs, x);
      CountOnce(ys, x);
    }
  }

  lemma {:induction false} CountOnce(xs: seq<Shape>, x: Shape)
    requires Distinct(xs)
    ensures multiset(xs)[x] == if x in xs then 1 else 0
  {
    if xs != [] {
      CountOnce(xs[1..], x);
      assert xs == [xs[0]] + xs[1..];
      assert xs[0] !in xs[1..];
    }
  }

  // ---------- Roles, groups, stems ----------

  lemma ParentsPicked(history: Shape -> seq<Shape>, sources: seq<Shape>, x: Shape)
    requires Distinct(sources)
    ensures var r := Pick(sources, Parents(history, sources, x, |sources|));
            Distinct(r) && forall s :: s in r <==> s in sources && x in history(s)
  {
    var ordinals := Parents(history, sources, x, |sources|);
    var r := Pick(sources, ordinals);
    forall s ensures s in r <==> s in sources && x in history(s) {
      if s in sources && x in history(s) {
        var o :| 0 <= o < |sources| && sources[o] == s;
        assert o in ordinals;
        var i :| 0 <= i < |ordinals| && ordinals[i] == o;
        assert r[i] == s;
      }
      if s in r {
        var i :| 0 <= i < |r| && r[i] == s;
        assert ordinals[i] in ordinals;
      }
    }
  }

  lemma RoleUnfolds(c: Context, x: Shape)
    ensures var m := Pick(c.sources, Parents(c.op.modified, c.sources, x, |c.sources|));
            var g := Pick(c.sources, Parents(c.op.generated, c.sources, x, |c.sources|));
            RoleOf(c, x) ==
              if x in c.sources then Survivor
              else if m != [] then ModifiedFrom(m[0])
              else if g == [] then Unattributed
              else if |g| == 1 then GeneratedFrom(g[0])
              else SectionOf(g)
  {
  }

  lemma SameMembers(a: seq<Shape>, b: seq<Shape>)
    requires multiset(a) == multiset(b)
    ensures forall s :: s in a <==> s in b
  {
    forall s ensures s in a <==> s in b {
      assert s in a <==> s in multiset(a);
      assert s in b <==> s in multiset(b);
    }
  }

  /** Corresponding source entities, listed in any order, have corresponding parents up to order. */
  lemma ParentsAligned(
    v: Via, past: Shape -> seq<Shape>, now: Shape -> seq<Shape>, xs: seq<Shape>, ys: seq<Shape>, x: Shape)
    requires Inverse(v) && Distinct(xs) && Distinct(ys)
    requires forall s :: s in xs && x in past(s) ==> v.of(s)
    requires forall t :: t in ys && v.to(x) in now(t) ==> Back(v, t)
    requires forall s :: v.of(s) ==> (s in xs <==> v.to(s) in ys)
    requires forall s :: v.of(s) && s in xs ==> (x in past(s) <==> v.to(x) in now(v.to(s)))
    ensures var p := Pick(xs, Parents(past, xs, x, |xs|));
            var q := Pick(ys, Parents(now, ys, v.to(x), |ys|));
            && Covers(v, p) && multiset(Moved(v, p)) == multiset(q) && |p| == |q|
            && (|p| == 1 ==> q[0] == v.to(p[0]))
  {
    hide Parents, Pick, Moved;
    var p := Pick(xs, Parents(past, xs, x, |xs|));
    var q := Pick(ys, Parents(now, ys, v.to(x), |ys|));
    ParentsPicked(past, xs, x);
    ParentsPicked(now, ys, v.to(x));
    MovedIn(v, p);
    MovedDistinct(v, p);
    DistinctSameElements(Moved(v, p), q);
    assert |multiset(Moved(v, p))| == |p| && |multiset(q)| == |q|;
    if |p| == 1 {
      assert Moved(v, p)[0] in multiset(q);
      assert Moved(v, p)[0] in q;
    }
  }

  lemma HistoryAt(strict: bool, v: Via, c: Context, d: Context, x: Shape)
    requires Aligned(strict, v, c, d) && v.of(x) && x in Results(c)
    ensures var p, q := Pick(c.sources, Parents(c.op.modified, c.sources, x, |c.sources|)),
                        Pick(d.sources, Parents(d.op.modified, d.sources, v.to(x), |d.sources|));
            && Covers(v, p) && multiset(Moved(v, p)) == multiset(q) && |p| == |q|
            && (|p| == 1 ==> q[0] == v.to(p[0]))
    ensures var p, q := Pick(c.sources, Parents(c.op.generated, c.sources, x, |c.sources|)),
                        Pick(d.sources, Parents(d.op.generated, d.sources, v.to(x), |d.sources|));
            && Covers(v, p) && multiset(Moved(v, p)) == multiset(q) && |p| == |q|
            && (|p| == 1 ==> q[0] == v.to(p[0]))
  {
    hide Parents, Results, Same, Moved, WellFormed, SameWorld, WholeGroups, SameRoots, SameWinnersVia, SameIncidence,
      Pick, Covers;
    ParentsAligned(v, c.op.modified, d.op.modified, c.sources, d.sources, x);
    ParentsAligned(v, c.op.generated, d.op.generated, c.sources, d.sources, x);
  }

  /** The sources a role speaks of. */
  function SourcesIn(r: Role): set<Shape> {
    match r
    case ModifiedFrom(s) => {s}
    case GeneratedFrom(s) => {s}
    case SectionOf(parents) => set s | s in parents
    case _ => {}
  }

  /** Roles correspond, up to the order of a section's parents, and stay within the part. */
  lemma RolesAligned(strict: bool, v: Via, c: Context, d: Context, x: Shape)
    requires Aligned(strict, v, c, d) && v.of(x) && x in Results(c)
    ensures var r, q := RoleOf(c, x), RoleOf(d, v.to(x));
            && (if r.SectionOf? then q.SectionOf? && multiset(Moved(v, r.parents)) == multiset(q.parents)
                else q == MovedRole(v, r))
            && forall s :: s in SourcesIn(r) ==> v.of(s)
  {
    hide Parents, Results, Same, Moved, WellFormed, SameWorld, WholeGroups, SameRoots, SameIncidence, SameHistory, Pick;
    RoleUnfolds(c, x);
    RoleUnfolds(d, v.to(x));
    HistoryAt(strict, v, c, d, x);
  }

  function MovedGroup(v: Via, g: Option<Group>): Option<Group> {
    if g.Some? && g.value.StepGroup? then Some(g.value.(source := v.to(g.value.source))) else g
  }

  lemma {:induction false} OfKindMoved(v: Via, w: World, u: World, xs: seq<Shape>, k: ShapeType)
    requires SameWorld(v, w, u) && Covers(v, xs)
    ensures OfKind(u, Moved(v, xs), k) == Moved(v, OfKind(w, xs, k))
  {
    hide Moved, SameWorld;
    MovedSplit(v, xs);
    if xs != [] {
      OfKindMoved(v, w, u, xs[1..], k);
      WorldAt(v, w, u, xs[0], k);
      MovedConcat(v, if w.kind(xs[0]) == k then [xs[0]] else [], OfKind(w, xs[1..], k));
      MovedSplit(v, if w.kind(xs[0]) == k then [xs[0]] else []);
    }
  }

  lemma ChosenMoved(v: Via, w: World, u: World, k: ShapeType, xs: seq<Shape>)
    requires SameWorld(v, w, u) && Covers(v, xs)
    ensures Chosen(u, k, Moved(v, xs)) == Moved(v, Chosen(w, k, xs))
  {
    hide OfKind, Moved, SameWorld;
    OfKindMoved(v, w, u, xs, if k == Vertex then Edge else Face);
  }

  lemma GroupsAligned(strict: bool, v: Via, c: Context, d: Context, x: Shape)
    requires Aligned(strict, v, c, d) && v.of(x) && x in Results(c)
    ensures GroupOf(d, v.to(x)) == MovedGroup(v, GroupOf(c, x))
    ensures GroupOf(c, x).Some? && GroupOf(c, x).value.StepGroup? ==> v.of(GroupOf(c, x).value.source)
    ensures Anchors(d, v.to(x)) == MovedSet(v, Anchors(c, x))
    ensures forall a :: a in Anchors(c, x) ==> v.of(a)
  {
    hide RoleOf, HashNames, Chosen, Same, Moved, Results, WellFormed, NormalNames, SameWorld, SameHistory,
      SameIncidence, WholeGroups, SameRoots, SameWinnersVia;
    RolesAligned(strict, v, c, d, x);
    var r, q, k := RoleOf(c, x), RoleOf(d, v.to(x)), c.w.kind(x);
    WorldAt(v, c.w, d.w, x, k);
    if r.SectionOf? {
      ChosenRearranged(d.w, k, Moved(v, r.parents), q.parents);
      ChosenMoved(v, c.w, d.w, k, r.parents);
      var a, b := Chosen(c.w, k, r.parents), Chosen(d.w, k, q.parents);
      HashAligned(strict, v, c.w, d.w, c.book, d.book, a, b);
      SameMembers(Moved(v, a), b);
      MovedIn(v, a);
      MovedSetIn(v, Anchors(c, x));
    }
  }

  lemma SolesAligned(strict: bool, v: Via, c: Context, d: Context, x: Shape)
    requires Aligned(strict, v, c, d) && v.of(x) && x in Results(c)
    ensures Sole(c, x) == Sole(d, v.to(x))
  {
    hide RoleOf, Same, ResultSet, WellFormed, SameWorld, GroupOf, SameHistory, SameRoots, SameWinnersVia, SameSources;
    AlignedParts(strict, v, c, d);
    GroupsAligned(strict, v, c, d, x);
    if GroupOf(c, x).Some? {
      var g, h := GroupOf(c, x).value, GroupOf(d, v.to(x)).value;
      forall y | v.of(y) && y in Results(c)
        ensures GroupOf(d, v.to(y)) == Some(h) <==> GroupOf(c, y) == Some(g)
      {
        GroupsAligned(strict, v, c, d, y);
        GroupsInjective(v, GroupOf(c, y), Some(g));
      }
      SiblingsAligned(v, c, d, g, h);
    }
  }

  lemma GroupsInjective(v: Via, g: Option<Group>, h: Option<Group>)
    requires Inverse(v)
    requires g.Some? && g.value.StepGroup? ==> v.of(g.value.source)
    requires h.Some? && h.value.StepGroup? ==> v.of(h.value.source)
    ensures MovedGroup(v, g) == MovedGroup(v, h) <==> g == h
  {
  }

  lemma SiblingsAligned(v: Via, c: Context, d: Context, g: Group, h: Group)
    requires ValidContext(c) && ValidContext(d) && Inverse(v)
    requires forall y :: v.of(y) ==> (y in Results(c) <==> v.to(y) in Results(d))
    requires forall y :: y in Siblings(c, g) ==> v.of(y)
    requires forall y :: y in Siblings(d, h) ==> Back(v, y)
    requires forall y :: v.of(y) && y in Results(c) ==>
               (GroupOf(d, v.to(y)) == Some(h) <==> GroupOf(c, y) == Some(g))
    ensures forall x: Shape :: v.of(x) ==> (Siblings(c, g) == {x} <==> Siblings(d, h) == {v.to(x)})
  {
    hide RoleOf, ResultSet, WellFormed, GroupOf;
    forall y | v.of(y) ensures y in Siblings(c, g) <==> v.to(y) in Siblings(d, h) {}
    forall x: Shape | v.of(x) ensures Siblings(c, g) == {x} <==> Siblings(d, h) == {v.to(x)} {
      if Siblings(c, g) == {x} {
        assert v.to(x) in Siblings(d, h);
        forall y | y in Siblings(d, h) ensures y == v.to(x) {
          assert v.from(y) in Siblings(c, g);
        }
        assert Siblings(d, h) == {v.to(x)};
      }
      if Siblings(d, h) == {v.to(x)} {
        forall y | y in Siblings(c, g) ensures y == x {
          assert v.to(y) in Siblings(d, h);
          assert v.from(v.to(y)) == y && v.from(v.to(x)) == x;
        }
        assert v.to(x) in Siblings(d, h);
        assert Siblings(c, g) == {x};
      }
    }
  }

  ghost function StemOf(c: Context, x: Shape): string
    requires ValidContext(c) && Waiting(c, x)
  {
    Stem(c, GroupOf(c, x).value)
  }

  /** Stems of corresponding groups match, with any common continuation too. */
  lemma StemsAligned(strict: bool, v: Via, c: Context, d: Context, x: Shape, tail: string)
    requires Aligned(strict, v, c, d) && v.of(x) && x in Results(c) && Waiting(c, x)
    ensures Waiting(d, v.to(x)) && Same(strict, StemOf(c, x) + tail, StemOf(d, v.to(x)) + tail)
  {
    hide Congruent, RoleOf, SectionBase, Same, Results, WellFormed, SameWorld, GroupOf, SameHistory, SameIncidence,
      WholeGroups, SameRoots, SameWinnersVia;
    GroupsAligned(strict, v, c, d, x);
    GroupFacts(c, x);
    var g, h := GroupOf(c, x).value, GroupOf(d, v.to(x)).value;
    if g.StepGroup? {
      var step := StepText(g.marker, c.op.prefix) + tail;
      SameExtend(strict, c.book[g.source], d.book[h.source], step);
      assert Stem(c, g) + tail == c.book[g.source] + "/" + step;
      assert Stem(d, h) + tail == d.book[h.source] + "/" + step;
    } else {
      SameReflexive(strict, g.base + tail);
    }
  }

  lemma FirstNamesAligned(strict: bool, v: Via, c: Context, d: Context, x: Shape)
    requires Aligned(strict, v, c, d) && v.of(x) && x in Results(c)
    requires x in c.sources || GroupOf(c, x).Some?
    ensures v.to(x) in d.sources || GroupOf(d, v.to(x)).Some?
    ensures Same(strict, FirstName(c, x), FirstName(d, v.to(x)))
  {
    hide RoleOf, SectionBase, Same, Results, WellFormed, SameWorld, GroupOf, Stem, SameHistory, SameIncidence,
      WholeGroups, SameRoots, SameWinnersVia;
    if x !in c.sources {
      StemsAligned(strict, v, c, d, x, "");
      assert StemOf(c, x) + "" == StemOf(c, x) && StemOf(d, v.to(x)) + "" == StemOf(d, v.to(x));
    }
  }

  // ---------- Passes ----------

  ghost predicate SameProgress(strict: bool, v: Via, p: Progress, q: Progress) {
    SameNames(strict, v, p.names, q.names) && forall x :: v.of(x) ==> (x in p.open <==> v.to(x) in q.open)
  }

  lemma InitialAligned(strict: bool, v: Via, c: Context, d: Context)
    requires Aligned(strict, v, c, d)
    ensures SameProgress(strict, v, Initial(c), Initial(d))
  {
    hide Same, RoleOf, GroupOf, Sole, FirstName, Aligned, ResultSet, WellFormed, SameWorld, SameHistory, WholeGroups,
      SameRoots, SameWinnersVia, Containers;
    AlignedParts(strict, v, c, d);
    forall x | v.of(x) && x in Results(c)
      ensures GroupOf(d, v.to(x)).Some? == GroupOf(c, x).Some? && Sole(c, x) == Sole(d, v.to(x))
      ensures x in c.sources || Sole(c, x) ==>
                (x in c.sources || GroupOf(c, x).Some?) && (v.to(x) in d.sources || GroupOf(d, v.to(x)).Some?)
                && Same(strict, FirstName(c, x), FirstName(d, v.to(x)))
    {
      GroupsAligned(strict, v, c, d, x);
      SolesAligned(strict, v, c, d, x);
      SoleHasGroup(c, x);
      if x in c.sources || Sole(c, x) {
        FirstNamesAligned(strict, v, c, d, x);
      }
    }
  }

  lemma LowerAligned(v: Via, c: Context, d: Context, x: Shape)
    requires SameWorld(v, c.w, d.w) && v.of(x)
    ensures Lower(d, v.to(x)) == Moved(v, Lower(c, x)) && Covers(v, Lower(c, x))
    ensures d.w.kind(v.to(x)) == c.w.kind(x)
  {
    WorldAt(v, c.w, d.w, x, LowerKind(c.w.kind(x)));
  }

  /** All of some shapes are named exactly when all the corresponding ones are. */
  lemma AllNamedAligned(
    strict: bool, v: Via, m: map<Shape, string>, n: map<Shape, string>, xs: seq<Shape>, ys: seq<Shape>)
    requires Inverse(v) && SameNames(strict, v, m, n) && Covers(v, xs) && multiset(Moved(v, xs)) == multiset(ys)
    ensures (forall x :: x in xs ==> x in m) <==> (forall y :: y in ys ==> y in n)
    ensures xs == [] <==> ys == []
  {
    hide Same, Moved;
    MovedIn(v, xs);
    SameMembers(Moved(v, xs), ys);
    assert |Moved(v, xs)| == |xs| && |multiset(Moved(v, xs))| == |xs| && |multiset(ys)| == |ys|;
    if forall y :: y in ys ==> y in n {
      forall x | x in xs ensures x in m {
        assert v.to(x) in ys;
      }
    }
  }

  lemma DisambiguatorsAligned(
    strict: bool, v: Via, c: Context, d: Context, m: map<Shape, string>, n: map<Shape, string>, x: Shape)
    requires Aligned(strict, v, c, d) && v.of(x) && x in Results(c) && SameNames(strict, v, m, n)
    ensures Disambiguator(c, m, x) == Disambiguator(d, n, v.to(x))
    ensures LowerNamed(c, m, x) == LowerNamed(d, n, v.to(x))
  {
    hide Same, Aligned, Moved, Lower, HashNames, Anchors, WellFormed, SameWorld, MovedSet, GroupOf, ValidContext,
      SameSources, NormalNames, SameHistory, SameIncidence, WholeGroups, SameRoots, SameWinnersVia, Results;
    AlignedParts(strict, v, c, d);
    GroupsAligned(strict, v, c, d, x);
    LowerAligned(v, c, d, x);
    AllNamedAligned(strict, v, m, n, Lower(c, x), Lower(d, v.to(x)));
    KeysAligned(v, c.w, d.w, x, Anchors(c, x));
    if LowerNamed(c, m, x) {
      HashAligned(strict, v, c.w, d.w, m, n, Lower(c, x), Lower(d, v.to(x)));
    }
  }

  lemma KeysAligned(v: Via, w: World, u: World, x: Shape, anchors: set<Shape>)
    requires SameWorld(v, w, u) && v.of(x) && forall a :: a in anchors ==> v.of(a)
    ensures u.hash8(u.geometryKey(v.to(x), MovedSet(v, anchors))) == w.hash8(w.geometryKey(x, anchors))
  {
  }

  lemma SiblingNamesAligned(
    strict: bool, v: Via, c: Context, d: Context, m: map<Shape, string>, n: map<Shape, string>, x: Shape)
    requires Aligned(strict, v, c, d) && v.of(x) && x in Results(c) && SameNames(strict, v, m, n)
    requires Waiting(c, x)
    ensures Waiting(d, v.to(x)) && Same(strict, SiblingName(c, m, x), SiblingName(d, n, v.to(x)))
  {
    hide RoleOf, SectionBase, Disambiguator, Aligned, Same, GroupOf, Stem, WellFormed, SameNames, SameWorld, Results,
      SameSources, SameHistory, SameIncidence, WholeGroups, SameRoots, SameWinnersVia;
    AlignedParts(strict, v, c, d);
    DisambiguatorsAligned(strict, v, c, d, m, n, x);
    var tail := "." + Disambiguator(c, m, x);
    StemsAligned(strict, v, c, d, x, tail);
    assert SiblingName(c, m, x) == StemOf(c, x) + tail;
    assert SiblingName(d, n, v.to(x)) == StemOf(d, v.to(x)) + tail;
  }

  lemma ReadyAligned(
    strict: bool, v: Via, c: Context, d: Context, p: Progress, q: Progress, k: ShapeType, force: bool)
    requires Aligned(strict, v, c, d) && ValidProgress(c, p) && ValidProgress(d, q)
    requires SameProgress(strict, v, p, q)
    ensures forall x :: v.of(x) ==> (x in ReadyOfKind(c, p, k, force) <==> v.to(x) in ReadyOfKind(d, q, k, force))
  {
    hide Same, Disambiguator, LowerNamed, Aligned, WellFormed, ResultSet, SameWorld, SameSources, SameHistory,
      SameIncidence, WholeGroups, SameRoots, SameWinnersVia;
    AlignedParts(strict, v, c, d);
    forall x | v.of(x) && x in p.open
      ensures LowerNamed(c, p.names, x) == LowerNamed(d, q.names, v.to(x)) && d.w.kind(v.to(x)) == c.w.kind(x)
    {
      DisambiguatorsAligned(strict, v, c, d, p.names, q.names, x);
      LowerAligned(v, c, d, x);
    }
  }

  /** Where both sweeps complete they do the same to the part. */
  lemma ResolveKindAligned(
    strict: bool, v: Via, c: Context, d: Context, p: Progress, q: Progress, k: ShapeType, force: bool)
    requires Aligned(strict, v, c, d) && ValidProgress(c, p) && ValidProgress(d, q)
    requires SameProgress(strict, v, p, q)
    requires ResolveKind(c, p, k, force).Some? && ResolveKind(d, q, k, force).Some?
    ensures SameProgress(strict, v, ResolveKind(c, p, k, force).value, ResolveKind(d, q, k, force).value)
  {
    hide Aligned, ValidContext, ValidProgress, Same, SiblingName, ReadyOfKind, ResolveKind, SameWorld, SameSources,
      SameHistory, SameIncidence, WholeGroups, SameRoots, SameWinnersVia, Results;
    AlignedParts(strict, v, c, d);
    ReadyAligned(strict, v, c, d, p, q, k, force);
    var r, s := ResolveKind(c, p, k, force), ResolveKind(d, q, k, force);
    ResolveKindExtends(c, p, k, force);
    ResolveKindExtends(d, q, k, force);
    forall x | v.of(x) && x in r.value.names ensures Same(strict, r.value.names[x], s.value.names[v.to(x)]) {
      if x in ReadyOfKind(c, p, k, force) {
        ReadySiblingName(c, p, k, force, x);
        ReadySiblingName(d, q, k, force, v.to(x));
        assert x in Results(c) by { InResults(c, x); }
        SiblingNamesAligned(strict, v, c, d, p.names, q.names, x);
      } else {
        assert x in p.names;
      }
    }
  }

  lemma InResults(c: Context, x: Shape)
    ensures x in Results(c) <==> x in ResultSet(c.w, c.op.result)
  {
  }

  lemma ReadySiblingName(c: Context, p: Progress, k: ShapeType, force: bool, x: Shape)
    requires ValidContext(c) && ValidProgress(c, p)
    requires x in ReadyOfKind(c, p, k, force) && ResolveKind(c, p, k, force).Some?
    ensures x in ResultSet(c.w, c.op.result) && Waiting(c, x)
    ensures x in ResolveKind(c, p, k, force).value.names
    ensures ResolveKind(c, p, k, force).value.names[x] == SiblingName(c, p.names, x)
  {
    hide ResultSet, Clash, SiblingName;
  }

  lemma ResolveAligned(strict: bool, v: Via, c: Context, d: Context, p: Progress, q: Progress, force: bool)
    requires Aligned(strict, v, c, d) && ValidProgress(c, p) && ValidProgress(d, q)
    requires SameProgress(strict, v, p, q)
    requires Resolve(c, p, force).Some? && Resolve(d, q, force).Some?
    ensures SameProgress(strict, v, Resolve(c, p, force).value, Resolve(d, q, force).value)
  {
    hide Aligned, ValidContext, ValidProgress, Same, ResolveKind, SameProgress, SameWorld, SameSources,
      SameHistory, SameIncidence, WholeGroups, SameRoots, SameWinnersVia;
    AlignedParts(strict, v, c, d);
    ResolveKindAligned(strict, v, c, d, p, q, Vertex, force);
    var r, s := ResolveKind(c, p, Vertex, force).value, ResolveKind(d, q, Vertex, force).value;
    ResolveKindAligned(strict, v, c, d, r, s, Edge, force);
    var t, u := ResolveKind(c, r, Edge, force).value, ResolveKind(d, s, Edge, force).value;
    ResolveKindAligned(strict, v, c, d, t, u, Face, force);
  }

  lemma {:induction false} HoldingDistinct(w: World, xs: seq<Shape>, x: Shape)
    requires Distinct(xs)
    ensures Distinct(Holding(w, xs, x))
  {
    if xs != [] {
      HoldingDistinct(w, xs[1..], x);
      assert xs[0] !in xs[1..];
    }
  }

  lemma ContainersDistinct(c: Context, x: Shape)
    requires ValidContext(c)
    ensures Distinct(Containers(c, x))
  {
    hide Nested, Holding;
    HoldingDistinct(c.w, c.w.sub(c.op.result, if c.w.kind(x) == Vertex then Edge else Face), x);
  }

  /** What it takes to contain x, said of the result's entities. */
  lemma ContainersAre(c: Context, x: Shape)
    requires ValidContext(c)
    ensures forall f :: f in Containers(c, x) <==>
      f in Results(c) && c.w.kind(f) == (if c.w.kind(x) == Vertex then Edge else Face) && x in c.w.sub(f, c.w.kind(x))
  {
    hide Nested, Distinct;
    ResultSetIs(c.w, c.op.result);
  }

  lemma ContainersAligned(strict: bool, v: Via, c: Context, d: Context, x: Shape)
    requires Aligned(strict, v, c, d) && v.of(x) && x in Results(c)
    ensures Covers(v, Containers(c, x))
    ensures multiset(Moved(v, Containers(c, x))) == multiset(Containers(d, v.to(x)))
  {
    hide Same, WellFormed, Results, RoleOf, Moved, Containers, SameSources, SameHistory, WholeGroups, SameRoots,
      SameWinnersVia, SameWorld;
    var xs, ys := Containers(c, x), Containers(d, v.to(x));
    ContainersDistinct(c, x);
    ContainersDistinct(d, v.to(x));
    MovedDistinct(v, xs);
    MovedIn(v, xs);
    forall f | v.of(f) ensures f in xs <==> v.to(f) in ys {
      OneContainer(v, c, d, f, x);
    }
    DistinctSameElements(Moved(v, xs), ys);
  }

  lemma OneContainer(v: Via, c: Context, d: Context, f: Shape, x: Shape)
    requires ValidContext(c) && ValidContext(d) && Inverse(v) && SameWorld(v, c.w, d.w) && SameIncidence(v, c, d)
    requires v.of(f) && v.of(x)
    ensures f in Containers(c, x) <==> v.to(f) in Containers(d, v.to(x))
  {
    hide WellFormed, Results, Containers, SameWorld, Moved, SameIncidence;
    ContainersAre(c, x);
    ContainersAre(d, v.to(x));
    ResultAt(v, c, d, f);
    WorldAt(v, c.w, d.w, x, Face);
    WorldAt(v, c.w, d.w, f, c.w.kind(x));
    MovedIn(v, c.w.sub(f, c.w.kind(x)));
  }

  lemma ReconstructibleAligned(
    strict: bool, v: Via, c: Context, d: Context, m: map<Shape, string>, n: map<Shape, string>, x: Shape)
    requires Aligned(strict, v, c, d) && v.of(x) && x in Results(c) && SameNames(strict, v, m, n)
    ensures Reconstructible(c, m, x) == Reconstructible(d, n, v.to(x))
    ensures Reconstructible(c, m, x) ==> BoundName(c, m, x) == BoundName(d, n, v.to(x))
  {
    hide Same, HashNames, Aligned, Moved, Containers, WellFormed, SameWorld, ValidContext, NormalNames, Results,
      SameHistory, SameIncidence, WholeGroups, SameRoots, SameWinnersVia;
    AlignedParts(strict, v, c, d);
    ContainersAligned(strict, v, c, d, x);
    AllNamedAligned(strict, v, m, n, Containers(c, x), Containers(d, v.to(x)));
    if Reconstructible(c, m, x) {
      HashAligned(strict, v, c.w, d.w, m, n, Containers(c, x), Containers(d, v.to(x)));
    }
  }

  lemma ReconstructedAt(c: Context, m: map<Shape, string>, k: ShapeType, x: Shape)
    requires ValidContext(c) && k in {Edge, Vertex}
    ensures x in ReconstructKind(c, m, k)
       <==> x in m || (x in Results(c) && c.w.kind(x) == k && Reconstructible(c, m, x))
    ensures x !in m && x in ReconstructKind(c, m, k)
        ==> Reconstructible(c, m, x) && ReconstructKind(c, m, k)[x] == BoundName(c, m, x)
  {
    hide Reconstructible, BoundName, Distinct, Nested;
    ResultSetIs(c.w, c.op.result);
  }

  lemma ReconstructKindAligned(
    strict: bool, v: Via, c: Context, d: Context, m: map<Shape, string>, n: map<Shape, string>, k: ShapeType)
    requires Aligned(strict, v, c, d) && SameNames(strict, v, m, n) && k in {Edge, Vertex}
    ensures SameNames(strict, v, ReconstructKind(c, m, k), ReconstructKind(d, n, k))
  {
    hide Same, Reconstructible, ReconstructKind, Aligned, WellFormed, SameWorld, Results, SameSources, SameHistory,
      SameIncidence, WholeGroups, SameRoots, SameWinnersVia, ValidContext;
    AlignedParts(strict, v, c, d);
    forall x | v.of(x)
      ensures x in ReconstructKind(c, m, k) <==> v.to(x) in ReconstructKind(d, n, k)
      ensures x in ReconstructKind(c, m, k) ==>
                Same(strict, ReconstructKind(c, m, k)[x], ReconstructKind(d, n, k)[v.to(x)])
    {
      ReconstructedAt(c, m, k, x);
      ReconstructedAt(d, n, k, v.to(x));
      ResultAt(v, c, d, x);
      WorldAt(v, c.w, d.w, x, k);
      if x in Results(c) {
        ReconstructibleAligned(strict, v, c, d, m, n, x);
      }
      if x in ReconstructKind(c, m, k) && x !in m {
        SameReflexive(strict, ReconstructKind(c, m, k)[x]);
      }
    }
  }

  lemma LowerBoundAligned(
    strict: bool, v: Via, c: Context, d: Context, m: map<Shape, string>, n: map<Shape, string>)
    requires Aligned(strict, v, c, d) && SameNames(strict, v, m, n)
    ensures SameNames(strict, v, LowerBound(c, m), LowerBound(d, n))
  {
    hide Aligned, ReconstructKind, SameNames;
    ReconstructKindAligned(strict, v, c, d, m, n, Edge);
    ReconstructKindAligned(strict, v, c, d, ReconstructKind(c, m, Edge), ReconstructKind(d, n, Edge), Vertex);
  }

  lemma TurnAligned(strict: bool, v: Via, c: Context, d: Context, p: Progress, q: Progress)
    requires Aligned(strict, v, c, d) && ValidProgress(c, p) && ValidProgress(d, q)
    requires SameProgress(strict, v, p, q) && Turn(c, p).Some? && Turn(d, q).Some?
    ensures SameProgress(strict, v, Turn(c, p).value, Turn(d, q).value)
  {
    hide Aligned, ValidContext, ValidProgress, Same, Resolve, LowerBound, SameWorld, SameNames, SameSources,
      SameHistory, SameIncidence, WholeGroups, SameRoots, SameWinnersVia;
    AlignedParts(strict, v, c, d);
    ResolveAligned(strict, v, c, d, p, q, false);
    LowerBoundAligned(strict, v, c, d, Resolve(c, p, false).value.names, Resolve(d, q, false).value.names);
  }

  /** The whole loop is its first two turns, so two aligned turns are all there is to align. */
  lemma InterleaveAligned(strict: bool, v: Via, c: Context, d: Context)
    requires Aligned(strict, v, c, d)
    requires Interleave(c, Initial(c), c.guard).Some? && Interleave(d, Initial(d), d.guard).Some?
    ensures SameProgress(strict, v, Interleave(c, Initial(c), c.guard).value, Interleave(d, Initial(d), d.guard).value)
  {
    hide Aligned, ValidContext, ValidProgress, Turn, Interleave, SameProgress, Reserved, SameWorld, Initial,
      SameSources, SameHistory, SameIncidence, WholeGroups, SameRoots, SameWinnersVia;
    AlignedParts(strict, v, c, d);
    InitialReserved(c);
    InitialReserved(d);
    GuardsAreEnough(c);
    GuardsAreEnough(d);
    TwoTurns(c, Initial(c), c.guard);
    TwoTurns(d, Initial(d), d.guard);
    InitialAligned(strict, v, c, d);
    TurnAligned(strict, v, c, d, Initial(c), Initial(d));
    TurnAligned(strict, v, c, d, Turn(c, Initial(c)).value, Turn(d, Initial(d)).value);
  }

  lemma GuardsAreEnough(c: Context)
    requires ValidContext(c)
    ensures c.guard >= 2
  {
  }

  lemma TwoTurns(c: Context, p: Progress, turns: nat)
    requires ValidContext(c) && ValidProgress(c, p) && Reserved(p) && turns >= 2
    ensures Interleave(c, p, turns) == if Turn(c, p).None? then None else Turn(c, Turn(c, p).value)
  {
    hide ValidContext, ValidProgress, Turn, Reserved;
    TwoTurnsFrom(c, p, turns);
    var r := Turn(c, p);
    if r.Some? {
      if r.value == p {
        assert Interleave(c, p, 2) == r;
      } else {
        assert Interleave(c, p, 2) == Interleave(c, r.value, 1);
        TurnTwice(c, p);
        InterleaveOnce(c, r.value, 1);
      }
    }
  }

  lemma WithRootsAligned(
    strict: bool, v: Via, c: Context, d: Context, m: map<Shape, string>, n: map<Shape, string>)
    requires Aligned(strict, v, c, d) && SameNames(strict, v, m, n)
    ensures SameNames(strict, v, WithRoots(c, m), WithRoots(d, n))
  {
    hide Same, Aligned, ResultSet, WellFormed, RootName, WithRoots, SameWorld, SameSources, SameHistory, WholeGroups,
      SameWinnersVia, SameIncidence;
    AlignedParts(strict, v, c, d);
    forall x | v.of(x)
      ensures x in WithRoots(c, m) <==> v.to(x) in WithRoots(d, n)
      ensures x in WithRoots(c, m) ==> Same(strict, WithRoots(c, m)[x], WithRoots(d, n)[v.to(x)])
    {
      ResultAt(v, c, d, x);
      RootedAt(c, m, x);
      RootedAt(d, n, v.to(x));
      SameReflexive(strict, RootName(c, x));
    }
  }

  lemma RootedAt(c: Context, m: map<Shape, string>, x: Shape)
    ensures x in WithRoots(c, m) <==> x in m || x in Results(c)
    ensures x in WithRoots(c, m) ==> WithRoots(c, m)[x] == if x in m then m[x] else RootName(c, x)
  {
    hide ResultSet, RootName;
  }

  /** Where two runs complete they name the corresponding part alike, whatever else they name. */
  lemma PartsAligned(strict: bool, v: Via, c: Context, d: Context)
    requires Aligned(strict, v, c, d) && NamesOfResult(c).Some? && NamesOfResult(d).Some?
    ensures SameNames(strict, v, NamesOfResult(c).value, NamesOfResult(d).value)
  {
    hide Aligned, ValidContext, Same, Initial, Interleave, Resolve, Rebuild, LowerBound, WithRoots, SameWorld,
      SameNames, SameSources, SameHistory, SameIncidence, WholeGroups, SameRoots, SameWinnersVia;
    AlignedParts(strict, v, c, d);
    InterleaveAligned(strict, v, c, d);
    var p, q := Interleave(c, Initial(c), c.guard).value, Interleave(d, Initial(d), d.guard).value;
    ResolveAligned(strict, v, c, d, p, q, true);
    var r, s := Resolve(c, p, true).value, Resolve(d, q, true).value;
    GuardsAreEnough(c);
    GuardsAreEnough(d);
    RebuildStopsAtOnce(c, r.names, c.guard);
    RebuildStopsAtOnce(d, s.names, d.guard);
    LowerBoundAligned(strict, v, c, d, r.names, s.names);
    WithRootsAligned(strict, v, c, d, LowerBound(c, r.names), LowerBound(d, s.names));
  }

  // ---------- Refusing together ----------

  lemma NamedFromStartAligned(strict: bool, v: Via, c: Context, d: Context, xs: seq<Shape>, ys: seq<Shape>)
    requires Aligned(strict, v, c, d) && Covers(v, xs) && multiset(Moved(v, xs)) == multiset(ys)
    requires forall f :: f in xs ==> f in Results(c)
    ensures (forall f :: f in xs ==> f in c.sources || Sole(c, f))
       <==> (forall f :: f in ys ==> f in d.sources || Sole(d, f))
    ensures xs == [] <==> ys == []
  {
    hide Aligned, Moved, Sole, WellFormed, SameWorld, Results, SameHistory, SameIncidence, WholeGroups, SameRoots,
      SameWinnersVia, Same;
    AlignedParts(strict, v, c, d);
    MovedIn(v, xs);
    SameMembers(Moved(v, xs), ys);
    assert |Moved(v, xs)| == |xs| && |multiset(Moved(v, xs))| == |xs| && |multiset(ys)| == |ys|;
    forall f | f in xs ensures Sole(c, f) == Sole(d, v.to(f)) && v.to(f) in ys {
      SolesAligned(strict, v, c, d, f);
    }
    forall f | f in ys ensures v.from(f) in xs && v.to(v.from(f)) == f {}
  }

  lemma UnattributedAligned(strict: bool, v: Via, c: Context, d: Context, xs: seq<Shape>)
    requires Aligned(strict, v, c, d) && Covers(v, xs) && forall y :: y in xs ==> y in Results(c)
    ensures (exists y :: y in xs && RoleOf(c, y) == Unattributed)
       <==> (exists y :: y in Moved(v, xs) && RoleOf(d, y) == Unattributed)
  {
    hide Aligned, Moved, RoleOf, WellFormed, SameWorld, Results, SameHistory, SameIncidence, WholeGroups, SameRoots,
      SameWinnersVia, Same, SameSources;
    AlignedParts(strict, v, c, d);
    MovedIn(v, xs);
    forall y | y in xs ensures v.to(y) in Moved(v, xs)
      ensures RoleOf(c, y) == Unattributed <==> RoleOf(d, v.to(y)) == Unattributed
    {
      RolesAligned(strict, v, c, d, y);
    }
    forall y | y in Moved(v, xs) ensures v.from(y) in xs && v.to(v.from(y)) == y {}
  }

  /** A split edge of the part is stranded in both runs or in neither. */
  lemma StrandedAligned(strict: bool, v: Via, c: Context, d: Context, x: Shape)
    requires Aligned(strict, v, c, d) && v.of(x) && x in Results(c)
    ensures SplitEdgeStranded(c, x) <==> SplitEdgeStranded(d, v.to(x))
  {
    hide Aligned, Moved, RoleOf, WellFormed, SameWorld, ResultSet, SameHistory, SameIncidence, WholeGroups, SameRoots,
      SameWinnersVia, Same, SameSources, Sole, GroupOf, Lower, Containers;
    AlignedParts(strict, v, c, d);
    ResultAt(v, c, d, x);
    LowerAligned(v, c, d, x);
    GroupsAligned(strict, v, c, d, x);
    SolesAligned(strict, v, c, d, x);
    LowerKinds(c, x);
    UnattributedAligned(strict, v, c, d, Lower(c, x));
    ContainersAligned(strict, v, c, d, x);
    ContainersAre(c, x);
    NamedFromStartAligned(strict, v, c, d, Containers(c, x), Containers(d, v.to(x)));
    assert |Lower(d, v.to(x))| == |Lower(c, x)|;
  }

  /** Evaluations that correspond as a whole complete together and name all entities alike. */
  lemma RunsAligned(strict: bool, v: Via, c: Context, d: Context)
    requires Aligned(strict, v, c, d) && Whole(v, c, d)
    ensures NamesOfResult(c).Some? == NamesOfResult(d).Some?
    ensures NamesOfResult(c).Some? ==> SameNames(strict, v, NamesOfResult(c).value, NamesOfResult(d).value)
  {
    hide Aligned, WellFormed, NamesOfResult, SameWorld, SameNames, SameSources, SameHistory, WholeGroups, SameRoots,
      SameWinnersVia, SplitEdgeStranded, ResultSet;
    AlignedParts(strict, v, c, d);
    RefusedIffSplitEdgeStranded(c);
    RefusedIffSplitEdgeStranded(d);
    if x :| SplitEdgeStranded(c, x) {
      StrandedInResult(c, x);
      StrandedAligned(strict, v, c, d, x);
    }
    if y :| SplitEdgeStranded(d, y) {
      StrandedInResult(d, y);
      ResultAt(v, c, d, v.from(y));
      StrandedAligned(strict, v, c, d, v.from(y));
    }
    if NamesOfResult(c).Some? && NamesOfResult(d).Some? {
      PartsAligned(strict, v, c, d);
    }
  }

  lemma StrandedInResult(c: Context, x: Shape)
    requires ValidContext(c) && SplitEdgeStranded(c, x)
    ensures x in Results(c)
  {
  }

  // ---------- Two laws ----------

  /** A re-evaluation in which a feature was suppressed: on whatever part of the two is closed and
      corresponds, with input names that differ by plain Modified steps only, the completed runs
      give equal normal forms, whatever the suppressed feature took away elsewhere. */
  lemma CongruenceSurvivesOperations(v: Via, c: Context, d: Context, x: Shape)
    requires Aligned(false, v, c, d) && NamesOfResult(c).Some? && NamesOfResult(d).Some?
    requires v.of(x) && x in Results(c)
    ensures x in NamesOfResult(c).value && v.to(x) in NamesOfResult(d).value
    ensures Congruent(NamesOfResult(c).value[x], NamesOfResult(d).value[v.to(x)])
  {
    hide NamesOfResult, WellFormed, SameWorld, SameHistory, SameIncidence, WholeGroups, SameRoots, SameWinnersVia,
      SameSources, Congruent;
    PartsAligned(false, v, c, d);
    TotalCoverage(c);
  }

  /** The same construction evaluated twice: inputs, result and history correspond throughout. */
  ghost predicate SameConstruction(v: Via, c: Context, d: Context) {
    && d.op.prefix == c.op.prefix && v.of(c.op.result) && d.op.result == v.to(c.op.result)
    && Covers(v, c.sources) && d.sources == Moved(v, c.sources)
    && (forall s :: s in c.sources ==> s in c.book && v.to(s) in d.book && d.book[v.to(s)] == c.book[s])
    && (forall s, x :: v.of(s) && v.of(x) ==> (x in c.op.modified(s) <==> v.to(x) in d.op.modified(v.to(s))))
    && (forall s, x :: v.of(s) && v.of(x) ==> (x in c.op.generated(s) <==> v.to(x) in d.op.generated(v.to(s))))
  }

  /** The results correspond as a whole. */
  lemma ResultMoved(v: Via, w: World, u: World, result: Shape)
    requires Inverse(v) && SameWorld(v, w, u) && WellFormed(w) && WellFormed(u) && v.of(result)
    ensures forall x :: x in ResultSet(w, result) ==> v.of(x)
    ensures forall x :: v.of(x) ==> (x in ResultSet(w, result) <==> v.to(x) in ResultSet(u, v.to(result)))
    ensures forall y :: y in ResultSet(u, v.to(result)) ==> Back(v, y)
  {
    hide Nested, Distinct, Moved, SameWorld;
    ResultSetIs(w, result);
    ResultSetIs(u, v.to(result));
    forall k ensures Covers(v, w.sub(result, k)) && u.sub(v.to(result), k) == Moved(v, w.sub(result, k)) {
      WorldAt(v, w, u, result, k);
    }
    forall x | v.of(x) ensures InResult(w, result, x) <==> InResult(u, v.to(result), v.to(x)) {
      WorldAt(v, w, u, x, Face);
      MovedIn(v, w.sub(result, w.kind(x)));
    }
    forall y | InResult(u, v.to(result), y) ensures Back(v, y) {
      MovedIn(v, w.sub(result, u.kind(y)));
    }
  }

  lemma SameConstructionAligned(v: Via, c: Context, d: Context)
    requires ValidContext(c) && ValidContext(d) && Inverse(v) && SameWorld(v, c.w, d.w) && SameConstruction(v, c, d)
    ensures Aligned(true, v, c, d) && Whole(v, c, d)
  {
    hide WellFormed, SameWorld, RoleOf, GroupOf, Moved, ResultSet, Containers, RootName;
    ResultMoved(v, c.w, d.w, c.op.result);
    MovedIn(v, c.sources);
    forall x | v.of(x) && x in Results(c) ensures RootName(d, v.to(x)) == RootName(c, x) {
      RootsAgree(v, c, d, x);
    }
    forall x | v.of(x) && x in Results(c)
      ensures Covers(v, Containers(c, x)) && forall f :: f in Containers(d, v.to(x)) ==> Back(v, f)
    {
      ContainersAre(c, x);
      ContainersAre(d, v.to(x));
    }
    forall x | v.of(x) && RoleOf(c, x).ModifiedFrom? ensures RoleOf(d, v.to(x)) == MovedRole(v, RoleOf(c, x)) {
      SameOrderSameWinner(v, c, d, x);
    }
  }

  lemma RootsAgree(v: Via, c: Context, d: Context, x: Shape)
    requires SameWorld(v, c.w, d.w) && v.of(x) && v.of(c.op.result) && d.op.result == v.to(c.op.result)
    ensures RootName(d, v.to(x)) == RootName(c, x)
  {
    hide SameWorld;
    KeysAligned(v, c.w, d.w, x, {c.op.result});
    assert MovedSet(v, {c.op.result}) == {d.op.result};
  }

  /** Two evaluations of one construction end alike and give corresponding entities the same names
      letter by letter. */
  lemma EvaluationsAgree(v: Via, c: Context, d: Context)
    requires ValidContext(c) && ValidContext(d) && Inverse(v) && SameWorld(v, c.w, d.w) && SameConstruction(v, c, d)
    ensures NamesOfResult(d).Some? == NamesOfResult(c).Some?
    ensures NamesOfResult(c).Some? ==> SameNames(true, v, NamesOfResult(c).value, NamesOfResult(d).value)
    ensures Whole(v, c, d)
  {
    hide NamesOfResult, WellFormed, SameWorld, SameConstruction, Aligned;
    SameConstructionAligned(v, c, d);
    RunsAligned(true, v, c, d);
  }

  lemma SameOrderSameWinner(v: Via, c: Context, d: Context, x: Shape)
    requires Inverse(v) && SameConstruction(v, c, d) && v.of(x) && RoleOf(c, x).ModifiedFrom?
    ensures RoleOf(d, v.to(x)) == MovedRole(v, RoleOf(c, x))
  {
    hide Parents, Moved;
    MovedIn(v, c.sources);
    ParentsMoved(v, c.op.modified, d.op.modified, c.sources, d.sources, x, |c.sources|);
  }

  lemma {:induction false} ParentsMoved(
    v: Via, past: Shape -> seq<Shape>, now: Shape -> seq<Shape>, xs: seq<Shape>, ys: seq<Shape>, x: Shape, n: nat)
    requires ys == Moved(v, xs) && n <= |xs|
    requires forall s :: s in xs ==> (x in past(s) <==> v.to(x) in now(v.to(s)))
    ensures Parents(now, ys, v.to(x), n) == Parents(past, xs, x, n)
  {
    if n > 0 {
      ParentsMoved(v, past, now, xs, ys, x, n - 1);
      assert xs[n - 1] in xs;
    }
  }

  // ---------- One evaluation, looked at twice ----------

  function InPlace(): Via {
    Via((x: Shape) => true, (x: Shape) => x, (x: Shape) => x)
  }

  lemma SameInPlace(m: map<Shape, string>, n: map<Shape, string>)
    requires SameNames(true, InPlace(), m, n)
    ensures m == n
  {
    forall x ensures x in m <==> x in n {
      assert InPlace().of(x);
      assert x in m <==> InPlace().to(x) in n;
    }
  }

  lemma MovedInPlace()
    ensures Inverse(InPlace()) && forall w: World :: SameWorld(InPlace(), w, w)
    ensures forall xs: seq<Shape> :: Moved(InPlace(), xs) == xs
  {
    var v := InPlace();
    forall xs: seq<Shape> ensures Moved(v, xs) == xs {}
    forall w: World, x: Shape, anchors: set<Shape>
      ensures w.geometryKey(v.to(x), MovedSet(v, anchors)) == w.geometryKey(x, anchors)
    {
      assert MovedSet(v, anchors) == anchors;
    }
  }

  lemma AlignedInPlace(strict: bool, c: Context, d: Context)
    requires ValidContext(c) && ValidContext(d) && d.w == c.w
    requires d.op == c.op.(inputs := d.op.inputs) && forall s :: s in c.sources <==> s in d.sources
    requires forall s :: s in c.sources ==> Same(strict, c.book[s], d.book[s])
    requires forall x :: x in ResultSet(c.w, c.op.result) && RoleOf(c, x).ModifiedFrom? ==> RoleOf(d, x) == RoleOf(c, x)
    ensures Aligned(strict, InPlace(), c, d) && Whole(InPlace(), c, d)
  {
    hide WellFormed, RoleOf, ResultSet, Moved, SameWorld, GroupOf, Containers;
    MovedInPlace();
    forall x ensures RootName(d, x) == RootName(c, x) {}
    forall x ensures Containers(d, x) == Containers(c, x) {
      ContainersInPlace(c, d, x);
    }
  }

  lemma ContainersInPlace(c: Context, d: Context, x: Shape)
    requires d.w == c.w && d.op.result == c.op.result
    ensures Containers(d, x) == Containers(c, x)
  {
  }
}
