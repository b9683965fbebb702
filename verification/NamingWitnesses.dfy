// Concrete runs: where two of the laws stop, and one that a third is made for.
module NamingWitnesses {
  import opened Outcomes
  import opened NameGrammar
  import opened ElementNaming
  import opened NamingProgress
  import opened NamingRefusal
  import opened NamingAlignment
  import opened PassState

  const ZEROS := "00000000"
  const BODY: Shape := 100

  function NoImages(s: Shape): seq<Shape> { [] }

  // ---------- Two operands whose faces merge ----------

  // Inputs 1 and 2 are single faces; face 3 is the Modified image of both.
  function MergeSub(x: Shape, k: ShapeType): seq<Shape> {
    if k != Face then [] else if x == 1 then [1] else if x == 2 then [2] else if x == BODY then [3] else []
  }

  function MergeModified(s: Shape): seq<Shape> {
    if s == 1 || s == 2 then [3] else []
  }

  ghost function Merge(inputs: seq<Shape>): Context {
    var w := World(x => Face, (x, k) => MergeSub(x, k), (x, anchors) => "", s => ZEROS);
    Context(w, Operation(ZEROS, inputs, BODY, s => MergeModified(s), s => NoImages(s)),
            map[1 := "n1:00000000.f.1", 2 := "n1:11111111.f.1"], SourcesOf(w, inputs), GUARD)
  }

  lemma MergeShapes(inputs: seq<Shape>, x: Shape)
    requires x == 1 || x == 2
    ensures ShapesOf(Merge(inputs).w, x) == [x]
  {
    hide SourcesOf;
  }

  /** Two inputs with one sub-shape each. */
  lemma TwoSingles(w: World, x: Shape, y: Shape)
    requires ShapesOf(w, x) == [x] && ShapesOf(w, y) == [y] && x != y
    ensures SourcesOf(w, [x, y]) == [x, y]
  {
    hide ShapesOf, Enrol;
    AllInputShapesSplit(w, [x, y], 0);
    AllInputShapesSplit(w, [x, y], 1);
    AllInputShapesSplit(w, [x, y], 2);
    assert AllInputShapes(w, [x, y]) == [x] + [y];
    EnrolNothing([]);
    EnrolOne([], [], x);
    assert [] + [x] == [x];
    EnrolOne([], [x], y);
  }

  lemma MergeSources(inputs: seq<Shape>)
    requires inputs == [1, 2] || inputs == [2, 1]
    ensures Merge(inputs).sources == inputs
  {
    hide ShapesOf, SourcesOf;
    MergeShapes(inputs, 1);
    MergeShapes(inputs, 2);
    TwoSingles(Merge(inputs).w, inputs[0], inputs[1]);
    assert inputs == [inputs[0], inputs[1]];
  }

  lemma MergeValid(inputs: seq<Shape>)
    requires inputs == [1, 2] || inputs == [2, 1]
    ensures var c := Merge(inputs); ValidContext(c) && ResultSet(c.w, BODY) == {3}
  {
    hide SourcesOf;
    var c := Merge(inputs);
    MergeSources(inputs);
    assert WellFormed(c.w);
    ResultSetIs(c.w, BODY);
    assert InResult(c.w, BODY, 3);
  }

  lemma MergeInitial(inputs: seq<Shape>)
    requires inputs == [1, 2] || inputs == [2, 1]
    requires ValidContext(Merge(inputs)) && ResultSet(Merge(inputs).w, BODY) == {3}
    ensures var c := Merge(inputs);
            Initial(c) == Progress(map[3 := c.book[inputs[0]] + "/" + StepText('M', ZEROS)], {})
  {
    hide SourcesOf, ResultSet, WellFormed, RoleOf, Stem;
    var c := Merge(inputs);
    MergeSources(inputs);
    MergeRole(inputs);
    var g := StepGroup(inputs[0], 'M', Face);
    assert GroupOf(c, 3) == Some(g);
    assert Siblings(c, g) == {3};
    MergeStem(inputs);
    assert Initial(c).names.Keys == {3} && Initial(c).open == {};
  }

  lemma MergeStem(inputs: seq<Shape>)
    requires inputs == [1, 2] || inputs == [2, 1]
    ensures var c := Merge(inputs);
            inputs[0] in c.book
              && Stem(c, StepGroup(inputs[0], 'M', Face)) == c.book[inputs[0]] + "/" + StepText('M', ZEROS)
  {
  }

  lemma MergeRun(inputs: seq<Shape>)
    requires inputs == [1, 2] || inputs == [2, 1]
    ensures var c := Merge(inputs);
            && ValidContext(c) && inputs[0] in c.book
            && NamesOfResult(c) == Some(map[3 := c.book[inputs[0]] + "/" + StepText('M', ZEROS)])
  {
    hide SourcesOf, WellFormed, Initial, NamesOfResult, ResultSet;
    MergeValid(inputs);
    MergeInitial(inputs);
    AllNamedSettles(Merge(inputs), Initial(Merge(inputs)));
  }

  lemma MergeRole(inputs: seq<Shape>)
    requires inputs == [1, 2] || inputs == [2, 1]
    requires Merge(inputs).sources == inputs
    ensures RoleOf(Merge(inputs), 3) == ModifiedFrom(inputs[0])
  {
    var c := Merge(inputs);
    assert 0 in Parents(c.op.modified, c.sources, 3, 2);
  }

  /** With every entity named and none waiting, the remaining passes change nothing. */
  lemma AllNamedSettles(c: Context, p: Progress)
    requires ValidContext(c) && p == Initial(c) && p.open == {}
    requires p.names.Keys == ResultSet(c.w, c.op.result)
    ensures NamesOfResult(c) == Some(p.names)
  {
    hide ResultSet, WellFormed, Turn, Resolve, Interleave, LowerBound, Initial, ResolveKind;
    UnchangedIffSettled(c, p);
    InterleaveUnfold(c, p, c.guard);
    forall k ensures ResolveKind(c, p, k, true) == Some(p) {
      NoneWaiting(c, p, k);
    }
    ResolvedNone(c, p);
    NothingToRebuild(c, p);
    RebuildStopsAtOnce(c, p.names, c.guard);
    assert WithRoots(c, p.names) == p.names;
  }

  lemma ResolvedNone(c: Context, p: Progress)
    requires ValidContext(c) && ValidProgress(c, p)
    requires forall k :: ResolveKind(c, p, k, true) == Some(p)
    ensures Resolve(c, p, true) == Some(p)
  {
    hide ResolveKind;
  }

  lemma NoneWaiting(c: Context, p: Progress, k: ShapeType)
    requires ValidContext(c) && ValidProgress(c, p) && p.open == {}
    ensures ResolveKind(c, p, k, true) == Some(p)
  {
    hide WellFormed, SiblingName, Ready;
    assert ReadyOfKind(c, p, k, true) == {};
    var q := ResolveKind(c, p, k, true).value;
    assert q.names == p.names && q.open == p.open;
  }

  /** Where two inputs merge into one face the order of the inputs does show: the face carries
      on the name of whichever is listed first. */
  lemma MergedImageSeesOrder()
    ensures var c, d := Merge([1, 2]), Merge([2, 1]);
            && ValidContext(c) && ValidContext(d)
            && multiset(c.op.inputs) == multiset(d.op.inputs)
            && NamesOfResult(c).Some? && NamesOfResult(d).Some?
            && NamesOfResult(c) != NamesOfResult(d)
  {
    hide NamesOfResult, ValidContext, SourcesOf;
    MergeRun([1, 2]);
    MergeRun([2, 1]);
    DifferentRoots(StepText('M', ZEROS));
    assert NamesOfResult(Merge([1, 2])).value[3] != NamesOfResult(Merge([2, 1])).value[3];
  }

  lemma DifferentRoots(step: string)
    ensures "n1:00000000.f.1" + "/" + step != "n1:11111111.f.1" + "/" + step
  {
    assert ("n1:00000000.f.1" + "/" + step)[3] != ("n1:11111111.f.1" + "/" + step)[3];
  }

  // ---------- A split edge stranded between new faces ----------

  // Half a disc, face 9 with diameter 5 and arc 13 between vertices 11 and 12, becomes face 10:
  // its diameter splits into edges 6 and 7 around vertex 8, which no history accounts for.
  function SplitKind(x: Shape): ShapeType {
    if x == 9 || x == 10 then Face
    else if x == 5 || x == 6 || x == 7 || x == 13 then Edge
    else if x == 8 || x == 11 || x == 12 then Vertex
    else Other
  }

  function SplitParts(x: Shape): seq<Shape> {
    if x == 1 || x == 9 then [9, 5, 13, 11, 12]
    else if x == BODY || x == 10 then [10, 6, 7, 13, 11, 8, 12]
    else if x == 5 || x == 13 then [x, 11, 12]
    else if x == 6 then [6, 11, 8]
    else if x == 7 then [7, 8, 12]
    else if SplitKind(x) == Vertex then [x]
    else []
  }

  function PartsOfKind(xs: seq<Shape>, k: ShapeType): (r: seq<Shape>)
    ensures forall x :: x in r <==> x in xs && SplitKind(x) == k
  {
    if xs == [] then []
    else
      assert xs == [xs[0]] + xs[1..];
      (if SplitKind(xs[0]) == k then [xs[0]] else []) + PartsOfKind(xs[1..], k)
  }

  function SplitSub(x: Shape, k: ShapeType): seq<Shape> {
    PartsOfKind(SplitParts(x), k)
  }

  function SplitModified(s: Shape): seq<Shape> {
    if s == 9 then [10] else if s == 5 then [6, 7] else []
  }

  function SplitWorld(): World {
    World((x: Shape) => SplitKind(x), (x: Shape, k: ShapeType) => SplitSub(x, k), (x, anchors) => "", s => ZEROS)
  }

  function SplitBook(): map<Shape, string> {
    map[9 := "n1:00000000.f.1", 5 := "n1:00000000.e.1", 13 := "n1:00000000.e.2",
        11 := "n1:00000000.v.1", 12 := "n1:00000000.v.2"]
  }

  function SplitRun(): Context {
    var w := SplitWorld();
    Context(w, Operation(ZEROS, [1], BODY, (s: Shape) => SplitModified(s), (s: Shape) => NoImages(s)),
            SplitBook(), SourcesOf(w, [1]), GUARD)
  }

  lemma {:induction false} PartsDistinct(xs: seq<Shape>, k: ShapeType)
    requires Distinct(xs)
    ensures Distinct(PartsOfKind(xs, k))
  {
    if xs != [] {
      PartsDistinct(xs[1..], k);
      assert xs[0] !in xs[1..];
    }
  }

  lemma SplitWellFormed()
    ensures WellFormed(SplitWorld())
  {
    hide PartsOfKind;
    var w := SplitWorld();
    forall x, k ensures Distinct(w.sub(x, k)) {
      PartsDistinct(SplitParts(x), k);
    }
    assert Nested(w) by {
      forall x, y, z, k, l | Within(w, y, x, k) && Within(w, z, y, l) ensures Within(w, z, x, l) {
        SplitNested(x, y, z);
      }
    }
  }

  lemma SplitNested(x: Shape, y: Shape, z: Shape)
    requires y in SplitParts(x) && z in SplitParts(y)
    ensures z in SplitParts(x)
  {
  }

  lemma SplitInputShapes(s: Shape)
    ensures s in AllInputShapes(SplitWorld(), [1]) <==> s in SplitBook()
  {
    hide PartsOfKind, ShapesOf;
    var w := SplitWorld();
    assert AllInputShapes(w, [1]) == ShapesOf(w, 1) + AllInputShapes(w, [1][1..]);
    SplitFaces(1, s);
  }

  lemma SplitFaces(x: Shape, s: Shape)
    ensures s in ShapesOf(SplitWorld(), x) <==> s in SplitParts(x) && SplitKind(s) != Other
  {
    hide PartsOfKind, SplitParts, SplitKind;
    var w := SplitWorld();
    assert s in ShapesOf(w, x) <==> s in w.sub(x, Face) || s in w.sub(x, Edge) || s in w.sub(x, Vertex);
  }

  lemma SplitSources()
    ensures var c := SplitRun();
            && ValidContext(c) && forall s :: s in c.sources <==> s in SplitBook()
  {
    hide SourcesOf, WellFormed, AllInputShapes, SplitWorld, SplitBook;
    var w := SplitWorld();
    SplitWellFormed();
    EnrolDistinct([], AllInputShapes(w, [1]));
    SourcesAre(w, [1]);
    forall s ensures s in SourcesOf(w, [1]) <==> s in SplitBook() {
      SplitInputShapes(s);
    }
    assert IsHex8(ZEROS);
    assert Distinct(SourcesOf(w, [1])) by { SourcesAreEnrolled(w, [1]); }
  }

  lemma SourcesAreEnrolled(w: World, inputs: seq<Shape>)
    ensures SourcesOf(w, inputs) == Enrol([], AllInputShapes(w, inputs))
  {
  }

  /** An entity that exactly one source lists as modified. */
  lemma OneParent(c: Context, x: Shape, s: Shape)
    requires x !in c.sources && s in c.sources
    requires forall t :: t in c.sources ==> (x in c.op.modified(t) <==> t == s)
    ensures RoleOf(c, x) == ModifiedFrom(s)
  {
    hide Parents;
    var m := Parents(c.op.modified, c.sources, x, |c.sources|);
    var o :| 0 <= o < |c.sources| && c.sources[o] == s;
    assert o in m;
    assert m[0] in m;
  }

  lemma {:induction false} NoParents(history: Shape -> seq<Shape>, sources: seq<Shape>, x: Shape, n: nat)
    requires n <= |sources| && forall t :: t in sources ==> x !in history(t)
    ensures Parents(history, sources, x, n) == []
  {
    if n > 0 {
      NoParents(history, sources, x, n - 1);
    }
  }

  lemma NoParent(c: Context, x: Shape)
    requires x !in c.sources
    requires forall t :: t in c.sources ==> x !in c.op.modified(t) && x !in c.op.generated(t)
    ensures RoleOf(c, x) == Unattributed
  {
    NoParents(c.op.modified, c.sources, x, |c.sources|);
    NoParents(c.op.generated, c.sources, x, |c.sources|);
  }

  lemma SplitRoles()
    ensures var c := SplitRun();
            && ValidContext(c)
            && RoleOf(c, 10) == ModifiedFrom(9) && RoleOf(c, 6) == ModifiedFrom(5) == RoleOf(c, 7)
            && RoleOf(c, 8) == Unattributed
  {
    hide SourcesOf, WellFormed, RoleOf, SplitParts, PartsOfKind, SplitKind;
    SplitSources();
    var c := SplitRun();
    OneParent(c, 10, 9);
    OneParent(c, 6, 5);
    OneParent(c, 7, 5);
    NoParent(c, 8);
  }

  lemma SplitResult(x: Shape)
    ensures x in ResultSet(SplitRun().w, BODY) <==> x in SplitParts(BODY)
  {
    hide SourcesOf, PartsOfKind, SplitParts, WellFormed, ResultSet, SplitKind;
    SplitWellFormed();
    ResultSetIs(SplitWorld(), BODY);
    SplitFaces(BODY, x);
    SplitPartsNamed(x);
  }

  lemma SplitPartsNamed(x: Shape)
    ensures x in SplitParts(BODY) ==> SplitKind(x) != Other
  {
  }

  lemma SplitIncidence()
    ensures var c := SplitRun();
            8 in Lower(c, 6) && Containers(c, 6) != [] && forall f :: f in Containers(c, 6) ==> f == 10
  {
    hide SourcesOf, PartsOfKind, Containers;
    var c := SplitRun();
    forall f ensures f in Containers(c, 6) <==> f == 10 {
      SplitHolds(f);
    }
    assert 10 in Containers(c, 6);
  }

  lemma SplitHolds(f: Shape)
    ensures f in Containers(SplitRun(), 6) <==> f == 10
  {
    hide SourcesOf, PartsOfKind, Holding, SplitParts, SplitKind;
    SplitTable(f);
    assert f in Containers(SplitRun(), 6) <==> f in SplitSub(BODY, Face) && 6 in SplitSub(f, Edge);
  }

  lemma SplitTable(f: Shape)
    ensures SplitKind(6) == Edge
    ensures f in SplitParts(BODY) && SplitKind(f) == Face && 6 in SplitParts(f) <==> f == 10
  {
  }

  /** A run that refuses: each half of the split edge waits for the name of their common vertex,
      and the face around them, the only image of its step, has its name from the start. */
  lemma SplitEdgeIsStranded()
    ensures var c := SplitRun();
            && ValidContext(c) && c.sources == SourcesOf(c.w, c.op.inputs)
            && SplitEdgeStranded(c, 6) && NamesOfResult(c) == None
  {
    hide SourcesOf, WellFormed, ResultSet, NamesOfResult, RoleOf, Lower, Containers, Sole, GroupOf;
    var c := SplitRun();
    SplitRoles();
    SplitIncidence();
    SplitResult(6);
    SplitGroups();
    RefusedIffSplitEdgeStranded(c);
  }

  lemma SplitGroups()
    ensures var c := SplitRun();
            ValidContext(c) && GroupOf(c, 6).Some? && !Sole(c, 6) && Sole(c, 10)
  {
    hide SourcesOf, WellFormed, ResultSet, RoleOf, SplitBook, PartsOfKind;
    var c := SplitRun();
    SplitRoles();
    SplitResult(7);
    SplitResult(10);
    assert 7 in Siblings(c, StepGroup(5, 'M', Edge));
    var g := StepGroup(9, 'M', Face);
    forall y | y in Siblings(c, g) ensures y == 10 {
      GroupKind(c, y);
      SplitResult(y);
    }
    assert Siblings(c, g) == {10};
  }

  lemma GroupKind(c: Context, y: Shape)
    requires ValidContext(c) && GroupOf(c, y).Some?
    ensures GroupOf(c, y).value.kind == c.w.kind(y)
  {
  }

  // ---------- A feature suppressed upstream ----------

  // One operation, evaluated twice. First its input has faces 1 and 2, where a feature made face 2
  // and touched face 1; then that feature is suppressed. Faces 3 and 4 are the images of 1 and 2.
  const FULL_INPUT: Shape := 10
  const BARE_INPUT: Shape := 11
  const BARE_BODY: Shape := 101

  function KeptSub(x: Shape, k: ShapeType): seq<Shape> {
    if k != Face then []
    else if 1 <= x <= 4 then [x]
    else if x == FULL_INPUT then [1, 2]
    else if x == BARE_INPUT then [1]
    else if x == BODY then [3, 4]
    else if x == BARE_BODY then [3]
    else []
  }

  function KeptModified(s: Shape): seq<Shape> {
    if s == 1 then [3] else if s == 2 then [4] else []
  }

  function KeptWorld(): World {
    World((x: Shape) => Face, (x: Shape, k: ShapeType) => KeptSub(x, k), (x, anchors) => "", s => ZEROS)
  }

  const BEFORE := "n1:00000000.f.1/M.11111111"
  const LATER := "n1:00000000.f.1"

  function KeptRun(input: Shape, result: Shape, book: map<Shape, string>): Context {
    var w := KeptWorld();
    Context(w, Operation(ZEROS, [input], result, (s: Shape) => KeptModified(s), (s: Shape) => NoImages(s)),
            book, SourcesOf(w, [input]), GUARD)
  }

  function FullRun(): Context {
    KeptRun(FULL_INPUT, BODY, map[1 := BEFORE, 2 := "n1:11111111.f.1"])
  }

  function BareRun(): Context {
    KeptRun(BARE_INPUT, BARE_BODY, map[1 := LATER])
  }

  /** The faces that are in both evaluations. */
  function Kept(): Via {
    Via((x: Shape) => x == 1 || x == 3, (x: Shape) => x, (x: Shape) => x)
  }

  lemma KeptWellFormed()
    ensures WellFormed(KeptWorld())
  {
    var w := KeptWorld();
    assert Nested(w) by {
      forall x, y, z, k, l | Within(w, y, x, k) && Within(w, z, y, l) ensures Within(w, z, x, l) {}
    }
  }

  lemma KeptInputs(input: Shape, s: Shape)
    requires input == FULL_INPUT || input == BARE_INPUT
    ensures s in AllInputShapes(KeptWorld(), [input]) <==> s == 1 || (s == 2 && input == FULL_INPUT)
  {
    hide ShapesOf;
    var w := KeptWorld();
    assert AllInputShapes(w, [input]) == ShapesOf(w, input) + AllInputShapes(w, [input][1..]);
    KeptParts(input, s);
  }

  lemma KeptParts(x: Shape, s: Shape)
    ensures s in ShapesOf(KeptWorld(), x) <==> s in KeptSub(x, Face)
  {
    hide KeptSub;
    var w := KeptWorld();
    assert s in ShapesOf(w, x) <==> s in w.sub(x, Face) || s in w.sub(x, Edge) || s in w.sub(x, Vertex);
    KeptOnlyFaces(x);
  }

  lemma KeptOnlyFaces(x: Shape)
    ensures KeptSub(x, Edge) == [] == KeptSub(x, Vertex)
  {
  }

  lemma KeptSources(input: Shape, result: Shape, book: map<Shape, string>)
    requires input == FULL_INPUT || input == BARE_INPUT
    requires 1 in book && (input == FULL_INPUT ==> 2 in book)
    ensures var c := KeptRun(input, result, book);
            ValidContext(c) && forall s :: s in c.sources <==> s == 1 || (s == 2 && input == FULL_INPUT)
  {
    hide SourcesOf, WellFormed, AllInputShapes, KeptWorld;
    var w := KeptWorld();
    KeptWellFormed();
    EnrolDistinct([], AllInputShapes(w, [input]));
    SourcesAreEnrolled(w, [input]);
    SourcesAre(w, [input]);
    forall s ensures s in SourcesOf(w, [input]) <==> s == 1 || (s == 2 && input == FULL_INPUT) {
      KeptInputs(input, s);
    }
    assert IsHex8(ZEROS);
  }

  lemma KeptResult(result: Shape)
    requires result == BODY || result == BARE_BODY
    ensures ResultSet(KeptWorld(), result) == if result == BODY then {3, 4} else {3}
  {
    hide ShapesOf, KeptWorld, WellFormed;
    KeptWellFormed();
    ResultSetIs(KeptWorld(), result);
    forall x ensures x in ResultSet(KeptWorld(), result) <==> x == 3 || (x == 4 && result == BODY) {
      KeptParts(result, x);
    }
  }

  lemma KeptRoles(c: Context)
    requires c == FullRun() || c == BareRun()
    requires forall s :: s in c.sources <==> s == 1 || (s == 2 && c == FullRun())
    ensures RoleOf(c, 3) == ModifiedFrom(1) && (c == FullRun() ==> RoleOf(c, 4) == ModifiedFrom(2))
  {
    hide RoleOf, SourcesOf;
    OneParent(c, 3, 1);
    if c == FullRun() {
      OneParent(c, 4, 2);
    }
  }

  lemma KeptWorldMatches()
    ensures SameWorld(Kept(), KeptWorld(), KeptWorld()) && Inverse(Kept())
  {
    var v, w := Kept(), KeptWorld();
    forall x: Shape, k | v.of(x) ensures Covers(v, w.sub(x, k)) && w.sub(v.to(x), k) == Moved(v, w.sub(x, k)) {
      assert w.sub(x, k) == [] || w.sub(x, k) == [x];
    }
  }

  lemma KeptGroups(c: Context)
    requires c == FullRun() || c == BareRun()
    requires ValidContext(c) && RoleOf(c, 3) == ModifiedFrom(1) && (c == FullRun() ==> RoleOf(c, 4) == ModifiedFrom(2))
    requires Results(c) == if c == FullRun() then {3, 4} else {3}
    ensures Waiting(c, 3) && Siblings(c, GroupOf(c, 3).value) == {3}
    ensures Initial(c).open == {}
  {
    hide RoleOf, SourcesOf, ResultSet, WellFormed;
    assert GroupOf(c, 3) == Some(StepGroup(1, 'M', Face));
    assert c == FullRun() ==> GroupOf(c, 4) == Some(StepGroup(2, 'M', Face));
    assert Siblings(c, StepGroup(1, 'M', Face)) == {3};
    assert c == FullRun() ==> Siblings(c, StepGroup(2, 'M', Face)) == {4};
  }

  lemma KeptContainers(c: Context)
    requires c == FullRun() || c == BareRun()
    requires ValidContext(c) && Results(c) == if c == FullRun() then {3, 4} else {3}
    ensures forall f :: f in Containers(c, 3) ==> f == 3
  {
    hide SourcesOf, ResultSet, WellFormed, Containers;
    ContainersAre(c, 3);
  }

  lemma KeptBooks()
    ensures Congruent(BEFORE, LATER)
  {
    assert BEFORE == "n1:00000000.f.1" + "/" + "M.11111111";
    assert "M.11111111"[..2] == "M." && "M.11111111"[2..] == "11111111";
    PlainStepIsNeutral("n1:00000000.f.1", "M.11111111", "");
  }

  /** With the feature suppressed face 4 is gone and the book spells face 1 differently, so the two
      results do not correspond as a whole; face 3 keeps its normal form, though not its name. */
  lemma SuppressionKeepsTheRest()
    ensures var c, d := FullRun(), BareRun();
            && Aligned(false, Kept(), c, d) && !Whole(Kept(), c, d)
            && NamesOfResult(c).Some? && NamesOfResult(d).Some?
            && 4 in NamesOfResult(c).value && 4 !in NamesOfResult(d).value
            && 3 in NamesOfResult(c).value && 3 in NamesOfResult(d).value
            && Congruent(NamesOfResult(c).value[3], NamesOfResult(d).value[3])
  {
    hide NamesOfResult, Aligned, SourcesOf, ResultSet, WellFormed, Congruent;
    var c, d := FullRun(), BareRun();
    KeptAligned();
    assert c.op.result == BODY;
    CompletesWithoutSplitEdges(c);
    CompletesWithoutSplitEdges(d);
    TotalCoverage(c);
    TotalCoverage(d);
    CongruenceSurvivesOperations(Kept(), c, d, 3);
  }

  lemma KeptAligned()
    ensures var c, d := FullRun(), BareRun();
            && ValidContext(c) && ValidContext(d) && Aligned(false, Kept(), c, d)
            && Results(c) == {3, 4} && Results(d) == {3} && Initial(c).open == {} == Initial(d).open
  {
    hide SourcesOf, WellFormed, SameWorld, SameSources, SameHistory, SameIncidence, WholeGroups, SameRoots,
      SameWinnersVia, Inverse, Initial, Results, FullRun, BareRun, Kept;
    KeptFacts();
    KeptWorldMatches();
    KeptInputsMatch();
    KeptHistoryMatches();
    KeptIncidenceMatches();
    KeptRest();
    KeptWorlds();
  }

  lemma KeptWorlds()
    ensures FullRun().w == KeptWorld() == BareRun().w
  {
  }

  /** What is known of the two runs. */
  lemma KeptFacts()
    ensures var c, d := FullRun(), BareRun();
            && ValidContext(c) && ValidContext(d)
            && (forall s :: s in c.sources <==> s == 1 || s == 2) && (forall s :: s in d.sources <==> s == 1)
            && Results(c) == {3, 4} && Results(d) == {3}
            && RoleOf(c, 3) == ModifiedFrom(1) == RoleOf(d, 3)
            && Waiting(c, 3) && Siblings(c, GroupOf(c, 3).value) == {3}
            && Waiting(d, 3) && Siblings(d, GroupOf(d, 3).value) == {3}
            && (forall f :: f in Containers(c, 3) ==> f == 3) && (forall f :: f in Containers(d, 3) ==> f == 3)
            && Initial(c).open == {} == Initial(d).open
  {
    hide SourcesOf, WellFormed, RoleOf, GroupOf, ResultSet, Containers, Siblings, Initial;
    var c, d := FullRun(), BareRun();
    KeptSources(FULL_INPUT, BODY, c.book);
    KeptSources(BARE_INPUT, BARE_BODY, d.book);
    KeptResult(BODY);
    KeptResult(BARE_BODY);
    KeptRoles(c);
    KeptRoles(d);
    KeptGroups(c);
    KeptGroups(d);
    KeptContainers(c);
    KeptContainers(d);
  }

  lemma KeptInputsMatch()
    ensures SameSources(false, Kept(), FullRun(), BareRun())
  {
    hide SourcesOf, WellFormed, RoleOf, GroupOf, ResultSet, Containers, Siblings, Initial, Congruent;
    KeptFacts();
    KeptBooks();
  }

  lemma KeptHistoryMatches()
    ensures SameHistory(Kept(), FullRun(), BareRun())
  {
    hide SourcesOf, WellFormed, RoleOf, GroupOf, Containers, Siblings, Initial, Results, KeptModified, KeptWorld;
    KeptFacts();
    KeptTable();
    var v, c, d := Kept(), FullRun(), BareRun();
    forall s, x ensures Lists(c.op, s, x) <==> (s == 1 && x == 3) || (s == 2 && x == 4) {}
    forall s ensures d.op.modified(s) == c.op.modified(s) && d.op.generated(s) == c.op.generated(s) {}
  }

  lemma KeptIncidenceMatches()
    ensures SameIncidence(Kept(), FullRun(), BareRun())
  {
    hide SourcesOf, WellFormed, RoleOf, GroupOf, Containers, Siblings, Initial, Results, KeptModified, KeptWorld;
    KeptFacts();
  }

  lemma KeptTable()
    ensures forall s, x :: x in KeptModified(s) <==> (s == 1 && x == 3) || (s == 2 && x == 4)
  {
  }

  lemma KeptRest()
    ensures var c, d := FullRun(), BareRun();
            && ValidContext(c) && ValidContext(d)
            && WholeGroups(Kept(), c, d) && SameRoots(Kept(), c, d) && SameWinnersVia(Kept(), c, d)
  {
    hide SourcesOf, WellFormed, RoleOf, GroupOf, Containers, Siblings, Initial, ResultSet;
    KeptFacts();
  }
}
