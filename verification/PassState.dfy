// What the state of a naming run stands for while its passes are under way, and the single
// steps of those passes.
module PassState {
  import opened Outcomes
  import opened NameGrammar
  import opened ElementNaming
  import opened NamingProgress
  import opened NameBirths

  datatype PendingImage = PendingImage(
    shape: Shape,
    prefix: string,      // the whole name to be, less its eight last digits
    anchors: set<Shape>,
    kind: ShapeType,
    resolved: bool)

  // ---------- History images ----------

  ghost function Members(c: Context, shapes: seq<Shape>, g: Group): (r: seq<Shape>)
    requires forall s :: s in c.sources ==> s in c.book
    ensures forall x :: x in r <==> x in shapes && GroupOf(c, x) == Some(g)
  {
    if shapes == [] then []
    else
      var last := shapes[|shapes| - 1];
      assert shapes == shapes[..|shapes| - 1] + [last];
      Members(c, shapes[..|shapes| - 1], g) + (if GroupOf(c, last) == Some(g) then [last] else [])
  }

  ghost predicate ArePlans(c: Context, plans: map<Group, seq<Shape>>, shapes: seq<Shape>)
    requires forall s :: s in c.sources ==> s in c.book
  {
    && (forall g :: g in plans <==> Members(c, shapes, g) != [])
    && (forall g :: g in plans ==> plans[g] == Members(c, shapes, g))
  }

  lemma NoPlans(c: Context)
    requires forall s :: s in c.sources ==> s in c.book
    ensures ArePlans(c, map[], [])
  {
  }

  lemma PlansGrow(c: Context, plans: map<Group, seq<Shape>>, shapes: seq<Shape>, i: nat)
    requires forall s :: s in c.sources ==> s in c.book
    requires i < |shapes| && ArePlans(c, plans, shapes[..i])
    ensures var g := GroupOf(c, shapes[i]);
            if g.None? then ArePlans(c, plans, shapes[..i + 1])
            else ArePlans(c, plans[g.value := (if g.value in plans then plans[g.value] else []) + [shapes[i]]],
              shapes[..i + 1])
  {
    hide GroupOf;
    assert shapes[..i + 1][..i] == shapes[..i];
    forall g: Group ensures Members(c, shapes[..i + 1], g)
                  == Members(c, shapes[..i], g) + (if GroupOf(c, shapes[i]) == Some(g) then [shapes[i]] else []) {}
  }

  lemma ShapesDistinct(w: World, x: Shape)
    requires WellFormed(w)
    ensures Distinct(ShapesOf(w, x))
  {
    var f, e, v := w.sub(x, Face), w.sub(x, Edge), w.sub(x, Vertex);
    assert forall i :: 0 <= i < |f| ==> w.kind(f[i]) == Face by { assert forall i :: 0 <= i < |f| ==> f[i] in f; }
    assert forall i :: 0 <= i < |e| ==> w.kind(e[i]) == Edge by { assert forall i :: 0 <= i < |e| ==> e[i] in e; }
    assert forall i :: 0 <= i < |v| ==> w.kind(v[i]) == Vertex by { assert forall i :: 0 <= i < |v| ==> v[i] in v; }
  }

  lemma {:induction false} MembersDistinct(c: Context, shapes: seq<Shape>, g: Group)
    requires forall s :: s in c.sources ==> s in c.book
    requires Distinct(shapes)
    ensures Distinct(Members(c, shapes, g))
  {
    hide GroupOf;
    if shapes != [] {
      MembersDistinct(c, shapes[..|shapes| - 1], g);
    }
  }

  lemma MembersAreSiblings(c: Context, g: Group)
    requires ValidContext(c)
    ensures var images := Members(c, ShapesOf(c.w, c.op.result), g);
            && Distinct(images)
            && (forall x :: x in images <==> x in Siblings(c, g))
            && (images != [] && g.StepGroup? ==> g.source in c.book)
  {
    hide GroupOf;
    var images := Members(c, ShapesOf(c.w, c.op.result), g);
    ShapesDistinct(c.w, c.op.result);
    MembersDistinct(c, ShapesOf(c.w, c.op.result), g);
    ResultSetIs(c.w, c.op.result);
    if images != [] {
      assert images[0] in images;
      GroupSource(c, images[0]);
    }
  }

  lemma GroupSource(c: Context, x: Shape)
    requires ValidContext(c)
    ensures GroupOf(c, x).Some? && GroupOf(c, x).value.StepGroup? ==> GroupOf(c, x).value.source in c.sources
  {
  }

  /** The names bound once the groups in `done` have been dealt with. */
  ghost function NamedBy(c: Context, done: set<Group>): map<Shape, string>
    requires ValidContext(c)
  {
    map x | x in ResultSet(c.w, c.op.result) && (x in c.sources || (Sole(c, x) && GroupOf(c, x).value in done))
      :: FirstName(c, x)
  }

  ghost function OpenBy(c: Context, done: set<Group>): set<Shape>
    requires ValidContext(c)
  {
    set x | x in ResultSet(c.w, c.op.result) && GroupOf(c, x).Some? && !Sole(c, x) && GroupOf(c, x).value in done
  }

  /** Every pending image carries the prefix, anchors and kind its shape calls for, once. */
  ghost predicate ValidPending(c: Context, pending: seq<PendingImage>)
    requires ValidContext(c)
  {
    && (forall i :: 0 <= i < |pending| ==> ValidImage(c, pending[i]))
    && (forall i, j :: 0 <= i < j < |pending| ==> pending[i].shape != pending[j].shape)
  }

  ghost predicate ValidImage(c: Context, image: PendingImage)
    requires ValidContext(c)
  {
    && image.shape in ResultSet(c.w, c.op.result)
    && GroupOf(c, image.shape).Some?
    && image.prefix == Stem(c, GroupOf(c, image.shape).value) + "."
    && image.anchors == Anchors(c, image.shape)
    && image.kind == c.w.kind(image.shape)
  }

  ghost predicate PendingPart(c: Context, pending: seq<PendingImage>, shapes: set<Shape>)
    requires ValidContext(c)
  {
    && ValidPending(c, pending)
    && (forall i :: 0 <= i < |pending| ==> !pending[i].resolved)
    && Open(pending) == shapes
  }

  ghost predicate PendingFor(c: Context, pending: seq<PendingImage>, done: set<Group>)
    requires ValidContext(c)
  {
    PendingPart(c, pending, OpenBy(c, done))
  }

  lemma NamedByOne(c: Context, done: set<Group>, g: Group, x: Shape)
    requires ValidContext(c) && g !in done && x in ResultSet(c.w, c.op.result)
    requires GroupOf(c, x) == Some(g) && Siblings(c, g) == {x}
    ensures x !in NamedBy(c, done)
    ensures NamedBy(c, done + {g}) == NamedBy(c, done)[x := Stem(c, g)]
  {
    hide GroupOf, Stem, ResultSet, WellFormed;
    SurvivorHasNoGroup(c, x);
    forall y | y in ResultSet(c.w, c.op.result) && Sole(c, y) && GroupOf(c, y).value == g ensures y == x {
      assert y in Siblings(c, g);
    }
  }

  lemma NamedByNone(c: Context, done: set<Group>, g: Group)
    requires ValidContext(c)
    requires forall x :: x in Siblings(c, g) ==> !Sole(c, x)
    ensures NamedBy(c, done + {g}) == NamedBy(c, done)
  {
    hide GroupOf, Stem, ResultSet;
    assert forall y :: y in ResultSet(c.w, c.op.result) && GroupOf(c, y) == Some(g) ==> y in Siblings(c, g);
  }

  lemma NoneSole(c: Context, g: Group, x: Shape, y: Shape)
    requires ValidContext(c) && x in Siblings(c, g) && y in Siblings(c, g) && x != y
    ensures forall z :: z in Siblings(c, g) ==> !Sole(c, z)
    ensures GroupOf(c, x) == Some(g)
  {
    hide GroupOf, ResultSet;
  }

  lemma NotYetQueued(c: Context, g: Group, images: seq<Shape>, i: nat, done: set<Group>)
    requires ValidContext(c) && g !in done && i < |images|
    requires Distinct(images) && forall x :: x in images <==> x in Siblings(c, g)
    ensures images[i] in ResultSet(c.w, c.op.result) && GroupOf(c, images[i]) == Some(g)
    ensures images[i] !in OpenBy(c, done) && images[i] !in images[..i]
  {
    hide GroupOf, ResultSet;
    assert images[i] in images;
  }

  lemma OpenByMore(c: Context, done: set<Group>, g: Group)
    requires ValidContext(c) && forall x :: x in Siblings(c, g) ==> !Sole(c, x)
    ensures OpenBy(c, done + {g}) == OpenBy(c, done) + Siblings(c, g)
  {
    hide GroupOf, ResultSet, Sole;
  }

  lemma PendingKept(c: Context, pending: seq<PendingImage>, done: set<Group>, g: Group)
    requires ValidContext(c) && PendingFor(c, pending, done)
    requires exists x :: Siblings(c, g) == {x}
    ensures PendingFor(c, pending, done + {g})
  {
    hide GroupOf, Stem, ResultSet, ValidPending;
    assert forall y :: y in ResultSet(c.w, c.op.result) && GroupOf(c, y) == Some(g) ==> y in Siblings(c, g);
    assert OpenBy(c, done + {g}) == OpenBy(c, done);
  }

  lemma PendingGrows(c: Context, pending: seq<PendingImage>, shapes: set<Shape>, x: Shape, g: Group)
    requires ValidContext(c) && PendingPart(c, pending, shapes)
    requires x in ResultSet(c.w, c.op.result) && x !in shapes && GroupOf(c, x) == Some(g)
    requires g.StepGroup? ==> g.source in c.book
    ensures var image := PendingImage(x, Stem(c, g) + ".", Anchors(c, x), c.w.kind(x), false);
            PendingPart(c, pending + [image], shapes + {x})
  {
    hide GroupOf, Stem, ResultSet, Anchors;
    var image := PendingImage(x, Stem(c, g) + ".", Anchors(c, x), c.w.kind(x), false);
    var longer := pending + [image];
    assert forall i :: 0 <= i < |pending| ==> pending[i].shape in Open(pending);
    assert forall i :: 0 <= i < |longer| ==> longer[i] == if i < |pending| then pending[i] else image;
    assert Open(longer) == Open(pending) + {x} by {
      assert longer[|pending|].shape == x;
      forall y | y in Open(pending) ensures y in Open(longer) {
        var i :| 0 <= i < |pending| && !pending[i].resolved && pending[i].shape == y;
        assert longer[i].shape == y;
      }
    }
  }

  lemma NothingDone(c: Context)
    requires ValidContext(c)
    ensures NamedBy(c, {}) == Survivors(c, c.sources) && PendingFor(c, [], {})
  {
    ResultSetIs(c.w, c.op.result);
  }

  lemma AllDone(c: Context, plans: map<Group, seq<Shape>>, done: set<Group>)
    requires ValidContext(c) && ArePlans(c, plans, ShapesOf(c.w, c.op.result)) && done == plans.Keys
    ensures NamedBy(c, done) == Initial(c).names && OpenBy(c, done) == Initial(c).open
  {
    hide GroupOf, Stem, Sole, FirstName;
    ResultSetIs(c.w, c.op.result);
    forall x | x in ResultSet(c.w, c.op.result) && GroupOf(c, x).Some? ensures GroupOf(c, x).value in done {
      var g := GroupOf(c, x).value;
      assert x in Members(c, ShapesOf(c.w, c.op.result), g);
    }
    forall x ensures Sole(c, x) ==> GroupOf(c, x).Some? {
      SoleIsGrouped(c, x);
    }
  }

  lemma PendingAll(c: Context, pending: seq<PendingImage>, done: set<Group>)
    requires ValidContext(c) && PendingFor(c, pending, done)
    ensures ValidPending(c, pending) && Open(pending) == OpenBy(c, done)
  {
  }

  lemma SoleIsGrouped(c: Context, x: Shape)
    requires ValidContext(c)
    ensures Sole(c, x) ==> GroupOf(c, x).Some?
  {
  }

  ghost function Listed(incidence: map<Shape, seq<Shape>>, x: Shape): seq<Shape> {
    if x in incidence then incidence[x] else []
  }

  ghost predicate IsIncidence(c: Context, edgeFaces: map<Shape, seq<Shape>>, vertexEdges: map<Shape, seq<Shape>>) {
    && (forall x :: x in c.w.sub(c.op.result, Edge) ==> Listed(edgeFaces, x) == Containers(c, x))
    && (forall x :: x in c.w.sub(c.op.result, Vertex) ==> Listed(vertexEdges, x) == Containers(c, x))
  }

  lemma HoldingSnoc(w: World, xs: seq<Shape>, i: nat, k: ShapeType)
    requires i <= |xs|
    ensures forall x :: Holding(w, xs[..0], x) == []
    ensures i < |xs| ==> forall x :: w.kind(x) == k ==>
      Holding(w, xs[..i + 1], x) == Holding(w, xs[..i], x) + (if x in w.sub(xs[i], k) then [xs[i]] else [])
  {
    if i < |xs| {
      forall x | w.kind(x) == k
        ensures Holding(w, xs[..i + 1], x) == Holding(w, xs[..i], x) + (if x in w.sub(xs[i], k) then [xs[i]] else [])
      {
        assert xs[..i + 1] == xs[..i] + [xs[i]];
        HoldingAppend(w, xs[..i], xs[i], x);
      }
    }
  }

  lemma {:induction false} HoldingAppend(w: World, xs: seq<Shape>, f: Shape, x: Shape)
    ensures Holding(w, xs + [f], x) == Holding(w, xs, x) + (if x in w.sub(f, w.kind(x)) then [f] else [])
  {
    if xs != [] {
      assert (xs + [f])[1..] == xs[1..] + [f];
      HoldingAppend(w, xs[1..], f, x);
    }
  }

  /** Reconstruction of one kind after looking at the first few entities. */
  ghost function Rebuilt(c: Context, names: map<Shape, string>, entities: seq<Shape>): map<Shape, string> {
    names + map x | x in entities && Reconstructible(c, names, x) :: BoundName(c, names, x)
  }

  lemma RebuiltNone(c: Context, names: map<Shape, string>, k: ShapeType)
    ensures Rebuilt(c, names, []) == names
    ensures Rebuilt(c, names, c.w.sub(c.op.result, k)) == ReconstructKind(c, names, k)
  {
    hide Reconstructible, BoundName;
  }

  lemma RebuiltAt(c: Context, names: map<Shape, string>, entities: seq<Shape>, x: Shape)
    ensures x in Rebuilt(c, names, entities) <==> x in names || (x in entities && Reconstructible(c, names, x))
    ensures x in names ==> Rebuilt(c, names, entities)[x] == names[x]
    ensures x in Rebuilt(c, names, entities) && x !in names ==>
      Reconstructible(c, names, x) && Rebuilt(c, names, entities)[x] == BoundName(c, names, x)
  {
    UnnamedOnly(c, names, x);
  }

  /** Entities of one kind do not contain each other, so the order they are taken in is immaterial. */
  lemma RebuiltStep(c: Context, names: map<Shape, string>, k: ShapeType, entities: seq<Shape>, i: nat)
    requires ValidContext(c) && k in {Edge, Vertex} && entities == c.w.sub(c.op.result, k) && i < |entities|
    ensures var x := entities[i];
            var now := Rebuilt(c, names, entities[..i]);
            && Reconstructible(c, now, x) == Reconstructible(c, names, x)
            && (x in now <==> x in names)
            && (Reconstructible(c, now, x) ==> BoundName(c, now, x) == BoundName(c, names, x))
            && Rebuilt(c, names, entities[..i + 1])
            == if Reconstructible(c, names, x) then now[x := BoundName(c, names, x)] else now
  {
    hide HashNames, Rebuilt, Containers, WellFormed;
    var x := entities[i];
    var now := Rebuilt(c, names, entities[..i]);
    EntitiesApart(c, k, i);
    RebuiltAt(c, names, entities[..i], x);
    forall f | f in Containers(c, x) ensures f in now <==> f in names
      ensures f in now ==> now[f] == names[f]
    {
      RebuiltAt(c, names, entities[..i], f);
    }
    if Reconstructible(c, names, x) {
      assert NormalNames(now, Containers(c, x)) == NormalNames(names, Containers(c, x));
    }
    RebuiltMore(c, names, entities, i);
  }

  lemma RebuiltMore(c: Context, names: map<Shape, string>, entities: seq<Shape>, i: nat)
    requires i < |entities|
    ensures var x := entities[i];
            var now := Rebuilt(c, names, entities[..i]);
            Rebuilt(c, names, entities[..i + 1])
            == if Reconstructible(c, names, x) then now[x := BoundName(c, names, x)] else now
  {
    hide Reconstructible, BoundName, Rebuilt;
    var x := entities[i];
    var now, next := Rebuilt(c, names, entities[..i]), Rebuilt(c, names, entities[..i + 1]);
    assert entities[..i + 1] == entities[..i] + [x];
    UnnamedOnly(c, names, x);
    forall y
      ensures y in next <==> y in now || (y == x && Reconstructible(c, names, x))
      ensures y in next ==> next[y] == if y == x && Reconstructible(c, names, x) then BoundName(c, names, x) else now[y]
    {
      RebuiltAt(c, names, entities[..i], y);
      RebuiltAt(c, names, entities[..i + 1], y);
    }
    assert next == if Reconstructible(c, names, x) then now[x := BoundName(c, names, x)] else now;
  }

  lemma UnnamedOnly(c: Context, names: map<Shape, string>, x: Shape)
    ensures Reconstructible(c, names, x) ==> x !in names && forall f :: f in Containers(c, x) ==> f in names
  {
  }

  lemma EntitiesApart(c: Context, k: ShapeType, i: nat)
    requires ValidContext(c) && k in {Edge, Vertex} && i < |c.w.sub(c.op.result, k)|
    ensures var entities := c.w.sub(c.op.result, k);
            && c.w.kind(entities[i]) == k && entities[i] !in entities[..i]
            && (forall f :: f in Containers(c, entities[i]) ==> f !in entities[..i])
  {
    var entities := c.w.sub(c.op.result, k);
    assert entities[i] in entities;
    forall y | y in entities[..i] ensures c.w.kind(y) == k {
      assert y in entities;
    }
  }

  // ---------- Whole runs ----------

  lemma InterleaveUnfold(c: Context, p: Progress, turns: nat)
    requires ValidContext(c) && ValidProgress(c, p)
    ensures Interleave(c, p, turns) ==
      if turns == 0 then Some(p)
      else if Turn(c, p).None? || Turn(c, p).value == p then Turn(c, p)
      else Interleave(c, Turn(c, p).value, turns - 1)
  {
    hide Turn, ValidContext, ValidProgress;
  }

  /** A turn changed something exactly when one of its two halves reported progress. */
  lemma TurnShows(c: Context, p: Progress, swept: bool, rebuilt: bool)
    requires ValidContext(c) && ValidProgress(c, p) && Resolve(c, p, false).Some?
    requires swept <==> Resolve(c, p, false).value.open != p.open
    requires var q := Resolve(c, p, false).value; rebuilt <==> LowerBound(c, q.names).Keys != q.names.Keys
    ensures Turn(c, p).Some? && (Turn(c, p).value != p <==> swept || rebuilt)
  {
    hide Resolve, LowerBound, ValidContext, ValidProgress;
    var q := Resolve(c, p, false).value;
    ResolveExtends(c, p, false);
    LowerBoundStandstill(c, q.names);
    ResolveStandstill(c, p);
  }

  /** A sweep that settles no sibling binds no name. */
  lemma ResolveStandstill(c: Context, p: Progress)
    requires ValidContext(c) && ValidProgress(c, p) && Resolve(c, p, false).Some?
    ensures Resolve(c, p, false).value.open == p.open ==> Resolve(c, p, false).value == p
  {
    hide ValidContext, ValidProgress, SiblingName, Ready, Clash;
    var v := ResolveKind(c, p, Vertex, false).value;
    ResolveKindExtends(c, p, Vertex, false);
    ResolveKindExtends(c, v, Edge, false);
    var e := ResolveKind(c, v, Edge, false).value;
    ResolveKindExtends(c, e, Face, false);
    var f := ResolveKind(c, e, Face, false).value;
    if f.open == p.open {
      assert v.open == p.open && e.open == p.open;
      ReadyWaits(c, p, Vertex, false);
      ReadyWaits(c, v, Edge, false);
      ReadyWaits(c, e, Face, false);
      assert f.names.Keys == p.names.Keys;
      assert f.names == p.names;
    }
  }

  ghost predicate Rebinds(names: map<Shape, string>, found: map<Shape, string>) {
    exists x :: x in found && x in names && names[x] != found[x]
  }

  /** What applying an operation makes of the book; None when it refuses. */
  ghost function Applied(w: World, op: Operation, names: map<Shape, string>): Option<map<Shape, string>>
    requires WellFormed(w) && IsHex8(op.prefix)
  {
    if exists s :: s in AllInputShapes(w, op.inputs) && s !in names then None
    else
      SourcesNamed(w, op, names);
      var found := NamesOfResult(Context(w, op, names, SourcesOf(w, op.inputs), GUARD));
      if found.None? || Rebinds(names, found.value) then None else Some(names + found.value)
  }

  /** Whatever an operation added to the book, refusing or not, is a name its passes found. */
  ghost predicate ByOperation(w: World, op: Operation, before: map<Shape, string>, after: map<Shape, string>)
    requires WellFormed(w) && IsHex8(op.prefix)
  {
    before == after
    || ((forall s :: s in AllInputShapes(w, op.inputs) ==> s in before)
        && (SourcesNamed(w, op, before);
            var found := NamesOfResult(Context(w, op, before, SourcesOf(w, op.inputs), GUARD));
            found.Some? && forall x :: x in after && x !in before ==> x in found.value && after[x] == found.value[x]))
  }

  lemma SourcesNamed(w: World, op: Operation, names: map<Shape, string>)
    requires WellFormed(w) && IsHex8(op.prefix)
    requires forall s :: s in AllInputShapes(w, op.inputs) ==> s in names
    ensures ValidContext(Context(w, op, names, SourcesOf(w, op.inputs), GUARD))
  {
    EnrolDistinct([], AllInputShapes(w, op.inputs));
  }

  lemma IncidenceRead(c: Context, edgeFaces: map<Shape, seq<Shape>>, vertexEdges: map<Shape, seq<Shape>>)
    requires ValidContext(c)
    requires forall x :: x in c.w.sub(c.op.result, Edge) ==>
      (if x in edgeFaces then edgeFaces[x] else []) == Holding(c.w, c.w.sub(c.op.result, Face), x)
    requires forall x :: x in c.w.sub(c.op.result, Vertex) ==>
      (if x in vertexEdges then vertexEdges[x] else []) == Holding(c.w, c.w.sub(c.op.result, Edge), x)
    ensures IsIncidence(c, edgeFaces, vertexEdges)
  {
  }

  // ---------- Birth registrations ----------

  lemma BirthsCover(w: World, shape: Shape)
    ensures forall prefix :: Births(w, prefix, shape).Keys == ResultSet(w, shape)
  {
    hide BirthName, ResultSet;
  }

  ghost function AddedPrimitive(w: World, id: string, shape: Shape, names: map<Shape, string>)
    : Option<map<Shape, string>> {
    var prefix := OperationIdPrefix(id);
    if prefix.None? || Rebinds(names, Births(w, prefix.value, shape)) then None
    else Some(names + Births(w, prefix.value, shape))
  }

  ghost function AddedDerived(w: World, id: string, shape: Shape, names: map<Shape, string>)
    : Option<map<Shape, string>> {
    var prefix := OperationIdPrefix(id);
    if prefix.None? then None else Some(Births(w, prefix.value, shape) + names)
  }

  ghost function AppliedById(
    w: World, id: string, inputs: seq<Shape>, result: Shape,
    modified: Shape -> seq<Shape>, generated: Shape -> seq<Shape>, names: map<Shape, string>)
    : Option<map<Shape, string>>
    requires WellFormed(w)
  {
    var prefix := OperationIdPrefix(id);
    if prefix.None? then None
    else Applied(w, Operation(prefix.value, inputs, result, modified, generated), names)
  }

  ghost function ShapesOfKinds(w: World, shape: Shape, kinds: seq<ShapeType>): seq<Shape> {
    if kinds == [] then []
    else ShapesOfKinds(w, shape, kinds[..|kinds| - 1]) + w.sub(shape, kinds[|kinds| - 1])
  }

  lemma ShapesOfKindsSnoc(w: World, shape: Shape, kinds: seq<ShapeType>, i: nat)
    requires i < |kinds|
    ensures ShapesOfKinds(w, shape, kinds[..i + 1]) == ShapesOfKinds(w, shape, kinds[..i]) + w.sub(shape, kinds[i])
  {
    assert kinds[..i + 1][..i] == kinds[..i];
  }

  lemma ShapesOfKindsAll(w: World, shape: Shape, kinds: seq<ShapeType>)
    requires kinds == [Face, Edge, Vertex]
    ensures ShapesOfKinds(w, shape, kinds[..|kinds|]) == ShapesOf(w, shape)
  {
    ShapesOfKindsSnoc(w, shape, kinds, 0);
    ShapesOfKindsSnoc(w, shape, kinds, 1);
    ShapesOfKindsSnoc(w, shape, kinds, 2);
    assert ShapesOfKinds(w, shape, kinds[..0]) == [];
  }

  lemma BirthAt(w: World, prefix: string, shape: Shape, k: ShapeType, j: nat)
    requires WellFormed(w) && k in {Face, Edge, Vertex} && j < |w.sub(shape, k)|
    ensures var x := w.sub(shape, k)[j];
            x in Births(w, prefix, shape) && Births(w, prefix, shape)[x] == PrimitiveName(prefix, k, j + 1)
  {
    var xs := w.sub(shape, k);
    assert xs[j] in xs;
    ResultSetIs(w, shape);
    assert InResult(w, shape, xs[j]);
    var o := Ordinal(xs, xs[j]);
    assert o - 1 == j by {
      assert xs[o - 1] == xs[j];
      assert Distinct(xs);
    }
  }

  ghost predicate BoundSoFar(
    before: map<Shape, string>, births: map<Shape, string>, names: map<Shape, string>, bound: seq<Shape>)
  {
    && Extends(before, names)
    && (forall x :: x in names <==> x in before || x in bound)
    && (forall x :: x in bound ==> x in births && names[x] == births[x])
  }

  lemma BindingStarts(before: map<Shape, string>, births: map<Shape, string>)
    ensures BoundSoFar(before, births, before, [])
  {
  }

  lemma BindingParts(w: World, prefix: string, shape: Shape, before: map<Shape, string>, names: map<Shape, string>)
    requires exists bound :: BoundSoFar(before, Births(w, prefix, shape), names, bound)
    ensures Extends(before, names)
    ensures forall x :: x in names && x !in before ==>
      x in ResultSet(w, shape) && names[x] == Births(w, prefix, shape)[x]
  {
  }

  lemma BindingGrows(
    before: map<Shape, string>, births: map<Shape, string>, names: map<Shape, string>, bound: seq<Shape>, x: Shape)
    requires BoundSoFar(before, births, names, bound) && x in births
    requires x in names ==> names[x] == births[x]
    ensures BoundSoFar(before, births, names[x := births[x]], bound + [x])
  {
  }

  lemma BindingRefused(
    before: map<Shape, string>, births: map<Shape, string>, names: map<Shape, string>, bound: seq<Shape>, x: Shape)
    requires BoundSoFar(before, births, names, bound) && x in births
    requires x in names && names[x] != births[x]
    ensures Rebinds(before, births)
  {
    assert x in before && before[x] == names[x];
  }

  lemma BindingDone(
    w: World, prefix: string, shape: Shape, before: map<Shape, string>, names: map<Shape, string>, bound: seq<Shape>)
    requires WellFormed(w) && bound == ShapesOf(w, shape)
    requires BoundSoFar(before, Births(w, prefix, shape), names, bound)
    ensures var births := Births(w, prefix, shape); !Rebinds(before, births) && names == before + births
  {
    hide BirthName, ResultSet, ShapesOf, WellFormed;
    ResultSetIs(w, shape);
    var births := Births(w, prefix, shape);
    assert births.Keys == ResultSet(w, shape);
    forall x ensures x in births <==> x in bound {}
  }

  ghost function DerivedSoFar(before: map<Shape, string>, births: map<Shape, string>, bound: seq<Shape>)
    : map<Shape, string> {
    (map x | x in births && x in bound :: births[x]) + before
  }

  lemma DerivingStarts(before: map<Shape, string>, births: map<Shape, string>)
    ensures DerivedSoFar(before, births, []) == before
  {
  }

  lemma DerivingDone(w: World, prefix: string, shape: Shape, before: map<Shape, string>)
    requires WellFormed(w)
    ensures DerivedSoFar(before, Births(w, prefix, shape), ShapesOf(w, shape)) == Births(w, prefix, shape) + before
  {
    ResultSetIs(w, shape);
  }

  lemma DerivedGrows(before: map<Shape, string>, births: map<Shape, string>, bound: seq<Shape>, x: Shape)
    requires x in births
    ensures DerivedSoFar(before, births, bound + [x])
         == if x in DerivedSoFar(before, births, bound) then DerivedSoFar(before, births, bound)
            else DerivedSoFar(before, births, bound)[x := births[x]]
  {
  }

  // ---------- Sweeps ----------

  /** The state of a sweep of kind k after looking at the first i images; `done` are the shapes it named. */
  ghost predicate Swept(
    c: Context, p: Progress, queue: seq<PendingImage>, pending: seq<PendingImage>,
    names: map<Shape, string>, done: set<Shape>, k: ShapeType, force: bool, i: nat)
    requires ValidContext(c) && ValidProgress(c, p)
  {
    && |pending| == |queue| && i <= |queue|
    && (forall j :: 0 <= j < |queue| ==>
          pending[j] == queue[j].(resolved := queue[j].resolved || queue[j].shape in done))
    && done <= ReadyOfKind(c, p, k, force)
    && (forall j :: 0 <= j < i && queue[j].shape in ReadyOfKind(c, p, k, force) ==> queue[j].shape in done)
    && (forall j :: i <= j < |queue| ==> queue[j].shape !in done)
    && (forall x :: x in done ==> !Clash(c, p.names, x))
    && names == p.names + map x | x in done :: SiblingName(c, p.names, x)
  }

  /** Names of shapes of x's own kind change nothing x depends on. */
  lemma SameKindUnseen(c: Context, names: map<Shape, string>, later: map<Shape, string>, x: Shape, force: bool)
    requires ValidContext(c)
    requires forall y :: c.w.kind(y) != c.w.kind(x) ==> (y in later <==> y in names)
    requires forall y :: c.w.kind(y) != c.w.kind(x) && y in names ==> later[y] == names[y]
    ensures Ready(c, later, x, force) == Ready(c, names, x, force)
    ensures Disambiguator(c, later, x) == Disambiguator(c, names, x)
  {
    hide HashNames, Anchors, Nested, Distinct;
    if c.w.kind(x) != Vertex {
      assert forall y :: y in Lower(c, x) ==> c.w.kind(y) != c.w.kind(x);
      if LowerNamed(c, later, x) {
        assert NormalNames(later, Lower(c, x)) == NormalNames(names, Lower(c, x));
      }
    }
  }

  /** Naming images of one kind changes nothing another image of that kind depends on. */
  lemma SweepStep(
    c: Context, p: Progress, queue: seq<PendingImage>, pending: seq<PendingImage>,
    names: map<Shape, string>, done: set<Shape>, k: ShapeType, force: bool, i: nat)
    requires ValidContext(c) && ValidProgress(c, p)
    requires ValidPending(c, queue) && p.open == Open(queue)
    requires Swept(c, p, queue, pending, names, done, k, force, i) && i < |queue|
    requires !pending[i].resolved && queue[i].kind == k
    ensures Waiting(c, queue[i].shape)
    ensures var x := queue[i].shape;
            && ValidImage(c, pending[i]) && x in p.open
            && Ready(c, names, x, force) == Ready(c, p.names, x, force)
            && Disambiguator(c, names, x) == Disambiguator(c, p.names, x)
            && pending[i].prefix + Disambiguator(c, p.names, x) == SiblingName(c, p.names, x)
            && (Clash(c, p.names, x) <==> x in names && names[x] != SiblingName(c, p.names, x))
            && (x in ReadyOfKind(c, p, k, force) <==> Ready(c, p.names, x, force))
  {
    hide GroupOf, Stem, Anchors, RoleOf, HashNames, ResultSet, WellFormed, Ready, Disambiguator;
    var x := queue[i].shape;
    SameKindUnseen(c, p.names, names, x, force);
  }

  lemma OpenIs(queue: seq<PendingImage>)
    ensures forall i :: 0 <= i < |queue| && !queue[i].resolved ==> queue[i].shape in Open(queue)
    ensures forall x :: x in Open(queue) ==> exists i :: 0 <= i < |queue| && !queue[i].resolved && queue[i].shape == x
  {
  }

  lemma SweepStart(c: Context, p: Progress, queue: seq<PendingImage>, k: ShapeType, force: bool)
    requires ValidContext(c) && ValidProgress(c, p)
    ensures Swept(c, p, queue, queue, p.names, {}, k, force, 0)
  {
  }

  lemma SweptImage(
    c: Context, p: Progress, queue: seq<PendingImage>, pending: seq<PendingImage>,
    names: map<Shape, string>, done: set<Shape>, k: ShapeType, force: bool, i: nat)
    requires ValidContext(c) && ValidProgress(c, p) && i < |queue|
    requires Swept(c, p, queue, pending, names, done, k, force, i)
    ensures |pending| == |queue| && pending[i] == queue[i]
  {
  }

  lemma SweepSkip(
    c: Context, p: Progress, queue: seq<PendingImage>, pending: seq<PendingImage>,
    names: map<Shape, string>, done: set<Shape>, k: ShapeType, force: bool, i: nat)
    requires ValidContext(c) && ValidProgress(c, p) && i < |queue|
    requires ValidPending(c, queue) && p.open == Open(queue)
    requires Swept(c, p, queue, pending, names, done, k, force, i)
    requires queue[i].resolved || queue[i].kind != k || queue[i].shape !in ReadyOfKind(c, p, k, force)
    ensures Swept(c, p, queue, pending, names, done, k, force, i + 1)
  {
    hide SiblingName, GroupOf, Stem, Anchors, Ready, ResultSet, Clash;
    assert queue[i].shape !in ReadyOfKind(c, p, k, force) by {
      assert queue[i].kind == c.w.kind(queue[i].shape);
      if queue[i].resolved {
        OpenIs(queue);
      }
    }
  }

  lemma SweepTake(
    c: Context, p: Progress, queue: seq<PendingImage>, pending: seq<PendingImage>,
    names: map<Shape, string>, done: set<Shape>, k: ShapeType, force: bool, i: nat)
    requires ValidContext(c) && ValidProgress(c, p) && i < |queue|
    requires ValidPending(c, queue) && p.open == Open(queue)
    requires Swept(c, p, queue, pending, names, done, k, force, i) && |pending| == |queue|
    requires queue[i].shape in ReadyOfKind(c, p, k, force)
    ensures Waiting(c, queue[i].shape)
    ensures var x := queue[i].shape;
            !Clash(c, p.names, x) ==>
            Swept(c, p, queue, pending[i := queue[i].(resolved := true)],
                  names[x := SiblingName(c, p.names, x)], done + {x}, k, force, i + 1)
  {
    hide SiblingName, GroupOf, Stem, Anchors, Ready, ResultSet, ValidImage, Clash, ReadyOfKind;
    ReadyWaits(c, p, k, force);
    var x := queue[i].shape;
    forall j | 0 <= j < |queue| && j != i ensures queue[j].shape != x {}
    if !Clash(c, p.names, x) {
      NamesTaken(c, p, names, done, x);
    }
  }

  lemma NamesTaken(c: Context, p: Progress, names: map<Shape, string>, done: set<Shape>, x: Shape)
    requires ValidContext(c) && Waiting(c, x) && forall y :: y in done ==> Waiting(c, y)
    requires names == p.names + map y | y in done :: SiblingName(c, p.names, y)
    ensures names[x := SiblingName(c, p.names, x)]
         == p.names + map y | y in done + {x} :: SiblingName(c, p.names, y)
  {
    hide SiblingName, GroupOf, ValidContext;
  }

  lemma ReadyWaits(c: Context, p: Progress, k: ShapeType, force: bool)
    requires ValidContext(c) && ValidProgress(c, p)
    ensures ReadyOfKind(c, p, k, force) <= p.open
    ensures forall x :: x in ReadyOfKind(c, p, k, force) ==> Waiting(c, x)
  {
  }

  lemma SweepClash(c: Context, p: Progress, k: ShapeType, force: bool, x: Shape)
    requires ValidContext(c) && ValidProgress(c, p)
    requires x in ReadyOfKind(c, p, k, force) && Waiting(c, x) && Clash(c, p.names, x)
    ensures ResolveKind(c, p, k, force).None?
  {
  }

  lemma SweptDone(
    c: Context, p: Progress, queue: seq<PendingImage>, pending: seq<PendingImage>,
    names: map<Shape, string>, done: set<Shape>, k: ShapeType, force: bool)
    requires ValidContext(c) && ValidProgress(c, p) && p.open == Open(queue)
    requires Swept(c, p, queue, pending, names, done, k, force, |queue|)
    ensures done == ReadyOfKind(c, p, k, force)
  {
    hide SiblingName, GroupOf, ResultSet, Clash, WellFormed, Open, ReadyOfKind;
    OpenIs(queue);
    ReadyWaits(c, p, k, force);
    forall x | x in ReadyOfKind(c, p, k, force) ensures x in done {
      var i :| 0 <= i < |queue| && !queue[i].resolved && queue[i].shape == x;
    }
  }

  lemma SweptOpen(
    c: Context, p: Progress, queue: seq<PendingImage>, pending: seq<PendingImage>,
    names: map<Shape, string>, done: set<Shape>, k: ShapeType, force: bool)
    requires ValidContext(c) && ValidProgress(c, p) && p.open == Open(queue)
    requires Swept(c, p, queue, pending, names, done, k, force, |queue|)
    ensures Open(pending) == p.open - done
  {
    hide SiblingName, GroupOf, ResultSet, Clash, WellFormed, Open, ReadyOfKind;
    OpenIs(queue);
    OpenIs(pending);
    forall x ensures x in Open(pending) <==> x in p.open && x !in done {
      if x in p.open && x !in done {
        var i :| 0 <= i < |queue| && !queue[i].resolved && queue[i].shape == x;
        assert pending[i] == queue[i];
      }
      if x in Open(pending) {
        var i :| 0 <= i < |pending| && !pending[i].resolved && pending[i].shape == x;
        assert queue[i].shape == x;
      }
    }
  }

  lemma SweptValid(
    c: Context, p: Progress, queue: seq<PendingImage>, pending: seq<PendingImage>,
    names: map<Shape, string>, done: set<Shape>, k: ShapeType, force: bool)
    requires ValidContext(c) && ValidProgress(c, p) && ValidPending(c, queue)
    requires Swept(c, p, queue, pending, names, done, k, force, |queue|)
    ensures ValidPending(c, pending)
  {
    hide SiblingName, GroupOf, Stem, Anchors, ResultSet, Clash, WellFormed, ReadyOfKind;
  }

  lemma SweepEnd(
    c: Context, p: Progress, queue: seq<PendingImage>, pending: seq<PendingImage>,
    names: map<Shape, string>, done: set<Shape>, k: ShapeType, force: bool)
    requires ValidContext(c) && ValidProgress(c, p)
    requires ValidPending(c, queue) && p.open == Open(queue)
    requires Swept(c, p, queue, pending, names, done, k, force, |queue|)
    ensures ResolveKind(c, p, k, force) == Some(Progress(names, Open(pending)))
    ensures ValidPending(c, pending)
    ensures Open(pending) != p.open <==> done != {}
  {
    hide SiblingName, GroupOf, ResultSet, Clash, WellFormed, Open, ReadyOfKind, ValidPending;
    ReadyWaits(c, p, k, force);
    SweptDone(c, p, queue, pending, names, done, k, force);
    SweptOpen(c, p, queue, pending, names, done, k, force);
    SweptValid(c, p, queue, pending, names, done, k, force);
  }

  lemma RebuildUnfold(c: Context, names: map<Shape, string>, turns: nat)
    ensures Rebuild(c, names, turns)
         == if turns == 0 || LowerBound(c, names) == names then names
            else Rebuild(c, LowerBound(c, names), turns - 1)
  {
    hide LowerBound;
  }

  /** Shapes of the pending images that have no name yet. */
  ghost function Open(pending: seq<PendingImage>): set<Shape> {
    set i | 0 <= i < |pending| && !pending[i].resolved :: pending[i].shape
  }

  ghost function Survivors(c: Context, xs: seq<Shape>): map<Shape, string>
    requires forall x :: x in xs ==> x in c.book
  {
    map x | x in xs && InResult(c.w, c.op.result, x) :: c.book[x]
  }

  lemma SurvivorsNone(c: Context)
    ensures Survivors(c, []) == map[]
  {
  }

  lemma SurvivorsMore(c: Context, xs: seq<Shape>, i: nat)
    requires i < |xs| && forall x :: x in xs ==> x in c.book
    ensures var now := Survivors(c, xs[..i]);
            && (xs[i] in now ==> now[xs[i]] == c.book[xs[i]])
            && Survivors(c, xs[..i + 1]) == if InResult(c.w, c.op.result, xs[i]) then now[xs[i] := c.book[xs[i]]]
              else now
  {
    hide InResult;
    assert xs[..i + 1] == xs[..i] + [xs[i]];
  }

  ghost function At(reverse: map<Shape, seq<nat>>, x: Shape): seq<nat> {
    if x in reverse then reverse[x] else []
  }

  ghost predicate NoEmptyLists(reverse: map<Shape, seq<nat>>) {
    forall x :: x in reverse ==> reverse[x] != []
  }

  /** The lists once ordinal o has been added for the given images. */
  ghost predicate ListsSoFar(
    w: World, result: Shape, before: map<Shape, seq<nat>>, after: map<Shape, seq<nat>>, images: seq<Shape>, o: nat)
  {
    && NoEmptyLists(after)
    && forall x :: At(after, x) == At(before, x) + (if InResult(w, result, x) && x in images then [o] else [])
  }

  lemma ListStarts(w: World, result: Shape, before: map<Shape, seq<nat>>, o: nat)
    requires NoEmptyLists(before)
    ensures ListsSoFar(w, result, before, before, [], o)
  {
    hide InResult;
  }

  /** One image more: listed where it is in the result and not listed yet. */
  lemma ListsOneMore(
    w: World, result: Shape, before: map<Shape, seq<nat>>, after: map<Shape, seq<nat>>, images: seq<Shape>,
    image: Shape, o: nat)
    requires ListsSoFar(w, result, before, after, images, o) && o !in At(before, image)
    ensures var parents := if image in after then after[image] else [];
            ListsSoFar(w, result, before,
                       if InResult(w, result, image) && o !in parents then after[image := parents + [o]] else after,
                       images + [image], o)
  {
    hide InResult;
    var parents := At(after, image);
    assert InResult(w, result, image) ==> (o in parents <==> image in images);
  }

  ghost function ResultParents(
    w: World, result: Shape, history: Shape -> seq<Shape>, sources: seq<Shape>, x: Shape, n: nat): seq<nat>
    requires n <= |sources|
  {
    if InResult(w, result, x) then Parents(history, sources, x, n) else []
  }

  lemma ParentsStep(w: World, result: Shape, history: Shape -> seq<Shape>, sources: seq<Shape>, n: nat)
    requires n <= |sources|
    ensures forall x :: n !in ResultParents(w, result, history, sources, x, n)
    ensures n < |sources| ==> forall x ::
      ResultParents(w, result, history, sources, x, n + 1)
      == ResultParents(w, result, history, sources, x, n)
       + (if InResult(w, result, x) && x in history(sources[n]) then [n] else [])
  {
    hide InResult;
  }

  lemma ReverseStarts(w: World, result: Shape, history: Shape -> seq<Shape>, sources: seq<Shape>)
    ensures IsReverse(w, result, history, sources, map[], 0)
  {
  }

  ghost predicate IsReverse(
    w: World, result: Shape, history: Shape -> seq<Shape>, sources: seq<Shape>, reverse: map<Shape, seq<nat>>, n: nat)
    requires n <= |sources|
  {
    NoEmptyLists(reverse)
    && forall x :: At(reverse, x) == ResultParents(w, result, history, sources, x, n)
  }

  lemma EnrolNothing(sources: seq<Shape>)
    ensures Enrol(sources, []) == sources
  {
  }

  lemma EnrolOne(sources: seq<Shape>, shapes: seq<Shape>, x: Shape)
    ensures var r := Enrol(sources, shapes);
            Enrol(sources, shapes + [x]) == if x in r then r else r + [x]
  {
    EnrolAppend(sources, shapes, [x]);
    assert [x][1..] == [];
  }

  lemma AllInputShapesSplit(w: World, inputs: seq<Shape>, i: nat)
    requires i <= |inputs|
    ensures AllInputShapes(w, inputs[i..])
         == if i < |inputs| then ShapesOf(w, inputs[i]) + AllInputShapes(w, inputs[i + 1..]) else []
    ensures inputs[0..] == inputs
  {
    if i < |inputs| {
      assert inputs[i..][1..] == inputs[i + 1..];
    }
  }
}
