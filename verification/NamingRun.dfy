// The naming run as it is carried out: passes that bind into one map, flip the `resolved`
// flags of the pending images, loop to a fixpoint under a guard, and merge into the book.
module NamingRun {
  import opened Outcomes
  import opened NameGrammar
  import opened ElementNaming
  import opened NameDigest
  import opened NamingProgress
  import opened NamingSolution
  import opened NameBirths
  import opened PassState

  /** The lineage names of every live sub-shape. */
  class ElementNameBook {
    var names: map<Shape, string>

    constructor ()
      ensures names == map[]
    {
      names := map[];
    }

    /** Roots every sub-shape of a primitive, refusing to register one twice under another name. */
    method AddPrimitive(operationId: string, w: World, shape: Shape) returns (ok: bool)
      requires WellFormed(w)
      modifies this
      ensures ok == AddedPrimitive(w, operationId, shape, old(names)).Some?
      ensures ok ==> names == AddedPrimitive(w, operationId, shape, old(names)).value
      ensures Extends(old(names), names)
      ensures forall x :: x in names && x !in old(names) ==>
        var prefix := OperationIdPrefix(operationId);
        prefix.Some? && x in ResultSet(w, shape) && names[x] == Births(w, prefix.value, shape)[x]
      ensures ok <==> var prefix := OperationIdPrefix(operationId);
        prefix.Some? && forall x :: x in Births(w, prefix.value, shape) && x in old(names) ==>
          old(names)[x] == Births(w, prefix.value, shape)[x]
      ensures ok ==> forall x :: x in ResultSet(w, shape) ==> x in names
    {
      hide Births, BoundSoFar, ResultSet, WellFormed;
      BirthsCover(w, shape);
      var prefix := ReadOperationIdPrefix(operationId);
      if prefix.None? {
        return false;
      }
      ghost var births := Births(w, prefix.value, shape);
      ghost var before := names;
      var kinds := [Face, Edge, Vertex];
      ghost var bound: seq<Shape> := [];
      BindingStarts(before, births);
      for i := 0 to |kinds|
        invariant bound == ShapesOfKinds(w, shape, kinds[..i])
        invariant BoundSoFar(before, births, names, bound)
      {
        ok := BindKind(w, prefix.value, shape, kinds[i], before, bound);
        if !ok {
          BindingParts(w, prefix.value, shape, before, names);
          return;
        }
        ShapesOfKindsSnoc(w, shape, kinds, i);
        bound := bound + w.sub(shape, kinds[i]);
      }
      ShapesOfKindsAll(w, shape, kinds);
      BindingDone(w, prefix.value, shape, before, names, bound);
      BindingParts(w, prefix.value, shape, before, names);
      ok := true;
    }

    method BindKind(w: World, prefix: string, shape: Shape, k: ShapeType,
                    ghost before: map<Shape, string>, ghost bound: seq<Shape>) returns (ok: bool)
      requires WellFormed(w) && k in {Face, Edge, Vertex}
      requires BoundSoFar(before, Births(w, prefix, shape), names, bound)
      modifies this
      ensures ok ==> BoundSoFar(before, Births(w, prefix, shape), names, bound + w.sub(shape, k))
      ensures !ok ==> Rebinds(before, Births(w, prefix, shape))
                      && exists some :: BoundSoFar(before, Births(w, prefix, shape), names, some)
    {
      hide Births, BoundSoFar, PrimitiveName, Rebinds;
      ghost var births := Births(w, prefix, shape);
      var shapes := w.sub(shape, k);
      assert bound + shapes[..0] == bound;
      for j := 0 to |shapes|
        invariant BoundSoFar(before, births, names, bound + shapes[..j])
      {
        BirthAt(w, prefix, shape, k, j);
        var name := PrimitiveName(prefix, k, j + 1);
        if shapes[j] in names && names[shapes[j]] != name {
          BindingRefused(before, births, names, bound + shapes[..j], shapes[j]);
          return false;
        }
        BindingGrows(before, births, names, bound + shapes[..j], shapes[j]);
        assert bound + shapes[..j + 1] == bound + shapes[..j] + [shapes[j]];
        names := names[shapes[j] := name];
      }
      assert bound + shapes[..|shapes|] == bound + shapes;
      ok := true;
    }

    /** Roots the sub-shapes that have no name yet; shared ones keep theirs, and their ordinals are spent. */
    method AddDerivedPrimitive(operationId: string, w: World, shape: Shape) returns (ok: bool)
      requires WellFormed(w)
      modifies this
      ensures ok == AddedDerived(w, operationId, shape, old(names)).Some?
      ensures names == if ok then AddedDerived(w, operationId, shape, old(names)).value else old(names)
      ensures ok <==> OperationIdPrefix(operationId).Some?
      ensures ok ==> names.Keys == old(names).Keys + ResultSet(w, shape)
      ensures ok ==> forall x :: x in names ==>
        names[x] == if x in old(names) then old(names)[x]
                    else Births(w, OperationIdPrefix(operationId).value, shape)[x]
    {
      hide Births, DerivedSoFar, ResultSet, WellFormed;
      BirthsCover(w, shape);
      var prefix := ReadOperationIdPrefix(operationId);
      if prefix.None? {
        return false;
      }
      ghost var births := Births(w, prefix.value, shape);
      ghost var before := names;
      var kinds := [Face, Edge, Vertex];
      ghost var bound: seq<Shape> := [];
      DerivingStarts(before, births);
      for i := 0 to |kinds|
        invariant bound == ShapesOfKinds(w, shape, kinds[..i])
        invariant names == DerivedSoFar(before, births, bound)
      {
        DeriveKind(w, prefix.value, shape, kinds[i], before, bound);
        ShapesOfKindsSnoc(w, shape, kinds, i);
        bound := bound + w.sub(shape, kinds[i]);
      }
      ShapesOfKindsAll(w, shape, kinds);
      DerivingDone(w, prefix.value, shape, before);
      ok := true;
    }

    method DeriveKind(w: World, prefix: string, shape: Shape, k: ShapeType,
                      ghost before: map<Shape, string>, ghost bound: seq<Shape>)
      requires WellFormed(w) && k in {Face, Edge, Vertex}
      requires names == DerivedSoFar(before, Births(w, prefix, shape), bound)
      modifies this
      ensures names == DerivedSoFar(before, Births(w, prefix, shape), bound + w.sub(shape, k))
    {
      hide Births, DerivedSoFar, PrimitiveName;
      ghost var births := Births(w, prefix, shape);
      var shapes := w.sub(shape, k);
      assert bound + shapes[..0] == bound;
      for j := 0 to |shapes|
        invariant names == DerivedSoFar(before, births, bound + shapes[..j])
      {
        BirthAt(w, prefix, shape, k, j);
        assert bound + shapes[..j + 1] == bound + shapes[..j] + [shapes[j]];
        DerivedGrows(before, births, bound + shapes[..j], shapes[j]);
        if shapes[j] !in names {
          names := names[shapes[j] := PrimitiveName(prefix, k, j + 1)];
        }
      }
      assert bound + shapes[..|shapes|] == bound + shapes;
    }

    /** Consumes the inputs' names and gives every face, edge and vertex of the result one. */
    method ApplyOperation(
      operationId: string, w: World, inputs: seq<Shape>, result: Shape,
      modified: Shape -> seq<Shape>, generated: Shape -> seq<Shape>) returns (ok: bool)
      requires WellFormed(w)
      modifies this
      ensures ok == AppliedById(w, operationId, inputs, result, modified, generated, old(names)).Some?
      ensures ok ==> names == AppliedById(w, operationId, inputs, result, modified, generated, old(names)).value
      ensures Extends(old(names), names)
      ensures ok ==>
        var prefix := OperationIdPrefix(operationId);
        && prefix.Some? && (forall s :: s in AllInputShapes(w, inputs) ==> s in old(names))
        && BookGainsSolution(w, Operation(prefix.value, inputs, result, modified, generated), old(names), names)
    {
      hide Applied, WellFormed, ByOperation, BookGainsSolution;
      var prefix := ReadOperationIdPrefix(operationId);
      if prefix.None? {
        return false;
      }
      var naming := new OperationNaming(this, w, Operation(prefix.value, inputs, result, modified, generated));
      ok := naming.Run();
    }

    /** An independent copy: later changes to the book do not reach it. */
    method TakeSnapshot() returns (snapshot: map<Shape, string>)
      ensures snapshot == names
    {
      snapshot := names;
    }

    method RestoreFrom(snapshot: map<Shape, string>)
      modifies this
      ensures names == snapshot
    {
      names := snapshot;
    }
  }

  class OperationNaming {
    const book: ElementNameBook
    const w: World
    const op: Operation
    var sources: seq<Shape>
    var resultNames: map<Shape, string>
    var reverseModified: map<Shape, seq<nat>>
    var reverseGenerated: map<Shape, seq<nat>>
    var pending: seq<PendingImage>

    constructor (book: ElementNameBook, w: World, op: Operation)
      ensures this.book == book && this.w == w && this.op == op
      ensures sources == [] && resultNames == map[] && pending == []
      ensures reverseModified == map[] && reverseGenerated == map[]
    {
      this.book, this.w, this.op := book, w, op;
      sources, resultNames, pending := [], map[], [];
      reverseModified, reverseGenerated := map[], map[];
    }

    ghost function Here(): Context
      reads this, book
    {
      Context(w, op, book.names, sources, GUARD)
    }

    /** The passes' state, read as the specification reads it. */
    ghost function State(): Progress
      reads this
    {
      Progress(resultNames, Open(pending))
    }

    method Assign(shape: Shape, name: string) returns (ok: bool)
      modifies `resultNames
      ensures ok == !(shape in old(resultNames) && old(resultNames)[shape] != name)
      ensures resultNames == if ok then old(resultNames)[shape := name] else old(resultNames)
    {
      if shape in resultNames {
        ok := resultNames[shape] == name;
        return;
      }
      resultNames := resultNames[shape := name];
      ok := true;
    }

    // ---------- Sources ----------

    method CollectSources() returns (ok: bool)
      requires sources == []
      modifies `sources
      ensures ok <==> forall s :: s in AllInputShapes(w, op.inputs) ==> s in book.names
      ensures ok ==> sources == SourcesOf(w, op.inputs)
    {
      hide Enrol, ShapesOf, AllInputShapes;
      ghost var done: seq<Shape> := [];
      AllInputShapesSplit(w, op.inputs, 0);
      EnrolNothing([]);
      for i := 0 to |op.inputs|
        invariant done + AllInputShapes(w, op.inputs[i..]) == AllInputShapes(w, op.inputs)
        invariant sources == Enrol([], done)
        invariant forall s :: s in done ==> s in book.names
      {
        var shapes := ShapesOf(w, op.inputs[i]);
        AllInputShapesSplit(w, op.inputs, i);
        ok := EnrolShapes(shapes);
        if !ok {
          assert forall s :: s in shapes ==> s in AllInputShapes(w, op.inputs[i..]);
          assert forall s :: s in AllInputShapes(w, op.inputs[i..]) ==> s in AllInputShapes(w, op.inputs);
          return;
        }
        EnrolAppend([], done, shapes);
        done := done + shapes;
      }
      AllInputShapesSplit(w, op.inputs, |op.inputs|);
      assert done == AllInputShapes(w, op.inputs);
      return true;
    }

    /** Adds one input's sub-shapes, refusing at the first one that has no name. */
    method EnrolShapes(shapes: seq<Shape>) returns (ok: bool)
      requires forall s :: s in sources ==> s in book.names
      modifies `sources
      ensures ok <==> forall s :: s in shapes ==> s in book.names
      ensures ok ==> sources == Enrol(old(sources), shapes)
    {
      hide Enrol;
      EnrolNothing(sources);
      for j := 0 to |shapes|
        invariant sources == Enrol(old(sources), shapes[..j])
        invariant forall s :: s in shapes[..j] ==> s in book.names
      {
        EnrolOne(old(sources), shapes[..j], shapes[j]);
        assert shapes[..j + 1] == shapes[..j] + [shapes[j]];
        if shapes[j] !in sources {
          if shapes[j] !in book.names {
            return false;
          }
          sources := sources + [shapes[j]];
        }
      }
      assert shapes[..|shapes|] == shapes;
      return true;
    }

    // ---------- Identity survivors ----------

    method PassIdentitySurvivors(ghost c: Context)
      requires c == Here() && ValidContext(c) && resultNames == map[]
      modifies `resultNames
      ensures resultNames == Survivors(c, c.sources)
    {
      hide Survivors, InResult, WellFormed;
      SurvivorsNone(c);
      for i := 0 to |sources|
        invariant resultNames == Survivors(c, sources[..i])
      {
        var shape := sources[i];
        SurvivorsMore(c, sources, i);
        if InResult(w, op.result, shape) {
          var ok := Assign(shape, book.names[shape]);
        }
      }
      assert sources[..|sources|] == sources;
    }

    // ---------- History read backwards ----------

    /** One history list, read backwards: for each result image, the ordinals that list it. */
    method ReadBackwards(history: Shape -> seq<Shape>) returns (reverse: map<Shape, seq<nat>>)
      ensures IsReverse(w, op.result, history, sources, reverse, |sources|)
    {
      hide ResultParents, At;
      reverse := map[];
      ReverseStarts(w, op.result, history, sources);
      for o := 0 to |sources|
        invariant IsReverse(w, op.result, history, sources, reverse, o)
      {
        ParentsStep(w, op.result, history, sources, o);
        reverse := ListImages(reverse, history(sources[o]), o);
      }
    }

    /** Adds one source's images; a repeated image adds its ordinal once. */
    method ListImages(before: map<Shape, seq<nat>>, images: seq<Shape>, o: nat) returns (after: map<Shape, seq<nat>>)
      requires forall x :: o !in At(before, x)
      requires NoEmptyLists(before)
      ensures forall x :: At(after, x) == At(before, x) + (if InResult(w, op.result, x) && x in images then [o] else [])
      ensures NoEmptyLists(after)
    {
      hide InResult, At, NoEmptyLists;
      after := before;
      ListStarts(w, op.result, before, o);
      for j := 0 to |images|
        invariant ListsSoFar(w, op.result, before, after, images[..j], o)
      {
        var image := images[j];
        assert images[..j + 1] == images[..j] + [image];
        ListsOneMore(w, op.result, before, after, images[..j], image, o);
        if InResult(w, op.result, image) {
          var parents := if image in after then after[image] else [];
          if o !in parents {
            after := after[image := parents + [o]];
          }
        }
      }
      assert images[..|images|] == images;
    }

    method BuildReverseHistory()
      modifies `reverseModified, `reverseGenerated
      ensures IsReverse(w, op.result, op.modified, sources, reverseModified, |sources|)
      ensures IsReverse(w, op.result, op.generated, sources, reverseGenerated, |sources|)
    {
      reverseModified := ReadBackwards(op.modified);
      reverseGenerated := ReadBackwards(op.generated);
    }

    // ---------- History images ----------

    /** Which group of images a result shape falls into, read off the reverse history. */
    method DescentOf(ghost c: Context, shape: Shape) returns (g: Option<Group>)
      requires c == Here() && ValidContext(c) && InResult(w, op.result, shape) && shape !in c.sources
      requires IsReverse(w, op.result, op.modified, sources, reverseModified, |sources|)
      requires IsReverse(w, op.result, op.generated, sources, reverseGenerated, |sources|)
      ensures g == GroupOf(c, shape)
    {
      assert At(reverseModified, shape) == Parents(op.modified, sources, shape, |sources|);
      assert At(reverseGenerated, shape) == Parents(op.generated, sources, shape, |sources|);
      var kind := w.kind(shape);
      if shape in reverseModified {
        var winner := Least(reverseModified[shape]);
        assert reverseModified[shape][0] in reverseModified[shape];
        return Some(StepGroup(sources[winner], 'M', kind));
      }
      if shape !in reverseGenerated {
        return None;
      }
      var parents := Pick(sources, reverseGenerated[shape]);
      if |parents| == 1 {
        return Some(StepGroup(parents[0], 'G', kind));
      }
      var names := NormalNames(book.names, Chosen(w, kind, parents));
      return Some(SectionGroup("n1:S." + op.prefix + "." + HashNames(w, names), kind));
    }

    /** The images of the result that are no survivors, gathered by the step they share. */
    method GroupImages(ghost c: Context) returns (plans: map<Group, seq<Shape>>)
      requires c == Here() && ValidContext(c)
      requires resultNames == Survivors(c, c.sources)
      requires IsReverse(w, op.result, op.modified, sources, reverseModified, |sources|)
      requires IsReverse(w, op.result, op.generated, sources, reverseGenerated, |sources|)
      ensures ArePlans(c, plans, ShapesOf(w, op.result))
    {
      hide GroupOf, ArePlans, IsReverse;
      plans := map[];
      NoPlans(c);
      var shapes := ShapesOf(w, op.result);
      ResultSetIs(w, op.result);
      for i := 0 to |shapes|
        invariant ArePlans(c, plans, shapes[..i])
      {
        var shape := shapes[i];
        assert shape in shapes;
        SurvivorHasNoGroup(c, shape);
        PlansGrow(c, plans, shapes, i);
        if shape !in resultNames {
          var g := DescentOf(c, shape);
          if g.Some? {
            plans := plans[g.value := (if g.value in plans then plans[g.value] else []) + [shape]];
          }
        }
      }
      assert shapes[..|shapes|] == shapes;
    }

    /** A group of one takes its step plainly. */
    method AssignSole(ghost c: Context, g: Group, image: Shape, ghost done: set<Group>)
      requires c == Here() && ValidContext(c) && g !in done
      requires Siblings(c, g) == {image}
      requires resultNames == NamedBy(c, done) && PendingFor(c, pending, done)
      modifies `resultNames
      ensures resultNames == NamedBy(c, done + {g}) && PendingFor(c, pending, done + {g})
    {
      hide GroupOf, ResultSet, NamedBy, PendingFor;
      assert image in Siblings(c, g);
      GroupSource(c, image);
      NamedByOne(c, done, g, image);
      PendingKept(c, pending, done, g);
      var step := StemOf(c, g);
      var ok := Assign(image, step);
    }

    /** The members of a larger group wait for a disambiguator. */
    method QueueSiblings(ghost c: Context, g: Group, images: seq<Shape>, ghost done: set<Group>)
      requires c == Here() && ValidContext(c) && g !in done
      requires |images| > 1 && Distinct(images) && forall x :: x in images <==> x in Siblings(c, g)
      requires IsReverse(w, op.result, op.generated, sources, reverseGenerated, |sources|)
      requires resultNames == NamedBy(c, done) && PendingFor(c, pending, done)
      modifies `pending
      ensures resultNames == NamedBy(c, done + {g}) && PendingFor(c, pending, done + {g})
    {
      hide GroupOf, ResultSet, NamedBy, IsReverse, PendingPart, WellFormed, Stem, Anchors, OpenBy, Siblings, Sole;
      assert images[0] in images && images[1] in images && images[0] != images[1];
      NoneSole(c, g, images[0], images[1]);
      GroupSource(c, images[0]);
      NamedByNone(c, done, g);
      var step := StemOf(c, g);
      ghost var queued: set<Shape> := {};
      ghost var open := OpenBy(c, done);
      assert open + queued == open;
      for i := 0 to |images|
        invariant forall x :: x in queued <==> x in images[..i]
        invariant PendingPart(c, pending, open + queued)
      {
        var x := images[i];
        NotYetQueued(c, g, images, i, done);
        var anchors := AnchorsOf(c, g, x);
        PendingGrows(c, pending, open + queued, x, g);
        assert images[..i + 1] == images[..i] + [x];
        assert open + (queued + {x}) == open + queued + {x};
        queued := queued + {x};
        pending := pending + [PendingImage(x, step + ".", anchors, w.kind(x), false)];
      }
      assert images[..|images|] == images;
      OpenByMore(c, done, g);
      assert queued == Siblings(c, g);
    }

    method AssignGroup(ghost c: Context, g: Group, images: seq<Shape>, ghost done: set<Group>)
      requires c == Here() && ValidContext(c) && g !in done
      requires images != [] && images == Members(c, ShapesOf(w, op.result), g)
      requires IsReverse(w, op.result, op.generated, sources, reverseGenerated, |sources|)
      requires resultNames == NamedBy(c, done) && PendingFor(c, pending, done)
      modifies `resultNames, `pending
      ensures resultNames == NamedBy(c, done + {g}) && PendingFor(c, pending, done + {g})
    {
      hide GroupOf, ResultSet, NamedBy, PendingFor, IsReverse;
      MembersAreSiblings(c, g);
      if |images| == 1 {
        assert images[0] in images;
        assert Siblings(c, g) == {images[0]};
        AssignSole(c, g, images[0], done);
      } else {
        QueueSiblings(c, g, images, done);
      }
    }

    /** The text of a group's step. */
    method StemOf(ghost c: Context, g: Group) returns (step: string)
      requires c == Here() && ValidContext(c) && (g.StepGroup? ==> g.source in c.book)
      ensures step == Stem(c, g)
    {
      step := if g.StepGroup? then book.names[g.source] + "/" + [g.marker] + "." + op.prefix else g.base;
      if g.StepGroup? {
        assert step == book.names[g.source] + "/" + StepText(g.marker, op.prefix);
      }
    }

    method AnchorsOf(ghost c: Context, g: Group, x: Shape) returns (anchors: set<Shape>)
      requires c == Here() && ValidContext(c) && x in ResultSet(w, op.result) && GroupOf(c, x) == Some(g)
      requires IsReverse(w, op.result, op.generated, sources, reverseGenerated, |sources|)
      ensures anchors == Anchors(c, x)
    {
      hide WellFormed, HashNames, Chosen;
      ResultSetIs(w, op.result);
      if g.StepGroup? {
        return {g.source};
      }
      assert At(reverseGenerated, x) == Parents(op.generated, sources, x, |sources|);
      var chosen := Chosen(w, w.kind(x), Pick(sources, reverseGenerated[x]));
      anchors := set s | s in chosen;
    }

    method PlanAndAssignHistoryImages(ghost c: Context)
      requires c == Here() && ValidContext(c) && pending == []
      requires resultNames == Survivors(c, c.sources)
      requires IsReverse(w, op.result, op.modified, sources, reverseModified, |sources|)
      requires IsReverse(w, op.result, op.generated, sources, reverseGenerated, |sources|)
      modifies `resultNames, `pending
      ensures ValidPending(c, pending)
      ensures State() == Initial(c)
    {
      hide NamedBy, PendingFor, WellFormed, IsReverse, Initial, Members, Survivors;
      var plans := GroupImages(c);
      var left := plans.Keys;
      ghost var done: set<Group> := {};
      NothingDone(c);
      while left != {}
        invariant left <= plans.Keys && done == plans.Keys - left
        invariant resultNames == NamedBy(c, done) && PendingFor(c, pending, done)
        decreases left
      {
        var g :| g in left;
        AssignGroup(c, g, plans[g], done);
        left, done := left - {g}, done + {g};
      }
      AllDone(c, plans, done);
      PendingAll(c, pending, done);
    }

    // ---------- Sibling disambiguation ----------

    /** Normalized names of all of xs, or nothing as soon as one of them has no name. */
    method NamesIfAll(xs: seq<Shape>) returns (names: Option<seq<string>>)
      ensures names == if forall y :: y in xs ==> y in resultNames then Some(NormalNames(resultNames, xs)) else None
    {
      var collected: seq<string> := [];
      for i := 0 to |xs|
        invariant |collected| == i
        invariant forall j :: 0 <= j < i ==> xs[j] in resultNames && collected[j] == Normalized(resultNames[xs[j]])
      {
        if xs[i] !in resultNames {
          return None;
        }
        var normalized := NormalizeName(resultNames[xs[i]]);
        collected := collected + [normalized];
      }
      assert collected == NormalNames(resultNames, xs);
      return Some(collected);
    }

    /** The disambiguator a pending image can be given now, if any. */
    method TryDisambiguate(ghost c: Context, image: PendingImage, force: bool) returns (d: Option<string>)
      requires c == Here() && ValidContext(c) && ValidImage(c, image)
      ensures d == if Ready(c, resultNames, image.shape, force)
                   then Some(Disambiguator(c, resultNames, image.shape)) else None
      ensures var lower := w.sub(image.shape, if image.kind == Face then Edge else Vertex);
              d == if image.kind != Vertex && lower != [] && forall y :: y in lower ==> y in resultNames
                   then Some(w.hash8(DigestInput(NormalNames(resultNames, lower))))
                   else if image.kind == Vertex || force then Some(w.hash8(w.geometryKey(image.shape, image.anchors)))
                   else None
    {
      hide GroupOf, Stem, RoleOf, Anchors;
      if image.kind == Vertex {
        return Some(w.hash8(w.geometryKey(image.shape, image.anchors)));
      }
      var lower := w.sub(image.shape, if image.kind == Face then Edge else Vertex);
      assert lower == Lower(c, image.shape);
      var lowerNames := NamesIfAll(lower);
      if |lower| > 0 && lowerNames.Some? {
        return Some(HashNames(w, lowerNames.value));
      }
      if force {
        return Some(w.hash8(w.geometryKey(image.shape, image.anchors)));
      }
      return None;
    }

    /** One kind's share of a sweep. */
    method SweepKind(ghost c: Context, k: ShapeType, force: bool) returns (ok: bool, progress: bool)
      requires c == Here() && ValidContext(c) && ValidPending(c, pending) && ValidProgress(c, State())
      modifies `resultNames, `pending
      ensures ok == ResolveKind(c, old(State()), k, force).Some?
      ensures ok ==> ValidPending(c, pending) && State() == ResolveKind(c, old(State()), k, force).value
      ensures ok ==> (progress <==> State().open != old(State()).open)
    {
      hide ValidPending, ValidImage, Ready, Disambiguator, SiblingName, GroupOf, Stem, ResultSet, ReadyOfKind, Swept,
        Clash;
      ghost var p := State();
      ghost var queue := pending;
      ghost var done: set<Shape> := {};
      SweepStart(c, p, queue, k, force);
      progress := false;
      for i := 0 to |pending|
        invariant |pending| == |queue|
        invariant Swept(c, p, queue, pending, resultNames, done, k, force, i)
        invariant progress <==> done != {}
      {
        var image := pending[i];
        SweptImage(c, p, queue, pending, resultNames, done, k, force, i);
        if !image.resolved && image.kind == k {
          SweepStep(c, p, queue, pending, resultNames, done, k, force, i);
          var d := TryDisambiguate(c, image, force);
          if d.Some? {
            SweepTake(c, p, queue, pending, resultNames, done, k, force, i);
            ok := Assign(image.shape, image.prefix + d.value);
            if !ok {
              SweepClash(c, p, k, force, image.shape);
              return;
            }
            pending := pending[i := image.(resolved := true)];
            done, progress := done + {image.shape}, true;
          } else {
            SweepSkip(c, p, queue, pending, resultNames, done, k, force, i);
          }
        } else {
          SweepSkip(c, p, queue, pending, resultNames, done, k, force, i);
        }
      }
      SweepEnd(c, p, queue, pending, resultNames, done, k, force);
      ok := true;
    }

    /** Lower kinds first, so that an edge's disambiguator can use vertices named in this sweep. */
    method ResolvePendingDisambiguators(ghost c: Context, force: bool) returns (ok: bool, progress: bool)
      requires c == Here() && ValidContext(c) && ValidPending(c, pending) && ValidProgress(c, State())
      modifies `resultNames, `pending
      ensures ok == Resolve(c, old(State()), force).Some?
      ensures ok ==> ValidPending(c, pending) && State() == Resolve(c, old(State()), force).value
      ensures ok ==> ValidProgress(c, State())
      ensures ok ==> (progress <==> State().open != old(State()).open)
    {
      hide ResolveKind, ValidPending, ReadyOfKind, WellFormed, Waiting;
      ghost var p := State();
      var more;
      ok, progress := SweepKind(c, Vertex, force);
      if ok {
        ghost var v := State();
        ResolveKindExtends(c, p, Vertex, force);
        ok, more := SweepKind(c, Edge, force);
        if ok {
          ghost var e := State();
          ResolveKindExtends(c, v, Edge, force);
          progress := progress || more;
          ok, more := SweepKind(c, Face, force);
          if ok {
            ResolveKindExtends(c, e, Face, force);
            progress := progress || more;
          }
        }
      }
    }

    // ---------- Lower-bound reconstruction ----------

    /** Which entities of kind `upper` contain each entity of kind k, read off the result. */
    method ContainersOf(k: ShapeType, upper: ShapeType) returns (incidence: map<Shape, seq<Shape>>)
      requires WellFormed(w)
      ensures forall x :: x in w.sub(op.result, k) ==>
        (if x in incidence then incidence[x] else []) == Holding(w, w.sub(op.result, upper), x)
    {
      hide Holding;
      incidence := map[];
      var containers := w.sub(op.result, upper);
      HoldingSnoc(w, containers, 0, k);
      for i := 0 to |containers|
        invariant forall x :: w.kind(x) == k ==> Listed(incidence, x) == Holding(w, containers[..i], x)
      {
        HoldingSnoc(w, containers, i, k);
        incidence := AddContainer(incidence, containers[i], w.sub(containers[i], k));
      }
      assert containers[..|containers|] == containers;
    }

    method AddContainer(before: map<Shape, seq<Shape>>, container: Shape, inside: seq<Shape>)
      returns (after: map<Shape, seq<Shape>>)
      requires Distinct(inside)
      ensures forall x :: Listed(after, x) == Listed(before, x) + (if x in inside then [container] else [])
    {
      after := before;
      for j := 0 to |inside|
        invariant forall x :: Listed(after, x) == Listed(before, x) + (if x in inside[..j] then [container] else [])
      {
        var x := inside[j];
        assert inside[..j + 1] == inside[..j] + [x];
        assert x !in inside[..j];
        after := after[x := (if x in after then after[x] else []) + [container]];
      }
      assert inside[..|inside|] == inside;
    }

    /** Names every still unnamed entity of one kind whose containers are all named. */
    method TryReconstruct(ghost c: Context, k: ShapeType, incidence: map<Shape, seq<Shape>>) returns (progress: bool)
      requires c == Here() && ValidContext(c) && k in {Edge, Vertex}
      requires forall x :: x in w.sub(op.result, k) ==> Listed(incidence, x) == Containers(c, x)
      modifies `resultNames
      ensures resultNames == ReconstructKind(c, old(resultNames), k)
      ensures progress <==> resultNames.Keys != old(resultNames).Keys
    {
      hide Containers, HashNames, Rebuilt;
      RebuiltNone(c, resultNames, k);
      ghost var names := resultNames;
      progress := false;
      var entities := w.sub(op.result, k);
      for i := 0 to |entities|
        invariant resultNames == Rebuilt(c, names, entities[..i])
        invariant progress <==> resultNames.Keys != names.Keys
      {
        var x := entities[i];
        assert x in entities;
        RebuiltStep(c, names, k, entities, i);
        if x !in resultNames {
          var containing := if x in incidence then incidence[x] else [];
          if |containing| > 0 {
            var containerNames := NamesIfAll(containing);
            if containerNames.Some? {
              var ok := Assign(x, "n1:L." + op.prefix + "." + HashNames(w, containerNames.value));
              assert x in resultNames && x !in names;
              progress := true;
            }
          }
        }
      }
      assert entities[..|entities|] == entities;
    }

    /** Passes that name what the mapper could not attribute: edges by faces, then vertices by edges. */
    method ResolveLowerBoundNames(
      ghost c: Context, edgeFaces: map<Shape, seq<Shape>>, vertexEdges: map<Shape, seq<Shape>>) returns (progress: bool)
      requires c == Here() && ValidContext(c) && IsIncidence(c, edgeFaces, vertexEdges)
      modifies `resultNames
      ensures resultNames == LowerBound(c, old(resultNames))
      ensures progress <==> resultNames.Keys != old(resultNames).Keys
    {
      hide Containers, ReconstructKind;
      var edges := TryReconstruct(c, Edge, edgeFaces);
      var vertices := TryReconstruct(c, Vertex, vertexEdges);
      progress := edges || vertices;
    }

    method AssignQuantizedRoots(ghost c: Context)
      requires c == Here() && ValidContext(c)
      modifies `resultNames
      ensures resultNames == WithRoots(c, old(resultNames))
    {
      hide RootName, ResultSet, WellFormed, ShapesOf;
      ghost var names := resultNames;
      var shapes := ShapesOf(w, op.result);
      ResultSetIs(w, op.result);
      for i := 0 to |shapes|
        invariant forall x :: x in resultNames <==> x in names || x in shapes[..i]
        invariant forall x :: x in resultNames ==> resultNames[x] == if x in names then names[x] else RootName(c, x)
      {
        assert shapes[..i + 1] == shapes[..i] + [shapes[i]];
        if shapes[i] !in resultNames {
          var name := RootText(c, shapes[i]);
          var ok := Assign(shapes[i], name);
        }
      }
      assert shapes[..|shapes|] == shapes;
    }

    method RootText(ghost c: Context, x: Shape) returns (name: string)
      requires c == Here()
      ensures name == RootName(c, x)
    {
      name := "n1:Q." + w.hash8(w.geometryKey(x, {op.result}));
    }

    // ---------- The run ----------

    /** Sweeps and reconstructs in turn until neither makes progress or the guard cuts in. */
    method InterleaveToFixpoint(
      ghost c: Context, edgeFaces: map<Shape, seq<Shape>>, vertexEdges: map<Shape, seq<Shape>>) returns (ok: bool)
      requires c == Here() && ValidContext(c) && ValidPending(c, pending) && ValidProgress(c, State())
      requires IsIncidence(c, edgeFaces, vertexEdges)
      modifies `resultNames, `pending
      ensures ok == Interleave(c, old(State()), c.guard).Some?
      ensures ok ==> ValidPending(c, pending) && State() == Interleave(c, old(State()), c.guard).value
    {
      hide Resolve, LowerBound, ValidPending, IsIncidence, Interleave;
      ghost var start := State();
      var progress := true;
      var guard := 0;
      while progress
        invariant 0 <= guard <= GUARD
        invariant ValidPending(c, pending) && ValidProgress(c, State())
        invariant progress ==> Interleave(c, start, c.guard) == Interleave(c, State(), c.guard - guard)
        invariant !progress ==> Interleave(c, start, c.guard) == Some(State())
        decreases GUARD - guard, progress
      {
        InterleaveUnfold(c, State(), c.guard - guard);
        if guard + 1 > GUARD {
          break;
        }
        guard := guard + 1;
        ghost var before := State();
        ok, progress := ResolvePendingDisambiguators(c, false);
        if !ok {
          return;
        }
        LowerBoundValid(c, State());
        var rebuilt := ResolveLowerBoundNames(c, edgeFaces, vertexEdges);
        TurnShows(c, before, progress, rebuilt);
        progress := progress || rebuilt;
      }
      ok := true;
    }

    method RebuildToFixpoint(
      ghost c: Context, edgeFaces: map<Shape, seq<Shape>>, vertexEdges: map<Shape, seq<Shape>>)
      requires c == Here() && ValidContext(c) && IsIncidence(c, edgeFaces, vertexEdges)
      modifies `resultNames
      ensures resultNames == Rebuild(c, old(resultNames), c.guard)
    {
      hide LowerBound, IsIncidence, Rebuild;
      ghost var start := resultNames;
      var progress := true;
      var guard := 0;
      while progress
        invariant 0 <= guard <= GUARD
        invariant progress ==> Rebuild(c, start, c.guard) == Rebuild(c, resultNames, c.guard - guard)
        invariant !progress ==> Rebuild(c, start, c.guard) == resultNames
        decreases GUARD - guard, progress
      {
        RebuildUnfold(c, resultNames, c.guard - guard);
        if guard + 1 > GUARD {
          break;
        }
        guard := guard + 1;
        LowerBoundStandstill(c, resultNames);
        progress := ResolveLowerBoundNames(c, edgeFaces, vertexEdges);
      }
    }

    /** Binds the result's names into the book, refusing to rename a live entity. */
    method MergeIntoBook() returns (ok: bool)
      requires WellFormed(w) && resultNames.Keys == ResultSet(w, op.result)
      modifies book
      ensures ok <==> !Rebinds(old(book.names), resultNames)
      ensures ok ==> book.names == old(book.names) + resultNames
      ensures Extends(old(book.names), book.names)
      ensures forall x :: x in book.names && x !in old(book.names) ==>
        x in resultNames && book.names[x] == resultNames[x]
    {
      hide ShapesOf, ResultSet, WellFormed;
      var shapes := ShapesOf(w, op.result);
      ResultSetIs(w, op.result);
      for i := 0 to |shapes|
        invariant Extends(old(book.names), book.names)
        invariant forall x :: x in book.names <==> x in old(book.names) || x in shapes[..i]
        invariant forall x :: x in shapes[..i] ==> x in resultNames && book.names[x] == resultNames[x]
      {
        var shape := shapes[i];
        assert shape in shapes;
        assert shapes[..i + 1] == shapes[..i] + [shape];
        if shape in book.names && book.names[shape] != resultNames[shape] {
          return false;
        }
        book.names := book.names[shape := resultNames[shape]];
      }
      assert shapes[..|shapes|] == shapes;
      ok := true;
    }

    method Run() returns (ok: bool)
      requires WellFormed(w) && IsHex8(op.prefix)
      requires sources == [] && resultNames == map[] && pending == []
      modifies this, book
      ensures ok == Applied(w, op, old(book.names)).Some?
      ensures ok ==> book.names == Applied(w, op, old(book.names)).value
      ensures Extends(old(book.names), book.names)
      ensures ByOperation(w, op, old(book.names), book.names)
      ensures ok ==>
                && (forall s :: s in AllInputShapes(w, op.inputs) ==> s in old(book.names))
                && BookGainsSolution(w, op, old(book.names), book.names)
    {
      hide Interleave, Initial, Resolve, Rebuild, LowerBound, WithRoots, WellFormed, ValidPending, IsIncidence;
      hide SourcesOf, AllInputShapes, ResultSet, IsReverse, Rebinds, Survivors, BookGainsSolution;
      ok := CollectSources();
      if !ok {
        return;
      }
      ghost var c := Here();
      SourcesNamed(w, op, book.names);
      PassIdentitySurvivors(c);
      BuildReverseHistory();
      PlanAndAssignHistoryImages(c);
      var edgeFaces := ContainersOf(Edge, Face);
      var vertexEdges := ContainersOf(Vertex, Edge);
      IncidenceRead(c, edgeFaces, vertexEdges);
      ok := InterleaveToFixpoint(c, edgeFaces, vertexEdges);
      if !ok {
        return;
      }
      var more;
      ok, more := ResolvePendingDisambiguators(c, true);
      if !ok {
        return;
      }
      RebuildToFixpoint(c, edgeFaces, vertexEdges);
      AssignQuantizedRoots(c);
      TotalCoverage(c);
      ghost var before := book.names;
      ok := MergeIntoBook();
      if ok {
        AppliedIsSolution(w, op, before);
      }
    }
  }

  /** The least of an image's source ordinals. */
  method Least(ordinals: seq<nat>) returns (least: nat)
    requires ordinals != []
    ensures least in ordinals && forall o :: o in ordinals ==> least <= o
  {
    least := ordinals[0];
    for i := 1 to |ordinals|
      invariant least in ordinals && forall j :: 0 <= j < i ==> least <= ordinals[j]
    {
      if ordinals[i] < least {
        least := ordinals[i];
      }
    }
  }
}
