// A completed run ends with the one solution of the naming equations.
module NamingSolution {
  import opened Outcomes
  import opened NameGrammar
  import opened ElementNaming
  import opened NamingProgress
  import opened NamingRefusal
  import opened NamingAlignment
  import opened PassState
  import opened NamingEquations

  // ---------- A completed run in a straight line ----------

  ghost function AfterTurn(c: Context): Option<Progress>
    requires ValidContext(c)
  {
    Turn(c, Initial(c))
  }

  /** A run that completes is one turn, the forced sweep, one reconstruction and the roots. */
  lemma CompletedRun(c: Context)
    requires ValidContext(c) && NamesOfResult(c).Some?
    ensures Resolve(c, Initial(c), false).Some? && AfterTurn(c).Some?
    ensures !Overtaken(Initial(c)) && !Overtaken(AfterTurn(c).value) && Reserved(AfterTurn(c).value)
    ensures Resolve(c, AfterTurn(c).value, true).Some?
    ensures NamesOfResult(c).value == WithRoots(c, LowerBound(c, Resolve(c, AfterTurn(c).value, true).value.names))
  {
    hide ValidProgress, Initial, Turn, Resolve, Reserved, Overtaken, WellFormed, LowerBound;
    var p := Initial(c);
    InitialReserved(c);
    TurnRefuses(c, p);
    InterleaveOvertaken(c, p);
    var r := Turn(c, p).value;
    TurnRefuses(c, r);
    TurnTwice(c, p);
    InterleaveOnce(c, r, c.guard - 1);
    RebuildStopsAtOnce(c, Settle(c).value.names, c.guard);
  }

  // ---------- The names found so far fit their equations ----------

  /** All lower entities accounted for, in the run's own terms. */
  ghost predicate LowerAccounted(c: Context, x: Shape) {
    c.w.kind(x) != Vertex && Lower(c, x) != [] && forall y :: y in Lower(c, x) ==> RoleOf(c, y) != Unattributed
  }

  ghost predicate FitsSibling(c: Context, names: map<Shape, string>, x: Shape)
    requires ValidContext(c) && Waiting(c, x) && x in names
  {
    if LowerAccounted(c, x) then
      && (forall y :: y in Lower(c, x) ==> y in names)
      && names[x] == StemOf(c, x) + "." + HashNames(c.w, NormalNames(names, Lower(c, x)))
    else
      names[x] == StemOf(c, x) + "." + c.w.hash8(c.w.geometryKey(x, Anchors(c, x)))
  }

  ghost predicate FitsBound(c: Context, names: map<Shape, string>, x: Shape)
    requires x in names
  {
    && c.w.kind(x) in {Edge, Vertex} && Containers(c, x) != []
    && (forall f :: f in Containers(c, x) ==> f in names)
    && names[x] == BoundName(c, names, x)
  }

  ghost predicate FitsOne(c: Context, names: map<Shape, string>, x: Shape)
    requires ValidContext(c) && x in names
  {
    if x in c.sources then names[x] == c.book[x]
    else if RoleOf(c, x) == Unattributed then FitsBound(c, names, x)
    else if Sole(c, x) then names[x] == StemOf(c, x)
    else FitsSibling(c, names, x)
  }

  ghost predicate Fits(c: Context, p: Progress)
    requires ValidContext(c)
  {
    && (forall x :: x in p.names && x !in p.open ==> FitsOne(c, p.names, x))
    && (forall x :: x in Results(c) && RoleOf(c, x) != Unattributed ==> x in p.names || x in p.open)
    && (forall x :: x in p.open ==> !Sole(c, x))
  }

  lemma FitsKept(c: Context, m: map<Shape, string>, n: map<Shape, string>, x: Shape)
    requires ValidContext(c) && Extends(m, n) && x in m && FitsOne(c, m, x)
    ensures FitsOne(c, n, x)
  {
    hide WellFormed, RoleOf, GroupOf, Sole, StemOf, Containers, HashNames, Normalized;
    if FitsBound(c, m, x) {
      SameDigest(c, m, n, Containers(c, x));
    }
    if LowerAccounted(c, x) && forall y :: y in Lower(c, x) ==> y in m {
      SameDigest(c, m, n, Lower(c, x));
    }
  }

  lemma SameDigest(c: Context, m: map<Shape, string>, n: map<Shape, string>, xs: seq<Shape>)
    requires Extends(m, n) && forall x :: x in xs ==> x in m
    ensures NormalNames(m, xs) == NormalNames(n, xs)
  {
    hide Normalized;
    assert forall i :: 0 <= i < |xs| ==> xs[i] in xs;
  }

  lemma InitialFits(c: Context)
    requires ValidContext(c)
    ensures Fits(c, Initial(c))
  {
    hide WellFormed, RoleOf, GroupOf, ResultSet, Stem;
    forall x ensures RoleOf(c, x) == Unattributed <==> GroupOf(c, x) == None && x !in c.sources {
      SurvivorHasNoGroup(c, x);
    }
  }

  /** An entity that still waits keeps those below it from being reconstructed. */
  lemma NothingBelowBound(c: Context, p: Progress, x: Shape, y: Shape)
    requires ValidContext(c) && ValidProgress(c, p) && Fits(c, p) && !Overtaken(p)
    requires x in p.open && c.w.kind(x) != Vertex && y in Lower(c, x) && RoleOf(c, y) == Unattributed
    ensures y !in p.names
  {
    hide WellFormed, RoleOf, Containers, Lower, FitsSibling;
    NamedKind(c, x);
    HeldBy(c, x, y);
    SurvivorHasNoGroup(c, y);
  }

  /** A sibling is disambiguated by its lower entities exactly when all are accounted for. */
  lemma SiblingFits(c: Context, p: Progress, x: Shape, force: bool)
    requires ValidContext(c) && ValidProgress(c, p) && Fits(c, p) && !Overtaken(p)
    requires x in p.open && Ready(c, p.names, x, force)
    requires c.w.kind(x) != Vertex && force ==>
               forall y :: y in Lower(c, x) && RoleOf(c, y) != Unattributed ==> y in p.names
    ensures c.w.kind(x) != Vertex && LowerNamed(c, p.names, x) <==> LowerAccounted(c, x)
  {
    hide WellFormed, RoleOf, Lower, Fits;
    if c.w.kind(x) != Vertex {
      forall y | y in Lower(c, x) && RoleOf(c, y) == Unattributed ensures y !in p.names {
        NothingBelowBound(c, p, x, y);
      }
    }
  }

  // ---------- Pass by pass ----------

  ghost predicate Sound(c: Context, p: Progress)
    requires ValidContext(c)
  {
    Fits(c, p) && Reserved(p) && !Overtaken(p)
  }

  lemma SweptFits(c: Context, p: Progress, k: ShapeType, force: bool, x: Shape)
    requires ValidContext(c) && ValidProgress(c, p) && Fits(c, p) && !Overtaken(p)
    requires x in ReadyOfKind(c, p, k, force)
    requires k != Vertex && force ==> forall y :: y in p.open ==> c.w.kind(y) != LowerKind(k)
    requires ResolveKind(c, p, k, force).Some?
    ensures var r := ResolveKind(c, p, k, force).value; x in r.names && FitsOne(c, r.names, x)
  {
    hide WellFormed, RoleOf, GroupOf, Sole, Containers, HashNames, ResolveKind, ValidProgress, Lower;
    var r := ResolveKind(c, p, k, force).value;
    ResolveKindExtends(c, p, k, force);
    ReadySiblingName(c, p, k, force, x);
    LowerKinds(c, x);
    SiblingFits(c, p, x, force);
    SurvivorHasNoGroup(c, x);
    if LowerAccounted(c, x) {
      SameDigest(c, p.names, r.names, Lower(c, x));
    }
  }

  lemma ResolveKindFits(c: Context, p: Progress, k: ShapeType, force: bool)
    requires ValidContext(c) && ValidProgress(c, p) && Sound(c, p)
    requires k != Vertex && force ==> forall y :: y in p.open ==> c.w.kind(y) != LowerKind(k)
    requires ResolveKind(c, p, k, force).Some?
    ensures Sound(c, ResolveKind(c, p, k, force).value)
  {
    hide WellFormed, RoleOf, Sole, ResolveKind, ValidProgress, FitsOne, Overtaken, Reserved;
    var r := ResolveKind(c, p, k, force).value;
    ResolveKindExtends(c, p, k, force);
    ResolveKindRefuses(c, p, k, force);
    forall x | x in r.names && x !in r.open ensures FitsOne(c, r.names, x) {
      if x in p.names && x !in p.open {
        FitsKept(c, p.names, r.names, x);
      } else {
        SweptFits(c, p, k, force, x);
      }
    }
  }

  lemma OpenAfter(c: Context, p: Progress, k: ShapeType)
    requires ValidContext(c) && ValidProgress(c, p) && ResolveKind(c, p, k, true).Some?
    ensures var r := ResolveKind(c, p, k, true).value;
            r.open <= p.open && forall x :: x in r.open ==> c.w.kind(x) != k
  {
    hide WellFormed, ResolveKind, ValidProgress;
    ResolveKindExtends(c, p, k, true);
  }

  lemma ResolveFits(c: Context, p: Progress, force: bool)
    requires ValidContext(c) && ValidProgress(c, p) && Sound(c, p) && Resolve(c, p, force).Some?
    ensures Sound(c, Resolve(c, p, force).value)
  {
    hide ResolveKind, ValidContext, ValidProgress, Sound;
    var v := ResolveKind(c, p, Vertex, force).value;
    ResolveKindFits(c, p, Vertex, force);
    if force {
      OpenAfter(c, p, Vertex);
      OpenAfter(c, v, Edge);
    }
    ResolveKindFits(c, v, Edge, force);
    ResolveKindFits(c, ResolveKind(c, v, Edge, force).value, Face, force);
  }

  lemma ReconstructFits(c: Context, p: Progress, k: ShapeType)
    requires ValidContext(c) && ValidProgress(c, p) && Fits(c, p) && k in {Edge, Vertex}
    requires forall x :: x in p.open ==> x !in ReconstructKind(c, p.names, k)
    ensures Fits(c, p.(names := ReconstructKind(c, p.names, k)))
    ensures ValidProgress(c, p.(names := ReconstructKind(c, p.names, k)))
  {
    hide WellFormed, RoleOf, Sole, FitsOne, ReconstructKind, ResultSet, GroupOf;
    var names := ReconstructKind(c, p.names, k);
    forall x | x in names
      ensures x in Results(c) && (x !in p.open ==> FitsOne(c, names, x))
    {
      ReconstructedAt(c, p.names, k, x);
      if x in p.names {
        if x !in p.open {
          FitsKept(c, p.names, names, x);
        }
      } else {
        BoundFits(c, p.names, names, k, x);
      }
    }
  }

  lemma BoundFits(c: Context, m: map<Shape, string>, n: map<Shape, string>, k: ShapeType, x: Shape)
    requires ValidContext(c) && n == ReconstructKind(c, m, k) && k in {Edge, Vertex}
    requires x in n && x !in m && RoleOf(c, x) == Unattributed
    ensures FitsOne(c, n, x)
  {
    hide WellFormed, RoleOf, Sole, ReconstructKind, Results, GroupOf, Containers, HashNames;
    ReconstructedAt(c, m, k, x);
    SurvivorHasNoGroup(c, x);
    SameDigest(c, m, n, Containers(c, x));
  }

  /** Reconstruction, when it reaches no sibling that still waits. */
  lemma LowerBoundFits(c: Context, p: Progress)
    requires ValidContext(c) && ValidProgress(c, p) && Fits(c, p)
    requires forall x :: x in p.open ==> x !in LowerBound(c, p.names)
    ensures Fits(c, p.(names := LowerBound(c, p.names)))
    ensures ValidProgress(c, p.(names := LowerBound(c, p.names)))
  {
    hide Fits, ValidContext, ValidProgress, ReconstructKind;
    var q := p.(names := ReconstructKind(c, p.names, Edge));
    ReconstructFits(c, p, Edge);
    ReconstructFits(c, q, Vertex);
    assert q.(names := ReconstructKind(c, q.names, Vertex)) == p.(names := LowerBound(c, p.names));
  }

  ghost function Forced(c: Context): Progress
    requires ValidContext(c) && NamesOfResult(c).Some?
  {
    CompletedRun(c);
    Resolve(c, AfterTurn(c).value, true).value
  }

  /** All names but the quantized roots fit, and no sibling waits. */
  lemma RunFits(c: Context)
    requires ValidContext(c) && NamesOfResult(c).Some?
    ensures Forced(c).open == {} && Fits(c, Forced(c)) && ValidProgress(c, Forced(c))
    ensures Fits(c, Forced(c).(names := LowerBound(c, Forced(c).names)))
  {
    hide WellFormed, Initial, Resolve, Reserved, Fits, FitsOne, LowerBound;
    var p := Initial(c);
    CompletedRun(c);
    InitialFits(c);
    InitialReserved(c);
    ResolveFits(c, p, false);
    var q := Resolve(c, p, false).value;
    LowerBoundFits(c, q);
    ResolveFits(c, AfterTurn(c).value, true);
    ForcedSweepEmptiesOpen(c, AfterTurn(c).value);
    LowerBoundFits(c, Forced(c));
  }

  // ---------- What reconstruction reaches ----------

  /** Reconstruction names, in the end, exactly the surrounded entities among the unattributed. */
  ghost predicate Enclosed(c: Context, x: Shape) {
    && c.w.kind(x) == Edge && Containers(c, x) != []
    && forall f :: f in Containers(c, x) ==> RoleOf(c, f) != Unattributed
  }

  ghost predicate Reached(c: Context, x: Shape) {
    || Enclosed(c, x)
    || (c.w.kind(x) == Vertex && Containers(c, x) != []
        && forall f :: f in Containers(c, x) ==> RoleOf(c, f) != Unattributed || Enclosed(c, f))
  }

  lemma ContainersNamed(c: Context, names: map<Shape, string>, x: Shape)
    requires ValidContext(c) && x in names && FitsOne(c, names, x) && RoleOf(c, x) == Unattributed
    ensures c.w.kind(x) in {Edge, Vertex} && Containers(c, x) != []
    ensures forall f :: f in Containers(c, x) ==>
              f in names && c.w.kind(f) == (if c.w.kind(x) == Edge then Face else Edge)
  {
    hide WellFormed, RoleOf, Containers, BoundName, FitsSibling;
    ContainersAre(c, x);
    SurvivorHasNoGroup(c, x);
  }

  lemma NamedIsReached(c: Context, p: Progress, x: Shape)
    requires ValidContext(c) && Fits(c, p) && p.open == {}
    requires x in p.names && RoleOf(c, x) == Unattributed
    ensures Reached(c, x)
  {
    hide WellFormed, RoleOf, Containers, FitsOne, Sole;
    ContainersNamed(c, p.names, x);
    forall f | f in Containers(c, x) ensures RoleOf(c, f) != Unattributed || Enclosed(c, f) {
      if RoleOf(c, f) == Unattributed {
        ContainersNamed(c, p.names, f);
        forall g | g in Containers(c, f) ensures RoleOf(c, g) != Unattributed {
          if RoleOf(c, g) == Unattributed {
            ContainersNamed(c, p.names, g);
          }
        }
      }
    }
    forall f | f in Containers(c, x) && c.w.kind(x) == Edge ensures RoleOf(c, f) != Unattributed {
      if RoleOf(c, f) == Unattributed {
        ContainersNamed(c, p.names, f);
      }
    }
  }

  lemma EnclosedIsNamed(c: Context, p: Progress, x: Shape)
    requires ValidContext(c) && Fits(c, p) && p.open == {} && x in Results(c)
    ensures Enclosed(c, x) ==> x in ReconstructKind(c, p.names, Edge)
  {
    hide WellFormed, RoleOf, Containers, FitsOne, Sole, ReconstructKind, ResultSet;
    ReconstructedAt(c, p.names, Edge, x);
    ContainersAre(c, x);
  }

  lemma ReachedIsNamed(c: Context, p: Progress, x: Shape)
    requires ValidContext(c) && Fits(c, p) && p.open == {} && x in Results(c)
    ensures Reached(c, x) ==> x in LowerBound(c, p.names)
  {
    hide WellFormed, RoleOf, Containers, FitsOne, Sole, ReconstructKind, ResultSet, Enclosed;
    var edges := ReconstructKind(c, p.names, Edge);
    EnclosedIsNamed(c, p, x);
    ContainersAre(c, x);
    ReconstructedAt(c, edges, Vertex, x);
    forall f | f in Containers(c, x) && Enclosed(c, f) ensures f in edges {
      EnclosedIsNamed(c, p, f);
    }
  }

  /** The equation of one entity, in the run's own terms. */
  ghost predicate Solves(c: Context, names: map<Shape, string>, x: Shape)
    requires ValidContext(c) && x in names
  {
    if x in c.sources then names[x] == c.book[x]
    else if RoleOf(c, x) == Unattributed then
      if Reached(c, x) then FitsBound(c, names, x) else names[x] == RootName(c, x)
    else if Sole(c, x) then names[x] == StemOf(c, x)
    else FitsSibling(c, names, x)
  }

  lemma FinalSolves(c: Context, x: Shape)
    requires ValidContext(c) && NamesOfResult(c).Some? && x in Results(c)
    ensures x in NamesOfResult(c).value && Solves(c, NamesOfResult(c).value, x)
  {
    hide WellFormed, RoleOf, Containers, FitsOne, Sole, LowerBound, Resolve, Initial, Reached, FitsSibling, FitsBound,
      ResultSet, WithRoots, RootName;
    CompletedRun(c);
    RunFits(c);
    var p := Forced(c);
    var bound := LowerBound(c, p.names);
    var q := p.(names := bound);
    RootedAt(c, bound, x);
    ReachedIsNamed(c, p, x);
    SurvivorHasNoGroup(c, x);
    if x in bound {
      FitsKept(c, bound, NamesOfResult(c).value, x) by {
        forall y | y in bound ensures y in NamesOfResult(c).value && NamesOfResult(c).value[y] == bound[y] {
          RootedAt(c, bound, y);
        }
      }
      if RoleOf(c, x) == Unattributed {
        NamedIsReached(c, q, x);
      }
      FitsIsSolves(c, NamesOfResult(c).value, x);
    }
  }

  lemma FitsIsSolves(c: Context, names: map<Shape, string>, x: Shape)
    requires ValidContext(c) && x in names && FitsOne(c, names, x)
    requires RoleOf(c, x) == Unattributed ==> Reached(c, x)
    ensures Solves(c, names, x)
  {
    hide WellFormed, RoleOf, Reached, Sole, FitsSibling, FitsBound, StemOf;
  }

  // ---------- From the run's terms to the history's ----------

  lemma AroundIs(c: Context, x: Shape)
    requires ValidContext(c) && x in Results(c) && c.w.kind(x) in {Edge, Vertex}
    ensures forall f :: f in Around(c, x) <==> f in Containers(c, x)
    ensures Distinct(Around(c, x)) && Distinct(Containers(c, x))
    ensures Around(c, x) == [] <==> Containers(c, x) == []
  {
    hide Nested, Containers;
    ContainersAre(c, x);
    ContainersDistinct(c, x);
    AroundMembers(c, x);
    if Around(c, x) != [] {
      assert Around(c, x)[0] in Containers(c, x);
    }
    if Containers(c, x) != [] {
      assert Containers(c, x)[0] in Around(c, x);
    }
  }

  lemma AroundMembers(c: Context, x: Shape)
    requires ValidContext(c) && x in Results(c) && c.w.kind(x) in {Edge, Vertex}
    ensures Distinct(Around(c, x))
    ensures forall f :: f in Around(c, x) <==>
      f in Results(c) && c.w.kind(f) == (if c.w.kind(x) == Vertex then Edge else Face) && x in c.w.sub(f, c.w.kind(x))
  {
    hide Nested;
    ResultSetIs(c.w, c.op.result);
    var k := if c.w.kind(x) == Vertex then Edge else Face;
    FilteredDistinct(c.w.sub(c.op.result, k), set f | f in Results(c) && x in c.w.sub(f, c.w.kind(x)));
    forall f | f in Results(c) && c.w.kind(f) == k ensures f in c.w.sub(c.op.result, k) {
      assert InResult(c.w, c.op.result, f);
    }
  }

  lemma BelowIs(c: Context, x: Shape)
    requires ValidContext(c) && x in Results(c)
    ensures Bounded(c, x) <==> LowerAccounted(c, x)
    ensures c.w.kind(x) != Vertex ==> Below(c, x) == Lower(c, x)
    ensures c.w.kind(x) == Vertex ==> Below(c, x) == []
  {
    hide WellFormed, RoleOf, Accounted;
    NamedKind(c, x);
    forall y ensures RoleOf(c, y) == Unattributed <==> !Accounted(c, y) {
      RoleIs(c, y);
    }
  }

  lemma ReachedIs(c: Context, x: Shape)
    requires ValidContext(c) && x in Results(c)
    ensures Reached(c, x) <==> Surrounded(c, x)
  {
    hide WellFormed, RoleOf, Accounted, Around, Containers;
    NamedKind(c, x);
    forall y ensures RoleOf(c, y) == Unattributed <==> !Accounted(c, y) {
      RoleIs(c, y);
    }
    if c.w.kind(x) != Face {
      AroundIs(c, x);
      ContainersAre(c, x);
      forall f | f in Around(c, x) && c.w.kind(x) == Vertex
        ensures Enclosed(c, f)
           <==> Around(c, f) != [] && forall g :: g in Around(c, f) ==> RoleOf(c, g) != Unattributed
      {
        AroundIs(c, f);
      }
    } else {
      NoFaceSurrounds(c, x);
    }
  }

  lemma NoFaceSurrounds(c: Context, x: Shape)
    requires ValidContext(c) && c.w.kind(x) == Face
    ensures Around(c, x) == []
  {
  }

  lemma SiblingSays(c: Context, names: map<Shape, string>, x: Shape)
    requires ValidContext(c) && names.Keys == Results(c) && x in Results(c)
    requires Waiting(c, x) && FitsSibling(c, names, x) && !Sole(c, x)
    ensures Says(c, names, x, names[x])
  {
    hide WellFormed, RoleOf, Results, Accounted, Around, Bounded, Alone, Sole, Mates, NamedStep, Origins, Surrounded,
      Anchors, NormalNames, GroupOf, StemOf, Below, Lower;
    BelowIs(c, x);
    RoleIs(c, x);
    SurvivorHasNoGroup(c, x);
    AloneIs(c, x);
    StepIs(c, x);
  }

  lemma FirstSays(c: Context, names: map<Shape, string>, x: Shape)
    requires ValidContext(c) && names.Keys == Results(c) && x in Results(c)
    requires Waiting(c, x) && Sole(c, x) && names[x] == StemOf(c, x)
    ensures Says(c, names, x, names[x])
  {
    hide WellFormed, RoleOf, Results, Accounted, Around, Bounded, Alone, Sole, Mates, NamedStep, Origins, Surrounded,
      Anchors, NormalNames, GroupOf, StemOf, Below, Lower;
    RoleIs(c, x);
    SurvivorHasNoGroup(c, x);
    AloneIs(c, x);
    StepIs(c, x);
  }

  lemma RootSays(c: Context, names: map<Shape, string>, x: Shape)
    requires ValidContext(c) && names.Keys == Results(c) && x in Results(c)
    requires RoleOf(c, x) == Unattributed && Solves(c, names, x)
    ensures Says(c, names, x, names[x])
  {
    hide WellFormed, RoleOf, Results, Accounted, Around, Bounded, Alone, Sole, Mates, NamedStep, Origins, Surrounded,
      Anchors, NormalNames, GroupOf, StemOf, Below, Lower, Containers, Reached, Distinct, Digest, HashNames,
        FitsSibling;
    RoleIs(c, x);
    ReachedIs(c, x);
    if Reached(c, x) {
      AroundIs(c, x);
      DigestOfMembers(c, names, Containers(c, x), Around(c, x));
    }
  }

  /** Every completed run meets the equations. */
  lemma RunIsTold(c: Context)
    requires ValidContext(c) && NamesOfResult(c).Some?
    ensures Told(c, NamesOfResult(c).value)
  {
    hide WellFormed, RoleOf, Says, ResultSet, NamesOfResult, FitsSibling, FitsBound, StemOf, Sole, Reached, Waiting;
    var names := NamesOfResult(c).value;
    TotalCoverage(c);
    forall x | x in Results(c) ensures Says(c, names, x, names[x]) {
      FinalSolves(c, x);
      OneSays(c, names, x);
    }
  }

  lemma OneSays(c: Context, names: map<Shape, string>, x: Shape)
    requires ValidContext(c) && names.Keys == Results(c) && x in Results(c) && Solves(c, names, x)
    ensures Says(c, names, x, names[x])
  {
    hide WellFormed, RoleOf, Results, FitsSibling, FitsBound, StemOf, Sole, Reached, GroupOf, Says;
    SurvivorHasNoGroup(c, x);
    if x in c.sources {
      SurvivorSays(c, names, x);
    } else if RoleOf(c, x) == Unattributed {
      RootSays(c, names, x);
    } else if Sole(c, x) {
      FirstSays(c, names, x);
    } else {
      SiblingSays(c, names, x);
    }
  }

  lemma SurvivorSays(c: Context, names: map<Shape, string>, x: Shape)
    requires ValidContext(c) && names.Keys == Results(c) && x in Results(c)
    requires x in c.sources && names[x] == c.book[x]
    ensures Says(c, names, x, names[x])
  {
    hide WellFormed, Results, Accounted, Around, Bounded, Alone, NamedStep, Origins, Surrounded, Below;
  }

  // ---------- Nothing else meets them ----------

  ghost predicate AgreeOn(m: map<Shape, string>, n: map<Shape, string>, xs: seq<Shape>) {
    forall x :: x in xs ==> x in m && x in n && m[x] == n[x]
  }

  lemma AgreeDigest(c: Context, m: map<Shape, string>, n: map<Shape, string>, xs: seq<Shape>)
    requires AgreeOn(m, n, xs)
    ensures Digest(c, m, xs) == Digest(c, n, xs)
  {
    hide Normalized;
    assert forall i :: 0 <= i < |xs| ==> xs[i] in xs;
    assert NormalNames(m, xs) == NormalNames(n, xs);
  }

  lemma OneStep(c: Context, x: Shape, a: string, b: string)
    requires ValidContext(c) && NamedStep(c, x, a) && NamedStep(c, x, b)
    ensures a == b
  {
    hide WellFormed, RoleOf, ModifiedImage, GeneratedImage, SectionImage, SectionHash;
    RoleIs(c, x);
  }

  /** An entity's name hangs on the names below it if it is an image, and around it if not. */
  lemma SaysAgree(c: Context, m: map<Shape, string>, n: map<Shape, string>, x: Shape)
    requires ValidContext(c) && Told(c, m) && Told(c, n) && x in Results(c)
    requires Accounted(c, x) && Bounded(c, x) ==> AgreeOn(m, n, Below(c, x))
    requires !Accounted(c, x) && Surrounded(c, x) ==> AgreeOn(m, n, Around(c, x))
    ensures m[x] == n[x]
  {
    hide WellFormed, Accounted, Around, Bounded, Alone, NamedStep, Origins, Surrounded, Below, Digest, AgreeOn;
    assert Says(c, m, x, m[x]) && Says(c, n, x, n[x]);
    BelowInResult(c, x);
    if x in c.sources {
    } else if Accounted(c, x) {
      ImagesAgree(c, m, n, x);
    } else if Surrounded(c, x) {
      AgreeDigest(c, m, n, Around(c, x));
    }
  }

  lemma ImagesAgree(c: Context, m: map<Shape, string>, n: map<Shape, string>, x: Shape)
    requires ValidContext(c) && m.Keys == Results(c) && n.Keys == Results(c) && x in Results(c)
    requires Says(c, m, x, m[x]) && Says(c, n, x, n[x])
    requires Accounted(c, x) && x !in c.sources && (Bounded(c, x) ==> AgreeOn(m, n, Below(c, x)))
    ensures m[x] == n[x]
  {
    hide WellFormed, Accounted, Around, Bounded, Alone, NamedStep, Origins, Surrounded, Below, Digest, AgreeOn, Results;
    BelowInResult(c, x);
    forall a, b | NamedStep(c, x, a) && NamedStep(c, x, b) ensures a == b {
      OneStep(c, x, a, b);
    }
    if Bounded(c, x) {
      AgreeDigest(c, m, n, Below(c, x));
    }
  }

  /** Vertices, edges and faces that history accounts for, from the bottom up. */
  lemma {:induction false} ImagesTold(c: Context, m: map<Shape, string>, n: map<Shape, string>, x: Shape)
    requires ValidContext(c) && Told(c, m) && Told(c, n) && x in Results(c) && Accounted(c, x)
    ensures m[x] == n[x]
    decreases if c.w.kind(x) == Face then 2 else if c.w.kind(x) == Edge then 1 else 0
  {
    hide WellFormed, Accounted, Results, Says, Below;
    BelowInResult(c, x);
    KindBelow(c, x);
    forall y | y in Below(c, x) && Bounded(c, x) ensures y in m && y in n && m[y] == n[y] {
      ImagesTold(c, m, n, y);
    }
    SaysAgree(c, m, n, x);
  }

  lemma KindBelow(c: Context, x: Shape)
    requires ValidContext(c)
    ensures forall y :: y in Below(c, x) ==>
              if c.w.kind(x) == Face then c.w.kind(y) == Edge else c.w.kind(x) == Edge && c.w.kind(y) == Vertex
  {
    hide Nested, Distinct;
  }

  /** The entities nothing accounts for, from the top down. */
  lemma {:induction false} RootsTold(c: Context, m: map<Shape, string>, n: map<Shape, string>, x: Shape)
    requires ValidContext(c) && Told(c, m) && Told(c, n) && x in Results(c) && !Accounted(c, x)
    ensures m[x] == n[x]
    decreases if c.w.kind(x) == Vertex then 1 else 0
  {
    hide WellFormed, Accounted, Results, Says, Around;
    KindAround(c, x);
    forall f | f in Around(c, x) && Surrounded(c, x) ensures f in m && f in n && m[f] == n[f] {
      if Accounted(c, f) {
        ImagesTold(c, m, n, f);
      } else {
        RootsTold(c, m, n, f);
      }
    }
    SaysAgree(c, m, n, x);
  }

  lemma KindAround(c: Context, x: Shape)
    requires ValidContext(c)
    ensures forall f :: f in Around(c, x) ==> f in Results(c) && (c.w.kind(x) == Vertex ==> c.w.kind(f) == Edge)
  {
    hide Nested, Distinct;
  }

  /** The names of a completed run are the one solution of the equations. */
  lemma NamesAreToldIff(c: Context, names: map<Shape, string>)
    requires ValidContext(c) && NamesOfResult(c).Some?
    ensures Told(c, names) <==> names == NamesOfResult(c).value
  {
    hide WellFormed, Accounted, NamesOfResult, Says;
    RunIsTold(c);
    var run := NamesOfResult(c).value;
    if Told(c, names) {
      forall x | x in Results(c) ensures names[x] == run[x] {
        if Accounted(c, x) {
          ImagesTold(c, names, run, x);
        } else {
          RootsTold(c, names, run, x);
        }
      }
    }
  }

  // ---------- In the book ----------

  /** The book gains the solution of the operation's equations. */
  ghost predicate BookGainsSolution(w: World, op: Operation, before: map<Shape, string>, after: map<Shape, string>)
    requires WellFormed(w) && IsHex8(op.prefix) && forall s :: s in AllInputShapes(w, op.inputs) ==> s in before
  {
    SourcesNamed(w, op, before);
    exists m :: Told(Context(w, op, before, SourcesOf(w, op.inputs), GUARD), m) && after == before + m
  }

  lemma AppliedIsSolution(w: World, op: Operation, names: map<Shape, string>)
    requires WellFormed(w) && IsHex8(op.prefix) && Applied(w, op, names).Some?
    ensures BookGainsSolution(w, op, names, Applied(w, op, names).value)
  {
    hide WellFormed, NamesOfResult, SourcesOf, AllInputShapes, Told, Rebinds;
    SourcesNamed(w, op, names);
    RunIsTold(Context(w, op, names, SourcesOf(w, op.inputs), GUARD));
  }
}
