// Two turns end the interleaved loop, and exactly when a naming run stops with "two distinct
// names for one entity".
module NamingRefusal {
  import opened Outcomes
  import opened NameGrammar
  import opened ElementNaming
  import opened NamingProgress
  import opened NamingGrammarKept

  /** The shape of a lower-bound root: no history segment, code 'L'. */
  predicate IsBoundRoot(s: string) {
    |s| > 3 && s[3] == 'L' && SlashFree(s)
  }

  /** A sibling that is named while still waiting can only have been reconstructed. */
  ghost predicate Reserved(p: Progress) {
    forall x :: x in p.open && x in p.names ==> IsBoundRoot(p.names[x])
  }

  /** Some sibling was named behind its back. */
  ghost predicate Overtaken(p: Progress) {
    exists x :: x in p.open && x in p.names
  }

  lemma ChainIsNoBoundRoot(source: string, tail: string)
    ensures !IsBoundRoot(source + "/" + tail)
  {
    assert (source + "/" + tail)[|source|] == '/';
  }

  lemma SectionIsNoBoundRoot(tail: string)
    ensures !IsBoundRoot("n1:S." + tail)
  {
  }

  lemma SiblingNameIsNoBoundRoot(c: Context, names: map<Shape, string>, x: Shape)
    requires ValidContext(c) && Waiting(c, x)
    ensures !IsBoundRoot(SiblingName(c, names, x))
  {
    hide Disambiguator, IsBoundRoot, GroupOf;
    GroupFacts(c, x);
    var g := GroupOf(c, x).value;
    var d := Disambiguator(c, names, x);
    if g.StepGroup? {
      var tail := StepText(g.marker, c.op.prefix) + "." + d;
      ChainIsNoBoundRoot(c.book[g.source], tail);
      assert Stem(c, g) + "." + d == c.book[g.source] + "/" + tail;
    } else {
      var h :| IsHex8(h) && g.base == "n1:S." + c.op.prefix + "." + h;
      var tail := c.op.prefix + "." + h + "." + d;
      SectionIsNoBoundRoot(tail);
      assert Stem(c, g) + "." + d == "n1:S." + tail;
    }
  }

  lemma BoundNameIsBoundRoot(c: Context, names: map<Shape, string>, x: Shape)
    requires ValidContext(c) && forall f :: f in Containers(c, x) ==> f in names
    ensures IsBoundRoot(BoundName(c, names, x))
  {
    var h := HashNames(c.w, NormalNames(names, Containers(c, x)));
    HexHasNoSlash(c.op.prefix);
    HexHasNoSlash(h);
  }

  /** A reconstructed sibling can never take its own name any more. */
  lemma ClashIffBound(c: Context, p: Progress, x: Shape)
    requires ValidContext(c) && ValidProgress(c, p) && Reserved(p) && x in p.open
    ensures Clash(c, p.names, x) <==> x in p.names
  {
    SiblingNameIsNoBoundRoot(c, p.names, x);
  }

  lemma ResolveKindRefuses(c: Context, p: Progress, k: ShapeType, force: bool)
    requires ValidContext(c) && ValidProgress(c, p) && Reserved(p)
    ensures ResolveKind(c, p, k, force).None?
       <==> exists x :: x in ReadyOfKind(c, p, k, force) && x in p.names
    ensures var r := ResolveKind(c, p, k, force);
            r.Some? ==> Reserved(r.value) && (Overtaken(r.value) <==> Overtaken(p))
  {
    forall x | x in p.open ensures Clash(c, p.names, x) <==> x in p.names {
      ClashIffBound(c, p, x);
    }
    var r := ResolveKind(c, p, k, force);
    if r.Some? {
      ResolveKindExtends(c, p, k, force);
      if Overtaken(p) {
        var x :| x in p.open && x in p.names;
        assert x in r.value.open && x in r.value.names;
      }
    }
  }

  /** An unforced sweep refuses only if some sibling was overtaken, and a forced one exactly then. */
  lemma ResolveRefuses(c: Context, p: Progress, force: bool)
    requires ValidContext(c) && ValidProgress(c, p) && Reserved(p)
    ensures Resolve(c, p, force).None? ==> Overtaken(p)
    ensures force && Overtaken(p) ==> Resolve(c, p, force).None?
    ensures var r := Resolve(c, p, force);
            r.Some? ==> Reserved(r.value) && (Overtaken(r.value) <==> Overtaken(p))
  {
    hide ResolveKind, ValidContext, ValidProgress;
    ResolveKindRefuses(c, p, Vertex, force);
    var v := ResolveKind(c, p, Vertex, force);
    if v.Some? {
      ResolveKindRefuses(c, v.value, Edge, force);
      var e := ResolveKind(c, v.value, Edge, force);
      if e.Some? {
        ResolveKindRefuses(c, e.value, Face, force);
        if force && Resolve(c, p, force).Some? {
          ForcedSweepEmptiesOpen(c, p);
        }
      }
    }
  }

  /** An edge still waiting for its own end points although all its faces are named. */
  ghost predicate EdgeOvertaken(c: Context, p: Progress) {
    exists x :: x in p.open && c.w.kind(x) == Edge && Reconstructible(c, p.names, x)
  }

  lemma LowerBoundReserved(c: Context, p: Progress)
    requires ValidContext(c) && ValidProgress(c, p) && Reserved(p)
    ensures Reserved(p.(names := LowerBound(c, p.names)))
  {
    hide IsBoundRoot, BoundName, Nested;
    forall names: map<Shape, string>, x | Reconstructible(c, names, x)
      ensures IsBoundRoot(BoundName(c, names, x))
    {
      BoundNameIsBoundRoot(c, names, x);
    }
  }

  lemma LowerBoundOvertakes(c: Context, p: Progress)
    requires ValidContext(c) && ValidProgress(c, p) && Reserved(p)
    requires forall x :: x in p.open ==> c.w.kind(x) != Vertex
    ensures var q := p.(names := LowerBound(c, p.names));
            Reserved(q) && (Overtaken(q) <==> Overtaken(p) || EdgeOvertaken(c, p))
  {
    hide LowerBound, ValidContext, ValidProgress, Reserved;
    LowerBoundReserved(c, p);
    forall x | x in p.open
      ensures x in LowerBound(c, p.names)
         <==> x in p.names || (c.w.kind(x) == Edge && Reconstructible(c, p.names, x))
    {
      OpenReconstructed(c, p, x);
    }
  }

  lemma OpenReconstructed(c: Context, p: Progress, x: Shape)
    requires ValidContext(c) && ValidProgress(c, p) && x in p.open && c.w.kind(x) != Vertex
    ensures x in LowerBound(c, p.names)
       <==> x in p.names || (c.w.kind(x) == Edge && Reconstructible(c, p.names, x))
  {
    hide BoundName, Reconstructible, Distinct, Nested;
    ResultSetIs(c.w, c.op.result);
    assert InResult(c.w, c.op.result, x);
    assert x in c.w.sub(c.op.result, Vertex) ==> c.w.kind(x) == Vertex;
  }

  lemma SweptVertices(c: Context, p: Progress)
    requires ValidContext(c) && ValidProgress(c, p) && Resolve(c, p, false).Some?
    ensures forall x :: x in Resolve(c, p, false).value.open ==> c.w.kind(x) != Vertex
  {
    var v := ResolveKind(c, p, Vertex, false).value;
    ResolveKindExtends(c, p, Vertex, false);
    ResolveKindExtends(c, v, Edge, false);
    ResolveKindExtends(c, ResolveKind(c, v, Edge, false).value, Face, false);
  }

  lemma TurnRefuses(c: Context, p: Progress)
    requires ValidContext(c) && ValidProgress(c, p) && Reserved(p) && !Overtaken(p)
    ensures Turn(c, p).Some? && Resolve(c, p, false).Some?
    ensures Reserved(Turn(c, p).value)
    ensures Overtaken(Turn(c, p).value) <==> EdgeOvertaken(c, Resolve(c, p, false).value)
  {
    ResolveRefuses(c, p, false);
    SweptVertices(c, p);
    LowerBoundOvertakes(c, Resolve(c, p, false).value);
  }

  /** Once overtaken, never completed. */
  lemma {:induction false} OvertakenNeverCompletes(c: Context, p: Progress, turns: nat)
    requires ValidContext(c) && ValidProgress(c, p) && Reserved(p) && Overtaken(p)
    ensures var q := Interleave(c, p, turns);
            q.None? || Resolve(c, q.value, true).None?
    decreases turns
  {
    hide Turn, Resolve, ValidContext, ValidProgress;
    if turns == 0 || Turn(c, p) == Some(p) {
      ResolveRefuses(c, p, true);
    } else if Turn(c, p).Some? {
      OvertakenStays(c, p);
      OvertakenNeverCompletes(c, Turn(c, p).value, turns - 1);
    }
  }

  lemma OvertakenStays(c: Context, p: Progress)
    requires ValidContext(c) && ValidProgress(c, p) && Reserved(p) && Overtaken(p)
    requires Turn(c, p).Some?
    ensures Reserved(Turn(c, p).value) && Overtaken(Turn(c, p).value)
  {
    ResolveRefuses(c, p, false);
    SweptVertices(c, p);
    LowerBoundOvertakes(c, Resolve(c, p, false).value);
  }

  // ---------- The interleaved loop is over after two turns ----------

  /** After a sweep nothing that still waits can be disambiguated. */
  lemma SweptIsUnready(c: Context, p: Progress)
    requires ValidContext(c) && ValidProgress(c, p) && Resolve(c, p, false).Some?
    ensures var q := Resolve(c, p, false).value;
            forall x :: x in q.open ==> x in p.open && !Ready(c, q.names, x, false)
  {
    forall x | x in Resolve(c, p, false).value.open
      ensures x in p.open && !Ready(c, Resolve(c, p, false).value.names, x, false)
    {
      SweptOne(c, p, x);
    }
  }

  lemma SweptOne(c: Context, p: Progress, x: Shape)
    requires ValidContext(c) && ValidProgress(c, p) && Resolve(c, p, false).Some?
    requires x in Resolve(c, p, false).value.open
    ensures x in p.open && !Ready(c, Resolve(c, p, false).value.names, x, false)
  {
    hide ResolveKind, ValidContext, ValidProgress, Ready, ReadyOfKind;
    var v := ResolveKind(c, p, Vertex, false).value;
    var e := ResolveKind(c, v, Edge, false).value;
    var f := ResolveKind(c, e, Face, false).value;
    OneKindSwept(c, p, Vertex, x);
    OneKindSwept(c, v, Edge, x);
    OneKindSwept(c, e, Face, x);
    SweptKinds(c, p, x);
    var k := c.w.kind(x);
    ReadySeesLowerKind(c, if k == Face then e.names else v.names, f.names, x);
  }

  lemma SweptKinds(c: Context, p: Progress, x: Shape)
    requires ValidContext(c) && ValidProgress(c, p)
    ensures x in p.open ==> c.w.kind(x) in {Face, Edge, Vertex}
  {
    if x in p.open {
      NamedKind(c, x);
    }
  }

  lemma OneKindSwept(c: Context, p: Progress, k: ShapeType, x: Shape)
    requires ValidContext(c) && ValidProgress(c, p) && ResolveKind(c, p, k, false).Some?
    ensures var q := ResolveKind(c, p, k, false).value;
            && (forall y :: y in q.names && y !in p.names ==> c.w.kind(y) == k)
            && (x in q.open ==> x in p.open && (c.w.kind(x) == k ==> k != Vertex && !Ready(c, p.names, x, false)))
  {
    hide ResolveKind, ValidContext, ValidProgress;
    ResolveKindExtends(c, p, k, false);
  }

  /** Names of the other kinds do not make an entity ready. */
  lemma ReadySeesLowerKind(c: Context, names: map<Shape, string>, later: map<Shape, string>, x: Shape)
    requires ValidContext(c) && !Ready(c, names, x, false)
    requires forall y :: y in later && y !in names ==> c.w.kind(y) != LowerKind(c.w.kind(x))
    ensures !Ready(c, later, x, false)
  {
    hide Nested, Distinct;
    if LowerNamed(c, later, x) {
      forall y | y in Lower(c, x) ensures y in names {
        assert c.w.kind(y) == LowerKind(c.w.kind(x));
      }
    }
  }

  lemma LowerKinds(c: Context, x: Shape)
    requires ValidContext(c)
    ensures forall y :: y in Lower(c, x) ==> c.w.kind(y) == LowerKind(c.w.kind(x))
    ensures x in ResultSet(c.w, c.op.result) ==> forall y :: y in Lower(c, x) ==> y in ResultSet(c.w, c.op.result)
  {
    hide Distinct;
    ResultSetIs(c.w, c.op.result);
    if x in ResultSet(c.w, c.op.result) {
      assert Within(c.w, x, c.op.result, c.w.kind(x));
      forall y | y in Lower(c, x) ensures y in ResultSet(c.w, c.op.result) {
        assert Within(c.w, y, x, LowerKind(c.w.kind(x)));
        assert InResult(c.w, c.op.result, y);
      }
    }
  }

  /** What reconstruction makes ready it has itself named: the entity reached last is only
      named once all that contain it are. */
  lemma ReadyOnlyIfBound(c: Context, q: Progress, x: Shape)
    requires ValidContext(c) && ValidProgress(c, q)
    requires x in q.open && c.w.kind(x) != Vertex && !Ready(c, q.names, x, false)
    requires Ready(c, LowerBound(c, q.names), x, false)
    ensures x in LowerBound(c, q.names)
  {
    hide WellFormed, LowerBound;
    NamedKind(c, x);
    LowerKinds(c, x);
    var y :| y in Lower(c, x) && y !in q.names;
    BoundOnce(c, q.names, y);
    HeldBy(c, x, y);
  }

  /** What reconstruction has named is held by named entities only. */
  lemma BoundOnce(c: Context, names: map<Shape, string>, y: Shape)
    requires ValidContext(c) && y !in names && y in LowerBound(c, names)
    ensures forall f :: f in Containers(c, y) ==> f in LowerBound(c, names)
  {
    hide BoundName, Distinct, Nested, Containers;
  }

  lemma HeldBy(c: Context, x: Shape, y: Shape)
    requires ValidContext(c) && x in ResultSet(c.w, c.op.result)
    requires c.w.kind(x) in {Face, Edge} && y in Lower(c, x)
    ensures x in Containers(c, y)
  {
    hide Distinct, Nested;
    ResultSetIs(c.w, c.op.result);
    assert InResult(c.w, c.op.result, x);
  }

  /** A second turn either finds a sibling that was named behind its back, or nothing to do. */
  lemma TurnTwice(c: Context, p: Progress)
    requires ValidContext(c) && ValidProgress(c, p) && Reserved(p) && Turn(c, p).Some?
    ensures var r := Turn(c, p).value; Turn(c, r).None? || Turn(c, r) == Some(r)
  {
    hide ValidContext, ValidProgress, Ready, ResolveKind, LowerBound, Reserved;
    ResolveRefuses(c, p, false);
    SweptIsUnready(c, p);
    SweptVertices(c, p);
    var q := Resolve(c, p, false).value;
    var r := Turn(c, p).value;
    LowerBoundReserved(c, q);
    forall x | x in r.open && Ready(c, r.names, x, false) ensures x in r.names {
      ReadyOnlyIfBound(c, q, x);
    }
    LowerBoundTwice(c, q.names);
    BoundOrUnready(c, r);
  }

  /** A sweep that could take only reconstructed siblings refuses or stands still. */
  lemma BoundOrUnready(c: Context, r: Progress)
    requires ValidContext(c) && ValidProgress(c, r) && Reserved(r)
    requires forall x :: x in r.open && Ready(c, r.names, x, false) ==> x in r.names
    ensures Resolve(c, r, false).None? || Resolve(c, r, false) == Some(r)
  {
    hide ValidContext, ValidProgress, Ready, ResolveKind, Reserved;
    forall k ensures ResolveKind(c, r, k, false).None? || ResolveKind(c, r, k, false) == Some(r) {
      ResolveKindRefuses(c, r, k, false);
      if ReadyOfKind(c, r, k, false) == {} {
        NoReadyNoChange(c, r, k);
      } else {
        var x :| x in ReadyOfKind(c, r, k, false);
        assert x in r.names;
      }
    }
  }

  /** However many turns the guard allows, two do the work of them all, and what a completed
      loop leaves behind is a fixpoint: the guard never cuts it off. */
  lemma TwoTurnsSettle(c: Context)
    requires ValidContext(c)
    ensures Interleave(c, Initial(c), c.guard) == Interleave(c, Initial(c), 2)
    ensures var q := Interleave(c, Initial(c), c.guard); q.Some? ==> Settled(c, q.value)
  {
    InitialReserved(c);
    TwoTurnsFrom(c, Initial(c), c.guard);
  }

  lemma TwoTurnsFrom(c: Context, p: Progress, turns: nat)
    requires ValidContext(c) && ValidProgress(c, p) && Reserved(p) && turns >= 2
    ensures Interleave(c, p, turns) == Interleave(c, p, 2)
    ensures var q := Interleave(c, p, turns); q.Some? ==> Settled(c, q.value)
  {
    hide Turn, ValidContext, ValidProgress, Settled, Reserved;
    var r := Turn(c, p);
    if r.Some? {
      UnchangedIffSettled(c, p);
      TurnTwice(c, p);
      UnchangedIffSettled(c, r.value);
      InterleaveOnce(c, r.value, turns - 1);
      InterleaveOnce(c, r.value, 1);
    }
  }

  lemma InterleaveOnce(c: Context, p: Progress, turns: nat)
    requires ValidContext(c) && ValidProgress(c, p) && turns >= 1
    requires Turn(c, p).None? || Turn(c, p) == Some(p)
    ensures Interleave(c, p, turns) == Turn(c, p)
  {
    hide Turn, ValidContext, ValidProgress;
  }

  lemma InitialReserved(c: Context)
    requires ValidContext(c)
    ensures Reserved(Initial(c)) && ValidProgress(c, Initial(c)) && !Overtaken(Initial(c))
  {
    hide RoleOf, ResultSet, WellFormed, Stem, GroupOf;
    forall x ensures x in c.sources ==> GroupOf(c, x) == None {
      SurvivorHasNoGroup(c, x);
    }
  }

  // ---------- When a run refuses ----------

  /** One of several images of one step, and an edge; it has an end point that history does not
      account for (or no end point at all), and every result face around it carries its name
      from the start: it was there before, or is the only image of its own step. */
  ghost predicate SplitEdgeStranded(c: Context, x: Shape)
    requires ValidContext(c)
  {
    && x in ResultSet(c.w, c.op.result) && c.w.kind(x) == Edge
    && GroupOf(c, x).Some? && !Sole(c, x)
    && (Lower(c, x) == [] || exists y :: y in Lower(c, x) && RoleOf(c, y) == Unattributed)
    && Containers(c, x) != []
    && forall f :: f in Containers(c, x) ==> f in c.sources || Sole(c, f)
  }

  /** A run stops with two distinct names for one entity exactly when some split edge is
      stranded: reconstruction then names it after its faces while it waits for its end points. */
  lemma RefusedIffSplitEdgeStranded(c: Context)
    requires ValidContext(c)
    ensures NamesOfResult(c).None? <==> exists x :: SplitEdgeStranded(c, x)
  {
    hide ValidContext, ValidProgress, Initial, Turn, Resolve, Interleave, Reserved, Overtaken, EdgeOvertaken,
      SplitEdgeStranded;
    var p := Initial(c);
    InitialReserved(c);
    TurnRefuses(c, p);
    StrandedIffOvertaken(c);
    InterleaveOvertaken(c, p);
  }

  /** From a start with nobody overtaken the loop and the forced sweep fail together with turn one. */
  lemma InterleaveOvertaken(c: Context, p: Progress)
    requires ValidContext(c) && ValidProgress(c, p) && Reserved(p) && !Overtaken(p)
    requires Turn(c, p).Some?
    ensures var q := Interleave(c, p, c.guard);
            q.None? || Resolve(c, q.value, true).None? <==> Overtaken(Turn(c, p).value)
  {
    hide ValidProgress, Turn, Resolve, Reserved, Overtaken, WellFormed;
    TurnRefuses(c, p);
    var r := Turn(c, p).value;
    if Overtaken(r) {
      OvertakenNeverCompletes(c, r, c.guard - 1);
    } else {
      TurnRefuses(c, r);
      TurnTwice(c, p);
      InterleaveOnce(c, r, c.guard - 1);
      ResolveRefuses(c, r, true);
    }
  }

  /** Turn one overtakes an edge exactly when some split edge is stranded. */
  lemma StrandedIffOvertaken(c: Context)
    requires ValidContext(c) && Resolve(c, Initial(c), false).Some?
    ensures EdgeOvertaken(c, Resolve(c, Initial(c), false).value) <==> exists x :: SplitEdgeStranded(c, x)
  {
    hide ValidContext, ValidProgress, Initial, Resolve, Reconstructible, SplitEdgeStranded;
    var q := Resolve(c, Initial(c), false).value;
    forall x ensures x in q.open && c.w.kind(x) == Edge && Reconstructible(c, q.names, x) <==> SplitEdgeStranded(c, x) {
      if x in q.open && c.w.kind(x) == Edge && Reconstructible(c, q.names, x) {
        OvertakenIsStranded(c, x);
      } else if SplitEdgeStranded(c, x) {
        StrandedIsOvertaken(c, x);
      }
    }
  }

  /** What the first sweep leaves: all vertices that history accounts for are named, an edge of
      a split exactly when its end points are, a face only when its edges are. */
  lemma FirstSweep(c: Context, x: Shape)
    requires ValidContext(c) && Resolve(c, Initial(c), false).Some?
    requires x in ResultSet(c.w, c.op.result)
    ensures var p, q := Initial(c), Resolve(c, Initial(c), false).value;
            && (x in p.names <==> x in c.sources || Sole(c, x))
            && (x in p.open <==> GroupOf(c, x).Some? && !Sole(c, x))
            && (x in q.names <==> x in p.names || (x in p.open && x !in q.open))
            && (x in q.open ==> x in p.open)
  {
    hide ResolveKind, WellFormed, RoleOf, Ready, GroupOf, FirstName;
    var p := Initial(c);
    SurvivorHasNoGroup(c, x);
    var v := ResolveKind(c, p, Vertex, false).value;
    var e := ResolveKind(c, v, Edge, false).value;
    ResolveKindExtends(c, p, Vertex, false);
    ResolveKindExtends(c, v, Edge, false);
    ResolveKindExtends(c, e, Face, false);
  }

  lemma FirstSweepTakes(c: Context, x: Shape)
    requires ValidContext(c) && Resolve(c, Initial(c), false).Some?
    requires x in Initial(c).open
    ensures var q := Resolve(c, Initial(c), false).value;
            && (c.w.kind(x) == Vertex ==> x !in q.open)
            && (c.w.kind(x) == Edge ==> (x in q.open <==> !LowerNamed(c, q.names, x)))
            && (x !in q.open && c.w.kind(x) == Face ==> LowerNamed(c, q.names, x))
  {
    hide ResolveKind, WellFormed, RoleOf, Initial;
    var p := Initial(c);
    var v := ResolveKind(c, p, Vertex, false).value;
    var e := ResolveKind(c, v, Edge, false).value;
    ResolveKindExtends(c, p, Vertex, false);
    ResolveKindExtends(c, v, Edge, false);
    ResolveKindExtends(c, e, Face, false);
    var q := Resolve(c, p, false).value;
    if c.w.kind(x) == Edge && LowerNamed(c, q.names, x) {
      LowerKinds(c, x);
      assert LowerNamed(c, v.names, x);
    }
  }

  lemma ContainersInResult(c: Context, x: Shape)
    requires ValidContext(c) && c.w.kind(x) == Edge
    ensures forall f :: f in Containers(c, x) ==>
              f in ResultSet(c.w, c.op.result) && c.w.kind(f) == Face && x in Lower(c, f)
  {
    hide Distinct, Nested;
    ResultSetIs(c.w, c.op.result);
    forall f | f in Containers(c, x) ensures f in ResultSet(c.w, c.op.result) {
      assert InResult(c.w, c.op.result, f);
    }
  }

  lemma OvertakenIsStranded(c: Context, x: Shape)
    requires ValidContext(c) && Resolve(c, Initial(c), false).Some?
    requires var q := Resolve(c, Initial(c), false).value;
             x in q.open && c.w.kind(x) == Edge && Reconstructible(c, q.names, x)
    ensures SplitEdgeStranded(c, x)
  {
    hide WellFormed, Initial, Resolve, RoleOf, Sole, GroupOf, Lower, Containers;
    var q := Resolve(c, Initial(c), false).value;
    FirstSweep(c, x);
    FirstSweepTakes(c, x);
    LowerKinds(c, x);
    if Lower(c, x) != [] {
      var y :| y in Lower(c, x) && y !in q.names;
      FirstSweep(c, y);
      SurvivorHasNoGroup(c, y);
      if y in Initial(c).open {
        FirstSweepTakes(c, y);
      }
    }
    ContainersInResult(c, x);
    forall f | f in Containers(c, x) ensures f in c.sources || Sole(c, f) {
      FirstSweep(c, f);
      if f in Initial(c).open {
        FirstSweepTakes(c, f);
      }
    }
  }

  lemma StrandedIsOvertaken(c: Context, x: Shape)
    requires ValidContext(c) && Resolve(c, Initial(c), false).Some?
    requires SplitEdgeStranded(c, x)
    ensures var q := Resolve(c, Initial(c), false).value;
            x in q.open && c.w.kind(x) == Edge && Reconstructible(c, q.names, x)
  {
    hide WellFormed, Initial, Resolve, RoleOf, Sole, GroupOf, Lower, Containers;
    var q := Resolve(c, Initial(c), false).value;
    FirstSweep(c, x);
    FirstSweepTakes(c, x);
    LowerKinds(c, x);
    SurvivorHasNoGroup(c, x);
    if Lower(c, x) != [] {
      var y :| y in Lower(c, x) && RoleOf(c, y) == Unattributed;
      FirstSweep(c, y);
      SurvivorHasNoGroup(c, y);
      SoleHasGroup(c, y);
    }
    ContainersInResult(c, x);
    forall f | f in Containers(c, x) ensures f in q.names {
      FirstSweep(c, f);
    }
  }

  lemma SoleHasGroup(c: Context, x: Shape)
    requires ValidContext(c)
    ensures Sole(c, x) ==> GroupOf(c, x).Some?
  {
  }

  /** With no split edge among the images, every run completes. */
  lemma CompletesWithoutSplitEdges(c: Context)
    requires ValidContext(c)
    requires forall x :: x in Initial(c).open ==> c.w.kind(x) != Edge
    ensures NamesOfResult(c).Some?
  {
    hide WellFormed, NamesOfResult, SplitEdgeStranded, Initial;
    RefusedIffSplitEdgeStranded(c);
    if x :| SplitEdgeStranded(c, x) {
      StrandedWaits(c, x);
    }
  }

  lemma StrandedWaits(c: Context, x: Shape)
    requires ValidContext(c) && SplitEdgeStranded(c, x)
    ensures x in Initial(c).open && c.w.kind(x) == Edge
  {
    hide WellFormed, RoleOf, ResultSet, Sole, Lower, Containers, GroupOf;
  }

  /** When the sources are all sub-shapes of the inputs, a stranded edge lies on no untouched face. */
  lemma StrandedAmongNewFaces(c: Context, x: Shape)
    requires ValidContext(c) && c.sources == SourcesOf(c.w, c.op.inputs) && SplitEdgeStranded(c, x)
    ensures forall f :: f in Containers(c, x) ==> f !in c.sources && Sole(c, f)
  {
    hide RoleOf, Sole, ResultSet, SourcesOf;
    SurvivorHasNoGroup(c, x);
    ContainersInResult(c, x);
    forall f | f in Containers(c, x) ensures f !in c.sources {
      if f in c.sources {
        SourcesNested(c.w, c.op.inputs, f, x);
      }
    }
  }

  lemma {:induction false} SourcesNested(w: World, inputs: seq<Shape>, f: Shape, x: Shape)
    requires WellFormed(w) && f in SourcesOf(w, inputs)
    requires w.kind(x) == Edge && x in w.sub(f, Edge)
    ensures x in SourcesOf(w, inputs)
  {
    hide SourcesOf, WellFormed;
    InputShapesNested(w, inputs, f, x);
    assert forall y :: y in SourcesOf(w, inputs) <==> y in AllInputShapes(w, inputs) by { SourcesAre(w, inputs); }
  }

  lemma SourcesAre(w: World, inputs: seq<Shape>)
    ensures forall y :: y in SourcesOf(w, inputs) <==> y in AllInputShapes(w, inputs)
  {
  }

  lemma {:induction false} InputShapesNested(w: World, inputs: seq<Shape>, f: Shape, x: Shape)
    requires WellFormed(w) && x in w.sub(f, Edge)
    ensures f in AllInputShapes(w, inputs) ==> x in AllInputShapes(w, inputs)
  {
    hide Distinct;
    if inputs != [] {
      InputShapesNested(w, inputs[1..], f, x);
      assert Within(w, x, f, Edge);
      assert forall k :: f in w.sub(inputs[0], k) ==> Within(w, f, inputs[0], k);
    }
  }
}
