// One run on its own: every result entity ends with one name, names never change, and each
// turn of a loop either stands still at a fixpoint or leaves less to do.
module NamingProgress {
  import opened Outcomes
  import opened NameGrammar
  import opened ElementNaming

  ghost predicate Extends(m: map<Shape, string>, n: map<Shape, string>) {
    forall x :: x in m ==> x in n && n[x] == m[x]
  }

  // ---------- Names are only ever added ----------

  lemma ResolveKindExtends(c: Context, p: Progress, k: ShapeType, force: bool)
    requires ValidContext(c) && ValidProgress(c, p)
    requires ResolveKind(c, p, k, force).Some?
    ensures var q := ResolveKind(c, p, k, force).value;
            && Extends(p.names, q.names)
            && q.names.Keys == p.names.Keys + ReadyOfKind(c, p, k, force)
            && q.open == p.open - ReadyOfKind(c, p, k, force)
  {
    hide WellFormed, SiblingName, Ready, ResultSet;
    forall x | x in p.names && x in ReadyOfKind(c, p, k, force)
      ensures SiblingName(c, p.names, x) == p.names[x]
    {
      assert !Clash(c, p.names, x);
    }
  }

  lemma ResolveExtends(c: Context, p: Progress, force: bool)
    requires ValidContext(c) && ValidProgress(c, p)
    requires Resolve(c, p, force).Some?
    ensures var q := Resolve(c, p, force).value;
            Extends(p.names, q.names) && q.open <= p.open && p.open - q.open <= q.names.Keys
  {
    var v := ResolveKind(c, p, Vertex, force).value;
    var e := ResolveKind(c, v, Edge, force).value;
    ResolveKindExtends(c, p, Vertex, force);
    ResolveKindExtends(c, v, Edge, force);
    ResolveKindExtends(c, e, Face, force);
  }

  lemma TurnExtends(c: Context, p: Progress)
    requires ValidContext(c) && ValidProgress(c, p)
    requires Turn(c, p).Some?
    ensures var q := Turn(c, p).value;
            Extends(p.names, q.names) && q.open <= p.open && p.open - q.open <= q.names.Keys
  {
    ResolveExtends(c, p, false);
  }

  lemma {:induction false} InterleaveExtends(c: Context, p: Progress, turns: nat)
    requires ValidContext(c) && ValidProgress(c, p)
    requires Interleave(c, p, turns).Some?
    ensures var q := Interleave(c, p, turns).value;
            Extends(p.names, q.names) && q.open <= p.open && p.open - q.open <= q.names.Keys
    decreases turns
  {
    hide Turn, ValidContext, ValidProgress;
    if turns > 0 {
      TurnExtends(c, p);
      var q := Turn(c, p).value;
      if q != p {
        InterleaveExtends(c, q, turns - 1);
      }
    }
  }

  /** The forced sweep leaves no sibling waiting. */
  lemma ForcedSweepEmptiesOpen(c: Context, p: Progress)
    requires ValidContext(c) && ValidProgress(c, p)
    requires Resolve(c, p, true).Some?
    ensures Resolve(c, p, true).value.open == {}
  {
    var v := ResolveKind(c, p, Vertex, true).value;
    var e := ResolveKind(c, v, Edge, true).value;
    ResolveKindExtends(c, p, Vertex, true);
    ResolveKindExtends(c, v, Edge, true);
    ResolveKindExtends(c, e, Face, true);
    var f := ResolveKind(c, e, Face, true).value;
    forall x | x in p.open ensures x !in f.open {
      NamedKind(c, x);
    }
  }

  lemma NamedKind(c: Context, x: Shape)
    requires ValidContext(c) && x in ResultSet(c.w, c.op.result)
    ensures c.w.kind(x) in {Face, Edge, Vertex}
  {
    ResultSetIs(c.w, c.op.result);
  }

  lemma SurvivorHasNoGroup(c: Context, x: Shape)
    requires ValidContext(c)
    ensures x in c.sources ==> GroupOf(c, x) == None
    ensures GroupOf(c, x) == None && x !in c.sources <==> RoleOf(c, x) == Unattributed
  {
  }

  lemma LowerBoundStandstill(c: Context, names: map<Shape, string>)
    ensures LowerBound(c, names) == names <==> LowerBound(c, names).Keys == names.Keys
  {
    hide LowerBound;
    if LowerBound(c, names).Keys == names.Keys {
      assert LowerBound(c, names) == names;
    }
  }

  // ---------- The interleaved loop ----------

  /** Siblings still waiting plus entities still unnamed. */
  ghost function Measure(c: Context, p: Progress): nat {
    |p.open| + |ResultSet(c.w, c.op.result) - p.names.Keys|
  }

  /** Nothing more can be disambiguated without force, and nothing reconstructed. */
  ghost predicate Settled(c: Context, p: Progress)
    requires ValidContext(c) && ValidProgress(c, p)
  {
    && (forall x :: x in p.open ==> !Ready(c, p.names, x, false))
    && (forall x :: x in ResultSet(c.w, c.op.result) && c.w.kind(x) in {Edge, Vertex}
          ==> !Reconstructible(c, p.names, x))
  }

  lemma NoReadyNoChange(c: Context, p: Progress, k: ShapeType)
    requires ValidContext(c) && ValidProgress(c, p)
    ensures ReadyOfKind(c, p, k, false) == {} ==> ResolveKind(c, p, k, false) == Some(p)
  {
    hide WellFormed, SiblingName, Ready;
    if ReadyOfKind(c, p, k, false) == {} {
      var q := ResolveKind(c, p, k, false).value;
      assert q.names == p.names && q.open == p.open;
    }
  }

  /** A turn that changes nothing is a true fixpoint, and conversely. */
  lemma UnchangedIffSettled(c: Context, p: Progress)
    requires ValidContext(c) && ValidProgress(c, p)
    ensures Turn(c, p) == Some(p) <==> Settled(c, p)
  {
    if Settled(c, p) {
      SettledUnchanged(c, p);
    } else if Turn(c, p) == Some(p) {
      UnchangedSettled(c, p);
    }
  }

  lemma SettledUnchanged(c: Context, p: Progress)
    requires ValidContext(c) && ValidProgress(c, p) && Settled(c, p)
    ensures Turn(c, p) == Some(p)
  {
    NoReadyNoChange(c, p, Vertex);
    NoReadyNoChange(c, p, Edge);
    NoReadyNoChange(c, p, Face);
    assert Resolve(c, p, false) == Some(p);
    NothingToRebuild(c, p);
  }

  lemma UnchangedSettled(c: Context, p: Progress)
    requires ValidContext(c) && ValidProgress(c, p)
    requires Turn(c, p) == Some(p)
    ensures Settled(c, p)
  {
    var v := ResolveKind(c, p, Vertex, false).value;
    ResolveKindExtends(c, p, Vertex, false);
    ResolveKindExtends(c, v, Edge, false);
    var e := ResolveKind(c, v, Edge, false).value;
    ResolveKindExtends(c, e, Face, false);
    assert ReadyOfKind(c, p, Vertex, false) == {};
    NoReadyNoChange(c, p, Vertex);
    assert ReadyOfKind(c, p, Edge, false) == {};
    NoReadyNoChange(c, p, Edge);
    assert ReadyOfKind(c, p, Face, false) == {};
    NoReadyNoChange(c, p, Face);
    forall x | x in p.open ensures !Ready(c, p.names, x, false) {
      NamedKind(c, x);
      assert x !in ReadyOfKind(c, p, c.w.kind(x), false);
    }
    UnchangedRebuild(c, p);
  }

  lemma NothingToRebuild(c: Context, p: Progress)
    requires ValidContext(c) && ValidProgress(c, p) && Settled(c, p)
    ensures LowerBound(c, p.names) == p.names
  {
    ResultSetIs(c.w, c.op.result);
    forall k, x | k in {Edge, Vertex} && x in c.w.sub(c.op.result, k)
      ensures !Reconstructible(c, p.names, x)
    {
      assert InResult(c.w, c.op.result, x);
    }
    assert ReconstructKind(c, p.names, Edge) == p.names;
  }

  lemma UnchangedRebuild(c: Context, p: Progress)
    requires ValidContext(c) && ValidProgress(c, p)
    requires LowerBound(c, p.names) == p.names
    ensures forall x :: x in ResultSet(c.w, c.op.result) && c.w.kind(x) in {Edge, Vertex}
              ==> !Reconstructible(c, p.names, x)
  {
    ResultSetIs(c.w, c.op.result);
    var edges := ReconstructKind(c, p.names, Edge);
    assert edges.Keys == p.names.Keys;
    assert edges == p.names;
    forall x | x in ResultSet(c.w, c.op.result) && c.w.kind(x) in {Edge, Vertex}
      ensures !Reconstructible(c, p.names, x)
    {
      assert InResult(c.w, c.op.result, x);
      assert Reconstructible(c, p.names, x) ==> x in ReconstructKind(c, p.names, c.w.kind(x));
    }
  }

  /** Each turn that changes something makes strictly less work for the next. */
  lemma TurnDecreases(c: Context, p: Progress)
    requires ValidContext(c) && ValidProgress(c, p)
    requires Turn(c, p).Some? && Turn(c, p).value != p
    ensures Measure(c, Turn(c, p).value) < Measure(c, p)
  {
    hide Turn, ValidContext, ResultSet;
    var q := Turn(c, p).value;
    TurnExtends(c, p);
    Shrinks(ResultSet(c.w, c.op.result), p, q);
  }

  lemma Shrinks(all: set<Shape>, p: Progress, q: Progress)
    requires Extends(p.names, q.names) && q.open <= p.open && q != p
    requires p.names.Keys <= all && q.names.Keys <= all
    ensures |q.open| + |all - q.names.Keys| < |p.open| + |all - p.names.Keys|
  {
    Smaller(q.open, p.open);
    Smaller(all - q.names.Keys, all - p.names.Keys);
    if all - q.names.Keys == all - p.names.Keys {
      assert q.names.Keys == all - (all - q.names.Keys);
      assert p.names.Keys == all - (all - p.names.Keys);
      assert q.names == p.names;
    }
  }

  lemma Smaller(a: set<Shape>, b: set<Shape>)
    requires a <= b
    ensures |a| <= |b| && (a != b ==> |a| < |b|)
  {
    assert b == a + (b - a);
    if a != b {
      assert b - a != {};
    }
  }

  // ---------- The reconstruction loop after the forced sweep ----------

  /** Faces never gain names from reconstruction, so one more call finds nothing: the second
      loop always stops by itself, on its second turn at the latest. */
  lemma RebuildStopsAtOnce(c: Context, names: map<Shape, string>, turns: nat)
    requires ValidContext(c) && turns >= 2
    ensures LowerBound(c, LowerBound(c, names)) == LowerBound(c, names)
    ensures Rebuild(c, names, turns) == LowerBound(c, names)
  {
    LowerBoundTwice(c, names);
    var once := LowerBound(c, names);
    if once != names {
      assert Rebuild(c, once, turns - 1) == once;
    }
  }

  lemma LowerBoundTwice(c: Context, names: map<Shape, string>)
    requires ValidContext(c)
    ensures LowerBound(c, LowerBound(c, names)) == LowerBound(c, names)
  {
    var edges := ReconstructKind(c, names, Edge);
    var once := ReconstructKind(c, edges, Vertex);
    ReconstructAgain(c, names, once, Edge);
    ReconstructAgain(c, edges, once, Vertex);
  }

  /** Reconstructing a kind again, after its containers' kind stood still, adds nothing. */
  lemma ReconstructAgain(c: Context, names: map<Shape, string>, later: map<Shape, string>, k: ShapeType)
    requires ValidContext(c) && k in {Edge, Vertex}
    requires Extends(ReconstructKind(c, names, k), later)
    requires forall f :: c.w.kind(f) == (if k == Edge then Face else Edge) && f in later ==> f in names
    ensures ReconstructKind(c, later, k) == later
  {
    hide BoundName, IsHex8, Distinct;
    forall x | x in c.w.sub(c.op.result, k) ensures !Reconstructible(c, later, x) {
      assert c.w.kind(x) == k;
      assert Reconstructible(c, later, x) ==> Reconstructible(c, names, x) || x in names;
    }
  }

  // ---------- Coverage ----------

  /** Every face, edge and vertex of the result has a name, and nothing else has. */
  lemma TotalCoverage(c: Context)
    requires ValidContext(c) && NamesOfResult(c).Some?
    ensures NamesOfResult(c).value.Keys == ResultSet(c.w, c.op.result)
  {
    var p := Settle(c).value;
    RebuildStopsAtOnce(c, p.names, c.guard);
    LowerBoundValid(c, p);
  }

  /** Untouched entities keep their names exactly. */
  lemma SurvivorsKeepNames(c: Context, x: Shape)
    requires ValidContext(c) && NamesOfResult(c).Some?
    requires x in ResultSet(c.w, c.op.result) && x in c.sources
    ensures NamesOfResult(c).value[x] == c.book[x]
  {
    var p := Interleave(c, Initial(c), c.guard).value;
    InterleaveExtends(c, Initial(c), c.guard);
    ResolveExtends(c, p, true);
    assert x in Initial(c).names;
    assert Extends(Initial(c).names, Settle(c).value.names);
  }
}
