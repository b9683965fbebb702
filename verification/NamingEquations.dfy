// One equation per entity: what a completed run calls an entity, said of the final names
// themselves and of the history as it was handed in, without the passes that find it.
module NamingEquations {
  import opened Outcomes
  import opened NameGrammar
  import opened NameDigest
  import opened ElementNaming
  import opened NamingGrammarKept
  import opened NamingRefusal
  import opened NamingAlignment

  // ---------- Descent, read straight off the history ----------

  /** An input entity, or an image of one. */
  ghost predicate Accounted(c: Context, x: Shape) {
    x in c.sources || exists s :: s in c.sources && Lists(c.op, s, x)
  }

  /** The first source with x among its Modified images is s. */
  ghost predicate ModifiedImage(c: Context, s: Shape, x: Shape) {
    && x !in c.sources
    && exists o: nat :: o < |c.sources| && c.sources[o] == s && x in c.op.modified(s)
         && forall i :: 0 <= i < o ==> x !in c.op.modified(c.sources[i])
  }

  ghost predicate Unmodified(c: Context, x: Shape) {
    x !in c.sources && forall s :: s in c.sources ==> x !in c.op.modified(s)
  }

  ghost predicate GeneratedImage(c: Context, s: Shape, x: Shape) {
    && Unmodified(c, x) && s in c.sources && x in c.op.generated(s)
    && forall t :: t in c.sources && x in c.op.generated(t) ==> t == s
  }

  ghost predicate SectionImage(c: Context, x: Shape) {
    && Unmodified(c, x)
    && exists s, t :: s in c.sources && t in c.sources && s != t && x in c.op.generated(s) && x in c.op.generated(t)
  }

  /** The members of xs that are in keep, in order. */
  function Filtered(xs: seq<Shape>, keep: set<Shape>): (r: seq<Shape>)
    ensures forall x :: x in r <==> x in xs && x in keep
  {
    if xs == [] then []
    else
      assert xs == [xs[0]] + xs[1..];
      (if xs[0] in keep then [xs[0]] else []) + Filtered(xs[1..], keep)
  }

  ghost function Generators(c: Context, x: Shape): set<Shape> {
    set s | s in c.sources && x in c.op.generated(s)
  }

  /** A vertex's parents among the edges, an edge's among the faces. */
  ghost function UpperGenerators(c: Context, x: Shape): set<Shape> {
    set s | s in Generators(c, x) && c.w.kind(s) == if c.w.kind(x) == Vertex then Edge else Face
  }

  /** The sources a section entity is named after: two or more from the next kind up, or all. */
  ghost function Parentage(c: Context, x: Shape): (r: set<Shape>)
    ensures forall s :: s in r ==> s in c.sources
  {
    if c.w.kind(x) != Face && |UpperGenerators(c, x)| >= 2 then UpperGenerators(c, x) else Generators(c, x)
  }

  /** The digest of the normal forms of the names of xs. */
  ghost function Digest(c: Context, names: map<Shape, string>, xs: seq<Shape>): string
    requires forall x :: x in xs ==> x in names
  {
    c.w.hash8(DigestInput(NormalNames(names, xs)))
  }

  ghost function SectionHash(c: Context, x: Shape): string
    requires ValidContext(c)
  {
    Digest(c, c.book, Filtered(c.sources, Parentage(c, x)))
  }

  /** Images of one kind that share one step. */
  ghost predicate Mates(c: Context, x: Shape, y: Shape)
    requires ValidContext(c)
  {
    && c.w.kind(x) == c.w.kind(y)
    && ((exists s :: ModifiedImage(c, s, x) && ModifiedImage(c, s, y))
        || (exists s :: GeneratedImage(c, s, x) && GeneratedImage(c, s, y))
        || (SectionImage(c, x) && SectionImage(c, y) && SectionHash(c, x) == SectionHash(c, y)))
  }

  /** The only image of its step. */
  ghost predicate Alone(c: Context, x: Shape)
    requires ValidContext(c)
  {
    forall y :: y in Results(c) && Mates(c, x, y) ==> y == x
  }

  /** The name of a step, before any disambiguator. */
  ghost predicate NamedStep(c: Context, x: Shape, name: string)
    requires ValidContext(c)
  {
    || (exists s :: s in c.book && ModifiedImage(c, s, x) && name == c.book[s] + "/M." + c.op.prefix)
    || (exists s :: s in c.book && GeneratedImage(c, s, x) && name == c.book[s] + "/G." + c.op.prefix)
    || (SectionImage(c, x) && name == "n1:S." + c.op.prefix + "." + SectionHash(c, x))
  }

  /** The construction entities that fix the quantum of an image's geometry key. */
  ghost function Origins(c: Context, x: Shape): set<Shape> {
    set s | s in c.sources &&
            (ModifiedImage(c, s, x) || GeneratedImage(c, s, x) || (SectionImage(c, x) && s in Parentage(c, x)))
  }

  // ---------- Incidence ----------

  /** An edge's end points, a face's edges. */
  function Below(c: Context, x: Shape): seq<Shape> {
    if c.w.kind(x) == Face then c.w.sub(x, Edge) else if c.w.kind(x) == Edge then c.w.sub(x, Vertex) else []
  }

  /** An edge or face all of whose lower entities history accounts for. */
  ghost predicate Bounded(c: Context, x: Shape) {
    Below(c, x) != [] && forall y :: y in Below(c, x) ==> Accounted(c, y)
  }

  /** The result faces around an edge, the result edges around a vertex. */
  ghost function Around(c: Context, x: Shape): (r: seq<Shape>)
    requires ValidContext(c)
    ensures forall f :: f in r ==> f in Results(c)
  {
    ResultSetIs(c.w, c.op.result);
    if c.w.kind(x) == Edge then Filtered(c.w.sub(c.op.result, Face), set f | f in Results(c) && x in c.w.sub(f, Edge))
    else if c.w.kind(x) == Vertex
    then Filtered(c.w.sub(c.op.result, Edge), set f | f in Results(c) && x in c.w.sub(f, Vertex))
    else []
  }

  /** An edge between accounted faces, or a vertex of edges that are accounted for or such edges. */
  ghost predicate Surrounded(c: Context, x: Shape)
    requires ValidContext(c)
  {
    && Around(c, x) != []
    && forall f :: f in Around(c, x) ==>
         || Accounted(c, f)
         || (c.w.kind(x) == Vertex && Around(c, f) != [] && forall g :: g in Around(c, f) ==> Accounted(c, g))
  }

  // ---------- The equations ----------

  /** What the other names and the history make of x. */
  ghost predicate Says(c: Context, names: map<Shape, string>, x: Shape, name: string)
    requires ValidContext(c) && forall y :: y in Results(c) ==> y in names
    requires x in Results(c)
  {
    BelowInResult(c, x);
    if x in c.sources then name == c.book[x]
    else if !Accounted(c, x) then
      name == if Surrounded(c, x) then "n1:L." + c.op.prefix + "." + Digest(c, names, Around(c, x))
              else "n1:Q." + c.w.hash8(c.w.geometryKey(x, {c.op.result}))
    else
      exists step :: NamedStep(c, x, step) &&
        name == if Alone(c, x) then step
                else step + "." + if Bounded(c, x) then Digest(c, names, Below(c, x))
                                  else c.w.hash8(c.w.geometryKey(x, Origins(c, x)))
  }

  /** Names for exactly the result's entities, each what the others make of it. */
  ghost predicate Told(c: Context, names: map<Shape, string>)
    requires ValidContext(c)
  {
    names.Keys == Results(c) && forall x :: x in Results(c) ==> Says(c, names, x, names[x])
  }

  lemma BelowInResult(c: Context, x: Shape)
    requires ValidContext(c) && x in Results(c)
    ensures forall y :: y in Below(c, x) ==> y in Results(c)
  {
    LowerKinds(c, x);
  }

  // ---------- Both readings of the history agree ----------

  /** The first of the parents is the first source that lists x. */
  lemma FirstParent(c: Context, x: Shape)
    requires x !in c.sources
    ensures var m := Pick(c.sources, Parents(c.op.modified, c.sources, x, |c.sources|));
            forall s :: m != [] && m[0] == s <==> ModifiedImage(c, s, x)
  {
    hide Parents, Pick;
    var ordinals := Parents(c.op.modified, c.sources, x, |c.sources|);
    var m := Pick(c.sources, ordinals);
    if m != [] {
      assert ordinals[0] in ordinals;
      forall o: nat | o < ordinals[0] ensures o !in ordinals {
      }
      assert ModifiedImage(c, m[0], x);
    }
    forall s | ModifiedImage(c, s, x) ensures m != [] && m[0] == s {
      var o: nat :| o < |c.sources| && c.sources[o] == s && x in c.op.modified(s)
        && forall i :: 0 <= i < o ==> x !in c.op.modified(c.sources[i]);
      assert o in ordinals;
      assert ordinals[0] in ordinals;
    }
  }

  lemma RoleIs(c: Context, x: Shape)
    requires Distinct(c.sources)
    ensures RoleOf(c, x) == Survivor <==> x in c.sources
    ensures forall s :: RoleOf(c, x) == ModifiedFrom(s) <==> ModifiedImage(c, s, x)
    ensures forall s :: RoleOf(c, x) == GeneratedFrom(s) <==> GeneratedImage(c, s, x)
    ensures RoleOf(c, x).SectionOf? <==> SectionImage(c, x)
    ensures RoleOf(c, x) == Unattributed <==> !Accounted(c, x)
  {
    hide Parents, Pick, ModifiedImage;
    RoleUnfolds(c, x);
    ParentsPicked(c.op.modified, c.sources, x);
    ParentsPicked(c.op.generated, c.sources, x);
    var m := Pick(c.sources, Parents(c.op.modified, c.sources, x, |c.sources|));
    var g := Pick(c.sources, Parents(c.op.generated, c.sources, x, |c.sources|));
    forall s ensures RoleOf(c, x) == ModifiedFrom(s) <==> ModifiedImage(c, s, x) {
      if x in c.sources {
        ImageIsNew(c, s, x);
      } else {
        FirstParent(c, x);
      }
    }
    assert m != [] ==> m[0] in m;
    assert g != [] ==> g[0] in g;
    assert |g| >= 2 ==> g[1] in g && g[0] != g[1];
    assert Unmodified(c, x) <==> x !in c.sources && m == [];
  }

  lemma ImageIsNew(c: Context, s: Shape, x: Shape)
    ensures ModifiedImage(c, s, x) ==> x !in c.sources
  {
  }

  lemma {:induction false} FilteredDistinct(xs: seq<Shape>, keep: set<Shape>)
    requires Distinct(xs)
    ensures Distinct(Filtered(xs, keep))
  {
    if xs != [] {
      FilteredDistinct(xs[1..], keep);
      assert xs[0] !in xs[1..];
    }
  }

  /** A digest depends only on which entities it is taken over. */
  lemma DigestOfMembers(c: Context, names: map<Shape, string>, xs: seq<Shape>, ys: seq<Shape>)
    requires Distinct(xs) && Distinct(ys)
    requires forall x :: x in xs <==> x in ys
    requires forall x :: x in xs ==> x in names
    ensures HashNames(c.w, NormalNames(names, xs)) == Digest(c, names, ys)
  {
    hide NormalNames, Distinct;
    DistinctSameElements(xs, ys);
    NormalNamesRearranged(names, xs, ys);
    DigestOrderFree(NormalNames(names, xs), NormalNames(names, ys));
  }

  lemma {:induction false} OfKindDistinct(w: World, xs: seq<Shape>, k: ShapeType)
    requires Distinct(xs)
    ensures Distinct(OfKind(w, xs, k))
  {
    if xs != [] {
      OfKindDistinct(w, xs[1..], k);
      assert xs[0] !in xs[1..];
    }
  }

  lemma {:induction false} DistinctSize(xs: seq<Shape>, all: set<Shape>)
    requires Distinct(xs) && forall x :: x in all <==> x in xs
    ensures |all| == |xs|
    decreases |xs|
  {
    if xs == [] {
      assert all == {};
    } else {
      assert xs == [xs[0]] + xs[1..];
      assert xs[0] !in xs[1..];
      assert xs[0] in all;
      DistinctSize(xs[1..], all - {xs[0]});
    }
  }

  /** The parents chosen for a section entity's root are its parentage. */
  lemma ChosenIs(c: Context, x: Shape)
    requires ValidContext(c) && RoleOf(c, x).SectionOf?
    ensures var r := Chosen(c.w, c.w.kind(x), RoleOf(c, x).parents);
            Distinct(r) && forall s :: s in r <==> s in Parentage(c, x)
  {
    hide Parents, Pick, Nested, Chosen, IsHex8;
    RoleUnfolds(c, x);
    ParentsPicked(c.op.generated, c.sources, x);
    ChosenAmong(c, x, RoleOf(c, x).parents);
  }

  lemma ChosenAmong(c: Context, x: Shape, parents: seq<Shape>)
    requires Distinct(parents) && forall s :: s in parents <==> s in Generators(c, x)
    ensures var r := Chosen(c.w, c.w.kind(x), parents); Distinct(r) && forall s :: s in r <==> s in Parentage(c, x)
  {
    hide Distinct, Generators;
    var k := if c.w.kind(x) == Vertex then Edge else Face;
    OfKindDistinct(c.w, parents, k);
    DistinctSize(OfKind(c.w, parents, k), UpperGenerators(c, x));
  }

  lemma SectionBaseIs(c: Context, x: Shape)
    requires ValidContext(c) && RoleOf(c, x).SectionOf?
    ensures SectionBase(c, c.w.kind(x), RoleOf(c, x).parents) == "n1:S." + c.op.prefix + "." + SectionHash(c, x)
  {
    hide Parentage, Nested, Chosen, IsHex8, RoleOf, HashNames, Digest;
    ChosenIs(c, x);
    FilteredDistinct(c.sources, Parentage(c, x));
    DigestOfMembers(c, c.book, Chosen(c.w, c.w.kind(x), RoleOf(c, x).parents), Filtered(c.sources, Parentage(c, x)));
  }

  /** An image's step, in the history's terms. */
  lemma GroupIs(c: Context, x: Shape)
    requires ValidContext(c)
    ensures GroupOf(c, x) == match RoleOf(c, x)
      case ModifiedFrom(s) => Some(StepGroup(s, 'M', c.w.kind(x)))
      case GeneratedFrom(s) => Some(StepGroup(s, 'G', c.w.kind(x)))
      case SectionOf(_) => Some(SectionGroup("n1:S." + c.op.prefix + "." + SectionHash(c, x), c.w.kind(x)))
      case _ => None
  {
    hide RoleOf, SectionHash, SectionBase, WellFormed;
    if RoleOf(c, x).SectionOf? {
      SectionBaseIs(c, x);
    }
  }

  lemma MatesIs(c: Context, x: Shape, y: Shape)
    requires ValidContext(c)
    ensures Mates(c, x, y) <==> GroupOf(c, x).Some? && GroupOf(c, y) == GroupOf(c, x)
  {
    hide RoleOf, SectionHash, GroupOf, WellFormed, ModifiedImage, GeneratedImage, SectionImage, Accounted;
    GroupIs(c, x);
    GroupIs(c, y);
    RoleIs(c, x);
    RoleIs(c, y);
    if SectionImage(c, x) && SectionImage(c, y) {
      SameTail("n1:S." + c.op.prefix + ".", SectionHash(c, x), SectionHash(c, y));
    }
  }

  lemma SameTail(front: string, a: string, b: string)
    ensures front + a == front + b <==> a == b
  {
    assert (front + a)[|front|..] == a && (front + b)[|front|..] == b;
  }

  lemma AloneIs(c: Context, x: Shape)
    requires ValidContext(c) && x in Results(c) && GroupOf(c, x).Some?
    ensures Alone(c, x) <==> Sole(c, x)
  {
    hide GroupOf, WellFormed, Mates, ResultSet;
    forall y ensures Mates(c, x, y) <==> GroupOf(c, y) == GroupOf(c, x) {
      MatesIs(c, x, y);
    }
    var all := Siblings(c, GroupOf(c, x).value);
    assert x in all;
    assert forall y :: y in all <==> y in Results(c) && Mates(c, x, y);
    if Alone(c, x) {
      assert all == {x};
    }
  }

  lemma StepIs(c: Context, x: Shape)
    requires ValidContext(c) && GroupOf(c, x).Some?
    ensures NamedStep(c, x, StemOf(c, x))
    ensures Origins(c, x) == Anchors(c, x)
  {
    hide RoleOf, SectionHash, GroupOf, WellFormed, ModifiedImage, GeneratedImage, SectionImage, Accounted, Chosen,
      Parentage;
    GroupIs(c, x);
    RoleIs(c, x);
    if RoleOf(c, x).SectionOf? {
      ChosenIs(c, x);
    }
    GroupFacts(c, x);
    var g := GroupOf(c, x).value;
    if g.StepGroup? {
      assert Stem(c, g) == c.book[g.source] + "/" + [g.marker] + "." + c.op.prefix;
    }
    OneOrigin(c, x);
  }

  lemma OneOrigin(c: Context, x: Shape)
    requires ValidContext(c) && GroupOf(c, x).Some?
    ensures Origins(c, x) == Anchors(c, x)
  {
    hide GroupOf, WellFormed, ModifiedImage, GeneratedImage, SectionImage, Accounted, Chosen, Parentage, Parents,
      Pick;
    RoleIs(c, x);
    if RoleOf(c, x).SectionOf? {
      ChosenIs(c, x);
    }
  }
}
