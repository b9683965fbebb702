// What the names of a completed run tell apart: exactly what each kind of name is taken from,
// short of a collision of the hash on the very texts compared.
module NamingTelling {
  import opened NameGrammar
  import opened NameDigest
  import opened NameCongruence
  import opened ElementNaming
  import opened NamingProgress
  import opened NamingGrammarKept
  import opened NamingAlignment
  import opened NamingEquations
  import opened NamingSolution

  /** The run completes, and the inputs' names are in the grammar. */
  ghost predicate Completed(c: Context) {
    ValidContext(c) && NamesOfResult(c).Some? && forall s :: s in c.sources ==> InGrammar(c.book[s])
  }

  ghost function FinalNames(c: Context): (names: map<Shape, string>)
    requires Completed(c)
    ensures names == NamesOfResult(c).value && names.Keys == Results(c)
  {
    TotalCoverage(c);
    NamesOfResult(c).value
  }

  /** The hash does not confuse these two texts. */
  ghost predicate Tells(w: World, s: string, t: string) {
    w.hash8(s) == w.hash8(t) ==> s == t
  }

  lemma LinesOf(names: map<Shape, string>, xs: seq<Shape>)
    requires forall x :: x in xs ==> x in names && InGrammar(names[x])
    ensures AllLines(NormalNames(names, xs))
  {
    hide InGrammar, Normalized, OneLine;
    forall i | 0 <= i < |xs| ensures NormalNames(names, xs)[i] != "" && OneLine(NormalNames(names, xs)[i]) {
      assert xs[i] in xs;
      GrammarOneLine(names[xs[i]]);
    }
  }

  /** Digests of names in the grammar are equal exactly when the normal forms are, as multisets. */
  lemma DigestTells(
    c: Context, m: map<Shape, string>, n: map<Shape, string>, xs: seq<Shape>, ys: seq<Shape>)
    requires forall x :: x in xs ==> x in m && InGrammar(m[x])
    requires forall y :: y in ys ==> y in n && InGrammar(n[y])
    requires Tells(c.w, DigestInput(NormalNames(m, xs)), DigestInput(NormalNames(n, ys)))
    ensures Digest(c, m, xs) == Digest(c, n, ys)
       <==> multiset(NormalNames(m, xs)) == multiset(NormalNames(n, ys))
  {
    hide InGrammar, NormalNames, DigestInput;
    LinesOf(m, xs);
    LinesOf(n, ys);
    DigestInputInjective(NormalNames(m, xs), NormalNames(n, ys));
  }

  lemma MatesStep(c: Context, x: Shape, y: Shape, a: string, b: string)
    requires ValidContext(c) && Mates(c, x, y) && NamedStep(c, x, a) && NamedStep(c, y, b)
    ensures a == b
  {
    hide WellFormed, RoleOf, ModifiedImage, GeneratedImage, SectionImage, SectionHash;
    RoleIs(c, x);
    RoleIs(c, y);
  }

  /** Two of several images of one step: their common step, and each one's disambiguator. */
  lemma SiblingNames(c: Context, x: Shape, y: Shape) returns (step: string)
    requires Completed(c) && x in Results(c) && y in Results(c) && x != y && Mates(c, x, y)
    ensures forall z :: z in {x, y} ==>
      (forall u :: u in Below(c, z) ==> u in FinalNames(c)) &&
      FinalNames(c)[z] == step + "." + if Bounded(c, z) then Digest(c, FinalNames(c), Below(c, z))
                                       else c.w.hash8(c.w.geometryKey(z, Origins(c, z)))
  {
    hide WellFormed, RoleOf, Accounted, Around, Bounded, NamedStep, Origins, Surrounded, Below, Digest, Mates,
      NamesOfResult, InGrammar, Results;
    RunIsTold(c);
    MatesAreImages(c, x, y);
    BelowInResult(c, x);
    BelowInResult(c, y);
    assert Says(c, FinalNames(c), x, FinalNames(c)[x]) && Says(c, FinalNames(c), y, FinalNames(c)[y]);
    step :| NamedStep(c, x, step);
    forall z, a | z in {x, y} && NamedStep(c, z, a) ensures a == step {
      MatesStep(c, x, z, step, a);
    }
  }

  lemma MatesAreImages(c: Context, x: Shape, y: Shape)
    requires ValidContext(c) && Mates(c, x, y)
    ensures Mates(c, y, x) && Mates(c, x, x) && Accounted(c, x) && Accounted(c, y)
    ensures x !in c.sources && y !in c.sources
  {
    hide WellFormed, SectionHash, RoleOf, ModifiedImage, GeneratedImage, SectionImage, Accounted;
    RoleIs(c, x);
    RoleIs(c, y);
  }

  // ---------- Several images of one step ----------

  /** Halves of a face, or of an edge, whose edges or end points all have a history: their names
      agree exactly when the names of these do, up to order and plain Modified steps. */
  lemma SiblingsTellWhatIsBelow(c: Context, x: Shape, y: Shape)
    requires Completed(c) && x in Results(c) && y in Results(c) && Mates(c, x, y)
    requires c.w.kind(x) in {Face, Edge}
    requires var k := if c.w.kind(x) == Face then Edge else Vertex;
             forall z :: z in {x, y} ==> c.w.sub(z, k) != [] && forall u :: u in c.w.sub(z, k) ==> Accounted(c, u)
    ensures var k, names := if c.w.kind(x) == Face then Edge else Vertex, FinalNames(c);
            && (forall z, u :: z in {x, y} && u in c.w.sub(z, k) ==> u in names)
            && var a, b := NormalNames(names, c.w.sub(x, k)), NormalNames(names, c.w.sub(y, k));
               Tells(c.w, DigestInput(a), DigestInput(b)) ==> (names[x] == names[y] <==> multiset(a) == multiset(b))
  {
    hide WellFormed, Accounted, Around, NamedStep, Origins, Surrounded, Digest, NormalNames, NamesOfResult, InGrammar,
      DigestInput, ModifiedImage, GeneratedImage, SectionImage, SectionHash, Results;
    var names := FinalNames(c);
    NamesInGrammar(c);
    BelowInResult(c, x);
    BelowInResult(c, y);
    if x != y {
      var step := SiblingNames(c, x, y);
      SameTail(step + ".", Digest(c, names, Below(c, x)), Digest(c, names, Below(c, y)));
      if Tells(c.w, DigestInput(NormalNames(names, Below(c, x))), DigestInput(NormalNames(names, Below(c, y)))) {
        DigestTells(c, names, names, Below(c, x), Below(c, y));
      }
    }
  }

  /** Images of one step that cannot be told by what is below them, vertices among them, are told
      by their quantized geometry. */
  lemma SiblingsTellGeometry(c: Context, x: Shape, y: Shape)
    requires Completed(c) && x in Results(c) && y in Results(c) && Mates(c, x, y)
    requires forall z :: z in {x, y} ==>
      c.w.kind(z) == Vertex ||
      var k := if c.w.kind(z) == Face then Edge else Vertex;
      c.w.sub(z, k) == [] || exists u :: u in c.w.sub(z, k) && !Accounted(c, u)
    ensures var a, b := c.w.geometryKey(x, Origins(c, x)), c.w.geometryKey(y, Origins(c, y));
            Tells(c.w, a, b) ==> (FinalNames(c)[x] == FinalNames(c)[y] <==> a == b)
  {
    hide WellFormed, Accounted, Around, NamedStep, Origins, Surrounded, Digest, NormalNames, NamesOfResult, InGrammar,
      ModifiedImage, GeneratedImage, SectionImage, SectionHash, Results;
    if x != y {
      var step := SiblingNames(c, x, y);
      SameTail(step + ".", c.w.hash8(c.w.geometryKey(x, Origins(c, x))), c.w.hash8(c.w.geometryKey(y, Origins(c, y))));
    }
  }

  // ---------- Roots ----------

  lemma SourceIsAccounted(c: Context, x: Shape)
    ensures x in c.sources ==> Accounted(c, x)
  {
  }

  /** Two entities without a history between named ones: their names agree exactly when those
      of the faces around the edge, or the edges around the vertex, do. */
  lemma BoundsTellWhatIsAround(c: Context, x: Shape, y: Shape)
    requires Completed(c) && x in Results(c) && y in Results(c)
    requires !Accounted(c, x) && !Accounted(c, y) && Surrounded(c, x) && Surrounded(c, y)
    ensures var names := FinalNames(c);
            var a, b := NormalNames(names, Around(c, x)), NormalNames(names, Around(c, y));
            Tells(c.w, DigestInput(a), DigestInput(b)) ==> (names[x] == names[y] <==> multiset(a) == multiset(b))
  {
    hide WellFormed, Accounted, Around, NamedStep, Origins, Surrounded, Digest, NormalNames, NamesOfResult, InGrammar,
      DigestInput, Results;
    var names := FinalNames(c);
    SourceIsAccounted(c, x);
    SourceIsAccounted(c, y);
    RunIsTold(c);
    NamesInGrammar(c);
    assert Says(c, names, x, names[x]) && Says(c, names, y, names[y]);
    SameTail("n1:L." + c.op.prefix + ".", Digest(c, names, Around(c, x)), Digest(c, names, Around(c, y)));
    if Tells(c.w, DigestInput(NormalNames(names, Around(c, x))), DigestInput(NormalNames(names, Around(c, y)))) {
      DigestTells(c, names, names, Around(c, x), Around(c, y));
    }
  }

  /** Two entities of last resort: their names agree exactly when their quantized geometry does. */
  lemma RootsTellGeometry(c: Context, x: Shape, y: Shape)
    requires Completed(c) && x in Results(c) && y in Results(c)
    requires !Accounted(c, x) && !Accounted(c, y) && !Surrounded(c, x) && !Surrounded(c, y)
    ensures var a, b := c.w.geometryKey(x, {c.op.result}), c.w.geometryKey(y, {c.op.result});
            Tells(c.w, a, b) ==> (FinalNames(c)[x] == FinalNames(c)[y] <==> a == b)
  {
    hide WellFormed, Accounted, Around, NamedStep, Origins, Surrounded, Digest, NormalNames, NamesOfResult, InGrammar,
      Results;
    SourceIsAccounted(c, x);
    SourceIsAccounted(c, y);
    RunIsTold(c);
    var names := FinalNames(c);
    assert Says(c, names, x, names[x]) && Says(c, names, y, names[y]);
    SameTail("n1:Q.", c.w.hash8(c.w.geometryKey(x, {c.op.result})), c.w.hash8(c.w.geometryKey(y, {c.op.result})));
  }

  /** A section entity's root, with its disambiguator cut off. */
  const SECTION_LENGTH: nat := 22

  lemma SectionName(c: Context, x: Shape)
    requires Completed(c) && x in Results(c) && SectionImage(c, x)
    ensures |FinalNames(c)[x]| >= SECTION_LENGTH
    ensures FinalNames(c)[x][..SECTION_LENGTH] == "n1:S." + c.op.prefix + "." + SectionHash(c, x)
  {
    hide Accounted, Around, Bounded, Alone, Origins, Surrounded, Digest, NormalNames, NamesOfResult, InGrammar, Results,
      Nested, Below, ModifiedImage, GeneratedImage;
    RunIsTold(c);
    SectionIsImage(c, x);
    BelowInResult(c, x);
    var names := FinalNames(c);
    assert Says(c, names, x, names[x]);
    var step := "n1:S." + c.op.prefix + "." + SectionHash(c, x);
    assert |step| == SECTION_LENGTH;
    forall a | NamedStep(c, x, a) ensures a == step {
      OneStep(c, x, a, step);
    }
  }

  lemma SectionIsImage(c: Context, x: Shape)
    requires ValidContext(c) && SectionImage(c, x)
    ensures Accounted(c, x) && x !in c.sources && |SectionHash(c, x)| == 8
  {
    hide Nested, Parentage;
  }

  /** Two section entities: the same root exactly when their parents have the same names. */
  lemma SectionsTellParents(c: Context, x: Shape, y: Shape)
    requires Completed(c) && x in Results(c) && y in Results(c) && SectionImage(c, x) && SectionImage(c, y)
    ensures var p, q := FinalNames(c)[x], FinalNames(c)[y];
            var a, b := NormalNames(c.book, Filtered(c.sources, Parentage(c, x))),
                        NormalNames(c.book, Filtered(c.sources, Parentage(c, y)));
            && |p| >= SECTION_LENGTH && |q| >= SECTION_LENGTH
            && (Tells(c.w, DigestInput(a), DigestInput(b)) ==>
                  (p[..SECTION_LENGTH] == q[..SECTION_LENGTH] <==> multiset(a) == multiset(b)))
  {
    hide WellFormed, Accounted, Around, NamedStep, Origins, Surrounded, Digest, NormalNames, NamesOfResult, InGrammar,
      DigestInput, Results, Parentage, Filtered;
    SectionName(c, x);
    SectionName(c, y);
    SameTail("n1:S." + c.op.prefix + ".", SectionHash(c, x), SectionHash(c, y));
    var xs, ys := Filtered(c.sources, Parentage(c, x)), Filtered(c.sources, Parentage(c, y));
    if Tells(c.w, DigestInput(NormalNames(c.book, xs)), DigestInput(NormalNames(c.book, ys))) {
      DigestTells(c, c.book, c.book, xs, ys);
    }
  }
}