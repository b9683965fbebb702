// Every name a run hands out stays in the grammar, and what each kind of step does to the
// identity a name denotes.
module NamingGrammarKept {
  import opened NameGrammar
  import opened NameCongruence
  import opened ElementNaming
  import opened NamingProgress

  ghost predicate AllInGrammar(names: map<Shape, string>) {
    forall x :: x in names ==> InGrammar(names[x])
  }

  lemma StepTextIsStep(marker: char, prefix: string)
    requires marker in "MG" && IsHex8(prefix)
    ensures IsStep(StepText(marker, prefix)) && SlashFree(StepText(marker, prefix))
    ensures IsPlainModified(StepText(marker, prefix)) <==> marker == 'M'
  {
    var s := StepText(marker, prefix);
    assert s[..2] == [marker, '.'] && s[2..] == prefix && s[2..10] == prefix;
    HexHasNoSlash(prefix);
  }

  lemma SiblingStepIsStep(marker: char, prefix: string, d: string)
    requires marker in "MG" && IsHex8(prefix) && IsHex8(d)
    ensures var s := StepText(marker, prefix) + "." + d;
            IsStep(s) && SlashFree(s) && !IsPlainModified(s)
  {
    var s := StepText(marker, prefix) + "." + d;
    assert s[2..10] == prefix && s[11..] == d;
    HexHasNoSlash(prefix);
    HexHasNoSlash(d);
  }

  lemma DerivedRootIsRoot(code: char, prefix: string, h: string)
    requires code in "SL" && IsHex8(prefix) && IsHex8(h)
    ensures var s := "n1:" + [code] + "." + prefix + "." + h;
            IsRoot(s) && SlashFree(s)
  {
    var s := "n1:" + [code] + "." + prefix + "." + h;
    assert s[3..][2..10] == prefix && s[3..][11..] == h;
    HexHasNoSlash(prefix);
    HexHasNoSlash(h);
  }

  lemma SiblingRootIsRoot(prefix: string, h: string, d: string)
    requires IsHex8(prefix) && IsHex8(h) && IsHex8(d)
    ensures var s := "n1:S." + prefix + "." + h + "." + d;
            IsRoot(s) && SlashFree(s)
  {
    var s := "n1:S." + prefix + "." + h + "." + d;
    assert s[3..][2..10] == prefix && s[3..][11..19] == h && s[3..][20..] == d;
    HexHasNoSlash(prefix);
    HexHasNoSlash(h);
    HexHasNoSlash(d);
  }

  lemma QuantizedRootIsRoot(h: string)
    requires IsHex8(h)
    ensures IsRoot("n1:Q." + h) && SlashFree("n1:Q." + h)
  {
    assert ("n1:Q." + h)[3..][2..10] == h;
    HexHasNoSlash(h);
  }

  lemma GroupFacts(c: Context, x: Shape)
    requires ValidContext(c) && GroupOf(c, x).Some?
    ensures var g := GroupOf(c, x).value;
            && (g.StepGroup? ==> g.source in c.sources && g.marker in "MG")
            && (g.SectionGroup? ==> exists h :: IsHex8(h) && g.base == "n1:S." + c.op.prefix + "." + h)
  {
    match RoleOf(c, x)
    case SectionOf(parents) =>
      var h := HashNames(c.w, NormalNames(c.book, Chosen(c.w, c.w.kind(x), parents)));
      assert IsHex8(h);
    case _ =>
  }

  lemma FirstNameInGrammar(c: Context, x: Shape)
    requires ValidContext(c) && (forall s :: s in c.sources ==> InGrammar(c.book[s]))
    requires x in c.sources || GroupOf(c, x).Some?
    ensures InGrammar(FirstName(c, x))
  {
    hide InGrammar, GroupOf, IsRoot, IsStep;
    if x !in c.sources {
      GroupFacts(c, x);
      var g := GroupOf(c, x).value;
      if g.StepGroup? {
        StepTextIsStep(g.marker, c.op.prefix);
        GrammarExtend(c.book[g.source], StepText(g.marker, c.op.prefix));
      } else {
        var h :| IsHex8(h) && g.base == "n1:S." + c.op.prefix + "." + h;
        DerivedRootIsRoot('S', c.op.prefix, h);
        assert g.base == "n1:" + ['S'] + "." + c.op.prefix + "." + h;
        GrammarRoot(g.base);
      }
    }
  }

  lemma SiblingNameInGrammar(c: Context, names: map<Shape, string>, x: Shape)
    requires ValidContext(c) && (forall s :: s in c.sources ==> InGrammar(c.book[s]))
    requires Waiting(c, x)
    ensures InGrammar(SiblingName(c, names, x))
  {
    hide InGrammar, IsRoot, IsStep, SlashFree, Disambiguator, GroupOf, WellFormed;
    GroupFacts(c, x);
    var g := GroupOf(c, x).value;
    var d := Disambiguator(c, names, x);
    if g.StepGroup? {
      var step := StepText(g.marker, c.op.prefix) + "." + d;
      SiblingStepIsStep(g.marker, c.op.prefix, d);
      GrammarExtend(c.book[g.source], step);
      assert SiblingName(c, names, x) == c.book[g.source] + "/" + step;
    } else {
      var h :| IsHex8(h) && g.base == "n1:S." + c.op.prefix + "." + h;
      SiblingRootIsRoot(c.op.prefix, h, d);
      GrammarRoot(g.base + "." + d);
    }
  }

  lemma HashIsHex8(w: World, names: seq<string>)
    requires WellFormed(w)
    ensures IsHex8(HashNames(w, names))
  {
  }

  lemma BoundNameInGrammar(c: Context, names: map<Shape, string>, x: Shape)
    requires ValidContext(c) && forall f :: f in Containers(c, x) ==> f in names
    ensures InGrammar(BoundName(c, names, x))
  {
    hide InGrammar, IsRoot, HashNames, SlashFree, Containers;
    var h := HashNames(c.w, NormalNames(names, Containers(c, x)));
    assert IsHex8(h) by { HashIsHex8(c.w, NormalNames(names, Containers(c, x))); }
    DerivedRootIsRoot('L', c.op.prefix, h);
    assert BoundName(c, names, x) == "n1:" + ['L'] + "." + c.op.prefix + "." + h;
    GrammarRoot(BoundName(c, names, x));
  }

  // ---------- Pass by pass ----------

  lemma ResolveKindInGrammar(c: Context, p: Progress, k: ShapeType, force: bool)
    requires ValidContext(c) && ValidProgress(c, p) && AllInGrammar(p.names)
    requires forall s :: s in c.sources ==> InGrammar(c.book[s])
    requires ResolveKind(c, p, k, force).Some?
    ensures AllInGrammar(ResolveKind(c, p, k, force).value.names)
  {
    hide InGrammar, SiblingName, Ready, WellFormed, ResultSet;
    forall x | x in ReadyOfKind(c, p, k, force) ensures InGrammar(SiblingName(c, p.names, x)) {
      SiblingNameInGrammar(c, p.names, x);
    }
  }

  lemma ResolveInGrammar(c: Context, p: Progress, force: bool)
    requires ValidContext(c) && ValidProgress(c, p) && AllInGrammar(p.names)
    requires forall s :: s in c.sources ==> InGrammar(c.book[s])
    requires Resolve(c, p, force).Some?
    ensures AllInGrammar(Resolve(c, p, force).value.names)
  {
    hide ResolveKind, InGrammar;
    var v := ResolveKind(c, p, Vertex, force).value;
    ResolveKindInGrammar(c, p, Vertex, force);
    ResolveKindInGrammar(c, v, Edge, force);
    ResolveKindInGrammar(c, ResolveKind(c, v, Edge, force).value, Face, force);
  }

  lemma ReconstructInGrammar(c: Context, names: map<Shape, string>, k: ShapeType)
    requires ValidContext(c) && AllInGrammar(names)
    ensures AllInGrammar(ReconstructKind(c, names, k))
  {
    forall x | Reconstructible(c, names, x) ensures InGrammar(BoundName(c, names, x)) {
      BoundNameInGrammar(c, names, x);
    }
  }

  lemma LowerBoundInGrammar(c: Context, names: map<Shape, string>)
    requires ValidContext(c) && AllInGrammar(names)
    ensures AllInGrammar(LowerBound(c, names))
  {
    ReconstructInGrammar(c, names, Edge);
    ReconstructInGrammar(c, ReconstructKind(c, names, Edge), Vertex);
  }

  lemma {:induction false} InterleaveInGrammar(c: Context, p: Progress, turns: nat)
    requires ValidContext(c) && ValidProgress(c, p) && AllInGrammar(p.names)
    requires forall s :: s in c.sources ==> InGrammar(c.book[s])
    requires Interleave(c, p, turns).Some?
    ensures AllInGrammar(Interleave(c, p, turns).value.names)
    decreases turns
  {
    hide LowerBound, Resolve, InGrammar, ValidContext, ValidProgress;
    if turns > 0 {
      ResolveInGrammar(c, p, false);
      LowerBoundInGrammar(c, Resolve(c, p, false).value.names);
      if Turn(c, p).value != p {
        InterleaveInGrammar(c, Turn(c, p).value, turns - 1);
      }
    }
  }

  /** A completed run over names in the grammar yields names in the grammar. */
  lemma NamesInGrammar(c: Context)
    requires ValidContext(c) && (forall s :: s in c.sources ==> InGrammar(c.book[s]))
    requires NamesOfResult(c).Some?
    ensures AllInGrammar(NamesOfResult(c).value)
  {
    hide InGrammar, Interleave, Resolve, Rebuild, LowerBound;
    InitialInGrammar(c);
    InterleaveInGrammar(c, Initial(c), c.guard);
    ResolveInGrammar(c, Interleave(c, Initial(c), c.guard).value, true);
    var names := Settle(c).value.names;
    RebuildStopsAtOnce(c, names, c.guard);
    LowerBoundInGrammar(c, names);
    RootsInGrammar(c, LowerBound(c, names));
  }

  lemma InitialInGrammar(c: Context)
    requires ValidContext(c) && (forall s :: s in c.sources ==> InGrammar(c.book[s]))
    ensures AllInGrammar(Initial(c).names)
  {
    hide InGrammar;
    forall x | x in Initial(c).names ensures InGrammar(Initial(c).names[x]) {
      FirstNameInGrammar(c, x);
    }
  }

  lemma RootsInGrammar(c: Context, names: map<Shape, string>)
    requires ValidContext(c) && AllInGrammar(names)
    ensures AllInGrammar(WithRoots(c, names))
  {
    hide InGrammar;
    forall x ensures InGrammar(RootName(c, x)) {
      QuantizedRootIsRoot(c.w.hash8(c.w.geometryKey(x, {c.op.result})));
      GrammarRoot(RootName(c, x));
    }
  }

  // ---------- What a step does to identity ----------

  /** The sole Modified image of a source keeps its normal form. A sole Generated image and any
      one of several siblings continue it by one step; under the header's wider relation the
      Modified ones among them still have their source's identity. */
  lemma StepIdentity(c: Context, names: map<Shape, string>, x: Shape)
    requires ValidContext(c) && GroupOf(c, x).Some? && GroupOf(c, x).value.StepGroup?
    requires InGrammar(c.book[GroupOf(c, x).value.source])
    ensures var g := GroupOf(c, x).value;
            var source := c.book[g.source];
            && (Congruent(Stem(c, g), source) <==> g.marker == 'M')
            && (g.marker == 'G' ==> Normalized(Stem(c, g)) == Normalized(source) + "/" + StepText('G', c.op.prefix))
            && Normalized(SiblingName(c, names, x))
            == Normalized(source) + "/" + StepText(g.marker, c.op.prefix) + "." + Disambiguator(c, names, x)
            && !Congruent(SiblingName(c, names, x), source)
            && (SameIdentity(Stem(c, g), source) <==> g.marker == 'M')
            && (SameIdentity(SiblingName(c, names, x), source) <==> g.marker == 'M')
  {
    hide InGrammar, IsStep, SlashFree, Normalized, Disambiguator, GroupOf, IsPlainModified, StepText, IsHex8,
      ContinuesModified;
    GroupFacts(c, x);
    var g := GroupOf(c, x).value;
    var source := c.book[g.source];
    var step := StepText(g.marker, c.op.prefix);
    var d := Disambiguator(c, names, x);
    GrammarOneLine(source);
    StepTextIsStep(g.marker, c.op.prefix);
    SiblingStepIsStep(g.marker, c.op.prefix, d);
    assert SiblingName(c, names, x) == source + "/" + (step + "." + d);
    KeptStepIsNew(source, step + "." + d);
    StepKeepsIdentityIff(source, step + "." + d);
    StepMarker(g.marker, c.op.prefix, "." + d);
    assert step + "." + d == step + ("." + d);
    assert Normalized(source) + "/" + (step + "." + d) == Normalized(source) + "/" + step + "." + d;
    if g.marker == 'M' {
      PlainStepIsNeutral(source, step, "");
    } else {
      StepMarker(g.marker, c.op.prefix, "");
      KeptStepIsNew(source, step);
      StepKeepsIdentityIff(source, step);
    }
  }

  lemma StepMarker(marker: char, prefix: string, tail: string)
    ensures StepText(marker, prefix) + tail != "" && (StepText(marker, prefix) + tail)[0] == marker
  {
  }

  /** The halves of a split both have their source's identity, yet not each other's. */
  lemma SplitHalvesPart(c: Context, names: map<Shape, string>, x: Shape, y: Shape)
    requires ValidContext(c) && GroupOf(c, x).Some? && GroupOf(c, y) == GroupOf(c, x)
    requires GroupOf(c, x).value.StepGroup? && GroupOf(c, x).value.marker == 'M'
    requires InGrammar(c.book[GroupOf(c, x).value.source])
    requires Disambiguator(c, names, x) != Disambiguator(c, names, y)
    ensures var source := c.book[GroupOf(c, x).value.source];
            && SameIdentity(SiblingName(c, names, x), source) && SameIdentity(source, SiblingName(c, names, y))
            && !SameIdentity(SiblingName(c, names, x), SiblingName(c, names, y))
  {
    hide InGrammar, IsStep, SlashFree, Normalized, Disambiguator, GroupOf, IsPlainModified, StepText, IsHex8,
      IsModifiedStep, SameIdentity, WellFormed;
    GroupFacts(c, x);
    var source := c.book[GroupOf(c, x).value.source];
    var step := StepText('M', c.op.prefix);
    var d, e := Disambiguator(c, names, x), Disambiguator(c, names, y);
    GrammarOneLine(source);
    ModifiedSibling(c.op.prefix, d);
    ModifiedSibling(c.op.prefix, e);
    TailsApart(step + ".", d, e);
    SiblingsPart(source, step + "." + d, step + "." + e);
    assert SiblingName(c, names, x) == source + "/" + (step + "." + d);
    assert SiblingName(c, names, y) == source + "/" + (step + "." + e);
  }

  lemma ModifiedSibling(prefix: string, d: string)
    requires IsHex8(prefix) && IsHex8(d)
    ensures var s := StepText('M', prefix) + "." + d;
            IsModifiedStep(s) && SlashFree(s) && !IsPlainModified(s)
  {
    hide IsStep, SlashFree, IsPlainModified, IsHex8;
    SiblingStepIsStep('M', prefix, d);
    StepMarker('M', prefix, "." + d);
    assert StepText('M', prefix) + "." + d == StepText('M', prefix) + ("." + d);
  }

  lemma TailsApart(front: string, d: string, e: string)
    ensures front + d == front + e ==> d == e
  {
    assert (front + d)[|front|..] == d && (front + e)[|front|..] == e;
  }

  lemma KeptStepIsNew(source: string, step: string)
    requires !IsPlainModified(step) && SlashFree(step) && Normalized(source) != ""
    ensures Normalized(source + "/" + step) == Normalized(source) + "/" + step
    ensures !Congruent(source + "/" + step, source)
  {
    hide Normalized, IsPlainModified;
    OtherStepIsKept(source, step);
    assert |Normalized(source) + "/" + step| > |Normalized(source)|;
  }
}
