// What the order of the inputs can change: exactly the winner of a merge.
module NamingOrder {
  import opened Outcomes
  import opened NameGrammar
  import opened ElementNaming
  import opened NamingProgress
  import opened NamingGrammarKept
  import opened NamingAlignment
  import opened NamingEquations

  // ---------- The name of an image shows its source ----------

  /** A group's stem, or that stem with a disambiguator. */
  ghost predicate OnStem(stem: string, name: string) {
    name == stem || exists h :: IsHex8(h) && name == stem + "." + h
  }

  /** Every image is still waiting, or is named on its group's stem. */
  ghost predicate ImagesOnStem(c: Context, p: Progress)
    requires ValidContext(c)
  {
    forall x :: x in ResultSet(c.w, c.op.result) && Waiting(c, x) ==>
      x in p.open || (x in p.names && OnStem(StemOf(c, x), p.names[x]))
  }

  lemma InitialOnStem(c: Context)
    requires ValidContext(c)
    ensures ImagesOnStem(c, Initial(c))
  {
    hide ResultSet, WellFormed, RoleOf, Stem, GroupOf;
    forall x ensures x in c.sources ==> GroupOf(c, x) == None {
      SurvivorHasNoGroup(c, x);
    }
  }

  lemma ResolveKindOnStem(c: Context, p: Progress, k: ShapeType, force: bool)
    requires ValidContext(c) && ValidProgress(c, p) && ImagesOnStem(c, p)
    requires ResolveKind(c, p, k, force).Some?
    ensures ImagesOnStem(c, ResolveKind(c, p, k, force).value)
  {
    hide WellFormed, ResultSet, GroupOf, StemOf, ReadyOfKind, ResolveKind, Disambiguator, SiblingName, OnStem;
    ResolveKindExtends(c, p, k, force);
    var q := ResolveKind(c, p, k, force).value;
    forall x | x in ResultSet(c.w, c.op.result) && Waiting(c, x) && x !in q.open
      ensures x in q.names && OnStem(StemOf(c, x), q.names[x])
    {
      if x in p.open {
        ReadySiblingName(c, p, k, force, x);
        SiblingOnStem(c, p.names, x);
      }
    }
  }

  lemma SiblingOnStem(c: Context, names: map<Shape, string>, x: Shape)
    requires ValidContext(c) && Waiting(c, x)
    ensures OnStem(StemOf(c, x), SiblingName(c, names, x))
  {
    hide GroupOf, Stem;
    assert IsHex8(Disambiguator(c, names, x));
  }

  lemma ResolveOnStem(c: Context, p: Progress, force: bool)
    requires ValidContext(c) && ValidProgress(c, p) && ImagesOnStem(c, p)
    requires Resolve(c, p, force).Some?
    ensures ImagesOnStem(c, Resolve(c, p, force).value)
  {
    hide ResolveKind, ImagesOnStem, ValidContext, ValidProgress;
    var v := ResolveKind(c, p, Vertex, force).value;
    ResolveKindOnStem(c, p, Vertex, force);
    ResolveKindOnStem(c, v, Edge, force);
    ResolveKindOnStem(c, ResolveKind(c, v, Edge, force).value, Face, force);
  }

  lemma {:induction false} InterleaveOnStem(c: Context, p: Progress, turns: nat)
    requires ValidContext(c) && ValidProgress(c, p) && ImagesOnStem(c, p)
    requires Interleave(c, p, turns).Some?
    ensures ImagesOnStem(c, Interleave(c, p, turns).value)
    decreases turns
  {
    hide Resolve, LowerBound, ValidContext, ValidProgress, ImagesOnStem;
    if turns > 0 {
      ResolveOnStem(c, p, false);
      var q := Resolve(c, p, false).value;
      MoreNamesOnStem(c, q, LowerBound(c, q.names));
      if Turn(c, p).value != p {
        InterleaveOnStem(c, Turn(c, p).value, turns - 1);
      }
    }
  }

  lemma MoreNamesOnStem(c: Context, p: Progress, names: map<Shape, string>)
    requires ValidContext(c) && ImagesOnStem(c, p) && Extends(p.names, names)
    ensures ImagesOnStem(c, p.(names := names))
  {
    hide GroupOf, StemOf, OnStem, ResultSet, WellFormed;
  }

  /** In a completed run every image has its stem's name, alone or with a disambiguator. */
  lemma ImageNamedOnStem(c: Context, x: Shape)
    requires ValidContext(c) && NamesOfResult(c).Some?
    requires x in ResultSet(c.w, c.op.result) && Waiting(c, x)
    ensures x in NamesOfResult(c).value
    ensures OnStem(StemOf(c, x), NamesOfResult(c).value[x])
  {
    hide ValidContext, ValidProgress, Initial, Interleave, Resolve, LowerBound, GroupOf, StemOf, OnStem;
    InitialOnStem(c);
    InterleaveOnStem(c, Initial(c), c.guard);
    var p := Interleave(c, Initial(c), c.guard).value;
    ResolveOnStem(c, p, true);
    ForcedSweepEmptiesOpen(c, p);
    var names := Settle(c).value.names;
    assert Extends(names, NamesOfResult(c).value);
  }

  lemma NoSlashAfter(a: string, u: string)
    requires SlashFree(u)
    ensures forall i :: |a| < i < |a| + 1 + |u| ==> (a + "/" + u)[i] != '/'
  {
    forall i | |a| < i < |a| + 1 + |u| ensures (a + "/" + u)[i] != '/' {
      assert (a + "/" + u)[i] == u[i - |a| - 1];
    }
  }

  lemma LastSlash(a: string, u: string, b: string, v: string)
    requires SlashFree(u) && SlashFree(v) && a + "/" + u == b + "/" + v
    ensures a == b
  {
    var s := a + "/" + u;
    NoSlashAfter(a, u);
    NoSlashAfter(b, v);
    assert s[|a|] == '/' && s[|b|] == '/';
    assert |a| == |b|;
    assert a == s[..|a|] && b == s[..|b|];
  }

  /** On the stem of a step, everything before the last slash is the source's name. */
  lemma OnStepStem(c: Context, g: Group, name: string) returns (tail: string)
    requires ValidContext(c) && g.StepGroup? && g.source in c.book && g.marker in "MG"
    requires OnStem(Stem(c, g), name)
    ensures SlashFree(tail) && name == c.book[g.source] + "/" + tail
  {
    var step := StepText(g.marker, c.op.prefix);
    StepTextIsStep(g.marker, c.op.prefix);
    if name == Stem(c, g) {
      tail := step;
    } else {
      var h :| IsHex8(h) && name == Stem(c, g) + "." + h;
      HexHasNoSlash(h);
      tail := step + "." + h;
    }
  }

  lemma SameNameSameSource(c: Context, d: Context, x: Shape)
    requires ValidContext(c) && ValidContext(d) && d.w == c.w && d.op == c.op.(inputs := d.op.inputs)
    requires d.book == c.book
    requires NamesOfResult(c).Some? && NamesOfResult(d) == NamesOfResult(c)
    requires x in ResultSet(c.w, c.op.result)
    requires RoleOf(c, x).ModifiedFrom? && RoleOf(d, x).ModifiedFrom?
    ensures c.book[RoleOf(c, x).source] == d.book[RoleOf(d, x).source]
  {
    hide NamesOfResult, WellFormed, RoleOf, OnStem, Stem;
    ImageNamedOnStem(c, x);
    ImageNamedOnStem(d, x);
    GroupFacts(c, x);
    GroupFacts(d, x);
    var name := NamesOfResult(c).value[x];
    var u := OnStepStem(c, GroupOf(c, x).value, name);
    var v := OnStepStem(d, GroupOf(d, x).value, name);
    LastSlash(c.book[RoleOf(c, x).source], u, d.book[RoleOf(d, x).source], v);
  }

  // ---------- The order of the inputs ----------

  ghost function Rearranged(c: Context, inputs: seq<Shape>): Context {
    c.(op := c.op.(inputs := inputs), sources := SourcesOf(c.w, inputs))
  }

  /** Every Modified image goes on from the same source in both runs. */
  ghost predicate SameWinners(c: Context, d: Context) {
    forall x :: x in ResultSet(c.w, c.op.result) && RoleOf(c, x).ModifiedFrom? ==> RoleOf(d, x) == RoleOf(c, x)
  }

  ghost predicate DistinctNames(c: Context)
    requires ValidContext(c)
  {
    forall s, t :: s in c.sources && t in c.sources && c.book[s] == c.book[t] ==> s == t
  }

  /** What rearranging the inputs can change: a completed run names everything as before exactly
      when every merged face, edge or vertex still goes on from the same one of its sources. */
  lemma InputOrderInvisibleIff(c: Context, inputs: seq<Shape>)
    requires ValidContext(c) && c.sources == SourcesOf(c.w, c.op.inputs)
    requires multiset(inputs) == multiset(c.op.inputs)
    ensures var d := Rearranged(c, inputs);
            && ValidContext(d)
            && (SameWinners(c, d) ==> NamesOfResult(d) == NamesOfResult(c))
            && (NamesOfResult(c).Some? && DistinctNames(c) ==>
                  (NamesOfResult(d) == NamesOfResult(c) <==> SameWinners(c, d)))
  {
    hide RoleOf, NamesOfResult, ResultSet, AllInputShapes, WellFormed;
    var d := Rearranged(c, inputs);
    RearrangedInputs(c.w, c.op.inputs, inputs);
    EnrolDistinct([], AllInputShapes(c.w, inputs));
    if SameWinners(c, d) {
      AlignedInPlace(true, c, d);
      RunsAligned(true, InPlace(), c, d);
      if NamesOfResult(c).Some? {
        SameInPlace(NamesOfResult(c).value, NamesOfResult(d).value);
      }
    }
    if DistinctNames(c) && NamesOfResult(c).Some? && NamesOfResult(d) == NamesOfResult(c) {
      forall x | x in ResultSet(c.w, c.op.result) && RoleOf(c, x).ModifiedFrom?
        ensures RoleOf(d, x) == RoleOf(c, x)
      {
        ModifiedInBoth(c, d, x);
        SameNameSameSource(c, d, x);
      }
    }
  }

  lemma ModifiedInBoth(c: Context, d: Context, x: Shape)
    requires ValidContext(c) && ValidContext(d) && d.op == c.op.(inputs := d.op.inputs) && d.w == c.w
    requires forall s :: s in c.sources <==> s in d.sources
    requires RoleOf(c, x).ModifiedFrom?
    ensures RoleOf(d, x).ModifiedFrom?
    ensures RoleOf(c, x).source in c.sources && RoleOf(d, x).source in c.sources
    ensures x in c.op.modified(RoleOf(c, x).source) && x in c.op.modified(RoleOf(d, x).source)
  {
    hide WellFormed, Parents;
    var m := Parents(c.op.modified, c.sources, x, |c.sources|);
    var n := Parents(c.op.modified, d.sources, x, |d.sources|);
    assert m[0] in m;
    var s := c.sources[m[0]];
    var o :| 0 <= o < |d.sources| && d.sources[o] == s;
    assert o in n;
    assert n[0] in n;
  }

  /** No result entity is the Modified image of two different sources. */
  ghost predicate NoMergedImages(c: Context) {
    forall x, s, t :: x in ResultSet(c.w, c.op.result) && s in c.sources && t in c.sources ==>
      x in c.op.modified(s) && x in c.op.modified(t) ==> s == t
  }

  /** Listing the inputs in another order changes no name where nothing merges. */
  lemma InputOrderIsInvisible(c: Context, inputs: seq<Shape>)
    requires ValidContext(c) && c.sources == SourcesOf(c.w, c.op.inputs)
    requires multiset(inputs) == multiset(c.op.inputs)
    requires NoMergedImages(c)
    ensures var d := Rearranged(c, inputs);
            ValidContext(d) && NamesOfResult(d) == NamesOfResult(c)
  {
    hide RoleOf, NamesOfResult, ResultSet, AllInputShapes, WellFormed;
    var d := Rearranged(c, inputs);
    InputOrderInvisibleIff(c, inputs);
    RearrangedInputs(c.w, c.op.inputs, inputs);
    forall x | x in ResultSet(c.w, c.op.result) && RoleOf(c, x).ModifiedFrom?
      ensures RoleOf(d, x) == RoleOf(c, x)
    {
      ModifiedInBoth(c, d, x);
    }
  }

  lemma RearrangedInputs(w: World, a: seq<Shape>, b: seq<Shape>)
    requires multiset(a) == multiset(b)
    ensures forall s :: s in SourcesOf(w, a) <==> s in SourcesOf(w, b)
  {
    forall s ensures s in SourcesOf(w, a) <==> s in SourcesOf(w, b) {
      InputShapesOf(w, a, s);
      InputShapesOf(w, b, s);
      forall i ensures i in a <==> i in b {
        assert i in a <==> i in multiset(a);
        assert i in b <==> i in multiset(b);
      }
    }
  }

  lemma {:induction false} InputShapesOf(w: World, inputs: seq<Shape>, s: Shape)
    ensures s in AllInputShapes(w, inputs) <==> exists i :: i in inputs && s in ShapesOf(w, i)
  {
    if inputs != [] {
      InputShapesOf(w, inputs[1..], s);
      assert inputs == [inputs[0]] + inputs[1..];
    }
  }

  // ---------- Which source a merged image goes on from ----------

  ghost predicate PartOf(w: World, input: Shape, s: Shape) {
    s in w.sub(input, Face) || s in w.sub(input, Edge) || s in w.sub(input, Vertex)
  }

  /** The first input that s is part of is the i-th. */
  ghost predicate FirstPartOf(w: World, inputs: seq<Shape>, i: nat, s: Shape) {
    i < |inputs| && PartOf(w, inputs[i], s) && forall j :: 0 <= j < i ==> !PartOf(w, inputs[j], s)
  }

  /** Place of the first occurrence. */
  function FirstAt(xs: seq<Shape>, x: Shape): (i: nat)
    requires x in xs
    ensures i < |xs| && xs[i] == x && forall j :: 0 <= j < i ==> xs[j] != x
  {
    if xs[0] == x then 0
    else
      assert xs == [xs[0]] + xs[1..];
      1 + FirstAt(xs[1..], x)
  }

  lemma {:induction false} FirstAtAppend(a: seq<Shape>, b: seq<Shape>, x: Shape)
    requires x in a || x in b
    ensures x in a + b && FirstAt(a + b, x) == if x in a then FirstAt(a, x) else |a| + FirstAt(b, x)
    decreases |a|
  {
    if a == [] {
      assert a + b == b;
    } else {
      assert a == [a[0]] + a[1..] && a + b == [a[0]] + (a[1..] + b);
      FirstAtCons(a[0], a[1..] + b, x);
      if a[0] != x {
        FirstAtAppend(a[1..], b, x);
        if x in a {
          FirstAtCons(a[0], a[1..], x);
        }
      }
    }
  }

  lemma FirstAtCons(h: Shape, t: seq<Shape>, x: Shape)
    requires h == x || x in t
    ensures FirstAt([h] + t, x) == if h == x then 0 else 1 + FirstAt(t, x)
  {
    assert ([h] + t)[1..] == t;
  }

  function Enrolled(sources: seq<Shape>, x: Shape): seq<Shape> {
    if x in sources then sources else sources + [x]
  }

  lemma EnrolOne(sources: seq<Shape>, shapes: seq<Shape>)
    requires Distinct(sources) && shapes != []
    ensures var next, r := Enrolled(sources, shapes[0]), Enrol(sources, shapes);
            shapes == [shapes[0]] + shapes[1..] && r == Enrol(next, shapes[1..]) && next <= r
            && Distinct(next) && Distinct(r)
  {
    EnrolDistinct(sources, shapes);
  }

  /** Enrolled shapes stand in the order in which they first occur. */
  lemma {:induction false} EnrolledInOrder(sources: seq<Shape>, shapes: seq<Shape>, p: nat, q: nat)
    requires Distinct(sources) && |sources| <= p < q < |Enrol(sources, shapes)|
    ensures var r := Enrol(sources, shapes);
            r[p] in shapes && r[q] in shapes && FirstAt(shapes, r[p]) < FirstAt(shapes, r[q])
    decreases |shapes|
  {
    hide FirstAt, Distinct;
    var r := Enrol(sources, shapes);
    if shapes != [] {
      hide Enrol;
      EnrolOne(sources, shapes);
      LaterOnes(r, sources, p, q);
      var next := Enrolled(sources, shapes[0]);
      if p >= |next| {
        LaterOnes(r, next, p, q);
        EnrolledInOrder(next, shapes[1..], p, q);
        FirstAtAppend([shapes[0]], shapes[1..], r[p]);
        FirstAtAppend([shapes[0]], shapes[1..], r[q]);
      } else {
        assert r[p] == shapes[0];
        FirstOfAll(shapes, r[q]);
      }
    }
  }

  lemma FirstOfAll(shapes: seq<Shape>, x: Shape)
    requires shapes != []
    ensures FirstAt(shapes, shapes[0]) == 0
    ensures x in shapes && x != shapes[0] ==> FirstAt(shapes, x) > 0
  {
  }

  lemma LaterOnes(r: seq<Shape>, front: seq<Shape>, p: nat, q: nat)
    requires Distinct(r) && front <= r && p < q < |r|
    ensures |front| <= p ==> r[p] !in front
    ensures |front| <= q ==> r[q] !in front
    ensures r[p] != r[q]
  {
    assert forall i :: 0 <= i < |front| ==> front[i] == r[i];
  }

  /** Among all the inputs' shapes, those that first occur in an earlier input come first. */
  lemma {:induction false} EarlierInput(w: World, inputs: seq<Shape>, i: nat, s: Shape, j: nat, t: Shape)
    requires FirstPartOf(w, inputs, i, s) && FirstPartOf(w, inputs, j, t)
    ensures var all := AllInputShapes(w, inputs);
            && s in all && t in all
            && (i < j ==> FirstAt(all, s) < FirstAt(all, t))
            && (i == j ==>
                  var own := w.sub(inputs[i], Face) + w.sub(inputs[i], Edge) + w.sub(inputs[i], Vertex);
                  s in own && t in own && (FirstAt(all, s) <= FirstAt(all, t) <==> FirstAt(own, s) <= FirstAt(own, t)))
    decreases |inputs|
  {
    var own, rest := ShapesOf(w, inputs[0]), AllInputShapes(w, inputs[1..]);
    if i > 0 {
      assert !PartOf(w, inputs[0], s);
    }
    if j > 0 {
      assert !PartOf(w, inputs[0], t);
    }
    if i > 0 && j > 0 {
      EarlierInput(w, inputs[1..], i - 1, s, j - 1, t);
    } else if i > 0 {
      EarlierInput(w, inputs[1..], i - 1, s, i - 1, s);
    } else if j > 0 {
      EarlierInput(w, inputs[1..], j - 1, t, j - 1, t);
    }
    FirstAtAppend(own, rest, s);
    FirstAtAppend(own, rest, t);
  }

  /** A merged image goes on from the earliest input that has a source for it; within that input
      faces come before edges and these before vertices, each kind in the input's own order. */
  lemma EarliestInputWins(c: Context, x: Shape, s: Shape, i: nat, t: Shape, j: nat)
    requires ValidContext(c) && c.sources == SourcesOf(c.w, c.op.inputs)
    requires RoleOf(c, x) == ModifiedFrom(s) && t in c.sources && x in c.op.modified(t)
    requires FirstPartOf(c.w, c.op.inputs, i, s) && FirstPartOf(c.w, c.op.inputs, j, t)
    ensures i <= j
    ensures i == j ==>
              var input := c.op.inputs[i];
              var own := c.w.sub(input, Face) + c.w.sub(input, Edge) + c.w.sub(input, Vertex);
              s in own && t in own && FirstAt(own, s) <= FirstAt(own, t)
  {
    hide RoleOf, AllInputShapes, WellFormed, FirstAt, FirstPartOf, Enrol;
    RoleIs(c, x);
    var all := AllInputShapes(c.w, c.op.inputs);
    var p :| 0 <= p < |c.sources| && c.sources[p] == s && x in c.op.modified(s)
      && forall m :: 0 <= m < p ==> x !in c.op.modified(c.sources[m]);
    var q :| 0 <= q < |c.sources| && c.sources[q] == t;
    EarlierInput(c.w, c.op.inputs, i, s, j, t);
    EarlierInput(c.w, c.op.inputs, j, t, i, s);
    if p < q {
      EnrolledInOrder([], all, p, q);
    }
  }
}
