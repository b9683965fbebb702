// Naming a document is a function of its construction: two evaluations of one document, on
// whatever handles, give corresponding entities the same names letter by letter.
module NamingDeterminism {
  import opened Outcomes
  import opened NameGrammar
  import opened ElementNaming
  import opened NamingProgress
  import opened NamingAlignment
  import opened NameBirths
  import opened PassState
  import opened NamingHistory

  // ---------- Sources of corresponding inputs ----------

  lemma ShapesMoved(v: Via, w: World, u: World, x: Shape)
    requires SameWorld(v, w, u) && v.of(x)
    ensures Covers(v, ShapesOf(w, x)) && ShapesOf(u, v.to(x)) == Moved(v, ShapesOf(w, x))
  {
    hide Moved, SameWorld;
    WorldAt(v, w, u, x, Face);
    WorldAt(v, w, u, x, Edge);
    WorldAt(v, w, u, x, Vertex);
    MovedConcat(v, w.sub(x, Face), w.sub(x, Edge));
    MovedConcat(v, w.sub(x, Face) + w.sub(x, Edge), w.sub(x, Vertex));
  }

  lemma {:induction false} InputShapesMoved(v: Via, w: World, u: World, inputs: seq<Shape>)
    requires SameWorld(v, w, u) && Covers(v, inputs)
    ensures Covers(v, AllInputShapes(w, inputs))
    ensures AllInputShapes(u, Moved(v, inputs)) == Moved(v, AllInputShapes(w, inputs))
  {
    hide ShapesOf, Moved, SameWorld;
    MovedSplit(v, inputs);
    MovedSplit(v, []);
    if inputs != [] {
      InputShapesMoved(v, w, u, inputs[1..]);
      ShapesMoved(v, w, u, inputs[0]);
      MovedConcat(v, ShapesOf(w, inputs[0]), AllInputShapes(w, inputs[1..]));
    }
  }

  lemma {:induction false} EnrolMoved(v: Via, sources: seq<Shape>, shapes: seq<Shape>)
    requires Inverse(v) && Covers(v, sources) && Covers(v, shapes)
    ensures Enrol(Moved(v, sources), Moved(v, shapes)) == Moved(v, Enrol(sources, shapes))
    decreases |shapes|
  {
    hide Moved;
    MovedSplit(v, shapes);
    if shapes != [] {
      MovedIn(v, sources);
      MovedConcat(v, sources, [shapes[0]]);
      MovedSplit(v, [shapes[0]]);
      EnrolMoved(v, if shapes[0] in sources then sources else sources + [shapes[0]], shapes[1..]);
    }
  }

  lemma SourcesMoved(v: Via, w: World, u: World, inputs: seq<Shape>)
    requires Inverse(v) && SameWorld(v, w, u) && Covers(v, inputs)
    ensures Covers(v, SourcesOf(w, inputs)) && SourcesOf(u, Moved(v, inputs)) == Moved(v, SourcesOf(w, inputs))
  {
    hide Enrol, AllInputShapes, SameWorld, Moved;
    InputShapesMoved(v, w, u, inputs);
    MovedSplit(v, []);
    EnrolMoved(v, [], AllInputShapes(w, inputs));
  }

  // ---------- Births ----------

  lemma {:induction false} OrdinalMoved(v: Via, xs: seq<Shape>, x: Shape)
    requires Inverse(v) && Covers(v, xs) && x in xs
    ensures v.to(x) in Moved(v, xs) && Ordinal(Moved(v, xs), v.to(x)) == Ordinal(xs, x)
  {
    hide Moved;
    MovedIn(v, xs);
    MovedSplit(v, xs);
    assert v.from(v.to(x)) == x && v.from(v.to(xs[0])) == xs[0];
    if xs[0] != x {
      OrdinalMoved(v, xs[1..], x);
    }
  }

  lemma BirthsAgree(v: Via, w: World, u: World, prefix: string, shape: Shape)
    requires Inverse(v) && SameWorld(v, w, u) && WellFormed(w) && WellFormed(u) && v.of(shape)
    ensures SameNames(true, v, Births(w, prefix, shape), Births(u, prefix, v.to(shape)))
    ensures OnPart(v, Births(w, prefix, shape), Births(u, prefix, v.to(shape)))
  {
    hide WellFormed, ResultSet, BirthName, SameWorld;
    ResultMoved(v, w, u, shape);
    ResultSetIs(w, shape);
    ResultSetIs(u, v.to(shape));
    forall x | x in ResultSet(w, shape)
      ensures InResult(u, v.to(shape), v.to(x))
           && BirthName(u, prefix, v.to(shape), v.to(x)) == BirthName(w, prefix, shape, x)
    {
      BirthAgrees(v, w, u, prefix, shape, x);
    }
  }

  lemma BirthAgrees(v: Via, w: World, u: World, prefix: string, shape: Shape, x: Shape)
    requires Inverse(v) && SameWorld(v, w, u) && v.of(shape) && InResult(w, shape, x)
    ensures InResult(u, v.to(shape), v.to(x))
    ensures BirthName(u, prefix, v.to(shape), v.to(x)) == BirthName(w, prefix, shape, x)
  {
    hide PrimitiveName, Ordinal, Moved, SameWorld;
    WorldAt(v, w, u, shape, w.kind(x));
    WorldAt(v, w, u, x, Face);
    OrdinalMoved(v, w.sub(shape, w.kind(x)), x);
  }

  // ---------- Book steps ----------

  /** Both name entities of the part only. */
  ghost predicate OnPart(v: Via, f: map<Shape, string>, g: map<Shape, string>) {
    (forall x :: x in f ==> v.of(x)) && (forall y :: y in g ==> Back(v, y))
  }

  lemma UnionsAgree(
    v: Via, m: map<Shape, string>, n: map<Shape, string>, f: map<Shape, string>, g: map<Shape, string>)
    requires SameNames(true, v, m, n) && SameNames(true, v, f, g)
    ensures SameNames(true, v, m + f, n + g)
  {
  }

  lemma RebindsAgree(
    v: Via, m: map<Shape, string>, n: map<Shape, string>, f: map<Shape, string>, g: map<Shape, string>)
    requires SameNames(true, v, m, n) && SameNames(true, v, f, g) && OnPart(v, f, g)
    ensures Rebinds(m, f) == Rebinds(n, g)
  {
    if Rebinds(m, f) {
      var x :| x in f && x in m && m[x] != f[x];
      assert v.to(x) in g && v.to(x) in n;
    }
    if Rebinds(n, g) {
      var y :| y in g && y in n && n[y] != g[y];
      assert v.from(y) in f && v.from(y) in m;
    }
  }

  /** Corresponding histories over the part. */
  ghost predicate SameImages(v: Via, past: Shape -> seq<Shape>, now: Shape -> seq<Shape>) {
    forall s, x :: v.of(s) && v.of(x) ==> (x in past(s) <==> v.to(x) in now(v.to(s)))
  }

  /** One step of two evaluations of a document. */
  ghost predicate SameStep(v: Via, s: BookStep, t: BookStep) {
    s.id == t.id
    && match s
       case Primitive(_, shape) => t.Primitive? && v.of(shape) && t.shape == v.to(shape)
       case Derived(_, shape) => t.Derived? && v.of(shape) && t.shape == v.to(shape)
       case Operate(_, inputs, result, modified, generated) =>
         && t.Operate? && Covers(v, inputs) && t.inputs == Moved(v, inputs) && v.of(result) && t.result == v.to(result)
         && SameImages(v, modified, t.modified) && SameImages(v, generated, t.generated)
  }

  ghost predicate SameOperation(v: Via, a: Operation, b: Operation) {
    && b.prefix == a.prefix && Covers(v, a.inputs) && b.inputs == Moved(v, a.inputs)
    && v.of(a.result) && b.result == v.to(a.result)
    && SameImages(v, a.modified, b.modified) && SameImages(v, a.generated, b.generated)
  }

  ghost predicate SameBooks(v: Via, m: Option<map<Shape, string>>, n: Option<map<Shape, string>>) {
    m.Some? == n.Some? && (m.Some? ==> SameNames(true, v, m.value, n.value))
  }

  lemma AppliedAgrees(
    v: Via, w: World, u: World, a: Operation, b: Operation, m: map<Shape, string>, n: map<Shape, string>)
    requires Inverse(v) && SameWorld(v, w, u) && WellFormed(w) && WellFormed(u)
    requires IsHex8(a.prefix) && SameOperation(v, a, b) && SameNames(true, v, m, n)
    ensures SameBooks(v, Applied(w, a, m), Applied(u, b, n))
  {
    hide SameWorld, WellFormed, NamesOfResult, InputsNamed, Rebinds, Moved, IsHex8, Applied, SameConstruction,
      SameNames, ValidContext, Results, OnPart;
    InputsNamedAgree(v, w, u, a, b, m, n);
    AppliedIs(w, a, m);
    AppliedIs(u, b, n);
    if InputsNamed(w, a, m) {
      ContextsAgree(v, w, u, a, b, m, n);
      var c, d := ContextOf(w, a, m), ContextOf(u, b, n);
      EvaluationsAgree(v, c, d);
      if NamesOfResult(c).Some? {
        NamedOnPart(v, c, d);
        RebindsAgree(v, m, n, NamesOfResult(c).value, NamesOfResult(d).value);
        UnionsAgree(v, m, n, NamesOfResult(c).value, NamesOfResult(d).value);
      }
    }
  }

  lemma NamedOnPart(v: Via, c: Context, d: Context)
    requires ValidContext(c) && ValidContext(d) && Whole(v, c, d)
    requires NamesOfResult(c).Some? && NamesOfResult(d).Some?
    ensures OnPart(v, NamesOfResult(c).value, NamesOfResult(d).value)
  {
    hide NamesOfResult, WellFormed, ResultSet;
    TotalCoverage(c);
    TotalCoverage(d);
  }

  lemma AppliedIs(w: World, op: Operation, names: map<Shape, string>)
    requires WellFormed(w) && IsHex8(op.prefix)
    ensures InputsNamed(w, op, names) ==> ValidContext(ContextOf(w, op, names))
    ensures Applied(w, op, names) ==
      if !InputsNamed(w, op, names) then None
      else
        var found := NamesOfResult(ContextOf(w, op, names));
        if found.None? || Rebinds(names, found.value) then None else Some(names + found.value)
  {
    hide WellFormed, NamesOfResult, AllInputShapes, SourcesOf, Rebinds, IsHex8;
    if InputsNamed(w, op, names) {
      SourcesNamed(w, op, names);
    }
  }

  lemma ContextsAgree(
    v: Via, w: World, u: World, a: Operation, b: Operation, m: map<Shape, string>, n: map<Shape, string>)
    requires Inverse(v) && SameWorld(v, w, u) && WellFormed(w) && WellFormed(u)
    requires IsHex8(a.prefix) && SameOperation(v, a, b) && SameNames(true, v, m, n)
    requires InputsNamed(w, a, m) && InputsNamed(u, b, n)
    ensures var c, d := ContextOf(w, a, m), ContextOf(u, b, n);
            ValidContext(c) && ValidContext(d) && SameConstruction(v, c, d)
  {
    hide SameWorld, WellFormed, AllInputShapes, SourcesOf, Moved, IsHex8;
    SourcesNamed(w, a, m);
    SourcesNamed(u, b, n);
    SourcesMoved(v, w, u, a.inputs);
    MovedIn(v, ContextOf(w, a, m).sources);
  }

  lemma InputsNamedAgree(
    v: Via, w: World, u: World, a: Operation, b: Operation, m: map<Shape, string>, n: map<Shape, string>)
    requires Inverse(v) && SameWorld(v, w, u) && SameNames(true, v, m, n)
    requires Covers(v, a.inputs) && b.inputs == Moved(v, a.inputs)
    ensures InputsNamed(w, a, m) == InputsNamed(u, b, n)
  {
    hide SameWorld, AllInputShapes, Moved;
    InputShapesMoved(v, w, u, a.inputs);
    MovedIn(v, AllInputShapes(w, a.inputs));
    if InputsNamed(u, b, n) {
      forall x | x in AllInputShapes(w, a.inputs) ensures x in m {
        assert v.to(x) in AllInputShapes(u, b.inputs);
      }
    }
  }

  lemma StepsAgree(
    v: Via, w: World, u: World, s: BookStep, t: BookStep, m: map<Shape, string>, n: map<Shape, string>)
    requires Inverse(v) && SameWorld(v, w, u) && WellFormed(w) && WellFormed(u)
    requires SameStep(v, s, t) && SameNames(true, v, m, n)
    ensures SameBooks(v, Step(w, m, s), Step(u, n, t))
  {
    hide SameWorld, WellFormed, SameNames, Applied, Births, Rebinds, IsHex8, OnPart, SameImages;
    var prefix := OperationIdPrefix(s.id);
    if prefix.Some? {
      match s
      case Primitive(_, shape) =>
        BirthsAgree(v, w, u, prefix.value, shape);
        RebindsAgree(v, m, n, Births(w, prefix.value, shape), Births(u, prefix.value, v.to(shape)));
        UnionsAgree(v, m, n, Births(w, prefix.value, shape), Births(u, prefix.value, v.to(shape)));
      case Derived(_, shape) =>
        BirthsAgree(v, w, u, prefix.value, shape);
        UnionsAgree(v, Births(w, prefix.value, shape), Births(u, prefix.value, v.to(shape)), m, n);
      case Operate(_, inputs, result, modified, generated) =>
        AppliedAgrees(v, w, u, Operation(prefix.value, inputs, result, modified, generated),
                      Operation(prefix.value, t.inputs, t.result, t.modified, t.generated), m, n);
    }
  }

  /** Two evaluations of one document: step by step the same births, operations and histories on
      corresponding shapes. They refuse together, and end with the same names. */
  lemma {:induction false} DocumentsAgree(
    v: Via, w: World, u: World, s: seq<BookStep>, t: seq<BookStep>, m: map<Shape, string>, n: map<Shape, string>)
    requires Inverse(v) && SameWorld(v, w, u) && WellFormed(w) && WellFormed(u)
    requires |s| == |t| && forall i :: 0 <= i < |s| ==> SameStep(v, s[i], t[i])
    requires SameNames(true, v, m, n)
    ensures SameBooks(v, History(w, m, s), History(u, n, t))
    decreases |s|
  {
    hide SameWorld, WellFormed, SameNames, Step, SameStep;
    if s != [] {
      StepsAgree(v, w, u, s[0], t[0], m, n);
      if Step(w, m, s[0]).Some? {
        DocumentsAgree(v, w, u, s[1..], t[1..], Step(w, m, s[0]).value, Step(u, n, t[0]).value);
      }
    }
  }
}
