// A book over a whole document: any sequence of births and operations.
module NamingHistory {
  import opened Outcomes
  import opened NameGrammar
  import opened ElementNaming
  import opened NamingProgress
  import opened NamingRefusal
  import opened NamingGrammarKept
  import opened NameBirths
  import opened PassState

  datatype BookStep =
    | Primitive(id: string, shape: Shape)
    | Derived(id: string, shape: Shape)
    | Operate(id: string, inputs: seq<Shape>, result: Shape, modified: Shape -> seq<Shape>,
      generated: Shape -> seq<Shape>)

  ghost function Step(w: World, names: map<Shape, string>, step: BookStep): Option<map<Shape, string>>
    requires WellFormed(w)
  {
    match step
    case Primitive(id, shape) => AddedPrimitive(w, id, shape, names)
    case Derived(id, shape) => AddedDerived(w, id, shape, names)
    case Operate(id, inputs, result, modified, generated) =>
      AppliedById(w, id, inputs, result, modified, generated, names)
  }

  /** A document's naming stops at the first step that refuses. */
  ghost function History(w: World, names: map<Shape, string>, steps: seq<BookStep>): Option<map<Shape, string>>
    requires WellFormed(w)
    decreases |steps|
  {
    if steps == [] then Some(names)
    else
      var next := Step(w, names, steps[0]);
      if next.None? then None else History(w, next.value, steps[1..])
  }

  function Subject(step: BookStep): Shape {
    if step.Operate? then step.result else step.shape
  }

  lemma StepKeeps(w: World, names: map<Shape, string>, step: BookStep)
    requires WellFormed(w) && Step(w, names, step).Some?
    ensures Extends(names, Step(w, names, step).value)
    ensures Step(w, names, step).value.Keys == names.Keys + ResultSet(w, Subject(step))
    ensures AllInGrammar(names) ==> AllInGrammar(Step(w, names, step).value)
  {
    hide InGrammar, NamesOfResult, WellFormed, AllInputShapes, SourcesOf, BirthName;
    var prefix := OperationIdPrefix(step.id).value;
    match step
    case Primitive(id, shape) =>
      BirthsInGrammar(w, prefix, shape);
    case Derived(id, shape) =>
      BirthsInGrammar(w, prefix, shape);
    case Operate(id, inputs, result, modified, generated) =>
      var op := Operation(prefix, inputs, result, modified, generated);
      OperateKeeps(w, names, op);
  }

  lemma OperateKeeps(w: World, names: map<Shape, string>, op: Operation)
    requires WellFormed(w) && IsHex8(op.prefix) && Applied(w, op, names).Some?
    ensures Extends(names, Applied(w, op, names).value)
    ensures Applied(w, op, names).value.Keys == names.Keys + ResultSet(w, op.result)
    ensures AllInGrammar(names) ==> AllInGrammar(Applied(w, op, names).value)
  {
    hide InGrammar, NamesOfResult, WellFormed, AllInputShapes;
    SourcesNamed(w, op, names);
    var c := Context(w, op, names, SourcesOf(w, op.inputs), GUARD);
    TotalCoverage(c);
    if AllInGrammar(names) {
      assert forall s :: s in c.sources ==> InGrammar(c.book[s]);
      NamesInGrammar(c);
    }
  }

  // ---------- When an operation refuses ----------

  ghost function ContextOf(w: World, op: Operation, names: map<Shape, string>): Context {
    Context(w, op, names, SourcesOf(w, op.inputs), GUARD)
  }

  ghost predicate InputsNamed(w: World, op: Operation, names: map<Shape, string>) {
    forall s :: s in AllInputShapes(w, op.inputs) ==> s in names
  }

  ghost predicate Strands(w: World, op: Operation, names: map<Shape, string>)
    requires WellFormed(w) && IsHex8(op.prefix) && InputsNamed(w, op, names)
  {
    SourcesNamed(w, op, names);
    exists x :: SplitEdgeStranded(ContextOf(w, op, names), x)
  }

  /** A live entity of the result, no part of any input, would take another name. */
  ghost predicate RenamesBystander(w: World, op: Operation, names: map<Shape, string>)
    requires WellFormed(w) && IsHex8(op.prefix) && InputsNamed(w, op, names)
  {
    SourcesNamed(w, op, names);
    var c := ContextOf(w, op, names);
    NamesOfResult(c).Some?
    && exists x :: x in NamesOfResult(c).value && x in names && x !in c.sources
                   && names[x] != NamesOfResult(c).value[x]
  }

  /** Whatever the book knows of the result belongs to the inputs. */
  ghost predicate NoBystanders(w: World, op: Operation, names: map<Shape, string>) {
    forall x :: InResult(w, op.result, x) && x in names ==> x in SourcesOf(w, op.inputs)
  }

  /** The three ways an operation refuses; an input's own entity is never renamed. */
  lemma ApplyRefusesIff(w: World, op: Operation, names: map<Shape, string>)
    requires WellFormed(w) && IsHex8(op.prefix)
    ensures Applied(w, op, names).None?
       <==> !InputsNamed(w, op, names) || Strands(w, op, names) || RenamesBystander(w, op, names)
  {
    hide WellFormed, NamesOfResult, AllInputShapes, SourcesOf, SplitEdgeStranded;
    if InputsNamed(w, op, names) {
      SourcesNamed(w, op, names);
      var c := ContextOf(w, op, names);
      RefusedIffSplitEdgeStranded(c);
      if NamesOfResult(c).Some? {
        TotalCoverage(c);
        forall x | x in NamesOfResult(c).value && x in c.sources ensures NamesOfResult(c).value[x] == names[x] {
          SurvivorsKeepNames(c, x);
        }
      }
    }
  }

  /** With a result made of new entities and parts of the inputs, an operation completes exactly
      when every part of the inputs is named and no split edge is stranded. */
  lemma ApplyCompletesIff(w: World, op: Operation, names: map<Shape, string>)
    requires WellFormed(w) && IsHex8(op.prefix) && NoBystanders(w, op, names)
    ensures Applied(w, op, names).Some? <==> InputsNamed(w, op, names) && !Strands(w, op, names)
  {
    hide WellFormed, NamesOfResult, AllInputShapes, SourcesOf, SplitEdgeStranded, Applied;
    ApplyRefusesIff(w, op, names);
    if InputsNamed(w, op, names) {
      SourcesNamed(w, op, names);
      var c := ContextOf(w, op, names);
      if NamesOfResult(c).Some? {
        TotalCoverage(c);
        ResultSetIs(w, op.result);
      }
    }
  }

  /** Along any completed document, no name in the book ever changes, every name is in the
      grammar, and every entity any step produced has exactly the name it was given then. */
  lemma {:induction false} BookKeepsNames(w: World, names: map<Shape, string>, steps: seq<BookStep>, i: nat)
    requires WellFormed(w) && i <= |steps|
    requires AllInGrammar(names) && History(w, names, steps).Some?
    ensures History(w, names, steps[..i]).Some?
    ensures var middle := History(w, names, steps[..i]).value;
            var last := History(w, names, steps).value;
            && Extends(names, middle) && Extends(middle, last)
            && AllInGrammar(middle) && AllInGrammar(last)
            && (i > 0 ==> ResultSet(w, Subject(steps[i - 1])) <= middle.Keys)
    decreases |steps|
  {
    hide Step, ResultSet, InGrammar, WellFormed;
    if steps != [] {
      var next := Step(w, names, steps[0]).value;
      StepKeeps(w, names, steps[0]);
      if i > 0 {
        assert steps[..i][1..] == steps[1..][..i - 1];
        BookKeepsNames(w, next, steps[1..], i - 1);
      } else {
        BookKeepsNames(w, next, steps[1..], 0);
      }
    }
  }
}
