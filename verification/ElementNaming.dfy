// What one operation's naming run computes, pass by pass, as functions of the inputs'
// names and the recorded history. The class OperationNaming carries the passes out in
// place and is proved against these functions.
module ElementNaming {
  import opened Outcomes
  import opened NameGrammar
  import opened NameDigest

  // ---------- Shapes ----------

  /** A sub-shape identity (two handles that are IsSame are one Shape). */
  type Shape = nat

  datatype ShapeType = Face | Edge | Vertex | Other

  /** The topology library and the hash, as far as naming consults them. */
  datatype World = World(
    kind: Shape -> ShapeType,
    sub: (Shape, ShapeType) -> seq<Shape>,       // sub-shapes of one kind, in map order
    geometryKey: (Shape, set<Shape>) -> string,  // quantized key, quantum taken from the anchors
    hash8: string -> string)                     // first eight hex digits of the digest

  datatype Operation = Operation(
    prefix: string,
    inputs: seq<Shape>,
    result: Shape,
    modified: Shape -> seq<Shape>,
    generated: Shape -> seq<Shape>)

  ghost predicate Distinct(xs: seq<Shape>) {
    forall i, j :: 0 <= i < j < |xs| ==> xs[i] != xs[j]
  }

  predicate Within(w: World, y: Shape, x: Shape, k: ShapeType) {
    y in w.sub(x, k)
  }

  /** A sub-shape of a sub-shape is a sub-shape. */
  ghost predicate Nested(w: World) {
    forall x, y, z, k, l :: Within(w, y, x, k) && Within(w, z, y, l) ==> Within(w, z, x, l)
  }

  ghost predicate WellFormed(w: World) {
    && (forall x, k :: Distinct(w.sub(x, k)))
    && (forall x, k, y :: y in w.sub(x, k) ==> w.kind(y) == k)
    && Nested(w)
    && (forall s :: IsHex8(w.hash8(s)))
  }

  predicate InResult(w: World, result: Shape, x: Shape) {
    w.kind(x) != Other && x in w.sub(result, w.kind(x))
  }

  function ShapesOf(w: World, x: Shape): seq<Shape> {
    w.sub(x, Face) + w.sub(x, Edge) + w.sub(x, Vertex)
  }

  ghost function ResultSet(w: World, result: Shape): set<Shape> {
    set x | x in ShapesOf(w, result) && InResult(w, result, x)
  }

  lemma ResultSetIs(w: World, result: Shape)
    requires WellFormed(w)
    ensures forall x :: x in ResultSet(w, result) <==> InResult(w, result, x)
    ensures forall x :: x in ShapesOf(w, result) <==> InResult(w, result, x)
  {
    forall x ensures x in ShapesOf(w, result) <==> InResult(w, result, x) {
      if x in ShapesOf(w, result) {
        assert x in w.sub(result, Face) || x in w.sub(result, Edge) || x in w.sub(result, Vertex);
      }
    }
  }

  // ---------- Sources ----------

  function AllInputShapes(w: World, inputs: seq<Shape>): seq<Shape> {
    if inputs == [] then [] else ShapesOf(w, inputs[0]) + AllInputShapes(w, inputs[1..])
  }

  /** An indexed map filled in order: a shape already present keeps its ordinal. */
  function Enrol(sources: seq<Shape>, shapes: seq<Shape>): (r: seq<Shape>)
    ensures sources <= r
    ensures forall x :: x in r <==> x in sources || x in shapes
    decreases |shapes|
  {
    if shapes == [] then sources
    else
      var x := shapes[0];
      assert shapes == [x] + shapes[1..];
      Enrol(if x in sources then sources else sources + [x], shapes[1..])
  }

  function SourcesOf(w: World, inputs: seq<Shape>): seq<Shape> {
    Enrol([], AllInputShapes(w, inputs))
  }

  lemma {:induction false} EnrolDistinct(sources: seq<Shape>, shapes: seq<Shape>)
    requires Distinct(sources)
    ensures Distinct(Enrol(sources, shapes))
    decreases |shapes|
  {
    if shapes != [] {
      EnrolDistinct(if shapes[0] in sources then sources else sources + [shapes[0]], shapes[1..]);
    }
  }

  lemma {:induction false} EnrolAppend(sources: seq<Shape>, a: seq<Shape>, b: seq<Shape>)
    ensures Enrol(sources, a + b) == Enrol(Enrol(sources, a), b)
    decreases |a|
  {
    if a == [] {
      assert a + b == b;
    } else {
      assert (a + b)[1..] == a[1..] + b;
      EnrolAppend(if a[0] in sources then sources else sources + [a[0]], a[1..], b);
    }
  }

  /** Everything a run depends on; the guard bounds the turns of its loops. */
  datatype Context = Context(w: World, op: Operation, book: map<Shape, string>, sources: seq<Shape>, guard: nat)

  ghost predicate ValidContext(c: Context) {
    && WellFormed(c.w) && IsHex8(c.op.prefix) && Distinct(c.sources)
    && (forall s :: s in c.sources ==> s in c.book)
    && c.guard >= 2
  }

  // ---------- History read backwards ----------

  /** Ordinals below n of the sources whose history lists x, ascending. */
  function Parents(history: Shape -> seq<Shape>, sources: seq<Shape>, x: Shape, n: nat): (r: seq<nat>)
    requires n <= |sources|
    ensures forall i :: 0 <= i < |r| ==> r[i] < n
    ensures forall o: nat :: o < n ==> (o in r <==> x in history(sources[o]))
    ensures forall i, j :: 0 <= i < j < |r| ==> r[i] < r[j]
  {
    if n == 0 then []
    else
      var before := Parents(history, sources, x, n - 1);
      assert forall i :: 0 <= i < |before| ==> before[i] in before;
      if x in history(sources[n - 1]) then before + [n - 1] else before
  }

  function Pick(sources: seq<Shape>, ordinals: seq<nat>): (r: seq<Shape>)
    requires forall i :: 0 <= i < |ordinals| ==> ordinals[i] < |sources|
    ensures |r| == |ordinals|
    ensures forall i :: 0 <= i < |r| ==> r[i] == sources[ordinals[i]]
  {
    if ordinals == [] then []
    else
      [sources[ordinals[0]]] + Pick(sources, ordinals[1..])
  }

  datatype Role =
    | Survivor
    | ModifiedFrom(source: Shape)
    | GeneratedFrom(source: Shape)
    | SectionOf(parents: seq<Shape>)
    | Unattributed

  /** How a result shape descends from the inputs; the lowest ordinal wins a merged image. */
  function RoleOf(c: Context, x: Shape): (r: Role)
    ensures r.ModifiedFrom? || r.GeneratedFrom? ==> r.source in c.sources
    ensures r.SectionOf? ==> |r.parents| >= 2 && forall s :: s in r.parents ==> s in c.sources
  {
    var n := |c.sources|;
    if x in c.sources then Survivor
    else
      var m := Parents(c.op.modified, c.sources, x, n);
      if m != [] then assert m[0] in m; ModifiedFrom(c.sources[m[0]])
      else
        var g := Parents(c.op.generated, c.sources, x, n);
        if g == [] then Unattributed
        else if |g| == 1 then assert g[0] in g; GeneratedFrom(c.sources[g[0]])
        else SectionOf(Pick(c.sources, g))
  }

  // ---------- Groups of images that share one step ----------

  datatype Group =
    | StepGroup(source: Shape, marker: char, kind: ShapeType)
    | SectionGroup(base: string, kind: ShapeType)

  function OfKind(w: World, xs: seq<Shape>, k: ShapeType): (r: seq<Shape>)
    ensures forall x :: x in r <==> x in xs && w.kind(x) == k
  {
    if xs == [] then []
    else
      assert xs == [xs[0]] + xs[1..];
      (if w.kind(xs[0]) == k then [xs[0]] else []) + OfKind(w, xs[1..], k)
  }

  /** The parents whose names a section entity's root hashes. */
  function Chosen(w: World, k: ShapeType, parents: seq<Shape>): (r: seq<Shape>)
    ensures forall x :: x in r ==> x in parents
  {
    var preferred := OfKind(w, parents, if k == Vertex then Edge else Face);
    if k != Face && |preferred| >= 2 then preferred else parents
  }

  function NormalNames(names: map<Shape, string>, xs: seq<Shape>): (r: seq<string>)
    requires forall x :: x in xs ==> x in names
    ensures |r| == |xs| && forall i :: 0 <= i < |xs| ==> r[i] == Normalized(names[xs[i]])
  {
    seq(|xs|, i requires 0 <= i < |xs| => assert xs[i] in xs; Normalized(names[xs[i]]))
  }

  function HashNames(w: World, names: seq<string>): string {
    w.hash8(DigestInput(names))
  }

  function SectionBase(c: Context, k: ShapeType, parents: seq<Shape>): string
    requires forall s :: s in parents ==> s in c.book
  {
    "n1:S." + c.op.prefix + "." + HashNames(c.w, NormalNames(c.book, Chosen(c.w, k, parents)))
  }

  function GroupOf(c: Context, x: Shape): Option<Group>
    requires forall s :: s in c.sources ==> s in c.book
  {
    var role := RoleOf(c, x);
    var k := c.w.kind(x);
    match role
    case Survivor => None
    case ModifiedFrom(s) => Some(StepGroup(s, 'M', k))
    case GeneratedFrom(s) => Some(StepGroup(s, 'G', k))
    case SectionOf(parents) => Some(SectionGroup(SectionBase(c, k, parents), k))
    case Unattributed => None
  }

  /** The last segment a group contributes, without a disambiguator. */
  function StepText(marker: char, prefix: string): string {
    [marker] + "." + prefix
  }

  function Stem(c: Context, g: Group): string
    requires g.StepGroup? ==> g.source in c.book
  {
    if g.StepGroup? then c.book[g.source] + "/" + StepText(g.marker, c.op.prefix) else g.base
  }

  /** The construction shapes that fix the quantum of a sibling's geometry fallback. */
  function Anchors(c: Context, x: Shape): set<Shape> {
    match RoleOf(c, x)
    case ModifiedFrom(s) => {s}
    case GeneratedFrom(s) => {s}
    case SectionOf(parents) => set s | s in Chosen(c.w, c.w.kind(x), parents)
    case _ => {}
  }

  ghost function Siblings(c: Context, g: Group): set<Shape>
    requires forall s :: s in c.sources ==> s in c.book
  {
    set x | x in ResultSet(c.w, c.op.result) && GroupOf(c, x) == Some(g)
  }

  // ---------- The passes over the names found so far ----------

  /** Names bound so far, and the sibling images still waiting for a disambiguator. */
  datatype Progress = Progress(names: map<Shape, string>, open: set<Shape>)

  ghost predicate Sole(c: Context, x: Shape)
    requires forall s :: s in c.sources ==> s in c.book
  {
    GroupOf(c, x).Some? && Siblings(c, GroupOf(c, x).value) == {x}
  }

  ghost function FirstName(c: Context, x: Shape): string
    requires forall s :: s in c.sources ==> s in c.book
    requires x in c.sources || GroupOf(c, x).Some?
  {
    if x in c.sources then c.book[x] else Stem(c, GroupOf(c, x).value)
  }

  /** After identity survivors and history images. */
  ghost function Initial(c: Context): (p: Progress)
    requires ValidContext(c)
    ensures ValidProgress(c, p)
  {
    var all := ResultSet(c.w, c.op.result);
    Progress(
      map x | x in all && (x in c.sources || Sole(c, x)) :: FirstName(c, x),
      set x | x in all && GroupOf(c, x).Some? && !Sole(c, x))
  }

  function LowerKind(k: ShapeType): ShapeType {
    if k == Face then Edge else Vertex
  }

  function Lower(c: Context, x: Shape): seq<Shape> {
    c.w.sub(x, LowerKind(c.w.kind(x)))
  }

  predicate LowerNamed(c: Context, names: map<Shape, string>, x: Shape) {
    |Lower(c, x)| > 0 && forall y :: y in Lower(c, x) ==> y in names
  }

  function Disambiguator(c: Context, names: map<Shape, string>, x: Shape): (d: string)
    requires WellFormed(c.w)
    ensures IsHex8(d)
  {
    if c.w.kind(x) != Vertex && LowerNamed(c, names, x)
    then HashNames(c.w, NormalNames(names, Lower(c, x)))
    else c.w.hash8(c.w.geometryKey(x, Anchors(c, x)))
  }

  ghost predicate Waiting(c: Context, x: Shape)
    requires forall s :: s in c.sources ==> s in c.book
  {
    GroupOf(c, x).Some?
  }

  ghost function SiblingName(c: Context, names: map<Shape, string>, x: Shape): string
    requires ValidContext(c) && Waiting(c, x)
  {
    Stem(c, GroupOf(c, x).value) + "." + Disambiguator(c, names, x)
  }

  predicate Ready(c: Context, names: map<Shape, string>, x: Shape, force: bool) {
    c.w.kind(x) == Vertex || force || LowerNamed(c, names, x)
  }

  ghost predicate ValidProgress(c: Context, p: Progress)
    requires ValidContext(c)
  {
    && p.names.Keys <= ResultSet(c.w, c.op.result)
    && p.open <= ResultSet(c.w, c.op.result)
    && (forall x :: x in p.open ==> Waiting(c, x))
  }

  ghost function ReadyOfKind(c: Context, p: Progress, k: ShapeType, force: bool): set<Shape> {
    set x | x in p.open && c.w.kind(x) == k && Ready(c, p.names, x, force)
  }

  /** A shape cannot take a second, different name. */
  ghost predicate Clash(c: Context, names: map<Shape, string>, x: Shape)
    requires ValidContext(c) && Waiting(c, x)
  {
    x in names && names[x] != SiblingName(c, names, x)
  }

  /** One kind's share of a disambiguation sweep; None is the two-distinct-names error. */
  ghost function ResolveKind(c: Context, p: Progress, k: ShapeType, force: bool): (r: Option<Progress>)
    requires ValidContext(c) && ValidProgress(c, p)
    ensures r.Some? ==> ValidProgress(c, r.value)
  {
    var ready := ReadyOfKind(c, p, k, force);
    if exists x :: x in ready && Clash(c, p.names, x) then None
    else Some(Progress(p.names + (map x | x in ready :: SiblingName(c, p.names, x)), p.open - ready))
  }

  /** A full sweep: vertices, edges, faces. */
  ghost function Resolve(c: Context, p: Progress, force: bool): (r: Option<Progress>)
    requires ValidContext(c) && ValidProgress(c, p)
    ensures r.Some? ==> ValidProgress(c, r.value)
  {
    var v := ResolveKind(c, p, Vertex, force);
    if v.None? then None
    else
      var e := ResolveKind(c, v.value, Edge, force);
      if e.None? then None else ResolveKind(c, e.value, Face, force)
  }

  /** The members of xs that have x among their sub-shapes, in order. */
  function Holding(w: World, xs: seq<Shape>, x: Shape): (r: seq<Shape>)
    ensures forall f :: f in r <==> f in xs && x in w.sub(f, w.kind(x))
  {
    if xs == [] then []
    else
      assert xs == [xs[0]] + xs[1..];
      (if x in w.sub(xs[0], w.kind(x)) then [xs[0]] else []) + Holding(w, xs[1..], x)
  }

  /** The result faces containing an edge; the result edges containing a vertex. */
  function Containers(c: Context, x: Shape): seq<Shape> {
    Holding(c.w, c.w.sub(c.op.result, if c.w.kind(x) == Vertex then Edge else Face), x)
  }

  predicate Reconstructible(c: Context, names: map<Shape, string>, x: Shape) {
    x !in names && Containers(c, x) != [] && forall f :: f in Containers(c, x) ==> f in names
  }

  function BoundName(c: Context, names: map<Shape, string>, x: Shape): string
    requires forall f :: f in Containers(c, x) ==> f in names
  {
    "n1:L." + c.op.prefix + "." + HashNames(c.w, NormalNames(names, Containers(c, x)))
  }

  ghost function ReconstructKind(c: Context, names: map<Shape, string>, k: ShapeType): (r: map<Shape, string>)
    ensures names.Keys <= r.Keys
    ensures forall x :: x in names ==> r[x] == names[x]
    ensures forall x :: x in r && x !in names ==> x in c.w.sub(c.op.result, k)
  {
    names + map x | x in c.w.sub(c.op.result, k) && Reconstructible(c, names, x) :: BoundName(c, names, x)
  }

  /** Lower-bound reconstruction: edges from faces, then vertices from edges. */
  ghost function LowerBound(c: Context, names: map<Shape, string>): (r: map<Shape, string>)
    ensures names.Keys <= r.Keys
    ensures forall x :: x in names ==> r[x] == names[x]
  {
    ReconstructKind(c, ReconstructKind(c, names, Edge), Vertex)
  }

  lemma LowerBoundValid(c: Context, p: Progress)
    requires ValidContext(c) && ValidProgress(c, p)
    ensures ValidProgress(c, p.(names := LowerBound(c, p.names)))
  {
    ResultSetIs(c.w, c.op.result);
  }

  /** One turn of the interleaved loop. */
  ghost function Turn(c: Context, p: Progress): (r: Option<Progress>)
    requires ValidContext(c) && ValidProgress(c, p)
    ensures r.Some? ==> ValidProgress(c, r.value)
  {
    var q := Resolve(c, p, false);
    if q.None? then None
    else
      LowerBoundValid(c, q.value);
      Some(q.value.(names := LowerBound(c, q.value.names)))
  }

  /** The interleaved loop with `turns` turns left before its guard cuts it off. */
  ghost function Interleave(c: Context, p: Progress, turns: nat): (r: Option<Progress>)
    requires ValidContext(c) && ValidProgress(c, p)
    ensures r.Some? ==> ValidProgress(c, r.value)
    decreases turns
  {
    if turns == 0 then Some(p)
    else
      var q := Turn(c, p);
      if q.None? || q.value == p then q else Interleave(c, q.value, turns - 1)
  }

  /** The reconstruction loop that follows the forced sweep. */
  ghost function Rebuild(c: Context, names: map<Shape, string>, turns: nat): (r: map<Shape, string>)
    ensures names.Keys <= r.Keys
    ensures forall x :: x in names ==> r[x] == names[x]
    decreases turns
  {
    if turns == 0 then names
    else
      var next := LowerBound(c, names);
      if next == names then names else Rebuild(c, next, turns - 1)
  }

  function RootName(c: Context, x: Shape): string {
    "n1:Q." + c.w.hash8(c.w.geometryKey(x, {c.op.result}))
  }

  /** The last resort names whatever is left. */
  ghost function WithRoots(c: Context, names: map<Shape, string>): map<Shape, string> {
    names + map x | x in ResultSet(c.w, c.op.result) && x !in names :: RootName(c, x)
  }

  const GUARD: nat := 32

  /** Between the history images and the quantized roots. */
  ghost function Settle(c: Context): (r: Option<Progress>)
    requires ValidContext(c)
    ensures r.Some? ==> ValidProgress(c, r.value)
  {
    var p := Interleave(c, Initial(c), c.guard);
    if p.None? then None else Resolve(c, p.value, true)
  }

  /** The names one operation gives its result. */
  ghost function NamesOfResult(c: Context): Option<map<Shape, string>>
    requires ValidContext(c)
  {
    var p := Settle(c);
    if p.None? then None else Some(WithRoots(c, Rebuild(c, p.value.names, c.guard)))
  }
}
