// Matching the entities of two independent evaluations of one construction: by the arguments
// they descend from, then by incidence, refusing whenever a match is not forced.
module Correspondence {
  import opened Outcomes
  import opened ElementNaming

  // ---------- Construction states and their lineage ----------

  /** One evaluated document state: result, named arguments, composed history. */
  datatype Construction = Construction(
    result: Shape,
    owners: seq<(string, Shape)>,
    removed: Shape -> bool,
    modified: Shape -> seq<Shape>,
    generated: Shape -> seq<Shape>)

  /** An argument sub-shape: owner, kind, place in the owner's enumeration of that kind. */
  datatype Key = Key(owner: string, kind: ShapeType, index: nat)

  datatype Lineage = Lineage(
    images: map<Key, seq<Shape>>,
    generated: map<Key, seq<Shape>>,
    owners: set<string>,
    extents: map<(string, ShapeType), nat>)

  const KINDS: seq<ShapeType> := [Face, Edge, Vertex]

  predicate AllIn(w: World, result: Shape, xs: seq<Shape>) {
    forall y :: y in xs ==> InResult(w, result, y)
  }

  /** Same-kind images of an argument sub-shape: none if removed, itself if untouched. */
  function ImagesOf(s: Construction, x: Shape): seq<Shape> {
    if s.removed(x) then [] else if s.modified(x) == [] then [x] else s.modified(x)
  }

  /** The history says nothing of x that the result contradicts. */
  predicate Agrees(w: World, s: Construction, x: Shape) {
    && AllIn(w, s.result, ImagesOf(s, x))
    && (forall y :: y in ImagesOf(s, x) ==> w.kind(y) == w.kind(x))
    && AllIn(w, s.result, s.generated(x))
  }

  /** The argument sub-shape a key denotes, as seen from owner i. */
  predicate Denotes(w: World, s: Construction, i: nat, key: Key) {
    i < |s.owners| && s.owners[i].0 == key.owner && key.kind in KINDS && key.index < |w.sub(s.owners[i].1, key.kind)|
  }

  function Denoted(w: World, s: Construction, i: nat, key: Key): Shape
    requires Denotes(w, s, i, key)
  {
    w.sub(s.owners[i].1, key.kind)[key.index]
  }

  ghost predicate Consistent(w: World, s: Construction) {
    forall i, key :: Denotes(w, s, i, key) ==> Agrees(w, s, Denoted(w, s, i, key))
  }

  function WithShape(s: Construction, l: Lineage, key: Key, x: Shape): Lineage {
    l.(images := l.images[key := ImagesOf(s, x)],
       generated := if s.generated(x) == [] then l.generated else l.generated[key := s.generated(x)])
  }

  function ShapesRead(w: World, s: Construction, l: Lineage, owner: string, k: ShapeType, xs: seq<Shape>, n: nat)
    : Lineage
    requires n <= |xs|
  {
    if n == 0 then l else WithShape(s, ShapesRead(w, s, l, owner, k, xs, n - 1), Key(owner, k, n - 1), xs[n - 1])
  }

  function WithExtent(w: World, l: Lineage, owner: (string, Shape), k: ShapeType): Lineage {
    l.(extents := l.extents[(owner.0, k) := |w.sub(owner.1, k)|])
  }

  function KindsRead(w: World, s: Construction, l: Lineage, owner: (string, Shape), n: nat): Lineage
    requires n <= |KINDS|
  {
    if n == 0 then l
    else
      var k := KINDS[n - 1];
      ShapesRead(w, s, WithExtent(w, KindsRead(w, s, l, owner, n - 1), owner, k), owner.0, k, w.sub(owner.1, k),
        |w.sub(owner.1, k)|)
  }

  function WithOwner(l: Lineage, owner: string): Lineage {
    l.(owners := l.owners + {owner})
  }

  const NOTHING := Lineage(map[], map[], {}, map[])

  function OwnersRead(w: World, s: Construction, n: nat): Lineage
    requires n <= |s.owners|
  {
    if n == 0 then NOTHING
    else KindsRead(w, s, WithOwner(OwnersRead(w, s, n - 1), s.owners[n - 1].0), s.owners[n - 1], |KINDS|)
  }

  function LineageOf(w: World, s: Construction): Lineage {
    OwnersRead(w, s, |s.owners|)
  }

  // ---------- Deciding one entity ----------

  /** Two lineages being matched. */
  datatype Pairing = Pairing(w: World, before: Lineage, after: Lineage, beforeResult: Shape, afterResult: Shape)

  /** A lineage of well-formed images: what reading a construction guarantees. */
  ghost predicate SoundLineage(w: World, result: Shape, l: Lineage) {
    && (forall key :: key in l.images ==> AllIn(w, result, l.images[key]))
    && (forall key, y :: key in l.images && y in l.images[key] ==> w.kind(y) == key.kind)
    && (forall key :: key in l.generated ==> AllIn(w, result, l.generated[key]))
    && (forall key :: key in l.images || key in l.generated ==> key.owner in l.owners)
  }

  ghost predicate ValidPairing(p: Pairing) {
    && WellFormed(p.w)
    && SoundLineage(p.w, p.beforeResult, p.before) && SoundLineage(p.w, p.afterResult, p.after)
  }

  function KeysOf(byKey: map<Key, seq<Shape>>, x: Shape): set<Key> {
    set key | key in byKey && x in byKey[key]
  }

  /** Construction parents: same-kind descent if there is any, else what generated the entity. */
  function ParentsOf(l: Lineage, x: Shape): set<Key> {
    if KeysOf(l.images, x) != {} then KeysOf(l.images, x) else KeysOf(l.generated, x)
  }

  function LookupFor(p: Pairing, x: Shape): map<Key, seq<Shape>> {
    if KeysOf(p.before.images, x) != {} then p.after.images else p.after.generated
  }

  predicate OwnerGone(p: Pairing, x: Shape) {
    exists key :: key in ParentsOf(p.before, x) && key.owner !in p.after.owners
  }

  predicate Descends(lookup: map<Key, seq<Shape>>, key: Key, y: Shape) {
    key in lookup && y in lookup[key]
  }

  /** After entities of x's kind that descend from every translated parent of x. */
  function Candidates(p: Pairing, x: Shape): set<Shape> {
    set y | y in p.w.sub(p.afterResult, p.w.kind(x))
      && forall key :: key in ParentsOf(p.before, x) ==> Descends(LookupFor(p, x), key, y)
  }

  predicate Higher(k: ShapeType, than: ShapeType) {
    (k == Face && than != Face) || (k == Edge && than == Vertex)
  }

  /** Images already found for the higher-kind before entities that contain x. */
  function Surrounding(p: Pairing, x: Shape, resolved: map<Shape, Shape>): set<Shape> {
    set z | z in resolved && Higher(p.w.kind(z), p.w.kind(x)) && InResult(p.w, p.beforeResult, z)
      && x in p.w.sub(z, p.w.kind(x)) :: resolved[z]
  }

  function Refined(p: Pairing, x: Shape, resolved: map<Shape, Shape>): set<Shape> {
    set y | y in Candidates(p, x) && forall z :: z in Surrounding(p, x, resolved) ==> y in p.w.sub(z, p.w.kind(x))
  }

  datatype Fate = Gone | Stable(image: Shape)

  /** The image of x when it is forced: a sole candidate, or a sole candidate after refinement. */
  function Forced(p: Pairing, x: Shape, resolved: map<Shape, Shape>): Option<Shape> {
    var c := Candidates(p, x);
    var d := if |c| == 1 then c else Refined(p, x, resolved);
    if c != {} && |d| == 1 then Some(Only(d)) else None
  }

  function Only(s: set<Shape>): (x: Shape)
    requires |s| == 1
    ensures s == {x}
  {
    OnlyOne(s);
    var only :| only in s; only
  }

  lemma OnlyOne(s: set<Shape>)
    requires |s| == 1
    ensures exists x :: x in s
    ensures forall x, y :: x in s && y in s ==> x == y
  {
    var x :| x in s;
    assert |s - {x}| == 0;
    assert s == {x} + (s - {x});
  }

  /** The fate of x given the images already used; None refuses the whole correspondence. */
  function Decide(p: Pairing, x: Shape, resolved: map<Shape, Shape>): Option<Fate> {
    if ParentsOf(p.before, x) == {} then None
    else if OwnerGone(p, x) then Some(Gone)
    else
      var y := Forced(p, x, resolved);
      if y.None? || y.value in resolved.Values then None else Some(Stable(y.value))
  }

  function Recorded(resolved: map<Shape, Shape>, x: Shape, fate: Fate): map<Shape, Shape> {
    if fate.Gone? then resolved else resolved[x := fate.image]
  }

  /** All entities in turn; each decision may consult the images found so far. */
  function Correspond(p: Pairing, xs: seq<Shape>, resolved: map<Shape, Shape>): Option<seq<Fate>>
    decreases |xs|
  {
    if xs == [] then Some([])
    else
      var fate := Decide(p, xs[0], resolved);
      if fate.None? then None
      else
        var rest := Correspond(p, xs[1..], Recorded(resolved, xs[0], fate.value));
        if rest.None? then None else Some([fate.value] + rest.value)
  }

  /** Shared owners expose the same number of sub-shapes of every kind. */
  predicate Congruent(before: Lineage, after: Lineage) {
    forall ok :: ok in before.extents && ok.0 in after.owners ==>
      ok in after.extents && after.extents[ok] == before.extents[ok]
  }

  function Corresponding(p: Pairing): Option<seq<Fate>> {
    if !Congruent(p.before, p.after) then None
    else Correspond(p, ShapesOf(p.w, p.beforeResult), map[])
  }

  // ---------- The computation ----------

  /** One argument sub-shape's contribution to the lineage; None for a history that contradicts the result. */
  method ReadShape(w: World, s: Construction, l: Lineage, key: Key, x: Shape) returns (r: Option<Lineage>)
    ensures r == if Agrees(w, s, x) then Some(WithShape(s, l, key, x)) else None
  {
    var images: seq<Shape> := [];
    if !s.removed(x) {
      var modified := s.modified(x);
      if modified == [] {
        if !InResult(w, s.result, x) {
          return None;
        }
        images := [x];
      } else {
        for i := 0 to |modified|
          invariant images == modified[..i]
          invariant forall y :: y in modified[..i] ==> InResult(w, s.result, y) && w.kind(y) == w.kind(x)
        {
          if w.kind(modified[i]) != w.kind(x) || !InResult(w, s.result, modified[i]) {
            assert modified[i] in modified;
            return None;
          }
          assert modified[..i + 1] == modified[..i] + [modified[i]];
          images := images + [modified[i]];
        }
        assert modified[..|modified|] == modified;
      }
    }
    var births := s.generated(x);
    for i := 0 to |births|
      invariant forall y :: y in births[..i] ==> InResult(w, s.result, y)
    {
      if !InResult(w, s.result, births[i]) {
        assert births[i] in births;
        return None;
      }
      assert births[..i + 1] == births[..i] + [births[i]];
    }
    assert births[..|births|] == births;
    var generated := if births == [] then l.generated else l.generated[key := births];
    return Some(l.(images := l.images[key := images], generated := generated));
  }

  ghost predicate KindAgrees(w: World, s: Construction, shapes: seq<Shape>, n: nat) {
    forall m :: 0 <= m < n && m < |shapes| ==> Agrees(w, s, shapes[m])
  }

  ghost predicate OwnerAgrees(w: World, s: Construction, owner: (string, Shape), n: nat) {
    forall j :: 0 <= j < n && j < |KINDS| ==> KindAgrees(w, s, w.sub(owner.1, KINDS[j]), |w.sub(owner.1, KINDS[j])|)
  }

  lemma ConsistentByOwner(w: World, s: Construction)
    ensures Consistent(w, s) <==> forall i :: 0 <= i < |s.owners| ==> OwnerAgrees(w, s, s.owners[i], |KINDS|)
  {
    hide Agrees;
    if Consistent(w, s) {
      forall i, j, m | 0 <= i < |s.owners| && 0 <= j < |KINDS| && 0 <= m < |w.sub(s.owners[i].1, KINDS[j])|
        ensures Agrees(w, s, w.sub(s.owners[i].1, KINDS[j])[m])
      {
        assert Denotes(w, s, i, Key(s.owners[i].0, KINDS[j], m));
      }
    }
    if forall i :: 0 <= i < |s.owners| ==> OwnerAgrees(w, s, s.owners[i], |KINDS|) {
      forall i: nat, key | Denotes(w, s, i, key) ensures Agrees(w, s, Denoted(w, s, i, key)) {
        var j :| 0 <= j < |KINDS| && KINDS[j] == key.kind;
        assert KindAgrees(w, s, w.sub(s.owners[i].1, KINDS[j]), |w.sub(s.owners[i].1, KINDS[j])|);
      }
    }
  }

  method ReadKind(w: World, s: Construction, start: Lineage, owner: string, k: ShapeType, shapes: seq<Shape>)
    returns (r: Option<Lineage>)
    ensures r == if KindAgrees(w, s, shapes, |shapes|) then Some(ShapesRead(w, s, start, owner, k, shapes, |shapes|))
      else None
  {
    hide Agrees, WithShape;
    var l := start;
    for n := 0 to |shapes|
      invariant l == ShapesRead(w, s, start, owner, k, shapes, n)
      invariant KindAgrees(w, s, shapes, n)
    {
      var read := ReadShape(w, s, l, Key(owner, k, n), shapes[n]);
      if read.None? {
        return None;
      }
      l := read.value;
    }
    return Some(l);
  }

  method ReadOwner(w: World, s: Construction, start: Lineage, owner: (string, Shape)) returns (r: Option<Lineage>)
    ensures r == if OwnerAgrees(w, s, owner, |KINDS|) then Some(KindsRead(w, s, start, owner, |KINDS|)) else None
  {
    hide KindAgrees, ShapesRead, WithExtent;
    var l := start;
    for j := 0 to |KINDS|
      invariant l == KindsRead(w, s, start, owner, j)
      invariant OwnerAgrees(w, s, owner, j)
    {
      var k := KINDS[j];
      var read := ReadKind(w, s, WithExtent(w, l, owner, k), owner.0, k, w.sub(owner.1, k));
      if read.None? {
        return None;
      }
      l := read.value;
    }
    return Some(l);
  }

  /** Every argument sub-shape of every owner, by kind and index; completes exactly on a consistent history. */
  method ReadLineage(w: World, s: Construction) returns (r: Option<Lineage>)
    ensures r == if Consistent(w, s) then Some(LineageOf(w, s)) else None
  {
    hide OwnerAgrees, Consistent, KindsRead;
    ConsistentByOwner(w, s);
    var l := NOTHING;
    for i := 0 to |s.owners|
      invariant l == OwnersRead(w, s, i)
      invariant forall j :: 0 <= j < i ==> OwnerAgrees(w, s, s.owners[j], |KINDS|)
    {
      var read := ReadOwner(w, s, WithOwner(l, s.owners[i].0), s.owners[i]);
      if read.None? {
        return None;
      }
      l := read.value;
    }
    return Some(l);
  }

  /** The intersection, over every parent, of the images its key has afterwards. */
  method Intersect(p: Pairing, x: Shape) returns (candidates: set<Shape>)
    requires ValidPairing(p) && ParentsOf(p.before, x) != {}
    ensures candidates == Candidates(p, x)
  {
    var parents := ParentsOf(p.before, x);
    var lookup := LookupFor(p, x);
    var left := parents;
    var first := true;
    candidates := {};
    while left != {}
      invariant left <= parents && (first <==> left == parents)
      invariant !first ==> candidates == (set y | y in p.w.sub(p.afterResult, p.w.kind(x))
                                            && forall key :: key in parents - left ==> Descends(lookup, key, y))
      decreases left
    {
      var key :| key in left;
      var images := ImagesFor(p, lookup, key, p.w.kind(x));
      candidates := if first then images else candidates * images;
      left, first := left - {key}, false;
      assert parents - left == (parents - left - {key}) + {key};
    }
    assert parents - left == parents;
  }

  function ImagesFor(p: Pairing, lookup: map<Key, seq<Shape>>, key: Key, k: ShapeType): (r: set<Shape>)
    requires ValidPairing(p) && lookup in {p.after.images, p.after.generated}
    ensures r == set y | y in p.w.sub(p.afterResult, k) && Descends(lookup, key, y)
  {
    if key in lookup then
      assert forall y :: y in lookup[key] && p.w.kind(y) == k ==> InResult(p.w, p.afterResult, y) || k == Other;
      set y | y in lookup[key] && p.w.kind(y) == k && InResult(p.w, p.afterResult, y)
    else {}
  }

  /** Keeps the candidates contained in every image of a higher-kind entity containing x. */
  method Refine(p: Pairing, x: Shape, candidates: set<Shape>, resolved: map<Shape, Shape>) returns (refined: set<Shape>)
    requires candidates == Candidates(p, x)
    ensures refined == Refined(p, x, resolved)
  {
    var required := Surrounding(p, x, resolved);
    var left := required;
    refined := candidates;
    while left != {}
      invariant left <= required
      invariant refined == set y | y in candidates && forall z :: z in required - left ==> y in p.w.sub(z, p.w.kind(x))
      decreases left
    {
      var z :| z in left;
      refined := set y | y in refined && y in p.w.sub(z, p.w.kind(x));
      left := left - {z};
      assert required - left == (required - left - {z}) + {z};
    }
    assert required - left == required;
  }

  method DecideEntity(p: Pairing, x: Shape, resolved: map<Shape, Shape>, used: set<Shape>) returns (fate: Option<Fate>)
    requires ValidPairing(p) && used == resolved.Values
    ensures fate == Decide(p, x, resolved)
  {
    if ParentsOf(p.before, x) == {} {
      return None;
    }
    if OwnerGone(p, x) {
      return Some(Gone);
    }
    var candidates := Intersect(p, x);
    if candidates == {} {
      return None;
    }
    var refined := candidates;
    if |candidates| != 1 {
      refined := Refine(p, x, candidates, resolved);
      if |refined| != 1 {
        return None;
      }
    }
    var image := Only(refined);
    if image in used {
      return None;
    }
    return Some(Stable(image));
  }

  function Rank(k: ShapeType): nat {
    match k case Face => 0 case Edge => 1 case Vertex => 2 case Other => 3
  }

  /** A sequence of runs, each of one kind, in rank order. */
  lemma RunsInOrder(w: World, a: seq<Shape>, b: seq<Shape>)
    requires Distinct(a) && Distinct(b)
    requires forall i, j :: 0 <= i < |a| && 0 <= j < |b| ==> Rank(w.kind(a[i])) < Rank(w.kind(b[j]))
    requires forall i, j :: 0 <= i <= j < |a| ==> Rank(w.kind(a[i])) <= Rank(w.kind(a[j]))
    requires forall i, j :: 0 <= i <= j < |b| ==> Rank(w.kind(b[i])) <= Rank(w.kind(b[j]))
    ensures Distinct(a + b)
    ensures forall i, j :: 0 <= i <= j < |a + b| ==> Rank(w.kind((a + b)[i])) <= Rank(w.kind((a + b)[j]))
  {
  }

  lemma OnceEach(w: World, result: Shape)
    requires WellFormed(w)
    ensures Distinct(ShapesOf(w, result))
    ensures var xs := ShapesOf(w, result);
            forall i, j :: 0 <= i < |xs| && 0 <= j < |xs| && Higher(w.kind(xs[i]), w.kind(xs[j])) ==> i < j
  {
    var f, e, v := w.sub(result, Face), w.sub(result, Edge), w.sub(result, Vertex);
    assert forall i :: 0 <= i < |f| ==> f[i] in f;
    assert forall i :: 0 <= i < |e| ==> e[i] in e;
    assert forall i :: 0 <= i < |v| ==> v[i] in v;
    RunsInOrder(w, f, e);
    RunsInOrder(w, f + e, v);
  }

  /** What the remaining decisions add to the entries already made. */
  function Joined(entries: seq<Fate>, rest: Option<seq<Fate>>): Option<seq<Fate>> {
    if rest.None? then None else Some(entries + rest.value)
  }

  lemma OneMore(p: Pairing, xs: seq<Shape>, i: nat, resolved: map<Shape, Shape>, entries: seq<Fate>)
    requires i < |xs|
    ensures var fate := Decide(p, xs[i], resolved);
      Joined(entries, Correspond(p, xs[i..], resolved)) ==
      if fate.None? then None
      else Joined(entries + [fate.value], Correspond(p, xs[i + 1..], Recorded(resolved, xs[i], fate.value)))
  {
    hide Decide, Recorded;
    assert xs[i..][0] == xs[i] && xs[i..][1..] == xs[i + 1..];
    var fate := Decide(p, xs[i], resolved);
    if fate.Some? {
      var rest := Correspond(p, xs[i + 1..], Recorded(resolved, xs[i], fate.value));
      if rest.Some? {
        assert entries + ([fate.value] + rest.value) == entries + [fate.value] + rest.value;
      }
    }
  }

  /** Faces, then edges, then vertices: one entry per before entity, or a refusal. */
  method ConstructionCorrespondence(p: Pairing) returns (fates: Option<seq<Fate>>)
    requires ValidPairing(p)
    ensures fates == Corresponding(p)
  {
    hide Decide, ShapesOf;
    if !Congruent(p.before, p.after) {
      return None;
    }
    var xs := ShapesOf(p.w, p.beforeResult);
    var resolved: map<Shape, Shape>, used: set<Shape>, entries: seq<Fate> := map[], {}, [];
    OnceEach(p.w, p.beforeResult);
    assert xs[0..] == xs;
    ghost var whole := Correspond(p, xs, map[]);
    assert whole.Some? ==> [] + whole.value == whole.value;
    for i := 0 to |xs|
      invariant used == resolved.Values
      invariant forall z :: z in resolved ==> z in xs[..i]
      invariant whole == Joined(entries, Correspond(p, xs[i..], resolved))
    {
      var fate := DecideEntity(p, xs[i], resolved, used);
      OneMore(p, xs, i, resolved, entries);
      if fate.None? {
        return None;
      }
      assert xs[..i + 1] == xs[..i] + [xs[i]];
      if fate.value.Stable? {
        ValuesGrow(resolved, xs[i], fate.value.image);
        resolved := resolved[xs[i] := fate.value.image];
        used := used + {fate.value.image};
      }
      entries := entries + [fate.value];
    }
    assert entries + [] == entries;
    return Some(entries);
  }

  lemma ValuesGrow(resolved: map<Shape, Shape>, x: Shape, y: Shape)
    requires x !in resolved
    ensures resolved[x := y].Values == resolved.Values + {y}
  {
    var r := resolved[x := y];
    forall z | z in resolved.Values ensures z in r.Values {
      var k :| k in resolved && resolved[k] == z;
      assert r[k] == z;
    }
    assert r[x] == y;
  }
}
