// Splitting sewn surface material into shells: connected components of the faces, two
// faces being adjacent when they share an edge.
module FaceComponents {
  import opened Outcomes

  type Edge = nat

  /** A sewn result: for each face, its edges as the explorer lists them. */
  type Sewn = seq<seq<Edge>>

  predicate HasEdge(sewn: Sewn, f: nat, e: Edge) { f < |sewn| && e in sewn[f] }

  /** The faces below n on an edge: what the edge-to-face map lists for it. */
  function FacesOn(sewn: Sewn, e: Edge, n: nat): (r: seq<nat>)
    requires n <= |sewn|
    ensures forall f: nat :: f in r <==> f < n && HasEdge(sewn, f, e)
  {
    if n == 0 then [] else FacesOn(sewn, e, n - 1) + if e in sewn[n - 1] then [n - 1] else []
  }

  ghost predicate Adjacent(sewn: Sewn, a: nat, b: nat) {
    exists e :: HasEdge(sewn, a, e) && HasEdge(sewn, b, e)
  }

  // ---------- Connection ----------

  ghost predicate Walk(sewn: Sewn, p: seq<nat>) {
    |p| > 0 && (forall k :: 0 <= k < |p| ==> p[k] < |sewn|)
      && forall k :: 0 <= k < |p| - 1 ==> Adjacent(sewn, p[k], p[k + 1])
  }

  ghost predicate Connected(sewn: Sewn, a: nat, b: nat) {
    exists p :: Walk(sewn, p) && p[0] == a && p[|p| - 1] == b
  }

  lemma ConnectedSelf(sewn: Sewn, a: nat)
    requires a < |sewn|
    ensures Connected(sewn, a, a)
  {
    assert Walk(sewn, [a]);
  }

  lemma ConnectedStep(sewn: Sewn, a: nat, b: nat, c: nat)
    requires Connected(sewn, a, b) && Adjacent(sewn, b, c)
    ensures Connected(sewn, a, c)
  {
    var p :| Walk(sewn, p) && p[0] == a && p[|p| - 1] == b;
    assert Walk(sewn, p + [c]);
  }

  lemma {:induction false} WalkFrom(sewn: Sewn, a: nat, p: seq<nat>)
    requires Walk(sewn, p) && Connected(sewn, a, p[|p| - 1])
    ensures Connected(sewn, a, p[0])
    decreases |p|
  {
    if |p| > 1 {
      var q := p[..|p| - 1];
      assert Adjacent(sewn, p[|p| - 2], p[|p| - 1]);
      ConnectedStep(sewn, a, p[|p| - 1], p[|p| - 2]);
      WalkFrom(sewn, a, q);
    }
  }

  /** Two faces reached from one root are connected. */
  lemma ConnectedThrough(sewn: Sewn, r: nat, a: nat, b: nat)
    requires Connected(sewn, r, a) && Connected(sewn, r, b)
    ensures Connected(sewn, a, b)
  {
    var p :| Walk(sewn, p) && p[0] == r && p[|p| - 1] == a;
    assert p[|p| - 1] < |sewn|;
    ConnectedSelf(sewn, a);
    WalkFrom(sewn, a, p);
    var q :| Walk(sewn, q) && q[0] == r && q[|q| - 1] == b;
    WalkOn(sewn, a, q);
  }

  lemma {:induction false} WalkOn(sewn: Sewn, a: nat, q: seq<nat>)
    requires Walk(sewn, q) && Connected(sewn, a, q[0])
    ensures Connected(sewn, a, q[|q| - 1])
    decreases |q|
  {
    if |q| > 1 {
      var p := q[..|q| - 1];
      WalkOn(sewn, a, p);
      assert Adjacent(sewn, q[|q| - 2], q[|q| - 1]);
      ConnectedStep(sewn, a, q[|q| - 2], q[|q| - 1]);
    }
  }

  // ---------- Labels ----------

  /** Labels of a component are shared with all neighbours. */
  ghost predicate Closed(sewn: Sewn, tag: seq<int>, c: int) {
    |tag| == |sewn|
      && forall a: nat, b: nat :: a < |sewn| && b < |sewn| && tag[a] == c && Adjacent(sewn, a, b) ==> tag[b] == c
  }

  lemma {:induction false} LabelCarries(sewn: Sewn, tag: seq<int>, p: seq<nat>)
    requires Walk(sewn, p) && |tag| == |sewn| && Closed(sewn, tag, tag[p[0]])
    ensures tag[p[|p| - 1]] == tag[p[0]]
    decreases |p|
  {
    if |p| > 1 {
      assert Adjacent(sewn, p[0], p[1]);
      assert forall k :: 0 <= k < |p| - 2 ==> Adjacent(sewn, p[1..][k], p[1..][k + 1]);
      LabelCarries(sewn, tag, p[1..]);
    }
  }

  /** The first `count` labels are each one whole component, named by its first face. */
  ghost predicate Labelled(sewn: Sewn, tag: seq<int>, roots: seq<nat>, n: nat) {
    && |tag| == |sewn| && n <= |sewn|
    && (forall i :: 0 <= i < n ==> tag[i] != -1)
    && (forall i :: 0 <= i < |tag| ==> -1 <= tag[i] < |roots|)
    && (forall c :: 0 <= c < |roots| ==> roots[c] < n && tag[roots[c]] == c && Closed(sewn, tag, c))
    && (forall i :: 0 <= i < |tag| && tag[i] != -1 ==> roots[tag[i]] <= i && Connected(sewn, roots[tag[i]], i))
    && (forall c, d :: 0 <= c < d < |roots| ==> roots[c] < roots[d])
  }

  ghost predicate Partition(sewn: Sewn, tag: seq<int>, count: nat) {
    && |tag| == |sewn|
    && (forall i :: 0 <= i < |tag| ==> 0 <= tag[i] < count)
    && (forall c :: 0 <= c < count ==> c in tag)
    && (forall a: nat, b: nat :: a < |sewn| && b < |sewn| ==> (tag[a] == tag[b] <==> Connected(sewn, a, b)))
  }

  lemma LabelledIsPartition(sewn: Sewn, tag: seq<int>, roots: seq<nat>)
    requires Labelled(sewn, tag, roots, |sewn|)
    ensures Partition(sewn, tag, |roots|)
  {
    forall c | 0 <= c < |roots| ensures c in tag {
      assert tag[roots[c]] == c;
    }
    forall a: nat, b: nat | a < |sewn| && b < |sewn| ensures tag[a] == tag[b] <==> Connected(sewn, a, b) {
      if tag[a] == tag[b] {
        ConnectedThrough(sewn, roots[tag[a]], a, b);
      }
      if Connected(sewn, a, b) {
        var p :| Walk(sewn, p) && p[0] == a && p[|p| - 1] == b;
        LabelCarries(sewn, tag, p);
      }
    }
  }

  /** Mid-flood: label c is taken by faces reached from the seed; those off the stack have all neighbours in. */
  ghost predicate Flooding(sewn: Sewn, tag: seq<int>, roots: seq<nat>, seed: nat, stack: seq<nat>) {
    && |tag| == |sewn| && seed < |sewn| && tag[seed] == |roots|
    && (forall i :: 0 <= i < |tag| ==> -1 <= tag[i] <= |roots|)
    && (forall c :: 0 <= c < |roots| ==> roots[c] < seed && tag[roots[c]] == c && Closed(sewn, tag, c))
    && (forall i :: 0 <= i < |tag| && 0 <= tag[i] < |roots| ==> roots[tag[i]] <= i && Connected(sewn, roots[tag[i]], i))
    && (forall i :: 0 <= i < |tag| && tag[i] == |roots| ==> seed <= i && Connected(sewn, seed, i))
    && (forall i :: i in stack ==> i < |sewn| && tag[i] == |roots|)
    && (forall c, d :: 0 <= c < d < |roots| ==> roots[c] < roots[d])
    && (forall i :: 0 <= i < seed ==> tag[i] != -1)
  }

  /** Neighbours of every flooded face that is neither pending nor the current one are flooded. */
  ghost predicate Settled(sewn: Sewn, tag: seq<int>, c: int, stack: seq<nat>) {
    |tag| == |sewn|
      && forall a: nat, b: nat :: a < |sewn| && b < |sewn| && tag[a] == c && a !in stack && Adjacent(sewn, a, b) ==>
        tag[b] == c
  }

  ghost function Unlabelled(tag: seq<int>): set<nat> {
    set i: nat | i < |tag| && tag[i] == -1
  }

  /** Takes an unlabelled neighbour of a flooded face into the flood. */
  lemma FloodOne(sewn: Sewn, tag: seq<int>, roots: seq<nat>, seed: nat, stack: seq<nat>, current: nat, next: nat)
    requires Flooding(sewn, tag, roots, seed, stack)
    requires current < |sewn| && next < |sewn| && tag[current] == |roots| && Adjacent(sewn, current, next)
      && tag[next] == -1
    ensures Flooding(sewn, tag[next := |roots|], roots, seed, stack + [next])
    ensures Unlabelled(tag[next := |roots|]) == Unlabelled(tag) - {next}
  {
    ConnectedStep(sewn, seed, current, next);
    hide Connected, Adjacent;
    var after := tag[next := |roots|];
    forall c | 0 <= c < |roots| ensures Closed(sewn, after, c) {
      forall a: nat, b: nat | a < |sewn| && b < |sewn| && after[a] == c && Adjacent(sewn, a, b) ensures after[b] == c {
        assert tag[a] == c;
      }
    }
  }

  /** A neighbour that is labelled already belongs to the same flood. */
  lemma NeighbourFlooded(
    sewn: Sewn, tag: seq<int>, roots: seq<nat>, seed: nat, stack: seq<nat>, current: nat, next: nat)
    requires Flooding(sewn, tag, roots, seed, stack)
    requires current < |sewn| && next < |sewn| && tag[current] == |roots| && Adjacent(sewn, current, next)
      && tag[next] != -1
    ensures tag[next] == |roots|
  {
    if tag[next] < |roots| {
      assert Adjacent(sewn, next, current);
      assert Closed(sewn, tag, tag[next]);
    }
  }

  lemma FloodStarts(sewn: Sewn, tag: seq<int>, roots: seq<nat>, seed: nat)
    requires seed < |sewn| == |tag| && tag[seed] == -1
    requires Labelled(sewn, tag, roots, seed)
    ensures Flooding(sewn, tag[seed := |roots|], roots, seed, [seed])
    ensures Settled(sewn, tag[seed := |roots|], |roots|, [seed])
  {
    ConnectedSelf(sewn, seed);
    hide Connected, Adjacent;
    var after := tag[seed := |roots|];
    forall c | 0 <= c < |roots| ensures Closed(sewn, after, c) {
      assert Closed(sewn, tag, c);
    }
  }

  lemma FloodEnds(sewn: Sewn, tag: seq<int>, roots: seq<nat>, seed: nat)
    requires Flooding(sewn, tag, roots, seed, []) && Settled(sewn, tag, |roots|, [])
    ensures Labelled(sewn, tag, roots + [seed], seed + 1)
  {
    hide Connected, Adjacent;
    assert Closed(sewn, tag, |roots|) by {
      assert forall a: nat :: a !in [];
    }
  }

  /** What spreading keeps, since the face was taken off the stack. */
  ghost predicate Spreading(
    sewn: Sewn, was: seq<int>, tag: seq<int>, roots: seq<nat>, seed: nat, stack: seq<nat>, stack': seq<nat>) {
    && Flooding(sewn, tag, roots, seed, stack') && stack <= stack' && |was| == |tag| == |sewn|
    && Unlabelled(tag) <= Unlabelled(was) && (Unlabelled(tag) == Unlabelled(was) ==> stack' == stack)
    && (forall i :: 0 <= i < |sewn| && tag[i] == |roots| ==> was[i] == |roots| || i in stack')
    && (forall i :: 0 <= i < |sewn| && was[i] == |roots| ==> tag[i] == |roots|)
  }

  lemma SpreadOne(
    sewn: Sewn, was: seq<int>, tag: seq<int>, roots: seq<nat>, seed: nat, stack: seq<nat>, stack': seq<nat>,
    current: nat, next: nat)
    requires Spreading(sewn, was, tag, roots, seed, stack, stack')
    requires current < |sewn| && next < |sewn| && tag[current] == |roots| && Adjacent(sewn, current, next)
      && tag[next] == -1
    ensures Spreading(sewn, was, tag[next := |roots|], roots, seed, stack, stack' + [next])
  {
    FloodOne(sewn, tag, roots, seed, stack', current, next);
    hide Flooding, Adjacent;
    assert next in Unlabelled(tag);
  }

  /** Takes the unlabelled faces on one edge of a flooded face into the flood. */
  method SpreadOver(
    sewn: Sewn, component: array<int>, count: nat, ghost roots: seq<nat>, ghost seed: nat, current: nat, e: Edge,
    stack: seq<nat>, ghost was: seq<int>, ghost start: seq<nat>)
    returns (stack': seq<nat>)
    requires component.Length == |sewn| && count == |roots| && HasEdge(sewn, current, e) && component[current] == count
    requires Spreading(sewn, was, component[..], roots, seed, start, stack)
    modifies component
    ensures Spreading(sewn, was, component[..], roots, seed, start, stack')
    ensures forall i :: 0 <= i < |sewn| && old(component[i]) == count ==> component[i] == count
    ensures forall b: nat :: HasEdge(sewn, b, e) ==> component[b] == count
  {
    hide Flooding;
    stack' := stack;
    var faces := FacesOn(sewn, e, |sewn|);
    for j := 0 to |faces|
      invariant Spreading(sewn, was, component[..], roots, seed, start, stack')
      invariant forall i :: 0 <= i < |sewn| && old(component[i]) == count ==> component[i] == count
      invariant forall b :: b in faces[..j] ==> b < |sewn| && component[b] == count
    {
      var next := faces[j];
      assert next in faces && HasEdge(sewn, next, e);
      assert Adjacent(sewn, current, next);
      if component[next] == -1 {
        SpreadOne(sewn, was, component[..], roots, seed, start, stack', current, next);
        ghost var before := component[..];
        component[next] := count;
        assert component[..] == before[next := count];
        stack' := stack' + [next];
      } else {
        NeighbourFlooded(sewn, component[..], roots, seed, stack', current, next);
      }
      assert faces[..j + 1] == faces[..j] + [next];
    }
    assert faces[..|faces|] == faces;
  }

  /** Takes the unlabelled neighbours of one face into the flood. */
  method Spread(
    sewn: Sewn, component: array<int>, count: nat, ghost roots: seq<nat>, ghost seed: nat, current: nat,
    stack: seq<nat>)
    returns (stack': seq<nat>)
    requires component.Length == |sewn| && current < |sewn| && component[current] == count == |roots|
    requires Flooding(sewn, component[..], roots, seed, stack)
    modifies component
    ensures Flooding(sewn, component[..], roots, seed, stack') && stack <= stack'
    ensures Unlabelled(component[..]) <= Unlabelled(old(component[..]))
    ensures Unlabelled(component[..]) == Unlabelled(old(component[..])) ==> stack' == stack
    ensures forall i :: 0 <= i < |sewn| && component[i] == count ==> old(component[i]) == count || i in stack'
    ensures forall i :: 0 <= i < |sewn| && old(component[i]) == count ==> component[i] == count
    ensures forall b: nat :: b < |sewn| && Adjacent(sewn, current, b) ==> component[b] == count
  {
    hide Flooding;
    stack' := stack;
    var edges := sewn[current];
    for i := 0 to |edges|
      invariant Spreading(sewn, old(component[..]), component[..], roots, seed, stack, stack')
        && component[current] == count
      invariant forall b: nat, e :: b < |sewn| && e in edges[..i] && HasEdge(sewn, b, e) ==> component[b] == count
    {
      ghost var before := component[..];
      stack' := SpreadOver(sewn, component, count, roots, seed, current, edges[i], stack', old(component[..]), stack);
      assert edges[..i + 1] == edges[..i] + [edges[i]];
      assert forall b :: 0 <= b < |sewn| && before[b] == count ==> component[b] == count;
    }
    assert edges[..|edges|] == edges;
  }

  /** Pops one pending face and floods its neighbours. */
  method FloodFace(
    sewn: Sewn, component: array<int>, count: nat, ghost roots: seq<nat>, ghost seed: nat, pending: seq<nat>)
    returns (stack: seq<nat>)
    requires component.Length == |sewn| && count == |roots| && pending != []
    requires Flooding(sewn, component[..], roots, seed, pending) && Settled(sewn, component[..], count, pending)
    modifies component
    ensures Flooding(sewn, component[..], roots, seed, stack) && Settled(sewn, component[..], count, stack)
    ensures Unlabelled(component[..]) < Unlabelled(old(component[..]))
      || (Unlabelled(component[..]) == Unlabelled(old(component[..])) && |stack| < |pending|)
  {
    ghost var was := component[..];
    var current := pending[|pending| - 1];
    FloodPops(sewn, was, roots, seed, pending, current);
    hide Flooding, Settled, Adjacent, Unlabelled;
    assert pending == pending[..|pending| - 1] + [current];
    stack := Spread(sewn, component, count, roots, seed, current, pending[..|pending| - 1]);
    StillSettled(sewn, was, component[..], count, pending, stack, current);
  }

  /** Labels everything connected to the seed, which is the first unlabelled face. */
  method Flood(sewn: Sewn, component: array<int>, count: nat, ghost roots: seq<nat>, seed: nat)
    requires component.Length == |sewn| && seed < |sewn| && component[seed] == -1 && count == |roots|
    requires Labelled(sewn, component[..], roots, seed)
    modifies component
    ensures Labelled(sewn, component[..], roots + [seed], seed + 1)
  {
    FloodStarts(sewn, component[..], roots, seed);
    hide Flooding, Settled, Labelled, Unlabelled;
    var stack := [seed];
    component[seed] := count;
    assert component[..] == old(component[..])[seed := count];
    while stack != []
      invariant Flooding(sewn, component[..], roots, seed, stack)
      invariant Settled(sewn, component[..], count, stack)
      decreases Unlabelled(component[..]), |stack|
    {
      stack := FloodFace(sewn, component, count, roots, seed, stack);
    }
    FloodEnds(sewn, component[..], roots, seed);
  }

  lemma FloodPops(sewn: Sewn, tag: seq<int>, roots: seq<nat>, seed: nat, stack: seq<nat>, current: nat)
    requires Flooding(sewn, tag, roots, seed, stack) && stack != [] && current == stack[|stack| - 1]
    ensures Flooding(sewn, tag, roots, seed, stack[..|stack| - 1]) && current < |sewn| && tag[current] == |roots|
  {
    hide Connected, Closed;
    assert current in stack;
  }

  lemma StillSettled(sewn: Sewn, was: seq<int>, tag: seq<int>, c: int, pending: seq<nat>, stack: seq<nat>, current: nat)
    requires |was| == |tag| == |sewn| && Settled(sewn, was, c, pending)
    requires forall x :: x in pending ==> x in stack || x == current
    requires forall i :: 0 <= i < |sewn| && tag[i] == c ==> was[i] == c || i in stack
    requires forall i :: 0 <= i < |sewn| && was[i] == c ==> tag[i] == c
    requires forall b: nat :: b < |sewn| && Adjacent(sewn, current, b) ==> tag[b] == c
    ensures Settled(sewn, tag, c, stack)
  {
    hide Adjacent;
  }

  /** One label per component of the faces, numbered from zero in order of their first faces. */
  method LabelFaces(sewn: Sewn) returns (tag: seq<int>, count: nat)
    ensures Partition(sewn, tag, count)
  {
    hide Labelled, Partition, Connected, Closed;
    var component := new int[|sewn|](_ => -1);
    count := 0;
    ghost var roots: seq<nat> := [];
    NoneLabelled(sewn, component[..]);
    for seed := 0 to |sewn|
      invariant count == |roots|
      invariant Labelled(sewn, component[..], roots, seed)
    {
      if component[seed] == -1 {
        Flood(sewn, component, count, roots, seed);
        roots := roots + [seed];
        count := count + 1;
      } else {
        AlreadyLabelled(sewn, component[..], roots, seed);
      }
    }
    tag := component[..];
    LabelledIsPartition(sewn, tag, roots);
  }

  lemma NoneLabelled(sewn: Sewn, tag: seq<int>)
    requires |tag| == |sewn| && forall i :: 0 <= i < |tag| ==> tag[i] == -1
    ensures Labelled(sewn, tag, [], 0)
  {
    hide Connected, Closed;
  }

  lemma AlreadyLabelled(sewn: Sewn, tag: seq<int>, roots: seq<nat>, seed: nat)
    requires seed < |sewn| && Labelled(sewn, tag, roots, seed) && tag[seed] != -1
    ensures Labelled(sewn, tag, roots, seed + 1)
  {
    hide Connected, Closed;
  }

  /** The shells of a sewn result, one per component; None when the sew left no face. */
  method SewIntoFreshShell(sewn: Sewn) returns (shells: Option<seq<seq<nat>>>, ghost tag: seq<int>)
    ensures shells.None? <==> |sewn| == 0
    ensures shells.Some? ==> Partition(sewn, tag, |shells.value|)
    ensures shells.Some? ==> forall c :: 0 <= c < |shells.value| ==> shells.value[c] == Members(tag, c, |tag|)
  {
    if |sewn| == 0 {
      return None, [];
    }
    var component, count := LabelFaces(sewn);
    tag := component;
    hide Connected;
    var r: seq<seq<nat>> := seq(count, _ => []);
    for i := 0 to |sewn|
      invariant |r| == count
      invariant forall c :: 0 <= c < count ==> r[c] == Members(tag, c, i)
    {
      r := r[component[i] := r[component[i]] + [i]];
    }
    return Some(r), tag;
  }

  /** The faces below n with one label, in order. */
  function Members(tag: seq<int>, c: int, n: nat): (r: seq<nat>)
    requires n <= |tag|
    ensures forall i: nat :: i in r <==> i < n && tag[i] == c
    ensures forall i, j :: 0 <= i < j < |r| ==> r[i] < r[j]
  {
    if n == 0 then []
    else
      var before := Members(tag, c, n - 1);
      assert forall i :: 0 <= i < |before| ==> before[i] in before;
      if tag[n - 1] == c then before + [n - 1] else before
  }

  ghost predicate OnePiece(sewn: Sewn) {
    forall a: nat, b: nat :: a < |sewn| && b < |sewn| ==> Connected(sewn, a, b)
  }

  /** A bare shell comes back exactly when the material is one connected piece. */
  lemma OneShellIffConnected(sewn: Sewn, tag: seq<int>, count: nat)
    requires |sewn| > 0 && Partition(sewn, tag, count)
    ensures count == 1 <==> OnePiece(sewn)
  {
    hide Connected;
    assert 0 <= tag[0] < count;
    if count > 1 {
      assert 0 in tag && 1 in tag;
      var a, b :| 0 <= a < |tag| && 0 <= b < |tag| && tag[a] == 0 && tag[b] == 1;
      assert !Connected(sewn, a, b);
    }
  }
}
