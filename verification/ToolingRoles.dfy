// Core, cavity and inserts: which split solid becomes which output body.
module ToolingRoles {

  /** A split solid with its probes: whether it is valid, its volume, its centroid along the pull. */
  datatype Solid = Solid(shape: nat, valid: bool, volume: real, projection: real)

  datatype Body = Body(bodyId: string, outputIndex: nat, shape: nat, volume: real)

  datatype Outcome = Born(bodies: seq<Body>) | WrongIds | WrongSolidCount | InvalidSolid | OneSided

  /** Solid i is the first of the largest on its side of the reference. */
  ghost predicate FirstLargest(solids: seq<Solid>, reference: real, cavity: bool, i: nat) {
    && i < |solids| && (solids[i].projection > reference) == cavity
    && (forall j :: 0 <= j < |solids| && (solids[j].projection > reference) == cavity ==>
      solids[j].volume <= solids[i].volume)
    && (forall j :: 0 <= j < i && (solids[j].projection > reference) == cavity ==> solids[j].volume < solids[i].volume)
  }

  lemma FirstLargestIsOne(solids: seq<Solid>, reference: real, cavity: bool, i: nat, j: nat)
    requires FirstLargest(solids, reference, cavity, i) && FirstLargest(solids, reference, cavity, j)
    ensures i == j
  {
  }

  ghost predicate SideEmpty(solids: seq<Solid>, reference: real, cavity: bool) {
    forall j :: 0 <= j < |solids| ==> (solids[j].projection > reference) != cavity
  }

  // ---------- Inserts: a stable sort by descending volume ----------

  /** i comes before j: larger, or as large and listed first. */
  predicate Before(solids: seq<Solid>, i: nat, j: nat)
    requires i < |solids| && j < |solids|
  {
    solids[i].volume > solids[j].volume || (solids[i].volume == solids[j].volume && i < j)
  }

  ghost predicate InsertOrder(solids: seq<Solid>, indices: seq<nat>) {
    && (forall k :: 0 <= k < |indices| ==> indices[k] < |solids|)
    && (forall k, l :: 0 <= k < l < |indices| ==> Before(solids, indices[k], indices[l]))
  }

  /** Puts a later index behind everything at least as large. */
  function Inserted(solids: seq<Solid>, sorted: seq<nat>, i: nat): seq<nat>
    requires i < |solids| && forall k :: 0 <= k < |sorted| ==> sorted[k] < |solids|
  {
    if sorted == [] || solids[sorted[|sorted| - 1]].volume >= solids[i].volume then sorted + [i]
    else Inserted(solids, sorted[..|sorted| - 1], i) + [sorted[|sorted| - 1]]
  }

  /** What holds of everything inserted so far holds before one more. */
  lemma OrderGrows(solids: seq<Solid>, order: seq<nat>, last: nat)
    requires InsertOrder(solids, order) && last < |solids|
      && forall x :: x in order ==> x < |solids| && Before(solids, x, last)
    ensures InsertOrder(solids, order + [last])
  {
    assert forall k :: 0 <= k < |order| ==> order[k] in order;
  }

  lemma OrderSplits(solids: seq<Solid>, sorted: seq<nat>)
    requires InsertOrder(solids, sorted) && sorted != []
    ensures var rest, last := sorted[..|sorted| - 1], sorted[|sorted| - 1];
      last < |solids| && InsertOrder(solids, rest) && forall x :: x in rest ==> x < |solids| && Before(solids, x, last)
  {
  }

  lemma {:induction false} InsertedCounts(solids: seq<Solid>, sorted: seq<nat>, i: nat)
    requires i < |solids| && forall k :: 0 <= k < |sorted| ==> sorted[k] < |solids|
    ensures multiset(Inserted(solids, sorted, i)) == multiset(sorted + [i])
  {
    if sorted != [] {
      var rest, last := sorted[..|sorted| - 1], sorted[|sorted| - 1];
      InsertedCounts(solids, rest, i);
      assert sorted == rest + [last];
    }
  }

  lemma {:induction false} InsertedKeepsOrder(solids: seq<Solid>, sorted: seq<nat>, i: nat)
    requires InsertOrder(solids, sorted) && i < |solids| && forall x :: x in sorted ==> x < i
    ensures InsertOrder(solids, Inserted(solids, sorted, i))
    ensures multiset(Inserted(solids, sorted, i)) == multiset(sorted + [i])
  {
    InsertedCounts(solids, sorted, i);
    if sorted != [] {
      var rest, last := sorted[..|sorted| - 1], sorted[|sorted| - 1];
      OrderSplits(solids, sorted);
      assert sorted == rest + [last];
      hide InsertOrder;
      assert last in sorted && forall x :: x in rest ==> x in sorted;
      if solids[last].volume < solids[i].volume {
        InsertedKeepsOrder(solids, rest, i);
        var r := Inserted(solids, rest, i);
        assert forall x :: x in r ==> x in multiset(rest + [i]);
        assert forall x :: x in r ==> x in rest + [i];
        OrderGrows(solids, r, last);
      } else {
        OrderGrows(solids, sorted, i);
      }
    } else {
      OrderGrows(solids, sorted, i);
    }
  }

  /** The stable sort, as the standard library specifies it, on indices listed ascending. */
  function StableSorted(solids: seq<Solid>, indices: seq<nat>): (r: seq<nat>)
    requires forall k :: 0 <= k < |indices| ==> indices[k] < |solids|
    ensures |r| == |indices| && forall k :: 0 <= k < |r| ==> r[k] < |solids|
    decreases |indices|
  {
    if indices == [] then []
    else
      var before := StableSorted(solids, indices[..|indices| - 1]);
      InsertedBounds(solids, before, indices[|indices| - 1]);
      Inserted(solids, before, indices[|indices| - 1])
  }

  lemma {:induction false} InsertedBounds(solids: seq<Solid>, sorted: seq<nat>, i: nat)
    requires i < |solids| && forall k :: 0 <= k < |sorted| ==> sorted[k] < |solids|
    ensures var r := Inserted(solids, sorted, i); |r| == |sorted| + 1 && forall k :: 0 <= k < |r| ==> r[k] < |solids|
  {
    if sorted != [] {
      InsertedBounds(solids, sorted[..|sorted| - 1], i);
    }
  }

  lemma {:induction false} StableSortedIs(solids: seq<Solid>, indices: seq<nat>)
    requires forall k :: 0 <= k < |indices| ==> indices[k] < |solids|
    requires forall k, l :: 0 <= k < l < |indices| ==> indices[k] < indices[l]
    ensures InsertOrder(solids, StableSorted(solids, indices))
    ensures multiset(StableSorted(solids, indices)) == multiset(indices)
    decreases |indices|
  {
    if indices != [] {
      var rest, last := indices[..|indices| - 1], indices[|indices| - 1];
      StableSortedIs(solids, rest);
      var r := StableSorted(solids, rest);
      assert indices == rest + [last];
      forall x | x in r ensures x < last {
        assert x in multiset(r);
        assert x in rest;
      }
      InsertedKeepsOrder(solids, r, last);
      assert multiset(r + [last]) == multiset(r) + multiset{last};
    }
  }

  /** Indices below n that are neither core nor cavity, ascending. */
  function InsertIndices(n: nat, core: nat, cavity: nat): (r: seq<nat>)
    ensures forall i: nat :: i in r <==> i < n && i != core && i != cavity
    ensures forall k :: 0 <= k < |r| ==> r[k] < n
    ensures forall k, l :: 0 <= k < l < |r| ==> r[k] < r[l]
  {
    if n == 0 then []
    else if n - 1 == core || n - 1 == cavity then InsertIndices(n - 1, core, cavity)
    else InsertIndices(n - 1, core, cavity) + [n - 1]
  }

  lemma {:induction false} EveryIndexOnce(n: nat, core: nat, cavity: nat)
    requires core != cavity && core < n && cavity < n
    ensures multiset([core, cavity] + InsertIndices(n, core, cavity)) == multiset(UpTo(n))
    ensures |InsertIndices(n, core, cavity)| == n - 2
  {
    CountIndices(n, core, cavity);
    var inserts, all := InsertIndices(n, core, cavity), UpTo(n);
    hide InsertIndices, UpTo;
    assert multiset([core, cavity] + inserts) == multiset{core, cavity} + multiset(inserts);
    forall x ensures multiset([core, cavity] + inserts)[x] == multiset(all)[x] {
      AscendingOnce(inserts, x);
      AscendingOnce(all, x);
    }
  }

  lemma {:induction false} CountIndices(n: nat, core: nat, cavity: nat)
    requires core != cavity
    ensures |InsertIndices(n, core, cavity)| == n - (if core < n then 1 else 0) - (if cavity < n then 1 else 0)
  {
    if n > 0 {
      CountIndices(n - 1, core, cavity);
    }
  }

  lemma {:induction false} AscendingOnce(s: seq<nat>, x: nat)
    requires forall k, l :: 0 <= k < l < |s| ==> s[k] < s[l]
    ensures multiset(s)[x] == if x in s then 1 else 0
  {
    if s != [] {
      var n := |s| - 1;
      AscendingOnce(s[..n], x);
      assert s == s[..n] + [s[n]];
    }
  }

  function UpTo(n: nat): (r: seq<nat>)
    ensures |r| == n && forall i :: 0 <= i < n ==> r[i] == i
    ensures forall i: nat :: i in r <==> i < n
  {
    if n == 0 then [] else UpTo(n - 1) + [n - 1]
  }

  // ---------- Birth ----------

  /** Body k is solid order[k], under the k-th output id and index. */
  ghost predicate BornInOrder(solids: seq<Solid>, ids: seq<string>, order: seq<nat>, bodies: seq<Body>) {
    && |bodies| == |order| <= |ids|
    && (forall k :: 0 <= k < |order| ==> order[k] < |solids|)
    && (forall k :: 0 <= k < |order| ==> bodies[k] == Body(ids[k], k, solids[order[k]].shape, solids[order[k]].volume))
  }

  /** Core, cavity, then inserts in their order: every solid exactly once. */
  ghost predicate RoleOrder(solids: seq<Solid>, reference: real, order: seq<nat>) {
    && multiset(order) == multiset(UpTo(|solids|)) && |order| == |solids| >= 2
    && FirstLargest(solids, reference, false, order[0]) && FirstLargest(solids, reference, true, order[1])
    && InsertOrder(solids, order[2..])
  }

  method ChooseSides(solids: seq<Solid>, reference: real) returns (core: nat, cavity: nat)
    ensures core <= |solids| && cavity <= |solids|
    ensures if core == |solids| then SideEmpty(solids, reference, false)
      else FirstLargest(solids, reference, false, core)
    ensures if cavity == |solids| then SideEmpty(solids, reference, true)
      else FirstLargest(solids, reference, true, cavity)
  {
    core, cavity := |solids|, |solids|;
    for index := 0 to |solids|
      invariant if core == |solids| then SideEmpty(solids[..index], reference, false)
        else FirstLargest(solids[..index], reference, false, core)
      invariant if cavity == |solids| then SideEmpty(solids[..index], reference, true)
        else FirstLargest(solids[..index], reference, true, cavity)
    {
      assert solids[..index + 1] == solids[..index] + [solids[index]];
      var chosen := if solids[index].projection > reference then cavity else core;
      if chosen == |solids| || solids[index].volume > solids[chosen].volume {
        if solids[index].projection > reference {
          cavity := index;
        } else {
          core := index;
        }
      }
    }
    assert solids[..|solids|] == solids;
  }

  method EvaluateSplit(solids: seq<Solid>, reference: real, ids: seq<string>) returns (r: Outcome)
    ensures r.WrongIds? <==> !(2 <= |ids| <= 64)
    ensures r.WrongSolidCount? <==> 2 <= |ids| <= 64 && |solids| != |ids|
    ensures r.InvalidSolid?
      <==> 2 <= |ids| <= 64 && |solids| == |ids| && exists i :: 0 <= i < |solids| && !solids[i].valid
    ensures r.OneSided? ==> SideEmpty(solids, reference, false) || SideEmpty(solids, reference, true)
    ensures r.Born? ==> exists order :: RoleOrder(solids, reference, order) && BornInOrder(solids, ids, order, r.bodies)
    ensures r.Born? ==> |r.bodies| >= 2
    ensures r.Born? ==> exists s :: s in solids && s.projection <= reference && s.shape == r.bodies[0].shape
    ensures r.Born? ==> exists s :: s in solids && s.projection > reference && s.shape == r.bodies[1].shape
  {
    if |ids| < 2 || |ids| > 64 {
      return WrongIds;
    }
    if |solids| != |ids| {
      return WrongSolidCount;
    }
    for i := 0 to |solids|
      invariant forall j :: 0 <= j < i ==> solids[j].valid
    {
      if !solids[i].valid {
        return InvalidSolid;
      }
    }
    var core, cavity := ChooseSides(solids, reference);
    if core == |solids| || cavity == |solids| {
      return OneSided;
    }
    var inserts := StableSorted(solids, InsertIndices(|solids|, core, cavity));
    RolesAssigned(solids, reference, core, cavity);
    hide RoleOrder, FirstLargest, StableSorted, InsertIndices;
    var bodies := MakeBodies(solids, ids, core, cavity, inserts);
    return Born(bodies);
  }

  method MakeBodies(solids: seq<Solid>, ids: seq<string>, core: nat, cavity: nat, inserts: seq<nat>)
    returns (born: seq<Body>)
    requires |ids| == 2 + |inserts| && core < |solids| && cavity < |solids|
      && forall k :: 0 <= k < |inserts| ==> inserts[k] < |solids|
    ensures BornInOrder(solids, ids, [core, cavity] + inserts, born)
  {
    ghost var order := [core, cavity] + inserts;
    born := [Body(ids[0], 0, solids[core].shape, solids[core].volume)];
    born := born + [Body(ids[1], |born|, solids[cavity].shape, solids[cavity].volume)];
    for k := 0 to |inserts|
      invariant |born| == 2 + k
      invariant BornInOrder(solids, ids, order[..2 + k], born)
    {
      var i := inserts[k];
      assert order[..2 + k + 1] == order[..2 + k] + [i];
      born := born + [Body(ids[2 + k], |born|, solids[i].shape, solids[i].volume)];
    }
    assert order[..|order|] == order;
  }

  lemma RolesAssigned(solids: seq<Solid>, reference: real, core: nat, cavity: nat)
    requires FirstLargest(solids, reference, false, core) && FirstLargest(solids, reference, true, cavity)
    ensures RoleOrder(solids, reference, [core, cavity] + StableSorted(solids, InsertIndices(|solids|, core, cavity)))
  {
    var indices := InsertIndices(|solids|, core, cavity);
    var sorted := StableSorted(solids, indices);
    StableSortedIs(solids, indices);
    EveryIndexOnce(|solids|, core, cavity);
    var order := [core, cavity] + sorted;
    assert multiset(order) == multiset([core, cavity]) + multiset(sorted);
    assert multiset([core, cavity] + indices) == multiset([core, cavity]) + multiset(indices);
    assert order[2..] == sorted;
  }

  lemma SameRest(a: seq<nat>, b: seq<nat>)
    requires |a| == |b| >= 2 && a[0] == b[0] && a[1] == b[1] && multiset(a) == multiset(b)
    ensures multiset(a[2..]) == multiset(b[2..])
  {
    OffTheFront(a);
    OffTheFront(b);
  }

  lemma OffTheFront(a: seq<nat>)
    requires |a| >= 2
    ensures multiset(a[2..]) == multiset(a) - multiset([a[0], a[1]])
  {
    assert a == [a[0], a[1]] + a[2..];
  }

  /** The roles leave no choice: two valid orders are the same order. */
  lemma RolesAreForced(solids: seq<Solid>, reference: real, a: seq<nat>, b: seq<nat>)
    requires RoleOrder(solids, reference, a) && RoleOrder(solids, reference, b)
    ensures a == b
  {
    FirstLargestIsOne(solids, reference, false, a[0], b[0]);
    FirstLargestIsOne(solids, reference, true, a[1], b[1]);
    hide FirstLargest, InsertOrder;
    SameRest(a, b);
    SameInserts(solids, a[2..], b[2..]);
    assert a == [a[0], a[1]] + a[2..] && b == [b[0], b[1]] + b[2..];
  }

  lemma SameFirst(solids: seq<Solid>, a: seq<nat>, b: seq<nat>)
    requires InsertOrder(solids, a) && InsertOrder(solids, b) && multiset(a) == multiset(b) && a != [] && b != []
    ensures a[0] == b[0]
  {
    assert a[0] in multiset(b) && b[0] in multiset(a);
    var k :| 0 <= k < |b| && b[k] == a[0];
    var l :| 0 <= l < |a| && a[l] == b[0];
    assert k > 0 ==> Before(solids, b[0], b[k]);
    assert l > 0 ==> Before(solids, a[0], a[l]);
  }

  lemma OrderShrinks(solids: seq<Solid>, a: seq<nat>)
    requires InsertOrder(solids, a) && a != []
    ensures InsertOrder(solids, a[1..])
  {
  }

  /** A strict order of the same indices is one sequence. */
  lemma {:induction false} SameInserts(solids: seq<Solid>, a: seq<nat>, b: seq<nat>)
    requires InsertOrder(solids, a) && InsertOrder(solids, b) && multiset(a) == multiset(b)
    ensures a == b
    decreases |a|
  {
    assert |a| == |multiset(a)| == |multiset(b)| == |b|;
    if a != [] {
      SameFirst(solids, a, b);
      OrderShrinks(solids, a);
      OrderShrinks(solids, b);
      hide InsertOrder;
      assert a == [a[0]] + a[1..] && b == [b[0]] + b[1..];
      assert multiset(a[1..]) == multiset(a) - multiset{a[0]} == multiset(b[1..]);
      SameInserts(solids, a[1..], b[1..]);
    }
  }
}
