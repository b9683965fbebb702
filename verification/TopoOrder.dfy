// Ordering a module's definitions after everything they refer to: depth-first, or a
// reported cycle.
module TopoOrder {
  datatype Definition = Definition(name: string, words: set<string>)

  /** The index a name stands for: its last definition. */
  function IndexOf(defs: seq<Definition>, n: nat, name: string): (r: int)
    requires n <= |defs|
    ensures r == -1 ==> forall i :: 0 <= i < n ==> defs[i].name != name
    ensures r != -1 ==> 0 <= r < n && defs[r].name == name && forall i :: r < i < n ==> defs[i].name != name
  {
    if n == 0 then -1 else if defs[n - 1].name == name then n - 1 else IndexOf(defs, n - 1, name)
  }

  /** Definition i refers to definition j: one of its words, not its own name, stands for j. */
  predicate Refers(defs: seq<Definition>, i: nat, j: nat) {
    i < |defs| && j < |defs| && defs[j].name in defs[i].words && defs[j].name != defs[i].name
    && IndexOf(defs, |defs|, defs[j].name) == j
  }

  /** The references of definition i below n, ascending. */
  function DepsBelow(defs: seq<Definition>, i: nat, n: nat): (r: seq<nat>)
    requires n <= |defs|
    ensures forall j: nat :: j in r <==> j < n && Refers(defs, i, j)
  {
    if n == 0 then [] else if Refers(defs, i, n - 1) then DepsBelow(defs, i, n - 1) + [n - 1]
      else DepsBelow(defs, i, n - 1)
  }

  function DepsOf(defs: seq<Definition>, i: nat): (r: seq<nat>)
    ensures forall j: nat :: j in r <==> Refers(defs, i, j)
  {
    DepsBelow(defs, i, |defs|)
  }

  // ---------- Chains of references ----------

  ghost predicate Chain(defs: seq<Definition>, p: seq<nat>) {
    |p| >= 2 && forall k :: 0 <= k < |p| - 1 ==> Refers(defs, p[k], p[k + 1])
  }

  ghost predicate Reaches(defs: seq<Definition>, a: nat, b: nat) {
    exists p :: Chain(defs, p) && p[0] == a && p[|p| - 1] == b
  }

  ghost predicate Cyclic(defs: seq<Definition>) {
    exists i :: Reaches(defs, i, i)
  }

  lemma ReachesOne(defs: seq<Definition>, a: nat, b: nat)
    requires Refers(defs, a, b)
    ensures Reaches(defs, a, b)
  {
    assert Chain(defs, [a, b]);
  }

  lemma ReachesFurther(defs: seq<Definition>, a: nat, b: nat, c: nat)
    requires Reaches(defs, a, b) && Refers(defs, b, c)
    ensures Reaches(defs, a, c)
  {
    var p :| Chain(defs, p) && p[0] == a && p[|p| - 1] == b;
    assert Chain(defs, p + [c]);
  }

  // ---------- The order ----------

  /** Every definition in the order comes once, after everything it refers to. */
  ghost predicate Sound(defs: seq<Definition>, order: seq<nat>) {
    && (forall k :: 0 <= k < |order| ==> order[k] < |defs|)
    && (forall k, l :: 0 <= k < l < |order| ==> order[k] != order[l])
    && (forall k, j :: 0 <= k < |order| && Refers(defs, order[k], j) ==> j in order[..k])
  }

  /** Along a chain, positions in a sound order fall. */
  lemma {:induction false} ChainsFall(defs: seq<Definition>, order: seq<nat>, p: seq<nat>, k: nat)
    requires Sound(defs, order) && Chain(defs, p) && k < |order| && order[k] == p[0]
    ensures p[|p| - 1] in order[..k]
    decreases |p|
  {
    assert Refers(defs, p[0], p[1]);
    var l :| 0 <= l < k && order[l] == p[1];
    if |p| > 2 {
      assert forall m :: 0 <= m < |p| - 2 ==> Refers(defs, p[1..][m], p[1..][m + 1]);
      ChainsFall(defs, order, p[1..], l);
      assert order[..l] <= order[..k];
    }
  }

  /** A sound order of every definition leaves no room for a cycle. */
  lemma SoundExcludesCycles(defs: seq<Definition>, order: seq<nat>)
    requires Sound(defs, order) && forall i :: 0 <= i < |defs| ==> i in order
    ensures !Cyclic(defs)
  {
    forall i ensures !Reaches(defs, i, i) {
      if Reaches(defs, i, i) {
        var p :| Chain(defs, p) && p[0] == i && p[|p| - 1] == i;
        assert Refers(defs, p[0], p[1]);
        assert i in order;
        var k :| 0 <= k < |order| && order[k] == i;
        ChainsFall(defs, order, p, k);
        assert false;
      }
    }
  }

  /** A module is in order already: what a definition calls, by another name than its own, is
      defined above. Whether it calls itself does not matter. */
  ghost predicate InOrder(defs: seq<Definition>) {
    forall i, j :: 0 <= i < |defs| && 0 <= j < |defs| && defs[j].name in defs[i].words && defs[j].name != defs[i].name
      ==> j < i
  }

  lemma InOrderRefersBack(defs: seq<Definition>, i: nat, j: nat)
    requires InOrder(defs) && Refers(defs, i, j)
    ensures j < i
  {
  }

  lemma {:induction false} ChainsDescend(defs: seq<Definition>, p: seq<nat>)
    requires InOrder(defs) && Chain(defs, p)
    ensures p[|p| - 1] < p[0]
    decreases |p|
  {
    hide InOrder, Refers;
    assert Refers(defs, p[0], p[1]);
    InOrderRefersBack(defs, p[0], p[1]);
    if |p| > 2 {
      assert forall m :: 0 <= m < |p| - 2 ==> Refers(defs, p[1..][m], p[1..][m + 1]);
      ChainsDescend(defs, p[1..]);
    }
  }

  /** A module in order is never reported, however many of its definitions call themselves. */
  lemma InOrderIsAcyclic(defs: seq<Definition>)
    requires InOrder(defs)
    ensures !Cyclic(defs)
  {
    hide InOrder, Refers;
    forall i ensures !Reaches(defs, i, i) {
      if p :| Chain(defs, p) && p[0] == i && p[|p| - 1] == i {
        ChainsDescend(defs, p);
      }
    }
  }

  /** What reaches i reaches all that i refers to, and so does i. */
  lemma AllReach(defs: seq<Definition>, open: set<nat>, i: nat, j: nat)
    requires Refers(defs, i, j) && forall o :: o in open ==> Reaches(defs, o, i)
    ensures forall o :: o in open + {i} ==> Reaches(defs, o, j)
  {
    hide Reaches;
    forall o | o in open + {i} ensures Reaches(defs, o, j) {
      if o == i {
        ReachesOne(defs, i, j);
      } else {
        ReachesFurther(defs, o, i, j);
      }
    }
  }

  lemma OneMorePlaced(deps: seq<nat>, k: nat, before: seq<nat>, order: seq<nat>)
    requires k < |deps| && (forall j :: j in deps[..k] ==> j in before) && before <= order && deps[k] in order
    ensures forall j :: j in deps[..k + 1] ==> j in order
  {
    assert deps[..k + 1] == deps[..k] + [deps[k]];
  }

  class Sorter {
    const defs: seq<Definition>
    var state: map<nat, nat>   // 1 while open, 2 when placed
    var order: seq<nat>

    ghost predicate Valid()
      reads this
    {
      && Sound(defs, order)
      && (forall i :: i in state ==> i < |defs| && state[i] in {1, 2})
      && (forall i :: i in order <==> i in state && state[i] == 2)
    }

    ghost function Open(): set<nat>
      reads this
    {
      set i | i in state && state[i] == 1
    }

    ghost function Unvisited(): set<nat>
      reads this
    {
      set i: nat | i < |defs| && i !in state
    }

    constructor (defs: seq<Definition>)
      ensures this.defs == defs && state == map[] && order == [] && Valid()
    {
      this.defs, state, order := defs, map[], [];
    }

    /** Places i and everything it refers to, or reports that the references are cyclic. */
    method Visit(i: nat) returns (finished: bool)
      requires Valid() && i < |defs|
      requires forall o :: o in Open() ==> Reaches(defs, o, i)
      modifies this
      ensures !finished ==> Cyclic(defs)
      ensures finished ==> Valid() && i in order && Open() == old(Open()) && old(order) <= order
      ensures finished ==> Unvisited() <= old(Unvisited())
      decreases Unvisited()
    {
      hide Reaches, Sound, Refers;
      if i in state && state[i] == 2 {
        return true;
      }
      if i in state && state[i] == 1 {
        assert i in Open() && Reaches(defs, i, i);
        return false;
      }
      ghost var open := Open();
      ghost var unvisited := Unvisited();
      state := state[i := 1];
      assert Open() == open + {i} && Unvisited() == unvisited - {i};
      var deps := DepsOf(defs, i);
      for k := 0 to |deps|
        invariant Valid() && Open() == open + {i} && old(order) <= order
        invariant Unvisited() <= unvisited - {i}
        invariant forall j :: j in deps[..k] ==> j in order
      {
        var j := deps[k];
        assert j in deps && Refers(defs, i, j);
        AllReach(defs, open, i, j);
        ghost var before := order;
        var placed := Visit(j);
        if !placed {
          return false;
        }
        OneMorePlaced(deps, k, before, order);
      }
      assert deps[..|deps|] == deps;
      assert i in Open();
      Place(i, open);
      return true;
    }

    /** Closes an open definition whose references are all placed. */
    method Place(i: nat, ghost open: set<nat>)
      requires Valid() && i in state && state[i] == 1 && i !in open && Open() == open + {i}
      requires forall j :: Refers(defs, i, j) ==> j in order
      modifies this
      ensures Valid() && order == old(order) + [i] && Open() == open && Unvisited() == old(Unvisited())
    {
      ghost var before := order;
      state := state[i := 2];
      order := order + [i];
      assert order[..|before|] == before;
      assert forall k :: 0 <= k < |before| ==> order[..k] == before[..k];
    }

    /** Every definition in turn. */
    method Sort() returns (finished: bool)
      requires state == map[] && order == []
      modifies this
      ensures finished <==> !Cyclic(defs)
      ensures finished ==> Sound(defs, order) && |order| == |defs| && multiset(order) == multiset(seq(|defs|, i => i))
    {
      for i := 0 to |defs|
        invariant Valid() && Open() == {}
        invariant forall j :: 0 <= j < i ==> j in order
      {
        ghost var before := order;
        var placed := Visit(i);
        if !placed {
          return false;
        }
        assert forall j :: j in before ==> j in order;
      }
      SoundExcludesCycles(defs, order);
      Permutes(defs, order);
      return true;
    }
  }

  lemma Permutes(defs: seq<Definition>, order: seq<nat>)
    requires Sound(defs, order) && forall i :: 0 <= i < |defs| ==> i in order
    ensures |order| == |defs| && multiset(order) == multiset(seq(|defs|, i => i))
  {
    var all := seq(|defs|, i => i);
    forall i ensures multiset(order)[i] == multiset(all)[i] {
      OnceIn(order, i);
      OnceIn(all, i);
      assert i in all <==> 0 <= i < |defs| by { if 0 <= i < |defs| { assert all[i] == i; } }
    }
    assert multiset(order) == multiset(all);
    assert |multiset(order)| == |order| && |multiset(all)| == |all|;
  }

  lemma {:induction false} OnceIn(s: seq<int>, x: int)
    requires forall k, l :: 0 <= k < l < |s| ==> s[k] != s[l]
    ensures multiset(s)[x] == if x in s then 1 else 0
  {
    if s != [] {
      var n := |s| - 1;
      assert s == s[..n] + [s[n]];
      OnceIn(s[..n], x);
    }
  }
}
