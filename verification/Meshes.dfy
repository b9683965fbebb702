// Triangle soups over a vertex list: directed edges, lookups, signed volume.
module Meshes {
  import opened Outcomes

  datatype Point = Point(x: real, y: real, z: real)

  type Index = int
  type Directed = (Index, Index)
  type Triangle = (Index, Index, Index)

  // ---------- Directed edges ----------

  function EdgesOf(f: Triangle): seq<Directed> {
    [(f.0, f.1), (f.1, f.2), (f.2, f.0)]
  }

  function AllEdges(fs: seq<Triangle>): (r: seq<Directed>)
    ensures |r| == 3 * |fs|
  {
    if fs == [] then [] else AllEdges(fs[..|fs| - 1]) + EdgesOf(fs[|fs| - 1])
  }

  function Reverse(e: Directed): Directed { (e.1, e.0) }

  function Count(fs: seq<Triangle>, e: Directed): nat { multiset(AllEdges(fs))[e] }

  /** Every directed edge that occurs does so once, and so does its reverse. */
  ghost predicate Watertight(fs: seq<Triangle>) {
    forall e :: Count(fs, e) > 0 ==> Count(fs, e) == 1 && Count(fs, Reverse(e)) == 1
  }

  function EdgeSet(fs: seq<Triangle>): set<Directed> {
    set e | e in AllEdges(fs)
  }

  function Undirected(e: Directed): Directed { if e.0 <= e.1 then e else Reverse(e) }

  function UndirectedSet(es: set<Directed>): set<Directed> {
    set e | e in es :: Undirected(e)
  }

  function UsedIndices(fs: seq<Triangle>): set<Index> {
    if fs == [] then {} else var f := fs[|fs| - 1]; UsedIndices(fs[..|fs| - 1]) + {f.0, f.1, f.2}
  }

  lemma {:induction false} UsedAre(fs: seq<Triangle>, i: Index)
    ensures i in UsedIndices(fs) <==> exists f :: f in fs && (i == f.0 || i == f.1 || i == f.2)
  {
    if fs != [] {
      UsedAre(fs[..|fs| - 1], i);
      assert fs == fs[..|fs| - 1] + [fs[|fs| - 1]];
    }
  }

  // ---------- Signed volume ----------

  /** List lookup as the source language does it: negative indices count from the end. */
  function Lookup(vs: seq<Point>, i: Index): Option<Point> {
    if 0 <= i < |vs| then Some(vs[i])
    else if -|vs| <= i < 0 then Some(vs[|vs| + i])
    else None
  }

  lemma LookupIs(vs: seq<Point>, i: Index)
    ensures Lookup(vs, i).Some? <==> -|vs| <= i < |vs|
    ensures Lookup(vs, i).Some? ==> Lookup(vs, i).value == vs[i % |vs|]
  {
    if -|vs| <= i < |vs| {
      Wrapped(i, |vs|);
    }
  }

  lemma Wrapped(i: int, n: int)
    requires -n <= i < n
    ensures i % n == if i < 0 then i + n else i
  {
    var q := i / n;
    assert i == n * q + i % n;
    assert (q >= 1 ==> n * q >= n) && (q <= -2 ==> n * q <= -2 * n);
  }

  predicate InRange(vs: seq<Point>, fs: seq<Triangle>) {
    forall f :: f in fs ==> Lookup(vs, f.0).Some? && Lookup(vs, f.1).Some? && Lookup(vs, f.2).Some?
  }

  function Triple(p: Point, q: Point, r: Point): real {
    p.x * (q.y * r.z - q.z * r.y) - p.y * (q.x * r.z - q.z * r.x) + p.z * (q.x * r.y - q.y * r.x)
  }

  function Corner(vs: seq<Point>, i: Index): Point
    requires Lookup(vs, i).Some?
  {
    Lookup(vs, i).value
  }

  function Volume(vs: seq<Point>, fs: seq<Triangle>): real
    requires InRange(vs, fs)
  {
    if fs == [] then 0.0
    else
      var f := fs[|fs| - 1];
      assert forall g :: g in fs[..|fs| - 1] ==> g in fs;
      Volume(vs, fs[..|fs| - 1]) + Triple(Corner(vs, f.0), Corner(vs, f.1), Corner(vs, f.2)) / 6.0
  }
}
