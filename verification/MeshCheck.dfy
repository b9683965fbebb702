// The mesh check: directed-edge counts, signed volume and Euler characteristic of a
// triangle soup, and what "watertight" buys.
module MeshCheck {
  import opened Counting
  import opened Outcomes
  import opened Meshes
  import opened MeshVolume

  datatype Report = Report(triangles: nat, watertight: bool, badDirected: nat, unmatched: nat, volume: real, euler: int)

  // ---------- The check ----------

  ghost predicate Tallies(directed: map<Directed, nat>, es: seq<Directed>) {
    forall e :: (e in directed <==> e in es) && (e in directed ==> directed[e] == multiset(es)[e])
  }

  lemma TallyOne(directed: map<Directed, nat>, es: seq<Directed>, e: Directed)
    requires Tallies(directed, es)
    ensures Tallies(directed[e := (if e in directed then directed[e] else 0) + 1], es + [e])
  {
    assert e in es <==> multiset(es)[e] > 0;
  }

  method CountTriangle(directed: map<Directed, nat>, f: Triangle, ghost before: seq<Directed>)
    returns (r: map<Directed, nat>)
    requires Tallies(directed, before)
    ensures Tallies(r, before + EdgesOf(f))
  {
    hide Tallies;
    r := directed;
    var edges := EdgesOf(f);
    assert before + edges[..0] == before;
    for j := 0 to |edges|
      invariant Tallies(r, before + edges[..j])
    {
      TallyOne(r, before + edges[..j], edges[j]);
      assert before + edges[..j + 1] == before + edges[..j] + [edges[j]];
      r := r[edges[j] := (if edges[j] in r then r[edges[j]] else 0) + 1];
    }
    assert edges[..|edges|] == edges;
  }

  /** Occurrences of each directed edge. */
  method CountDirected(fs: seq<Triangle>) returns (directed: map<Directed, nat>)
    ensures Tallies(directed, AllEdges(fs))
  {
    directed := map[];
    assert Tallies(directed, []);
    hide Tallies, EdgesOf;
    for i := 0 to |fs|
      invariant Tallies(directed, AllEdges(fs[..i]))
    {
      directed := CountTriangle(directed, fs[i], AllEdges(fs[..i]));
      assert fs[..i + 1][..i] == fs[..i];
    }
    assert fs[..|fs|] == fs;
  }

  ghost function Bad(fs: seq<Triangle>): set<Directed> {
    set e | e in EdgeSet(fs) && Count(fs, e) != 1
  }

  ghost function Unmatched(fs: seq<Triangle>): set<Directed> {
    set e | e in EdgeSet(fs) && Reverse(e) !in EdgeSet(fs)
  }

  /** Volume and used indices, triangle by triangle; None where a lookup falls outside the vertex list. */
  method Measure(vs: seq<Point>, fs: seq<Triangle>) returns (r: Option<(real, set<Index>)>)
    ensures r.Some? <==> InRange(vs, fs)
    ensures r.Some? ==> r.value == (Volume(vs, fs), UsedIndices(fs))
  {
    var volume := 0.0;
    var used: set<Index> := {};
    for i := 0 to |fs|
      invariant InRange(vs, fs[..i]) && volume == Volume(vs, fs[..i])
      invariant used == UsedIndices(fs[..i])
    {
      var f := fs[i];
      assert fs[..i + 1] == fs[..i] + [f] && fs[..i + 1][..i] == fs[..i];
      var p, q, s := Lookup(vs, f.0), Lookup(vs, f.1), Lookup(vs, f.2);
      if p.None? || q.None? || s.None? {
        assert f in fs;
        return None;
      }
      volume := volume + Triple(p.value, q.value, s.value) / 6.0;
      used := used + {f.0, f.1, f.2};
    }
    assert fs[..|fs|] == fs;
    return Some((volume, used));
  }

  method Check(vs: seq<Point>, fs: seq<Triangle>) returns (r: Option<Report>)
    ensures r.Some? <==> InRange(vs, fs)
    ensures r.Some? <==> forall f :: f in fs ==>
              -|vs| <= f.0 < |vs| && -|vs| <= f.1 < |vs| && -|vs| <= f.2 < |vs|
    ensures r.Some? ==> (r.value.watertight <==> Watertight(fs)) && r.value.triangles == |fs|
    ensures r.Some? ==> r.value.badDirected == |Bad(fs)| && r.value.unmatched == |Unmatched(fs)|
    ensures r.Some? ==> r.value.volume == Volume(vs, fs)
    ensures forall ts, walls :: r.Some? && AllInRange(vs, ts) && InRange(vs, walls) && Fill(fs, ts, walls) ==>
      r.value.volume == Contents(vs, ts)
    ensures forall t :: r.Some? && CornersInRange(vs, t) && fs == FacesOf(t) ==>
      r.value.volume == Content(Corner(vs, t.0), Corner(vs, t.1), Corner(vs, t.2), Corner(vs, t.3))
    ensures forall a, b :: r.Some? && vs == BoxCorners(a, b) && fs == BoxFaces() ==>
      r.value.volume == (b.x - a.x) * (b.y - a.y) * (b.z - a.z)
    ensures r.Some? ==> r.value.euler == |UsedIndices(fs)| - |UndirectedSet(EdgeSet(fs))| + |fs|
  {
    hide Volume, UsedIndices, InRange, AllEdges, Watertight, Contents, Content, Fill, CornersInRange, AllInRange,
      BoxCorners, BoxFaces, FacesOf;
    InRangeIs(vs, fs);
    var directed := CountDirected(fs);
    var bad := set e | e in directed && directed[e] != 1;
    var unmatched := set e | e in directed && Reverse(e) !in directed;
    assert directed.Keys == EdgeSet(fs) && bad == Bad(fs) && unmatched == Unmatched(fs);
    var measured := Measure(vs, fs);
    if measured.None? {
      return None;
    }
    WatertightIff(fs);
    VolumeMeans(vs, fs);
    return Some(Report(|fs|, |bad| == 0 && |unmatched| == 0, |bad|, |unmatched|, measured.value.0,
                       |measured.value.1| - |UndirectedSet(directed.Keys)| + |fs|));
  }

  /** The volume of whatever tetrahedra fill, of one tetrahedron, of a box. */
  lemma VolumeMeans(vs: seq<Point>, fs: seq<Triangle>)
    requires InRange(vs, fs)
    ensures forall ts, walls :: AllInRange(vs, ts) && InRange(vs, walls) && Fill(fs, ts, walls) ==>
      Volume(vs, fs) == Contents(vs, ts)
    ensures forall t :: CornersInRange(vs, t) && fs == FacesOf(t) ==>
      Volume(vs, fs) == Content(Corner(vs, t.0), Corner(vs, t.1), Corner(vs, t.2), Corner(vs, t.3))
    ensures forall a, b :: vs == BoxCorners(a, b) && fs == BoxFaces() ==>
      Volume(vs, fs) == (b.x - a.x) * (b.y - a.y) * (b.z - a.z)
  {
    hide Volume, InRange, Contents, Content, Fill, CornersInRange, AllInRange, BoxCorners, BoxFaces, FacesOf;
    forall ts, walls | AllInRange(vs, ts) && InRange(vs, walls) && Fill(fs, ts, walls)
      ensures Volume(vs, fs) == Contents(vs, ts)
    {
      FilledVolume(vs, fs, ts, walls);
    }
    forall t | CornersInRange(vs, t) && fs == FacesOf(t) ensures Volume(vs, fs) == ContentOf(vs, t) {
      TetrahedronVolume(vs, t);
    }
    forall a, b | vs == BoxCorners(a, b) && fs == BoxFaces()
      ensures Volume(vs, fs) == (b.x - a.x) * (b.y - a.y) * (b.z - a.z)
    {
      BoxVolume(a, b);
    }
  }

  lemma InRangeIs(vs: seq<Point>, fs: seq<Triangle>)
    ensures InRange(vs, fs)
       <==> forall f :: f in fs ==> -|vs| <= f.0 < |vs| && -|vs| <= f.1 < |vs| && -|vs| <= f.2 < |vs|
  {
    hide Lookup;
    forall i ensures Lookup(vs, i).Some? <==> -|vs| <= i < |vs| {
      LookupIs(vs, i);
    }
  }

  lemma WatertightIff(fs: seq<Triangle>)
    ensures Watertight(fs) <==> |Bad(fs)| == 0 && |Unmatched(fs)| == 0
  {
    forall e ensures e in EdgeSet(fs) <==> Count(fs, e) > 0 {
    }
    if Watertight(fs) {
      assert Bad(fs) == {} && Unmatched(fs) == {};
    }
    if |Bad(fs)| == 0 && |Unmatched(fs)| == 0 {
      forall e | Count(fs, e) > 0 ensures Count(fs, e) == 1 && Count(fs, Reverse(e)) == 1 {
        assert e !in Bad(fs) && e !in Unmatched(fs);
        assert Reverse(e) !in Bad(fs);
      }
    }
  }

  // ---------- Antisymmetric sums over directed edges cancel ----------

  ghost function Sum(g: Directed -> real, es: seq<Directed>): real {
    if es == [] then 0.0 else Sum(g, es[..|es| - 1]) + g(es[|es| - 1])
  }

  lemma {:induction false} SumAppend(g: Directed -> real, a: seq<Directed>, b: seq<Directed>)
    ensures Sum(g, a + b) == Sum(g, a) + Sum(g, b)
  {
    if b == [] {
      assert a + b == a;
    } else {
      SumAppend(g, a, b[..|b| - 1]);
      assert (a + b)[..|a + b| - 1] == a + b[..|b| - 1];
    }
  }

  lemma SumWithout(g: Directed -> real, left: seq<Directed>, e: Directed, right: seq<Directed>)
    ensures Sum(g, left + [e] + right) == Sum(g, left + right) + g(e)
  {
    SumAppend(g, left + [e], right);
    SumAppend(g, left, right);
    assert (left + [e])[..|left|] == left;
  }

  lemma {:induction false} SumOrderFree(g: Directed -> real, a: seq<Directed>, b: seq<Directed>)
    requires multiset(a) == multiset(b)
    ensures Sum(g, a) == Sum(g, b)
    decreases |a|
  {
    NothingCounts(a, b);
    if a != [] {
      var n := |a| - 1;
      var k := MatchedLast(a, b);
      SumOrderFree(g, a[..n], b[..k] + b[k + 1..]);
      assert b == b[..k] + [b[k]] + b[k + 1..];
      SumWithout(g, b[..k], b[k], b[k + 1..]);
    }
  }

  function Reversed(es: seq<Directed>): (r: seq<Directed>)
    ensures |r| == |es|
  {
    if es == [] then [] else Reversed(es[..|es| - 1]) + [Reverse(es[|es| - 1])]
  }

  lemma {:induction false} ReversedCounts(es: seq<Directed>, e: Directed)
    ensures multiset(Reversed(es))[e] == multiset(es)[Reverse(e)]
  {
    if es != [] {
      var n := |es| - 1;
      ReversedCounts(es[..n], e);
      assert es == es[..n] + [es[n]];
      assert Reverse(Reverse(e)) == e && Reverse(Reverse(es[n])) == es[n];
    }
  }

  ghost predicate Antisymmetric(g: Directed -> real) {
    forall e :: g(Reverse(e)) == -g(e)
  }

  lemma {:induction false} SumReversed(g: Directed -> real, es: seq<Directed>)
    requires Antisymmetric(g)
    ensures Sum(g, Reversed(es)) == -Sum(g, es)
  {
    if es != [] {
      var n := |es| - 1;
      SumReversed(g, es[..n]);
      SumAppend(g, Reversed(es[..n]), [Reverse(es[n])]);
      assert [Reverse(es[n])][..0] == [];
    }
  }

  /** Over a closed surface every antisymmetric contribution meets its opposite. */
  lemma ClosedSumsVanish(g: Directed -> real, fs: seq<Triangle>)
    requires Antisymmetric(g)
    requires forall e :: Count(fs, e) == Count(fs, Reverse(e))
    ensures Sum(g, AllEdges(fs)) == 0.0
  {
    var es := AllEdges(fs);
    forall e ensures multiset(Reversed(es))[e] == multiset(es)[e] {
      ReversedCounts(es, e);
      assert Count(fs, e) == Count(fs, Reverse(e));
    }
    assert multiset(Reversed(es)) == multiset(es);
    SumOrderFree(g, es, Reversed(es));
    SumReversed(g, es);
  }

  // ---------- Volume under translation ----------

  function Add(p: Point, t: Point): Point { Point(p.x + t.x, p.y + t.y, p.z + t.z) }

  function Moved(vs: seq<Point>, t: Point): (r: seq<Point>)
    ensures |r| == |vs| && forall i :: 0 <= i < |vs| ==> r[i] == Add(vs[i], t)
  {
    seq(|vs|, i requires 0 <= i < |vs| => Add(vs[i], t))
  }

  /** t . (p x q): what one directed edge contributes when everything moves by t. */
  function Swept(t: Point, p: Point, q: Point): real {
    Triple(t, p, q)
  }

  ghost function Sweep(vs: seq<Point>, t: Point): Directed -> real {
    (e: Directed) => if Lookup(vs, e.0).Some? && Lookup(vs, e.1).Some? then Swept(t, Corner(vs, e.0), Corner(vs, e.1))
      else 0.0
  }

  lemma TripleMoves(p: Point, q: Point, r: Point, t: Point)
    ensures Triple(Add(p, t), Add(q, t), Add(r, t))
      == Triple(p, q, r) + Swept(t, p, q) + Swept(t, q, r) + Swept(t, r, p)
  {
  }

  lemma SweepAntisymmetric(vs: seq<Point>, t: Point)
    ensures Antisymmetric(Sweep(vs, t))
  {
    forall e: Directed ensures Sweep(vs, t)(Reverse(e)) == -Sweep(vs, t)(e) {
      if Lookup(vs, e.0).Some? && Lookup(vs, e.1).Some? {
        SweptAntisymmetric(t, Corner(vs, e.0), Corner(vs, e.1));
      }
    }
  }

  lemma SweptAntisymmetric(t: Point, p: Point, q: Point)
    ensures Swept(t, q, p) == -Swept(t, p, q)
  {
  }

  lemma SumOfThree(g: Directed -> real, a: Directed, b: Directed, c: Directed)
    ensures Sum(g, [a, b, c]) == g(a) + g(b) + g(c)
  {
    assert [a, b, c][..2] == [a, b] && [a, b][..1] == [a] && [a][..0] == [];
    assert Sum(g, [a]) == g(a);
    assert Sum(g, [a, b]) == Sum(g, [a]) + g(b);
  }

  lemma OneTriangleMoves(vs: seq<Point>, f: Triangle, t: Point)
    requires InRange(vs, [f])
    ensures InRange(Moved(vs, t), [f])
    ensures var ms := Moved(vs, t);
      Triple(Corner(ms, f.0), Corner(ms, f.1), Corner(ms, f.2)) ==
      Triple(Corner(vs, f.0), Corner(vs, f.1), Corner(vs, f.2)) + Sum(Sweep(vs, t), EdgesOf(f))
  {
    hide Triple, Swept;
    var ms := Moved(vs, t);
    assert f in [f];
    assert forall i :: i in {f.0, f.1, f.2} ==> Lookup(ms, i) == Some(Add(Corner(vs, i), t));
    TripleMoves(Corner(vs, f.0), Corner(vs, f.1), Corner(vs, f.2), t);
    SumOfThree(Sweep(vs, t), (f.0, f.1), (f.1, f.2), (f.2, f.0));
  }

  /** For any mesh: how far the reported volume drifts when it is moved. */
  lemma {:induction false} VolumeMoves(vs: seq<Point>, fs: seq<Triangle>, t: Point)
    requires InRange(vs, fs)
    ensures InRange(Moved(vs, t), fs)
    ensures Volume(Moved(vs, t), fs) == Volume(vs, fs) + Sum(Sweep(vs, t), AllEdges(fs)) / 6.0
  {
    hide Triple, Sweep;
    var ms := Moved(vs, t);
    assert forall i :: Lookup(ms, i).Some? <==> Lookup(vs, i).Some?;
    if fs != [] {
      var n := |fs| - 1;
      var f, g := fs[n], Sweep(vs, t);
      assert forall h :: h in fs[..n] ==> h in fs;
      VolumeMoves(vs, fs[..n], t);
      SumAppend(g, AllEdges(fs[..n]), EdgesOf(f));
      OneTriangleMoves(vs, f, t);
    }
  }

  /** The reported volume of a watertight mesh does not depend on where it stands. */
  lemma WatertightVolumeStands(vs: seq<Point>, fs: seq<Triangle>, t: Point)
    requires InRange(vs, fs) && Watertight(fs)
    ensures InRange(Moved(vs, t), fs) && Volume(Moved(vs, t), fs) == Volume(vs, fs)
  {
    VolumeMoves(vs, fs, t);
    SweepAntisymmetric(vs, t);
    forall e ensures Count(fs, e) == Count(fs, Reverse(e)) {
      assert Reverse(Reverse(e)) == e;
    }
    ClosedSumsVanish(Sweep(vs, t), fs);
  }

  // ---------- Edges, triangles and the Euler characteristic ----------

  function Loops(es: set<Directed>): set<Directed> {
    set e | e in es && e.0 == e.1
  }

  lemma OnePairMore(es: set<Directed>, e: Directed)
    requires e in es && Reverse(e) in es
    ensures var rest := es - {e, Reverse(e)};
      es == rest + {e, Reverse(e)} && UndirectedSet(es) == UndirectedSet(rest) + {Undirected(e)}
        && Undirected(e) !in UndirectedSet(rest)
  {
    var rest := es - {e, Reverse(e)};
    assert forall d :: d in rest ==> Undirected(d) != Undirected(e);
    forall u ensures u in UndirectedSet(es) <==> u in UndirectedSet(rest) + {Undirected(e)} {
      if u in UndirectedSet(es) {
        var d :| d in es && Undirected(d) == u;
        assert d in rest || d in {e, Reverse(e)};
      }
    }
  }

  lemma OnePairCounts(es: set<Directed>, e: Directed)
    requires e in es && Reverse(e) in es
    ensures var rest := es - {e, Reverse(e)}; |es| + |Loops(es)| == |rest| + |Loops(rest)| + 2
  {
    var rest := es - {e, Reverse(e)};
    assert es == rest + {e, Reverse(e)};
    if e.0 == e.1 {
      assert Loops(es) == Loops(rest) + {e};
      assert es == rest + {e};
    } else {
      assert Loops(es) == Loops(rest);
      assert es == rest + {e} + {Reverse(e)};
    }
  }

  lemma {:induction false} HalfTheEdges(es: set<Directed>)
    requires forall e :: e in es ==> Reverse(e) in es
    ensures |es| + |Loops(es)| == 2 * |UndirectedSet(es)|
    decreases |es|
  {
    if es != {} {
      var e :| e in es;
      var rest := es - {e, Reverse(e)};
      assert forall d :: d in rest ==> Reverse(Reverse(d)) == d;
      HalfTheEdges(rest);
      OnePairMore(es, e);
      OnePairCounts(es, e);
    }
  }

  lemma {:induction false} OnceEachCounts(es: seq<Directed>)
    requires forall e :: multiset(es)[e] <= 1
    ensures |set e | e in es| == |es|
  {
    if es != [] {
      var n := |es| - 1;
      assert es == es[..n] + [es[n]];
      forall e ensures multiset(es[..n])[e] <= 1 {
        assert multiset(es)[e] <= 1;
      }
      OnceEachCounts(es[..n]);
      assert multiset(es)[es[n]] == multiset(es[..n])[es[n]] + 1;
      assert es[n] !in es[..n];
      assert (set e | e in es) == (set e | e in es[..n]) + {es[n]};
    }
  }

  /** Three times the triangles is twice the edges, less the edges from an index to itself. */
  lemma TrianglesAndEdges(fs: seq<Triangle>)
    requires Watertight(fs)
    ensures 3 * |fs| + |Loops(EdgeSet(fs))| == 2 * |UndirectedSet(EdgeSet(fs))|
  {
    forall e ensures multiset(AllEdges(fs))[e] <= 1 {
      assert Count(fs, e) > 0 ==> Count(fs, e) == 1;
    }
    OnceEachCounts(AllEdges(fs));
    forall e | e in EdgeSet(fs) ensures Reverse(e) in EdgeSet(fs) {
      assert Count(fs, e) > 0;
    }
    HalfTheEdges(EdgeSet(fs));
  }

  predicate RepeatsAnIndex(f: Triangle) { f.0 == f.1 || f.1 == f.2 || f.2 == f.0 }

  lemma {:induction false} LoopsComeFromRepeats(fs: seq<Triangle>)
    ensures Loops(EdgeSet(fs)) == {} <==> forall f :: f in fs ==> !RepeatsAnIndex(f)
  {
    if fs != [] {
      var n := |fs| - 1;
      var f := fs[n];
      LoopsComeFromRepeats(fs[..n]);
      assert fs == fs[..n] + [f];
      assert Loops(EdgeSet(fs)) == Loops(EdgeSet(fs[..n])) + Loops(set e | e in EdgesOf(f));
      if RepeatsAnIndex(f) {
        var e := if f.0 == f.1 then (f.0, f.1) else if f.1 == f.2 then (f.1, f.2) else (f.2, f.0);
        assert e in EdgesOf(f) by {
          assert EdgesOf(f)[0] == (f.0, f.1) && EdgesOf(f)[1] == (f.1, f.2) && EdgesOf(f)[2] == (f.2, f.0);
        }
        assert e in Loops(EdgeSet(fs));
      } else {
        assert Loops(set e | e in EdgesOf(f)) == {};
      }
    }
  }

  /** The reported characteristic of a watertight mesh is V - F/2 exactly when no triangle repeats an index. */
  lemma EulerIffNoRepeat(fs: seq<Triangle>)
    requires Watertight(fs)
    ensures var chi := |UsedIndices(fs)| - |UndirectedSet(EdgeSet(fs))| + |fs|;
      2 * chi == 2 * |UsedIndices(fs)| - |fs| <==> forall f :: f in fs ==> !RepeatsAnIndex(f)
  {
    TrianglesAndEdges(fs);
    LoopsComeFromRepeats(fs);
    if |Loops(EdgeSet(fs))| == 0 {
      assert Loops(EdgeSet(fs)) == {};
    }
  }

  /** A single triangle that repeats an index is reported watertight. */
  lemma SliverIsWatertight()
    ensures Watertight([(0, 0, 1)]) && RepeatsAnIndex((0, 0, 1))
    ensures 3 * |[(0, 0, 1)]| != 2 * |UndirectedSet(EdgeSet([(0, 0, 1)]))|
  {
    var fs := [(0, 0, 1)];
    assert fs[..0] == [];
    assert AllEdges(fs) == [(0, 0), (0, 1), (1, 0)];
    forall e ensures Count(fs, e) == if e in {(0, 0), (0, 1), (1, 0)} then 1 else 0 {
    }
    TrianglesAndEdges(fs);
    assert (0, 0) in AllEdges(fs) by { assert AllEdges(fs)[0] == (0, 0); }
    assert (0, 0) in Loops(EdgeSet(fs));
  }
}
