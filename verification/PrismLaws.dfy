// What holds of the prism's table for every size: handles resolve, loops close, every edge is
// used once in each sense, every trim lies on its face.
module PrismLaws {
  import opened BrepModel
  import opened Prism
  import opened PrismTable

  // ---------- Lists of handles ----------

  lemma {:induction false} TopHcsAre(c: nat, n: nat, i: nat, x: nat)
    requires x < c
    ensures |TopHcs(c, n, i)| == c && TopHcs(c, n, i)[x] == Hc(n, 4 * n + i + x)
  {
    if c > 1 {
      TopHcsAre(c - 1, n, i + 1, if x > 0 then x - 1 else 0);
    }
  }

  lemma {:induction false} BotHcsAre(c: nat, n: nat, i: nat, x: nat)
    requires x < c && i + c <= n
    ensures |BotHcs(c, n, i)| == c && BotHcs(c, n, i)[x] == Hc(n, 6 * n - 1 - (i + x))
  {
    if c > 1 {
      BotHcsAre(c - 1, n, i + 1, if x > 0 then x - 1 else 0);
    }
  }

  lemma {:induction false} HfsAre(c: nat, n: nat, f: nat, x: nat)
    requires x < c
    ensures |Hfs(c, n, f)| == c && Hfs(c, n, f)[x] == Hf(n, f + x)
  {
    if c > 1 {
      HfsAre(c - 1, n, f + 1, if x > 0 then x - 1 else 0);
    }
  }

  function LoopSize(n: nat, l: nat): nat { if l < n then 4 else n }

  /** The coedge at place i of loop l. */
  function CoedgeIn(n: nat, l: nat, i: nat): int {
    if l < n then 4 * l + i else if l == n then 4 * n + i else 6 * n - 1 - i
  }

  lemma LoopHolds(k: nat, l: nat, i: nat)
    requires l < Size(k) + 2 && i < LoopSize(Size(k), l)
    ensures var n := Size(k); var ces := LoopAt(k, l).ces;
      |ces| == LoopSize(n, l) && 0 <= CoedgeIn(n, l, i) < 6 * n && ces[i] == Hc(n, CoedgeIn(n, l, i))
  {
    var n := Size(k);
    if l == n {
      TopHcsAre(n, n, 0, i);
    } else if l == n + 1 {
      BotHcsAre(n, n, 0, i);
    }
  }

  // ---------- Handles ----------

  lemma EdgeHandles(k: nat, b: Brep, e: nat)
    requires k >= 1 && IsPrism(k, b) && e < 3 * Size(k)
    ensures b.es[e] == EdgeAt(k, e) && VertexLive(b, b.es[e].v0) && VertexLive(b, b.es[e].v1)
  {
    hide Corner;
  }

  lemma CoedgeHandles(k: nat, b: Brep, c: nat)
    requires k >= 1 && IsPrism(k, b) && c < 6 * Size(k)
    ensures b.ces[c] == CoedgeAt(k, c) && EdgeLive(b, b.ces[c].edge)
  {
    hide Corner, SideLength;
    CoedgeEdge(k, c);
    hide CoedgeAt;
    assert b.es[b.ces[c].edge.idx] == EdgeAt(k, b.ces[c].edge.idx);
  }

  /** Which edge each coedge uses. */
  function EdgeIn(n: nat, c: nat): int {
    if c < 4 * n then
      var i, r := c / 4, c % 4;
      if r == 0 then i else if r == 1 then 2 * n + Next(n, i) else if r == 2 then n + i else 2 * n + i
    else if c < 5 * n then n + (c - 4 * n)
    else c - 5 * n
  }

  function SenseIn(n: nat, c: nat): bool { if c < 4 * n then c % 4 < 2 else c < 5 * n }

  lemma CoedgeEdge(k: nat, c: nat)
    requires c < 6 * Size(k)
    ensures 0 <= EdgeIn(Size(k), c) < 3 * Size(k) && CoedgeAt(k, c).edge == He(Size(k), EdgeIn(Size(k), c))
    ensures CoedgeAt(k, c).fwd == SenseIn(Size(k), c) && CoedgeAt(k, c).gen == 5 * Size(k) + 1 + c
  {
    hide Corner, SideLength;
  }

  lemma PrismHandles(k: nat, b: Brep)
    requires k >= 1 && IsPrism(k, b)
    ensures HandlesLive(b)
  {
    var n := Size(k);
    forall e | 0 <= e < |b.es| ensures VertexLive(b, b.es[e].v0) && VertexLive(b, b.es[e].v1) {
      EdgeHandles(k, b, e);
    }
    forall c | 0 <= c < |b.ces| ensures EdgeLive(b, b.ces[c].edge) {
      CoedgeHandles(k, b, c);
    }
    forall l, i | 0 <= l < |b.lps| && 0 <= i < |b.lps[l].ces| ensures CoedgeLive(b, b.lps[l].ces[i]) {
      LoopHandles(k, b, l, i);
    }
    forall f, i | 0 <= f < |b.fas| && 0 <= i < |b.fas[f].loops| ensures LoopLive(b, b.fas[f].loops[i]) {
      FaceHandles(k, b, f, i);
    }
    assert |b.shs| == 1;
    forall i | 0 <= i < |b.shs[0].faces| ensures FaceLive(b, b.shs[0].faces[i]) {
      ShellHandles(k, b, i);
    }
    hide VerticesAre, EdgesAre, CoedgesAre, LoopsAre, FacesAre, Hfs, Size;
  }

  lemma LoopHandles(k: nat, b: Brep, l: nat, i: nat)
    requires k >= 1 && IsPrism(k, b) && l < |b.lps| && i < |b.lps[l].ces|
    ensures b.lps[l] == LoopAt(k, l) && |b.lps[l].ces| == LoopSize(Size(k), l)
    ensures var c := CoedgeIn(Size(k), l, i);
            0 <= c < 6 * Size(k) && b.lps[l].ces[i] == Hc(Size(k), c) && CoedgeLive(b, b.lps[l].ces[i])
  {
    assert b.lps[l] == LoopAt(k, l);
    LoopHolds(k, l, 0);
    LoopHolds(k, l, i);
    hide LoopAt;
    CoedgeHandles(k, b, CoedgeIn(Size(k), l, i));
    CoedgeEdge(k, CoedgeIn(Size(k), l, i));
    hide CoedgeAt;
  }

  lemma FaceHandles(k: nat, b: Brep, f: nat, i: nat)
    requires k >= 1 && IsPrism(k, b) && f < |b.fas| && i < |b.fas[f].loops|
    ensures b.fas[f] == FaceAt(k, f) && b.fas[f].loops == [Hl(Size(k), f)] && i == 0 && LoopLive(b, b.fas[f].loops[i])
  {
    hide Corner, Unit, TopHcs, BotHcs;
    assert b.lps[f] == LoopAt(k, f);
  }

  lemma ShellHandles(k: nat, b: Brep, i: nat)
    requires k >= 1 && IsPrism(k, b) && i < |b.shs[0].faces|
    ensures i < Size(k) + 2 && b.shs[0].faces[i] == Hf(Size(k), i) && FaceLive(b, b.shs[0].faces[i])
  {
    HfsAre(Size(k) + 2, Size(k), 0, 0);
    HfsAre(Size(k) + 2, Size(k), 0, i);
    hide Corner, Unit, Hfs;
    assert b.fas[i] == FaceAt(k, i);
  }

  // ---------- Loops close ----------

  /** Ends of the coedge at place i of loop l: a vertex and a trim place. */
  function CornerAt(k: nat, l: nat, i: nat): (nat, UV) {
    var n := Size(k);
    if l < n then
      var j, s := Next(n, l), SideLength(k, l);
      if i == 0 then (l, UV(0, 0)) else if i == 1 then (j, UV(s, 0)) else if i == 2 then (n + j, UV(s, 1))
        else (n + l, UV(0, 1))
    else if l == n then (n + i, Corner(k, i))
    else var m := if i == 0 then 0 else Sub(n, i); (m, Corner(k, m))
  }

  /** A use of an edge runs from one corner to another. */
  predicate Runs(c: Coedge, e: Edge, p: (nat, UV), q: (nat, UV)) {
    if c.fwd then e.v0 == Hv(p.0) && c.t0 == p.1 && e.v1 == Hv(q.0) && c.t1 == q.1
    else e.v1 == Hv(p.0) && c.t1 == p.1 && e.v0 == Hv(q.0) && c.t0 == q.1
  }

  /** The coedge at place i runs from the loop's corner i to the next one. */
  lemma CoedgeRuns(k: nat, l: nat, i: nat)
    requires k >= 1 && l < Size(k) + 2 && i < LoopSize(Size(k), l)
    ensures var n := Size(k); var c := CoedgeAt(k, CoedgeIn(n, l, i)); var e := EdgeAt(k, c.edge.idx);
      Runs(c, e, CornerAt(k, l, i), CornerAt(k, l, Next(LoopSize(n, l), i)))
  {
    hide Corner, SideLength, Dif, Raised, VertexAt;
    if l < Size(k) {
      SideRuns(k, l, i);
    }
  }

  ghost predicate SideRunsAt(k: nat, l: nat, i: nat)
    requires l < Size(k) && i < 4
  {
    var c := CoedgeAt(k, 4 * l + i);
    c.edge.idx < 3 * Size(k) && Runs(c, EdgeAt(k, c.edge.idx), CornerAt(k, l, i), CornerAt(k, l, Next(4, i)))
  }

  lemma SideAlong(k: nat, l: nat)
    requires l < Size(k)
    ensures SideRunsAt(k, l, 0)
  {
    hide SideLength, CoedgeAt, EdgeAt, CornerAt, Size;
    SideQuarter(k, l);
    SideEdges(k, l);
    SideCorners(k, l);
  }

  lemma SideUp(k: nat, l: nat)
    requires l < Size(k)
    ensures SideRunsAt(k, l, 1)
  {
    hide SideLength, CoedgeAt, EdgeAt, CornerAt, Size;
    SideQuarter(k, l);
    SideEdges(k, l);
    SideCorners(k, l);
  }

  lemma SideBack(k: nat, l: nat)
    requires l < Size(k)
    ensures SideRunsAt(k, l, 2)
  {
    hide SideLength, CoedgeAt, EdgeAt, CornerAt, Size;
    SideQuarter(k, l);
    SideEdges(k, l);
    SideCorners(k, l);
  }

  lemma SideDown(k: nat, l: nat)
    requires l < Size(k)
    ensures SideRunsAt(k, l, 3)
  {
    hide SideLength, CoedgeAt, EdgeAt, CornerAt, Size;
    SideQuarter(k, l);
    SideEdges(k, l);
    SideCorners(k, l);
  }

  lemma SideRuns(k: nat, l: nat, i: nat)
    requires l < Size(k) && i < 4
    ensures SideRunsAt(k, l, i)
  {
    hide SideRunsAt;
    if i == 0 {
      SideAlong(k, l);
    } else if i == 1 {
      SideUp(k, l);
    } else if i == 2 {
      SideBack(k, l);
    } else {
      SideDown(k, l);
    }
  }

  lemma SideCorners(k: nat, l: nat)
    requires l < Size(k)
    ensures var n, j, s := Size(k), Next(Size(k), l), SideLength(k, l);
      && CornerAt(k, l, 0) == (l, UV(0, 0)) && CornerAt(k, l, 1) == (j, UV(s, 0))
      && CornerAt(k, l, 2) == (n + j, UV(s, 1)) && CornerAt(k, l, 3) == (n + l, UV(0, 1))
  {
    hide SideLength;
  }

  /** The four edges around side l. */
  lemma SideEdges(k: nat, l: nat)
    requires l < Size(k)
    ensures var n := Size(k); var j := Next(n, l);
      && j < n && EdgeAt(k, l).v0 == Hv(l) && EdgeAt(k, l).v1 == Hv(j)
      && EdgeAt(k, 2 * n + j).v0 == Hv(j) && EdgeAt(k, 2 * n + j).v1 == Hv(n + j)
      && EdgeAt(k, n + l).v0 == Hv(n + l) && EdgeAt(k, n + l).v1 == Hv(n + j)
      && EdgeAt(k, 2 * n + l).v0 == Hv(l) && EdgeAt(k, 2 * n + l).v1 == Hv(n + l)
  {
    hide Dif, VertexAt;
  }

  lemma PrismLoopsClose(k: nat, b: Brep, l: nat)
    requires k >= 1 && IsPrism(k, b) && l < |b.lps|
    ensures LoopCloses(b, b.lps[l])
  {
    var ces := b.lps[l].ces;
    assert |ces| > 0 by {
      assert b.lps[l] == LoopAt(k, l);
      LoopHolds(k, l, 0);
    }
    forall i | 0 <= i < |ces| ensures RunsOn(k, b, l, i) {
      OneRuns(k, b, l, i);
    }
    RunsClose(k, b, l);
  }

  lemma RunsClose(k: nat, b: Brep, l: nat)
    requires l < |b.lps| && |b.lps[l].ces| > 0 && forall i :: 0 <= i < |b.lps[l].ces| ==> RunsOn(k, b, l, i)
    ensures LoopCloses(b, b.lps[l])
  {
    hide CornerAt, StartOf, EndOf;
    var ces := b.lps[l].ces;
    forall i | 0 <= i < |ces|
      ensures CoedgeLive(b, ces[i]) && EdgeLive(b, b.ces[ces[i].idx].edge)
    {
      assert RunsOn(k, b, l, i);
    }
    forall i | 0 <= i < |ces|
      ensures EndOf(b, b.ces[ces[i].idx]) == StartOf(b, b.ces[ces[if i + 1 == |ces| then 0 else i + 1].idx])
    {
      assert RunsOn(k, b, l, i) && RunsOn(k, b, l, Next(|ces|, i));
    }
  }

  /** In the table, place i of loop l runs from the loop's corner i to the next. */
  ghost predicate RunsOn(k: nat, b: Brep, l: nat, i: nat) {
    && l < |b.lps| && i < |b.lps[l].ces|
    && CoedgeLive(b, b.lps[l].ces[i]) && EdgeLive(b, b.ces[b.lps[l].ces[i].idx].edge)
    && StartOf(b, b.ces[b.lps[l].ces[i].idx]) == (Hv(CornerAt(k, l, i).0), CornerAt(k, l, i).1)
    && var j := Next(|b.lps[l].ces|, i);
       EndOf(b, b.ces[b.lps[l].ces[i].idx]) == (Hv(CornerAt(k, l, j).0), CornerAt(k, l, j).1)
  }

  lemma OneRuns(k: nat, b: Brep, l: nat, i: nat)
    requires k >= 1 && IsPrism(k, b) && l < |b.lps| && i < |b.lps[l].ces|
    ensures RunsOn(k, b, l, i)
  {
    var n := Size(k);
    LoopHandles(k, b, l, i);
    var c := CoedgeIn(n, l, i);
    CoedgeHandles(k, b, c);
    EdgeHandles(k, b, b.ces[c].edge.idx);
    CoedgeRuns(k, l, i);
    hide IsPrism, LoopAt, CoedgeAt, EdgeAt, CornerAt, CoedgeIn;
  }

  // ---------- Uses and places ----------

  function Prev(n: nat, i: nat): nat { if i == 0 then Sub(n, 1) else i - 1 }

  /** The coedge that uses edge e in a sense. */
  function UseOf(n: nat, e: nat, fwd: bool): int {
    if fwd then (if e < n then 4 * e else if e < 2 * n then 3 * n + e else 4 * Prev(n, Sub(e, 2 * n)) + 1)
    else (if e < n then 5 * n + e else if e < 2 * n then 4 * (e - n) + 2 else 4 * (e - 2 * n) + 3)
  }

  lemma UseFound(n: nat, e: nat, fwd: bool)
    requires n > 0 && e < 3 * n
    ensures var c := UseOf(n, e, fwd); 0 <= c < 6 * n && EdgeIn(n, c) == e && SenseIn(n, c) == fwd
  {
    if fwd && e >= 2 * n {
      var i := Prev(n, e - 2 * n);
      assert (4 * i + 1) / 4 == i;
    }
  }

  lemma UseForced(n: nat, c: nat)
    requires n > 0 && c < 6 * n
    ensures 0 <= EdgeIn(n, c) < 3 * n && UseOf(n, EdgeIn(n, c), SenseIn(n, c)) == c
  {
    if c < 4 * n {
      assert c == 4 * (c / 4) + c % 4;
    }
  }

  lemma PrismUses(k: nat, b: Brep)
    requires k >= 1 && IsPrism(k, b)
    ensures TwoOpposedUses(b)
  {
    var n := Size(k);
    forall e, fwd | 0 <= e < |b.es| ensures UsedOnceInSense(b, e, fwd) {
      UseFound(n, e, fwd);
      var c := UseOf(n, e, fwd);
      CoedgeHandles(k, b, c);
      CoedgeEdge(k, c);
      assert UsedBy(b, e, c, fwd) by { hide CoedgeAt; }
      forall d | UsedBy(b, e, d, fwd) ensures d == c {
        CoedgeHandles(k, b, d);
        CoedgeEdge(k, d);
        UseForced(n, d);
        hide CoedgeAt, IsPrism;
      }
    }
  }

  function PlaceOf(n: nat, c: nat): (int, int) {
    if c < 4 * n then (c / 4, c % 4) else if c < 5 * n then (n, c - 4 * n) else (n + 1, 6 * n - 1 - c)
  }

  lemma PlaceFound(n: nat, c: nat)
    requires c < 6 * n
    ensures var (l, i) := PlaceOf(n, c); 0 <= l < n + 2 && 0 <= i < LoopSize(n, l) && CoedgeIn(n, l, i) == c
  {
  }

  lemma PlaceForced(n: nat, l: nat, i: nat)
    requires l < n + 2 && i < LoopSize(n, l)
    ensures 0 <= CoedgeIn(n, l, i) < 6 * n && PlaceOf(n, CoedgeIn(n, l, i)) == (l, i)
  {
  }

  lemma PrismPlaces(k: nat, b: Brep)
    requires k >= 1 && IsPrism(k, b)
    ensures CoedgesPlacedOnce(b)
  {
    var n := Size(k);
    forall c | 0 <= c < |b.ces| ensures IsPlaced(b, c) {
      PlaceFound(n, c);
      var (l, i) := PlaceOf(n, c);
      assert b.lps[l] == LoopAt(k, l);
      LoopHolds(k, l, i);
      hide IsPrism, LoopAt;
      assert Placed(b, c, l, i);
    }
    forall c, l, i | Placed(b, c, l, i) ensures c >= 0 && PlaceOf(n, c) == (l, i) {
      LoopHandles(k, b, l, i);
      hide IsPrism, LoopAt;
      PlaceForced(n, l, i);
    }
  }

  // ---------- Geometry ----------

  lemma PrismEdgesMeet(k: nat, b: Brep)
    requires k >= 1 && IsPrism(k, b)
    ensures EdgesMeetVertices(b)
  {
    forall e | 0 <= e < |b.es|
      ensures b.vs[b.es[e].v0.idx].p == b.es[e].from && b.vs[b.es[e].v1.idx].p == Plus(b.es[e].from, b.es[e].dir)
    {
      EdgeHandles(k, b, e);
      hide Corner, Raised;
    }
  }

  /** Scaling a unit step by its length gives the step. */
  lemma UnitScaled(a: Pt, b: Pt)
    requires Elen(a, b) > 0
    ensures var l, u := Elen(a, b) as real, Unit(a, b);
      l * u.x == Dif(a, b).x as real && l * u.y == Dif(a, b).y as real && u.z == 0.0
  {
  }

  lemma PlaneCorners(o: Pt, q: Pt)
    requires Elen(o, q) > 0 && o.z == 0 && q.z == 0
    ensures var surf, s := Plane(o, Unit(o, q), ZZ), Elen(o, q);
      && At(surf, UV(0, 0)) == Place(o) && At(surf, UV(s, 0)) == Place(q)
      && At(surf, UV(s, 1)) == Place(q.(z := 1)) && At(surf, UV(0, 1)) == Place(o.(z := 1))
  {
    UnitScaled(o, q);
    hide Unit, Elen;
  }

  lemma SidePlane(k: nat, l: nat)
    requires k >= 1 && l < Size(k)
    ensures var n := Size(k); var surf, s, j := FaceAt(k, l).surf, SideLength(k, l), Next(n, l);
      && At(surf, UV(0, 0)) == Place(Raised(k, l, 0)) && At(surf, UV(s, 0)) == Place(Raised(k, j, 0))
      && At(surf, UV(s, 1)) == Place(Raised(k, j, 1)) && At(surf, UV(0, 1)) == Place(Raised(k, l, 1))
  {
    ProfileAligned(k, l);
    hide Corner, At, Place;
    PlaneCorners(Raised(k, l, 0), Raised(k, Next(Size(k), l), 0));
  }

  lemma SideOnFace(k: nat, l: nat, i: nat)
    requires k >= 1 && l < Size(k) && i < 4
    ensures CornerAt(k, l, i).0 < 2 * Size(k)
    ensures At(FaceAt(k, l).surf, CornerAt(k, l, i).1) == Place(VertexAt(k, CornerAt(k, l, i).0).p)
  {
    hide Corner, At, FaceAt, CornerAt, Place;
    SidePlane(k, l);
    SideCorners(k, l);
  }

  /** Each loop corner's trim place is, on the face, the corner's vertex. */
  lemma CornerOnFace(k: nat, l: nat, i: nat)
    requires k >= 1 && l < Size(k) + 2 && i < LoopSize(Size(k), l)
    ensures CornerAt(k, l, i).0 < 2 * Size(k)
    ensures At(FaceAt(k, l).surf, CornerAt(k, l, i).1) == Place(VertexAt(k, CornerAt(k, l, i).0).p)
  {
    hide Corner, Unit, Elen;
    if l < Size(k) {
      SideOnFace(k, l, i);
    }
  }

  lemma PrismTrimsMeet(k: nat, b: Brep)
    requires k >= 1 && IsPrism(k, b)
    ensures TrimsMeetFaces(b)
  {
    forall f, l | 0 <= f < |b.fas| && 0 <= l < |b.fas[f].loops| && LoopLive(b, b.fas[f].loops[l])
      ensures LoopMeets(b, b.fas[f].surf, b.lps[b.fas[f].loops[l].idx])
    {
      FaceHandles(k, b, f, l);
      assert b.fas[f].loops[l].idx == f;
      forall i | 0 <= i < |b.lps[f].ces| && CoedgeLive(b, b.lps[f].ces[i])
        ensures TrimMeets(b, b.fas[f].surf, b.ces[b.lps[f].ces[i].idx])
      {
        TrimOne(k, b, f, i);
      }
    }
  }

  lemma TrimOne(k: nat, b: Brep, f: nat, i: nat)
    requires k >= 1 && IsPrism(k, b) && f < |b.fas| && i < |b.lps[f].ces|
    ensures b.lps[f].ces[i].idx < |b.ces| && b.fas[f] == FaceAt(k, f)
    ensures TrimMeets(b, FaceAt(k, f).surf, b.ces[b.lps[f].ces[i].idx])
  {
    var n := Size(k);
    LoopHandles(k, b, f, i);
    var c := CoedgeIn(n, f, i);
    CoedgeHandles(k, b, c);
    EdgeHandles(k, b, b.ces[c].edge.idx);
    CoedgeRuns(k, f, i);
    CornerOnFace(k, f, i);
    CornerOnFace(k, f, Next(LoopSize(n, f), i));
    hide FaceAt, LoopAt, CoedgeAt, EdgeAt, CornerAt, CoedgeIn, VertexAt, At, Place, LoopsAre, CoedgesAre;
  }

  /** Every edge's line and every coedge's trim meets the vertices exactly. */
  lemma PrismGeometryMeets(k: nat)
    requires k >= 1
    ensures EdgesMeetVertices(Build(k)) && TrimsMeetFaces(Build(k))
  {
    BuildIsPrism(k);
    hide Build, IsPrism;
    PrismEdgesMeet(k, Build(k));
    PrismTrimsMeet(k, Build(k));
  }
}
