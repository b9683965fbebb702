// A square plate with h by h square holes: the generator, its table, and the open surface
// it bounds.
module Plate {
  import opened BrepModel

  function Cx(c: nat): nat { if c == 1 || c == 2 then 1 else 0 }

  function Cy(c: nat): nat { if 2 <= c then 1 else 0 }

  function Loops(h: nat): nat { 1 + h * h }

  /** Vertex i: corner i % 4 of the plate, or of hole i / 4 - 1. */
  function Vp(h: nat, i: nat): Pt
    requires i < 4 * Loops(h)
  {
    var c, l := i % 4, i / 4;
    if l == 0 then Pt((3 * h + 1) * Cx(c), (3 * h + 1) * Cy(c), 0)
    else
      RowsOfHoles(h, l - 1);
      Pt(3 * ((l - 1) % h) + 1 + Cx(c), 3 * ((l - 1) / h) + 1 + Cy(c), 0)
  }

  lemma RowsOfHoles(h: nat, k: nat)
    requires k < h * h
    ensures h > 0 && k / h < h
  {
    assert h > 0;
    assert k == h * (k / h) + k % h;
    SmallerFactor(h, k / h);
  }

  lemma SmallerFactor(h: int, x: int)
    requires h > 0 && h * x < h * h
    ensures x < h
  {
    assert x >= h ==> h * x >= h * h;
  }

  function Nxt(i: nat): nat { 4 * (i / 4) + (1 + i) % 4 }

  function Flat(p: Pt): UV { UV(p.x, p.y) }

  function Vxs(n: nat, h: nat, i: nat, b: Brep): Brep
    requires i + n <= 4 * Loops(h)
  {
    if n == 0 then b else Vxs(n - 1, h, i + 1, PushVertex(b, Vp(h, i)))
  }

  function PushPlateEdge(h: nat, nv: nat, e: nat, b: Brep): Brep
    requires e < 4 * Loops(h)
  {
    var a, z := Vp(h, e), Vp(h, Nxt(e));
    var b1 := PushEdge(b, Handle(e, 1 + e), Handle(Nxt(e), 1 + Nxt(e)), a, Pt(z.x - a.x, z.y - a.y, 0));
    PushCoedge(b1, Handle(e, 1 + nv + 2 * e), e < 4, Flat(a), Flat(z))
  }

  function Eds(n: nat, h: nat, nv: nat, e: nat, b: Brep): Brep
    requires e + n <= 4 * Loops(h)
  {
    if n == 0 then b else Eds(n - 1, h, nv, e + 1, PushPlateEdge(h, nv, e, b))
  }

  function Hc(nv: nat, e: nat): Handle { Handle(e, nv + 2 * e + 2) }

  function LoopHandles(nv: nat, l: nat): seq<Handle> {
    var e := 4 * l;
    if l == 0 then [Hc(nv, e), Hc(nv, e + 1), Hc(nv, e + 2), Hc(nv, e + 3)]
    else [Hc(nv, e + 3), Hc(nv, e + 2), Hc(nv, e + 1), Hc(nv, e)]
  }

  function Lps(n: nat, nv: nat, l: nat, b: Brep): Brep {
    if n == 0 then b else Lps(n - 1, nv, l + 1, PushLoop(b, LoopHandles(nv, l), l == 0))
  }

  function Hls(n: nat, l: nat, g: nat): seq<Handle> {
    if n == 0 then [] else [Handle(l, g)] + Hls(n - 1, l + 1, g + 1)
  }

  const SURF := Plane(Pt(0, 0, 0), Vec(1.0, 0.0, 0.0), Vec(0.0, 1.0, 0.0))

  function Wires(h: nat): Brep {
    var nl := Loops(h);
    var nv := 4 * nl;
    Lps(nl, nv, 0, Eds(nv, h, nv, 0, Vxs(nv, h, 0, EMPTY)))
  }

  function Build(h: nat): Brep {
    var nl := Loops(h);
    var nv := 4 * nl;
    var g0 := nv + 2 * nv;
    var gf := g0 + 1 + nl;
    var b2 := PushFace(Wires(h), SURF, Hls(nl, 0, g0 + 1), true);
    var b3 := PushShell(b2, [Handle(0, gf)], false);
    b3.(solids := [], shells := [Handle(0, gf + 1)])
  }

  // ---------- The table ----------

  function EdgeAt(h: nat, e: nat): Edge
    requires e < 4 * Loops(h)
  {
    Edge(4 * Loops(h) + 2 * e + 1, Handle(e, 1 + e), Handle(Nxt(e), 1 + Nxt(e)), Vp(h, e), Dif(Vp(h, e), Vp(h, Nxt(e))))
  }

  function CoedgeAt(h: nat, e: nat): Coedge
    requires e < 4 * Loops(h)
  {
    Coedge(4 * Loops(h) + 2 * e + 2, Handle(e, 4 * Loops(h) + 2 * e + 1), e < 4, Flat(Vp(h, e)), Flat(Vp(h, Nxt(e))))
  }

  ghost predicate IsPlate(h: nat, b: Brep) {
    var nl := Loops(h);
    var nv := 4 * nl;
    && |b.vs| == nv && (forall i :: 0 <= i < nv ==> b.vs[i] == Vertex(1 + i, Vp(h, i)))
    && |b.es| == nv && (forall e :: 0 <= e < nv ==> b.es[e] == EdgeAt(h, e))
    && |b.ces| == nv && (forall e :: 0 <= e < nv ==> b.ces[e] == CoedgeAt(h, e))
    && |b.lps| == nl && (forall l :: 0 <= l < nl ==> b.lps[l] == Loop(3 * nv + 1 + l, LoopHandles(nv, l), l == 0))
    && b.fas == [Face(3 * nv + 1 + nl, SURF, Hls(nl, 0, 3 * nv + 1), true)]
    && b.shs == [Shell(3 * nv + 2 + nl, [Handle(0, 3 * nv + 1 + nl)], false)]
    && b.sos == [] && b.solids == [] && b.shells == [Handle(0, 3 * nv + 2 + nl)]
  }

  ghost predicate VerticesAre(h: nat, vs: seq<Vertex>, c: nat) {
    |vs| == c <= 4 * Loops(h) && forall i :: 0 <= i < c ==> vs[i] == Vertex(1 + i, Vp(h, i))
  }

  ghost predicate EdgesAre(h: nat, es: seq<Edge>, ces: seq<Coedge>, c: nat) {
    && |es| == |ces| == c <= 4 * Loops(h)
    && forall e :: 0 <= e < c ==> es[e] == EdgeAt(h, e) && ces[e] == CoedgeAt(h, e)
  }

  ghost predicate LoopsAre(h: nat, lps: seq<Loop>, c: nat) {
    |lps| == c && forall l :: 0 <= l < c ==> lps[l] == Loop(12 * Loops(h) + 1 + l, LoopHandles(4 * Loops(h), l), l == 0)
  }

  lemma {:induction false} VxsFill(n: nat, h: nat, i: nat, b: Brep)
    requires i + n <= 4 * Loops(h) && VerticesAre(h, b.vs, i) && b.stamp == i
    ensures var r := Vxs(n, h, i, b); VerticesAre(h, r.vs, i + n) && r == b.(vs := r.vs, stamp := i + n)
    decreases n
  {
    hide Vp, Loops;
    if n > 0 {
      VxsFill(n - 1, h, i + 1, PushVertex(b, Vp(h, i)));
    }
  }

  lemma EdgePushed(h: nat, e: nat, b: Brep)
    requires e < 4 * Loops(h) && b.stamp == 4 * Loops(h) + 2 * e
    ensures PushPlateEdge(h, 4 * Loops(h), e, b)
      == b.(es := b.es + [EdgeAt(h, e)], ces := b.ces + [CoedgeAt(h, e)], stamp := b.stamp + 2)
  {
    hide Vp, Loops, Nxt;
    NxtStays(h, e);
    FlatPlate(h, e);
    FlatPlate(h, Nxt(e));
  }

  lemma EdgeStep(h: nat, e: nat, b: Brep)
    requires EdgesAre(h, b.es, b.ces, e) && e < 4 * Loops(h) && b.stamp == 4 * Loops(h) + 2 * e
    ensures var r := PushPlateEdge(h, 4 * Loops(h), e, b);
      EdgesAre(h, r.es, r.ces, e + 1) && r == b.(es := r.es, ces := r.ces, stamp := b.stamp + 2)
  {
    hide EdgeAt, CoedgeAt, Loops, PushPlateEdge;
    EdgePushed(h, e, b);
  }

  lemma FlatPlate(h: nat, i: nat)
    requires i < 4 * Loops(h)
    ensures Vp(h, i).z == 0
  {
  }

  lemma {:induction false} EdsFill(n: nat, h: nat, e: nat, b: Brep)
    requires EdgesAre(h, b.es, b.ces, e) && e + n <= 4 * Loops(h) && b.stamp == 4 * Loops(h) + 2 * e
    ensures var r := Eds(n, h, 4 * Loops(h), e, b);
      EdgesAre(h, r.es, r.ces, e + n) && r == b.(es := r.es, ces := r.ces, stamp := b.stamp + 2 * n)
    decreases n
  {
    hide EdgesAre, PushPlateEdge, Loops;
    if n > 0 {
      EdgeStep(h, e, b);
      EdsFill(n - 1, h, e + 1, PushPlateEdge(h, 4 * Loops(h), e, b));
    }
  }

  lemma {:induction false} LpsFill(n: nat, h: nat, l: nat, b: Brep)
    requires LoopsAre(h, b.lps, l) && b.stamp == 12 * Loops(h) + l
    ensures var r := Lps(n, 4 * Loops(h), l, b);
            LoopsAre(h, r.lps, l + n) && r == b.(lps := r.lps, stamp := b.stamp + n)
    decreases n
  {
    hide LoopHandles, Loops;
    if n > 0 {
      LpsFill(n - 1, h, l + 1, PushLoop(b, LoopHandles(4 * Loops(h), l), l == 0));
    }
  }

  /** The generator builds exactly this table. */
  lemma BuildIsPlate(h: nat)
    ensures IsPlate(h, Build(h))
  {
    hide Vxs, Eds, Lps, Vp, EdgeAt, CoedgeAt, LoopHandles, Loops, Hls;
    var nl := Loops(h);
    var nv := 4 * nl;
    VxsFill(nv, h, 0, EMPTY);
    var v := Vxs(nv, h, 0, EMPTY);
    EdsFill(nv, h, 0, v);
    var e := Eds(nv, h, nv, 0, v);
    LpsFill(nl, h, 0, e);
  }

  // ---------- The surface ----------

  lemma {:induction false} HlsAre(n: nat, l: nat, g: nat, x: nat)
    requires x < n
    ensures |Hls(n, l, g)| == n && Hls(n, l, g)[x] == Handle(l + x, g + x)
  {
    if n > 1 {
      HlsAre(n - 1, l + 1, g + 1, if x > 0 then x - 1 else 0);
    }
  }

  lemma NxtStays(h: nat, e: nat)
    requires e < 4 * Loops(h)
    ensures Nxt(e) < 4 * Loops(h) && Nxt(e) / 4 == e / 4
  {
    hide Loops;
  }

  lemma LoopHandleLive(h: nat, b: Brep, i: nat)
    requires IsPlate(h, b) && i < |b.fas[0].loops|
    ensures LoopLive(b, b.fas[0].loops[i])
  {
    hide Loops, Vp, Hls, EdgeAt, CoedgeAt, LoopHandles;
    var nl := Loops(h);
    assert nl >= 1 by { AtLeastOne(h); }
    HlsAre(nl, 0, 12 * nl + 1, 0);
    HlsAre(nl, 0, 12 * nl + 1, i);
  }

  lemma AtLeastOne(h: nat)
    ensures Loops(h) >= 1
  {
  }

  lemma PlateHandles(h: nat, b: Brep)
    requires IsPlate(h, b)
    ensures HandlesLive(b)
  {
    hide Loops, Vp, Nxt, Hls;
    forall e | 0 <= e < |b.es| ensures VertexLive(b, b.es[e].v0) && VertexLive(b, b.es[e].v1) {
      NxtStays(h, e);
    }
    forall l, i | 0 <= l < |b.lps| && 0 <= i < |b.lps[l].ces| ensures CoedgeLive(b, b.lps[l].ces[i]) {
      assert b.lps[l].ces == LoopHandles(4 * Loops(h), l);
    }
    forall i | 0 <= i < |b.fas[0].loops| ensures LoopLive(b, b.fas[0].loops[i]) {
      LoopHandleLive(h, b, i);
    }
    hide EdgeAt, CoedgeAt, LoopHandles;
  }

  lemma QuarterTurns(l: nat)
    ensures Nxt(4 * l) == 4 * l + 1 && Nxt(4 * l + 1) == 4 * l + 2 && Nxt(4 * l + 2) == 4 * l + 3
      && Nxt(4 * l + 3) == 4 * l
  {
  }

  /** Coedge e runs from corner e to the next on the plate's rim, and the other way round on a hole's. */
  lemma CoedgeEnds(h: nat, b: Brep, e: nat)
    requires IsPlate(h, b) && e < |b.ces|
    ensures CoedgeLive(b, Hc(4 * Loops(h), e)) && EdgeLive(b, b.ces[e].edge) && Nxt(e) < |b.vs|
    ensures var p, q := (Handle(e, 1 + e), Flat(Vp(h, e))), (Handle(Nxt(e), 1 + Nxt(e)), Flat(Vp(h, Nxt(e))));
      && StartOf(b, b.ces[e]) == (if e < 4 then p else q) && EndOf(b, b.ces[e]) == (if e < 4 then q else p)
  {
    hide Loops, Vp, Nxt, Hls, LoopHandles;
    NxtStays(h, e);
    assert b.ces[e] == CoedgeAt(h, e) && b.es[e] == EdgeAt(h, e);
  }

  lemma PlateLoopCloses(h: nat, b: Brep, l: nat)
    requires IsPlate(h, b) && l < |b.lps|
    ensures LoopCloses(b, b.lps[l])
  {
    hide Loops, Vp, Nxt, Hls, EdgeAt, CoedgeAt, StartOf, EndOf;
    assert b.lps[l].ces == LoopHandles(4 * Loops(h), l);
    QuarterTurns(l);
    CoedgeEnds(h, b, 4 * l);
    CoedgeEnds(h, b, 4 * l + 1);
    CoedgeEnds(h, b, 4 * l + 2);
    CoedgeEnds(h, b, 4 * l + 3);
    hide IsPlate;
  }

  lemma PlateUses(h: nat, b: Brep)
    requires IsPlate(h, b)
    ensures SingleUses(b)
  {
    hide Loops, Vp, Nxt, Hls;
    forall e | 0 <= e < |b.es| ensures UsedOnce(b, e) {
      assert b.ces[e] == CoedgeAt(h, e);
      assert UsedBy(b, e, e, e < 4);
    }
  }

  lemma PlatePlaces(h: nat, b: Brep)
    requires IsPlate(h, b)
    ensures CoedgesPlacedOnce(b)
  {
    hide Loops, Vp, Nxt, Hls;
    forall c | 0 <= c < |b.ces| ensures IsPlaced(b, c) {
      var l, r := c / 4, c % 4;
      assert b.lps[l].ces == LoopHandles(4 * Loops(h), l);
      assert Placed(b, c, l, if l == 0 then r else 3 - r);
    }
    forall c, l, i | Placed(b, c, l, i) ensures c >= 0 && l == c / 4 && i == if l == 0 then c % 4 else 3 - c % 4 {
      assert b.lps[l].ces == LoopHandles(4 * Loops(h), l);
    }
  }

  lemma PlateGeometry(h: nat, b: Brep)
    requires IsPlate(h, b)
    ensures EdgesMeetVertices(b)
    ensures forall c :: 0 <= c < |b.ces| ==> TrimMeets(b, SURF, b.ces[c])
  {
    forall e | 0 <= e < |b.es|
      ensures b.es[e] == EdgeAt(h, e) && Nxt(e) < |b.vs| && Vp(h, e).z == 0 && Vp(h, Nxt(e)).z == 0
    {
      NxtStays(h, e);
      FlatPlate(h, e);
      FlatPlate(h, Nxt(e));
    }
    hide Loops, Vp, Nxt, Hls;
    forall c | 0 <= c < |b.ces| ensures TrimMeets(b, SURF, b.ces[c]) {
      assert b.ces[c] == CoedgeAt(h, c);
    }
  }

  // ---------- The area ----------

  /** Corner c of a square with its lower left corner at (x, y). */
  function SquareCorner(x: int, y: int, side: int, c: nat): Pt {
    Pt(x + side * Cx(c), y + side * Cy(c), 0)
  }

  /** Where loop l's square has its lower left corner, and its side. */
  function SquareAt(h: nat, l: nat): (int, int, int)
    requires l < Loops(h)
  {
    if l == 0 then (0, 0, 3 * h + 1)
    else
      RowsOfHoles(h, l - 1);
      (3 * ((l - 1) % h) + 1, 3 * ((l - 1) / h) + 1, 1)
  }

  lemma CornerIs(h: nat, l: nat, c: nat)
    requires l < Loops(h) && c < 4
    ensures 4 * l + c < 4 * Loops(h)
    ensures var (x, y, side) := SquareAt(h, l); Vp(h, 4 * l + c) == SquareCorner(x, y, side, c)
  {
    assert (4 * l + c) / 4 == l && (4 * l + c) % 4 == c;
  }

  /** A square's sides sweep twice its area. */
  lemma SquareSweeps(x: int, y: int, a: int)
    ensures (x * y - y * (x + a)) + ((x + a) * (y + a) - y * (x + a)) + ((x + a) * (y + a) - (y + a) * x)
          + (x * y - (y + a) * x) == 2 * (a * a)
  {
  }

  lemma TrimAt(h: nat, e: nat)
    requires e < 4 * Loops(h)
    ensures Nxt(e) < 4 * Loops(h)
    ensures var p, q := Vp(h, e), Vp(h, Nxt(e));
      TrimSweep(CoedgeAt(h, e)) == if e < 4 then p.x * q.y - p.y * q.x else q.x * p.y - q.y * p.x
  {
    hide Loops, Vp;
    NxtStays(h, e);
  }

  lemma CoedgeIs(h: nat, b: Brep, e: nat)
    requires IsPlate(h, b) && e < 4 * Loops(h)
    ensures e < |b.ces| && CoedgeLive(b, Hc(4 * Loops(h), e)) && b.ces[e] == CoedgeAt(h, e)
  {
    hide Loops, Vp, Nxt, Hls, LoopHandles, EdgeAt;
  }

  lemma PlateTrim(h: nat, b: Brep, l: nat, c: nat)
    requires IsPlate(h, b) && l < Loops(h) && c < 4
    ensures 4 * l + c < |b.ces| && CoedgeLive(b, Hc(4 * Loops(h), 4 * l + c))
    ensures var (x, y, side) := SquareAt(h, l);
      var p, q := SquareCorner(x, y, side, c), SquareCorner(x, y, side, if c == 3 then 0 else c + 1);
      TrimSweep(b.ces[4 * l + c]) == if l == 0 then p.x * q.y - p.y * q.x else q.x * p.y - q.y * p.x
  {
    hide Loops, IsPlate, CoedgeAt, SquareAt, SquareCorner, TrimSweep, Vp;
    QuarterTurns(l);
    CornerIs(h, l, c);
    CornerIs(h, l, if c == 3 then 0 else c + 1);
    CoedgeIs(h, b, 4 * l + c);
    TrimAt(h, 4 * l + c);
  }

  lemma FourSweeps(b: Brep, loop: Loop)
    requires |loop.ces| == 4 && CoedgeLive(b, loop.ces[0]) && CoedgeLive(b, loop.ces[1])
    requires CoedgeLive(b, loop.ces[2]) && CoedgeLive(b, loop.ces[3])
    ensures LoopSweep(b, loop, 4) == TrimSweep(b.ces[loop.ces[0].idx]) + TrimSweep(b.ces[loop.ces[1].idx])
                                   + TrimSweep(b.ces[loop.ces[2].idx]) + TrimSweep(b.ces[loop.ces[3].idx])
  {
    hide TrimSweep;
    assert LoopSweep(b, loop, 1) == TrimSweep(b.ces[loop.ces[0].idx]);
    assert LoopSweep(b, loop, 2) == LoopSweep(b, loop, 1) + TrimSweep(b.ces[loop.ces[1].idx]);
    assert LoopSweep(b, loop, 3) == LoopSweep(b, loop, 2) + TrimSweep(b.ces[loop.ces[2].idx]);
  }

  /** The rim goes anticlockwise around the whole plate, a hole's rim clockwise around one unit. */
  lemma RimSweeps(h: nat, b: Brep, l: nat)
    requires IsPlate(h, b) && l < Loops(h)
    ensures l < |b.lps| && |b.lps[l].ces| == 4
    ensures LoopSweep(b, b.lps[l], 4) == if l == 0 then 2 * ((3 * h + 1) * (3 * h + 1)) else -2
  {
    hide Loops, Hls, Vp, SquareAt, TrimSweep, EdgeAt, CoedgeAt, CoedgeLive;
    var (x, y, side) := SquareAt(h, l);
    assert b.lps[l].ces == LoopHandles(4 * Loops(h), l);
    PlateTrim(h, b, l, 0);
    PlateTrim(h, b, l, 1);
    PlateTrim(h, b, l, 2);
    PlateTrim(h, b, l, 3);
    FourSweeps(b, b.lps[l]);
    SquareSweeps(x, y, side);
    SquareSide(h, l);
  }

  lemma SquareSide(h: nat, l: nat)
    requires l < Loops(h)
    ensures SquareAt(h, l).2 == if l == 0 then 3 * h + 1 else 1
  {
  }

  lemma {:induction false} RimsSweep(h: nat, b: Brep, n: nat)
    requires IsPlate(h, b) && n <= Loops(h)
    ensures n <= |b.fas[0].loops|
    ensures FaceSweep(b, b.fas[0], n) == if n == 0 then 0 else 2 * ((3 * h + 1) * (3 * h + 1)) - 2 * (n - 1)
  {
    hide Loops, Vp, LoopSweep, EdgeAt, CoedgeAt, Hls;
    if n > 0 {
      RimsSweep(h, b, n - 1);
      HlsAre(Loops(h), 0, 12 * Loops(h) + 1, n - 1);
      LoopHandleLive(h, b, n - 1);
      RimSweeps(h, b, n - 1);
    }
  }

  /** The plate with its holes cut out, seen from above. */
  lemma PlateArea(h: nat, b: Brep)
    requires IsPlate(h, b)
    ensures |b.fas[0].loops| == Loops(h)
    ensures FaceSweep(b, b.fas[0], |b.fas[0].loops|) == 2 * ((3 * h + 1) * (3 * h + 1) - h * h)
    ensures FacesLookOut(b)
  {
    hide FaceSweep, Vp, EdgeAt, CoedgeAt, Hls;
    HlsAre(Loops(h), 0, 12 * Loops(h) + 1, 0);
    RimsSweep(h, b, Loops(h));
    assert (3 * h + 1) * (3 * h + 1) == 9 * (h * h) + 6 * h + 1;
  }

  lemma PlateIsOneSheet(h: nat, b: Brep)
    requires IsPlate(h, b)
    ensures |b.fas| == 1 && |b.shs| == 1 && b.sos == [] && b.solids == []
    ensures b.shells == [Handle(0, b.shs[0].gen)] && !b.shs[0].outer && b.shs[0].faces == [Handle(0, b.fas[0].gen)]
    ensures forall i :: 0 <= i < |b.fas[0].loops| ==>
      LoopLive(b, b.fas[0].loops[i]) && (b.lps[b.fas[0].loops[i].idx].outer <==> i == 0)
  {
    hide Vp, EdgeAt, CoedgeAt, Hls, Loops, LoopHandles;
    forall i | 0 <= i < |b.fas[0].loops|
      ensures LoopLive(b, b.fas[0].loops[i]) && (b.lps[b.fas[0].loops[i].idx].outer <==> i == 0)
    {
      AtLeastOne(h);
      HlsAre(Loops(h), 0, 12 * Loops(h) + 1, 0);
      HlsAre(Loops(h), 0, 12 * Loops(h) + 1, i);
      LoopHandleLive(h, b, i);
    }
  }

  /** For every h: handles resolve, every loop chains and closes, every edge is used exactly once, every trim
      meets its vertices; one face in one open shell looks up, with the first loop outside and the area of the
      square less the holes. */
  lemma PlateIsOpenSurface(h: nat)
    ensures var b := Build(h);
      && HandlesLive(b) && CoedgesPlacedOnce(b) && SingleUses(b) && EdgesMeetVertices(b)
      && (forall l :: 0 <= l < |b.lps| ==> LoopCloses(b, b.lps[l]))
      && (forall c :: 0 <= c < |b.ces| ==> TrimMeets(b, SURF, b.ces[c]))
      && |b.lps| == 1 + h * h
      && |b.fas| == 1 && b.fas[0].same && FacesLookOut(b)
      && FaceSweep(b, b.fas[0], |b.fas[0].loops|) == 2 * ((3 * h + 1) * (3 * h + 1) - h * h)
      && b.shells == [Handle(0, b.shs[0].gen)] && !b.shs[0].outer && b.shs[0].faces == [Handle(0, b.fas[0].gen)]
      && (forall i :: 0 <= i < |b.fas[0].loops| ==> LoopLive(b, b.fas[0].loops[i]))
      && (forall i :: 0 <= i < |b.fas[0].loops| ==> (b.lps[b.fas[0].loops[i].idx].outer <==> i == 0))
  {
    BuildIsPlate(h);
    var b := Build(h);
    assert |b.lps| == 1 + h * h;
    PlateArea(h, b);
    PlateIsOneSheet(h, b);
    assert b.fas[0].same;
    hide Build, IsPlate, FacesLookOut, FaceSweep;
    PlateHandles(h, b);
    PlatePlaces(h, b);
    PlateUses(h, b);
    PlateGeometry(h, b);
    forall l | 0 <= l < |b.lps| ensures LoopCloses(b, b.lps[l]) {
      PlateLoopCloses(h, b, l);
    }
  }

  // ---------- The holes ----------

  /** Lower-left corner of a hole. */
  function HoleAt(h: nat, k: nat): UV
    requires k < h * h
  {
    RowsOfHoles(h, k);
    UV(3 * (k % h) + 1, 3 * (k / h) + 1)
  }

  /** The rim stands on the corners of a square of side 3h + 1, and every hole on those of a unit
      square inside it. */
  lemma HolesInside(h: nat, k: nat)
    requires k < h * h
    ensures var a, vs := HoleAt(h, k), Build(h).vs;
      && |vs| == 4 * (1 + h * h)
      && vs[0].p == Pt(0, 0, 0) && vs[1].p == Pt(3 * h + 1, 0, 0)
      && vs[2].p == Pt(3 * h + 1, 3 * h + 1, 0) && vs[3].p == Pt(0, 3 * h + 1, 0)
      && vs[4 * k + 4].p == Pt(a.s, a.t, 0) && vs[4 * k + 5].p == Pt(a.s + 1, a.t, 0)
      && vs[4 * k + 6].p == Pt(a.s + 1, a.t + 1, 0) && vs[4 * k + 7].p == Pt(a.s, a.t + 1, 0)
      && 1 <= a.s && a.s + 1 < 3 * h + 1 && 1 <= a.t && a.t + 1 < 3 * h + 1
  {
    hide Build, SquareCorner, SquareAt, HoleAt;
    HoleFits(h, k);
    CornerBuilt(h, 0, 0);
    CornerBuilt(h, 0, 1);
    CornerBuilt(h, 0, 2);
    CornerBuilt(h, 0, 3);
    CornerBuilt(h, k + 1, 0);
    CornerBuilt(h, k + 1, 1);
    CornerBuilt(h, k + 1, 2);
    CornerBuilt(h, k + 1, 3);
    FourCorners(0, 0, 3 * h + 1);
    FourCorners(HoleAt(h, k).s, HoleAt(h, k).t, 1);
  }

  lemma HoleFits(h: nat, k: nat)
    requires k < h * h
    ensures k + 1 < Loops(h) && SquareAt(h, 0) == (0, 0, 3 * h + 1)
    ensures var a := HoleAt(h, k);
      SquareAt(h, k + 1) == (a.s, a.t, 1)
      && 1 <= a.s && a.s + 1 < 3 * h + 1 && 1 <= a.t && a.t + 1 < 3 * h + 1
  {
    RowsOfHoles(h, k);
  }

  lemma FourCorners(x: int, y: int, a: int)
    ensures SquareCorner(x, y, a, 0) == Pt(x, y, 0) && SquareCorner(x, y, a, 1) == Pt(x + a, y, 0)
    ensures SquareCorner(x, y, a, 2) == Pt(x + a, y + a, 0) && SquareCorner(x, y, a, 3) == Pt(x, y + a, 0)
  {
  }

  lemma CornerBuilt(h: nat, l: nat, c: nat)
    requires l < Loops(h) && c < 4
    ensures |Build(h).vs| == 4 * (1 + h * h) && 4 * l + c < |Build(h).vs|
    ensures var (x, y, side) := SquareAt(h, l); Build(h).vs[4 * l + c].p == SquareCorner(x, y, side, c)
  {
    hide Build, Vp, EdgeAt, CoedgeAt, LoopHandles, Hls, SquareCorner, SquareAt;
    BuildIsPlate(h);
    CornerIs(h, l, c);
  }

  lemma CellsApart(h: nat, r: nat, c: nat, r': nat, c': nat)
    requires h * r + c != h * r' + c'
    ensures r != r' || c != c'
  {
  }

  /** Distinct holes stand at least two apart in some direction. */
  lemma HolesApart(h: nat, j: nat, k: nat)
    requires j < k < h * h
    ensures var a, b := HoleAt(h, j), HoleAt(h, k); a.s + 3 <= b.s || b.s + 3 <= a.s || a.t + 3 <= b.t || b.t + 3 <= a.t
  {
    RowsOfHoles(h, j);
    RowsOfHoles(h, k);
    Decomposed(h, j);
    Decomposed(h, k);
    CellsApart(h, j / h, j % h, k / h, k % h);
    ThreeApart(j / h, j % h, k / h, k % h);
  }

  lemma Decomposed(h: nat, k: nat)
    requires h > 0
    ensures h * (k / h) + k % h == k
  {
  }

  lemma ThreeApart(r: nat, c: nat, r': nat, c': nat)
    requires r != r' || c != c'
    ensures 3 * c + 4 <= 3 * c' + 1 || 3 * c' + 4 <= 3 * c + 1 || 3 * r + 4 <= 3 * r' + 1 || 3 * r' + 4 <= 3 * r + 1
  {
  }
}
