// Boundary representations as append-only tables: each push stamps its entity with the
// next generation, and a handle names an entity by place and generation.
module BrepModel {

  datatype Pt = Pt(x: int, y: int, z: int)

  datatype Vec = Vec(x: real, y: real, z: real)

  datatype UV = UV(s: int, t: int)

  datatype Handle = Handle(idx: nat, gen: nat)

  datatype Vertex = Vertex(gen: nat, p: Pt)

  /** A straight edge: its vertices, and a line with its direction over [0, 1]. */
  datatype Edge = Edge(gen: nat, v0: Handle, v1: Handle, from: Pt, dir: Pt)

  /** A use of an edge, with the straight trim from t0 to t1 in the face's parameters. */
  datatype Coedge = Coedge(gen: nat, edge: Handle, fwd: bool, t0: UV, t1: UV)

  datatype Loop = Loop(gen: nat, ces: seq<Handle>, outer: bool)

  datatype Plane = Plane(o: Pt, u: Vec, v: Vec)

  datatype Face = Face(gen: nat, surf: Plane, loops: seq<Handle>, same: bool)

  datatype Shell = Shell(gen: nat, faces: seq<Handle>, outer: bool)

  datatype Solid = Solid(gen: nat, outer: Handle)

  datatype Brep = Brep(
    vs: seq<Vertex>, es: seq<Edge>, ces: seq<Coedge>, lps: seq<Loop>, fas: seq<Face>, shs: seq<Shell>, sos: seq<Solid>,
    solids: seq<Handle>, shells: seq<Handle>, stamp: nat)

  const EMPTY := Brep([], [], [], [], [], [], [], [], [], 0)

  function PushVertex(b: Brep, p: Pt): Brep { b.(vs := b.vs + [Vertex(b.stamp + 1, p)], stamp := b.stamp + 1) }

  function PushEdge(b: Brep, v0: Handle, v1: Handle, from: Pt, dir: Pt): Brep {
    b.(es := b.es + [Edge(b.stamp + 1, v0, v1, from, dir)], stamp := b.stamp + 1)
  }

  function PushCoedge(b: Brep, edge: Handle, fwd: bool, t0: UV, t1: UV): Brep {
    b.(ces := b.ces + [Coedge(b.stamp + 1, edge, fwd, t0, t1)], stamp := b.stamp + 1)
  }

  function PushLoop(b: Brep, ces: seq<Handle>, outer: bool): Brep {
    b.(lps := b.lps + [Loop(b.stamp + 1, ces, outer)], stamp := b.stamp + 1)
  }

  function PushFace(b: Brep, surf: Plane, loops: seq<Handle>, same: bool): Brep {
    b.(fas := b.fas + [Face(b.stamp + 1, surf, loops, same)], stamp := b.stamp + 1)
  }

  function PushShell(b: Brep, faces: seq<Handle>, outer: bool): Brep {
    b.(shs := b.shs + [Shell(b.stamp + 1, faces, outer)], stamp := b.stamp + 1)
  }

  function PushSolid(b: Brep, outer: Handle): Brep {
    b.(sos := b.sos + [Solid(b.stamp + 1, outer)], stamp := b.stamp + 1)
  }

  function Sub(a: nat, b: nat): nat { if a < b then 0 else a - b }

  function Dif(a: Pt, b: Pt): Pt { Pt(b.x - a.x, b.y - a.y, b.z - a.z) }

  function Plus(a: Pt, d: Pt): Pt { Pt(a.x + d.x, a.y + d.y, a.z + d.z) }

  // ---------- What makes such a table a surface ----------

  predicate VertexLive(b: Brep, h: Handle) { h.idx < |b.vs| && b.vs[h.idx].gen == h.gen }

  predicate EdgeLive(b: Brep, h: Handle) { h.idx < |b.es| && b.es[h.idx].gen == h.gen }

  predicate CoedgeLive(b: Brep, h: Handle) { h.idx < |b.ces| && b.ces[h.idx].gen == h.gen }

  predicate LoopLive(b: Brep, h: Handle) { h.idx < |b.lps| && b.lps[h.idx].gen == h.gen }

  predicate FaceLive(b: Brep, h: Handle) { h.idx < |b.fas| && b.fas[h.idx].gen == h.gen }

  /** Every handle stored anywhere resolves to a live entity. */
  ghost predicate HandlesLive(b: Brep) {
    && (forall e :: 0 <= e < |b.es| ==> VertexLive(b, b.es[e].v0) && VertexLive(b, b.es[e].v1))
    && (forall c :: 0 <= c < |b.ces| ==> EdgeLive(b, b.ces[c].edge))
    && (forall l, i :: 0 <= l < |b.lps| && 0 <= i < |b.lps[l].ces| ==> CoedgeLive(b, b.lps[l].ces[i]))
    && (forall f, i :: 0 <= f < |b.fas| && 0 <= i < |b.fas[f].loops| ==> LoopLive(b, b.fas[f].loops[i]))
    && (forall s, i :: 0 <= s < |b.shs| && 0 <= i < |b.shs[s].faces| ==> FaceLive(b, b.shs[s].faces[i]))
    && (forall s :: 0 <= s < |b.sos| ==>
      b.sos[s].outer.idx < |b.shs| && b.shs[b.sos[s].outer.idx].gen == b.sos[s].outer.gen)
    && (forall h :: h in b.solids ==> h.idx < |b.sos| && b.sos[h.idx].gen == h.gen)
    && (forall h :: h in b.shells ==> h.idx < |b.shs| && b.shs[h.idx].gen == h.gen)
  }

  /** Where a use of an edge starts and ends: a vertex, and a place in the face's parameters. */
  function StartOf(b: Brep, c: Coedge): (Handle, UV)
    requires EdgeLive(b, c.edge)
  {
    var e := b.es[c.edge.idx];
    if c.fwd then (e.v0, c.t0) else (e.v1, c.t1)
  }

  function EndOf(b: Brep, c: Coedge): (Handle, UV)
    requires EdgeLive(b, c.edge)
  {
    var e := b.es[c.edge.idx];
    if c.fwd then (e.v1, c.t1) else (e.v0, c.t0)
  }

  /** The loop's coedges chain head to tail, in space and in the face's parameters, and close. */
  ghost predicate LoopCloses(b: Brep, loop: Loop) {
    && |loop.ces| > 0
    && (forall i :: 0 <= i < |loop.ces| ==> CoedgeLive(b, loop.ces[i]) && EdgeLive(b, b.ces[loop.ces[i].idx].edge))
    && forall i :: 0 <= i < |loop.ces| ==>
         EndOf(b, b.ces[loop.ces[i].idx]) == StartOf(b, b.ces[loop.ces[if i + 1 == |loop.ces| then 0 else i + 1].idx])
  }

  /** Every coedge stands in exactly one place of exactly one loop. */
  ghost predicate CoedgesPlacedOnce(b: Brep) {
    && (forall c :: 0 <= c < |b.ces| ==> IsPlaced(b, c))
    && (forall c, l, i, m, j :: Placed(b, c, l, i) && Placed(b, c, m, j) ==> l == m && i == j)
  }

  predicate Placed(b: Brep, c: int, l: int, i: int) {
    0 <= l < |b.lps| && 0 <= i < |b.lps[l].ces| && b.lps[l].ces[i].idx == c
  }

  ghost predicate IsPlaced(b: Brep, c: int) { exists l, i :: Placed(b, c, l, i) }

  /** Edge e is used by coedge c in the given sense. */
  predicate UsedBy(b: Brep, e: int, c: int, fwd: bool) {
    0 <= c < |b.ces| && b.ces[c].edge.idx == e && b.ces[c].fwd == fwd
  }

  /** Each edge is used once in each sense: a closed, consistently oriented surface. */
  ghost predicate TwoOpposedUses(b: Brep) {
    forall e :: 0 <= e < |b.es| ==> UsedOnceInSense(b, e, true) && UsedOnceInSense(b, e, false)
  }

  ghost predicate UsedOnceInSense(b: Brep, e: int, fwd: bool) {
    exists c :: UsedBy(b, e, c, fwd) && forall d :: UsedBy(b, e, d, fwd) ==> d == c
  }

  /** Two uses of one edge in opposite senses. */
  predicate Opposed(b: Brep, c: int, d: int) {
    && 0 <= c < |b.ces| && 0 <= d < |b.ces|
    && b.ces[c].edge.idx == b.ces[d].edge.idx && b.ces[c].fwd != b.ces[d].fwd
  }

  function After(n: nat, i: nat): nat { if i + 1 == n then 0 else i + 1 }

  /** Coedge c comes right before coedge d in place i of loop l. */
  predicate Leads(b: Brep, c: int, d: int, l: int, i: int) {
    Placed(b, c, l, i) && Placed(b, d, l, After(|b.lps[l].ces|, i))
  }

  /** From coedge c one turns to coedge d around their start: d goes back along the edge by which
      c's face is entered there. */
  ghost predicate TurnsTo(b: Brep, c: int, d: int) {
    exists m, l, i :: Leads(b, m, c, l, i) && Opposed(b, m, d)
  }

  predicate StartsAt(b: Brep, c: int, v: int) {
    0 <= c < |b.ces| && EdgeLive(b, b.ces[c].edge) && StartOf(b, b.ces[c]).0.idx == v
  }

  /** The faces around a vertex form one cycle: turning visits every coedge that starts there, once. */
  ghost predicate OneFan(b: Brep, v: int) {
    exists cs: seq<int> :: IsFan(b, v, cs)
  }

  ghost predicate IsFan(b: Brep, v: int, cs: seq<int>) {
    && |cs| > 0
    && (forall c :: StartsAt(b, c, v) <==> c in cs)
    && (forall i, j :: 0 <= i < j < |cs| ==> cs[i] != cs[j])
    && (forall i :: 0 <= i < |cs| ==> TurnsTo(b, cs[i], cs[After(|cs|, i)]))
  }

  /** Coedge c stands in a loop of face f. */
  ghost predicate OnFace(b: Brep, f: int, c: int) {
    0 <= f < |b.fas| && exists h, i :: h in b.fas[f].loops && Placed(b, c, h.idx, i)
  }

  /** Two faces share an edge. */
  ghost predicate FacesMeet(b: Brep, f: int, g: int) {
    exists c, d :: OnFace(b, f, c) && OnFace(b, g, d) && Opposed(b, c, d)
  }

  ghost predicate IsFacePath(b: Brep, p: seq<int>, f: int, g: int) {
    |p| > 0 && p[0] == f && p[|p| - 1] == g && forall i :: 0 <= i < |p| - 1 ==> FacesMeet(b, p[i], p[i + 1])
  }

  /** Any two faces are linked by faces that share edges. */
  ghost predicate FacesConnected(b: Brep) {
    forall f, g :: 0 <= f < |b.fas| && 0 <= g < |b.fas| ==> FacesLinked(b, f, g)
  }

  ghost predicate FacesLinked(b: Brep, f: int, g: int) {
    exists p :: IsFacePath(b, p, f, g)
  }

  /** Each edge is used exactly once: a surface that is boundary everywhere. */
  ghost predicate SingleUses(b: Brep) {
    forall e :: 0 <= e < |b.es| ==> UsedOnce(b, e)
  }

  ghost predicate UsedOnce(b: Brep, e: int) {
    exists c, fwd :: UsedBy(b, e, c, fwd) && forall d, g :: UsedBy(b, e, d, g) ==> d == c && g == fwd
  }

  /** Each edge's line runs from its first vertex to its second. */
  ghost predicate EdgesMeetVertices(b: Brep) {
    forall e :: 0 <= e < |b.es| && VertexLive(b, b.es[e].v0) && VertexLive(b, b.es[e].v1) ==>
      b.vs[b.es[e].v0.idx].p == b.es[e].from && b.vs[b.es[e].v1.idx].p == Plus(b.es[e].from, b.es[e].dir)
  }

  /** A place in a plane's parameters, as a point in space. */
  function At(p: Plane, q: UV): Vec {
    var s, t := q.s as real, q.t as real;
    Vec(p.o.x as real + s * p.u.x + t * p.v.x, p.o.y as real + s * p.u.y + t * p.v.y,
      p.o.z as real + s * p.u.z + t * p.v.z)
  }

  function Place(p: Pt): Vec { Vec(p.x as real, p.y as real, p.z as real) }

  /** A coedge's trim ends lie, on the plane, exactly at its edge's vertices. */
  ghost predicate TrimMeets(b: Brep, surf: Plane, c: Coedge) {
    && EdgeLive(b, c.edge) && VertexLive(b, b.es[c.edge.idx].v0) && VertexLive(b, b.es[c.edge.idx].v1)
    && At(surf, c.t0) == Place(b.vs[b.es[c.edge.idx].v0.idx].p)
    && At(surf, c.t1) == Place(b.vs[b.es[c.edge.idx].v1.idx].p)
  }

  ghost predicate TrimsMeetFaces(b: Brep) {
    forall f, l :: 0 <= f < |b.fas| && 0 <= l < |b.fas[f].loops| && LoopLive(b, b.fas[f].loops[l]) ==>
      LoopMeets(b, b.fas[f].surf, b.lps[b.fas[f].loops[l].idx])
  }

  ghost predicate LoopMeets(b: Brep, surf: Plane, loop: Loop) {
    forall i :: 0 <= i < |loop.ces| && CoedgeLive(b, loop.ces[i]) ==> TrimMeets(b, surf, b.ces[loop.ces[i].idx])
  }

  // ---------- Which way a face looks, and what a surface encloses ----------

  /** Twice the signed area a coedge's trim sweeps about the parameters' origin, in the coedge's sense. */
  function TrimSweep(c: Coedge): int {
    if c.fwd then c.t0.s * c.t1.t - c.t0.t * c.t1.s else c.t1.s * c.t0.t - c.t1.t * c.t0.s
  }

  /** Swept by the first n coedges of a loop. */
  function LoopSweep(b: Brep, loop: Loop, n: nat): int
    requires n <= |loop.ces|
  {
    if n == 0 then 0
    else
      var h := loop.ces[n - 1];
      LoopSweep(b, loop, n - 1) + if CoedgeLive(b, h) then TrimSweep(b.ces[h.idx]) else 0
  }

  /** Swept by the first n loops of a face. */
  function FaceSweep(b: Brep, face: Face, n: nat): int
    requires n <= |face.loops|
  {
    if n == 0 then 0
    else
      var h := face.loops[n - 1];
      FaceSweep(b, face, n - 1) + if LoopLive(b, h) then LoopSweep(b, b.lps[h.idx], |b.lps[h.idx].ces|) else 0
  }

  /** A face's boundary runs anticlockwise about its plane's normal exactly when it is marked as
      looking along that normal; no face is without area. */
  ghost predicate FacesLookOut(b: Brep) {
    forall f :: 0 <= f < |b.fas| ==>
      var sweep := FaceSweep(b, b.fas[f], |b.fas[f].loops|); sweep != 0 && (sweep > 0 <==> b.fas[f].same)
  }

  /** The plane's origin along its normal u x v. */
  function Height(p: Plane): real {
    p.o.x as real * (p.u.y * p.v.z - p.u.z * p.v.y) + p.o.y as real * (p.u.z * p.v.x - p.u.x * p.v.z)
    + p.o.z as real * (p.u.x * p.v.y - p.u.y * p.v.x)
  }

  /** What the first n faces contribute to the volume they bound, by the divergence theorem. */
  function Enclosed(b: Brep, n: nat): real
    requires n <= |b.fas|
  {
    if n == 0 then 0.0
    else
      var face := b.fas[n - 1];
      Enclosed(b, n - 1) + Height(face.surf) * FaceSweep(b, face, |face.loops|) as real / 6.0
  }

  /** One solid, in one outer shell of all faces, each face within one outer loop. */
  ghost predicate OneSolid(b: Brep) {
    && |b.sos| == 1 && |b.shs| == 1 && b.shells == []
    && |b.solids| == 1 && b.solids[0] == Handle(0, b.sos[0].gen)
    && b.sos[0].outer == Handle(0, b.shs[0].gen) && b.shs[0].outer
    && |b.shs[0].faces| == |b.fas|
    && (forall f :: 0 <= f < |b.fas| ==> b.shs[0].faces[f] == Handle(f, b.fas[f].gen))
    && (forall f :: 0 <= f < |b.fas| ==>
          |b.fas[f].loops| == 1 && LoopLive(b, b.fas[f].loops[0]) && b.lps[b.fas[f].loops[0].idx].outer)
  }
}
