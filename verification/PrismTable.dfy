// The table the prism generator builds, entry by entry.
module PrismTable {
  import opened BrepModel
  import opened Prism

  // ---------- Each entry ----------

  function VertexAt(k: nat, i: nat): Vertex {
    var n := Size(k);
    Vertex(1 + i, if i < n then Raised(k, i, 0) else Raised(k, i - n, 1))
  }

  /** Bottom edges, then top edges, then uprights. */
  function EdgeAt(k: nat, e: nat): Edge
    requires e < 3 * Size(k)
  {
    var n := Size(k);
    var i := if e < n then e else if e < 2 * n then e - n else e - 2 * n;
    var j := Next(n, i);
    var a := if n <= e < 2 * n then n + i else i;
    var z := if e < n then j else if e < 2 * n then n + j else n + i;
    Edge(2 * n + 1 + e, Hv(a), Hv(z), VertexAt(k, a).p, Dif(VertexAt(k, a).p, VertexAt(k, z).p))
  }

  function SideLength(k: nat, i: nat): nat {
    Elen(Raised(k, i, 0), Raised(k, Next(Size(k), i), 0))
  }

  /** The four uses around side i, then the top cap, then the bottom cap. */
  function CoedgeAt(k: nat, c: nat): Coedge
    requires c < 6 * Size(k)
  {
    var n := Size(k);
    var gen := 5 * n + 1 + c;
    if c < 4 * n then
      var i, r := c / 4, c % 4;
      var l := SideLength(k, i);
      if r == 0 then Coedge(gen, He(n, i), true, UV(0, 0), UV(l, 0))
      else if r == 1 then Coedge(gen, He(n, 2 * n + Next(n, i)), true, UV(l, 0), UV(l, 1))
      else if r == 2 then Coedge(gen, He(n, n + i), false, UV(0, 1), UV(l, 1))
      else Coedge(gen, He(n, 2 * n + i), false, UV(0, 0), UV(0, 1))
    else if c < 5 * n then
      Coedge(gen, He(n, n + (c - 4 * n)), true, Corner(k, c - 4 * n), Corner(k, Next(n, c - 4 * n)))
    else
      Coedge(gen, He(n, c - 5 * n), false, Corner(k, c - 5 * n), Corner(k, Next(n, c - 5 * n)))
  }

  function LoopAt(k: nat, l: nat): Loop
    requires l < Size(k) + 2
  {
    var n := Size(k);
    Loop(11 * n + 1 + l,
         if l < n then [Hc(n, 4 * l), Hc(n, 4 * l + 1), Hc(n, 4 * l + 2), Hc(n, 4 * l + 3)]
         else if l == n then TopHcs(n, n, 0) else BotHcs(n, n, 0), true)
  }

  function FaceAt(k: nat, f: nat): Face
    requires k >= 1 && f < Size(k) + 2
  {
    var n := Size(k);
    if f < n then
      ProfileAligned(k, f);
      Face(12 * n + 3 + f, Plane(Raised(k, f, 0), Unit(Raised(k, f, 0), Raised(k, Next(n, f), 0)), ZZ), [Hl(n, f)],
        true)
    else if f == n then Face(13 * n + 3, Plane(Pt(0, 0, 1), X, Y), [Hl(n, n)], true)
    else Face(13 * n + 4, Plane(Pt(0, 0, 0), X, Y), [Hl(n, n + 1)], false)
  }

  ghost predicate VerticesAre(k: nat, vs: seq<Vertex>, c: nat) {
    |vs| == c && forall i :: 0 <= i < c ==> vs[i] == VertexAt(k, i)
  }

  ghost predicate EdgesAre(k: nat, es: seq<Edge>, c: nat) {
    |es| == c <= 3 * Size(k) && forall e :: 0 <= e < c ==> es[e] == EdgeAt(k, e)
  }

  ghost predicate CoedgesAre(k: nat, ces: seq<Coedge>, c: nat) {
    |ces| == c <= 6 * Size(k) && forall i :: 0 <= i < c ==> ces[i] == CoedgeAt(k, i)
  }

  ghost predicate LoopsAre(k: nat, lps: seq<Loop>, c: nat) {
    |lps| == c <= Size(k) + 2 && forall l :: 0 <= l < c ==> lps[l] == LoopAt(k, l)
  }

  ghost predicate FacesAre(k: nat, fas: seq<Face>, c: nat)
    requires k >= 1
  {
    |fas| == c <= Size(k) + 2 && forall f :: 0 <= f < c ==> fas[f] == FaceAt(k, f)
  }

  // ---------- Each stage ----------

  lemma {:induction false} VxsFill(c: nat, k: nat, i: nat, b: Brep)
    requires VerticesAre(k, b.vs, i) && b.stamp == i
    ensures var r := Vxs(c, k, Size(k), i, b); VerticesAre(k, r.vs, i + c) && r == b.(vs := r.vs, stamp := i + c)
    decreases c
  {
    hide Size, Corner;
    if c > 0 {
      VxsFill(c - 1, k, i + 1, PushVertex(b, if i < Size(k) then Raised(k, i, 0) else Raised(k, Sub(i, Size(k)), 1)));
    }
  }

  lemma BelowOne(n: int, x: int)
    requires -n < n * x < n
    ensures x == 0
  {
    assert x >= 1 ==> n * x >= n;
    assert x <= -1 ==> n * x <= -n;
  }

  lemma Quotient(n: nat, e: nat, q: nat, i: nat)
    requires i < n && e == q * n + i
    ensures e / n == q && e % n == i
  {
    assert e == n * (e / n) + e % n;
    assert n * (e / n - q) == i - e % n;
    BelowOne(n, e / n - q);
  }

  /** Which of the three rows an edge is in, and its place there. */
  lemma EdgeRow(n: nat, e: nat)
    requires e < 3 * n
    ensures e / n == (if e < n then 0 else if e < 2 * n then 1 else 2)
    ensures e % n == (if e < n then e else if e < 2 * n then e - n else e - 2 * n)
    ensures Nx(n, e % n) == Next(n, e % n)
  {
    var q := if e < n then 0 else if e < 2 * n then 1 else 2;
    Quotient(n, e, q, e - q * n);
    NxIsNext(n, e - q * n);
  }

  lemma EdgePushed(k: nat, e: nat, b: Brep)
    requires e < 3 * Size(k) && b.stamp == 2 * Size(k) + e
    ensures PushPrismEdge(k, Size(k), e, b) == b.(es := b.es + [EdgeAt(k, e)], stamp := b.stamp + 1)
  {
    hide Corner, Nx, Dif, Raised;
    EdgeRow(Size(k), e);
  }

  lemma OneMoreEdge(k: nat, es: seq<Edge>, e: nat)
    requires EdgesAre(k, es, e) && e < 3 * Size(k)
    ensures EdgesAre(k, es + [EdgeAt(k, e)], e + 1)
  {
    hide EdgeAt;
  }

  lemma EdgeStep(k: nat, e: nat, b: Brep)
    requires EdgesAre(k, b.es, e) && b.stamp == 2 * Size(k) + e && e < 3 * Size(k)
    ensures var r := PushPrismEdge(k, Size(k), e, b);
            EdgesAre(k, r.es, e + 1) && r == b.(es := r.es, stamp := b.stamp + 1)
  {
    EdgePushed(k, e, b);
    OneMoreEdge(k, b.es, e);
    hide EdgesAre, EdgeAt, PushPrismEdge, Size;
  }

  lemma {:induction false} EdsFill(c: nat, k: nat, e: nat, b: Brep)
    requires EdgesAre(k, b.es, e) && b.stamp == 2 * Size(k) + e && e + c <= 3 * Size(k)
    ensures var r := Eds(c, k, Size(k), e, b); EdgesAre(k, r.es, e + c) && r == b.(es := r.es, stamp := b.stamp + c)
    decreases c
  {
    hide EdgesAre, PushPrismEdge;
    if c > 0 {
      EdgeStep(k, e, b);
      EdsFill(c - 1, k, e + 1, PushPrismEdge(k, Size(k), e, b));
    }
  }

  lemma SidePushed(k: nat, i: nat, b: Brep)
    requires i < Size(k) && b.stamp == 5 * Size(k) + 4 * i
    ensures PushSide(k, Size(k), i, b) ==
      b.(ces := b.ces + [CoedgeAt(k, 4 * i), CoedgeAt(k, 4 * i + 1), CoedgeAt(k, 4 * i + 2), CoedgeAt(k, 4 * i + 3)],
         stamp := b.stamp + 4)
  {
    hide Corner, Elen, Raised, Nx, Next, CoedgeAt, Size;
    var n, l := Size(k), SideLength(k, i);
    NxIsNext(n, i);
    SideQuarter(k, i);
    FourPushes(b, Coedge(0, He(n, i), true, UV(0, 0), UV(l, 0)),
               Coedge(0, He(n, 2 * n + Next(n, i)), true, UV(l, 0), UV(l, 1)),
               Coedge(0, He(n, n + i), false, UV(0, 1), UV(l, 1)),
               Coedge(0, He(n, 2 * n + i), false, UV(0, 0), UV(0, 1)));
    hide PushCoedge;
  }

  function Pushed(b: Brep, c: Coedge): Brep { PushCoedge(b, c.edge, c.fwd, c.t0, c.t1) }

  lemma FourPushes(b: Brep, c0: Coedge, c1: Coedge, c2: Coedge, c3: Coedge)
    ensures Pushed(Pushed(Pushed(Pushed(b, c0), c1), c2), c3) ==
      b.(ces := b.ces + [c0.(gen := b.stamp + 1), c1.(gen := b.stamp + 2), c2.(gen := b.stamp + 3),
                         c3.(gen := b.stamp + 4)],
         stamp := b.stamp + 4)
  {
    var s := b.stamp;
    assert b.ces + [c0.(gen := s + 1)] + [c1.(gen := s + 2)] + [c2.(gen := s + 3)] + [c3.(gen := s + 4)] ==
      b.ces + [c0.(gen := s + 1), c1.(gen := s + 2), c2.(gen := s + 3), c3.(gen := s + 4)];
  }

  /** The four uses around side i. */
  lemma SideQuarter(k: nat, i: nat)
    requires i < Size(k)
    ensures var n, l := Size(k), SideLength(k, i); var gen := 5 * n + 1 + 4 * i;
      && CoedgeAt(k, 4 * i) == Coedge(gen, He(n, i), true, UV(0, 0), UV(l, 0))
      && CoedgeAt(k, 4 * i + 1) == Coedge(gen + 1, He(n, 2 * n + Next(n, i)), true, UV(l, 0), UV(l, 1))
      && CoedgeAt(k, 4 * i + 2) == Coedge(gen + 2, He(n, n + i), false, UV(0, 1), UV(l, 1))
      && CoedgeAt(k, 4 * i + 3) == Coedge(gen + 3, He(n, 2 * n + i), false, UV(0, 0), UV(0, 1))
  {
    hide Corner, SideLength;
    assert (4 * i) / 4 == i && (4 * i + 1) / 4 == i && (4 * i + 2) / 4 == i && (4 * i + 3) / 4 == i;
  }

  lemma FourMoreCoedges(k: nat, ces: seq<Coedge>, c: nat)
    requires CoedgesAre(k, ces, c) && c + 4 <= 6 * Size(k)
    ensures CoedgesAre(k, ces + [CoedgeAt(k, c), CoedgeAt(k, c + 1), CoedgeAt(k, c + 2), CoedgeAt(k, c + 3)], c + 4)
  {
    hide CoedgeAt;
  }

  lemma OneMoreSide(k: nat, i: nat, b: Brep)
    requires CoedgesAre(k, b.ces, 4 * i) && b.stamp == 5 * Size(k) + 4 * i && i < Size(k)
    ensures var r := PushSide(k, Size(k), i, b);
            CoedgesAre(k, r.ces, 4 * (i + 1)) && r == b.(ces := r.ces, stamp := b.stamp + 4)
  {
    SidePushed(k, i, b);
    FourMoreCoedges(k, b.ces, 4 * i);
    hide CoedgesAre, CoedgeAt, PushSide;
    assert 4 * i + 4 == 4 * (i + 1);
  }

  lemma {:induction false} SidesFill(c: nat, k: nat, i: nat, b: Brep)
    requires CoedgesAre(k, b.ces, 4 * i) && b.stamp == 5 * Size(k) + 4 * i && i + c <= Size(k)
    ensures var r := Sides(c, k, Size(k), i, b);
            CoedgesAre(k, r.ces, 4 * (i + c)) && r == b.(ces := r.ces, stamp := b.stamp + 4 * c)
    decreases c
  {
    hide CoedgesAre, PushSide;
    if c > 0 {
      OneMoreSide(k, i, b);
      SidesFill(c - 1, k, i + 1, PushSide(k, Size(k), i, b));
    }
  }

  lemma {:induction false} CapsFill(c: nat, k: nat, i: nat, top: bool, b: Brep)
    requires var n := Size(k); var at := if top then 4 * n + i else 5 * n + i;
      CoedgesAre(k, b.ces, at) && b.stamp == 5 * n + at && i + c <= n
    ensures var n := Size(k); var at := if top then 4 * n + i else 5 * n + i; var r := Caps(c, k, n, i, top, b);
      CoedgesAre(k, r.ces, at + c) && r == b.(ces := r.ces, stamp := b.stamp + c)
    decreases c
  {
    hide Corner, Size;
    if c > 0 {
      var n := Size(k);
      NxIsNext(n, i);
      CapsFill(c - 1, k, i + 1, top,
               PushCoedge(b, He(n, Pick(top, n + i, i)), top, Flat(Raised(k, i, 0)), Flat(Raised(k, Nx(n, i), 0))));
    }
  }

  lemma {:induction false} SideLpsFill(c: nat, k: nat, i: nat, b: Brep)
    requires LoopsAre(k, b.lps, i) && b.stamp == 11 * Size(k) + i && i + c <= Size(k)
    ensures var r := SideLps(c, Size(k), i, b); LoopsAre(k, r.lps, i + c) && r == b.(lps := r.lps, stamp := b.stamp + c)
    decreases c
  {
    hide Size;
    if c > 0 {
      var n := Size(k);
      SideLpsFill(c - 1, k, i + 1,
        PushLoop(b, [Hc(n, 4 * i), Hc(n, 4 * i + 1), Hc(n, 4 * i + 2), Hc(n, 4 * i + 3)], true));
    }
  }

  lemma {:induction false} SideFasFill(c: nat, k: nat, i: nat, b: Brep)
    requires k >= 1 && i + c <= Size(k) && FacesAre(k, b.fas, i) && b.stamp == 12 * Size(k) + 2 + i
    ensures var r := SideFas(c, k, i, b); FacesAre(k, r.fas, i + c) && r == b.(fas := r.fas, stamp := b.stamp + c)
    decreases c
  {
    hide Corner, Unit;
    if c > 0 {
      NxIsNext(Size(k), i);
      SideFasFill(c - 1, k, i + 1, PushSideFace(k, i, b));
    }
  }

  /** Everything the generator returns. */
  ghost predicate IsPrism(k: nat, b: Brep)
    requires k >= 1
  {
    var n := Size(k);
    && VerticesAre(k, b.vs, 2 * n) && EdgesAre(k, b.es, 3 * n) && CoedgesAre(k, b.ces, 6 * n)
    && LoopsAre(k, b.lps, n + 2) && FacesAre(k, b.fas, n + 2)
    && b.shs == [Shell(13 * n + 5, Hfs(n + 2, n, 0), true)] && b.sos == [Solid(13 * n + 6, Handle(0, 13 * n + 5))]
    && b.solids == [Handle(0, 13 * n + 6)] && b.shells == [] && b.stamp == 13 * n + 6
  }

  lemma SkeletonIs(k: nat)
    ensures var n := Size(k); var b := Skeleton(k);
      && VerticesAre(k, b.vs, 2 * n) && EdgesAre(k, b.es, 3 * n) && CoedgesAre(k, b.ces, 6 * n)
      && b == EMPTY.(vs := b.vs, es := b.es, ces := b.ces, stamp := 11 * n)
  {
    var n := Size(k);
    var v := Vxs(2 * n, k, n, 0, EMPTY);
    VxsFill(2 * n, k, 0, EMPTY);
    hide Vxs, Eds, Sides, Caps, VertexAt, EdgeAt, CoedgeAt, VerticesAre;
    var e := Eds(3 * n, k, n, 0, v);
    EdsFill(3 * n, k, 0, v);
    hide EdgesAre;
    var s := Sides(n, k, n, 0, e);
    SidesFill(n, k, 0, e);
    hide CoedgesAre;
    var t := Caps(n, k, n, 0, true, s);
    CapsFill(n, k, 0, true, s);
    CapsFill(n, k, 0, false, t);
  }

  lemma OneMoreLoop(k: nat, lps: seq<Loop>, l: nat)
    requires l < Size(k) + 2 && LoopsAre(k, lps, l)
    ensures LoopsAre(k, lps + [LoopAt(k, l)], l + 1)
  {
    hide LoopAt;
  }

  lemma LoopPushed(k: nat, l: nat, b: Brep, ces: seq<Handle>)
    requires l < Size(k) + 2 && LoopsAre(k, b.lps, l) && b.stamp == 11 * Size(k) + l && ces == LoopAt(k, l).ces
    ensures var r := PushLoop(b, ces, true); LoopsAre(k, r.lps, l + 1) && r == b.(lps := r.lps, stamp := b.stamp + 1)
  {
    OneMoreLoop(k, b.lps, l);
    hide LoopsAre, TopHcs, BotHcs;
  }

  lemma LoopsComplete(k: nat, b: Brep)
    requires b.lps == [] && b.stamp == 11 * Size(k)
    ensures var n := Size(k); var r := WithLoops(n, b);
      LoopsAre(k, r.lps, n + 2) && r == b.(lps := r.lps, stamp := 12 * n + 2)
  {
    SideLpsFill(Size(k), k, 0, b);
    hide SideLps, TopHcs, BotHcs, LoopsAre, Size, PushLoop;
    var n := Size(k);
    var s := SideLps(n, n, 0, b);
    LoopPushed(k, n, s, TopHcs(n, n, 0));
    LoopPushed(k, n + 1, PushLoop(s, TopHcs(n, n, 0), true), BotHcs(n, n, 0));
  }

  lemma OneMoreFace(k: nat, fas: seq<Face>, f: nat)
    requires k >= 1 && f < Size(k) + 2 && FacesAre(k, fas, f)
    ensures FacesAre(k, fas + [FaceAt(k, f)], f + 1)
  {
    hide FaceAt;
  }

  lemma FacePushed(k: nat, f: nat, b: Brep, surf: Plane, loops: seq<Handle>, same: bool)
    requires k >= 1 && f < Size(k) + 2 && FacesAre(k, b.fas, f) && FaceAt(k, f) == Face(b.stamp + 1, surf, loops, same)
    ensures var r := PushFace(b, surf, loops, same);
            FacesAre(k, r.fas, f + 1) && r == b.(fas := r.fas, stamp := b.stamp + 1)
  {
    hide FaceAt, FacesAre;
    OneMoreFace(k, b.fas, f);
  }

  lemma FacesComplete(k: nat, b: Brep)
    requires k >= 1 && b.fas == [] && b.stamp == 12 * Size(k) + 2
    ensures var n := Size(k); var r := WithFaces(k, b);
      FacesAre(k, r.fas, n + 2) && r == b.(fas := r.fas, stamp := 13 * n + 4)
  {
    SideFasFill(Size(k), k, 0, b);
    hide SideFas, FacesAre, PushFace, Size;
    var n := Size(k);
    var f := SideFas(n, k, 0, b);
    FacePushed(k, n, f, Plane(Pt(0, 0, 1), X, Y), [Hl(n, n)], true);
    var g := PushFace(f, Plane(Pt(0, 0, 1), X, Y), [Hl(n, n)], true);
    FacePushed(k, n + 1, g, Plane(Pt(0, 0, 0), X, Y), [Hl(n, n + 1)], false);
  }

  /** The generator builds exactly this table. */
  lemma BuildIsPrism(k: nat)
    requires k >= 1
    ensures IsPrism(k, Build(k))
  {
    var n := Size(k);
    hide Skeleton, WithLoops, WithFaces, Hfs, VerticesAre, EdgesAre, CoedgesAre, LoopsAre, FacesAre, Size;
    SkeletonIs(k);
    LoopsComplete(k, Skeleton(k));
    FacesComplete(k, WithLoops(n, Skeleton(k)));
  }
}
