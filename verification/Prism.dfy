// The parametric castellated prism: the generator, and the table it builds entry by entry.
module Prism {
  import opened BrepModel

  function Pick<T>(c: bool, a: T, b: T): T { if c then a else b }

  /** Corner i of the profile with m teeth. */
  function Corner(m: nat, i: nat): UV {
    var r := Sub(i, 3);
    var t := Sub(Sub(m, 1), r / 4);
    var ph := r % 4;
    var x := Pick(ph <= 1, 2 * t + 1, 2 * t);
    var y := Pick(ph == 0 || ph == 3, 2, 3);
    if i == 0 then UV(0, 0) else if i == 1 then UV(2 * m, 0) else if i == 2 then UV(2 * m, 2) else UV(x, y)
  }

  function Raised(k: nat, i: nat, z: int): Pt { Pt(Corner(k, i).s, Corner(k, i).t, z) }

  function Flat(p: Pt): UV { UV(p.x, p.y) }

  function Nx(n: nat, i: nat): nat
    requires n > 0
  {
    (1 + i) % n
  }

  function Vxs(c: nat, k: nat, n: nat, i: nat, b: Brep): Brep {
    if c == 0 then b
    else Vxs(c - 1, k, n, i + 1, PushVertex(b, if i < n then Raised(k, i, 0) else Raised(k, Sub(i, n), 1)))
  }

  function Hv(i: nat): Handle { Handle(i, 1 + i) }

  function PushPrismEdge(k: nat, n: nat, e: nat, b: Brep): Brep
    requires n > 0
  {
    var grp := e / n;
    var i := e % n;
    var j := Nx(n, i);
    var a := Pick(grp == 1, n + i, i);
    var z := Pick(grp == 0, j, Pick(grp == 1, n + j, n + i));
    var pa := Pick(grp == 1, Raised(k, i, 1), Raised(k, i, 0));
    var pb := Pick(grp == 0, Raised(k, j, 0), Pick(grp == 1, Raised(k, j, 1), Raised(k, i, 1)));
    PushEdge(b, Hv(a), Hv(z), pa, Dif(pa, pb))
  }

  function Eds(c: nat, k: nat, n: nat, e: nat, b: Brep): Brep
    requires n > 0
  {
    if c == 0 then b else Eds(c - 1, k, n, e + 1, PushPrismEdge(k, n, e, b))
  }

  function He(n: nat, e: nat): Handle { Handle(e, 2 * n + 1 + e) }

  function AbsInt(x: int): nat { if x < 0 then -x else x }

  /** Length of an axis-aligned side. */
  function Elen(a: Pt, b: Pt): nat { AbsInt(Dif(a, b).x) + AbsInt(Dif(a, b).y) }

  function Unit(a: Pt, b: Pt): Vec
    requires Elen(a, b) > 0
  {
    var l := Elen(a, b) as real;
    Vec(Dif(a, b).x as real / l, Dif(a, b).y as real / l, 0.0)
  }

  function PushSide(k: nat, n: nat, i: nat, b: Brep): Brep
    requires n > 0
  {
    var j := Nx(n, i);
    var l := Elen(Raised(k, i, 0), Raised(k, j, 0));
    var b1 := PushCoedge(b, He(n, i), true, UV(0, 0), UV(l, 0));
    var b2 := PushCoedge(b1, He(n, 2 * n + j), true, UV(l, 0), UV(l, 1));
    var b3 := PushCoedge(b2, He(n, n + i), false, UV(0, 1), UV(l, 1));
    PushCoedge(b3, He(n, 2 * n + i), false, UV(0, 0), UV(0, 1))
  }

  function Sides(c: nat, k: nat, n: nat, i: nat, b: Brep): Brep
    requires n > 0
  {
    if c == 0 then b else Sides(c - 1, k, n, i + 1, PushSide(k, n, i, b))
  }

  function Caps(c: nat, k: nat, n: nat, i: nat, top: bool, b: Brep): Brep
    requires n > 0
  {
    if c == 0 then b
    else
      Caps(c - 1, k, n, i + 1, top,
           PushCoedge(b, He(n, Pick(top, n + i, i)), top, Flat(Raised(k, i, 0)), Flat(Raised(k, Nx(n, i), 0))))
  }

  function Hc(n: nat, c: nat): Handle { Handle(c, 5 * n + 1 + c) }

  function SideLps(c: nat, n: nat, i: nat, b: Brep): Brep {
    if c == 0 then b
    else SideLps(c - 1, n, i + 1,
      PushLoop(b, [Hc(n, 4 * i), Hc(n, 4 * i + 1), Hc(n, 4 * i + 2), Hc(n, 4 * i + 3)], true))
  }

  function TopHcs(c: nat, n: nat, i: nat): seq<Handle> {
    if c == 0 then [] else [Hc(n, 4 * n + i)] + TopHcs(c - 1, n, i + 1)
  }

  function BotHcs(c: nat, n: nat, i: nat): seq<Handle> {
    if c == 0 then [] else [Hc(n, 5 * n + Sub(Sub(n, 1), i))] + BotHcs(c - 1, n, i + 1)
  }

  const ZZ := Vec(0.0, 0.0, 1.0)

  function Hl(n: nat, l: nat): Handle { Handle(l, 11 * n + 1 + l) }

  function Hf(n: nat, f: nat): Handle { Handle(f, 12 * n + 3 + f) }

  function Hfs(c: nat, n: nat, f: nat): seq<Handle> {
    if c == 0 then [] else [Hf(n, f)] + Hfs(c - 1, n, f + 1)
  }

  // ---------- The profile ----------

  function Size(k: nat): nat { 4 * k + 2 }

  function Next(n: nat, i: nat): nat { if i + 1 == n then 0 else i + 1 }

  lemma NxIsNext(n: nat, i: nat)
    requires i < n
    ensures Nx(n, i) == Next(n, i)
  {
    if i + 1 == n {
      assert (1 + i) % n == 0;
    }
  }

  /** The corners of one tooth, from the right, and what follows it. */
  lemma ToothCorners(k: nat, q: nat)
    requires q < k
    ensures var t := k - 1 - q;
      && Corner(k, 4 * q + 3) == UV(2 * t + 1, 2) && Corner(k, 4 * q + 4) == UV(2 * t + 1, 3)
      && Corner(k, 4 * q + 5) == UV(2 * t, 3) && (q + 1 < k ==> Corner(k, 4 * q + 6) == UV(2 * t, 2))
  {
    assert (4 * q) / 4 == q && (4 * q) % 4 == 0;
    assert (4 * q + 1) / 4 == q && (4 * q + 1) % 4 == 1;
    assert (4 * q + 2) / 4 == q && (4 * q + 2) % 4 == 2;
    assert (4 * q + 3) / 4 == q && (4 * q + 3) % 4 == 3;
  }

  /** Which corner of which tooth a corner is. */
  lemma CornerKind(k: nat, i: nat)
    requires k >= 1 && 3 <= i < Size(k)
    ensures var q, ph := (i - 3) / 4, (i - 3) % 4;
      q < k && i == 4 * q + 3 + ph && ph < 4 && (ph == 3 ==> q + 1 < k)
  {
  }

  lemma BaseCorners(k: nat)
    ensures Corner(k, 0) == UV(0, 0) && Corner(k, 1) == UV(2 * k, 0) && Corner(k, 2) == UV(2 * k, 2)
  {
  }

  predicate Aligned(a: UV, b: UV) { (a.s == b.s) != (a.t == b.t) }

  lemma ToothAligned(k: nat, q: nat, ph: nat)
    requires q < k && ph < 4 && (ph == 3 ==> q + 1 < k)
    ensures Aligned(Corner(k, 4 * q + 3 + ph), Corner(k, Next(Size(k), 4 * q + 3 + ph)))
  {
    BaseCorners(k);
    ToothCorners(k, q);
    if q + 1 < k {
      ToothCorners(k, q + 1);
    }
    hide Corner;
    if ph == 0 {
    } else if ph == 1 {
    } else if ph == 2 {
    } else {
      assert 4 * (q + 1) + 3 == 4 * q + 3 + ph + 1;
    }
  }

  /** Consecutive corners differ in exactly one coordinate. */
  lemma ProfileAligned(k: nat, i: nat)
    requires k >= 1 && i < Size(k)
    ensures Aligned(Corner(k, i), Corner(k, Next(Size(k), i)))
  {
    if i >= 3 {
      CornerKind(k, i);
      ToothAligned(k, (i - 3) / 4, (i - 3) % 4);
    } else {
      BaseCorners(k);
      ToothCorners(k, 0);
    }
  }

  function Cross(x: int, y: int, x': int, y': int): int { x * y' - y * x' }

  function CrossOf(a: UV, b: UV): int { Cross(a.s, a.t, b.s, b.t) }

  /** Twice the signed area swept by the first c sides. */
  function Swept(k: nat, c: nat): int
    requires c <= Size(k)
  {
    if c == 0 then 0 else Swept(k, c - 1) + CrossOf(Corner(k, c - 1), Corner(k, Next(Size(k), c - 1)))
  }

  lemma SweptOne(k: nat, c: nat, x: int, y: int, x': int, y': int)
    requires c < Size(k) && Corner(k, c) == UV(x, y) && Corner(k, Next(Size(k), c)) == UV(x', y')
    ensures Swept(k, c + 1) == Swept(k, c) + Cross(x, y, x', y')
  {
    hide Cross, Corner;
  }

  lemma ToothCross(t: int)
    ensures Cross(2 * t + 1, 2, 2 * t + 1, 3) == 2 * t + 1 && Cross(2 * t + 1, 3, 2 * t, 3) == 3
    ensures Cross(2 * t, 3, 2 * t, 2) == -2 * t && Cross(2 * t, 2, 2 * t - 1, 2) == 2
  {
  }

  lemma HomeCross()
    ensures Cross(0, 3, 0, 0) == 0
  {
  }

  lemma FloorCross(t: int)
    ensures Cross(0, 0, 2 * t, 0) == 0
  {
  }

  lemma WallCross(t: int)
    ensures Cross(2 * t, 0, 2 * t, 2) == 4 * t
  {
  }

  /** Three sides of a tooth, and the step down to the next or the way home. */
  lemma ToothSweeps(k: nat, q: nat)
    requires q < k
    ensures var t := k - 1 - q;
      Swept(k, 4 * q + 6) == Swept(k, 4 * q + 3) + (2 * t + 1) + 3 + (if q + 1 < k then -2 * t else 0)
  {
    hide Corner, Swept, Cross;
    var t, c := k - 1 - q, 4 * q + 3;
    ToothCorners(k, q);
    BaseCorners(k);
    ToothCross(t);
    SweptOne(k, c, 2 * t + 1, 2, 2 * t + 1, 3);
    SweptOne(k, c + 1, 2 * t + 1, 3, 2 * t, 3);
    if q + 1 < k {
      SweptOne(k, c + 2, 2 * t, 3, 2 * t, 2);
    } else {
      HomeCross();
      SweptOne(k, c + 2, 0, 3, 0, 0);
    }
  }

  lemma StepDown(k: nat, q: nat)
    requires q + 1 < k
    ensures Swept(k, 4 * q + 7) == Swept(k, 4 * q + 6) + 2
  {
    hide Corner, Swept, Cross;
    var t := k - 1 - q;
    ToothCorners(k, q);
    ToothCorners(k, q + 1);
    ToothCross(t);
    assert 4 * (q + 1) + 3 == 4 * q + 7;
    SweptOne(k, 4 * q + 6, 2 * t, 2, 2 * t - 1, 2);
  }

  lemma FloorSweeps(k: nat)
    ensures Swept(k, 1) == 0
  {
    BaseCorners(k);
    FloorCross(k);
    hide Corner, Cross;
    SweptOne(k, 0, 0, 0, 2 * k, 0);
  }

  lemma WallSweeps(k: nat)
    requires k >= 1
    ensures Swept(k, 2) == 4 * k
  {
    hide Corner, Swept, Cross;
    FloorSweeps(k);
    BaseCorners(k);
    WallCross(k);
    SweptOne(k, 1, 2 * k, 0, 2 * k, 2);
  }

  lemma BaseSweeps(k: nat)
    requires k >= 1
    ensures Swept(k, 3) == 4 * k + 2
  {
    hide Corner, Swept, Cross;
    WallSweeps(k);
    BaseCorners(k);
    ToothCorners(k, 0);
    ToothCross(k);
    SweptOne(k, 2, 2 * k, 2, 2 * k - 1, 2);
  }

  lemma {:induction false} SweptByTeeth(k: nat, q: nat)
    requires q < k
    ensures Swept(k, 4 * q + 3) == 4 * k + 2 + 6 * q
  {
    if q == 0 {
      BaseSweeps(k);
    } else {
      SweptByTeeth(k, q - 1);
      ToothSweeps(k, q - 1);
      StepDown(k, q - 1);
    }
  }

  /** The profile runs counter-clockwise around an area of 5k. */
  lemma ProfileArea(k: nat)
    requires k >= 1
    ensures Swept(k, Size(k)) == 2 * (5 * k)
  {
    SweptByTeeth(k, k - 1);
    ToothSweeps(k, k - 1);
  }

  // ---------- Faces and the whole ----------

  function PushSideFace(k: nat, i: nat, b: Brep): Brep
    requires k >= 1 && i < Size(k)
  {
    var n := Size(k);
    var p, q := Raised(k, i, 0), Raised(k, Nx(n, i), 0);
    NxIsNext(n, i);
    ProfileAligned(k, i);
    PushFace(b, Plane(p, Unit(p, q), ZZ), [Hl(n, i)], true)
  }

  function SideFas(c: nat, k: nat, i: nat, b: Brep): Brep
    requires k >= 1 && i + c <= Size(k)
  {
    if c == 0 then b else SideFas(c - 1, k, i + 1, PushSideFace(k, i, b))
  }

  /** Vertices, edges, and the uses around the sides and the caps. */
  function Skeleton(k: nat): Brep {
    var n := Size(k);
    Caps(n, k, n, 0, false, Caps(n, k, n, 0, true, Sides(n, k, n, 0, Eds(3 * n, k, n, 0, Vxs(2 * n, k, n, 0, EMPTY)))))
  }

  function WithLoops(n: nat, b: Brep): Brep {
    PushLoop(PushLoop(SideLps(n, n, 0, b), TopHcs(n, n, 0), true), BotHcs(n, n, 0), true)
  }

  const X := Vec(1.0, 0.0, 0.0)
  const Y := Vec(0.0, 1.0, 0.0)

  function WithFaces(k: nat, b: Brep): Brep
    requires k >= 1
  {
    var n := Size(k);
    var b5 := PushFace(SideFas(n, k, 0, b), Plane(Pt(0, 0, 1), X, Y), [Hl(n, n)], true);
    PushFace(b5, Plane(Pt(0, 0, 0), X, Y), [Hl(n, n + 1)], false)
  }

  function Build(k: nat): Brep
    requires k >= 1
  {
    var n := Size(k);
    var gs := 13 * n + 5;
    var b6 := WithFaces(k, WithLoops(n, Skeleton(k)));
    var b8 := PushSolid(PushShell(b6, Hfs(n + 2, n, 0), true), Handle(0, gs));
    b8.(solids := [Handle(0, gs + 1)], shells := [])
  }
}
