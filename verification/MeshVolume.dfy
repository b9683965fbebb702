// What the signed volume of a mesh is: the content of the tetrahedra that the mesh encloses.
module MeshVolume {
  import opened Counting
  import opened Meshes

  type Tetrahedron = (Index, Index, Index, Index)

  /** The outward faces of a tetrahedron with (b - a) x (c - a) . (d - a) positive. */
  function FacesOf(t: Tetrahedron): seq<Triangle> {
    [(t.0, t.2, t.1), (t.0, t.1, t.3), (t.0, t.3, t.2), (t.1, t.2, t.3)]
  }

  function AllFaces(ts: seq<Tetrahedron>): seq<Triangle> {
    if ts == [] then [] else AllFaces(ts[..|ts| - 1]) + FacesOf(ts[|ts| - 1])
  }

  /** A sixth of the product of the three edges at the first corner. */
  function Content(a: Point, b: Point, c: Point, d: Point): real {
    ((b.x - a.x) * ((c.y - a.y) * (d.z - a.z) - (c.z - a.z) * (d.y - a.y))
     - (b.y - a.y) * ((c.x - a.x) * (d.z - a.z) - (c.z - a.z) * (d.x - a.x))
     + (b.z - a.z) * ((c.x - a.x) * (d.y - a.y) - (c.y - a.y) * (d.x - a.x))) / 6.0
  }

  predicate CornersInRange(vs: seq<Point>, t: Tetrahedron) {
    Lookup(vs, t.0).Some? && Lookup(vs, t.1).Some? && Lookup(vs, t.2).Some? && Lookup(vs, t.3).Some?
  }

  predicate AllInRange(vs: seq<Point>, ts: seq<Tetrahedron>) {
    forall t :: t in ts ==> CornersInRange(vs, t)
  }

  function ContentOf(vs: seq<Point>, t: Tetrahedron): real
    requires CornersInRange(vs, t)
  {
    Content(Corner(vs, t.0), Corner(vs, t.1), Corner(vs, t.2), Corner(vs, t.3))
  }

  function Contents(vs: seq<Point>, ts: seq<Tetrahedron>): real
    requires AllInRange(vs, ts)
  {
    if ts == [] then 0.0
    else
      assert forall u :: u in ts[..|ts| - 1] ==> u in ts;
      Contents(vs, ts[..|ts| - 1]) + ContentOf(vs, ts[|ts| - 1])
  }

  /** The same triangle, begun at a least index. */
  function Turned(f: Triangle): Triangle {
    if f.0 <= f.1 && f.0 <= f.2 then f else if f.1 <= f.2 then (f.1, f.2, f.0) else (f.2, f.0, f.1)
  }

  function AllTurned(fs: seq<Triangle>): (r: seq<Triangle>)
    ensures |r| == |fs| && forall i :: 0 <= i < |fs| ==> r[i] == Turned(fs[i])
  {
    seq(|fs|, i requires 0 <= i < |fs| => Turned(fs[i]))
  }

  /** The same triangles, each seen from its other side. */
  function Flipped(fs: seq<Triangle>): (r: seq<Triangle>)
    ensures |r| == |fs| && forall i :: 0 <= i < |fs| ==> r[i] == (fs[i].0, fs[i].2, fs[i].1)
  {
    seq(|fs|, i requires 0 <= i < |fs| => (fs[i].0, fs[i].2, fs[i].1))
  }

  /** The tetrahedra fill the mesh: their faces are the mesh's triangles, and inner walls twice,
      once from either side. */
  ghost predicate Fill(fs: seq<Triangle>, ts: seq<Tetrahedron>, walls: seq<Triangle>) {
    multiset(AllTurned(AllFaces(ts))) == multiset(AllTurned(fs + walls + Flipped(walls)))
  }

  // ---------- Volumes add up ----------

  function Part(vs: seq<Point>, f: Triangle): real
    requires InRange(vs, [f])
  {
    assert f in [f];
    Triple(Corner(vs, f.0), Corner(vs, f.1), Corner(vs, f.2)) / 6.0
  }

  lemma VolumeLast(vs: seq<Point>, fs: seq<Triangle>, f: Triangle)
    ensures InRange(vs, fs + [f]) <==> InRange(vs, fs) && InRange(vs, [f])
    ensures InRange(vs, fs + [f]) ==> Volume(vs, fs + [f]) == Volume(vs, fs) + Part(vs, f)
  {
    hide Triple;
    assert (fs + [f])[..|fs|] == fs;
    assert f in [f];
  }

  lemma {:induction false} VolumeAppend(vs: seq<Point>, fs: seq<Triangle>, gs: seq<Triangle>)
    requires InRange(vs, fs) && InRange(vs, gs)
    ensures InRange(vs, fs + gs) && Volume(vs, fs + gs) == Volume(vs, fs) + Volume(vs, gs)
  {
    hide Triple;
    if gs == [] {
      assert fs + gs == fs;
    } else {
      var n := |gs| - 1;
      assert gs == gs[..n] + [gs[n]];
      VolumeLast(vs, gs[..n], gs[n]);
      VolumeAppend(vs, fs, gs[..n]);
      VolumeLast(vs, fs + gs[..n], gs[n]);
      assert fs + gs == fs + gs[..n] + [gs[n]];
    }
  }

  lemma VolumeWithout(vs: seq<Point>, fs: seq<Triangle>, k: nat)
    requires k < |fs| && InRange(vs, fs)
    ensures InRange(vs, fs[..k] + fs[k + 1..]) && InRange(vs, [fs[k]])
    ensures Volume(vs, fs) == Volume(vs, fs[..k] + fs[k + 1..]) + Part(vs, fs[k])
  {
    hide Volume, Triple;
    assert forall f :: f in fs[..k] || f in fs[k + 1..] ==> f in fs;
    assert [fs[k]][0] == fs[k];
    VolumeLast(vs, fs[..k], fs[k]);
    VolumeAppend(vs, fs[..k], fs[k + 1..]);
    VolumeAppend(vs, fs[..k] + [fs[k]], fs[k + 1..]);
    assert fs == fs[..k] + [fs[k]] + fs[k + 1..];
  }

  /** The order in which triangles are listed does not matter. */
  lemma {:induction false} VolumeOrderFree(vs: seq<Point>, fs: seq<Triangle>, gs: seq<Triangle>)
    requires InRange(vs, fs) && multiset(fs) == multiset(gs)
    ensures InRange(vs, gs) && Volume(vs, gs) == Volume(vs, fs)
    decreases |fs|
  {
    hide Triple;
    NothingCounts(fs, gs);
    forall g | g in gs ensures g in fs {
      assert g in multiset(gs);
    }
    if fs != [] {
      var n := |fs| - 1;
      var k := MatchedLast(fs, gs);
      VolumeWithout(vs, fs, n);
      assert fs[..n] + fs[n + 1..] == fs[..n];
      VolumeWithout(vs, gs, k);
      VolumeOrderFree(vs, fs[..n], gs[..k] + gs[k + 1..]);
    }
  }

  lemma TripleTurns(p: Point, q: Point, r: Point)
    ensures Triple(q, r, p) == Triple(p, q, r) && Triple(r, p, q) == Triple(p, q, r)
    ensures Triple(p, r, q) == -Triple(p, q, r)
  {
  }

  lemma PartTurns(vs: seq<Point>, f: Triangle)
    ensures InRange(vs, [Turned(f)]) <==> InRange(vs, [f])
    ensures InRange(vs, [f]) ==> Part(vs, Turned(f)) == Part(vs, f)
  {
    hide Triple;
    assert f in [f] && Turned(f) in [Turned(f)];
    if InRange(vs, [f]) {
      TripleTurns(Corner(vs, f.0), Corner(vs, f.1), Corner(vs, f.2));
    }
  }

  lemma {:induction false} VolumeTurned(vs: seq<Point>, fs: seq<Triangle>)
    ensures InRange(vs, AllTurned(fs)) <==> InRange(vs, fs)
    ensures InRange(vs, fs) ==> Volume(vs, AllTurned(fs)) == Volume(vs, fs)
  {
    hide Triple, InRange, Turned, Volume, Part;
    if fs == [] {
      assert AllTurned(fs) == fs;
    } else {
      var n := |fs| - 1;
      VolumeTurned(vs, fs[..n]);
      assert AllTurned(fs) == AllTurned(fs[..n]) + [Turned(fs[n])] && fs == fs[..n] + [fs[n]];
      VolumeLast(vs, fs[..n], fs[n]);
      VolumeLast(vs, AllTurned(fs[..n]), Turned(fs[n]));
      PartTurns(vs, fs[n]);
    }
  }

  lemma {:induction false} VolumeFlipped(vs: seq<Point>, fs: seq<Triangle>)
    requires InRange(vs, fs)
    ensures InRange(vs, Flipped(fs)) && Volume(vs, Flipped(fs)) == -Volume(vs, fs)
  {
    hide Triple;
    if fs != [] {
      var n := |fs| - 1;
      var f := fs[n];
      var g := (f.0, f.2, f.1);
      assert fs == fs[..n] + [f] && Flipped(fs) == Flipped(fs[..n]) + [g];
      VolumeLast(vs, fs[..n], f);
      VolumeFlipped(vs, fs[..n]);
      VolumeLast(vs, Flipped(fs[..n]), g);
      assert f in [f] && g in [g];
      TripleTurns(Corner(vs, f.0), Corner(vs, f.1), Corner(vs, f.2));
    }
  }

  lemma PairVolume(vs: seq<Point>, f: Triangle, g: Triangle)
    requires InRange(vs, [f]) && InRange(vs, [g])
    ensures InRange(vs, [f, g]) && Volume(vs, [f, g]) == Part(vs, f) + Part(vs, g)
  {
    hide Triple;
    VolumeLast(vs, [], f);
    VolumeLast(vs, [f], g);
    assert [] + [f] == [f] && [f] + [g] == [f, g];
  }

  lemma ContentIs(a: Point, b: Point, c: Point, d: Point)
    ensures Triple(a, c, b) / 6.0 + Triple(a, b, d) / 6.0 + Triple(a, d, c) / 6.0 + Triple(b, c, d) / 6.0
         == Content(a, b, c, d)
  {
  }

  /** Four outward faces measure the tetrahedron. */
  lemma TetrahedronVolume(vs: seq<Point>, t: Tetrahedron)
    requires CornersInRange(vs, t)
    ensures InRange(vs, FacesOf(t)) && Volume(vs, FacesOf(t)) == ContentOf(vs, t)
  {
    hide Triple, Content;
    var fs := FacesOf(t);
    PairVolume(vs, fs[0], fs[1]);
    PairVolume(vs, fs[2], fs[3]);
    VolumeAppend(vs, [fs[0], fs[1]], [fs[2], fs[3]]);
    assert fs == [fs[0], fs[1]] + [fs[2], fs[3]];
    ContentIs(Corner(vs, t.0), Corner(vs, t.1), Corner(vs, t.2), Corner(vs, t.3));
  }

  lemma {:induction false} FacesVolume(vs: seq<Point>, ts: seq<Tetrahedron>)
    requires AllInRange(vs, ts)
    ensures InRange(vs, AllFaces(ts)) && Volume(vs, AllFaces(ts)) == Contents(vs, ts)
  {
    hide Content, Triple;
    if ts != [] {
      var n := |ts| - 1;
      assert ts[n] in ts && forall t :: t in ts[..n] ==> t in ts;
      FacesVolume(vs, ts[..n]);
      TetrahedronVolume(vs, ts[n]);
      VolumeAppend(vs, AllFaces(ts[..n]), FacesOf(ts[n]));
    }
  }

  /** A mesh filled by tetrahedra has their contents together as its volume. */
  lemma FilledVolume(vs: seq<Point>, fs: seq<Triangle>, ts: seq<Tetrahedron>, walls: seq<Triangle>)
    requires AllInRange(vs, ts) && InRange(vs, fs) && InRange(vs, walls) && Fill(fs, ts, walls)
    ensures Volume(vs, fs) == Contents(vs, ts)
  {
    hide Volume, Contents, InRange, AllInRange;
    FacesVolume(vs, ts);
    VolumeFlipped(vs, walls);
    VolumeAppend(vs, fs, walls);
    VolumeAppend(vs, fs + walls, Flipped(walls));
    VolumeTurned(vs, AllFaces(ts));
    VolumeTurned(vs, fs + walls + Flipped(walls));
    VolumeOrderFree(vs, AllTurned(AllFaces(ts)), AllTurned(fs + walls + Flipped(walls)));
  }

  // ---------- A box ----------

  /** The corners of an axis-parallel box, anticlockwise from a below and then above. */
  function BoxCorners(a: Point, b: Point): seq<Point> {
    [a, Point(b.x, a.y, a.z), Point(b.x, b.y, a.z), Point(a.x, b.y, a.z),
     Point(a.x, a.y, b.z), Point(b.x, a.y, b.z), b, Point(a.x, b.y, b.z)]
  }

  /** A rectangle of corner indices, as two triangles. */
  function Quad(i: Index, j: Index, k: Index, l: Index): seq<Triangle> {
    [(i, j, k), (i, k, l)]
  }

  /** Below, above, front, right, back, left; each anticlockwise from outside. */
  function BoxFaces(): seq<Triangle> {
    Quad(0, 3, 2, 1) + Quad(4, 5, 6, 7) + Quad(0, 1, 5, 4) + Quad(1, 2, 6, 5) + Quad(2, 3, 7, 6) + Quad(3, 0, 4, 7)
  }

  lemma QuadVolume(vs: seq<Point>, i: nat, j: nat, k: nat, l: nat)
    requires i < |vs| && j < |vs| && k < |vs| && l < |vs|
    ensures InRange(vs, Quad(i, j, k, l))
    ensures Volume(vs, Quad(i, j, k, l)) == Triple(vs[i], vs[j], vs[k]) / 6.0 + Triple(vs[i], vs[k], vs[l]) / 6.0
  {
    hide Triple;
    PairVolume(vs, (i, j, k), (i, k, l));
  }

  /** Twice the signed area of a triangle in a plane. */
  function Turn(x: real, y: real, x': real, y': real, x'': real, y'': real): real {
    x * (y' - y'') - y * (x' - x'') + (x' * y'' - y' * x'')
  }

  /** A triangle across an axis contributes its doubled area times its distance from the origin. */
  lemma AcrossAxis(d: real, x: real, y: real, x': real, y': real, x'': real, y'': real)
    ensures Triple(Point(d, x, y), Point(d, x', y'), Point(d, x'', y'')) == d * Turn(x, y, x', y', x'', y'')
    ensures Triple(Point(x, d, y), Point(x', d, y'), Point(x'', d, y'')) == -d * Turn(x, y, x', y', x'', y'')
    ensures Triple(Point(x, y, d), Point(x', y', d), Point(x'', y'', d)) == d * Turn(x, y, x', y', x'', y'')
  {
    assert d * Turn(x, y, x', y', x'', y'')
        == d * (x * (y' - y'')) - d * (y * (x' - x'')) + d * (x' * y'' - y' * x'');
    assert y' * d - d * y'' == d * (y' - y'') && x' * d - d * x'' == d * (x' - x'');
    assert x * (d * (y' - y'')) == d * (x * (y' - y'')) && y * (d * (x' - x'')) == d * (y * (x' - x''));
  }

  /** Half a rectangle, by either diagonal, anticlockwise and clockwise. */
  lemma HalfRectangle(x: real, y: real, t: real, v: real)
    ensures Turn(x, y, t, y, t, v) == (t - x) * (v - y) && Turn(x, y, t, v, x, v) == (t - x) * (v - y)
    ensures Turn(x, y, x, v, t, v) == -((t - x) * (v - y)) && Turn(x, y, t, v, t, y) == -((t - x) * (v - y))
  {
    assert (t - x) * (v - y) == t * v - t * y - x * v + x * y;
  }

  lemma TwoHalves(d: real, s: real)
    ensures (d * s) / 6.0 + (d * s) / 6.0 == d * s / 3.0
    ensures (d * -s) / 6.0 + (d * -s) / 6.0 == -d * s / 3.0
    ensures (-d * s) / 6.0 + (-d * s) / 6.0 == -d * s / 3.0
  {
    assert d * -s == -(d * s) && -d * s == -(d * s);
  }

  lemma AcrossX(x: real, y: real, z: real, v: real, u: real)
    ensures Triple(Point(x, y, z), Point(x, v, z), Point(x, v, u)) / 6.0
          + Triple(Point(x, y, z), Point(x, v, u), Point(x, y, u)) / 6.0 == x * ((v - y) * (u - z)) / 3.0
  {
    AcrossAxis(x, y, z, v, z, v, u);
    AcrossAxis(x, y, z, v, u, y, u);
    HalfRectangle(y, z, v, u);
    hide Triple, Turn;
    TwoHalves(x, (v - y) * (u - z));
  }

  lemma AcrossY(y: real, x: real, z: real, t: real, u: real)
    ensures Triple(Point(x, y, z), Point(t, y, z), Point(t, y, u)) / 6.0
          + Triple(Point(x, y, z), Point(t, y, u), Point(x, y, u)) / 6.0 == -y * ((t - x) * (u - z)) / 3.0
  {
    AcrossAxis(y, x, z, t, z, t, u);
    AcrossAxis(y, x, z, t, u, x, u);
    HalfRectangle(x, z, t, u);
    hide Triple, Turn;
    TwoHalves(y, (t - x) * (u - z));
  }

  lemma AcrossZ(z: real, x: real, y: real, t: real, v: real)
    ensures Triple(Point(x, y, z), Point(t, y, z), Point(t, v, z)) / 6.0
          + Triple(Point(x, y, z), Point(t, v, z), Point(x, v, z)) / 6.0 == z * ((t - x) * (v - y)) / 3.0
    ensures Triple(Point(x, y, z), Point(x, v, z), Point(t, v, z)) / 6.0
          + Triple(Point(x, y, z), Point(t, v, z), Point(t, y, z)) / 6.0 == -z * ((t - x) * (v - y)) / 3.0
  {
    AcrossAxis(z, x, y, t, y, t, v);
    AcrossAxis(z, x, y, t, v, x, v);
    AcrossAxis(z, x, y, x, v, t, v);
    AcrossAxis(z, x, y, t, v, t, y);
    HalfRectangle(x, y, t, v);
    hide Triple, Turn;
    TwoHalves(z, (t - x) * (v - y));
  }

  /** Twelve outward triangles measure a box: length times width times height. */
  lemma BoxVolume(a: Point, b: Point)
    ensures InRange(BoxCorners(a, b), BoxFaces())
    ensures Volume(BoxCorners(a, b), BoxFaces()) == (b.x - a.x) * (b.y - a.y) * (b.z - a.z)
  {
    hide Triple, Volume, InRange, Quad;
    var vs := BoxCorners(a, b);
    QuadVolume(vs, 0, 3, 2, 1);
    QuadVolume(vs, 4, 5, 6, 7);
    QuadVolume(vs, 0, 1, 5, 4);
    QuadVolume(vs, 1, 2, 6, 5);
    QuadVolume(vs, 2, 3, 7, 6);
    QuadVolume(vs, 3, 0, 4, 7);
    AcrossZ(a.z, a.x, a.y, b.x, b.y);
    AcrossZ(b.z, a.x, a.y, b.x, b.y);
    AcrossY(a.y, a.x, a.z, b.x, b.z);
    AcrossX(b.x, a.y, a.z, b.y, b.z);
    AcrossY(b.y, b.x, a.z, a.x, b.z);
    AcrossX(a.x, b.y, a.z, a.y, b.z);
    var s := Quad(0, 3, 2, 1);
    VolumeAppend(vs, s, Quad(4, 5, 6, 7));
    s := s + Quad(4, 5, 6, 7);
    VolumeAppend(vs, s, Quad(0, 1, 5, 4));
    s := s + Quad(0, 1, 5, 4);
    VolumeAppend(vs, s, Quad(1, 2, 6, 5));
    s := s + Quad(1, 2, 6, 5);
    VolumeAppend(vs, s, Quad(2, 3, 7, 6));
    s := s + Quad(2, 3, 7, 6);
    VolumeAppend(vs, s, Quad(3, 0, 4, 7));
    Product(a, b);
  }

  lemma Product(a: Point, b: Point)
    ensures -a.z * ((b.x - a.x) * (b.y - a.y)) / 3.0 + b.z * ((b.x - a.x) * (b.y - a.y)) / 3.0
          + -a.y * ((b.x - a.x) * (b.z - a.z)) / 3.0 + b.x * ((b.y - a.y) * (b.z - a.z)) / 3.0
          + -b.y * ((a.x - b.x) * (b.z - a.z)) / 3.0 + a.x * ((a.y - b.y) * (b.z - a.z)) / 3.0
         == (b.x - a.x) * (b.y - a.y) * (b.z - a.z)
  {
    var l, w, h := b.x - a.x, b.y - a.y, b.z - a.z;
    Slab(a.z, b.z, l * w);
    Slab(a.y, b.y, l * h);
    Slab(a.x, b.x, w * h);
    assert -b.y * ((a.x - b.x) * h) == b.y * (l * h) && a.x * ((a.y - b.y) * h) == -a.x * (w * h) by {
      assert (a.x - b.x) * h == -(l * h) && (a.y - b.y) * h == -(w * h);
    }
    assert h * (l * w) == l * w * h && w * (l * h) == l * w * h && l * (w * h) == l * w * h;
  }

  lemma Slab(lo: real, hi: real, s: real)
    ensures -lo * s / 3.0 + hi * s / 3.0 == (hi - lo) * s / 3.0
  {
  }
}
