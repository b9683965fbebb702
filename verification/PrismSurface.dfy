// The prism is a closed, connected, consistently oriented surface without pinches, for every size.
module PrismSurface {
  import opened BrepModel
  import opened Prism
  import opened PrismTable
  import opened PrismLaws
  import opened PrismOutward

  // ---------- The faces around a vertex ----------

  /** The vertex a coedge starts from. */
  function StartIn(n: nat, c: nat): int {
    if c < 4 * n then
      var i, r := c / 4, c % 4;
      if r == 0 then i else if r == 1 then Next(n, i) else if r == 2 then n + Next(n, i) else n + i
    else if c < 5 * n then n + (c - 4 * n)
    else Next(n, c - 5 * n)
  }

  lemma CornerStarts(k: nat, l: nat, i: nat)
    requires l < Size(k) + 2 && i < LoopSize(Size(k), l)
    ensures var c := CoedgeIn(Size(k), l, i);
            0 <= c < 6 * Size(k) && CornerAt(k, l, i).0 == StartIn(Size(k), c)
  {
    hide Corner, SideLength, Size;
  }

  lemma CoedgeStarts(k: nat, b: Brep, c: nat)
    requires k >= 1 && IsPrism(k, b) && c < 6 * Size(k)
    ensures c < |b.ces| && EdgeLive(b, b.ces[c].edge) && StartOf(b, b.ces[c]).0.idx == StartIn(Size(k), c)
  {
    hide IsPrism, CornerAt, StartOf, CoedgeIn, PlaceOf, StartIn;
    var n := Size(k);
    PlaceFound(n, c);
    var (l, i) := PlaceOf(n, c);
    Counts(k, b);
    LoopCount(k, b, l);
    OneRuns(k, b, l, i);
    LoopHandles(k, b, l, i);
    CornerStarts(k, l, i);
  }

  lemma Counts(k: nat, b: Brep)
    requires k >= 1 && IsPrism(k, b)
    ensures |b.vs| == 2 * Size(k) && |b.es| == 3 * Size(k) && |b.ces| == 6 * Size(k)
    ensures |b.lps| == Size(k) + 2 == |b.fas|
  {
  }

  lemma LoopCount(k: nat, b: Brep, l: nat)
    requires k >= 1 && IsPrism(k, b) && l < Size(k) + 2
    ensures l < |b.lps| && |b.lps[l].ces| == LoopSize(Size(k), l)
  {
    hide TopHcs, BotHcs;
    assert b.lps[l] == LoopAt(k, l);
    LoopHolds(k, l, 0);
  }

  /** In the table, place i of loop l holds its coedge and the next place the next. */
  lemma LeadsIn(k: nat, b: Brep, l: nat, i: nat)
    requires k >= 1 && IsPrism(k, b) && l < Size(k) + 2 && i < LoopSize(Size(k), l)
    ensures var n := Size(k);
            Leads(b, CoedgeIn(n, l, i), CoedgeIn(n, l, After(LoopSize(n, l), i)), l, i)
  {
    hide IsPrism, CoedgeIn;
    LoopCount(k, b, l);
    LoopHandles(k, b, l, i);
    LoopHandles(k, b, l, After(LoopSize(Size(k), l), i));
  }

  lemma OpposedIn(k: nat, b: Brep, c: nat, d: nat)
    requires k >= 1 && IsPrism(k, b) && c < 6 * Size(k) && d < 6 * Size(k)
    requires EdgeIn(Size(k), c) == EdgeIn(Size(k), d) && SenseIn(Size(k), c) != SenseIn(Size(k), d)
    ensures Opposed(b, c, d)
  {
    Counts(k, b);
    CoedgeHandles(k, b, c);
    CoedgeHandles(k, b, d);
    CoedgeEdge(k, c);
    CoedgeEdge(k, d);
    hide CoedgeAt, IsPrism, EdgeIn, SenseIn;
  }

  lemma TurnsIn(k: nat, b: Brep, l: nat, i: nat, d: nat)
    requires k >= 1 && IsPrism(k, b) && l < Size(k) + 2 && i < LoopSize(Size(k), l) && d < 6 * Size(k)
    requires 0 <= CoedgeIn(Size(k), l, i) < 6 * Size(k)
    requires EdgeIn(Size(k), CoedgeIn(Size(k), l, i)) == EdgeIn(Size(k), d)
    requires SenseIn(Size(k), CoedgeIn(Size(k), l, i)) != SenseIn(Size(k), d)
    ensures TurnsTo(b, CoedgeIn(Size(k), l, After(LoopSize(Size(k), l), i)), d)
  {
    hide IsPrism, CoedgeIn, EdgeIn, SenseIn;
    LeadsIn(k, b, l, i);
    OpposedIn(k, b, CoedgeIn(Size(k), l, i), d);
  }

  /** Around a bottom vertex: the side after it, the side before it, the bottom. */
  function LowFan(n: nat, i: nat): seq<int> {
    [4 * i, 4 * Prev(n, i) + 1, 5 * n + Prev(n, i)]
  }

  /** Around a top vertex: the side after it, the top, the side before it. */
  function HighFan(n: nat, i: nat): seq<int> {
    [4 * i + 3, 4 * n + i, 4 * Prev(n, i) + 2]
  }

  lemma FanStarts(n: nat, i: nat, c: nat)
    requires n > 1 && i < n && c < 6 * n
    ensures StartIn(n, c) == i <==> c in LowFan(n, i)
    ensures StartIn(n, c) == n + i <==> c in HighFan(n, i)
  {
    LowStarts(n, i, c);
    HighStarts(n, i, c);
  }

  lemma LowStarts(n: nat, i: nat, c: nat)
    requires n > 1 && i < n && c < 6 * n
    ensures StartIn(n, c) == i <==> c in LowFan(n, i)
  {
    assert c == 4 * (c / 4) + c % 4;
  }

  lemma HighStarts(n: nat, i: nat, c: nat)
    requires n > 1 && i < n && c < 6 * n
    ensures StartIn(n, c) == n + i <==> c in HighFan(n, i)
  {
    assert c == 4 * (c / 4) + c % 4;
  }

  lemma LowTurns(k: nat, b: Brep, i: nat)
    requires k >= 1 && IsPrism(k, b) && i < Size(k)
    ensures var cs := LowFan(Size(k), i);
            TurnsTo(b, cs[0], cs[1]) && TurnsTo(b, cs[1], cs[2]) && TurnsTo(b, cs[2], cs[0])
  {
    hide IsPrism, TurnsTo, Size, EdgeIn, SenseIn, CoedgeIn;
    var n, p := Size(k), Prev(Size(k), i);
    SizeIs(k);
    NextOfPrev(n, i);
    SideIn(n, i);
    SideIn(n, p);
    CapIn(n, i);
    CapIn(n, p);
    PlacesIn(n, i);
    PlacesIn(n, p);
    TurnsIn(k, b, i, 3, 4 * p + 1);
    TurnsIn(k, b, p, 0, 5 * n + p);
    TurnsIn(k, b, n + 1, n - 1 - i, 4 * i);
  }

  lemma HighTurns(k: nat, b: Brep, i: nat)
    requires k >= 1 && IsPrism(k, b) && i < Size(k)
    ensures var cs := HighFan(Size(k), i);
            TurnsTo(b, cs[0], cs[1]) && TurnsTo(b, cs[1], cs[2]) && TurnsTo(b, cs[2], cs[0])
  {
    hide IsPrism, TurnsTo, Size, EdgeIn, SenseIn, CoedgeIn;
    var n, p := Size(k), Prev(Size(k), i);
    SizeIs(k);
    NextOfPrev(n, i);
    SideIn(n, i);
    SideIn(n, p);
    CapIn(n, i);
    CapIn(n, p);
    PlacesIn(n, i);
    PlacesIn(n, p);
    TurnsIn(k, b, i, 2, 4 * n + i);
    TurnsIn(k, b, n, p, 4 * p + 2);
    TurnsIn(k, b, p, 1, 4 * i + 3);
  }

  /** Where the coedges of side i and the caps stand. */
  lemma PlacesIn(n: nat, i: nat)
    requires n > 1 && i < n
    ensures LoopSize(n, i) == 4 && LoopSize(n, n) == n == LoopSize(n, n + 1)
    ensures forall r :: 0 <= r < 4 ==> CoedgeIn(n, i, r) == 4 * i + r
    ensures CoedgeIn(n, n, i) == 4 * n + i
    ensures CoedgeIn(n, n + 1, n - 1 - i) == 5 * n + i
    ensures CoedgeIn(n, n + 1, After(n, n - 1 - i)) == 5 * n + Prev(n, i)
  {
  }

  lemma SizeIs(k: nat)
    ensures Size(k) == 4 * k + 2
  {
  }

  lemma NextOfPrev(n: nat, i: nat)
    requires n > 1 && i < n
    ensures Prev(n, i) < n && Next(n, Prev(n, i)) == i && After(n, Prev(n, i)) == i && Prev(n, i) != i
  {
  }

  /** Edges and senses of the four coedges of a side. */
  lemma SideIn(n: nat, i: nat)
    requires i < n
    ensures EdgeIn(n, 4 * i) == i && SenseIn(n, 4 * i)
    ensures EdgeIn(n, 4 * i + 1) == 2 * n + Next(n, i) && SenseIn(n, 4 * i + 1)
    ensures EdgeIn(n, 4 * i + 2) == n + i && !SenseIn(n, 4 * i + 2)
    ensures EdgeIn(n, 4 * i + 3) == 2 * n + i && !SenseIn(n, 4 * i + 3)
  {
    assert (4 * i + 1) / 4 == i && (4 * i + 2) / 4 == i && (4 * i + 3) / 4 == i;
  }

  /** Edges and senses of the coedges of the top and the bottom. */
  lemma CapIn(n: nat, i: nat)
    requires i < n
    ensures EdgeIn(n, 4 * n + i) == n + i && SenseIn(n, 4 * n + i)
    ensures EdgeIn(n, 5 * n + i) == i && !SenseIn(n, 5 * n + i)
  {
  }

  lemma PrismFan(k: nat, b: Brep, v: nat)
    requires k >= 1 && IsPrism(k, b) && v < |b.vs|
    ensures OneFan(b, v)
  {
    hide IsPrism, TurnsTo, LowFan, HighFan, StartIn, Size, StartOf;
    Counts(k, b);
    SizeIs(k);
    var n := Size(k);
    var i := if v < n then v else v - n;
    var cs := if v < n then LowFan(n, i) else HighFan(n, i);
    FanShape(n, i);
    forall c ensures StartsAt(b, c, v) <==> c in cs {
      if 0 <= c < 6 * n {
        CoedgeStarts(k, b, c);
        FanStarts(n, i, c);
      }
    }
    if v < n {
      LowTurns(k, b, i);
    } else {
      HighTurns(k, b, i);
    }
    assert IsFan(b, v, cs);
  }

  lemma FanShape(n: nat, i: nat)
    requires n > 1 && i < n
    ensures |LowFan(n, i)| == 3 == |HighFan(n, i)|
    ensures forall c :: c in LowFan(n, i) || c in HighFan(n, i) ==> 0 <= c < 6 * n
    ensures forall j, m :: 0 <= j < m < 3 ==> LowFan(n, i)[j] != LowFan(n, i)[m]
    ensures forall j, m :: 0 <= j < m < 3 ==> HighFan(n, i)[j] != HighFan(n, i)[m]
  {
  }

  // ---------- Connected faces ----------

  lemma OnFaceIn(k: nat, b: Brep, f: nat, i: nat)
    requires k >= 1 && IsPrism(k, b) && f < Size(k) + 2 && i < LoopSize(Size(k), f)
    ensures OnFace(b, f, CoedgeIn(Size(k), f, i))
  {
    hide IsPrism, CoedgeIn, LoopAt, FaceAt;
    Counts(k, b);
    LoopCount(k, b, f);
    LoopHandles(k, b, f, i);
    FaceLoop(k, b, f);
    assert Placed(b, CoedgeIn(Size(k), f, i), f, i);
    assert Hl(Size(k), f) in b.fas[f].loops && Hl(Size(k), f).idx == f;
  }

  lemma FaceLoop(k: nat, b: Brep, f: nat)
    requires k >= 1 && IsPrism(k, b) && f < Size(k) + 2
    ensures f < |b.fas| && b.fas[f].loops == [Hl(Size(k), f)]
  {
    hide Corner, Unit, TopHcs, BotHcs;
    assert b.fas[f] == FaceAt(k, f);
  }

  lemma MeetIn(k: nat, b: Brep, f: nat, i: nat, g: nat, j: nat)
    requires k >= 1 && IsPrism(k, b)
    requires f < Size(k) + 2 && i < LoopSize(Size(k), f) && g < Size(k) + 2 && j < LoopSize(Size(k), g)
    requires var n := Size(k); var c, d := CoedgeIn(n, f, i), CoedgeIn(n, g, j);
             0 <= c < 6 * n && 0 <= d < 6 * n && EdgeIn(n, c) == EdgeIn(n, d) && SenseIn(n, c) != SenseIn(n, d)
    ensures FacesMeet(b, f, g) && FacesMeet(b, g, f)
  {
    hide IsPrism, CoedgeIn, EdgeIn, SenseIn, OnFace;
    OnFaceIn(k, b, f, i);
    OnFaceIn(k, b, g, j);
    OpposedIn(k, b, CoedgeIn(Size(k), f, i), CoedgeIn(Size(k), g, j));
    OpposedIn(k, b, CoedgeIn(Size(k), g, j), CoedgeIn(Size(k), f, i));
  }

  /** Each side shares an edge with the top and one with the bottom. */
  lemma SideMeetsCaps(k: nat, b: Brep, f: nat)
    requires k >= 1 && IsPrism(k, b) && f < Size(k)
    ensures FacesMeet(b, f, Size(k)) && FacesMeet(b, Size(k), f)
    ensures FacesMeet(b, f, Size(k) + 1) && FacesMeet(b, Size(k) + 1, f)
  {
    hide IsPrism, FacesMeet, Size;
    var n := Size(k);
    SideIn(n, f);
    CapIn(n, f);
    MeetIn(k, b, f, 2, n, f);
    MeetIn(k, b, f, 0, n + 1, n - 1 - f);
  }

  lemma Stepped(b: Brep, p: seq<int>, f: int, g: int, h: int)
    requires IsFacePath(b, p, f, g) && FacesMeet(b, g, h)
    ensures IsFacePath(b, p + [h], f, h)
  {
    hide FacesMeet;
  }

  lemma Linked(b: Brep, p: seq<int>, f: int, g: int)
    requires IsFacePath(b, p, f, g)
    ensures FacesLinked(b, f, g)
  {
  }

  /** From any face over the top to any other. */
  lemma PrismLinked(k: nat, b: Brep, f: nat, g: nat)
    requires k >= 1 && IsPrism(k, b) && f < Size(k) + 2 && g < Size(k) + 2
    ensures FacesLinked(b, f, g)
  {
    hide IsPrism, FacesMeet, FacesLinked, Size;
    var n := Size(k);
    SizeIs(k);
    SideMeetsCaps(k, b, 0);
    var p := [f];
    assert IsFacePath(b, p, f, f);
    if f == n + 1 {
      Stepped(b, p, f, f, 0);
      Stepped(b, p + [0], f, 0, n);
      p := p + [0] + [n];
    } else if f < n {
      SideMeetsCaps(k, b, f);
      Stepped(b, p, f, f, n);
      p := p + [n];
    }
    if g == n + 1 {
      Stepped(b, p, f, n, 0);
      Stepped(b, p + [0], f, 0, n + 1);
      p := p + [0] + [n + 1];
    } else if g < n {
      SideMeetsCaps(k, b, g);
      Stepped(b, p, f, n, g);
      p := p + [g];
    }
    Linked(b, p, f, g);
  }

  // ---------- The surface ----------

  /** For every size the prism is a closed, connected, consistently oriented surface with V - E + F = 2: handles
      resolve, loops chain and close, every coedge stands in one loop place, every edge is used once in each sense,
      the faces around each vertex form one cycle, any two faces are linked through shared edges, every face looks
      out of the one solid, and together they enclose five units of volume per tooth. */
  lemma PrismIsClosedSurface(k: nat)
    requires k >= 1
    ensures var b := Build(k);
      && HandlesLive(b) && CoedgesPlacedOnce(b) && TwoOpposedUses(b)
      && (forall l :: 0 <= l < |b.lps| ==> LoopCloses(b, b.lps[l]))
      && (forall v :: 0 <= v < |b.vs| ==> OneFan(b, v)) && FacesConnected(b)
      && |b.vs| - |b.es| + |b.fas| == 2 && |b.lps| == |b.fas|
      && OneSolid(b) && FacesLookOut(b) && Enclosed(b, |b.fas|) == 5.0 * k as real
  {
    hide Build, IsPrism, OneFan, FacesLinked, LoopCloses, HandlesLive, CoedgesPlacedOnce, TwoOpposedUses, OneSolid,
      FacesLookOut, Enclosed;
    BuildIsPrism(k);
    var b := Build(k);
    Counts(k, b);
    PrismHandles(k, b);
    PrismPlaces(k, b);
    PrismUses(k, b);
    PrismIsOneSolid(k, b);
    PrismLooksOut(k, b);
    PrismEncloses(k, b);
    forall l | 0 <= l < |b.lps| ensures LoopCloses(b, b.lps[l]) {
      PrismLoopsClose(k, b, l);
    }
    forall v | 0 <= v < |b.vs| ensures OneFan(b, v) {
      PrismFan(k, b, v);
    }
    forall f, g | 0 <= f < |b.fas| && 0 <= g < |b.fas| ensures FacesLinked(b, f, g) {
      PrismLinked(k, b, f, g);
    }
  }
}
