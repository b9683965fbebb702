// The prism's faces look out of it, and what they enclose is its profile times its height.
module PrismOutward {
  import opened BrepModel
  import opened Prism
  import opened PrismTable
  import opened PrismLaws

  /** What place i of loop l adds to the loop's sweep. */
  function SweepIn(k: nat, l: nat, i: nat): int
    requires l < Size(k) + 2 && i < LoopSize(Size(k), l)
  {
    var n := Size(k);
    if l < n then if i == 1 || i == 2 then SideLength(k, l) else 0
    else if l == n then CrossOf(Corner(k, i), Corner(k, Next(n, i)))
    else -CrossOf(Corner(k, n - 1 - i), Corner(k, Next(n, n - 1 - i)))
  }

  lemma CoedgeSweeps(k: nat, l: nat, i: nat)
    requires l < Size(k) + 2 && i < LoopSize(Size(k), l)
    ensures 0 <= CoedgeIn(Size(k), l, i) < 6 * Size(k)
    ensures TrimSweep(CoedgeAt(k, CoedgeIn(Size(k), l, i))) == SweepIn(k, l, i)
  {
    hide Corner, SideLength;
    var n := Size(k);
    if l < n {
      assert (4 * l + i) / 4 == l && (4 * l + i) % 4 == i;
    } else if l == n + 1 {
      assert 6 * n - 1 - i - 5 * n == n - 1 - i;
    }
  }

  lemma LoopStep(k: nat, b: Brep, l: nat, c: nat)
    requires k >= 1 && IsPrism(k, b) && l < Size(k) + 2 && c < LoopSize(Size(k), l)
    ensures l < |b.lps| && |b.lps[l].ces| == LoopSize(Size(k), l)
    ensures LoopSweep(b, b.lps[l], c + 1) == LoopSweep(b, b.lps[l], c) + SweepIn(k, l, c)
  {
    hide CoedgeAt, LoopAt, SweepIn, TrimSweep;
    assert b.lps[l] == LoopAt(k, l);
    LoopHolds(k, l, c);
    LoopHandles(k, b, l, c);
    CoedgeSweeps(k, l, c);
    assert b.ces[CoedgeIn(Size(k), l, c)] == CoedgeAt(k, CoedgeIn(Size(k), l, c));
  }

  lemma SideSweep(k: nat, b: Brep, l: nat)
    requires k >= 1 && IsPrism(k, b) && l < Size(k)
    ensures l < |b.lps| && LoopSweep(b, b.lps[l], |b.lps[l].ces|) == 2 * SideLength(k, l) > 0
  {
    hide IsPrism, SideLength, Corner;
    LoopStep(k, b, l, 0);
    LoopStep(k, b, l, 1);
    LoopStep(k, b, l, 2);
    LoopStep(k, b, l, 3);
    SideIsLong(k, l);
  }

  lemma SideIsLong(k: nat, l: nat)
    requires k >= 1 && l < Size(k)
    ensures SideLength(k, l) > 0
  {
    hide Corner;
    ProfileAligned(k, l);
  }

  lemma {:induction false} TopSweep(k: nat, b: Brep, c: nat)
    requires k >= 1 && IsPrism(k, b) && c <= Size(k)
    ensures Size(k) < |b.lps| && |b.lps[Size(k)].ces| == Size(k)
    ensures LoopSweep(b, b.lps[Size(k)], c) == Swept(k, c)
  {
    hide IsPrism, Corner;
    LoopStep(k, b, Size(k), 0);
    if c > 0 {
      TopSweep(k, b, c - 1);
      LoopStep(k, b, Size(k), c - 1);
    }
  }

  lemma {:induction false} BottomSweep(k: nat, b: Brep, c: nat)
    requires k >= 1 && IsPrism(k, b) && c <= Size(k)
    ensures Size(k) + 1 < |b.lps| && |b.lps[Size(k) + 1].ces| == Size(k)
    ensures LoopSweep(b, b.lps[Size(k) + 1], c) == Swept(k, Size(k) - c) - Swept(k, Size(k))
  {
    hide IsPrism, Corner;
    LoopStep(k, b, Size(k) + 1, 0);
    if c > 0 {
      BottomSweep(k, b, c - 1);
      LoopStep(k, b, Size(k) + 1, c - 1);
    }
  }

  /** Twice the signed area of each face's boundary: a side's rectangle, the profile, the profile reversed. */
  lemma FaceSweeps(k: nat, b: Brep, f: nat)
    requires k >= 1 && IsPrism(k, b) && f < Size(k) + 2
    ensures f < |b.fas| && b.fas[f] == FaceAt(k, f)
    ensures FaceSweep(b, b.fas[f], |b.fas[f].loops|)
         == if f < Size(k) then 2 * SideLength(k, f) else if f == Size(k) then 10 * k else -10 * k
  {
    hide SideLength, Corner, Unit, LoopAt;
    var n := Size(k);
    FaceHandles(k, b, f, 0) by { assert b.fas[f] == FaceAt(k, f); }
    var loop := b.lps[f];
    assert FaceSweep(b, b.fas[f], 1) == LoopSweep(b, loop, |loop.ces|);
    ProfileArea(k);
    if f < n {
      SideSweep(k, b, f);
    } else if f == n {
      TopSweep(k, b, n);
    } else {
      BottomSweep(k, b, n);
    }
  }

  lemma PrismLooksOut(k: nat, b: Brep)
    requires k >= 1 && IsPrism(k, b)
    ensures FacesLookOut(b)
  {
    hide SideLength, Corner, Unit, FaceSweep;
    assert |b.fas| == Size(k) + 2;
    forall f | 0 <= f < |b.fas|
      ensures var sweep := FaceSweep(b, b.fas[f], |b.fas[f].loops|); sweep != 0 && (sweep > 0 <==> b.fas[f].same)
    {
      FaceSweeps(k, b, f);
      if f < Size(k) {
        SideIsLong(k, f);
      }
    }
  }

  // ---------- The enclosed volume ----------

  lemma SideHeight(o: Pt, q: Pt)
    requires Elen(o, q) > 0 && o.z == 0 && q.z == 0
    ensures Height(Plane(o, Unit(o, q), ZZ)) * (Elen(o, q) as real) == Cross(o.x, o.y, q.x, q.y) as real
  {
    UnitScaled(o, q);
    hide Unit, Elen;
  }

  lemma SideEncloses(k: nat, b: Brep, f: nat)
    requires k >= 1 && IsPrism(k, b) && f < Size(k)
    ensures f < |b.fas|
    ensures Height(b.fas[f].surf) * FaceSweep(b, b.fas[f], |b.fas[f].loops|) as real
         == 2.0 * CrossOf(Corner(k, f), Corner(k, Next(Size(k), f))) as real
  {
    hide Corner, Unit, FaceSweep, Height, Elen, Cross;
    FaceSweeps(k, b, f);
    SideIsLong(k, f);
    SideHeight(Raised(k, f, 0), Raised(k, Next(Size(k), f), 0));
  }

  lemma {:induction false} SidesEnclose(k: nat, b: Brep, c: nat)
    requires k >= 1 && IsPrism(k, b) && c <= Size(k)
    ensures c <= |b.fas| && Enclosed(b, c) == Swept(k, c) as real / 3.0
  {
    hide Corner, FaceSweep, Height, CrossOf;
    if c > 0 {
      SidesEnclose(k, b, c - 1);
      SideEncloses(k, b, c - 1);
    }
  }

  /** The faces enclose the profile's area times the height: five per tooth. */
  lemma PrismEncloses(k: nat, b: Brep)
    requires k >= 1 && IsPrism(k, b)
    ensures Enclosed(b, |b.fas|) == 5.0 * k as real
  {
    hide Corner, FaceSweep, Swept, IsPrism, Height, Size, FaceAt;
    var n := Size(k);
    CapHeights(k, b);
    SidesEnclose(k, b, n);
    ProfileArea(k);
    FaceSweeps(k, b, n);
    FaceSweeps(k, b, n + 1);
    OneFaceMore(b, n);
    OneFaceMore(b, n + 1);
  }

  lemma CapHeights(k: nat, b: Brep)
    requires k >= 1 && IsPrism(k, b)
    ensures |b.fas| == Size(k) + 2
    ensures Height(b.fas[Size(k)].surf) == 1.0 && Height(b.fas[Size(k) + 1].surf) == 0.0
  {
    hide Corner, Unit, Elen;
    assert b.fas[Size(k)] == FaceAt(k, Size(k)) && b.fas[Size(k) + 1] == FaceAt(k, Size(k) + 1);
  }

  lemma OneFaceMore(b: Brep, f: nat)
    requires f < |b.fas|
    ensures Enclosed(b, f + 1)
         == Enclosed(b, f) + Height(b.fas[f].surf) * FaceSweep(b, b.fas[f], |b.fas[f].loops|) as real / 6.0
  {
    hide Height, FaceSweep;
  }

  lemma PrismIsOneSolid(k: nat, b: Brep)
    requires k >= 1 && IsPrism(k, b)
    ensures OneSolid(b)
  {
    hide Corner, Unit, SideLength, Hfs;
    HfsAre(Size(k) + 2, Size(k), 0, 0);
    forall f | 0 <= f < |b.fas|
      ensures b.shs[0].faces[f] == Handle(f, b.fas[f].gen)
      ensures |b.fas[f].loops| == 1 && LoopLive(b, b.fas[f].loops[0]) && b.lps[b.fas[f].loops[0].idx].outer
    {
      HfsAre(Size(k) + 2, Size(k), 0, f);
      assert b.fas[f] == FaceAt(k, f);
      assert b.lps[f] == LoopAt(k, f);
    }
  }
}
