// Blade outlines over exact fractions: Pythagorean directions, offset arcs that meet
// tangentially, and paths walked backwards.
module Blade {

  datatype Pt = Pt(x: real, y: real)

  function Plus(a: Pt, b: Pt): Pt { Pt(a.x + b.x, a.y + b.y) }

  function Minus(a: Pt, b: Pt): Pt { Pt(a.x - b.x, a.y - b.y) }

  function Scaled(f: real, a: Pt): Pt { Pt(f * a.x, f * a.y) }

  function Dot(a: Pt, b: Pt): real { a.x * b.x + a.y * b.y }

  function Cross(a: Pt, b: Pt): real { a.x * b.y - a.y * b.x }

  function Dist2(a: Pt, b: Pt): real { Dot(Minus(a, b), Minus(a, b)) }

  // ---------- Pythagorean directions ----------

  /** Nearest integer, ties to even. */
  function Round(x: real): int {
    var f := x.Floor;
    var d := x - f as real;
    if d < 0.5 || (d == 0.5 && f % 2 == 0) then f else f + 1
  }

  function Abs(x: real): real { if x < 0.0 then -x else x }

  /** No integer is nearer, and of two as near the even one is taken. */
  lemma RoundIsNearest(x: real, k: int)
    ensures Abs(Round(x) as real - x) <= Abs(k as real - x)
    ensures Abs(Round(x) as real - x) == Abs(k as real - x) && k != Round(x) ==> Round(x) % 2 == 0
  {
  }

  function Times(t: real, n: int): real { t * n as real }

  function Miss(t: real, n: int): real
    requires n > 0
  {
    Abs(Round(Times(t, n)) as real / n as real - t)
  }

  lemma MissIsLeast(t: real, n: int, k: int)
    requires n > 0
    ensures Miss(t, n) <= Abs(k as real / n as real - t)
  {
    hide Round, Abs;
    var x, d := Times(t, n), n as real;
    RoundIsNearest(x, k);
    assert x == t * d;
    assert Abs(Round(x) as real - x) == Abs(Round(x) as real - t * d) && Abs(k as real - x) == Abs(k as real - t * d);
    Closer(t, d, Round(x) as real, k as real);
  }

  lemma Closer(t: real, d: real, a: real, b: real)
    requires d > 0.0 && Abs(a - t * d) <= Abs(b - t * d)
    ensures Abs(a / d - t) <= Abs(b / d - t)
  {
    Spread(a, d, t);
    Spread(b, d, t);
    hide Abs;
    Shrunk(Abs(a - t * d), Abs(b - t * d), d);
  }

  lemma Spread(a: real, d: real, t: real)
    requires d > 0.0
    ensures Abs(a / d - t) == Abs(a - t * d) / d
  {
    assert a / d - t == (a - t * d) / d;
    if a - t * d >= 0.0 {
      Shrunk(0.0, a - t * d, d);
    } else {
      Shrunk(a - t * d, 0.0, d);
    }
  }

  lemma Shrunk(a: real, b: real, d: real)
    requires d > 0.0 && a <= b
    ensures a / d <= b / d
  {
  }

  /** No fraction with a denominator up to 400 is nearer to t by more than the tolerance. */
  ghost predicate Nearest(t: real, m: int, n: int) {
    n > 0 && forall k, j :: 1 <= k <= 400 ==>
      Abs(m as real / n as real - t) <= Abs(Over(j, k) - t) + 0.000000000000001
  }

  function Over(j: int, k: int): real
    requires k != 0
  {
    j as real / k as real
  }

  lemma BestIsNearest(t: real, n: int)
    requires n > 0 && forall k :: 1 <= k <= 400 ==> Miss(t, n) <= Miss(t, k) + 0.000000000000001
    ensures Nearest(t, Round(Times(t, n)), n)
  {
    hide Round, Times, Abs;
    forall k, j | 1 <= k <= 400 ensures Miss(t, n) <= Abs(Over(j, k) - t) + 0.000000000000001 {
      MissIsLeast(t, k, j);
      assert Miss(t, n) <= Miss(t, k) + 0.000000000000001;
    }
  }

  /** The denominator, up to 400, whose nearest fraction misses t least, within the tolerance. */
  method BestRatio(t: real) returns (m: int, n: int)
    ensures 1 <= n <= 400 && m == Round(Times(t, n))
    ensures forall k :: 1 <= k <= 400 ==> Miss(t, n) <= Miss(t, k) + 0.000000000000001
  {
    var best := Miss(t, 1);
    m, n := Round(Times(t, 1)), 1;
    hide Miss, Round, Times;
    for k := 2 to 401
      invariant 1 <= n <= 400 && best == Miss(t, n) && m == Round(Times(t, n))
      invariant forall j :: 1 <= j < k ==> best <= Miss(t, j) + 0.000000000000001
    {
      var miss := Miss(t, k);
      if miss < best - 0.000000000000001 {
        best, m, n := miss, Round(Times(t, k)), k;
      }
    }
  }

  /** An integer direction (p, r) of integer length q close to the half-angle tangent t. */
  method Pyth(t: real) returns (p: int, r: int, q: int, ghost m: int, ghost n: int)
    ensures 1 <= n <= 400 && Nearest(t, m, n)
    ensures (p, r, q) == (n * n - m * m, 2 * m * n, n * n + m * m)
    ensures p * p + r * r == q * q && q >= 1
  {
    hide Miss, Round, Nearest;
    var a, d := BestRatio(t);
    m, n := a, d;
    BestIsNearest(t, n);
    Triple(a, d);
    p, r, q := d * d - a * a, 2 * a * d, d * d + a * a;
  }

  lemma Triple(m: int, n: int)
    ensures (n * n - m * m) * (n * n - m * m) + (2 * m * n) * (2 * m * n) == (n * n + m * m) * (n * n + m * m)
    ensures n >= 1 ==> n * n + m * m >= 1
  {
    var a, b := n * n, m * m;
    assert (2 * m * n) * (2 * m * n) == 4 * (a * b) by {
      assert (2 * m * n) * (2 * m * n) == 4 * ((m * n) * (m * n));
      assert (m * n) * (m * n) == a * b;
    }
    assert (a - b) * (a - b) + 4 * (a * b) == (a + b) * (a + b);
    assert b >= 0 by { assert m * m >= 0; }
    if n >= 1 {
      assert n * n >= 1;
    }
  }

  // ---------- Paths ----------

  datatype Turn = Cw | Ccw

  function Flip(d: Turn): Turn { if d == Ccw then Cw else Ccw }

  datatype Seg = Line(end: Pt) | Arc(center: Pt, radius: real, end: Pt, turn: Turn)

  /** The i-th joint: the start, then each segment's end. */
  function Joint(start: Pt, segs: seq<Seg>, i: nat): Pt
    requires i <= |segs|
  {
    if i == 0 then start else segs[i - 1].end
  }

  function Back(sg: Seg, to: Pt): Seg {
    if sg.Line? then Line(to) else Arc(sg.center, sg.radius, to, Flip(sg.turn))
  }

  /** The same path walked backwards: segments last to first, each ending where it began. */
  function Reversed(start: Pt, segs: seq<Seg>): (r: (Pt, seq<Seg>))
    ensures |r.1| == |segs|
    ensures r.0 == Joint(start, segs, |segs|)
    ensures forall i :: 0 <= i < |segs| ==> r.1[i] == Back(segs[|segs| - 1 - i], Joint(start, segs, |segs| - 1 - i))
  {
    (Joint(start, segs, |segs|),
     seq(|segs|, i requires 0 <= i < |segs| => Back(segs[|segs| - 1 - i], Joint(start, segs, |segs| - 1 - i))))
  }

  method RevSegs(start: Pt, segs: seq<Seg>) returns (r: (Pt, seq<Seg>))
    ensures r == Reversed(start, segs)
  {
    var out: seq<Seg> := [];
    var i := |segs|;
    while i > 0
      invariant 0 <= i <= |segs| && |out| == |segs| - i
      invariant out == Reversed(start, segs).1[..|segs| - i]
    {
      i := i - 1;
      out := out + [if segs[i].Line? then Line(Joint(start, segs, i))
                    else Arc(segs[i].center, segs[i].radius, Joint(start, segs, i),
                             if segs[i].turn == Ccw then Cw else Ccw)];
    }
    assert Reversed(start, segs).1[..|segs|] == Reversed(start, segs).1;
    r := (Joint(start, segs, |segs|), out);
  }

  lemma ReversedJoint(start: Pt, segs: seq<Seg>, i: nat)
    requires i <= |segs|
    ensures var r := Reversed(start, segs); Joint(r.0, r.1, i) == Joint(start, segs, |segs| - i)
  {
  }

  /** Walking backwards twice is walking forwards. */
  lemma ReversedTwice(start: Pt, segs: seq<Seg>)
    ensures var r := Reversed(start, segs); Reversed(r.0, r.1) == (start, segs)
  {
    var r := Reversed(start, segs);
    var again := Reversed(r.0, r.1);
    forall i | 0 <= i < |segs| ensures again.1[i] == segs[i] {
      ReversedJoint(start, segs, |segs| - 1 - i);
    }
    assert again.1 == segs;
    ReversedJoint(start, segs, |segs|);
  }

  /** Every arc starts and ends on its circle. */
  predicate OnArcs(start: Pt, segs: seq<Seg>) {
    forall i :: 0 <= i < |segs| && segs[i].Arc? ==>
      Dist2(Joint(start, segs, i), segs[i].center) == segs[i].radius * segs[i].radius
      && Dist2(segs[i].end, segs[i].center) == segs[i].radius * segs[i].radius
  }

  /** Where arcs meet, their centres lie on one line with the joint. */
  predicate Tangent(start: Pt, segs: seq<Seg>) {
    forall i :: 0 < i < |segs| && segs[i - 1].Arc? && segs[i].Arc? ==>
      Cross(Minus(segs[i - 1].center, Joint(start, segs, i)), Minus(segs[i].center, Joint(start, segs, i))) == 0.0
  }

  /** Also where the path closes. */
  predicate ClosesTangent(start: Pt, segs: seq<Seg>) {
    && |segs| > 0 && Joint(start, segs, |segs|) == start
    && (segs[0].Arc? && segs[|segs| - 1].Arc? ==>
          Cross(Minus(segs[|segs| - 1].center, start), Minus(segs[0].center, start)) == 0.0)
  }

  /** The direction of travel at a point of an arc. */
  function Heading(sg: Seg, at: Pt): Pt
    requires sg.Arc?
  {
    var out := Minus(at, sg.center);
    if sg.turn == Ccw then Pt(-out.y, out.x) else Pt(out.y, -out.x)
  }

  /** Travel goes on in the same direction where two arcs meet. */
  predicate GoesOn(a: Seg, b: Seg, at: Pt) {
    a.Arc? && b.Arc? ==> Dot(Heading(a, at), Heading(b, at)) > 0.0
  }

  /** No cusp, where the path closes neither. */
  predicate Smooth(start: Pt, segs: seq<Seg>) {
    && (forall i :: 0 < i < |segs| ==> GoesOn(segs[i - 1], segs[i], Joint(start, segs, i)))
    && (|segs| > 0 ==> GoesOn(segs[|segs| - 1], segs[0], start))
  }

  lemma BackGoesOn(a: Seg, b: Seg, at: Pt, to: Pt, to': Pt)
    ensures GoesOn(a, b, at) <==> GoesOn(Back(b, to), Back(a, to'), at)
  {
    if a.Arc? && b.Arc? {
      var h, g := Heading(a, at), Heading(b, at);
      assert Heading(Back(b, to), at) == Pt(-g.x, -g.y) && Heading(Back(a, to'), at) == Pt(-h.x, -h.y);
      assert (-g.x) * (-h.x) == h.x * g.x && (-g.y) * (-h.y) == h.y * g.y;
    }
  }

  /** Walking backwards makes no cusp. */
  lemma ReversalIsSmooth(start: Pt, segs: seq<Seg>)
    requires Smooth(start, segs) && |segs| > 0 && Joint(start, segs, |segs|) == start
    ensures var r := Reversed(start, segs); Smooth(r.0, r.1)
  {
    hide GoesOn, Back;
    var r := Reversed(start, segs);
    var n := |segs|;
    forall i | 0 < i < n ensures GoesOn(r.1[i - 1], r.1[i], Joint(r.0, r.1, i)) {
      ReversedJoint(start, segs, i);
      BackGoesOn(segs[n - i - 1], segs[n - i], Joint(start, segs, n - i), Joint(start, segs, n - i),
                 Joint(start, segs, n - i - 1));
    }
    BackGoesOn(segs[n - 1], segs[0], start, Joint(start, segs, 0), Joint(start, segs, n - 1));
  }

  lemma CrossSwaps(a: Pt, b: Pt)
    ensures Cross(a, b) == 0.0 ==> Cross(b, a) == 0.0
  {
  }

  /** Walking backwards keeps every joint on both its circles and every join tangent. */
  lemma ReversalKeeps(start: Pt, segs: seq<Seg>)
    requires OnArcs(start, segs) && Tangent(start, segs) && ClosesTangent(start, segs)
    ensures var r := Reversed(start, segs); OnArcs(r.0, r.1) && Tangent(r.0, r.1) && ClosesTangent(r.0, r.1)
  {
    hide Dist2, Cross, Minus;
    var r := Reversed(start, segs);
    var n := |segs|;
    forall i | 0 <= i <= n ensures Joint(r.0, r.1, i) == Joint(start, segs, n - i) {
      ReversedJoint(start, segs, i);
    }
    forall i | 0 < i < n && r.1[i - 1].Arc? && r.1[i].Arc?
      ensures Cross(Minus(r.1[i - 1].center, Joint(r.0, r.1, i)), Minus(r.1[i].center, Joint(r.0, r.1, i))) == 0.0
    {
      var j := n - i;
      CrossSwaps(Minus(segs[j - 1].center, Joint(start, segs, j)), Minus(segs[j].center, Joint(start, segs, j)));
    }
    if segs[0].Arc? && segs[n - 1].Arc? {
      CrossSwaps(Minus(segs[n - 1].center, start), Minus(segs[0].center, start));
    }
  }

  // ---------- The blade ----------

  const GRID: real := 35184372088832.0   // 2 to the 45

  /** Camber arc from exact parts: ends, centre, radius and end directions. */
  datatype Camber = Camber(e1: Pt, c: Pt, e2: Pt, radius: real, d1: Pt, d2: Pt)

  /** A direction of integer length. */
  datatype Direction = Direction(p: int, r: int, q: int)

  predicate Exact(d: Direction) { d.q >= 1 && d.p * d.p + d.r * d.r == d.q * d.q }

  function UnitOf(d: Direction): Pt
    requires d.q >= 1
  {
    Pt(d.p as real / d.q as real, d.r as real / d.q as real)
  }

  /** The camber for a wanted radius and start, along two exact directions. */
  function BladeExact(wanted: real, e1: Pt, a: Direction, b: Direction): Camber
    requires Exact(a) && Exact(b)
  {
    var m := Round(wanted * GRID / (a.q * b.q) as real);
    var rx := (a.q * b.q * m) as real / GRID;
    var c := Pt(e1.x + (b.q * m * a.p) as real / GRID, e1.y + (b.q * m * a.r) as real / GRID);
    var e2 := Pt(c.x + (a.q * m * b.p) as real / GRID, c.y + (a.q * m * b.r) as real / GRID);
    Camber(e1, c, e2, rx, UnitOf(a), UnitOf(b))
  }

  lemma UnitIsUnit(d: Direction)
    requires Exact(d)
    ensures Dot(UnitOf(d), UnitOf(d)) == 1.0
  {
    var p, r, q := d.p as real, d.r as real, d.q as real;
    assert p * p + r * r == q * q;
    Normalized(p, r, q);
  }

  function Sq(x: real): real { x * x }

  lemma SquarePositive(q: real)
    requires q > 0.0
    ensures Sq(q) > 0.0
  {
    assert Sq(q) / q == q;
  }

  lemma Normalized(p: real, r: real, q: real)
    requires q > 0.0 && Sq(p) + Sq(r) == Sq(q)
    ensures Sq(p / q) + Sq(r / q) == 1.0
  {
    hide Sq;
    SquarePositive(q);
    SquareOver(p, q);
    SquareOver(r, q);
    SumOver(Sq(p), Sq(r), Sq(q));
  }

  lemma SquareOver(p: real, q: real)
    requires q > 0.0
    ensures Sq(q) > 0.0 && Sq(p / q) == Sq(p) / Sq(q)
  {
    SquarePositive(q);
    assert p == (p / q) * q;
    SquareOut(p / q, q);
    hide Sq;
    Divided(Sq(p / q), Sq(q));
  }

  lemma SquareOut(u: real, q: real)
    ensures Sq(u * q) == Sq(u) * Sq(q)
  {
    assert (u * q) * (u * q) == (u * u) * (q * q);
  }

  lemma Divided(a: real, c: real)
    requires c > 0.0
    ensures (a * c) / c == a
  {
  }

  lemma SumOver(a: real, b: real, c: real)
    requires c > 0.0 && a + b == c
    ensures a / c + b / c == 1.0
  {
    assert (a + b) / c == 1.0;
  }

  /** A step of the camber is its radius along a unit direction. */
  lemma StepAlong(d: Direction, s: int)
    requires d.q >= 1
    ensures (s * d.p) as real / GRID == ((d.q * s) as real / GRID) * UnitOf(d).x
    ensures (s * d.r) as real / GRID == ((d.q * s) as real / GRID) * UnitOf(d).y
  {
    Fraction(s as real, d.p as real, d.q as real);
    Fraction(s as real, d.r as real, d.q as real);
  }

  lemma Fraction(s: real, p: real, q: real)
    requires q != 0.0
    ensures (s * p) / GRID == ((q * s) / GRID) * (p / q)
  {
    assert ((q * s) / GRID) * (p / q) == (q * s * p) / (GRID * q);
    assert (q * (s * p)) / (q * GRID) == (s * p) / GRID;
  }

  function Along(p: Pt, f: real, d: Pt): Pt { Plus(p, Scaled(f, d)) }

  /** The camber runs from e1 to c to e2, a radius along each direction; hence both radius checks hold. */
  lemma CamberIsExact(wanted: real, e1: Pt, a: Direction, b: Direction)
    requires Exact(a) && Exact(b)
    ensures var k := BladeExact(wanted, e1, a, b);
      && k.c == Along(k.e1, k.radius, k.d1) && k.e2 == Along(k.c, k.radius, k.d2)
      && Dist2(k.c, k.e1) == k.radius * k.radius && Dist2(k.e2, k.c) == k.radius * k.radius
  {
    hide Along, Dist2, Dot, UnitOf, Round, BladeExact;
    var k := BladeExact(wanted, e1, a, b);
    CamberRuns(wanted, e1, a, b);
    CamberUnits(wanted, e1, a, b);
    StepLength(k.e1, k.radius, k.d1);
    StepLength(k.c, k.radius, k.d2);
  }

  lemma CamberRuns(wanted: real, e1: Pt, a: Direction, b: Direction)
    requires Exact(a) && Exact(b)
    ensures var k := BladeExact(wanted, e1, a, b);
      k.c == Along(k.e1, k.radius, k.d1) && k.e2 == Along(k.c, k.radius, k.d2)
  {
    CamberSteps(a, b, Round(wanted * GRID / (a.q * b.q) as real));
    hide UnitOf, Round;
  }

  lemma CamberStep(d: Direction, s: int, rx: real)
    requires d.q >= 1 && rx == (d.q * s) as real / GRID
    ensures Pt((s * d.p) as real / GRID, (s * d.r) as real / GRID) == Scaled(rx, UnitOf(d))
  {
    StepAlong(d, s);
    hide UnitOf;
  }

  lemma CamberSteps(a: Direction, b: Direction, m: int)
    requires a.q >= 1 && b.q >= 1
    ensures var rx := (a.q * b.q * m) as real / GRID;
      && Pt((b.q * m * a.p) as real / GRID, (b.q * m * a.r) as real / GRID) == Scaled(rx, UnitOf(a))
      && Pt((a.q * m * b.p) as real / GRID, (a.q * m * b.r) as real / GRID) == Scaled(rx, UnitOf(b))
  {
    hide UnitOf, Scaled;
    Reassociated(a.q, b.q, m);
    CamberStep(a, b.q * m, (a.q * b.q * m) as real / GRID);
    CamberStep(b, a.q * m, (a.q * b.q * m) as real / GRID);
  }

  lemma Reassociated(x: int, y: int, z: int)
    ensures x * (y * z) == x * y * z && y * (x * z) == x * y * z
  {
  }

  lemma StepLength(p: Pt, f: real, d: Pt)
    requires Dot(d, d) == 1.0
    ensures Dist2(Along(p, f, d), p) == f * f && Dist2(p, Along(p, f, d)) == f * f
  {
    var v := Scaled(f, d);
    assert Minus(Along(p, f, d), p) == v;
    assert Dot(v, v) == f * f * Dot(d, d) by {
      assert (f * d.x) * (f * d.x) == f * f * (d.x * d.x);
      assert (f * d.y) * (f * d.y) == f * f * (d.y * d.y);
    }
    assert Dot(Minus(p, Along(p, f, d)), Minus(p, Along(p, f, d))) == Dot(v, v);
  }

  // ---------- The outline ----------

  /** Outer arc, nose, inner arc, tail around a camber of half thickness h. */
  function Outline(k: Camber, h: real, sweep: real): (Pt, seq<Seg>) {
    var d := if sweep > 0.0 then Ccw else Cw;
    var po1, pi1 := Along(k.e1, -h, k.d1), Along(k.e1, h, k.d1);
    var po2, pi2 := Along(k.e2, h, k.d2), Along(k.e2, -h, k.d2);
    (po1, [Arc(k.c, k.radius + h, po2, d), Arc(k.e2, h, pi2, d),
           Arc(k.c, k.radius - h, pi1, Flip(d)), Arc(k.e1, h, po1, d)])
  }

  /** The outline handed on: walked backwards when its signed area came out negative. */
  function BladePath(k: Camber, h: real, sweep: real, area: real): (Pt, seq<Seg>) {
    var path := Outline(k, h, sweep);
    if area < 0.0 then (path.0, Reversed(path.0, path.1).1) else path
  }

  ghost predicate IsCamber(k: Camber) {
    && Dot(k.d1, k.d1) == 1.0 && Dot(k.d2, k.d2) == 1.0
    && k.c == Along(k.e1, k.radius, k.d1) && k.e2 == Along(k.c, k.radius, k.d2)
  }

  /** Two points on one line through p, a known way along it. */
  lemma CollinearAlong(p: Pt, d: Pt, f: real, g: real)
    ensures Cross(Minus(Along(p, f, d), p), Minus(Along(p, g, d), p)) == 0.0
  {
    assert Minus(Along(p, f, d), p) == Scaled(f, d) && Minus(Along(p, g, d), p) == Scaled(g, d);
    assert (f * d.x) * (g * d.y) == (f * d.y) * (g * d.x);
  }

  lemma AlongTwice(p: Pt, f: real, g: real, d: Pt)
    ensures Along(Along(p, f, d), g, d) == Along(p, f + g, d)
  {
    assert f * d.x + g * d.x == (f + g) * d.x && f * d.y + g * d.y == (f + g) * d.y;
  }

  /** A joint at a known way from two centres on one line lies on both circles, and the three are collinear. */
  lemma JointHolds(joint: Pt, d: Pt, f: real, g: real, a: Pt, b: Pt)
    requires Dot(d, d) == 1.0 && a == Along(joint, f, d) && b == Along(joint, g, d)
    ensures Dist2(joint, a) == f * f && Dist2(joint, b) == g * g
    ensures Cross(Minus(a, joint), Minus(b, joint)) == 0.0 && Cross(Minus(b, joint), Minus(a, joint)) == 0.0
  {
    StepLength(joint, f, d);
    StepLength(joint, g, d);
    CollinearAlong(joint, d, f, g);
    CollinearAlong(joint, d, g, f);
  }

  lemma OutlineHolds(k: Camber, h: real, sweep: real)
    requires IsCamber(k)
    ensures var path := Outline(k, h, sweep);
            OnArcs(path.0, path.1) && Tangent(path.0, path.1) && ClosesTangent(path.0, path.1)
  {
    var path := Outline(k, h, sweep);
    var po1, pi1 := Along(k.e1, -h, k.d1), Along(k.e1, h, k.d1);
    var po2, pi2 := Along(k.e2, h, k.d2), Along(k.e2, -h, k.d2);
    hide Along, Cross, Dist2, Minus, Dot;
    Offsets(k, h);
    JointHolds(po1, k.d1, k.radius + h, h, k.c, k.e1);
    JointHolds(pi1, k.d1, k.radius - h, -h, k.c, k.e1);
    JointHolds(po2, k.d2, -(k.radius + h), -h, k.c, k.e2);
    JointHolds(pi2, k.d2, -(k.radius - h), h, k.c, k.e2);
    assert (-h) * (-h) == h * h && -(k.radius + h) * -(k.radius + h) == (k.radius + h) * (k.radius + h);
    assert -(k.radius - h) * -(k.radius - h) == (k.radius - h) * (k.radius - h);
    var segs := path.1;
    assert Joint(path.0, segs, 0) == po1 && Joint(path.0, segs, 1) == po2 && Joint(path.0, segs, 2) == pi2;
    assert Joint(path.0, segs, 3) == pi1 && Joint(path.0, segs, 4) == po1;
  }

  /** The centres as seen from each joint. */
  lemma Offsets(k: Camber, h: real)
    requires IsCamber(k)
    ensures k.e1 == Along(Along(k.e1, -h, k.d1), h, k.d1) && k.c == Along(Along(k.e1, -h, k.d1), k.radius + h, k.d1)
    ensures k.e1 == Along(Along(k.e1, h, k.d1), -h, k.d1) && k.c == Along(Along(k.e1, h, k.d1), k.radius - h, k.d1)
    ensures k.e2 == Along(Along(k.e2, h, k.d2), -h, k.d2) && k.c == Along(Along(k.e2, h, k.d2), -(k.radius + h), k.d2)
    ensures k.e2 == Along(Along(k.e2, -h, k.d2), h, k.d2) && k.c == Along(Along(k.e2, -h, k.d2), -(k.radius - h), k.d2)
  {
    AlongTwice(k.e1, -h, h, k.d1);
    AlongTwice(k.e1, -h, k.radius + h, k.d1);
    AlongTwice(k.e1, h, -h, k.d1);
    AlongTwice(k.e1, h, k.radius - h, k.d1);
    AlongTwice(k.e2, h, -h, k.d2);
    AlongTwice(k.e2, -h, h, k.d2);
    AlongTwice(k.c, k.radius, h, k.d2);
    AlongTwice(k.c, k.radius, -h, k.d2);
    AlongTwice(k.c, k.radius + h, -(k.radius + h), k.d2);
    AlongTwice(k.c, k.radius - h, -(k.radius - h), k.d2);
  }

  /** For every camber the exact construction yields, thickness, sweep and area sign: all four joints lie exactly on
      both adjacent circles, with the centres collinear with the joint. */
  lemma BladeIsExact(wanted: real, e1: Pt, a: Direction, b: Direction, h: real, sweep: real, area: real)
    requires Exact(a) && Exact(b)
    ensures var path := BladePath(BladeExact(wanted, e1, a, b), h, sweep, area);
      |path.1| == 4 && OnArcs(path.0, path.1) && Tangent(path.0, path.1) && ClosesTangent(path.0, path.1)
  {
    hide OnArcs, Tangent, ClosesTangent, BladeExact;
    var k := BladeExact(wanted, e1, a, b);
    CamberIsExact(wanted, e1, a, b);
    CamberUnits(wanted, e1, a, b);
    OutlineHolds(k, h, sweep);
    var path := Outline(k, h, sweep);
    ReversalKeeps(path.0, path.1);
  }

  /** Where both centres lie on one line with the joint, travel goes on if they lie on the same
      side of it and the arcs turn alike, or on opposite sides and the arcs turn oppositely. */
  lemma HeadingsAlong(a: Seg, b: Seg, joint: Pt, d: Pt, f: real, g: real)
    requires a.Arc? && b.Arc? && Dot(d, d) == 1.0
    requires a.center == Along(joint, f, d) && b.center == Along(joint, g, d)
    requires if a.turn == b.turn then f * g > 0.0 else f * g < 0.0
    ensures GoesOn(a, b, joint)
  {
    assert Minus(joint, a.center) == Scaled(-f, d) && Minus(joint, b.center) == Scaled(-g, d);
    assert (f * d.y) * (g * d.y) + (f * d.x) * (g * d.x) == (f * g) * Dot(d, d);
    var s := Dot(Heading(a, joint), Heading(b, joint));
    HeadingProduct(f, g, d);
    assert s == if a.turn == b.turn then f * g else -(f * g);
  }

  lemma HeadingProduct(f: real, g: real, d: Pt)
    requires Dot(d, d) == 1.0
    ensures var u, v := Scaled(-f, d), Scaled(-g, d);
      u.y * v.y + u.x * v.x == f * g && u.x * v.x + u.y * v.y == f * g
      && (-u.y) * (-v.y) + u.x * v.x == f * g && u.y * v.y + (-u.x) * (-v.x) == f * g
      && (-u.y) * v.y + u.x * (-v.x) == -(f * g) && u.y * (-v.y) + (-u.x) * v.x == -(f * g)
  {
    assert (-f * d.x) * (-g * d.x) == (f * g) * (d.x * d.x);
    assert (-f * d.y) * (-g * d.y) == (f * g) * (d.y * d.y);
    assert (f * g) * (d.x * d.x) + (f * g) * (d.y * d.y) == f * g * Dot(d, d);
  }

  /** A blade thinner than its camber's radius has no cusp, and its outer arc turns with the sweep. */
  lemma BladeIsSmooth(wanted: real, e1: Pt, a: Direction, b: Direction, h: real, sweep: real, area: real)
    requires Exact(a) && Exact(b) && 0.0 < h < BladeExact(wanted, e1, a, b).radius
    ensures var path := BladePath(BladeExact(wanted, e1, a, b), h, sweep, area); Smooth(path.0, path.1)
    ensures var k := BladeExact(wanted, e1, a, b);
      var outer := BladePath(k, h, sweep, area).1[if area < 0.0 then 3 else 0];
      && outer.Arc? && outer.center == k.c && outer.radius == k.radius + h
      && (outer.turn == Ccw <==> (sweep > 0.0) == (area >= 0.0))
  {
    hide Smooth, BladeExact;
    var k := BladeExact(wanted, e1, a, b);
    CamberIsExact(wanted, e1, a, b);
    CamberUnits(wanted, e1, a, b);
    OutlineIsSmooth(k, h, sweep);
    var path := Outline(k, h, sweep);
    ReversalIsSmooth(path.0, path.1);
  }

  lemma OutlineIsSmooth(k: Camber, h: real, sweep: real)
    requires IsCamber(k) && 0.0 < h < k.radius
    ensures var path := Outline(k, h, sweep); Smooth(path.0, path.1) && Joint(path.0, path.1, |path.1|) == path.0
  {
    var path := Outline(k, h, sweep);
    var po1, pi1 := Along(k.e1, -h, k.d1), Along(k.e1, h, k.d1);
    var po2, pi2 := Along(k.e2, h, k.d2), Along(k.e2, -h, k.d2);
    hide Along, Cross, Dist2, Minus, Dot, GoesOn;
    Offsets(k, h);
    Products(k.radius, h);
    var segs := path.1;
    HeadingsAlong(segs[0], segs[1], po2, k.d2, -(k.radius + h), -h);
    HeadingsAlong(segs[1], segs[2], pi2, k.d2, h, -(k.radius - h));
    HeadingsAlong(segs[2], segs[3], pi1, k.d1, k.radius - h, -h);
    HeadingsAlong(segs[3], segs[0], po1, k.d1, h, k.radius + h);
    assert Joint(path.0, segs, 1) == po2 && Joint(path.0, segs, 2) == pi2 && Joint(path.0, segs, 3) == pi1;
  }

  lemma Products(r: real, h: real)
    requires 0.0 < h < r
    ensures -(r + h) * -h > 0.0 && h * -(r - h) < 0.0 && (r - h) * -h < 0.0 && h * (r + h) > 0.0
  {
  }

  /** The camber's radius is the nearest to the wanted one that keeps all its parts on the grid. */
  lemma RadiusIsNearest(wanted: real, e1: Pt, a: Direction, b: Direction, j: int)
    requires Exact(a) && Exact(b)
    ensures var k := BladeExact(wanted, e1, a, b);
      && k.e1 == e1 && k.d1 == Pt(a.p as real / a.q as real, a.r as real / a.q as real)
      && k.d2 == Pt(b.p as real / b.q as real, b.r as real / b.q as real)
      && Abs(k.radius - wanted) <= Abs((a.q * b.q * j) as real / 35184372088832.0 - wanted)
  {
    hide Round, Abs;
    NearestOnGrid(wanted, a.q * b.q, j);
  }

  lemma NearestOnGrid(wanted: real, q: int, j: int)
    requires q >= 1
    ensures Abs((q * Round(wanted * GRID / q as real)) as real / GRID - wanted) <= Abs((q * j) as real / GRID - wanted)
  {
    hide Round, Abs;
    var x := wanted * GRID / q as real;
    RoundIsNearest(x, j);
    OnGrid(q, Round(x), wanted);
    OnGrid(q, j, wanted);
    Stretched(Abs(Round(x) as real - x), Abs(j as real - x), q as real / GRID);
  }

  lemma OnGrid(q: int, m: int, wanted: real)
    requires q >= 1
    ensures Abs((q * m) as real / GRID - wanted) == Abs(m as real - wanted * GRID / q as real) * (q as real / GRID)
  {
    hide Abs;
    Gridded(q as real, m as real, wanted);
    assert (q * m) as real == q as real * m as real;
  }

  lemma Gridded(q: real, m: real, wanted: real)
    requires q >= 1.0
    ensures Abs(q * m / GRID - wanted) == Abs(m - wanted * GRID / q) * (q / GRID)
  {
    var x := wanted * GRID / q;
    assert x * q == wanted * GRID;
    assert (m - x) * (q / GRID) == q * m / GRID - x * q / GRID;
  }

  lemma Stretched(a: real, b: real, f: real)
    requires a <= b && f > 0.0
    ensures a * f <= b * f
  {
  }

  lemma CamberUnits(wanted: real, e1: Pt, a: Direction, b: Direction)
    requires Exact(a) && Exact(b)
    ensures var k := BladeExact(wanted, e1, a, b); Dot(k.d1, k.d1) == 1.0 && Dot(k.d2, k.d2) == 1.0
  {
    UnitIsUnit(a);
    UnitIsUnit(b);
  }
}
