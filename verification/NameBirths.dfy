// Root names: what a primitive's sub-shapes are called at birth.
module NameBirths {
  import opened Outcomes
  import opened NameGrammar
  import opened ElementNaming

  // ---------- Operation id prefixes ----------

  function Lowered(c: char): char {
    if 'A' <= c <= 'F' then c - 'A' + 'a' else c
  }

  /** The first eight hex digits of an id, dashes dropped; None for anything that is no UUID. */
  function PrefixFrom(found: string, id: string): (r: Option<string>)
    requires |found| < 8 && forall c :: c in found ==> IsHexDigit(c)
    ensures r.Some? ==> IsHex8(r.value) && found <= r.value
    decreases |id|
  {
    if id == "" then None
    else if id[0] == '-' then PrefixFrom(found, id[1..])
    else
      var c := Lowered(id[0]);
      if !IsHexDigit(c) then None
      else if |found| == 7 then Some(found + [c])
      else PrefixFrom(found + [c], id[1..])
  }

  function OperationIdPrefix(id: string): (r: Option<string>)
    ensures r.Some? ==> IsHex8(r.value)
  {
    PrefixFrom("", id)
  }

  /** c is the hex digit d, or d's capital. */
  predicate SameDigit(c: char, d: char) {
    IsHexDigit(d) && (c == d || ('A' <= c <= 'F' && c as int - 'A' as int == d as int - 'a' as int))
  }

  function Undashed(id: string): string {
    if id == "" then "" else (if id[0] == '-' then "" else [id[0]]) + Undashed(id[1..])
  }

  /** The digits are those that the id, its dashes dropped, begins with. */
  predicate BeginsWith(id: string, digits: string) {
    |digits| <= |Undashed(id)| && forall i :: 0 <= i < |digits| ==> SameDigit(Undashed(id)[i], digits[i])
  }

  lemma {:induction false} PrefixBegins(found: string, id: string, digits: string)
    requires |found| < 8 && (forall c :: c in found ==> IsHexDigit(c)) && |found + digits| == 8
    ensures PrefixFrom(found, id) == Some(found + digits) <==> BeginsWith(id, digits)
    decreases |id|
  {
    hide IsHex8;
    if id == "" {
    } else if id[0] == '-' {
      assert Undashed(id) == Undashed(id[1..]);
      PrefixBegins(found, id[1..], digits);
    } else {
      var c, u := Lowered(id[0]), Undashed(id[1..]);
      assert Undashed(id) == [id[0]] + u;
      assert digits == [digits[0]] + digits[1..];
      assert SameDigit(id[0], digits[0]) <==> IsHexDigit(c) && c == digits[0];
      assert found + digits == found + [digits[0]] + digits[1..];
      FirstThenRest(id[0], u, digits);
      assert BeginsWith(id, digits) <==> SameDigit(id[0], digits[0]) && BeginsWith(id[1..], digits[1..]);
      if !IsHexDigit(c) {
      } else if |found| == 7 {
        assert digits == [digits[0]];
        assert (found + [c])[7] == c && (found + digits)[7] == digits[0];
      } else if c == digits[0] {
        PrefixBegins(found + [c], id[1..], digits[1..]);
        assert found + [c] + digits[1..] == found + digits;
      } else {
        var r := PrefixFrom(found + [c], id[1..]);
        assert r.Some? ==> r.value[|found|] == c;
        assert (found + digits)[|found|] == digits[0];
      }
    }
  }

  lemma FirstThenRest(c: char, u: string, digits: string)
    requires digits != ""
    ensures (|digits| <= 1 + |u| && forall i :: 0 <= i < |digits| ==> SameDigit(([c] + u)[i], digits[i]))
       <==> SameDigit(c, digits[0]) && |digits[1..]| <= |u|
            && forall i :: 0 <= i < |digits[1..]| ==> SameDigit(u[i], digits[1..][i])
  {
    if |digits| <= 1 + |u| && forall i :: 0 <= i < |digits| ==> SameDigit(([c] + u)[i], digits[i]) {
      forall i | 0 <= i < |digits[1..]| ensures SameDigit(u[i], digits[1..][i]) {
        assert SameDigit(([c] + u)[i + 1], digits[i + 1]);
      }
    }
  }

  /** The prefix is the id's first eight hex digits in lower case, dashes dropped; there is none
      exactly when these are not eight hex digits. */
  lemma PrefixIsFirstEight(id: string, digits: string)
    ensures OperationIdPrefix(id) == Some(digits) <==> |digits| == 8 && BeginsWith(id, digits)
  {
    if |digits| == 8 {
      PrefixBegins("", id, digits);
      assert "" + digits == digits;
    }
  }

  method ReadOperationIdPrefix(id: string) returns (r: Option<string>)
    ensures r == OperationIdPrefix(id)
    ensures forall digits :: r == Some(digits) <==> |digits| == 8 && BeginsWith(id, digits)
  {
    hide BeginsWith;
    forall digits ensures OperationIdPrefix(id) == Some(digits) <==> |digits| == 8 && BeginsWith(id, digits) {
      PrefixIsFirstEight(id, digits);
    }
    var prefix := "";
    assert id[0..] == id;
    for i := 0 to |id|
      invariant |prefix| < 8 && forall c :: c in prefix ==> IsHexDigit(c)
      invariant PrefixFrom(prefix, id[i..]) == OperationIdPrefix(id)
    {
      assert id[i..][1..] == id[i + 1..];
      if id[i] != '-' {
        var c := Lowered(id[i]);
        if !IsHexDigit(c) {
          return None;
        }
        prefix := prefix + [c];
        if |prefix| == 8 {
          return Some(prefix);
        }
      }
    }
    return None;
  }

  // ---------- Birth names ----------

  function KindCode(k: ShapeType): char
    requires k != Other
  {
    match k
    case Face => 'f'
    case Edge => 'e'
    case Vertex => 'v'
  }

  function PrimitiveName(prefix: string, k: ShapeType, ordinal: nat): string
    requires k != Other && ordinal > 0
  {
    "n1:" + prefix + "." + [KindCode(k)] + "." + Decimal(ordinal)
  }

  /** The 1-based place of x in a map's enumeration. */
  function Ordinal(xs: seq<Shape>, x: Shape): (o: nat)
    requires x in xs
    ensures 1 <= o <= |xs| && xs[o - 1] == x
  {
    if xs[0] == x then 1
    else
      assert xs == [xs[0]] + xs[1..];
      1 + Ordinal(xs[1..], x)
  }

  function BirthName(w: World, prefix: string, shape: Shape, x: Shape): string
    requires InResult(w, shape, x)
  {
    PrimitiveName(prefix, w.kind(x), Ordinal(w.sub(shape, w.kind(x)), x))
  }

  /** The root names of every face, edge and vertex of a primitive. */
  ghost function Births(w: World, prefix: string, shape: Shape): map<Shape, string> {
    map x | x in ResultSet(w, shape) :: BirthName(w, prefix, shape, x)
  }

  /** What a string of digits denotes. */
  function ValueOf(s: string): int {
    if s == "" then 0 else 10 * ValueOf(s[..|s| - 1]) + (s[|s| - 1] as int - '0' as int)
  }

  lemma {:induction false} DecimalValue(n: nat)
    requires n > 0
    ensures ValueOf(Decimal(n)) == n
  {
    var s := Decimal(n);
    if n >= 10 {
      DecimalValue(n / 10);
      assert s[..|s| - 1] == Decimal(n / 10);
    } else {
      assert s[..|s| - 1] == "";
    }
  }

  /** A primitive's faces, edges and vertices are called f, e and v with their 1-based places. */
  lemma BirthsAre(w: World, prefix: string, shape: Shape, k: ShapeType, i: nat)
    requires WellFormed(w) && k != Other && i < |w.sub(shape, k)|
    ensures var x, births := w.sub(shape, k)[i], Births(w, prefix, shape);
      && x in births
      && var code := if k == Face then "f" else if k == Edge then "e" else "v";
         exists digits :: ValueOf(digits) == i + 1 && births[x] == "n1:" + prefix + "." + code + "." + digits
  {
    hide Decimal;
    var x := w.sub(shape, k)[i];
    ResultSetIs(w, shape);
    assert x in w.sub(shape, k);
    assert InResult(w, shape, x);
    assert Ordinal(w.sub(shape, k), x) == i + 1;
    DecimalValue(i + 1);
    assert BirthName(w, prefix, shape, x) == PrimitiveName(prefix, k, i + 1);
  }

  lemma DecimalDigits(n: nat)
    requires n > 0
    ensures forall c :: c in Decimal(n) ==> c != '/' && c != '.'
  {
    var s := Decimal(n);
    assert IsDecimal(s);
  }

  lemma PrimitiveNameInGrammar(prefix: string, k: ShapeType, ordinal: nat)
    requires IsHex8(prefix) && k != Other && ordinal > 0
    ensures InGrammar(PrimitiveName(prefix, k, ordinal))
  {
    var s := PrimitiveName(prefix, k, ordinal);
    assert s[3..][..8] == prefix && s[3..][11..] == Decimal(ordinal);
    HexHasNoSlash(prefix);
    DecimalDigits(ordinal);
    GrammarRoot(s);
  }

  lemma BirthsInGrammar(w: World, prefix: string, shape: Shape)
    requires IsHex8(prefix)
    ensures forall x :: x in Births(w, prefix, shape) ==> InGrammar(Births(w, prefix, shape)[x])
  {
    forall x | x in ResultSet(w, shape) ensures InGrammar(BirthName(w, prefix, shape, x)) {
      PrimitiveNameInGrammar(prefix, w.kind(x), Ordinal(w.sub(shape, w.kind(x)), x));
    }
  }

  lemma {:induction false} DecimalInjective(m: nat, n: nat)
    requires m > 0 && n > 0 && Decimal(m) == Decimal(n)
    ensures m == n
  {
    var s := Decimal(m);
    var last := s[|s| - 1];
    assert last == '0' + (m % 10) as char;
    assert last == '0' + (n % 10) as char;
    DecimalLength(m);
    DecimalLength(n);
    if m >= 10 {
      assert Decimal(m / 10) == s[..|s| - 1];
      assert Decimal(n / 10) == s[..|s| - 1];
      DecimalInjective(m / 10, n / 10);
    }
  }

  lemma DecimalLength(n: nat)
    requires n > 0
    ensures |Decimal(n)| == 1 <==> n < 10
    ensures |Decimal(n)| >= 1
  {
  }

  function Place(w: World, shape: Shape, x: Shape): nat
    requires InResult(w, shape, x)
  {
    Ordinal(w.sub(shape, w.kind(x)), x)
  }

  /** Births of two registrations, under one id or two, share a name exactly when the id prefix,
      the kind and the place in the enumeration agree. */
  lemma BirthsCollideIff(w: World, p: string, a: Shape, x: Shape, q: string, b: Shape, y: Shape)
    requires IsHex8(p) && IsHex8(q) && InResult(w, a, x) && InResult(w, b, y)
    ensures BirthName(w, p, a, x) == BirthName(w, q, b, y)
       <==> p == q && w.kind(x) == w.kind(y) && Place(w, a, x) == Place(w, b, y)
  {
    hide Decimal, Ordinal;
    var s, t := BirthName(w, p, a, x), BirthName(w, q, b, y);
    var i, j := Place(w, a, x), Place(w, b, y);
    assert s[3..11] == p && t[3..11] == q;
    assert s[12] == KindCode(w.kind(x)) && t[12] == KindCode(w.kind(y));
    assert s[14..] == Decimal(i) && t[14..] == Decimal(j);
    if s == t {
      DecimalInjective(i, j);
    }
  }

  /** No two entities of one registered shape share a name. */
  lemma BirthsDistinct(w: World, prefix: string, shape: Shape, x: Shape, y: Shape)
    requires IsHex8(prefix) && x in Births(w, prefix, shape) && y in Births(w, prefix, shape)
    requires Births(w, prefix, shape)[x] == Births(w, prefix, shape)[y]
    ensures x == y
  {
    BirthsCollideIff(w, prefix, shape, x, prefix, shape, y);
  }

  /** A prefix-stable enumeration keeps every ordinal, hence every name: cardinality edits
      that append instances rename none of the earlier ones. */
  lemma BirthsPrefixStable(w: World, prefix: string, before: Shape, after: Shape, x: Shape)
    requires InResult(w, before, x) && w.sub(before, w.kind(x)) <= w.sub(after, w.kind(x))
    ensures InResult(w, after, x) && BirthName(w, prefix, after, x) == BirthName(w, prefix, before, x)
  {
    OrdinalPrefix(w.sub(before, w.kind(x)), w.sub(after, w.kind(x)), x);
  }

  lemma {:induction false} OrdinalPrefix(xs: seq<Shape>, ys: seq<Shape>, x: Shape)
    requires xs <= ys && x in xs
    ensures x in ys && Ordinal(ys, x) == Ordinal(xs, x)
  {
    assert ys[0] == xs[0];
    if xs[0] != x {
      OrdinalPrefix(xs[1..], ys[1..], x);
    }
  }
}
