// The text of lineage names: splitting on '/', the normalization that erases plain
// Modified steps, and the grammar every emitted name obeys.
module NameGrammar {

  // ---------- '/'-separated segments ----------

  predicate SlashFree(s: string) {
    '/' !in s
  }

  /** Position of the first '/', or |s| when there is none. */
  function FirstSlash(s: string): (i: nat)
    ensures i <= |s| && forall j :: 0 <= j < i ==> s[j] != '/'
    ensures i < |s| ==> s[i] == '/'
  {
    if s == "" || s[0] == '/' then 0
    else
      var next := 1 + FirstSlash(s[1..]);
      assert s[..next] == [s[0]] + s[1..][..next - 1];
      next
  }

  function Split(s: string): (segments: seq<string>)
    ensures |segments| > 0
    ensures forall seg :: seg in segments ==> SlashFree(seg)
    decreases |s|
  {
    var i := FirstSlash(s);
    if i == |s| then assert s[..i] == s; [s] else [s[..i]] + Split(s[i + 1..])
  }

  lemma FirstSlashIs(a: string, b: string)
    requires SlashFree(a)
    ensures FirstSlash(a + "/" + b) == |a|
    ensures FirstSlash(a) == |a|
  {
    if a != "" {
      FirstSlashIs(a[1..], b);
      assert (a + "/" + b)[1..] == a[1..] + "/" + b;
    }
  }

  lemma SplitAtSlash(head: string, tail: string)
    requires SlashFree(head)
    ensures Split(head + "/" + tail) == [head] + Split(tail)
  {
    FirstSlashIs(head, tail);
    var s := head + "/" + tail;
    assert s[..|head|] == head && s[|head| + 1..] == tail;
  }

  lemma SplitSegment(seg: string)
    requires SlashFree(seg)
    ensures Split(seg) == [seg]
  {
    FirstSlashIs(seg, "");
    assert seg[..|seg|] == seg;
  }

  lemma {:induction false} SplitAppend(a: string, b: string)
    ensures Split(a + "/" + b) == Split(a) + Split(b)
    decreases |a|
  {
    hide Split;
    var i := FirstSlash(a);
    if i == |a| {
      assert a[..i] == a;
      SplitSegment(a);
      SplitAtSlash(a, b);
    } else {
      var head, tail := a[..i], a[i + 1..];
      assert a == head + "/" + tail;
      assert a + "/" + b == head + "/" + (tail + "/" + b);
      SplitAtSlash(head, tail);
      SplitAtSlash(head, tail + "/" + b);
      SplitAppend(tail, b);
    }
  }

  // ---------- Normalization ----------

  predicate IsHexDigit(c: char) {
    '0' <= c <= '9' || 'a' <= c <= 'f'
  }

  predicate IsHex8(s: string) {
    |s| == 8 && forall c :: c in s ==> IsHexDigit(c)
  }

  /** Exactly "M." and eight hex digits: a step that keeps the identity of its source. */
  predicate IsPlainModified(segment: string) {
    |segment| == 10 && segment[..2] == "M." && IsHex8(segment[2..])
  }

  /** One turn of the normalization loop: what `normalized` becomes after `segment`. */
  function Absorb(normalized: string, segment: string): string {
    if IsPlainModified(segment) then normalized
    else if normalized == "" then segment
    else normalized + "/" + segment
  }

  function AbsorbAll(normalized: string, segments: seq<string>): string
    decreases |segments|
  {
    if segments == [] then normalized
    else AbsorbAll(Absorb(normalized, segments[0]), segments[1..])
  }

  function Normalized(name: string): string {
    AbsorbAll("", Split(name))
  }

  /** Equal normal forms: what every embedded hash sees of two names (see NameCongruence). */
  predicate Congruent(a: string, b: string) {
    Normalized(a) == Normalized(b)
  }

  /** The normalization loop itself. */
  method NormalizeName(name: string) returns (normalized: string)
    ensures normalized == Normalized(name)
  {
    hide SegmentsFrom, Split, FirstSlash, IsPlainModified;
    normalized := "";
    var position := 0;
    ghost var rest := Split(name);
    SegmentsFromStart(name);
    while position <= |name|
      invariant position <= |name| + 1 && rest == SegmentsFrom(name, position)
      invariant AbsorbAll(normalized, rest) == Normalized(name)
    {
      var end := position + FirstSlash(name[position..]);
      SegmentsFromStep(name, position);
      normalized := Absorb(normalized, name[position..end]);
      rest := rest[1..];
      position := end + 1;
    }
  }

  /** The segments not yet read when the loop stands at `position`. */
  function SegmentsFrom(name: string, position: nat): seq<string>
    requires position <= |name| + 1
  {
    if position > |name| then [] else Split(name[position..])
  }

  lemma SegmentsFromStart(name: string)
    ensures SegmentsFrom(name, 0) == Split(name)
    ensures SegmentsFrom(name, |name| + 1) == []
  {
    assert name[0..] == name;
  }

  lemma SegmentsFromStep(name: string, position: nat)
    requires position <= |name|
    ensures var end := position + FirstSlash(name[position..]);
            var from := SegmentsFrom(name, position);
            && from != [] && from[0] == name[position..end] && from[1..] == SegmentsFrom(name, end + 1)
            && position <= end <= |name|
  {
    var rest := name[position..];
    var i := FirstSlash(rest);
    assert rest[..i] == name[position..position + i];
    if i < |rest| {
      assert rest[i + 1..] == name[position + i + 1..];
    } else {
      assert rest[..i] == rest;
    }
  }

  lemma {:induction false} AbsorbConcat(normalized: string, s: seq<string>, t: seq<string>)
    ensures AbsorbAll(normalized, s + t) == AbsorbAll(AbsorbAll(normalized, s), t)
    decreases |s|
  {
    if s == [] {
      assert s + t == t;
    } else {
      assert (s + t)[1..] == s[1..] + t;
      AbsorbConcat(Absorb(normalized, s[0]), s[1..], t);
    }
  }

  /** Normalization is a left fold over '/': the front of a name is seen only through its normal form. */
  lemma NormalizedAppend(a: string, b: string)
    ensures Normalized(a + "/" + b) == AbsorbAll(Normalized(a), Split(b))
  {
    SplitAppend(a, b);
    AbsorbConcat("", Split(a), Split(b));
  }

  /** Appending one and the same text keeps two congruent names congruent. */
  lemma CongruentExtend(a: string, b: string, tail: string)
    requires Congruent(a, b)
    ensures Congruent(a + "/" + tail, b + "/" + tail)
  {
    NormalizedAppend(a, tail);
    NormalizedAppend(b, tail);
  }

  /** A plain Modified step may be inserted in, or erased from, any place in a chain. */
  lemma PlainStepIsNeutral(a: string, m: string, b: string)
    requires IsPlainModified(m) && SlashFree(m)
    ensures Congruent(a + "/" + m, a)
    ensures Congruent(a + "/" + m + "/" + b, a + "/" + b)
    ensures Congruent(m + "/" + b, b)
  {
    SplitSegment(m);
    NormalizedAppend(a, m);
    NormalizedAppend(a + "/" + m, b);
    NormalizedAppend(a, b);
    NormalizedAppend(m, b);
    assert AbsorbAll("", [m]) == AbsorbAll(Absorb("", m), [m][1..]);
  }

  /** Every other step is kept, at the same place. */
  lemma OtherStepIsKept(a: string, step: string)
    requires !IsPlainModified(step) && SlashFree(step) && Normalized(a) != ""
    ensures Normalized(a + "/" + step) == Normalized(a) + "/" + step
  {
    SplitSegment(step);
    NormalizedAppend(a, step);
  }

  // The segments of a normal form are those of the name that are not plain Modified
  // steps, less the empty ones that come first.
  function Kept(started: bool, segments: seq<string>): (kept: seq<string>)
    ensures forall seg :: seg in kept ==> seg in segments && !IsPlainModified(seg)
    ensures !started && kept != [] ==> kept[0] != ""
    decreases |segments|
  {
    if segments == [] then []
    else if IsPlainModified(segments[0]) || (!started && segments[0] == "") then Kept(started, segments[1..])
    else [segments[0]] + Kept(true, segments[1..])
  }

  lemma {:induction false} AbsorbKept(normalized: string, segments: seq<string>)
    ensures AbsorbAll(normalized, segments) == AbsorbAll(normalized, Kept(normalized != "", segments))
    decreases |segments|
  {
    if segments != [] {
      AbsorbKept(Absorb(normalized, segments[0]), segments[1..]);
    }
  }

  lemma {:induction false} SplitAbsorbed(normalized: string, kept: seq<string>)
    requires normalized != ""
    requires forall i :: 0 <= i < |kept| ==> SlashFree(kept[i]) && !IsPlainModified(kept[i])
    ensures Split(AbsorbAll(normalized, kept)) == Split(normalized) + kept
    decreases |kept|
  {
    hide Split, Absorb, IsPlainModified, SlashFree;
    if kept != [] {
      SplitOne(normalized, kept[0]);
      SplitAbsorbed(Absorb(normalized, kept[0]), kept[1..]);
      assert Split(normalized) + kept == Split(normalized) + [kept[0]] + kept[1..];
    }
  }

  lemma SplitOne(normalized: string, step: string)
    requires normalized != "" && SlashFree(step) && !IsPlainModified(step)
    ensures Absorb(normalized, step) != ""
    ensures Split(Absorb(normalized, step)) == Split(normalized) + [step]
  {
    SplitAppend(normalized, step);
    SplitSegment(step);
  }

  /** The segments of a normal form. */
  lemma SplitNormalized(name: string)
    ensures var kept := Kept(false, Split(name));
            if kept == [] then Normalized(name) == "" else Split(Normalized(name)) == kept
  {
    var kept := Kept(false, Split(name));
    AbsorbKept("", Split(name));
    if kept != [] {
      SplitSegment(kept[0]);
      SplitAbsorbed(kept[0], kept[1..]);
      assert kept == [kept[0]] + kept[1..];
    }
  }

  /** Normalization is idempotent, for every text whatsoever. */
  lemma NormalizedTwice(name: string)
    ensures Normalized(Normalized(name)) == Normalized(name)
  {
    var kept := Kept(false, Split(name));
    SplitNormalized(name);
    AbsorbKept("", Split(name));
    if kept == [] {
      SplitSegment("");
    }
  }

  /** Two names are congruent exactly when they keep the same segments. */
  lemma CongruentIffSameSegments(a: string, b: string)
    ensures Congruent(a, b) <==> Kept(false, Split(a)) == Kept(false, Split(b))
  {
    SplitNormalized(a);
    SplitNormalized(b);
    AbsorbKept("", Split(a));
    AbsorbKept("", Split(b));
    SplitSegment("");
  }

  // ---------- Grammar ----------

  /** `M.<8 hex>` or `G.<8 hex>`, with or without a sibling disambiguator `.<8 hex>`. */
  predicate IsStep(s: string) {
    && |s| >= 10 && s[0] in "MG" && s[1] == '.' && IsHex8(s[2..10])
    && (|s| == 10 || (|s| == 19 && s[10] == '.' && IsHex8(s[11..])))
  }

  predicate IsDecimal(s: string) {
    s != "" && s[0] != '0' && forall c :: c in s ==> '0' <= c <= '9'
  }

  /** `<8 hex>.<f|e|v>.<ordinal>` */
  predicate IsPrimitiveBody(s: string) {
    |s| >= 12 && IsHex8(s[..8]) && s[8] == '.' && s[9] in "fev" && s[10] == '.' && IsDecimal(s[11..])
  }

  /** `S.<8 hex>.<8 hex>` with or without a disambiguator, `L.<8 hex>.<8 hex>`, `Q.<8 hex>`. */
  predicate IsDerivedBody(s: string) {
    && |s| >= 10 && s[1] == '.' && IsHex8(s[2..10])
    && (|| (s[0] in "SL" && |s| == 19 && s[10] == '.' && IsHex8(s[11..]))
        || (s[0] == 'S' && |s| == 28 && s[10] == '.' && IsHex8(s[11..19]) && s[19] == '.' && IsHex8(s[20..]))
        || (s[0] == 'Q' && |s| == 10))
  }

  predicate IsRoot(s: string) {
    |s| >= 3 && s[..3] == "n1:" && (IsPrimitiveBody(s[3..]) || IsDerivedBody(s[3..]))
  }

  /** One root segment, then steps. */
  predicate InGrammar(name: string) {
    var segments := Split(name);
    IsRoot(segments[0]) && forall i :: 1 <= i < |segments| ==> IsStep(segments[i])
  }

  lemma HexHasNoSlash(s: string)
    requires forall c :: c in s ==> IsHexDigit(c)
    ensures SlashFree(s)
  {
  }

  /** A chain in the grammar that takes one more step stays in it. */
  lemma GrammarExtend(name: string, step: string)
    requires InGrammar(name) && IsStep(step) && SlashFree(step)
    ensures InGrammar(name + "/" + step)
  {
    SplitAppend(name, step);
    SplitSegment(step);
  }

  lemma GrammarRoot(root: string)
    requires IsRoot(root) && SlashFree(root)
    ensures InGrammar(root)
  {
    SplitSegment(root);
  }

  /** Only the first segment of a name in the grammar carries the version prefix. */
  lemma OneRoot(name: string, i: nat)
    requires InGrammar(name) && i < |Split(name)|
    ensures IsRoot(Split(name)[i]) <==> i == 0
  {
    var s := Split(name)[i];
    if i > 0 {
      assert IsStep(s) && s[0] in "MG";
      assert s[..3][0] == s[0];
    }
  }

  /** The decimal digits of a positive ordinal. */
  function Decimal(n: nat): (s: string)
    requires n > 0
    ensures IsDecimal(s)
  {
    var digit := ['0' + (n % 10) as char];
    if n < 10 then digit else Decimal(n / 10) + digit
  }
}
