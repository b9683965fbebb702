// Construction identity as the naming header defines it: besides equal normal forms it also
// counts a normal form and its continuation by Modified steps as one identity. This wider
// relation is neither transitive nor visible through a hash; equality of normal forms is both.
module NameCongruence {
  import opened NameGrammar
  import opened NameDigest

  predicate IsModifiedStep(segment: string) {
    IsStep(segment) && segment[0] == 'M'
  }

  function NormalSegments(name: string): seq<string> {
    Split(Normalized(name))
  }

  /** The normal form of b goes on from that of a by Modified steps alone. */
  predicate ContinuesModified(a: string, b: string) {
    var s, t := NormalSegments(a), NormalSegments(b);
    s <= t && forall i :: |s| <= i < |t| ==> IsModifiedStep(t[i])
  }

  predicate SameIdentity(a: string, b: string) {
    Congruent(a, b) || ContinuesModified(a, b) || ContinuesModified(b, a)
  }

  lemma SplitAt(a: string)
    ensures var i := FirstSlash(a);
            if i == |a| then Split(a) == [a]
            else |Split(a)| > 1 && Split(a)[0] == a[..i] && Split(a)[1..] == Split(a[i + 1..])
                 && a == a[..i] + "/" + a[i + 1..]
  {
    hide FirstSlash, SlashFree;
    var i := FirstSlash(a);
    if i < |a| {
      assert a == a[..i] + [a[i]] + a[i + 1..];
      assert Split(a) == [a[..i]] + Split(a[i + 1..]);
    } else {
      assert a[..i] == a;
    }
  }

  lemma {:induction false} SplitInjective(a: string, b: string)
    requires Split(a) == Split(b)
    ensures a == b
    decreases |a|
  {
    hide Split, FirstSlash;
    SplitAt(a);
    SplitAt(b);
    if FirstSlash(a) < |a| {
      SplitInjective(a[FirstSlash(a) + 1..], b[FirstSlash(b) + 1..]);
    }
  }

  /** Of three names pairwise related through the middle one, the outer two are related exactly
      when their normal forms have not parted. */
  lemma TransitiveIffUnparted(a: string, b: string, c: string)
    requires SameIdentity(a, b) && SameIdentity(b, c)
    ensures SameIdentity(a, c)
       <==> NormalSegments(a) <= NormalSegments(c) || NormalSegments(c) <= NormalSegments(a)
  {
    hide NormalSegments, IsModifiedStep;
    CongruentSegments(a, b);
    CongruentSegments(b, c);
    CongruentSegments(a, c);
  }

  lemma CongruentSegments(a: string, b: string)
    ensures Congruent(a, b) <==> NormalSegments(a) == NormalSegments(b)
  {
    if NormalSegments(a) == NormalSegments(b) {
      SplitInjective(Normalized(a), Normalized(b));
    }
  }

  lemma KeptStepSegments(source: string, step: string)
    requires Normalized(source) != "" && SlashFree(step) && !IsPlainModified(step)
    ensures NormalSegments(source + "/" + step) == NormalSegments(source) + [step]
  {
    OtherStepIsKept(source, step);
    SplitAppend(Normalized(source), step);
    SplitSegment(step);
  }

  /** One kept step on: the same identity exactly for a Modified step. */
  lemma StepKeepsIdentityIff(source: string, step: string)
    requires Normalized(source) != "" && IsStep(step) && SlashFree(step) && !IsPlainModified(step)
    ensures SameIdentity(source + "/" + step, source) <==> step[0] == 'M'
  {
    hide Normalized, NormalSegments, IsStep, Congruent;
    KeptStepSegments(source, step);
    CongruentSegments(source + "/" + step, source);
    assert NormalSegments(source + "/" + step)[|NormalSegments(source)|] == step;
  }

  /** Every split breaks transitivity: both halves have their source's identity, but not each other's. */
  lemma SiblingsPart(source: string, left: string, right: string)
    requires Normalized(source) != "" && left != right
    requires IsModifiedStep(left) && SlashFree(left) && !IsPlainModified(left)
    requires IsModifiedStep(right) && SlashFree(right) && !IsPlainModified(right)
    ensures SameIdentity(source + "/" + left, source) && SameIdentity(source, source + "/" + right)
    ensures !SameIdentity(source + "/" + left, source + "/" + right)
  {
    hide Normalized, NormalSegments, IsStep, Congruent;
    var a, b := source + "/" + left, source + "/" + right;
    KeptStepSegments(source, left);
    KeptStepSegments(source, right);
    StepKeepsIdentityIff(source, left);
    StepKeepsIdentityIff(source, right);
    TransitiveIffUnparted(a, source, b);
    assert NormalSegments(a)[|NormalSegments(source)|] != NormalSegments(b)[|NormalSegments(source)|];
  }

  // ---------- Through a hash ----------

  function HashedRoot(hash8: string -> string, stem: string, names: seq<string>): string {
    stem + hash8(DigestInput(names))
  }

  lemma RootSegments(root: string)
    requires root != "" && root[0] == 'n' && SlashFree(root)
    ensures NormalSegments(root) == [root]
  {
    SplitSegment(root);
    assert |root| >= 2 ==> root[..2][0] == 'n';
    assert AbsorbAll("", [root]) == AbsorbAll(Absorb("", root), [root][1..]);
  }

  /** A root that hashes constituent names carries their identity on exactly through equal normal
      forms: of the wider relation nothing is left, as long as the hash does not collide. */
  lemma HashSeesNormalForms(hash8: string -> string, stem: string, a: seq<string>, b: seq<string>)
    requires stem != "" && stem[0] == 'n' && SlashFree(stem)
    requires AllLines(a) && AllLines(b)
    requires SlashFree(hash8(DigestInput(a))) && SlashFree(hash8(DigestInput(b)))
    requires hash8(DigestInput(a)) == hash8(DigestInput(b)) ==> DigestInput(a) == DigestInput(b)
    ensures SameIdentity(HashedRoot(hash8, stem, a), HashedRoot(hash8, stem, b)) <==> multiset(a) == multiset(b)
  {
    hide NormalSegments, IsStep, Congruent, DigestInput;
    var r, s := HashedRoot(hash8, stem, a), HashedRoot(hash8, stem, b);
    RootSegments(r);
    RootSegments(s);
    CongruentSegments(r, s);
    DigestInputInjective(a, b);
    if r == s {
      assert r[|stem|..] == s[|stem|..];
    }
  }

  /** A half of a split keeps its source's identity, but what is named after it does not. */
  lemma HashForgetsSplit(hash8: string -> string, stem: string, source: string, step: string)
    requires stem != "" && stem[0] == 'n' && SlashFree(stem)
    requires InGrammar(source) && IsModifiedStep(step) && SlashFree(step) && !IsPlainModified(step)
    requires var s, t := DigestInput([Normalized(source + "/" + step)]), DigestInput([Normalized(source)]);
             SlashFree(hash8(s)) && SlashFree(hash8(t)) && (hash8(s) == hash8(t) ==> s == t)
    ensures SameIdentity(source + "/" + step, source)
    ensures !SameIdentity(HashedRoot(hash8, stem, [Normalized(source + "/" + step)]),
                          HashedRoot(hash8, stem, [Normalized(source)]))
  {
    hide NormalSegments, IsStep, Normalized, SameIdentity, InGrammar, HashedRoot, IsPlainModified, SlashFree;
    var half := source + "/" + step;
    GrammarExtend(source, step);
    GrammarOneLine(source);
    GrammarOneLine(half);
    StepKeepsIdentityIff(source, step);
    OtherStepIsKept(source, step);
    HashSeesNormalForms(hash8, stem, [Normalized(half)], [Normalized(source)]);
    assert multiset([Normalized(half)])[Normalized(half)] == 1;
    assert Normalized(half) != Normalized(source);
  }

  // ---------- Grammatical names are single lines ----------

  lemma {:induction false} AbsorbedOneLine(normalized: string, segments: seq<string>)
    requires OneLine(normalized) && forall i :: 0 <= i < |segments| ==> OneLine(segments[i])
    ensures OneLine(AbsorbAll(normalized, segments))
    ensures normalized != "" ==> AbsorbAll(normalized, segments) != ""
    decreases |segments|
  {
    if segments != [] {
      AbsorbedOneLine(Absorb(normalized, segments[0]), segments[1..]);
    }
  }

  lemma HexOneLine(s: string)
    requires forall c :: c in s ==> IsHexDigit(c)
    ensures OneLine(s)
  {
  }

  lemma StepOneLine(s: string)
    requires IsStep(s)
    ensures OneLine(s)
  {
    HexOneLine(s[2..10]);
    if |s| == 19 {
      HexOneLine(s[11..]);
      assert s == s[..2] + s[2..10] + [s[10]] + s[11..];
    } else {
      assert s == s[..2] + s[2..10];
    }
  }

  lemma RootOneLine(s: string)
    requires IsRoot(s)
    ensures OneLine(s) && !IsPlainModified(s) && s != ""
  {
    assert s == "n1:" + s[3..];
    BodyOneLine(s[3..]);
    assert s[..2][0] == 'n';
  }

  lemma BodyOneLine(s: string)
    requires IsPrimitiveBody(s) || IsDerivedBody(s)
    ensures OneLine(s)
  {
    if IsPrimitiveBody(s) {
      HexOneLine(s[..8]);
      assert s == s[..8] + s[8..11] + s[11..];
    } else {
      HexOneLine(s[2..10]);
      if |s| == 19 {
        HexOneLine(s[11..]);
        assert s == s[..2] + s[2..10] + [s[10]] + s[11..];
      } else if |s| == 28 {
        HexOneLine(s[11..19]);
        HexOneLine(s[20..]);
        assert s == s[..2] + s[2..10] + [s[10]] + s[11..19] + [s[19]] + s[20..];
      } else {
        assert s == s[..2] + s[2..10];
      }
    }
  }

  lemma GrammarOneLine(name: string)
    requires InGrammar(name)
    ensures Normalized(name) != "" && OneLine(Normalized(name))
  {
    hide IsRoot, IsStep;
    var segments := Split(name);
    RootOneLine(segments[0]);
    forall i | 1 <= i < |segments| ensures OneLine(segments[i]) {
      StepOneLine(segments[i]);
    }
    AbsorbedOneLine(Absorb("", segments[0]), segments[1..]);
  }
}
