// What the fates of a construction correspondence mean, said of the two constructions as they
// were handed in: their arguments and histories, without the lineages read from them.
module CorrespondenceMeaning {
  import opened Outcomes
  import opened ElementNaming
  import opened Correspondence
  import opened CorrespondenceLaws

  // ---------- Descent in one construction ----------

  ghost predicate Owns(s: Construction, owner: string) {
    exists i :: 0 <= i < |s.owners| && s.owners[i].0 == owner
  }

  /** x is the argument sub-shape that the key names. */
  ghost predicate PartIs(w: World, s: Construction, key: Key, x: Shape) {
    && key.kind in {Face, Edge, Vertex}
    && exists i :: 0 <= i < |s.owners| && s.owners[i].0 == key.owner && key.index < |w.sub(s.owners[i].1, key.kind)|
                && w.sub(s.owners[i].1, key.kind)[key.index] == x
  }

  /** y is what is left of the named argument sub-shape: itself if the history is silent about it. */
  ghost predicate Continues(w: World, s: Construction, key: Key, y: Shape) {
    exists x :: PartIs(w, s, key, x) && !s.removed(x) && if s.modified(x) == [] then y == x else y in s.modified(x)
  }

  /** The named argument sub-shape generated y. */
  ghost predicate Bears(w: World, s: Construction, key: Key, y: Shape) {
    exists x :: PartIs(w, s, key, x) && y in s.generated(x)
  }

  ghost predicate Continued(w: World, s: Construction, x: Shape) {
    exists key :: Continues(w, s, key, x)
  }

  /** x descends from the named sub-shape: generated counts only for what continues nothing. */
  ghost predicate ComesFrom(w: World, s: Construction, key: Key, x: Shape) {
    if Continued(w, s, x) then Continues(w, s, key, x) else Bears(w, s, key, x)
  }

  // ---------- Fates ----------

  /** y descends afterwards, and in the same way, from everything x descends from before. */
  ghost predicate Candidate(w: World, before: Construction, after: Construction, x: Shape, y: Shape) {
    && w.kind(y) == w.kind(x) && InResult(w, after.result, y)
    && forall key :: ComesFrom(w, before, key, x) ==>
         if Continued(w, before, x) then Continues(w, after, key, y) else Bears(w, after, key, y)
  }

  /** y lies in the image of every face, or face and edge, around x that has one. */
  ghost predicate Inside(w: World, xs: seq<Shape>, fates: seq<Fate>, x: Shape, y: Shape)
    requires |fates| == |xs|
  {
    forall j :: 0 <= j < |xs| && fates[j].Stable? && x in w.sub(xs[j], w.kind(x))
        && ((w.kind(xs[j]) == Face && w.kind(x) != Face) || (w.kind(xs[j]) == Edge && w.kind(x) == Vertex))
      ==> y in w.sub(fates[j].image, w.kind(x))
  }

  /** Gone with an argument; or the one candidate, or the one candidate inside. */
  ghost predicate Deserved(w: World, before: Construction, after: Construction, fates: seq<Fate>, i: nat)
    requires var xs := ShapesOf(w, before.result); |fates| == |xs| && i < |xs|
  {
    var xs := ShapesOf(w, before.result);
    && (exists key :: ComesFrom(w, before, key, xs[i]))
    && (fates[i] == Gone <==> exists key :: ComesFrom(w, before, key, xs[i]) && !Owns(after, key.owner))
    && (fates[i].Stable? ==>
          && Candidate(w, before, after, xs[i], fates[i].image)
          && ((forall y :: Candidate(w, before, after, xs[i], y) ==> y == fates[i].image)
              || (forall y :: Candidate(w, before, after, xs[i], y) ==>
                    (y == fates[i].image <==> Inside(w, xs, fates, xs[i], y)))))
  }

  ghost predicate SameCounts(w: World, before: Construction, after: Construction) {
    forall i, j, k :: 0 <= i < |before.owners| && 0 <= j < |after.owners| && k in {Face, Edge, Vertex}
        && before.owners[i].0 == after.owners[j].0
      ==> |w.sub(before.owners[i].1, k)| == |w.sub(after.owners[j].1, k)|
  }

  ghost predicate AllDeserved(w: World, before: Construction, after: Construction, fates: seq<Fate>) {
    && |fates| == |ShapesOf(w, before.result)|
    && (forall i :: 0 <= i < |fates| ==> Deserved(w, before, after, fates, i))
    && (forall i, j :: 0 <= i < j < |fates| && fates[i].Stable? ==> fates[i] != fates[j])
  }

  /** Two constructions whose histories agree with their results. */
  ghost predicate Readable(w: World, s: Construction) {
    WellFormed(w) && Consistent(w, s) && DistinctOwners(s)
  }

  function Reading(w: World, before: Construction, after: Construction): Pairing {
    Pairing(w, LineageOf(w, before), LineageOf(w, after), before.result, after.result)
  }

  // ---------- What a lineage reads ----------

  lemma PartDenoted(w: World, s: Construction, key: Key)
    requires DistinctOwners(s)
    ensures forall x :: PartIs(w, s, key, x) <==> exists i: nat :: Denotes(w, s, i, key) && Denoted(w, s, i, key) == x
    ensures forall x, y :: PartIs(w, s, key, x) && PartIs(w, s, key, y) ==> x == y
  {
    assert key.kind in KINDS <==> key.kind in {Face, Edge, Vertex};
    forall x | PartIs(w, s, key, x) ensures exists i: nat :: Denotes(w, s, i, key) && Denoted(w, s, i, key) == x {
      var i: nat :| i < |s.owners| && s.owners[i].0 == key.owner && key.index < |w.sub(s.owners[i].1, key.kind)|
        && w.sub(s.owners[i].1, key.kind)[key.index] == x;
      assert Denotes(w, s, i, key);
    }
  }

  lemma LineageReads(w: World, s: Construction, key: Key, y: Shape)
    requires DistinctOwners(s)
    ensures Descends(LineageOf(w, s).images, key, y) <==> Continues(w, s, key, y)
    ensures Descends(LineageOf(w, s).generated, key, y) <==> Bears(w, s, key, y)
  {
    hide LineageOf, PartIs, DistinctOwners, Denotes;
    PartDenoted(w, s, key);
    LineageIs(w, s, key);
    if i: nat :| Denotes(w, s, i, key) {
      var x := Denoted(w, s, i, key);
      assert PartIs(w, s, key, x);
      assert At(LineageOf(w, s), key) == Recording(s, (None, None), x);
    }
  }

  lemma {:induction false} ExtentsRead(w: World, s: Construction, l: Lineage, owner: string, k: ShapeType,
                                       xs: seq<Shape>, n: nat)
    requires n <= |xs|
    ensures ShapesRead(w, s, l, owner, k, xs, n).extents == l.extents
  {
    if n > 0 {
      ExtentsRead(w, s, l, owner, k, xs, n - 1);
    }
  }

  /** The number of sub-shapes of one owner and kind that a lineage has on record. */
  function CountOf(l: Lineage, owner: string, k: ShapeType): Option<nat> {
    if (owner, k) in l.extents then Some(l.extents[(owner, k)]) else None
  }

  lemma {:induction false} KindCounts(
    w: World, s: Construction, l: Lineage, owner: (string, Shape), n: nat, name: string, k: ShapeType)
    requires n <= |KINDS|
    ensures CountOf(KindsRead(w, s, l, owner, n), name, k)
         == if name == owner.0 && k in KINDS[..n] then Some(|w.sub(owner.1, k)|) else CountOf(l, name, k)
  {
    hide ShapesRead;
    if n > 0 {
      var j := KINDS[n - 1];
      KindCounts(w, s, l, owner, n - 1, name, k);
      assert KINDS[..n] == KINDS[..n - 1] + [j];
      ExtentsRead(w, s, WithExtent(w, KindsRead(w, s, l, owner, n - 1), owner, j), owner.0, j, w.sub(owner.1, j),
        |w.sub(owner.1, j)|);
    }
  }

  /** Every owner's counts are recorded, and nothing else is. */
  lemma {:induction false} OwnerCounts(w: World, s: Construction, n: nat, name: string, k: ShapeType)
    requires n <= |s.owners| && DistinctOwners(s)
    ensures forall i: nat :: i < n && s.owners[i].0 == name && k in KINDS ==>
              CountOf(OwnersRead(w, s, n), name, k) == Some(|w.sub(s.owners[i].1, k)|)
    ensures CountOf(OwnersRead(w, s, n), name, k).Some? ==>
              k in KINDS && exists i: nat :: i < n && s.owners[i].0 == name
  {
    hide KindsRead;
    if n > 0 {
      OwnerCounts(w, s, n - 1, name, k);
      var l := WithOwner(OwnersRead(w, s, n - 1), s.owners[n - 1].0);
      KindCounts(w, s, l, s.owners[n - 1], |KINDS|, name, k);
      assert KINDS[..|KINDS|] == KINDS;
    }
  }

  ghost predicate SameCount(w: World, before: Construction, after: Construction, name: string, k: ShapeType) {
    forall i, j :: 0 <= i < |before.owners| && 0 <= j < |after.owners| && k in {Face, Edge, Vertex}
        && before.owners[i].0 == name && after.owners[j].0 == name
      ==> |w.sub(before.owners[i].1, k)| == |w.sub(after.owners[j].1, k)|
  }

  lemma CountIs(w: World, before: Construction, after: Construction, name: string, k: ShapeType)
    requires Readable(w, before) && Readable(w, after)
    ensures var b, a := LineageOf(w, before), LineageOf(w, after);
      (CountOf(b, name, k).Some? && name in a.owners ==> CountOf(a, name, k) == CountOf(b, name, k))
      <==> SameCount(w, before, after, name, k)
  {
    hide Consistent, WellFormed, DistinctOwners, OwnersRead, CountOf;
    OwnerCounts(w, before, |before.owners|, name, k);
    OwnerCounts(w, after, |after.owners|, name, k);
    OwnersAre(w, after, name);
    assert k in KINDS <==> k in {Face, Edge, Vertex};
  }

  lemma CountsAre(w: World, before: Construction, after: Construction)
    requires Readable(w, before) && Readable(w, after)
    ensures Congruent(LineageOf(w, before), LineageOf(w, after)) <==> SameCounts(w, before, after)
  {
    hide Readable, LineageOf, Congruent, CountOf;
    forall name, k
      ensures var b, a := LineageOf(w, before), LineageOf(w, after);
        (CountOf(b, name, k).Some? && name in a.owners ==> CountOf(a, name, k) == CountOf(b, name, k))
        <==> SameCount(w, before, after, name, k)
    {
      CountIs(w, before, after, name, k);
    }
    CongruentByCount(LineageOf(w, before), LineageOf(w, after));
    SameCountEach(w, before, after);
  }

  lemma SameCountEach(w: World, before: Construction, after: Construction)
    ensures SameCounts(w, before, after) <==> forall name, k :: SameCount(w, before, after, name, k)
  {
    if forall name, k :: SameCount(w, before, after, name, k) {
      forall i, j, k | 0 <= i < |before.owners| && 0 <= j < |after.owners| && k in {Face, Edge, Vertex}
          && before.owners[i].0 == after.owners[j].0
        ensures |w.sub(before.owners[i].1, k)| == |w.sub(after.owners[j].1, k)|
      {
        assert SameCount(w, before, after, before.owners[i].0, k);
      }
    }
  }

  lemma CongruentByCount(b: Lineage, a: Lineage)
    ensures Congruent(b, a) <==> forall name, k ::
      CountOf(b, name, k).Some? && name in a.owners ==> CountOf(a, name, k) == CountOf(b, name, k)
  {
    if Congruent(b, a) {
      forall name, k | CountOf(b, name, k).Some? && name in a.owners
        ensures CountOf(a, name, k) == CountOf(b, name, k)
      {
        assert (name, k) in b.extents;
      }
    }
    if forall name, k :: CountOf(b, name, k).Some? && name in a.owners ==> CountOf(a, name, k) == CountOf(b, name, k) {
      forall ok | ok in b.extents && ok.0 in a.owners ensures ok in a.extents && a.extents[ok] == b.extents[ok] {
        assert CountOf(b, ok.0, ok.1).Some?;
        assert ok == (ok.0, ok.1);
      }
    }
  }

  lemma OwnersAre(w: World, s: Construction, owner: string)
    requires Readable(w, s)
    ensures owner in LineageOf(w, s).owners <==> Owns(s, owner)
  {
    hide Consistent, WellFormed, DistinctOwners;
    OwnersSound(w, s, |s.owners|);
  }

  // ---------- One entity's decision ----------

  lemma ParentsAre(w: World, s: Construction, x: Shape)
    requires DistinctOwners(s)
    ensures KeysOf(LineageOf(w, s).images, x) != {} <==> Continued(w, s, x)
    ensures forall key :: key in ParentsOf(LineageOf(w, s), x) <==> ComesFrom(w, s, key, x)
  {
    hide LineageOf, DistinctOwners, Continues, Bears;
    var l := LineageOf(w, s);
    forall key
      ensures key in KeysOf(l.images, x) <==> Continues(w, s, key, x)
      ensures key in KeysOf(l.generated, x) <==> Bears(w, s, key, x)
    {
      LineageReads(w, s, key, x);
    }
  }

  lemma GoneIs(w: World, before: Construction, after: Construction, x: Shape)
    requires Readable(w, before) && Readable(w, after)
    ensures ParentsOf(LineageOf(w, before), x) != {} <==> exists key :: ComesFrom(w, before, key, x)
    ensures OwnerGone(Reading(w, before, after), x)
       <==> exists key :: ComesFrom(w, before, key, x) && !Owns(after, key.owner)
  {
    hide LineageOf, WellFormed, Consistent, DistinctOwners, ComesFrom, Owns, ParentsOf;
    ParentsAre(w, before, x);
    forall owner ensures owner in LineageOf(w, after).owners <==> Owns(after, owner) {
      OwnersAre(w, after, owner);
    }
  }

  lemma CandidatesAre(w: World, before: Construction, after: Construction, x: Shape)
    requires Readable(w, before) && Readable(w, after) && w.kind(x) != Other
    ensures forall y :: y in Candidates(Reading(w, before, after), x) <==> Candidate(w, before, after, x, y)
  {
    hide LineageOf, Nested, Distinct, Consistent, DistinctOwners, ComesFrom, ParentsOf, Continues, Bears, Continued;
    ParentsAre(w, before, x);
    forall key, y
      ensures Descends(LineageOf(w, after).images, key, y) <==> Continues(w, after, key, y)
      ensures Descends(LineageOf(w, after).generated, key, y) <==> Bears(w, after, key, y)
    {
      LineageReads(w, after, key, y);
    }
  }

  lemma InsideIs(w: World, before: Construction, after: Construction, fates: seq<Fate>, x: Shape, y: Shape)
    requires WellFormed(w) && |fates| == |ShapesOf(w, before.result)| && w.kind(x) != Other
    ensures var xs := ShapesOf(w, before.result);
      (forall z :: z in Surrounding(Reading(w, before, after), x, ImageMap(xs, fates, |xs|)) ==>
        y in w.sub(z, w.kind(x)))
      <==> Inside(w, xs, fates, x, y)
  {
    var xs := ShapesOf(w, before.result);
    OnceEach(w, before.result);
    ResultSetIs(w, before.result);
    var images := ImageMap(xs, fates, |xs|);
    hide LineageOf, WellFormed, ImageMap, ShapesOf;
    forall i | 0 <= i < |xs| && fates[i].Stable? ensures xs[i] in images && images[xs[i]] == fates[i].image {
      ImageMapHas(xs, fates, |xs|, i);
    }
    forall z | z in images ensures exists i :: 0 <= i < |xs| && xs[i] == z && fates[i] == Stable(images[z]) {
      var i := ImageMapFrom(xs, fates, |xs|, z);
    }
    InsideBySurrounding(w, before, after, xs, fates, images, x, y);
  }

  lemma InsideBySurrounding(
    w: World, before: Construction, after: Construction, xs: seq<Shape>, fates: seq<Fate>, images: map<Shape, Shape>,
    x: Shape, y: Shape)
    requires |fates| == |xs| && forall x :: x in xs <==> InResult(w, before.result, x)
    requires forall i :: 0 <= i < |xs| && fates[i].Stable? ==> xs[i] in images && images[xs[i]] == fates[i].image
    requires forall z :: z in images ==> exists i :: 0 <= i < |xs| && xs[i] == z && fates[i] == Stable(images[z])
    requires w.kind(x) != Other
    ensures (forall z :: z in Surrounding(Reading(w, before, after), x, images) ==> y in w.sub(z, w.kind(x)))
       <==> Inside(w, xs, fates, x, y)
  {
    hide LineageOf, InResult;
    var around := Surrounding(Reading(w, before, after), x, images);
    if forall z :: z in around ==> y in w.sub(z, w.kind(x)) {
      forall j | 0 <= j < |xs| && fates[j].Stable? && x in w.sub(xs[j], w.kind(x)) && Higher(w.kind(xs[j]), w.kind(x))
        ensures y in w.sub(fates[j].image, w.kind(x))
      {
        assert xs[j] in xs;
        assert images[xs[j]] in around;
      }
    }
  }

  lemma FitsIs(w: World, before: Construction, after: Construction, fates: seq<Fate>, i: nat)
    requires Readable(w, before) && Readable(w, after)
    requires |fates| == |ShapesOf(w, before.result)| && i < |fates|
    ensures var xs := ShapesOf(w, before.result);
      Fits(Reading(w, before, after), xs[i], fates[i], ImageMap(xs, fates, |xs|))
      <==> Deserved(w, before, after, fates, i)
  {
    hide LineageOf, Consistent, DistinctOwners, ComesFrom, ParentsOf, Forced, Candidates, Refined, Surrounding,
      Candidate, Inside, Owns, ImageMap, OwnerGone, ShapesOf, Nested, Distinct;
    var xs := ShapesOf(w, before.result);
    var x := xs[i];
    ResultSetIs(w, before.result);
    assert x in xs;
    GoneIs(w, before, after, x);
    CandidatesAre(w, before, after, x);
    if fates[i].Stable? {
      ForcedMeans(w, before, after, fates, x, fates[i].image);
    }
  }

  lemma ForcedMeans(w: World, before: Construction, after: Construction, fates: seq<Fate>, x: Shape, y: Shape)
    requires Readable(w, before) && Readable(w, after) && w.kind(x) != Other
    requires |fates| == |ShapesOf(w, before.result)|
    ensures var xs := ShapesOf(w, before.result);
      Forced(Reading(w, before, after), x, ImageMap(xs, fates, |xs|)) == Some(y) <==>
      (Candidate(w, before, after, x, y)
       && ((forall z :: Candidate(w, before, after, x, z) ==> z == y)
           || (forall z :: Candidate(w, before, after, x, z) ==> (z == y <==> Inside(w, xs, fates, x, z)))))
  {
    hide LineageOf, WellFormed, Consistent, DistinctOwners, Forced, Candidates, Surrounding, Candidate, Inside,
      ImageMap, ShapesOf;
    var xs := ShapesOf(w, before.result);
    var p, images := Reading(w, before, after), ImageMap(xs, fates, |xs|);
    CandidatesAre(w, before, after, x);
    ForcedIs(p, x, y, images);
    forall z ensures z in Refined(p, x, images) <==> Candidate(w, before, after, x, z) && Inside(w, xs, fates, x, z) {
      InsideIs(w, before, after, fates, x, z);
    }
    var c := Candidates(p, x);
    if y in c {
      OneLeft(c, y);
      assert c == {y} <==> forall z :: z in c ==> z == y;
      assert Refined(p, x, images) == {y} <==> forall z :: z in c ==> (z == y <==> z in Refined(p, x, images));
    }
  }

  // ---------- The whole correspondence ----------

  /** It completes with these fates exactly when shared arguments have the same counts, every
      entity gets the fate it deserves, and no image is shared. */
  lemma FatesAreDeserved(w: World, before: Construction, after: Construction, fates: seq<Fate>)
    requires Readable(w, before) && Readable(w, after)
    ensures Corresponding(Reading(w, before, after)) == Some(fates)
       <==> SameCounts(w, before, after) && AllDeserved(w, before, after, fates)
  {
    hide WellFormed, Consistent, DistinctOwners, LineageOf, Fits, Deserved, Congruent, SameCounts, Corresponding,
      ShapesOf, ImageMap;
    var p := Reading(w, before, after);
    LineageIsSound(w, before);
    LineageIsSound(w, after);
    CompletesIffMatching(p, fates);
    CountsAre(w, before, after);
    var xs := ShapesOf(w, before.result);
    if |fates| == |xs| {
      forall i | 0 <= i < |xs|
        ensures Fits(p, xs[i], fates[i], ImageMap(xs, fates, |xs|)) <==> Deserved(w, before, after, fates, i)
      {
        FitsIs(w, before, after, fates, i);
      }
    }
  }

  /** An entity that descends from anything the after state lacks is gone, and never a reason to
      refuse, whatever else it descends from. */
  lemma AbsentParentNeverRefuses(
    w: World, before: Construction, after: Construction, x: Shape, key: Key, resolved: map<Shape, Shape>)
    requires Readable(w, before) && Readable(w, after)
    requires ComesFrom(w, before, key, x) && !Owns(after, key.owner)
    ensures Decide(Reading(w, before, after), x, resolved) == Some(Gone)
  {
    hide WellFormed, Consistent, DistinctOwners, LineageOf, ComesFrom, Owns, ParentsOf, OwnerGone;
    GoneIs(w, before, after, x);
  }

  /** The history and the result agree on every argument sub-shape: what it leaves is in the
      result and of its kind, what it generates is in the result. */
  ghost predicate HistoryAgrees(w: World, s: Construction) {
    forall key, x :: PartIs(w, s, key, x) ==>
      && (!s.removed(x) && s.modified(x) == [] ==> InResult(w, s.result, x))
      && (!s.removed(x) ==> forall y :: y in s.modified(x) ==> InResult(w, s.result, y) && w.kind(y) == w.kind(x))
      && (forall y :: y in s.generated(x) ==> InResult(w, s.result, y))
  }

  lemma ConsistentMeans(w: World, s: Construction)
    requires DistinctOwners(s)
    ensures Consistent(w, s) <==> HistoryAgrees(w, s)
  {
    hide InResult, PartIs, Denotes, DistinctOwners;
    if Consistent(w, s) {
      forall key, x | PartIs(w, s, key, x) ensures Agrees(w, s, x) {
        PartDenoted(w, s, key);
        var i: nat :| Denotes(w, s, i, key) && Denoted(w, s, i, key) == x;
      }
    }
    if HistoryAgrees(w, s) {
      forall i: nat, key | Denotes(w, s, i, key) ensures Agrees(w, s, Denoted(w, s, i, key)) {
        PartDenoted(w, s, key);
        assert PartIs(w, s, key, Denoted(w, s, i, key));
      }
    }
  }

  /** Both states read, then every entity of the before result decided. */
  method CorrespondenceEntries(w: World, before: Construction, after: Construction)
    returns (fates: Option<seq<Fate>>)
    requires WellFormed(w) && DistinctOwners(before) && DistinctOwners(after)
    ensures fates.Some? ==>
              && HistoryAgrees(w, before) && HistoryAgrees(w, after)
              && SameCounts(w, before, after) && AllDeserved(w, before, after, fates.value)
    ensures fates.None? && HistoryAgrees(w, before) && HistoryAgrees(w, after) && SameCounts(w, before, after)
        ==> forall f :: !AllDeserved(w, before, after, f)
  {
    hide WellFormed, Consistent, HistoryAgrees, DistinctOwners, SameCounts, AllDeserved, LineageOf, Corresponding;
    ConsistentMeans(w, before);
    ConsistentMeans(w, after);
    var b := ReadLineage(w, before);
    var a := ReadLineage(w, after);
    if b.None? || a.None? {
      return None;
    }
    LineageIsSound(w, before);
    LineageIsSound(w, after);
    fates := ConstructionCorrespondence(Pairing(w, b.value, a.value, before.result, after.result));
    forall f ensures fates == Some(f) <==> SameCounts(w, before, after) && AllDeserved(w, before, after, f) {
      FatesAreDeserved(w, before, after, f);
    }
  }
}
