// What a completed construction correspondence guarantees, and when it completes.
module CorrespondenceLaws {
  import opened Outcomes
  import opened ElementNaming
  import opened Correspondence

  // ---------- Reading a lineage ----------

  lemma {:induction false} ShapesSound(
    w: World, s: Construction, l: Lineage, owner: string, k: ShapeType, xs: seq<Shape>, n: nat)
    requires n <= |xs| && SoundLineage(w, s.result, l) && owner in l.owners
    requires forall m :: 0 <= m < n ==> Agrees(w, s, xs[m]) && w.kind(xs[m]) == k
    ensures SoundLineage(w, s.result, ShapesRead(w, s, l, owner, k, xs, n))
    ensures ShapesRead(w, s, l, owner, k, xs, n).owners == l.owners
  {
    hide SoundLineage, Agrees, WithShape;
    if n > 0 {
      ShapesSound(w, s, l, owner, k, xs, n - 1);
      ShapeSound(w, s, ShapesRead(w, s, l, owner, k, xs, n - 1), Key(owner, k, n - 1), xs[n - 1]);
    }
  }

  lemma ShapeSound(w: World, s: Construction, l: Lineage, key: Key, x: Shape)
    requires SoundLineage(w, s.result, l) && key.owner in l.owners && Agrees(w, s, x) && w.kind(x) == key.kind
    ensures SoundLineage(w, s.result, WithShape(s, l, key, x)) && WithShape(s, l, key, x).owners == l.owners
  {
  }

  lemma {:induction false} KindsSound(w: World, s: Construction, l: Lineage, owner: (string, Shape), n: nat)
    requires WellFormed(w) && n <= |KINDS| && SoundLineage(w, s.result, l) && owner.0 in l.owners
    requires OwnerAgrees(w, s, owner, |KINDS|)
    ensures SoundLineage(w, s.result, KindsRead(w, s, l, owner, n))
    ensures KindsRead(w, s, l, owner, n).owners == l.owners
  {
    hide Agrees;
    if n > 0 {
      KindsSound(w, s, l, owner, n - 1);
      var k := KINDS[n - 1];
      var xs := w.sub(owner.1, k);
      assert KindAgrees(w, s, xs, |xs|);
      assert forall m :: 0 <= m < |xs| ==> xs[m] in xs;
      ShapesSound(w, s, WithExtent(w, KindsRead(w, s, l, owner, n - 1), owner, k), owner.0, k, xs, |xs|);
    }
  }

  lemma {:induction false} OwnersSound(w: World, s: Construction, n: nat)
    requires WellFormed(w) && Consistent(w, s) && n <= |s.owners|
    ensures SoundLineage(w, s.result, OwnersRead(w, s, n))
    ensures forall o :: o in OwnersRead(w, s, n).owners <==> exists i :: 0 <= i < n && s.owners[i].0 == o
  {
    hide Consistent, KindsRead, OwnerAgrees;
    if n > 0 {
      OwnersSound(w, s, n - 1);
      ConsistentByOwner(w, s);
      KindsSound(w, s, WithOwner(OwnersRead(w, s, n - 1), s.owners[n - 1].0), s.owners[n - 1], |KINDS|);
    }
  }

  /** Every image a consistent history records is in the result and of its key's kind. */
  lemma LineageIsSound(w: World, s: Construction)
    requires WellFormed(w) && Consistent(w, s)
    ensures SoundLineage(w, s.result, LineageOf(w, s))
  {
    OwnersSound(w, s, |s.owners|);
  }

  /** What a lineage holds under one key: same-kind images and generated images. */
  function At(l: Lineage, key: Key): (Option<seq<Shape>>, Option<seq<Shape>>) {
    (if key in l.images then Some(l.images[key]) else None, if key in l.generated then Some(l.generated[key]) else None)
  }

  function Recording(s: Construction, was: (Option<seq<Shape>>, Option<seq<Shape>>), x: Shape)
    : (Option<seq<Shape>>, Option<seq<Shape>>) {
    (Some(ImagesOf(s, x)), if s.generated(x) == [] then was.1 else Some(s.generated(x)))
  }

  lemma {:induction false} ShapesAt(
    w: World, s: Construction, l: Lineage, owner: string, k: ShapeType, xs: seq<Shape>, n: nat, key: Key)
    requires n <= |xs|
    ensures At(ShapesRead(w, s, l, owner, k, xs, n), key) ==
      if key.owner == owner && key.kind == k && key.index < n then Recording(s, At(l, key), xs[key.index])
        else At(l, key)
  {
    hide ImagesOf;
    if n > 0 {
      ShapesAt(w, s, l, owner, k, xs, n - 1, key);
    }
  }

  lemma {:induction false} KindsAt(w: World, s: Construction, l: Lineage, owner: (string, Shape), n: nat, key: Key)
    requires n <= |KINDS|
    ensures At(KindsRead(w, s, l, owner, n), key) ==
      if key.owner == owner.0 && key.kind in KINDS[..n] && key.index < |w.sub(owner.1, key.kind)|
      then Recording(s, At(l, key), w.sub(owner.1, key.kind)[key.index]) else At(l, key)
  {
    hide Recording, ShapesRead;
    if n > 0 {
      var k := KINDS[n - 1];
      KindsAt(w, s, l, owner, n - 1, key);
      assert KINDS[..n] == KINDS[..n - 1] + [k];
      assert k !in KINDS[..n - 1];
      ShapesAt(w, s, WithExtent(w, KindsRead(w, s, l, owner, n - 1), owner, k), owner.0, k, w.sub(owner.1, k),
        |w.sub(owner.1, k)|, key);
    }
  }

  ghost predicate DistinctOwners(s: Construction) {
    forall i, j :: 0 <= i < j < |s.owners| ==> s.owners[i].0 != s.owners[j].0
  }

  lemma {:induction false} OwnersAt(w: World, s: Construction, n: nat, key: Key)
    requires DistinctOwners(s) && n <= |s.owners|
    ensures forall i: nat :: i < n && Denotes(w, s, i, key) ==>
      At(OwnersRead(w, s, n), key) == Recording(s, (None, None), Denoted(w, s, i, key))
    ensures (forall i: nat :: i < n ==> !Denotes(w, s, i, key)) ==> At(OwnersRead(w, s, n), key) == (None, None)
  {
    hide Recording, KindsRead;
    if n == 0 {
      assert At(OwnersRead(w, s, n), key) == (None, None);
    } else {
      OwnersAt(w, s, n - 1, key);
      KindsAt(w, s, WithOwner(OwnersRead(w, s, n - 1), s.owners[n - 1].0), s.owners[n - 1], |KINDS|, key);
      assert KINDS[..|KINDS|] == KINDS;
      var before := OwnersRead(w, s, n - 1);
      assert At(WithOwner(before, s.owners[n - 1].0), key) == At(before, key);
      if Denotes(w, s, n - 1, key) {
        assert forall i: nat :: i < n - 1 ==> !Denotes(w, s, i, key);
      } else {
        assert At(OwnersRead(w, s, n), key) == At(before, key);
      }
    }
  }

  /** Each argument sub-shape is filed under its own key, with its own images, and nothing else is. */
  lemma LineageIs(w: World, s: Construction, key: Key)
    requires DistinctOwners(s)
    ensures forall i: nat :: Denotes(w, s, i, key) ==>
      At(LineageOf(w, s), key) == Recording(s, (None, None), Denoted(w, s, i, key))
    ensures (forall i: nat :: !Denotes(w, s, i, key)) ==> At(LineageOf(w, s), key) == (None, None)
  {
    OwnersAt(w, s, |s.owners|, key);
  }

  // ---------- A correspondence, without the order of the computation ----------

  /** Images of the before entities that have one. */
  function ImageMap(xs: seq<Shape>, fates: seq<Fate>, n: nat): map<Shape, Shape>
    requires n <= |xs| && n <= |fates|
  {
    if n == 0 then map[] else Recorded(ImageMap(xs, fates, n - 1), xs[n - 1], fates[n - 1])
  }

  lemma {:induction false} ImageMapFrom(xs: seq<Shape>, fates: seq<Fate>, n: nat, z: Shape) returns (i: nat)
    requires n <= |xs| && n <= |fates| && z in ImageMap(xs, fates, n)
    ensures i < n && xs[i] == z && fates[i] == Stable(ImageMap(xs, fates, n)[z])
  {
    if fates[n - 1].Stable? && xs[n - 1] == z {
      i := n - 1;
    } else {
      i := ImageMapFrom(xs, fates, n - 1, z);
    }
  }

  lemma {:induction false} ImageMapHas(xs: seq<Shape>, fates: seq<Fate>, n: nat, i: nat)
    requires n <= |xs| && n <= |fates| && i < n && Distinct(xs) && fates[i].Stable?
    ensures xs[i] in ImageMap(xs, fates, n) && ImageMap(xs, fates, n)[xs[i]] == fates[i].image
  {
    if i < n - 1 {
      ImageMapHas(xs, fates, n - 1, i);
    }
  }

  /** The fate of one entity, given the images of all others at once. */
  predicate Fits(p: Pairing, x: Shape, fate: Fate, images: map<Shape, Shape>) {
    && ParentsOf(p.before, x) != {}
    && (fate.Gone? <==> OwnerGone(p, x))
    && (fate.Stable? ==> Forced(p, x, images) == Some(fate.image))
  }

  /** A matching: every fate fits, and no two entities share an image. */
  ghost predicate Matching(p: Pairing, fates: seq<Fate>) {
    var xs := ShapesOf(p.w, p.beforeResult);
    && |fates| == |xs|
    && (forall i :: 0 <= i < |xs| ==> Fits(p, xs[i], fates[i], ImageMap(xs, fates, |xs|)))
    && (forall i, j :: 0 <= i < j < |xs| && fates[i].Stable? && fates[j].Stable? ==> fates[i].image != fates[j].image)
  }

  ghost predicate Decided(p: Pairing, xs: seq<Shape>, fates: seq<Fate>, i: nat) {
    && |fates| == |xs|
    && forall j :: i <= j < |xs| ==> Decide(p, xs[j], ImageMap(xs, fates, j)) == Some(fates[j])
  }

  lemma {:induction false} CorrespondDecides(p: Pairing, xs: seq<Shape>, fates: seq<Fate>, i: nat)
    requires i <= |xs| == |fates|
    ensures Correspond(p, xs[i..], ImageMap(xs, fates, i)) == Some(fates[i..]) <==> Decided(p, xs, fates, i)
    decreases |xs| - i
  {
    hide Decide;
    if i == |xs| {
      assert xs[i..] == [] && fates[i..] == [];
    } else {
      CorrespondDecides(p, xs, fates, i + 1);
      assert xs[i..][0] == xs[i] && xs[i..][1..] == xs[i + 1..];
      assert fates[i..] == [fates[i]] + fates[i + 1..];
      assert ImageMap(xs, fates, i + 1) == Recorded(ImageMap(xs, fates, i), xs[i], fates[i]);
      var fate := Decide(p, xs[i], ImageMap(xs, fates, i));
      if fate.Some? && fate.value != fates[i] {
        var rest := Correspond(p, xs[i + 1..], Recorded(ImageMap(xs, fates, i), xs[i], fate.value));
        assert rest.Some? ==> ([fate.value] + rest.value)[0] != fates[i..][0];
      }
      if fate == Some(fates[i]) {
        var rest := Correspond(p, xs[i + 1..], ImageMap(xs, fates, i + 1));
        assert rest.Some? ==> ([fates[i]] + rest.value)[1..] == rest.value && fates[i..][1..] == fates[i + 1..];
      }
    }
  }

  lemma {:induction false} OneFateEach(p: Pairing, xs: seq<Shape>, resolved: map<Shape, Shape>)
    ensures var r := Correspond(p, xs, resolved); r.Some? ==> |r.value| == |xs|
    decreases |xs|
  {
    hide Decide;
    if xs != [] {
      var fate := Decide(p, xs[0], resolved);
      if fate.Some? {
        OneFateEach(p, xs[1..], Recorded(resolved, xs[0], fate.value));
      }
    }
  }

  /** An entity's containers are settled before it: higher kinds come first. */
  lemma ContainersSettled(p: Pairing, fates: seq<Fate>, j: nat)
    requires ValidPairing(p)
    requires var xs := ShapesOf(p.w, p.beforeResult); |fates| == |xs| && j < |xs|
    ensures var xs := ShapesOf(p.w, p.beforeResult);
      Surrounding(p, xs[j], ImageMap(xs, fates, j)) == Surrounding(p, xs[j], ImageMap(xs, fates, |xs|))
  {
    var w, xs := p.w, ShapesOf(p.w, p.beforeResult);
    OnceEach(w, p.beforeResult);
    var some, all := ImageMap(xs, fates, j), ImageMap(xs, fates, |xs|);
    hide ShapesOf, ImageMap, ValidPairing;
    forall z | z in all && Higher(w.kind(z), w.kind(xs[j])) ensures z in some && some[z] == all[z] {
      var i := ImageMapFrom(xs, fates, |xs|, z);
      ImageMapHas(xs, fates, j, i);
    }
    forall z | z in some ensures z in all && all[z] == some[z] {
      var i := ImageMapFrom(xs, fates, j, z);
      ImageMapHas(xs, fates, |xs|, i);
    }
  }

  lemma ForcedBySettled(p: Pairing, fates: seq<Fate>, j: nat)
    requires ValidPairing(p)
    requires var xs := ShapesOf(p.w, p.beforeResult); |fates| == |xs| && j < |xs|
    ensures var xs := ShapesOf(p.w, p.beforeResult);
      Forced(p, xs[j], ImageMap(xs, fates, j)) == Forced(p, xs[j], ImageMap(xs, fates, |xs|))
  {
    hide Surrounding, ShapesOf, ImageMap, ValidPairing, Candidates;
    ContainersSettled(p, fates, j);
  }

  lemma UsedBefore(xs: seq<Shape>, fates: seq<Fate>, j: nat, y: Shape)
    requires j <= |xs| == |fates| && Distinct(xs)
    ensures y in ImageMap(xs, fates, j).Values <==> exists i :: 0 <= i < j && fates[i] == Stable(y)
  {
    var r := ImageMap(xs, fates, j);
    hide ImageMap;
    if y in r.Values {
      var z :| z in r && r[z] == y;
      var i := ImageMapFrom(xs, fates, j, z);
    }
    if i :| 0 <= i < j && fates[i] == Stable(y) {
      ImageMapHas(xs, fates, j, i);
      assert r[xs[i]] == y;
    }
  }

  /** One entity's decision, restated without the order. */
  lemma DecideFits(p: Pairing, fates: seq<Fate>, j: nat)
    requires ValidPairing(p)
    requires var xs := ShapesOf(p.w, p.beforeResult); |fates| == |xs| && j < |xs|
    ensures var xs := ShapesOf(p.w, p.beforeResult);
      Decide(p, xs[j], ImageMap(xs, fates, j)) == Some(fates[j]) <==>
      (Fits(p, xs[j], fates[j], ImageMap(xs, fates, |xs|))
       && (fates[j].Stable? ==> forall i :: 0 <= i < j ==> fates[i] != fates[j]))
  {
    var xs := ShapesOf(p.w, p.beforeResult);
    OnceEach(p.w, p.beforeResult);
    ForcedBySettled(p, fates, j);
    if fates[j].Stable? {
      UsedBefore(xs, fates, j, fates[j].image);
    }
    hide Forced, ShapesOf, ImageMap, ValidPairing, ParentsOf, OwnerGone;
  }

  /** The computation completes with these fates exactly when they are a matching of congruent arguments. */
  lemma CompletesIffMatching(p: Pairing, fates: seq<Fate>)
    requires ValidPairing(p)
    ensures Corresponding(p) == Some(fates) <==> Congruent(p.before, p.after) && Matching(p, fates)
  {
    hide Decide, Fits, ValidPairing, Congruent, ShapesOf;
    var xs := ShapesOf(p.w, p.beforeResult);
    OneFateEach(p, xs, map[]);
    if |fates| == |xs| {
      CorrespondDecides(p, xs, fates, 0);
      assert xs[0..] == xs && fates[0..] == fates;
      forall j | 0 <= j < |xs|
        ensures Decide(p, xs[j], ImageMap(xs, fates, j)) == Some(fates[j]) <==>
          (Fits(p, xs[j], fates[j], ImageMap(xs, fates, |xs|))
           && (fates[j].Stable? ==> forall i :: 0 <= i < j ==> fates[i] != fates[j]))
      {
        DecideFits(p, fates, j);
      }
    }
  }

  // ---------- What a matching promises ----------

  /** y carries x on: same kind, in the result, from every parent, inside every container's image if that was
      consulted. */
  ghost predicate Carries(p: Pairing, x: Shape, y: Shape, images: map<Shape, Shape>) {
    && p.w.kind(y) == p.w.kind(x) && InResult(p.w, p.afterResult, y)
    && (forall key :: key in ParentsOf(p.before, x) ==>
      key.owner in p.after.owners && Descends(LookupFor(p, x), key, y))
    && (Candidates(p, x) == {y} || forall z :: z in Surrounding(p, x, images) ==> y in p.w.sub(z, p.w.kind(x)))
    && (forall y' :: y' in Candidates(p, x) && y' != y ==>
      exists z :: z in Surrounding(p, x, images) && y' !in p.w.sub(z, p.w.kind(x)))
  }

  /** One fate per entity: gone exactly with a parent's owner, else a kind-keeping, forced and unshared image. */
  lemma CorrespondenceIsSafe(p: Pairing, fates: seq<Fate>)
    requires ValidPairing(p) && Corresponding(p) == Some(fates)
    ensures var xs := ShapesOf(p.w, p.beforeResult);
      && |fates| == |xs|
      && (forall i :: 0 <= i < |xs| ==> ParentsOf(p.before, xs[i]) != {} && (fates[i].Gone? <==> OwnerGone(p, xs[i])))
      && (forall i :: 0 <= i < |xs| && fates[i].Stable? ==>
        Carries(p, xs[i], fates[i].image, ImageMap(xs, fates, |xs|)))
      && (forall i, j :: 0 <= i < j < |xs| && fates[i].Stable? ==> fates[i] != fates[j])
  {
    CompletesIffMatching(p, fates);
    var xs := ShapesOf(p.w, p.beforeResult);
    OnceEach(p.w, p.beforeResult);
    ResultSetIs(p.w, p.beforeResult);
    var images := ImageMap(xs, fates, |xs|);
    forall i | 0 <= i < |xs| && fates[i].Stable? ensures Carries(p, xs[i], fates[i].image, images) {
      assert xs[i] in xs;
      ForcedCarries(p, xs[i], fates[i].image, images);
    }
  }

  lemma ForcedCarries(p: Pairing, x: Shape, y: Shape, images: map<Shape, Shape>)
    requires ValidPairing(p) && p.w.kind(x) != Other
    requires !OwnerGone(p, x) && Forced(p, x, images) == Some(y)
    ensures Carries(p, x, y, images)
  {
    ForcedIs(p, x, y, images);
    hide Surrounding, ParentsOf, LookupFor, SoundLineage, Forced, Descends;
    assert y in Candidates(p, x);
    if Candidates(p, x) != {y} {
      hide Candidates;
      assert forall y' :: y' in Candidates(p, x) && y' != y ==> y' !in Refined(p, x, images);
    }
  }

  // ---------- One construction against itself ----------

  /** x can be told from y: by a parent they do not share, or by a container. */
  predicate ToldApart(p: Pairing, x: Shape) {
    var c := Candidates(p, x);
    c == {x} || forall y :: y in c && y != x ==> exists z :: z in Above(p, x) && y !in p.w.sub(z, p.w.kind(x))
  }

  function Above(p: Pairing, x: Shape): set<Shape> {
    set z | z in ShapesOf(p.w, p.beforeResult) && Higher(p.w.kind(z), p.w.kind(x)) && x in p.w.sub(z, p.w.kind(x))
  }

  function Itself(xs: seq<Shape>): (r: seq<Fate>)
    ensures |r| == |xs| && forall i :: 0 <= i < |xs| ==> r[i] == Stable(xs[i])
  {
    seq(|xs|, i requires 0 <= i < |xs| => Stable(xs[i]))
  }

  lemma OwnCandidate(p: Pairing, x: Shape)
    requires ValidPairing(p) && p.before == p.after && p.beforeResult == p.afterResult
      && InResult(p.w, p.beforeResult, x)
    ensures !OwnerGone(p, x) && (ParentsOf(p.before, x) != {} ==> x in Candidates(p, x))
  {
  }

  lemma OwnContainers(p: Pairing, x: Shape)
    requires ValidPairing(p)
    ensures var xs := ShapesOf(p.w, p.beforeResult); Surrounding(p, x, ImageMap(xs, Itself(xs), |xs|)) == Above(p, x)
  {
    var xs := ShapesOf(p.w, p.beforeResult);
    OnceEach(p.w, p.beforeResult);
    ResultSetIs(p.w, p.beforeResult);
    var images := ImageMap(xs, Itself(xs), |xs|);
    hide ImageMap, ShapesOf, ValidPairing;
    forall i | 0 <= i < |xs| ensures xs[i] in images && images[xs[i]] == xs[i] {
      ImageMapHas(xs, Itself(xs), |xs|, i);
    }
    forall z | z in images ensures images[z] == z {
      var i := ImageMapFrom(xs, Itself(xs), |xs|, z);
    }
    assert forall z :: z in Above(p, x) ==> z in images;
  }

  lemma OneLeft(s: set<Shape>, x: Shape)
    requires x in s
    ensures |s| == 1 <==> forall y :: y in s ==> y == x
  {
    if |s| == 1 {
      OnlyOne(s);
    }
    if forall y :: y in s ==> y == x {
      assert s == {x};
    }
  }

  lemma ForcedIs(p: Pairing, x: Shape, y: Shape, images: map<Shape, Shape>)
    ensures Forced(p, x, images) == Some(y)
      <==> Candidates(p, x) == {y} || (|Candidates(p, x)| > 1 && Refined(p, x, images) == {y})
  {
    hide Candidates, Refined;
    if Candidates(p, x) == {y} {
      assert |Candidates(p, x)| == 1;
    }
    if Refined(p, x, images) == {y} {
      assert |Refined(p, x, images)| == 1;
    }
  }

  lemma SelfRefined(p: Pairing, x: Shape)
    requires ValidPairing(p) && x in Candidates(p, x)
    ensures var xs := ShapesOf(p.w, p.beforeResult);
      var images := ImageMap(xs, Itself(xs), |xs|);
      x in Refined(p, x, images) && (ToldApart(p, x) <==> Candidates(p, x) == {x} || Refined(p, x, images) == {x})
  {
    hide Candidates, Surrounding, ImageMap, ValidPairing, Itself, ShapesOf;
    OwnContainers(p, x);
    var xs := ShapesOf(p.w, p.beforeResult);
    var images := ImageMap(xs, Itself(xs), |xs|);
    assert forall y :: y in Refined(p, x, images) <==>
      y in Candidates(p, x) && forall z :: z in Above(p, x) ==> y in p.w.sub(z, p.w.kind(x));
    assert forall z :: z in Above(p, x) ==> x in p.w.sub(z, p.w.kind(x));
  }

  lemma SelfForced(p: Pairing, x: Shape)
    requires ValidPairing(p) && p.before == p.after && p.beforeResult == p.afterResult
    requires InResult(p.w, p.beforeResult, x) && ParentsOf(p.before, x) != {}
    ensures var xs := ShapesOf(p.w, p.beforeResult);
      Forced(p, x, ImageMap(xs, Itself(xs), |xs|)) == Some(x) <==> ToldApart(p, x)
  {
    hide Candidates, Surrounding, Refined, ImageMap, ShapesOf, ValidPairing, ParentsOf, Forced, ToldApart;
    var xs := ShapesOf(p.w, p.beforeResult);
    var images := ImageMap(xs, Itself(xs), |xs|);
    OwnCandidate(p, x);
    SelfRefined(p, x);
    ForcedIs(p, x, x, images);
    if Candidates(p, x) != {x} {
      OneLeft(Candidates(p, x), x);
    }
  }

  lemma SelfFits(p: Pairing, x: Shape)
    requires ValidPairing(p) && p.before == p.after && p.beforeResult == p.afterResult
      && InResult(p.w, p.beforeResult, x)
    ensures var xs := ShapesOf(p.w, p.beforeResult);
      Fits(p, x, Stable(x), ImageMap(xs, Itself(xs), |xs|)) <==> ParentsOf(p.before, x) != {} && ToldApart(p, x)
  {
    hide ShapesOf, Candidates, ToldApart, Forced, ImageMap;
    OwnCandidate(p, x);
    if ParentsOf(p.before, x) != {} {
      SelfForced(p, x);
    }
  }

  /** If the entities before xs[j] answered themselves, so does xs[j], or the run refuses. */
  lemma SelfStep(p: Pairing, fates: seq<Fate>, j: nat)
    requires ValidPairing(p) && p.before == p.after && p.beforeResult == p.afterResult
    requires var xs := ShapesOf(p.w, p.beforeResult);
      |fates| == |xs| && j < |xs| && (forall i :: 0 <= i < j ==> fates[i] == Stable(xs[i]))
      && Decide(p, xs[j], ImageMap(xs, fates, j)) == Some(fates[j])
    ensures fates[j] == Stable(ShapesOf(p.w, p.beforeResult)[j])
  {
    var xs := ShapesOf(p.w, p.beforeResult);
    ResultSetIs(p.w, p.beforeResult);
    var x, images := xs[j], ImageMap(xs, fates, j);
    hide ImageMap, ShapesOf;
    assert x in xs;
    OwnCandidate(p, x);
    forall z | z in images ensures images[z] == z {
      var i := ImageMapFrom(xs, fates, j, z);
    }
    assert x in Refined(p, x, images);
    hide ValidPairing, ParentsOf, Candidates, Refined, OwnerGone;
    if |Candidates(p, x)| == 1 {
      OneLeft(Candidates(p, x), x);
    } else if |Refined(p, x, images)| == 1 {
      OneLeft(Refined(p, x, images), x);
    }
  }

  lemma {:induction false} SelfPrefix(p: Pairing, fates: seq<Fate>, j: nat)
    requires ValidPairing(p) && p.before == p.after && p.beforeResult == p.afterResult
    requires var xs := ShapesOf(p.w, p.beforeResult); j <= |xs| && Decided(p, xs, fates, 0)
    ensures forall i :: 0 <= i < j ==> fates[i] == Stable(ShapesOf(p.w, p.beforeResult)[i])
  {
    hide Decide, ShapesOf;
    if j > 0 {
      SelfPrefix(p, fates, j - 1);
      SelfStep(p, fates, j - 1);
    }
  }

  /** Matching a construction with itself completes exactly when every entity is attributed and told apart, and then
      answers every entity with itself. */
  lemma SelfCorrespondence(p: Pairing)
    requires ValidPairing(p) && p.before == p.after && p.beforeResult == p.afterResult
    ensures var xs := ShapesOf(p.w, p.beforeResult);
      Corresponding(p).Some? <==> forall x :: x in xs ==> ParentsOf(p.before, x) != {} && ToldApart(p, x)
    ensures Corresponding(p).Some? ==> Corresponding(p).value == Itself(ShapesOf(p.w, p.beforeResult))
  {
    SelfMatches(p);
    hide ShapesOf, ParentsOf, ToldApart, Fits, Correspond, Decide;
    var xs := ShapesOf(p.w, p.beforeResult);
    if Corresponding(p).Some? {
      var fates := Corresponding(p).value;
      OneFateEach(p, xs, map[]);
      assert xs[0..] == xs && fates[0..] == fates;
      CorrespondDecides(p, xs, fates, 0);
      SelfPrefix(p, fates, |xs|);
      assert fates == Itself(xs);
    }
  }

  lemma SelfMatches(p: Pairing)
    requires ValidPairing(p) && p.before == p.after && p.beforeResult == p.afterResult
    ensures var xs := ShapesOf(p.w, p.beforeResult);
      Corresponding(p) == Some(Itself(xs)) <==> forall x :: x in xs ==> ParentsOf(p.before, x) != {} && ToldApart(p, x)
  {
    hide ShapesOf, ParentsOf, ToldApart, ImageMap, Corresponding, Fits;
    var xs := ShapesOf(p.w, p.beforeResult);
    var fates := Itself(xs);
    var images := ImageMap(xs, fates, |xs|);
    OnceEach(p.w, p.beforeResult);
    ResultSetIs(p.w, p.beforeResult);
    CompletesIffMatching(p, fates);
    forall x | x in xs ensures Fits(p, x, Stable(x), images) <==> ParentsOf(p.before, x) != {} && ToldApart(p, x) {
      SelfFits(p, x);
    }
    forall i | 0 <= i < |xs|
      ensures xs[i] in xs && (Fits(p, xs[i], fates[i], images) <==> Fits(p, xs[i], Stable(xs[i]), images)) {
    }
  }
}
