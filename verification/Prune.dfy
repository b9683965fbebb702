// Pruning a module to what its users reach: a worklist over references, with each
// constructor standing for the type that declares it.
module Prune {

  /** A top-level block: its name, the constructors a type declares, the identifiers it mentions. */
  datatype Block = Block(name: string, isType: bool, constructors: set<string>, words: set<string>)

  // ---------- The module's tables ----------

  function Names(bs: seq<Block>): set<string> {
    set b | b in bs :: b.name
  }

  predicate Declares(b: Block, c: string) { b.isType && c in b.constructors }

  /** The type a constructor belongs to, the last to declare it; any other name stands for itself. */
  function Owner(bs: seq<Block>, n: string): string {
    if bs == [] then n
    else if Declares(bs[|bs| - 1], n) then bs[|bs| - 1].name
    else Owner(bs[..|bs| - 1], n)
  }

  predicate IsConstructor(bs: seq<Block>, c: string) {
    exists b :: b in bs && Declares(b, c)
  }

  lemma {:induction false} OwnerIsNamed(bs: seq<Block>, n: string)
    ensures IsConstructor(bs, n) ==> Owner(bs, n) in Names(bs)
    ensures !IsConstructor(bs, n) ==> Owner(bs, n) == n
  {
    if bs != [] {
      var last := bs[|bs| - 1];
      OwnerIsNamed(bs[..|bs| - 1], n);
      assert bs == bs[..|bs| - 1] + [last];
      assert forall b :: b in bs[..|bs| - 1] ==> b in bs;
    }
  }

  /** The identifiers in the last block of a name; a name without a block has none. */
  function Words(bs: seq<Block>, n: string): set<string> {
    if bs == [] then {} else if bs[|bs| - 1].name == n then bs[|bs| - 1].words else Words(bs[..|bs| - 1], n)
  }

  /** Block i is the last of its name. */
  predicate Latest(bs: seq<Block>, i: int, n: string) {
    0 <= i < |bs| && bs[i].name == n && forall j :: i < j < |bs| ==> bs[j].name != n
  }

  /** A mentioned name stands for a block: the last type that declares it as a constructor, or,
      if no type does, the block of that name. */
  ghost predicate StandsFor(bs: seq<Block>, n: string, c: string) {
    if exists i :: 0 <= i < |bs| && bs[i].isType && n in bs[i].constructors then
      exists i :: 0 <= i < |bs| && bs[i].isType && n in bs[i].constructors && bs[i].name == c
        && forall j :: i < j < |bs| ==> !(bs[j].isType && n in bs[j].constructors)
    else n == c && exists i :: 0 <= i < |bs| && bs[i].name == n
  }

  /** The last block of the name b mentions something that stands for c. */
  ghost predicate Uses(bs: seq<Block>, b: string, c: string) {
    exists i, t :: Latest(bs, i, b) && t in bs[i].words && StandsFor(bs, t, c)
  }

  lemma {:induction false} WordsAre(bs: seq<Block>, n: string)
    ensures forall t :: t in Words(bs, n) <==> exists i :: Latest(bs, i, n) && t in bs[i].words
    ensures n in Names(bs) ==> exists i :: Latest(bs, i, n)
  {
    if bs != [] {
      var rest, last := bs[..|bs| - 1], |bs| - 1;
      WordsAre(rest, n);
      assert bs == rest + [bs[last]];
      assert Latest(bs, last, n) <==> bs[last].name == n;
      if bs[last].name != n {
        forall i ensures Latest(bs, i, n) <==> Latest(rest, i, n) {
        }
      }
    }
  }

  lemma {:induction false} OwnerIs(bs: seq<Block>, n: string, c: string)
    ensures StandsFor(bs, n, c) <==> Owner(bs, n) == c && c in Names(bs)
  {
    hide StandsFor;
    OwnerIsNamed(bs, n);
    if IsConstructor(bs, n) {
      var i := Declarer(bs, n);
      LastDeclarer(bs, n, c, i);
    } else {
      NoDeclarer(bs, n, c);
    }
  }

  /** The last type that declares n as a constructor. */
  lemma {:induction false} Declarer(bs: seq<Block>, n: string) returns (i: nat)
    requires IsConstructor(bs, n)
    ensures i < |bs| && Declares(bs[i], n) && bs[i].name == Owner(bs, n)
    ensures forall j :: i < j < |bs| ==> !Declares(bs[j], n)
  {
    var last := |bs| - 1;
    if Declares(bs[last], n) {
      i := last;
    } else {
      assert bs == bs[..last] + [bs[last]];
      i := Declarer(bs[..last], n);
    }
  }

  lemma LastDeclarer(bs: seq<Block>, n: string, c: string, i: nat)
    requires i < |bs| && Declares(bs[i], n) && forall j :: i < j < |bs| ==> !Declares(bs[j], n)
    ensures StandsFor(bs, n, c) <==> bs[i].name == c
  {
  }

  lemma NoDeclarer(bs: seq<Block>, n: string, c: string)
    requires !IsConstructor(bs, n)
    ensures StandsFor(bs, n, c) <==> n == c && c in Names(bs)
  {
    assert forall i :: 0 <= i < |bs| ==> bs[i] in bs && !Declares(bs[i], n);
    if c in Names(bs) {
      var b :| b in bs && b.name == c;
      var i :| 0 <= i < |bs| && bs[i] == b;
    }
  }

  /** The block b uses the block of c, directly or by one of its constructors. */
  lemma UsesIs(bs: seq<Block>, b: string, c: string)
    ensures Uses(bs, b, c) <==> exists t :: t in Words(bs, b) && Owner(bs, t) == c && c in Names(bs)
  {
    hide StandsFor, Words, Owner, Names;
    WordsAre(bs, b);
    forall t ensures StandsFor(bs, t, c) <==> Owner(bs, t) == c && c in Names(bs) {
      OwnerIs(bs, t, c);
    }
    if Uses(bs, b, c) {
      var i, t :| Latest(bs, i, b) && t in bs[i].words && StandsFor(bs, t, c);
      assert t in Words(bs, b);
    }
    if t :| t in Words(bs, b) && Owner(bs, t) == c && c in Names(bs) {
      var i :| Latest(bs, i, b) && t in bs[i].words;
      assert StandsFor(bs, t, c);
    }
  }

  /** Where the walk starts: externally used names of the module, constructors as their types. */
  function Roots(bs: seq<Block>, used: set<string>): (r: set<string>)
    ensures r <= Names(bs)
    ensures forall c :: c in r <==> exists n :: n in used && StandsFor(bs, n, c)
  {
    var roots := set n | n in used && (n in Names(bs) || IsConstructor(bs, n)) :: Owner(bs, n);
    RootsAre(bs, used, roots);
    roots
  }

  lemma RootsAre(bs: seq<Block>, used: set<string>, roots: set<string>)
    requires roots == set n | n in used && (n in Names(bs) || IsConstructor(bs, n)) :: Owner(bs, n)
    ensures roots <= Names(bs)
    ensures forall c :: c in roots <==> exists n :: n in used && StandsFor(bs, n, c)
  {
    hide StandsFor, Names, IsConstructor, Owner;
    forall n, c ensures StandsFor(bs, n, c) <==> Owner(bs, n) == c && c in Names(bs) {
      OwnerIs(bs, n, c);
    }
    forall n ensures Owner(bs, n) in Names(bs) <==> n in Names(bs) || IsConstructor(bs, n) {
      OwnerIsNamed(bs, n);
    }
  }

  // ---------- What must stay ----------

  ghost predicate Path(bs: seq<Block>, p: seq<string>) {
    |p| > 0 && forall k :: 0 <= k < |p| - 1 ==> Uses(bs, p[k], p[k + 1])
  }

  ghost predicate Reachable(bs: seq<Block>, used: set<string>, n: string) {
    exists p :: Path(bs, p) && p[0] in Roots(bs, used) && p[|p| - 1] == n
  }

  ghost predicate Closed(bs: seq<Block>, s: set<string>) {
    forall b, c :: b in s && Uses(bs, b, c) ==> c in s
  }

  lemma {:induction false} PathStays(bs: seq<Block>, s: set<string>, p: seq<string>)
    requires Path(bs, p) && Closed(bs, s) && p[0] in s
    ensures p[|p| - 1] in s
    decreases |p|
  {
    if |p| > 1 {
      assert Uses(bs, p[0], p[1]);
      assert forall k :: 0 <= k < |p| - 2 ==> Uses(bs, p[1..][k], p[1..][k + 1]);
      PathStays(bs, s, p[1..]);
    }
  }

  lemma StepFurther(bs: seq<Block>, used: set<string>, b: string, c: string)
    requires Reachable(bs, used, b) && Uses(bs, b, c)
    ensures Reachable(bs, used, c)
  {
    var p :| Path(bs, p) && p[0] in Roots(bs, used) && p[|p| - 1] == b;
    assert Path(bs, p + [c]);
  }

  lemma RootsReachable(bs: seq<Block>, used: set<string>)
    ensures forall n :: n in Roots(bs, used) ==> Reachable(bs, used, n)
  {
    forall n | n in Roots(bs, used) ensures Reachable(bs, used, n) {
      assert Path(bs, [n]);
    }
  }

  /** A closed set of reachable blocks that holds the roots is all that is reachable, and the least such set. */
  lemma LeastClosed(bs: seq<Block>, used: set<string>, keep: set<string>)
    requires Roots(bs, used) <= keep && Closed(bs, keep) && forall n :: n in keep ==> Reachable(bs, used, n)
    ensures forall n :: n in keep <==> Reachable(bs, used, n)
    ensures forall s :: Roots(bs, used) <= s && Closed(bs, s) ==> keep <= s
  {
    hide Closed, Roots, Uses;
    forall s, n | Roots(bs, used) <= s && Closed(bs, s) && Reachable(bs, used, n) ensures n in s {
      var p :| Path(bs, p) && p[0] in Roots(bs, used) && p[|p| - 1] == n;
      PathStays(bs, s, p);
    }
  }

  // ---------- The walk ----------

  method ListOf(s: set<string>) returns (r: seq<string>)
    ensures forall x :: x in r <==> x in s
  {
    var left := s;
    r := [];
    while left != {}
      invariant left <= s && forall x :: x in r <==> x in s - left
      decreases left
    {
      var x :| x in left;
      r, left := r + [x], left - {x};
    }
  }

  /** The blocks to keep: exactly those reachable from the roots, the least closed set that holds them. */
  method Keep(bs: seq<Block>, used: set<string>) returns (keep: set<string>)
    ensures forall n :: n in keep <==> Reachable(bs, used, n)
    ensures Roots(bs, used) <= keep <= Names(bs) && Closed(bs, keep)
    ensures forall s :: Roots(bs, used) <= s && Closed(bs, s) ==> keep <= s
  {
    hide Reachable, Roots, Names, LeftBehind, Closed, Uses, StandsFor;
    RootsReachable(bs, used);
    keep := Roots(bs, used);
    var stack := ListOf(keep);
    NoneAtFirst(bs, keep, stack);
    while stack != []
      invariant Roots(bs, used) <= keep <= Names(bs) && forall n :: n in stack ==> n in keep
      invariant forall n :: n in keep ==> Reachable(bs, used, n)
      invariant !LeftBehind(bs, keep, stack)
      decreases Names(bs) - keep, |stack|
    {
      keep, stack := Step(bs, used, keep, stack);
    }
    NoneLeft(bs, keep);
    LeastClosed(bs, used, keep);
  }

  /** One turn of the worklist. */
  method Step(bs: seq<Block>, used: set<string>, keep: set<string>, stack: seq<string>)
    returns (keep': set<string>, stack': seq<string>)
    requires stack != [] && keep <= Names(bs) && !LeftBehind(bs, keep, stack)
    requires (forall n :: n in stack ==> n in keep) && forall n :: n in keep ==> Reachable(bs, used, n)
    ensures keep <= keep' <= Names(bs) && !LeftBehind(bs, keep', stack')
    ensures (forall n :: n in stack' ==> n in keep') && forall n :: n in keep' ==> Reachable(bs, used, n)
    ensures keep < keep' || (keep == keep' && |stack'| < |stack|)
  {
    hide Reachable, Uses, Names, LeftBehind;
    var n := stack[|stack| - 1];
    assert stack == stack[..|stack| - 1] + [n];
    keep', stack' := Visit(bs, used, n, keep, stack[..|stack| - 1]);
    StillNone(bs, keep, stack, n, keep', stack');
  }

  /** A block that is kept and off the stack, but uses one that is not kept. */
  ghost predicate LeftBehind(bs: seq<Block>, keep: set<string>, stack: seq<string>) {
    exists b, c :: b in keep && b !in stack && Uses(bs, b, c) && c !in keep
  }

  lemma NoneAtFirst(bs: seq<Block>, keep: set<string>, stack: seq<string>)
    requires forall n :: n in keep ==> n in stack
    ensures !LeftBehind(bs, keep, stack)
  {
  }

  lemma NoneLeft(bs: seq<Block>, keep: set<string>)
    requires !LeftBehind(bs, keep, [])
    ensures Closed(bs, keep)
  {
    hide Uses;
    assert forall b, c :: b in keep && Uses(bs, b, c) ==> b !in [];
  }

  lemma StillNone(
    bs: seq<Block>, keep: set<string>, stack: seq<string>, n: string, keep': set<string>, stack': seq<string>)
    requires !LeftBehind(bs, keep, stack) && keep <= keep'
    requires forall m :: m in stack ==> m in stack' || m == n
    requires forall m :: m in keep' - keep ==> m in stack'
    requires forall c :: Uses(bs, n, c) ==> c in keep'
    ensures !LeftBehind(bs, keep', stack')
  {
    hide Uses;
  }

  /** Adds what one block uses to the kept blocks and to the stack, unless it was kept already. */
  method Visit(bs: seq<Block>, used: set<string>, n: string, keep: set<string>, stack: seq<string>)
    returns (keep': set<string>, stack': seq<string>)
    requires keep <= Names(bs) && Reachable(bs, used, n)
    ensures keep <= keep' <= Names(bs)
    ensures keep' == keep ==> stack' == stack
    ensures forall m :: m in stack' <==> m in stack || m in keep' - keep
    ensures forall m :: m in keep' - keep ==> Reachable(bs, used, m)
    ensures forall c :: Uses(bs, n, c) ==> c in keep'
  {
    hide Reachable, Uses;
    forall b, c ensures Uses(bs, b, c) <==> exists t :: t in Words(bs, b) && Owner(bs, t) == c && c in Names(bs) {
      UsesIs(bs, b, c);
    }
    keep', stack' := keep, stack;
    var words := Words(bs, n);
    var left := words;
    while left != {}
      invariant left <= words
      invariant keep <= keep' <= Names(bs)
      invariant keep' == keep ==> stack' == stack
      invariant forall m :: m in stack' <==> m in stack || m in keep' - keep
      invariant forall m :: m in keep' - keep ==> Reachable(bs, used, m)
      invariant forall t :: t in words - left && Owner(bs, t) in Names(bs) ==> Owner(bs, t) in keep'
      decreases left
    {
      var t :| t in left;
      var c := Owner(bs, t);
      if c in Names(bs) && c !in keep' {
        assert Uses(bs, n, c);
        StepFurther(bs, used, n, c);
        keep', stack' := keep' + {c}, stack' + [c];
      }
      left := left - {t};
    }
  }

  /** The blocks written back, in their order. */
  function Kept(bs: seq<Block>, keep: set<string>): seq<Block> {
    if bs == [] then []
    else Kept(bs[..|bs| - 1], keep) + if bs[|bs| - 1].name in keep then [bs[|bs| - 1]] else []
  }

  lemma {:induction false} KeptAre(bs: seq<Block>, keep: set<string>)
    ensures forall b :: b in Kept(bs, keep) <==> b in bs && b.name in keep
  {
    if bs != [] {
      KeptAre(bs[..|bs| - 1], keep);
      assert bs == bs[..|bs| - 1] + [bs[|bs| - 1]];
    }
  }

  lemma KeptLast(bs: seq<Block>, keep: set<string>)
    requires bs != []
    ensures var last, rest := bs[|bs| - 1], Kept(bs[..|bs| - 1], keep);
      var kept := Kept(bs, keep);
      if last.name in keep then kept != [] && kept[|kept| - 1] == last && kept[..|kept| - 1] == rest else kept == rest
  {
  }

  lemma {:induction false} KeptWords(bs: seq<Block>, keep: set<string>, n: string)
    requires n in keep
    ensures Words(Kept(bs, keep), n) == Words(bs, n)
  {
    if bs != [] {
      KeptWords(bs[..|bs| - 1], keep, n);
      KeptLast(bs, keep);
      hide Kept;
    }
  }

  lemma {:induction false} KeptOwner(bs: seq<Block>, keep: set<string>, n: string)
    requires Owner(bs, n) in keep || !IsConstructor(bs, n)
    ensures Owner(Kept(bs, keep), n) == Owner(bs, n)
  {
    if bs != [] {
      var last, rest := bs[|bs| - 1], bs[..|bs| - 1];
      assert bs == rest + [last];
      KeptLast(bs, keep);
      if !Declares(last, n) {
        KeptOwner(rest, keep, n);
      } else {
        assert IsConstructor(bs, n) by { assert last in bs; }
      }
      hide Kept;
    }
  }

  /** No kept block refers to a dropped one, and a kept block refers to the same blocks as before. */
  lemma KeptModuleIsWhole(bs: seq<Block>, keep: set<string>, b: string, t: string)
    requires Closed(bs, keep) && b in keep && t in Words(bs, b) && Owner(bs, t) in Names(bs)
    ensures Words(Kept(bs, keep), b) == Words(bs, b)
    ensures Owner(Kept(bs, keep), t) == Owner(bs, t) && Owner(bs, t) in Names(Kept(bs, keep))
  {
    UsesIs(bs, b, Owner(bs, t));
    KeptWords(bs, keep, b);
    KeptOwner(bs, keep, t);
    KeptAre(bs, keep);
    var block :| block in bs && block.name == Owner(bs, t);
    assert block in Kept(bs, keep);
  }
}
