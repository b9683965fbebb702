// Rearranged lists, one element at a time.
module Counting {

  lemma CountWithout<T>(xs: seq<T>, i: nat)
    requires i < |xs|
    ensures multiset(xs) == multiset(xs[..i] + xs[i + 1..]) + multiset{xs[i]}
  {
    assert xs == xs[..i] + [xs[i]] + xs[i + 1..];
  }

  lemma Cancelled<T>(m: multiset<T>, n: multiset<T>, e: T)
    requires m + multiset{e} == n + multiset{e}
    ensures m == n
  {
    forall x ensures m[x] == n[x] {
      assert (m + multiset{e})[x] == (n + multiset{e})[x];
    }
  }

  lemma HeldIn<T>(xs: seq<T>, ys: seq<T>, i: nat)
    requires multiset(xs) == multiset(ys) && i < |xs|
    ensures xs[i] in ys
  {
    assert xs[i] in multiset(ys);
  }

  /** A place in the one list answers any place in the other, and the rests are rearranged too. */
  lemma Matched<T>(xs: seq<T>, ys: seq<T>, i: nat) returns (j: nat)
    requires multiset(xs) == multiset(ys) && i < |xs|
    ensures j < |ys| && ys[j] == xs[i]
    ensures multiset(xs[..i] + xs[i + 1..]) == multiset(ys[..j] + ys[j + 1..])
  {
    HeldIn(xs, ys, i);
    j :| 0 <= j < |ys| && ys[j] == xs[i];
    CountWithout(xs, i);
    CountWithout(ys, j);
    Cancelled(multiset(xs[..i] + xs[i + 1..]), multiset(ys[..j] + ys[j + 1..]), xs[i]);
  }

  lemma CountFirst<T>(xs: seq<T>)
    requires xs != []
    ensures multiset(xs) == multiset(xs[1..]) + multiset{xs[0]}
  {
    assert xs == [xs[0]] + xs[1..];
  }

  lemma RestsMatch<T>(xs: seq<T>, ys: seq<T>)
    requires multiset(xs) == multiset(ys) && xs != [] && ys != [] && xs[0] == ys[0]
    ensures multiset(xs[1..]) == multiset(ys[1..])
  {
    CountFirst(xs);
    CountFirst(ys);
    Cancelled(multiset(xs[1..]), multiset(ys[1..]), xs[0]);
  }

  lemma MatchedFirst<T>(xs: seq<T>, ys: seq<T>) returns (j: nat)
    requires multiset(xs) == multiset(ys) && xs != []
    ensures j < |ys| && ys[j] == xs[0] && multiset(xs[1..]) == multiset(ys[..j] + ys[j + 1..])
  {
    j := Matched(xs, ys, 0);
    assert xs[..0] + xs[1..] == xs[1..];
  }

  lemma MatchedLast<T>(xs: seq<T>, ys: seq<T>) returns (j: nat)
    requires multiset(xs) == multiset(ys) && xs != []
    ensures j < |ys| && ys[j] == xs[|xs| - 1] && multiset(xs[..|xs| - 1]) == multiset(ys[..j] + ys[j + 1..])
  {
    j := Matched(xs, ys, |xs| - 1);
    assert xs[..|xs| - 1] + xs[|xs|..] == xs[..|xs| - 1];
  }

  lemma NothingCounts<T>(xs: seq<T>, ys: seq<T>)
    requires multiset(xs) == multiset(ys)
    ensures |xs| == |ys|
  {
    assert |multiset(xs)| == |xs| && |multiset(ys)| == |ys|;
  }
}
