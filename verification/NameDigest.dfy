// The order-free digest input of a set of names: sorted lexicographically and joined
// with newlines.
module NameDigest {
  import opened Counting

  /** std::string's operator<=, character by character. */
  predicate LexLeq(a: string, b: string) {
    a == "" || (b != "" && (a[0] < b[0] || (a[0] == b[0] && LexLeq(a[1..], b[1..]))))
  }

  predicate SmallerAt(a: string, b: string, i: int) {
    0 <= i < |a| && i < |b| && a[..i] == b[..i] && a[i] < b[i]
  }

  lemma SmallerLater(a: string, b: string, i: nat)
    requires a != "" && b != "" && a[0] == b[0]
    ensures SmallerAt(a, b, i + 1) <==> SmallerAt(a[1..], b[1..], i)
  {
    if i < |a| - 1 && i < |b| - 1 {
      assert a[..i + 1] == [a[0]] + a[1..][..i] && b[..i + 1] == [b[0]] + b[1..][..i];
    }
  }

  /** The comparison, without the recursion: a begins b, or is smaller where they first differ. */
  lemma {:induction false} LexLeqIs(a: string, b: string)
    ensures LexLeq(a, b) <==> a <= b || exists i :: SmallerAt(a, b, i)
  {
    if a != "" && b != "" {
      assert SmallerAt(a, b, 0) <==> a[0] < b[0];
      if a[0] == b[0] {
        hide SmallerAt;
        LexLeqIs(a[1..], b[1..]);
        assert a == [a[0]] + a[1..] && b == [b[0]] + b[1..];
        forall i: nat ensures SmallerAt(a, b, i + 1) <==> SmallerAt(a[1..], b[1..], i) {
          SmallerLater(a, b, i);
        }
        FirstsDiffer(a, b);
      } else {
        assert forall i :: 0 < i < |a| && i < |b| ==> a[..i][0] != b[..i][0];
      }
    }
  }

  /** Where two strings begin alike, the place of the difference is a later one. */
  lemma FirstsDiffer(a: string, b: string)
    requires a != "" && b != "" && a[0] == b[0]
    requires forall i: nat :: SmallerAt(a, b, i + 1) <==> SmallerAt(a[1..], b[1..], i)
    ensures (exists i :: SmallerAt(a, b, i)) <==> exists i :: SmallerAt(a[1..], b[1..], i)
  {
    if i :| SmallerAt(a, b, i) {
      assert i > 0;
      assert SmallerAt(a, b, (i - 1) + 1);
      assert SmallerAt(a[1..], b[1..], i - 1);
    }
    if i :| SmallerAt(a[1..], b[1..], i) {
      assert SmallerAt(a, b, i + 1);
    }
  }

  lemma LexReflexive(a: string)
    ensures LexLeq(a, a)
  {
  }

  lemma LexTotal(a: string, b: string)
    ensures LexLeq(a, b) || LexLeq(b, a)
  {
  }

  lemma {:induction false} LexAntisymmetric(a: string, b: string)
    requires LexLeq(a, b) && LexLeq(b, a)
    ensures a == b
  {
    if a != "" {
      LexAntisymmetric(a[1..], b[1..]);
      assert a == [a[0]] + a[1..] && b == [b[0]] + b[1..];
    }
  }

  lemma {:induction false} LexTransitive(a: string, b: string, c: string)
    requires LexLeq(a, b) && LexLeq(b, c)
    ensures LexLeq(a, c)
  {
    if a != "" && a[0] == b[0] && b[0] == c[0] {
      LexTransitive(a[1..], b[1..], c[1..]);
    }
  }

  ghost predicate Ascending(names: seq<string>) {
    forall i, j :: 0 <= i < j < |names| ==> LexLeq(names[i], names[j])
  }

  /** The ascending rearrangement, by insertion. */
  function Sorted(names: seq<string>): (sorted: seq<string>)
    ensures multiset(sorted) == multiset(names)
    ensures Ascending(sorted)
  {
    if names == [] then []
    else
      assert names == [names[0]] + names[1..];
      Insert(names[0], Sorted(names[1..]))
  }

  function Insert(name: string, sorted: seq<string>): (r: seq<string>)
    requires Ascending(sorted)
    ensures multiset(r) == multiset(sorted) + multiset{name}
    ensures Ascending(r)
  {
    if sorted == [] then [name]
    else if LexLeq(name, sorted[0]) then
      InsertFrontAscends(name, sorted);
      [name] + sorted
    else
      LexTotal(name, sorted[0]);
      assert sorted == [sorted[0]] + sorted[1..];
      var tail := Insert(name, sorted[1..]);
      InsertTailAscends(name, sorted, tail);
      [sorted[0]] + tail
  }

  lemma InsertFrontAscends(name: string, sorted: seq<string>)
    requires Ascending(sorted) && sorted != [] && LexLeq(name, sorted[0])
    ensures Ascending([name] + sorted)
  {
    forall i | 0 <= i < |sorted| ensures LexLeq(name, sorted[i]) {
      if i > 0 { LexTransitive(name, sorted[0], sorted[i]); }
    }
  }

  lemma InsertTailAscends(name: string, sorted: seq<string>, r: seq<string>)
    requires Ascending(sorted) && sorted != [] && LexLeq(sorted[0], name)
    requires Ascending(r) && multiset(r) == multiset(sorted[1..]) + multiset{name}
    ensures Ascending([sorted[0]] + r)
  {
    forall i | 0 <= i < |r| ensures LexLeq(sorted[0], r[i]) {
      assert r[i] in multiset(r);
      if r[i] != name {
        assert r[i] in sorted[1..];
        var j :| 0 <= j < |sorted[1..]| && sorted[1..][j] == r[i];
        assert LexLeq(sorted[0], sorted[j + 1]);
      }
    }
  }

  lemma {:induction false} AscendingUnique(a: seq<string>, b: seq<string>)
    requires Ascending(a) && Ascending(b) && multiset(a) == multiset(b)
    ensures a == b
    decreases |a|
  {
    hide Ascending, LexLeq;
    NothingCounts(a, b);
    if a != [] {
      SameFirst(a, b);
      AscendingRest(a);
      AscendingRest(b);
      RestsMatch(a, b);
      AscendingUnique(a[1..], b[1..]);
      assert a == [a[0]] + a[1..] && b == [b[0]] + b[1..];
    }
  }

  lemma AscendingRest(a: seq<string>)
    requires Ascending(a) && a != []
    ensures Ascending(a[1..])
  {
    hide LexLeq;
  }

  lemma SameFirst(a: seq<string>, b: seq<string>)
    requires Ascending(a) && Ascending(b) && multiset(a) == multiset(b) && a != [] && b != []
    ensures a[0] == b[0]
  {
    hide Ascending;
    LeastFirst(a, b);
    LeastFirst(b, a);
    LexAntisymmetric(a[0], b[0]);
  }

  lemma LeastFirst(a: seq<string>, b: seq<string>)
    requires Ascending(a) && multiset(a) == multiset(b) && a != [] && b != []
    ensures LexLeq(a[0], b[0])
  {
    assert b[0] in multiset(a);
    var j :| 0 <= j < |a| && a[j] == b[0];
    LexReflexive(a[0]);
  }

  function JoinLines(names: seq<string>): string {
    if names == [] then ""
    else if |names| == 1 then names[0]
    else names[0] + "\n" + JoinLines(names[1..])
  }

  /** Read from the other end: one more name is one more line. */
  lemma {:induction false} JoinLast(names: seq<string>, last: string)
    ensures JoinLines(names + [last]) == if names == [] then last else JoinLines(names) + "\n" + last
  {
    if names != [] {
      assert (names + [last])[1..] == names[1..] + [last];
      JoinLast(names[1..], last);
    } else {
      assert names + [last] == [last];
    }
  }

  /** What the short hash of a set of names is taken over. */
  function DigestInput(names: seq<string>): string {
    JoinLines(Sorted(names))
  }

  /** Traversal order is invisible: equal multisets of names have equal digest inputs. */
  lemma DigestOrderFree(a: seq<string>, b: seq<string>)
    requires multiset(a) == multiset(b)
    ensures DigestInput(a) == DigestInput(b)
  {
    AscendingUnique(Sorted(a), Sorted(b));
  }

  predicate OneLine(s: string) {
    '\n' !in s
  }

  /** Position of the first newline, or |s| when there is none. */
  function FirstLine(s: string): nat {
    if s == "" || s[0] == '\n' then 0 else 1 + FirstLine(s[1..])
  }

  lemma {:induction false} FirstLineOf(line: string, rest: string)
    requires OneLine(line)
    ensures FirstLine(line) == |line| && FirstLine(line + "\n" + rest) == |line|
  {
    if line != "" {
      FirstLineOf(line[1..], rest);
      assert (line + "\n" + rest)[1..] == line[1..] + "\n" + rest;
    }
  }

  lemma FirstLineOfJoin(names: seq<string>)
    requires AllLines(names) && names != []
    ensures var joined := JoinLines(names);
            var end := FirstLine(joined);
            && end <= |joined| && names[0] == joined[..end] && |joined| > 0
            && (|names| == 1 <==> end == |joined|)
            && (|names| > 1 ==> joined[end + 1..] == JoinLines(names[1..]))
  {
    FirstLineOf(names[0], JoinLines(names[1..]));
  }

  ghost predicate AllLines(names: seq<string>) {
    forall i :: 0 <= i < |names| ==> names[i] != "" && OneLine(names[i])
  }

  lemma {:induction false} JoinInjective(a: seq<string>, b: seq<string>)
    requires AllLines(a) && AllLines(b)
    requires JoinLines(a) == JoinLines(b)
    ensures a == b
  {
    if a != [] && b != [] {
      FirstLineOfJoin(a);
      FirstLineOfJoin(b);
      assert a == [a[0]] + a[1..] && b == [b[0]] + b[1..];
      if |a| > 1 {
        JoinInjective(a[1..], b[1..]);
      }
    } else if a != [] {
      FirstLineOfJoin(a);
    } else if b != [] {
      FirstLineOfJoin(b);
    }
  }

  /** The digest input determines the names as a multiset: only the hash itself may collide. */
  lemma DigestInputInjective(a: seq<string>, b: seq<string>)
    requires AllLines(a) && AllLines(b)
    ensures DigestInput(a) == DigestInput(b) <==> multiset(a) == multiset(b)
  {
    SortedLines(a);
    SortedLines(b);
    if DigestInput(a) == DigestInput(b) {
      JoinInjective(Sorted(a), Sorted(b));
    } else if multiset(a) == multiset(b) {
      DigestOrderFree(a, b);
    }
  }

  lemma SortedLines(names: seq<string>)
    requires AllLines(names)
    ensures AllLines(Sorted(names))
  {
    var sorted := Sorted(names);
    forall i | 0 <= i < |sorted| ensures sorted[i] != "" && OneLine(sorted[i]) {
      assert sorted[i] in multiset(sorted);
      assert sorted[i] in names;
    }
  }
}
