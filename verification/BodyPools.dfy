// The pool of bodies a document evaluation has produced so far: index-aligned containers,
// resolution of operation ids, consumption, snapshots.
module BodyPools {
  import opened Outcomes

  datatype Body = Body(bodyId: string, operationId: string, outputIndex: nat, shape: nat)

  /** The pool's three containers as a value: what a snapshot holds. */
  datatype Pool = Pool(bodies: seq<Body>, consumed: seq<bool>, available: map<string, nat>)

  const EmptyPool := Pool([], [], map[])

  function Produced(p: Pool, body: Body): Pool {
    Pool(p.bodies + [body], p.consumed + [false], p.available[body.operationId := |p.bodies|])
  }

  /** Consuming an id that does not resolve is the missing-reference error. */
  function Consumed(p: Pool, id: string): Option<Pool>
    requires Aligned(p)
  {
    if id !in p.available then None
    else Some(Pool(p.bodies, p.consumed[p.available[id] := true], p.available - {id}))
  }

  /** The unconsumed bodies of the first n, in production order. */
  function VisibleBelow(p: Pool, n: nat): seq<Body>
    requires n <= |p.bodies| == |p.consumed|
  {
    if n == 0 then []
    else VisibleBelow(p, n - 1) + (if p.consumed[n - 1] then [] else [p.bodies[n - 1]])
  }

  function Visible(p: Pool): seq<Body>
    requires |p.bodies| == |p.consumed|
  {
    VisibleBelow(p, |p.bodies|)
  }

  /** The shown bodies are those at exactly the unconsumed places, earlier places first. */
  ghost predicate ShownAt(p: Pool, n: nat, shown: seq<Body>, at: seq<nat>)
    requires n <= |p.bodies| == |p.consumed|
  {
    && |at| == |shown|
    && (forall i, j :: 0 <= i < j < |at| ==> at[i] < at[j])
    && (forall i :: 0 <= i < |at| ==> at[i] < n && !p.consumed[at[i]] && shown[i] == p.bodies[at[i]])
    && (forall k: nat :: k < n && !p.consumed[k] ==> k in at)
  }

  ghost predicate Shows(p: Pool, shown: seq<Body>)
    requires |p.bodies| == |p.consumed|
  {
    exists at :: ShownAt(p, |p.bodies|, shown, at)
  }

  lemma {:induction false} VisibleShown(p: Pool, n: nat) returns (at: seq<nat>)
    requires n <= |p.bodies| == |p.consumed|
    ensures ShownAt(p, n, VisibleBelow(p, n), at)
  {
    at := [];
    if n > 0 {
      at := VisibleShown(p, n - 1);
      if !p.consumed[n - 1] {
        at := at + [n - 1];
      }
    }
  }

  lemma {:induction false} ShownOnce(p: Pool, n: nat, shown: seq<Body>, at: seq<nat>)
    requires n <= |p.bodies| == |p.consumed| && ShownAt(p, n, shown, at)
    ensures shown == VisibleBelow(p, n)
  {
    hide ShownAt;
    if n == 0 {
      NothingShown(p, shown, at);
    }
    if n > 0 {
      if !p.consumed[n - 1] {
        LastShown(p, n, shown, at);
        var i := |at| - 1;
        ShownOnce(p, n - 1, shown[..i], at[..i]);
      } else {
        ShownBefore(p, n, shown, at);
        ShownOnce(p, n - 1, shown, at);
      }
    }
  }

  lemma NothingShown(p: Pool, shown: seq<Body>, at: seq<nat>)
    requires |p.bodies| == |p.consumed| && ShownAt(p, 0, shown, at)
    ensures shown == []
  {
    RoomFor(at, 0);
  }

  lemma RoomFor(at: seq<nat>, n: nat)
    requires forall i :: 0 <= i < |at| ==> at[i] < n
    ensures |at| > 0 ==> n > 0
  {
    if |at| > 0 {
      assert at[0] < n;
    }
  }

  lemma ShownBefore(p: Pool, n: nat, shown: seq<Body>, at: seq<nat>)
    requires 0 < n <= |p.bodies| == |p.consumed| && ShownAt(p, n, shown, at) && p.consumed[n - 1]
    ensures ShownAt(p, n - 1, shown, at)
  {
  }

  lemma LastIsGreatest(at: seq<nat>, i: nat)
    requires i < |at| && forall j, k :: 0 <= j < k < |at| ==> at[j] < at[k]
    ensures at[i] <= at[|at| - 1] && (at[i] == at[|at| - 1] ==> i == |at| - 1)
  {
  }

  /** An unconsumed body at the end is shown last. */
  lemma LastShown(p: Pool, n: nat, shown: seq<Body>, at: seq<nat>)
    requires 0 < n <= |p.bodies| == |p.consumed| && ShownAt(p, n, shown, at) && !p.consumed[n - 1]
    ensures |at| > 0
    ensures var i := |at| - 1;
      shown == shown[..i] + [p.bodies[n - 1]] && ShownAt(p, n - 1, shown[..i], at[..i])
  {
    var i :| 0 <= i < |at| && at[i] == n - 1;
    LastIsGreatest(at, i);
    forall k: nat | k < n - 1 && !p.consumed[k] ensures k in at[..i] {
      var j :| 0 <= j < |at| && at[j] == k;
      assert at[..i][j] == k;
    }
  }

  /** The visible bodies are the unconsumed ones in production order, and nothing else is. */
  lemma VisibleIffShown(p: Pool, shown: seq<Body>)
    requires |p.bodies| == |p.consumed|
    ensures shown == Visible(p) <==> Shows(p, shown)
  {
    var at := VisibleShown(p, |p.bodies|);
    if other :| ShownAt(p, |p.bodies|, shown, other) {
      ShownOnce(p, |p.bodies|, shown, other);
    }
  }

  // ---------- Alignment ----------

  /** i is the place of the latest body produced under its operation id. */
  ghost predicate Latest(p: Pool, i: int) {
    0 <= i < |p.bodies| && forall j :: i < j < |p.bodies| ==> p.bodies[j].operationId != p.bodies[i].operationId
  }

  /** An id resolves exactly when the latest body produced under it is unconsumed. */
  ghost predicate Aligned(p: Pool) {
    && |p.bodies| == |p.consumed|
    && (forall id :: id in p.available ==>
          var i := p.available[id];
          Latest(p, i) && p.bodies[i].operationId == id && !p.consumed[i])
    && (forall i :: Latest(p, i) && !p.consumed[i] ==> p.bodies[i].operationId in p.available)
  }

  lemma ProducedAligned(p: Pool, body: Body)
    requires Aligned(p)
    ensures Aligned(Produced(p, body))
  {
    var q := Produced(p, body);
    var n := |p.bodies|;
    forall i ensures Latest(q, i) <==> i == n || (Latest(p, i) && p.bodies[i].operationId != body.operationId) {
      if 0 <= i < n {
        assert q.bodies[n] == body;
        assert forall j :: i < j < n ==> q.bodies[j] == p.bodies[j];
      }
    }
  }

  lemma ConsumedAligned(p: Pool, id: string)
    requires Aligned(p) && Consumed(p, id).Some?
    ensures Aligned(Consumed(p, id).value)
  {
    var q := Consumed(p, id).value;
    forall i ensures Latest(q, i) <==> Latest(p, i) {}
    forall other | other in q.available ensures !q.consumed[q.available[other]] {
      assert p.bodies[p.available[other]].operationId == other;
    }
    forall i | Latest(q, i) && !q.consumed[i] ensures q.bodies[i].operationId in q.available {
      assert Latest(p, i);
    }
  }

  // ---------- The list a caller sees ----------

  /** What the pool promises without its indices: a list of visible bodies, and the ids that resolve. */
  datatype Shelf = Shelf(visible: seq<Body>, resolvable: set<string>)

  /** Place of the last visible body under an id. */
  function LastUnder(visible: seq<Body>, id: string): (k: Option<nat>)
    ensures k.Some? ==> k.value < |visible| && visible[k.value].operationId == id
    ensures k.Some? ==> forall j :: k.value < j < |visible| ==> visible[j].operationId != id
    ensures k.None? ==> forall j :: 0 <= j < |visible| ==> visible[j].operationId != id
  {
    if visible == [] then None
    else if visible[|visible| - 1].operationId == id then Some(|visible| - 1)
    else LastUnder(visible[..|visible| - 1], id)
  }

  function Shelved(s: Shelf, body: Body): Shelf {
    Shelf(s.visible + [body], s.resolvable + {body.operationId})
  }

  function Taken(s: Shelf, id: string): Option<Shelf> {
    var k := LastUnder(s.visible, id);
    if id !in s.resolvable || k.None? then None
    else Some(Shelf(s.visible[..k.value] + s.visible[k.value + 1..], s.resolvable - {id}))
  }

  function ShelfOf(p: Pool): Shelf
    requires |p.bodies| == |p.consumed|
  {
    Shelf(Visible(p), p.available.Keys)
  }

  lemma {:induction false} VisibleSame(p: Pool, q: Pool, n: nat)
    requires n <= |p.bodies| == |p.consumed| && n <= |q.bodies| == |q.consumed|
    requires p.bodies[..n] == q.bodies[..n] && p.consumed[..n] == q.consumed[..n]
    ensures VisibleBelow(p, n) == VisibleBelow(q, n)
  {
    if n > 0 {
      assert p.bodies[..n][..n - 1] == p.bodies[..n - 1] && q.bodies[..n][..n - 1] == q.bodies[..n - 1];
      assert p.consumed[..n][..n - 1] == p.consumed[..n - 1] && q.consumed[..n][..n - 1] == q.consumed[..n - 1];
      assert p.bodies[..n][n - 1] == q.bodies[..n][n - 1] && p.consumed[..n][n - 1] == q.consumed[..n][n - 1];
      VisibleSame(p, q, n - 1);
    }
  }

  /** The visible list below n begins with the one below m and goes on with later bodies. */
  lemma {:induction false} VisibleAfter(p: Pool, m: nat, n: nat)
    requires m <= n <= |p.bodies| == |p.consumed|
    ensures VisibleBelow(p, m) <= VisibleBelow(p, n)
    ensures forall j :: |VisibleBelow(p, m)| <= j < |VisibleBelow(p, n)| ==>
              exists i :: m <= i < n && VisibleBelow(p, n)[j] == p.bodies[i]
    decreases n
  {
    if m < n {
      VisibleAfter(p, m, n - 1);
    }
  }

  lemma VisibleStep(p: Pool, n: nat)
    requires 0 < n <= |p.bodies| == |p.consumed|
    ensures VisibleBelow(p, n) == VisibleBelow(p, n - 1) + (if p.consumed[n - 1] then [] else [p.bodies[n - 1]])
  {
  }

  lemma {:induction false} VisibleLess(p: Pool, i: nat, n: nat)
    requires i < n <= |p.bodies| == |p.consumed| && !p.consumed[i]
    ensures var q := p.(consumed := p.consumed[i := true]);
            var k := |VisibleBelow(p, i)|;
            && k < |VisibleBelow(p, n)| && VisibleBelow(p, n)[k] == p.bodies[i]
            && VisibleBelow(q, n) == VisibleBelow(p, n)[..k] + VisibleBelow(p, n)[k + 1..]
    decreases n
  {
    hide VisibleBelow;
    var q := p.(consumed := p.consumed[i := true]);
    VisibleStep(p, n);
    VisibleStep(q, n);
    if n == i + 1 {
      VisibleSame(p, q, i);
    } else {
      VisibleLess(p, i, n - 1);
      DropThenAppend(VisibleBelow(p, n - 1), |VisibleBelow(p, i)|, if p.consumed[n - 1] then [] else [p.bodies[n - 1]]);
    }
  }

  lemma DropThenAppend(xs: seq<Body>, k: nat, ys: seq<Body>)
    requires k < |xs|
    ensures (xs + ys)[k] == xs[k] && (xs + ys)[..k] + (xs + ys)[k + 1..] == xs[..k] + xs[k + 1..] + ys
  {
  }

  /** Consuming place i takes exactly one body out of the visible list. */
  lemma VisibleWithout(p: Pool, i: nat, n: nat)
    requires i < n <= |p.bodies| == |p.consumed| && !p.consumed[i]
    ensures var q := p.(consumed := p.consumed[i := true]);
            var k := |VisibleBelow(p, i)|;
            && k < |VisibleBelow(p, n)| && VisibleBelow(p, n)[k] == p.bodies[i]
            && VisibleBelow(q, n) == VisibleBelow(p, n)[..k] + VisibleBelow(p, n)[k + 1..]
            && (forall j :: k < j < |VisibleBelow(p, n)| ==>
                  exists m :: i < m < n && VisibleBelow(p, n)[j] == p.bodies[m])
  {
    VisibleLess(p, i, n);
    VisibleAfter(p, i + 1, n);
    assert VisibleBelow(p, i + 1) == VisibleBelow(p, i) + [p.bodies[i]];
    hide VisibleBelow;
  }

  lemma LastUnderIs(visible: seq<Body>, id: string, k: nat)
    requires k < |visible| && visible[k].operationId == id
    requires forall j :: k < j < |visible| ==> visible[j].operationId != id
    ensures LastUnder(visible, id) == Some(k)
  {
  }

  lemma AlignedLengths(p: Pool)
    requires Aligned(p)
    ensures |p.bodies| == |p.consumed|
  {
  }

  /** What an id resolves to is the last visible body produced under it. */
  lemma ConsumedIsLastUnder(p: Pool, id: string)
    requires Aligned(p) && id in p.available
    ensures var k := LastUnder(Visible(p), id);
            k.Some? && Visible(p)[k.value] == p.bodies[p.available[id]]
  {
    hide LastUnder, VisibleBelow;
    var i := p.available[id];
    VisibleWithout(p, i, |p.bodies|);
    LastUnderIs(Visible(p), id, |VisibleBelow(p, i)|);
  }

  lemma ProducingRefines(p: Pool, body: Body)
    requires Aligned(p)
    ensures Aligned(Produced(p, body)) && ShelfOf(Produced(p, body)) == Shelved(ShelfOf(p), body)
  {
    hide Aligned;
    ProducedAligned(p, body);
    AlignedLengths(p);
    VisibleSame(p, Produced(p, body), |p.bodies|);
  }

  lemma ConsumingRefines(p: Pool, id: string)
    requires Aligned(p)
    ensures Consumed(p, id).Some? <==> Taken(ShelfOf(p), id).Some?
    ensures Consumed(p, id).Some? ==>
      Aligned(Consumed(p, id).value) && ShelfOf(Consumed(p, id).value) == Taken(ShelfOf(p), id).value
  {
    hide VisibleBelow, LastUnder;
    if id in p.available {
      ConsumedAligned(p, id);
      var i := p.available[id];
      VisibleWithout(p, i, |p.bodies|);
      LastUnderIs(Visible(p), id, |VisibleBelow(p, i)|);
      VisibleSame(Consumed(p, id).value, p.(consumed := p.consumed[i := true]), |p.bodies|);
    }
  }

  /** The index-aligned pool behaves like the list: producing appends, consuming an id that
      resolves removes the last visible body under it and nothing else, and refuses otherwise. */
  lemma PoolRefinesShelf(p: Pool, body: Body, id: string)
    requires Aligned(p)
    ensures Aligned(Produced(p, body)) && ShelfOf(Produced(p, body)) == Shelved(ShelfOf(p), body)
    ensures Consumed(p, id).Some? <==> Taken(ShelfOf(p), id).Some?
    ensures Consumed(p, id).Some? ==>
      Aligned(Consumed(p, id).value) && ShelfOf(Consumed(p, id).value) == Taken(ShelfOf(p), id).value
  {
    hide Aligned, ShelfOf, Shelved, Taken;
    ProducingRefines(p, body);
    ConsumingRefines(p, id);
  }

  // ---------- Runs ----------

  datatype Edit = Produce(body: Body) | Consume(id: string)

  /** A refused consumption is thrown at the operation and leaves the pool as it was. */
  function Edited(p: Pool, edit: Edit): (q: Pool)
    requires Aligned(p)
    ensures Aligned(q)
  {
    match edit
    case Produce(body) => ProducedAligned(p, body); Produced(p, body)
    case Consume(id) =>
      if Consumed(p, id).Some? then ConsumedAligned(p, id); Consumed(p, id).value else p
  }

  function EditedAll(p: Pool, edits: seq<Edit>): (q: Pool)
    requires Aligned(p)
    ensures Aligned(q)
  {
    if edits == [] then p
    else
      var n := |edits| - 1;
      Edited(EditedAll(p, edits[..n]), edits[n])
  }

  function CountTrue(flags: seq<bool>): nat {
    if flags == [] then 0 else CountTrue(flags[..|flags| - 1]) + (if flags[|flags| - 1] then 1 else 0)
  }

  /** Conservation: every body ever produced is either visible or consumed, never both. */
  lemma {:induction false} VisiblePlusConsumed(p: Pool, n: nat)
    requires n <= |p.bodies| == |p.consumed|
    ensures |VisibleBelow(p, n)| + CountTrue(p.consumed[..n]) == n
  {
    if n > 0 {
      assert p.consumed[..n][..n - 1] == p.consumed[..n - 1];
      VisiblePlusConsumed(p, n - 1);
    }
  }

  /** Along any run of edits bodies are only appended, and a consumed body stays consumed. */
  lemma {:induction false} RunKeepsBodies(p: Pool, edits: seq<Edit>)
    requires Aligned(p)
    ensures var q := EditedAll(p, edits);
            && p.bodies <= q.bodies
            && (forall i :: 0 <= i < |p.bodies| && p.consumed[i] ==> q.consumed[i])
            && |Visible(q)| + CountTrue(q.consumed) == |q.bodies|
    decreases |edits|
  {
    hide Aligned, Edited, Visible, CountTrue;
    if edits != [] {
      var n := |edits| - 1;
      RunKeepsBodies(p, edits[..n]);
      EditKeeps(EditedAll(p, edits[..n]), edits[n]);
    }
    PoolBalances(EditedAll(p, edits));
    AlignedLengths(EditedAll(p, edits));
  }

  lemma EditKeeps(p: Pool, edit: Edit)
    requires Aligned(p)
    ensures var q := Edited(p, edit);
            && p.bodies <= q.bodies && |q.bodies| == |q.consumed|
            && forall i :: 0 <= i < |p.bodies| && p.consumed[i] ==> q.consumed[i]
  {
  }

  lemma PoolBalances(q: Pool)
    requires Aligned(q)
    ensures |Visible(q)| + CountTrue(q.consumed) == |q.bodies|
  {
    assert q.consumed[..|q.bodies|] == q.consumed;
    VisiblePlusConsumed(q, |q.bodies|);
  }

  // ---------- Runs with snapshots ----------

  /** A step of a run: an edit, taking a snapshot, or restoring the k-th one taken. */
  datatype PoolStep = Change(edit: Edit) | TakeOne | RestoreTo(k: nat)

  /** A pool, and the snapshots taken of it so far. */
  datatype Desk = Desk(pool: Pool, taken: seq<Pool>)

  ghost predicate AllAligned(d: Desk) {
    Aligned(d.pool) && forall k :: 0 <= k < |d.taken| ==> Aligned(d.taken[k])
  }

  ghost function Step(d: Desk, step: PoolStep): (e: Desk)
    requires AllAligned(d)
    ensures AllAligned(e) && d.taken <= e.taken
  {
    match step
    case Change(edit) => d.(pool := Edited(d.pool, edit))
    case TakeOne => d.(taken := d.taken + [d.pool])
    case RestoreTo(k) => if k < |d.taken| then d.(pool := d.taken[k]) else d
  }

  ghost function RunPool(d: Desk, steps: seq<PoolStep>): (e: Desk)
    requires AllAligned(d)
    ensures AllAligned(e) && d.taken <= e.taken
    decreases |steps|
  {
    if steps == [] then d else RunPool(Step(d, steps[0]), steps[1..])
  }

  /** The edits that still count after a run, and those that counted at each snapshot. */
  datatype Story = Story(edits: seq<Edit>, at: seq<seq<Edit>>)

  function Told(s: Story, step: PoolStep): Story {
    match step
    case Change(edit) => s.(edits := s.edits + [edit])
    case TakeOne => s.(at := s.at + [s.edits])
    case RestoreTo(k) => if k < |s.at| then s.(edits := s.at[k]) else s
  }

  function ToldAll(s: Story, steps: seq<PoolStep>): Story
    decreases |steps|
  {
    if steps == [] then s else ToldAll(Told(s, steps[0]), steps[1..])
  }

  ghost predicate Tells(start: Pool, s: Story, d: Desk)
    requires Aligned(start)
  {
    && d.pool == EditedAll(start, s.edits) && |d.taken| == |s.at|
    && forall k :: 0 <= k < |s.at| ==> d.taken[k] == EditedAll(start, s.at[k])
  }

  lemma {:induction false} StoryHolds(start: Pool, s: Story, d: Desk, steps: seq<PoolStep>)
    requires Aligned(start) && AllAligned(d) && Tells(start, s, d)
    ensures Tells(start, ToldAll(s, steps), RunPool(d, steps))
    decreases |steps|
  {
    hide Aligned;
    if steps != [] {
      assert (s.edits + (if steps[0].Change? then [steps[0].edit] else []))[..|s.edits|] == s.edits;
      StoryHolds(start, Told(s, steps[0]), Step(d, steps[0]), steps[1..]);
    }
  }

  /** Restoring undoes exactly what came after the snapshot: the pool any run reaches, however it
      took and restored snapshots, is the one its surviving edits alone would have made. */
  lemma RestoringUndoes(start: Pool, steps: seq<PoolStep>)
    requires Aligned(start)
    ensures var q := RunPool(Desk(start, []), steps).pool;
            && Aligned(q) && |Visible(q)| + CountTrue(q.consumed) == |q.bodies|
            && q == EditedAll(start, ToldAll(Story([], []), steps).edits)
  {
    hide Aligned, Visible;
    StoryHolds(start, Story([], []), Desk(start, []), steps);
    PoolBalances(RunPool(Desk(start, []), steps).pool);
  }

  // ---------- The pool itself ----------

  class BodyPool {
    var bodies: seq<Body>
    var consumed: seq<bool>
    var available: map<string, nat>

    ghost function State(): Pool
      reads this
    {
      Pool(bodies, consumed, available)
    }

    constructor ()
      ensures State() == EmptyPool && Aligned(State())
    {
      bodies, consumed, available := [], [], map[];
    }

    method Produce(body: Body)
      requires Aligned(State())
      modifies this
      ensures State() == Produced(old(State()), body) && Aligned(State())
    {
      ProducedAligned(State(), body);
      available := available[body.operationId := |bodies|];
      consumed := consumed + [false];
      bodies := bodies + [body];
    }

    /** Resolves a reference and consumes the body it denotes. */
    method Consume(id: string) returns (shape: Option<nat>)
      requires Aligned(State())
      modifies this
      ensures Aligned(State())
      ensures shape.Some? == Consumed(old(State()), id).Some?
      ensures shape.None? ==> State() == old(State())
      ensures shape.Some? ==>
        && State() == Consumed(old(State()), id).value
        && LastUnder(Visible(old(State())), id).Some?
        && shape.value == Visible(old(State()))[LastUnder(Visible(old(State())), id).value].shape
    {
      if id !in available {
        return None;
      }
      hide VisibleBelow, LastUnder;
      ghost var p := State();
      ConsumedAligned(p, id);
      var i := available[id];
      ConsumedIsLastUnder(p, id);
      available := available - {id};
      consumed := consumed[i := true];
      return Some(bodies[i].shape);
    }

    method PeekVisibleBodies() returns (visible: seq<Body>)
      requires Aligned(State())
      ensures |bodies| == |consumed| && visible == Visible(State()) && Shows(State(), visible)
    {
      hide Aligned, ShownAt;
      ghost var p := State();
      AlignedLengths(p);
      VisibleIffShown(p, Visible(p));
      visible := [];
      for i := 0 to |bodies|
        invariant visible == VisibleBelow(p, i)
      {
        if !consumed[i] {
          visible := visible + [bodies[i]];
        }
      }
    }

    method TakeSnapshot() returns (snapshot: Pool)
      ensures snapshot == State()
    {
      snapshot := Pool(bodies, consumed, available);
    }

    method RestoreFrom(snapshot: Pool)
      requires Aligned(snapshot)
      modifies this
      ensures State() == snapshot
    {
      bodies, consumed, available := snapshot.bodies, snapshot.consumed, snapshot.available;
    }
  }
}
