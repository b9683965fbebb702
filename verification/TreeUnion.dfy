// Union edits over many parts: a balanced tree of pairwise unions, and the rings of
// rotated copies built on it.
module TreeUnion {
  import opened Outcomes

  datatype Edit = Union(node: int, left: int, right: int) | Rotate(node: int, source: int, angle: real)

  // ---------- Rounds of pairing ----------

  function Pairs(ids: seq<int>, next: int): (r: seq<Edit>)
    ensures |r| == |ids| / 2
  {
    if |ids| < 2 then [] else [Union(next, ids[0], ids[1])] + Pairs(ids[2..], next + 1)
  }

  function Level(ids: seq<int>, next: int): (r: seq<int>)
    ensures |r| == (|ids| + 1) / 2
  {
    if |ids| < 2 then ids else [next] + Level(ids[2..], next + 1)
  }

  function Unions(ids: seq<int>, next: int): (r: seq<Edit>)
    requires ids != []
    ensures |r| == |ids| - 1
    decreases |ids|
  {
    if |ids| == 1 then [] else Pairs(ids, next) + Unions(Level(ids, next), next + |ids| / 2)
  }

  function Top(ids: seq<int>, next: int): int
    requires ids != []
    decreases |ids|
  {
    if |ids| == 1 then ids[0] else Top(Level(ids, next), next + |ids| / 2)
  }

  lemma {:induction false} PairsNumbered(ids: seq<int>, next: int, k: nat)
    requires k < |ids| / 2
    ensures Pairs(ids, next)[k].Union? && Pairs(ids, next)[k].node == next + k
  {
    if k > 0 {
      PairsNumbered(ids[2..], next + 1, k - 1);
    }
  }

  lemma {:induction false} UnionsNumbered(ids: seq<int>, next: int, k: nat)
    requires k < |ids| - 1
    ensures Unions(ids, next)[k].Union? && Unions(ids, next)[k].node == next + k
    decreases |ids|
  {
    hide Pairs, Level;
    if k < |ids| / 2 {
      PairsNumbered(ids, next, k);
    } else {
      UnionsNumbered(Level(ids, next), next + |ids| / 2, k - |ids| / 2);
    }
  }

  lemma FirstOfRound(ids: seq<int>, next: int)
    requires |ids| >= 2
    ensures Pairs(ids, next) == [Union(next, ids[0], ids[1])] + Pairs(ids[2..], next + 1)
    ensures Level(ids, next) == [next] + Level(ids[2..], next + 1)
  {
  }

  lemma {:induction false} OnePairMore(ids: seq<int>, next: int, i: nat)
    requires 2 * i + 1 < |ids|
    ensures Pairs(ids[..2 * i + 2], next) == Pairs(ids[..2 * i], next) + [Union(next + i, ids[2 * i], ids[2 * i + 1])]
    ensures Level(ids[..2 * i + 2], next) == Level(ids[..2 * i], next) + [next + i]
  {
    hide Pairs, Level;
    if i > 0 {
      OnePairMore(ids[2..], next + 1, i - 1);
      FrontOfRound(ids, next, i);
      FrontOfRound(ids, next, i - 1);
    } else {
      FirstOfRound(ids[..2], next);
      assert ids[..2][2..] == [] && ids[..0] == [];
      EmptyRound(next + 1);
      EmptyRound(next);
    }
  }

  lemma EmptyRound(next: int)
    ensures Pairs([], next) == [] && Level([], next) == []
  {
  }

  /** The round over the first i + 1 pairs is the first pair and the round over the i that follow. */
  lemma FrontOfRound(ids: seq<int>, next: int, i: nat)
    requires 2 * i + 1 < |ids|
    ensures Pairs(ids[..2 * i + 2], next) == [Union(next, ids[0], ids[1])] + Pairs(ids[2..][..2 * i], next + 1)
    ensures Level(ids[..2 * i + 2], next) == [next] + Level(ids[2..][..2 * i], next + 1)
  {
    hide Pairs, Level;
    FirstOfRound(ids[..2 * i + 2], next);
    assert ids[..2 * i + 2][2..] == ids[2..][..2 * i];
  }

  lemma {:induction false} OddOneOut(ids: seq<int>, next: int)
    requires |ids| % 2 == 1
    ensures Pairs(ids, next) == Pairs(ids[..|ids| - 1], next)
    ensures Level(ids, next) == Level(ids[..|ids| - 1], next) + [ids[|ids| - 1]]
  {
    hide Pairs, Level;
    if |ids| == 1 {
      LoneRound(ids, next);
      assert ids[..0] == [];
      EmptyRound(next);
    } else {
      FirstOfRound(ids, next);
      FirstOfRound(ids[..|ids| - 1], next);
      OddOneOut(ids[2..], next + 1);
      assert ids[2..][..|ids| - 3] == ids[..|ids| - 1][2..];
    }
  }

  lemma LoneRound(ids: seq<int>, next: int)
    requires |ids| == 1
    ensures Pairs(ids, next) == [] && Level(ids, next) == ids == [ids[0]]
  {
  }

  /** One round: neighbours are joined in pairs, an odd last one passes through. */
  method Round(ids: seq<int>, next: int) returns (edits: seq<Edit>, level: seq<int>)
    requires |ids| > 1
    ensures edits == Pairs(ids, next) && level == Level(ids, next)
  {
    edits, level := [], [];
    assert ids[..0] == [];
    for i := 0 to |ids| / 2
      invariant edits == Pairs(ids[..2 * i], next) && level == Level(ids[..2 * i], next)
    {
      OnePairMore(ids, next, i);
      edits := edits + [Union(next + i, ids[2 * i], ids[2 * i + 1])];
      level := level + [next + i];
    }
    if |ids| % 2 == 1 {
      OddOneOut(ids, next);
      level := level + [ids[|ids| - 1]];
    } else {
      assert ids[..|ids|] == ids;
    }
  }

  /** The edits made so far and the ids left to join amount to the whole. */
  ghost predicate Underway(start: seq<int>, first: int, edits: seq<Edit>, ids: seq<int>, next: int) {
    start != [] && ids != [] && Unions(start, first) == edits + Unions(ids, next) && Top(start, first) == Top(ids, next)
  }

  lemma OneRoundMore(start: seq<int>, first: int, edits: seq<Edit>, ids: seq<int>, next: int)
    requires Underway(start, first, edits, ids, next) && |ids| > 1
    ensures Level(ids, next) != []
    ensures Underway(start, first, edits + Pairs(ids, next), Level(ids, next), next + |ids| / 2)
  {
    hide Pairs, Level;
    UnionsRound(ids, next);
    assert edits + (Pairs(ids, next) + Unions(Level(ids, next), next + |ids| / 2))
        == (edits + Pairs(ids, next)) + Unions(Level(ids, next), next + |ids| / 2);
  }

  lemma UnionsRound(ids: seq<int>, next: int)
    requires |ids| > 1
    ensures Level(ids, next) != []
    ensures Unions(ids, next) == Pairs(ids, next) + Unions(Level(ids, next), next + |ids| / 2)
    ensures Top(ids, next) == Top(Level(ids, next), next + |ids| / 2)
  {
  }

  lemma RoundsOver(start: seq<int>, first: int, edits: seq<Edit>, ids: seq<int>, next: int)
    requires Underway(start, first, edits, ids, next) && |ids| == 1
    ensures start != [] && Unions(start, first) == edits && Top(start, first) == ids[0]
  {
  }

  method UnionAll(start: seq<int>, first: int) returns (r: Option<(seq<Edit>, int)>)
    ensures r.None? <==> start == []
    ensures r.Some? ==> r.value.0 == Unions(start, first) && r.value.1 == Top(start, first)
  {
    hide Underway, Unions, Top, Pairs, Level;
    if |start| == 0 {
      return None;
    }
    var ids, next, edits: seq<Edit> := start, first, [];
    Unstarted(start, first);
    while |ids| > 1
      invariant |ids| > 0 && Underway(start, first, edits, ids, next)
      decreases |ids|
    {
      OneRoundMore(start, first, edits, ids, next);
      var joined, level := Round(ids, next);
      edits, ids, next := edits + joined, level, next + |joined|;
    }
    RoundsOver(start, first, edits, ids, next);
    return Some((edits, ids[0]));
  }

  lemma Unstarted(start: seq<int>, first: int)
    requires start != []
    ensures Underway(start, first, [], start, first)
  {
  }

  // ---------- What the edits build ----------

  datatype Tree = Leaf(id: int) | Fork(left: Tree, right: Tree)

  function Leaves(t: Tree): seq<int> {
    match t case Leaf(id) => [id] case Fork(l, r) => Leaves(l) + Leaves(r)
  }

  function Max(a: nat, b: nat): nat { if a < b then b else a }

  function Depth(t: Tree): nat {
    match t case Leaf(_) => 0 case Fork(l, r) => 1 + Max(Depth(l), Depth(r))
  }

  /** Every operand is known when it is used, and no known node is made again. */
  predicate Defined(edits: seq<Edit>, env: map<int, Tree>) {
    edits == [] ||
    (var e := edits[0];
     && e.node !in env
     && (if e.Union? then e.left in env && e.right in env else e.source in env)
     && Defined(edits[1..], Apply(e, env)))
  }

  function Apply(e: Edit, env: map<int, Tree>): map<int, Tree>
    requires if e.Union? then e.left in env && e.right in env else e.source in env
  {
    env[e.node := if e.Union? then Fork(env[e.left], env[e.right]) else Leaf(e.node)]
  }

  function Built(edits: seq<Edit>, env: map<int, Tree>): map<int, Tree>
    requires Defined(edits, env)
  {
    if edits == [] then env else Built(edits[1..], Apply(edits[0], env))
  }

  lemma {:induction false} BuiltAppend(a: seq<Edit>, b: seq<Edit>, env: map<int, Tree>)
    requires Defined(a, env) && Defined(b, Built(a, env))
    ensures Defined(a + b, env) && Built(a + b, env) == Built(b, Built(a, env))
    decreases |a|
  {
    if a == [] {
      assert a + b == b;
    } else {
      assert (a + b)[1..] == a[1..] + b;
      BuiltAppend(a[1..], b, Apply(a[0], env));
    }
  }

  predicate Known(ids: seq<int>, env: map<int, Tree>) {
    forall k :: 0 <= k < |ids| ==> ids[k] in env
  }

  function AllLeaves(ids: seq<int>, env: map<int, Tree>): seq<int>
    requires Known(ids, env)
  {
    if ids == [] then [] else Leaves(env[ids[0]]) + AllLeaves(ids[1..], env)
  }

  /** ids stand for trees no deeper than d; everything known has a number below next. */
  ghost predicate Forest(ids: seq<int>, env: map<int, Tree>, next: int, d: nat) {
    Known(ids, env) && (forall k :: 0 <= k < |ids| ==> Depth(env[ids[k]]) <= d) && forall i :: i in env ==> i < next
  }

  /** Everything known stays known as the same tree. */
  ghost predicate Grown(env: map<int, Tree>, env': map<int, Tree>) {
    forall i :: i in env ==> i in env' && env'[i] == env[i]
  }

  lemma {:induction false} LeavesSame(ids: seq<int>, env: map<int, Tree>, env': map<int, Tree>)
    requires Known(ids, env) && Grown(env, env')
    ensures Known(ids, env') && AllLeaves(ids, env) == AllLeaves(ids, env')
  {
    forall k | 0 <= k < |ids| ensures ids[k] in env' && env'[ids[k]] == env[ids[k]] {
      var i := ids[k];
      assert i in env;
    }
    if ids != [] {
      LeavesSame(ids[1..], env, env');
    }
  }

  lemma TwoLeaves(ids: seq<int>, env: map<int, Tree>)
    requires |ids| >= 2 && Known(ids, env)
    ensures Known(ids[2..], env)
      && AllLeaves(ids, env) == Leaves(env[ids[0]]) + Leaves(env[ids[1]]) + AllLeaves(ids[2..], env)
  {
    assert ids[1..][1..] == ids[2..];
    assert AllLeaves(ids[1..], env) == Leaves(env[ids[1]]) + AllLeaves(ids[2..], env);
  }

  /** The first pair of a round. */
  lemma FirstPair(ids: seq<int>, env: map<int, Tree>, next: int, d: nat)
    requires |ids| >= 2 && Forest(ids, env, next, d)
    ensures var env' := Apply(Pairs(ids, next)[0], env);
      && Pairs(ids, next) == [Union(next, ids[0], ids[1])] + Pairs(ids[2..], next + 1)
      && next !in env && Grown(env, env') && Forest(ids[2..], env', next + 1, d)
      && next in env' && env'[next] == Fork(env[ids[0]], env[ids[1]])
  {
  }

  /** A round keeps the leaves in order and adds one to the depth bound. */
  lemma {:induction false} PairsBuild(ids: seq<int>, env: map<int, Tree>, next: int, d: nat)
    requires Forest(ids, env, next, d)
    ensures Defined(Pairs(ids, next), env)
    ensures var env' := Built(Pairs(ids, next), env);
      && Forest(Level(ids, next), env', next + |ids| / 2, d + 1) && Grown(env, env')
      && AllLeaves(Level(ids, next), env') == AllLeaves(ids, env)
    decreases |ids|
  {
    if |ids| >= 2 {
      FirstPair(ids, env, next, d);
      var pairs := Pairs(ids, next);
      var env1 := Apply(pairs[0], env);
      assert pairs[1..] == Pairs(ids[2..], next + 1);
      PairsBuild(ids[2..], env1, next + 1, d);
      TwoLeaves(ids, env);
      LeavesSame(ids[2..], env, env1);
      var level := Level(ids, next);
      assert level[1..] == Level(ids[2..], next + 1);
      LevelForest(ids, env, next, d, Built(pairs[1..], env1));
    }
  }

  lemma LevelForest(ids: seq<int>, env: map<int, Tree>, next: int, d: nat, env': map<int, Tree>)
    requires |ids| >= 2 && Known(ids, env) && Depth(env[ids[0]]) <= d && Depth(env[ids[1]]) <= d
    requires next in env' && env'[next] == Fork(env[ids[0]], env[ids[1]])
    requires Forest(Level(ids[2..], next + 1), env', next + |ids| / 2, d + 1)
    ensures Forest(Level(ids, next), env', next + |ids| / 2, d + 1)
    ensures AllLeaves(Level(ids, next), env')
      == Leaves(env[ids[0]]) + Leaves(env[ids[1]]) + AllLeaves(Level(ids[2..], next + 1), env')
  {
    var level, rest := Level(ids, next), Level(ids[2..], next + 1);
    assert level == [next] + rest && level[1..] == rest;
  }

  function Rounds(n: nat): nat
    requires n >= 1
  {
    if n == 1 then 0 else 1 + Rounds((n + 1) / 2)
  }

  function Pow2(k: nat): nat { if k == 0 then 1 else 2 * Pow2(k - 1) }

  /** The number of rounds is the logarithm rounded up. */
  lemma {:induction false} RoundsAreCeilLog2(n: nat)
    requires n >= 1
    ensures n <= Pow2(Rounds(n)) && (n > 1 ==> Rounds(n) > 0 && Pow2(Rounds(n) - 1) < n)
  {
    if n > 1 {
      RoundsAreCeilLog2((n + 1) / 2);
    }
  }

  lemma {:induction false} UnionsBuild(ids: seq<int>, env: map<int, Tree>, next: int, d: nat)
    requires ids != [] && Forest(ids, env, next, d) && Depth(env[ids[0]]) == d
    ensures Defined(Unions(ids, next), env)
    ensures var env' := Built(Unions(ids, next), env);
      && Top(ids, next) in env' && Leaves(env'[Top(ids, next)]) == AllLeaves(ids, env)
      && Depth(env'[Top(ids, next)]) == d + Rounds(|ids|)
      && Grown(env, env') && forall i :: i in env' ==> i < next + |ids| - 1
    decreases |ids|
  {
    if |ids| == 1 {
      assert AllLeaves(ids, env) == Leaves(env[ids[0]]) + [];
    } else {
      PairsBuild(ids, env, next, d);
      var env1 := Built(Pairs(ids, next), env);
      DeepestFirst(ids, env, next, d);
      hide Forest, Defined, Pairs, Level, AllLeaves, Grown;
      UnionsBuild(Level(ids, next), env1, next + |ids| / 2, d + 1);
      BuiltAppend(Pairs(ids, next), Unions(Level(ids, next), next + |ids| / 2), env);
      GrownTwice(env, env1, Built(Unions(Level(ids, next), next + |ids| / 2), env1));
    }
  }

  lemma GrownTwice(a: map<int, Tree>, b: map<int, Tree>, c: map<int, Tree>)
    requires Grown(a, b) && Grown(b, c)
    ensures Grown(a, c)
  {
  }

  /** The first pair is as deep as a round allows. */
  lemma DeepestFirst(ids: seq<int>, env: map<int, Tree>, next: int, d: nat)
    requires |ids| >= 2 && Forest(ids, env, next, d) && Depth(env[ids[0]]) == d && Defined(Pairs(ids, next), env)
    ensures var env' := Built(Pairs(ids, next), env);
      Level(ids, next) != [] && Level(ids, next)[0] in env' && Depth(env'[Level(ids, next)[0]]) == d + 1
  {
    FirstPair(ids, env, next, d);
    var pairs := Pairs(ids, next);
    assert pairs[1..] == Pairs(ids[2..], next + 1);
    PairsBuild(ids[2..], Apply(pairs[0], env), next + 1, d);
    assert Depth(env[ids[1]]) <= d;
  }

  // ---------- Each id is used once ----------

  function OperandsOf(e: Edit): seq<int> {
    if e.Union? then [e.left, e.right] else [e.source]
  }

  /** How often x is an operand, and how often it is made. */
  function Uses(edits: seq<Edit>, x: int): nat {
    if edits == [] then 0 else multiset(OperandsOf(edits[0]))[x] + Uses(edits[1..], x)
  }

  function Made(edits: seq<Edit>, x: int): nat {
    if edits == [] then 0 else (if edits[0].node == x then 1 else 0) + Made(edits[1..], x)
  }

  function Times(ids: seq<int>, x: int): nat {
    if ids == [] then 0 else (if ids[0] == x then 1 else 0) + Times(ids[1..], x)
  }

  lemma {:induction false} CountsAppend(a: seq<Edit>, b: seq<Edit>, x: int)
    ensures Uses(a + b, x) == Uses(a, x) + Uses(b, x) && Made(a + b, x) == Made(a, x) + Made(b, x)
  {
    if a == [] {
      assert a + b == b;
    } else {
      assert (a + b)[1..] == a[1..] + b;
      CountsAppend(a[1..], b, x);
    }
  }

  lemma {:induction false} PairsUse(ids: seq<int>, next: int, x: int)
    ensures Uses(Pairs(ids, next), x) + Times(Level(ids, next), x) == Times(ids, x) + Made(Pairs(ids, next), x)
    decreases |ids|
  {
    if |ids| >= 2 {
      PairsUse(ids[2..], next + 1, x);
      assert Pairs(ids, next)[1..] == Pairs(ids[2..], next + 1);
      assert Level(ids, next)[1..] == Level(ids[2..], next + 1);
      assert ids[1..][1..] == ids[2..];
    }
  }

  /** Made and given ids are used once each, but for the top. */
  lemma {:induction false} UnionsUse(ids: seq<int>, next: int, x: int)
    requires ids != []
    ensures Uses(Unions(ids, next), x) + (if Top(ids, next) == x then 1 else 0)
      == Times(ids, x) + Made(Unions(ids, next), x)
    decreases |ids|
  {
    if |ids| == 1 {
      assert ids[1..] == [];
    } else {
      var level, m := Level(ids, next), next + |ids| / 2;
      assert Unions(ids, next) == Pairs(ids, next) + Unions(level, m) && Top(ids, next) == Top(level, m);
      hide Level, Pairs, Unions, Top, Uses, Made, Times;
      PairsUse(ids, next, x);
      UnionsUse(level, m, x);
      CountsAppend(Pairs(ids, next), Unions(level, m), x);
    }
  }

  function LeafEnv(ids: seq<int>): map<int, Tree> {
    map i | i in ids :: Leaf(i)
  }

  lemma {:induction false} LeafEnvLeaves(ids: seq<int>, env: map<int, Tree>)
    requires forall k :: 0 <= k < |ids| ==> ids[k] in env && env[ids[k]] == Leaf(ids[k])
    ensures AllLeaves(ids, env) == ids
  {
    if ids != [] {
      LeafEnvLeaves(ids[1..], env);
    }
  }

  lemma LeafTreeIsBalanced(ids: seq<int>, next: int)
    requires ids != [] && forall k :: 0 <= k < |ids| ==> ids[k] < next
    ensures Defined(Unions(ids, next), LeafEnv(ids))
    ensures var built := Built(Unions(ids, next), LeafEnv(ids));
      && Top(ids, next) in built && Leaves(built[Top(ids, next)]) == ids
      && |ids| <= Pow2(Depth(built[Top(ids, next)]))
      && (|ids| > 1 ==> Depth(built[Top(ids, next)]) > 0 && Pow2(Depth(built[Top(ids, next)]) - 1) < |ids|)
  {
    hide Unions, Top, Pow2, Rounds, Built, Defined, AllLeaves, Leaves, Depth;
    LeafForest(ids, next);
    UnionsBuild(ids, LeafEnv(ids), next, 0);
    RoundsAreCeilLog2(|ids|);
  }

  lemma LeafForest(ids: seq<int>, next: int)
    requires ids != [] && forall k :: 0 <= k < |ids| ==> ids[k] < next
    ensures var env := LeafEnv(ids);
      Forest(ids, env, next, 0) && Depth(env[ids[0]]) == 0 && AllLeaves(ids, env) == ids
  {
    LeafEnvLeaves(ids, LeafEnv(ids));
  }

  /** n parts take n - 1 consecutive unions; all ids but the top are operands once; leaves keep their order
      at depth ceil(log2 n). */
  lemma TreeIsBalanced(ids: seq<int>, next: int)
    requires ids != [] && forall k :: 0 <= k < |ids| ==> ids[k] < next
    ensures |Unions(ids, next)| == |ids| - 1
    ensures forall k :: 0 <= k < |ids| - 1 ==> Unions(ids, next)[k].node == next + k
    ensures forall x ::
      Uses(Unions(ids, next), x) + (if Top(ids, next) == x then 1 else 0) == Times(ids, x) + Made(Unions(ids, next), x)
    ensures Defined(Unions(ids, next), LeafEnv(ids))
    ensures var built := Built(Unions(ids, next), LeafEnv(ids));
      && Top(ids, next) in built && Leaves(built[Top(ids, next)]) == ids
      && |ids| <= Pow2(Depth(built[Top(ids, next)]))
      && (|ids| > 1 ==> Depth(built[Top(ids, next)]) > 0 && Pow2(Depth(built[Top(ids, next)]) - 1) < |ids|)
  {
    forall k | 0 <= k < |ids| - 1 ensures Unions(ids, next)[k].node == next + k {
      UnionsNumbered(ids, next, k);
    }
    forall x ensures Uses(Unions(ids, next), x) + (if Top(ids, next) == x then 1 else 0)
      == Times(ids, x) + Made(Unions(ids, next), x) {
      UnionsUse(ids, next, x);
    }
    LeafTreeIsBalanced(ids, next);
  }

  // ---------- Rings ----------

  function Copies(base: int, source: int, angles: seq<real>): (r: seq<Edit>)
    ensures |r| == |angles|
    ensures forall k :: 0 <= k < |r| ==> r[k] == Rotate(base + 10 + k, source, angles[k])
  {
    seq(|angles|, k requires 0 <= k < |angles| => Rotate(base + 10 + k, source, angles[k]))
  }

  function CopyIds(base: int, n: nat): (r: seq<int>)
    ensures |r| == n && forall k :: 0 <= k < n ==> r[k] == base + 10 + k
  {
    seq(n, k => base + 10 + k)
  }

  function Ring(base: int, source: int, first: int, angles: seq<real>): seq<Edit>
    requires angles != []
  {
    var ids := CopyIds(base, |angles|);
    Copies(base, source, angles) + Unions(ids, base + 50) + [Union(base + 99, first, Top(ids, base + 50))]
  }

  /** Copies of one source at the given angles, joined in a tree, then to `first`; None without a copy. */
  method RingUnion(base: int, source: int, first: int, angles: seq<real>) returns (r: Option<(seq<Edit>, int)>)
    ensures r == if angles == [] then None else Some((Ring(base, source, first, angles), base + 99))
    ensures r.Some? ==> |r.value.0| == 2 * |angles|
    ensures r.Some? ==> forall k :: 0 <= k < |angles| ==> r.value.0[k] == Rotate(base + 10 + k, source, angles[k])
  {
    var edits: seq<Edit>, ids: seq<int> := [], [];
    for k := 0 to |angles|
      invariant edits == Copies(base, source, angles)[..k] && ids == CopyIds(base, |angles|)[..k]
    {
      edits := edits + [Rotate(base + 10 + k, source, angles[k])];
      ids := ids + [base + 10 + k];
    }
    assert edits == Copies(base, source, angles) && ids == CopyIds(base, |angles|);
    var joined := UnionAll(ids, base + 50);
    if joined.None? {
      return None;
    }
    return Some((edits + joined.value.0 + [Union(base + 99, first, joined.value.1)], base + 99));
  }

  ghost predicate NodesDistinct(edits: seq<Edit>) {
    forall i, j :: 0 <= i < j < |edits| ==> edits[i].node != edits[j].node
  }

  lemma RingNode(base: int, source: int, first: int, angles: seq<real>, i: nat)
    requires angles != [] && i < |Ring(base, source, first, angles)|
    ensures var n := |angles|;
      |Ring(base, source, first, angles)| == 2 * n
      && Ring(base, source, first, angles)[i].node
         == if i < n then base + 10 + i else if i < 2 * n - 1 then base + 50 + i - n else base + 99
  {
    var n := |angles|;
    if n <= i < 2 * n - 1 {
      UnionsNumbered(CopyIds(base, n), base + 50, i - n);
    }
  }

  /** The numbering of a ring holds for up to forty copies and no more: the forty-first copy takes the first
      union's number. */
  lemma RingNumbersIff(base: int, source: int, first: int, angles: seq<real>)
    requires angles != []
    ensures NodesDistinct(Ring(base, source, first, angles)) <==> |angles| <= 40
  {
    var ring, n := Ring(base, source, first, angles), |angles|;
    assert |ring| == 2 * n;
    forall i | 0 <= i < |ring|
      ensures ring[i].node == if i < n then base + 10 + i else if i < 2 * n - 1 then base + 50 + i - n else base + 99
    {
      RingNode(base, source, first, angles, i);
    }
    if n > 40 {
      assert ring[40].node == ring[n].node;
    }
  }

  lemma {:induction false} CopiesBuild(base: int, source: int, angles: seq<real>, env: map<int, Tree>, k: nat)
    requires k <= |angles| && source in env && source < base + 10
    requires forall i :: i in env ==> i < base + 10 + k
    ensures var rest := Copies(base, source, angles)[k..];
      && Defined(rest, env)
      && (forall i :: i in Built(rest, env) <==> i in env || base + 10 + k <= i < base + 10 + |angles|)
      && (forall i :: i in env ==> Built(rest, env)[i] == env[i])
      && forall i :: base + 10 + k <= i < base + 10 + |angles| ==> Built(rest, env)[i] == Leaf(i)
    decreases |angles| - k
  {
    var rest := Copies(base, source, angles)[k..];
    if k < |angles| {
      assert rest[1..] == Copies(base, source, angles)[k + 1..];
      CopiesBuild(base, source, angles, Apply(rest[0], env), k + 1);
    }
  }

  /** Up to forty copies: the ring is `first` joined to all copies, in order, in a balanced tree. */
  lemma RingBuilds(base: int, source: int, first: int, angles: seq<real>, env: map<int, Tree>)
    requires 1 <= |angles| <= 40 && source in env && first in env && forall i :: i in env ==> i < base + 10
    ensures Defined(Ring(base, source, first, angles), env)
    ensures var built := Built(Ring(base, source, first, angles), env);
      base + 99 in built && built[base + 99].Fork? && built[base + 99].left == env[first]
      && Leaves(built[base + 99].right) == CopyIds(base, |angles|) && Depth(built[base + 99].right) == Rounds(|angles|)
  {
    var copies, ids := Copies(base, source, angles), CopyIds(base, |angles|);
    CopiesBuild(base, source, angles, env, 0);
    assert copies[0..] == copies;
    var env1 := Built(copies, env);
    LeafEnvLeaves(ids, env1);
    UnionsBuild(ids, env1, base + 50, 0);
    var unions, top := Unions(ids, base + 50), Top(ids, base + 50);
    BuiltAppend(copies, unions, env);
    var env2 := Built(unions, env1);
    var last := [Union(base + 99, first, top)];
    assert Defined(last, env2) && Built(last, env2) == Apply(last[0], env2) by {
      assert last[1..] == [];
    }
    BuiltAppend(copies + unions, last, env);
  }
}
