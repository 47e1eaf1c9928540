/**
 `reduce_updates` and the accumulators of `hyperactor/src/accum.rs`: coalescing updates in any tree of
 batches, in any order and with duplicates, agrees with accumulating them one by one.
 */
module Reduction {
  import opened Options
  import opened Lattice

  /** The result of `reduce_updates`: the reduced update, or the updates handed back. */
  type Reduced<T> = Result<T, seq<T>>

  /** `try_fold` of a fallible reducer. */
  function TryFold<T>(reduce: (T, T) -> Option<T>, acc: T, xs: seq<T>): Option<T> {
    if xs == [] then Some(acc)
    else
      match TryFold(reduce, acc, xs[..|xs| - 1])
      case None => None
      case Some(v) => reduce(v, xs[|xs| - 1])
  }

  lemma {:induction false} TryFoldFails<T>(reduce: (T, T) -> Option<T>, acc: T, xs: seq<T>, n: nat)
    requires n <= |xs| && TryFold(reduce, acc, xs[..n]).None?
    ensures TryFold(reduce, acc, xs).None?
    decreases |xs| - n
  {
    if n == |xs| {
      assert xs[..n] == xs;
    } else {
      assert xs[..n + 1][..n] == xs[..n];
      TryFoldFails(reduce, acc, xs, n + 1);
    }
  }

  /** The reduction of a batch: nothing for an empty batch, or when a step fails. */
  function ReduceBatch<T>(reduce: (T, T) -> Option<T>, updates: seq<T>): Option<T> {
    if updates == [] then None else TryFold(reduce, updates[0], updates[1..])
  }

  /** `ErasedCommReducer::reduce_updates`: a batch that cannot be reduced is handed back unchanged. */
  method ReduceUpdates<T>(reduce: (T, T) -> Option<T>, updates: seq<T>) returns (r: Reduced<T>)
    ensures r == match ReduceBatch(reduce, updates) case Some(v) => Ok(v) case None => Err(updates)
  {
    if updates == [] {
      return Err(updates);
    }
    var acc, rest := updates[0], updates[1..];
    for index := 0 to |rest|
      invariant TryFold(reduce, updates[0], rest[..index]) == Some(acc)
    {
      assert rest[..index + 1][..index] == rest[..index];
      var next := reduce(acc, rest[index]);
      if next.None? {
        TryFoldFails(reduce, updates[0], rest, index + 1);
        return Err(updates);
      }
      acc := next.value;
    }
    assert rest[..|rest|] == rest;
    return Ok(acc);
  }

  function Concat<T>(xs: seq<seq<T>>): seq<T> {
    if xs == [] then [] else Concat(xs[..|xs| - 1]) + xs[|xs| - 1]
  }

  lemma {:induction false} FoldConcatenates<T>(acc: seq<T>, xs: seq<seq<T>>)
    ensures TryFold((a: seq<T>, b: seq<T>) => Some(a + b), acc, xs) == Some(acc + Concat(xs))
  {
    if xs == [] {
      assert acc + [] == acc;
    } else {
      FoldConcatenates(acc, xs[..|xs| - 1]);
      assert acc + Concat(xs[..|xs| - 1]) + xs[|xs| - 1] == acc + Concat(xs);
    }
  }

  lemma {:induction false} ConcatHead<T>(xs: seq<seq<T>>)
    requires xs != []
    ensures Concat(xs) == xs[0] + Concat(xs[1..])
  {
    if |xs| > 1 {
      ConcatHead(xs[..|xs| - 1]);
      assert xs[..|xs| - 1][1..] == xs[1..][..|xs| - 2];
    }
  }

  /** Updates are combined in their order, earlier ones on the left: a reducer that concatenates keeps the order. */
  lemma ReduceKeepsOrder<T>(updates: seq<seq<T>>)
    requires updates != []
    ensures ReduceBatch((a: seq<T>, b: seq<T>) => Some(a + b), updates) == Some(Concat(updates))
  {
    FoldConcatenates(updates[0], updates[1..]);
    ConcatHead(updates);
  }

  // ---------------------------------------------------------------------------------------------
  // Reduction trees
  // ---------------------------------------------------------------------------------------------

  /** Updates as they reach the accumulator: one update, or a batch reduced by a split port on the way. */
  datatype Tree<T> = Leaf(update: T) | Batch(trees: seq<Tree<T>>)

  /** No batch is empty: `reduce_updates` refuses an empty vector. */
  predicate WellFormed<T>(t: Tree<T>) {
    match t
    case Leaf(_) => true
    case Batch(ts) => ts != [] && forall i | 0 <= i < |ts| :: WellFormed(ts[i])
  }

  /** What reaches the accumulator when every batch goes through `reduce_updates`. */
  function ReduceTree<T>(reduce: (T, T) -> Option<T>, t: Tree<T>): Option<T>
    decreases t, 0
  {
    match t
    case Leaf(u) => Some(u)
    case Batch(ts) =>
      match ReduceTrees(reduce, ts)
      case None => None
      case Some(us) => ReduceBatch(reduce, us)
  }

  function ReduceTrees<T>(reduce: (T, T) -> Option<T>, ts: seq<Tree<T>>): (r: Option<seq<T>>)
    ensures r.Some? ==> |r.value| == |ts|
    decreases ts, 1
  {
    if ts == [] then Some([])
    else
      match (ReduceTrees(reduce, ts[..|ts| - 1]), ReduceTree(reduce, ts[|ts| - 1]))
      case (Some(us), Some(u)) => Some(us + [u])
      case _ => None
  }

  /** All updates of a tree, left to right. */
  function Leaves<T>(t: Tree<T>): seq<T>
    decreases t, 0
  {
    match t
    case Leaf(u) => [u]
    case Batch(ts) => LeavesOf(ts)
  }

  function LeavesOf<T>(ts: seq<Tree<T>>): seq<T>
    decreases ts, 1
  {
    if ts == [] then [] else LeavesOf(ts[..|ts| - 1]) + Leaves(ts[|ts| - 1])
  }

  // ---------------------------------------------------------------------------------------------
  // Lattice reducers
  // ---------------------------------------------------------------------------------------------

  /** `SemilatticeReducer`. */
  function LatticeReducer<T>(join: (T, T) -> T): (T, T) -> Option<T> {
    (a, b) => Some(join(a, b))
  }

  function Reduce<T>(join: (T, T) -> T, t: Tree<T>): T
    requires WellFormed(t)
    decreases t, 0
  {
    match t
    case Leaf(u) => u
    case Batch(ts) => JoinAll(join, ReduceEach(join, ts))
  }

  function ReduceEach<T>(join: (T, T) -> T, ts: seq<Tree<T>>): (us: seq<T>)
    requires forall i | 0 <= i < |ts| :: WellFormed(ts[i])
    ensures |us| == |ts|
    decreases ts, 1
  {
    if ts == [] then [] else ReduceEach(join, ts[..|ts| - 1]) + [Reduce(join, ts[|ts| - 1])]
  }

  lemma {:induction false} LatticeReducerIsFold<T>(join: (T, T) -> T, acc: T, xs: seq<T>)
    ensures TryFold(LatticeReducer(join), acc, xs) == Some(Fold(join, acc, xs))
  {
    if xs != [] { LatticeReducerIsFold(join, acc, xs[..|xs| - 1]); }
  }

  /**
   `reduce_updates` with a lattice reducer never fails on a well-formed tree, and computes `join_all` of every batch.
   */
  lemma {:induction false} LatticeTreeReduces<T>(join: (T, T) -> T, t: Tree<T>)
    requires WellFormed(t)
    ensures ReduceTree(LatticeReducer(join), t) == Some(Reduce(join, t))
    decreases t, 0
  {
    if t.Batch? {
      LatticeTreesReduce(join, t.trees);
      var us := ReduceEach(join, t.trees);
      LatticeReducerIsFold(join, us[0], us[1..]);
    }
  }

  lemma {:induction false} LatticeTreesReduce<T>(join: (T, T) -> T, ts: seq<Tree<T>>)
    requires forall i | 0 <= i < |ts| :: WellFormed(ts[i])
    ensures ReduceTrees(LatticeReducer(join), ts) == Some(ReduceEach(join, ts))
    decreases ts, 1
  {
    if ts != [] {
      LatticeTreesReduce(join, ts[..|ts| - 1]);
      LatticeTreeReduces(join, ts[|ts| - 1]);
    }
  }

  /** A reduced tree is the least upper bound of its leaves. */
  lemma {:induction false} ReduceIsLub<T(!new)>(join: (T, T) -> T, c: iset<T>, t: Tree<T>)
    requires Semilattice(join, c) && WellFormed(t) && ElementsOf(Leaves(t)) <= c
    ensures Lub(join, c, ElementsOf(Leaves(t)), Reduce(join, t))
    decreases t, 0
  {
    match t
    case Leaf(u) =>
      assert u in Leaves(t) && Leq(join, u, u);
    case Batch(ts) =>
      EachIsLub(join, c, ts);
      var us := ReduceEach(join, ts);
      JoinAllIsLub(join, c, us);
      LubOfEach(join, c, ts, JoinAll(join, us));
  }

  lemma {:induction false} LeavesOfEach<T(!new)>(ts: seq<Tree<T>>)
    ensures forall i | 0 <= i < |ts| :: ElementsOf(Leaves(ts[i])) <= ElementsOf(LeavesOf(ts))
    ensures forall x | x in LeavesOf(ts) :: exists i | 0 <= i < |ts| :: x in Leaves(ts[i])
  {
    if ts != [] {
      var init, last := ts[..|ts| - 1], ts[|ts| - 1];
      assert forall x :: x in LeavesOf(ts) <==> x in LeavesOf(init) || x in Leaves(last);
      LeavesOfEach(init);
      forall x | x in LeavesOf(ts) ensures exists i | 0 <= i < |ts| :: x in Leaves(ts[i]) {
        if x in LeavesOf(init) {
          var i :| 0 <= i < |init| && x in Leaves(init[i]);
          assert ts[i] == init[i];
        }
      }
      forall i | 0 <= i < |ts| ensures ElementsOf(Leaves(ts[i])) <= ElementsOf(LeavesOf(ts)) {
        if i < |init| { assert ts[i] == init[i]; }
      }
    }
  }

  lemma {:induction false} EachAt<T(!new)>(join: (T, T) -> T, c: iset<T>, ts: seq<Tree<T>>, i: nat)
    requires Semilattice(join, c) && (forall k | 0 <= k < |ts| :: WellFormed(ts[k])) && ElementsOf(LeavesOf(ts)) <= c
    requires i < |ts|
    ensures Lub(join, c, ElementsOf(Leaves(ts[i])), ReduceEach(join, ts)[i])
    decreases ts, 1
  {
    var init, last := ts[..|ts| - 1], ts[|ts| - 1];
    assert LeavesOf(ts) == LeavesOf(init) + Leaves(last);
    if i < |init| {
      assert ElementsOf(LeavesOf(init)) <= ElementsOf(LeavesOf(ts));
      EachAt(join, c, init, i);
      assert ts[i] == init[i];
    } else {
      assert ElementsOf(Leaves(last)) <= ElementsOf(LeavesOf(ts));
      ReduceIsLub(join, c, last);
    }
  }

  lemma EachIsLub<T(!new)>(join: (T, T) -> T, c: iset<T>, ts: seq<Tree<T>>)
    requires Semilattice(join, c) && (forall i | 0 <= i < |ts| :: WellFormed(ts[i])) && ElementsOf(LeavesOf(ts)) <= c
    ensures ElementsOf(ReduceEach(join, ts)) <= c
    ensures forall i | 0 <= i < |ts| :: Lub(join, c, ElementsOf(Leaves(ts[i])), ReduceEach(join, ts)[i])
    decreases ts, 2
  {
    forall i | 0 <= i < |ts|
      ensures Lub(join, c, ElementsOf(Leaves(ts[i])), ReduceEach(join, ts)[i])
    {
      EachAt(join, c, ts, i);
    }
  }

  /** A bound of the reduced batches is a bound of all their leaves, and the least one carries over. */
  lemma LubOfEach<T(!new)>(join: (T, T) -> T, c: iset<T>, ts: seq<Tree<T>>, v: T)
    requires Semilattice(join, c) && (forall i | 0 <= i < |ts| :: WellFormed(ts[i])) && ElementsOf(LeavesOf(ts)) <= c
    requires Lub(join, c, ElementsOf(ReduceEach(join, ts)), v)
    ensures Lub(join, c, ElementsOf(LeavesOf(ts)), v)
  {
    var us := ReduceEach(join, ts);
    EachIsLub(join, c, ts);
    LeavesOfEach(ts);
    forall x | x in LeavesOf(ts) ensures Leq(join, x, v) {
      var i :| 0 <= i < |ts| && x in Leaves(ts[i]);
      assert us[i] in us;
      LeqTransitive(join, c, x, us[i], v);
    }
    forall u | u in c && UpperBound(join, ElementsOf(LeavesOf(ts)), u) ensures Leq(join, v, u) {
      forall y | y in us ensures Leq(join, y, u) {
        var i :| 0 <= i < |us| && us[i] == y;
        assert UpperBound(join, ElementsOf(Leaves(ts[i])), u);
      }
      assert UpperBound(join, ElementsOf(us), u);
    }
  }

  /**
   For any lattice reducer: passing updates through `reduce_updates` in batches, however nested, ordered and
   duplicated, never fails, and accumulating what comes out gives the state of accumulating the same set of
   updates one by one.
   */
  lemma ReductionRefinesAccumulation<T(!new)>(join: (T, T) -> T, c: iset<T>, state: T, ts: seq<Tree<T>>,
                                              updates: seq<T>)
    requires Semilattice(join, c) && state in c && (forall i | 0 <= i < |ts| :: WellFormed(ts[i]))
    requires ElementsOf(updates) <= c && ElementsOf(LeavesOf(ts)) == ElementsOf(updates)
    ensures var us := ReduceTrees(LatticeReducer(join), ts);
            us.Some? && Fold(join, state, us.value) == Fold(join, state, updates)
  {
    LatticeTreesReduce(join, ts);
    JoinedBatchesAccumulate(join, c, state, ts, updates);
  }

  lemma JoinedBatchesAccumulate<T(!new)>(join: (T, T) -> T, c: iset<T>, state: T, ts: seq<Tree<T>>, updates: seq<T>)
    requires Semilattice(join, c) && state in c && (forall i | 0 <= i < |ts| :: WellFormed(ts[i]))
    requires ElementsOf(updates) <= c && ElementsOf(LeavesOf(ts)) == ElementsOf(updates)
    ensures Fold(join, state, ReduceEach(join, ts)) == Fold(join, state, updates)
  {
    var us := ReduceEach(join, ts);
    EachIsLub(join, c, ts);
    LeavesOfEach(ts);
    FoldIsLub(join, c, state, us);
    FoldIsLub(join, c, state, updates);
    var v, s := Fold(join, state, us), iset{state} + ElementsOf(updates);
    assert Lub(join, c, s, v) by {
      assert Leq(join, state, v);
      forall x | x in updates ensures Leq(join, x, v) {
        assert x in ElementsOf(LeavesOf(ts));
        var i :| 0 <= i < |ts| && x in Leaves(ts[i]);
        assert us[i] in us;
        LeqTransitive(join, c, x, us[i], v);
      }
      forall u | u in c && UpperBound(join, s, u) ensures Leq(join, v, u) {
        forall y | y in us ensures Leq(join, y, u) {
          var i :| 0 <= i < |us| && us[i] == y;
          assert UpperBound(join, ElementsOf(Leaves(ts[i])), u);
        }
        assert UpperBound(join, iset{state} + ElementsOf(us), u);
      }
    }
    LubUnique(join, c, s, v, Fold(join, state, updates));
  }

  // ---------------------------------------------------------------------------------------------
  // Sums: order and grouping only
  // ---------------------------------------------------------------------------------------------

  const U64_MAX: nat := 0xFFFF_FFFF_FFFF_FFFF

  /** `left + right` on u64, `None` where it overflows. */
  function AddU64(a: nat, b: nat): Option<nat> {
    if a + b <= U64_MAX then Some(a + b) else None
  }

  /** `SumReducer` over u64, through any tree of batches. */
  function SumTree(t: Tree<nat>): Option<nat> {
    ReduceTree(AddU64, t)
  }

  function Total(xs: seq<nat>): nat {
    if xs == [] then 0 else Total(xs[..|xs| - 1]) + xs[|xs| - 1]
  }

  lemma {:induction false} TotalConcat(a: seq<nat>, b: seq<nat>)
    ensures Total(a + b) == Total(a) + Total(b)
  {
    if b == [] {
      assert a + b == a;
    } else {
      assert (a + b)[..|a + b| - 1] == a + b[..|b| - 1];
      TotalConcat(a, b[..|b| - 1]);
    }
  }

  lemma TotalHead(xs: seq<nat>)
    requires xs != []
    ensures Total(xs) == xs[0] + Total(xs[1..])
  {
    assert xs == [xs[0]] + xs[1..];
    TotalConcat([xs[0]], xs[1..]);
    assert Total([xs[0]]) == xs[0];
  }

  /** A left fold of checked additions succeeds exactly when the total fits. */
  lemma {:induction false} SumFold(acc: nat, xs: seq<nat>)
    requires acc <= U64_MAX
    ensures TryFold(AddU64, acc, xs) == if acc + Total(xs) <= U64_MAX then Some(acc + Total(xs)) else None
  {
    if xs != [] { SumFold(acc, xs[..|xs| - 1]); }
  }

  ghost predicate AllU64(xs: seq<nat>) {
    forall x | x in xs :: x <= U64_MAX
  }

  /** No intermediate addition of any tree overflows unless the total does, and the result is the total. */
  lemma {:induction false} SumTreeIsTotal(t: Tree<nat>)
    requires WellFormed(t) && AllU64(Leaves(t))
    ensures SumTree(t) == if Total(Leaves(t)) <= U64_MAX then Some(Total(Leaves(t))) else None
    decreases t, 0
  {
    match t
    case Leaf(u) =>
      assert u in Leaves(t) && Total([u]) == u;
    case Batch(ts) =>
      SumEachIsTotal(ts);
      var us := ReduceTrees(AddU64, ts);
      if us.Some? { SumBatch(us.value); }
  }

  lemma SumBatch(us: seq<nat>)
    requires us != [] && AllU64(us)
    ensures ReduceBatch(AddU64, us) == if Total(us) <= U64_MAX then Some(Total(us)) else None
  {
    assert us[0] in us;
    SumFold(us[0], us[1..]);
    TotalHead(us);
  }

  lemma {:induction false} SumEachIsTotal(ts: seq<Tree<nat>>)
    requires (forall i | 0 <= i < |ts| :: WellFormed(ts[i])) && AllU64(LeavesOf(ts))
    ensures ReduceTrees(AddU64, ts).None? ==> Total(LeavesOf(ts)) > U64_MAX
    ensures ReduceTrees(AddU64, ts).Some? ==>
            Total(ReduceTrees(AddU64, ts).value) == Total(LeavesOf(ts)) && AllU64(ReduceTrees(AddU64, ts).value)
    decreases ts, 1
  {
    if ts != [] {
      var init, last := ts[..|ts| - 1], ts[|ts| - 1];
      assert forall x :: x in LeavesOf(ts) <==> x in LeavesOf(init) || x in Leaves(last);
      SumEachIsTotal(init);
      SumTreeIsTotal(last);
      TotalConcat(LeavesOf(init), Leaves(last));
      if ReduceTrees(AddU64, ts).Some? {
        TotalConcat(ReduceTrees(AddU64, init).value, [SumTree(last).value]);
        assert Total([SumTree(last).value]) == SumTree(last).value;
      }
    }
  }

  /** Taking out one element takes it out of the total and out of the multiset. */
  lemma {:induction false} TotalWithout(b: seq<nat>, i: nat)
    requires i < |b|
    ensures Total(b) == Total(b[..i] + b[i + 1..]) + b[i]
    ensures multiset(b) == multiset(b[..i] + b[i + 1..]) + multiset{b[i]}
  {
    var n := |b| - 1;
    var init, rest := b[..n], b[..i] + b[i + 1..];
    assert b == init + [b[n]];
    if i == n {
      assert rest == init;
    } else {
      TotalWithout(init, i);
      assert rest[..n - 1] == init[..i] + init[i + 1..];
      assert rest == rest[..n - 1] + [b[n]];
    }
  }

  lemma {:induction false} TotalPermutes(a: seq<nat>, b: seq<nat>)
    requires multiset(a) == multiset(b)
    ensures Total(a) == Total(b)
  {
    if a == [] {
      assert |multiset(b)| == 0;
    } else {
      var last, n := a[|a| - 1], |a| - 1;
      assert last in multiset(b);
      var i :| 0 <= i < |b| && b[i] == last;
      var b' := b[..i] + b[i + 1..];
      TotalWithout(b, i);
      assert a == a[..n] + [last];
      SameWithout(multiset(a[..n]), multiset(b'), multiset(a), last);
      TotalPermutes(a[..n], b');
    }
  }

  lemma SameWithout<T>(a: multiset<T>, b: multiset<T>, all: multiset<T>, x: T)
    requires all == a + multiset{x} && all == b + multiset{x}
    ensures a == b
  {
    assert a == all - multiset{x} && b == all - multiset{x};
  }

  /** Two groupings and orders of the same updates give the same sum, or both overflow. */
  lemma SumIgnoresOrderAndGrouping(t: Tree<nat>, t': Tree<nat>)
    requires WellFormed(t) && WellFormed(t') && AllU64(Leaves(t))
    requires multiset(Leaves(t)) == multiset(Leaves(t'))
    ensures SumTree(t) == SumTree(t')
  {
    forall x | x in Leaves(t') ensures x <= U64_MAX { assert x in multiset(Leaves(t')); assert x in Leaves(t); }
    SumTreeIsTotal(t);
    SumTreeIsTotal(t');
    TotalPermutes(Leaves(t), Leaves(t'));
  }

  /** A duplicate is counted twice or overflows, so sums are no lattice. */
  lemma SumCountsDuplicates(u: nat)
    requires 0 < u <= U64_MAX
    ensures SumTree(Batch([Leaf(u), Leaf(u)])) != SumTree(Leaf(u))
  {
    var t := Batch([Leaf(u), Leaf(u)]);
    var ts := [Leaf(u), Leaf(u)];
    var one := [Leaf(u)];
    assert ts[..1] == one && one[..0] == [];
    assert LeavesOf(one) == LeavesOf([]) + [u] == [u];
    assert Leaves(t) == LeavesOf(ts) == LeavesOf(one) + [u] == [u, u];
    SumTreeIsTotal(t);
    assert [u, u][..1] == [u] && Total([u]) == u;
  }
}
