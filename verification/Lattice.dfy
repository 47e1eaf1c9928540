/**
 Join-semilattices of `algebra/src/lib.rs`, as a join operation with a carrier on which its laws hold,
 and the least upper bounds that folds of joins compute.
 */
module Lattice {

  ghost predicate Commutes<T(!new)>(join: (T, T) -> T, c: iset<T>, a: T, b: T) {
    join(a, b) in c && join(a, b) == join(b, a)
  }

  predicate Associates<T(==)>(join: (T, T) -> T, a: T, b: T, d: T) {
    join(join(a, b), d) == join(a, join(b, d))
  }

  /** The laws of `JoinSemilattice`, on the elements of `c`: closed, commutative, associative, idempotent. */
  ghost predicate Semilattice<T(!new)>(join: (T, T) -> T, c: iset<T>) {
    && (forall a, b {:trigger Commutes(join, c, a, b)} | a in c && b in c :: Commutes(join, c, a, b))
    && (forall a, b, d {:trigger Associates(join, a, b, d)} | a in c && b in c && d in c :: Associates(join, a, b, d))
    && (forall a {:trigger Leq(join, a, a)} | a in c :: Leq(join, a, a))
  }

  /** `leq`: the derived order. */
  predicate Leq<T(==)>(join: (T, T) -> T, a: T, b: T) {
    join(a, b) == b
  }

  ghost predicate UpperBound<T(!new)>(join: (T, T) -> T, s: iset<T>, v: T) {
    forall x | x in s :: Leq(join, x, v)
  }

  /** `v` is the least upper bound of `s` among the elements of `c`. */
  ghost predicate Lub<T(!new)>(join: (T, T) -> T, c: iset<T>, s: iset<T>, v: T) {
    && v in c && UpperBound(join, s, v)
    && forall u | u in c && UpperBound(join, s, u) :: Leq(join, v, u)
  }

  lemma LubUnique<T(!new)>(join: (T, T) -> T, c: iset<T>, s: iset<T>, v: T, w: T)
    requires Semilattice(join, c) && Lub(join, c, s, v) && Lub(join, c, s, w)
    ensures v == w
  {
    assert Leq(join, v, w) && Leq(join, w, v) && Commutes(join, c, v, w);
  }

  lemma LeqTransitive<T(!new)>(join: (T, T) -> T, c: iset<T>, a: T, b: T, d: T)
    requires Semilattice(join, c) && a in c && b in c && d in c && Leq(join, a, b) && Leq(join, b, d)
    ensures Leq(join, a, d)
  {
    assert Associates(join, a, b, d);
  }

  /** `join` computes the least upper bound of its two arguments. */
  lemma JoinIsLub<T(!new)>(join: (T, T) -> T, c: iset<T>, a: T, b: T)
    requires Semilattice(join, c) && a in c && b in c
    ensures Lub(join, c, iset{a, b}, join(a, b))
  {
    var v := join(a, b);
    assert Commutes(join, c, a, b) && Leq(join, a, a) && Leq(join, b, b);
    assert Leq(join, a, v) by { assert Associates(join, a, a, b); }
    assert Leq(join, b, v) by { assert Associates(join, b, b, a); }
    forall u | u in c && UpperBound(join, iset{a, b}, u) ensures Leq(join, v, u) {
      assert Leq(join, a, u) && Leq(join, b, u);
      assert Associates(join, a, b, u);
    }
  }

  /** Joining the bounds of two sets bounds their union. */
  lemma JoinOfLubs<T(!new)>(join: (T, T) -> T, c: iset<T>, s: iset<T>, v: T, s': iset<T>, v': T)
    requires Semilattice(join, c) && s <= c && s' <= c && Lub(join, c, s, v) && Lub(join, c, s', v')
    ensures Lub(join, c, s + s', join(v, v'))
  {
    var w := join(v, v');
    JoinIsLub(join, c, v, v');
    assert Commutes(join, c, v, v');
    assert v in iset{v, v'} && v' in iset{v, v'};
    forall x | x in s + s' ensures Leq(join, x, w) {
      if x in s { LeqTransitive(join, c, x, v, w); } else { LeqTransitive(join, c, x, v', w); }
    }
    forall u | u in c && UpperBound(join, s + s', u) ensures Leq(join, w, u) {
      assert UpperBound(join, s, u) && UpperBound(join, s', u);
      assert UpperBound(join, iset{v, v'}, u);
    }
  }

  ghost function ElementsOf<T(!new)>(xs: seq<T>): iset<T> {
    iset x | x in xs
  }

  /** The left fold of `join`: `accumulate` run over a sequence of updates, and `join_all` from its head. */
  function Fold<T>(join: (T, T) -> T, acc: T, xs: seq<T>): T {
    if xs == [] then acc else join(Fold(join, acc, xs[..|xs| - 1]), xs[|xs| - 1])
  }

  /** `JoinSemilattice::join_all`, for a non-empty iterator. */
  function JoinAll<T>(join: (T, T) -> T, xs: seq<T>): T
    requires xs != []
  {
    Fold(join, xs[0], xs[1..])
  }

  lemma {:induction false} FoldIsLub<T(!new)>(join: (T, T) -> T, c: iset<T>, acc: T, xs: seq<T>)
    requires Semilattice(join, c) && acc in c && ElementsOf(xs) <= c
    ensures Lub(join, c, iset{acc} + ElementsOf(xs), Fold(join, acc, xs))
  {
    if xs == [] {
      assert iset{acc} + ElementsOf(xs) == iset{acc};
      assert Leq(join, acc, acc);
    } else {
      var init, last := xs[..|xs| - 1], xs[|xs| - 1];
      assert xs == init + [last];
      FoldIsLub(join, c, acc, init);
      assert last in xs && Leq(join, last, last);
      assert forall x | x in init :: x in xs;
      assert Lub(join, c, iset{last}, last);
      JoinOfLubs(join, c, iset{acc} + ElementsOf(init), Fold(join, acc, init), iset{last}, last);
      assert iset{acc} + ElementsOf(init) + iset{last} == iset{acc} + ElementsOf(xs);
    }
  }

  /** `join_all` is the least upper bound of its elements, whatever their order and multiplicity. */
  lemma JoinAllIsLub<T(!new)>(join: (T, T) -> T, c: iset<T>, xs: seq<T>)
    requires Semilattice(join, c) && xs != [] && ElementsOf(xs) <= c
    ensures Lub(join, c, ElementsOf(xs), JoinAll(join, xs))
  {
    assert xs == [xs[0]] + xs[1..];
    FoldIsLub(join, c, xs[0], xs[1..]);
    assert iset{xs[0]} + ElementsOf(xs[1..]) == ElementsOf(xs);
  }

  /** `join_all_from_bottom` agrees with `join_all` exactly because bottom is below everything. */
  lemma JoinAllFromBottom<T(!new)>(join: (T, T) -> T, c: iset<T>, bottom: T, xs: seq<T>)
    requires Semilattice(join, c) && bottom in c && xs != [] && ElementsOf(xs) <= c
    requires forall x | x in c :: join(bottom, x) == x
    ensures Fold(join, bottom, xs) == JoinAll(join, xs)
  {
    FoldIsLub(join, c, bottom, xs);
    JoinAllIsLub(join, c, xs);
    var v := JoinAll(join, xs);
    assert Leq(join, bottom, v);
    assert Lub(join, c, iset{bottom} + ElementsOf(xs), v) by {
      forall u | u in c && UpperBound(join, iset{bottom} + ElementsOf(xs), u) ensures Leq(join, v, u) {
        assert UpperBound(join, ElementsOf(xs), u);
      }
    }
    LubUnique(join, c, iset{bottom} + ElementsOf(xs), Fold(join, bottom, xs), v);
  }
}
