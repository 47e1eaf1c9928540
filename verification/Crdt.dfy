/**
 Concrete lattices of `algebra/src/join_semilattice.rs` and `algebra/src/crdt.rs`: `Max`, `Min`,
 `LatticeMap`, and the last-writer-wins register with the exact conditions under which its laws hold.
 */
module Crdt {
  import opened Lattice

  // ---------------------------------------------------------------------------------------------
  // Max and Min
  // ---------------------------------------------------------------------------------------------

  function MaxJoin(a: int, b: int): int {
    if a >= b then a else b
  }

  function MinJoin(a: int, b: int): int {
    if a <= b then a else b
  }

  ghost const Ints: iset<int> := iset x: int | true

  lemma MaxMinSemilattices()
    ensures Semilattice(MaxJoin, Ints) && Semilattice(MinJoin, Ints)
    ensures forall a, b :: (Leq(MaxJoin, a, b) <==> a <= b) && (Leq(MinJoin, a, b) <==> a >= b)
  {
  }

  // ---------------------------------------------------------------------------------------------
  // LatticeMap
  // ---------------------------------------------------------------------------------------------

  /** Keys united, values of shared keys joined. */
  function MapJoin<K, V>(join: (V, V) -> V, a: map<K, V>, b: map<K, V>): map<K, V> {
    map k | k in a.Keys + b.Keys ::
      if k in a && k in b then join(a[k], b[k]) else if k in a then a[k] else b[k]
  }

  /** Merging one more entry of the right-hand map. */
  lemma MergeEntry<K, V>(join: (V, V) -> V, a: map<K, V>, b: map<K, V>, k: K, v: V)
    requires k !in b
    ensures var m := MapJoin(join, a, b);
            (k in m <==> k in a) && MapJoin(join, a, b[k := v]) == m[k := if k in m then join(m[k], v) else v]
  {
  }

  /** `LatticeMap::join`: clone `self`, then merge `other` entry by entry in whatever order it is iterated. */
  method LatticeMapJoin<K(==), V>(join: (V, V) -> V, self: map<K, V>, other: map<K, V>) returns (out: map<K, V>)
    ensures out == MapJoin(join, self, other)
    ensures out.Keys == self.Keys + other.Keys
    ensures forall k | k in self :: out[k] == if k in other then join(self[k], other[k]) else self[k]
    ensures forall k | k in other && k !in self :: out[k] == other[k]
  {
    out := self;
    var rest := other;
    ghost var merged: map<K, V> := map[];
    while rest != map[]
      invariant rest.Keys !! merged.Keys && rest + merged == other
      invariant out == MapJoin(join, self, merged)
      decreases rest.Keys
    {
      var k :| k in rest;
      MergeEntry(join, self, merged, k, rest[k]);
      if k in out {
        out := out[k := join(out[k], rest[k])];
      } else {
        out := out[k := rest[k]];
      }
      merged, rest := merged[k := rest[k]], rest - {k};
    }
    assert merged == other;
  }

  function JoinMaps<K, V>(join: (V, V) -> V): (map<K, V>, map<K, V>) -> map<K, V> {
    (a, b) => MapJoin(join, a, b)
  }

  /** Maps whose value at each key `k` is in `c(k)`. */
  ghost function MapCarrier<K(!new), V(!new)>(c: K -> iset<V>): iset<map<K, V>> {
    iset m: map<K, V> | InCarrier(m, c)
  }

  ghost predicate InCarrier<K(!new), V(!new)>(m: map<K, V>, c: K -> iset<V>) {
    forall k | k in m :: m[k] in c(k)
  }

  /** The map lattice inherits every law from the lattices of its values. */
  lemma MapSemilattice<K(!new), V(!new)>(join: (V, V) -> V, c: K -> iset<V>)
    requires forall k :: Semilattice(join, c(k))
    ensures Semilattice(JoinMaps<K, V>(join), MapCarrier(c))
  {
    var j, mc := JoinMaps<K, V>(join), MapCarrier(c);
    forall a, b | a in mc && b in mc ensures Commutes(j, mc, a, b) { MapCommutes(join, c, a, b); }
    forall a, b, d | a in mc && b in mc && d in mc ensures Associates(j, a, b, d) { MapAssociates(join, c, a, b, d); }
    forall a | a in mc ensures Leq(j, a, a) {
      forall k | k in a
        ensures join(a[k], a[k]) == a[k]
      {
        assert Semilattice(join, c(k)); assert Leq(join, a[k], a[k]);
      }
      assert MapJoin(join, a, a) == a;
    }
  }

  lemma MapCommutes<K(!new), V(!new)>(join: (V, V) -> V, c: K -> iset<V>, a: map<K, V>, b: map<K, V>)
    requires (forall k :: Semilattice(join, c(k))) && a in MapCarrier(c) && b in MapCarrier(c)
    ensures Commutes(JoinMaps(join), MapCarrier(c), a, b)
  {
    var ab, ba := MapJoin(join, a, b), MapJoin(join, b, a);
    forall k | k in ab ensures ab[k] == ba[k] && ab[k] in c(k) {
      assert Semilattice(join, c(k));
      if k in a && k in b { assert Commutes(join, c(k), a[k], b[k]); }
    }
    assert ab == ba;
  }

  lemma MapAssociates<K(!new), V(!new)>(join: (V, V) -> V, c: K -> iset<V>, a: map<K, V>, b: map<K, V>, d: map<K, V>)
    requires (forall k :: Semilattice(join, c(k))) && a in MapCarrier(c) && b in MapCarrier(c) && d in MapCarrier(c)
    ensures Associates(JoinMaps(join), a, b, d)
  {
    var l, r := MapJoin(join, MapJoin(join, a, b), d), MapJoin(join, a, MapJoin(join, b, d));
    assert l.Keys == r.Keys;
    forall k | k in l ensures l[k] == r[k] {
      if k in a && k in b && k in d {
        assert Semilattice(join, c(k));
        assert Associates(join, a[k], b[k], d[k]);
      }
    }
    assert l == r;
  }

  /** `leq` on maps: keys included, values pointwise below. */
  lemma MapLeqIsPointwise<K, V>(join: (V, V) -> V, a: map<K, V>, b: map<K, V>)
    ensures MapJoin(join, a, b) == b <==> a.Keys <= b.Keys && forall k | k in a :: Leq(join, a[k], b[k])
  {
    var m := MapJoin(join, a, b);
    if m == b {
      assert a.Keys <= m.Keys;
      forall k | k in a ensures Leq(join, a[k], b[k]) { assert m[k] == join(a[k], b[k]); }
    }
    if a.Keys <= b.Keys && forall k | k in a :: Leq(join, a[k], b[k]) {
      assert m.Keys == b.Keys;
      assert forall k | k in b :: m[k] == b[k];
    }
  }

  // ---------------------------------------------------------------------------------------------
  // Last writer wins
  // ---------------------------------------------------------------------------------------------

  datatype LWW<T> = LWW(value: T, ts: nat, replica: nat)

  /** The greater `(ts, replica)` wins; `self` on a tie. */
  function LwwJoin<T>(a: LWW<T>, b: LWW<T>): LWW<T> {
    if a.ts > b.ts then a
    else if a.ts < b.ts then b
    else if a.replica > b.replica then a
    else if b.replica > a.replica then b
    else a
  }

  /** The order of stamps: the time decides, and among equal times the replica. */
  predicate Earlier<T>(a: LWW<T>, b: LWW<T>) {
    a.ts < b.ts || (a.ts == b.ts && a.replica < b.replica)
  }

  /** A join keeps the later of two writes, the left one at equal stamps; `leq` is the order of stamps. */
  lemma LwwLaterWins<T>(a: LWW<T>, b: LWW<T>)
    ensures var j := LwwJoin(a, b);
            && (j == a || j == b) && !Earlier(j, a) && !Earlier(j, b)
            && ((a.ts, a.replica) == (b.ts, b.replica) ==> j == a)
    ensures Leq((x, y) => LwwJoin(x, y), a, b) <==> Earlier(a, b) || a == b
  {
  }

  /** `xs[k]` is the first among the latest writes of `xs`. */
  predicate FirstLatest<T>(xs: seq<LWW<T>>, k: nat) {
    && k < |xs|
    && (forall i | 0 <= i < k :: Earlier(xs[i], xs[k]))
    && (forall i | k <= i < |xs| :: !Earlier(xs[k], xs[i]))
  }

  /** `join_all` of any history is the first of its latest writes. */
  lemma {:induction false} LwwJoinAllIsLatest<T>(xs: seq<LWW<T>>) returns (k: nat)
    requires xs != []
    ensures FirstLatest(xs, k) && JoinAll((a, b) => LwwJoin(a, b), xs) == xs[k]
  {
    var join := (a: LWW<T>, b: LWW<T>) => LwwJoin(a, b);
    if |xs| == 1 {
      k := 0;
    } else {
      var last := |xs| - 1;
      k := LwwJoinAllIsLatest(xs[..last]);
      assert xs[1..][..last - 1] == xs[..last][1..];
      assert JoinAll(join, xs) == LwwJoin(JoinAll(join, xs[..last]), xs[last]);
      if Earlier(xs[k], xs[last]) { k := last; }
    }
  }

  /** In a consistent history `join_all` is the write with the greatest stamp, wherever it stands. */
  lemma LwwHistoryLatest<T(!new)>(xs: seq<LWW<T>>, x: LWW<T>)
    requires Consistent(ElementsOf(xs)) && x in xs
    ensures JoinAll((a, b) => LwwJoin(a, b), xs) == x <==> forall i | 0 <= i < |xs| :: !Earlier(x, xs[i])
  {
    var k := LwwJoinAllIsLatest(xs);
    assert xs[k] in ElementsOf(xs) && x in ElementsOf(xs);
    var i :| 0 <= i < |xs| && xs[i] == x;
  }

  /** A stamp determines its value throughout `h`. */
  ghost predicate Consistent<T(!new)>(h: iset<LWW<T>>) {
    forall a, b | a in h && b in h && a.ts == b.ts && a.replica == b.replica :: a.value == b.value
  }

  /** The register is a semilattice on a history exactly when no stamp carries two values there. */
  lemma LwwSemilatticeIffConsistent<T(!new)>(h: iset<LWW<T>>)
    ensures Semilattice((a, b) => LwwJoin(a, b), h) <==> Consistent(h)
  {
    var join := (a: LWW<T>, b: LWW<T>) => LwwJoin(a, b);
    if Consistent(h) {
      forall a, b | a in h && b in h ensures Commutes(join, h, a, b) {}
      forall a, b, d | a in h && b in h && d in h ensures Associates(join, a, b, d) {}
    }
    if Semilattice(join, h) {
      forall a, b | a in h && b in h && a.ts == b.ts && a.replica == b.replica ensures a.value == b.value {
        assert Commutes(join, h, a, b);
      }
    }
  }

  /** `LWW::bottom`. */
  function LwwBottom<T>(default: T): LWW<T> {
    LWW(default, 0, 0)
  }

  /** `bottom` is an identity for `x` exactly when `x` has another stamp, or the default value at that stamp. */
  lemma LwwBottomIdentityIff<T>(default: T, x: LWW<T>)
    ensures LwwJoin(LwwBottom(default), x) == x && LwwJoin(x, LwwBottom(default)) == x
            <==> (x.ts, x.replica) != (0, 0) || x.value == default
  {
  }

  /** A register written at stamp (0, 0) is lost when joined into bottom. */
  lemma LwwBottomLosesExample()
    ensures LwwJoin(LwwBottom(0), LWW(7, 0, 0)) == LWW(0, 0, 0)
  {
  }
}
