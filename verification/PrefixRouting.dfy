/**
 Prefix routing of `hyperactor/src/mailbox.rs`: the ordered tables of `MailboxRouter` and `DialMailboxRouter`,
 looked up by the greatest bound address not above the destination.
 */
module PrefixRouting {
  import opened Options
  import opened AddrOrder

  /** A `BTreeMap` keyed by address: entries in strictly increasing order. */
  type Table<V> = seq<(Addr, V)>

  predicate Sorted<V>(t: Table<V>) {
    forall i, j | 0 <= i < j < |t| :: Cmp(t[i].0, t[j].0) == Less
  }

  predicate SortedAddrs(s: seq<Addr>) {
    forall i, j | 0 <= i < j < |s| :: Cmp(s[i], s[j]) == Less
  }

  function Addrs<V>(t: Table<V>): (s: seq<Addr>)
    ensures |s| == |t| && forall i | 0 <= i < |t| :: s[i] == t[i].0
  {
    seq(|t|, i requires 0 <= i < |t| => t[i].0)
  }

  /** `lower_bound(Excluded(x))`: how many addresses are not above `x`. */
  function UpTo(s: seq<Addr>, x: Addr): (n: nat)
    requires SortedAddrs(s)
    ensures n <= |s| && (forall i | 0 <= i < n :: Le(s[i], x)) && (forall i | n <= i < |s| :: !Le(s[i], x))
  {
    if s == [] then 0
    else if Le(s[|s| - 1], x) then
      AllBelow(s, x);
      |s|
    else UpTo(s[..|s| - 1], x)
  }

  lemma AllBelow(s: seq<Addr>, x: Addr)
    requires SortedAddrs(s) && s != [] && Le(s[|s| - 1], x)
    ensures forall i | 0 <= i < |s| :: Le(s[i], x)
  {
    forall i | 0 <= i < |s| - 1 ensures Le(s[i], x) {
      CmpTransitive(s[i], s[|s| - 1], x);
    }
  }

  /** The greatest address not above `x`, if any. */
  function Floor(s: seq<Addr>, x: Addr): (r: Option<nat>)
    requires SortedAddrs(s)
    ensures r.Some? ==> r.value < |s| && Le(s[r.value], x) && forall j | r.value < j < |s| :: !Le(s[j], x)
    ensures r.None? ==> forall j | 0 <= j < |s| :: !Le(s[j], x)
  {
    var n := UpTo(s, x);
    if n == 0 then None else Some(n - 1)
  }

  /** The route chosen for `x`: the greatest address not above it, provided that is a prefix of it. */
  function Route(s: seq<Addr>, x: Addr): (r: Option<nat>)
    requires SortedAddrs(s)
    ensures r.Some? ==> r.value < |s|
  {
    match Floor(s, x)
    case Some(i) => if IsPrefixOf(s[i], x) then Some(i) else None
    case None => None
  }

  // ---------------------------------------------------------------------------------------------
  // Routing to the longest matching prefix
  // ---------------------------------------------------------------------------------------------

  predicate LongestPrefix(s: seq<Addr>, x: Addr, i: nat) {
    && i < |s| && IsPrefixOf(s[i], x)
    && forall j | 0 <= j < |s| && IsPrefixOf(s[j], x) :: IsPrefixOf(s[j], s[i])
  }

  predicate SomePrefix(s: seq<Addr>, x: Addr) {
    exists i :: 0 <= i < |s| && IsPrefixOf(s[i], x)
  }

  /** A route that is found is the longest matching prefix. */
  lemma RouteIsLongest(s: seq<Addr>, x: Addr)
    requires SortedAddrs(s) && Route(s, x).Some?
    ensures LongestPrefix(s, x, Route(s, x).value)
  {
    var i := Route(s, x).value;
    forall j | 0 <= j < |s| && IsPrefixOf(s[j], x) ensures IsPrefixOf(s[j], s[i]) {
      PrefixIsLeast(s[j], x);
      assert j <= i;
      CmpAgreesWithEq(s[i], s[i]);
      PrefixIsPartialOrder(s[i], s[i], s[i]);
      if j < i { ExtensionsAreAnInterval(s[j], s[i], x); }
    }
  }

  /**
   Some other address of the table lies between a bound prefix of `x` and `x`, without being a prefix of `x` itself.
   */
  ghost predicate Shadowed(s: seq<Addr>, x: Addr) {
    exists k :: 0 <= k < |s| && Le(s[k], x) && !IsPrefixOf(s[k], x)
                && forall j | 0 <= j < |s| && IsPrefixOf(s[j], x) :: Cmp(s[j], s[k]) == Less
  }

  /** A destination with a bound prefix is routed exactly when nothing shadows that prefix. */
  lemma RoutedIffNotShadowed(s: seq<Addr>, x: Addr)
    requires SortedAddrs(s)
    ensures Route(s, x).Some? <==> SomePrefix(s, x) && !Shadowed(s, x)
  {
    if SomePrefix(s, x) {
      var p :| 0 <= p < |s| && IsPrefixOf(s[p], x);
      PrefixIsLeast(s[p], x);
      var f := Floor(s, x).value;
      if IsPrefixOf(s[f], x) {
        forall k | 0 <= k < |s| && Le(s[k], x) ensures !(Cmp(s[f], s[k]) == Less) {
          CmpAgreesWithEq(s[f], s[k]);
          CmpAgreesWithEq(s[f], s[f]);
          EqIsEquivalence(s[f], s[f], s[f]);
        }
      } else {
        forall j | 0 <= j < |s| && IsPrefixOf(s[j], x) ensures Cmp(s[j], s[f]) == Less { PrefixIsLeast(s[j], x); }
        assert Shadowed(s, x);
      }
    }
  }

  predicate Bound(s: seq<Addr>, a: Addr) {
    exists i :: 0 <= i < |s| && Eq(s[i], a)
  }

  /** The table binds an actor of `x`'s proc, or one of its ports, with a smaller uid than `x`. */
  predicate SmallerActorBound(s: seq<Addr>, x: Addr)
    requires x.Actor?
  {
    exists k :: 0 <= k < |s| && !s[k].Proc? && ProcEq(s[k].proc, x.proc) && UidCmp(s[k].uid, x.uid) == Less
  }

  /** The prefixes of an actor address are the address itself and its proc. */
  lemma PrefixesOfActor(p: Addr, x: Addr)
    requires x.Actor?
    ensures IsPrefixOf(p, x) <==> Eq(p, x) || Eq(p, Proc(x.proc))
  {
  }

  /**
   Between an actor and its proc lie exactly the actors with a smaller uid, with their ports, and the two themselves.
   */
  lemma BetweenProcAndActor(k: Addr, x: Addr)
    requires x.Actor?
    ensures Cmp(Proc(x.proc), k) == Less && Cmp(k, x) == Less <==>
            !k.Proc? && ProcEq(k.proc, x.proc) && UidCmp(k.uid, x.uid) == Less
  {
    ProcLaws(x.proc, k.proc);
    ProcLaws(k.proc, x.proc);
  }

  /**
   An actor is routed exactly when it is bound itself, or its proc is bound and no actor of that proc with a
   smaller uid is.
   */
  lemma ActorRoutedIff(s: seq<Addr>, x: Addr)
    requires SortedAddrs(s) && x.Actor?
    ensures Route(s, x).Some? <==> Bound(s, x) || (Bound(s, Proc(x.proc)) && !SmallerActorBound(s, x))
  {
    var f := Floor(s, x);
    if Bound(s, x) {
      var i :| 0 <= i < |s| && Eq(s[i], x);
      PrefixesOfActor(s[i], x);
      BoundIsFloor(s, x, i);
    } else if Bound(s, Proc(x.proc)) {
      var i :| 0 <= i < |s| && Eq(s[i], Proc(x.proc));
      PrefixesOfActor(s[i], x);
      PrefixIsLeast(s[i], x);
      PrefixesOfActor(s[f.value], x);
      FloorAboveProc(s, x, i, f.value);
    } else {
      if f.Some? { PrefixesOfActor(s[f.value], x); }
    }
  }

  lemma BoundIsFloor(s: seq<Addr>, x: Addr, i: nat)
    requires SortedAddrs(s) && i < |s| && Eq(s[i], x)
    ensures Floor(s, x) == Some(i)
  {
    CmpAgreesWithEq(s[i], x);
    var f := Floor(s, x).value;
    if i < f {
      CmpAgreesWithEq(x, s[i]);
      CmpTransitive(s[i], s[f], x);
    }
  }

  /** With the proc bound at `i` and the actor not bound, the floor `f` is the proc unless a smaller actor is bound. */
  lemma FloorAboveProc(s: seq<Addr>, x: Addr, i: nat, f: nat)
    requires SortedAddrs(s) && x.Actor? && !Bound(s, x)
    requires i < |s| && Eq(s[i], Proc(x.proc)) && Floor(s, x) == Some(f)
    ensures Eq(s[f], Proc(x.proc)) <==> !SmallerActorBound(s, x)
  {
    var proc := Proc(x.proc);
    PrefixesOfActor(s[i], x);
    PrefixIsLeast(s[i], x);
    CmpAgreesWithEq(s[i], proc);
    CmpAgreesWithEq(proc, s[i]);
    CmpAgreesWithEq(s[f], x);
    if i < f {
      CmpTransitive(proc, s[i], s[f]);
      CmpAgreesWithEq(s[f], proc);
      BetweenProcAndActor(s[f], x);
    } else {
      forall k | 0 <= k < |s| ensures !(Cmp(proc, s[k]) == Less && Cmp(s[k], x) == Less) {
        if k <= i { if k < i { CmpTransitive(s[k], s[i], proc); } CmpAgreesWithEq(s[k], proc); }
      }
      forall k | 0 <= k < |s| ensures !(!s[k].Proc? && ProcEq(s[k].proc, x.proc) && UidCmp(s[k].uid, x.uid) == Less) {
        BetweenProcAndActor(s[k], x);
      }
    }
  }

  /** The longest matching prefix is bound and yet no route is found. */
  lemma ShadowedExample()
    ensures var proc := ProcAddr(Singleton(0), Terminal(0));
            var table := [Proc(proc), Actor(proc, Singleton(1))];
            var x := Actor(proc, Singleton(2));
            SortedAddrs(table) && LongestPrefix(table, x, 0) && Route(table, x) == None
  {
    var proc := ProcAddr(Singleton(0), Terminal(0));
    var table := [Proc(proc), Actor(proc, Singleton(1))];
    var x := Actor(proc, Singleton(2));
    assert Le(table[1], x) && !IsPrefixOf(table[1], x) && Floor(table, x) == Some(1);
  }

  // ---------------------------------------------------------------------------------------------
  // Table updates
  // ---------------------------------------------------------------------------------------------

  lemma SortedAgrees<V>(t: Table<V>)
    ensures Sorted(t) <==> SortedAddrs(Addrs(t))
  {
    if SortedAddrs(Addrs(t)) {
      forall i, j | 0 <= i < j < |t| ensures Cmp(t[i].0, t[j].0) == Less {
        assert Cmp(Addrs(t)[i], Addrs(t)[j]) == Less;
      }
    }
  }

  /** The position of the entry for `k`, if any. */
  function Position<V>(t: Table<V>, k: Addr): (r: Option<nat>)
    ensures r.Some? ==> r.value < |t| && Eq(t[r.value].0, k)
    ensures r.None? ==> forall i | 0 <= i < |t| :: !Eq(t[i].0, k)
  {
    if t == [] then None
    else if Eq(t[|t| - 1].0, k) then Some(|t| - 1)
    else Position(t[..|t| - 1], k)
  }

  function Get<V>(t: Table<V>, k: Addr): Option<V> {
    match Position(t, k) case Some(i) => Some(t[i].1) case None => None
  }

  lemma PositionUnique<V>(t: Table<V>, i: nat, j: nat, k: Addr)
    requires Sorted(t) && i < |t| && j < |t| && Eq(t[i].0, k) && Eq(t[j].0, k)
    ensures i == j
  {
    EqIsEquivalence(t[i].0, k, t[j].0);
    EqIsEquivalence(t[j].0, k, t[i].0);
    CmpAgreesWithEq(t[i].0, t[j].0);
    CmpAgreesWithEq(t[j].0, t[i].0);
  }

  /** `BTreeMap::insert`: an equal key stays as it is and gets the new value. */
  function Insert<V>(t: Table<V>, k: Addr, v: V): (r: Table<V>)
    requires Sorted(t)
  {
    SortedAgrees(t);
    match Position(t, k)
    case Some(i) => t[i := (t[i].0, v)]
    case None => var n := UpTo(Addrs(t), k); t[..n] + [(k, v)] + t[n..]
  }

  lemma SplicedIsSorted<V>(t: Table<V>, n: nat, k: Addr, v: V)
    requires Sorted(t) && n <= |t|
    requires (forall i | 0 <= i < n :: Cmp(t[i].0, k) == Less) && (forall i | n <= i < |t| :: Cmp(k, t[i].0) == Less)
    ensures Sorted(t[..n] + [(k, v)] + t[n..])
  {
    var r := t[..n] + [(k, v)] + t[n..];
    assert forall i | 0 <= i < |r| :: r[i] == if i < n then t[i] else if i == n then (k, v) else t[i - 1];
  }

  lemma InsertKeepsSorted<V>(t: Table<V>, k: Addr, v: V)
    requires Sorted(t)
    ensures Sorted(Insert(t, k, v))
  {
    SortedAgrees(t);
    if Position(t, k).None? {
      var n := UpTo(Addrs(t), k);
      forall i | 0 <= i < |t| ensures if i < n then Cmp(t[i].0, k) == Less else Cmp(k, t[i].0) == Less {
        CmpAgreesWithEq(t[i].0, k);
        assert Addrs(t)[i] == t[i].0;
      }
      SplicedIsSorted(t, n, k, v);
    }
  }

  /** Tables with the same entries for `a` give it the same value. */
  lemma SameEntriesSameValue<V>(t: Table<V>, r: Table<V>, a: Addr)
    requires Sorted(t) && Sorted(r) && forall e: (Addr, V) | Eq(e.0, a) :: e in t <==> e in r
    ensures Get(t, a) == Get(r, a)
  {
    var pt, pr := Position(t, a), Position(r, a);
    if pt.Some? {
      var i :| 0 <= i < |r| && r[i] == t[pt.value];
      PositionUnique(r, i, pr.value, a);
    }
  }

  /** Splicing in or overwriting an entry for another key. */
  lemma OthersKept<V>(t: Table<V>, r: Table<V>, a: Addr, at: nat, was: seq<(Addr, V)>)
    requires Sorted(t) && Sorted(r) && at < |r| && at + |was| <= |t| && !Eq(r[at].0, a)
    requires r == t[..at] + [r[at]] + t[at + |was|..] && t[at..at + |was|] == was && forall e | e in was :: !Eq(e.0, a)
    ensures Get(r, a) == Get(t, a)
  {
    var left, right := t[..at], t[at + |was|..];
    assert t == left + was + right;
    forall e: (Addr, V) | Eq(e.0, a) ensures e in t <==> e in r {
      assert e in t <==> e in left || e in right;
    }
    SameEntriesSameValue(t, r, a);
  }

  /** After an insertion the key has the new value and every other key what it had. */
  lemma InsertGet<V>(t: Table<V>, k: Addr, v: V, a: Addr)
    requires Sorted(t)
    ensures Get(Insert(t, k, v), a) == if Eq(k, a) then Some(v) else Get(t, a)
  {
    SortedAgrees(t);
    var r := Insert(t, k, v);
    InsertKeepsSorted(t, k, v);
    var at := match Position(t, k) case Some(i) => i case None => UpTo(Addrs(t), k);
    EqIsEquivalence(k, k, k);
    assert r[at].1 == v && Eq(r[at].0, k);
    EqIsEquivalence(r[at].0, k, a);
    EqIsEquivalence(k, r[at].0, a);
    if Eq(k, a) {
      PositionUnique(r, at, Position(r, a).value, a);
    } else {
      var was := if Position(t, k).Some? then [t[at]] else [];
      OthersKept(t, r, a, at, was);
    }
  }
}
