/** `DialMailboxRouter` of `hyperactor/src/mailbox.rs`: an address book bound, unbound and summarised by prefix. */
module DialRouter {
  import opened Options
  import opened AddrOrder
  import opened PrefixRouting
  import opened ChannelUrl

  /** `ChannelAddr::transport().is_remote()`. */
  predicate IsRemote(a: ChannelAddr) {
    match a
    case Tcp(_) => true
    case Secure(_, _) => true
    case Local(_) => false
    case Unix(_) => false
    case Alias(_, b) => IsRemote(b)
  }

  /** The address an alias is served at. */
  function BindTarget(a: ChannelAddr): ChannelAddr {
    if a.Alias? then BindTarget(a.bindTo) else a
  }

  /** An address is remote when it is served over the network. */
  lemma {:induction false} RemoteIff(a: ChannelAddr)
    ensures IsRemote(a) <==> BindTarget(a).Tcp? || BindTarget(a).Secure?
  {
    if a.Alias? { RemoteIff(a.bindTo); }
  }

  // ---------------------------------------------------------------------------------------------
  // Unbinding a prefix
  // ---------------------------------------------------------------------------------------------

  /** The entries that `dest` is no prefix of. */
  function Without<V>(t: Table<V>, dest: Addr): Table<V> {
    if t == [] then []
    else
      var e, init := t[|t| - 1], Without(t[..|t| - 1], dest);
      if IsPrefixOf(dest, e.0) then init else init + [e]
  }

  /** The channel addresses of the entries that `dest` is a prefix of. */
  ghost function Dropped<V>(t: Table<V>, dest: Addr): set<V> {
    set i | 0 <= i < |t| && IsPrefixOf(dest, t[i].0) :: t[i].1
  }

  lemma {:induction false} WithoutMembers<V>(t: Table<V>, dest: Addr, e: (Addr, V))
    ensures e in Without(t, dest) <==> e in t && !IsPrefixOf(dest, e.0)
  {
    if t != [] {
      WithoutMembers(t[..|t| - 1], dest, e);
      assert e in t <==> e in t[..|t| - 1] || e == t[|t| - 1];
    }
  }

  /** Equal addresses extend the same prefixes. */
  lemma PrefixOfEqual(p: Addr, a: Addr, b: Addr)
    requires Eq(a, b)
    ensures IsPrefixOf(p, a) <==> IsPrefixOf(p, b)
  {
    EqIsEquivalence(a, b, a);
    PrefixIsPartialOrder(a, b, a);
    PrefixIsPartialOrder(b, a, b);
    PrefixIsPartialOrder(p, a, b);
    PrefixIsPartialOrder(p, b, a);
  }

  /** After unbinding a prefix, its extensions are unbound and every other address is bound as it was. */
  lemma WithoutGet<V>(t: Table<V>, dest: Addr, a: Addr)
    requires Sorted(t) && Sorted(Without(t, dest))
    ensures Get(Without(t, dest), a) == if IsPrefixOf(dest, a) then None else Get(t, a)
  {
    var r := Without(t, dest);
    forall e: (Addr, V) | Eq(e.0, a) ensures e in r <==> e in t && !IsPrefixOf(dest, a) {
      WithoutMembers(t, dest, e);
      PrefixOfEqual(dest, e.0, a);
    }
    if !IsPrefixOf(dest, a) { SameEntriesSameValue(t, r, a); }
  }

  lemma {:induction false} WithoutNone<V>(t: Table<V>, dest: Addr)
    requires forall i | 0 <= i < |t| :: !IsPrefixOf(dest, t[i].0)
    ensures Without(t, dest) == t
  {
    if t != [] { WithoutNone(t[..|t| - 1], dest); }
  }

  lemma {:induction false} WithoutAll<V>(t: Table<V>, dest: Addr)
    requires forall i | 0 <= i < |t| :: IsPrefixOf(dest, t[i].0)
    ensures Without(t, dest) == []
  {
    if t != [] { WithoutAll(t[..|t| - 1], dest); }
  }

  lemma {:induction false} WithoutConcat<V>(t: Table<V>, r: Table<V>, dest: Addr)
    ensures Without(t + r, dest) == Without(t, dest) + Without(r, dest)
  {
    if r == [] {
      assert t + r == t;
    } else {
      assert (t + r)[..|t + r| - 1] == t + r[..|r| - 1];
      WithoutConcat(t, r[..|r| - 1], dest);
    }
  }

  /** `range(dest..)`: how many addresses are below `dest`. */
  function Below<V>(t: Table<V>, dest: Addr): (n: nat)
    requires Sorted(t)
    ensures n <= |t| && (forall i | 0 <= i < n :: Cmp(t[i].0, dest) == Less)
    ensures (forall i | n <= i < |t| :: Cmp(t[i].0, dest) != Less)
  {
    if t == [] then 0
    else if Cmp(t[|t| - 1].0, dest) == Less then
      AllStrictlyBelow(t, dest);
      |t|
    else Below(t[..|t| - 1], dest)
  }

  lemma AllStrictlyBelow<V>(t: Table<V>, dest: Addr)
    requires Sorted(t) && t != [] && Cmp(t[|t| - 1].0, dest) == Less
    ensures forall i | 0 <= i < |t| :: Cmp(t[i].0, dest) == Less
  {
    forall i | 0 <= i < |t| - 1 ensures Cmp(t[i].0, dest) == Less {
      CmpTransitive(t[i].0, t[|t| - 1].0, dest);
    }
  }

  /** The extensions of `dest` are one run of the table, starting at the first address not below it. */
  lemma ExtensionsAreARun<V>(t: Table<V>, dest: Addr, start: nat, end: nat)
    requires Sorted(t) && start == Below(t, dest) && start <= end <= |t|
    requires (forall i | start <= i < end :: IsPrefixOf(dest, t[i].0)) && (end < |t| ==> !IsPrefixOf(dest, t[end].0))
    ensures forall i | 0 <= i < |t| :: IsPrefixOf(dest, t[i].0) <==> start <= i < end
  {
    forall i | 0 <= i < |t| && IsPrefixOf(dest, t[i].0) ensures start <= i < end {
      PrefixIsLeast(dest, t[i].0);
      CmpAgreesWithEq(dest, t[i].0);
      if end < i {
        CmpAgreesWithEq(dest, t[end].0);
        ExtensionsAreAnInterval(dest, t[end].0, t[i].0);
      }
    }
  }

  lemma RunRemoved<V>(left: Table<V>, mid: Table<V>, right: Table<V>, dest: Addr)
    requires forall i | 0 <= i < |mid| :: IsPrefixOf(dest, mid[i].0)
    requires forall i | 0 <= i < |left| :: !IsPrefixOf(dest, left[i].0)
    requires forall i | 0 <= i < |right| :: !IsPrefixOf(dest, right[i].0)
    ensures Without(left + mid + right, dest) == left + right
  {
    WithoutNone(left, dest);
    WithoutAll(mid, dest);
    WithoutNone(right, dest);
    calc {
      Without(left + mid + right, dest);
    ==  { WithoutConcat(left + mid, right, dest); }
      Without(left + mid, dest) + right;
    ==  { WithoutConcat(left, mid, dest); }
      left + [] + right;
    ==
      left + right;
    }
  }

  /** `BTreeMap::remove`. */
  function Remove<V>(t: Table<V>, k: Addr): Table<V> {
    match Position(t, k) case Some(i) => t[..i] + t[i + 1..] case None => t
  }

  lemma RemoveAt<V>(t: Table<V>, i: nat)
    requires Sorted(t) && i < |t|
    ensures Remove(t, t[i].0) == t[..i] + t[i + 1..]
  {
    EqIsEquivalence(t[i].0, t[i].0, t[i].0);
    PositionUnique(t, i, Position(t, t[i].0).value, t[i].0);
  }

  /** The table with its entries from `start` up to `end` taken out. */
  ghost function Cut<V>(t: Table<V>, start: nat, end: nat): Table<V>
    requires start <= end <= |t|
  {
    t[..start] + t[end..]
  }

  ghost function Values<V>(t: Table<V>, start: nat, end: nat): set<V>
    requires start <= end <= |t|
  {
    set i | start <= i < end :: t[i].1
  }

  /** Removing the key of the first entry after the cut widens the cut by one. */
  ghost predicate CutWidens<V>(t: Table<V>, start: nat, end: nat)
    requires start <= end < |t|
  {
    && Remove(Cut(t, start, end), t[end].0) == Cut(t, start, end + 1)
    && Values(t, start, end + 1) == Values(t, start, end) + {t[end].1}
  }

  lemma CutNext<V>(t: Table<V>, start: nat, end: nat)
    requires Sorted(t) && start <= end < |t|
    ensures CutWidens(t, start, end)
  {
    var c := Cut(t, start, end);
    assert forall i | 0 <= i < |c| :: c[i] == t[if i < start then i else i + (end - start)];
    assert c[start] == t[end];
    RemoveAt(c, start);
  }

  lemma CutNone<V>(t: Table<V>, start: nat)
    requires start <= |t|
    ensures Cut(t, start, start) == t && Values(t, start, start) == {}
  {
  }

  lemma CutIsSorted<V>(t: Table<V>, start: nat, end: nat)
    requires Sorted(t) && start <= end <= |t|
    ensures Sorted(Cut(t, start, end)) && forall e | e in Cut(t, start, end) :: e in t
  {
    var c := Cut(t, start, end);
    assert forall i | 0 <= i < |c| :: c[i] == t[if i < start then i else i + (end - start)];
  }

  /** When the extensions of `dest` are the run from `start` up to `end`, cutting it takes out exactly them. */
  lemma RunDropped<V>(t: Table<V>, dest: Addr, start: nat, end: nat)
    requires start <= end <= |t| && forall i | 0 <= i < |t| :: IsPrefixOf(dest, t[i].0) <==> start <= i < end
    ensures Cut(t, start, end) == Without(t, dest) && Values(t, start, end) == Dropped(t, dest)
  {
    assert t == t[..start] + t[start..end] + t[end..];
    RunRemoved(t[..start], t[start..end], t[end..], dest);
  }

  // ---------------------------------------------------------------------------------------------
  // Covering prefixes
  // ---------------------------------------------------------------------------------------------

  /** No other address of the table is a prefix of the one at `i`. */
  ghost predicate Covering<V>(t: Table<V>, i: nat)
    requires i < |t|
  {
    forall j | 0 <= j < |t| && IsPrefixOf(t[j].0, t[i].0) :: j == i
  }

  lemma PrefixComesFirst<V>(t: Table<V>, j: nat, i: nat)
    requires Sorted(t) && i < |t| && j < |t| && IsPrefixOf(t[j].0, t[i].0)
    ensures j <= i
  {
    PrefixIsLeast(t[j].0, t[i].0);
    if i < j { CmpAgreesWithEq(t[i].0, t[j].0); }
  }

  /** Every address of the table has a covering prefix in it. */
  lemma {:induction false} CoveredBy<V>(t: Table<V>, i: nat) returns (c: nat)
    requires Sorted(t) && i < |t|
    ensures c <= i && Covering(t, c) && IsPrefixOf(t[c].0, t[i].0)
    decreases i
  {
    PrefixIsPartialOrder(t[i].0, t[i].0, t[i].0);
    if Covering(t, i) {
      c := i;
    } else {
      var j :| 0 <= j < |t| && IsPrefixOf(t[j].0, t[i].0) && j != i;
      PrefixComesFirst(t, j, i);
      c := CoveredBy(t, j);
      PrefixIsPartialOrder(t[c].0, t[j].0, t[i].0);
    }
  }

  /**
   With every covering address before `i` collected and `last` the latest of them, `i` is covered iff `last` is its
   prefix.
   */
  lemma CoveringIff<V>(t: Table<V>, i: nat, last: nat)
    requires Sorted(t) && last < i < |t| && Covering(t, last) && forall j | last < j < i :: !Covering(t, j)
    ensures Covering(t, i) <==> !IsPrefixOf(t[last].0, t[i].0)
  {
    if !Covering(t, i) {
      var c := CoveredBy(t, i);
      if c < last {
        ExtensionsAreAnInterval(t[c].0, t[last].0, t[i].0);
        assert false;
      }
    }
  }

  lemma FirstIsCovering<V>(t: Table<V>, i: nat)
    requires Sorted(t) && i < |t| && forall j | 0 <= j < i :: !Covering(t, j)
    ensures Covering(t, i)
  {
    var c := CoveredBy(t, i);
  }

  /** `at` lists, in order, the covering addresses among the first `i`. */
  ghost predicate Collected<V>(t: Table<V>, i: nat, prefixes: seq<Addr>, at: seq<nat>) {
    && i <= |t| && |at| == |prefixes|
    && (forall n | 0 <= n < |at| :: at[n] < i && prefixes[n] == t[at[n]].0 && Covering(t, at[n]))
    && (forall m, n | 0 <= m < n < |at| :: at[m] < at[n])
    && (forall j | 0 <= j < i && Covering(t, j) :: j in at)
  }

  lemma CollectedIsSorted<V>(t: Table<V>, i: nat, prefixes: seq<Addr>, at: seq<nat>)
    requires Sorted(t) && Collected(t, i, prefixes, at)
    ensures SortedAddrs(prefixes)
    ensures i < |t| ==> Floor(prefixes, t[i].0) == if at == [] then None else Some(|at| - 1)
  {
    if i < |t| {
      forall n | 0 <= n < |at| ensures Le(prefixes[n], t[i].0) { assert Cmp(t[at[n]].0, t[i].0) == Less; }
    }
  }

  /** The next address is covering exactly when the last one collected is not its prefix. */
  lemma NextIsCoveringIff<V>(t: Table<V>, i: nat, prefixes: seq<Addr>, at: seq<nat>)
    requires Sorted(t) && Collected(t, i, prefixes, at) && i < |t|
    ensures Covering(t, i) <==> at == [] || !IsPrefixOf(prefixes[|at| - 1], t[i].0)
  {
    if at == [] {
      FirstIsCovering(t, i);
    } else {
      var last := at[|at| - 1];
      forall j | last < j < i ensures !Covering(t, j) {
        assert j in at ==> exists n :: 0 <= n < |at| && at[n] == j;
      }
      CoveringIff(t, i, last);
    }
  }

  lemma CollectNext<V>(t: Table<V>, i: nat, prefixes: seq<Addr>, at: seq<nat>)
    requires Collected(t, i, prefixes, at) && i < |t|
    ensures if Covering(t, i) then Collected(t, i + 1, prefixes + [t[i].0], at + [i])
            else Collected(t, i + 1, prefixes, at)
  {
  }

  // ---------------------------------------------------------------------------------------------
  // The router
  // ---------------------------------------------------------------------------------------------

  /** The actor's proc is bound, and no actor of that proc with a smaller uid. */
  predicate ProcRouted<V>(t: Table<V>, actor: Addr)
    requires actor.Actor?
  {
    Bound(Addrs(t), Proc(actor.proc)) && !SmallerActorBound(Addrs(t), actor)
  }

  class DialMailboxRouter {
    var addressBook: Table<ChannelAddr>
    var senderCache: set<ChannelAddr>
    const directAddressedRemoteOnly: bool

    ghost predicate Valid()
      reads this
    {
      Sorted(addressBook) && forall i | 0 <= i < |addressBook| :: !addressBook[i].1.Alias?
    }

    constructor (remoteOnly: bool)
      ensures Valid() && addressBook == [] && senderCache == {} && directAddressedRemoteOnly == remoteOnly
    {
      addressBook, senderCache, directAddressedRemoteOnly := [], {}, remoteOnly;
    }

    /** Bind `dest`, evicting the sender of an address it replaces. */
    method Bind(dest: Addr, addr: ChannelAddr)
      requires Valid()
      modifies this
      ensures Valid()
      ensures forall a :: Get(addressBook, a) == if Eq(dest, a) then Some(IntoDialAddr(addr))
              else Get(old(addressBook), a)
      ensures addressBook == Insert(old(addressBook), dest, IntoDialAddr(addr))
      ensures var was := Get(old(addressBook), dest);
              senderCache == if was.Some? && was.value != IntoDialAddr(addr) then old(senderCache) - {was.value}
                  else old(senderCache)
    {
      var canonical := IntoDialAddr(addr);
      DialAddrIsNoAlias(addr);
      InsertKeepsSorted(addressBook, dest, canonical);
      forall a
        ensures Get(Insert(addressBook, dest, canonical), a) == if Eq(dest, a) then Some(canonical)
                else Get(addressBook, a)
      {
        InsertGet(addressBook, dest, canonical, a);
      }
      var was := Get(addressBook, dest);
      addressBook := Insert(addressBook, dest, canonical);
      if was.Some? && was.value != canonical {
        senderCache := senderCache - {was.value};
      }
    }

    /** Unbind everything `dest` is a prefix of, and evict the senders. */
    method Unbind(dest: Addr)
      requires Valid()
      modifies this
      ensures Valid()
      ensures forall a :: Get(addressBook, a) == if IsPrefixOf(dest, a) then None else Get(old(addressBook), a)
      ensures addressBook == Without(old(addressBook), dest)
      ensures senderCache == old(senderCache) - Dropped(old(addressBook), dest)
    {
      var start, toRemove := Extensions(dest);
      forall n | start <= n < |addressBook| ensures CutWidens(addressBook, start, n) { CutNext(addressBook, start, n); }
      forall a ensures Get(Without(addressBook, dest), a) == if IsPrefixOf(dest, a) then None else Get(addressBook, a) {
        WithoutGet(addressBook, dest, a);
      }
      TakeOut(start, toRemove);
    }

    /** `range(dest..).take_while(..)`: where the extensions of `dest` start, and the entries there. */
    method Extensions(dest: Addr) returns (start: nat, found: seq<(Addr, ChannelAddr)>)
      requires Valid()
      ensures start + |found| <= |addressBook| && found == addressBook[start..start + |found|]
      ensures Cut(addressBook, start, start + |found|) == Without(addressBook, dest)
      ensures Values(addressBook, start, start + |found|) == Dropped(addressBook, dest)
      ensures forall e | e in Without(addressBook, dest) :: e in addressBook
      ensures Sorted(Without(addressBook, dest))
    {
      start := Below(addressBook, dest);
      var end := start;
      while end < |addressBook| && IsPrefixOf(dest, addressBook[end].0)
        invariant start <= end <= |addressBook| && forall i | start <= i < end :: IsPrefixOf(dest, addressBook[i].0)
      {
        end := end + 1;
      }
      ExtensionsAreARun(addressBook, dest, start, end);
      RunDropped(addressBook, dest, start, end);
      CutIsSorted(addressBook, start, end);
      found := addressBook[start..end];
    }

    /** Remove the listed entries, which follow one another from `start`, and evict their senders. */
    method TakeOut(start: nat, toRemove: seq<(Addr, ChannelAddr)>)
      requires start + |toRemove| <= |addressBook| && toRemove == addressBook[start..start + |toRemove|]
      requires forall n | start <= n < |addressBook| :: CutWidens(addressBook, start, n)
      modifies this
      ensures addressBook == Cut(old(addressBook), start, start + |toRemove|)
      ensures senderCache == old(senderCache) - Values(old(addressBook), start, start + |toRemove|)
    {
      ghost var book, cache := addressBook, senderCache;
      CutNone(book, start);
      for n := 0 to |toRemove|
        invariant addressBook == Cut(book, start, start + n)
        invariant senderCache == cache - Values(book, start, start + n)
      {
        assert CutWidens(book, start, start + n);
        assert toRemove[n] == book[start + n];
        addressBook := Remove(addressBook, toRemove[n].0);
        senderCache := senderCache - {toRemove[n].1};
      }
    }

    /** The dial address for an actor whose own channel address is `own`. */
    method LookupAddr(actor: Addr, own: ChannelAddr) returns (r: Option<ChannelAddr>)
      requires Valid() && actor.Actor?
      ensures r.Some? ==> !r.value.Alias?
      ensures Bound(Addrs(addressBook), actor) ==> r == Get(addressBook, actor)
      ensures !Bound(Addrs(addressBook), actor) && ProcRouted(addressBook, actor)
              ==> r == Get(addressBook, Proc(actor.proc))
      ensures !Bound(Addrs(addressBook), actor) && !ProcRouted(addressBook, actor)
              ==> r == if directAddressedRemoteOnly && !IsRemote(IntoDialAddr(own)) then None
                  else Some(IntoDialAddr(own))
    {
      SortedAgrees(addressBook);
      var keys := Addrs(addressBook);
      ActorRoutedIff(keys, actor);
      var route := Route(keys, actor);
      if route.Some? {
        RouteFindsValue(addressBook, actor, route.value);
        r := Some(IntoDialAddr(addressBook[route.value].1));
      } else {
        DialAddrIsNoAlias(own);
        var direct := IntoDialAddr(own);
        r := if directAddressedRemoteOnly && !IsRemote(direct) then None else Some(direct);
      }
    }

    /** The bound addresses that no other bound address is a prefix of, in order. */
    method Prefixes() returns (prefixes: seq<Addr>)
      requires Valid()
      ensures SortedAddrs(prefixes)
      ensures forall a :: a in prefixes <==> exists i ::
              0 <= i < |addressBook| && addressBook[i].0 == a && Covering(addressBook, i)
    {
      prefixes := [];
      ghost var at: seq<nat> := [];
      for i := 0 to |addressBook|
        invariant Collected(addressBook, i, prefixes, at)
      {
        var reference := addressBook[i].0;
        CollectedIsSorted(addressBook, i, prefixes, at);
        NextIsCoveringIff(addressBook, i, prefixes, at);
        CollectNext(addressBook, i, prefixes, at);
        var floor := Floor(prefixes, reference);
        if floor.None? || !IsPrefixOf(prefixes[floor.value], reference) {
          prefixes := prefixes + [reference];
          at := at + [i];
        }
      }
      CollectedIsSorted(addressBook, |addressBook|, prefixes, at);
    }
  }

  lemma {:induction false} DialAddrIsNoAlias(a: ChannelAddr)
    ensures !IntoDialAddr(a).Alias? && IntoDialAddr(IntoDialAddr(a)) == IntoDialAddr(a)
  {
    if a.Alias? { DialAddrIsNoAlias(a.dialTo); }
  }

  /** The value at the route found for an actor is the one bound to it, or else to its proc. */
  lemma RouteFindsValue<V>(t: Table<V>, x: Addr, i: nat)
    requires Sorted(t) && SortedAddrs(Addrs(t)) && x.Actor? && Route(Addrs(t), x) == Some(i)
    ensures Some(t[i].1) == if Bound(Addrs(t), x) then Get(t, x) else Get(t, Proc(x.proc))
  {
    var s := Addrs(t);
    PrefixesOfActor(t[i].0, x);
    if Bound(s, x) {
      var j :| 0 <= j < |s| && Eq(s[j], x);
      BoundIsFloor(s, x, j);
      PositionUnique(t, i, Position(t, x).value, x);
    } else {
      assert s[i] == t[i].0;
      PositionUnique(t, i, Position(t, Proc(x.proc)).value, Proc(x.proc));
    }
  }
}
