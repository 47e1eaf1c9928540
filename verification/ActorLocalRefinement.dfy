/**
 Per-actor storage as `ActorLocalStorage` has it, read off the weak map beneath it. When no operation is running, an
 actor's storage is what `spec` says of its map; inserting, removing and dropping a key change it as the methods of
 `Runtime` do.
 */
module ActorLocalRefinement {
  import opened Options
  import opened WeakMapModel
  import opened WeakMapInvariant
  import opened WeakMapTheorems
  import opened WeakMapNesting
  import Replay = WeakMapReplay
  import opened ActorLocalStorage

  /** The entries of map `m`, by key address. */
  ghost function Entries(w: State, m: Id): map<Addr, Value>
    requires m < |w.nodes|
  {
    map a | a in w.nodes[m].table :: w.nodes[m].table[a].value
  }

  /** Address `a` is that of the live key `k`, for which `spec` has a value in `m`. */
  ghost predicate EntryOf(w: State, m: Id, a: Addr, k: Id) {
    k < |w.nodes| && w.nodes[k].phase.Live? && w.nodes[k].kind.Key? && w.nodes[k].addr == a && (k, m) in w.spec
  }

  ghost predicate LiveMap(w: State, m: Id) {
    m < |w.nodes| && w.nodes[m].kind.Map? && w.nodes[m].phase.Live?
  }

  /** At rest, an entry belongs to one live key, with the value that `spec` has for it. */
  lemma EntryHasKey(w: State, m: Id, a: Addr) returns (k: Id)
    requires Reachable(w) && Quiescent(w) && LiveMap(w, m) && a in Entries(w, m)
    ensures EntryOf(w, m, a, k) && Entries(w, m)[a] == w.spec[(k, m)]
  {
    ReachableInv(w);
    k := w.nodes[m].table[a].peer;
    DeadOnlyWhileDropping(w, m, a);
    assert PinnedSlot(w.nodes, m, a);
    QuiescentContents(w, k, m);
  }

  /** At rest, a value in `spec` is an entry. */
  lemma KeyHasEntry(w: State, m: Id, k: Id)
    requires Reachable(w) && Quiescent(w) && LiveMap(w, m) && (k, m) in w.spec
    ensures k < |w.nodes| && EntryOf(w, m, w.nodes[k].addr, k)
    ensures w.nodes[k].addr in Entries(w, m) && Entries(w, m)[w.nodes[k].addr] == w.spec[(k, m)]
  {
    ReachableInv(w);
    assert SpecEntryOk(w, (k, m).0, (k, m).1);
    QuiescentContents(w, k, m);
  }

  /** Live nodes at one address are one node. */
  lemma OneAtAddress(w: State, j: Id, k: Id)
    requires Reachable(w) && j < |w.nodes| && k < |w.nodes| && w.nodes[j].phase.Live? && w.nodes[k].phase.Live?
    ensures w.nodes[j].addr == w.nodes[k].addr ==> j == k
  {
    ReachableInv(w);
  }

  // ---------------------------------------------------------------------------------------------
  // From one state at rest to another
  // ---------------------------------------------------------------------------------------------

  /** Both at rest, the second reached from the first, with map `m` live in both. */
  ghost predicate AtRest(w: State, w': State, m: Id) {
    Reachable(w) && Leads(w, w') && Quiescent(w) && Quiescent(w') && LiveMap(w, m) && LiveMap(w', m)
  }

  /** Nodes keep their addresses for ever. */
  ghost predicate SameAddresses(w: State, w': State) {
    |w.nodes| <= |w'.nodes| && forall x | 0 <= x < |w.nodes| :: w'.nodes[x].addr == w.nodes[x].addr
  }

  lemma AddressesStay(w: State, w': State)
    requires Leads(w, w')
    ensures SameAddresses(w, w')
  {
    var p := (r: State) => SameAddresses(w, r);
    forall r, a, r' | p(r) && Step(r, a, r') ensures p(r') {
      StepGrows(r, a, r');
      forall x | 0 <= x < |w.nodes| ensures r'.nodes[x].addr == w.nodes[x].addr { AddressKept(r, a, r', x); }
    }
    KeptForever(p, w, w');
  }

  /** A key whose value in `m` is the same in both `spec`s has the same entry in both. */
  lemma EntryStays(w: State, w': State, m: Id, k: Id)
    requires AtRest(w, w', m) && (k, m) in w.spec && (k, m) in w'.spec && w'.spec[(k, m)] == w.spec[(k, m)]
    ensures k < |w.nodes| && var a := w.nodes[k].addr;
            a in Entries(w, m) && a in Entries(w', m) && Entries(w', m)[a] == Entries(w, m)[a]
  {
    ReachableLeads(w, w');
    AddressesStay(w, w');
    KeyHasEntry(w, m, k);
    KeyHasEntry(w', m, k);
  }

  /** Dropping key `k` everywhere takes its address out of the entries. */
  lemma DropEntries(w: State, w': State, m: Id, k: Id)
    requires AtRest(w, w', m) && k < |w.nodes| && w.nodes[k].kind.Key? && w.nodes[k].phase.Live?
    requires w'.spec == Without(w.spec, k)
    ensures Entries(w', m) == Entries(w, m) - {w.nodes[k].addr}
  {
    ReachableLeads(w, w');
    AddressesStay(w, w');
    var e, e', addr := Entries(w, m), Entries(w', m), w.nodes[k].addr;
    forall a | a in e' ensures a in e && a != addr && e'[a] == e[a] {
      var j := EntryHasKey(w', m, a);
      EntryStays(w, w', m, j);
      KeyHasEntry(w, m, j);
      OneAtAddress(w, j, k);
    }
    forall a | a in e && a != addr ensures a in e' {
      var j := EntryHasKey(w, m, a);
      EntryStays(w, w', m, j);
    }
  }

  /** A value written for `(k, m)` is written at the address of `k`, in the entries of `m` alone. */
  lemma InsertEntries(w: State, w': State, m: Id, k: Id, x: Id, v: Value)
    requires AtRest(w, w', m) && k < |w.nodes| && w.nodes[k].phase.Live? && w'.spec == w.spec[(k, x) := v]
    ensures Entries(w', m) == if m == x then Entries(w, m)[w.nodes[k].addr := v] else Entries(w, m)
  {
    ReachableLeads(w, w');
    AddressesStay(w, w');
    var e, e', addr := Entries(w, m), Entries(w', m), w.nodes[k].addr;
    if m == x { KeyHasEntry(w', m, k); }
    forall a | a in e' && (m != x || a != addr) ensures a in e && e'[a] == e[a] {
      var j := EntryHasKey(w', m, a);
      EntryStays(w, w', m, j);
    }
    forall a | a in e && (m != x || a != addr) ensures a in e' {
      var j := EntryHasKey(w, m, a);
      EntryStays(w, w', m, j);
    }
  }

  /** A value removed for `(k, x)` is removed at the address of `k`, from the entries of `x` alone. */
  lemma RemoveEntries(w: State, w': State, m: Id, k: Id, x: Id)
    requires AtRest(w, w', m) && k < |w.nodes| && w.nodes[k].phase.Live? && w'.spec == w.spec - {(k, x)}
    ensures Entries(w', m) == if m == x then Entries(w, m) - {w.nodes[k].addr} else Entries(w, m)
  {
    ReachableLeads(w, w');
    AddressesStay(w, w');
    var e, e', addr := Entries(w, m), Entries(w', m), w.nodes[k].addr;
    forall a | a in e' ensures a in e && (m == x ==> a != addr) && e'[a] == e[a] {
      var j := EntryHasKey(w', m, a);
      EntryStays(w, w', m, j);
      KeyHasEntry(w, m, j);
      OneAtAddress(w, j, k);
    }
    forall a | a in e && (m != x || a != addr) ensures a in e' {
      var j := EntryHasKey(w, m, a);
      EntryStays(w, w', m, j);
    }
  }

  // ---------------------------------------------------------------------------------------------
  // Storages
  // ---------------------------------------------------------------------------------------------

  /** Every actor's storage is the entries of its map, unboxed. */
  ghost predicate Represents(w: State, mapOf: map<nat, Id>, unbox: Value -> Erased,
                             storages: map<nat, map<nat, Erased>>) {
    && storages.Keys == mapOf.Keys
    && forall a | a in mapOf :: LiveMap(w, mapOf[a]) && storages[a] == Unboxed(Entries(w, mapOf[a]), unbox)
  }

  ghost function Unboxed(e: map<Addr, Value>, unbox: Value -> Erased): map<nat, Erased> {
    map x: nat | x in e :: unbox(e[x])
  }

  /** At rest, an actor's storage holds exactly the addresses of the live keys with a value in its map. */
  lemma StorageIsSpec(w: State, mapOf: map<nat, Id>, unbox: Value -> Erased, storages: map<nat, map<nat, Erased>>,
                      a: nat)
    requires Reachable(w) && Quiescent(w) && Represents(w, mapOf, unbox, storages) && a in storages
    ensures forall x: nat :: x in storages[a] <==> exists k: Id :: EntryOf(w, mapOf[a], x, k)
    ensures forall x: nat, k: Id | EntryOf(w, mapOf[a], x, k) ::
              x in storages[a] && storages[a][x] == unbox(w.spec[(k, mapOf[a])])
  {
    var m := mapOf[a];
    forall x: nat | x in storages[a] ensures exists k: Id :: EntryOf(w, m, x, k) { var k := EntryHasKey(w, m, x); }
    forall x: nat, k: Id | EntryOf(w, m, x, k) ensures x in storages[a] && storages[a][x] == unbox(w.spec[(k, m)]) {
      KeyHasEntry(w, m, k);
    }
  }

  /** The key at address `x` is still owned, and the run wrote a value for it in map `m` and did not remove it. */
  ghost predicate WrittenAt(actions: seq<Action>, w: State, m: Id, x: Addr, k: Id) {
    && k < |w.nodes| && w.nodes[k].addr == x && Replay.Owned(actions, k) != {}
    && (k, m) in Replay.Written(actions)
  }

  lemma SpecIsWrittenAt(actions: seq<Action>, w: State, m: Id, x: Addr, k: Id)
    requires Replay.Run(actions, w) && Quiescent(w) && LiveMap(w, m)
    ensures EntryOf(w, m, x, k) <==> WrittenAt(actions, w, m, x, k)
    ensures EntryOf(w, m, x, k) ==> w.spec[(k, m)] == Replay.Written(actions)[(k, m)]
  {
    Replay.SpecIsWritten(actions, w);
    if k < |w.nodes| {
      Replay.LiveWhileOwned(actions, w, k);
      if (k, m) in w.spec { Replay.RunMeans(actions, w); PairIsLive(w, k, m); }
    }
  }

  lemma PairIsLive(w: State, k: Id, m: Id)
    requires Reachable(w) && (k, m) in w.spec
    ensures LivePair(w, k, m)
  {
    ReachableInv(w);
    assert SpecEntryOk(w, (k, m).0, (k, m).1);
  }

  /** At rest, an actor's storage holds exactly what the run wrote for the keys still owned, at their addresses. */
  lemma StorageIsWritten(actions: seq<Action>, w: State, mapOf: map<nat, Id>, unbox: Value -> Erased,
                         storages: map<nat, map<nat, Erased>>, a: nat)
    requires Replay.Run(actions, w) && Quiescent(w) && Represents(w, mapOf, unbox, storages) && a in storages
    ensures forall x: nat :: x in storages[a] <==> exists k: Id :: WrittenAt(actions, w, mapOf[a], x, k)
    ensures forall x: nat, k: Id | WrittenAt(actions, w, mapOf[a], x, k) ::
              x in storages[a] && storages[a][x] == unbox(Replay.Written(actions)[(k, mapOf[a])])
  {
    Replay.RunMeans(actions, w);
    StorageIsSpec(w, mapOf, unbox, storages, a);
    forall x: nat, k: Id ensures EntryOf(w, mapOf[a], x, k) <==> WrittenAt(actions, w, mapOf[a], x, k) {
      SpecIsWrittenAt(actions, w, mapOf[a], x, k);
    }
  }

  /** A key that dies takes its address out of every storage: the effect of `Runtime.DropSlot` for the last slot. */
  lemma DropMatches(w: State, w': State, mapOf: map<nat, Id>, unbox: Value -> Erased,
                    storages: map<nat, map<nat, Erased>>, k: Id)
    requires Represents(w, mapOf, unbox, storages) && forall a | a in mapOf :: AtRest(w, w', mapOf[a])
    requires k < |w.nodes| && w.nodes[k].kind.Key? && w.nodes[k].phase.Live? && w'.spec == Without(w.spec, k)
    ensures Represents(w', mapOf, unbox, map a | a in storages :: storages[a] - {w.nodes[k].addr})
  {
    var addr := w.nodes[k].addr;
    forall a | a in mapOf
      ensures LiveMap(w', mapOf[a]) && storages[a] - {addr} == Unboxed(Entries(w', mapOf[a]), unbox)
    {
      DropEntries(w, w', mapOf[a], k);
    }
  }

  /** A value written for key `k` by one actor: the effect of `Runtime.Put`. */
  lemma InsertMatches(w: State, w': State, mapOf: map<nat, Id>, unbox: Value -> Erased,
                      storages: map<nat, map<nat, Erased>>, k: Id, x: Id, v: Value)
    requires Represents(w, mapOf, unbox, storages) && forall a | a in mapOf :: AtRest(w, w', mapOf[a])
    requires k < |w.nodes| && w.nodes[k].phase.Live? && w'.spec == w.spec[(k, x) := v]
    ensures Represents(w', mapOf, unbox, Written(storages, mapOf, x, w.nodes[k].addr, unbox(v)))
  {
    var s' := Written(storages, mapOf, x, w.nodes[k].addr, unbox(v));
    forall a | a in mapOf ensures LiveMap(w', mapOf[a]) && s'[a] == Unboxed(Entries(w', mapOf[a]), unbox) {
      InsertEntries(w, w', mapOf[a], k, x, v);
    }
  }

  ghost function Written(storages: map<nat, map<nat, Erased>>, mapOf: map<nat, Id>, x: Id, addr: nat, v: Erased):
    (r: map<nat, map<nat, Erased>>)
    requires storages.Keys == mapOf.Keys
  {
    map a: nat | a in storages :: if mapOf[a] == x then storages[a][addr := v] else storages[a]
  }

  /** A value removed for key `k` by one actor: the effect of `Runtime.Remove`. */
  lemma RemoveMatches(w: State, w': State, mapOf: map<nat, Id>, unbox: Value -> Erased,
                      storages: map<nat, map<nat, Erased>>, k: Id, x: Id)
    requires Represents(w, mapOf, unbox, storages) && forall a | a in mapOf :: AtRest(w, w', mapOf[a])
    requires k < |w.nodes| && w.nodes[k].phase.Live? && w'.spec == w.spec - {(k, x)}
    ensures Represents(w', mapOf, unbox, map a | a in storages ::
              if mapOf[a] == x then storages[a] - {w.nodes[k].addr} else storages[a])
  {
    var addr := w.nodes[k].addr;
    forall a | a in mapOf
      ensures LiveMap(w', mapOf[a])
      ensures (if mapOf[a] == x then storages[a] - {addr} else storages[a]) == Unboxed(Entries(w', mapOf[a]), unbox)
    {
      RemoveEntries(w, w', mapOf[a], k, x);
    }
  }
}
