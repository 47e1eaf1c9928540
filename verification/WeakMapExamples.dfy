/** Reachable states in which nesting goes wrong. */
module WeakMapExamples {
  import opened Options
  import opened WeakMapModel
  import opened WeakMapInvariant
  import opened WeakMapTheorems
  import opened WeakMapNesting
  import opened WeakMapDrops

  // ---------------------------------------------------------------------------------------------
  // Building blocks
  // ---------------------------------------------------------------------------------------------

  function NewNode(kind: Kind, addr: Addr): Node {
    Node(kind, addr, {Handle(0)}, Live, map[], None)
  }

  lemma AddNode(s: State, kind: Kind, addr: Addr) returns (s': State)
    requires Reachable(s) && Fresh(s, addr)
    ensures Reachable(s') && s' == s.(nodes := s.nodes + [NewNode(kind, addr)])
  {
    s' := s.(nodes := s.nodes + [NewNode(kind, addr)]);
    ReachableNext(s, New(kind, addr), s');
  }

  /** Keys 0, 1 and 4, maps 2 and 3, two threads, nothing stored. */
  function Start(): State {
    State([NewNode(Key, 0), NewNode(Key, 1), NewNode(Map, 2), NewNode(Map, 3), NewNode(Key, 4)], [[], []], map[])
  }

  lemma StartIsReachable()
    ensures Reachable(Start())
  {
    var s0 := State([], [[], []], map[]);
    LeadsHere(s0);
    assert Init(s0) && Reachable(s0);
    var s1 := AddNode(s0, Key, 0);
    var s2 := AddNode(s1, Key, 1);
    var s3 := AddNode(s2, Map, 2);
    var s4 := AddNode(s3, Map, 3);
    var s5 := AddNode(s4, Key, 4);
  }

  lemma Calls(s: State, t: Tid, k: Id, m: Id) returns (s': State)
    requires Reachable(s) && CanBeginEntry(s, t, k, m)
    ensures Reachable(s') && s' == Push(s, t, Enter(k, m))
  {
    s' := Push(s, t, Enter(k, m));
    ReachableNext(s, BeginEntry(t, k, m), s');
  }

  /** `t` gets an `Entry` of an unlocked map. */
  lemma Takes(s: State, t: Tid, k: Id, m: Id) returns (s': State)
    requires Reachable(s) && CanBeginEntry(s, t, k, m) && s.nodes[m].lock.None?
    ensures Reachable(s') && s'.spec == s.spec
    ensures s'.stacks == s.stacks[t := s.stacks[t] + [Guard(k, m)]]
    ensures s'.nodes == s.nodes[m := s.nodes[m].(lock := Some(Owner(t, |s.stacks[t]|)))]
  {
    var s1 := Calls(s, t, k, m);
    s' := StepLockEntries(s1, t);
    ReachableNext(s1, LockEntries(t), s');
    assert s.stacks[t] + [Guard(k, m)] == (s.stacks[t] + [Enter(k, m)])[|s.stacks[t]| := Guard(k, m)];
    assert s'.stacks == s.stacks[t := s.stacks[t] + [Guard(k, m)]];
  }

  /** A thread that holds just a vacant `Entry` registers its map with the key. */
  lemma Registers(s: State, t: Tid, k: Id, m: Id, v: Value) returns (s': State)
    requires Reachable(s) && ValidPair(s, k, m) && t < |s.stacks| && s.stacks[t] == [Guard(k, m)]
    requires s.nodes[k].lock.None? && s.nodes[k].addr !in s.nodes[m].table
    ensures Reachable(s') && s'.stacks == s.stacks[t := [Store(k, m, v)]] && s'.spec == s.spec
    ensures s'.nodes == s.nodes[k := s.nodes[k].(table := s.nodes[k].table[s.nodes[m].addr := Slot(m, 0)])]
  {
    var s1 := StepBeginInsert(s, t, v);
    ReachableNext(s, BeginInsert(t, v), s1);
    assert [Guard(k, m)][0 := Register(k, m, v)] == [Register(k, m, v)];
    assert [Register(k, m, v)][0 := Registering(k, m, v)] == [Registering(k, m, v)];
    assert [Registering(k, m, v)][0 := Store(k, m, v)] == [Store(k, m, v)];
    s' := LockedRegisters(s1, t, k, m, v);
  }

  lemma LockedRegisters(s: State, t: Tid, k: Id, m: Id, v: Value) returns (s': State)
    requires Reachable(s) && ValidPair(s, k, m) && t < |s.stacks| && s.stacks[t] == [Register(k, m, v)]
    requires s.nodes[k].lock.None?
    ensures Reachable(s') && s'.stacks == s.stacks[t := [Store(k, m, v)]] && s'.spec == s.spec
    ensures s'.nodes == s.nodes[k := s.nodes[k].(table := s.nodes[k].table[s.nodes[m].addr := Slot(m, 0)])]
  {
    assert [Register(k, m, v)][0 := Registering(k, m, v)] == [Registering(k, m, v)];
    assert [Registering(k, m, v)][0 := Store(k, m, v)] == [Store(k, m, v)];
    var s1 := StepLockForRegister(s, t);
    ReachableNext(s, LockForRegister(t), s1);
    s' := StepDoRegister(s1, t);
    ReachableNext(s1, DoRegister(t), s');
  }

  /** It stores the value and lets go of the `Entry`. */
  lemma Stores(s: State, t: Tid, k: Id, m: Id, v: Value) returns (s': State)
    requires Reachable(s) && ValidPair(s, k, m) && t < |s.stacks| && s.stacks[t] == [Store(k, m, v)]
    ensures Reachable(s') && s'.stacks == s.stacks[t := []] && s'.spec == s.spec[(k, m) := v]
    ensures s'.nodes ==
            s.nodes[m := s.nodes[m].(table := s.nodes[m].table[s.nodes[k].addr := Slot(k, v)], lock := None)]
  {
    assert [Store(k, m, v)][0 := Guard(k, m)] == [Guard(k, m)] && [Guard(k, m)][..0] == [];
    var s1 := StepDoStore(s, t);
    ReachableNext(s, DoStore(t), s1);
    s' := StepClose(s1, t);
    ReachableNext(s1, Close(t), s');
  }

  /** An idle thread inserts `v` for key `k` into map `m`. */
  lemma Inserts(s: State, t: Tid, k: Id, m: Id, v: Value) returns (s': State)
    requires Reachable(s) && CanBeginEntry(s, t, k, m) && s.stacks[t] == []
    requires s.nodes[m].lock.None? && s.nodes[k].lock.None? && s.nodes[k].addr !in s.nodes[m].table
    ensures Reachable(s') && s'.stacks == s.stacks && s'.spec == s.spec[(k, m) := v]
    ensures s'.nodes == s.nodes[k := s.nodes[k].(table := s.nodes[k].table[s.nodes[m].addr := Slot(m, 0)])]
                               [m := s.nodes[m].(table := s.nodes[m].table[s.nodes[k].addr := Slot(k, v)])]
  {
    var s1 := Takes(s, t, k, m);
    assert [] + [Guard(k, m)] == [Guard(k, m)];
    var s2 := Registers(s1, t, k, m, v);
    s' := Stores(s2, t, k, m, v);
    assert s'.stacks == s.stacks;
  }

  // ---------------------------------------------------------------------------------------------
  // A second entry
  // ---------------------------------------------------------------------------------------------

  function Held(addr: Addr, t: Tid): Node {
    NewNode(Map, addr).(lock := Some(Owner(t, 0)))
  }

  /** Thread 0 holds an `Entry` of map 2 and thread 1 one of map 3, if `both`; `f` and `g` are what they do next. */
  function Holding(both: bool, f: seq<Frame>, g: seq<Frame>): State {
    State([NewNode(Key, 0), NewNode(Key, 1), Held(2, 0), if both then Held(3, 1) else NewNode(Map, 3), NewNode(Key, 4)],
          [[Guard(0, 2)] + f, (if both then [Guard(1, 3)] else []) + g], map[])
  }

  lemma OneHolds()
    ensures Reachable(Holding(false, [], []))
  {
    StartIsReachable();
    var s := Takes(Start(), 0, 0, 2);
    var none: seq<Frame> := [];
    assert [] + [Guard(0, 2)] == [Guard(0, 2)] + [] && none + none == none;
    assert s.nodes == Holding(false, [], []).nodes;
    assert s.stacks == Holding(false, [], []).stacks;
  }

  /** One thread: it asks for a second `Entry` of a map it holds one of, and hangs. */
  lemma SecondEntryExample()
    ensures var s := Holding(false, [Enter(1, 2)], []); Reachable(s) && Deadlocked(s, {0})
  {
    OneHolds();
    var s := Calls(Holding(false, [], []), 0, 1, 2);
    assert [Guard(0, 2)] + [] + [Enter(1, 2)] == [Guard(0, 2)] + [Enter(1, 2)];
    assert s.stacks == Holding(false, [Enter(1, 2)], []).stacks;
    assert BlockedOn(s, 0, 0);
  }

  lemma TwoHold()
    ensures Reachable(Holding(true, [], []))
  {
    OneHolds();
    var s := Takes(Holding(false, [], []), 1, 1, 3);
    assert [] + [] + [Guard(1, 3)] == [Guard(1, 3)] + [];
    assert s.nodes == Holding(true, [], []).nodes;
    assert s.stacks == Holding(true, [], []).stacks;
  }

  /** Two threads: each holds an `Entry` of one map and asks for the other's, and both hang. */
  lemma CrossedEntriesExample()
    ensures var s := Holding(true, [Enter(0, 3)], [Enter(1, 2)]); Reachable(s) && Deadlocked(s, {0, 1})
  {
    TwoHold();
    FirstCrosses();
    SecondCrosses();
    CrossedBlock();
  }

  lemma FirstCrosses()
    requires Reachable(Holding(true, [], []))
    ensures Reachable(Holding(true, [Enter(0, 3)], []))
  {
    var s := Calls(Holding(true, [], []), 0, 0, 3);
    assert [Guard(0, 2)] + [] + [Enter(0, 3)] == [Guard(0, 2)] + [Enter(0, 3)];
    assert s.stacks == Holding(true, [Enter(0, 3)], []).stacks;
  }

  lemma SecondCrosses()
    requires Reachable(Holding(true, [Enter(0, 3)], []))
    ensures Reachable(Holding(true, [Enter(0, 3)], [Enter(1, 2)]))
  {
    var s := Calls(Holding(true, [Enter(0, 3)], []), 1, 1, 2);
    assert [Guard(1, 3)] + [] + [Enter(1, 2)] == [Guard(1, 3)] + [Enter(1, 2)];
    assert s.stacks == Holding(true, [Enter(0, 3)], [Enter(1, 2)]).stacks;
  }

  lemma CrossedBlock()
    ensures Deadlocked(Holding(true, [Enter(0, 3)], [Enter(1, 2)]), {0, 1})
  {
    var s := Holding(true, [Enter(0, 3)], [Enter(1, 2)]);
    assert BlockedOn(s, 0, 1) && BlockedOn(s, 1, 0);
  }

  // ---------------------------------------------------------------------------------------------
  // Dropping a key under an Entry
  // ---------------------------------------------------------------------------------------------

  /** Map 2 stores key 4, map 3 stores keys 1 and 4; thread 0 is at `st`, and map 2 is locked as `lock` says. */
  function Stored(st: seq<Frame>, lock: Option<Owner>): State {
    State([NewNode(Key, 0),
           NewNode(Key, 1).(table := map[3 := Slot(3, 0)]),
           NewNode(Map, 2).(table := map[4 := Slot(4, 7)], lock := lock),
           NewNode(Map, 3).(table := map[1 := Slot(1, 7), 4 := Slot(4, 7)]),
           NewNode(Key, 4).(table := map[3 := Slot(3, 0), 2 := Slot(2, 0)])],
          [st, []], map[(1, 3) := 7, (4, 3) := 7, (4, 2) := 7])
  }

  lemma StoredIsReachable()
    ensures Reachable(Stored([], None))
  {
    StartIsReachable();
    var s1 := Inserts(Start(), 0, 1, 3, 7);
    var s2 := Inserts(s1, 0, 4, 3, 7);
    var s3 := Inserts(s2, 0, 4, 2, 7);
    assert s3.nodes == Stored([], None).nodes;
    assert s3 == Stored([], None);
  }

  /** Thread 0 holds an `Entry` of key 0 in map 2. */
  function Holder(): State {
    Stored([Guard(0, 2)], Some(Owner(0, 0)))
  }

  lemma HolderIsReachable()
    ensures Reachable(Holder())
  {
    StoredIsReachable();
    var s := Takes(Stored([], None), 0, 0, 2);
    assert [] + [Guard(0, 2)] == [Guard(0, 2)];
    assert s.nodes == Holder().nodes && s.stacks == Holder().stacks;
  }

  lemma HolderFacts(o: Id)
    requires o == 1 || o == 4
    ensures HoldsEntry(Holder(), 0, 2) && CanDropHandle(Holder(), 0, o, 0) && Holder().nodes[o].refs == {Handle(0)}
    ensures forall m: Id | HoldsEntry(Holder(), 0, m) :: m == 2
  {
    var s := Holder();
    assert s.stacks[0][0] == Guard(0, 2);
    assert forall t, i | 0 <= t < |s.stacks| && 0 <= i < |s.stacks[t]| :: s.stacks[t][i] == Guard(0, 2);
    assert !Borrowed(s, o);
  }

  /** One thread: it holds an `Entry` of map 2 and drops the last reference of key 4, which map 2 stores; it hangs. */
  lemma DropUnderEntryExample()
    ensures Reachable(Holder()) && CanDropHandle(Holder(), 0, 4, 0)
    ensures forall s' | Leads(Release(Holder(), 0, 4, Handle(0)), s') :: |s'.stacks| > 0 && |s'.stacks[0]| > 1
  {
    HolderIsReachable();
    HolderFacts(4);
    DropUnderEntryHangs(Holder(), 0, 4, 0, Release(Holder(), 0, 4, Handle(0)), 2);
  }

  // ---------------------------------------------------------------------------------------------
  // Destructors nested in the dropped key's
  // ---------------------------------------------------------------------------------------------

  /** `t` starts to destroy `o`, which refers just to `p`; `p` has one reference and no lock, and `u` is idle. */
  ghost predicate CanCascade(s: State, t: Tid, u: Tid, o: Id, p: Id) {
    && AtTop(s, t) && Top(s, t) == DropStart(o) && s.nodes[o].lock.None? && u < |s.stacks| && u != t
         && s.stacks[u] == []
    && p < |s.nodes| && p != o && s.nodes[p].kind != s.nodes[o].kind && s.nodes[p].phase.Live?
    && s.nodes[p].refs == {Handle(0)} && s.nodes[p].lock.None? && !Borrowed(s, p)
    && s.nodes[o].table.Keys == {s.nodes[p].addr} && s.nodes[o].table[s.nodes[p].addr].peer == p
  }

  lemma SetTopTwice(s: State, t: Tid, f: Frame, g: Frame)
    requires Busy(s, t)
    ensures SetTop(SetTop(s, t, f), t, g).stacks == SetTop(s, t, g).stacks
  {
    var st := s.stacks[t];
    assert st[|st| - 1 := f][|st| - 1 := g] == st[|st| - 1 := g];
  }

  /** `t` visits `p`. */
  lemma CascadeVisits(s: State, t: Tid, u: Tid, o: Id, p: Id) returns (s': State)
    requires CanCascade(s, t, u, o, p)
    ensures Leads(s, s') && s'.spec == s.spec && Busy(s, t) && s'.stacks == SetTop(s, t, PeerWait(o, {}, p)).stacks
    ensures s'.nodes ==
            s.nodes[o := s.nodes[o].(lock := Some(Me(s, t)))][p := s.nodes[p].(refs := {Handle(0), Temp(t)})]
  {
    var a, todo := s.nodes[p].addr, s.nodes[o].table.Keys;
    var s1 := StepLockOwn(s, t);
    LeadsHere(s);
    LeadsNext(s, s, LockOwn(t), s1);
    s' := StepVisit(s1, t, a);
    LeadsNext(s, s1, Visit(t, a), s');
    assert todo - {a} == {} && {Handle(0)} + {Temp(t)} == {Handle(0), Temp(t)};
    SetTopTwice(s, t, DropLoop(o, todo), PeerWait(o, {}, p));
  }

  /** Meanwhile `u` drops the handle of `p`, so that `t`'s temporary reference is the last. */
  lemma CascadeDrops(s: State, t: Tid, u: Tid, p: Id) returns (s': State)
    requires t != u && p < |s.nodes| && u < |s.stacks| && s.stacks[u] == [] && !Borrowed(s, p)
    requires s.nodes[p].refs == {Handle(0), Temp(t)}
    ensures Leads(s, s') && s' == s.(nodes := s.nodes[p := s.nodes[p].(refs := {Temp(t)})])
  {
    s' := Release(s, u, p, Handle(0));
    assert {Handle(0), Temp(t)} - {Handle(0)} == {Temp(t)};
    LeadsHere(s);
    LeadsNext(s, s, DropHandle(u, p, 0), s');
  }

  /** `t` takes `o` out of `p`'s table. */
  lemma CascadeRemoves(s: State, t: Tid, o: Id, p: Id) returns (s': State)
    requires AtTop(s, t) && Top(s, t) == PeerWait(o, {}, p) && s.nodes[p].lock.None? && p != o
    ensures Leads(s, s') && s'.spec == s.spec && s'.stacks == SetTop(s, t, PeerRelease(o, {}, p)).stacks
    ensures s'.nodes == s.nodes[p := s.nodes[p].(table := s.nodes[p].table - {s.nodes[o].addr})]
  {
    var s1 := StepLockPeer(s, t);
    LeadsHere(s);
    LeadsNext(s, s, LockPeer(t), s1);
    s' := StepRemoveFromPeer(s1, t);
    LeadsNext(s, s1, RemoveFromPeer(t), s');
    SetTopTwice(s, t, PeerLocked(o, {}, p), PeerRelease(o, {}, p));
  }

  /** The destructor of `p` on top of that of `o`, which has nothing left to visit. */
  function Nested(st: seq<Frame>, o: Id, p: Id): seq<Frame>
    requires st != []
  {
    st[|st| - 1 := DropLoop(o, {})] + [DropStart(p)]
  }

  lemma NestedAfter(s: State, s': State, t: Tid, f: Frame, o: Id, p: Id)
    requires Busy(s, t) && s'.stacks == SetTop(s, t, f).stacks
    ensures Busy(s', t) && s'.stacks[t := Nested(s'.stacks[t], o, p)] == s.stacks[t := Nested(s.stacks[t], o, p)]
  {
    var st := s.stacks[t];
    assert st[|st| - 1 := f][|st| - 1 := DropLoop(o, {})] == st[|st| - 1 := DropLoop(o, {})];
  }

  /** `t` lets go of `p`, and starts to destroy it. */
  lemma CascadeReleases(s: State, t: Tid, o: Id, p: Id) returns (s': State)
    requires AtTop(s, t) && Top(s, t) == PeerRelease(o, {}, p) && s.nodes[p].refs == {Temp(t)}
    ensures Leads(s, s') && s'.spec == Without(s.spec, p)
    ensures s'.stacks == s.stacks[t := Nested(s.stacks[t], o, p)]
    ensures s'.nodes == s.nodes[p := s.nodes[p].(refs := {}, phase := Phase.Dropping(t, |s.stacks[t]|))]
  {
    s' := StepReleasePeer(s, t);
    assert {Temp(t)} - {Temp(t)} == {};
    LeadsHere(s);
    LeadsNext(s, s, ReleasePeer(t), s');
  }

  lemma SameBorrows(s: State, s': State, t: Tid, f: Frame, x: Id)
    requires Busy(s, t) && !Borrowed(s, x) && f.IsDrop() && s'.stacks == SetTop(s, t, f).stacks
    ensures !Borrowed(s', x)
  {
  }

  /** The visit, and the drop of the handle in between. */
  lemma CascadeBegins(s: State, t: Tid, u: Tid, o: Id, p: Id) returns (s': State)
    requires CanCascade(s, t, u, o, p)
    ensures Leads(s, s') && s'.spec == s.spec && Busy(s, t) && s'.stacks == SetTop(s, t, PeerWait(o, {}, p)).stacks
    ensures s'.nodes == s.nodes[o := s.nodes[o].(lock := Some(Me(s, t)))][p := s.nodes[p].(refs := {Temp(t)})]
  {
    var s1 := CascadeVisits(s, t, u, o, p);
    SameBorrows(s, s1, t, PeerWait(o, {}, p), p);
    s' := CascadeDrops(s1, t, u, p);
    LeadsBoth(s, s1, s');
  }

  /** The removal, and the start of the nested destructor. */
  lemma CascadeEnds(s: State, t: Tid, o: Id, p: Id) returns (s': State)
    requires AtTop(s, t) && Top(s, t) == PeerWait(o, {}, p) && s.nodes[p].lock.None? && p != o
    requires s.nodes[p].refs == {Temp(t)}
    ensures Leads(s, s') && s'.spec == Without(s.spec, p)
    ensures s'.stacks == s.stacks[t := Nested(s.stacks[t], o, p)]
    ensures s'.nodes == s.nodes[p := s.nodes[p].(refs := {}, phase := Phase.Dropping(t, |s.stacks[t]|),
                                                 table := s.nodes[p].table - {s.nodes[o].addr})]
  {
    var s1 := CascadeRemoves(s, t, o, p);
    s' := CascadeReleases(s1, t, o, p);
    NestedAfter(s, s1, t, PeerRelease(o, {}, p), o, p);
    LeadsBoth(s, s1, s');
  }

  /** Destroying `o` ends in destroying `p`, nested in it, because `u` drops the handle of `p` in between. */
  lemma Cascades(s: State, t: Tid, u: Tid, o: Id, p: Id) returns (s': State)
    requires CanCascade(s, t, u, o, p)
    ensures Leads(s, s') && s'.spec == Without(s.spec, p) && Busy(s, t)
    ensures s'.stacks == s.stacks[t := Nested(s.stacks[t], o, p)]
    ensures s'.nodes == s.nodes[o := s.nodes[o].(lock := Some(Me(s, t)))]
                               [p := s.nodes[p].(refs := {}, phase := Phase.Dropping(t, |s.stacks[t]|),
                                                 table := s.nodes[p].table - {s.nodes[o].addr})]
  {
    var s1 := CascadeBegins(s, t, u, o, p);
    s' := CascadeEnds(s1, t, o, p);
    NestedAfter(s, s1, t, PeerWait(o, {}, p), o, p);
    LeadsBoth(s, s1, s');
  }

  /** `Holder` after thread 0 has dropped the last reference of key 1. */
  function Dropped1(): State {
    Release(Holder(), 0, 1, Handle(0))
  }

  lemma FirstCascade() returns (s: State)
    ensures Leads(Dropped1(), s)
    ensures s.stacks == [[Guard(0, 2), DropLoop(1, {}), DropStart(3)], []]
    ensures s.nodes == [NewNode(Key, 0),
                        Node(Key, 1, {}, Phase.Dropping(0, 1), map[3 := Slot(3, 0)], Some(Owner(0, 1))),
                        NewNode(Map, 2).(table := map[4 := Slot(4, 7)], lock := Some(Owner(0, 0))),
                        Node(Map, 3, {}, Phase.Dropping(0, 2), map[4 := Slot(4, 7)], None),
                        NewNode(Key, 4).(table := map[3 := Slot(3, 0), 2 := Slot(2, 0)])]
  {
    var d := Dropped1();
    Dropped1Shape();
    s := Cascades(d, 0, 1, 1, 3);
    assert Nested([Guard(0, 2), DropStart(1)], 1, 3) == [Guard(0, 2), DropLoop(1, {}), DropStart(3)];
    assert map[1 := Slot(1, 7), 4 := Slot(4, 7)] - {1} == map[4 := Slot(4, 7)];
  }

  lemma Dropped1Shape()
    ensures Dropped1().stacks == [[Guard(0, 2), DropStart(1)], []]
    ensures Dropped1().nodes == Holder().nodes[1 := Holder().nodes[1].(refs := {}, phase := Phase.Dropping(0, 1))]
    ensures CanCascade(Dropped1(), 0, 1, 1, 3)
  {
    HolderFacts(1);
    LastDropStarts(Holder(), 0, 1, 0);
    assert [Guard(0, 2)] + [DropStart(1)] == [Guard(0, 2), DropStart(1)];
    var d := Dropped1();
    assert d.stacks == [[Guard(0, 2), DropStart(1)], []];
    assert d.nodes[1].table.Keys == {3};
  }

  lemma SecondCascade(s: State) returns (s': State)
    requires s.stacks == [[Guard(0, 2), DropLoop(1, {}), DropStart(3)], []] && |s.nodes| == 5
    requires s.nodes[2].phase.Live? && s.nodes[2].kind.Map? && s.nodes[2].addr == 2
    requires s.nodes[3] == Node(Map, 3, {}, Phase.Dropping(0, 2), map[4 := Slot(4, 7)], None)
    requires s.nodes[4] == NewNode(Key, 4).(table := map[3 := Slot(3, 0), 2 := Slot(2, 0)])
    ensures Leads(s, s') && s'.stacks == [[Guard(0, 2), DropLoop(1, {}), DropLoop(3, {}), DropStart(4)], []]
    ensures |s'.nodes| == 5 && s'.nodes[2] == s.nodes[2] && s'.nodes[4].lock.None? && s'.nodes[4].kind.Key?
    ensures Linked(s'.nodes, 4, 2)
  {
    assert s.nodes[3].table.Keys == {4};
    assert !Borrowed(s, 4);
    s' := Cascades(s, 0, 1, 3, 4);
    assert Nested(s.stacks[0], 3, 4) == [Guard(0, 2), DropLoop(1, {}), DropLoop(3, {}), DropStart(4)];
    assert 2 in s'.nodes[4].table;
  }

  /**
   Two threads, of which only thread 0 ever holds an `Entry`, of map 2. It drops the last reference of key 1, which map
   2 does not store. In the run below thread 1 drops map 3 and key 4 while thread 0 visits them, so that thread 0 comes
   to destroy key 4, which map 2 stores, and hangs.
   */
  lemma NestedDropExample() returns (s: State)
    ensures Reachable(Holder()) && CanDropHandle(Holder(), 0, 1, 0) && Holder().nodes[1].refs == {Handle(0)}
    ensures StoredInNoHeld(Holder(), 0, 1)
    ensures Leads(Release(Holder(), 0, 1, Handle(0)), s) && Deadlocked(s, {0}) && |s.stacks| == 2 && s.stacks[1] == []
  {
    HolderIsReachable();
    HolderFacts(1);
    ReachableNext(Holder(), DropHandle(0, 1, 0), Dropped1());
    var s1 := FirstCascade();
    var s2 := SecondCascade(s1);
    s := DropGoesFor(s2, 0, 4, 2);
    LeadsBoth(Dropped1(), s1, s2);
    LeadsBoth(Dropped1(), s2, s);
    ReachableLeads(Dropped1(), s);
    assert s.stacks[0][0] == Guard(0, 2);
    SecondEntryBlocks(s, 0, 2);
  }
}
