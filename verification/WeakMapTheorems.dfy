/** What every reachable state of the weak-map protocol guarantees. */
module WeakMapTheorems {
  import opened Options
  import opened WeakMapModel
  import opened WeakMapInvariant

  // ---------------------------------------------------------------------------------------------
  // Deadlock freedom
  // ---------------------------------------------------------------------------------------------

  /** The action is a step of thread `t`. */
  predicate ActionOf(a: Action, t: Tid) {
    !a.New? && !a.Clone? && !a.Free? && a.t == t
  }

  /** Steps that continue an operation already begun; the caller of an `Entry` lets go of it. */
  predicate Continues(a: Action) {
    || a.LockEntries? || a.LockForRegister? || a.DoRegister? || a.DoStore? || a.LockForUnregister?
    || a.DoUnregister? || a.Close? || a.LockOwn? || a.Visit? || a.LockPeer? || a.RemoveFromPeer?
    || a.ReleasePeer? || a.FinishDrop?
  }

  /** Thread `t` can continue the operation it is in. */
  ghost predicate CanStep(s: State, t: Tid) {
    exists a, s' :: ActionOf(a, t) && Continues(a) && Step(s, a, s')
  }

  /** The node whose lock the running frame of `t` is about to take. */
  function Wants(s: State, t: Tid): Option<Id>
    requires Busy(s, t)
  {
    match Top(s, t)
    case Enter(_, m) => Some(m)
    case Register(k, _, _) => Some(k)
    case Unregister(k, _) => Some(k)
    case DropStart(o) => Some(o)
    case PeerWait(_, _, p) => Some(p)
    case _ => None
  }

  predicate Blocked(s: State, t: Tid) {
    Busy(s, t) && Wants(s, t).Some? && Wants(s, t).value < |s.nodes| && s.nodes[Wants(s, t).value].lock.Some?
  }

  /** The thread that holds the lock `t` waits for. */
  function Blocker(s: State, t: Tid): Tid
    requires Blocked(s, t)
  {
    s.nodes[Wants(s, t).value].lock.value.t
  }

  /** `t` waits for a lock that `b` holds. */
  predicate BlockedOn(s: State, t: Tid, b: Tid) {
    Blocked(s, t) && Blocker(s, t) == b
  }

  /** A thread inside an operation can continue it unless it waits for a lock. */
  lemma RunsOrBlocked(s: State, t: Tid)
    requires Inv(s) && Busy(s, t)
    ensures CanStep(s, t) || Blocked(s, t)
  {
    TopFacts(s, t);
    if !Blocked(s, t) { FreeRuns(s, t); }
  }

  lemma FreeRuns(s: State, t: Tid)
    requires Pinned(s.nodes) && TopOk(s, t) && !Blocked(s, t)
    ensures CanStep(s, t)
  {
    var a, s' := NextAction(s, t);
  }

  /** An enabled action of a thread that waits for no taken lock. */
  lemma NextAction(s: State, t: Tid) returns (a: Action, s': State)
    requires Pinned(s.nodes) && TopOk(s, t) && (Wants(s, t).Some? ==> s.nodes[Wants(s, t).value].lock.None?)
    ensures ActionOf(a, t) && Continues(a) && Step(s, a, s')
  {
    if Top(s, t).IsDrop() { a, s' := NextDropAction(s, t); } else { a, s' := NextEntryAction(s, t); }
  }

  lemma NextEntryAction(s: State, t: Tid) returns (a: Action, s': State)
    requires TopOk(s, t) && !Top(s, t).IsDrop() && (Wants(s, t).Some? ==> s.nodes[Wants(s, t).value].lock.None?)
    ensures ActionOf(a, t) && Continues(a) && Step(s, a, s')
  {
    match Top(s, t)
    case Enter(_, _) => a, s' := LockEntries(t), StepLockEntries(s, t);
    case Guard(_, _) => a, s' := Close(t), StepClose(s, t);
    case Register(_, _, _) => a, s' := LockForRegister(t), StepLockForRegister(s, t);
    case Registering(_, _, _) => a, s' := DoRegister(t), StepDoRegister(s, t);
    case Store(_, _, _) => a, s' := DoStore(t), StepDoStore(s, t);
    case Unregister(_, _) => a, s' := LockForUnregister(t), StepLockForUnregister(s, t);
    case Unregistering(_, _) => a, s' := DoUnregister(t), StepDoUnregister(s, t);
    case Closing(_, _) => a, s' := Close(t), StepClose(s, t);
  }

  lemma NextDropAction(s: State, t: Tid) returns (a: Action, s': State)
    requires Pinned(s.nodes) && TopOk(s, t) && Top(s, t).IsDrop()
    requires Wants(s, t).Some? ==> s.nodes[Wants(s, t).value].lock.None?
    ensures ActionOf(a, t) && Continues(a) && Step(s, a, s')
  {
    match Top(s, t)
    case DropStart(_) => a, s' := LockOwn(t), StepLockOwn(s, t);
    case DropLoop(_, _) => a, s' := NextLoopAction(s, t);
    case PeerWait(_, _, _) => a, s' := LockPeer(t), StepLockPeer(s, t);
    case PeerLocked(_, _, _) => a, s' := RemoveFromPeer(t), StepRemoveFromPeer(s, t);
    case PeerRelease(_, _, _) => a, s' := ReleasePeer(t), StepReleasePeer(s, t);
  }

  lemma NextLoopAction(s: State, t: Tid) returns (a: Action, s': State)
    requires Pinned(s.nodes) && TopOk(s, t) && Top(s, t).DropLoop?
    ensures ActionOf(a, t) && Continues(a) && Step(s, a, s')
  {
    var o, todo := Top(s, t).o, Top(s, t).todo;
    if todo == {} {
      a, s' := FinishDrop(t), StepFinishDrop(s, t);
    } else {
      var b :| b in todo;
      assert PinnedSlot(s.nodes, o, b);
      a, s' := Visit(t, b), StepVisit(s, t, b);
    }
  }

  /** A lock that is waited for belongs to a live node: a dying node's own lock is free or its dropper's. */
  lemma WantedIsLive(s: State, t: Tid)
    requires NodesOk(s.nodes) && TopOk(s, t) && Blocked(s, t)
    ensures s.nodes[Wants(s, t).value].phase.Live? && !Top(s, t).DropStart?
  {
  }

  /** `t` holds an `Entry` of map `m` below its running frame. */
  ghost predicate HoldsBelow(s: State, t: Tid, m: Id) {
    t < |s.stacks| && exists i | 0 <= i < |s.stacks[t]| - 1 :: s.stacks[t][i].Guard? && s.stacks[t][i].m == m
  }

  /** `t` waits for the entries of map `m`. */
  predicate WaitsForMap(s: State, t: Tid, m: Id) {
    Busy(s, t) && (Top(s, t).Enter? || Top(s, t).PeerWait?) && Wants(s, t) == Some(m) && m < |s.nodes|
        && s.nodes[m].kind.Map?
  }

  /** `t` waits for the entries of one map while it holds an `Entry` of a map. */
  ghost predicate Nests(s: State, t: Tid) {
    exists m: Id, m': Id :: WaitsForMap(s, t, m) && HoldsBelow(s, t, m')
  }

  ghost predicate NoneNests(s: State) {
    forall u: Tid :: !Nests(s, u)
  }

  ghost predicate NoOtherNests(s: State, t: Tid) {
    forall u: Tid | u != t :: !Nests(s, u)
  }

  /** What the owner's frame, at index `i`, says about the thread `b` that holds the lock of `o`. */
  lemma HolderKinds(s: State, b: Tid, i: nat, o: Id)
    requires TopOk(s, b) && i < |s.stacks[b]| && FrameOk(s.nodes, b, s.stacks[b], i)
    requires o < |s.nodes| && HoldsLock(s.stacks[b][i], o) && Blocked(s, b) && !Top(s, b).DropStart?
    ensures s.nodes[o].kind.Map? && (s.nodes[Wants(s, b).value].kind.Key? || Nests(s, b))
  {
    if i < |s.stacks[b]| - 1 {
      assert HoldsBelow(s, b, o);
      assert s.nodes[Wants(s, b).value].kind.Map? ==> WaitsForMap(s, b, Wants(s, b).value);
    }
  }

  predicate WantsMap(s: State, t: Tid) {
    Blocked(s, t) && s.nodes[Wants(s, t).value].kind.Map?
  }

  /**
   The holder of an awaited lock is blocked itself only if it holds a map's entries, and wants a key's `maps` or
   nests.
   */
  ghost predicate WaitsOk(s: State, t: Tid) {
    Blocked(s, t) ==>
      && Busy(s, Blocker(s, t))
      && (Blocked(s, Blocker(s, t)) ==> WantsMap(s, t) && (!WantsMap(s, Blocker(s, t)) || Nests(s, Blocker(s, t))))
  }

  lemma BlockerHolds(s: State, t: Tid)
    requires Inv(s)
    ensures WaitsOk(s, t)
  {
    if Blocked(s, t) {
      TopFacts(s, t);
      WantedIsLive(s, t);
      var o, b := Wants(s, t).value, Blocker(s, t);
      var i := s.nodes[o].lock.value.i;
      assert HasFrame(s, Owner(b, i)) && HoldsLock(s.stacks[b][i], o);
      TopFacts(s, b);
      assert FrameOk(s.nodes, b, s.stacks[b], i);
      if Blocked(s, b) {
        WantedIsLive(s, b);
        HolderKinds(s, b, i, o);
      }
    }
  }

  /**
   Deadlock freedom: in every reachable state in which no thread waits for a map while it holds an `Entry`, a
   thread inside an operation can take a step, or it waits for a thread that can, or it waits for a thread
   that waits for a thread that can.
   */
  lemma DeadlockFree(s: State, t: Tid)
    requires Reachable(s) && Busy(s, t) && NoneNests(s)
    ensures
      || CanStep(s, t)
      || (exists b :: b != t && BlockedOn(s, t, b) && CanStep(s, b))
      || (exists b, c :: b != t && c != b && c != t && BlockedOn(s, t, b) && BlockedOn(s, b, c) && CanStep(s, c))
  {
    ReachableInv(s);
    AllWaitsOk(s);
    WaitChain(s, t);
  }

  ghost predicate AllOk(s: State) {
    forall t: Tid :: WaitsOk(s, t) && (Busy(s, t) ==> CanStep(s, t) || Blocked(s, t))
  }

  lemma AllWaitsOk(s: State)
    requires Inv(s)
    ensures AllOk(s)
  {
    forall t: Tid ensures WaitsOk(s, t) && (Busy(s, t) ==> CanStep(s, t) || Blocked(s, t)) {
      BlockerHolds(s, t);
      if Busy(s, t) { RunsOrBlocked(s, t); }
    }
  }

  lemma WaitChain(s: State, t: Tid)
    requires AllOk(s) && Busy(s, t) && NoneNests(s)
    ensures
      || CanStep(s, t)
      || (exists b :: b != t && BlockedOn(s, t, b) && CanStep(s, b))
      || (exists b, c :: b != t && c != b && c != t && BlockedOn(s, t, b) && BlockedOn(s, b, c) && CanStep(s, c))
  {
    if !CanStep(s, t) {
      var b := Blocker(s, t);
      assert WaitsOk(s, t) && BlockedOn(s, t, b);
      if !CanStep(s, b) {
        var c := Blocker(s, b);
        assert WaitsOk(s, b) && BlockedOn(s, b, c) && WaitsOk(s, c);
      }
    }
  }

  // ---------------------------------------------------------------------------------------------
  // Deadlock, exactly
  // ---------------------------------------------------------------------------------------------

  /** Every thread of `d` waits for a lock that a thread of `d` holds. */
  ghost predicate Deadlocked(s: State, d: set<Tid>) {
    d != {} && forall t: Tid | t in d :: Blocked(s, t) && Blocker(s, t) in d
  }

  ghost predicate AllNest(s: State, d: set<Tid>) {
    forall t: Tid | t in d :: Nests(s, t)
  }

  ghost predicate HasDeadlock(s: State) {
    exists d :: Deadlocked(s, d)
  }

  /** Within a deadlock, whoever is waited for nests. */
  lemma NestersDeadlock(s: State, d: set<Tid>) returns (n: set<Tid>)
    requires AllOk(s) && Deadlocked(s, d)
    ensures Deadlocked(s, n) && AllNest(s, n)
  {
    n := set t: Tid | t in d && Nests(s, t);
    forall t: Tid | t in d ensures Blocker(s, t) in n {
      var b := Blocker(s, t);
      assert WaitsOk(s, t) && WaitsOk(s, b);
    }
    var t :| t in d;
    assert Blocker(s, t) in n;
  }

  /** Some threads deadlock exactly when threads that nest deadlock among themselves. */
  lemma DeadlockIff(s: State)
    requires Reachable(s)
    ensures HasDeadlock(s) <==> exists d :: Deadlocked(s, d) && AllNest(s, d)
  {
    ReachableInv(s);
    AllWaitsOk(s);
    if d :| Deadlocked(s, d) { var n := NestersDeadlock(s, d); }
  }

  /** A thread waits for itself exactly when it wants a map whose `Entry` it holds. */
  lemma SelfBlockedIff(s: State, t: Tid)
    requires Inv(s)
    ensures BlockedOn(s, t, t) <==> exists m: Id :: WaitsForMap(s, t, m) && HoldsBelow(s, t, m)
  {
    if BlockedOn(s, t, t) {
      TopFacts(s, t);
      WantedIsLive(s, t);
      SelfBlockedHolds(s, t);
    }
    if m: Id :| WaitsForMap(s, t, m) && HoldsBelow(s, t, m) {
      var i :| 0 <= i < |s.stacks[t]| - 1 && s.stacks[t][i].Guard? && s.stacks[t][i].m == m;
      assert FrameOk(s.nodes, t, s.stacks[t], i);
    }
  }

  lemma SelfBlockedHolds(s: State, t: Tid)
    requires StacksOk(s) && LocksHeld(s) && TopOk(s, t) && BlockedOn(s, t, t)
    requires s.nodes[Wants(s, t).value].phase.Live? && !Top(s, t).DropStart?
    ensures WaitsForMap(s, t, Wants(s, t).value) && HoldsBelow(s, t, Wants(s, t).value)
  {
    var m := Wants(s, t).value;
    var i := s.nodes[m].lock.value.i;
    assert FrameOk(s.nodes, t, s.stacks[t], i) && HoldsLock(s.stacks[t][i], m);
    assert i != |s.stacks[t]| - 1;
    assert s.stacks[t][i].Guard? && s.stacks[t][i].m == m;
  }

  /** When only `t` may nest, there is a deadlock exactly when `t` waits for a map whose `Entry` it holds. */
  lemma DeadlockOfOneIff(s: State, t: Tid)
    requires Reachable(s) && NoOtherNests(s, t)
    ensures HasDeadlock(s) <==> exists m: Id :: WaitsForMap(s, t, m) && HoldsBelow(s, t, m)
  {
    ReachableInv(s);
    AllWaitsOk(s);
    SelfBlockedIff(s, t);
    if d :| Deadlocked(s, d) {
      var n := NestersDeadlock(s, d);
      var u :| u in n;
      assert u == t && Blocker(s, t) == t;
    }
    if BlockedOn(s, t, t) { assert Deadlocked(s, {t}); }
  }

  // ---------------------------------------------------------------------------------------------
  // The two-way index
  // ---------------------------------------------------------------------------------------------

  /** For a live key and a live map whose entries are unlocked, each side knows of the other or neither does. */
  lemma TwoWayIndex(s: State, k: Id, m: Id)
    requires Reachable(s) && LivePair(s, k, m) && s.nodes[m].lock.None?
    ensures s.nodes[k].addr in s.nodes[m].table <==> s.nodes[m].addr in s.nodes[k].table
  {
    ReachableInv(s);
    assert IndexPair(s, k, m);
    ByAddress(s, k, m);
    ByAddress(s, m, k);
  }

  /** Finding an unfreed node's address in a table means finding that node. */
  lemma ByAddress(s: State, x: Id, y: Id)
    requires Inv(s) && x < |s.nodes| && y < |s.nodes| && !s.nodes[y].phase.Freed?
    ensures s.nodes[y].addr in s.nodes[x].table <==> Linked(s.nodes, x, y)
  {
    if s.nodes[y].addr in s.nodes[x].table {
      assert PinnedSlot(s.nodes, x, s.nodes[y].addr);
    }
  }

  /**
   A dead key (or map) is found in a live map's entries (a live key's `maps`) only while its own drop
   loop is running and has that table still to visit.
   */
  lemma DeadOnlyWhileDropping(s: State, x: Id, a: Addr)
    requires Reachable(s) && x < |s.nodes| && s.nodes[x].phase.Live? && a in s.nodes[x].table
    ensures s.nodes[x].table[a].peer < |s.nodes|
    ensures var y := s.nodes[x].table[a].peer;
            s.nodes[y].phase.Live? ||
            (s.nodes[y].phase.Dropping? && RunningDrop(s, y)
             && Pending(s.stacks[s.nodes[y].phase.thread][s.nodes[y].phase.frame], x, s.nodes[x].addr))
  {
    ReachableInv(s);
    assert PinnedSlot(s.nodes, x, a);
    var y := s.nodes[x].table[a].peer;
    if !s.nodes[y].phase.Live? { assert DeadLinkOk(s, x, y); }
  }

  /** What `entry` reports under the lock, and the value it gives access to, is what `spec` says. */
  lemma EntryMatchesSpec(s: State, t: Tid)
    requires Reachable(s) && Busy(s, t) && Top(s, t).HoldsEntries()
    ensures AtTop(s, t)
    ensures Occupied(s, t) <==> (Top(s, t).k, Top(s, t).m) in s.spec
    ensures Occupied(s, t) ==>
            s.nodes[Top(s, t).m].table[s.nodes[Top(s, t).k].addr].value == s.spec[(Top(s, t).k, Top(s, t).m)]
  {
    ReachableInv(s);
    TopFacts(s, t);
    ByAddress(s, Top(s, t).m, Top(s, t).k);
  }

  ghost predicate Quiescent(s: State) {
    forall t | 0 <= t < |s.stacks| :: s.stacks[t] == []
  }

  /**
   When no operation is running, the entries of a live map are exactly the live keys inserted and not
   removed, with their values, and the registrations of a live key are exactly the maps it is in.
   */
  lemma QuiescentContents(s: State, k: Id, m: Id)
    requires Reachable(s) && Quiescent(s) && LivePair(s, k, m)
    ensures s.nodes[k].addr in s.nodes[m].table <==> (k, m) in s.spec
    ensures s.nodes[m].addr in s.nodes[k].table <==> (k, m) in s.spec
    ensures (k, m) in s.spec ==> s.nodes[m].table[s.nodes[k].addr] == Slot(k, s.spec[(k, m)])
  {
    ReachableInv(s);
    assert IndexPair(s, k, m);
    ByAddress(s, k, m);
    ByAddress(s, m, k);
    if (k, m) in s.spec { assert SpecEntryOk(s, (k, m).0, (k, m).1); }
  }

  /** When no operation is running, every slot refers to a live node and every dead node can be freed. */
  lemma QuiescentNoLeak(s: State, o: Id)
    requires Reachable(s) && Quiescent(s) && o < |s.nodes| && !s.nodes[o].phase.Live?
    ensures NoWeak(s, o) && (s.nodes[o].phase.Dropped? || s.nodes[o].phase.Freed?) && s.nodes[o].table == map[]
  {
    ReachableInv(s);
    assert s.nodes[o].phase.Dropping? ==> RunningDrop(s, o);
    forall x, a | 0 <= x < |s.nodes| && a in s.nodes[x].table ensures s.nodes[x].table[a].peer != o {
      assert s.nodes[x].phase.Dropping? ==> RunningDrop(s, x);
      DeadOnlyWhileDropping(s, x, a);
    }
  }

  // ---------------------------------------------------------------------------------------------
  // Address reuse
  // ---------------------------------------------------------------------------------------------

  /** A new key or map, whatever recycled address it gets, is in no table: it is vacant everywhere. */
  lemma FreshIsVacant(s: State, kind: Kind, addr: Addr, s': State, x: Id)
    requires Reachable(s) && Step(s, New(kind, addr), s') && x < |s'.nodes|
    ensures addr !in s'.nodes[x].table
    ensures (|s.nodes|, x) !in s'.spec && (x, |s.nodes|) !in s'.spec
  {
    ReachableInv(s);
    if x < |s.nodes| {
      forall a | a in s.nodes[x].table ensures !Fresh(s, a) { TabledIsTaken(s, x, a); }
    }
  }

  /** An address that keys a table is still taken by an allocation. */
  lemma TabledIsTaken(s: State, x: Id, a: Addr)
    requires Pinned(s.nodes) && x < |s.nodes| && a in s.nodes[x].table
    ensures !Fresh(s, a)
  {
    assert PinnedSlot(s.nodes, x, a);
  }

  /** At rest a destroyed allocation can be freed, and then a new key or map can be given its address. */
  lemma AddressIsReusable(s: State, o: Id, kind: Kind)
    requires Reachable(s) && Quiescent(s) && o < |s.nodes| && s.nodes[o].phase.Dropped?
    ensures exists s', s'' :: Step(s, Free(o), s') && Step(s', New(kind, s.nodes[o].addr), s'')
  {
    ReachableInv(s);
    QuiescentNoLeak(s, o);
    FreedIsFresh(s, o, kind);
  }

  lemma FreedIsFresh(s: State, o: Id, kind: Kind)
    requires AddrsUnique(s.nodes) && o < |s.nodes| && s.nodes[o].phase.Dropped? && NoWeak(s, o)
    ensures exists s', s'' :: Step(s, Free(o), s') && Step(s', New(kind, s.nodes[o].addr), s'')
  {
    var addr := s.nodes[o].addr;
    var s' := PutNode(s, o, s.nodes[o].(phase := Freed));
    assert Fresh(s', addr);
    var s'' := s'.(nodes := s'.nodes + [Node(kind, addr, {Handle(0)}, Live, map[], None)]);
    assert Step(s, Free(o), s') && Step(s', New(kind, addr), s'');
  }

  /**
   What the holder of an `Entry` may do with it: let go of it, and insert exactly into a vacant one, write and remove
   exactly in an occupied one.
   */
  lemma EntryOffers(s: State, t: Tid, v: Value)
    requires Reachable(s) && Busy(s, t) && Top(s, t).Guard?
    ensures AtTop(s, t) && exists s' :: Step(s, Close(t), s')
    ensures !Occupied(s, t) <==> exists s' :: Step(s, BeginInsert(t, v), s')
    ensures Occupied(s, t) <==> exists s' :: Step(s, Modify(t, v), s')
    ensures Occupied(s, t) <==> exists s' :: Step(s, TakeOut(t), s')
  {
    ReachableInv(s);
    TopFacts(s, t);
    GuardOffers(s, t, v);
  }

  lemma GuardOffers(s: State, t: Tid, v: Value)
    requires AtTop(s, t) && Top(s, t).Guard?
    ensures Step(s, Close(t), StepClose(s, t))
    ensures !Occupied(s, t) <==> exists s' :: Step(s, BeginInsert(t, v), s')
    ensures Occupied(s, t) <==> exists s' :: Step(s, Modify(t, v), s')
    ensures Occupied(s, t) <==> exists s' :: Step(s, TakeOut(t), s')
  {
    assert !Occupied(s, t) ==> Step(s, BeginInsert(t, v), StepBeginInsert(s, t, v));
    assert Occupied(s, t) ==> Step(s, Modify(t, v), StepModify(s, t, v)) && Step(s, TakeOut(t), StepTakeOut(s, t));
  }

  /** A caller that runs no operation may call `entry` with a key and a map it owns, and drop what is not borrowed. */
  lemma CallerMay(s: State, t: Tid, k: Id, m: Id, n: nat)
    requires t < |s.stacks| && (s.stacks[t] == [] || Top(s, t).Guard?)
    requires k < |s.nodes| && s.nodes[k].kind.Key? && Handle(n) in s.nodes[k].refs
    ensures m < |s.nodes| && s.nodes[m].kind.Map? && HasHandle(s.nodes[m]) ==>
              exists s' :: Step(s, BeginEntry(t, k, m), s')
    ensures !Borrowed(s, k) ==> exists s' :: Step(s, DropHandle(t, k, n), s')
    ensures forall n': nat | Handle(n') !in s.nodes[k].refs :: exists s' :: Step(s, Clone(k, n'), s')
  {
    assert HasHandle(s.nodes[k]);
    assert m < |s.nodes| && s.nodes[m].kind.Map? && HasHandle(s.nodes[m]) ==>
        Step(s, BeginEntry(t, k, m), Push(s, t, Enter(k, m)));
    assert !Borrowed(s, k) ==> Step(s, DropHandle(t, k, n), Release(s, t, k, Handle(n)));
    forall n': nat | Handle(n') !in s.nodes[k].refs ensures exists s' :: Step(s, Clone(k, n'), s') {
      var s' := PutNode(s, k, s.nodes[k].(refs := s.nodes[k].refs + {Handle(n')}));
      assert Step(s, Clone(k, n'), s');
    }
  }
}
