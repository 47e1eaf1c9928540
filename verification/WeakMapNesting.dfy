/**
 What happens when a thread calls `entry`, or drops a key, while it holds an `Entry`: a deadlock lasts for ever, a
 second `entry` on a held map never returns, and neither does the drop of a key that a held map stores.
 */
module WeakMapNesting {
  import opened Options
  import opened WeakMapModel
  import opened WeakMapInvariant
  import opened WeakMapTheorems

  // ---------------------------------------------------------------------------------------------
  // A deadlock is forever, and it is the only way to hang
  // ---------------------------------------------------------------------------------------------

  lemma OthersKept(s: State, a: Action, s': State, t: Tid)
    requires Step(s, a, s') && t < |s.stacks| && !ActionOf(a, t)
    ensures |s'.stacks| == |s.stacks| && s'.stacks[t] == s.stacks[t]
  {
  }

  /** The step is taken by frame `w`. */
  predicate ActionOfFrame(s: State, a: Action, w: Owner) {
    ActionOf(a, w.t) && w.t < |s.stacks| && w.i == |s.stacks[w.t]| - 1
  }

  /** A locked table is changed, and its lock released, by the owner's frame only. */
  lemma LockKept(s: State, a: Action, s': State, x: Id)
    requires Step(s, a, s') && x < |s.nodes| && s.nodes[x].lock.Some? && !ActionOfFrame(s, a, s.nodes[x].lock.value)
    requires ActorOk(s, a)
    ensures x < |s'.nodes| && s'.nodes[x].lock == s.nodes[x].lock && s'.nodes[x].table == s.nodes[x].table
    ensures s'.nodes[x].addr == s.nodes[x].addr
  {
    if IsDropAction(a) { LockKeptByDrop(s, a, s', x); }
  }

  lemma LockKeptByDrop(s: State, a: Action, s': State, x: Id)
    requires Step(s, a, s') && x < |s.nodes| && s.nodes[x].lock.Some? && !ActionOfFrame(s, a, s.nodes[x].lock.value)
    requires ActorOk(s, a) && IsDropAction(a)
    ensures x < |s'.nodes| && s'.nodes[x].lock == s.nodes[x].lock && s'.nodes[x].table == s.nodes[x].table
    ensures s'.nodes[x].addr == s.nodes[x].addr
  {
  }

  lemma BlockedCannotAct(s: State, a: Action, s': State, t: Tid)
    requires Step(s, a, s') && Blocked(s, t)
    ensures !ActionOf(a, t)
  {
  }

  ghost predicate ActorOk(s: State, a: Action) {
    !a.New? && !a.Clone? && !a.Free? && Busy(s, a.t) ==> TopOk(s, a.t)
  }

  /** A thread blocked by a blocked thread stays where it is. */
  lemma BlockedStays(s: State, a: Action, s': State, t: Tid)
    requires Step(s, a, s') && ActorOk(s, a) && Blocked(s, t) && Blocked(s, Blocker(s, t))
    ensures t < |s'.stacks| && s'.stacks[t] == s.stacks[t] && Blocked(s', t) && Blocker(s', t) == Blocker(s, t)
  {
    BlockedCannotAct(s, a, s', t);
    BlockedCannotAct(s, a, s', Blocker(s, t));
    OthersKept(s, a, s', t);
    LockKept(s, a, s', Wants(s, t).value);
    SameWait(s, s', t);
  }

  lemma SameWait(s: State, s': State, t: Tid)
    requires Blocked(s, t) && t < |s'.stacks| && s'.stacks[t] == s.stacks[t]
    requires Wants(s, t).value < |s'.nodes| && s'.nodes[Wants(s, t).value].lock == s.nodes[Wants(s, t).value].lock
    ensures Blocked(s', t) && Blocker(s', t) == Blocker(s, t)
  {
  }

  lemma DeadlockedStep(s: State, a: Action, s': State, d: set<Tid>)
    requires ActorOk(s, a) && Deadlocked(s, d) && Step(s, a, s')
    ensures Deadlocked(s', d) && forall t: Tid | t in d :: t < |s'.stacks| && s'.stacks[t] == s.stacks[t]
  {
    forall t: Tid | t in d
      ensures t < |s'.stacks| && s'.stacks[t] == s.stacks[t] && Blocked(s', t) && Blocker(s', t) in d
    {
      BlockedStays(s, a, s', t);
    }
  }

  lemma ActorIsOk(s: State, a: Action)
    requires Inv(s)
    ensures ActorOk(s, a)
  {
    if !a.New? && !a.Clone? && !a.Free? && Busy(s, a.t) { TopFacts(s, a.t); }
  }

  lemma DeadlockedNext(s: State, a: Action, s': State, d: set<Tid>)
    requires Inv(s) && Deadlocked(s, d) && Step(s, a, s')
    ensures Inv(s') && Deadlocked(s', d)
    ensures forall t: Tid | t in d :: t < |s'.stacks| && t < |s.stacks| && s'.stacks[t] == s.stacks[t]
  {
    InvStep(s, a, s');
    ActorIsOk(s, a);
    DeadlockedStep(s, a, s', d);
  }

  /** Whatever any thread does, the threads of a deadlock never move again. */
  lemma DeadlockedForever(s: State, s': State, d: set<Tid>)
    requires Reachable(s) && Deadlocked(s, d) && Leads(s, s')
    ensures Deadlocked(s', d)
    ensures forall t: Tid | t in d :: t < |s'.stacks| && t < |s.stacks| && s'.stacks[t] == s.stacks[t]
  {
    ReachableInv(s);
    var p := (r: State) => Inv(r) && Deadlocked(r, d) && StillAt(s, r, d);
    forall r, a, r' | p(r) && Step(r, a, r') ensures p(r') { DeadlockedNext(r, a, r', d); }
    KeptForever(p, s, s');
  }

  ghost predicate StillAt(s: State, r: State, d: set<Tid>) {
    forall t: Tid | t in d :: t < |r.stacks| && t < |s.stacks| && r.stacks[t] == s.stacks[t]
  }

  /** Following the waits from `t`, `n` times. */
  ghost function ChainAt(s: State, t: Tid, n: nat): Option<Tid> {
    if n == 0 then Some(t)
    else
      var u := ChainAt(s, t, n - 1);
      if u.Some? && Blocked(s, u.value) then Some(Blocker(s, u.value)) else None
  }

  ghost predicate WaitsFor(s: State, t: Tid, u: Tid) {
    exists n: nat :: ChainAt(s, t, n) == Some(u)
  }

  lemma ChainIsBusy(s: State, t: Tid, u: Tid)
    requires AllOk(s) && Busy(s, t) && WaitsFor(s, t, u)
    ensures Busy(s, u)
  {
    var n: nat :| ChainAt(s, t, n) == Some(u);
    if n > 0 { assert WaitsOk(s, ChainAt(s, t, n - 1).value); }
  }

  lemma ChainNext(s: State, t: Tid, u: Tid)
    requires WaitsFor(s, t, u) && Blocked(s, u)
    ensures WaitsFor(s, t, Blocker(s, u))
  {
    var n: nat :| ChainAt(s, t, n) == Some(u);
    assert ChainAt(s, t, n + 1) == Some(Blocker(s, u));
  }

  /** Without a deadlock, every thread inside an operation waits, directly or not, for one that can step. */
  lemma RunnerFor(s: State, t: Tid) returns (u: Tid)
    requires AllOk(s) && Busy(s, t) && !HasDeadlock(s)
    ensures WaitsFor(s, t, u) && CanStep(s, u)
  {
    var d := set v: Tid | v < |s.stacks| && WaitsFor(s, t, v);
    assert ChainAt(s, t, 0) == Some(t) && t in d;
    if u' :| u' in d && CanStep(s, u') {
      u := u';
    } else {
      forall v: Tid | v in d ensures Blocked(s, v) && Blocker(s, v) in d {
        ChainIsBusy(s, t, v);
        assert WaitsOk(s, v);
        ChainNext(s, t, v);
      }
      assert Deadlocked(s, d);
      assert false;
    }
  }

  // ---------------------------------------------------------------------------------------------
  // A second entry while one is held
  // ---------------------------------------------------------------------------------------------

  /** `t` holds an `Entry` of map `m`. */
  ghost predicate HoldsEntry(s: State, t: Tid, m: Id) {
    t < |s.stacks| && exists i | 0 <= i < |s.stacks[t]| :: s.stacks[t][i].Guard? && s.stacks[t][i].m == m
  }

  lemma EnterBelow(s: State, t: Tid, k: Id, m: Id, m': Id)
    requires t < |s.stacks|
    ensures HoldsBelow(Push(s, t, Enter(k, m)), t, m') <==> HoldsEntry(s, t, m')
  {
    var st, st' := s.stacks[t], Push(s, t, Enter(k, m)).stacks[t];
    if i :| 0 <= i < |st| && st[i].Guard? && st[i].m == m' { assert st'[i] == st[i]; }
    if i :| 0 <= i < |st'| - 1 && st'[i].Guard? && st'[i].m == m' { assert st'[i] == st[i]; }
  }

  /**
   A waiting thread deadlocks when it waits for a map it holds; otherwise, if only it nests, somebody it waits for
   can step.
   */
  lemma WaitEndsIff(s: State, t: Tid, m: Id)
    requires Reachable(s) && WaitsForMap(s, t, m) && NoOtherNests(s, t)
    ensures HasDeadlock(s) <==> HoldsBelow(s, t, m)
    ensures HoldsBelow(s, t, m) ==> Deadlocked(s, {t})
    ensures !HoldsBelow(s, t, m) ==> exists u :: WaitsFor(s, t, u) && CanStep(s, u)
  {
    DeadlockOfOneIff(s, t);
    ReachableInv(s);
    if HoldsBelow(s, t, m) {
      SelfBlockedIff(s, t);
      assert BlockedOn(s, t, t);
    } else {
      AllWaitsOk(s);
      var u := RunnerFor(s, t);
    }
  }

  /**
   `entry` called by a thread that may hold Entries already. If it holds one of the same map, the call never
   returns, whatever any thread does. If not, then as long as the call waits and no other thread nests, there
   is no deadlock and the thread waits for one that can step.
   */
  lemma SecondEntryOutcome(s: State, t: Tid, k: Id, m: Id, s': State, s'': State)
    requires Reachable(s) && Step(s, BeginEntry(t, k, m), s') && Leads(s', s'')
    ensures t < |s'.stacks| && t < |s''.stacks|
    ensures HoldsEntry(s, t, m) ==> s''.stacks[t] == s'.stacks[t] && Deadlocked(s'', {t})
    ensures !HoldsEntry(s, t, m) && s''.stacks[t] == s'.stacks[t] && NoOtherNests(s'', t)
            ==> !HasDeadlock(s'') && exists u :: WaitsFor(s'', t, u) && CanStep(s'', u)
  {
    ReachableNext(s, BeginEntry(t, k, m), s');
    GrowsAlong(s', s'');
    EnterBelow(s, t, k, m, m);
    if HoldsEntry(s, t, m) {
      SecondEntryBlocks(s', t, m);
      DeadlockedForever(s', s'', {t});
    } else if s''.stacks[t] == s'.stacks[t] && NoOtherNests(s'', t) {
      ReachableLeads(s', s'');
      WaitEndsIff(s'', t, m);
    }
  }

  lemma SecondEntryBlocks(s: State, t: Tid, m: Id)
    requires Reachable(s) && WaitsForMap(s, t, m) && HoldsBelow(s, t, m)
    ensures Deadlocked(s, {t})
  {
    ReachableInv(s);
    SelfBlockedIff(s, t);
    assert BlockedOn(s, t, t);
  }

  lemma ReachableLeads(s: State, s': State)
    requires Reachable(s) && Leads(s, s')
    ensures Reachable(s')
  {
    var p := (r: State) => Reachable(r);
    forall r, a, r' | p(r) && Step(r, a, r') ensures p(r') { ReachableNext(r, a, r'); }
    KeptForever(p, s, s');
  }

  /** Threads and nodes are never taken away, and a node keeps its kind. */
  ghost predicate Grows(s: State, s': State) {
    |s'.stacks| == |s.stacks| && |s.nodes| <= |s'.nodes| && forall x | 0 <= x < |s.nodes| ::
        s'.nodes[x].kind == s.nodes[x].kind
  }

  lemma StepGrows(s: State, a: Action, s': State)
    requires Step(s, a, s')
    ensures Grows(s, s')
  {
    if IsDropAction(a) { DropStepGrows(s, a, s'); }
  }

  lemma DropStepGrows(s: State, a: Action, s': State)
    requires Step(s, a, s') && IsDropAction(a)
    ensures Grows(s, s')
  {
  }

  lemma GrowsAlong(s: State, s': State)
    requires Leads(s, s')
    ensures Grows(s, s')
  {
    var p := (r: State) => Grows(s, r);
    forall r, a, r' | p(r) && Step(r, a, r') ensures p(r') { StepGrows(r, a, r'); }
    KeptForever(p, s, s');
  }

  // ---------------------------------------------------------------------------------------------
  // Dropping a key or a map while an Entry is held
  // ---------------------------------------------------------------------------------------------

  /**
   The thread runs the destructor of `o` at index `d`, above its `Entry` of `m` at index `g`, and `m` still holds
   `o`.
   */
  ghost predicate Caught(s: State, t: Tid, g: nat, d: nat, o: Id, m: Id) {
    && t < |s.stacks| && g < d < |s.stacks[t]| && o < |s.nodes| && m < |s.nodes|
    && s.stacks[t][g].Guard? && s.stacks[t][g].m == m
    && s.stacks[t][d].IsDrop() && s.stacks[t][d].o == o
    && Linked(s.nodes, m, o)
  }

  /**
   What the invariant says of a caught thread: the map is locked by its guard, and its table has still to be visited.
   */
  lemma CaughtFacts(s: State, t: Tid, g: nat, d: nat, o: Id, m: Id)
    requires Inv(s) && Caught(s, t, g, d, o, m)
    ensures s.nodes[m].lock == Some(Owner(t, g)) && Pending(s.stacks[t][d], m, s.nodes[m].addr)
  {
    assert FrameOk(s.nodes, t, s.stacks[t], g) && FrameOk(s.nodes, t, s.stacks[t], d);
    assert DeadLinkOk(s, m, o);
  }

  /** A step leaves the frames below the running one alone, and ends a drop only when nothing is left to visit. */
  lemma LowerFramesKept(s: State, a: Action, s': State, t: Tid, d: nat)
    requires Step(s, a, s') && t < |s.stacks| && d < |s.stacks[t]| && s.stacks[t][d].IsDrop()
    requires s.stacks[t][d].DropLoop? ==> s.stacks[t][d].todo != {}
    ensures t < |s'.stacks| && d < |s'.stacks[t]| && s'.stacks[t][d].IsDrop() && s'.stacks[t][d].o == s.stacks[t][d].o
    ensures forall i | 0 <= i < d :: s'.stacks[t][i] == s.stacks[t][i]
  {
    if !ActionOf(a, t) { OthersKept(s, a, s', t); }
    else if IsDropAction(a) { LowerFramesKeptByDrop(s, a, s', d); }
    else { LowerFramesKeptByEntry(s, a, s', d); }
  }

  lemma LowerFramesKeptByDrop(s: State, a: Action, s': State, d: nat)
    requires Step(s, a, s') && IsDropAction(a) && d < |s.stacks[a.t]| && s.stacks[a.t][d].IsDrop()
    requires s.stacks[a.t][d].DropLoop? ==> s.stacks[a.t][d].todo != {}
    ensures a.t < |s'.stacks| && d < |s'.stacks[a.t]| && s'.stacks[a.t][d].IsDrop()
    ensures s'.stacks[a.t][d].o == s.stacks[a.t][d].o
    ensures forall i | 0 <= i < d :: s'.stacks[a.t][i] == s.stacks[a.t][i]
  {
  }

  lemma LowerFramesKeptByEntry(s: State, a: Action, s': State, d: nat)
    requires Step(s, a, s') && !a.New? && !a.Clone? && !a.Free? && !IsDropAction(a)
    requires a.t < |s.stacks| && d < |s.stacks[a.t]| && s.stacks[a.t][d].IsDrop()
    ensures a.t < |s'.stacks| && d < |s'.stacks[a.t]| && s'.stacks[a.t][d] == s.stacks[a.t][d]
    ensures forall i | 0 <= i < d :: s'.stacks[a.t][i] == s.stacks[a.t][i]
  {
  }

  lemma AddressKept(s: State, a: Action, s': State, x: Id)
    requires Step(s, a, s') && x < |s.nodes|
    ensures x < |s'.nodes| && s'.nodes[x].addr == s.nodes[x].addr
  {
  }

  lemma CaughtStep(s: State, a: Action, s': State, t: Tid, g: nat, d: nat, o: Id, m: Id)
    requires Caught(s, t, g, d, o, m) && Step(s, a, s') && ActorOk(s, a)
    requires s.nodes[m].lock == Some(Owner(t, g)) && Pending(s.stacks[t][d], m, s.nodes[m].addr)
    ensures Caught(s', t, g, d, o, m)
  {
    LowerFramesKept(s, a, s', t, d);
    LockKept(s, a, s', m);
    AddressKept(s, a, s', o);
    CaughtAgain(s, s', t, g, d, o, m);
  }

  lemma CaughtAgain(s: State, s': State, t: Tid, g: nat, d: nat, o: Id, m: Id)
    requires Caught(s, t, g, d, o, m) && o < |s'.nodes| && m < |s'.nodes| && t < |s'.stacks| && d < |s'.stacks[t]|
    requires s'.stacks[t][d].IsDrop() && s'.stacks[t][d].o == o && s'.stacks[t][g] == s.stacks[t][g]
    requires s'.nodes[m].table == s.nodes[m].table && s'.nodes[o].addr == s.nodes[o].addr
    ensures Caught(s', t, g, d, o, m)
  {
  }

  lemma CaughtNext(s: State, a: Action, s': State, t: Tid, g: nat, d: nat, o: Id, m: Id)
    requires Inv(s) && Caught(s, t, g, d, o, m) && Step(s, a, s')
    ensures Inv(s') && Caught(s', t, g, d, o, m)
  {
    InvStep(s, a, s');
    ActorIsOk(s, a);
    CaughtFacts(s, t, g, d, o, m);
    CaughtStep(s, a, s', t, g, d, o, m);
  }

  /** A dead node's table never gains an entry, and the node stays dead. */
  lemma DeadTableShrinks(s: State, a: Action, s': State, o: Id)
    requires Step(s, a, s') && ActorOk(s, a) && NodesOk(s.nodes) && o < |s.nodes| && !s.nodes[o].phase.Live?
    ensures o < |s'.nodes| && !s'.nodes[o].phase.Live?
    ensures (s'.nodes[o].table == s.nodes[o].table || s'.nodes[o].table == map[])
  {
    if IsDropAction(a) { DeadTableShrinksByDrop(s, a, s', o); }
  }

  lemma DeadTableShrinksByDrop(s: State, a: Action, s': State, o: Id)
    requires Step(s, a, s') && ActorOk(s, a) && NodesOk(s.nodes) && o < |s.nodes| && !s.nodes[o].phase.Live?
    requires IsDropAction(a)
    ensures o < |s'.nodes| && !s'.nodes[o].phase.Live?
    ensures (s'.nodes[o].table == s.nodes[o].table || s'.nodes[o].table == map[])
  {
  }

  /** `o` is dead and does not refer to `m`. */
  ghost predicate Unlinked(s: State, o: Id, m: Id) {
    o < |s.nodes| && m < |s.nodes| && !s.nodes[o].phase.Live? && !Linked(s.nodes, o, m)
  }

  lemma UnlinkedNext(s: State, a: Action, s': State, o: Id, m: Id)
    requires Inv(s) && Unlinked(s, o, m) && Step(s, a, s')
    ensures Inv(s') && Unlinked(s', o, m)
  {
    InvStep(s, a, s');
    ActorIsOk(s, a);
    UnlinkedStep(s, a, s', o, m);
  }

  lemma UnlinkedStep(s: State, a: Action, s': State, o: Id, m: Id)
    requires NodesOk(s.nodes) && ActorOk(s, a) && Unlinked(s, o, m) && Step(s, a, s')
    ensures Unlinked(s', o, m)
  {
    DeadTableShrinks(s, a, s', o);
    AddressKept(s, a, s', m);
  }

  /** `t` is inside the destructor of `o` and waits for the entries of `m`. */
  predicate DropWaitsFor(s: State, t: Tid, o: Id, m: Id) {
    Busy(s, t) && Top(s, t).PeerWait? && Top(s, t).o == o && Top(s, t).p == m
  }

  /** A destructor waits only for a table that refers to it and that it refers to. */
  lemma DropWaitsLinked(s: State, t: Tid, o: Id, m: Id)
    requires Inv(s) && DropWaitsFor(s, t, o, m)
    ensures o < |s.nodes| && m < |s.nodes| && Linked(s.nodes, o, m)
  {
    TopFacts(s, t);
  }

  /** With its entries locked by a guard, a live map holds a live key exactly when the key has it registered. */
  lemma HeldIndex(s: State, t: Tid, o: Id, m: Id)
    requires Inv(s) && HoldsEntry(s, t, m) && o < |s.nodes| && s.nodes[o].phase.Live? && s.nodes[o].kind.Key?
    ensures m < |s.nodes| && s.nodes[m].phase.Live? && s.nodes[m].kind.Map?
    ensures Linked(s.nodes, o, m) <==> (o, m) in s.spec
    ensures Linked(s.nodes, m, o) <==> (o, m) in s.spec
  {
    var i :| 0 <= i < |s.stacks[t]| && s.stacks[t][i].Guard? && s.stacks[t][i].m == m;
    assert FrameOk(s.nodes, t, s.stacks[t], i);
    assert LivePair(s, o, m) && IndexPair(s, o, m);
    if (o, m) in s.spec { assert SpecEntryOk(s, (o, m).0, (o, m).1); }
  }

  /** The drop of a last reference, as the thread's next state. */
  lemma LastDropStarts(s: State, t: Tid, o: Id, n: nat)
    requires CanDropHandle(s, t, o, n) && s.nodes[o].refs == {Handle(n)}
    ensures var s' := Release(s, t, o, Handle(n));
            && s'.stacks == s.stacks[t := s.stacks[t] + [DropStart(o)]]
            && s'.nodes == s.nodes[o := s.nodes[o].(refs := {}, phase := Dropping(t, |s.stacks[t]|))]
  {
  }

  lemma LastDropCatches(s: State, t: Tid, g: nat, o: Id, n: nat, m: Id)
    requires CanDropHandle(s, t, o, n) && s.nodes[o].refs == {Handle(n)} && m < |s.nodes| && Linked(s.nodes, m, o)
    requires g < |s.stacks[t]| && s.stacks[t][g].Guard? && s.stacks[t][g].m == m
    ensures Caught(Release(s, t, o, Handle(n)), t, g, |s.stacks[t]|, o, m)
  {
    LastDropStarts(s, t, o, n);
  }

  lemma CaughtForever(s: State, s': State, t: Tid, g: nat, d: nat, o: Id, m: Id)
    requires Reachable(s) && Caught(s, t, g, d, o, m) && Leads(s, s')
    ensures Caught(s', t, g, d, o, m)
  {
    ReachableInv(s);
    var p := (r: State) => Inv(r) && Caught(r, t, g, d, o, m);
    forall r, a, r' | p(r) && Step(r, a, r') ensures p(r') { CaughtNext(r, a, r', t, g, d, o, m); }
    KeptForever(p, s, s');
  }

  /**
   The last reference of key `o` is dropped while an `Entry` of `m` is held, and `m` holds `o`: the destructor
   never ends, whatever any thread does.
   */
  lemma DropUnderEntryHangs(s: State, t: Tid, o: Id, n: nat, s': State, m: Id)
    requires Reachable(s) && CanDropHandle(s, t, o, n) && s' == Release(s, t, o, Handle(n))
    requires s.nodes[o].refs == {Handle(n)} && s.nodes[o].kind.Key? && HoldsEntry(s, t, m) && (o, m) in s.spec
    ensures forall s'' | Leads(s', s'') :: t < |s''.stacks| && |s.stacks[t]| < |s''.stacks[t]|
  {
    ReachableInv(s);
    HeldIndex(s, t, o, m);
    var g :| 0 <= g < |s.stacks[t]| && s.stacks[t][g].Guard? && s.stacks[t][g].m == m;
    LastDropCatches(s, t, g, o, n, m);
    ReachableNext(s, DropHandle(t, o, n), s');
    forall s'' | Leads(s', s'') ensures t < |s''.stacks| && |s.stacks[t]| < |s''.stacks[t]| {
      CaughtForever(s', s'', t, g, |s.stacks[t]|, o, m);
    }
  }

  /** Only the running frame of `t` differs. */
  ghost predicate SameBelow(s: State, s': State, t: Tid) {
    && t < |s.stacks| && |s'.stacks| == |s.stacks| && |s'.stacks[t]| == |s.stacks[t]|
    && (forall i | 0 <= i < |s.stacks[t]| - 1 :: s'.stacks[t][i] == s.stacks[t][i])
    && (forall u | 0 <= u < |s.stacks| && u != t :: s'.stacks[u] == s.stacks[u])
  }

  /** A destructor that has just started can go straight for any live peer. */
  lemma DropGoesFor(s: State, t: Tid, o: Id, m: Id) returns (s': State)
    requires AtTop(s, t) && Top(s, t) == DropStart(o) && s.nodes[o].lock.None?
    requires m < |s.nodes| && m != o && s.nodes[m].phase.Live? && s.nodes[m].kind != s.nodes[o].kind
    requires Linked(s.nodes, o, m)
    ensures Leads(s, s') && DropWaitsFor(s', t, o, m) && SameBelow(s, s', t) && Grows(s, s')
  {
    var s1 := StepLockOwn(s, t);
    assert Step(s, LockOwn(t), s1);
    LeadsHere(s);
    LeadsNext(s, s, LockOwn(t), s1);
    s' := DropVisits(s, s1, t, o, m);
  }

  lemma DropVisits(s: State, s1: State, t: Tid, o: Id, m: Id) returns (s': State)
    requires Leads(s, s1) && AtTop(s1, t) && Top(s1, t).DropLoop? && Top(s1, t).o == o
    requires Top(s1, t).todo == s1.nodes[o].table.Keys
    requires m < |s1.nodes| && m != o && s1.nodes[m].phase.Live? && s1.nodes[m].kind != s1.nodes[o].kind
    requires Linked(s1.nodes, o, m)
    ensures Leads(s, s') && DropWaitsFor(s', t, o, m) && SameBelow(s1, s', t) && Grows(s1, s')
  {
    var a := Visit(t, s1.nodes[m].addr);
    s' := StepVisit(s1, t, s1.nodes[m].addr);
    assert Step(s1, a, s');
    LeadsNext(s, s1, a, s');
  }

  /**
   Dropping the last reference of a key while an `Entry` of `m` is held: its own destructor can come to wait for
   `m`, and so for its own thread, exactly when `m` holds the key. Destructors nested in it are another matter.
   */
  lemma DropUnderEntryWaitsIff(s: State, t: Tid, o: Id, n: nat, s': State, m: Id)
    requires Reachable(s) && CanDropHandle(s, t, o, n) && s' == Release(s, t, o, Handle(n))
    requires s.nodes[o].refs == {Handle(n)} && s.nodes[o].kind.Key? && HoldsEntry(s, t, m)
    ensures (exists s'' :: Leads(s', s'') && DropWaitsFor(s'', t, o, m)) <==> (o, m) in s.spec
  {
    ReachableInv(s);
    HeldIndex(s, t, o, m);
    UnlockedAtDeath(s, t, o, Handle(n));
    ReachableNext(s, DropHandle(t, o, n), s');
    LastDropLinks(s, t, o, n, m);
    if (o, m) in s.spec { var s'' := DropGoesFor(s', t, o, m); } else { NeverWaits(s', t, o, m); }
  }

  lemma LastDropLinks(s: State, t: Tid, o: Id, n: nat, m: Id)
    requires CanDropHandle(s, t, o, n) && s.nodes[o].refs == {Handle(n)} && s.nodes[o].lock.None?
    requires m < |s.nodes| && s.nodes[m].kind != s.nodes[o].kind
    ensures var s' := Release(s, t, o, Handle(n));
            && AtTop(s', t) && Top(s', t) == DropStart(o) && s'.nodes[o].lock.None? && !s'.nodes[o].phase.Live?
            && m < |s'.nodes| && s'.nodes[m] == s.nodes[m] && s'.nodes[o].kind == s.nodes[o].kind
            && (Linked(s'.nodes, o, m) <==> Linked(s.nodes, o, m))
  {
    LastDropStarts(s, t, o, n);
  }

  lemma NeverWaits(s: State, t: Tid, o: Id, m: Id)
    requires Reachable(s) && Unlinked(s, o, m)
    ensures forall s' | Leads(s, s') :: !DropWaitsFor(s', t, o, m)
  {
    ReachableInv(s);
    var p := (r: State) => Inv(r) && Unlinked(r, o, m);
    forall r, a, r' | p(r) && Step(r, a, r') ensures p(r') { UnlinkedNext(r, a, r', o, m); }
    forall s' | Leads(s, s') ensures !DropWaitsFor(s', t, o, m) {
      KeptForever(p, s, s');
      UnlinkedNeverWaits(s', t, o, m);
    }
  }

  lemma UnlinkedNeverWaits(s: State, t: Tid, o: Id, m: Id)
    requires Inv(s) && Unlinked(s, o, m)
    ensures !DropWaitsFor(s, t, o, m)
  {
    if DropWaitsFor(s, t, o, m) { DropWaitsLinked(s, t, o, m); }
  }

  /** Dropping a reference that is not the last runs no destructor. */
  lemma DropOfSharedReturns(s: State, t: Tid, o: Id, n: nat)
    requires CanDropHandle(s, t, o, n)
    ensures Release(s, t, o, Handle(n)).stacks == s.stacks <==> s.nodes[o].refs != {Handle(n)}
  {
    if s.nodes[o].refs == {Handle(n)} {
      LastDropStarts(s, t, o, n);
      assert |Release(s, t, o, Handle(n)).stacks[t]| == |s.stacks[t]| + 1;
    }
  }
}
