/**
 Dropping the last reference of a key or map while Entries are held: exactly when what has begun, the drop included, can
 still be brought to an end. The run that ends it lets the other threads go on until each waits for a held map;
 then every key and map outside has a handle, so that the drop nests nothing.
 */
module WeakMapDrops {
  import opened Options
  import opened WeakMapModel
  import opened WeakMapInvariant
  import opened WeakMapTheorems
  import opened WeakMapNesting
  import opened WeakMapDiscipline
  import opened WeakMapProgress

  ghost predicate OthersTame(s: State, t: Tid) {
    forall u: Tid | u != t :: TameThread(s, u, One(t))
  }

  lemma OthersTameStep(s: State, a: Action, s': State, t: Tid)
    requires Inv(s) && OthersTame(s, t) && Step(s, a, s') && Obeys(s, a, One(t))
    ensures OthersTame(s', t)
  {
    forall u: Tid | u != t ensures TameThread(s', u, One(t)) { TameAny(s, a, s', u, One(t)); }
  }

  lemma OthersDoNotNest(s: State, t: Tid)
    requires OthersTame(s, t)
    ensures NoOtherNests(s, t)
  {
    forall u: Tid | u != t ensures !Nests(s, u) { TameNests(s, u, t); }
  }

  /** Thread `t` runs the destructor of `o`, right above Entries of maps that `o` does not refer to. */
  ghost predicate Dropping(s: State, t: Tid, o: Id) {
    && Busy(s, t) && Top(s, t).IsDrop() && Top(s, t).o == o && o < |s.nodes|
    && (forall i | 0 <= i < |s.stacks[t]| - 1 :: s.stacks[t][i].Guard? && Unlinked(s, o, s.stacks[t][i].m))
  }

  /** Every other thread is idle, or waits for a map whose `Entry` `t` holds. */
  ghost predicate OthersWait(s: State, t: Tid)
    requires t < |s.stacks|
  {
    forall u: Tid | u != t && Busy(s, u) :: WaitsForHeld(s, u, t)
  }

  ghost predicate WaitsForHeld(s: State, u: Tid, t: Tid)
    requires t < |s.stacks|
  {
    Blocked(s, u) && var w := s.nodes[Wants(s, u).value].lock.value; w.t == t && w.i < |s.stacks[t]| - 1
  }

  // ---------------------------------------------------------------------------------------------
  // The other threads go on until they wait for t
  // ---------------------------------------------------------------------------------------------

  /** A lock that `t` holds while it starts a destructor is one of a map, held by an `Entry`. */
  lemma HeldByGuards(s: State, t: Tid, o: Id, x: Id)
    requires Inv(s) && Dropping(s, t, o) && !Top(s, t).PeerLocked? && x < |s.nodes| && s.nodes[x].phase.Live?
    requires s.nodes[x].lock.Some? && s.nodes[x].lock.value.t == t
    ensures var i := s.nodes[x].lock.value.i;
            i < |s.stacks[t]| - 1 && s.stacks[t][i].Guard? && s.stacks[t][i].m == x && s.nodes[x].kind.Map?
  {
    var i := s.nodes[x].lock.value.i;
    assert FrameOk(s.nodes, t, s.stacks[t], i);
  }

  /** When the others cannot step, they wait for held maps. */
  lemma StoppedOthersWait(s: State, t: Tid, o: Id)
    requires Inv(s) && OthersTame(s, t) && Dropping(s, t, o) && !Top(s, t).PeerLocked?
    requires forall u: Tid | u != t :: !CanStep(s, u)
    ensures OthersWait(s, t)
  {
    AllWaitsOk(s);
    OthersDoNotNest(s, t);
    forall u: Tid | u != t && Busy(s, u) ensures WaitsForHeld(s, u, t) {
      StoppedWaitsFor(s, t, u);
      TopFacts(s, u);
      WantedIsLive(s, u);
      StoppedChain(s, t, o, u);
      HeldByGuards(s, t, o, Wants(s, u).value);
    }
  }

  lemma StoppedWaitsFor(s: State, t: Tid, u: Tid)
    requires AllOk(s) && u != t && Busy(s, u) && !CanStep(s, u)
    ensures Blocked(s, u) && Busy(s, Blocker(s, u))
  {
    assert WaitsOk(s, u);
  }

  /** No other thread stands between. */
  lemma StoppedChain(s: State, t: Tid, o: Id, u: Tid)
    requires Inv(s) && AllOk(s) && NoOtherNests(s, t) && Dropping(s, t, o) && !Top(s, t).PeerLocked?
    requires forall v: Tid | v != t :: !CanStep(s, v)
    requires u != t && Blocked(s, u)
    ensures Blocker(s, u) == t
  {
    var b := Blocker(s, u);
    assert WaitsOk(s, u) && WaitsOk(s, b);
    if b != t {
      assert WaitsOk(s, Blocker(s, b));
      TopFacts(s, b);
      WantedIsLive(s, b);
      HeldByGuards(s, t, o, Wants(s, b).value);
    }
  }

  lemma DroppingAgain(s: State, s': State, t: Tid, o: Id)
    requires Dropping(s, t, o) && Busy(s', t) && |s'.stacks[t]| == |s.stacks[t]|
    requires Top(s', t).IsDrop() && Top(s', t).o == o && o < |s'.nodes|
    requires forall i | 0 <= i < |s.stacks[t]| - 1 ::
             s'.stacks[t][i] == s.stacks[t][i] && Unlinked(s', o, s.stacks[t][i].m)
    ensures Dropping(s', t, o)
  {
  }

  lemma StillUnlinked(s: State, a: Action, s': State, t: Tid, o: Id)
    requires NodesOk(s.nodes) && ActorOk(s, a) && Dropping(s, t, o) && Step(s, a, s')
    ensures forall i | 0 <= i < |s.stacks[t]| - 1 :: Unlinked(s', o, s.stacks[t][i].m)
    ensures o < |s'.nodes|
  {
    StepGrows(s, a, s');
    forall i | 0 <= i < |s.stacks[t]| - 1 ensures Unlinked(s', o, s.stacks[t][i].m) {
      UnlinkedStep(s, a, s', o, s.stacks[t][i].m);
    }
  }

  /** Another thread's step leaves `t` in its destructor. */
  lemma DroppingKept(s: State, a: Action, s': State, t: Tid, o: Id)
    requires Inv(s) && Dropping(s, t, o) && Step(s, a, s') && !ActionOf(a, t)
    ensures Dropping(s', t, o) && s'.stacks[t] == s.stacks[t]
  {
    ActorIsOk(s, a);
    OthersKept(s, a, s', t);
    StillUnlinked(s, a, s', t, o);
    DroppingAgain(s, s', t, o);
  }

  /** The other threads go on, one after another, until each is idle or waits for a held map. */
  lemma {:induction false} OthersGoOn(s: State, t: Tid, o: Id) returns (s': State)
    requires Reachable(s) && OthersTame(s, t) && Dropping(s, t, o) && Top(s, t).DropStart?
    ensures Leads(s, s') && Reachable(s') && OthersTame(s', t) && Dropping(s', t, o) && Top(s', t).DropStart?
    ensures OthersWait(s', t)
    decreases Work(s)
  {
    ReachableInv(s);
    if u: Tid :| u != t && CanStep(s, u) {
      var s1 := OneGoesOn(s, t, o, u);
      s' := OthersGoOn(s1, t, o);
      LeadsBoth(s, s1, s');
    } else {
      StoppedOthersWait(s, t, o);
      s' := s;
      LeadsHere(s);
    }
  }

  lemma OneGoesOn(s: State, t: Tid, o: Id, u: Tid) returns (s': State)
    requires Reachable(s) && OthersTame(s, t) && Dropping(s, t, o) && Top(s, t).DropStart? && u != t && CanStep(s, u)
    ensures Leads(s, s') && Reachable(s') && OthersTame(s', t) && Dropping(s', t, o) && Top(s', t).DropStart?
    ensures Work(s') < Work(s)
  {
    var a;
    a, s' := NextOf(s, u);
    OtherReaches(s, a, s', t, o);
  }

  lemma OtherReaches(s: State, a: Action, s': State, t: Tid, o: Id)
    requires Reachable(s) && OthersTame(s, t) && Dropping(s, t, o) && Step(s, a, s') && Continues(a) && !ActionOf(a, t)
    ensures Leads(s, s') && Reachable(s')
    ensures OthersTame(s', t) && Dropping(s', t, o) && s'.stacks[t] == s.stacks[t] && Work(s') < Work(s)
  {
    ReachableInv(s);
    LeadsStep(s, a, s');
    OtherStep(s, a, s', t, o);
  }

  lemma NextOf(s: State, u: Tid) returns (a: Action, s': State)
    requires CanStep(s, u)
    ensures ActionOf(a, u) && Continues(a) && Step(s, a, s')
  {
    a, s' :| ActionOf(a, u) && Continues(a) && Step(s, a, s');
  }

  lemma OtherStep(s: State, a: Action, s': State, t: Tid, o: Id)
    requires Inv(s) && OthersTame(s, t) && Dropping(s, t, o) && Step(s, a, s') && Continues(a) && !ActionOf(a, t)
    ensures OthersTame(s', t) && Dropping(s', t, o) && s'.stacks[t] == s.stacks[t] && Work(s') < Work(s)
  {
    ContinuingObeys(s, a, One(t));
    OthersTameStep(s, a, s', t);
    DroppingKept(s, a, s', t, o);
    ContinuesDecreases(s, a, s');
  }

  lemma LeadsStep(s: State, a: Action, s': State)
    requires Reachable(s) && Step(s, a, s')
    ensures Leads(s, s') && Reachable(s')
  {
    ReachableNext(s, a, s');
    LeadsHere(s);
    LeadsNext(s, s, a, s');
  }

  lemma LeadsBoth(s: State, s': State, s'': State)
    requires Leads(s, s') && Leads(s', s'')
    ensures Leads(s, s'')
  {
    var p := (r: State) => Leads(s, r);
    forall r, a, r' | p(r) && Step(r, a, r') ensures p(r') { LeadsNext(s, r, a, r'); }
    KeptForever(p, s', s'');
  }

  // ---------------------------------------------------------------------------------------------
  // The destructor runs without nesting
  // ---------------------------------------------------------------------------------------------

  /** Everything that the destructor needs to run to its end without nesting. */
  ghost predicate Alone(s: State, t: Tid, o: Id) {
    && Reachable(s) && OthersTame(s, t) && Dropping(s, t, o) && OthersWait(s, t)
    && (Top(s, t).HasTemp() ==> Top(s, t).p < |s.nodes| && HasHandle(s.nodes[Top(s, t).p]))
  }

  lemma HeldBelowIsMap(s: State, t: Tid, o: Id, x: Id)
    requires Inv(s) && Dropping(s, t, o) && x < |s.nodes| && s.nodes[x].phase.Live? && s.nodes[x].lock.Some?
    requires s.nodes[x].lock.value.t == t && s.nodes[x].lock.value.i < |s.stacks[t]| - 1
    ensures s.nodes[x].kind.Map?
  {
    assert FrameOk(s.nodes, t, s.stacks[t], s.nodes[x].lock.value.i);
  }

  /** The locks of live nodes are all held by `t`. */
  lemma OthersHoldNothing(s: State, t: Tid, o: Id, x: Id)
    requires Inv(s) && OthersTame(s, t) && Dropping(s, t, o) && OthersWait(s, t)
    requires x < |s.nodes| && s.nodes[x].phase.Live? && s.nodes[x].lock.Some?
    ensures s.nodes[x].lock.value.t == t
  {
    var w := s.nodes[x].lock.value;
    if w.t != t {
      TopFacts(s, w.t);
      assert WaitsForHeld(s, w.t, t);
      WantedIsLive(s, w.t);
      HeldBelowIsMap(s, t, o, Wants(s, w.t).value);
      OthersDoNotNest(s, t);
      assert FrameOk(s.nodes, w.t, s.stacks[w.t], w.i);
      HolderKinds(s, w.t, w.i, x);
    }
  }

  /** A node that `o` refers to is not held by `t`'s Entries, so nobody has it locked while `t` is not updating it. */
  lemma PeerIsFree(s: State, t: Tid, o: Id, p: Id)
    requires Inv(s) && OthersTame(s, t) && Dropping(s, t, o) && OthersWait(s, t) && !Top(s, t).PeerLocked?
    requires p < |s.nodes| && s.nodes[p].phase.Live? && Linked(s.nodes, o, p)
    ensures s.nodes[p].lock.None?
  {
    if s.nodes[p].lock.Some? {
      OthersHoldNothing(s, t, o, p);
      HeldByGuards(s, t, o, p);
    }
  }

  /** Nor does anybody hold a temporary reference to it. */
  lemma PeerHasHandle(s: State, t: Tid, o: Id, p: Id)
    requires Inv(s) && OthersTame(s, t) && Dropping(s, t, o) && OthersWait(s, t) && Top(s, t).DropLoop?
    requires p < |s.nodes| && s.nodes[p].phase.Live? && Linked(s.nodes, o, p)
    ensures HasHandle(s.nodes[p])
  {
    PeerIsFree(s, t, o, p);
    var r :| r in s.nodes[p].refs;
  }

  lemma StillWaits(s: State, a: Action, s': State, t: Tid, u: Tid)
    requires ActorOk(s, a) && Step(s, a, s') && ActionOf(a, t) && u != t && t < |s.stacks| && WaitsForHeld(s, u, t)
    requires t < |s'.stacks| && |s'.stacks[t]| == |s.stacks[t]|
    ensures WaitsForHeld(s', u, t)
  {
    OthersKept(s, a, s', u);
    LockKept(s, a, s', Wants(s, u).value);
    SameHeldWait(s, s', u, t);
  }

  lemma SameHeldWait(s: State, s': State, u: Tid, t: Tid)
    requires t < |s.stacks| && t < |s'.stacks| && |s'.stacks[t]| == |s.stacks[t]| && WaitsForHeld(s, u, t)
    requires u < |s'.stacks| && s'.stacks[u] == s.stacks[u]
    requires Wants(s, u).value < |s'.nodes| && s'.nodes[Wants(s, u).value].lock == s.nodes[Wants(s, u).value].lock
    ensures WaitsForHeld(s', u, t)
  {
    SameWait(s, s', u);
  }

  lemma OthersStillWait(s: State, a: Action, s': State, t: Tid)
    requires ActorOk(s, a) && Step(s, a, s') && ActionOf(a, t) && t < |s.stacks| && OthersWait(s, t)
    requires t < |s'.stacks| && |s'.stacks[t]| == |s.stacks[t]|
    ensures OthersWait(s', t)
  {
    StepGrows(s, a, s');
    forall u: Tid | u != t && Busy(s', u) ensures WaitsForHeld(s', u, t) {
      OthersKept(s, a, s', u);
      StillWaits(s, a, s', t, u);
    }
  }

  /** A step of the destructor that does not end it stays in the same frame, and keeps references to the peer. */
  ghost predicate Stays(s: State, s': State, t: Tid, o: Id)
    requires Busy(s, t)
  {
    && Busy(s', t) && |s'.stacks[t]| == |s.stacks[t]| && Top(s', t).IsDrop() && Top(s', t).o == o
    && (forall i | 0 <= i < |s.stacks[t]| - 1 :: s'.stacks[t][i] == s.stacks[t][i])
    && (Top(s', t).HasTemp() ==> Top(s', t).p < |s'.nodes| && HasHandle(s'.nodes[Top(s', t).p]))
  }

  lemma TurnStays(s: State, a: Action, s': State, t: Tid, o: Id)
    requires TopOk(s, t) && Step(s, a, s') && ActionOf(a, t) && (a.LockOwn? || a.LockPeer? || a.RemoveFromPeer?)
    requires Dropping(s, t, o) && (Top(s, t).HasTemp() ==> HasHandle(s.nodes[Top(s, t).p]))
    ensures Stays(s, s', t, o)
  {
  }

  lemma VisitStays(s: State, a: Action, s': State, t: Tid, o: Id)
    requires Step(s, a, s') && ActionOf(a, t) && a.Visit? && Dropping(s, t, o)
    requires var p := s.nodes[o].table[a.a].peer; s.nodes[p].phase.Live? ==> HasHandle(s.nodes[p])
    ensures Stays(s, s', t, o)
  {
    var p := s.nodes[o].table[a.a].peer;
    if s.nodes[p].phase.Live? {
      var r :| r in s.nodes[p].refs && r.Handle?;
      assert r in s'.nodes[p].refs;
    }
  }

  lemma ReleaseStays(s: State, a: Action, s': State, t: Tid, o: Id)
    requires Step(s, a, s') && ActionOf(a, t) && a.ReleasePeer? && Dropping(s, t, o) && HasHandle(s.nodes[Top(s, t).p])
    ensures Stays(s, s', t, o)
  {
    var r :| r in s.nodes[Top(s, t).p].refs && r.Handle?;
    assert r in s.nodes[Top(s, t).p].refs - {Temp(t)};
  }

  lemma VisitedHasHandle(s: State, t: Tid, o: Id, a: Addr)
    requires Inv(s) && OthersTame(s, t) && Dropping(s, t, o) && OthersWait(s, t) && CanVisit(s, t, a)
    ensures var p := s.nodes[o].table[a].peer; s.nodes[p].phase.Live? ==> HasHandle(s.nodes[p])
  {
    var p := s.nodes[o].table[a].peer;
    assert PinnedSlot(s.nodes, o, a);
    if s.nodes[p].phase.Live? { PeerHasHandle(s, t, o, p); }
  }

  lemma DropStays(s: State, a: Action, s': State, t: Tid, o: Id)
    requires Inv(s) && OthersTame(s, t) && Dropping(s, t, o) && OthersWait(s, t)
    requires Top(s, t).HasTemp() ==> Top(s, t).p < |s.nodes| && HasHandle(s.nodes[Top(s, t).p])
    requires Step(s, a, s') && ActionOf(a, t) && IsDropAction(a) && !a.FinishDrop?
    ensures Stays(s, s', t, o)
  {
    TopFacts(s, t);
    if a.Visit? {
      VisitedHasHandle(s, t, o, a.a);
      VisitStays(s, a, s', t, o);
    } else if a.ReleasePeer? {
      ReleaseStays(s, a, s', t, o);
    } else {
      TurnStays(s, a, s', t, o);
    }
  }

  /** The destructor goes on, and nothing changes for the others. */
  lemma AloneStep(s: State, a: Action, s': State, t: Tid, o: Id)
    requires Alone(s, t, o) && Step(s, a, s') && ActionOf(a, t) && IsDropAction(a) && !a.FinishDrop?
    ensures Alone(s', t, o)
  {
    ReachableInv(s);
    ReachableNext(s, a, s');
    DropStays(s, a, s', t, o);
    AloneAgain(s, a, s', t, o);
  }

  lemma AloneAgain(s: State, a: Action, s': State, t: Tid, o: Id)
    requires Inv(s) && OthersTame(s, t) && Dropping(s, t, o) && OthersWait(s, t) && Reachable(s')
    requires Step(s, a, s') && ActionOf(a, t) && IsDropAction(a) && Stays(s, s', t, o)
    ensures Alone(s', t, o)
  {
    ActorIsOk(s, a);
    ContinuingObeys(s, a, One(t));
    OthersTameStep(s, a, s', t);
    StillUnlinked(s, a, s', t, o);
    DroppingAgain(s, s', t, o);
    OthersStillWait(s, a, s', t);
  }

  /** The destructor is never blocked. */
  lemma AloneRuns(s: State, t: Tid, o: Id) returns (a: Action, s': State)
    requires Inv(s) && Alone(s, t, o)
    ensures ActionOf(a, t) && Continues(a) && IsDropAction(a) && Step(s, a, s')
  {
    TopFacts(s, t);
    if Top(s, t).PeerWait? { PeerIsFree(s, t, o, Top(s, t).p); }
    a, s' := NextDropAction(s, t);
    OnlyDrops(s, a, s', t);
  }

  lemma OnlyDrops(s: State, a: Action, s': State, t: Tid)
    requires Step(s, a, s') && ActionOf(a, t) && Continues(a) && Busy(s, t) && Top(s, t).IsDrop()
    ensures IsDropAction(a)
  {
  }

  /** So it comes to its end, and leaves a tame state. */
  lemma {:induction false} AloneFinishes(s: State, t: Tid, o: Id) returns (s': State)
    requires Alone(s, t, o)
    ensures Leads(s, s') && Reachable(s') && Tame(s', One(t))
    decreases Work(s)
  {
    ReachableInv(s);
    var a, s1 := AloneRuns(s, t, o);
    ContinuesDecreases(s, a, s1);
    LeadsStep(s, a, s1);
    if a.FinishDrop? {
      s' := s1;
      FinishIsTame(s, a, s1, t, o);
    } else {
      AloneStep(s, a, s1, t, o);
      s' := AloneFinishes(s1, t, o);
      LeadsBoth(s, s1, s');
    }
  }

  lemma FinishIsTame(s: State, a: Action, s': State, t: Tid, o: Id)
    requires Inv(s) && OthersTame(s, t) && Dropping(s, t, o) && Step(s, a, s') && a == FinishDrop(t)
    ensures Tame(s', One(t))
  {
    OthersTameStep(s, a, s', t);
    OnlyGuardsLeft(s, s', t);
    forall u: Tid ensures TameThread(s', u, One(t)) {}
  }

  lemma OnlyGuardsLeft(s: State, s': State, t: Tid)
    requires Busy(s, t) && t < |s'.stacks| && s'.stacks[t] == s.stacks[t][..|s.stacks[t]| - 1]
    requires forall i | 0 <= i < |s.stacks[t]| - 1 :: s.stacks[t][i].Guard?
    ensures TameThread(s', t, One(t))
  {
  }

  // ---------------------------------------------------------------------------------------------
  // The exact condition
  // ---------------------------------------------------------------------------------------------

  /** No map whose `Entry` `t` holds stores key `o`. */
  ghost predicate StoredInNoHeld(s: State, t: Tid, o: Id) {
    forall m: Id | HoldsEntry(s, t, m) :: (o, m) !in s.spec
  }

  lemma DropStartsAlone(s: State, t: Tid, o: Id, n: nat)
    requires Inv(s) && Tame(s, One(t)) && CanDropHandle(s, t, o, n) && s.nodes[o].refs == {Handle(n)}
    requires StoredInNoHeld(s, t, o)
    ensures var s' := Release(s, t, o, Handle(n)); OthersTame(s', t) && Dropping(s', t, o) && Top(s', t).DropStart?
  {
    var a, s' := DropHandle(t, o, n), Release(s, t, o, Handle(n));
    LastDropStarts(s, t, o, n);
    assert TameThread(s, t, One(t));
    forall u: Tid | u != t ensures TameThread(s', u, One(t)) {
      assert TameThread(s, u, One(t));
      TameOther(s, a, s', u, One(t));
    }
    forall i | 0 <= i < |s'.stacks[t]| - 1 ensures s'.stacks[t][i].Guard? && Unlinked(s', o, s'.stacks[t][i].m) {
      NotReferred(s, t, o, i);
    }
  }

  /** A node stored in no held map does not refer to one; a map refers to no map at all. */
  lemma NotReferred(s: State, t: Tid, o: Id, i: nat)
    requires Inv(s) && t < |s.stacks| && i < |s.stacks[t]| && s.stacks[t][i].Guard? && StoredInNoHeld(s, t, o)
    requires o < |s.nodes| && s.nodes[o].phase.Live?
    ensures var m := s.stacks[t][i].m; m < |s.nodes| && !Linked(s.nodes, o, m)
  {
    var m := s.stacks[t][i].m;
    assert HoldsEntry(s, t, m);
    if s.nodes[o].kind.Key? {
      HeldIndex(s, t, o, m);
    } else {
      assert FrameOk(s.nodes, t, s.stacks[t], i);
    }
  }

  /**
   The last reference of key or map `o` is dropped by thread `t`, which may hold Entries, in a state where every other
   thread is tame: everything that has begun, the drop included, can still be brought to an end exactly when no map
   whose `Entry` `t` holds stores `o`. For a map `o` it always can.
   */
  lemma DropUnderEntryFinishesIff(s: State, t: Tid, o: Id, n: nat, s': State)
    requires Reachable(s) && Tame(s, One(t)) && CanDropHandle(s, t, o, n) && s' == Release(s, t, o, Handle(n))
    requires s.nodes[o].refs == {Handle(n)}
    ensures (exists s'' :: Leads(s', s'') && Quiescent(s'')) <==> StoredInNoHeld(s, t, o)
    ensures s.nodes[o].kind.Map? ==> StoredInNoHeld(s, t, o)
  {
    if StoredInNoHeld(s, t, o) {
      DropFinishes(s, t, o, n, s');
    } else {
      var m: Id :| HoldsEntry(s, t, m) && (o, m) in s.spec;
      StoredIsKey(s, o, m);
      DropUnderEntryHangs(s, t, o, n, s', m);
    }
  }

  lemma StoredIsKey(s: State, o: Id, m: Id)
    requires Reachable(s) && (o, m) in s.spec
    ensures o < |s.nodes| && s.nodes[o].kind.Key?
  {
    ReachableInv(s);
    assert SpecEntryOk(s, (o, m).0, (o, m).1);
  }

  lemma DropFinishes(s: State, t: Tid, o: Id, n: nat, s': State)
    requires Reachable(s) && Tame(s, One(t)) && CanDropHandle(s, t, o, n) && s' == Release(s, t, o, Handle(n))
    requires s.nodes[o].refs == {Handle(n)} && StoredInNoHeld(s, t, o)
    ensures exists s'' :: Leads(s', s'') && Quiescent(s'')
  {
    ReachableInv(s);
    ReachableNext(s, DropHandle(t, o, n), s');
    DropStartsAlone(s, t, o, n);
    var r := OthersGoOn(s', t, o);
    var r' := AloneFinishes(r, t, o);
    TameDrains(r', One(t));
    var s'' :| Leads(r', s'') && Quiescent(s'');
    LeadsBoth(s', r, r');
    LeadsBoth(s', r', s'');
  }
}
