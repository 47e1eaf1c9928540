/** Operations that have begun always finish: a measure, and a run that drains the system. */
module WeakMapProgress {
  import opened Options
  import opened WeakMapModel
  import opened WeakMapInvariant
  import opened WeakMapTheorems
  import opened WeakMapNesting
  import opened WeakMapDiscipline

  /** Work that a node's death would still cause. */
  function NodeWork(n: Node): nat {
    if n.phase.Live? then 5 * |n.table| + 4
    else if n.phase.Dropping? && n.lock.None? then 5 * |n.table| + 3
    else 0
  }

  /** Work left in a frame, apart from what its node accounts for. */
  function FrameWork(f: Frame): nat {
    match f
    case Enter(_, _) => 2
    case Guard(_, _) => 1
    case Register(_, _, _) => 15
    case Registering(_, _, _) => 14
    case Store(_, _, _) => 8
    case Unregister(_, _) => 4
    case Unregistering(_, _) => 3
    case Closing(_, _) => 1
    case DropStart(_) => 0
    case DropLoop(_, todo) => 5 * |todo| + 2
    case PeerWait(_, todo, _) => 5 * |todo| + 6
    case PeerLocked(_, todo, _) => 5 * |todo| + 5
    case PeerRelease(_, todo, _) => 5 * |todo| + 4
  }

  function NodesWork(ns: seq<Node>): nat {
    if ns == [] then 0 else NodesWork(ns[..|ns| - 1]) + NodeWork(ns[|ns| - 1])
  }

  function StackWork(st: seq<Frame>): nat {
    if st == [] then 0 else StackWork(st[..|st| - 1]) + FrameWork(st[|st| - 1])
  }

  function StacksWork(sts: seq<seq<Frame>>): nat {
    if sts == [] then 0 else StacksWork(sts[..|sts| - 1]) + StackWork(sts[|sts| - 1])
  }

  function Work(s: State): nat {
    NodesWork(s.nodes) + StacksWork(s.stacks)
  }

  lemma {:induction false} NodesWorkUpdate(ns: seq<Node>, c: nat, n: Node)
    requires c < |ns|
    ensures NodesWork(ns[c := n]) + NodeWork(ns[c]) == NodesWork(ns) + NodeWork(n)
  {
    var last := |ns| - 1;
    if c == last {
      assert ns[c := n][..last] == ns[..last];
    } else {
      assert ns[c := n][..last] == ns[..last][c := n];
      NodesWorkUpdate(ns[..last], c, n);
    }
  }

  lemma {:induction false} StacksWorkUpdate(sts: seq<seq<Frame>>, t: nat, st: seq<Frame>)
    requires t < |sts|
    ensures StacksWork(sts[t := st]) + StackWork(sts[t]) == StacksWork(sts) + StackWork(st)
  {
    var last := |sts| - 1;
    if t == last {
      assert sts[t := st][..last] == sts[..last];
    } else {
      assert sts[t := st][..last] == sts[..last][t := st];
      StacksWorkUpdate(sts[..last], t, st);
    }
  }

  /** The step of thread `t` changes node `c` and its own stack, and their joint work goes down. */
  ghost predicate LessWork(s: State, s': State, t: Tid, c: Id) {
    && t < |s.stacks| && c < |s.nodes| && |s'.nodes| == |s.nodes| && |s'.stacks| == |s.stacks|
    && s'.nodes == s.nodes[c := s'.nodes[c]] && s'.stacks == s.stacks[t := s'.stacks[t]]
    && NodeWork(s'.nodes[c]) + StackWork(s'.stacks[t]) < NodeWork(s.nodes[c]) + StackWork(s.stacks[t])
  }

  lemma WorkDecreases(s: State, s': State, t: Tid, c: Id)
    requires LessWork(s, s', t, c)
    ensures Work(s') < Work(s)
  {
    NodesWorkUpdate(s.nodes, c, s'.nodes[c]);
    StacksWorkUpdate(s.stacks, t, s'.stacks[t]);
  }

  lemma StackWorkTop(st: seq<Frame>, f: Frame)
    requires st != []
    ensures StackWork(st[|st| - 1 := f]) == StackWork(st[..|st| - 1]) + FrameWork(f)
    ensures StackWork(st) == StackWork(st[..|st| - 1]) + FrameWork(st[|st| - 1])
  {
    assert st[|st| - 1 := f][..|st| - 1] == st[..|st| - 1];
  }

  lemma TableRemove(t: map<Addr, Slot>, a: Addr)
    ensures |t - {a}| <= |t|
  {
    assert (t - {a}).Keys <= t.Keys;
    SubsetSize((t - {a}).Keys, t.Keys);
  }

  lemma {:induction false} SubsetSize<T>(a: set<T>, b: set<T>)
    requires a <= b
    ensures |a| <= |b|
  {
    if a != {} {
      var x :| x in a;
      SubsetSize(a - {x}, b - {x});
    }
  }

  lemma TableInsert(t: map<Addr, Slot>, a: Addr, v: Slot)
    ensures |t[a := v]| <= |t| + 1
  {
    assert t[a := v].Keys == t.Keys + {a};
    if a in t { assert t.Keys + {a} == t.Keys; }
  }

  lemma EntryContinues(s: State, a: Action, s': State) returns (c: Id)
    requires Step(s, a, s') && Continues(a) && !IsDropAction(a) && TopOk(s, a.t) && NodesOk(s.nodes)
    ensures LessWork(s, s', a.t, c)
  {
    if a.LockForRegister? || a.DoRegister? || a.DoStore? {
      c := InsertContinues(s, a, s');
    } else {
      c := GuardContinues(s, a, s');
    }
  }

  lemma InsertContinues(s: State, a: Action, s': State) returns (c: Id)
    requires Step(s, a, s') && (a.LockForRegister? || a.DoRegister? || a.DoStore?) && TopOk(s, a.t) && NodesOk(s.nodes)
    ensures LessWork(s, s', a.t, c)
  {
    var f := Top(s, a.t);
    c := if a.DoStore? then f.m else f.k;
    StackWorkTop(s.stacks[a.t], Top(s', a.t));
    if a.DoRegister? { TableInsert(s.nodes[f.k].table, s.nodes[f.m].addr, Slot(f.m, 0)); }
    if a.DoStore? { TableInsert(s.nodes[f.m].table, s.nodes[f.k].addr, Slot(f.k, f.v)); }
  }

  lemma GuardContinues(s: State, a: Action, s': State) returns (c: Id)
    requires Step(s, a, s') && (a.LockEntries? || a.LockForUnregister? || a.DoUnregister? || a.Close?) && TopOk(s, a.t)
    requires NodesOk(s.nodes)
    ensures LessWork(s, s', a.t, c)
  {
    var t, f := a.t, Top(s, a.t);
    match a
    case LockEntries(_) => c := f.m; LockEntriesContinues(s, t);
    case LockForUnregister(_) => c := f.k; LockForUnregisterContinues(s, t);
    case DoUnregister(_) => c := f.k; UnregisterContinues(s, t);
    case Close(_) => c := f.m; StackWorkTop(s.stacks[t], f);
  }

  lemma LockEntriesContinues(s: State, t: Tid)
    requires AtTop(s, t) && Top(s, t).Enter? && s.nodes[Top(s, t).m].lock.None? && TopOk(s, t) && NodesOk(s.nodes)
    ensures LessWork(s, StepLockEntries(s, t), t, Top(s, t).m)
  {
    StackWorkTop(s.stacks[t], Guard(Top(s, t).k, Top(s, t).m));
  }

  lemma LockForUnregisterContinues(s: State, t: Tid)
    requires AtTop(s, t) && Top(s, t).Unregister? && s.nodes[Top(s, t).k].lock.None? && TopOk(s, t) && NodesOk(s.nodes)
    ensures LessWork(s, StepLockForUnregister(s, t), t, Top(s, t).k)
  {
    StackWorkTop(s.stacks[t], Unregistering(Top(s, t).k, Top(s, t).m));
  }

  lemma UnregisterContinues(s: State, t: Tid)
    requires AtTop(s, t) && Top(s, t).Unregistering? && TopOk(s, t) && NodesOk(s.nodes)
    ensures LessWork(s, StepDoUnregister(s, t), t, Top(s, t).k)
  {
    var f := Top(s, t);
    StackWorkTop(s.stacks[t], Closing(f.k, f.m));
    TableRemove(s.nodes[f.k].table, s.nodes[f.m].addr);
  }

  lemma SetRemove<T>(a: set<T>, x: T)
    requires x in a
    ensures |a - {x}| == |a| - 1
  {
  }

  lemma DropContinues(s: State, a: Action, s': State) returns (c: Id)
    requires Step(s, a, s') && IsDropAction(a) && TopOk(s, a.t) && NodesOk(s.nodes)
    ensures LessWork(s, s', a.t, c)
  {
    var t, f := a.t, Top(s, a.t);
    match a
    case LockOwn(_) => c := f.o; LockOwnContinues(s, t);
    case Visit(_, b) => c := s.nodes[f.o].table[b].peer; VisitContinues(s, t, b);
    case LockPeer(_) => c := f.p; LockPeerContinues(s, t);
    case RemoveFromPeer(_) => c := f.p; RemoveContinues(s, t);
    case ReleasePeer(_) => c := ReleaseContinues(s, t);
    case FinishDrop(_) => c := f.o; FinishContinues(s, t);
  }

  lemma LockOwnContinues(s: State, t: Tid)
    requires AtTop(s, t) && Top(s, t).DropStart? && s.nodes[Top(s, t).o].lock.None? && TopOk(s, t)
    ensures LessWork(s, StepLockOwn(s, t), t, Top(s, t).o)
  {
    StackWorkTop(s.stacks[t], Top(StepLockOwn(s, t), t));
  }

  lemma LockPeerContinues(s: State, t: Tid)
    requires AtTop(s, t) && Top(s, t).PeerWait? && s.nodes[Top(s, t).p].lock.None? && TopOk(s, t)
    ensures LessWork(s, StepLockPeer(s, t), t, Top(s, t).p)
  {
    StackWorkTop(s.stacks[t], Top(StepLockPeer(s, t), t));
  }

  lemma FinishContinues(s: State, t: Tid)
    requires AtTop(s, t) && Top(s, t).DropLoop? && TopOk(s, t)
    ensures LessWork(s, StepFinishDrop(s, t), t, Top(s, t).o)
  {
    StackWorkTop(s.stacks[t], Top(s, t));
  }

  lemma VisitContinues(s: State, t: Tid, b: Addr)
    requires CanVisit(s, t, b)
    ensures LessWork(s, StepVisit(s, t, b), t, s.nodes[Top(s, t).o].table[b].peer)
  {
    StackWorkTop(s.stacks[t], Top(StepVisit(s, t, b), t));
    SetRemove(Top(s, t).todo, b);
  }

  lemma RemoveContinues(s: State, t: Tid)
    requires AtTop(s, t) && Top(s, t).PeerLocked? && TopOk(s, t) && NodesOk(s.nodes)
    ensures LessWork(s, StepRemoveFromPeer(s, t), t, Top(s, t).p)
  {
    var f := Top(s, t);
    StackWorkTop(s.stacks[t], PeerRelease(f.o, f.todo, f.p));
    TableRemove(s.nodes[f.p].table, s.nodes[f.o].addr);
  }

  lemma ReleaseContinues(s: State, t: Tid) returns (c: Id)
    requires AtTop(s, t) && Top(s, t).PeerRelease? && TopOk(s, t) && NodesOk(s.nodes)
    ensures LessWork(s, StepReleasePeer(s, t), t, c)
  {
    var f, s', st := Top(s, t), StepReleasePeer(s, t), s.stacks[t];
    c := f.p;
    StackWorkTop(st, DropLoop(f.o, f.todo));
    var st' := st[|st| - 1 := DropLoop(f.o, f.todo)];
    if s'.stacks[t] != st' { assert s'.stacks[t][..|st'|] == st'; }
  }

  /** Every step that continues an operation leaves less work. */
  lemma ContinuesDecreases(s: State, a: Action, s': State)
    requires Inv(s) && Step(s, a, s') && Continues(a)
    ensures Work(s') < Work(s)
  {
    TopFacts(s, a.t);
    var c: Id;
    if IsDropAction(a) { c := DropContinues(s, a, s'); } else { c := EntryContinues(s, a, s'); }
    WorkDecreases(s, s', a.t, c);
  }

  /** A finite continuation of `s` by continuing steps. */
  ghost predicate Continuation(s: State, states: seq<State>, actions: seq<Action>) {
    && |states| == |actions| + 1 && states[0] == s
    && forall i {:trigger actions[i]} ::
         0 <= i < |actions| ==> Continues(actions[i]) && Step(states[i], actions[i], states[i + 1])
  }

  lemma ContinuesNext(s: State, a: Action, s': State)
    requires Inv(s) && Continues(a) && Step(s, a, s')
    ensures Inv(s') && Work(s') < Work(s)
  {
    InvStep(s, a, s');
    ContinuesDecreases(s, a, s');
  }

  /** No continuation of a reachable state is longer than the work it started with. */
  lemma {:induction false} ContinuationsAreFinite(s: State, states: seq<State>, actions: seq<Action>, i: nat)
    requires Inv(s) && Continuation(s, states, actions) && i <= |actions|
    ensures Inv(states[i]) && Work(states[i]) + i <= Work(s)
  {
    if i > 0 {
      ContinuationsAreFinite(s, states, actions, i - 1);
      assert Continues(actions[i - 1]) && Step(states[i - 1], actions[i - 1], states[i]);
      ContinuesNext(states[i - 1], actions[i - 1], states[i]);
    }
  }

  /** No operation that has begun can be continued. */
  ghost predicate Exhausted(s: State) {
    forall a, s' :: Step(s, a, s') ==> !Continues(a)
  }

  /** Unless nothing is running or threads that nest have deadlocked, something can be continued. */
  lemma NotExhausted(s: State)
    requires Inv(s) && !Quiescent(s) && !HasDeadlock(s)
    ensures !Exhausted(s)
  {
    var t :| 0 <= t < |s.stacks| && s.stacks[t] != [];
    AllWaitsOk(s);
    var u := RunnerFor(s, t);
    var a, s' :| ActionOf(a, u) && Continues(a) && Step(s, a, s');
  }

  lemma ContinuingObeys(s: State, a: Action, pol: Policy)
    requires Continues(a)
    ensures Obeys(s, a, pol)
  {
  }

  /** Continuing operations keeps tame threads tame. */
  lemma {:induction false} ContinuationsAreTame(s: State, states: seq<State>, actions: seq<Action>, i: nat, pol: Policy)
    requires Reachable(s) && Tame(s, pol) && Continuation(s, states, actions) && i <= |actions|
    ensures Reachable(states[i]) && Tame(states[i], pol)
  {
    if i > 0 {
      ContinuationsAreTame(s, states, actions, i - 1, pol);
      assert Continues(actions[i - 1]) && Step(states[i - 1], actions[i - 1], states[i]);
      ContinuingObeys(states[i - 1], actions[i - 1], pol);
      ReachableInv(states[i - 1]);
      TameStep(states[i - 1], actions[i - 1], states[i], pol);
      ReachableNext(states[i - 1], actions[i - 1], states[i]);
    }
  }

  lemma ContinuationNext(s: State, a: Action, s': State, states: seq<State>, actions: seq<Action>)
    requires Continues(a) && Step(s, a, s') && Continuation(s', states, actions)
    ensures Continuation(s, [s] + states, [a] + actions)
  {
    var states', actions' := [s] + states, [a] + actions;
    forall i | 0 <= i < |actions'| ensures Continues(actions'[i]) && Step(states'[i], actions'[i], states'[i + 1]) {
      if i > 0 { assert actions'[i] == actions[i - 1] && states'[i] == states[i - 1] && states'[i + 1] == states[i]; }
    }
  }

  /** From every tame state the running operations can all be brought to an end. */
  lemma {:induction false} Drains(s: State, pol: Policy) returns (states: seq<State>, actions: seq<Action>)
    requires Reachable(s) && Tame(s, pol)
    ensures Continuation(s, states, actions) && Quiescent(states[|actions|])
    decreases Work(s)
  {
    if Quiescent(s) {
      states, actions := [s], [];
    } else {
      var a, s' := SomeContinues(s, pol);
      var states', actions' := Drains(s', pol);
      states, actions := [s] + states', [a] + actions';
      ContinuationNext(s, a, s', states', actions');
    }
  }

  lemma SomeContinues(s: State, pol: Policy) returns (a: Action, s': State)
    requires Reachable(s) && Tame(s, pol) && !Quiescent(s)
    ensures Continues(a) && Step(s, a, s') && Reachable(s') && Tame(s', pol) && Work(s') < Work(s)
  {
    ReachableInv(s);
    TameIsFree(s, pol);
    NotExhausted(s);
    a, s' :| Step(s, a, s') && Continues(a);
    ContinuingObeys(s, a, pol);
    TameStep(s, a, s', pol);
    ReachableNext(s, a, s');
    ContinuesDecreases(s, a, s');
  }

  /**
   Liveness: in every tame reachable state the operations that have begun can be run to their end; running them
   in any order takes at most `Work(s)` steps; and whatever the order, they have all ended when none can be continued.
   */
  lemma EveryOperationFinishes(s: State, pol: Policy)
    requires Reachable(s) && Tame(s, pol)
    ensures exists states, actions :: Continuation(s, states, actions) && Quiescent(states[|actions|])
    ensures forall states, actions | Continuation(s, states, actions) ::
              |actions| <= Work(s) && (Exhausted(states[|actions|]) ==> Quiescent(states[|actions|]))
  {
    var states, actions := Drains(s, pol);
    forall states, actions | Continuation(s, states, actions)
      ensures |actions| <= Work(s) && (Exhausted(states[|actions|]) ==> Quiescent(states[|actions|]))
    {
      ReachableInv(s);
      ContinuationsAreFinite(s, states, actions, |actions|);
      ContinuationsAreTame(s, states, actions, |actions|, pol);
      TameIsFree(states[|actions|], pol);
      if !Quiescent(states[|actions|]) { NotExhausted(states[|actions|]); }
    }
  }

  /**
   In every reachable state, tame or not: operations that can be continued no further have all ended, or nesting
   threads have deadlocked.
   */
  lemma EveryOperationFinishesOrDeadlocks(s: State, states: seq<State>, actions: seq<Action>)
    requires Reachable(s) && Continuation(s, states, actions) && Exhausted(states[|actions|])
    ensures Quiescent(states[|actions|]) || exists d ::
            Deadlocked(states[|actions|], d) && AllNest(states[|actions|], d)
  {
    ReachableInv(s);
    ContinuationsAreFinite(s, states, actions, |actions|);
    var e := states[|actions|];
    if !Quiescent(e) && !HasDeadlock(e) { NotExhausted(e); }
    if d :| Deadlocked(e, d) {
      AllWaitsOk(e);
      var n := NestersDeadlock(e, d);
    }
  }

  lemma ContinuationLeads(s: State, states: seq<State>, actions: seq<Action>)
    requires Continuation(s, states, actions)
    ensures Leads(s, states[|actions|])
  {
    assert Path(states, actions);
  }

  /** A tame state leads to one where nothing runs. */
  lemma TameDrains(s: State, pol: Policy)
    requires Reachable(s) && Tame(s, pol)
    ensures exists s' :: Leads(s, s') && Quiescent(s')
  {
    var states, actions := Drains(s, pol);
    ContinuationLeads(s, states, actions);
  }

  /**
   `entry` called by thread `t`, which may hold Entries, in a state where every other thread is tame: everything
   that has begun, this call included, can still be brought to an end exactly when `t` holds no `Entry` of that map.
   */
  lemma SecondEntryFinishesIff(s: State, t: Tid, k: Id, m: Id, s': State)
    requires Reachable(s) && Tame(s, One(t)) && Step(s, BeginEntry(t, k, m), s')
    ensures (exists s'' :: Leads(s', s'') && Quiescent(s'')) <==> !HoldsEntry(s, t, m)
  {
    if HoldsEntry(s, t, m) {
      forall s'' | Leads(s', s'') ensures !Quiescent(s'') { SecondEntryOutcome(s, t, k, m, s', s''); }
    } else {
      ReachableInv(s);
      TameStep(s, BeginEntry(t, k, m), s', One(t));
      ReachableNext(s, BeginEntry(t, k, m), s');
      TameDrains(s', One(t));
    }
  }
}
