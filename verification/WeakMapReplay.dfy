/**
 What a run of the weak-map protocol wrote, read off its actions alone: which pairs have a value and which handles
 are owned. The states of the run agree with it.
 */
module WeakMapReplay {
  import opened Options
  import opened WeakMapModel
  import opened WeakMapInvariant
  import opened WeakMapTheorems
  import opened WeakMapNesting

  // ---------------------------------------------------------------------------------------------
  // The run, replayed from its actions
  // ---------------------------------------------------------------------------------------------

  /** The Entries that thread `t` has asked for and not let go of, innermost last. */
  function Calls(actions: seq<Action>, t: Tid): seq<(Id, Id)> {
    if actions == [] then []
    else NextCalls(Calls(actions[..|actions| - 1], t), actions[|actions| - 1], t)
  }

  function NextCalls(calls: seq<(Id, Id)>, a: Action, t: Tid): seq<(Id, Id)> {
    match a
    case BeginEntry(u, k, m) => if u == t then calls + [(k, m)] else calls
    case Close(u) => if u == t && calls != [] then calls[..|calls| - 1] else calls
    case _ => calls
  }

  /** The value of the last insertion that thread `t` began. */
  function LastInsert(actions: seq<Action>, t: Tid): Value {
    if actions == [] then 0
    else NextInsert(LastInsert(actions[..|actions| - 1], t), actions[|actions| - 1], t)
  }

  function NextInsert(v: Value, a: Action, t: Tid): Value {
    if a.BeginInsert? && a.t == t then a.v else v
  }

  /** The value last inserted or written for each key and map and not removed since. */
  function Written(actions: seq<Action>): map<(Id, Id), Value> {
    if actions == [] then map[]
    else
      var init, a := actions[..|actions| - 1], actions[|actions| - 1];
      if a.DoStore? || a.Modify? || a.TakeOut? then
        NextWritten(Written(init), Calls(init, a.t), LastInsert(init, a.t), a)
      else Written(init)
  }

  function NextWritten(w: map<(Id, Id), Value>, calls: seq<(Id, Id)>, v: Value, a: Action): map<(Id, Id), Value> {
    if calls == [] then w
    else
      var q := calls[|calls| - 1];
      match a
      case DoStore(_) => w[q := v]
      case Modify(_, u) => w[q := u]
      case TakeOut(_) => w - {q}
      case _ => w
  }

  /** How many keys and maps were allocated; the number of the next one. */
  function Allocated(actions: seq<Action>): nat {
    if actions == [] then 0
    else Allocated(actions[..|actions| - 1]) + if actions[|actions| - 1].New? then 1 else 0
  }

  /** The handles of `o` that were created and not dropped. */
  function Owned(actions: seq<Action>, o: Id): set<nat> {
    if actions == [] then {}
    else
      var init := actions[..|actions| - 1];
      match actions[|actions| - 1]
      case New(_, _) => if o == Allocated(init) then {0} else Owned(init, o)
      case Clone(x, n) => if x == o then Owned(init, o) + {n} else Owned(init, o)
      case DropHandle(_, x, n) => if x == o then Owned(init, o) - {n} else Owned(init, o)
      case _ => Owned(init, o)
  }

  // ---------------------------------------------------------------------------------------------
  // Calls
  // ---------------------------------------------------------------------------------------------

  function FramePair(f: Frame): seq<(Id, Id)> {
    if f.IsDrop() then [] else [(f.k, f.m)]
  }

  /** The pairs of the entry operations on a stack. */
  function Pairs(st: seq<Frame>): seq<(Id, Id)> {
    if st == [] then [] else Pairs(st[..|st| - 1]) + FramePair(st[|st| - 1])
  }

  /** The running frame is replaced by one on the same pair. */
  lemma SamePairs(st: seq<Frame>, f: Frame)
    requires st != [] && FramePair(f) == FramePair(st[|st| - 1])
    ensures Pairs(st[|st| - 1 := f]) == Pairs(st)
  {
    assert st[|st| - 1 := f][..|st| - 1] == st[..|st| - 1];
  }

  lemma PushedPairs(st: seq<Frame>, f: Frame)
    ensures Pairs(st + [f]) == Pairs(st) + FramePair(f)
  {
    assert (st + [f])[..|st|] == st;
  }

  lemma ReleasePairs(s: State, t: Tid, o: Id, r: Ref)
    requires t < |s.stacks| && o < |s.nodes|
    ensures |Release(s, t, o, r).stacks| == |s.stacks| && Pairs(Release(s, t, o, r).stacks[t]) == Pairs(s.stacks[t])
  {
    PushedPairs(s.stacks[t], DropStart(o));
    assert Pairs(s.stacks[t]) + [] == Pairs(s.stacks[t]);
  }

  /** These steps replace the running frame and do not touch the calls. */
  predicate ReplacesTop(a: Action) {
    || a.LockEntries? || a.BeginInsert? || a.LockForRegister? || a.DoRegister? || a.DoStore? || a.TakeOut?
    || a.LockForUnregister? || a.DoUnregister? || a.LockOwn? || a.Visit? || a.LockPeer? || a.RemoveFromPeer?
  }

  lemma TopReplaced(s: State, a: Action, s': State)
    requires Step(s, a, s') && ReplacesTop(a)
    ensures Busy(s, a.t) && |s'.stacks| == |s.stacks| && |s'.stacks[a.t]| == |s.stacks[a.t]|
    ensures s'.stacks[a.t] == s.stacks[a.t][|s.stacks[a.t]| - 1 := Top(s', a.t)]
    ensures FramePair(Top(s', a.t)) == FramePair(Top(s, a.t))
  {
    if IsDropAction(a) { TopReplacedByDrop(s, a, s'); }
  }

  lemma TopReplacedByDrop(s: State, a: Action, s': State)
    requires Step(s, a, s') && ReplacesTop(a) && IsDropAction(a)
    ensures Busy(s, a.t) && |s'.stacks| == |s.stacks| && |s'.stacks[a.t]| == |s.stacks[a.t]|
    ensures s'.stacks[a.t] == s.stacks[a.t][|s.stacks[a.t]| - 1 := Top(s', a.t)]
    ensures FramePair(Top(s', a.t)) == FramePair(Top(s, a.t))
  {
  }

  lemma ReleasePeerPairs(s: State, a: Action, s': State)
    requires Step(s, a, s') && a.ReleasePeer?
    ensures |s'.stacks| == |s.stacks| && Pairs(s'.stacks[a.t]) == Pairs(s.stacks[a.t])
  {
    var f := Top(s, a.t);
    SamePairs(s.stacks[a.t], DropLoop(f.o, f.todo));
    ReleasePairs(SetTop(s, a.t, DropLoop(f.o, f.todo)), a.t, f.p, Temp(a.t));
  }

  lemma PopPairs(s: State, a: Action, s': State)
    requires Step(s, a, s') && (a.Close? || a.FinishDrop?)
    ensures Busy(s, a.t) && |s'.stacks| == |s.stacks|
    ensures Pairs(s'.stacks[a.t]) == NextCalls(Pairs(s.stacks[a.t]), a, a.t)
  {
    var st := s.stacks[a.t];
    assert Pairs(st) == Pairs(st[..|st| - 1]) + FramePair(st[|st| - 1]);
  }

  lemma CallsOfActor(s: State, a: Action, s': State, t: Tid)
    requires Step(s, a, s') && ActionOf(a, t)
    ensures |s'.stacks| == |s.stacks| && t < |s.stacks|
    ensures Pairs(s'.stacks[t]) == NextCalls(Pairs(s.stacks[t]), a, t)
  {
    if ReplacesTop(a) {
      TopReplaced(s, a, s');
      SamePairs(s.stacks[t], Top(s', t));
    } else if a.ReleasePeer? {
      ReleasePeerPairs(s, a, s');
    } else if a.DropHandle? {
      ReleasePairs(s, t, a.o, Handle(a.n));
    } else if a.BeginEntry? {
      PushedPairs(s.stacks[t], Enter(a.k, a.m));
    } else if a.Close? || a.FinishDrop? {
      PopPairs(s, a, s');
    }
  }

  /** A thread's open calls are the entry operations on its stack. */
  ghost predicate CallsTracked(s: State, actions: seq<Action>) {
    forall t | 0 <= t < |s.stacks| :: Pairs(s.stacks[t]) == Calls(actions, t)
  }

  lemma CallsStep(s: State, a: Action, s': State, actions: seq<Action>)
    requires Step(s, a, s') && CallsTracked(s, actions)
    ensures CallsTracked(s', actions + [a])
  {
    assert (actions + [a])[..|actions|] == actions;
    StackCount(s, a, s');
    forall t | 0 <= t < |s'.stacks| ensures Pairs(s'.stacks[t]) == Calls(actions + [a], t) {
      if ActionOf(a, t) { CallsOfActor(s, a, s', t); } else { OthersKept(s, a, s', t); }
    }
  }

  lemma StackCount(s: State, a: Action, s': State)
    requires Step(s, a, s')
    ensures |s'.stacks| == |s.stacks|
  {
  }

  // ---------------------------------------------------------------------------------------------
  // Pending insertions
  // ---------------------------------------------------------------------------------------------

  predicate Inserting(f: Frame) {
    f.Register? || f.Registering? || f.Store?
  }

  ghost predicate InsertsTracked(s: State, actions: seq<Action>) {
    forall t: Tid | Busy(s, t) && Inserting(Top(s, t)) :: Top(s, t).v == LastInsert(actions, t)
  }

  /** What lies below the running frame is no insertion: a call under way is on top. */
  lemma PoppedIsNoInsert(s: State, t: Tid)
    requires StacksOk(s) && t < |s.stacks| && |s.stacks[t]| >= 2
    ensures !Inserting(s.stacks[t][|s.stacks[t]| - 2])
  {
    assert FrameOk(s.nodes, t, s.stacks[t], |s.stacks[t]| - 2);
  }

  /** An insertion carries the value it was begun with. */
  lemma InsertCarried(s: State, a: Action, s': State, t: Tid)
    requires StacksOk(s) && Step(s, a, s') && Busy(s', t) && Inserting(Top(s', t))
    ensures if a.BeginInsert? && a.t == t then Top(s', t).v == a.v
            else Busy(s, t) && Inserting(Top(s, t)) && Top(s, t).v == Top(s', t).v
  {
    StackCount(s, a, s');
    if |s.stacks[t]| >= 2 { PoppedIsNoInsert(s, t); }
    if !ActionOf(a, t) { OthersKept(s, a, s', t); }
    else if IsDropAction(a) { DropTop(s, a, s', t); }
    else { InsertCarriedByEntry(s, a, s', t); }
  }

  lemma DropTop(s: State, a: Action, s': State, t: Tid)
    requires Step(s, a, s') && ActionOf(a, t) && IsDropAction(a) && Busy(s', t)
    ensures Top(s', t).IsDrop() || (|s.stacks[t]| >= 2 && Top(s', t) == s.stacks[t][|s.stacks[t]| - 2])
  {
  }

  lemma InsertCarriedByEntry(s: State, a: Action, s': State, t: Tid)
    requires Step(s, a, s') && ActionOf(a, t) && !IsDropAction(a) && Busy(s', t) && Inserting(Top(s', t))
    requires |s.stacks[t]| >= 2 ==> !Inserting(s.stacks[t][|s.stacks[t]| - 2])
    ensures if a.BeginInsert? then Top(s', t).v == a.v
            else Busy(s, t) && Inserting(Top(s, t)) && Top(s, t).v == Top(s', t).v
  {
  }

  lemma InsertsStep(s: State, a: Action, s': State, actions: seq<Action>)
    requires StacksOk(s) && Step(s, a, s') && InsertsTracked(s, actions)
    ensures InsertsTracked(s', actions + [a])
  {
    assert (actions + [a])[..|actions|] == actions;
    forall t: Tid | Busy(s', t) && Inserting(Top(s', t)) ensures Top(s', t).v == LastInsert(actions + [a], t) {
      InsertCarried(s, a, s', t);
    }
  }

  // ---------------------------------------------------------------------------------------------
  // Handles
  // ---------------------------------------------------------------------------------------------

  /** The strong references that are no temporaries are the handles the program owns. */
  ghost predicate HandlesTracked(s: State, actions: seq<Action>) {
    && |s.nodes| == Allocated(actions)
    && forall o, n: nat | 0 <= o < |s.nodes| :: Handle(n) in s.nodes[o].refs <==> n in Owned(actions, o)
  }

  lemma HandlesKept(s: State, a: Action, s': State)
    requires Step(s, a, s') && !a.New? && !a.Clone? && !a.DropHandle?
    ensures |s'.nodes| == |s.nodes|
    ensures forall o, n: nat | 0 <= o < |s.nodes| :: Handle(n) in s'.nodes[o].refs <==> Handle(n) in s.nodes[o].refs
  {
    if IsDropAction(a) { HandlesKeptByDrop(s, a, s'); }
  }

  lemma HandlesKeptByDrop(s: State, a: Action, s': State)
    requires Step(s, a, s') && IsDropAction(a)
    ensures |s'.nodes| == |s.nodes|
    ensures forall o, n: nat | 0 <= o < |s.nodes| :: Handle(n) in s'.nodes[o].refs <==> Handle(n) in s.nodes[o].refs
  {
  }

  lemma HandlesStep(s: State, a: Action, s': State, actions: seq<Action>)
    requires Step(s, a, s') && HandlesTracked(s, actions)
    ensures HandlesTracked(s', actions + [a])
  {
    assert (actions + [a])[..|actions|] == actions;
    if !a.New? && !a.Clone? && !a.DropHandle? { HandlesKept(s, a, s'); }
  }

  // ---------------------------------------------------------------------------------------------
  // Values
  // ---------------------------------------------------------------------------------------------

  predicate IsLive(s: State, o: Id) {
    o < |s.nodes| && s.nodes[o].phase.Live?
  }

  /** The part of `w` whose keys and maps are both live. */
  function LivePart(s: State, w: map<(Id, Id), Value>): map<(Id, Id), Value> {
    map q | q in w && IsLive(s, q.0) && IsLive(s, q.1) :: w[q]
  }

  ghost predicate Allocates(s: State, w: map<(Id, Id), Value>) {
    forall q | q in w :: q.0 < |s.nodes| && q.1 < |s.nodes|
  }

  ghost predicate ValuesTracked(s: State, actions: seq<Action>) {
    Allocates(s, Written(actions)) && s.spec == LivePart(s, Written(actions))
  }

  /** Which nodes are live changes only where the last reference goes. */
  lemma LivenessKept(s: State, a: Action, s': State)
    requires Step(s, a, s') && !a.DropHandle? && !a.ReleasePeer? && NodesOk(s.nodes)
    requires a.FinishDrop? ==> Top(s, a.t).o < |s.nodes| && s.nodes[Top(s, a.t).o].phase.Dropping?
    ensures |s.nodes| <= |s'.nodes| && forall o: Id | o < |s.nodes| :: IsLive(s', o) == IsLive(s, o)
    ensures !IsWrite(a) ==> s'.spec == s.spec
  {
    if IsDropAction(a) { LivenessKeptByDrop(s, a, s'); }
  }

  lemma LivenessKeptByDrop(s: State, a: Action, s': State)
    requires Step(s, a, s') && IsDropAction(a) && !a.ReleasePeer?
    requires a.FinishDrop? ==> Top(s, a.t).o < |s.nodes| && s.nodes[Top(s, a.t).o].phase.Dropping?
    ensures |s.nodes| <= |s'.nodes| && forall o: Id | o < |s.nodes| :: IsLive(s', o) == IsLive(s, o)
    ensures s'.spec == s.spec
  {
  }

  lemma LivePartSame(s: State, s': State, w: map<(Id, Id), Value>)
    requires Allocates(s, w) && forall o: Id | o < |s.nodes| :: IsLive(s', o) == IsLive(s, o)
    ensures LivePart(s', w) == LivePart(s, w)
  {
  }

  /** The last reference takes the node's pairs with it; any other takes nothing. */
  lemma ReleaseValues(s: State, t: Tid, o: Id, r: Ref, w: map<(Id, Id), Value>)
    requires t < |s.stacks| && IsLive(s, o) && s.spec == LivePart(s, w)
    ensures var s' := Release(s, t, o, r); |s'.nodes| == |s.nodes| && s'.spec == LivePart(s', w)
  {
    var s' := Release(s, t, o, r);
    assert forall x: Id | x != o :: IsLive(s', x) == IsLive(s, x);
    if IsLive(s', o) { assert LivePart(s', w) == LivePart(s, w); }
    else { assert LivePart(s', w) == Without(LivePart(s, w), o); }
  }

  lemma ReleaseStepValues(s: State, a: Action, s': State, actions: seq<Action>)
    requires Inv(s) && Step(s, a, s') && (a.DropHandle? || a.ReleasePeer?) && ValuesTracked(s, actions)
    ensures ValuesTracked(s', actions + [a])
  {
    WrittenSame(actions, a);
    if a.DropHandle? {
      DropHandleValues(s, a.t, a.o, a.n, Written(actions));
    } else {
      TopFacts(s, a.t);
      ReleasePeerValues(s, a.t, Written(actions));
    }
  }

  /** A step that is no write leaves what was written. */
  lemma WrittenSame(actions: seq<Action>, a: Action)
    requires !IsWrite(a)
    ensures Written(actions + [a]) == Written(actions)
  {
    assert (actions + [a])[..|actions|] == actions;
  }

  lemma DropHandleValues(s: State, t: Tid, o: Id, n: nat, w: map<(Id, Id), Value>)
    requires NodesOk(s.nodes) && CanDropHandle(s, t, o, n) && s.spec == LivePart(s, w)
    ensures var s' := Release(s, t, o, Handle(n)); |s'.nodes| == |s.nodes| && s'.spec == LivePart(s', w)
  {
    ReleaseValues(s, t, o, Handle(n), w);
  }

  lemma ReleasePeerValues(s: State, t: Tid, w: map<(Id, Id), Value>)
    requires AtTop(s, t) && Top(s, t).PeerRelease? && IsLive(s, Top(s, t).p) && s.spec == LivePart(s, w)
    ensures var s' := StepReleasePeer(s, t); |s'.nodes| == |s.nodes| && s'.spec == LivePart(s', w)
  {
    var f := Top(s, t);
    var before := SetTop(s, t, DropLoop(f.o, f.todo));
    assert LivePart(before, w) == LivePart(s, w);
    ReleaseValues(before, t, f.p, Temp(t), w);
  }

  predicate IsWrite(a: Action) {
    a.DoStore? || a.Modify? || a.TakeOut?
  }

  /**
   What a write does. It gives the pair of the running call, and the slot at the key's address in the map, the value
   written or none; no other pair, slot, lock, reference or phase changes, and no stack but the writer's.
   */
  lemma WriteEffect(s: State, a: Action, s': State)
    requires Step(s, a, s') && IsWrite(a)
    ensures AtTop(s, a.t) && !Top(s, a.t).IsDrop()
    ensures var f := Top(s, a.t);
            var table, addr, q := s.nodes[f.m].table, s.nodes[f.k].addr, (f.k, f.m);
            && s'.nodes == s.nodes[f.m := s.nodes[f.m].(table := s'.nodes[f.m].table)]
            && s'.nodes[f.m].table == (match a
                 case Modify(_, v) => table[addr := Slot(f.k, v)]
                 case DoStore(_) => table[addr := Slot(f.k, f.v)]
                 case _ => table - {addr})
            && s'.spec == (match a
                 case Modify(_, v) => s.spec[q := v]
                 case DoStore(_) => s.spec[q := f.v]
                 case _ => s.spec - {q})
            && s'.stacks == s.stacks[a.t := s.stacks[a.t][|s.stacks[a.t]| - 1 :=
                 if a.TakeOut? then Unregister(f.k, f.m) else Guard(f.k, f.m)]]
  {
    var st := s.stacks[a.t];
    assert st[|st| - 1 := st[|st| - 1]] == st && s.stacks[a.t := st] == s.stacks;
  }

  lemma LivePartPut(s: State, w: map<(Id, Id), Value>, q: (Id, Id), v: Value)
    requires IsLive(s, q.0) && IsLive(s, q.1)
    ensures LivePart(s, w[q := v]) == LivePart(s, w)[q := v]
    ensures LivePart(s, w - {q}) == LivePart(s, w) - {q}
  {
  }

  /** What the replay makes of a write. */
  lemma WrittenNext(actions: seq<Action>, a: Action, q: (Id, Id))
    requires IsWrite(a) && Calls(actions, a.t) != [] && q == Calls(actions, a.t)[|Calls(actions, a.t)| - 1]
    ensures Written(actions + [a]) ==
            if a.TakeOut? then Written(actions) - {q}
            else Written(actions)[q := if a.Modify? then a.v else LastInsert(actions, a.t)]
  {
    assert (actions + [a])[..|actions|] == actions;
  }

  /** A write changes the pair of the innermost open call, whose key and map are live. */
  lemma WriteValues(s: State, a: Action, s': State, actions: seq<Action>)
    requires Step(s, a, s') && IsWrite(a) && ValuesTracked(s, actions)
    requires LivePair(s, Top(s, a.t).k, Top(s, a.t).m)
    requires Pairs(s.stacks[a.t]) == Calls(actions, a.t)
    requires a.DoStore? ==> Top(s, a.t).v == LastInsert(actions, a.t)
    ensures ValuesTracked(s', actions + [a])
  {
    WriteEffect(s, a, s');
    var f := Top(s, a.t);
    WrittenNext(actions, a, (f.k, f.m));
    WriteTracked(s, a, s', actions, f);
  }

  lemma WriteTracked(s: State, a: Action, s': State, actions: seq<Action>, f: Frame)
    requires IsWrite(a) && ValuesTracked(s, actions) && !f.IsDrop() && LivePair(s, f.k, f.m)
    requires |s'.nodes| == |s.nodes| && forall o: Id | o < |s.nodes| :: s'.nodes[o].phase == s.nodes[o].phase
    requires var v := if a.Modify? then a.v else LastInsert(actions, a.t); var q := (f.k, f.m);
             && s'.spec == (if a.TakeOut? then s.spec - {q} else s.spec[q := v])
             && Written(actions + [a]) == (if a.TakeOut? then Written(actions) - {q} else Written(actions)[q := v])
    ensures ValuesTracked(s', actions + [a])
  {
    var v, w := if a.Modify? then a.v else LastInsert(actions, a.t), Written(actions);
    LivePartPut(s, w, (f.k, f.m), v);
    assert Allocates(s, Written(actions + [a]));
    LivePartSame(s, s', Written(actions + [a]));
  }

  lemma ValuesStep(s: State, a: Action, s': State, actions: seq<Action>)
    requires Inv(s) && Step(s, a, s') && Tracked(s, actions)
    ensures ValuesTracked(s', actions + [a])
  {
    if a.DropHandle? || a.ReleasePeer? {
      ReleaseStepValues(s, a, s', actions);
    } else if IsWrite(a) {
      TopFacts(s, a.t);
      WriteValues(s, a, s', actions);
    } else {
      WrittenSame(actions, a);
      if a.FinishDrop? { TopFacts(s, a.t); }
      LivenessKept(s, a, s');
      LivePartSame(s, s', Written(actions));
    }
  }

  // ---------------------------------------------------------------------------------------------
  // Every run
  // ---------------------------------------------------------------------------------------------

  ghost predicate Tracked(s: State, actions: seq<Action>) {
    CallsTracked(s, actions) && InsertsTracked(s, actions) && HandlesTracked(s, actions) && ValuesTracked(s, actions)
  }

  /** `actions` is a run from an initial state that ends in `s`. */
  ghost predicate Run(actions: seq<Action>, s: State) {
    exists states :: Path(states, actions) && Init(states[0]) && states[|actions|] == s
  }

  lemma {:induction false} RunTracked(states: seq<State>, actions: seq<Action>, i: nat)
    requires Path(states, actions) && Init(states[0]) && i <= |actions|
    ensures Inv(states[i]) && Tracked(states[i], actions[..i])
  {
    if i == 0 {
      InitIsGood(states[0]);
    } else {
      RunTracked(states, actions, i - 1);
      var s, a, s', before := states[i - 1], actions[i - 1], states[i], actions[..i - 1];
      assert Step(s, a, s') && actions[..i] == before + [a];
      InvStep(s, a, s');
      CallsStep(s, a, s', before);
      InsertsStep(s, a, s', before);
      HandlesStep(s, a, s', before);
      ValuesStep(s, a, s', before);
    }
  }

  lemma RunMeans(actions: seq<Action>, s: State)
    requires Run(actions, s)
    ensures Inv(s) && Tracked(s, actions) && Reachable(s)
  {
    var states :| Path(states, actions) && Init(states[0]) && states[|actions|] == s;
    RunTracked(states, actions, |actions|);
    assert actions[..|actions|] == actions;
    assert Leads(states[0], s);
  }

  /**
   What `entry` reports under the lock is what the run wrote: Occupied exactly when its last insertion for this key
   and map has completed and was not removed, with the value it or a later write gave.
   */
  lemma EntryMatchesWrites(actions: seq<Action>, s: State, t: Tid)
    requires Run(actions, s) && Busy(s, t) && Top(s, t).HoldsEntries()
    ensures AtTop(s, t) && Calls(actions, t) != []
    ensures var calls, f := Calls(actions, t), Top(s, t);
            && calls[|calls| - 1] == (f.k, f.m)
            && (Occupied(s, t) <==> (f.k, f.m) in Written(actions))
            && (Occupied(s, t) ==> s.nodes[f.m].table[s.nodes[f.k].addr] == Slot(f.k, Written(actions)[(f.k, f.m)]))
  {
    RunMeans(actions, s);
    EntryMatchesSpec(s, t);
    TopFacts(s, t);
    ByAddress(s, Top(s, t).m, Top(s, t).k);
    assert Pairs(s.stacks[t]) == Calls(actions, t);
  }

  /** The abstract contents of every state are what the run wrote for the keys and maps that still live. */
  lemma SpecIsWritten(actions: seq<Action>, s: State)
    requires Run(actions, s)
    ensures s.spec == LivePart(s, Written(actions))
  {
    RunMeans(actions, s);
  }

  /** A key or map lives as long as a handle to it is owned, and longer only while a destructor has upgraded it. */
  lemma LiveWhileOwned(actions: seq<Action>, s: State, o: Id)
    requires Run(actions, s) && o < |s.nodes|
    ensures Owned(actions, o) != {} ==> IsLive(s, o)
    ensures IsLive(s, o) && Owned(actions, o) == {} ==>
              exists t :: Busy(s, t) && Top(s, t).HasTemp() && Top(s, t).p == o
  {
    RunMeans(actions, s);
    OwnedIsLive(actions, s, o);
  }

  lemma OwnedIsLive(actions: seq<Action>, s: State, o: Id)
    requires NodesOk(s.nodes) && TempsHeld(s) && HandlesTracked(s, actions) && o < |s.nodes|
    ensures Owned(actions, o) != {} ==> IsLive(s, o)
    ensures IsLive(s, o) && Owned(actions, o) == {} ==>
              exists t :: Busy(s, t) && Top(s, t).HasTemp() && Top(s, t).p == o
  {
    if n: nat :| n in Owned(actions, o) { assert Handle(n) in s.nodes[o].refs; }
    if IsLive(s, o) && Owned(actions, o) == {} {
      assert forall n: nat :: Handle(n) !in s.nodes[o].refs;
      var r :| r in s.nodes[o].refs;
      assert r == Temp(r.t);
    }
  }

  /**
   When no operation is running, a map that is still owned holds exactly the keys still owned whose last write was
   not removed, with that value, and everything that is not owned is dead.
   */
  lemma QuiescentIsWritten(actions: seq<Action>, s: State, k: Id, m: Id)
    requires Run(actions, s) && Quiescent(s) && ValidPair(s, k, m)
    ensures IsLive(s, k) <==> Owned(actions, k) != {}
    ensures IsLive(s, m) <==> Owned(actions, m) != {}
    ensures IsLive(s, k) && IsLive(s, m) ==>
              && (s.nodes[k].addr in s.nodes[m].table <==> (k, m) in Written(actions))
              && (s.nodes[m].addr in s.nodes[k].table <==> (k, m) in Written(actions))
              && ((k, m) in Written(actions) ==>
                    s.nodes[m].table[s.nodes[k].addr] == Slot(k, Written(actions)[(k, m)]))
  {
    RunMeans(actions, s);
    LiveWhileOwned(actions, s, k);
    LiveWhileOwned(actions, s, m);
    if IsLive(s, k) && IsLive(s, m) { QuiescentContents(s, k, m); }
  }
}
