/**
 The two-way weak index of `hyperactor/src/actor_local.rs` (module `weak_map`) as a small-step
 transition system.

 A `WeakKeyInner` and a `WeakMapInner` are both a mutex-guarded table of weak references to the
 other kind, and their `Drop` implementations are the same loop with the roles exchanged, so both
 are a `Node`; `kind` tells them apart.  A key's table is its `maps` field, a map's table its
 `entries` field.  Tables are keyed by address, as in the source, and every slot also carries the
 `Weak` (the identity of its target) that the source stores next to the address.
 */
module WeakMapModel {
  import opened Options

  type Id = nat       // identity of an allocation; never reused
  type Tid = nat      // thread
  type Addr = nat     // memory address; reused once an allocation is freed
  type Value = int    // the stored T; the protocol only moves it around

  datatype Kind = Key | Map

  /** One strong reference: an owned `Arc` (numbered), or the `Arc` a thread got from `Weak::upgrade`. */
  datatype Ref = Handle(n: nat) | Temp(t: Tid)

  /**
   `Live`: strong count positive.  `Dropping(thread, frame)`: the drop glue runs in that frame of
   that thread.  `Dropped`: glue finished, memory pinned by weak references.  `Freed`: address reusable.
   */
  datatype Phase = Live | Dropping(thread: Tid, frame: nat) | Dropped | Freed

  /** A stored `Weak` to `peer`, with the entry's value (unused in a key's `maps`). */
  datatype Slot = Slot(peer: Id, value: Value)

  /** A lock is held by one frame of a thread's stack. */
  datatype Owner = Owner(t: Tid, i: nat)

  datatype Node = Node(kind: Kind, addr: Addr, refs: set<Ref>, phase: Phase,
                       table: map<Addr, Slot>, lock: Option<Owner>)

  /** A program point inside an operation, with the locals that are live there. */
  datatype Frame =
    // WeakMap::entry and the methods of the returned guard
    | Enter(k: Id, m: Id)                      // before entries.lock()
    | Guard(k: Id, m: Id)                      // Entry returned to the caller
    | Register(k: Id, m: Id, v: Value)         // VacantEntry::insert, before maps.lock()
    | Registering(k: Id, m: Id, v: Value)      // maps locked
    | Store(k: Id, m: Id, v: Value)            // registered, before guard.insert
    | Unregister(k: Id, m: Id)                 // OccupiedEntry::remove, entry taken, before maps.lock()
    | Unregistering(k: Id, m: Id)              // maps locked
    | Closing(k: Id, m: Id)                    // before the guard is released
    // Drop for WeakKeyInner and for WeakMapInner, on node o
    | DropStart(o: Id)                         // before locking o's own table
    | DropLoop(o: Id, todo: set<Addr>)         // own table locked, at the loop head
    | PeerWait(o: Id, todo: set<Addr>, p: Id)  // upgraded p, before locking p's table
    | PeerLocked(o: Id, todo: set<Addr>, p: Id)
    | PeerRelease(o: Id, todo: set<Addr>, p: Id) // before the temporary Arc goes out of scope
  {
    predicate IsDrop() {
      DropStart? || DropLoop? || PeerWait? || PeerLocked? || PeerRelease?
    }

    /** Whether the frame holds the temporary `Arc` of an upgrade. */
    predicate HasTemp() {
      PeerWait? || PeerLocked? || PeerRelease?
    }

    /** Whether the frame is an entry operation past `entries.lock()`. */
    predicate HoldsEntries() {
      !IsDrop() && !Enter?
    }

    /** Whether the frame is between the two table updates of an insert or a remove. */
    predicate HalfDone() {
      Store? || Unregister? || Unregistering?
    }
  }

  /**
   `spec` is the meaning of the whole structure: the value each live key has in each live map.  No
   step reads it.
   */
  datatype State = State(nodes: seq<Node>, stacks: seq<seq<Frame>>, spec: map<(Id, Id), Value>)

  datatype Action =
    | New(kind: Kind, addr: Addr)       // WeakKey::new, WeakMap::new
    | Clone(o: Id, n: nat)              // Clone for WeakKey
    | DropHandle(t: Tid, o: Id, n: nat) // an owned Arc goes out of scope
    | Free(o: Id)                       // the last weak reference is gone
    | BeginEntry(t: Tid, k: Id, m: Id)
    | LockEntries(t: Tid)
    | BeginInsert(t: Tid, v: Value)
    | LockForRegister(t: Tid)
    | DoRegister(t: Tid)
    | DoStore(t: Tid)
    | Modify(t: Tid, v: Value)          // get_mut, OccupiedEntry::insert
    | TakeOut(t: Tid)                   // OccupiedEntry::remove: guard.remove
    | LockForUnregister(t: Tid)
    | DoUnregister(t: Tid)
    | Close(t: Tid)                     // the Entry guard goes out of scope
    | LockOwn(t: Tid)
    | Visit(t: Tid, a: Addr)            // next element of the drop loop: Weak::upgrade
    | LockPeer(t: Tid)
    | RemoveFromPeer(t: Tid)
    | ReleasePeer(t: Tid)
    | FinishDrop(t: Tid)

  predicate HasHandle(n: Node) {
    exists r :: r in n.refs && r.Handle?
  }

  predicate Busy(s: State, t: Tid) {
    t < |s.stacks| && s.stacks[t] != []
  }

  function Top(s: State, t: Tid): Frame
    requires Busy(s, t)
  {
    s.stacks[t][|s.stacks[t]| - 1]
  }

  /** Control is with the caller, which may hold an `Entry`: it runs no operation and no destructor. */
  predicate WithCaller(s: State, t: Tid) {
    t < |s.stacks| && (s.stacks[t] == [] || Top(s, t).Guard?)
  }

  /** The running frame of `t`, as the owner of a lock. */
  function Me(s: State, t: Tid): Owner
    requires Busy(s, t)
  {
    Owner(t, |s.stacks[t]| - 1)
  }

  /** The frame borrows the caller's handles to its key and its map. */
  predicate Borrows(f: Frame, o: Id) {
    !f.IsDrop() && (f.k == o || f.m == o)
  }

  predicate Borrowed(s: State, o: Id) {
    exists t, i | 0 <= t < |s.stacks| && 0 <= i < |s.stacks[t]| :: Borrows(s.stacks[t][i], o)
  }

  function PutNode(s: State, o: Id, n: Node): State
    requires o < |s.nodes|
  {
    s.(nodes := s.nodes[o := n])
  }

  function SetTop(s: State, t: Tid, f: Frame): State
    requires Busy(s, t)
  {
    s.(stacks := s.stacks[t := s.stacks[t][|s.stacks[t]| - 1 := f]])
  }

  function Push(s: State, t: Tid, f: Frame): State
    requires t < |s.stacks|
  {
    s.(stacks := s.stacks[t := s.stacks[t] + [f]])
  }

  function Pop(s: State, t: Tid): State
    requires Busy(s, t)
  {
    s.(stacks := s.stacks[t := s.stacks[t][..|s.stacks[t]| - 1]])
  }

  function Lock(s: State, o: Id, t: Tid): State
    requires o < |s.nodes| && Busy(s, t)
  {
    PutNode(s, o, s.nodes[o].(lock := Some(Me(s, t))))
  }

  function Unlock(s: State, o: Id): State
    requires o < |s.nodes|
  {
    PutNode(s, o, s.nodes[o].(lock := None))
  }

  function Without(spec: map<(Id, Id), Value>, o: Id): map<(Id, Id), Value> {
    map q | q in spec && q.0 != o && q.1 != o :: spec[q]
  }

  /** Drop one strong reference; the last one starts the drop glue on this thread. */
  function Release(s: State, t: Tid, o: Id, r: Ref): State
    requires t < |s.stacks| && o < |s.nodes|
  {
    var n := s.nodes[o].(refs := s.nodes[o].refs - {r});
    if n.refs != {} then PutNode(s, o, n)
    else Push(PutNode(s, o, n.(phase := Dropping(t, |s.stacks[t]|))), t, DropStart(o)).(spec := Without(s.spec, o))
  }

  /** No table stores a `Weak` to `o`. */
  predicate NoWeak(s: State, o: Id) {
    forall x, a :: 0 <= x < |s.nodes| && a in s.nodes[x].table ==> s.nodes[x].table[a].peer != o
  }

  predicate Fresh(s: State, addr: Addr) {
    forall x | 0 <= x < |s.nodes| :: s.nodes[x].phase.Freed? || s.nodes[x].addr != addr
  }

  predicate ValidPair(s: State, k: Id, m: Id) {
    k < |s.nodes| && m < |s.nodes| && s.nodes[k].kind.Key? && s.nodes[m].kind.Map?
  }

  /** Frames name existing allocations of the right kind, so that steps are well defined. */
  predicate FrameTyped(s: State, f: Frame) {
    if f.IsDrop() then
      && f.o < |s.nodes|
      && (f.HasTemp() ==> f.p < |s.nodes| && s.nodes[f.p].kind != s.nodes[f.o].kind)
    else ValidPair(s, f.k, f.m)
  }

  predicate AtTop(s: State, t: Tid) {
    Busy(s, t) && FrameTyped(s, Top(s, t))
  }

  /** `contains_key` on the locked entries: which variant of `Entry` the caller got. */
  predicate Occupied(s: State, t: Tid)
    requires AtTop(s, t) && !Top(s, t).IsDrop()
  {
    var f := Top(s, t);
    s.nodes[f.k].addr in s.nodes[f.m].table
  }

  // The effect of each step.

  function StoreValue(s: State, k: Id, m: Id, v: Value): State
    requires ValidPair(s, k, m)
  {
    var n := s.nodes[m];
    PutNode(s, m, n.(table := n.table[s.nodes[k].addr := Slot(k, v)])).(spec := s.spec[(k, m) := v])
  }

  function StepLockEntries(s: State, t: Tid): State
    requires AtTop(s, t) && Top(s, t).Enter?
  {
    var f := Top(s, t);
    SetTop(Lock(s, f.m, t), t, Guard(f.k, f.m))
  }

  function StepBeginInsert(s: State, t: Tid, v: Value): State
    requires AtTop(s, t) && Top(s, t).Guard?
  {
    var f := Top(s, t);
    SetTop(s, t, Register(f.k, f.m, v))
  }

  function StepLockForRegister(s: State, t: Tid): State
    requires AtTop(s, t) && Top(s, t).Register?
  {
    var f := Top(s, t);
    SetTop(Lock(s, f.k, t), t, Registering(f.k, f.m, f.v))
  }

  function StepDoRegister(s: State, t: Tid): State
    requires AtTop(s, t) && Top(s, t).Registering?
  {
    var f := Top(s, t);
    var k := s.nodes[f.k];
    SetTop(PutNode(s, f.k, k.(table := k.table[s.nodes[f.m].addr := Slot(f.m, 0)], lock := None)), t,
        Store(f.k, f.m, f.v))
  }

  function StepDoStore(s: State, t: Tid): State
    requires AtTop(s, t) && Top(s, t).Store?
  {
    var f := Top(s, t);
    StoreValue(SetTop(s, t, Guard(f.k, f.m)), f.k, f.m, f.v)
  }

  function StepModify(s: State, t: Tid, v: Value): State
    requires AtTop(s, t) && Top(s, t).Guard?
  {
    StoreValue(s, Top(s, t).k, Top(s, t).m, v)
  }

  function StepTakeOut(s: State, t: Tid): State
    requires AtTop(s, t) && Top(s, t).Guard?
  {
    var f := Top(s, t);
    var m := s.nodes[f.m];
    SetTop(PutNode(s, f.m, m.(table := m.table - {s.nodes[f.k].addr})), t,
        Unregister(f.k, f.m)).(spec := s.spec - {(f.k, f.m)})
  }

  function StepLockForUnregister(s: State, t: Tid): State
    requires AtTop(s, t) && Top(s, t).Unregister?
  {
    var f := Top(s, t);
    SetTop(Lock(s, f.k, t), t, Unregistering(f.k, f.m))
  }

  function StepDoUnregister(s: State, t: Tid): State
    requires AtTop(s, t) && Top(s, t).Unregistering?
  {
    var f := Top(s, t);
    var k := s.nodes[f.k];
    SetTop(PutNode(s, f.k, k.(table := k.table - {s.nodes[f.m].addr}, lock := None)), t, Closing(f.k, f.m))
  }

  function StepClose(s: State, t: Tid): State
    requires AtTop(s, t) && (Top(s, t).Guard? || Top(s, t).Closing?)
  {
    var f := Top(s, t);
    Pop(Unlock(s, f.m), t)
  }

  function StepLockOwn(s: State, t: Tid): State
    requires AtTop(s, t) && Top(s, t).DropStart?
  {
    var f := Top(s, t);
    SetTop(Lock(s, f.o, t), t, DropLoop(f.o, s.nodes[f.o].table.Keys))
  }

  /** Whether `a` is a next element of the drop loop that `t` is running. */
  predicate CanVisit(s: State, t: Tid, a: Addr) {
    && AtTop(s, t) && Top(s, t).DropLoop? && a in Top(s, t).todo
    && var o := s.nodes[Top(s, t).o];
       a in o.table && o.table[a].peer < |s.nodes| && s.nodes[o.table[a].peer].kind != o.kind
  }

  function StepVisit(s: State, t: Tid, a: Addr): State
    requires CanVisit(s, t, a)
  {
    var f := Top(s, t);
    var p := s.nodes[f.o].table[a].peer;
    if s.nodes[p].phase.Live? then
      SetTop(PutNode(s, p, s.nodes[p].(refs := s.nodes[p].refs + {Temp(t)})), t, PeerWait(f.o, f.todo - {a}, p))
    else SetTop(s, t, DropLoop(f.o, f.todo - {a}))
  }

  function StepLockPeer(s: State, t: Tid): State
    requires AtTop(s, t) && Top(s, t).PeerWait?
  {
    var f := Top(s, t);
    SetTop(Lock(s, f.p, t), t, PeerLocked(f.o, f.todo, f.p))
  }

  function StepRemoveFromPeer(s: State, t: Tid): State
    requires AtTop(s, t) && Top(s, t).PeerLocked?
  {
    var f := Top(s, t);
    var p := s.nodes[f.p];
    SetTop(PutNode(s, f.p, p.(table := p.table - {s.nodes[f.o].addr}, lock := None)), t, PeerRelease(f.o, f.todo, f.p))
  }

  function StepReleasePeer(s: State, t: Tid): State
    requires AtTop(s, t) && Top(s, t).PeerRelease?
  {
    var f := Top(s, t);
    Release(SetTop(s, t, DropLoop(f.o, f.todo)), t, f.p, Temp(t))
  }

  function StepFinishDrop(s: State, t: Tid): State
    requires AtTop(s, t) && Top(s, t).DropLoop?
  {
    var f := Top(s, t);
    Pop(PutNode(s, f.o, s.nodes[f.o].(phase := Dropped, table := map[], lock := None)), t)
  }

  /**
   The caller drops an owned `Arc`, perhaps while it holds an `Entry`; the borrow checker keeps a borrowed one alive.
   */
  predicate CanDropHandle(s: State, t: Tid, o: Id, n: nat) {
    && WithCaller(s, t) && o < |s.nodes| && Handle(n) in s.nodes[o].refs
    && (Borrowed(s, o) ==> HasHandle(s.nodes[o].(refs := s.nodes[o].refs - {Handle(n)})))
  }

  /** The caller calls `entry`, perhaps while it holds another `Entry`. */
  predicate CanBeginEntry(s: State, t: Tid, k: Id, m: Id) {
    WithCaller(s, t) && ValidPair(s, k, m) && HasHandle(s.nodes[k]) && HasHandle(s.nodes[m])
  }

  /** Action `a` leads from `s` to `s'`: its guard holds and `s'` is its effect. */
  predicate Step(s: State, a: Action, s': State) {
    match a
    case New(kind, addr) => Fresh(s, addr)
        && s' == s.(nodes := s.nodes + [Node(kind, addr, {Handle(0)}, Live, map[], None)])
    case Clone(o, n) =>
      && o < |s.nodes| && s.nodes[o].kind.Key? && HasHandle(s.nodes[o]) && Handle(n) !in s.nodes[o].refs
      && s' == PutNode(s, o, s.nodes[o].(refs := s.nodes[o].refs + {Handle(n)}))
    case DropHandle(t, o, n) => CanDropHandle(s, t, o, n) && s' == Release(s, t, o, Handle(n))
    case Free(o) => o < |s.nodes| && s.nodes[o].phase.Dropped? && NoWeak(s, o)
        && s' == PutNode(s, o, s.nodes[o].(phase := Freed))
    case BeginEntry(t, k, m) => CanBeginEntry(s, t, k, m) && s' == Push(s, t, Enter(k, m))
    case LockEntries(t) => AtTop(s, t) && Top(s, t).Enter? && s.nodes[Top(s, t).m].lock.None?
        && s' == StepLockEntries(s, t)
    case BeginInsert(t, v) => AtTop(s, t) && Top(s, t).Guard? && !Occupied(s, t) && s' == StepBeginInsert(s, t, v)
    case LockForRegister(t) => AtTop(s, t) && Top(s, t).Register? && s.nodes[Top(s, t).k].lock.None?
        && s' == StepLockForRegister(s, t)
    case DoRegister(t) => AtTop(s, t) && Top(s, t).Registering? && s' == StepDoRegister(s, t)
    case DoStore(t) => AtTop(s, t) && Top(s, t).Store? && s' == StepDoStore(s, t)
    case Modify(t, v) => AtTop(s, t) && Top(s, t).Guard? && Occupied(s, t) && s' == StepModify(s, t, v)
    case TakeOut(t) => AtTop(s, t) && Top(s, t).Guard? && Occupied(s, t) && s' == StepTakeOut(s, t)
    case LockForUnregister(t) => AtTop(s, t) && Top(s, t).Unregister? && s.nodes[Top(s, t).k].lock.None?
        && s' == StepLockForUnregister(s, t)
    case DoUnregister(t) => AtTop(s, t) && Top(s, t).Unregistering? && s' == StepDoUnregister(s, t)
    case Close(t) => AtTop(s, t) && (Top(s, t).Guard? || Top(s, t).Closing?) && s' == StepClose(s, t)
    case LockOwn(t) => AtTop(s, t) && Top(s, t).DropStart? && s.nodes[Top(s, t).o].lock.None? && s' == StepLockOwn(s, t)
    case Visit(t, a) => CanVisit(s, t, a) && s' == StepVisit(s, t, a)
    case LockPeer(t) => AtTop(s, t) && Top(s, t).PeerWait? && s.nodes[Top(s, t).p].lock.None?
        && s' == StepLockPeer(s, t)
    case RemoveFromPeer(t) => AtTop(s, t) && Top(s, t).PeerLocked? && s' == StepRemoveFromPeer(s, t)
    case ReleasePeer(t) => AtTop(s, t) && Top(s, t).PeerRelease? && s' == StepReleasePeer(s, t)
    case FinishDrop(t) => AtTop(s, t) && Top(s, t).DropLoop? && Top(s, t).todo == {} && s' == StepFinishDrop(s, t)
  }

  predicate Init(s: State) {
    s.nodes == [] && s.spec == map[] && forall t | 0 <= t < |s.stacks| :: s.stacks[t] == []
  }

  /** Every state but the first follows from the one before it by a step. */
  ghost predicate Path(states: seq<State>, actions: seq<Action>) {
    && |states| == |actions| + 1
    && forall i {:trigger actions[i]} :: 0 <= i < |actions| ==> Step(states[i], actions[i], states[i + 1])
  }

  /** Some sequence of steps, of any threads, leads from `s` to `s'`. */
  ghost predicate Leads(s: State, s': State) {
    exists states: seq<State>, actions: seq<Action> ::
        Path(states, actions) && states[0] == s && states[|actions|] == s'
  }

  ghost predicate Reachable(s: State) {
    exists init :: Init(init) && Leads(init, s)
  }
}
