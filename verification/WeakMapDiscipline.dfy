/**
 Two disciplines under which the weak map never deadlocks. Under both, a thread that holds an `Entry` may drop a
 reference that is not the last, or the last one of a key in no map or of an empty map.

 `One(t)`: thread `t` may also take further Entries, of maps whose `Entry` it does not hold, and drop anything while
 the maps whose Entries it holds store only keys that those Entries borrow.

 `Ranked(rank)`: every thread may take further Entries, of maps of higher rank than all those it holds one of.
 */
module WeakMapDiscipline {
  import opened Options
  import opened WeakMapModel
  import opened WeakMapInvariant
  import opened WeakMapTheorems
  import opened WeakMapNesting

  datatype Policy = One(t: Tid) | Ranked(rank: Id -> int)

  /** A thread `u` that holds the Entries of `st` may ask for one of map `m`. */
  ghost predicate EnterOk(pol: Policy, u: Tid, st: seq<Frame>, m: Id) {
    match pol
    case One(t) => u == t && forall i | 0 <= i < |st| && st[i].Guard? :: st[i].m != m
    case Ranked(rank) => forall i | 0 <= i < |st| && st[i].Guard? :: rank(st[i].m) < rank(m)
  }

  /** One of the Entries of `st` borrows key `y`. */
  ghost predicate BorrowsKey(st: seq<Frame>, y: Id) {
    exists i | 0 <= i < |st| :: st[i].Guard? && st[i].k == y
  }

  /** The maps whose Entries `u` holds store only keys that these Entries borrow. */
  ghost predicate SelfContained(s: State, u: Tid) {
    forall m: Id, y: Id | HoldsEntry(s, u, m) && (y, m) in s.spec :: BorrowsKey(s.stacks[u], y)
  }

  /** Action `a` in state `s` keeps to the discipline. */
  ghost predicate Obeys(s: State, a: Action, pol: Policy) {
    match a
    case BeginEntry(u, _, m) => u < |s.stacks| && (s.stacks[u] == [] || EnterOk(pol, u, s.stacks[u], m))
    case DropHandle(u, o, n) =>
      && u < |s.stacks| && o < |s.nodes|
      && (|| s.stacks[u] == [] || s.nodes[o].refs != {Handle(n)} || s.nodes[o].table == map[]
          || (pol == One(u) && SelfContained(s, u)))
    case _ => true
  }

  // ---------------------------------------------------------------------------------------------
  // Tame threads
  // ---------------------------------------------------------------------------------------------

  /** Below an `Entry` or an entry operation there are only Entries. */
  ghost predicate GuardsFirst(st: seq<Frame>) {
    forall i, j | 0 <= i < j < |st| && !st[j].IsDrop() :: st[i].Guard?
  }

  ghost predicate GuardBelow(st: seq<Frame>) {
    exists i | 0 <= i < |st| - 1 :: st[i].Guard?
  }

  /** A destructor with nothing to visit. */
  ghost predicate QuietDrop(s: State, f: Frame) {
    f.IsDrop() && f.o < |s.nodes| && s.nodes[f.o].table == map[] && (f.DropStart? || (f.DropLoop? && f.todo == {}))
  }

  /** Key `y` will not be destroyed by `u` while it holds the Entries of its stack. */
  ghost predicate KeyIsSafe(s: State, u: Tid, y: Id)
    requires u < |s.stacks| && y < |s.nodes|
  {
    BorrowsKey(s.stacks[u], y) || (s.nodes[y].phase.Dropping? && s.nodes[y].phase.thread != u)
  }

  /** No key that refers to a map held by `u` will be destroyed by `u`. */
  ghost predicate Shielded(s: State, u: Tid)
    requires u < |s.stacks|
  {
    forall i, y | 0 <= i < |s.stacks[u]| && s.stacks[u][i].Guard? && Refers(s, y, s.stacks[u][i].m) ::
        KeyIsSafe(s, u, y)
  }

  /** Key `y` has map `m` registered. */
  ghost predicate Refers(s: State, y: Id, m: Id) {
    y < |s.nodes| && m < |s.nodes| && s.nodes[y].kind.Key? && Linked(s.nodes, y, m)
  }

  ghost predicate TameDrop(s: State, u: Tid, pol: Policy)
    requires Busy(s, u) && |s.stacks[u]| > 1
  {
    || (s.stacks[u][|s.stacks[u]| - 2].Guard? && QuietDrop(s, Top(s, u)))
    || (pol == One(u) && Shielded(s, u))
  }

  ghost predicate TameThread(s: State, u: Tid, pol: Policy) {
    Busy(s, u) ==>
      && var st, f := s.stacks[u], Top(s, u);
      && GuardsFirst(st)
      && (f.IsDrop() && GuardBelow(st) ==> TameDrop(s, u, pol))
      && (f.Enter? && |st| > 1 ==> EnterOk(pol, u, st[..|st| - 1], f.m))
  }

  ghost predicate Tame(s: State, pol: Policy) {
    forall u: Tid :: TameThread(s, u, pol)
  }

  // ---------------------------------------------------------------------------------------------
  // A shielded thread stays shielded while its destructors run
  // ---------------------------------------------------------------------------------------------

  /** While an `Entry` of `m` is held, no key gets `m` registered by another frame. */
  lemma NoNewReference(s: State, a: Action, s': State, w: Owner, y: Id, m: Id)
    requires Step(s, a, s') && ActorOk(s, a) && m < |s.nodes| && s.nodes[m].lock == Some(w)
    requires HasFrame(s, w) && s.stacks[w.t][w.i].Guard? && Refers(s', y, m)
    ensures Refers(s, y, m)
  {
    if a.DoRegister? { NoNewRegistration(s, a.t, w, y, m); }
    else if IsDropAction(a) { NoNewReferenceByDrop(s, a, s', y, m); }
  }

  lemma NoNewRegistration(s: State, t: Tid, w: Owner, y: Id, m: Id)
    requires AtTop(s, t) && Top(s, t).Registering? && TopOk(s, t) && m < |s.nodes| && s.nodes[m].lock == Some(w)
    requires HasFrame(s, w) && s.stacks[w.t][w.i].Guard? && Refers(StepDoRegister(s, t), y, m)
    ensures Refers(s, y, m)
  {
  }

  lemma NoNewReferenceByDrop(s: State, a: Action, s': State, y: Id, m: Id)
    requires Step(s, a, s') && IsDropAction(a) && m < |s.nodes| && Refers(s', y, m)
    ensures Refers(s, y, m)
  {
  }

  /** A key that is being destroyed elsewhere goes on being, or refers to nothing any more. */
  lemma DroppingStays(s: State, a: Action, s': State, y: Id)
    requires Step(s, a, s') && ActorOk(s, a) && NodesOk(s.nodes) && y < |s.nodes| && s.nodes[y].phase.Dropping?
    ensures y < |s'.nodes| && (s'.nodes[y].phase == s.nodes[y].phase || s'.nodes[y].table == map[])
  {
    if IsDropAction(a) { DroppingStaysByDrop(s, a, s', y); }
  }

  lemma DroppingStaysByDrop(s: State, a: Action, s': State, y: Id)
    requires Step(s, a, s') && ActorOk(s, a) && NodesOk(s.nodes) && y < |s.nodes| && s.nodes[y].phase.Dropping?
    requires IsDropAction(a)
    ensures y < |s'.nodes| && (s'.nodes[y].phase == s.nodes[y].phase || s'.nodes[y].table == map[])
  {
  }

  /** `st'` holds the Entries of `st` and no others. */
  ghost predicate SameGuards(st: seq<Frame>, st': seq<Frame>) {
    && (forall i | 0 <= i < |st| && st[i].Guard? :: i < |st'| && st'[i] == st[i])
    && (forall i | 0 <= i < |st'| && st'[i].Guard? :: i < |st| && st[i] == st'[i])
  }

  lemma SameGuardsBorrow(st: seq<Frame>, st': seq<Frame>, y: Id)
    requires SameGuards(st, st') && BorrowsKey(st, y)
    ensures BorrowsKey(st', y)
  {
    var i :| 0 <= i < |st| && st[i].Guard? && st[i].k == y;
    assert st'[i] == st[i];
  }

  lemma ShieldedStep(s: State, a: Action, s': State, u: Tid)
    requires Inv(s) && Step(s, a, s') && u < |s.stacks| && u < |s'.stacks| && Shielded(s, u)
    requires SameGuards(s.stacks[u], s'.stacks[u])
    ensures Shielded(s', u)
  {
    ActorIsOk(s, a);
    forall i, y | 0 <= i < |s'.stacks[u]| && s'.stacks[u][i].Guard? && Refers(s', y, s'.stacks[u][i].m)
      ensures KeyIsSafe(s', u, y)
    {
      assert FrameOk(s.nodes, u, s.stacks[u], i);
      ShieldedKey(s, a, s', u, i, y);
    }
  }

  lemma ShieldedKey(s: State, a: Action, s': State, u: Tid, i: nat, y: Id)
    requires Step(s, a, s') && ActorOk(s, a) && NodesOk(s.nodes) && u < |s.stacks| && u < |s'.stacks| && Shielded(s, u)
    requires SameGuards(s.stacks[u], s'.stacks[u]) && i < |s.stacks[u]| && s.stacks[u][i].Guard?
    requires FrameOk(s.nodes, u, s.stacks[u], i) && Refers(s', y, s.stacks[u][i].m)
    ensures KeyIsSafe(s', u, y)
  {
    NoNewReference(s, a, s', Owner(u, i), y, s.stacks[u][i].m);
    assert KeyIsSafe(s, u, y);
    if BorrowsKey(s.stacks[u], y) {
      SameGuardsBorrow(s.stacks[u], s'.stacks[u], y);
    } else {
      DroppingStays(s, a, s', y);
    }
  }

  /** A self-contained thread that starts to destroy something is shielded. */
  lemma SelfContainedShields(s: State, u: Tid, o: Id, n: nat)
    requires Inv(s) && CanDropHandle(s, u, o, n) && s.nodes[o].refs == {Handle(n)}
    requires GuardsFirst(s.stacks[u]) && SelfContained(s, u)
    ensures Shielded(Release(s, u, o, Handle(n)), u)
  {
    var s' := Release(s, u, o, Handle(n));
    LastDropStarts(s, u, o, n);
    forall i, y | 0 <= i < |s'.stacks[u]| && s'.stacks[u][i].Guard? && Refers(s', y, s'.stacks[u][i].m)
      ensures KeyIsSafe(s', u, y)
    {
      var m := s'.stacks[u][i].m;
      assert s.stacks[u][i] == s'.stacks[u][i] && Refers(s, y, m);
      SelfContainedKey(s, u, i, y);
      if BorrowsKey(s.stacks[u], y) { BorrowsMore(s.stacks[u], DropStart(o), y); }
    }
  }

  lemma BorrowsMore(st: seq<Frame>, f: Frame, y: Id)
    requires BorrowsKey(st, y)
    ensures BorrowsKey(st + [f], y)
  {
    var i :| 0 <= i < |st| && st[i].Guard? && st[i].k == y;
    assert (st + [f])[i] == st[i];
  }

  lemma SelfContainedKey(s: State, u: Tid, i: nat, y: Id)
    requires Inv(s) && WithCaller(s, u) && GuardsFirst(s.stacks[u]) && SelfContained(s, u)
    requires i < |s.stacks[u]| && s.stacks[u][i].Guard? && Refers(s, y, s.stacks[u][i].m)
    ensures KeyIsSafe(s, u, y)
  {
    var m := s.stacks[u][i].m;
    assert HoldsEntry(s, u, m);
    if s.nodes[y].phase.Live? {
      HeldIndex(s, u, y, m);
    } else if s.nodes[y].phase.Dropping? {
      assert RunningDrop(s, y);
    }
  }

  // ---------------------------------------------------------------------------------------------
  // The discipline keeps every thread tame
  // ---------------------------------------------------------------------------------------------

  lemma TameOther(s: State, a: Action, s': State, u: Tid, pol: Policy)
    requires Inv(s) && Step(s, a, s') && TameThread(s, u, pol) && !ActionOf(a, u)
    ensures TameThread(s', u, pol)
  {
    ActorIsOk(s, a);
    StepGrows(s, a, s');
    if Busy(s, u) {
      TopFacts(s, u);
      OthersKept(s, a, s', u);
      if QuietDrop(s, Top(s, u)) { DeadTableShrinks(s, a, s', Top(s, u).o); }
      if Shielded(s, u) { ShieldedStep(s, a, s', u); }
    }
    TameSame(s, s', u, pol);
  }

  lemma TameSame(s: State, s': State, u: Tid, pol: Policy)
    requires |s'.stacks| == |s.stacks| && (u < |s.stacks| ==> s'.stacks[u] == s.stacks[u]) && TameThread(s, u, pol)
    requires Busy(s, u) && QuietDrop(s, Top(s, u)) ==> QuietDrop(s', Top(s, u))
    requires Busy(s, u) && Shielded(s, u) ==> Shielded(s', u)
    ensures TameThread(s', u, pol)
  {
  }

  /** The thread's own step, when it stays at the same depth. */
  lemma TameTurn(s: State, s': State, u: Tid, pol: Policy, f: Frame)
    requires Busy(s, u) && |s'.stacks| == |s.stacks| && s'.stacks[u] == s.stacks[u][|s.stacks[u]| - 1 := f]
    requires TameThread(s, u, pol) && !f.Enter? && f.IsDrop() == Top(s, u).IsDrop()
    requires f.IsDrop() && QuietDrop(s, Top(s, u)) ==> QuietDrop(s', f)
    requires f.IsDrop() && Shielded(s, u) ==> Shielded(s', u)
    ensures TameThread(s', u, pol)
  {
    var st, st' := s.stacks[u], s'.stacks[u];
    assert forall i | 0 <= i < |st| - 1 :: st'[i] == st[i];
    assert GuardBelow(st') ==> GuardBelow(st);
  }

  /** The thread's own step, when an operation ends. */
  lemma TamePop(s: State, s': State, u: Tid, pol: Policy)
    requires Busy(s, u) && |s'.stacks| == |s.stacks| && s'.stacks[u] == s.stacks[u][..|s.stacks[u]| - 1]
    requires TameThread(s, u, pol) && BelowOk(s, u)
    requires Top(s, u).IsDrop() && Shielded(s, u) ==> Shielded(s', u)
    ensures TameThread(s', u, pol)
  {
    var st, st' := s.stacks[u], s'.stacks[u];
    assert forall i | 0 <= i < |st'| :: st'[i] == st[i];
    if i :| 0 <= i < |st'| - 1 && st'[i].Guard? { assert st[i].Guard?; }
  }

  ghost predicate BelowOk(s: State, u: Tid) {
    u < |s.stacks| && |s.stacks[u]| > 1 ==>
      var below := s.stacks[u][|s.stacks[u]| - 2]; below.Guard? || below.DropLoop?
  }

  /** The thread's own step, when the caller begins an operation. */
  lemma TamePush(s: State, s': State, u: Tid, pol: Policy, f: Frame)
    requires WithCaller(s, u) && |s'.stacks| == |s.stacks| && s'.stacks[u] == s.stacks[u] + [f] && TameThread(s, u, pol)
    requires f.Enter? || f.DropStart?
    requires f.Enter? && s.stacks[u] != [] ==> EnterOk(pol, u, s.stacks[u], f.m)
    requires f.DropStart? && s.stacks[u] != [] ==> QuietDrop(s', f) || (pol == One(u) && Shielded(s', u))
    ensures TameThread(s', u, pol)
  {
    var st, st' := s.stacks[u], s'.stacks[u];
    assert forall i | 0 <= i < |st| :: st'[i] == st[i];
    assert st'[..|st'| - 1] == st;
  }

  /** A destructor lets go of a peer, which may start the peer's own destructor. */
  lemma TameRelease(s: State, s': State, u: Tid, pol: Policy)
    requires Busy(s, u) && |s'.stacks| == |s.stacks| && TameThread(s, u, pol) && Top(s, u).PeerRelease?
    requires var f := Top(s, u);
             var st := s.stacks[u][|s.stacks[u]| - 1 := DropLoop(f.o, f.todo)];
             s'.stacks[u] == st || s'.stacks[u] == st + [DropStart(f.p)]
    requires Shielded(s, u) ==> Shielded(s', u)
    ensures TameThread(s', u, pol)
  {
    var st, st' := s.stacks[u], s'.stacks[u];
    assert forall i | 0 <= i < |st| - 1 :: st'[i] == st[i];
    if i :| 0 <= i < |st'| - 1 && st'[i].Guard? { assert st[i].Guard?; }
  }

  lemma TameOwnBegin(s: State, a: Action, s': State, pol: Policy)
    requires Inv(s) && Step(s, a, s') && Obeys(s, a, pol) && (a.BeginEntry? || a.DropHandle?) && TameThread(s, a.t, pol)
    ensures TameThread(s', a.t, pol)
  {
    var u := a.t;
    if a.BeginEntry? {
      TamePush(s, s', u, pol, Enter(a.k, a.m));
    } else if s.nodes[a.o].refs == {Handle(a.n)} {
      LastDropStarts(s, u, a.o, a.n);
      if SelfContained(s, u) { SelfContainedShields(s, u, a.o, a.n); }
      TamePush(s, s', u, pol, DropStart(a.o));
    } else {
      DropOfSharedReturns(s, u, a.o, a.n);
      if Shielded(s, u) { ShieldedStep(s, a, s', u); }
      TameSame(s, s', u, pol);
    }
  }

  ghost predicate IsEntryTurn(a: Action) {
    || a.LockEntries? || a.BeginInsert? || a.LockForRegister? || a.DoRegister? || a.DoStore? || a.Modify?
    || a.TakeOut? || a.LockForUnregister? || a.DoUnregister?
  }

  lemma TameOwnEntry(s: State, a: Action, s': State, pol: Policy)
    requires Step(s, a, s') && IsEntryTurn(a) && TameThread(s, a.t, pol)
    ensures TameThread(s', a.t, pol)
  {
    EntryTurn(s, a, s');
    TameTurn(s, s', a.t, pol, Top(s', a.t));
  }

  lemma EntryTurn(s: State, a: Action, s': State)
    requires Step(s, a, s') && IsEntryTurn(a)
    ensures Busy(s, a.t) && Busy(s', a.t) && |s'.stacks| == |s.stacks|
    ensures s'.stacks[a.t] == s.stacks[a.t][|s.stacks[a.t]| - 1 := Top(s', a.t)]
    ensures !Top(s, a.t).IsDrop() && !Top(s', a.t).IsDrop() && !Top(s', a.t).Enter?
  {
  }

  ghost predicate IsDropTurn(a: Action) {
    a.LockOwn? || a.Visit? || a.LockPeer? || a.RemoveFromPeer?
  }

  lemma TameOwnDrop(s: State, a: Action, s': State, pol: Policy)
    requires Inv(s) && Step(s, a, s') && IsDropTurn(a) && TameThread(s, a.t, pol)
    ensures TameThread(s', a.t, pol)
  {
    DropTurn(s, a, s');
    TurnKeepsGuards(s.stacks[a.t], Top(s', a.t));
    if Shielded(s, a.t) { ShieldedStep(s, a, s', a.t); }
    TameTurn(s, s', a.t, pol, Top(s', a.t));
  }

  lemma TurnKeepsGuards(st: seq<Frame>, f: Frame)
    requires st != [] && st[|st| - 1].IsDrop() && f.IsDrop()
    ensures SameGuards(st, st[|st| - 1 := f])
    ensures SameGuards(st, st[..|st| - 1])
    ensures forall p :: SameGuards(st, st[|st| - 1 := f] + [DropStart(p)])
  {
  }

  lemma DropTurn(s: State, a: Action, s': State)
    requires Step(s, a, s') && IsDropTurn(a)
    ensures Busy(s, a.t) && Busy(s', a.t) && |s'.stacks| == |s.stacks|
    ensures s'.stacks[a.t] == s.stacks[a.t][|s.stacks[a.t]| - 1 := Top(s', a.t)]
    ensures Top(s, a.t).IsDrop() && Top(s', a.t).IsDrop()
    ensures QuietDrop(s, Top(s, a.t)) ==> QuietDrop(s', Top(s', a.t))
  {
  }

  lemma TameOwnEnd(s: State, a: Action, s': State, pol: Policy)
    requires Inv(s) && Step(s, a, s') && (a.Close? || a.FinishDrop? || a.ReleasePeer?) && TameThread(s, a.t, pol)
    ensures TameThread(s', a.t, pol)
  {
    FramesFacts(s, a.t);
    EndShape(s, a, s');
    if Top(s, a.t).IsDrop() {
      var f := Top(s, a.t);
      TurnKeepsGuards(s.stacks[a.t], DropLoop(f.o, if f.DropStart? then {} else f.todo));
      if Shielded(s, a.t) { ShieldedStep(s, a, s', a.t); }
    }
    if a.ReleasePeer? { TameRelease(s, s', a.t, pol); } else { TamePop(s, s', a.t, pol); }
  }

  lemma EndShape(s: State, a: Action, s': State)
    requires Step(s, a, s') && (a.Close? || a.FinishDrop? || a.ReleasePeer?)
    ensures Busy(s, a.t) && |s'.stacks| == |s.stacks|
    ensures a.Close? ==> !Top(s, a.t).IsDrop()
    ensures a.FinishDrop? ==> Top(s, a.t).IsDrop()
    ensures a.Close? || a.FinishDrop? ==> s'.stacks[a.t] == s.stacks[a.t][..|s.stacks[a.t]| - 1]
    ensures a.ReleasePeer? ==>
              && Top(s, a.t).PeerRelease?
              && var f := Top(s, a.t);
                 var st := s.stacks[a.t][|s.stacks[a.t]| - 1 := DropLoop(f.o, f.todo)];
                 s'.stacks[a.t] == st || s'.stacks[a.t] == st + [DropStart(f.p)]
  {
  }

  lemma TameOwn(s: State, a: Action, s': State, pol: Policy)
    requires Inv(s) && Step(s, a, s') && Obeys(s, a, pol) && !a.New? && !a.Clone? && !a.Free? && TameThread(s, a.t, pol)
    ensures TameThread(s', a.t, pol)
  {
    if a.BeginEntry? || a.DropHandle? { TameOwnBegin(s, a, s', pol); }
    else if IsEntryTurn(a) { TameOwnEntry(s, a, s', pol); }
    else if IsDropTurn(a) { TameOwnDrop(s, a, s', pol); }
    else { TameOwnEnd(s, a, s', pol); }
  }

  lemma FramesFacts(s: State, u: Tid)
    requires Inv(s)
    ensures BelowOk(s, u)
  {
    if u < |s.stacks| && |s.stacks[u]| > 1 { assert FrameOk(s.nodes, u, s.stacks[u], |s.stacks[u]| - 2); }
  }

  lemma TameAny(s: State, a: Action, s': State, u: Tid, pol: Policy)
    requires Inv(s) && Step(s, a, s') && Obeys(s, a, pol) && TameThread(s, u, pol)
    ensures TameThread(s', u, pol)
  {
    if ActionOf(a, u) { TameOwn(s, a, s', pol); } else { TameOther(s, a, s', u, pol); }
  }

  /** The discipline keeps every thread tame. */
  lemma TameStep(s: State, a: Action, s': State, pol: Policy)
    requires Inv(s) && Tame(s, pol) && Step(s, a, s') && Obeys(s, a, pol)
    ensures Tame(s', pol)
  {
    forall u: Tid ensures TameThread(s', u, pol) {
      assert TameThread(s, u, pol);
      TameAny(s, a, s', u, pol);
    }
  }

  // ---------------------------------------------------------------------------------------------
  // Tame threads do not deadlock
  // ---------------------------------------------------------------------------------------------

  lemma HoldsBelowGuard(s: State, u: Tid, m: Id)
    requires HoldsBelow(s, u, m)
    ensures exists i | 0 <= i < |s.stacks[u]| - 1 :: s.stacks[u][i].Guard? && s.stacks[u][i].m == m
    ensures GuardBelow(s.stacks[u])
  {
    var i :| 0 <= i < |s.stacks[u]| - 1 && s.stacks[u][i].Guard? && s.stacks[u][i].m == m;
  }

  /** A thread other than the one allowed to nest does not nest. */
  lemma TameNests(s: State, u: Tid, t: Tid)
    requires TameThread(s, u, One(t)) && u != t
    ensures !Nests(s, u)
  {
    forall m: Id | HoldsBelow(s, u, m) ensures GuardBelow(s.stacks[u]) { HoldsBelowGuard(s, u, m); }
  }

  /** The one that may nest does not wait for a map it holds. */
  lemma TameWaits(s: State, t: Tid, m: Id)
    requires Inv(s) && TameThread(s, t, One(t)) && WaitsForMap(s, t, m)
    ensures !HoldsBelow(s, t, m)
  {
    if Top(s, t).IsDrop() { TopFacts(s, t); TameDropWaits(s, t, m); } else { TameEnterWaits(s, t, m); }
  }

  lemma TameEnterWaits(s: State, t: Tid, m: Id)
    requires TameThread(s, t, One(t)) && WaitsForMap(s, t, m) && Top(s, t).Enter?
    ensures !HoldsBelow(s, t, m)
  {
    var below := s.stacks[t][..|s.stacks[t]| - 1];
    assert forall i | 0 <= i < |s.stacks[t]| - 1 :: below[i] == s.stacks[t][i];
  }

  lemma TameDropWaits(s: State, t: Tid, m: Id)
    requires Inv(s) && TopOk(s, t) && TameThread(s, t, One(t)) && WaitsForMap(s, t, m) && Top(s, t).IsDrop()
    ensures !HoldsBelow(s, t, m)
  {
    BorrowedIsLive(s, t, Top(s, t).o);
    assert Refers(s, Top(s, t).o, m);
    if HoldsBelow(s, t, m) {
      HoldsBelowGuard(s, t, m);
      ShieldedSafe(s, t, Top(s, t).o, m);
    }
  }

  lemma ShieldedSafe(s: State, t: Tid, y: Id, m: Id)
    requires t < |s.stacks| && Shielded(s, t) && HoldsBelow(s, t, m) && Refers(s, y, m)
    ensures KeyIsSafe(s, t, y)
  {
    var i :| 0 <= i < |s.stacks[t]| - 1 && s.stacks[t][i].Guard? && s.stacks[t][i].m == m;
  }

  lemma BorrowedIsLive(s: State, u: Tid, y: Id)
    requires Inv(s) && u < |s.stacks| && y < |s.nodes|
    ensures BorrowsKey(s.stacks[u], y) ==> s.nodes[y].phase.Live?
  {
    if i :| 0 <= i < |s.stacks[u]| && s.stacks[u][i].Guard? && s.stacks[u][i].k == y {
      assert FrameOk(s.nodes, u, s.stacks[u], i);
    }
  }

  /** The rank of the map that `u` waits for. */
  ghost function WantedRank(s: State, u: Tid, rank: Id -> int): int {
    if Blocked(s, u) then rank(Wants(s, u).value) else 0
  }

  /** A thread of `d` that waits for a map of the highest rank. */
  lemma {:induction false} HighestWaiter(s: State, d: set<Tid>, rank: Id -> int) returns (t: Tid)
    requires d != {}
    ensures t in d && forall u: Tid | u in d :: WantedRank(s, u, rank) <= WantedRank(s, t, rank)
  {
    var v: Tid :| v in d;
    t := v;
    if d - {v} != {} {
      var w := HighestWaiter(s, d - {v}, rank);
      if WantedRank(s, w, rank) > WantedRank(s, v, rank) { t := w; }
    }
  }

  /** Under ranks, whoever holds the map that a thread waits for, and nests, waits for a higher one. */
  lemma RankRises(s: State, t: Tid, b: Tid, rank: Id -> int)
    requires Inv(s) && TameThread(s, b, Ranked(rank)) && BlockedOn(s, t, b) && Blocked(s, b) && Nests(s, b)
    ensures rank(Wants(s, t).value) < rank(Wants(s, b).value)
  {
    TopFacts(s, t);
    WantedIsLive(s, t);
    var m := Wants(s, t).value;
    var i := s.nodes[m].lock.value.i;
    assert FrameOk(s.nodes, b, s.stacks[b], i) && HoldsLock(s.stacks[b][i], m);
    RankOfHeld(s, b, i, m, rank);
  }

  lemma RankOfHeld(s: State, b: Tid, i: nat, m: Id, rank: Id -> int)
    requires TameThread(s, b, Ranked(rank)) && Blocked(s, b) && Nests(s, b) && i < |s.stacks[b]|
    requires HoldsLock(s.stacks[b][i], m)
    requires (i < |s.stacks[b]| - 1 ==> s.stacks[b][i].Guard? || s.stacks[b][i].DropLoop?)
    ensures rank(m) < rank(Wants(s, b).value)
  {
    var x: Id, y: Id :| WaitsForMap(s, b, x) && HoldsBelow(s, b, y);
    HoldsBelowGuard(s, b, y);
    assert s.stacks[b][..|s.stacks[b]| - 1][i] == s.stacks[b][i];
  }

  lemma TameIsFree(s: State, pol: Policy)
    requires Reachable(s) && Tame(s, pol)
    ensures !HasDeadlock(s)
  {
    match pol
    case One(t) => OneIsFree(s, t);
    case Ranked(rank) => RankedIsFree(s, rank);
  }

  lemma OneIsFree(s: State, t: Tid)
    requires Reachable(s) && Tame(s, One(t))
    ensures !HasDeadlock(s)
  {
    ReachableInv(s);
    forall u: Tid | u != t ensures !Nests(s, u) { assert TameThread(s, u, One(t)); TameNests(s, u, t); }
    assert TameThread(s, t, One(t));
    forall m: Id | WaitsForMap(s, t, m) ensures !HoldsBelow(s, t, m) { TameWaits(s, t, m); }
    DeadlockOfOneIff(s, t);
  }

  lemma RankedIsFree(s: State, rank: Id -> int)
    requires Reachable(s) && Tame(s, Ranked(rank))
    ensures !HasDeadlock(s)
  {
    ReachableInv(s);
    DeadlockIff(s);
    if HasDeadlock(s) {
      var d :| Deadlocked(s, d) && AllNest(s, d);
      var t := HighestWaiter(s, d, rank);
      var b := Blocker(s, t);
      assert TameThread(s, b, Ranked(rank));
      RankRises(s, t, b, rank);
    }
  }

  // ---------------------------------------------------------------------------------------------
  // Disciplined runs
  // ---------------------------------------------------------------------------------------------

  /** A path every step of which keeps to the discipline. */
  ghost predicate Disciplined(states: seq<State>, actions: seq<Action>, pol: Policy) {
    Path(states, actions) && forall i | 0 <= i < |actions| :: Obeys(states[i], actions[i], pol)
  }

  lemma DisciplinedIsTame(states: seq<State>, actions: seq<Action>, pol: Policy)
    requires Disciplined(states, actions, pol) && Inv(states[0]) && Tame(states[0], pol)
    ensures Inv(states[|actions|]) && Tame(states[|actions|], pol)
  {
    var p := (r: State) => Inv(r) && Tame(r, pol);
    var q := (r: State, a: Action) => Obeys(r, a, pol);
    forall r, a, r' | p(r) && q(r, a) && Step(r, a, r') ensures p(r') { TameNext(r, a, r', pol); }
    KeptAlongIf(p, q, states, actions, |actions|);
  }

  lemma TameNext(s: State, a: Action, s': State, pol: Policy)
    requires Inv(s) && Tame(s, pol) && Step(s, a, s') && Obeys(s, a, pol)
    ensures Inv(s') && Tame(s', pol)
  {
    InvStep(s, a, s');
    TameStep(s, a, s', pol);
  }

  /** Nobody deadlocks: a thread inside an operation waits, directly or not, for one that can step. */
  ghost predicate EverybodyCanGoOn(s: State) {
    !HasDeadlock(s) && forall u: Tid | Busy(s, u) :: exists v :: WaitsFor(s, u, v) && CanStep(s, v)
  }

  lemma TameGoesOn(s: State, pol: Policy)
    requires Reachable(s) && Tame(s, pol)
    ensures EverybodyCanGoOn(s)
  {
    ReachableInv(s);
    TameIsFree(s, pol);
    AllWaitsOk(s);
    forall u: Tid | Busy(s, u) ensures exists v :: WaitsFor(s, u, v) && CanStep(s, v) { var v := RunnerFor(s, u); }
  }

  lemma InitIsTame(s: State, pol: Policy)
    requires Init(s)
    ensures Inv(s) && Tame(s, pol)
  {
  }

  /** In every state of every disciplined run everybody can go on. */
  lemma DisciplinedDeadlockFree(states: seq<State>, actions: seq<Action>, pol: Policy)
    requires Disciplined(states, actions, pol) && Init(states[0])
    ensures EverybodyCanGoOn(states[|actions|])
  {
    InitIsTame(states[0], pol);
    DisciplinedIsTame(states, actions, pol);
    assert Leads(states[0], states[|actions|]);
    TameGoesOn(states[|actions|], pol);
  }

  /**
   Thread `t` drops a last reference while it holds Entries, of maps that store only keys which these Entries borrow:
   whatever the threads do afterwards, as long as they keep to the discipline, everybody can go on.
   */
  lemma SelfContainedDropIsSafe(s: State, t: Tid, o: Id, n: nat, states: seq<State>, actions: seq<Action>)
    requires Reachable(s) && Tame(s, One(t)) && CanDropHandle(s, t, o, n) && SelfContained(s, t)
    requires Disciplined(states, actions, One(t)) && states[0] == Release(s, t, o, Handle(n))
    ensures EverybodyCanGoOn(states[|actions|])
  {
    var a := DropHandle(t, o, n);
    ReachableInv(s);
    TameNext(s, a, states[0], One(t));
    ReachableNext(s, a, states[0]);
    DisciplinedIsTame(states, actions, One(t));
    assert Leads(states[0], states[|actions|]);
    ReachableLeads(states[0], states[|actions|]);
    TameGoesOn(states[|actions|], One(t));
  }
}
