/** The invariant of the weak-map protocol and its preservation by every step. */
module WeakMapInvariant {
  import opened Options
  import opened WeakMapModel

  /** `x`'s table holds an entry (or registration) for `y`. */
  ghost predicate Linked(ns: seq<Node>, x: Id, y: Id)
    requires x < |ns| && y < |ns|
  {
    ns[y].addr in ns[x].table && ns[x].table[ns[y].addr].peer == y
  }

  ghost predicate NodesOk(ns: seq<Node>) {
    forall o | 0 <= o < |ns| ::
      && (ns[o].phase.Live? <==> ns[o].refs != {})
      && (ns[o].phase.Dropped? || ns[o].phase.Freed? ==> ns[o].table == map[] && ns[o].lock.None?)
  }

  /** Allocations whose memory is not yet freed have different addresses. */
  ghost predicate AddrsUnique(ns: seq<Node>) {
    forall x, y | 0 <= x < |ns| && 0 <= y < |ns| && x != y ::
      ns[x].phase.Freed? || ns[y].phase.Freed? || ns[x].addr != ns[y].addr
  }

  /** Every slot is keyed by the address of an allocation of the other kind that it pins. */
  ghost predicate Pinned(ns: seq<Node>) {
    forall x, a | 0 <= x < |ns| && a in ns[x].table :: PinnedSlot(ns, x, a)
  }

  ghost predicate PinnedSlot(ns: seq<Node>, x: Id, a: Addr)
    requires x < |ns| && a in ns[x].table
  {
    var p := ns[x].table[a].peer;
    p < |ns| && !ns[p].phase.Freed? && ns[p].addr == a && ns[p].kind != ns[x].kind
  }

  /** What a drop frame at index `i` of thread `t` knows. */
  ghost predicate DropFrameOk(ns: seq<Node>, t: Tid, i: nat, f: Frame)
    requires f.IsDrop()
  {
    && f.o < |ns|
    && ns[f.o].phase == Dropping(t, i)
    && ns[f.o].lock == (if f.DropStart? then None else Some(Owner(t, i)))
    && (!f.DropStart? ==> f.todo <= ns[f.o].table.Keys)
    && (f.HasTemp() ==>
          && f.p < |ns| && ns[f.p].kind != ns[f.o].kind
          && Temp(t) in ns[f.p].refs && Linked(ns, f.o, f.p) && ns[f.p].addr !in f.todo)
    && (f.PeerLocked? ==> ns[f.p].lock == Some(Owner(t, i)))
  }

  /** What an entry operation at index `i` of thread `t` knows. */
  ghost predicate EntryFrameOk(ns: seq<Node>, t: Tid, i: nat, f: Frame)
    requires !f.IsDrop()
  {
    && f.k < |ns| && f.m < |ns| && ns[f.k].kind.Key? && ns[f.m].kind.Map?
    && HasHandle(ns[f.k]) && HasHandle(ns[f.m])
    && (f.HoldsEntries() ==> ns[f.m].lock == Some(Owner(t, i)))
    && (f.Registering? || f.Unregistering? ==> ns[f.k].lock == Some(Owner(t, i)))
    && (f.Register? || f.Registering? || f.Closing? || f.HalfDone() ==> ns[f.k].addr !in ns[f.m].table)
    && (f.HalfDone() ==> Linked(ns, f.k, f.m))
  }

  ghost predicate FrameOk(ns: seq<Node>, t: Tid, st: seq<Frame>, i: nat)
    requires i < |st|
  {
    && (i < |st| - 1 ==> st[i].DropLoop? || st[i].Guard?)
    && (if st[i].IsDrop() then DropFrameOk(ns, t, i, st[i]) else EntryFrameOk(ns, t, i, st[i]))
  }

  ghost predicate StacksOk(s: State) {
    forall t, i | 0 <= t < |s.stacks| && 0 <= i < |s.stacks[t]| :: FrameOk(s.nodes, t, s.stacks[t], i)
  }

  ghost predicate DroppingHasFrame(s: State) {
    forall o | 0 <= o < |s.nodes| && s.nodes[o].phase.Dropping? :: RunningDrop(s, o)
  }

  ghost predicate RunningDrop(s: State, o: Id)
    requires o < |s.nodes| && s.nodes[o].phase.Dropping?
  {
    var t, i := s.nodes[o].phase.thread, s.nodes[o].phase.frame;
    t < |s.stacks| && i < |s.stacks[t]| && s.stacks[t][i].IsDrop() && s.stacks[t][i].o == o
  }

  ghost predicate HoldsLock(f: Frame, o: Id) {
    || (f.PeerLocked? && f.p == o)
    || (f.HoldsEntries() && f.m == o)
    || ((f.Registering? || f.Unregistering?) && f.k == o)
  }

  ghost predicate HasFrame(s: State, w: Owner) {
    w.t < |s.stacks| && w.i < |s.stacks[w.t]|
  }

  /** The lock of a live node is held by its owner's frame. */
  ghost predicate LocksHeld(s: State) {
    forall o | 0 <= o < |s.nodes| && s.nodes[o].phase.Live? && s.nodes[o].lock.Some? ::
      var w := s.nodes[o].lock.value; HasFrame(s, w) && HoldsLock(s.stacks[w.t][w.i], o)
  }

  ghost predicate TempsHeld(s: State) {
    forall o, t | 0 <= o < |s.nodes| && Temp(t) in s.nodes[o].refs ::
      Busy(s, t) && Top(s, t).HasTemp() && Top(s, t).p == o
  }

  /** An insert or remove of `k` in `m` is between its two table updates. */
  ghost predicate InFlight(s: State, k: Id, m: Id)
    requires m < |s.nodes|
  {
    && s.nodes[m].lock.Some?
    && var w := s.nodes[m].lock.value;
       HasFrame(s, w) && var f := s.stacks[w.t][w.i]; f.HalfDone() && f.k == k && f.m == m
  }

  /** Live keys and live maps index each other. */
  ghost predicate IndexOk(s: State) {
    forall k: Id, m: Id | LivePair(s, k, m) :: IndexPair(s, k, m)
  }

  ghost predicate LivePair(s: State, k: Id, m: Id) {
    ValidPair(s, k, m) && s.nodes[k].phase.Live? && s.nodes[m].phase.Live?
  }

  ghost predicate IndexPair(s: State, k: Id, m: Id)
    requires LivePair(s, k, m)
  {
    && (Linked(s.nodes, m, k) ==> Linked(s.nodes, k, m))
    && (Linked(s.nodes, k, m) ==> Linked(s.nodes, m, k) || InFlight(s, k, m))
  }

  /** The drop loop of frame `f` has still to visit `x`. */
  ghost predicate Pending(f: Frame, x: Id, a: Addr) {
    || f.DropStart?
    || (f.DropLoop? && a in f.todo)
    || ((f.PeerWait? || f.PeerLocked?) && (f.p == x || a in f.todo))
    || (f.PeerRelease? && a in f.todo)
  }

  /** A dead node is still in a live table only while its own drop loop has that table to visit. */
  ghost predicate DeadLinks(s: State) {
    forall x, y | 0 <= x < |s.nodes| && 0 <= y < |s.nodes| && s.nodes[x].phase.Live? && !s.nodes[y].phase.Live?
      && Linked(s.nodes, x, y) :: DeadLinkOk(s, x, y)
  }

  ghost predicate DeadLinkOk(s: State, x: Id, y: Id)
    requires x < |s.nodes| && y < |s.nodes|
  {
    && s.nodes[y].phase.Dropping?
    && Linked(s.nodes, y, x)
    && RunningDrop(s, y)
    && Pending(s.stacks[s.nodes[y].phase.thread][s.nodes[y].phase.frame], x, s.nodes[x].addr)
  }

  /** `spec` is exactly the entries of live keys in live maps, with their values. */
  ghost predicate SpecOk(s: State) {
    && (forall q | q in s.spec :: SpecEntryOk(s, q.0, q.1))
    && (forall k: Id, m: Id | LivePair(s, k, m) && Linked(s.nodes, m, k) :: (k, m) in s.spec)
  }

  ghost predicate SpecEntryOk(s: State, k: Id, m: Id)
    requires (k, m) in s.spec
  {
    && LivePair(s, k, m) && Linked(s.nodes, m, k) && s.nodes[m].table[s.nodes[k].addr].value == s.spec[(k, m)]
  }

  ghost predicate Inv(s: State) {
    && NodesOk(s.nodes) && AddrsUnique(s.nodes) && Pinned(s.nodes)
    && StacksOk(s) && DroppingHasFrame(s) && LocksHeld(s) && TempsHeld(s)
    && IndexOk(s) && DeadLinks(s) && SpecOk(s)
  }


  // ---------------------------------------------------------------------------------------------
  // Rely/guarantee: what a step of thread t may do to the one node c that it changes
  // ---------------------------------------------------------------------------------------------

  /** Index of the running frame of `t` (0 for an idle thread). */
  ghost function Base(s: State, t: Tid): nat
    requires t < |s.stacks|
  {
    if s.stacks[t] == [] then 0 else |s.stacks[t]| - 1
  }

  /** A frame other than the running one of `t` is inside an entry operation on `o`. */
  ghost predicate BorrowedByOther(s: State, t: Tid, o: Id)
    requires t < |s.stacks|
  {
    exists u, i | 0 <= u < |s.stacks| && 0 <= i < |s.stacks[u]| && (u != t || i < Base(s, t)) ::
        Borrows(s.stacks[u][i], o)
  }

  /** The guarantee: other frames' locks, references and in-progress drops are respected. */
  ghost predicate Allowed(s: State, t: Tid, c: Id, n': Node)
    requires t < |s.stacks| && c < |s.nodes|
  {
    var n, me := s.nodes[c], Owner(t, Base(s, t));
    && n'.kind == n.kind && n'.addr == n.addr
    && (n.lock != Some(me) ==> n'.table == n.table)
    && (n.lock.Some? && n.lock != Some(me) ==> n'.lock == n.lock)
    && (n.phase.Dropping? && n.phase != Dropping(t, Base(s, t)) ==> n' == n)
    && (forall u | u != t && Temp(u) in n.refs :: Temp(u) in n'.refs)
    && (HasHandle(n) && BorrowedByOther(s, t, c) ==> HasHandle(n'))
    && (forall w | n.kind.Key? && n.refs != {} && 0 <= w < |s.nodes| && s.nodes[w].lock.Some?
          && s.nodes[w].lock != Some(me) && Linked(s.nodes, c, w) ::
          s.nodes[w].addr in n'.table && n'.table[s.nodes[w].addr] == n.table[s.nodes[w].addr])
  }

  /** `s'` differs from `s` in node `c` and in the frames of `t` from the running one up. */
  ghost predicate Local(s: State, s': State, t: Tid, c: Id) {
    && t < |s.stacks| && c < |s.nodes|
    && |s'.nodes| == |s.nodes| && |s'.stacks| == |s.stacks|
    && s'.nodes == s.nodes[c := s'.nodes[c]] && s'.stacks == s.stacks[t := s'.stacks[t]]
    && Base(s, t) <= |s'.stacks[t]|
    && (forall i | 0 <= i < Base(s, t) :: s'.stacks[t][i] == s.stacks[t][i])
    && Allowed(s, t, c, s'.nodes[c])
  }

  /** The rely: a frame that the step does not touch keeps its facts. */
  lemma OtherFrameKept(s: State, s': State, t: Tid, c: Id, u: Tid, i: nat)
    requires StacksOk(s) && Local(s, s', t, c)
    requires u < |s.stacks| && i < |s.stacks[u]| && (u != t || i < Base(s, t))
    ensures i < |s'.stacks[u]| && s'.stacks[u][i] == s.stacks[u][i]
    ensures i < |s'.stacks[u]| - 1 ==> s.stacks[u][i].DropLoop? || s.stacks[u][i].Guard?
    ensures FrameOk(s'.nodes, u, s.stacks[u], i)
  {
    assert FrameOk(s.nodes, u, s.stacks[u], i);
    var f := s.stacks[u][i];
    if !f.IsDrop() {
      assert Borrows(s.stacks[u][i], f.k) && Borrows(s.stacks[u][i], f.m);
    }
  }

  lemma StacksKept(s: State, s': State, t: Tid, c: Id)
    requires StacksOk(s) && Local(s, s', t, c)
    requires forall i | Base(s, t) <= i < |s'.stacks[t]| :: FrameOk(s'.nodes, t, s'.stacks[t], i)
    ensures StacksOk(s')
  {
    forall u, i | 0 <= u < |s'.stacks| && 0 <= i < |s'.stacks[u]| ensures FrameOk(s'.nodes, u, s'.stacks[u], i) {
      if u != t || i < Base(s, t) {
        OtherFrameKept(s, s', t, c, u, i);
        assert FrameOk(s.nodes, u, s.stacks[u], i);
      }
    }
  }

  /** Locks, temporaries and running drops stay accounted for, given the facts about `t` and `c`. */
  ghost predicate Accounted(s: State, s': State, t: Tid, c: Id)
    requires Local(s, s', t, c)
  {
    var n, n', me := s.nodes[c], s'.nodes[c], Owner(t, Base(s, t));
    && (forall o | 0 <= o < |s.nodes| && o != c && s.nodes[o].phase.Live? && s.nodes[o].lock == Some(me) ::
          HasFrame(s', me) && HoldsLock(s'.stacks[t][me.i], o))
    && (n'.phase.Live? && n'.lock.Some? ==>
          || (n'.lock == Some(me) && HasFrame(s', me) && HoldsLock(s'.stacks[t][me.i], c))
          || (n.phase.Live? && n.lock == n'.lock && n.lock != Some(me)))
    && (forall o | 0 <= o < |s.nodes| && Temp(t) in s'.nodes[o].refs ::
          Busy(s', t) && Top(s', t).HasTemp() && Top(s', t).p == o)
    && (forall u | u != t && Temp(u) in n'.refs :: Temp(u) in n.refs)
    && (forall o | 0 <= o < |s.nodes| && s'.nodes[o].phase.Dropping?
          && (o == c || s'.nodes[o].phase == Dropping(t, Base(s, t))) ::
          RunningDrop(s', o))
  }

  lemma HoldersKept(s: State, s': State, t: Tid, c: Id)
    requires LocksHeld(s) && TempsHeld(s) && DroppingHasFrame(s) && Local(s, s', t, c) && Accounted(s, s', t, c)
    ensures LocksHeld(s') && TempsHeld(s') && DroppingHasFrame(s')
  {
    forall o | 0 <= o < |s'.nodes| && s'.nodes[o].phase.Dropping? ensures RunningDrop(s', o) {
      if o != c { assert RunningDrop(s, o); }
    }
  }

  // Steps that change no table and no phase: links stay what they were.

  /** Links are unchanged, half-done operations stay half-done, and no visit is forgotten. */
  ghost predicate SameLinks(s: State, s': State, t: Tid, c: Id)
    requires Local(s, s', t, c)
  {
    && s'.nodes[c].table == s.nodes[c].table && s'.nodes[c].phase == s.nodes[c].phase && s'.spec == s.spec
    && (Busy(s, t) && Top(s, t).HalfDone() ==> HalfDoneKept(s, s', t))
    && (Busy(s, t) && Top(s, t).IsDrop() ==> VisitsKept(s, s', t))
  }

  ghost predicate HalfDoneKept(s: State, s': State, t: Tid)
    requires Busy(s, t) && Top(s, t).HalfDone()
  {
    var f, me := Top(s, t), Me(s, t);
    && f.m < |s'.nodes| && s'.nodes[f.m].lock == Some(me) && HasFrame(s', me)
    && var f' := s'.stacks[t][me.i]; f'.HalfDone() && f'.k == f.k && f'.m == f.m
  }

  ghost predicate VisitsKept(s: State, s': State, t: Tid)
    requires Busy(s, t) && Top(s, t).IsDrop()
  {
    var f, i := Top(s, t), Base(s, t);
    && t < |s'.stacks| && i < |s'.stacks[t]| && s'.stacks[t][i].IsDrop() && s'.stacks[t][i].o == f.o
    && f.o < |s.nodes|
    && forall x | 0 <= x < |s.nodes| && s.nodes[x].phase.Live? && Linked(s.nodes, f.o, x)
         && Pending(f, x, s.nodes[x].addr) ::
         Pending(s'.stacks[t][i], x, s.nodes[x].addr)
  }

  lemma IndexKept(s: State, s': State, t: Tid, c: Id)
    requires Pinned(s.nodes) && IndexOk(s) && StacksOk(s) && Local(s, s', t, c) && SameLinks(s, s', t, c)
    ensures Pinned(s'.nodes) && IndexOk(s')
  {
    var ns, ns' := s.nodes, s'.nodes;
    forall x, a | 0 <= x < |ns'| && a in ns'[x].table ensures PinnedSlot(ns', x, a) { assert PinnedSlot(ns, x, a); }
    forall k: Id, m: Id | LivePair(s', k, m) ensures IndexPair(s', k, m) {
      assert LivePair(s, k, m) && IndexPair(s, k, m);
      assert Linked(ns', k, m) == Linked(ns, k, m) && Linked(ns', m, k) == Linked(ns, m, k);
    }
  }

  lemma SpecKept(s: State, s': State, t: Tid, c: Id)
    requires DeadLinks(s) && SpecOk(s) && Local(s, s', t, c) && SameLinks(s, s', t, c)
    ensures DeadLinks(s') && SpecOk(s')
  {
    var ns, ns' := s.nodes, s'.nodes;
    forall x, y | 0 <= x < |ns'| && 0 <= y < |ns'| && ns'[x].phase.Live? && !ns'[y].phase.Live? && Linked(ns', x, y)
      ensures DeadLinkOk(s', x, y)
    {
      assert Linked(ns, x, y) && DeadLinkOk(s, x, y);
    }
    forall q | q in s'.spec ensures SpecEntryOk(s', q.0, q.1) { assert SpecEntryOk(s, q.0, q.1); }
    forall k: Id, m: Id | LivePair(s', k, m) && Linked(ns', m, k) ensures (k, m) in s'.spec {
      assert LivePair(s, k, m) && Linked(ns, m, k);
    }
  }

  lemma QuietStep(s: State, s': State, t: Tid, c: Id)
    requires Inv(s) && Clean(s, s', t, c) && SameLinks(s, s', t, c)
    ensures Inv(s')
  {
    StacksKept(s, s', t, c);
    HoldersKept(s, s', t, c);
    IndexKept(s, s', t, c);
    SpecKept(s, s', t, c);
  }

  // Steps that add or remove the link from c to w.

  ghost function PairOf(s: State, c: Id, w: Id): (Id, Id)
    requires c < |s.nodes|
  {
    if s.nodes[c].kind.Key? then (c, w) else (w, c)
  }

  /** Only the link from `c` to `w` changes, and the pair is consistent afterwards. */
  ghost predicate OneLink(s: State, s': State, t: Tid, c: Id, w: Id)
    requires Local(s, s', t, c)
  {
    var n, n', q := s.nodes[c], s'.nodes[c], PairOf(s, c, w);
    && w < |s.nodes| && w != c && s.nodes[w].kind != n.kind && !s.nodes[w].phase.Freed?
    && n'.phase == n.phase && n.phase.Live?
    && (forall b | b != s.nodes[w].addr ::
          (b in n.table <==> b in n'.table) && (b in n.table ==> n'.table[b] == n.table[b]))
    && (s.nodes[w].addr in n'.table ==> n'.table[s.nodes[w].addr].peer == w)
    && (forall r | r != q :: (r in s.spec <==> r in s'.spec) && (r in s.spec ==> s'.spec[r] == s.spec[r]))
    && (if s.nodes[w].phase.Live?
        then
          && IndexPair(s', q.0, q.1)
          && (Linked(s'.nodes, q.1, q.0) <==> q in s'.spec)
          && (q in s'.spec ==> SpecEntryOk(s', q.0, q.1))
        else !Linked(s'.nodes, c, w) && s'.spec == s.spec)
    && (Busy(s, t) && Top(s, t).HalfDone() ==> (Top(s, t).k, Top(s, t).m) == q || HalfDoneKept(s, s', t))
    && (Busy(s, t) && Top(s, t).IsDrop() ==> Top(s, t).o == w && VisitsKeptBut(s, s', t, c))
  }

  ghost predicate VisitsKeptBut(s: State, s': State, t: Tid, c: Id)
    requires Busy(s, t) && Top(s, t).IsDrop()
  {
    var f, i := Top(s, t), Base(s, t);
    && t < |s'.stacks| && i < |s'.stacks[t]| && s'.stacks[t][i].IsDrop() && s'.stacks[t][i].o == f.o
    && forall x | 0 <= x < |s.nodes| && x != c && Pending(f, x, s.nodes[x].addr) ::
         Pending(s'.stacks[t][i], x, s.nodes[x].addr)
  }

  lemma LinkedBut(s: State, s': State, t: Tid, c: Id, w: Id, x: Id, y: Id)
    requires Pinned(s.nodes) && AddrsUnique(s.nodes) && Local(s, s', t, c) && OneLink(s, s', t, c, w)
    requires x < |s.nodes| && y < |s.nodes| && (x != c || y != w)
    ensures Linked(s'.nodes, x, y) == Linked(s.nodes, x, y)
  {
    if x == c && s.nodes[y].addr == s.nodes[w].addr {
      assert Linked(s.nodes, c, y) ==> PinnedSlot(s.nodes, c, s.nodes[y].addr);
    }
  }

  /** Every link but the one from `c` to `w` is what it was, and so are phases and specifications. */
  ghost predicate LinksBut(s: State, s': State, c: Id, w: Id)
    requires c < |s.nodes| && |s'.nodes| == |s.nodes|
  {
    && (forall x, y | 0 <= x < |s.nodes| && 0 <= y < |s.nodes| && !(x == c && y == w) ::
          Linked(s'.nodes, x, y) == Linked(s.nodes, x, y))
    && (forall x | 0 <= x < |s.nodes| :: s'.nodes[x].phase == s.nodes[x].phase && s'.nodes[x].kind == s.nodes[x].kind
          && s'.nodes[x].addr == s.nodes[x].addr && (x != c ==> s'.nodes[x] == s.nodes[x]))
  }

  lemma OneLinkPinned(s: State, s': State, t: Tid, c: Id, w: Id)
    requires Pinned(s.nodes) && AddrsUnique(s.nodes) && Local(s, s', t, c) && OneLink(s, s', t, c, w)
    ensures Pinned(s'.nodes) && LinksBut(s, s', c, w)
  {
    var ns, ns' := s.nodes, s'.nodes;
    forall x, b | 0 <= x < |ns'| && b in ns'[x].table ensures PinnedSlot(ns', x, b) {
      if b in ns[x].table { assert PinnedSlot(ns, x, b); }
    }
    forall x, y | 0 <= x < |ns| && 0 <= y < |ns| && !(x == c && y == w) ensures Linked(ns', x, y) == Linked(ns, x, y) {
      LinkedBut(s, s', t, c, w, x, y);
    }
  }

  lemma OneLinkIndex(s: State, s': State, t: Tid, c: Id, w: Id)
    requires IndexOk(s) && StacksOk(s) && Local(s, s', t, c) && OneLink(s, s', t, c, w) && LinksBut(s, s', c, w)
    ensures IndexOk(s')
  {
    forall k: Id, m: Id | LivePair(s', k, m) ensures IndexPair(s', k, m) {
      if (k, m) != PairOf(s, c, w) {
        assert LivePair(s, k, m) && IndexPair(s, k, m);
      }
    }
  }

  lemma OneLinkDead(s: State, s': State, t: Tid, c: Id, w: Id)
    requires DeadLinks(s) && Local(s, s', t, c) && OneLink(s, s', t, c, w) && LinksBut(s, s', c, w)
    ensures DeadLinks(s')
  {
    forall x, y | 0 <= x < |s'.nodes| && 0 <= y < |s'.nodes| && s'.nodes[x].phase.Live? && !s'.nodes[y].phase.Live?
      && Linked(s'.nodes, x, y) ensures DeadLinkOk(s', x, y)
    {
      assert Linked(s.nodes, x, y) && DeadLinkOk(s, x, y);
    }
  }

  lemma OneLinkSpec(s: State, s': State, t: Tid, c: Id, w: Id)
    requires SpecOk(s) && Local(s, s', t, c) && OneLink(s, s', t, c, w) && LinksBut(s, s', c, w)
    ensures SpecOk(s')
  {
    forall q | q in s'.spec ensures SpecEntryOk(s', q.0, q.1) {
      if q != PairOf(s, c, w) { assert SpecEntryOk(s, q.0, q.1); }
    }
    forall k: Id, m: Id | LivePair(s', k, m) && Linked(s'.nodes, m, k) ensures (k, m) in s'.spec {
      if (k, m) != PairOf(s, c, w) { assert LivePair(s, k, m) && Linked(s.nodes, m, k); }
    }
  }

  lemma LinkStep(s: State, s': State, t: Tid, c: Id, w: Id)
    requires Inv(s) && Clean(s, s', t, c) && OneLink(s, s', t, c, w)
    ensures Inv(s')
  {
    StacksKept(s, s', t, c);
    HoldersKept(s, s', t, c);
    OneLinkPinned(s, s', t, c, w);
    OneLinkIndex(s, s', t, c, w);
    OneLinkDead(s, s', t, c, w);
    OneLinkSpec(s, s', t, c, w);
  }

  // The facts a step lemma needs: everything but the quantified facts about frames and links,
  // which it gets for its own frame and its own pair only.

  ghost predicate Basics(s: State) {
    NodesOk(s.nodes) && AddrsUnique(s.nodes) && Pinned(s.nodes) && DroppingHasFrame(s) && LocksHeld(s) && TempsHeld(s)
  }

  ghost predicate TopOk(s: State, t: Tid) {
    Busy(s, t) && FrameOk(s.nodes, t, s.stacks[t], Base(s, t))
  }

  ghost predicate PairOk(s: State, k: Id, m: Id) {
    && LivePair(s, k, m) && IndexPair(s, k, m)
    && ((k, m) in s.spec <==> Linked(s.nodes, m, k))
    && ((k, m) in s.spec ==> SpecEntryOk(s, k, m))
  }

  /** The step stays within its guarantee, and everything held is accounted for. */
  ghost predicate Within(s: State, s': State, t: Tid, c: Id) {
    Local(s, s', t, c) && Accounted(s, s', t, c)
  }

  /** Moreover it leaves its own frames in order. */
  ghost predicate Clean(s: State, s': State, t: Tid, c: Id) {
    && Within(s, s', t, c) && NodesOk(s'.nodes)
    && forall i | Base(s, t) <= i < |s'.stacks[t]| :: FrameOk(s'.nodes, t, s'.stacks[t], i)
  }

  lemma LockEntriesWithin(s: State, t: Tid)
    requires Basics(s) && TopOk(s, t) && AtTop(s, t) && Top(s, t).Enter? && s.nodes[Top(s, t).m].lock.None?
    ensures Within(s, StepLockEntries(s, t), t, Top(s, t).m)
  {}

  lemma LockEntriesQuiet(s: State, t: Tid)
    requires Basics(s) && TopOk(s, t) && AtTop(s, t) && Top(s, t).Enter? && s.nodes[Top(s, t).m].lock.None?
    ensures var s', c := StepLockEntries(s, t), Top(s, t).m; Clean(s, s', t, c) && SameLinks(s, s', t, c)
  {
    LockEntriesWithin(s, t);
  }

  lemma LockForRegisterWithin(s: State, t: Tid)
    requires Basics(s) && TopOk(s, t) && AtTop(s, t) && Top(s, t).Register? && s.nodes[Top(s, t).k].lock.None?
    ensures Within(s, StepLockForRegister(s, t), t, Top(s, t).k)
  {}

  lemma LockForRegisterQuiet(s: State, t: Tid)
    requires Basics(s) && TopOk(s, t) && AtTop(s, t) && Top(s, t).Register? && s.nodes[Top(s, t).k].lock.None?
    ensures var s', c := StepLockForRegister(s, t), Top(s, t).k; Clean(s, s', t, c) && SameLinks(s, s', t, c)
  {
    LockForRegisterWithin(s, t);
  }

  lemma LockForUnregisterWithin(s: State, t: Tid)
    requires Basics(s) && TopOk(s, t) && AtTop(s, t) && Top(s, t).Unregister? && s.nodes[Top(s, t).k].lock.None?
    ensures Within(s, StepLockForUnregister(s, t), t, Top(s, t).k)
  {}

  lemma LockForUnregisterQuiet(s: State, t: Tid)
    requires Basics(s) && TopOk(s, t) && AtTop(s, t) && Top(s, t).Unregister? && s.nodes[Top(s, t).k].lock.None?
    ensures var s', c := StepLockForUnregister(s, t), Top(s, t).k; Clean(s, s', t, c) && SameLinks(s, s', t, c)
  {
    LockForUnregisterWithin(s, t);
  }

  lemma LockPeerWithin(s: State, t: Tid)
    requires Basics(s) && TopOk(s, t) && AtTop(s, t) && Top(s, t).PeerWait? && s.nodes[Top(s, t).p].lock.None?
    ensures Within(s, StepLockPeer(s, t), t, Top(s, t).p)
  {}

  lemma LockPeerQuiet(s: State, t: Tid)
    requires Basics(s) && TopOk(s, t) && AtTop(s, t) && Top(s, t).PeerWait? && s.nodes[Top(s, t).p].lock.None?
    ensures var s', c := StepLockPeer(s, t), Top(s, t).p; Clean(s, s', t, c) && SameLinks(s, s', t, c)
  {
    LockPeerWithin(s, t);
  }

  lemma LockOwnWithin(s: State, t: Tid)
    requires Basics(s) && TopOk(s, t) && AtTop(s, t) && Top(s, t).DropStart? && s.nodes[Top(s, t).o].lock.None?
    ensures Within(s, StepLockOwn(s, t), t, Top(s, t).o)
  {}

  lemma LockOwnQuiet(s: State, t: Tid)
    requires Basics(s) && TopOk(s, t) && AtTop(s, t) && Top(s, t).DropStart? && s.nodes[Top(s, t).o].lock.None?
    ensures var s', c := StepLockOwn(s, t), Top(s, t).o; Clean(s, s', t, c) && SameLinks(s, s', t, c)
  {
    LockOwnWithin(s, t);
  }

  lemma BeginInsertWithin(s: State, t: Tid, v: Value)
    requires Basics(s) && TopOk(s, t) && AtTop(s, t) && Top(s, t).Guard? && !Occupied(s, t)
    ensures Within(s, StepBeginInsert(s, t, v), t, Top(s, t).m)
  {}

  lemma BeginInsertQuiet(s: State, t: Tid, v: Value)
    requires Basics(s) && TopOk(s, t) && AtTop(s, t) && Top(s, t).Guard? && !Occupied(s, t)
    ensures var s', c := StepBeginInsert(s, t, v), Top(s, t).m; Clean(s, s', t, c) && SameLinks(s, s', t, c)
  {
    BeginInsertWithin(s, t, v);
  }

  lemma CloseWithin(s: State, t: Tid)
    requires Basics(s) && TopOk(s, t) && AtTop(s, t) && (Top(s, t).Guard? || Top(s, t).Closing?)
    ensures Within(s, StepClose(s, t), t, Top(s, t).m)
  {}

  lemma CloseQuiet(s: State, t: Tid)
    requires Basics(s) && TopOk(s, t) && AtTop(s, t) && (Top(s, t).Guard? || Top(s, t).Closing?)
    ensures var s', c := StepClose(s, t), Top(s, t).m; Clean(s, s', t, c) && SameLinks(s, s', t, c)
  {
    CloseWithin(s, t);
  }

  lemma BeginEntryWithin(s: State, t: Tid, k: Id, m: Id)
    requires Basics(s) && CanBeginEntry(s, t, k, m) && (Busy(s, t) ==> TopOk(s, t))
    ensures Within(s, Push(s, t, Enter(k, m)), t, m)
  {}

  lemma BeginEntryQuiet(s: State, t: Tid, k: Id, m: Id)
    requires Basics(s) && CanBeginEntry(s, t, k, m) && (Busy(s, t) ==> TopOk(s, t))
    ensures var s' := Push(s, t, Enter(k, m)); Clean(s, s', t, m) && SameLinks(s, s', t, m)
  {
    BeginEntryWithin(s, t, k, m);
  }

  lemma VisitClean(s: State, t: Tid, a: Addr)
    requires Basics(s) && TopOk(s, t) && CanVisit(s, t, a)
    ensures Clean(s, StepVisit(s, t, a), t, s.nodes[Top(s, t).o].table[a].peer)
  {
    if s.nodes[s.nodes[Top(s, t).o].table[a].peer].phase.Live? {
      VisitLiveClean(s, t, a);
    } else {
      VisitDeadClean(s, t, a);
    }
  }

  lemma VisitLiveWithin(s: State, t: Tid, a: Addr)
    requires Basics(s) && TopOk(s, t) && CanVisit(s, t, a) && s.nodes[s.nodes[Top(s, t).o].table[a].peer].phase.Live?
    ensures Within(s, StepVisit(s, t, a), t, s.nodes[Top(s, t).o].table[a].peer)
  {}

  lemma VisitLiveClean(s: State, t: Tid, a: Addr)
    requires Basics(s) && TopOk(s, t) && CanVisit(s, t, a) && s.nodes[s.nodes[Top(s, t).o].table[a].peer].phase.Live?
    ensures Clean(s, StepVisit(s, t, a), t, s.nodes[Top(s, t).o].table[a].peer)
  {
    VisitLiveWithin(s, t, a);
  }

  lemma VisitDeadWithin(s: State, t: Tid, a: Addr)
    requires Basics(s) && TopOk(s, t) && CanVisit(s, t, a) && !s.nodes[s.nodes[Top(s, t).o].table[a].peer].phase.Live?
    ensures Within(s, StepVisit(s, t, a), t, s.nodes[Top(s, t).o].table[a].peer)
  {}

  lemma VisitDeadClean(s: State, t: Tid, a: Addr)
    requires Basics(s) && TopOk(s, t) && CanVisit(s, t, a) && !s.nodes[s.nodes[Top(s, t).o].table[a].peer].phase.Live?
    ensures Clean(s, StepVisit(s, t, a), t, s.nodes[Top(s, t).o].table[a].peer)
  {
    VisitDeadWithin(s, t, a);
  }

  lemma VisitLinks(s: State, t: Tid, a: Addr)
    requires Basics(s) && TopOk(s, t) && CanVisit(s, t, a)
    requires Clean(s, StepVisit(s, t, a), t, s.nodes[Top(s, t).o].table[a].peer)
    ensures SameLinks(s, StepVisit(s, t, a), t, s.nodes[Top(s, t).o].table[a].peer)
  {}

  lemma DoRegisterWithin(s: State, t: Tid)
    requires Basics(s) && TopOk(s, t) && AtTop(s, t) && Top(s, t).Registering? && PairOk(s, Top(s, t).k, Top(s, t).m)
    ensures Within(s, StepDoRegister(s, t), t, Top(s, t).k)
  {}

  lemma DoRegisterClean(s: State, t: Tid)
    requires Basics(s) && TopOk(s, t) && AtTop(s, t) && Top(s, t).Registering? && PairOk(s, Top(s, t).k, Top(s, t).m)
    ensures Clean(s, StepDoRegister(s, t), t, Top(s, t).k)
  {
    DoRegisterWithin(s, t);
  }

  lemma DoRegisterLink(s: State, t: Tid)
    requires Basics(s) && TopOk(s, t) && AtTop(s, t) && Top(s, t).Registering? && PairOk(s, Top(s, t).k, Top(s, t).m)
    requires Clean(s, StepDoRegister(s, t), t, Top(s, t).k)
    ensures OneLink(s, StepDoRegister(s, t), t, Top(s, t).k, Top(s, t).m)
  {}

  lemma DoStoreWithin(s: State, t: Tid)
    requires Basics(s) && TopOk(s, t) && AtTop(s, t) && Top(s, t).Store? && PairOk(s, Top(s, t).k, Top(s, t).m)
    ensures Within(s, StepDoStore(s, t), t, Top(s, t).m)
  {}

  lemma DoStoreClean(s: State, t: Tid)
    requires Basics(s) && TopOk(s, t) && AtTop(s, t) && Top(s, t).Store? && PairOk(s, Top(s, t).k, Top(s, t).m)
    ensures Clean(s, StepDoStore(s, t), t, Top(s, t).m)
  {
    DoStoreWithin(s, t);
  }

  lemma DoStoreLink(s: State, t: Tid)
    requires Basics(s) && TopOk(s, t) && AtTop(s, t) && Top(s, t).Store? && PairOk(s, Top(s, t).k, Top(s, t).m)
    requires Clean(s, StepDoStore(s, t), t, Top(s, t).m)
    ensures OneLink(s, StepDoStore(s, t), t, Top(s, t).m, Top(s, t).k)
  {}

  lemma ModifyWithin(s: State, t: Tid, v: Value)
    requires Basics(s) && TopOk(s, t) && AtTop(s, t) && Top(s, t).Guard? && Occupied(s, t)
    requires PairOk(s, Top(s, t).k, Top(s, t).m)
    ensures Within(s, StepModify(s, t, v), t, Top(s, t).m)
  {}

  lemma ModifyClean(s: State, t: Tid, v: Value)
    requires Basics(s) && TopOk(s, t) && AtTop(s, t) && Top(s, t).Guard? && Occupied(s, t)
    requires PairOk(s, Top(s, t).k, Top(s, t).m)
    ensures Clean(s, StepModify(s, t, v), t, Top(s, t).m)
  {
    ModifyWithin(s, t, v);
  }

  lemma ModifyLink(s: State, t: Tid, v: Value)
    requires Basics(s) && TopOk(s, t) && AtTop(s, t) && Top(s, t).Guard? && Occupied(s, t)
    requires PairOk(s, Top(s, t).k, Top(s, t).m)
    requires Clean(s, StepModify(s, t, v), t, Top(s, t).m)
    ensures OneLink(s, StepModify(s, t, v), t, Top(s, t).m, Top(s, t).k)
  {}

  lemma TakeOutWithin(s: State, t: Tid)
    requires Basics(s) && TopOk(s, t) && AtTop(s, t) && Top(s, t).Guard? && Occupied(s, t)
    requires PairOk(s, Top(s, t).k, Top(s, t).m)
    ensures Within(s, StepTakeOut(s, t), t, Top(s, t).m)
  {}

  lemma TakeOutClean(s: State, t: Tid)
    requires Basics(s) && TopOk(s, t) && AtTop(s, t) && Top(s, t).Guard? && Occupied(s, t)
    requires PairOk(s, Top(s, t).k, Top(s, t).m)
    ensures Clean(s, StepTakeOut(s, t), t, Top(s, t).m)
  {
    TakeOutWithin(s, t);
  }

  lemma TakeOutLink(s: State, t: Tid)
    requires Basics(s) && TopOk(s, t) && AtTop(s, t) && Top(s, t).Guard? && Occupied(s, t)
    requires PairOk(s, Top(s, t).k, Top(s, t).m)
    requires Clean(s, StepTakeOut(s, t), t, Top(s, t).m)
    ensures OneLink(s, StepTakeOut(s, t), t, Top(s, t).m, Top(s, t).k)
  {}

  lemma DoUnregisterWithin(s: State, t: Tid)
    requires Basics(s) && TopOk(s, t) && AtTop(s, t) && Top(s, t).Unregistering? && PairOk(s, Top(s, t).k, Top(s, t).m)
    ensures Within(s, StepDoUnregister(s, t), t, Top(s, t).k)
  {}

  lemma DoUnregisterClean(s: State, t: Tid)
    requires Basics(s) && TopOk(s, t) && AtTop(s, t) && Top(s, t).Unregistering? && PairOk(s, Top(s, t).k, Top(s, t).m)
    ensures Clean(s, StepDoUnregister(s, t), t, Top(s, t).k)
  {
    DoUnregisterWithin(s, t);
  }

  lemma DoUnregisterLink(s: State, t: Tid)
    requires Basics(s) && TopOk(s, t) && AtTop(s, t) && Top(s, t).Unregistering? && PairOk(s, Top(s, t).k, Top(s, t).m)
    requires Clean(s, StepDoUnregister(s, t), t, Top(s, t).k)
    ensures OneLink(s, StepDoUnregister(s, t), t, Top(s, t).k, Top(s, t).m)
  {}

  lemma RemoveFromPeerWithin(s: State, t: Tid)
    requires Basics(s) && TopOk(s, t) && AtTop(s, t) && Top(s, t).PeerLocked?
    ensures Within(s, StepRemoveFromPeer(s, t), t, Top(s, t).p)
  {}

  lemma RemoveFromPeerClean(s: State, t: Tid)
    requires Basics(s) && TopOk(s, t) && AtTop(s, t) && Top(s, t).PeerLocked?
    ensures Clean(s, StepRemoveFromPeer(s, t), t, Top(s, t).p)
  {
    RemoveFromPeerWithin(s, t);
  }

  lemma RemoveFromPeerLink(s: State, t: Tid)
    requires Basics(s) && TopOk(s, t) && AtTop(s, t) && Top(s, t).PeerLocked?
    requires Clean(s, StepRemoveFromPeer(s, t), t, Top(s, t).p)
    ensures OneLink(s, StepRemoveFromPeer(s, t), t, Top(s, t).p, Top(s, t).o)
  {}

  // The last strong reference goes away: c starts to die on thread t.

  ghost predicate Dies(s: State, s': State, t: Tid, c: Id) {
    && Local(s, s', t, c)
    && s.nodes[c].phase.Live? && s.nodes[c].lock.None?
    && s'.stacks[t] != [] && Top(s', t) == DropStart(c)
    && s'.nodes[c] == s.nodes[c].(refs := {}, phase := Dropping(t, |s'.stacks[t]| - 1))
    && s'.spec == Without(s.spec, c)
    && (Busy(s, t) ==> !Top(s, t).HalfDone())
    && (Busy(s, t) && Top(s, t).IsDrop() ==> Top(s, t).o != c && VisitsKept(s, s', t))
  }

  lemma DeathIndex(s: State, s': State, t: Tid, c: Id)
    requires Pinned(s.nodes) && IndexOk(s) && StacksOk(s) && Dies(s, s', t, c)
    ensures Pinned(s'.nodes) && IndexOk(s')
  {
    var ns, ns' := s.nodes, s'.nodes;
    forall x, a | 0 <= x < |ns'| && a in ns'[x].table ensures PinnedSlot(ns', x, a) { assert PinnedSlot(ns, x, a); }
    forall k: Id, m: Id | LivePair(s', k, m) ensures IndexPair(s', k, m) {
      assert LivePair(s, k, m) && IndexPair(s, k, m);
      assert Linked(ns', k, m) == Linked(ns, k, m) && Linked(ns', m, k) == Linked(ns, m, k);
    }
  }

  lemma DeathLinks(s: State, s': State, t: Tid, c: Id)
    requires Pinned(s.nodes) && IndexOk(s) && DeadLinks(s) && Dies(s, s', t, c)
    ensures DeadLinks(s')
  {
    var ns, ns' := s.nodes, s'.nodes;
    forall x, y | 0 <= x < |ns'| && 0 <= y < |ns'| && ns'[x].phase.Live? && !ns'[y].phase.Live? && Linked(ns', x, y)
      ensures DeadLinkOk(s', x, y)
    {
      assert Linked(ns, x, y);
      if y == c {
        assert PinnedSlot(ns, x, ns[y].addr);
        if ns[x].kind.Key? {
          assert LivePair(s, x, c) && IndexPair(s, x, c);
        } else {
          assert LivePair(s, c, x) && IndexPair(s, c, x);
        }
      } else {
        assert DeadLinkOk(s, x, y);
      }
    }
  }

  lemma DeathSpec(s: State, s': State, t: Tid, c: Id)
    requires SpecOk(s) && Dies(s, s', t, c)
    ensures SpecOk(s')
  {
    forall q | q in s'.spec ensures SpecEntryOk(s', q.0, q.1) { assert SpecEntryOk(s, q.0, q.1); }
    forall k: Id, m: Id | LivePair(s', k, m) && Linked(s'.nodes, m, k) ensures (k, m) in s'.spec {
      assert LivePair(s, k, m) && Linked(s.nodes, m, k);
    }
  }

  lemma DeathStep(s: State, s': State, t: Tid, c: Id)
    requires Inv(s) && Clean(s, s', t, c) && Dies(s, s', t, c)
    ensures Inv(s')
  {
    StacksKept(s, s', t, c);
    HoldersKept(s, s', t, c);
    DeathIndex(s, s', t, c);
    DeathLinks(s, s', t, c);
    DeathSpec(s, s', t, c);
  }

  /** A node whose only reference is one that no other frame relies on is not locked. */
  lemma UnlockedAtDeath(s: State, t: Tid, o: Id, r: Ref)
    requires StacksOk(s) && LocksHeld(s) && o < |s.nodes| && s.nodes[o].refs == {r} && s.nodes[o].phase.Live?
    requires r.Handle? ==> !Borrowed(s, o)
    requires r.Temp? ==> Busy(s, r.t) && Top(s, r.t).PeerRelease?
    ensures s.nodes[o].lock.None?
  {
    if s.nodes[o].lock.Some? { LockedIsUsed(s, o); }
  }

  /** A locked live node is borrowed by an entry operation, or a destructor is about to update it. */
  lemma LockedIsUsed(s: State, o: Id)
    requires StacksOk(s) && LocksHeld(s) && o < |s.nodes| && s.nodes[o].phase.Live? && s.nodes[o].lock.Some?
    ensures
      || (Borrowed(s, o) && HasHandle(s.nodes[o]))
      || (exists u :: Temp(u) in s.nodes[o].refs && Busy(s, u) && Top(s, u).PeerLocked?)
  {
    var w := s.nodes[o].lock.value;
    var f := s.stacks[w.t][w.i];
    assert FrameOk(s.nodes, w.t, s.stacks[w.t], w.i);
    if f.IsDrop() {
      assert Temp(w.t) in s.nodes[o].refs && Top(s, w.t).PeerLocked?;
    } else {
      assert Borrows(s.stacks[w.t][w.i], o);
    }
  }

  lemma DropHandleWithin(s: State, t: Tid, o: Id, n: nat)
    requires Basics(s) && CanDropHandle(s, t, o, n) && (Busy(s, t) ==> TopOk(s, t)) && s.nodes[o].refs != {Handle(n)}
    ensures Within(s, Release(s, t, o, Handle(n)), t, o)
  {}

  lemma DropHandleQuiet(s: State, t: Tid, o: Id, n: nat)
    requires Basics(s) && CanDropHandle(s, t, o, n) && (Busy(s, t) ==> TopOk(s, t)) && s.nodes[o].refs != {Handle(n)}
    ensures var s' := Release(s, t, o, Handle(n)); Clean(s, s', t, o) && SameLinks(s, s', t, o)
  {
    DropHandleWithin(s, t, o, n);
  }

  lemma LastDropWithin(s: State, t: Tid, o: Id, n: nat)
    requires Basics(s) && CanDropHandle(s, t, o, n) && (Busy(s, t) ==> TopOk(s, t)) && s.nodes[o].refs == {Handle(n)}
    requires s.nodes[o].lock.None?
    ensures Within(s, Release(s, t, o, Handle(n)), t, o)
  {}

  lemma DropHandleDies(s: State, t: Tid, o: Id, n: nat)
    requires Basics(s) && CanDropHandle(s, t, o, n) && (Busy(s, t) ==> TopOk(s, t)) && s.nodes[o].refs == {Handle(n)}
    requires s.nodes[o].lock.None?
    ensures var s' := Release(s, t, o, Handle(n)); Clean(s, s', t, o) && Dies(s, s', t, o)
  {
    LastDropWithin(s, t, o, n);
  }

  lemma ReleasePeerWithin(s: State, t: Tid)
    requires Basics(s) && TopOk(s, t) && AtTop(s, t) && Top(s, t).PeerRelease? && s.nodes[Top(s, t).p].refs != {Temp(t)}
    ensures Within(s, StepReleasePeer(s, t), t, Top(s, t).p)
  {}

  lemma ReleasePeerQuiet(s: State, t: Tid)
    requires Basics(s) && TopOk(s, t) && AtTop(s, t) && Top(s, t).PeerRelease? && s.nodes[Top(s, t).p].refs != {Temp(t)}
    ensures var s', c := StepReleasePeer(s, t), Top(s, t).p; Clean(s, s', t, c) && SameLinks(s, s', t, c)
  {
    ReleasePeerWithin(s, t);
  }

  lemma LastReleaseWithin(s: State, t: Tid)
    requires Basics(s) && TopOk(s, t) && AtTop(s, t) && Top(s, t).PeerRelease?
    requires s.nodes[Top(s, t).p].refs == {Temp(t)} && s.nodes[Top(s, t).p].lock.None?
    ensures Within(s, StepReleasePeer(s, t), t, Top(s, t).p)
  {}

  lemma ReleasePeerClean(s: State, t: Tid)
    requires Basics(s) && TopOk(s, t) && AtTop(s, t) && Top(s, t).PeerRelease?
    requires s.nodes[Top(s, t).p].refs == {Temp(t)} && s.nodes[Top(s, t).p].lock.None?
    ensures Clean(s, StepReleasePeer(s, t), t, Top(s, t).p)
  {
    LastReleaseWithin(s, t);
  }

  lemma ReleasePeerDies(s: State, t: Tid)
    requires Basics(s) && TopOk(s, t) && AtTop(s, t) && Top(s, t).PeerRelease?
    requires s.nodes[Top(s, t).p].refs == {Temp(t)} && s.nodes[Top(s, t).p].lock.None?
    requires Clean(s, StepReleasePeer(s, t), t, Top(s, t).p)
    ensures Dies(s, StepReleasePeer(s, t), t, Top(s, t).p)
  {}

  lemma FinishDropWithin(s: State, t: Tid)
    requires Basics(s) && TopOk(s, t) && AtTop(s, t) && Top(s, t).DropLoop? && Top(s, t).todo == {}
    ensures Within(s, StepFinishDrop(s, t), t, Top(s, t).o)
  {}

  lemma FinishDropClean(s: State, t: Tid)
    requires Basics(s) && TopOk(s, t) && AtTop(s, t) && Top(s, t).DropLoop? && Top(s, t).todo == {}
    ensures Clean(s, StepFinishDrop(s, t), t, Top(s, t).o)
  {
    FinishDropWithin(s, t);
  }

  lemma FinishDropStep(s: State, t: Tid)
    requires Inv(s) && AtTop(s, t) && Top(s, t).DropLoop? && Top(s, t).todo == {}
    ensures Inv(StepFinishDrop(s, t))
  {
    var s', c := StepFinishDrop(s, t), Top(s, t).o;
    FinishDropClean(s, t);
    StacksKept(s, s', t, c);
    HoldersKept(s, s', t, c);
    assert FrameOk(s.nodes, t, s.stacks[t], Base(s, t));
    FinishDropIndex(s, t);
    FinishDropSpec(s, t);
  }

  lemma FinishDropIndex(s: State, t: Tid)
    requires Pinned(s.nodes) && IndexOk(s)
    requires AtTop(s, t) && TopOk(s, t) && Top(s, t).DropLoop? && Top(s, t).todo == {}
    ensures var s' := StepFinishDrop(s, t); Pinned(s'.nodes) && IndexOk(s')
  {
    var s' := StepFinishDrop(s, t);
    var ns, ns' := s.nodes, s'.nodes;
    forall x, a | 0 <= x < |ns'| && a in ns'[x].table ensures PinnedSlot(ns', x, a) { assert PinnedSlot(ns, x, a); }
    forall k: Id, m: Id | LivePair(s', k, m) ensures IndexPair(s', k, m) {
      assert LivePair(s, k, m) && IndexPair(s, k, m);
      assert Linked(ns', k, m) == Linked(ns, k, m) && Linked(ns', m, k) == Linked(ns, m, k);
    }
  }

  lemma FinishDropSpec(s: State, t: Tid)
    requires DeadLinks(s) && SpecOk(s)
    requires AtTop(s, t) && TopOk(s, t) && Top(s, t).DropLoop? && Top(s, t).todo == {}
    ensures var s' := StepFinishDrop(s, t); DeadLinks(s') && SpecOk(s')
  {
    var s' := StepFinishDrop(s, t);
    var ns, ns' := s.nodes, s'.nodes;
    forall x, y | 0 <= x < |ns'| && 0 <= y < |ns'| && ns'[x].phase.Live? && !ns'[y].phase.Live? && Linked(ns', x, y)
      ensures DeadLinkOk(s', x, y)
    {
      assert Linked(ns, x, y) && DeadLinkOk(s, x, y);
    }
    forall q | q in s'.spec ensures SpecEntryOk(s', q.0, q.1) { assert SpecEntryOk(s, q.0, q.1); }
    forall k: Id, m: Id | LivePair(s', k, m) && Linked(ns', m, k) ensures (k, m) in s'.spec {
      assert LivePair(s, k, m) && Linked(ns, m, k);
    }
  }

  // Steps that no thread takes.

  /** Allocation, cloning and freeing: what an existing node is to others stays the same. */
  ghost predicate Unthreaded(s: State, s': State) {
    && s'.stacks == s.stacks && s'.spec == s.spec && |s.nodes| <= |s'.nodes|
    && (forall x | 0 <= x < |s.nodes| ::
          && s'.nodes[x].kind == s.nodes[x].kind && s'.nodes[x].addr == s.nodes[x].addr
          && s'.nodes[x].table == s.nodes[x].table && s'.nodes[x].lock == s.nodes[x].lock
          && s.nodes[x].refs <= s'.nodes[x].refs
          && (s'.nodes[x].phase == s.nodes[x].phase || (s.nodes[x].phase.Dropped? && s'.nodes[x].phase.Freed?
                && NoWeak(s, x))))
    && (forall x, t | 0 <= x < |s'.nodes| && Temp(t) in s'.nodes[x].refs :: x < |s.nodes| && Temp(t) in s.nodes[x].refs)
    && (forall x | |s.nodes| <= x < |s'.nodes| ::
          s'.nodes[x].table == map[] && s'.nodes[x].lock.None? && s'.nodes[x].phase.Live?)
    && NodesOk(s'.nodes) && AddrsUnique(s'.nodes)
  }

  lemma UnthreadedActions(s: State, a: Action, s': State)
    requires NodesOk(s.nodes) && AddrsUnique(s.nodes) && Step(s, a, s') && (a.New? || a.Clone? || a.Free?)
    ensures Unthreaded(s, s')
  {
  }

  lemma UnthreadedFrames(s: State, s': State)
    requires NodesOk(s.nodes) && StacksOk(s) && Unthreaded(s, s')
    ensures StacksOk(s')
  {
    forall t, i | 0 <= t < |s'.stacks| && 0 <= i < |s'.stacks[t]| ensures FrameOk(s'.nodes, t, s'.stacks[t], i) {
      assert FrameOk(s.nodes, t, s.stacks[t], i);
    }
  }

  lemma UnthreadedHolders(s: State, s': State)
    requires NodesOk(s.nodes) && DroppingHasFrame(s) && LocksHeld(s) && TempsHeld(s) && Unthreaded(s, s')
    ensures DroppingHasFrame(s') && LocksHeld(s') && TempsHeld(s')
  {
    forall o | 0 <= o < |s'.nodes| && s'.nodes[o].phase.Dropping?
      ensures RunningDrop(s', o)
    {
      assert RunningDrop(s, o);
    }
  }

  lemma UnthreadedLinked(s: State, s': State, x: Id, y: Id)
    requires Pinned(s.nodes) && Unthreaded(s, s') && x < |s'.nodes| && y < |s'.nodes|
    ensures Linked(s'.nodes, x, y) <==> x < |s.nodes| && y < |s.nodes| && Linked(s.nodes, x, y)
  {
    if Linked(s'.nodes, x, y) { assert PinnedSlot(s.nodes, x, s'.nodes[y].addr); }
  }

  lemma UnthreadedIndex(s: State, s': State)
    requires Pinned(s.nodes) && IndexOk(s) && Unthreaded(s, s')
    ensures Pinned(s'.nodes) && IndexOk(s')
  {
    forall x, b | 0 <= x < |s'.nodes| && b in s'.nodes[x].table
      ensures PinnedSlot(s'.nodes, x, b)
    {
      assert PinnedSlot(s.nodes, x, b);
    }
    forall k: Id, m: Id | LivePair(s', k, m) ensures IndexPair(s', k, m) {
      UnthreadedLinked(s, s', k, m);
      UnthreadedLinked(s, s', m, k);
      if k < |s.nodes| && m < |s.nodes| { assert LivePair(s, k, m) && IndexPair(s, k, m); }
    }
  }

  lemma UnthreadedSpec(s: State, s': State)
    requires Pinned(s.nodes) && DeadLinks(s) && SpecOk(s) && Unthreaded(s, s')
    ensures DeadLinks(s') && SpecOk(s')
  {
    forall x, y | 0 <= x < |s'.nodes| && 0 <= y < |s'.nodes| && s'.nodes[x].phase.Live? && !s'.nodes[y].phase.Live?
      && Linked(s'.nodes, x, y) ensures DeadLinkOk(s', x, y)
    {
      UnthreadedLinked(s, s', x, y);
      assert DeadLinkOk(s, x, y);
    }
    forall q | q in s'.spec ensures SpecEntryOk(s', q.0, q.1) { assert SpecEntryOk(s, q.0, q.1); }
    forall k: Id, m: Id | LivePair(s', k, m) && Linked(s'.nodes, m, k) ensures (k, m) in s'.spec {
      UnthreadedLinked(s, s', m, k);
      assert LivePair(s, k, m);
    }
  }

  lemma UnthreadedStep(s: State, a: Action, s': State)
    requires Inv(s) && Step(s, a, s') && (a.New? || a.Clone? || a.Free?)
    ensures Inv(s')
  {
    UnthreadedActions(s, a, s');
    UnthreadedFrames(s, s');
    UnthreadedHolders(s, s');
    UnthreadedIndex(s, s');
    UnthreadedSpec(s, s');
  }

  // Putting the steps together.

  lemma TopFacts(s: State, t: Tid)
    requires Inv(s) && Busy(s, t)
    ensures TopOk(s, t)
    ensures !Top(s, t).IsDrop() ==> PairOk(s, Top(s, t).k, Top(s, t).m)
  {
    assert FrameOk(s.nodes, t, s.stacks[t], Base(s, t));
    var f := Top(s, t);
    if !f.IsDrop() {
      assert LivePair(s, f.k, f.m) && IndexPair(s, f.k, f.m);
      if (f.k, f.m) in s.spec { assert SpecEntryOk(s, (f.k, f.m).0, (f.k, f.m).1); }
    }
  }

  ghost predicate IsQuietEntryAction(a: Action) {
    a.LockEntries? || a.BeginInsert? || a.LockForRegister? || a.LockForUnregister? || a.Close?
  }

  lemma QuietEntryStep(s: State, a: Action, s': State)
    requires Inv(s) && Step(s, a, s') && IsQuietEntryAction(a)
    ensures Inv(s')
  {
    var t := a.t;
    TopFacts(s, t);
    var k, m := Top(s, t).k, Top(s, t).m;
    match a
    case LockEntries(_) => LockEntriesQuiet(s, t); QuietStep(s, s', t, m);
    case BeginInsert(_, v) => BeginInsertQuiet(s, t, v); QuietStep(s, s', t, m);
    case LockForRegister(_) => LockForRegisterQuiet(s, t); QuietStep(s, s', t, k);
    case LockForUnregister(_) => LockForUnregisterQuiet(s, t); QuietStep(s, s', t, k);
    case Close(_) => CloseQuiet(s, t); QuietStep(s, s', t, m);
  }

  ghost predicate IsLinkEntryAction(a: Action) {
    a.DoRegister? || a.DoStore? || a.Modify? || a.TakeOut? || a.DoUnregister?
  }

  lemma LinkEntryStep(s: State, a: Action, s': State)
    requires Inv(s) && Step(s, a, s') && IsLinkEntryAction(a)
    ensures Inv(s')
  {
    TopFacts(s, a.t);
    match a
    case DoRegister(t) => RegisterStep(s, t);
    case DoStore(t) => StoreStep(s, t);
    case Modify(t, v) => ModifyStep(s, t, v);
    case TakeOut(t) => TakeOutStep(s, t);
    case DoUnregister(t) => UnregisterStep(s, t);
  }

  lemma RegisterStep(s: State, t: Tid)
    requires Inv(s) && TopOk(s, t) && AtTop(s, t) && Top(s, t).Registering? && PairOk(s, Top(s, t).k, Top(s, t).m)
    ensures Inv(StepDoRegister(s, t))
  {
    DoRegisterClean(s, t);
    DoRegisterLink(s, t);
    LinkStep(s, StepDoRegister(s, t), t, Top(s, t).k, Top(s, t).m);
  }

  lemma StoreStep(s: State, t: Tid)
    requires Inv(s) && TopOk(s, t) && AtTop(s, t) && Top(s, t).Store? && PairOk(s, Top(s, t).k, Top(s, t).m)
    ensures Inv(StepDoStore(s, t))
  {
    DoStoreClean(s, t);
    DoStoreLink(s, t);
    LinkStep(s, StepDoStore(s, t), t, Top(s, t).m, Top(s, t).k);
  }

  lemma ModifyStep(s: State, t: Tid, v: Value)
    requires Inv(s) && TopOk(s, t) && AtTop(s, t) && Top(s, t).Guard? && Occupied(s, t)
    requires PairOk(s, Top(s, t).k, Top(s, t).m)
    ensures Inv(StepModify(s, t, v))
  {
    ModifyClean(s, t, v);
    ModifyLink(s, t, v);
    LinkStep(s, StepModify(s, t, v), t, Top(s, t).m, Top(s, t).k);
  }

  lemma TakeOutStep(s: State, t: Tid)
    requires Inv(s) && TopOk(s, t) && AtTop(s, t) && Top(s, t).Guard? && Occupied(s, t)
    requires PairOk(s, Top(s, t).k, Top(s, t).m)
    ensures Inv(StepTakeOut(s, t))
  {
    TakeOutClean(s, t);
    TakeOutLink(s, t);
    LinkStep(s, StepTakeOut(s, t), t, Top(s, t).m, Top(s, t).k);
  }

  lemma UnregisterStep(s: State, t: Tid)
    requires Inv(s) && TopOk(s, t) && AtTop(s, t) && Top(s, t).Unregistering? && PairOk(s, Top(s, t).k, Top(s, t).m)
    ensures Inv(StepDoUnregister(s, t))
  {
    DoUnregisterClean(s, t);
    DoUnregisterLink(s, t);
    LinkStep(s, StepDoUnregister(s, t), t, Top(s, t).k, Top(s, t).m);
  }

  ghost predicate IsDropAction(a: Action) {
    a.LockOwn? || a.Visit? || a.LockPeer? || a.RemoveFromPeer? || a.ReleasePeer? || a.FinishDrop?
  }

  lemma DropStep(s: State, a: Action, s': State)
    requires Inv(s) && Step(s, a, s') && IsDropAction(a)
    ensures Inv(s')
  {
    var t := a.t;
    TopFacts(s, t);
    var f := Top(s, t);
    match a
    case LockOwn(_) => LockOwnQuiet(s, t); QuietStep(s, s', t, f.o);
    case Visit(_, b) => VisitStep(s, t, b);
    case LockPeer(_) => LockPeerQuiet(s, t); QuietStep(s, s', t, f.p);
    case RemoveFromPeer(_) => RemoveStep(s, t);
    case ReleasePeer(_) => ReleaseStep(s, t);
    case FinishDrop(_) => FinishDropStep(s, t);
  }

  lemma VisitStep(s: State, t: Tid, b: Addr)
    requires Inv(s) && TopOk(s, t) && CanVisit(s, t, b)
    ensures Inv(StepVisit(s, t, b))
  {
    VisitClean(s, t, b);
    VisitLinks(s, t, b);
    QuietStep(s, StepVisit(s, t, b), t, s.nodes[Top(s, t).o].table[b].peer);
  }

  lemma RemoveStep(s: State, t: Tid)
    requires Inv(s) && TopOk(s, t) && AtTop(s, t) && Top(s, t).PeerLocked?
    ensures Inv(StepRemoveFromPeer(s, t))
  {
    RemoveFromPeerClean(s, t);
    RemoveFromPeerLink(s, t);
    LinkStep(s, StepRemoveFromPeer(s, t), t, Top(s, t).p, Top(s, t).o);
  }

  lemma ReleaseStep(s: State, t: Tid)
    requires Inv(s) && TopOk(s, t) && AtTop(s, t) && Top(s, t).PeerRelease?
    ensures Inv(StepReleasePeer(s, t))
  {
    var p, s' := Top(s, t).p, StepReleasePeer(s, t);
    if s.nodes[p].refs == {Temp(t)} {
      UnlockedAtDeath(s, t, p, Temp(t));
      ReleasePeerClean(s, t);
      ReleasePeerDies(s, t);
      DeathStep(s, s', t, p);
    } else {
      ReleasePeerQuiet(s, t);
      QuietStep(s, s', t, p);
    }
  }

  lemma BeginStep(s: State, a: Action, s': State)
    requires Inv(s) && Step(s, a, s') && (a.DropHandle? || a.BeginEntry?)
    ensures Inv(s')
  {
    if Busy(s, a.t) { TopFacts(s, a.t); }
    match a
    case BeginEntry(t, k, m) => BeginEntryQuiet(s, t, k, m); QuietStep(s, s', t, m);
    case DropHandle(t, o, n) =>
      if s.nodes[o].refs == {Handle(n)} {
        UnlockedAtDeath(s, t, o, Handle(n));
        DropHandleDies(s, t, o, n); DeathStep(s, s', t, o);
      } else {
        DropHandleQuiet(s, t, o, n); QuietStep(s, s', t, o);
      }
  }

  /** Every step preserves the invariant. */
  lemma InvStep(s: State, a: Action, s': State)
    requires Inv(s) && Step(s, a, s')
    ensures Inv(s')
  {
    if a.New? || a.Clone? || a.Free? { UnthreadedStep(s, a, s'); }
    else if a.DropHandle? || a.BeginEntry? { BeginStep(s, a, s'); }
    else if IsQuietEntryAction(a) { QuietEntryStep(s, a, s'); }
    else if IsLinkEntryAction(a) { LinkEntryStep(s, a, s'); }
    else { DropStep(s, a, s'); }
  }

  /** Every step keeps `p`. */
  ghost predicate Kept(p: State -> bool) {
    forall s, a, s' :: p(s) && Step(s, a, s') ==> p(s')
  }

  lemma {:induction false} KeptAlong(p: State -> bool, states: seq<State>, actions: seq<Action>, i: nat)
    requires Kept(p) && Path(states, actions) && i <= |actions| && p(states[0])
    ensures p(states[i])
  {
    if i > 0 {
      KeptAlong(p, states, actions, i - 1);
      assert Step(states[i - 1], actions[i - 1], states[i]);
    }
  }

  /** Every step that `q` allows keeps `p`. */
  ghost predicate KeptIf(p: State -> bool, q: (State, Action) -> bool) {
    forall s, a, s' {:trigger Step(s, a, s')} :: p(s) && q(s, a) && Step(s, a, s') ==> p(s')
  }

  lemma {:induction false} KeptAlongIf(p: State -> bool, q: (State, Action) -> bool, states: seq<State>,
                                       actions: seq<Action>, i: nat)
    requires KeptIf(p, q) && Path(states, actions) && i <= |actions| && p(states[0])
    requires forall j {:trigger actions[j]} :: 0 <= j < |actions| ==> q(states[j], actions[j])
    ensures p(states[i])
  {
    if i > 0 {
      KeptAlongIf(p, q, states, actions, i - 1);
      assert Step(states[i - 1], actions[i - 1], states[i]) && q(states[i - 1], actions[i - 1]);
    }
  }

  /** What every step keeps holds wherever a state leads. */
  lemma KeptForever(p: State -> bool, s: State, s': State)
    requires Kept(p) && p(s) && Leads(s, s')
    ensures p(s')
  {
    var states, actions :| Path(states, actions) && states[0] == s && states[|actions|] == s';
    KeptAlong(p, states, actions, |actions|);
  }

  lemma InitIsGood(s: State)
    requires Init(s)
    ensures Inv(s)
  {
  }

  /** Every state of every run satisfies the invariant. */
  lemma ReachableInv(s: State)
    requires Reachable(s)
    ensures Inv(s)
  {
    var init :| Init(init) && Leads(init, s);
    InitIsGood(init);
    var p := (r: State) => Inv(r);
    forall r, a, r' | p(r) && Step(r, a, r') ensures p(r') { InvStep(r, a, r'); }
    KeptForever(p, init, s);
  }

  /** One more step. */
  lemma LeadsNext(s: State, s': State, a: Action, s'': State)
    requires Leads(s, s') && Step(s', a, s'')
    ensures Leads(s, s'')
  {
    var states, actions :| Path(states, actions) && states[0] == s && states[|actions|] == s';
    var states', actions' := states + [s''], actions + [a];
    assert Path(states', actions') && states'[0] == s && states'[|actions'|] == s'';
  }

  lemma ReachableNext(s: State, a: Action, s': State)
    requires Reachable(s) && Step(s, a, s')
    ensures Reachable(s')
  {
    var init :| Init(init) && Leads(init, s);
    LeadsNext(init, s, a, s');
  }

  lemma LeadsHere(s: State)
    ensures Leads(s, s)
  {
    assert Path([s], []) && [s][0] == s;
  }
}
