/**
 The one-shot completion cell of `hyperactor/src/channel.rs`: an atomic status, a mutex-guarded slot for a
 rejected message and a waker, shared by one `CompletionSender` and one `CompletionReceipt`.

 Each action below is one atomic access to the shared cell. The sender's and the receipt's accesses
 interleave freely. The receipt may be polled any number of times, also after it has resolved.
 */
module Completion {
  import opened Options

  datatype Status = Pending | Accepted | Rejected

  /** `CompletionState`. A registered waker is named by the number of the poll that registered it. */
  datatype Cell<E> = Cell(status: Status, rejected: Option<E>, waker: Option<nat>)

  /** How the owner of the sender disposes of it. */
  datatype Outcome<E> = Accept | Reject(error: E) | Forget

  /** Where the sender is; each constructor names the next access it makes. */
  datatype Sender<E> =
    | Unused
    | StoreAccepted
    | FillSlot(error: E)
    | StoreRejected
    | WakeThenDrop
    | DropLoad
    | DropStore
    | DropWake
    | Gone

  /** Where the receipt is; each constructor names the next access it makes. */
  datatype Receipt = Idle | FirstLoad | Register | SecondLoad | TakeSlot | Panicked

  datatype Poll<E> = ReadyOk | ReadyErr(error: E) | StillPending

  /** `outcome`, `stores`, `polls` and `woken` record what has happened so far. */
  datatype State<E> = State(
    cell: Cell<E>,
    sender: Sender<E>,
    receipt: Receipt,
    outcome: Option<Outcome<E>>,
    stores: nat,
    polls: seq<Poll<E>>,
    woken: set<nat>)

  datatype Action<E> = Dispose(outcome: Outcome<E>) | SenderStep | StartPoll | ReceiptStep

  function Pair<E>(): State<E> {
    State(Cell(Pending, None, None), Unused, Idle, None, 0, [], {})
  }

  /** Begin `accept`, `reject` or the destructor. Each consumes the sender. */
  function DisposeSender<E>(s: State<E>, o: Outcome<E>): State<E> {
    var pc := match o case Accept => StoreAccepted case Reject(e) => FillSlot(e) case Forget => DropLoad;
    s.(sender := pc, outcome := Some(o))
  }

  function Store<E>(s: State<E>, status: Status): State<E> {
    s.(cell := s.cell.(status := status), stores := s.stores + 1)
  }

  /** `AtomicWaker::wake`: take the registered waker, if any, and wake it. */
  function Wake<E>(s: State<E>): State<E> {
    s.(cell := s.cell.(waker := None), woken := match s.cell.waker case Some(w) => s.woken + {w} case None => s.woken)
  }

  function StepSender<E>(s: State<E>): State<E> {
    match s.sender
    case Unused => s
    case StoreAccepted => Store(s, Accepted).(sender := WakeThenDrop)
    case FillSlot(e) => s.(cell := s.cell.(rejected := Some(e)), sender := StoreRejected)
    case StoreRejected => Store(s, Rejected).(sender := WakeThenDrop)
    case WakeThenDrop => Wake(s).(sender := DropLoad)
    case DropLoad => s.(sender := if s.cell.status == Pending then DropStore else Gone)
    case DropStore => Store(s, Accepted).(sender := DropWake)
    case DropWake => Wake(s).(sender := Gone)
    case Gone => s
  }

  function Return<E>(s: State<E>, p: Poll<E>): State<E> {
    s.(receipt := Idle, polls := s.polls + [p])
  }

  /** The status load of `poll_ready`; `ifPending` is where a pending status leads. */
  function Load<E>(s: State<E>, ifPending: State<E>): State<E> {
    match s.cell.status
    case Accepted => Return(s, ReadyOk)
    case Rejected => s.(receipt := TakeSlot)
    case Pending => ifPending
  }

  function StepReceipt<E>(s: State<E>): State<E> {
    match s.receipt
    case Idle => s
    case FirstLoad => Load(s, s.(receipt := Register))
    case Register => s.(cell := s.cell.(waker := Some(|s.polls|)), receipt := SecondLoad)
    case SecondLoad => Load(s, Return(s, StillPending))
    case TakeSlot =>
      (match s.cell.rejected
       case Some(e) => Return(s.(cell := s.cell.(rejected := None)), ReadyErr(e))
       case None => s.(receipt := Panicked))
    case Panicked => s
  }

  predicate Enabled<E>(s: State<E>, a: Action<E>) {
    match a
    case Dispose(_) => s.sender == Unused
    case SenderStep => s.sender != Unused && s.sender != Gone
    case StartPoll => s.receipt == Idle
    case ReceiptStep => s.receipt != Idle && s.receipt != Panicked
  }

  function Next<E>(s: State<E>, a: Action<E>): State<E> {
    match a
    case Dispose(o) => DisposeSender(s, o)
    case SenderStep => StepSender(s)
    case StartPoll => s.(receipt := FirstLoad)
    case ReceiptStep => StepReceipt(s)
  }

  /** `Some` of the last state when every action was enabled in turn. */
  function Execute<E>(s: State<E>, run: seq<Action<E>>): Option<State<E>>
    decreases |run|
  {
    if run == [] then Some(s)
    else if Enabled(s, run[0]) then Execute(Next(s, run[0]), run[1..])
    else None
  }

  ghost predicate Reachable<E(!new)>(s: State<E>) {
    exists run :: Execute(Pair(), run) == Some(s)
  }

  // ---------------------------------------------------------------------------------------------
  // Invariant
  // ---------------------------------------------------------------------------------------------

  /** The result a resolved receipt must have reported. */
  function Expected<E>(o: Outcome<E>): Poll<E> {
    match o case Accept => ReadyOk case Reject(e) => ReadyErr(e) case Forget => ReadyOk
  }

  /** The sender has yet to store a status. */
  ghost predicate BeforeStore<E>(s: State<E>) {
    s.sender in {Unused, StoreAccepted, StoreRejected, DropStore} || s.sender.FillSlot?
    || (s.sender == DropLoad && s.outcome == Some(Forget))
  }

  /** The sender has stored a status and has yet to wake the receipt. */
  ghost predicate BeforeWake<E>(s: State<E>) {
    s.sender in {WakeThenDrop, DropWake}
  }

  ghost predicate SenderOk<E>(s: State<E>) {
    && (s.sender == Unused <==> s.outcome == None)
    && (s.sender == StoreAccepted ==> s.outcome == Some(Accept))
    && (s.sender.FillSlot? ==> s.outcome == Some(Reject(s.sender.error)))
    && (s.sender == StoreRejected ==> s.outcome.Some? && s.outcome.value.Reject?)
    && (s.sender == WakeThenDrop ==> s.outcome != Some(Forget))
    && (s.sender in {DropStore, DropWake} ==> s.outcome == Some(Forget))
  }

  ghost predicate StatusOk<E>(s: State<E>) {
    && s.stores == (if BeforeStore(s) then 0 else 1)
    && (s.cell.status == Pending <==> BeforeStore(s))
    && (s.cell.status == Accepted ==> s.outcome in {Some(Accept), Some(Forget)})
    && (s.cell.status == Rejected ==> s.outcome.Some? && s.outcome.value.Reject?)
  }

  /** A rejected message is with the sender, in the slot, or handed back: always in one of the three places. */
  ghost predicate SlotOk<E>(s: State<E>) {
    && (s.cell.rejected.Some? <==>
          s.outcome.Some? && s.outcome.value.Reject? && !s.sender.FillSlot?
              && ReadyErr(s.outcome.value.error) !in s.polls)
    && (s.cell.rejected.Some? ==> s.outcome == Some(Reject(s.cell.rejected.value)))
  }

  ghost predicate PollsOk<E>(s: State<E>) {
    && (forall i | 0 <= i < |s.polls| && s.polls[i] != StillPending ::
          s.cell.status != Pending && s.outcome.Some? && s.polls[i] == Expected(s.outcome.value))
    && (forall i | 0 <= i < |s.polls| && s.polls[i].ReadyErr? :: i == |s.polls| - 1)
    && (s.receipt == TakeSlot ==> s.cell.status == Rejected)
    && (s.receipt == Panicked ==> s.polls != [] && s.polls[|s.polls| - 1].ReadyErr?)
    && (s.receipt in {Register, SecondLoad} && s.polls != [] ==> s.polls[|s.polls| - 1] == StillPending)
  }

  /** Poll `w`'s waker is registered and the sender has yet to wake it, or it has been woken. */
  ghost predicate Covered<E>(s: State<E>, w: nat) {
    if BeforeStore(s) || BeforeWake(s) then s.cell.waker == Some(w) else w in s.woken
  }

  ghost predicate LastIsPending<E>(s: State<E>) {
    s.polls != [] && s.polls[|s.polls| - 1] == StillPending
  }

  ghost predicate WakeOk<E>(s: State<E>) {
    && (s.receipt in {Idle, FirstLoad, Register} && LastIsPending(s) ==> Covered(s, |s.polls| - 1))
    && (s.receipt == SecondLoad && BeforeStore(s) ==> Covered(s, |s.polls|))
  }

  ghost predicate Inv<E>(s: State<E>) {
    SenderOk(s) && StatusOk(s) && SlotOk(s) && PollsOk(s) && WakeOk(s)
  }

  lemma SenderKeepsInv<E>(s: State<E>)
    requires Inv(s) && Enabled(s, SenderStep)
    ensures Inv(StepSender(s))
  {
  }

  lemma ReturnKeepsInv<E>(s: State<E>, p: Poll<E>)
    requires SenderOk(s) && StatusOk(s) && SlotOk(s) && PollsOk(s) && s.receipt in {FirstLoad, SecondLoad}
    requires if p == ReadyOk then s.cell.status == Accepted
             else p == StillPending && s.cell.status == Pending && s.receipt == SecondLoad && WakeOk(s)
    ensures Inv(Return(s, p))
  {
  }

  lemma TakeKeepsInv<E>(s: State<E>)
    requires Inv(s) && s.receipt == TakeSlot
    ensures Inv(StepReceipt(s))
  {
  }

  lemma ReceiptKeepsInv<E>(s: State<E>)
    requires Inv(s) && Enabled(s, ReceiptStep)
    ensures Inv(StepReceipt(s))
  {
    match s.receipt
    case FirstLoad => if s.cell.status == Accepted { ReturnKeepsInv(s, ReadyOk); }
    case Register =>
    case SecondLoad =>
      if s.cell.status == Accepted { ReturnKeepsInv(s, ReadyOk); }
      if s.cell.status == Pending { ReturnKeepsInv(s, StillPending); }
    case TakeSlot => TakeKeepsInv(s);
  }

  lemma StepKeepsInv<E>(s: State<E>, a: Action<E>)
    requires Inv(s) && Enabled(s, a)
    ensures Inv(Next(s, a))
  {
    match a
    case Dispose(_) =>
    case SenderStep => SenderKeepsInv(s);
    case StartPoll =>
    case ReceiptStep => ReceiptKeepsInv(s);
  }

  lemma {:induction false} RunKeepsInv<E>(s: State<E>, run: seq<Action<E>>)
    requires Inv(s) && Execute(s, run).Some?
    ensures Inv(Execute(s, run).value)
    decreases |run|
  {
    if run != [] {
      StepKeepsInv(s, run[0]);
      RunKeepsInv(Next(s, run[0]), run[1..]);
    }
  }

  lemma ReachableInv<E(!new)>(s: State<E>)
    requires Reachable(s)
    ensures Inv(s)
  {
    var run :| Execute(Pair(), run) == Some(s);
    RunKeepsInv(Pair(), run);
  }

  // ---------------------------------------------------------------------------------------------
  // What every interleaving guarantees
  // ---------------------------------------------------------------------------------------------

  /**
   The status is stored at most once, exactly when it has left `Pending`, and always by the time the sender is gone.
   */
  lemma StatusStoredOnce<E(!new)>(s: State<E>)
    requires Reachable(s)
    ensures s.stores == (if s.cell.status == Pending then 0 else 1)
    ensures s.sender == Gone ==> s.cell.status != Pending
  {
    ReachableInv(s);
  }

  /** Once the status has left `Pending` no continuation changes it. */
  lemma {:induction false} StatusIsFinal<E(!new)>(s: State<E>, run: seq<Action<E>>)
    requires Inv(s) && Execute(s, run).Some? && s.cell.status != Pending
    ensures Execute(s, run).value.cell.status == s.cell.status
    decreases |run|
  {
    if run != [] {
      StepKeepsInv(s, run[0]);
      StatusIsFinal(Next(s, run[0]), run[1..]);
    }
  }

  /** A resolved poll reports what the sender's owner did; a dropped sender reports success. */
  lemma ResultMatchesOutcome<E(!new)>(s: State<E>, i: nat)
    requires Reachable(s) && i < |s.polls| && s.polls[i] != StillPending
    ensures s.outcome.Some? && s.polls[i] == Expected(s.outcome.value)
  {
    ReachableInv(s);
  }

  /** A rejected message is in exactly one place: with the sender, in the slot, or handed back by one poll. */
  lemma RejectedMessageConserved<E(!new)>(s: State<E>, e: E)
    requires Reachable(s) && s.outcome == Some(Reject(e))
    ensures (if s.sender == FillSlot(e) then 1 else 0)
            + (if s.cell.rejected == Some(e) then 1 else 0)
            + multiset(s.polls)[ReadyErr(e)] == 1
  {
    ReachableInv(s);
    if ReadyErr(e) in s.polls { CountOfLast(s.polls, ReadyErr(e)); }
  }

  lemma CountOfLast<T>(xs: seq<T>, x: T)
    requires x in xs && forall i | 0 <= i < |xs| && xs[i] == x :: i == |xs| - 1
    ensures multiset(xs)[x] == 1
  {
    var init := xs[..|xs| - 1];
    assert xs == init + [xs[|xs| - 1]];
    assert x !in init;
  }

  /** At the take, `expect` fires exactly when an earlier poll already handed the message back. */
  lemma ExpectFiresIff<E(!new)>(s: State<E>)
    requires Reachable(s) && s.receipt == TakeSlot
    ensures StepReceipt(s).receipt == Panicked <==> exists i :: 0 <= i < |s.polls| && s.polls[i].ReadyErr?
  {
    ReachableInv(s);
  }

  /** Polling again after an error panics, whatever was polled before it. */
  lemma PollAfterErrorPanics<E(!new)>(s: State<E>, i: nat)
    requires Reachable(s) && s.receipt == Idle && i < |s.polls| && s.polls[i].ReadyErr?
    ensures var t := Execute(s, [StartPoll, ReceiptStep, ReceiptStep]);
            t.Some? && t.value.receipt == Panicked && t.value.polls == s.polls
  {
    ReachableInv(s);
    var s1 := Next(s, StartPoll);
    var s2 := Next(s1, ReceiptStep);
    assert Execute(s2, [ReceiptStep]) == Execute(Next(s2, ReceiptStep), []);
    assert Execute(s1, [ReceiptStep, ReceiptStep]) == Execute(s2, [ReceiptStep]);
    assert Execute(s, [StartPoll, ReceiptStep, ReceiptStep]) == Execute(s1, [ReceiptStep, ReceiptStep]);
  }

  /** A poll is started only while every earlier poll returned `Pending`. */
  ghost predicate PolledUntilReady<E(!new)>(s: State<E>, run: seq<Action<E>>)
    decreases |run|
  {
    run != [] ==>
      && (run[0] == StartPoll ==> forall p | p in s.polls :: p == StillPending)
      && PolledUntilReady(Next(s, run[0]), run[1..])
  }

  /** The `expect` never fires for a receipt that is polled only until it is ready. */
  lemma {:induction false} PolledUntilReadyNeverPanics<E(!new)>(s: State<E>, run: seq<Action<E>>)
    requires Inv(s) && Execute(s, run).Some? && PolledUntilReady(s, run)
    requires s.receipt != Panicked && (s.receipt != Idle ==> forall p | p in s.polls :: p == StillPending)
    ensures Execute(s, run).value.receipt != Panicked
    decreases |run|
  {
    if run != [] {
      StepKeepsInv(s, run[0]);
      PolledUntilReadyNeverPanics(Next(s, run[0]), run[1..]);
    }
  }

  /** No lost wakeup: when the last poll returned `Pending` and the sender has finished, that poll's waker was woken. */
  lemma NoLostWakeup<E(!new)>(s: State<E>)
    requires Reachable(s) && s.receipt == Idle && LastIsPending(s)
    ensures s.sender == Gone ==> |s.polls| - 1 in s.woken
    ensures |s.polls| - 1 in s.woken || s.cell.waker == Some(|s.polls| - 1)
  {
    ReachableInv(s);
  }

  /** Once the sender is gone, the next poll reports its outcome. */
  lemma NextPollResolves<E(!new)>(s: State<E>)
    requires Reachable(s) && s.sender == Gone && s.receipt == Idle && forall p | p in s.polls :: p == StillPending
    ensures var take := if s.cell.status == Rejected then [ReceiptStep] else [];
            var t := Execute(s, [StartPoll, ReceiptStep] + take);
            t.Some? && t.value.receipt == Idle && s.outcome.Some?
                && t.value.polls == s.polls + [Expected(s.outcome.value)]
  {
    ReachableInv(s);
    var s1 := Next(s, StartPoll);
    var s2 := Next(s1, ReceiptStep);
    if s.cell.status == Rejected {
      assert Execute(s2, [ReceiptStep]) == Execute(Next(s2, ReceiptStep), []);
      assert Execute(s1, [ReceiptStep, ReceiptStep]) == Execute(s2, [ReceiptStep]);
    } else {
      assert Execute(s1, [ReceiptStep]) == Execute(s2, []);
    }
  }

  // ---------------------------------------------------------------------------------------------
  // What the records say, read off the run alone
  // ---------------------------------------------------------------------------------------------

  /** How the run disposes of the sender. */
  function Disposed<E>(run: seq<Action<E>>): Option<Outcome<E>>
    decreases |run|
  {
    if run == [] then None else if run[0].Dispose? then Some(run[0].outcome) else Disposed(run[1..])
  }

  function PollsStarted<E>(run: seq<Action<E>>): nat
    decreases |run|
  {
    if run == [] then 0 else PollsStarted(run[1..]) + if run[0].StartPoll? then 1 else 0
  }

  /** Polls that have started: those that returned and the one under way. */
  function PollsBegun<E>(s: State<E>): nat {
    |s.polls| + if s.receipt == Idle then 0 else 1
  }

  lemma {:induction false} RunRecorded<E>(s: State<E>, run: seq<Action<E>>)
    requires Inv(s) && Execute(s, run).Some?
    ensures var t := Execute(s, run).value;
            && t.outcome == (if s.outcome.Some? then s.outcome else Disposed(run))
            && PollsBegun(t) == PollsBegun(s) + PollsStarted(run)
    decreases |run|
  {
    if run != [] {
      StepKeepsInv(s, run[0]);
      RunRecorded(Next(s, run[0]), run[1..]);
    }
  }

  /**
   Every poll that resolves reports the one disposal in the run: success when the sender was accepted or dropped, and
   the message that `reject` was given otherwise.
   */
  lemma PollsReportTheRun<E(!new)>(run: seq<Action<E>>, s: State<E>, i: nat)
    requires Execute(Pair(), run) == Some(s) && i < |s.polls| && s.polls[i] != StillPending
    ensures Disposed(run).Some? && PollsBegun(s) == PollsStarted(run)
    ensures s.polls[i] == if Disposed(run).value.Reject? then ReadyErr(Disposed(run).value.error) else ReadyOk
  {
    RunRecorded(Pair(), run);
    ResultMatchesOutcome(s, i);
  }
}
