/**
 `CompletionSink` of `hyperactor/src/channel.rs` and its adapter `contramap_rejected`. The boxed closures are
 written out as data (`Handler`), so that what a closure captures, and what dropping it does, is explicit.
 */
module CompletionSink {
  import opened Options
  import Completion

  type Cell<E> = Completion.Cell<E>

  /** A mapper given to `contramap_rejected`. */
  type Mapper<!E> = E -> Option<E>

  /** A reject closure: a caller's function, or one built by `contramap_rejected` over a sender or a closure. */
  datatype Handler<!E> =
    | Call(callback: nat)
    | MapThenSend(f: Mapper<E>, sender: nat)
    | MapThen(f: Mapper<E>, rest: Handler<E>)

  datatype Sink<!E> =
    | Ignore
    | Receipt(sender: nat)
    | OnReject(handler: Handler<E>)
    | Tracked(handler: Handler<E>)

  /** Completion cells by sender, wakers woken, the tracker's counter, and the calls made to callers' functions. */
  datatype World<E> = World(cells: map<nat, Cell<E>>, woken: seq<nat>, completed: nat, calls: seq<(nat, E)>)

  // ---------------------------------------------------------------------------------------------
  // Senders
  // ---------------------------------------------------------------------------------------------

  function Wake<E>(w: World<E>, sender: nat): World<E>
    requires sender in w.cells
  {
    var c := w.cells[sender];
    w.(cells := w.cells[sender := c.(waker := None)], woken := if c.waker.Some? then w.woken + [c.waker.value]
        else w.woken)
  }

  /** Store a status, wake the receipt. */
  function Resolve<E>(w: World<E>, sender: nat, status: Completion.Status): World<E>
    requires sender in w.cells
  {
    Wake(w.(cells := w.cells[sender := w.cells[sender].(status := status)]), sender)
  }

  /** `Drop for CompletionSender`. */
  function DropSender<E>(w: World<E>, sender: nat): World<E>
    requires sender in w.cells
  {
    if w.cells[sender].status == Completion.Pending then Resolve(w, sender, Completion.Accepted) else w
  }

  /** `CompletionSender::accept`, which ends by dropping the sender. */
  function SendAccept<E>(w: World<E>, sender: nat): World<E>
    requires sender in w.cells
  {
    DropSender(Resolve(w, sender, Completion.Accepted), sender)
  }

  /** `CompletionSender::reject`, which ends by dropping the sender. */
  function SendReject<E>(w: World<E>, sender: nat, e: E): World<E>
    requires sender in w.cells
  {
    var w' := w.(cells := w.cells[sender := w.cells[sender].(rejected := Some(e))]);
    DropSender(Resolve(w', sender, Completion.Rejected), sender)
  }

  // ---------------------------------------------------------------------------------------------
  // Closures and sinks
  // ---------------------------------------------------------------------------------------------

  /** The sender a closure captures, if any. */
  function Captured<E>(h: Handler<E>): Option<nat> {
    match h
    case Call(_) => None
    case MapThenSend(_, sender) => Some(sender)
    case MapThen(_, rest) => Captured(rest)
  }

  function SenderOf<E>(k: Sink<E>): Option<nat> {
    match k
    case Ignore => None
    case Receipt(sender) => Some(sender)
    case OnReject(h) => Captured(h)
    case Tracked(h) => Captured(h)
  }

  /** The sink owns its sender: the sender's cell is there and nobody has resolved it. */
  predicate Owns<E>(w: World<E>, sender: Option<nat>) {
    sender.Some? ==> sender.value in w.cells && w.cells[sender.value].status == Completion.Pending
  }

  /** Dropping a closure uncalled drops what it captured. */
  function DropHandler<E>(w: World<E>, h: Handler<E>): World<E>
    requires Owns(w, Captured(h))
  {
    match h
    case Call(_) => w
    case MapThenSend(_, sender) => DropSender(w, sender)
    case MapThen(_, rest) => DropHandler(w, rest)
  }

  function CallHandler<E>(w: World<E>, h: Handler<E>, e: E): World<E>
    requires Owns(w, Captured(h))
  {
    match h
    case Call(callback) => w.(calls := w.calls + [(callback, e)])
    case MapThenSend(f, sender) =>
      (match f(e)
       case Some(e') => SendReject(w, sender, e')
       case None => SendAccept(w, sender))
    case MapThen(f, rest) =>
      (match f(e)
       case Some(e') => CallHandler(w, rest, e')
       case None => DropHandler(w, rest))
  }

  /** `CompletionTracker::complete`. */
  function Complete<E>(w: World<E>): World<E> {
    w.(completed := w.completed + 1)
  }

  function Accept<E>(w: World<E>, k: Sink<E>): World<E>
    requires Owns(w, SenderOf(k))
  {
    match k
    case Ignore => w
    case Receipt(sender) => SendAccept(w, sender)
    case OnReject(h) => DropHandler(w, h)
    case Tracked(h) => DropHandler(Complete(w), h)
  }

  function Reject<E>(w: World<E>, k: Sink<E>, e: E): World<E>
    requires Owns(w, SenderOf(k))
  {
    match k
    case Ignore => w
    case Receipt(sender) => SendReject(w, sender, e)
    case OnReject(h) => CallHandler(w, h, e)
    case Tracked(h) => Complete(CallHandler(w, h, e))
  }

  function ContramapRejected<E>(k: Sink<E>, f: Mapper<E>): Sink<E> {
    match k
    case Ignore => Ignore
    case Receipt(sender) => OnReject(MapThenSend(f, sender))
    case OnReject(h) => OnReject(MapThen(f, h))
    case Tracked(h) => Tracked(MapThen(f, h))
  }

  // ---------------------------------------------------------------------------------------------
  // Chains
  // ---------------------------------------------------------------------------------------------

  /** Wrap `k` once for each mapper; the last mapper is outermost. */
  function Wrap<E>(k: Sink<E>, fs: seq<Mapper<E>>): (r: Sink<E>)
    ensures SenderOf(r) == SenderOf(k)
  {
    if fs == [] then k else ContramapRejected(Wrap(k, fs[..|fs| - 1]), fs[|fs| - 1])
  }

  /** The mappers' composition in `Option`, outermost first. */
  function Compose<E>(fs: seq<Mapper<E>>, e: E): Option<E>
    decreases |fs|
  {
    if fs == [] then Some(e)
    else match fs[|fs| - 1](e)
      case Some(e') => Compose(fs[..|fs| - 1], e')
      case None => None
  }

  /** The sink left after the channel reports: what the original sink would have received. */
  function Meaning<E>(w: World<E>, k: Sink<E>, verdict: Option<E>): World<E>
    requires Owns(w, SenderOf(k))
  {
    match verdict case Some(e) => Reject(w, k, e) case None => Accept(w, k)
  }

  /** One layer: acceptance passes through, and a rejection is mapped or turned into acceptance. */
  lemma ContramapMeaning<E>(w: World<E>, k: Sink<E>, f: Mapper<E>, e: E)
    requires Owns(w, SenderOf(k))
    ensures SenderOf(ContramapRejected(k, f)) == SenderOf(k)
    ensures Accept(w, ContramapRejected(k, f)) == Accept(w, k)
    ensures Reject(w, ContramapRejected(k, f), e) == Meaning(w, k, f(e))
  {
    if k.Tracked? && f(e) == None { CompleteCommutesWithDrop(w, k.handler); }
  }

  lemma {:induction false} CompleteCommutesWithDrop<E>(w: World<E>, h: Handler<E>)
    requires Owns(w, Captured(h))
    ensures DropHandler(Complete(w), h) == Complete(DropHandler(w, h))
  {
    if h.MapThen? { CompleteCommutesWithDrop(w, h.rest); }
  }

  /** A chain of any length means what the original sink means, on the composition of its mappers. */
  lemma {:induction false} ChainMeaning<E>(w: World<E>, k: Sink<E>, fs: seq<Mapper<E>>, e: E)
    requires Owns(w, SenderOf(k))
    ensures Accept(w, Wrap(k, fs)) == Accept(w, k)
    ensures Reject(w, Wrap(k, fs), e) == Meaning(w, k, Compose(fs, e))
    decreases |fs|
  {
    if fs != [] {
      var inner, f := fs[..|fs| - 1], fs[|fs| - 1];
      ContramapMeaning(w, Wrap(k, inner), f, e);
      ChainMeaning(w, k, inner, if f(e).Some? then f(e).value else e);
    }
  }

  /** What the receipt of a cell sees when it is polled: `None` is `Pending`. */
  function Observed<E>(c: Cell<E>): Option<Completion.Poll<E>> {
    match c.status
    case Pending => None
    case Accepted => Some(Completion.ReadyOk)
    case Rejected => if c.rejected.Some? then Some(Completion.ReadyErr(c.rejected.value)) else None
  }

  /**
   A receipt behind any chain resolves to Ok on accept, and on reject to the composed error or, when a mapper
   yields nothing, to Ok. Its waker is woken once, and no other cell, callback or counter is touched.
   */
  lemma ReceiptThroughChain<E>(w: World<E>, sender: nat, fs: seq<Mapper<E>>, e: E)
    requires sender in w.cells && w.cells[sender].status == Completion.Pending
    ensures var k := Wrap(Receipt(sender), fs);
            var a, r := Accept(w, k), Reject(w, k, e);
            && sender in a.cells && sender in r.cells
            && Observed(a.cells[sender]) == Some(Completion.ReadyOk)
            && Observed(r.cells[sender]) ==
                 Some(match Compose(fs, e) case Some(e') => Completion.ReadyErr(e') case None => Completion.ReadyOk)
            && a.cells - {sender} == w.cells - {sender} == r.cells - {sender}
            && a.woken == r.woken ==
                 w.woken + (if w.cells[sender].waker.Some? then [w.cells[sender].waker.value] else [])
            && a.completed == r.completed == w.completed && a.calls == r.calls == w.calls
  {
    ChainMeaning(w, Receipt(sender), fs, e);
  }

  /**
   A tracked sink counts exactly once however it is wrapped; its function is called once, iff a composed error
   reaches it.
   */
  lemma TrackedThroughChain<E>(w: World<E>, callback: nat, fs: seq<Mapper<E>>, e: E)
    ensures var k := Wrap(Tracked(Call(callback)), fs);
            && Accept(w, k) == w.(completed := w.completed + 1)
            && Reject(w, k, e) == w.(completed := w.completed + 1, calls :=
                 match Compose(fs, e) case Some(e') => w.calls + [(callback, e')] case None => w.calls)
  {
    ChainMeaning(w, Tracked(Call(callback)), fs, e);
  }

  /** A plain callback behind any chain is called once, iff a composed error reaches it; an ignored outcome is lost. */
  lemma CallbackThroughChain<E>(w: World<E>, callback: nat, fs: seq<Mapper<E>>, e: E)
    ensures var k := Wrap(OnReject(Call(callback)), fs);
            && Accept(w, k) == w
            && Reject(w, k, e) == w.(calls :=
                 match Compose(fs, e) case Some(e') => w.calls + [(callback, e')] case None => w.calls)
    ensures Accept(w, Wrap(Ignore, fs)) == w && Reject(w, Wrap(Ignore, fs), e) == w
  {
    ChainMeaning(w, OnReject(Call(callback)), fs, e);
    ChainMeaning(w, Ignore, fs, e);
  }

  /** The count does not depend on what a tracked sink's closure captures either. */
  lemma TrackedCountsOnce<E>(w: World<E>, h: Handler<E>, fs: seq<Mapper<E>>, e: E)
    requires Owns(w, Captured(h))
    ensures var k := Wrap(Tracked(h), fs);
            Accept(w, k).completed == Reject(w, k, e).completed == w.completed + 1
  {
    ChainMeaning(w, Tracked(h), fs, e);
    HandlerKeepsCount(w, h, e);
    HandlerKeepsCount(Complete(w), h, e);
    match Compose(fs, e)
    case Some(e') => HandlerKeepsCount(w, h, e');
    case None =>
  }

  lemma {:induction false} HandlerKeepsCount<E>(w: World<E>, h: Handler<E>, e: E)
    requires Owns(w, Captured(h))
    ensures CallHandler(w, h, e).completed == DropHandler(w, h).completed == w.completed
  {
    if h.MapThen? {
      HandlerKeepsCount(w, h.rest, e);
      if h.f(e).Some? { HandlerKeepsCount(w, h.rest, h.f(e).value); }
    }
  }

  // ---------------------------------------------------------------------------------------------
  // The sender's steps, run without interference, are the cell operations used above
  // ---------------------------------------------------------------------------------------------

  /** The protocol's sender, run to completion from a cell nobody else is touching. */
  lemma SenderAloneMatches<E>(w: World<E>, sender: nat, s: Completion.State<E>, o: Completion.Outcome<E>)
    requires sender in w.cells && w.cells[sender] == s.cell && s.cell.status == Completion.Pending
    requires s.sender == Completion.Unused
    ensures var steps := match o
                         case Accept => [Completion.SenderStep, Completion.SenderStep, Completion.SenderStep]
                         case Reject(_) => [Completion.SenderStep, Completion.SenderStep, Completion.SenderStep,
                             Completion.SenderStep]
                         case Forget => [Completion.SenderStep, Completion.SenderStep, Completion.SenderStep];
            var t := Completion.Execute(s, [Completion.Dispose(o)] + steps);
            var w' := match o
                      case Accept => SendAccept(w, sender)
                      case Reject(e) => SendReject(w, sender, e)
                      case Forget => DropSender(w, sender);
            t.Some? && t.value.sender == Completion.Gone && t.value.cell == w'.cells[sender]
  {
    var a: Completion.Action<E> := Completion.SenderStep;
    var s1 := Completion.DisposeSender(s, o);
    var s2 := Completion.StepSender(s1);
    var s3 := Completion.StepSender(s2);
    var s4 := Completion.StepSender(s3);
    assert Completion.Execute(s3, [a]) == Completion.Execute(s4, []);
    assert Completion.Execute(s2, [a, a]) == Completion.Execute(s3, [a]);
    assert Completion.Execute(s1, [a, a, a]) == Completion.Execute(s2, [a, a]);
    if o.Reject? {
      var s5 := Completion.StepSender(s4);
      assert Completion.Execute(s4, [a]) == Completion.Execute(s5, []);
      assert Completion.Execute(s3, [a, a]) == Completion.Execute(s4, [a]);
      assert Completion.Execute(s2, [a, a, a]) == Completion.Execute(s3, [a, a]);
      assert Completion.Execute(s1, [a, a, a, a]) == Completion.Execute(s2, [a, a, a]);
    }
  }
}
