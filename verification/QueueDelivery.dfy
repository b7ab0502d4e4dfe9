/** What every run does with a message: when it is deleted, how often it is extended. */
module QueueDelivery {
  import opened Common
  import opened Queue

  // ---------- the invariant of one worker

  function Allowance(c: Config): nat {
    if c.maxExtensions > 0 then c.maxExtensions else 0
  }

  /** The delivery a worker holds is the last one it took up. */
  predicate Owns(w: nat, k: Worker, d: Delivery) {
    d.worker == w && d.serial + 1 == k.taken
  }

  predicate ShapeInv(c: Config, w: nat, k: Worker) {
    match k.pc
    case Waiting(d, n, _, _) =>
      Owns(w, k, d) && d.message.body == Task && n <= Allowance(c) && (!c.extensionEnabled ==> n == 0)
    case Extending(d, n, _, _) =>
      Owns(w, k, d) && d.message.body == Task && n < c.maxExtensions && c.extensionEnabled
    case Deleting(d, _) => Owns(w, k, d)
    case _ => true
  }

  lemma MoveShape(c: Config, g: Gate, w: nat, k: Worker, a: WorkerAction)
    requires ShapeInv(c, w, k) && WorkerReady(c, g, k.pc, a)
    ensures ShapeInv(c, w, MoveWorker(c, g, w, k, a).worker)
  {
  }

  // ---------- the invariant of one delivery

  function Times(log: seq<Event>, e: Event): nat {
    multiset(log)[e]
  }

  /** What a run has done with one delivery. */
  datatype History = History(succeeded: nat, failed: nat, extended: nat, deleted: nat, orphaned: bool)

  const NOTHING := History(0, 0, 0, 0, false)

  function HistoryOf(log: seq<Event>, orphans: set<Delivery>, d: Delivery): History {
    History(Times(log, HandlerReturned(d, true)), Times(log, HandlerReturned(d, false)),
            Times(log, Extended(d)), Times(log, Deleted(d)), d in orphans)
  }

  /** While the worker waits for the handler: `extended` requests so far, and no deletion. */
  function InHand(extended: nat, handler: Handler): History {
    History(if handler == Finished(true) then 1 else 0, if handler == Finished(false) then 1 else 0,
            extended, 0, false)
  }

  /** The handler returned nil while extensions remained, or there was no task to handle. */
  predicate MayDelete(c: Config, h: History, d: Delivery) {
    d.message.body == Task ==> h.succeeded == 1 && c.maxExtensions > 0
  }

  /** What holds of a delivery at any time. */
  predicate Proper(c: Config, h: History, d: Delivery) {
    && h.succeeded + h.failed <= 1
    && h.extended <= Allowance(c)
    && (!c.extensionEnabled ==> h.extended == 0)
    && h.deleted <= 1
    && (h.deleted == 1 ==> MayDelete(c, h, d))
    && (h.orphaned ==> h.succeeded + h.failed == 0 && h.deleted == 0)
  }

  predicate Tracked(c: Config, h: History, k: Worker, d: Delivery) {
    if k.pc.Waiting? && k.pc.delivery == d then h == InHand(k.pc.extensions, k.pc.handler)
    else if k.pc.Extending? && k.pc.delivery == d then h == InHand(k.pc.extensions + 1, k.pc.handler)
    else if k.pc.Deleting? && k.pc.delivery == d then
      Proper(c, h, d) && MayDelete(c, h, d) && h.deleted == 0 && !h.orphaned
    else if d.serial >= k.taken then h == NOTHING
    else Proper(c, h, d)
  }

  predicate DeliveryInv(c: Config, s: State, d: Delivery) {
    var h := HistoryOf(s.log, s.orphans, d);
    if d.worker < |s.workers| then Tracked(c, h, s.workers[d.worker], d) else h == NOTHING
  }

  ghost predicate Inv(c: Config, s: State) {
    && (forall w :: 0 <= w < |s.workers| ==> ShapeInv(c, w, s.workers[w]))
    && (forall d: Delivery :: DeliveryInv(c, s, d))
  }

  // ---------- preservation

  /** What one more event does to the history of `d`. */
  function Recorded(h: History, events: seq<Event>, orphans: set<Delivery>, d: Delivery): History {
    var h := h.(orphaned := h.orphaned || d in orphans);
    if events == [] || events[0].delivery != d then h
    else
      match events[0]
      case HandlerReturned(_, ok) => if ok then h.(succeeded := h.succeeded + 1) else h.(failed := h.failed + 1)
      case Extended(_) => h.(extended := h.extended + 1)
      case Deleted(_) => h.(deleted := h.deleted + 1)
  }

  lemma HistoryGrows(log: seq<Event>, orphans: set<Delivery>, events: seq<Event>, more: set<Delivery>, d: Delivery)
    requires |events| <= 1
    ensures HistoryOf(log + events, orphans + more, d) == Recorded(HistoryOf(log, orphans, d), events, more, d)
  {
    if events == [] {
      assert log + events == log;
    } else {
      assert events == [events[0]];
    }
  }

  /** What a delivery must look like after a step that ends in `move`. */
  predicate Recording(c: Config, h: History, move: WorkerMove, d: Delivery) {
    |move.events| <= 1 && Tracked(c, Recorded(h, move.events, move.orphans, d), move.worker, d)
  }

  lemma OwnProceed(c: Config, g: Gate, h: History, k: Worker, d: Delivery)
    requires ShapeInv(c, d.worker, k) && ProceedReady(c, g, k.pc) && Tracked(c, h, k, d)
    ensures Recording(c, h, MoveOn(g, d.worker, k), d)
  {
  }

  lemma OwnGiveUp(c: Config, h: History, k: Worker, d: Delivery)
    requires ShapeInv(c, d.worker, k) && (k.pc.Waiting? || k.pc.Extending?) && Tracked(c, h, k, d)
    ensures Recording(c, h, GiveUp(k), d)
  {
  }

  lemma OwnResult(c: Config, g: Gate, h: History, k: Worker, a: WorkerAction, d: Delivery)
    requires ShapeInv(c, d.worker, k) && WorkerReady(c, g, k.pc, a) && Tracked(c, h, k, d)
    requires a.HandlerReturns? || a.TakeResult?
    ensures Recording(c, h, MoveWorker(c, g, d.worker, k, a), d)
  {
  }

  lemma OwnExtension(c: Config, g: Gate, h: History, k: Worker, a: WorkerAction, d: Delivery)
    requires ShapeInv(c, d.worker, k) && WorkerReady(c, g, k.pc, a) && Tracked(c, h, k, d)
    requires (a.TimerFires? && c.extensionEnabled) || (a.ExtendReturns? && a.ok)
    ensures Recording(c, h, MoveWorker(c, g, d.worker, k, a), d)
  {
  }

  /** A step of a worker, seen by a delivery of that worker. */
  lemma OwnMove(c: Config, g: Gate, h: History, k: Worker, a: WorkerAction, d: Delivery)
    requires ShapeInv(c, d.worker, k) && WorkerReady(c, g, k.pc, a) && Tracked(c, h, k, d)
    ensures Recording(c, h, MoveWorker(c, g, d.worker, k, a), d)
  {
    match a
    case Proceed => OwnProceed(c, g, h, k, d);
    case Respond(_, _) =>
    case HandlerReturns(_) => OwnResult(c, g, h, k, a, d);
    case TakeResult => OwnResult(c, g, h, k, a, d);
    case SeeShutdown => OwnGiveUp(c, h, k, d);
    case TimerFires => if c.extensionEnabled { OwnExtension(c, g, h, k, a, d); } else { OwnGiveUp(c, h, k, d); }
    case ExtendReturns(ok) => if ok { OwnExtension(c, g, h, k, a, d); } else { OwnGiveUp(c, h, k, d); }
  }

  /** A step of a worker says nothing about the deliveries of another. */
  lemma ForeignMove(c: Config, g: Gate, h: History, w: nat, k: Worker, a: WorkerAction, d: Delivery)
    requires ShapeInv(c, w, k) && WorkerReady(c, g, k.pc, a) && d.worker != w
    ensures var move := MoveWorker(c, g, w, k, a);
            |move.events| <= 1 && Recorded(h, move.events, move.orphans, d) == h
  {
  }

  lemma WorkerStepKeeps(c: Config, s: State, w: nat, a: WorkerAction, d: Delivery)
    requires Inv(c, s) && Enabled(c, s, WorkerStep(w, a))
    ensures DeliveryInv(c, StepWorker(c, s, w, a), d)
  {
    assert DeliveryInv(c, s, d);
    var h := HistoryOf(s.log, s.orphans, d);
    var move := MoveWorker(c, s.gate, w, s.workers[w], a);
    if d.worker == w {
      OwnMove(c, s.gate, h, s.workers[w], a, d);
    } else {
      ForeignMove(c, s.gate, h, w, s.workers[w], a, d);
    }
    HistoryGrows(s.log, s.orphans, move.events, move.orphans, d);
  }

  /** A handler that was given up on returns late, once. */
  lemma LateReturn(c: Config, h: History, k: Worker, d: Delivery, ok: bool)
    requires Tracked(c, h, k, d) && h.orphaned
    ensures Tracked(c, Recorded(h.(orphaned := false), [HandlerReturned(d, ok)], {}, d), k, d)
  {
  }

  lemma OrphanKeeps(c: Config, s: State, late: Delivery, ok: bool, d: Delivery)
    requires Inv(c, s) && late in s.orphans
    ensures DeliveryInv(c, Next(c, s, OrphanReturns(late, ok)), d)
  {
    assert DeliveryInv(c, s, d);
    var h := HistoryOf(s.log, s.orphans, d);
    HistoryGrows(s.log, s.orphans - {late}, [HandlerReturned(late, ok)], {}, d);
    if d == late {
      if d.worker < |s.workers| { LateReturn(c, h, s.workers[d.worker], d, ok); }
    } else {
      assert HistoryOf(s.log, s.orphans - {late}, d) == h;
    }
  }

  /** Calls and their steps take nothing up and write nothing down; at most they wake a worker. */
  lemma BystanderKeeps(c: Config, s: State, a: Action, d: Delivery)
    requires Inv(c, s) && Enabled(c, s, a) && !a.WorkerStep? && !a.OrphanReturns?
    ensures DeliveryInv(c, Next(c, s, a), d)
  {
    assert DeliveryInv(c, s, d);
  }

  lemma NextInv(c: Config, s: State, a: Action)
    requires Inv(c, s) && Enabled(c, s, a)
    ensures Inv(c, Next(c, s, a))
  {
    var t := Next(c, s, a);
    forall d: Delivery ensures DeliveryInv(c, t, d) {
      match a
      case WorkerStep(w, what) => WorkerStepKeeps(c, s, w, what, d);
      case OrphanReturns(late, ok) => OrphanKeeps(c, s, late, ok, d);
      case _ => BystanderKeeps(c, s, a, d);
    }
    forall w | 0 <= w < |t.workers| ensures ShapeInv(c, w, t.workers[w]) {
      if a.WorkerStep? && a.worker == w { MoveShape(c, s.gate, w, s.workers[w], a.what); }
    }
  }

  lemma {:induction false} ReachableInv(c: Config, run: seq<Action>, s: State)
    requires Reaches(c, run, s)
    ensures Inv(c, s)
    decreases |run|
  {
    if run != [] {
      var n := |run| - 1;
      var before :| Reaches(c, run[..n], before) && Enabled(c, before, run[n]) && s == Next(c, before, run[n]);
      ReachableInv(c, run[..n], before);
      NextInv(c, before, run[n]);
    }
  }

  // ---------- the order of events

  /** Whoever deletes a task has seen its handler return nil. */
  predicate Ordered(log: seq<Event>) {
    forall j :: 0 <= j < |log| && log[j].Deleted? ==> Justified(log[..j], log[j].delivery)
  }

  predicate Justified(before: seq<Event>, d: Delivery) {
    d.message.body != Task || HandlerReturned(d, true) in before
  }

  lemma OrderedAppend(log: seq<Event>, more: seq<Event>)
    requires Ordered(log) && |more| <= 1
    requires |more| == 1 && more[0].Deleted? ==> Justified(log, more[0].delivery)
    ensures Ordered(log + more)
  {
    var all := log + more;
    forall j | 0 <= j < |all| && all[j].Deleted? ensures Justified(all[..j], all[j].delivery) {
      if j < |log| {
        assert all[..j] == log[..j];
      } else {
        assert all[..j] == log;
      }
    }
  }

  lemma NextOrdered(c: Config, s: State, a: Action)
    requires Inv(c, s) && Ordered(s.log) && Enabled(c, s, a)
    ensures Ordered(Next(c, s, a).log)
  {
    match a
    case WorkerStep(w, what) =>
      var move := MoveWorker(c, s.gate, w, s.workers[w], what);
      if s.workers[w].pc.Deleting? { assert DeliveryInv(c, s, s.workers[w].pc.delivery); }
      OrderedAppend(s.log, move.events);
    case OrphanReturns(d, ok) => OrderedAppend(s.log, [HandlerReturned(d, ok)]);
    case _ =>
  }

  lemma {:induction false} ReachableOrdered(c: Config, run: seq<Action>, s: State)
    requires Reaches(c, run, s)
    ensures Ordered(s.log)
    decreases |run|
  {
    if run != [] {
      var n := |run| - 1;
      var before :| Reaches(c, run[..n], before) && Enabled(c, before, run[n]) && s == Next(c, before, run[n]);
      ReachableOrdered(c, run[..n], before);
      ReachableInv(c, run[..n], before);
      NextOrdered(c, before, run[n]);
    }
  }

  // ---------- what it means

  lemma AnyDelivery(c: Config, run: seq<Action>, s: State, d: Delivery)
    requires Reaches(c, run, s)
    ensures Proper(c, HistoryOf(s.log, s.orphans, d), d)
  {
    ReachableInv(c, run, s);
    assert DeliveryInv(c, s, d);
    if d.worker < |s.workers| { assert ShapeInv(c, d.worker, s.workers[d.worker]); }
  }

  /**
   In every run, a message is deleted only if it had no body or no decodable one, or its handler
   returned nil earlier in the run; and it is deleted at most once.
   */
  lemma DeletedOnlyWhenDone(c: Config, run: seq<Action>, s: State, j: nat)
    requires Reaches(c, run, s) && j < |s.log| && s.log[j].Deleted?
    ensures var d := s.log[j].delivery;
            && (d.message.body != Task || exists i :: 0 <= i < j && s.log[i] == HandlerReturned(d, true))
            && Times(s.log, Deleted(d)) == 1
  {
    var d := s.log[j].delivery;
    ReachableOrdered(c, run, s);
    AnyDelivery(c, run, s, d);
    assert Justified(s.log[..j], d);
    assert Deleted(d) in multiset(s.log);
  }

  /** In every run, a task is extended at most the configured number of times, and never when disabled. */
  lemma ExtensionsBounded(c: Config, run: seq<Action>, s: State, d: Delivery)
    requires Reaches(c, run, s)
    ensures Times(s.log, Extended(d)) <= Allowance(c)
    ensures !c.extensionEnabled ==> Times(s.log, Extended(d)) == 0
  {
    AnyDelivery(c, run, s, d);
  }

  /** A handler is called once per delivery, and returns at most once. */
  lemma HandlerReturnsOnce(c: Config, run: seq<Action>, s: State, d: Delivery)
    requires Reaches(c, run, s)
    ensures Times(s.log, HandlerReturned(d, true)) + Times(s.log, HandlerReturned(d, false)) <= 1
  {
    AnyDelivery(c, run, s, d);
  }

  /** With no extensions configured the handler's result is never read, so no task is ever deleted. */
  lemma NoExtensionsNoCompletion(c: Config, run: seq<Action>, s: State, d: Delivery)
    requires Reaches(c, run, s) && c.maxExtensions <= 0 && d.message.body == Task
    ensures Deleted(d) !in s.log
  {
    AnyDelivery(c, run, s, d);
    assert Deleted(d) !in multiset(s.log);
  }

  // ---------- the lease

  const SECOND := 1_000_000_000

  /** The whole seconds of a timeout, the rest cut off. In nanoseconds. */
  function Cut(timeout: nat): nat {
    timeout / SECOND * SECOND
  }

  /**
   What a receive or an extension asks for. The timeout goes through floating point, so a fraction
   is cut off, or rounded up to the next second when the seconds leave too few bits for it.
   */
  predicate IsLease(timeout: nat, lease: nat) {
    lease == Cut(timeout) || (timeout % SECOND != 0 && lease == Cut(timeout) + SECOND)
  }

  /** How long `processTask` waits before it extends. */
  function KeepAlive(timeout: nat): nat {
    timeout / 5 * 4
  }

  lemma CutOutlastsExactly(timeout: nat)
    ensures KeepAlive(timeout) <= Cut(timeout) <==> timeout % SECOND < timeout / SECOND * 250_000_000 + 5
  {
    var seconds, rest := timeout / SECOND, timeout % SECOND;
    assert timeout == seconds * SECOND + rest;
  }

  /**
   However the seconds are rounded, the worker asks again before the lease runs out, if and only if
   the part that may be cut off is small enough.
   */
  lemma LeaseOutlastsExactly(timeout: nat)
    ensures (forall lease: nat :: IsLease(timeout, lease) ==> KeepAlive(timeout) <= lease) <==>
            timeout % SECOND < timeout / SECOND * 250_000_000 + 5
  {
    CutOutlastsExactly(timeout);
    assert IsLease(timeout, Cut(timeout));
  }

  lemma LeaseOutlasts(timeout: nat, lease: nat)
    requires timeout >= 4 * SECOND || (timeout > 0 && timeout % SECOND == 0)
    requires IsLease(timeout, lease)
    ensures KeepAlive(timeout) <= lease
  {
    CutOutlastsExactly(timeout);
  }

  lemma LeaseFallsShort(timeout: nat)
    requires timeout == 1_500_000_000
    ensures IsLease(timeout, SECOND) && SECOND < KeepAlive(timeout)
  {
  }
}
