/** After `Shutdown`: every worker step makes progress, and in a fair run every worker exits. */
module QueueProgress {
  import opened Common
  import opened Queue
  import Safety = QueueSafety
  import Delivery = QueueDelivery

  // ---------- the measure

  /** Compared lexicographically: the stage of the loop, the messages left, the work left on this one. */
  datatype Rank = Rank(stage: nat, left: nat, work: nat)

  predicate Below(a: Rank, b: Rank) {
    || a.stage < b.stage
    || (a.stage == b.stage && a.left < b.left)
    || (a.stage == b.stage && a.left == b.left && a.work < b.work)
  }

  function Remaining(c: Config, extensions: nat): nat {
    if extensions < c.maxExtensions then c.maxExtensions - extensions else 0
  }

  function Owed(handler: Handler): nat {
    if handler == Busy then 1 else 0
  }

  function RankOf(c: Config, pc: WorkerPc): Rank {
    match pc
    case Exited => Rank(0, 0, 0)
    case Check => Rank(1, 0, 0)
    case Sleeping => Rank(2, 0, 0)
    case NextMessage(messages) => Rank(3, |messages|, 0)
    case Deleting(_, rest) => Rank(3, |rest|, 1)
    case Extending(_, n, handler, rest) => Rank(3, |rest|, 1 + 2 * Remaining(c, n) + Owed(handler))
    case Waiting(_, n, handler, rest) => Rank(3, |rest|, 2 + 2 * Remaining(c, n) + Owed(handler))
    case HasResponse(_, _) => Rank(4, 0, 0)
    case Receiving => Rank(5, 0, 0)
    case Blocked => Rank(6, 0, 0)
    case WantRead => Rank(7, 0, 0)
  }

  /** Once the channel is closed, every step of a worker strictly lowers its rank. */
  lemma EveryStepCounts(c: Config, g: Gate, w: nat, k: Worker, a: WorkerAction)
    requires g.closed && Delivery.ShapeInv(c, w, k) && WorkerReady(c, g, k.pc, a)
    ensures Below(RankOf(c, MoveWorker(c, g, w, k, a).worker.pc), RankOf(c, k.pc))
  {
  }

  ghost predicate CanMove(c: Config, g: Gate, pc: WorkerPc) {
    exists a :: WorkerReady(c, g, pc, a)
  }

  /** A worker can move, unless it has exited or waits for a paused or pausing queue. */
  lemma BlockedExactly(c: Config, g: Gate, pc: WorkerPc)
    ensures !CanMove(c, g, pc) <==> pc == Exited || pc == Blocked
  {
    match pc
    case Receiving => assert WorkerReady(c, g, pc, Respond(true, []));
    case Waiting(_, n, _, _) =>
      assert WorkerReady(c, g, pc, if n < c.maxExtensions then TimerFires else Proceed);
    case Extending(_, _, _, _) => assert WorkerReady(c, g, pc, ExtendReturns(true));
    case Exited =>
    case Blocked =>
    case _ => assert WorkerReady(c, g, pc, Proceed);
  }

  // ---------- the draining phase

  predicate Pausing(pc: CallerPc) {
    pc.PauseLock? || pc.PauseCheck? || pc.PauseAnnounce? || pc.PauseWait? || pc.PauseRelease?
  }

  /** The channel is closed, the run lock is free, and nobody is about to take it. */
  ghost predicate Draining(c: Config, s: State) {
    && Safety.Inv(s) && Delivery.Inv(c, s)
    && s.gate.closed && s.gate.running && s.gate.writer == Free
    && forall i :: 0 <= i < |s.callers| ==> !Pausing(s.callers[i])
  }

  lemma DrainingCaller(c: Config, s: State, i: nat)
    requires Draining(c, s) && i < |s.callers| && CallerReady(s.gate, Quiet(s), s.callers[i])
    ensures var t := StepCaller(s, i);
            && t.gate.closed && t.gate.running && t.gate.writer == Free
            && (forall j :: 0 <= j < |t.callers| ==> !Pausing(t.callers[j]))
  {
    assert Safety.CallerInv(s.gate, i, s.callers[i]);
  }

  lemma DrainingStep(c: Config, s: State, a: Action, t: State)
    requires Draining(c, s) && Follows(c, s, a, t) && !a.CallPause?
    ensures Draining(c, t)
  {
    Safety.NextInv(c, s, a);
    Delivery.NextInv(c, s, a);
    if a.CallerStep? { DrainingCaller(c, s, a.caller); }
  }

  /** When `Shutdown`'s own `Start` is done and no `Pause` is in line, the queue drains. */
  lemma StartOpens(c: Config, s: State, i: nat)
    requires Safety.Inv(s) && Delivery.Inv(c, s)
    requires i < |s.callers| && s.callers[i] == StartRelease(true)
    requires forall j :: 0 <= j < |s.callers| ==> !s.callers[j].PauseLock?
    ensures Draining(c, s)
  {
    assert Safety.CallerInv(s.gate, i, s.callers[i]);
    forall j | 0 <= j < |s.callers| ensures !Pausing(s.callers[j]) {
      assert Safety.CallerInv(s.gate, j, s.callers[j]);
    }
  }

  // ---------- infinite runs

  predicate RunsAt(c: Config, states: nat -> State, acts: nat -> Action, n: nat) {
    Follows(c, states(n), acts(n), states(n + 1))
  }

  ghost predicate IsRun(c: Config, states: nat -> State, acts: nat -> Action) {
    && Init(c, states(0))
    && forall n: nat :: RunsAt(c, states, acts, n)
  }

  predicate StepOf(a: Action, w: nat) {
    a.WorkerStep? && a.worker == w
  }

  /** Weak fairness to worker `w`: it is never able to move from some point on without moving. */
  ghost predicate FairTo(c: Config, states: nat -> State, acts: nat -> Action, w: nat) {
    forall n: nat :: MovesAfter(c, states, acts, w, n)
  }

  ghost predicate MovesAfter(c: Config, states: nat -> State, acts: nat -> Action, w: nat, n: nat) {
    exists m: nat :: n <= m && MovesOrIsStuck(c, states(m), acts(m), w)
  }

  ghost predicate MovesOrIsStuck(c: Config, s: State, a: Action, w: nat) {
    StepOf(a, w) || (w < |s.workers| && !CanMove(c, s.gate, s.workers[w].pc))
  }

  ghost predicate NoPauseFrom(acts: nat -> Action, n: nat) {
    forall m: nat :: n <= m ==> !acts(m).CallPause?
  }

  lemma {:induction false} RunInv(c: Config, states: nat -> State, acts: nat -> Action, n: nat)
    requires IsRun(c, states, acts)
    ensures Safety.Inv(states(n)) && Delivery.Inv(c, states(n)) && |states(n).workers| == |states(0).workers|
  {
    if n > 0 {
      RunInv(c, states, acts, n - 1);
      assert RunsAt(c, states, acts, n - 1);
      Safety.NextInv(c, states(n - 1), acts(n - 1));
      Delivery.NextInv(c, states(n - 1), acts(n - 1));
    }
  }

  lemma DrainsOn(c: Config, states: nat -> State, acts: nat -> Action, k: nat)
    requires IsRun(c, states, acts) && Draining(c, states(k)) && !acts(k).CallPause?
    ensures Draining(c, states(k + 1))
  {
    assert RunsAt(c, states, acts, k);
    DrainingStep(c, states(k), acts(k), states(k + 1));
  }

  lemma {:induction false} StaysDraining(c: Config, states: nat -> State, acts: nat -> Action, n: nat, m: nat)
    requires IsRun(c, states, acts) && NoPauseFrom(acts, n) && n <= m && Draining(c, states(n))
    ensures Draining(c, states(m))
    decreases m - n
  {
    if n < m {
      StaysDraining(c, states, acts, n, m - 1);
      DrainsOn(c, states, acts, m - 1);
    }
  }

  // ---------- a worker that changes makes progress

  /** Something happens to worker `w` between two states: a step of its own, or being woken. */
  predicate Differs(s: State, t: State, w: nat) {
    w < |s.workers| && w < |t.workers| && s.workers[w] != t.workers[w]
  }

  /** After the close, whatever happens to a worker lowers its rank. */
  lemma EveryChangeCounts(c: Config, s: State, a: Action, t: State, w: nat)
    requires Delivery.Inv(c, s) && Follows(c, s, a, t) && s.gate.closed && Differs(s, t, w)
    ensures Below(RankOf(c, t.workers[w].pc), RankOf(c, s.workers[w].pc))
  {
    if StepOf(a, w) { EveryStepCounts(c, s.gate, w, s.workers[w], a.what); }
  }

  lemma OwnStepDiffers(c: Config, s: State, a: Action, t: State, w: nat)
    requires Delivery.Inv(c, s) && Follows(c, s, a, t) && s.gate.closed && StepOf(a, w)
    ensures Differs(s, t, w)
  {
    EveryStepCounts(c, s.gate, w, s.workers[w], a.what);
  }

  predicate ChangesAt(states: nat -> State, w: nat, k: nat) {
    Differs(states(k), states(k + 1), w)
  }

  lemma SameCrew(c: Config, states: nat -> State, acts: nat -> Action, k: nat)
    requires IsRun(c, states, acts)
    ensures |states(k + 1).workers| == |states(k).workers|
  {
    assert RunsAt(c, states, acts, k);
  }

  lemma {:induction false} StaysPut(c: Config, states: nat -> State, acts: nat -> Action, w: nat, n: nat, m: nat)
    requires IsRun(c, states, acts) && n <= m && w < |states(n).workers|
    requires forall k: nat :: n <= k < m ==> !ChangesAt(states, w, k)
    ensures w < |states(m).workers| && states(m).workers[w] == states(n).workers[w]
    decreases m - n
  {
    if n < m {
      StaysPut(c, states, acts, w, n, m - 1);
      SameCrew(c, states, acts, m - 1);
      assert !ChangesAt(states, w, m - 1);
    }
  }

  lemma {:induction false} ClosedForGood(c: Config, states: nat -> State, acts: nat -> Action, n: nat, m: nat)
    requires IsRun(c, states, acts) && n <= m && states(n).gate.closed
    ensures states(m).gate.closed
    decreases m - n
  {
    if n < m {
      ClosedForGood(c, states, acts, n, m - 1);
      assert RunsAt(c, states, acts, m - 1);
    }
  }

  // ---------- exit, or wait for ever

  /** From `n` on worker `w` waits for the run lock, which is never free again. */
  ghost predicate ShutOut(states: nat -> State, w: nat, n: nat) {
    forall p: nat :: n <= p ==> LockedOut(states(p), w)
  }

  predicate LockedOut(s: State, w: nat) {
    w < |s.workers| && s.workers[w].pc == Blocked && s.gate.writer != Free
  }

  lemma NoChangeNoStep(c: Config, states: nat -> State, acts: nat -> Action, w: nat, q: nat)
    requires IsRun(c, states, acts) && states(q).gate.closed && !ChangesAt(states, w, q)
    ensures !StepOf(acts(q), w)
  {
    assert RunsAt(c, states, acts, q);
    RunInv(c, states, acts, q);
    if StepOf(acts(q), w) { OwnStepDiffers(c, states(q), acts(q), states(q + 1), w); }
  }

  /** A worker to which nothing ever happens again, and which has not exited, waits for the run lock. */
  lemma IdleIsShutOut(c: Config, states: nat -> State, acts: nat -> Action, w: nat, n: nat, p: nat)
    requires IsRun(c, states, acts) && FairTo(c, states, acts, w) && states(n).gate.closed
    requires w < |states(n).workers| && states(n).workers[w].pc != Exited
    requires forall k: nat :: n <= k ==> !ChangesAt(states, w, k)
    requires n <= p
    ensures LockedOut(states(p), w)
  {
    assert MovesAfter(c, states, acts, w, p);
    var q: nat :| p <= q && MovesOrIsStuck(c, states(q), acts(q), w);
    StaysPut(c, states, acts, w, n, p);
    StaysPut(c, states, acts, w, n, q);
    ClosedForGood(c, states, acts, n, q);
    RunInv(c, states, acts, p);
    RunInv(c, states, acts, q);
    NoChangeNoStep(c, states, acts, w, q);
    BlockedExactly(c, states(q).gate, states(q).workers[w].pc);
    assert Safety.WorkerInv(states(p).gate, states(p).workers[w]);
  }

  lemma FirstChange(states: nat -> State, w: nat, n: nat) returns (k: nat)
    requires exists k: nat :: n <= k && ChangesAt(states, w, k)
    ensures n <= k && ChangesAt(states, w, k) && forall j: nat :: n <= j < k ==> !ChangesAt(states, w, j)
  {
    var bound: nat :| n <= bound && ChangesAt(states, w, bound);
    k := n;
    while !ChangesAt(states, w, k)
      invariant n <= k <= bound
      invariant forall j: nat :: n <= j < k ==> !ChangesAt(states, w, j)
      decreases bound - k
    {
      k := k + 1;
    }
  }

  lemma AfterChange(c: Config, states: nat -> State, acts: nat -> Action, w: nat, n: nat, k: nat)
    requires IsRun(c, states, acts) && n <= k && states(n).gate.closed && w < |states(n).workers|
    requires ChangesAt(states, w, k) && forall j: nat :: n <= j < k ==> !ChangesAt(states, w, j)
    ensures states(k + 1).gate.closed && w < |states(k + 1).workers|
    ensures Below(RankOf(c, states(k + 1).workers[w].pc), RankOf(c, states(n).workers[w].pc))
  {
    StaysPut(c, states, acts, w, n, k);
    ClosedForGood(c, states, acts, n, k);
    ClosedForGood(c, states, acts, n, k + 1);
    RunInv(c, states, acts, k);
    assert RunsAt(c, states, acts, k);
    EveryChangeCounts(c, states(k), acts(k), states(k + 1), w);
  }

  /**
   Whatever is called after the channel is closed, in a fair run a worker either exits or is shut
   out for ever by a run lock that is never released again.
   */
  lemma {:induction false} ExitsOrIsShutOut(c: Config, states: nat -> State, acts: nat -> Action, w: nat, n: nat)
    returns (m: nat)
    requires IsRun(c, states, acts) && states(n).gate.closed
    requires w < |states(n).workers| && FairTo(c, states, acts, w)
    ensures n <= m && w < |states(m).workers|
    ensures states(m).workers[w].pc == Exited || ShutOut(states, w, m)
    decreases RankOf(c, states(n).workers[w].pc).stage,
              RankOf(c, states(n).workers[w].pc).left,
              RankOf(c, states(n).workers[w].pc).work
  {
    m := n;
    if states(n).workers[w].pc == Exited {
    } else if forall k: nat :: n <= k ==> !ChangesAt(states, w, k) {
      forall p: nat | n <= p ensures LockedOut(states(p), w) {
        IdleIsShutOut(c, states, acts, w, n, p);
      }
    } else {
      var k := FirstChange(states, w, n);
      AfterChange(c, states, acts, w, n, k);
      m := ExitsOrIsShutOut(c, states, acts, w, k + 1);
    }
  }

  // ---------- Shutdown

  /** In a fair draining run, worker `w` exits. */
  lemma Exits(c: Config, states: nat -> State, acts: nat -> Action, w: nat, n: nat) returns (m: nat)
    requires IsRun(c, states, acts) && NoPauseFrom(acts, n) && Draining(c, states(n))
    requires w < |states(n).workers| && FairTo(c, states, acts, w)
    ensures n <= m && w < |states(m).workers| && states(m).workers[w].pc == Exited
  {
    m := ExitsOrIsShutOut(c, states, acts, w, n);
    StaysDraining(c, states, acts, n, m);
    assert ShutOut(states, w, m) ==> LockedOut(states(m), w);
  }

  lemma {:induction false} ExitedForGood(c: Config, states: nat -> State, acts: nat -> Action, w: nat, n: nat, m: nat)
    requires IsRun(c, states, acts) && n <= m && w < |states(n).workers| && states(n).workers[w].pc == Exited
    ensures w < |states(m).workers| && states(m).workers[w].pc == Exited
    decreases m - n
  {
    if n < m {
      ExitedForGood(c, states, acts, w, n, m - 1);
      assert RunsAt(c, states, acts, m - 1);
    }
  }

  ghost predicate Stopped(s: State, upTo: nat) {
    upTo <= |s.workers| && forall w :: 0 <= w < upTo ==> s.workers[w].pc == Exited
  }

  /** In a fair draining run, the first `upTo` workers have all exited at some point. */
  lemma {:induction false} ManyExit(c: Config, states: nat -> State, acts: nat -> Action, upTo: nat, n: nat)
    returns (m: nat)
    requires IsRun(c, states, acts) && NoPauseFrom(acts, n) && Draining(c, states(n))
    requires upTo <= |states(n).workers| == |states(0).workers|
    requires forall w :: 0 <= w < upTo ==> FairTo(c, states, acts, w)
    ensures n <= m && Stopped(states(m), upTo)
  {
    if upTo == 0 { return n; }
    var k := ManyExit(c, states, acts, upTo - 1, n);
    StaysDraining(c, states, acts, n, k);
    RunInv(c, states, acts, k);
    m := Exits(c, states, acts, upTo - 1, k);
    forall w | 0 <= w < upTo ensures w < |states(m).workers| && states(m).workers[w].pc == Exited {
      if w < upTo - 1 { ExitedForGood(c, states, acts, w, k, m); }
    }
  }

  /** Caller `i` is in `Shutdown`, whose own `Start` is done but for releasing the state lock. */
  predicate StartDone(s: State, i: nat) {
    i < |s.callers| && s.callers[i] == StartRelease(true)
  }

  predicate PauseInLine(s: State) {
    exists j :: 0 <= j < |s.callers| && Pausing(s.callers[j])
  }

  lemma {:induction false} NoPauseArrives(c: Config, states: nat -> State, acts: nat -> Action, n: nat, m: nat)
    requires IsRun(c, states, acts) && NoPauseFrom(acts, n) && n <= m && !PauseInLine(states(n))
    ensures !PauseInLine(states(m))
    decreases m - n
  {
    if n < m {
      NoPauseArrives(c, states, acts, n, m - 1);
      assert RunsAt(c, states, acts, m - 1);
    }
  }

  /**
   Take any fair run and any point in it where no `Pause` is in progress and after which none is
   called. Once `Shutdown`'s own `Start` is done, at that point or later, all workers exit.
   */
  lemma ShutdownDrains(c: Config, states: nat -> State, acts: nat -> Action, i: nat, n: nat, k: nat) returns (m: nat)
    requires IsRun(c, states, acts) && NoPauseFrom(acts, n) && !PauseInLine(states(n))
    requires forall w :: 0 <= w < |states(0).workers| ==> FairTo(c, states, acts, w)
    requires n <= k && StartDone(states(k), i)
    ensures k <= m && Stopped(states(m), |states(m).workers|)
  {
    NoPauseArrives(c, states, acts, n, k);
    assert forall j :: 0 <= j < |states(k).callers| ==> !Pausing(states(k).callers[j]);
    RunInv(c, states, acts, k);
    StartOpens(c, states(k), i);
    m := ManyExit(c, states, acts, |states(0).workers|, k);
    RunInv(c, states, acts, m);
  }

  lemma WithoutPauseNoneIsShutOut(c: Config, states: nat -> State, acts: nat -> Action, w: nat, i: nat,
                                  n: nat, k: nat, m: nat)
    requires IsRun(c, states, acts) && n <= k && StartDone(states(k), i)
    requires !PauseInLine(states(n)) && NoPauseFrom(acts, n)
    ensures !ShutOut(states, w, m)
  {
    NoPauseArrives(c, states, acts, n, k);
    assert forall j :: 0 <= j < |states(k).callers| ==> !Pausing(states(k).callers[j]);
    RunInv(c, states, acts, k);
    StartOpens(c, states(k), i);
    var p := if k <= m then m else k;
    StaysDraining(c, states, acts, k, p);
    assert !LockedOut(states(p), w);
  }

  /**
   So `Pause` is the one way not to stop. If a worker is shut out although `Shutdown`'s own `Start`
   got done after point `n`, a `Pause` was in progress at `n` or was called afterwards.
   */
  lemma OnlyPauseShutsOut(c: Config, states: nat -> State, acts: nat -> Action, w: nat, i: nat,
                          n: nat, k: nat, m: nat)
    requires IsRun(c, states, acts) && n <= k && StartDone(states(k), i) && ShutOut(states, w, m)
    ensures PauseInLine(states(n)) || !NoPauseFrom(acts, n)
  {
    if !PauseInLine(states(n)) && NoPauseFrom(acts, n) {
      WithoutPauseNoneIsShutOut(c, states, acts, w, i, n, k, m);
    }
  }
}
