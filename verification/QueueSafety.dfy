/** What every interleaving keeps: the two locks, the channel and the once fit together. */
module QueueSafety {
  import opened Common
  import opened Queue

  // ---------- the invariant

  /** Between `stateLock.Lock()` and `stateLock.Unlock()`. */
  predicate HoldsStateLock(pc: CallerPc) {
    || pc.StartCheck? || pc.StartUnlock? || pc.StartRelease?
    || pc.PauseCheck? || pc.PauseAnnounce? || pc.PauseWait? || pc.PauseRelease?
  }

  /** Inside the function given to `shutdownOnce.Do`. */
  predicate InOnce(pc: CallerPc) {
    pc.CloseChannel? || pc.WaitForWorkers? ||
    ((pc.StartLock? || pc.StartCheck? || pc.StartUnlock? || pc.StartRelease?) && pc.inShutdown)
  }

  /** The run lock is held for writing exactly while the queue is paused, and nobody waits for it. */
  predicate Settled(g: Gate) {
    g.writer == if g.running then Free else Held
  }

  /** What the holder of the state lock knows at each of its steps. */
  predicate HolderKnows(g: Gate, pc: CallerPc) {
    match pc
    case StartUnlock(_) => g.running && g.writer == Held
    case StartRelease(_) => g.running && g.writer == Free
    case PauseAnnounce => !g.running && g.writer == Free
    case PauseWait => !g.running && g.writer == Pending
    case PauseRelease => !g.running && g.writer == Held
    case _ => Settled(g)
  }

  predicate CallerInv(g: Gate, i: nat, pc: CallerPc) {
    && (HoldsStateLock(pc) <==> g.stateLock == Some(i))
    && (HoldsStateLock(pc) ==> HolderKnows(g, pc))
    && (InOnce(pc) <==> g.once == InProgress(i))
    && (InOnce(pc) ==> (g.closed <==> !pc.CloseChannel?))
  }

  predicate WorkerInv(g: Gate, k: Worker) {
    && (k.reading <==> k.pc.Receiving? || k.pc.HasResponse?)
    && (k.reading ==> g.writer != Held)
    && k.late <= 1
    && (!g.closed ==> k.late == 0)
    && (k.late == 1 ==> !k.pc.WantRead? && !k.pc.Blocked?)
    && (k.pc.Blocked? ==> g.writer != Free)
    && (k.pc.Exited? ==> g.closed)
  }

  predicate GateInv(g: Gate, callers: nat) {
    && (g.stateLock == None ==> Settled(g))
    && (g.stateLock.Some? ==> g.stateLock.value < callers)
    && (g.once == NotRun ==> !g.closed)
    && (g.once == Done ==> g.closed)
    && (g.once.InProgress? ==> g.once.caller < callers)
  }

  predicate Inv(s: State) {
    && !s.fatal
    && GateInv(s.gate, |s.callers|)
    && (forall i :: 0 <= i < |s.callers| ==> CallerInv(s.gate, i, s.callers[i]))
    && (forall w :: 0 <= w < |s.workers| ==> WorkerInv(s.gate, s.workers[w]))
  }

  lemma InitInv(c: Config, s: State)
    requires Init(c, s)
    ensures Inv(s)
  {
  }

  // ---------- preservation

  /** The step of one caller, seen by that caller. */
  lemma MoverInv(g: Gate, quiet: bool, i: nat, pc: CallerPc, callers: nat)
    requires i < callers && GateInv(g, callers) && CallerInv(g, i, pc) && CallerReady(g, quiet, pc)
    ensures var move := MoveCaller(g, i, pc);
            !move.fatal && GateInv(move.gate, callers) && CallerInv(move.gate, i, move.pc)
  {
  }

  /** The step of one caller, seen by another. */
  lemma BystanderInv(g: Gate, quiet: bool, i: nat, pc: CallerPc, j: nat, other: CallerPc)
    requires i != j && CallerInv(g, i, pc) && CallerInv(g, j, other) && CallerReady(g, quiet, pc)
    ensures CallerInv(MoveCaller(g, i, pc).gate, j, other)
  {
  }

  /** The step of one caller, seen by a worker. */
  lemma WatcherInv(g: Gate, quiet: bool, i: nat, pc: CallerPc, k: Worker)
    requires CallerInv(g, i, pc) && WorkerInv(g, k) && CallerReady(g, quiet, pc)
    requires quiet ==> !k.reading
    ensures WorkerInv(MoveCaller(g, i, pc).gate, if pc.StartUnlock? then Wake(k, g.closed) else k)
  {
  }

  lemma CallerStepInv(s: State, i: nat)
    requires Inv(s) && i < |s.callers| && CallerReady(s.gate, Quiet(s), s.callers[i])
    ensures Inv(StepCaller(s, i))
  {
    var g := s.gate;
    var t := StepCaller(s, i);
    MoverInv(g, Quiet(s), i, s.callers[i], |s.callers|);
    forall j | 0 <= j < |s.callers| ensures CallerInv(t.gate, j, t.callers[j]) {
      if j != i { BystanderInv(g, Quiet(s), i, s.callers[i], j, s.callers[j]); }
    }
    forall w | 0 <= w < |s.workers| ensures WorkerInv(t.gate, t.workers[w]) {
      WatcherInv(g, Quiet(s), i, s.callers[i], s.workers[w]);
    }
  }

  lemma WorkerMoveInv(c: Config, g: Gate, w: nat, k: Worker, a: WorkerAction)
    requires WorkerInv(g, k) && WorkerReady(c, g, k.pc, a)
    ensures var move := MoveWorker(c, g, w, k, a); !move.fatal && WorkerInv(g, move.worker)
  {
  }

  /** Every step of every caller and worker keeps the invariant. */
  lemma NextInv(c: Config, s: State, a: Action)
    requires Inv(s) && Enabled(c, s, a)
    ensures Inv(Next(c, s, a))
  {
    match a
    case CallerStep(i) => CallerStepInv(s, i);
    case WorkerStep(w, what) => WorkerMoveInv(c, s.gate, w, s.workers[w], what);
    case _ =>
  }

  /** The invariant holds after any run. */
  lemma {:induction false} ReachableInv(c: Config, run: seq<Action>, s: State)
    requires Reaches(c, run, s)
    ensures Inv(s)
    decreases |run|
  {
    if run == [] {
      InitInv(c, s);
    } else {
      var n := |run| - 1;
      var before :| Reaches(c, run[..n], before) && Enabled(c, before, run[n]) && s == Next(c, before, run[n]);
      ReachableInv(c, run[..n], before);
      NextInv(c, before, run[n]);
    }
  }

  // ---------- what it means

  /**
   In every reachable state: no lock was unlocked that was not held and no channel closed twice;
   whenever the state lock is free, the run lock is held for writing exactly while the queue is
   paused; and then no worker is inside a receive.
   */
  lemma PauseProtocol(c: Config, run: seq<Action>, s: State)
    requires Reaches(c, run, s)
    ensures !s.fatal
    ensures s.gate.stateLock == None ==> (s.gate.writer == Held <==> !s.gate.running) && s.gate.writer != Pending
    ensures s.gate.stateLock == None && !s.gate.running ==>
              forall w :: 0 <= w < |s.workers| ==> !s.workers[w].pc.Receiving? && !s.workers[w].pc.HasResponse?
  {
    ReachableInv(c, run, s);
    if s.gate.stateLock == None && !s.gate.running {
      forall w | 0 <= w < |s.workers| ensures !s.workers[w].pc.Receiving? && !s.workers[w].pc.HasResponse? {
        assert WorkerInv(s.gate, s.workers[w]);
      }
    }
  }

  /** `Start` finds the run lock held when it unlocks it, and `Pause` finds it free when it locks it. */
  lemma NeverStuckOnOneself(c: Config, run: seq<Action>, s: State, i: nat)
    requires Reaches(c, run, s) && i < |s.callers|
    ensures s.callers[i].StartUnlock? ==> s.gate.writer == Held
    ensures s.callers[i].PauseAnnounce? ==> s.gate.writer == Free
  {
    ReachableInv(c, run, s);
    assert CallerInv(s.gate, i, s.callers[i]);
  }

  /** After the channel is closed, each worker begins at most one more receive. */
  lemma AtMostOneLateReceive(c: Config, run: seq<Action>, s: State, w: nat)
    requires Reaches(c, run, s) && w < |s.workers|
    ensures s.workers[w].late <= 1
  {
    ReachableInv(c, run, s);
    assert WorkerInv(s.gate, s.workers[w]);
  }

  // ---------- no deadlock

  /** A reader can go on, and so let go of the run lock. */
  ghost predicate ReaderCanStep(c: Config, s: State) {
    exists w: nat, what :: Enabled(c, s, WorkerStep(w, what)) && s.workers[w].reading
  }

  /** A caller can step, or a `Pause` waits for readers to leave and one of them can. */
  ghost predicate CallsCanProgress(c: Config, s: State) {
    || (exists i :: Enabled(c, s, CallerStep(i)))
    || ((exists i :: 0 <= i < |s.callers| && s.callers[i] == PauseWait) && ReaderCanStep(c, s))
  }

  lemma ReaderCanMove(c: Config, s: State)
    requires Inv(s) && !Quiet(s)
    ensures ReaderCanStep(c, s)
  {
    var w :| 0 <= w < |s.workers| && s.workers[w].reading;
    assert WorkerInv(s.gate, s.workers[w]);
    if s.workers[w].pc.Receiving? {
      assert Enabled(c, s, WorkerStep(w, Respond(true, [])));
    } else {
      assert Enabled(c, s, WorkerStep(w, Proceed));
    }
  }

  lemma HolderCanMove(c: Config, s: State, i: nat)
    requires Inv(s) && i < |s.callers| && HoldsStateLock(s.callers[i])
    ensures CallsCanProgress(c, s)
  {
    assert CallerInv(s.gate, i, s.callers[i]);
    if s.callers[i].PauseWait? && !Quiet(s) {
      ReaderCanMove(c, s);
      assert s.callers[i] == PauseWait;
    } else {
      assert Enabled(c, s, CallerStep(i));
    }
  }

  lemma LockerCanMove(c: Config, s: State, i: nat)
    requires Inv(s) && i < |s.callers| && (s.callers[i].StartLock? || s.callers[i].PauseLock?)
    ensures CallsCanProgress(c, s)
  {
    if s.gate.stateLock.Some? {
      var j := s.gate.stateLock.value;
      assert CallerInv(s.gate, j, s.callers[j]);
      HolderCanMove(c, s, j);
    } else {
      assert Enabled(c, s, CallerStep(i));
    }
  }

  /**
   No interleaving deadlocks: while any call is in progress some caller can step, or the one at the
   head of the line waits for readers of which one can go on.
   */
  lemma NoDeadlock(c: Config, run: seq<Action>, s: State, i: nat)
    requires Reaches(c, run, s) && i < |s.callers| && s.callers[i] != Idle
    ensures CallsCanProgress(c, s)
  {
    ReachableInv(c, run, s);
    var pc := s.callers[i];
    if HoldsStateLock(pc) {
      HolderCanMove(c, s, i);
    } else if pc.StartLock? || pc.PauseLock? {
      LockerCanMove(c, s, i);
    } else if pc.OnceEnter? && s.gate.once.InProgress? {
      var j := s.gate.once.caller;
      assert CallerInv(s.gate, j, s.callers[j]);
      if HoldsStateLock(s.callers[j]) {
        HolderCanMove(c, s, j);
      } else if s.callers[j].StartLock? {
        LockerCanMove(c, s, j);
      } else {
        assert Enabled(c, s, CallerStep(j));
      }
    } else {
      assert Enabled(c, s, CallerStep(i));
    }
  }
}
