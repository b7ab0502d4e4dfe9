/** `Shutdown` from its call on: its own `Start` gets the state lock, and then every worker stops. */
module QueueShutdown {
  import opened Common
  import opened Queue
  import Safety = QueueSafety
  import Progress = QueueProgress

  // ---------- fairness to callers

  predicate CanStep(c: Config, s: State, i: nat) {
    Enabled(c, s, CallerStep(i))
  }

  ghost predicate CanStepAfter(c: Config, states: nat -> State, i: nat, p: nat) {
    exists q: nat :: p <= q && CanStep(c, states(q), i)
  }

  ghost predicate StepsAfter(acts: nat -> Action, i: nat, n: nat) {
    exists m: nat :: n <= m && acts(m) == CallerStep(i)
  }

  /**
   The scheduler does not pass over caller `i`, and no lock starves it: if from some point on it is
   able to step time and again, it steps.
   */
  ghost predicate Fair(c: Config, states: nat -> State, acts: nat -> Action, i: nat) {
    forall n: nat :: (forall p: nat :: n <= p ==> CanStepAfter(c, states, i, p)) ==> StepsAfter(acts, i, n)
  }

  ghost predicate FairToCallers(c: Config, states: nat -> State, acts: nat -> Action) {
    forall i :: 0 <= i < |states(0).callers| ==> Fair(c, states, acts, i)
  }

  // ---------- a caller stays where it is until it steps

  lemma CallerUnmoved(c: Config, s: State, a: Action, t: State, i: nat)
    requires Follows(c, s, a, t) && i < |s.callers| && s.callers[i] != Idle && a != CallerStep(i)
    ensures i < |t.callers| && t.callers[i] == s.callers[i]
  {
  }

  lemma SameCallers(c: Config, s: State, a: Action, t: State)
    requires Follows(c, s, a, t)
    ensures |t.callers| == |s.callers|
  {
  }

  lemma {:induction false} CallerCount(c: Config, states: nat -> State, acts: nat -> Action, n: nat)
    requires Progress.IsRun(c, states, acts)
    ensures |states(n).callers| == |states(0).callers|
  {
    if n > 0 {
      CallerCount(c, states, acts, n - 1);
      assert Progress.RunsAt(c, states, acts, n - 1);
      SameCallers(c, states(n - 1), acts(n - 1), states(n));
    }
  }

  lemma {:induction false} CallerStays(c: Config, states: nat -> State, acts: nat -> Action, i: nat, n: nat, m: nat)
    requires Progress.IsRun(c, states, acts) && n <= m && i < |states(n).callers| && states(n).callers[i] != Idle
    requires forall k: nat :: n <= k < m ==> acts(k) != CallerStep(i)
    ensures i < |states(m).callers| && states(m).callers[i] == states(n).callers[i]
    decreases m - n
  {
    if n < m {
      CallerStays(c, states, acts, i, n, m - 1);
      assert Progress.RunsAt(c, states, acts, m - 1);
      CallerUnmoved(c, states(m - 1), acts(m - 1), states(m), i);
    }
  }

  lemma FirstStep(acts: nat -> Action, i: nat, n: nat) returns (m: nat)
    requires StepsAfter(acts, i, n)
    ensures n <= m && acts(m) == CallerStep(i) && forall k: nat :: n <= k < m ==> acts(k) != CallerStep(i)
  {
    var bound: nat :| n <= bound && acts(bound) == CallerStep(i);
    m := n;
    while acts(m) != CallerStep(i)
      invariant n <= m <= bound
      invariant forall k: nat :: n <= k < m ==> acts(k) != CallerStep(i)
      decreases bound - m
    {
      m := m + 1;
    }
  }

  /** The step is there, at a program counter that is often ready. */
  ghost predicate OftenReady(states: nat -> State, pc: CallerPc, n: nat) {
    forall p: nat :: n <= p ==> ReadyAfter(states, pc, p)
  }

  ghost predicate ReadyAfter(states: nat -> State, pc: CallerPc, p: nat) {
    exists q: nat :: p <= q && CallerReady(states(q).gate, Quiet(states(q)), pc)
  }

  lemma IdleCanStep(c: Config, states: nat -> State, acts: nat -> Action, i: nat, n: nat, p: nat, pc: CallerPc)
    requires Progress.IsRun(c, states, acts) && n <= p && i < |states(n).callers|
    requires states(n).callers[i] == pc != Idle && OftenReady(states, pc, n)
    requires forall k: nat :: n <= k ==> acts(k) != CallerStep(i)
    ensures CanStepAfter(c, states, i, p)
  {
    assert ReadyAfter(states, pc, p);
    var q: nat :| p <= q && CallerReady(states(q).gate, Quiet(states(q)), pc);
    CallerStays(c, states, acts, i, n, q);
    assert CanStep(c, states(q), i);
  }

  /** Where it is ready time and again, a caller takes its next step. */
  lemma NextStep(c: Config, states: nat -> State, acts: nat -> Action, i: nat, n: nat, pc: CallerPc)
    returns (m: nat)
    requires Progress.IsRun(c, states, acts) && Fair(c, states, acts, i) && i < |states(n).callers|
    requires states(n).callers[i] == pc != Idle && OftenReady(states, pc, n)
    ensures n <= m && acts(m) == CallerStep(i) && i < |states(m).callers| && states(m).callers[i] == pc
    ensures Follows(c, states(m), CallerStep(i), states(m + 1))
  {
    if forall k: nat :: n <= k ==> acts(k) != CallerStep(i) {
      forall p: nat | n <= p ensures CanStepAfter(c, states, i, p) {
        IdleCanStep(c, states, acts, i, n, p, pc);
      }
    }
    assert StepsAfter(acts, i, n);
    m := FirstStep(acts, i, n);
    CallerStays(c, states, acts, i, n, m);
    assert Progress.RunsAt(c, states, acts, m);
  }

  predicate AlwaysReady(pc: CallerPc) {
    pc.StartCheck? || pc.StartUnlock? || pc.StartRelease? || pc.CloseChannel?
  }

  lemma AlwaysIsOften(states: nat -> State, pc: CallerPc, n: nat)
    requires AlwaysReady(pc)
    ensures OftenReady(states, pc, n)
  {
    forall p: nat | n <= p ensures ReadyAfter(states, pc, p) {
      assert CallerReady(states(p).gate, Quiet(states(p)), pc);
    }
  }

  // ---------- the state lock is released time and again

  /** What is left to do before `Start` releases the state lock. */
  function StepsToRelease(pc: CallerPc): nat {
    match pc
    case StartCheck(_) => 3
    case StartUnlock(_) => 2
    case StartRelease(_) => 1
    case _ => 0
  }

  /** From `n` on nobody pauses. */
  ghost predicate Unpaused(states: nat -> State, acts: nat -> Action, n: nat) {
    Progress.NoPauseFrom(acts, n) && !Progress.PauseInLine(states(n))
  }

  lemma UnpausedLater(c: Config, states: nat -> State, acts: nat -> Action, n: nat, m: nat)
    requires Progress.IsRun(c, states, acts) && Unpaused(states, acts, n) && n <= m
    ensures Unpaused(states, acts, m)
  {
    Progress.NoPauseArrives(c, states, acts, n, m);
  }

  /** With no `Pause` about, whoever holds the state lock is in `Start`. */
  lemma HolderStarts(s: State, h: nat)
    requires Safety.Inv(s) && s.gate.stateLock == Some(h) && !Progress.PauseInLine(s)
    ensures h < |s.callers| && StepsToRelease(s.callers[h]) > 0
  {
    assert Safety.CallerInv(s.gate, h, s.callers[h]);
  }

  lemma HolderAdvances(c: Config, s: State, t: State, h: nat)
    requires Safety.Inv(s) && h < |s.callers| && StepsToRelease(s.callers[h]) > 0
    requires Follows(c, s, CallerStep(h), t)
    ensures s.callers[h].StartRelease? ==> t.gate.stateLock == None
    ensures !s.callers[h].StartRelease? ==>
              && h < |t.callers| && t.gate.stateLock == Some(h)
              && 0 < StepsToRelease(t.callers[h]) < StepsToRelease(s.callers[h])
  {
    assert Safety.CallerInv(s.gate, h, s.callers[h]);
  }

  lemma {:induction false} Releases(c: Config, states: nat -> State, acts: nat -> Action, h: nat, n: nat)
    returns (m: nat)
    requires Progress.IsRun(c, states, acts) && Fair(c, states, acts, h)
    requires h < |states(n).callers| && StepsToRelease(states(n).callers[h]) > 0
    ensures n <= m && states(m).gate.stateLock == None
    decreases StepsToRelease(states(n).callers[h])
  {
    var pc := states(n).callers[h];
    AlwaysIsOften(states, pc, n);
    m := NextStep(c, states, acts, h, n, pc);
    Progress.RunInv(c, states, acts, m);
    HolderAdvances(c, states(m), states(m + 1), h);
    m := m + 1;
    if !pc.StartRelease? { m := Releases(c, states, acts, h, m); }
  }

  /** In a run without pauses the state lock is free at some later point. */
  lemma LockIsFreed(c: Config, states: nat -> State, acts: nat -> Action, n: nat) returns (m: nat)
    requires Progress.IsRun(c, states, acts) && FairToCallers(c, states, acts) && Unpaused(states, acts, n)
    ensures n <= m && states(m).gate.stateLock == None
  {
    if states(n).gate.stateLock == None { return n; }
    var h := states(n).gate.stateLock.value;
    Progress.RunInv(c, states, acts, n);
    HolderStarts(states(n), h);
    CallerCount(c, states, acts, n);
    m := Releases(c, states, acts, h, n);
  }

  lemma LockIsOftenReady(c: Config, states: nat -> State, acts: nat -> Action, n: nat, pc: CallerPc)
    requires Progress.IsRun(c, states, acts) && FairToCallers(c, states, acts) && Unpaused(states, acts, n)
    requires pc.StartLock?
    ensures OftenReady(states, pc, n)
  {
    forall p: nat | n <= p ensures ReadyAfter(states, pc, p) {
      UnpausedLater(c, states, acts, n, p);
      var q := LockIsFreed(c, states, acts, p);
      assert CallerReady(states(q).gate, Quiet(states(q)), pc);
    }
  }

  // ---------- Shutdown's own Start

  /** From entering the once to the end of the `Start` that `Shutdown` calls. */
  predicate InsideStart(pc: CallerPc) {
    pc.CloseChannel? || ((pc.StartLock? || pc.StartCheck? || pc.StartUnlock? || pc.StartRelease?) && pc.inShutdown)
  }

  function StepsToStart(pc: CallerPc): nat {
    match pc
    case CloseChannel => 4
    case StartLock(_) => 3
    case StartCheck(_) => 2
    case StartUnlock(_) => 1
    case _ => 0
  }

  lemma StartAdvances(c: Config, s: State, t: State, i: nat)
    requires i < |s.callers| && InsideStart(s.callers[i]) && !s.callers[i].StartRelease?
    requires Follows(c, s, CallerStep(i), t)
    ensures i < |t.callers| && InsideStart(t.callers[i])
    ensures StepsToStart(t.callers[i]) < StepsToStart(s.callers[i])
  {
  }

  /** `Start`, called by `Shutdown`, gets done. */
  lemma {:induction false} StartGetsDone(c: Config, states: nat -> State, acts: nat -> Action, i: nat, n: nat)
    returns (k: nat)
    requires Progress.IsRun(c, states, acts) && FairToCallers(c, states, acts) && Unpaused(states, acts, n)
    requires i < |states(n).callers| && InsideStart(states(n).callers[i])
    ensures n <= k && Progress.StartDone(states(k), i)
    decreases StepsToStart(states(n).callers[i])
  {
    var pc := states(n).callers[i];
    if pc.StartRelease? { return n; }
    CallerCount(c, states, acts, n);
    if pc.StartLock? {
      LockIsOftenReady(c, states, acts, n, pc);
    } else {
      AlwaysIsOften(states, pc, n);
    }
    var m := NextStep(c, states, acts, i, n, pc);
    StartAdvances(c, states(m), states(m + 1), i);
    UnpausedLater(c, states, acts, n, m + 1);
    k := StartGetsDone(c, states, acts, i, m + 1);
  }

  // ---------- entering the once

  lemma OnceOpens(c: Config, s: State, a: Action, t: State) returns (j: nat)
    requires Safety.Inv(s) && Follows(c, s, a, t) && s.gate.once == NotRun && t.gate.once != NotRun
    ensures j < |t.callers| && InsideStart(t.callers[j])
  {
    j := a.caller;
    assert Safety.CallerInv(s.gate, j, s.callers[j]);
  }

  lemma EntersOnce(c: Config, s: State, t: State, i: nat)
    requires Follows(c, s, CallerStep(i), t) && s.callers[i] == OnceEnter && s.gate.once == NotRun
    ensures t.gate.once != NotRun
  {
  }

  /** Somebody enters the once, not necessarily the caller that came first. */
  lemma OnceIsEntered(c: Config, states: nat -> State, acts: nat -> Action, i: nat, n: nat)
    requires Progress.IsRun(c, states, acts) && FairToCallers(c, states, acts)
    requires i < |states(n).callers| && states(n).callers[i] == OnceEnter
    ensures exists m: nat :: n <= m && states(m).gate.once != NotRun
  {
    if forall m: nat :: n <= m ==> states(m).gate.once == NotRun {
      forall p: nat | n <= p ensures ReadyAfter(states, OnceEnter, p) {
        assert CallerReady(states(p).gate, Quiet(states(p)), OnceEnter);
      }
      CallerCount(c, states, acts, n);
      var m := NextStep(c, states, acts, i, n, OnceEnter);
      EntersOnce(c, states(m), states(m + 1), i);
    }
  }

  lemma FirstEntry(c: Config, states: nat -> State, acts: nat -> Action, n: nat) returns (m: nat, j: nat)
    requires Progress.IsRun(c, states, acts) && states(n).gate.once == NotRun
    requires exists m: nat :: n <= m && states(m).gate.once != NotRun
    ensures n <= m && j < |states(m).callers| && InsideStart(states(m).callers[j])
  {
    var bound: nat :| n <= bound && states(bound).gate.once != NotRun;
    m := n;
    while states(m + 1).gate.once == NotRun
      invariant n <= m < bound && states(m).gate.once == NotRun
      decreases bound - m
    {
      m := m + 1;
    }
    Progress.RunInv(c, states, acts, m);
    assert Progress.RunsAt(c, states, acts, m);
    j := OnceOpens(c, states(m), acts(m), states(m + 1));
    m := m + 1;
  }

  // ---------- the result

  /** What is asked of a run: the scheduler is fair to every caller and worker, and no lock starves a caller. */
  ghost predicate FairRun(c: Config, states: nat -> State, acts: nat -> Action) {
    && Progress.IsRun(c, states, acts) && FairToCallers(c, states, acts)
    && forall w :: 0 <= w < |states(0).workers| ==> Progress.FairTo(c, states, acts, w)
  }

  /**
   In every fair run: if the first `Shutdown` is called while no `Pause` is in progress, and none is
   called afterwards, all workers exit.
   */
  lemma ShutdownStops(c: Config, states: nat -> State, acts: nat -> Action, i: nat, n: nat) returns (m: nat)
    requires FairRun(c, states, acts) && Unpaused(states, acts, n)
    requires i < |states(n).callers| && states(n).callers[i] == OnceEnter && states(n).gate.once == NotRun
    ensures n <= m && Progress.Stopped(states(m), |states(m).workers|)
  {
    OnceIsEntered(c, states, acts, i, n);
    var p, j := FirstEntry(c, states, acts, n);
    UnpausedLater(c, states, acts, n, p);
    var k := StartGetsDone(c, states, acts, j, p);
    m := Progress.ShutdownDrains(c, states, acts, j, n, k);
  }
}
