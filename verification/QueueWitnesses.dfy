/** Runs that exist: what the queue can do, beside what it always does. */
module QueueWitnesses {
  import opened Common
  import opened Queue
  import QueueDelivery

  lemma Hop(c: Config, run: seq<Action>, s: State, a: Action, t: State) returns (longer: seq<Action>)
    requires Reaches(c, run, s) && Follows(c, s, a, t)
    ensures Reaches(c, longer, t)
  {
    longer := run + [a];
    assert longer[..|longer| - 1] == run;
  }

  /** One caller and one worker. */
  function Pair(g: Gate, pc: CallerPc, k: Worker): State {
    State(g, false, [pc], [k], {}, [])
  }

  /** A worker that has taken nothing up. */
  function At(pc: WorkerPc): Worker {
    Worker(pc, false, 0, 0)
  }

  lemma CallerHop(c: Config, run: seq<Action>, g: Gate, pc: CallerPc, h: Gate, next: CallerPc, k: Worker)
    returns (longer: seq<Action>)
    requires Reaches(c, run, Pair(g, pc, k)) && CallerReady(g, true, pc) && !k.reading && k.pc != Blocked
    requires MoveCaller(g, 0, pc) == CallerMove(h, next, false)
    ensures Reaches(c, longer, Pair(h, next, k))
  {
    var s := Pair(g, pc, k);
    assert Quiet(s);
    assert s.callers[0 := next] == [next];
    assert WakeAll(s.workers, g.closed) == s.workers;
    longer := Hop(c, run, s, CallerStep(0), Pair(h, next, k));
  }

  lemma CallHop(c: Config, run: seq<Action>, g: Gate, a: Action, next: CallerPc, k: Worker)
    returns (longer: seq<Action>)
    requires Reaches(c, run, Pair(g, Idle, k))
    requires (a == CallStart(0) && next == StartLock(false)) || (a == CallPause(0) && next == PauseLock) ||
             (a == CallShutdown(0) && next == OnceEnter)
    ensures Reaches(c, longer, Pair(g, next, k))
  {
    assert [Idle][0 := next] == [next];
    longer := Hop(c, run, Pair(g, Idle, k), a, Pair(g, next, k));
  }

  /** A queue that starts paused can be started. */
  lemma Started(c: Config) returns (run: seq<Action>, g: Gate)
    ensures g == Gate(true, None, Free, false, NotRun) && Reaches(c, run, Pair(g, Idle, At(Check)))
  {
    g := Gate(!c.pausedStart, None, if c.pausedStart then Held else Free, false, NotRun);
    var k := At(Check);
    assert Reaches(c, [], Pair(g, Idle, k));
    run := [];
    if c.pausedStart {
      var g1 := g.(stateLock := Some(0));
      var g2 := g1.(running := true);
      var g3 := g2.(writer := Free);
      run := CallHop(c, run, g, CallStart(0), StartLock(false), k);
      run := CallerHop(c, run, g, StartLock(false), g1, StartCheck(false), k);
      run := CallerHop(c, run, g1, StartCheck(false), g2, StartUnlock(false), k);
      run := CallerHop(c, run, g2, StartUnlock(false), g3, StartRelease(false), k);
      g := g3.(stateLock := None);
      run := CallerHop(c, run, g3, StartRelease(false), g, Idle, k);
    }
  }

  // ---------- a Pause after Shutdown

  /** Some step is possible that is not a new call. */
  ghost predicate SomeStep(c: Config, s: State) {
    || (exists i :: Enabled(c, s, CallerStep(i)))
    || (exists w, what :: Enabled(c, s, WorkerStep(w, what)))
  }

  lemma StartReturns(c: Config, run: seq<Action>, g: Gate) returns (longer: seq<Action>)
    requires g.running && g.stateLock == None && Reaches(c, run, Pair(g, StartLock(true), At(WantRead)))
    ensures Reaches(c, longer, Pair(g, WaitForWorkers, At(WantRead)))
  {
    var held, k := g.(stateLock := Some(0)), At(WantRead);
    longer := CallerHop(c, run, g, StartLock(true), held, StartCheck(true), k);
    longer := CallerHop(c, longer, held, StartCheck(true), held, StartRelease(true), k);
    longer := CallerHop(c, longer, held, StartRelease(true), g, WaitForWorkers, k);
  }

  lemma WorkerWants(c: Config) returns (run: seq<Action>, g: Gate)
    ensures g == Gate(true, None, Free, false, NotRun) && Reaches(c, run, Pair(g, Idle, At(WantRead)))
  {
    run, g := Started(c);
    assert [At(Check)][0 := At(WantRead)] == [At(WantRead)];
    run := Hop(c, run, Pair(g, Idle, At(Check)), WorkerStep(0, Proceed), Pair(g, Idle, At(WantRead)));
  }

  lemma ShutdownGivesUp(c: Config) returns (run: seq<Action>)
    ensures Reaches(c, run, Pair(Gate(true, None, Free, true, Done), Idle, At(WantRead)))
  {
    var g;
    run, g := WorkerWants(c);
    var g1 := g.(once := InProgress(0));
    var g2 := g1.(closed := true);
    var k := At(WantRead);
    run := CallHop(c, run, g, CallShutdown(0), OnceEnter, k);
    run := CallerHop(c, run, g, OnceEnter, g1, CloseChannel, k);
    run := CallerHop(c, run, g1, CloseChannel, g2, StartLock(true), k);
    run := StartReturns(c, run, g2);
    run := CallerHop(c, run, g2, WaitForWorkers, g2.(once := Done), Idle, k);
  }

  lemma PauseFollows(c: Config, g4: Gate, run: seq<Action>) returns (longer: seq<Action>)
    requires g4.running && g4.stateLock == None && g4.writer == Free && Reaches(c, run, Pair(g4, Idle, At(WantRead)))
    ensures Reaches(c, longer, Pair(g4.(running := false, writer := Held), Idle, At(WantRead)))
  {
    var g5 := g4.(stateLock := Some(0));
    var g6 := g5.(running := false);
    var g7 := g6.(writer := Pending);
    var g8 := g6.(writer := Held);
    var k := At(WantRead);
    longer := CallHop(c, run, g4, CallPause(0), PauseLock, k);
    longer := CallerHop(c, longer, g4, PauseLock, g5, PauseCheck, k);
    longer := CallerHop(c, longer, g5, PauseCheck, g6, PauseAnnounce, k);
    longer := CallerHop(c, longer, g6, PauseAnnounce, g7, PauseWait, k);
    longer := CallerHop(c, longer, g7, PauseWait, g8, PauseRelease, k);
    longer := CallerHop(c, longer, g8, PauseRelease, g8.(stateLock := None), Idle, k);
  }

  lemma NobodyMoves(c: Config, g: Gate)
    ensures !SomeStep(c, Pair(g, Idle, At(Blocked)))
  {
  }

  /** In any configuration: `Shutdown` gives up waiting, a `Pause` follows, and a worker never gets the lock. */
  lemma LatePauseStrands(c: Config) returns (run: seq<Action>, s: State)
    ensures Reaches(c, run, s) && s.gate.closed && s.gate.once == Done
    ensures s.callers == [Idle] && |s.workers| == 1 && s.workers[0].pc == Blocked
    ensures !SomeStep(c, s)
  {
    run := ShutdownGivesUp(c);
    run := PauseFollows(c, Gate(true, None, Free, true, Done), run);
    var last := Gate(false, None, Held, true, Done);
    s := Pair(last, Idle, At(Blocked));
    assert [At(WantRead)][0 := At(Blocked)] == [At(Blocked)];
    run := Hop(c, run, Pair(last, Idle, At(WantRead)), WorkerStep(0, Proceed), s);
    NobodyMoves(c, last);
  }

  // ---------- a task that is completed

  /** One step of the only worker, which may add an event to the log. */
  lemma WorkerHop(c: Config, run: seq<Action>, g: Gate, k: Worker, a: WorkerAction, next: Worker,
                  log: seq<Event>, events: seq<Event>) returns (longer: seq<Action>)
    requires Reaches(c, run, Pair(g, Idle, k).(log := log)) && WorkerReady(c, g, k.pc, a)
    requires MoveWorker(c, g, 0, k, a) == WorkerMove(next, events, {}, false)
    ensures Reaches(c, longer, Pair(g, Idle, next).(log := log + events))
  {
    var s := Pair(g, Idle, k).(log := log);
    assert s.workers[0 := next] == [next];
    longer := Hop(c, run, s, WorkerStep(0, a), Pair(g, Idle, next).(log := log + events));
  }

  lemma TaskTaken(c: Config, m: Received) returns (run: seq<Action>, g: Gate, k: Worker, d: Delivery)
    requires m.body == Task
    ensures !g.closed && d.message == m && k == Worker(Waiting(d, 0, Busy, []), false, 1, 0)
    ensures Reaches(c, run, Pair(g, Idle, k))
  {
    run, g := Started(c);
    d := Delivery(0, 0, m);
    k := At(WantRead);
    run := WorkerHop(c, run, g, At(Check), Proceed, k, [], []);
    run := WorkerHop(c, run, g, k, Proceed, Worker(Receiving, true, 0, 0), [], []);
    k := Worker(HasResponse(false, [m]), true, 0, 0);
    run := WorkerHop(c, run, g, Worker(Receiving, true, 0, 0), Respond(false, [m]), k, [], []);
    run := WorkerHop(c, run, g, k, Proceed, At(NextMessage([m])), [], []);
    k := Worker(Waiting(d, 0, Busy, []), false, 1, 0);
    assert [m][1..] == [];
    run := WorkerHop(c, run, g, At(NextMessage([m])), Proceed, k, [], []);
  }

  /** Where extensions are configured, a task can be handled and deleted. */
  lemma TaskCompletes(c: Config, m: Received) returns (run: seq<Action>, s: State, d: Delivery)
    requires c.maxExtensions > 0 && m.body == Task
    ensures Reaches(c, run, s) && d.message == m && Deleted(d) in s.log
  {
    var g, k;
    run, g, k, d := TaskTaken(c, m);
    var returned := HandlerReturned(d, true);
    var k1 := k.(pc := Waiting(d, 0, Finished(true), []));
    run := WorkerHop(c, run, g, k, HandlerReturns(true), k1, [], [returned]);
    var k2 := k.(pc := Deleting(d, []));
    run := WorkerHop(c, run, g, k1, TakeResult, k2, [] + [returned], []);
    var k3 := k.(pc := NextMessage([]));
    run := WorkerHop(c, run, g, k2, Proceed, k3, [] + [returned] + [], [Deleted(d)]);
    s := Pair(g, Idle, k3).(log := [] + [returned] + [] + [Deleted(d)]);
  }

  ghost predicate Completes(c: Config, run: seq<Action>, s: State, d: Delivery) {
    Reaches(c, run, s) && d.message.body == Task && Deleted(d) in s.log
  }

  /** A task is deleted in some run if and only if visibility extensions are configured. */
  lemma CompletionPossibleExactly(c: Config)
    ensures (exists run, s, d :: Completes(c, run, s, d)) <==> c.maxExtensions > 0
  {
    if c.maxExtensions > 0 {
      var run, s, d := TaskCompletes(c, Received(0, Task));
      assert Completes(c, run, s, d);
    } else {
      forall run, s, d ensures !Completes(c, run, s, d) {
        if Reaches(c, run, s) && d.message.body == Task {
          QueueDelivery.NoExtensionsNoCompletion(c, run, s, d);
        }
      }
    }
  }
}
