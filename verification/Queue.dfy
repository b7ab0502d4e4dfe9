/**
 The worker protocol of `taskqueue/sqs/queue.go` as a step relation: any number of goroutines call
 `Start`, `Pause` and `Shutdown`, any number of workers run `taskWorker`, and their steps
 interleave freely over one mutex, one read-write lock and one channel.
 */
module Queue {
  import opened Common

  // ---------- configuration and messages

  datatype Config = Config(pausedStart: bool, extensionEnabled: bool, maxExtensions: int)

  /** What `taskWorker` finds in a message: no body, one it cannot decode, or a task. */
  datatype Body = Absent | Undecodable | Task

  datatype Received = Received(receipt: nat, body: Body)

  /** One message in the hands of one worker; `serial` counts the messages that worker has taken up. */
  datatype Delivery = Delivery(worker: nat, serial: nat, message: Received)

  datatype Event =
    | HandlerReturned(delivery: Delivery, ok: bool)
    | Extended(delivery: Delivery)
    | Deleted(delivery: Delivery)

  // ---------- program counters

  /** Where an API caller is. `inShutdown` tells `Start` called by `Shutdown` from `Start` itself. */
  datatype CallerPc =
    | Idle
    | StartLock(inShutdown: bool)
    | StartCheck(inShutdown: bool)
    | StartUnlock(inShutdown: bool)
    | StartRelease(inShutdown: bool)
    | PauseLock
    | PauseCheck
    | PauseAnnounce
    | PauseWait
    | PauseRelease
    | OnceEnter
    | CloseChannel
    | WaitForWorkers

  /** The handler goroutine of a task: still running, or blocked sending its result. */
  datatype Handler = Busy | Finished(ok: bool)

  /** `Blocked` is a reader that asked for the run lock while a writer had it or waited for it. */
  datatype WorkerPc =
    | Check
    | WantRead
    | Blocked
    | Receiving
    | HasResponse(failed: bool, messages: seq<Received>)
    | Sleeping
    | NextMessage(messages: seq<Received>)
    | Waiting(delivery: Delivery, extensions: nat, handler: Handler, rest: seq<Received>)
    | Extending(delivery: Delivery, extensions: nat, handler: Handler, rest: seq<Received>)
    | Deleting(delivery: Delivery, rest: seq<Received>)
    | Exited

  // ---------- state

  /** `Pending` is a writer that waits for readers to leave and keeps new readers out. */
  datatype Writer = Free | Pending | Held

  datatype Once = NotRun | InProgress(caller: nat) | Done

  /** What the callers guard: the flag, the two locks, the channel and the once. */
  datatype Gate = Gate(running: bool, stateLock: Option<nat>, writer: Writer, closed: bool, once: Once)

  /**
   `reading` is whether this worker holds the run lock for reading, `taken` counts the messages it
   has taken up and `late` the receives it began after the channel was closed.
   */
  datatype Worker = Worker(pc: WorkerPc, reading: bool, taken: nat, late: nat)

  /**
   `fatal` records what Go would not survive: unlocking a lock that is not held, or closing a
   closed channel. `orphans` are the deliveries whose handler was given up on while it still ran.
   */
  datatype State = State(
    gate: Gate,
    fatal: bool,
    callers: seq<CallerPc>,
    workers: seq<Worker>,
    orphans: set<Delivery>,
    log: seq<Event>)

  /** `newQueue`: the run lock is taken at once when the queue starts paused. */
  predicate Init(c: Config, s: State) {
    && s.gate == Gate(!c.pausedStart, None, if c.pausedStart then Held else Free, false, NotRun)
    && !s.fatal
    && (forall i :: 0 <= i < |s.callers| ==> s.callers[i] == Idle)
    && (forall w :: 0 <= w < |s.workers| ==> s.workers[w] == Worker(Check, false, 0, 0))
    && s.orphans == {} && s.log == []
  }

  /** No worker holds the run lock for reading. */
  predicate Quiet(s: State) {
    forall w :: 0 <= w < |s.workers| ==> !s.workers[w].reading
  }

  // ---------- callers

  predicate CallerReady(g: Gate, quiet: bool, pc: CallerPc) {
    match pc
    case Idle => false
    case StartLock(_) => g.stateLock == None
    case PauseLock => g.stateLock == None
    case PauseAnnounce => g.writer == Free
    case PauseWait => quiet
    case OnceEnter => !g.once.InProgress?
    case _ => true
  }

  datatype CallerMove = CallerMove(gate: Gate, pc: CallerPc, fatal: bool)

  /** One step of `Start`, `Pause` or `Shutdown` by caller `i`. */
  function MoveCaller(g: Gate, i: nat, pc: CallerPc): CallerMove {
    match pc
    case Idle => CallerMove(g, Idle, false)
    case StartLock(x) => CallerMove(g.(stateLock := Some(i)), StartCheck(x), false)
    case StartCheck(x) =>
      if !g.running then CallerMove(g.(running := true), StartUnlock(x), false)
      else CallerMove(g, StartRelease(x), false)
    case StartUnlock(x) => CallerMove(g.(writer := Free), StartRelease(x), g.writer != Held)
    case StartRelease(x) => CallerMove(g.(stateLock := None), if x then WaitForWorkers else Idle, false)
    case PauseLock => CallerMove(g.(stateLock := Some(i)), PauseCheck, false)
    case PauseCheck =>
      if g.running then CallerMove(g.(running := false), PauseAnnounce, false)
      else CallerMove(g, PauseRelease, false)
    case PauseAnnounce => CallerMove(g.(writer := Pending), PauseWait, false)
    case PauseWait => CallerMove(g.(writer := Held), PauseRelease, false)
    case PauseRelease => CallerMove(g.(stateLock := None), Idle, false)
    case OnceEnter =>
      if g.once == NotRun then CallerMove(g.(once := InProgress(i)), CloseChannel, false)
      else CallerMove(g, Idle, false)
    case CloseChannel => CallerMove(g.(closed := true), StartLock(true), g.closed)
    case WaitForWorkers => CallerMove(g.(once := Done), Idle, false)
  }

  // ---------- workers

  /** What may happen to a worker, in `taskWorker` and the `processTask` it calls. */
  datatype WorkerAction =
    | Proceed
    | Respond(failed: bool, messages: seq<Received>)
    | HandlerReturns(ok: bool)
    | TakeResult
    | SeeShutdown
    | TimerFires
    | ExtendReturns(ok: bool)

  /** The `select` in `processTask` is reached only while extensions remain. */
  predicate Selecting(c: Config, pc: WorkerPc) {
    pc.Waiting? && pc.extensions < c.maxExtensions
  }

  predicate ProceedReady(c: Config, g: Gate, pc: WorkerPc) {
    match pc
    case Blocked => false
    case Receiving => false
    case Waiting(_, extensions, _, _) => extensions >= c.maxExtensions
    case Extending(_, _, _, _) => false
    case Exited => false
    case _ => true
  }

  predicate WorkerReady(c: Config, g: Gate, pc: WorkerPc, a: WorkerAction) {
    match a
    case Proceed => ProceedReady(c, g, pc)
    case Respond(_, _) => pc == Receiving
    case HandlerReturns(_) => (pc.Waiting? || pc.Extending?) && pc.handler == Busy
    case TakeResult => Selecting(c, pc) && pc.handler.Finished?
    case SeeShutdown => Selecting(c, pc) && g.closed
    case TimerFires => Selecting(c, pc)
    case ExtendReturns(_) => pc.Extending?
  }

  datatype WorkerMove = WorkerMove(worker: Worker, events: seq<Event>, orphans: set<Delivery>, fatal: bool)

  function Move(k: Worker, pc: WorkerPc): WorkerMove {
    WorkerMove(k.(pc := pc), [], {}, false)
  }

  /** `processTask` returns an error: the message is left to become visible again. */
  function GiveUp(k: Worker): WorkerMove
    requires k.pc.Waiting? || k.pc.Extending?
  {
    Move(k, NextMessage(k.pc.rest)).(orphans := if k.pc.handler == Busy then {k.pc.delivery} else {})
  }

  /** Takes up the next message of a response, or goes back to polling. */
  function TakeMessage(w: nat, k: Worker, messages: seq<Received>): WorkerMove {
    if messages == [] then Move(k, Check)
    else
      var d := Delivery(w, k.taken, messages[0]);
      var pc := if messages[0].body == Task then Waiting(d, 0, Busy, messages[1..]) else Deleting(d, messages[1..]);
      Move(k.(taken := k.taken + 1), pc)
  }

  function StartReading(k: Worker, closed: bool): Worker {
    k.(reading := true, late := k.late + if closed then 1 else 0)
  }

  /** Unlocking the run lock hands it to every reader that waits. */
  function Wake(k: Worker, closed: bool): Worker {
    if k.pc == Blocked then StartReading(k, closed).(pc := Receiving) else k
  }

  function WakeAll(ks: seq<Worker>, closed: bool): (r: seq<Worker>)
    ensures |r| == |ks| && forall w :: 0 <= w < |ks| ==> r[w] == Wake(ks[w], closed)
  {
    seq(|ks|, w requires 0 <= w < |ks| => Wake(ks[w], closed))
  }

  function MoveOn(g: Gate, w: nat, k: Worker): WorkerMove {
    match k.pc
    case Check => Move(k, if g.closed then Exited else WantRead)
    case WantRead => if g.writer == Free then Move(StartReading(k, g.closed), Receiving) else Move(k, Blocked)
    case HasResponse(failed, messages) =>
      Move(k.(reading := false), if failed then Sleeping else NextMessage(messages)).(fatal := !k.reading)
    case Sleeping => Move(k, Check)
    case NextMessage(messages) => TakeMessage(w, k, messages)
    case Waiting(_, _, _, _) => GiveUp(k)
    case Deleting(d, rest) => Move(k, NextMessage(rest)).(events := [Deleted(d)])
    case _ => Move(k, k.pc)
  }

  function MoveWorker(c: Config, g: Gate, w: nat, k: Worker, a: WorkerAction): WorkerMove
    requires WorkerReady(c, g, k.pc, a)
  {
    var pc := k.pc;
    match a
    case Proceed => MoveOn(g, w, k)
    case Respond(failed, messages) => Move(k, HasResponse(failed, messages))
    case HandlerReturns(ok) => Move(k, pc.(handler := Finished(ok))).(events := [HandlerReturned(pc.delivery, ok)])
    case TakeResult => Move(k, if pc.handler.ok then Deleting(pc.delivery, pc.rest) else NextMessage(pc.rest))
    case SeeShutdown => GiveUp(k)
    case TimerFires =>
      if c.extensionEnabled then
        Move(k, Extending(pc.delivery, pc.extensions, pc.handler, pc.rest)).(events := [Extended(pc.delivery)])
      else GiveUp(k)
    case ExtendReturns(ok) =>
      if ok then Move(k, Waiting(pc.delivery, pc.extensions + 1, pc.handler, pc.rest)) else GiveUp(k)
  }

  // ---------- the step relation

  datatype Action =
    | CallStart(caller: nat)
    | CallPause(caller: nat)
    | CallShutdown(caller: nat)
    | CallerStep(caller: nat)
    | WorkerStep(worker: nat, what: WorkerAction)
    | OrphanReturns(delivery: Delivery, ok: bool)

  predicate Enabled(c: Config, s: State, a: Action) {
    match a
    case CallerStep(i) => i < |s.callers| && CallerReady(s.gate, Quiet(s), s.callers[i])
    case WorkerStep(w, what) => w < |s.workers| && WorkerReady(c, s.gate, s.workers[w].pc, what)
    case OrphanReturns(d, _) => d in s.orphans
    case _ => a.caller < |s.callers| && s.callers[a.caller] == Idle
  }

  function StepCaller(s: State, i: nat): State
    requires i < |s.callers|
  {
    var move := MoveCaller(s.gate, i, s.callers[i]);
    var workers := if s.callers[i].StartUnlock? then WakeAll(s.workers, s.gate.closed) else s.workers;
    s.(gate := move.gate, callers := s.callers[i := move.pc], fatal := s.fatal || move.fatal, workers := workers)
  }

  function StepWorker(c: Config, s: State, w: nat, a: WorkerAction): State
    requires w < |s.workers| && WorkerReady(c, s.gate, s.workers[w].pc, a)
  {
    var move := MoveWorker(c, s.gate, w, s.workers[w], a);
    s.(workers := s.workers[w := move.worker], log := s.log + move.events, orphans := s.orphans + move.orphans,
       fatal := s.fatal || move.fatal)
  }

  /** A handler that was given up on may still return, once, at any later time. */
  function Next(c: Config, s: State, a: Action): State
    requires Enabled(c, s, a)
  {
    match a
    case CallStart(i) => s.(callers := s.callers[i := StartLock(false)])
    case CallPause(i) => s.(callers := s.callers[i := PauseLock])
    case CallShutdown(i) => s.(callers := s.callers[i := OnceEnter])
    case CallerStep(i) => StepCaller(s, i)
    case WorkerStep(w, what) => StepWorker(c, s, w, what)
    case OrphanReturns(d, ok) => s.(orphans := s.orphans - {d}, log := s.log + [HandlerReturned(d, ok)])
  }

  predicate Follows(c: Config, s: State, a: Action, t: State) {
    Enabled(c, s, a) && t == Next(c, s, a)
  }

  /** `s` is reached from an initial state by the actions `run`, in order. */
  ghost predicate Reaches(c: Config, run: seq<Action>, s: State)
    decreases |run|
  {
    if run == [] then Init(c, s)
    else
      var n := |run| - 1;
      exists before :: Reaches(c, run[..n], before) && Enabled(c, before, run[n]) && s == Next(c, before, run[n])
  }
}
