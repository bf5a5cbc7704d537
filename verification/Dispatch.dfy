/**
 The preemptive event dispatcher of `src/event/dispatch.cpp` as an interleaving of atomic
 steps: the event dispatch thread (EDT), one thread per spawned handler, the producers of
 events, and up to two callers of quit(): one handler and one thread that is no handler.

 Handler contexts are numbered in the order edt_spawn_handler allocates them; thread `t`
 is the one created for context `t`. A thread works on the context it has *read* from
 current_handler, which is a separate matter (`Thread.ctx`).
 */
module Dispatch {
  import opened Wrappers
  import opened HandlerSync

  /** uint8_t */
  type Priority = n: nat | n < 256

  datatype Topic = EVENT_STACK_CLEARED | EVENT_HANDLED | EVENT_INTERRUPTED | TEXT_INPUT

  /** The topic attribute table. */
  type Table = Topic -> Priority

  function ShippedPriority(t: Topic): Priority {
    if t.TEXT_INPUT? then 10 else 0
  }

  /** `id` stands for the address of the event. */
  datatype Event = Event(id: nat, topic: Topic)

  datatype Context = Context(event: Event, running: bool, reapInHandler: bool, sync: Sync, freed: bool)

  datatype ThreadPc =
    | Absent     // not created (yet)
    | Starting   // created, has not read current_handler
    | Working    // in the handler function; sync.at says where in an interrupt point
    | Quitting   // called quit() and passed the test against current_handler
    | Joining    // set STOP_REQUESTED, joining the EDT
    | Returned   // the handler function has returned
    | Finishing  // reap_in_handler was false, about to clear `running`
    | Reaping    // reap_in_handler was true, about to free the context
    | Gone

  datatype Thread = Thread(pc: ThreadPc, ctx: Option<nat>)

  /** Which part of dispose_handler_context comes next. */
  datatype Stage = TestRunning | TestSuspended | ResumeIt | Decide | Spin | Mark | Release

  /** Where dispose_handler_context was called from. */
  datatype Caller = FromRun | FromCurrent | FromStack

  datatype EdtPc =
    | Idle                     // head of the loop in edt_start
    | Polling                  // edt_poll_event_queue
    | Dispatching(e: Event)    // edt_dispatch_event
    | Suspending(e: Event)     // the wait loop in edt_interrupt_handler
    | Routing(e: Event)        // look up the topic's handler
    | Creating                 // context is current; thread::create comes next
    | Checking                 // has the current handler finished?
    | Clearing                 // its context is freed; current_handler = NULL comes next
    | Restacking               // resume the top of the stack if there is no current handler
    | Installing(c: nat)       // c is resumed; current_handler = c comes next
    | Ticking                  // check_timers
    | CleaningCurrent | CleaningStack | CleaningQueue   // edt_cleanup
    | Disposing(c: nat, wait: bool, stage: Stage, caller: Caller)
    | Ended

  /** How far a call of quit() from a thread that is no handler has got. */
  datatype Outsider =
    | Away
    | Calling   // has looked at current_handler
    | Waiting   // set STOP_REQUESTED, joining the EDT
    | Back      // has joined it and deleted the dispatcher's context

  datatype State = State(
    queue: multiset<Event>,
    current: Option<nat>,
    interrupted: seq<nat>,      // bottom of the stack first
    ctxs: seq<Context>,
    threads: seq<Thread>,
    stopRequested: bool,
    edt: EdtPc,
    quitter: Option<nat>,       // the handler that has called quit()
    outside: Outsider,
    deleted: bool,              // a caller of quit() has deleted the dispatcher's context
    crashed: bool,              // something NULL, freed or deleted was dereferenced
    pushed: multiset<Event>,    // every event ever pushed
    disposed: multiset<Event>)  // every event deleted, with multiplicity

  const INITIAL := State(multiset{}, None, [], [], [], false, Idle, None, Away, false, false, multiset{}, multiset{})

  datatype Step =
    | Push(e: Event)
    // EDT; an option or flag is the outcome of something the machine leaves open
    | CheckStop | Poll(top: Option<Event>) | BeginDispatch | PollSuspended | Route(subscribed: bool)
    | CreateThread(ok: bool) | CheckFinished | ClearCurrent | ResumeTop | Install | Tick
    | CleanCurrent | CleanStack | CleanQueue(top: Option<Event>) | DisposeStep
    // handler thread t
    | Start(t: nat) | PointMove(t: nat, m: Move) | CallQuit(t: nat) | RequestStop(t: nat) | Joined(t: nat)
    | Return(t: nat) | CheckReap(t: nat) | Finish(t: nat) | Reap(t: nat)
    // quit() called from a thread that is no handler
    | OutsideQuit | OutsideStop | OutsideJoined

  /** Every context number in the state names an allocated context. */
  predicate Valid(s: State) {
    && |s.threads| == |s.ctxs|
    && (s.current.Some? ==> s.current.value < |s.ctxs|)
    && (forall i :: 0 <= i < |s.interrupted| ==> s.interrupted[i] < |s.ctxs|)
    && (s.edt.Installing? || s.edt.Disposing? ==> s.edt.c < |s.ctxs|)
    && (s.edt.Suspending? || s.edt.Creating? ==> s.current.Some?)
    && (forall t :: 0 <= t < |s.threads| && s.threads[t].ctx.Some? ==> s.threads[t].ctx.value < |s.ctxs|)
    && (forall t :: 0 <= t < |s.threads| && s.threads[t].ctx.None? ==>
          s.threads[t].pc.Absent? || s.threads[t].pc.Starting?)
  }

  function SetCtx(s: State, c: nat, x: Context): (s': State)
    requires c < |s.ctxs|
    ensures Valid(s) ==> Valid(s')
  {
    s.(ctxs := s.ctxs[c := x])
  }

  function SetPc(s: State, t: nat, pc: ThreadPc): (s': State)
    requires t < |s.threads|
    ensures Valid(s) && (s.threads[t].ctx.Some? || pc.Starting?) ==> Valid(s')
  {
    s.(threads := s.threads[t := s.threads[t].(pc := pc)])
  }

  /** The context thread t works on. */
  function Mine(s: State, t: nat): nat
    requires Valid(s) && t < |s.threads| && s.threads[t].ctx.Some?
  {
    s.threads[t].ctx.value
  }

  predicate ThreadAt(s: State, t: nat, pc: ThreadPc) {
    t < |s.threads| && s.threads[t].pc == pc
  }

  /** Thread t is in its handler function and not in an interrupt point. */
  predicate InHandlerCode(s: State, t: nat)
    requires Valid(s)
  {
    ThreadAt(s, t, Working) && s.ctxs[Mine(s, t)].sync.at == Outside
  }

  /** Any element may be on top: the queue orders events by address. */
  predicate TopOf(queue: multiset<Event>, top: Option<Event>) {
    match top
    case None => queue == multiset{}
    case Some(e) => e in queue
  }

  predicate CurrentUsable(s: State)
    requires Valid(s)
  {
    s.current.Some? && !s.ctxs[s.current.value].freed
  }

  /** The suspend_mutex of context c can be taken by the EDT. */
  predicate CanLock(s: State, c: nat) {
    c < |s.ctxs| && MutexFree(s.ctxs[c].sync)
  }

  predicate Enabled(s: State, step: Step)
    requires Valid(s)
  {
    !s.crashed &&
    match step
    case Push(e) => e !in s.pushed
    case CheckStop => s.edt.Idle?
    case Poll(top) => s.edt.Polling? && TopOf(s.queue, top)
    case BeginDispatch => s.edt.Dispatching? && (s.current.Some? ==> CanLock(s, s.current.value))
    case PollSuspended => s.edt.Suspending? && CanLock(s, s.current.value)
    case Route(_) => s.edt.Routing?
    case CreateThread(_) => s.edt.Creating?
    case CheckFinished => s.edt.Checking?
    case ClearCurrent => s.edt.Clearing?
    case ResumeTop =>
      s.edt.Restacking? && (s.current.None? && s.interrupted != [] ==> CanLock(s, s.interrupted[|s.interrupted| - 1]))
    case Install => s.edt.Installing?
    case Tick => s.edt.Ticking?
    case CleanCurrent => s.edt.CleaningCurrent?
    case CleanStack => s.edt.CleaningStack?
    case CleanQueue(top) => s.edt.CleaningQueue? && TopOf(s.queue, top)
    case DisposeStep =>
      s.edt.Disposing? && (s.edt.stage.TestSuspended? || s.edt.stage.ResumeIt? ==> CanLock(s, s.edt.c))
    case Start(t) => ThreadAt(s, t, Starting)
    case PointMove(t, m) => ThreadAt(s, t, Working) && CanMove(s.ctxs[Mine(s, t)].sync, m)
    case CallQuit(t) => InHandlerCode(s, t) && s.quitter.None?
    case RequestStop(t) => ThreadAt(s, t, Quitting)
    case Joined(t) => ThreadAt(s, t, Joining) && s.edt.Ended?
    case Return(t) => InHandlerCode(s, t)
    case CheckReap(t) => ThreadAt(s, t, Returned)
    case Finish(t) => ThreadAt(s, t, Finishing)
    case Reap(t) => ThreadAt(s, t, Reaping)
    case OutsideQuit => s.outside.Away?
    case OutsideStop => s.outside.Calling?
    case OutsideJoined => s.outside.Waiting? && s.edt.Ended?
  }

  // ---- The EDT ----

  /** edt_poll_event_queue: take the top unless the current event's priority is at least as high. */
  function PollEffect(tab: Table, s: State, top: Option<Event>): (s': State)
    requires Valid(s)
    ensures Valid(s')
  {
    if top.None? || (s.current.Some? && tab(s.ctxs[s.current.value].event.topic) >= tab(top.value.topic)) then
      s.(edt := Checking)
    else
      s.(queue := s.queue - multiset{top.value}, edt := Dispatching(top.value))
  }

  function BeginDispatchEffect(s: State): (s': State)
    requires Valid(s) && s.edt.Dispatching?
    ensures Valid(s')
  {
    if s.current.Some? then
      var c := s.current.value;
      SetCtx(s, c, s.ctxs[c].(sync := Suspend(s.ctxs[c].sync))).(edt := Suspending(s.edt.e))
    else
      s.(edt := Routing(s.edt.e))
  }

  function PollSuspendedEffect(s: State): (s': State)
    requires Valid(s) && s.edt.Suspending?
    ensures Valid(s')
  {
    var c := s.current.value;
    if Suspended(s.ctxs[c].sync) then
      s.(interrupted := s.interrupted + [c], current := None, edt := Routing(s.edt.e))
    else
      s
  }

  /** edt_spawn_handler up to thread::create, or deletion of an event nobody subscribed to. */
  function RouteEffect(s: State, subscribed: bool): (s': State)
    requires Valid(s) && s.edt.Routing?
    ensures Valid(s')
  {
    if subscribed then
      s.(ctxs := s.ctxs + [Context(s.edt.e, true, false, FRESH, false)],
         threads := s.threads + [Thread(Absent, None)],
         current := Some(|s.ctxs|),
         edt := Creating)
    else
      s.(disposed := s.disposed + multiset{s.edt.e}, edt := Checking)
  }

  function CreateThreadEffect(s: State, ok: bool): (s': State)
    requires Valid(s) && s.edt.Creating?
    ensures Valid(s')
  {
    var c := s.current.value;
    if ok then SetPc(s, c, Starting).(edt := Checking)
    else SetCtx(s, c, s.ctxs[c].(running := false)).(edt := Checking)
  }

  function CheckFinishedEffect(s: State): (s': State)
    requires Valid(s)
    ensures Valid(s')
  {
    if s.current.Some? && !s.ctxs[s.current.value].running then
      s.(edt := Disposing(s.current.value, false, TestRunning, FromRun))
    else
      s.(edt := Restacking)
  }

  function ResumeTopEffect(s: State): (s': State)
    requires Valid(s)
    ensures Valid(s')
  {
    if s.current.None? && s.interrupted != [] then
      var c := s.interrupted[|s.interrupted| - 1];
      SetCtx(s, c, s.ctxs[c].(sync := Resume(s.ctxs[c].sync)))
      .(interrupted := s.interrupted[..|s.interrupted| - 1], edt := Installing(c))
    else
      s.(edt := Ticking)
  }

  function CleanCurrentEffect(s: State): (s': State)
    requires Valid(s)
    ensures Valid(s')
  {
    if s.current.Some? then
      var c := s.current.value;
      s.(edt := Disposing(c, !s.ctxs[c].sync.syscallOrigin, TestRunning, FromCurrent))
    else
      s.(edt := CleaningStack)
  }

  function CleanStackEffect(s: State): (s': State)
    requires Valid(s)
    ensures Valid(s')
  {
    if s.interrupted != [] then
      s.(interrupted := s.interrupted[..|s.interrupted| - 1],
         edt := Disposing(s.interrupted[|s.interrupted| - 1], true, TestRunning, FromStack))
    else
      s.(edt := CleaningQueue)
  }

  function CleanQueueEffect(s: State, top: Option<Event>): State {
    match top
    case None => s.(edt := Ended)
    case Some(e) => s.(queue := s.queue - multiset{e}, disposed := s.disposed + multiset{e})
  }

  function Resumption(caller: Caller): EdtPc {
    match caller
    case FromRun => Clearing
    case _ => CleaningStack
  }

  /** Frees context c and its event. */
  function FreeContext(s: State, c: nat): (s': State)
    requires c < |s.ctxs|
    ensures Valid(s) ==> Valid(s')
  {
    SetCtx(s, c, s.ctxs[c].(freed := true)).(disposed := s.disposed + multiset{s.ctxs[c].event})
  }

  function NextStage(x: Context, wait: bool, stage: Stage): Stage {
    match stage
    case TestRunning => if x.running then TestSuspended else Release
    case TestSuspended => if Suspended(x.sync) then ResumeIt else Decide
    case ResumeIt => Decide
    case Decide => if wait then Spin else Mark
    case Spin => if x.running then Spin else Release
    case Mark => Release
    case Release => Release
  }

  function Touched(x: Context, stage: Stage): Context {
    match stage
    case ResumeIt => x.(sync := Resume(x.sync))
    case Mark => x.(reapInHandler := true)
    case _ => x
  }

  /** The last test of dispose_handler_context, and the frees behind it. */
  function ReleaseEffect(s: State): (s': State)
    requires Valid(s) && s.edt.Disposing?
    ensures Valid(s')
  {
    (if s.ctxs[s.edt.c].reapInHandler then s else FreeContext(s, s.edt.c)).(edt := Resumption(s.edt.caller))
  }

  /** dispose_handler_context, one memory access at a time. */
  function DisposeEffect(s: State): (s': State)
    requires Valid(s) && s.edt.Disposing?
    ensures Valid(s')
  {
    var Disposing(c, wait, stage, caller) := s.edt;
    if stage.Release? then ReleaseEffect(s)
    else SetCtx(s, c, Touched(s.ctxs[c], stage)).(edt := Disposing(c, wait, NextStage(s.ctxs[c], wait, stage), caller))
  }

  // ---- Handler threads and quit() ----

  /** event_start reads current_handler. */
  function StartEffect(s: State, t: nat): (s': State)
    requires Valid(s) && t < |s.threads|
    ensures Valid(s')
  {
    if CurrentUsable(s) then s.(threads := s.threads[t := Thread(Working, s.current)])
    else s.(crashed := true)
  }

  function PointMoveEffect(s: State, t: nat, m: Move): (s': State)
    requires Valid(s) && ThreadAt(s, t, Working)
    ensures Valid(s')
  {
    var c := Mine(s, t);
    SetCtx(s, c, s.ctxs[c].(sync := DoMove(s.ctxs[c].sync, m)))
  }

  /** The test at the top of quit(): is the caller the current handler's thread? */
  function CallQuitEffect(s: State, t: nat): (s': State)
    requires Valid(s) && InHandlerCode(s, t)
    ensures Valid(s')
  {
    if s.deleted || !CurrentUsable(s) then
      s.(quitter := Some(t), crashed := true)
    else
      var c := s.current.value;
      var s1 := SetPc(s, t, Quitting).(quitter := Some(t));
      if c == t then SetCtx(s1, c, s.ctxs[c].(sync := s.ctxs[c].sync.(syscallOrigin := true))) else s1
  }

  function CheckReapEffect(s: State, t: nat): (s': State)
    requires Valid(s) && ThreadAt(s, t, Returned)
    ensures Valid(s')
  {
    SetPc(s, t, if s.ctxs[Mine(s, t)].reapInHandler then Reaping else Finishing)
  }

  function FinishEffect(s: State, t: nat): (s': State)
    requires Valid(s) && ThreadAt(s, t, Finishing)
    ensures Valid(s')
  {
    var c := Mine(s, t);
    SetPc(SetCtx(s, c, s.ctxs[c].(running := false)), t, Gone)
  }

  function PushEffect(s: State, e: Event): (s': State)
    requires Valid(s)
    ensures Valid(s')
  {
    if s.deleted then s.(crashed := true) else s.(queue := s.queue + multiset{e}, pushed := s.pushed + multiset{e})
  }

  /** The loop condition of edt_start. */
  function CheckStopEffect(s: State): (s': State)
    requires Valid(s) && s.edt.Idle?
    ensures Valid(s')
  {
    s.(edt := if s.stopRequested then CleaningCurrent else Polling)
  }

  function InstallEffect(s: State): (s': State)
    requires Valid(s) && s.edt.Installing?
    ensures Valid(s')
  {
    s.(current := Some(s.edt.c), edt := Ticking)
  }

  function RequestStopEffect(s: State, t: nat): (s': State)
    requires Valid(s) && ThreadAt(s, t, Quitting)
    ensures Valid(s')
  {
    SetPc(s, t, Joining).(stopRequested := true, crashed := s.deleted)
  }

  /** The join has returned, and the dispatcher's context is deleted. */
  function JoinedEffect(s: State, t: nat): (s': State)
    requires Valid(s) && ThreadAt(s, t, Joining)
    ensures Valid(s')
  {
    SetPc(s, t, Working).(deleted := true, crashed := s.deleted)
  }

  /** quit() called by a thread that is no handler dereferences current_handler without a test. */
  function OutsideQuitEffect(s: State): (s': State)
    requires Valid(s)
    ensures Valid(s')
  {
    s.(outside := Calling, crashed := s.deleted || !CurrentUsable(s))
  }

  function OutsideStopEffect(s: State): (s': State)
    requires Valid(s)
    ensures Valid(s')
  {
    s.(outside := Waiting, stopRequested := true, crashed := s.deleted)
  }

  function OutsideJoinedEffect(s: State): (s': State)
    requires Valid(s)
    ensures Valid(s')
  {
    s.(outside := Back, deleted := true, crashed := s.deleted)
  }

  function ReapEffect(s: State, t: nat): (s': State)
    requires Valid(s) && ThreadAt(s, t, Reaping)
    ensures Valid(s')
  {
    SetPc(FreeContext(s, Mine(s, t)), t, Gone)
  }

  predicate IsEdtStep(step: Step) {
    match step
    case CheckStop | Poll(_) | BeginDispatch | PollSuspended | Route(_) | CreateThread(_) | CheckFinished
      | ClearCurrent | ResumeTop | Install | Tick | CleanCurrent | CleanStack | CleanQueue(_) | DisposeStep => true
    case _ => false
  }

  function ApplyEdt(tab: Table, s: State, step: Step): (s': State)
    requires Valid(s) && Enabled(s, step) && IsEdtStep(step)
    ensures Valid(s')
  {
    match step
    case CheckStop => CheckStopEffect(s)
    case Poll(top) => PollEffect(tab, s, top)
    case BeginDispatch => BeginDispatchEffect(s)
    case PollSuspended => PollSuspendedEffect(s)
    case Route(subscribed) => RouteEffect(s, subscribed)
    case CreateThread(ok) => CreateThreadEffect(s, ok)
    case CheckFinished => CheckFinishedEffect(s)
    case ClearCurrent => s.(current := None, edt := Restacking)
    case ResumeTop => ResumeTopEffect(s)
    case Install => InstallEffect(s)
    case Tick => s.(edt := Idle)
    case CleanCurrent => CleanCurrentEffect(s)
    case CleanStack => CleanStackEffect(s)
    case CleanQueue(top) => CleanQueueEffect(s, top)
    case DisposeStep => DisposeEffect(s)
  }

  function ApplyOther(s: State, step: Step): (s': State)
    requires Valid(s) && Enabled(s, step) && !IsEdtStep(step)
    ensures Valid(s')
  {
    match step
    case Push(e) => PushEffect(s, e)
    case Start(t) => StartEffect(s, t)
    case PointMove(t, m) => PointMoveEffect(s, t, m)
    case CallQuit(t) => CallQuitEffect(s, t)
    case RequestStop(t) => RequestStopEffect(s, t)
    case Joined(t) => JoinedEffect(s, t)
    case Return(t) => SetPc(s, t, Returned)
    case CheckReap(t) => CheckReapEffect(s, t)
    case Finish(t) => FinishEffect(s, t)
    case Reap(t) => ReapEffect(s, t)
    case OutsideQuit => OutsideQuitEffect(s)
    case OutsideStop => OutsideStopEffect(s)
    case OutsideJoined => OutsideJoinedEffect(s)
  }

  function Apply(tab: Table, s: State, step: Step): (s': State)
    requires Valid(s) && Enabled(s, step)
    ensures Valid(s')
  {
    if IsEdtStep(step) then ApplyEdt(tab, s, step) else ApplyOther(s, step)
  }

  // ---- Runs ----

  /** The run is one the dispatcher can make from its initial state. */
  ghost predicate Legal(tab: Table, run: seq<Step>) {
    After(tab, run).Some?
  }

  /** The state after a run, or None when some step of it was not enabled. */
  function After(tab: Table, run: seq<Step>): (r: Option<State>)
    ensures r.Some? ==> Valid(r.value)
  {
    if run == [] then Some(INITIAL)
    else
      match After(tab, run[..|run| - 1])
      case None => None
      case Some(s) => if Enabled(s, run[|run| - 1]) then Some(Apply(tab, s, run[|run| - 1])) else None
  }

  /** The contexts a step dereferences. */
  function Dereferences(s: State, step: Step): set<nat>
    requires Valid(s) && Enabled(s, step)
  {
    match step
    case Poll(top) => if top.Some? && s.current.Some? then {s.current.value} else {}
    case BeginDispatch => if s.current.Some? then {s.current.value} else {}
    case PollSuspended => {s.current.value}
    case CreateThread(_) => {s.current.value}
    case CheckFinished => if s.current.Some? then {s.current.value} else {}
    case ResumeTop => if s.current.None? && s.interrupted != [] then {s.interrupted[|s.interrupted| - 1]} else {}
    case CleanCurrent => if s.current.Some? then {s.current.value} else {}
    case OutsideQuit => if s.current.Some? then {s.current.value} else {}
    case CallQuit(t) => {Mine(s, t)} + (if s.current.Some? then {s.current.value} else {})
    case DisposeStep => {s.edt.c}
    case PointMove(t, _) => {Mine(s, t)}
    case CheckReap(t) => {Mine(s, t)}
    case Finish(t) => {Mine(s, t)}
    case Reap(t) => {Mine(s, t)}
    case Joined(t) => {Mine(s, t)}
    case Return(t) => {Mine(s, t)}
    case RequestStop(t) => {Mine(s, t)}
    case _ => {}
  }
}
