/**
 The dispatcher as an object that its threads change in place. Each method is what one of the source's functions
 does in one atomic step, and keeps the invariant of module DispatchInvariant as the class invariant. Run does the
 steps of an interleaving one after the other, so whatever module DispatchTheorems proves of the states after legal
 runs holds of this object.
 */
module DispatchObject {
  import opened Wrappers
  import opened HandlerSync
  import opened Dispatch
  import opened DispatchInvariant

  /** handler_synchronization_type and its operations, each inside the mutex. */
  class SyncObject {
    var suspendFlag: bool
    var inWaitLoop: bool
    var syscallOrigin: bool
    var at: Point

    constructor ()
      ensures View() == FRESH
    {
      suspendFlag, inWaitLoop, syscallOrigin, at := false, false, false, Outside;
    }

    function View(): Sync
      reads this
    {
      Sync(suspendFlag, inWaitLoop, syscallOrigin, at)
    }

    method SuspendHandler()
      requires MutexFree(View())
      modifies this
      ensures View() == Suspend(old(View()))
    {
      suspendFlag := true;
    }

    method ResumeHandler()
      requires MutexFree(View())
      modifies this
      ensures View() == Resume(old(View()))
    {
      suspendFlag := false;
      if at == Asleep {
        at := Waking;
      }
    }

    method HandlerSuspended() returns (suspended: bool)
      requires MutexFree(View())
      ensures suspended == Suspended(View())
    {
      suspended := inWaitLoop;
    }

    /** One step of the handler thread in HANDLER_INTERRUPT_POINT. */
    method InterruptPoint(m: Move)
      requires CanMove(View(), m)
      modifies this
      ensures View() == DoMove(old(View()), m)
    {
      match m {
        case Enter => at := Testing;
        case Test =>
          if suspendFlag {
            inWaitLoop := true;
            at := Parking;
          } else {
            inWaitLoop := false;
            at := Outside;
          }
        case Sleep => at := Asleep;
        case Wake => at := Waking;
        case Reacquire => at := Testing;
      }
    }
  }

  class HandlerContext {
    const event: Event
    const sync: SyncObject
    var running: bool
    var reapInHandler: bool
    var freed: bool

    constructor (event: Event)
      ensures View() == Context(event, true, false, FRESH, false) && fresh(sync)
    {
      this.event, running, reapInHandler, freed := event, true, false, false;
      sync := new SyncObject();
    }

    function View(): Context
      reads this, sync
    {
      Context(event, running, reapInHandler, sync.View(), freed)
    }
  }

  /** event_dispatch_context_type with all contexts ever allocated, numbered as in module Dispatch. */
  class EventDispatchContext {
    var queue: multiset<Event>
    var currentHandler: Option<nat>
    var interrupted: seq<nat>
    var contexts: seq<HandlerContext>
    var threads: seq<Thread>
    var stopRequested: bool
    var edt: EdtPc
    var quitter: Option<nat>
    var outside: Outsider
    var deleted: bool
    var crashed: bool
    ghost var pushed: multiset<Event>
    ghost var disposed: multiset<Event>

    /** Contexts and their handshakes are separate objects. */
    ghost predicate Separate()
      reads this
    {
      forall i, j :: 0 <= i < j < |contexts| ==> contexts[i] != contexts[j] && contexts[i].sync != contexts[j].sync
    }

    ghost function Parts(): set<object>
      reads this
    {
      (set i | 0 <= i < |contexts| :: contexts[i] as object)
          + (set i | 0 <= i < |contexts| :: contexts[i].sync as object)
    }

    ghost function ContextViews(): (views: seq<Context>)
      reads this, Parts()
      ensures |views| == |contexts| && forall i :: 0 <= i < |contexts| ==> views[i] == contexts[i].View()
    {
      seq(|contexts|, i requires 0 <= i < |contexts| reads this, Parts() => contexts[i].View())
    }

    ghost function View(): State
      reads this, Parts()
    {
      State(queue, currentHandler, interrupted, ContextViews(), threads, stopRequested, edt, quitter, outside, deleted,
            crashed, pushed, disposed)
    }

    /** The class invariant: until something NULL, freed or deleted is used, the dispatcher's invariant holds. */
    ghost predicate Sane()
      reads this, Parts()
    {
      Separate() && (crashed || Good(View()))
    }

    constructor ()
      ensures View() == INITIAL && Sane()
    {
      queue, currentHandler, interrupted, contexts, threads := multiset{}, None, [], [], [];
      stopRequested, edt, quitter, outside, deleted, crashed := false, Idle, None, Away, false, false;
      pushed, disposed := multiset{}, multiset{};
    }

    // ---- Changes to one context ----

    method SuspendContext(c: nat)
      requires Separate() && c < |contexts| && MutexFree(contexts[c].sync.View())
      modifies contexts[c].sync
      ensures ContextViews()
           == old(ContextViews())[c := old(contexts[c].View()).(sync := Suspend(old(contexts[c].View()).sync))]
    {
      contexts[c].sync.SuspendHandler();
    }

    method ResumeContext(c: nat)
      requires Separate() && c < |contexts| && MutexFree(contexts[c].sync.View())
      modifies contexts[c].sync
      ensures ContextViews()
           == old(ContextViews())[c := old(contexts[c].View()).(sync := Resume(old(contexts[c].View()).sync))]
    {
      contexts[c].sync.ResumeHandler();
    }

    method MovePoint(c: nat, m: Move)
      requires Separate() && c < |contexts| && CanMove(contexts[c].sync.View(), m)
      modifies contexts[c].sync
      ensures ContextViews()
           == old(ContextViews())[c := old(contexts[c].View()).(sync := DoMove(old(contexts[c].View()).sync, m))]
    {
      contexts[c].sync.InterruptPoint(m);
    }

    method SetSyscallOrigin(c: nat)
      requires Separate() && c < |contexts|
      modifies contexts[c].sync
      ensures ContextViews()
           == old(ContextViews())[c := old(contexts[c].View())
                                     .(sync := old(contexts[c].View()).sync.(syscallOrigin := true))]
    {
      contexts[c].sync.syscallOrigin := true;
    }

    method StopRunning(c: nat)
      requires Separate() && c < |contexts|
      modifies contexts[c]
      ensures ContextViews() == old(ContextViews())[c := old(contexts[c].View()).(running := false)]
    {
      contexts[c].running := false;
    }

    method MarkForReaping(c: nat)
      requires Separate() && c < |contexts|
      modifies contexts[c]
      ensures ContextViews() == old(ContextViews())[c := old(contexts[c].View()).(reapInHandler := true)]
    {
      contexts[c].reapInHandler := true;
    }

    method MarkFreed(c: nat)
      requires Separate() && c < |contexts|
      modifies contexts[c]
      ensures ContextViews() == old(ContextViews())[c := old(contexts[c].View()).(freed := true)]
    {
      contexts[c].freed := true;
    }

    /** Deletes the event and the context, which must not have been deleted before. */
    method Free(c: nat)
      requires Separate() && c < |contexts| && !contexts[c].freed
      modifies contexts[c], this`disposed
      ensures View() == FreeContext(old(View()), c)
    {
      disposed := disposed + multiset{contexts[c].event};
      MarkFreed(c);
    }

    // ---- The EDT ----

    /** edt_start, the loop condition */
    method TestStatus()
      requires Sane() && !crashed && edt.Idle?
      modifies this`edt
      ensures View() == CheckStopEffect(old(View())) && Sane()
    {
      CheckStopKeeps(View());
      edt := if stopRequested then CleaningCurrent else Polling;
    }

    /** edt_poll_event_queue; `top` is what the queue has on top. */
    method PollEventQueue(tab: Table, top: Option<Event>)
      requires Sane() && !crashed && edt.Polling? && TopOf(queue, top)
      modifies this`edt, this`queue
      ensures View() == PollEffect(tab, old(View()), top) && Sane()
      ensures edt.Dispatching? && currentHandler.Some? && currentHandler.value < |contexts| ==>
                tab(contexts[currentHandler.value].event.topic) < tab(edt.e.topic)
    {
      PollKeeps(tab, View(), top);
      var e := top;
      if e.Some? {
        if currentHandler.Some? {
          var curPrior := tab(contexts[currentHandler.value].event.topic);
          var newPrior := tab(e.value.topic);
          if curPrior >= newPrior {
            e := None;
          }
        }
      }
      if e.Some? {
        queue := queue - multiset{e.value};
        edt := Dispatching(e.value);
      } else {
        edt := Checking;
      }
    }

    /** edt_dispatch_event up to suspend_handler */
    method DispatchEvent()
      requires Sane() && !crashed && edt.Dispatching?
      requires currentHandler.Some? ==> CanLock(View(), currentHandler.value)
      modifies this`edt, Parts()
      ensures View() == BeginDispatchEffect(old(View())) && contexts == old(contexts) && Sane()
    {
      BeginDispatchKeeps(View());
      if currentHandler.Some? {
        SuspendContext(currentHandler.value);
        edt := Suspending(edt.e);
      } else {
        edt := Routing(edt.e);
      }
    }

    /** One turn of the wait loop of edt_interrupt_handler, and the push behind it */
    method InterruptHandler()
      requires Sane() && !crashed && edt.Suspending? && CanLock(View(), currentHandler.value)
      modifies this`edt, this`interrupted, this`currentHandler
      ensures View() == PollSuspendedEffect(old(View())) && Sane()
      ensures currentHandler.None? ==> HeldFast(ContextViews()[old(currentHandler).value].sync)
    {
      PollSuspendedKeeps(View());
      assert Role(View(), currentHandler.value);
      var suspended := contexts[currentHandler.value].sync.HandlerSuspended();
      if suspended {
        interrupted := interrupted + [currentHandler.value];
        currentHandler := None;
        edt := Routing(edt.e);
      }
    }

    /** edt_spawn_handler up to thread::create, or the deletion of an event without a handler */
    method SpawnHandler(subscribed: bool)
      requires Sane() && !crashed && edt.Routing?
      modifies this`edt, this`contexts, this`threads, this`currentHandler, this`disposed
      ensures View() == RouteEffect(old(View()), subscribed) && Sane()
      ensures fresh(Parts() - old(Parts()))
    {
      RouteKeeps(View(), subscribed);
      if subscribed {
        NewContext();
      } else {
        DropEvent();
      }
    }

    method NewContext()
      requires Separate() && Dispatch.Valid(View()) && edt.Routing?
      modifies this`edt, this`contexts, this`threads, this`currentHandler
      ensures View() == RouteEffect(old(View()), true) && Separate()
      ensures fresh(Parts() - old(Parts()))
    {
      var ctx := new HandlerContext(edt.e);
      currentHandler := Some(|contexts|);
      contexts := contexts + [ctx];
      threads := threads + [Thread(Absent, None)];
      edt := Creating;
    }

    method DropEvent()
      requires Dispatch.Valid(View()) && edt.Routing?
      modifies this`edt, this`disposed
      ensures View() == RouteEffect(old(View()), false)
    {
      disposed := disposed + multiset{edt.e};
      edt := Checking;
    }

    /** The rest of edt_spawn_handler */
    method CreateThread(ok: bool)
      requires Sane() && !crashed && edt.Creating?
      modifies this`edt, this`threads, Parts()
      ensures View() == CreateThreadEffect(old(View()), ok) && contexts == old(contexts) && Sane()
    {
      CreateThreadKeeps(View(), ok);
      ThreadCreated(ok);
    }

    method ThreadCreated(ok: bool)
      requires Separate() && Dispatch.Valid(View()) && edt.Creating?
      modifies this`edt, this`threads, Parts()
      ensures View() == CreateThreadEffect(old(View()), ok) && contexts == old(contexts)
    {
      var c := currentHandler.value;
      if ok {
        threads := threads[c := threads[c].(pc := Starting)];
      } else {
        StopRunning(c);
      }
      edt := Checking;
    }

    /** edt_run, has the current handler finished? */
    method TestFinished()
      requires Sane() && !crashed && edt.Checking?
      modifies this`edt
      ensures View() == CheckFinishedEffect(old(View())) && Sane()
    {
      CheckFinishedKeeps(View());
      if currentHandler.Some? && !contexts[currentHandler.value].running {
        edt := Disposing(currentHandler.value, false, TestRunning, FromRun);
      } else {
        edt := Restacking;
      }
    }

    /** edt_run, taking the top of the stack; what is resumed was held in its interrupt point. */
    method PopInterrupted()
      requires Sane() && !crashed && edt.Restacking?
      requires currentHandler.None? && interrupted != [] ==> CanLock(View(), interrupted[|interrupted| - 1])
      modifies this`edt, this`interrupted, Parts()
      ensures View() == ResumeTopEffect(old(View())) && contexts == old(contexts) && Sane()
      ensures edt.Installing? ==> edt.c < |contexts| && HeldFast(old(ContextViews())[edt.c].sync)
    {
      ResumeTopKeeps(View());
      TopIsParked(View());
      Pop();
    }

    method Pop()
      requires Separate() && Dispatch.Valid(View()) && edt.Restacking?
      requires currentHandler.None? && interrupted != [] ==> CanLock(View(), interrupted[|interrupted| - 1])
      modifies this`edt, this`interrupted, Parts()
      ensures View() == ResumeTopEffect(old(View())) && contexts == old(contexts)
    {
      if currentHandler.None? && interrupted != [] {
        var c := interrupted[|interrupted| - 1];
        interrupted := interrupted[..|interrupted| - 1];
        ResumeContext(c);
        edt := Installing(c);
      } else {
        edt := Ticking;
      }
    }

    /** edt_cleanup, the current handler */
    method CleanUpCurrent()
      requires Sane() && !crashed && edt.CleaningCurrent?
      modifies this`edt
      ensures View() == CleanCurrentEffect(old(View())) && Sane()
    {
      CleanCurrentKeeps(View());
      if currentHandler.Some? {
        var wait := !contexts[currentHandler.value].sync.syscallOrigin;
        edt := Disposing(currentHandler.value, wait, TestRunning, FromCurrent);
      } else {
        edt := CleaningStack;
      }
    }

    /** edt_cleanup, one interrupted handler */
    method CleanUpStack()
      requires Sane() && !crashed && edt.CleaningStack?
      modifies this`edt, this`interrupted
      ensures View() == CleanStackEffect(old(View())) && Sane()
    {
      CleanStackKeeps(View());
      if interrupted != [] {
        var intrCtx := interrupted[|interrupted| - 1];
        interrupted := interrupted[..|interrupted| - 1];
        edt := Disposing(intrCtx, true, TestRunning, FromStack);
      } else {
        edt := CleaningQueue;
      }
    }

    /** edt_cleanup, one queued event */
    method CleanUpQueue(top: Option<Event>)
      requires Sane() && !crashed && edt.CleaningQueue? && TopOf(queue, top)
      modifies this`edt, this`queue, this`disposed
      ensures View() == CleanQueueEffect(old(View()), top) && Sane()
    {
      CleanQueueKeeps(View(), top);
      if top.Some? {
        queue := queue - multiset{top.value};
        disposed := disposed + multiset{top.value};
      } else {
        edt := Ended;
      }
    }

    /** One memory access of dispose_handler_context */
    method DisposeHandlerContext()
      requires Sane() && !crashed && edt.Disposing?
      requires edt.stage.TestSuspended? || edt.stage.ResumeIt? ==> CanLock(View(), edt.c)
      modifies this`edt, this`disposed, Parts()
      ensures View() == DisposeEffect(old(View())) && contexts == old(contexts) && Sane()
    {
      DisposeKeeps(View());
      assert Role(View(), edt.c);
      if edt.stage.Release? {
        ReleaseContext();
      } else if edt.stage.ResumeIt? || edt.stage.Mark? {
        TouchContext();
      } else {
        TestContext();
      }
    }

    method TestContext()
      requires Dispatch.Valid(View()) && edt.Disposing? && !edt.stage.Release? && !edt.stage.ResumeIt?
              && !edt.stage.Mark?
      requires edt.stage.TestSuspended? ==> CanLock(View(), edt.c)
      modifies this`edt
      ensures View() == DisposeEffect(old(View()))
    {
      var Disposing(c, wait, stage, caller) := edt;
      ghost var views := ContextViews();
      assert views[c := views[c]] == views;
      var next := Decide;
      if stage.TestRunning? {
        next := if contexts[c].running then TestSuspended else Release;
      } else if stage.TestSuspended? {
        var suspended := contexts[c].sync.HandlerSuspended();
        next := if suspended then ResumeIt else Decide;
      } else if stage.Decide? {
        next := if wait then Spin else Mark;
      } else {
        next := if contexts[c].running then Spin else Release;
      }
      edt := Disposing(c, wait, next, caller);
    }

    method TouchContext()
      requires Separate() && Dispatch.Valid(View()) && edt.Disposing? && (edt.stage.ResumeIt? || edt.stage.Mark?)
      requires edt.stage.ResumeIt? ==> CanLock(View(), edt.c)
      modifies this`edt, Parts()
      ensures View() == DisposeEffect(old(View())) && contexts == old(contexts)
    {
      var Disposing(c, wait, stage, caller) := edt;
      if stage.ResumeIt? {
        ResumeContext(c);
        edt := Disposing(c, wait, Decide, caller);
      } else {
        MarkForReaping(c);
        edt := Disposing(c, wait, Release, caller);
      }
    }

    method ReleaseContext()
      requires Separate() && Dispatch.Valid(View()) && edt.Disposing? && edt.stage.Release? && !contexts[edt.c].freed
      modifies this`edt, this`disposed, Parts()
      ensures View() == DisposeEffect(old(View())) && contexts == old(contexts)
    {
      var caller := edt.caller;
      if !contexts[edt.c].reapInHandler {
        Free(edt.c);
      }
      edt := Resumption(caller);
    }

    // ---- Handler threads and quit() ----

    /** event_start, reading current_handler */
    method StartHandler(t: nat)
      requires Sane() && !crashed
      requires ThreadAt(View(), t, Starting)
      modifies this`threads
      ensures View() == StartEffect(old(View()), t) && Sane()
      ensures !crashed && threads[t] == Thread(Working, Some(t)) && !contexts[t].freed
    {
      StartKeeps(View(), t);
      StartFindsOwnContext(View(), t);
      threads := threads[t := Thread(Working, currentHandler)];
    }

    /** quit(), the test whether the caller is the current handler */
    method QuitFromHandler(t: nat)
      requires Sane() && !crashed
      requires InHandlerCode(View(), t) && quitter.None?
      modifies this`threads, this`quitter, this`crashed, Parts()
      ensures View() == CallQuitEffect(old(View()), t) && contexts == old(contexts) && Sane()
      ensures crashed <==> Resumed(old(View()))
      ensures !crashed ==> currentHandler == Some(t) && contexts[t].sync.syscallOrigin
    {
      CallQuitKeeps(View(), t);
      QuitterIsWard(View(), t);
      if deleted || !(currentHandler.Some? && !contexts[currentHandler.value].freed) {
        quitter, crashed := Some(t), true;
      } else {
        BeginQuit(t);
        if currentHandler.value == t {
          SetSyscallOrigin(t);
        }
      }
    }

    method BeginQuit(t: nat)
      requires t < |threads|
      modifies this`threads, this`quitter
      ensures View() == SetPc(old(View()), t, Quitting).(quitter := Some(t))
    {
      quitter := Some(t);
      threads := threads[t := threads[t].(pc := Quitting)];
    }

    /** event_start after the handler function: who frees the context? */
    method TestReap(t: nat)
      requires Sane() && !crashed && ThreadAt(View(), t, Returned)
      modifies this`threads
      ensures View() == CheckReapEffect(old(View()), t) && Sane()
      ensures t < |contexts| && threads[t] == Thread(if contexts[t].reapInHandler then Reaping else Finishing, Some(t))
    {
      OwnContext(View(), t);
      assert Role(View(), t);
      CheckReapKeeps(View(), t);
      var c := threads[t].ctx.value;
      threads := threads[t := threads[t].(pc := if contexts[c].reapInHandler then Reaping else Finishing)];
    }

    method FinishHandler(t: nat)
      requires Sane() && !crashed && ThreadAt(View(), t, Finishing)
      modifies this`threads, Parts()
      ensures View() == FinishEffect(old(View()), t) && contexts == old(contexts) && Sane()
      ensures t < |contexts| && !contexts[t].running && !contexts[t].freed
    {
      FinishKeeps(View(), t);
      OwnContext(View(), t);
      StopRunning(threads[t].ctx.value);
      threads := threads[t := threads[t].(pc := Gone)];
    }

    method ReapHandler(t: nat)
      requires Sane() && !crashed && ThreadAt(View(), t, Reaping)
      modifies this`threads, this`disposed, Parts()
      ensures View() == ReapEffect(old(View()), t) && contexts == old(contexts) && Sane()
      ensures t < |contexts| && contexts[t].freed && !old(contexts[t].freed)
    {
      ReapKeeps(View(), t);
      OwnContext(View(), t);
      Free(threads[t].ctx.value);
      threads := threads[t := threads[t].(pc := Gone)];
    }

    method MoveHandler(t: nat, m: Move)
      requires Sane() && !crashed && ThreadAt(View(), t, Working)
      requires CanMove(contexts[threads[t].ctx.value].sync.View(), m)
      modifies Parts()
      ensures View() == PointMoveEffect(old(View()), t, m) && contexts == old(contexts) && Sane()
    {
      PointMoveKeeps(View(), t, m);
      MovePoint(threads[t].ctx.value, m);
    }

    method ClearHandler()
      requires Sane() && !crashed
      requires edt.Clearing?
      modifies this`currentHandler, this`edt
      ensures View() == old(View()).(current := None, edt := Restacking) && Sane()
    {
      ClearCurrentKeeps(View());
      currentHandler, edt := None, Restacking;
    }

    method InstallHandler()
      requires Sane() && !crashed && edt.Installing?
      modifies this`currentHandler, this`edt
      ensures View() == InstallEffect(old(View())) && Sane()
    {
      InstallKeeps(View());
      currentHandler, edt := Some(edt.c), Ticking;
    }

    method CheckTimers()
      requires Sane() && !crashed
      requires edt.Ticking?
      modifies this`edt
      ensures View() == old(View()).(edt := Idle) && Sane()
    {
      TickKeeps(View());
      edt := Idle;
    }

    /** event_start, when the handler function returns */
    method ReturnFromHandler(t: nat)
      requires Sane() && !crashed && InHandlerCode(View(), t)
      modifies this`threads
      ensures View() == SetPc(old(View()), t, Returned) && Sane()
    {
      OwnContext(View(), t);
      ReturnKeeps(View(), t);
      threads := threads[t := threads[t].(pc := Returned)];
    }

    method PushEvent(e: Event)
      requires Sane() && !crashed
      requires e !in pushed
      modifies this`queue, this`pushed, this`crashed
      ensures View() == PushEffect(old(View()), e) && Sane()
    {
      PushKeeps(View(), e);
      if deleted {
        crashed := true;
      } else {
        queue, pushed := queue + multiset{e}, pushed + multiset{e};
      }
    }

    /** quit(), the request and the call of join */
    method RequestStop(t: nat)
      requires Sane() && !crashed && ThreadAt(View(), t, Quitting)
      modifies this`threads, this`stopRequested, this`crashed
      ensures View() == RequestStopEffect(old(View()), t) && Sane()
    {
      RequestStopKeeps(View(), t);
      threads := threads[t := threads[t].(pc := Joining)];
      stopRequested := true;
      crashed := deleted;
    }

    /** quit(), when the join returns: deletes the dispatcher's context */
    method JoinHandler(t: nat)
      requires Sane() && !crashed && ThreadAt(View(), t, Joining)
      requires edt.Ended?
      modifies this`threads, this`deleted, this`crashed
      ensures View() == JoinedEffect(old(View()), t) && Sane()
    {
      JoinedKeeps(View(), t);
      threads := threads[t := threads[t].(pc := Working)];
      crashed := deleted;
      deleted := true;
    }

    /** quit() called from a thread that is no handler dereferences current_handler without a test. */
    method QuitFromOutside()
      requires Sane() && !crashed
      requires outside.Away?
      modifies this`outside, this`crashed
      ensures View() == OutsideQuitEffect(old(View())) && Sane()
    {
      if !deleted { OutsideKeeps(View(), Calling); }
      crashed := deleted || !(currentHandler.Some? && !contexts[currentHandler.value].freed);
      outside := Calling;
    }

    method StopFromOutside()
      requires Sane() && !crashed
      requires outside.Calling?
      modifies this`outside, this`stopRequested, this`crashed
      ensures View() == OutsideStopEffect(old(View())) && Sane()
    {
      if !deleted { OutsideKeeps(View(), Waiting); }
      outside, stopRequested, crashed := Waiting, true, deleted;
    }

    method JoinFromOutside()
      requires Sane() && !crashed
      requires outside.Waiting? && edt.Ended?
      modifies this`outside, this`deleted, this`crashed
      ensures View() == OutsideJoinedEffect(old(View())) && Sane()
    {
      if !deleted { OutsideKeeps(View(), Back); }
      outside, crashed := Back, deleted;
      deleted := true;
    }

    // ---- Whole runs ----

    /** edt_poll_event_queue and edt_dispatch_event */
    method PerformDispatch(tab: Table, step: Step)
      requires Sane() && !crashed && Enabled(View(), step)
      requires step.Poll? || step.BeginDispatch? || step.PollSuspended? || step.Route? || step.CreateThread?
      modifies this, Parts()
      ensures View() == ApplyEdt(tab, old(View()), step) && Sane()
      ensures fresh(Parts() - old(Parts()))
    {
      if step.Poll? {
        PollEventQueue(tab, step.top);
      } else if step.BeginDispatch? {
        DispatchEvent();
      } else if step.PollSuspended? {
        InterruptHandler();
      } else if step.Route? {
        SpawnHandler(step.subscribed);
      } else {
        CreateThread(step.ok);
      }
    }

    /** The rest of edt_run */
    method PerformRun(tab: Table, step: Step)
      requires Sane() && !crashed && Enabled(View(), step)
      requires step.CheckFinished? || step.ClearCurrent? || step.ResumeTop? || step.Install? || step.Tick?
      modifies this, Parts()
      ensures View() == ApplyEdt(tab, old(View()), step) && Sane()
      ensures contexts == old(contexts)
    {
      if step.CheckFinished? {
        TestFinished();
      } else if step.ClearCurrent? {
        ClearHandler();
      } else if step.ResumeTop? {
        PopInterrupted();
      } else if step.Install? {
        InstallHandler();
      } else {
        CheckTimers();
      }
    }

    /** The loop of edt_start, edt_cleanup and dispose_handler_context */
    method PerformCleanup(tab: Table, step: Step)
      requires Sane() && !crashed && Enabled(View(), step)
      requires step.CheckStop? || step.CleanCurrent? || step.CleanStack? || step.CleanQueue? || step.DisposeStep?
      modifies this, Parts()
      ensures View() == ApplyEdt(tab, old(View()), step) && Sane()
      ensures contexts == old(contexts)
    {
      if step.CheckStop? {
        TestStatus();
      } else if step.CleanCurrent? {
        CleanUpCurrent();
      } else if step.CleanStack? {
        CleanUpStack();
      } else if step.CleanQueue? {
        CleanUpQueue(step.top);
      } else {
        DisposeHandlerContext();
      }
    }

    /** One step of the EDT. */
    method PerformEdt(tab: Table, step: Step)
      requires Sane() && !crashed && Enabled(View(), step) && IsEdtStep(step)
      modifies this, Parts()
      ensures View() == ApplyEdt(tab, old(View()), step) && Sane()
      ensures fresh(Parts() - old(Parts()))
    {
      if step.Poll? || step.BeginDispatch? || step.PollSuspended? || step.Route? || step.CreateThread? {
        PerformDispatch(tab, step);
      } else if step.CheckFinished? || step.ClearCurrent? || step.ResumeTop? || step.Install? || step.Tick? {
        PerformRun(tab, step);
      } else {
        PerformCleanup(tab, step);
      }
    }

    /** event_start and the interrupt points */
    method PerformHandler(step: Step)
      requires Sane() && !crashed && Enabled(View(), step)
      requires step.Start? || step.PointMove? || step.Return? || step.CheckReap? || step.Finish? || step.Reap?
      modifies this, Parts()
      ensures View() == ApplyOther(old(View()), step) && Sane()
      ensures contexts == old(contexts)
    {
      if step.Start? {
        StartHandler(step.t);
      } else if step.PointMove? {
        MoveHandler(step.t, step.m);
      } else if step.Return? {
        ReturnFromHandler(step.t);
      } else if step.CheckReap? {
        TestReap(step.t);
      } else if step.Finish? {
        FinishHandler(step.t);
      } else {
        ReapHandler(step.t);
      }
    }

    /** push_event and quit() */
    method PerformCall(step: Step)
      requires Sane() && !crashed && Enabled(View(), step)
      requires step.Push? || step.CallQuit? || step.RequestStop? || step.Joined? || step.OutsideQuit?
            || step.OutsideStop? || step.OutsideJoined?
      modifies this, Parts()
      ensures View() == ApplyOther(old(View()), step) && Sane()
      ensures contexts == old(contexts)
    {
      if step.Push? {
        PushEvent(step.e);
      } else if step.CallQuit? {
        QuitFromHandler(step.t);
      } else if step.RequestStop? {
        RequestStop(step.t);
      } else if step.Joined? {
        JoinHandler(step.t);
      } else if step.OutsideQuit? {
        QuitFromOutside();
      } else if step.OutsideStop? {
        StopFromOutside();
      } else {
        JoinFromOutside();
      }
    }

    /** One step of a handler thread, a producer of events or a caller of quit(). */
    method PerformOther(step: Step)
      requires Sane() && !crashed && Enabled(View(), step) && !IsEdtStep(step)
      modifies this, Parts()
      ensures View() == ApplyOther(old(View()), step) && Sane() && contexts == old(contexts)
    {
      if step.Start? || step.PointMove? || step.Return? || step.CheckReap? || step.Finish? || step.Reap? {
        PerformHandler(step);
      } else {
        PerformCall(step);
      }
    }

    method Perform(tab: Table, step: Step)
      requires Sane() && !crashed && Enabled(View(), step)
      modifies this, Parts()
      ensures View() == Apply(tab, old(View()), step) && Sane()
      ensures fresh(Parts() - old(Parts()))
    {
      if IsEdtStep(step) {
        PerformEdt(tab, step);
      } else {
        PerformOther(step);
      }
    }

    /** The steps of a legal run, one after the other. */
    method Run(tab: Table, run: seq<Step>)
      requires View() == INITIAL && Sane() && Legal(tab, run)
      modifies this
      ensures Some(View()) == After(tab, run) && Sane()
    {
      var n := 0;
      assert run[..0] == [];
      while n < |run|
        invariant 0 <= n <= |run| && Sane()
        invariant Some(View()) == After(tab, run[..n])
        invariant fresh(Parts() - old(Parts()))
      {
        PrefixStep(tab, run, n);
        Perform(tab, run[n]);
        n := n + 1;
      }
      assert run[..n] == run;
    }
  }

  lemma PrefixStep(tab: Table, run: seq<Step>, n: nat)
    requires n < |run| && Legal(tab, run)
    ensures Legal(tab, run[..n]) && Enabled(After(tab, run[..n]).value, run[n])
    ensures After(tab, run[..n + 1]) == Some(Apply(tab, After(tab, run[..n]).value, run[n]))
  {
    PrefixIsLegal(tab, run, n + 1);
    assert run[..n + 1][..n] == run[..n];
  }

  lemma TopIsParked(s: State)
    requires Good(s)
    ensures s.interrupted != [] ==> HeldFast(s.ctxs[s.interrupted[|s.interrupted| - 1]].sync)
  {
    if s.interrupted != [] { assert Role(s, s.interrupted[|s.interrupted| - 1]); }
  }

  lemma {:induction false} PrefixIsLegal(tab: Table, run: seq<Step>, n: nat)
    requires n <= |run| && Legal(tab, run)
    ensures Legal(tab, run[..n])
    decreases |run|
  {
    if n < |run| {
      PrefixIsLegal(tab, run[..|run| - 1], n);
      assert run[..|run| - 1][..n] == run[..n];
    } else {
      assert run[..n] == run;
    }
  }
}
