/**
 When quit() is safe, exactly: for every priority table, a handler of topic u can run into a
 wait cycle with the EDT if and only if some topic outranks u or quit() is also called from a
 thread that is no handler, and into a NULL or freed current_handler if and only if some topic
 outranks u. With the shipped table no topic outranks TEXT_INPUT, the topic whose handler runs
 the KILL command.
 */
module DispatchShutdown {
  import opened Wrappers
  import opened HandlerSync
  import opened Dispatch
  import opened DispatchInvariant
  import opened DispatchTheorems
  import opened DispatchDeadlock
  import opened DispatchProgress

  /** The first handler moves through its interrupt point. */
  lemma MoveFirst(tab: Table, run: seq<Step>, s: State, m: Move)
    requires After(tab, run) == Some(s) && !s.crashed
    requires |s.ctxs| == 1 && s.threads == [Thread(Working, Some(0))] && CanMove(s.ctxs[0].sync, m)
    ensures After(tab, run + [PointMove(0, m)])
         == Some(s.(ctxs := [s.ctxs[0].(sync := DoMove(s.ctxs[0].sync, m))]))
  {
    Extend(tab, run, s, PointMove(0, m));
    assert PointMoveEffect(s, 0, m).ctxs == [s.ctxs[0].(sync := DoMove(s.ctxs[0].sync, m))];
  }

  function First(u: Topic): Event { Event(0, u) }

  function Second(v: Topic): Event { Event(1, v) }

  /** One handler, of topic u, is working; the EDT is at position `edt`. */
  function Alone(u: Topic, sync: Sync, edt: EdtPc): State {
    State(multiset{}, Some(0), [], [Context(First(u), true, false, sync, false)], [Thread(Working, Some(0))],
          false, edt, None, Away, false, false, multiset{First(u)}, multiset{})
  }

  /** An event of topic u is pushed, taken from the queue and given to a new handler. */
  lemma SpawnFirst(tab: Table, u: Topic) returns (run: seq<Step>)
    ensures After(tab, run) == Some(Alone(u, FRESH, Checking))
  {
    var s0, s1 := INITIAL, INITIAL.(queue := multiset{First(u)}, pushed := multiset{First(u)});
    Extend(tab, [], s0, Push(First(u)));
    assert PushEffect(s0, First(u)) == s1 && [] + [Push(First(u))] == [Push(First(u))];
    run := [Push(First(u))];
    Extend(tab, run, s1, CheckStop);
    run := run + [CheckStop];
    run := TakeFirst(tab, u, run);
  }

  lemma TakeFirst(tab: Table, u: Topic, before: seq<Step>) returns (run: seq<Step>)
    requires After(tab, before)
            == Some(INITIAL.(queue := multiset{First(u)}, pushed := multiset{First(u)}, edt := Polling))
    ensures After(tab, run) == Some(Alone(u, FRESH, Checking))
  {
    var s2 := INITIAL.(queue := multiset{First(u)}, pushed := multiset{First(u)}, edt := Polling);
    Extend(tab, before, s2, Poll(Some(First(u))));
    run := before + [Poll(Some(First(u)))];
    var s3 := INITIAL.(edt := Dispatching(First(u)), pushed := multiset{First(u)});
    assert PollEffect(tab, s2, Some(First(u))) == s3;
    run := Serve(tab, u, run, s3);
  }

  lemma Serve(tab: Table, u: Topic, before: seq<Step>, s3: State) returns (run: seq<Step>)
    requires After(tab, before) == Some(s3)
    requires s3 == INITIAL.(edt := Dispatching(First(u)), pushed := multiset{First(u)})
    ensures After(tab, run) == Some(Alone(u, FRESH, Checking))
  {
    run := before;
    Extend(tab, run, s3, BeginDispatch);
    run := run + [BeginDispatch];
    var s4 := s3.(edt := Routing(First(u)));
    Extend(tab, run, s4, Route(true));
    run := run + [Route(true)];
    var s5 := Alone(u, FRESH, Creating).(threads := [Thread(Absent, None)]);
    assert RouteEffect(s4, true) == s5;
    run := Launch(tab, u, run);
  }

  lemma Launch(tab: Table, u: Topic, before: seq<Step>) returns (run: seq<Step>)
    requires After(tab, before) == Some(Alone(u, FRESH, Creating).(threads := [Thread(Absent, None)]))
    ensures After(tab, run) == Some(Alone(u, FRESH, Checking))
  {
    run := before;
    var s5 := Alone(u, FRESH, Creating).(threads := [Thread(Absent, None)]);
    Extend(tab, run, s5, CreateThread(true));
    run := run + [CreateThread(true)];
    var s6 := Alone(u, FRESH, Checking).(threads := [Thread(Starting, None)]);
    assert CreateThreadEffect(s5, true) == s6;
    Extend(tab, run, s6, Start(0));
    run := run + [Start(0)];
    assert StartEffect(s6, 0) == Alone(u, FRESH, Checking);
  }

  /** The rest of one turn of the EDT loop. */
  lemma FinishTurn(tab: Table, u: Topic, before: seq<Step>) returns (run: seq<Step>)
    requires After(tab, before) == Some(Alone(u, FRESH, Checking))
    ensures After(tab, run) == Some(Alone(u, FRESH, Polling))
  {
    run := before;
    var s0 := Alone(u, FRESH, Checking);
    Extend(tab, run, s0, CheckFinished);
    run := run + [CheckFinished];
    var s1 := Alone(u, FRESH, Restacking);
    Extend(tab, run, s1, ResumeTop);
    run := run + [ResumeTop];
    var s2 := Alone(u, FRESH, Ticking);
    Extend(tab, run, s2, Tick);
    run := run + [Tick];
    var s3 := Alone(u, FRESH, Idle);
    Extend(tab, run, s3, CheckStop);
    run := run + [CheckStop];
    assert Apply(tab, s3, CheckStop) == Alone(u, FRESH, Polling);
  }

  /** As Alone, with a second event pushed. */
  function Challenged(u: Topic, v: Topic, sync: Sync, edt: EdtPc): State {
    Alone(u, sync, edt).(pushed := multiset{First(u), Second(v)})
  }

  /** An event of a higher topic v arrives and the EDT takes it from the queue. */
  lemma Challenge(tab: Table, u: Topic, v: Topic) returns (run: seq<Step>)
    requires tab(u) < tab(v)
    ensures After(tab, run) == Some(Challenged(u, v, FRESH, Dispatching(Second(v))))
  {
    run := SpawnFirst(tab, u);
    run := FinishTurn(tab, u, run);
    var s0 := Alone(u, FRESH, Polling);
    Extend(tab, run, s0, Push(Second(v)));
    run := run + [Push(Second(v))];
    assert PushEffect(s0, Second(v)) == Challenged(u, v, FRESH, Polling).(queue := multiset{Second(v)});
    run := Outrank(tab, u, v, run);
  }

  lemma Outrank(tab: Table, u: Topic, v: Topic, before: seq<Step>) returns (run: seq<Step>)
    requires tab(u) < tab(v)
    requires After(tab, before) == Some(Challenged(u, v, FRESH, Polling).(queue := multiset{Second(v)}))
    ensures After(tab, run) == Some(Challenged(u, v, FRESH, Dispatching(Second(v))))
  {
    var s := Challenged(u, v, FRESH, Polling).(queue := multiset{Second(v)});
    Extend(tab, before, s, Poll(Some(Second(v))));
    run := before + [Poll(Some(Second(v)))];
    assert PollEffect(tab, s, Some(Second(v))) == Challenged(u, v, FRESH, Dispatching(Second(v)));
  }

  /** The handler calls quit() just before the EDT begins to interrupt it. */
  lemma CycleRun(tab: Table, u: Topic, v: Topic) returns (run: seq<Step>)
    requires tab(u) < tab(v)
    ensures Sound(tab, run) && WaitCycle(StateOf(tab, run), 0) && TopicAt(StateOf(tab, run), 0) == u
    ensures StateOf(tab, run).outside.Away?
  {
    run := Challenge(tab, u, v);
    run := QuitAndStop(tab, u, v, run);
    var s := Stopping(u, v);
    Extend(tab, run, s, BeginDispatch);
    run := run + [BeginDispatch];
  }

  /** The handler is joining the EDT, which is about to interrupt it. */
  function Stopping(u: Topic, v: Topic): State {
    Challenged(u, v, FRESH.(syscallOrigin := true), Dispatching(Second(v)))
    .(threads := [Thread(Joining, Some(0))], quitter := Some(0), stopRequested := true)
  }

  lemma QuitAndStop(tab: Table, u: Topic, v: Topic, before: seq<Step>) returns (run: seq<Step>)
    requires After(tab, before) == Some(Challenged(u, v, FRESH, Dispatching(Second(v))))
    ensures After(tab, run) == Some(Stopping(u, v))
  {
    var s0 := Challenged(u, v, FRESH, Dispatching(Second(v)));
    QuitFirst(tab, s0);
    Extend(tab, before, s0, CallQuit(0));
    run := Stop(tab, u, v, before + [CallQuit(0)]);
  }

  /** Stopping, before the request. */
  function Called(u: Topic, v: Topic): State {
    Stopping(u, v).(threads := [Thread(Quitting, Some(0))], stopRequested := false)
  }

  lemma QuitFirst(tab: Table, s: State)
    requires Valid(s) && |s.ctxs| == 1 && s.threads == [Thread(Working, Some(0))] && s.ctxs[0].sync == FRESH
            && !s.ctxs[0].freed
    requires s.current == Some(0) && s.quitter.None? && !s.deleted && !s.crashed
    ensures Enabled(s, CallQuit(0))
    ensures Apply(tab, s, CallQuit(0))
         == s.(threads := [Thread(Quitting, Some(0))], quitter := Some(0),
             ctxs := [s.ctxs[0].(sync := FRESH.(syscallOrigin := true))])
  {
    assert s.threads[0 := Thread(Quitting, Some(0))] == [Thread(Quitting, Some(0))];
    assert s.ctxs[0 := s.ctxs[0].(sync := FRESH.(syscallOrigin := true))]
        == [s.ctxs[0].(sync := FRESH.(syscallOrigin := true))];
  }

  lemma Stop(tab: Table, u: Topic, v: Topic, before: seq<Step>) returns (run: seq<Step>)
    requires After(tab, before) == Some(Called(u, v))
    ensures After(tab, run) == Some(Stopping(u, v))
  {
    Extend(tab, before, Called(u, v), RequestStop(0));
    run := before + [RequestStop(0)];
    assert RequestStopEffect(Called(u, v), 0) == Stopping(u, v);
  }

  // ---- A shutdown from outside beside it ----

  /** As Alone, with a thread that is no handler joining the EDT in quit(). */
  function Stopped(u: Topic, edt: EdtPc): State {
    Alone(u, FRESH, edt).(outside := Waiting, stopRequested := true)
  }

  lemma StopFromOutside(tab: Table, u: Topic) returns (run: seq<Step>)
    ensures After(tab, run) == Some(Stopped(u, Checking))
  {
    run := SpawnFirst(tab, u);
    var s := Alone(u, FRESH, Checking);
    Extend(tab, run, s, OutsideQuit);
    assert OutsideQuitEffect(s) == s.(outside := Calling);
    Extend(tab, run + [OutsideQuit], s.(outside := Calling), OutsideStop);
    run := run + [OutsideQuit] + [OutsideStop];
    assert OutsideStopEffect(s.(outside := Calling)) == Stopped(u, Checking);
  }

  /** The EDT notices, and finds no handler that has called quit(): it is going to wait for the current one. */
  lemma LateRun(tab: Table, u: Topic) returns (run: seq<Step>)
    ensures After(tab, run) == Some(Stopped(u, Disposing(0, true, TestRunning, FromCurrent)))
  {
    run := StopFromOutside(tab, u);
    Extend(tab, run, Stopped(u, Checking), CheckFinished);
    assert CheckFinishedEffect(Stopped(u, Checking)) == Stopped(u, Restacking);
    run := run + [CheckFinished];
    Extend(tab, run, Stopped(u, Restacking), ResumeTop);
    assert ResumeTopEffect(Stopped(u, Restacking)) == Stopped(u, Ticking);
    run := CleanUpAlone(tab, u, run + [ResumeTop]);
  }

  lemma CleanUpAlone(tab: Table, u: Topic, before: seq<Step>) returns (run: seq<Step>)
    requires After(tab, before) == Some(Stopped(u, Ticking))
    ensures After(tab, run) == Some(Stopped(u, Disposing(0, true, TestRunning, FromCurrent)))
  {
    Extend(tab, before, Stopped(u, Ticking), Tick);
    run := before + [Tick];
    Extend(tab, run, Stopped(u, Idle), CheckStop);
    assert CheckStopEffect(Stopped(u, Idle)) == Stopped(u, CleaningCurrent);
    run := run + [CheckStop];
    Extend(tab, run, Stopped(u, CleaningCurrent), CleanCurrent);
    run := run + [CleanCurrent];
  }

  /** A handler of any topic that calls quit() now deadlocks, with any table. */
  lemma OverlapRun(tab: Table, u: Topic) returns (run: seq<Step>)
    ensures Sound(tab, run) && WaitCycle(StateOf(tab, run), 0) && TopicAt(StateOf(tab, run), 0) == u
  {
    run := LateRun(tab, u);
    var s := StateOf(tab, run);
    LateCall(tab, s);
    LateIsDoomed(tab, run, 0);
    Extend(tab, run, s, CallQuit(0));
    var called := run + [CallQuit(0)];
    OtherLasting(s, CallQuit(0));
    var more := DoomedReachesCycle(tab, called, 0, Rank(StateOf(tab, called), 0));
    LaterCalls(tab, called, more);
    run := called + more;
  }

  lemma LateCall(tab: Table, s: State)
    requires Valid(s) && |s.ctxs| == 1 && s.threads == [Thread(Working, Some(0))] && s.ctxs[0].sync == FRESH
    requires s.current == Some(0) && !s.ctxs[0].freed && s.quitter.None? && !s.deleted && !s.crashed
    ensures Enabled(s, CallQuit(0))
    ensures !Apply(tab, s, CallQuit(0)).crashed && Apply(tab, s, CallQuit(0)).quitter == Some(0)
  {
  }

  /**
   A handler of topic u can be caught in a wait cycle after calling quit() if and only if some topic outranks u, or
   quit() may also be called from a thread that is no handler.
   */
  lemma WaitCycleIff(tab: Table, u: Topic, overlap: bool)
    ensures overlap || Outranked(tab, u) <==>
            exists run, t: nat :: Caught(tab, u, overlap, run, t)
  {
    if overlap || Outranked(tab, u) {
      var run := CaughtRun(tab, u, overlap);
    } else {
      forall run, t: nat ensures !Caught(tab, u, overlap, run, t) {
        NeverCaught(tab, u, run, t);
      }
    }
  }

  lemma CaughtRun(tab: Table, u: Topic, overlap: bool) returns (run: seq<Step>)
    requires overlap || Outranked(tab, u)
    ensures Caught(tab, u, overlap, run, 0)
  {
    if overlap {
      run := OverlapRun(tab, u);
    } else {
      var v :| tab(u) < tab(v);
      run := CycleRun(tab, u, v);
      AwayMeansNoCall(tab, run);
    }
  }

  lemma NeverCaught(tab: Table, u: Topic, run: seq<Step>, t: nat)
    requires !Outranked(tab, u)
    ensures !Caught(tab, u, false, run, t)
  {
    if Caught(tab, u, false, run, t) {
      if CalledLate(tab, run) { LateNeedsOutside(tab, run); }
      NoWaitCycle(tab, run, t);
    }
  }

  /** After the run, handler t of topic u is in a wait cycle; without overlap nobody else has called quit(). */
  ghost predicate Caught(tab: Table, u: Topic, overlap: bool, run: seq<Step>, t: nat) {
    && Sound(tab, run) && (overlap || OutsideQuit !in run)
    && t < |StateOf(tab, run).ctxs| && TopicAt(StateOf(tab, run), t) == u && WaitCycle(StateOf(tab, run), t)
  }

  lemma {:induction false} AwayMeansNoCall(tab: Table, run: seq<Step>)
    requires Sound(tab, run) && StateOf(tab, run).outside.Away?
    ensures OutsideQuit !in run
  {
    if run != [] {
      var before, step := run[..|run| - 1], run[|run| - 1];
      assert before + [step] == run;
      LastStep(tab, before, step);
      NeverBackAway(tab, StateOf(tab, before), step);
      AwayMeansNoCall(tab, before);
    }
  }

  lemma NeverBackAway(tab: Table, s: State, step: Step)
    requires Valid(s) && Enabled(s, step) && Apply(tab, s, step).outside.Away?
    ensures s.outside.Away? && !step.OutsideQuit?
  {
    if IsEdtStep(step) { EdtAway(tab, s, step); }
  }

  /** The handler parks at an interrupt point. */
  lemma ParkFirst(tab: Table, u: Topic, v: Topic) returns (run: seq<Step>)
    requires tab(u) < tab(v)
    ensures After(tab, run) == Some(Challenged(u, v, Sync(true, true, false, Asleep), Suspending(Second(v))))
  {
    run := Challenge(tab, u, v);
    var s0 := Challenged(u, v, FRESH, Dispatching(Second(v)));
    Extend(tab, run, s0, BeginDispatch);
    run := run + [BeginDispatch];
    assert BeginDispatchEffect(s0) == Challenged(u, v, Sync(true, false, false, Outside), Suspending(Second(v)));
    MoveFirst(tab, run, Challenged(u, v, Sync(true, false, false, Outside), Suspending(Second(v))), Enter);
    run := run + [PointMove(0, Enter)];
    MoveFirst(tab, run, Challenged(u, v, Sync(true, false, false, Testing), Suspending(Second(v))), Test);
    run := run + [PointMove(0, Test)];
    MoveFirst(tab, run, Challenged(u, v, Sync(true, true, false, Parking), Suspending(Second(v))), Sleep);
    run := run + [PointMove(0, Sleep)];
  }

  /** As Challenged, but the second event is disposed of and the handler is not current. */
  function Between(u: Topic, v: Topic, sync: Sync, edt: EdtPc, stack: seq<nat>): State {
    Challenged(u, v, sync, edt).(current := None, interrupted := stack, disposed := multiset{Second(v)})
  }

  /** It is put on the stack, and nobody handles the second event. */
  lemma StackFirst(tab: Table, u: Topic, v: Topic) returns (run: seq<Step>)
    requires tab(u) < tab(v)
    ensures After(tab, run) == Some(Between(u, v, Sync(true, true, false, Asleep), Checking, [0]))
  {
    run := ParkFirst(tab, u, v);
    var asleep := Sync(true, true, false, Asleep);
    var s0 := Challenged(u, v, asleep, Suspending(Second(v)));
    Extend(tab, run, s0, PollSuspended);
    run := run + [PollSuspended];
    var s1 := Between(u, v, asleep, Routing(Second(v)), [0]).(disposed := multiset{});
    assert PollSuspendedEffect(s0) == s1;
    Extend(tab, run, s1, Route(false));
    run := run + [Route(false)];
    assert RouteEffect(s1, false) == Between(u, v, asleep, Checking, [0]);
  }

  /** So the first handler is resumed; it is not current again yet. */
  lemma ResumeFirst(tab: Table, u: Topic, v: Topic) returns (run: seq<Step>)
    requires tab(u) < tab(v)
    ensures After(tab, run) == Some(Between(u, v, Sync(false, true, false, Waking), Installing(0), []))
  {
    run := StackFirst(tab, u, v);
    run := Unstack(tab, u, v, run);
  }

  lemma Unstack(tab: Table, u: Topic, v: Topic, before: seq<Step>) returns (run: seq<Step>)
    requires After(tab, before) == Some(Between(u, v, Sync(true, true, false, Asleep), Checking, [0]))
    ensures After(tab, run) == Some(Between(u, v, Sync(false, true, false, Waking), Installing(0), []))
  {
    var s := Between(u, v, Sync(true, true, false, Asleep), Checking, [0]);
    Extend(tab, before, s, CheckFinished);
    assert CheckFinishedEffect(s) == Between(u, v, Sync(true, true, false, Asleep), Restacking, [0]);
    run := Unpark(tab, u, v, before + [CheckFinished]);
  }

  lemma Unpark(tab: Table, u: Topic, v: Topic, before: seq<Step>) returns (run: seq<Step>)
    requires After(tab, before) == Some(Between(u, v, Sync(true, true, false, Asleep), Restacking, [0]))
    ensures After(tab, run) == Some(Between(u, v, Sync(false, true, false, Waking), Installing(0), []))
  {
    var s := Between(u, v, Sync(true, true, false, Asleep), Restacking, [0]);
    Extend(tab, before, s, ResumeTop);
    run := before + [ResumeTop];
    assert ResumeTopEffect(s) == Between(u, v, Sync(false, true, false, Waking), Installing(0), []);
  }

  /** It leaves the interrupt point and can call quit() before the EDT has made it current. */
  lemma WindowRun(tab: Table, u: Topic, v: Topic) returns (run: seq<Step>)
    requires tab(u) < tab(v)
    ensures After(tab, run) == Some(Between(u, v, FRESH, Installing(0), []))
  {
    run := ResumeFirst(tab, u, v);
    MoveFirst(tab, run, Between(u, v, Sync(false, true, false, Waking), Installing(0), []), Reacquire);
    run := run + [PointMove(0, Reacquire)];
    MoveFirst(tab, run, Between(u, v, Sync(false, true, false, Testing), Installing(0), []), Test);
    run := run + [PointMove(0, Test)];
  }

  /** After some run a handler of topic u calls quit() and finds current_handler unusable. */
  ghost predicate QuitCanCrash(tab: Table, u: Topic, run: seq<Step>, t: nat) {
    && Sound(tab, run) && t < |StateOf(tab, run).ctxs| && TopicAt(StateOf(tab, run), t) == u
    && Enabled(StateOf(tab, run), CallQuit(t))
    && Apply(tab, StateOf(tab, run), CallQuit(t)).crashed
  }

  lemma QuitInWindow(tab: Table, s: State)
    requires Valid(s) && |s.ctxs| == 1 && s.threads == [Thread(Working, Some(0))] && s.ctxs[0].sync == FRESH
    requires s.current.None? && s.quitter.None? && !s.crashed
    ensures Enabled(s, CallQuit(0)) && Apply(tab, s, CallQuit(0)).crashed
  {
  }

  lemma CrashRun(tab: Table, u: Topic, v: Topic) returns (run: seq<Step>)
    requires tab(u) < tab(v)
    ensures QuitCanCrash(tab, u, run, 0)
  {
    run := WindowRun(tab, u, v);
    QuitInWindow(tab, StateOf(tab, run));
  }

  /**
   A handler of topic u can call quit() while current_handler is NULL if and only if some topic
   outranks u: only an interrupted handler is resumed before it is current again.
   */
  lemma QuitCrashIff(tab: Table, u: Topic)
    ensures Outranked(tab, u) <==> exists run, t: nat :: QuitCanCrash(tab, u, run, t)
  {
    if Outranked(tab, u) {
      var v :| tab(u) < tab(v);
      var run := CrashRun(tab, u, v);
    } else {
      forall run, t: nat
        ensures !QuitCanCrash(tab, u, run, t)
      {
        if QuitCanCrash(tab, u, run, t) {
          QuitFindsItself(tab, run, t);
        }
      }
    }
  }

  /**
   With the shipped topics a TEXT_INPUT handler can call quit() in every reachable state without reading anything NULL
   or freed, and it deadlocks only if the EDT had begun to dispose of it for a shutdown from outside.
   */
  lemma ShippedShutdownIsSafe(run: seq<Step>, t: nat)
    requires Sound(ShippedPriority, run)
    requires t < |StateOf(ShippedPriority, run).ctxs| && TopicAt(StateOf(ShippedPriority, run), t) == TEXT_INPUT
    ensures WaitCycle(StateOf(ShippedPriority, run), t) ==> CalledLate(ShippedPriority, run) && OutsideQuit in run
    ensures !QuitCanCrash(ShippedPriority, TEXT_INPUT, run, t)
  {
    if CalledLate(ShippedPriority, run) {
      LateNeedsOutside(ShippedPriority, run);
    } else {
      NoWaitCycle(ShippedPriority, run, t);
    }
    if Enabled(StateOf(ShippedPriority, run), CallQuit(t)) {
      QuitFindsItself(ShippedPriority, run, t);
    }
  }

  /** That can happen: KILL beside a shutdown from outside, and then both threads wait for ever. */
  lemma ShippedShutdownCanDeadlock() returns (run: seq<Step>)
    ensures Sound(ShippedPriority, run) && |StateOf(ShippedPriority, run).ctxs| > 0
    ensures TopicAt(StateOf(ShippedPriority, run), 0) == TEXT_INPUT
    ensures forall more :: Sound(ShippedPriority, run + more) ==>
              WaitCycle(StateOf(ShippedPriority, run + more), 0) && !StateOf(ShippedPriority, run + more).edt.Ended?
  {
    run := OverlapRun(ShippedPriority, TEXT_INPUT);
    forall more | Sound(ShippedPriority, run + more)
      ensures WaitCycle(StateOf(ShippedPriority, run + more), 0) && !StateOf(ShippedPriority, run + more).edt.Ended?
    {
      WaitCycleIsForEver(ShippedPriority, run, more, 0);
    }
  }

  // ---- An interruption that comes too late ----

  /** After the run the EDT waits for a handler of topic u to suspend that cannot any more. */
  ghost predicate Hangs(tab: Table, u: Topic, run: seq<Step>) {
    && Sound(tab, run) && Stuck(StateOf(tab, run))
    && TopicAt(StateOf(tab, run), StateOf(tab, run).current.value) == u
  }

  /** The handler returns between the test whether it has finished and the interruption. */
  lemma HangRun(tab: Table, u: Topic, v: Topic) returns (run: seq<Step>)
    requires tab(u) < tab(v)
    ensures Hangs(tab, u, run)
  {
    run := Challenge(tab, u, v);
    var s0 := Challenged(u, v, FRESH, Dispatching(Second(v)));
    Extend(tab, run, s0, Return(0));
    run := run + [Return(0)];
    var s1 := s0.(threads := [Thread(Returned, Some(0))]);
    assert SetPc(s0, 0, Returned) == s1;
    Extend(tab, run, s1, BeginDispatch);
    run := run + [BeginDispatch];
  }

  /**
   The EDT can come to wait for ever in the interruption of a handler of topic u if and only if some topic outranks u:
   nothing keeps the handler from returning while the event that is to interrupt it is dispatched.
   */
  lemma HangIff(tab: Table, u: Topic)
    ensures Outranked(tab, u) <==> exists run :: Hangs(tab, u, run)
    ensures forall run, more :: Hangs(tab, u, run) && Sound(tab, run + more) ==> Hangs(tab, u, run + more)
  {
    if Outranked(tab, u) {
      var v :| tab(u) < tab(v);
      var run := HangRun(tab, u, v);
    }
    forall run | Hangs(tab, u, run) ensures Outranked(tab, u) {
      StrictPriorityStack(tab, run);
      PollSuspendedRank(tab, StateOf(tab, run));
    }
    forall run, more | Hangs(tab, u, run) && Sound(tab, run + more) ensures Hangs(tab, u, run + more) {
      StuckIsForEver(tab, run, more);
    }
  }

  // ---- quit() from a thread that is no handler ----

  /** Right at the start, as when a later module fails to start, it reads a NULL current_handler. */
  lemma OutsideReadsNull(tab: Table)
    ensures Sound(tab, []) && Enabled(StateOf(tab, []), OutsideQuit)
    ensures StateOf(tab, []).current.None? && Apply(tab, StateOf(tab, []), OutsideQuit).crashed
  {
  }

  /** Between the disposal of a finished handler and the clearing of current_handler it reads a freed context. */
  lemma OutsideReadsFreed(tab: Table, u: Topic) returns (run: seq<Step>)
    ensures Sound(tab, run) && Enabled(StateOf(tab, run), OutsideQuit) && StateOf(tab, run).edt.Clearing?
    ensures StateOf(tab, run).current == Some(0) && StateOf(tab, run).ctxs[0].freed
    ensures Apply(tab, StateOf(tab, run), OutsideQuit).crashed
  {
    run := FinishFirst(tab, u);
    var s := Finished(u, Disposing(0, false, TestRunning, FromRun), false);
    Extend(tab, run, Finished(u, Checking, false), CheckFinished);
    assert CheckFinishedEffect(Finished(u, Checking, false)) == s;
    run := DisposeFinished(tab, u, run + [CheckFinished]);
  }

  /** The handler has run to its end, and its context is freed or not. */
  function Finished(u: Topic, edt: EdtPc, freed: bool): State {
    Alone(u, FRESH, edt).(ctxs := [Context(First(u), false, false, FRESH, freed)], threads := [Thread(Gone, Some(0))],
                          disposed := if freed then multiset{First(u)} else multiset{})
  }

  lemma FinishFirst(tab: Table, u: Topic) returns (run: seq<Step>)
    ensures After(tab, run) == Some(Finished(u, Checking, false))
  {
    run := SpawnFirst(tab, u);
    var s := Alone(u, FRESH, Checking);
    Extend(tab, run, s, Return(0));
    var s1 := s.(threads := [Thread(Returned, Some(0))]);
    assert SetPc(s, 0, Returned) == s1;
    run := ReapFirst(tab, u, run + [Return(0)]);
  }

  lemma ReapFirst(tab: Table, u: Topic, before: seq<Step>) returns (run: seq<Step>)
    requires After(tab, before) == Some(Alone(u, FRESH, Checking).(threads := [Thread(Returned, Some(0))]))
    ensures After(tab, run) == Some(Finished(u, Checking, false))
  {
    var s1 := Alone(u, FRESH, Checking).(threads := [Thread(Returned, Some(0))]);
    var s2 := Alone(u, FRESH, Checking).(threads := [Thread(Finishing, Some(0))]);
    Extend(tab, before, s1, CheckReap(0));
    assert CheckReapEffect(s1, 0) == s2;
    run := StopFirst(tab, u, before + [CheckReap(0)]);
  }

  lemma StopFirst(tab: Table, u: Topic, before: seq<Step>) returns (run: seq<Step>)
    requires After(tab, before) == Some(Alone(u, FRESH, Checking).(threads := [Thread(Finishing, Some(0))]))
    ensures After(tab, run) == Some(Finished(u, Checking, false))
  {
    var s2 := Alone(u, FRESH, Checking).(threads := [Thread(Finishing, Some(0))]);
    Extend(tab, before, s2, Finish(0));
    run := before + [Finish(0)];
    assert FinishEffect(s2, 0) == Finished(u, Checking, false);
  }

  lemma DisposeFinished(tab: Table, u: Topic, before: seq<Step>) returns (run: seq<Step>)
    requires After(tab, before) == Some(Finished(u, Disposing(0, false, TestRunning, FromRun), false))
    ensures After(tab, run) == Some(Finished(u, Clearing, true))
  {
    var s := Finished(u, Disposing(0, false, TestRunning, FromRun), false);
    Extend(tab, before, s, DisposeStep);
    var s' := Finished(u, Disposing(0, false, Release, FromRun), false);
    assert s.ctxs[0 := s.ctxs[0]] == s.ctxs && DisposeEffect(s) == s';
    Extend(tab, before + [DisposeStep], s', DisposeStep);
    run := before + [DisposeStep] + [DisposeStep];
    assert ReleaseEffect(s') == Finished(u, Clearing, true);
  }
}
