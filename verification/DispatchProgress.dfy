/**
 What the EDT can always get out of: it never waits for a handler it keeps suspended, a shutdown that is not
 deadlocked can always complete, and when the wait of an interruption can end.
 */
module DispatchProgress {
  import opened Wrappers
  import opened HandlerSync
  import opened Dispatch
  import opened DispatchInvariant
  import opened DispatchLedger
  import opened DispatchTheorems
  import opened DispatchDeadlock

  // ---- The suspend flag of the context in the EDT's hands ----

  /** An interrupted handler taken from the stack in cleanup, before it is resumed. */
  predicate StillHeld(s: State, c: nat)
    requires c < |s.ctxs|
  {
    && s.edt.Disposing? && s.edt.caller.FromStack? && HeldFast(s.ctxs[c].sync)
    && (s.edt.stage.TestRunning? || s.edt.stage.TestSuspended? || s.edt.stage.ResumeIt?)
  }

  /** The EDT keeps its ward suspended only while it interrupts it, and until cleanup has resumed it. */
  predicate WardFlag(s: State) {
    Ward(s).Some? && Ward(s).value < |s.ctxs| && s.ctxs[Ward(s).value].sync.suspendFlag ==>
      s.edt.Suspending? || StillHeld(s, Ward(s).value)
  }

  lemma DisposeFlag(s: State)
    requires Good(s) && WardFlag(s) && s.edt.Disposing?
    ensures WardFlag(DisposeEffect(s))
  {
    assert Role(s, s.edt.c);
  }

  lemma RunFlag(tab: Table, s: State, step: Step)
    requires Good(s) && WardFlag(s) && Enabled(s, step)
    requires step.CheckStop? || step.Poll? || step.CheckFinished? || step.ClearCurrent? || step.Install? || step.Tick?
    ensures WardFlag(ApplyEdt(tab, s, step))
  {
  }

  lemma BeginDispatchFlag(s: State)
    requires Good(s) && WardFlag(s) && s.edt.Dispatching?
    ensures WardFlag(BeginDispatchEffect(s))
  {
  }

  lemma SpawnFlag(tab: Table, s: State, step: Step)
    requires Good(s) && WardFlag(s) && Enabled(s, step) && (step.Route? || step.CreateThread?)
    ensures WardFlag(ApplyEdt(tab, s, step))
  {
  }

  lemma PollSuspendedFlag(s: State)
    requires Good(s) && WardFlag(s) && s.edt.Suspending?
    ensures WardFlag(PollSuspendedEffect(s))
  {
  }

  lemma ResumeTopFlag(s: State)
    requires Good(s) && WardFlag(s) && s.edt.Restacking?
    ensures WardFlag(ResumeTopEffect(s))
  {
  }

  lemma CleanCurrentFlag(s: State)
    requires Good(s) && WardFlag(s) && s.edt.CleaningCurrent?
    ensures WardFlag(CleanCurrentEffect(s))
  {
  }

  lemma CleanStackFlag(s: State)
    requires Good(s) && WardFlag(s) && s.edt.CleaningStack?
    ensures WardFlag(CleanStackEffect(s))
  {
    if s.interrupted != [] {
      assert s.interrupted[|s.interrupted| - 1] in s.interrupted;
      assert Role(s, s.interrupted[|s.interrupted| - 1]);
    }
  }

  lemma CleanQueueFlag(s: State, top: Option<Event>)
    requires Good(s) && WardFlag(s) && s.edt.CleaningQueue?
    ensures WardFlag(CleanQueueEffect(s, top))
  {
  }

  lemma EdtFlag(tab: Table, s: State, step: Step)
    requires Good(s) && WardFlag(s) && Enabled(s, step) && IsEdtStep(step)
    ensures WardFlag(ApplyEdt(tab, s, step))
  {
    match step
    case BeginDispatch => BeginDispatchFlag(s);
    case PollSuspended => PollSuspendedFlag(s);
    case Route(_) | CreateThread(_) => SpawnFlag(tab, s, step);
    case ResumeTop => ResumeTopFlag(s);
    case CleanCurrent => CleanCurrentFlag(s);
    case CleanStack => CleanStackFlag(s);
    case CleanQueue(top) => CleanQueueFlag(s, top);
    case DisposeStep => DisposeFlag(s);
    case _ => RunFlag(tab, s, step);
  }

  /** Nobody but the EDT sets a flag, and nobody but the handler itself moves it. */
  lemma PointMoveFlag(s: State, t: nat, m: Move)
    requires Good(s) && WardFlag(s) && ThreadAt(s, t, Working) && CanMove(s.ctxs[Mine(s, t)].sync, m)
    ensures WardFlag(PointMoveEffect(s, t, m))
  {
    OwnContext(s, t);
    assert Role(s, t);
    MoveKeepsSync(s.ctxs[t].sync, m);
  }

  lemma QuitFlag(s: State, t: nat)
    requires Good(s) && WardFlag(s) && InHandlerCode(s, t) && s.quitter.None?
    ensures WardFlag(CallQuitEffect(s, t))
  {
    QuitterIsWard(s, t);
  }

  lemma FreeFlag(s: State, t: nat)
    requires Good(s) && WardFlag(s)
    ensures ThreadAt(s, t, Finishing) ==> WardFlag(FinishEffect(s, t))
    ensures ThreadAt(s, t, Reaping) ==> WardFlag(ReapEffect(s, t))
  {
  }

  /** The steps that leave the EDT, the current handler and all handshakes alone. */
  lemma PlainFlag(s: State, step: Step)
    requires Good(s) && WardFlag(s) && Enabled(s, step) && !IsEdtStep(step)
    requires !step.PointMove? && !step.CallQuit? && !step.Finish? && !step.Reap?
    ensures WardFlag(ApplyOther(s, step))
  {
    var s' := ApplyOther(s, step);
    assert s'.edt == s.edt && s'.current == s.current && s'.ctxs == s.ctxs;
  }

  lemma OtherFlag(s: State, step: Step)
    requires Good(s) && WardFlag(s) && Enabled(s, step) && !IsEdtStep(step)
    ensures WardFlag(ApplyOther(s, step))
  {
    match step
    case PointMove(t, m) => PointMoveFlag(s, t, m);
    case CallQuit(t) => QuitFlag(s, t);
    case Finish(t) => FreeFlag(s, t);
    case Reap(t) => FreeFlag(s, t);
    case _ => PlainFlag(s, step);
  }

  lemma StepFlag(tab: Table, s: State, step: Step)
    requires Good(s) && WardFlag(s) && Enabled(s, step)
    ensures WardFlag(Apply(tab, s, step))
  {
    if IsEdtStep(step) { EdtFlag(tab, s, step); } else { OtherFlag(s, step); }
  }

  lemma {:induction false} ReachableFlag(tab: Table, run: seq<Step>)
    requires Sound(tab, run)
    ensures Good(StateOf(tab, run)) && WardFlag(StateOf(tab, run))
  {
    ReachableIsGood(tab, run);
    if run != [] {
      var before, step := run[..|run| - 1], run[|run| - 1];
      assert before + [step] == run;
      LastStep(tab, before, step);
      ReachableFlag(tab, before);
      StepFlag(tab, StateOf(tab, before), step);
    }
  }

  /** The EDT never waits for the end of a handler that it keeps suspended. */
  lemma NeverWaitsForSuspended(tab: Table, run: seq<Step>)
    requires Sound(tab, run) && StateOf(tab, run).edt.Disposing? && StateOf(tab, run).edt.stage.Spin?
    ensures !StateOf(tab, run).ctxs[StateOf(tab, run).edt.c].sync.suspendFlag
  {
    ReachableFlag(tab, run);
  }

  // ---- Completing a shutdown ----

  /** In cleanup and not deadlocked. */
  ghost predicate Going(s: State) {
    Good(s) && WardFlag(s) && !s.crashed && InCleanup(s) && (s.edt.Disposing? ==> !Doomed(s, s.edt.c))
  }

  /** How far a handler is from the end of its wait and then of its function. */
  function SyncRank(y: Sync): nat {
    if y.suspendFlag then
      match y.at
      case Outside => 23
      case Testing => 22
      case Parking => 21
      case _ => 20
    else
      match y.at
      case Outside => 8
      case Testing => 9
      case _ => 10
  }

  function ThreadRank(s: State, c: nat): nat {
    if c >= |s.threads| || c >= |s.ctxs| then 0
    else match s.threads[c].pc
      case Starting => 11
      case Working => SyncRank(s.ctxs[c].sync)
      case Returned => 7
      case Finishing => 6
      case _ => 0
  }

  function StageRank(stage: Stage): nat {
    match stage
    case TestRunning => 6
    case TestSuspended => 5
    case ResumeIt => 4
    case Decide => 3
    case Spin => 2
    case Mark => 2
    case Release => 1
  }

  /** What cleanup has left to do. */
  function CleanRank(s: State): nat {
    |s.queue| + 1000 * |s.interrupted| +
    match s.edt
    case CleaningCurrent => 200
    case Disposing(c, _, stage, _) => 3 + StageRank(stage) + ThreadRank(s, c)
    case CleaningStack => 2
    case CleaningQueue => 1
    case _ => 0
  }

  /** The way a handler goes that the EDT waits for. */
  function HandlerStep(s: State, c: nat): Step
    requires c < |s.threads| && c < |s.ctxs|
  {
    match s.threads[c].pc
    case Starting => Start(c)
    case Working =>
      (match s.ctxs[c].sync.at
       case Outside => Return(c)
       case Testing => PointMove(c, Test)
       case Parking => PointMove(c, Sleep)
       case _ => PointMove(c, Reacquire))
    case Returned => CheckReap(c)
    case _ => Finish(c)
  }

  /** The EDT is at a test that the handler's critical section blocks. */
  predicate Blocked(s: State) {
    s.edt.Disposing? && (s.edt.stage.TestSuspended? || s.edt.stage.ResumeIt?) && !CanLock(s, s.edt.c)
  }

  /** The EDT waits for the handler. */
  predicate Waits(s: State) {
    s.edt.Disposing? && s.edt.c < |s.ctxs| && s.edt.stage.Spin? && s.ctxs[s.edt.c].running
  }

  lemma BlockedAdvances(s: State)
    requires Going(s) && Blocked(s)
    ensures var c := s.edt.c;
            && Enabled(s, HandlerStep(s, c)) && Moved(s, ApplyOther(s, HandlerStep(s, c)))
  {
    assert Role(s, s.edt.c);
  }

  lemma WaitAdvances(s: State)
    requires Going(s) && Waits(s)
    ensures var c := s.edt.c;
            && Enabled(s, HandlerStep(s, c)) && Moved(s, ApplyOther(s, HandlerStep(s, c)))
  {
    assert Role(s, s.edt.c);
    StartIsOwn(s, s.edt.c);
  }

  lemma StartIsOwn(s: State, c: nat)
    requires Good(s) && c < |s.threads|
    ensures s.threads[c].pc.Starting? ==> CurrentUsable(s)
  {
    if s.threads[c].pc.Starting? { StartFindsOwnContext(s, c); }
  }

  /** The handler at hand has come nearer to its end, and nothing else has changed. */
  predicate Moved(s: State, s': State) {
    && s.edt.Disposing? && s'.edt == s.edt && s'.interrupted == s.interrupted && s'.queue == s.queue
    && ThreadRank(s', s.edt.c) < ThreadRank(s, s.edt.c)
    && s'.crashed == s.crashed && (Doomed(s', s.edt.c) ==> Doomed(s, s.edt.c))
  }

  lemma MovedGoing(s: State, s': State)
    requires Going(s) && Moved(s, s') && Good(s') && WardFlag(s')
    ensures Going(s') && CleanRank(s') < CleanRank(s)
  {
  }

  lemma HandlerAdvances(tab: Table, s: State) returns (step: Step)
    requires Going(s) && (Blocked(s) || Waits(s))
    ensures Enabled(s, step) && Going(Apply(tab, s, step)) && CleanRank(Apply(tab, s, step)) < CleanRank(s)
    ensures Apply(tab, s, step).edt == s.edt
  {
    step := HandlerStep(s, s.edt.c);
    if Blocked(s) { BlockedAdvances(s); } else { WaitAdvances(s); }
    OtherStepKeeps(s, step);
    OtherFlag(s, step);
    MovedGoing(s, ApplyOther(s, step));
  }

  lemma ResumeBrings(y: Sync)
    requires Coherent(y)
    ensures SyncRank(Resume(y)) <= SyncRank(y)
  {
  }

  lemma DisposeAdvances(s: State)
    requires Going(s) && s.edt.Disposing? && !Blocked(s) && !Waits(s)
    ensures var s' := DisposeEffect(s);
            && Enabled(s, DisposeStep) && CleanRank(s') < CleanRank(s)
            && InCleanup(s') && !s'.crashed && (s'.edt.Disposing? ==> !Doomed(s', s'.edt.c))
  {
    assert Role(s, s.edt.c);
    ResumeBrings(s.ctxs[s.edt.c].sync);
  }

  lemma CurrentAdvances(s: State)
    requires Going(s) && s.edt.CleaningCurrent?
    ensures var s' := CleanCurrentEffect(s);
            && CleanRank(s') < CleanRank(s)
            && InCleanup(s') && !s'.crashed && (s'.edt.Disposing? ==> !Doomed(s', s'.edt.c))
  {
    if s.current.Some? { assert Role(s, s.current.value); }
  }

  lemma StackAdvances(s: State)
    requires Going(s) && s.edt.CleaningStack?
    ensures var s' := CleanStackEffect(s);
            && CleanRank(s') < CleanRank(s)
            && InCleanup(s') && !s'.crashed && (s'.edt.Disposing? ==> !Doomed(s', s'.edt.c))
  {
    if s.interrupted != [] {
      assert s.interrupted[|s.interrupted| - 1] in s.interrupted;
      assert Role(s, s.interrupted[|s.interrupted| - 1]);
    }
  }

  lemma QueueAdvances(s: State) returns (top: Option<Event>)
    requires Going(s) && s.edt.CleaningQueue?
    ensures TopOf(s.queue, top) && CleanRank(CleanQueueEffect(s, top)) < CleanRank(s)
    ensures top.None? ==> s.queue == multiset{}
  {
    if s.queue == multiset{} {
      top := None;
    } else {
      var e :| e in s.queue;
      top := Some(e);
    }
  }

  lemma EdtGoing(tab: Table, s: State, step: Step)
    requires Going(s) && Enabled(s, step) && IsEdtStep(step)
    requires var s' := ApplyEdt(tab, s, step);
             InCleanup(s') && !s'.crashed && (s'.edt.Disposing? ==> !Doomed(s', s'.edt.c))
    ensures Going(ApplyEdt(tab, s, step))
  {
    EdtStepKeeps(tab, s, step);
    EdtFlag(tab, s, step);
  }

  /** A step of the EDT itself that brings the end nearer. */
  lemma EdtAdvances(tab: Table, s: State) returns (step: Step)
    requires Going(s) && !s.edt.Ended? && !Blocked(s) && !Waits(s)
    ensures IsEdtStep(step) && Enabled(s, step)
    ensures var s' := ApplyEdt(tab, s, step);
            && InCleanup(s') && !s'.crashed && (s'.edt.Disposing? ==> !Doomed(s', s'.edt.c))
            && CleanRank(s') < CleanRank(s) && (s'.edt.Ended? ==> s'.queue == multiset{})
  {
    match s.edt
    case CleaningCurrent => CurrentAdvances(s); step := CleanCurrent;
    case CleaningStack => StackAdvances(s); step := CleanStack;
    case CleaningQueue => var top := QueueAdvances(s); step := CleanQueue(top);
    case Disposing(_, _, _, _) => DisposeAdvances(s); step := DisposeStep;
  }

  /** In cleanup some thread can always bring the end nearer, unless the EDT waits for its own caller. */
  lemma CleanAdvances(tab: Table, s: State) returns (step: Step)
    requires Going(s) && !s.edt.Ended?
    ensures Enabled(s, step)
    ensures var s' := Apply(tab, s, step);
            Going(s') && CleanRank(s') < CleanRank(s) && (s'.edt.Ended? ==> s'.queue == multiset{})
  {
    if Blocked(s) || Waits(s) {
      step := HandlerAdvances(tab, s);
    } else {
      step := EdtAdvances(tab, s);
      EdtGoing(tab, s, step);
    }
  }

  lemma CompletesFrom(tab: Table, run: seq<Step>, rank: nat) returns (more: seq<Step>)
    requires Sound(tab, run) && Going(StateOf(tab, run)) && !StateOf(tab, run).edt.Ended?
    requires CleanRank(StateOf(tab, run)) <= rank
    ensures Sound(tab, run + more) && StateOf(tab, run + more).edt.Ended?
    ensures StateOf(tab, run + more).queue == multiset{}
    decreases rank
  {
    var s := StateOf(tab, run);
    var step := CleanAdvances(tab, s);
    Extend(tab, run, s, step);
    var next := run + [step];
    if StateOf(tab, next).edt.Ended? {
      more := [step];
    } else {
      var rest := CompletesFrom(tab, next, rank - 1);
      more := [step] + rest;
      Chained(run, step, rest);
    }
  }

  /** Cleanup can be completed after a run. */
  ghost predicate CanEnd(tab: Table, run: seq<Step>) {
    exists more :: Sound(tab, run + more) && StateOf(tab, run + more).edt.Ended?
  }

  /**
   A cleanup that has begun can be completed if and only if the EDT is not waiting for a caller of quit(): all
   interrupted handlers are resumed and let run to their end, and the queue is drained.
   */
  lemma ShutdownCompletesIff(tab: Table, run: seq<Step>)
    requires Sound(tab, run) && InCleanup(StateOf(tab, run))
    ensures var s := StateOf(tab, run); CanEnd(tab, run) <==> !(s.edt.Disposing? && Doomed(s, s.edt.c))
  {
    ReachableFlag(tab, run);
    var s := StateOf(tab, run);
    if s.edt.Disposing? && Doomed(s, s.edt.c) {
      forall more | Sound(tab, run + more) ensures !StateOf(tab, run + more).edt.Ended? {
        DoomedIsForEver(tab, run, more, s.edt.c);
      }
    } else if s.edt.Ended? {
      assert run + [] == run;
    } else {
      var more := CompletesFrom(tab, run, CleanRank(s));
    }
  }

  /** The EDT only ends when it has found the queue empty. */
  lemma EndsDrained(tab: Table, run: seq<Step>, step: Step)
    requires Sound(tab, run + [step])
    ensures Legal(tab, run)
    ensures !StateOf(tab, run).edt.Ended? && StateOf(tab, run + [step]).edt.Ended? ==>
              var s := StateOf(tab, run + [step]); s.queue == multiset{} && s.interrupted == []
  {
    LastStep(tab, run, step);
    ReachableIsGood(tab, run);
    var s := StateOf(tab, run);
    if !s.edt.Ended? && Apply(tab, s, step).edt.Ended? { OnlyDrainingEnds(tab, s, step); }
  }

  lemma OnlyDrainingEnds(tab: Table, s: State, step: Step)
    requires Valid(s) && Enabled(s, step) && !s.edt.Ended? && Apply(tab, s, step).edt.Ended?
    ensures step == CleanQueue(None) && s.edt.CleaningQueue? && s.queue == multiset{}
    ensures Apply(tab, s, step) == s.(edt := Ended)
  {
    if IsEdtStep(step) { EdtEnds(tab, s, step); } else { OthersKeepEdt(s, step); }
  }

  lemma EdtEnds(tab: Table, s: State, step: Step)
    requires Valid(s) && Enabled(s, step) && IsEdtStep(step) && ApplyEdt(tab, s, step).edt.Ended?
    ensures step == CleanQueue(None) && s.edt.CleaningQueue? && s.queue == multiset{}
  {
  }

  lemma OthersKeepEdt(s: State, step: Step)
    requires Valid(s) && Enabled(s, step) && !IsEdtStep(step)
    ensures ApplyOther(s, step).edt == s.edt
  {
  }

  // ---- The wait in edt_interrupt_handler ----

  /** The current handler has left its function, or is in quit(): it will not reach an interrupt point. */
  predicate PastPoints(s: State)
    requires Valid(s) && s.edt.Suspending?
  {
    !s.threads[s.current.value].pc.Starting? && !s.threads[s.current.value].pc.Working?
  }

  /** The EDT waits for a handler to suspend that cannot any more. */
  predicate Stuck(s: State)
    requires Valid(s)
  {
    s.edt.Suspending? && PastPoints(s)
  }

  lemma OwnStepWhileStuck(s: State, step: Step, t: nat)
    requires Good(s) && Stuck(s) && Enabled(s, step) && Actor(step) == Some(t) && s.current == Some(t)
    ensures var s' := ApplyOther(s, step);
            s'.edt == s.edt && s'.current == s.current && |s'.threads| == |s.threads|
            && !s'.threads[t].pc.Starting? && !s'.threads[t].pc.Working?
  {
  }

  /** The EDT waits with the same event for the same handler, and no context has changed its event. */
  predicate SameWait(s: State, s': State) {
    s'.edt == s.edt && s'.current == s.current && Lasting(s, s')
  }

  lemma StaysStuck(tab: Table, s: State, step: Step)
    requires Good(s) && Stuck(s) && Enabled(s, step)
    ensures var s' := Apply(tab, s, step); Stuck(s') && s'.edt == s.edt && s'.current == s.current
  {
    var c := s.current.value;
    assert Role(s, c);
    if IsEdtStep(step) {
      assert step == PollSuspended && PollSuspendedEffect(s) == s;
    } else if Actor(step) == Some(c) {
      OwnStepWhileStuck(s, step, c);
    } else {
      OthersLeave(s, step, c);
    }
  }

  lemma StuckStep(tab: Table, s0: State, s: State, step: Step)
    requires Good(s) && Stuck(s) && Enabled(s, step) && SameWait(s0, s)
    ensures Stuck(Apply(tab, s, step)) && SameWait(s0, Apply(tab, s, step))
  {
    StaysStuck(tab, s, step);
    if IsEdtStep(step) { EdtLasting(tab, s, step); } else { OtherLasting(s, step); }
    StillSame(s0, s, Apply(tab, s, step));
  }

  lemma StillSame(s0: State, s: State, s': State)
    requires SameWait(s0, s) && SameWait(s, s')
    ensures SameWait(s0, s')
  {
  }

  lemma {:induction false} StuckIsForEver(tab: Table, run: seq<Step>, more: seq<Step>)
    requires Sound(tab, run) && Stuck(StateOf(tab, run)) && Sound(tab, run + more)
    ensures Stuck(StateOf(tab, run + more)) && SameWait(StateOf(tab, run), StateOf(tab, run + more))
    decreases |more|
  {
    if more == [] {
      assert run + more == run;
    } else {
      var most, step := more[..|more| - 1], more[|more| - 1];
      assert run + more == (run + most) + [step];
      LastStep(tab, run + most, step);
      StuckIsForEver(tab, run, most);
      ReachableIsGood(tab, run + most);
      StuckStep(tab, StateOf(tab, run), StateOf(tab, run + most), step);
    }
  }

  /** How far the current handler is from its wait loop, and the EDT from seeing it there. */
  function SuspendRank(s: State): nat
    requires Valid(s) && s.edt.Suspending?
  {
    if s.threads[s.current.value].pc.Starting? then 5
    else
      match s.ctxs[s.current.value].sync.at
      case Outside => 4
      case Testing => 3
      case Parking => 2
      case _ => 1
  }

  function SuspendStep(s: State): Step
    requires Valid(s) && s.edt.Suspending?
  {
    var c := s.current.value;
    if s.threads[c].pc.Starting? then Start(c)
    else
      match s.ctxs[c].sync.at
      case Outside => PointMove(c, Enter)
      case Testing => PointMove(c, Test)
      case Parking => PointMove(c, Sleep)
      case _ => PollSuspended
  }

  lemma SuspendStarts(s: State)
    requires Good(s) && !s.crashed && s.edt.Suspending? && s.threads[s.current.value].pc.Starting?
    ensures var c := s.current.value;
            && Enabled(s, Start(c)) && !StartEffect(s, c).crashed && !Stuck(StartEffect(s, c))
            && StartEffect(s, c).edt == s.edt && SuspendRank(StartEffect(s, c)) < SuspendRank(s)
  {
    StartFindsOwnContext(s, s.current.value);
  }

  lemma SuspendMoves(s: State)
    requires Good(s) && !s.crashed && s.edt.Suspending? && s.threads[s.current.value].pc.Working?
    requires !SuspendStep(s).PollSuspended?
    ensures SuspendStep(s).PointMove? && Enabled(s, SuspendStep(s))
    ensures var s' := ApplyOther(s, SuspendStep(s));
            !s'.crashed && s'.edt == s.edt && !Stuck(s') && SuspendRank(s') < SuspendRank(s)
  {
    OwnContext(s, s.current.value);
  }

  lemma SuspendSeen(s: State)
    requires Good(s) && !s.crashed && s.edt.Suspending? && s.threads[s.current.value].pc.Working?
    requires SuspendStep(s).PollSuspended?
    ensures Enabled(s, PollSuspended) && PollSuspendedEffect(s).edt.Routing? && !PollSuspendedEffect(s).crashed
  {
    assert Role(s, s.current.value);
  }

  lemma SuspendAdvances(tab: Table, s: State)
    requires Good(s) && !s.crashed && s.edt.Suspending? && !PastPoints(s)
    ensures Enabled(s, SuspendStep(s))
    ensures var s' := Apply(tab, s, SuspendStep(s));
            !s'.crashed && (s'.edt.Suspending? ==> !Stuck(s') && SuspendRank(s') < SuspendRank(s))
  {
    if s.threads[s.current.value].pc.Starting? {
      SuspendStarts(s);
    } else if SuspendStep(s).PollSuspended? {
      SuspendSeen(s);
    } else {
      SuspendMoves(s);
    }
  }

  lemma SuspendsFrom(tab: Table, run: seq<Step>, rank: nat) returns (more: seq<Step>)
    requires Sound(tab, run) && StateOf(tab, run).edt.Suspending? && !Stuck(StateOf(tab, run))
    requires SuspendRank(StateOf(tab, run)) <= rank
    ensures Sound(tab, run + more) && !StateOf(tab, run + more).edt.Suspending?
    decreases rank
  {
    var s := StateOf(tab, run);
    ReachableIsGood(tab, run);
    SuspendAdvances(tab, s);
    var step := SuspendStep(s);
    Extend(tab, run, s, step);
    var next := run + [step];
    if StateOf(tab, next).edt.Suspending? {
      var rest := SuspendsFrom(tab, next, rank - 1);
      more := [step] + rest;
      Chained(run, step, rest);
    } else {
      more := [step];
    }
  }

  /** The wait of an interruption can be left in some continuation. */
  ghost predicate CanLeave(tab: Table, run: seq<Step>) {
    exists more :: Sound(tab, run + more) && !StateOf(tab, run + more).edt.Suspending?
  }

  /** It can if and only if the handler has not left its function and is not in quit(). */
  lemma InterruptionEndsIff(tab: Table, run: seq<Step>)
    requires Sound(tab, run) && StateOf(tab, run).edt.Suspending?
    ensures CanLeave(tab, run) <==> !PastPoints(StateOf(tab, run))
  {
    if PastPoints(StateOf(tab, run)) {
      forall more | Sound(tab, run + more) ensures StateOf(tab, run + more).edt.Suspending? {
        StuckIsForEver(tab, run, more);
      }
    } else {
      var more := SuspendsFrom(tab, run, SuspendRank(StateOf(tab, run)));
    }
  }
}
