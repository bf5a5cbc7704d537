/**
 The invariant of the dispatcher: who looks after each handler context, where its thread
 is, and what that says about its fields. `Good` holds in every reachable state up to the
 first use of something NULL, freed or deleted.
 */
module DispatchInvariant {
  import opened Wrappers
  import opened HandlerSync
  import opened Dispatch

  /** The context in the EDT's hands, if any; at most this one is not parked. */
  function Ward(s: State): Option<nat> {
    match s.edt
    case Installing(c) => Some(c)
    case Disposing(c, _, _, _) => Some(c)
    case Clearing | CleaningStack | CleaningQueue | Ended => None
    case _ => s.current
  }

  predicate InCleanup(s: State) {
    match s.edt
    case CleaningCurrent | CleaningStack | CleaningQueue | Ended => true
    case Disposing(_, _, _, caller) => caller != FromRun
    case _ => false
  }

  /** The fields of an unfreed context agree with where its thread is. */
  predicate Fits(s: State, i: nat)
    requires Valid(s) && i < |s.ctxs|
  {
    var x, t := s.ctxs[i], s.threads[i];
    && Coherent(x.sync)
    && t.ctx == (if t.pc.Absent? || t.pc.Starting? then None else Some(i))
    && (!t.pc.Working? ==> x.sync.at == Outside)
    && (x.running <==> if t.pc.Absent? then s.edt.Creating? && s.current == Some(i) else !t.pc.Gone?)
    && (x.sync.syscallOrigin ==> s.quitter == Some(i))
    && (t.pc.Quitting? || t.pc.Joining? ==> s.quitter == Some(i) && x.sync.syscallOrigin)
    && (t.pc.Reaping? ==> x.reapInHandler)
    && (t.pc.Finishing? || t.pc.Gone? ==> !x.reapInHandler)
  }

  /** On the interrupted stack: inside the wait loop with the flag set. */
  predicate Parked(s: State, i: nat)
    requires Valid(s) && i < |s.ctxs|
  {
    && Fits(s, i) && !s.ctxs[i].freed && !s.ctxs[i].reapInHandler
    && s.threads[i].pc.Working? && HeldFast(s.ctxs[i].sync)
  }

  /** In the EDT's hands. */
  predicate Attended(s: State, i: nat)
    requires Valid(s) && i < |s.ctxs|
  {
    && Fits(s, i) && !s.ctxs[i].freed
    && (s.ctxs[i].reapInHandler ==> s.edt == Disposing(i, false, Release, FromCurrent))
  }

  /** Freed, or handed to its own thread to be freed after quit() returns. */
  predicate Retired(s: State, i: nat)
    requires Valid(s) && i < |s.ctxs|
  {
    if s.ctxs[i].freed then
      s.threads[i] == Thread(Gone, Some(i)) || s.threads[i] == Thread(Absent, None)
    else
      && Fits(s, i) && s.ctxs[i].reapInHandler && s.quitter == Some(i) && InCleanup(s)
      && !s.threads[i].pc.Absent? && !s.threads[i].pc.Starting?
  }

  predicate Role(s: State, i: nat)
    requires Valid(s) && i < |s.ctxs|
  {
    if Ward(s) == Some(i) then Attended(s, i)
    else if i in s.interrupted then Parked(s, i)
    else Retired(s, i)
  }

  predicate Roles(s: State)
    requires Valid(s)
  {
    forall i: nat :: i < |s.ctxs| ==> Role(s, i)
  }

  predicate Unshared(s: State) {
    && (forall i, j :: 0 <= i < j < |s.interrupted| ==> s.interrupted[i] != s.interrupted[j])
    && (Ward(s).Some? ==> Ward(s).value !in s.interrupted)
  }

  /** What each EDT position says about current_handler, the stack and the context at hand. */
  predicate EdtFits(s: State)
    requires Valid(s)
  {
    && (InCleanup(s) ==> s.stopRequested)
    && match s.edt
       case Idle | Polling | Dispatching(_) | Ticking | CleaningCurrent => s.current.None? ==> s.interrupted == []
       case Suspending(_) => s.ctxs[s.current.value].sync.suspendFlag
       case Routing(_) => s.current.None?
       case Creating => s.threads[s.current.value].pc.Absent?
       case Checking => true
       case Clearing => s.current.Some? && s.current.value !in s.interrupted
       case Restacking => true
       case Installing(c) => s.current.None? && s.threads[c].ctx.Some?
       case CleaningStack => s.current.Some? ==> s.current.value !in s.interrupted
       case CleaningQueue | Ended => s.interrupted == []
       case Disposing(c, wait, stage, caller) =>
         && (stage.Spin? ==> wait)
         && (stage.Mark? ==> !wait)
         && (stage.Release? ==> !s.ctxs[c].running || s.ctxs[c].reapInHandler)
         && (match caller
             case FromRun => !wait && s.current == Some(c) && !s.ctxs[c].running
                 && (stage.TestRunning? || stage.Release?)
             case FromCurrent => s.current == Some(c) && (!wait ==> s.ctxs[c].sync.syscallOrigin)
             case FromStack =>
               && wait && s.threads[c].ctx.Some?
               && (s.current.Some? ==> s.current.value !in s.interrupted && s.current != Some(c)))
  }

  /** The handler that called quit() has come back from the join. */
  predicate HandlerBack(s: State) {
    && s.quitter.Some? && s.quitter.value < |s.threads|
    && !s.threads[s.quitter.value].pc.Quitting? && !s.threads[s.quitter.value].pc.Joining?
  }

  predicate HandlerWaits(s: State) {
    s.quitter.Some? && s.quitter.value < |s.threads| && s.threads[s.quitter.value].pc.Joining?
  }

  /** How far the callers of quit() have got. Only one can come back: it deletes what the other still uses. */
  predicate QuitFits(s: State)
    requires Valid(s)
  {
    && (s.quitter.Some? ==> s.quitter.value < |s.threads| && s.threads[s.quitter.value].ctx.Some?)
    && (s.stopRequested <==> s.outside.Waiting? || s.outside.Back? || HandlerWaits(s) || HandlerBack(s))
    && (s.deleted ==> s.edt.Ended?)
    && (s.deleted <==> s.outside.Back? || HandlerBack(s))
    && !(s.outside.Back? && HandlerBack(s))
  }

  ghost predicate Good(s: State) {
    Valid(s) && Roles(s) && Unshared(s) && EdtFits(s) && QuitFits(s)
  }

  /** What the invariant needs of a step: nothing survives a crash. */
  ghost predicate Inv(s: State) {
    s.crashed || Good(s)
  }

  /** A step that leaves context i, its thread and its keeper alone leaves its role alone. */
  lemma RoleUntouched(s: State, s': State, i: nat)
    requires Valid(s) && Valid(s') && i < |s.ctxs| && i < |s'.ctxs| && Role(s, i)
    requires s'.ctxs[i] == s.ctxs[i] && s'.threads[i] == s.threads[i] && s'.quitter == s.quitter
    requires Ward(s) == Some(i) <==> Ward(s') == Some(i)
    requires i in s.interrupted <==> i in s'.interrupted
    requires InCleanup(s) ==> InCleanup(s')
    requires Ward(s) == Some(i) && s.ctxs[i].reapInHandler ==> s'.edt == s.edt
    requires (s.edt.Creating? && s.current == Some(i)) <==> (s'.edt.Creating? && s'.current == Some(i))
    ensures Role(s', i)
  {
  }

  lemma PushKeeps(s: State, e: Event)
    requires Good(s)
    requires e !in s.pushed
    ensures s.deleted || Good(PushEffect(s, e))
  {
    var s' := PushEffect(s, e);
    forall i: nat | i < |s'.ctxs| ensures Role(s', i) { assert Role(s, i); }
  }

  lemma CheckStopKeeps(s: State)
    requires Good(s)
    requires s.edt.Idle?
    ensures Good(CheckStopEffect(s))
  {
    var s' := CheckStopEffect(s);
    forall i: nat | i < |s'.ctxs| ensures Role(s', i) { assert Role(s, i); }
  }

  lemma PollKeeps(tab: Table, s: State, top: Option<Event>)
    requires Good(s)
    requires s.edt.Polling?
    ensures Good(PollEffect(tab, s, top))
  {
    var s' := PollEffect(tab, s, top);
    forall i: nat | i < |s'.ctxs| ensures Role(s', i) { assert Role(s, i); }
  }

  lemma TickKeeps(s: State)
    requires Good(s)
    requires s.edt.Ticking?
    ensures Good(s.(edt := Idle))
  {
    var s' := s.(edt := Idle);
    forall i: nat | i < |s'.ctxs| ensures Role(s', i) { assert Role(s, i); }
  }

  lemma CleanQueueKeeps(s: State, top: Option<Event>)
    requires Good(s)
    requires s.edt.CleaningQueue?
    ensures Good(CleanQueueEffect(s, top))
  {
    if top.Some? {
      EventsDoNotMatter(s, s.queue - multiset{top.value}, s.disposed + multiset{top.value});
    } else {
      EndKeeps(s);
    }
  }

  lemma EventsDoNotMatter(s: State, queue: multiset<Event>, disposed: multiset<Event>)
    requires Good(s)
    ensures Good(s.(queue := queue, disposed := disposed))
  {
    var s' := s.(queue := queue, disposed := disposed);
    forall i: nat | i < |s'.ctxs| ensures Role(s', i) {
      assert Role(s, i);
      RoleUntouched(s, s', i);
    }
  }

  lemma EndKeeps(s: State)
    requires Good(s)
    requires s.edt.CleaningQueue?
    ensures Good(s.(edt := Ended))
  {
    var s' := s.(edt := Ended);
    forall i: nat | i < |s'.ctxs| ensures Role(s', i) {
      assert Role(s, i);
      RoleUntouched(s, s', i);
    }
  }

  lemma CheckFinishedKeeps(s: State)
    requires Good(s)
    requires s.edt.Checking?
    ensures Good(CheckFinishedEffect(s))
  {
    var s' := CheckFinishedEffect(s);
    forall i: nat | i < |s'.ctxs| ensures Role(s', i) { assert Role(s, i); }
  }

  lemma InstallKeeps(s: State)
    requires Good(s)
    requires s.edt.Installing?
    ensures Good(InstallEffect(s))
  {
    var s' := InstallEffect(s);
    forall i: nat | i < |s'.ctxs| ensures Role(s', i) { assert Role(s, i); }
  }

  lemma CleanCurrentKeeps(s: State)
    requires Good(s)
    requires s.edt.CleaningCurrent?
    ensures Good(CleanCurrentEffect(s))
  {
    var s' := CleanCurrentEffect(s);
    forall i: nat | i < |s'.ctxs| ensures Role(s', i) { assert Role(s, i); }
  }

  lemma ClearCurrentKeeps(s: State)
    requires Good(s)
    requires s.edt.Clearing?
    ensures Good(s.(current := None, edt := Restacking))
  {
    var s' := s.(current := None, edt := Restacking);
    forall i: nat | i < |s'.ctxs| ensures Role(s', i) { assert Role(s, i); }
  }

  lemma BeginDispatchKeeps(s: State)
    requires Good(s)
    requires s.edt.Dispatching? && (s.current.Some? ==> CanLock(s, s.current.value))
    ensures Good(BeginDispatchEffect(s))
  {
    var s' := BeginDispatchEffect(s);
    forall i: nat | i < |s'.ctxs| ensures Role(s', i) { assert Role(s, i); }
  }

  lemma PollSuspendedKeeps(s: State)
    requires Good(s)
    requires s.edt.Suspending?
    ensures Good(PollSuspendedEffect(s))
  {
    var s' := PollSuspendedEffect(s);
    var c := s.current.value;
    assert Role(s, c);
    forall i: nat | i < |s'.ctxs| ensures Role(s', i) { assert Role(s, i); }
  }

  lemma RouteKeeps(s: State, subscribed: bool)
    requires Good(s)
    requires s.edt.Routing?
    ensures Good(RouteEffect(s, subscribed))
  {
    var s' := RouteEffect(s, subscribed);
    forall i: nat | i < |s'.ctxs| ensures Role(s', i) {
      if i < |s.ctxs| { assert Role(s, i); }
    }
  }

  lemma CreateThreadKeeps(s: State, ok: bool)
    requires Good(s)
    requires s.edt.Creating?
    ensures Good(CreateThreadEffect(s, ok))
  {
    var s' := CreateThreadEffect(s, ok);
    forall i: nat | i < |s'.ctxs| ensures Role(s', i) { assert Role(s, i); }
    assert Role(s, s.current.value);
  }

  lemma ResumeTopKeeps(s: State)
    requires Good(s)
    requires s.edt.Restacking?
            && (s.current.None? && s.interrupted != [] ==> CanLock(s, s.interrupted[|s.interrupted| - 1]))
    ensures Good(ResumeTopEffect(s))
  {
    var s' := ResumeTopEffect(s);
    assert s.interrupted != [] ==> Role(s, s.interrupted[|s.interrupted| - 1]);
    forall i: nat | i < |s'.ctxs| ensures Role(s', i) { assert Role(s, i); }
  }

  lemma CleanStackKeeps(s: State)
    requires Good(s)
    requires s.edt.CleaningStack?
    ensures Good(CleanStackEffect(s))
  {
    var s' := CleanStackEffect(s);
    assert s.interrupted != [] ==> Role(s, s.interrupted[|s.interrupted| - 1]);
    forall i: nat | i < |s'.ctxs| ensures Role(s', i) { assert Role(s, i); }
  }

  lemma DisposeAdvanceKeeps(s: State)
    requires Good(s)
    requires s.edt.Disposing? && !s.edt.stage.Release? && !s.edt.stage.ResumeIt? && !s.edt.stage.Mark?
    ensures Good(DisposeEffect(s))
  {
    var s' := DisposeEffect(s);
    var Disposing(c, wait, stage, caller) := s.edt;
    assert s' == s.(edt := s'.edt) && s'.edt.Disposing? && s'.edt == s.edt.(stage := s'.edt.stage);
    assert Role(s, c);
    forall i: nat | i < |s'.ctxs| ensures Role(s', i) {
      assert Role(s, i);
      RoleUntouched(s, s', i);
    }
  }

  lemma DisposeResumeKeeps(s: State)
    requires Good(s)
    requires s.edt.Disposing? && (s.edt.stage.ResumeIt? ==> CanLock(s, s.edt.c)) && s.edt.stage.ResumeIt?
    ensures Good(DisposeEffect(s))
  {
    var s' := DisposeEffect(s);
    forall i: nat | i < |s'.ctxs| ensures Role(s', i) { assert Role(s, i); }
  }

  /** reap_in_handler is set only for a thread that is in quit(). */
  lemma DisposeMarkKeeps(s: State)
    requires Good(s)
    requires s.edt.Disposing? && (s.edt.stage.ResumeIt? ==> CanLock(s, s.edt.c)) && s.edt.stage.Mark?
    ensures Good(DisposeEffect(s))
    ensures s.threads[s.edt.c].pc.Joining? || s.threads[s.edt.c].pc.Quitting?
  {
    var s' := DisposeEffect(s);
    assert Role(s, s.edt.c);
    forall i: nat | i < |s'.ctxs| ensures Role(s', i) { assert Role(s, i); }
  }

  lemma DisposeFreeKeeps(s: State)
    requires Good(s)
    requires s.edt.Disposing? && (s.edt.stage.ResumeIt? ==> CanLock(s, s.edt.c)) && s.edt.stage.Release?
            && !s.ctxs[s.edt.c].reapInHandler
    ensures Good(DisposeEffect(s))
  {
    var c := s.edt.c;
    assert Role(s, c);
    var s' := DisposeEffect(s);
    assert s' == FreeContext(s, c).(edt := Resumption(s.edt.caller));
    assert Role(s', c);
    forall i: nat | i < |s'.ctxs| ensures Role(s', i) {
      assert Role(s, i);
      if i != c { RoleUntouched(s, s', i); }
    }
  }

  lemma DisposeLeaveKeeps(s: State)
    requires Good(s)
    requires s.edt.Disposing? && (s.edt.stage.ResumeIt? ==> CanLock(s, s.edt.c)) && s.edt.stage.Release?
            && s.ctxs[s.edt.c].reapInHandler
    ensures Good(DisposeEffect(s))
  {
    assert Role(s, s.edt.c);
    var s' := DisposeEffect(s);
    assert s' == s.(edt := CleaningStack);
    forall i: nat | i < |s'.ctxs| ensures Role(s', i) { assert Role(s, i); }
  }

  /** The thread of a step. */
  function Actor(step: Step): Option<nat> {
    match step
    case Start(t) => Some(t)
    case PointMove(t, _) => Some(t)
    case CallQuit(t) => Some(t)
    case RequestStop(t) => Some(t)
    case Joined(t) => Some(t)
    case Return(t) => Some(t)
    case CheckReap(t) => Some(t)
    case Finish(t) => Some(t)
    case Reap(t) => Some(t)
    case _ => None
  }

  /** A thread that has read current_handler has read its own, live, context. */
  lemma OwnContext(s: State, t: nat)
    requires Good(s)
    requires t < |s.threads|
    requires !s.threads[t].pc.Absent? && !s.threads[t].pc.Starting? && !s.threads[t].pc.Gone?
    ensures s.threads[t].ctx == Some(t) && !s.ctxs[t].freed
  {
    assert Role(s, t);
  }

  /** A thread that has not read current_handler yet will find its own context there. */
  lemma StartFindsOwnContext(s: State, t: nat)
    requires Good(s)
    requires t < |s.threads| && s.threads[t].pc.Starting?
    ensures s.current == Some(t) && !s.ctxs[t].freed
  {
    assert Role(s, t);
  }

  lemma StartKeeps(s: State, t: nat)
    requires Good(s)
    requires ThreadAt(s, t, Starting)
    ensures Good(StartEffect(s, t))
  {
    StartFindsOwnContext(s, t);
    var s' := StartEffect(s, t);
    forall i: nat | i < |s'.ctxs| ensures Role(s', i) { assert Role(s, i); }
  }

  /** A working thread changes its handshake, coherently and without leaving a wait it is held in. */
  lemma SyncChangeKeeps(s: State, t: nat, y: Sync)
    requires Good(s)
    requires t < |s.ctxs| && s.threads[t].pc.Working?
    requires Coherent(y) && y.syscallOrigin == s.ctxs[t].sync.syscallOrigin
            && y.suspendFlag == s.ctxs[t].sync.suspendFlag
    requires HeldFast(s.ctxs[t].sync) ==> HeldFast(y)
    ensures Good(SetCtx(s, t, s.ctxs[t].(sync := y)))
  {
    var s' := SetCtx(s, t, s.ctxs[t].(sync := y));
    assert Role(s, t);
    assert Role(s', t);
    forall i: nat | i < |s'.ctxs| ensures Role(s', i) {
      assert Role(s, i);
      if i != t { RoleUntouched(s, s', i); }
    }
  }

  lemma PointMoveKeeps(s: State, t: nat, m: Move)
    requires Good(s)
    requires ThreadAt(s, t, Working) && CanMove(s.ctxs[Mine(s, t)].sync, m)
    ensures Good(PointMoveEffect(s, t, m))
  {
    OwnContext(s, t);
    assert Role(s, t);
    MoveKeepsSync(s.ctxs[t].sync, m);
    SyncChangeKeeps(s, t, DoMove(s.ctxs[t].sync, m));
  }

  /** The EDT has resumed an interrupted handler that is not current (again). */
  predicate Resumed(s: State) {
    s.edt.Installing? || (s.edt.Disposing? && s.edt.caller.FromStack?)
  }

  /** quit() called from handler code is called by the EDT's ward, which is current unless it was on the stack. */
  lemma QuitterIsWard(s: State, t: nat)
    requires Good(s)
    requires InHandlerCode(s, t) && s.quitter.None?
    ensures Ward(s) == Some(t) && !s.deleted
    ensures if Resumed(s) then !CurrentUsable(s) else s.current == Some(t) && CurrentUsable(s)
  {
    OwnContext(s, t);
    assert Role(s, t);
    if s.current.Some? { assert Role(s, s.current.value); }
  }

  lemma CallQuitKeeps(s: State, t: nat)
    requires Good(s)
    requires InHandlerCode(s, t) && s.quitter.None?
    ensures Inv(CallQuitEffect(s, t))
  {
    QuitterIsWard(s, t);
    OwnContext(s, t);
    var s' := CallQuitEffect(s, t);
    if !s'.crashed {
      forall i: nat | i < |s'.ctxs| ensures Role(s', i) { assert Role(s, i); }
    }
  }

  lemma RequestStopKeeps(s: State, t: nat)
    requires Good(s)
    requires ThreadAt(s, t, Quitting)
    ensures s.deleted || Good(RequestStopEffect(s, t))
  {
    OwnContext(s, t);
    assert Role(s, t);
    var s' := RequestStopEffect(s, t);
    forall i: nat | i < |s'.ctxs| ensures Role(s', i) { assert Role(s, i); }
  }

  /** The handler function returns. */
  lemma ReturnKeeps(s: State, t: nat)
    requires Good(s)
    requires InHandlerCode(s, t)
    ensures Good(SetPc(s, t, Returned))
  {
    OwnContext(s, t);
    assert Role(s, t);
    var s' := SetPc(s, t, Returned);
    forall i: nat | i < |s'.ctxs| ensures Role(s', i) {
      assert Role(s, i);
      if i != t { RoleUntouched(s, s', i); }
    }
  }

  lemma CheckReapKeeps(s: State, t: nat)
    requires Good(s)
    requires ThreadAt(s, t, Returned)
    ensures Good(CheckReapEffect(s, t))
  {
    OwnContext(s, t);
    assert Role(s, t);
    var s' := CheckReapEffect(s, t);
    forall i: nat | i < |s'.ctxs| ensures Role(s', i) {
      assert Role(s, i);
      if i != t { RoleUntouched(s, s', i); }
    }
  }

  lemma FinishKeeps(s: State, t: nat)
    requires Good(s)
    requires ThreadAt(s, t, Finishing)
    ensures Good(FinishEffect(s, t))
  {
    OwnContext(s, t);
    var s' := FinishEffect(s, t);
    forall i: nat | i < |s'.ctxs| ensures Role(s', i) { assert Role(s, i); }
  }

  lemma ReapKeeps(s: State, t: nat)
    requires Good(s)
    requires ThreadAt(s, t, Reaping)
    ensures Good(ReapEffect(s, t))
  {
    OwnContext(s, t);
    assert Role(s, t);
    assert s.edt.Ended?;
    var s' := ReapEffect(s, t);
    assert s' == SetPc(FreeContext(s, t), t, Gone);
    forall i: nat | i < |s'.ctxs| ensures Role(s', i) { assert Role(s, i); }
  }

  /** The caller that comes back first deletes the context; a second one would use it. */
  lemma JoinedKeeps(s: State, t: nat)
    requires Good(s)
    requires ThreadAt(s, t, Joining) && s.edt.Ended?
    ensures s.deleted || Good(JoinedEffect(s, t))
  {
    OwnContext(s, t);
    assert Role(s, t);
    var s' := JoinedEffect(s, t);
    if !s.deleted {
      forall i: nat | i < |s'.ctxs| ensures Role(s', i) {
        assert Role(s, i);
        if i != t { RoleUntouched(s, s', i); }
      }
    }
  }

  lemma OutsideKeeps(s: State, outside: Outsider)
    requires Good(s) && !s.deleted
    requires || (s.outside.Away? && outside.Calling?)
             || (s.outside.Calling? && outside.Waiting?)
             || (s.outside.Waiting? && outside.Back? && s.edt.Ended?)
    ensures Good(s.(outside := outside, stopRequested := s.stopRequested || outside.Waiting?, deleted := outside.Back?))
  {
    var s' := s.(outside := outside, stopRequested := s.stopRequested || outside.Waiting?, deleted := outside.Back?);
    forall i: nat | i < |s'.ctxs| ensures Role(s', i) { assert Role(s, i); }
  }

  lemma DisposeKeeps(s: State)
    requires Good(s)
    requires s.edt.Disposing? && (s.edt.stage.ResumeIt? ==> CanLock(s, s.edt.c))
    ensures Good(DisposeEffect(s))
  {
    match s.edt.stage
    case Release => if s.ctxs[s.edt.c].reapInHandler { DisposeLeaveKeeps(s); } else { DisposeFreeKeeps(s); }
    case ResumeIt => DisposeResumeKeeps(s);
    case Mark => DisposeMarkKeeps(s);
    case _ => DisposeAdvanceKeeps(s);
  }

  lemma EdtStepKeeps(tab: Table, s: State, step: Step)
    requires Good(s)
    requires Enabled(s, step) && IsEdtStep(step)
    ensures Good(ApplyEdt(tab, s, step))
  {
    match step
    case CheckStop => CheckStopKeeps(s);
    case Poll(top) => PollKeeps(tab, s, top);
    case Tick => TickKeeps(s);
    case CleanQueue(top) => CleanQueueKeeps(s, top);
    case BeginDispatch => BeginDispatchKeeps(s);
    case PollSuspended => PollSuspendedKeeps(s);
    case Route(subscribed) => RouteKeeps(s, subscribed);
    case CreateThread(ok) => CreateThreadKeeps(s, ok);
    case CheckFinished => CheckFinishedKeeps(s);
    case ClearCurrent => ClearCurrentKeeps(s);
    case ResumeTop => ResumeTopKeeps(s);
    case Install => InstallKeeps(s);
    case CleanCurrent => CleanCurrentKeeps(s);
    case CleanStack => CleanStackKeeps(s);
    case DisposeStep => DisposeKeeps(s);
  }

  lemma OtherStepKeeps(s: State, step: Step)
    requires Good(s)
    requires Enabled(s, step) && !IsEdtStep(step)
    ensures Inv(ApplyOther(s, step))
  {
    if Actor(step).Some? && !step.Start? {
      OwnContext(s, Actor(step).value);
      assert Role(s, Actor(step).value);
    }
    match step
    case Push(e) => PushKeeps(s, e);
    case Start(t) => StartKeeps(s, t);
    case PointMove(t, m) => PointMoveKeeps(s, t, m);
    case CallQuit(t) => CallQuitKeeps(s, t);
    case RequestStop(t) => RequestStopKeeps(s, t);
    case Joined(t) => JoinedKeeps(s, t);
    case Return(t) => ReturnKeeps(s, t);
    case CheckReap(t) => CheckReapKeeps(s, t);
    case Finish(t) => FinishKeeps(s, t);
    case Reap(t) => ReapKeeps(s, t);
    case OutsideQuit => if !s.deleted { OutsideKeeps(s, Calling); }
    case OutsideStop => if !s.deleted { OutsideKeeps(s, Waiting); }
    case OutsideJoined => if !s.deleted { OutsideKeeps(s, Back); }
  }

  /** Every reachable state that has not crashed is good. */
  lemma {:induction false} ReachableIsGood(tab: Table, run: seq<Step>)
    requires Legal(tab, run) && !After(tab, run).value.crashed
    ensures Good(After(tab, run).value)
  {
    if run == [] {
    } else {
      var before := run[..|run| - 1];
      var s := After(tab, before).value;
      assert !s.crashed;
      ReachableIsGood(tab, before);
      var step := run[|run| - 1];
      if IsEdtStep(step) { EdtStepKeeps(tab, s, step); } else { OtherStepKeeps(s, step); }
    }
  }
}
