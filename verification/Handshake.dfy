/**
 The handshake of `src/event/handler.cpp` one statement at a time: a machine with the
 mutex owner, the wait set and both threads' positions, in which the EDT calls
 suspend_handler, resume_handler and handler_suspended in any order and the handler
 enters interrupt points at any time. cond_wait may return spuriously.
 */
module Handshake {
  import opened HandlerSync

  datatype Owner = Nobody | Edt | Handler

  /** Position of the EDT. The `before` field of `ResumeCleared` only records what the flag was. */
  datatype EdtAt =
    | Elsewhere
    | SuspendLocked | SuspendSet
    | ResumeLocked | ResumeCleared(before: bool) | ResumeSent
    | QueryLocked | QueryRead(answer: bool)

  datatype HandlerAt = Running | AtTest | InLoop | InWait | Woken | Leaving

  datatype Fine = Fine(flag: bool, inLoop: bool, owner: Owner, edt: EdtAt, handler: HandlerAt)

  const START := Fine(false, false, Nobody, Elsewhere, Running)

  datatype Step =
    // the EDT
    | LockToSuspend | SetFlag | LockToResume | ClearFlag | Broadcast | LockToQuery | ReadLoop | EdtUnlock
    // the handler
    | LockToTest | TestFlag | CondWait | WakeUp | Relock | HandlerUnlock

  predicate Enabled(f: Fine, step: Step) {
    match step
    case LockToSuspend => f.edt.Elsewhere? && f.owner.Nobody?
    case SetFlag => f.edt.SuspendLocked?
    case LockToResume => f.edt.Elsewhere? && f.owner.Nobody?
    case ClearFlag => f.edt.ResumeLocked?
    case Broadcast => f.edt.ResumeCleared?
    case LockToQuery => f.edt.Elsewhere? && f.owner.Nobody?
    case ReadLoop => f.edt.QueryLocked?
    case EdtUnlock => f.edt.SuspendSet? || f.edt.ResumeSent? || f.edt.QueryRead?
    case LockToTest => f.handler.Running? && f.owner.Nobody?
    case TestFlag => f.handler.AtTest?
    case CondWait => f.handler.InLoop?
    case WakeUp => f.handler.InWait?
    case Relock => f.handler.Woken? && f.owner.Nobody?
    case HandlerUnlock => f.handler.Leaving?
  }

  function Apply(f: Fine, step: Step): Fine {
    match step
    case LockToSuspend => f.(owner := Edt, edt := SuspendLocked)
    case SetFlag => f.(flag := true, edt := SuspendSet)
    case LockToResume => f.(owner := Edt, edt := ResumeLocked)
    case ClearFlag => f.(flag := false, edt := ResumeCleared(f.flag))
    case Broadcast => f.(edt := ResumeSent, handler := if f.handler.InWait? then Woken else f.handler)
    case LockToQuery => f.(owner := Edt, edt := QueryLocked)
    case ReadLoop => f.(edt := QueryRead(f.inLoop))
    case EdtUnlock => f.(owner := Nobody, edt := Elsewhere)
    case LockToTest => f.(owner := Handler, handler := AtTest)
    case TestFlag =>
      if f.flag then f.(inLoop := true, handler := InLoop)
      else f.(inLoop := false, handler := Leaving)
    case CondWait => f.(owner := Nobody, handler := InWait)
    case WakeUp => f.(handler := Woken)
    case Relock => f.(owner := Handler, handler := AtTest)
    case HandlerUnlock => f.(owner := Nobody, handler := Running)
  }

  /** Every step of the run was enabled when it was taken. */
  ghost predicate Legal(run: seq<Step>) {
    run != [] ==> Legal(run[..|run| - 1]) && Enabled(After(run[..|run| - 1]), run[|run| - 1])
  }

  function After(run: seq<Step>): Fine {
    if run == [] then START else Apply(After(run[..|run| - 1]), run[|run| - 1])
  }

  predicate EdtOwns(f: Fine) {
    !f.edt.Elsewhere?
  }

  predicate HandlerOwns(f: Fine) {
    f.handler.AtTest? || f.handler.InLoop? || f.handler.Leaving?
  }

  /** Mutual exclusion on the mutex, and what the flag and in_wait_loop say of the handler. */
  predicate Inv(f: Fine) {
    && (EdtOwns(f) <==> f.owner.Edt?)
    && (HandlerOwns(f) <==> f.owner.Handler?)
    && (f.inLoop ==> !f.handler.Running? && !f.handler.Leaving?)
    && (f.handler.InLoop? || f.handler.InWait? || f.handler.Woken? ==> f.inLoop)
    && (f.handler.InLoop? ==> f.flag)
    && (f.handler.InWait? ==> f.flag || (f.edt.ResumeCleared? && f.edt.before))
    && (f.edt.SuspendSet? ==> f.flag)
    && (f.edt.ResumeCleared? || f.edt.ResumeSent? ==> !f.flag)
    && (f.edt.QueryRead? ==> f.edt.answer == f.inLoop)
  }

  lemma {:induction false} InvHolds(run: seq<Step>)
    requires Legal(run)
    ensures Inv(After(run))
  {
    if run != [] {
      InvHolds(run[..|run| - 1]);
    }
  }

  /**
   No lost wake-up: in every reachable state, while nobody holds the mutex a handler
   asleep in cond_wait is one that is still meant to be suspended.
   */
  lemma NoLostWakeup(run: seq<Step>)
    requires Legal(run)
    ensures var f := After(run); f.owner.Nobody? && f.handler.InWait? ==> f.flag
  {
    InvHolds(run);
  }

  predicate InsideLoop(f: Fine) {
    f.inLoop && !f.handler.Running? && !f.handler.Leaving?
  }

  /**
   Once handler_suspended has answered true with the flag set, no continuation of the run
   in which resume_handler does not clear the flag takes the handler out of the wait loop,
   however often it wakes spuriously.
   */
  lemma {:induction false} SuspendedStaysSuspended(run: seq<Step>, more: seq<Step>)
    requires Legal(run + more)
    requires Legal(run)
    requires var f := After(run); f.edt.QueryRead? && f.edt.answer && f.flag
    requires ClearFlag !in more
    ensures var f := After(run + more); InsideLoop(f) && f.flag
  {
    InvHolds(run);
    if more == [] {
      assert run + more == run;
    } else {
      var most := more[..|more| - 1];
      assert (run + more)[..|run + more| - 1] == run + most;
      SuspendedStaysSuspended(run, most);
      InvHolds(run + most);
    }
  }

  /**
   A resumed handler is never stuck: with the flag clear and the mutex free, a handler still
   inside the interrupt point gets out by its own steps alone.
   */
  lemma ResumedHandlerCanLeave(run: seq<Step>)
    requires Legal(run)
    requires var f := After(run); !f.flag && f.owner.Nobody? && !f.handler.Running?
    ensures var way := run + [Relock, TestFlag, HandlerUnlock];
            Legal(way) && After(way).handler.Running? && !After(way).inLoop
  {
    InvHolds(run);
    var r1, r2, r3 := run + [Relock], run + [Relock, TestFlag], run + [Relock, TestFlag, HandlerUnlock];
    assert r1[..|r1| - 1] == run && r2[..|r2| - 1] == r1 && r3[..|r3| - 1] == r2;
  }

  // ---- Refinement: statement by statement against one step per critical section ----

  function PointOf(f: Fine): Point {
    match f.handler
    case Running => Outside
    case Leaving => Outside
    case AtTest => Testing
    case InLoop => Parking
    case InWait => Asleep
    case Woken => Waking
  }

  /** A suspend takes effect when the flag is written, a resume when it broadcasts. */
  function Abstract(f: Fine): Sync {
    Sync(if f.edt.ResumeCleared? then f.edt.before else f.flag, f.inLoop, false, PointOf(f))
  }

  /** The steps of the coarse handshake, as the dispatcher takes them. */
  predicate CoarseStep(s: Sync, s': Sync) {
    || (MutexFree(s) && s' == Suspend(s))
    || (MutexFree(s) && s' == Resume(s))
    || exists m :: CanMove(s, m) && s' == DoMove(s, m)
  }

  /** Every statement is a coarse step or changes nothing the coarse handshake can see. */
  lemma StepRefines(f: Fine, step: Step)
    requires Inv(f) && Enabled(f, step)
    ensures var f' := Apply(f, step);
            Abstract(f') == Abstract(f) || CoarseStep(Abstract(f), Abstract(f'))
  {
    var f' := Apply(f, step);
    match step
    case SetFlag => assert Abstract(f') == Suspend(Abstract(f));
    case Broadcast => assert Abstract(f') == Resume(Abstract(f));
    case LockToTest => assert CanMove(Abstract(f), Enter) && Abstract(f') == DoMove(Abstract(f), Enter);
    case TestFlag => assert CanMove(Abstract(f), Test) && Abstract(f') == DoMove(Abstract(f), Test);
    case CondWait => assert CanMove(Abstract(f), Sleep) && Abstract(f') == DoMove(Abstract(f), Sleep);
    case WakeUp => assert CanMove(Abstract(f), Wake) && Abstract(f') == DoMove(Abstract(f), Wake);
    case Relock => assert CanMove(Abstract(f), Reacquire) && Abstract(f') == DoMove(Abstract(f), Reacquire);
    case _ =>
  }

  ghost predicate CoarseRun(states: seq<Sync>) {
    && states != []
    && states[0] == FRESH
    && forall i :: 0 < i < |states| ==> CoarseStep(states[i - 1], states[i])
  }

  /**
   Every run of the statement-level handshake is, seen through `Abstract`, a run of the coarse
   one, and handler_suspended answers what the coarse handshake would answer at that moment.
   */
  lemma {:induction false} RunRefines(run: seq<Step>) returns (states: seq<Sync>)
    requires Legal(run)
    ensures CoarseRun(states) && states[|states| - 1] == Abstract(After(run))
    ensures After(run).edt.QueryRead? ==> After(run).edt.answer == Suspended(states[|states| - 1])
    ensures Coherent(states[|states| - 1])
  {
    InvHolds(run);
    if run == [] {
      states := [FRESH];
    } else {
      var before := run[..|run| - 1];
      states := RunRefines(before);
      InvHolds(before);
      StepRefines(After(before), run[|run| - 1]);
      if Abstract(After(run)) != Abstract(After(before)) {
        states := states + [Abstract(After(run))];
      }
    }
  }
}
