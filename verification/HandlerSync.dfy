/**
 The suspend/resume handshake of `src/event/handler.cpp`.

 `Sync` is one handler_synchronization_type. The mutex and the condition variable
 are represented by where the handler thread stands in HANDLER_INTERRUPT_POINT:
 it owns the mutex at `Testing` and `Parking`, and it is in the wait set at `Asleep`.

 The operations below treat each critical section of the event dispatch thread (EDT)
 as one step. Module Handshake takes the same code one statement at a time and
 proves that nothing is lost by that.
 */
module HandlerSync {

  datatype Point =
    | Outside   // not in HANDLER_INTERRUPT_POINT
    | Testing   // owns the mutex, about to test suspend_flag
    | Parking   // owns the mutex, in_wait_loop set, about to call cond_wait
    | Asleep    // inside cond_wait, in the wait set
    | Waking    // inside cond_wait, woken, waiting for the mutex

  datatype Sync = Sync(suspendFlag: bool, inWaitLoop: bool, syscallOrigin: bool, at: Point)

  const FRESH := Sync(false, false, false, Outside)

  /** The handler thread does not hold suspend_mutex, so the EDT can take it. */
  predicate MutexFree(s: Sync) {
    s.at != Testing && s.at != Parking
  }

  /** suspend_handler */
  function Suspend(s: Sync): Sync {
    s.(suspendFlag := true)
  }

  /** resume_handler: clears the flag and broadcasts to the wait set. */
  function Resume(s: Sync): Sync {
    s.(suspendFlag := false, at := if s.at == Asleep then Waking else s.at)
  }

  /** handler_suspended */
  function Suspended(s: Sync): bool {
    s.inWaitLoop
  }

  /** One step of the handler thread through the interrupt point. */
  datatype Move = Enter | Test | Sleep | Wake | Reacquire

  predicate CanMove(s: Sync, m: Move) {
    match m
    case Enter => s.at == Outside
    case Test => s.at == Testing
    case Sleep => s.at == Parking
    case Wake => s.at == Asleep        // possibly spurious
    case Reacquire => s.at == Waking
  }

  function DoMove(s: Sync, m: Move): Sync {
    match m
    case Enter => s.(at := Testing)
    case Test =>
      if s.suspendFlag then s.(inWaitLoop := true, at := Parking)
      else s.(inWaitLoop := false, at := Outside)
    case Sleep => s.(at := Asleep)
    case Wake => s.(at := Waking)
    case Reacquire => s.(at := Testing)
  }

  /** What every reachable handshake state satisfies. */
  predicate Coherent(s: Sync) {
    && (s.inWaitLoop ==> s.at != Outside)
    && (s.at.Parking? || s.at.Asleep? || s.at.Waking? ==> s.inWaitLoop)
    && (s.at.Parking? || s.at.Asleep? ==> s.suspendFlag)
  }

  /** Suspended for good: the flag is set and the handler is inside the wait loop. */
  predicate HeldFast(s: Sync) {
    s.suspendFlag && s.inWaitLoop && s.at != Outside
  }

  /** The handler's own steps keep the handshake coherent and never lead out of a held-fast one. */
  lemma MoveKeepsSync(s: Sync, m: Move)
    requires Coherent(s) && CanMove(s, m)
    ensures var s' := DoMove(s, m);
            && Coherent(s') && s'.syscallOrigin == s.syscallOrigin && s'.suspendFlag == s.suspendFlag
            && (HeldFast(s) ==> HeldFast(s'))
  {
  }
}
