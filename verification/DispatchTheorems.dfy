/** What holds of the dispatcher over all its runs. */
module DispatchTheorems {
  import opened Wrappers
  import opened HandlerSync
  import opened Dispatch
  import opened DispatchInvariant
  import opened DispatchLedger

  /** A run that has not used anything NULL, freed or deleted. When it can is what MisuseIff says. */
  ghost predicate Sound(tab: Table, run: seq<Step>) {
    Legal(tab, run) && !After(tab, run).value.crashed
  }

  function StateOf(tab: Table, run: seq<Step>): State
    requires Legal(tab, run)
  {
    After(tab, run).value
  }

  // ---- Mutual exclusion ----

  /** Thread i has been created, has not ended, and is not inside the wait loop of an interrupt point. */
  predicate Executing(s: State, i: nat)
    requires Valid(s)
  {
    && i < |s.threads| && !s.threads[i].pc.Absent? && !s.threads[i].pc.Gone?
    && !(s.threads[i].pc.Working? && s.ctxs[Mine(s, i)].sync.inWaitLoop)
  }

  /** The thread is in quit(), before the join has returned. */
  predicate InQuit(s: State, i: nat)
    requires i < |s.threads|
  {
    s.threads[i].pc.Quitting? || s.threads[i].pc.Joining?
  }

  /** Until cleanup at most one handler thread executes; in cleanup at most one that is not in quit(). */
  lemma MutualExclusion(tab: Table, run: seq<Step>, i: nat, j: nat)
    requires Sound(tab, run)
    requires var s := StateOf(tab, run); Executing(s, i) && Executing(s, j)
    ensures var s := StateOf(tab, run);
            i == j || (InCleanup(s) && (InQuit(s, i) || InQuit(s, j)))
  {
    ReachableIsGood(tab, run);
    var s := StateOf(tab, run);
    assert Role(s, i) && Role(s, j);
  }

  /** An interrupted handler is inside its interrupt point with its flag set... */
  lemma InterruptedIsParked(tab: Table, run: seq<Step>, c: nat)
    requires Sound(tab, run)
    requires c in StateOf(tab, run).interrupted
    ensures var s := StateOf(tab, run);
            c < |s.ctxs| && HeldFast(s.ctxs[c].sync) && s.threads[c] == Thread(Working, Some(c)) && !s.ctxs[c].freed
  {
    ReachableIsGood(tab, run);
    var s := StateOf(tab, run);
    var k :| 0 <= k < |s.interrupted| && s.interrupted[k] == c;
    assert Role(s, c);
  }

  /** Only two steps take anything off the stack, and only its top. */
  lemma EdtStack(tab: Table, s: State, step: Step)
    requires Valid(s) && Enabled(s, step) && IsEdtStep(step)
    ensures if step.ResumeTop? || step.CleanStack?
            then ApplyEdt(tab, s, step).interrupted == s.interrupted
                || PoppedFrom(ApplyEdt(tab, s, step).interrupted, s.interrupted)
            else s.interrupted <= ApplyEdt(tab, s, step).interrupted
  {
  }

  predicate PoppedFrom(after: seq<nat>, before: seq<nat>) {
    before != [] && after == before[..|before| - 1]
  }

  lemma OtherStack(s: State, step: Step)
    requires Valid(s) && Enabled(s, step) && !IsEdtStep(step)
    ensures ApplyOther(s, step).interrupted == s.interrupted
  {
  }

  lemma StaysInStack(before: seq<nat>, after: seq<nat>, c: nat)
    requires c in before && (before <= after || (PoppedFrom(after, before) && before[|before| - 1] != c))
    ensures c in after
  {
    var k :| 0 <= k < |before| && before[k] == c;
    assert after[k] == c;
  }

  /** ...and stays there until the EDT takes it off the stack, which only happens at the top. */
  lemma ParkedUntilPopped(tab: Table, run: seq<Step>, step: Step, c: nat)
    requires Sound(tab, run) && Sound(tab, run + [step])
    requires c in StateOf(tab, run).interrupted && c !in StateOf(tab, run + [step]).interrupted
    ensures var s := StateOf(tab, run);
            (step.ResumeTop? || step.CleanStack?) && s.interrupted[|s.interrupted| - 1] == c
  {
    assert (run + [step])[..|run + [step]| - 1] == run;
    var s := StateOf(tab, run);
    if IsEdtStep(step) {
      EdtStack(tab, s, step);
    } else {
      OtherStack(s, step);
    }
    var after := Apply(tab, s, step).interrupted;
    if s.interrupted <= after || (PoppedFrom(after, s.interrupted) && s.interrupted[|s.interrupted| - 1] != c) {
      StaysInStack(s.interrupted, after, c);
      assert false;
    }
  }

  // ---- Contexts and threads ----

  /** event_start only ever reads the context its thread was spawned for, and reads it alive. */
  lemma OwnContextBinding(tab: Table, run: seq<Step>, t: nat)
    requires Sound(tab, run)
    requires t < |StateOf(tab, run).threads|
    ensures var s := StateOf(tab, run);
            && (s.threads[t].pc.Starting? ==> s.current == Some(t) && !s.ctxs[t].freed)
            && (s.threads[t].ctx.Some? ==> s.threads[t].ctx == Some(t))
  {
    ReachableIsGood(tab, run);
    var s := StateOf(tab, run);
    assert Role(s, t);
  }

  /** edt_cleanup is past the current handler, but current_handler still points to its context. */
  predicate PastCurrent(s: State) {
    match s.edt
    case CleaningStack | CleaningQueue | Ended => true
    case Disposing(_, _, _, caller) => caller.FromStack?
    case _ => false
  }

  /** The current handler has called quit() and its context is left to its own thread. */
  predicate LeftToItself(s: State) {
    s.current.Some? && s.quitter == s.current && s.current.value < |s.threads| && !s.threads[s.current.value].pc.Gone?
  }

  predicate CurrentGone(s: State) {
    s.current.Some? && (s.edt.Clearing? || (PastCurrent(s) && !LeftToItself(s)))
  }

  /** current_handler points to a freed context between the disposal and the clearing, and once cleanup is past it. */
  lemma CurrentFreedIff(tab: Table, run: seq<Step>)
    requires Sound(tab, run) && StateOf(tab, run).current.Some?
    ensures var s := StateOf(tab, run); s.ctxs[s.current.value].freed <==> CurrentGone(s)
  {
    ReachableIsGood(tab, run);
    var s := StateOf(tab, run);
    assert Role(s, s.current.value);
  }

  /** The steps that go wrong, by what anybody can see before them. */
  predicate Misuse(s: State, step: Step) {
    match step
    case OutsideQuit => s.deleted || s.current.None? || CurrentGone(s)
    case CallQuit(_) => Resumed(s)
    case Push(_) | RequestStop(_) | Joined(_) | OutsideStop | OutsideJoined => s.deleted
    case _ => false
  }

  /**
   Exactly these steps use something NULL, freed or deleted: quit() from a thread that is no handler while there is
   no current handler or a freed one; quit() from a handler that has been resumed and is not current; and any use of
   the dispatcher's context after a caller of quit() has come back and deleted it.
   */
  lemma MisuseIff(tab: Table, run: seq<Step>, step: Step)
    requires Sound(tab, run) && Enabled(StateOf(tab, run), step)
    ensures Apply(tab, StateOf(tab, run), step).crashed <==> Misuse(StateOf(tab, run), step)
  {
    ReachableIsGood(tab, run);
    var s := StateOf(tab, run);
    if s.current.Some? {
      CurrentFreedIff(tab, run);
    }
    if step.CallQuit? {
      QuitterIsWard(s, step.t);
    } else if step.Start? {
      StartFindsOwnContext(s, step.t);
    }
  }

  /** The steps of quit() that read current_handler after its context is freed. */
  predicate ReadsFreed(s: State, step: Step) {
    s.current.Some? && ((step.OutsideQuit? && CurrentGone(s)) || (step.CallQuit? && Resumed(s)))
  }

  /** A freed context is dereferenced exactly there; no other step of any thread does, and none frees one twice. */
  lemma UseAfterFreeIff(tab: Table, run: seq<Step>, step: Step)
    requires Sound(tab, run) && Enabled(StateOf(tab, run), step)
    ensures var s := StateOf(tab, run);
            ReadsFreed(s, step) <==> exists c :: c in Dereferences(s, step) && c < |s.ctxs| && s.ctxs[c].freed
  {
    var s := StateOf(tab, run);
    ReachableIsGood(tab, run);
    if ReadsFreed(s, step) {
      CurrentFreedIff(tab, run);
      if step.CallQuit? { QuitterIsWard(s, step.t); }
      assert s.current.value in Dereferences(s, step);
    } else {
      forall c | c in Dereferences(s, step) ensures c < |s.ctxs| && !s.ctxs[c].freed {
        NoUseAfterFree(tab, run, step, c);
      }
    }
  }

  lemma NoUseAfterFree(tab: Table, run: seq<Step>, step: Step, c: nat)
    requires Sound(tab, run)
    requires Enabled(StateOf(tab, run), step) && c in Dereferences(StateOf(tab, run), step)
    requires !ReadsFreed(StateOf(tab, run), step)
    ensures c < |StateOf(tab, run).ctxs| && !StateOf(tab, run).ctxs[c].freed
  {
    ReachableIsGood(tab, run);
    var s := StateOf(tab, run);
    if step.OutsideQuit? {
      CurrentFreedIff(tab, run);
    } else if step.CallQuit? {
      OwnContext(s, step.t);
      QuitterIsWard(s, step.t);
    } else if Actor(step).Some? {
      OwnContext(s, Actor(step).value);
    } else {
      assert c < |s.ctxs|;
      assert Role(s, c);
    }
  }

  /** Of two overlapping calls of quit() at most one comes back: the other would use the deleted context. */
  lemma OnlyOneComesBack(tab: Table, run: seq<Step>)
    requires Sound(tab, run)
    ensures var s := StateOf(tab, run);
            !(s.outside.Back? && HandlerBack(s)) && (s.deleted <==> s.outside.Back? || HandlerBack(s))
  {
    ReachableIsGood(tab, run);
  }

  // ---- Events ----

  /** How an unfreed context is looked after. */
  datatype Keeper = ByEdt | ByStack | ByOwnThread

  predicate KeptBy(s: State, i: nat, k: Keeper)
    requires Valid(s) && i < |s.ctxs|
  {
    match k
    case ByEdt => Ward(s) == Some(i)
    case ByStack => i in s.interrupted
    case ByOwnThread => s.ctxs[i].reapInHandler && s.quitter == Some(i) && !(s.edt.Disposing? && s.edt.c == i)
  }

  /** Every context that is not freed has exactly one keeper. */
  lemma OneKeeper(tab: Table, run: seq<Step>, i: nat)
    requires Sound(tab, run)
    requires i < |StateOf(tab, run).ctxs| && !StateOf(tab, run).ctxs[i].freed
    ensures var s := StateOf(tab, run);
            exists k :: KeptBy(s, i, k) && forall k' :: KeptBy(s, i, k') ==> k' == k
  {
    ReachableIsGood(tab, run);
    var s := StateOf(tab, run);
    assert Role(s, i);
    var k := if Ward(s) == Some(i) then ByEdt else if i in s.interrupted then ByStack else ByOwnThread;
    assert KeptBy(s, i, k);
  }

  /**
   Conservation: a pushed event is in exactly one of the queue, the EDT's hands, one unfreed
   context and the disposed events; an event never pushed is nowhere.
   */
  lemma EventConservation(tab: Table, run: seq<Step>, e: Event)
    requires Sound(tab, run)
    ensures var s := StateOf(tab, run);
            s.queue[e] + HeldCount(s, e) + LiveCount(s.ctxs, e) + s.disposed[e] == if e in s.pushed then 1 else 0
  {
    ReachableLedger(tab, e, run);
  }

  lemma {:induction false} AllFreed(ctxs: seq<Context>, e: Event)
    requires forall i :: 0 <= i < |ctxs| ==> ctxs[i].freed
    ensures LiveCount(ctxs, e) == 0
  {
    if ctxs != [] {
      AllFreed(ctxs[..|ctxs| - 1], e);
    }
  }

  /**
   Nothing leaks: when the EDT has ended and the handler that called quit(), if any, has ended
   too, every context is freed and every event pushed is disposed of once, or was pushed after
   the queue was drained and is still in it.
   */
  lemma NothingLeaks(tab: Table, run: seq<Step>, e: Event)
    requires Sound(tab, run)
    requires var s := StateOf(tab, run);
             s.edt.Ended? && (s.quitter.Some? && s.quitter.value < |s.threads| ==> s.threads[s.quitter.value].pc.Gone?)
    requires e in StateOf(tab, run).pushed
    ensures var s := StateOf(tab, run);
            && (forall i :: 0 <= i < |s.ctxs| ==> s.ctxs[i].freed)
            && s.disposed[e] == if e in s.queue then 0 else 1
  {
    ReachableLedger(tab, e, run);
    var s := StateOf(tab, run);
    forall i: nat | i < |s.ctxs| ensures s.ctxs[i].freed {
      assert Role(s, i);
    }
    AllFreed(s.ctxs, e);
  }

  // ---- Priorities ----

  /**
   The priorities of the interrupted handlers from the bottom of the stack, then of the current
   one, strictly increase; and at the loop head an absent current handler means an empty stack.
   */
  lemma StrictPriorityStack(tab: Table, run: seq<Step>)
    requires Sound(tab, run)
    ensures var s := StateOf(tab, run);
            && Increasing(tab, Nest(s))
            && (s.edt.Idle? && s.current.None? ==> s.interrupted == [])
  {
    ReachableLedger(tab, Event(0, TEXT_INPUT), run);
  }

  lemma {:induction false} IncreasingFrom(tab: Table, ts: seq<Topic>, i: nat)
    requires Increasing(tab, ts) && i < |ts|
    ensures tab(ts[i]) >= i
  {
    if i > 0 {
      IncreasingFrom(tab, ts, i - 1);
      assert tab(ts[i - 1]) < tab(ts[i]);
    }
  }

  lemma {:induction false} TopicsLength(ctxs: seq<Context>, cs: seq<nat>)
    requires forall i :: 0 <= i < |cs| ==> cs[i] < |ctxs|
    ensures |TopicsOf(ctxs, cs)| == |cs|
  {
    if cs != [] {
      TopicsLength(ctxs, cs[..|cs| - 1]);
    }
  }

  lemma Rising(tab: Table, ts: seq<Topic>)
    requires Increasing(tab, ts) && |ts| > 2
    ensures tab(ts[0]) < tab(ts[1]) < tab(ts[2])
  {
  }

  lemma ShippedNest(ts: seq<Topic>)
    requires Increasing(ShippedPriority, ts)
    ensures |ts| <= 2
  {
    if |ts| > 2 {
      Rising(ShippedPriority, ts);
      assert false;
    }
  }

  /** By pigeonhole on uint8_t at most 256 handlers are nested, whatever the table; with the shipped one, two. */
  lemma NestingBound(tab: Table, run: seq<Step>)
    requires Sound(tab, run)
    ensures var s := StateOf(tab, run);
            var depth := |s.interrupted| + (if Ward(s).Some? then 1 else 0);
            depth <= 256 && (tab == ShippedPriority ==> depth <= 2)
  {
    StrictPriorityStack(tab, run);
    ReachableIsGood(tab, run);
    var s := StateOf(tab, run);
    TopicsLength(s.ctxs, s.interrupted);
    if Nest(s) != [] {
      IncreasingFrom(tab, Nest(s), |Nest(s)| - 1);
    }
    if tab == ShippedPriority {
      ShippedNest(Nest(s));
    }
  }

  // ---- Shutdown ----

  /** Some topic may interrupt a handler of topic u. */
  ghost predicate Outranked(tab: Table, u: Topic) {
    exists v :: tab(u) < tab(v)
  }

  function TopicAt(s: State, c: nat): Topic
    requires c < |s.ctxs|
  {
    s.ctxs[c].event.topic
  }

  /** The EDT is disposing of t in cleanup, and so has looked at the origin of the shutdown already. */
  predicate Late(s: State, t: nat) {
    s.edt.Disposing? && s.edt.c == t
  }

  /** A handler called quit() when it was too late to tell the EDT not to wait for it. */
  ghost predicate CalledLate(tab: Table, run: seq<Step>)
    requires Legal(tab, run)
  {
    run != [] &&
    var before, step := run[..|run| - 1], run[|run| - 1];
    CalledLate(tab, before) || (step.CallQuit? && Late(StateOf(tab, before), step.t))
  }

  /** What a caller of quit() that cannot be interrupted and is in time relies on. */
  ghost predicate ShutdownInv(tab: Table, s: State, late: bool)
    requires Valid(s)
  {
    && (forall i :: 0 <= i < |s.interrupted| ==> Outranked(tab, TopicAt(s, s.interrupted[i])))
    && (Resumed(s) ==> Outranked(tab, TopicAt(s, s.edt.c)))
    && (s.quitter.Some? && s.quitter.value < |s.ctxs| && !Outranked(tab, TopicAt(s, s.quitter.value)) && !late ==>
          && (s.ctxs[s.quitter.value].freed || s.ctxs[s.quitter.value].sync.syscallOrigin)
          && !(s.edt.Disposing? && s.edt.c == s.quitter.value && s.edt.wait))
  }

  /** A step that starts no interruption and no disposal. */
  predicate Harmless(s: State, s': State) {
    && |s.ctxs| <= |s'.ctxs|
    && (forall i :: 0 <= i < |s.ctxs| ==>
          && s'.ctxs[i].event == s.ctxs[i].event
          && s'.ctxs[i].sync.syscallOrigin == s.ctxs[i].sync.syscallOrigin
          && (s.ctxs[i].freed ==> s'.ctxs[i].freed))
    && s'.interrupted == s.interrupted
    && s'.quitter == s.quitter
    && (s'.edt.Installing? ==> s'.edt == s.edt)
    && (s'.edt.Disposing? && s'.edt.wait ==> s.edt.Disposing? && s.edt.c == s'.edt.c && s.edt.wait)
    && (s'.edt.Disposing? && s'.edt.caller.FromStack? ==>
          s.edt.Disposing? && s.edt.c == s'.edt.c && s.edt.caller.FromStack?)
  }

  lemma HarmlessKeeps(tab: Table, s: State, s': State, late: bool)
    requires Valid(s) && Valid(s') && ShutdownInv(tab, s, late) && Harmless(s, s')
    requires s.quitter.Some? ==> s.quitter.value < |s.ctxs|
    ensures ShutdownInv(tab, s', late)
  {
  }

  /** The event an interruption is for outranks the handler to be interrupted. */
  lemma PollSuspendedRank(tab: Table, s: State)
    requires Valid(s) && Increasing(tab, Nest(s))
    requires s.edt.Suspending?
    ensures tab(TopicAt(s, s.current.value)) < tab(s.edt.e.topic)
    ensures Outranked(tab, TopicAt(s, s.current.value))
  {
    TopicsLength(s.ctxs, s.interrupted);
    var n := |s.interrupted|;
    assert Nest(s)[n] == TopicAt(s, s.current.value) && Nest(s)[n + 1] == s.edt.e.topic;
  }

  /** Only a handler below another topic is ever put on the stack. */
  lemma PollSuspendedShutdown(tab: Table, s: State, late: bool)
    requires Valid(s) && ShutdownInv(tab, s, late) && Increasing(tab, Nest(s))
    requires s.edt.Suspending?
    ensures ShutdownInv(tab, PollSuspendedEffect(s), late)
  {
    PollSuspendedRank(tab, s);
  }

  lemma ResumeTopShutdown(tab: Table, s: State, late: bool)
    requires Valid(s) && ShutdownInv(tab, s, late)
    requires s.edt.Restacking?
    ensures ShutdownInv(tab, ResumeTopEffect(s), late)
  {
  }

  lemma CleanStackShutdown(tab: Table, s: State, late: bool)
    requires Valid(s) && ShutdownInv(tab, s, late)
    requires s.edt.CleaningStack?
    ensures ShutdownInv(tab, CleanStackEffect(s), late)
  {
  }

  lemma CleanCurrentShutdown(tab: Table, s: State, late: bool)
    requires Valid(s) && ShutdownInv(tab, s, late)
    requires s.edt.CleaningCurrent? && (s.current.Some? ==> !s.ctxs[s.current.value].freed)
    ensures ShutdownInv(tab, CleanCurrentEffect(s), late)
  {
  }

  lemma ReleaseHarmless(s: State)
    requires Valid(s) && s.edt.Disposing?
    ensures Harmless(s, ReleaseEffect(s))
  {
  }

  lemma DisposeHarmless(s: State)
    requires Valid(s) && s.edt.Disposing?
    ensures Harmless(s, DisposeEffect(s))
  {
    if s.edt.stage.Release? {
      ReleaseHarmless(s);
    } else {
      var s', x := DisposeEffect(s), Touched(s.ctxs[s.edt.c], s.edt.stage);
      assert s'.ctxs == s.ctxs[s.edt.c := x] && x.sync.syscallOrigin == s.ctxs[s.edt.c].sync.syscallOrigin;
    }
  }

  lemma PointMoveHarmless(s: State, t: nat, m: Move)
    requires Valid(s) && ThreadAt(s, t, Working)
    ensures Harmless(s, PointMoveEffect(s, t, m))
  {
  }

  lemma EdtHarmless(tab: Table, s: State, step: Step)
    requires Valid(s) && Enabled(s, step) && IsEdtStep(step)
    requires !step.PollSuspended? && !step.ResumeTop? && !step.CleanStack? && !step.CleanCurrent? && !step.DisposeStep?
    ensures Harmless(s, ApplyEdt(tab, s, step))
  {
    if step.Route? {
      RouteHarmless(s, step.subscribed);
    } else if step.CreateThread? || step.BeginDispatch? {
      HandlerHarmless(tab, s, step);
    }
  }

  lemma RouteHarmless(s: State, subscribed: bool)
    requires Valid(s) && s.edt.Routing?
    ensures Harmless(s, RouteEffect(s, subscribed))
  {
  }

  lemma HandlerHarmless(tab: Table, s: State, step: Step)
    requires Valid(s) && Enabled(s, step) && (step.CreateThread? || step.BeginDispatch?)
    ensures Harmless(s, ApplyEdt(tab, s, step))
  {
  }

  lemma EdtStepShutdown(tab: Table, s: State, step: Step, late: bool)
    requires Good(s) && ShutdownInv(tab, s, late) && Increasing(tab, Nest(s))
    requires Enabled(s, step) && IsEdtStep(step)
    ensures ShutdownInv(tab, ApplyEdt(tab, s, step), late)
  {
    if step.PollSuspended? {
      PollSuspendedShutdown(tab, s, late);
    } else if step.ResumeTop? {
      ResumeTopShutdown(tab, s, late);
    } else if step.CleanStack? {
      CleanStackShutdown(tab, s, late);
    } else if step.CleanCurrent? {
      assert s.current.Some? ==> Role(s, s.current.value);
      CleanCurrentShutdown(tab, s, late);
    } else {
      if step.DisposeStep? { DisposeHarmless(s); } else { EdtHarmless(tab, s, step); }
      HarmlessKeeps(tab, s, ApplyEdt(tab, s, step), late);
    }
  }

  lemma OtherHarmless(s: State, step: Step)
    requires Valid(s) && Enabled(s, step) && !IsEdtStep(step) && !step.CallQuit? && !step.PointMove?
    ensures Harmless(s, ApplyOther(s, step))
  {
  }

  /** A caller of quit() that no topic outranks is the current handler, and is marked as the origin. */
  lemma CallQuitShutdown(tab: Table, s: State, t: nat, late: bool)
    requires Good(s) && ShutdownInv(tab, s, late)
    requires InHandlerCode(s, t) && s.quitter.None? && !s.crashed
    ensures ShutdownInv(tab, CallQuitEffect(s, t), late || Late(s, t))
    ensures !Outranked(tab, TopicAt(s, t)) ==> !CallQuitEffect(s, t).crashed && s.current == Some(t)
  {
    QuitterIsWard(s, t);
    OwnContext(s, t);
  }

  lemma OtherStepShutdown(tab: Table, s: State, step: Step, late: bool)
    requires Good(s) && ShutdownInv(tab, s, late)
    requires Enabled(s, step) && !IsEdtStep(step)
    ensures ShutdownInv(tab, ApplyOther(s, step), late || (step.CallQuit? && Late(s, step.t)))
  {
    if step.CallQuit? {
      CallQuitShutdown(tab, s, step.t, late);
    } else {
      if step.PointMove? { PointMoveHarmless(s, step.t, step.m); } else { OtherHarmless(s, step); }
      HarmlessKeeps(tab, s, ApplyOther(s, step), late);
    }
  }

  lemma {:induction false} ReachableShutdown(tab: Table, run: seq<Step>)
    requires Sound(tab, run)
    ensures ShutdownInv(tab, StateOf(tab, run), CalledLate(tab, run))
  {
    if run == [] {
    } else {
      var before, step := run[..|run| - 1], run[|run| - 1];
      var s := After(tab, before).value;
      assert !s.crashed;
      ReachableShutdown(tab, before);
      StrictPriorityStack(tab, before);
      ReachableIsGood(tab, before);
      var late := CalledLate(tab, before);
      if IsEdtStep(step) { EdtStepShutdown(tab, s, step, late); } else { OtherStepShutdown(tab, s, step, late); }
    }
  }

  /** Handler t has set STOP_REQUESTED and joins the EDT, while the EDT waits for t. */
  predicate WaitCycle(s: State, t: nat)
    requires Valid(s)
  {
    && ThreadAt(s, t, Joining)
    && ((s.edt.Suspending? && s.current == Some(t))
        || (s.edt.Disposing? && s.edt.c == t && s.edt.stage.Spin?))
  }

  /** The EDT never waits for a caller of quit() that no topic outranks and that was in time... */
  lemma NoWaitCycle(tab: Table, run: seq<Step>, t: nat)
    requires Sound(tab, run)
    requires t < |StateOf(tab, run).ctxs| && !Outranked(tab, TopicAt(StateOf(tab, run), t)) && !CalledLate(tab, run)
    ensures !WaitCycle(StateOf(tab, run), t)
  {
    var s := StateOf(tab, run);
    ReachableIsGood(tab, run);
    ReachableShutdown(tab, run);
    StrictPriorityStack(tab, run);
    assert Role(s, t);
    if s.edt.Suspending? && s.current == Some(t) {
      PollSuspendedRank(tab, s);
    }
  }

  /** ...and such a caller never finds current_handler NULL or freed. */
  lemma QuitFindsItself(tab: Table, run: seq<Step>, t: nat)
    requires Sound(tab, run)
    requires Enabled(StateOf(tab, run), CallQuit(t)) && !Outranked(tab, TopicAt(StateOf(tab, run), t))
    ensures var s' := Apply(tab, StateOf(tab, run), CallQuit(t));
            !s'.crashed && s'.ctxs[t].sync.syscallOrigin && s'.current == Some(t)
  {
    ReachableIsGood(tab, run);
    ReachableShutdown(tab, run);
    CallQuitShutdown(tab, StateOf(tab, run), t, CalledLate(tab, run));
    QuitterIsWard(StateOf(tab, run), t);
  }
}
