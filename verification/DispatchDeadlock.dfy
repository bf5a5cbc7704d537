/** A wait cycle of a caller of quit() with the EDT is for ever, and which calls of quit() end in one. */
module DispatchDeadlock {
  import opened Wrappers
  import opened HandlerSync
  import opened Dispatch
  import opened DispatchInvariant
  import opened DispatchTheorems

  lemma Extend(tab: Table, run: seq<Step>, s: State, step: Step)
    requires After(tab, run) == Some(s) && Enabled(s, step)
    ensures After(tab, run + [step]) == Some(Apply(tab, s, step))
  {
    assert (run + [step])[..|run + [step]| - 1] == run;
  }

  lemma LastStep(tab: Table, run: seq<Step>, step: Step)
    requires Sound(tab, run + [step])
    ensures Sound(tab, run) && Enabled(StateOf(tab, run), step)
    ensures StateOf(tab, run + [step]) == Apply(tab, StateOf(tab, run), step)
  {
    assert (run + [step])[..|run + [step]| - 1] == run;
  }

  // ---- Waiting for ever ----

  /** The EDT waits, or is about to wait, for a handler that is in quit() and will not come back before the EDT ends. */
  predicate Doomed(s: State, t: nat) {
    t < |s.threads| && InQuit(s, t) && Late(s, t) && s.edt.wait
  }

  lemma EdtStaysDoomed(tab: Table, s: State, step: Step, t: nat)
    requires Good(s) && Enabled(s, step) && IsEdtStep(step) && Doomed(s, t)
    ensures Doomed(ApplyEdt(tab, s, step), t)
  {
    assert Role(s, t);
  }

  /** The other threads leave the EDT and each other where they are. */
  lemma OthersLeave(s: State, step: Step, t: nat)
    requires Valid(s) && Enabled(s, step) && !IsEdtStep(step) && t < |s.threads| && Actor(step) != Some(t)
    ensures var s' := ApplyOther(s, step);
            s'.edt == s.edt && s'.current == s.current && |s'.threads| == |s.threads| && s'.threads[t] == s.threads[t]
  {
  }

  /** In quit() a thread does nothing but request the stop, until the EDT has ended. */
  lemma OwnStepInQuit(s: State, step: Step, t: nat)
    requires Good(s) && Enabled(s, step) && Actor(step) == Some(t) && t < |s.threads| && InQuit(s, t) && !s.edt.Ended?
    ensures step == RequestStop(t) && s.threads[t].pc.Quitting?
  {
  }

  lemma OtherStaysDoomed(s: State, step: Step, t: nat)
    requires Good(s) && Enabled(s, step) && !IsEdtStep(step) && Doomed(s, t)
    ensures Doomed(ApplyOther(s, step), t)
  {
    if Actor(step) == Some(t) { OwnStepInQuit(s, step, t); } else { OthersLeave(s, step, t); }
  }

  lemma StaysDoomed(tab: Table, s: State, step: Step, t: nat)
    requires Good(s) && Enabled(s, step) && Doomed(s, t)
    ensures Doomed(Apply(tab, s, step), t)
  {
    if IsEdtStep(step) { EdtStaysDoomed(tab, s, step, t); } else { OtherStaysDoomed(s, step, t); }
  }

  lemma {:induction false} DoomedIsForEver(tab: Table, run: seq<Step>, more: seq<Step>, t: nat)
    requires Sound(tab, run) && Doomed(StateOf(tab, run), t) && Sound(tab, run + more)
    ensures Doomed(StateOf(tab, run + more), t)
    decreases |more|
  {
    if more == [] {
      assert run + more == run;
    } else {
      var most, step := more[..|more| - 1], more[|more| - 1];
      assert run + more == (run + most) + [step];
      LastStep(tab, run + most, step);
      DoomedIsForEver(tab, run, most, t);
      ReachableIsGood(tab, run + most);
      StaysDoomed(tab, StateOf(tab, run + most), step, t);
    }
  }

  lemma EdtStaysInCycle(tab: Table, s: State, step: Step, t: nat)
    requires Good(s) && Enabled(s, step) && IsEdtStep(step) && WaitCycle(s, t)
    ensures WaitCycle(ApplyEdt(tab, s, step), t)
  {
    assert Role(s, t);
  }

  lemma OtherStaysInCycle(s: State, step: Step, t: nat)
    requires Good(s) && Enabled(s, step) && !IsEdtStep(step) && WaitCycle(s, t)
    ensures WaitCycle(ApplyOther(s, step), t)
  {
    if Actor(step) == Some(t) { OwnStepInQuit(s, step, t); } else { OthersLeave(s, step, t); }
  }

  /** A wait cycle is a deadlock: however the run goes on, both still wait, and the EDT never ends. */
  lemma {:induction false} WaitCycleIsForEver(tab: Table, run: seq<Step>, more: seq<Step>, t: nat)
    requires Sound(tab, run) && WaitCycle(StateOf(tab, run), t) && Sound(tab, run + more)
    ensures WaitCycle(StateOf(tab, run + more), t) && !StateOf(tab, run + more).edt.Ended?
    decreases |more|
  {
    if more == [] {
      assert run + more == run;
    } else {
      var most, step := more[..|more| - 1], more[|more| - 1];
      assert run + more == (run + most) + [step];
      LastStep(tab, run + most, step);
      WaitCycleIsForEver(tab, run, most, t);
      ReachableIsGood(tab, run + most);
      var s := StateOf(tab, run + most);
      if IsEdtStep(step) { EdtStaysInCycle(tab, s, step, t); } else { OtherStaysInCycle(s, step, t); }
    }
  }

  // ---- From the call to the cycle ----

  function Distance(stage: Stage): nat {
    match stage
    case TestRunning => 5
    case TestSuspended => 4
    case ResumeIt => 3
    case Decide => 2
    case Spin => 1
    case _ => 0
  }

  /** The next step of a doomed pair. */
  function NextStep(s: State, t: nat): Step {
    if t < |s.threads| && s.threads[t].pc.Quitting? then RequestStop(t) else DisposeStep
  }

  /** How many steps are left to the wait cycle. */
  function Rank(s: State, t: nat): nat {
    (if t < |s.threads| && s.threads[t].pc.Quitting? then 6 else 0)
    + (if s.edt.Disposing? then Distance(s.edt.stage) else 0)
  }

  lemma Advances(tab: Table, s: State, t: nat)
    requires Good(s) && !s.crashed && Doomed(s, t) && !WaitCycle(s, t)
    ensures Enabled(s, NextStep(s, t))
    ensures var s' := Apply(tab, s, NextStep(s, t)); !s'.crashed && Doomed(s', t) && Rank(s', t) < Rank(s, t)
  {
    assert Role(s, t);
    StaysDoomed(tab, s, NextStep(s, t), t);
  }

  lemma AdvancesRun(tab: Table, run: seq<Step>, t: nat)
    requires Sound(tab, run) && Doomed(StateOf(tab, run), t) && !WaitCycle(StateOf(tab, run), t)
    ensures var next := run + [NextStep(StateOf(tab, run), t)];
            && Sound(tab, next) && Doomed(StateOf(tab, next), t)
            && Rank(StateOf(tab, next), t) < Rank(StateOf(tab, run), t)
  {
    ReachableIsGood(tab, run);
    var s := StateOf(tab, run);
    Advances(tab, s, t);
    Extend(tab, run, s, NextStep(s, t));
  }

  /** A doomed pair can always go on into the wait cycle. */
  lemma {:induction false} DoomedReachesCycle(tab: Table, run: seq<Step>, t: nat, rank: nat) returns (more: seq<Step>)
    requires Sound(tab, run) && Doomed(StateOf(tab, run), t) && Rank(StateOf(tab, run), t) <= rank
    ensures Sound(tab, run + more) && WaitCycle(StateOf(tab, run + more), t)
    decreases rank
  {
    if WaitCycle(StateOf(tab, run), t) {
      more := [];
      assert run + more == run;
    } else {
      more := DoomedGoesOn(tab, run, t, rank);
    }
  }

  lemma {:induction false} DoomedGoesOn(tab: Table, run: seq<Step>, t: nat, rank: nat) returns (more: seq<Step>)
    requires Sound(tab, run) && Doomed(StateOf(tab, run), t) && Rank(StateOf(tab, run), t) <= rank
    requires !WaitCycle(StateOf(tab, run), t)
    ensures Sound(tab, run + more) && WaitCycle(StateOf(tab, run + more), t)
    decreases rank, 0
  {
    AdvancesRun(tab, run, t);
    var step := NextStep(StateOf(tab, run), t);
    var next := run + [step];
    var rest := DoomedReachesCycle(tab, next, t, rank - 1);
    more := [step] + rest;
    Chained(run, step, rest);
  }

  lemma Chained(run: seq<Step>, step: Step, rest: seq<Step>)
    ensures run + ([step] + rest) == run + [step] + rest
  {
  }

  // ---- Which calls are late ----

  /** Contexts keep their events, and the first handler that calls quit() stays the one that has. */
  predicate Lasting(s: State, s': State) {
    && |s.ctxs| <= |s'.ctxs| && (forall i :: 0 <= i < |s.ctxs| ==> s'.ctxs[i].event == s.ctxs[i].event)
    && (s.quitter.Some? ==> s'.quitter == s.quitter)
  }

  lemma EdtLasting(tab: Table, s: State, step: Step)
    requires Valid(s) && Enabled(s, step) && IsEdtStep(step)
    ensures Lasting(s, ApplyEdt(tab, s, step))
  {
    EdtNeverQuits(tab, s, step);
    if step.DisposeStep? {
      DisposeLasting(s);
    } else if step.Route? || step.CreateThread? {
      SpawnLasting(tab, s, step);
    } else {
      EdtKeepsEvents(tab, s, step);
    }
  }

  lemma EdtNeverQuits(tab: Table, s: State, step: Step)
    requires Valid(s) && Enabled(s, step) && IsEdtStep(step)
    ensures ApplyEdt(tab, s, step).quitter == s.quitter
  {
  }

  lemma DisposeLasting(s: State)
    requires Valid(s) && s.edt.Disposing?
    ensures Lasting(s, DisposeEffect(s))
  {
  }

  lemma SpawnLasting(tab: Table, s: State, step: Step)
    requires Valid(s) && Enabled(s, step) && (step.Route? || step.CreateThread?)
    ensures Lasting(s, ApplyEdt(tab, s, step))
  {
  }

  lemma EdtKeepsEvents(tab: Table, s: State, step: Step)
    requires Valid(s) && Enabled(s, step) && IsEdtStep(step)
    requires !step.DisposeStep? && !step.Route? && !step.CreateThread?
    ensures var ctxs := ApplyEdt(tab, s, step).ctxs;
            |ctxs| == |s.ctxs| && forall i :: 0 <= i < |s.ctxs| ==> ctxs[i].event == s.ctxs[i].event
  {
  }

  lemma OtherLasting(s: State, step: Step)
    requires Valid(s) && Enabled(s, step) && !IsEdtStep(step)
    ensures Lasting(s, ApplyOther(s, step))
  {
  }

  /** After a handler's call of quit() nothing more is called late. */
  lemma {:induction false} LaterCalls(tab: Table, run: seq<Step>, more: seq<Step>)
    requires Sound(tab, run) && StateOf(tab, run).quitter.Some? && Sound(tab, run + more)
    ensures CalledLate(tab, run + more) == CalledLate(tab, run) && Lasting(StateOf(tab, run), StateOf(tab, run + more))
    decreases |more|
  {
    if more == [] {
      assert run + more == run;
    } else {
      var most, step := more[..|more| - 1], more[|more| - 1];
      assert run + more == (run + most) + [step];
      LastStep(tab, run + most, step);
      assert ((run + most) + [step])[..|run + most|] == run + most;
      LaterCalls(tab, run, most);
      var s := StateOf(tab, run + most);
      if IsEdtStep(step) { EdtLasting(tab, s, step); } else { OtherLasting(s, step); }
    }
  }

  lemma {:induction false} NoCallNoneLate(tab: Table, run: seq<Step>)
    requires Sound(tab, run) && StateOf(tab, run).quitter.None?
    ensures !CalledLate(tab, run)
  {
    if run != [] {
      var before, step := run[..|run| - 1], run[|run| - 1];
      assert before + [step] == run;
      LastStep(tab, before, step);
      var s := StateOf(tab, before);
      if IsEdtStep(step) { EdtLasting(tab, s, step); } else { OtherLasting(s, step); }
      NoCallNoneLate(tab, before);
    }
  }

  /**
   A call of quit() from a handler that no topic outranks can end in a wait cycle if and only if the EDT has already
   begun to dispose of this handler in cleanup when the call is made. Then every continuation is stuck.
   */
  lemma QuitDeadlocksIff(tab: Table, run: seq<Step>, t: nat)
    requires Sound(tab, run) && Enabled(StateOf(tab, run), CallQuit(t))
    requires !Outranked(tab, TopicAt(StateOf(tab, run), t))
    ensures Late(StateOf(tab, run), t) <==>
            exists more ::
              Sound(tab, run + [CallQuit(t)] + more) && WaitCycle(StateOf(tab, run + [CallQuit(t)] + more), t)
    ensures Late(StateOf(tab, run), t) ==>
              forall more :: Sound(tab, run + [CallQuit(t)] + more) ==>
                Doomed(StateOf(tab, run + [CallQuit(t)] + more), t)
  {
    var s := StateOf(tab, run);
    var called := run + [CallQuit(t)];
    QuitFindsItself(tab, run, t);
    Extend(tab, run, s, CallQuit(t));
    if Late(s, t) {
      LateIsDoomed(tab, run, t);
      var more := DoomedReachesCycle(tab, called, t, Rank(StateOf(tab, called), t));
      forall more | Sound(tab, called + more) ensures Doomed(StateOf(tab, called + more), t) {
        DoomedIsForEver(tab, called, more, t);
      }
    } else {
      forall more | Sound(tab, called + more) ensures !WaitCycle(StateOf(tab, called + more), t) {
        InTimeNeverWaits(tab, run, t, more);
      }
    }
  }

  lemma LateIsDoomed(tab: Table, run: seq<Step>, t: nat)
    requires Sound(tab, run) && Enabled(StateOf(tab, run), CallQuit(t)) && Late(StateOf(tab, run), t)
    requires StateOf(tab, run).current == Some(t)
    ensures Doomed(Apply(tab, StateOf(tab, run), CallQuit(t)), t)
  {
    ReachableIsGood(tab, run);
    OwnContext(StateOf(tab, run), t);
    QuitterIsWard(StateOf(tab, run), t);
    assert Role(StateOf(tab, run), t);
  }

  lemma InTimeNeverWaits(tab: Table, run: seq<Step>, t: nat, more: seq<Step>)
    requires Sound(tab, run) && Enabled(StateOf(tab, run), CallQuit(t))
    requires !Outranked(tab, TopicAt(StateOf(tab, run), t))
    requires !Late(StateOf(tab, run), t) && Sound(tab, run + [CallQuit(t)] + more)
    ensures !WaitCycle(StateOf(tab, run + [CallQuit(t)] + more), t)
  {
    var s := StateOf(tab, run);
    var called := run + [CallQuit(t)];
    QuitFindsItself(tab, run, t);
    Extend(tab, run, s, CallQuit(t));
    OtherLasting(s, CallQuit(t));
    NoCallNoneLate(tab, run);
    assert called[..|called| - 1] == run;
    LaterCalls(tab, called, more);
    NoWaitCycle(tab, called + more, t);
  }

  // ---- Late calls need a second caller ----

  lemma {:induction false} AwayWithoutCall(tab: Table, run: seq<Step>)
    requires Sound(tab, run) && OutsideQuit !in run
    ensures StateOf(tab, run).outside.Away?
  {
    if run != [] {
      var before, step := run[..|run| - 1], run[|run| - 1];
      assert before + [step] == run;
      LastStep(tab, before, step);
      AwayWithoutCall(tab, before);
      StaysAway(tab, StateOf(tab, before), step);
    }
  }

  lemma StaysAway(tab: Table, s: State, step: Step)
    requires Valid(s) && Enabled(s, step) && s.outside.Away? && !step.OutsideQuit?
    ensures Apply(tab, s, step).outside.Away?
  {
    if IsEdtStep(step) { EdtAway(tab, s, step); } else { OtherAway(s, step); }
  }

  lemma EdtAway(tab: Table, s: State, step: Step)
    requires Valid(s) && Enabled(s, step) && IsEdtStep(step)
    ensures ApplyEdt(tab, s, step).outside == s.outside
  {
  }

  lemma OtherAway(s: State, step: Step)
    requires Valid(s) && Enabled(s, step) && !IsEdtStep(step)
    ensures s.outside.Away? && !step.OutsideQuit? ==> ApplyOther(s, step).outside.Away?
  {
  }

  /** A handler is only late when the shutdown was requested from outside. */
  lemma {:induction false} LateNeedsOutside(tab: Table, run: seq<Step>)
    requires Sound(tab, run) && CalledLate(tab, run)
    ensures OutsideQuit in run
  {
    var before, step := run[..|run| - 1], run[|run| - 1];
    assert before + [step] == run;
    LastStep(tab, before, step);
    if CalledLate(tab, before) {
      LateNeedsOutside(tab, before);
    } else {
      ReachableIsGood(tab, before);
      LateIsStopped(StateOf(tab, before), step.t);
      if OutsideQuit !in before { AwayWithoutCall(tab, before); }
    }
  }

  lemma LateIsStopped(s: State, t: nat)
    requires Good(s) && InHandlerCode(s, t) && s.quitter.None? && Late(s, t)
    ensures !s.outside.Away?
  {
    OwnContext(s, t);
    assert Role(s, t);
  }
}
