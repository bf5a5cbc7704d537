/**
 Two more invariants of the dispatcher: the priorities of the nested handlers, and where
 every event is.
 */
module DispatchLedger {
  import opened Wrappers
  import opened HandlerSync
  import opened Dispatch
  import opened DispatchInvariant

  // ---- Priorities ----

  function TopicOf(ctxs: seq<Context>, c: nat): seq<Topic> {
    if c < |ctxs| then [ctxs[c].event.topic] else []
  }

  function TopicsOf(ctxs: seq<Context>, cs: seq<nat>): seq<Topic> {
    if cs == [] then [] else TopicsOf(ctxs, cs[..|cs| - 1]) + TopicOf(ctxs, cs[|cs| - 1])
  }

  /** The event the EDT has taken from the queue and not yet given to a handler or deleted. */
  function Held(s: State): Option<Event> {
    match s.edt
    case Dispatching(e) => Some(e)
    case Suspending(e) => Some(e)
    case Routing(e) => Some(e)
    case _ => None
  }

  function WardTopic(s: State): seq<Topic> {
    if Ward(s).Some? then TopicOf(s.ctxs, Ward(s).value) else []
  }

  function HeldTopic(s: State): seq<Topic> {
    if Held(s).Some? then [Held(s).value.topic] else []
  }

  /** Topics from the bottom of the stack over the current handler to the event being dispatched. */
  function Nest(s: State): seq<Topic> {
    TopicsOf(s.ctxs, s.interrupted) + WardTopic(s) + HeldTopic(s)
  }

  ghost predicate Increasing(tab: Table, ts: seq<Topic>) {
    forall i, j :: 0 <= i < j < |ts| ==> tab(ts[i]) < tab(ts[j])
  }

  lemma {:induction false} TopicsSame(ctxs: seq<Context>, ctxs': seq<Context>, cs: seq<nat>)
    requires |ctxs| == |ctxs'| && forall i :: 0 <= i < |ctxs| ==> ctxs'[i].event == ctxs[i].event
    ensures TopicsOf(ctxs', cs) == TopicsOf(ctxs, cs)
  {
    if cs != [] {
      TopicsSame(ctxs, ctxs', cs[..|cs| - 1]);
    }
  }

  lemma {:induction false} TopicsGrown(ctxs: seq<Context>, x: Context, cs: seq<nat>)
    requires forall i :: 0 <= i < |cs| ==> cs[i] < |ctxs|
    ensures TopicsOf(ctxs + [x], cs) == TopicsOf(ctxs, cs)
  {
    if cs != [] {
      TopicsGrown(ctxs, x, cs[..|cs| - 1]);
    }
  }

  /** How a step may change the nest. */
  ghost predicate NestStep(tab: Table, ts: seq<Topic>, ts': seq<Topic>) {
    || ts' <= ts
    || (|ts'| == |ts| + 1 && ts'[..|ts|] == ts && (ts == [] || tab(ts[|ts| - 1]) < tab(ts'[|ts|])))
  }

  lemma NestStepKeeps(tab: Table, ts: seq<Topic>, ts': seq<Topic>)
    requires Increasing(tab, ts) && NestStep(tab, ts, ts')
    ensures Increasing(tab, ts')
  {
    forall i, j | 0 <= i < j < |ts'| ensures tab(ts'[i]) < tab(ts'[j]) {
      if ts' <= ts {
        assert ts'[i] == ts[i] && ts'[j] == ts[j];
      } else {
        assert ts'[i] == ts'[..|ts|][i] == ts[i];
        if j < |ts| { assert ts'[j] == ts'[..|ts|][j] == ts[j]; }
      }
    }
  }

  // ---- Events ----

  /** How many contexts that are not freed yet hold event e. */
  function LiveCount(ctxs: seq<Context>, e: Event): nat {
    if ctxs == [] then 0
    else
      var x := ctxs[|ctxs| - 1];
      LiveCount(ctxs[..|ctxs| - 1], e) + (if !x.freed && x.event == e then 1 else 0)
  }

  function HeldCount(s: State, e: Event): nat {
    if Held(s) == Some(e) then 1 else 0
  }

  /** Event e is as often in the queue, in the EDT's hands, with a handler or disposed of as it was pushed. */
  predicate Balanced(s: State, e: Event) {
    s.pushed[e] == s.queue[e] + HeldCount(s, e) + LiveCount(s.ctxs, e) + s.disposed[e]
  }

  lemma {:induction false} LiveFreed(ctxs: seq<Context>, i: nat, e: Event)
    requires i < |ctxs| && !ctxs[i].freed
    ensures LiveCount(ctxs, e)
         == LiveCount(ctxs[i := ctxs[i].(freed := true)], e) + (if ctxs[i].event == e then 1 else 0)
  {
    var n := |ctxs| - 1;
    var x := ctxs[i].(freed := true);
    if i == n {
      assert ctxs[i := x][..n] == ctxs[..n];
    } else {
      assert ctxs[i := x][..n] == ctxs[..n][i := x];
      LiveFreed(ctxs[..n], i, e);
    }
  }

  lemma {:induction false} LiveSame(ctxs: seq<Context>, ctxs': seq<Context>, e: Event)
    requires |ctxs| == |ctxs'|
    requires forall i :: 0 <= i < |ctxs| ==> ctxs'[i].event == ctxs[i].event && ctxs'[i].freed == ctxs[i].freed
    ensures LiveCount(ctxs', e) == LiveCount(ctxs, e)
  {
    if ctxs != [] {
      LiveSame(ctxs[..|ctxs| - 1], ctxs'[..|ctxs| - 1], e);
    }
  }

  // ---- Every step keeps both ----

  ghost predicate LedgerStep(tab: Table, e: Event, s: State, s': State) {
    NestStep(tab, Nest(s), Nest(s')) && (Balanced(s, e) ==> Balanced(s', e))
  }

  /** Nothing changed hands. */
  predicate Quiet(s: State, s': State) {
    && |s'.ctxs| == |s.ctxs|
    && (forall i :: 0 <= i < |s.ctxs| ==> s'.ctxs[i].event == s.ctxs[i].event && s'.ctxs[i].freed == s.ctxs[i].freed)
    && s'.interrupted == s.interrupted && Ward(s') == Ward(s) && Held(s') == Held(s)
    && s'.queue == s.queue && s'.pushed == s.pushed && s'.disposed == s.disposed
  }

  lemma QuietStep(tab: Table, e: Event, s: State, s': State)
    requires Quiet(s, s')
    ensures LedgerStep(tab, e, s, s')
  {
    LiveSame(s.ctxs, s'.ctxs, e);
    TopicsSame(s.ctxs, s'.ctxs, s.interrupted);
  }

  lemma PollNest(tab: Table, s: State, top: Option<Event>)
    requires Valid(s) && s.edt.Polling? && (s.current.None? ==> s.interrupted == [])
    ensures NestStep(tab, Nest(s), Nest(PollEffect(tab, s, top)))
  {
    var s' := PollEffect(tab, s, top);
    if s'.edt.Dispatching? {
      TakenNest(tab, s, s', top.value);
    } else {
      assert Nest(s') == Nest(s);
    }
  }

  /** The event taken from the queue comes on top of the nest. */
  lemma TakenNest(tab: Table, s: State, s': State, e: Event)
    requires s'.ctxs == s.ctxs && s'.interrupted == s.interrupted && Ward(s') == Ward(s) == s.current
    requires Held(s).None? && Held(s') == Some(e)
    requires s.current.None? ==> s.interrupted == []
    requires s.current.Some? ==>
               s.current.value < |s.ctxs| && tab(s.ctxs[s.current.value].event.topic) < tab(e.topic)
    ensures NestStep(tab, Nest(s), Nest(s'))
  {
    assert Nest(s') == Nest(s) + [e.topic];
  }

  lemma PollBalance(tab: Table, e: Event, s: State, top: Option<Event>)
    requires Valid(s) && s.edt.Polling? && TopOf(s.queue, top) && Balanced(s, e)
    ensures Balanced(PollEffect(tab, s, top), e)
  {
  }

  lemma PollSuspendedStep(tab: Table, e: Event, s: State)
    requires Valid(s) && s.edt.Suspending?
    ensures LedgerStep(tab, e, s, PollSuspendedEffect(s))
  {
    var s', c := PollSuspendedEffect(s), s.current.value;
    if s' != s {
      assert s'.interrupted[..|s'.interrupted| - 1] == s.interrupted;
      assert Nest(s') == Nest(s);
    }
  }

  lemma RouteStep(tab: Table, e: Event, s: State, subscribed: bool)
    requires Valid(s) && s.edt.Routing? && s.current.None?
    ensures LedgerStep(tab, e, s, RouteEffect(s, subscribed))
  {
    var s' := RouteEffect(s, subscribed);
    if subscribed {
      TopicsGrown(s.ctxs, s'.ctxs[|s.ctxs|], s.interrupted);
      assert Nest(s') == Nest(s);
      assert s'.ctxs[..|s'.ctxs| - 1] == s.ctxs;
    } else {
      assert Nest(s') <= Nest(s);
    }
  }

  /** A context moves from the top of the stack into the EDT's hands. */
  lemma PopStep(tab: Table, e: Event, s: State, s': State, c: nat)
    requires s.interrupted == s'.interrupted + [c] && Ward(s).None? && Ward(s') == Some(c) && Held(s).None?
            && Held(s').None?
    requires |s.ctxs| == |s'.ctxs|
    requires forall i :: 0 <= i < |s.ctxs| ==>
               s'.ctxs[i].event == s.ctxs[i].event && s'.ctxs[i].freed == s.ctxs[i].freed
    requires s'.queue == s.queue && s'.pushed == s.pushed && s'.disposed == s.disposed
    ensures LedgerStep(tab, e, s, s')
  {
    assert s.interrupted[..|s.interrupted| - 1] == s'.interrupted;
    TopicsSame(s.ctxs, s'.ctxs, s'.interrupted);
    LiveSame(s.ctxs, s'.ctxs, e);
    assert Nest(s') == Nest(s);
  }

  lemma ResumeTopStep(tab: Table, e: Event, s: State)
    requires Valid(s) && s.edt.Restacking?
    ensures LedgerStep(tab, e, s, ResumeTopEffect(s))
  {
    var s' := ResumeTopEffect(s);
    if s.current.None? && s.interrupted != [] {
      PopStep(tab, e, s, s', s'.edt.c);
    } else {
      QuietStep(tab, e, s, s');
    }
  }

  lemma CleanStackStep(tab: Table, e: Event, s: State)
    requires Valid(s) && s.edt.CleaningStack?
    ensures LedgerStep(tab, e, s, CleanStackEffect(s))
  {
    var s' := CleanStackEffect(s);
    if s.interrupted != [] {
      PopStep(tab, e, s, s', s'.edt.c);
    } else {
      QuietStep(tab, e, s, s');
    }
  }

  /** Freeing a live context moves its event from the live ones to the disposed ones. */
  lemma FreeStep(tab: Table, e: Event, s: State, c: nat, s': State)
    requires c < |s.ctxs| && !s.ctxs[c].freed
    requires s'.ctxs == s.ctxs[c := s.ctxs[c].(freed := true)] && s'.disposed == s.disposed + multiset{s.ctxs[c].event}
    requires s'.queue == s.queue && s'.pushed == s.pushed && Held(s).None? && Held(s').None?
    requires s'.interrupted == s.interrupted && (Ward(s') == Ward(s) || Ward(s').None?)
    ensures LedgerStep(tab, e, s, s')
  {
    LiveFreed(s.ctxs, c, e);
    TopicsSame(s.ctxs, s'.ctxs, s.interrupted);
    assert Nest(s') <= Nest(s);
  }

  lemma DisposeQuiet(s: State)
    requires Valid(s) && s.edt.Disposing? && !s.edt.stage.Release?
    ensures Quiet(s, DisposeEffect(s))
  {
  }

  lemma ReleaseStep(tab: Table, e: Event, s: State)
    requires Valid(s) && s.edt.Disposing? && s.edt.stage.Release? && !s.ctxs[s.edt.c].freed
    ensures LedgerStep(tab, e, s, DisposeEffect(s))
  {
    var s', c := DisposeEffect(s), s.edt.c;
    assert s'.interrupted == s.interrupted && Ward(s').None? && Held(s').None?;
    if s.ctxs[c].reapInHandler {
      assert s' == s.(edt := s'.edt);
      assert Nest(s') <= Nest(s);
    } else {
      assert s'.ctxs == s.ctxs[c := s.ctxs[c].(freed := true)];
      FreeStep(tab, e, s, c, s');
    }
  }

  // Steps that move nothing.

  lemma CheckStopLedger(tab: Table, e: Event, s: State)
    requires Valid(s) && s.edt.Idle?
    ensures LedgerStep(tab, e, s, CheckStopEffect(s))
  {
    QuietStep(tab, e, s, CheckStopEffect(s));
  }

  lemma BeginDispatchLedger(tab: Table, e: Event, s: State)
    requires Valid(s) && s.edt.Dispatching?
    ensures LedgerStep(tab, e, s, BeginDispatchEffect(s))
  {
    QuietStep(tab, e, s, BeginDispatchEffect(s));
  }

  lemma CreateThreadLedger(tab: Table, e: Event, s: State, ok: bool)
    requires Valid(s) && s.edt.Creating?
    ensures LedgerStep(tab, e, s, CreateThreadEffect(s, ok))
  {
    QuietStep(tab, e, s, CreateThreadEffect(s, ok));
  }

  lemma CheckFinishedLedger(tab: Table, e: Event, s: State)
    requires Valid(s) && s.edt.Checking?
    ensures LedgerStep(tab, e, s, CheckFinishedEffect(s))
  {
    QuietStep(tab, e, s, CheckFinishedEffect(s));
  }

  lemma ClearCurrentLedger(tab: Table, e: Event, s: State)
    requires Valid(s) && s.edt.Clearing?
    ensures LedgerStep(tab, e, s, s.(current := None, edt := Restacking))
  {
    QuietStep(tab, e, s, s.(current := None, edt := Restacking));
  }

  lemma InstallLedger(tab: Table, e: Event, s: State)
    requires Valid(s) && s.edt.Installing?
    ensures LedgerStep(tab, e, s, InstallEffect(s))
  {
    QuietStep(tab, e, s, InstallEffect(s));
  }

  lemma TickLedger(tab: Table, e: Event, s: State)
    requires Valid(s) && s.edt.Ticking?
    ensures LedgerStep(tab, e, s, s.(edt := Idle))
  {
    QuietStep(tab, e, s, s.(edt := Idle));
  }

  lemma CleanCurrentLedger(tab: Table, e: Event, s: State)
    requires Valid(s) && s.edt.CleaningCurrent?
    ensures LedgerStep(tab, e, s, CleanCurrentEffect(s))
  {
    QuietStep(tab, e, s, CleanCurrentEffect(s));
  }

  lemma StartLedger(tab: Table, e: Event, s: State, t: nat)
    requires Valid(s) && ThreadAt(s, t, Starting)
    ensures LedgerStep(tab, e, s, StartEffect(s, t))
  {
    QuietStep(tab, e, s, StartEffect(s, t));
  }

  lemma PointMoveLedger(tab: Table, e: Event, s: State, t: nat, m: Move)
    requires Valid(s) && ThreadAt(s, t, Working)
    ensures LedgerStep(tab, e, s, PointMoveEffect(s, t, m))
  {
    QuietStep(tab, e, s, PointMoveEffect(s, t, m));
  }

  lemma CallQuitLedger(tab: Table, e: Event, s: State, t: nat)
    requires Valid(s) && InHandlerCode(s, t)
    ensures LedgerStep(tab, e, s, CallQuitEffect(s, t))
  {
    var s' := CallQuitEffect(s, t);
    assert s' == s.(ctxs := s'.ctxs, threads := s'.threads, quitter := s'.quitter, crashed := s'.crashed);
    QuietStep(tab, e, s, s');
  }

  lemma SetPcLedger(tab: Table, e: Event, s: State, t: nat, pc: ThreadPc)
    requires Valid(s) && t < |s.threads|
    ensures LedgerStep(tab, e, s, SetPc(s, t, pc))
  {
    QuietStep(tab, e, s, SetPc(s, t, pc));
  }

  lemma RequestStopLedger(tab: Table, e: Event, s: State, t: nat)
    requires Valid(s) && ThreadAt(s, t, Quitting)
    ensures LedgerStep(tab, e, s, RequestStopEffect(s, t))
  {
    QuietStep(tab, e, s, RequestStopEffect(s, t));
  }

  lemma FinishLedger(tab: Table, e: Event, s: State, t: nat)
    requires Valid(s) && ThreadAt(s, t, Finishing)
    ensures LedgerStep(tab, e, s, FinishEffect(s, t))
  {
    QuietStep(tab, e, s, FinishEffect(s, t));
  }

  lemma JoinedLedger(tab: Table, e: Event, s: State, t: nat)
    requires Valid(s) && ThreadAt(s, t, Joining)
    ensures LedgerStep(tab, e, s, JoinedEffect(s, t))
  {
    QuietStep(tab, e, s, JoinedEffect(s, t));
  }

  lemma OutsideLedger(tab: Table, e: Event, s: State, outside: Outsider, stop: bool, deleted: bool, crashed: bool)
    requires Valid(s)
    ensures LedgerStep(tab, e, s, s.(outside := outside, stopRequested := stop, deleted := deleted, crashed := crashed))
  {
    QuietStep(tab, e, s, s.(outside := outside, stopRequested := stop, deleted := deleted, crashed := crashed));
  }

  /** Events move between the queue, the disposed ones and the outside; nothing else changes. */
  lemma QueueStep(tab: Table, e: Event, s: State, s': State)
    requires s'.ctxs == s.ctxs && s'.interrupted == s.interrupted && Ward(s') == Ward(s) && Held(s') == Held(s)
    requires s'.pushed[e] + s.queue[e] + s.disposed[e] == s.pushed[e] + s'.queue[e] + s'.disposed[e]
    ensures LedgerStep(tab, e, s, s')
  {
    assert Nest(s') == Nest(s);
  }

  lemma PushLedger(tab: Table, e: Event, s: State, e': Event)
    requires Valid(s)
    ensures LedgerStep(tab, e, s, PushEffect(s, e'))
  {
    QueueStep(tab, e, s, PushEffect(s, e'));
  }

  lemma PollLedger(tab: Table, e: Event, s: State, top: Option<Event>)
    requires Valid(s) && s.edt.Polling? && (s.current.None? ==> s.interrupted == []) && TopOf(s.queue, top)
    ensures LedgerStep(tab, e, s, PollEffect(tab, s, top))
  {
    PollNest(tab, s, top);
    if Balanced(s, e) { PollBalance(tab, e, s, top); }
  }

  lemma CleanQueueLedger(tab: Table, e: Event, s: State, top: Option<Event>)
    requires Valid(s) && s.edt.CleaningQueue? && TopOf(s.queue, top)
    ensures LedgerStep(tab, e, s, CleanQueueEffect(s, top))
  {
    QueueStep(tab, e, s, CleanQueueEffect(s, top));
  }

  lemma DisposeLedger(tab: Table, e: Event, s: State)
    requires Valid(s) && s.edt.Disposing? && !s.ctxs[s.edt.c].freed
    ensures LedgerStep(tab, e, s, DisposeEffect(s))
  {
    if s.edt.stage.Release? {
      ReleaseStep(tab, e, s);
    } else {
      DisposeQuiet(s);
      QuietStep(tab, e, s, DisposeEffect(s));
    }
  }

  lemma ReapLedger(tab: Table, e: Event, s: State, t: nat)
    requires Valid(s) && ThreadAt(s, t, Reaping) && s.threads[t].ctx == Some(t) && !s.ctxs[t].freed && s.edt.Ended?
    ensures LedgerStep(tab, e, s, ReapEffect(s, t))
  {
    FreeStep(tab, e, s, t, ReapEffect(s, t));
  }

  lemma EdtStepLedger(tab: Table, e: Event, s: State, step: Step)
    requires Good(s)
    requires Enabled(s, step) && IsEdtStep(step)
    ensures LedgerStep(tab, e, s, ApplyEdt(tab, s, step))
  {
    match step
    case Poll(top) => PollLedger(tab, e, s, top);
    case PollSuspended => PollSuspendedStep(tab, e, s);
    case Route(subscribed) => RouteStep(tab, e, s, subscribed);
    case ResumeTop => ResumeTopStep(tab, e, s);
    case CleanStack => CleanStackStep(tab, e, s);
    case CleanQueue(top) => CleanQueueLedger(tab, e, s, top);
    case DisposeStep => assert Role(s, s.edt.c); DisposeLedger(tab, e, s);
    case CheckStop => CheckStopLedger(tab, e, s);
    case BeginDispatch => BeginDispatchLedger(tab, e, s);
    case CreateThread(ok) => CreateThreadLedger(tab, e, s, ok);
    case CheckFinished => CheckFinishedLedger(tab, e, s);
    case ClearCurrent => ClearCurrentLedger(tab, e, s);
    case Install => InstallLedger(tab, e, s);
    case Tick => TickLedger(tab, e, s);
    case CleanCurrent => CleanCurrentLedger(tab, e, s);
  }

  lemma OtherStepLedger(tab: Table, e: Event, s: State, step: Step)
    requires Good(s)
    requires Enabled(s, step) && !IsEdtStep(step)
    ensures LedgerStep(tab, e, s, ApplyOther(s, step))
  {
    match step
    case Push(e') => PushLedger(tab, e, s, e');
    case Reap(t) =>
      OwnContext(s, t);
      assert Role(s, t);
      ReapLedger(tab, e, s, t);
    case Start(t) => StartLedger(tab, e, s, t);
    case PointMove(t, m) => PointMoveLedger(tab, e, s, t, m);
    case CallQuit(t) => CallQuitLedger(tab, e, s, t);
    case RequestStop(t) => RequestStopLedger(tab, e, s, t);
    case Joined(t) => JoinedLedger(tab, e, s, t);
    case Return(t) => SetPcLedger(tab, e, s, t, Returned);
    case CheckReap(t) => SetPcLedger(tab, e, s, t, if s.ctxs[Mine(s, t)].reapInHandler then Reaping else Finishing);
    case Finish(t) => FinishLedger(tab, e, s, t);
    case OutsideQuit => OutsideLedger(tab, e, s, Calling, s.stopRequested, s.deleted, s.deleted || !CurrentUsable(s));
    case OutsideStop => OutsideLedger(tab, e, s, Waiting, true, s.deleted, s.deleted);
    case OutsideJoined => OutsideLedger(tab, e, s, Back, s.stopRequested, true, s.deleted);
  }

  /** An event is pushed at most once. */
  lemma PushedOnce(tab: Table, e: Event, s: State, step: Step)
    requires Valid(s) && Enabled(s, step) && s.pushed[e] <= 1
    ensures Apply(tab, s, step).pushed[e] <= 1
  {
    if IsEdtStep(step) { EdtPushesNothing(tab, s, step); }
  }

  lemma EdtPushesNothing(tab: Table, s: State, step: Step)
    requires Valid(s) && Enabled(s, step) && IsEdtStep(step)
    ensures ApplyEdt(tab, s, step).pushed == s.pushed
  {
  }

  ghost predicate Ledger(tab: Table, e: Event, s: State) {
    Balanced(s, e) && Increasing(tab, Nest(s)) && s.pushed[e] <= 1
  }

  lemma {:induction false} ReachableLedger(tab: Table, e: Event, run: seq<Step>)
    requires Legal(tab, run) && !After(tab, run).value.crashed
    ensures Good(After(tab, run).value) && Ledger(tab, e, After(tab, run).value)
  {
    ReachableIsGood(tab, run);
    if run == [] {
    } else {
      var before, step := run[..|run| - 1], run[|run| - 1];
      var s := After(tab, before).value;
      ReachableLedger(tab, e, before);
      if IsEdtStep(step) { EdtStepLedger(tab, e, s, step); } else { OtherStepLedger(tab, e, s, step); }
      NestStepKeeps(tab, Nest(s), Nest(Apply(tab, s, step)));
      PushedOnce(tab, e, s, step);
    }
  }
}
