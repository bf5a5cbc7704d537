/** What the timer wheel keeps over whole runs: no timer fires early or twice too often, and when an add loses one. */
module TimerRuns {
  import opened Wrappers
  import opened Timers

  datatype Op =
    | AddOp(now: int, period: int, recurring: bool, system: bool, topic: nat, args: string)
    | RemoveOp(id: int)
    | CheckOp(now: int)
    | SetResolutionOp(resolution: int)
    | ClearOp

  function Apply(w: Wheel, op: Op): Wheel {
    match op
    case AddOp(now, period, recurring, system, topic, args) => Add(w, now, period, recurring, system, topic, args)
    case RemoveOp(id) => (match Remove(w, id) case Ok(w') => w' case Err(_) => w)
    case CheckOp(now) => Check(w, now)
    case SetResolutionOp(resolution) => w.(resolution := resolution)
    case ClearOp => w.(timers := map[])
  }

  /** The wheel after a run from its creation. */
  function After(ops: seq<Op>): Wheel {
    if ops == [] then Wheel(1, None, map[], [], []) else Apply(After(ops[..|ops| - 1]), ops[|ops| - 1])
  }

  // ---- One tick ----

  /** A tick fires exactly the ready timers, once each and in id order. */
  lemma {:induction false} ReadyInOrder(timers: map<int, TimerValue>, now: int, k: int)
    ensures var ids := ReadyBelow(timers, now, k);
            && (forall i, j :: 0 <= i < j < |ids| ==> ids[i] < ids[j])
            && (forall id :: id in ids <==> MIN_ID <= id < k && id in timers && Ready(timers[id], now))
    decreases k - MIN_ID
  {
    if k > MIN_ID {
      ReadyInOrder(timers, now, k - 1);
      OneMoreReady(timers, now, k, ReadyBelow(timers, now, k - 1), ReadyBelow(timers, now, k));
    } else {
      assert ReadyBelow(timers, now, k) == [];
    }
  }

  lemma OneMoreReady(timers: map<int, TimerValue>, now: int, k: int, before: seq<int>, ids: seq<int>)
    requires k > MIN_ID
    requires forall i, j :: 0 <= i < j < |before| ==> before[i] < before[j]
    requires forall id :: id in before <==> MIN_ID <= id < k - 1 && id in timers && Ready(timers[id], now)
    requires ids == before + (if k - 1 in timers && Ready(timers[k - 1], now) then [k - 1] else [])
    ensures forall i, j :: 0 <= i < j < |ids| ==> ids[i] < ids[j]
    ensures forall id :: id in ids <==> MIN_ID <= id < k && id in timers && Ready(timers[id], now)
  {
    forall i, j | 0 <= i < j < |ids| ensures ids[i] < ids[j] {
      assert ids[i] in before;
    }
    forall id ensures id in ids <==> id in before || (id == k - 1 && k - 1 in timers && Ready(timers[k - 1], now)) {
    }
  }

  /** The timer with this id is due at a time. */
  predicate DueAt(w: Wheel, id: int, now: int) {
    id in w.timers && w.timers[id].lastFired + w.timers[id].period <= now
  }

  /**
   What a check does to every timer. While the resolution has not passed since the last tick nothing changes. After
   that, and at the first check, the due timers are logged, and they are restamped if they are recurring and gone if
   they are not; the others are as they were.
   */
  lemma CheckTicks(w: Wheel, now: int)
    requires forall id :: id in w.timers ==> MIN_ID <= id <= MAX_ID
    ensures var w' := Check(w, now);
            if w.lastTick.Some? && now < w.lastTick.value + w.resolution then w' == w
            else
              && w'.lastTick == Some(now) && w'.resolution == w.resolution && w'.made == w.made && w.log <= w'.log
              && (forall f :: f in w'.log[|w.log|..] <==> exists id :: DueAt(w, id, now) && f == FiringAt(w, id, now))
              && (forall id :: id in w'.timers <==> id in w.timers && (w.timers[id].recurring || !DueAt(w, id, now)))
              && (forall id :: id in w'.timers ==>
                    w'.timers[id] == w.timers[id].(
                      lastFired := if DueAt(w, id, now) then now else w.timers[id].lastFired))
  {
    if w.lastTick.None? || w.lastTick.value + w.resolution <= now {
      var fired := FiredBelow(w.timers, now, MAX_ID + 1);
      assert Check(w, now).log[|w.log|..] == fired;
      forall f ensures f in fired <==> exists id :: DueAt(w, id, now) && f == FiringAt(w, id, now) {
        FiredExactly(w, now, f);
      }
    }
  }

  function FiringAt(w: Wheel, id: int, now: int): Firing
    requires id in w.timers
  {
    Firing(w.timers[id].serial, now, w.timers[id].topic, w.timers[id].args)
  }

  lemma FiredExactly(w: Wheel, now: int, f: Firing)
    requires forall id :: id in w.timers ==> MIN_ID <= id <= MAX_ID
    ensures f in FiredBelow(w.timers, now, MAX_ID + 1) <==>
            exists id :: DueAt(w, id, now) && f == FiringAt(w, id, now)
  {
    var ids, fired := ReadyBelow(w.timers, now, MAX_ID + 1), FiredBelow(w.timers, now, MAX_ID + 1);
    ReadyInOrder(w.timers, now, MAX_ID + 1);
    if f in fired {
      var j :| 0 <= j < |fired| && fired[j] == f;
      assert DueAt(w, ids[j], now) && f == FiringAt(w, ids[j], now);
    }
    if id :| DueAt(w, id, now) && f == FiringAt(w, id, now) {
      assert id in ids;
      var j :| 0 <= j < |ids| && ids[j] == id;
      assert fired[j] == f;
    }
  }

  /** The conversion to int16_t keeps the size modulo 2^16. */
  lemma ToInt16IsCongruent(n: nat)
    ensures (n - ToInt16(n)) % 65536 == 0
  {
    assert n == 65536 * (n / 65536) + n % 65536;
    if n % 65536 > MAX_ID {
      assert n - ToInt16(n) == 65536 * (n / 65536 + 1);
    }
  }

  /** The times in the log of one timer's firings. */
  function Times(log: seq<Firing>, serial: nat): seq<int> {
    if log == [] then []
    else
      var last := log[|log| - 1];
      Times(log[..|log| - 1], serial) + (if last.serial == serial then [last.at] else [])
  }

  lemma {:induction false} TimesOfConcat(a: seq<Firing>, b: seq<Firing>, serial: nat)
    ensures Times(a + b, serial) == Times(a, serial) + Times(b, serial)
    decreases |b|
  {
    if b == [] {
      assert a + b == a;
    } else {
      assert (a + b)[..|a + b| - 1] == a + b[..|b| - 1];
      TimesOfConcat(a, b[..|b| - 1], serial);
    }
  }

  /** No two entries are the same timer. */
  ghost predicate Distinct(timers: map<int, TimerValue>) {
    forall i, j :: i in timers && j in timers && timers[i].serial == timers[j].serial ==> i == j
  }

  lemma {:induction false} FiredAtMostOnce(timers: map<int, TimerValue>, now: int, k: int, id: int)
    requires Distinct(timers) && id in timers && MIN_ID <= id
    ensures Times(FiredBelow(timers, now, k), timers[id].serial) == if id < k && Ready(timers[id], now) then [now]
            else []
    decreases k - MIN_ID
  {
    if k > MIN_ID {
      FiredAtMostOnce(timers, now, k - 1, id);
      FiredStep(timers, now, k);
    }
  }

  lemma {:induction false} FiredByNoOther(timers: map<int, TimerValue>, now: int, k: int, serial: nat)
    requires forall id :: id in timers ==> timers[id].serial != serial
    ensures Times(FiredBelow(timers, now, k), serial) == []
    decreases k - MIN_ID
  {
    if k > MIN_ID {
      FiredByNoOther(timers, now, k - 1, serial);
      FiredStep(timers, now, k);
    }
  }

  lemma FiredStep(timers: map<int, TimerValue>, now: int, k: int)
    requires k > MIN_ID
    ensures var fired, before := FiredBelow(timers, now, k), FiredBelow(timers, now, k - 1);
            if k - 1 in timers && Ready(timers[k - 1], now)
            then |fired| == |before| + 1 && fired[..|fired| - 1] == before
                && fired[|fired| - 1] == FiringOf(timers[k - 1], now)
            else fired == before
  {
  }

  // ---- The rate bound ----

  /** The k-th firing, counted from 1, is at least k periods after the creation; a one-shot fires once. */
  predicate InTime(times: seq<int>, made: Made) {
    && (forall k :: 0 <= k < |times| ==> times[k] >= Due(made, k + 1))
    && (!made.recurring ==> |times| <= 1)
  }

  function Due(made: Made, k: nat): int {
    made.created + k * made.period
  }

  lemma DueNext(made: Made, k: nat)
    ensures Due(made, k + 1) == Due(made, k) + made.period
  {
    assert (k + 1) * made.period == k * made.period + made.period;
  }

  /** A timer in the list is the one made under its serial, and its next firing will be in time. */
  ghost predicate Live(w: Wheel, id: int)
    requires id in w.timers
  {
    var t := w.timers[id];
    && MIN_ID <= id <= MAX_ID && t.serial < |w.made|
    && t.period == w.made[t.serial].period && t.recurring == w.made[t.serial].recurring
    && t.lastFired >= Due(w.made[t.serial], |Times(w.log, t.serial)|)
    && (!t.recurring ==> Times(w.log, t.serial) == [])
  }

  ghost predicate Rated(w: Wheel) {
    && Distinct(w.timers)
    && (forall id :: id in w.timers ==> Live(w, id))
    && (forall s :: 0 <= s < |w.made| ==> InTime(Times(w.log, s), w.made[s]))
    && (forall n :: 0 <= n < |w.log| ==> w.log[n].serial < |w.made|)
  }

  lemma {:induction false} NotYetFired(log: seq<Firing>, serial: nat)
    requires forall n :: 0 <= n < |log| ==> log[n].serial < serial
    ensures Times(log, serial) == []
  {
    if log != [] {
      NotYetFired(log[..|log| - 1], serial);
    }
  }

  lemma AddKeepsRated(w: Wheel, now: int, period: int, recurring: bool, system: bool, topic: nat, args: string)
    requires Rated(w)
    ensures Rated(Add(w, now, period, recurring, system, topic, args))
  {
    NotYetFired(w.log, |w.made|);
    var w' := Add(w, now, period, recurring, system, topic, args);
    forall id | id in w'.timers ensures Live(w', id) {
      if id != ToInt16(|w.timers|) {
        assert Live(w, id);
      }
    }
    forall i, j | i in w'.timers && j in w'.timers && w'.timers[i].serial == w'.timers[j].serial ensures i == j {
      if i != ToInt16(|w.timers|) { assert Live(w, i); }
      if j != ToInt16(|w.timers|) { assert Live(w, j); }
    }
  }

  lemma OneMoreInTime(times: seq<int>, made: Made, lastFired: int, now: int)
    requires InTime(times, made) && lastFired >= Due(made, |times|) && (!made.recurring ==> times == [])
    requires lastFired + made.period <= now
    ensures InTime(times + [now], made)
  {
    DueNext(made, |times|);
  }

  /** One tick seen from a timer in the list. */
  lemma TickTimes(w: Wheel, now: int, id: int)
    requires Rated(w) && TickIsDue(w, now) && id in w.timers
    ensures Times(Check(w, now).log, w.timers[id].serial)
         == Times(w.log, w.timers[id].serial) + (if Ready(w.timers[id], now) then [now] else [])
  {
    assert Live(w, id);
    TimesOfConcat(w.log, FiredBelow(w.timers, now, MAX_ID + 1), w.timers[id].serial);
    FiredAtMostOnce(w.timers, now, MAX_ID + 1, id);
  }

  /** One tick seen from a timer that is not there. */
  lemma NoTickTimes(w: Wheel, now: int, serial: nat)
    requires TickIsDue(w, now) && forall id :: id in w.timers ==> w.timers[id].serial != serial
    ensures Times(Check(w, now).log, serial) == Times(w.log, serial)
  {
    TimesOfConcat(w.log, FiredBelow(w.timers, now, MAX_ID + 1), serial);
    FiredByNoOther(w.timers, now, MAX_ID + 1, serial);
  }

  lemma TickOfLive(w: Wheel, now: int, id: int)
    requires Rated(w) && TickIsDue(w, now) && id in w.timers
    ensures InTime(Times(Check(w, now).log, w.timers[id].serial), w.made[w.timers[id].serial])
  {
    var t := w.timers[id];
    assert Live(w, id);
    TickTimes(w, now, id);
    if Ready(t, now) {
      OneMoreInTime(Times(w.log, t.serial), w.made[t.serial], t.lastFired, now);
    }
  }

  lemma TickKeepsLive(w: Wheel, now: int, id: int)
    requires Rated(w) && TickIsDue(w, now) && id in Check(w, now).timers
    ensures Live(Check(w, now), id)
  {
    assert Live(w, id);
    TickTimes(w, now, id);
    DueNext(w.made[w.timers[id].serial], |Times(w.log, w.timers[id].serial)|);
  }

  lemma {:induction false} FiredSerials(w: Wheel, now: int, k: int)
    requires Rated(w)
    ensures forall n :: 0 <= n < |FiredBelow(w.timers, now, k)| ==> FiredBelow(w.timers, now, k)[n].serial < |w.made|
  {
    var ids := ReadyBelow(w.timers, now, k);
    forall n | 0 <= n < |ids| ensures FiredBelow(w.timers, now, k)[n].serial < |w.made| {
      assert Live(w, ids[n]);
    }
  }

  lemma CheckKeepsRated(w: Wheel, now: int)
    requires Rated(w)
    ensures Rated(Check(w, now))
  {
    if TickIsDue(w, now) {
      var w' := Check(w, now);
      forall id | id in w'.timers ensures Live(w', id) {
        TickKeepsLive(w, now, id);
      }
      forall s: nat | s < |w.made| ensures InTime(Times(w'.log, s), w.made[s]) {
        if id :| id in w.timers && w.timers[id].serial == s {
          TickOfLive(w, now, id);
        } else {
          NoTickTimes(w, now, s);
        }
      }
      FiredSerials(w, now, MAX_ID + 1);
    }
  }

  lemma {:induction false} ReachableIsRated(ops: seq<Op>)
    ensures Rated(After(ops))
  {
    if ops != [] {
      var w, op := After(ops[..|ops| - 1]), ops[|ops| - 1];
      ReachableIsRated(ops[..|ops| - 1]);
      match op {
        case AddOp(now, period, recurring, system, topic, args) =>
          AddKeepsRated(w, now, period, recurring, system, topic, args);
        case CheckOp(now) => CheckKeepsRated(w, now);
        case RemoveOp(id) =>
          var w' := Apply(w, op);
          assert forall i :: i in w'.timers ==>
              i in w.timers && w'.timers[i] == w.timers[i] && (Live(w, i) ==> Live(w', i));
        case SetResolutionOp(resolution) =>
          var w' := Apply(w, op);
          assert forall i :: i in w'.timers ==> (Live(w, i) ==> Live(w', i));
        case ClearOp =>
      }
    }
  }

  /** In every run, whatever the clock does, no firing comes early and no one-shot fires twice. */
  lemma RateBound(ops: seq<Op>, serial: nat)
    requires serial < |After(ops).made|
    ensures var times, made := Times(After(ops).log, serial), After(ops).made[serial];
            && (forall k :: 0 <= k < |times| ==> times[k] >= Due(made, k + 1))
            && (!made.recurring ==> |times| <= 1)
  {
    ReachableIsRated(ops);
  }

  // ---- With a clock ----

  /** Every clock reading of the run is at most now. */
  predicate ReadUpTo(ops: seq<Op>, now: int) {
    forall n :: 0 <= n < |ops| ==> (ops[n].AddOp? || ops[n].CheckOp? ==> ops[n].now <= now)
  }

  lemma {:induction false} NothingFromTheFuture(ops: seq<Op>, now: int)
    requires ReadUpTo(ops, now)
    ensures forall n :: 0 <= n < |After(ops).log| ==> After(ops).log[n].at <= now
    ensures forall s :: 0 <= s < |After(ops).made| ==> After(ops).made[s].created <= now
  {
    if ops != [] {
      assert ReadUpTo(ops[..|ops| - 1], now);
      NothingFromTheFuture(ops[..|ops| - 1], now);
    }
  }

  lemma {:induction false} TimesAreInLog(log: seq<Firing>, serial: nat, now: int)
    requires forall n :: 0 <= n < |log| ==> log[n].at <= now
    ensures forall k :: 0 <= k < |Times(log, serial)| ==> Times(log, serial)[k] <= now
  {
    if log != [] {
      TimesAreInLog(log[..|log| - 1], serial, now);
    }
  }

  /** A timer that fired k times took k periods for it. */
  lemma ElapsedBound(ops: seq<Op>, serial: nat, now: int)
    requires serial < |After(ops).made| && ReadUpTo(ops, now)
    ensures var made := After(ops).made[serial];
            |Times(After(ops).log, serial)| * made.period <= now - made.created
  {
    NothingFromTheFuture(ops, now);
    TimesAreInLog(After(ops).log, serial, now);
    RateBound(ops, serial);
    var times := Times(After(ops).log, serial);
    if |times| > 0 {
      assert times[|times| - 1] >= Due(After(ops).made[serial], |times|);
    }
  }

  /** The slip: each firing is at least a period after the one before, so a late one delays all later ones. */
  lemma {:induction false} FiringsAreSpaced(ops: seq<Op>, serial: nat)
    requires serial < |After(ops).made|
    ensures var times := Times(After(ops).log, serial);
            forall k :: 0 < k < |times| ==> times[k] >= times[k - 1] + After(ops).made[serial].period
  {
    SpacedAndLast(ops, serial);
  }

  predicate SpacedTimes(times: seq<int>, period: int) {
    forall k :: 0 < k < |times| ==> times[k] >= times[k - 1] + period
  }

  ghost predicate Spaced(w: Wheel, serial: nat)
    requires serial < |w.made|
  {
    var times := Times(w.log, serial);
    && SpacedTimes(times, w.made[serial].period)
    && (times != [] ==>
          forall id :: id in w.timers && w.timers[id].serial == serial ==> w.timers[id].lastFired == times[|times| - 1])
  }

  lemma {:induction false} SpacedAndLast(ops: seq<Op>, serial: nat)
    requires serial < |After(ops).made|
    ensures Spaced(After(ops), serial)
  {
    if ops != [] {
      var w, op := After(ops[..|ops| - 1]), ops[|ops| - 1];
      ReachableIsRated(ops[..|ops| - 1]);
      if serial < |w.made| {
        SpacedAndLast(ops[..|ops| - 1], serial);
        StepKeepsSpaced(w, op, serial);
      } else {
        NotYetFired(w.log, serial);
      }
    }
  }

  lemma StepKeepsSpaced(w: Wheel, op: Op, serial: nat)
    requires Rated(w) && serial < |w.made| && Spaced(w, serial)
    ensures Spaced(Apply(w, op), serial)
  {
    if op.CheckOp? {
      CheckKeepsSpaced(w, op.now, serial);
    } else {
      var w' := Apply(w, op);
      assert w'.log == w.log && w'.made[serial] == w.made[serial];
      assert forall id :: id in w'.timers && w'.timers[id].serial == serial ==>
          id in w.timers && w'.timers[id] == w.timers[id];
    }
  }

  lemma CheckKeepsSpaced(w: Wheel, now: int, serial: nat)
    requires Rated(w) && serial < |w.made| && Spaced(w, serial)
    ensures Spaced(Check(w, now), serial)
  {
    if TickIsDue(w, now) {
      if id :| id in w.timers && w.timers[id].serial == serial {
        TickKeepsSpaced(w, now, id);
      } else {
        NoTickTimes(w, now, serial);
      }
    }
  }

  lemma TickKeepsSpaced(w: Wheel, now: int, id: int)
    requires Rated(w) && TickIsDue(w, now) && id in w.timers
    requires Live(w, id) && Spaced(w, w.timers[id].serial)
    ensures Spaced(Check(w, now), w.timers[id].serial)
  {
    var serial := w.timers[id].serial;
    TickTimes(w, now, id);
    SpacedAfter(w, now, id, Times(w.log, serial), Times(Check(w, now).log, serial));
  }

  lemma SpacedAfter(w: Wheel, now: int, id: int, times: seq<int>, after: seq<int>)
    requires Distinct(w.timers) && id in w.timers && TickIsDue(w, now)
    requires after == times + if Ready(w.timers[id], now) then [now] else []
    requires SpacedTimes(times, w.timers[id].period) && (times != [] ==> w.timers[id].lastFired == times[|times| - 1])
    ensures SpacedTimes(after, w.timers[id].period)
    ensures var ticked := AfterTick(w.timers, now);
            after != [] ==>
              forall i :: i in ticked && ticked[i].serial == w.timers[id].serial ==>
                ticked[i].lastFired == after[|after| - 1]
  {
    forall i | after != [] && i in AfterTick(w.timers, now) && AfterTick(w.timers, now)[i].serial == w.timers[id].serial
      ensures AfterTick(w.timers, now)[i].lastFired == after[|after| - 1]
    {
      assert w.timers[i].serial == w.timers[id].serial && i == id;
    }
  }

  // ---- Firing on ----

  function Instant(start: int, gap: int, k: nat): int {
    if k == 0 then start else Instant(start, gap, k - 1) + gap
  }

  /** k checks with the same time between them. */
  function Checks(start: int, gap: int, k: nat): (ops: seq<Op>)
    ensures |ops| == k
  {
    if k == 0 then [] else Checks(start, gap, k - 1) + [CheckOp(Instant(start, gap, k - 1))]
  }

  function Instants(start: int, gap: int, k: nat): (times: seq<int>)
    ensures |times| == k
  {
    if k == 0 then [] else Instants(start, gap, k - 1) + [Instant(start, gap, k - 1)]
  }

  lemma LastOp(ops: seq<Op>, more: seq<Op>, op: Op)
    ensures After(ops + (more + [op])) == Apply(After(ops + more), op)
  {
    assert (ops + (more + [op]))[..|ops + (more + [op])| - 1] == ops + more;
  }

  /** A timer of this serial, period and kind is there, and neither it nor the wheel has waited beyond `start`. */
  ghost predicate Waiting(w: Wheel, id: int, t: TimerValue, start: int) {
    && DueAt(w, id, start) && w.timers[id] == t.(lastFired := w.timers[id].lastFired)
    && (w.lastTick.Some? ==> w.lastTick.value + w.resolution <= start)
  }

  lemma FiresOnce(w: Wheel, id: int, t: TimerValue, now: int, gap: int)
    requires Rated(w) && t.recurring && Waiting(w, id, t, now) && gap >= w.resolution && gap >= t.period
    ensures Waiting(Check(w, now), id, t, now + gap) && Check(w, now).resolution == w.resolution
    ensures Times(Check(w, now).log, t.serial) == Times(w.log, t.serial) + [now]
  {
    assert forall i :: i in w.timers ==> Live(w, i);
    CheckTicks(w, now);
    TickTimes(w, now, id);
  }

  /** The timer waits for the k-th check, has fired at those before it, and nothing else about it has changed. */
  ghost predicate FiredOn(w: Wheel, id: int, t: TimerValue, times: seq<int>, next: int, resolution: int) {
    Waiting(w, id, t, next) && w.resolution == resolution && Times(w.log, t.serial) == times
  }

  lemma FiresAgain(w: Wheel, id: int, t: TimerValue, times: seq<int>, now: int, gap: int, resolution: int)
    requires Rated(w) && t.recurring && FiredOn(w, id, t, times, now, resolution)
    requires gap >= resolution && gap >= t.period
    ensures FiredOn(Check(w, now), id, t, times + [now], now + gap, resolution)
  {
    FiresOnce(w, id, t, now, gap);
  }

  lemma FiresAgainAfter(ops: seq<Op>, more: seq<Op>, id: int, t: TimerValue, before: seq<int>, times: seq<int>,
                        now: int, gap: int, resolution: int)
    requires t.recurring && FiredOn(After(ops + more), id, t, before + times, now, resolution)
    requires gap >= resolution && gap >= t.period
    ensures FiredOn(After(ops + (more + [CheckOp(now)])), id, t, before + (times + [now]), now + gap, resolution)
  {
    ReachableIsRated(ops + more);
    FiresAgain(After(ops + more), id, t, before + times, now, gap, resolution);
    LastOp(ops, more, CheckOp(now));
    assert before + times + [now] == before + (times + [now]);
  }

  lemma {:induction false} FiresThrough(ops: seq<Op>, id: int, t: TimerValue, before: seq<int>, start: int, gap: int,
                                        resolution: int, k: nat)
    requires t.recurring && FiredOn(After(ops), id, t, before, start, resolution)
    requires gap >= resolution && gap >= t.period
    ensures FiredOn(After(ops + Checks(start, gap, k)), id, t, before + Instants(start, gap, k), Instant(start, gap, k),
                    resolution)
  {
    if k == 0 {
      assert ops + Checks(start, gap, 0) == ops && before + Instants(start, gap, 0) == before;
    } else {
      FiresThrough(ops, id, t, before, start, gap, resolution, k - 1);
      FiresAgainAfter(ops, Checks(start, gap, k - 1), id, t, before, Instants(start, gap, k - 1),
                      Instant(start, gap, k - 1), gap, resolution);
    }
  }

  /**
   A recurring timer goes on firing: after any run, checks no closer together than the period and the resolution fire
   it every time.
   */
  lemma KeepsFiring(ops: seq<Op>, id: int, start: int, gap: int, k: nat)
    requires DueAt(After(ops), id, start) && After(ops).timers[id].recurring
    requires After(ops).lastTick.Some? ==> After(ops).lastTick.value + After(ops).resolution <= start
    requires gap >= After(ops).resolution && gap >= After(ops).timers[id].period
    ensures var w, w' := After(ops), After(ops + Checks(start, gap, k));
            && Times(w'.log, w.timers[id].serial)
               == Times(w.log, w.timers[id].serial) + Instants(start, gap, k)
            && DueAt(w', id, Instant(start, gap, k))
  {
    var w, t := After(ops), After(ops).timers[id];
    FiresThrough(ops, id, t, Times(w.log, t.serial), start, gap, w.resolution, k);
  }

  // ---- Timers that are gone ----

  ghost predicate Gone(w: Wheel, serial: nat) {
    serial < |w.made| && forall id :: id in w.timers ==> w.timers[id].serial != serial
  }

  lemma StaysGone(w: Wheel, op: Op, serial: nat)
    requires Gone(w, serial)
    ensures Gone(Apply(w, op), serial) && Times(Apply(w, op).log, serial) == Times(w.log, serial)
  {
    if op.CheckOp? && TickIsDue(w, op.now) { NoTickTimes(w, op.now, serial); }
  }

  /** A timer that is not in the list any more never fires again. */
  lemma {:induction false} GoneIsSilent(ops: seq<Op>, more: seq<Op>, serial: nat)
    requires Gone(After(ops), serial)
    ensures Gone(After(ops + more), serial) && Times(After(ops + more).log, serial) == Times(After(ops).log, serial)
  {
    if more == [] {
      assert ops + more == ops;
    } else {
      var most, op := more[..|more| - 1], more[|more| - 1];
      assert more == most + [op];
      GoneIsSilent(ops, most, serial);
      LastOp(ops, most, op);
      StaysGone(After(ops + most), op, serial);
    }
  }

  /** Removing a timer that is no system timer silences it for ever, and no other timer goes. */
  lemma RemovedIsSilent(ops: seq<Op>, id: int, more: seq<Op>)
    requires id in After(ops).timers && !After(ops).timers[id].system
    ensures var serial := After(ops).timers[id].serial;
            Times(After(ops + [RemoveOp(id)] + more).log, serial) == Times(After(ops).log, serial)
    ensures var w, w' := After(ops), After(ops + [RemoveOp(id)]);
            forall i :: i in w.timers && i != id ==> i in w'.timers && w'.timers[i] == w.timers[i]
  {
    var w := After(ops);
    ReachableIsRated(ops);
    assert Live(w, id);
    LastOp(ops, [], RemoveOp(id));
    assert ops + [] == ops && [] + [RemoveOp(id)] == [RemoveOp(id)];
    GoneIsSilent(ops + [RemoveOp(id)], more, w.timers[id].serial);
  }

  /** Nobody can remove a system timer, or anything by a wrong id. */
  lemma RemoveRefusedIff(w: Wheel, id: int)
    ensures Remove(w, id).Err? <==> id !in w.timers || w.timers[id].system
    ensures Remove(w, id).Err? ==> Apply(w, RemoveOp(id)) == w
    ensures forall i :: i in w.timers && w.timers[i].system ==>
              i in Apply(w, RemoveOp(id)).timers && Apply(w, RemoveOp(id)).timers[i] == w.timers[i]
  {
  }

  // ---- Where firings come from ----

  /** The adds of a run, in order. */
  function Adds(ops: seq<Op>): (adds: seq<Op>)
    ensures forall i :: 0 <= i < |adds| ==> adds[i].AddOp?
  {
    if ops == [] then []
    else Adds(ops[..|ops| - 1]) + (if ops[|ops| - 1].AddOp? then [ops[|ops| - 1]] else [])
  }

  predicate MadeBy(t: TimerValue, adds: seq<Op>)
    requires forall i :: 0 <= i < |adds| ==> adds[i].AddOp?
  {
    && t.serial < |adds| && t.period == adds[t.serial].period && t.recurring == adds[t.serial].recurring
    && t.system == adds[t.serial].system && t.topic == adds[t.serial].topic && t.args == adds[t.serial].args
  }

  predicate FiredBy(f: Firing, adds: seq<Op>)
    requires forall i :: 0 <= i < |adds| ==> adds[i].AddOp?
  {
    f.serial < |adds| && f.topic == adds[f.serial].topic && f.args == adds[f.serial].args
  }

  /** Timers and firings are those of the adds with their serials. */
  ghost predicate Traced(w: Wheel, adds: seq<Op>)
    requires forall i :: 0 <= i < |adds| ==> adds[i].AddOp?
  {
    && |w.made| == |adds|
    && (forall i :: 0 <= i < |adds| ==> w.made[i] == Made(adds[i].now, adds[i].period, adds[i].recurring))
    && (forall id :: id in w.timers ==> MIN_ID <= id <= MAX_ID && MadeBy(w.timers[id], adds))
    && (forall n :: 0 <= n < |w.log| ==> FiredBy(w.log[n], adds))
  }

  lemma CheckTraced(w: Wheel, now: int, adds: seq<Op>)
    requires forall i :: 0 <= i < |adds| ==> adds[i].AddOp?
    requires Traced(w, adds)
    ensures Traced(Check(w, now), adds)
  {
    CheckTicks(w, now);
    var log := Check(w, now).log;
    forall n | |w.log| <= n < |log| ensures FiredBy(log[n], adds) {
      assert log[n] == log[|w.log|..][n - |w.log|];
      var id :| DueAt(w, id, now) && log[n] == FiringAt(w, id, now);
    }
  }

  lemma AddTraced(w: Wheel, op: Op, adds: seq<Op>)
    requires forall i :: 0 <= i < |adds| ==> adds[i].AddOp?
    requires Traced(w, adds) && op.AddOp?
    ensures Traced(Apply(w, op), adds + [op])
  {
  }

  lemma {:induction false} ReachableIsTraced(ops: seq<Op>)
    ensures Traced(After(ops), Adds(ops))
  {
    if ops != [] {
      var before, op := ops[..|ops| - 1], ops[|ops| - 1];
      ReachableIsTraced(before);
      if op.CheckOp? {
        CheckTraced(After(before), op.now, Adds(before));
      } else if op.AddOp? {
        AddTraced(After(before), op, Adds(before));
      }
    }
  }

  /** Every event comes from an add of the run, with its topic and arguments, a period after the add or later. */
  lemma FiringsComeFromAdds(ops: seq<Op>, n: nat)
    requires n < |After(ops).log|
    ensures var f := After(ops).log[n];
            && f.serial < |Adds(ops)|
            && var add := Adds(ops)[f.serial];
               f.topic == add.topic && f.args == add.args && (add.period >= 0 ==> f.at >= add.now + add.period)
  {
    ReachableIsTraced(ops);
    var f := After(ops).log[n];
    RateBound(ops, f.serial);
    LoggedIsTimed(After(ops).log, n);
    FirstDue(ops, f.serial, f.at);
  }

  lemma {:induction false} LoggedIsTimed(log: seq<Firing>, n: nat)
    requires n < |log|
    ensures log[n].at in Times(log, log[n].serial)
  {
    if n < |log| - 1 { LoggedIsTimed(log[..|log| - 1], n); }
  }

  /** No firing is before the first is due. */
  lemma FirstDue(ops: seq<Op>, serial: nat, at: int)
    requires serial < |After(ops).made| && at in Times(After(ops).log, serial)
    ensures var made := After(ops).made[serial]; made.period >= 0 ==> at >= made.created + made.period
  {
    RateBound(ops, serial);
    var times, made := Times(After(ops).log, serial), After(ops).made[serial];
    var k: nat :| k < |times| && times[k] == at;
    assert times[k] >= Due(made, k + 1);
    DueNext(made, k);
    if made.period >= 0 { DueGrows(made, k); }
  }

  lemma DueGrows(made: Made, k: nat)
    requires made.period >= 0
    ensures Due(made, k) >= made.created
  {
  }

  // ---- When an add loses a timer ----

  /** All timers that were there still are. */
  ghost predicate KeepsAll(before: map<int, TimerValue>, after: map<int, TimerValue>) {
    forall id :: id in before ==> id in after && after[id] == before[id]
  }

  /** An add overwrites a live timer exactly when the size of the list is already an id. */
  lemma AddKeepsAllIff(ops: seq<Op>, now: int, period: int, recurring: bool, system: bool, topic: nat, args: string)
    ensures var w := After(ops);
            KeepsAll(w.timers, Add(w, now, period, recurring, system, topic, args).timers) <==>
            ToInt16(|w.timers|) !in w.timers
  {
    ReachableIsRated(ops);
    var w := After(ops);
    if ToInt16(|w.timers|) in w.timers {
      assert Live(w, ToInt16(|w.timers|));
    }
  }

  /** Only adds change which ids there are: nothing is erased, by a removal, a one-shot's firing or a clear. */
  ghost predicate NothingErased(ops: seq<Op>) {
    ops != [] ==>
      var before, op := ops[..|ops| - 1], ops[|ops| - 1];
      NothingErased(before) && (op.AddOp? || After(ops).timers.Keys == After(before).timers.Keys)
  }

  /** The ids of the first n timers. */
  function FirstIds(n: nat): set<int> {
    set i: nat | i < n :: ToInt16(i)
  }

  lemma OneMoreId(n: nat)
    requires n < 65536
    ensures FirstIds(n + 1) == FirstIds(n) + {ToInt16(n)} && ToInt16(n) !in FirstIds(n)
  {
  }

  lemma {:induction false} AllIds(n: nat)
    requires n <= 65536
    ensures |FirstIds(n)| == n
  {
    if n > 0 {
      AllIds(n - 1);
      OneMoreId(n - 1);
    } else {
      assert FirstIds(0) == {};
    }
  }

  /** As long as nothing is erased the ids are 0, 1, 2 and so on, one for each of up to 65536 adds. */
  lemma {:induction false} IdsStayDense(ops: seq<Op>)
    requires NothingErased(ops) && |After(ops).made| <= 65536
    ensures After(ops).timers.Keys == FirstIds(|After(ops).made|)
  {
    if ops != [] {
      var before, op := ops[..|ops| - 1], ops[|ops| - 1];
      MadeGrows(After(before), op);
      IdsStayDense(before);
      if op.AddOp? {
        var n := |After(before).made|;
        AllIds(n);
        assert |After(before).timers| == |After(before).timers.Keys|;
        OneMoreId(n);
      }
    } else {
      assert FirstIds(0) == {};
    }
  }

  lemma MadeGrows(w: Wheel, op: Op)
    ensures |Apply(w, op).made| == |w.made| + if op.AddOp? then 1 else 0
  {
  }

  /** So while nothing is erased an add loses a timer exactly when all 65536 ids are taken. */
  lemma DenseAddLosesIff(ops: seq<Op>, now: int, period: int, recurring: bool, system: bool, topic: nat, args: string)
    requires NothingErased(ops) && |After(ops).made| <= 65536
    ensures var w := After(ops);
            !KeepsAll(w.timers, Add(w, now, period, recurring, system, topic, args).timers) <==> |w.made| == 65536
  {
    var w := After(ops);
    var n := |w.made|;
    IdsStayDense(ops);
    AllIds(n);
    assert |w.timers| == |w.timers.Keys| == n;
    AddKeepsAllIff(ops, now, period, recurring, system, topic, args);
    if n < 65536 {
      OneMoreId(n);
    } else {
      assert ToInt16(0) in FirstIds(n);
    }
  }

  /** With delay and add_timer alone: the one-shot fires and is erased, and the next add overwrites a live timer. */
  function LosingRun(): seq<Op> {
    [AddOp(0, 1, false, true, 0, "a"), AddOp(0, 5, true, true, 0, "b"), CheckOp(1), AddOp(2, 5, true, true, 0, "c")]
  }

  lemma AddCanLose()
    ensures After(LosingRun()[..3]).timers == map[1 := TimerValue(5, 0, true, true, 0, "b", 1)]
    ensures After(LosingRun()).timers == map[1 := TimerValue(5, 2, true, true, 0, "c", 2)]
    ensures After(LosingRun()).log == [Firing(0, 1, 0, "a")]
  {
    var a, b := TimerValue(1, 0, false, true, 0, "a", 0), TimerValue(5, 0, true, true, 0, "b", 1);
    var ops := LosingRun();
    TwoAdds(a, b);
    var w := Wheel(1, None, map[0 := a, 1 := b], [Made(0, 1, false), Made(0, 5, true)], []);
    assert ops[..3][..2] == ops[..2];
    assert After(ops[..3]) == Check(w, 1);
    OneFires(w, a, b);
    assert ops[..4] == ops && ops[..4][..3] == ops[..3];
    AddOnOne(Check(w, 1), b, 2, "c");
  }

  lemma TwoAdds(a: TimerValue, b: TimerValue)
    requires a == TimerValue(1, 0, false, true, 0, "a", 0) && b == TimerValue(5, 0, true, true, 0, "b", 1)
    ensures After(LosingRun()[..2]) == Wheel(1, None, map[0 := a, 1 := b], [Made(0, 1, false), Made(0, 5, true)], [])
  {
    var ops := LosingRun();
    assert ops[..2][..1][..0] == [];
    var w := Wheel(1, None, map[0 := a], [Made(0, 1, false)], []);
    assert After(ops[..2][..1]) == w;
    assert |w.timers.Keys| == 1;
    assert Add(w, 0, 5, true, true, 0, "b").timers == map[0 := a, 1 := b];
  }

  lemma OneFires(w: Wheel, a: TimerValue, b: TimerValue)
    requires a == TimerValue(1, 0, false, true, 0, "a", 0) && b == TimerValue(5, 0, true, true, 0, "b", 1)
    requires w.lastTick.None? && w.timers == map[0 := a, 1 := b] && w.log == []
    ensures Check(w, 1).timers == map[1 := b] && Check(w, 1).log == [Firing(0, 1, 0, "a")]
    ensures Check(w, 1).made == w.made
  {
    OnlyOneReady(w.timers, 1, MAX_ID + 1, 0);
  }

  /** A single timer with id 1 is what the next add overwrites. */
  lemma AddOnOne(w: Wheel, b: TimerValue, now: int, args: string)
    requires w.timers == map[1 := b]
    ensures Add(w, now, 5, true, true, 0, args).timers == map[1 := TimerValue(5, now, true, true, 0, args, |w.made|)]
  {
    assert |w.timers.Keys| == 1;
  }

  lemma {:induction false} OnlyOneReady(timers: map<int, TimerValue>, now: int, k: int, id: int)
    requires MIN_ID <= id <= MAX_ID && forall i :: i in timers && Ready(timers[i], now) <==> i == id
    ensures ReadyBelow(timers, now, k) == if id < k then [id] else []
    decreases k - MIN_ID
  {
    if k > MIN_ID {
      OnlyOneReady(timers, now, k - 1, id);
    }
  }
}
