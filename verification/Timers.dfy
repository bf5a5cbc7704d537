/** The timer wheel of `src/event/timer.cpp`: adding, removing and the loop that fires and erases. */
module Timers {
  import opened Wrappers

  /** Range of int16_t. */
  const MIN_ID := -32768
  const MAX_ID := 32767

  /** The conversion of a size to int16_t. */
  function ToInt16(n: nat): (id: int)
    ensures MIN_ID <= id <= MAX_ID
  {
    var m := n % 65536;
    if m <= MAX_ID then m else m - 65536
  }

  // ---- Values ----

  /** A timer; `serial` tells apart timers that get the same id at different times. */
  datatype TimerValue = TimerValue(period: int, lastFired: int, recurring: bool, system: bool, topic: nat,
      args: string, serial: nat)

  datatype Firing = Firing(serial: nat, at: int, topic: nat, args: string)

  /** An event given to the dispatcher. */
  datatype Generated = Generated(topic: nat, args: string)

  function EventsOf(log: seq<Firing>): (events: seq<Generated>)
    ensures |events| == |log| && forall n :: 0 <= n < |log| ==> events[n] == Generated(log[n].topic, log[n].args)
  {
    seq(|log|, n requires 0 <= n < |log| => Generated(log[n].topic, log[n].args))
  }

  /** What a timer was created with. */
  datatype Made = Made(created: int, period: int, recurring: bool)

  /** `lastTick` is None while it is the smallest time there is; `made` lists all timers by serial. */
  datatype Wheel = Wheel(resolution: int, lastTick: Option<int>, timers: map<int, TimerValue>, made: seq<Made>,
      log: seq<Firing>)

  datatype TimerError = NoSuchTimer(id: int) | SystemTimer

  predicate Ready(t: TimerValue, now: int) {
    t.lastFired + t.period <= now
  }

  /** Fires now and is then erased. */
  predicate Spent(t: TimerValue, now: int) {
    Ready(t, now) && !t.recurring
  }

  function FiringOf(t: TimerValue, now: int): Firing {
    Firing(t.serial, now, t.topic, t.args)
  }

  /** The timers once those with ids below k have had their turn. */
  function TickedBelow(timers: map<int, TimerValue>, now: int, k: int): map<int, TimerValue> {
    map id | id in timers && !(id < k && Spent(timers[id], now)) ::
      if id < k && Ready(timers[id], now) then timers[id].(lastFired := now) else timers[id]
  }

  /** The old map minus ready one-shots, with ready recurring timers restamped. */
  function AfterTick(timers: map<int, TimerValue>, now: int): map<int, TimerValue> {
    map id | id in timers && !Spent(timers[id], now) ::
      if Ready(timers[id], now) then timers[id].(lastFired := now) else timers[id]
  }

  /** The ids below k of timers that are ready, in order. */
  function ReadyBelow(timers: map<int, TimerValue>, now: int, k: int): (ids: seq<int>)
    ensures forall j :: 0 <= j < |ids| ==> MIN_ID <= ids[j] < k && ids[j] in timers && Ready(timers[ids[j]], now)
    decreases k - MIN_ID
  {
    if k <= MIN_ID then []
    else ReadyBelow(timers, now, k - 1) + (if k - 1 in timers && Ready(timers[k - 1], now) then [k - 1] else [])
  }

  function FiringsOf(timers: map<int, TimerValue>, now: int, ids: seq<int>): (fired: seq<Firing>)
    requires forall j :: 0 <= j < |ids| ==> ids[j] in timers
    ensures |fired| == |ids| && forall j :: 0 <= j < |ids| ==> fired[j] == FiringOf(timers[ids[j]], now)
  {
    seq(|ids|, j requires 0 <= j < |ids| => FiringOf(timers[ids[j]], now))
  }

  function FiredBelow(timers: map<int, TimerValue>, now: int, k: int): seq<Firing> {
    FiringsOf(timers, now, ReadyBelow(timers, now, k))
  }

  // ---- Steps ----

  function Add(w: Wheel, now: int, period: int, recurring: bool, system: bool, topic: nat, args: string): Wheel {
    w.(timers := w.timers[ToInt16(|w.timers|) := TimerValue(period, now, recurring, system, topic, args, |w.made|)],
       made := w.made + [Made(now, period, recurring)])
  }

  function Remove(w: Wheel, id: int): Result<Wheel, TimerError> {
    if id !in w.timers then Err(NoSuchTimer(id))
    else if w.timers[id].system then Err(SystemTimer)
    else Ok(w.(timers := w.timers - {id}))
  }

  predicate TickIsDue(w: Wheel, now: int) {
    w.lastTick.None? || w.lastTick.value + w.resolution <= now
  }

  function Check(w: Wheel, now: int): Wheel {
    if TickIsDue(w, now) then
      w.(lastTick := Some(now), timers := AfterTick(w.timers, now), log := w.log
          + FiredBelow(w.timers, now, MAX_ID + 1))
    else w
  }

  /** The first id in the map from k on, as map iterators find it. */
  function FirstFrom(ids: set<int>, k: int): (next: Option<int>)
    ensures next.Some? ==>
              next.value in ids && k <= next.value <= MAX_ID && forall id :: k <= id < next.value ==> id !in ids
    ensures next.None? ==> forall id :: k <= id <= MAX_ID ==> id !in ids
    decreases MAX_ID + 1 - k
  {
    if k > MAX_ID then None
    else if k in ids then Some(k)
    else FirstFrom(ids, k + 1)
  }

  /** Where an iteration stands; the end comes after every id. */
  function Cursor(iter: Option<int>): int {
    if iter.Some? then iter.value else MAX_ID + 1
  }

  // ---- The objects ----

  class Timer {
    const period: int
    var lastFired: int
    const recurring: bool
    const system: bool
    const topic: nat
    const args: string
    ghost const serial: nat

    constructor (period: int, now: int, recurring: bool, system: bool, topic: nat, args: string,
                 ghost serial: nat)
      ensures View() == TimerValue(period, now, recurring, system, topic, args, serial)
    {
      this.period, this.lastFired, this.recurring, this.system := period, now, recurring, system;
      this.topic, this.args, this.serial := topic, args, serial;
    }

    ghost function View(): TimerValue
      reads this
    {
      TimerValue(period, lastFired, recurring, system, topic, args, serial)
    }

    predicate IsReady(now: int)
      reads this
      ensures IsReady(now) == Ready(View(), now)
    {
      lastFired + period <= now
    }

    method Fire(now: int)
      modifies this`lastFired
      ensures View() == old(View()).(lastFired := now)
    {
      lastFired := now;
    }
  }

  class TimerContext {
    var tickResolution: int
    var lastTick: Option<int>
    var list: map<int, Timer>
    /** The events generated so far. */
    var generated: seq<Generated>
    ghost var made: seq<Made>
    ghost var log: seq<Firing>

    ghost predicate Valid()
      reads this, list.Values
    {
      && (forall id :: id in list ==> MIN_ID <= id <= MAX_ID)
      && (forall i, j :: i in list && j in list && i != j ==> list[i] != list[j])
      && generated == EventsOf(log)
    }

    ghost function TimerValues(): map<int, TimerValue>
      reads this, list.Values
    {
      map id | id in list :: list[id].View()
    }

    ghost function View(): Wheel
      reads this, list.Values
    {
      Wheel(tickResolution, lastTick, TimerValues(), made, log)
    }

    constructor ()
      ensures Valid() && View() == Wheel(1, None, map[], [], [])
    {
      tickResolution, lastTick, list, generated := 1, None, map[], [];
      made, log := [], [];
    }

    /** delay, add_timer and sys_add_timer. */
    method AddTimer(now: int, period: int, recurring: bool, system: bool, topic: nat, args: string) returns (id: int)
      requires Valid()
      modifies this`list, this`made
      ensures Valid() && View() == Add(old(View()), now, period, recurring, system, topic, args)
      ensures id == ToInt16(|old(list)|) && id in list && fresh(list[id]) && list == old(list)[id := list[id]]
    {
      ghost var before := TimerValues();
      assert before.Keys == list.Keys;
      assert |before.Keys| == |list.Keys|;
      id := ToInt16(|list|);
      var t := new Timer(period, now, recurring, system, topic, args, |made|);
      list := list[id := t];
      made := made + [Made(now, period, recurring)];
      assert TimerValues() == before[id := t.View()];
    }

    /** remove_timer; an error leaves everything as it was. */
    method RemoveTimer(id: int) returns (r: Option<TimerError>)
      requires Valid()
      modifies this`list
      ensures Valid()
      ensures match Remove(old(View()), id)
              case Ok(w) => r == None && View() == w
              case Err(e) => r == Some(e) && View() == old(View())
    {
      if id !in list {
        return Some(NoSuchTimer(id));
      }
      if list[id].system {
        return Some(SystemTimer);
      }
      ghost var before := TimerValues();
      list := list - {id};
      assert TimerValues() == before - {id};
      return None;
    }

    method SetTickResolution(res: int)
      requires Valid()
      modifies this`tickResolution
      ensures Valid() && View() == old(View()).(resolution := res)
    {
      ghost var timers := TimerValues();
      tickResolution := res;
      assert TimerValues() == timers;
    }

    /** clear_timers: the timers are erased one by one, without firing. */
    method ClearTimers()
      requires Valid()
      modifies this`list
      ensures Valid() && View() == old(View()).(timers := map[])
    {
      var iter := FirstFrom(list.Keys, MIN_ID);
      while iter.Some?
        invariant Valid() && list.Keys <= old(list.Keys)
        invariant forall id :: id in list ==> list[id] == old(list)[id]
        invariant forall id :: id in list ==> iter.Some? && id >= iter.value
        invariant iter.Some? ==> iter.value in list
        decreases |list.Keys|
      {
        var id := iter.value;
        OneFewer(list.Keys, id);
        list := list - {id};
        iter := FirstFrom(list.Keys, id + 1);
      }
      assert TimerValues() == map[];
    }

    method CheckTimers(now: int)
      requires Valid()
      modifies this, list.Values
      ensures Valid() && View() == Check(old(View()), now)
      ensures list.Values <= old(list.Values)
    {
      if lastTick.None? || lastTick.value + tickResolution <= now {
        ghost var before := TimerValues();
        lastTick := Some(now);
        assert TimerValues() == before;
        FireTimers(now);
      }
    }

    /** fire_timers: ready one-shots are erased while the loop goes on. */
    method FireTimers(now: int)
      requires Valid()
      modifies this`list, this`generated, this`log, list.Values
      ensures Valid() && list.Values <= old(list.Values)
      ensures TimerValues() == AfterTick(old(TimerValues()), now)
      ensures log == old(log) + FiredBelow(old(TimerValues()), now, MAX_ID + 1)
    {
      ghost var was, before, objects := TimerValues(), log, list;
      var iter := FirstFrom(list.Keys, MIN_ID);
      TickedEnds(was, now);
      NothingBetween(was, now, MIN_ID, Cursor(iter));
      while iter.Some?
        invariant Valid() && list.Keys <= objects.Keys
        invariant forall id :: id in list ==> list[id] == objects[id]
        invariant iter.Some? ==> iter.value in list && MIN_ID <= iter.value <= MAX_ID
        invariant TimerValues() == TickedBelow(was, now, Cursor(iter))
        invariant log == before + FiredBelow(was, now, Cursor(iter))
        decreases if iter.Some? then MAX_ID + 1 - iter.value else -1
      {
        var id := iter.value;
        Visit(id, now);
        iter := FirstFrom(list.Keys, id + 1);
        assert list.Keys == TimerValues().Keys;
        Visited(was, now, id, Cursor(iter), before, log, TimerValues());
      }
    }

    /** The loop body for one timer. */
    method Visit(id: int, now: int)
      requires Valid() && id in list
      modifies this`list, this`generated, this`log, list[id]
      ensures Valid() && list == if Spent(old(TimerValues())[id], now) then old(list) - {id} else old(list)
      ensures TimerValues() == TickedOne(old(TimerValues()), now, id)
      ensures log == old(log) + FiredOne(old(TimerValues()), now, id)
    {
      ghost var was := TimerValues();
      var t := list[id];
      assert was[id] == t.View();
      if t.IsReady(now) {
        FireOne(id, now);
        if !t.recurring {
          ghost var fired := TimerValues();
          list := list - {id};
          assert TimerValues() == fired - {id} == was - {id};
        }
      }
    }

    /** Generates the event of one timer and restamps it. */
    method FireOne(id: int, now: int)
      requires Valid() && id in list
      modifies this`generated, this`log, list[id]
      ensures Valid() && log == old(log) + [FiringOf(old(TimerValues())[id], now)]
      ensures TimerValues() == old(TimerValues())[id := old(TimerValues())[id].(lastFired := now)]
    {
      ghost var was := TimerValues();
      var t := list[id];
      assert was[id] == t.View();
      generated := generated + [Generated(t.topic, t.args)];
      log := log + [FiringOf(t.View(), now)];
      t.Fire(now);
      assert forall j :: j in list && j != id ==> list[j].View() == was[j];
    }
  }

  // ---- The loop's bookkeeping ----

  function TickedOne(timers: map<int, TimerValue>, now: int, id: int): map<int, TimerValue>
    requires id in timers
  {
    if Spent(timers[id], now) then timers - {id}
    else if Ready(timers[id], now) then timers[id := timers[id].(lastFired := now)]
    else timers
  }

  function FiredOne(timers: map<int, TimerValue>, now: int, id: int): seq<Firing>
    requires id in timers
  {
    if Ready(timers[id], now) then [FiringOf(timers[id], now)] else []
  }

  lemma OneFewer(ids: set<int>, id: int)
    requires id in ids
    ensures |ids - {id}| < |ids|
  {
  }

  lemma OneMoreTicked(timers: map<int, TimerValue>, now: int, id: int)
    requires MIN_ID <= id && id in timers
    ensures id in TickedBelow(timers, now, id) && TickedBelow(timers, now, id)[id] == timers[id]
    ensures TickedBelow(timers, now, id + 1) == TickedOne(TickedBelow(timers, now, id), now, id)
    ensures FiredBelow(timers, now, id + 1) == FiredBelow(timers, now, id) + FiredOne(timers, now, id)
  {
  }

  lemma TickedEnds(timers: map<int, TimerValue>, now: int)
    requires forall id :: id in timers ==> MIN_ID <= id <= MAX_ID
    ensures TickedBelow(timers, now, MIN_ID) == timers && TickedBelow(timers, now, MAX_ID + 1) == AfterTick(timers, now)
  {
  }

  lemma Visited(timers: map<int, TimerValue>, now: int, id: int, next: int, before: seq<Firing>, log: seq<Firing>,
                values: map<int, TimerValue>)
    requires MIN_ID <= id < next && id in timers && id in TickedBelow(timers, now, id)
    requires values == TickedOne(TickedBelow(timers, now, id), now, id) && forall j :: id < j < next ==> j !in values
    requires log == before + FiredBelow(timers, now, id) + FiredOne(TickedBelow(timers, now, id), now, id)
    ensures values == TickedBelow(timers, now, next) && log == before + FiredBelow(timers, now, next)
  {
    OneMoreTicked(timers, now, id);
    NothingBetween(timers, now, id + 1, next);
    var fired := FiredBelow(timers, now, id);
    assert before + fired + FiredOne(timers, now, id) == before + (fired + FiredOne(timers, now, id));
  }

  lemma {:induction false} NothingBetween(timers: map<int, TimerValue>, now: int, k: int, m: int)
    requires MIN_ID <= k <= m && forall id :: k <= id < m ==> id !in TickedBelow(timers, now, k)
    ensures ReadyBelow(timers, now, m) == ReadyBelow(timers, now, k)
    ensures FiredBelow(timers, now, m) == FiredBelow(timers, now, k)
    ensures TickedBelow(timers, now, m) == TickedBelow(timers, now, k)
    decreases m - k
  {
    if k < m {
      NothingBetween(timers, now, k, m - 1);
      assert m - 1 !in TickedBelow(timers, now, k);
      assert TickedBelow(timers, now, m) == TickedBelow(timers, now, m - 1);
    }
  }
}
