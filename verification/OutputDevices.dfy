/** The output devices of `src/output/output.cpp`: one of them is active, and switching away from it. */
module OutputDevices {
  import opened Wrappers
  import opened Strings
  import opened OrderedStrings
  import Numerals

  datatype OutputType = TTY | TCP | UDP

  /** What add_device gets as the device's id; it goes with the type. */
  datatype Address = Terminal(name: string) | TcpPort(port: nat) | UdpPort(port: nat)

  function TypeOf(address: Address): OutputType {
    match address
    case Terminal(_) => TTY
    case TcpPort(_) => TCP
    case UdpPort(_) => UDP
  }

  /** The id create_device makes. */
  function IdOf(address: Address): (id: string)
    ensures id != ""
  {
    match address
    case Terminal(name) => "TTY:" + name
    case TcpPort(port) => "TCP:" + Numerals.Decimal(port)
    case UdpPort(port) => "UDP:" + Numerals.Decimal(port)
  }

  /** A handler with the function it stands for. */
  datatype Handler = Handler(name: string, func: nat)

  datatype OutputError = NoSuchHandler | DeviceExists(id: string) | NoSuchDevice(id: string) | NoOtherDevice
      | HandlerExists(name: string)

  // ---- Values ----

  datatype DeviceValue = DeviceValue(id: string, kind: OutputType, handler: Handler, active: bool)

  type Handlers = map<OutputType, map<string, Handler>>

  datatype Registry = Registry(devices: map<string, DeviceValue>, active: string, handlers: Handlers)

  predicate IsRegistered(handlers: Handlers, kind: OutputType, name: string) {
    kind in handlers && name in handlers[kind]
  }

  /** The device has the type and, by name, the handler. */
  predicate Uses(d: DeviceValue, kind: OutputType, name: string) {
    d.kind == kind && d.handler.name == name
  }

  function WithFlag(devices: map<string, DeviceValue>, id: string, active: bool): map<string, DeviceValue>
    requires id in devices
  {
    devices[id := devices[id].(active := active)]
  }

  /** Non-empty ids of existing devices, and the active one is among them. */
  predicate WellFormed(r: Registry) {
    && (forall id :: id in r.devices ==> id != "" && r.devices[id].id == id)
    && (r.active != "" ==> r.active in r.devices)
  }

  /** switch_device_internal for an id that exists. */
  function Activated(r: Registry, id: string): (after: Registry)
    requires WellFormed(r) && id in r.devices
    ensures WellFormed(after) && after.active == id && after.devices.Keys == r.devices.Keys
            && after.handlers == r.handlers
  {
    var quiet := if r.active != "" then WithFlag(r.devices, r.active, false) else r.devices;
    r.(devices := WithFlag(quiet, id, true), active := id)
  }

  lemma AsSetOfMore(ids: seq<string>, id: string)
    ensures AsSet(ids + [id]) == AsSet(ids) + {id}
  {
  }

  lemma AsSetOfOne(id: string)
    ensures AsSet([id]) == {id}
  {
  }

  /** The first device id that is not bad. */
  function NextId(ids: set<string>, bad: set<string>): (next: Option<string>)
    ensures next.Some? ==> next.value in ids - bad
  {
    if ids - bad == {} then None else Some(First(ids - bad))
  }

  /** The registry after an operation, and the error it ends with. */
  type Outcome = (Registry, Option<OutputError>)

  function Add(r: Registry, name: string, address: Address): Outcome
    requires WellFormed(r)
  {
    if !IsRegistered(r.handlers, TypeOf(address), name) then (r, Some(NoSuchHandler))
    else if IdOf(address) in r.devices then (r, Some(DeviceExists(IdOf(address))))
    else (Added(r, DeviceValue(IdOf(address), TypeOf(address), r.handlers[TypeOf(address)][name], false)), None)
  }

  function Added(r: Registry, d: DeviceValue): Registry
    requires WellFormed(r) && d.id != ""
  {
    var added := r.(devices := r.devices[d.id := d]);
    if r.active == "" then Activated(added, d.id) else added
  }

  function Remove(r: Registry, id: string): Outcome
    requires WellFormed(r)
  {
    if id !in r.devices then (r, Some(NoSuchDevice(id)))
    else if r.active != id then (r.(devices := r.devices - {id}), None)
    else
      var moved := SwitchAway(r, {id});
      if moved.1.Some? then moved else (moved.0.(devices := moved.0.devices - {id}), None)
  }

  function Switch(r: Registry, id: string): Outcome
    requires WellFormed(r)
  {
    if id in r.devices then (Activated(r, id), None) else (r, Some(NoSuchDevice(id)))
  }

  function SwitchAway(r: Registry, bad: set<string>): Outcome
    requires WellFormed(r)
  {
    match NextId(r.devices.Keys, bad)
    case None => (r, Some(NoOtherDevice))
    case Some(next) => (Activated(r, next), None)
  }

  /** A type gets its empty map even if the name is taken, but then it had one. */
  function Register(r: Registry, kind: OutputType, h: Handler): Outcome {
    if IsRegistered(r.handlers, kind, h.name) then (r, Some(HandlerExists(h.name)))
    else
      var typed := if kind in r.handlers then r.handlers[kind] else map[];
      (r.(handlers := r.handlers[kind := typed[h.name := h]]), None)
  }

  /** Where the loop of unregister_handler leads, and whether it found a device. */
  function Fled(r: Registry, kind: OutputType, name: string, bad: set<string>): (end: (Registry, bool))
    requires WellFormed(r) && r.active != ""
    ensures WellFormed(end.0) && end.0.active != "" && end.0.devices.Keys == r.devices.Keys
            && end.0.handlers == r.handlers
    decreases |r.devices.Keys - bad - {r.active}|
  {
    if !Uses(r.devices[r.active], kind, name) then (r, true)
    else
      match NextId(r.devices.Keys, bad + {r.active})
      case None => (r, false)
      case Some(next) =>
        assert r.devices.Keys - (bad + {r.active}) - {next} < r.devices.Keys - bad - {r.active};
        SmallerSet(r.devices.Keys - (bad + {r.active}) - {next}, r.devices.Keys - bad - {r.active});
        assert Activated(r, next).devices.Keys == r.devices.Keys;
        Fled(Activated(r, next), kind, name, bad + {r.active})
  }

  lemma SmallerSet(a: set<string>, b: set<string>)
    requires a < b
    ensures |a| < |b|
  {
    assert b == a + (b - a) && b - a != {};
  }

  lemma FledStep(r: Registry, kind: OutputType, name: string, bad: set<string>)
    requires WellFormed(r) && r.active != "" && Uses(r.devices[r.active], kind, name)
    ensures var next := NextId(r.devices.Keys, bad + {r.active});
            if next.None? then Fled(r, kind, name, bad) == (r, false)
            else
              && Fled(Activated(r, next.value), kind, name, bad + {r.active}) == Fled(r, kind, name, bad)
              && |r.devices.Keys - (bad + {r.active}) - {next.value}| < |r.devices.Keys - bad - {r.active}|
  {
    var next := NextId(r.devices.Keys, bad + {r.active});
    if next.Some? {
      SmallerSet(r.devices.Keys - (bad + {r.active}) - {next.value}, r.devices.Keys - bad - {r.active});
    }
  }

  /** The active device can change even if this fails. */
  function Unregister(r: Registry, kind: OutputType, name: string): Outcome
    requires WellFormed(r)
  {
    if !IsRegistered(r.handlers, kind, name) then (r, None)
    else
      var end := if r.active == "" then (r, true) else Fled(r, kind, name, {});
      if end.1 then (end.0.(handlers := r.handlers[kind := r.handlers[kind] - {name}]), None)
      else (end.0, Some(NoOtherDevice))
  }

  // ---- The objects ----

  class Device {
    const id: string
    const kind: OutputType
    const handler: Handler
    var active: bool

    constructor (address: Address, handler: Handler)
      ensures View() == DeviceValue(IdOf(address), TypeOf(address), handler, false)
    {
      this.id, this.kind, this.handler, this.active := IdOf(address), TypeOf(address), handler, false;
    }

    ghost function View(): DeviceValue
      reads this
    {
      DeviceValue(id, kind, handler, active)
    }
  }

  class OutputContext {
    var devices: map<string, Device>
    var active: string
    var handlers: Handlers

    ghost predicate Separate()
      reads this
    {
      forall i, j :: i in devices && j in devices && i != j ==> devices[i] != devices[j]
    }

    ghost function DeviceValues(): (values: map<string, DeviceValue>)
      reads this, devices.Values
      ensures values.Keys == devices.Keys
    {
      map id | id in devices :: devices[id].View()
    }

    ghost function View(): Registry
      reads this, devices.Values
    {
      Registry(DeviceValues(), active, handlers)
    }

    ghost predicate Valid()
      reads this, devices.Values
    {
      Separate() && WellFormed(View())
    }

    constructor ()
      ensures Valid() && View() == Registry(map[], "", map[])
    {
      devices, active, handlers := map[], "", map[];
    }

    /** devices[id]->active = flag */
    method SetFlag(id: string, flag: bool)
      requires Separate() && id in devices
      modifies devices[id]
      ensures DeviceValues() == WithFlag(old(DeviceValues()), id, flag)
    {
      devices[id].active := flag;
    }

    /** switch_device_internal */
    method SwitchDevice(id: string) returns (r: Option<OutputError>)
      requires Valid()
      modifies this`active, devices.Values
      ensures (View(), r) == Switch(old(View()), id) && Valid()
    {
      if id !in devices {
        return Some(NoSuchDevice(id));
      }
      if active != "" {
        SetFlag(active, false);
      }
      ghost var quiet := DeviceValues();
      active := id;
      assert DeviceValues() == quiet;
      SetFlag(id, true);
      return None;
    }

    /** switch_to_next_device: the first id in map order that is not bad. */
    method SwitchToNextDevice(badIds: seq<string>) returns (r: Option<OutputError>)
      requires Valid()
      modifies this`active, devices.Values
      ensures (View(), r) == SwitchAway(old(View()), AsSet(badIds)) && Valid()
    {
      var nextId := FirstGood(badIds);
      if nextId == "" {
        return Some(NoOtherDevice);
      }
      r := SwitchDevice(nextId);
    }

    /** The search in switch_to_next_device. */
    method FirstGood(badIds: seq<string>) returns (nextId: string)
      requires Valid()
      ensures match NextId(devices.Keys, AsSet(badIds))
              case Some(next) => nextId == next && nextId != ""
              case None => nextId == ""
    {
      nextId := "";
      var iter := devices.Keys;
      ghost var good := devices.Keys - AsSet(badIds);
      while iter != {}
        invariant good <= iter <= devices.Keys && nextId == ""
        decreases |iter|
      {
        var id := First(iter);
        assert DeviceValues()[id].id == devices[id].id;
        if devices[id].id !in badIds {
          nextId := devices[id].id;
          FirstIsUnique(id, First(good), good);
          return;
        }
        iter := iter - {id};
      }
    }

    method AddDevice(name: string, address: Address) returns (r: Option<OutputError>)
      requires Valid()
      modifies this`active, this`devices, devices.Values
      ensures (View(), r) == Add(old(View()), name, address) && Valid()
    {
      if !(TypeOf(address) in handlers && name in handlers[TypeOf(address)]) {
        return Some(NoSuchHandler);
      }
      var dev := new Device(address, handlers[TypeOf(address)][name]);
      if dev.id in devices {
        return Some(DeviceExists(dev.id));
      }
      r := Insert(dev);
    }

    method Insert(dev: Device) returns (r: Option<OutputError>)
      requires Valid() && dev.id != "" && dev.id !in devices && dev !in devices.Values
      modifies this`active, this`devices, devices.Values, dev
      ensures View() == Added(old(View()), old(dev.View())) && Valid() && r == None
    {
      ghost var values := DeviceValues();
      devices := devices[dev.id := dev];
      assert DeviceValues() == values[dev.id := dev.View()];
      if active == "" {
        r := SwitchDevice(dev.id);
      } else {
        r := None;
      }
    }

    method RemoveDevice(id: string) returns (r: Option<OutputError>)
      requires Valid()
      modifies this`active, this`devices, devices.Values
      ensures (View(), r) == Remove(old(View()), id) && Valid()
    {
      if id !in devices {
        return Some(NoSuchDevice(id));
      }
      if active == id {
        AsSetOfOne(id);
        r := SwitchToNextDevice([id]);
        if r.Some? {
          return;
        }
      }
      EraseDevice(id);
      r := None;
    }

    method EraseDevice(id: string)
      requires Valid() && active != id
      modifies this`devices
      ensures View() == old(View()).(devices := old(View()).devices - {id}) && Valid()
    {
      ghost var values := DeviceValues();
      devices := devices - {id};
      assert DeviceValues() == values - {id};
    }

    method RegisterHandler(kind: OutputType, handler: Handler) returns (r: Option<OutputError>)
      requires Valid()
      modifies this`handlers
      ensures (View(), r) == Register(old(View()), kind, handler) && Valid()
    {
      ghost var values := DeviceValues();
      if kind !in handlers {
        handlers := handlers[kind := map[]];
      }
      if handler.name in handlers[kind] {
        return Some(HandlerExists(handler.name));
      }
      handlers := handlers[kind := handlers[kind][handler.name := handler]];
      assert DeviceValues() == values;
      assert kind !in old(handlers) ==> handlers == old(handlers)[kind := map[handler.name := handler]];
      return None;
    }

    method UnregisterHandler(kind: OutputType, handler: Handler) returns (r: Option<OutputError>)
      requires Valid()
      modifies this`active, this`handlers, devices.Values
      ensures (View(), r) == Unregister(old(View()), kind, handler.name) && Valid()
    {
      if !(kind in handlers && handler.name in handlers[kind]) {
        return None;
      }
      if active != "" {
        r := FleeHandler(kind, handler);
        if r.Some? {
          return;
        }
      }
      Erase(kind, handler.name);
      return None;
    }

    method Erase(kind: OutputType, name: string)
      requires Valid() && kind in handlers
      modifies this`handlers
      ensures View() == old(View()).(handlers := old(handlers)[kind := old(handlers)[kind] - {name}]) && Valid()
    {
      ghost var values := DeviceValues();
      handlers := handlers[kind := handlers[kind] - {name}];
      assert DeviceValues() == values;
    }

    predicate ActiveUses(kind: OutputType, name: string)
      requires Valid() && active != ""
      reads this, devices.Values
      ensures ActiveUses(kind, name) == Uses(View().devices[active], kind, name)
    {
      assert DeviceValues()[active] == devices[active].View();
      devices[active].kind == kind && devices[active].handler.name == name
    }

    /** One turn of the loop of unregister_handler. */
    method LeaveActive(kind: OutputType, handler: Handler, before: seq<string>)
        returns (badIds: seq<string>, r: Option<OutputError>)
      requires Valid() && active != "" && Uses(View().devices[active], kind, handler.name)
      modifies this`active, devices.Values
      ensures devices == old(devices) && Valid() && active != "" && badIds == before + [old(active)]
      ensures r.Some? ==> r == Some(NoOtherDevice) && View() == old(View())
                          && Fled(old(View()), kind, handler.name, AsSet(before)) == (View(), false)
      ensures r.None? ==>
                && Fled(View(), kind, handler.name, AsSet(badIds))
                   == Fled(old(View()), kind, handler.name, AsSet(before))
                && |devices.Keys - AsSet(badIds) - {active}| < |devices.Keys - AsSet(before) - {old(active)}|
    {
      FledStep(View(), kind, handler.name, AsSet(before));
      AsSetOfMore(before, active);
      badIds := before + [active];
      r := SwitchToNextDevice(badIds);
    }

    /** The loop of unregister_handler. */
    method FleeHandler(kind: OutputType, handler: Handler) returns (r: Option<OutputError>)
      requires Valid() && active != ""
      modifies this`active, devices.Values
      ensures View() == Fled(old(View()), kind, handler.name, {}).0 && Valid()
      ensures r == if Fled(old(View()), kind, handler.name, {}).1 then None else Some(NoOtherDevice)
    {
      ghost var was := View();
      var badIds: seq<string> := [];
      assert AsSet(badIds) == {};
      while ActiveUses(kind, handler.name)
        invariant Valid() && active != "" && devices == old(devices)
        invariant Fled(View(), kind, handler.name, AsSet(badIds)) == Fled(was, kind, handler.name, {})
        decreases |devices.Keys - AsSet(badIds) - {active}|
      {
        badIds, r := LeaveActive(kind, handler, badIds);
        if r.Some? {
          return;
        }
      }
      r := None;
    }
  }
}
