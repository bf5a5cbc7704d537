/** What the output devices keep over whole runs, and where the switching away leads. */
module OutputRuns {
  import opened Wrappers
  import opened OrderedStrings
  import opened OutputDevices
  import Numerals

  datatype Op =
    | AddOp(name: string, address: Address)
    | RemoveOp(id: string)
    | SwitchOp(id: string)
    | RegisterOp(kind: OutputType, handler: Handler)
    | UnregisterOp(kind: OutputType, name: string)

  function Step(r: Registry, op: Op): (after: Registry)
    requires WellFormed(r)
    ensures WellFormed(after)
  {
    match op
    case AddOp(name, address) => Add(r, name, address).0
    case RemoveOp(id) => Remove(r, id).0
    case SwitchOp(id) => Switch(r, id).0
    case RegisterOp(kind, handler) => Register(r, kind, handler).0
    case UnregisterOp(kind, name) => Unregister(r, kind, name).0
  }

  /** A run of calls from r on; calls that fail are part of it. */
  function Run(r: Registry, ops: seq<Op>): (after: Registry)
    requires WellFormed(r)
    ensures WellFormed(after)
  {
    if ops == [] then r else Step(Run(r, ops[..|ops| - 1]), ops[|ops| - 1])
  }

  const EMPTY := Registry(map[], "", map[])

  /** The active device exists and it alone carries the flag; only without devices there is none. */
  predicate Consistent(r: Registry) {
    && WellFormed(r)
    && (r.active == "" <==> r.devices == map[])
    && (forall id :: id in r.devices ==> (r.devices[id].active <==> id == r.active))
  }

  lemma ActivatedIsConsistent(r: Registry, id: string)
    requires WellFormed(r) && id in r.devices && id != ""
    requires forall i :: i in r.devices ==> (r.devices[i].active <==> i == r.active)
    ensures Consistent(Activated(r, id))
  {
    var after := Activated(r, id);
    assert id in after.devices;
  }

  lemma {:induction false} FledIsConsistent(r: Registry, kind: OutputType, name: string, bad: set<string>)
    requires Consistent(r) && r.active != ""
    ensures Consistent(Fled(r, kind, name, bad).0)
    decreases |r.devices.Keys - bad - {r.active}|
  {
    if Uses(r.devices[r.active], kind, name) {
      FledStep(r, kind, name, bad);
      var next := NextId(r.devices.Keys, bad + {r.active});
      if next.Some? {
        ActivatedIsConsistent(r, next.value);
        FledIsConsistent(Activated(r, next.value), kind, name, bad + {r.active});
      }
    }
  }

  lemma AddIsConsistent(r: Registry, d: DeviceValue)
    requires Consistent(r) && d.id != "" && d.id !in r.devices && !d.active
    ensures Consistent(Added(r, d)) && Added(r, d).active != ""
  {
    var added := r.(devices := r.devices[d.id := d]);
    assert d.id in added.devices;
    if r.active == "" {
      ActivatedIsConsistent(added, d.id);
    }
  }

  lemma RemoveIsConsistent(r: Registry, id: string)
    requires Consistent(r)
    ensures Consistent(Remove(r, id).0) && (r.active != "" ==> Remove(r, id).0.active != "")
  {
    if id in r.devices && r.active == id {
      var next := NextId(r.devices.Keys, {id});
      if next.Some? {
        ActivatedIsConsistent(r, next.value);
        assert next.value in Remove(r, id).0.devices;
      }
    } else if id in r.devices {
      assert r.active in r.devices - {id};
    }
  }

  lemma StepIsConsistent(r: Registry, op: Op)
    requires Consistent(r)
    ensures Consistent(Step(r, op)) && (r.active != "" ==> Step(r, op).active != "")
  {
    match op
    case AddOp(name, address) =>
      if Add(r, name, address).1.None? {
        AddIsConsistent(r, DeviceValue(IdOf(address), TypeOf(address), r.handlers[TypeOf(address)][name], false));
      }
    case RemoveOp(id) => RemoveIsConsistent(r, id);
    case SwitchOp(id) =>
      if id in r.devices { ActivatedIsConsistent(r, id); }
    case RegisterOp(kind, handler) =>
    case UnregisterOp(kind, name) =>
      if r.active != "" { FledIsConsistent(r, kind, name, {}); }
  }

  lemma {:induction false} RunIsConsistent(r: Registry, ops: seq<Op>)
    requires Consistent(r)
    ensures Consistent(Run(r, ops)) && (r.active != "" ==> Run(r, ops).active != "")
  {
    if ops != [] {
      RunIsConsistent(r, ops[..|ops| - 1]);
      StepIsConsistent(Run(r, ops[..|ops| - 1]), ops[|ops| - 1]);
    }
  }

  /** In every reachable state exactly the active device carries the flag. */
  lemma OneActiveDevice(ops: seq<Op>)
    ensures var r := Run(EMPTY, ops);
            && (r.active != "" ==> r.active in r.devices && r.devices[r.active].active)
            && (forall id :: id in r.devices && r.devices[id].active ==> id == r.active)
            && (r.active == "" ==> r.devices == map[])
  {
    RunIsConsistent(EMPTY, ops);
  }

  /** Once a device is active there is one for ever, whatever is removed or unregistered. */
  lemma NeverWithoutActiveDevice(ops: seq<Op>, more: seq<Op>)
    requires Run(EMPTY, ops).active != ""
    ensures Run(EMPTY, ops + more).active != "" && Run(EMPTY, ops + more).devices != map[]
  {
    RunIsConsistent(EMPTY, ops);
    RunIsConsistent(Run(EMPTY, ops), more);
    RunOfConcat(EMPTY, ops, more);
    RunIsConsistent(EMPTY, ops + more);
  }

  lemma {:induction false} RunOfConcat(r: Registry, ops: seq<Op>, more: seq<Op>)
    requires WellFormed(r)
    ensures Run(r, ops + more) == Run(Run(r, ops), more)
    decreases |more|
  {
    if more == [] {
      assert ops + more == ops;
    } else {
      assert (ops + more)[..|ops + more| - 1] == ops + more[..|more| - 1];
      RunOfConcat(r, ops, more[..|more| - 1]);
    }
  }

  // ---- What each operation leaves alone ----

  /** Type and handler of device id are as before. */
  predicate SameDevice(r: Registry, after: Registry, id: string) {
    && id in r.devices && id in after.devices
    && after.devices[id] == r.devices[id].(active := after.devices[id].active)
  }

  /** A handler is registered after as before, and as the same function. */
  predicate SameHandler(r: Registry, after: Registry, kind: OutputType, name: string) {
    && (IsRegistered(after.handlers, kind, name) <==> IsRegistered(r.handlers, kind, name))
    && (IsRegistered(r.handlers, kind, name) ==> after.handlers[kind][name] == r.handlers[kind][name])
  }

  /** Registering adds one handler and touches no other, of the same type or another; a taken name is refused. */
  lemma RegisterAddsOne(r: Registry, kind: OutputType, h: Handler)
    ensures var after, error := Register(r, kind, h).0, Register(r, kind, h).1;
            && after.devices == r.devices && after.active == r.active
            && (error.Some? <==> IsRegistered(r.handlers, kind, h.name))
            && (error.Some? ==> after == r && error.value == HandlerExists(h.name))
            && (error.None? ==> IsRegistered(after.handlers, kind, h.name) && after.handlers[kind][h.name] == h)
            && (forall k, n :: k != kind || n != h.name ==> SameHandler(r, after, k, n))
  {
  }

  /** Unregistering takes one handler away, or changes nothing; of the devices only the flags change. */
  lemma UnregisterTakesOne(r: Registry, kind: OutputType, name: string)
    requires WellFormed(r)
    ensures var after, error := Unregister(r, kind, name).0, Unregister(r, kind, name).1;
            && after.devices.Keys == r.devices.Keys
            && (forall id :: id in r.devices ==> SameDevice(r, after, id))
            && (error.None? ==> !IsRegistered(after.handlers, kind, name))
            && (forall k, n :: k != kind || n != name ==> SameHandler(r, after, k, n))
            && (!IsRegistered(r.handlers, kind, name) ==> after == r && error.None?)
  {
    if r.active != "" { FledKeepsDevices(r, kind, name, {}); }
  }

  lemma {:induction false} FledKeepsDevices(r: Registry, kind: OutputType, name: string, bad: set<string>)
    requires WellFormed(r) && r.active != ""
    ensures forall id :: id in r.devices ==> SameDevice(r, Fled(r, kind, name, bad).0, id)
    decreases |r.devices.Keys - bad - {r.active}|
  {
    if Uses(r.devices[r.active], kind, name) {
      FledStep(r, kind, name, bad);
      var next := NextId(r.devices.Keys, bad + {r.active});
      if next.Some? {
        ActivatedKeepsDevices(r, next.value);
        FledKeepsDevices(Activated(r, next.value), kind, name, bad + {r.active});
        var end := Fled(r, kind, name, bad).0;
        assert forall id :: id in r.devices ==>
            SameDevice(r, Activated(r, next.value), id) && SameDevice(Activated(r, next.value), end, id);
      }
    }
  }

  lemma ActivatedKeepsDevices(r: Registry, id: string)
    requires WellFormed(r) && id in r.devices
    ensures forall i :: i in r.devices ==> SameDevice(r, Activated(r, id), i)
    ensures Activated(r, id).active == id && Activated(r, id).handlers == r.handlers
  {
  }

  /** An added device has the registered handler, and is active if it is the first; no other device changes. */
  lemma AddAddsOne(r: Registry, name: string, address: Address)
    requires Consistent(r)
    ensures var after, error := Add(r, name, address).0, Add(r, name, address).1;
            var kind, id := TypeOf(address), IdOf(address);
            && (error.Some? <==> !IsRegistered(r.handlers, kind, name) || id in r.devices)
            && (error.Some? ==> after == r)
            && (error == Some(NoSuchHandler) <==> !IsRegistered(r.handlers, kind, name))
            && (error.None? ==>
                  && after.devices
                     == r.devices[id := DeviceValue(id, kind, r.handlers[kind][name], r.devices == map[])]
                  && after.active == (if r.devices == map[] then id else r.active)
                  && after.handlers == r.handlers)
  {
    var id := IdOf(address);
    if IsRegistered(r.handlers, TypeOf(address), name) && id !in r.devices && r.active == "" {
      var d := DeviceValue(id, TypeOf(address), r.handlers[TypeOf(address)][name], false);
      assert Added(r, d).devices == r.devices[id := d.(active := true)];
    }
  }

  /** Switching and removing leave the handlers and all other devices as they were, but for the flags. */
  lemma OthersStay(r: Registry, id: string)
    requires WellFormed(r)
    ensures Switch(r, id).0.handlers == r.handlers && Switch(r, id).0.devices.Keys == r.devices.Keys
    ensures forall i :: i in r.devices ==> SameDevice(r, Switch(r, id).0, i)
    ensures if id in r.devices then Switch(r, id).1.None? && Switch(r, id).0.active == id
            else Switch(r, id) == (r, Some(NoSuchDevice(id)))
    ensures Remove(r, id).0.handlers == r.handlers
    ensures forall i :: i in r.devices && i != id ==> SameDevice(r, Remove(r, id).0, i)
    ensures Remove(r, id).1.Some? ==> Remove(r, id).0 == r
  {
    if id in r.devices {
      ActivatedKeepsDevices(r, id);
      var next := NextId(r.devices.Keys, {id});
      if next.Some? { ActivatedKeepsDevices(r, next.value); }
    }
  }

  /** Different addresses have different ids. */
  lemma IdsAreUnique(a: Address, b: Address)
    requires IdOf(a) == IdOf(b)
    ensures a == b
  {
    var x, y := IdOf(a), IdOf(b);
    assert x[1] == y[1] && x[0] == y[0] && x[4..] == y[4..];
    match a
    case Terminal(name) => assert "TTY:" + name == x && x[4..] == name;
    case TcpPort(port) =>
      Numerals.DecimalRoundTrip(port);
      assert x[4..] == Numerals.Decimal(port);
      if b.TcpPort? { Numerals.DecimalRoundTrip(b.port); assert y[4..] == Numerals.Decimal(b.port); }
    case UdpPort(port) =>
      Numerals.DecimalRoundTrip(port);
      assert x[4..] == Numerals.Decimal(port);
      if b.UdpPort? { Numerals.DecimalRoundTrip(b.port); assert y[4..] == Numerals.Decimal(b.port); }
  }

  // ---- Removing a device ----

  /** Only a missing device or the last one cannot be removed; removing the active one moves to the first other. */
  lemma RemoveFailsIff(r: Registry, id: string)
    requires Consistent(r)
    ensures Remove(r, id).1.Some? <==> id !in r.devices || r.devices.Keys == {id}
    ensures Remove(r, id).1.None? ==>
              && Remove(r, id).0.devices.Keys == r.devices.Keys - {id}
              && if r.active == id then IsFirst(Remove(r, id).0.active, r.devices.Keys - {id})
                  else Remove(r, id).0.active == r.active
  {
  }

  // ---- Unregistering a handler ----

  /** The ids of devices with the handler. */
  function Users(r: Registry, kind: OutputType, name: string): set<string> {
    set id | id in r.devices && Uses(r.devices[id], kind, name)
  }

  predicate IsLast(k: string, keys: set<string>) {
    k in keys && forall j :: j in keys && j != k ==> Less(j, k)
  }

  lemma ActivatedUsers(r: Registry, id: string, kind: OutputType, name: string)
    requires WellFormed(r) && id in r.devices
    ensures Users(Activated(r, id), kind, name) == Users(r, kind, name)
  {
  }

  /** Where a device without the handler exists, the loop ends at the first such device, unless it is there already. */
  lemma {:induction false} FledToFirst(r: Registry, kind: OutputType, name: string, bad: set<string>)
    requires WellFormed(r) && r.active != "" && bad <= Users(r, kind, name)
    requires r.devices.Keys - Users(r, kind, name) != {}
    ensures var end := Fled(r, kind, name, bad);
            && end.1
            && if r.active !in Users(r, kind, name) then end.0 == r
               else IsFirst(end.0.active, r.devices.Keys - Users(r, kind, name))
    decreases |r.devices.Keys - bad - {r.active}|
  {
    var users := Users(r, kind, name);
    if r.active in users {
      FledStep(r, kind, name, bad);
      var rest := r.devices.Keys - (bad + {r.active});
      assert r.devices.Keys - users <= rest;
      var next := First(rest);
      ActivatedUsers(r, next, kind, name);
      FledToFirst(Activated(r, next), kind, name, bad + {r.active});
      if next !in users {
        assert IsFirst(next, r.devices.Keys - users);
      }
    }
  }

  /** Where all devices have the handler the loop tries them all, and the last one tried stays active. */
  lemma {:induction false} FledToLast(r: Registry, kind: OutputType, name: string, bad: set<string>)
    requires WellFormed(r) && r.active != "" && bad <= r.devices.Keys
    requires r.devices.Keys == Users(r, kind, name)
    ensures var end, rest := Fled(r, kind, name, bad), r.devices.Keys - bad - {r.active};
            && !end.1
            && if rest == {} then end.0.active == r.active else IsLast(end.0.active, rest)
    decreases |r.devices.Keys - bad - {r.active}|
  {
    FledStep(r, kind, name, bad);
    var rest := r.devices.Keys - bad - {r.active};
    assert rest == r.devices.Keys - (bad + {r.active}) && r.active in Users(r, kind, name);
    if rest != {} {
      var next := First(rest);
      ActivatedUsers(r, next, kind, name);
      FledToLast(Activated(r, next), kind, name, bad + {r.active});
      assert Activated(r, next).devices.Keys - (bad + {r.active}) - {next} == rest - {next};
    }
  }

  /** Unregistering fails exactly when every device has the handler, and then the active device can still change. */
  lemma UnregisterFailsIff(r: Registry, kind: OutputType, name: string)
    requires Consistent(r) && IsRegistered(r.handlers, kind, name)
    ensures var after, error := Unregister(r, kind, name).0, Unregister(r, kind, name).1;
            var users, ids := Users(r, kind, name), r.devices.Keys;
            && (error.Some? <==> ids != {} && users == ids)
            && (error.Some? ==> after.handlers == r.handlers)
            && (error.Some? ==> if ids == {r.active} then after.active == r.active
                else IsLast(after.active, ids - {r.active}))
            && (error.None? ==> !IsRegistered(after.handlers, kind, name))
            && (error.None? && ids != {} ==>
                  if r.active in users then IsFirst(after.active, ids - users) else after.active == r.active)
  {
    var users, ids := Users(r, kind, name), r.devices.Keys;
    if r.active != "" {
      if users == ids {
        FledToLast(r, kind, name, {});
        assert ids - {} - {r.active} == ids - {r.active};
      } else {
        FledToFirst(r, kind, name, {});
      }
    }
  }

  /** After a successful call the active device does not have the handler. */
  lemma ActiveIsNotUnregistered(ops: seq<Op>, kind: OutputType, name: string)
    requires IsRegistered(Run(EMPTY, ops).handlers, kind, name)
    requires Unregister(Run(EMPTY, ops), kind, name).1.None?
    ensures var after := Run(EMPTY, ops + [UnregisterOp(kind, name)]);
            after.active != "" ==> !Uses(after.devices[after.active], kind, name)
  {
    var r := Run(EMPTY, ops);
    RunIsConsistent(EMPTY, ops);
    assert (ops + [UnregisterOp(kind, name)])[..|ops|] == ops;
    if r.active != "" {
      UnregisterFailsIff(r, kind, name);
      FledKeepsHandlers(r, kind, name, {}, Fled(r, kind, name, {}).0.active);
    }
  }

  lemma {:induction false} FledKeepsHandlers(r: Registry, kind: OutputType, name: string, bad: set<string>, id: string)
    requires WellFormed(r) && r.active != "" && id in r.devices
    ensures var end := Fled(r, kind, name, bad).0;
            end.devices[id].handler == r.devices[id].handler && end.devices[id].kind == r.devices[id].kind
    decreases |r.devices.Keys - bad - {r.active}|
  {
    if Uses(r.devices[r.active], kind, name) {
      FledStep(r, kind, name, bad);
      var next := NextId(r.devices.Keys, bad + {r.active});
      if next.Some? {
        FledKeepsHandlers(Activated(r, next.value), kind, name, bad + {r.active}, id);
      }
    }
  }

  /** Every device has a handler that is registered. */
  predicate AllRegistered(r: Registry) {
    forall id :: id in r.devices ==> IsRegistered(r.handlers, r.devices[id].kind, r.devices[id].handler.name)
  }

  /** Devices that are not active keep the handler, so this is safe exactly when no device had it. */
  lemma UnregisterIsCleanIff(r: Registry, kind: OutputType, name: string)
    requires Consistent(r) && AllRegistered(r) && IsRegistered(r.handlers, kind, name)
    requires Unregister(r, kind, name).1.None?
    ensures AllRegistered(Unregister(r, kind, name).0) <==> Users(r, kind, name) == {}
  {
    var after := Unregister(r, kind, name).0;
    forall id | id in r.devices
      ensures after.devices[id].kind == r.devices[id].kind && after.devices[id].handler == r.devices[id].handler
      ensures IsRegistered(after.handlers, r.devices[id].kind, r.devices[id].handler.name)
              <==> id !in Users(r, kind, name)
    {
      if r.active != "" { FledKeepsHandlers(r, kind, name, {}, id); }
    }
    assert after.devices.Keys == r.devices.Keys;
  }
}
