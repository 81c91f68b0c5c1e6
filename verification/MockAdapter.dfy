/** industrial/src/MockIndustrialAdapter.cc: a simulated source held beside the bound
    equipment, and the coupling between the two. */
module MockAdapters {
  import opened AdapterContract
  import opened Domain
  import opened GenericEquipments

  type Points = map<string, TelemetryPoint>

  datatype DeviceConfig = DeviceConfig(id: string, typ: string, capabilities: seq<string>, source: Points)

  /** The adapter's own state, as a value. */
  datatype Mock = Mock(devices: seq<DeviceConfig>, state: ConnectionState, lastError: string, bound: seq<EquipmentState>)

  ghost predicate NamedByKey(ps: Points) {
    forall n :: n in ps ==> ps[n].name == n
  }

  /** The i-th bound item is the i-th device, and shows no name its source lacks. */
  ghost predicate Coupled(m: Mock) {
    && (forall i, j :: 0 <= i < j < |m.devices| ==> m.devices[i].id != m.devices[j].id)
    && (forall i :: 0 <= i < |m.devices| ==> NamedByKey(m.devices[i].source))
    && |m.bound| <= |m.devices|
    && (forall i :: 0 <= i < |m.bound| ==> m.bound[i].id == m.devices[i].id)
    && (forall i :: 0 <= i < |m.bound| ==> m.bound[i].telemetry.Keys <= m.devices[i].source.Keys)
    && (m.state == Disconnected ==> m.bound == [] && m.lastError == "")
    && (m.state == Connected ==> m.lastError == "")
  }

  function DeviceIndex(ds: seq<DeviceConfig>, id: string, k: nat): (i: Option<nat>)
    requires k <= |ds|
    ensures i.Some? ==> k <= i.value < |ds| && ds[i.value].id == id
    ensures forall j :: k <= j < |ds| && (i.Some? ==> j < i.value) ==> ds[j].id != id
    decreases |ds| - k
  {
    if k == |ds| then None else if ds[k].id == id then Some(k) else DeviceIndex(ds, id, k + 1)
  }

  // ----- the operations on values -----

  function MappedDevice(d: DeviceConfig): Mapped {
    Mapped(d.id, d.typ, WithCapabilities([], d.capabilities), d.source)
  }

  function MappedDevices(ds: seq<DeviceConfig>): (ms: seq<Mapped>)
    ensures |ms| == |ds| && forall i :: 0 <= i < |ms| ==> ms[i] == MappedDevice(ds[i])
  {
    seq(|ds|, i requires 0 <= i < |ds| => MappedDevice(ds[i]))
  }

  function DeviceAdded(m: Mock, id: string, typ: string): Mock {
    if DeviceIndex(m.devices, id, 0).Some? then m
    else m.(devices := m.devices + [DeviceConfig(id, typ, [], map[])])
  }

  function SourceSet(m: Mock, id: string, p: TelemetryPoint): Mock {
    var i := DeviceIndex(m.devices, id, 0);
    if i.None? then m
    else m.(devices := m.devices[i.value := m.devices[i.value].(source := m.devices[i.value].source[p.name := p])])
  }

  function CapabilityAdded(m: Mock, id: string, capability: string): Mock {
    var i := DeviceIndex(m.devices, id, 0);
    if i.None? then m
    else m.(devices := m.devices[i.value := m.devices[i.value].(
      capabilities := WithCapability(m.devices[i.value].capabilities, capability))])
  }

  function LinkFailed(m: Mock, reason: string): Mock {
    m.(state := Faulted, lastError := reason)
  }

  function LinkCleared(m: Mock): Mock {
    if m.state == Faulted then m.(state := Disconnected, bound := [], lastError := "") else m
  }

  function ConnectDone(m: Mock): Mock {
    match m.state
    case Connected => m
    case Faulted => m.(lastError := "cannot connect while faulted")
    case Disconnected => m.(state := Connected, lastError := "", bound := FreshAll(MappedDevices(m.devices)))
  }

  function DisconnectDone(m: Mock): Mock {
    m.(state := Disconnected, lastError := "", bound := [])
  }

  function Copied(e: EquipmentState, d: DeviceConfig): EquipmentState {
    e.(telemetry := e.telemetry + d.source)
  }

  function PollDone(m: Mock): Mock
    requires |m.bound| <= |m.devices|
  {
    if m.state != Connected then
      (if m.state == Faulted && m.lastError == "" then m.(lastError := POLL_FAULT) else m)
    else m.(bound := seq(|m.bound|, i requires 0 <= i < |m.bound| => Copied(m.bound[i], m.devices[i])))
  }

  function UnitOf(e: EquipmentState, name: string): string {
    if name in e.telemetry then e.telemetry[name].unit else ""
  }

  predicate Settable(e: EquipmentState, command: string) {
    IsSetCommand(command) && command in e.capabilities
  }

  /** A set command writes the equipment and its source alike. */
  function SetDone(m: Mock, i: nat, name: string, value: real): Mock
    requires i < |m.bound|
  {
    var unit := UnitOf(m.bound[i], name);
    SourceSet(m.(bound := m.bound[i := WithTelemetry(m.bound[i], name, value, unit)]), m.bound[i].id,
              TelemetryPoint(name, value, unit))
  }

  function OtherDone(m: Mock, i: nat, operational: OperationalState): Mock
    requires i < |m.bound|
  {
    m.(bound := m.bound[i := m.bound[i].(operational := operational)])
  }

  // ----- the adapter -----

  class MockAdapter {
    const id: string
    var devices: seq<DeviceConfig>
    var state: ConnectionState
    var lastError: string
    var bound: seq<GenericEquipment>

    constructor (id: string)
      ensures Valid() && Value() == Mock([], Disconnected, "", [])
    {
      this.id := id;
      devices, state, lastError, bound := [], Disconnected, "", [];
    }

    ghost function Value(): Mock
      reads this`devices, this`state, this`lastError, this`bound, bound
    {
      Mock(devices, state, lastError, StatesOf(bound))
    }

    ghost function View(): AdapterView
      reads this`state, this`lastError, this`bound, bound
    {
      AdapterView(id, "mock", state, lastError, StatesOf(bound))
    }

    ghost predicate Valid()
      reads this`devices, this`state, this`lastError, this`bound, bound
    {
      OwnedOnce(bound) && Coupled(Value())
    }

    method FindConfig(equipmentId: string) returns (found: Option<nat>)
      ensures found == DeviceIndex(devices, equipmentId, 0)
    {
      for k := 0 to |devices|
        invariant DeviceIndex(devices, equipmentId, 0) == DeviceIndex(devices, equipmentId, k)
      {
        if devices[k].id == equipmentId {
          return Some(k);
        }
      }
      return None;
    }

    method AddDevice(equipmentId: string, typ: string)
      requires Valid()
      modifies this`devices
      ensures Valid() && Value() == DeviceAdded(old(Value()), equipmentId, typ)
    {
      AddKeepsCoupled(Value(), equipmentId, typ);
      var i := FindConfig(equipmentId);
      if i.None? {
        devices := devices + [DeviceConfig(equipmentId, typ, [], map[])];
      }
    }

    method AddCapability(equipmentId: string, capability: string)
      requires Valid()
      modifies this`devices
      ensures Valid() && Value() == CapabilityAdded(old(Value()), equipmentId, capability)
    {
      CapabilityKeepsCoupled(Value(), equipmentId, capability);
      var i := FindConfig(equipmentId);
      if i.Some? && capability !in devices[i.value].capabilities {
        devices := devices[i.value := devices[i.value].(capabilities := devices[i.value].capabilities + [capability])];
      }
    }

    method SetSourceTelemetry(equipmentId: string, name: string, value: real, unit: string)
      requires Valid()
      modifies this`devices
      ensures Valid() && Value() == SourceSet(old(Value()), equipmentId, TelemetryPoint(name, value, unit))
    {
      SourceKeepsCoupled(Value(), equipmentId, TelemetryPoint(name, value, unit));
      var i := FindConfig(equipmentId);
      if i.Some? {
        var d := devices[i.value];
        devices := devices[i.value := d.(source := d.source[name := TelemetryPoint(name, value, unit)])];
      }
    }

    method SimulateCommunicationFailure(reason: string)
      requires Valid()
      modifies this`state, this`lastError
      ensures Valid() && Value() == LinkFailed(old(Value()), reason)
      ensures View() == AfterLinkFailure(old(View()), reason)
      ensures state == Faulted && lastError == reason
    {
      state, lastError := Faulted, reason;
    }

    method ClearCommunicationFailure()
      requires Valid()
      modifies this`state, this`lastError, this`bound
      ensures Valid() && Value() == LinkCleared(old(Value()))
      ensures View() == AfterClear(old(View()))
      ensures if old(state) == Faulted then state == Disconnected && bound == [] && lastError == ""
              else state == old(state) && bound == old(bound) && lastError == old(lastError)
    {
      if state == Faulted {
        state, bound, lastError := Disconnected, [], "";
      }
    }

    ghost function ReplyOf(): ConnectReply
      reads this`state, this`devices
    {
      if state == Faulted then Refuse("cannot connect while faulted") else Bind(MappedDevices(devices))
    }

    method Connect() returns (ok: bool)
      requires Valid()
      modifies this`state, this`lastError, this`bound
      ensures Valid() && fresh(set e | e in bound && e !in old(bound))
      ensures Value() == ConnectDone(old(Value()))
      ensures ok == ConnectOk(old(View()), old(ReplyOf())) && View() == AfterConnect(old(View()), old(ReplyOf()))
    {
      if state == Connected {
        return true;
      }
      if state == Faulted {
        lastError := "cannot connect while faulted";
        return false;
      }
      BindDevices();
      state, lastError := Connected, "";
      return true;
    }

    method BindDevices()
      requires forall i :: 0 <= i < |devices| ==> NamedByKey(devices[i].source)
      modifies this`bound
      ensures fresh(set e | e in bound) && OwnedOnce(bound)
      ensures StatesOf(bound) == FreshAll(MappedDevices(devices))
    {
      bound := [];
      for i := 0 to |devices|
        invariant |bound| == i && fresh(set e | e in bound) && OwnedOnce(bound)
        invariant forall j :: 0 <= j < i ==> bound[j].View() == FreshEquipment(MappedDevice(devices[j]))
      {
        var e := new GenericEquipment(devices[i].id, devices[i].typ);
        AddAll(e, devices[i].capabilities);
        CopySourceTelemetry(e, devices[i].source);
        assert map[] + devices[i].source == devices[i].source;
        bound := bound + [e];
      }
    }

    static method CopySourceTelemetry(e: GenericEquipment, source: Points)
      modifies e
      ensures NamedByKey(source) ==> e.View() == old(e.View()).(telemetry := old(e.telemetry) + source)
    {
      var todo := source.Keys;
      while todo != {}
        invariant todo <= source.Keys
        invariant e.View() == old(e.View()).(telemetry := e.telemetry)
        invariant NamedByKey(source) ==> e.telemetry.Keys == old(e.telemetry).Keys + (source.Keys - todo)
        invariant NamedByKey(source) ==>
          forall k :: k in e.telemetry ==>
            e.telemetry[k] == if k in source && k !in todo then source[k] else old(e.telemetry)[k]
        decreases todo
      {
        var n :| n in todo;
        e.SetTelemetry(source[n].name, source[n].value, source[n].unit);
        todo := todo - {n};
      }
    }

    method Disconnect()
      requires Valid()
      modifies this`state, this`lastError, this`bound
      ensures Valid() && Value() == DisconnectDone(old(Value()))
      ensures View() == AfterDisconnect(old(View()))
    {
      bound := [];
      state, lastError := Disconnected, "";
    }

    /** After a poll from Connected, what each item shows is exactly its source. */
    method Poll()
      requires Valid()
      modifies this`lastError, bound
      ensures Valid() && bound == old(bound) && Value() == PollDone(old(Value()))
      ensures old(state) == Connected ==>
        forall i :: 0 <= i < |bound| ==> bound[i].telemetry == devices[i].source
      ensures View() == AfterPoll(old(View()), PollReply(SourceUpdates(old(Value())), None))
    {
      if state != Connected {
        if state == Faulted && lastError == "" {
          lastError := POLL_FAULT;
        }
        return;
      }
      ghost var before, seen := Value(), View();
      CopyAll();
      CopyIsSource(before);
      CopyIsPoll(before, seen);
    }

    method CopyAll()
      requires OwnedOnce(bound) && |bound| <= |devices|
      requires forall i :: 0 <= i < |devices| ==> NamedByKey(devices[i].source)
      modifies bound
      ensures forall p :: 0 <= p < |bound| ==> bound[p].View() == Copied(old(bound[p].View()), devices[p])
    {
      for k := 0 to |bound|
        invariant forall p :: 0 <= p < k ==> bound[p].View() == Copied(old(bound[p].View()), devices[p])
        invariant forall p :: k <= p < |bound| ==> bound[p].View() == old(bound[p].View())
      {
        CopySourceTelemetry(bound[k], devices[k].source);
      }
    }

    /** A set command on a capability changes the equipment and its source; any other
        command is the equipment's own. */
    method Execute(i: nat, command: string, parameter: real) returns (result: CommandResult)
      requires Valid() && i < |bound|
      modifies this`devices, bound[i]
      ensures Valid()
      ensures result.accepted <==> state == Connected && command in old(bound[i].capabilities)
      ensures state != Connected ==> Value() == old(Value())
      ensures state == Connected && Settable(old(Value()).bound[i], command) ==>
        Value() == SetDone(old(Value()), i, command[4..], parameter)
      ensures state == Connected && !Settable(old(Value()).bound[i], command) ==>
        Value() == OtherDone(old(Value()), i, bound[i].operationalState)
      ensures result.accepted && command == "start" ==> bound[i].operationalState == Running
      ensures result.accepted && command == "stop" ==> bound[i].operationalState == Stopped
      ensures !result.accepted || (command != "start" && command != "stop") ==>
        bound[i].operationalState == old(bound[i].operationalState)
      ensures View() ==
        AfterCommand(old(View()),
          if state == Connected then Changed(i, bound[i].telemetry, bound[i].operationalState) else Ignored)
    {
      if state != Connected {
        return CommandResult(false, if state == Faulted then "communication fault" else "adapter not connected");
      }
      if IsSetCommand(command) && bound[i].HasCapability(command) {
        SetIsNeitherStartNorStop(command);
        var name := command[4..];
        var unit := if name in bound[i].telemetry then bound[i].telemetry[name].unit else "";
        SetEverywhere(i, name, parameter, unit);
        return CommandResult(true, "set");
      }
      result := OwnCommand(i, command);
    }

    /** Any other command is the equipment's own and leaves its source alone. */
    method OwnCommand(i: nat, command: string) returns (result: CommandResult)
      requires Valid() && i < |bound|
      modifies bound[i]
      ensures Valid() && Value() == OtherDone(old(Value()), i, bound[i].operationalState)
      ensures bound[i].telemetry == old(bound[i].telemetry)
      ensures result.accepted <==> command in old(bound[i].capabilities)
      ensures result.accepted && command == "start" ==> bound[i].operationalState == Running
      ensures result.accepted && command == "stop" ==> bound[i].operationalState == Stopped
      ensures !result.accepted || (command != "start" && command != "stop") ==>
        bound[i].operationalState == old(bound[i].operationalState)
    {
      result := bound[i].Execute(command);
      assert StatesOf(bound) ==
        old(StatesOf(bound))[i := old(bound[i].View()).(operational := bound[i].operationalState)];
    }

    method SetEverywhere(i: nat, name: string, value: real, unit: string)
      requires Valid() && i < |bound| && unit == UnitOf(Value().bound[i], name)
      modifies this`devices, bound[i]
      ensures Valid() && Value() == SetDone(old(Value()), i, name, value)
      ensures bound[i].View() == WithTelemetry(old(bound[i].View()), name, value, unit)
    {
      ghost var before := Value();
      bound[i].SetTelemetry(name, value, unit);
      var d := FindConfig(bound[i].id);
      SetKeepsCoupled(before, i, name, value);
      var source := devices[d.value].source[name := TelemetryPoint(name, value, unit)];
      devices := devices[d.value := devices[d.value].(source := source)];
      assert StatesOf(bound) == before.bound[i := WithTelemetry(before.bound[i], name, value, unit)];
    }
  }

  ghost function SourceUpdates(m: Mock): seq<Update>
    requires |m.bound| <= |m.devices|
  {
    seq(|m.bound|, i requires 0 <= i < |m.bound| =>
      Update(m.bound[i].telemetry + m.devices[i].source, m.bound[i].operational, None))
  }

  lemma CopyIsPoll(m: Mock, v: AdapterView)
    requires m.state == v.state == Connected && m.bound == v.bound && |m.bound| <= |m.devices|
    ensures AfterPoll(v, PollReply(SourceUpdates(m), None)) == v.(bound := PollDone(m).bound)
  {
  }

  lemma CopyIsSource(m: Mock)
    requires Coupled(m)
    ensures forall i :: 0 <= i < |m.bound| ==> Copied(m.bound[i], m.devices[i]).telemetry == m.devices[i].source
  {
  }

  /** What configuring does to the devices: a new one only under an unused id, and to the
      device of the id alone a capability it lacks or a source point under its name. */
  lemma ConfiguresOneDevice(m: Mock, id: string, typ: string, capability: string, p: TelemetryPoint)
    requires Coupled(m)
    ensures DeviceAdded(m, id, typ) == m.(devices :=
      if exists k :: 0 <= k < |m.devices| && m.devices[k].id == id then m.devices
      else m.devices + [DeviceConfig(id, typ, [], map[])])
    ensures var ds := CapabilityAdded(m, id, capability).devices;
      && CapabilityAdded(m, id, capability) == m.(devices := ds) && |ds| == |m.devices|
      && forall k :: 0 <= k < |ds| ==>
           ds[k] == if m.devices[k].id == id && capability !in m.devices[k].capabilities
                    then m.devices[k].(capabilities := m.devices[k].capabilities + [capability]) else m.devices[k]
    ensures var ds := SourceSet(m, id, p).devices;
      && SourceSet(m, id, p) == m.(devices := ds) && |ds| == |m.devices|
      && forall k :: 0 <= k < |ds| ==>
           ds[k] == if m.devices[k].id == id then m.devices[k].(source := m.devices[k].source[p.name := p]) else m.devices[k]
  {
  }

  /** A set command writes one point under its name to the item and to the item's own
      device, with the unit the item showed, or none if it showed no such name, and changes
      nothing else. */
  lemma SetWritesBoth(m: Mock, i: nat, name: string, value: real)
    requires Coupled(m) && i < |m.bound|
    ensures var e, d := m.bound[i], m.devices[i];
      var point := TelemetryPoint(name, value, if name in e.telemetry then e.telemetry[name].unit else "");
      SetDone(m, i, name, value) == Mock(m.devices[i := d.(source := d.source[name := point])], m.state, m.lastError,
                                         m.bound[i := e.(telemetry := e.telemetry[name := point])])
  {
    SetKeepsCoupled(m, i, name, value);
  }

  /** What a connect binds for a device: its id and type, stopped, without fault, able to
      do what the device lists, each once, and showing the device's source. */
  lemma BindsAsDevice(ds: seq<DeviceConfig>, k: nat)
    requires k < |ds|
    ensures var e := FreshAll(MappedDevices(ds))[k];
      && e.id == ds[k].id && e.typ == ds[k].typ && e.operational == Stopped && !e.fault && e.telemetry == ds[k].source
      && Distinct(e.capabilities) && forall c :: c in e.capabilities <==> c in ds[k].capabilities
  {
    CapabilitiesAreUnion([], ds[k].capabilities);
  }

  lemma SetKeepsCoupled(m: Mock, i: nat, name: string, value: real)
    requires Coupled(m) && i < |m.bound|
    ensures DeviceIndex(m.devices, m.bound[i].id, 0) == Some(i)
    ensures Coupled(SetDone(m, i, name, value))
  {
  }

  // ----- a value once set stays -----

  datatype Op =
    | AddDevice(id: string, typ: string)
    | AddCapability(id: string, capability: string)
    | SetSource(id: string, point: TelemetryPoint)
    | FailLink(reason: string)
    | ClearLink
    | DoConnect
    | DoDisconnect
    | DoPoll
    | Set(i: nat, name: string, value: real)
    | OtherCommand(i: nat, operational: OperationalState)

  /** Commands reach bound items of a Connected adapter only. */
  predicate Possible(m: Mock, op: Op) {
    && (op.Set? || op.OtherCommand? ==> m.state == Connected && op.i < |m.bound|)
    && |m.bound| <= |m.devices|
  }

  function After(m: Mock, op: Op): Mock
    requires Possible(m, op)
  {
    match op
    case AddDevice(id, typ) => DeviceAdded(m, id, typ)
    case AddCapability(id, c) => CapabilityAdded(m, id, c)
    case SetSource(id, p) => SourceSet(m, id, p)
    case FailLink(reason) => LinkFailed(m, reason)
    case ClearLink => LinkCleared(m)
    case DoConnect => ConnectDone(m)
    case DoDisconnect => DisconnectDone(m)
    case DoPoll => PollDone(m)
    case Set(i, name, value) => SetDone(m, i, name, value)
    case OtherCommand(i, o) => OtherDone(m, i, o)
  }

  ghost predicate IsRun(states: seq<Mock>, ops: seq<Op>) {
    && |states| == |ops| + 1
    && forall k :: 0 <= k < |ops| ==> Possible(states[k], ops[k]) && states[k + 1] == After(states[k], ops[k])
  }

  /** The source of device i holds the point, and so does the item if it is bound. */
  ghost predicate HoldsPoint(m: Mock, i: nat, p: TelemetryPoint) {
    && i < |m.devices| && p.name in m.devices[i].source && m.devices[i].source[p.name] == p
    && (i < |m.bound| ==> p.name in m.bound[i].telemetry && m.bound[i].telemetry[p.name] == p)
  }

  /** The operation gives device i another value of that name. */
  predicate Overwrites(m: Mock, op: Op, i: nat, name: string) {
    || (op.Set? && op.i == i && op.name == name)
    || (op.SetSource? && i < |m.devices| && op.id == m.devices[i].id && op.point.name == name)
  }

  lemma StepKeepsCoupled(m: Mock, op: Op)
    requires Coupled(m) && Possible(m, op)
    ensures Coupled(After(m, op))
  {
    match op
    case Set(i, name, value) => SetKeepsCoupled(m, i, name, value);
    case SetSource(id, p) => SourceKeepsCoupled(m, id, p);
    case AddCapability(id, c) => CapabilityKeepsCoupled(m, id, c);
    case AddDevice(id, typ) => AddKeepsCoupled(m, id, typ);
    case FailLink(_) =>
    case ClearLink =>
    case DoConnect =>
    case DoDisconnect =>
    case DoPoll => PollKeepsCoupled(m);
    case OtherCommand(_, _) =>
  }

  lemma AddKeepsCoupled(m: Mock, id: string, typ: string)
    requires Coupled(m)
    ensures Coupled(DeviceAdded(m, id, typ))
  {
  }

  lemma SourceKeepsCoupled(m: Mock, id: string, p: TelemetryPoint)
    requires Coupled(m)
    ensures Coupled(SourceSet(m, id, p))
  {
  }

  lemma CapabilityKeepsCoupled(m: Mock, id: string, c: string)
    requires Coupled(m)
    ensures Coupled(CapabilityAdded(m, id, c))
  {
  }

  lemma PollKeepsCoupled(m: Mock)
    requires Coupled(m)
    ensures Coupled(PollDone(m))
  {
  }

  lemma StepKeepsPoint(m: Mock, op: Op, i: nat, p: TelemetryPoint)
    requires Coupled(m) && Possible(m, op) && HoldsPoint(m, i, p) && !Overwrites(m, op, i, p.name)
    ensures HoldsPoint(After(m, op), i, p)
  {
  }

  /** A set command makes the point hold, whatever the name was before. */
  lemma SetHolds(m: Mock, i: nat, name: string, value: real)
    requires Coupled(m) && i < |m.bound|
    ensures HoldsPoint(SetDone(m, i, name, value), i, TelemetryPoint(name, value, UnitOf(m.bound[i], name)))
  {
  }

  lemma {:induction false} PointHoldsThrough(states: seq<Mock>, ops: seq<Op>, n: nat, i: nat, p: TelemetryPoint)
    requires IsRun(states, ops) && n <= |ops| && Coupled(states[0]) && HoldsPoint(states[0], i, p)
    requires forall k :: 0 <= k < n ==> !Overwrites(states[k], ops[k], i, p.name)
    ensures Coupled(states[n]) && HoldsPoint(states[n], i, p)
  {
    if n > 0 {
      PointHoldsThrough(states, ops, n - 1, i, p);
      assert states[n] == After(states[n - 1], ops[n - 1]);
      StepKeepsCoupled(states[n - 1], ops[n - 1]);
      StepKeepsPoint(states[n - 1], ops[n - 1], i, p);
    }
  }

  /** A value accepted by set_X stays X's value, in the source and on the equipment,
      through polls, link failures, disconnects and reconnects, until the next set_X or
      setSourceTelemetry of X on that device. */
  lemma SetValueSurvives(states: seq<Mock>, ops: seq<Op>, i: nat, name: string, value: real)
    requires IsRun(states, ops) && Coupled(states[0])
    requires ops != [] && ops[0] == Set(i, name, value)
    requires forall k :: 1 <= k < |ops| ==> !Overwrites(states[k], ops[k], i, name)
    ensures HoldsPoint(states[|ops|], i, TelemetryPoint(name, value, UnitOf(states[0].bound[i], name)))
  {
    assert states[1] == After(states[0], ops[0]);
    SetHolds(states[0], i, name, value);
    StepKeepsCoupled(states[0], ops[0]);
    PointHoldsThrough(states[1..], ops[1..], |ops| - 1, i, TelemetryPoint(name, value, UnitOf(states[0].bound[i], name)));
  }
}
