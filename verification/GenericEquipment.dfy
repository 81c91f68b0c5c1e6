/** equipment/src/GenericEquipment.cc: the mutable equipment object every adapter binds. */
module GenericEquipments {
  import opened AdapterContract
  import opened Domain

  class GenericEquipment {
    const id: string
    const typ: string
    var operationalState: OperationalState
    var fault: bool
    var capabilities: seq<string>
    var telemetry: map<string, TelemetryPoint>

    constructor (id: string, typ: string)
      ensures View() == EquipmentState(id, typ, Stopped, false, [], map[])
    {
      this.id, this.typ := id, typ;
      operationalState, fault := Stopped, false;
      capabilities, telemetry := [], map[];
    }

    ghost function View(): EquipmentState
      reads this
    {
      EquipmentState(id, typ, operationalState, fault, capabilities, telemetry)
    }

    predicate HasCapability(name: string)
      reads this
    {
      name in capabilities
    }

    method AddCapability(name: string)
      modifies this
      ensures View() == old(View()).(capabilities := WithCapability(old(capabilities), name))
      ensures Distinct(old(capabilities)) ==> Distinct(capabilities)
    {
      if !HasCapability(name) {
        capabilities := capabilities + [name];
      }
    }

    method SetTelemetry(name: string, value: real, unit: string)
      modifies this
      ensures View() == WithTelemetry(old(View()), name, value, unit)
    {
      telemetry := telemetry[name := TelemetryPoint(name, value, unit)];
    }

    method SetFault(value: bool)
      modifies this
      ensures View() == old(View()).(fault := value)
    {
      fault := value;
    }

    method SetOperationalState(state: OperationalState)
      modifies this
      ensures View() == old(View()).(operational := state)
    {
      operationalState := state;
    }

    /** A command is accepted exactly when it is a capability, and no command, known
        or not, touches the machine fault or the telemetry. */
    method Execute(command: string) returns (result: CommandResult)
      modifies this
      ensures result.accepted <==> command in old(capabilities)
      ensures View() == old(View()).(operational := operationalState)
      ensures result.accepted && command == "start" ==> operationalState == Running
      ensures result.accepted && command == "stop" ==> operationalState == Stopped
      ensures !result.accepted || (command != "start" && command != "stop") ==>
                operationalState == old(operationalState)
    {
      if command == "start" {
        if !HasCapability("start") {
          return CommandResult(false, "capability start not present");
        }
        operationalState := Running;
        return CommandResult(true, "started");
      }
      if command == "stop" {
        if !HasCapability("stop") {
          return CommandResult(false, "capability stop not present");
        }
        operationalState := Stopped;
        return CommandResult(true, "stopped");
      }
      if HasCapability(command) {
        return CommandResult(true, "accepted");
      }
      return CommandResult(false, "unknown command");
    }
  }

  ghost predicate Distinct(names: seq<string>) {
    forall i, j :: 0 <= i < j < |names| ==> names[i] != names[j]
  }

  /** The states of the items an adapter has bound. */
  ghost function StatesOf(bound: seq<GenericEquipment>): (es: seq<EquipmentState>)
    reads bound
    ensures |es| == |bound| && forall i :: 0 <= i < |es| ==> es[i] == bound[i].View()
  {
    seq(|bound|, i requires 0 <= i < |bound| reads bound => bound[i].View())
  }

  /** Each item is owned by one slot, as the source's unique_ptr vector has it. */
  ghost predicate OwnedOnce(bound: seq<GenericEquipment>) {
    forall i, j :: 0 <= i < j < |bound| ==> bound[i] != bound[j]
  }

  /** What a mapping says about the equipment to bind. */
  datatype BindSpec = BindSpec(id: string, typ: string, capabilities: seq<string>, commands: seq<string>)

  function MappedOf(s: BindSpec): Mapped {
    Mapped(s.id, s.typ, WithCapabilities(WithCapabilities([], s.capabilities), s.commands), map[])
  }

  function MappedAll(specs: seq<BindSpec>): (ms: seq<Mapped>)
    ensures |ms| == |specs| && forall i :: 0 <= i < |ms| ==> ms[i] == MappedOf(specs[i])
  {
    seq(|specs|, i requires 0 <= i < |specs| => MappedOf(specs[i]))
  }

  /** Adding names to a list keeps the list, adds what is missing and nothing else, and
      never makes it repeat one. */
  lemma {:induction false} CapabilitiesAreUnion(names: seq<string>, more: seq<string>)
    ensures var r := WithCapabilities(names, more);
      names <= r && (forall c :: c in r <==> c in names || c in more) && (Distinct(names) ==> Distinct(r))
    decreases |more|
  {
    if more != [] {
      CapabilitiesAreUnion(WithCapability(names, more[0]), more[1..]);
      assert forall c :: c in more <==> c == more[0] || c in more[1..];
    }
  }

  /** Newly bound equipment can do what the mapping lists and what it maps commands for,
      each once. */
  lemma MappedCapabilities(s: BindSpec)
    ensures var e := FreshEquipment(MappedOf(s));
      && e.id == s.id && e.typ == s.typ && e.operational == Stopped && !e.fault && e.telemetry == map[]
      && Distinct(e.capabilities) && forall c :: c in e.capabilities <==> c in s.capabilities || c in s.commands
  {
    CapabilitiesAreUnion([], s.capabilities);
    CapabilitiesAreUnion(WithCapabilities([], s.capabilities), s.commands);
  }

  /** Items bound for mappings of the same ids expose what binding anew would expose. */
  lemma BindAnewSameIds(es: seq<EquipmentState>, specs: seq<BindSpec>)
    requires |es| == |specs| && forall i :: 0 <= i < |es| ==> es[i].id == specs[i].id
    ensures IdsOf(FreshAll(MappedAll(specs))) == IdsOf(es)
  {
    var anew := FreshAll(MappedAll(specs));
    forall i | 0 <= i < |es|
      ensures anew[i].id == es[i].id
    {
    }
  }

  method BindOne(spec: BindSpec) returns (e: GenericEquipment)
    ensures fresh(e) && e.View() == FreshEquipment(MappedOf(spec))
  {
    e := new GenericEquipment(spec.id, spec.typ);
    AddAll(e, spec.capabilities);
    AddAll(e, spec.commands);
  }

  method AddAll(e: GenericEquipment, names: seq<string>)
    modifies e
    ensures e.View() == old(e.View()).(capabilities := WithCapabilities(old(e.capabilities), names))
  {
    for i := 0 to |names|
      invariant e.View() == old(e.View()).(capabilities := e.capabilities)
      invariant WithCapabilities(e.capabilities, names[i..]) == WithCapabilities(old(e.capabilities), names)
    {
      assert names[i..][1..] == names[i + 1..];
      e.AddCapability(names[i]);
    }
  }

  /** bindEquipment: newly allocated items, one per mapping, in mapping order. */
  method BindAll(specs: seq<BindSpec>) returns (bound: seq<GenericEquipment>)
    ensures fresh(set e | e in bound) && OwnedOnce(bound)
    ensures StatesOf(bound) == FreshAll(MappedAll(specs))
  {
    bound := [];
    for i := 0 to |specs|
      invariant |bound| == i && fresh(set e | e in bound) && OwnedOnce(bound)
      invariant forall j :: 0 <= j < i ==> bound[j].View() == FreshEquipment(MappedOf(specs[j]))
    {
      var e := BindOne(specs[i]);
      bound := bound + [e];
    }
  }
}
