/** The normalized equipment model shared by every adapter and by the ICP runtime. */
module Domain {
  datatype Option<+T> = None | Some(value: T)

  datatype ConnectionState = Disconnected | Connected | Faulted

  datatype OperationalState = Stopped | Running

  datatype TelemetryPoint = TelemetryPoint(name: string, value: real, unit: string)

  datatype CommandResult = CommandResult(accepted: bool, message: string)

  /** The observable state of one piece of equipment, as a value. */
  datatype EquipmentState = EquipmentState(
    id: string,
    typ: string,
    operational: OperationalState,
    fault: bool,
    capabilities: seq<string>,
    telemetry: map<string, TelemetryPoint>)

  function WithTelemetry(e: EquipmentState, name: string, value: real, unit: string): EquipmentState {
    e.(telemetry := e.telemetry[name := TelemetryPoint(name, value, unit)])
  }

  function OperationalOf(running: bool): OperationalState {
    if running then Running else Stopped
  }

  /** True for the commands "set_X" with a non-empty X. */
  predicate IsSetCommand(command: string) {
    |command| > 4 && command[..4] == "set_"
  }

  /** A set command is the prefix with a name behind it, and its name is what follows. */
  lemma SetCommandIff(command: string, name: string)
    ensures command == "set_" + name && name != "" <==> IsSetCommand(command) && command[4..] == name
  {
    if command == "set_" + name {
      assert command[..4] == "set_" && command[4..] == name;
    }
    if IsSetCommand(command) && command[4..] == name {
      assert command == command[..4] + command[4..];
    }
  }

  lemma SetIsNeitherStartNorStop(command: string)
    requires IsSetCommand(command)
    ensures command != "start" && command != "stop"
  {
    assert command[..4][2] == 't' && "start"[2] == 'a';
  }

  function WithCapability(names: seq<string>, name: string): seq<string> {
    if name in names then names else names + [name]
  }

  function WithCapabilities(names: seq<string>, more: seq<string>): seq<string>
    decreases |more|
  {
    if more == [] then names else WithCapabilities(WithCapability(names, more[0]), more[1..])
  }
}
