/** industrial/src/ModbusIndustrialAdapter.cc: polling coils and registers into bound
    equipment, and writing commands back as 16-bit words. */
module ModbusAdapters {
  import opened AdapterContract
  import opened Domain
  import opened GenericEquipments
  import opened PollCut

  datatype ModbusTable = Coil | DiscreteInput | HoldingRegister | InputRegister

  datatype ModbusRef = ModbusRef(unitId: nat, table: ModbusTable, address: nat, mapped: bool)

  datatype CommandMapping = CommandMapping(command: string, target: ModbusRef)

  datatype TelemetryMapping = TelemetryMapping(name: string, source: ModbusRef, unit: string)

  datatype EquipmentMapping = EquipmentMapping(
    id: string, typ: string, capabilities: seq<string>,
    commands: seq<CommandMapping>, telemetry: seq<TelemetryMapping>,
    stateCoil: ModbusRef, faultCoil: ModbusRef)

  datatype ModbusConfig = ModbusConfig(host: string, port: nat, equipment: seq<EquipmentMapping>)

  /** A register is 16 bits wide; a coil answers zero or non-zero. */
  type Word = w: int | 0 <= w <= 65535

  datatype WireReply = NoAnswer(error: string) | Answer(word: Word)

  /** What the device answers to read j of item i during one poll. */
  type Wire = (nat, nat) -> WireReply

  // ----- the reading plan of a mapping -----

  function TelemetryRefs(ts: seq<TelemetryMapping>): (rs: seq<ModbusRef>)
    ensures |rs| == |ts| && forall i :: 0 <= i < |rs| ==> rs[i] == ts[i].source
  {
    seq(|ts|, i requires 0 <= i < |ts| => ts[i].source)
  }

  function TelemetryPoints(ts: seq<TelemetryMapping>): (ps: seq<Point>)
    ensures |ps| == |ts| && forall i :: 0 <= i < |ps| ==> ps[i] == Telemetry(ts[i].name, ts[i].unit)
  {
    seq(|ts|, i requires 0 <= i < |ts| => Telemetry(ts[i].name, ts[i].unit))
  }

  function Refs(m: EquipmentMapping): seq<ModbusRef> {
    TelemetryRefs(m.telemetry)
    + (if m.stateCoil.mapped then [m.stateCoil] else [])
    + (if m.faultCoil.mapped then [m.faultCoil] else [])
  }

  function Points(m: EquipmentMapping): seq<Point> {
    TelemetryPoints(m.telemetry)
    + (if m.stateCoil.mapped then [StateSignal] else [])
    + (if m.faultCoil.mapped then [FaultSignal] else [])
  }

  function PlanOf(ms: seq<EquipmentMapping>): (plan: Plan)
    ensures |plan| == |ms| && forall i :: 0 <= i < |plan| ==> plan[i] == Points(ms[i])
  {
    seq(|ms|, i requires 0 <= i < |ms| => Points(ms[i]))
  }

  /** readDouble, and readBoolean as "not zero" of it: an unmapped reference fails. */
  function Decoded(ref: ModbusRef, reply: WireReply): Option<real> {
    if !ref.mapped || reply.NoAnswer? then None
    else if ref.table.Coil? || ref.table.DiscreteInput? then Some(if reply.word != 0 then 1.0 else 0.0)
    else Some(reply.word as real)
  }

  function ReadsOf(ms: seq<EquipmentMapping>, wire: Wire): Reads {
    (i: nat, j: nat) =>
      if i < |ms| && j < |Refs(ms[i])| then Decoded(Refs(ms[i])[j], wire(i, j)) else None
  }

  lemma ReadAt(ms: seq<EquipmentMapping>, wire: Wire, i: nat, j: nat)
    requires i < |ms| && j < |Refs(ms[i])|
    ensures ReadsOf(ms, wire)(i, j) == Decoded(Refs(ms[i])[j], wire(i, j))
  {
  }

  /** Which outcome each point of an item has. */
  lemma PointsAt(ms: seq<EquipmentMapping>, wire: Wire, i: nat)
    requires i < |ms|
    ensures var m := ms[i];
      var ps, got, n := Points(m), ReadsOf(ms, wire), |m.telemetry|;
      && |ps| == n + (if m.stateCoil.mapped then 1 else 0) + (if m.faultCoil.mapped then 1 else 0)
      && (forall q :: 0 <= q < n ==> ps[q] == Telemetry(m.telemetry[q].name, m.telemetry[q].unit))
      && (forall q: nat :: q < n ==> got(i, q) == Decoded(m.telemetry[q].source, wire(i, q)))
      && (m.stateCoil.mapped ==> ps[n] == StateSignal && got(i, n) == Decoded(m.stateCoil, wire(i, n)))
      && (m.faultCoil.mapped ==>
            ps[|ps| - 1] == FaultSignal && got(i, |ps| - 1) == Decoded(m.faultCoil, wire(i, |ps| - 1)))
  {
  }

  function SpecOf(m: EquipmentMapping): BindSpec {
    BindSpec(m.id, m.typ, m.capabilities,
             seq(|m.commands|, i requires 0 <= i < |m.commands| => m.commands[i].command))
  }

  function SpecsOf(ms: seq<EquipmentMapping>): (ss: seq<BindSpec>)
    ensures |ss| == |ms| && forall i :: 0 <= i < |ss| ==> ss[i] == SpecOf(ms[i])
  {
    seq(|ms|, i requires 0 <= i < |ms| => SpecOf(ms[i]))
  }

  /** What a connect binds for mapping k: its id and type, stopped, without fault or
      telemetry, able to do what it lists and each command it maps. */
  lemma BindsAsMapped(ms: seq<EquipmentMapping>, k: nat)
    requires k < |ms|
    ensures var e := FreshAll(MappedAll(SpecsOf(ms)))[k];
      && e.id == ms[k].id && e.typ == ms[k].typ && e.operational == Stopped && !e.fault && e.telemetry == map[]
      && Distinct(e.capabilities)
      && forall c :: c in e.capabilities <==>
           c in ms[k].capabilities || exists l :: 0 <= l < |ms[k].commands| && ms[k].commands[l].command == c
  {
    var names := SpecOf(ms[k]).commands;
    MappedCapabilities(SpecOf(ms[k]));
    assert forall l :: 0 <= l < |names| ==> names[l] == ms[k].commands[l].command;
  }

  // ----- holding-register quantisation, section 6.6 of the MODBUS Application Protocol V1.1b3 -----

  function Clipped(value: real): real {
    if value < 0.0 then 0.0 else if value > 65535.0 then 65535.0 else value
  }

  /** lround of the clipped value: halves go away from zero, that is up. */
  function Quantised(value: real): Word {
    (Clipped(value) + 0.5).Floor
  }

  lemma QuantisedIsNearest(value: real, w: Word)
    ensures -0.5 <= Quantised(value) as real - Clipped(value) <= 0.5
    ensures AbsR(Clipped(value) - Quantised(value) as real) <= AbsR(Clipped(value) - w as real)
    ensures AbsR(Clipped(value) - Quantised(value) as real) == AbsR(Clipped(value) - w as real) ==> w <= Quantised(value)
  {
  }

  function AbsR(x: real): real {
    if x < 0.0 then -x else x
  }

  lemma QuantisedIsMonotone(a: real, b: real)
    requires a <= b
    ensures Quantised(a) <= Quantised(b)
  {
  }

  /** Writing back what readDouble gave for a register restores the register. */
  lemma ReadWriteRoundTrip(ref: ModbusRef, w: Word)
    requires ref.mapped && ref.table == HoldingRegister
    ensures Decoded(ref, Answer(w)) == Some(w as real)
    ensures Quantised(Decoded(ref, Answer(w)).value) == w
  {
  }

  // ----- the adapter -----

  datatype WriteReply = Acked | NotAcked(error: string)

  datatype Written = Written(target: ModbusRef, word: Word)

  class ModbusAdapter {
    const id: string
    const config: ModbusConfig
    var state: ConnectionState
    var lastError: string
    var bound: seq<GenericEquipment>
    var sessionOpen: bool
    var sessionError: string

    constructor (id: string, config: ModbusConfig)
      ensures Valid() && View() == AdapterView(id, "modbus", Disconnected, "", [])
      ensures this.config == config
    {
      this.id, this.config := id, config;
      state, lastError, bound := Disconnected, "", [];
      sessionOpen, sessionError := false, "";
    }

    ghost function View(): AdapterView
      reads this`state, this`lastError, this`bound, bound
    {
      AdapterView(id, "modbus", state, lastError, StatesOf(bound))
    }

    ghost predicate Valid()
      reads this`state, this`lastError, this`bound, this`sessionOpen
    {
      && OwnedOnce(bound)
      && (bound == [] || BoundAsMapped())
      && (state == Connected ==> BoundAsMapped() && sessionOpen && lastError == "")
      && (state == Disconnected ==> bound == [] && lastError == "")
    }

    ghost predicate BoundAsMapped()
      reads this`bound
    {
      |bound| == |config.equipment| && forall i :: 0 <= i < |bound| ==> bound[i].id == config.equipment[i].id
    }

    method Connect(accepted: bool, error: string) returns (ok: bool)
      requires Valid()
      modifies this
      ensures Valid() && fresh(set e | e in bound && e !in old(bound))
      ensures ok == ConnectOk(old(View()), ReplyOf(accepted))
      ensures View() == AfterConnect(old(View()), ReplyOf(accepted))
      ensures old(state) != Connected ==> (ok <==> config.host != "" && config.port != 0 && accepted)
    {
      if state == Connected {
        return true;
      }
      var failure := OpenSession(accepted, error);
      if failure.Some? {
        EnterFault(failure.value);
        return false;
      }
      BindEquipment();
      return true;
    }

    /** The session part of connect, which closes the old session before it opens. */
    method OpenSession(accepted: bool, error: string) returns (failure: Option<string>)
      modifies this`sessionOpen, this`sessionError
      ensures failure.None? <==> config.host != "" && config.port != 0 && accepted
      ensures failure.None? ==> sessionOpen
    {
      if config.host == "" || config.port == 0 {
        return Some("missing Modbus TCP host or port");
      }
      sessionOpen := accepted;
      sessionError := if accepted then "" else error;
      return if accepted then None else Some("Modbus TCP connect failed: " + sessionError);
    }

    method BindEquipment()
      modifies this`bound, this`state, this`lastError
      ensures state == Connected && lastError == ""
      ensures fresh(set e | e in bound) && OwnedOnce(bound) && BoundAsMapped()
      ensures StatesOf(bound) == FreshAll(MappedAll(SpecsOf(config.equipment)))
    {
      bound := BindAll(SpecsOf(config.equipment));
      forall i | 0 <= i < |bound|
        ensures bound[i].id == config.equipment[i].id
      {
        assert StatesOf(bound)[i].id == bound[i].id;
      }
      state, lastError := Connected, "";
    }

    ghost function ReplyOf(accepted: bool): ConnectReply
      reads this`lastError
    {
      if config.host != "" && config.port != 0 && accepted then Bind(MappedAll(SpecsOf(config.equipment)))
      else Refuse(lastError)
    }

    method EnterFault(reason: string)
      modifies this`state, this`lastError
      ensures state == Faulted && lastError == reason
    {
      state, lastError := Faulted, reason;
    }

    method Disconnect()
      requires Valid()
      modifies this
      ensures Valid() && View() == AfterDisconnect(old(View())) && !sessionOpen
    {
      bound := [];
      sessionOpen := false;
      state, lastError := Disconnected, "";
    }

    // ----- reading -----

    method ReadDouble(ref: ModbusRef, reply: WireReply) returns (ok: bool, value: real)
      modifies this`sessionError
      ensures ok <==> sessionOpen && Decoded(ref, reply).Some?
      ensures ok ==> value == Decoded(ref, reply).value
    {
      ok, value := false, 0.0;
      if !ref.mapped || !sessionOpen {
        return;
      }
      if reply.NoAnswer? {
        sessionError := reply.error;
        return;
      }
      match ref.table {
        case Coil => value := if reply.word != 0 then 1.0 else 0.0;
        case DiscreteInput => value := if reply.word != 0 then 1.0 else 0.0;
        case HoldingRegister => value := reply.word as real;
        case InputRegister => value := reply.word as real;
      }
      ok := true;
      sessionError := "";
    }

    method ReadBoolean(ref: ModbusRef, reply: WireReply) returns (ok: bool, value: bool)
      modifies this`sessionError
      ensures ok <==> sessionOpen && Decoded(ref, reply).Some?
      ensures ok ==> value == (Decoded(ref, reply).value != 0.0)
    {
      ok, value := false, false;
      if !ref.mapped || !sessionOpen {
        return;
      }
      if reply.NoAnswer? {
        sessionError := reply.error;
        return;
      }
      value := reply.word != 0;
      ok := true;
      sessionError := "";
    }

    /** Telemetry in mapping order, then the state, then the fault, up to the first
        read that fails; done is how many succeeded. */
    method RefreshFromServer(e: GenericEquipment, i: nat, wire: Wire) returns (ok: bool, ghost done: nat)
      requires i < |config.equipment| && sessionOpen
      modifies e, this`sessionError
      ensures ReadUpTo(old(e.View()), e.View(), Points(config.equipment[i]), i, ReadsOf(config.equipment, wire), done)
      ensures ok <==> done == |Points(config.equipment[i])|
      ensures !ok ==> ReadsOf(config.equipment, wire)(i, done).None?
    {
      var m := config.equipment[i];
      ghost var e0, points, got := e.View(), Points(m), ReadsOf(config.equipment, wire);
      PointsAt(config.equipment, wire, i);
      ok, done := RefreshTelemetry(e, m.telemetry, i, wire, points, got);
      var next := |m.telemetry|;
      if ok && m.stateCoil.mapped {
        ok := RefreshSignal(e, StateSignal, m.stateCoil, wire(i, next), e0, points, i, got, next);
        done, next := if ok then done + 1 else done, next + 1;
      }
      if ok && m.faultCoil.mapped {
        ok := RefreshSignal(e, FaultSignal, m.faultCoil, wire(i, next), e0, points, i, got, next);
        done := if ok then done + 1 else done;
      }
    }

    /** The state coil or the fault coil. */
    method RefreshSignal(e: GenericEquipment, p: Point, ref: ModbusRef, reply: WireReply, ghost e0: EquipmentState,
                         ghost points: seq<Point>, ghost i: nat, ghost got: Reads, ghost n: nat) returns (ok: bool)
      requires ReadUpTo(e0, e.View(), points, i, got, n) && n < |points| && sessionOpen
      requires points[n] == p && !p.Telemetry? && got(i, n) == Decoded(ref, reply)
      modifies e, this`sessionError
      ensures ReadUpTo(e0, e.View(), points, i, got, if ok then n + 1 else n)
      ensures ok <==> got(i, n).Some?
    {
      var value;
      ok, value := ReadBoolean(ref, reply);
      if ok {
        ReadOneMore(e0, e.View(), points, i, got, n, Decoded(ref, reply).value);
        match p
        case StateSignal => e.SetOperationalState(OperationalOf(value));
        case FaultSignal => e.SetFault(value);
        case Fetch =>
      }
    }

    method RefreshTelemetry(e: GenericEquipment, ts: seq<TelemetryMapping>, i: nat, wire: Wire,
                            ghost points: seq<Point>, ghost got: Reads)
      returns (ok: bool, ghost done: nat)
      requires sessionOpen && |ts| <= |points|
      requires forall q :: 0 <= q < |ts| ==> points[q] == Telemetry(ts[q].name, ts[q].unit)
      requires forall q: nat :: q < |ts| ==> got(i, q) == Decoded(ts[q].source, wire(i, q))
      modifies e, this`sessionError
      ensures ReadUpTo(old(e.View()), e.View(), points, i, got, done) && done <= |ts|
      ensures ok <==> done == |ts|
      ensures !ok ==> got(i, done).None?
    {
      done := 0;
      for q := 0 to |ts|
        invariant done == q && ReadUpTo(old(e.View()), e.View(), points, i, got, q)
      {
        var good, value := ReadDouble(ts[q].source, wire(i, q));
        assert got(i, q) == Decoded(ts[q].source, wire(i, q));
        if !good {
          return false, q;
        }
        Store(e, Telemetry(ts[q].name, ts[q].unit), value, old(e.View()), points, i, got, q);
        done := q + 1;
      }
      ok := true;
    }

    /** From Connected, the poll leaves the cut of the reading plan, and the adapter is
        Faulted exactly when the cut is before the end. In every state it is a poll of
        the contract. */
    method Poll(wire: Wire) returns (ghost i: nat, ghost j: nat)
      requires Valid()
      modifies this, bound
      ensures Valid() && bound == old(bound)
      ensures old(state) == Connected ==>
        && IsCut(PlanOf(config.equipment), ReadsOf(config.equipment, wire), i, j)
        && StatesOf(bound) ==
             AtCut(old(StatesOf(bound)), PlanOf(config.equipment), ReadsOf(config.equipment, wire), i, j)
        && (state == Faulted <==> i < |config.equipment|)
        && View() == AfterPoll(old(View()),
             CutReply(old(StatesOf(bound)), PlanOf(config.equipment), ReadsOf(config.equipment, wire), i, j, lastError))
      ensures old(state) != Connected ==> View() == AfterPoll(old(View()), PollReply([], None))
    {
      i, j := 0, 0;
      if state != Connected {
        if state == Faulted && lastError == "" {
          lastError := POLL_FAULT;
        }
        return;
      }
      ghost var before := StatesOf(bound);
      i, j := RefreshAll(wire);
      CutIsPoll(before, PlanOf(config.equipment), ReadsOf(config.equipment, wire), i, j, lastError);
    }

    method RefreshAll(wire: Wire) returns (ghost i: nat, ghost j: nat)
      requires Valid() && state == Connected
      modifies this`state, this`lastError, this`sessionError, bound
      ensures Valid() && state != Disconnected
      ensures IsCut(PlanOf(config.equipment), ReadsOf(config.equipment, wire), i, j)
      ensures StatesOf(bound) ==
        AtCut(old(StatesOf(bound)), PlanOf(config.equipment), ReadsOf(config.equipment, wire), i, j)
      ensures state == Faulted <==> i < |config.equipment|
      ensures state == Connected ==> lastError == ""
    {
      ghost var plan, got := PlanOf(config.equipment), ReadsOf(config.equipment, wire);
      ghost var es0 := StatesOf(bound);
      i, j := 0, 0;
      for k := 0 to |bound|
        invariant i == k && j == 0 && state == Connected && lastError == ""
        invariant RefreshedUpTo(es0, StatesOf(bound), plan, got, k)
      {
        ghost var es := StatesOf(bound);
        var ok;
        ok, j := RefreshFromServer(bound[k], k, wire);
        RefreshedOneMore(es0, es, StatesOf(bound), plan, got, k, j);
        if !ok {
          EnterFault("Modbus read failed during poll: " + sessionError);
          return;
        }
        i, j := k + 1, 0;
      }
      RefreshedAll(es0, StatesOf(bound), plan, got);
    }

    // ----- writing -----

    method WriteBoolean(ref: ModbusRef, value: bool, reply: WriteReply) returns (ok: bool, ghost sent: Option<Written>)
      requires Valid()
      modifies this`state, this`lastError, this`sessionError
      ensures ok <==> sessionOpen && ref.mapped && !IsReadOnly(ref.table) && reply.Acked?
      ensures ok ==> state == old(state) && lastError == old(lastError)
      ensures !ok ==> state == Faulted
      ensures sent == if sessionOpen && ref.mapped && !IsReadOnly(ref.table)
                      then Some(Written(ref, if value then 1 else 0)) else None
    {
      ok, sent := false, None;
      if !ref.mapped || !sessionOpen {
        EnterFault("Modbus write failed: invalid mapping or client");
        return;
      }
      if IsReadOnly(ref.table) {
        EnterFault("Modbus write failed: read-only table");
        return;
      }
      sent := Some(Written(ref, if value then 1 else 0));
      ok := Acknowledge(reply);
    }

    method WriteDouble(ref: ModbusRef, value: real, reply: WriteReply) returns (ok: bool, ghost sent: Option<Written>)
      requires Valid()
      modifies this`state, this`lastError, this`sessionError
      ensures ok <==> sessionOpen && ref.mapped && !IsReadOnly(ref.table) && reply.Acked?
      ensures ok ==> state == old(state) && lastError == old(lastError)
      ensures !ok ==> state == Faulted
      ensures sent == if sessionOpen && ref.mapped && !IsReadOnly(ref.table)
                      then Some(Written(ref, WordFor(ref.table, value))) else None
    {
      ok, sent := false, None;
      if !ref.mapped || !sessionOpen {
        EnterFault("Modbus write failed: invalid mapping or client");
        return;
      }
      if IsReadOnly(ref.table) {
        EnterFault("Modbus write failed: read-only table");
        return;
      }
      sent := Some(Written(ref, WordFor(ref.table, value)));
      ok := Acknowledge(reply);
    }

    method Acknowledge(reply: WriteReply) returns (ok: bool)
      modifies this`state, this`lastError, this`sessionError
      ensures ok <==> reply.Acked?
      ensures ok ==> state == old(state) && lastError == old(lastError)
      ensures !ok ==> state == Faulted
    {
      if reply.NotAcked? {
        sessionError := reply.error;
        EnterFault("Modbus write failed: " + sessionError);
        return false;
      }
      sessionError := "";
      return true;
    }

    /** A command reaches the wire only from Connected and only for the first mapping of
        its name; a write that fails faults the link and nothing else. */
    method Execute(i: nat, command: string, parameter: real, reply: WriteReply)
      returns (result: CommandResult, ghost sent: Option<Written>)
      requires Valid() && i < |bound|
      modifies this`state, this`lastError, this`sessionError
      ensures Valid()
      ensures View() == AfterCommand(old(View()), if state == old(state) then Ignored else WriteFailed(lastError))
      ensures old(state) != Connected ==> !result.accepted && sent == None
      ensures old(state) == Connected ==>
        var commands := config.equipment[i].commands;
        var c := CommandIndex(commands, command, 0);
        && sent == (if c.Some? && commands[c.value].target.mapped && commands[c.value].target.table in {Coil, HoldingRegister}
                    then Some(Written(commands[c.value].target,
                                      CommandWord(commands[c.value].target.table, command, parameter))) else None)
        && (result.accepted <==> sent.Some? && reply.Acked?)
        && (state == Faulted <==> c.Some? && !result.accepted)
        && (c.Some? ==> IsFirstOf(commands, command, c.value))
        && (c.None? ==> forall k :: 0 <= k < |commands| ==> commands[k].command != command)
    {
      sent := None;
      if state != Connected {
        return CommandResult(false, if state == Faulted then "communication fault" else "adapter not connected"), None;
      }
      var mapped := FindCommand(config.equipment[i].commands, command);
      if mapped.None? {
        return CommandResult(false, "unknown command"), None;
      }
      var target := config.equipment[i].commands[mapped.value].target;
      var ok;
      if IsSetCommand(command) {
        ok, sent := WriteDouble(target, parameter, reply);
      } else {
        ok, sent := WriteBoolean(target, true, reply);
      }
      if !ok {
        return CommandResult(false, "modbus write failed"), sent;
      }
      return CommandResult(true, "written"), sent;
    }

    static method FindCommand(commands: seq<CommandMapping>, command: string) returns (found: Option<nat>)
      ensures found == CommandIndex(commands, command, 0)
      ensures found.Some? ==> IsFirstOf(commands, command, found.value)
      ensures found.None? ==> forall k :: 0 <= k < |commands| ==> commands[k].command != command
    {
      for k := 0 to |commands|
        invariant CommandIndex(commands, command, 0) == CommandIndex(commands, command, k)
      {
        if commands[k].command == command {
          return Some(k);
        }
      }
      return None;
    }
  }

  /** A faulted adapter with something bound would rebind exactly the ids it exposes. */
  lemma ReconnectTakesOwnIds(a: ModbusAdapter)
    requires a.Valid() && a.state == Faulted && a.bound != []
    ensures IdsOf(FreshAll(MappedAll(SpecsOf(a.config.equipment)))) == ExposedIds(a.View())
  {
    BindAnewSameIds(StatesOf(a.bound), SpecsOf(a.config.equipment));
  }

  /** Through a poll, an item's machine fault is what its fault coil read if its whole
      refresh succeeded, and otherwise exactly what it was. */
  lemma PollChangesFaultOnlyByReading(ms: seq<EquipmentMapping>, es: seq<EquipmentState>, wire: Wire, i: nat, j: nat, p: nat)
    requires |es| == |ms| && p < |ms| && IsCut(PlanOf(ms), ReadsOf(ms, wire), i, j)
    ensures AtCut(es, PlanOf(ms), ReadsOf(ms, wire), i, j)[p].fault ==
      if p < i && ms[p].faultCoil.mapped
      then wire(p, ReadCount(ms[p]) - 1).Answer? && wire(p, ReadCount(ms[p]) - 1).word != 0
      else es[p].fault
  {
    var got, n := ReadsOf(ms, wire), |Points(ms[p])|;
    CountIsPoints(ms, wire);
    assert FaultComesLast(PlanOf(ms)[p]);
    CutFault(es, PlanOf(ms), got, i, j, p);
    if p < i && ms[p].faultCoil.mapped {
      assert Points(ms[p])[n - 1] == FaultSignal && Refs(ms[p])[n - 1] == ms[p].faultCoil;
      ReadAt(ms, wire, p, n - 1);
      assert got(p, n - 1).Some?;
    }
  }

  /** Through a poll, an item runs if its state coil lies within the cut and answered
      non-zero, is stopped if it answered zero, and otherwise is what it was. */
  lemma PollChangesStateOnlyByReading(ms: seq<EquipmentMapping>, es: seq<EquipmentState>, wire: Wire, i: nat, j: nat, p: nat)
    requires |es| == |ms| && p < |ms| && IsCut(PlanOf(ms), ReadsOf(ms, wire), i, j)
    ensures var n := |ms[p].telemetry|;
      AtCut(es, PlanOf(ms), ReadsOf(ms, wire), i, j)[p].operational ==
        if ms[p].stateCoil.mapped && (p < i || (p == i && n < j))
        then (if wire(p, n).Answer? && wire(p, n).word != 0 then Running else Stopped)
        else es[p].operational
  {
    var n := |ms[p].telemetry|;
    PointsAt(ms, wire, p);
    CutReadsWithin(es, PlanOf(ms), ReadsOf(ms, wire), i, j, p);
    CutState(es, PlanOf(ms), ReadsOf(ms, wire), i, j, p, if ms[p].stateCoil.mapped then n else |Points(ms[p])|);
  }

  /** A telemetry name shows what its last mapping within the cut answered: zero or one
      for a coil or discrete input, the word itself for a register. */
  lemma PollShowsTelemetry(ms: seq<EquipmentMapping>, es: seq<EquipmentState>, wire: Wire, i: nat, j: nat, p: nat, q: nat)
    requires |es| == |ms| && p < |ms| && IsCut(PlanOf(ms), ReadsOf(ms, wire), i, j)
    requires q < |ms[p].telemetry| && (p < i || (p == i && q < j))
    requires forall r :: q < r < |ms[p].telemetry| && (p < i || r < j) ==> ms[p].telemetry[r].name != ms[p].telemetry[q].name
    ensures
      var t, reply, e := ms[p].telemetry[q], wire(p, q), AtCut(es, PlanOf(ms), ReadsOf(ms, wire), i, j)[p];
      && reply.Answer? && t.name in e.telemetry
      && e.telemetry[t.name] == TelemetryPoint(t.name,
           if t.source.table == HoldingRegister || t.source.table == InputRegister then reply.word as real
           else if reply.word == 0 then 0.0 else 1.0, t.unit)
  {
    var plan, got := PlanOf(ms), ReadsOf(ms, wire);
    PointsAt(ms, wire, p);
    CutReadsWithin(es, plan, got, i, j, p);
    assert got(p, q).Some?;
    CutShowsLastRead(es, plan, got, i, j, p, q);
  }

  /** A name that no mapping within the cut has keeps its point, or stays without one. */
  lemma PollKeepsUnread(ms: seq<EquipmentMapping>, es: seq<EquipmentState>, wire: Wire, i: nat, j: nat, p: nat, name: string)
    requires |es| == |ms| && p < |ms| && IsCut(PlanOf(ms), ReadsOf(ms, wire), i, j)
    requires forall q :: 0 <= q < |ms[p].telemetry| && (p < i || (p == i && q < j)) ==> ms[p].telemetry[q].name != name
    ensures var t' := AtCut(es, PlanOf(ms), ReadsOf(ms, wire), i, j)[p].telemetry;
      if name in es[p].telemetry then name in t' && t'[name] == es[p].telemetry[name] else name !in t'
  {
    PointsAt(ms, wire, p);
    CutKeepsUnread(es, PlanOf(ms), ReadsOf(ms, wire), i, j, p, name);
  }

  /** How many reads an item takes: its telemetry, and each coil that is mapped. */
  function ReadCount(m: EquipmentMapping): nat {
    |m.telemetry| + (if m.stateCoil.mapped then 1 else 0) + (if m.faultCoil.mapped then 1 else 0)
  }

  /** Read j of the item gets no answer, or is for a telemetry reference that is not mapped. */
  predicate ReadFails(m: EquipmentMapping, j: nat, reply: WireReply) {
    reply.NoAnswer? || (j < |m.telemetry| && !m.telemetry[j].source.mapped)
  }

  /** A poll ends at the first read that fails, and reads everything if none does. */
  lemma PollEndsAtFirstFailure(ms: seq<EquipmentMapping>, wire: Wire, i: nat, j: nat)
    requires IsCut(PlanOf(ms), ReadsOf(ms, wire), i, j)
    ensures i <= |ms| && (i < |ms| ==> j < ReadCount(ms[i]) && ReadFails(ms[i], j, wire(i, j)))
    ensures forall p: nat, q: nat :: (p < i && q < ReadCount(ms[p])) || (p == i < |ms| && q < j) ==>
      !ReadFails(ms[p], q, wire(p, q))
  {
    forall p: nat, q: nat | p < |ms| && q < ReadCount(ms[p])
      ensures ReadsOf(ms, wire)(p, q).None? <==> ReadFails(ms[p], q, wire(p, q))
      ensures ReadCount(ms[p]) == |Points(ms[p])|
    {
      PointsAt(ms, wire, p);
      ReadAt(ms, wire, p, q);
    }
    CountIsPoints(ms, wire);
  }

  lemma CountIsPoints(ms: seq<EquipmentMapping>, wire: Wire)
    ensures forall p :: 0 <= p < |ms| ==> |PlanOf(ms)[p]| == ReadCount(ms[p])
  {
    forall p | 0 <= p < |ms|
      ensures |PlanOf(ms)[p]| == ReadCount(ms[p])
    {
      PointsAt(ms, wire, p);
    }
  }

  predicate IsReadOnly(table: ModbusTable) {
    table.DiscreteInput? || table.InputRegister?
  }

  /** The word a command writes: a plain command one; a set command the truth of its
      parameter into a coil, and into a register the clipped parameter to within one
      half, halves up. */
  lemma CommandWordMeans(table: ModbusTable, command: string, parameter: real)
    ensures var word := CommandWord(table, command, parameter);
      && (!IsSetCommand(command) ==> word == 1)
      && (IsSetCommand(command) && table == Coil ==> (parameter == 0.0 ==> word == 0) && (parameter != 0.0 ==> word == 1))
      && (IsSetCommand(command) && table == HoldingRegister ==>
            && (parameter <= 0.0 ==> word == 0) && (parameter >= 65535.0 ==> word == 65535)
            && (0.0 <= parameter <= 65535.0 ==> -0.5 < word as real - parameter <= 0.5))
  {
  }

  function WordFor(table: ModbusTable, value: real): Word {
    if table.Coil? then (if value != 0.0 then 1 else 0) else Quantised(value)
  }

  function CommandWord(table: ModbusTable, command: string, parameter: real): Word {
    if IsSetCommand(command) then WordFor(table, parameter) else 1
  }

  /** The mapping is the first one of this very command. */
  ghost predicate IsFirstOf(commands: seq<CommandMapping>, command: string, k: nat) {
    k < |commands| && commands[k].command == command && forall l :: 0 <= l < k ==> commands[l].command != command
  }

  /** The first mapping of a command at or after k. */
  function CommandIndex(commands: seq<CommandMapping>, command: string, k: nat): (c: Option<nat>)
    requires k <= |commands|
    ensures c.Some? ==> k <= c.value < |commands| && commands[c.value].command == command
    ensures forall l :: k <= l < |commands| && (c.Some? ==> l < c.value) ==> commands[l].command != command
    decreases |commands| - k
  {
    if k == |commands| then None
    else if commands[k].command == command then Some(k)
    else CommandIndex(commands, command, k + 1)
  }
}
