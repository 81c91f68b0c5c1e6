/** industrial/src/RestIndustrialAdapter.cc: one GET per item and poll, JSON pointers into
    the answer, and the error text that tells a recorded fault from an unrecorded one. */
module RestAdapters {
  import opened AdapterContract
  import opened Domain
  import opened GenericEquipments
  import opened PollCut
  import opened TextReplace

  datatype HttpMethod = Get | Post | Put | Patch

  predicate IsWriteMethod(m: HttpMethod) {
    m.Post? || m.Put? || m.Patch?
  }

  datatype CommandMapping = CommandMapping(command: string, method_: HttpMethod, path: string, bodyTemplate: string)

  datatype TelemetryMapping = TelemetryMapping(name: string, jsonPointer: string, unit: string)

  datatype EquipmentMapping = EquipmentMapping(
    id: string, typ: string, capabilities: seq<string>, commands: seq<CommandMapping>,
    telemetryPath: string, telemetry: seq<TelemetryMapping>, statePointer: string, faultPointer: string)

  datatype RestConfig = RestConfig(scheme: string, host: string, port: nat, healthPath: string,
                                   equipment: seq<EquipmentMapping>)

  datatype HttpReply = Failure(error: string) | Success(body: string)

  /** The JSON library, as functions of document text and pointer: whether a text is a
      document, and the number or flag a non-empty pointer finds in it. */
  datatype Json = Json(
    parses: string -> bool,
    number: (string, string) -> Option<real>,
    flag: (string, string) -> Option<bool>)

  /** What the gateway answers to the request of item i during one poll. */
  type Gateway = nat -> HttpReply

  // ----- the reading plan of a mapping -----

  predicate MapsNothing(m: EquipmentMapping) {
    m.telemetry == [] && m.statePointer == "" && m.faultPointer == ""
  }

  function TelemetryPoints(ts: seq<TelemetryMapping>): (ps: seq<Point>)
    ensures |ps| == |ts| && forall i :: 0 <= i < |ps| ==> ps[i] == Telemetry(ts[i].name, ts[i].unit)
  {
    seq(|ts|, i requires 0 <= i < |ts| => Telemetry(ts[i].name, ts[i].unit))
  }

  function Points(m: EquipmentMapping): seq<Point> {
    if m.telemetryPath == "" then (if MapsNothing(m) then [] else [Fetch])
    else
      [Fetch] + TelemetryPoints(m.telemetry)
      + (if m.statePointer != "" then [StateSignal] else [])
      + (if m.faultPointer != "" then [FaultSignal] else [])
  }

  function PlanOf(ms: seq<EquipmentMapping>): (plan: Plan)
    ensures |plan| == |ms| && forall i :: 0 <= i < |plan| ==> plan[i] == Points(ms[i])
  {
    seq(|ms|, i requires 0 <= i < |ms| => Points(ms[i]))
  }

  function Number(json: Json, doc: string, pointer: string): Option<real> {
    if pointer == "" then None else json.number(doc, pointer)
  }

  function Flag(json: Json, doc: string, pointer: string): Option<real> {
    if pointer == "" then None else
      match json.flag(doc, pointer)
      case None => None
      case Some(b) => Some(if b then 1.0 else 0.0)
  }

  /** The outcome of point j of a mapping, given the answer to its request. */
  function ReadPoint(m: EquipmentMapping, json: Json, reply: HttpReply, j: nat): Option<real>
    requires j < |Points(m)|
  {
    if m.telemetryPath == "" || reply.Failure? || !json.parses(reply.body) then None
    else if j == 0 then Some(0.0)
    else if j <= |m.telemetry| then Number(json, reply.body, m.telemetry[j - 1].jsonPointer)
    else if Points(m)[j].StateSignal? then Flag(json, reply.body, m.statePointer)
    else Flag(json, reply.body, m.faultPointer)
  }

  function ReadsOf(ms: seq<EquipmentMapping>, json: Json, gateway: Gateway): Reads {
    (i: nat, j: nat) =>
      if i < |ms| && j < |Points(ms[i])| then ReadPoint(ms[i], json, gateway(i), j) else None
  }

  lemma ReadAt(ms: seq<EquipmentMapping>, json: Json, gateway: Gateway, i: nat, j: nat)
    requires i < |ms| && j < |Points(ms[i])|
    ensures ReadsOf(ms, json, gateway)(i, j) == ReadPoint(ms[i], json, gateway(i), j)
  {
  }

  /** The document of item i was fetched and parsed. */
  predicate Fetched(ms: seq<EquipmentMapping>, json: Json, gateway: Gateway, i: nat) {
    i < |ms| && ms[i].telemetryPath != "" && gateway(i).Success? && json.parses(gateway(i).body)
  }

  /** Which outcome each point of a fetched document has. */
  lemma ItemsAt(ms: seq<EquipmentMapping>, json: Json, gateway: Gateway, i: nat)
    requires Fetched(ms, json, gateway, i)
    ensures var m := ms[i];
      var ps, doc, got, n := Points(m), gateway(i).body, ReadsOf(ms, json, gateway), |m.telemetry|;
      && |ps| == 1 + n + (if m.statePointer != "" then 1 else 0) + (if m.faultPointer != "" then 1 else 0)
      && (forall q :: 1 <= q <= n ==> ps[q] == Telemetry(m.telemetry[q - 1].name, m.telemetry[q - 1].unit))
      && (forall q: nat :: 1 <= q <= n ==> got(i, q) == Number(json, doc, m.telemetry[q - 1].jsonPointer))
      && (m.statePointer != "" ==> ps[n + 1] == StateSignal && got(i, n + 1) == Flag(json, doc, m.statePointer))
      && (m.faultPointer != "" ==> ps[|ps| - 1] == FaultSignal && got(i, |ps| - 1) == Flag(json, doc, m.faultPointer))
  {
  }

  function SpecOf(m: EquipmentMapping): BindSpec {
    BindSpec(m.id, m.typ, m.capabilities,
             seq(|m.commands|, i requires 0 <= i < |m.commands| => m.commands[i].command))
  }

  function SpecsOf(ms: seq<EquipmentMapping>): (ss: seq<BindSpec>)
    ensures |ss| == |ms| && forall i :: 0 <= i < |ss| ==> ss[i] == SpecOf(ms[i])
  {
    seq(|ms|, i requires 0 <= i < |ms| => SpecOf(ms[i]))
  }

  /** What a connect binds for mapping k: its id and type, stopped, without fault or
      telemetry, able to do what it lists and each command it maps. */
  lemma BindsAsMapped(ms: seq<EquipmentMapping>, k: nat)
    requires k < |ms|
    ensures var e := FreshAll(MappedAll(SpecsOf(ms)))[k];
      && e.id == ms[k].id && e.typ == ms[k].typ && e.operational == Stopped && !e.fault && e.telemetry == map[]
      && Distinct(e.capabilities)
      && forall c :: c in e.capabilities <==>
           c in ms[k].capabilities || exists l :: 0 <= l < |ms[k].commands| && ms[k].commands[l].command == c
  {
    var names := SpecOf(ms[k]).commands;
    MappedCapabilities(SpecOf(ms[k]));
    assert forall l :: 0 <= l < |names| ==> names[l] == ms[k].commands[l].command;
  }

  /** The mapping is the first one of this very command. */
  ghost predicate IsFirstOf(commands: seq<CommandMapping>, command: string, k: nat) {
    k < |commands| && commands[k].command == command && forall l :: 0 <= l < k ==> commands[l].command != command
  }

  /** The first mapping of a command at or after k. */
  function CommandIndex(commands: seq<CommandMapping>, command: string, k: nat): (c: Option<nat>)
    requires k <= |commands|
    ensures c.Some? ==> k <= c.value < |commands| && commands[c.value].command == command
    ensures forall l :: k <= l < |commands| && (c.Some? ==> l < c.value) ==> commands[l].command != command
    decreases |commands| - k
  {
    if k == |commands| then None
    else if commands[k].command == command then Some(k)
    else CommandIndex(commands, command, k + 1)
  }

  datatype Request = Request(method_: HttpMethod, path: string, body: string)

  // ----- the adapter -----

  class RestAdapter {
    const id: string
    const config: RestConfig
    var state: ConnectionState
    var lastError: string
    var bound: seq<GenericEquipment>
    var sessionError: string

    constructor (id: string, config: RestConfig)
      ensures Valid() && View() == AdapterView(id, "rest", Disconnected, "", [])
      ensures this.config == config
    {
      this.id, this.config := id, config;
      state, lastError, bound, sessionError := Disconnected, "", [], "";
    }

    ghost function View(): AdapterView
      reads this`state, this`lastError, this`bound, bound
    {
      AdapterView(id, "rest", state, lastError, StatesOf(bound))
    }

    /** Connected implies an empty error text: what the guarded fault in Poll rests on. */
    ghost predicate Valid()
      reads this`state, this`lastError, this`bound
    {
      && OwnedOnce(bound) && (bound == [] || BoundAsMapped())
      && (state == Connected ==> lastError == "" && BoundAsMapped())
      && (state == Disconnected ==> bound == [] && lastError == "")
    }

    ghost predicate BoundAsMapped()
      reads this`bound
    {
      |bound| == |config.equipment| && forall i :: 0 <= i < |bound| ==> bound[i].id == config.equipment[i].id
    }

    method EnterFault(reason: string)
      modifies this`state, this`lastError
      ensures state == Faulted && lastError == reason
    {
      state, lastError := Faulted, reason;
    }

    /** The reply stands for the health request, or for the bare connection probe when
        no health path is configured. */
    method Connect(reply: HttpReply) returns (ok: bool)
      requires Valid()
      modifies this
      ensures Valid() && fresh(set e | e in bound && e !in old(bound))
      ensures ok == ConnectOk(old(View()), ReplyOf(reply))
      ensures View() == AfterConnect(old(View()), ReplyOf(reply))
      ensures old(state) != Connected ==>
        (ok <==> config.host != "" && config.port != 0 && config.scheme != "" && reply.Success?)
    {
      if state == Connected {
        return true;
      }
      ok := Probe(reply);
      if ok {
        BindEquipment();
      }
    }

    /** Whether the origin answers; if not, the adapter is Faulted. */
    method Probe(reply: HttpReply) returns (ok: bool)
      modifies this`state, this`lastError, this`sessionError
      ensures ok <==> config.host != "" && config.port != 0 && config.scheme != "" && reply.Success?
      ensures !ok ==> state == Faulted
    {
      if config.host == "" || config.port == 0 || config.scheme == "" {
        EnterFault("missing REST origin scheme, host, or port");
        return false;
      }
      if config.healthPath != "" {
        var got, _ := PerformMappedGet(config.healthPath, reply);
        return got;
      }
      if reply.Failure? {
        sessionError := reply.error;
        EnterFault("REST origin connect failed: " + sessionError);
        return false;
      }
      return true;
    }

    method BindEquipment()
      modifies this`bound, this`state, this`lastError
      ensures state == Connected && lastError == ""
      ensures fresh(set e | e in bound) && OwnedOnce(bound) && BoundAsMapped()
      ensures StatesOf(bound) == FreshAll(MappedAll(SpecsOf(config.equipment)))
    {
      bound := BindAll(SpecsOf(config.equipment));
      forall i | 0 <= i < |bound|
        ensures bound[i].id == config.equipment[i].id
      {
        assert StatesOf(bound)[i].id == bound[i].id;
      }
      state, lastError := Connected, "";
    }

    ghost function ReplyOf(reply: HttpReply): ConnectReply
      reads this`lastError
    {
      if config.host != "" && config.port != 0 && config.scheme != "" && reply.Success?
      then Bind(MappedAll(SpecsOf(config.equipment))) else Refuse(lastError)
    }

    method Disconnect()
      requires Valid()
      modifies this
      ensures Valid() && View() == AfterDisconnect(old(View()))
    {
      bound := [];
      state, lastError := Disconnected, "";
    }

    method PerformMappedGet(path: string, reply: HttpReply) returns (ok: bool, body: string)
      modifies this`state, this`lastError, this`sessionError
      ensures ok <==> path != "" && reply.Success?
      ensures ok ==> body == reply.body && state == old(state) && lastError == old(lastError)
      ensures !ok ==> state == Faulted
    {
      if path == "" {
        EnterFault("REST GET failed: empty path");
        return false, "";
      }
      if reply.Failure? {
        sessionError := reply.error;
        EnterFault(reply.error);
        return false, "";
      }
      return true, reply.body;
    }

    /** A refresh that fails has faulted the adapter, or else left it untouched. */
    method RefreshFromServer(e: GenericEquipment, i: nat, json: Json, gateway: Gateway)
      returns (ok: bool, ghost done: nat)
      requires i < |config.equipment| && state == Connected && lastError == ""
      modifies e, this`state, this`lastError, this`sessionError
      ensures ReadUpTo(old(e.View()), e.View(), Points(config.equipment[i]), i, ReadsOf(config.equipment, json, gateway), done)
      ensures ok <==> done == |Points(config.equipment[i])|
      ensures !ok ==> ReadsOf(config.equipment, json, gateway)(i, done).None?
      ensures ok ==> state == Connected && lastError == ""
      ensures !ok ==> state == Faulted || lastError == ""
    {
      var m := config.equipment[i];
      ghost var e0, got := e.View(), ReadsOf(config.equipment, json, gateway);
      if m.telemetryPath == "" {
        if !MapsNothing(m) {
          ReadAt(config.equipment, json, gateway, i, 0);
        }
        return MapsNothing(m), 0;
      }
      ReadAt(config.equipment, json, gateway, i, 0);
      ok := FetchDocument(m.telemetryPath, gateway(i), json);
      if !ok {
        return false, 0;
      }
      ReadOneMore(e0, e.View(), Points(m), i, got, 0, 0.0);
      ok, done := RefreshItems(e, i, json, gateway, e0);
    }

    /** The request and the parse; either failure faults the adapter. */
    method FetchDocument(path: string, reply: HttpReply, json: Json) returns (ok: bool)
      requires path != ""
      modifies this`state, this`lastError, this`sessionError
      ensures ok <==> reply.Success? && json.parses(reply.body)
      ensures ok ==> state == old(state) && lastError == old(lastError)
      ensures !ok ==> state == Faulted
    {
      var body;
      ok, body := PerformMappedGet(path, reply);
      if ok && !json.parses(body) {
        EnterFault("invalid JSON in telemetry response");
        return false;
      }
    }

    /** The items of a fetched document: telemetry, then the state, then the fault. */
    method RefreshItems(e: GenericEquipment, i: nat, json: Json, gateway: Gateway, ghost e0: EquipmentState)
      returns (ok: bool, ghost done: nat)
      requires Fetched(config.equipment, json, gateway, i)
      requires ReadUpTo(e0, e.View(), Points(config.equipment[i]), i, ReadsOf(config.equipment, json, gateway), 1)
      modifies e, this`state, this`lastError
      ensures ReadUpTo(e0, e.View(), Points(config.equipment[i]), i, ReadsOf(config.equipment, json, gateway), done)
      ensures ok <==> done == |Points(config.equipment[i])|
      ensures !ok ==> state == Faulted && ReadsOf(config.equipment, json, gateway)(i, done).None?
      ensures ok ==> state == old(state) && lastError == old(lastError)
    {
      var m := config.equipment[i];
      var doc := gateway(i).body;
      ghost var points, got := Points(m), ReadsOf(config.equipment, json, gateway);
      ItemsAt(config.equipment, json, gateway, i);
      ok, done := RefreshTelemetry(e, m.telemetry, json, doc, e0, points, i, got);
      if ok && m.statePointer != "" {
        ok := RefreshSignal(e, StateSignal, Flag(json, doc, m.statePointer), e0, points, i, got, done);
        done := if ok then done + 1 else done;
      }
      if ok && m.faultPointer != "" {
        ok := RefreshSignal(e, FaultSignal, Flag(json, doc, m.faultPointer), e0, points, i, got, done);
        done := if ok then done + 1 else done;
      }
    }

    method RefreshTelemetry(e: GenericEquipment, ts: seq<TelemetryMapping>, json: Json, doc: string,
                            ghost e0: EquipmentState, ghost points: seq<Point>, ghost i: nat, ghost got: Reads)
      returns (ok: bool, ghost done: nat)
      requires ReadUpTo(e0, e.View(), points, i, got, 1) && 1 + |ts| <= |points|
      requires forall q :: 1 <= q <= |ts| ==> points[q] == Telemetry(ts[q - 1].name, ts[q - 1].unit)
      requires forall q: nat :: 1 <= q <= |ts| ==> got(i, q) == Number(json, doc, ts[q - 1].jsonPointer)
      modifies e, this`state, this`lastError
      ensures ReadUpTo(e0, e.View(), points, i, got, done) && 1 <= done <= 1 + |ts|
      ensures ok <==> done == 1 + |ts|
      ensures !ok ==> state == Faulted && got(i, done).None?
      ensures ok ==> state == old(state) && lastError == old(lastError)
    {
      done := 1;
      for q := 0 to |ts|
        invariant done == q + 1 && ReadUpTo(e0, e.View(), points, i, got, done)
        invariant state == old(state) && lastError == old(lastError)
      {
        var value := Number(json, doc, ts[q].jsonPointer);
        assert got(i, q + 1) == value;
        if value.None? {
          EnterFault("missing or invalid telemetry pointer " + ts[q].jsonPointer);
          return false, done;
        }
        Store(e, Telemetry(ts[q].name, ts[q].unit), value.value, e0, points, i, got, done);
        done := done + 1;
      }
      ok := true;
    }

    method RefreshSignal(e: GenericEquipment, p: Point, value: Option<real>, ghost e0: EquipmentState,
                         ghost points: seq<Point>, ghost i: nat, ghost got: Reads, ghost n: nat)
      returns (ok: bool)
      requires ReadUpTo(e0, e.View(), points, i, got, n) && n < |points|
      requires points[n] == p && got(i, n) == value
      modifies e, this`state, this`lastError
      ensures ReadUpTo(e0, e.View(), points, i, got, if ok then n + 1 else n)
      ensures ok <==> value.Some?
      ensures !ok ==> state == Faulted
      ensures ok ==> state == old(state) && lastError == old(lastError)
    {
      if value.None? {
        EnterFault(if p == StateSignal then "missing or invalid state pointer" else "missing or invalid fault pointer");
        return false;
      }
      Store(e, p, value.value, e0, points, i, got, n);
      return true;
    }

    /** From Connected, the poll leaves the cut of the reading plan, and the adapter is
        Connected afterwards exactly when every refresh succeeded: the guarded fault
        never swallows a failure. */
    method Poll(json: Json, gateway: Gateway) returns (ghost i: nat, ghost j: nat)
      requires Valid()
      modifies this, bound
      ensures Valid() && bound == old(bound)
      ensures old(state) == Connected ==>
        && IsCut(PlanOf(config.equipment), ReadsOf(config.equipment, json, gateway), i, j)
        && StatesOf(bound) ==
             AtCut(old(StatesOf(bound)), PlanOf(config.equipment), ReadsOf(config.equipment, json, gateway), i, j)
        && (state == Connected <==> i == |config.equipment|)
        && View() == AfterPoll(old(View()),
             CutReply(old(StatesOf(bound)), PlanOf(config.equipment), ReadsOf(config.equipment, json, gateway), i, j, lastError))
      ensures old(state) != Connected ==> View() == AfterPoll(old(View()), PollReply([], None))
    {
      i, j := 0, 0;
      if state != Connected {
        if state == Faulted && lastError == "" {
          lastError := POLL_FAULT;
        }
        return;
      }
      ghost var before := StatesOf(bound);
      i, j := RefreshAll(json, gateway);
      CutIsPoll(before, PlanOf(config.equipment), ReadsOf(config.equipment, json, gateway), i, j, lastError);
    }

    method RefreshAll(json: Json, gateway: Gateway) returns (ghost i: nat, ghost j: nat)
      requires Valid() && state == Connected
      modifies this`state, this`lastError, this`sessionError, bound
      ensures Valid() && state != Disconnected
      ensures IsCut(PlanOf(config.equipment), ReadsOf(config.equipment, json, gateway), i, j)
      ensures StatesOf(bound) ==
        AtCut(old(StatesOf(bound)), PlanOf(config.equipment), ReadsOf(config.equipment, json, gateway), i, j)
      ensures state == Faulted <==> i < |config.equipment|
      ensures state == Connected ==> lastError == ""
    {
      ghost var plan, got := PlanOf(config.equipment), ReadsOf(config.equipment, json, gateway);
      ghost var es0 := StatesOf(bound);
      i, j := 0, 0;
      for k := 0 to |bound|
        invariant i == k && j == 0 && state == Connected && lastError == ""
        invariant RefreshedUpTo(es0, StatesOf(bound), plan, got, k)
      {
        ghost var es := StatesOf(bound);
        var ok;
        ok, j := RefreshFromServer(bound[k], k, json, gateway);
        RefreshedOneMore(es0, es, StatesOf(bound), plan, got, k, j);
        if !ok {
          if lastError == "" {
            EnterFault("REST read failed during poll: " + sessionError);
          }
          return;
        }
        i, j := k + 1, 0;
      }
      RefreshedAll(es0, StatesOf(bound), plan, got);
    }

    /** A command is sent from Connected only, as the first mapping of its name says,
        with the number text in place of every token. */
    method Execute(i: nat, command: string, numberText: string, reply: HttpReply)
      returns (result: CommandResult, ghost sent: Option<Request>)
      requires Valid() && i < |bound|
      modifies this`state, this`lastError, this`sessionError
      ensures Valid()
      ensures View() == AfterCommand(old(View()), if state == old(state) then Ignored else WriteFailed(lastError))
      ensures old(state) != Connected ==> !result.accepted && sent == None
      ensures old(state) == Connected ==>
        var commands := config.equipment[i].commands;
        var c := CommandIndex(commands, command, 0);
        && sent == (if c.Some? && commands[c.value].method_ in {Post, Put, Patch} && commands[c.value].path != ""
                    then Some(Request(commands[c.value].method_, commands[c.value].path,
                                      Replaced(commands[c.value].bodyTemplate, 0, VALUE_TOKEN, numberText))) else None)
        && (result.accepted <==> sent.Some? && reply.Success?)
        && (state == Faulted <==> c.Some? && commands[c.value].method_ in {Post, Put, Patch} && !result.accepted)
        && (c.Some? ==> IsFirstOf(commands, command, c.value))
        && (c.None? ==> forall k :: 0 <= k < |commands| ==> commands[k].command != command)
    {
      sent := None;
      if state != Connected {
        return CommandResult(false, if state == Faulted then "communication fault" else "adapter not connected"), None;
      }
      var mapped := FindCommand(config.equipment[i].commands, command);
      if mapped.None? {
        return CommandResult(false, "unknown command"), None;
      }
      var m := config.equipment[i].commands[mapped.value];
      if !IsWriteMethod(m.method_) {
        return CommandResult(false, "command mapping must be POST, PUT, or PATCH"), None;
      }
      var body := ReplaceAll(m.bodyTemplate, VALUE_TOKEN, numberText);
      var ok;
      ok, sent := PerformMappedWrite(m.method_, m.path, body, reply);
      result := if ok then CommandResult(true, "written") else CommandResult(false, "http write failed");
    }

    method PerformMappedWrite(verb: HttpMethod, path: string, body: string, reply: HttpReply)
      returns (ok: bool, ghost sent: Option<Request>)
      modifies this`state, this`lastError, this`sessionError
      ensures sent == if verb in {Post, Put, Patch} && path != "" then Some(Request(verb, path, body)) else None
      ensures ok <==> sent.Some? && reply.Success?
      ensures ok ==> state == old(state) && lastError == old(lastError)
      ensures !ok ==> state == Faulted
    {
      if !IsWriteMethod(verb) || path == "" {
        EnterFault("REST write failed: invalid method or path");
        return false, None;
      }
      sent := Some(Request(verb, path, body));
      if reply.Failure? {
        sessionError := reply.error;
        EnterFault(reply.error);
        return false, sent;
      }
      return true, sent;
    }

    static method FindCommand(commands: seq<CommandMapping>, command: string) returns (found: Option<nat>)
      ensures found == CommandIndex(commands, command, 0)
      ensures found.Some? ==> IsFirstOf(commands, command, found.value)
      ensures found.None? ==> forall k :: 0 <= k < |commands| ==> commands[k].command != command
    {
      for k := 0 to |commands|
        invariant CommandIndex(commands, command, 0) == CommandIndex(commands, command, k)
      {
        if commands[k].command == command {
          return Some(k);
        }
      }
      return None;
    }
  }

  /** A faulted adapter with something bound would rebind exactly the ids it exposes. */
  lemma ReconnectTakesOwnIds(a: RestAdapter)
    requires a.Valid() && a.state == Faulted && a.bound != []
    ensures IdsOf(FreshAll(MappedAll(SpecsOf(a.config.equipment)))) == ExposedIds(a.View())
  {
    BindAnewSameIds(StatesOf(a.bound), SpecsOf(a.config.equipment));
  }

  /** Through a poll, an item's machine fault is what its fault pointer read if its
      whole refresh succeeded, and otherwise exactly what it was. */
  lemma PollChangesFaultOnlyByReading(ms: seq<EquipmentMapping>, es: seq<EquipmentState>, json: Json, gateway: Gateway,
                                      i: nat, j: nat, p: nat)
    requires |es| == |ms| && p < |ms| && IsCut(PlanOf(ms), ReadsOf(ms, json, gateway), i, j)
    ensures AtCut(es, PlanOf(ms), ReadsOf(ms, json, gateway), i, j)[p].fault ==
      if p < i && ms[p].telemetryPath != "" && ms[p].faultPointer != ""
      then gateway(p).Success? && json.flag(gateway(p).body, ms[p].faultPointer) == Some(true)
      else es[p].fault
  {
    FaultPointAt(ms[p]);
    CutFault(es, PlanOf(ms), ReadsOf(ms, json, gateway), i, j, p);
    if p < i && ms[p].telemetryPath != "" && ms[p].faultPointer != "" {
      FaultRead(ms, json, gateway, i, j, p);
    }
  }

  /** The fault point, if there is one, is the last. */
  lemma FaultPointAt(m: EquipmentMapping)
    ensures FaultComesLast(Points(m))
    ensures Points(m) != [] && Points(m)[|Points(m)| - 1].FaultSignal? <==> m.telemetryPath != "" && m.faultPointer != ""
  {
  }

  lemma FaultRead(ms: seq<EquipmentMapping>, json: Json, gateway: Gateway, i: nat, j: nat, p: nat)
    requires p < i <= |ms| && IsCut(PlanOf(ms), ReadsOf(ms, json, gateway), i, j)
    requires ms[p].telemetryPath != "" && ms[p].faultPointer != ""
    ensures var got, n := ReadsOf(ms, json, gateway), |Points(ms[p])|;
      && n > 0 && got(p, n - 1).Some? && gateway(p).Success?
      && (got(p, n - 1).value != 0.0 <==> json.flag(gateway(p).body, ms[p].faultPointer) == Some(true))
  {
    FaultPointAt(ms[p]);
    ReadIsFetched(ms, json, gateway, i, j, p, |Points(ms[p])| - 1);
    ItemsAt(ms, json, gateway, p);
  }

  /** The document of an item was fetched if any of its points after the first was read. */
  lemma ReadIsFetched(ms: seq<EquipmentMapping>, json: Json, gateway: Gateway, i: nat, j: nat, p: nat, q: nat)
    requires p < |ms| && IsCut(PlanOf(ms), ReadsOf(ms, json, gateway), i, j)
    requires ms[p].telemetryPath != "" && q < Within(PlanOf(ms), i, j, p)
    ensures Fetched(ms, json, gateway, p) && q < |Points(ms[p])| && ReadsOf(ms, json, gateway)(p, q).Some?
  {
    ReadAt(ms, json, gateway, p, q);
    assert ReadsOf(ms, json, gateway)(p, q).Some?;
  }

  lemma StatePointAt(m: EquipmentMapping)
    ensures forall r :: 0 <= r < |Points(m)| ==>
      (Points(m)[r].StateSignal? <==> m.telemetryPath != "" && m.statePointer != "" && r == |m.telemetry| + 1)
    ensures m.telemetryPath != "" && m.statePointer != "" ==> |m.telemetry| + 1 < |Points(m)|
  {
  }

  /** Through a poll, an item runs if its state pointer lies within the cut and found
      true, is stopped if it found false, and otherwise is what it was. */
  lemma PollChangesStateOnlyByReading(ms: seq<EquipmentMapping>, es: seq<EquipmentState>, json: Json, gateway: Gateway,
                                      i: nat, j: nat, p: nat)
    requires |es| == |ms| && p < |ms| && IsCut(PlanOf(ms), ReadsOf(ms, json, gateway), i, j)
    ensures AtCut(es, PlanOf(ms), ReadsOf(ms, json, gateway), i, j)[p].operational ==
      if ms[p].telemetryPath != "" && ms[p].statePointer != "" && (p < i || (p == i && |ms[p].telemetry| + 1 < j))
      then (if gateway(p).Success? && json.flag(gateway(p).body, ms[p].statePointer) == Some(true) then Running else Stopped)
      else es[p].operational
  {
    var m, n := ms[p], |ms[p].telemetry| + 1;
    StatePointAt(m);
    var q := if m.telemetryPath != "" && m.statePointer != "" then n else |Points(m)|;
    CutReadsWithin(es, PlanOf(ms), ReadsOf(ms, json, gateway), i, j, p);
    CutState(es, PlanOf(ms), ReadsOf(ms, json, gateway), i, j, p, q);
    if q < Within(PlanOf(ms), i, j, p) {
      ReadIsFetched(ms, json, gateway, i, j, p, q);
      ItemsAt(ms, json, gateway, p);
    }
  }

  lemma TelemetryPointAt(m: EquipmentMapping)
    requires m.telemetryPath != ""
    ensures 1 + |m.telemetry| <= |Points(m)|
    ensures forall q :: 1 <= q <= |m.telemetry| ==> Points(m)[q] == Telemetry(m.telemetry[q - 1].name, m.telemetry[q - 1].unit)
    ensures forall q :: |m.telemetry| < q < |Points(m)| ==> !Points(m)[q].Telemetry?
  {
  }

  /** Mapping q is the last of its name among the first n points. */
  lemma LastOfNameAt(m: EquipmentMapping, q: nat, n: nat)
    requires m.telemetryPath != "" && q < |m.telemetry| && n <= |Points(m)|
    requires forall r :: q < r < |m.telemetry| && r + 1 < n ==> m.telemetry[r].name != m.telemetry[q].name
    ensures q + 1 < |Points(m)| && Points(m)[q + 1] == Telemetry(m.telemetry[q].name, m.telemetry[q].unit)
    ensures forall r :: q + 1 < r < n && Points(m)[r].Telemetry? ==> Points(m)[r].name != m.telemetry[q].name
  {
    TelemetryPointAt(m);
    forall r | q + 1 < r < n && Points(m)[r].Telemetry?
      ensures Points(m)[r].name != m.telemetry[q].name
    {
      assert m.telemetry[r - 1].name != m.telemetry[q].name;
    }
  }

  lemma NumberRead(ms: seq<EquipmentMapping>, json: Json, gateway: Gateway, p: nat, q: nat)
    requires Fetched(ms, json, gateway, p) && q < |ms[p].telemetry| && ReadsOf(ms, json, gateway)(p, q + 1).Some?
    ensures ms[p].telemetry[q].jsonPointer != ""
    ensures json.number(gateway(p).body, ms[p].telemetry[q].jsonPointer) == ReadsOf(ms, json, gateway)(p, q + 1)
  {
    TelemetryPointAt(ms[p]);
    ReadAt(ms, json, gateway, p, q + 1);
  }

  /** A telemetry name shows the number its last mapping within the cut points to in the
      document fetched for the item. */
  lemma PollShowsTelemetry(ms: seq<EquipmentMapping>, es: seq<EquipmentState>, json: Json, gateway: Gateway,
                           i: nat, j: nat, p: nat, q: nat)
    requires |es| == |ms| && p < |ms| && IsCut(PlanOf(ms), ReadsOf(ms, json, gateway), i, j)
    requires ms[p].telemetryPath != "" && q < |ms[p].telemetry| && (p < i || (p == i && q + 1 < j))
    requires forall r :: q < r < |ms[p].telemetry| && (p < i || r + 1 < j) ==> ms[p].telemetry[r].name != ms[p].telemetry[q].name
    ensures
      var t, reply, e := ms[p].telemetry[q], gateway(p), AtCut(es, PlanOf(ms), ReadsOf(ms, json, gateway), i, j)[p];
      && reply.Success? && t.jsonPointer != "" && json.number(reply.body, t.jsonPointer).Some? && t.name in e.telemetry
      && e.telemetry[t.name] == TelemetryPoint(t.name, json.number(reply.body, t.jsonPointer).value, t.unit)
  {
    var plan, got := PlanOf(ms), ReadsOf(ms, json, gateway);
    WithinIsRead(plan, got, i, j, p);
    PointCount(ms[p]);
    ReadIsFetched(ms, json, gateway, i, j, p, q + 1);
    NumberRead(ms, json, gateway, p, q);
    LastOfNameAt(ms[p], q, Within(plan, i, j, p));
    CutShowsLastRead(es, plan, got, i, j, p, q + 1);
  }

  lemma NoPointOfName(m: EquipmentMapping, name: string, n: nat)
    requires forall q :: 0 <= q < |m.telemetry| && q + 1 < n ==> m.telemetry[q].name != name
    ensures forall q :: 0 <= q < n && q < |Points(m)| && Points(m)[q].Telemetry? ==> Points(m)[q].name != name
  {
    if m.telemetryPath != "" {
      TelemetryPointAt(m);
    }
  }

  /** A name that no mapping within the cut has keeps its point, or stays without one. */
  lemma PollKeepsUnread(ms: seq<EquipmentMapping>, es: seq<EquipmentState>, json: Json, gateway: Gateway,
                        i: nat, j: nat, p: nat, name: string)
    requires |es| == |ms| && p < |ms| && IsCut(PlanOf(ms), ReadsOf(ms, json, gateway), i, j)
    requires forall q :: 0 <= q < |ms[p].telemetry| && (p < i || (p == i && q + 1 < j)) ==> ms[p].telemetry[q].name != name
    ensures var t' := AtCut(es, PlanOf(ms), ReadsOf(ms, json, gateway), i, j)[p].telemetry;
      if name in es[p].telemetry then name in t' && t'[name] == es[p].telemetry[name] else name !in t'
  {
    NoPointOfName(ms[p], name, Within(PlanOf(ms), i, j, p));
    CutKeepsUnread(es, PlanOf(ms), ReadsOf(ms, json, gateway), i, j, p, name);
  }

  /** How many steps an item's refresh takes: the request, its telemetry, each signal that
      is mapped; one that has no path and maps nothing takes none. */
  function ReadCount(m: EquipmentMapping): nat {
    if m.telemetryPath == "" then
      (if m.telemetry == [] && m.statePointer == "" && m.faultPointer == "" then 0 else 1)
    else 1 + |m.telemetry| + (if m.statePointer != "" then 1 else 0) + (if m.faultPointer != "" then 1 else 0)
  }

  lemma PointCount(m: EquipmentMapping)
    ensures |Points(m)| == ReadCount(m)
  {
  }

  /** Step j of the item's refresh fails: there is no path, no answer or no document, or
      the pointer is empty or finds nothing of its kind. */
  predicate ReadFails(m: EquipmentMapping, json: Json, reply: HttpReply, j: nat) {
    || m.telemetryPath == "" || reply.Failure? || !json.parses(reply.body)
    || (1 <= j <= |m.telemetry| &&
          (m.telemetry[j - 1].jsonPointer == "" || json.number(reply.body, m.telemetry[j - 1].jsonPointer).None?))
    || (j == |m.telemetry| + 1 && m.statePointer != "" && json.flag(reply.body, m.statePointer).None?)
    || (j == ReadCount(m) - 1 && m.faultPointer != "" && json.flag(reply.body, m.faultPointer).None?)
  }

  lemma ReadFailsIff(ms: seq<EquipmentMapping>, json: Json, gateway: Gateway, i: nat, j: nat)
    requires i < |ms| && j < ReadCount(ms[i])
    ensures |Points(ms[i])| == ReadCount(ms[i])
    ensures ReadsOf(ms, json, gateway)(i, j).None? <==> ReadFails(ms[i], json, gateway(i), j)
  {
    PointCount(ms[i]);
    ReadAt(ms, json, gateway, i, j);
    if Fetched(ms, json, gateway, i) {
      ItemsAt(ms, json, gateway, i);
    }
  }

  /** A poll ends at the first step that fails, and takes them all if none does. */
  lemma PollEndsAtFirstFailure(ms: seq<EquipmentMapping>, json: Json, gateway: Gateway, i: nat, j: nat)
    requires IsCut(PlanOf(ms), ReadsOf(ms, json, gateway), i, j)
    ensures i <= |ms| && (i < |ms| ==> j < ReadCount(ms[i]) && ReadFails(ms[i], json, gateway(i), j))
    ensures forall p: nat, q: nat :: (p < i && q < ReadCount(ms[p])) || (p == i < |ms| && q < j) ==>
      !ReadFails(ms[p], json, gateway(p), q)
  {
    forall p | 0 <= p < |ms|
      ensures |PlanOf(ms)[p]| == ReadCount(ms[p])
    {
      PointCount(ms[p]);
    }
    forall p: nat, q: nat | p < |ms| && q < ReadCount(ms[p])
      ensures ReadsOf(ms, json, gateway)(p, q).None? <==> ReadFails(ms[p], json, gateway(p), q)
    {
      ReadFailsIff(ms, json, gateway, p, q);
    }
  }
}
