/** The IndustrialAdapter contract on values: what an adapter shows, and how connect(),
    disconnect(), poll(), a command and a link failure may change it. Whatever the
    outside world decides is a reply value, so every statement over all replies is a
    statement over all behaviours of the field devices. */
module AdapterContract {
  import opened Domain

  datatype AdapterView = AdapterView(
    id: string,
    protocol: string,
    state: ConnectionState,
    lastError: string,
    bound: seq<EquipmentState>)

  /** equipment(): empty while Disconnected, last-known instances while Faulted. */
  function Exposed(v: AdapterView): seq<EquipmentState> {
    if v.state == Disconnected then [] else v.bound
  }

  function IdsOf(es: seq<EquipmentState>): set<string> {
    set i | 0 <= i < |es| :: es[i].id
  }

  function ExposedIds(v: AdapterView): set<string> {
    IdsOf(Exposed(v))
  }

  /** What every adapter keeps between calls. */
  ghost predicate WellFormed(v: AdapterView) {
    && (v.state == Disconnected ==> v.bound == [] && v.lastError == "")
    && (v.state == Connected ==> v.lastError == "")
  }

  /** equipmentById(): the first bound item with the id. */
  function FirstWithId(es: seq<EquipmentState>, id: string): (e: EquipmentState)
    requires id in IdsOf(es)
    ensures e in es && e.id == id
  {
    if es[0].id == id then es[0] else
      assert id in IdsOf(es[1..]) by { TailHasId(es, id); }
      FirstWithId(es[1..], id)
  }

  function LastWithId(es: seq<EquipmentState>, id: string): (e: EquipmentState)
    requires id in IdsOf(es)
    ensures e in es && e.id == id
  {
    if es[|es| - 1].id == id then es[|es| - 1] else
      assert id in IdsOf(es[..|es| - 1]) by { InitHasId(es, id); }
      LastWithId(es[..|es| - 1], id)
  }

  lemma TailHasId(es: seq<EquipmentState>, id: string)
    requires id in IdsOf(es) && es[0].id != id
    ensures id in IdsOf(es[1..])
  {
  }

  lemma InitHasId(es: seq<EquipmentState>, id: string)
    requires id in IdsOf(es) && es[|es| - 1].id != id
    ensures id in IdsOf(es[..|es| - 1])
  {
  }

  ghost predicate DistinctIds(es: seq<EquipmentState>) {
    forall i, j :: 0 <= i < j < |es| ==> es[i].id != es[j].id
  }

  lemma FirstIsLast(es: seq<EquipmentState>, id: string)
    requires DistinctIds(es) && id in IdsOf(es)
    ensures FirstWithId(es, id) == LastWithId(es, id)
  {
  }

  ghost predicate IsBound(es: seq<EquipmentState>, id: string) {
    exists i :: 0 <= i < |es| && es[i].id == id
  }

  /** Item i is the last of its id: the one an overwriting loop keeps. */
  ghost predicate IsLastOfId(es: seq<EquipmentState>, i: nat) {
    i < |es| && forall k :: i < k < |es| ==> es[k].id != es[i].id
  }

  lemma {:induction false} LastAt(es: seq<EquipmentState>, i: nat)
    requires IsLastOfId(es, i)
    ensures es[i].id in IdsOf(es) && LastWithId(es, es[i].id) == es[i]
  {
    var n := |es| - 1;
    assert es[i].id in IdsOf(es);
    if i < n {
      LastAt(es[..n], i);
    }
  }

  // ----- connect -----

  /** What a mapping contributes when equipment is bound. */
  datatype Mapped = Mapped(id: string, typ: string, capabilities: seq<string>,
                           telemetry: map<string, TelemetryPoint>)

  /** Newly bound equipment is stopped and has no machine fault. */
  function FreshEquipment(m: Mapped): EquipmentState {
    EquipmentState(m.id, m.typ, Stopped, false, m.capabilities, m.telemetry)
  }

  function FreshAll(ms: seq<Mapped>): (es: seq<EquipmentState>)
    ensures |es| == |ms|
    ensures forall i :: 0 <= i < |es| ==> es[i] == FreshEquipment(ms[i])
  {
    seq(|ms|, i requires 0 <= i < |ms| => FreshEquipment(ms[i]))
  }

  /** Bind: connected with newly bound equipment. Reuse: connected, keeping what was
      bound. Refuse: failed before binding. RefuseBound: failed after binding, which
      only the MQTT adapter does (a subscribe failing on a first connect). */
  datatype ConnectReply =
    | Bind(mapped: seq<Mapped>)
    | Reuse
    | Refuse(error: string)
    | RefuseBound(mapped: seq<Mapped>, error: string)

  predicate ConnectOk(v: AdapterView, r: ConnectReply) {
    v.state == Connected || r.Bind? || r.Reuse?
  }

  function AfterConnect(v: AdapterView, r: ConnectReply): (v': AdapterView)
    ensures v'.id == v.id && v'.protocol == v.protocol
    ensures WellFormed(v) ==> WellFormed(v')
    ensures v'.state == Connected <==> ConnectOk(v, r)
  {
    if v.state == Connected then v else
      match r
      case Bind(ms) => v.(state := Connected, lastError := "", bound := FreshAll(ms))
      case Reuse => v.(state := Connected, lastError := "")
      case Refuse(e) => v.(state := Faulted, lastError := e)
      case RefuseBound(ms, e) => v.(state := Faulted, lastError := e, bound := FreshAll(ms))
  }

  function AfterDisconnect(v: AdapterView): AdapterView {
    v.(state := Disconnected, lastError := "", bound := [])
  }

  // ----- poll -----

  /** What one poll did to one bound item: its telemetry and operational state
      afterwards, and the machine fault value if one was read. */
  datatype Update = Update(telemetry: map<string, TelemetryPoint>, operational: OperationalState,
                           faultRead: Option<bool>)

  datatype PollReply = PollReply(updates: seq<Update>, failure: Option<string>)

  function Updated(e: EquipmentState, u: Update): EquipmentState {
    e.(telemetry := u.telemetry, operational := u.operational,
       fault := if u.faultRead.Some? then u.faultRead.value else e.fault)
  }

  function UpdatedAll(es: seq<EquipmentState>, us: seq<Update>): (r: seq<EquipmentState>)
    ensures |r| == |es|
    ensures forall i :: 0 <= i < |es| ==> r[i].id == es[i].id
    ensures IdsOf(r) == IdsOf(es)
  {
    var r := seq(|es|, i requires 0 <= i < |es| => if i < |us| then Updated(es[i], us[i]) else es[i]);
    assert forall i :: 0 <= i < |es| ==> r[i].id == es[i].id;
    r
  }

  const POLL_FAULT := "poll failed: communication fault"

  function AfterPoll(v: AdapterView, r: PollReply): (v': AdapterView)
    ensures v'.id == v.id && v'.protocol == v.protocol
    ensures WellFormed(v) ==> WellFormed(v')
    ensures ExposedIds(v') == ExposedIds(v)
    ensures v.state != Connected ==> v'.state == v.state && v'.bound == v.bound
    ensures v'.state == Disconnected <==> v.state == Disconnected
  {
    if v.state == Faulted && v.lastError == "" then v.(lastError := POLL_FAULT)
    else if v.state != Connected then v
    else
      var after := v.(bound := UpdatedAll(v.bound, r.updates));
      if r.failure.None? then after else after.(state := Faulted, lastError := r.failure.value)
  }

  // ----- commands and link failures, outside the manager lock -----

  datatype CommandReply =
    | Ignored
    | WriteFailed(error: string)
    | Changed(index: nat, telemetry: map<string, TelemetryPoint>, operational: OperationalState)

  function AfterCommand(v: AdapterView, r: CommandReply): (v': AdapterView)
    ensures v'.id == v.id && v'.protocol == v.protocol
    ensures WellFormed(v) ==> WellFormed(v')
    ensures ExposedIds(v') == ExposedIds(v)
  {
    if v.state != Connected then v else
      match r
      case Ignored => v
      case WriteFailed(e) => v.(state := Faulted, lastError := e)
      case Changed(i, t, o) =>
        if i < |v.bound| then
          var after := v.bound[i := v.bound[i].(telemetry := t, operational := o)];
          assert forall j :: 0 <= j < |after| ==> after[j].id == v.bound[j].id;
          v.(bound := after)
        else v
  }

  function AfterLinkFailure(v: AdapterView, reason: string): AdapterView {
    v.(state := Faulted, lastError := reason)
  }

  /** Only a Faulted adapter is cleared, and clearing drops what it had bound. */
  function AfterClear(v: AdapterView): AdapterView {
    if v.state == Faulted then AfterDisconnect(v) else v
  }
}
