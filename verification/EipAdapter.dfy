/** industrial/src/EtherNetIpIndustrialAdapter.cc: a table of tags created on connect,
    read by key on every poll and written by key on a command. */
module EipAdapters {
  import opened AdapterContract
  import opened Domain
  import opened EipSessions
  import opened GenericEquipments
  import opened PollCut
  import opened TagKeys

  datatype EipConfig = EipConfig(host: string, port: nat, plcType: string, equipment: seq<EquipmentMapping>)

  /** What the device answers to read j of item i during one poll. */
  type Device = (nat, nat) -> ReadReply

  // ----- the reading plan of a mapping -----

  function TelemetryPoints(ts: seq<TagMapping>): (ps: seq<Point>)
    ensures |ps| == |ts| && forall i :: 0 <= i < |ps| ==> ps[i] == Telemetry(ts[i].name, ts[i].unit)
  {
    seq(|ts|, i requires 0 <= i < |ts| => Telemetry(ts[i].name, ts[i].unit))
  }

  function Points(m: EquipmentMapping): seq<Point> {
    TelemetryPoints(m.telemetry)
    + (if m.state.mapped then [StateSignal] else [])
    + (if m.fault.mapped then [FaultSignal] else [])
  }

  function PlanOf(ms: seq<EquipmentMapping>): (plan: Plan)
    ensures |plan| == |ms| && forall i :: 0 <= i < |plan| ==> plan[i] == Points(ms[i])
  {
    seq(|ms|, i requires 0 <= i < |ms| => Points(ms[i]))
  }

  /** The slot and the mapped type point j is read from. */
  function SourceOf(m: EquipmentMapping, j: nat): (s: (Role, nat, ValueType))
    requires j < |Points(m)|
    ensures Uses(m, s.0, s.1)
  {
    if j < |m.telemetry| then (Tel, j, m.telemetry[j].valueType)
    else if Points(m)[j].StateSignal? then (State, 0, m.state.valueType)
    else (Fault, 0, m.fault.valueType)
  }

  /** A value of its own type, as the number the equipment model shows. */
  function OwnValue(t: ValueType, raw: ReadReply): real
    requires raw.Raw?
  {
    match t
    case BoolValue => if raw.uint8 != 0 then 1.0 else 0.0
    case DintValue => raw.int32 as real
    case RealValue => raw.float32
  }

  function OwnRead(t: ValueType, reply: ReadReply): Option<real> {
    if reply.Raw? then Some(OwnValue(t, reply)) else None
  }

  function ReadsOf(ms: seq<EquipmentMapping>, device: Device): Reads {
    (i: nat, j: nat) =>
      if i < |ms| && j < |Points(ms[i])| then OwnRead(SourceOf(ms[i], j).2, device(i, j)) else None
  }

  /** Which outcome each point of an item has. */
  lemma PointsAt(ms: seq<EquipmentMapping>, device: Device, i: nat)
    requires i < |ms|
    ensures var m := ms[i];
      var ps, got, n := Points(m), ReadsOf(ms, device), |m.telemetry|;
      && |ps| == n + (if m.state.mapped then 1 else 0) + (if m.fault.mapped then 1 else 0)
      && (forall q :: 0 <= q < n ==> ps[q] == Telemetry(m.telemetry[q].name, m.telemetry[q].unit))
      && (forall q: nat :: q < n ==> got(i, q) == OwnRead(m.telemetry[q].valueType, device(i, q)))
      && (m.state.mapped ==> ps[n] == StateSignal && got(i, n) == OwnRead(m.state.valueType, device(i, n)))
      && (m.fault.mapped ==>
            ps[|ps| - 1] == FaultSignal && got(i, |ps| - 1) == OwnRead(m.fault.valueType, device(i, |ps| - 1)))
  {
  }

  function SpecOf(m: EquipmentMapping): BindSpec {
    BindSpec(m.id, m.typ, m.capabilities,
             seq(|m.commands|, i requires 0 <= i < |m.commands| => m.commands[i].name))
  }

  function SpecsOf(ms: seq<EquipmentMapping>): (ss: seq<BindSpec>)
    ensures |ss| == |ms| && forall i :: 0 <= i < |ss| ==> ss[i] == SpecOf(ms[i])
  {
    seq(|ms|, i requires 0 <= i < |ms| => SpecOf(ms[i]))
  }

  /** What a connect binds for mapping k: its id and type, stopped, without fault or
      telemetry, able to do what it lists and each command it maps. */
  lemma BindsAsMapped(ms: seq<EquipmentMapping>, k: nat)
    requires k < |ms|
    ensures var e := FreshAll(MappedAll(SpecsOf(ms)))[k];
      && e.id == ms[k].id && e.typ == ms[k].typ && e.operational == Stopped && !e.fault && e.telemetry == map[]
      && Distinct(e.capabilities)
      && forall c :: c in e.capabilities <==>
           c in ms[k].capabilities || exists l :: 0 <= l < |ms[k].commands| && ms[k].commands[l].name == c
  {
    var names := SpecOf(ms[k]).commands;
    MappedCapabilities(SpecOf(ms[k]));
    assert forall l :: 0 <= l < |names| ==> names[l] == ms[k].commands[l].name;
  }

  // ----- the tag table -----

  /** The first n entries are in the table, each with its mapped type. */
  ghost predicate HoldsFirst(tags: map<string, TagEntry>, es: seq<Entry>, n: nat)
    requires n <= |es|
  {
    forall i :: 0 <= i < n ==> es[i].key in tags && tags[es[i].key].valueType == es[i].valueType
  }

  /** And nothing else is. */
  ghost predicate HoldsOnly(tags: map<string, TagEntry>, es: seq<Entry>, n: nat)
    requires n <= |es|
  {
    forall k :: k in tags ==> HasKey(es[..n], k)
  }

  /** The first n entries have handles of the device tags they name. */
  ghost predicate NamedFirst(tags: map<string, TagEntry>, names: map<int, string>, es: seq<Entry>, n: nat)
    requires n <= |es|
  {
    forall i :: 0 <= i < n ==> IsNamed(tags, names, es[i].key, es[i].tag)
  }

  ghost predicate IsNamed(tags: map<string, TagEntry>, names: map<int, string>, key: string, tag: string) {
    key in tags && tags[key].handle in names && names[tags[key].handle] == tag
  }

  lemma OneMoreNamed(tags: map<string, TagEntry>, names: map<int, string>, tags': map<string, TagEntry>, names': map<int, string>,
                     es: seq<Entry>, i: nat)
    requires i < |es| && NamedFirst(tags, names, es, i) && es[i].key !in tags
    requires forall k :: k in tags ==> k in tags' && tags'[k] == tags[k]
    requires forall k :: k in tags && tags[k].handle in names ==>
      tags[k].handle in names' && names'[tags[k].handle] == names[tags[k].handle]
    requires IsNamed(tags', names', es[i].key, es[i].tag)
    ensures NamedFirst(tags', names', es, i + 1)
  {
    forall k | 0 <= k < i + 1
      ensures IsNamed(tags', names', es[k].key, es[k].tag)
    {
      if k < i {
        assert IsNamed(tags, names, es[k].key, es[k].tag);
      }
    }
  }

  lemma {:induction false} EntryIsAmongAll(ms: seq<EquipmentMapping>, p: nat, i: nat) returns (k: nat)
    requires p < |ms| && i < |EntriesOf(ms[p])|
    ensures k < |AllEntries(ms)| && AllEntries(ms)[k] == EntriesOf(ms[p])[i]
  {
    var n := |ms| - 1;
    if p == n {
      k := |AllEntries(ms[..n])| + i;
    } else {
      k := EntryIsAmongAll(ms[..n], p, i);
    }
  }

  ghost predicate HasTag(tags: map<string, TagEntry>, key: string, t: ValueType) {
    key in tags && tags[key].valueType == t
  }

  function TypeOf(m: EquipmentMapping, role: Role, index: nat): ValueType
    requires Uses(m, role, index)
  {
    match role
    case Tel => m.telemetry[index].valueType
    case Cmd => m.commands[index].valueType
    case State => m.state.valueType
    case Fault => m.fault.valueType
  }

  /** Every slot the mappings use finds its tag, with the mapped type: a lookup of an
      unknown key and a conversion between types cannot happen. */
  ghost predicate HasAllTags(tags: map<string, TagEntry>, ms: seq<EquipmentMapping>) {
    forall p, role, index :: 0 <= p < |ms| && Uses(ms[p], role, index) ==>
      HasTag(tags, TagKey(ms[p].id, role, index), TypeOf(ms[p], role, index))
  }

  lemma AllHeldIsAllTags(tags: map<string, TagEntry>, ms: seq<EquipmentMapping>)
    requires HoldsFirst(tags, AllEntries(ms), |AllEntries(ms)|)
    ensures HasAllTags(tags, ms)
  {
    forall p, role, index | 0 <= p < |ms| && Uses(ms[p], role, index)
      ensures HasTag(tags, TagKey(ms[p].id, role, index), TypeOf(ms[p], role, index))
    {
      SlotIsHeld(tags, ms, p, role, index);
    }
  }

  lemma SlotIsHeld(tags: map<string, TagEntry>, ms: seq<EquipmentMapping>, p: nat, role: Role, index: nat)
    requires HoldsFirst(tags, AllEntries(ms), |AllEntries(ms)|) && p < |ms| && Uses(ms[p], role, index)
    ensures HasTag(tags, TagKey(ms[p].id, role, index), TypeOf(ms[p], role, index))
  {
    var i := Position(ms[p], role, index);
    var k := EntryIsAmongAll(ms, p, i);
    assert EntriesOf(ms[p])[i].valueType == TypeOf(ms[p], role, index);
    assert AllEntries(ms)[k].key == TagKey(ms[p].id, role, index);
  }

  /** The device tag a mapping names for a slot. */
  function TagOf(m: EquipmentMapping, role: Role, index: nat): string
    requires Uses(m, role, index)
  {
    match role
    case Tel => m.telemetry[index].tag
    case Cmd => m.commands[index].tag
    case State => m.state.tag
    case Fault => m.fault.tag
  }

  /** Every slot the mappings use has a handle of the device tag mapped for it. */
  ghost predicate AllNamed(tags: map<string, TagEntry>, names: map<int, string>, ms: seq<EquipmentMapping>) {
    forall p, role, index :: 0 <= p < |ms| && Uses(ms[p], role, index) ==>
      IsNamed(tags, names, TagKey(ms[p].id, role, index), TagOf(ms[p], role, index))
  }

  lemma AllHeldIsAllNamed(tags: map<string, TagEntry>, names: map<int, string>, ms: seq<EquipmentMapping>)
    requires NamedFirst(tags, names, AllEntries(ms), |AllEntries(ms)|)
    ensures AllNamed(tags, names, ms)
  {
    forall p, role, index | 0 <= p < |ms| && Uses(ms[p], role, index)
      ensures IsNamed(tags, names, TagKey(ms[p].id, role, index), TagOf(ms[p], role, index))
    {
      SlotIsNamed(tags, names, ms, p, role, index);
    }
  }

  lemma SlotIsNamed(tags: map<string, TagEntry>, names: map<int, string>, ms: seq<EquipmentMapping>, p: nat, role: Role, index: nat)
    requires NamedFirst(tags, names, AllEntries(ms), |AllEntries(ms)|) && p < |ms| && Uses(ms[p], role, index)
    ensures IsNamed(tags, names, TagKey(ms[p].id, role, index), TagOf(ms[p], role, index))
  {
    var i := Position(ms[p], role, index);
    var k := EntryIsAmongAll(ms, p, i);
    assert EntriesOf(ms[p])[i].tag == TagOf(ms[p], role, index);
    assert AllEntries(ms)[k].key == TagKey(ms[p].id, role, index);
  }

  /** What a poll looks up for one item. */
  ghost predicate ReadSlotsTagged(tags: map<string, TagEntry>, m: EquipmentMapping) {
    && (forall q :: 0 <= q < |m.telemetry| ==> HasTag(tags, TagKey(m.id, Tel, q), m.telemetry[q].valueType))
    && (m.state.mapped ==> HasTag(tags, TagKey(m.id, State, 0), m.state.valueType))
    && (m.fault.mapped ==> HasTag(tags, TagKey(m.id, Fault, 0), m.fault.valueType))
  }

  ghost predicate AllReadSlotsTagged(tags: map<string, TagEntry>, ms: seq<EquipmentMapping>) {
    forall p :: 0 <= p < |ms| ==> ReadSlotsTagged(tags, ms[p])
  }

  lemma ReadSlotsHaveTags(tags: map<string, TagEntry>, ms: seq<EquipmentMapping>)
    requires HasAllTags(tags, ms)
    ensures AllReadSlotsTagged(tags, ms)
  {
  }

  // ----- the adapter -----

  class EipAdapter {
    const id: string
    const config: EipConfig
    const session: EipSession
    var state: ConnectionState
    var lastError: string
    var bound: seq<GenericEquipment>

    constructor (id: string, config: EipConfig, lib: PlcLibrary)
      requires lib.Valid()
      ensures Valid() && View() == AdapterView(id, "ethernetip", Disconnected, "", [])
      ensures this.config == config && session.lib == lib && fresh(session)
    {
      this.id, this.config := id, config;
      state, lastError, bound := Disconnected, "", [];
      session := new EipSession(lib);
    }

    ghost function View(): AdapterView
      reads this`state, this`lastError, this`bound, bound
    {
      AdapterView(id, "ethernetip", state, lastError, StatesOf(bound))
    }

    predicate Addressed() {
      config.host != "" && config.port != 0 && config.plcType != ""
    }

    /** No handle is held while Disconnected, nor while the configuration cannot be
        connected at all; while Connected the table is complete and correctly typed. */
    ghost predicate Valid()
      reads this`state, this`lastError, this`bound, session`isOpen, session`tags, session`keyOf, session.lib
    {
      && session.Valid()
      && OwnedOnce(bound) && (bound == [] || BoundAsMapped())
      && (state == Connected ==>
            session.isOpen && HasAllTags(session.tags, config.equipment) &&
            AllNamed(session.tags, session.lib.names, config.equipment) && lastError == "" && BoundAsMapped())
      && (state == Disconnected ==> bound == [] && lastError == "" && session.tags == map[])
      && (!Addressed() ==> session.tags == map[])
    }

    ghost predicate BoundAsMapped()
      reads this`bound
    {
      |bound| == |config.equipment| && forall i :: 0 <= i < |bound| ==> bound[i].id == config.equipment[i].id
    }

    method EnterFault(reason: string)
      modifies this`state, this`lastError
      ensures state == Faulted && lastError == reason
    {
      state, lastError := Faulted, reason;
    }

    /** A connect that succeeds needs every tag created; one that fails leaves no handle
        of this adapter live and no other handle touched. */
    method Connect(replies: nat -> CreateReply) returns (ok: bool)
      requires Valid()
      modifies this, session, session.lib
      ensures Valid() && fresh(set e | e in bound && e !in old(bound))
      ensures ok == ConnectOk(old(View()), ReplyOf(replies))
      ensures View() == AfterConnect(old(View()), ReplyOf(replies))
      ensures ok && old(state) != Connected ==> config.host != "" && config.port != 0 && config.plcType != ""
      ensures !ok ==> session.tags == map[]
      ensures session.lib.live - session.Handles() == old(session.lib.live) - old(session.Handles())
    {
      if state == Connected {
        return true;
      }
      var failure := OpenSession(replies);
      ok := Conclude(failure);
    }

    /** The last lines of connect: the fault recorded, or the equipment bound. */
    method Conclude(failure: Option<string>) returns (ok: bool)
      requires failure.None? ==> session.isOpen && HasAllTags(session.tags, config.equipment)
      requires failure.None? ==> AllNamed(session.tags, session.lib.names, config.equipment)
      requires failure.Some? ==> session.tags == map[]
      requires session.Valid() && OwnedOnce(bound) && (bound == [] || BoundAsMapped())
      requires (!Addressed() ==> session.tags == map[])
      modifies this
      ensures Valid() && fresh(set e | e in bound && e !in old(bound))
      ensures ok == failure.None?
      ensures state == (if ok then Connected else Faulted) && lastError == (if ok then "" else failure.value)
      ensures StatesOf(bound) == if ok then FreshAll(MappedAll(SpecsOf(config.equipment))) else old(StatesOf(bound))
    {
      if failure.Some? {
        EnterFault(failure.value);
        return false;
      }
      BindEquipment();
      return true;
    }

    method BindEquipment()
      modifies this
      ensures state == Connected && lastError == ""
      ensures fresh(set e | e in bound) && OwnedOnce(bound) && BoundAsMapped()
      ensures StatesOf(bound) == FreshAll(MappedAll(SpecsOf(config.equipment)))
    {
      bound := BindAll(SpecsOf(config.equipment));
      forall i | 0 <= i < |bound|
        ensures bound[i].id == config.equipment[i].id
      {
        assert StatesOf(bound)[i].id == bound[i].id;
      }
      state, lastError := Connected, "";
    }

    /** The session part of connect, after the checks of the configuration. */
    method OpenSession(replies: nat -> CreateReply) returns (failure: Option<string>)
      requires session.Valid() && (!Addressed() ==> session.tags == map[])
      modifies session, session.lib
      ensures session.Valid()
      ensures failure.None? <==> Addressed() && Creatable(AllEntries(config.equipment), replies)
      ensures failure.None? ==> session.isOpen && HasAllTags(session.tags, config.equipment)
      ensures failure.None? ==> AllNamed(session.tags, session.lib.names, config.equipment)
      ensures failure.Some? ==> session.tags == map[]
      ensures session.lib.live - session.Handles() == old(session.lib.live) - old(session.Handles())
    {
      if config.host == "" || config.port == 0 {
        return Some("missing EtherNet/IP host or port");
      }
      if config.plcType == "" {
        return Some("missing EtherNet/IP plc type");
      }
      failure := OpenWithTags(replies);
    }

    /** A new session with its table, or nothing at all. */
    method OpenWithTags(replies: nat -> CreateReply) returns (failure: Option<string>)
      requires session.Valid()
      modifies session, session.lib
      ensures session.Valid()
      ensures failure.None? <==> Addressed() && Creatable(AllEntries(config.equipment), replies)
      ensures failure.None? ==> session.isOpen && HasAllTags(session.tags, config.equipment)
      ensures failure.None? ==> AllNamed(session.tags, session.lib.names, config.equipment)
      ensures failure.Some? ==> session.tags == map[]
      ensures session.lib.live - session.Handles() == old(session.lib.live) - old(session.Handles())
    {
      session.Close();
      var opens := session.Open(config.host, config.port, config.plcType);
      if !opens {
        return Some("EtherNet/IP session open failed: " + session.lastError);
      }
      KeysAreNotEmpty(config.equipment);
      var ok, _ := CreateMappedTags(AllEntries(config.equipment), replies);
      if !ok {
        session.Close();
        return Some("EtherNet/IP tag create failed: " + session.lastError);
      }
      AllHeldIsAllTags(session.tags, config.equipment);
      AllHeldIsAllNamed(session.tags, session.lib.names, config.equipment);
      return None;
    }

    /** The entries in mapping order; the first that cannot be created stops the rest. */
    method CreateMappedTags(es: seq<Entry>, replies: nat -> CreateReply) returns (ok: bool, ghost n: nat)
      requires session.Valid() && session.isOpen && session.tags == map[]
      requires forall i :: 0 <= i < |es| ==> es[i].key != ""
      modifies session, session.lib
      ensures session.Valid() && session.isOpen
      ensures n <= |es| && HoldsFirst(session.tags, es, n) && HoldsOnly(session.tags, es, n)
      ensures NamedFirst(session.tags, session.lib.names, es, n)
      ensures ok <==> n == |es|
      ensures ok <==> Creatable(es, replies)
      ensures session.lib.live - session.Handles() == old(session.lib.live)
    {
      n := 0;
      for i := 0 to |es|
        invariant n == i && session.Valid() && session.isOpen
        invariant HoldsFirst(session.tags, es, i) && HoldsOnly(session.tags, es, i) && Creatable(es[..i], replies)
        invariant NamedFirst(session.tags, session.lib.names, es, i)
        invariant session.lib.live - session.Handles() == old(session.lib.live)
      {
        ok := CreateEntry(es, i, replies);
        if !ok {
          return false, i;
        }
        n := i + 1;
      }
      assert es[..|es|] == es;
      ok := true;
    }

    method CreateEntry(es: seq<Entry>, i: nat, replies: nat -> CreateReply) returns (ok: bool)
      requires session.Valid() && session.isOpen && i < |es| && es[i].key != ""
      requires HoldsFirst(session.tags, es, i) && HoldsOnly(session.tags, es, i) && Creatable(es[..i], replies)
      requires NamedFirst(session.tags, session.lib.names, es, i)
      modifies session, session.lib
      ensures session.Valid() && session.isOpen
      ensures NamedFirst(session.tags, session.lib.names, es, if ok then i + 1 else i)
      ensures HoldsFirst(session.tags, es, if ok then i + 1 else i) && HoldsOnly(session.tags, es, if ok then i + 1 else i)
      ensures if ok then Creatable(es[..i + 1], replies) else !Creatable(es, replies)
      ensures session.lib.live - session.Handles() == old(session.lib.live) - old(session.Handles())
    {
      ghost var tags0, names0 := session.tags, session.lib.names;
      OneMoreCreatable(es, i, replies, tags0);
      ok := session.CreateTag(es[i].key, es[i].tag, es[i].valueType, replies(i));
      if ok {
        OneMoreHeld(tags0, session.tags, es, i);
        OneMoreNamed(tags0, names0, session.tags, session.lib.names, es, i);
      }
    }

    ghost function ReplyOf(replies: nat -> CreateReply): ConnectReply
      reads this`lastError
    {
      if Addressed() && Creatable(AllEntries(config.equipment), replies)
      then Bind(MappedAll(SpecsOf(config.equipment))) else Refuse(lastError)
    }

    method Disconnect()
      requires Valid()
      modifies this, session, session.lib
      ensures Valid() && View() == AfterDisconnect(old(View()))
      ensures session.Handles() == {} && session.lib.live == old(session.lib.live) - old(session.Handles())
    {
      bound := [];
      session.Close();
      state, lastError := Disconnected, "";
    }

    // ----- reading -----

    method ReadDouble(key: string, t: ValueType, reply: ReadReply) returns (value: Option<real>)
      requires session.Valid() && session.isOpen && HasTag(session.tags, key, t)
      modifies session`lastError
      ensures value == if reply.Raw? then Some(OwnValue(t, reply)) else None
    {
      match t
      case BoolValue =>
        var bit := session.ReadBool(key, reply);
        value := if bit.Some? then Some(if bit.value then 1.0 else 0.0) else None;
      case RealValue =>
        value := session.ReadReal(key, reply);
      case DintValue =>
        var dint := session.ReadDint(key, reply);
        value := if dint.Some? then Some(dint.value as real) else None;
    }

    method ReadBoolean(key: string, t: ValueType, reply: ReadReply) returns (value: Option<bool>)
      requires session.Valid() && session.isOpen && HasTag(session.tags, key, t)
      modifies session`lastError
      ensures value == if reply.Raw? then Some(OwnValue(t, reply) != 0.0) else None
    {
      match t
      case BoolValue =>
        value := session.ReadBool(key, reply);
      case RealValue =>
        var r := session.ReadReal(key, reply);
        value := if r.Some? then Some(r.value != 0.0) else None;
      case DintValue =>
        var dint := session.ReadDint(key, reply);
        value := if dint.Some? then Some(dint.value != 0) else None;
    }

    method RefreshFromDevice(e: GenericEquipment, i: nat, device: Device) returns (ok: bool, ghost done: nat)
      requires i < |config.equipment| && session.Valid() && session.isOpen
      requires ReadSlotsTagged(session.tags, config.equipment[i])
      modifies e, session`lastError
      ensures session.Valid()
      ensures ReadUpTo(old(e.View()), e.View(), Points(config.equipment[i]), i, ReadsOf(config.equipment, device), done)
      ensures ok <==> done == |Points(config.equipment[i])|
      ensures !ok ==> ReadsOf(config.equipment, device)(i, done).None?
    {
      var m := config.equipment[i];
      ghost var e0, points, got := e.View(), Points(m), ReadsOf(config.equipment, device);
      PointsAt(config.equipment, device, i);
      ok, done := RefreshTelemetry(e, m.id, m.telemetry, i, device, points, got);
      if ok {
        ok, done := RefreshSignals(e, i, device, e0);
      }
    }

    /** The state and the fault, after all the telemetry. */
    method RefreshSignals(e: GenericEquipment, i: nat, device: Device, ghost e0: EquipmentState)
      returns (ok: bool, ghost done: nat)
      requires i < |config.equipment| && session.Valid() && session.isOpen
      requires ReadSlotsTagged(session.tags, config.equipment[i])
      requires ReadUpTo(e0, e.View(), Points(config.equipment[i]), i, ReadsOf(config.equipment, device),
                        |config.equipment[i].telemetry|)
      modifies e, session`lastError
      ensures session.Valid()
      ensures ReadUpTo(e0, e.View(), Points(config.equipment[i]), i, ReadsOf(config.equipment, device), done)
      ensures ok <==> done == |Points(config.equipment[i])|
      ensures !ok ==> ReadsOf(config.equipment, device)(i, done).None?
    {
      var m := config.equipment[i];
      ghost var points, got := Points(m), ReadsOf(config.equipment, device);
      PointsAt(config.equipment, device, i);
      var n := |m.telemetry|;
      ok, done := true, n;
      if m.state.mapped {
        var key := TagKey(m.id, State, 0);
        ok := RefreshSignal(e, StateSignal, key, m.state.valueType, device(i, n), e0, points, i, got, n);
        n, done := n + 1, if ok then n + 1 else n;
      }
      if ok && m.fault.mapped {
        var key := TagKey(m.id, Fault, 0);
        ok := RefreshSignal(e, FaultSignal, key, m.fault.valueType, device(i, n), e0, points, i, got, n);
        done := if ok then n + 1 else n;
      }
    }

    method RefreshTelemetry(e: GenericEquipment, equipmentId: string, ts: seq<TagMapping>, i: nat, device: Device,
                            ghost points: seq<Point>, ghost got: Reads)
      returns (ok: bool, ghost done: nat)
      requires session.Valid() && session.isOpen && |ts| <= |points|
      requires forall q :: 0 <= q < |ts| ==> HasTag(session.tags, TagKey(equipmentId, Tel, q), ts[q].valueType)
      requires forall q :: 0 <= q < |ts| ==> points[q] == Telemetry(ts[q].name, ts[q].unit)
      requires forall q: nat :: q < |ts| ==> got(i, q) == OwnRead(ts[q].valueType, device(i, q))
      modifies e, session`lastError
      ensures session.Valid()
      ensures ReadUpTo(old(e.View()), e.View(), points, i, got, done) && done <= |ts|
      ensures ok <==> done == |ts|
      ensures !ok ==> got(i, done).None?
    {
      done := 0;
      for q := 0 to |ts|
        invariant session.Valid() && done == q && ReadUpTo(old(e.View()), e.View(), points, i, got, q)
      {
        assert got(i, q) == OwnRead(ts[q].valueType, device(i, q));
        assert HasTag(session.tags, TagKey(equipmentId, Tel, q), ts[q].valueType);
        var value := ReadDouble(TagKey(equipmentId, Tel, q), ts[q].valueType, device(i, q));
        if value.None? {
          return false, q;
        }
        Store(e, Telemetry(ts[q].name, ts[q].unit), value.value, old(e.View()), points, i, got, q);
        done := q + 1;
      }
      ok := true;
    }

    method RefreshSignal(e: GenericEquipment, p: Point, key: string, t: ValueType, reply: ReadReply,
                         ghost e0: EquipmentState, ghost points: seq<Point>, ghost i: nat, ghost got: Reads, ghost n: nat)
      returns (ok: bool)
      requires session.Valid() && session.isOpen && HasTag(session.tags, key, t)
      requires ReadUpTo(e0, e.View(), points, i, got, n) && n < |points|
      requires points[n] == p && !p.Telemetry? && got(i, n) == OwnRead(t, reply)
      modifies e, session`lastError
      ensures session.Valid()
      ensures ReadUpTo(e0, e.View(), points, i, got, if ok then n + 1 else n)
      ensures ok <==> got(i, n).Some?
    {
      var value := ReadBoolean(key, t, reply);
      if value.None? {
        return false;
      }
      ReadOneMore(e0, e.View(), points, i, got, n, OwnValue(t, reply));
      match p {
        case StateSignal => e.SetOperationalState(OperationalOf(value.value));
        case FaultSignal => e.SetFault(value.value);
        case Fetch =>
      }
      return true;
    }

    /** As for the other polling adapters: the cut of the reading plan, Faulted exactly
        when it is before the end, and a poll of the contract. The tag table and the
        live handles are as before. */
    method Poll(device: Device) returns (ghost i: nat, ghost j: nat)
      requires Valid()
      modifies this`state, this`lastError, session`lastError, bound
      ensures Valid()
      ensures old(state) == Connected ==>
        && IsCut(PlanOf(config.equipment), ReadsOf(config.equipment, device), i, j)
        && StatesOf(bound) ==
             AtCut(old(StatesOf(bound)), PlanOf(config.equipment), ReadsOf(config.equipment, device), i, j)
        && (state == Faulted <==> i < |config.equipment|)
        && View() == AfterPoll(old(View()),
             CutReply(old(StatesOf(bound)), PlanOf(config.equipment), ReadsOf(config.equipment, device), i, j, lastError))
      ensures old(state) != Connected ==> View() == AfterPoll(old(View()), PollReply([], None))
    {
      i, j := 0, 0;
      if state != Connected {
        if state == Faulted && lastError == "" {
          lastError := POLL_FAULT;
        }
        return;
      }
      i, j := PollConnected(device);
    }

    method PollConnected(device: Device) returns (ghost i: nat, ghost j: nat)
      requires OwnedOnce(bound) && |bound| == |config.equipment| && state == Connected && lastError == ""
      requires session.Valid() && session.isOpen && HasAllTags(session.tags, config.equipment)
      modifies this`state, this`lastError, session`lastError, bound
      ensures session.Valid() && state != Disconnected && (state == Connected ==> lastError == "")
      ensures IsCut(PlanOf(config.equipment), ReadsOf(config.equipment, device), i, j)
      ensures StatesOf(bound) ==
        AtCut(old(StatesOf(bound)), PlanOf(config.equipment), ReadsOf(config.equipment, device), i, j)
      ensures state == Faulted <==> i < |config.equipment|
      ensures View() == AfterPoll(old(View()),
        CutReply(old(StatesOf(bound)), PlanOf(config.equipment), ReadsOf(config.equipment, device), i, j, lastError))
    {
      ghost var before := StatesOf(bound);
      ReadSlotsHaveTags(session.tags, config.equipment);
      i, j := RefreshAll(device);
      CutIsPoll(before, PlanOf(config.equipment), ReadsOf(config.equipment, device), i, j, lastError);
    }

    method RefreshAll(device: Device) returns (ghost i: nat, ghost j: nat)
      requires Ready() && state == Connected && lastError == ""
      modifies this`state, this`lastError, session`lastError, bound
      ensures session.Valid() && state != Disconnected
      ensures IsCut(PlanOf(config.equipment), ReadsOf(config.equipment, device), i, j)
      ensures StatesOf(bound) ==
        AtCut(old(StatesOf(bound)), PlanOf(config.equipment), ReadsOf(config.equipment, device), i, j)
      ensures state == Faulted <==> i < |config.equipment|
      ensures state == Connected ==> lastError == ""
    {
      ghost var plan, got := PlanOf(config.equipment), ReadsOf(config.equipment, device);
      ghost var es0 := StatesOf(bound);
      i, j := 0, 0;
      for k := 0 to |bound|
        invariant i == k && j == 0 && state == Connected && lastError == "" && Ready()
        invariant RefreshedUpTo(es0, StatesOf(bound), plan, got, k)
      {
        var ok;
        ok, j := RefreshItem(k, device, es0, plan, got);
        if !ok {
          EnterFault("EtherNet/IP read failed during poll: " + session.lastError);
          return;
        }
        i, j := k + 1, 0;
      }
      RefreshedAll(es0, StatesOf(bound), plan, got);
    }

    /** What every read of a poll rests on. */
    ghost predicate Ready()
      reads this`bound, session`isOpen, session`tags, session`keyOf, session.lib
    {
      && OwnedOnce(bound) && |bound| == |config.equipment|
      && session.Valid() && session.isOpen && AllReadSlotsTagged(session.tags, config.equipment)
    }

    method RefreshItem(k: nat, device: Device, ghost es0: seq<EquipmentState>, ghost plan: Plan, ghost got: Reads)
      returns (ok: bool, ghost j: nat)
      requires Ready() && k < |bound|
      requires plan == PlanOf(config.equipment) && got == ReadsOf(config.equipment, device)
      requires RefreshedUpTo(es0, StatesOf(bound), plan, got, k)
      modifies bound[k], session`lastError
      ensures Ready()
      ensures ok ==> RefreshedUpTo(es0, StatesOf(bound), plan, got, k + 1)
      ensures !ok ==> IsCut(plan, got, k, j) && StatesOf(bound) == AtCut(es0, plan, got, k, j)
    {
      ghost var es := StatesOf(bound);
      ok, j := RefreshFromDevice(bound[k], k, device);
      RefreshedOneMore(es0, es, StatesOf(bound), plan, got, k, j);
    }

    // ----- writing -----

    method WriteDouble(key: string, t: ValueType, value: real, reply: WriteReply)
      returns (ok: bool, ghost sent: Option<(int, Payload)>)
      requires session.Valid() && session.isOpen && HasTag(session.tags, key, t)
      modifies this`state, this`lastError, session`lastError
      ensures ok <==> reply.WriteDone?
      ensures sent == if reply.SetFails? then None else Some((session.tags[key].handle, ParameterPayload(t, value)))
      ensures ok ==> state == old(state) && lastError == old(lastError)
      ensures !ok ==> state == Faulted
    {
      match t {
        case BoolValue =>
          ok, sent := session.Write(key, own => BoolPayload(own, value != 0.0), reply);
        case RealValue =>
          ok, sent := session.Write(key, own => RealPayload(own, value), reply);
        case DintValue =>
          ok, sent := session.Write(key, own => DintPayload(own, ToInt32(Lround(value))), reply);
      }
      if !ok {
        EnterFault("EtherNet/IP write failed: " + session.lastError);
      }
    }

    method WriteBoolean(key: string, t: ValueType, value: bool, reply: WriteReply)
      returns (ok: bool, ghost sent: Option<(int, Payload)>)
      requires session.Valid() && session.isOpen && HasTag(session.tags, key, t)
      modifies this`state, this`lastError, session`lastError
      ensures ok <==> reply.WriteDone?
      ensures sent == if reply.SetFails? then None else Some((session.tags[key].handle, BoolPayload(t, value)))
      ensures ok ==> state == old(state) && lastError == old(lastError)
      ensures !ok ==> state == Faulted
    {
      match t {
        case BoolValue =>
          ok, sent := session.Write(key, own => BoolPayload(own, value), reply);
        case RealValue =>
          ok, sent := session.Write(key, own => RealPayload(own, if value then 1.0 else 0.0), reply);
        case DintValue =>
          ok, sent := session.Write(key, own => DintPayload(own, if value then 1 else 0), reply);
      }
      if !ok {
        EnterFault("EtherNet/IP write failed: " + session.lastError);
      }
    }

    /** A mapped command always finds its tag, with its own type: the library's answers
        are the only way it can fail, and failing faults the link and nothing else. */
    method Execute(i: nat, command: string, parameter: real, reply: WriteReply)
      returns (result: CommandResult, ghost sent: Option<(int, Payload)>)
      requires Valid() && i < |bound|
      modifies this`state, this`lastError, session`lastError
      ensures Valid()
      ensures View() == AfterCommand(old(View()), if state == old(state) then Ignored else WriteFailed(lastError))
      ensures old(state) != Connected ==> !result.accepted && sent == None
      ensures old(state) == Connected ==>
        var m := config.equipment[i];
        var c := CommandIndex(m.commands, command, 0);
        && (c.Some? ==> TagKey(m.id, Cmd, c.value) in session.tags)
        && (result.accepted <==> c.Some? && reply.WriteDone?)
        && (state == Faulted <==> c.Some? && !result.accepted)
        && sent == (if c.None? || reply.SetFails? then None else
                      Some((session.tags[TagKey(m.id, Cmd, c.value)].handle,
                            CommandPayload(m.commands[c.value].valueType, command, parameter))))
        && (sent.Some? ==> sent.value.0 in session.lib.names && session.lib.names[sent.value.0] == m.commands[c.value].tag)
    {
      sent := None;
      if state != Connected {
        return CommandResult(false, if state == Faulted then "communication fault" else "adapter not connected"), None;
      }
      var m := config.equipment[i];
      var c := CommandIndex(m.commands, command, 0);
      if c.None? {
        return CommandResult(false, "unknown command"), None;
      }
      assert Uses(m, Cmd, c.value) && HasTag(session.tags, TagKey(m.id, Cmd, c.value), TypeOf(m, Cmd, c.value));
      assert IsNamed(session.tags, session.lib.names, TagKey(m.id, Cmd, c.value), TagOf(m, Cmd, c.value));
      var ok;
      ok, sent := WriteCommand(TagKey(m.id, Cmd, c.value), m.commands[c.value].valueType, command, parameter, reply);
      return CommandResult(ok, if ok then "written" else "ethernetip write failed"), sent;
    }

    method WriteCommand(key: string, t: ValueType, command: string, parameter: real, reply: WriteReply)
      returns (ok: bool, ghost sent: Option<(int, Payload)>)
      requires session.Valid() && session.isOpen && HasTag(session.tags, key, t)
      modifies this`state, this`lastError, session`lastError
      ensures ok <==> reply.WriteDone?
      ensures sent == if reply.SetFails? then None
                      else Some((session.tags[key].handle, CommandPayload(t, command, parameter)))
      ensures ok ==> state == old(state) && lastError == old(lastError)
      ensures !ok ==> state == Faulted
    {
      if IsSetCommand(command) {
        ok, sent := WriteDouble(key, t, parameter, reply);
      } else if t.BoolValue? {
        ok, sent := WriteBoolean(key, t, true, reply);
      } else {
        ok, sent := WriteDouble(key, t, 1.0, reply);
      }
    }
  }

  // ----- writing -----

  /** std::lround: halves away from zero. */
  function Lround(x: real): int {
    if x >= 0.0 then (x + 0.5).Floor else -((-x + 0.5).Floor)
  }

  /** static_cast to a 32-bit integer. */
  function ToInt32(n: int): int {
    (n + 0x8000_0000) % 0x1_0000_0000 - 0x8000_0000
  }

  function ParameterPayload(t: ValueType, value: real): Payload {
    match t
    case BoolValue => PutUint8(if value != 0.0 then 1 else 0)
    case RealValue => PutFloat32(value)
    case DintValue => PutInt32(ToInt32(Lround(value)))
  }

  /** What a command sends: its parameter for a set command, otherwise one or true. */
  function CommandPayload(t: ValueType, command: string, parameter: real): Payload {
    ParameterPayload(t, if IsSetCommand(command) then parameter else 1.0)
  }

  /** The first mapping of a command at or after k. */
  function CommandIndex(commands: seq<TagMapping>, command: string, k: nat): (c: Option<nat>)
    requires k <= |commands|
    ensures c.Some? ==> k <= c.value < |commands| && commands[c.value].name == command
    ensures forall l :: k <= l < |commands| && (c.Some? ==> l < c.value) ==> commands[l].name != command
    decreases |commands| - k
  {
    if k == |commands| then None
    else if commands[k].name == command then Some(k)
    else CommandIndex(commands, command, k + 1)
  }

  // ----- which tables can be created -----

  /** Every entry names a tag, no key comes twice, and the library creates each. */
  ghost predicate Creatable(es: seq<Entry>, replies: nat -> CreateReply) {
    KeysDistinct(es) && forall i :: 0 <= i < |es| ==> es[i].tag != "" && replies(i) == Created(true)
  }

  lemma OneMoreCreatable(es: seq<Entry>, i: nat, replies: nat -> CreateReply, tags: map<string, TagEntry>)
    requires i < |es| && HoldsFirst(tags, es, i) && HoldsOnly(tags, es, i) && Creatable(es[..i], replies)
    ensures Creatable(es[..i + 1], replies) <==>
      es[i].tag != "" && es[i].key !in tags && replies(i) == Created(true)
    ensures Creatable(es, replies) ==> Creatable(es[..i + 1], replies)
  {
    var s := es[..i + 1];
    assert s[i] == es[i] && forall k :: 0 <= k < i ==> s[k] == es[..i][k] == es[k];
    if es[i].key in tags {
      var k :| 0 <= k < i && es[..i][k].key == es[i].key;
      assert s[k].key == s[i].key;
    }
  }

  lemma OneMoreHeld(tags: map<string, TagEntry>, tags': map<string, TagEntry>, es: seq<Entry>, i: nat)
    requires i < |es| && HoldsFirst(tags, es, i) && HoldsOnly(tags, es, i) && es[i].key !in tags
    requires es[i].key in tags' && tags' == tags[es[i].key := tags'[es[i].key]]
    requires tags'[es[i].key].valueType == es[i].valueType
    ensures HoldsFirst(tags', es, i + 1) && HoldsOnly(tags', es, i + 1)
  {
    assert es[..i + 1] == es[..i] + [es[i]];
    forall k | k in tags'
      ensures HasKey(es[..i + 1], k)
    {
      KeyInEither(es[..i], [es[i]], k);
      if k !in tags {
        assert [es[i]][0].key == k;
      }
    }
  }

  lemma {:induction false} KeyIsNotEmpty(ms: seq<EquipmentMapping>, i: nat)
    requires i < |AllEntries(ms)|
    ensures AllEntries(ms)[i].key != ""
  {
    var n := |ms| - 1;
    if i < |AllEntries(ms[..n])| {
      KeyIsNotEmpty(ms[..n], i);
    } else {
      var (role, index) := SlotAt(ms[n], i - |AllEntries(ms[..n])|);
      assert |TagKey(ms[n].id, role, index)| > 0;
    }
  }

  lemma KeysAreNotEmpty(ms: seq<EquipmentMapping>)
    ensures forall i :: 0 <= i < |AllEntries(ms)| ==> AllEntries(ms)[i].key != ""
  {
    forall i | 0 <= i < |AllEntries(ms)|
      ensures AllEntries(ms)[i].key != ""
    {
      KeyIsNotEmpty(ms, i);
    }
  }

  /** With distinct equipment ids the only causes of a failed tag creation are an empty
      tag name and the library. */
  lemma DistinctIdsNeverClash(ms: seq<EquipmentMapping>, replies: nat -> CreateReply)
    requires forall p, q :: 0 <= p < q < |ms| ==> ms[p].id != ms[q].id
    ensures Creatable(AllEntries(ms), replies) <==>
      forall i :: 0 <= i < |AllEntries(ms)| ==> AllEntries(ms)[i].tag != "" && replies(i) == Created(true)
  {
    KeysDistinctIff(ms);
  }

  /** A faulted adapter with something bound would rebind exactly the ids it exposes. */
  lemma ReconnectTakesOwnIds(a: EipAdapter)
    requires a.Valid() && a.state == Faulted && a.bound != []
    ensures IdsOf(FreshAll(MappedAll(SpecsOf(a.config.equipment)))) == ExposedIds(a.View())
  {
    BindAnewSameIds(StatesOf(a.bound), SpecsOf(a.config.equipment));
  }

  /** Through a poll, an item's machine fault is what its fault tag read if its whole
      refresh succeeded, and otherwise exactly what it was. */
  lemma PollChangesFaultOnlyByReading(ms: seq<EquipmentMapping>, es: seq<EquipmentState>, device: Device,
                                      i: nat, j: nat, p: nat)
    requires |es| == |ms| && p < |ms| && IsCut(PlanOf(ms), ReadsOf(ms, device), i, j)
    ensures AtCut(es, PlanOf(ms), ReadsOf(ms, device), i, j)[p].fault ==
      if p < i && ms[p].fault.mapped
      then device(p, ReadCount(ms[p]) - 1).Raw? && IsNonZero(ms[p].fault.valueType, device(p, ReadCount(ms[p]) - 1))
      else es[p].fault
  {
    var got, n := ReadsOf(ms, device), |Points(ms[p])|;
    CountIsPoints(ms, device);
    assert FaultComesLast(PlanOf(ms)[p]);
    CutFault(es, PlanOf(ms), got, i, j, p);
    if p < i && ms[p].fault.mapped {
      assert Points(ms[p])[n - 1] == FaultSignal;
      PointsAt(ms, device, p);
      assert got(p, n - 1).Some?;
    }
  }

  /** The answer is not zero, as the tag's type reads it. */
  predicate IsNonZero(t: ValueType, reply: ReadReply)
    requires reply.Raw?
  {
    match t
    case BoolValue => reply.uint8 != 0
    case DintValue => reply.int32 != 0
    case RealValue => reply.float32 != 0.0
  }

  /** Through a poll, an item runs if its state tag lies within the cut and answered
      non-zero, is stopped if it answered zero, and otherwise is what it was. */
  lemma PollChangesStateOnlyByReading(ms: seq<EquipmentMapping>, es: seq<EquipmentState>, device: Device,
                                      i: nat, j: nat, p: nat)
    requires |es| == |ms| && p < |ms| && IsCut(PlanOf(ms), ReadsOf(ms, device), i, j)
    ensures var n := |ms[p].telemetry|;
      AtCut(es, PlanOf(ms), ReadsOf(ms, device), i, j)[p].operational ==
        if ms[p].state.mapped && (p < i || (p == i && n < j))
        then (if device(p, n).Raw? && IsNonZero(ms[p].state.valueType, device(p, n)) then Running else Stopped)
        else es[p].operational
  {
    var n := |ms[p].telemetry|;
    PointsAt(ms, device, p);
    CutReadsWithin(es, PlanOf(ms), ReadsOf(ms, device), i, j, p);
    CutState(es, PlanOf(ms), ReadsOf(ms, device), i, j, p, if ms[p].state.mapped then n else |Points(ms[p])|);
  }

  /** A telemetry name shows what its last mapping within the cut answered, as the tag's
      type reads it. */
  lemma PollShowsTelemetry(ms: seq<EquipmentMapping>, es: seq<EquipmentState>, device: Device, i: nat, j: nat, p: nat, q: nat)
    requires |es| == |ms| && p < |ms| && IsCut(PlanOf(ms), ReadsOf(ms, device), i, j)
    requires q < |ms[p].telemetry| && (p < i || (p == i && q < j))
    requires forall r :: q < r < |ms[p].telemetry| && (p < i || r < j) ==> ms[p].telemetry[r].name != ms[p].telemetry[q].name
    ensures
      var t, reply, e := ms[p].telemetry[q], device(p, q), AtCut(es, PlanOf(ms), ReadsOf(ms, device), i, j)[p];
      && reply.Raw? && t.name in e.telemetry
      && e.telemetry[t.name] == TelemetryPoint(t.name,
           if t.valueType == RealValue then reply.float32
           else if t.valueType == DintValue then reply.int32 as real
           else if reply.uint8 == 0 then 0.0 else 1.0, t.unit)
  {
    var plan, got := PlanOf(ms), ReadsOf(ms, device);
    PointsAt(ms, device, p);
    CutReadsWithin(es, plan, got, i, j, p);
    assert got(p, q).Some?;
    CutShowsLastRead(es, plan, got, i, j, p, q);
  }

  /** A name that no mapping within the cut has keeps its point, or stays without one. */
  lemma PollKeepsUnread(ms: seq<EquipmentMapping>, es: seq<EquipmentState>, device: Device, i: nat, j: nat, p: nat, name: string)
    requires |es| == |ms| && p < |ms| && IsCut(PlanOf(ms), ReadsOf(ms, device), i, j)
    requires forall q :: 0 <= q < |ms[p].telemetry| && (p < i || (p == i && q < j)) ==> ms[p].telemetry[q].name != name
    ensures var t' := AtCut(es, PlanOf(ms), ReadsOf(ms, device), i, j)[p].telemetry;
      if name in es[p].telemetry then name in t' && t'[name] == es[p].telemetry[name] else name !in t'
  {
    PointsAt(ms, device, p);
    CutKeepsUnread(es, PlanOf(ms), ReadsOf(ms, device), i, j, p, name);
  }

  /** How many reads an item takes: its telemetry, and each signal that is mapped. */
  function ReadCount(m: EquipmentMapping): nat {
    |m.telemetry| + (if m.state.mapped then 1 else 0) + (if m.fault.mapped then 1 else 0)
  }

  lemma CountIsPoints(ms: seq<EquipmentMapping>, device: Device)
    ensures forall p :: 0 <= p < |ms| ==> |PlanOf(ms)[p]| == ReadCount(ms[p])
  {
    forall p | 0 <= p < |ms|
      ensures |PlanOf(ms)[p]| == ReadCount(ms[p])
    {
      PointsAt(ms, device, p);
    }
  }

  /** A poll ends at the first read the library fails, and reads everything if it fails none. */
  lemma PollEndsAtFirstFailure(ms: seq<EquipmentMapping>, device: Device, i: nat, j: nat)
    requires IsCut(PlanOf(ms), ReadsOf(ms, device), i, j)
    ensures i <= |ms| && (i < |ms| ==> j < ReadCount(ms[i]) && device(i, j).ReadFails?)
    ensures forall p: nat, q: nat :: (p < i && q < ReadCount(ms[p])) || (p == i < |ms| && q < j) ==> device(p, q).Raw?
  {
    forall p: nat, q: nat | p < |ms| && q < ReadCount(ms[p])
      ensures ReadsOf(ms, device)(p, q).None? <==> device(p, q).ReadFails?
    {
      PointsAt(ms, device, p);
    }
    CountIsPoints(ms, device);
  }

  // ----- what a command sends -----

  /** The integer a set command sends for a parameter that fits 32 bits is the nearest,
      halves going away from zero. */
  lemma DintIsNearest(command: string, x: real, n: int)
    requires IsSetCommand(command) && -2147483648.5 < x < 2147483647.5
    ensures var sent := CommandPayload(DintValue, command, x);
      && sent.PutInt32? && -0x8000_0000 <= sent.n < 0x8000_0000
      && -0.5 <= sent.n as real - x <= 0.5
      && AbsR(sent.n as real - x) <= AbsR(n as real - x)
      && (AbsR(sent.n as real - x) == AbsR(n as real - x) ==> AbsR(n as real) <= AbsR(sent.n as real))
  {
    RoundedIsNearest(x, n);
  }

  lemma RoundedIsNearest(x: real, n: int)
    ensures -0.5 <= Lround(x) as real - x <= 0.5
    ensures AbsR(Lround(x) as real - x) <= AbsR(n as real - x)
    ensures AbsR(Lround(x) as real - x) == AbsR(n as real - x) ==> AbsR(n as real) <= AbsR(Lround(x) as real)
  {
    RoundedWithinHalf(x);
    var l := Lround(x);
    if n > l {
      assert n as real >= l as real + 1.0;
    } else if n < l {
      assert n as real <= l as real - 1.0;
    }
  }

  lemma RoundedWithinHalf(x: real)
    ensures x >= 0.0 ==> Lround(x) >= 0 && -0.5 < Lround(x) as real - x <= 0.5
    ensures x < 0.0 ==> Lround(x) <= 0 && -0.5 <= Lround(x) as real - x < 0.5
  {
  }

  /** An integer parameter of 32 bits is sent unchanged; one that does not fit is sent as
      the 32-bit integer congruent to it. */
  lemma DintSendsIntegers(command: string, n: int)
    requires IsSetCommand(command)
    ensures var sent := CommandPayload(DintValue, command, n as real);
      && sent.PutInt32? && (-0x8000_0000 <= n < 0x8000_0000 ==> sent.n == n)
      && -0x8000_0000 <= sent.n < 0x8000_0000 && (sent.n - n) % 0x1_0000_0000 == 0
  {
  }

  /** A plain command sends one, a set command its parameter: the number itself to a real
      tag, its truth to a bool tag. */
  lemma PayloadMeans(command: string, x: real)
    ensures IsSetCommand(command) ==> CommandPayload(RealValue, command, x) == PutFloat32(x)
    ensures IsSetCommand(command) && x != 0.0 ==> CommandPayload(BoolValue, command, x) == PutUint8(1)
    ensures IsSetCommand(command) && x == 0.0 ==> CommandPayload(BoolValue, command, x) == PutUint8(0)
    ensures !IsSetCommand(command) ==>
      && CommandPayload(BoolValue, command, x) == PutUint8(1)
      && CommandPayload(DintValue, command, x) == PutInt32(1)
      && CommandPayload(RealValue, command, x) == PutFloat32(1.0)
  {
  }
}
