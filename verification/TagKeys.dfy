/** The keys of the EtherNet/IP tag table: equipment id, role and index joined by '|'.
    They can be taken apart from the right whatever the equipment id holds. */
module TagKeys {
  import opened Domain
  import opened EipSessions
  import opened Texts

  datatype Role = Tel | Cmd | State | Fault

  function RoleText(r: Role): (s: string)
    ensures '|' !in s
  {
    match r
    case Tel => "tel"
    case Cmd => "cmd"
    case State => "state"
    case Fault => "fault"
  }

  function TagKey(equipmentId: string, role: Role, index: nat): string {
    equipmentId + "|" + RoleText(role) + "|" + Decimal(index)
  }

  function RoleOf(s: string): Option<Role> {
    if s == "tel" then Some(Tel)
    else if s == "cmd" then Some(Cmd)
    else if s == "state" then Some(State)
    else if s == "fault" then Some(Fault)
    else None
  }

  datatype Slot = Slot(equipmentId: string, role: Role, index: nat)

  /** The last '|' starts the index, the one before it the role. */
  function DecodedKey(key: string): Option<Slot> {
    var i := LastIndex(key, '|', |key|);
    if i < 0 then None else
      var j := LastIndex(key, '|', i);
      if j < 0 then None else
        match RoleOf(key[j + 1..i])
        case None => None
        case Some(r) => Some(Slot(key[..j], r, Parsed(key[i + 1..])))
  }

  lemma RoleRoundTrip(r: Role)
    ensures RoleOf(RoleText(r)) == Some(r)
  {
  }

  lemma LastIndexInPrefix(s: string, t: string, c: char, n: nat)
    requires n <= |s| && n <= |t| && s[..n] == t[..n]
    ensures LastIndex(s, c, n) == LastIndex(t, c, n)
  {
  }

  /** The key round trip, for every equipment id, one with '|' in it included. */
  lemma KeyRoundTrip(id: string, role: Role, index: nat)
    ensures DecodedKey(TagKey(id, role, index)) == Some(Slot(id, role, index))
  {
    var key, r, d := TagKey(id, role, index), RoleText(role), Decimal(index);
    var left := id + "|" + r;
    assert '|' !in d;
    assert key == left + ['|'] + d;
    LastIndexOfJoined(left, '|', d);
    var i := |left|;
    assert left == id + ['|'] + r;
    LastIndexOfJoined(id, '|', r);
    assert key[..i] == left == left[..i];
    LastIndexInPrefix(key, left, '|', i);
    assert key[|id| + 1..i] == left[|id| + 1..] == r;
    assert key[..|id|] == left[..|id|] == id;
    assert key[i + 1..] == d;
    RoleRoundTrip(role);
    ParsedDecimal(index);
  }

  lemma KeyIsInjective(id: string, role: Role, index: nat, id': string, role': Role, index': nat)
    requires TagKey(id, role, index) == TagKey(id', role', index')
    ensures id == id' && role == role' && index == index'
  {
    KeyRoundTrip(id, role, index);
    KeyRoundTrip(id', role', index');
  }

  // ----- the entries a configuration asks for -----

  datatype TagMapping = TagMapping(name: string, tag: string, valueType: ValueType, unit: string)

  datatype SignalMapping = SignalMapping(tag: string, valueType: ValueType, mapped: bool)

  datatype EquipmentMapping = EquipmentMapping(
    id: string, typ: string, capabilities: seq<string>,
    commands: seq<TagMapping>, telemetry: seq<TagMapping>,
    state: SignalMapping, fault: SignalMapping)

  datatype Entry = Entry(key: string, tag: string, valueType: ValueType)

  function TagEntries(id: string, role: Role, ts: seq<TagMapping>): (es: seq<Entry>)
    ensures |es| == |ts|
    ensures forall i :: 0 <= i < |es| ==> es[i] == Entry(TagKey(id, role, i), ts[i].tag, ts[i].valueType)
  {
    seq(|ts|, i requires 0 <= i < |ts| => Entry(TagKey(id, role, i), ts[i].tag, ts[i].valueType))
  }

  function SignalEntries(id: string, role: Role, s: SignalMapping): seq<Entry> {
    if s.mapped then [Entry(TagKey(id, role, 0), s.tag, s.valueType)] else []
  }

  /** Telemetry, then commands, then the state, then the fault. */
  function EntriesOf(m: EquipmentMapping): seq<Entry> {
    TagEntries(m.id, Tel, m.telemetry) + TagEntries(m.id, Cmd, m.commands)
    + SignalEntries(m.id, State, m.state) + SignalEntries(m.id, Fault, m.fault)
  }

  function AllEntries(ms: seq<EquipmentMapping>): seq<Entry> {
    if ms == [] then [] else AllEntries(ms[..|ms| - 1]) + EntriesOf(ms[|ms| - 1])
  }

  ghost predicate HasKey(es: seq<Entry>, key: string) {
    exists i :: 0 <= i < |es| && es[i].key == key
  }

  ghost predicate KeysDistinct(es: seq<Entry>) {
    forall i, j :: 0 <= i < j < |es| ==> es[i].key != es[j].key
  }

  /** The mapping asks for a tag in this slot. */
  predicate Uses(m: EquipmentMapping, role: Role, index: nat) {
    match role
    case Tel => index < |m.telemetry|
    case Cmd => index < |m.commands|
    case State => m.state.mapped && index == 0
    case Fault => m.fault.mapped && index == 0
  }

  function Position(m: EquipmentMapping, role: Role, index: nat): (i: nat)
    requires Uses(m, role, index)
    ensures i < |EntriesOf(m)| && EntriesOf(m)[i].key == TagKey(m.id, role, index)
  {
    match role
    case Tel => index
    case Cmd => |m.telemetry| + index
    case State => |m.telemetry| + |m.commands|
    case Fault => |m.telemetry| + |m.commands| + (if m.state.mapped then 1 else 0)
  }

  function SlotAt(m: EquipmentMapping, i: nat): (s: (Role, nat))
    requires i < |EntriesOf(m)|
    ensures Uses(m, s.0, s.1) && EntriesOf(m)[i].key == TagKey(m.id, s.0, s.1) && Position(m, s.0, s.1) == i
  {
    if i < |m.telemetry| then (Tel, i)
    else if i < |m.telemetry| + |m.commands| then (Cmd, i - |m.telemetry|)
    else if i == |m.telemetry| + |m.commands| && m.state.mapped then (State, 0)
    else (Fault, 0)
  }

  lemma EntriesOfOneAreDistinct(m: EquipmentMapping)
    ensures KeysDistinct(EntriesOf(m))
  {
    forall i, j | 0 <= i < j < |EntriesOf(m)|
      ensures EntriesOf(m)[i].key != EntriesOf(m)[j].key
    {
      var (r, k) := SlotAt(m, i);
      var (r', k') := SlotAt(m, j);
      if EntriesOf(m)[i].key == EntriesOf(m)[j].key {
        KeyIsInjective(m.id, r, k, m.id, r', k');
      }
    }
  }

  /** Two mappings ask for a common key exactly if they have one id and both map
      telemetry, or both map commands, or both the state, or both the fault. */
  predicate Clash(m: EquipmentMapping, n: EquipmentMapping) {
    && m.id == n.id
    && ((m.telemetry != [] && n.telemetry != []) || (m.commands != [] && n.commands != [])
        || (m.state.mapped && n.state.mapped) || (m.fault.mapped && n.fault.mapped))
  }

  lemma ClashIff(m: EquipmentMapping, n: EquipmentMapping)
    ensures Clash(m, n) <==>
      exists i, j :: 0 <= i < |EntriesOf(m)| && 0 <= j < |EntriesOf(n)| && EntriesOf(m)[i].key == EntriesOf(n)[j].key
  {
    if Clash(m, n) {
      var r := if m.telemetry != [] && n.telemetry != [] then Tel
               else if m.commands != [] && n.commands != [] then Cmd
               else if m.state.mapped && n.state.mapped then State else Fault;
      var i, j := Position(m, r, 0), Position(n, r, 0);
      assert EntriesOf(m)[i].key == EntriesOf(n)[j].key;
    }
    if i, j :| 0 <= i < |EntriesOf(m)| && 0 <= j < |EntriesOf(n)| && EntriesOf(m)[i].key == EntriesOf(n)[j].key {
      var (r, k) := SlotAt(m, i);
      var (r', k') := SlotAt(n, j);
      KeyIsInjective(m.id, r, k, n.id, r', k');
      assert Uses(m, r, k) && Uses(n, r, k);
    }
  }

  ghost predicate NoClash(ms: seq<EquipmentMapping>) {
    forall p, q :: 0 <= p < q < |ms| ==> !Clash(ms[p], ms[q])
  }

  lemma {:induction false} MappingOfKey(ms: seq<EquipmentMapping>, key: string) returns (p: nat)
    requires HasKey(AllEntries(ms), key)
    ensures p < |ms| && HasKey(EntriesOf(ms[p]), key)
  {
    var n := |ms| - 1;
    KeyInEither(AllEntries(ms[..n]), EntriesOf(ms[n]), key);
    if HasKey(AllEntries(ms[..n]), key) {
      p := MappingOfKey(ms[..n], key);
    } else {
      p := n;
    }
  }

  lemma {:induction false} KeyOfMapping(ms: seq<EquipmentMapping>, key: string, p: nat)
    requires p < |ms| && HasKey(EntriesOf(ms[p]), key)
    ensures HasKey(AllEntries(ms), key)
  {
    var n := |ms| - 1;
    KeyInEither(AllEntries(ms[..n]), EntriesOf(ms[n]), key);
    if p < n {
      KeyOfMapping(ms[..n], key, p);
    }
  }

  lemma KeyInEither(a: seq<Entry>, b: seq<Entry>, key: string)
    ensures HasKey(a + b, key) <==> HasKey(a, key) || HasKey(b, key)
  {
    if i :| 0 <= i < |a| && a[i].key == key {
      assert (a + b)[i].key == key;
    }
    if i :| 0 <= i < |b| && b[i].key == key {
      assert (a + b)[|a| + i].key == key;
    }
  }

  /** None of b's keys is among a's. */
  ghost predicate KeysNew(a: seq<Entry>, b: seq<Entry>) {
    forall j :: 0 <= j < |b| ==> !HasKey(a, b[j].key)
  }

  lemma DistinctOfBoth(a: seq<Entry>, b: seq<Entry>)
    ensures KeysDistinct(a + b) <==> KeysDistinct(a) && KeysDistinct(b) && KeysNew(a, b)
  {
    var s := a + b;
    if KeysDistinct(s) {
      assert forall i :: 0 <= i < |a| ==> s[i] == a[i];
      assert forall j :: 0 <= j < |b| ==> s[|a| + j] == b[j];
    }
  }

  ghost predicate LastIsNew(ms: seq<EquipmentMapping>)
    requires ms != []
  {
    forall p :: 0 <= p < |ms| - 1 ==> !Clash(ms[p], ms[|ms| - 1])
  }

  lemma NoClashOfLast(ms: seq<EquipmentMapping>)
    requires ms != []
    ensures NoClash(ms) <==> NoClash(ms[..|ms| - 1]) && LastIsNew(ms)
  {
  }

  /** No key is asked for twice exactly when no two mappings clash; in particular
      distinct equipment ids never meet the duplicate-key failure. */
  lemma {:induction false} KeysDistinctIff(ms: seq<EquipmentMapping>)
    ensures KeysDistinct(AllEntries(ms)) <==> NoClash(ms)
  {
    if ms != [] {
      var n := |ms| - 1;
      KeysDistinctIff(ms[..n]);
      EntriesOfOneAreDistinct(ms[n]);
      DistinctOfBoth(AllEntries(ms[..n]), EntriesOf(ms[n]));
      NoClashOfLast(ms);
      LastIsNewIff(ms);
    }
  }

  lemma LastIsNewIff(ms: seq<EquipmentMapping>)
    requires ms != []
    ensures LastIsNew(ms) <==> KeysNew(AllEntries(ms[..|ms| - 1]), EntriesOf(ms[|ms| - 1]))
  {
    var n := |ms| - 1;
    var last := EntriesOf(ms[n]);
    if p :| 0 <= p < n && Clash(ms[p], ms[n]) {
      ClashIff(ms[p], ms[n]);
      var i, j :| 0 <= i < |EntriesOf(ms[p])| && 0 <= j < |last| && EntriesOf(ms[p])[i].key == last[j].key;
      KeyOfMapping(ms[..n], last[j].key, p);
    }
    if j :| 0 <= j < |last| && HasKey(AllEntries(ms[..n]), last[j].key) {
      var p := MappingOfKey(ms[..n], last[j].key);
      ClashIff(ms[p], ms[n]);
    }
  }
}
