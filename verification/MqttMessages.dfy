/** How MQTT messages change equipment, and why the lossy queue shows the same values as
    a lossless one. */
module MqttMessages {
  import opened Domain
  import opened MqttQueue

  datatype Encoding = JsonPointer | NumberText | BooleanText

  datatype TelemetryMapping = TelemetryMapping(name: string, topic: string, unit: string,
                                               encoding: Encoding, jsonPointer: string, qos: int)

  datatype SignalMapping = SignalMapping(topic: string, encoding: Encoding, jsonPointer: string, qos: int, mapped: bool)

  datatype CommandMapping = CommandMapping(command: string, topic: string, bodyTemplate: string, qos: int, retain: bool)

  datatype EquipmentMapping = EquipmentMapping(
    id: string, typ: string, capabilities: seq<string>, commands: seq<CommandMapping>,
    telemetry: seq<TelemetryMapping>, state: SignalMapping, fault: SignalMapping)

  /** parseDoublePayload: the number in a payload, if it holds one. */
  type Parser = (string, Encoding, string) -> Option<real>

  // ----- applying one message -----

  predicate Hits(t: TelemetryMapping, m: Message, parse: Parser) {
    t.topic == m.topic && parse(m.payload, t.encoding, t.jsonPointer).Some?
  }

  /** The first n telemetry mappings, in order. */
  function WithPoints(e: EquipmentState, ts: seq<TelemetryMapping>, m: Message, parse: Parser, n: nat): EquipmentState
    requires n <= |ts|
  {
    if n == 0 then e else
      var e' := WithPoints(e, ts, m, parse, n - 1);
      var t := ts[n - 1];
      if Hits(t, m, parse) then WithTelemetry(e', t.name, parse(m.payload, t.encoding, t.jsonPointer).value, t.unit)
      else e'
  }

  /** parseBoolPayload is "not zero" of the number. */
  function SignalRead(s: SignalMapping, m: Message, parse: Parser): Option<bool> {
    if !s.mapped || s.topic != m.topic then None else
      match parse(m.payload, s.encoding, s.jsonPointer)
      case None => None
      case Some(v) => Some(v != 0.0)
  }

  function WithSignals(e: EquipmentState, q: EquipmentMapping, m: Message, parse: Parser): EquipmentState {
    var running, fault := SignalRead(q.state, m, parse), SignalRead(q.fault, m, parse);
    e.(operational := if running.Some? then OperationalOf(running.value) else e.operational,
       fault := if fault.Some? then fault.value else e.fault)
  }

  function WithMessage(e: EquipmentState, q: EquipmentMapping, m: Message, parse: Parser): EquipmentState {
    WithSignals(WithPoints(e, q.telemetry, m, parse, |q.telemetry|), q, m, parse)
  }

  function AllWithMessage(es: seq<EquipmentState>, qs: seq<EquipmentMapping>, m: Message,
                          parse: Parser): (r: seq<EquipmentState>)
    requires |es| == |qs|
    ensures |r| == |es|
  {
    seq(|es|, i requires 0 <= i < |es| => WithMessage(es[i], qs[i], m, parse))
  }

  function AllWithMessages(es: seq<EquipmentState>, qs: seq<EquipmentMapping>, ms: seq<Message>,
                           parse: Parser): (r: seq<EquipmentState>)
    requires |es| == |qs|
    ensures |r| == |es|
    decreases |ms|
  {
    if ms == [] then es
    else AllWithMessage(AllWithMessages(es, qs, ms[..|ms| - 1], parse), qs, ms[|ms| - 1], parse)
  }

  // ----- what messages do, by topic and payload alone -----

  /** One message decides a mapped signal if its topic is the signal's and its payload
      parses: set if the number is not zero, cleared if it is. Any other leaves it. */
  lemma MessageSetsSignals(e: EquipmentState, q: EquipmentMapping, m: Message, parse: Parser)
    ensures var e' := WithMessage(e, q, m, parse);
      var f, r := parse(m.payload, q.fault.encoding, q.fault.jsonPointer), parse(m.payload, q.state.encoding, q.state.jsonPointer);
      && e'.fault == (if q.fault.mapped && q.fault.topic == m.topic && f.Some? then f.value != 0.0 else e.fault)
      && e'.operational == (if q.state.mapped && q.state.topic == m.topic && r.Some?
                            then (if r.value != 0.0 then Running else Stopped) else e.operational)
      && e'.id == e.id && e'.typ == e.typ && e'.capabilities == e.capabilities
  {
    PointsLeaveRest(e, q.telemetry, m, parse, |q.telemetry|);
  }

  lemma {:induction false} PointsLeaveRest(e: EquipmentState, ts: seq<TelemetryMapping>, m: Message, parse: Parser, n: nat)
    requires n <= |ts|
    ensures WithPoints(e, ts, m, parse, n) == e.(telemetry := WithPoints(e, ts, m, parse, n).telemetry)
  {
    if n > 0 {
      PointsLeaveRest(e, ts, m, parse, n - 1);
    }
  }

  /** Mapping k of the name is the last that the message reaches with a number. */
  ghost predicate LastReached(ts: seq<TelemetryMapping>, m: Message, parse: Parser, n: nat, k: nat)
    requires n <= |ts|
  {
    && k < n && ts[k].topic == m.topic && parse(m.payload, ts[k].encoding, ts[k].jsonPointer).Some?
    && forall l :: k < l < n && ts[l].name == ts[k].name && ts[l].topic == m.topic ==>
         parse(m.payload, ts[l].encoding, ts[l].jsonPointer).None?
  }

  /** No mapping of the name is reached with a number. */
  ghost predicate NoneReached(ts: seq<TelemetryMapping>, name: string, m: Message, parse: Parser, n: nat)
    requires n <= |ts|
  {
    forall l :: 0 <= l < n && ts[l].name == name && ts[l].topic == m.topic ==>
      parse(m.payload, ts[l].encoding, ts[l].jsonPointer).None?
  }

  lemma {:induction false} MessageSetsPoint(e: EquipmentState, ts: seq<TelemetryMapping>, m: Message, parse: Parser, n: nat, k: nat)
    requires n <= |ts| && LastReached(ts, m, parse, n, k)
    ensures var t, t' := ts[k], WithPoints(e, ts, m, parse, n).telemetry;
      t.name in t' && t'[t.name] == TelemetryPoint(t.name, parse(m.payload, t.encoding, t.jsonPointer).value, t.unit)
  {
    if k < n - 1 {
      MessageSetsPoint(e, ts, m, parse, n - 1, k);
    }
  }

  lemma {:induction false} MessageLeavesPoint(e: EquipmentState, ts: seq<TelemetryMapping>, name: string, m: Message, parse: Parser,
                                              n: nat)
    requires n <= |ts| && NoneReached(ts, name, m, parse, n)
    ensures var t' := WithPoints(e, ts, m, parse, n).telemetry;
      if name in e.telemetry then name in t' && t'[name] == e.telemetry[name] else name !in t'
  {
    if n > 0 {
      MessageLeavesPoint(e, ts, name, m, parse, n - 1);
    }
  }

  /** Message w is the last on the mapped signal's topic whose payload parses. */
  ghost predicate LastDecides(s: SignalMapping, ms: seq<Message>, parse: Parser, w: nat) {
    && s.mapped && w < |ms| && ms[w].topic == s.topic && parse(ms[w].payload, s.encoding, s.jsonPointer).Some?
    && forall k :: w < k < |ms| && ms[k].topic == s.topic ==> parse(ms[k].payload, s.encoding, s.jsonPointer).None?
  }

  ghost predicate NoneDecides(s: SignalMapping, ms: seq<Message>, parse: Parser) {
    s.mapped ==> forall k :: 0 <= k < |ms| && ms[k].topic == s.topic ==> parse(ms[k].payload, s.encoding, s.jsonPointer).None?
  }

  /** After a list of messages, the fault and the state are what the last message that
      decides them says. */
  lemma {:induction false} SignalsShowLastMessage(es: seq<EquipmentState>, qs: seq<EquipmentMapping>, i: nat, ms: seq<Message>,
                                                  parse: Parser, w: nat)
    requires |es| == |qs| && i < |es|
    ensures var f, e := qs[i].fault, AllWithMessages(es, qs, ms, parse)[i];
      LastDecides(f, ms, parse, w) ==> e.fault == (parse(ms[w].payload, f.encoding, f.jsonPointer).value != 0.0)
    ensures var s, e := qs[i].state, AllWithMessages(es, qs, ms, parse)[i];
      LastDecides(s, ms, parse, w) ==>
        e.operational == if parse(ms[w].payload, s.encoding, s.jsonPointer).value != 0.0 then Running else Stopped
    decreases |ms|
  {
    if w < |ms| {
      var before := ms[..|ms| - 1];
      MessageSetsSignals(AllWithMessages(es, qs, before, parse)[i], qs[i], ms[|ms| - 1], parse);
      if w < |ms| - 1 {
        SignalsShowLastMessage(es, qs, i, before, parse, w);
        EarlierDecides(qs[i].fault, ms, parse, w);
        EarlierDecides(qs[i].state, ms, parse, w);
      }
    }
  }

  lemma EarlierDecides(s: SignalMapping, ms: seq<Message>, parse: Parser, w: nat)
    requires w < |ms| - 1
    ensures LastDecides(s, ms, parse, w) ==> LastDecides(s, ms[..|ms| - 1], parse, w)
  {
  }

  /** A signal that no message decides is what it was. */
  lemma {:induction false} SignalsKeptUndecided(es: seq<EquipmentState>, qs: seq<EquipmentMapping>, i: nat, ms: seq<Message>,
                                                parse: Parser)
    requires |es| == |qs| && i < |es|
    ensures NoneDecides(qs[i].fault, ms, parse) ==> AllWithMessages(es, qs, ms, parse)[i].fault == es[i].fault
    ensures NoneDecides(qs[i].state, ms, parse) ==> AllWithMessages(es, qs, ms, parse)[i].operational == es[i].operational
    decreases |ms|
  {
    if ms != [] {
      var before := ms[..|ms| - 1];
      SignalsKeptUndecided(es, qs, i, before, parse);
      MessageSetsSignals(AllWithMessages(es, qs, before, parse)[i], qs[i], ms[|ms| - 1], parse);
    }
  }

  /** A telemetry name shows the number of the last message that reaches one of its
      mappings, by the last mapping of the name it reaches. */
  lemma {:induction false} PointShowsLastMessage(es: seq<EquipmentState>, qs: seq<EquipmentMapping>, i: nat, ms: seq<Message>,
                                                 parse: Parser, w: nat, k: nat)
    requires |es| == |qs| && i < |es| && w < |ms|
    requires LastReached(qs[i].telemetry, ms[w], parse, |qs[i].telemetry|, k)
    requires forall v :: w < v < |ms| ==>
      NoneReached(qs[i].telemetry, qs[i].telemetry[k].name, ms[v], parse, |qs[i].telemetry|)
    ensures var t, t' := qs[i].telemetry[k], AllWithMessages(es, qs, ms, parse)[i].telemetry;
      t.name in t' && t'[t.name] == TelemetryPoint(t.name, parse(ms[w].payload, t.encoding, t.jsonPointer).value, t.unit)
    decreases |ms|
  {
    var z, ts := |ms| - 1, qs[i].telemetry;
    var e := AllWithMessages(es, qs, ms[..z], parse)[i];
    if w < z {
      PointShowsLastMessage(es, qs, i, ms[..z], parse, w, k);
      MessageLeavesPoint(e, ts, ts[k].name, ms[z], parse, |ts|);
    } else {
      MessageSetsPoint(e, ts, ms[w], parse, |ts|, k);
    }
  }

  /** And one that no message reaches keeps its point, or stays without one. */
  lemma {:induction false} PointKeptUnreached(es: seq<EquipmentState>, qs: seq<EquipmentMapping>, i: nat, ms: seq<Message>,
                                              parse: Parser, name: string)
    requires |es| == |qs| && i < |es|
    requires forall v :: 0 <= v < |ms| ==> NoneReached(qs[i].telemetry, name, ms[v], parse, |qs[i].telemetry|)
    ensures var t' := AllWithMessages(es, qs, ms, parse)[i].telemetry;
      if name in es[i].telemetry then name in t' && t'[name] == es[i].telemetry[name] else name !in t'
    decreases |ms|
  {
    if ms != [] {
      var z := |ms| - 1;
      PointKeptUnreached(es, qs, i, ms[..z], parse, name);
      MessageLeavesPoint(AllWithMessages(es, qs, ms[..z], parse)[i], qs[i].telemetry, name, ms[z], parse, |qs[i].telemetry|);
    }
  }

  // ----- slots: the places a message can write -----

  datatype Slot = PointSlot(item: nat, name: string) | StateSlot(item: nat) | FaultSlot(item: nat)

  datatype SlotValue = NoPoint | PointIs(p: TelemetryPoint) | StateIs(o: OperationalState) | FaultIs(f: bool)

  function ValueOf(es: seq<EquipmentState>, s: Slot): SlotValue
    requires s.item < |es|
  {
    var e := es[s.item];
    match s
    case PointSlot(_, name) => if name in e.telemetry then PointIs(e.telemetry[name]) else NoPoint
    case StateSlot(_) => StateIs(e.operational)
    case FaultSlot(_) => FaultIs(e.fault)
  }

  /** The last of the first n mappings of the name that the message hits. */
  function PointWritten(ts: seq<TelemetryMapping>, name: string, m: Message, parse: Parser, n: nat): Option<SlotValue>
    requires n <= |ts|
  {
    if n == 0 then None
    else if ts[n - 1].name == name && Hits(ts[n - 1], m, parse) then
      Some(PointIs(TelemetryPoint(name, parse(m.payload, ts[n - 1].encoding, ts[n - 1].jsonPointer).value, ts[n - 1].unit)))
    else PointWritten(ts, name, m, parse, n - 1)
  }

  /** What a message writes into a slot, if anything. */
  function Written(qs: seq<EquipmentMapping>, s: Slot, m: Message, parse: Parser): Option<SlotValue>
    requires s.item < |qs|
  {
    var q := qs[s.item];
    match s
    case PointSlot(_, name) => PointWritten(q.telemetry, name, m, parse, |q.telemetry|)
    case StateSlot(_) =>
      var r := SignalRead(q.state, m, parse);
      if r.Some? then Some(StateIs(OperationalOf(r.value))) else None
    case FaultSlot(_) =>
      var r := SignalRead(q.fault, m, parse);
      if r.Some? then Some(FaultIs(r.value)) else None
  }

  lemma {:induction false} PointsWriteSlot(e: EquipmentState, ts: seq<TelemetryMapping>, name: string, m: Message,
                                           parse: Parser, n: nat)
    requires n <= |ts|
    ensures var e' := WithPoints(e, ts, m, parse, n);
      && e'.operational == e.operational && e'.fault == e.fault && e'.id == e.id
      && e'.typ == e.typ && e'.capabilities == e.capabilities
      && ValueOf([e'], PointSlot(0, name)) ==
           match PointWritten(ts, name, m, parse, n)
           case Some(v) => v
           case None => ValueOf([e], PointSlot(0, name))
  {
    if n > 0 {
      PointsWriteSlot(e, ts, name, m, parse, n - 1);
    }
  }

  lemma MessageWritesSlot(es: seq<EquipmentState>, qs: seq<EquipmentMapping>, s: Slot, m: Message, parse: Parser)
    requires |es| == |qs| && s.item < |es|
    ensures ValueOf(AllWithMessage(es, qs, m, parse), s) ==
      match Written(qs, s, m, parse)
      case Some(v) => v
      case None => ValueOf(es, s)
  {
    var i := s.item;
    var name := if s.PointSlot? then s.name else "";
    PointsWriteSlot(es[i], qs[i].telemetry, name, m, parse, |qs[i].telemetry|);
  }

  /** What a list of messages leaves in a slot, if any of them writes it. */
  function LastWrite(qs: seq<EquipmentMapping>, s: Slot, ms: seq<Message>, parse: Parser): Option<SlotValue>
    requires s.item < |qs|
    decreases |ms|
  {
    if ms == [] then None else
      var w := Written(qs, s, ms[|ms| - 1], parse);
      if w.Some? then w else LastWrite(qs, s, ms[..|ms| - 1], parse)
  }

  /** The last writer wins. */
  lemma {:induction false} LastWriterWins(es: seq<EquipmentState>, qs: seq<EquipmentMapping>, s: Slot, ms: seq<Message>,
                                          parse: Parser)
    requires |es| == |qs| && s.item < |es|
    ensures ValueOf(AllWithMessages(es, qs, ms, parse), s) ==
      match LastWrite(qs, s, ms, parse)
      case Some(v) => v
      case None => ValueOf(es, s)
    decreases |ms|
  {
    if ms != [] {
      var before := ms[..|ms| - 1];
      LastWriterWins(es, qs, s, before, parse);
      MessageWritesSlot(AllWithMessages(es, qs, before, parse), qs, s, ms[|ms| - 1], parse);
    }
  }

  lemma {:induction false} MessagesInTwoParts(es: seq<EquipmentState>, qs: seq<EquipmentMapping>, a: seq<Message>, b: seq<Message>,
                                              parse: Parser)
    requires |es| == |qs|
    ensures AllWithMessages(es, qs, a + b, parse) == AllWithMessages(AllWithMessages(es, qs, a, parse), qs, b, parse)
    decreases |b|
  {
    if b == [] {
      assert a + b == a;
    } else {
      var z := |b| - 1;
      assert (a + b)[..|a| + z] == a + b[..z];
      MessagesInTwoParts(es, qs, a, b[..z], parse);
    }
  }

  // ----- lossy equals lossless -----

  /** w is the last position below n whose message writes the slot. */
  ghost predicate IsLastWriter(qs: seq<EquipmentMapping>, s: Slot, ms: seq<Message>, n: nat, parse: Parser, w: nat)
    requires s.item < |qs| && n <= |ms|
  {
    && w < n && Written(qs, s, ms[w], parse).Some?
    && forall k :: w < k < n ==> Written(qs, s, ms[k], parse).None?
  }

  lemma {:induction false} LastWriteIsAt(qs: seq<EquipmentMapping>, s: Slot, ms: seq<Message>, n: nat, parse: Parser, w: nat)
    requires s.item < |qs| && n <= |ms| && IsLastWriter(qs, s, ms, n, parse, w)
    ensures LastWrite(qs, s, ms[..n], parse) == Written(qs, s, ms[w], parse)
    decreases n
  {
    assert ms[..n][..n - 1] == ms[..n - 1];
    if w < n - 1 {
      LastWriteIsAt(qs, s, ms, n - 1, parse, w);
    }
  }

  lemma {:induction false} NoWriteBelow(qs: seq<EquipmentMapping>, s: Slot, ms: seq<Message>, parse: Parser)
    requires s.item < |qs|
    requires forall k :: 0 <= k < |ms| ==> Written(qs, s, ms[k], parse).None?
    ensures LastWrite(qs, s, ms, parse) == None
    decreases |ms|
  {
    if ms != [] {
      NoWriteBelow(qs, s, ms[..|ms| - 1], parse);
    }
  }

  /** A subsequence that contains the last writer has the same last write. */
  lemma {:induction false} SubsequenceKeepsLastWrite(qs: seq<EquipmentMapping>, s: Slot, ms: seq<Message>, at: seq<nat>, n: nat,
                                                     parse: Parser, w: nat)
    requires s.item < |qs| && n <= |ms| && IsLastWriter(qs, s, ms, n, parse, w)
    requires forall k :: 0 <= k < |at| ==> at[k] < n
    requires forall j, k :: 0 <= j < k < |at| ==> at[j] < at[k]
    requires w in at
    ensures LastWrite(qs, s, Selected(ms, at), parse) == Written(qs, s, ms[w], parse)
    decreases |at|
  {
    var z := |at| - 1;
    var chosen := Selected(ms, at);
    assert chosen[z] == ms[at[z]];
    if at[z] != w {
      assert chosen[..z] == Selected(ms, at[..z]);
      assert w in at[..z] by {
        var k :| 0 <= k < |at| && at[k] == w;
        assert at[..z][k] == w;
      }
      SubsequenceKeepsLastWrite(qs, s, ms, at[..z], n, parse, w);
    }
  }

  /** At any moment of a session: if no consumed arrival writes the slot, or the last one
      that does is among the last MAX_QUEUED arrivals, the slot shows what applying every
      consumed arrival in order would show. */
  lemma LossyShowsLossless(es: seq<EquipmentState>, qs: seq<EquipmentMapping>, s: Slot, h: History, parse: Parser)
    requires |es| == |qs| && s.item < |es| && HistoryOk(h)
    requires
      || (forall k :: 0 <= k < h.front ==> Written(qs, s, h.arrivals[k], parse).None?)
      || exists w: nat :: w < |h.arrivals| <= w + MAX_QUEUED && IsLastWriter(qs, s, h.arrivals, h.front, parse, w)
    ensures ValueOf(AllWithMessages(es, qs, Taken(h), parse), s) ==
            ValueOf(AllWithMessages(es, qs, h.arrivals[..h.front], parse), s)
  {
    LastWriterWins(es, qs, s, Taken(h), parse);
    LastWriterWins(es, qs, s, h.arrivals[..h.front], parse);
    if w: nat :| w < |h.arrivals| <= w + MAX_QUEUED && IsLastWriter(qs, s, h.arrivals, h.front, parse, w) {
      assert w in h.taken;
      SubsequenceKeepsLastWrite(qs, s, h.arrivals, h.taken, h.front, parse, w);
      LastWriteIsAt(qs, s, h.arrivals, h.front, parse, w);
    } else {
      NoWriteBelow(qs, s, Taken(h), parse);
      NoWriteBelow(qs, s, h.arrivals[..h.front], parse);
    }
  }

  /** For every interleaving of arrivals and polls that ends with the queue drained. */
  lemma DrainedSessionShowsLossless(es: seq<EquipmentState>, qs: seq<EquipmentMapping>, s: Slot, events: seq<Event>, parse: Parser)
    requires |es| == |qs| && s.item < |es|
    requires AfterEvents(Link([], []), events).queue == []
    requires
      || (forall k :: 0 <= k < |Arrivals(events)| ==> Written(qs, s, Arrivals(events)[k], parse).None?)
      || exists w: nat :: w < |Arrivals(events)| <= w + MAX_QUEUED &&
           IsLastWriter(qs, s, Arrivals(events), |Arrivals(events)|, parse, w)
    ensures ValueOf(AllWithMessages(es, qs, AfterEvents(Link([], []), events).taken, parse), s) ==
            ValueOf(AllWithMessages(es, qs, Arrivals(events), parse), s)
  {
    QueueIsSuffix(events);
    var h := HistoryOf(events);
    assert h.front == |h.arrivals| && h.arrivals[..h.front] == h.arrivals;
    LossyShowsLossless(es, qs, s, h, parse);
  }

  lemma RecentWrite(qs: seq<EquipmentMapping>, s: Slot, ms: seq<Message>, parse: Parser, w: nat)
    requires s.item < |qs| && IsLastWriter(qs, s, ms, |ms|, parse, w)
    ensures LastWrite(qs, s, Recent(ms), parse) ==
      if |ms| <= w + MAX_QUEUED then Written(qs, s, ms[w], parse) else None
  {
    var r := Recent(ms);
    var d := |ms| - |r|;
    assert forall k :: 0 <= k < |r| ==> r[k] == ms[d + k];
    if |ms| <= w + MAX_QUEUED {
      assert IsLastWriter(qs, s, r, |r|, parse, w - d);
      LastWriteIsAt(qs, s, r, |r|, parse, w - d);
      assert r[..|r|] == r;
    } else {
      NoWriteBelow(qs, s, r, parse);
    }
  }

  /** For a burst nobody polls the condition is exact: when the last write changes the
      slot, the drained slot shows the lossless value if and only if the last writer is
      among the last MAX_QUEUED arrivals. */
  lemma {:induction false} BurstShowsLosslessIff(es: seq<EquipmentState>, qs: seq<EquipmentMapping>, s: Slot, ms: seq<Message>,
                                                 parse: Parser, w: nat)
    requires |es| == |qs| && s.item < |es|
    requires IsLastWriter(qs, s, ms, |ms|, parse, w)
    requires Written(qs, s, ms[w], parse) != Some(ValueOf(es, s))
    ensures
      var drained := AfterEvents(Link([], []), AllArrive(ms) + Takes(|Recent(ms)|)).taken;
      ValueOf(AllWithMessages(es, qs, drained, parse), s) == ValueOf(AllWithMessages(es, qs, ms, parse), s)
      <==> |ms| <= w + MAX_QUEUED
  {
    BurstThenDrain(ms);
    var r := Recent(ms);
    RecentWrite(qs, s, ms, parse, w);
    LastWriterWins(es, qs, s, r, parse);
    LastWriterWins(es, qs, s, ms, parse);
    assert ms[..|ms|] == ms;
    LastWriteIsAt(qs, s, ms, |ms|, parse, w);
  }

  // ----- the exact condition, over every interleaving -----

  /** Every interleaving in which just these messages arrive and the queue ends empty
      leaves the slot as applying them all would. */
  ghost predicate AlwaysLossless(es: seq<EquipmentState>, qs: seq<EquipmentMapping>, s: Slot, ms: seq<Message>, parse: Parser)
    requires |es| == |qs| && s.item < |es|
  {
    forall events :: Arrivals(events) == ms && AfterEvents(Link([], []), events).queue == [] ==>
      ValueOf(AllWithMessages(es, qs, AfterEvents(Link([], []), events).taken, parse), s) ==
      ValueOf(AllWithMessages(es, qs, ms, parse), s)
  }

  /** The slot's last writer is among the last MAX_QUEUED. */
  ghost predicate LastWriterRecent(qs: seq<EquipmentMapping>, s: Slot, ms: seq<Message>, parse: Parser)
    requires s.item < |qs|
  {
    exists w: nat :: w < |ms| <= w + MAX_QUEUED && IsLastWriter(qs, s, ms, |ms|, parse, w)
  }

  /** Nothing any of the messages writes differs from what the slot held. */
  ghost predicate NeverChanges(es: seq<EquipmentState>, qs: seq<EquipmentMapping>, s: Slot, ms: seq<Message>, parse: Parser)
    requires |es| == |qs| && s.item < |es|
  {
    forall k :: 0 <= k < |ms| ==> Written(qs, s, ms[k], parse) in {None, Some(ValueOf(es, s))}
  }

  lemma {:induction false} UnchangedByAny(es: seq<EquipmentState>, qs: seq<EquipmentMapping>, s: Slot, ms: seq<Message>, parse: Parser)
    requires |es| == |qs| && s.item < |es| && NeverChanges(es, qs, s, ms, parse)
    ensures LastWrite(qs, s, ms, parse) in {None, Some(ValueOf(es, s))}
    ensures ValueOf(AllWithMessages(es, qs, ms, parse), s) == ValueOf(es, s)
    decreases |ms|
  {
    if ms != [] {
      UnchangedByAny(es, qs, s, ms[..|ms| - 1], parse);
    }
    LastWriterWins(es, qs, s, ms, parse);
  }

  lemma SelectionNeverChanges(es: seq<EquipmentState>, qs: seq<EquipmentMapping>, s: Slot, events: seq<Event>, parse: Parser)
    requires |es| == |qs| && s.item < |es| && NeverChanges(es, qs, s, Arrivals(events), parse)
    ensures NeverChanges(es, qs, s, AfterEvents(Link([], []), events).taken, parse)
  {
    QueueIsSuffix(events);
  }

  /** Where the last writer is not recent, the messages up to it may be all lost but for
      the first n: the slot is left as these n leave it. */
  lemma LateBurstShows(es: seq<EquipmentState>, qs: seq<EquipmentMapping>, s: Slot, ms: seq<Message>, parse: Parser, n: nat)
    requires |es| == |qs| && s.item < |es| && n + MAX_QUEUED <= |ms|
    requires forall k :: |ms| - MAX_QUEUED <= k < |ms| ==> Written(qs, s, ms[k], parse).None?
    ensures ValueOf(AllWithMessages(es, qs, AfterEvents(Link([], []), LateBurst(ms, n)).taken, parse), s) ==
            ValueOf(AllWithMessages(es, qs, ms[..n], parse), s)
  {
    LateBurstTakes(ms, n);
    var r := Recent(ms[n..]);
    assert forall k :: 0 <= k < |r| ==> r[k] == ms[|ms| - MAX_QUEUED + k];
    MessagesInTwoParts(es, qs, ms[..n], r, parse);
    NoWriteBelow(qs, s, r, parse);
    LastWriterWins(AllWithMessages(es, qs, ms[..n], parse), qs, s, r, parse);
  }

  /** The last of the first n messages to write the slot, if any does. */
  lemma {:induction false} LastWriter(qs: seq<EquipmentMapping>, s: Slot, ms: seq<Message>, n: nat, parse: Parser) returns (w: Option<nat>)
    requires s.item < |qs| && n <= |ms|
    ensures w.Some? ==> IsLastWriter(qs, s, ms, n, parse, w.value)
    ensures w.None? ==> forall k :: 0 <= k < n ==> Written(qs, s, ms[k], parse).None?
  {
    if n == 0 {
      w := None;
    } else if Written(qs, s, ms[n - 1], parse).Some? {
      w := Some(n - 1);
    } else {
      w := LastWriter(qs, s, ms, n - 1, parse);
    }
  }

  /** A number of messages, no more than up to the last writer, after which the slot is
      not what it is in the end. */
  lemma {:induction false} SomePrefixDiffers(es: seq<EquipmentState>, qs: seq<EquipmentMapping>, s: Slot, ms: seq<Message>,
                                             parse: Parser, w: nat) returns (n: nat)
    requires |es| == |qs| && s.item < |es| && IsLastWriter(qs, s, ms, |ms|, parse, w)
    requires !NeverChanges(es, qs, s, ms, parse)
    ensures n <= w
    ensures ValueOf(AllWithMessages(es, qs, ms[..n], parse), s) != ValueOf(AllWithMessages(es, qs, ms, parse), s)
  {
    LastWriterWins(es, qs, s, ms, parse);
    LastWriteIsAt(qs, s, ms, |ms|, parse, w);
    assert ms[..|ms|] == ms;
    if Written(qs, s, ms[w], parse) != Some(ValueOf(es, s)) {
      n := 0;
      assert ms[..0] == [];
    } else {
      var k :| 0 <= k < |ms| && Written(qs, s, ms[k], parse) !in {None, Some(ValueOf(es, s))};
      n := k + 1;
      LastWriteIsAt(qs, s, ms, n, parse, k);
      LastWriterWins(es, qs, s, ms[..n], parse);
    }
  }

  /** When the bounded queue never shows: whatever the interleaving, the drained slot has
      its lossless value exactly if its last writer is among the last MAX_QUEUED arrivals
      or no arrival writes anything but what the slot held. */
  lemma AlwaysLosslessIff(es: seq<EquipmentState>, qs: seq<EquipmentMapping>, s: Slot, ms: seq<Message>, parse: Parser)
    requires |es| == |qs| && s.item < |es|
    ensures AlwaysLossless(es, qs, s, ms, parse) <==>
      LastWriterRecent(qs, s, ms, parse) || NeverChanges(es, qs, s, ms, parse)
  {
    if LastWriterRecent(qs, s, ms, parse) {
      forall events | Arrivals(events) == ms && AfterEvents(Link([], []), events).queue == []
        ensures ValueOf(AllWithMessages(es, qs, AfterEvents(Link([], []), events).taken, parse), s) ==
                ValueOf(AllWithMessages(es, qs, ms, parse), s)
      {
        DrainedSessionShowsLossless(es, qs, s, events, parse);
      }
    } else if NeverChanges(es, qs, s, ms, parse) {
      forall events | Arrivals(events) == ms && AfterEvents(Link([], []), events).queue == []
        ensures ValueOf(AllWithMessages(es, qs, AfterEvents(Link([], []), events).taken, parse), s) ==
                ValueOf(AllWithMessages(es, qs, ms, parse), s)
      {
        SelectionNeverChanges(es, qs, s, events, parse);
        UnchangedByAny(es, qs, s, AfterEvents(Link([], []), events).taken, parse);
        UnchangedByAny(es, qs, s, ms, parse);
      }
    } else {
      var w := LastWriter(qs, s, ms, |ms|, parse);
      var n := SomePrefixDiffers(es, qs, s, ms, parse, w.value);
      LateBurstShows(es, qs, s, ms, parse, n);
      LateBurstTakes(ms, n);
      NotAlwaysLossless(es, qs, s, ms, parse, LateBurst(ms, n));
    }
  }

  lemma NotAlwaysLossless(es: seq<EquipmentState>, qs: seq<EquipmentMapping>, s: Slot, ms: seq<Message>, parse: Parser,
                          events: seq<Event>)
    requires |es| == |qs| && s.item < |es|
    requires Arrivals(events) == ms && AfterEvents(Link([], []), events).queue == []
    requires ValueOf(AllWithMessages(es, qs, AfterEvents(Link([], []), events).taken, parse), s) !=
             ValueOf(AllWithMessages(es, qs, ms, parse), s)
    ensures !AlwaysLossless(es, qs, s, ms, parse)
  {
  }
}
