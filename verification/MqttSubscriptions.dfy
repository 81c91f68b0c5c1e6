/** Which topics an MQTT adapter subscribes to, and with which quality of service: the
    merge of subscribeMappedTopics and the check of validateMappedTopics. */
module MqttSubscriptions {
  import opened Domain
  import opened MqttMessages

  datatype Wanted = Wanted(topic: string, qos: int)

  datatype Sub = Sub(topic: string, qos: int)

  /** Section 4.3 of OASIS MQTT 3.1.1 knows the levels 0, 1 and 2. */
  function ClampQos(qos: int): int {
    if qos < 0 then 0 else if qos > 2 then 2 else qos
  }

  /** Section 4.7.1 of OASIS MQTT 3.1.1. */
  predicate HasWildcard(topic: string) {
    '+' in topic || '#' in topic
  }

  /** The levels the broker knows are kept, and any other goes to the nearest of them. */
  lemma ClampIsNearestLevel(qos: int, level: int)
    requires 0 <= level <= 2
    ensures 0 <= ClampQos(qos) <= 2
    ensures qos <= ClampQos(qos) ==> ClampQos(qos) - qos <= AbsI(level - qos)
    ensures qos >= ClampQos(qos) ==> qos - ClampQos(qos) <= AbsI(level - qos)
    ensures qos == level ==> ClampQos(qos) == level
  {
  }

  function AbsI(n: int): nat {
    if n < 0 then -n else n
  }

  lemma WildcardIff(topic: string)
    ensures HasWildcard(topic) <==> exists i :: 0 <= i < |topic| && (topic[i] == '+' || topic[i] == '#')
  {
  }

  // ----- what the mappings ask for -----

  function WantedPoints(ts: seq<TelemetryMapping>): (ws: seq<Wanted>)
    ensures |ws| == |ts| && forall i :: 0 <= i < |ws| ==> ws[i] == Wanted(ts[i].topic, ts[i].qos)
  {
    seq(|ts|, i requires 0 <= i < |ts| => Wanted(ts[i].topic, ts[i].qos))
  }

  function WantedSignal(s: SignalMapping): seq<Wanted> {
    if s.mapped then [Wanted(s.topic, s.qos)] else []
  }

  function WantedOf(q: EquipmentMapping): seq<Wanted> {
    WantedPoints(q.telemetry) + WantedSignal(q.state) + WantedSignal(q.fault)
  }

  function AllWanted(qs: seq<EquipmentMapping>): seq<Wanted> {
    if qs == [] then [] else AllWanted(qs[..|qs| - 1]) + WantedOf(qs[|qs| - 1])
  }

  /** One of the mapping's telemetry, state or fault topics, at its level. */
  ghost predicate AsksFor(q: EquipmentMapping, w: Wanted) {
    || (exists i :: 0 <= i < |q.telemetry| && w.topic == q.telemetry[i].topic && w.qos == q.telemetry[i].qos)
    || (q.state.mapped && w.topic == q.state.topic && w.qos == q.state.qos)
    || (q.fault.mapped && w.topic == q.fault.topic && w.qos == q.fault.qos)
  }

  lemma WantedIff(q: EquipmentMapping, w: Wanted)
    ensures w in WantedOf(q) <==> AsksFor(q, w)
  {
    var points := WantedPoints(q.telemetry);
    assert w in WantedOf(q) <==> w in points || w in WantedSignal(q.state) || w in WantedSignal(q.fault);
    if i :| 0 <= i < |q.telemetry| && w.topic == q.telemetry[i].topic && w.qos == q.telemetry[i].qos {
      assert points[i] == w;
    }
  }

  ghost predicate SomeAsksFor(qs: seq<EquipmentMapping>, w: Wanted) {
    exists k :: 0 <= k < |qs| && AsksFor(qs[k], w)
  }

  /** What is wanted is what the mappings ask for, all of it and nothing else. */
  lemma {:induction false} AllWantedIff(qs: seq<EquipmentMapping>, w: Wanted)
    ensures w in AllWanted(qs) <==> SomeAsksFor(qs, w)
  {
    if qs != [] {
      var n := |qs| - 1;
      AllWantedIff(qs[..n], w);
      WantedIff(qs[n], w);
      assert SomeAsksFor(qs, w) <==> SomeAsksFor(qs[..n], w) || AsksFor(qs[n], w);
    }
  }

  // ----- what the merge must give -----

  /** The largest clamped level asked for a topic, or -1 if nobody asks. */
  function MaxQos(ws: seq<Wanted>, topic: string): int {
    if ws == [] then -1 else
      var rest := MaxQos(ws[..|ws| - 1], topic);
      var w := ws[|ws| - 1];
      if w.topic == topic && ClampQos(w.qos) > rest then ClampQos(w.qos) else rest
  }

  lemma {:induction false} MaxQosIsLargest(ws: seq<Wanted>, topic: string)
    ensures forall w :: w in ws && w.topic == topic ==> ClampQos(w.qos) <= MaxQos(ws, topic)
    ensures MaxQos(ws, topic) == -1 ==> forall w :: w in ws ==> w.topic != topic
    ensures MaxQos(ws, topic) != -1 ==> exists w :: w in ws && w.topic == topic && ClampQos(w.qos) == MaxQos(ws, topic)
    ensures -1 <= MaxQos(ws, topic) <= 2
  {
    if ws != [] {
      var n := |ws| - 1;
      MaxQosIsLargest(ws[..n], topic);
      assert forall w :: w in ws <==> w in ws[..n] || w == ws[n];
    }
  }

  /** The order of the mappings plays no part: equal requests give equal levels. */
  lemma MaxQosIgnoresOrder(ws: seq<Wanted>, ws': seq<Wanted>, topic: string)
    requires forall w :: w in ws <==> w in ws'
    ensures MaxQos(ws, topic) == MaxQos(ws', topic)
  {
    MaxQosIsLargest(ws, topic);
    MaxQosIsLargest(ws', topic);
  }

  ghost predicate DistinctTopics(subs: seq<Sub>) {
    forall i, j :: 0 <= i < j < |subs| ==> subs[i].topic != subs[j].topic
  }

  ghost predicate Listed(subs: seq<Sub>, topic: string) {
    exists i :: 0 <= i < |subs| && subs[i].topic == topic
  }

  ghost predicate Asked(ws: seq<Wanted>, topic: string) {
    exists w :: w in ws && w.topic == topic
  }

  /** One subscription per topic asked for, at the largest clamped level. The level the
      merge stores may exceed 2; the session clamps it when it subscribes. */
  ghost predicate Merged(subs: seq<Sub>, ws: seq<Wanted>) {
    && DistinctTopics(subs)
    && (forall i :: 0 <= i < |subs| ==> subs[i].topic != "" && ClampQos(subs[i].qos) == MaxQos(ws, subs[i].topic))
    && (forall w :: w in ws && w.topic != "" ==> Listed(subs, w.topic))
  }

  /** Nothing is subscribed that nobody asked for. */
  lemma OnlyAskedTopics(subs: seq<Sub>, ws: seq<Wanted>, i: nat)
    requires Merged(subs, ws) && i < |subs|
    ensures Asked(ws, subs[i].topic)
  {
    MaxQosIsLargest(ws, subs[i].topic);
  }

  /** What reaches the broker: one request per topic asked for, at the largest level. */
  ghost predicate Effective(sent: seq<Sub>, ws: seq<Wanted>) {
    && DistinctTopics(sent)
    && (forall i :: 0 <= i < |sent| ==> sent[i].topic != "" && 0 <= sent[i].qos == MaxQos(ws, sent[i].topic))
    && (forall w :: w in ws && w.topic != "" ==> Listed(sent, w.topic))
  }

  lemma ClampedIsEffective(subs: seq<Sub>, ws: seq<Wanted>, sent: seq<Sub>)
    requires Merged(subs, ws) && |sent| == |subs|
    requires forall i :: 0 <= i < |subs| ==> sent[i] == Sub(subs[i].topic, ClampQos(subs[i].qos))
    ensures Effective(sent, ws)
  {
    forall w | w in ws && w.topic != ""
      ensures Listed(sent, w.topic)
    {
      assert Listed(subs, w.topic);
      var i :| 0 <= i < |subs| && subs[i].topic == w.topic;
      assert sent[i].topic == w.topic;
    }
  }

  /** The topics the broker is asked for are those some mapping names, but for empty ones;
      each at a level from 0 to 2 that is one of those asked for it, and none is larger. */
  lemma SubscribedIff(sent: seq<Sub>, qs: seq<EquipmentMapping>, topic: string)
    requires Effective(sent, AllWanted(qs))
    ensures Listed(sent, topic) <==> topic != "" && exists qos :: SomeAsksFor(qs, Wanted(topic, qos))
    ensures forall i :: 0 <= i < |sent| ==> 0 <= sent[i].qos <= 2
    ensures forall i, qos :: 0 <= i < |sent| && SomeAsksFor(qs, Wanted(sent[i].topic, qos)) ==> qos <= sent[i].qos || qos > 2
  {
    var ws := AllWanted(qs);
    if Listed(sent, topic) {
      var i :| 0 <= i < |sent| && sent[i].topic == topic;
      MaxQosIsLargest(ws, topic);
      var w :| w in ws && w.topic == topic;
      AllWantedIff(qs, w);
      assert w == Wanted(topic, w.qos);
    }
    if qos :| topic != "" && SomeAsksFor(qs, Wanted(topic, qos)) {
      AllWantedIff(qs, Wanted(topic, qos));
    }
    forall i | 0 <= i < |sent|
      ensures 0 <= sent[i].qos <= 2
      ensures forall qos :: SomeAsksFor(qs, Wanted(sent[i].topic, qos)) ==> qos <= sent[i].qos || qos > 2
    {
      MaxQosIsLargest(ws, sent[i].topic);
      forall qos | SomeAsksFor(qs, Wanted(sent[i].topic, qos))
        ensures qos <= sent[i].qos || qos > 2
      {
        AllWantedIff(qs, Wanted(sent[i].topic, qos));
      }
    }
  }

  predicate NoWildcards(ws: seq<Wanted>) {
    forall i :: 0 <= i < |ws| ==> !HasWildcard(ws[i].topic)
  }

  function IndexOfTopic(subs: seq<Sub>, topic: string, k: nat): (i: Option<nat>)
    requires k <= |subs|
    ensures i.Some? ==> k <= i.value < |subs| && subs[i.value].topic == topic
    ensures forall j :: k <= j < |subs| && (i.Some? ==> j < i.value) ==> subs[j].topic != topic
    decreases |subs| - k
  {
    if k == |subs| then None else if subs[k].topic == topic then Some(k) else IndexOfTopic(subs, topic, k + 1)
  }

  /** The add step: the level is clamped when the topic is new and not when it rises. */
  function Added(subs: seq<Sub>, w: Wanted): seq<Sub> {
    if w.topic == "" then subs else
      match IndexOfTopic(subs, w.topic, 0)
      case Some(i) => if w.qos > subs[i].qos then subs[i := Sub(w.topic, w.qos)] else subs
      case None => subs + [Sub(w.topic, ClampQos(w.qos))]
  }

  lemma MaxQosGrows(ws: seq<Wanted>, w: Wanted, topic: string)
    ensures MaxQos(ws + [w], topic) ==
      if w.topic == topic && ClampQos(w.qos) > MaxQos(ws, topic) then ClampQos(w.qos) else MaxQos(ws, topic)
  {
  }

  lemma AddKeepsTopics(subs: seq<Sub>, w: Wanted)
    requires DistinctTopics(subs)
    ensures DistinctTopics(Added(subs, w)) && |subs| <= |Added(subs, w)| <= |subs| + 1
    ensures forall i :: 0 <= i < |subs| ==> Added(subs, w)[i].topic == subs[i].topic
    ensures |Added(subs, w)| > |subs| ==> Added(subs, w)[|subs|].topic == w.topic
    ensures forall t :: Listed(subs, t) ==> Listed(Added(subs, w), t)
    ensures w.topic != "" ==> Listed(Added(subs, w), w.topic)
  {
    var i := IndexOfTopic(subs, w.topic, 0);
    if w.topic != "" {
      assert Added(subs, w)[if i.Some? then i.value else |subs|].topic == w.topic;
    }
    forall t | Listed(subs, t)
      ensures Listed(Added(subs, w), t)
    {
      var k :| 0 <= k < |subs| && subs[k].topic == t;
      assert Added(subs, w)[k].topic == t;
    }
  }

  lemma OldTopicKeepsLevel(subs: seq<Sub>, ws: seq<Wanted>, w: Wanted, i: nat)
    requires DistinctTopics(subs) && i < |subs| && subs[i].topic != ""
    requires ClampQos(subs[i].qos) == MaxQos(ws, subs[i].topic)
    ensures ClampQos(Added(subs, w)[i].qos) == MaxQos(ws + [w], subs[i].topic)
  {
  }

  lemma NewTopicGetsLevel(ws: seq<Wanted>, w: Wanted)
    requires forall v :: v in ws ==> v.topic != w.topic
    ensures MaxQos(ws + [w], w.topic) == ClampQos(w.qos)
  {
    MaxQosGrows(ws, w, w.topic);
    MaxQosIsLargest(ws, w.topic);
  }

  lemma AddKeepsLevel(subs: seq<Sub>, ws: seq<Wanted>, w: Wanted, i: nat)
    requires Merged(subs, ws) && i < |Added(subs, w)|
    ensures ClampQos(Added(subs, w)[i].qos) == MaxQos(ws + [w], Added(subs, w)[i].topic)
  {
    AddKeepsTopics(subs, w);
    if i < |subs| {
      OldTopicKeepsLevel(subs, ws, w, i);
    } else {
      forall v | v in ws
        ensures v.topic != w.topic
      {
        assert v.topic != "" ==> Listed(subs, v.topic);
      }
      NewTopicGetsLevel(ws, w);
    }
  }

  lemma AddKeepsMerged(subs: seq<Sub>, ws: seq<Wanted>, w: Wanted)
    requires Merged(subs, ws)
    ensures Merged(Added(subs, w), ws + [w])
  {
    var subs', ws' := Added(subs, w), ws + [w];
    AddKeepsTopics(subs, w);
    assert w in ws' && forall v :: v in ws ==> v in ws';
    forall i | 0 <= i < |subs'|
      ensures subs'[i].topic != "" && ClampQos(subs'[i].qos) == MaxQos(ws', subs'[i].topic)
    {
      AddKeepsLevel(subs, ws, w, i);
    }
  }

  /** The merge of all requests, one after the other. */
  function MergeAll(ws: seq<Wanted>): seq<Sub> {
    if ws == [] then [] else Added(MergeAll(ws[..|ws| - 1]), ws[|ws| - 1])
  }

  lemma {:induction false} MergeAllIsMerged(ws: seq<Wanted>)
    ensures Merged(MergeAll(ws), ws)
  {
    if ws != [] {
      var n := |ws| - 1;
      MergeAllIsMerged(ws[..n]);
      AddKeepsMerged(MergeAll(ws[..n]), ws[..n], ws[n]);
      assert ws[..n] + [ws[n]] == ws;
    }
  }

  lemma MergeOneMore(ws: seq<Wanted>, k: nat)
    requires k < |ws|
    ensures MergeAll(ws[..k + 1]) == Added(MergeAll(ws[..k]), ws[k])
  {
    assert ws[..k + 1][..k] == ws[..k];
  }

  /** The collecting half of subscribeMappedTopics; it fails only on a wildcard. */
  method CollectTopics(ws: seq<Wanted>) returns (subs: Option<seq<Sub>>)
    ensures subs.Some? ==> subs.value == MergeAll(ws) && Merged(subs.value, ws)
    ensures subs.Some? <==> NoWildcards(ws)
  {
    var found: seq<Sub> := [];
    for k := 0 to |ws|
      invariant found == MergeAll(ws[..k])
      invariant forall i :: 0 <= i < k ==> !HasWildcard(ws[i].topic)
    {
      if ws[k].topic != "" && HasWildcard(ws[k].topic) {
        return None;
      }
      MergeOneMore(ws, k);
      found := AddTopic(found, ws[k]);
    }
    assert ws[..|ws|] == ws;
    MergeAllIsMerged(ws);
    return Some(found);
  }

  method AddTopic(subs: seq<Sub>, w: Wanted) returns (subs': seq<Sub>)
    ensures subs' == Added(subs, w)
  {
    if w.topic == "" {
      return subs;
    }
    for k := 0 to |subs|
      invariant IndexOfTopic(subs, w.topic, 0) == IndexOfTopic(subs, w.topic, k)
    {
      if subs[k].topic == w.topic {
        return if w.qos > subs[k].qos then subs[k := Sub(w.topic, w.qos)] else subs;
      }
    }
    return subs + [Sub(w.topic, ClampQos(w.qos))];
  }

  // ----- the check made first -----

  predicate ValidTopics(q: EquipmentMapping) {
    && (forall i :: 0 <= i < |q.telemetry| ==> !HasWildcard(q.telemetry[i].topic))
    && (q.state.mapped ==> !HasWildcard(q.state.topic))
    && (q.fault.mapped ==> !HasWildcard(q.fault.topic))
    && (forall i :: 0 <= i < |q.commands| ==> !HasWildcard(q.commands[i].topic))
  }

  /** A mapping passes the check exactly if no topic it asks for, and no topic of its
      commands, has a '+' or a '#'. */
  lemma ValidTopicsIff(q: EquipmentMapping)
    ensures ValidTopics(q) <==>
      && (forall w :: AsksFor(q, w) ==> '+' !in w.topic && '#' !in w.topic)
      && (forall i :: 0 <= i < |q.commands| ==> '+' !in q.commands[i].topic && '#' !in q.commands[i].topic)
  {
    assert forall i :: 0 <= i < |q.telemetry| ==> AsksFor(q, Wanted(q.telemetry[i].topic, q.telemetry[i].qos));
    assert q.state.mapped ==> AsksFor(q, Wanted(q.state.topic, q.state.qos));
    assert q.fault.mapped ==> AsksFor(q, Wanted(q.fault.topic, q.fault.qos));
  }

  /** After the check the wildcard branches of the merge cannot be reached. */
  lemma {:induction false} ValidatedTopicsHaveNoWildcards(qs: seq<EquipmentMapping>)
    requires forall k :: 0 <= k < |qs| ==> ValidTopics(qs[k])
    ensures NoWildcards(AllWanted(qs))
  {
    if qs != [] {
      var n := |qs| - 1;
      ValidatedTopicsHaveNoWildcards(qs[..n]);
      assert ValidTopics(qs[n]);
      assert NoWildcards(WantedOf(qs[n]));
    }
  }

  method ValidateMappedTopics(qs: seq<EquipmentMapping>) returns (ok: bool)
    ensures ok <==> forall k :: 0 <= k < |qs| ==> ValidTopics(qs[k])
  {
    for k := 0 to |qs|
      invariant forall j :: 0 <= j < k ==> ValidTopics(qs[j])
    {
      var valid := ValidateOne(qs[k]);
      if !valid {
        return false;
      }
    }
    return true;
  }

  method ValidateOne(q: EquipmentMapping) returns (ok: bool)
    ensures ok <==> ValidTopics(q)
  {
    for i := 0 to |q.telemetry|
      invariant forall j :: 0 <= j < i ==> !HasWildcard(q.telemetry[j].topic)
    {
      if HasWildcard(q.telemetry[i].topic) {
        return false;
      }
    }
    if (q.state.mapped && HasWildcard(q.state.topic)) || (q.fault.mapped && HasWildcard(q.fault.topic)) {
      return false;
    }
    for i := 0 to |q.commands|
      invariant forall j :: 0 <= j < i ==> !HasWildcard(q.commands[j].topic)
    {
      if HasWildcard(q.commands[i].topic) {
        return false;
      }
    }
    return true;
  }
}
