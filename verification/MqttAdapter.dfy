/** industrial/src/MqttIndustrialAdapter.cc: one broker session, its claimed client id,
    and the equipment its messages keep up to date. */
module MqttAdapters {
  import opened AdapterContract
  import opened Domain
  import opened GenericEquipments
  import opened MqttClientIds
  import opened MqttMessages
  import opened MqttQueue
  import opened MqttSessions
  import opened MqttSubscriptions
  import opened TextReplace
  import opened Texts

  datatype MqttConfig = MqttConfig(host: string, port: nat, clientId: string, password: string,
                                   equipment: seq<EquipmentMapping>)

  /** What the broker answers to one connect, and what arrives while it subscribes. */
  datatype Broker = Broker(accepted: bool, error: string, subscribed: nat -> bool, early: seq<Message>)

  /** The broker acknowledges each subscription of the merge. */
  predicate EachSubscribed(broker: Broker, qs: seq<EquipmentMapping>) {
    forall i: nat :: i < |MergeAll(AllWanted(qs))| ==> broker.subscribed(i)
  }

  /** Where any topic is mapped, some broker accepts the client and no subscription. */
  lemma SomeBrokerRefuses(qs: seq<EquipmentMapping>, w: Wanted)
    requires w in AllWanted(qs) && w.topic != ""
    ensures !EachSubscribed(Broker(true, "", (i: nat) => false, []), qs)
  {
    MergeAllIsMerged(AllWanted(qs));
    assert Listed(MergeAll(AllWanted(qs)), w.topic);
    assert !Broker(true, "", (i: nat) => false, []).subscribed(0);
  }

  const MAX_PER_POLL: nat := 512

  /** The library or a callback reports the link down at some moment of the wait. */
  predicate LinkDown(w: Wait) {
    !w.libraryUp || w.lost || !w.stillUp
  }

  function SpecOf(m: EquipmentMapping): BindSpec {
    BindSpec(m.id, m.typ, m.capabilities,
             seq(|m.commands|, i requires 0 <= i < |m.commands| => m.commands[i].command))
  }

  function SpecsOf(ms: seq<EquipmentMapping>): (ss: seq<BindSpec>)
    ensures |ss| == |ms| && forall i :: 0 <= i < |ss| ==> ss[i] == SpecOf(ms[i])
  {
    seq(|ms|, i requires 0 <= i < |ms| => SpecOf(ms[i]))
  }

  /** What a connect binds for mapping k: its id and type, stopped, without fault or
      telemetry, able to do what it lists and each command it maps. */
  lemma BindsAsMapped(ms: seq<EquipmentMapping>, k: nat)
    requires k < |ms|
    ensures var e := FreshAll(MappedAll(SpecsOf(ms)))[k];
      && e.id == ms[k].id && e.typ == ms[k].typ && e.operational == Stopped && !e.fault && e.telemetry == map[]
      && Distinct(e.capabilities)
      && forall c :: c in e.capabilities <==>
           c in ms[k].capabilities || exists l :: 0 <= l < |ms[k].commands| && ms[k].commands[l].command == c
  {
    var names := SpecOf(ms[k]).commands;
    MappedCapabilities(SpecOf(ms[k]));
    assert forall l :: 0 <= l < |names| ==> names[l] == ms[k].commands[l].command;
  }

  function HistoryWith(h: History, ms: seq<Message>): (h': History)
    requires h.front <= |h.arrivals|
    ensures h'.front <= |h'.arrivals|
    decreases |ms|
  {
    if ms == [] then h else HistoryAfter(HistoryWith(h, ms[..|ms| - 1]), Arrive(ms[|ms| - 1]))
  }

  lemma {:induction false} ArrivalsKeepHistory(h: History, ms: seq<Message>)
    requires HistoryOk(h)
    ensures HistoryOk(HistoryWith(h, ms)) && Queue(HistoryWith(h, ms)) == PushedAll(Queue(h), ms)
    ensures Taken(HistoryWith(h, ms)) == Taken(h)
    decreases |ms|
  {
    if ms != [] {
      var before := ms[..|ms| - 1];
      ArrivalsKeepHistory(h, before);
      EventKeepsHistory(HistoryWith(h, before), Arrive(ms[|ms| - 1]));
    }
  }

  // ----- what a poll does to the history -----

  /** The receive of the round fails, on a link that was up before it. */
  predicate ReceiveFails(w: Wait) {
    !w.libraryUp || w.lost
  }

  /** n rounds of receive: what arrives while it waits, and then a message is taken, if
      there is one. */
  function Rounds(h: History, waits: nat -> Wait, n: nat): (h': History)
    requires h.front <= |h.arrivals|
    ensures h'.front <= |h'.arrivals|
    decreases n
  {
    if n == 0 then h
    else HistoryAfter(HistoryWith(Rounds(h, waits, n - 1), waits(n - 1).arrivals), Take)
  }

  lemma {:induction false} RoundsGrow(h: History, waits: nat -> Wait, n: nat)
    requires h.front <= |h.arrivals|
    ensures h.arrivals <= Rounds(h, waits, n).arrivals && h.taken <= Rounds(h, waits, n).taken
  {
    if n > 0 {
      RoundsGrow(h, waits, n - 1);
      HistoryGrows(Rounds(h, waits, n - 1), waits(n - 1).arrivals);
    }
  }

  /** What happens in n rounds, one event after the other. */
  function RoundEvents(waits: nat -> Wait, n: nat): seq<Event> {
    if n == 0 then [] else RoundEvents(waits, n - 1) + AllArrive(waits(n - 1).arrivals) + [Take]
  }

  lemma {:induction false} ArrivalsAreEvents(es: seq<Event>, ms: seq<Message>)
    ensures HistoryWith(HistoryOf(es), ms) == HistoryOf(es + AllArrive(ms))
    decreases |ms|
  {
    if ms == [] {
      NoEvents(es);
    } else {
      var before, last := ms[..|ms| - 1], [Arrive(ms[|ms| - 1])];
      ArrivalsAreEvents(es, before);
      ArriveLast(ms);
      HistoryAppended(es + AllArrive(before), Arrive(ms[|ms| - 1]));
      NoEvents(AllArrive(before) + last);
      RegroupEvents(es, AllArrive(before), last, []);
      NoEvents(es + AllArrive(before) + last);
    }
  }

  /** The history of rounds is the history of their events, so what is proved of every
      interleaving of arrivals and takes is proved of the adapter's sessions. */
  lemma {:induction false} RoundsAreEvents(es: seq<Event>, waits: nat -> Wait, n: nat)
    ensures Rounds(HistoryOf(es), waits, n) == HistoryOf(es + RoundEvents(waits, n))
  {
    if n == 0 {
      NoEvents(es);
    } else {
      RoundsAreEvents(es, waits, n - 1);
      RoundIsEvents(es + RoundEvents(waits, n - 1), waits(n - 1).arrivals);
      RegroupEvents(es, RoundEvents(waits, n - 1), AllArrive(waits(n - 1).arrivals), [Take]);
    }
  }

  lemma RoundIsEvents(es: seq<Event>, ms: seq<Message>)
    ensures HistoryAfter(HistoryWith(HistoryOf(es), ms), Take) == HistoryOf(es + AllArrive(ms) + [Take])
  {
    ArrivalsAreEvents(es, ms);
    HistoryAppended(es + AllArrive(ms), Take);
  }

  lemma NoEvents(es: seq<Event>)
    ensures es + [] == es
  {
  }

  lemma RegroupEvents(a: seq<Event>, b: seq<Event>, c: seq<Event>, d: seq<Event>)
    ensures a + (b + c + d) == a + b + c + d
  {
  }

  /** The last round found no message. */
  predicate EndsIdle(h: History, waits: nat -> Wait, n: nat)
    requires h.front <= |h.arrivals|
  {
    n > 0 && |Rounds(h, waits, n).taken| < |h.taken| + n
  }

  /** A poll completes n rounds: each before the last takes a message, none fails, and
      after it either the limit is reached, the last found nothing, or the next fails. */
  ghost predicate Completes(h: History, waits: nat -> Wait, lost: bool, n: nat)
    requires h.front <= |h.arrivals|
  {
    && n <= MAX_PER_POLL && (lost ==> n == 0)
    && (forall k: nat :: k < n ==> !ReceiveFails(waits(k)))
    && (forall k: nat :: k < n ==> |Rounds(h, waits, k).taken| == |h.taken| + k)
    && (n < MAX_PER_POLL ==> lost || EndsIdle(h, waits, n) || ReceiveFails(waits(n)))
  }

  /** Rounds in progress: none failed and each took a message. */
  ghost predicate EachTook(h: History, waits: nat -> Wait, lost: bool, n: nat)
    requires h.front <= |h.arrivals|
  {
    && (lost ==> n == 0)
    && (forall k: nat :: k < n ==> !ReceiveFails(waits(k)))
    && (forall k: nat :: k <= n ==> |Rounds(h, waits, k).taken| == |h.taken| + k)
  }

  /** One more round: it takes a message too, or it is the last. */
  lemma RoundEnds(h: History, waits: nat -> Wait, lost: bool, n: nat, h': History)
    requires h.front <= |h.arrivals| && EachTook(h, waits, lost, n) && n < MAX_PER_POLL
    requires h' == if lost || ReceiveFails(waits(n)) then Rounds(h, waits, n) else Rounds(h, waits, n + 1)
    ensures lost || ReceiveFails(waits(n)) ==>
      Completes(h, waits, lost, n) && LinkFails(h, waits, lost, n) && |h'.taken| == |h.taken| + n
    ensures !lost && !ReceiveFails(waits(n)) && |h'.taken| == |h.taken| + n + 1 ==> EachTook(h, waits, lost, n + 1)
    ensures !lost && !ReceiveFails(waits(n)) && |h'.taken| == |h.taken| + n ==>
      Completes(h, waits, lost, n + 1) && (LinkFails(h, waits, lost, n + 1) <==> !waits(n).stillUp)
  {
  }

  lemma AllRoundsTook(h: History, waits: nat -> Wait, lost: bool)
    requires h.front <= |h.arrivals| && EachTook(h, waits, lost, MAX_PER_POLL)
    ensures Completes(h, waits, lost, MAX_PER_POLL) && !LinkFails(h, waits, lost, MAX_PER_POLL)
  {
  }

  /** The link is found down: lost before, by the receive that fails, or after the round
      that found nothing. */
  predicate LinkFails(h: History, waits: nat -> Wait, lost: bool, n: nat)
    requires h.front <= |h.arrivals|
  {
    lost || if EndsIdle(h, waits, n) then !waits(n - 1).stillUp else n < MAX_PER_POLL
  }

  /** Which rounds a poll completes is settled by what happens around it. */
  lemma CompletesOnce(h: History, waits: nat -> Wait, lost: bool, n: nat, n': nat)
    requires h.front <= |h.arrivals|
    requires Completes(h, waits, lost, n) && Completes(h, waits, lost, n')
    ensures n == n'
  {
  }

  lemma TakeKeepsHistory(h: History)
    requires HistoryOk(h) && Queue(h) != []
    ensures HistoryOk(HistoryAfter(h, Take)) && Queue(HistoryAfter(h, Take)) == Queue(h)[1..]
    ensures Taken(HistoryAfter(h, Take)) == Taken(h) + [Queue(h)[0]]
  {
  }

  lemma AppliedOneMore(es: seq<EquipmentState>, qs: seq<EquipmentMapping>, ms: seq<Message>, m: Message, parse: Parser)
    requires |es| == |qs|
    ensures AllWithMessages(es, qs, ms + [m], parse) == AllWithMessage(AllWithMessages(es, qs, ms, parse), qs, m, parse)
  {
  }

  class MqttAdapter {
    const id: string
    const config: MqttConfig
    const parse: Parser
    const registry: ClientIdRegistry
    const session: MqttSession
    var state: ConnectionState
    var lastError: string
    var activeClientId: string
    var bound: seq<GenericEquipment>
    // The session's arrivals so far, and what the equipment showed when it began.
    ghost var past: History
    ghost var base: seq<EquipmentState>

    constructor (id: string, config: MqttConfig, parse: Parser, registry: ClientIdRegistry)
      ensures Valid() && View() == AdapterView(id, "mqtt", Disconnected, "", []) && activeClientId == ""
      ensures this.registry == registry && this.config == config && this.parse == parse && fresh(session)
    {
      this.id, this.config, this.parse, this.registry := id, config, parse, registry;
      session := new MqttSession();
      state, lastError, activeClientId, bound := Disconnected, "", "", [];
      past, base := NOTHING_YET, [];
    }

    ghost function View(): AdapterView
      reads this`state, this`lastError, this`bound, bound
    {
      AdapterView(id, "mqtt", state, lastError, StatesOf(bound))
    }

    function Key(): string
      reads this`activeClientId
    {
      ClientKey(config.host, config.port, activeClientId)
    }

    /** While Connected, the queue is what the history says, and the equipment shows
        exactly the messages taken since the session began; the client id is claimed. */
    ghost predicate Valid()
      reads this`state, this`lastError, this`activeClientId, this`bound, this`past, this`base, registry`claimed, bound,
        session`handleOpen, session`connected, session`lost, session`queue
    {
      && OwnedOnce(bound)
      && (bound == [] || |bound| == |config.equipment|)
      && (state == Connected ==>
            lastError == "" && activeClientId != "" && Key() in registry.claimed && session.Open() && InSession())
      && (state == Disconnected ==> bound == [] && lastError == "")
      && (state != Connected ==> activeClientId == "")
    }

    ghost predicate InSession()
      reads this`bound, this`past, this`base, session`queue, bound
    {
      && HistoryOk(past) && session.queue == Queue(past)
      && |base| == |bound| == |config.equipment|
      && StatesOf(bound) == AllWithMessages(base, config.equipment, Taken(past), parse)
    }

    method ReleaseClientId()
      modifies registry`claimed
      ensures registry.claimed == if activeClientId == "" then old(registry.claimed) else old(registry.claimed) - {Key()}
    {
      if activeClientId == "" {
        return;
      }
      registry.Release(Key());
    }

    /** The reason is kept with the password, if there is one, rewritten by the scan,
        which leaves no password behind unless it can survive its replacement. */
    method EnterFault(reason: string)
      modifies this`state, this`lastError, this`activeClientId, session, registry`claimed
      ensures state == Faulted && activeClientId == "" && session.queue == []
      ensures lastError == if config.password == "" then reason else Replaced(reason, 0, config.password, REDACTED)
      ensures config.password != "" && !Survives(config.password, REDACTED) ==> !Occurs(lastError, config.password)
      ensures registry.claimed ==
        if old(activeClientId) == "" then old(registry.claimed) else old(registry.claimed) - {old(Key())}
    {
      session.Close();
      ReleaseClientId();
      activeClientId, state, lastError := "", Faulted, reason;
      if config.password != "" {
        lastError := ReplaceAll(lastError, config.password, REDACTED);
        if !Survives(config.password, REDACTED) {
          NothingSurvives(reason, 0, config.password, REDACTED);
        }
      }
    }

    method Disconnect()
      requires Valid()
      modifies this, session, registry`claimed
      ensures Valid() && View() == AfterDisconnect(old(View())) && activeClientId == ""
      ensures registry.claimed ==
        if old(activeClientId) == "" then old(registry.claimed) else old(registry.claimed) - {old(Key())}
    {
      bound := [];
      session.Close();
      ReleaseClientId();
      activeClientId, state, lastError := "", Disconnected, "";
    }

    // ----- connect -----

    ghost function IdToUse(): string
      reads registry`serial
    {
      if config.clientId != "" then config.clientId else GeneratedId(id, registry.serial)
    }

    /** What a connect needs before it subscribes. */
    ghost predicate Openable(broker: Broker)
      reads registry
    {
      && config.host != "" && config.port != 0 && broker.accepted
      && (forall k :: 0 <= k < |config.equipment| ==> ValidTopics(config.equipment[k]))
      && ClientKey(config.host, config.port, IdToUse()) !in registry.claimed
    }

    /** A connect that fails leaves the registry as it was; one that succeeds adds this
        adapter's key, which nobody held. It succeeds exactly if what Openable says holds
        and each subscription is acknowledged. Newly bound equipment is left behind exactly
        by a connect that gets as far as subscribing, with nothing kept from a fault, and
        has a subscription refused. A new session starts from what the equipment shows then
        and from what arrived while it subscribed. */
    method Connect(broker: Broker) returns (ok: bool, ghost reply: ConnectReply)
      requires Valid()
      modifies this, session, registry
      ensures Valid() && fresh(set e | e in bound && e !in old(bound))
      ensures ok == ConnectOk(old(View()), reply) && View() == AfterConnect(old(View()), reply)
      ensures !ok ==> registry.claimed == old(registry.claimed) && activeClientId == ""
      ensures ok && old(state) != Connected ==>
        Key() !in old(registry.claimed) && registry.claimed == old(registry.claimed) + {Key()}
      ensures old(state) != Connected ==> (ok <==> old(Openable(broker)) && EachSubscribed(broker, config.equipment))
      ensures ok && old(state) != Connected ==> activeClientId == old(IdToUse())
      ensures ok && old(state) != Connected ==>
        base == StatesOf(bound) && past == HistoryWith(NOTHING_YET, broker.early)
      ensures old(state) == Connected ==> base == old(base) && past == old(past)
      ensures reply.RefuseBound? <==>
        (&& old(state) != Connected && old(Openable(broker)) && !EachSubscribed(broker, config.equipment)
         && (old(bound) == [] || old(state) != Faulted))
    {
      reply := Reuse;
      if state == Connected {
        return true, reply;
      }
      var failure := OpenSession(broker);
      if failure.Some? {
        Fail(failure.value);
        return false, Refuse(lastError);
      }
      ok, reply := BindAndSubscribe(broker);
    }

    /** A connect that fails before it binds keeps what was bound. */
    method Fail(reason: string)
      requires state != Connected && OwnedOnce(bound) && (bound == [] || |bound| == |config.equipment|)
      modifies this`state, this`lastError, this`activeClientId, session, registry`claimed
      ensures Valid() && View() == AfterConnect(old(View()), Refuse(lastError)) && activeClientId == ""
      ensures registry.claimed ==
        if old(activeClientId) == "" then old(registry.claimed) else old(registry.claimed) - {old(Key())}
    {
      EnterFault(reason);
    }

    /** The part of connect after the claim: equipment that is still bound after a fault
        is kept, anything else is bound anew before the topics are subscribed. */
    method BindAndSubscribe(broker: Broker) returns (ok: bool, ghost reply: ConnectReply)
      requires OwnedOnce(bound) && (bound == [] || |bound| == |config.equipment|) && state != Connected
      requires activeClientId != "" && Key() in registry.claimed && session.queue == [] && session.LinkUp()
      requires forall k :: 0 <= k < |config.equipment| ==> ValidTopics(config.equipment[k])
      modifies this, session, registry`claimed
      ensures Valid() && fresh(set e | e in bound && e !in old(bound))
      ensures ok == ConnectOk(old(View()), reply) && View() == AfterConnect(old(View()), reply)
      ensures ok ==> registry.claimed == old(registry.claimed) && activeClientId == old(activeClientId)
      ensures !ok ==> registry.claimed == old(registry.claimed) - {old(Key())} && activeClientId == ""
      ensures ok <==> EachSubscribed(broker, config.equipment)
      ensures ok ==> base == StatesOf(bound) && past == HistoryWith(NOTHING_YET, broker.early)
      ensures reply.RefuseBound? <==> !ok && (old(bound) == [] || old(state) != Faulted)
    {
      var reuse := bound != [] && state == Faulted;
      if reuse {
        ok := SubscribeAndBegin(broker);
        reply := if ok then Reuse else Refuse(lastError);
      } else {
        BindFresh();
        ok := SubscribeAndBegin(broker);
        reply := if ok then Bind(MappedAll(SpecsOf(config.equipment)))
                 else RefuseBound(MappedAll(SpecsOf(config.equipment)), lastError);
      }
    }

    method BindFresh()
      modifies this`bound
      ensures OwnedOnce(bound) && |bound| == |config.equipment| && fresh(set e | e in bound)
      ensures StatesOf(bound) == FreshAll(MappedAll(SpecsOf(config.equipment)))
    {
      bound := BindAll(SpecsOf(config.equipment));
    }

    method SubscribeAndBegin(broker: Broker) returns (ok: bool)
      requires OwnedOnce(bound) && |bound| == |config.equipment|
      requires activeClientId != "" && Key() in registry.claimed && session.queue == [] && session.LinkUp()
      requires forall k :: 0 <= k < |config.equipment| ==> ValidTopics(config.equipment[k])
      modifies this`state, this`lastError, this`activeClientId, this`past, this`base, session, registry`claimed
      ensures Valid() && state == if ok then Connected else Faulted
      ensures View() == old(View()).(state := state, lastError := lastError)
      ensures ok ==> registry.claimed == old(registry.claimed) && activeClientId == old(activeClientId)
      ensures ok ==> base == StatesOf(bound) && past == HistoryWith(NOTHING_YET, broker.early)
      ensures !ok ==> registry.claimed == old(registry.claimed) - {old(Key())}
      ensures ok <==> EachSubscribed(broker, config.equipment)
    {
      var failure, _ := SubscribeMappedTopics(broker);
      if failure.Some? {
        EnterFault(failure.value);
        return false;
      }
      BeginSession(broker.early);
      return true;
    }

    /** The part of connect before binding: the checks, the claim and the session. */
    method OpenSession(broker: Broker) returns (failure: Option<string>)
      requires activeClientId == ""
      modifies this`activeClientId, session, registry
      ensures failure.None? <==> old(Openable(broker))
      ensures View() == old(View())
      ensures failure.None? ==> activeClientId == old(IdToUse())
      ensures failure.None? ==>
        && activeClientId != "" && Key() !in old(registry.claimed) && registry.claimed == old(registry.claimed) + {Key()}
        && session.queue == [] && session.LinkUp()
        && forall k :: 0 <= k < |config.equipment| ==> ValidTopics(config.equipment[k])
      ensures failure.Some? ==>
        if activeClientId == "" then registry.claimed == old(registry.claimed)
        else Key() !in old(registry.claimed) && registry.claimed == old(registry.claimed) + {Key()}
    {
      if config.host == "" || config.port == 0 {
        return Some("missing MQTT broker host or port");
      }
      var valid := ValidateMappedTopics(config.equipment);
      if !valid {
        return Some("MQTT topic must not use wildcards");
      }
      var clientId := registry.ResolveClientId(config.clientId, id);
      var claimed := registry.Claim(ClientKey(config.host, config.port, clientId));
      if !claimed {
        return Some("MQTT client id already in use for this broker");
      }
      activeClientId := clientId;
      var up := session.Connect(clientId, broker.accepted, broker.error);
      if !up {
        return Some("MQTT broker connect failed: " + session.lastError);
      }
      return None;
    }

    /** One subscription per topic of the merge, at the largest level asked for; after
        the check of the topics only the broker can make it fail. */
    method SubscribeMappedTopics(broker: Broker) returns (failure: Option<string>, ghost sent: seq<Sub>)
      requires forall k :: 0 <= k < |config.equipment| ==> ValidTopics(config.equipment[k])
      requires session.handleOpen
      modifies session`lastError
      ensures failure.None? ==> Effective(sent, AllWanted(config.equipment))
      ensures failure.None? <==> EachSubscribed(broker, config.equipment)
      ensures forall i: nat :: i < |sent| ==> broker.subscribed(i)
      ensures failure.Some? ==> !broker.subscribed(|sent|)
    {
      ValidatedTopicsHaveNoWildcards(config.equipment);
      var subs := CollectTopics(AllWanted(config.equipment));
      failure, sent := SubscribeEach(subs.value, broker);
      if failure.None? {
        ClampedIsEffective(subs.value, AllWanted(config.equipment), sent);
      }
    }

    /** The requests in the order of the merge, up to the first the broker refuses. */
    method SubscribeEach(subs: seq<Sub>, broker: Broker) returns (failure: Option<string>, ghost sent: seq<Sub>)
      requires session.handleOpen && forall i :: 0 <= i < |subs| ==> subs[i].topic != ""
      modifies session`lastError
      ensures |sent| <= |subs| && (failure.None? <==> |sent| == |subs|)
      ensures forall i :: 0 <= i < |sent| ==> sent[i] == Sub(subs[i].topic, ClampQos(subs[i].qos))
      ensures forall i: nat :: i < |sent| ==> broker.subscribed(i)
      ensures failure.Some? ==> !broker.subscribed(|sent|)
    {
      sent := [];
      for i := 0 to |subs|
        invariant |sent| == i && session.handleOpen && forall k: nat :: k < i ==> broker.subscribed(k)
        invariant forall k :: 0 <= k < i ==> sent[k] == Sub(subs[k].topic, ClampQos(subs[k].qos))
      {
        var ok;
        ghost var request;
        ok, request := session.Subscribe(subs[i].topic, subs[i].qos, broker.subscribed(i));
        if !ok {
          return Some("MQTT subscribe failed: " + session.lastError), sent;
        }
        sent := sent + [request.value];
      }
      failure := None;
    }

    method BeginSession(early: seq<Message>)
      requires session.queue == [] && |bound| == |config.equipment|
      modifies this`state, this`lastError, this`past, this`base, session`queue
      ensures state == Connected && lastError == "" && InSession()
      ensures base == StatesOf(bound) && past == HistoryWith(NOTHING_YET, early)
    {
      session.OnMessages(early);
      ArrivalsKeepHistory(NOTHING_YET, early);
      past, base := HistoryWith(NOTHING_YET, early), StatesOf(bound);
      assert Taken(past) == [];
      state, lastError := Connected, "";
    }

    /** The network thread delivers a message between polls. */
    method Deliver(m: Message)
      requires Valid()
      modifies session`queue, this`past
      ensures Valid() && View() == old(View())
      ensures session.queue == Pushed(old(session.queue), m)
      ensures past == if state == Connected then HistoryAfter(old(past), Arrive(m)) else old(past)
    {
      session.OnMessage(m);
      if state == Connected {
        EventKeepsHistory(past, Arrive(m));
        past := HistoryAfter(past, Arrive(m));
      }
    }

    /** The network thread reports the link lost; the adapter notices at its next poll. */
    method LoseLink(cause: string)
      requires Valid()
      modifies session`connected, session`lost, session`lastError
      ensures Valid() && View() == old(View()) && session.lost
    {
      session.OnConnectionLost(cause);
    }

    // ----- poll -----

    /** The equipment shows what it showed when the session began, changed by the messages
        taken since. */
    ghost predicate Shown()
      reads this`bound, this`past, this`base, bound
    {
      && HistoryOk(past) && |base| == |bound| == |config.equipment|
      && StatesOf(bound) == AllWithMessages(base, config.equipment, Taken(past), parse)
    }

    /** And the history is one that extends h0. */
    ghost predicate Since(h0: History)
      reads this`bound, this`past, this`base, bound
    {
      Shown() && h0.arrivals <= past.arrivals && h0.taken <= past.taken
    }

    /** At most MAX_PER_POLL messages are taken and applied, in order, and fewer only if
        the queue is empty or the link is down; the adapter stays in its session unless
        the link is down, and then it lets go of its client id. It is the contract's poll
        for the messages taken. The history is that of the rounds completed, no more and
        no less. */
    method Poll(waits: nat -> Wait) returns (ghost rounds: nat)
      requires Valid()
      modifies this`state, this`lastError, this`activeClientId, this`past, session, registry`claimed, bound
      ensures Valid() && bound == old(bound) && base == old(base)
      ensures old(state) != Connected ==> View() == AfterPoll(old(View()), PollReply([], None)) && past == old(past)
      ensures old(state) == Connected ==>
        && Since(old(past)) && state != Disconnected && |past.taken| <= |old(past).taken| + MAX_PER_POLL
        && (state == Connected ==> session.queue == [] || |past.taken| == |old(past).taken| + MAX_PER_POLL)
        && (old(session.lost) ==> state == Faulted)
        && (state == Faulted ==> old(session.lost) || exists n: nat :: n < MAX_PER_POLL && LinkDown(waits(n)))
      ensures old(state) == Connected ==>
        && Completes(old(past), waits, old(session.lost), rounds) && past == Rounds(old(past), waits, rounds)
        && (state == Faulted <==> LinkFails(old(past), waits, old(session.lost), rounds))
      ensures old(state) == Connected ==>
        View() == AfterPoll(old(View()), MessagesReply(old(StatesOf(bound)), config.equipment,
          Taken(past)[|old(past).taken|..], parse, if state == Faulted then Some(lastError) else None))
      ensures state == old(state) ==> registry.claimed == old(registry.claimed)
      ensures state != old(state) ==> registry.claimed == old(registry.claimed) - {old(Key())}
    {
      rounds := 0;
      if state != Connected {
        if state == Faulted && lastError == "" {
          lastError := POLL_FAULT;
        }
        return;
      }
      ghost var h0 := past;
      rounds := TakeMany(waits);
      PollIsContractPoll(base, config.equipment, h0, past, parse, if state == Faulted then Some(lastError) else None);
    }

    method TakeMany(waits: nat -> Wait) returns (ghost rounds: nat)
      requires Valid() && state == Connected
      modifies this`state, this`lastError, this`activeClientId, this`past, session, registry`claimed, bound
      ensures Valid() && Since(old(past)) && state != Disconnected
      ensures |past.taken| <= |old(past).taken| + MAX_PER_POLL
      ensures state == Connected ==> session.queue == [] || |past.taken| == |old(past).taken| + MAX_PER_POLL
      ensures old(session.lost) ==> state == Faulted
      ensures state == Faulted ==> old(session.lost) || exists n: nat :: n < MAX_PER_POLL && LinkDown(waits(n))
      ensures Completes(old(past), waits, old(session.lost), rounds) && past == Rounds(old(past), waits, rounds)
      ensures state == Faulted <==> LinkFails(old(past), waits, old(session.lost), rounds)
      ensures state == Connected ==> registry.claimed == old(registry.claimed)
      ensures state == Faulted ==> registry.claimed == old(registry.claimed) - {old(Key())}
    {
      ghost var h0 := past;
      rounds := 0;
      for n := 0 to MAX_PER_POLL
        invariant Valid() && state == Connected && rounds == n
        invariant session.lost == old(session.lost)
        invariant registry.claimed == old(registry.claimed) && activeClientId == old(activeClientId)
        invariant EachTook(h0, waits, old(session.lost), n) && past == Rounds(h0, waits, n)
      {
        ghost var fails := session.lost || ReceiveFails(waits(n));
        var more := TakeOne(waits(n));
        RoundEnds(h0, waits, old(session.lost), n, past);
        rounds := if fails then n else n + 1;
        RoundsGrow(h0, waits, rounds);
        if !more {
          return;
        }
      }
      RoundsGrow(h0, waits, rounds);
      AllRoundsTook(h0, waits, old(session.lost));
    }

    /** One round of the poll: more is whether a message was applied. Without one, the
        queue is empty or the link is down. */
    method TakeOne(w: Wait) returns (more: bool)
      requires Valid() && state == Connected && Shown()
      modifies this`state, this`lastError, this`activeClientId, this`past, session, registry`claimed, bound
      ensures Valid() && Shown() && state != Disconnected
      ensures |past.taken| == |old(past).taken| + if more then 1 else 0
      ensures more ==> state == Connected && !old(session.lost) && !session.lost
      ensures past == if old(session.lost) || ReceiveFails(w) then old(past)
                      else HistoryAfter(HistoryWith(old(past), w.arrivals), Take)
      ensures more ==> !ReceiveFails(w)
      ensures !more && state == Connected ==> session.queue == []
      ensures state == Faulted <==> old(session.lost) || ReceiveFails(w) || (!more && !w.stillUp)
      ensures state == Connected ==> registry.claimed == old(registry.claimed) && activeClientId == old(activeClientId)
      ensures state == Faulted ==> registry.claimed == old(registry.claimed) - {old(Key())}
    {
      var incoming := NextMessage(w);
      if incoming.Got? {
        ApplyNext(incoming.m);
        return true;
      }
      EndRound(incoming, w);
      return false;
    }

    /** Without a message: an error of receive, or a session that is no longer up. */
    method EndRound(incoming: Incoming, w: Wait)
      requires state == Connected && Shown() && OwnedOnce(bound) && activeClientId != "" && !incoming.Got?
      requires incoming.Nothing? ==> Valid() && !session.lost
      modifies this`state, this`lastError, this`activeClientId, session, registry`claimed
      ensures Valid() && Shown()
      ensures state == if incoming.Error? || !w.stillUp then Faulted else Connected
      ensures state == Connected ==>
        && session.queue == old(session.queue) && registry.claimed == old(registry.claimed)
        && activeClientId == old(activeClientId)
      ensures state == Faulted ==> registry.claimed == old(registry.claimed) - {old(Key())}
    {
      if incoming.Error? {
        EnterFault("MQTT receive failed: " + session.lastError);
        return;
      }
      var up := session.IsConnected(w.stillUp);
      if !up {
        EnterFault("MQTT broker disconnected");
      }
    }

    /** receive, and the history with what arrived meanwhile. */
    method NextMessage(w: Wait) returns (incoming: Incoming)
      requires InSession() && session.Open() && Shown()
      modifies this`past, session
      ensures Shown() && past.taken == old(past).taken
      ensures past == if incoming.Error? then old(past) else HistoryWith(old(past), w.arrivals)
      ensures incoming.Error? <==> old(session.lost) || !w.libraryUp || w.lost
      ensures !incoming.Error? ==> session.LinkUp()
      ensures incoming.Nothing? ==> InSession() && session.queue == []
      ensures incoming.Got? ==> Queue(past) != [] && incoming.m == Queue(past)[0] && session.queue == Queue(past)[1..]
    {
      incoming := session.Receive(w);
      if !incoming.Error? {
        ArrivalsKeepHistory(past, w.arrivals);
        HistoryGrows(past, w.arrivals);
        past := HistoryWith(past, w.arrivals);
      }
    }

    /** The front message, just taken from the queue, is applied. */
    method ApplyNext(m: Message)
      requires Shown() && OwnedOnce(bound)
      requires Queue(past) != [] && m == Queue(past)[0] && session.queue == Queue(past)[1..]
      modifies this`past, bound
      ensures InSession() && Shown() && past == HistoryAfter(old(past), Take)
    {
      TakeKeepsHistory(past);
      AppliedOneMore(base, config.equipment, Taken(past), m, parse);
      past := HistoryAfter(past, Take);
      ApplyMessage(m);
    }

    method ApplyMessage(m: Message)
      requires OwnedOnce(bound) && |bound| == |config.equipment|
      modifies bound
      ensures StatesOf(bound) == AllWithMessage(old(StatesOf(bound)), config.equipment, m, parse)
    {
      for k := 0 to |bound|
        invariant forall p :: 0 <= p < k ==> bound[p].View() == WithMessage(old(bound[p].View()), config.equipment[p], m, parse)
        invariant forall p :: k <= p < |bound| ==> bound[p].View() == old(bound[p].View())
      {
        ApplyToItem(bound[k], config.equipment[k], m);
      }
    }

    /** The item's applyMessage: every hit telemetry mapping, then the state, then the fault. */
    method ApplyToItem(e: GenericEquipment, q: EquipmentMapping, m: Message)
      modifies e
      ensures e.View() == WithMessage(old(e.View()), q, m, parse)
    {
      for k := 0 to |q.telemetry|
        invariant e.View() == WithPoints(old(e.View()), q.telemetry, m, parse, k)
      {
        var t := q.telemetry[k];
        if t.topic == m.topic {
          var value := parse(m.payload, t.encoding, t.jsonPointer);
          if value.Some? {
            e.SetTelemetry(t.name, value.value, t.unit);
          }
        }
      }
      var running := SignalRead(q.state, m, parse);
      if running.Some? {
        e.SetOperationalState(OperationalOf(running.value));
      }
      var fault := SignalRead(q.fault, m, parse);
      if fault.Some? {
        e.SetFault(fault.value);
      }
    }

    /** A command is published from Connected only, to the plain topic of the first
        mapping of its name, with the number text in place of every token; a publish
        that fails faults the link, lets go of the client id, and changes nothing else. */
    method Execute(i: nat, command: string, numberText: string, published: bool)
      returns (result: CommandResult, ghost sent: Option<Publish>)
      requires Valid() && i < |bound|
      modifies this`state, this`lastError, this`activeClientId, session, registry`claimed
      ensures Valid()
      ensures View() == AfterCommand(old(View()), if state == old(state) then Ignored else WriteFailed(lastError))
      ensures old(state) != Connected ==> !result.accepted && sent == None && state == old(state)
      ensures old(state) == Connected ==>
        var commands := config.equipment[i].commands;
        var c := CommandIndex(commands, command, 0);
        && sent == (if c.Some? && commands[c.value].topic != "" && !HasWildcard(commands[c.value].topic)
                    then Some(Publish(commands[c.value].topic,
                                      Replaced(commands[c.value].bodyTemplate, 0, VALUE_TOKEN, numberText),
                                      ClampQos(commands[c.value].qos), commands[c.value].retain)) else None)
        && (result.accepted <==> sent.Some? && published)
        && (state == Faulted <==> sent.Some? && !published)
        && (c.Some? ==> IsFirstOf(commands, command, c.value))
        && (c.None? ==> forall k :: 0 <= k < |commands| ==> commands[k].command != command)
      ensures sent.Some? ==>
        sent.value.topic != "" && '+' !in sent.value.topic && '#' !in sent.value.topic && 0 <= sent.value.qos <= 2
    {
      sent := None;
      if state != Connected {
        return CommandResult(false, if state == Faulted then "communication fault" else "adapter not connected"), None;
      }
      var mapped := FindCommand(config.equipment[i].commands, command);
      if mapped.None? {
        return CommandResult(false, "unknown command"), None;
      }
      result, sent := PublishMapped(config.equipment[i].commands[mapped.value], numberText, published);
    }

    /** The check of the mapping's topic, and the publish. */
    method PublishMapped(m: CommandMapping, numberText: string, published: bool)
      returns (result: CommandResult, ghost sent: Option<Publish>)
      modifies this`state, this`lastError, this`activeClientId, session, registry`claimed
      ensures sent == if m.topic != "" && !HasWildcard(m.topic)
                      then Some(Publish(m.topic, Replaced(m.bodyTemplate, 0, VALUE_TOKEN, numberText), ClampQos(m.qos), m.retain))
                      else None
      ensures sent.Some? ==>
        sent.value.topic != "" && '+' !in sent.value.topic && '#' !in sent.value.topic && 0 <= sent.value.qos <= 2
      ensures result.accepted <==> sent.Some? && published
      ensures View() == old(View()).(state := state, lastError := lastError)
      ensures sent.None? || published ==> unchanged(this) && unchanged(session) && unchanged(registry)
      ensures sent.Some? && !published ==> state == Faulted && activeClientId == ""
    {
      if m.topic == "" || HasWildcard(m.topic) {
        return CommandResult(false, "invalid command topic"), None;
      }
      var ok;
      ok, sent := PublishCommand(m, numberText, published);
      result := if ok then CommandResult(true, "published") else CommandResult(false, "mqtt publish failed");
    }

    method PublishCommand(m: CommandMapping, numberText: string, published: bool)
      returns (ok: bool, ghost sent: Option<Publish>)
      modifies this`state, this`lastError, this`activeClientId, session, registry`claimed
      ensures ok == published
      ensures sent == Some(Publish(m.topic, Replaced(m.bodyTemplate, 0, VALUE_TOKEN, numberText), ClampQos(m.qos), m.retain))
      ensures ok ==> unchanged(this) && unchanged(session) && unchanged(registry)
      ensures !ok ==> state == Faulted && activeClientId == ""
    {
      var body := ReplaceAll(m.bodyTemplate, VALUE_TOKEN, numberText);
      sent := Some(Publish(m.topic, body, ClampQos(m.qos), m.retain));
      if !published {
        EnterFault("MQTT publish failed: " + session.lastError);
      }
      ok := published;
    }

    static method FindCommand(commands: seq<CommandMapping>, command: string) returns (found: Option<nat>)
      ensures found == CommandIndex(commands, command, 0)
      ensures found.Some? ==> IsFirstOf(commands, command, found.value)
      ensures found.None? ==> forall k :: 0 <= k < |commands| ==> commands[k].command != command
    {
      for k := 0 to |commands|
        invariant CommandIndex(commands, command, 0) == CommandIndex(commands, command, k)
      {
        if commands[k].command == command {
          return Some(k);
        }
      }
      return None;
    }
  }

  datatype Publish = Publish(topic: string, payload: string, qos: int, retain: bool)

  /** The mapping is the first one of this very command. */
  ghost predicate IsFirstOf(commands: seq<CommandMapping>, command: string, k: nat) {
    k < |commands| && commands[k].command == command && forall l :: 0 <= l < k ==> commands[l].command != command
  }

  /** The first mapping of a command at or after k. */
  function CommandIndex(commands: seq<CommandMapping>, command: string, k: nat): (c: Option<nat>)
    requires k <= |commands|
    ensures c.Some? ==> k <= c.value < |commands| && commands[c.value].command == command
    ensures forall l :: k <= l < |commands| && (c.Some? ==> l < c.value) ==> commands[l].command != command
    decreases |commands| - k
  {
    if k == |commands| then None
    else if commands[k].command == command then Some(k)
    else CommandIndex(commands, command, k + 1)
  }

  lemma {:induction false} HistoryGrows(h: History, ms: seq<Message>)
    requires h.front <= |h.arrivals|
    ensures HistoryWith(h, ms).arrivals == h.arrivals + ms && HistoryWith(h, ms).taken == h.taken
    decreases |ms|
  {
    if ms != [] {
      HistoryGrows(h, ms[..|ms| - 1]);
    }
  }

  /** What a connect needs before it subscribes, spelled out: host and port, a broker that
      accepts, topics without '+' and '#', and a client key that nobody holds. */
  lemma OpenableIff(a: MqttAdapter, broker: Broker)
    ensures var id := if a.config.clientId != "" then a.config.clientId else GeneratedId(a.id, a.registry.serial);
      var qs := a.config.equipment;
      a.Openable(broker) <==>
        && a.config.host != "" && a.config.port != 0 && broker.accepted
        && (forall w :: SomeAsksFor(qs, w) ==> '+' !in w.topic && '#' !in w.topic)
        && (forall k, i :: 0 <= k < |qs| && 0 <= i < |qs[k].commands| ==>
              '+' !in qs[k].commands[i].topic && '#' !in qs[k].commands[i].topic)
        && a.config.host + ":" + Decimal(a.config.port) + "\n" + id !in a.registry.claimed
  {
    var qs := a.config.equipment;
    forall k | 0 <= k < |qs|
      ensures ValidTopics(qs[k]) <==>
        && (forall w :: AsksFor(qs[k], w) ==> '+' !in w.topic && '#' !in w.topic)
        && (forall i :: 0 <= i < |qs[k].commands| ==> '+' !in qs[k].commands[i].topic && '#' !in qs[k].commands[i].topic)
    {
      ValidTopicsIff(qs[k]);
    }
    assert forall k, w :: 0 <= k < |qs| && AsksFor(qs[k], w) ==> SomeAsksFor(qs, w);
  }

  /** The main result on the object: in any session, whenever the queue is empty, a slot
      whose last writing message is among the last MAX_QUEUED arrivals, or that none
      writes, shows what applying every arrival of the session in order would show. */
  lemma SessionShowsLossless(a: MqttAdapter, s: Slot)
    requires a.Valid() && a.state == Connected && a.session.queue == [] && s.item < |a.bound|
    requires
      || (forall k :: 0 <= k < |a.past.arrivals| ==> Written(a.config.equipment, s, a.past.arrivals[k], a.parse).None?)
      || exists w: nat :: w < |a.past.arrivals| <= w + MAX_QUEUED &&
           IsLastWriter(a.config.equipment, s, a.past.arrivals, |a.past.arrivals|, a.parse, w)
    ensures ValueOf(StatesOf(a.bound), s) ==
            ValueOf(AllWithMessages(a.base, a.config.equipment, a.past.arrivals, a.parse), s)
  {
    var h := a.past;
    assert h.front == |h.arrivals| && h.arrivals[..h.front] == h.arrivals;
    LossyShowsLossless(a.base, a.config.equipment, s, h, a.parse);
  }

  // ----- a poll of messages is a poll of the contract -----

  function LastFault(qs: seq<EquipmentMapping>, i: nat, ms: seq<Message>, parse: Parser): Option<bool>
    requires i < |qs|
  {
    match LastWrite(qs, FaultSlot(i), ms, parse)
    case Some(FaultIs(f)) => Some(f)
    case _ => None
  }

  function MessagesReply(es: seq<EquipmentState>, qs: seq<EquipmentMapping>, ms: seq<Message>, parse: Parser,
                         failure: Option<string>): PollReply
    requires |es| == |qs|
  {
    var es' := AllWithMessages(es, qs, ms, parse);
    PollReply(seq(|es|, i requires 0 <= i < |es| => Update(es'[i].telemetry, es'[i].operational, LastFault(qs, i, ms, parse))),
              failure)
  }

  lemma {:induction false} MessagesKeepIdentity(es: seq<EquipmentState>, qs: seq<EquipmentMapping>, ms: seq<Message>,
                                                parse: Parser, i: nat)
    requires |es| == |qs| && i < |es|
    ensures var e := AllWithMessages(es, qs, ms, parse)[i];
      e.id == es[i].id && e.typ == es[i].typ && e.capabilities == es[i].capabilities
    decreases |ms|
  {
    if ms != [] {
      var before := ms[..|ms| - 1];
      MessagesKeepIdentity(es, qs, before, parse, i);
      PointsWriteSlot(AllWithMessages(es, qs, before, parse)[i], qs[i].telemetry, "", ms[|ms| - 1], parse, |qs[i].telemetry|);
    }
  }

  /** Applying messages is a poll of the contract whose fault reads are the last fault
      values parsed from a message: MQTT invents no machine fault either. */
  lemma MessagesArePoll(es: seq<EquipmentState>, qs: seq<EquipmentMapping>, ms: seq<Message>,
                        parse: Parser, failure: Option<string>)
    requires |es| == |qs|
    ensures UpdatedAll(es, MessagesReply(es, qs, ms, parse, failure).updates) == AllWithMessages(es, qs, ms, parse)
  {
    var es', us := AllWithMessages(es, qs, ms, parse), MessagesReply(es, qs, ms, parse, failure).updates;
    forall i | 0 <= i < |es|
      ensures UpdatedAll(es, us)[i] == es'[i]
    {
      MessagesKeepIdentity(es, qs, ms, parse, i);
      LastWriterWins(es, qs, FaultSlot(i), ms, parse);
      FaultWritesAreFaults(qs, i, ms, parse);
    }
  }

  lemma {:induction false} FaultWritesAreFaults(qs: seq<EquipmentMapping>, i: nat, ms: seq<Message>, parse: Parser)
    requires i < |qs|
    ensures var w := LastWrite(qs, FaultSlot(i), ms, parse); w.Some? ==> w.value.FaultIs?
    decreases |ms|
  {
    if ms != [] {
      FaultWritesAreFaults(qs, i, ms[..|ms| - 1], parse);
    }
  }

  /** A poll from Connected, by the messages it takes: an item's machine fault is what the
      last message on its fault topic that parses says, its state what the last on its
      state topic says, and neither changes without such a message. */
  lemma PollShowsLastMessage(v: AdapterView, qs: seq<EquipmentMapping>, ms: seq<Message>, parse: Parser, failure: Option<string>,
                             i: nat, w: nat)
    requires v.state == Connected && |v.bound| == |qs| && i < |qs|
    ensures var e := AfterPoll(v, MessagesReply(v.bound, qs, ms, parse, failure)).bound[i]; var f, s := qs[i].fault, qs[i].state;
      && (LastDecides(f, ms, parse, w) ==> e.fault == (parse(ms[w].payload, f.encoding, f.jsonPointer).value != 0.0))
      && (NoneDecides(f, ms, parse) ==> e.fault == v.bound[i].fault)
      && (LastDecides(s, ms, parse, w) ==>
            e.operational == if parse(ms[w].payload, s.encoding, s.jsonPointer).value != 0.0 then Running else Stopped)
      && (NoneDecides(s, ms, parse) ==> e.operational == v.bound[i].operational)
  {
    MessagesArePoll(v.bound, qs, ms, parse, failure);
    SignalsShowLastMessage(v.bound, qs, i, ms, parse, w);
    SignalsKeptUndecided(v.bound, qs, i, ms, parse);
  }

  /** And a telemetry name shows the number of the last message that reaches it. */
  lemma PollShowsLastPoint(v: AdapterView, qs: seq<EquipmentMapping>, ms: seq<Message>, parse: Parser, failure: Option<string>,
                           i: nat, w: nat, k: nat)
    requires v.state == Connected && |v.bound| == |qs| && i < |qs| && w < |ms|
    requires LastReached(qs[i].telemetry, ms[w], parse, |qs[i].telemetry|, k)
    requires forall u :: w < u < |ms| ==>
      NoneReached(qs[i].telemetry, qs[i].telemetry[k].name, ms[u], parse, |qs[i].telemetry|)
    ensures var t := qs[i].telemetry[k];
      var t' := AfterPoll(v, MessagesReply(v.bound, qs, ms, parse, failure)).bound[i].telemetry;
      t.name in t' && t'[t.name] == TelemetryPoint(t.name, parse(ms[w].payload, t.encoding, t.jsonPointer).value, t.unit)
  {
    MessagesArePoll(v.bound, qs, ms, parse, failure);
    PointShowsLastMessage(v.bound, qs, i, ms, parse, w, k);
  }

  /** From one history of the session to a later one, the change of the equipment is the
      contract's poll for the messages taken in between. */
  lemma PollIsContractPoll(base: seq<EquipmentState>, qs: seq<EquipmentMapping>, h0: History, h: History,
                           parse: Parser, failure: Option<string>)
    requires |base| == |qs| && HistoryOk(h0) && HistoryOk(h) && h0.arrivals <= h.arrivals && h0.taken <= h.taken
    ensures
      var es := AllWithMessages(base, qs, Taken(h0), parse);
      UpdatedAll(es, MessagesReply(es, qs, Taken(h)[|h0.taken|..], parse, failure).updates) ==
        AllWithMessages(base, qs, Taken(h), parse)
  {
    var newly := Taken(h)[|h0.taken|..];
    assert Taken(h) == Taken(h0) + newly;
    var es := AllWithMessages(base, qs, Taken(h0), parse);
    MessagesInTwoParts(base, qs, Taken(h0), newly, parse);
    MessagesArePoll(es, qs, newly, parse, failure);
  }
}
