/** Whole runs of the ICP runtime: adapters registered, connected, polled, failing and
    leaving in any order, with any replies from the field. */
module IcpRuns {
  import opened Domain
  import opened AdapterContract
  import opened LiveStateCaches
  import opened AdapterManagers
  import opened PollSchedulers

  datatype Icp = Icp(adapters: Views, cache: Cache)

  datatype Step =
    | Add(v: AdapterView)
    | Remove(a: string)
    | Connect(a: string, reply: ConnectReply)
    | Disconnect(a: string)
    | DisconnectAll
    | Pass(replies: Replies, order: seq<string>)
    | Command(a: string, did: CommandReply)
    | LinkFailure(a: string, reason: string)
    | ClearFailure(a: string)

  /** Adapters are registered before they are connected; a pass visits each adapter once. */
  ghost predicate Possible(s: Icp, t: Step) {
    && (t.Add? ==> t.v.state == Disconnected && WellFormed(t.v))
    && (t.Pass? ==> IsOrder(t.order, s.adapters.Keys))
  }

  ghost function AdaptersAfter(vs: Views, t: Step): Views {
    match t
    case Add(v) => if v.id == "" || v.id in vs then vs else vs[v.id := v]
    case Remove(a) => vs - {a}
    case Connect(a, reply) => AfterConnectAdapter(vs, a, reply)
    case Disconnect(a) => AfterDisconnectAdapter(vs, a)
    case DisconnectAll => AfterDisconnectAll(vs)
    case Pass(replies, _) => VisitedViews(vs, replies)
    case Command(a, did) => if a in vs then vs[a := AfterCommand(vs[a], did)] else vs
    case LinkFailure(a, reason) => if a in vs then vs[a := AfterLinkFailure(vs[a], reason)] else vs
    case ClearFailure(a) => if a in vs then vs[a := AfterClear(vs[a])] else vs
  }

  ghost function After(s: Icp, t: Step): Icp
    requires Possible(s, t)
  {
    Icp(AdaptersAfter(s.adapters, t),
        if t.Pass? then CacheAfter(s.cache, s.adapters, t.replies, t.order) else s.cache)
  }

  ghost predicate IsRun(states: seq<Icp>, steps: seq<Step>) {
    && |states| == |steps| + 1
    && forall i :: 0 <= i < |steps| ==> Possible(states[i], steps[i]) && states[i + 1] == After(states[i], steps[i])
  }

  // ----- exposed ids stay disjoint -----

  ghost predicate BreaksDisjoint(s: Icp, t: Step) {
    t.Connect? && BindsTakenIdsThenFails(s.adapters, t.a, t.reply)
  }

  lemma StepKeepsRegistered(s: Icp, t: Step)
    requires Possible(s, t) && Registered(s.adapters)
    ensures Registered(After(s, t).adapters)
  {
    var vs, vs' := s.adapters, After(s, t).adapters;
    forall a | a in vs'
      ensures a != "" && vs'[a].id == a && WellFormed(vs'[a])
    {
      assert a in vs || (t.Add? && a == t.v.id);
    }
  }

  /** Shrinking or keeping what each adapter exposes cannot make two overlap. */
  lemma FewerIdsStayDisjoint(vs: Views, vs': Views)
    requires Disjoint(vs)
    requires forall a :: a in vs' ==> if a in vs then ExposedIds(vs'[a]) <= ExposedIds(vs[a]) else ExposedIds(vs'[a]) == {}
    ensures Disjoint(vs')
  {
    forall a, b | a in vs' && b in vs' && a != b
      ensures ExposedIds(vs'[a]) !! ExposedIds(vs'[b])
    {
      if a in vs && b in vs {
        assert ExposedIds(vs[a]) !! ExposedIds(vs[b]);
      }
    }
  }

  lemma StepKeepsDisjointIff(s: Icp, t: Step)
    requires Possible(s, t) && Registered(s.adapters) && Disjoint(s.adapters)
    ensures Disjoint(After(s, t).adapters) <==> !BreaksDisjoint(s, t)
  {
    if t.Connect? {
      ConnectKeepsDisjointIff(s.adapters, t.a, t.reply);
    } else {
      FewerIdsStayDisjoint(s.adapters, After(s, t).adapters);
    }
  }

  ghost predicate DisjointUpTo(states: seq<Icp>, n: nat)
    requires n < |states|
  {
    forall i :: 0 <= i <= n ==> Disjoint(states[i].adapters)
  }

  /** In every run from a disjoint start, exposed ids are disjoint throughout exactly
      when no connect binds ids another adapter exposes and then fails. */
  lemma {:induction false} RunDisjointIff(states: seq<Icp>, steps: seq<Step>, n: nat)
    requires IsRun(states, steps) && n <= |steps|
    requires Registered(states[0].adapters) && Disjoint(states[0].adapters)
    ensures Registered(states[n].adapters)
    ensures DisjointUpTo(states, n) <==> forall i :: 0 <= i < n ==> !BreaksDisjoint(states[i], steps[i])
  {
    if n > 0 {
      RunDisjointIff(states, steps, n - 1);
      var s, t := states[n - 1], steps[n - 1];
      assert states[n] == After(s, t);
      StepKeepsRegistered(s, t);
      assert DisjointUpTo(states, n) <==> DisjointUpTo(states, n - 1) && Disjoint(states[n].adapters);
      if DisjointUpTo(states, n - 1) {
        assert Disjoint(states[n - 1].adapters);
        StepKeepsDisjointIff(s, t);
      }
    }
  }

  /** The failing family is real: an MQTT adapter that connects, binds an id in use and
      then fails to subscribe leaves the id exposed twice. */
  lemma DisjointBrokenByFailedSubscribe(a: string, b: string, m: Mapped)
    requires a != b && a != "" && b != ""
    ensures var owner := AdapterView(a, "mock", Connected, "", [FreshEquipment(m)]);
      var vs: Views := map[a := owner, b := AdapterView(b, "mqtt", Disconnected, "", [])];
      var t := Connect(b, RefuseBound([m], "MQTT subscribe failed: MQTT subscribe timed out"));
      && Registered(vs) && Disjoint(vs) && BreaksDisjoint(Icp(vs, map[]), t)
      && !Disjoint(After(Icp(vs, map[]), t).adapters)
  {
    var owner := AdapterView(a, "mock", Connected, "", [FreshEquipment(m)]);
    var vs: Views := map[a := owner, b := AdapterView(b, "mqtt", Disconnected, "", [])];
    var t := Connect(b, RefuseBound([m], "MQTT subscribe failed: MQTT subscribe timed out"));
    assert Exposed(owner)[0].id == m.id && FreshAll([m])[0].id == m.id;
    assert m.id in ExposedIds(vs[a]) && m.id in IdsOf(FreshAll([m]));
    assert ExposedIds(vs[b]) == {};
    assert Registered(vs) && Disjoint(vs);
    assert BreaksDisjoint(Icp(vs, map[]), t);
    StepKeepsDisjointIff(Icp(vs, map[]), t);
  }

  // ----- the cache is well-formed, and right after a pass it is settled -----

  lemma {:induction false} RunKeepsCacheOk(states: seq<Icp>, steps: seq<Step>, n: nat)
    requires IsRun(states, steps) && n <= |steps| && CacheOk(states[0].cache)
    ensures CacheOk(states[n].cache)
  {
    if n > 0 {
      RunKeepsCacheOk(states, steps, n - 1);
      var s, t := states[n - 1], steps[n - 1];
      assert states[n] == After(s, t);
      if t.Pass? {
        PassKeepsCacheOk(s.cache, s.adapters, t.replies, t.order);
      }
    }
  }

  // ----- every entry shows its last refresh -----

  /** The same but for the communication fields. */
  ghost predicate SameContent(s: EquipmentSnapshot, t: EquipmentSnapshot) {
    s == t.(communicationState := s.communicationState, lastError := s.lastError, stale := s.stale)
  }

  /** The step refreshes the entry of id: a pass in which some adapter exposes it. */
  ghost predicate Refreshes(s: Icp, t: Step, id: string) {
    t.Pass? && exists a :: a in s.adapters && id in ExposedIds(s.adapters[a])
  }

  /** What a step leaves in the entry of id: its owner's snapshot as the step found the
      equipment, if the step refreshes it, and otherwise the content it had. */
  ghost predicate ShowsRefresh(s: Icp, t: Step, c: Cache, id: string)
    requires Possible(s, t)
  {
    id in c ==>
      if Refreshes(s, t, id) then ShowsOwner(After(s, t).adapters, c[id], id)
      else id in s.cache && SameContent(c[id], s.cache[id])
  }

  /** The entry is the owner's snapshot for id. */
  ghost predicate ShowsOwner(vs: Views, entry: EquipmentSnapshot, id: string) {
    && entry.adapterId in vs && id in ExposedIds(vs[entry.adapterId])
    && SameContent(entry, SnapshotOf(vs[entry.adapterId], id))
  }

  lemma {:induction false} VisitsShowRefresh(c0: Cache, vs: Views, replies: Replies, order: seq<string>, id: string)
    requires Registered(vs) && (forall a :: a in order ==> a in vs)
    requires forall i, j :: 0 <= i < j < |order| ==> order[i] != order[j]
    requires id in CacheAfter(c0, vs, replies, order)
    ensures var entry := CacheAfter(c0, vs, replies, order)[id];
      if exists a :: a in order && id in ExposedIds(vs[a])
      then entry.adapterId in order && ShowsOwner(VisitedViews(vs, replies), entry, id)
      else id in c0 && SameContent(entry, c0[id])
  {
    if order != [] {
      var a, before := order[|order| - 1], order[..|order| - 1];
      var c := CacheAfter(c0, vs, replies, before);
      VisitAt(c, vs[a], ReplyFor(replies, a), id);
      assert forall b :: b in order <==> b in before || b == a;
      if id in ExposedIds(vs[a]) {
        assert VisitedViews(vs, replies)[a] == VisitedView(vs[a], ReplyFor(replies, a));
      } else {
        VisitsShowRefresh(c0, vs, replies, before, id);
      }
    }
  }

  lemma StepShowsRefresh(s: Icp, t: Step, id: string)
    requires Possible(s, t) && Registered(s.adapters)
    ensures ShowsRefresh(s, t, After(s, t).cache, id)
  {
    if t.Pass? {
      PassShowsRefresh(s, t.replies, t.order, id);
      assert After(s, t).adapters == VisitedViews(s.adapters, t.replies);
      assert After(s, t).cache == CacheAfter(s.cache, s.adapters, t.replies, t.order);
    } else {
      assert After(s, t).cache == s.cache && !Refreshes(s, t, id);
      assert id in s.cache ==> SameContent(s.cache[id], s.cache[id]);
    }
  }

  lemma PassShowsRefresh(s: Icp, replies: Replies, order: seq<string>, id: string)
    requires IsOrder(order, s.adapters.Keys) && Registered(s.adapters)
    ensures var c := CacheAfter(s.cache, s.adapters, replies, order);
      id in c ==>
        if exists a :: a in s.adapters && id in ExposedIds(s.adapters[a])
        then ShowsOwner(VisitedViews(s.adapters, replies), c[id], id)
        else id in s.cache && SameContent(c[id], s.cache[id])
  {
    if id in CacheAfter(s.cache, s.adapters, replies, order) {
      VisitsShowRefresh(s.cache, s.adapters, replies, order, id);
      if a :| a in s.adapters && id in ExposedIds(s.adapters[a]) {
        assert a in order;
      }
    }
  }

  lemma {:induction false} RunKeepsRegistered(states: seq<Icp>, steps: seq<Step>, n: nat)
    requires IsRun(states, steps) && n <= |steps| && Registered(states[0].adapters)
    ensures Registered(states[n].adapters)
  {
    if n > 0 {
      RunKeepsRegistered(states, steps, n - 1);
      StepKeepsRegistered(states[n - 1], steps[n - 1]);
    }
  }

  /** What step m leaves in the entry of id, if there is one. */
  ghost predicate ShowsStep(states: seq<Icp>, steps: seq<Step>, m: nat, id: string)
    requires m < |steps| && |states| == |steps| + 1
  {
    id in states[m + 1].cache ==>
      var entry := states[m + 1].cache[id];
      if Refreshes(states[m], steps[m], id) then ShowsOwner(states[m + 1].adapters, entry, id)
      else id in states[m].cache && SameContent(entry, states[m].cache[id])
  }

  lemma RunShowsStep(states: seq<Icp>, steps: seq<Step>, m: nat, id: string)
    requires IsRun(states, steps) && m < |steps| && Registered(states[0].adapters)
    ensures ShowsStep(states, steps, m, id)
  {
    RunKeepsRegistered(states, steps, m);
    StepShowsRefresh(states[m], steps[m], id);
  }

  /** The entry is item k of the adapter, its last of that id, but for the communication
      fields. */
  ghost predicate ShowsItemOf(entry: EquipmentSnapshot, v: AdapterView, k: nat, id: string) {
    && v.state != Disconnected && IsLastOfId(v.bound, k) && v.bound[k].id == id
    && entry.equipmentId == id && entry.adapterId == v.id && entry.protocol == v.protocol
    && entry.typ == v.bound[k].typ && entry.operationalState == v.bound[k].operational
    && entry.machineFault == v.bound[k].fault && entry.telemetry == v.bound[k].telemetry
  }

  ghost predicate ShowsSome(entry: EquipmentSnapshot, v: AdapterView, id: string) {
    exists k: nat :: k < |v.bound| && ShowsItemOf(entry, v, k, id)
  }

  lemma OwnerShowsItem(vs: Views, entry: EquipmentSnapshot, id: string)
    requires Registered(vs) && ShowsOwner(vs, entry, id)
    ensures ShowsSome(entry, vs[entry.adapterId], id)
  {
    var v := vs[entry.adapterId];
    var k := LastIndexOfId(v.bound, id);
    LastAt(v.bound, k);
    assert ShowsItemOf(entry, v, k, id);
  }

  lemma {:induction false} LastIndexOfId(es: seq<EquipmentState>, id: string) returns (k: nat)
    requires id in IdsOf(es)
    ensures IsLastOfId(es, k) && es[k].id == id
  {
    k := |es| - 1;
    if es[k].id != id {
      InitHasId(es, id);
      var n := k;
      k := LastIndexOfId(es[..n], id);
      assert forall l :: k < l < n ==> es[l] == es[..n][l];
    }
  }

  /** The entry of id in state n shows its owner as the pass i left it. */
  ghost predicate ShowsPass(states: seq<Icp>, n: nat, i: nat, id: string)
    requires i + 1 < |states| && n < |states| && id in states[n].cache
  {
    var entry := states[n].cache[id];
    && ShowsOwner(states[i + 1].adapters, entry, id)
    && ShowsSome(entry, states[i + 1].adapters[entry.adapterId], id)
  }

  lemma {:induction false} LastRefresh(states: seq<Icp>, steps: seq<Step>, n: nat, id: string) returns (i: nat)
    requires n <= |steps| && |states| == |steps| + 1 && states[0].cache == map[] && id in states[n].cache
    requires forall m: nat :: m < n ==> ShowsStep(states, steps, m, id)
    ensures i < n && Refreshes(states[i], steps[i], id)
    ensures ShowsOwner(states[i + 1].adapters, states[n].cache[id], id)
    ensures forall j :: i < j < n ==> !Refreshes(states[j], steps[j], id)
  {
    assert ShowsStep(states, steps, n - 1, id);
    if Refreshes(states[n - 1], steps[n - 1], id) {
      i := n - 1;
    } else {
      i := LastRefresh(states, steps, n - 1, id);
    }
  }

  /** In every reachable state every cache entry shows what its owner's equipment was at
      the last pass that refreshed it: its machine fault, state and telemetry. */
  lemma EntryShowsLastRefresh(states: seq<Icp>, steps: seq<Step>, n: nat, id: string) returns (i: nat)
    requires IsRun(states, steps) && n <= |steps| && states[0] == Icp(map[], map[]) && id in states[n].cache
    ensures i < n && Refreshes(states[i], steps[i], id) && ShowsPass(states, n, i, id)
    ensures forall j :: i < j < n ==> !Refreshes(states[j], steps[j], id)
  {
    forall m: nat | m < n
      ensures ShowsStep(states, steps, m, id)
    {
      RunShowsStep(states, steps, m, id);
    }
    i := LastRefresh(states, steps, n, id);
    RunKeepsRegistered(states, steps, i + 1);
    OwnerShowsItem(states[i + 1].adapters, states[n].cache[id], id);
  }

  // ----- no machine fault is invented -----

  /** The step is a pass in which a Connected adapter read a true machine fault for id. */
  ghost predicate Reports(s: Icp, t: Step, id: string) {
    t.Pass? && exists a, i ::
      && a in s.adapters && s.adapters[a].state == Connected
      && 0 <= i < |s.adapters[a].bound| && s.adapters[a].bound[i].id == id
      && i < |ReplyFor(t.replies, a).updates|
      && ReplyFor(t.replies, a).updates[i].faultRead == Some(true)
  }

  ghost predicate BoundFault(v: AdapterView, id: string) {
    exists i :: 0 <= i < |v.bound| && v.bound[i].id == id && v.bound[i].fault
  }

  /** A fault an adapter shows after a step it showed before, or just read. */
  lemma AdapterFaultComesFrom(s: Icp, t: Step, a: string, id: string)
    requires Possible(s, t) && Registered(s.adapters)
    requires a in After(s, t).adapters && BoundFault(After(s, t).adapters[a], id)
    ensures (a in s.adapters && BoundFault(s.adapters[a], id)) || Reports(s, t, id)
  {
    var vs' := AdaptersAfter(s.adapters, t);
    assert a in s.adapters;
    var v, v' := s.adapters[a], vs'[a];
    if t.Pass? {
      assert v' == VisitedView(v, ReplyFor(t.replies, a));
      PolledFaultComesFrom(v, ReplyFor(t.replies, a), id);
    } else if t.Connect? && t.a == a {
      ConnectFaultComesFrom(v, t.reply, id);
      assert v'.bound == AfterConnect(v, t.reply).bound || v'.bound == [];
    } else if t.Command? && t.a == a {
      CommandFaultComesFrom(v, t.did, id);
    } else {
      assert v'.bound == v.bound || v'.bound == [];
    }
  }

  lemma PolledFaultComesFrom(v: AdapterView, r: PollReply, id: string)
    requires BoundFault(VisitedView(v, r), id)
    ensures BoundFault(v, id) ||
            exists i :: 0 <= i < |v.bound| && v.bound[i].id == id && i < |r.updates| &&
              v.state == Connected && r.updates[i].faultRead == Some(true)
  {
  }

  lemma ConnectFaultComesFrom(v: AdapterView, r: ConnectReply, id: string)
    ensures BoundFault(AfterConnect(v, r), id) ==> BoundFault(v, id)
  {
  }

  lemma CommandFaultComesFrom(v: AdapterView, did: CommandReply, id: string)
    ensures BoundFault(AfterCommand(v, did), id) ==> BoundFault(v, id)
  {
  }

  /** A cached fault after a pass was cached before, or is shown by an adapter after it. */
  lemma {:induction false} CachedFaultComesFrom(c0: Cache, vs: Views, replies: Replies, order: seq<string>, id: string)
    requires Registered(vs) && forall a :: a in order ==> a in vs
    requires id in CacheAfter(c0, vs, replies, order) && CacheAfter(c0, vs, replies, order)[id].machineFault
    ensures (id in c0 && c0[id].machineFault) ||
            exists a :: a in vs && BoundFault(VisitedViews(vs, replies)[a], id)
  {
    if order != [] {
      var a, before := order[|order| - 1], order[..|order| - 1];
      var c := CacheAfter(c0, vs, replies, before);
      VisitAt(c, vs[a], ReplyFor(replies, a), id);
      if id in ExposedIds(vs[a]) {
        var v' := VisitedViews(vs, replies)[a];
        var e := LastWithId(Exposed(v'), id);
        assert e in v'.bound;
        var i :| 0 <= i < |v'.bound| && v'.bound[i] == e;
        assert BoundFault(v', id);
      } else {
        CachedFaultComesFrom(c0, vs, replies, before, id);
      }
    }
  }

  /** The cache or some adapter shows a machine fault for id. */
  ghost predicate ShowsFault(s: Icp, id: string) {
    || (id in s.cache && s.cache[id].machineFault)
    || exists a :: a in s.adapters && BoundFault(s.adapters[a], id)
  }

  lemma CachedFaultAfterPass(s: Icp, replies: Replies, order: seq<string>, id: string)
    requires Registered(s.adapters) && IsOrder(order, s.adapters.Keys)
    requires id in CacheAfter(s.cache, s.adapters, replies, order)
    requires CacheAfter(s.cache, s.adapters, replies, order)[id].machineFault
    ensures ShowsFault(s, id) || Reports(s, Pass(replies, order), id)
  {
    CachedFaultComesFrom(s.cache, s.adapters, replies, order, id);
    if a :| a in s.adapters && BoundFault(VisitedViews(s.adapters, replies)[a], id) {
      PolledFaultComesFrom(s.adapters[a], ReplyFor(replies, a), id);
    }
  }

  lemma StepFaultComesFrom(s: Icp, t: Step, id: string)
    requires Possible(s, t) && Registered(s.adapters) && ShowsFault(After(s, t), id)
    ensures ShowsFault(s, id) || Reports(s, t, id)
  {
    var s' := After(s, t);
    if id in s'.cache && s'.cache[id].machineFault {
      if t.Pass? {
        CachedFaultAfterPass(s, t.replies, t.order, id);
      }
    } else {
      var a :| a in s'.adapters && BoundFault(s'.adapters[a], id);
      AdapterFaultComesFrom(s, t, a, id);
    }
  }

  /** From the empty runtime, a machine fault seen in the cache or on any adapter was
      read as true from that equipment's source in some earlier pass: no sequence of
      link failures, failed connects, reconnects or commands produces one. */
  lemma {:induction false} NoInventedFault(states: seq<Icp>, steps: seq<Step>, n: nat, id: string)
    requires IsRun(states, steps) && n <= |steps| && states[0] == Icp(map[], map[])
    ensures Registered(states[n].adapters)
    ensures ShowsFault(states[n], id) ==> exists i :: 0 <= i < n && Reports(states[i], steps[i], id)
  {
    if n > 0 {
      NoInventedFault(states, steps, n - 1, id);
      var s, t := states[n - 1], steps[n - 1];
      assert states[n] == After(s, t);
      StepKeepsRegistered(s, t);
      if ShowsFault(states[n], id) {
        StepFaultComesFrom(s, t, id);
      }
    }
  }

  // ----- and none is lost or changed without a read or a rebind -----

  /** Steps that neither read a machine fault nor bind equipment. */
  ghost predicate Quiet(s: Icp, t: Step) {
    && (t.Connect? && t.a in s.adapters && s.adapters[t.a].state != Connected ==> t.reply.Refuse? || t.reply.Reuse?)
    && (t.Pass? ==> forall a :: a in s.adapters && s.adapters[a].state == Connected ==>
          NoFaultRead(ReplyFor(t.replies, a).updates))
  }

  ghost predicate NoFaultRead(us: seq<Update>) {
    forall i :: 0 <= i < |us| ==> us[i].faultRead.None?
  }

  /** The cache and every adapter exposing id agree that its machine fault is f. */
  ghost predicate FaultIs(s: Icp, id: string, f: bool) {
    && (id in s.cache ==> s.cache[id].machineFault == f)
    && forall a :: a in s.adapters && id in ExposedIds(s.adapters[a]) ==> ShownFault(s.adapters[a], id) == f
  }

  function ShownFault(v: AdapterView, id: string): bool
    requires id in ExposedIds(v)
  {
    LastWithId(Exposed(v), id).fault
  }

  lemma {:induction false} SameFaults(es: seq<EquipmentState>, es': seq<EquipmentState>, id: string)
    requires |es| == |es'| && forall i :: 0 <= i < |es| ==> es[i].id == es'[i].id && es[i].fault == es'[i].fault
    requires id in IdsOf(es)
    ensures id in IdsOf(es') && LastWithId(es', id).fault == LastWithId(es, id).fault
  {
    var n := |es| - 1;
    assert id in IdsOf(es') by {
      var i :| 0 <= i < |es| && es[i].id == id;
      assert es'[i].id == id;
    }
    if es[n].id != id {
      InitHasId(es, id);
      SameFaults(es[..n], es'[..n], id);
    }
  }

  /** The lists agree on ids and machine faults, or the second is empty. */
  ghost predicate SameFaultsOrNone(es: seq<EquipmentState>, es': seq<EquipmentState>) {
    es' == [] || (|es| == |es'| && forall i :: 0 <= i < |es| ==> es[i].id == es'[i].id && es[i].fault == es'[i].fault)
  }

  lemma QuietPollKeepsList(v: AdapterView, r: PollReply)
    requires v.state == Connected ==> NoFaultRead(r.updates)
    ensures SameFaultsOrNone(Exposed(v), Exposed(VisitedView(v, r)))
  {
  }

  lemma CommandKeepsList(v: AdapterView, did: CommandReply)
    ensures SameFaultsOrNone(Exposed(v), Exposed(AfterCommand(v, did)))
  {
  }

  lemma QuietConnectKeepsList(vs: Views, a: string, r: ConnectReply)
    requires Registered(vs) && a in vs && (vs[a].state == Connected || r.Refuse? || r.Reuse?)
    ensures SameFaultsOrNone(Exposed(vs[a]), Exposed(AfterConnectAdapter(vs, a, r)[a]))
  {
  }

  lemma QuietStepKeepsList(s: Icp, t: Step, a: string)
    requires Possible(s, t) && Quiet(s, t) && Registered(s.adapters) && a in s.adapters
    requires a in AdaptersAfter(s.adapters, t)
    ensures SameFaultsOrNone(Exposed(s.adapters[a]), Exposed(AdaptersAfter(s.adapters, t)[a]))
  {
    var v := s.adapters[a];
    if t.Pass? {
      QuietPollKeepsList(v, ReplyFor(t.replies, a));
    } else if t.Command? && t.a == a {
      CommandKeepsList(v, t.did);
    } else if t.Connect? && t.a == a {
      QuietConnectKeepsList(s.adapters, a, t.reply);
    }
  }

  /** A quiet step exposes nothing new, and what an adapter still exposes shows the
      fault it showed before. */
  lemma QuietKeepsShownFault(s: Icp, t: Step, a: string, id: string)
    requires Possible(s, t) && Quiet(s, t) && Registered(s.adapters)
    requires a in After(s, t).adapters && id in ExposedIds(After(s, t).adapters[a])
    ensures a in s.adapters && id in ExposedIds(s.adapters[a])
    ensures ShownFault(After(s, t).adapters[a], id) == ShownFault(s.adapters[a], id)
  {
    assert a in s.adapters;
    QuietStepKeepsList(s, t, a);
    SameFaults(Exposed(After(s, t).adapters[a]), Exposed(s.adapters[a]), id);
  }

  lemma QuietVisitKeepsShownFault(v: AdapterView, r: PollReply, id: string)
    requires v.state == Connected ==> NoFaultRead(r.updates)
    requires id in ExposedIds(v)
    ensures ShownFault(VisitedView(v, r), id) == ShownFault(v, id)
  {
    QuietPollKeepsList(v, r);
    SameFaults(Exposed(VisitedView(v, r)), Exposed(v), id);
  }

  lemma {:induction false} QuietPassKeepsCachedFault(s: Icp, replies: Replies, order: seq<string>, id: string, f: bool)
    requires Registered(s.adapters) && FaultIs(s, id, f)
    requires forall a :: a in order ==> a in s.adapters
    requires forall a :: a in s.adapters && s.adapters[a].state == Connected ==> NoFaultRead(ReplyFor(replies, a).updates)
    ensures var c := CacheAfter(s.cache, s.adapters, replies, order);
            id in c ==> c[id].machineFault == f
  {
    if order != [] {
      var a, before := order[|order| - 1], order[..|order| - 1];
      QuietPassKeepsCachedFault(s, replies, before, id, f);
      VisitAt(CacheAfter(s.cache, s.adapters, replies, before), s.adapters[a], ReplyFor(replies, a), id);
      if id in ExposedIds(s.adapters[a]) {
        QuietVisitKeepsShownFault(s.adapters[a], ReplyFor(replies, a), id);
      }
    }
  }

  lemma QuietStepKeepsFault(s: Icp, t: Step, id: string, f: bool)
    requires Possible(s, t) && Quiet(s, t) && Registered(s.adapters) && FaultIs(s, id, f)
    ensures FaultIs(After(s, t), id, f)
  {
    var s' := After(s, t);
    forall a | a in s'.adapters && id in ExposedIds(s'.adapters[a])
      ensures ShownFault(s'.adapters[a], id) == f
    {
      QuietKeepsShownFault(s, t, a, id);
    }
    if t.Pass? {
      QuietPassKeepsCachedFault(s, t.replies, t.order, id, f);
    }
  }

  /** Through any run of link failures, failed connects, passes that fail before the
      fault point, commands, disconnects and removals, a machine fault keeps its value. */
  lemma {:induction false} QuietRunKeepsFault(states: seq<Icp>, steps: seq<Step>, n: nat, id: string, f: bool)
    requires IsRun(states, steps) && n <= |steps|
    requires Registered(states[0].adapters) && FaultIs(states[0], id, f)
    requires forall i :: 0 <= i < n ==> Quiet(states[i], steps[i])
    ensures FaultIs(states[n], id, f) && Registered(states[n].adapters)
  {
    if n > 0 {
      QuietRunKeepsFault(states, steps, n - 1, id, f);
      var s, t := states[n - 1], steps[n - 1];
      assert states[n] == After(s, t);
      StepKeepsRegistered(s, t);
      QuietStepKeepsFault(s, t, id, f);
    }
  }

  /** Right after a pass over disjoint adapters, cache and adapters agree on every id
      exposed, so the theorem above applies from there. */
  lemma PassMakesFaultAgree(c0: Cache, vs: Views, replies: Replies, c: Cache, a: string, id: string)
    requires Registered(vs) && Disjoint(vs) && Settled(c0, vs, replies, vs.Keys, c)
    requires a in vs && id in ExposedIds(vs[a])
    ensures FaultIs(Icp(VisitedViews(vs, replies), c), id, ShownFault(VisitedViews(vs, replies)[a], id))
  {
    assert SettledAt(c0, vs, replies, vs.Keys, c, id);
    forall b | b in vs && id in ExposedIds(VisitedViews(vs, replies)[b])
      ensures b == a
    {
      assert id in ExposedIds(vs[b]);
    }
  }

  // ----- a Faulted adapter keeps its ids reserved -----

  /** The step may take the adapter out of its fault. */
  predicate Releases(t: Step, a: string) {
    || (t.Remove? && t.a == a)
    || (t.Disconnect? && t.a == a)
    || t.DisconnectAll?
    || (t.ClearFailure? && t.a == a)
    || (t.Connect? && t.a == a && !t.reply.Refuse?)
  }

  lemma StepKeepsReservation(s: Icp, t: Step, a: string)
    requires Possible(s, t) && Registered(s.adapters) && !Releases(t, a)
    requires a in s.adapters && s.adapters[a].state == Faulted
    ensures a in After(s, t).adapters && After(s, t).adapters[a].state == Faulted
    ensures After(s, t).adapters[a].bound == s.adapters[a].bound
  {
  }

  lemma {:induction false} FaultedKeepsReservation(states: seq<Icp>, steps: seq<Step>, n: nat, a: string)
    requires IsRun(states, steps) && n <= |steps| && Registered(states[0].adapters)
    requires a in states[0].adapters && states[0].adapters[a].state == Faulted
    requires forall i :: 0 <= i < n ==> !Releases(steps[i], a)
    ensures Registered(states[n].adapters)
    ensures a in states[n].adapters && states[n].adapters[a].state == Faulted
    ensures states[n].adapters[a].bound == states[0].adapters[a].bound
  {
    if n > 0 {
      FaultedKeepsReservation(states, steps, n - 1, a);
      assert states[n] == After(states[n - 1], steps[n - 1]);
      StepKeepsRegistered(states[n - 1], steps[n - 1]);
      StepKeepsReservation(states[n - 1], steps[n - 1], a);
    }
  }

  /** At the end of such a run no other adapter can take one of the ids, and the
      adapter's own reconnect with its ids is never refused for a collision. */
  lemma ReservationHolds(states: seq<Icp>, steps: seq<Step>, a: string, b: string, taking: seq<Mapped>, own: seq<Mapped>)
    requires IsRun(states, steps) && Registered(states[0].adapters) && Disjoint(states[0].adapters)
    requires forall i :: 0 <= i < |steps| ==> !BreaksDisjoint(states[i], steps[i]) && !Releases(steps[i], a)
    requires a in states[0].adapters && states[0].adapters[a].state == Faulted
    requires !(IdsOf(FreshAll(taking)) !! ExposedIds(states[0].adapters[a]))
    requires IdsOf(FreshAll(own)) <= ExposedIds(states[0].adapters[a])
    ensures var vs := states[|steps|].adapters;
      && (b in vs && b != a && vs[b].state != Connected ==>
            AfterConnectAdapter(vs, b, Bind(taking)) == vs[b := AfterDisconnect(vs[b])])
      && a in vs && AfterConnectAdapter(vs, a, Bind(own)) == vs[a := AfterConnect(vs[a], Bind(own))]
  {
    var vs := states[|steps|].adapters;
    RunDisjointIff(states, steps, |steps|);
    FaultedKeepsReservation(states, steps, |steps|, a);
    assert Disjoint(vs) && ExposedIds(vs[a]) == ExposedIds(states[0].adapters[a]);
    if b in vs && b != a && vs[b].state != Connected {
      TakingIsRefused(vs, a, b, taking);
    }
    OwnIdsAreFree(vs, a, own);
  }

  lemma TakingIsRefused(vs: Views, a: string, b: string, taking: seq<Mapped>)
    requires a in vs && b in vs && b != a && vs[b].state != Connected
    requires !(IdsOf(FreshAll(taking)) !! ExposedIds(vs[a]))
    ensures AfterConnectAdapter(vs, b, Bind(taking)) == vs[b := AfterDisconnect(vs[b])]
  {
    var v := AfterConnect(vs[b], Bind(taking));
    assert ExposedIds(v) == IdsOf(FreshAll(taking));
    assert Taken(vs, b, ExposedIds(v));
  }

  lemma OwnIdsAreFree(vs: Views, a: string, own: seq<Mapped>)
    requires Disjoint(vs) && a in vs && vs[a].state == Faulted && IdsOf(FreshAll(own)) <= ExposedIds(vs[a])
    ensures AfterConnectAdapter(vs, a, Bind(own)) == vs[a := AfterConnect(vs[a], Bind(own))]
  {
    var v := AfterConnect(vs[a], Bind(own));
    assert ExposedIds(v) == IdsOf(FreshAll(own));
    assert !Taken(vs, a, ExposedIds(v));
  }
}
