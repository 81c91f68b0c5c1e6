/** icp/src/AdapterManager.cc: the registered adapters, and the refusal of a connect
    that would expose an equipment id twice. Every method holds the manager's one mutex,
    so it is one atomic step. */
module AdapterManagers {
  import opened Domain
  import opened AdapterContract
  import opened IndustrialAdapters

  type Views = map<string, AdapterView>

  datatype ManagerResult =
    | Added | Removed | ConnectedNow | AlreadyConnected | DisconnectedNow
    | AdapterIsNull | AdapterIdEmpty | DuplicateAdapterId | AdapterNotFound
    | ConnectFailed(reason: string)
    | Collision(equipmentId: string, otherAdapter: string)
  {
    predicate Ok() {
      Added? || Removed? || ConnectedNow? || AlreadyConnected? || DisconnectedNow?
    }
  }

  ghost predicate Registered(vs: Views) {
    forall a :: a in vs ==> a != "" && vs[a].id == a && WellFormed(vs[a])
  }

  /** No equipment id is exposed by two registered adapters. */
  ghost predicate Disjoint(vs: Views) {
    forall a, b :: a in vs && b in vs && a != b ==> ExposedIds(vs[a]) !! ExposedIds(vs[b])
  }

  /** Some adapter other than a already exposes one of the ids. */
  ghost predicate Taken(vs: Views, a: string, ids: set<string>) {
    exists b :: b in vs && b != a && !(ExposedIds(vs[b]) !! ids)
  }

  ghost function AfterConnectAdapter(vs: Views, a: string, r: ConnectReply): Views {
    if a !in vs || vs[a].state == Connected then vs
    else
      var v := AfterConnect(vs[a], r);
      if ConnectOk(vs[a], r) && Taken(vs, a, ExposedIds(v)) then vs[a := AfterDisconnect(v)]
      else vs[a := v]
  }

  ghost function AfterDisconnectAdapter(vs: Views, a: string): Views {
    if a in vs then vs[a := AfterDisconnect(vs[a])] else vs
  }

  ghost function AfterDisconnectAll(vs: Views): Views {
    map a | a in vs :: AfterDisconnect(vs[a])
  }

  /** The condition under which a connect breaks disjointness: the adapter binds and
      then fails, and what it bound is already exposed elsewhere. */
  ghost predicate BindsTakenIdsThenFails(vs: Views, a: string, r: ConnectReply) {
    && a in vs && vs[a].state != Connected
    && r.RefuseBound?
    && Taken(vs, a, IdsOf(FreshAll(r.mapped)))
  }

  lemma ReplaceKeepsDisjointIff(vs: Views, a: string, v: AdapterView)
    requires Disjoint(vs) && a in vs
    ensures Disjoint(vs[a := v]) <==> !Taken(vs, a, ExposedIds(v))
  {
    var vs' := vs[a := v];
    if Taken(vs, a, ExposedIds(v)) {
      var b :| b in vs && b != a && !(ExposedIds(vs[b]) !! ExposedIds(v));
      assert vs'[b] == vs[b] && vs'[a] == v;
    } else {
      forall b | b in vs && b != a
        ensures ExposedIds(vs'[b]) !! ExposedIds(vs'[a])
      {
        assert vs'[b] == vs[b];
      }
    }
  }

  /** A connect through the manager keeps exposed ids disjoint exactly unless the
      adapter binds taken ids and then fails. */
  lemma ConnectKeepsDisjointIff(vs: Views, a: string, r: ConnectReply)
    requires Registered(vs) && Disjoint(vs)
    ensures Disjoint(AfterConnectAdapter(vs, a, r)) <==> !BindsTakenIdsThenFails(vs, a, r)
  {
    if a in vs && vs[a].state != Connected {
      var v := AfterConnect(vs[a], r);
      ReplaceKeepsDisjointIff(vs, a, v);
      ReplaceKeepsDisjointIff(vs, a, AfterDisconnect(v));
      assert ExposedIds(AfterDisconnect(v)) == {};
      if r.Refuse? {
        assert ExposedIds(v) == IdsOf(vs[a].bound) == ExposedIds(vs[a]);
        assert !Taken(vs, a, ExposedIds(v));
      }
    }
  }

  /** Some other adapter that is not Disconnected has the id bound. */
  ghost predicate BoundElsewhere(vs: Views, a: string, id: string) {
    exists b :: b in vs && b != a && vs[b].state != Disconnected && IsBound(vs[b].bound, id)
  }

  ghost predicate SomeBoundElsewhere(vs: Views, a: string, es: seq<EquipmentState>) {
    exists k :: 0 <= k < |es| && BoundElsewhere(vs, a, es[k].id)
  }

  lemma TakenIff(vs: Views, a: string, es: seq<EquipmentState>)
    ensures Taken(vs, a, IdsOf(es)) <==> SomeBoundElsewhere(vs, a, es)
  {
    if Taken(vs, a, IdsOf(es)) {
      var b :| b in vs && b != a && !(ExposedIds(vs[b]) !! IdsOf(es));
      var id :| id in ExposedIds(vs[b]) && id in IdsOf(es);
      assert IsBound(vs[b].bound, id) && BoundElsewhere(vs, a, id);
    }
    if k :| 0 <= k < |es| && BoundElsewhere(vs, a, es[k].id) {
      var b :| b in vs && b != a && vs[b].state != Disconnected && IsBound(vs[b].bound, es[k].id);
      assert es[k].id in ExposedIds(vs[b]) && es[k].id in IdsOf(es);
    }
  }

  /** What a connect through the manager leaves of the adapter: Connected with what it
      bound, unless an id of it is bound elsewhere, and then Disconnected with nothing;
      after a failure Faulted with the reason, and with what it had or what it bound. */
  lemma ConnectOutcome(vs: Views, a: string, r: ConnectReply)
    requires a in vs && vs[a].state != Connected
    ensures var v, vs' := vs[a], AfterConnectAdapter(vs, a, r);
      && vs'.Keys == vs.Keys && (forall b :: b in vs && b != a ==> vs'[b] == vs[b])
      && match r
         case Bind(ms) =>
           vs'[a] == if SomeBoundElsewhere(vs, a, FreshAll(ms)) then AdapterView(v.id, v.protocol, Disconnected, "", [])
                     else AdapterView(v.id, v.protocol, Connected, "", FreshAll(ms))
         case Reuse =>
           vs'[a] == if SomeBoundElsewhere(vs, a, v.bound) then AdapterView(v.id, v.protocol, Disconnected, "", [])
                     else AdapterView(v.id, v.protocol, Connected, "", v.bound)
         case Refuse(e) => vs'[a] == AdapterView(v.id, v.protocol, Faulted, e, v.bound)
         case RefuseBound(ms, e) => vs'[a] == AdapterView(v.id, v.protocol, Faulted, e, FreshAll(ms))
  {
    TakenIff(vs, a, AfterConnect(vs[a], r).bound);
    assert r.Bind? || r.Reuse? ==> Exposed(AfterConnect(vs[a], r)) == AfterConnect(vs[a], r).bound;
  }

  /** Disconnecting, one or all, leaves nothing bound and no error, whatever the state was. */
  lemma DisconnectOutcome(vs: Views, a: string)
    requires a in vs
    ensures var gone := AdapterView(vs[a].id, vs[a].protocol, Disconnected, "", []);
      && AfterDisconnectAll(vs).Keys == vs.Keys && AfterDisconnectAll(vs)[a] == gone
      && AfterDisconnectAdapter(vs, a) == vs[a := gone]
  {
  }

  /** The result of a connect tells the state it left the adapter in. */
  lemma ResultTellsState(vs: Views, a: string, r: ConnectReply, result: ManagerResult)
    requires ResultFits(vs, a, r, result)
    ensures result == AdapterNotFound <==> a !in vs
    ensures a in vs ==>
      var v' := AfterConnectAdapter(vs, a, r)[a];
      && (result == AlreadyConnected <==> vs[a].state == Connected)
      && (result == AlreadyConnected || result == ConnectedNow <==> v'.state == Connected)
      && (result.Collision? <==> v'.state == Disconnected) && (result.ConnectFailed? <==> v'.state == Faulted)
      && (result.ConnectFailed? && v'.lastError != "" ==> result.reason == v'.lastError)
    ensures result.Collision? ==>
      && BoundElsewhere(vs, a, result.equipmentId) && result.otherAdapter in vs && result.otherAdapter != a
      && IsBound(vs[result.otherAdapter].bound, result.equipmentId)
  {
    if result.Collision? {
      assert IsBound(vs[result.otherAdapter].bound, result.equipmentId);
    }
  }

  /** A connect is the adapter's own connect followed by the manager's check. */
  ghost function AfterCheck(vs: Views, a: string): Views
    requires a in vs
  {
    if vs[a].state == Connected && Taken(vs, a, ExposedIds(vs[a])) then AfterDisconnectAdapter(vs, a) else vs
  }

  ghost predicate CheckFits(vs: Views, a: string, result: ManagerResult)
    requires a in vs
  {
    if Taken(vs, a, ExposedIds(vs[a])) then NamesCollision(vs, a, ExposedIds(vs[a]), result)
    else result == ConnectedNow
  }

  lemma ConnectThenCheck(vs: Views, a: string, r: ConnectReply)
    requires a in vs && vs[a].state != Connected
    ensures AfterConnectAdapter(vs, a, r) == AfterCheck(vs[a := AfterConnect(vs[a], r)], a)
    ensures forall result :: ConnectOk(vs[a], r) && CheckFits(vs[a := AfterConnect(vs[a], r)], a, result) ==>
      ResultFits(vs, a, r, result)
  {
    var v := AfterConnect(vs[a], r);
    var vs' := vs[a := v];
    assert Taken(vs', a, ExposedIds(v)) <==> Taken(vs, a, ExposedIds(v)) by {
      if Taken(vs, a, ExposedIds(v)) {
        var b :| b in vs && b != a && !(ExposedIds(vs[b]) !! ExposedIds(v));
        assert vs'[b] == vs[b];
      }
    }
    assert vs'[a := AfterDisconnect(v)] == vs[a := AfterDisconnect(v)];
  }

  /** The result of a connect tells which way it went, and a collision names an id that
      the candidate and another adapter both expose. */
  ghost predicate ResultFits(vs: Views, a: string, r: ConnectReply, result: ManagerResult) {
    if a !in vs then result == AdapterNotFound
    else if vs[a].state == Connected then result == AlreadyConnected
    else
      var v := AfterConnect(vs[a], r);
      if !ConnectOk(vs[a], r) then
        result == ConnectFailed(if v.lastError == "" then "connect failed" else v.lastError)
      else if Taken(vs, a, ExposedIds(v)) then NamesCollision(vs, a, ExposedIds(v), result)
      else result == ConnectedNow
  }

  ghost predicate NamesCollision(vs: Views, a: string, ids: set<string>, result: ManagerResult) {
    && result.Collision? && result.equipmentId in ids
    && result.otherAdapter in vs && result.otherAdapter != a
    && result.equipmentId in ExposedIds(vs[result.otherAdapter])
  }

  class AdapterManager {
    var adapters: map<string, IndustrialAdapter>

    constructor ()
      ensures Valid() && adapters == map[] && Views() == map[]
    {
      adapters := map[];
    }

    ghost predicate Valid()
      reads this
    {
      forall a :: a in adapters ==> a != "" && adapters[a].id == a
    }

    ghost function Views(): Views
      reads this, adapters.Values
    {
      map a | a in adapters :: adapters[a].View()
    }

    method AddAdapter(adapter: IndustrialAdapter?) returns (result: ManagerResult)
      requires Valid()
      modifies this
      ensures Valid()
      ensures result == if adapter == null then AdapterIsNull
                        else if adapter.id == "" then AdapterIdEmpty
                        else if adapter.id in old(adapters) then DuplicateAdapterId else Added
      ensures result.Ok() ==> adapters == old(adapters)[adapter.id := adapter]
      ensures result.Ok() ==> Views() == old(Views())[adapter.id := adapter.View()]
      ensures !result.Ok() ==> adapters == old(adapters)
    {
      if adapter == null {
        return AdapterIsNull;
      }
      if adapter.id == "" {
        return AdapterIdEmpty;
      }
      if adapter.id in adapters {
        return DuplicateAdapterId;
      }
      adapters := adapters[adapter.id := adapter];
      return Added;
    }

    /** The adapter leaves the manager first and is disconnected afterwards. */
    method RemoveAdapter(adapterId: string) returns (result: ManagerResult)
      requires Valid()
      modifies this, adapters.Values
      ensures Valid()
      ensures result == if adapterId in old(adapters) then Removed else AdapterNotFound
      ensures adapters == old(adapters) - {adapterId}
      ensures Views() == old(Views()) - {adapterId}
      ensures adapterId in old(adapters) ==> old(adapters)[adapterId].state == Disconnected
    {
      if adapterId !in adapters {
        return AdapterNotFound;
      }
      var doomed := adapters[adapterId];
      adapters := adapters - {adapterId};
      if doomed.state != Disconnected {
        doomed.Disconnect();
      }
      return Removed;
    }

    method ConnectAdapter(adapterId: string, reply: ConnectReply) returns (result: ManagerResult)
      requires Valid()
      modifies adapters.Values
      ensures Valid()
      ensures Views() == AfterConnectAdapter(old(Views()), adapterId, reply)
      ensures ResultFits(old(Views()), adapterId, reply, result)
    {
      if adapterId !in adapters {
        return AdapterNotFound;
      }
      if adapters[adapterId].state == Connected {
        return AlreadyConnected;
      }
      ConnectThenCheck(Views(), adapterId, reply);
      var ok := ConnectEntry(adapterId, reply);
      if !ok {
        var reason := adapters[adapterId].lastError;
        return ConnectFailed(if reason == "" then "connect failed" else reason);
      }
      result := KeepOrRollBack(adapterId);
    }

    /** The check after a successful connect, and the disconnect that undoes it. */
    method KeepOrRollBack(adapterId: string) returns (result: ManagerResult)
      requires Valid() && adapterId in adapters && adapters[adapterId].state == Connected
      modifies adapters[adapterId]
      ensures Views() == AfterCheck(old(Views()), adapterId)
      ensures CheckFits(old(Views()), adapterId, result)
    {
      assert Views()[adapterId] == adapters[adapterId].View();
      result := CheckEquipmentIdCollisions(adapters[adapterId]);
      if result.Collision? {
        DisconnectEntry(adapterId);
      }
    }

    method ConnectEntry(adapterId: string, reply: ConnectReply) returns (ok: bool)
      requires Valid() && adapterId in adapters
      modifies adapters[adapterId]
      ensures ok == ConnectOk(old(adapters[adapterId].View()), reply)
      ensures adapters[adapterId].View() == AfterConnect(old(adapters[adapterId].View()), reply)
      ensures Views() == old(Views())[adapterId := adapters[adapterId].View()]
    {
      assert forall b :: b in adapters && b != adapterId ==> adapters[b] != adapters[adapterId];
      ok := adapters[adapterId].Connect(reply);
    }

    method DisconnectEntry(adapterId: string)
      requires Valid() && adapterId in adapters
      modifies adapters[adapterId]
      ensures adapters[adapterId].View() == AfterDisconnect(old(adapters[adapterId].View()))
      ensures Views() == old(Views())[adapterId := adapters[adapterId].View()]
    {
      assert forall b :: b in adapters && b != adapterId ==> adapters[b] != adapters[adapterId];
      adapters[adapterId].Disconnect();
    }

    /** Scans the candidate's list against every other adapter; the order in which the
        hash map yields the adapters is arbitrary. */
    method CheckEquipmentIdCollisions(candidate: IndustrialAdapter) returns (result: ManagerResult)
      requires Valid() && candidate.id in adapters && adapters[candidate.id] == candidate
      ensures result.Collision? || result == ConnectedNow
      ensures result.Collision? <==> Taken(Views(), candidate.id, ExposedIds(candidate.View()))
      ensures result.Collision? ==>
        && result.otherAdapter in adapters && result.otherAdapter != candidate.id
        && result.equipmentId in ExposedIds(adapters[result.otherAdapter].View())
        && result.equipmentId in ExposedIds(candidate.View())
    {
      var exposed := Exposed(candidate.View());
      for i := 0 to |exposed|
        invariant forall b, j :: b in adapters && b != candidate.id && 0 <= j < i ==>
          exposed[j].id !in ExposedIds(adapters[b].View())
      {
        var todo := adapters.Keys;
        while todo != {}
          invariant todo <= adapters.Keys
          invariant forall b :: b in adapters && b !in todo && b != candidate.id ==>
            exposed[i].id !in ExposedIds(adapters[b].View())
          decreases todo
        {
          var b :| b in todo;
          if adapters[b] != candidate {
            var found := adapters[b].EquipmentById(exposed[i].id);
            if found.Some? {
              result := Collision(exposed[i].id, b);
              assert exposed[i].id in ExposedIds(Views()[b]) && exposed[i].id in ExposedIds(candidate.View());
              return;
            }
          }
          todo := todo - {b};
        }
      }
      return ConnectedNow;
    }

    method DisconnectAdapter(adapterId: string) returns (result: ManagerResult)
      requires Valid()
      modifies adapters.Values
      ensures Valid()
      ensures result == if adapterId in adapters then DisconnectedNow else AdapterNotFound
      ensures Views() == AfterDisconnectAdapter(old(Views()), adapterId)
    {
      if adapterId !in adapters {
        return AdapterNotFound;
      }
      DisconnectEntry(adapterId);
      return DisconnectedNow;
    }

    method DisconnectAll()
      requires Valid()
      modifies adapters.Values
      ensures Valid()
      ensures Views() == AfterDisconnectAll(old(Views()))
    {
      var todo := adapters.Keys;
      while todo != {}
        invariant todo <= adapters.Keys
        invariant forall a :: a in todo ==> adapters[a].View() == old(adapters[a].View())
        invariant forall a :: a in adapters && a !in todo ==>
          adapters[a].View() == AfterDisconnect(old(adapters[a].View()))
        decreases todo
      {
        var a :| a in todo;
        assert forall b :: b in adapters && b != a ==> adapters[b] != adapters[a];
        adapters[a].Disconnect();
        todo := todo - {a};
      }
    }

    /** The first match of a scan in arbitrary order; where ids are disjoint there is
        only one adapter it can come from. */
    method EquipmentById(equipmentId: string) returns (found: Option<EquipmentState>, ghost owner: string)
      requires Valid()
      ensures found.Some? <==> exists a :: a in adapters && equipmentId in ExposedIds(adapters[a].View())
      ensures found.Some? ==>
        && owner in adapters && equipmentId in ExposedIds(adapters[owner].View())
        && found.value == FirstWithId(Exposed(adapters[owner].View()), equipmentId)
      ensures found.Some? && Disjoint(Views()) ==>
        forall a :: a in adapters && equipmentId in ExposedIds(adapters[a].View()) ==> a == owner
    {
      owner := "";
      var todo := adapters.Keys;
      while todo != {}
        invariant todo <= adapters.Keys
        invariant forall a :: a in adapters && a !in todo ==> equipmentId !in ExposedIds(adapters[a].View())
        decreases todo
      {
        var a :| a in todo;
        found := adapters[a].EquipmentById(equipmentId);
        if found.Some? {
          owner := a;
          assert equipmentId in ExposedIds(Views()[a]);
          assert forall b :: b in adapters ==> Views()[b] == adapters[b].View();
          return;
        }
        todo := todo - {a};
      }
      found := None;
    }
  }
}
