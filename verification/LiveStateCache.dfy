/** icp/src/LiveStateCache.cc: the latest snapshot of every equipment id. */
module LiveStateCaches {
  import opened Domain
  import opened AdapterContract
  import opened IndustrialAdapters

  datatype EquipmentSnapshot = EquipmentSnapshot(
    equipmentId: string,
    typ: string,
    operationalState: OperationalState,
    machineFault: bool,
    telemetry: map<string, TelemetryPoint>,
    adapterId: string,
    protocol: string,
    communicationState: ConnectionState,
    lastError: string,
    stale: bool)

  /** The entry is the item of this adapter, field by field. */
  ghost predicate ShowsItem(s: EquipmentSnapshot, e: EquipmentState, v: AdapterView) {
    && s.equipmentId == e.id && s.typ == e.typ && s.operationalState == e.operational
    && s.machineFault == e.fault && s.telemetry == e.telemetry
    && s.adapterId == v.id && s.protocol == v.protocol
    && s.communicationState == v.state && s.lastError == v.lastError
  }

  type Cache = map<string, EquipmentSnapshot>

  function MakeSnapshot(e: EquipmentState, v: AdapterView, stale: bool): EquipmentSnapshot {
    EquipmentSnapshot(e.id, e.typ, e.operational, e.fault, e.telemetry,
                      v.id, v.protocol, v.state, v.lastError, stale)
  }

  /** The snapshot an adapter contributes for one of its ids. Should the adapter list
      an id twice, the last one is what stays in the cache. */
  function SnapshotOf(v: AdapterView, id: string): EquipmentSnapshot
    requires id in ExposedIds(v)
  {
    MakeSnapshot(LastWithId(Exposed(v), id), v, v.state != Connected)
  }

  /** updateFromAdapter: the adapter's exposed ids and nothing else of its. */
  function Refreshed(c: Cache, v: AdapterView): Cache {
    map k | k in c.Keys + ExposedIds(v) && (k in ExposedIds(v) || c[k].adapterId != v.id)
      :: if k in ExposedIds(v) then SnapshotOf(v, k) else c[k]
  }

  /** The cache shows the last item of each id in the list, field by field. */
  ghost predicate ShowsEach(c: Cache, es: seq<EquipmentState>, v: AdapterView, stale: bool) {
    forall i: nat :: IsLastOfId(es, i) ==>
      es[i].id in c && ShowsItem(c[es[i].id], es[i], v) && c[es[i].id].stale == stale
  }

  lemma OverwriteShowsEach(c: Cache, es: seq<EquipmentState>, v: AdapterView, stale: bool)
    requires forall k :: k in IdsOf(es) ==> k in c && c[k] == MakeSnapshot(LastWithId(es, k), v, stale)
    ensures ShowsEach(c, es, v, stale)
  {
    forall i: nat | IsLastOfId(es, i)
      ensures es[i].id in c && ShowsItem(c[es[i].id], es[i], v) && c[es[i].id].stale == stale
    {
      LastAt(es, i);
    }
  }

  /** Whatever an adapter that is not Disconnected has bound, the cache shows, and no
      other entry is the adapter's; a Disconnected adapter has no entry at all. */
  ghost predicate ShowsBound(c: Cache, v: AdapterView) {
    && (v.state != Disconnected ==> ShowsEach(c, v.bound, v, v.state == Faulted))
    && (forall k :: k in c && c[k].adapterId == v.id ==> v.state != Disconnected && IsBound(v.bound, k))
  }

  lemma RefreshShowsBound(c: Cache, v: AdapterView)
    ensures ShowsBound(Refreshed(c, v), v)
  {
    if v.state != Disconnected {
      OverwriteShowsEach(Refreshed(c, v), v.bound, v, v.state == Faulted);
    }
  }

  function MarkedEntry(s: EquipmentSnapshot, state: ConnectionState, lastError: string): EquipmentSnapshot {
    s.(communicationState := state, lastError := lastError, stale := state != Connected)
  }

  /** markAdapterCommunication: only the communication fields of the adapter's entries. */
  function Marked(c: Cache, adapterId: string, state: ConnectionState, lastError: string): Cache {
    map k | k in c :: if c[k].adapterId == adapterId then MarkedEntry(c[k], state, lastError) else c[k]
  }

  function Dropped(c: Cache, adapterId: string): Cache {
    map k | k in c && c[k].adapterId != adapterId :: c[k]
  }

  /** What holds of a cache whatever was done to it. */
  ghost predicate CacheOk(c: Cache) {
    forall k :: k in c ==> c[k].equipmentId == k && (c[k].stale <==> c[k].communicationState != Connected)
  }

  class LiveStateCache {
    var byId: Cache

    constructor ()
      ensures byId == map[]
    {
      byId := map[];
    }

    method UpdateFromAdapter(a: IndustrialAdapter)
      modifies this
      ensures byId == Refreshed(old(byId), a.View())
      ensures ShowsBound(byId, a.View())
      ensures CacheOk(old(byId)) ==> CacheOk(byId)
    {
      RefreshFrom(a.View());
      RefreshShowsBound(old(byId), a.View());
    }

    method RefreshFrom(v: AdapterView)
      modifies this
      ensures byId == Refreshed(old(byId), v)
      ensures CacheOk(old(byId)) ==> CacheOk(byId)
    {
      var stale := v.state != Connected;
      var exposed := Exposed(v);
      PruneAdapter(v.id, exposed);
      Overwrite(exposed, v, stale);
    }

    /** The overwriting loop: the last item of an id is the one that stays. */
    method Overwrite(exposed: seq<EquipmentState>, v: AdapterView, stale: bool)
      modifies this
      ensures byId == map k | k in old(byId).Keys + IdsOf(exposed) ::
        if k in IdsOf(exposed) then MakeSnapshot(LastWithId(exposed, k), v, stale) else old(byId)[k]
      ensures ShowsEach(byId, exposed, v, stale)
    {
      for i := 0 to |exposed|
        invariant byId.Keys == old(byId).Keys + IdsOf(exposed[..i])
        invariant forall k :: k in byId ==>
          byId[k] == if k in IdsOf(exposed[..i])
                     then MakeSnapshot(LastWithId(exposed[..i], k), v, stale) else old(byId)[k]
      {
        byId := byId[exposed[i].id := MakeSnapshot(exposed[i], v, stale)];
        LastOfPrefix(exposed, i);
      }
      assert exposed[..|exposed|] == exposed;
      OverwriteShowsEach(byId, exposed, v, stale);
    }

    /** The erase-while-iterating loop: entries of the adapter it no longer exposes. */
    method PruneAdapter(adapterId: string, exposed: seq<EquipmentState>)
      modifies this
      ensures byId == map k | k in old(byId) && (old(byId)[k].adapterId != adapterId || k in IdsOf(exposed))
                        :: old(byId)[k]
    {
      var todo := byId.Keys;
      while todo != {}
        invariant todo <= byId.Keys <= old(byId).Keys
        invariant forall k :: k in byId ==> byId[k] == old(byId)[k]
        invariant forall k :: k in old(byId) && k !in todo ==>
          (k in byId <==> old(byId)[k].adapterId != adapterId || k in IdsOf(exposed))
        decreases todo
      {
        var k :| k in todo;
        if byId[k].adapterId == adapterId {
          var stillPresent := IsListed(exposed, k);
          if !stillPresent {
            byId := byId - {k};
          }
        }
        todo := todo - {k};
      }
    }

    static method IsListed(exposed: seq<EquipmentState>, id: string) returns (found: bool)
      ensures found <==> id in IdsOf(exposed)
    {
      found := false;
      for i := 0 to |exposed|
        invariant forall j :: 0 <= j < i ==> exposed[j].id != id
      {
        if exposed[i].id == id {
          return true;
        }
      }
    }

    method MarkAdapterCommunication(adapterId: string, state: ConnectionState, lastError: string)
      modifies this
      ensures byId == Marked(old(byId), adapterId, state, lastError)
      ensures forall k :: k in byId ==> k in old(byId) && byId[k].machineFault == old(byId)[k].machineFault
      ensures CacheOk(old(byId)) ==> CacheOk(byId)
    {
      var todo := byId.Keys;
      while todo != {}
        invariant byId.Keys == old(byId).Keys && todo <= byId.Keys
        invariant forall k :: k in todo ==> byId[k] == old(byId)[k]
        invariant forall k :: k in byId && k !in todo ==>
          byId[k] == if old(byId)[k].adapterId == adapterId
                     then MarkedEntry(old(byId)[k], state, lastError) else old(byId)[k]
        decreases todo
      {
        var k :| k in todo;
        if byId[k].adapterId == adapterId {
          byId := byId[k := MarkedEntry(byId[k], state, lastError)];
        }
        todo := todo - {k};
      }
    }

    method RemoveAdapterEquipment(adapterId: string)
      modifies this
      ensures byId == Dropped(old(byId), adapterId)
      ensures CacheOk(old(byId)) ==> CacheOk(byId)
    {
      var todo := byId.Keys;
      while todo != {}
        invariant todo <= byId.Keys <= old(byId).Keys
        invariant forall k :: k in byId ==> byId[k] == old(byId)[k]
        invariant forall k :: k in old(byId) && k !in todo ==>
          (k in byId <==> old(byId)[k].adapterId != adapterId)
        decreases todo
      {
        var k :| k in todo;
        if byId[k].adapterId == adapterId {
          byId := byId - {k};
        }
        todo := todo - {k};
      }
    }

    method EquipmentById(id: string) returns (found: Option<EquipmentSnapshot>)
      ensures found == if id in byId then Some(byId[id]) else None
    {
      if id in byId {
        return Some(byId[id]);
      }
      return None;
    }
  }

  lemma LastOfPrefix(es: seq<EquipmentState>, i: nat)
    requires i < |es|
    ensures IdsOf(es[..i + 1]) == IdsOf(es[..i]) + {es[i].id}
    ensures forall k :: k in IdsOf(es[..i + 1]) ==>
      LastWithId(es[..i + 1], k) == if k == es[i].id then es[i] else LastWithId(es[..i], k)
  {
    var s := es[..i + 1];
    assert s[..|s| - 1] == es[..i] && s[|s| - 1] == es[i];
    forall k | k in IdsOf(es[..i])
      ensures k in IdsOf(s)
    {
      var j :| 0 <= j < i && es[..i][j].id == k;
      assert s[j].id == k;
    }
    forall k | k in IdsOf(s)
      ensures k in IdsOf(es[..i]) + {es[i].id}
      ensures LastWithId(s, k) == if k == es[i].id then es[i] else LastWithId(es[..i], k)
    {
      var j :| 0 <= j < |s| && s[j].id == k;
      if k != es[i].id {
        assert es[..i][j].id == k;
      }
    }
  }
}
