/** icp/src/PollScheduler.cc, the polling half: one pass over the adapters in whatever
    order the hash map gives, and the closed form of the cache it leaves. */
module PollSchedulers {
  import opened Domain
  import opened AdapterContract
  import opened IndustrialAdapters
  import opened LiveStateCaches
  import opened AdapterManagers

  /** What the field devices answer during one pass, by adapter id. */
  type Replies = map<string, PollReply>

  function ReplyFor(replies: Replies, a: string): PollReply {
    if a in replies then replies[a] else PollReply([], None)
  }

  // ----- one visit -----

  /** Only a Connected adapter is polled. */
  function VisitedView(v: AdapterView, r: PollReply): (v': AdapterView)
    ensures v'.id == v.id && ExposedIds(v') == ExposedIds(v)
    ensures WellFormed(v) ==> WellFormed(v')
  {
    if v.state == Connected then AfterPoll(v, r) else v
  }

  /** pollAdapterLocked on values: the three-way dispatch. */
  function VisitedCache(c: Cache, v: AdapterView, r: PollReply): Cache {
    match v.state
    case Disconnected => Dropped(c, v.id)
    case Connected => Refreshed(c, VisitedView(v, r))
    case Faulted =>
      var c' := if Exposed(v) != [] then Refreshed(c, v) else c;
      Marked(c', v.id, Faulted, v.lastError)
  }

  function VisitedViews(vs: Views, replies: Replies): (vs': Views)
    ensures vs'.Keys == vs.Keys
  {
    map a | a in vs :: VisitedView(vs[a], ReplyFor(replies, a))
  }

  // ----- one pass -----

  ghost predicate IsOrder(order: seq<string>, ids: set<string>) {
    && (forall a :: a in order <==> a in ids)
    && (forall i, j :: 0 <= i < j < |order| ==> order[i] != order[j])
  }

  function CacheAfter(c: Cache, vs: Views, replies: Replies, order: seq<string>): Cache
    requires forall a :: a in order ==> a in vs
  {
    if order == [] then c else
      var a := order[|order| - 1];
      VisitedCache(CacheAfter(c, vs, replies, order[..|order| - 1]), vs[a], ReplyFor(replies, a))
  }

  /** A Faulted adapter that exposes nothing leaves its entries in place, marked. */
  predicate KeepsOrphans(v: AdapterView) {
    v.state == Faulted && Exposed(v) == []
  }

  /** What the cache c holds at key k once the adapters in done were visited, starting
      from c0: the snapshot of whoever exposes k; failing that, the old entry as its
      owner's visit treats it. */
  ghost predicate SettledAt(c0: Cache, vs: Views, replies: Replies, done: set<string>, c: Cache, k: string)
    requires done <= vs.Keys
  {
    && (forall a :: a in done && k in ExposedIds(vs[a]) ==>
          k in c && c[k] == SnapshotOf(VisitedView(vs[a], ReplyFor(replies, a)), k))
    && ((forall a :: a in done ==> k !in ExposedIds(vs[a])) ==>
          if k in c0 && c0[k].adapterId !in done then k in c && c[k] == c0[k]
          else if k in c0 && KeepsOrphans(vs[c0[k].adapterId]) then
            k in c && c[k] == MarkedEntry(c0[k], Faulted, vs[c0[k].adapterId].lastError)
          else k !in c)
  }

  ghost predicate Settled(c0: Cache, vs: Views, replies: Replies, done: set<string>, c: Cache)
    requires done <= vs.Keys
  {
    forall k :: SettledAt(c0, vs, replies, done, c, k)
  }

  lemma SettledInOneWay(c0: Cache, vs: Views, replies: Replies, done: set<string>, c: Cache, d: Cache)
    requires done <= vs.Keys
    requires Settled(c0, vs, replies, done, c) && Settled(c0, vs, replies, done, d)
    ensures c == d
  {
    forall k
      ensures k in c <==> k in d
      ensures k in c ==> c[k] == d[k]
    {
      assert SettledAt(c0, vs, replies, done, c, k) && SettledAt(c0, vs, replies, done, d, k);
      if a :| a in done && k in ExposedIds(vs[a]) {
      }
    }
  }

  /** Visiting one more adapter settles one more adapter. */
  lemma VisitSettles(c0: Cache, vs: Views, replies: Replies, done: set<string>, c: Cache, a: string)
    requires Registered(vs) && Disjoint(vs) && done <= vs.Keys && a in vs && a !in done
    requires Settled(c0, vs, replies, done, c)
    ensures Settled(c0, vs, replies, done + {a}, VisitedCache(c, vs[a], ReplyFor(replies, a)))
  {
    forall k
      ensures SettledAt(c0, vs, replies, done + {a}, VisitedCache(c, vs[a], ReplyFor(replies, a)), k)
    {
      assert SettledAt(c0, vs, replies, done, c, k);
      VisitSettlesAt(c0, vs, replies, done, c, a, k);
    }
  }

  /** One visit, key by key. */
  lemma VisitAt(c: Cache, v: AdapterView, r: PollReply, k: string)
    requires WellFormed(v)
    ensures var c' := VisitedCache(c, v, r);
      if k in ExposedIds(v) then k in c' && c'[k] == SnapshotOf(VisitedView(v, r), k)
      else if k !in c then k !in c'
      else if c[k].adapterId != v.id then k in c' && c'[k] == c[k]
      else if KeepsOrphans(v) then k in c' && c'[k] == MarkedEntry(c[k], Faulted, v.lastError)
      else k !in c'
  {
  }

  lemma VisitSettlesAt(c0: Cache, vs: Views, replies: Replies, done: set<string>, c: Cache, a: string, k: string)
    requires Registered(vs) && Disjoint(vs) && done <= vs.Keys && a in vs && a !in done
    requires SettledAt(c0, vs, replies, done, c, k)
    ensures SettledAt(c0, vs, replies, done + {a}, VisitedCache(c, vs[a], ReplyFor(replies, a)), k)
  {
    if b :| b in done && k in ExposedIds(vs[b]) {
      ExposedBeforeSettles(c0, vs, replies, done, c, a, b, k);
    } else if k in ExposedIds(vs[a]) {
      VisitAt(c, vs[a], ReplyFor(replies, a), k);
    } else {
      ExposedByNoneSettles(c0, vs, replies, done, c, a, k);
    }
  }

  /** Exposed by an adapter visited before: this visit leaves the entry alone. */
  lemma ExposedBeforeSettles(c0: Cache, vs: Views, replies: Replies, done: set<string>, c: Cache, a: string, b: string, k: string)
    requires Registered(vs) && Disjoint(vs) && done <= vs.Keys && a in vs && a !in done
    requires b in done && k in ExposedIds(vs[b]) && SettledAt(c0, vs, replies, done, c, k)
    ensures SettledAt(c0, vs, replies, done + {a}, VisitedCache(c, vs[a], ReplyFor(replies, a)), k)
  {
    VisitAt(c, vs[a], ReplyFor(replies, a), k);
    assert c[k].adapterId == b && vs[a].id == a;
    assert k !in ExposedIds(vs[a]);
  }

  lemma ExposedByNoneSettles(c0: Cache, vs: Views, replies: Replies, done: set<string>, c: Cache, a: string, k: string)
    requires Registered(vs) && done <= vs.Keys && a in vs && a !in done
    requires SettledAt(c0, vs, replies, done, c, k)
    requires k !in ExposedIds(vs[a]) && forall b :: b in done ==> k !in ExposedIds(vs[b])
    ensures SettledAt(c0, vs, replies, done + {a}, VisitedCache(c, vs[a], ReplyFor(replies, a)), k)
  {
  }

  /** Whatever order the adapters come in, the pass leaves the closed form. */
  lemma {:induction false} PassSettles(c0: Cache, vs: Views, replies: Replies, order: seq<string>, done: set<string>)
    requires Registered(vs) && Disjoint(vs) && done <= vs.Keys && IsOrder(order, done)
    ensures Settled(c0, vs, replies, done, CacheAfter(c0, vs, replies, order))
  {
    if order == [] {
      assert done == {};
    } else {
      var a, before := order[|order| - 1], order[..|order| - 1];
      assert IsOrder(before, done - {a});
      PassSettles(c0, vs, replies, before, done - {a});
      VisitSettles(c0, vs, replies, done - {a}, CacheAfter(c0, vs, replies, before), a);
      assert done - {a} + {a} == done;
    }
  }

  /** Any two visiting orders leave the same cache. */
  lemma OrderDoesNotMatter(c0: Cache, vs: Views, replies: Replies, order: seq<string>, order': seq<string>)
    requires Registered(vs) && Disjoint(vs)
    requires IsOrder(order, vs.Keys) && IsOrder(order', vs.Keys)
    ensures CacheAfter(c0, vs, replies, order) == CacheAfter(c0, vs, replies, order')
  {
    PassSettles(c0, vs, replies, order, vs.Keys);
    PassSettles(c0, vs, replies, order', vs.Keys);
    SettledInOneWay(c0, vs, replies, vs.Keys, CacheAfter(c0, vs, replies, order), CacheAfter(c0, vs, replies, order'));
  }

  // ----- the closed form field by field -----

  /** The entry of item i of the adapter, the last of its id: what was read for the item,
      if the adapter was up and an answer came, and otherwise what the item showed; and
      the state of the link after it. */
  ghost predicate ShowsAnswer(c: Cache, vs: Views, replies: Replies, a: string, i: nat)
    requires a in vs && i < |vs[a].bound|
  {
    var id := vs[a].bound[i].id;
    id in c && c[id].adapterId == a &&
    EntryShows(c[id], vs[a], i, if vs[a].state == Connected && a in replies then Some(replies[a]) else None)
  }

  ghost predicate EntryShows(s: EquipmentSnapshot, v: AdapterView, i: nat, answer: Option<PollReply>)
    requires i < |v.bound|
  {
    var e := v.bound[i];
    var failed := answer.Some? && answer.value.failure.Some?;
    && s.equipmentId == e.id && s.typ == e.typ && s.protocol == v.protocol
    && (if answer.Some? && i < |answer.value.updates| then ShowsUpdate(s, answer.value.updates[i], e.fault)
        else s.operationalState == e.operational && s.telemetry == e.telemetry && s.machineFault == e.fault)
    && s.communicationState == (if failed then Faulted else v.state)
    && s.lastError == (if failed then answer.value.failure.value else v.lastError)
    && (s.stale <==> failed || v.state == Faulted)
  }

  lemma SnapshotShows(v: AdapterView, replies: Replies, a: string, i: nat)
    requires v.state != Disconnected && i < |v.bound|
    ensures var v' := VisitedView(v, ReplyFor(replies, a));
      && |v'.bound| == |v.bound| && (forall k :: 0 <= k < |v.bound| ==> v'.bound[k].id == v.bound[k].id)
      && EntryShows(MakeSnapshot(v'.bound[i], v', v'.state != Connected), v, i,
                    if v.state == Connected && a in replies then Some(replies[a]) else None)
  {
  }

  ghost predicate ShowsUpdate(s: EquipmentSnapshot, u: Update, fault: bool) {
    && s.operationalState == u.operational && s.telemetry == u.telemetry
    && s.machineFault == (if u.faultRead.None? then fault else u.faultRead == Some(true))
  }

  /** The entry under an id that no adapter exposes: kept if its owner is unknown, kept
      with the owner's fault if the owner is Faulted and has nothing bound, else gone. */
  ghost predicate LeavesOther(c0: Cache, c: Cache, vs: Views, k: string) {
    if k !in c0 then k !in c
    else
      var s := c0[k];
      if s.adapterId !in vs then k in c && c[k] == s
      else if vs[s.adapterId].state == Faulted && vs[s.adapterId].bound == [] then
        k in c && c[k] == EquipmentSnapshot(s.equipmentId, s.typ, s.operationalState, s.machineFault, s.telemetry,
                                            s.adapterId, s.protocol, Faulted, vs[s.adapterId].lastError, true)
      else k !in c
  }

  ghost predicate FieldsRight(c0: Cache, vs: Views, replies: Replies, c: Cache) {
    && (forall a: string, i: nat :: a in vs && vs[a].state != Disconnected && IsLastOfId(vs[a].bound, i) ==>
          ShowsAnswer(c, vs, replies, a, i))
    && (forall k :: (forall a :: a in vs && vs[a].state != Disconnected ==> !IsBound(vs[a].bound, k)) ==>
          LeavesOther(c0, c, vs, k))
  }

  lemma PassShowsAnswer(c0: Cache, vs: Views, replies: Replies, c: Cache, a: string, i: nat)
    requires Registered(vs) && Disjoint(vs) && Settled(c0, vs, replies, vs.Keys, c)
    requires a in vs && vs[a].state != Disconnected && IsLastOfId(vs[a].bound, i)
    ensures ShowsAnswer(c, vs, replies, a, i)
  {
    var v := VisitedView(vs[a], ReplyFor(replies, a));
    var id := vs[a].bound[i].id;
    SnapshotShows(vs[a], replies, a, i);
    assert IsLastOfId(v.bound, i) && v.bound[i].id == id;
    LastAt(vs[a].bound, i);
    LastAt(v.bound, i);
    assert SettledAt(c0, vs, replies, vs.Keys, c, id);
    assert c[id] == MakeSnapshot(v.bound[i], v, v.state != Connected);
  }

  /** What a pass over disjoint adapters leaves, in the terms of the adapters' own
      equipment and of what the field answered. */
  lemma PassLeavesFields(c0: Cache, vs: Views, replies: Replies, c: Cache)
    requires Registered(vs) && Disjoint(vs) && Settled(c0, vs, replies, vs.Keys, c)
    ensures FieldsRight(c0, vs, replies, c)
  {
    forall a: string, i: nat | a in vs && vs[a].state != Disconnected && IsLastOfId(vs[a].bound, i)
      ensures ShowsAnswer(c, vs, replies, a, i)
    {
      PassShowsAnswer(c0, vs, replies, c, a, i);
    }
    forall k | forall a :: a in vs && vs[a].state != Disconnected ==> !IsBound(vs[a].bound, k)
      ensures LeavesOther(c0, c, vs, k)
    {
      NoneExposes(vs, k);
      assert SettledAt(c0, vs, replies, vs.Keys, c, k);
    }
  }

  lemma NoneExposes(vs: Views, k: string)
    requires forall a :: a in vs && vs[a].state != Disconnected ==> !IsBound(vs[a].bound, k)
    ensures forall a :: a in vs ==> k !in ExposedIds(vs[a])
  {
    forall a | a in vs
      ensures k !in ExposedIds(vs[a])
    {
      assert vs[a].state != Disconnected ==> !IsBound(vs[a].bound, k);
    }
  }

  function TwoOwners(a: string, b: string, k: string): Views {
    var e := FreshEquipment(Mapped(k, "pump", [], map[]));
    map[a := AdapterView(a, "mock", Connected, "", [e]), b := AdapterView(b, "mock", Connected, "", [e])]
  }

  lemma TwoOwnersCollide(a: string, b: string, k: string)
    requires a != b && a != "" && b != ""
    ensures var vs := TwoOwners(a, b, k);
      && vs.Keys == {a, b} && Registered(vs) && !Disjoint(vs)
      && vs[a].state == Connected && vs[b].state == Connected
      && k in ExposedIds(vs[a]) && k in ExposedIds(vs[b])
  {
    var vs := TwoOwners(a, b, k);
    assert Exposed(vs[a])[0].id == k && Exposed(vs[b])[0].id == k;
    assert k in ExposedIds(vs[a]) && k in ExposedIds(vs[b]);
  }

  lemma OrderOf(ids: set<string>) returns (order: seq<string>)
    ensures IsOrder(order, ids)
    decreases |ids|
  {
    if ids == {} {
      order := [];
    } else {
      var a :| a in ids;
      order := OrderOf(ids - {a});
      order := order + [a];
    }
  }

  /** Whoever exposes an id and is visited last owns its entry. */
  lemma LastVisitWins(c0: Cache, vs: Views, replies: Replies, order: seq<string>, done: set<string>, a: string, k: string)
    requires Registered(vs) && IsOrder(order, done) && a !in done && done + {a} <= vs.Keys && k in ExposedIds(vs[a])
    ensures IsOrder(order + [a], done + {a})
    ensures var c := CacheAfter(c0, vs, replies, order + [a]); k in c && c[k].adapterId == a
  {
    PassExtends(c0, vs, replies, order, done, a);
    VisitAt(CacheAfter(c0, vs, replies, order), vs[a], ReplyFor(replies, a), k);
  }

  /** Disjointness is what this rests on: with an id exposed by two adapters, whatever
      their states, there are two orders that never leave the same cache. */
  lemma OrderMattersOnCollision(vs: Views, a: string, b: string, k: string) returns (order: seq<string>, order': seq<string>)
    requires Registered(vs) && a in vs && b in vs && a != b
    requires k in ExposedIds(vs[a]) && k in ExposedIds(vs[b])
    ensures IsOrder(order, vs.Keys) && IsOrder(order', vs.Keys)
    ensures forall c0, replies :: CacheAfter(c0, vs, replies, order) != CacheAfter(c0, vs, replies, order')
  {
    var others := vs.Keys - {a, b};
    var rest := OrderOf(others);
    order, order' := rest + [a] + [b], rest + [b] + [a];
    assert others + {a} + {b} == vs.Keys && others + {b} + {a} == vs.Keys;
    PassExtends(map[], vs, map[], rest, others, a);
    PassExtends(map[], vs, map[], rest, others, b);
    forall c0, replies
      ensures IsOrder(order, vs.Keys) && IsOrder(order', vs.Keys)
      ensures CacheAfter(c0, vs, replies, order) != CacheAfter(c0, vs, replies, order')
    {
      LastVisitWins(c0, vs, replies, rest + [a], others + {a}, b, k);
      LastVisitWins(c0, vs, replies, rest + [b], others + {b}, a, k);
    }
  }

  /** Every pass leaves the same cache in every order. */
  ghost predicate OrderIrrelevant(vs: Views) {
    forall c0, replies, order, order' :: IsOrder(order, vs.Keys) && IsOrder(order', vs.Keys) ==>
      CacheAfter(c0, vs, replies, order) == CacheAfter(c0, vs, replies, order')
  }

  /** The visiting order plays no part exactly when exposed ids are disjoint. */
  lemma OrderIrrelevantIff(vs: Views)
    requires Registered(vs)
    ensures OrderIrrelevant(vs) <==> Disjoint(vs)
  {
    if Disjoint(vs) {
      forall c0, replies, order, order' | IsOrder(order, vs.Keys) && IsOrder(order', vs.Keys)
        ensures CacheAfter(c0, vs, replies, order) == CacheAfter(c0, vs, replies, order')
      {
        OrderDoesNotMatter(c0, vs, replies, order, order');
      }
    } else {
      var a, b :| a in vs && b in vs && a != b && !(ExposedIds(vs[a]) !! ExposedIds(vs[b]));
      var k :| k in ExposedIds(vs[a]) && k in ExposedIds(vs[b]);
      var order, order' := OrderMattersOnCollision(vs, a, b, k);
      assert CacheAfter(map[], vs, map[], order) != CacheAfter(map[], vs, map[], order');
    }
  }

  // ----- agreement with the manager's lookup -----

  /** The snapshot of what the manager's first-match scan finds on the adapter. */
  function FoundSnapshot(v: AdapterView, id: string): EquipmentSnapshot
    requires id in ExposedIds(v)
  {
    MakeSnapshot(FirstWithId(Exposed(v), id), v, v.state != Connected)
  }

  /** The cache agrees with what it speeds up: right after a pass, for every exposed
      id, the cached snapshot is the snapshot of what the manager's first-match scan
      finds on the owning adapter. */
  lemma CacheAgreesWithManager(c0: Cache, vs: Views, replies: Replies, c: Cache, a: string, id: string)
    requires Registered(vs) && Disjoint(vs) && Settled(c0, vs, replies, vs.Keys, c)
    requires a in vs && id in ExposedIds(VisitedViews(vs, replies)[a])
    ensures id in c && c[id] == SnapshotOf(VisitedViews(vs, replies)[a], id) && c[id].adapterId == a
    ensures
      var v := VisitedViews(vs, replies)[a];
      DistinctIds(Exposed(v)) ==> c[id] == FoundSnapshot(v, id)
  {
    assert SettledAt(c0, vs, replies, vs.Keys, c, id);
    var v := VisitedViews(vs, replies)[a];
    if DistinctIds(Exposed(v)) {
      FirstIsLast(Exposed(v), id);
    }
  }

  /** Whatever a pass reads, and in every order, it leaves for each id of the adapter the
      snapshot of what the manager finds. */
  ghost predicate AlwaysAgrees(vs: Views, a: string)
    requires a in vs
  {
    forall c0, replies, order, id :: IsOrder(order, vs.Keys) && id in ExposedIds(vs[a]) ==>
      AgreesAfter(c0, vs, replies, order, a, id)
  }

  ghost predicate AgreesAfter(c0: Cache, vs: Views, replies: Replies, order: seq<string>, a: string, id: string)
    requires a in vs && IsOrder(order, vs.Keys) && id in ExposedIds(vs[a])
  {
    var c := CacheAfter(c0, vs, replies, order);
    id in c && c[id] == FoundSnapshot(VisitedView(vs[a], ReplyFor(replies, a)), id)
  }

  /** Items of one id look the same in a snapshot. */
  ghost predicate TwinsAlike(es: seq<EquipmentState>) {
    forall id :: id in IdsOf(es) ==>
      var f, l := FirstWithId(es, id), LastWithId(es, id);
      f.typ == l.typ && f.operational == l.operational && f.fault == l.fault && f.telemetry == l.telemetry
  }

  /** When cache and manager agree on an adapter for good: while it is Connected, exactly
      if it lists no id twice; while it is not, and so is not polled, exactly if the
      first and the last item it lists for an id look the same. */
  lemma AlwaysAgreesIff(vs: Views, a: string)
    requires Registered(vs) && Disjoint(vs) && a in vs
    ensures AlwaysAgrees(vs, a) <==>
      if vs[a].state == Connected then DistinctIds(vs[a].bound) else TwinsAlike(Exposed(vs[a]))
  {
    if vs[a].state == Connected {
      if DistinctIds(vs[a].bound) {
        AgreesIfSame(vs, a);
      } else {
        var r, id := PollThatDisagrees(vs[a]);
        DisagreesAfter(vs, a, map[a := r], id);
      }
    } else {
      if TwinsAlike(Exposed(vs[a])) {
        AgreesIfSame(vs, a);
      } else {
        var id :| id in ExposedIds(vs[a]) && SnapshotOf(vs[a], id) != FoundSnapshot(vs[a], id);
        DisagreesAfter(vs, a, map[], id);
      }
    }
  }

  lemma AgreesIfSame(vs: Views, a: string)
    requires Registered(vs) && Disjoint(vs) && a in vs
    requires if vs[a].state == Connected then DistinctIds(vs[a].bound) else TwinsAlike(Exposed(vs[a]))
    ensures AlwaysAgrees(vs, a)
  {
    forall c0, replies, order, id | IsOrder(order, vs.Keys) && id in ExposedIds(vs[a])
      ensures AgreesAfter(c0, vs, replies, order, a, id)
    {
      PassSettles(c0, vs, replies, order, vs.Keys);
      CacheAgreesWithManager(c0, vs, replies, CacheAfter(c0, vs, replies, order), a, id);
      VisitKeepsSame(vs[a], ReplyFor(replies, a), id);
    }
  }

  lemma VisitKeepsSame(v: AdapterView, r: PollReply, id: string)
    requires if v.state == Connected then DistinctIds(v.bound) else TwinsAlike(Exposed(v))
    requires id in ExposedIds(v)
    ensures SnapshotOf(VisitedView(v, r), id) == FoundSnapshot(VisitedView(v, r), id)
  {
    if v.state == Connected {
      assert DistinctIds(Exposed(VisitedView(v, r)));
      FirstIsLast(Exposed(VisitedView(v, r)), id);
    }
  }

  lemma DisagreesAfter(vs: Views, a: string, replies: Replies, id: string)
    requires Registered(vs) && Disjoint(vs) && a in vs && id in ExposedIds(vs[a])
    requires var v := VisitedView(vs[a], ReplyFor(replies, a)); SnapshotOf(v, id) != FoundSnapshot(v, id)
    ensures !AlwaysAgrees(vs, a)
  {
    var order := OrderOf(vs.Keys);
    PassSettles(map[], vs, replies, order, vs.Keys);
    CacheAgreesWithManager(map[], vs, replies, CacheAfter(map[], vs, replies, order), a, id);
    assert !AgreesAfter(map[], vs, replies, order, a, id);
  }

  /** The machine fault read as true for item i and as false for every other. */
  function OnlyFault(n: nat, i: nat): (us: seq<Update>)
    ensures |us| == n && forall k :: 0 <= k < n ==> us[k].faultRead == Some(k == i)
  {
    seq(n, k requires 0 <= k < n => Update(map[], Stopped, Some(k == i)))
  }

  /** With an id listed twice, a poll that reads a fault for its first item alone shows
      the manager a fault and the cache none. */
  lemma PollThatDisagrees(v: AdapterView) returns (r: PollReply, id: string)
    requires v.state == Connected && !DistinctIds(v.bound)
    ensures id in ExposedIds(v)
    ensures var v' := VisitedView(v, r);
      SnapshotOf(v', id).machineFault == false && FoundSnapshot(v', id).machineFault == true
  {
    var i, j := FirstTwin(v.bound);
    id := v.bound[i].id;
    r := PollReply(OnlyFault(|v.bound|, i), None);
    var es := VisitedView(v, r).bound;
    assert forall k :: 0 <= k < |es| ==> es[k].id == v.bound[k].id && es[k].fault == (k == i);
    FirstAt(es, id, i);
    LastIsAfter(es, id, j);
  }

  /** The same for one adapter by itself, whatever the rest of the registry. */
  lemma PollAgreesIff(v: AdapterView)
    requires v.state == Connected
    ensures DistinctIds(v.bound) <==>
      forall r, id :: id in ExposedIds(v) ==> SnapshotOf(VisitedView(v, r), id) == FoundSnapshot(VisitedView(v, r), id)
  {
    if DistinctIds(v.bound) {
      forall r, id | id in ExposedIds(v)
        ensures SnapshotOf(VisitedView(v, r), id) == FoundSnapshot(VisitedView(v, r), id)
      {
        VisitKeepsSame(v, r, id);
      }
    } else {
      var r, id := PollThatDisagrees(v);
      assert SnapshotOf(VisitedView(v, r), id) != FoundSnapshot(VisitedView(v, r), id);
    }
  }

  /** Two items of one id, the first of them being the first of that id. */
  lemma FirstTwin(es: seq<EquipmentState>) returns (i: nat, j: nat)
    requires !DistinctIds(es)
    ensures i < j < |es| && es[i].id == es[j].id && forall k :: 0 <= k < i ==> es[k].id != es[i].id
  {
    i, j :| 0 <= i < j < |es| && es[i].id == es[j].id;
    i := FirstIndex(es, es[i].id, i);
  }

  lemma {:induction false} FirstIndex(es: seq<EquipmentState>, id: string, n: nat) returns (i: nat)
    requires n < |es| && es[n].id == id
    ensures i <= n && es[i].id == id && forall k :: 0 <= k < i ==> es[k].id != id
  {
    if k: nat :| k < n && es[k].id == id {
      i := FirstIndex(es, id, k);
    } else {
      i := n;
    }
  }

  /** The last item of an id is at or after any item of it. */
  lemma {:induction false} LastIsAfter(es: seq<EquipmentState>, id: string, j: nat)
    requires j < |es| && es[j].id == id
    ensures id in IdsOf(es) && exists l :: j <= l < |es| && LastWithId(es, id) == es[l]
  {
    var n := |es| - 1;
    if es[n].id != id {
      LastIsAfter(es[..n], id, j);
    }
  }

  lemma PassKeepsAdapterInvariants(vs: Views, replies: Replies)
    requires Registered(vs)
    ensures Registered(VisitedViews(vs, replies))
    ensures Disjoint(vs) ==> Disjoint(VisitedViews(vs, replies))
  {
  }

  lemma VisitKeepsCacheOk(c: Cache, v: AdapterView, r: PollReply)
    requires CacheOk(c)
    ensures CacheOk(VisitedCache(c, v, r))
  {
  }

  lemma {:induction false} PassKeepsCacheOk(c: Cache, vs: Views, replies: Replies, order: seq<string>)
    requires CacheOk(c) && forall a :: a in order ==> a in vs
    ensures CacheOk(CacheAfter(c, vs, replies, order))
  {
    if order != [] {
      var a, before := order[|order| - 1], order[..|order| - 1];
      PassKeepsCacheOk(c, vs, replies, before);
      VisitKeepsCacheOk(CacheAfter(c, vs, replies, before), vs[a], ReplyFor(replies, a));
    }
  }

  lemma PassExtends(c: Cache, vs: Views, replies: Replies, order: seq<string>, done: set<string>, a: string)
    requires IsOrder(order, done) && a !in done && done + {a} <= vs.Keys
    ensures IsOrder(order + [a], done + {a})
    ensures CacheAfter(c, vs, replies, order + [a]) ==
      VisitedCache(CacheAfter(c, vs, replies, order), vs[a], ReplyFor(replies, a))
  {
  }

  // ----- the scheduler object -----

  class PollScheduler {
    const manager: AdapterManager
    const cache: LiveStateCache

    constructor (manager: AdapterManager, cache: LiveStateCache)
      ensures this.manager == manager && this.cache == cache
    {
      this.manager, this.cache := manager, cache;
    }

    /** One pass. The order is the hash map's choice; where ids are disjoint the cache
        is settled whatever it was. */
    method PollOnce(replies: Replies) returns (ghost order: seq<string>)
      requires manager.Valid()
      modifies cache, manager.adapters.Values
      ensures manager.Valid()
      ensures manager.Views() == VisitedViews(old(manager.Views()), replies)
      ensures IsOrder(order, old(manager.Views()).Keys)
      ensures cache.byId == CacheAfter(old(cache.byId), old(manager.Views()), replies, order)
      ensures SettledIfDisjoint(old(cache.byId), old(manager.Views()), replies, cache.byId)
      ensures CacheOk(old(cache.byId)) ==> CacheOk(cache.byId)
    {
      ghost var vs, c0 := manager.Views(), cache.byId;
      order := PassOver(replies);
      assert manager.Views() == VisitedViews(vs, replies);
      assert vs.Keys - {} == vs.Keys;
      PassKeeps(c0, vs, replies, order);
    }

    /** The pass, begun from vs and c0, has visited order and has todo left. */
    ghost predicate Midway(vs: Views, c0: Cache, replies: Replies, order: seq<string>, todo: set<string>)
      reads this, manager, cache, manager.adapters.Values
    {
      && manager.Valid() && todo <= manager.adapters.Keys == vs.Keys
      && IsOrder(order, vs.Keys - todo)
      && cache.byId == CacheAfter(c0, vs, replies, order)
      && forall a :: a in vs ==>
           manager.adapters[a].View() == (if a in todo then vs[a] else VisitedView(vs[a], ReplyFor(replies, a)))
    }

    method PassOver(replies: Replies) returns (ghost order: seq<string>)
      requires manager.Valid()
      modifies cache, manager.adapters.Values
      ensures Midway(old(manager.Views()), old(cache.byId), replies, order, {})
    {
      order := [];
      var todo := manager.adapters.Keys;
      while todo != {}
        invariant Midway(old(manager.Views()), old(cache.byId), replies, order, todo)
        decreases todo
      {
        var a :| a in todo;
        VisitEntry(a, ReplyFor(replies, a), old(manager.Views()), old(cache.byId), replies, order, todo);
        order, todo := order + [a], todo - {a};
      }
    }

    method VisitEntry(a: string, reply: PollReply, ghost vs: Views, ghost c0: Cache, ghost replies: Replies,
                      ghost order: seq<string>, ghost todo: set<string>)
      requires Midway(vs, c0, replies, order, todo) && a in todo && reply == ReplyFor(replies, a)
      modifies cache, manager.adapters[a]
      ensures Midway(vs, c0, replies, order + [a], todo - {a})
    {
      assert forall b :: b in manager.adapters && b != a ==> manager.adapters[b] != manager.adapters[a];
      PollAdapterLocked(manager.adapters[a], reply);
      PassExtends(c0, vs, replies, order, vs.Keys - todo, a);
      assert vs.Keys - (todo - {a}) == vs.Keys - todo + {a};
    }

    method PollAdapterLocked(adapter: IndustrialAdapter, reply: PollReply)
      modifies cache, adapter
      ensures adapter.View() == VisitedView(old(adapter.View()), reply)
      ensures cache.byId == VisitedCache(old(cache.byId), old(adapter.View()), reply)
    {
      var state := adapter.state;
      if state == Disconnected {
        cache.RemoveAdapterEquipment(adapter.id);
        return;
      }
      if state == Connected {
        adapter.Poll(reply);
        cache.UpdateFromAdapter(adapter);
        return;
      }
      if adapter.bound != [] {
        cache.UpdateFromAdapter(adapter);
      }
      cache.MarkAdapterCommunication(adapter.id, Faulted, adapter.lastError);
    }
  }

  ghost predicate SettledIfDisjoint(c0: Cache, vs: Views, replies: Replies, c: Cache) {
    Registered(vs) && Disjoint(vs) ==> Settled(c0, vs, replies, vs.Keys, c) && FieldsRight(c0, vs, replies, c)
  }

  lemma PassKeeps(c: Cache, vs: Views, replies: Replies, order: seq<string>)
    requires IsOrder(order, vs.Keys)
    ensures CacheOk(c) ==> CacheOk(CacheAfter(c, vs, replies, order))
    ensures SettledIfDisjoint(c, vs, replies, CacheAfter(c, vs, replies, order))
  {
    if CacheOk(c) {
      PassKeepsCacheOk(c, vs, replies, order);
    }
    if Registered(vs) && Disjoint(vs) {
      PassSettles(c, vs, replies, order, vs.Keys);
      PassLeavesFields(c, vs, replies, CacheAfter(c, vs, replies, order));
    }
  }
}
