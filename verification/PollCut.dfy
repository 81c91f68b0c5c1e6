/** What one poll leaves behind. A poll reads the points of each item in turn and stops
    at the first read that fails, so its effect is a cut through the reading plan. */
module PollCut {
  import opened AdapterContract
  import opened Domain
  import opened GenericEquipments

  /** Fetch stands for a request whose answer the following points are taken from. */
  datatype Point = Fetch | Telemetry(name: string, unit: string) | StateSignal | FaultSignal

  type Plan = seq<seq<Point>>

  /** The outcome of reading point j of item i. */
  type Reads = (nat, nat) -> Option<real>

  function Applied(e: EquipmentState, p: Point, v: real): EquipmentState {
    match p
    case Fetch => e
    case Telemetry(name, unit) => WithTelemetry(e, name, v, unit)
    case StateSignal => e.(operational := OperationalOf(v != 0.0))
    case FaultSignal => e.(fault := v != 0.0)
  }

  /** The first n reads of item i succeed. */
  predicate GotFirst(got: Reads, i: nat, n: nat) {
    forall j: nat :: j < n ==> got(i, j).Some?
  }

  function AppliedFirst(e: EquipmentState, points: seq<Point>, i: nat, got: Reads, n: nat): (e': EquipmentState)
    requires n <= |points| && GotFirst(got, i, n)
    ensures e'.id == e.id && e'.typ == e.typ && e'.capabilities == e.capabilities
  {
    if n == 0 then e else Applied(AppliedFirst(e, points, i, got, n - 1), points[n - 1], got(i, n - 1).value)
  }

  /** The item, in state e0 when its refresh began, is in state e with n points read. */
  ghost predicate ReadUpTo(e0: EquipmentState, e: EquipmentState, points: seq<Point>, i: nat, got: Reads, n: nat) {
    n <= |points| && GotFirst(got, i, n) && e == AppliedFirst(e0, points, i, got, n)
  }

  lemma ReadOneMore(e0: EquipmentState, e: EquipmentState, points: seq<Point>, i: nat, got: Reads, n: nat, v: real)
    requires ReadUpTo(e0, e, points, i, got, n) && n < |points| && got(i, n) == Some(v)
    ensures ReadUpTo(e0, Applied(e, points[n], v), points, i, got, n + 1)
  {
  }

  /** The value read for point n goes where the point says. */
  method Store(e: GenericEquipment, p: Point, v: real, ghost e0: EquipmentState, ghost points: seq<Point>,
               ghost i: nat, ghost got: Reads, ghost n: nat)
    requires ReadUpTo(e0, e.View(), points, i, got, n) && n < |points|
    requires points[n] == p && got(i, n) == Some(v)
    modifies e
    ensures ReadUpTo(e0, e.View(), points, i, got, n + 1)
  {
    ReadOneMore(e0, e.View(), points, i, got, n, v);
    match p
    case Fetch =>
    case Telemetry(name, unit) => e.SetTelemetry(name, v, unit);
    case StateSignal => e.SetOperationalState(OperationalOf(v != 0.0));
    case FaultSignal => e.SetFault(v != 0.0);
  }

  /** Items before i are read to the end and item i in its first j points; i is |plan|
      when nothing failed. */
  predicate IsCut(plan: Plan, got: Reads, i: nat, j: nat) {
    && i <= |plan|
    && (forall p: nat :: p < i ==> GotFirst(got, p, |plan[p]|))
    && (if i == |plan| then j == 0 else j < |plan[i]| && GotFirst(got, i, j) && got(i, j).None?)
  }

  /** Polling in progress: items before k are refreshed, the others as they were. */
  ghost predicate RefreshedUpTo(es0: seq<EquipmentState>, es: seq<EquipmentState>, plan: Plan, got: Reads, k: nat) {
    && |es0| == |es| == |plan| && k <= |plan|
    && (forall p: nat :: p < k ==> ReadUpTo(es0[p], es[p], plan[p], p, got, |plan[p]|))
    && (forall p: nat :: k <= p < |es| ==> es[p] == es0[p])
  }

  lemma RefreshedOneMore(es0: seq<EquipmentState>, es: seq<EquipmentState>, es': seq<EquipmentState>,
                         plan: Plan, got: Reads, k: nat, n: nat)
    requires RefreshedUpTo(es0, es, plan, got, k) && k < |plan|
    requires |es'| == |es| && forall p :: 0 <= p < |es| && p != k ==> es'[p] == es[p]
    requires ReadUpTo(es[k], es'[k], plan[k], k, got, n)
    ensures n == |plan[k]| ==> RefreshedUpTo(es0, es', plan, got, k + 1)
    ensures n < |plan[k]| && got(k, n).None? ==>
      IsCut(plan, got, k, n) && es' == AtCut(es0, plan, got, k, n)
  {
  }

  lemma RefreshedAll(es0: seq<EquipmentState>, es: seq<EquipmentState>, plan: Plan, got: Reads)
    requires RefreshedUpTo(es0, es, plan, got, |plan|)
    ensures IsCut(plan, got, |plan|, 0) && es == AtCut(es0, plan, got, |plan|, 0)
  {
  }

  lemma CutIsUnique(plan: Plan, got: Reads, i: nat, j: nat, i': nat, j': nat)
    requires IsCut(plan, got, i, j) && IsCut(plan, got, i', j')
    ensures i == i' && j == j'
  {
  }

  function AtCut(es: seq<EquipmentState>, plan: Plan, got: Reads, i: nat, j: nat): seq<EquipmentState>
    requires |es| == |plan| && IsCut(plan, got, i, j)
  {
    seq(|es|, p requires 0 <= p < |es| =>
      if p < i then AppliedFirst(es[p], plan[p], p, got, |plan[p]|)
      else if p == i then AppliedFirst(es[p], plan[p], p, got, j)
      else es[p])
  }

  // ----- a cut is a poll of the contract -----

  function FaultRead(points: seq<Point>, i: nat, got: Reads, n: nat): Option<bool>
    requires n <= |points| && GotFirst(got, i, n)
  {
    if n == 0 then None
    else if points[n - 1].FaultSignal? then Some(got(i, n - 1).value != 0.0)
    else FaultRead(points, i, got, n - 1)
  }

  function UpdateFrom(e: EquipmentState, points: seq<Point>, i: nat, got: Reads, n: nat): Update
    requires n <= |points| && GotFirst(got, i, n)
  {
    var e' := AppliedFirst(e, points, i, got, n);
    Update(e'.telemetry, e'.operational, FaultRead(points, i, got, n))
  }

  /** The machine fault after a refresh is the value read, or else the value before. */
  lemma {:induction false} RefreshIsUpdate(e: EquipmentState, points: seq<Point>, i: nat, got: Reads, n: nat)
    requires n <= |points| && GotFirst(got, i, n)
    ensures Updated(e, UpdateFrom(e, points, i, got, n)) == AppliedFirst(e, points, i, got, n)
  {
    if n > 0 {
      RefreshIsUpdate(e, points, i, got, n - 1);
    }
  }

  function CutReply(es: seq<EquipmentState>, plan: Plan, got: Reads, i: nat, j: nat, error: string): PollReply
    requires |es| == |plan| && IsCut(plan, got, i, j)
  {
    var whole := seq(i, p requires 0 <= p < i => UpdateFrom(es[p], plan[p], p, got, |plan[p]|));
    if i == |plan| then PollReply(whole, None)
    else PollReply(whole + [UpdateFrom(es[i], plan[i], i, got, j)], Some(error))
  }

  lemma CutIsPoll(es: seq<EquipmentState>, plan: Plan, got: Reads, i: nat, j: nat, error: string)
    requires |es| == |plan| && IsCut(plan, got, i, j)
    ensures UpdatedAll(es, CutReply(es, plan, got, i, j, error).updates) == AtCut(es, plan, got, i, j)
    ensures CutReply(es, plan, got, i, j, error).failure == if i == |plan| then None else Some(error)
  {
    var us := CutReply(es, plan, got, i, j, error).updates;
    forall p | 0 <= p < |es|
      ensures UpdatedAll(es, us)[p] == AtCut(es, plan, got, i, j)[p]
    {
      if p < i {
        RefreshIsUpdate(es[p], plan[p], p, got, |plan[p]|);
      } else if p == i {
        RefreshIsUpdate(es[p], plan[p], p, got, j);
      }
    }
  }

  // ----- what a partial refresh cannot have done -----

  /** The fault is read last, so only a complete refresh changes the machine fault. */
  lemma {:induction false} PartialRefreshKeepsFault(e: EquipmentState, points: seq<Point>, i: nat, got: Reads, n: nat)
    requires n <= |points| && GotFirst(got, i, n)
    requires forall q :: 0 <= q < n ==> !points[q].FaultSignal?
    ensures AppliedFirst(e, points, i, got, n).fault == e.fault
  {
    if n > 0 {
      PartialRefreshKeepsFault(e, points, i, got, n - 1);
    }
  }

  /** A telemetry name outlives a refresh, and one that no read point maps keeps its value. */
  lemma {:induction false} RefreshKeepsNames(e: EquipmentState, points: seq<Point>, i: nat, got: Reads, n: nat, name: string)
    requires n <= |points| && GotFirst(got, i, n) && name in e.telemetry
    ensures var e' := AppliedFirst(e, points, i, got, n);
      && name in e'.telemetry
      && ((forall q :: 0 <= q < n && points[q].Telemetry? ==> points[q].name != name) ==>
            e'.telemetry[name] == e.telemetry[name])
  {
    if n > 0 {
      RefreshKeepsNames(e, points, i, got, n - 1, name);
    }
  }

  /** The value a name shows is the one read for its last point within the cut. */
  lemma {:induction false} RefreshShowsLastRead(e: EquipmentState, points: seq<Point>, i: nat, got: Reads, n: nat, q: nat)
    requires q < n <= |points| && GotFirst(got, i, n) && points[q].Telemetry?
    requires forall r :: q < r < n && points[r].Telemetry? ==> points[r].name != points[q].name
    ensures var e' := AppliedFirst(e, points, i, got, n);
      && points[q].name in e'.telemetry
      && e'.telemetry[points[q].name] == TelemetryPoint(points[q].name, got(i, q).value, points[q].unit)
  {
    if q < n - 1 {
      RefreshShowsLastRead(e, points, i, got, n - 1, q);
    }
  }

  /** How many points of item p lie within the cut. */
  function Within(plan: Plan, i: nat, j: nat, p: nat): nat
    requires p < |plan|
  {
    if p < i then |plan[p]| else if p == i then j else 0
  }

  lemma WithinIsRead(plan: Plan, got: Reads, i: nat, j: nat, p: nat)
    requires IsCut(plan, got, i, j) && p < |plan|
    ensures Within(plan, i, j, p) <= |plan[p]| && GotFirst(got, p, Within(plan, i, j, p))
  {
  }

  lemma CutReadsWithin(es: seq<EquipmentState>, plan: Plan, got: Reads, i: nat, j: nat, p: nat)
    requires |es| == |plan| && IsCut(plan, got, i, j) && p < |plan|
    ensures ReadUpTo(es[p], AtCut(es, plan, got, i, j)[p], plan[p], p, got, Within(plan, i, j, p))
  {
  }

  lemma {:induction false} RefreshKeepsState(e: EquipmentState, points: seq<Point>, i: nat, got: Reads, n: nat)
    requires n <= |points| && GotFirst(got, i, n)
    requires forall q :: 0 <= q < n ==> !points[q].StateSignal?
    ensures AppliedFirst(e, points, i, got, n).operational == e.operational
  {
    if n > 0 {
      RefreshKeepsState(e, points, i, got, n - 1);
    }
  }

  /** A state point that was read, and none after it, decides whether the item runs. */
  lemma {:induction false} RefreshShowsState(e: EquipmentState, points: seq<Point>, i: nat, got: Reads, n: nat, q: nat)
    requires q < n <= |points| && GotFirst(got, i, n) && points[q].StateSignal?
    requires forall r :: q < r < n ==> !points[r].StateSignal?
    ensures AppliedFirst(e, points, i, got, n).operational == if got(i, q).value != 0.0 then Running else Stopped
  {
    if q < n - 1 {
      RefreshShowsState(e, points, i, got, n - 1, q);
    }
  }

  /** Through a poll, with the state point of the item at q (past its end if it has
      none), the item runs if that point lies within the cut and read non-zero, is stopped
      if it lies within and read zero, and otherwise is what it was. */
  lemma CutState(es: seq<EquipmentState>, plan: Plan, got: Reads, i: nat, j: nat, p: nat, q: nat)
    requires |es| == |plan| && IsCut(plan, got, i, j) && p < |plan|
    requires forall r :: 0 <= r < |plan[p]| ==> (plan[p][r].StateSignal? <==> r == q)
    ensures AtCut(es, plan, got, i, j)[p].operational ==
      if q < Within(plan, i, j, p) then (if got(p, q) == Some(0.0) then Stopped else Running)
      else es[p].operational
  {
    var n := Within(plan, i, j, p);
    CutReadsWithin(es, plan, got, i, j, p);
    if q < n {
      RefreshShowsState(es[p], plan[p], p, got, n, q);
    } else {
      RefreshKeepsState(es[p], plan[p], p, got, n);
    }
  }

  lemma {:induction false} RefreshAddsNoName(e: EquipmentState, points: seq<Point>, i: nat, got: Reads, n: nat, name: string)
    requires n <= |points| && GotFirst(got, i, n)
    requires forall q :: 0 <= q < n && points[q].Telemetry? ==> points[q].name != name
    ensures name in AppliedFirst(e, points, i, got, n).telemetry ==> name in e.telemetry
  {
    if n > 0 {
      RefreshAddsNoName(e, points, i, got, n - 1, name);
    }
  }

  /** Through a poll, a name that no point within the cut maps keeps its point or stays
      without one. */
  lemma CutKeepsUnread(es: seq<EquipmentState>, plan: Plan, got: Reads, i: nat, j: nat, p: nat, name: string)
    requires |es| == |plan| && IsCut(plan, got, i, j) && p < |plan|
    requires forall q :: 0 <= q < Within(plan, i, j, p) && q < |plan[p]| && plan[p][q].Telemetry? ==> plan[p][q].name != name
    ensures var t' := AtCut(es, plan, got, i, j)[p].telemetry;
      if name in es[p].telemetry then name in t' && t'[name] == es[p].telemetry[name] else name !in t'
  {
    var n := Within(plan, i, j, p);
    CutReadsWithin(es, plan, got, i, j, p);
    RefreshAddsNoName(es[p], plan[p], p, got, n, name);
    if name in es[p].telemetry {
      RefreshKeepsNames(es[p], plan[p], p, got, n, name);
    }
  }

  /** And one that some point within it maps shows what the last of them read. */
  lemma CutShowsLastRead(es: seq<EquipmentState>, plan: Plan, got: Reads, i: nat, j: nat, p: nat, q: nat)
    requires |es| == |plan| && IsCut(plan, got, i, j) && p < |plan|
    requires q < Within(plan, i, j, p) <= |plan[p]| && plan[p][q].Telemetry? && got(p, q).Some?
    requires forall r :: q < r < Within(plan, i, j, p) && plan[p][r].Telemetry? ==> plan[p][r].name != plan[p][q].name
    ensures var t' := AtCut(es, plan, got, i, j)[p].telemetry; var point := plan[p][q];
      point.name in t' && t'[point.name] == TelemetryPoint(point.name, got(p, q).value, point.unit)
  {
    CutReadsWithin(es, plan, got, i, j, p);
    RefreshShowsLastRead(es[p], plan[p], p, got, Within(plan, i, j, p), q);
  }

  predicate FaultComesLast(points: seq<Point>) {
    forall q :: 0 <= q < |points| - 1 ==> !points[q].FaultSignal?
  }

  /** Through a poll, an item's machine fault is the value read for it if its refresh was
      complete and maps a fault, and otherwise exactly what it was. */
  lemma CutFault(es: seq<EquipmentState>, plan: Plan, got: Reads, i: nat, j: nat, p: nat)
    requires |es| == |plan| && IsCut(plan, got, i, j) && p < |plan| && FaultComesLast(plan[p])
    ensures AtCut(es, plan, got, i, j)[p].fault ==
      if p < i && plan[p] != [] && plan[p][|plan[p]| - 1].FaultSignal? then got(p, |plan[p]| - 1).value != 0.0
      else es[p].fault
  {
    var n := |plan[p]|;
    if p == i {
      PartialRefreshKeepsFault(es[p], plan[p], p, got, j);
    } else if p < i && n > 0 {
      PartialRefreshKeepsFault(es[p], plan[p], p, got, n - 1);
    }
  }
}
