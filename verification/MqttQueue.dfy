/** industrial/src/mqtt_session.cc: the bounded queue between the network thread, which
    drops the oldest message when it is full, and the poll, which takes from the front. */
module MqttQueue {
  datatype Message = Message(topic: string, payload: string)

  const MAX_QUEUED: nat := 4096

  /** onMessage on the queue. */
  function Pushed(queue: seq<Message>, m: Message): seq<Message> {
    (if |queue| >= MAX_QUEUED then queue[1..] else queue) + [m]
  }

  /** A message arrives, or the poll takes one if there is one. */
  datatype Event = Arrive(m: Message) | Take

  datatype Link = Link(queue: seq<Message>, taken: seq<Message>)

  function AfterEvent(l: Link, e: Event): Link {
    match e
    case Arrive(m) => l.(queue := Pushed(l.queue, m))
    case Take => if l.queue == [] then l else Link(l.queue[1..], l.taken + [l.queue[0]])
  }

  function AfterEvents(l: Link, es: seq<Event>): Link {
    if es == [] then l else AfterEvent(AfterEvents(l, es[..|es| - 1]), es[|es| - 1])
  }

  function Arrivals(es: seq<Event>): seq<Message> {
    if es == [] then []
    else Arrivals(es[..|es| - 1]) + (match es[|es| - 1] case Arrive(m) => [m] case Take => [])
  }

  // ----- the history behind the queue -----

  /** All arrivals of a session; those from front on are queued, and taken lists the
      positions of the messages the poll took. */
  datatype History = History(arrivals: seq<Message>, front: nat, taken: seq<nat>)

  const NOTHING_YET := History([], 0, [])

  ghost predicate HistoryOk(h: History) {
    && h.front <= |h.arrivals| <= h.front + MAX_QUEUED
    && (forall k :: 0 <= k < |h.taken| ==> h.taken[k] < h.front)
    && (forall j, k :: 0 <= j < k < |h.taken| ==> h.taken[j] < h.taken[k])
    // Whatever left the queue untaken has at least MAX_QUEUED later arrivals.
    && (forall i: nat :: |h.arrivals| <= i + MAX_QUEUED && i < h.front ==> i in h.taken)
  }

  function Queue(h: History): seq<Message>
    requires h.front <= |h.arrivals|
  {
    h.arrivals[h.front..]
  }

  function Selected(ms: seq<Message>, at: seq<nat>): (r: seq<Message>)
    requires forall k :: 0 <= k < |at| ==> at[k] < |ms|
    ensures |r| == |at| && forall k :: 0 <= k < |r| ==> r[k] == ms[at[k]]
  {
    seq(|at|, k requires 0 <= k < |at| => ms[at[k]])
  }

  function Taken(h: History): seq<Message>
    requires HistoryOk(h)
  {
    Selected(h.arrivals, h.taken)
  }

  function HistoryAfter(h: History, e: Event): History
    requires h.front <= |h.arrivals|
  {
    match e
    case Arrive(m) =>
      History(h.arrivals + [m], if |h.arrivals| - h.front >= MAX_QUEUED then h.front + 1 else h.front, h.taken)
    case Take =>
      if h.front == |h.arrivals| then h else History(h.arrivals, h.front + 1, h.taken + [h.front])
  }

  lemma EventKeepsHistory(h: History, e: Event)
    requires HistoryOk(h)
    ensures HistoryOk(HistoryAfter(h, e))
    ensures AfterEvent(Link(Queue(h), Taken(h)), e) == Link(Queue(HistoryAfter(h, e)), Taken(HistoryAfter(h, e)))
  {
  }

  function HistoryOf(es: seq<Event>): (h: History)
    ensures h.front <= |h.arrivals|
  {
    if es == [] then NOTHING_YET else HistoryAfter(HistoryOf(es[..|es| - 1]), es[|es| - 1])
  }

  /** For every interleaving of arrivals and takes, the queue is a suffix of the arrivals
      and what was taken is an in-order subsequence that misses nothing recent. */
  lemma {:induction false} QueueIsSuffix(es: seq<Event>)
    ensures HistoryOk(HistoryOf(es)) && HistoryOf(es).arrivals == Arrivals(es)
    ensures AfterEvents(Link([], []), es) == Link(Queue(HistoryOf(es)), Taken(HistoryOf(es)))
  {
    if es != [] {
      var before := es[..|es| - 1];
      QueueIsSuffix(before);
      EventKeepsHistory(HistoryOf(before), es[|es| - 1]);
    }
  }

  lemma HistoryAppended(es: seq<Event>, e: Event)
    ensures HistoryOf(es + [e]) == HistoryAfter(HistoryOf(es), e)
  {
    assert (es + [e])[..|es|] == es;
  }

  // ----- a burst nobody polls -----

  function AllArrive(ms: seq<Message>): (es: seq<Event>)
    ensures |es| == |ms| && forall k :: 0 <= k < |es| ==> es[k] == Arrive(ms[k])
  {
    seq(|ms|, k requires 0 <= k < |ms| => Arrive(ms[k]))
  }

  function Takes(n: nat): (es: seq<Event>)
    ensures |es| == n && forall k :: 0 <= k < n ==> es[k] == Take
  {
    seq(n, k requires 0 <= k < n => Take)
  }

  /** The last MAX_QUEUED of a list. */
  function Recent(ms: seq<Message>): seq<Message> {
    if |ms| <= MAX_QUEUED then ms else ms[|ms| - MAX_QUEUED..]
  }

  lemma RecentGrows(ms: seq<Message>)
    requires ms != []
    ensures Recent(ms) == Pushed(Recent(ms[..|ms| - 1]), ms[|ms| - 1])
  {
    var n := |ms| - 1;
    if n < MAX_QUEUED {
      assert ms[..n] + [ms[n]] == ms;
    } else {
      Slide(ms, n - MAX_QUEUED);
    }
  }

  /** A window that ends with the list slides by one. */
  lemma Slide(ms: seq<Message>, d: nat)
    requires d < |ms| - 1
    ensures var n := |ms| - 1; ms[..n][d..][1..] + [ms[n]] == ms[d + 1..]
  {
    var n := |ms| - 1;
    var w := ms[..n][d..][1..] + [ms[n]];
    forall k | 0 <= k < |w|
      ensures w[k] == ms[d + 1..][k]
    {
      assert k < |w| - 1 ==> w[k] == ms[..n][d..][1 + k] == ms[..n][d + 1 + k];
    }
  }

  lemma EventAppended(l: Link, es: seq<Event>, e: Event)
    ensures AfterEvents(l, es + [e]) == AfterEvent(AfterEvents(l, es), e)
  {
    assert (es + [e])[..|es|] == es;
  }

  lemma ArriveLast(ms: seq<Message>)
    requires ms != []
    ensures AllArrive(ms) == AllArrive(ms[..|ms| - 1]) + [Arrive(ms[|ms| - 1])]
  {
  }

  lemma TakeLast(es: seq<Event>, n: nat)
    ensures es + Takes(n + 1) == es + Takes(n) + [Take] && es + Takes(0) == es
  {
  }

  lemma {:induction false} BurstQueues(ms: seq<Message>)
    ensures AfterEvents(Link([], []), AllArrive(ms)) == Link(Recent(ms), [])
  {
    if ms != [] {
      var before := ms[..|ms| - 1];
      BurstQueues(before);
      ArriveLast(ms);
      EventAppended(Link([], []), AllArrive(before), Arrive(ms[|ms| - 1]));
      RecentGrows(ms);
    }
  }

  /** A burst on an empty queue, whatever was taken before. */
  lemma {:induction false} BurstAfter(es: seq<Event>, taken: seq<Message>, ms: seq<Message>)
    requires AfterEvents(Link([], []), es) == Link([], taken)
    ensures AfterEvents(Link([], []), es + AllArrive(ms)) == Link(Recent(ms), taken)
    ensures Arrivals(es + AllArrive(ms)) == Arrivals(es) + ms
  {
    if ms == [] {
      NothingAdded(es, AllArrive(ms));
    } else {
      var before, e := ms[..|ms| - 1], Arrive(ms[|ms| - 1]);
      BurstAfter(es, taken, before);
      ArriveLast(ms);
      OneMoreEvent(es, AllArrive(before), e);
      EventAppended(Link([], []), es + AllArrive(before), e);
      ArrivalAppended(es + AllArrive(before), e);
      RecentGrows(ms);
      assert Arrivals(es) + before + [ms[|ms| - 1]] == Arrivals(es) + ms;
    }
  }

  lemma NothingAdded(es: seq<Event>, none: seq<Event>)
    requires none == []
    ensures es + none == es
  {
  }

  lemma OneMoreEvent(a: seq<Event>, b: seq<Event>, e: Event)
    ensures a + (b + [e]) == a + b + [e]
  {
  }

  lemma ArrivalAppended(es: seq<Event>, e: Event)
    ensures Arrivals(es + [e]) == Arrivals(es) + (if e.Arrive? then [e.m] else [])
  {
    assert (es + [e])[..|es|] == es;
  }

  lemma {:induction false} TakesAddNoArrivals(es: seq<Event>, n: nat)
    ensures Arrivals(es + Takes(n)) == Arrivals(es)
  {
    TakeLast(es, if n == 0 then 0 else n - 1);
    if n > 0 {
      TakesAddNoArrivals(es, n - 1);
      ArrivalAppended(es + Takes(n - 1), Take);
    }
  }

  /** Each message is taken as soon as it arrives. */
  function TakenAtOnce(ms: seq<Message>): seq<Event> {
    if ms == [] then [] else TakenAtOnce(ms[..|ms| - 1]) + [Arrive(ms[|ms| - 1])] + [Take]
  }

  lemma {:induction false} TakenAtOnceTakesAll(ms: seq<Message>)
    ensures AfterEvents(Link([], []), TakenAtOnce(ms)) == Link([], ms) && Arrivals(TakenAtOnce(ms)) == ms
  {
    if ms != [] {
      var before, m := ms[..|ms| - 1], ms[|ms| - 1];
      var es := TakenAtOnce(before);
      TakenAtOnceTakesAll(before);
      EventAppended(Link([], []), es, Arrive(m));
      EventAppended(Link([], []), es + [Arrive(m)], Take);
      ArrivalAppended(es, Arrive(m));
      ArrivalAppended(es + [Arrive(m)], Take);
      assert before + [m] == ms;
    }
  }

  /** The first n messages taken as they arrive, and then a burst that is drained. */
  function LateBurst(ms: seq<Message>, n: nat): seq<Event>
    requires n <= |ms|
  {
    TakenAtOnce(ms[..n]) + AllArrive(ms[n..]) + Takes(|Recent(ms[n..])|)
  }

  lemma LateBurstTakes(ms: seq<Message>, n: nat)
    requires n <= |ms|
    ensures Arrivals(LateBurst(ms, n)) == ms
    ensures AfterEvents(Link([], []), LateBurst(ms, n)) == Link([], ms[..n] + Recent(ms[n..]))
  {
    var es, r := TakenAtOnce(ms[..n]) + AllArrive(ms[n..]), Recent(ms[n..]);
    TakenAtOnceTakesAll(ms[..n]);
    BurstAfter(TakenAtOnce(ms[..n]), ms[..n], ms[n..]);
    DrainTakesAll(Link([], []), es, |r|);
    TakesAddNoArrivals(es, |r|);
    assert r[..|r|] == r && r[|r|..] == [] && ms[..n] + ms[n..] == ms;
  }

  lemma {:induction false} DrainTakesAll(l: Link, es: seq<Event>, n: nat)
    requires n <= |AfterEvents(l, es).queue|
    ensures var l' := AfterEvents(l, es);
      AfterEvents(l, es + Takes(n)) == Link(l'.queue[n..], l'.taken + l'.queue[..n])
  {
    if n == 0 {
      TakeLast(es, 0);
    } else {
      DrainTakesAll(l, es, n - 1);
      TakeLast(es, n - 1);
      EventAppended(l, es + Takes(n - 1), Take);
      OneMoreTaken(AfterEvents(l, es).queue, AfterEvents(l, es).taken, n - 1);
    }
  }

  lemma OneMoreTaken(queue: seq<Message>, taken: seq<Message>, n: nat)
    requires n < |queue|
    ensures AfterEvent(Link(queue[n..], taken + queue[..n]), Take) == Link(queue[n + 1..], taken + queue[..n + 1])
  {
    assert queue[n..][1..] == queue[n + 1..] && queue[n..][0] == queue[n];
    assert queue[..n + 1] == queue[..n] + [queue[n]];
  }

  /** After a burst, draining the queue takes exactly the last MAX_QUEUED arrivals: the
      bound of the lossless theorem is the best possible. */
  lemma BurstThenDrain(ms: seq<Message>)
    ensures AfterEvents(Link([], []), AllArrive(ms) + Takes(|Recent(ms)|)) == Link([], Recent(ms))
  {
    BurstQueues(ms);
    DrainTakesAll(Link([], []), AllArrive(ms), |Recent(ms)|);
    assert [] + Recent(ms)[..|Recent(ms)|] == Recent(ms);
  }
}
