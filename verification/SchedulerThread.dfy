/** icp/src/PollScheduler.cc, the threading half: start(), stop() and the worker's loop as
    atomic steps, in every interleaving of one sequential caller with the worker. */
module SchedulerThread {
  /** Where the caller is. Spawning: in start(), running_ just went from false to true.
      Notifying: in stop(), running_ just went from true to false. Joining: in stop(),
      about to join whatever thread is joinable. */
  datatype Caller = Idle | Spawning | Notifying | Joining

  /** Where a worker is: about to load running_, having loaded true, inside pollOnce(),
      in the timed wait, or gone. */
  datatype Worker = Check | Go | Polling | Waiting | Gone

  /** workers lists every thread ever started, the last being the one thread_ holds while
      joinable; overwrote is set if a joinable thread_ is assigned over, which ends the
      program; late counts the passes begun since running_ last turned false. */
  datatype State = State(running: bool, caller: Caller, joinable: bool, workers: seq<Worker>, overwrote: bool, late: nat)

  const INITIAL := State(false, Idle, false, [], false, 0)

  datatype Step = CallStart | Spawn | CallStop | Notify | Join | Work(i: nat)

  predicate Possible(s: State, t: Step) {
    match t
    case CallStart => s.caller == Idle
    case Spawn => s.caller == Spawning
    case CallStop => s.caller == Idle
    case Notify => s.caller == Notifying
    case Join => s.caller == Joining && (s.joinable && s.workers != [] ==> s.workers[|s.workers| - 1] == Gone)
    case Work(i) => i < |s.workers| && s.workers[i] != Gone
  }

  /** The worker's own loop; the wait may end at any time, by timeout or by the flag. */
  function NextWorker(w: Worker, running: bool): Worker {
    match w
    case Check => if running then Go else Gone
    case Go => Polling
    case Polling => Waiting
    case Waiting => Check
    case Gone => Gone
  }

  function After(s: State, t: Step): State
    requires Possible(s, t)
  {
    match t
    case CallStart => s.(running := true, caller := if s.running then Idle else Spawning)
    case Spawn =>
      s.(workers := s.workers + [Check], joinable := true, caller := Idle, overwrote := s.overwrote || s.joinable)
    case CallStop =>
      if s.running then s.(running := false, caller := Notifying, late := 0) else s.(caller := Joining)
    case Notify => s.(caller := Joining)
    case Join => s.(caller := Idle, joinable := false)
    case Work(i) =>
      s.(workers := s.workers[i := NextWorker(s.workers[i], s.running)],
         late := if s.workers[i] == Go && !s.running then s.late + 1 else s.late)
  }

  predicate AllGone(ws: seq<Worker>) {
    forall i :: 0 <= i < |ws| ==> ws[i] == Gone
  }

  ghost predicate Ok(s: State) {
    && !s.overwrote
    && (forall i :: 0 <= i < |s.workers| - 1 ==> s.workers[i] == Gone)
    && (s.joinable ==> s.workers != [])
    && (!s.joinable ==> AllGone(s.workers))
    && (s.caller == Spawning ==> s.running && !s.joinable)
    && (s.caller == Notifying || s.caller == Joining ==> !s.running)
    && (s.caller == Idle ==> (s.joinable <==> s.running))
    && (s.caller == Idle && s.running ==> s.workers != [] && s.workers[|s.workers| - 1] != Gone)
    && s.late <= 1
    && (!s.running && s.workers != [] && s.workers[|s.workers| - 1] == Go ==> s.late == 0)
  }

  lemma StepKeepsOk(s: State, t: Step)
    requires Ok(s) && Possible(s, t)
    ensures Ok(After(s, t))
  {
  }

  ghost predicate IsRun(states: seq<State>, steps: seq<Step>) {
    && |states| == |steps| + 1
    && forall k :: 0 <= k < |steps| ==> Possible(states[k], steps[k]) && states[k + 1] == After(states[k], steps[k])
  }

  ghost predicate AtMostOneAlive(ws: seq<Worker>) {
    forall i, j :: 0 <= i < |ws| && 0 <= j < |ws| && ws[i] != Gone && ws[j] != Gone ==> i == j
  }

  /** In every reachable state: one live worker at most, no joinable thread assigned
      over, at most one pass begun after running_ turned false, none alive once stop() has
      returned and start() has not been called again, and one alive once start() has
      returned and stop() has not been called since. */
  lemma {:induction false} EveryRunIsSafe(states: seq<State>, steps: seq<Step>, n: nat)
    requires IsRun(states, steps) && n <= |steps| && states[0] == INITIAL
    ensures Ok(states[n]) && AtMostOneAlive(states[n].workers)
    ensures !states[n].overwrote && states[n].late <= 1
    ensures states[n].caller == Idle && !states[n].running ==> AllGone(states[n].workers)
    ensures states[n].caller == Idle && states[n].running ==>
      states[n].workers != [] && states[n].workers[|states[n].workers| - 1] != Gone
    ensures states[n].caller == Spawning ==> !states[n].joinable
  {
    if n > 0 {
      EveryRunIsSafe(states, steps, n - 1);
      assert states[n] == After(states[n - 1], steps[n - 1]);
      StepKeepsOk(states[n - 1], steps[n - 1]);
    }
  }

  // ----- passes after running_ turned false -----

  /** The step is a worker entering pollOnce(). */
  ghost predicate BeginsPass(s: State, t: Step)
    requires Possible(s, t)
  {
    t.Work? && s.workers[t.i] != Polling && After(s, t).workers[t.i] == Polling
  }

  ghost predicate StoppedFrom(states: seq<State>, i: nat, j: nat)
    requires j < |states|
  {
    forall k :: i <= k <= j ==> !states[k].running
  }

  lemma {:induction false} LateGrows(states: seq<State>, steps: seq<Step>, i: nat, j: nat)
    requires IsRun(states, steps) && i <= j <= |steps| && StoppedFrom(states, i, j)
    ensures states[i].late <= states[j].late
  {
    if i < j {
      LateGrows(states, steps, i, j - 1);
      assert states[j] == After(states[j - 1], steps[j - 1]);
    }
  }

  /** While running_ stays false no two passes begin. */
  lemma OneLatePass(states: seq<State>, steps: seq<Step>, i: nat, j: nat)
    requires IsRun(states, steps) && states[0] == INITIAL && i < j < |steps| && StoppedFrom(states, i, j)
    ensures !BeginsPass(states[i], steps[i]) || !BeginsPass(states[j], steps[j])
  {
    LateGrows(states, steps, i + 1, j);
    EveryRunIsSafe(states, steps, j + 1);
    assert states[i + 1] == After(states[i], steps[i]) && states[j + 1] == After(states[j], steps[j]);
  }

  // ----- a running worker polls, and a stopped one leaves -----

  /** How many of its own steps the worker still takes once running_ is false. */
  function Distance(w: Worker): nat {
    match w
    case Gone => 0
    case Check => 1
    case Waiting => 2
    case Polling => 3
    case Go => 4
  }

  function Workers(w: Worker, running: bool, steps: nat): Worker
    decreases steps
  {
    if steps == 0 then w else Workers(NextWorker(w, running), running, steps - 1)
  }

  /** While running_ is true a live worker never leaves: it is where it was after every
      four steps, and one of the four is in a pass. */
  lemma RunningWorkerPolls(w: Worker)
    requires w != Gone
    ensures Workers(w, true, 4) == w
    ensures exists n: nat :: n < 4 && Workers(w, true, n) == Polling
    ensures forall n: nat :: n < 4 ==> Workers(w, true, n) != Gone
  {
    var w1 := NextWorker(w, true);
    var w2 := NextWorker(w1, true);
    var w3 := NextWorker(w2, true);
    assert Workers(w, true, 0) == w && Workers(w, true, 1) == Workers(w1, true, 0) == w1;
    assert Workers(w, true, 2) == Workers(w1, true, 1) == Workers(w2, true, 0) == w2;
    assert Workers(w, true, 3) == Workers(w1, true, 2) == Workers(w2, true, 1) == w3;
    assert Workers(w, true, 4) == Workers(w1, true, 3) == Workers(w2, true, 2) == Workers(w3, true, 1);
  }

  /** Left alone with running_ false, a worker is gone after exactly its distance, four
      steps at most and one pass at most; so the join is never blocked for good. */
  lemma {:induction false} StoppedWorkerLeaves(w: Worker, steps: nat)
    ensures Workers(w, false, steps) == Gone <==> Distance(w) <= steps
    ensures Distance(w) <= 4
    decreases steps
  {
    if steps > 0 {
      StoppedWorkerLeaves(NextWorker(w, false), steps - 1);
    }
  }
}
