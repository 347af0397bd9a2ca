/** What the barrier protocol guarantees for every thread count, every schedule and every set of
    workers that fail to pin themselves. */
module BarrierTheorems {
  import opened Barrier
  import opened Wrappers

  // ----- the invariant is kept -----

  /** A step of `p` alone: everybody else keeps stage and state. */
  ghost predicate Alone(s: State, t: State, p: nat)
    requires p <= |s.workers|
  {
    && |t.workers| == |s.workers| && t.pins == s.pins
    && (forall i :: 0 <= i < |s.workers| && i != p ==> t.workers[i] == s.workers[i])
    && (p < |s.workers| ==> t.coordinator == s.coordinator)
  }

  /** A step that is no arrival: `p` stays in its stage or leaves a wait of an earlier generation. */
  lemma LocalKeepsCount(s: State, t: State, p: nat)
    requires Inv(s) && p <= |s.workers| && Alone(s, t, p)
    requires t.count == s.count && t.generation == s.generation
    requires Stage(t, p) == Stage(s, p) || (Stage(s, p) == 2 * s.generation - 1 && Stage(t, p) == 2 * s.generation)
    ensures t.count == |Blocked(t)| <= |t.workers| && forall q: nat :: q <= |t.workers| ==> InStep(t, q)
  {
    forall q: nat | q <= |s.workers| ensures InStep(t, q) && (q in Blocked(t) <==> q in Blocked(s)) {
      assert InStep(s, q);
      if q != p { assert Stage(t, q) == Stage(s, q); }
    }
    assert Blocked(t) == Blocked(s);
  }

  lemma ArrivalKeepsCount(s: State, t: State, p: nat)
    requires Inv(s) && p <= |s.workers| && Alone(s, t, p) && Stage(s, p) == 2 * s.generation && s.generation <= 1
    requires t.count == Arrived(s).count && t.generation == Arrived(s).generation
    requires Stage(t, p) == if Completes(s) then 2 * s.generation + 2 else 2 * s.generation + 1
    ensures t.generation <= 2
    ensures t.count == |Blocked(t)| <= |t.workers| && forall q: nat :: q <= |t.workers| ==> InStep(t, q)
  {
    if Completes(s) {
      CompletesMeansAllBlocked(s, p);
      forall q: nat | q <= |t.workers| ensures InStep(t, q) && q !in Blocked(t) {
        if q != p { assert q in Blocked(s) && Stage(t, q) == Stage(s, q); }
      }
      assert Blocked(t) == {};
    } else {
      forall q: nat | q <= |t.workers| ensures InStep(t, q) && (q in Blocked(t) <==> q in Blocked(s) || q == p) {
        assert InStep(s, q);
        if q != p { assert Stage(t, q) == Stage(s, q); }
      }
      assert Blocked(t) == Blocked(s) + {p};
    }
  }

  lemma WorkerStepCounts(s: State, t: State, i: nat)
    requires Inv(s) && i < |s.workers| && WorkerStep(s, i) == Some(t)
    ensures t.generation <= 2
    ensures t.count == |Blocked(t)| <= |t.workers| && forall q: nat :: q <= |t.workers| ==> InStep(t, q)
  {
    assert InStep(s, i) && WorkerFits(s, i);
    assert Alone(s, t, i);
    if s.workers[i].Ready? || s.workers[i].AtEnd? { ArrivalKeepsCount(s, t, i); } else { LocalKeepsCount(s, t, i); }
  }

  lemma WorkerStepFits(s: State, t: State, i: nat)
    requires Inv(s) && i < |s.workers| && WorkerStep(s, i) == Some(t)
    ensures |t.workers| == |t.pins| && CoordinatorFits(t)
    ensures forall j :: 0 <= j < |t.workers| ==> WorkerFits(t, j)
  {
    assert InStep(s, i) && WorkerFits(s, i) && CoordinatorFits(s);
    forall j | 0 <= j < |t.workers| ensures WorkerFits(t, j) {
      assert WorkerFits(s, j);
    }
  }

  lemma CoordinatorStepCounts(s: State, t: State)
    requires Inv(s) && CoordinatorStep(s) == Some(t)
    ensures t.generation <= 2
    ensures t.count == |Blocked(t)| <= |t.workers| && forall q: nat :: q <= |t.workers| ==> InStep(t, q)
  {
    var n := |s.workers|;
    assert InStep(s, n) && CoordinatorFits(s);
    if s.coordinator.Spawning? && s.coordinator.k < n {
      forall q: nat | q <= n ensures InStep(t, q) && Stage(t, q) == Stage(s, q) { assert InStep(s, q); }
      assert Blocked(t) == Blocked(s);
    } else {
      assert Alone(s, t, n);
      if s.coordinator.Spawning? || s.coordinator.Timing? { ArrivalKeepsCount(s, t, n); } else { LocalKeepsCount(s, t, n); }
    }
  }

  lemma CoordinatorStepFits(s: State, t: State)
    requires Inv(s) && CoordinatorStep(s) == Some(t)
    ensures |t.workers| == |t.pins| && CoordinatorFits(t)
    ensures forall j :: 0 <= j < |t.workers| ==> WorkerFits(t, j)
  {
    assert InStep(s, |s.workers|) && CoordinatorFits(s);
    forall j | 0 <= j < |t.workers| ensures WorkerFits(t, j) {
      assert WorkerFits(s, j);
    }
    forall i | 0 <= i < |s.workers| && s.workers[i].Ended? ensures s.workers[i].panicked == !s.pins[i] {
      assert WorkerFits(s, i);
    }
  }

  lemma StepKeeps(s: State, t: State)
    requires Inv(s) && Next(s, t)
    ensures Inv(t)
  {
    var p :| 0 <= p <= |s.workers| && Step(s, p) == Some(t);
    if p < |s.workers| {
      WorkerStepCounts(s, t, p);
      WorkerStepFits(s, t, p);
    } else {
      CoordinatorStepCounts(s, t);
      CoordinatorStepFits(s, t);
    }
  }

  lemma {:induction false} ReachableInv(states: seq<State>, i: nat)
    requires Run(states) && i < |states|
    ensures Inv(states[i])
  {
    if i == 0 {
      InitInv(states[0]);
    } else {
      ReachableInv(states, i - 1);
      assert NextAt(states, i);
      StepKeeps(states[i - 1], states[i]);
    }
  }

  // ----- safety -----

  lemma StagesAround(s: State, w: nat)
    requires Inv(s) && w < |s.workers| && s.workers[w].Working?
    ensures s.pins[w] && forall p: nat :: p <= |s.workers| ==> 1 <= Stage(s, p) <= 3
  {
    assert InStep(s, w) && WorkerFits(s, w);
    assert s.generation == 1;
    forall p: nat | p <= |s.workers| ensures 1 <= Stage(s, p) <= 3 { assert InStep(s, p); }
  }

  /** While any work closure runs, every worker has been spawned and has settled whether it is
      pinned, the coordinator is in or after its first wait, and nobody has passed the second. */
  lemma WorkRunsBetweenTheWaits(states: seq<State>, i: nat, w: nat)
    requires Run(states) && i < |states| && w < |states[i].workers| && states[i].workers[w].Working?
    ensures w < |states[i].pins| && states[i].pins[w]
    ensures forall p: nat :: p <= |states[i].workers| ==> 1 <= Stage(states[i], p) <= 3
  {
    ReachableInv(states, i);
    StagesAround(states[i], w);
  }

  /** What a worker still does after the second wait. */
  predicate IsOver(w: Worker, pinned: bool) {
    match w
    case InEnd(_, worked) => worked == pinned
    case Passed(worked) => worked == pinned
    case Ended(panicked) => panicked == !pinned
    case _ => false
  }

  lemma AllAreOver(s: State, w: nat)
    requires Inv(s) && w < |s.workers| && CoordinatorStage(s.coordinator) == 4
    ensures IsOver(s.workers[w], s.pins[w])
  {
    assert InStep(s, |s.workers|) && InStep(s, w) && WorkerFits(s, w);
  }

  /** Once the coordinator has passed its second wait, every worker has arrived there, and its
      work closure has run to the end exactly if the worker was pinned. */
  lemma WorkEndsBeforeTheCoordinator(states: seq<State>, i: nat, w: nat)
    requires Run(states) && i < |states| && w < |states[i].workers|
    requires CoordinatorStage(states[i].coordinator) == 4
    ensures w < |states[i].pins| && IsOver(states[i].workers[w], states[i].pins[w])
  {
    ReachableInv(states, i);
    AllAreOver(states[i], w);
  }

  /** The call returns only if every worker was pinned, and panics at the first that was not. */
  lemma OutcomeIsDecidedByPins(states: seq<State>, i: nat)
    requires Run(states) && i < |states|
    ensures states[i].coordinator.Returned? ==> forall w :: 0 <= w < |states[i].pins| ==> states[i].pins[w]
    ensures states[i].coordinator.Panicked? ==>
      var k := states[i].coordinator.k;
      k < |states[i].pins| && !states[i].pins[k] && forall w :: 0 <= w < k ==> states[i].pins[w]
  {
    ReachableInv(states, i);
  }

  // ----- progress -----

  ghost predicate Finished(s: State) {
    && (s.coordinator.Returned? || s.coordinator.Panicked?)
    && forall i :: 0 <= i < |s.workers| ==> s.workers[i].Ended?
  }

  /** No reachable state is stuck: somebody can move unless the call and all threads are done. */
  lemma NoDeadlock(states: seq<State>, i: nat) returns (p: nat)
    requires Run(states) && i < |states| && !Finished(states[i])
    ensures p <= |states[i].workers| == |states[i].pins| && Step(states[i], p).Some?
  {
    var s := states[i];
    ReachableInv(states, i);
    p := SomebodyMoves(s);
  }

  lemma SomebodyMoves(s: State) returns (p: nat)
    requires Inv(s) && !Finished(s)
    ensures p <= |s.workers| && Step(s, p).Some?
  {
    var n := |s.workers|;
    assert InStep(s, n) && CoordinatorFits(s);
    if s.generation < 2 {
      p := NotAllBlocked(s);
      assert InStep(s, p);
      if p < n {
        assert WorkerFits(s, p);
        if s.workers[p].Unspawned? { p := n; }
      }
    } else if w :| 0 <= w < n && !s.workers[w].Ended? {
      assert InStep(s, w) && WorkerFits(s, w);
      p := w;
    } else {
      p := n;
    }
  }

  function WorkerLeft(w: Worker): nat {
    match w
    case Unspawned => 9 case Starting => 8 case Ready => 7 case InStart(_) => 6 case Released => 5
    case Working => 4 case AtEnd(_) => 3 case InEnd(_, _) => 2 case Passed(_) => 1 case Ended(_) => 0
  }

  function WorkersLeft(workers: seq<Worker>): nat {
    if workers == [] then 0 else WorkersLeft(workers[..|workers| - 1]) + WorkerLeft(workers[|workers| - 1])
  }

  function CoordinatorLeft(c: Coordinator, n: nat): nat {
    match c
    case Spawning(k) => n + 6 + if k < n then n - k else 0
    case CInStart(_) => n + 5
    case Woken => n + 4
    case Timing => n + 3
    case CInEnd(_) => n + 2
    case Joining(k) => 1 + if k < n then n - k else 0
    case Returned => 0
    case Panicked(_) => 0
  }

  function Left(s: State): nat { WorkersLeft(s.workers) + CoordinatorLeft(s.coordinator, |s.workers|) }

  lemma {:induction false} WorkersLeftUpdate(workers: seq<Worker>, i: nat, w: Worker)
    requires i < |workers|
    ensures WorkersLeft(workers[i := w]) == WorkersLeft(workers) - WorkerLeft(workers[i]) + WorkerLeft(w)
    decreases |workers|
  {
    var after, last := workers[i := w], |workers| - 1;
    if i == last {
      assert after[..last] == workers[..last];
    } else {
      WorkersLeftUpdate(workers[..last], i, w);
      assert after[..last] == workers[..last][i := w];
    }
  }

  lemma WorkerStepCountsDown(s: State, t: State, i: nat)
    requires i < |s.workers| == |s.pins| && WorkerStep(s, i) == Some(t)
    ensures Left(t) < Left(s)
  {
    WorkersLeftUpdate(s.workers, i, t.workers[i]);
    assert t.workers == s.workers[i := t.workers[i]] && t.coordinator == s.coordinator;
    assert WorkerLeft(t.workers[i]) < WorkerLeft(s.workers[i]);
  }

  lemma CoordinatorStepCountsDown(s: State, t: State)
    requires Inv(s) && CoordinatorStep(s) == Some(t)
    ensures Left(t) < Left(s)
  {
    var n := |s.workers|;
    assert CoordinatorFits(s);
    if s.coordinator.Spawning? && s.coordinator.k < n {
      assert s.workers[s.coordinator.k] == Unspawned;
      WorkersLeftUpdate(s.workers, s.coordinator.k, Starting);
    } else {
      assert t.workers == s.workers && CoordinatorLeft(t.coordinator, n) < CoordinatorLeft(s.coordinator, n);
    }
  }

  /** Every step of every participant brings the end nearer, so no run goes on for ever. */
  lemma EveryStepCounts(s: State, t: State)
    requires Inv(s) && Next(s, t)
    ensures Left(t) < Left(s)
  {
    var p :| 0 <= p <= |s.workers| && Step(s, p) == Some(t);
    if p < |s.workers| { WorkerStepCountsDown(s, t, p); } else { CoordinatorStepCountsDown(s, t); }
  }

  /** After `i` steps at least `i` of what was left at the start is done. */
  lemma {:induction false} RunsAreBounded(states: seq<State>, i: nat)
    requires Run(states) && i < |states|
    ensures i + Left(states[i]) <= Left(states[0])
  {
    if i > 0 {
      RunsAreBounded(states, i - 1);
      ReachableInv(states, i - 1);
      assert NextAt(states, i);
      EveryStepCounts(states[i - 1], states[i]);
    }
  }

  lemma {:induction false} StartLeft(workers: seq<Worker>)
    requires forall i :: 0 <= i < |workers| ==> workers[i] == Unspawned
    ensures WorkersLeft(workers) == 9 * |workers|
  {
    if workers != [] { StartLeft(workers[..|workers| - 1]); }
  }

  /** No run of `n` workers takes more than `11 n + 6` steps. */
  lemma RunsEnd(states: seq<State>)
    requires Run(states)
    ensures |states| - 1 <= 11 * |states[0].workers| + 6
  {
    RunsAreBounded(states, |states| - 1);
    StartLeft(states[0].workers);
  }

  // ----- a limit of the measurement -----

  /** The coordinator has not read the clock yet. */
  predicate BeforeClock(c: Coordinator) { c.Spawning? || c.CInStart? || c.Woken? }

  /** The work closure of worker `i` has run to its end. */
  predicate HasWorked(w: Worker) {
    match w
    case AtEnd(worked) => worked
    case InEnd(_, worked) => worked
    case Passed(worked) => worked
    case _ => false
  }

  /** Every pinned worker has worked. */
  ghost predicate AllWorked(s: State)
    requires |s.workers| == |s.pins|
  {
    forall i :: 0 <= i < |s.workers| && s.pins[i] ==> HasWorked(s.workers[i])
  }

  /** As long as a pinned worker has not worked, somebody can move without the clock being read. */
  lemma MovesBeforeClock(s: State) returns (p: nat)
    requires Inv(s) && BeforeClock(s.coordinator) && !AllWorked(s)
    ensures p <= |s.workers| && Step(s, p).Some? && BeforeClock(Step(s, p).value.coordinator)
  {
    var n := |s.workers|;
    assert InStep(s, n) && CoordinatorFits(s);
    if s.generation == 0 {
      p := NotAllBlocked(s);
      assert InStep(s, p);
      if p < n {
        assert WorkerFits(s, p);
        if s.workers[p].Unspawned? { p := n; }
      }
    } else {
      p :| 0 <= p < n && s.pins[p] && !HasWorked(s.workers[p]);
      assert InStep(s, p) && WorkerFits(s, p);
    }
  }

  /** Every run that has not read the clock goes on to one that still has not and in which
      every pinned worker has done all its work. */
  lemma {:induction false} AllWorkMayPrecedeTiming(states: seq<State>) returns (more: seq<State>)
    requires Run(states) && BeforeClock(states[|states| - 1].coordinator)
    ensures Run(more) && states <= more && |more[|more| - 1].workers| == |more[|more| - 1].pins|
    ensures BeforeClock(more[|more| - 1].coordinator) && AllWorked(more[|more| - 1])
    decreases Left(states[|states| - 1])
  {
    var s := states[|states| - 1];
    ReachableInv(states, |states| - 1);
    if AllWorked(s) { return states; }
    var p := MovesBeforeClock(s);
    var t := Step(s, p).value;
    assert Next(s, t);
    EveryStepCounts(s, t);
    var next := states + [t];
    forall i | 0 < i < |next| ensures NextAt(next, i) {
      if i < |states| { assert NextAt(states, i); }
    }
    more := AllWorkMayPrecedeTiming(next);
  }

  /** In the last state of the run the clock has not been read and a worker has worked. */
  ghost predicate EarlyWork(states: seq<State>) {
    Run(states) && BeforeClock(states[|states| - 1].coordinator) && SomeWorked(states[|states| - 1].workers)
  }

  predicate SomeWorked(workers: seq<Worker>) { exists i :: 0 <= i < |workers| && HasWorked(workers[i]) }

  lemma {:induction false} PinsStay(states: seq<State>, i: nat)
    requires Run(states) && i < |states|
    ensures states[i].pins == states[0].pins && |states[i].workers| == |states[0].workers| == |states[0].pins|
  {
    if i > 0 {
      PinsStay(states, i - 1);
      assert NextAt(states, i);
    }
  }

  /** The clock starts when the coordinator reads it after its first wait, not when the workers
      are released. For every thread count and schedule: from a run in which it has not been
      read, some continuation lets a worker finish all its work before it is, if and only if
      some worker is pinned. */
  lemma WorkPrecedesTimingExactlyWhen(states: seq<State>)
    requires Run(states) && BeforeClock(states[|states| - 1].coordinator)
    ensures (exists more: seq<State> :: states <= more && EarlyWork(more)) <==>
            (exists i :: 0 <= i < |states[0].pins| && states[0].pins[i])
  {
    if more: seq<State> :| states <= more && EarlyWork(more) {
      var last := |more| - 1;
      var i :| 0 <= i < |more[last].workers| && HasWorked(more[last].workers[i]);
      ReachableInv(more, last);
      PinsStay(more, last);
      assert WorkerFits(more[last], i);
      assert states[0] == more[0] && states[0].pins[i];
    }
    if i :| 0 <= i < |states[0].pins| && states[0].pins[i] {
      var more := AllWorkMayPrecedeTiming(states);
      PinsStay(more, |more| - 1);
      assert HasWorked(more[|more| - 1].workers[i]);
      assert EarlyWork(more);
    }
  }
}
