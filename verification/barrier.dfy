/** The threads of one contended or parallel benchmark call (src/bench.rs lines 389-432 and
    473-506) with the standard library's barrier: a count, a generation, and arrivals that
    are atomic because they hold the barrier's mutex. */
module Barrier {
  import opened Sequences
  import opened Wrappers

  /** `worked` records whether the work closure ran. */
  datatype Worker =
    | Unspawned
    | Starting                          // before pinning itself
    | Ready                             // before the first wait
    | InStart(gen: nat)                 // blocked in it
    | Released                          // after it
    | Working
    | AtEnd(worked: bool)               // before the second wait
    | InEnd(gen: nat, worked: bool)
    | Passed(worked: bool)              // after it
    | Ended(panicked: bool)

  datatype Coordinator =
    | Spawning(k: nat)                  // worker `k` is spawned next; at the end, before the first wait
    | CInStart(gen: nat)
    | Woken                             // after the first wait, before it reads the clock
    | Timing                            // before the second wait
    | CInEnd(gen: nat)
    | Joining(k: nat)
    | Returned
    | Panicked(k: nat)                  // joining worker `k` failed

  /** `pins[i]` says whether worker `i` manages to pin itself. */
  datatype State = State(pins: seq<bool>, workers: seq<Worker>, coordinator: Coordinator, count: nat, generation: nat)

  predicate Init(s: State) {
    && s.pins != [] && |s.workers| == |s.pins|
    && (forall i :: 0 <= i < |s.workers| ==> s.workers[i] == Unspawned)
    && s.coordinator == Spawning(0) && s.count == 0 && s.generation == 0
  }

  // ----- steps -----

  /** The arrival completes the barrier. */
  predicate Completes(s: State) { s.count + 1 >= |s.workers| + 1 }

  function Arrived(s: State): State {
    if Completes(s) then s.(count := 0, generation := s.generation + 1) else s.(count := s.count + 1)
  }

  function WorkerStep(s: State, i: nat): Option<State>
    requires i < |s.workers| == |s.pins|
  {
    match s.workers[i]
    case Unspawned => None
    case Starting => Some(s.(workers := s.workers[i := Ready]))
    case Ready =>
      Some(Arrived(s).(workers := s.workers[i := if Completes(s) then Released else InStart(s.generation)]))
    case InStart(gen) => if gen == s.generation then None else Some(s.(workers := s.workers[i := Released]))
    case Released => Some(s.(workers := s.workers[i := if s.pins[i] then Working else AtEnd(false)]))
    case Working => Some(s.(workers := s.workers[i := AtEnd(true)]))
    case AtEnd(worked) =>
      Some(Arrived(s).(workers := s.workers[i := if Completes(s) then Passed(worked) else InEnd(s.generation, worked)]))
    case InEnd(gen, worked) => if gen == s.generation then None else Some(s.(workers := s.workers[i := Passed(worked)]))
    case Passed(_) => Some(s.(workers := s.workers[i := Ended(!s.pins[i])]))
    case Ended(_) => None
  }

  function CoordinatorStep(s: State): Option<State> {
    match s.coordinator
    case Spawning(k) =>
      if k < |s.workers| then Some(s.(workers := s.workers[k := Starting], coordinator := Spawning(k + 1)))
      else Some(Arrived(s).(coordinator := if Completes(s) then Woken else CInStart(s.generation)))
    case CInStart(gen) => if gen == s.generation then None else Some(s.(coordinator := Woken))
    case Woken => Some(s.(coordinator := Timing))
    case Timing => Some(Arrived(s).(coordinator := if Completes(s) then Joining(0) else CInEnd(s.generation)))
    case CInEnd(gen) => if gen == s.generation then None else Some(s.(coordinator := Joining(0)))
    case Joining(k) =>
      if k >= |s.workers| then Some(s.(coordinator := Returned))
      else if !s.workers[k].Ended? then None
      else Some(s.(coordinator := if s.workers[k].panicked then Panicked(k) else Joining(k + 1)))
    case Returned => None
    case Panicked(_) => None
  }

  /** A participant is a worker, or the coordinator under the number after the last worker. */
  function Step(s: State, p: nat): Option<State>
    requires p <= |s.workers| == |s.pins|
  {
    if p < |s.workers| then WorkerStep(s, p) else CoordinatorStep(s)
  }

  ghost predicate Next(s: State, t: State) {
    |s.workers| == |s.pins| && exists p :: 0 <= p <= |s.workers| && Step(s, p) == Some(t)
  }

  ghost predicate NextAt(states: seq<State>, i: nat)
    requires 0 < i < |states|
  {
    Next(states[i - 1], states[i])
  }

  ghost predicate Run(states: seq<State>) {
    && states != [] && Init(states[0])
    && forall i :: 0 < i < |states| ==> NextAt(states, i)
  }

  // ----- stages -----

  /** 0 before the first arrival, 1 blocked in the first wait, 2 between the waits, 3 blocked in
      the second, 4 after it. */
  function WorkerStage(w: Worker): nat {
    match w
    case Unspawned => 0 case Starting => 0 case Ready => 0
    case InStart(_) => 1
    case Released => 2 case Working => 2 case AtEnd(_) => 2
    case InEnd(_, _) => 3
    case Passed(_) => 4 case Ended(_) => 4
  }

  function CoordinatorStage(c: Coordinator): nat {
    match c
    case Spawning(_) => 0
    case CInStart(_) => 1
    case Woken => 2 case Timing => 2
    case CInEnd(_) => 3
    case Joining(_) => 4 case Returned => 4 case Panicked(_) => 4
  }

  function Stage(s: State, p: nat): nat
    requires p <= |s.workers|
  {
    if p < |s.workers| then WorkerStage(s.workers[p]) else CoordinatorStage(s.coordinator)
  }

  /** The participants blocked in the current generation. */
  function Blocked(s: State): set<nat> { set p: nat | p <= |s.workers| && Stage(s, p) == 2 * s.generation + 1 }

  // ----- invariant -----

  /** Nobody is more than one wait away from the current generation. */
  predicate InStep(s: State, p: nat)
    requires p <= |s.workers|
  {
    2 * s.generation - 1 <= Stage(s, p) <= 2 * s.generation + 1
  }

  predicate WorkerFits(s: State, i: nat)
    requires i < |s.workers| == |s.pins|
  {
    match s.workers[i]
    case Unspawned => s.coordinator.Spawning? && s.coordinator.k <= i
    case InStart(gen) => gen == 0
    case Working => s.pins[i]
    case AtEnd(worked) => worked == s.pins[i]
    case InEnd(gen, worked) => gen == 1 && worked == s.pins[i]
    case Passed(worked) => worked == s.pins[i]
    case Ended(panicked) => panicked == !s.pins[i]
    case _ => true
  }

  predicate CoordinatorFits(s: State)
    requires |s.workers| == |s.pins|
  {
    match s.coordinator
    case Spawning(k) => k <= |s.workers| && forall i :: k <= i < |s.workers| ==> s.workers[i] == Unspawned
    case CInStart(gen) => gen == 0
    case CInEnd(gen) => gen == 1
    case Joining(k) => k <= |s.workers| && forall i :: 0 <= i < k ==> s.workers[i] == Ended(false)
    case Returned => forall i :: 0 <= i < |s.pins| ==> s.pins[i]
    case Panicked(k) => k < |s.pins| && !s.pins[k] && forall i :: 0 <= i < k ==> s.pins[i]
    case Woken => true
    case Timing => true
  }

  ghost predicate Inv(s: State) {
    && |s.workers| == |s.pins| > 0 && s.generation <= 2
    && (forall p: nat :: p <= |s.workers| ==> InStep(s, p))
    && s.count == |Blocked(s)| <= |s.workers|
    && (forall i :: 0 <= i < |s.workers| ==> WorkerFits(s, i))
    && CoordinatorFits(s)
  }

  lemma InitInv(s: State)
    requires Init(s)
    ensures Inv(s)
  {
    assert Blocked(s) == {};
  }

  /** All participants. */
  function Everyone(n: nat): (r: set<nat>)
    ensures |r| == n + 1 && forall p: nat :: p in r <==> p <= n
  {
    if n == 0 then {0} else Everyone(n - 1) + {n}
  }

  /** The completing arrival finds everybody else blocked. */
  lemma CompletesMeansAllBlocked(s: State, p: nat)
    requires Inv(s) && p <= |s.workers| && p !in Blocked(s) && Completes(s)
    ensures forall q: nat :: q <= |s.workers| && q != p ==> q in Blocked(s)
  {
    var others := Everyone(|s.workers|) - {p};
    SubsetsCount(Blocked(s), others);
  }

  /** Somebody is not blocked. */
  lemma NotAllBlocked(s: State) returns (p: nat)
    requires Inv(s)
    ensures p <= |s.workers| && p !in Blocked(s)
  {
    if Everyone(|s.workers|) <= Blocked(s) { SubsetsCount(Everyone(|s.workers|), Blocked(s)); }
    p :| p in Everyone(|s.workers|) && p !in Blocked(s);
  }
}
