/** How an inherited admission comes to stand without an owner (src/coordination.rs lines 93-136
    and 297): runs that start from the empty directory. */
module AdmissionExceptions {
  import opened Admission
  import opened AdmissionInvariant
  import opened AdmissionLease
  import opened AdmissionTheorems
  import opened Wrappers

  function Final(states: seq<State>): State
    requires |states| > 0
  {
    states[|states| - 1]
  }

  /** The run that takes one more step. */
  lemma Do(states: seq<State>, a: Action) returns (more: seq<State>)
    requires Run(states) && Step(Final(states), a).Some?
    ensures Run(more) && more == states + [Step(Final(states), a).value]
  {
    more := states + [Step(Final(states), a).value];
    forall i | 0 < i < |more| ensures NextAt(more, i) {
      if i < |states| { assert NextAt(states, i); }
    }
  }

  // ----- a supervisor and its child are reached -----

  /** Process 0 is the only process and its client 0, at `pc`, the only client. */
  ghost predicate Alone(s: State, pc: Pc) {
    && s.clients.Keys == {0} && s.clients[0] == Member(0, pc)
    && s.procs.Keys == {0} && s.procs[0] == Process(None, None, None, true)
  }

  lemma ReachDrawn() returns (states: seq<State>)
    ensures Run(states) && Alone(Final(states), LockingGuard(1)) && Final(states).tickets == map[]
  {
    states := [INITIAL];
    states := Do(states, Boot(0));
    states := Do(states, Arrive(0, 0, false));
    states := Do(states, TakeControl(0));
    states := Do(states, ReadCounter(0));
    states := Do(states, TruncateCounter(0));
    states := Do(states, WriteCounter(0));
  }

  /** The directory holds ticket 1 of process 0 and nothing else. */
  ghost predicate OnlyTicket(s: State, running: bool) {
    s.tickets.Keys == {1} && s.tickets[1] == Ticket(1, 0, running)
  }

  lemma ReachRegistering() returns (states: seq<State>)
    ensures Run(states) && Alone(Final(states), Registering(1)) && OnlyTicket(Final(states), false)
  {
    states := ReachDrawn();
    states := Do(states, LockGuard(0));
    states := Do(states, TruncateTicket(0));
    states := Do(states, WriteTicket(0));
  }

  lemma ReachScanning() returns (states: seq<State>)
    ensures Run(states) && Alone(Final(states), Scanning(1, {1}, false)) && OnlyTicket(Final(states), false)
  {
    states := ReachRegistering();
    states := Do(states, Register(0));
    states := Do(states, TakeControl(0));
  }

  lemma ReachMarking() returns (states: seq<State>)
    ensures Run(states) && Alone(Final(states), TruncatingRunning(1)) && OnlyTicket(Final(states), false)
  {
    states := ReachScanning();
    states := Do(states, ScanEntry(0, 1));
    assert {1} - {1} == {};
    states := Do(states, EndScan(0));
  }

  lemma ReachRunning() returns (states: seq<State>)
    ensures Run(states) && Alone(Final(states), Running(1, true, None)) && OnlyTicket(Final(states), true)
  {
    states := ReachMarking();
    states := Do(states, MarkRunningBegin(0));
    states := Do(states, MarkRunningEnd(0));
    states := Do(states, Admit(0));
    states := Do(states, Retain(0));
  }

  /** Client `d` runs and retains its reservation for child `p`, which lives. */
  ghost predicate Supervises(s: State, d: Client, p: Pid, n: Seq) {
    d in s.clients && s.clients[d].pc == Running(n, true, Some(p)) && AliveUnder(s, p, n)
  }

  lemma ReachSupervising() returns (states: seq<State>)
    ensures Run(states) && Supervises(Final(states), 0, 1, 1)
    ensures Final(states).clients.Keys == {0} && Final(states).clients[0].pid == 0
    ensures Final(states).procs == map[0 := Process(None, None, None, true), 1 := Process(Some(0), Some(1), Some(1), true)]
    ensures OnlyTicket(Final(states), true)
  {
    states := ReachRunning();
    states := Do(states, Supervise(0, 1));
  }

  /** Child `p` of the running, retaining client `d` has read its lease and is about to probe. */
  ghost predicate AboutToProbe(s: State, d: Client, c: Client, p: Pid, n: Seq) {
    && Supervises(s, d, p, n)
    && c in s.clients && s.clients[c] == Member(p, LeaseProbing(n, Ticket(n, s.clients[d].pid, true)))
  }

  lemma ReachAboutToProbe() returns (states: seq<State>)
    ensures Run(states) && AboutToProbe(Final(states), 0, 1, 1, 1)
    ensures Final(states).clients.Keys == {0, 1} && Final(states).clients[0].pid == 0
  {
    states := ReachSupervising();
    states := Do(states, Arrive(1, 1, true));
    states := Do(states, ReadLease(1));
  }

  // ----- the supervisor drops its reservation during the check -----

  /** The probe of `c` finds the guard locked, and by the supervisor itself. */
  lemma ProbeFindsOwner(s: State, d: Client, c: Client, p: Pid, n: Seq)
    requires Inv(s) && AboutToProbe(s, d, c, p, n)
    ensures var t := Goto(s, c, LeaseWalking(n, Ticket(n, s.clients[d].pid, true)));
      Step(s, ProbeLease(c)) == Some(t) && NestedUnder(t, p, n)
  {
    assert ClientInv(s, d) && ChildPinsTicket(s, p);
    assert HoldsGuard(s.clients[d].pc, n);
    var owner := s.clients[d].pid;
    var t := Goto(s, c, LeaseWalking(n, Ticket(n, owner, true)));
    assert LeaseStep(s, ProbeLease(c)) == Some(t);
    assert ReachesOwner(t.procs, owner, owner, MAX_HOPS - 1);
    assert t.clients[d] == s.clients[d] && OwnsRunning(t, d, p);
  }

  /** The child after the probe, after the supervisor's drop, and after the walk. */
  ghost function Walking(s: State, d: Client, c: Client, n: Seq): State
    requires c in s.clients && d in s.clients
  {
    Goto(s, c, LeaseWalking(n, Ticket(n, s.clients[d].pid, true)))
  }

  ghost function Dropped(s: State, d: Client, c: Client, n: Seq): State
    requires c in s.clients && d in s.clients
  {
    Goto(Walking(s, d, c, n), d, Closed)
  }

  lemma DropWhileWalking(s: State, d: Client, c: Client, p: Pid, n: Seq)
    requires AboutToProbe(s, d, c, p, n)
    ensures Step(Walking(s, d, c, n), DropReservation(d)) == Some(Dropped(s, d, c, n))
  {
    assert HoldStep(Walking(s, d, c, n), DropReservation(d)) == Some(Dropped(s, d, c, n));
  }

  lemma WalkAfterDrop(s: State, d: Client, c: Client, p: Pid, n: Seq)
    requires AboutToProbe(s, d, c, p, n) && ReachesOwner(s.procs, p, s.clients[d].pid, MAX_HOPS)
    ensures Step(Dropped(s, d, c, n), WalkAncestors(c)) == Some(Goto(Dropped(s, d, c, n), c, Nested(n)))
  {
    assert LeaseStep(Dropped(s, d, c, n), WalkAncestors(c)) == Some(Goto(Dropped(s, d, c, n), c, Nested(n)));
  }

  lemma OwnerIsGone(s: State, d: Client, c: Client, p: Pid, n: Seq, v: State)
    requires AboutToProbe(s, d, c, p, n) && Distinct(s) && RunningOnDisk(s, n)
    requires v == Goto(Dropped(s, d, c, n), c, Nested(n))
    ensures c in v.clients && v.clients[c] == Member(p, Nested(n)) && Orphan(v, n) && !Owned(v, n)
  {
    assert v.tickets == s.tickets && Drawn(s.clients[d].pc);
    forall x | x in v.clients && Drawn(v.clients[x].pc) ensures v.clients[x].pc.s != n {
      assert x != d && v.clients[x] == s.clients[x];
    }
  }

  lemma ReachesSupervisor(s: State, d: Client, p: Pid, n: Seq)
    requires Inv(s) && Supervises(s, d, p, n)
    ensures ReachesOwner(s.procs, p, s.clients[d].pid, MAX_HOPS) && RunningOnDisk(s, n) && Distinct(s)
  {
    assert ClientInv(s, d) && ChildPinsTicket(s, p);
    assert ReachesOwner(s.procs, s.clients[d].pid, s.clients[d].pid, MAX_HOPS - 1);
  }

  /** From every such state, with nobody else moving: the probe finds the owner's own lock, the
      supervisor returns on an error path and drops its retained reservation, and the walk
      still admits the child, under a ticket nobody owns. */
  lemma DroppedDuringCheck(s: State, d: Client, c: Client, p: Pid, n: Seq) returns (t: State, u: State, v: State)
    requires Inv(s) && AboutToProbe(s, d, c, p, n)
    ensures Step(s, ProbeLease(c)) == Some(t) && NestedUnder(t, p, n)
    ensures Step(t, DropReservation(d)) == Some(u) && Step(u, WalkAncestors(c)) == Some(v)
    ensures c in v.clients && v.clients[c] == Member(p, Nested(n)) && Orphan(v, n) && !Owned(v, n)
  {
    t, u := Walking(s, d, c, n), Dropped(s, d, c, n);
    v := Goto(u, c, Nested(n));
    ReachesSupervisor(s, d, p, n);
    ProbeFindsOwner(s, d, c, p, n);
    DropWhileWalking(s, d, c, p, n);
    WalkAfterDrop(s, d, c, p, n);
    OwnerIsGone(s, d, c, p, n, v);
  }

  /** A run of that kind: the walk succeeds although the number has no owner any more. */
  lemma AdmittedWithoutOwner() returns (states: seq<State>)
    ensures Run(states) && |states| > 1 && Step(states[|states| - 2], WalkAncestors(1)) == Some(Final(states))
    ensures 1 in Final(states).clients && Final(states).clients[1] == Member(1, Nested(1))
    ensures Orphan(Final(states), 1) && !NestedUnder(Final(states), 1, 1)
  {
    states := ReachAboutToProbe();
    ReachableInv(states, |states| - 1);
    var t, u, v := DroppedDuringCheck(Final(states), 0, 1, 1, 1);
    states := Do(states, ProbeLease(1));
    states := Do(states, DropReservation(0));
    states := Do(states, WalkAncestors(1));
    assert Final(states) == v;
    AdmittedNestedExactlyWhenOwned(states, |states| - 1, 1, 1);
  }

  /** A run in which the child's check meets nothing but a momentary probe: the supervisor has
      dropped its retained reservation, so nobody owns the number, and the check goes on to its
      walk as it would behind the owner's own lock. */
  lemma ProbeMistakenForOwner() returns (states: seq<State>)
    ensures Run(states) && |states| > 1 && Step(states[|states| - 2], ProbeLease(1)) == Some(Final(states))
    ensures AliveUnder(states[|states| - 2], 1, 1) && !GuardFree(states[|states| - 2], 1)
    ensures Orphan(states[|states| - 2], 1) && !Owned(states[|states| - 2], 1) && !NestedUnder(states[|states| - 2], 1, 1)
    ensures 1 in Final(states).clients && Final(states).clients[1] == Member(1, LeaseWalking(1, Ticket(1, 0, true)))
  {
    states := ReachProbed();
    states := Do(states, ProbeLease(1));
  }

  lemma ReachDropped() returns (states: seq<State>)
    ensures Run(states) && AliveUnder(Final(states), 1, 1) && Orphan(Final(states), 1)
    ensures Final(states).clients.Keys == {0, 1} && Final(states).clients[0].pc == Closed
    ensures Final(states).clients[1] == Member(1, LeaseProbing(1, Ticket(1, 0, true)))
    ensures 0 in Final(states).procs && Final(states).procs[0].alive
  {
    states := ReachAboutToProbe();
    ReachableInv(states, |states| - 1);
    assert ClientInv(Final(states), 0);
    LossOrphans(Final(states), DropReservation(0), Step(Final(states), DropReservation(0)).value);
    states := Do(states, DropReservation(0));
  }

  lemma ReachProbed() returns (states: seq<State>)
    ensures Run(states) && AliveUnder(Final(states), 1, 1) && Orphan(Final(states), 1)
    ensures !GuardFree(Final(states), 1) && !Owned(Final(states), 1) && !NestedUnder(Final(states), 1, 1)
    ensures 1 in Final(states).clients && Final(states).clients[1] == Member(1, LeaseProbing(1, Ticket(1, 0, true)))
  {
    states := ReachDropped();
    states := Do(states, Peek(2, 0, 1));
    assert Final(states).clients[2].pc == Peeking(1);
  }

  // ----- the owner or an ancestor is lost after the admission -----

  lemma ReachWalkingChild() returns (states: seq<State>)
    ensures Run(states) && Supervises(Final(states), 0, 1, 1) && Final(states).clients.Keys == {0, 1}
    ensures Final(states).clients[1] == Member(1, LeaseWalking(1, Ticket(1, 0, true)))
    ensures ReachesOwner(Final(states).procs, 1, 0, MAX_HOPS)
  {
    states := ReachAboutToProbe();
    ReachableInv(states, |states| - 1);
    ReachesSupervisor(Final(states), 0, 1, 1);
    ProbeFindsOwner(Final(states), 0, 1, 1, 1);
    states := Do(states, ProbeLease(1));
  }

  lemma ReachNestedChild() returns (states: seq<State>)
    ensures Run(states) && Supervises(Final(states), 0, 1, 1) && Final(states).clients.Keys == {0, 1}
    ensures Final(states).clients[1] == Member(1, Nested(1))
  {
    states := ReachWalkingChild();
    states := Do(states, WalkAncestors(1));
  }

  /** The supervisor dies after the child was admitted: nobody owns the child's number. */
  lemma OwnerLostLater() returns (states: seq<State>)
    ensures Run(states) && |states| > 1 && Step(states[|states| - 2], Crash(0)) == Some(Final(states))
    ensures 1 in states[|states| - 2].clients && states[|states| - 2].clients[1] == Member(1, Nested(1))
    ensures NestedUnder(states[|states| - 2], 1, 1)
    ensures 1 in Final(states).clients && Final(states).clients[1] == Member(1, Nested(1))
    ensures Orphan(Final(states), 1) && !NestedUnder(Final(states), 1, 1)
  {
    states := ReachNestedChild();
    ReachableInv(states, |states| - 1);
    assert Drawn(Final(states).clients[0].pc);
    ChildNestedExactlyWhenOwned(states, |states| - 1, 1, 1);
    var s := Final(states);
    states := Do(states, Crash(0));
    LossOrphans(s, Crash(0), Final(states));
    ChildNestedExactlyWhenOwned(states, |states| - 1, 1, 1);
  }

  /** Process 2, started by the supervised process 1, is nested in the reservation of process 0. */
  lemma ReachNestedGrandchild() returns (states: seq<State>)
    ensures Run(states) && Supervises(Final(states), 0, 1, 1) && Final(states).clients.Keys == {0, 1}
    ensures Final(states).clients[0].pid == 0 && Final(states).clients[1] == Member(2, Nested(1))
    ensures 2 in Final(states).procs && Final(states).procs[2] == Process(Some(1), Some(1), None, true)
  {
    states := ReachSupervising();
    states := Do(states, Fork(1, 2));
    states := Do(states, Arrive(1, 2, true));
    states := Do(states, ReadLease(1));
    assert HoldsGuard(Final(states).clients[0].pc, 1);
    states := Do(states, ProbeLease(1));
    var procs := Final(states).procs;
    assert ReachesOwner(procs, 0, 0, MAX_HOPS - 2);
    assert ReachesOwner(procs, 1, 0, MAX_HOPS - 1);
    assert ReachesOwner(procs, 2, 0, MAX_HOPS);
    states := Do(states, WalkAncestors(1));
  }

  /** The process in the middle exits while its own child goes on: the number still has its
      owner, but no live chain leads there any more. */
  lemma AncestorLostLater() returns (states: seq<State>)
    ensures Run(states) && |states| > 1 && Step(states[|states| - 2], Exit(1)) == Some(Final(states))
    ensures 1 in Final(states).clients && Final(states).clients[1] == Member(2, Nested(1))
    ensures Owned(Final(states), 1) && !NestedUnder(Final(states), 2, 1)
  {
    states := ReachNestedGrandchild();
    states := Do(states, Exit(1));
    var s := Final(states);
    assert Drawn(s.clients[0].pc) && s.clients[0].pc.s == 1;
    assert !UnderSupervisor(s.procs, 1, 1, MAX_HOPS - 2);
    NestedExactlyWhen(states, |states| - 1, 1, 1);
  }
}
