/** What the admission protocol promises over whole runs. */
module AdmissionTheorems {
  import opened Admission
  import opened AdmissionInvariant
  import opened Wrappers

  /** At most one ticket is on disk as running. */
  lemma AtMostOneRunning(states: seq<State>, i: nat, j: Seq, k: Seq)
    requires Run(states) && i < |states| && RunningOnDisk(states[i], j) && RunningOnDisk(states[i], k)
    ensures j == k
  {
    ReachableShared(states, i);
  }

  lemma NumbersMean(s: State)
    requires Numbers(s)
    ensures Increasing(s.issued)
    ensures s.counter.Value? ==> forall m :: 0 <= m < |s.issued| ==> s.issued[m] <= s.counter.n <= MAX_SEQUENCE
  {
  }

  /** Every number ever issued is distinct, in increasing order, and at most the counter. */
  lemma NumbersDistinctAndBounded(states: seq<State>, i: nat)
    requires Run(states) && i < |states|
    ensures Increasing(states[i].issued)
    ensures states[i].counter.Value? ==>
      forall m :: 0 <= m < |states[i].issued| ==> states[i].issued[m] <= states[i].counter.n <= MAX_SEQUENCE
  {
    ReachableShared(states, i);
    NumbersMean(states[i]);
  }

  /** No scan ever prunes the ticket of a live waiter or changes that of a running owner. */
  lemma LiveTicketsStay(states: seq<State>, i: nat, c: Client)
    requires Run(states) && i < |states| && c in states[i].clients
    ensures var s := states[i];
      var Member(pid, pc) := s.clients[c];
      Listed(pc) || Runs(pc) ==> (pc.s in s.tickets && s.tickets[pc.s] == Ticket(pc.s, pid, Runs(pc)))
  {
    ReachableClient(states, i, c);
  }

  // ----- fail closed -----

  /** Ticket `k` is running or unreadable and nobody is left who could clean it up. */
  ghost predicate Orphan(s: State, k: Seq) {
    && k in s.tickets && (s.tickets[k].Torn? || s.tickets[k].running)
    && forall c :: c in s.clients && Drawn(s.clients[c].pc) ==> s.clients[c].pc.s != k
  }

  lemma OrphanStaysOverStep(s: State, c: Client, t: State, k: Seq)
    requires c in s.clients && ClientInv(s, c) && Numbers(s) && Order(s) && Good(s, c, t) && Orphan(s, k)
    ensures Orphan(t, k) && t.admitted == s.admitted
  {
    assert !Touches(s.clients[c].pc, k);
    forall d | d in t.clients && Drawn(t.clients[d].pc) ensures t.clients[d].pc.s != k {
      assert d != c ==> t.clients[d] == s.clients[d];
    }
  }

  /** Once orphaned, a ticket stays on disk and nothing is admitted ever again. */
  lemma {:induction false} FailClosed(states: seq<State>, i: nat, j: nat, k: Seq)
    requires Run(states) && i <= j < |states| && Orphan(states[i], k)
    ensures Orphan(states[j], k) && states[j].admitted == states[i].admitted
    decreases j - i
  {
    if i < j {
      FailClosed(states, i, j - 1, k);
      var a := RunStep(states, j);
      if !ProcessAction(a) {
        ReachableClient(states, j - 1, a.c);
        ReachableShared(states, j - 1);
        OrphanStaysOverStep(states[j - 1], a.c, states[j], k);
      }
    }
  }

  lemma LossLeavesTicket(s: State, a: Action, t: State)
    requires (a.Crash? || a.DropReservation?) && Step(s, a) == Some(t) && a.c in s.clients && Runs(s.clients[a.c].pc)
    requires a.DropReservation? ==> s.clients[a.c].pc.Running? && s.clients[a.c].pc.retain
    ensures t == Goto(s, a.c, Closed)
  {
    if a.Crash? { assert LossStep(s, a) == Some(t); } else { assert HoldStep(s, a) == Some(t); }
  }

  /** A crash of the owner, or dropping a retained reservation, orphans its running ticket. */
  lemma LossOrphans(s: State, a: Action, t: State)
    requires Inv(s) && Step(s, a) == Some(t)
    requires (a.Crash? || a.DropReservation?) && a.c in s.clients && Runs(s.clients[a.c].pc)
    requires a.DropReservation? ==> s.clients[a.c].pc.Running? && s.clients[a.c].pc.retain
    ensures Orphan(t, s.clients[a.c].pc.s)
  {
    LossLeavesTicket(s, a, t);
    assert ClientInv(s, a.c) && Drawn(s.clients[a.c].pc);
    forall d | d in t.clients && Drawn(t.clients[d].pc) ensures t.clients[d].pc.s != s.clients[a.c].pc.s {
      assert d != a.c && t.clients[d] == s.clients[d];
    }
  }

  lemma NoAdmissionInStep(s: State, a: Action, t: State, k: Seq)
    requires !ProcessAction(a) && Step(s, a) == Some(t) && a.c in s.clients
    requires ClientInv(s, a.c) && Numbers(s) && Order(s) && RunningOnDisk(s, k)
    ensures t.admitted == s.admitted
  {
    ClientStepGood(s, a, t);
  }

  /** No admission while any ticket is on disk as running. */
  lemma NoAdmissionWhileRunning(states: seq<State>, i: nat, k: Seq)
    requires Run(states) && 0 < i < |states| && RunningOnDisk(states[i - 1], k)
    ensures states[i].admitted == states[i - 1].admitted
  {
    assert NextAt(states, i);
    var a :| Step(states[i - 1], a) == Some(states[i]);
    if !ProcessAction(a) {
      ReachableClient(states, i - 1, a.c);
      ReachableShared(states, i - 1);
      NoAdmissionInStep(states[i - 1], a, states[i], k);
    }
  }

  ghost predicate AliveUnder(s: State, p: Pid, n: Seq) {
    p in s.procs && s.procs[p].alive && s.procs[p].supervisor == Some(n)
  }

  /** Ticket `n` is on disk as running, and whoever owns it retains it for child `p`. */
  ghost predicate Pinned(s: State, p: Pid, n: Seq) {
    && RunningOnDisk(s, n)
    && forall c :: c in s.clients && Drawn(s.clients[c].pc) && s.clients[c].pc.s == n ==> s.clients[c].pc == Running(n, true, Some(p))
  }

  /** Step `k` of the run is the supervisor's reaping of child `p`. */
  ghost predicate ReapedAt(states: seq<State>, k: nat, p: Pid)
    requires 0 < k < |states|
  {
    ReapedBetween(states[k - 1], states[k], p)
  }

  ghost predicate ReapedBetween(s: State, t: State, p: Pid) {
    exists c {:trigger Reaps(s, c, t, p)} :: c in s.clients && Reaps(s, c, t, p)
  }

  ghost predicate Reaps(s: State, c: Client, t: State, p: Pid) {
    c in s.clients && s.clients[c].pc.Running? && s.clients[c].pc.child == Some(p) && Step(s, Reaped(c)) == Some(t)
  }

  /** A supervisor that does not reap keeps its reservation or loses it without a cleanup. */
  lemma SupervisorKeeps(s: State, a: Action, p: Pid)
    requires !ProcessAction(a) && a.c in s.clients
    requires s.clients[a.c].pc.Running? && s.clients[a.c].pc.retain && s.clients[a.c].pc.child == Some(p)
    ensures Step(s, a).Some? ==>
      var t := Step(s, a).value;
      a.c in t.clients && (t.clients[a.c].pc == s.clients[a.c].pc || t.clients[a.c].pc == Closed || Reaps(s, a.c, t, p))
  {
    if LeaseAction(a) { assert LeaseStep(s, a) == None; }
    else if DrawAction(a) { assert DrawStep(s, a) == None; }
    else if FileAction(a) { assert FileStep(s, a) == None; }
    else if ScanAction(a) { assert ScanStep(s, a) == None; }
    else if MarkAction(a) { assert MarkStep(s, a) == None; }
    else if CleanAction(a) { assert CleanStep(s, a) == None; }
  }

  lemma PinnedOverClientStep(s: State, a: Action, t: State, p: Pid, n: Seq)
    requires !ProcessAction(a) && Step(s, a) == Some(t) && a.c in s.clients
    requires ClientInv(s, a.c) && Numbers(s) && Order(s) && Pinned(s, p, n) && !Reaps(s, a.c, t, p)
    ensures Pinned(t, p, n)
  {
    var pc := s.clients[a.c].pc;
    ClientStepGood(s, a, t);
    if Drawn(pc) && pc.s == n { SupervisorKeeps(s, a, p); }
    assert !Touches(pc, n);
    forall d | d in t.clients && Drawn(t.clients[d].pc) && t.clients[d].pc.s == n
      ensures t.clients[d].pc == Running(n, true, Some(p))
    {
      assert d != a.c ==> t.clients[d] == s.clients[d];
    }
  }

  lemma PinnedOverProcessStep(s: State, a: Action, t: State, p: Pid, n: Seq)
    requires ProcessAction(a) && Step(s, a) == Some(t) && Pinned(s, p, n)
    ensures Pinned(t, p, n)
  {
    ProcessStepShape(s, a, t);
    assert t.tickets == s.tickets;
    assert forall d :: d in t.clients && Drawn(t.clients[d].pc) ==> d in s.clients && t.clients[d] == s.clients[d];
  }

  lemma PinnedOverRunClientStep(states: seq<State>, k: nat, a: Action, p: Pid, n: Seq)
    requires Run(states) && 0 < k < |states| && Pinned(states[k - 1], p, n)
    requires !ProcessAction(a) && a.c in states[k - 1].clients && Step(states[k - 1], a) == Some(states[k])
    requires !Reaps(states[k - 1], a.c, states[k], p)
    ensures Pinned(states[k], p, n)
  {
    ReachableClient(states, k - 1, a.c);
    ReachableShared(states, k - 1);
    PinnedOverClientStep(states[k - 1], a, states[k], p, n);
  }

  lemma PinnedOverStep(states: seq<State>, k: nat, p: Pid, n: Seq)
    requires Run(states) && 0 < k < |states| && Pinned(states[k - 1], p, n) && !ReapedAt(states, k, p)
    ensures Pinned(states[k], p, n)
  {
    var a := RunStep(states, k);
    if ProcessAction(a) {
      PinnedOverProcessStep(states[k - 1], a, states[k], p, n);
    } else {
      assert !Reaps(states[k - 1], a.c, states[k], p);
      PinnedOverRunClientStep(states, k, a, p, n);
    }
  }

  /** From the moment a supervised child lives until its supervisor has reaped it, alive or
      exited, the supervisor's ticket is the running one and no other reservation starts,
      whatever happens to the supervisor meanwhile. */
  lemma {:induction false} PinnedUntilReaped(states: seq<State>, i: nat, j: nat, p: Pid, n: Seq)
    requires Run(states) && i <= j < |states| && AliveUnder(states[i], p, n)
    requires forall k :: i < k <= j ==> !ReapedAt(states, k, p)
    ensures Pinned(states[j], p, n) && states[j].admitted == states[i].admitted
    decreases j - i
  {
    if i == j {
      ReachablePin(states, i, p);
    } else {
      PinnedUntilReaped(states, i, j - 1, p, n);
      PinnedOverStep(states, j, p, n);
      NoAdmissionWhileRunning(states, j, n);
    }
  }

  lemma LifeOverStep(states: seq<State>, i: nat, p: Pid, n: Seq)
    requires Run(states) && 0 < i < |states| && p in states[i - 1].procs
    ensures p in states[i].procs && (AliveUnder(states[i], p, n) ==> AliveUnder(states[i - 1], p, n))
  {
    var a := RunStep(states, i);
  }

  lemma {:induction false} ProcessesOnlyDie(states: seq<State>, i: nat, j: nat, p: Pid, n: Seq)
    requires Run(states) && i <= j < |states| && p in states[i].procs && AliveUnder(states[j], p, n)
    ensures forall k :: i <= k <= j ==> AliveUnder(states[k], p, n)
    decreases j - i
  {
    if i < j {
      LifeOverStep(states, i + 1, p, n);
      ProcessesOnlyDie(states, i + 1, j, p, n);
    }
  }

  /** A child that still lives has not been reaped, so the exclusion covers its whole life. */
  lemma SupervisedChildExcludes(states: seq<State>, i: nat, j: nat, p: Pid, n: Seq)
    requires Run(states) && i <= j < |states| && p in states[i].procs && AliveUnder(states[j], p, n)
    ensures RunningOnDisk(states[i], n) && RunningOnDisk(states[j], n) && states[j].admitted == states[i].admitted
  {
    ProcessesOnlyDie(states, i, j, p, n);
    PinnedUntilReaped(states, i, i, p, n);
    PinnedUntilReaped(states, i, j, p, n);
  }

  // ----- first in, first out -----

  lemma BelowLast(xs: seq<nat>, m: nat)
    requires Increasing(xs) && m < |xs|
    ensures xs[m] <= Last(xs)
  {
  }

  /** Admissions never overtake: the log is increasing, and whoever waits is behind all of it. */
  lemma NoOvertaking(states: seq<State>, i: nat, c: Client, m: nat)
    requires Run(states) && i < |states| && c in states[i].clients && m < |states[i].admitted|
    ensures Increasing(states[i].admitted)
    ensures Waits(states[i].clients[c].pc) ==> states[i].admitted[m] < states[i].clients[c].pc.s
  {
    ReachableShared(states, i);
    ReachableClient(states, i, c);
    BelowLast(states[i].admitted, m);
  }

  function LowerTickets(s: State, n: Seq): set<Seq> { set k | k in s.tickets && k < n }

  ghost function LowerOwners(s: State, n: Seq): set<Client> {
    set c | c in s.clients && Drawn(s.clients[c].pc) && s.clients[c].pc.s < n
  }

  /** Once number `n` is issued, the tickets and the owners before it only ever get fewer. */
  lemma {:induction false} LowerOnlyShrinks(states: seq<State>, i: nat, j: nat, n: Seq)
    requires Run(states) && i <= j < |states| && n <= Last(states[i].issued)
    ensures LowerTickets(states[j], n) <= LowerTickets(states[i], n)
    ensures LowerOwners(states[j], n) <= LowerOwners(states[i], n)
    ensures n <= Last(states[j].issued)
    decreases j - i
  {
    if i < j {
      LowerOnlyShrinks(states, i, j - 1, n);
      var s, t := states[j - 1], states[j];
      var a := RunStep(states, j);
      if !ProcessAction(a) {
        ReachableClient(states, j - 1, a.c);
        assert forall d :: d in t.clients && d != a.c ==> t.clients[d] == s.clients[d];
      }
    }
  }
}
