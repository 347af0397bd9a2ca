/** What the end of a reservation leaves behind (src/coordination.rs lines 295-318): nothing, unless
    it was retained, failed or crashed. */
module AdmissionCleanup {
  import opened Admission
  import opened AdmissionInvariant
  import opened AdmissionLease
  import opened AdmissionProgress
  import opened AdmissionTheorems
  import opened Wrappers

  /** Past the removal of its ticket. */
  predicate PastRemoval(pc: Pc) { pc.Unguarding? || pc.Finishing? }

  ghost predicate Removed(s: State, c: Client)
    requires c in s.clients
  {
    PastRemoval(s.clients[c].pc) ==> s.clients[c].pc.s !in s.tickets
  }

  /** Only the removal itself leads past it, and only with the ticket gone. */
  lemma OwnRemoval(s: State, a: Action, t: State)
    requires !ProcessAction(a) && a.c in s.clients && Step(s, a) == Some(t) && Removed(s, a.c)
    ensures a.c in t.clients && Removed(t, a.c)
  {
    if LeaseAction(a) { assert LeaseStep(s, a) == Some(t); }
    else if DrawAction(a) { assert DrawStep(s, a) == Some(t); }
    else if FileAction(a) { assert FileStep(s, a) == Some(t); }
    else if ScanAction(a) { assert ScanStep(s, a) == Some(t); }
    else if MarkAction(a) { assert MarkStep(s, a) == Some(t); }
    else if HoldAction(a) { assert HoldStep(s, a) == Some(t); }
    else if CleanAction(a) { assert CleanStep(s, a) == Some(t); }
    else { assert LossStep(s, a) == Some(t); }
  }

  lemma OthersRemoval(s: State, c: Client, t: State, d: Client)
    requires Inv(s) && c in s.clients && Effect(s, c, t) && d in s.clients && d != c && Removed(s, d)
    ensures Removed(t, d)
  {
    assert t.clients[d] == s.clients[d];
    if PastRemoval(s.clients[d].pc) { TouchesOnlyOwn(s, c, d, s.clients[d].pc.s); }
  }

  /** In every reachable state the ticket of a client that has gone past its removal is off the disk. */
  lemma {:induction false} TicketIsGone(states: seq<State>, i: nat, c: Client)
    requires Run(states) && i < |states| && c in states[i].clients && PastRemoval(states[i].clients[c].pc)
    ensures states[i].clients[c].pc.s !in states[i].tickets
  {
    ReachableRemoved(states, i, c);
  }

  lemma {:induction false} ReachableRemoved(states: seq<State>, i: nat, c: Client)
    requires Run(states) && i < |states| && c in states[i].clients
    ensures Removed(states[i], c)
  {
    if i > 0 {
      var a := RunStep(states, i);
      if c in states[i - 1].clients {
        ReachableRemoved(states, i - 1, c);
        RemovedOverStep(states, i, a, c);
      } else {
        assert ProcessAction(a) && c == a.c;
      }
    }
  }

  lemma RemovedOverStep(states: seq<State>, i: nat, a: Action, c: Client)
    requires Run(states) && 0 < i < |states| && Step(states[i - 1], a) == Some(states[i])
    requires c in states[i - 1].clients && Removed(states[i - 1], c)
    ensures c in states[i].clients && Removed(states[i], c)
  {
    var s, t := states[i - 1], states[i];
    if ProcessAction(a) {
      ProcessStepShape(s, a, t);
      assert t.tickets == s.tickets && c in t.clients && t.clients[c] == s.clients[c];
    } else if a.c == c {
      OwnRemoval(s, a, t);
    } else {
      RemovedByOthers(states, i, a, c);
    }
  }

  lemma RemovedByOthers(states: seq<State>, i: nat, a: Action, c: Client)
    requires Run(states) && 0 < i < |states| && Step(states[i - 1], a) == Some(states[i])
    requires !ProcessAction(a) && a.c in states[i - 1].clients && a.c != c
    requires c in states[i - 1].clients && Removed(states[i - 1], c)
    ensures c in states[i].clients && Removed(states[i], c)
  {
    ReachableInv(states, i - 1);
    ClientStepGood(states[i - 1], a, states[i]);
    OthersRemoval(states[i - 1], a.c, states[i], c);
  }

  // ----- how an orphan arises -----

  /** The owner of number `k` is gone at `t`: its process died, it returned an error before its ticket was
      registered or inside its own cleanup, or it dropped a reservation it had retained. */
  ghost predicate Abandons(s: State, t: State, c: Client, k: Seq) {
    && c in s.clients && Drawn(s.clients[c].pc) && s.clients[c].pc.s == k
    && var pc := s.clients[c].pc;
       || Step(s, Crash(c)) == Some(t)
       || (Step(s, Fail(c)) == Some(t)
           && (pc.LockingGuard? || pc.TruncatingTicket? || pc.WritingTicket? || pc.Cleaning? || pc.Removing?))
       || (Step(s, DropReservation(c)) == Some(t) && pc.Running? && pc.retain)
  }

  ghost predicate OwnerLost(s: State, t: State, k: Seq) { exists c :: Abandons(s, t, c, k) }

  ghost predicate GivesUp(s: State, c: Client, t: State)
    requires c in s.clients && Drawn(s.clients[c].pc)
  {
    Abandons(s, t, c, s.clients[c].pc.s) || (s.clients[c].pc.Finishing? && t.tickets == s.tickets)
  }

  lemma NumberKept(s: State, a: Action)
    requires LeaseAction(a) || DrawAction(a) || FileAction(a)
    requires a.c in s.clients && Drawn(s.clients[a.c].pc)
    ensures Step(s, a).Some? ==> var t := Step(s, a).value; a.c in t.clients && Drawn(t.clients[a.c].pc)
  {
    if LeaseAction(a) { assert Step(s, a) == LeaseStep(s, a); }
    else if DrawAction(a) { assert Step(s, a) == DrawStep(s, a); }
    else { assert Step(s, a) == FileStep(s, a); }
  }

  lemma NumberScanned(s: State, a: Action)
    requires ScanAction(a) || MarkAction(a)
    requires a.c in s.clients && Drawn(s.clients[a.c].pc)
    ensures Step(s, a).Some? ==> var t := Step(s, a).value; a.c in t.clients && Drawn(t.clients[a.c].pc)
  {
    if ScanAction(a) { assert Step(s, a) == ScanStep(s, a); } else { assert Step(s, a) == MarkStep(s, a); }
  }

  /** A number is given up by abandoning it, or at the end of the cleanup. */
  lemma NumberGivenUp(s: State, a: Action)
    requires !ProcessAction(a) && a.c in s.clients && Drawn(s.clients[a.c].pc)
    ensures Step(s, a).Some? ==>
      var t := Step(s, a).value; a.c in t.clients && (Drawn(t.clients[a.c].pc) || GivesUp(s, a.c, t))
  {
    if HoldAction(a) { assert Step(s, a) == HoldStep(s, a); }
    else if CleanAction(a) { assert Step(s, a) == CleanStep(s, a); }
    else if a.Fail? { assert a == Fail(a.c) && Step(s, a) == LossStep(s, a); }
    else if a.Crash? { assert a == Crash(a.c); }
    else if ScanAction(a) || MarkAction(a) { NumberScanned(s, a); }
    else { NumberKept(s, a); }
  }

  /** Processes and newcomers lose nobody. */
  lemma OrphanBefore(s: State, a: Action, t: State, k: Seq)
    requires ProcessAction(a) && Step(s, a) == Some(t) && Orphan(t, k)
    ensures Orphan(s, k)
  {
    ProcessStepShape(s, a, t);
    assert t.tickets == s.tickets;
    assert forall d :: d in s.clients ==> d in t.clients && t.clients[d] == s.clients[d];
  }

  /** A scan changes no ticket, it only removes. */
  lemma ProberOnlyRemoves(s: State, a: Action)
    requires !ProcessAction(a) && a.c in s.clients && s.clients[a.c].pc.Probing?
    ensures Step(s, a).Some? ==>
      var t := Step(s, a).value; forall k :: k in t.tickets ==> k in s.tickets && t.tickets[k] == s.tickets[k]
  {
    if LeaseAction(a) { assert Step(s, a) == LeaseStep(s, a); }
    else if DrawAction(a) { assert Step(s, a) == DrawStep(s, a); }
    else if FileAction(a) { assert Step(s, a) == FileStep(s, a); }
    else if ScanAction(a) { assert Step(s, a) == ScanStep(s, a); }
    else if MarkAction(a) { assert Step(s, a) == MarkStep(s, a); }
    else if HoldAction(a) { assert Step(s, a) == HoldStep(s, a); }
    else if CleanAction(a) { assert Step(s, a) == CleanStep(s, a); }
    else { assert Step(s, a) == LossStep(s, a); }
  }

  /** Whoever owned the orphaned number is the one who moved. */
  lemma OwnerMoved(s: State, a: Action, t: State, k: Seq)
    requires !ProcessAction(a) && Step(s, a) == Some(t) && Good(s, a.c, t) && ClientInv(s, a.c) && Orphan(t, k)
    ensures var pc := s.clients[a.c].pc; Orphan(s, k) || (Drawn(pc) && pc.s == k && !Drawn(t.clients[a.c].pc))
  {
    var pc := s.clients[a.c].pc;
    if !(Drawn(pc) && pc.s == k) {
      if pc.Probing? { ProberOnlyRemoves(s, a); }
      assert k in s.tickets && t.tickets[k] == s.tickets[k];
      forall d | d in s.clients && Drawn(s.clients[d].pc) ensures s.clients[d].pc.s != k {
        assert d != a.c ==> t.clients[d] == s.clients[d];
      }
    }
  }

  lemma OrphanOverClientStep(s: State, a: Action, t: State, k: Seq)
    requires !ProcessAction(a) && Step(s, a) == Some(t) && Good(s, a.c, t) && ClientInv(s, a.c) && Removed(s, a.c) && Orphan(t, k)
    ensures Orphan(s, k) || OwnerLost(s, t, k)
  {
    OwnerMoved(s, a, t, k);
    if !Orphan(s, k) {
      NumberGivenUp(s, a);
      assert Abandons(s, t, a.c, k);
    }
  }

  /** In a run an orphan arises only when its owner is lost: by a crash, by an error before the
      registration or inside the cleanup, or by the drop of a retained reservation. */
  lemma OrphansArise(states: seq<State>, i: nat, k: Seq)
    requires Run(states) && 0 < i < |states| && Orphan(states[i], k) && !Orphan(states[i - 1], k)
    ensures OwnerLost(states[i - 1], states[i], k)
  {
    var a := RunStep(states, i);
    if ProcessAction(a) {
      OrphanBefore(states[i - 1], a, states[i], k);
    } else {
      ReachableClient(states, i - 1, a.c);
      ReachableRemoved(states, i - 1, a.c);
      OrphanOverClientStep(states[i - 1], a, states[i], k);
    }
  }

  // ----- an ordinary end -----

  /** `c` is cleaning up reservation `n`, or has closed and left no trace of the number. */
  ghost predicate Leaving(s: State, c: Client, n: Seq) {
    && c in s.clients
    && var pc := s.clients[c].pc;
       if pc.Closed? then n !in s.tickets && !Owned(s, n) && n <= Last(s.issued)
       else (Cleans(pc) || pc.Finishing?) && pc.s == n
  }

  lemma LeavingIsNoOrphan(s: State, c: Client, n: Seq)
    requires Leaving(s, c, n)
    ensures !Orphan(s, n)
  {
    if !s.clients[c].pc.Closed? { assert Drawn(s.clients[c].pc); }
  }

  /** The moves of the cleanup. */
  lemma CleanupMoves(s: State, a: Action, n: Seq)
    requires !ProcessAction(a) && !a.Fail? && !a.Crash? && a.c in s.clients
    requires var pc := s.clients[a.c].pc; pc.Closed? || ((Cleans(pc) || pc.Finishing?) && pc.s == n)
    ensures Step(s, a).Some? ==>
      var t := Step(s, a).value;
      && a.c in t.clients && t.issued == s.issued && t.clients == s.clients[a.c := t.clients[a.c]]
      && var pc := t.clients[a.c].pc;
         ((Cleans(pc) || pc.Finishing?) && pc.s == n) || (pc.Closed? && s.clients[a.c].pc.Finishing? && t.tickets == s.tickets)
  {
    if LeaseAction(a) { assert Step(s, a) == LeaseStep(s, a); }
    else if DrawAction(a) { assert Step(s, a) == DrawStep(s, a); }
    else if FileAction(a) { assert Step(s, a) == FileStep(s, a); }
    else if ScanAction(a) { assert Step(s, a) == ScanStep(s, a); }
    else if MarkAction(a) { assert Step(s, a) == MarkStep(s, a); }
    else if HoldAction(a) { assert Step(s, a) == HoldStep(s, a); }
    else { assert Step(s, a) == CleanStep(s, a); }
  }

  lemma LeavingByOwnMove(s: State, a: Action, t: State, n: Seq)
    requires Inv(s) && !ProcessAction(a) && !a.Fail? && !a.Crash? && Step(s, a) == Some(t)
    requires Leaving(s, a.c, n) && Removed(s, a.c)
    ensures Leaving(t, a.c, n)
  {
    var pc := s.clients[a.c].pc;
    CleanupMoves(s, a, n);
    if t.clients[a.c].pc.Closed? {
      assert ClientInv(s, a.c) && Drawn(pc);
      forall d | d in t.clients && Drawn(t.clients[d].pc) ensures t.clients[d].pc.s != n {
        assert d != a.c && t.clients[d] == s.clients[d];
      }
    }
  }

  /** Nobody else brings a number back that has left no trace. */
  lemma StaysUntraced(s: State, c: Client, t: State, n: Seq)
    requires Good(s, c, t) && ClientInv(s, c) && n !in s.tickets && !Owned(s, n) && n <= Last(s.issued)
    ensures n !in t.tickets && !Owned(t, n) && n <= Last(t.issued)
  {
    var pc := s.clients[c].pc;
    assert !(Drawn(pc) && pc.s == n);
    forall d | d in t.clients && Drawn(t.clients[d].pc) ensures t.clients[d].pc.s != n {
      assert d != c ==> t.clients[d] == s.clients[d];
    }
  }

  lemma LeavingByOthers(s: State, a: Action, t: State, c: Client, n: Seq)
    requires !ProcessAction(a) && Step(s, a) == Some(t) && a.c != c
    requires Good(s, a.c, t) && ClientInv(s, a.c) && Leaving(s, c, n)
    ensures Leaving(t, c, n)
  {
    assert t.clients[c] == s.clients[c];
    if s.clients[c].pc.Closed? { StaysUntraced(s, a.c, t, n); }
  }

  lemma LeavingByProcess(s: State, a: Action, t: State, c: Client, n: Seq)
    requires ProcessAction(a) && Step(s, a) == Some(t) && Leaving(s, c, n)
    ensures Leaving(t, c, n)
  {
    ProcessStepShape(s, a, t);
    assert t.clients[c] == s.clients[c] && t.tickets == s.tickets && t.issued == s.issued;
    assert forall d :: d in t.clients && Drawn(t.clients[d].pc) ==> d in s.clients && t.clients[d] == s.clients[d];
  }

  lemma LeavingOverStep(states: seq<State>, acts: seq<Action>, k: nat, c: Client, n: Seq)
    requires Run(states) && k + 1 < |states| && k < |acts| && Taken(states, acts, k)
    requires acts[k] != Fail(c) && acts[k] != Crash(c) && Leaving(states[k], c, n)
    ensures Leaving(states[k + 1], c, n)
  {
    var a := acts[k];
    if ProcessAction(a) {
      LeavingByProcess(states[k], a, states[k + 1], c, n);
    } else if a.c == c {
      assert !a.Fail? && !a.Crash?;
      ReachableInv(states, k);
      ReachableRemoved(states, k, c);
      LeavingByOwnMove(states[k], a, states[k + 1], n);
    } else {
      ReachableClient(states, k, a.c);
      ReachableShared(states, k);
      ClientStepGood(states[k], a, states[k + 1]);
      LeavingByOthers(states[k], a, states[k + 1], c, n);
    }
  }

  /** `c` meets no error and does not crash. */
  ghost predicate Unharmed(acts: seq<Action>, c: Client, i: nat, j: nat)
    requires j <= |acts|
  {
    forall k :: i <= k < j ==> acts[k] != Fail(c) && acts[k] != Crash(c)
  }

  lemma {:induction false} LeavingOverRun(states: seq<State>, acts: seq<Action>, i: nat, j: nat, c: Client, n: Seq)
    requires Run(states) && i <= j < |states| && Schedule(states, acts, i, j) && Unharmed(acts, c, i, j)
    requires Leaving(states[i], c, n)
    ensures Leaving(states[j], c, n)
    decreases j - i
  {
    if i < j {
      LeavingOverRun(states, acts, i, j - 1, c, n);
      assert Taken(states, acts, j - 1);
      LeavingOverStep(states, acts, j - 1, c, n);
    }
  }

  /** A cleanup that meets no error and no crash leaves nothing behind: the number is never an orphan,
      and from the moment the cleanup has ended its ticket is off the disk for good and nobody
      owns it, whatever the others do meanwhile and afterwards. */
  lemma CleanupLeavesNothing(states: seq<State>, acts: seq<Action>, i: nat, j: nat, c: Client, n: Seq)
    requires Run(states) && i <= j < |states| && Schedule(states, acts, i, j) && Unharmed(acts, c, i, j)
    requires c in states[i].clients && states[i].clients[c].pc == Cleaning(n)
    ensures c in states[j].clients && !Orphan(states[j], n)
    ensures states[j].clients[c].pc.Closed? ==> n !in states[j].tickets && !Owned(states[j], n)
  {
    LeavingOverRun(states, acts, i, j, c, n);
    LeavingIsNoOrphan(states[j], c, n);
  }

  /** The same from the ordinary drop of a reservation that is not retained, one whose child has been
      reaped included. */
  lemma UnretainedDropLeavesNothing(states: seq<State>, acts: seq<Action>, i: nat, j: nat, c: Client)
    requires Run(states) && i < j < |states| && Schedule(states, acts, i, j) && Unharmed(acts, c, i, j)
    requires acts[i] == DropReservation(c) && c in states[i].clients
    requires states[i].clients[c].pc.Running? && !states[i].clients[c].pc.retain
    ensures var n := states[i].clients[c].pc.s;
      && c in states[j].clients && !Orphan(states[j], n)
      && (states[j].clients[c].pc.Closed? ==> n !in states[j].tickets && !Owned(states[j], n))
  {
    var n := states[i].clients[c].pc.s;
    assert Taken(states, acts, i);
    assert HoldStep(states[i], acts[i]) == Some(Goto(states[i], c, Cleaning(n)));
    assert Schedule(states, acts, i + 1, j) && Unharmed(acts, c, i + 1, j);
    CleanupLeavesNothing(states, acts, i + 1, j, c, n);
  }

  /** A waiter that gives up after its ticket is registered, a holder that could not be told so, and
      the holder of an unretained reservation all begin the cleanup, with nothing else changed; a
      nested or retained reservation just ends. */
  lemma CleanupBegins(s: State, c: Client)
    requires c in s.clients
    ensures var pc := s.clients[c].pc;
      && (Listed(pc) || pc.WritingRunning? || pc.Admitting? ==> Step(s, Fail(c)) == Some(Goto(s, c, Cleaning(pc.s))))
      && (pc.Running? && !pc.retain ==> Step(s, DropReservation(c)) == Some(Goto(s, c, Cleaning(pc.s))))
      && (pc.Running? && pc.child.Some? && pc.child.value in s.procs && !s.procs[pc.child.value].alive ==>
            Step(s, Reaped(c)) == Some(Goto(s, c, Running(pc.s, false, None))))
      && (pc.Nested? || (pc.Running? && pc.retain) ==> Step(s, DropReservation(c)) == Some(Goto(s, c, Closed)))
  {
    assert Registered(s.clients[c].pc) ==> LossStep(s, Fail(c)) == Some(Goto(s, c, Cleaning(s.clients[c].pc.s)));
  }

  /** An error before that, or inside the cleanup, ends the client at once and leaves the files. */
  lemma ErrorsLeaveFiles(s: State, c: Client)
    requires c in s.clients
    ensures var pc := s.clients[c].pc;
      (|| pc.LeaseReading? || pc.LeaseProbing? || pc.LeaseWalking? || pc.Peeking? || pc.TakingControl?
       || pc.ReadingCounter? || pc.TruncatingCounter? || pc.WritingCounter? || pc.LockingGuard?
       || pc.TruncatingTicket? || pc.WritingTicket? || pc.Cleaning? || pc.Removing?) ==>
        Step(s, Fail(c)) == Some(Goto(s, c, Closed))
    ensures !s.clients[c].pc.Closed? ==> Step(s, Crash(c)) == Some(Goto(s, c, Closed))
  {
    assert Step(s, Fail(c)) == LossStep(s, Fail(c)) && Step(s, Crash(c)) == LossStep(s, Crash(c));
  }

  /** `c` closed, its ticket removed, and everything else as it was. */
  ghost predicate CleanedUp(s: State, t: State, c: Client)
    requires c in s.clients && s.clients[c].pc.Cleaning?
  {
    t == s.(tickets := s.tickets - {s.clients[c].pc.s}, clients := s.clients[c := Member(s.clients[c].pid, Closed)])
  }

  lemma CleanupMove(s: State, c: Client)
    requires c in s.clients
    ensures var pc := s.clients[c].pc;
      && (pc.Cleaning? && ControlFree(s) ==> Step(s, TakeControl(c)) == Some(Goto(s, c, Removing(pc.s))))
      && (pc.Removing? ==> Step(s, RemoveTicket(c)) == Some(Goto(s, c, Unguarding(pc.s)).(tickets := s.tickets - {pc.s})))
      && (pc.Unguarding? ==> Step(s, ReleaseGuard(c)) == Some(Goto(s, c, Finishing(pc.s))))
      && (pc.Finishing? ==> Step(s, Finish(c)) == Some(Goto(s, c, Closed)))
  {
    assert Step(s, TakeControl(c)) == DrawStep(s, TakeControl(c));
    assert Step(s, RemoveTicket(c)) == CleanStep(s, RemoveTicket(c));
    assert Step(s, ReleaseGuard(c)) == CleanStep(s, ReleaseGuard(c)) && Step(s, Finish(c)) == CleanStep(s, Finish(c));
  }

  /** As soon as the control mutex is free the cleanup can run through. */
  lemma CleanupRuns(s: State, c: Client) returns (t: State, u: State, v: State, w: State)
    requires c in s.clients && s.clients[c].pc.Cleaning? && ControlFree(s)
    ensures Step(s, TakeControl(c)) == Some(t) && Step(t, RemoveTicket(c)) == Some(u)
    ensures Step(u, ReleaseGuard(c)) == Some(v) && Step(v, Finish(c)) == Some(w) && CleanedUp(s, w, c)
  {
    CleanupMove(s, c);
    t := Step(s, TakeControl(c)).value;
    CleanupMove(t, c);
    u := Step(t, RemoveTicket(c)).value;
    CleanupMove(u, c);
    v := Step(u, ReleaseGuard(c)).value;
    CleanupMove(v, c);
    w := Step(v, Finish(c)).value;
    assert w.clients == s.clients[c := Member(s.clients[c].pid, Closed)];
  }
}
