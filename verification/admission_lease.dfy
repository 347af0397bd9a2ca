/** Inherited admission: what a child that finds a lease in its environment may conclude
    (lines 93-136). */
module AdmissionLease {
  import opened Admission
  import opened AdmissionInvariant
  import opened AdmissionLineage
  import opened AdmissionTheorems
  import opened Wrappers

  // ----- the walk to the owner -----

  /** `path` leads from a process to its parent, to its parent's parent, and so on, all alive. */
  ghost predicate LiveChain(procs: map<Pid, Process>, path: seq<Pid>) {
    && (forall i :: 0 <= i < |path| ==> path[i] in procs && procs[path[i]].alive)
    && (forall i :: 0 < i < |path| ==> procs[path[i - 1]].parent == Some(path[i]))
  }

  ghost predicate ChainTo(procs: map<Pid, Process>, path: seq<Pid>, start: Pid, owner: Pid) {
    0 < |path| <= 256 && path[0] == start && path[|path| - 1] == owner && LiveChain(procs, path)
  }

  lemma {:induction false} WalkGivesChain(procs: map<Pid, Process>, cursor: Pid, owner: Pid, hops: nat) returns (path: seq<Pid>)
    requires ReachesOwner(procs, cursor, owner, hops)
    ensures 0 < |path| <= hops && path[0] == cursor && path[|path| - 1] == owner && LiveChain(procs, path)
    decreases hops
  {
    if cursor == owner {
      path := [cursor];
    } else {
      var rest := WalkGivesChain(procs, procs[cursor].parent.value, owner, hops - 1);
      path := [cursor] + rest;
    }
  }

  lemma {:induction false} ChainGivesWalk(procs: map<Pid, Process>, path: seq<Pid>, hops: nat)
    requires 0 < |path| <= hops && LiveChain(procs, path)
    ensures ReachesOwner(procs, path[0], path[|path| - 1], hops)
    decreases hops
  {
    if |path| > 1 {
      var rest := path[1..];
      assert forall i :: 0 <= i < |rest| ==> rest[i] == path[i + 1];
      ChainGivesWalk(procs, rest, hops - 1);
      assert procs[path[0]].parent == Some(path[1]);
    }
  }

  /** The loop of lines 112-126: it finds the owner exactly when a chain of at most
      `MAX_HOPS` live processes leads there. */
  method FindsLiveOwner(procs: map<Pid, Process>, start: Pid, owner: Pid) returns (ancestor: bool)
    ensures ancestor <==> exists path :: ChainTo(procs, path, start, owner)
  {
    ancestor := false;
    var cursor := start;
    var hops := 0;
    while hops < MAX_HOPS
      invariant hops <= MAX_HOPS && !ancestor
      invariant ReachesOwner(procs, start, owner, MAX_HOPS) == ReachesOwner(procs, cursor, owner, MAX_HOPS - hops)
    {
      if cursor !in procs || !procs[cursor].alive { break; }
      if cursor == owner {
        ancestor := true;
        break;
      }
      if procs[cursor].parent.None? { break; }
      cursor := procs[cursor].parent.value;
      hops := hops + 1;
    }
    assert ancestor == ReachesOwner(procs, start, owner, MAX_HOPS);
    if ReachesOwner(procs, start, owner, MAX_HOPS) {
      var path := WalkGivesChain(procs, start, owner, MAX_HOPS);
      assert ChainTo(procs, path, start, owner);
    }
    if path :| ChainTo(procs, path, start, owner) {
      ChainGivesWalk(procs, path, MAX_HOPS);
    }
  }

  // ----- what a successful probe means -----

  predicate ProbesGuard(pc: Pc, k: Seq) { Probes(pc, k) || (pc.Peeking? && pc.k == k) }

  /** `p` is nested: the running ticket `n` belongs to a live ancestor that still runs under
      it and holds its guard. */
  ghost predicate NestedUnder(s: State, p: Pid, n: Seq) {
    exists d :: d in s.clients && Runs(s.clients[d].pc) && s.clients[d].pc.s == n && OwnsRunning(s, d, p)
  }

  ghost predicate OwnsRunning(s: State, d: Client, p: Pid)
    requires d in s.clients && Runs(s.clients[d].pc)
  {
    && RunningOnDisk(s, s.clients[d].pc.s) && s.tickets[s.clients[d].pc.s].owner == s.clients[d].pid
    && HoldsGuard(s.clients[d].pc, s.clients[d].pc.s)
    && ReachesOwner(s.procs, p, s.clients[d].pid, MAX_HOPS)
  }

  lemma HolderIsSupervisor(s: State, d: Client, p: Pid, n: Seq)
    requires d in s.clients && ClientInv(s, d) && AliveUnder(s, p, n) && ChildPinsTicket(s, p)
    requires HoldsGuard(s.clients[d].pc, n) && !ProbesGuard(s.clients[d].pc, n)
    ensures Runs(s.clients[d].pc) && s.clients[d].pc.s == n && OwnsRunning(s, d, p)
  {
    var owner := s.clients[d].pid;
    assert s.procs[p].parent == Some(owner);
    assert ReachesOwner(s.procs, owner, owner, MAX_HOPS - 1);
  }

  /** A supervised child whose probe of the guard finds it locked is nested in its
      supervisor's reservation exactly when no scan and no other check is probing that
      guard at the same moment. */
  lemma LockedGuardMeansNested(states: seq<State>, i: nat, p: Pid, n: Seq)
    requires Run(states) && i < |states| && AliveUnder(states[i], p, n) && !GuardFree(states[i], n)
    ensures NestedUnder(states[i], p, n) <==>
      !exists d :: d in states[i].clients && ProbesGuard(states[i].clients[d].pc, n)
  {
    var s := states[i];
    var h :| h in s.clients && HoldsGuard(s.clients[h].pc, n);
    ReachableClient(states, i, h);
    ReachablePin(states, i, p);
    if !ProbesGuard(s.clients[h].pc, n) {
      HolderIsSupervisor(s, h, p, n);
    }
    forall d | d in s.clients && HoldsGuard(s.clients[d].pc, n) ensures d == h {
      OneHolder(states, i, d, h, n);
    }
    assert forall d :: d in s.clients && ProbesGuard(s.clients[d].pc, n) ==> HoldsGuard(s.clients[d].pc, n);
  }

  lemma OneHolder(states: seq<State>, i: nat, c: Client, d: Client, k: Seq)
    requires Run(states) && i < |states| && c in states[i].clients && d in states[i].clients
    requires HoldsGuard(states[i].clients[c].pc, k) && HoldsGuard(states[i].clients[d].pc, k)
    ensures c == d
  {
    ReachableInv(states, i);
  }

  /** On the lease path only the check's own steps, the drop and a loss are possible. */
  lemma LeasePathMoves(s: State, a: Action)
    requires !ProcessAction(a) && a.c in s.clients && OnLeasePath(s.clients[a.c].pc)
    ensures Step(s, a) == None || LeaseAction(a) || Step(s, a) == Some(Goto(s, a.c, Closed))
  {
    if DrawAction(a) { assert DrawStep(s, a) == None; }
    else if FileAction(a) { assert FileStep(s, a) == None; }
    else if ScanAction(a) { assert ScanStep(s, a) == None; }
    else if MarkAction(a) { assert MarkStep(s, a) == None; }
    else if CleanAction(a) { assert CleanStep(s, a) == None; }
  }

  /** A lease check and a nested reservation change no file, no number and nobody else's
      lock, whether they pass, fail, drop or crash; the check's own probe of a free guard is
      the only lock that can appear. */
  lemma NestedTouchesNothing(s: State, a: Action, t: State)
    requires !ProcessAction(a) && a.c in s.clients && OnLeasePath(s.clients[a.c].pc) && Step(s, a) == Some(t)
    ensures t.tickets == s.tickets && t.counter == s.counter && t.admitted == s.admitted && t.procs == s.procs
    ensures a.c in t.clients && t.clients == s.clients[a.c := t.clients[a.c]]
    ensures !HoldsControl(t.clients[a.c].pc)
    ensures forall k :: HoldsGuard(t.clients[a.c].pc, k) ==> t.clients[a.c].pc == Peeking(k) && GuardFree(s, k)
  {
    LeasePathMoves(s, a);
    assert LeaseAction(a) ==> LeaseStep(s, a) == Some(t);
  }

  // ----- when an inherited admission is nested -----

  /** Some client still owns number `n`. */
  ghost predicate Owned(s: State, n: Seq) {
    exists d :: d in s.clients && Drawn(s.clients[d].pc) && s.clients[d].pc.s == n
  }

  /** Live processes lead from `p` up to a live child supervised under `n`. */
  predicate UnderSupervisor(procs: map<Pid, Process>, p: Pid, n: Seq, hops: nat)
    decreases hops
  {
    && hops > 0 && p in procs && procs[p].alive
    && (|| procs[p].supervisor == Some(n)
        || (procs[p].parent.Some? && UnderSupervisor(procs, procs[p].parent.value, n, hops - 1)))
  }

  /** Every way from a process with lease `n` up to one outside leads through the supervised child. */
  lemma {:induction false} WayOutLeadsThroughChild(s: State, p: Pid, owner: Pid, n: Seq, hops: nat)
    requires (forall q :: q in s.procs ==> LeaseFits(s, q)) && p in s.procs && s.procs[p].lease == Some(n)
    requires Outside(s, owner, n) && ReachesOwner(s.procs, p, owner, hops)
    ensures hops > 0 && UnderSupervisor(s.procs, p, n, hops - 1)
    decreases hops
  {
    assert LeaseFits(s, p) && p != owner;
    if s.procs[p].supervisor != Some(n) {
      WayOutLeadsThroughChild(s, s.procs[p].parent.value, owner, n, hops - 1);
    }
  }

  lemma {:induction false} SupervisedAncestor(procs: map<Pid, Process>, p: Pid, n: Seq, hops: nat) returns (q: Pid)
    requires UnderSupervisor(procs, p, n, hops)
    ensures q in procs && procs[q].alive && procs[q].supervisor == Some(n)
    decreases hops
  {
    if procs[p].supervisor == Some(n) { q := p; } else { q := SupervisedAncestor(procs, procs[p].parent.value, n, hops - 1); }
  }

  lemma {:induction false} ChildLeadsToOwner(procs: map<Pid, Process>, p: Pid, owner: Pid, n: Seq, hops: nat)
    requires UnderSupervisor(procs, p, n, hops) && owner in procs && procs[owner].alive
    requires forall q :: q in procs && procs[q].alive && procs[q].supervisor == Some(n) ==> procs[q].parent == Some(owner)
    ensures ReachesOwner(procs, p, owner, hops + 1)
    decreases hops
  {
    if procs[p].supervisor == Some(n) {
      assert ReachesOwner(procs, owner, owner, hops);
    } else {
      ChildLeadsToOwner(procs, procs[p].parent.value, owner, n, hops - 1);
    }
  }

  lemma OwnedIsNested(s: State, c: Client, n: Seq)
    requires Inv(s) && c in s.clients && Owned(s, n) && UnderSupervisor(s.procs, s.clients[c].pid, n, MAX_HOPS - 1)
    ensures NestedUnder(s, s.clients[c].pid, n)
  {
    var d :| d in s.clients && Drawn(s.clients[d].pc) && s.clients[d].pc.s == n;
    var p := SupervisedAncestor(s.procs, s.clients[c].pid, n, MAX_HOPS - 1);
    var owner := s.clients[d].pid;
    assert ClientInv(s, d) && ChildPinsTicket(s, p);
    forall q | q in s.procs && s.procs[q].alive && s.procs[q].supervisor == Some(n) ensures s.procs[q].parent == Some(owner) {
      assert ChildPinsTicket(s, q);
    }
    ChildLeadsToOwner(s.procs, s.clients[c].pid, owner, n, MAX_HOPS - 1);
    assert OwnsRunning(s, d, s.clients[c].pid);
  }

  /** In every reachable state, for every client that was admitted by inheritance, direct child
      or descendant: it is nested in a live owner's running reservation exactly if some client
      still owns the number and all processes up to the supervised child are alive. */
  lemma NestedExactlyWhen(states: seq<State>, i: nat, c: Client, n: Seq)
    requires Run(states) && i < |states| && c in states[i].clients && states[i].clients[c].pc == Nested(n)
    ensures NestedUnder(states[i], states[i].clients[c].pid, n) <==>
      Owned(states[i], n) && UnderSupervisor(states[i].procs, states[i].clients[c].pid, n, MAX_HOPS - 1)
  {
    var s, p := states[i], states[i].clients[c].pid;
    ReachableInv(states, i);
    ReachableLineage(states, i);
    assert ClientLineage(s, c);
    if NestedUnder(s, p, n) {
      var d :| d in s.clients && Runs(s.clients[d].pc) && s.clients[d].pc.s == n && OwnsRunning(s, d, p);
      assert ClientLineage(s, d);
      WayOutLeadsThroughChild(s, p, s.clients[d].pid, n, MAX_HOPS);
    } else if Owned(s, n) && UnderSupervisor(s.procs, p, n, MAX_HOPS - 1) {
      OwnedIsNested(s, c, n);
    }
  }

  /** At the moment the ancestor walk admits a client, ownership alone decides. */
  lemma AdmittedNestedExactlyWhenOwned(states: seq<State>, i: nat, c: Client, n: Seq)
    requires Run(states) && 0 < i < |states| && Step(states[i - 1], WalkAncestors(c)) == Some(states[i])
    requires c in states[i].clients && states[i].clients[c].pc == Nested(n)
    ensures NestedUnder(states[i], states[i].clients[c].pid, n) <==> Owned(states[i], n)
  {
    var s, p := states[i - 1], states[i].clients[c].pid;
    assert c in s.clients && LeaseStep(s, WalkAncestors(c)) == Some(states[i]);
    ReachableLineage(states, i - 1);
    assert ClientLineage(s, c);
    WayOutLeadsThroughChild(s, p, s.clients[c].pc.record.owner, n, MAX_HOPS);
    NestedExactlyWhen(states, i, c, n);
  }

  /** For the supervised child itself ownership decides as long as it holds its admission. */
  lemma ChildNestedExactlyWhenOwned(states: seq<State>, i: nat, c: Client, n: Seq)
    requires Run(states) && i < |states| && c in states[i].clients && states[i].clients[c].pc == Nested(n)
    requires states[i].clients[c].pid in states[i].procs && states[i].procs[states[i].clients[c].pid].supervisor == Some(n)
    ensures NestedUnder(states[i], states[i].clients[c].pid, n) <==> Owned(states[i], n)
  {
    ReachableClient(states, i, c);
    NestedExactlyWhen(states, i, c, n);
  }

  lemma {:induction false} SupervisionOnlyEnds(s: State, t: State, p: Pid, n: Seq, hops: nat)
    requires forall q :: q in s.procs ==> LeaseFits(s, q)
    requires forall q :: q in s.procs ==>
      && q in t.procs && t.procs[q].parent == s.procs[q].parent && t.procs[q].supervisor == s.procs[q].supervisor
      && (t.procs[q].alive ==> s.procs[q].alive)
    requires p in s.procs && s.procs[p].lease == Some(n) && UnderSupervisor(t.procs, p, n, hops)
    ensures UnderSupervisor(s.procs, p, n, hops)
    decreases hops
  {
    assert LeaseFits(s, p);
    if t.procs[p].supervisor != Some(n) { SupervisionOnlyEnds(s, t, t.procs[p].parent.value, n, hops - 1); }
  }

  lemma OwnershipOnlyEnds(s: State, c: Client, t: State, n: Seq)
    requires Good(s, c, t) && ClientInv(s, c) && n <= Last(s.issued) && Owned(t, n)
    ensures Owned(s, n)
  {
    var d :| d in t.clients && Drawn(t.clients[d].pc) && t.clients[d].pc.s == n;
    assert d != c ==> t.clients[d] == s.clients[d];
    assert Drawn(s.clients[d].pc) && s.clients[d].pc.s == n;
  }

  lemma OwnedBefore(states: seq<State>, i: nat, n: Seq)
    requires Run(states) && 0 < i < |states| && n <= Last(states[i - 1].issued) && Owned(states[i], n)
    ensures Owned(states[i - 1], n)
  {
    var s, t := states[i - 1], states[i];
    var a := RunStep(states, i);
    if !ProcessAction(a) {
      ReachableClient(states, i - 1, a.c);
      OwnershipOnlyEnds(s, a.c, t, n);
    } else {
      var d :| d in t.clients && Drawn(t.clients[d].pc) && t.clients[d].pc.s == n;
      assert d in s.clients && s.clients[d] == t.clients[d];
    }
  }

  lemma RecordsStayOverStep(states: seq<State>, i: nat)
    requires Run(states) && 0 < i < |states|
    ensures RecordsStay(states[i - 1], states[i])
    ensures forall q :: q in states[i - 1].procs && states[i].procs[q].alive ==> states[i - 1].procs[q].alive
  {
    var a := RunStep(states, i);
  }

  lemma StepOnlyEnds(states: seq<State>, i: nat, p: Pid, n: Seq)
    requires Run(states) && 0 < i < |states| && p in states[i - 1].procs && states[i - 1].procs[p].lease == Some(n)
    requires Owned(states[i], n) && UnderSupervisor(states[i].procs, p, n, MAX_HOPS - 1)
    ensures Owned(states[i - 1], n) && UnderSupervisor(states[i - 1].procs, p, n, MAX_HOPS - 1)
  {
    ReachableLineage(states, i - 1);
    assert LeaseFits(states[i - 1], p);
    RecordsStayOverStep(states, i);
    SupervisionOnlyEnds(states[i - 1], states[i], p, n, MAX_HOPS - 1);
    OwnedBefore(states, i, n);
  }

  lemma {:induction false} OnlyEnds(states: seq<State>, i: nat, j: nat, p: Pid, n: Seq)
    requires Run(states) && i <= j < |states| && p in states[i].procs && states[i].procs[p].lease == Some(n)
    requires Owned(states[j], n) && UnderSupervisor(states[j].procs, p, n, MAX_HOPS - 1)
    ensures Owned(states[i], n) && UnderSupervisor(states[i].procs, p, n, MAX_HOPS - 1)
    decreases j - i
  {
    if i < j {
      var a := RunStep(states, i + 1);
      OnlyEnds(states, i + 1, j, p, n);
      StepOnlyEnds(states, i + 1, p, n);
    }
  }

  /** Nesting that has ended does not come back while the admission is held. */
  lemma NestingEndsForGood(states: seq<State>, i: nat, j: nat, c: Client, n: Seq)
    requires Run(states) && i <= j < |states|
    requires c in states[i].clients && states[i].clients[c].pc == Nested(n)
    requires c in states[j].clients && states[j].clients[c] == states[i].clients[c]
    ensures NestedUnder(states[j], states[j].clients[c].pid, n) ==> NestedUnder(states[i], states[i].clients[c].pid, n)
  {
    NestedExactlyWhen(states, i, c, n);
    NestedExactlyWhen(states, j, c, n);
    ReachableLineage(states, i);
    assert ClientLineage(states[i], c);
    if NestedUnder(states[j], states[j].clients[c].pid, n) {
      OnlyEnds(states, i, j, states[i].clients[c].pid, n);
    }
  }
}
