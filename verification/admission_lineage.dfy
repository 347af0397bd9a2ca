/** Where a lease comes from: every process that has one descends from the child that was started
    under it, and whoever owns its number does not. */
module AdmissionLineage {
  import opened Admission
  import opened AdmissionInvariant
  import opened Wrappers

  predicate OnLeasePath(pc: Pc) { pc.LeaseReading? || pc.LeaseProbing? || pc.LeaseWalking? || pc.Nested? }

  /** The lease of `p` is the number `p` was supervised under, or the lease of its parent. */
  ghost predicate LeaseFits(s: State, p: Pid)
    requires p in s.procs
  {
    var q := s.procs[p];
    q.lease.Some? ==>
      && q.lease.value <= Last(s.issued)
      && (q.supervisor == q.lease
          || (q.parent.Some? && q.parent.value in s.procs && s.procs[q.parent.value].lease == q.lease))
  }

  /** `p` is a known process that was not started under number `n`. */
  predicate Outside(s: State, p: Pid, n: Seq) { p in s.procs && s.procs[p].lease != Some(n) }

  /** Owners are outside their own number, lease checks are about the process's own lease, and
      the owner a check has read is outside it. */
  ghost predicate ClientLineage(s: State, c: Client)
    requires c in s.clients
  {
    var Member(pid, pc) := s.clients[c];
    && (Drawn(pc) ==> Outside(s, pid, pc.s))
    && (OnLeasePath(pc) ==> pid in s.procs && s.procs[pid].lease == Some(pc.lease))
    && ((pc.LeaseProbing? || pc.LeaseWalking?) && pc.record.Ticket? ==> Outside(s, pc.record.owner, pc.lease))
  }

  ghost predicate TicketLineage(s: State, k: Seq)
    requires k in s.tickets
  {
    s.tickets[k].Ticket? ==> Outside(s, s.tickets[k].owner, k)
  }

  ghost predicate Lineage(s: State) {
    && (forall p :: p in s.procs ==> LeaseFits(s, p))
    && (forall c :: c in s.clients ==> ClientLineage(s, c))
    && (forall k :: k in s.tickets ==> TicketLineage(s, k))
  }

  // ----- every step keeps it -----

  /** Whatever is on disk afterwards was there before or carries the owner's name. */
  ghost predicate Authored(s: State, c: Client, t: State)
    requires c in s.clients
  {
    forall k :: k in t.tickets && t.tickets[k].Ticket? ==>
      || (k in s.tickets && t.tickets[k] == s.tickets[k])
      || (Drawn(s.clients[c].pc) && s.clients[c].pc.s == k && t.tickets[k].owner == s.clients[c].pid)
  }

  lemma FileAuthors(s: State, a: Action, t: State)
    requires FileAction(a) && a.c in s.clients && FileStep(s, a) == Some(t)
    ensures Authored(s, a.c, t)
  {
  }

  lemma ScanAuthors(s: State, a: Action, t: State)
    requires ScanAction(a) && a.c in s.clients && ScanStep(s, a) == Some(t)
    ensures Authored(s, a.c, t)
  {
  }

  lemma MarkAuthors(s: State, a: Action, t: State)
    requires MarkAction(a) && a.c in s.clients && MarkStep(s, a) == Some(t)
    ensures Authored(s, a.c, t)
  {
  }

  lemma CleanAuthors(s: State, a: Action, t: State)
    requires CleanAction(a) && a.c in s.clients && CleanStep(s, a) == Some(t)
    ensures Authored(s, a.c, t)
  {
  }

  lemma StepAuthors(s: State, a: Action, t: State)
    requires !ProcessAction(a) && a.c in s.clients && Step(s, a) == Some(t)
    ensures Authored(s, a.c, t)
  {
    if LeaseAction(a) { assert LeaseStep(s, a) == Some(t); assert t.tickets == s.tickets; }
    else if DrawAction(a) { assert DrawStep(s, a) == Some(t); assert t.tickets == s.tickets; }
    else if FileAction(a) { FileAuthors(s, a, t); }
    else if ScanAction(a) { ScanAuthors(s, a, t); }
    else if MarkAction(a) { MarkAuthors(s, a, t); }
    else if HoldAction(a) { assert HoldStep(s, a) == Some(t); assert t.tickets == s.tickets; }
    else if CleanAction(a) { CleanAuthors(s, a, t); }
    else { assert LossStep(s, a) == Some(t); assert t.tickets == s.tickets; }
  }

  /** How a client gets onto the lease path and along it. */
  ghost predicate PathKept(s: State, c: Client, t: State)
    requires c in s.clients && c in t.clients
  {
    var pc, pc' := s.clients[c].pc, t.clients[c].pc;
    && (OnLeasePath(pc') ==> OnLeasePath(pc) && pc'.lease == pc.lease)
    && ((pc'.LeaseProbing? || pc'.LeaseWalking?) && pc'.record.Ticket? ==>
          || ((pc.LeaseProbing? || pc.LeaseWalking?) && pc.record == pc'.record)
          || (pc'.lease in s.tickets && s.tickets[pc'.lease] == pc'.record))
  }

  lemma PathLease(s: State, a: Action, t: State)
    requires LeaseAction(a) && a.c in s.clients && LeaseStep(s, a) == Some(t)
    ensures PathKept(s, a.c, t)
  {
  }

  lemma PathOthers(s: State, a: Action, t: State)
    requires !ProcessAction(a) && !LeaseAction(a) && a.c in s.clients && Step(s, a) == Some(t)
    ensures a.c in t.clients && PathKept(s, a.c, t)
  {
    if DrawAction(a) { assert DrawStep(s, a) == Some(t); }
    else if FileAction(a) { assert FileStep(s, a) == Some(t); }
    else if ScanAction(a) { assert ScanStep(s, a) == Some(t); }
    else if MarkAction(a) { assert MarkStep(s, a) == Some(t); }
    else if HoldAction(a) { assert HoldStep(s, a) == Some(t); }
    else if CleanAction(a) { assert CleanStep(s, a) == Some(t); }
    else { assert LossStep(s, a) == Some(t); }
  }

  /** Process records only ever change by dying. */
  ghost predicate RecordsStay(s: State, t: State) {
    forall p :: p in s.procs ==>
      && p in t.procs
      && t.procs[p].lease == s.procs[p].lease && t.procs[p].parent == s.procs[p].parent
      && t.procs[p].supervisor == s.procs[p].supervisor
  }

  lemma LeasesKeep(s: State, c: Client, t: State)
    requires Lineage(s) && c in s.clients && ClientInv(s, c) && Effect(s, c, t)
    ensures RecordsStay(s, t) && forall p :: p in t.procs ==> LeaseFits(t, p)
  {
    assert Last(s.issued) <= Last(t.issued) by {
      if s.clients[c].pc.WritingCounter? { assert NumberFits(s, c); }
    }
    forall p | p in t.procs ensures LeaseFits(t, p) {
      assert p in s.procs ==> LeaseFits(s, p);
    }
  }

  lemma OwnLineageKeeps(s: State, c: Client, t: State)
    requires Lineage(s) && c in s.clients && Good(s, c, t) && PathKept(s, c, t) && RecordsStay(s, t)
    requires s.clients[c].pid in s.procs || s.clients[c].pc.Closed?
    ensures ClientLineage(t, c)
  {
    assert ClientLineage(s, c);
    var Member(pid, pc') := t.clients[c];
    if Drawn(pc') && !Drawn(s.clients[c].pc) {
      assert LeaseFits(s, pid);
    }
    if OnLeasePath(pc') && pc'.lease in s.tickets { assert TicketLineage(s, pc'.lease); }
  }

  /** The clients and tickets that a step leaves alone stay in line. */
  lemma OthersKeepLineage(s: State, c: Client, t: State)
    requires Lineage(s) && c in s.clients && Effect(s, c, t) && RecordsStay(s, t) && Authored(s, c, t)
    ensures forall d :: d in t.clients && d != c ==> ClientLineage(t, d)
    ensures forall k :: k in t.tickets ==> TicketLineage(t, k)
  {
    forall d | d in t.clients && d != c ensures ClientLineage(t, d) {
      assert t.clients[d] == s.clients[d] && ClientLineage(s, d);
    }
    forall k | k in t.tickets ensures TicketLineage(t, k) {
      assert k in s.tickets ==> TicketLineage(s, k);
      assert ClientLineage(s, c);
    }
  }

  lemma ClientStepKeepsLineage(s: State, a: Action, t: State)
    requires Lineage(s) && !ProcessAction(a) && Step(s, a) == Some(t)
    requires a.c in s.clients && ClientInv(s, a.c) && Numbers(s) && Order(s)
    ensures Lineage(t)
  {
    ClientStepGood(s, a, t);
    LeasesKeep(s, a.c, t);
    if LeaseAction(a) { PathLease(s, a, t); } else { PathOthers(s, a, t); }
    OwnLineageKeeps(s, a.c, t);
    StepAuthors(s, a, t);
    OthersKeepLineage(s, a.c, t);
  }

  lemma ProcessStepLeases(s: State, a: Action, t: State)
    requires (forall p :: p in s.procs ==> LeaseFits(s, p)) && ProcessAction(a) && Step(s, a) == Some(t)
    ensures RecordsStay(s, t) && t.issued == s.issued && t.tickets == s.tickets
    ensures forall p :: p in t.procs ==> LeaseFits(t, p)
  {
    forall p | p in t.procs ensures LeaseFits(t, p) {
      if p in s.procs { assert LeaseFits(s, p); } else if a.Fork? { assert LeaseFits(s, a.parent); }
    }
  }

  lemma ProcessStepClients(s: State, a: Action, t: State, c: Client)
    requires ProcessAction(a) && Step(s, a) == Some(t) && c in t.clients
    ensures if c in s.clients then t.clients[c] == s.clients[c]
            else !Drawn(t.clients[c].pc) && (OnLeasePath(t.clients[c].pc) ==>
              && t.clients[c].pc.LeaseReading? && t.clients[c].pid in t.procs
              && t.procs[t.clients[c].pid].lease == Some(t.clients[c].pc.lease))
  {
  }

  lemma ProcessStepKeepsLineage(s: State, a: Action, t: State)
    requires Lineage(s) && ProcessAction(a) && Step(s, a) == Some(t)
    ensures Lineage(t)
  {
    ProcessStepLeases(s, a, t);
    forall c | c in t.clients ensures ClientLineage(t, c) {
      ProcessStepClients(s, a, t, c);
      if c in s.clients { assert ClientLineage(s, c); }
    }
    forall k | k in t.tickets ensures TicketLineage(t, k) { assert TicketLineage(s, k); }
  }

  lemma {:induction false} ReachableLineage(states: seq<State>, i: nat)
    requires Run(states) && i < |states|
    ensures Lineage(states[i])
  {
    if i > 0 {
      ReachableLineage(states, i - 1);
      LineageOverStep(states, i);
    }
  }

  lemma LineageOverStep(states: seq<State>, i: nat)
    requires Run(states) && 0 < i < |states| && Lineage(states[i - 1])
    ensures Lineage(states[i])
  {
    var a := RunStep(states, i);
    if ProcessAction(a) {
      ProcessStepKeepsLineage(states[i - 1], a, states[i]);
    } else {
      ReachableClient(states, i - 1, a.c);
      ReachableShared(states, i - 1);
      ClientStepKeepsLineage(states[i - 1], a, states[i]);
    }
  }
}
