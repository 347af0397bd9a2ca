/** An inherited admission is never given without its three checks (src/coordination.rs lines
    94-129), in their order and on what was there at the time. */
module AdmissionChecks {
  import opened Admission
  import opened AdmissionInvariant
  import opened AdmissionLease
  import opened AdmissionLineage
  import opened Wrappers

  /** The ticket is on disk as running and names its owner. */
  ghost predicate ReadsRunning(s: State, n: Seq, owner: Pid) {
    n in s.tickets && s.tickets[n] == Ticket(n, owner, true)
  }

  /** How the client came to where it is on the lease path: it was there before, or it passed the
      check that leads there. */
  ghost predicate CameTo(s: State, c: Client, t: State)
    requires c in t.clients
  {
    var Member(pid, pc) := t.clients[c];
    (pc.LeaseProbing? || pc.LeaseWalking? || pc.Nested?) ==>
      && c in s.clients && s.clients[c].pid == pid
      && (s.clients[c].pc == pc || PassesCheck(s, c, pc))
  }

  ghost predicate PassesCheck(s: State, c: Client, pc: Pc)
    requires c in s.clients
  {
    var me := s.clients[c];
    match pc
    case LeaseProbing(n, record) => me.pc == LeaseReading(n) && record.Ticket? && n in s.tickets && s.tickets[n] == record
    case LeaseWalking(n, record) => me.pc == LeaseProbing(n, record) && record.Ticket? && record.running && !GuardFree(s, n)
    case Nested(n) =>
      && me.pc.LeaseWalking? && me.pc.lease == n && me.pc.record.Ticket?
      && ReachesOwner(s.procs, me.pid, me.pc.record.owner, 256)
    case _ => false
  }

  lemma CheckOrDraw(s: State, a: Action, t: State)
    requires LeaseAction(a) || DrawAction(a) || FileAction(a) || ScanAction(a)
    requires a.c in s.clients && Step(s, a) == Some(t)
    ensures a.c in t.clients && CameTo(s, a.c, t)
  {
    if LeaseAction(a) { assert LeaseStep(s, a) == Some(t); }
    else if DrawAction(a) { assert DrawStep(s, a) == Some(t); }
    else if FileAction(a) { assert FileStep(s, a) == Some(t); }
    else { assert ScanStep(s, a) == Some(t); }
  }

  lemma OwnCheck(s: State, a: Action, t: State)
    requires !ProcessAction(a) && a.c in s.clients && Step(s, a) == Some(t)
    ensures a.c in t.clients && CameTo(s, a.c, t)
  {
    if LeaseAction(a) || DrawAction(a) || FileAction(a) || ScanAction(a) { CheckOrDraw(s, a, t); }
    else if MarkAction(a) { assert MarkStep(s, a) == Some(t); }
    else if HoldAction(a) { assert HoldStep(s, a) == Some(t); }
    else if CleanAction(a) { assert CleanStep(s, a) == Some(t); }
    else { assert LossStep(s, a) == Some(t); }
  }

  lemma CheckOverStep(states: seq<State>, i: nat, c: Client)
    requires Run(states) && 0 < i < |states| && c in states[i].clients
    ensures CameTo(states[i - 1], c, states[i])
  {
    var a := RunStep(states, i);
    if ProcessAction(a) {
      ProcessStepClients(states[i - 1], a, states[i], c);
    } else if a.c == c {
      OwnCheck(states[i - 1], a, states[i]);
    } else {
      assert states[i].clients[c] == states[i - 1].clients[c];
    }
  }

  // ----- over the whole run -----

  ghost predicate At(states: seq<State>, k: nat, c: Client, pid: Pid, pc: Pc) {
    k < |states| && c in states[k].clients && states[k].clients[c] == Member(pid, pc)
  }

  lemma {:induction false} HasRead(states: seq<State>, i: nat, c: Client, pid: Pid, n: Seq, record: Record) returns (a: nat)
    requires Run(states) && At(states, i, c, pid, LeaseProbing(n, record))
    ensures a < i && record.Ticket? && n in states[a].tickets && states[a].tickets[n] == record
  {
    assert i > 0;
    CheckOverStep(states, i, c);
    if At(states, i - 1, c, pid, LeaseProbing(n, record)) {
      a := HasRead(states, i - 1, c, pid, n, record);
    } else {
      a := i - 1;
    }
  }

  lemma {:induction false} HasProbed(states: seq<State>, i: nat, c: Client, pid: Pid, n: Seq, record: Record) returns (b: nat)
    requires Run(states) && At(states, i, c, pid, LeaseWalking(n, record))
    ensures b < i && At(states, b, c, pid, LeaseProbing(n, record))
    ensures record.Ticket? && record.running && !GuardFree(states[b], n)
  {
    assert i > 0;
    CheckOverStep(states, i, c);
    if At(states, i - 1, c, pid, LeaseWalking(n, record)) {
      b := HasProbed(states, i - 1, c, pid, n, record);
    } else {
      b := i - 1;
    }
  }

  lemma {:induction false} HasWalked(states: seq<State>, i: nat, c: Client, pid: Pid, n: Seq) returns (w: nat, record: Record)
    requires Run(states) && At(states, i, c, pid, Nested(n))
    ensures w < i && At(states, w, c, pid, LeaseWalking(n, record))
    ensures record.Ticket? && ReachesOwner(states[w].procs, pid, record.owner, 256)
  {
    assert i > 0;
    CheckOverStep(states, i, c);
    if At(states, i - 1, c, pid, Nested(n)) {
      w, record := HasWalked(states, i - 1, c, pid, n);
    } else {
      w, record := i - 1, states[i - 1].clients[c].pc.record;
    }
  }

  /** In every run, whoever is nested under `n` had first read its ticket as running, then found its
      guard locked, and then followed a chain of live processes to the owner it had read. */
  lemma NestedOnlyAfterChecks(states: seq<State>, i: nat, c: Client, pid: Pid, n: Seq)
    returns (a: nat, b: nat, w: nat, owner: Pid, path: seq<Pid>)
    requires Run(states) && At(states, i, c, pid, Nested(n))
    ensures a < b < w < i && ReadsRunning(states[a], n, owner) && !GuardFree(states[b], n)
    ensures ChainTo(states[w].procs, path, pid, owner)
  {
    var record: Record;
    w, record := HasWalked(states, i, c, pid, n);
    b := HasProbed(states, w, c, pid, n, record);
    a := HasRead(states, b, c, pid, n, record);
    ReachableShared(states, a);
    owner := record.owner;
    path := WalkGivesChain(states[w].procs, pid, owner, 256);
  }
}
