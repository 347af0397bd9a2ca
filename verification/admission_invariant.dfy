/** What every step of the admission protocol keeps. A client's step is first reduced
    to its effect on what the others can see; the others' part then follows once for
    all steps, and only the client's own part is proved step by step. */
module AdmissionInvariant {
  import opened Admission
  import opened Wrappers

  ghost predicate Increasing(xs: seq<nat>) {
    forall i, j :: 0 <= i < j < |xs| ==> xs[i] < xs[j]
  }

  function Last(xs: seq<nat>): nat {
    if xs == [] then 0 else xs[|xs| - 1]
  }

  /** The client owns a number that was written to the counter. */
  predicate Drawn(pc: Pc) { Waits(pc) || Runs(pc) || Cleans(pc) || pc.Finishing? }

  predicate RunningOnDisk(s: State, k: Seq) {
    k in s.tickets && s.tickets[k].Ticket? && s.tickets[k].running
  }

  // ----- one client and the shared state -----

  ghost predicate NumberFits(s: State, c: Client)
    requires c in s.clients
  {
    var pc := s.clients[c].pc;
    && (pc.TruncatingCounter? || pc.WritingCounter? ==> pc.s == Last(s.issued) + 1 && pc.s <= MAX_SEQUENCE)
    && (Drawn(pc) ==> 1 <= pc.s <= Last(s.issued))
    && (pc.LockingGuard? || pc.TruncatingTicket? || pc.WritingTicket? || pc.Registering? ==> pc.s == Last(s.issued))
  }

  /** A waiting client's ticket is on disk as queued, a running client's as running. */
  ghost predicate FileFits(s: State, c: Client)
    requires c in s.clients
  {
    var Member(pid, pc) := s.clients[c];
    && (Listed(pc) ==> (pc.s in s.tickets && s.tickets[pc.s] == Ticket(pc.s, pid, false)))
    && (pc.WritingRunning? ==> (pc.s in s.tickets && s.tickets[pc.s] == Torn))
    && (Runs(pc) ==> (pc.s in s.tickets && s.tickets[pc.s] == Ticket(pc.s, pid, true)))
  }

  /** A scan that is not blocked still has every lower ticket ahead of it, and any scan
      every unreadable one. */
  ghost predicate ScanFits(s: State, c: Client)
    requires c in s.clients
  {
    var pc := s.clients[c].pc;
    && (pc.Scanning? && !pc.blocked ==> forall k :: k in s.tickets && k < pc.s ==> k in pc.todo)
    && (pc.Probing? ==>
      && pc.path == pc.k < pc.s
      && pc.k in s.tickets && s.tickets[pc.k].Ticket? && s.tickets[pc.k].running == pc.seenRunning
      && (!pc.blocked ==> forall k :: k in s.tickets && k < pc.s && k != pc.k ==> k in pc.todo))
    && (pc.Scanning? || pc.Probing? ==> forall k :: k in s.tickets && s.tickets[k].Torn? ==> k in pc.todo)
    && (pc.TruncatingRunning? || pc.WritingRunning? ==>
          forall k :: k in s.tickets ==> pc.s <= k && (s.tickets[k].Torn? ==> k == pc.s))
  }

  /** Whoever still waits waits behind every admission so far. */
  ghost predicate OrderFits(s: State, c: Client)
    requires c in s.clients
  {
    Waits(s.clients[c].pc) ==> Last(s.admitted) < s.clients[c].pc.s
  }

  ghost predicate OwnerLives(s: State, c: Client)
    requires c in s.clients
  {
    var Member(pid, pc) := s.clients[c];
    && (!pc.Closed? ==> pid in s.procs && s.procs[pid].alive)
    && (pc.Running? && pc.child.Some? ==> pc.retain && pc.child.value in s.procs)
  }

  ghost predicate ClientInv(s: State, c: Client)
    requires c in s.clients
  {
    && NumberFits(s, c) && FileFits(s, c) && ScanFits(s, c) && OrderFits(s, c) && OwnerLives(s, c)
  }

  // ----- the shared state alone -----

  /** Numbers are issued in increasing order, never twice, and bound everything on disk. */
  ghost predicate Numbers(s: State) {
    && Increasing(s.issued)
    && (forall i :: 0 <= i < |s.issued| ==> 1 <= s.issued[i] <= MAX_SEQUENCE)
    && (s.counter.Value? ==> s.counter.n == Last(s.issued))
    && (s.counter.Absent? ==> s.issued == [])
    && (forall k :: k in s.tickets ==> 1 <= k <= Last(s.issued))
    && (forall k :: k in s.tickets && s.tickets[k].Ticket? ==> s.tickets[k].sequence == k)
  }

  /** Admissions follow the numbers; only the latest can be on disk as running. */
  ghost predicate Order(s: State) {
    && Increasing(s.admitted)
    && (forall i :: 0 <= i < |s.admitted| ==> 1 <= s.admitted[i] <= Last(s.issued))
    && (forall k :: k in s.tickets && s.tickets[k].Ticket? && s.tickets[k].running ==> k == Last(s.admitted))
  }

  /** The control mutex and every guard are held by at most one client. */
  ghost predicate Exclusive(s: State) {
    && (forall c, d :: (c in s.clients && d in s.clients
          && HoldsControl(s.clients[c].pc) && HoldsControl(s.clients[d].pc)) ==> c == d)
    && (forall c, d, k :: (c in s.clients && d in s.clients
          && HoldsGuard(s.clients[c].pc, k) && HoldsGuard(s.clients[d].pc, k)) ==> c == d)
  }

  /** No two clients own the same number. */
  ghost predicate Distinct(s: State) {
    forall c, d {:trigger Drawn(s.clients[c].pc), Drawn(s.clients[d].pc)} ::
      (c in s.clients && d in s.clients && Drawn(s.clients[c].pc) && Drawn(s.clients[d].pc)
       && s.clients[c].pc.s == s.clients[d].pc.s) ==> c == d
  }

  /** While a supervised child lives, its supervisor's ticket is on disk as running, and
      the supervisor, if it still has its reservation, retains it for that child. */
  ghost predicate ChildPinsTicket(s: State, p: Pid)
    requires p in s.procs
  {
    s.procs[p].alive && s.procs[p].supervisor.Some? ==>
      var n := s.procs[p].supervisor.value;
      && RunningOnDisk(s, n)
      && forall c :: c in s.clients && Drawn(s.clients[c].pc) && s.clients[c].pc.s == n ==>
           s.clients[c].pc == Running(n, true, Some(p)) && s.procs[p].parent == Some(s.clients[c].pid)
  }

  ghost predicate Inv(s: State) {
    && Exclusive(s) && Numbers(s) && Order(s) && Distinct(s)
    && (forall c :: c in s.clients ==> ClientInv(s, c))
    && (forall p :: p in s.procs ==> ChildPinsTicket(s, p))
  }

  // ----- what a step of client `c` can change for the others -----

  /** The files that `c` may touch: its own ticket, and the queued one it found abandoned. */
  predicate Touches(pc: Pc, k: Seq) {
    (Drawn(pc) && !pc.Running? && pc.s == k) || (Probes(pc, k) && !pc.seenRunning)
  }

  predicate Probes(pc: Pc, k: Seq) { pc.Probing? && pc.k == k }

  ghost predicate Effect(s: State, c: Client, t: State)
    requires c in s.clients
  {
    var pc := s.clients[c].pc;
    && c in t.clients && t.clients == s.clients[c := Member(s.clients[c].pid, t.clients[c].pc)]
    && (HoldsControl(t.clients[c].pc) ==> HoldsControl(pc) || ControlFree(s))
    && (forall k :: HoldsGuard(t.clients[c].pc, k) ==> HoldsGuard(pc, k) || GuardFree(s, k))
    && (!HoldsControl(pc) ==> t.tickets == s.tickets && t.issued == s.issued && t.admitted == s.admitted)
    && (forall k :: !Touches(pc, k) ==> (k in t.tickets <==> k in s.tickets))
    && (forall k :: !Touches(pc, k) && k in t.tickets ==> t.tickets[k] == s.tickets[k])
    && (t.issued == s.issued || (pc.WritingCounter? && t.issued == s.issued + [pc.s]))
    && (t.admitted == s.admitted || (pc.WritingRunning? && t.admitted == s.admitted + [pc.s]))
    && (forall p :: p in s.procs ==> p in t.procs && t.procs[p] == s.procs[p])
    && (forall p :: p in t.procs && p !in s.procs ==>
          && pc.Running? && t.clients[c].pc == Running(pc.s, true, Some(p))
          && t.procs[p] == Process(Some(s.clients[c].pid), Some(pc.s), Some(pc.s), true))
  }

  /** Nobody touches the ticket of another client that still owns its number. */
  lemma TouchesOnlyOwn(s: State, c: Client, d: Client, k: Seq)
    requires Inv(s) && c in s.clients && d in s.clients && c != d
    requires Drawn(s.clients[d].pc) && s.clients[d].pc.s == k
    ensures !Touches(s.clients[c].pc, k)
  {
    assert ClientInv(s, c) && ClientInv(s, d);
    assert Probes(s.clients[c].pc, k) ==> HoldsGuard(s.clients[c].pc, k) && HoldsControl(s.clients[c].pc);
  }

  lemma OthersKeep(s: State, c: Client, t: State, d: Client)
    requires Inv(s) && c in s.clients && Effect(s, c, t) && d in t.clients && d != c
    ensures ClientInv(t, d)
  {
    assert ClientInv(s, c) && ClientInv(s, d);
    assert t.clients[d] == s.clients[d];
    if Drawn(s.clients[d].pc) {
      TouchesOnlyOwn(s, c, d, s.clients[d].pc.s);
    }
  }

  /** What the client's number and hold become: a number is kept, drawn fresh or given up;
      a reservation retained for a live child is kept or abandoned, never cleaned up; a new
      file carries the latest number. */
  ghost predicate Becomes(s: State, c: Client, t: State)
    requires c in s.clients && c in t.clients
  {
    var pc, pc' := s.clients[c].pc, t.clients[c].pc;
    && (Drawn(pc') ==> (Drawn(pc) && pc'.s == pc.s) || (pc.WritingCounter? && pc'.s == Last(s.issued) + 1))
    && (pc.Running? && pc.retain && pc.child.Some? && pc.child.value in s.procs && s.procs[pc.child.value].alive ==>
          pc' == pc || pc' == Closed)
    && (forall k :: k in t.tickets && k !in s.tickets ==> k == Last(s.issued))
  }

  ghost predicate Own(s: State, c: Client, t: State)
    requires c in s.clients && c in t.clients
  {
    ClientInv(t, c) && Becomes(s, c, t)
  }

  /** A step that only moves the program counter. */
  lemma GotoEffect(s: State, c: Client, pc: Pc)
    requires c in s.clients
    requires HoldsControl(pc) ==> HoldsControl(s.clients[c].pc) || ControlFree(s)
    requires forall k :: HoldsGuard(pc, k) ==> HoldsGuard(s.clients[c].pc, k) || GuardFree(s, k)
    ensures Effect(s, c, Goto(s, c, pc))
  {
  }

  lemma LeaseEffect(s: State, a: Action, t: State)
    requires LeaseAction(a) && a.c in s.clients && LeaseStep(s, a) == Some(t)
    ensures Effect(s, a.c, t)
  {
    GotoEffect(s, a.c, t.clients[a.c].pc);
  }

  /** No number, no file and no scan. */
  predicate Idle(pc: Pc) {
    pc.LeaseReading? || pc.LeaseProbing? || pc.LeaseWalking? || pc.Nested? || pc.Peeking? || pc.Closed?
  }

  lemma IdleOwn(s: State, c: Client, pc: Pc)
    requires c in s.clients && ClientInv(s, c) && Idle(s.clients[c].pc) && Idle(pc) && (s.clients[c].pc.Closed? ==> pc.Closed?)
    ensures Own(s, c, Goto(s, c, pc))
  {
  }

  lemma LeaseOwn(s: State, a: Action, t: State)
    requires LeaseAction(a) && a.c in s.clients && LeaseStep(s, a) == Some(t)
    requires ClientInv(s, a.c) && Numbers(s) && Order(s)
    ensures a.c in t.clients && Own(s, a.c, t)
  {
    IdleOwn(s, a.c, t.clients[a.c].pc);
  }

  lemma LeaseShared(s: State, a: Action, t: State)
    requires LeaseAction(a) && a.c in s.clients && LeaseStep(s, a) == Some(t)
    requires ClientInv(s, a.c) && Numbers(s) && Order(s)
    ensures Numbers(t) && Order(t)
  {
    assert t.tickets == s.tickets && t.counter == s.counter && t.issued == s.issued && t.admitted == s.admitted;
  }

  lemma DrawEffect(s: State, a: Action, t: State)
    requires DrawAction(a) && a.c in s.clients && DrawStep(s, a) == Some(t)
    ensures Effect(s, a.c, t)
  {
    if a.TakeControl? || a.ReadCounter? { GotoEffect(s, a.c, t.clients[a.c].pc); }
  }

  lemma DrawInv(s: State, a: Action, t: State)
    requires DrawAction(a) && a.c in s.clients && DrawStep(s, a) == Some(t)
    requires ClientInv(s, a.c) && Numbers(s) && Order(s)
    ensures a.c in t.clients && ClientInv(t, a.c)
  {
  }

  lemma DrawBecomes(s: State, a: Action, t: State)
    requires DrawAction(a) && a.c in s.clients && DrawStep(s, a) == Some(t)
    requires ClientInv(s, a.c) && Numbers(s) && Order(s)
    ensures a.c in t.clients && Becomes(s, a.c, t)
  {
  }

  lemma DrawOwn(s: State, a: Action, t: State)
    requires DrawAction(a) && a.c in s.clients && DrawStep(s, a) == Some(t)
    requires ClientInv(s, a.c) && Numbers(s) && Order(s)
    ensures a.c in t.clients && Own(s, a.c, t)
  {
    DrawInv(s, a, t);
    DrawBecomes(s, a, t);
  }

  lemma DrawNumbers(s: State, a: Action, t: State)
    requires DrawAction(a) && a.c in s.clients && DrawStep(s, a) == Some(t)
    requires ClientInv(s, a.c) && Numbers(s)
    ensures Numbers(t) && t.tickets == s.tickets && t.admitted == s.admitted && Last(s.issued) <= Last(t.issued)
  {
  }

  lemma DrawShared(s: State, a: Action, t: State)
    requires DrawAction(a) && a.c in s.clients && DrawStep(s, a) == Some(t)
    requires ClientInv(s, a.c) && Numbers(s) && Order(s)
    ensures Numbers(t) && Order(t)
  {
    DrawNumbers(s, a, t);
  }

  lemma FileEffect(s: State, a: Action, t: State)
    requires FileAction(a) && a.c in s.clients && FileStep(s, a) == Some(t)
    ensures Effect(s, a.c, t)
  {
  }

  lemma FileOwn(s: State, a: Action, t: State)
    requires FileAction(a) && a.c in s.clients && FileStep(s, a) == Some(t)
    requires ClientInv(s, a.c) && Numbers(s) && Order(s)
    ensures a.c in t.clients && Own(s, a.c, t) && Numbers(t) && Order(t)
  {
  }

  lemma ScanEffect(s: State, a: Action, t: State)
    requires ScanAction(a) && a.c in s.clients && ScanStep(s, a) == Some(t) && ScanFits(s, a.c)
    ensures Effect(s, a.c, t)
  {
    if !a.Settle? { GotoEffect(s, a.c, t.clients[a.c].pc); }
  }

  lemma EntryInv(s: State, a: Action, t: State)
    requires a.ScanEntry? && a.c in s.clients && ScanStep(s, a) == Some(t)
    requires ClientInv(s, a.c) && Numbers(s)
    ensures a.c in t.clients && ClientInv(t, a.c)
  {
  }

  lemma ScanInv(s: State, a: Action, t: State)
    requires ScanAction(a) && a.c in s.clients && ScanStep(s, a) == Some(t)
    requires ClientInv(s, a.c) && Numbers(s) && Order(s)
    ensures a.c in t.clients && ClientInv(t, a.c)
  {
    if a.ScanEntry? { EntryInv(s, a, t); }
  }

  lemma ScanBecomes(s: State, a: Action, t: State)
    requires ScanAction(a) && a.c in s.clients && ScanStep(s, a) == Some(t)
    requires ClientInv(s, a.c) && Numbers(s) && Order(s)
    ensures a.c in t.clients && Becomes(s, a.c, t)
  {
  }

  lemma ScanOwn(s: State, a: Action, t: State)
    requires ScanAction(a) && a.c in s.clients && ScanStep(s, a) == Some(t)
    requires ClientInv(s, a.c) && Numbers(s) && Order(s)
    ensures a.c in t.clients && Own(s, a.c, t)
  {
    ScanInv(s, a, t);
    ScanBecomes(s, a, t);
  }

  lemma ScanShared(s: State, a: Action, t: State)
    requires ScanAction(a) && a.c in s.clients && ScanStep(s, a) == Some(t)
    requires ClientInv(s, a.c) && Numbers(s) && Order(s)
    ensures Numbers(t) && Order(t)
  {
    assert t.counter == s.counter && t.issued == s.issued && t.admitted == s.admitted;
    assert forall k :: k in t.tickets ==> k in s.tickets && t.tickets[k] == s.tickets[k];
  }

  lemma MarkEffect(s: State, a: Action, t: State)
    requires MarkAction(a) && a.c in s.clients && MarkStep(s, a) == Some(t)
    ensures Effect(s, a.c, t)
  {
  }

  lemma MarkOwn(s: State, a: Action, t: State)
    requires MarkAction(a) && a.c in s.clients && MarkStep(s, a) == Some(t)
    requires ClientInv(s, a.c) && Numbers(s) && Order(s)
    ensures a.c in t.clients && Own(s, a.c, t)
  {
  }

  lemma MarkShared(s: State, a: Action, t: State)
    requires MarkAction(a) && a.c in s.clients && MarkStep(s, a) == Some(t)
    requires ClientInv(s, a.c) && Numbers(s) && Order(s)
    ensures Numbers(t) && Order(t)
  {
  }

  lemma HoldEffect(s: State, a: Action, t: State)
    requires HoldAction(a) && a.c in s.clients && HoldStep(s, a) == Some(t)
    ensures Effect(s, a.c, t)
  {
  }

  lemma HoldInv(s: State, a: Action, t: State)
    requires HoldAction(a) && a.c in s.clients && HoldStep(s, a) == Some(t)
    requires ClientInv(s, a.c) && Numbers(s) && Order(s)
    ensures a.c in t.clients && ClientInv(t, a.c)
  {
  }

  lemma HoldBecomes(s: State, a: Action, t: State)
    requires HoldAction(a) && a.c in s.clients && HoldStep(s, a) == Some(t)
    requires ClientInv(s, a.c) && Numbers(s) && Order(s)
    ensures a.c in t.clients && Becomes(s, a.c, t) && Numbers(t) && Order(t)
  {
  }

  lemma HoldOwn(s: State, a: Action, t: State)
    requires HoldAction(a) && a.c in s.clients && HoldStep(s, a) == Some(t)
    requires ClientInv(s, a.c) && Numbers(s) && Order(s)
    ensures a.c in t.clients && Own(s, a.c, t) && Numbers(t) && Order(t)
  {
    HoldInv(s, a, t);
    HoldBecomes(s, a, t);
  }

  lemma CleanEffect(s: State, a: Action, t: State)
    requires CleanAction(a) && a.c in s.clients && CleanStep(s, a) == Some(t)
    ensures Effect(s, a.c, t)
  {
  }

  lemma CleanOwn(s: State, a: Action, t: State)
    requires CleanAction(a) && a.c in s.clients && CleanStep(s, a) == Some(t)
    requires ClientInv(s, a.c) && Numbers(s) && Order(s)
    ensures a.c in t.clients && Own(s, a.c, t) && Numbers(t) && Order(t)
  {
  }

  lemma LossEffect(s: State, a: Action, t: State)
    requires (a.Fail? || a.Crash?) && a.c in s.clients && LossStep(s, a) == Some(t)
    ensures Effect(s, a.c, t)
  {
    GotoEffect(s, a.c, t.clients[a.c].pc);
  }

  /** Giving everything up, and giving up all but the cleanup. */
  lemma ClosedOwn(s: State, c: Client)
    requires c in s.clients && ClientInv(s, c)
    ensures Own(s, c, Goto(s, c, Closed))
  {
  }

  lemma CleaningOwn(s: State, c: Client)
    requires c in s.clients && ClientInv(s, c) && Registered(s.clients[c].pc)
    ensures Own(s, c, Goto(s, c, Cleaning(s.clients[c].pc.s)))
  {
  }

  lemma LossMoves(s: State, a: Action, t: State)
    requires (a.Fail? || a.Crash?) && a.c in s.clients && LossStep(s, a) == Some(t)
    ensures t == Goto(s, a.c, Closed) || (Registered(s.clients[a.c].pc) && t == Goto(s, a.c, Cleaning(s.clients[a.c].pc.s)))
  {
  }

  lemma LossOwn(s: State, a: Action, t: State)
    requires (a.Fail? || a.Crash?) && a.c in s.clients && LossStep(s, a) == Some(t)
    requires ClientInv(s, a.c) && Numbers(s) && Order(s)
    ensures a.c in t.clients && Own(s, a.c, t) && Numbers(t) && Order(t)
  {
    LossMoves(s, a, t);
    if t == Goto(s, a.c, Closed) { ClosedOwn(s, a.c); } else { CleaningOwn(s, a.c); }
    assert t == s.(clients := t.clients);
  }

  /** A client's step, seen from the others and from itself. */
  ghost predicate Good(s: State, c: Client, t: State) {
    c in s.clients && Effect(s, c, t) && Own(s, c, t) && Numbers(t) && Order(t)
  }

  lemma ClientStepGood(s: State, a: Action, t: State)
    requires !ProcessAction(a) && Step(s, a) == Some(t)
    requires a.c in s.clients && ClientInv(s, a.c) && Numbers(s) && Order(s)
    ensures Good(s, a.c, t)
  {
    if LeaseAction(a) {
      LeaseEffect(s, a, t);
      LeaseOwn(s, a, t);
      LeaseShared(s, a, t);
    } else if DrawAction(a) {
      DrawEffect(s, a, t);
      DrawOwn(s, a, t);
      DrawShared(s, a, t);
    } else if FileAction(a) {
      FileEffect(s, a, t);
      FileOwn(s, a, t);
    } else if ScanAction(a) {
      ScanEffect(s, a, t);
      ScanOwn(s, a, t);
      ScanShared(s, a, t);
    } else if MarkAction(a) {
      MarkEffect(s, a, t);
      MarkOwn(s, a, t);
      MarkShared(s, a, t);
    } else if HoldAction(a) {
      HoldEffect(s, a, t);
      HoldOwn(s, a, t);
    } else if CleanAction(a) {
      CleanEffect(s, a, t);
      CleanOwn(s, a, t);
    } else {
      LossEffect(s, a, t);
      LossOwn(s, a, t);
    }
  }

  lemma PinsKeep(s: State, c: Client, t: State, p: Pid)
    requires Inv(s) && Good(s, c, t) && p in t.procs
    requires p in s.procs
    ensures ChildPinsTicket(t, p)
  {
    assert ChildPinsTicket(s, p) && ClientInv(s, c);
    if s.procs[p].alive && s.procs[p].supervisor.Some? {
      var n := s.procs[p].supervisor.value;
      assert !Touches(s.clients[c].pc, n);
      forall d | d in t.clients && Drawn(t.clients[d].pc) && t.clients[d].pc.s == n
        ensures t.clients[d].pc == Running(n, true, Some(p)) && t.procs[p].parent == Some(t.clients[d].pid)
      {
        assert d != c ==> t.clients[d] == s.clients[d];
      }
    }
  }

  /** A process that the step creates is a child supervised by the client that takes it. */
  lemma NewPin(s: State, c: Client, t: State, p: Pid)
    requires Inv(s) && Good(s, c, t) && Distinct(t) && p in t.procs && p !in s.procs
    ensures ChildPinsTicket(t, p)
  {
    assert ClientInv(t, c);
    assert Drawn(t.clients[c].pc);
  }

  lemma ClientStepKeeps(s: State, a: Action, t: State)
    requires Inv(s) && !ProcessAction(a) && Step(s, a) == Some(t)
    ensures Inv(t)
  {
    ClientStepGood(s, a, t);
    forall d | d in t.clients ensures ClientInv(t, d) {
      if d != a.c { OthersKeep(s, a.c, t, d); }
    }
    LocksStayExclusive(s, a.c, t);
    NumbersStayDistinct(s, a.c, t);
    forall p | p in t.procs ensures ChildPinsTicket(t, p) {
      if p in s.procs { PinsKeep(s, a.c, t, p); } else { NewPin(s, a.c, t, p); }
    }
  }

  lemma ControlStaysExclusive(s: State, c: Client, t: State, d: Client)
    requires Exclusive(s) && c in s.clients && Effect(s, c, t) && d in t.clients && d != c
    ensures !(HoldsControl(t.clients[c].pc) && HoldsControl(t.clients[d].pc))
  {
    assert t.clients[d] == s.clients[d];
  }

  lemma GuardStaysExclusive(s: State, c: Client, t: State, d: Client, k: Seq)
    requires Exclusive(s) && c in s.clients && Effect(s, c, t) && d in t.clients && d != c
    ensures !(HoldsGuard(t.clients[c].pc, k) && HoldsGuard(t.clients[d].pc, k))
  {
    assert t.clients[d] == s.clients[d];
  }

  lemma LocksStayExclusive(s: State, c: Client, t: State)
    requires Exclusive(s) && c in s.clients && Effect(s, c, t)
    ensures Exclusive(t)
  {
    forall d | d in t.clients && d != c
      ensures t.clients[d] == s.clients[d] && !(HoldsControl(t.clients[c].pc) && HoldsControl(t.clients[d].pc))
    {
      ControlStaysExclusive(s, c, t, d);
    }
    forall d, k | d in t.clients && d != c ensures !(HoldsGuard(t.clients[c].pc, k) && HoldsGuard(t.clients[d].pc, k)) {
      GuardStaysExclusive(s, c, t, d, k);
    }
  }

  lemma NumbersStayDistinct(s: State, c: Client, t: State)
    requires Inv(s) && Good(s, c, t)
    ensures Distinct(t)
  {
    forall d | d in t.clients && d != c && Drawn(t.clients[d].pc) && Drawn(t.clients[c].pc)
      ensures t.clients[d].pc.s != t.clients[c].pc.s
    {
      assert t.clients[d] == s.clients[d] && ClientInv(s, d);
    }
  }

  /** Processes come and go; one that has open clients does not go. */
  ghost predicate ProcessEvent(s: State, t: State) {
    && t == s.(procs := t.procs)
    && (forall p :: p in s.procs ==> p in t.procs && (t.procs[p] == s.procs[p] || t.procs[p] == s.procs[p].(alive := false)))
    && (forall c :: c in s.clients && !s.clients[c].pc.Closed? && s.clients[c].pid in s.procs ==>
          t.procs[s.clients[c].pid] == s.procs[s.clients[c].pid])
    && (forall p :: p in t.procs && p !in s.procs ==> t.procs[p].supervisor.None?)
  }

  /** A new client has no number and at most probes a free guard. */
  ghost predicate Newcomer(s: State, c: Client, t: State) {
    && c !in s.clients && c in t.clients && t == s.(clients := s.clients[c := t.clients[c]])
    && t.clients[c].pid in s.procs && s.procs[t.clients[c].pid].alive
    && var pc := t.clients[c].pc;
       pc.LeaseReading? || pc.TakingControl? || (pc.Peeking? && GuardFree(s, pc.k))
  }

  lemma ProcessStepShape(s: State, a: Action, t: State)
    requires ProcessAction(a) && Step(s, a) == Some(t)
    ensures if a.Arrive? || a.Peek? then Newcomer(s, a.c, t) else ProcessEvent(s, t)
  {
  }

  lemma ProcessEventKeeps(s: State, t: State)
    requires Inv(s) && ProcessEvent(s, t)
    ensures Inv(t)
  {
    forall d | d in t.clients ensures ClientInv(t, d) { assert ClientInv(s, d); }
    forall p | p in t.procs ensures ChildPinsTicket(t, p) {
      assert p in s.procs ==> ChildPinsTicket(s, p);
    }
  }

  lemma NewcomerLocks(s: State, c: Client, t: State)
    requires Exclusive(s) && Newcomer(s, c, t)
    ensures Exclusive(t)
  {
    assert forall d :: d in t.clients && d != c ==> d in s.clients && t.clients[d] == s.clients[d];
    assert forall k :: HoldsGuard(t.clients[c].pc, k) ==> GuardFree(s, k);
    assert !HoldsControl(t.clients[c].pc);
  }

  lemma NewcomerHasNoNumber(s: State, c: Client, t: State)
    requires Distinct(s) && Newcomer(s, c, t)
    ensures Distinct(t)
  {
    assert forall d :: d in t.clients && d != c ==> d in s.clients && t.clients[d] == s.clients[d];
    assert !Drawn(t.clients[c].pc);
  }

  lemma NewcomerPins(s: State, c: Client, t: State, p: Pid)
    requires Newcomer(s, c, t) && p in s.procs && ChildPinsTicket(s, p)
    ensures p in t.procs && ChildPinsTicket(t, p)
  {
    assert forall d :: d in t.clients && Drawn(t.clients[d].pc) ==> d in s.clients && t.clients[d] == s.clients[d];
  }

  lemma NewcomerKeeps(s: State, c: Client, t: State)
    requires Inv(s) && Newcomer(s, c, t)
    ensures Inv(t)
  {
    NewcomerLocks(s, c, t);
    NewcomerHasNoNumber(s, c, t);
    forall d | d in t.clients ensures ClientInv(t, d) { assert d != c ==> ClientInv(s, d); }
    forall p | p in t.procs ensures ChildPinsTicket(t, p) { NewcomerPins(s, c, t, p); }
  }

  lemma StepKeeps(s: State, a: Action, t: State)
    requires Inv(s) && Step(s, a) == Some(t)
    ensures Inv(t)
  {
    if ProcessAction(a) {
      ProcessStepShape(s, a, t);
      if a.Arrive? || a.Peek? { NewcomerKeeps(s, a.c, t); } else { ProcessEventKeeps(s, t); }
    } else {
      ClientStepKeeps(s, a, t);
    }
  }

  /** In every reachable state, whatever the participants, the interleaving and the crashes. */
  lemma {:induction false} ReachableInv(states: seq<State>, i: nat)
    requires Run(states) && i < |states|
    ensures Inv(states[i])
  {
    if i > 0 {
      ReachableInv(states, i - 1);
      assert NextAt(states, i);
      var a :| Step(states[i - 1], a) == Some(states[i]);
      StepKeeps(states[i - 1], a, states[i]);
    }
  }

  /** The parts of the invariant, one at a time. */
  lemma ReachableShared(states: seq<State>, i: nat)
    requires Run(states) && i < |states|
    ensures Numbers(states[i]) && Order(states[i])
  {
    ReachableInv(states, i);
  }

  lemma ReachableClient(states: seq<State>, i: nat, c: Client)
    requires Run(states) && i < |states| && c in states[i].clients
    ensures ClientInv(states[i], c)
  {
    ReachableInv(states, i);
  }

  lemma ReachablePin(states: seq<State>, i: nat, p: Pid)
    requires Run(states) && i < |states| && p in states[i].procs
    ensures ChildPinsTicket(states[i], p)
  {
    ReachableInv(states, i);
  }

  /** A step of a run, as a process event, a newcomer or a client's step. */
  lemma RunStep(states: seq<State>, i: nat) returns (a: Action)
    requires Run(states) && 0 < i < |states|
    ensures Step(states[i - 1], a) == Some(states[i])
    ensures (a.Arrive? || a.Peek?) ==> Newcomer(states[i - 1], a.c, states[i])
    ensures ProcessAction(a) && !a.Arrive? && !a.Peek? ==> ProcessEvent(states[i - 1], states[i])
    ensures !ProcessAction(a) ==> Good(states[i - 1], a.c, states[i])
  {
    assert NextAt(states, i);
    a :| Step(states[i - 1], a) == Some(states[i]);
    if ProcessAction(a) {
      ProcessStepShape(states[i - 1], a, states[i]);
    } else {
      ReachableClient(states, i - 1, a.c);
      ReachableShared(states, i - 1);
      ClientStepGood(states[i - 1], a, states[i]);
    }
  }
}
