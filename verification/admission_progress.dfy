/** The lowest live waiter's next scan admits it, in whatever order the directory is read and
    whatever the other participants do meanwhile. */
module AdmissionProgress {
  import opened Admission
  import opened AdmissionInvariant
  import opened Wrappers

  /** The moves of one scan by `c`, without errors and crashes. */
  predicate ScanMove(a: Action, c: Client) {
    (a.TakeControl? || ScanAction(a) || MarkAction(a)) && a.c == c
  }

  /** Nobody else is in the control section. */
  ghost predicate Alone(s: State, c: Client) {
    forall d :: d in s.clients && d != c ==> !HoldsControl(s.clients[d].pc)
  }

  /** Ticket `k` is readable and queued, and nobody but `c` holds its guard. */
  ghost predicate Abandoned(s: State, c: Client, k: Seq)
    requires k in s.tickets
  {
    && s.tickets[k].Ticket? && s.tickets[k].sequence == k && !s.tickets[k].running
    && forall d :: d in s.clients && d != c ==> !HoldsGuard(s.clients[d].pc, k)
  }

  /** Every ticket is readable and queued; the lower ones are abandoned. */
  ghost predicate Passable(s: State, c: Client, n: Seq) {
    forall k :: k in s.tickets ==>
      && s.tickets[k].Ticket? && s.tickets[k].sequence == k && !s.tickets[k].running
      && (k < n ==> Abandoned(s, c, k))
  }

  ghost predicate Solo(s: State, c: Client, n: Seq, log: seq<Seq>) {
    && c in s.clients && Alone(s, c)
    && var pc := s.clients[c].pc;
       if pc.Queued? then pc.s == n && Passable(s, c, n) && log == s.admitted + [n]
       else if pc.Scanning? then
         && pc.s == n && !pc.blocked && Passable(s, c, n) && log == s.admitted + [n]
         && forall k :: k in s.tickets && k < n ==> k in pc.todo
       else if pc.Probing? then
         && pc.s == n && !pc.blocked && Passable(s, c, n) && log == s.admitted + [n]
         && pc.path == pc.k < n && !pc.seenRunning
         && forall k :: k in s.tickets && k < n && k != pc.k ==> k in pc.todo
       else if pc.TruncatingRunning? || pc.WritingRunning? then pc.s == n && log == s.admitted + [n]
       else ((pc.Admitting? && pc.s == n) || pc == Running(n, false, None)) && log == s.admitted
  }

  function Rank(s: State, c: Client): nat
    requires c in s.clients
  {
    var pc := s.clients[c].pc;
    if pc.Queued? then 2 * |s.tickets.Keys| + 5
    else if pc.Scanning? then 2 * |pc.todo| + 4
    else if pc.Probing? then 2 * |pc.todo| + 5
    else if pc.TruncatingRunning? then 3
    else if pc.WritingRunning? then 2
    else if pc.Admitting? then 1 else 0
  }

  /** Some move is enabled as long as `c` does not run. */
  lemma SoloEnabled(s: State, c: Client, n: Seq, log: seq<Seq>) returns (a: Action)
    requires Solo(s, c, n, log) && !s.clients[c].pc.Running?
    ensures ScanMove(a, c) && Step(s, a).Some?
  {
    var pc := s.clients[c].pc;
    if pc.Queued? {
      a := TakeControl(c);
    } else if pc.Scanning? {
      if pc.todo == {} {
        a := EndScan(c);
      } else {
        var k :| k in pc.todo;
        a := ScanEntry(c, k);
      }
    } else if pc.Probing? {
      a := Settle(c);
    } else if pc.TruncatingRunning? {
      a := MarkRunningBegin(c);
    } else if pc.WritingRunning? {
      a := MarkRunningEnd(c);
    } else {
      a := Admit(c);
    }
  }

  /** Removing files and moving `c` leaves the rest passable. */
  lemma StaysPassable(s: State, c: Client, n: Seq, t: State)
    requires Passable(s, c, n) && c in s.clients
    requires c in t.clients && t.clients == s.clients[c := t.clients[c]]
    requires forall k :: k in t.tickets ==> k in s.tickets && t.tickets[k] == s.tickets[k]
    ensures Passable(t, c, n)
  {
    forall k | k in t.tickets && k < n ensures Abandoned(t, c, k) {
      assert Abandoned(s, c, k);
    }
  }

  lemma SoloEntry(s: State, c: Client, n: Seq, log: seq<Seq>, k: Seq)
    requires Solo(s, c, n, log) && Step(s, ScanEntry(c, k)).Some?
    ensures var t := Step(s, ScanEntry(c, k)).value; Solo(t, c, n, log) && Rank(t, c) < Rank(s, c)
  {
    var t := Step(s, ScanEntry(c, k)).value;
    assert k in s.clients[c].pc.todo;
    assert |s.clients[c].pc.todo - {k}| == |s.clients[c].pc.todo| - 1;
    if k in s.tickets && k < n {
      assert Abandoned(s, c, k);
      assert GuardFree(s, k);
    }
    StaysPassable(s, c, n, t);
  }

  lemma SoloSettle(s: State, c: Client, n: Seq, log: seq<Seq>)
    requires Solo(s, c, n, log) && Step(s, Settle(c)).Some?
    ensures var t := Step(s, Settle(c)).value; Solo(t, c, n, log) && Rank(t, c) < Rank(s, c)
  {
    StaysPassable(s, c, n, Step(s, Settle(c)).value);
  }

  lemma SoloMark(s: State, c: Client, n: Seq, log: seq<Seq>, a: Action)
    requires Solo(s, c, n, log) && MarkAction(a) && a.c == c && Step(s, a).Some?
    ensures Solo(Step(s, a).value, c, n, log) && Rank(Step(s, a).value, c) < Rank(s, c)
  {
    assert MarkStep(s, a) == Step(s, a);
  }

  lemma SoloTurn(s: State, c: Client, n: Seq, log: seq<Seq>, a: Action)
    requires Solo(s, c, n, log) && (a.TakeControl? || a.EndScan?) && a.c == c && Step(s, a).Some?
    ensures Solo(Step(s, a).value, c, n, log) && Rank(Step(s, a).value, c) < Rank(s, c)
  {
    if a.TakeControl? { StaysPassable(s, c, n, Step(s, a).value); }
  }

  lemma SoloStep(s: State, c: Client, n: Seq, log: seq<Seq>, a: Action)
    requires Solo(s, c, n, log) && ScanMove(a, c) && Step(s, a).Some?
    ensures Solo(Step(s, a).value, c, n, log)
    ensures Rank(Step(s, a).value, c) < Rank(s, c)
  {
    if a.ScanEntry? {
      SoloEntry(s, c, n, log, a.entry);
    } else if a.Settle? {
      SoloSettle(s, c, n, log);
    } else if MarkAction(a) {
      SoloMark(s, c, n, log, a);
    } else {
      SoloTurn(s, c, n, log, a);
    }
  }

  // ----- the others meanwhile -----

  /** Nobody but `c` holds the guard of a ticket below `n`. */
  ghost predicate LowerFree(s: State, c: Client, n: Seq) {
    forall d, k :: d in s.clients && d != c && k in s.tickets && k < n ==> !HoldsGuard(s.clients[d].pc, k)
  }

  predicate OwnMove(a: Action, c: Client) { !ProcessAction(a) && a.c == c }

  /** While `c` holds the control mutex, a step of anybody else leaves the files, the log and
      `c` as they are and stays out of the control section. */
  lemma OthersStayOut(s: State, a: Action, t: State, c: Client)
    requires Step(s, a) == Some(t) && !OwnMove(a, c) && (!ProcessAction(a) ==> a.c in s.clients && Effect(s, a.c, t))
    requires c in s.clients && HoldsControl(s.clients[c].pc) && Alone(s, c)
    ensures t.tickets == s.tickets && t.admitted == s.admitted && c in t.clients && t.clients[c] == s.clients[c] && Alone(t, c)
  {
    if ProcessAction(a) {
      ProcessStepShape(s, a, t);
    } else {
      assert forall d :: d in t.clients && d != a.c ==> d in s.clients && t.clients[d] == s.clients[d];
    }
  }

  lemma SoloKept(s: State, a: Action, t: State, c: Client, n: Seq, log: seq<Seq>)
    requires Step(s, a) == Some(t) && !OwnMove(a, c) && (!ProcessAction(a) ==> a.c in s.clients && Effect(s, a.c, t))
    requires Solo(s, c, n, log) && HoldsControl(s.clients[c].pc) && LowerFree(t, c, n)
    ensures Solo(t, c, n, log) && t.clients[c] == s.clients[c] && Rank(t, c) == Rank(s, c)
  {
    OthersStayOut(s, a, t, c);
    if Passable(s, c, n) {
      forall k | k in t.tickets && k < n ensures Abandoned(t, c, k) { assert Abandoned(s, c, k); }
    }
  }

  /** In the control section `c` has no moves but those of its scan, errors and crashes aside. */
  lemma ScanHasNoOtherMove(s: State, a: Action, c: Client, n: Seq, log: seq<Seq>)
    requires Solo(s, c, n, log) && HoldsControl(s.clients[c].pc) && OwnMove(a, c) && !a.Fail? && !a.Crash?
    ensures Step(s, a) == None || ScanMove(a, c)
  {
    if LeaseAction(a) { assert LeaseStep(s, a) == None; }
    else if DrawAction(a) { assert a.TakeControl? || DrawStep(s, a) == None; }
    else if FileAction(a) { assert FileStep(s, a) == None; }
    else if HoldAction(a) { assert HoldStep(s, a) == None; }
    else if CleanAction(a) { assert CleanStep(s, a) == None; }
  }

  // ----- whole runs -----

  /** `acts` are the steps of the run from `i` to `j`. */
  ghost predicate Schedule(states: seq<State>, acts: seq<Action>, i: nat, j: nat)
    requires i <= j < |states|
  {
    j <= |acts| && forall k :: i <= k < j ==> Taken(states, acts, k)
  }

  ghost predicate Taken(states: seq<State>, acts: seq<Action>, k: nat)
    requires k + 1 < |states| && k < |acts|
  {
    Step(states[k], acts[k]) == Some(states[k + 1])
  }

  /** `c` meets no error and does not crash, and nobody else locks a lower guard. */
  ghost predicate Undisturbed(states: seq<State>, acts: seq<Action>, c: Client, n: Seq, i: nat, j: nat)
    requires i <= j < |states| && j <= |acts|
  {
    && (forall k :: i <= k < j ==> acts[k] != Fail(c) && acts[k] != Crash(c))
    && (forall k :: i <= k <= j ==> LowerFree(states[k], c, n))
  }

  /** How many of the steps from `i` to `j` are `c`'s own. */
  function OwnMoves(acts: seq<Action>, c: Client, i: nat, j: nat): nat
    requires i <= j <= |acts|
    decreases j - i
  {
    if i == j then 0 else OwnMoves(acts, c, i, j - 1) + if OwnMove(acts[j - 1], c) then 1 else 0
  }

  /** By state `j` the waiter has been running as `n`, last in the log. */
  ghost predicate AdmittedBy(states: seq<State>, c: Client, n: Seq, log: seq<Seq>, i: nat, j: nat)
    requires j < |states|
  {
    exists m :: i <= m <= j && AdmittedIn(states[m], c, n, log)
  }

  ghost predicate AdmittedIn(s: State, c: Client, n: Seq, log: seq<Seq>) {
    c in s.clients && s.clients[c].pc == Running(n, false, None) && s.admitted == log
  }

  /** The scan is under way, unblocked, and `rank` bounds what is left of it. */
  ghost predicate UnderWay(s: State, c: Client, n: Seq, log: seq<Seq>, rank: int) {
    Solo(s, c, n, log) && HoldsControl(s.clients[c].pc) && Rank(s, c) <= rank
  }

  /** An unblocked scan does not go back to the queue. */
  lemma NotQueuedAgain(s: State, a: Action, c: Client, n: Seq, log: seq<Seq>)
    requires Solo(s, c, n, log) && ScanMove(a, c)
    ensures Step(s, a).Some? ==> c in Step(s, a).value.clients && !Step(s, a).value.clients[c].pc.Queued?
  {
    if a.TakeControl? { assert DrawStep(s, a) == Step(s, a); }
    else if ScanAction(a) { assert ScanStep(s, a) == Step(s, a); }
    else { assert MarkStep(s, a) == Step(s, a); }
  }

  lemma SoloEnds(t: State, c: Client, n: Seq, log: seq<Seq>, rank: int)
    requires Solo(t, c, n, log) && !t.clients[c].pc.Queued? && Rank(t, c) <= rank
    ensures AdmittedIn(t, c, n, log) || UnderWay(t, c, n, log, rank)
  {
  }

  lemma OwnStepUnderWay(s: State, a: Action, t: State, c: Client, n: Seq, log: seq<Seq>, rank: int)
    requires Step(s, a) == Some(t) && OwnMove(a, c) && a != Fail(c) && a != Crash(c)
    requires UnderWay(s, c, n, log, rank)
    ensures AdmittedIn(t, c, n, log) || UnderWay(t, c, n, log, rank - 1)
  {
    ScanHasNoOtherMove(s, a, c, n, log);
    SoloStep(s, c, n, log, a);
    NotQueuedAgain(s, a, c, n, log);
    SoloEnds(t, c, n, log, rank - 1);
  }

  lemma OthersStepUnderWay(states: seq<State>, acts: seq<Action>, c: Client, n: Seq, log: seq<Seq>, k: nat, rank: int)
    requires Run(states) && k + 1 < |states| && k < |acts| && Taken(states, acts, k)
    requires !OwnMove(acts[k], c) && LowerFree(states[k + 1], c, n) && UnderWay(states[k], c, n, log, rank)
    ensures UnderWay(states[k + 1], c, n, log, rank)
  {
    var a := acts[k];
    if !ProcessAction(a) {
      ReachableClient(states, k, a.c);
      ReachableShared(states, k);
      ClientStepGood(states[k], a, states[k + 1]);
    }
    SoloKept(states[k], a, states[k + 1], c, n, log);
  }

  lemma UnderWayStep(states: seq<State>, acts: seq<Action>, c: Client, n: Seq, log: seq<Seq>, k: nat, rank: int)
    requires Run(states) && k + 1 < |states| && k < |acts| && Taken(states, acts, k)
    requires acts[k] != Fail(c) && acts[k] != Crash(c) && LowerFree(states[k + 1], c, n)
    requires UnderWay(states[k], c, n, log, rank)
    ensures AdmittedIn(states[k + 1], c, n, log)
         || UnderWay(states[k + 1], c, n, log, if OwnMove(acts[k], c) then rank - 1 else rank)
  {
    if OwnMove(acts[k], c) {
      OwnStepUnderWay(states[k], acts[k], states[k + 1], c, n, log, rank);
    } else {
      OthersStepUnderWay(states, acts, c, n, log, k, rank);
    }
  }

  /** Nothing disturbs the last step or what is before it. */
  lemma UndisturbedBefore(states: seq<State>, acts: seq<Action>, c: Client, n: Seq, i: nat, j: nat)
    requires i < j < |states| && Schedule(states, acts, i, j) && Undisturbed(states, acts, c, n, i, j)
    ensures Schedule(states, acts, i, j - 1) && Undisturbed(states, acts, c, n, i, j - 1)
    ensures Taken(states, acts, j - 1) && acts[j - 1] != Fail(c) && acts[j - 1] != Crash(c) && LowerFree(states[j], c, n)
  {
  }

  lemma ScanGoesOn(states: seq<State>, acts: seq<Action>, c: Client, n: Seq, log: seq<Seq>, i: nat, j: nat, rank: int)
    requires Run(states) && i < j < |states| && j <= |acts| && Taken(states, acts, j - 1)
    requires acts[j - 1] != Fail(c) && acts[j - 1] != Crash(c) && LowerFree(states[j], c, n)
    requires AdmittedBy(states, c, n, log, i, j - 1) || UnderWay(states[j - 1], c, n, log, rank - OwnMoves(acts, c, i, j - 1))
    ensures AdmittedBy(states, c, n, log, i, j) || UnderWay(states[j], c, n, log, rank - OwnMoves(acts, c, i, j))
  {
    if !AdmittedBy(states, c, n, log, i, j - 1) {
      UnderWayStep(states, acts, c, n, log, j - 1, rank - OwnMoves(acts, c, i, j - 1));
    }
  }

  lemma {:induction false} ScanRuns(states: seq<State>, acts: seq<Action>, c: Client, n: Seq, log: seq<Seq>, i: nat, j: nat, rank: int)
    requires Run(states) && i <= j < |states| && Schedule(states, acts, i, j) && Undisturbed(states, acts, c, n, i, j)
    requires UnderWay(states[i], c, n, log, rank)
    ensures AdmittedBy(states, c, n, log, i, j) || UnderWay(states[j], c, n, log, rank - OwnMoves(acts, c, i, j))
    decreases j - i
  {
    if i < j {
      UndisturbedBefore(states, acts, c, n, i, j);
      ScanRuns(states, acts, c, n, log, i, j - 1, rank);
      ScanGoesOn(states, acts, c, n, log, i, j, rank);
    }
  }

  /** `c` waits at the head of the queue: the control mutex is free, no ticket is running or
      unreadable, and nobody is alive (or probing) at a lower number. */
  ghost predicate HeadOfQueue(s: State, c: Client) {
    && c in s.clients && s.clients[c].pc.Queued? && ControlFree(s)
    && (forall k :: k in s.tickets ==> s.tickets[k].Ticket? && !s.tickets[k].running)
    && (forall k :: k in s.tickets && k < s.clients[c].pc.s ==> GuardFree(s, k))
  }

  lemma ScanBegins(states: seq<State>, acts: seq<Action>, i: nat, c: Client)
    requires Run(states) && i + 1 < |states| && i < |acts| && Taken(states, acts, i)
    requires acts[i] == TakeControl(c) && HeadOfQueue(states[i], c)
    ensures var n := states[i].clients[c].pc.s;
      UnderWay(states[i + 1], c, n, states[i].admitted + [n], 2 * |states[i].tickets.Keys| + 4)
  {
    ReachableShared(states, i);
    var s := states[i];
    var n := s.clients[c].pc.s;
    forall k | k in s.tickets && k < n ensures Abandoned(s, c, k) {
      assert GuardFree(s, k);
    }
    SoloStep(s, c, n, s.admitted + [n], acts[i]);
  }

  /** Some move of the scan is enabled. */
  ghost predicate CanScan(s: State, c: Client) { exists a :: ScanMove(a, c) && Step(s, a).Some? }

  lemma UnderWayMoves(s: State, c: Client, n: Seq, log: seq<Seq>, rank: int)
    requires UnderWay(s, c, n, log, rank)
    ensures rank >= 1 && CanScan(s, c)
  {
    var a := SoloEnabled(s, c, n, log);
  }

  lemma AfterFirst(states: seq<State>, acts: seq<Action>, c: Client, n: Seq, i: nat, j: nat)
    requires i < j < |states| && Schedule(states, acts, i, j) && Undisturbed(states, acts, c, n, i, j)
    ensures Taken(states, acts, i) && Schedule(states, acts, i + 1, j) && Undisturbed(states, acts, c, n, i + 1, j)
  {
  }

  /** What a scan that began at `i` and has run from `i + 1` on comes to. */
  lemma ScanEnds(states: seq<State>, acts: seq<Action>, c: Client, n: Seq, log: seq<Seq>, i: nat, j: nat, rank: nat)
    requires i < j < |states| && j <= |acts| && OwnMove(acts[i], c)
    requires AdmittedBy(states, c, n, log, i + 1, j) || UnderWay(states[j], c, n, log, rank - OwnMoves(acts, c, i + 1, j))
    ensures AdmittedBy(states, c, n, log, i, j) || (CanScan(states[j], c) && OwnMoves(acts, c, i, j) <= rank)
  {
    OwnMovesSplit(acts, c, i, j);
    if !AdmittedBy(states, c, n, log, i + 1, j) {
      UnderWayMoves(states[j], c, n, log, rank - OwnMoves(acts, c, i + 1, j));
    }
  }

  /** The scan that begins at `i` has ended with the admission or is still under way at `j`. */
  lemma ScanFromStart(states: seq<State>, acts: seq<Action>, c: Client, n: Seq, log: seq<Seq>, i: nat, j: nat, rank: nat)
    requires Run(states) && i < j < |states| && Schedule(states, acts, i, j) && Undisturbed(states, acts, c, n, i, j)
    requires UnderWay(states[i + 1], c, n, log, rank)
    ensures AdmittedBy(states, c, n, log, i + 1, j) || UnderWay(states[j], c, n, log, rank - OwnMoves(acts, c, i + 1, j))
  {
    AfterFirst(states, acts, c, n, i, j);
    ScanRuns(states, acts, c, n, log, i + 1, j, rank);
  }

  /** From the moment the waiter at the head of the queue takes the control mutex, along every
      interleaving with any number of others in which it meets no error and nobody locks a
      lower guard: it has been admitted by state `j`, next in the log, or its scan can go on
      and has made fewer than twice the tickets plus five moves. */
  lemma LowestWaiterIsAdmitted(states: seq<State>, acts: seq<Action>, c: Client, i: nat, j: nat)
    requires Run(states) && i < j < |states| && Schedule(states, acts, i, j)
    requires acts[i] == TakeControl(c) && HeadOfQueue(states[i], c)
    requires Undisturbed(states, acts, c, states[i].clients[c].pc.s, i, j)
    ensures var n := states[i].clients[c].pc.s;
      || AdmittedBy(states, c, n, states[i].admitted + [n], i, j)
      || (CanScan(states[j], c) && OwnMoves(acts, c, i, j) < 2 * |states[i].tickets.Keys| + 5)
  {
    var n := states[i].clients[c].pc.s;
    var log := states[i].admitted + [n];
    var rank := 2 * |states[i].tickets.Keys| + 4;
    assert Taken(states, acts, i);
    ScanBegins(states, acts, i, c);
    ScanFromStart(states, acts, c, n, log, i, j, rank);
    ScanEnds(states, acts, c, n, log, i, j, rank);
  }

  lemma {:induction false} OwnMovesSplit(acts: seq<Action>, c: Client, i: nat, j: nat)
    requires i < j <= |acts| && OwnMove(acts[i], c)
    ensures OwnMoves(acts, c, i, j) == OwnMoves(acts, c, i + 1, j) + 1
    decreases j - i
  {
    if i + 1 < j { OwnMovesSplit(acts, c, i, j - 1); }
  }

  // ----- registering -----

  /** The steps `acts` one after the other lead from `s` to `t`. */
  ghost predicate Leads(s: State, acts: seq<Action>, t: State)
    decreases |acts|
  {
    if acts == [] then s == t else Step(s, acts[0]).Some? && Leads(Step(s, acts[0]).value, acts[1..], t)
  }

  lemma FourLead(s: State, s1: State, s2: State, s3: State, t: State, a: Action, b: Action, c: Action, d: Action)
    requires Step(s, a) == Some(s1) && Step(s1, b) == Some(s2) && Step(s2, c) == Some(s3) && Step(s3, d) == Some(t)
    ensures Leads(s, [a, b, c, d], t)
  {
    assert [a, b, c, d][1..] == [b, c, d] && [b, c, d][1..] == [c, d] && [c, d][1..] == [d] && [d][1..] == [];
    assert Leads(t, [], t);
    assert Leads(s3, [d], t);
    assert Leads(s2, [c, d], t);
    assert Leads(s1, [b, c, d], t);
  }

  lemma DrawMove(s: State, c: Client)
    requires c in s.clients
    ensures var pc := s.clients[c].pc;
      && (pc.TakingControl? && ControlFree(s) ==> Step(s, TakeControl(c)) == Some(Goto(s, c, ReadingCounter)))
      && (pc.ReadingCounter? && s.counter == Absent ==> Step(s, ReadCounter(c)) == Some(Goto(s, c, TruncatingCounter(1))))
      && (pc.ReadingCounter? && s.counter.Value? && s.counter.n < 0xFFFF_FFFF_FFFF_FFFF ==>
            Step(s, ReadCounter(c)) == Some(Goto(s, c, TruncatingCounter(s.counter.n + 1))))
      && (pc.ReadingCounter? && (s.counter == Garbled || (s.counter.Value? && s.counter.n >= 0xFFFF_FFFF_FFFF_FFFF)) ==>
            Step(s, ReadCounter(c)) == Some(Goto(s, c, Closed)))
      && (pc.TruncatingCounter? ==> Step(s, TruncateCounter(c)) == Some(Goto(s, c, WritingCounter(pc.s)).(counter := Garbled)))
      && (pc.WritingCounter? ==>
            Step(s, WriteCounter(c)) == Some(Goto(s, c, LockingGuard(pc.s)).(counter := Value(pc.s), issued := s.issued + [pc.s])))
  {
    assert Step(s, TakeControl(c)) == DrawStep(s, TakeControl(c)) && Step(s, ReadCounter(c)) == DrawStep(s, ReadCounter(c));
    assert Step(s, TruncateCounter(c)) == DrawStep(s, TruncateCounter(c));
    assert Step(s, WriteCounter(c)) == DrawStep(s, WriteCounter(c));
  }

  lemma FileMove(s: State, c: Client)
    requires c in s.clients
    ensures var Member(pid, pc) := s.clients[c];
      && (pc.LockingGuard? && GuardFree(s, pc.s) ==> Step(s, LockGuard(c)) == Some(Goto(s, c, TruncatingTicket(pc.s))))
      && (pc.TruncatingTicket? ==>
            Step(s, TruncateTicket(c)) == Some(Goto(s, c, WritingTicket(pc.s)).(tickets := s.tickets[pc.s := Torn])))
      && (pc.WritingTicket? ==>
            Step(s, WriteTicket(c)) == Some(Goto(s, c, Registering(pc.s)).(tickets := s.tickets[pc.s := Ticket(pc.s, pid, false)])))
      && (pc.Registering? ==> Step(s, Register(c)) == Some(Goto(s, c, Queued(pc.s))))
  {
    assert Step(s, LockGuard(c)) == FileStep(s, LockGuard(c)) && Step(s, TruncateTicket(c)) == FileStep(s, TruncateTicket(c));
    assert Step(s, WriteTicket(c)) == FileStep(s, WriteTicket(c)) && Step(s, Register(c)) == FileStep(s, Register(c));
  }

  /** The next number: 1 in an empty directory, else one more than the last. */
  ghost predicate NextNumber(s: State, n: Seq) {
    (s.counter == Absent && n == 1) || (s.counter.Value? && n == s.counter.n + 1 <= 0xFFFF_FFFF_FFFF_FFFF)
  }

  /** `c` has drawn `n`, with everything else as it was. */
  ghost predicate DrewNumber(s: State, t: State, c: Client, n: Seq)
    requires c in s.clients
  {
    t == s.(counter := Value(n), issued := s.issued + [n], clients := s.clients[c := Member(s.clients[c].pid, LockingGuard(n))])
  }

  lemma Draws(s: State, c: Client, n: Seq) returns (acts: seq<Action>, t: State)
    requires c in s.clients && s.clients[c].pc == TakingControl && ControlFree(s) && NextNumber(s, n)
    ensures acts == [TakeControl(c), ReadCounter(c), TruncateCounter(c), WriteCounter(c)]
    ensures Leads(s, acts, t) && DrewNumber(s, t, c, n)
  {
    acts := [TakeControl(c), ReadCounter(c), TruncateCounter(c), WriteCounter(c)];
    DrawMove(s, c);
    var s1 := Goto(s, c, ReadingCounter);
    DrawMove(s1, c);
    var s2 := Goto(s1, c, TruncatingCounter(n));
    DrawMove(s2, c);
    var s3 := Goto(s2, c, WritingCounter(n)).(counter := Garbled);
    DrawMove(s3, c);
    t := Goto(s3, c, LockingGuard(n)).(counter := Value(n), issued := s3.issued + [n]);
    assert t.clients == s.clients[c := Member(s.clients[c].pid, LockingGuard(n))];
    FourLead(s, s1, s2, s3, t, acts[0], acts[1], acts[2], acts[3]);
  }

  /** `c` is queued under `n` with its ticket registered, and everything else as it was. */
  ghost predicate IsRegistered(s: State, t: State, c: Client, n: Seq)
    requires c in s.clients
  {
    t == s.(tickets := s.tickets[n := Ticket(n, s.clients[c].pid, false)],
            clients := s.clients[c := Member(s.clients[c].pid, Queued(n))])
  }

  lemma Registers(s: State, c: Client, n: Seq) returns (acts: seq<Action>, t: State)
    requires c in s.clients && s.clients[c].pc == LockingGuard(n) && GuardFree(s, n)
    ensures acts == [LockGuard(c), TruncateTicket(c), WriteTicket(c), Register(c)]
    ensures Leads(s, acts, t) && IsRegistered(s, t, c, n)
  {
    acts := [LockGuard(c), TruncateTicket(c), WriteTicket(c), Register(c)];
    FileMove(s, c);
    var s1 := Goto(s, c, TruncatingTicket(n));
    FileMove(s1, c);
    var s2 := Goto(s1, c, WritingTicket(n)).(tickets := s1.tickets[n := Torn]);
    FileMove(s2, c);
    var s3 := Goto(s2, c, Registering(n)).(tickets := s2.tickets[n := Ticket(n, s.clients[c].pid, false)]);
    FileMove(s3, c);
    t := Goto(s3, c, Queued(n));
    assert t.clients == s.clients[c := Member(s.clients[c].pid, Queued(n))];
    assert t.tickets == s.tickets[n := Ticket(n, s.clients[c].pid, false)];
    FourLead(s, s1, s2, s3, t, acts[0], acts[1], acts[2], acts[3]);
  }
}
