/** The shared admission directory and every step a participant can take in it
    (src/coordination.rs). A client is one call to `Reservation::acquire` together
    with the reservation it returns, or one momentary probe of a guard file. Steps
    are the points between which another client may run or the process may die. */
module Admission {

  import opened Wrappers

  /** A process incarnation: an operating-system pid together with its start time. */
  type Pid = nat
  type Client = nat
  type Seq = nat

  const MAX_SEQUENCE: nat := 0xFFFF_FFFF_FFFF_FFFF

  /** The process-table walk stops after this many hops. */
  const MAX_HOPS: nat := 256

  /** What a reader of `N.json` finds. `fs::write` truncates before it writes, so a
      writer that dies in between leaves an empty file, which does not parse. */
  datatype Record = Torn | Ticket(sequence: Seq, owner: Pid, running: bool)

  /** What a reader of the `sequence` file finds. */
  datatype Counter = Absent | Garbled | Value(n: nat)

  datatype Process = Process(parent: Option<Pid>, lease: Option<Seq>, supervisor: Option<Seq>, alive: bool)

  /** Where a client is. Every constructor that carries `s` has drawn number `s`. */
  datatype Pc =
    | LeaseReading(lease: Seq)
    | LeaseProbing(lease: Seq, record: Record)
    | LeaseWalking(lease: Seq, record: Record)
    | Nested(lease: Seq)
    | Peeking(k: Seq)
    | TakingControl
    | ReadingCounter
    | TruncatingCounter(s: Seq)
    | WritingCounter(s: Seq)
    | LockingGuard(s: Seq)
    | TruncatingTicket(s: Seq)
    | WritingTicket(s: Seq)
    | Registering(s: Seq)
    | Queued(s: Seq)
    | Scanning(s: Seq, todo: set<Seq>, blocked: bool)
    | Probing(s: Seq, todo: set<Seq>, blocked: bool, path: Seq, k: Seq, seenRunning: bool)
    | TruncatingRunning(s: Seq)
    | WritingRunning(s: Seq)
    | Admitting(s: Seq)
    | Running(s: Seq, retain: bool, child: Option<Pid>)
    | Cleaning(s: Seq)
    | Removing(s: Seq)
    | Unguarding(s: Seq)
    | Finishing(s: Seq)
    | Closed

  datatype Member = Member(pid: Pid, pc: Pc)

  /** A lock is held by exactly the clients whose program counter lies between taking and
      closing it, so there is no lock table to keep: see `ControlFree` and `GuardFree`.
      `issued` and `admitted` are history: the numbers written to the counter and the
      tickets marked running, in the order in which that happened. */
  datatype State = State(
    counter: Counter,
    tickets: map<Seq, Record>,
    clients: map<Client, Member>,
    procs: map<Pid, Process>,
    issued: seq<Seq>,
    admitted: seq<Seq>)

  /** An empty directory and no participant; processes appear by `Boot` and `Fork`. */
  const INITIAL: State := State(Absent, map[], map[], map[], [], [])

  datatype Action =
    | Boot(pid: Pid)
    | Fork(parent: Pid, pid: Pid)
    | Exit(pid: Pid)
    | Arrive(c: Client, pid: Pid, inherit: bool)
    | Peek(c: Client, pid: Pid, k: Seq)
    | ReadLease(c: Client)
    | ProbeLease(c: Client)
    | WalkAncestors(c: Client)
    | TakeControl(c: Client)
    | ReadCounter(c: Client)
    | TruncateCounter(c: Client)
    | WriteCounter(c: Client)
    | LockGuard(c: Client)
    | TruncateTicket(c: Client)
    | WriteTicket(c: Client)
    | Register(c: Client)
    | ScanEntry(c: Client, entry: Seq)
    | Settle(c: Client)
    | EndScan(c: Client)
    | MarkRunningBegin(c: Client)
    | MarkRunningEnd(c: Client)
    | Admit(c: Client)
    | Retain(c: Client)
    | Supervise(c: Client, pid: Pid)
    | Reaped(c: Client)
    | DropReservation(c: Client)
    | RemoveTicket(c: Client)
    | ReleaseGuard(c: Client)
    | Finish(c: Client)
    | Fail(c: Client)
    | Crash(c: Client)

  // ----- what a program counter implies -----

  /** The client holds `queue.lock`. */
  predicate HoldsControl(pc: Pc) {
    || pc.ReadingCounter? || pc.TruncatingCounter? || pc.WritingCounter? || pc.LockingGuard?
    || pc.TruncatingTicket? || pc.WritingTicket? || pc.Registering? || pc.Scanning? || pc.Probing?
    || pc.TruncatingRunning? || pc.WritingRunning? || pc.Admitting?
    || pc.Removing? || pc.Unguarding? || pc.Finishing?
  }

  /** The client has drawn a number and not yet been marked running. */
  predicate Waits(pc: Pc) {
    || pc.LockingGuard? || pc.TruncatingTicket? || pc.WritingTicket? || pc.Registering? || pc.Queued?
    || pc.Scanning? || pc.Probing? || pc.TruncatingRunning? || pc.WritingRunning?
  }

  /** The client's own ticket is on disk and says it is queued. */
  predicate Listed(pc: Pc) {
    || pc.Registering? || pc.Queued? || pc.Scanning? || pc.Probing? || pc.TruncatingRunning?
  }

  predicate Runs(pc: Pc) { pc.Admitting? || pc.Running? }

  predicate Cleans(pc: Pc) { pc.Cleaning? || pc.Removing? || pc.Unguarding? }

  /** The client holds its own guard file's lock. */
  predicate Guards(pc: Pc) { (Waits(pc) && !pc.LockingGuard?) || Runs(pc) || Cleans(pc) }

  /** The client holds the lock of guard file `k`, as its owner or to probe it. */
  predicate HoldsGuard(pc: Pc, k: Seq) {
    || (Guards(pc) && pc.s == k)
    || (pc.Probing? && pc.k == k)
    || (pc.Peeking? && pc.k == k)
  }

  /** Failing here leaves nothing to clean: the guard handle is not in the reservation yet. */
  predicate Unregistered(pc: Pc) {
    || pc.LeaseReading? || pc.LeaseProbing? || pc.LeaseWalking? || pc.Peeking? || pc.TakingControl?
    || pc.ReadingCounter? || pc.TruncatingCounter? || pc.WritingCounter? || pc.LockingGuard?
    || pc.TruncatingTicket? || pc.WritingTicket?
  }

  /** Failing here drops a reservation that holds its guard, so cleanup runs. */
  predicate Registered(pc: Pc) { Listed(pc) || pc.WritingRunning? || pc.Admitting? }

  // ----- state updates -----

  function Goto(s: State, c: Client, pc: Pc): State
    requires c in s.clients
  {
    s.(clients := s.clients[c := s.clients[c].(pc := pc)])
  }

  /** `try_lock` on `queue.lock` succeeds. */
  predicate ControlFree(s: State) {
    forall c :: c in s.clients ==> !HoldsControl(s.clients[c].pc)
  }

  /** `try_lock` on guard file `k` succeeds. */
  predicate GuardFree(s: State, k: Seq) {
    forall c :: c in s.clients ==> !HoldsGuard(s.clients[c].pc, k)
  }

  /** The walk from `cursor` to its ancestors in the process table (lines 111-126). */
  predicate ReachesOwner(procs: map<Pid, Process>, cursor: Pid, owner: Pid, hops: nat)
    decreases hops
  {
    && hops > 0
    && cursor in procs && procs[cursor].alive
    && (|| cursor == owner
        || (procs[cursor].parent.Some? && ReachesOwner(procs, procs[cursor].parent.value, owner, hops - 1)))
  }

  // ----- the steps -----

  predicate ProcessAction(a: Action) { a.Boot? || a.Fork? || a.Exit? || a.Arrive? || a.Peek? }

  /** Process creation and death, and the first step of a client. */
  function ProcessStep(s: State, a: Action): Option<State>
    requires ProcessAction(a)
  {
    match a
    case Boot(pid) =>
      if pid in s.procs then None else
        Some(s.(procs := s.procs[pid := Process(None, None, None, true)]))
    case Fork(parent, pid) =>
      // An ordinary child inherits the lease variable of its parent.
      if parent !in s.procs || !s.procs[parent].alive || pid in s.procs then None else
        Some(s.(procs := s.procs[pid := Process(Some(parent), s.procs[parent].lease, None, true)]))
    case Exit(pid) =>
      if pid !in s.procs || !s.procs[pid].alive
         || (exists c :: c in s.clients && s.clients[c].pid == pid && !s.clients[c].pc.Closed?)
      then None else
        Some(s.(procs := s.procs[pid := s.procs[pid].(alive := false)]))
    case Arrive(c, pid, inherit) =>
      if c in s.clients || pid !in s.procs || !s.procs[pid].alive then None else
        var pc := if inherit && s.procs[pid].lease.Some? then LeaseReading(s.procs[pid].lease.value) else TakingControl;
        Some(s.(clients := s.clients[c := Member(pid, pc)]))
    case Peek(c, pid, k) =>
      // `queued_pids` and a failing lease check lock a free guard for a moment, without the control mutex.
      if c in s.clients || pid !in s.procs || !s.procs[pid].alive || !GuardFree(s, k) then None else
        Some(s.(clients := s.clients[c := Member(pid, Peeking(k))]))
  }

  function CounterAfter(s: State): Option<nat> {
    match s.counter
    case Absent => Some(1)
    case Garbled => None
    case Value(n) => if n + 1 <= MAX_SEQUENCE then Some(n + 1) else None
  }

  predicate LeaseAction(a: Action) { a.ReadLease? || a.ProbeLease? || a.WalkAncestors? }

  /** The inherited lease (lines 93-136). */
  function LeaseStep(s: State, a: Action): Option<State>
    requires LeaseAction(a) && a.c in s.clients
  {
    var c := a.c;
    var me := s.clients[c];
    var pc := me.pc;
    match a
    case ReadLease(_) =>
      if !pc.LeaseReading? then None
      else if pc.lease in s.tickets && s.tickets[pc.lease].Ticket?
        then Some(Goto(s, c, LeaseProbing(pc.lease, s.tickets[pc.lease])))
      else Some(Goto(s, c, Closed))
    case ProbeLease(_) =>
      if !pc.LeaseProbing? then None
      else if GuardFree(s, pc.lease) then Some(Goto(s, c, Peeking(pc.lease)))
      else if pc.record.Ticket? && pc.record.running then Some(Goto(s, c, LeaseWalking(pc.lease, pc.record)))
      else Some(Goto(s, c, Closed))
    case WalkAncestors(_) =>
      if !pc.LeaseWalking? then None
      else if pc.record.Ticket? && ReachesOwner(s.procs, me.pid, pc.record.owner, MAX_HOPS)
        then Some(Goto(s, c, Nested(pc.lease)))
      else Some(Goto(s, c, Closed))
  }

  predicate DrawAction(a: Action) { a.TakeControl? || a.ReadCounter? || a.TruncateCounter? || a.WriteCounter? }

  /** Taking the control mutex (lines 150, 182 and 300) and drawing a number (lines 151-160). */
  function DrawStep(s: State, a: Action): Option<State>
    requires DrawAction(a) && a.c in s.clients
  {
    var c := a.c;
    var me := s.clients[c];
    var pc := me.pc;
    match a
    case TakeControl(_) =>
      if !ControlFree(s) then None
      else if pc.TakingControl? then Some(Goto(s, c, ReadingCounter))
      else if pc.Queued? then Some(Goto(s, c, Scanning(pc.s, s.tickets.Keys, false)))
      else if pc.Cleaning? then Some(Goto(s, c, Removing(pc.s)))
      else None
    case ReadCounter(_) =>
      if !pc.ReadingCounter? then None
      else if CounterAfter(s).Some? then Some(Goto(s, c, TruncatingCounter(CounterAfter(s).value)))
      else Some(Goto(s, c, Closed))
    case TruncateCounter(_) =>
      if !pc.TruncatingCounter? then None
      else Some(Goto(s, c, WritingCounter(pc.s)).(counter := Garbled))
    case WriteCounter(_) =>
      if !pc.WritingCounter? then None
      else Some(Goto(s, c, LockingGuard(pc.s)).(counter := Value(pc.s), issued := s.issued + [pc.s]))
  }

  predicate FileAction(a: Action) { a.LockGuard? || a.TruncateTicket? || a.WriteTicket? || a.Register? }

  /** Locking the guard and registering the ticket (lines 161-179). */
  function FileStep(s: State, a: Action): Option<State>
    requires FileAction(a) && a.c in s.clients
  {
    var c := a.c;
    var me := s.clients[c];
    var pc := me.pc;
    match a
    case LockGuard(_) =>
      if !pc.LockingGuard? || !GuardFree(s, pc.s) then None
      else Some(Goto(s, c, TruncatingTicket(pc.s)))
    case TruncateTicket(_) =>
      if !pc.TruncatingTicket? then None
      else Some(Goto(s, c, WritingTicket(pc.s)).(tickets := s.tickets[pc.s := Torn]))
    case WriteTicket(_) =>
      if !pc.WritingTicket? then None
      else Some(Goto(s, c, Registering(pc.s)).(tickets := s.tickets[pc.s := Ticket(pc.s, me.pid, false)]))
    case Register(_) =>
      if !pc.Registering? then None
      else Some(Goto(s, c, Queued(pc.s)))
  }

  predicate ScanAction(a: Action) { a.ScanEntry? || a.Settle? || a.EndScan? }

  /** One scan of the directory, entry by entry (lines 183-221 and 230). */
  function ScanStep(s: State, a: Action): Option<State>
    requires ScanAction(a) && a.c in s.clients
  {
    var c := a.c;
    var me := s.clients[c];
    var pc := me.pc;
    match a
    case ScanEntry(_, entry) =>
      if !pc.Scanning? || entry !in pc.todo then None else
        var rest := pc.todo - {entry};
        if entry !in s.tickets then Some(Goto(s, c, Scanning(pc.s, rest, pc.blocked)))
        else if s.tickets[entry].Torn? then Some(Goto(s, c, Cleaning(pc.s)))
        else
          var found := s.tickets[entry];
          if found.sequence >= pc.s then Some(Goto(s, c, Scanning(pc.s, rest, pc.blocked)))
          else if !GuardFree(s, found.sequence) then Some(Goto(s, c, Scanning(pc.s, rest, true)))
          else Some(Goto(s, c, Probing(pc.s, rest, pc.blocked, entry, found.sequence, found.running)))
    case Settle(_) =>
      if !pc.Probing? then None else
        var back := Scanning(pc.s, pc.todo, pc.blocked);
        if !pc.seenRunning then Some(Goto(s, c, back).(tickets := s.tickets - {pc.path}))
        else if pc.path !in s.tickets then Some(Goto(s, c, back))
        else Some(Goto(s, c, Cleaning(pc.s)))
    case EndScan(_) =>
      if !pc.Scanning? || pc.todo != {} then None
      else if pc.blocked then Some(Goto(s, c, Queued(pc.s)))
      else Some(Goto(s, c, TruncatingRunning(pc.s)))
  }

  predicate MarkAction(a: Action) { a.MarkRunningBegin? || a.MarkRunningEnd? || a.Admit? }

  /** The admission at the end of an unblocked scan (lines 221-228). */
  function MarkStep(s: State, a: Action): Option<State>
    requires MarkAction(a) && a.c in s.clients
  {
    var c := a.c;
    var me := s.clients[c];
    var pc := me.pc;
    match a
    case MarkRunningBegin(_) =>
      if !pc.TruncatingRunning? then None
      else Some(Goto(s, c, WritingRunning(pc.s)).(tickets := s.tickets[pc.s := Torn]))
    case MarkRunningEnd(_) =>
      if !pc.WritingRunning? then None
      else Some(Goto(s, c, Admitting(pc.s))
                .(tickets := s.tickets[pc.s := Ticket(pc.s, me.pid, true)], admitted := s.admitted + [pc.s]))
    case Admit(_) =>
      if !pc.Admitting? then None
      else Some(Goto(s, c, Running(pc.s, false, None)))
  }

  predicate HoldAction(a: Action) { a.Retain? || a.Supervise? || a.Reaped? || a.DropReservation? }

  /** The launcher's supervision of a child (src/lib.rs lines 933-968), and the decision of
      the drop whether to clean up (line 297). */
  function HoldStep(s: State, a: Action): Option<State>
    requires HoldAction(a) && a.c in s.clients
  {
    var c := a.c;
    var me := s.clients[c];
    var pc := me.pc;
    match a
    case Retain(_) =>
      if !pc.Running? then None else Some(Goto(s, c, Running(pc.s, true, pc.child)))
    case Supervise(_, pid) =>
      if !pc.Running? || !pc.retain || pc.child.Some? || pid in s.procs then None
      else Some(Goto(s, c, Running(pc.s, true, Some(pid)))
                .(procs := s.procs[pid := Process(Some(me.pid), Some(pc.s), Some(pc.s), true)]))
    case Reaped(_) =>
      if !pc.Running? || pc.child.None? || pc.child.value !in s.procs || s.procs[pc.child.value].alive then None
      else Some(Goto(s, c, Running(pc.s, false, None)))
    case DropReservation(_) =>
      if pc.Nested? then Some(Goto(s, c, Closed))
      else if !pc.Running? then None
      else if pc.retain then Some(Goto(s, c, Closed))
      else Some(Goto(s, c, Cleaning(pc.s)))
  }

  predicate CleanAction(a: Action) { a.RemoveTicket? || a.ReleaseGuard? || a.Finish? }

  /** The cleanup: record first, then the guard, then the control mutex (lines 301-314). */
  function CleanStep(s: State, a: Action): Option<State>
    requires CleanAction(a) && a.c in s.clients
  {
    var c := a.c;
    var pc := s.clients[c].pc;
    match a
    case RemoveTicket(_) =>
      if !pc.Removing? then None
      else Some(Goto(s, c, Unguarding(pc.s)).(tickets := s.tickets - {pc.s}))
    case ReleaseGuard(_) =>
      if !pc.Unguarding? then None
      else Some(Goto(s, c, Finishing(pc.s)))
    case Finish(_) =>
      if !pc.Finishing? then None
      else Some(Goto(s, c, Closed))
  }

  /** An error return (timeout, poll error, I/O error, also inside the cleanup), and the
      death of the process: its handles are closed and its files stay. */
  function LossStep(s: State, a: Action): Option<State>
    requires (a.Fail? || a.Crash?) && a.c in s.clients
  {
    var c := a.c;
    var pc := s.clients[c].pc;
    match a
    case Fail(_) =>
      if Unregistered(pc) || pc.Cleaning? || pc.Removing? then Some(Goto(s, c, Closed))
      else if Registered(pc) then Some(Goto(s, c, Cleaning(pc.s)))
      else None
    case Crash(_) =>
      if pc.Closed? then None else Some(Goto(s, c, Closed))
  }

  /** One step of client `a.c`. */
  function ClientStep(s: State, a: Action): Option<State>
    requires !ProcessAction(a)
  {
    if a.c !in s.clients then None
    else if LeaseAction(a) then LeaseStep(s, a)
    else if DrawAction(a) then DrawStep(s, a)
    else if FileAction(a) then FileStep(s, a)
    else if ScanAction(a) then ScanStep(s, a)
    else if MarkAction(a) then MarkStep(s, a)
    else if HoldAction(a) then HoldStep(s, a)
    else if CleanAction(a) then CleanStep(s, a)
    else LossStep(s, a)
  }

  function Step(s: State, a: Action): Option<State> {
    if ProcessAction(a) then ProcessStep(s, a) else ClientStep(s, a)
  }

  ghost predicate Next(s: State, t: State) { exists a :: Step(s, a) == Some(t) }

  /** A run: any number of participants, any interleaving, a crash at any step. */
  ghost predicate NextAt(states: seq<State>, i: nat)
    requires 0 < i < |states|
  {
    Next(states[i - 1], states[i])
  }

  ghost predicate Run(states: seq<State>) {
    && |states| > 0
    && states[0] == INITIAL
    && forall i :: 0 < i < |states| ==> NextAt(states, i)
  }
}
