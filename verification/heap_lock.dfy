/** The spin lock around the ledger (lines 180-189 and 202-206): each critical section is a
    series of single loads and stores of atomic fields, interleaved with those of any number
    of other threads, and still the ledger is what running whole operations one after the
    other, in the order of the lock, gives. */
module HeapLock {
  import opened Heap

  datatype Field = Requested | Allocations | Reallocations | Failed

  /** A load or a store; `Regs` are the thread's local variables. */
  datatype Micro =
    | SetInstalled
    | LoadLive
    | StoreLive(old': nat, new': nat)
    | LoadPeak
    | StorePeak
    | LoadActive
    | LoadPhasePeak
    | StorePhasePeak
    | LoadField(f: Field)
    | StoreField(f: Field, n: nat)
    | LoadInstalled
    | LoadValid
    | ReadLive
    | ReadPeak
    | ReadField(f: Field)
    | ReadPhasePeak
    | LoadIdle
    | StoreEntryPeak
    | StoreActive
    | ClearActive

  datatype Regs = Regs(r: nat, next: nat, ok: bool, active: bool, installed: bool, valid: bool, snap: Snapshot)

  const FRESH: Regs := Regs(0, 0, false, false, false, false, Snapshot(0, 0, 0, 0, 0, 0))

  function Get(c: Counters, f: Field): nat {
    match f
    case Requested => c.requested
    case Allocations => c.allocations
    case Reallocations => c.reallocations
    case Failed => c.failed
  }

  function Put(c: Counters, f: Field, v: nat): Counters {
    match f
    case Requested => c.(requested := v)
    case Allocations => c.(allocations := v)
    case Reallocations => c.(reallocations := v)
    case Failed => c.(failed := v)
  }

  function Read(s: Snapshot, f: Field, v: nat): Snapshot {
    match f
    case Requested => s.(requested := v)
    case Allocations => s.(allocations := v)
    case Reallocations => s.(reallocations := v)
    case Failed => s.(failed := v)
  }

  datatype Machine = Machine(c: Counters, regs: Regs)

  function Exec(m: Micro, s: Machine): Machine {
    var Machine(c, g) := s;
    match m
    case SetInstalled => Machine(c.(installed := true), g)
    case LoadLive => Machine(c, g.(r := c.live))
    case StoreLive(o, n) =>
      if g.r < o || g.r - o + n > U64_MAX then Machine(c.(valid := false), g.(ok := false))
      else Machine(c.(live := g.r - o + n), g.(next := g.r - o + n, ok := true))
    case LoadPeak => Machine(c, if g.ok then g.(r := c.peak) else g)
    case StorePeak => Machine(if g.ok then c.(peak := Max(g.r, g.next)) else c, g)
    case LoadActive => Machine(c, g.(active := g.ok && c.phaseActive))
    case LoadPhasePeak => Machine(c, if g.active then g.(r := c.phasePeak) else g)
    case StorePhasePeak => Machine(if g.active then c.(phasePeak := Max(g.r, g.next)) else c, g)
    case LoadField(f) => Machine(c, g.(r := Get(c, f)))
    case StoreField(f, n) => Machine(if g.r + n <= U64_MAX then Put(c, f, g.r + n) else c.(valid := false), g)
    case LoadInstalled => Machine(c, g.(installed := c.installed, ok := c.installed))
    case LoadValid => Machine(c, if g.ok then g.(valid := c.valid, ok := c.valid) else g)
    case ReadLive => Machine(c, if g.ok then g.(snap := g.snap.(live := c.live)) else g)
    case ReadPeak => Machine(c, if g.ok then g.(snap := g.snap.(peak := c.peak)) else g)
    case ReadField(f) => Machine(c, if g.ok then g.(snap := Read(g.snap, f, Get(c, f))) else g)
    case ReadPhasePeak => Machine(c, if g.ok then g.(r := c.phasePeak) else g)
    case LoadIdle => Machine(c, if g.ok then g.(ok := !c.phaseActive) else g)
    case StoreEntryPeak => Machine(if g.ok then c.(phasePeak := g.snap.live) else c, g)
    case StoreActive => Machine(if g.ok then c.(phaseActive := true) else c, g)
    case ClearActive => Machine(c.(phaseActive := false), g)
  }

  function ExecAll(prog: seq<Micro>, s: Machine): Machine
    decreases |prog|
  {
    if prog == [] then s else ExecAll(prog[1..], Exec(prog[0], s))
  }

  lemma {:induction false} ExecAppend(p: seq<Micro>, q: seq<Micro>, s: Machine)
    ensures ExecAll(p + q, s) == ExecAll(q, ExecAll(p, s))
    decreases |p|
  {
    if p == [] {
      assert p + q == q;
    } else {
      assert (p + q)[1..] == p[1..] + q;
      ExecAppend(p[1..], q, Exec(p[0], s));
    }
  }

  // ----- the critical sections -----

  datatype Section =
    | Allocate(size: nat, ok: bool)
    | Free(size: nat)
    | Resize(old': nat, new': nat, ok: bool)
    | ReadSnapshot
    | BeginPhase
    | FinishPhase
    | DropPhase

  /** What the section returns; a finish returns what it subtracts the entry from. */
  datatype Reply = Done | Taken(snapshot: Result<Snapshot>) | Began(entry: Result<Snapshot>) | Finished(closing: Result<Closing>)
  datatype Closing = Closing(exit: Snapshot, phasePeak: nat)

  function Transit(o: nat, n: nat): seq<Micro> {
    [LoadLive, StoreLive(o, n), LoadPeak, StorePeak] + [LoadActive, LoadPhasePeak, StorePhasePeak]
  }

  function Adding(f: Field, n: nat): seq<Micro> { [LoadField(f), StoreField(f, n)] }

  /** The loads of `snapshot` (lines 209-225); after a refusal the others do nothing. */
  function Loads(): seq<Micro> {
    [LoadInstalled, LoadValid] + ([ReadLive, ReadPeak] + (Totals(Requested, Allocations) + Totals(Reallocations, Failed)))
  }

  function Totals(f: Field, g: Field): seq<Micro> { [ReadField(f), ReadField(g)] }

  function Program(op: Section): seq<Micro> {
    match op
    case Allocate(size, ok) =>
      [SetInstalled] + (if ok then Transit(0, size) + (Adding(Requested, size) + Adding(Allocations, 1)) else Adding(Failed, 1))
    case Free(size) => Transit(size, 0)
    case Resize(o, n, ok) => if ok then Transit(o, n) + (Adding(Requested, n) + Adding(Reallocations, 1)) else Adding(Failed, 1)
    case ReadSnapshot => Loads()
    case BeginPhase => Loads() + ([LoadIdle] + [StoreEntryPeak, StoreActive])
    case FinishPhase => [ClearActive] + (Loads() + [ReadPhasePeak])
    case DropPhase => [ClearActive]
  }

  /** What the thread returns after its section, from its local variables alone. */
  function ReplyOf(op: Section, g: Regs): Reply {
    match op
    case ReadSnapshot => Taken(if g.ok then Ok(g.snap) else Err(Refusal(g)))
    case BeginPhase =>
      Began(if g.ok then Ok(g.snap) else if g.installed && g.valid then Err(PhaseAlreadyActive) else Err(Refusal(g)))
    case FinishPhase => Finished(if g.ok then Ok(Closing(g.snap, g.r)) else Err(Refusal(g)))
    case _ => Done
  }

  function Refusal(g: Regs): HeapError { if !g.installed then NotInstalled else CounterOverflow }

  // ----- the operations on values -----

  function Apply(op: Section, c: Counters): Counters {
    match op
    case Allocate(size, ok) => Allocated(c, size, ok)
    case Free(size) => Transition(c, size, 0)
    case Resize(o, n, ok) => Reallocated(c, o, n, ok)
    case ReadSnapshot => c
    case BeginPhase => Begin(c)
    case FinishPhase => EndPhase(c)
    case DropPhase => EndPhase(c)
  }

  function Answer(op: Section, c: Counters): Reply {
    match op
    case ReadSnapshot => Taken(TakeSnapshot(c))
    case BeginPhase =>
      var entry := TakeSnapshot(c);
      Began(if entry.Ok? && c.phaseActive then Err(PhaseAlreadyActive) else entry)
    case FinishPhase =>
      var exit := TakeSnapshot(c);
      Finished(if exit.Ok? then Ok(Closing(exit.value, c.phasePeak)) else Err(exit.error))
    case _ => Done
  }

  lemma ExecTwo(a: Micro, b: Micro, s: Machine)
    ensures ExecAll([a, b], s) == Exec(b, Exec(a, s))
  {
    assert [a, b][1..] == [b];
    assert ExecAll([b], Exec(a, s)) == Exec(b, Exec(a, s));
  }

  lemma AddingMeans(f: Field, n: nat, s: Machine)
    ensures ExecAll(Adding(f, n), s).c ==
      if Get(s.c, f) + n <= U64_MAX then Put(s.c, f, Get(s.c, f) + n) else s.c.(valid := false)
  {
    ExecTwo(LoadField(f), StoreField(f, n), s);
  }

  lemma TransitMeans(o: nat, n: nat, s: Machine)
    ensures ExecAll(Transit(o, n), s).c == Transition(s.c, o, n)
  {
    var s1 := Exec(LoadLive, s);
    var s2 := Exec(StoreLive(o, n), s1);
    var s4 := Exec(StorePeak, Exec(LoadPeak, s2));
    assert [LoadLive, StoreLive(o, n), LoadPeak, StorePeak] == [LoadLive, StoreLive(o, n)] + [LoadPeak, StorePeak];
    ExecAppend([LoadLive, StoreLive(o, n)], [LoadPeak, StorePeak], s);
    ExecTwo(LoadLive, StoreLive(o, n), s);
    ExecTwo(LoadPeak, StorePeak, s2);
    ExecAppend([LoadLive, StoreLive(o, n), LoadPeak, StorePeak], [LoadActive, LoadPhasePeak, StorePhasePeak], s);
    assert [LoadActive, LoadPhasePeak, StorePhasePeak][1..] == [LoadPhasePeak, StorePhasePeak];
    ExecTwo(LoadPhasePeak, StorePhasePeak, Exec(LoadActive, s4));
  }

  /** `t` is `s` after the loads of a snapshot. */
  predicate Loaded(s: Machine, t: Machine) {
    && t.c == s.c && t.regs.installed == s.c.installed && (s.c.installed ==> t.regs.valid == s.c.valid)
    && (t.regs.ok <==> TakeSnapshot(s.c).Ok?)
    && (t.regs.ok ==> t.regs.snap == TakeSnapshot(s.c).value)
  }

  lemma LoadsMean(s: Machine)
    ensures Loaded(s, ExecAll(Loads(), s))
  {
    var s2 := Exec(LoadValid, Exec(LoadInstalled, s));
    var s4 := Exec(ReadPeak, Exec(ReadLive, s2));
    var s6 := Exec(ReadField(Allocations), Exec(ReadField(Requested), s4));
    ExecAppend([LoadInstalled, LoadValid], [ReadLive, ReadPeak] + (Totals(Requested, Allocations) + Totals(Reallocations, Failed)), s);
    ExecTwo(LoadInstalled, LoadValid, s);
    ExecAppend([ReadLive, ReadPeak], Totals(Requested, Allocations) + Totals(Reallocations, Failed), s2);
    ExecTwo(ReadLive, ReadPeak, s2);
    ExecAppend(Totals(Requested, Allocations), Totals(Reallocations, Failed), s4);
    ExecTwo(ReadField(Requested), ReadField(Allocations), s4);
    ExecTwo(ReadField(Reallocations), ReadField(Failed), s6);
  }

  lemma LoadsThen(rest: seq<Micro>, s: Machine) returns (t: Machine)
    ensures Loaded(s, t) && ExecAll(Loads() + rest, s) == ExecAll(rest, t)
  {
    t := ExecAll(Loads(), s);
    LoadsMean(s);
    ExecAppend(Loads(), rest, s);
  }

  lemma ExecFirst(m: Micro, rest: seq<Micro>, s: Machine)
    ensures ExecAll([m] + rest, s) == ExecAll(rest, Exec(m, s))
  {
    assert ([m] + rest)[1..] == rest;
  }

  function AfterLoads(t: Machine): Machine { Exec(StoreActive, Exec(StoreEntryPeak, Exec(LoadIdle, t))) }

  lemma BeginRuns(s: Machine) returns (t: Machine)
    ensures Loaded(s, t) && ExecAll(Program(BeginPhase), s) == AfterLoads(t)
  {
    t := LoadsThen([LoadIdle] + [StoreEntryPeak, StoreActive], s);
    ExecFirst(LoadIdle, [StoreEntryPeak, StoreActive], t);
    ExecTwo(StoreEntryPeak, StoreActive, Exec(LoadIdle, t));
  }

  lemma BeginMeans(s: Machine)
    ensures Means(BeginPhase, s)
  {
    var t := BeginRuns(s);
    assert AfterLoads(t).c == Begin(s.c);
  }

  lemma FinishRuns(s: Machine) returns (t: Machine)
    ensures Loaded(Exec(ClearActive, s), t) && ExecAll(Program(FinishPhase), s) == Exec(ReadPhasePeak, t)
  {
    ExecFirst(ClearActive, Loads() + [ReadPhasePeak], s);
    t := LoadsThen([ReadPhasePeak], Exec(ClearActive, s));
    assert ExecAll([ReadPhasePeak], t) == Exec(ReadPhasePeak, t);
  }

  lemma FinishMeans(s: Machine)
    ensures Means(FinishPhase, s)
  {
    var t := FinishRuns(s);
  }

  /** Run from `s`, the section leaves the ledger and returns what the operation on values says. */
  predicate Means(op: Section, s: Machine) {
    var t := ExecAll(Program(op), s);
    t.c == Apply(op, s.c) && ReplyOf(op, t.regs) == Answer(op, s.c)
  }

  /** Run alone, a critical section does what the operation on values says. */
  lemma ProgramMeans(op: Section, s: Machine)
    ensures Means(op, s)
  {
    match op
    case Allocate(size, ok) =>
      var s1 := Exec(SetInstalled, s);
      var rest := if ok then Transit(0, size) + (Adding(Requested, size) + Adding(Allocations, 1)) else Adding(Failed, 1);
      assert ([SetInstalled] + rest)[1..] == rest;
      if ok { ThreePartsMean(0, size, size, Allocations, s1); } else { AddingMeans(Failed, 1, s1); }
    case Free(size) => TransitMeans(size, 0, s);
    case Resize(o, n, ok) =>
      if ok { ThreePartsMean(o, n, n, Reallocations, s); } else { AddingMeans(Failed, 1, s); }
    case ReadSnapshot => LoadsMean(s);
    case BeginPhase => BeginMeans(s);
    case FinishPhase => FinishMeans(s);
    case DropPhase =>
  }

  lemma ThreePartsMean(o: nat, n: nat, traffic: nat, f: Field, s: Machine)
    requires f == Allocations || f == Reallocations
    ensures ExecAll(Transit(o, n) + (Adding(Requested, traffic) + Adding(f, 1)), s).c ==
      var d := AddRequested(Transition(s.c, o, n), traffic);
      if f == Allocations then CountAllocation(d) else CountReallocation(d)
  {
    TransitMeans(o, n, s);
    var s1 := ExecAll(Transit(o, n), s);
    ExecAppend(Transit(o, n), Adding(Requested, traffic) + Adding(f, 1), s);
    ExecAppend(Adding(Requested, traffic), Adding(f, 1), s1);
    AddingMeans(Requested, traffic, s1);
    AddingMeans(f, 1, ExecAll(Adding(Requested, traffic), s1));
  }

  // ----- any number of threads -----

  datatype Thread = Outside | Inside(op: Section, rest: seq<Micro>, regs: Regs)

  /** `log` is history: the operations in the order in which their guards were dropped, and
      `replies` what they returned. */
  datatype State = State(locked: bool, c: Counters, threads: map<nat, Thread>, log: seq<Section>, replies: seq<Reply>)

  const INITIAL: State := State(false, ZERO, map[], [], [])

  datatype Action = Spawn(t: nat) | Spin(t: nat) | Lock(t: nat, op: Section) | Do(t: nat) | Unlock(t: nat)

  predicate Enabled(s: State, a: Action) {
    match a
    case Spawn(t) => t !in s.threads
    case Spin(t) => t in s.threads && s.threads[t].Outside? && s.locked
    case Lock(t, _) => t in s.threads && s.threads[t].Outside? && !s.locked
    case Do(t) => t in s.threads && s.threads[t].Inside? && s.threads[t].rest != []
    case Unlock(t) => t in s.threads && s.threads[t].Inside? && s.threads[t].rest == []
  }

  function Step(s: State, a: Action): State
    requires Enabled(s, a)
  {
    match a
    case Spawn(t) => s.(threads := s.threads[t := Outside])
    case Spin(_) => s
    case Lock(t, op) =>
      s.(locked := true, threads := s.threads[t := Inside(op, Program(op), FRESH)])
    case Do(t) =>
      var me := s.threads[t];
      var m := Exec(me.rest[0], Machine(s.c, me.regs));
      s.(c := m.c, threads := s.threads[t := Inside(me.op, me.rest[1..], m.regs)])
    case Unlock(t) =>
      s.(locked := false, threads := s.threads[t := Outside], log := s.log + [s.threads[t].op],
          replies := s.replies + [ReplyOf(s.threads[t].op, s.threads[t].regs)])
  }

  ghost predicate Next(s: State, t: State) { exists a :: Enabled(s, a) && Step(s, a) == t }

  ghost predicate NextAt(states: seq<State>, i: nat)
    requires 0 < i < |states|
  {
    Next(states[i - 1], states[i])
  }

  ghost predicate Run(states: seq<State>) {
    && |states| > 0 && states[0] == INITIAL
    && forall i :: 0 < i < |states| ==> NextAt(states, i)
  }

  function Replay(log: seq<Section>): Counters
    decreases |log|
  {
    if log == [] then ZERO else Apply(log[|log| - 1], Replay(log[..|log| - 1]))
  }

  /** The thread will leave the ledger and return what its operation says of the log so far. */
  ghost predicate WillMean(me: Thread, c: Counters, log: seq<Section>)
    requires me.Inside?
  {
    var t := ExecAll(me.rest, Machine(c, me.regs));
    t.c == Apply(me.op, Replay(log)) && ReplyOf(me.op, t.regs) == Answer(me.op, Replay(log))
  }

  ghost predicate Answered(log: seq<Section>, replies: seq<Reply>) {
    |replies| == |log| && forall k :: 0 <= k < |log| ==> replies[k] == Answer(log[k], Replay(log[..k]))
  }

  ghost predicate Serial(s: State) {
    && (forall t, u :: t in s.threads && u in s.threads && s.threads[t].Inside? && s.threads[u].Inside? ==> t == u)
    && (s.locked <==> exists t :: t in s.threads && s.threads[t].Inside?)
    && (!s.locked ==> s.c == Replay(s.log))
    && (forall t :: t in s.threads && s.threads[t].Inside? ==> WillMean(s.threads[t], s.c, s.log))
    && Answered(s.log, s.replies)
  }

  lemma AnsweredGrows(log: seq<Section>, replies: seq<Reply>, op: Section, r: Reply)
    requires Answered(log, replies) && r == Answer(op, Replay(log))
    ensures Answered(log + [op], replies + [r])
  {
    forall k | 0 <= k < |log + [op]| ensures (replies + [r])[k] == Answer((log + [op])[k], Replay((log + [op])[..k])) {
      assert (log + [op])[..k] == log[..k];
      assert log[..|log|] == log;
    }
  }

  lemma StepSerial(s: State, a: Action)
    requires Serial(s) && Enabled(s, a)
    ensures Serial(Step(s, a))
  {
    var t := Step(s, a);
    match a
    case Spawn(_) =>
      if s.locked {
        var i :| i in s.threads && s.threads[i].Inside?;
        assert t.threads[i].Inside?;
      }
    case Spin(_) =>
    case Lock(i, op) =>
      ProgramMeans(op, Machine(s.c, FRESH));
      assert t.threads[i].Inside?;
    case Do(i) =>
      assert t.threads[i].Inside?;
    case Unlock(i) =>
      assert t.log[..|t.log| - 1] == s.log;
      assert WillMean(s.threads[i], s.c, s.log);
      AnsweredGrows(s.log, s.replies, s.threads[i].op, ReplyOf(s.threads[i].op, s.threads[i].regs));
  }

  lemma NextSerial(s: State, t: State)
    requires Serial(s) && Next(s, t)
    ensures Serial(t)
  {
    var a :| Enabled(s, a) && Step(s, a) == t;
    StepSerial(s, a);
  }

  /** Mutual exclusion and serializability, in every reachable state of any number of
      threads: whenever the lock is free, the ledger is the log replayed, and every operation
      so far returned what it returns in that replay. */
  lemma {:induction false} Serializable(states: seq<State>, i: nat)
    requires Run(states) && i < |states|
    ensures Serial(states[i])
  {
    if i > 0 {
      Serializable(states, i - 1);
      assert NextAt(states, i);
      NextSerial(states[i - 1], states[i]);
    }
  }

  // ----- every section ends -----

  function Final(states: seq<State>): State
    requires |states| > 0
  {
    states[|states| - 1]
  }

  lemma Take(states: seq<State>, a: Action) returns (more: seq<State>)
    requires Run(states) && Enabled(Final(states), a)
    ensures Run(more) && more == states + [Step(Final(states), a)]
  {
    more := states + [Step(Final(states), a)];
    forall i | 0 < i < |more| ensures NextAt(more, i) {
      if i < |states| { assert NextAt(states, i); } else { assert Next(more[i - 1], more[i]); }
    }
  }

  /** Whoever holds the lock can always go on and gives it back after the rest of its section: one
      more operation in the log. */
  lemma {:induction false} HolderFinishes(states: seq<State>, i: nat) returns (more: seq<State>)
    requires Run(states) && i in Final(states).threads && Final(states).threads[i].Inside?
    ensures Run(more) && states <= more && |more| == |states| + |Final(states).threads[i].rest| + 1
    ensures Final(more).log == Final(states).log + [Final(states).threads[i].op]
    ensures !Final(more).locked && Final(more).threads == Final(states).threads[i := Outside]
    decreases |Final(states).threads[i].rest|
  {
    if Final(states).threads[i].rest == [] {
      more := Take(states, Unlock(i));
    } else {
      var next := Take(states, Do(i));
      more := HolderFinishes(next, i);
      assert Final(more).threads == Final(states).threads[i := Outside];
    }
  }

  lemma SectionRuns(states: seq<State>, i: nat, op: Section) returns (more: seq<State>)
    requires Run(states) && !Final(states).locked && (i in Final(states).threads ==> Final(states).threads[i].Outside?)
    ensures Run(more) && states <= more && !Final(more).locked && Final(more).log == Final(states).log + [op]
  {
    var begun := states;
    if i !in Final(states).threads { begun := Take(states, Spawn(i)); }
    begun := Take(begun, Lock(i, op));
    more := HolderFinishes(begun, i);
  }

  /** Between two moments at which the lock is free `op` was performed and nothing else. */
  ghost predicate Performed(s: State, t: State, op: Section) {
    && !t.locked && t.log == s.log + [op] && t.c == Apply(op, s.c)
    && t.replies != [] && t.replies[|t.replies| - 1] == Answer(op, s.c)
  }

  /** With the lock free, the last reply is the answer to the last operation. */
  ghost predicate Settled(s: State) {
    && s.c == Replay(s.log) && |s.replies| == |s.log|
    && (s.log != [] ==> s.replies[|s.log| - 1] == Answer(s.log[|s.log| - 1], Replay(s.log[..|s.log| - 1])))
  }

  lemma FreeIsSettled(states: seq<State>, i: nat)
    requires Run(states) && i < |states| && !states[i].locked
    ensures Settled(states[i])
  {
    Serializable(states, i);
  }

  /** From every reachable state with the lock free, any thread that is outside can perform any
      operation: the run goes on through its section to a free lock, and leaves the ledger
      and returns what the operation on values says. */
  lemma OperationRuns(states: seq<State>, i: nat, op: Section) returns (more: seq<State>)
    requires Run(states) && !Final(states).locked && (i in Final(states).threads ==> Final(states).threads[i].Outside?)
    ensures Run(more) && states <= more && Performed(Final(states), Final(more), op)
  {
    more := SectionRuns(states, i, op);
    FreeIsSettled(states, |states| - 1);
    FreeIsSettled(more, |more| - 1);
    var log := Final(more).log;
    assert log[..|log| - 1] == Final(states).log && log[|log| - 1] == op;
  }
}
