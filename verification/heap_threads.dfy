/** The true account of the heap under any interleaving of any number of threads: what the
    micro-steps of HeapLock leave and return is exact for the blocks of HeapAccounting. */
module HeapThreads {
  import opened Heap
  import opened Acc = HeapAccounting
  import opened Lock = HeapLock

  /** The critical section in which a thread performs `op`. */
  function SectionOf(w: World, op: Op): Section
    requires Matched(w, op)
  {
    match op
    case Alloc(_, size, ok) => Allocate(size, ok)
    case Dealloc(b) => Free(w.blocks[b])
    case Realloc(b, _, size, ok) => Resize(w.blocks[b], size, ok)
    case SnapshotOp => ReadSnapshot
    case BeginOp(_) => BeginPhase
    case FinishOp(_) => FinishPhase
    case DropOp(_) => DropPhase
  }

  /** The sections logged by state `i` of the threads' run perform `ops`, whose account is `ws`. */
  ghost predicate Accounts(states: seq<Lock.State>, i: nat, ws: seq<World>, ops: seq<Op>) {
    && Lock.Run(states) && i < |states| && Acc.Run(ws, ops)
    && Performs(states[i].log, ws, ops)
  }

  ghost predicate Performs(log: seq<Section>, ws: seq<World>, ops: seq<Op>)
    requires Acc.Run(ws, ops)
  {
    |log| == |ops| && forall k :: 0 <= k < |ops| ==> log[k] == SectionOf(ws[k], ops[k])
  }

  lemma SectionApplies(w: World, op: Op)
    requires w.lives != [] && Matched(w, op)
    ensures Apply(SectionOf(w, op), w.c) == Acc.Step(w, op).c
  {
  }

  lemma {:induction false} ReplayIsAccount(log: seq<Section>, ws: seq<World>, ops: seq<Op>, k: nat)
    requires Acc.Run(ws, ops) && Performs(log, ws, ops) && k <= |log|
    ensures Replay(log[..k]) == ws[k].c
  {
    if k > 0 {
      ReplayIsAccount(log, ws, ops, k - 1);
      assert log[..k][..k - 1] == log[..k - 1];
      assert ws[k - 1 + 1] == Acc.Step(ws[k - 1], ops[k - 1]);
      SectionApplies(ws[k - 1], ops[k - 1]);
    }
  }

  /** In every reachable state with the lock free: the ledger is valid exactly if every true
      total so far fits in 64 bits, and then it holds those totals; `live` is the sum of the
      outstanding blocks. */
  lemma ThreadsLedgerIsExact(states: seq<Lock.State>, i: nat, ws: seq<World>, ops: seq<Op>)
    requires Accounts(states, i, ws, ops) && !states[i].locked
    ensures var c, w := states[i].c, ws[|ops|];
      && w.lives != [] && (c.valid <==> Fits(w))
      && (c.valid ==>
        && c.live == Sum(w.blocks) && c.peak == MaxOf(w.lives) && c.requested == w.requested
        && c.allocations == w.allocations && c.reallocations == w.reallocations && c.failed == w.failed)
  {
    Serializable(states, i);
    assert states[i].log[..|ops|] == states[i].log;
    ReplayIsAccount(states[i].log, ws, ops, |ops|);
    Acc.ReachableInv(ws, ops, |ops|);
  }

  /** Every reply, also of sections that ended long ago, is the one for the account at that point. */
  lemma ReplyIsAnswer(states: seq<Lock.State>, i: nat, ws: seq<World>, ops: seq<Op>, k: nat)
    requires Accounts(states, i, ws, ops) && k < |ops|
    ensures |states[i].replies| == |ops| && states[i].replies[k] == Answer(SectionOf(ws[k], ops[k]), ws[k].c)
  {
    Serializable(states, i);
    ReplayIsAccount(states[i].log, ws, ops, k);
  }

  /** The ledger is installed from the first allocation request on. */
  lemma {:induction false} InstalledExactlyWhen(ws: seq<World>, ops: seq<Op>, i: nat)
    requires Acc.Run(ws, ops) && i <= |ops|
    ensures ws[i].c.installed <==> exists k :: 0 <= k < i && ops[k].Alloc?
  {
    if i > 0 {
      InstalledExactlyWhen(ws, ops, i - 1);
      assert ws[i - 1 + 1] == Acc.Step(ws[i - 1], ops[i - 1]);
    }
  }

  lemma {:induction false} PhaseNeedsInstalled(ws: seq<World>, ops: seq<Op>, i: nat)
    requires Acc.Run(ws, ops) && i <= |ops| && ws[i].phases != map[]
    ensures ws[i].c.installed
  {
    if i > 0 {
      assert ws[i - 1 + 1] == Acc.Step(ws[i - 1], ops[i - 1]);
      if ws[i - 1].phases != map[] { PhaseNeedsInstalled(ws, ops, i - 1); }
    }
  }

  /** A snapshot succeeds exactly after the first allocation request as long as all totals fit,
      and returns the true totals at its place in the order of the lock. */
  lemma SnapshotIsExact(states: seq<Lock.State>, i: nat, ws: seq<World>, ops: seq<Op>, k: nat)
    requires Accounts(states, i, ws, ops) && k < |ops| && ops[k] == SnapshotOp
    ensures |states[i].replies| == |ops| && states[i].replies[k].Taken? && ws[k].lives != []
    ensures var r, w := states[i].replies[k].snapshot, ws[k];
      && (r == Err(NotInstalled) <==> forall m :: 0 <= m < k ==> !ops[m].Alloc?)
      && (r.Ok? <==> r != Err(NotInstalled) && Fits(w))
      && (r.Ok? ==> r.value == Snapshot(Sum(w.blocks), MaxOf(w.lives), w.requested, w.allocations, w.reallocations, w.failed))
  {
    ReplyIsAnswer(states, i, ws, ops, k);
    InstalledExactlyWhen(ws, ops, k);
    Acc.ReachableInv(ws, ops, k);
  }

  /** A begin succeeds exactly after the first allocation request, as long as all totals fit and
      no phase is active, and then starts from the true totals; it is refused as already active
      exactly while another phase is. */
  lemma BeginsAlone(states: seq<Lock.State>, i: nat, ws: seq<World>, ops: seq<Op>, k: nat)
    requires Accounts(states, i, ws, ops) && k < |ops| && ops[k].BeginOp?
    ensures |states[i].replies| == |ops| && states[i].replies[k].Began? && ws[k].lives != []
    ensures var r, w := states[i].replies[k].entry, ws[k];
      && (r == Err(NotInstalled) <==> forall m :: 0 <= m < k ==> !ops[m].Alloc?)
      && (r == Err(PhaseAlreadyActive) <==> w.phases != map[] && Fits(w))
      && (r.Ok? <==> r != Err(NotInstalled) && Fits(w) && w.phases == map[])
      && (r.Ok? ==> r.value == Snapshot(Sum(w.blocks), MaxOf(w.lives), w.requested, w.allocations, w.reallocations, w.failed))
      && (r.Ok? ==> ws[k + 1].phases == map[ops[k].h := Phase(r.value, |w.lives| - 1)])
      && (r.Err? ==> ws[k + 1] == w)
  {
    ReplyIsAnswer(states, i, ws, ops, k);
    InstalledExactlyWhen(ws, ops, k);
    Acc.ReachableInv(ws, ops, k);
    if ws[k].phases != map[] { PhaseNeedsInstalled(ws, ops, k); }
    assert ws[k + 1] == Acc.Step(ws[k], ops[k]);
  }

  /** What `finish` makes of its section's reply and the entry snapshot (lines 127-135). */
  function MeasurementOf(entry: Snapshot, closing: Closing): Measurement
    requires entry.requested <= closing.exit.requested && entry.allocations <= closing.exit.allocations
    requires entry.reallocations <= closing.exit.reallocations && entry.failed <= closing.exit.failed
  {
    var exit := closing.exit;
    Measurement(entry.live, closing.phasePeak, exit.live, exit.requested - entry.requested,
                exit.allocations - entry.allocations, exit.reallocations - entry.reallocations, exit.failed - entry.failed)
  }

  /** A finish succeeds exactly if all totals fit; its subtractions do not underflow, and its
      peak is the maximum of the true live totals since the entry, over the operations of all
      threads, bounded by entry plus traffic. */
  lemma ThreadsFinishIsExact(states: seq<Lock.State>, i: nat, ws: seq<World>, ops: seq<Op>, k: nat)
    requires Accounts(states, i, ws, ops) && k < |ops| && ops[k].FinishOp?
    ensures |states[i].replies| == |ops| && states[i].replies[k].Finished? && ws[k].lives != []
    ensures ops[k].h in ws[k].phases && ws[k].phases[ops[k].h].start < |ws[k].lives|
    ensures var r, w, p := states[i].replies[k].closing, ws[k], ws[k].phases[ops[k].h];
      && (r.Ok? <==> Fits(w))
      && (r.Ok? ==>
        && p.entry.requested <= r.value.exit.requested && p.entry.allocations <= r.value.exit.allocations
        && p.entry.reallocations <= r.value.exit.reallocations && p.entry.failed <= r.value.exit.failed
        && var m := MeasurementOf(p.entry, r.value);
           && m.entry == w.lives[p.start] && m.exit == Sum(w.blocks)
           && m.peak == MaxOf(w.lives[p.start..])
           && Max(m.entry, m.exit) <= m.peak <= m.entry + m.requested)
  {
    var h := ops[k].h;
    ReplyIsAnswer(states, i, ws, ops, k);
    Acc.ReachableInv(ws, ops, k);
    assert PhaseTracks(ws[k], ws[k].phases[h]);
    PhaseNeedsInstalled(ws, ops, k);
    if ws[k].c.valid { FinishIsExact(ws, ops, k, h); }
  }
}
