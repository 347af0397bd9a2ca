/** The ledger against the true account: the outstanding blocks, the history of live totals
    and unbounded sums. The allocator's callers free what they allocated (the contract of
    `GlobalAlloc`); nothing is assumed about sizes. */
module HeapAccounting {
  import opened Heap

  type Block = nat
  type Handle = nat

  datatype Op =
    | Alloc(b: Block, size: nat, ok: bool)
    | Dealloc(b: Block)
    | Realloc(b: Block, to: Block, size: nat, ok: bool)
    | SnapshotOp
    | BeginOp(h: Handle)
    | FinishOp(h: Handle)
    | DropOp(h: Handle)

  /** A phase handle that is still active: the snapshot it holds, and when it began. */
  datatype Phase = Phase(entry: Snapshot, start: nat)

  /** `lives` holds the true live total after every operation so far. */
  datatype World = World(
    c: Counters,
    blocks: map<Block, nat>, lives: seq<nat>,
    requested: nat, allocations: nat, reallocations: nat, failed: nat,
    phases: map<Handle, Phase>)

  // ----- sums and maxima -----

  ghost function Sum(m: map<Block, nat>): nat
    decreases |m|
  {
    if m == map[] then 0 else
      var k :| k in m;
      m[k] + Sum(m - {k})
  }

  lemma {:induction false} SumRemove(m: map<Block, nat>, b: Block)
    requires b in m
    ensures Sum(m) == m[b] + Sum(m - {b})
    decreases |m|
  {
    var k :| k in m && Sum(m) == m[k] + Sum(m - {k});
    if k != b {
      SumRemove(m - {k}, b);
      SumRemove(m - {b}, k);
      assert m - {k} - {b} == m - {b} - {k};
    }
  }

  lemma SumInsert(m: map<Block, nat>, b: Block, size: nat)
    requires b !in m
    ensures Sum(m[b := size]) == Sum(m) + size
  {
    SumRemove(m[b := size], b);
    assert m[b := size] - {b} == m;
  }

  function MaxOf(xs: seq<nat>): nat
    requires xs != []
  {
    if |xs| == 1 then xs[0] else Max(MaxOf(xs[..|xs| - 1]), xs[|xs| - 1])
  }

  lemma MaxAppend(xs: seq<nat>, x: nat)
    requires xs != []
    ensures MaxOf(xs + [x]) == Max(MaxOf(xs), x)
  {
    assert (xs + [x])[..|xs|] == xs;
  }

  lemma {:induction false} MaxIsMaximum(xs: seq<nat>)
    requires xs != []
    ensures MaxOf(xs) in xs && forall i :: 0 <= i < |xs| ==> xs[i] <= MaxOf(xs)
  {
    if |xs| > 1 {
      MaxIsMaximum(xs[..|xs| - 1]);
    }
  }

  // ----- runs -----

  ghost const START: World := World(ZERO, map[], [0], 0, 0, 0, 0, map[])

  /** What the caller of the operation guarantees. */
  predicate Matched(w: World, op: Op) {
    match op
    case Alloc(b, _, ok) => ok ==> b !in w.blocks
    case Dealloc(b) => b in w.blocks
    case Realloc(b, to, _, ok) => b in w.blocks && (ok ==> to == b || to !in w.blocks)
    case SnapshotOp => true
    case BeginOp(h) => h !in w.phases
    case FinishOp(h) => h in w.phases
    case DropOp(h) => h in w.phases
  }

  /** The account after the blocks became `blocks`. */
  ghost function Note(w: World, blocks: map<Block, nat>): World {
    w.(blocks := blocks, lives := w.lives + [Sum(blocks)])
  }

  ghost function Step(w: World, op: Op): World
    requires w.lives != [] && Matched(w, op)
  {
    match op
    case Alloc(b, size, ok) =>
      if ok then Note(w, w.blocks[b := size])
                 .(c := Allocated(w.c, size, true), requested := w.requested + size, allocations := w.allocations + 1)
      else w.(c := Allocated(w.c, size, false), failed := w.failed + 1)
    case Dealloc(b) =>
      Note(w, w.blocks - {b}).(c := Transition(w.c, w.blocks[b], 0))
    case Realloc(b, to, size, ok) =>
      if ok then Note(w, (w.blocks - {b})[to := size])
                 .(c := Reallocated(w.c, w.blocks[b], size, true),
                   requested := w.requested + size, reallocations := w.reallocations + 1)
      else w.(c := Reallocated(w.c, w.blocks[b], size, false), failed := w.failed + 1)
    case SnapshotOp => w
    case BeginOp(h) =>
      if CanBegin(w.c)
      then w.(c := Begin(w.c), phases := w.phases[h := Phase(TakeSnapshot(w.c).value, |w.lives| - 1)])
      else w
    case FinishOp(h) => w.(c := EndPhase(w.c), phases := w.phases - {h})
    case DropOp(h) => w.(c := EndPhase(w.c), phases := w.phases - {h})
  }

  ghost predicate Run(ws: seq<World>, ops: seq<Op>) {
    && |ws| == |ops| + 1
    && ws[0] == START
    && forall i {:trigger ops[i]} :: 0 <= i < |ops| ==>
         ws[i].lives != [] && Matched(ws[i], ops[i]) && ws[i + 1] == Step(ws[i], ops[i])
  }

  // ----- the ledger tracks the true account -----

  /** Every true total fits in 64 bits. */
  predicate Fits(w: World)
    requires w.lives != []
  {
    && MaxOf(w.lives) <= U64_MAX && w.requested <= U64_MAX
    && w.allocations <= U64_MAX && w.reallocations <= U64_MAX && w.failed <= U64_MAX
  }

  ghost predicate Tracks(w: World) {
    && w.lives != [] && w.lives[|w.lives| - 1] == Sum(w.blocks)
    && (w.c.valid <==> Fits(w))
    && (w.c.valid ==>
      && w.c.live == Sum(w.blocks) && w.c.peak == MaxOf(w.lives) && w.c.requested == w.requested
      && w.c.allocations == w.allocations && w.c.reallocations == w.reallocations && w.c.failed == w.failed)
  }

  /** The entry snapshot is a lower bound, the phase peak is the maximum since the entry, and
      no live total exceeds the entry by more than what was requested since. */
  ghost predicate PhaseTracks(w: World, p: Phase) {
    && p.start < |w.lives|
    && (w.c.valid ==>
      && p.entry.live == w.lives[p.start] && p.entry.requested <= w.requested
      && p.entry.allocations <= w.allocations && p.entry.reallocations <= w.reallocations && p.entry.failed <= w.failed
      && w.c.phasePeak == MaxOf(w.lives[p.start..])
      && forall i :: p.start <= i < |w.lives| ==> w.lives[i] + p.entry.requested <= p.entry.live + w.requested)
  }

  ghost predicate Inv(w: World) {
    && Tracks(w)
    && (w.c.phaseActive <==> w.phases != map[])
    && (forall g, h :: g in w.phases && h in w.phases ==> g == h)
    && (forall h :: h in w.phases ==> PhaseTracks(w, w.phases[h]))
  }

  /** Only what was requested can make the live total grow. */
  lemma LiveGrowth(w: World, op: Op)
    requires Tracks(w) && Matched(w, op)
    ensures var t := Step(w, op);
      && t.lives != [] && t.lives[|t.lives| - 1] == Sum(t.blocks)
      && Sum(t.blocks) + w.requested <= Sum(w.blocks) + t.requested
      && (op.Dealloc? ==> Sum(w.blocks) == Sum(t.blocks) + w.blocks[op.b])
      && (op.Alloc? && op.ok ==> Sum(t.blocks) == Sum(w.blocks) + op.size)
      && (op.Realloc? && op.ok ==> Sum(w.blocks) >= w.blocks[op.b] && Sum(t.blocks) == Sum(w.blocks) - w.blocks[op.b] + op.size)
  {
    match op
    case Alloc(b, size, ok) => if ok { SumInsert(w.blocks, b, size); }
    case Dealloc(b) => SumRemove(w.blocks, b);
    case Realloc(b, to, size, ok) =>
      SumRemove(w.blocks, b);
      if ok { SumInsert(w.blocks - {b}, to, size); }
    case SnapshotOp =>
    case BeginOp(_) =>
    case FinishOp(_) =>
    case DropOp(_) =>
  }

  lemma StepTracks(w: World, op: Op)
    requires Tracks(w) && Matched(w, op)
    ensures Tracks(Step(w, op))
  {
    LiveGrowth(w, op);
    var t := Step(w, op);
    if t.lives != w.lives {
      MaxAppend(w.lives, Sum(t.blocks));
      MaxIsMaximum(w.lives);
    }
  }

  /** What a transition does to the phase peak while the ledger stays valid. */
  lemma TransitionPeak(c: Counters, old': nat, new': nat)
    requires Transition(c, old', new').valid
    ensures c.valid && old' <= c.live
    ensures c.phaseActive ==> Transition(c, old', new').phasePeak == Max(c.phasePeak, c.live - old' + new')
  {
  }

  lemma AllocatedPeak(c: Counters, size: nat, ok: bool)
    requires Allocated(c, size, ok).valid && c.phaseActive
    ensures c.valid
    ensures Allocated(c, size, ok).phasePeak == if ok then Max(c.phasePeak, c.live + size) else c.phasePeak
  {
    if ok { TransitionPeak(c.(installed := true), 0, size); }
  }

  lemma ReallocatedPeak(c: Counters, old': nat, new': nat, ok: bool)
    requires Reallocated(c, old', new', ok).valid && c.phaseActive
    ensures c.valid && (ok ==> old' <= c.live)
    ensures Reallocated(c, old', new', ok).phasePeak == if ok then Max(c.phasePeak, c.live - old' + new') else c.phasePeak
  {
    if ok { TransitionPeak(c, old', new'); }
  }

  /** The phase peak follows the true total; other operations leave it. */
  lemma PhasePeakFollows(w: World, op: Op)
    requires Tracks(w) && Matched(w, op) && w.c.phaseActive && Step(w, op).c.valid
    ensures var t := Step(w, op);
      && w.c.valid
      && t.c.phasePeak == if t.lives == w.lives then w.c.phasePeak else Max(w.c.phasePeak, Sum(t.blocks))
  {
    LiveGrowth(w, op);
    match op
    case Alloc(_, size, ok) => AllocatedPeak(w.c, size, ok);
    case Dealloc(b) => TransitionPeak(w.c, w.blocks[b], 0);
    case Realloc(b, _, size, ok) => ReallocatedPeak(w.c, w.blocks[b], size, ok);
    case SnapshotOp =>
    case BeginOp(_) =>
    case FinishOp(_) =>
    case DropOp(_) =>
  }

  lemma PhaseStaysTracked(w: World, op: Op, h: Handle)
    requires Inv(w) && Matched(w, op) && h in w.phases && h in Step(w, op).phases
    ensures Step(w, op).phases[h] == w.phases[h] && PhaseTracks(Step(w, op), w.phases[h])
  {
    var t, p := Step(w, op), w.phases[h];
    assert PhaseTracks(w, p);
    assert t.lives == w.lives || t.lives == w.lives + [Sum(t.blocks)];
    if t.c.valid {
      PhasePeakFollows(w, op);
      LiveGrowth(w, op);
      WindowGrows(w.lives, p.start, Sum(t.blocks));
    }
  }

  lemma WindowGrows(lives: seq<nat>, start: nat, x: nat)
    requires start < |lives|
    ensures MaxOf((lives + [x])[start..]) == Max(MaxOf(lives[start..]), x)
  {
    assert (lives + [x])[start..] == lives[start..] + [x];
    MaxAppend(lives[start..], x);
  }

  lemma NewPhaseTracks(w: World, op: Op, h: Handle)
    requires Inv(w) && Matched(w, op) && h !in w.phases && h in Step(w, op).phases
    ensures PhaseTracks(Step(w, op), Step(w, op).phases[h])
  {
    assert w.lives[|w.lives| - 1..] == [Sum(w.blocks)];
  }

  lemma OnePhaseStays(w: World, op: Op)
    requires Inv(w) && Matched(w, op)
    ensures var t := Step(w, op);
      && (t.c.phaseActive <==> t.phases != map[])
      && (forall g, h :: g in t.phases && h in t.phases ==> g == h)
  {
    match op
    case Alloc(_, _, _) =>
    case Dealloc(_) =>
    case Realloc(_, _, _, _) =>
    case SnapshotOp =>
    case BeginOp(_) =>
    case FinishOp(h) => assert w.phases - {h} == map[];
    case DropOp(h) => assert w.phases - {h} == map[];
  }

  lemma StepKeeps(w: World, op: Op)
    requires Inv(w) && Matched(w, op)
    ensures Inv(Step(w, op))
  {
    var t := Step(w, op);
    StepTracks(w, op);
    OnePhaseStays(w, op);
    forall h | h in t.phases ensures PhaseTracks(t, t.phases[h]) {
      if h in w.phases { PhaseStaysTracked(w, op, h); } else { NewPhaseTracks(w, op, h); }
    }
  }

  lemma {:induction false} ReachableInv(ws: seq<World>, ops: seq<Op>, i: nat)
    requires Run(ws, ops) && i <= |ops|
    ensures Inv(ws[i])
  {
    if i > 0 {
      ReachableInv(ws, ops, i - 1);
      assert ws[i - 1 + 1] == Step(ws[i - 1], ops[i - 1]);
      StepKeeps(ws[i - 1], ops[i - 1]);
    }
  }

  // ----- the main results -----

  /** While the ledger is valid it is exact; and it is valid exactly as long as every true
      total fits in 64 bits. */
  lemma LedgerIsExact(ws: seq<World>, ops: seq<Op>, i: nat)
    requires Run(ws, ops) && i <= |ops|
    ensures ws[i].lives != []
    ensures ws[i].c.valid <==> Fits(ws[i])
    ensures ws[i].c.valid ==>
      && ws[i].c.live == Sum(ws[i].blocks) && ws[i].c.peak == MaxOf(ws[i].lives) && ws[i].c.requested == ws[i].requested
  {
    ReachableInv(ws, ops, i);
  }

  /** Once invalid, always invalid: the totals it failed to hold never shrink. */
  lemma {:induction false} InvalidForever(ws: seq<World>, ops: seq<Op>, i: nat, j: nat)
    requires Run(ws, ops) && i <= j <= |ops| && !ws[i].c.valid
    ensures !ws[j].c.valid
  {
    if i < j {
      InvalidForever(ws, ops, i, j - 1);
      assert ws[j - 1 + 1] == Step(ws[j - 1], ops[j - 1]);
    }
  }

  /** At most one phase is active. */
  lemma OnePhase(ws: seq<World>, ops: seq<Op>, i: nat, g: Handle, h: Handle)
    requires Run(ws, ops) && i <= |ops| && g in ws[i].phases && h in ws[i].phases
    ensures g == h && ws[i].c.phaseActive
  {
    ReachableInv(ws, ops, i);
  }

  /** What `FinishPhase` returns for the active phase `p` when the ledger is valid. */
  ghost function Measured(w: World, p: Phase): Measurement
    requires w.c.valid && PhaseTracks(w, p) && Tracks(w)
  {
    Measurement(p.entry.live, w.c.phasePeak, w.c.live, w.c.requested - p.entry.requested,
                w.c.allocations - p.entry.allocations, w.c.reallocations - p.entry.reallocations,
                w.c.failed - p.entry.failed)
  }

  /** A successful finish does not underflow; its peak is exactly the maximal live total of
      the phase, lies between both ends and the entry plus the traffic, and is at most the
      lifetime peak. */
  lemma FinishIsExact(ws: seq<World>, ops: seq<Op>, i: nat, h: Handle)
    requires Run(ws, ops) && i <= |ops| && h in ws[i].phases && ws[i].c.valid
    ensures var w := ws[i];
      var p := w.phases[h];
      && p.start < |w.lives| && PhaseTracks(w, p) && Tracks(w)
      && p.entry.requested <= w.c.requested && p.entry.allocations <= w.c.allocations
      && p.entry.reallocations <= w.c.reallocations && p.entry.failed <= w.c.failed
      && var m := Measured(w, p);
         && m.entry == w.lives[p.start] && m.exit == w.lives[|w.lives| - 1]
         && m.peak == MaxOf(w.lives[p.start..])
         && Max(m.entry, m.exit) <= m.peak <= m.entry + m.requested
         && m.peak <= w.c.peak
  {
    ReachableInv(ws, ops, i);
    var w := ws[i];
    var window := w.lives[w.phases[h].start..];
    assert PhaseTracks(w, w.phases[h]);
    MaxIsMaximum(window);
    MaxIsMaximum(w.lives);
    assert window[0] == w.lives[w.phases[h].start] && window[|window| - 1] == w.lives[|w.lives| - 1];
    var k :| 0 <= k < |window| && window[k] == MaxOf(window);
    assert w.lives[w.phases[h].start + k] == window[k];
  }
}
