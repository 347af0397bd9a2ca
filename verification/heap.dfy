/** The process-wide heap ledger (src/heap.rs): its fields, updated in place under the
    lock, against functions on their values. */
module Heap {

  const U64_MAX: nat := 0xFFFF_FFFF_FFFF_FFFF

  /** The values of the ledger's atomic fields. */
  datatype Counters = Counters(
    installed: bool, valid: bool, phaseActive: bool,
    live: nat, peak: nat, phasePeak: nat,
    requested: nat, allocations: nat, reallocations: nat, failed: nat)

  const ZERO: Counters := Counters(false, true, false, 0, 0, 0, 0, 0, 0, 0)

  datatype HeapError = NotInstalled | PhaseAlreadyActive | CounterOverflow
  datatype Result<+T> = Ok(value: T) | Err(error: HeapError)

  datatype Snapshot = Snapshot(live: nat, peak: nat, requested: nat, allocations: nat, reallocations: nat, failed: nat)

  datatype Measurement = Measurement(
    entry: nat, peak: nat, exit: nat, requested: nat, allocations: nat, reallocations: nat, failed: nat)

  function Max(a: nat, b: nat): nat { if a >= b then a else b }

  // ----- the operations on values -----

  /** `transition` (lines 231-251): checked subtraction, then checked addition. */
  function Transition(c: Counters, old': nat, new': nat): Counters {
    if c.live < old' || c.live - old' + new' > U64_MAX then c.(valid := false)
    else
      var next := c.live - old' + new';
      c.(live := next, peak := Max(c.peak, next),
         phasePeak := if c.phaseActive then Max(c.phasePeak, next) else c.phasePeak)
  }

  function AddRequested(c: Counters, n: nat): Counters {
    if c.requested + n <= U64_MAX then c.(requested := c.requested + n) else c.(valid := false)
  }

  function CountAllocation(c: Counters): Counters {
    if c.allocations + 1 <= U64_MAX then c.(allocations := c.allocations + 1) else c.(valid := false)
  }

  function CountReallocation(c: Counters): Counters {
    if c.reallocations + 1 <= U64_MAX then c.(reallocations := c.reallocations + 1) else c.(valid := false)
  }

  function CountFailure(c: Counters): Counters {
    if c.failed + 1 <= U64_MAX then c.(failed := c.failed + 1) else c.(valid := false)
  }

  function Allocated(c: Counters, size: nat, success: bool): Counters {
    var d := c.(installed := true);
    if success then CountAllocation(AddRequested(Transition(d, 0, size), size)) else CountFailure(d)
  }

  function Reallocated(c: Counters, old': nat, new': nat, success: bool): Counters {
    if success then CountReallocation(AddRequested(Transition(c, old', new'), new')) else CountFailure(c)
  }

  function TakeSnapshot(c: Counters): Result<Snapshot> {
    if !c.installed then Err(NotInstalled)
    else if !c.valid then Err(CounterOverflow)
    else Ok(Snapshot(c.live, c.peak, c.requested, c.allocations, c.reallocations, c.failed))
  }

  /** `HeapPhase::begin` (lines 107-120): the ledger afterwards; it succeeds when `CanBegin`. */
  predicate CanBegin(c: Counters) { c.installed && c.valid && !c.phaseActive }

  function Begin(c: Counters): Counters {
    if CanBegin(c) then c.(phasePeak := c.live, phaseActive := true) else c
  }

  function EndPhase(c: Counters): Counters { c.(phaseActive := false) }

  // ----- the ledger in place -----

  /** `Ledger` with the guard held: every method runs between `lock` and the guard's drop. */
  class Ledger {
    var installed: bool
    var valid: bool
    var phaseActive: bool
    var live: nat
    var peak: nat
    var phasePeak: nat
    var requested: nat
    var allocations: nat
    var reallocations: nat
    var failed: nat

    ghost function Value(): Counters
      reads this
    {
      Counters(installed, valid, phaseActive, live, peak, phasePeak, requested, allocations, reallocations, failed)
    }

    constructor ()
      ensures Value() == ZERO
    {
      installed, valid, phaseActive := false, true, false;
      live, peak, phasePeak, requested, allocations, reallocations, failed := 0, 0, 0, 0, 0, 0, 0;
    }

    /** `add`: the new value of a field; overflow leaves it and invalidates the ledger. */
    method Add(field: nat, n: nat) returns (value: nat)
      modifies `valid
      ensures value == if field + n <= U64_MAX then field + n else field
      ensures valid == (old(valid) && field + n <= U64_MAX)
    {
      value := field;
      if field + n <= U64_MAX {
        value := field + n;
      } else {
        valid := false;
      }
    }

    method DoTransition(old': nat, new': nat)
      modifies this
      ensures Value() == Transition(old(Value()), old', new')
    {
      if live >= old' && live - old' + new' <= U64_MAX {
        var next := live - old' + new';
        live := next;
        peak := if peak >= next then peak else next;
        if phaseActive {
          phasePeak := if phasePeak >= next then phasePeak else next;
        }
      } else {
        valid := false;
      }
    }

    method DoAllocated(size: nat, success: bool)
      modifies this
      ensures Value() == Allocated(old(Value()), size, success)
    {
      installed := true;
      if success {
        DoTransition(0, size);
        requested := Add(requested, size);
        allocations := Add(allocations, 1);
      } else {
        failed := Add(failed, 1);
      }
    }

    method DoReallocated(old': nat, new': nat, success: bool)
      modifies this
      ensures Value() == Reallocated(old(Value()), old', new', success)
    {
      if success {
        DoTransition(old', new');
        requested := Add(requested, new');
        reallocations := Add(reallocations, 1);
      } else {
        failed := Add(failed, 1);
      }
    }

    method DoSnapshot() returns (r: Result<Snapshot>)
      ensures r == TakeSnapshot(Value())
    {
      if !installed { return Err(NotInstalled); }
      if !valid { return Err(CounterOverflow); }
      return Ok(Snapshot(live, peak, requested, allocations, reallocations, failed));
    }

    method BeginPhase() returns (entry: Result<Snapshot>)
      modifies this
      ensures Value() == Begin(old(Value()))
      ensures entry.Ok? <==> old(CanBegin(Value()))
      ensures entry.Ok? ==> entry == TakeSnapshot(old(Value()))
      ensures entry == Err(PhaseAlreadyActive) <==> old(installed && valid && phaseActive)
    {
      entry := DoSnapshot();
      if entry.Err? { return; }
      if phaseActive { return Err(PhaseAlreadyActive); }
      phasePeak := entry.value.live;
      phaseActive := true;
    }

    /** `HeapPhase::finish` (lines 122-136). The subtractions must not underflow. */
    method FinishPhase(entry: Snapshot) returns (m: Result<Measurement>)
      requires TakeSnapshot(Value()).Ok? ==>
        && entry.requested <= requested && entry.allocations <= allocations
        && entry.reallocations <= reallocations && entry.failed <= failed
      modifies this
      ensures Value() == EndPhase(old(Value()))
      ensures m.Ok? <==> TakeSnapshot(old(Value())).Ok?
      ensures m.Ok? ==> m.value == Measurement(entry.live, phasePeak, live, requested - entry.requested,
        allocations - entry.allocations, reallocations - entry.reallocations, failed - entry.failed)
    {
      phaseActive := false;
      var exit := DoSnapshot();
      if exit.Err? { return Err(exit.error); }
      m := Ok(Measurement(entry.live, phasePeak, exit.value.live, exit.value.requested - entry.requested,
                          exit.value.allocations - entry.allocations,
                          exit.value.reallocations - entry.reallocations, exit.value.failed - entry.failed));
    }
  }
}
