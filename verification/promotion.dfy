/** Compatibility of two records and what a promotion rests on (src/inference.rs lines 219-248,
    src/baseline.rs lines 192-377). */
module Promotion {
  import opened Baseline
  import opened Records
  import opened Validator
  import opened ValidatorTheorems
  import opened Wrappers

  /** The two records are separate evidence about the same workload on the same machine.
      The flags say that every process interval of the record could be computed. */
  ghost predicate Compatible(base: SuiteResult, candidate: SuiteResult, baseResolved: bool, candidateResolved: bool) {
    && Evidence(base) && baseResolved && Evidence(candidate) && candidateResolved
    && (forall i, j :: 0 <= i < |base.replicates| && 0 <= j < |candidate.replicates| ==>
          base.replicates[i].runId != candidate.replicates[j].runId)
    && base.testbed == candidate.testbed && SamePlacement(base, candidate)
    && OneToOne(base.groups, candidate.groups)
    && var b, c := base.execution.value, candidate.execution.value;
    && b.protocol == c.protocol && b.plan.workloadId == c.plan.workloadId && b.plan.scope == c.plan.scope && b.timer == c.timer
  }

  predicate SameInputs(b: Execution, c: Execution) {
    && b.protocol == c.protocol && b.plan.workloadId == c.plan.workloadId && b.plan.scope == c.plan.scope
    && b.timer == c.timer
  }

  /** Some process measurement is used on both sides. */
  method Reuses(base: SuiteResult, candidate: SuiteResult) returns (reused: bool)
    ensures reused <==> exists i, j ::
      0 <= i < |base.replicates| && 0 <= j < |candidate.replicates| && base.replicates[i].runId == candidate.replicates[j].runId
  {
    var ids := set i | 0 <= i < |base.replicates| :: base.replicates[i].runId;
    reused := exists j :: 0 <= j < |candidate.replicates| && candidate.replicates[j].runId in ids;
  }

  method ConfirmationIssues(record: SuiteResult, resolved: bool) returns (clean: bool)
    ensures clean <==> Evidence(record) && resolved
  {
    var found := FindIssues(record);
    SilentExactlyOnEvidence(record);
    clean := found == NO_ISSUES && resolved;
  }

  method CompatibilityIssues(base: SuiteResult, candidate: SuiteResult, baseResolved: bool, candidateResolved: bool)
    returns (clean: bool)
    ensures clean <==> Compatible(base, candidate, baseResolved, candidateResolved)
  {
    var own := ConfirmationIssues(base, baseResolved);
    var other := ConfirmationIssues(candidate, candidateResolved);
    var reused := Reuses(base, candidate);
    var cpu := CheckCpuCompatibility(base, candidate);
    var machine := base.testbed == candidate.testbed && cpu;
    var workload := Signature(base.groups) == Signature(candidate.groups);
    var execution := base.execution.Some? && candidate.execution.Some?
                     && SameInputs(base.execution.value, candidate.execution.value);
    clean := own && other && !reused && machine && workload && execution;
    if other { SignatureMatchesExactlyWhen(base.groups, candidate.groups); }
  }

  method AssessBaseline(baseline: SuiteResult, current: SuiteResult, margin: real, baseResolved: bool, currentResolved: bool,
                        interval: Key -> Option<Interval>)
    returns (a: Assessment, clean: bool)
    requires 0.0 <= margin < 100.0 && SamePlacement(baseline, current)
    requires forall key :: interval(key).Some? ==> interval(key).value.lower <= interval(key).value.upper
    ensures clean <==> Compatible(baseline, current, baseResolved, currentResolved)
    ensures Assessed(a, BenchMap(baseline.groups), BenchMap(current.groups), margin, clean, interval)
  {
    clean := CompatibilityIssues(baseline, current, baseResolved, currentResolved);
    a := Assess(baseline.groups, current.groups, margin, clean, interval);
  }

  /** Every baseline benchmark is matched or missing, every current one matched or new, in
      whatever order the maps were visited. */
  lemma CountsAddUp(a: Assessment, base: map<Key, Bench>, curr: map<Key, Bench>, margin: real, clean: bool,
                    interval: Key -> Option<Interval>)
    requires Assessed(a, base, curr, margin, clean, interval)
    ensures a.regressions + a.improvements + a.level + |a.missing| == |base|
    ensures a.regressions + a.improvements + a.level + |a.fresh'| == |curr|
  {
    ListsCount(Baseline.Keys(a.deltas), base.Keys * curr.Keys);
    ListsCount(a.missing, base.Keys - curr.Keys);
    ListsCount(a.fresh', curr.Keys - base.Keys);
    Partition(base.Keys, curr.Keys);
    Partition(curr.Keys, base.Keys);
    assert curr.Keys * base.Keys == base.Keys * curr.Keys;
  }

  lemma Partition<T>(a: set<T>, b: set<T>)
    ensures |a * b| + |a - b| == |a|
  {
    assert a == a * b + (a - b);
  }

  /** A promotable comparison is backed by evidence on both sides, and every benchmark of the
      baseline is in the current record with a confirmed upper bound within the margin. */
  lemma PromotionIsBacked(baseline: SuiteResult, current: SuiteResult, a: Assessment, margin: real, clean: bool,
                          baseResolved: bool, currentResolved: bool, interval: Key -> Option<Interval>, i: nat, b: nat)
    requires clean <==> Compatible(baseline, current, baseResolved, currentResolved)
    requires Assessed(a, BenchMap(baseline.groups), BenchMap(current.groups), margin, clean, interval)
    requires a.promotable && i < |baseline.groups| && b < |baseline.groups[i].benchmarks|
    ensures Evidence(baseline) && Evidence(current)
    ensures var key := KeyOf(baseline.groups[i], b);
      && interval(key).Some? && interval(key).value.upper <= margin
      && exists j :: 0 <= j < |current.groups| && Holds(current.groups[j], |current.groups[j].benchmarks|, key)
  {
    var key := KeyOf(baseline.groups[i], b);
    assert Holds(baseline.groups[i], |baseline.groups[i].benchmarks|, key);
    BenchMapKeys(baseline.groups, key);
    BenchMapKeys(current.groups, key);
  }
}
