/** Which records count as evidence (src/inference.rs lines 55-196). The list that is sorted and
    deduplicated at the end is the set of the issues pushed. */
module Validator {
  import opened Pairs
  import opened Plans
  import opened Records
  import opened Sequences
  import opened Shuffle
  import opened Text
  import opened Wrappers

  datatype WholeIssue =
    | MissingExecution | UnknownProtocol | Exploratory | InvalidPlan | IncompleteAggregate | MissingRepetitions
    | EmptySelection | MissingTestbed | DuplicateGroup | DuplicateBenchmark | DuplicateReplicate
  datatype RunIssue = DifferentWorkload | IncompleteReplicate | DifferentExecution | DifferentMachine | UnverifiedPlacement
  datatype GroupIssue =
    MissingContract | MalformedInventory | UnfinishedPlan | NonpositiveMeans | MalformedRounds | MissingObservations

  /** The issues found in the record itself, in its replicates and in their groups. */
  datatype Issues = Issues(whole: set<WholeIssue>, runs: set<RunIssue>, groups: set<GroupIssue>)

  const NO_ISSUES := Issues({}, {}, {})

  function When<T>(condition: bool, issue: T): set<T> { if condition then {issue} else {} }

  const PROTOCOL := "zenbench-process-v1"
  const MAX_AGE := 1_000_000_000

  // ----- one group of one replicate -----

  ghost predicate WellFormed(r: Round, n: nat) {
    r.iterations >= 1 && |r.elapsed| == n && |r.compensated| == n && IsPermutation(r.order, n)
  }

  predicate Observed(r: Round) { r.clean == Some(true) && r.age.Some? && r.age.value <= MAX_AGE }

  predicate Unfinished(config: Config, completed: nat, rounds: nat) {
    config.autoRounds || config.maxRounds < 2 || completed != config.maxRounds || rounds != config.maxRounds
  }

  ghost predicate MeansFlaw(g: Group) { exists k :: 0 <= k < |g.benchmarks| && g.benchmarks[k].mean <= 0.0 }

  ghost predicate RoundsFlaw(g: Group) { exists k :: 0 <= k < |g.rounds| && !WellFormed(g.rounds[k], |g.benchmarks|) }

  ghost predicate ObservationsFlaw(g: Group) { g.benchmarks == [] || exists k :: 0 <= k < |g.rounds| && !Observed(g.rounds[k]) }

  /** The flags raised for one group, as a set. */
  function GroupFlags(inventory: bool, plan: bool, means: bool, rounds: bool, observations: bool): (r: set<GroupIssue>)
    ensures MalformedInventory in r <==> inventory
    ensures UnfinishedPlan in r <==> plan
    ensures NonpositiveMeans in r <==> means
    ensures MalformedRounds in r <==> rounds
    ensures MissingObservations in r <==> observations
    ensures MissingContract !in r
  {
    When(inventory, MalformedInventory) + When(plan, UnfinishedPlan) + When(means, NonpositiveMeans)
    + When(rounds, MalformedRounds) + When(observations, MissingObservations)
  }

  /** What is wrong with a group, in the terms of what a record has to show. */
  ghost function GroupFlaws(g: Group): set<GroupIssue> {
    if g.config.None? then {MissingContract}
    else GroupFlags(!Inventory(BenchNames(g), g.baselineOnly, g.analyses), Unfinished(g.config.value, g.completed, |g.rounds|),
                    MeansFlaw(g), RoundsFlaw(g), ObservationsFlaw(g))
  }

  predicate Smaller(a: nat, b: nat) { a < b }

  /** Sorting an execution order and comparing it with `0..n` recognizes the permutations. */
  lemma SortRecognizesPermutations(order: seq<nat>, n: nat)
    ensures Sort(order, Smaller) == Range(n) <==> IsPermutation(order, n)
  {
    if IsPermutation(order, n) {
      SortSorts(order, Smaller);
      SortedIsUnique(Sort(order, Smaller), Range(n), Smaller);
    }
  }

  method NameSet(g: Group) returns (names: set<string>)
    ensures names == Elements(BenchNames(g))
  {
    names := {};
    for j := 0 to |g.benchmarks|
      invariant names == Elements(BenchNames(g)[..j])
    {
      assert BenchNames(g)[..j + 1] == BenchNames(g)[..j] + [g.benchmarks[j].name];
      names := names + {g.benchmarks[j].name};
    }
    assert BenchNames(g)[..|g.benchmarks|] == BenchNames(g);
  }

  method PairSet(analyses: seq<Pair>) returns (pairs: set<Pair>)
    ensures pairs == Keys(analyses)
  {
    pairs := {};
    for k := 0 to |analyses|
      invariant pairs == Keys(analyses[..k])
    {
      var (a, b) := analyses[k];
      assert analyses[..k + 1] == analyses[..k] + [(a, b)];
      KeysGrow(analyses[..k], (a, b));
      pairs := pairs + {if Less(a, b) then (a, b) else (b, a)};
    }
    assert analyses[..|analyses|] == analyses;
  }

  method AnyForeign(names: set<string>, analyses: seq<Pair>) returns (foreign: bool)
    ensures !foreign <==> forall k :: 0 <= k < |analyses| ==>
      analyses[k].0 != analyses[k].1 && analyses[k].0 in names && analyses[k].1 in names
  {
    for k := 0 to |analyses|
      invariant forall i :: 0 <= i < k ==>
        analyses[i].0 != analyses[i].1 && analyses[i].0 in names && analyses[i].1 in names
    {
      var (a, b) := analyses[k];
      if a == b || a !in names || b !in names { return true; }
    }
    return false;
  }

  /** The sets of names and of normalized pairs, and the counts (lines 128-155). */
  method CheckInventory(g: Group) returns (malformed: bool)
    ensures malformed <==> !Inventory(BenchNames(g), g.baselineOnly, g.analyses)
  {
    var n := |g.benchmarks|;
    var expected := if g.baselineOnly then (if n == 0 then 0 else n - 1) else n * (if n == 0 then 0 else n - 1) / 2;
    var names := NameSet(g);
    var pairs := PairSet(g.analyses);
    var foreign := AnyForeign(names, g.analyses);
    malformed := |pairs| != expected || |g.analyses| != expected || foreign;
    AcceptsExactlyInventories(BenchNames(g), g.baselineOnly, g.analyses);
  }

  lemma KeysGrow(analyses: seq<Pair>, p: Pair)
    ensures Keys(analyses + [p]) == Keys(analyses) + {Norm(p.0, p.1)}
  {
    var more := analyses + [p];
    assert forall k :: 0 <= k < |analyses| ==> more[k] == analyses[k];
    assert more[|analyses|] == p;
  }

  method CheckMeans(g: Group) returns (flaw: bool)
    ensures flaw <==> MeansFlaw(g)
  {
    for k := 0 to |g.benchmarks|
      invariant forall i :: 0 <= i < k ==> g.benchmarks[i].mean > 0.0
    {
      if g.benchmarks[k].mean <= 0.0 { return true; }
    }
    return false;
  }

  method CheckRound(r: Round, n: nat) returns (malformed: bool)
    ensures malformed <==> !WellFormed(r, n)
  {
    SortRecognizesPermutations(r.order, n);
    malformed := r.iterations == 0 || |r.elapsed| != n || |r.compensated| != n || Sort(r.order, Smaller) != Range(n);
  }

  method CheckRounds(g: Group) returns (flaw: bool)
    ensures flaw <==> RoundsFlaw(g)
  {
    for k := 0 to |g.rounds|
      invariant forall i :: 0 <= i < k ==> WellFormed(g.rounds[i], |g.benchmarks|)
    {
      var malformed := CheckRound(g.rounds[k], |g.benchmarks|);
      if malformed { return true; }
    }
    return false;
  }

  method CheckObservations(g: Group) returns (flaw: bool)
    ensures flaw <==> ObservationsFlaw(g)
  {
    if g.benchmarks == [] { return true; }
    for k := 0 to |g.rounds|
      invariant forall i :: 0 <= i < k ==> Observed(g.rounds[i])
    {
      if !Observed(g.rounds[k]) { return true; }
    }
    return false;
  }

  /** The loop body for one group. */
  method FindGroupIssues(g: Group) returns (found: set<GroupIssue>)
    ensures found == GroupFlaws(g)
  {
    if g.config.None? { return {MissingContract}; }
    var inventory := CheckInventory(g);
    var means := CheckMeans(g);
    var rounds := CheckRounds(g);
    var observations := CheckObservations(g);
    found := GroupFlags(inventory, Unfinished(g.config.value, g.completed, |g.rounds|), means, rounds, observations);
  }

  // ----- one replicate -----

  predicate SameExecution(run: SuiteResult, e: Execution) {
    && run.execution.Some?
    && var own := run.execution.value;
    && own.protocol == e.protocol && own.plan == e.plan && own.binary == e.binary && |own.binary| == 64
    && own.timer == e.timer
  }

  function RunFlags(workload: bool, incomplete: bool, execution: bool, machine: bool, placement: bool): (r: set<RunIssue>)
    ensures DifferentWorkload in r <==> workload
    ensures IncompleteReplicate in r <==> incomplete
    ensures DifferentExecution in r <==> execution
    ensures DifferentMachine in r <==> machine
    ensures UnverifiedPlacement in r <==> placement
  {
    When(workload, DifferentWorkload) + When(incomplete, IncompleteReplicate) + When(execution, DifferentExecution)
    + When(machine, DifferentMachine) + When(placement, UnverifiedPlacement)
  }

  ghost function RunFlaws(run: SuiteResult, whole: SuiteResult): set<RunIssue>
    requires whole.execution.Some?
  {
    RunFlags(!SameWorkload(run.groups, whole.groups),
             run.incomplete || run.unreliable || run.replicates != [],
             !SameExecution(run, whole.execution.value),
             run.testbed != whole.testbed || !SamePlacement(run, whole),
             run.placement.None? || run.placement.value.status == Unrestricted)
  }

  ghost function GroupFlawsIn(groups: seq<Group>): set<GroupIssue> {
    if groups == [] then {} else GroupFlawsIn(groups[..|groups| - 1]) + GroupFlaws(groups[|groups| - 1])
  }

  /** The loop over the groups of one replicate. */
  method FindGroupIssuesIn(groups: seq<Group>) returns (found: set<GroupIssue>)
    ensures found == GroupFlawsIn(groups)
  {
    found := {};
    for i := 0 to |groups|
      invariant found == GroupFlawsIn(groups[..i])
    {
      assert groups[..i + 1][..i] == groups[..i];
      var more := FindGroupIssues(groups[i]);
      found := found + more;
    }
    assert groups[..|groups|] == groups;
  }

  /** The loop body for one replicate: the workload is compared by its serialized signature. */
  method FindRunIssues(run: SuiteResult, whole: SuiteResult) returns (found: set<RunIssue>)
    requires whole.execution.Some?
    ensures found == RunFlaws(run, whole)
  {
    SignatureExactlyWhen(run.groups, whole.groups);
    found := {};
    if Signature(run.groups) != Signature(whole.groups) { found := found + {DifferentWorkload}; }
    if run.incomplete || run.unreliable || run.replicates != [] { found := found + {IncompleteReplicate}; }
    if !SameExecution(run, whole.execution.value) { found := found + {DifferentExecution}; }
    var cpu := CheckCpuCompatibility(run, whole);
    if run.testbed != whole.testbed || !cpu { found := found + {DifferentMachine}; }
    if run.placement.None? || run.placement.value.status == Unrestricted { found := found + {UnverifiedPlacement}; }
  }

  // ----- the whole record -----

  ghost function AllRunFlaws(runs: seq<SuiteResult>, whole: SuiteResult): set<RunIssue>
    requires whole.execution.Some?
  {
    if runs == [] then {} else AllRunFlaws(runs[..|runs| - 1], whole) + RunFlaws(runs[|runs| - 1], whole)
  }

  ghost function AllGroupFlaws(runs: seq<SuiteResult>): set<GroupIssue> {
    if runs == [] then {} else AllGroupFlaws(runs[..|runs| - 1]) + GroupFlawsIn(runs[|runs| - 1].groups)
  }

  /** The pass over the benchmarks of one group, extending the keys already seen. */
  method KeepBenchmarks(g: Group, inventory: set<(string, string)>, ghost before: seq<(string, string)>)
    returns (all: set<(string, string)>, repeated: bool)
    requires forall key :: key in inventory <==> key in before
    ensures forall key :: key in all <==> key in before + GroupKeys(g)
    ensures Distinct(before + GroupKeys(g)) <==> Distinct(before) && !repeated
  {
    all, repeated := inventory, false;
    assert before + GroupKeys(g)[..0] == before;
    for j := 0 to |g.benchmarks|
      invariant forall key :: key in all <==> key in before + GroupKeys(g)[..j]
      invariant Distinct(before + GroupKeys(g)[..j]) <==> Distinct(before) && !repeated
    {
      var key := (g.name, g.benchmarks[j].name);
      assert before + GroupKeys(g)[..j + 1] == before + GroupKeys(g)[..j] + [key];
      OneMoreDistinct(before + GroupKeys(g)[..j], key);
      if key in all { repeated := true; }
      all := all + {key};
    }
    assert GroupKeys(g)[..|g.benchmarks|] == GroupKeys(g);
  }

  /** The pass over the inventory: do group names or benchmark identities repeat? */
  method FindRepeats(groups: seq<Group>) returns (names: bool, benchmarks: bool)
    ensures names <==> !Distinct(GroupNames(groups))
    ensures benchmarks <==> !Distinct(BenchKeys(groups))
  {
    names, benchmarks := false, false;
    var seen: set<string>, inventory: set<(string, string)> := {}, {};
    for i := 0 to |groups|
      invariant forall name :: name in seen <==> name in GroupNames(groups[..i])
      invariant forall key :: key in inventory <==> key in BenchKeys(groups[..i])
      invariant names <==> !Distinct(GroupNames(groups[..i]))
      invariant benchmarks <==> !Distinct(BenchKeys(groups[..i]))
    {
      assert groups[..i + 1][..i] == groups[..i];
      assert GroupNames(groups[..i + 1]) == GroupNames(groups[..i]) + [groups[i].name];
      OneMoreDistinct(GroupNames(groups[..i]), groups[i].name);
      if groups[i].name in seen { names := true; }
      seen := seen + {groups[i].name};
      var all, repeated := KeepBenchmarks(groups[i], inventory, BenchKeys(groups[..i]));
      inventory := all;
      if repeated { benchmarks := true; }
    }
    assert groups[..|groups|] == groups;
  }

  lemma OneMoreRun(runs: seq<SuiteResult>, i: nat, whole: SuiteResult)
    requires whole.execution.Some? && i < |runs|
    ensures RunIds(runs[..i + 1]) == RunIds(runs[..i]) + [runs[i].runId]
    ensures AllRunFlaws(runs[..i + 1], whole) == AllRunFlaws(runs[..i], whole) + RunFlaws(runs[i], whole)
    ensures AllGroupFlaws(runs[..i + 1]) == AllGroupFlaws(runs[..i]) + GroupFlawsIn(runs[i].groups)
  {
    assert runs[..i + 1][..i] == runs[..i];
  }

  /** The pass over the replicates. */
  method FindReplicateIssues(whole: SuiteResult)
    returns (repeated: bool, runs: set<RunIssue>, groups: set<GroupIssue>)
    requires whole.execution.Some?
    ensures repeated <==> !Distinct(RunIds(whole.replicates))
    ensures runs == AllRunFlaws(whole.replicates, whole) && groups == AllGroupFlaws(whole.replicates)
  {
    repeated, runs, groups := false, {}, {};
    var replicates, ids: set<string> := whole.replicates, {};
    for i := 0 to |replicates|
      invariant forall id :: id in ids <==> id in RunIds(replicates[..i])
      invariant repeated <==> !Distinct(RunIds(replicates[..i]))
      invariant runs == AllRunFlaws(replicates[..i], whole) && groups == AllGroupFlaws(replicates[..i])
    {
      OneMoreRun(replicates, i, whole);
      OneMoreDistinct(RunIds(replicates[..i]), replicates[i].runId);
      if replicates[i].runId in ids { repeated := true; }
      ids := ids + {replicates[i].runId};
      var own := FindRunIssues(replicates[i], whole);
      var inGroups := FindGroupIssuesIn(replicates[i].groups);
      runs, groups := runs + own, groups + inGroups;
    }
    assert replicates[..|replicates|] == replicates;
  }

  /** The flags raised for the record itself, as a set. */
  function PlanFlags(protocol: bool, mode: bool, plan: bool, incomplete: bool, repetitions: bool): (r: set<WholeIssue>)
    ensures UnknownProtocol in r <==> protocol
    ensures Exploratory in r <==> mode
    ensures InvalidPlan in r <==> plan
    ensures IncompleteAggregate in r <==> incomplete
    ensures MissingRepetitions in r <==> repetitions
    ensures r <= {UnknownProtocol, Exploratory, InvalidPlan, IncompleteAggregate, MissingRepetitions}
  {
    When(protocol, UnknownProtocol) + When(mode, Exploratory) + When(plan, InvalidPlan)
    + When(incomplete, IncompleteAggregate) + When(repetitions, MissingRepetitions)
  }

  function InventoryFlags(empty: bool, testbed: bool, names: bool, benchmarks: bool, replicate: bool): (r: set<WholeIssue>)
    ensures EmptySelection in r <==> empty
    ensures MissingTestbed in r <==> testbed
    ensures DuplicateGroup in r <==> names
    ensures DuplicateBenchmark in r <==> benchmarks
    ensures DuplicateReplicate in r <==> replicate
    ensures r <= {EmptySelection, MissingTestbed, DuplicateGroup, DuplicateBenchmark, DuplicateReplicate}
  {
    When(empty, EmptySelection) + When(testbed, MissingTestbed) + When(names, DuplicateGroup)
    + When(benchmarks, DuplicateBenchmark) + When(replicate, DuplicateReplicate)
  }

  ghost function WholeFlaws(whole: SuiteResult): set<WholeIssue> {
    if whole.execution.None? then {MissingExecution}
    else
      var e := whole.execution.value;
      PlanFlags(e.protocol != PROTOCOL, e.plan.mode == Iterate, !Valid(e.plan), whole.incomplete || whole.unreliable,
                !e.independent || |whole.replicates| != e.plan.processes || |whole.replicates| < 3)
      + InventoryFlags(whole.groups == [], whole.testbed.None?, !Distinct(GroupNames(whole.groups)),
                       !Distinct(BenchKeys(whole.groups)), !Distinct(RunIds(whole.replicates)))
  }

  /** Everything wrong with a record. */
  ghost function Flaws(whole: SuiteResult): Issues {
    if whole.execution.None? then Issues(WholeFlaws(whole), {}, {})
    else Issues(WholeFlaws(whole), AllRunFlaws(whole.replicates, whole), AllGroupFlaws(whole.replicates))
  }

  method FindIssues(whole: SuiteResult) returns (found: Issues)
    ensures found == Flaws(whole)
  {
    if whole.execution.None? { return Issues({MissingExecution}, {}, {}); }
    var e := whole.execution.value;
    var names, benchmarks := FindRepeats(whole.groups);
    var repeated, runs, groups := FindReplicateIssues(whole);
    var plan := PlanFlags(e.protocol != PROTOCOL, e.plan.mode == Iterate, !Valid(e.plan), whole.incomplete || whole.unreliable,
                          !e.independent || |whole.replicates| != e.plan.processes || |whole.replicates| < 3);
    var own := plan + InventoryFlags(whole.groups == [], whole.testbed.None?, names, benchmarks, repeated);
    return Issues(own, runs, groups);
  }
}
