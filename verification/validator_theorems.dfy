/** What a record without issues shows. */
module ValidatorTheorems {
  import opened Pairs
  import opened Plans
  import opened PlanTheorems
  import opened Records
  import opened Sequences
  import opened Validator
  import opened Wrappers

  /** What the record itself must be. */
  ghost predicate Sound(whole: SuiteResult) {
    && whole.execution.Some?
    && var e := whole.execution.value;
    && e.protocol == "zenbench-process-v1" && e.plan.mode != Iterate && WithinLimits(e.plan)
    && e.independent
    && !whole.incomplete && !whole.unreliable
    && |whole.replicates| == e.plan.processes >= 3
    && whole.groups != [] && whole.testbed.Some?
    && Distinct(GroupNames(whole.groups)) && Distinct(BenchKeys(whole.groups)) && Distinct(RunIds(whole.replicates))
  }

  ghost predicate SoundRun(run: SuiteResult, whole: SuiteResult)
    requires whole.execution.Some?
  {
    && OneToOne(run.groups, whole.groups)
    && !run.incomplete && !run.unreliable && run.replicates == []
    && run.execution.Some?
    && var own, e := run.execution.value, whole.execution.value;
    && own.protocol == e.protocol && own.plan == e.plan && own.timer == e.timer
    && own.binary == e.binary && |own.binary| == 64
    && run.testbed == whole.testbed && SamePlacement(run, whole)
    && run.placement.Some? && run.placement.value.status != Unrestricted
  }

  /** The machine was seen to be quiet no more than a second before. */
  ghost predicate CleanlyObserved(r: Round) { r.clean == Some(true) && r.age.Some? && r.age.value <= 1_000_000_000 }

  /** A finished fixed plan, every round a complete permuted pass under clean observation. */
  ghost predicate SoundGroup(g: Group) {
    && g.config.Some? && !g.config.value.autoRounds
    && |g.rounds| == g.completed == g.config.value.maxRounds >= 2
    && g.benchmarks != []
    && (forall k :: 0 <= k < |g.benchmarks| ==> g.benchmarks[k].mean > 0.0)
    && (forall k :: 0 <= k < |g.rounds| ==> WellFormed(g.rounds[k], |g.benchmarks|) && CleanlyObserved(g.rounds[k]))
    && Inventory(BenchNames(g), g.baselineOnly, g.analyses)
  }

  ghost predicate SoundGroups(groups: seq<Group>) { forall j :: 0 <= j < |groups| ==> SoundGroup(groups[j]) }

  ghost predicate Evidence(whole: SuiteResult) {
    Sound(whole) && SoundRuns(whole.replicates, whole) && SoundGroupsOf(whole.replicates)
  }

  lemma WholeFlawsEmpty(whole: SuiteResult)
    ensures WholeFlaws(whole) == {} <==> Sound(whole)
  {
    if whole.execution.Some? { ValidIsWithinLimits(whole.execution.value.plan); }
    if whole.execution.Some? && !Sound(whole) {
      var flaws := WholeFlaws(whole);
      assert UnknownProtocol in flaws || Exploratory in flaws || InvalidPlan in flaws || IncompleteAggregate in flaws
        || MissingRepetitions in flaws || EmptySelection in flaws || MissingTestbed in flaws || DuplicateGroup in flaws
        || DuplicateBenchmark in flaws || DuplicateReplicate in flaws;
    } else if whole.execution.Some? {
      forall issue ensures issue !in WholeFlaws(whole) {
        match issue
        case MissingExecution =>
        case _ =>
      }
    }
  }

  lemma RunFlawsEmpty(run: SuiteResult, whole: SuiteResult)
    requires whole.execution.Some? && Distinct(GroupNames(whole.groups))
    ensures RunFlaws(run, whole) == {} <==> SoundRun(run, whole)
  {
    SignatureExactlyWhen(run.groups, whole.groups);
    SignatureMatchesExactlyWhen(run.groups, whole.groups);
    var flaws := RunFlaws(run, whole);
    if flaws == {} {
      assert DifferentWorkload !in flaws && IncompleteReplicate !in flaws && DifferentExecution !in flaws
        && DifferentMachine !in flaws && UnverifiedPlacement !in flaws;
    }
  }

  lemma GroupFlawsEmpty(g: Group)
    ensures GroupFlaws(g) == {} <==> SoundGroup(g)
  {
    var flaws := GroupFlaws(g);
    if flaws == {} {
      assert MissingContract !in flaws && MalformedInventory !in flaws && UnfinishedPlan !in flaws
        && NonpositiveMeans !in flaws && MalformedRounds !in flaws && MissingObservations !in flaws;
    }
  }

  lemma {:induction false} GroupFlawsInEmpty(groups: seq<Group>)
    ensures GroupFlawsIn(groups) == {} <==> SoundGroups(groups)
  {
    if groups != [] {
      var front, last := groups[..|groups| - 1], groups[|groups| - 1];
      GroupFlawsInEmpty(front);
      GroupFlawsEmpty(last);
      assert SoundGroups(groups) <==> SoundGroups(front) && SoundGroup(last) by {
        assert forall j :: 0 <= j < |front| ==> groups[j] == front[j];
      }
      assert GroupFlawsIn(groups) == {} <==> GroupFlawsIn(front) == {} && GroupFlaws(last) == {};
    }
  }

  ghost predicate SoundRuns(runs: seq<SuiteResult>, whole: SuiteResult)
    requires whole.execution.Some?
  {
    forall i :: 0 <= i < |runs| ==> SoundRun(runs[i], whole)
  }

  ghost predicate SoundGroupsOf(runs: seq<SuiteResult>) { forall i :: 0 <= i < |runs| ==> SoundGroups(runs[i].groups) }

  lemma {:induction false} AllRunFlawsEmpty(runs: seq<SuiteResult>, whole: SuiteResult)
    requires whole.execution.Some? && Distinct(GroupNames(whole.groups))
    ensures AllRunFlaws(runs, whole) == {} <==> SoundRuns(runs, whole)
    decreases |runs|
  {
    if runs != [] {
      var front, last := runs[..|runs| - 1], runs[|runs| - 1];
      AllRunFlawsEmpty(front, whole);
      RunFlawsEmpty(last, whole);
      assert SoundRuns(runs, whole) <==> SoundRuns(front, whole) && SoundRun(last, whole) by {
        assert forall i :: 0 <= i < |front| ==> runs[i] == front[i];
      }
    }
  }

  lemma {:induction false} AllGroupFlawsEmpty(runs: seq<SuiteResult>)
    ensures AllGroupFlaws(runs) == {} <==> SoundGroupsOf(runs)
    decreases |runs|
  {
    if runs != [] {
      var front, last := runs[..|runs| - 1], runs[|runs| - 1];
      AllGroupFlawsEmpty(front);
      GroupFlawsInEmpty(last.groups);
      assert SoundGroupsOf(runs) <==> SoundGroupsOf(front) && SoundGroups(last.groups) by {
        assert forall i :: 0 <= i < |front| ==> runs[i] == front[i];
      }
    }
  }

  /** The validator stays silent exactly on evidence. */
  lemma SilentExactlyOnEvidence(whole: SuiteResult)
    ensures Flaws(whole) == NO_ISSUES <==> Evidence(whole)
  {
    WholeFlawsEmpty(whole);
    if Sound(whole) {
      AllRunFlawsEmpty(whole.replicates, whole);
      AllGroupFlawsEmpty(whole.replicates);
    }
  }

  lemma {:induction false} KeysDifferInGroup(groups: seq<Group>, i: nat)
    requires i < |groups| && Distinct(BenchKeys(groups))
    ensures Distinct(BenchNames(groups[i]))
    decreases |groups|
  {
    var front, last := groups[..|groups| - 1], groups[|groups| - 1];
    var keys := BenchKeys(front) + GroupKeys(last);
    if i < |front| {
      assert forall k :: 0 <= k < |BenchKeys(front)| ==> keys[k] == BenchKeys(front)[k];
      KeysDifferInGroup(front, i);
    } else {
      assert forall k :: 0 <= k < |GroupKeys(last)| ==> keys[|BenchKeys(front)| + k] == GroupKeys(last)[k];
    }
  }

  /** In evidence every replicate ran the benchmarks of the record, under different names, and
      compared every pair of them exactly once unless it was told to compare with the
      baseline only and there are more than two. Then a benchmark is compared with each of
      the others exactly if it is in every entry. */
  lemma EvidenceCovers(whole: SuiteResult, i: nat, j: nat)
    requires Evidence(whole) && i < |whole.replicates| && j < |whole.replicates[i].groups|
    ensures var g := whole.replicates[i].groups[j];
      && Distinct(BenchNames(g))
      && (exists k :: 0 <= k < |whole.groups| && ContractOf(whole.groups[k]) == ContractOf(g))
      && (CoversOnce(BenchNames(g), g.analyses) <==> !g.baselineOnly || |g.benchmarks| <= 2)
      && (g.baselineOnly ==> forall b :: b in BenchNames(g) ==>
            (ComparedWithAll(BenchNames(g), g.analyses, b) <==> InEvery(g.analyses, b)))
  {
    var g := whole.replicates[i].groups[j];
    assert SoundRun(whole.replicates[i], whole) && SoundGroups(whole.replicates[i].groups) && SoundGroup(g);
    var f :| MatchedBy(whole.replicates[i].groups, whole.groups, f);
    KeysDifferInGroup(whole.groups, f[j]);
    SameContractSameNames(g, whole.groups[f[j]]);
    AcceptsExactlyInventories(BenchNames(g), g.baselineOnly, g.analyses);
    CoversExactlyWhen(BenchNames(g), g.baselineOnly, g.analyses);
    forall b | g.baselineOnly && b in BenchNames(g)
      ensures ComparedWithAll(BenchNames(g), g.analyses, b) <==> InEvery(g.analyses, b)
    {
      BaselineComparedExactlyWhen(BenchNames(g), g.analyses, b);
    }
  }

  lemma SameContractSameNames(g: Group, h: Group)
    requires ContractOf(g) == ContractOf(h)
    ensures BenchNames(g) == BenchNames(h)
  {
    var a, b := ContractOf(g).benchmarks, ContractOf(h).benchmarks;
    assert forall k :: 0 <= k < |g.benchmarks| ==> a[k].0 == g.benchmarks[k].name && b[k].0 == h.benchmarks[k].name;
  }
}
