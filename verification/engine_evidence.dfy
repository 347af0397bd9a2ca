/** What the engine records against what the validator accepts, for one confirmed group: the
    measurement loop, the pair loops and every test of a group together. */
module EngineEvidence {
  import opened Enumeration
  import opened Pairs
  import opened Records
  import opened Rounds
  import opened Sequences
  import opened Validator
  import opened ValidatorTheorems
  import opened Wrappers

  /** The measurement of one confirmed group: its settings, what the loop observed, which
      rounds it kept, and which pairs could be analysed. */
  datatype Measured = Measured(config: Config, asked: Option<nat>, s: Sampling, w: World, rounds: seq<Round>,
                               baseline: nat, available: (nat, nat) -> bool, pairs: seq<(nat, nat)>)

  /** `g` is what the engine records of that measurement. */
  ghost predicate RecordedBy(g: Group, m: Measured) {
    && Fair(m.s) && Confirming(m.config, m.asked).Some? && m.baseline < m.s.n == |g.benchmarks|
    && Kept(Confirming(m.config, m.asked).value, m.s, m.w, m.rounds)
    && RecordOf(g, Confirming(m.config, m.asked).value, m.rounds)
    && Emitted(m.s.n, m.baseline, g.baselineOnly, m.available, m.pairs)
    && (forall k :: 0 <= k < |m.pairs| ==> m.pairs[k].0 < m.s.n && m.pairs[k].1 < m.s.n)
    && g.analyses == Named(BenchNames(g), m.pairs)
  }

  /** The wall clock never cut the loop, the benchmark names differ, every paired analysis could
      be computed and every round was cleanly observed. */
  ghost predicate Undisturbed(g: Group, m: Measured)
    requires RecordedBy(g, m)
  {
    && NeverCut(g.config.value, m.w)
    && Distinct(BenchNames(g))
    && (forall i: nat, j: nat :: Visits(m.s.n, m.baseline, g.baselineOnly, i, j) ==> m.available(i, j))
    && (forall k :: 0 <= k < |m.rounds| ==> Observed(m.rounds[k]))
  }

  /** No test of a confirmed group fails exactly if it was measured undisturbed. Nothing else
      that happens during the measurement can matter. */
  lemma ConfirmedGroupIsSoundExactlyWhen(g: Group, m: Measured)
    requires RecordedBy(g, m)
    ensures GroupFlaws(g) == {} <==> Undisturbed(g, m)
  {
    GroupFlawsEmpty(g);
    ConfirmingRunIsAccepted(m.config, m.asked, m.s, m.w, m.rounds, g);
    AcceptsExactlyInventories(BenchNames(g), g.baselineOnly, g.analyses);
    AcceptedExactlyWhen(BenchNames(g), m.baseline, g.baselineOnly, m.available, m.pairs);
    assert !RoundsFlaw(g);
    if !Unfinished(g.config.value, g.completed, |g.rounds|) { assert !MeansFlaw(g); }
  }

  /** Every group of every replicate was recorded by the engine. */
  ghost predicate AllRecordedBy(runs: seq<SuiteResult>, ms: seq<seq<Measured>>) {
    && |ms| == |runs|
    && forall i :: 0 <= i < |runs| ==> GroupsRecordedBy(runs[i].groups, ms[i])
  }

  ghost predicate GroupsRecordedBy(groups: seq<Group>, ms: seq<Measured>) {
    |ms| == |groups| && forall j :: 0 <= j < |groups| ==> RecordedBy(groups[j], ms[j])
  }

  ghost predicate AllUndisturbed(runs: seq<SuiteResult>, ms: seq<seq<Measured>>)
    requires AllRecordedBy(runs, ms)
  {
    forall i, j :: 0 <= i < |runs| && 0 <= j < |runs[i].groups| ==> Undisturbed(runs[i].groups[j], ms[i][j])
  }

  lemma RecordedGroupsAreSound(groups: seq<Group>, ms: seq<Measured>)
    requires GroupsRecordedBy(groups, ms)
    ensures SoundGroups(groups) <==> forall j :: 0 <= j < |groups| ==> Undisturbed(groups[j], ms[j])
  {
    forall j | 0 <= j < |groups| ensures SoundGroup(groups[j]) <==> Undisturbed(groups[j], ms[j]) {
      GroupFlawsEmpty(groups[j]);
      ConfirmedGroupIsSoundExactlyWhen(groups[j], ms[j]);
    }
  }

  /** The validator has no issue with a record whose replicates the engine measured exactly if
      the record and its replicates agree as they must and every group of every replicate was
      measured undisturbed. */
  lemma MeasuredRecordIsEvidenceExactlyWhen(whole: SuiteResult, ms: seq<seq<Measured>>)
    requires AllRecordedBy(whole.replicates, ms)
    ensures Flaws(whole) == NO_ISSUES <==>
      Sound(whole) && SoundRuns(whole.replicates, whole) && AllUndisturbed(whole.replicates, ms)
  {
    SilentExactlyOnEvidence(whole);
    forall i | 0 <= i < |whole.replicates|
      ensures SoundGroups(whole.replicates[i].groups) <==>
        forall j :: 0 <= j < |whole.replicates[i].groups| ==> Undisturbed(whole.replicates[i].groups[j], ms[i][j])
    {
      RecordedGroupsAreSound(whole.replicates[i].groups, ms[i]);
    }
  }
}
