/** Which evidence has measurable times (src/inference.rs lines 316-380): what the engine records
    always has, and any evidence stays evidence when the times of a replicate are blanked. */
module ProcessTimes {
  import opened Baseline
  import opened EngineEvidence
  import opened ProcessMeans
  import opened Promotion
  import opened Records
  import opened Rounds
  import opened Sequences
  import opened Shuffle
  import opened Validator
  import opened ValidatorTheorems
  import opened Wrappers

  // ----- what the engine records -----

  lemma MeasuredGroupSpends(g: Group, m: Measured, b: nat)
    requires RecordedBy(g, m) && SoundGroup(g) && b < |g.benchmarks|
    ensures Spends(g.rounds, b, 0)
  {
    RecordedIsWellFormed(m.s, m.w, 0);
    assert m.rounds[0] == Rounds.Recorded(m.s, m.w, 0);
  }

  /** In evidence whose replicates the engine measured every benchmark took time in every process. */
  lemma MeasuredTakesTime(whole: SuiteResult, ms: seq<seq<Measured>>, k: nat, key: Key)
    requires AllRecordedBy(whole.replicates, ms) && Evidence(whole)
    requires k < |whole.replicates| && key in BenchMap(whole.groups)
    ensures TookTime(whole.replicates[k], key)
  {
    var i, b := ReplicateHolds(whole, k, key);
    assert SoundGroups(whole.replicates[k].groups) && SoundGroup(whole.replicates[k].groups[i]);
    assert GroupsRecordedBy(whole.replicates[k].groups, ms[k]);
    MeasuredGroupSpends(whole.replicates[k].groups[i], ms[k][i], b);
  }

  /** For compatible records that the engine measured the guards before the numerical interval
      always pass, so an interval is attempted for every benchmark of both. */
  lemma MeasuredRecordsAreCompared(base: SuiteResult, candidate: SuiteResult, baseResolved: bool, candidateResolved: bool,
                                   bms: seq<seq<Measured>>, cms: seq<seq<Measured>>, key: Key, b: seq<real>, c: seq<real>)
    requires Compatible(base, candidate, baseResolved, candidateResolved)
    requires AllRecordedBy(base.replicates, bms) && AllRecordedBy(candidate.replicates, cms)
    requires key in BenchMap(base.groups) && key in BenchMap(candidate.groups)
    requires AreMeans(base, key, b) && AreMeans(candidate, key, c)
    ensures GuardsPass(b, c)
  {
    OnlyZeroTimesAreRefused(base, candidate, baseResolved, candidateResolved, key, b, c);
    forall k | 0 <= k < |base.replicates| ensures TookTime(base.replicates[k], key) { MeasuredTakesTime(base, bms, k, key); }
    forall k | 0 <= k < |candidate.replicates| ensures TookTime(candidate.replicates[k], key) {
      MeasuredTakesTime(candidate, cms, k, key);
    }
  }

  // ----- evidence without times -----

  function Zeros(n: nat): (r: seq<nat>)
    ensures |r| == n && forall k :: 0 <= k < n ==> r[k] == 0
  {
    if n == 0 then [] else Zeros(n - 1) + [0]
  }

  /** The round with every compensated time set to zero. */
  function BlankRound(r: Round): Round { r.(compensated := Zeros(|r.compensated|)) }

  function BlankRounds(rounds: seq<Round>): (r: seq<Round>)
    ensures |r| == |rounds| && forall k :: 0 <= k < |r| ==> r[k] == BlankRound(rounds[k])
  {
    if rounds == [] then [] else BlankRounds(rounds[..|rounds| - 1]) + [BlankRound(rounds[|rounds| - 1])]
  }

  function BlankGroup(g: Group): Group { g.(rounds := BlankRounds(g.rounds)) }

  function BlankGroups(groups: seq<Group>): (r: seq<Group>)
    ensures |r| == |groups| && forall j :: 0 <= j < |r| ==> r[j] == BlankGroup(groups[j])
  {
    if groups == [] then [] else BlankGroups(groups[..|groups| - 1]) + [BlankGroup(groups[|groups| - 1])]
  }

  function BlankRun(run: SuiteResult): SuiteResult { run.(groups := BlankGroups(run.groups)) }

  /** The record with the compensated times of replicate `i` set to zero. */
  function Blanked(whole: SuiteResult, i: nat): SuiteResult
    requires i < |whole.replicates|
  {
    whole.(replicates := whole.replicates[i := BlankRun(whole.replicates[i])])
  }

  lemma BlankGroupIsSound(g: Group)
    requires SoundGroup(g)
    ensures SoundGroup(BlankGroup(g))
  {
    var h := BlankGroup(g);
    assert BenchNames(h) == BenchNames(g);
    forall k | 0 <= k < |h.rounds| ensures WellFormed(h.rounds[k], |h.benchmarks|) && Observed(h.rounds[k]) {
      assert WellFormed(g.rounds[k], |g.benchmarks|) && Observed(g.rounds[k]);
    }
  }

  lemma BlankRunMatches(run: SuiteResult, whole: SuiteResult)
    requires OneToOne(run.groups, whole.groups)
    ensures OneToOne(BlankRun(run).groups, whole.groups)
  {
    var f :| MatchedBy(run.groups, whole.groups, f);
    forall j | 0 <= j < |run.groups| ensures ContractOf(BlankRun(run).groups[j]) == ContractOf(run.groups[j]) {
      assert BlankRun(run).groups[j] == BlankGroup(run.groups[j]);
    }
    assert MatchedBy(BlankRun(run).groups, whole.groups, f);
  }

  lemma BlankRunIsSound(run: SuiteResult, whole: SuiteResult)
    requires whole.execution.Some? && SoundRun(run, whole)
    ensures SoundRun(BlankRun(run), whole)
  {
    BlankRunMatches(run, whole);
    assert SamePlacement(BlankRun(run), whole) by {
      assert forall j :: 0 <= j < |run.groups| ==>
        BlankRun(run).groups[j].name == run.groups[j].name && BlankRun(run).groups[j].placement == run.groups[j].placement;
    }
  }

  lemma SoundRunIgnoresReplicates(run: SuiteResult, whole: SuiteResult, other: SuiteResult)
    requires whole.execution.Some? && SoundRun(run, whole) && other == whole.(replicates := other.replicates)
    ensures SoundRun(run, other)
  {
  }

  lemma BlankedIsSound(whole: SuiteResult, i: nat)
    requires Sound(whole) && i < |whole.replicates|
    ensures Sound(Blanked(whole, i))
  {
    var t := Blanked(whole, i);
    assert forall k :: 0 <= k < |whole.replicates| ==> t.replicates[k].runId == whole.replicates[k].runId;
    assert RunIds(t.replicates) == RunIds(whole.replicates);
  }

  /** Evidence stays evidence when the times of a replicate are blanked. */
  lemma BlankedIsEvidence(whole: SuiteResult, i: nat)
    requires Evidence(whole) && i < |whole.replicates|
    ensures Evidence(Blanked(whole, i))
  {
    var t := Blanked(whole, i);
    BlankedIsSound(whole, i);
    forall k | 0 <= k < |t.replicates| ensures SoundRun(t.replicates[k], t) && SoundGroups(t.replicates[k].groups) {
      assert SoundRun(whole.replicates[k], whole) && SoundGroups(whole.replicates[k].groups);
      if k == i {
        BlankRunIsSound(whole.replicates[i], whole);
        forall j | 0 <= j < |whole.replicates[i].groups| ensures SoundGroup(t.replicates[i].groups[j]) {
          BlankGroupIsSound(whole.replicates[i].groups[j]);
        }
      }
      SoundRunIgnoresReplicates(t.replicates[k], whole, t);
    }
  }

  /** And no benchmark takes any time in it. */
  lemma BlankRunTakesNoTime(run: SuiteResult, key: Key)
    ensures !TookTime(BlankRun(run), key)
  {
    forall j: nat, b: nat, r: nat | j < |run.groups| ensures !Spends(BlankRun(run).groups[j].rounds, b, r) {
      assert BlankRun(run).groups[j] == BlankGroup(run.groups[j]);
    }
  }

  lemma BlankedStaysCompatible(base: SuiteResult, candidate: SuiteResult, baseResolved: bool, candidateResolved: bool, i: nat)
    requires Compatible(base, candidate, baseResolved, candidateResolved) && i < |base.replicates|
    ensures Compatible(Blanked(base, i), candidate, baseResolved, candidateResolved)
  {
    BlankedIsEvidence(base, i);
    var t := Blanked(base, i);
    assert forall k :: 0 <= k < |base.replicates| ==> t.replicates[k].runId == base.replicates[k].runId;
  }

  /** From any two compatible records the failing family: with the times of one baseline process
      blanked they are still compatible, and the guards refuse every benchmark of both. */
  lemma BlankedIsRefused(base: SuiteResult, candidate: SuiteResult, baseResolved: bool, candidateResolved: bool, i: nat,
                         key: Key, b: seq<real>, c: seq<real>)
    requires Compatible(base, candidate, baseResolved, candidateResolved) && i < |base.replicates|
    requires key in BenchMap(base.groups) && key in BenchMap(candidate.groups)
    requires AreMeans(Blanked(base, i), key, b) && AreMeans(candidate, key, c)
    ensures Compatible(Blanked(base, i), candidate, baseResolved, candidateResolved) && !GuardsPass(b, c)
  {
    var t := Blanked(base, i);
    BlankedStaysCompatible(base, candidate, baseResolved, candidateResolved, i);
    OnlyZeroTimesAreRefused(t, candidate, baseResolved, candidateResolved, key, b, c);
    BlankRunTakesNoTime(base.replicates[i], key);
    assert t.replicates[i] == BlankRun(base.replicates[i]);
  }

  // ----- a record of that kind -----

  /** Two rounds of one benchmark that took no time. */
  function EmptyGroup(): Group {
    var round := Round(1, [0], [0], [0], Some(true), Some(0));
    Group("g", Some(Config(2, 2, false, 1, 1, false)), [Bench("b", "", 1.0, 0.0, 2)], [], 2, [round, round], false, None, "")
  }

  function EmptyPlan(): Plans.Plan { Plans.Plan(Plans.Confirm, 3, Some(2), 5.0, 0.95, Some("w"), None, 1, 0) }

  function EmptyExecution(): Execution { Execution(PROTOCOL, EmptyPlan(), seq(64, _ => '0'), true, "") }

  function EmptyRun(id: string, runs: seq<SuiteResult>): SuiteResult {
    SuiteResult(id, Some(EmptyExecution()), [EmptyGroup()], runs, false, false, Some(Testbed("", "", "")),
                Some(Placement(UniformHardware, "")))
  }

  function EmptyRuns(): (runs: seq<SuiteResult>)
    ensures |runs| == 3 && forall k :: 0 <= k < 3 ==> runs[k] == EmptyRun(runs[k].runId, [])
  {
    [EmptyRun("1", []), EmptyRun("2", []), EmptyRun("3", [])]
  }

  function EmptyRecord(): SuiteResult { EmptyRun("", EmptyRuns()) }

  lemma EmptyGroupIsSound()
    ensures SoundGroup(EmptyGroup())
  {
    var g := EmptyGroup();
    assert BenchNames(g) == ["b"] && Elements(BenchNames(g)) == {"b"};
    assert Range(1) == [0];
    assert forall k :: 0 <= k < |g.rounds| ==> WellFormed(g.rounds[k], 1);
  }

  lemma EmptyRunIsSound(id: string, whole: SuiteResult)
    requires whole == EmptyRecord()
    ensures SoundRun(EmptyRun(id, []), whole) && SoundGroups(EmptyRun(id, []).groups)
  {
    EmptyGroupIsSound();
    assert MatchedBy([EmptyGroup()], whole.groups, [0]);
  }

  lemma EmptyRecordIsSound()
    ensures Sound(EmptyRecord())
  {
    var whole := EmptyRecord();
    assert "w"[0] == 'w' && Plans.Valid(EmptyPlan());
    assert BenchKeys(whole.groups) == [("g", "b")];
    assert RunIds(whole.replicates) == ["1", "2", "3"];
  }

  lemma PartsMakeEvidence(whole: SuiteResult)
    requires Sound(whole)
    requires forall k :: 0 <= k < |whole.replicates| ==> SoundRun(whole.replicates[k], whole) && SoundGroups(whole.replicates[k].groups)
    ensures Evidence(whole)
  {
  }

  lemma EmptyRecordIsEvidence()
    ensures Evidence(EmptyRecord())
  {
    var whole := EmptyRecord();
    EmptyRecordIsSound();
    forall k | 0 <= k < |whole.replicates|
      ensures SoundRun(whole.replicates[k], whole) && SoundGroups(whole.replicates[k].groups)
    {
      EmptyRunIsSound(whole.replicates[k].runId, whole);
    }
    PartsMakeEvidence(whole);
  }

  lemma EmptyRecordHolds()
    ensures Key("g", "b") in BenchMap(EmptyRecord().groups)
  {
    var groups := EmptyRecord().groups;
    assert KeyOf(groups[0], 0) == Key("g", "b");
    assert Holds(groups[0], |groups[0].benchmarks|, Key("g", "b"));
    BenchMapKeys(groups, Key("g", "b"));
  }

  lemma EmptyRunTakesNoTime(id: string, key: Key)
    ensures !TookTime(EmptyRun(id, []), key)
  {
    forall b: nat, r: nat ensures !Spends(EmptyGroup().rounds, b, r) {}
  }

  /** A record that passes every test and in which no benchmark of any process took time. */
  lemma EvidenceMayTakeNoTime() returns (whole: SuiteResult)
    ensures Evidence(whole) && Key("g", "b") in BenchMap(whole.groups)
    ensures forall k, key :: 0 <= k < |whole.replicates| ==> !TookTime(whole.replicates[k], key)
  {
    whole := EmptyRecord();
    EmptyRecordIsEvidence();
    EmptyRecordHolds();
    forall k, key | 0 <= k < |whole.replicates| ensures !TookTime(whole.replicates[k], key) {
      EmptyRunTakesNoTime(whole.replicates[k].runId, key);
    }
  }
}
