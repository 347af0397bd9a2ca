/** The per-process means behind a comparison (src/inference.rs lines 316-380): which records
    have them, and when they pass the guards before the numerical interval. */
module ProcessMeans {
  import opened Baseline
  import Enumeration
  import opened Promotion
  import opened Records
  import opened Rounds
  import opened Sequences
  import opened ValidatorTheorems
  import opened Wrappers

  predicate FirstBench(g: Group, name: string, b: nat)
    requires b < |g.benchmarks|
  {
    g.benchmarks[b].name == name && forall i :: 0 <= i < b ==> g.benchmarks[i].name != name
  }

  /** Benchmark `b` has a per-iteration time in every round, and there is a round. */
  predicate Readable(rounds: seq<Round>, b: nat) {
    rounds != [] && forall k :: 0 <= k < |rounds| ==> rounds[k].iterations >= 1 && b < |rounds[k].compensated|
  }

  /** The lookups end at benchmark `b` of group `i`. */
  predicate FoundAt(run: SuiteResult, key: Key, i: nat, b: nat) {
    && i < |run.groups| && FirstNamed(run.groups, key.group, i)
    && b < |run.groups[i].benchmarks| && FirstBench(run.groups[i], key.name, b)
  }

  /** `mean` is the mean per-iteration time of benchmark `b`. */
  predicate ColumnMean(rounds: seq<Round>, b: nat, mean: real) {
    Readable(rounds, b) && mean * |rounds| as real == Total(PerIteration(rounds, b))
  }

  ghost predicate IsMean(run: SuiteResult, key: Key, mean: real) {
    exists i: nat, b: nat :: FoundAt(run, key, i, b) && ColumnMean(run.groups[i].rounds, b, mean)
  }

  ghost predicate Measurable(run: SuiteResult, key: Key) {
    exists i: nat, b: nat :: FoundAt(run, key, i, b) && Readable(run.groups[i].rounds, b)
  }

  lemma FoundOnce(run: SuiteResult, key: Key, i: nat, b: nat, j: nat, c: nat)
    requires FoundAt(run, key, i, b) && FoundAt(run, key, j, c)
    ensures i == j && b == c
  {
  }

  method FindBench(g: Group, name: string) returns (found: Option<nat>)
    ensures found.Some? ==> found.value < |g.benchmarks| && FirstBench(g, name, found.value)
    ensures found.None? ==> forall b :: 0 <= b < |g.benchmarks| ==> g.benchmarks[b].name != name
  {
    for b := 0 to |g.benchmarks|
      invariant forall i :: 0 <= i < b ==> g.benchmarks[i].name != name
    {
      if g.benchmarks[b].name == name { return Some(b); }
    }
    return None;
  }

  /** The mean of one benchmark over the rounds of one process. */
  method MeanOver(rounds: seq<Round>, b: nat) returns (mean: Option<real>)
    ensures mean.Some? <==> Readable(rounds, b)
    ensures mean.Some? ==> ColumnMean(rounds, b, mean.value)
  {
    var values: seq<real> := [];
    for k := 0 to |rounds|
      invariant forall j :: 0 <= j < k ==> rounds[j].iterations >= 1 && b < |rounds[j].compensated|
      invariant |values| == k && forall j :: 0 <= j < k ==> values[j] == TimePer(rounds[j], b)
    {
      if rounds[k].iterations == 0 || b >= |rounds[k].compensated| { return None; }
      values := values + [TimePer(rounds[k], b)];
    }
    assert values == PerIteration(rounds, b);
    if values == [] { return None; }
    var m := MeanOf(values);
    return Some(m);
  }

  method Find(run: SuiteResult, key: Key) returns (found: Option<(nat, nat)>)
    ensures found.Some? ==> FoundAt(run, key, found.value.0, found.value.1)
    ensures found.None? ==> forall i: nat, b: nat :: !FoundAt(run, key, i, b)
  {
    var i := FindGroup(run.groups, key.group);
    if i.None? { return None; }
    var place := i.value;
    var b := FindBench(run.groups[place], key.name);
    if b.None? {
      assert forall j: nat, c: nat :: FoundAt(run, key, j, c) ==> j == place;
      return None;
    }
    return Some((place, b.value));
  }

  method MeanIn(run: SuiteResult, key: Key) returns (mean: Option<real>)
    ensures mean.Some? <==> Measurable(run, key)
    ensures mean.Some? ==> IsMean(run, key, mean.value)
  {
    var found := Find(run, key);
    if found.None? { return None; }
    var (i, b) := found.value;
    mean := MeanOver(run.groups[i].rounds, b);
    forall j: nat, c: nat | FoundAt(run, key, j, c) ensures j == i && c == b { FoundOnce(run, key, i, b, j, c); }
  }

  /** `means`: one value for every process, or none at all. */
  method Means(record: SuiteResult, key: Key) returns (r: Option<seq<real>>)
    ensures r.Some? <==> forall k :: 0 <= k < |record.replicates| ==> Measurable(record.replicates[k], key)
    ensures r.Some? ==> AreMeans(record, key, r.value)
  {
    var values := [];
    for k := 0 to |record.replicates|
      invariant |values| == k && forall j :: 0 <= j < k ==> Measurable(record.replicates[j], key)
      invariant forall j :: 0 <= j < k ==> IsMean(record.replicates[j], key, values[j])
    {
      var mean := MeanIn(record.replicates[k], key);
      if mean.None? { return None; }
      values := values + [mean.value];
    }
    return Some(values);
  }

  ghost predicate AreMeans(record: SuiteResult, key: Key, values: seq<real>) {
    |values| == |record.replicates| && forall k :: 0 <= k < |values| ==> IsMean(record.replicates[k], key, values[k])
  }

  // ----- evidence has means -----

  /** A one-to-one matching leaves no group over. */
  lemma MatchingIsOnto(a: seq<Group>, b: seq<Group>, f: seq<nat>, j: nat) returns (i: nat)
    requires MatchedBy(a, b, f) && j < |b|
    ensures i < |a| && f[i] == j
  {
    ElementsCount(f);
    SubsetsCount(Elements(f), Enumeration.Indices(|b|));
    assert j in Elements(f);
    i :| 0 <= i < |f| && f[i] == j;
  }

  lemma MatchedNamesDiffer(a: seq<Group>, b: seq<Group>, f: seq<nat>)
    requires MatchedBy(a, b, f) && Distinct(GroupNames(b))
    ensures Distinct(GroupNames(a))
  {
    forall i, j | 0 <= i < j < |a| ensures GroupNames(a)[i] != GroupNames(a)[j] {
      var k, l := if f[i] < f[j] then f[i] else f[j], if f[i] < f[j] then f[j] else f[i];
      assert GroupNames(b)[k] != GroupNames(b)[l];
      assert ContractOf(a[i]).name == ContractOf(b[f[i]]).name && ContractOf(a[j]).name == ContractOf(b[f[j]]).name;
    }
  }

  /** The benchmarks of a record, as every replicate has them. */
  lemma ReplicateHolds(whole: SuiteResult, k: nat, key: Key) returns (i: nat, b: nat)
    requires Evidence(whole) && k < |whole.replicates| && key in BenchMap(whole.groups)
    ensures FoundAt(whole.replicates[k], key, i, b)
  {
    var run := whole.replicates[k];
    assert SoundRun(run, whole);
    var f :| MatchedBy(run.groups, whole.groups, f);
    BenchMapKeys(whole.groups, key);
    var j :| 0 <= j < |whole.groups| && Holds(whole.groups[j], |whole.groups[j].benchmarks|, key);
    b :| 0 <= b < |whole.groups[j].benchmarks| && KeyOf(whole.groups[j], b) == key;
    i := MatchingIsOnto(run.groups, whole.groups, f, j);
    SameContractSameNames(run.groups[i], whole.groups[j]);
    assert ContractOf(run.groups[i]).name == ContractOf(whole.groups[j]).name;
    assert BenchNames(run.groups[i])[b] == BenchNames(whole.groups[j])[b];
    MatchedNamesDiffer(run.groups, whole.groups, f);
    forall l | 0 <= l < i ensures run.groups[l].name != key.group { assert GroupNames(run.groups)[l] != GroupNames(run.groups)[i]; }
    KeysDifferInGroup(whole.groups, j);
    forall l | 0 <= l < b ensures run.groups[i].benchmarks[l].name != key.name {
      assert BenchNames(run.groups[i])[l] != BenchNames(run.groups[i])[b];
    }
  }

  /** In evidence every benchmark of the record has a mean in every process. */
  lemma EvidenceIsMeasurable(whole: SuiteResult, k: nat, key: Key)
    requires Evidence(whole) && k < |whole.replicates| && key in BenchMap(whole.groups)
    ensures Measurable(whole.replicates[k], key)
  {
    var i, b := ReplicateHolds(whole, k, key);
    var g := whole.replicates[k].groups[i];
    assert SoundGroups(whole.replicates[k].groups) && SoundGroup(g);
    assert Readable(g.rounds, b);
  }

  // ----- the guards of the interval -----

  /** `independent` goes on to the numbers (lines 323-331). */
  ghost predicate GuardsPass(b: seq<real>, c: seq<real>) {
    && |b| >= 3 && |c| >= 3
    && (forall k :: 0 <= k < |b| ==> b[k] > 0.0) && (forall k :: 0 <= k < |c| ==> c[k] > 0.0)
  }

  /** The counts, and the pass over both lists. */
  method PassesGuards(b: seq<real>, c: seq<real>) returns (ok: bool)
    ensures ok <==> GuardsPass(b, c)
  {
    if |b| < 3 || |c| < 3 { return false; }
    var both := b + c;
    for k := 0 to |both|
      invariant forall i :: 0 <= i < k ==> both[i] > 0.0
    {
      if both[k] <= 0.0 { return false; }
    }
    assert forall k :: 0 <= k < |b| ==> both[k] == b[k];
    assert forall k :: 0 <= k < |c| ==> both[|b| + k] == c[k];
    return true;
  }

  /** The benchmark took measurable time in some round of the process. */
  ghost predicate TookTime(run: SuiteResult, key: Key) {
    exists i: nat, b: nat, r: nat :: FoundAt(run, key, i, b) && Spends(run.groups[i].rounds, b, r)
  }

  predicate Spends(rounds: seq<Round>, b: nat, r: nat) {
    r < |rounds| && b < |rounds[r].compensated| && rounds[r].compensated[b] >= 1
  }

  lemma {:induction false} TotalSign(values: seq<real>)
    requires forall k :: 0 <= k < |values| ==> values[k] >= 0.0
    ensures Total(values) >= 0.0 && (Total(values) > 0.0 <==> exists k :: 0 <= k < |values| && values[k] > 0.0)
    decreases |values|
  {
    if values != [] {
      var front := values[..|values| - 1];
      TotalSign(front);
      assert forall k :: 0 <= k < |front| ==> values[k] == front[k];
    }
  }

  lemma QuotientSign(a: nat, n: nat)
    requires n >= 1
    ensures a as real / n as real >= 0.0 && (a as real / n as real > 0.0 <==> a >= 1)
  {
  }

  lemma ProductSign(mean: real, n: real)
    requires n > 0.0
    ensures mean > 0.0 <==> mean * n > 0.0
  {
  }

  lemma ColumnMeanSign(rounds: seq<Round>, b: nat, mean: real)
    requires ColumnMean(rounds, b, mean)
    ensures mean > 0.0 <==> exists r: nat :: Spends(rounds, b, r)
  {
    var values := PerIteration(rounds, b);
    forall k | 0 <= k < |values| ensures values[k] >= 0.0 && (values[k] > 0.0 <==> Spends(rounds, b, k)) {
      QuotientSign(rounds[k].compensated[b], rounds[k].iterations);
    }
    TotalSign(values);
    ProductSign(mean, |rounds| as real);
  }

  /** A process mean is positive exactly if the benchmark took time in some round. */
  lemma MeanIsPositiveExactlyWhen(run: SuiteResult, key: Key, mean: real)
    requires IsMean(run, key, mean)
    ensures mean > 0.0 <==> TookTime(run, key)
  {
    var i: nat, b: nat :| FoundAt(run, key, i, b) && ColumnMean(run.groups[i].rounds, b, mean);
    ColumnMeanSign(run.groups[i].rounds, b, mean);
    if TookTime(run, key) {
      var j: nat, c: nat, r: nat :| FoundAt(run, key, j, c) && Spends(run.groups[j].rounds, c, r);
      FoundOnce(run, key, i, b, j, c);
    }
  }

  /** For compatible records and a benchmark of both, the means exist on both sides, and the
      guards before the numerical interval fail exactly if in some process the benchmark
      took no time in any round. */
  lemma OnlyZeroTimesAreRefused(base: SuiteResult, candidate: SuiteResult, baseResolved: bool, candidateResolved: bool,
                                key: Key, b: seq<real>, c: seq<real>)
    requires Compatible(base, candidate, baseResolved, candidateResolved)
    requires key in BenchMap(base.groups) && key in BenchMap(candidate.groups)
    ensures forall k :: 0 <= k < |base.replicates| ==> Measurable(base.replicates[k], key)
    ensures forall k :: 0 <= k < |candidate.replicates| ==> Measurable(candidate.replicates[k], key)
    ensures AreMeans(base, key, b) && AreMeans(candidate, key, c) ==>
      (GuardsPass(b, c) <==>
        && (forall k :: 0 <= k < |base.replicates| ==> TookTime(base.replicates[k], key))
        && (forall k :: 0 <= k < |candidate.replicates| ==> TookTime(candidate.replicates[k], key)))
  {
    forall k | 0 <= k < |base.replicates| ensures Measurable(base.replicates[k], key) { EvidenceIsMeasurable(base, k, key); }
    forall k | 0 <= k < |candidate.replicates| ensures Measurable(candidate.replicates[k], key) {
      EvidenceIsMeasurable(candidate, k, key);
    }
    if AreMeans(base, key, b) && AreMeans(candidate, key, c) {
      forall k | 0 <= k < |b| ensures b[k] > 0.0 <==> TookTime(base.replicates[k], key) {
        MeanIsPositiveExactlyWhen(base.replicates[k], key, b[k]);
      }
      forall k | 0 <= k < |c| ensures c[k] > 0.0 <==> TookTime(candidate.replicates[k], key) {
        MeanIsPositiveExactlyWhen(candidate.replicates[k], key, c[k]);
      }
    }
  }
}
