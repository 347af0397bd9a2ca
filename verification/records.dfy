/** The parts of a benchmark record that the validator and the baseline assessment read
    (src/results.rs, src/inference.rs lines 55-262). */
module Records {
  import opened Pairs
  import opened Plans
  import opened Sequences
  import opened Text
  import opened Wrappers

  datatype Config = Config(minRounds: nat, maxRounds: nat, autoRounds: bool, maxTime: nat, maxWall: nat, linear: bool)

  /** One round: execution order and, by declaration order, raw and compensated times;
      `clean` and `age` are the resource observation. */
  datatype Round = Round(iterations: nat, order: seq<nat>, elapsed: seq<nat>, compensated: seq<nat>,
                         clean: Option<bool>, age: Option<nat>)

  datatype Bench = Bench(name: string, tags: string, mean: real, variance: real, count: nat)

  datatype Status = UniformHardware | EnforcedUniform | Unrestricted

  /** `boundary` stands for everything besides the status that must agree. */
  datatype Placement = Placement(status: Status, boundary: string)

  datatype Group = Group(name: string, config: Option<Config>, benchmarks: seq<Bench>, analyses: seq<Pair>,
                         completed: nat, rounds: seq<Round>, baselineOnly: bool, placement: Option<Placement>,
                         throughput: string)

  datatype Execution = Execution(protocol: string, plan: Plan, binary: string, independent: bool, timer: string)

  datatype Testbed = Testbed(cpu: string, arch: string, os: string)

  datatype SuiteResult = SuiteResult(runId: string, execution: Option<Execution>, groups: seq<Group>,
                                     replicates: seq<SuiteResult>, incomplete: bool, unreliable: bool,
                                     testbed: Option<Testbed>, placement: Option<Placement>)

  function BenchNames(g: Group): (r: seq<string>)
    ensures |r| == |g.benchmarks| && forall k :: 0 <= k < |r| ==> r[k] == g.benchmarks[k].name
  {
    seq(|g.benchmarks|, k requires 0 <= k < |g.benchmarks| => g.benchmarks[k].name)
  }

  function GroupNames(groups: seq<Group>): (r: seq<string>)
    ensures |r| == |groups| && forall k :: 0 <= k < |r| ==> r[k] == groups[k].name
  {
    seq(|groups|, k requires 0 <= k < |groups| => groups[k].name)
  }

  function RunIds(runs: seq<SuiteResult>): (r: seq<string>)
    ensures |r| == |runs| && forall k :: 0 <= k < |r| ==> r[k] == runs[k].runId
  {
    seq(|runs|, k requires 0 <= k < |runs| => runs[k].runId)
  }

  /** The identities of all benchmarks, group by group. */
  function BenchKeys(groups: seq<Group>): seq<(string, string)> {
    if groups == [] then []
    else BenchKeys(groups[..|groups| - 1]) + GroupKeys(groups[|groups| - 1])
  }

  function GroupKeys(g: Group): (r: seq<(string, string)>)
    ensures |r| == |g.benchmarks| && forall k :: 0 <= k < |r| ==> r[k] == (g.name, g.benchmarks[k].name)
  {
    seq(|g.benchmarks|, k requires 0 <= k < |g.benchmarks| => (g.name, g.benchmarks[k].name))
  }

  // ----- the workload signature (lines 198-217) -----

  datatype Contract = Contract(name: string, benchmarks: seq<(string, string)>, throughput: string, config: Option<Config>)

  function ContractOf(g: Group): Contract {
    Contract(g.name,
             seq(|g.benchmarks|, k requires 0 <= k < |g.benchmarks| => (g.benchmarks[k].name, g.benchmarks[k].tags)),
             g.throughput, g.config)
  }

  /** Two groups share a contract exactly if they agree in name, throughput and settings, and their
      benchmarks in names and tags, one by one. */
  lemma SameContractExactlyWhen(g: Group, h: Group)
    ensures ContractOf(g) == ContractOf(h) <==>
      && g.name == h.name && g.throughput == h.throughput && g.config == h.config && |g.benchmarks| == |h.benchmarks|
      && forall k :: 0 <= k < |g.benchmarks| ==>
           g.benchmarks[k].name == h.benchmarks[k].name && g.benchmarks[k].tags == h.benchmarks[k].tags
  {
    var a, b := ContractOf(g).benchmarks, ContractOf(h).benchmarks;
    assert forall k :: 0 <= k < |a| ==> a[k] == (g.benchmarks[k].name, g.benchmarks[k].tags);
    assert forall k :: 0 <= k < |b| ==> b[k] == (h.benchmarks[k].name, h.benchmarks[k].tags);
    if ContractOf(g) == ContractOf(h) { assert a == b; }
  }

  function Contracts(groups: seq<Group>): (r: seq<Contract>)
    ensures |r| == |groups| && forall k :: 0 <= k < |r| ==> r[k] == ContractOf(groups[k])
  {
    seq(|groups|, k requires 0 <= k < |groups| => ContractOf(groups[k]))
  }

  predicate NameBefore(a: Contract, b: Contract) { Less(a.name, b.name) }

  function Signature(groups: seq<Group>): seq<Contract> { Sort(Contracts(groups), NameBefore) }

  /** Equal signatures mean the same groups with the same benchmarks and settings. */
  lemma SignatureShares(a: seq<Group>, b: seq<Group>, i: nat) returns (j: nat)
    requires Signature(a) == Signature(b) && i < |a|
    ensures j < |b| && ContractOf(b[j]) == ContractOf(a[i])
  {
    assert Contracts(a)[i] in multiset(Contracts(a));
    assert multiset(Contracts(a)) == multiset(Signature(a)) == multiset(Contracts(b));
    assert Contracts(a)[i] in Contracts(b);
    j :| 0 <= j < |b| && Contracts(b)[j] == Contracts(a)[i];
  }

  /** Groups with different names have one signature however they are ordered. */
  lemma SignatureIgnoresOrder(a: seq<Group>, b: seq<Group>)
    requires multiset(Contracts(a)) == multiset(Contracts(b)) && Distinct(GroupNames(a))
    ensures Signature(a) == Signature(b)
  {
    NameBeforeIsOrder();
    SortSorts(Contracts(a), NameBefore);
    SortSorts(Contracts(b), NameBefore);
    forall x, y | x in Signature(a) && y in Signature(a) ensures x == y || NameBefore(x, y) || NameBefore(y, x) {
      assert x in multiset(Signature(a)) && y in multiset(Signature(a));
      assert x in Contracts(a) && y in Contracts(a);
      var i, j :| 0 <= i < |a| && 0 <= j < |a| && Contracts(a)[i] == x && Contracts(a)[j] == y;
      if i != j { assert GroupNames(a)[i] != GroupNames(a)[j]; }
      LessIsTotal(x.name, y.name);
    }
    SortedIsUnique(Signature(a), Signature(b), NameBefore);
  }

  lemma NameBeforeIsOrder()
    ensures WeakOrder(NameBefore)
  {
    forall a, b ensures NameBefore(a, b) ==> !NameBefore(b, a) { LessIsTotal(a.name, b.name); }
    forall a: Contract, b: Contract, c: Contract | NameBefore(c, a) ensures NameBefore(c, b) || NameBefore(b, a) {
      LessIsTransitive(c.name, a.name, b.name);
    }
  }

  // ----- what equal signatures mean -----

  /** The contracts under one group name, in the order of the record. */
  function UnderName(contracts: seq<Contract>, name: string): seq<Contract> {
    if contracts == [] then [] else OneUnderName(contracts[0], name) + UnderName(contracts[1..], name)
  }

  function OneUnderName(x: Contract, name: string): seq<Contract> { if x.name == name then [x] else [] }

  lemma UnderNameFirst(x: Contract, s: seq<Contract>, name: string)
    ensures UnderName([x] + s, name) == OneUnderName(x, name) + UnderName(s, name)
  {
    assert ([x] + s)[1..] == s;
  }

  /** Under every group name the two records list the same contracts in the same order. */
  ghost predicate SameWorkload(a: seq<Group>, b: seq<Group>) {
    forall name :: UnderName(Contracts(a), name) == UnderName(Contracts(b), name)
  }

  /** Two contracts of different names can change places. */
  lemma DifferentNamesSwap(x: Contract, y: Contract, name: string, rest: seq<Contract>)
    requires x.name != y.name
    ensures OneUnderName(y, name) + (OneUnderName(x, name) + rest) == OneUnderName(x, name) + (OneUnderName(y, name) + rest)
  {
    var one, first := OneUnderName(x, name), OneUnderName(y, name);
    assert one == [] || first == [];
    assert one == [] ==> first + (one + rest) == one + (first + rest);
    assert first == [] ==> first + (one + rest) == one + (first + rest);
  }

  lemma {:induction false} InsertKeepsLists(x: Contract, s: seq<Contract>, name: string)
    ensures UnderName(Insert(x, s, NameBefore), name) == OneUnderName(x, name) + UnderName(s, name)
    decreases |s|
  {
    if s != [] && NameBefore(s[0], x) {
      LessIsTotal(s[0].name, x.name);
      InsertKeepsLists(x, s[1..], name);
      UnderNameFirst(s[0], Insert(x, s[1..], NameBefore), name);
      DifferentNamesSwap(x, s[0], name, UnderName(s[1..], name));
    } else {
      UnderNameFirst(x, s, name);
    }
  }

  /** The sort is stable: it keeps the order under each name. */
  lemma {:induction false} SortKeepsLists(s: seq<Contract>, name: string)
    ensures UnderName(Sort(s, NameBefore), name) == UnderName(s, name)
  {
    if s != [] {
      SortKeepsLists(s[1..], name);
      InsertKeepsLists(s[0], Sort(s[1..], NameBefore), name);
    }
  }

  lemma {:induction false} UnderNameMembers(s: seq<Contract>, name: string, x: Contract)
    ensures x in UnderName(s, name) <==> x in s && x.name == name
  {
    if s != [] { UnderNameMembers(s[1..], name, x); }
  }

  lemma FirstNameIsLeast(s: seq<Contract>, t: seq<Contract>)
    requires Sorted(s, NameBefore) && t != [] && forall name :: UnderName(s, name) == UnderName(t, name)
    ensures s != [] && !Less(t[0].name, s[0].name)
  {
    UnderNameMembers(t, t[0].name, t[0]);
    UnderNameMembers(s, t[0].name, t[0]);
    assert t[0] in s;
    var k :| 0 <= k < |s| && s[k] == t[0];
    if k > 0 { assert !NameBefore(s[k], s[0]); }
    LessIsTotal(s[0].name, s[0].name);
  }

  /** Sorted lists that agree under every name are equal. */
  lemma {:induction false} SortedByLists(s: seq<Contract>, t: seq<Contract>)
    requires Sorted(s, NameBefore) && Sorted(t, NameBefore) && forall name :: UnderName(s, name) == UnderName(t, name)
    ensures s == t
    decreases |s|
  {
    if t != [] { FirstNameIsLeast(s, t); }
    if s != [] {
      FirstNameIsLeast(t, s);
      LessIsTotal(s[0].name, t[0].name);
      assert UnderName(s, s[0].name)[0] == s[0] && UnderName(t, s[0].name)[0] == t[0];
      forall name ensures UnderName(s[1..], name) == UnderName(t[1..], name) {
        assert OneUnderName(s[0], name) == OneUnderName(t[0], name);
        assert UnderName(s, name)[|OneUnderName(s[0], name)|..] == UnderName(s[1..], name);
        assert UnderName(t, name)[|OneUnderName(t[0], name)|..] == UnderName(t[1..], name);
      }
      SortedByLists(s[1..], t[1..]);
      assert s == [s[0]] + s[1..] && t == [t[0]] + t[1..];
    }
  }

  /** Equal signatures mean exactly: the same contracts in the same order under every name,
      wherever the groups stand in their records. */
  lemma SignatureExactlyWhen(a: seq<Group>, b: seq<Group>)
    ensures Signature(a) == Signature(b) <==> SameWorkload(a, b)
  {
    forall name ensures UnderName(Signature(a), name) == UnderName(Contracts(a), name) { SortKeepsLists(Contracts(a), name); }
    forall name ensures UnderName(Signature(b), name) == UnderName(Contracts(b), name) { SortKeepsLists(Contracts(b), name); }
    NameBeforeIsOrder();
    SortSorts(Contracts(a), NameBefore);
    SortSorts(Contracts(b), NameBefore);
    if SameWorkload(a, b) { SortedByLists(Signature(a), Signature(b)); }
  }

  /** `f` sends every group of `a` to a group of `b` with the same contract, none twice and
      none left over. */
  ghost predicate MatchedBy(a: seq<Group>, b: seq<Group>, f: seq<nat>) {
    && |f| == |a| == |b| && Distinct(f)
    && forall i :: 0 <= i < |f| ==> f[i] < |b| && ContractOf(b[f[i]]) == ContractOf(a[i])
  }

  ghost predicate OneToOne(a: seq<Group>, b: seq<Group>) { exists f :: MatchedBy(a, b, f) }

  function PlaceOf(x: Contract, contracts: seq<Contract>): (k: nat)
    requires x in contracts
    ensures k < |contracts| && contracts[k] == x
  {
    if contracts[0] == x then 0 else 1 + PlaceOf(x, contracts[1..])
  }

  lemma ContractsDiffer(groups: seq<Group>)
    requires Distinct(GroupNames(groups))
    ensures Distinct(Contracts(groups))
  {
    forall i, j | 0 <= i < j < |groups| ensures Contracts(groups)[i] != Contracts(groups)[j] {
      assert GroupNames(groups)[i] != GroupNames(groups)[j];
    }
  }

  lemma EqualSignaturesMatch(a: seq<Group>, b: seq<Group>)
    requires Signature(a) == Signature(b) && Distinct(GroupNames(b))
    ensures OneToOne(a, b)
  {
    var own, other := Contracts(a), Contracts(b);
    assert multiset(own) == multiset(Signature(a)) == multiset(other);
    ContractsDiffer(b);
    DistinctPermuted(other, own);
    forall i | 0 <= i < |own| ensures own[i] in other { assert own[i] in multiset(own); }
    var f := seq(|own|, i requires 0 <= i < |own| => PlaceOf(own[i], other));
    assert |own| == |multiset(own)| == |multiset(other)| == |other|;
    assert MatchedBy(a, b, f);
  }

  lemma MatchedAreEqual(a: seq<Group>, b: seq<Group>, f: seq<nat>)
    requires MatchedBy(a, b, f) && Distinct(GroupNames(b))
    ensures Signature(a) == Signature(b)
  {
    var own, other := Contracts(a), Contracts(b);
    ContractsDiffer(b);
    forall i, j | 0 <= i < j < |own| ensures own[i] != own[j] && GroupNames(a)[i] != GroupNames(a)[j] {
      var k, l := if f[i] < f[j] then f[i] else f[j], if f[i] < f[j] then f[j] else f[i];
      assert GroupNames(b)[k] != GroupNames(b)[l];
    }
    ElementsCount(own);
    ElementsCount(other);
    SubsetsCount(Elements(own), Elements(other));
    forall x ensures multiset(own)[x] == multiset(other)[x] {
      DistinctOnce(own, x);
      DistinctOnce(other, x);
      assert x in multiset(own) <==> x in Elements(own);
      assert x in multiset(other) <==> x in Elements(other);
    }
    assert multiset(own) == multiset(other);
    SignatureIgnoresOrder(a, b);
  }

  /** For a record whose group names differ, equal signatures are exactly a one-to-one matching
      of the groups by contract. */
  lemma SignatureMatchesExactlyWhen(a: seq<Group>, b: seq<Group>)
    requires Distinct(GroupNames(b))
    ensures Signature(a) == Signature(b) <==> OneToOne(a, b)
  {
    if Signature(a) == Signature(b) {
      EqualSignaturesMatch(a, b);
    } else if OneToOne(a, b) {
      var f :| MatchedBy(a, b, f);
      MatchedAreEqual(a, b, f);
    }
  }

  // ----- CPU placement (src/results.rs lines 315-344) -----

  /** `groups[j]` is the first group of its name. */
  predicate FirstNamed(groups: seq<Group>, name: string, j: nat)
    requires j < |groups|
  {
    groups[j].name == name && forall i :: 0 <= i < j ==> groups[i].name != name
  }

  /** The records ran under one placement, and so did each group and the first one of its name
      in the other record, if there is one. */
  ghost predicate SamePlacement(a: SuiteResult, b: SuiteResult) {
    && a.placement == b.placement
    && forall k, j :: 0 <= k < |a.groups| && 0 <= j < |b.groups| && FirstNamed(b.groups, a.groups[k].name, j) ==>
         a.groups[k].placement == b.groups[j].placement
  }

  method FindGroup(groups: seq<Group>, name: string) returns (found: Option<nat>)
    ensures found.Some? ==> found.value < |groups| && FirstNamed(groups, name, found.value)
    ensures found.None? ==> forall j :: 0 <= j < |groups| ==> groups[j].name != name
  {
    for j := 0 to |groups|
      invariant forall i :: 0 <= i < j ==> groups[i].name != name
    {
      if groups[j].name == name { return Some(j); }
    }
    return None;
  }

  method CheckCpuCompatibility(a: SuiteResult, b: SuiteResult) returns (ok: bool)
    ensures ok <==> SamePlacement(a, b)
  {
    if a.placement != b.placement { return false; }
    for k := 0 to |a.groups|
      invariant forall i, j :: 0 <= i < k && 0 <= j < |b.groups| && FirstNamed(b.groups, a.groups[i].name, j) ==>
        a.groups[i].placement == b.groups[j].placement
    {
      var previous := FindGroup(b.groups, a.groups[k].name);
      if previous.Some? {
        assert forall j :: 0 <= j < |b.groups| && FirstNamed(b.groups, a.groups[k].name, j) ==> j == previous.value;
        if a.groups[k].placement != b.groups[previous.value].placement { return false; }
      }
    }
    return true;
  }
}
