/** The baseline assessment (src/baseline.rs lines 192-377, src/inference.rs lines 219-262). */
module Baseline {
  import opened Records
  import opened Sequences
  import opened Wrappers

  datatype Key = Key(group: string, name: string)

  // ----- verdicts -----

  datatype Verdict = Improvement | Regression | Equivalent | NonInferior | Inconclusive

  function Classify(lower: real, upper: real, margin: real): Verdict {
    if lower > margin then Regression
    else if upper < -margin then Improvement
    else if lower >= -margin && upper <= margin then Equivalent
    else if upper <= margin then NonInferior
    else Inconclusive
  }

  predicate Passes(v: Verdict) { v == Improvement || v == Equivalent || v == NonInferior }

  /** For an interval in order a verdict passes exactly when the upper bound stays within the
      margin, and the five verdicts are told apart by where the bounds lie. */
  lemma PassesMeansWithinMargin(lower: real, upper: real, margin: real)
    requires lower <= upper && margin >= 0.0
    ensures Passes(Classify(lower, upper, margin)) <==> upper <= margin
    ensures Classify(lower, upper, margin) == Regression <==> lower > margin
    ensures Classify(lower, upper, margin) == Inconclusive <==> lower <= margin < upper
    ensures Classify(lower, upper, margin) == Improvement <==> upper < -margin
    ensures Classify(lower, upper, margin) == Equivalent <==> -margin <= lower && upper <= margin
  {
  }

  // ----- the two maps -----

  function KeyOf(g: Group, b: nat): Key
    requires b < |g.benchmarks|
  {
    Key(g.name, g.benchmarks[b].name)
  }

  function AddGroup(m: map<Key, Bench>, g: Group, n: nat): map<Key, Bench>
    requires n <= |g.benchmarks|
  {
    if n == 0 then m else AddGroup(m, g, n - 1)[KeyOf(g, n - 1) := g.benchmarks[n - 1]]
  }

  function BenchMap(groups: seq<Group>): map<Key, Bench> {
    if groups == [] then map[]
    else AddGroup(BenchMap(groups[..|groups| - 1]), groups[|groups| - 1], |groups[|groups| - 1].benchmarks|)
  }

  method BuildMap(groups: seq<Group>) returns (m: map<Key, Bench>)
    ensures m == BenchMap(groups)
  {
    m := map[];
    for i := 0 to |groups|
      invariant m == BenchMap(groups[..i])
    {
      assert groups[..i + 1][..i] == groups[..i];
      for j := 0 to |groups[i].benchmarks|
        invariant m == AddGroup(BenchMap(groups[..i]), groups[i], j)
      {
        m := m[KeyOf(groups[i], j) := groups[i].benchmarks[j]];
      }
    }
    assert groups[..|groups|] == groups;
  }

  ghost predicate Holds(g: Group, n: nat, key: Key)
    requires n <= |g.benchmarks|
  {
    exists b :: 0 <= b < n && KeyOf(g, b) == key
  }

  lemma {:induction false} AddGroupKeys(m: map<Key, Bench>, g: Group, n: nat, key: Key)
    requires n <= |g.benchmarks|
    ensures key in AddGroup(m, g, n) <==> key in m || Holds(g, n, key)
  {
    if n > 0 {
      AddGroupKeys(m, g, n - 1, key);
      assert Holds(g, n, key) <==> Holds(g, n - 1, key) || KeyOf(g, n - 1) == key;
    }
  }

  /** A key is in the map exactly when some group holds the benchmark. */
  lemma {:induction false} BenchMapKeys(groups: seq<Group>, key: Key)
    ensures key in BenchMap(groups) <==>
      exists i :: 0 <= i < |groups| && Holds(groups[i], |groups[i].benchmarks|, key)
    decreases |groups|
  {
    if groups != [] {
      var front, last := groups[..|groups| - 1], groups[|groups| - 1];
      BenchMapKeys(front, key);
      AddGroupKeys(BenchMap(front), last, |last.benchmarks|, key);
      if Holds(last, |last.benchmarks|, key) { assert groups[|groups| - 1] == last; }
      assert forall i :: 0 <= i < |front| ==> groups[i] == front[i];
    }
  }

  /** Under a key that occurs more than once the map holds the last benchmark. */
  lemma {:induction false} BenchMapHoldsLast(groups: seq<Group>, i: nat, b: nat)
    requires i < |groups| && b < |groups[i].benchmarks|
    requires forall j, c :: 0 <= j < |groups| && 0 <= c < |groups[j].benchmarks| && KeyOf(groups[j], c) == KeyOf(groups[i], b) ==>
      j < i || (j == i && c <= b)
    ensures KeyOf(groups[i], b) in BenchMap(groups) && BenchMap(groups)[KeyOf(groups[i], b)] == groups[i].benchmarks[b]
    decreases |groups|
  {
    var front, last := groups[..|groups| - 1], groups[|groups| - 1];
    if i == |front| {
      AddGroupHoldsLast(BenchMap(front), last, |last.benchmarks|, b);
    } else {
      assert forall j :: 0 <= j < |front| ==> front[j] == groups[j];
      BenchMapHoldsLast(front, i, b);
      AddGroupKeepsOthers(BenchMap(front), last, |last.benchmarks|, KeyOf(groups[i], b));
    }
  }

  lemma {:induction false} AddGroupHoldsLast(m: map<Key, Bench>, g: Group, n: nat, b: nat)
    requires b < n <= |g.benchmarks| && forall c :: b < c < n ==> KeyOf(g, c) != KeyOf(g, b)
    ensures KeyOf(g, b) in AddGroup(m, g, n) && AddGroup(m, g, n)[KeyOf(g, b)] == g.benchmarks[b]
  {
    if b < n - 1 { AddGroupHoldsLast(m, g, n - 1, b); }
  }

  lemma {:induction false} AddGroupKeepsOthers(m: map<Key, Bench>, g: Group, n: nat, key: Key)
    requires n <= |g.benchmarks| && key in m && forall c :: 0 <= c < n ==> KeyOf(g, c) != key
    ensures key in AddGroup(m, g, n) && AddGroup(m, g, n)[key] == m[key]
  {
    if n > 0 { AddGroupKeepsOthers(m, g, n - 1, key); }
  }

  // ----- one benchmark -----

  const EPSILON: real := 0.0000000000000002220446049250313080847263336181640625

  function Abs(x: real): real { if x < 0.0 then -x else x }

  function PercentChange(base: Bench, curr: Bench): real {
    if Abs(base.mean) > EPSILON then (curr.mean - base.mean) / base.mean * 100.0 else 0.0
  }

  /** `|difference| / sqrt(variance) > 2`, with both sides squared. */
  predicate Significant(base: Bench, curr: Bench) {
    if base.count >= 2 && curr.count >= 2 then
      var square := base.variance / base.count as real + curr.variance / curr.count as real;
      square > 0.0 ==> (curr.mean - base.mean) * (curr.mean - base.mean) > 4.0 * square
    else true
  }

  datatype Delta = Delta(key: Key, change: real, regressed: bool, improved: bool)

  // ----- what a comparison of two benchmarks means -----

  /** The difference of the means can be told from noise: with two samples on both sides it is more
      than two standard errors, if those are not zero; with fewer it is taken at face value. */
  ghost predicate StandsOut(base: Bench, curr: Bench) {
    base.count >= 2 && curr.count >= 2 ==>
      var spread := base.variance * curr.count as real + curr.variance * base.count as real;
      var difference := curr.mean - base.mean;
      spread <= 0.0 || difference * difference * base.count as real * curr.count as real > 4.0 * spread
  }

  /** The mean can be divided by: it is further from zero than the 64-bit floating-point epsilon. */
  ghost predicate Divisible(mean: real) {
    var epsilon := 1.0 / 4503599627370496.0;
    mean > epsilon || mean < -epsilon
  }

  /** The current mean is beyond the baseline mean by more than `margin` percent of it. */
  ghost predicate Worse(base: Bench, curr: Bench, margin: real) {
    && Divisible(base.mean) && StandsOut(base, curr)
    && if base.mean > 0.0 then curr.mean > base.mean * (1.0 + margin / 100.0) else curr.mean < base.mean * (1.0 + margin / 100.0)
  }

  /** The current mean is short of the baseline mean by more than `margin` percent of it. */
  ghost predicate Better(base: Bench, curr: Bench, margin: real) {
    && Divisible(base.mean) && StandsOut(base, curr)
    && if base.mean > 0.0 then curr.mean < base.mean * (1.0 - margin / 100.0) else curr.mean > base.mean * (1.0 - margin / 100.0)
  }

  /** `change` percent of the baseline mean is the difference of the means. */
  ghost predicate ChangeFits(change: real, base: Bench, curr: Bench) {
    if Divisible(base.mean) then change * base.mean == 100.0 * (curr.mean - base.mean) else change == 0.0
  }

  /** `d` says of benchmark `d.key` how the current measurement compares with the baseline. */
  ghost predicate Compares(d: Delta, base: Bench, curr: Bench, margin: real) {
    && ChangeFits(d.change, base, curr)
    && (d.regressed <==> Worse(base, curr, margin)) && (d.improved <==> Better(base, curr, margin))
  }

  function DeltaOf(key: Key, base: Bench, curr: Bench, margin: real): (d: Delta)
    requires margin >= 0.0
    ensures d.key == key && Compares(d, base, curr, margin)
  {
    var change := PercentChange(base, curr);
    PercentMeans(base, curr, margin);
    SignificantMeans(base, curr);
    Delta(key, change, change > margin && Significant(base, curr), change < -margin && Significant(base, curr))
  }

  lemma EpsilonMeans(mean: real)
    ensures Abs(mean) > EPSILON <==> Divisible(mean)
  {
  }

  /** A quotient is beyond a bound exactly if the dividend is beyond that many divisors. */
  lemma QuotientBeyond(a: real, b: real, bound: real)
    requires b != 0.0
    ensures b > 0.0 ==> (a / b > bound <==> a > bound * b) && (a / b < bound <==> a < bound * b)
    ensures b < 0.0 ==> (a / b > bound <==> a < bound * b) && (a / b < bound <==> a > bound * b)
  {
    var q := a / b;
    assert q * b == a;
  }

  lemma PercentMeans(base: Bench, curr: Bench, margin: real)
    requires margin >= 0.0
    ensures var change := PercentChange(base, curr);
      && ChangeFits(change, base, curr)
      && (change > margin && StandsOut(base, curr) <==> Worse(base, curr, margin))
      && (change < -margin && StandsOut(base, curr) <==> Better(base, curr, margin))
  {
    EpsilonMeans(base.mean);
    if Divisible(base.mean) {
      var difference := curr.mean - base.mean;
      QuotientBeyond(difference, base.mean, margin / 100.0);
      QuotientBeyond(difference, base.mean, -margin / 100.0);
      assert difference / base.mean * base.mean == difference;
      assert base.mean * (1.0 + margin / 100.0) == base.mean + margin / 100.0 * base.mean;
      assert base.mean * (1.0 - margin / 100.0) == base.mean + -margin / 100.0 * base.mean;
    }
  }

  lemma SignificantMeans(base: Bench, curr: Bench)
    ensures Significant(base, curr) <==> StandsOut(base, curr)
  {
    if base.count >= 2 && curr.count >= 2 {
      var m, n := base.count as real, curr.count as real;
      var square := base.variance / m + curr.variance / n;
      var difference := curr.mean - base.mean;
      assert base.variance / m * m == base.variance && curr.variance / n * n == curr.variance;
      assert square * (m * n) == base.variance * n + curr.variance * m by {
        assert base.variance / m * (m * n) == base.variance * n;
        assert curr.variance / n * (m * n) == curr.variance * m;
      }
      Scaled(square, difference * difference, m * n);
    }
  }

  lemma Scaled(square: real, other: real, factor: real)
    requires factor > 0.0
    ensures square > 0.0 <==> square * factor > 0.0
    ensures other > 4.0 * square <==> other * factor > 4.0 * (square * factor)
  {
    assert (other - 4.0 * square) * factor == other * factor - 4.0 * (square * factor);
  }

  /** No benchmark is both. */
  lemma NotBoth(base: Bench, curr: Bench, margin: real)
    requires margin >= 0.0
    ensures !(Worse(base, curr, margin) && Better(base, curr, margin))
  {
    var share := base.mean * (margin / 100.0);
    assert base.mean * (1.0 + margin / 100.0) == base.mean + share && base.mean * (1.0 - margin / 100.0) == base.mean - share;
    assert if base.mean >= 0.0 then share >= 0.0 else share <= 0.0;
  }

  // ----- counting -----

  function Keys(deltas: seq<Delta>): (r: seq<Key>)
    ensures |r| == |deltas| && forall k :: 0 <= k < |r| ==> r[k] == deltas[k].key
  {
    seq(|deltas|, k requires 0 <= k < |deltas| => deltas[k].key)
  }

  /** `xs` lists the members of `s`, each once. */
  ghost predicate Lists<T(!new)>(xs: seq<T>, s: set<T>) { Distinct(xs) && forall x :: x in xs <==> x in s }

  lemma {:induction false} ListsCount<T(!new)>(xs: seq<T>, s: set<T>)
    requires Lists(xs, s)
    ensures |xs| == |s|
    decreases |xs|
  {
    if xs != [] {
      var front, last := xs[..|xs| - 1], xs[|xs| - 1];
      assert xs == front + [last];
      OneMoreDistinct(front, last);
      assert s == (s - {last}) + {last};
      ListsCount(front, s - {last});
    } else {
      assert s == {};
    }
  }

  /** The matched keys among `keys` that count as regressed, and those that count as improved. */
  ghost function Regressed(keys: set<Key>, base: map<Key, Bench>, curr: map<Key, Bench>, margin: real): set<Key> {
    set key | key in keys && key in base && key in curr && Worse(base[key], curr[key], margin)
  }

  ghost function Improved(keys: set<Key>, base: map<Key, Bench>, curr: map<Key, Bench>, margin: real): set<Key> {
    set key | key in keys && key in base && key in curr && Better(base[key], curr[key], margin)
  }

  // ----- the comparison loops -----

  /** `d` compares the two benchmarks of its key. */
  ghost predicate Matches(d: Delta, base: map<Key, Bench>, curr: map<Key, Bench>, margin: real) {
    d.key in base && d.key in curr && Compares(d, base[d.key], curr[d.key], margin)
  }

  /** The deltas of a set of matched keys. */
  ghost predicate Compared(deltas: seq<Delta>, keys: set<Key>, base: map<Key, Bench>, curr: map<Key, Bench>, margin: real) {
    Lists(Keys(deltas), keys) && forall k :: 0 <= k < |deltas| ==> Matches(deltas[k], base, curr, margin)
  }

  datatype Outcome = Outcome(deltas: seq<Delta>, regressions: nat, improvements: nat, level: nat, missing: seq<Key>)

  ghost predicate Tallied(o: Outcome, keys: set<Key>, base: map<Key, Bench>, curr: map<Key, Bench>, margin: real) {
    && o.regressions == |Regressed(keys, base, curr, margin)|
    && o.improvements == |Improved(keys, base, curr, margin)|
    && o.regressions + o.improvements + o.level == |o.deltas|
  }

  /** One baseline key. */
  function Step(o: Outcome, key: Key, base: map<Key, Bench>, curr: map<Key, Bench>, margin: real): Outcome
    requires key in base && margin >= 0.0
  {
    if key in curr then
      var d := DeltaOf(key, base[key], curr[key], margin);
      var deltas := o.deltas + [d];
      if d.regressed then o.(deltas := deltas, regressions := o.regressions + 1)
      else if d.improved then o.(deltas := deltas, improvements := o.improvements + 1)
      else o.(deltas := deltas, level := o.level + 1)
    else o.(missing := o.missing + [key])
  }

  lemma RegressedGrows(done: set<Key>, key: Key, base: map<Key, Bench>, curr: map<Key, Bench>, margin: real)
    requires key in base && key !in done
    ensures |Regressed(done + {key}, base, curr, margin)| == |Regressed(done, base, curr, margin)|
      + if key in curr && Worse(base[key], curr[key], margin) then 1 else 0
  {
    var more := if key in curr && Worse(base[key], curr[key], margin) then {key} else {};
    assert Regressed(done + {key}, base, curr, margin) == Regressed(done, base, curr, margin) + more;
  }

  lemma ImprovedGrows(done: set<Key>, key: Key, base: map<Key, Bench>, curr: map<Key, Bench>, margin: real)
    requires key in base && key !in done
    ensures |Improved(done + {key}, base, curr, margin)| == |Improved(done, base, curr, margin)|
      + if key in curr && Better(base[key], curr[key], margin) then 1 else 0
  {
    var more := if key in curr && Better(base[key], curr[key], margin) then {key} else {};
    assert Improved(done + {key}, base, curr, margin) == Improved(done, base, curr, margin) + more;
  }

  lemma StepTallies(o: Outcome, done: set<Key>, key: Key, base: map<Key, Bench>, curr: map<Key, Bench>, margin: real)
    requires key in base && key !in done && margin >= 0.0 && Tallied(o, done, base, curr, margin)
    ensures Tallied(Step(o, key, base, curr, margin), done + {key}, base, curr, margin)
  {
    RegressedGrows(done, key, base, curr, margin);
    ImprovedGrows(done, key, base, curr, margin);
    if key in curr { NotBoth(base[key], curr[key], margin); }
  }

  lemma OneMoreListed<T(!new)>(xs: seq<T>, s: set<T>, x: T)
    requires Lists(xs, s) && x !in s
    ensures Lists(xs + [x], s + {x})
  {
    OneMoreDistinct(xs, x);
  }

  lemma StepCompares(o: Outcome, done: set<Key>, key: Key, base: map<Key, Bench>, curr: map<Key, Bench>, margin: real)
    requires key in base && key !in done && margin >= 0.0
    requires Compared(o.deltas, done * curr.Keys, base, curr, margin) && Lists(o.missing, done - curr.Keys)
    ensures var next := Step(o, key, base, curr, margin);
      Compared(next.deltas, (done + {key}) * curr.Keys, base, curr, margin) && Lists(next.missing, (done + {key}) - curr.Keys)
  {
    var next := Step(o, key, base, curr, margin);
    if key in curr {
      assert Keys(next.deltas) == Keys(o.deltas) + [key];
      OneMoreListed(Keys(o.deltas), done * curr.Keys, key);
      assert (done + {key}) * curr.Keys == done * curr.Keys + {key};
      assert (done + {key}) - curr.Keys == done - curr.Keys;
    } else {
      OneMoreListed(o.missing, done - curr.Keys, key);
      assert (done + {key}) * curr.Keys == done * curr.Keys;
      assert (done + {key}) - curr.Keys == (done - curr.Keys) + {key};
    }
  }

  /** The loop over the baseline, in any order. */
  method Compare(base: map<Key, Bench>, curr: map<Key, Bench>, margin: real) returns (o: Outcome)
    requires margin >= 0.0
    ensures Tallied(o, base.Keys, base, curr, margin) && Compared(o.deltas, base.Keys * curr.Keys, base, curr, margin)
    ensures Lists(o.missing, base.Keys - curr.Keys)
  {
    o := Outcome([], 0, 0, 0, []);
    var todo := base.Keys;
    while todo != {}
      invariant todo <= base.Keys && Tallied(o, base.Keys - todo, base, curr, margin)
      invariant Compared(o.deltas, (base.Keys - todo) * curr.Keys, base, curr, margin)
      invariant Lists(o.missing, (base.Keys - todo) - curr.Keys)
      decreases |todo|
    {
      var key :| key in todo;
      StepTallies(o, base.Keys - todo, key, base, curr, margin);
      StepCompares(o, base.Keys - todo, key, base, curr, margin);
      o := Step(o, key, base, curr, margin);
      assert base.Keys - (todo - {key}) == (base.Keys - todo) + {key};
      todo := todo - {key};
    }
    assert base.Keys - {} == base.Keys;
  }

  lemma NewKeysSoFar(all: set<Key>, known: set<Key>, todo: set<Key>, key: Key)
    requires key in todo && todo <= all
    ensures (all - (todo - {key})) - known == (all - todo) - known + if key in known then {} else {key}
  {
  }

  /** The loop over the current keys, in any order. */
  method NewKeys(base: map<Key, Bench>, curr: map<Key, Bench>) returns (fresh': seq<Key>)
    ensures Lists(fresh', curr.Keys - base.Keys)
  {
    fresh' := [];
    var todo := curr.Keys;
    while todo != {}
      invariant todo <= curr.Keys
      invariant Lists(fresh', (curr.Keys - todo) - base.Keys)
      decreases |todo|
    {
      var key :| key in todo;
      NewKeysSoFar(curr.Keys, base.Keys, todo, key);
      if key !in base {
        OneMoreListed(fresh', (curr.Keys - todo) - base.Keys, key);
        fresh' := fresh' + [key];
      }
      todo := todo - {key};
    }
    assert curr.Keys - {} == curr.Keys;
  }

  // ----- the assessment -----

  datatype Interval = Interval(lower: real, upper: real)
  datatype Confirmation = Confirmation(key: Key, interval: Interval, verdict: Verdict)

  datatype Assessment = Assessment(confirmed: seq<Confirmation>, promotable: bool, deltas: seq<Delta>, regressions: nat,
                                   improvements: nat, level: nat, fresh': seq<Key>, missing: seq<Key>)

  predicate LargerChange(a: Delta, b: Delta) { a.change > b.change }

  ghost predicate LargestFirst(deltas: seq<Delta>) {
    forall i, j :: 0 <= i < j < |deltas| ==> deltas[i].change >= deltas[j].change
  }

  lemma KeyCarriesOver(xs: seq<Delta>, ys: seq<Delta>, key: Key)
    requires forall x :: x in xs ==> x in ys
    ensures key in Keys(xs) ==> key in Keys(ys)
  {
    if key in Keys(xs) {
      var i :| 0 <= i < |xs| && Keys(xs)[i] == key;
      assert xs[i] in ys;
      var j :| 0 <= j < |ys| && ys[j] == xs[i];
      assert Keys(ys)[j] == key;
    }
  }

  lemma SameMembers<T>(xs: seq<T>, ys: seq<T>)
    requires multiset(xs) == multiset(ys)
    ensures forall x :: x in xs ==> x in ys
    ensures forall y :: y in ys ==> y in xs
  {
    forall x | x in xs ensures x in ys { assert x in multiset(xs); }
    forall y | y in ys ensures y in xs { assert y in multiset(ys); }
  }

  lemma KeyTellsDelta(deltas: seq<Delta>, x: Delta, y: Delta)
    requires Distinct(Keys(deltas)) && x in deltas && y in deltas && x.key == y.key
    ensures x == y
  {
    var i :| 0 <= i < |deltas| && deltas[i] == x;
    var j :| 0 <= j < |deltas| && deltas[j] == y;
    assert Keys(deltas)[i] == Keys(deltas)[j];
  }

  lemma PermutedIsDistinct(deltas: seq<Delta>, sorted: seq<Delta>)
    requires Distinct(Keys(deltas)) && multiset(deltas) == multiset(sorted)
    ensures Distinct(Keys(sorted))
  {
    forall i, j | 0 <= i < j < |deltas| ensures deltas[i] != deltas[j] { assert Keys(deltas)[i] != Keys(deltas)[j]; }
    DistinctPermuted(deltas, sorted);
    SameMembers(deltas, sorted);
    forall i, j | 0 <= i < j < |sorted| ensures Keys(sorted)[i] != Keys(sorted)[j] {
      if sorted[i].key == sorted[j].key { KeyTellsDelta(deltas, sorted[i], sorted[j]); }
    }
  }

  lemma PermutedKeys(deltas: seq<Delta>, sorted: seq<Delta>, keys: set<Key>)
    requires Lists(Keys(deltas), keys) && multiset(deltas) == multiset(sorted)
    ensures Lists(Keys(sorted), keys)
  {
    PermutedIsDistinct(deltas, sorted);
    SameMembers(deltas, sorted);
    forall key ensures key in Keys(sorted) <==> key in Keys(deltas) {
      KeyCarriesOver(deltas, sorted, key);
      KeyCarriesOver(sorted, deltas, key);
    }
  }

  lemma SortPutsLargestFirst(deltas: seq<Delta>)
    ensures LargestFirst(Sort(deltas, LargerChange))
  {
    SortSorts(deltas, LargerChange);
  }

  lemma SortKeepsCompared(deltas: seq<Delta>, keys: set<Key>, base: map<Key, Bench>, curr: map<Key, Bench>, margin: real)
    requires Compared(deltas, keys, base, curr, margin)
    ensures Compared(Sort(deltas, LargerChange), keys, base, curr, margin)
  {
    var sorted := Sort(deltas, LargerChange);
    PermutedKeys(deltas, sorted, keys);
    SameMembers(deltas, sorted);
    forall k | 0 <= k < |sorted| ensures Matches(sorted[k], base, curr, margin) { assert sorted[k] in deltas; }
  }

  function Confirmations(deltas: seq<Delta>, interval: Key -> Option<Interval>, margin: real): seq<Confirmation> {
    if deltas == [] then []
    else
      var front := Confirmations(deltas[..|deltas| - 1], interval, margin);
      var key := deltas[|deltas| - 1].key;
      match interval(key)
      case None => front
      case Some(i) => front + [Confirmation(key, i, Classify(i.lower, i.upper, margin))]
  }

  /** The verdict an interval stands for. */
  ghost predicate VerdictFits(v: Verdict, i: Interval, margin: real) {
    if i.lower > margin then v == Regression
    else if i.upper > margin then v == Inconclusive
    else if i.upper < -margin then v == Improvement
    else v == if i.lower >= -margin then Equivalent else NonInferior
  }

  /** `c` confirms the benchmark of `d` by its interval. */
  ghost predicate Confirms(c: Confirmation, d: Delta, interval: Key -> Option<Interval>, margin: real) {
    c.key == d.key && interval(d.key) == Some(c.interval) && VerdictFits(c.verdict, c.interval, margin)
  }

  /** One confirmation for every delta that has an interval, in the order of the deltas; `at` says
      which delta each belongs to. */
  ghost predicate ConfirmsAll(confirmed: seq<Confirmation>, deltas: seq<Delta>, interval: Key -> Option<Interval>, margin: real,
                              at: seq<nat>)
  {
    && |at| == |confirmed|
    && (forall k :: 0 <= k < |at| ==> at[k] < |deltas| && Confirms(confirmed[k], deltas[at[k]], interval, margin))
    && (forall j, k :: 0 <= j < k < |at| ==> at[j] < at[k])
    && (forall i :: 0 <= i < |deltas| && interval(deltas[i].key).Some? ==> i in at)
  }

  lemma ConfirmsOneMore(confirmed: seq<Confirmation>, deltas: seq<Delta>, interval: Key -> Option<Interval>, margin: real,
                        at: seq<nat>, c: Confirmation, d: Delta)
    requires ConfirmsAll(confirmed, deltas, interval, margin, at) && Confirms(c, d, interval, margin)
    ensures ConfirmsAll(confirmed + [c], deltas + [d], interval, margin, at + [|deltas|])
  {
    var more := at + [|deltas|];
    forall i | 0 <= i < |deltas| + 1 && interval((deltas + [d])[i].key).Some? ensures i in more {
      if i < |deltas| { assert i in at; } else { assert more[|at|] == i; }
    }
  }

  lemma ConfirmsNoMore(confirmed: seq<Confirmation>, deltas: seq<Delta>, interval: Key -> Option<Interval>, margin: real,
                       at: seq<nat>, d: Delta)
    requires ConfirmsAll(confirmed, deltas, interval, margin, at) && interval(d.key).None?
    ensures ConfirmsAll(confirmed, deltas + [d], interval, margin, at)
  {
  }

  lemma {:induction false} ConfirmationsMean(deltas: seq<Delta>, interval: Key -> Option<Interval>, margin: real)
    returns (at: seq<nat>)
    requires margin >= 0.0 && forall key :: interval(key).Some? ==> interval(key).value.lower <= interval(key).value.upper
    ensures ConfirmsAll(Confirmations(deltas, interval, margin), deltas, interval, margin, at)
    decreases |deltas|
  {
    if deltas == [] {
      at := [];
    } else {
      var front, last := deltas[..|deltas| - 1], deltas[|deltas| - 1];
      at := ConfirmationsMean(front, interval, margin);
      assert deltas == front + [last];
      if interval(last.key).Some? {
        var i := interval(last.key).value;
        ConfirmsOneMore(Confirmations(front, interval, margin), front, interval, margin, at,
                        Confirmation(last.key, i, Classify(i.lower, i.upper, margin)), last);
        at := at + [|front|];
      } else {
        ConfirmsNoMore(Confirmations(front, interval, margin), front, interval, margin, at, last);
      }
    }
  }

  predicate AllPass(confirmed: seq<Confirmation>) { forall k :: 0 <= k < |confirmed| ==> Passes(confirmed[k].verdict) }

  lemma AllPassAppend(confirmed: seq<Confirmation>, c: Confirmation)
    ensures AllPass(confirmed + [c]) <==> AllPass(confirmed) && Passes(c.verdict)
  {
    var more := confirmed + [c];
    assert forall k :: 0 <= k < |confirmed| ==> more[k] == confirmed[k];
    assert more[|confirmed|] == c;
  }

  lemma {:induction false} ConfirmationsCount(deltas: seq<Delta>, interval: Key -> Option<Interval>, margin: real)
    requires margin >= 0.0 && forall key :: interval(key).Some? ==> interval(key).value.lower <= interval(key).value.upper
    ensures var confirmed := Confirmations(deltas, interval, margin);
      && |confirmed| <= |deltas|
      && (|confirmed| == |deltas| && AllPass(confirmed) <==>
            forall k :: 0 <= k < |deltas| ==> interval(deltas[k].key).Some? && interval(deltas[k].key).value.upper <= margin)
    decreases |deltas|
  {
    if deltas != [] {
      var front, last := deltas[..|deltas| - 1], deltas[|deltas| - 1];
      ConfirmationsCount(front, interval, margin);
      var before := Confirmations(front, interval, margin);
      assert forall k :: 0 <= k < |front| ==> front[k] == deltas[k];
      if interval(last.key).Some? {
        var i := interval(last.key).value;
        PassesMeansWithinMargin(i.lower, i.upper, margin);
        var c := Confirmation(last.key, i, Classify(i.lower, i.upper, margin));
        AllPassAppend(before, c);
      }
    }
  }

  /** Everything the assessment decides, for one pair of maps. */
  ghost predicate Assessed(a: Assessment, base: map<Key, Bench>, curr: map<Key, Bench>, margin: real, clean: bool,
                           interval: Key -> Option<Interval>) {
    && Compared(a.deltas, base.Keys * curr.Keys, base, curr, margin) && LargestFirst(a.deltas)
    && Lists(a.missing, base.Keys - curr.Keys) && Lists(a.fresh', curr.Keys - base.Keys)
    && a.regressions == |Regressed(base.Keys, base, curr, margin)|
    && a.improvements == |Improved(base.Keys, base, curr, margin)|
    && a.regressions + a.improvements + a.level == |a.deltas|
    && a.confirmed == (if clean then Confirmations(a.deltas, interval, margin) else [])
    && (a.promotable <==>
          && clean && base.Keys == curr.Keys && base != map[]
          && forall key :: key in base ==> interval(key).Some? && interval(key).value.upper <= margin)
  }

  /** The assessment of two records; `clean` says that no compatibility issue was found and
      `interval` is the simultaneous interval computed for a benchmark, if any. */
  method Assess(baseline: seq<Group>, current: seq<Group>, margin: real, clean: bool, interval: Key -> Option<Interval>)
    returns (a: Assessment)
    requires 0.0 <= margin < 100.0
    requires forall key :: interval(key).Some? ==> interval(key).value.lower <= interval(key).value.upper
    ensures Assessed(a, BenchMap(baseline), BenchMap(current), margin, clean, interval)
  {
    var base := BuildMap(baseline);
    var curr := BuildMap(current);
    var o := Compare(base, curr, margin);
    var fresh' := NewKeys(base, curr);
    var deltas := Sort(o.deltas, LargerChange);
    var confirmed := if clean then Confirmations(deltas, interval, margin) else [];
    var promotable := clean && confirmed != [] && |confirmed| == |base| && fresh' == [] && o.missing == [] && AllPass(confirmed);
    a := Assessment(confirmed, promotable, deltas, o.regressions, o.improvements, o.level, fresh', o.missing);
    SortKeepsCompared(o.deltas, base.Keys * curr.Keys, base, curr, margin);
    SortPutsLargestFirst(o.deltas);
    assert |deltas| == |multiset(deltas)| == |o.deltas|;
    AssessedFromParts(a, base, curr, margin, clean, interval, o);
  }

  lemma AssessedFromParts(a: Assessment, base: map<Key, Bench>, curr: map<Key, Bench>, margin: real, clean: bool,
                          interval: Key -> Option<Interval>, o: Outcome)
    requires 0.0 <= margin && forall key :: interval(key).Some? ==> interval(key).value.lower <= interval(key).value.upper
    requires Compared(a.deltas, base.Keys * curr.Keys, base, curr, margin) && LargestFirst(a.deltas)
    requires Lists(a.missing, base.Keys - curr.Keys) && Lists(a.fresh', curr.Keys - base.Keys)
    requires Tallied(o, base.Keys, base, curr, margin) && |o.deltas| == |a.deltas|
    requires a.regressions == o.regressions && a.improvements == o.improvements && a.level == o.level
    requires a.confirmed == if clean then Confirmations(a.deltas, interval, margin) else []
    requires a.promotable <==>
      clean && a.confirmed != [] && |a.confirmed| == |base| && a.fresh' == [] && a.missing == [] && AllPass(a.confirmed)
    ensures Assessed(a, base, curr, margin, clean, interval)
  {
    PromotableExactlyWhen(a.deltas, base, curr, margin, interval, a.missing, a.fresh');
  }

  lemma PromotableExactlyWhen(deltas: seq<Delta>, base: map<Key, Bench>, curr: map<Key, Bench>, margin: real,
                              interval: Key -> Option<Interval>, missing: seq<Key>, fresh': seq<Key>)
    requires 0.0 <= margin && forall key :: interval(key).Some? ==> interval(key).value.lower <= interval(key).value.upper
    requires Compared(deltas, base.Keys * curr.Keys, base, curr, margin)
    requires Lists(missing, base.Keys - curr.Keys) && Lists(fresh', curr.Keys - base.Keys)
    ensures var confirmed := Confirmations(deltas, interval, margin);
      (confirmed != [] && |confirmed| == |base| && fresh' == [] && missing == [] && AllPass(confirmed)) <==>
      (&& base.Keys == curr.Keys && base != map[]
       && forall key :: key in base ==> interval(key).Some? && interval(key).value.upper <= margin)
  {
    ListsCount(missing, base.Keys - curr.Keys);
    ListsCount(fresh', curr.Keys - base.Keys);
    ListsCount(Keys(deltas), base.Keys * curr.Keys);
    ConfirmationsCount(deltas, interval, margin);
    assert |base| == |base.Keys|;
    if base.Keys == curr.Keys {
      assert base.Keys * curr.Keys == base.Keys;
      forall key | key in base ensures exists k :: 0 <= k < |deltas| && deltas[k].key == key {
        assert key in Keys(deltas);
      }
    } else if missing == [] && fresh' == [] {
      assert base.Keys - curr.Keys == {} && curr.Keys - base.Keys == {};
    }
  }
}
