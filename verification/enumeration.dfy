/** The engine's enumeration of comparison pairs (src/engine.rs lines 922-967) meets the
    validator of the recorded inventory. */
module Enumeration {
  import opened Pairs
  import opened Sequences

  /** The pairs the two loops visit, as indices: the baseline against everybody, then, unless
      only the baseline is compared, everybody else against everybody later. */
  predicate Visits(n: nat, baseline: nat, baselineOnly: bool, i: nat, j: nat) {
    && n >= 2 && i < n && j < n
    && if i == baseline then j != baseline
       else !baselineOnly && n > 2 && i < j && j != baseline
  }

  /** Each visited pair whose analysis could be computed, once. */
  ghost predicate Emitted(n: nat, baseline: nat, baselineOnly: bool, available: (nat, nat) -> bool, pairs: seq<(nat, nat)>) {
    && Distinct(pairs)
    && forall i: nat, j: nat :: (i, j) in pairs <==> Visits(n, baseline, baselineOnly, i, j) && available(i, j)
  }

  /** The loops. `available(i, j)` says whether the paired analysis could be computed. */
  method EnumeratePairs(n: nat, baseline: nat, baselineOnly: bool, available: (nat, nat) -> bool)
    returns (pairs: seq<(nat, nat)>)
    requires n >= 2 ==> baseline < n
    ensures Emitted(n, baseline, baselineOnly, available, pairs)
  {
    pairs := [];
    if n < 2 { return; }
    for i := 0 to n
      invariant forall p: nat, q: nat :: (p, q) in pairs <==> p == baseline && q != baseline && q < i && available(p, q)
      invariant Distinct(pairs)
    {
      if i == baseline { continue; }
      if available(baseline, i) {
        pairs := pairs + [(baseline, i)];
      }
    }
    if baselineOnly || n <= 2 { return; }
    for i := 0 to n
      invariant Distinct(pairs)
      invariant forall p: nat, q: nat :: (p, q) in pairs <==>
        Visits(n, baseline, false, p, q) && available(p, q) && (p == baseline || p < i)
    {
      for j := i + 1 to n
        invariant Distinct(pairs)
        invariant forall p: nat, q: nat :: (p, q) in pairs <==>
          Visits(n, baseline, false, p, q) && available(p, q) && (p == baseline || p < i || (p == i && q < j))
      {
        if i == baseline || j == baseline { continue; }
        if available(i, j) {
          pairs := pairs + [(i, j)];
        }
      }
    }
  }

  /** Every unordered pair is visited in exactly one direction. */
  lemma VisitsOnce(n: nat, baseline: nat, baselineOnly: bool, i: nat, j: nat)
    requires baseline < n && i < n && j < n && i != j
    ensures !(Visits(n, baseline, baselineOnly, i, j) && Visits(n, baseline, baselineOnly, j, i))
    ensures !baselineOnly ==> Visits(n, baseline, baselineOnly, i, j) || Visits(n, baseline, baselineOnly, j, i)
    ensures i == baseline || j == baseline ==> Visits(n, baseline, baselineOnly, i, j) || Visits(n, baseline, baselineOnly, j, i)
  {
  }

  function Named(names: seq<string>, pairs: seq<(nat, nat)>): (r: seq<Pair>)
    requires forall k :: 0 <= k < |pairs| ==> pairs[k].0 < |names| && pairs[k].1 < |names|
    ensures |r| == |pairs| && forall k :: 0 <= k < |r| ==> r[k] == (names[pairs[k].0], names[pairs[k].1])
  {
    seq(|pairs|, k requires 0 <= k < |pairs| => (names[pairs[k].0], names[pairs[k].1]))
  }

  lemma NamedKeysDiffer(names: seq<string>, baseline: nat, baselineOnly: bool, p: (nat, nat), q: (nat, nat))
    requires Distinct(names) && baseline < |names| && p != q
    requires Visits(|names|, baseline, baselineOnly, p.0, p.1) && Visits(|names|, baseline, baselineOnly, q.0, q.1)
    ensures Norm(names[p.0], names[p.1]) != Norm(names[q.0], names[q.1])
  {
    NormIsUnordered(names[p.0], names[p.1], names[q.0], names[q.1]);
    VisitsOnce(|names|, baseline, baselineOnly, p.0, p.1);
  }

  /** What the loops record when every analysis exists. */
  ghost predicate Recorded(names: seq<string>, baseline: nat, baselineOnly: bool, pairs: seq<(nat, nat)>) {
    && Distinct(pairs)
    && forall i: nat, j: nat :: (i, j) in pairs <==> Visits(|names|, baseline, baselineOnly, i, j)
  }

  lemma RecordedKeys(names: seq<string>, baseline: nat, baselineOnly: bool, pairs: seq<(nat, nat)>)
    requires Distinct(names) && baseline < |names| && Recorded(names, baseline, baselineOnly, pairs)
    ensures forall k :: 0 <= k < |pairs| ==> pairs[k].0 < |names| && pairs[k].1 < |names| && pairs[k].0 != pairs[k].1
    ensures |Keys(Named(names, pairs))| == |pairs|
  {
    forall k | 0 <= k < |pairs| ensures Visits(|names|, baseline, baselineOnly, pairs[k].0, pairs[k].1) {
      assert pairs[k] in pairs && pairs[k] == (pairs[k].0, pairs[k].1);
    }
    var analyses := Named(names, pairs);
    forall k, l | 0 <= k < l < |pairs|
      ensures Norm(analyses[k].0, analyses[k].1) != Norm(analyses[l].0, analyses[l].1)
    {
      NamedKeysDiffer(names, baseline, baselineOnly, pairs[k], pairs[l]);
    }
    KeysCount(analyses);
  }

  /** In full mode the recorded keys are all pairs. */
  lemma RecordedCoverAll(names: seq<string>, baseline: nat, pairs: seq<(nat, nat)>)
    requires Distinct(names) && baseline < |names| && Recorded(names, baseline, false, pairs)
    requires forall k :: 0 <= k < |pairs| ==> pairs[k].0 < |names| && pairs[k].1 < |names| && pairs[k].0 != pairs[k].1
    ensures Keys(Named(names, pairs)) == AllPairs(Elements(names))
  {
    var analyses := Named(names, pairs);
    forall p | p in AllPairs(Elements(names)) ensures p in Keys(analyses) {
      var a, b :| a in Elements(names) && b in Elements(names) && a != b && p == Norm(a, b);
      var i, j :| 0 <= i < |names| && 0 <= j < |names| && names[i] == a && names[j] == b;
      VisitsOnce(|names|, baseline, false, i, j);
      NormIsUnordered(a, b, a, b);
      var e := if Visits(|names|, baseline, false, i, j) then (i, j) else (j, i);
      assert e in pairs;
      var k :| 0 <= k < |pairs| && pairs[k] == e;
      assert Norm(analyses[k].0, analyses[k].1) == p;
    }
    forall k | 0 <= k < |analyses| ensures Norm(analyses[k].0, analyses[k].1) in AllPairs(Elements(names)) {
      assert analyses[k].0 != analyses[k].1;
      assert names[pairs[k].0] in Elements(names) && names[pairs[k].1] in Elements(names);
    }
  }

  /** In baseline-only mode there is one recorded pair per benchmark other than the baseline. */
  lemma RecordedStarCount(names: seq<string>, baseline: nat, pairs: seq<(nat, nat)>)
    requires |names| >= 2 && baseline < |names| && Recorded(names, baseline, true, pairs)
    ensures |pairs| == |names| - 1
  {
    var others := Indices(|names|) - {baseline};
    var star := BaselinePairs(baseline, others);
    BaselinePairsCount(baseline, others);
    ElementsCount(pairs);
    forall e | e in Elements(pairs) ensures e in star {
      assert e == (e.0, e.1) && Visits(|names|, baseline, true, e.0, e.1);
    }
    assert Elements(pairs) == star;
  }

  function Indices(n: nat): (r: set<nat>)
    ensures |r| == n && forall j: nat :: j in r <==> j < n
  {
    if n == 0 then {} else Indices(n - 1) + {n - 1}
  }

  /** One pair with the baseline for each of the others. */
  function BaselinePairs(b: nat, others: set<nat>): set<(nat, nat)> { set j | j in others :: (b, j) }

  lemma {:induction false} BaselinePairsCount(b: nat, others: set<nat>)
    ensures |BaselinePairs(b, others)| == |others|
    decreases |others|
  {
    if others != {} {
      var z :| z in others;
      BaselinePairsCount(b, others - {z});
      assert BaselinePairs(b, others) == BaselinePairs(b, others - {z}) + {(b, z)};
    } else {
      assert BaselinePairs(b, others) == {};
    }
  }

  /** When every analysis exists, the record of distinct benchmarks passes the validator's
      inventory test in both modes. */
  lemma RecordIsAccepted(names: seq<string>, baseline: nat, baselineOnly: bool, pairs: seq<(nat, nat)>)
    requires Distinct(names) && baseline < |names| && Recorded(names, baseline, baselineOnly, pairs)
    ensures forall k :: 0 <= k < |pairs| ==> pairs[k].0 < |names| && pairs[k].1 < |names|
    ensures Accepts(names, baselineOnly, Named(names, pairs))
  {
    RecordedKeys(names, baseline, baselineOnly, pairs);
    ElementsCount(names);
    var analyses := Named(names, pairs);
    forall k | 0 <= k < |analyses|
      ensures analyses[k].0 != analyses[k].1 && analyses[k].0 in Elements(names) && analyses[k].1 in Elements(names)
    {
      assert names[pairs[k].0] in Elements(names) && names[pairs[k].1] in Elements(names);
    }
    if baselineOnly {
      if |names| >= 2 { RecordedStarCount(names, baseline, pairs); }
    } else {
      RecordedCoverAll(names, baseline, pairs);
      AllPairsCount(Elements(names));
      PairCountIsTriangle(|names|);
    }
  }

  lemma AcceptedNamesDiffer(names: seq<string>, baseline: nat, available: (nat, nat) -> bool, pairs: seq<(nat, nat)>)
    requires baseline < |names| && Emitted(|names|, baseline, true, available, pairs)
    requires forall j: nat :: j < |names| && j != baseline ==> available(baseline, j)
    requires forall k :: 0 <= k < |pairs| ==> pairs[k].0 < |names| && pairs[k].1 < |names|
    requires Accepts(names, true, Named(names, pairs))
    ensures Distinct(names)
  {
    var analyses := Named(names, pairs);
    KeysCount(analyses);
    forall i, j | 0 <= i < j < |names| ensures names[i] != names[j] {
      if i != baseline { assert (baseline, i) in pairs; }
      if j != baseline { assert (baseline, j) in pairs; }
      if i == baseline {
        var k :| 0 <= k < |pairs| && pairs[k] == (baseline, j);
        assert analyses[k].0 != analyses[k].1;
      } else if j == baseline {
        var k :| 0 <= k < |pairs| && pairs[k] == (baseline, i);
        assert analyses[k].0 != analyses[k].1;
      } else {
        var k :| 0 <= k < |pairs| && pairs[k] == (baseline, i);
        var l :| 0 <= l < |pairs| && pairs[l] == (baseline, j);
        assert Norm(analyses[k].0, analyses[k].1) != Norm(analyses[l].0, analyses[l].1);
      }
    }
  }

  lemma AcceptedStarIsWhole(names: seq<string>, baseline: nat, available: (nat, nat) -> bool, pairs: seq<(nat, nat)>)
    requires baseline < |names| && Emitted(|names|, baseline, true, available, pairs)
    requires |pairs| == |names| - 1
    ensures forall j: nat :: j < |names| && j != baseline ==> available(baseline, j)
  {
    var others := Indices(|names|) - {baseline};
    var kept := Elements(pairs);
    BaselinePairsCount(baseline, others);
    ElementsCount(pairs);
    forall e | e in kept ensures e in BaselinePairs(baseline, others) {
      assert e == (e.0, e.1) && Visits(|names|, baseline, true, e.0, e.1);
    }
    SubsetsCount(kept, BaselinePairs(baseline, others));
    forall j: nat | j < |names| && j != baseline ensures available(baseline, j) {
      assert (baseline, j) in BaselinePairs(baseline, others);
      assert (baseline, j) in pairs;
    }
  }

  lemma AcceptedFullIsWhole(names: seq<string>, baseline: nat, available: (nat, nat) -> bool, pairs: seq<(nat, nat)>,
                            i: nat, j: nat)
    requires baseline < |names| && Emitted(|names|, baseline, false, available, pairs)
    requires forall k :: 0 <= k < |pairs| ==> pairs[k].0 < |names| && pairs[k].1 < |names|
    requires Accepts(names, false, Named(names, pairs)) && Visits(|names|, baseline, false, i, j)
    ensures available(i, j)
  {
    var analyses := Named(names, pairs);
    AcceptedKeysAreAll(names, analyses);
    assert names[i] in Elements(names) && names[j] in Elements(names) && names[i] != names[j];
    assert Norm(names[i], names[j]) in Keys(analyses);
    var k :| 0 <= k < |analyses| && Norm(analyses[k].0, analyses[k].1) == Norm(names[i], names[j]);
    assert pairs[k] in pairs && pairs[k] == (pairs[k].0, pairs[k].1);
    if pairs[k] != (i, j) { NamedKeysDiffer(names, baseline, false, pairs[k], (i, j)); }
  }

  /** The validator's inventory test accepts what the loops emit exactly when the names are
      distinct and no analysis failed. */
  lemma AcceptedExactlyWhen(names: seq<string>, baseline: nat, baselineOnly: bool, available: (nat, nat) -> bool,
                            pairs: seq<(nat, nat)>)
    requires baseline < |names| && Emitted(|names|, baseline, baselineOnly, available, pairs)
    ensures forall k :: 0 <= k < |pairs| ==> pairs[k].0 < |names| && pairs[k].1 < |names|
    ensures Accepts(names, baselineOnly, Named(names, pairs)) <==>
      && Distinct(names)
      && forall i: nat, j: nat :: Visits(|names|, baseline, baselineOnly, i, j) ==> available(i, j)
  {
    forall k | 0 <= k < |pairs| ensures Visits(|names|, baseline, baselineOnly, pairs[k].0, pairs[k].1) {
      assert pairs[k] in pairs && pairs[k] == (pairs[k].0, pairs[k].1);
    }
    if Accepts(names, baselineOnly, Named(names, pairs)) {
      if baselineOnly {
        AcceptedStarIsWhole(names, baseline, available, pairs);
        AcceptedNamesDiffer(names, baseline, available, pairs);
      } else {
        AcceptedKeysAreAll(names, Named(names, pairs));
        forall i: nat, j: nat | Visits(|names|, baseline, false, i, j) ensures available(i, j) {
          AcceptedFullIsWhole(names, baseline, available, pairs, i, j);
        }
      }
    } else if Distinct(names) && forall i: nat, j: nat :: Visits(|names|, baseline, baselineOnly, i, j) ==> available(i, j) {
      RecordIsAccepted(names, baseline, baselineOnly, pairs);
    }
  }
}
