/** Which pairs of benchmarks get compared: the engine's loops (src/engine.rs lines 922-967)
    and the validator's counting tests (src/inference.rs lines 134-155). */
module Pairs {
  import opened Sequences
  import opened Text

  type Pair = (string, string)

  /** The validator's key of an unordered pair. */
  function Norm(a: string, b: string): Pair { if Less(a, b) then (a, b) else (b, a) }

  lemma NormIsUnordered(a: string, b: string, c: string, d: string)
    ensures Norm(a, b) == Norm(b, a)
    ensures Norm(a, b) == Norm(c, d) <==> (a == c && b == d) || (a == d && b == c)
  {
    LessIsTotal(a, b);
    LessIsTotal(c, d);
  }

  /** All unordered pairs of different names. */
  function AllPairs(names: set<string>): set<Pair> {
    set a, b | a in names && b in names && a != b :: Norm(a, b)
  }

  function Keys(analyses: seq<Pair>): set<Pair> {
    set k | 0 <= k < |analyses| :: Norm(analyses[k].0, analyses[k].1)
  }

  /** The validator's inventory test of one group. */
  predicate Accepts(names: seq<string>, baselineOnly: bool, analyses: seq<Pair>) {
    var n := |names|;
    var expected := if baselineOnly then (if n == 0 then 0 else n - 1) else n * (if n == 0 then 0 else n - 1) / 2;
    && |Keys(analyses)| == expected
    && |analyses| == expected
    && forall k :: 0 <= k < |analyses| ==>
         analyses[k].0 != analyses[k].1 && analyses[k].0 in Elements(names) && analyses[k].1 in Elements(names)
  }

  /** Analysis `k` compares `a` and `b`, in either order. */
  predicate Compares(analyses: seq<Pair>, k: nat, a: string, b: string)
    requires k < |analyses|
  {
    analyses[k] == (a, b) || analyses[k] == (b, a)
  }

  ghost predicate Compared(analyses: seq<Pair>, a: string, b: string) {
    exists k :: 0 <= k < |analyses| && Compares(analyses, k, a, b)
  }

  /** Every unordered pair of different names is compared exactly once. */
  ghost predicate CoversOnce(names: seq<string>, analyses: seq<Pair>) {
    forall a, b :: a in Elements(names) && b in Elements(names) && a != b ==>
      && Compared(analyses, a, b)
      && (forall k, l :: (0 <= k < |analyses| && 0 <= l < |analyses|
                          && Compares(analyses, k, a, b) && Compares(analyses, l, a, b)) ==> k == l)
  }

  /** Every entry names two different members. */
  ghost predicate BetweenMembers(names: seq<string>, analyses: seq<Pair>) {
    forall k :: 0 <= k < |analyses| ==>
      analyses[k].0 != analyses[k].1 && analyses[k].0 in Elements(names) && analyses[k].1 in Elements(names)
  }

  /** No two entries compare the same two names. */
  ghost predicate NoneTwice(analyses: seq<Pair>) {
    forall k, l :: 0 <= k < l < |analyses| ==> !Compares(analyses, l, analyses[k].0, analyses[k].1)
  }

  /** What an accepted inventory shows: in full mode that different names were each compared
      with each other exactly once; in baseline-only mode one entry fewer than names, for as
      many different pairs. */
  ghost predicate Inventory(names: seq<string>, baselineOnly: bool, analyses: seq<Pair>) {
    && BetweenMembers(names, analyses)
    && if baselineOnly then NoneTwice(analyses) && |analyses| == (if names == [] then 0 else |names| - 1)
       else Distinct(names) && CoversOnce(names, analyses)
  }

  lemma ComparesMeansNorm(analyses: seq<Pair>, k: nat, a: string, b: string)
    requires k < |analyses|
    ensures Compares(analyses, k, a, b) <==> Norm(analyses[k].0, analyses[k].1) == Norm(a, b)
  {
    NormIsUnordered(analyses[k].0, analyses[k].1, a, b);
  }

  // ----- counting -----

  lemma {:induction false} AllPairsCount(names: set<string>)
    ensures |AllPairs(names)| == PairCount(|names|)
    decreases |names|
  {
    if names == {} {
      assert AllPairs(names) == {};
    } else {
      var x :| x in names;
      var rest := names - {x};
      AllPairsCount(rest);
      PairsWith(x, rest);
      PairsSplit(names, x);
      PairsApart(names, x);
      assert |names| == |rest| + 1;
    }
  }

  /** The pairs of `x` with the other names. */
  function Star(x: string, others: set<string>): set<Pair> { set y | y in others :: Norm(x, y) }

  lemma PairsSplit(names: set<string>, x: string)
    requires x in names
    ensures AllPairs(names) == AllPairs(names - {x}) + Star(x, names - {x})
  {
    var rest := names - {x};
    forall p | p in AllPairs(names) ensures p in AllPairs(rest) + Star(x, rest) {
      var a, b :| a in names && b in names && a != b && p == Norm(a, b);
      NormIsUnordered(a, b, b, a);
    }
    forall p | p in Star(x, rest) ensures p in AllPairs(names) {
      var y :| y in rest && p == Norm(x, y);
    }
  }

  lemma PairsApart(names: set<string>, x: string)
    ensures AllPairs(names - {x}) !! Star(x, names - {x})
  {
    forall p | p in AllPairs(names - {x}) ensures p !in Star(x, names - {x}) {
      var a, b :| a in names - {x} && b in names - {x} && a != b && p == Norm(a, b);
      forall y | y in names - {x} ensures Norm(x, y) != p { NormIsUnordered(a, b, x, y); }
    }
  }

  /** The number of unordered pairs among `n`. */
  function PairCount(n: nat): nat { if n == 0 then 0 else PairCount(n - 1) + (n - 1) }

  lemma {:induction false} PairCountIsTriangle(n: nat)
    ensures PairCount(n) == n * (if n == 0 then 0 else n - 1) / 2
  {
    if n > 0 {
      PairCountIsTriangle(n - 1);
      Triangle(n - 1);
    }
  }

  lemma Triangle(m: nat)
    ensures m * (if m == 0 then 0 else m - 1) / 2 + m == (m + 1) * m / 2
  {
    assert (m + 1) * m == m * m + m;
    assert m > 0 ==> m * (m - 1) == m * m - m;
  }

  /** Pairing one new name with each of the others gives as many pairs. */
  lemma {:induction false} PairsWith(x: string, others: set<string>)
    requires x !in others
    ensures |Star(x, others)| == |others|
    decreases |others|
  {
    if others != {} {
      var z :| z in others;
      PairsWith(x, others - {z});
      forall y | y in others - {z} ensures Norm(x, y) != Norm(x, z) { NormIsUnordered(x, y, x, z); }
      assert Star(x, others) == Star(x, others - {z}) + {Norm(x, z)};
    }
  }

  /** The keys of different entries differ. */
  ghost predicate KeysDiffer(analyses: seq<Pair>) {
    forall k, l :: 0 <= k < l < |analyses| ==> Norm(analyses[k].0, analyses[k].1) != Norm(analyses[l].0, analyses[l].1)
  }

  lemma NoneTwiceMeansKeysDiffer(analyses: seq<Pair>)
    ensures NoneTwice(analyses) <==> KeysDiffer(analyses)
  {
    forall k, l | 0 <= k < l < |analyses|
      ensures Compares(analyses, l, analyses[k].0, analyses[k].1) <==>
        Norm(analyses[k].0, analyses[k].1) == Norm(analyses[l].0, analyses[l].1)
    {
      ComparesMeansNorm(analyses, l, analyses[k].0, analyses[k].1);
    }
  }

  lemma KeysDifferGrows(analyses: seq<Pair>)
    requires analyses != []
    ensures var front, last := analyses[..|analyses| - 1], analyses[|analyses| - 1];
      && Keys(analyses) == Keys(front) + {Norm(last.0, last.1)}
      && (KeysDiffer(analyses) <==> KeysDiffer(front) && Norm(last.0, last.1) !in Keys(front))
  {
    var front, last := analyses[..|analyses| - 1], analyses[|analyses| - 1];
    var key := Norm(last.0, last.1);
    assert forall k :: 0 <= k < |front| ==> front[k] == analyses[k];
    if key in Keys(front) {
      var k :| 0 <= k < |front| && Norm(front[k].0, front[k].1) == key;
      assert Norm(analyses[k].0, analyses[k].1) == Norm(analyses[|front|].0, analyses[|front|].1);
    }
  }

  /** There are as many keys as entries exactly if they all differ. */
  lemma {:induction false} KeysCount(analyses: seq<Pair>)
    ensures |Keys(analyses)| <= |analyses|
    ensures |Keys(analyses)| == |analyses| <==> KeysDiffer(analyses)
    decreases |analyses|
  {
    if analyses != [] {
      KeysCount(analyses[..|analyses| - 1]);
      KeysDifferGrows(analyses);
    } else {
      assert Keys(analyses) == {};
    }
  }

  // ----- the validator -----

  lemma KeysArePairs(names: seq<string>, analyses: seq<Pair>)
    requires BetweenMembers(names, analyses)
    ensures Keys(analyses) <= AllPairs(Elements(names))
  {
  }

  lemma TriangleGrows(m: nat, n: nat)
    requires m <= n
    ensures m * (if m == 0 then 0 else m - 1) / 2 <= n * (if n == 0 then 0 else n - 1) / 2
    ensures 2 <= n && m < n ==> m * (if m == 0 then 0 else m - 1) / 2 < n * (n - 1) / 2
  {
    if m < n {
      TriangleGrows(m, n - 1);
      Triangle(n - 1);
    }
  }

  lemma AcceptedKeysAreAll(names: seq<string>, analyses: seq<Pair>)
    requires Accepts(names, false, analyses)
    ensures Distinct(names) && Keys(analyses) == AllPairs(Elements(names)) && |Keys(analyses)| == |analyses|
  {
    KeysArePairs(names, analyses);
    AllPairsCount(Elements(names));
    PairCountIsTriangle(|Elements(names)|);
    ElementsCount(names);
    SubsetsCount(Keys(analyses), AllPairs(Elements(names)));
    TriangleGrows(|Elements(names)|, |names|);
    if |names| == 1 { assert Distinct(names); }
  }

  lemma AllKeysCover(names: seq<string>, analyses: seq<Pair>)
    requires Keys(analyses) == AllPairs(Elements(names)) && |Keys(analyses)| == |analyses|
    ensures CoversOnce(names, analyses)
  {
    KeysCount(analyses);
    forall a, b | a in Elements(names) && b in Elements(names) && a != b
      ensures Compared(analyses, a, b)
      ensures forall k, l :: (0 <= k < |analyses| && 0 <= l < |analyses|
                              && Compares(analyses, k, a, b) && Compares(analyses, l, a, b)) ==> k == l
    {
      assert Norm(a, b) in Keys(analyses);
      KeyIsCompared(analyses, a, b);
      ComparedOnce(analyses, a, b);
    }
  }

  lemma ComparedOnce(analyses: seq<Pair>, a: string, b: string)
    requires KeysDiffer(analyses)
    ensures forall k, l :: (0 <= k < |analyses| && 0 <= l < |analyses|
                            && Compares(analyses, k, a, b) && Compares(analyses, l, a, b)) ==> k == l
  {
    forall k, l | 0 <= k < |analyses| && 0 <= l < |analyses| && Compares(analyses, k, a, b) && Compares(analyses, l, a, b)
      ensures k == l
    {
      ComparesMeansNorm(analyses, k, a, b);
      ComparesMeansNorm(analyses, l, a, b);
    }
  }

  lemma KeyIsCompared(analyses: seq<Pair>, a: string, b: string)
    ensures Norm(a, b) in Keys(analyses) <==> Compared(analyses, a, b)
  {
    forall k | 0 <= k < |analyses| ensures Compares(analyses, k, a, b) <==> Norm(analyses[k].0, analyses[k].1) == Norm(a, b) {
      ComparesMeansNorm(analyses, k, a, b);
    }
  }

  /** Pigeonhole: an accepted full inventory compares every pair exactly once, and its names
      are distinct although no test asks for that. */
  lemma AcceptedCovers(names: seq<string>, analyses: seq<Pair>)
    requires Accepts(names, false, analyses)
    ensures Distinct(names) && CoversOnce(names, analyses)
  {
    AcceptedKeysAreAll(names, analyses);
    AllKeysCover(names, analyses);
  }

  lemma CoveringNeedsAll(names: seq<string>, analyses: seq<Pair>)
    requires forall a, b :: a in Elements(names) && b in Elements(names) && a != b ==> Compared(analyses, a, b)
    ensures AllPairs(Elements(names)) <= Keys(analyses)
    ensures |AllPairs(Elements(names))| <= |analyses|
  {
    var all := AllPairs(Elements(names));
    forall p | p in all ensures p in Keys(analyses) {
      var a, b :| a in Elements(names) && b in Elements(names) && a != b && p == Norm(a, b);
      KeyIsCompared(analyses, a, b);
    }
    SubsetsCount(all, Keys(analyses));
    KeysCount(analyses);
  }

  lemma CoversOnceMeansNoneTwice(names: seq<string>, analyses: seq<Pair>)
    requires BetweenMembers(names, analyses) && CoversOnce(names, analyses)
    ensures NoneTwice(analyses)
  {
    forall k, l | 0 <= k < l < |analyses| ensures !Compares(analyses, l, analyses[k].0, analyses[k].1) {
      assert Compares(analyses, k, analyses[k].0, analyses[k].1);
    }
  }

  lemma InventoryIsAccepted(names: seq<string>, analyses: seq<Pair>)
    requires Inventory(names, false, analyses)
    ensures Accepts(names, false, analyses)
  {
    CoversOnceMeansNoneTwice(names, analyses);
    NoneTwiceMeansKeysDiffer(analyses);
    KeysCount(analyses);
    CoveringNeedsAll(names, analyses);
    KeysArePairs(names, analyses);
    AllPairsCount(Elements(names));
    PairCountIsTriangle(|names|);
    ElementsCount(names);
    assert Keys(analyses) == AllPairs(Elements(names));
  }

  /** The validator's counting test decides the inventory, in both modes. */
  lemma AcceptsExactlyInventories(names: seq<string>, baselineOnly: bool, analyses: seq<Pair>)
    ensures Accepts(names, baselineOnly, analyses) <==> Inventory(names, baselineOnly, analyses)
  {
    if baselineOnly {
      KeysCount(analyses);
      NoneTwiceMeansKeysDiffer(analyses);
    } else if Accepts(names, false, analyses) {
      AcceptedCovers(names, analyses);
    } else if Inventory(names, false, analyses) {
      InventoryIsAccepted(names, analyses);
    }
  }

  /** `b` is compared with each of the other names. */
  ghost predicate ComparedWithAll(names: seq<string>, analyses: seq<Pair>, b: string) {
    forall a :: a in names && a != b ==> Compared(analyses, a, b)
  }

  /** Every entry has `b` on one side. */
  predicate InEvery(analyses: seq<Pair>, b: string) {
    forall k :: 0 <= k < |analyses| ==> analyses[k].0 == b || analyses[k].1 == b
  }

  /** In an accepted baseline-only inventory of different names, `b` is compared with each of
      the others exactly if every entry has `b` on one side. */
  lemma BaselineComparedExactlyWhen(names: seq<string>, analyses: seq<Pair>, b: string)
    requires Distinct(names) && Accepts(names, true, analyses) && b in names
    ensures ComparedWithAll(names, analyses, b) <==> InEvery(analyses, b)
  {
    var others := Elements(names) - {b};
    ElementsCount(names);
    PairsWith(b, others);
    assert |Star(b, others)| == |Keys(analyses)|;
    if ComparedWithAll(names, analyses, b) {
      forall p | p in Star(b, others) ensures p in Keys(analyses) {
        var a :| a in others && p == Norm(b, a);
        NormIsUnordered(a, b, b, a);
        KeyIsCompared(analyses, a, b);
      }
      SubsetsCount(Star(b, others), Keys(analyses));
      forall k | 0 <= k < |analyses| ensures analyses[k].0 == b || analyses[k].1 == b {
        assert Norm(analyses[k].0, analyses[k].1) in Star(b, others);
        var a :| a in others && Norm(analyses[k].0, analyses[k].1) == Norm(b, a);
        NormIsUnordered(analyses[k].0, analyses[k].1, b, a);
      }
    }
    if InEvery(analyses, b) {
      forall p | p in Keys(analyses) ensures p in Star(b, others) {
        var k :| 0 <= k < |analyses| && p == Norm(analyses[k].0, analyses[k].1);
        NormIsUnordered(analyses[k].0, analyses[k].1, b, analyses[k].0);
        NormIsUnordered(analyses[k].0, analyses[k].1, b, analyses[k].1);
        assert Norm(b, analyses[k].0) in Star(b, others) || Norm(b, analyses[k].1) in Star(b, others);
      }
      SubsetsCount(Keys(analyses), Star(b, others));
      forall a | a in names && a != b ensures Compared(analyses, a, b) {
        assert Norm(b, a) in Star(b, others);
        NormIsUnordered(a, b, b, a);
        KeyIsCompared(analyses, a, b);
      }
    }
  }

  /** Whether an accepted inventory of distinct names compares every pair is decided by the
      recorded flag and the number of benchmarks alone. */
  lemma CoversExactlyWhen(names: seq<string>, baselineOnly: bool, analyses: seq<Pair>)
    requires Distinct(names) && Accepts(names, baselineOnly, analyses)
    ensures CoversOnce(names, analyses) <==> !baselineOnly || |names| <= 2
  {
    StarAgainstTriangle(|names|);
    if !baselineOnly || |names| <= 2 {
      assert Accepts(names, false, analyses);
      AcceptedCovers(names, analyses);
    } else if CoversOnce(names, analyses) {
      CoveringNeedsAll(names, analyses);
      AllPairsCount(Elements(names));
      PairCountIsTriangle(|Elements(names)|);
      ElementsCount(names);
    }
  }

  lemma StarAgainstTriangle(n: nat)
    ensures n <= 2 ==> n * (if n == 0 then 0 else n - 1) / 2 == if n == 0 then 0 else n - 1
    ensures n > 2 ==> n * (n - 1) / 2 > n - 1
  {
    if n > 2 {
      var m := n - 1;
      assert n * m == 2 * m + (n - 2) * m && (n - 2) * m >= 2;
    } else {
      assert n == 0 || n == 1 || n == 2;
    }
  }

  lemma TriangleKeys()
    ensures Keys([("a", "b"), ("b", "c"), ("a", "c")]) == {("a", "b"), ("b", "c"), ("a", "c")}
    ensures |{("a", "b"), ("b", "c"), ("a", "c")}| == 3
  {
    var analyses := [("a", "b"), ("b", "c"), ("a", "c")];
    assert "a"[0] != "b"[0] && "b"[0] != "c"[0] && "a"[0] != "c"[0];
    assert Norm(analyses[0].0, analyses[0].1) == ("a", "b");
    assert Norm(analyses[1].0, analyses[1].1) == ("b", "c");
    assert Norm(analyses[2].0, analyses[2].1) == ("a", "c");
  }

  lemma TriangleIsAccepted()
    ensures Accepts(["a", "b", "c", "d"], true, [("a", "b"), ("b", "c"), ("a", "c")])
  {
    var names := ["a", "b", "c", "d"];
    TriangleKeys();
    assert names[0] in Elements(names) && names[1] in Elements(names) && names[2] in Elements(names);
  }

  lemma TriangleLeavesOut(x: string)
    ensures !Compared([("a", "b"), ("b", "c"), ("a", "c")], "d", x)
  {
    assert "a"[0] != "d"[0] && "b"[0] != "d"[0] && "c"[0] != "d"[0];
  }

  /** A baseline-only inventory of four that passes and leaves `d` uncompared. */
  lemma AcceptedTriangle()
    ensures var names := ["a", "b", "c", "d"];
      var analyses := [("a", "b"), ("b", "c"), ("a", "c")];
      && Accepts(names, true, analyses) && !CoversOnce(names, analyses)
      && forall x :: !Compared(analyses, "d", x)
  {
    var names := ["a", "b", "c", "d"];
    TriangleIsAccepted();
    forall x ensures !Compared([("a", "b"), ("b", "c"), ("a", "c")], "d", x) { TriangleLeavesOut(x); }
    assert names[0] in Elements(names) && names[3] in Elements(names) && "a"[0] != "d"[0];
  }
}
