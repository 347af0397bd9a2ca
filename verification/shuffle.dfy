/** The descending Fisher-Yates shuffle of the round scheduler (src/engine.rs lines 1219-1227). */
module Shuffle {
  import opened Sequences

  function Range(n: nat): (r: seq<nat>)
    ensures |r| == n && forall i :: 0 <= i < n ==> r[i] == i
  {
    seq(n, i => i)
  }

  /** `p` rearranges `0..n`. */
  ghost predicate IsPermutation(p: seq<nat>, n: nat) { multiset(p) == multiset(Range(n)) }

  function Swap(a: seq<nat>, i: nat, j: nat): (b: seq<nat>)
    requires i < |a| && j < |a|
    ensures |b| == |a|
  {
    a[i := a[j]][j := a[i]]
  }

  /** One choice for each of the positions `i, i - 1, ..., 1`, none above its position. */
  ghost predicate Choices(js: seq<nat>, i: nat) {
    |js| == i && forall k :: 0 <= k < i ==> js[k] <= i - k
  }

  /** The swaps for positions `i` down to 1. */
  function Shuffled(a: seq<nat>, i: nat, js: seq<nat>): (b: seq<nat>)
    requires i < |a| && |js| == i && forall k :: 0 <= k < i ==> js[k] <= i - k
    ensures |b| == |a|
    decreases i
  {
    if i == 0 then a else Shuffled(Swap(a, i, js[0]), i - 1, js[1..])
  }

  /** The schedule for `n` benchmarks. */
  function Schedule(n: nat, js: seq<nat>): (p: seq<nat>)
    requires |js| == (if n == 0 then 0 else n - 1) && forall k :: 0 <= k < |js| ==> js[k] <= n - 1 - k
  {
    if n == 0 then [] else Shuffled(Range(n), n - 1, js)
  }

  lemma SwapKeepsMultiset(a: seq<nat>, i: nat, j: nat)
    requires i < |a| && j < |a|
    ensures multiset(Swap(a, i, j)) == multiset(a)
  {
  }

  lemma {:induction false} ShuffleKeepsMultiset(a: seq<nat>, i: nat, js: seq<nat>)
    requires i < |a| && Choices(js, i)
    ensures multiset(Shuffled(a, i, js)) == multiset(a)
    decreases i
  {
    if i > 0 {
      SwapKeepsMultiset(a, i, js[0]);
      ShuffleKeepsMultiset(Swap(a, i, js[0]), i - 1, js[1..]);
    }
  }

  /** Positions above `i` are final. */
  lemma {:induction false} ShuffleKeepsAbove(a: seq<nat>, i: nat, js: seq<nat>, k: nat)
    requires i < k < |a| && Choices(js, i)
    ensures Shuffled(a, i, js)[k] == a[k]
    decreases i
  {
    if i > 0 {
      ShuffleKeepsAbove(Swap(a, i, js[0]), i - 1, js[1..], k);
    }
  }

  lemma SwapKeepsDistinct(a: seq<nat>, i: nat, j: nat)
    requires i < |a| && j < |a| && Distinct(a)
    ensures Distinct(Swap(a, i, j))
  {
  }

  /** Different choices give different arrangements. */
  lemma {:induction false} ShuffleInjective(a: seq<nat>, i: nat, js: seq<nat>, ks: seq<nat>)
    requires i < |a| && Distinct(a) && Choices(js, i) && Choices(ks, i)
    requires Shuffled(a, i, js) == Shuffled(a, i, ks)
    ensures js == ks
    decreases i
  {
    if i > 0 {
      var b, c := Swap(a, i, js[0]), Swap(a, i, ks[0]);
      ShuffleKeepsAbove(b, i - 1, js[1..], i);
      ShuffleKeepsAbove(c, i - 1, ks[1..], i);
      assert a[js[0]] == b[i] == c[i] == a[ks[0]];
      SwapKeepsDistinct(a, i, js[0]);
      ShuffleInjective(b, i - 1, js[1..], ks[1..]);
      assert js == [js[0]] + js[1..] && ks == [ks[0]] + ks[1..];
    }
  }

  lemma DropLast(p: seq<nat>, i: nat)
    requires i < |p|
    ensures p[i] in p[..i + 1] && multiset(p[..i]) == multiset(p[..i + 1]) - multiset{p[i]}
  {
    assert p[..i + 1] == p[..i] + [p[i]];
  }

  lemma FindInPrefix(a: seq<nat>, p: seq<nat>, i: nat) returns (j: nat)
    requires i < |a| == |p| && multiset(p[..i + 1]) == multiset(a[..i + 1])
    ensures j <= i && a[j] == p[i]
  {
    DropLast(p, i);
    assert p[i] in multiset(p[..i + 1]);
    assert p[i] in a[..i + 1];
    j :| j <= i && a[..i + 1][j] == p[i];
  }

  lemma FirstChoice(a: seq<nat>, i: nat, p: seq<nat>) returns (j: nat)
    requires 0 < i < |a| == |p| && multiset(p[..i + 1]) == multiset(a[..i + 1])
    requires forall k :: i < k < |a| ==> p[k] == a[k]
    ensures j <= i && multiset(p[..i]) == multiset(Swap(a, i, j)[..i])
    ensures forall k :: i <= k < |a| ==> p[k] == Swap(a, i, j)[k]
  {
    j := FindInPrefix(a, p, i);
    PrefixAfterSwap(a, i, j);
    DropLast(p, i);
  }

  lemma ChoiceInFront(a: seq<nat>, i: nat, j: nat, rest: seq<nat>)
    requires 0 < i < |a| && j <= i && Choices(rest, i - 1)
    ensures Choices([j] + rest, i) && Shuffled(a, i, [j] + rest) == Shuffled(Swap(a, i, j), i - 1, rest)
  {
    assert ([j] + rest)[1..] == rest;
  }

  /** Every arrangement of the first `i + 1` positions comes from some choices. */
  lemma {:induction false} ShuffleSurjective(a: seq<nat>, i: nat, p: seq<nat>) returns (js: seq<nat>)
    requires i < |a| == |p| && multiset(p[..i + 1]) == multiset(a[..i + 1])
    requires forall k :: i < k < |a| ==> p[k] == a[k]
    ensures Choices(js, i) && Shuffled(a, i, js) == p
    decreases i
  {
    if i == 0 {
      js := [];
      var j := FindInPrefix(a, p, 0);
    } else {
      var j := FirstChoice(a, i, p);
      var rest := ShuffleSurjective(Swap(a, i, j), i - 1, p);
      js := [j] + rest;
      ChoiceInFront(a, i, j, rest);
    }
  }

  lemma PrefixAfterSwap(a: seq<nat>, i: nat, j: nat)
    requires j <= i < |a|
    ensures multiset(Swap(a, i, j)[..i]) == multiset(a[..i + 1]) - multiset{a[j]}
    ensures Swap(a, i, j)[i] == a[j] && forall k :: i < k < |a| ==> Swap(a, i, j)[k] == a[k]
  {
    var b := Swap(a, i, j);
    assert b[..i + 1] == Swap(a[..i + 1], i, j);
    SwapKeepsMultiset(a[..i + 1], i, j);
    assert b[..i + 1] == b[..i] + [b[i]];
  }

  /** Every choice vector yields a permutation of `0..n`, distinct vectors distinct ones. */
  lemma ScheduleIsPermutation(n: nat, js: seq<nat>)
    requires Choices(js, if n == 0 then 0 else n - 1)
    ensures IsPermutation(Schedule(n, js), n)
  {
    if n > 0 {
      ShuffleKeepsMultiset(Range(n), n - 1, js);
    }
  }

  lemma ScheduleInjective(n: nat, js: seq<nat>, ks: seq<nat>)
    requires Choices(js, if n == 0 then 0 else n - 1) && Choices(ks, if n == 0 then 0 else n - 1)
    requires Schedule(n, js) == Schedule(n, ks)
    ensures js == ks
  {
    if n > 0 {
      ShuffleInjective(Range(n), n - 1, js, ks);
    }
  }

  /** Every permutation is reached, so the choice vectors and the permutations correspond
      one to one. */
  lemma ScheduleSurjective(n: nat, p: seq<nat>) returns (js: seq<nat>)
    requires IsPermutation(p, n)
    ensures Choices(js, if n == 0 then 0 else n - 1) && Schedule(n, js) == p
  {
    assert |p| == |multiset(p)| == |multiset(Range(n))| == n;
    if n == 0 {
      js := [];
    } else {
      assert p[..n] == p && Range(n)[..n] == Range(n);
      js := ShuffleSurjective(Range(n), n - 1, p);
    }
  }

  /** The positions drawn by a generator: draw `k` serves position `n - 1 - k`. */
  function Drawn(n: nat, draw: nat -> nat): (js: seq<nat>)
    ensures |js| == (if n == 0 then 0 else n - 1) && forall k :: 0 <= k < |js| ==> js[k] == draw(k) % (n - k)
  {
    seq(if n == 0 then 0 else n - 1, k requires 0 <= k < n => draw(k) % (n - k))
  }

  lemma SwapIsFirst(before: seq<nat>, after: seq<nat>, i: nat, j: nat, js: seq<nat>)
    requires 0 < i < |before| == |after| && Choices(js, i) && js[0] == j && j <= i
    requires after[i] == before[j] && after[j] == before[i] && forall k :: 0 <= k < |after| && k != i && k != j ==> after[k] == before[k]
    ensures Choices(js[1..], i - 1) && Shuffled(after, i - 1, js[1..]) == Shuffled(before, i, js)
  {
    assert after == Swap(before, i, j);
  }

  /** The loop itself, swapping in place. */
  method RandomPermutation(n: nat, draw: nat -> nat) returns (perm: array<nat>)
    ensures fresh(perm)
    ensures Choices(Drawn(n, draw), if n == 0 then 0 else n - 1)
    ensures perm[..] == Schedule(n, Drawn(n, draw))
    ensures IsPermutation(perm[..], n)
  {
    perm := new nat[n](i => i);
    assert perm[..] == Range(n);
    ghost var js := Drawn(n, draw);
    ghost var rest := js;
    var i := n;
    while i > 1
      invariant i <= n && (n > 0 ==> i > 0)
      invariant rest == js[n - i..]
      invariant n > 0 ==> Choices(rest, i - 1) && Shuffled(perm[..], i - 1, rest) == Schedule(n, js)
    {
      i := i - 1;
      var j := draw(n - 1 - i) % (i + 1);
      ghost var before := perm[..];
      perm[i], perm[j] := perm[j], perm[i];
      SwapIsFirst(before, perm[..], i, j, rest);
      rest := rest[1..];
    }
    ScheduleIsPermutation(n, js);
  }
}
