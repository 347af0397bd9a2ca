/** The measurement loop of one comparison group (src/engine.rs lines 129-141 and 654-783).
    Clocks, timers, random draws, the resource gate and the convergence test are inputs. */
module Rounds {
  import opened Records
  import opened Sequences
  import opened Shuffle
  import opened Validator
  import opened Wrappers

  /** What one run of the loop observes, by round number. */
  datatype World = World(
    wall: nat -> nat,            // group wall time at the first check before a round
    wallAgain: nat -> nat,       // and at the second
    duration: nat -> nat,        // time the round itself takes
    draws: nat -> nat -> nat,    // draws for the order of the round
    jitter: nat -> nat,          // draw for the iteration count
    elapsed: (nat, nat) -> nat,  // raw nanoseconds of a benchmark in a round
    clean: nat -> Option<bool>,
    age: nat -> Option<nat>,
    converged: seq<Round> -> bool)

  // ----- one sample -----

  /** Division of Rust's signed integers. */
  function Truncated(a: int, b: int): int
    requires b > 0
  {
    if a >= 0 then a / b else -(-a / b)
  }

  function AtLeastOne(x: int): nat { if x < 1 then 1 else x }

  /** `n` is the estimate and `jitter` percent of it, cut towards zero. */
  ghost predicate Jitters(n: nat, base: nat, jitter: int) {
    && 4 * base <= 5 * n <= 6 * base
    && (jitter >= 0 ==> 100 * (n - base) <= base * jitter < 100 * (n - base) + 100)
    && (jitter <= 0 ==> 100 * (base - n) <= base * -jitter < 100 * (base - n) + 100)
  }

  function SweptIterations(base: nat, phase: nat): (n: nat)
    requires base >= 1 && phase <= 9
    ensures var fifths := base * (phase + 1) / 5; n == if fifths == 0 then 1 else fifths
  {
    var factor := 0.2 + 1.8 * phase as real / 9.0;
    var scaled := base as real * factor;
    SweepInFifths(base, phase);
    (if scaled < 1.0 then 1.0 else scaled).Floor
  }

  function JitteredIterations(base: nat, jitter: int): (n: nat)
    requires base >= 1 && -20 <= jitter <= 20
    ensures n >= 1 && Jitters(n, base, jitter)
  {
    JitterBounds(base, jitter);
    AtLeastOne(base + Truncated(base * jitter, 100))
  }

  /** In linear sampling one to ten fifths of the estimate, over and over; otherwise the estimate
      with a jitter between -20 and 20 percent. */
  ghost predicate IterationsFit(n: nat, base: nat, linear: bool, round: nat, draw: nat) {
    if linear then var fifths := base * (round % 10 + 1) / 5; n == if fifths == 0 then 1 else fifths
    else Jitters(n, base, draw % 41 - 20)
  }

  /** Iterations in a round. */
  function RoundIterations(base: nat, linear: bool, round: nat, draw: nat): (n: nat)
    requires base >= 1
    ensures n >= 1 && IterationsFit(n, base, linear, round, draw)
  {
    if linear then SweptIterations(base, round % 10) else JitteredIterations(base, draw % 41 - 20)
  }

  lemma SweepInFifths(base: nat, phase: nat)
    requires base >= 1 && phase <= 9
    ensures (base as real * (0.2 + 1.8 * phase as real / 9.0)).Floor == base * (phase + 1) / 5
  {
    var fifths := base * (phase + 1);
    assert base as real * (0.2 + 1.8 * phase as real / 9.0) == fifths as real / 5.0 by {
      assert 0.2 + 1.8 * phase as real / 9.0 == (phase + 1) as real / 5.0;
      assert base as real * (phase + 1) as real == fifths as real;
    }
    assert fifths == 5 * (fifths / 5) + fifths % 5;
  }

  lemma JitterBounds(base: nat, jitter: int)
    requires base >= 1 && -20 <= jitter <= 20
    ensures base + Truncated(base * jitter, 100) >= 1 && Jitters(base + Truncated(base * jitter, 100), base, jitter)
  {
    assert -20 * base <= base * jitter <= 20 * base;
  }

  /** `c` is what is left of `elapsed` when the overhead of each iteration is taken off: within
      one nanosecond above it, one if nothing is left, and all of it if there is no overhead. */
  ghost predicate WithoutOverhead(c: nat, elapsed: nat, overhead: real, iterations: nat) {
    var left := elapsed as real - overhead * iterations as real;
    && (overhead >= 0.0 && left > 0.0 ==> 0.0 <= c as real - left < 1.0)
    && (overhead >= 0.0 && left <= 0.0 ==> c == 1)
    && (overhead < 0.0 ==> c == if elapsed == 0 then 1 else elapsed)
  }

  /** The time without the loop overhead, at least one nanosecond. */
  function Compensated(elapsed: nat, overhead: real, iterations: nat): (c: nat)
    ensures c >= 1 && WithoutOverhead(c, elapsed, overhead, iterations)
  {
    var product := overhead * iterations as real;
    SignOfOverhead(overhead, iterations);
    var total: nat := if product < 0.0 then 0 else product.Floor;
    var left := if total < elapsed then elapsed - total else 0;
    AtLeastOne(left)
  }

  lemma SignOfOverhead(overhead: real, iterations: nat)
    ensures overhead >= 0.0 ==> overhead * iterations as real >= 0.0
    ensures overhead < 0.0 ==> overhead * iterations as real <= 0.0
  {
  }

  /** How the samples of a group of `n` benchmarks are taken. */
  datatype Sampling = Sampling(n: nat, order: nat -> seq<nat>, iterations: nat -> nat, compensate: (nat, nat) -> nat)

  function SamplingOf(n: nat, base: nat, linear: bool, overhead: real, w: World): Sampling
    requires base >= 1
  {
    Sampling(n, r => Schedule(n, Drawn(n, w.draws(r))), r => RoundIterations(base, linear, r, w.jitter(r)),
             (elapsed, iterations) => Compensated(elapsed, overhead, iterations))
  }

  ghost predicate Fair(s: Sampling) {
    && (forall r :: IsPermutation(s.order(r), s.n))
    && (forall r :: s.iterations(r) >= 1)
    && (forall elapsed, iterations :: s.compensate(elapsed, iterations) >= 1)
  }

  /** The orders are the ones the shuffle computes from the draws. */
  ghost predicate Draws(s: Sampling, w: World) {
    forall r {:trigger w.draws(r)} :: s.order(r) == Schedule(s.n, Drawn(s.n, w.draws(r)))
  }

  lemma OrderIsPermutation(s: Sampling, w: World, r: nat)
    requires Draws(s, w)
    ensures IsPermutation(s.order(r), s.n)
  {
    ScheduleIsPermutation(s.n, Drawn(s.n, w.draws(r)));
  }

  /** Every sampling of the engine is fair. */
  lemma SamplingIsFair(n: nat, base: nat, linear: bool, overhead: real, w: World)
    requires base >= 1
    ensures Draws(SamplingOf(n, base, linear, overhead, w), w)
    ensures Fair(SamplingOf(n, base, linear, overhead, w))
  {
    var s := SamplingOf(n, base, linear, overhead, w);
    forall r: nat ensures IsPermutation(s.order(r), n) { OrderIsPermutation(s, w, r); }
    forall r: nat ensures s.iterations(r) >= 1 {
      assert s.iterations(r) == RoundIterations(base, linear, r, w.jitter(r));
    }
  }

  // ----- the record of a round -----

  function RawTimes(n: nat, w: World, r: nat): (t: seq<nat>)
    ensures |t| == n && forall b :: 0 <= b < n ==> t[b] == w.elapsed(r, b)
  {
    if n == 0 then [] else RawTimes(n - 1, w, r) + [w.elapsed(r, n - 1)]
  }

  function CompensatedTimes(s: Sampling, raw: seq<nat>, iterations: nat): (t: seq<nat>)
    ensures |t| == |raw| && forall b :: 0 <= b < |raw| ==> t[b] == s.compensate(raw[b], iterations)
  {
    seq(|raw|, b requires 0 <= b < |raw| => s.compensate(raw[b], iterations))
  }

  /** Round `r` of a run. */
  function Recorded(s: Sampling, w: World, r: nat): Round {
    Round(s.iterations(r), s.order(r), RawTimes(s.n, w, r),
          CompensatedTimes(s, RawTimes(s.n, w, r), s.iterations(r)), w.clean(r), w.age(r))
  }

  /** Whatever the world does, a recorded round is well-formed and has positive times. */
  lemma RecordedIsWellFormed(s: Sampling, w: World, r: nat)
    requires Fair(s)
    ensures WellFormed(Recorded(s, w, r), s.n)
    ensures forall b :: 0 <= b < s.n ==> Recorded(s, w, r).compensated[b] >= 1
  {
  }

  lemma RecordedParts(s: Sampling, w: World, r: nat, b: nat)
    requires b < s.n
    ensures var round := Recorded(s, w, r);
      && round.iterations == s.iterations(r) && round.order == s.order(r)
      && round.clean == w.clean(r) && round.age == w.age(r)
      && |round.elapsed| == |round.compensated| == s.n && round.elapsed[b] == w.elapsed(r, b)
      && round.compensated[b] == s.compensate(w.elapsed(r, b), round.iterations)
  {
  }

  /** The drawn order, the swept or jittered number of iterations, and the time of benchmark `b`
      with and without the overhead. */
  ghost predicate RecordFits(round: Round, n: nat, base: nat, linear: bool, overhead: real, w: World, r: nat, b: nat) {
    && round.order == Schedule(n, Drawn(n, w.draws(r))) && round.clean == w.clean(r) && round.age == w.age(r)
    && IterationsFit(round.iterations, base, linear, r, w.jitter(r))
    && b < n == |round.elapsed| == |round.compensated| && round.elapsed[b] == w.elapsed(r, b)
    && WithoutOverhead(round.compensated[b], w.elapsed(r, b), overhead, round.iterations)
  }

  /** What a round of the engine's own sampling records. */
  lemma RecordedMeans(n: nat, base: nat, linear: bool, overhead: real, w: World, r: nat, b: nat)
    requires base >= 1 && b < n
    ensures RecordFits(Recorded(SamplingOf(n, base, linear, overhead, w), w, r), n, base, linear, overhead, w, r, b)
  {
    var s := SamplingOf(n, base, linear, overhead, w);
    RecordedParts(s, w, r, b);
    assert s.iterations(r) == RoundIterations(base, linear, r, w.jitter(r));
    assert s.compensate(w.elapsed(r, b), s.iterations(r)) == Compensated(w.elapsed(r, b), overhead, s.iterations(r));
  }

  function Spent(w: World, r: nat): nat { if r == 0 then 0 else Spent(w, r - 1) + w.duration(r - 1) }

  lemma SpentGrows(w: World, r: nat)
    ensures Spent(w, r + 1) == Spent(w, r) + w.duration(r)
  {
  }

  /** The checks before round `r`. */
  predicate StopsBefore(config: Config, w: World, r: nat) {
    || w.wall(r) >= config.maxWall
    || (r >= config.minRounds && Spent(w, r) >= config.maxTime)
    || (r >= config.minRounds && w.wallAgain(r) >= config.maxWall)
  }

  /** The check after `|rounds|` rounds. */
  predicate StopsAfter(config: Config, w: World, rounds: seq<Round>) {
    && config.autoRounds
    && |rounds| >= (if config.minRounds > 30 then config.minRounds else 30)
    && |rounds| % 10 == 0
    && w.converged(rounds)
  }

  function AllRecorded(s: Sampling, w: World, count: nat): (rounds: seq<Round>)
    ensures |rounds| == count && forall r :: 0 <= r < count ==> rounds[r] == Recorded(s, w, r)
  {
    seq(count, r requires r >= 0 => Recorded(s, w, r))
  }

  /** The compensated times of one benchmark, round by round. */
  function Column(rounds: seq<Round>, b: nat): (r: seq<nat>)
    requires forall k :: 0 <= k < |rounds| ==> b < |rounds[k].compensated|
    ensures |r| == |rounds| && forall k :: 0 <= k < |r| ==> r[k] == rounds[k].compensated[b]
  {
    seq(|rounds|, k requires 0 <= k < |rounds| => rounds[k].compensated[b])
  }

  /** Every place occurs once. */
  ghost predicate VisitsEach(order: seq<nat>, n: nat) {
    && |order| == n && (forall k :: 0 <= k < n ==> order[k] < n)
    && (forall b :: 0 <= b < n ==> b in order)
    && (forall j, k :: 0 <= j < k < n ==> order[j] != order[k])
  }

  /** Every benchmark is run once, in the given order, and its times go to its own places. */
  method RunInOrder(s: Sampling, w: World, r: nat, order: seq<nat>, iterations: nat, samples: array<seq<nat>>)
    returns (elapsed: array<nat>, compensated: array<nat>)
    requires samples.Length == s.n && VisitsEach(order, s.n)
    modifies samples
    ensures fresh(elapsed) && fresh(compensated) && elapsed.Length == compensated.Length == s.n
    ensures forall b :: 0 <= b < s.n ==>
      && elapsed[b] == w.elapsed(r, b) && compensated[b] == s.compensate(w.elapsed(r, b), iterations)
      && samples[b] == old(samples[b]) + [compensated[b]]
  {
    elapsed := new nat[s.n](_ => 0);
    compensated := new nat[s.n](_ => 0);
    ghost var done: set<nat> := {};
    for k := 0 to s.n
      modifies samples, elapsed, compensated
      invariant forall j :: 0 <= j < s.n ==> (order[j] in done <==> j < k)
      invariant forall b :: 0 <= b < s.n && b in done ==>
        && elapsed[b] == w.elapsed(r, b) && compensated[b] == s.compensate(w.elapsed(r, b), iterations)
        && samples[b] == old(samples[b]) + [compensated[b]]
      invariant forall b :: 0 <= b < s.n && b !in done ==> samples[b] == old(samples[b])
    {
      var b := order[k];
      assert forall j :: 0 <= j < s.n && j != k ==> order[j] != b;
      elapsed[b] := w.elapsed(r, b);
      compensated[b] := s.compensate(w.elapsed(r, b), iterations);
      samples[b] := samples[b] + [compensated[b]];
      done := done + {b};
    }
    forall b | 0 <= b < s.n ensures b in done {
      assert b in order;
      var j :| 0 <= j < |order| && order[j] == b;
    }
  }

  /** One round, in the drawn order. */
  method MeasureRound(s: Sampling, w: World, r: nat, samples: array<seq<nat>>) returns (round: Round)
    requires samples.Length == s.n && Draws(s, w)
    modifies samples
    ensures round == Recorded(s, w, r)
    ensures forall b :: 0 <= b < s.n ==> samples[b] == old(samples[b]) + [round.compensated[b]]
  {
    var drawn := RandomPermutation(s.n, w.draws(r));
    var order := drawn[..];
    assert order == s.order(r);
    PermutationCovers(order, s.n);
    var iterations := s.iterations(r);
    var elapsed, compensated := RunInOrder(s, w, r, order, iterations, samples);
    round := Round(iterations, order, elapsed[..], compensated[..], w.clean(r), w.age(r));
    ghost var expected := Recorded(s, w, r);
    assert round.elapsed == expected.elapsed && round.compensated == expected.compensated;
  }

  lemma PermutationCovers(p: seq<nat>, n: nat)
    requires IsPermutation(p, n)
    ensures VisitsEach(p, n)
  {
    assert |p| == |multiset(p)| == |multiset(Range(n))|;
    forall k | 0 <= k < n ensures p[k] < n { assert p[k] in multiset(Range(n)); }
    forall b: nat | b < n ensures b in p {
      assert Range(n)[b] == b;
      assert b in multiset(Range(n));
      assert b in multiset(p);
    }
    forall j, k | 0 <= j < k < n ensures p[j] != p[k] {
      DistinctOnce(Range(n), p[j]);
      if p[j] == p[k] { TwiceCounts(p, j, k); }
    }
  }

  /** No check stops the loop after `r` rounds. */
  predicate Continues(config: Config, s: Sampling, w: World, r: nat)
  {
    !StopsAfter(config, w, AllRecorded(s, w, r)) && !StopsBefore(config, w, r)
  }

  /** The loop has gone on through every round so far, and `spent` is what they took. */
  ghost predicate RecordedUpTo(config: Config, s: Sampling, w: World, rounds: seq<Round>, spent: nat) {
    && rounds == AllRecorded(s, w, |rounds|) && spent == Spent(w, |rounds|)
    && forall r :: 0 <= r < |rounds| ==> Continues(config, s, w, r)
  }

  lemma AllRecordedGrows(s: Sampling, w: World, count: nat)
    ensures AllRecorded(s, w, count + 1) == AllRecorded(s, w, count) + [Recorded(s, w, count)]
  {
  }

  lemma RecordedGrows(config: Config, s: Sampling, w: World, rounds: seq<Round>, spent: nat, kept: Round)
    requires RecordedUpTo(config, s, w, rounds, spent) && kept == Recorded(s, w, |rounds|)
    requires !StopsAfter(config, w, rounds) && !StopsBefore(config, w, |rounds|)
    ensures RecordedUpTo(config, s, w, rounds + [kept], spent + w.duration(|rounds|))
  {
    SpentGrows(w, |rounds|);
    AllRecordedGrows(s, w, |rounds|);
  }

  /** Benchmark by benchmark, the compensated times of the rounds. */
  ghost predicate Collected(columns: seq<seq<nat>>, rounds: seq<Round>, n: nat) {
    && |columns| == n
    && (forall k :: 0 <= k < |rounds| ==> |rounds[k].compensated| == n)
    && forall b :: 0 <= b < n ==> columns[b] == Column(rounds, b)
  }

  lemma CollectedGrows(before: seq<seq<nat>>, after: seq<seq<nat>>, rounds: seq<Round>, kept: Round, n: nat)
    requires Collected(before, rounds, n) && |after| == n && |kept.compensated| == n
    requires forall b :: 0 <= b < n ==> after[b] == before[b] + [kept.compensated[b]]
    ensures Collected(after, rounds + [kept], n)
  {
    forall b | 0 <= b < n ensures Column(rounds + [kept], b) == Column(rounds, b) + [kept.compensated[b]] {}
  }

  /** The rounds up to the first number at which a check stops the loop. */
  ghost predicate Kept(config: Config, s: Sampling, w: World, rounds: seq<Round>) {
    && |rounds| <= config.maxRounds && rounds == AllRecorded(s, w, |rounds|)
    && (forall r :: 0 <= r < |rounds| ==> Continues(config, s, w, r))
    && (|rounds| < config.maxRounds ==> !Continues(config, s, w, |rounds|))
  }

  lemma StopKeeps(config: Config, s: Sampling, w: World, rounds: seq<Round>, spent: nat)
    requires RecordedUpTo(config, s, w, rounds, spent) && |rounds| <= config.maxRounds
    requires |rounds| == config.maxRounds || StopsAfter(config, w, rounds) || StopsBefore(config, w, |rounds|)
    ensures Kept(config, s, w, rounds)
  {
  }

  /** The checks at the top of the loop (lines 658-686). */
  method ReachesLimit(config: Config, w: World, round: nat, spent: nat) returns (stop: bool)
    requires spent == Spent(w, round)
    ensures stop <==> StopsBefore(config, w, round)
  {
    if w.wall(round) >= config.maxWall { return true; }
    if round >= config.minRounds && spent >= config.maxTime { return true; }
    return round >= config.minRounds && w.wallAgain(round) >= config.maxWall;
  }

  /** The loop: it keeps every round up to the first number at which a check stops it. */
  method MeasureGroup(config: Config, s: Sampling, w: World)
    returns (rounds: seq<Round>, completed: nat, samples: array<seq<nat>>)
    requires Draws(s, w)
    ensures fresh(samples) && completed == |rounds|
    ensures Kept(config, s, w, rounds)
    ensures Collected(samples[..], rounds, s.n)
  {
    samples := new seq<nat>[s.n](_ => []);
    rounds, completed := [], 0;
    var spent: nat := 0;
    for round := 0 to config.maxRounds
      invariant completed == |rounds| == round && RecordedUpTo(config, s, w, rounds, spent)
      invariant !StopsAfter(config, w, rounds)
      invariant Collected(samples[..], rounds, s.n)
    {
      var limit := ReachesLimit(config, w, round, spent);
      if limit {
        StopKeeps(config, s, w, rounds, spent);
        break;
      }
      ghost var before := samples[..];
      var kept := MeasureRound(s, w, round, samples);
      CollectedGrows(before, samples[..], rounds, kept, s.n);
      RecordedGrows(config, s, w, rounds, spent, kept);
      spent := spent + w.duration(round);
      rounds, completed := rounds + [kept], completed + 1;
      if config.autoRounds && completed >= (if config.minRounds > 30 then config.minRounds else 30)
         && completed % 10 == 0 && w.converged(rounds) {
        StopKeeps(config, s, w, rounds, spent);
        break;
      }
    }
    if completed == config.maxRounds { StopKeeps(config, s, w, rounds, spent); }
  }

  // ----- confirmation (lines 129-141) -----

  /** The settings of a confirming run; `None` is the failing assertion about two rounds. */
  function Confirming(config: Config, rounds: Option<nat>): Option<Config> {
    var maxRounds := if rounds.Some? then rounds.value else config.maxRounds;
    if maxRounds < 2 then None
    else Some(config.(maxRounds := maxRounds, minRounds := maxRounds, autoRounds := false))
  }

  /** No wall-clock reading before a round reaches the limit. */
  predicate NeverCut(config: Config, w: World) { forall r :: 0 <= r < config.maxRounds ==> w.wall(r) < config.maxWall }

  /** It measures the rounds asked for, or else as many as the group allows, and at least two. */
  lemma ConfirmingAsks(config: Config, asked: Option<nat>)
    ensures var planned := if asked.Some? then asked.value else config.maxRounds;
      && (Confirming(config, asked).Some? <==> planned >= 2)
      && (planned >= 2 ==>
            var c := Confirming(config, asked).value;
            c.maxRounds == planned == c.minRounds && !c.autoRounds && c.maxWall == config.maxWall && c.maxTime == config.maxTime)
  {
  }

  /** A confirming run measures every planned round, or is cut short by the wall clock. */
  lemma OnlyWallClockCuts(config: Config, asked: Option<nat>, s: Sampling, w: World, completed: nat)
    requires Confirming(config, asked).Some? && completed <= Confirming(config, asked).value.maxRounds
    requires var c := Confirming(config, asked).value;
      && (forall r :: 0 <= r < completed ==> Continues(c, s, w, r))
      && (completed < c.maxRounds ==> !Continues(c, s, w, completed))
    ensures var planned := if asked.Some? then asked.value else config.maxRounds;
      && completed <= planned && (completed < planned ==> w.wall(completed) >= config.maxWall)
      && (completed == planned <==> forall r :: 0 <= r < planned ==> w.wall(r) < config.maxWall)
      && (completed == planned <==> NeverCut(Confirming(config, asked).value, w))
  {
    var c := Confirming(config, asked).value;
    if completed == c.maxRounds {
      forall r | 0 <= r < c.maxRounds ensures w.wall(r) < c.maxWall { assert Continues(c, s, w, r); }
    }
  }

  // ----- means (src/stats.rs lines 40-58 and 86-90) -----

  function TimePer(r: Round, b: nat): real
    requires b < |r.compensated| && r.iterations >= 1
  {
    r.compensated[b] as real / r.iterations as real
  }

  /** Times the iterations it is the round's time again. */
  lemma TimePerMeans(r: Round, b: nat)
    requires b < |r.compensated| && r.iterations >= 1
    ensures TimePer(r, b) * r.iterations as real == r.compensated[b] as real
  {
  }

  function PerIteration(rounds: seq<Round>, b: nat): (r: seq<real>)
    requires forall k :: 0 <= k < |rounds| ==> b < |rounds[k].compensated| && rounds[k].iterations >= 1
    ensures |r| == |rounds|
    ensures forall k :: 0 <= k < |r| ==> r[k] == TimePer(rounds[k], b)
  {
    seq(|rounds|, k requires 0 <= k < |rounds| => TimePer(rounds[k], b))
  }

  function Total(values: seq<real>): real {
    if values == [] then 0.0 else Total(values[..|values| - 1]) + values[|values| - 1]
  }

  /** The running mean. */
  method MeanOf(values: seq<real>) returns (mean: real)
    ensures mean * |values| as real == Total(values)
    ensures values == [] ==> mean == 0.0
  {
    mean := 0.0;
    for k := 0 to |values|
      invariant mean * k as real == Total(values[..k])
      invariant k == 0 ==> mean == 0.0
    {
      var delta := values[k] - mean;
      assert values[..k + 1][..k] == values[..k];
      MeanStep(mean, delta, k);
      mean := mean + delta / (k + 1) as real;
    }
    assert values[..|values|] == values;
  }

  lemma MeanStep(mean: real, delta: real, k: nat)
    ensures (mean + delta / (k + 1) as real) * (k + 1) as real == mean * k as real + mean + delta
  {
    var m := (k + 1) as real;
    assert delta / m * m == delta;
    assert (mean + delta / m) * m == mean * m + delta / m * m;
    assert mean * m == mean * k as real + mean;
  }

  lemma {:induction false} PositiveTotal(values: seq<real>)
    requires forall k :: 0 <= k < |values| ==> values[k] > 0.0
    ensures Total(values) >= 0.0 && (values != [] ==> Total(values) > 0.0)
    decreases |values|
  {
    if values != [] { PositiveTotal(values[..|values| - 1]); }
  }

  lemma SignOfProduct(a: real, b: real)
    requires b > 0.0
    ensures a * b > 0.0 ==> a > 0.0
  {
  }

  lemma PositiveMean(values: seq<real>, mean: real)
    requires forall k :: 0 <= k < |values| ==> values[k] > 0.0
    requires mean * |values| as real == Total(values) && values != []
    ensures mean > 0.0
  {
    PositiveTotal(values);
    SignOfProduct(mean, |values| as real);
  }

  /** The recorded mean of benchmark `b` is the mean of its per-iteration times. */
  ghost predicate MeanFits(g: Group, rounds: seq<Round>, b: nat)
    requires b < |g.benchmarks|
  {
    && (forall k :: 0 <= k < |rounds| ==> b < |rounds[k].compensated| && rounds[k].iterations >= 1)
    && g.benchmarks[b].mean * |rounds| as real == Total(PerIteration(rounds, b))
  }

  /** The record of a confirming run: what the loop kept and the mean of every benchmark. */
  ghost predicate RecordOf(g: Group, config: Config, rounds: seq<Round>) {
    && g.config == Some(config) && g.rounds == rounds && g.completed == |rounds|
    && forall b :: 0 <= b < |g.benchmarks| ==> MeanFits(g, rounds, b)
  }

  lemma KeptRoundsFit(s: Sampling, w: World, rounds: seq<Round>)
    requires Fair(s) && rounds == AllRecorded(s, w, |rounds|)
    ensures forall k :: 0 <= k < |rounds| ==> WellFormed(rounds[k], s.n)
    ensures forall k, b :: 0 <= k < |rounds| && 0 <= b < s.n ==> rounds[k].compensated[b] >= 1
  {
    forall k | 0 <= k < |rounds|
      ensures WellFormed(rounds[k], s.n) && forall b :: 0 <= b < s.n ==> rounds[k].compensated[b] >= 1
    {
      RecordedIsWellFormed(s, w, k);
    }
  }

  lemma Quotient(a: nat, b: nat)
    requires a >= 1 && b >= 1
    ensures a as real / b as real > 0.0
  {
  }

  lemma KeptMeanIsPositive(g: Group, rounds: seq<Round>, b: nat)
    requires b < |g.benchmarks| && MeanFits(g, rounds, b) && rounds != []
    requires forall k :: 0 <= k < |rounds| ==> rounds[k].compensated[b] >= 1
    ensures g.benchmarks[b].mean > 0.0
  {
    var values := PerIteration(rounds, b);
    forall k | 0 <= k < |values| ensures values[k] > 0.0 { Quotient(rounds[k].compensated[b], rounds[k].iterations); }
    PositiveMean(values, g.benchmarks[b].mean);
  }

  lemma KeptMeansArePositive(s: Sampling, w: World, rounds: seq<Round>, g: Group)
    requires Fair(s) && |g.benchmarks| == s.n && rounds == AllRecorded(s, w, |rounds|) && rounds != []
    requires forall b :: 0 <= b < |g.benchmarks| ==> MeanFits(g, rounds, b)
    ensures !MeansFlaw(g)
  {
    KeptRoundsFit(s, w, rounds);
    forall b | 0 <= b < s.n ensures g.benchmarks[b].mean > 0.0 { KeptMeanIsPositive(g, rounds, b); }
  }

  /** Whatever happens during the measurement, the rounds kept by a confirming run are well-formed,
      and its record passes the unfinished-plan test exactly when the wall clock never cut
      it, in which case all means are positive too. */
  lemma ConfirmingRunIsAccepted(config: Config, asked: Option<nat>, s: Sampling, w: World, rounds: seq<Round>, g: Group)
    requires Fair(s) && Confirming(config, asked).Some? && |g.benchmarks| == s.n
    requires Kept(Confirming(config, asked).value, s, w, rounds) && RecordOf(g, Confirming(config, asked).value, rounds)
    ensures !RoundsFlaw(g)
    ensures Unfinished(g.config.value, g.completed, |g.rounds|) <==> !NeverCut(g.config.value, w)
    ensures NeverCut(g.config.value, w) ==> !MeansFlaw(g)
  {
    OnlyWallClockCuts(config, asked, s, w, |rounds|);
    KeptRoundsFit(s, w, rounds);
    if NeverCut(g.config.value, w) { KeptMeansArePositive(s, w, rounds, g); }
  }
}
