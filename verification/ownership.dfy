/** Whose processor time counts as foreign (src/platform.rs lines 164-199 and 302-324), on
    platforms where a process reading does not depend on who owns the process. */
module Ownership {
  import opened Wrappers

  type Pid = nat

  datatype Proc = Proc(parent: Option<Pid>, userTask: bool)

  // ----- the owned processes -----

  /** `p` is a process in its own right with its parent in `s`. */
  predicate ChildOf(processes: map<Pid, Proc>, s: set<Pid>, p: Pid) {
    p in processes && !processes[p].userTask && processes[p].parent.Some? && processes[p].parent.value in s
  }

  predicate Closed(processes: map<Pid, Proc>, s: set<Pid>) {
    forall p :: p in processes && ChildOf(processes, s, p) ==> p in s
  }

  /** `s` is the least set with the registered pids that is closed under children. */
  ghost predicate IsLeast(processes: map<Pid, Proc>, registered: set<Pid>, s: set<Pid>) {
    && registered <= s && Closed(processes, s)
    && forall t: set<Pid> :: registered <= t && Closed(processes, t) ==> s <= t
  }

  function Members(pids: seq<Pid>): set<Pid> { set p | p in pids }

  /** The children found in one pass over the process table, in some order. */
  method Children(processes: map<Pid, Proc>, owned: seq<Pid>) returns (children: seq<Pid>)
    ensures forall p :: p in children <==> ChildOf(processes, Members(owned), p) && p !in owned
  {
    children := [];
    var todo := processes.Keys;
    while todo != {}
      invariant todo <= processes.Keys
      invariant forall p :: p in children <==> p in processes.Keys - todo && ChildOf(processes, Members(owned), p) && p !in owned
      decreases |todo|
    {
      var p :| p in todo;
      if ChildOf(processes, Members(owned), p) && p !in owned { children := children + [p]; }
      todo := todo - {p};
    }
  }

  /** The loop that extends the owned list until no child is missing. */
  method OwnedDescendants(processes: map<Pid, Proc>, registered: seq<Pid>) returns (owned: seq<Pid>)
    ensures IsLeast(processes, Members(registered), Members(owned))
  {
    owned := registered;
    while true
      invariant Members(registered) <= Members(owned)
      invariant forall t: set<Pid> :: Members(registered) <= t && Closed(processes, t) ==> Members(owned) <= t
      decreases |processes.Keys - Members(owned)|
    {
      var children := Children(processes, owned);
      if children == [] { break; }
      ghost var before := Members(owned);
      owned := owned + children;
      assert Members(owned) == before + Members(children);
      assert children[0] in children;
      Fewer(processes.Keys, before, Members(owned), children[0]);
      forall t: set<Pid> | Members(registered) <= t && Closed(processes, t) ensures Members(owned) <= t {
        ClosedKeepsChildren(processes, before, t);
      }
    }
  }

  lemma ClosedKeepsChildren(processes: map<Pid, Proc>, s: set<Pid>, t: set<Pid>)
    requires s <= t && Closed(processes, t)
    ensures forall p :: ChildOf(processes, s, p) ==> p in t
  {
    forall p | ChildOf(processes, s, p) ensures p in t { assert ChildOf(processes, t, p); }
  }

  lemma Fewer(all: set<Pid>, before: set<Pid>, after: set<Pid>, p: Pid)
    requires before <= after && p in all && p !in before && p in after
    ensures |all - after| < |all - before|
  {
    assert all - before == (all - after) + (all * (after - before));
    assert p in all * (after - before);
  }

  /** Registering more pids never makes the owned set smaller. */
  lemma LeastGrows(processes: map<Pid, Proc>, a: set<Pid>, b: set<Pid>, s: set<Pid>, t: set<Pid>)
    requires a <= b && IsLeast(processes, a, s) && IsLeast(processes, b, t)
    ensures s <= t
  {
  }

  /** The registered pids, with all descendants if any of them is a worker. */
  ghost predicate Followed(processes: map<Pid, Proc>, launchers: seq<Pid>, workers: seq<Pid>, s: set<Pid>) {
    if workers == [] then s == Members(launchers) else IsLeast(processes, Members(launchers + workers), s)
  }

  /** `owned` are the pids a snapshot owns. */
  ghost predicate Owns(processes: map<Pid, Proc>, launchers: seq<Pid>, workers: seq<Pid>, excludeOwner: bool,
                       current: Option<Pid>, owned: set<Pid>) {
    exists s: set<Pid> ::
      && Followed(processes, launchers, workers, s)
      && owned == s + if (excludeOwner || s != {}) && current.Some? then {current.value} else {}
  }

  /** The owned pids of a snapshot: descendants are followed only for registered workers, and the
      current process joins whenever anything is owned or the owner is excluded. */
  method OwnedPids(processes: map<Pid, Proc>, launchers: seq<Pid>, workers: seq<Pid>, excludeOwner: bool, current: Option<Pid>)
    returns (owned: seq<Pid>)
    ensures Owns(processes, launchers, workers, excludeOwner, current, Members(owned))
  {
    owned := launchers + workers;
    if workers != [] { owned := OwnedDescendants(processes, owned); } else { assert owned == launchers; }
    ghost var s := Members(owned);
    assert Followed(processes, launchers, workers, s);
    assert s != {} <==> owned != [] by { if owned != [] { assert owned[0] in s; } }
    if excludeOwner || owned != [] {
      if current.Some? {
        owned := owned + [current.value];
        assert Members(owned) == s + {current.value};
      }
    }
  }

  // ----- foreign activity -----

  /** One reading: processor use in percent of one core. */
  datatype Reading = Reading(pid: Pid, percent: real)

  const HEAVY := 10.0

  predicate IsHeavy(r: Reading, owned: set<Pid>, tasks: set<Pid>) { r.pid !in owned && r.pid !in tasks && r.percent > HEAVY }

  function OwnPercent(readings: seq<Reading>, owned: set<Pid>): real {
    if readings == [] then 0.0
    else
      var last := readings[|readings| - 1];
      OwnPercent(readings[..|readings| - 1], owned) + if last.pid in owned then last.percent else 0.0
  }

  function HeavyCount(readings: seq<Reading>, owned: set<Pid>, tasks: set<Pid>): nat {
    if readings == [] then 0
    else
      HeavyCount(readings[..|readings| - 1], owned, tasks) + if IsHeavy(readings[|readings| - 1], owned, tasks) then 1 else 0
  }

  function OwnShare(readings: seq<Reading>, owned: set<Pid>, cores: nat): real
    requires cores > 0
  {
    OwnPercent(readings, owned) / cores as real / 100.0
  }

  function Foreign(overall: real, cores: nat, readings: seq<Reading>, owned: set<Pid>): real {
    if cores == 0 then overall
    else
      var rest := overall - OwnShare(readings, owned, cores);
      if rest > 0.0 then rest else 0.0
  }

  method ForeignActivity(overall: real, cores: nat, readings: seq<Reading>, owned: seq<Pid>, tasks: seq<Pid>)
    returns (foreign: real, heavy: nat)
    ensures foreign == Foreign(overall, cores, readings, Members(owned))
    ensures heavy == HeavyCount(readings, Members(owned), Members(tasks))
  {
    var ownPercent := 0.0;
    heavy := 0;
    for k := 0 to |readings|
      invariant ownPercent == OwnPercent(readings[..k], Members(owned))
      invariant heavy == HeavyCount(readings[..k], Members(owned), Members(tasks))
    {
      assert readings[..k + 1][..k] == readings[..k];
      var r := readings[k];
      if r.pid in owned {
        ownPercent := ownPercent + r.percent;
      } else if r.pid !in tasks && r.percent > HEAVY {
        heavy := heavy + 1;
      }
    }
    assert readings[..|readings|] == readings;
    if cores == 0 {
      foreign := overall;
    } else {
      foreign := overall - ownPercent / cores as real / 100.0;
      if foreign < 0.0 { foreign := 0.0; }
    }
  }

  /** No process is read twice. */
  predicate OneEach(readings: seq<Reading>) { forall i, j :: 0 <= i < j < |readings| ==> readings[i].pid != readings[j].pid }

  /** The processes that are neither owned nor tasks and use more than a tenth of a core. */
  function HeavyPids(readings: seq<Reading>, owned: set<Pid>, tasks: set<Pid>): set<Pid> {
    set k | 0 <= k < |readings| && readings[k].pid !in owned + tasks && readings[k].percent > 10.0 :: readings[k].pid
  }

  /** Every process has one reading, so the count is of processes, each once. */
  lemma {:induction false} HeavyCountsProcesses(readings: seq<Reading>, owned: set<Pid>, tasks: set<Pid>)
    requires OneEach(readings)
    ensures HeavyCount(readings, owned, tasks) == |HeavyPids(readings, owned, tasks)|
    decreases |readings|
  {
    if readings != [] {
      var front, last := readings[..|readings| - 1], readings[|readings| - 1];
      HeavyCountsProcesses(front, owned, tasks);
      assert forall k :: 0 <= k < |front| ==> front[k] == readings[k];
      var more := if IsHeavy(last, owned, tasks) then {last.pid} else {};
      assert HeavyPids(readings, owned, tasks) == HeavyPids(front, owned, tasks) + more;
    } else {
      assert HeavyPids(readings, owned, tasks) == {};
    }
  }

  /** What was read of the owned processes, by pid. */
  function OwnReadings(readings: seq<Reading>, owned: set<Pid>): map<Pid, real> {
    if readings == [] then map[]
    else
      var front, last := OwnReadings(readings[..|readings| - 1], owned), readings[|readings| - 1];
      if last.pid in owned then front[last.pid := last.percent] else front
  }

  /** With one reading per process the map holds exactly the owned processes that were read,
      each with its own reading. */
  lemma {:induction false} OwnReadingsMean(readings: seq<Reading>, owned: set<Pid>)
    requires OneEach(readings)
    ensures forall p :: p in OwnReadings(readings, owned) ==> p in owned && exists k :: 0 <= k < |readings| && readings[k].pid == p
    ensures forall k :: 0 <= k < |readings| && readings[k].pid in owned ==>
      (readings[k].pid in OwnReadings(readings, owned) && OwnReadings(readings, owned)[readings[k].pid] == readings[k].percent)
    decreases |readings|
  {
    if readings != [] {
      var front := readings[..|readings| - 1];
      assert forall k :: 0 <= k < |front| ==> front[k] == readings[k];
      OwnReadingsMean(front, owned);
    }
  }

  ghost function Total(percents: map<Pid, real>): real
    decreases |percents|
  {
    if percents == map[] then 0.0 else
      var p :| p in percents;
      percents[p] + Total(percents - {p})
  }

  lemma {:induction false} TotalRemove(percents: map<Pid, real>, p: Pid)
    requires p in percents
    ensures Total(percents) == percents[p] + Total(percents - {p})
    decreases |percents|
  {
    var q :| q in percents && Total(percents) == percents[q] + Total(percents - {q});
    if q != p {
      TotalRemove(percents - {q}, p);
      TotalRemove(percents - {p}, q);
      assert percents - {q} - {p} == percents - {p} - {q};
    }
  }

  /** So the owned share adds up every owned process that was read, each once. */
  lemma {:induction false} OwnPercentCountsProcesses(readings: seq<Reading>, owned: set<Pid>)
    requires OneEach(readings)
    ensures OwnPercent(readings, owned) == Total(OwnReadings(readings, owned))
    decreases |readings|
  {
    if readings != [] {
      var front, last := readings[..|readings| - 1], readings[|readings| - 1];
      assert forall k :: 0 <= k < |front| ==> front[k] == readings[k];
      OwnPercentCountsProcesses(front, owned);
      if last.pid in owned {
        OwnReadingsMean(front, owned);
        assert last.pid !in OwnReadings(front, owned);
        TotalRemove(OwnReadings(readings, owned), last.pid);
        assert OwnReadings(readings, owned) - {last.pid} == OwnReadings(front, owned);
      }
    }
  }

  predicate NonNegative(readings: seq<Reading>) { forall k :: 0 <= k < |readings| ==> readings[k].percent >= 0.0 }

  lemma {:induction false} OwnPercentGrows(readings: seq<Reading>, a: set<Pid>, b: set<Pid>)
    requires NonNegative(readings) && a <= b
    ensures 0.0 <= OwnPercent(readings, a) <= OwnPercent(readings, b)
    decreases |readings|
  {
    if readings != [] { OwnPercentGrows(readings[..|readings| - 1], a, b); }
  }

  lemma {:induction false} HeavyCountShrinks(readings: seq<Reading>, a: set<Pid>, b: set<Pid>, tasks: set<Pid>)
    requires a <= b
    ensures HeavyCount(readings, b, tasks) <= HeavyCount(readings, a, tasks)
    decreases |readings|
  {
    if readings != [] { HeavyCountShrinks(readings[..|readings| - 1], a, b, tasks); }
  }

  lemma SharesCompare(x: real, y: real, cores: nat)
    requires cores > 0 && 0.0 <= x <= y
    ensures 0.0 <= x / cores as real / 100.0 <= y / cores as real / 100.0
  {
    var c := cores as real;
    assert (y - x) / c >= 0.0 && y / c == x / c + (y - x) / c;
  }

  /** Foreign load lies between nothing and the overall load, and subtracting loses nothing exactly
      if the owned share does not exceed the overall load. */
  lemma ForeignIsBounded(overall: real, cores: nat, readings: seq<Reading>, owned: set<Pid>)
    requires NonNegative(readings) && overall >= 0.0
    ensures 0.0 <= Foreign(overall, cores, readings, owned) <= overall
    ensures cores > 0 ==>
      (Foreign(overall, cores, readings, owned) + OwnShare(readings, owned, cores) == overall
       <==> OwnShare(readings, owned, cores) <= overall)
  {
    OwnPercentGrows(readings, owned, owned);
    if cores > 0 { SharesCompare(0.0, OwnPercent(readings, owned), cores); }
  }

  /** Owning more never raises the foreign load or the number of heavy foreign processes. */
  lemma OwningMoreShowsLess(overall: real, cores: nat, readings: seq<Reading>, a: set<Pid>, b: set<Pid>, tasks: set<Pid>)
    requires NonNegative(readings) && a <= b
    ensures Foreign(overall, cores, readings, b) <= Foreign(overall, cores, readings, a)
    ensures HeavyCount(readings, b, tasks) <= HeavyCount(readings, a, tasks)
  {
    OwnPercentGrows(readings, a, b);
    HeavyCountShrinks(readings, a, b, tasks);
    if cores > 0 { SharesCompare(OwnPercent(readings, a), OwnPercent(readings, b), cores); }
  }

  lemma FollowedGrows(processes: map<Pid, Proc>, launchers: seq<Pid>, workers: seq<Pid>,
                      launchers': seq<Pid>, workers': seq<Pid>, s: set<Pid>, s': set<Pid>)
    requires Members(launchers) <= Members(launchers') && Members(workers) <= Members(workers')
    requires Followed(processes, launchers, workers, s) && Followed(processes, launchers', workers', s')
    ensures s <= s'
  {
    assert Members(launchers + workers) == Members(launchers) + Members(workers);
    assert Members(launchers' + workers') == Members(launchers') + Members(workers');
    if workers != [] {
      assert workers[0] in Members(workers');
      LeastGrows(processes, Members(launchers + workers), Members(launchers' + workers'), s, s');
    }
  }

  /** Registering more launchers or workers never raises the foreign load of a snapshot or its
      number of heavy foreign processes, whatever the process table looks like. */
  lemma RegisteringMoreShowsLess(processes: map<Pid, Proc>, launchers: seq<Pid>, workers: seq<Pid>,
                                 launchers': seq<Pid>, workers': seq<Pid>, excludeOwner: bool, current: Option<Pid>,
                                 owned: set<Pid>, owned': set<Pid>,
                                 overall: real, cores: nat, readings: seq<Reading>, tasks: set<Pid>)
    requires Members(launchers) <= Members(launchers') && Members(workers) <= Members(workers')
    requires Owns(processes, launchers, workers, excludeOwner, current, owned)
    requires Owns(processes, launchers', workers', excludeOwner, current, owned')
    requires NonNegative(readings)
    ensures owned <= owned'
    ensures Foreign(overall, cores, readings, owned') <= Foreign(overall, cores, readings, owned)
    ensures HeavyCount(readings, owned', tasks) <= HeavyCount(readings, owned, tasks)
  {
    var s: set<Pid> :|
      && Followed(processes, launchers, workers, s)
      && owned == s + if (excludeOwner || s != {}) && current.Some? then {current.value} else {};
    var s': set<Pid> :|
      && Followed(processes, launchers', workers', s')
      && owned' == s' + if (excludeOwner || s' != {}) && current.Some? then {current.value} else {};
    FollowedGrows(processes, launchers, workers, launchers', workers', s, s');
    OwningMoreShowsLess(overall, cores, readings, owned, owned', tasks);
  }

  lemma Without(ys: seq<Reading>, k: nat)
    requires k < |ys|
    ensures multiset(ys[..k] + ys[k + 1..]) == multiset(ys) - multiset{ys[k]}
  {
    assert ys == ys[..k] + [ys[k]] + ys[k + 1..];
  }

  /** The order in which the process table is visited does not matter. */
  lemma {:induction false} OrderDoesNotMatter(xs: seq<Reading>, ys: seq<Reading>, owned: set<Pid>, tasks: set<Pid>)
    requires multiset(xs) == multiset(ys)
    ensures OwnPercent(xs, owned) == OwnPercent(ys, owned) && HeavyCount(xs, owned, tasks) == HeavyCount(ys, owned, tasks)
    decreases |xs|
  {
    assert |xs| == |multiset(xs)| == |multiset(ys)| == |ys|;
    if xs != [] {
      var front, last := xs[..|xs| - 1], xs[|xs| - 1];
      Without(xs, |xs| - 1);
      assert front + xs[|xs|..] == front;
      assert xs[|xs| - 1] in multiset(ys);
      var k :| 0 <= k < |ys| && ys[k] == last;
      Without(ys, k);
      Removed(ys, k, owned, tasks);
      OrderDoesNotMatter(front, ys[..k] + ys[k + 1..], owned, tasks);
    }
  }

  lemma Appended(front: seq<Reading>, r: Reading, owned: set<Pid>, tasks: set<Pid>)
    ensures OwnPercent(front + [r], owned) == OwnPercent(front, owned) + if r.pid in owned then r.percent else 0.0
    ensures HeavyCount(front + [r], owned, tasks) == HeavyCount(front, owned, tasks) + if IsHeavy(r, owned, tasks) then 1 else 0
  {
    assert (front + [r])[..|front|] == front;
  }

  lemma {:induction false} Removed(ys: seq<Reading>, k: nat, owned: set<Pid>, tasks: set<Pid>)
    requires k < |ys|
    ensures var rest := ys[..k] + ys[k + 1..];
      && OwnPercent(ys, owned) == OwnPercent(rest, owned) + (if ys[k].pid in owned then ys[k].percent else 0.0)
      && HeavyCount(ys, owned, tasks) == HeavyCount(rest, owned, tasks) + (if IsHeavy(ys[k], owned, tasks) then 1 else 0)
    decreases |ys|
  {
    var front, last := ys[..|ys| - 1], ys[|ys| - 1];
    Appended(front, last, owned, tasks);
    assert ys == front + [last];
    if k == |front| {
      assert ys[..k] + ys[k + 1..] == front;
    } else {
      Removed(front, k, owned, tasks);
      Appended(front[..k] + front[k + 1..], last, owned, tasks);
      assert ys[..k] + ys[k + 1..] == front[..k] + front[k + 1..] + [last];
    }
  }
}
