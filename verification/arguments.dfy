/** Harness arguments (src/plan.rs lines 197-296 and src/lib.rs lines 870-882). */
module Arguments {
  import opened Decimal
  import opened Text
  import opened Wrappers

  const VALUED_OPTIONS: seq<string> := [
    "mode", "processes", "rounds", "margin", "confidence", "workload-id", "scope", "timeout", "group", "format",
    "save-baseline", "baseline", "max-regression", "best-of-passes", "mean-of-passes", "median-of-passes",
    "best-of-processes", "mean-of-processes", "median-of-processes", "cpu-policy", "cpu-set"
  ]

  /** A known option given without `=`. */
  predicate Bare(a: string) { "--" <= a && a[2..] in VALUED_OPTIONS }

  /** What may follow a bare option. */
  predicate IsValue(v: string) { v != "" && !("--" <= v) }

  /** The normal form of an argument list, `None` where an option lacks its value. */
  function Normalize(args: seq<string>): (r: Option<seq<string>>)
    decreases |args|
  {
    if args == [] then Some([])
    else if Bare(args[0]) then
      if |args| == 1 || !IsValue(args[1]) then None
      else Prepend([args[0] + "=" + args[1]], Normalize(args[2..]))
    else Prepend([args[0]], Normalize(args[1..]))
  }

  function Prepend(front: seq<string>, r: Option<seq<string>>): Option<seq<string>> {
    if r.Some? then Some(front + r.value) else None
  }

  method NormalizeHarnessArgs(args: seq<string>) returns (r: Option<seq<string>>)
    ensures r == Normalize(args)
  {
    var normalized: seq<string> := [];
    var i := 0;
    assert args[0..] == args;
    assert forall v: seq<string> :: [] + v == v && v + [] == v;
    while i < |args|
      invariant 0 <= i <= |args|
      invariant Normalize(args) == Prepend(normalized, Normalize(args[i..]))
    {
      ghost var before, rest := normalized, args[i..];
      if Bare(args[i]) {
        if i + 1 == |args| || !IsValue(args[i + 1]) { return None; }
        normalized := normalized + [args[i] + "=" + args[i + 1]];
        assert rest[2..] == args[i + 2..];
        PrependTwice(before, [args[i] + "=" + args[i + 1]], Normalize(rest[2..]));
        i := i + 2;
      } else {
        normalized := normalized + [args[i]];
        assert rest[1..] == args[i + 1..];
        PrependTwice(before, [args[i]], Normalize(rest[1..]));
        i := i + 1;
      }
    }
    assert args[i..] == [];
    return Some(normalized);
  }

  lemma PrependTwice(a: seq<string>, b: seq<string>, r: Option<seq<string>>)
    ensures Prepend(a, Prepend(b, r)) == Prepend(a + b, r)
  {
    if r.Some? { assert a + (b + r.value) == (a + b) + r.value; }
  }

  ghost predicate Stable(args: seq<string>) { forall i :: 0 <= i < |args| ==> !Bare(args[i]) }

  lemma OptionHasNoEquals(k: nat)
    requires k < |VALUED_OPTIONS|
    ensures '=' !in VALUED_OPTIONS[k]
  {
  }

  lemma NamesHaveNoEquals(name: string)
    requires name in VALUED_OPTIONS
    ensures '=' !in name
  {
    var k :| 0 <= k < |VALUED_OPTIONS| && VALUED_OPTIONS[k] == name;
    OptionHasNoEquals(k);
  }

  lemma JoinedIsNotBare(option: string, v: string)
    requires |option| >= 2
    ensures !Bare(option + "=" + v)
  {
    var joined := option + "=" + v;
    if Bare(joined) {
      assert joined[2..][|option| - 2] == '=';
      NamesHaveNoEquals(joined[2..]);
    }
  }

  lemma {:induction false} NormalizeKeepsStable(args: seq<string>)
    requires Stable(args)
    ensures Normalize(args) == Some(args)
    decreases |args|
  {
    if args != [] {
      NormalizeKeepsStable(args[1..]);
      assert args == [args[0]] + args[1..];
    }
  }

  lemma {:induction false} NormalizedIsStable(args: seq<string>)
    requires Normalize(args).Some?
    ensures Stable(Normalize(args).value)
    decreases |args|
  {
    if args != [] {
      if Bare(args[0]) {
        NormalizedIsStable(args[2..]);
        JoinedIsNotBare(args[0], args[1]);
      } else {
        NormalizedIsStable(args[1..]);
      }
    }
  }

  /** Normalizing twice is normalizing once. */
  lemma NormalizeIsIdempotent(args: seq<string>)
    requires Normalize(args).Some?
    ensures Normalize(Normalize(args).value) == Normalize(args)
  {
    NormalizedIsStable(args);
    NormalizeKeepsStable(Normalize(args).value);
  }

  lemma Regroup(front: seq<string>, k: nat, middle: seq<string>, back: seq<string>)
    requires k <= |front|
    ensures front + (middle + back) == front + middle + back
    ensures front[k..] + (middle + back) == front[k..] + middle + back
  {
  }

  lemma AfterPlain(front: seq<string>, rest: seq<string>)
    requires front != [] && !Bare(front[0])
    ensures Normalize(front + rest) == Prepend([front[0]], Normalize(front[1..] + rest))
  {
    assert (front + rest)[1..] == front[1..] + rest;
  }

  lemma AfterBare(front: seq<string>, rest: seq<string>)
    requires |front| >= 2 && Bare(front[0])
    ensures Normalize(front + rest)
         == if IsValue(front[1]) then Prepend([front[0] + "=" + front[1]], Normalize(front[2..] + rest)) else None
  {
    assert (front + rest)[2..] == front[2..] + rest;
  }

  lemma SeparatedAlone(option: string, v: string, back: seq<string>)
    requires Bare(option) && IsValue(v)
    ensures Normalize([option, v] + back) == Normalize([option + "=" + v] + back)
  {
    JoinedIsNotBare(option, v);
    AfterBare([option, v], back);
    AfterPlain([option + "=" + v], back);
    assert [option, v][2..] + back == back && [option + "=" + v][1..] + back == back;
  }

  /** Neither form can be the value of the option before it. */
  lemma SeparatedAsValue(before: string, option: string, v: string, back: seq<string>)
    requires Bare(before) && Bare(option)
    ensures Normalize([before] + [option, v] + back) == None == Normalize([before] + [option + "=" + v] + back)
  {
    assert "--" <= option + "=" + v;
    assert ([before] + [option, v] + back)[1] == option;
    assert ([before] + [option + "=" + v] + back)[1] == option + "=" + v;
  }

  /** `--x v` and `--x=v` mean the same anywhere in a list, errors elsewhere included. */
  lemma {:induction false} SeparatedIsJoined(front: seq<string>, option: string, v: string, back: seq<string>)
    requires Bare(option) && IsValue(v)
    ensures Normalize(front + [option, v] + back) == Normalize(front + [option + "=" + v] + back)
    decreases |front|
  {
    if front == [] {
      SeparatedAlone(option, v, back);
      assert front + [option, v] + back == [option, v] + back && front + [option + "=" + v] + back == [option + "=" + v] + back;
    } else if !Bare(front[0]) {
      SeparatedIsJoined(front[1..], option, v, back);
      AfterPlain(front, [option, v] + back);
      AfterPlain(front, [option + "=" + v] + back);
      Regroup(front, 1, [option, v], back);
      Regroup(front, 1, [option + "=" + v], back);
    } else if |front| == 1 {
      SeparatedAsValue(front[0], option, v, back);
      assert front == [front[0]];
    } else {
      SeparatedIsJoined(front[2..], option, v, back);
      AfterBare(front, [option, v] + back);
      AfterBare(front, [option + "=" + v] + back);
      Regroup(front, 2, [option, v], back);
      Regroup(front, 2, [option + "=" + v], back);
    }
  }

  // ----- lookups -----

  /** The values given for one option. */
  function Values(args: seq<string>, prefix: string): (r: seq<string>)
    decreases |args|
  {
    if args == [] then []
    else if prefix <= args[0] then [args[0][|prefix|..]] + Values(args[1..], prefix)
    else Values(args[1..], prefix)
  }

  /** Options the supervisor keeps to itself. */
  const SUPERVISOR_OPTIONS: seq<string> := [
    "--best-of-processes=", "--mean-of-processes=", "--median-of-processes=", "--format=", "--save-baseline=",
    "--baseline=", "--max-regression="
  ]

  predicate Withheld(a: string) {
    a == "--update-on-pass" || exists k :: 0 <= k < |SUPERVISOR_OPTIONS| && SUPERVISOR_OPTIONS[k] <= a
  }

  /** The arguments a child process gets. */
  function ChildArgs(args: seq<string>): (r: seq<string>)
    ensures forall a :: a in r <==> a in args && !Withheld(a)
    decreases |args|
  {
    if args == [] then []
    else if Withheld(args[0]) then ChildArgs(args[1..])
    else [args[0]] + ChildArgs(args[1..])
  }

  lemma {:induction false} ChildSeesValues(args: seq<string>, prefix: string)
    requires forall a :: prefix <= a ==> !Withheld(a)
    ensures Values(ChildArgs(args), prefix) == Values(args, prefix)
    decreases |args|
  {
    if args != [] {
      ChildSeesValues(args[1..], prefix);
    }
  }

  lemma Clash(p: string, q: string, a: string, k: nat)
    requires k < |p| && k < |q| && p[k] != q[k]
    ensures !(p <= a && q <= a)
  {
    assert p <= a ==> p[k] == a[k];
  }

  const PLAN_OPTIONS: seq<string> := [
    "--mode=", "--processes=", "--rounds=", "--margin=", "--confidence=", "--workload-id=", "--scope=", "--timeout="
  ]

  /** No withheld option starts like an option of the plan. */
  lemma PlanOptionsReachChild(prefix: string, a: string)
    requires prefix in PLAN_OPTIONS
    requires prefix <= a
    ensures !Withheld(a)
  {
    forall k | 0 <= k < |SUPERVISOR_OPTIONS| ensures !(SUPERVISOR_OPTIONS[k] <= a) {
      var other := SUPERVISOR_OPTIONS[k];
      if other[2] != prefix[2] { Clash(other, prefix, a, 2); }
      else if other[3] != prefix[3] { Clash(other, prefix, a, 3); }
      else { Clash(other, prefix, a, 4); }
    }
    Clash("--update-on-pass", prefix, a, 2);
  }

  /** The child's own normalization leaves its arguments as they are. */
  lemma ChildArgsAreNormal(raw: seq<string>)
    requires Normalize(raw).Some?
    ensures Normalize(ChildArgs(Normalize(raw).value)) == Some(ChildArgs(Normalize(raw).value))
  {
    var args := Normalize(raw).value;
    NormalizedIsStable(raw);
    forall i | 0 <= i < |ChildArgs(args)| ensures !Bare(ChildArgs(args)[i]) {
      assert ChildArgs(args)[i] in args;
    }
    NormalizeKeepsStable(ChildArgs(args));
  }

  // ----- the check of the command line -----

  const SWITCHES: seq<string> := ["--bench", "--no-busy-gate", "--update-on-pass", "--dry-run"]
  const FORMATS: seq<string> := ["llm", "csv", "md", "markdown", "json", "html"]

  /** `--name=value` split at the first equals sign. */
  function OptionOf(a: string): (r: Option<(string, string)>)
    ensures r.Some? ==> a == "--" + r.value.0 + "=" + r.value.1
  {
    if "--" <= a then SplitOnce(a[2..], '=') else None
  }

  predicate Usable(name: string, value: string, isPercentage: string -> bool) {
    && name in VALUED_OPTIONS
    && value != ""
    && (Contains(name, "-of-") ==> Parse(value, U64_VALUES).Some? && Parse(value, U64_VALUES).value > 0)
    && (name == "format" ==> value in FORMATS)
    && (name == "max-regression" ==> isPercentage(value))
  }

  /** Every argument is a switch or a known option with a usable value. */
  predicate AllFit(args: seq<string>, isPercentage: string -> bool) {
    forall i :: 0 <= i < |args| ==>
      || args[i] in SWITCHES
      || (OptionOf(args[i]).Some? && Usable(OptionOf(args[i]).value.0, OptionOf(args[i]).value.1, isPercentage))
  }

  predicate Names(a: string, name: string) { a !in SWITCHES && OptionOf(a).Some? && OptionOf(a).value.0 == name }

  predicate Given(args: seq<string>, name: string) { exists i :: 0 <= i < |args| && Names(args[i], name) }

  predicate NoneTwice(args: seq<string>) {
    forall i, j :: 0 <= i < j < |args| && OptionOf(args[j]).Some? ==> args[j] in SWITCHES || !Names(args[i], OptionOf(args[j]).value.0)
  }

  const REPETITIONS: seq<string> := ["best-of-processes", "mean-of-processes", "median-of-processes"]

  predicate Consistent(args: seq<string>) {
    && !(Given(args, "save-baseline") && Given(args, "baseline"))
    && ("--update-on-pass" in args ==> Given(args, "baseline"))
    && (Given(args, "max-regression") ==> Given(args, "baseline"))
    && !(Given(args, "processes") && exists k :: 0 <= k < |REPETITIONS| && Given(args, REPETITIONS[k]))
  }

  /** An argument that the loop lets pass after the options in `seen`. */
  predicate Passes(a: string, seen: set<string>, isPercentage: string -> bool) {
    a in SWITCHES
    || (OptionOf(a).Some? && Usable(OptionOf(a).value.0, OptionOf(a).value.1, isPercentage) && OptionOf(a).value.0 !in seen)
  }

  function SeenAfter(a: string, seen: set<string>): set<string> {
    if a in SWITCHES || OptionOf(a).None? then seen else seen + {OptionOf(a).value.0}
  }

  /** The first `k` arguments are in order and gave the options in `seen`. */
  ghost predicate Scanned(args: seq<string>, k: nat, seen: set<string>, isPercentage: string -> bool)
    requires k <= |args|
  {
    AllFit(args[..k], isPercentage) && NoneTwice(args[..k]) && forall name :: name in seen <==> Given(args[..k], name)
  }

  lemma GivenGrows(args: seq<string>, a: string, name: string)
    ensures Given(args + [a], name) <==> Given(args, name) || Names(a, name)
  {
    var more := args + [a];
    assert forall i :: 0 <= i < |args| ==> more[i] == args[i];
    assert more[|args|] == a;
    if Given(args, name) {
      var i :| 0 <= i < |args| && Names(args[i], name);
      assert Names(more[i], name);
    }
  }

  lemma FitsGrow(args: seq<string>, a: string, isPercentage: string -> bool)
    ensures AllFit(args + [a], isPercentage) <==>
      (AllFit(args, isPercentage)
       && (a in SWITCHES || (OptionOf(a).Some? && Usable(OptionOf(a).value.0, OptionOf(a).value.1, isPercentage))))
  {
    var more := args + [a];
    assert forall i :: 0 <= i < |args| ==> more[i] == args[i];
    assert more[|args|] == a;
  }

  lemma NoneTwiceGrows(args: seq<string>, a: string)
    ensures NoneTwice(args + [a]) <==> NoneTwice(args) && (a in SWITCHES || OptionOf(a).None? || !Given(args, OptionOf(a).value.0))
  {
    var more := args + [a];
    assert forall i :: 0 <= i < |args| ==> more[i] == args[i];
    assert more[|args|] == a;
  }

  lemma ShorterPasses(args: seq<string>, i: nat, isPercentage: string -> bool)
    requires i <= |args|
    ensures AllFit(args, isPercentage) ==> AllFit(args[..i], isPercentage)
    ensures NoneTwice(args) ==> NoneTwice(args[..i])
  {
  }

  /** The next argument: if it passes the scan goes on, else the list is not in order. */
  lemma ScanGrows(args: seq<string>, k: nat, seen: set<string>, isPercentage: string -> bool)
    requires k < |args| && Scanned(args, k, seen, isPercentage)
    ensures Passes(args[k], seen, isPercentage) ==> Scanned(args, k + 1, SeenAfter(args[k], seen), isPercentage)
    ensures !Passes(args[k], seen, isPercentage) ==> !(AllFit(args, isPercentage) && NoneTwice(args))
  {
    assert args[..k + 1] == args[..k] + [args[k]];
    FitsGrow(args[..k], args[k], isPercentage);
    NoneTwiceGrows(args[..k], args[k]);
    ShorterPasses(args, k + 1, isPercentage);
    if Passes(args[k], seen, isPercentage) {
      forall name ensures name in SeenAfter(args[k], seen) <==> Given(args[..k + 1], name) { GivenGrows(args[..k], args[k], name); }
    }
  }

  /** The loop over the normalized arguments. */
  method ScanOptions(args: seq<string>, isPercentage: string -> bool) returns (ok: bool, seen: set<string>)
    ensures ok <==> AllFit(args, isPercentage) && NoneTwice(args)
    ensures ok ==> forall name :: name in seen <==> Given(args, name)
  {
    seen := {};
    for i := 0 to |args|
      invariant Scanned(args, i, seen, isPercentage)
    {
      ScanGrows(args, i, seen, isPercentage);
      if args[i] in SWITCHES { continue; }
      var option := OptionOf(args[i]);
      if option.None? { return false, seen; }
      var (name, value) := option.value;
      if !Usable(name, value, isPercentage) || name in seen { return false, seen; }
      seen := seen + {name};
    }
    assert args[..|args|] == args;
    ok := true;
  }

  method ValidateHarnessArgs(raw: seq<string>, isPercentage: string -> bool) returns (ok: bool)
    ensures ok <==>
      && Normalize(raw).Some?
      && AllFit(Normalize(raw).value, isPercentage)
      && NoneTwice(Normalize(raw).value)
      && Consistent(Normalize(raw).value)
  {
    var normal := NormalizeHarnessArgs(raw);
    if normal.None? { return false; }
    var args := normal.value;
    var fits, seen := ScanOptions(args, isPercentage);
    if !fits { return false; }
    if "save-baseline" in seen && "baseline" in seen { return false; }
    if "--update-on-pass" in args && "baseline" !in seen { return false; }
    if "max-regression" in seen && "baseline" !in seen { return false; }
    ok := !("processes" in seen && exists k :: 0 <= k < |REPETITIONS| && REPETITIONS[k] in seen);
  }

  /** In an accepted command line no lookup finds an option twice. */
  lemma {:induction false} AcceptedGivesOnce(args: seq<string>, name: string)
    requires NoneTwice(args) && name in VALUED_OPTIONS
    ensures |Values(args, "--" + name + "=")| <= 1
    ensures |Values(args, "--" + name + "=")| == 0 <==> !Given(args, name)
    decreases |args|
  {
    if args != [] {
      var prefix, rest := "--" + name + "=", args[1..];
      AcceptedGivesOnce(rest, name);
      NamesHaveNoEquals(name);
      PrefixNames(args[0], name);
      assert forall i :: 0 < i < |args| ==> args[i] == rest[i - 1];
      assert forall i :: 0 <= i < |rest| ==> rest[i] == args[i + 1];
      assert Given(args, name) <==> Names(args[0], name) || Given(rest, name);
    }
  }

  lemma SwitchesHaveNoEquals(a: string)
    requires a in SWITCHES
    ensures '=' !in a
  {
  }

  lemma PrefixNames(a: string, name: string)
    requires '=' !in name
    ensures "--" + name + "=" <= a <==> Names(a, name)
  {
    var prefix := "--" + name + "=";
    if prefix <= a {
      var value := a[|prefix|..];
      assert a == prefix + value;
      assert a[2..] == name + ['='] + value;
      SplitOnceOf(name, '=', value);
      assert a[|prefix| - 1] == '=';
      if a in SWITCHES { SwitchesHaveNoEquals(a); }
    }
  }
}
