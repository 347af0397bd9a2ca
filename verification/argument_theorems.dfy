/** The command line as a grammar: what normalizing makes of it, which lists are accepted and what
    a child process is given (src/plan.rs lines 197-296, src/lib.rs lines 870-882). */
module ArgumentTheorems {
  import opened Arguments
  import opened Decimal
  import opened Plans
  import opened Text
  import opened Wrappers

  // ----- the options -----

  const SWITCH_NAMES: seq<string> := ["--bench", "--no-busy-gate", "--update-on-pass", "--dry-run"]

  /** Options whose value may be any text but the empty one. */
  const TEXT_OPTIONS: seq<string> := [
    "mode", "processes", "rounds", "margin", "confidence", "workload-id", "scope", "timeout", "group",
    "save-baseline", "baseline", "cpu-policy", "cpu-set"
  ]

  /** Options whose value is a positive number. */
  const PASS_REPETITIONS: seq<string> := ["best-of-passes", "mean-of-passes", "median-of-passes"]
  const PROCESS_REPETITIONS: seq<string> := ["best-of-processes", "mean-of-processes", "median-of-processes"]

  const FORMAT_NAMES: seq<string> := ["llm", "csv", "md", "markdown", "json", "html"]

  predicate IsRepetition(name: string) { name in PASS_REPETITIONS || name in PROCESS_REPETITIONS }

  predicate IsOption(name: string) {
    name in TEXT_OPTIONS || IsRepetition(name) || name == "format" || name == "max-regression"
  }

  predicate IsPositive(text: string) {
    Parse(text, 0x1_0000_0000_0000_0000).Some? && Parse(text, 0x1_0000_0000_0000_0000).value >= 1
  }

  predicate ValueFits(name: string, value: string, isPercentage: string -> bool) {
    && value != ""
    && (|| name in TEXT_OPTIONS
        || (IsRepetition(name) && IsPositive(value))
        || (name == "format" && value in FORMAT_NAMES)
        || (name == "max-regression" && isPercentage(value)))
  }

  lemma OptionsAreValued(name: string)
    ensures name in VALUED_OPTIONS <==> IsOption(name)
  {
    var texts := TEXT_OPTIONS;
    assert texts == texts[..9] + texts[9..11] + texts[11..];
    assert VALUED_OPTIONS
        == texts[..9] + ["format"] + texts[9..11] + ["max-regression"] + PASS_REPETITIONS + PROCESS_REPETITIONS + texts[11..];
  }

  /** No dash is followed by an `o`. */
  predicate PlainDashes(s: string) { forall i :: 0 <= i < |s| - 1 && s[i] == '-' ==> s[i + 1] != 'o' }

  lemma OfIsNoPlainDash(s: string)
    requires Contains(s, "-of-")
    ensures !PlainDashes(s)
  {
    var i :| 0 <= i <= |s| && "-of-" <= s[i..];
    assert s[i..][0] == s[i] && s[i..][1] == s[i + 1];
  }

  lemma TextOptionsArePlain(k: nat)
    requires k < |TEXT_OPTIONS|
    ensures PlainDashes(TEXT_OPTIONS[k]) && |TEXT_OPTIONS[k]| != 14 && TEXT_OPTIONS[k][0] != 'f'
  {
  }

  lemma RepetitionsAreNot(k: nat)
    requires k < 3
    ensures PASS_REPETITIONS[k][0] == "bmm"[k] && |PASS_REPETITIONS[k]| == (if k == 2 then 16 else 14)
    ensures "-of-" <= PASS_REPETITIONS[k][if k == 2 then 6 else 4..]
    ensures |PROCESS_REPETITIONS[k]| == (if k == 2 then 19 else 17) && "-of-" <= PROCESS_REPETITIONS[k][if k == 2 then 6 else 4..]
  {
  }

  /** Which numbers and percentages are asked for is decided by the name alone. */
  lemma NamesOfNumbers(name: string)
    requires IsOption(name)
    ensures Contains(name, "-of-") <==> IsRepetition(name)
    ensures (if name in TEXT_OPTIONS then 1 else 0) + (if IsRepetition(name) then 1 else 0)
          + (if name == "format" then 1 else 0) + (if name == "max-regression" then 1 else 0) == 1
  {
    if name in TEXT_OPTIONS {
      var k :| 0 <= k < |TEXT_OPTIONS| && TEXT_OPTIONS[k] == name;
      TextOptionsArePlain(k);
      TextIsNoRepetition(name);
    } else if IsRepetition(name) {
      RepetitionHasOf(name);
    } else {
      assert PlainDashes("format") && PlainDashes("max-regression");
    }
    if Contains(name, "-of-") { OfIsNoPlainDash(name); }
  }

  lemma RepetitionHasOf(name: string)
    requires IsRepetition(name)
    ensures Contains(name, "-of-") && name != "format" && name != "max-regression"
  {
    if name in PASS_REPETITIONS {
      var k :| 0 <= k < 3 && PASS_REPETITIONS[k] == name;
      RepetitionsAreNot(k);
    } else {
      var k :| 0 <= k < 3 && PROCESS_REPETITIONS[k] == name;
      RepetitionsAreNot(k);
    }
    if name == "max-regression" { OfIsNoPlainDash(name); }
  }

  lemma TextIsNoRepetition(name: string)
    requires PlainDashes(name)
    ensures !IsRepetition(name)
  {
    if IsRepetition(name) {
      RepetitionHasOf(name);
      OfIsNoPlainDash(name);
    }
  }

  lemma UsableMeans(name: string, value: string, isPercentage: string -> bool)
    ensures Usable(name, value, isPercentage) <==> ValueFits(name, value, isPercentage)
  {
    OptionsAreValued(name);
    if IsOption(name) { NamesOfNumbers(name); }
    assert FORMATS == FORMAT_NAMES;
  }

  // ----- the accepted command lines -----

  /** `a` gives option `name` the value `value`. */
  ghost predicate Gives(a: string, name: string, value: string) { a == "--" + name + "=" + value && '=' !in name }

  ghost predicate GivenIn(args: seq<string>, name: string) { exists i, value :: 0 <= i < |args| && Gives(args[i], name, value) }

  ghost predicate ArgumentFits(a: string, isPercentage: string -> bool) {
    a in SWITCH_NAMES || exists name, value :: Gives(a, name, value) && ValueFits(name, value, isPercentage)
  }

  /** A list of switches and options with fitting values, none given twice, and no two that exclude
      each other or lack the one they need. */
  ghost predicate Acceptable(args: seq<string>, isPercentage: string -> bool) {
    && (forall i :: 0 <= i < |args| ==> ArgumentFits(args[i], isPercentage))
    && (forall i, j, name, v, w :: 0 <= i < j < |args| && Gives(args[i], name, v) ==> !Gives(args[j], name, w))
    && !(GivenIn(args, "save-baseline") && GivenIn(args, "baseline"))
    && ("--update-on-pass" in args ==> GivenIn(args, "baseline"))
    && (GivenIn(args, "max-regression") ==> GivenIn(args, "baseline"))
    && !(GivenIn(args, "processes") && exists name :: name in PROCESS_REPETITIONS && GivenIn(args, name))
  }

  lemma OptionOfMeans(a: string, name: string, value: string)
    ensures OptionOf(a) == Some((name, value)) <==> Gives(a, name, value)
  {
    if Gives(a, name, value) {
      assert a[2..] == name + ['='] + value;
      SplitOnceOf(name, '=', value);
    }
  }

  lemma SwitchesAre(a: string)
    ensures a in SWITCHES <==> a in SWITCH_NAMES
    ensures a in SWITCHES ==> '=' !in a
  {
    assert SWITCHES == SWITCH_NAMES;
    if a in SWITCHES { SwitchesHaveNoEquals(a); }
  }

  lemma GivesNoSwitch(a: string, name: string, value: string)
    requires Gives(a, name, value)
    ensures a !in SWITCHES
  {
    assert a[2 + |name|] == '=';
    SwitchesAre(a);
  }

  lemma NamesMeans(a: string, name: string)
    ensures Names(a, name) <==> exists value :: Gives(a, name, value)
  {
    if Names(a, name) { OptionOfMeans(a, name, OptionOf(a).value.1); }
    if value :| Gives(a, name, value) {
      OptionOfMeans(a, name, value);
      GivesNoSwitch(a, name, value);
    }
  }

  lemma FitMeans(a: string, isPercentage: string -> bool)
    ensures a in SWITCHES || (OptionOf(a).Some? && Usable(OptionOf(a).value.0, OptionOf(a).value.1, isPercentage))
       <==> ArgumentFits(a, isPercentage)
  {
    SwitchesAre(a);
    if OptionOf(a).Some? {
      var (name, value) := OptionOf(a).value;
      OptionOfMeans(a, name, value);
      UsableMeans(name, value, isPercentage);
    }
    if name, value :| Gives(a, name, value) && ValueFits(name, value, isPercentage) {
      OptionOfMeans(a, name, value);
      UsableMeans(name, value, isPercentage);
    }
  }

  lemma GivenMeans(args: seq<string>, name: string)
    ensures Given(args, name) <==> GivenIn(args, name)
  {
    if Given(args, name) {
      var i :| 0 <= i < |args| && Names(args[i], name);
      NamesMeans(args[i], name);
    }
    if GivenIn(args, name) {
      var i, value :| 0 <= i < |args| && Gives(args[i], name, value);
      NamesMeans(args[i], name);
    }
  }

  lemma NoneTwiceMeans(args: seq<string>)
    ensures NoneTwice(args) <==>
      forall i, j, name, v, w :: 0 <= i < j < |args| && Gives(args[i], name, v) ==> !Gives(args[j], name, w)
  {
    if NoneTwice(args) {
      forall i, j, name, v, w | 0 <= i < j < |args| && Gives(args[i], name, v) ensures !Gives(args[j], name, w) {
        NamesMeans(args[i], name);
        OptionOfMeans(args[j], name, w);
        if Gives(args[j], name, w) { GivesNoSwitch(args[j], name, w); }
      }
    } else {
      var i, j :| 0 <= i < j < |args| && OptionOf(args[j]).Some? && args[j] !in SWITCHES
        && Names(args[i], OptionOf(args[j]).value.0);
      var (name, w) := OptionOf(args[j]).value;
      NamesMeans(args[i], name);
      OptionOfMeans(args[j], name, w);
      var v :| Gives(args[i], name, v);
      assert Gives(args[j], name, w);
    }
  }

  lemma ConsistentMeans(args: seq<string>)
    ensures Consistent(args) <==>
      && !(GivenIn(args, "save-baseline") && GivenIn(args, "baseline"))
      && ("--update-on-pass" in args ==> GivenIn(args, "baseline"))
      && (GivenIn(args, "max-regression") ==> GivenIn(args, "baseline"))
      && !(GivenIn(args, "processes") && exists name :: name in PROCESS_REPETITIONS && GivenIn(args, name))
  {
    GivenMeans(args, "save-baseline");
    GivenMeans(args, "baseline");
    GivenMeans(args, "max-regression");
    GivenMeans(args, "processes");
    assert REPETITIONS == PROCESS_REPETITIONS;
    forall name ensures Given(args, name) <==> GivenIn(args, name) { GivenMeans(args, name); }
  }

  /** The check accepts a normalized list exactly if it is acceptable. */
  lemma AcceptedExactlyWhen(args: seq<string>, isPercentage: string -> bool)
    ensures AllFit(args, isPercentage) && NoneTwice(args) && Consistent(args) <==> Acceptable(args, isPercentage)
  {
    forall i | 0 <= i < |args|
      ensures args[i] in SWITCHES
           || (OptionOf(args[i]).Some? && Usable(OptionOf(args[i]).value.0, OptionOf(args[i]).value.1, isPercentage))
         <==> ArgumentFits(args[i], isPercentage)
    {
      FitMeans(args[i], isPercentage);
    }
    NoneTwiceMeans(args);
    ConsistentMeans(args);
  }

  // ----- normalizing -----

  /** What one or two neighbouring arguments are: anything, or an option and its value apart. */
  datatype Piece = Plain(a: string) | Apart(name: string, value: string)

  ghost predicate PieceFits(p: Piece) {
    match p
    case Plain(a) => forall name :: IsOption(name) ==> a != "--" + name
    case Apart(name, value) => IsOption(name) && value != "" && !("--" <= value)
  }

  ghost predicate PiecesFit(ps: seq<Piece>) { forall k :: 0 <= k < |ps| ==> PieceFits(ps[k]) }

  function PieceAsGiven(p: Piece): seq<string> {
    match p case Plain(a) => [a] case Apart(name, value) => ["--" + name, value]
  }

  function PieceJoined(p: Piece): string {
    match p case Plain(a) => a case Apart(name, value) => "--" + name + "=" + value
  }

  /** The pieces as given, and each as one argument. */
  function AsGiven(ps: seq<Piece>): seq<string> { if ps == [] then [] else PieceAsGiven(ps[0]) + AsGiven(ps[1..]) }

  function Joined(ps: seq<Piece>): (r: seq<string>)
    ensures |r| == |ps| && forall k :: 0 <= k < |r| ==> r[k] == PieceJoined(ps[k])
  {
    seq(|ps|, k requires 0 <= k < |ps| => PieceJoined(ps[k]))
  }

  lemma BareMeans(a: string)
    ensures Bare(a) <==> exists name :: IsOption(name) && a == "--" + name
  {
    if Bare(a) {
      OptionsAreValued(a[2..]);
      assert a == "--" + a[2..];
    }
    if name :| IsOption(name) && a == "--" + name {
      OptionsAreValued(name);
      assert a[2..] == name;
    }
  }

  lemma PieceOf(a: string)
    ensures Bare(a) ==> IsOption(a[2..]) && a == "--" + a[2..]
    ensures !Bare(a) ==> PieceFits(Plain(a))
  {
    BareMeans(a);
    if Bare(a) { OptionsAreValued(a[2..]); }
  }

  lemma AsGivenFirst(p: Piece, ps: seq<Piece>)
    ensures AsGiven([p] + ps) == PieceAsGiven(p) + AsGiven(ps) && Joined([p] + ps) == [PieceJoined(p)] + Joined(ps)
  {
    assert ([p] + ps)[1..] == ps;
  }

  /** Where normalizing succeeds the list falls into pieces, and each becomes one argument. */
  lemma {:induction false} NormalizeFindsPieces(args: seq<string>) returns (ps: seq<Piece>)
    requires Normalize(args).Some?
    ensures PiecesFit(ps) && AsGiven(ps) == args && Joined(ps) == Normalize(args).value
    decreases |args|
  {
    if args == [] {
      ps := [];
    } else {
      PieceOf(args[0]);
      var p := if Bare(args[0]) then Apart(args[0][2..], args[1]) else Plain(args[0]);
      var rest := args[if Bare(args[0]) then 2 else 1..];
      var more := NormalizeFindsPieces(rest);
      ps := [p] + more;
      AsGivenFirst(p, more);
      assert args == PieceAsGiven(p) + rest;
    }
  }

  /** However a list falls into pieces, it is normalized to those. */
  lemma {:induction false} PiecesNormalize(ps: seq<Piece>)
    requires PiecesFit(ps)
    ensures Normalize(AsGiven(ps)) == Some(Joined(ps))
    decreases |ps|
  {
    if ps != [] {
      var p, rest := ps[0], AsGiven(ps[1..]);
      PiecesNormalize(ps[1..]);
      assert ps == [p] + ps[1..];
      AsGivenFirst(p, ps[1..]);
      assert PieceFits(p);
      PieceFirst(p, rest);
    }
  }

  lemma PieceFirst(p: Piece, rest: seq<string>)
    requires PieceFits(p)
    ensures Normalize(PieceAsGiven(p) + rest) == Prepend([PieceJoined(p)], Normalize(rest))
  {
    if p.Plain? {
      BareMeans(p.a);
      assert ([p.a] + rest)[1..] == rest;
    } else {
      BareMeans("--" + p.name);
      assert (["--" + p.name, p.value] + rest)[2..] == rest;
    }
  }

  /** A list is normalized to `out` exactly if it consists of options written apart from their values
      and other arguments, and `out` is the same with every option joined to its value. */
  lemma NormalizeExactlyWhen(args: seq<string>, out: seq<string>)
    ensures Normalize(args) == Some(out) <==> exists ps :: PiecesFit(ps) && AsGiven(ps) == args && Joined(ps) == out
  {
    if Normalize(args) == Some(out) {
      var ps := NormalizeFindsPieces(args);
    }
    if ps :| PiecesFit(ps) && AsGiven(ps) == args && Joined(ps) == out {
      PiecesNormalize(ps);
    }
  }

  function NameFor(p: Parameter): string {
    match p
    case TheMode => "mode"
    case TheProcesses => "processes"
    case TheRounds => "rounds"
    case TheMargin => "margin"
    case TheConfidence => "confidence"
    case TheWorkloadId => "workload-id"
    case TheScope => "scope"
    case TheTimeout => "timeout"
  }

  lemma PlanTakesText(p: Parameter)
    ensures NameFor(p) in TEXT_OPTIONS
  {
    assert TEXT_OPTIONS[0] == "mode" && TEXT_OPTIONS[1] == "processes" && TEXT_OPTIONS[2] == "rounds";
    assert TEXT_OPTIONS[3] == "margin";
    assert TEXT_OPTIONS[4] == "confidence" && TEXT_OPTIONS[5] == "workload-id" && TEXT_OPTIONS[6] == "scope";
    assert TEXT_OPTIONS[7] == "timeout";
  }

  lemma ShortFlags()
    ensures "--mode=" == "--" + "mode" + "=" && "--rounds=" == "--" + "rounds" + "=" && "--margin=" == "--" + "margin" + "="
    ensures "--scope=" == "--" + "scope" + "="
  {
  }

  lemma LongFlags()
    ensures "--processes=" == "--" + "processes" + "=" && "--confidence=" == "--" + "confidence" + "="
    ensures "--workload-id=" == "--" + "workload-id" + "=" && "--timeout=" == "--" + "timeout" + "="
  {
  }

  lemma PrefixNamesOption(p: Parameter)
    ensures Prefix(p) == "--" + NameFor(p) + "="
  {
    ShortFlags();
    LongFlags();
  }

  /** Every option of the plan may be written apart from its value. */
  lemma PlanOptionsMayBeApart(front: seq<string>, p: Parameter, value: string, back: seq<string>)
    requires value != "" && !("--" <= value)
    ensures Normalize(front + ["--" + NameFor(p), value] + back) == Normalize(front + [Prefix(p) + value] + back)
  {
    var name := NameFor(p);
    PlanTakesText(p);
    BareMeans("--" + name);
    SeparatedIsJoined(front, "--" + name, value, back);
    PrefixNamesOption(p);
    assert "--" + name + "=" + value == Prefix(p) + value;
  }

  // ----- the arguments of a child -----

  /** What the supervisor does itself, on the results of all its children. */
  ghost predicate IsSupervisors(a: string) {
    || "--best-of-processes=" <= a || "--mean-of-processes=" <= a || "--median-of-processes=" <= a
    || "--format=" <= a || "--save-baseline=" <= a || "--baseline=" <= a || "--max-regression=" <= a
    || a == "--update-on-pass"
  }

  lemma WithheldMeans(a: string)
    ensures Withheld(a) <==> IsSupervisors(a)
  {
    assert SUPERVISOR_OPTIONS[0] == "--best-of-processes=" && SUPERVISOR_OPTIONS[1] == "--mean-of-processes=";
    assert SUPERVISOR_OPTIONS[2] == "--median-of-processes=" && SUPERVISOR_OPTIONS[3] == "--format=";
    assert SUPERVISOR_OPTIONS[4] == "--save-baseline=" && SUPERVISOR_OPTIONS[5] == "--baseline=";
    assert SUPERVISOR_OPTIONS[6] == "--max-regression=" && |SUPERVISOR_OPTIONS| == 7;
  }

  /** A child gets every other argument, in place. */
  lemma {:induction false} ChildGetsTheOthers(front: seq<string>, a: string, back: seq<string>)
    ensures ChildArgs(front + [a] + back) == ChildArgs(front) + (if IsSupervisors(a) then [] else [a]) + ChildArgs(back)
    decreases |front|
  {
    var args := front + [a] + back;
    if front == [] {
      WithheldMeans(a);
      assert args[0] == a && args[1..] == back;
    } else {
      assert args[0] == front[0] && args[1..] == front[1..] + [a] + back;
      ChildGetsTheOthers(front[1..], a, back);
    }
  }
}
