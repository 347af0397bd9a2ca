/** Resolution of the measurement plan (src/plan.rs lines 80-181) and its transfer to child
    processes (src/lib.rs lines 870-882 and 931-960). */
module Plans {
  import opened Arguments
  import opened Decimal
  import opened Text
  import opened Wrappers

  datatype Mode = Iterate | Confirm | Evidence

  type Nanos = n: nat | n < 1_000_000_000

  datatype Plan = Plan(mode: Mode, processes: u64, rounds: Option<u64>, margin: real, confidence: real,
                       workloadId: Option<string>, scope: Option<string>, timeoutSecs: u64, timeoutNanos: Nanos)

  /** The options of a plan, each with its command-line flag and its environment variable. */
  datatype Parameter = TheMode | TheProcesses | TheRounds | TheMargin | TheConfidence | TheWorkloadId | TheScope | TheTimeout

  function Prefix(p: Parameter): string {
    match p
    case TheMode => "--mode="
    case TheProcesses => "--processes="
    case TheRounds => "--rounds="
    case TheMargin => "--margin="
    case TheConfidence => "--confidence="
    case TheWorkloadId => "--workload-id="
    case TheScope => "--scope="
    case TheTimeout => "--timeout="
  }

  /** `Of(TheMode)` is `ZENBENCH_MODE`, and so on; the others are `ZENBENCH_FORMAT` etc. */
  datatype Variable = Of(p: Parameter) | VarFormat | VarSubprocess | VarResultPath | VarLauncherPids

  type Env = Variable -> Option<string>

  /** Printing and parsing of floating-point numbers, the reals for which `isFloat` holds;
      `Sound` is all that is assumed. */
  datatype Floats = Floats(isFloat: real -> bool, show: real -> string, parse: string -> Option<real>) {
    ghost predicate Sound() {
      && (forall x :: isFloat(x) ==> parse(show(x)) == Some(x))
      && (forall text :: parse(text).Some? ==> isFloat(parse(text).value))
    }
  }

  predicate HasFloats(p: Plan, floats: Floats) { floats.isFloat(p.margin) && floats.isFloat(p.confidence) }

  function PrintMode(mode: Mode): string {
    match mode case Iterate => "iterate" case Confirm => "confirm" case Evidence => "evidence"
  }

  function ParseMode(text: string): (r: Option<Mode>)
    ensures forall m :: r == Some(m) <==> text == PrintMode(m)
  {
    if text == "iterate" then Some(Iterate)
    else if text == "confirm" then Some(Confirm)
    else if text == "evidence" then Some(Evidence)
    else None
  }

  function ParseU64(text: string): Option<u64> {
    var r := Parse(text, U64_VALUES);
    if r.Some? then Some(r.value) else None
  }

  function ParseRounds(text: string): Option<Option<u64>> {
    if ParseU64(text).Some? then Some(ParseU64(text)) else None
  }

  function ParseText(text: string): Option<Option<string>> { Some(Some(text)) }

  function ParseTimeout(text: string): Option<(u64, Nanos)> {
    var r := ParseU64(text);
    if r.Some? then Some((r.value, 0)) else None
  }

  // ----- validity -----

  predicate Valid(p: Plan) {
    && 0.0 <= p.margin < 100.0
    && 0.5 <= p.confidence < 1.0
    && p.rounds != Some(0) && p.processes != 0 && (p.timeoutSecs != 0 || p.timeoutNanos != 0)
    && p.timeoutNanos == 0
    && (p.mode != Iterate ==>
          && (p.rounds.Some? ==> p.rounds.value >= 2)
          && p.processes >= 3
          && p.workloadId.Some? && !IsBlank(p.workloadId.value)
          && (p.mode == Evidence ==> p.scope.Some? && !IsBlank(p.scope.value)))
  }

  // ----- resolution -----

  /** What the command line and the environment say about one option. */
  datatype Setting = Repeated | Unset | Set(text: string)

  function Look(args: seq<string>, env: Env, p: Parameter): Setting {
    var values := Values(args, Prefix(p));
    if |values| > 1 then Repeated
    else if values != [] then Set(values[0])
    else if env(Of(p)).Some? then Set(env(Of(p)).value)
    else Unset
  }

  /** The value after one option: kept, replaced by the parsed text, or an error. */
  function Pick<T>(setting: Setting, current: T, parse: string -> Option<T>): Option<T> {
    match setting
    case Repeated => None
    case Unset => Some(current)
    case Set(text) => parse(text)
  }

  type Settings = Parameter -> Setting

  function LookAll(args: seq<string>, env: Env): Settings { p => Look(args, env, p) }

  predicate FormatAllowed(args: seq<string>, env: Env) {
    env(VarFormat).Some? ==> Values(args, "--format=") != [] || env(VarFormat).value in FORMATS
  }

  predicate Legacy(args: seq<string>, part: string) { exists i :: 0 <= i < |args| && Contains(args[i], part) }

  /** The plan with every option picked, if all can be. */
  function Picked(self: Plan, from: Settings, floats: Floats): Option<Plan> {
    var mode := Pick(from(TheMode), self.mode, ParseMode);
    var processes := Pick(from(TheProcesses), self.processes, ParseU64);
    var rounds := Pick(from(TheRounds), self.rounds, ParseRounds);
    var margin := Pick(from(TheMargin), self.margin, floats.parse);
    var confidence := Pick(from(TheConfidence), self.confidence, floats.parse);
    var workloadId := Pick(from(TheWorkloadId), self.workloadId, ParseText);
    var scope := Pick(from(TheScope), self.scope, ParseText);
    var timeout := Pick(from(TheTimeout), (self.timeoutSecs, self.timeoutNanos), ParseTimeout);
    if mode.None? || processes.None? || rounds.None? || margin.None? || confidence.None? || workloadId.None?
       || scope.None? || timeout.None? then None
    else Some(Plan(mode.value, processes.value, rounds.value, margin.value, confidence.value,
                   workloadId.value, scope.value, timeout.value.0, timeout.value.1))
  }

  function Resolved(self: Plan, args: seq<string>, env: Env, floats: Floats): Option<Plan> {
    var picked := Picked(self, LookAll(args, env), floats);
    if picked.None? then None
    else if picked.value.mode == Iterate && LookAll(args, env)(TheProcesses) != Unset
            && env(VarSubprocess) != Some("1") && !Legacy(args, "-of-processes=") then None
    else if picked.value.mode != Iterate && (Legacy(args, "-of-passes=") || Legacy(args, "-of-processes=")) then None
    else if !FormatAllowed(args, env) then None
    else
      var p := if picked.value.mode == Iterate then picked.value.(processes := 1) else picked.value;
      if Valid(p) then Some(p) else None
  }

  /** The fields are overwritten one after the other and the first error returns. */
  method Resolve(self: Plan, args: seq<string>, env: Env, floats: Floats) returns (r: Option<Plan>)
    ensures r == Resolved(self, args, env, floats)
  {
    var plan, from := self, LookAll(args, env);
    var mode := Pick(from(TheMode), plan.mode, ParseMode);
    if mode.None? { return None; }
    plan := plan.(mode := mode.value);
    var processes := Pick(from(TheProcesses), plan.processes, ParseU64);
    if processes.None? { return None; }
    plan := plan.(processes := processes.value);
    var rounds := Pick(from(TheRounds), plan.rounds, ParseRounds);
    if rounds.None? { return None; }
    plan := plan.(rounds := rounds.value);
    var margin := Pick(from(TheMargin), plan.margin, floats.parse);
    if margin.None? { return None; }
    plan := plan.(margin := margin.value);
    var confidence := Pick(from(TheConfidence), plan.confidence, floats.parse);
    if confidence.None? { return None; }
    plan := plan.(confidence := confidence.value);
    var workloadId := Pick(from(TheWorkloadId), plan.workloadId, ParseText);
    if workloadId.None? { return None; }
    plan := plan.(workloadId := workloadId.value);
    var scope := Pick(from(TheScope), plan.scope, ParseText);
    if scope.None? { return None; }
    plan := plan.(scope := scope.value);
    var timeout := Pick(from(TheTimeout), (plan.timeoutSecs, plan.timeoutNanos), ParseTimeout);
    if timeout.None? { return None; }
    plan := plan.(timeoutSecs := timeout.value.0, timeoutNanos := timeout.value.1);
    if plan.mode == Iterate {
      if from(TheProcesses) != Unset && env(VarSubprocess) != Some("1") && !Legacy(args, "-of-processes=") { return None; }
      plan := plan.(processes := 1);
    } else if Legacy(args, "-of-passes=") || Legacy(args, "-of-processes=") { return None; }
    if !FormatAllowed(args, env) { return None; }
    if !Valid(plan) { return None; }
    return Some(plan);
  }

  // ----- the child process -----

  /** The text the supervisor exports for an option. */
  function TextFor(plan: Plan, floats: Floats, p: Parameter): Option<string> {
    match p
    case TheMode => Some(PrintMode(plan.mode))
    case TheProcesses => Some(Print(plan.processes))
    case TheRounds => if plan.rounds.Some? then Some(Print(plan.rounds.value)) else None
    case TheMargin => Some(floats.show(plan.margin))
    case TheConfidence => Some(floats.show(plan.confidence))
    case TheWorkloadId => plan.workloadId
    case TheScope => plan.scope
    case TheTimeout => Some(Print(plan.timeoutSecs))
  }

  /** The environment a child of a confirming supervisor starts with. */
  function ChildEnv(plan: Plan, env: Env, floats: Floats, resultPath: string, launchers: string): Env {
    (name: Variable) => match name
      case Of(p) => if TextFor(plan, floats, p).Some? then TextFor(plan, floats, p) else env(name)
      case VarSubprocess => Some("1")
      case VarResultPath => Some(resultPath)
      case VarLauncherPids => Some(launchers)
      case VarFormat => env(VarFormat)
  }

  lemma SameValues(args: seq<string>, p: Parameter)
    ensures Values(ChildArgs(args), Prefix(p)) == Values(args, Prefix(p))
  {
    forall a | Prefix(p) <= a ensures !Withheld(a) { PlanOptionsReachChild(Prefix(p), a); }
    ChildSeesValues(args, Prefix(p));
  }

  lemma ParsePrintU64(n: u64)
    ensures ParseU64(Print(n)) == Some(n)
  {
    ParsePrint(n, U64_VALUES);
  }

  /** What a child finds for one option: what its supervisor found, or the supervisor's text
      for it in the environment. */
  predicate Carries(child: Setting, own: Setting, text: Option<string>) {
    child == own || (text.Some? && child == Set(text.value))
  }

  ghost predicate CarriesAll(child: Settings, own: Settings, plan: Plan, floats: Floats) {
    forall p :: Carries(child(p), own(p), TextFor(plan, floats, p))
  }

  lemma ChildLooks(args: seq<string>, env: Env, floats: Floats, plan: Plan, resultPath: string, launchers: string)
    ensures CarriesAll(LookAll(ChildArgs(args), ChildEnv(plan, env, floats, resultPath, launchers)), LookAll(args, env), plan, floats)
  {
    forall p: Parameter ensures Values(ChildArgs(args), Prefix(p)) == Values(args, Prefix(p)) { SameValues(args, p); }
  }

  lemma ChildPick<T>(child: Settings, own: Settings, plan: Plan, floats: Floats, p: Parameter, current: T,
                     parse: string -> Option<T>, picked: T)
    requires CarriesAll(child, own, plan, floats) && Pick(own(p), current, parse) == Some(picked)
    requires TextFor(plan, floats, p).Some? ==> parse(TextFor(plan, floats, p).value) == Some(picked)
    ensures Pick(child(p), current, parse) == Some(picked)
  {
  }

  lemma PickedFloats(self: Plan, own: Settings, floats: Floats, plan: Plan)
    requires floats.Sound() && HasFloats(self, floats) && Picked(self, own, floats) == Some(plan)
    ensures HasFloats(plan, floats)
  {
    assert Pick(own(TheMargin), self.margin, floats.parse) == Some(plan.margin);
    assert Pick(own(TheConfidence), self.confidence, floats.parse) == Some(plan.confidence);
  }

  lemma ChildNumbers(self: Plan, own: Settings, child: Settings, floats: Floats, plan: Plan)
    requires Picked(self, own, floats) == Some(plan) && plan.timeoutNanos == 0 && CarriesAll(child, own, plan, floats)
    ensures Pick(child(TheMode), self.mode, ParseMode) == Some(plan.mode)
    ensures Pick(child(TheProcesses), self.processes, ParseU64) == Some(plan.processes)
    ensures Pick(child(TheRounds), self.rounds, ParseRounds) == Some(plan.rounds)
    ensures Pick(child(TheTimeout), (self.timeoutSecs, self.timeoutNanos), ParseTimeout) == Some((plan.timeoutSecs, 0))
  {
    ParsePrintU64(plan.processes);
    ParsePrintU64(plan.timeoutSecs);
    if plan.rounds.Some? { ParsePrintU64(plan.rounds.value); }
    ChildPick(child, own, plan, floats, TheMode, self.mode, ParseMode, plan.mode);
    ChildPick(child, own, plan, floats, TheProcesses, self.processes, ParseU64, plan.processes);
    ChildPick(child, own, plan, floats, TheRounds, self.rounds, ParseRounds, plan.rounds);
    ChildPick(child, own, plan, floats, TheTimeout, (self.timeoutSecs, self.timeoutNanos), ParseTimeout, (plan.timeoutSecs, 0));
  }

  lemma ChildTexts(self: Plan, own: Settings, child: Settings, floats: Floats, plan: Plan)
    requires floats.Sound() && HasFloats(plan, floats)
    requires Picked(self, own, floats) == Some(plan) && CarriesAll(child, own, plan, floats)
    ensures Pick(child(TheMargin), self.margin, floats.parse) == Some(plan.margin)
    ensures Pick(child(TheConfidence), self.confidence, floats.parse) == Some(plan.confidence)
    ensures Pick(child(TheWorkloadId), self.workloadId, ParseText) == Some(plan.workloadId)
    ensures Pick(child(TheScope), self.scope, ParseText) == Some(plan.scope)
  {
    ChildPick(child, own, plan, floats, TheMargin, self.margin, floats.parse, plan.margin);
    ChildPick(child, own, plan, floats, TheConfidence, self.confidence, floats.parse, plan.confidence);
    ChildPick(child, own, plan, floats, TheWorkloadId, self.workloadId, ParseText, plan.workloadId);
    ChildPick(child, own, plan, floats, TheScope, self.scope, ParseText, plan.scope);
  }

  /** Carrying settings picks exactly the supervisor's values. */
  lemma ChildPicks(self: Plan, own: Settings, child: Settings, floats: Floats, plan: Plan)
    requires floats.Sound() && HasFloats(self, floats)
    requires Picked(self, own, floats) == Some(plan) && plan.timeoutNanos == 0
    requires CarriesAll(child, own, plan, floats)
    ensures Picked(self, child, floats) == Some(plan)
  {
    PickedFloats(self, own, floats, plan);
    ChildNumbers(self, own, child, floats, plan);
    ChildTexts(self, own, child, floats, plan);
  }

  lemma NoFormatInChild(args: seq<string>)
    ensures Values(ChildArgs(args), "--format=") == []
  {
    if Values(ChildArgs(args), "--format=") != [] {
      var a := ValueHasOption(ChildArgs(args), SUPERVISOR_OPTIONS[3]);
    }
  }

  lemma {:induction false} ValueHasOption(args: seq<string>, prefix: string) returns (a: string)
    requires Values(args, prefix) != []
    ensures a in args && prefix <= a
    decreases |args|
  {
    if prefix <= args[0] { a := args[0]; } else { a := ValueHasOption(args[1..], prefix); }
  }

  lemma NoLegacyInChild(args: seq<string>, part: string)
    requires !Legacy(args, part)
    ensures !Legacy(ChildArgs(args), part)
  {
    var kept := ChildArgs(args);
    forall i | 0 <= i < |kept| ensures !Contains(kept[i], part) {
      assert kept[i] in args;
      var j :| 0 <= j < |args| && args[j] == kept[i];
    }
  }

  /** Every child of a confirming supervisor resolves to exactly the supervisor's plan, or not
      at all; it fails exactly when the inherited output format is one nobody knows, which
      the supervisor overlooks if it was given `--format`. */
  lemma ChildPlan(self: Plan, args: seq<string>, env: Env, floats: Floats, plan: Plan, resultPath: string, launchers: string)
    requires floats.Sound() && HasFloats(self, floats)
    requires Resolved(self, args, env, floats) == Some(plan) && plan.mode != Iterate
    ensures Resolved(self, ChildArgs(args), ChildEnv(plan, env, floats, resultPath, launchers), floats)
         == if env(VarFormat).Some? && env(VarFormat).value !in FORMATS then None else Some(plan)
  {
    var childEnv := ChildEnv(plan, env, floats, resultPath, launchers);
    ChildLooks(args, env, floats, plan, resultPath, launchers);
    ChildPicks(self, LookAll(args, env), LookAll(ChildArgs(args), childEnv), floats, plan);
    NoFormatInChild(args);
    NoLegacyInChild(args, "-of-passes=");
    NoLegacyInChild(args, "-of-processes=");
  }

  const FORMAT_JSON: seq<string> := ["--format=json"]

  /** An environment with nothing but an output format. */
  function OnlyFormat(format: string): Env { (v: Variable) => if v == VarFormat then Some(format) else None }

  lemma NotLegacy(part: string)
    requires "-of-" <= part
    ensures !Legacy(FORMAT_JSON, part)
  {
    var a := FORMAT_JSON[0];
    forall i | 0 <= i <= |a| ensures !(part <= a[i..]) {
      if i < |a| && a[i] == '-' { Differs(part, a[i..], 1); } else { Differs(part, a[i..], 0); }
    }
  }

  lemma Differs(p: string, a: string, k: nat)
    requires k < |p| && (k >= |a| || p[k] != a[k])
    ensures !(p <= a)
  {
  }

  lemma FormatIsNoOther(p: Parameter)
    ensures !(Prefix(p) <= FORMAT_JSON[0])
  {
    Differs(Prefix(p), FORMAT_JSON[0], 2);
  }

  lemma FormatSetsNothing(format: string, p: Parameter)
    ensures LookAll(FORMAT_JSON, OnlyFormat(format))(p) == Unset
  {
    FormatIsNoOther(p);
    assert Values(FORMAT_JSON, Prefix(p)) == [];
  }

  lemma NothingSet(self: Plan, from: Settings, floats: Floats)
    requires forall p :: from(p) == Unset
    ensures Picked(self, from, floats) == Some(self)
  {
  }

  lemma FormatResolves(self: Plan, floats: Floats, format: string)
    requires Valid(self) && self.mode != Iterate
    ensures Resolved(self, FORMAT_JSON, OnlyFormat(format), floats) == Some(self)
  {
    NotLegacy("-of-passes=");
    NotLegacy("-of-processes=");
    forall p ensures LookAll(FORMAT_JSON, OnlyFormat(format))(p) == Unset { FormatSetsNothing(format, p); }
    NothingSet(self, LookAll(FORMAT_JSON, OnlyFormat(format)), floats);
    assert Values(FORMAT_JSON, "--format=") != [];
  }

  /** The failing family is not empty: with `--format=json` and an unknown inherited format
      every valid confirming plan resolves in the supervisor and in none of its children. */
  lemma FormatStopsChildren(self: Plan, floats: Floats, format: string)
    requires format !in FORMATS
    requires floats.Sound() && HasFloats(self, floats) && Valid(self) && self.mode != Iterate
    ensures Resolved(self, FORMAT_JSON, OnlyFormat(format), floats) == Some(self)
    ensures Resolved(self, ChildArgs(FORMAT_JSON), ChildEnv(self, OnlyFormat(format), floats, "", ""), floats) == None
  {
    FormatResolves(self, floats, format);
    ChildPlan(self, FORMAT_JSON, OnlyFormat(format), floats, self, "", "");
  }
}
