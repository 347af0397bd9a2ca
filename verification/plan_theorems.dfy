/** What a resolved plan is, option by option, in terms of the command line and the environment
    alone (src/plan.rs lines 80-181). */
module PlanTheorems {
  import opened Arguments
  import opened Decimal
  import opened Plans
  import opened Text
  import opened Wrappers

  // ----- what the command line says -----

  /** No argument gives the option. */
  ghost predicate NotGiven(args: seq<string>, flag: string) { forall i :: 0 <= i < |args| ==> !(flag <= args[i]) }

  /** Argument `i` and no other gives the option, with the value `text`. */
  ghost predicate GivenAt(args: seq<string>, flag: string, text: string, i: nat) {
    i < |args| && args[i] == flag + text && forall j :: 0 <= j < |args| && j != i ==> !(flag <= args[j])
  }

  ghost predicate GivenOnce(args: seq<string>, flag: string, text: string) { exists i: nat :: GivenAt(args, flag, text, i) }

  ghost predicate GivenTwice(args: seq<string>, flag: string) {
    exists i, j :: 0 <= i < j < |args| && flag <= args[i] && flag <= args[j]
  }

  lemma {:induction false} NoValues(args: seq<string>, flag: string)
    ensures Values(args, flag) == [] <==> NotGiven(args, flag)
    decreases |args|
  {
    if args != [] { NoValues(args[1..], flag); }
  }

  lemma {:induction false} OneValue(args: seq<string>, flag: string, text: string)
    ensures Values(args, flag) == [text] <==> GivenOnce(args, flag, text)
    decreases |args|
  {
    if args != [] {
      OneValue(args[1..], flag, text);
      NoValues(args[1..], flag);
      assert forall j :: 0 < j < |args| ==> args[j] == args[1..][j - 1];
      if flag <= args[0] {
        assert args[0] == flag + args[0][|flag|..];
        if args[0] == flag + text { assert args[0][|flag|..] == text; }
        if Values(args, flag) == [text] {
          assert Values(args, flag)[0] == args[0][|flag|..] && |Values(args[1..], flag)| == 0;
          assert GivenAt(args, flag, text, 0);
        }
        if i: nat :| GivenAt(args, flag, text, i) { assert i == 0; }
      } else {
        if i: nat :| GivenAt(args[1..], flag, text, i) {
          assert args[i + 1] == args[1..][i];
          assert GivenAt(args, flag, text, i + 1);
        }
        if i: nat :| GivenAt(args, flag, text, i) {
          assert i > 0 && GivenAt(args[1..], flag, text, i - 1);
        }
      }
    }
  }

  lemma {:induction false} ManyValues(args: seq<string>, flag: string)
    ensures |Values(args, flag)| > 1 <==> GivenTwice(args, flag)
    decreases |args|
  {
    if args != [] {
      ManyValues(args[1..], flag);
      NoValues(args[1..], flag);
      assert forall i :: 0 <= i < |args[1..]| ==> args[1..][i] == args[i + 1];
      if GivenTwice(args, flag) {
        var i, j :| 0 <= i < j < |args| && flag <= args[i] && flag <= args[j];
        assert flag <= args[1..][j - 1];
        if i > 0 { assert flag <= args[1..][i - 1]; }
      }
    }
  }

  // ----- what decides an option -----

  /** What becomes of an option whose value was `current`: a flag given twice is an error; given
      once its value decides, whatever the environment holds; not given, the option's own
      variable decides; and without either the value stays. */
  ghost predicate Decides<T(!new)>(args: seq<string>, env: Env, flag: string, variable: Variable, current: T,
                                   parse: string -> Option<T>, picked: T) {
    && !GivenTwice(args, flag)
    && (forall text :: GivenOnce(args, flag, text) ==> parse(text) == Some(picked))
    && (NotGiven(args, flag) && env(variable).Some? ==> parse(env(variable).value) == Some(picked))
    && (NotGiven(args, flag) && env(variable).None? ==> picked == current)
  }

  lemma PickDecides<T(!new)>(args: seq<string>, env: Env, p: Parameter, current: T, parse: string -> Option<T>, picked: T)
    ensures Pick(Look(args, env, p), current, parse) == Some(picked)
       <==> Decides(args, env, Prefix(p), Of(p), current, parse, picked)
  {
    var flag := Prefix(p);
    var values := Values(args, flag);
    ManyValues(args, flag);
    NoValues(args, flag);
    forall text ensures values == [text] <==> GivenOnce(args, flag, text) { OneValue(args, flag, text); }
    if |values| == 1 { assert values == [values[0]]; }
  }

  /** A whole number below 2^64, in decimal. */
  function Count(text: string): Option<u64> {
    var r := Parse(text, 0x1_0000_0000_0000_0000);
    if r.Some? then Some(r.value) else None
  }

  function AsRounds(text: string): Option<Option<u64>> {
    match Count(text) case Some(n) => Some(Some(n)) case None => None
  }

  function AsText(text: string): Option<Option<string>> { Some(Some(text)) }

  /** Whole seconds. */
  function AsTimeout(text: string): Option<(u64, Nanos)> {
    match Count(text) case Some(n) => Some((n, 0)) case None => None
  }

  /** Every option but the number of processes, each decided by its own flag and variable. */
  ghost predicate OptionsDecide(self: Plan, args: seq<string>, env: Env, floats: Floats, plan: Plan) {
    && Decides(args, env, "--mode=", Of(TheMode), self.mode, ParseMode, plan.mode)
    && Decides(args, env, "--rounds=", Of(TheRounds), self.rounds, AsRounds, plan.rounds)
    && Decides(args, env, "--margin=", Of(TheMargin), self.margin, floats.parse, plan.margin)
    && Decides(args, env, "--confidence=", Of(TheConfidence), self.confidence, floats.parse, plan.confidence)
    && Decides(args, env, "--workload-id=", Of(TheWorkloadId), self.workloadId, AsText, plan.workloadId)
    && Decides(args, env, "--scope=", Of(TheScope), self.scope, AsText, plan.scope)
    && Decides(args, env, "--timeout=", Of(TheTimeout), (self.timeoutSecs, self.timeoutNanos),
               AsTimeout, (plan.timeoutSecs, plan.timeoutNanos))
  }

  ghost predicate ProcessesDecide(self: Plan, args: seq<string>, env: Env, count: u64) {
    Decides(args, env, "--processes=", Of(TheProcesses), self.processes, Count, count)
  }

  ghost predicate Mentions(args: seq<string>, part: string) {
    exists i, k :: 0 <= i < |args| && 0 <= k <= |args[i]| && part <= args[i][k..]
  }

  /** Exploring takes one process, whatever number is decided on; a child process or a legacy
      repetition may be given a number, nobody else. Confirming takes the number decided on and
      no legacy repetition. */
  ghost predicate ProcessesFit(self: Plan, args: seq<string>, env: Env, plan: Plan) {
    if plan.mode == Iterate then
      && plan.processes == 1
      && (exists count :: ProcessesDecide(self, args, env, count))
      && (|| (NotGiven(args, "--processes=") && env(Of(TheProcesses)).None?)
          || env(VarSubprocess) == Some("1") || Mentions(args, "-of-processes="))
    else
      && ProcessesDecide(self, args, env, plan.processes)
      && !Mentions(args, "-of-passes=") && !Mentions(args, "-of-processes=")
  }

  /** An unknown output format in the environment is an error unless a flag overrides it. */
  ghost predicate FormatFits(args: seq<string>, env: Env) {
    && NotGiven(args, "--format=") && env(VarFormat).Some? ==>
      env(VarFormat).value in ["llm", "csv", "md", "markdown", "json", "html"]
  }

  /** The limits on a plan: what every plan needs, what confirming needs, and what evidence needs. */
  ghost predicate WithinLimits(plan: Plan) {
    && 0.0 <= plan.margin < 100.0 && 0.5 <= plan.confidence < 1.0
    && plan.processes >= 1 && plan.timeoutSecs >= 1 && plan.timeoutNanos == 0
    && (plan.rounds.Some? ==> plan.rounds.value >= if plan.mode == Iterate then 1 else 2)
    && (plan.mode == Confirm || plan.mode == Evidence ==> plan.processes >= 3 && Says(plan.workloadId))
    && (plan.mode == Evidence ==> Says(plan.scope))
  }

  /** There is a text with more in it than white space. */
  ghost predicate Says(text: Option<string>) {
    text.Some? && exists i :: 0 <= i < |text.value| && !IsWhitespace(text.value[i])
  }

  ghost predicate Resolves(self: Plan, args: seq<string>, env: Env, floats: Floats, plan: Plan) {
    && OptionsDecide(self, args, env, floats, plan) && ProcessesFit(self, args, env, plan)
    && FormatFits(args, env) && WithinLimits(plan)
  }

  lemma ValidIsWithinLimits(plan: Plan)
    ensures Valid(plan) <==> WithinLimits(plan)
  {
  }

  lemma LegacyMentions(args: seq<string>, part: string)
    ensures Legacy(args, part) <==> Mentions(args, part)
  {
    if Legacy(args, part) {
      var i :| 0 <= i < |args| && Contains(args[i], part);
      var k :| 0 <= k <= |args[i]| && part <= args[i][k..];
    }
    if Mentions(args, part) {
      var i, k :| 0 <= i < |args| && 0 <= k <= |args[i]| && part <= args[i][k..];
      assert Contains(args[i], part);
    }
  }

  /** Every option is picked, whatever the mode makes of the number of processes. */
  ghost predicate PickedFrom(self: Plan, from: Settings, floats: Floats, plan: Plan) {
    && Pick(from(TheMode), self.mode, ParseMode) == Some(plan.mode)
    && Pick(from(TheRounds), self.rounds, ParseRounds) == Some(plan.rounds)
    && Pick(from(TheMargin), self.margin, floats.parse) == Some(plan.margin)
    && Pick(from(TheConfidence), self.confidence, floats.parse) == Some(plan.confidence)
    && Pick(from(TheWorkloadId), self.workloadId, ParseText) == Some(plan.workloadId)
    && Pick(from(TheScope), self.scope, ParseText) == Some(plan.scope)
    && Pick(from(TheTimeout), (self.timeoutSecs, self.timeoutNanos), ParseTimeout) == Some((plan.timeoutSecs, plan.timeoutNanos))
  }

  lemma PickedMeans(self: Plan, from: Settings, floats: Floats, plan: Plan)
    ensures Picked(self, from, floats) == Some(plan) <==>
      PickedFrom(self, from, floats, plan) && Pick(from(TheProcesses), self.processes, ParseU64) == Some(plan.processes)
  {
  }

  /** Two ways to read a text that agree on every text decide alike. */
  lemma SameDecision<T(!new)>(args: seq<string>, env: Env, p: Parameter, current: T, parse: string -> Option<T>,
                              parse': string -> Option<T>, picked: T)
    requires forall text :: parse(text) == parse'(text)
    ensures Pick(Look(args, env, p), current, parse) == Some(picked)
       <==> Decides(args, env, Prefix(p), Of(p), current, parse', picked)
  {
    PickDecides(args, env, p, current, parse, picked);
  }

  lemma RoundsDecide(self: Plan, args: seq<string>, env: Env, plan: Plan)
    ensures Pick(Look(args, env, TheRounds), self.rounds, ParseRounds) == Some(plan.rounds)
       <==> Decides(args, env, "--rounds=", Of(TheRounds), self.rounds, AsRounds, plan.rounds)
  {
    SameDecision(args, env, TheRounds, self.rounds, ParseRounds, AsRounds, plan.rounds);
  }

  lemma TextsDecide(self: Plan, args: seq<string>, env: Env, plan: Plan)
    ensures Pick(Look(args, env, TheWorkloadId), self.workloadId, ParseText) == Some(plan.workloadId)
       <==> Decides(args, env, "--workload-id=", Of(TheWorkloadId), self.workloadId, AsText, plan.workloadId)
    ensures Pick(Look(args, env, TheScope), self.scope, ParseText) == Some(plan.scope)
       <==> Decides(args, env, "--scope=", Of(TheScope), self.scope, AsText, plan.scope)
  {
    SameDecision(args, env, TheWorkloadId, self.workloadId, ParseText, AsText, plan.workloadId);
    SameDecision(args, env, TheScope, self.scope, ParseText, AsText, plan.scope);
  }

  lemma TimeoutDecides(self: Plan, args: seq<string>, env: Env, plan: Plan)
    ensures Pick(Look(args, env, TheTimeout), (self.timeoutSecs, self.timeoutNanos), ParseTimeout)
         == Some((plan.timeoutSecs, plan.timeoutNanos))
       <==> Decides(args, env, "--timeout=", Of(TheTimeout), (self.timeoutSecs, self.timeoutNanos), AsTimeout,
                    (plan.timeoutSecs, plan.timeoutNanos))
  {
    SameDecision(args, env, TheTimeout, (self.timeoutSecs, self.timeoutNanos), ParseTimeout, AsTimeout,
                 (plan.timeoutSecs, plan.timeoutNanos));
  }

  lemma NumbersDecide(self: Plan, args: seq<string>, env: Env, floats: Floats, plan: Plan)
    ensures Pick(Look(args, env, TheMode), self.mode, ParseMode) == Some(plan.mode)
       <==> Decides(args, env, "--mode=", Of(TheMode), self.mode, ParseMode, plan.mode)
    ensures Pick(Look(args, env, TheMargin), self.margin, floats.parse) == Some(plan.margin)
       <==> Decides(args, env, "--margin=", Of(TheMargin), self.margin, floats.parse, plan.margin)
    ensures Pick(Look(args, env, TheConfidence), self.confidence, floats.parse) == Some(plan.confidence)
       <==> Decides(args, env, "--confidence=", Of(TheConfidence), self.confidence, floats.parse, plan.confidence)
  {
    PickDecides(args, env, TheMode, self.mode, ParseMode, plan.mode);
    PickDecides(args, env, TheMargin, self.margin, floats.parse, plan.margin);
    PickDecides(args, env, TheConfidence, self.confidence, floats.parse, plan.confidence);
  }

  lemma OptionsDecideExactlyWhen(self: Plan, args: seq<string>, env: Env, floats: Floats, plan: Plan)
    ensures PickedFrom(self, LookAll(args, env), floats, plan) <==> OptionsDecide(self, args, env, floats, plan)
  {
    NumbersDecide(self, args, env, floats, plan);
    RoundsDecide(self, args, env, plan);
    TextsDecide(self, args, env, plan);
    TimeoutDecides(self, args, env, plan);
  }

  lemma ProcessesDecideExactlyWhen(self: Plan, args: seq<string>, env: Env, count: u64)
    ensures Pick(LookAll(args, env)(TheProcesses), self.processes, ParseU64) == Some(count)
       <==> ProcessesDecide(self, args, env, count)
  {
    SameDecision(args, env, TheProcesses, self.processes, ParseU64, Count, count);
  }

  // ----- the resolved plan -----

  lemma UnsetMeans(args: seq<string>, env: Env)
    ensures LookAll(args, env)(TheProcesses) == Unset <==> NotGiven(args, "--processes=") && env(Of(TheProcesses)).None?
    ensures FormatAllowed(args, env) <==> FormatFits(args, env)
  {
    NoValues(args, "--processes=");
    NoValues(args, "--format=");
  }

  /** What follows the picking. */
  ghost predicate Completes(picked: Plan, args: seq<string>, env: Env, plan: Plan) {
    && (if picked.mode == Iterate then
          && plan == picked.(processes := 1)
          && (LookAll(args, env)(TheProcesses) == Unset || env(VarSubprocess) == Some("1") || Legacy(args, "-of-processes="))
        else plan == picked && !Legacy(args, "-of-passes=") && !Legacy(args, "-of-processes="))
    && FormatAllowed(args, env) && Valid(plan)
  }

  lemma ResolvedMeans(self: Plan, args: seq<string>, env: Env, floats: Floats, plan: Plan)
    ensures Resolved(self, args, env, floats) == Some(plan) <==>
      exists picked :: Picked(self, LookAll(args, env), floats) == Some(picked) && Completes(picked, args, env, plan)
  {
  }

  lemma CompletesMeans(picked: Plan, args: seq<string>, env: Env, plan: Plan)
    ensures Completes(picked, args, env, plan) <==>
      && (if plan.mode == Iterate then
            && plan == picked.(processes := 1)
            && (|| (NotGiven(args, "--processes=") && env(Of(TheProcesses)).None?)
                || env(VarSubprocess) == Some("1") || Mentions(args, "-of-processes="))
          else plan == picked && !Mentions(args, "-of-passes=") && !Mentions(args, "-of-processes="))
      && FormatFits(args, env) && WithinLimits(plan)
  {
    UnsetMeans(args, env);
    LegacyMentions(args, "-of-passes=");
    LegacyMentions(args, "-of-processes=");
    ValidIsWithinLimits(plan);
  }

  lemma PickedDecides(self: Plan, args: seq<string>, env: Env, floats: Floats, picked: Plan)
    ensures Picked(self, LookAll(args, env), floats) == Some(picked) <==>
      OptionsDecide(self, args, env, floats, picked) && ProcessesDecide(self, args, env, picked.processes)
  {
    PickedMeans(self, LookAll(args, env), floats, picked);
    OptionsDecideExactlyWhen(self, args, env, floats, picked);
    ProcessesDecideExactlyWhen(self, args, env, picked.processes);
  }

  /** No option but the number of processes depends on that number. */
  lemma OptionsIgnoreProcesses(self: Plan, args: seq<string>, env: Env, floats: Floats, plan: Plan, count: u64)
    ensures OptionsDecide(self, args, env, floats, plan.(processes := count)) <==> OptionsDecide(self, args, env, floats, plan)
  {
  }

  /** Whatever the suite, the arguments and the environment: the plan that `Resolve` returns is the
      one that option by option is decided by its flag, else by its variable, else by the
      suite, within the limits; and where there is no such plan it returns an error. */
  lemma ResolvesExactlyWhen(self: Plan, args: seq<string>, env: Env, floats: Floats, plan: Plan)
    ensures Resolved(self, args, env, floats) == Some(plan) <==> Resolves(self, args, env, floats, plan)
  {
    ResolvedMeans(self, args, env, floats, plan);
    if Resolved(self, args, env, floats) == Some(plan) {
      var picked :| Picked(self, LookAll(args, env), floats) == Some(picked) && Completes(picked, args, env, plan);
      PickedDecides(self, args, env, floats, picked);
      CompletesMeans(picked, args, env, plan);
      OptionsIgnoreProcesses(self, args, env, floats, picked, 1);
    }
    if Resolves(self, args, env, floats, plan) {
      var picked := plan;
      if plan.mode == Iterate {
        var count :| ProcessesDecide(self, args, env, count);
        picked := plan.(processes := count);
        OptionsIgnoreProcesses(self, args, env, floats, plan, count);
      }
      PickedDecides(self, args, env, floats, picked);
      CompletesMeans(picked, args, env, plan);
    }
  }

  /** A child is told that it is one, where to write its result and who launched it, and the plan where
      it has a text; the output format is left as it was. */
  lemma ChildIsTold(plan: Plan, env: Env, floats: Floats, resultPath: string, launchers: string, p: Parameter)
    ensures var child := ChildEnv(plan, env, floats, resultPath, launchers);
      && child(VarSubprocess) == Some("1") && child(VarResultPath) == Some(resultPath) && child(VarLauncherPids) == Some(launchers)
      && child(VarFormat) == env(VarFormat)
      && child(Of(p)) == if TextFor(plan, floats, p).Some? then TextFor(plan, floats, p) else env(Of(p))
  {
  }
}
