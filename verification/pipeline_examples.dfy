/** The multi-command scenarios of the integration tests, run through the
    composed pipeline against a shell that knows three commands. */
module PipelineExamples {
  import opened Results
  import opened Json
  import opened Strings
  import opened Types
  import opened Template
  import OrderedMap
  import Parser
  import Executor
  import Formatter
  import ParserProperties
  import opened Pipeline

  const BRANCH_COMMAND := "git branch --show-current"
  const SHA_COMMAND := "git rev-parse --short HEAD"
  const INVALID_COMMAND := "invalid-command"

  /** The shell the scenarios run against: git prints the branch and the
      short SHA, each followed by a line feed; the invalid command fails. */
  ghost predicate GitShell(shell: Executor.Shell) {
    && shell(BRANCH_COMMAND, DEFAULT_TIMEOUT).outcome == Stdout("main\n")
    && shell(SHA_COMMAND, DEFAULT_TIMEOUT).outcome == Stdout("abc1234\n")
    && shell(INVALID_COMMAND, DEFAULT_TIMEOUT).outcome.Failure?
  }

  /** A descriptor whose command prints `word` settles to `word`, under any
      strategy. */
  lemma SettlesTo(shell: Executor.Shell, c: CommandConfig, word: string, strategy: ErrorStrategy)
    requires shell(c.cmd, c.EffectiveTimeout()).outcome == Stdout(word + "\n")
    requires |word| > 0 && !IsJsWhitespace(word[0]) && !IsJsWhitespace(word[|word| - 1])
    ensures Executor.Settle(shell, c, strategy).success
    ensures Executor.Settle(shell, c, strategy).result == Some(word)
  {
    TrimsLineFeed(word);
  }

  /** The two words the git commands print have no surrounding white space. */
  lemma GitWords()
    ensures |"main"| > 0 && !IsJsWhitespace("main"[0]) && !IsJsWhitespace("main"[|"main"| - 1])
    ensures |"abc1234"| > 0 && !IsJsWhitespace("abc1234"[0]) && !IsJsWhitespace("abc1234"[|"abc1234"| - 1])
  {
  }

  /** Two descriptors with different aliases, outside 'strict': the call
      succeeds with one entry per descriptor, in order. */
  lemma TwoDescriptorRun(cmds: seq<CommandConfig>, shell: Executor.Shell, options: MultiCommandOptions)
    requires |cmds| == 2 && cmds[0].alias != cmds[1].alias
    requires options.errorStrategy != Strict
    ensures var s := options.errorStrategy;
      Executor.ExecMultipleCommands(cmds, shell, ExecutionOptionsOf(options)).outcome
        == Ok([(cmds[0].alias, Executor.Settle(shell, cmds[0], s)), (cmds[1].alias, Executor.Settle(shell, cmds[1], s))])
  {
    var s := options.errorStrategy;
    ParserProperties.PairDistinct(cmds);
    Executor.ExecNonStrictIgnoresParallel(cmds, shell, Some(s), Some(options.parallel));
    Executor.CollectOnePerDescriptor(cmds, shell, s);
    var m := Executor.Collect(cmds, shell, s);
    assert m == [m[0], m[1]];
  }

  /** Template mode on `{a}-{b}` over two descriptors, outside 'strict':
      each placeholder becomes its descriptor's settled text. */
  lemma DashTemplateRun(plan: Parser.ParsedCommandConfig, shell: Executor.Shell, a: string, b: string)
    requires !plan.isSingle && |plan.commands| == 2
    requires plan.commands[0].alias == a && plan.commands[1].alias == b && a != b
    requires IsName(a) && IsName(b)
    requires plan.options.format == Some("{" + a + "}" + ("-" + ("{" + b + "}")))
    requires plan.options.errorStrategy != Strict
    ensures var s := plan.options.errorStrategy;
      RunPlan(plan, shell) == Ok(Some(
        Formatter.Substitution(Executor.Settle(shell, plan.commands[0], s)) + "-"
        + Formatter.Substitution(Executor.Settle(shell, plan.commands[1], s))))
  {
    var s := plan.options.errorStrategy;
    TwoDescriptorRun(plan.commands, shell, plan.options);
    Formatter.DashTemplateOfPair(a, Executor.Settle(shell, plan.commands[0], s), b, Executor.Settle(shell, plan.commands[1], s),
      Some(plan.options.separator));
  }

  /** An object specification whose options and entries are valid is the
      multi-command plan of its entries. */
  lemma ValidSpecParses(spec: Value, cmds: seq<CommandConfig>)
    requires spec.Obj? && Truthy(Field(spec, "commands"))
    requires Parser.ValidateMultiCommandOptions(spec) == Pass
    requires Parser.ParseCommands(Field(spec, "commands").items) == Ok(cmds)
    ensures Parser.ParseCommandConfig(spec) == Ok(Parser.ParsedCommandConfig(false, cmds, Parser.ResolveOptions(spec)))
    ensures Parser.ParseCommandConfig(spec).Ok? && !Parser.ParseCommandConfig(spec).value.isSingle
    ensures Parser.ParseCommandConfig(spec).value.commands == cmds
    ensures Parser.ParseCommandConfig(spec).value.options == Parser.ResolveOptions(spec)
  {
  }

  function BranchEntry(): Value
  {
    Obj(map["alias" := Str("branch"), "cmd" := Str(BRANCH_COMMAND)])
  }

  function BranchConfig(): CommandConfig
  {
    CommandConfig("branch", BRANCH_COMMAND, None, Some(DEFAULT_TIMEOUT))
  }

  /** The `sha` entry running the invalid command, with an optional
      fallback value. */
  function InvalidShaEntry(fallback: Option<string>): Value
  {
    match fallback
    case Some(f) => Obj(map["alias" := Str("sha"), "cmd" := Str(INVALID_COMMAND), "fallback" := Str(f)])
    case None => Obj(map["alias" := Str("sha"), "cmd" := Str(INVALID_COMMAND)])
  }

  function InvalidShaConfig(fallback: Option<string>): CommandConfig
  {
    CommandConfig("sha", INVALID_COMMAND, fallback, Some(DEFAULT_TIMEOUT))
  }

  lemma StrategyEntriesParse(fallback: Option<string>)
    ensures Parser.ParseCommands([BranchEntry(), InvalidShaEntry(fallback)])
      == Ok([BranchConfig(), InvalidShaConfig(fallback)])
  {
    assert Parser.ParseEntry(BranchEntry(), 0) == Ok(BranchConfig());
    assert Parser.ParseEntry(InvalidShaEntry(fallback), 1) == Ok(InvalidShaConfig(fallback));
    ParserProperties.PairCommands(BranchEntry(), InvalidShaEntry(fallback), BranchConfig(), InvalidShaConfig(fallback));
  }

  /** The error-strategy scenario's specification: `{branch}-{sha}` over
      the branch and the invalid command, under `strategy`. */
  function StrategySpec(fallback: Option<string>, strategy: string): Value
  {
    Obj(map[
      "commands" := Arr([BranchEntry(), InvalidShaEntry(fallback)]),
      "format" := Str("{branch}-{sha}"),
      "errorStrategy" := Str(strategy)])
  }

  /** `{branch}-{sha}` is valid over any entries that parse to the aliases
      `branch` and `sha`. */
  lemma BranchShaTemplateValid(items: seq<Value>, cmds: seq<CommandConfig>)
    requires Parser.ParseCommands(items) == Ok(cmds)
    requires |cmds| == 2 && cmds[0].alias == "branch" && cmds[1].alias == "sha"
    ensures Parser.ValidateFormatTemplate("{branch}-{sha}", items) == Pass
  {
    BranchShaPlaceholders();
    assert "branch" in Parser.Aliases(cmds) && "sha" in Parser.Aliases(cmds);
    CoveredTemplateValid(items, cmds, "{branch}-{sha}");
  }

  lemma BranchShaPlaceholders()
    ensures Placeholders("{branch}-{sha}") == ["branch", "sha"]
  {
    Formatter.BranchShaText();
    PlaceholdersDashPair("branch", "sha");
  }

  /** A template naming only parsed aliases passes the parser's check. */
  lemma CoveredTemplateValid(items: seq<Value>, cmds: seq<CommandConfig>, template: string)
    requires Parser.ParseCommands(items) == Ok(cmds)
    requires forall p :: p in Placeholders(template) ==> p in Parser.Aliases(cmds)
    ensures Parser.ValidateFormatTemplate(template, items) == Pass
  {
    ParserProperties.AvailableAliasesOfParsed(items, cmds);
  }

  lemma StrategySpecValid(fallback: Option<string>, strategy: string)
    requires ParseStrategy(strategy).Some?
    ensures Parser.ValidateMultiCommandOptions(StrategySpec(fallback, strategy)) == Pass
  {
    var spec := StrategySpec(fallback, strategy);
    var items := [BranchEntry(), InvalidShaEntry(fallback)];
    assert Field(spec, "commands") == Arr(items);
    assert Field(spec, "format") == Str("{branch}-{sha}");
    assert Field(spec, "errorStrategy") == Str(strategy);
    assert Field(spec, "separator") == Missing && Field(spec, "parallel") == Missing;
    StrategyEntriesParse(fallback);
    BranchShaTemplateValid(items, [BranchConfig(), InvalidShaConfig(fallback)]);
  }

  /** The plan of the error-strategy specification. */
  lemma StrategySpecPlan(fallback: Option<string>, strategy: string)
    requires ParseStrategy(strategy).Some?
    ensures var plan := Parser.ParseCommandConfig(StrategySpec(fallback, strategy));
      && plan.Ok? && !plan.value.isSingle
      && plan.value.commands == [BranchConfig(), InvalidShaConfig(fallback)]
      && plan.value.options.format == Some("{" + "branch" + "}" + ("-" + ("{" + "sha" + "}")))
      && plan.value.options.errorStrategy == ParseStrategy(strategy).value
  {
    var spec := StrategySpec(fallback, strategy);
    var cmds := [BranchConfig(), InvalidShaConfig(fallback)];
    StrategySpecOptions(fallback, strategy);
    StrategyEntriesParse(fallback);
    ValidSpecParses(spec, cmds);
  }

  /** The options the error-strategy specification resolves to. */
  lemma StrategySpecOptions(fallback: Option<string>, strategy: string)
    requires ParseStrategy(strategy).Some?
    ensures Parser.ValidateMultiCommandOptions(StrategySpec(fallback, strategy)) == Pass
    ensures Field(StrategySpec(fallback, strategy), "commands") == Arr([BranchEntry(), InvalidShaEntry(fallback)])
    ensures Truthy(Field(StrategySpec(fallback, strategy), "commands"))
    ensures var o := Parser.ResolveOptions(StrategySpec(fallback, strategy));
      && o.format == Some("{" + "branch" + "}" + ("-" + ("{" + "sha" + "}")))
      && o.errorStrategy == ParseStrategy(strategy).value
  {
    var spec := StrategySpec(fallback, strategy);
    StrategySpecValid(fallback, strategy);
    Formatter.BranchShaText();
    assert Field(spec, "format") == Str("{branch}-{sha}");
    assert Field(spec, "errorStrategy") == Str(strategy);
  }

  /** What the two descriptors settle to against the scenario shell. */
  lemma StrategySettles(shell: Executor.Shell, fallback: Option<string>, strategy: ErrorStrategy)
    requires GitShell(shell) && strategy != Strict
    ensures Formatter.Substitution(Executor.Settle(shell, BranchConfig(), strategy)) == "main"
    ensures Formatter.Substitution(Executor.Settle(shell, InvalidShaConfig(fallback), strategy))
      == if strategy == Fallback && fallback.Some? && fallback.value != "" then fallback.value else ""
  {
    SettlesTo(shell, BranchConfig(), "main", strategy);
    assert !Executor.ExecuteCommand(shell, InvalidShaConfig(fallback)).success;
  }

  /** The error-strategy specification under a non-strict strategy: the
      branch, a dash, and whatever the failed command settles to. */
  lemma StrategyRun(shell: Executor.Shell, fallback: Option<string>, strategy: string)
    requires GitShell(shell)
    requires ParseStrategy(strategy).Some? && ParseStrategy(strategy).value != Strict
    ensures var s := ParseStrategy(strategy).value;
      Version(StrategySpec(fallback, strategy), shell)
        == Ok(Some("main" + "-" + if s == Fallback && fallback.Some? && fallback.value != "" then fallback.value else ""))
  {
    StrategySpecPlan(fallback, strategy);
    var plan := Parser.ParseCommandConfig(StrategySpec(fallback, strategy)).value;
    DashTemplateRun(plan, shell, "branch", "sha");
    StrategySettles(shell, fallback, plan.options.errorStrategy);
  }

  /** Under 'fallback' the failed `sha` command contributes its fallback
      value: `main-unknown`. */
  lemma FallbackScenario(shell: Executor.Shell)
    requires GitShell(shell)
    ensures Version(StrategySpec(Some("unknown"), "fallback"), shell) == Ok(Some("main-unknown"))
  {
    StrategyRun(shell, Some("unknown"), "fallback");
    MainUnknownText();
  }

  /** The fallback scenario's version string, spelled out. */
  lemma MainUnknownText()
    ensures "main" + "-" + "unknown" == "main-unknown"
  {
  }

  /** Under 'skip' the failed `sha` command contributes nothing, but the
      template keeps its dash: `main-`. */
  lemma SkipScenario(shell: Executor.Shell)
    requires GitShell(shell)
    ensures Version(StrategySpec(None, "skip"), shell) == Ok(Some("main-"))
  {
    StrategyRun(shell, None, "skip");
    assert "main" + "-" + "" == "main-";
  }

  /** Separator mode over a two-entry map whose texts are both present:
      the two texts around the separator. */
  lemma SeparatorOfPair(a: string, ra: CommandResult, b: string, rb: CommandResult, separator: string)
    requires Formatter.HasText(ra) && Formatter.HasText(rb)
    ensures Formatter.Format([(a, ra), (b, rb)], None, Some(separator))
      == Ok(ra.result.value + separator + rb.result.value)
  {
    var m := [(a, ra), (b, rb)];
    assert m[1..] == [(b, rb)];
    assert [(b, rb)][1..] == [];
    assert Formatter.Outputs(m) == [ra.result.value, rb.result.value];
    assert [ra.result.value, rb.result.value][1..] == [rb.result.value];
    assert Join([ra.result.value, rb.result.value], separator) == ra.result.value + separator + rb.result.value;
    assert Formatter.FormatWithSeparator(m, separator) == ra.result.value + separator + rb.result.value;
  }

  /** The separator scenario's specification: the two git commands as bare
      strings, with an optional separator. */
  function SeparatorSpec(separator: Option<string>): Value
  {
    match separator
    case Some(sep) => Obj(map["commands" := Arr([Str(BRANCH_COMMAND), Str(SHA_COMMAND)]), "separator" := Str(sep)])
    case None => Obj(map["commands" := Arr([Str(BRANCH_COMMAND), Str(SHA_COMMAND)])])
  }

  /** Bare strings are aliased by position. */
  lemma BareCommandsParse()
    ensures Parser.ParseCommands([Str(BRANCH_COMMAND), Str(SHA_COMMAND)]) == Ok([
      CommandConfig("0", BRANCH_COMMAND, None, Some(DEFAULT_TIMEOUT)),
      CommandConfig("1", SHA_COMMAND, None, Some(DEFAULT_TIMEOUT))])
  {
    var items := [Str(BRANCH_COMMAND), Str(SHA_COMMAND)];
    ParserProperties.BareStringsAlwaysParse(items);
    assert Parser.AutoAlias(0) == "0" && Parser.AutoAlias(1) == "1";
    var cmds := Parser.ParseCommands(items).value;
    assert cmds == [cmds[0], cmds[1]];
  }

  lemma SeparatorSpecPlan(separator: Option<string>)
    ensures var plan := Parser.ParseCommandConfig(SeparatorSpec(separator));
      && plan.Ok? && !plan.value.isSingle
      && plan.value.commands == [
           CommandConfig("0", BRANCH_COMMAND, None, Some(DEFAULT_TIMEOUT)),
           CommandConfig("1", SHA_COMMAND, None, Some(DEFAULT_TIMEOUT))]
      && plan.value.options.format.None?
      && plan.value.options.errorStrategy == Skip
      && plan.value.options.separator == if separator.Some? && separator.value != "" then separator.value else "-"
  {
    var spec := SeparatorSpec(separator);
    var items := [Str(BRANCH_COMMAND), Str(SHA_COMMAND)];
    assert Field(spec, "commands") == Arr(items);
    assert Field(spec, "format") == Missing && Field(spec, "errorStrategy") == Missing && Field(spec, "parallel") == Missing;
    assert Field(spec, "separator") == if separator.Some? then Str(separator.value) else Missing;
    assert Parser.ValidateMultiCommandOptions(spec) == Pass;
    BareCommandsParse();
    ValidSpecParses(spec, [
      CommandConfig("0", BRANCH_COMMAND, None, Some(DEFAULT_TIMEOUT)),
      CommandConfig("1", SHA_COMMAND, None, Some(DEFAULT_TIMEOUT))]);
  }

  /** Separator mode over two descriptors, outside 'strict': the settled
      texts joined by the plan's separator. */
  lemma SeparatorPairRun(plan: Parser.ParsedCommandConfig, shell: Executor.Shell)
    requires !plan.isSingle && |plan.commands| == 2 && plan.commands[0].alias != plan.commands[1].alias
    requires plan.options.format.None? && plan.options.errorStrategy != Strict
    requires Formatter.HasText(Executor.Settle(shell, plan.commands[0], plan.options.errorStrategy))
    requires Formatter.HasText(Executor.Settle(shell, plan.commands[1], plan.options.errorStrategy))
    ensures var s := plan.options.errorStrategy;
      RunPlan(plan, shell) == Ok(Some(
        Executor.Settle(shell, plan.commands[0], s).result.value + plan.options.separator
        + Executor.Settle(shell, plan.commands[1], s).result.value))
  {
    var s := plan.options.errorStrategy;
    TwoDescriptorRun(plan.commands, shell, plan.options);
    SeparatorOfPair(plan.commands[0].alias, Executor.Settle(shell, plan.commands[0], s),
      plan.commands[1].alias, Executor.Settle(shell, plan.commands[1], s), plan.options.separator);
  }

  /** Running the bare-string plan: the branch and the SHA around the
      plan's separator. */
  lemma BarePlanRun(plan: Parser.ParsedCommandConfig, shell: Executor.Shell)
    requires GitShell(shell)
    requires !plan.isSingle && plan.options.format.None? && plan.options.errorStrategy == Skip
    requires plan.commands == [
      CommandConfig("0", BRANCH_COMMAND, None, Some(DEFAULT_TIMEOUT)),
      CommandConfig("1", SHA_COMMAND, None, Some(DEFAULT_TIMEOUT))]
    ensures RunPlan(plan, shell) == Ok(Some("main" + plan.options.separator + "abc1234"))
  {
    BranchSettles(shell, plan.commands[0]);
    ShaSettles(shell, plan.commands[1]);
    WordsPlanRun(plan, shell, "main", "abc1234");
  }

  lemma BranchSettles(shell: Executor.Shell, c: CommandConfig)
    requires GitShell(shell) && c == CommandConfig("0", BRANCH_COMMAND, None, Some(DEFAULT_TIMEOUT))
    ensures Executor.Settle(shell, c, Skip).result == Some("main")
  {
    GitWords();
    SettlesTo(shell, c, "main", Skip);
  }

  lemma ShaSettles(shell: Executor.Shell, c: CommandConfig)
    requires GitShell(shell) && c == CommandConfig("1", SHA_COMMAND, None, Some(DEFAULT_TIMEOUT))
    ensures Executor.Settle(shell, c, Skip).result == Some("abc1234")
  {
    GitWords();
    SettlesTo(shell, c, "abc1234", Skip);
  }

  /** Separator mode over two descriptors that settle to non-empty words. */
  lemma WordsPlanRun(plan: Parser.ParsedCommandConfig, shell: Executor.Shell, w0: string, w1: string)
    requires !plan.isSingle && |plan.commands| == 2 && plan.commands[0].alias != plan.commands[1].alias
    requires plan.options.format.None? && plan.options.errorStrategy != Strict
    requires w0 != "" && w1 != ""
    requires Executor.Settle(shell, plan.commands[0], plan.options.errorStrategy).result == Some(w0)
    requires Executor.Settle(shell, plan.commands[1], plan.options.errorStrategy).result == Some(w1)
    ensures RunPlan(plan, shell) == Ok(Some(w0 + plan.options.separator + w1))
  {
    SeparatorPairRun(plan, shell);
  }

  /** Without a template the two outputs are joined by the separator,
      '-' unless another is given. */
  lemma SeparatorRun(shell: Executor.Shell, separator: Option<string>)
    requires GitShell(shell)
    ensures Version(SeparatorSpec(separator), shell)
      == Ok(Some("main" + (if separator.Some? && separator.value != "" then separator.value else "-") + "abc1234"))
  {
    SeparatorSpecPlan(separator);
    BarePlanRun(Parser.ParseCommandConfig(SeparatorSpec(separator)).value, shell);
  }

  /** The default separator: `main-abc1234`. */
  lemma DefaultSeparatorScenario(shell: Executor.Shell)
    requires GitShell(shell)
    ensures Version(SeparatorSpec(None), shell) == Ok(Some("main-abc1234"))
  {
    SeparatorRun(shell, None);
    JoinedTexts();
  }

  /** A custom separator: `main_abc1234`. */
  lemma CustomSeparatorScenario(shell: Executor.Shell)
    requires GitShell(shell)
    ensures Version(SeparatorSpec(Some("_")), shell) == Ok(Some("main_abc1234"))
  {
    SeparatorRun(shell, Some("_"));
    JoinedTexts();
  }

  /** The two joined outputs of the separator scenario, spelled out. */
  lemma JoinedTexts()
    ensures "main" + "-" + "abc1234" == "main-abc1234"
    ensures "main" + "_" + "abc1234" == "main_abc1234"
  {
  }
}

