/** The three stages composed the way a multi-command `command` option is
    turned into a version string: the parser's plan is executed, and the
    settled results are formatted with the plan's template or separator.
    A single-command plan runs its one command; an empty plan yields no
    version string, leaving the static version in place. */
module Pipeline {
  import opened Results
  import opened Json
  import opened Types
  import opened Strings
  import OrderedMap
  import Template
  import Parser
  import ParserProperties
  import Executor
  import Formatter

  /** The execution options a plan's resolved options amount to. */
  function ExecutionOptionsOf(options: MultiCommandOptions): Executor.ExecutionOptions
  {
    Executor.ExecutionOptions(Some(options.errorStrategy), Some(options.parallel))
  }

  /** Runs a parsed plan: `None` when it holds no command. */
  function RunPlan(plan: Parser.ParsedCommandConfig, shell: Executor.Shell): (r: Result<Option<string>, Error>)
    ensures plan.isSingle && |plan.commands| == 0 ==> r == Ok(None)
    ensures r.Ok? && r.value.None? ==> plan.isSingle && |plan.commands| == 0
    ensures !plan.isSingle && r.Ok? ==>
      var x := Executor.ExecMultipleCommands(plan.commands, shell, ExecutionOptionsOf(plan.options));
      && x.outcome.Ok?
      && Formatter.Format(x.outcome.value, plan.options.format, Some(plan.options.separator)) == Ok(r.value.value)
    ensures !plan.isSingle ==>
      var x := Executor.ExecMultipleCommands(plan.commands, shell, ExecutionOptionsOf(plan.options));
      && (x.outcome.Err? ==> r == Err(x.outcome.error))
      && (x.outcome.Ok? ==>
            var f := Formatter.Format(x.outcome.value, plan.options.format, Some(plan.options.separator));
            && (f.Ok? ==> r == Ok(Some(f.value)))
            && (f.Err? ==> r == Err(f.error)))
    ensures plan.isSingle && |plan.commands| > 0 ==>
      var c := plan.commands[0];
      var o := shell(c.cmd, c.timeout.GetOr(DEFAULT_TIMEOUT)).outcome;
      && (o.Failure? ==> r == Err(CommandExecutionError(c.cmd, Some(o.cause))))
      && (o.Stdout? ==> r.Ok? && r.value.Some? && IsTrimOf(o.text, r.value.value))
  {
    if plan.isSingle then
      if |plan.commands| == 0 then Ok(None)
      else
        var out :- Executor.ExecSingleCommand(shell, plan.commands[0].cmd, plan.commands[0].timeout);
        Ok(Some(out))
    else
      var results :- Executor.ExecMultipleCommands(plan.commands, shell, ExecutionOptionsOf(plan.options)).outcome;
      var out :- Formatter.Format(results, plan.options.format, Some(plan.options.separator));
      Ok(Some(out))
  }

  /** Parse, execute, format. */
  function Version(spec: Value, shell: Executor.Shell): (r: Result<Option<string>, Error>)
    ensures Parser.ParseCommandConfig(spec).Err? ==> r == Err(Parser.ParseCommandConfig(spec).error)
  {
    var plan :- Parser.ParseCommandConfig(spec);
    RunPlan(plan, shell)
  }

  /** The template check the parser makes is the one the formatter needs:
      after a successful parse the formatter never reports a missing
      placeholder, whatever the shell answers. Every failure is then a
      configuration error or a command failure. */
  lemma NoFormatErrorAfterParse(spec: Value, shell: Executor.Shell)
    requires Parser.ParseCommandConfig(spec).Ok?
    ensures Version(spec, shell).Err? ==> Version(spec, shell).error.CommandExecutionError?
  {
    var plan := Parser.ParseCommandConfig(spec).value;
    if !plan.isSingle {
      if plan.options.format.Some? && plan.options.format.value != "" {
        ParserProperties.FormatPlaceholdersAreAliases(spec);
      }
      MultiRunErrors(plan, shell);
    }
  }

  /** Every placeholder of the plan's template, if it has one, is an alias
      of one of its descriptors. */
  ghost predicate TemplateCovered(plan: Parser.ParsedCommandConfig) {
    plan.options.format.Some? && plan.options.format.value != "" ==>
      forall p :: p in Template.Placeholders(plan.options.format.value) ==> p in Parser.Aliases(plan.commands)
  }

  /** A multi-command plan whose template is covered fails only when a
      command does. */
  lemma MultiRunErrors(plan: Parser.ParsedCommandConfig, shell: Executor.Shell)
    requires !plan.isSingle && TemplateCovered(plan)
    ensures RunPlan(plan, shell).Err? ==> RunPlan(plan, shell).error.CommandExecutionError?
  {
    var options := ExecutionOptionsOf(plan.options);
    var x := Executor.ExecMultipleCommands(plan.commands, shell, options);
    if x.outcome.Ok? {
      Executor.ExecOkIsCollect(plan.commands, shell, options);
      Executor.CollectKeySet(plan.commands, shell, options.errorStrategy.GetOr(DEFAULT_STRATEGY));
      FormatCovered(x.outcome.value, plan.options.format, Some(plan.options.separator));
    } else {
      ExecErrorIsCommandError(plan.commands, shell, options);
    }
  }

  /** Formatting cannot fail when every placeholder has a stored result. */
  lemma FormatCovered(results: ResultMap, template: Option<string>, separator: Option<string>)
    requires template.Some? && template.value != "" ==>
      forall p :: p in Template.Placeholders(template.value) ==> p in OrderedMap.Keys(results)
    ensures Formatter.Format(results, template, separator).Ok?
  {
  }

  /** `execMultipleCommands` only ever throws command errors. */
  lemma ExecErrorIsCommandError(cmds: seq<CommandConfig>, shell: Executor.Shell, options: Executor.ExecutionOptions)
    requires Executor.ExecMultipleCommands(cmds, shell, options).outcome.Err?
    ensures Executor.ExecMultipleCommands(cmds, shell, options).outcome.error.CommandExecutionError?
  {
  }
}
