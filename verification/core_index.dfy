/** `analyticOptions` of src/plugins/core/index.ts: resolves the plugin's
    options into the printed name and version, running a shell command
    (a custom one, or `git rev-parse`) when one is chosen. */
module CoreIndex {
  import opened Results
  import opened Types
  import opened Naming
  import opened Strings
  import opened LegacyExec

  /** The options object; an absent field is `None`. */
  datatype Input = Input(
    name: Option<string>,
    version: Option<string>,
    command: Option<string>,
    ifShortSHA: Option<bool>,
    ifGitSHA: Option<bool>,
    ifMeta: Option<bool>,
    ifLog: Option<bool>,
    ifGlobal: Option<bool>,
    ifExport: Option<bool>)

  const NO_OPTIONS := Input(None, None, None, None, None, None, None, None, None)

  /** The resolved configuration; `printVersion` may stay undefined. */
  datatype Config = Config(
    ifMeta: bool,
    ifLog: bool,
    ifGlobal: bool,
    ifExport: bool,
    printVersion: Option<string>,
    printName: string,
    printInfo: string)

  /** `command ?? (ifShortSHA ? short : ifGitSHA ? full : undefined)`:
      any given command, even an empty one, wins over the SHA flags, and
      the short SHA wins over the full one. */
  function FinalCommand(input: Input): (r: Option<string>)
    ensures input.command.Some? ==> r == input.command
    ensures input.command.None? && input.ifShortSHA == Some(true) ==> r == Some(SHORT_SHA_COMMAND)
    ensures input.command.None? && input.ifShortSHA != Some(true) && input.ifGitSHA == Some(true) ==> r == Some(FULL_SHA_COMMAND)
    ensures r.None? <==> input.command.None? && input.ifShortSHA != Some(true) && input.ifGitSHA != Some(true)
  {
    if input.command.Some? then input.command
    else if input.ifShortSHA.GetOr(false) then Some(SHORT_SHA_COMMAND)
    else if input.ifGitSHA.GetOr(false) then Some(FULL_SHA_COMMAND)
    else None
  }

  /** A command runs only when it is truthy, that is present and non-empty. */
  predicate Runs(command: Option<string>) {
    command.Some? && command.value != ""
  }

  function AnalyticOptions(input: Input, env: Environment, exec: Exec): (r: Result<Config, Error>)
    ensures r.Err? <==> Runs(FinalCommand(input)) && exec(FinalCommand(input).value).Failure?
    ensures r.Err? ==> r.error == ProcessError(FinalCommand(input).value)
    ensures r.Ok? ==>
      && r.value.ifMeta == input.ifMeta.GetOr(true)
      && r.value.ifLog == input.ifLog.GetOr(true)
      && r.value.ifGlobal == input.ifGlobal.GetOr(true)
      && r.value.ifExport == input.ifExport.GetOr(false)
      && r.value.printName == PrintName(Default(input.name, env.packageName))
      && r.value.printInfo == PrintInfo(r.value.printName, r.value.printVersion)
    ensures r.Ok? && !Runs(FinalCommand(input)) ==> r.value.printVersion == Default(input.version, env.packageVersion)
    ensures r.Ok? && Runs(FinalCommand(input)) ==> r.value.printVersion == Some(ExecCommand(exec, FinalCommand(input).value).value)
  {
    var name := Default(input.name, env.packageName);
    var version := Default(input.version, env.packageVersion);
    var command := FinalCommand(input);
    var printVersion :- if Runs(command) then
        var out :- ExecCommand(exec, command.value); Ok(Some(out))
      else Ok(version);
    var printName := PrintName(name);
    Ok(Config(
      input.ifMeta.GetOr(true), input.ifLog.GetOr(true), input.ifGlobal.GetOr(true), input.ifExport.GetOr(false),
      printVersion, printName, PrintInfo(printName, printVersion)))
  }

  /** Without a chosen, non-empty command the shell is never consulted:
      the version is the given (or environment) version whatever the shell
      would answer. */
  lemma NoCommandKeepsVersion(input: Input, env: Environment, exec1: Exec, exec2: Exec)
    requires !Runs(FinalCommand(input))
    ensures AnalyticOptions(input, env, exec1) == AnalyticOptions(input, env, exec2)
    ensures AnalyticOptions(input, env, exec1).Ok?
    ensures AnalyticOptions(input, env, exec1).value.printVersion == Default(input.version, env.packageVersion)
  {
  }

  /** An empty `command` is not undefined, so `??` keeps it and the SHA
      flags are never looked at; being falsy, it runs nothing either. */
  lemma EmptyCommandSuppressesSHA(input: Input, env: Environment, exec: Exec)
    requires input.command == Some("")
    ensures FinalCommand(input) == Some("")
    ensures AnalyticOptions(input, env, exec).Ok?
    ensures AnalyticOptions(input, env, exec).value.printVersion == Default(input.version, env.packageVersion)
  {
  }

  /** A given command decides the result alone: the SHA flags change nothing. */
  lemma CommandOverridesSHAFlags(input: Input, env: Environment, exec: Exec)
    requires input.command.Some?
    ensures AnalyticOptions(input, env, exec) == AnalyticOptions(input.(ifShortSHA := None, ifGitSHA := None), env, exec)
  {
  }

  /** With both SHA flags set the short SHA command is the one that runs. */
  lemma ShortSHAWinsOverFull(input: Input, env: Environment, exec: Exec)
    requires input.command.None? && input.ifShortSHA == Some(true) && input.ifGitSHA == Some(true)
    ensures AnalyticOptions(input, env, exec) == AnalyticOptions(input.(ifGitSHA := None), env, exec)
    ensures AnalyticOptions(input, env, exec).Ok? <==> exec(SHORT_SHA_COMMAND).Stdout?
  {
  }

  /** No options at all: every flag takes its default and the name and
      version come from the environment. */
  lemma DefaultsExample(exec: Exec)
    ensures AnalyticOptions(NO_OPTIONS, Environment(Some("test-app"), Some("v1.0.0")), exec)
      == Ok(Config(true, true, true, false, Some("v1.0.0"), "TEST_APP_VERSION", "TEST_APP_VERSION: v1.0.0"))
  {
    TestAppTexts();
  }

  lemma TestAppTexts()
    ensures PrintName(Some("test-app")) == "TEST_APP_VERSION"
    ensures PrintInfo("TEST_APP_VERSION", Some("v1.0.0")) == "TEST_APP_VERSION: v1.0.0"
  {
    TestAppCanonical();
    assert "TEST_APP" + SUFFIX == "TEST_APP_VERSION";
  }

  /** A missing name and version interpolate as the text "undefined". */
  lemma UndefinedExample(exec: Exec)
    ensures AnalyticOptions(NO_OPTIONS, Environment(None, None), exec)
      == Ok(Config(true, true, true, false, None, "undefined_VERSION", "undefined_VERSION: undefined"))
  {
    UndefinedInfo();
  }

  lemma UndefinedInfo()
    ensures PrintInfo("undefined_VERSION", None) == "undefined_VERSION: undefined"
  {
    assert "undefined_VERSION" + ": " + "undefined" == "undefined_VERSION: undefined";
  }

  /** `ifShortSHA` runs `git rev-parse --short HEAD` and drops the line feed
      git ends its output with. */
  lemma ShortSHAExample(exec: Exec)
    requires exec(SHORT_SHA_COMMAND) == Stdout("abc1234\n")
    ensures var r := AnalyticOptions(NO_OPTIONS.(ifShortSHA := Some(true)), Environment(Some("test-app"), Some("v1.0.0")), exec);
      r.Ok? && r.value.printVersion == Some("abc1234")
  {
    ShaLineFeed();
  }

  /** Only the first line feed is removed, and nothing else is trimmed. */
  lemma OnlyFirstLineFeedRemoved(exec: Exec)
    requires exec("cat VERSION") == Stdout(" 1.0\n\n")
    ensures var r := AnalyticOptions(NO_OPTIONS.(command := Some("cat VERSION")), Environment(None, None), exec);
      r.Ok? && r.value.printVersion == Some(" 1.0\n")
  {
    DoubleLineFeed();
  }

  /** A failing command rejects the whole resolution. */
  lemma FailingCommandRejects(exec: Exec, cause: Cause)
    requires exec(FULL_SHA_COMMAND) == Failure(cause)
    ensures AnalyticOptions(NO_OPTIONS.(ifGitSHA := Some(true)), Environment(None, None), exec)
      == Err(ProcessError(FULL_SHA_COMMAND))
  {
  }
}
