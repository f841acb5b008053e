/** `analyticOptions` of src/plugins/core/main.ts, the older resolver: the
    version comes from git only when `ifGitSHA` is set, and `gitCommand`
    replaces the git invocation when it is truthy. */
module CoreMain {
  import opened Results
  import opened Strings
  import opened Types
  import opened Naming
  import opened LegacyExec
  import CoreIndex

  /** The options object; an absent field is `None`. */
  datatype Input = Input(
    name: Option<string>,
    version: Option<string>,
    ifGitSHA: Option<bool>,
    ifShortSHA: Option<bool>,
    gitCommand: Option<string>,
    ifMeta: Option<bool>,
    ifLog: Option<bool>,
    ifGlobal: Option<bool>)

  const NO_OPTIONS := Input(None, None, None, None, None, None, None, None)

  /** The resolved configuration (this resolver has no `ifExport`). */
  datatype Config = Config(
    ifMeta: bool,
    ifLog: bool,
    ifGlobal: bool,
    printVersion: Option<string>,
    printName: string,
    printInfo: string)

  /** The command `getGitSHA` runs: a truthy `gitCommand`, otherwise the
      short or the full `git rev-parse`. */
  function GitCommand(ifShortSHA: bool, gitCommand: Option<string>): (sh: string)
    ensures gitCommand.Some? && gitCommand.value != "" ==> sh == gitCommand.value
    ensures (gitCommand.None? || gitCommand.value == "") ==> sh == (if ifShortSHA then SHORT_SHA_COMMAND else FULL_SHA_COMMAND)
    ensures sh != ""
  {
    if gitCommand.Some? && gitCommand.value != "" then gitCommand.value
    else if ifShortSHA then SHORT_SHA_COMMAND
    else FULL_SHA_COMMAND
  }

  function AnalyticOptions(input: Input, env: Environment, exec: Exec): (r: Result<Config, Error>)
    ensures var sh := GitCommand(input.ifShortSHA.GetOr(true), input.gitCommand);
      r.Err? <==> input.ifGitSHA == Some(true) && exec(sh).Failure?
    ensures r.Err? ==> r.error == ProcessError(GitCommand(input.ifShortSHA.GetOr(true), input.gitCommand))
    ensures r.Ok? ==>
      && r.value.ifMeta == input.ifMeta.GetOr(true)
      && r.value.ifLog == input.ifLog.GetOr(true)
      && r.value.ifGlobal == input.ifGlobal.GetOr(true)
      && r.value.printName == PrintName(Default(input.name, env.packageName))
      && r.value.printInfo == PrintInfo(r.value.printName, r.value.printVersion)
    ensures r.Ok? && input.ifGitSHA != Some(true) ==> r.value.printVersion == Default(input.version, env.packageVersion)
    ensures r.Ok? && input.ifGitSHA == Some(true) ==>
      r.value.printVersion == Some(ExecCommand(exec, GitCommand(input.ifShortSHA.GetOr(true), input.gitCommand)).value)
  {
    var name := Default(input.name, env.packageName);
    var version := Default(input.version, env.packageVersion);
    var printVersion :- if input.ifGitSHA.GetOr(false) then
        var out :- ExecCommand(exec, GitCommand(input.ifShortSHA.GetOr(true), input.gitCommand)); Ok(Some(out))
      else Ok(version);
    var printName := PrintName(name);
    Ok(Config(
      input.ifMeta.GetOr(true), input.ifLog.GetOr(true), input.ifGlobal.GetOr(true),
      printVersion, printName, PrintInfo(printName, printVersion)))
  }

  /** Without `ifGitSHA` the shell is never consulted, whatever the other
      git options say. */
  lemma NoGitSHAKeepsVersion(input: Input, env: Environment, exec1: Exec, exec2: Exec)
    requires input.ifGitSHA != Some(true)
    ensures AnalyticOptions(input, env, exec1) == AnalyticOptions(input, env, exec2)
    ensures AnalyticOptions(input, env, exec1).Ok?
    ensures AnalyticOptions(input, env, exec1).value.printVersion == Default(input.version, env.packageVersion)
  {
  }

  /** An empty `gitCommand` is falsy, so it falls through to git itself;
      `ifShortSHA` defaults to true. */
  lemma EmptyGitCommandFallsThrough(input: Input)
    requires input.gitCommand == Some("")
    ensures GitCommand(input.ifShortSHA.GetOr(true), input.gitCommand)
      == GitCommand(input.ifShortSHA.GetOr(true), None)
    ensures input.ifShortSHA.None? ==> GitCommand(input.ifShortSHA.GetOr(true), input.gitCommand) == SHORT_SHA_COMMAND
  {
  }

  /** A truthy `gitCommand` decides the command alone: `ifShortSHA` is not
      read. */
  lemma GitCommandOverridesShortSHA(input: Input, env: Environment, exec: Exec)
    requires input.gitCommand.Some? && input.gitCommand.value != ""
    ensures AnalyticOptions(input, env, exec) == AnalyticOptions(input.(ifShortSHA := None), env, exec)
  {
  }

  /** `ifGitSHA` alone runs the short SHA command, since `ifShortSHA`
      defaults to true. */
  lemma GitSHAExample(exec: Exec)
    requires exec(SHORT_SHA_COMMAND) == Stdout("abc1234\n")
    ensures var r := AnalyticOptions(NO_OPTIONS.(ifGitSHA := Some(true)), Environment(Some("test-app"), Some("v1.0.0")), exec);
      r.Ok? && r.value.printVersion == Some("abc1234")
  {
    ShaLineFeed();
  }

  /** `ifShortSHA: false` selects the full SHA. */
  lemma FullSHAExample(exec: Exec, cause: Cause)
    requires exec(FULL_SHA_COMMAND) == Failure(cause)
    ensures AnalyticOptions(NO_OPTIONS.(ifGitSHA := Some(true), ifShortSHA := Some(false)), Environment(None, None), exec)
      == Err(ProcessError(FULL_SHA_COMMAND))
  {
  }

  /** The two resolvers read an empty command differently: the newer one
      keeps it (`??`) and so runs nothing, the older one finds it falsy and
      runs the short SHA command instead. */
  lemma EmptyCommandReadDifferently(env: Environment, exec: Exec)
    requires exec(SHORT_SHA_COMMAND) == Stdout("abc1234\n")
    requires env.packageVersion == Some("v1.0.0")
    ensures var legacy := AnalyticOptions(NO_OPTIONS.(ifGitSHA := Some(true), gitCommand := Some("")), env, exec);
      legacy.Ok? && legacy.value.printVersion == Some("abc1234")
    ensures var newer := CoreIndex.AnalyticOptions(CoreIndex.NO_OPTIONS.(ifGitSHA := Some(true), command := Some("")), env, exec);
      newer.Ok? && newer.value.printVersion == Some("v1.0.0")
  {
    ShaLineFeed();
  }
}
