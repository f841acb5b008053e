/** The command runner both `analyticOptions` implementations share
    (`execCommand` in src/plugins/core/index.ts, the promise inside
    `getGitSHA` in src/plugins/core/main.ts). The shell is an oracle from
    the command text to its standard output or a failure; a failure rejects
    the whole option resolution. */
module LegacyExec {
  import opened Results
  import opened Strings
  import opened Types

  type Exec = string -> ShellOutcome

  const SHORT_SHA_COMMAND := "git rev-parse --short HEAD"
  const FULL_SHA_COMMAND := "git rev-parse HEAD"

  /** `process.env.npm_package_name` and `process.env.npm_package_version`,
      the defaults of the `name` and `version` options. */
  datatype Environment = Environment(packageName: Option<string>, packageVersion: Option<string>)

  /** `options.x` with a destructuring default: the default applies only
      when the option is absent. */
  function Default<T>(given: Option<T>, fallback: Option<T>): (r: Option<T>)
    ensures given.Some? ==> r == given
    ensures given.None? ==> r == fallback
  {
    if given.Some? then given else fallback
  }

  /** Runs `command`: its output with the first line feed, and only the
      first, removed; a failure becomes a `ProcessError` for the command. */
  function ExecCommand(exec: Exec, command: string): (r: Result<string, Error>)
    ensures exec(command).Failure? ==> r == Err(ProcessError(command))
    ensures exec(command).Stdout? ==> r.Ok?
    ensures exec(command).Stdout? && '\n' !in exec(command).text ==> r.value == exec(command).text
    ensures exec(command).Stdout? && '\n' in exec(command).text ==>
      |r.value| == |exec(command).text| - 1 && multiset(r.value) == multiset(exec(command).text) - multiset{'\n'}
    ensures exec(command).Stdout? && '\n' in exec(command).text ==>
      var t := exec(command).text;
      exists i :: 0 <= i < |t| && t[i] == '\n' && '\n' !in t[..i] && r.value == t[..i] + t[i + 1..]
  {
    match exec(command)
    case Stdout(text) =>
      if '\n' in text then
        RemoveFirstDropsOne(text, '\n');
        Ok(RemoveFirst(text, '\n'))
      else Ok(RemoveFirst(text, '\n'))
    case Failure(_) => Err(ProcessError(command))
  }

  /** The first line feed is the one removed, whatever follows it. */
  lemma RemoveFirstLineFeed(before: string, after: string)
    requires '\n' !in before
    ensures RemoveFirst(before + "\n" + after, '\n') == before + after
  {
    var s := before + "\n" + after;
    assert s[|before|] == '\n' && s[..|before|] == before && s[|before| + 1..] == after;
    assert forall j :: 0 <= j < |before| ==> s[j] == before[j];
    RemoveFirstAt(s, '\n', |before|);
  }

  /** git's own line feed is dropped. */
  lemma ShaLineFeed()
    ensures RemoveFirst("abc1234\n", '\n') == "abc1234"
  {
    RemoveFirstLineFeed("abc1234", "");
    assert "abc1234" + "\n" + "" == "abc1234\n";
  }

  /** Of two line feeds only the first goes. */
  lemma DoubleLineFeed()
    ensures RemoveFirst(" 1.0\n\n", '\n') == " 1.0\n"
  {
    assert " 1.0" + "\n" + "\n" == " 1.0\n\n" && " 1.0" + "\n" == " 1.0\n";
    assert '\n' !in " 1.0";
    RemoveFirstLineFeed(" 1.0", "\n");
  }
}
