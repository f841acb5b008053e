/** The records shared by the parser, the executor and the formatter, with the
    defaults the program documents for them. */
module Types {
  import opened Results
  import Json

  /** How a failed command is reported: abort, blank it, or substitute. */
  datatype ErrorStrategy = Strict | Skip | Fallback

  /** The option spelling of each strategy. */
  function StrategyName(e: ErrorStrategy): string
  {
    match e
    case Strict => "strict"
    case Skip => "skip"
    case Fallback => "fallback"
  }

  /** `['strict', 'skip', 'fallback'].includes(s)`, returning the strategy. */
  function ParseStrategy(s: string): (r: Option<ErrorStrategy>)
    ensures r.Some? ==> StrategyName(r.value) == s
    ensures forall e: ErrorStrategy :: StrategyName(e) == s ==> r == Some(e)
  {
    if s == "strict" then Some(Strict)
    else if s == "skip" then Some(Skip)
    else if s == "fallback" then Some(Fallback)
    else None
  }

  /** Exactly three spellings name a strategy, and each names a different one. */
  lemma StrategyNames(s: string)
    ensures ParseStrategy(s).Some? <==> s in {"strict", "skip", "fallback"}
    ensures forall e: ErrorStrategy :: ParseStrategy(StrategyName(e)) == Some(e)
  {
  }

  const DEFAULT_TIMEOUT: int := 10000
  const DEFAULT_SEPARATOR: string := "-"
  const DEFAULT_STRATEGY: ErrorStrategy := Skip
  const DEFAULT_PARALLEL: bool := true

  /** One command to run: its alias, its text, an optional fallback value and
      an optional timeout in milliseconds. */
  datatype CommandConfig = CommandConfig(
    alias: string,
    cmd: string,
    fallback: Option<string>,
    timeout: Option<int>)
  {
    /** The timeout the command runs with: the given one, else 10000 ms. */
    function EffectiveTimeout(): (t: int)
      ensures timeout.None? ==> t == DEFAULT_TIMEOUT
      ensures timeout.Some? ==> t == timeout.value
    {
      timeout.GetOr(DEFAULT_TIMEOUT)
    }
  }

  /** Why a shell command did not produce output. */
  datatype Cause = ExitFailure | TimedOut

  /** What the shell reports for one command: its standard output, or a failure. */
  datatype ShellOutcome = Stdout(text: string) | Failure(cause: Cause)

  /** A shell outcome with the time it took, in milliseconds. */
  datatype Timed = Timed(outcome: ShellOutcome, duration: nat)

  datatype Error =
    | ConfigValidationError(field: Option<string>)
    | TypeError                                             // a property read on `null` or `undefined`
    | CommandExecutionError(command: string, cause: Option<Cause>)
    | FormatError(template: string)
    | ProcessError(command: string)                          // an unwrapped `child_process.exec` failure
    | CommandFailed(command: string)                         // a plain `Error` naming a failed command

  /** The outcome of one command, as stored in the result map. */
  datatype CommandResult = CommandResult(
    alias: string,
    command: string,
    result: Option<string>,
    error: Option<Error>,
    duration: nat,
    success: bool)

  /** Results keyed by alias, in insertion order. */
  type ResultMap = seq<(string, CommandResult)>

  /** The normalised options of a parsed command specification. */
  datatype MultiCommandOptions = MultiCommandOptions(
    commands: seq<Json.Value>,
    format: Option<string>,
    separator: string,
    errorStrategy: ErrorStrategy,
    parallel: bool)

  /** The options of a specification that has no multi-command object. */
  const DEFAULT_OPTIONS := MultiCommandOptions([], None, DEFAULT_SEPARATOR, DEFAULT_STRATEGY, DEFAULT_PARALLEL)
}
