/** `CommandExecutor` (src/plugins/core/executor.ts). The shell is an oracle
    `shell(cmd, timeout)` that reports, for the command text and the timeout
    it runs under, either its standard output or a failure (a non-zero exit,
    a spawn error, or the timeout firing), with the time it took. What remains
    is deterministic: trimming, the insertion-ordered result map, the error
    strategy, serial early exit and the strict aggregate check. */
module Executor {
  import opened Results
  import opened Strings
  import opened Types
  import OrderedMap
  import Parser

  type Shell = (string, int) -> Timed

  /** The `options` argument of `execMultipleCommands`, defaults unapplied. */
  datatype ExecutionOptions = ExecutionOptions(errorStrategy: Option<ErrorStrategy>, parallel: Option<bool>)

  /** What `execMultipleCommands` settles to, and how many descriptors (a
      prefix of the list) were handed to the shell. */
  datatype Execution = Execution(outcome: Result<ResultMap, Error>, launched: nat)

  /** `execSingleCommand`: the trimmed standard output, or a
      `CommandExecutionError` naming the command and the cause. */
  function ExecSingleCommand(shell: Shell, command: string, timeout: Option<int>): (r: Result<string, Error>)
    ensures var o := shell(command, timeout.GetOr(DEFAULT_TIMEOUT)).outcome;
      && (o.Failure? ==> r == Err(CommandExecutionError(command, Some(o.cause))))
      && (o.Stdout? ==> r.Ok? && IsTrimOf(o.text, r.value))
  {
    match shell(command, timeout.GetOr(DEFAULT_TIMEOUT)).outcome
    case Stdout(text) => Ok(Trim(text))
    case Failure(cause) => Err(CommandExecutionError(command, Some(cause)))
  }

  /** `executeCommand`: never throws; a failure becomes an unsuccessful result
      carrying the error. */
  function ExecuteCommand(shell: Shell, config: CommandConfig): (r: CommandResult)
    ensures r.alias == config.alias && r.command == config.cmd
    ensures r.duration == shell(config.cmd, config.EffectiveTimeout()).duration
    ensures var out := ExecSingleCommand(shell, config.cmd, config.timeout);
      && (r.success <==> out.Ok?)
      && (r.success ==> r.result == Some(out.value) && r.error.None?)
      && (!r.success ==> r.result.None? && r.error == Some(out.error))
  {
    var duration := shell(config.cmd, config.EffectiveTimeout()).duration;
    match ExecSingleCommand(shell, config.cmd, config.timeout)
    case Ok(out) => CommandResult(config.alias, config.cmd, Some(out), None, duration, true)
    case Err(e) => CommandResult(config.alias, config.cmd, None, Some(e), duration, false)
  }

  /** `applyErrorStrategy` on a failed result. Alias, command and duration
      never change. A fallback value is used only under 'fallback' when the
      descriptor has one; otherwise 'skip' and 'fallback' blank the output to
      '' and keep the failure; 'strict' leaves the result exactly as it was. */
  function ApplyErrorStrategy(base: CommandResult, config: CommandConfig, strategy: ErrorStrategy): (r: CommandResult)
    ensures r.alias == base.alias && r.command == base.command && r.duration == base.duration
    ensures strategy == Strict ==> r == base
    ensures strategy == Fallback && config.fallback.Some? ==>
      r.success && r.result == config.fallback && r.error.None?
    ensures !(strategy == Fallback && config.fallback.Some?) ==> r.success == base.success && r.error == base.error
    ensures strategy != Strict && !(strategy == Fallback && config.fallback.Some?) ==> r.result == Some("")
  {
    match strategy
    case Fallback =>
      if config.fallback.Some? then base.(result := config.fallback, success := true, error := None)
      else base.(result := Some(""))
    case Skip => base.(result := Some(""))
    case Strict => base
  }

  /** What each descriptor yields when handed to the shell, in order. The
      shell is a pure oracle, so this is what either branch sees for each
      descriptor it runs. */
  function RunAll(cmds: seq<CommandConfig>, shell: Shell): (rs: seq<CommandResult>)
    ensures |rs| == |cmds|
    ensures forall i :: 0 <= i < |cmds| ==> rs[i] == ExecuteCommand(shell, cmds[i])
  {
    seq(|cmds|, i requires 0 <= i < |cmds| => ExecuteCommand(shell, cmds[i]))
  }

  /** The value stored for a descriptor that yielded `res`. */
  function SettleResult(res: CommandResult, config: CommandConfig, strategy: ErrorStrategy): CommandResult
  {
    if res.success then res else ApplyErrorStrategy(res, config, strategy)
  }

  /** The value stored for one descriptor: its result if it succeeded, the
      error strategy's rewrite of it if it failed. */
  function Settle(shell: Shell, config: CommandConfig, strategy: ErrorStrategy): (r: CommandResult)
    ensures ExecuteCommand(shell, config).success ==> r == ExecuteCommand(shell, config)
    ensures !ExecuteCommand(shell, config).success ==>
      r == ApplyErrorStrategy(ExecuteCommand(shell, config), config, strategy)
    ensures r.alias == config.alias
  {
    SettleResult(ExecuteCommand(shell, config), config, strategy)
  }

  /** Each descriptor's alias paired with the settled value of what it
      yielded, in descriptor order. */
  function SettledPairs(cmds: seq<CommandConfig>, rs: seq<CommandResult>, strategy: ErrorStrategy): (ps: ResultMap)
    requires |rs| == |cmds|
    ensures |ps| == |cmds|
    ensures forall i :: 0 <= i < |cmds| ==> ps[i] == (cmds[i].alias, SettleResult(rs[i], cmds[i], strategy))
  {
    seq(|cmds|, i requires 0 <= i < |cmds| => (cmds[i].alias, SettleResult(rs[i], cmds[i], strategy)))
  }

  /** Every descriptor paired with its alias and settled result, in
      descriptor order: what `Promise.allSettled` hands back in the parallel
      branch. */
  function SettleAll(cmds: seq<CommandConfig>, shell: Shell, strategy: ErrorStrategy): (ps: ResultMap)
    ensures |ps| == |cmds|
    ensures forall i :: 0 <= i < |cmds| ==> ps[i] == (cmds[i].alias, Settle(shell, cmds[i], strategy))
  {
    SettledPairs(cmds, RunAll(cmds, shell), strategy)
  }

  /** The parallel branch: every descriptor settled, then set into the map in
      descriptor order (whatever order the commands completed in). */
  function Collect(cmds: seq<CommandConfig>, shell: Shell, strategy: ErrorStrategy): (m: ResultMap)
    ensures |m| <= |cmds|
  {
    OrderedMap.FromPairs(SettleAll(cmds, shell, strategy))
  }

  /** When two descriptors share an alias the later one's result is the one
      stored, as a second `set` on a `Map` overwrites the first. */
  lemma CollectLastWins(cmds: seq<CommandConfig>, shell: Shell, strategy: ErrorStrategy)
    requires |cmds| > 0
    ensures OrderedMap.Get(Collect(cmds, shell, strategy), cmds[|cmds| - 1].alias)
         == Some(Settle(shell, cmds[|cmds| - 1], strategy))
  {
    OrderedMap.LastPairWins(SettleAll(cmds, shell, strategy));
  }

  /** With distinct aliases, as the parser guarantees, the map holds exactly
      one entry per descriptor, in descriptor order. */
  lemma CollectOnePerDescriptor(cmds: seq<CommandConfig>, shell: Shell, strategy: ErrorStrategy)
    requires Parser.DistinctAliases(cmds)
    ensures var m := Collect(cmds, shell, strategy);
      && |m| == |cmds|
      && forall i :: 0 <= i < |cmds| ==> m[i] == (cmds[i].alias, Settle(shell, cmds[i], strategy))
  {
    OrderedMap.FromDistinctPairs(SettleAll(cmds, shell, strategy));
  }

  /** Whatever the aliases, the map never holds a key twice. */
  lemma CollectKeysUnique(cmds: seq<CommandConfig>, shell: Shell, strategy: ErrorStrategy)
    ensures OrderedMap.UniqueKeys(Collect(cmds, shell, strategy))
  {
    OrderedMap.FromPairsKeysUnique(SettleAll(cmds, shell, strategy));
  }

  /** Whatever the aliases, the map's keys are exactly the descriptors'
      aliases. */
  lemma CollectKeySet(cmds: seq<CommandConfig>, shell: Shell, strategy: ErrorStrategy)
    ensures forall a :: a in OrderedMap.Keys(Collect(cmds, shell, strategy)) <==> a in Parser.Aliases(cmds)
  {
    var ps := SettleAll(cmds, shell, strategy);
    OrderedMap.FromPairsKeySet(ps);
    SettleAllKeys(cmds, shell, strategy);
    KeysAreAliases(cmds, OrderedMap.Keys(ps));
  }

  lemma SettleAllKeys(cmds: seq<CommandConfig>, shell: Shell, strategy: ErrorStrategy)
    ensures var ks := OrderedMap.Keys(SettleAll(cmds, shell, strategy));
      |ks| == |cmds| && forall i :: 0 <= i < |cmds| ==> ks[i] == cmds[i].alias
  {
  }

  /** A sequence listing the descriptors' aliases in order holds exactly
      their alias set. */
  lemma KeysAreAliases(cmds: seq<CommandConfig>, ks: seq<string>)
    requires |ks| == |cmds| && forall i :: 0 <= i < |cmds| ==> ks[i] == cmds[i].alias
    ensures forall a :: a in ks <==> a in Parser.Aliases(cmds)
  {
    forall a
      ensures a in ks <==> a in Parser.Aliases(cmds)
    {
      if a in Parser.Aliases(cmds) {
        var i :| 0 <= i < |cmds| && cmds[i].alias == a;
        assert ks[i] == a;
      }
    }
  }

  /** The commands of the unsuccessful results, in map order. */
  function FailedCommands(results: ResultMap): (cs: seq<string>)
    ensures |cs| == 0 <==> forall i :: 0 <= i < |results| ==> results[i].1.success
  {
    if |results| == 0 then []
    else
      var rest := FailedCommands(results[1..]);
      assert forall i :: 1 <= i < |results| ==> results[1..][i - 1] == results[i];
      if results[0].1.success then rest else [results[0].1.command] + rest
  }

  /** The final check under 'strict': any unsuccessful stored result fails the
      whole call with one error naming every failed command. */
  function StrictCheck(results: ResultMap): (r: Check<Error>)
    ensures r.Pass? <==> forall i :: 0 <= i < |results| ==> results[i].1.success
    ensures r.Fail? ==> r.error == CommandExecutionError(Join(FailedCommands(results), ", "), None)
  {
    var failed := FailedCommands(results);
    if |failed| > 0 then Fail(CommandExecutionError(Join(failed, ", "), None)) else Pass
  }

  /** What the serial branch throws for a failed result: its own error, or a
      plain error naming the command when it carries none. */
  function Thrown(res: CommandResult, config: CommandConfig): Error
  {
    if res.error.Some? then res.error.value else CommandFailed(config.cmd)
  }

  /** The serial branch: one descriptor at a time, in order. Under 'strict'
      the first failure throws that command's own error and no later
      descriptor is handed to the shell. */
  function Serial(cmds: seq<CommandConfig>, shell: Shell, strategy: ErrorStrategy): (x: Execution)
    ensures x.launched <= |cmds|
    ensures x.outcome.Ok? ==> x.launched == |cmds|
    ensures x.outcome.Err? ==>
      && strategy == Strict && 0 < x.launched
      && !ExecuteCommand(shell, cmds[x.launched - 1]).success
      && x.outcome.error == ExecuteCommand(shell, cmds[x.launched - 1]).error.value
  {
    var rs := RunAll(cmds, shell);
    var x := SerialRun(cmds, rs, |cmds|, strategy);
    assert x.outcome.Err? ==> rs[x.launched - 1] == ExecuteCommand(shell, cmds[x.launched - 1]);
    x
  }

  /** The serial loop after its first `k` iterations, descriptor `i` having
      yielded `rs[i]`. */
  function SerialRun(cmds: seq<CommandConfig>, rs: seq<CommandResult>, k: nat, strategy: ErrorStrategy): (x: Execution)
    requires |rs| == |cmds| && k <= |cmds|
    ensures x.launched <= k
    ensures x.outcome.Ok? ==> x.launched == k
    ensures x.outcome.Err? ==>
      && strategy == Strict && 0 < x.launched
      && !rs[x.launched - 1].success
      && x.outcome.error == Thrown(rs[x.launched - 1], cmds[x.launched - 1])
  {
    if k == 0 then Execution(Ok([]), 0)
    else
      var before := SerialRun(cmds, rs, k - 1, strategy);
      match before.outcome
      case Err(_) => before
      case Ok(results) => SerialNext(results, cmds[k - 1], rs[k - 1], k - 1, strategy)
  }

  /** One serial step after `n` descriptors stored `results`: descriptor `c`
      yielded `res`; store its settled value or, under 'strict', throw. */
  function SerialNext(results: ResultMap, c: CommandConfig, res: CommandResult, n: nat, strategy: ErrorStrategy): (x: Execution)
    ensures x.launched == n + 1
    ensures x.outcome.Err? <==> strategy == Strict && !res.success
    ensures x.outcome.Err? ==> x.outcome.error == Thrown(res, c)
    ensures x.outcome.Ok? ==> x.outcome.value == OrderedMap.Set(results, c.alias, SettleResult(res, c, strategy))
  {
    if !res.success then
      if strategy == Strict then Execution(Err(Thrown(res, c)), n + 1)
      else Execution(Ok(OrderedMap.Set(results, c.alias, ApplyErrorStrategy(res, c, strategy))), n + 1)
    else
      Execution(Ok(OrderedMap.Set(results, c.alias, res)), n + 1)
  }

  /** `execMultipleCommands`, with errorStrategy defaulting to 'skip' and
      parallel to true. */
  function ExecMultipleCommands(cmds: seq<CommandConfig>, shell: Shell, options: ExecutionOptions): (x: Execution)
    ensures x.launched <= |cmds|
    ensures options.parallel.GetOr(DEFAULT_PARALLEL) ==> x.launched == |cmds|
    ensures x.outcome.Ok? ==> x.launched == |cmds|
    ensures x.outcome.Err? ==> options.errorStrategy == Some(Strict)
  {
    var strategy := options.errorStrategy.GetOr(DEFAULT_STRATEGY);
    assert strategy == Strict ==> options.errorStrategy == Some(Strict);
    var run :=
      if options.parallel.GetOr(DEFAULT_PARALLEL) then Execution(Ok(Collect(cmds, shell, strategy)), |cmds|)
      else Serial(cmds, shell, strategy);
    if strategy == Strict && run.outcome.Ok? then
      match StrictCheck(run.outcome.value)
      case Fail(e) => Execution(Err(e), run.launched)
      case Pass => run
    else run
  }

  /** Running the descriptors one at a time stores exactly what the
      parallel branch stores whenever it gets to the end, which outside
      'strict' it always does. */
  lemma SerialMatchesParallel(cmds: seq<CommandConfig>, shell: Shell, strategy: ErrorStrategy)
    ensures strategy != Strict ==> Serial(cmds, shell, strategy).outcome.Ok?
    ensures Serial(cmds, shell, strategy).outcome.Ok? ==>
      Serial(cmds, shell, strategy) == Execution(Ok(Collect(cmds, shell, strategy)), |cmds|)
  {
    SerialRunMatchesParallel(cmds, RunAll(cmds, shell), |cmds|, strategy);
  }

  /** After `k` iterations the serial map is the parallel map of the first
      `k` descriptors. */
  lemma {:induction false} SerialRunMatchesParallel(cmds: seq<CommandConfig>, rs: seq<CommandResult>, k: nat, strategy: ErrorStrategy)
    requires |rs| == |cmds| && k <= |cmds|
    ensures strategy != Strict ==> SerialRun(cmds, rs, k, strategy).outcome.Ok?
    ensures SerialRun(cmds, rs, k, strategy).outcome.Ok? ==>
      SerialRun(cmds, rs, k, strategy)
        == Execution(Ok(OrderedMap.FromFirstPairs(SettledPairs(cmds, rs, strategy), k)), k)
  {
    if k > 0 {
      SerialRunMatchesParallel(cmds, rs, k - 1, strategy);
      if SerialRun(cmds, rs, k - 1, strategy).outcome.Ok? {
        SerialRunStep(cmds, rs, k, strategy);
      }
    }
  }

  /** One more iteration after `k - 1` that stored the parallel prefix map
      is one more `set` of the settled pair. */
  lemma SerialRunStep(cmds: seq<CommandConfig>, rs: seq<CommandResult>, k: nat, strategy: ErrorStrategy)
    requires |rs| == |cmds| && 0 < k <= |cmds|
    requires SerialRun(cmds, rs, k - 1, strategy)
      == Execution(Ok(OrderedMap.FromFirstPairs(SettledPairs(cmds, rs, strategy), k - 1)), k - 1)
    ensures strategy != Strict ==> SerialRun(cmds, rs, k, strategy).outcome.Ok?
    ensures SerialRun(cmds, rs, k, strategy).outcome.Ok? ==>
      SerialRun(cmds, rs, k, strategy)
        == Execution(Ok(OrderedMap.FromFirstPairs(SettledPairs(cmds, rs, strategy), k)), k)
  {
    var ps := SettledPairs(cmds, rs, strategy);
    var m := OrderedMap.FromFirstPairs(ps, k - 1);
    assert SerialRun(cmds, rs, k, strategy) == SerialNext(m, cmds[k - 1], rs[k - 1], k - 1, strategy);
    assert ps[k - 1] == (cmds[k - 1].alias, SettleResult(rs[k - 1], cmds[k - 1], strategy));
    OrderedMap.FromFirstPairsStep(ps, k);
  }

  /** The first `k` descriptors all succeed when handed to the shell. */
  ghost predicate FirstSucceed(cmds: seq<CommandConfig>, k: nat, shell: Shell)
    requires k <= |cmds|
  {
    forall j :: 0 <= j < k ==> ExecuteCommand(shell, cmds[j]).success
  }

  /** Every descriptor succeeds when handed to the shell. */
  ghost predicate AllSucceed(cmds: seq<CommandConfig>, shell: Shell) {
    FirstSucceed(cmds, |cmds|, shell)
  }

  /** The first `k` of the yielded results are successes. */
  ghost predicate Succeeded(rs: seq<CommandResult>, k: nat)
    requires k <= |rs|
  {
    forall j :: 0 <= j < k ==> rs[j].success
  }

  /** Under 'strict' the serial branch fails exactly when some descriptor
      fails, and then it stops right after the first failing one. */
  lemma SerialStrictStopsAtFirstFailure(cmds: seq<CommandConfig>, shell: Shell)
    ensures var x := Serial(cmds, shell, Strict);
      && (x.outcome.Err? <==> !AllSucceed(cmds, shell))
      && (x.outcome.Err? ==> FirstSucceed(cmds, x.launched - 1, shell))
  {
    var rs := RunAll(cmds, shell);
    SerialRunStops(cmds, rs, |cmds|);
    forall k | 0 <= k <= |cmds|
      ensures Succeeded(rs, k) <==> FirstSucceed(cmds, k, shell)
    {
    }
  }

  /** The property above, for `k` iterations over the results `rs`. */
  ghost predicate StopsAtFirstFailure(cmds: seq<CommandConfig>, rs: seq<CommandResult>, k: nat)
    requires |rs| == |cmds| && k <= |cmds|
  {
    var x := SerialRun(cmds, rs, k, Strict);
    && (x.outcome.Err? <==> !Succeeded(rs, k))
    && (x.outcome.Err? ==> Succeeded(rs, x.launched - 1))
  }

  lemma {:induction false} SerialRunStops(cmds: seq<CommandConfig>, rs: seq<CommandResult>, k: nat)
    requires |rs| == |cmds| && k <= |cmds|
    ensures StopsAtFirstFailure(cmds, rs, k)
  {
    if k > 0 {
      SerialRunStops(cmds, rs, k - 1);
      if SerialRun(cmds, rs, k - 1, Strict).outcome.Ok? {
        StrictPassedBefore(cmds, rs, k);
      } else {
        StrictFailedBefore(cmds, rs, k);
      }
    }
  }

  /** A failure in the first `k - 1` iterations is the failure after `k`. */
  lemma StrictFailedBefore(cmds: seq<CommandConfig>, rs: seq<CommandResult>, k: nat)
    requires |rs| == |cmds| && 0 < k <= |cmds|
    requires !SerialRun(cmds, rs, k - 1, Strict).outcome.Ok?
    requires StopsAtFirstFailure(cmds, rs, k - 1)
    ensures StopsAtFirstFailure(cmds, rs, k)
  {
  }

  /** After `k - 1` iterations that succeeded, descriptor `k - 1` decides. */
  lemma StrictPassedBefore(cmds: seq<CommandConfig>, rs: seq<CommandResult>, k: nat)
    requires |rs| == |cmds| && 0 < k <= |cmds|
    requires SerialRun(cmds, rs, k - 1, Strict).outcome.Ok?
    requires StopsAtFirstFailure(cmds, rs, k - 1)
    ensures StopsAtFirstFailure(cmds, rs, k)
  {
  }

  /** No descriptors: an empty map, and the shell is never called. */
  lemma ExecNothing(shell: Shell, options: ExecutionOptions)
    ensures ExecMultipleCommands([], shell, options) == Execution(Ok([]), 0)
  {
    assert Collect([], shell, options.errorStrategy.GetOr(DEFAULT_STRATEGY)) == [];
  }

  /** Outside 'strict' the call never fails, every descriptor runs, and
      serial and parallel execution store the same map. */
  lemma ExecNonStrictIgnoresParallel(cmds: seq<CommandConfig>, shell: Shell, strategy: Option<ErrorStrategy>, parallel: Option<bool>)
    requires strategy != Some(Strict)
    ensures ExecMultipleCommands(cmds, shell, ExecutionOptions(strategy, parallel))
         == Execution(Ok(Collect(cmds, shell, strategy.GetOr(DEFAULT_STRATEGY))), |cmds|)
  {
    SerialMatchesParallel(cmds, shell, strategy.GetOr(DEFAULT_STRATEGY));
  }

  /** Under 'strict', a failed descriptor keeps its unsuccessful result. */
  lemma SettleStrict(shell: Shell, config: CommandConfig)
    ensures Settle(shell, config, Strict) == ExecuteCommand(shell, config)
  {
  }

  /** Parallel 'strict': every descriptor runs; the call fails exactly when
      some descriptor fails, with one error naming the failed commands. */
  lemma {:induction false} ExecParallelStrict(cmds: seq<CommandConfig>, shell: Shell, parallel: Option<bool>)
    requires Parser.DistinctAliases(cmds)
    requires parallel.GetOr(DEFAULT_PARALLEL)
    ensures var x := ExecMultipleCommands(cmds, shell, ExecutionOptions(Some(Strict), parallel));
      && x.launched == |cmds|
      && (x.outcome.Err? <==> !AllSucceed(cmds, shell))
      && (x.outcome.Err? ==>
            x.outcome.error == CommandExecutionError(Join(FailedCommands(Collect(cmds, shell, Strict)), ", "), None))
      && (x.outcome.Ok? ==> x.outcome.value == Collect(cmds, shell, Strict))
  {
    var m := Collect(cmds, shell, Strict);
    CollectOnePerDescriptor(cmds, shell, Strict);
    forall i | 0 <= i < |cmds|
      ensures m[i].1.success == ExecuteCommand(shell, cmds[i]).success
    {
      SettleStrict(shell, cmds[i]);
    }
  }

  /** Serial 'strict': the call fails exactly when some descriptor fails; it
      then throws that descriptor's own error, not the aggregate one, and
      no descriptor after the first failing one is run. */
  lemma ExecSerialStrict(cmds: seq<CommandConfig>, shell: Shell)
    requires Parser.DistinctAliases(cmds)
    ensures var x := ExecMultipleCommands(cmds, shell, ExecutionOptions(Some(Strict), Some(false)));
      && (x.outcome.Err? <==> !AllSucceed(cmds, shell))
      && (x.outcome.Err? ==>
            && FirstSucceed(cmds, x.launched - 1, shell)
            && !ExecuteCommand(shell, cmds[x.launched - 1]).success
            && x.outcome.error == ExecuteCommand(shell, cmds[x.launched - 1]).error.value)
  {
    SerialStrictStopsAtFirstFailure(cmds, shell);
    SerialStrictIsSerial(cmds, shell);
  }

  /** Serial 'strict' settles to what the serial loop settles to: the
      aggregate check never fires after it. */
  lemma SerialStrictIsSerial(cmds: seq<CommandConfig>, shell: Shell)
    requires Parser.DistinctAliases(cmds)
    ensures ExecMultipleCommands(cmds, shell, ExecutionOptions(Some(Strict), Some(false))) == Serial(cmds, shell, Strict)
  {
    if Serial(cmds, shell, Strict).outcome.Ok? {
      SerialStrictStopsAtFirstFailure(cmds, shell);
      SerialStrictPasses(cmds, shell);
    }
  }

  /** A serial 'strict' run that got to the end stored only successes, so
      the aggregate check passes. */
  lemma SerialStrictPasses(cmds: seq<CommandConfig>, shell: Shell)
    requires Parser.DistinctAliases(cmds)
    requires Serial(cmds, shell, Strict).outcome.Ok? && AllSucceed(cmds, shell)
    ensures StrictCheck(Serial(cmds, shell, Strict).outcome.value).Pass?
  {
    var m := Collect(cmds, shell, Strict);
    SerialMatchesParallel(cmds, shell, Strict);
    CollectOnePerDescriptor(cmds, shell, Strict);
    forall i | 0 <= i < |cmds|
      ensures m[i].1.success
    {
      SettleStrict(shell, cmds[i]);
    }
  }

  /** Whatever the mode, a call that settles successfully hands back the
      map the parallel branch builds. */
  lemma ExecOkIsCollect(cmds: seq<CommandConfig>, shell: Shell, options: ExecutionOptions)
    requires ExecMultipleCommands(cmds, shell, options).outcome.Ok?
    ensures ExecMultipleCommands(cmds, shell, options).outcome.value
         == Collect(cmds, shell, options.errorStrategy.GetOr(DEFAULT_STRATEGY))
  {
    SerialMatchesParallel(cmds, shell, options.errorStrategy.GetOr(DEFAULT_STRATEGY));
  }

  /** A command printing `hello` and a newline yields `hello`. */
  lemma ExecTrimsNewline(shell: Shell, command: string, timeout: Option<int>)
    requires shell(command, timeout.GetOr(DEFAULT_TIMEOUT)).outcome == Stdout("hello\n")
    ensures ExecSingleCommand(shell, command, timeout) == Ok("hello")
  {
    assert !IsJsWhitespace("hello"[0]) && !IsJsWhitespace("hello"[4]);
    TrimsLineFeed("hello");
    assert "hello" + "\n" == "hello\n";
  }
}
