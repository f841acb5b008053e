/** `ConfigurationParser` (src/plugins/core/parser.ts): turns the loosely typed
    `command` option into a parsed configuration: whether it is the
    single-command form, the ordered command descriptors, and the resolved
    options. Every thrown error is an `Err`. */
module Parser {
  import opened Results
  import opened Json
  import opened Strings
  import opened Types
  import Template

  datatype ParsedCommandConfig = ParsedCommandConfig(
    isSingle: bool,
    commands: seq<CommandConfig>,
    options: MultiCommandOptions)

  /** The alias of a bare string at position `i`: `i.toString()`. */
  function AutoAlias(i: nat): string
  {
    NatToString(i)
  }

  /** A value that passes `!v || typeof v !== 'string'` as valid. */
  predicate NonEmptyString(v: Value) {
    v.Str? && v.s != ""
  }

  /** A value allowed where the program checks `v !== undefined && typeof v !== t`. */
  predicate AbsentOrString(v: Value) {
    v.Missing? || v.Str?
  }

  predicate IsStrategyName(v: Value) {
    v.Str? && ParseStrategy(v.s).Some?
  }

  predicate DistinctAliases(cmds: seq<CommandConfig>) {
    forall i, j :: 0 <= i < j < |cmds| ==> cmds[i].alias != cmds[j].alias
  }

  function Aliases(cmds: seq<CommandConfig>): (s: set<string>)
    ensures forall i :: 0 <= i < |cmds| ==> cmds[i].alias in s
    ensures forall a :: a in s ==> exists i :: 0 <= i < |cmds| && cmds[i].alias == a
  {
    set i | 0 <= i < |cmds| :: cmds[i].alias
  }

  function ConfigError(field: string): Error {
    ConfigValidationError(Some(field))
  }

  /** `validateMultiCommandOptions`: the option checks, each failing with its
      own field, in the program's order; the template check comes last. */
  function ValidateMultiCommandOptions(options: Value): (r: Check<Error>)
    ensures r == Fail(ConfigError("commands")) <==>
      !Field(options, "commands").Arr? || |Field(options, "commands").items| == 0
    ensures r == Fail(ConfigError("errorStrategy")) <==>
      && Field(options, "commands").Arr? && |Field(options, "commands").items| > 0
      && Truthy(Field(options, "errorStrategy")) && !IsStrategyName(Field(options, "errorStrategy"))
    ensures r == Fail(ConfigError("separator")) <==>
      && Field(options, "commands").Arr? && |Field(options, "commands").items| > 0
      && (Truthy(Field(options, "errorStrategy")) ==> IsStrategyName(Field(options, "errorStrategy")))
      && !AbsentOrString(Field(options, "separator"))
    ensures r == Fail(ConfigError("format")) <==>
      && Field(options, "commands").Arr? && |Field(options, "commands").items| > 0
      && (Truthy(Field(options, "errorStrategy")) ==> IsStrategyName(Field(options, "errorStrategy")))
      && AbsentOrString(Field(options, "separator"))
      && (|| !AbsentOrString(Field(options, "format"))
          || (&& (Field(options, "parallel").Missing? || Field(options, "parallel").Bool?)
              && Field(options, "format").Str? && Field(options, "format").s != ""
              && ValidateFormatTemplate(Field(options, "format").s, Field(options, "commands").items) == Fail(ConfigError("format"))))
    ensures r == Fail(ConfigError("parallel")) <==>
      && Field(options, "commands").Arr? && |Field(options, "commands").items| > 0
      && (Truthy(Field(options, "errorStrategy")) ==> IsStrategyName(Field(options, "errorStrategy")))
      && AbsentOrString(Field(options, "separator"))
      && AbsentOrString(Field(options, "format"))
      && !(Field(options, "parallel").Missing? || Field(options, "parallel").Bool?)
    ensures r == Fail(TypeError) <==>
      && Field(options, "commands").Arr? && |Field(options, "commands").items| > 0
      && (Truthy(Field(options, "errorStrategy")) ==> IsStrategyName(Field(options, "errorStrategy")))
      && AbsentOrString(Field(options, "separator"))
      && (Field(options, "parallel").Missing? || Field(options, "parallel").Bool?)
      && Field(options, "format").Str? && Field(options, "format").s != ""
      && AvailableAliases(Field(options, "commands").items).Err?
    ensures r.Pass? <==>
      && Field(options, "commands").Arr? && |Field(options, "commands").items| > 0
      && (Truthy(Field(options, "errorStrategy")) ==> IsStrategyName(Field(options, "errorStrategy")))
      && AbsentOrString(Field(options, "separator"))
      && AbsentOrString(Field(options, "format"))
      && (Field(options, "parallel").Missing? || Field(options, "parallel").Bool?)
      && (Field(options, "format").Str? && Field(options, "format").s != "" ==>
            ValidateFormatTemplate(Field(options, "format").s, Field(options, "commands").items).Pass?)
  {
    var commands := Field(options, "commands");
    var strategy := Field(options, "errorStrategy");
    var separator := Field(options, "separator");
    var format := Field(options, "format");
    var parallel := Field(options, "parallel");
    if !commands.Arr? then Fail(ConfigError("commands"))
    else if |commands.items| == 0 then Fail(ConfigError("commands"))
    else if Truthy(strategy) && !IsStrategyName(strategy) then Fail(ConfigError("errorStrategy"))
    else if !AbsentOrString(separator) then Fail(ConfigError("separator"))
    else if !AbsentOrString(format) then Fail(ConfigError("format"))
    else if !(parallel.Missing? || parallel.Bool?) then Fail(ConfigError("parallel"))
    else if Truthy(format) then ValidateFormatTemplate(format.s, commands.items)
    else Pass
  }

  /** The aliases `validateFormatTemplate` collects: a bare string contributes
      its index, anything else its `alias` property (only a string alias can
      ever match a placeholder). Reading `alias` of `null` or `undefined`
      throws. */
  function AvailableAliases(entries: seq<Value>): (r: Result<set<string>, Error>)
    ensures r.Err? <==> exists i :: 0 <= i < |entries| && (entries[i].Null? || entries[i].Missing?)
    ensures r.Err? ==> r.error == TypeError
    ensures r.Ok? ==> forall a :: a in r.value <==> exists i :: 0 <= i < |entries| && EntryAlias(entries[i], i) == Some(a)
  {
    if |entries| == 0 then Ok({})
    else
      var n := |entries| - 1;
      var last := entries[n];
      assert forall i :: 0 <= i < n ==> entries[..n][i] == entries[i];
      match AvailableAliases(entries[..n])
      case Err(e) => Err(e)
      case Ok(prefix) =>
        if last.Null? || last.Missing? then Err(TypeError)
        else match EntryAlias(last, n)
          case Some(a) => Ok(prefix + {a})
          case None => Ok(prefix)
  }

  /** The string alias an entry at index `i` names, if any. */
  function EntryAlias(e: Value, i: nat): Option<string>
  {
    if e.Str? then Some(AutoAlias(i))
    else if Field(e, "alias").Str? then Some(Field(e, "alias").s)
    else None
  }

  /** `validateFormatTemplate`: every placeholder must be an available alias. */
  function ValidateFormatTemplate(format: string, entries: seq<Value>): (r: Check<Error>)
    ensures r.Pass? <==>
      && AvailableAliases(entries).Ok?
      && forall p :: p in Template.Placeholders(format) ==> p in AvailableAliases(entries).value
    ensures r.Fail? && AvailableAliases(entries).Ok? ==> r.error == ConfigError("format")
  {
    match AvailableAliases(entries)
    case Err(e) => Fail(e)
    case Ok(aliases) =>
      if forall p :: p in Template.Placeholders(format) ==> p in aliases then Pass
      else Fail(ConfigError("format"))
  }

  /** `validateCommandConfig`: the checks on an object entry, in order. A
      whitespace-only `cmd` is accepted; a timeout of zero or less is not. */
  function ValidateCommandConfig(e: Value): (r: Check<Error>)
    ensures r.Pass? <==>
      && NonEmptyString(Field(e, "alias"))
      && NonEmptyString(Field(e, "cmd"))
      && AbsentOrString(Field(e, "fallback"))
      && (Field(e, "timeout").Missing? || (Field(e, "timeout").Num? && Field(e, "timeout").n > 0))
    ensures r == Fail(ConfigError("alias")) <==> !NonEmptyString(Field(e, "alias"))
    ensures r == Fail(ConfigError("cmd")) <==>
      NonEmptyString(Field(e, "alias")) && !NonEmptyString(Field(e, "cmd"))
    ensures r.Fail? ==> r.error.ConfigValidationError? && r.error.field.Some?
  {
    var alias := Field(e, "alias");
    var cmd := Field(e, "cmd");
    var fallback := Field(e, "fallback");
    var timeout := Field(e, "timeout");
    if !NonEmptyString(alias) then Fail(ConfigError("alias"))
    else if !NonEmptyString(cmd) then Fail(ConfigError("cmd"))
    else if !AbsentOrString(fallback) then Fail(ConfigError("fallback"))
    else if !timeout.Missing? && !(timeout.Num? && timeout.n > 0) then Fail(ConfigError("timeout"))
    else Pass
  }

  /** One element of `commands.map((cmd, index) => ...)`. */
  function ParseEntry(e: Value, i: nat): (r: Result<CommandConfig, Error>)
    ensures e.Str? ==> r == Ok(CommandConfig(AutoAlias(i), e.s, None, Some(DEFAULT_TIMEOUT)))
    ensures r.Ok? ==> r.value.timeout.Some? && r.value.timeout.value > 0
    ensures r.Ok? ==> EntryAlias(e, i) == Some(r.value.alias)
    ensures r.Ok? && !e.Str? ==>
      && e.Obj?
      && Field(e, "alias") == Str(r.value.alias) && r.value.alias != ""
      && Field(e, "cmd") == Str(r.value.cmd) && r.value.cmd != ""
      && r.value.fallback == (if Field(e, "fallback").Str? then Some(Field(e, "fallback").s) else None)
      && r.value.timeout == Some(if Field(e, "timeout").Num? then Field(e, "timeout").n else DEFAULT_TIMEOUT)
    ensures e.Null? ==> r == Err(TypeError)
  {
    if e.Str? then Ok(CommandConfig(AutoAlias(i), e.s, None, Some(DEFAULT_TIMEOUT)))
    else if e.Null? then Err(TypeError)
    else if IsObjectType(e) && Truthy(Field(e, "cmd")) then
      :- ValidateCommandConfig(e);
      var fallback := Field(e, "fallback");
      var timeout := Field(e, "timeout");
      Ok(CommandConfig(
        Field(e, "alias").s,
        Field(e, "cmd").s,
        if fallback.Str? then Some(fallback.s) else None,
        Some(if Truthy(timeout) then timeout.n else DEFAULT_TIMEOUT)))
    else Err(ConfigValidationError(None))
  }

  /** The whole `map`: the descriptor list in entry order, or the error of the
      first entry that fails. */
  function ParseEntries(entries: seq<Value>): (r: Result<seq<CommandConfig>, Error>)
    ensures r.Ok? ==> |r.value| == |entries| && forall i :: 0 <= i < |entries| ==> ParseEntry(entries[i], i) == Ok(r.value[i])
    ensures r.Err? ==> exists k :: (0 <= k < |entries| && ParseEntry(entries[k], k) == Err(r.error)
      && forall i :: 0 <= i < k ==> ParseEntry(entries[i], i).Ok?)
  {
    if |entries| == 0 then Ok([])
    else
      var n := |entries| - 1;
      assert forall i :: 0 <= i < n ==> entries[..n][i] == entries[i];
      match ParseEntries(entries[..n])
      case Err(e) => Err(e)
      case Ok(prefix) =>
        match ParseEntry(entries[n], n)
        case Err(e) => Err(e)
        case Ok(c) => Ok(prefix + [c])
  }

  /** The loop of `checkDuplicateAliases`, with the aliases seen so far. */
  function DuplicateScan(cmds: seq<CommandConfig>, seen: set<string>): (r: Check<Error>)
    ensures r.Fail? ==> r.error == ConfigError("alias")
    ensures r.Pass? <==> DistinctAliases(cmds) && forall i :: 0 <= i < |cmds| ==> cmds[i].alias !in seen
  {
    if |cmds| == 0 then Pass
    else if cmds[0].alias in seen then Fail(ConfigError("alias"))
    else
      var r := DuplicateScan(cmds[1..], seen + {cmds[0].alias});
      assert forall i :: 1 <= i < |cmds| ==> cmds[1..][i - 1] == cmds[i];
      r
  }

  /** `checkDuplicateAliases`: passes exactly when the aliases are pairwise distinct. */
  function CheckDuplicateAliases(cmds: seq<CommandConfig>): (r: Check<Error>)
    ensures r.Pass? <==> DistinctAliases(cmds)
    ensures r.Fail? ==> r.error == ConfigError("alias")
  {
    DuplicateScan(cmds, {})
  }

  /** `parseCommands`: every entry, then the duplicate check. */
  function ParseCommands(entries: seq<Value>): (r: Result<seq<CommandConfig>, Error>)
    ensures r.Ok? ==> ParseEntries(entries) == Ok(r.value) && DistinctAliases(r.value)
    ensures ParseEntries(entries).Ok? && DistinctAliases(ParseEntries(entries).value) ==> r.Ok?
    ensures r.Err? ==>
      || (ParseEntries(entries).Err? && r.error == ParseEntries(entries).error)
      || (ParseEntries(entries).Ok? && r.error == ConfigError("alias"))
  {
    var cmds :- ParseEntries(entries);
    :- CheckDuplicateAliases(cmds);
    Ok(cmds)
  }

  /** The options of an object specification once validated. */
  function ResolveOptions(spec: Value): MultiCommandOptions
    requires ValidateMultiCommandOptions(spec).Pass?
  {
    var format := Field(spec, "format");
    var separator := Field(spec, "separator");
    var strategy := Field(spec, "errorStrategy");
    MultiCommandOptions(
      Field(spec, "commands").items,
      if format.Str? then Some(format.s) else None,
      if Truthy(separator) then separator.s else DEFAULT_SEPARATOR,
      if Truthy(strategy) && IsStrategyName(strategy) then ParseStrategy(strategy.s).value else DEFAULT_STRATEGY,
      Field(spec, "parallel") != Bool(false))
  }

  /** `parseCommandConfig`. A falsy specification is the empty single-command
      plan; a string is one command aliased "0"; an object with a truthy
      `commands` property is validated and parsed; anything else is an error. */
  function ParseCommandConfig(command: Value): (r: Result<ParsedCommandConfig, Error>)
    ensures r.Ok? ==> DistinctAliases(r.value.commands)
    ensures r.Ok? ==> forall c :: c in r.value.commands ==> c.timeout.Some? && c.timeout.value > 0
    ensures r.Ok? && r.value.isSingle ==> |r.value.commands| <= 1 && r.value.options == DEFAULT_OPTIONS.(commands := r.value.options.commands)
    ensures r.Ok? && !r.value.isSingle ==> 0 < |r.value.commands| == |r.value.options.commands|
    ensures r.Err? && !IsObjectType(command) ==> r.error == ConfigValidationError(None)
    ensures r.Err? && IsObjectType(command) && Truthy(Field(command, "commands")) ==>
      if ValidateMultiCommandOptions(command).Fail? then r.error == ValidateMultiCommandOptions(command).error
      else ParseCommands(Field(command, "commands").items).Err? && r.error == ParseCommands(Field(command, "commands").items).error
  {
    if !Truthy(command) then
      Ok(ParsedCommandConfig(true, [], DEFAULT_OPTIONS))
    else if command.Str? then
      Ok(ParsedCommandConfig(
        true,
        [CommandConfig("0", command.s, None, Some(DEFAULT_TIMEOUT))],
        DEFAULT_OPTIONS.(commands := [command])))
    else if IsObjectType(command) && Truthy(Field(command, "commands")) then
      :- ValidateMultiCommandOptions(command);
      var cmds :- ParseCommands(Field(command, "commands").items);
      Ok(ParsedCommandConfig(false, cmds, ResolveOptions(command)))
    else
      Err(ConfigValidationError(None))
  }
}
