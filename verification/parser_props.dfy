/** Properties of `ConfigurationParser` that relate several of its parts:
    the shapes a successful parse produces and the guarantees the later
    stages rely on. */
module ParserProperties {
  import opened Results
  import opened Json
  import opened Strings
  import opened Types
  import opened Parser
  import Template

  /** A parsed entry is a real value, and its alias is the one alias
      collection reads from it. */
  lemma ParsedEntryAlias(e: Value, i: nat, c: CommandConfig)
    requires ParseEntry(e, i) == Ok(c)
    ensures !e.Null? && !e.Missing? && EntryAlias(e, i) == Some(c.alias)
  {
  }

  /** Once every entry parses, collecting the available aliases cannot
      throw and yields exactly the descriptors' aliases. */
  lemma AvailableAliasesOfParsed(entries: seq<Value>, cmds: seq<CommandConfig>)
    requires ParseEntries(entries) == Ok(cmds)
    ensures AvailableAliases(entries) == Ok(Aliases(cmds))
  {
    assert |cmds| == |entries|;
    forall i | 0 <= i < |entries|
      ensures !entries[i].Null? && !entries[i].Missing? && EntryAlias(entries[i], i) == Some(cmds[i].alias)
    {
      ParsedEntryAlias(entries[i], i, cmds[i]);
    }
    assert AvailableAliases(entries).Ok?;
    var available := AvailableAliases(entries).value;
    forall a
      ensures a in available <==> a in Aliases(cmds)
    {
      if a in available {
        var i :| 0 <= i < |entries| && EntryAlias(entries[i], i) == Some(a);
        assert cmds[i].alias == a;
      }
      if a in Aliases(cmds) {
        var i :| 0 <= i < |cmds| && cmds[i].alias == a;
        assert EntryAlias(entries[i], i) == Some(a);
      }
    }
    assert available == Aliases(cmds);
  }

  /** Every placeholder of a parsed object specification's template names
      one of its descriptors. */
  lemma FormatPlaceholdersAreAliases(spec: Value)
    requires ParseCommandConfig(spec).Ok?
    requires var plan := ParseCommandConfig(spec).value;
      !plan.isSingle && plan.options.format.Some? && plan.options.format.value != ""
    ensures var plan := ParseCommandConfig(spec).value;
      forall p :: p in Template.Placeholders(plan.options.format.value) ==> p in Aliases(plan.commands)
  {
    var plan := ParseCommandConfig(spec).value;
    var items := Field(spec, "commands").items;
    MultiPlan(spec);
    AvailableAliasesOfParsed(items, plan.commands);
    ValidatedFormat(spec);
  }

  /** What a successful multi-command parse went through. */
  lemma MultiPlan(spec: Value)
    requires ParseCommandConfig(spec).Ok? && !ParseCommandConfig(spec).value.isSingle
    ensures IsObjectType(spec) && Truthy(Field(spec, "commands"))
    ensures ValidateMultiCommandOptions(spec).Pass?
    ensures ParseEntries(Field(spec, "commands").items) == Ok(ParseCommandConfig(spec).value.commands)
    ensures ParseCommandConfig(spec).value.options == ResolveOptions(spec)
  {
  }

  /** A validated non-empty template only names aliases that exist. */
  lemma ValidatedFormat(spec: Value)
    requires ValidateMultiCommandOptions(spec).Pass?
    requires ResolveOptions(spec).format.Some? && ResolveOptions(spec).format.value != ""
    ensures ValidateFormatTemplate(ResolveOptions(spec).format.value, Field(spec, "commands").items).Pass?
  {
  }

  /** A falsy specification (absent, '', 0, false, null) is the empty
      single-command plan with the documented defaults. */
  lemma FalsySpecIsEmptyPlan(spec: Value)
    requires !Truthy(spec)
    ensures ParseCommandConfig(spec) == Ok(ParsedCommandConfig(true, [], DEFAULT_OPTIONS))
    ensures DEFAULT_OPTIONS.separator == "-" && DEFAULT_OPTIONS.errorStrategy == Skip && DEFAULT_OPTIONS.parallel
  {
  }

  /** A non-empty string is one command aliased "0" with the default
      timeout; the options keep the string as their only command. */
  lemma StringSpecIsOneCommand(cmd: string)
    requires cmd != ""
    ensures ParseCommandConfig(Str(cmd)) == Ok(ParsedCommandConfig(
      true, [CommandConfig("0", cmd, None, Some(10000))], DEFAULT_OPTIONS.(commands := [Str(cmd)])))
  {
  }

  /** Anything else that is not an object with truthy `commands` is
      rejected without a field. */
  lemma OtherSpecsRejected(spec: Value)
    requires Truthy(spec) && !spec.Str?
    requires !(IsObjectType(spec) && Truthy(Field(spec, "commands")))
    ensures ParseCommandConfig(spec) == Err(ConfigValidationError(None))
  {
  }

  /** The options are checked before any entry is looked at: an option
      error wins whatever the entries hold. */
  lemma OptionsCheckedFirst(spec: Value)
    requires IsObjectType(spec) && Truthy(Field(spec, "commands"))
    requires ValidateMultiCommandOptions(spec).Fail?
    ensures ParseCommandConfig(spec) == Err(ValidateMultiCommandOptions(spec).error)
  {
  }

  /** The plan of an object specification: one descriptor per entry, in
      entry order, and the options resolved from the specification. */
  lemma ObjectSpecPlan(spec: Value)
    requires IsObjectType(spec) && Truthy(Field(spec, "commands"))
    requires ParseCommandConfig(spec).Ok?
    ensures var plan := ParseCommandConfig(spec).value;
      var items := Field(spec, "commands").items;
      && !plan.isSingle
      && |plan.commands| == |items|
      && (forall i :: 0 <= i < |items| ==> ParseEntry(items[i], i) == Ok(plan.commands[i]))
      && plan.options.commands == items
  {
    assert ParseCommands(Field(spec, "commands").items).Ok?;
  }

  /** How the options of an object specification resolve: an empty
      separator counts as absent, a falsy strategy means 'skip', and
      `parallel` is off only when it is literally false. */
  lemma ObjectSpecOptions(spec: Value)
    requires ValidateMultiCommandOptions(spec).Pass?
    ensures var o := ResolveOptions(spec);
      && (Field(spec, "separator").Str? && Field(spec, "separator").s != "" ==> o.separator == Field(spec, "separator").s)
      && (!Truthy(Field(spec, "separator")) ==> o.separator == "-")
      && (Field(spec, "errorStrategy").Str? && Field(spec, "errorStrategy").s != "" ==>
            StrategyName(o.errorStrategy) == Field(spec, "errorStrategy").s)
      && (!Truthy(Field(spec, "errorStrategy")) ==> o.errorStrategy == Skip)
      && (!o.parallel <==> Field(spec, "parallel") == Bool(false))
      && (Field(spec, "format").Str? ==> o.format == Some(Field(spec, "format").s))
      && (!Field(spec, "format").Str? ==> o.format.None?)
  {
    var strategy := Field(spec, "errorStrategy");
    if strategy.Str? && strategy.s != "" {
      StrategyNames(strategy.s);
    }
  }

  /** Bare strings alone never collide: their aliases are their distinct
      decimal indices, so such a list always parses. */
  lemma BareStringsAlwaysParse(entries: seq<Value>)
    requires forall i :: 0 <= i < |entries| ==> entries[i].Str?
    ensures ParseCommands(entries).Ok?
    ensures forall i :: 0 <= i < |entries| ==> ParseCommands(entries).value[i] == CommandConfig(AutoAlias(i), entries[i].s, None, Some(DEFAULT_TIMEOUT))
  {
    var cmds := ParseEntries(entries).value;
    forall i, j | 0 <= i < j < |cmds|
      ensures cmds[i].alias != cmds[j].alias
    {
      if cmds[i].alias == cmds[j].alias {
        assert ParseEntry(entries[i], i) == Ok(cmds[i]) && ParseEntry(entries[j], j) == Ok(cmds[j]);
        NatToStringInjective(i, j);
      }
    }
  }

  /** An object entry with just an alias and a command. */
  function Entry(alias: string, cmd: string): Value
  {
    Obj(map["alias" := Str(alias), "cmd" := Str(cmd)])
  }

  /** A bare string at index 0 takes the alias "0": an object aliased "0"
      after it is a duplicate, one aliased "1" is not. */
  lemma AutoAliasCollision()
    ensures ParseCommands([Str("git branch --show-current"), Entry("0", "git rev-parse --short HEAD")])
      == Err(ConfigValidationError(Some("alias")))
    ensures ParseCommands([Str("git branch --show-current"), Entry("1", "git rev-parse --short HEAD")]).Ok?
  {
    var bare := Str("git branch --show-current");
    var c0 := CommandConfig("0", "git branch --show-current", None, Some(DEFAULT_TIMEOUT));
    assert ParseEntry(bare, 0) == Ok(c0) by {
      assert AutoAlias(0) == "0";
    }
    var sha := "git rev-parse --short HEAD";
    EntryParses("0", sha, 1);
    PairCommands(bare, Entry("0", sha), c0, CommandConfig("0", sha, None, Some(DEFAULT_TIMEOUT)));
    EntryParses("1", sha, 1);
    PairCommands(bare, Entry("1", sha), c0, CommandConfig("1", sha, None, Some(DEFAULT_TIMEOUT)));
  }

  /** An object with a non-empty alias and command and nothing else is a
      descriptor with the default timeout. */
  lemma EntryParses(alias: string, cmd: string, i: nat)
    requires alias != "" && cmd != ""
    ensures ParseEntry(Entry(alias, cmd), i) == Ok(CommandConfig(alias, cmd, None, Some(DEFAULT_TIMEOUT)))
  {
  }

  /** Two entries that parse on their own parse together, in order. */
  lemma PairEntries(e0: Value, e1: Value, c0: CommandConfig, c1: CommandConfig)
    requires ParseEntry(e0, 0) == Ok(c0) && ParseEntry(e1, 1) == Ok(c1)
    ensures ParseEntries([e0, e1]) == Ok([c0, c1])
  {
    assert [e0][..0] == [];
    assert ParseEntries([e0]) == Ok([] + [c0]);
    assert [] + [c0] == [c0];
    assert [e0, e1][..1] == [e0];
    assert ParseEntries([e0, e1]) == Ok([c0] + [c1]);
    assert [c0] + [c1] == [c0, c1];
  }

  /** Two different aliases are distinct aliases. */
  lemma PairDistinct(cmds: seq<CommandConfig>)
    requires |cmds| == 2 && cmds[0].alias != cmds[1].alias
    ensures DistinctAliases(cmds)
  {
    forall i, j | 0 <= i < j < |cmds|
      ensures cmds[i].alias != cmds[j].alias
    {
      assert i == 0 && j == 1;
    }
  }

  /** Two parsed entries: a duplicate when their aliases agree, the pair
      of descriptors otherwise. */
  lemma PairCommands(e0: Value, e1: Value, c0: CommandConfig, c1: CommandConfig)
    requires ParseEntry(e0, 0) == Ok(c0) && ParseEntry(e1, 1) == Ok(c1)
    ensures c0.alias == c1.alias ==> ParseCommands([e0, e1]) == Err(ConfigValidationError(Some("alias")))
    ensures c0.alias != c1.alias ==> ParseCommands([e0, e1]) == Ok([c0, c1])
  {
    PairEntries(e0, e1, c0, c1);
    if c0.alias != c1.alias {
      PairDistinct([c0, c1]);
    } else {
      assert !DistinctAliases([c0, c1]);
    }
  }

  /** A timeout must be a positive number: 0 and -1 are both rejected on
      the `timeout` field. */
  lemma TimeoutMustBePositive(t: int)
    ensures var e := Obj(map["alias" := Str("test"), "cmd" := Str("git status"), "timeout" := Num(t)]);
      && (t > 0 ==> ParseEntry(e, 0) == Ok(CommandConfig("test", "git status", None, Some(t))))
      && (t <= 0 ==> ParseEntry(e, 0) == Err(ConfigValidationError(Some("timeout"))))
  {
  }

  /** A command of spaces only is accepted as it is. */
  lemma WhitespaceCommandAccepted()
    ensures ParseEntry(Entry("whitespace", "   "), 0) == Ok(CommandConfig("whitespace", "   ", None, Some(DEFAULT_TIMEOUT)))
  {
  }

  /** An empty `cmd` is falsy, so the entry never reaches the per-field
      checks and fails as an invalid entry, with no field named. */
  lemma EmptyCommandRejected()
    ensures ParseEntry(Entry("empty", ""), 0) == Err(ConfigValidationError(None))
  {
  }

  /** A `null` entry passes the option checks and then throws reading its
      properties. */
  lemma NullEntryThrows()
    ensures ParseCommandConfig(Obj(map["commands" := Arr([Null])])) == Err(TypeError)
  {
    var spec := Obj(map["commands" := Arr([Null])]);
    assert ValidateMultiCommandOptions(spec) == Pass;
    assert [Null][..0] == [];
  }
}

