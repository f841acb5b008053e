# vite-plugin-version-mark: the version-string pipeline in Dafny

This project models how vite-plugin-version-mark works out the version string
it injects into a build. It covers the code in `src/plugins/core` and the
types it shares with the rest of the plugin.

- **Configuration parser** (`ConfigurationParser`, module `Parser`). It turns
  the loosely typed `command` option into a plan. The option may be absent or
  falsy, a string, or an object with a `commands` list. The plan records
  whether the single-command form was used, holds the ordered command
  descriptors, and holds the resolved options. Validation runs in the
  program's fixed order. Bare strings get their index as alias, duplicate
  aliases are rejected, and template placeholders must name aliases. The raw
  option is a tagged JSON-like value (`Json.Value`), so the `typeof`, truthiness
  and property-read tests are explicit.
- **Command executor** (`CommandExecutor`, module `Executor`). The shell is an
  oracle `(command, timeout) -> outcome`. On top of it the model covers the
  trimmed output of `execSingleCommand` and the never-throwing
  `executeCommand`. It also covers the three error strategies of
  `applyErrorStrategy`, the insertion-ordered result map of
  `execMultipleCommands` in parallel and serial mode, the serial early exit
  in strict mode, and the final strict aggregate check.
- **Result formatter** (`ResultFormatter`, module `Formatter`). It substitutes
  results into a `{alias}` template, or joins the non-empty outputs with a
  separator in map insertion order. Placeholders are recognised the way the
  regular expression `/\{([^}]+)\}/g` does it (module `Template`). A template
  is split once into literal characters and placeholders, and both the
  placeholder list and the substitution are derived from that split.
- **Option resolution.** Two versions exist.
  - `core/index.ts` (module `CoreIndex`) picks the command by the priority
    chain command, then short SHA, then full SHA, then the static version.
  - `core/main.ts` (module `CoreMain`) gates on `ifGitSHA` and picks
    gitCommand, then short SHA, then full SHA.
  - Both derive `printName` and `printInfo` the same way (module `Naming`).
  - Both run the command through an exec that removes only the first line
    feed (module `LegacyExec`).
- **Composition** (modules `Pipeline` and `PipelineExamples`). The stages
  are chained: parse, execute, format. The multi-command scenarios of
  `__tests__/core.test.ts` are proved as properties of that chain.

Supporting modules:
- `Results`: `Option`, `Result`, `Check`.
- `Strings`: JavaScript `trim`, `join`, `toString` of naturals, and `replace`
  of a single character.
- `OrderedMap`: a JavaScript `Map` as a sequence of pairs in insertion order.
  Setting an existing key keeps its position.
- `Types`: the shared records and their documented defaults.

`printName` replaces each non-word character on its own
(`src/plugins/core/index.ts:60`), so `a--b` becomes `A__B_VERSION`
(`Naming.RunsAreNotCollapsed`).

## Model

| member | source | states |
|---|---|---|
| Types.ParseStrategy | src/plugins/core/parser.ts:222-224 | a string is accepted as a strategy only when it is a strategy's own spelling, and then it yields exactly that strategy |
| Types.StrategyNames | src/plugins/types/index.ts:23 | exactly the three spellings 'strict', 'skip' and 'fallback' name a strategy, and each one names a different strategy |
| Types.CommandConfig.EffectiveTimeout | src/plugins/types/index.ts:64-70 | a descriptor without a timeout runs under 10000 ms; a given timeout is used as it is |
| Json.Field | src/plugins/core/parser.ts:65 | reading a property gives the object's own field, or undefined when the field is absent or the value is not an object |
| Strings.Trim | src/plugins/core/executor.ts:45 | the result is a slice of the input with only whitespace around it, and the result neither starts nor ends with whitespace |
| Strings.TrimIsUnique | src/plugins/core/executor.ts:45 | any string that is the input minus surrounding whitespace, and only that, is exactly the trimmed string |
| Strings.TrimIdempotent | src/plugins/core/executor.ts:45 | trimming a trimmed output changes nothing |
| Strings.TrimsLineFeed | __tests__/executor.test.ts:40-53 | a word followed by a line feed trims back to the word |
| Strings.JoinSnoc | src/plugins/core/formatter.ts:120-128 | joining is pushing parts one at a time, with the separator before every part but the first |
| Strings.JoinLength | src/plugins/core/formatter.ts:128 | a join is as long as its parts plus one separator between each pair of neighbours |
| Strings.NatToString | src/plugins/core/parser.ts:95 | an index prints as decimal digits, without a leading zero, ending in its last digit, one digit long exactly when it is below 10 |
| Strings.NatToStringValue | src/plugins/core/parser.ts:95 | the printed digits, read back most significant first, denote the index itself |
| Strings.NatToStringInjective | src/plugins/types/index.ts:102-116 | different indices give different automatic aliases |
| Strings.RemoveFirst | src/plugins/core/index.ts:39 | a string without the character is unchanged; otherwise the first occurrence is deleted and every later one is kept |
| Strings.RemoveFirstDropsOne | src/plugins/core/index.ts:39 | deleting an occurrence leaves a string one shorter that lacks exactly one copy of the character and nothing else |
| Strings.RemoveFirstAt | src/plugins/core/index.ts:39 | the occurrence deleted is the one with no occurrence before it |
| Strings.UpperChar | src/plugins/core/index.ts:60 | ASCII lower-case letters become the matching upper-case letter; every other character is unchanged |
| OrderedMap.Keys | src/plugins/core/formatter.ts:66 | the keys are listed in entry order, one per entry |
| OrderedMap.IndexOf | src/plugins/core/formatter.ts:101 | the position found holds the key and no earlier entry does; no position is found exactly when the key is absent |
| OrderedMap.Get | src/plugins/core/formatter.ts:101 | a lookup gives undefined exactly when the key is absent, and otherwise the value of the first entry for the key |
| OrderedMap.Set | src/plugins/core/executor.ts:91 | setting an existing key keeps the key order; setting a new key appends one entry at the end |
| OrderedMap.SetThenGet | src/plugins/core/executor.ts:91 | after setting a key, reading it gives the value just set |
| OrderedMap.SetLeavesOtherKeys | src/plugins/core/executor.ts:91 | setting one key leaves every other key's value as it was |
| OrderedMap.SetKeepsKeysUnique | src/plugins/core/executor.ts:74 | setting a key never creates a second entry for any key |
| OrderedMap.LastPairWins | src/plugins/core/executor.ts:81-111 | when several pairs share a key, the map holds the value of the last one |
| OrderedMap.FromPairsKeysUnique | src/plugins/core/executor.ts:81-111 | a map built pair by pair has no repeated key |
| OrderedMap.FromPairsKeySet | src/plugins/core/executor.ts:81-111 | the built map's keys are exactly the keys among the pairs |
| OrderedMap.FromDistinctPairs | src/plugins/core/executor.ts:81-111 | pairs with distinct keys come out unchanged: one entry per pair, in pair order |
| Template.ClosingBrace | src/plugins/core/parser.ts:208 | finds the first closing brace at or after a position, or reports that none follows |
| Template.Tokenize | src/plugins/core/parser.ts:207-217 | every placeholder the scan finds has a non-empty name without a closing brace |
| Template.TokenizeHoleFirst | src/plugins/core/parser.ts:207-217 | a template opening with `{name}` (non-empty, no closing brace) yields that placeholder, then the scan of the rest |
| Template.TokenizeTextFirst | src/plugins/core/parser.ts:207-217 | a template opening with any character but `{` yields that character as text, then the scan of the rest |
| Template.TokenizeBraceLiteral | src/plugins/core/parser.ts:207-217 | a `{` with no later `}`, or with `}` right after it, opens no placeholder and stays text |
| Template.PlaceholdersHoleFirst | src/plugins/core/formatter.ts:46-56 | a template opening with `{name}` has that name as its first placeholder, then those of the rest |
| Template.PlaceholdersTextFirst | src/plugins/core/formatter.ts:46-56 | a leading character that opens no placeholder adds none |
| Template.TokenizeRoundTrip | src/plugins/core/parser.ts:207-217 | writing the pieces back out gives the template: the scan loses and invents nothing |
| Template.Placeholders | src/plugins/core/formatter.ts:46-56 | every extracted placeholder name is non-empty and holds no closing brace |
| Template.HolesAreNames | src/plugins/core/parser.ts:208 | the placeholder list of well-formed pieces holds only well-formed names |
| Template.RenderDependsOnlyOnHoles | src/plugins/core/formatter.ts:100-108 | two substitutions that agree on the template's placeholders render the template the same way |
| Template.RenderWithBracesIsUnparse | src/plugins/core/formatter.ts:97-110 | substituting each placeholder by its own braced name writes the pieces back out |
| Template.RenderIdentity | src/plugins/core/formatter.ts:97-110 | substituting each placeholder by its own braced name gives back the template |
| Template.NoPlaceholdersRendersVerbatim | src/plugins/core/formatter.ts:97-110 | a template without placeholders renders as itself whatever the substitution |
| Template.TokenizeDashPair | src/plugins/core/parser.ts:207-217 | '{a}-{b}' splits into placeholder a, a dash and placeholder b |
| Template.PlaceholdersDashPair | src/plugins/core/parser.ts:207-217 | the placeholders of '{a}-{b}' are a then b |
| Parser.Aliases | src/plugins/core/parser.ts:229-238 | the alias set holds each descriptor's alias and nothing else |
| Parser.ValidateMultiCommandOptions | src/plugins/core/parser.ts:124-155 | each check fires exactly when every check before it passed and its own option is wrong, in the order commands, errorStrategy, separator, format, parallel, then the template; the template check reports a missing alias as a 'format' error and a null entry as a type error; passing means every check passed |
| Parser.AvailableAliases | src/plugins/core/parser.ts:185-192 | collecting aliases throws a TypeError exactly when some entry is null or undefined, and otherwise yields exactly the entries' aliases, bare strings counting as their index |
| Parser.ValidateFormatTemplate | src/plugins/core/parser.ts:183-202 | a template passes exactly when every placeholder is an available alias, and otherwise fails on field 'format' |
| Parser.ValidateCommandConfig | src/plugins/core/parser.ts:160-178 | an object entry passes exactly when alias and cmd are non-empty strings, fallback is absent or a string, and timeout is absent or positive; alias is checked before cmd; every failure names a field |
| Parser.ParseEntry | src/plugins/core/parser.ts:92-113 | a bare string becomes its index-aliased descriptor with timeout 10000; an accepted object keeps alias, cmd and fallback and has its timeout or 10000; a null entry throws a TypeError |
| Parser.ParseEntries | src/plugins/core/parser.ts:92-113 | on success, one descriptor per entry in entry order; on failure, the error is that of the first entry that fails |
| Parser.DuplicateScan | src/plugins/core/parser.ts:232-237 | the scan passes exactly when the remaining aliases are distinct and none was seen before |
| Parser.CheckDuplicateAliases | src/plugins/core/parser.ts:229-238 | passes exactly when the aliases are pairwise distinct, and otherwise fails on field 'alias' |
| Parser.ParseCommands | src/plugins/core/parser.ts:91-119 | succeeds exactly when every entry parses and the resulting aliases are distinct; a failure is the first failing entry's error, or else a configuration error on field 'alias' |
| Parser.ParseCommandConfig | src/plugins/core/parser.ts:30-84 | a successful plan has distinct aliases and positive timeouts; a single plan has at most one command and the default options; a multi plan has one descriptor per entry; a non-object that is not handled fails without a field; an object with truthy `commands` fails with its option error when the options fail, and otherwise with the error of parsing its entries |
| ParserProperties.ParsedEntryAlias | src/plugins/core/parser.ts:186-191 | a parsed entry is not null and its alias is the one alias collection reads from it |
| ParserProperties.AvailableAliasesOfParsed | src/plugins/core/parser.ts:185-192 | once every entry parses, alias collection cannot throw and yields exactly the descriptors' aliases |
| ParserProperties.FormatPlaceholdersAreAliases | src/plugins/core/parser.ts:152-154 | after a successful parse, every placeholder of a non-empty template names a descriptor |
| ParserProperties.MultiPlan | src/plugins/core/parser.ts:65-80 | a multi-command plan came from an object with truthy commands whose options validated and whose entries parsed into the plan's descriptors |
| ParserProperties.ValidatedFormat | src/plugins/core/parser.ts:152-154 | validated options with a non-empty template have passed the template check |
| ParserProperties.FalsySpecIsEmptyPlan | src/plugins/core/parser.ts:31-42 | a falsy option is the single-command plan with no command, separator '-', strategy 'skip' and parallel on |
| ParserProperties.StringSpecIsOneCommand | src/plugins/core/parser.ts:45-62 | a non-empty string is one command aliased "0" with timeout 10000, and the options list the string as their only command |
| ParserProperties.OtherSpecsRejected | src/plugins/core/parser.ts:83 | a truthy non-string that is not an object with truthy commands is rejected without a field |
| ParserProperties.OptionsCheckedFirst | src/plugins/core/parser.ts:65-68 | an option error is reported whatever the entries hold |
| ParserProperties.ObjectSpecPlan | src/plugins/core/parser.ts:91-110 | an object's plan is multi-command, with one descriptor per entry in entry order, and the options keep the raw list |
| ParserProperties.ObjectSpecOptions | src/plugins/core/parser.ts:70-80 | an empty or absent separator becomes '-'; a falsy strategy becomes 'skip'; parallel is off exactly when it is literally false; the template is kept as given |
| ParserProperties.BareStringsAlwaysParse | src/plugins/types/index.ts:102-116 | a list of bare strings always parses, entry i becoming alias i with timeout 10000 |
| ParserProperties.AutoAliasCollision | __tests__/parser.test.ts:269-293 | a bare string followed by an object aliased "0" is a duplicate; followed by one aliased "1" it parses |
| ParserProperties.EntryParses | src/plugins/core/parser.ts:101-110 | an object with non-empty alias and cmd and nothing else gets timeout 10000 and no fallback |
| ParserProperties.PairEntries | src/plugins/core/parser.ts:92-113 | two entries that parse on their own parse together, in order |
| ParserProperties.PairDistinct | src/plugins/core/parser.ts:229-238 | two descriptors with different aliases are distinct |
| ParserProperties.PairCommands | __tests__/parser.test.ts:256-267 | two parsed entries are a duplicate when their aliases agree and the pair of descriptors otherwise |
| ParserProperties.TimeoutMustBePositive | __tests__/parser.test.ts:321-331 | a positive timeout is kept; zero or a negative timeout is rejected on field 'timeout' |
| ParserProperties.WhitespaceCommandAccepted | __tests__/parser.test.ts:309-319 | a command of spaces only is accepted unchanged |
| ParserProperties.EmptyCommandRejected | __tests__/parser.test.ts:297-307 | an empty cmd fails as an invalid entry, with no field named |
| ParserProperties.NullEntryThrows | __tests__/parser.test.ts:333-345 | a null entry passes the option checks and then throws a TypeError |
| Executor.ExecSingleCommand | src/plugins/core/executor.ts:31-64 | a failure or timeout becomes a command error naming the command and cause; otherwise the result is the output with surrounding whitespace trimmed |
| Executor.ExecuteCommand | src/plugins/core/executor.ts:152-177 | never throws: the result keeps alias, command and duration, succeeds exactly when the command did, and carries either the output or the error |
| Executor.ApplyErrorStrategy | src/plugins/core/executor.ts:182-211 | strict leaves the result alone; fallback with a value sets result to it, succeeds and clears the error; otherwise the result text becomes '' and success and error stay; alias, command and duration never change |
| Executor.RunAll | src/plugins/core/executor.ts:78 | one executed result per descriptor, in descriptor order |
| Executor.Settle | src/plugins/core/executor.ts:83-94 | a successful result is stored unchanged; only a failed one goes through the error strategy |
| Executor.SettledPairs | src/plugins/core/executor.ts:81-94 | one (alias, settled result) pair per descriptor, in descriptor order |
| Executor.SettleAll | src/plugins/core/executor.ts:81-94 | one (alias, settled result) pair per descriptor, in descriptor order |
| Executor.Collect | src/plugins/core/executor.ts:74-111 | the result map has at most one entry per descriptor |
| Executor.CollectLastWins | src/plugins/core/executor.ts:91-93 | the last descriptor's alias maps to its settled result |
| Executor.CollectOnePerDescriptor | src/plugins/core/executor.ts:76-111 | with distinct aliases, the map holds exactly one entry per descriptor, keyed by alias, in descriptor order |
| Executor.CollectKeysUnique | src/plugins/core/executor.ts:74 | the result map never holds a key twice |
| Executor.CollectKeySet | src/plugins/core/executor.ts:76-111 | the map's keys are exactly the descriptors' aliases |
| Executor.SettleAllKeys | src/plugins/core/executor.ts:81-111 | the settled pairs' keys are the aliases in descriptor order |
| Executor.KeysAreAliases | src/plugins/core/parser.ts:229-238 | a list holding each descriptor's alias in order contains exactly the alias set |
| Executor.FailedCommands | src/plugins/core/executor.ts:135-141 | the failed list is empty exactly when every stored result succeeded |
| Executor.StrictCheck | src/plugins/core/executor.ts:134-144 | the check passes exactly when every stored result succeeded, and otherwise fails with a command error naming the failed commands joined by ', ' |
| Executor.Serial | src/plugins/core/executor.ts:112-131 | descriptors are launched as a prefix of the list; success launches all of them; a failure is only possible under strict, and then the last launched descriptor failed and its own error is thrown |
| Executor.SerialRun | src/plugins/core/executor.ts:114-131 | after k steps, at most k descriptors ran; a success ran all k; a failure is strict and stems from the last descriptor run |
| Executor.SerialNext | src/plugins/core/executor.ts:115-130 | one step runs one more descriptor, throws exactly when strict meets a failure, and otherwise sets the alias to the settled result |
| Executor.ExecMultipleCommands | src/plugins/core/executor.ts:69-147 | parallel mode launches every descriptor; a successful run launched every descriptor; only the strict strategy can make the call fail |
| Executor.SerialMatchesParallel | src/plugins/core/executor.ts:76-131 | outside strict, the serial run never throws, and any serial run that completes builds the same map as the parallel one |
| Executor.SerialRunMatchesParallel | src/plugins/core/executor.ts:114-131 | every completed prefix of the serial loop holds the map the parallel branch builds from that prefix |
| Executor.SerialStrictStopsAtFirstFailure | src/plugins/core/executor.ts:114-128 | the serial strict run fails exactly when some command fails, and then every descriptor before the one it stopped at succeeded |
| Executor.SerialRunStops | src/plugins/core/executor.ts:114-128 | at every step, the strict loop has stopped exactly at the first failure so far |
| Executor.ExecNothing | __tests__/executor.test.ts:237-243 | an empty descriptor list gives an empty map and runs nothing |
| Executor.ExecNonStrictIgnoresParallel | src/plugins/core/executor.ts:73 | outside strict, both modes give the same full result map, with 'skip' as the default strategy |
| Executor.SettleStrict | src/plugins/core/executor.ts:206-207 | under strict, every stored result is the executed result itself |
| Executor.ExecParallelStrict | src/plugins/core/executor.ts:134-144 | parallel strict runs everything and fails exactly when some command failed, naming the failed commands; otherwise it returns the full map |
| Executor.ExecSerialStrict | src/plugins/core/executor.ts:112-128 | serial strict fails exactly when some command fails, and then it stopped at the first failing descriptor and threw that command's own error |
| Executor.SerialStrictIsSerial | src/plugins/core/executor.ts:134-144 | after a serial strict loop, the final strict check adds nothing |
| Executor.SerialStrictPasses | src/plugins/core/executor.ts:134-144 | when every command succeeds, the strict check passes on the serial map |
| Executor.ExecOkIsCollect | src/plugins/core/executor.ts:146 | whatever the mode, a successful call returns the descriptor-ordered map of settled results |
| Executor.ExecTrimsNewline | __tests__/executor.test.ts:40-53 | 'hello\n' from the shell is returned as 'hello' |
| Formatter.Substitution | src/plugins/core/formatter.ts:101-107 | a placeholder takes the result's text when that text is non-empty, and '' otherwise, whatever the success flag |
| Formatter.Missing | src/plugins/core/formatter.ts:69-73 | exactly the listed names that are not keys of the map are reported |
| Formatter.MissingPlaceholders | src/plugins/core/formatter.ts:61-79 | exactly the template's placeholders that are not keys of the map are reported |
| Formatter.FormatWithTemplate | src/plugins/core/formatter.ts:84-96 | template formatting fails exactly when some placeholder is not a key, with a format error carrying the template |
| Formatter.Outputs | src/plugins/core/formatter.ts:120-126 | only non-empty result texts are collected, never more than one per entry, and none exactly when no entry has text |
| Formatter.OutputsSnoc | src/plugins/core/formatter.ts:122-126 | a further entry adds its text at the end exactly when the text is non-empty |
| Formatter.FormatWithSeparator | src/plugins/core/formatter.ts:116-129 | the joined text is empty exactly when no entry has a non-empty text |
| Formatter.FormatWithSeparatorSnoc | src/plugins/core/formatter.ts:116-129 | a further entry with text adds a separator and its text (no separator when nothing came before); an entry without text changes nothing |
| Formatter.SeparatorAppends | src/plugins/core/formatter.ts:116-129 | a new entry with text adds a separator and its text (no separator when nothing came before); an entry without text changes nothing |
| Formatter.Format | src/plugins/core/formatter.ts:27-41 | an empty map gives '' whatever the template; only a non-empty template can fail, with a format error carrying it; an absent or '' template never fails |
| Formatter.EmptyTemplateIsSeparatorMode | src/plugins/core/formatter.ts:36 | a '' template formats exactly as no template |
| Formatter.TemplateWithoutPlaceholders | __tests__/formatter.test.ts:283-289 | a non-empty template without placeholders comes back unchanged |
| Formatter.FormatMissing | src/plugins/core/formatter.ts:88-96 | any placeholder missing from a non-empty map is a format error carrying the template |
| Formatter.FormatDashPair | src/plugins/core/formatter.ts:97-110 | '{a}-{b}' with both keys present formats as the two texts joined by a dash |
| Formatter.DashTemplateOfPair | src/plugins/core/formatter.ts:97-110 | for a two-entry map, '{a}-{b}' gives the substitutions of the two results joined by a dash |
| Formatter.SetThreeNew | src/plugins/core/executor.ts:91 | three new keys set in turn give three entries in that order |
| Formatter.OutputsOfThree | src/plugins/core/formatter.ts:122-126 | three entries with text give their three texts in order |
| Formatter.JoinOfThree | src/plugins/core/formatter.ts:128 | three parts join with a separator between neighbours |
| Formatter.InsertionOrderExample | __tests__/formatter.test.ts:171-203 | keys '10', '2', '1' inserted in that order join as 'third-second-first' |
| Formatter.TemplateExample | __tests__/formatter.test.ts:71-78 | '{branch}-{sha}' formats as 'main-abc1234' |
| Formatter.RepeatedPlaceholderExample | __tests__/formatter.test.ts:291-297 | '{branch}-{branch}-{sha}' formats as 'main-main-abc1234' |
| Formatter.MissingPlaceholderExample | __tests__/formatter.test.ts:113-120 | '{branch}-{missing}' is a format error carrying the template |
| Formatter.FailedCommandExample | __tests__/formatter.test.ts:122-144 | a failed result without text substitutes '' |
| Formatter.FallbackValueExample | __tests__/formatter.test.ts:146-169 | a result text is substituted even when its success flag is false |
| Formatter.SameTextsLookups | src/plugins/core/formatter.ts:100-107 | maps with the same keys and texts give the same lookups |
| Formatter.SameTextsOutputs | src/plugins/core/formatter.ts:120-126 | maps with the same keys and texts give the same outputs |
| Formatter.FormatReadsOnlyTexts | src/plugins/core/formatter.ts:97-128 | the formatted string depends only on the keys and result texts, never on command, error, duration or success |
| Naming.Canonical | src/plugins/core/index.ts:60 | each character is masked and upper-cased on its own, so the length is kept |
| Naming.PrintName | src/plugins/core/index.ts:60 | the name is followed by '_VERSION', and a missing name prints as 'undefined_VERSION' |
| Naming.PrintNameChars | src/plugins/core/index.ts:60 | word characters and line terminators are kept (ASCII letters upper-cased), every other character becomes '_', and no lower-case ASCII letter survives |
| Naming.PrintInfo | src/plugins/core/index.ts:61 | the info is the print name, ': ', then the version, with a missing version printed as 'undefined' |
| Naming.CanonicalIdempotent | src/plugins/core/index.ts:60 | deriving the name twice changes nothing more |
| Naming.CanonicalAppend | src/plugins/core/index.ts:60 | the derivation works character by character, so it distributes over concatenation |
| Naming.RunsAreNotCollapsed | src/plugins/core/index.ts:60 | 'a--b' becomes 'A__B_VERSION': runs are not collapsed |
| Naming.ScopedNameExample | __tests__/core.test.ts:373-382 | '@scope/my-package-name' becomes '_SCOPE_MY_PACKAGE_NAME_VERSION' |
| Naming.DigitsExample | __tests__/core.test.ts:384-393 | 'package123' becomes 'PACKAGE123_VERSION' |
| Naming.EmptyNameExample | __tests__/core.test.ts:395-404 | '' becomes '_VERSION' |
| Naming.PrintInfoExample | __tests__/core.test.ts:41-45 | 'test-app' at 'v1.0.0' prints 'TEST_APP_VERSION: v1.0.0' |
| LegacyExec.Default | src/plugins/core/index.ts:48-49 | a given option wins; an absent one takes the environment value |
| LegacyExec.ExecCommand | src/plugins/core/index.ts:31-44 | a failing command rejects with that command; otherwise the output comes back with its first line feed removed and every other character kept in place, or unchanged when it holds none |
| LegacyExec.RemoveFirstLineFeed | src/plugins/core/index.ts:39 | only the line feed after a feed-free prefix is removed; the rest is kept |
| LegacyExec.ShaLineFeed | src/plugins/core/main.ts:30 | 'abc1234\n' reads as 'abc1234' |
| LegacyExec.DoubleLineFeed | src/plugins/core/index.ts:39 | ' 1.0\n\n' keeps its second line feed and its leading space |
| CoreIndex.FinalCommand | src/plugins/core/index.ts:58 | a given command wins, even ''; otherwise short SHA when requested, then full SHA; no command exactly when none of the three applies |
| CoreIndex.AnalyticOptions | src/plugins/core/index.ts:46-72 | fails exactly when a non-empty chosen command fails; flags default to true, true, true, false and pass through; the name and info are derived; the version is the static one unless a non-empty command ran |
| CoreIndex.NoCommandKeepsVersion | src/plugins/core/index.ts:58-59 | with no command to run, no shell is consulted and the version is the given or environment version |
| CoreIndex.EmptyCommandSuppressesSHA | src/plugins/core/index.ts:58-59 | a '' command blocks the SHA fallbacks and keeps the static version |
| CoreIndex.CommandOverridesSHAFlags | __tests__/core.test.ts:217-286 | with a command given, the SHA flags make no difference |
| CoreIndex.ShortSHAWinsOverFull | __tests__/core.test.ts:288-309 | short SHA takes priority over full SHA, and the outcome depends only on the short-SHA command |
| CoreIndex.DefaultsExample | __tests__/core.test.ts:463-476 | with no options, the flags are true, true, true, false and the version comes from the environment |
| CoreIndex.UndefinedExample | src/plugins/core/index.ts:60-61 | with no name and no version, the name prints as 'undefined_VERSION' and the info ends in 'undefined' |
| CoreIndex.ShortSHAExample | __tests__/core.test.ts:186-201 | with short SHA on, 'abc1234\n' becomes the version 'abc1234' |
| CoreIndex.OnlyFirstLineFeedRemoved | src/plugins/core/index.ts:39 | an output ' 1.0\n\n' becomes ' 1.0\n': not trimmed, only the first line feed removed |
| CoreIndex.FailingCommandRejects | src/plugins/core/index.ts:59 | a failing full-SHA command rejects the whole resolution |
| CoreMain.GitCommand | src/plugins/core/main.ts:14-23 | a non-empty git command wins; otherwise short or full SHA by the flag; the chosen command is never empty |
| CoreMain.AnalyticOptions | src/plugins/core/main.ts:37-61 | fails exactly when SHA is on and the chosen command fails; flags default to true and pass through; the name and info are derived; the version is the static one unless SHA is on |
| CoreMain.NoGitSHAKeepsVersion | src/plugins/core/main.ts:41-49 | with SHA off, no shell is consulted and the version is the given or environment version |
| CoreMain.EmptyGitCommandFallsThrough | src/plugins/core/main.ts:17-23 | a '' git command counts as absent, so short SHA is the default choice |
| CoreMain.GitCommandOverridesShortSHA | src/plugins/core/main.ts:17-18 | with a non-empty git command, the short-SHA flag makes no difference |
| CoreMain.GitSHAExample | src/plugins/core/main.ts:42 | SHA on with defaults runs the short-SHA command and strips its line feed |
| CoreMain.FullSHAExample | src/plugins/core/main.ts:22 | short SHA off picks the full-SHA command, whose failure rejects |
| CoreMain.EmptyCommandReadDifferently | src/plugins/core/main.ts:17 | a '' custom command falls through to the SHA in this version but keeps the static version in core/index.ts |
| Pipeline.RunPlan | __tests__/core.test.ts:50-182 | an empty single plan yields no version string and is the only plan that does; a single command yields its trimmed output or its execution error; a multi plan yields the formatted execution result exactly when execution and formatting both succeed, and otherwise the first of their errors |
| Pipeline.Version | src/plugins/core/parser.ts:30-84 | a parse error is the pipeline's error |
| Pipeline.NoFormatErrorAfterParse | src/plugins/core/parser.ts:152-154 | after a successful parse, every failure is a command failure, never a format error |
| Pipeline.MultiRunErrors | src/plugins/core/formatter.ts:84-96 | a multi plan whose template is covered fails only through a command |
| Pipeline.FormatCovered | src/plugins/core/formatter.ts:84-96 | formatting cannot fail when every placeholder has a stored result |
| Pipeline.ExecErrorIsCommandError | src/plugins/core/executor.ts:125-142 | the executor only ever throws command errors |
| PipelineExamples.SettlesTo | src/plugins/core/executor.ts:45 | a word printed with a line feed settles to the word, whatever the strategy |
| PipelineExamples.TwoDescriptorRun | src/plugins/core/executor.ts:76-131 | two distinct descriptors outside strict give the two settled results in order |
| PipelineExamples.DashTemplateRun | __tests__/core.test.ts:78-102 | a two-command '{a}-{b}' plan gives the two substitutions joined by a dash |
| PipelineExamples.ValidSpecParses | src/plugins/core/parser.ts:65-80 | validated options and parsed entries make the multi plan |
| PipelineExamples.StrategyEntriesParse | __tests__/core.test.ts:130-143 | the branch and sha entries parse into their two descriptors |
| PipelineExamples.BranchShaTemplateValid | src/plugins/core/parser.ts:183-202 | '{branch}-{sha}' is valid for descriptors aliased branch and sha |
| PipelineExamples.CoveredTemplateValid | src/plugins/core/parser.ts:183-202 | a template whose placeholders are all aliases passes validation |
| PipelineExamples.StrategySpecValid | src/plugins/core/parser.ts:124-155 | the test's option object passes option validation for every strategy |
| PipelineExamples.StrategySpecPlan | __tests__/core.test.ts:130-182 | the test's option object parses to the branch and sha descriptors, its template and its strategy |
| PipelineExamples.StrategySpecOptions | src/plugins/core/parser.ts:70-80 | the test's option object validates, keeps its two entries, and resolves to the `{branch}-{sha}` template and the named strategy |
| PipelineExamples.StrategySettles | src/plugins/core/executor.ts:188-205 | branch settles to 'main'; the failing sha settles to the fallback under 'fallback' with a value, and to '' otherwise |
| PipelineExamples.StrategyRun | __tests__/core.test.ts:130-182 | the version is 'main-' followed by the fallback value under 'fallback' with a value, and 'main-' otherwise |
| PipelineExamples.FallbackScenario | __tests__/core.test.ts:130-155 | fallback with 'unknown' gives 'main-unknown' |
| PipelineExamples.SkipScenario | __tests__/core.test.ts:157-182 | skip gives 'main-' |
| PipelineExamples.SeparatorOfPair | src/plugins/core/formatter.ts:116-129 | two entries with text join with the separator between them |
| PipelineExamples.BareCommandsParse | src/plugins/types/index.ts:104 | two bare strings parse as aliases "0" and "1" with timeout 10000 |
| PipelineExamples.SeparatorSpecPlan | src/plugins/core/parser.ts:76 | a bare command string resolves its separator to the given one when non-empty, else '-' |
| PipelineExamples.SeparatorPairRun | src/plugins/core/formatter.ts:116-129 | two settled results with text join with the plan's separator |
| PipelineExamples.BarePlanRun | __tests__/core.test.ts:51-76 | the bare git plan gives branch, separator, sha |
| PipelineExamples.WordsPlanRun | src/plugins/core/formatter.ts:116-129 | two settled words join with the plan's separator |
| PipelineExamples.BranchSettles | __tests__/core.test.ts:62-68 | the branch command settles to 'main' |
| PipelineExamples.ShaSettles | __tests__/core.test.ts:62-68 | the SHA command settles to 'abc1234' |
| PipelineExamples.SeparatorRun | src/plugins/core/parser.ts:76 | the bare git command string gives 'main', the separator or '-', then 'abc1234' |
| PipelineExamples.DefaultSeparatorScenario | __tests__/core.test.ts:51-76 | no separator gives 'main-abc1234' |
| PipelineExamples.CustomSeparatorScenario | __tests__/core.test.ts:104-128 | separator '_' gives 'main_abc1234' |

## Left out

- Process spawning is an oracle parameter. This covers `child_process.exec`, the `setTimeout`/`kill` timeout machinery and the `Date.now` durations (src/plugins/core/executor.ts:31-64, 152-177). A timeout is one more failure cause, and the duration is whatever the oracle reports.
- Concurrency is left out. `Promise.allSettled` is modelled as a map over the descriptors, because the result map is filled in descriptor order whatever the completion order.
- The parallel branch's `rejected` case (src/plugins/core/executor.ts:95-110) cannot happen, since `executeCommand` catches every error. It is not modelled.
- Error message texts are left out. Errors keep their kind and their `field` or `command`.
- Numbers are integers. NaN, infinities and fractional timeouts are not modelled.
- Upper-casing covers ASCII only. Locale rules of `toLocaleUpperCase` are left out.
- JavaScript strings are UTF-16 code-unit sequences. Here they are sequences of Dafny characters, and surrogate pairs are not modelled.
- `process.env` defaults for `name` and `version` are a parameter (`LegacyExec.Environment`).
- `Executor.Serial`: the serial loop reads each descriptor's result from the shell oracle. Running a descriptor is therefore a pure function of the descriptor, so the order of calls to the shell is not modelled. Only the set of descriptors launched (a prefix) is recorded.
- The `analyticOptions` that composes parser, executor and formatter for object-valued `command` options, and its `outputFile` handling, are not in `src/plugins/core/index.ts`. `Pipeline` composes the three stages the way `__tests__/core.test.ts:50-182` shows. `outputFile`/`fileList` and the user callbacks are left out.
- `Pipeline.RunPlan`: a single-command plan runs its one command through `execSingleCommand`, so the output is trimmed. The newer plugin's single-command path is not part of this model.
- Build-tool glue is left out: `src/plugins/vite.ts`, `src/plugins/nuxt.ts`, `src/plugins/nuxt3.ts`, `src/index.ts`, and HTML, meta and script injection.
- `Executor.Collect`: states only the bound of one entry per descriptor. The exact shape, one entry per descriptor in order, is `Executor.CollectOnePerDescriptor` and needs distinct aliases, which the parser guarantees.
- `Formatter.Format`: its contract states the empty-map, error and no-template cases. The text of a template result is stated by `Formatter.FormatDashPair`, `Formatter.TemplateWithoutPlaceholders` and `Template.RenderDependsOnlyOnHoles`. The text of a separator result is stated by `Formatter.FormatWithSeparator`, `Formatter.FormatWithSeparatorSnoc` and `Formatter.SeparatorAppends`.
