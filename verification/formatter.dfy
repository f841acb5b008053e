/** `ResultFormatter` (src/plugins/core/formatter.ts): turns the ordered map of
    command results into the version string, either by substituting results
    into a template or by joining the non-empty outputs with a separator. */
module Formatter {
  import opened Results
  import opened Strings
  import opened Types
  import opened Template
  import OrderedMap

  /** A result text is truthy when it is present and not empty. */
  predicate HasText(r: CommandResult) {
    r.result.Some? && r.result.value != ""
  }

  /** The text a placeholder is replaced by: '' for a failure without a
      value, and otherwise the result, with an empty or missing one as ''. */
  function Substitution(r: CommandResult): (t: string)
    ensures HasText(r) ==> t == r.result.value
    ensures !HasText(r) ==> t == ""
  {
    if !r.success && !HasText(r) then ""
    else if HasText(r) then r.result.value
    else ""
  }

  /** `results.get(name)` fed to `Substitution`. The validation before it
      guarantees the key exists; an absent key would read as ''. */
  function PlaceholderText(results: ResultMap, name: string): string
  {
    match OrderedMap.Get(results, name)
    case Some(r) => Substitution(r)
    case None => ""
  }

  /** The names from `names` that are not keys of `results`, in order,
      repeats kept. */
  function Missing(names: seq<string>, results: ResultMap): (missing: seq<string>)
    ensures |missing| <= |names|
    ensures forall n :: n in missing <==> n in names && n !in OrderedMap.Keys(results)
  {
    if |names| == 0 then []
    else
      var rest := Missing(names[1..], results);
      assert forall n :: n in names <==> n == names[0] || n in names[1..];
      if names[0] in OrderedMap.Keys(results) then rest else [names[0]] + rest
  }

  /** `validateTemplate`: the template's placeholders that name no result. */
  function MissingPlaceholders(template: string, results: ResultMap): (missing: seq<string>)
    ensures forall n :: n in missing <==> n in Placeholders(template) && n !in OrderedMap.Keys(results)
  {
    Missing(Placeholders(template), results)
  }

  /** `formatWithTemplate`: a `FormatError` carrying the template when some
      placeholder names no result; otherwise every placeholder replaced by its
      result's text and every other character kept. */
  function FormatWithTemplate(results: ResultMap, template: string): (r: Result<string, Error>)
    ensures r.Err? <==> exists n :: n in Placeholders(template) && n !in OrderedMap.Keys(results)
    ensures r.Err? ==> r.error == FormatError(template)
  {
    var missing := MissingPlaceholders(template, results);
    if |missing| > 0 then
      assert missing[0] in missing;
      Err(FormatError(template))
    else Ok(Render(Tokenize(template), n => PlaceholderText(results, n)))
  }

  /** The truthy result texts, in map order. */
  function Outputs(results: ResultMap): (out: seq<string>)
    ensures |out| <= |results|
    ensures forall s :: s in out ==> s != ""
    ensures out == [] <==> forall i :: 0 <= i < |results| ==> !HasText(results[i].1)
  {
    if |results| == 0 then []
    else
      var rest := Outputs(results[1..]);
      if HasText(results[0].1) then [results[0].1.result.value] + rest else rest
  }

  /** `formatWithSeparator`: the truthy outputs joined by the separator; ''
      exactly when no result has text. */
  function FormatWithSeparator(results: ResultMap, separator: string): (r: string)
    ensures r == "" <==> forall i :: 0 <= i < |results| ==> !HasText(results[i].1)
  {
    var out := Outputs(results);
    if out == [] then "" else
      assert out[0] != "" by { assert out[0] in out; }
      Join(out, separator)
  }

  /** `format(results, template, separator = '-')`. An empty map formats to
      '' whatever the template; a non-empty template selects template mode;
      otherwise the separator joins the outputs. */
  function Format(results: ResultMap, template: Option<string>, separator: Option<string>): (r: Result<string, Error>)
    ensures |results| == 0 ==> r == Ok("")
    ensures r.Err? ==> template.Some? && r.error == FormatError(template.value)
    ensures template.None? || template == Some("") ==> r.Ok?
  {
    if |results| == 0 then Ok("")
    else if template.Some? && template.value != "" then FormatWithTemplate(results, template.value)
    else Ok(FormatWithSeparator(results, separator.GetOr(DEFAULT_SEPARATOR)))
  }

  /** Appending one entry adds its text to the outputs when it has any. */
  lemma {:induction false} OutputsSnoc(results: ResultMap, p: (string, CommandResult))
    ensures Outputs(results + [p]) == Outputs(results) + (if HasText(p.1) then [p.1.result.value] else [])
  {
    if |results| > 0 {
      assert (results + [p])[1..] == results[1..] + [p];
      OutputsSnoc(results[1..], p);
    } else {
      assert Outputs([p]) == (if HasText(p.1) then [p.1.result.value] else []) + Outputs([]);
    }
  }

  /** Storing one more alias in separator mode appends its text after the
      separator, or nothing at all when the text is empty or missing. */
  lemma SeparatorAppends(results: ResultMap, alias: string, r: CommandResult, separator: string)
    requires alias !in OrderedMap.Keys(results)
    ensures var before := FormatWithSeparator(results, separator);
      FormatWithSeparator(OrderedMap.Set(results, alias, r), separator)
        == if !HasText(r) then before
           else if Outputs(results) == [] then r.result.value
           else before + separator + r.result.value
  {
    FormatWithSeparatorSnoc(results, (alias, r), separator);
  }

  /** Appending one entry in separator mode adds its text after the
      separator, or nothing at all when the text is empty or missing; the
      first text goes in without a separator. */
  lemma FormatWithSeparatorSnoc(results: ResultMap, p: (string, CommandResult), separator: string)
    ensures var before := FormatWithSeparator(results, separator);
      FormatWithSeparator(results + [p], separator)
        == if !HasText(p.1) then before
           else if Outputs(results) == [] then p.1.result.value
           else before + separator + p.1.result.value
  {
    OutputsSnoc(results, p);
    if HasText(p.1) {
      JoinSnoc(Outputs(results), p.1.result.value, separator);
    } else {
      assert Outputs(results) + [] == Outputs(results);
    }
  }

  function Succeeded(alias: string, command: string, out: string): CommandResult
  {
    CommandResult(alias, command, Some(out), None, 50, true)
  }

  lemma SetThreeNew(a: string, ra: CommandResult, b: string, rb: CommandResult, c: string, rc: CommandResult)
    requires a != b && a != c && b != c
    ensures OrderedMap.Set(OrderedMap.Set(OrderedMap.Set([], a, ra), b, rb), c, rc) == [(a, ra), (b, rb), (c, rc)]
  {
    var m1 := OrderedMap.Set([], a, ra);
    assert m1 == [(a, ra)] by {
      assert [] + [(a, ra)] == [(a, ra)];
    }
    var m2 := OrderedMap.Set(m1, b, rb);
    assert m2 == [(a, ra), (b, rb)] by {
      assert b !in OrderedMap.Keys(m1);
    }
    assert c !in OrderedMap.Keys(m2);
  }

  lemma OutputsOfThree(a: string, ra: CommandResult, b: string, rb: CommandResult, c: string, rc: CommandResult)
    requires HasText(ra) && HasText(rb) && HasText(rc)
    ensures Outputs([(a, ra), (b, rb), (c, rc)]) == [ra.result.value, rb.result.value, rc.result.value]
  {
    var m := [(a, ra), (b, rb), (c, rc)];
    assert [(c, rc)][1..] == [];
    assert Outputs([(c, rc)]) == [rc.result.value];
    assert [(b, rb), (c, rc)][1..] == [(c, rc)];
    assert Outputs([(b, rb), (c, rc)]) == [rb.result.value, rc.result.value];
    assert m[1..] == [(b, rb), (c, rc)];
  }

  lemma JoinOfThree(x: string, y: string, z: string, sep: string)
    ensures Join([x, y, z], sep) == x + sep + y + sep + z
    ensures Join(["third", "second", "first"], "-") == "third-second-first"
  {
    assert [y, z][1..] == [z];
    assert Join([y, z], sep) == y + sep + z;
    assert [x, y, z][1..] == [y, z];
  }

  /** Numeric-looking aliases keep insertion order: '10', then '2', then '1'
      formats as 'third-second-first', not in numeric or string order. */
  lemma InsertionOrderExample()
    ensures var m := OrderedMap.Set(OrderedMap.Set(OrderedMap.Set([],
          "10", Succeeded("10", "echo third", "third")),
          "2", Succeeded("2", "echo second", "second")),
          "1", Succeeded("1", "echo first", "first"));
      Format(m, None, None) == Ok("third-second-first")
  {
    var r1, r2, r3 := Succeeded("10", "echo third", "third"), Succeeded("2", "echo second", "second"),
      Succeeded("1", "echo first", "first");
    SetThreeNew("10", r1, "2", r2, "1", r3);
    OutputsOfThree("10", r1, "2", r2, "1", r3);
    JoinOfThree("third", "second", "first", "-");
  }

  /** Template mode on `{a}-{b}` with both aliases present: the two texts
      around a dash. */
  lemma FormatDashPair(results: ResultMap, a: string, b: string, separator: Option<string>)
    requires IsName(a) && IsName(b)
    requires a in OrderedMap.Keys(results) && b in OrderedMap.Keys(results)
    ensures Format(results, Some("{" + a + "}" + ("-" + ("{" + b + "}"))), separator)
         == Ok(PlaceholderText(results, a) + "-" + PlaceholderText(results, b))
  {
    var t := "{" + a + "}" + ("-" + ("{" + b + "}"));
    var f := n => PlaceholderText(results, n);
    TokenizeDashPair(a, b);
    PlaceholdersDashPair(a, b);
    RenderDashPair(a, b, f);
    assert |results| > 0;
    assert t != "";
  }

  /** `{a}-{b}` over a two-entry map: each placeholder becomes its entry's
      text. */
  lemma DashTemplateOfPair(a: string, ra: CommandResult, b: string, rb: CommandResult, separator: Option<string>)
    requires IsName(a) && IsName(b) && a != b
    ensures Format([(a, ra), (b, rb)], Some("{" + a + "}" + ("-" + ("{" + b + "}"))), separator)
      == Ok(Substitution(ra) + "-" + Substitution(rb))
  {
    var results := [(a, ra), (b, rb)];
    assert OrderedMap.Keys(results)[0] == a && OrderedMap.Keys(results)[1] == b;
    FormatDashPair(results, a, b, separator);
    OrderedMap.IndexOfIs(results, a, 0);
    OrderedMap.IndexOfIs(results, b, 1);
  }

  /** The three results the formatter's examples start from. */
  function GitResults(): ResultMap
  {
    [("branch", Succeeded("branch", "git branch --show-current", "main")),
     ("sha", Succeeded("sha", "git rev-parse --short HEAD", "abc1234")),
     ("tag", Succeeded("tag", "git describe --tags", "v1.0.0"))]
  }

  /** `{branch}-{sha}` split as `{a}-{b}`, and the string it renders to;
      shared by the formatter's and the pipeline's examples. */
  lemma BranchShaText()
    ensures "{branch}-{sha}" == "{" + "branch" + "}" + ("-" + ("{" + "sha" + "}"))
    ensures "main" + "-" + "abc1234" == "main-abc1234"
  {
  }

  /** `{branch}-{sha}` formats as `main-abc1234`. */
  lemma TemplateExample()
    ensures Format(GitResults(), Some("{branch}-{sha}"), None) == Ok("main-abc1234")
  {
    var m := GitResults();
    BranchShaText();
    assert OrderedMap.Keys(m) == ["branch", "sha", "tag"];
    FormatDashPair(m, "branch", "sha", None);
    GitTexts();
  }

  lemma GitTexts()
    ensures OrderedMap.Keys(GitResults()) == ["branch", "sha", "tag"]
    ensures PlaceholderText(GitResults(), "branch") == "main"
    ensures PlaceholderText(GitResults(), "sha") == "abc1234"
  {
    var m := GitResults();
    OrderedMap.IndexOfIs(m, "branch", 0);
    OrderedMap.IndexOfIs(m, "sha", 1);
  }

  /** `{branch}-{branch}-{sha}` split placeholder by placeholder, and the
      string it renders to. */
  lemma RepeatedText()
    ensures "{branch}-{branch}-{sha}"
      == "{" + "branch" + "}" + ("-" + ("{" + "branch" + "}" + ("-" + ("{" + "sha" + "}"))))
    ensures "main" + ("-" + ("main" + "-" + "abc1234")) == "main-main-abc1234"
  {
  }

  /** The pieces of `{branch}-{branch}-{sha}`, and its placeholders in
      order, the repeated one twice. */
  lemma RepeatedPieces()
    ensures Tokenize("{branch}-{branch}-{sha}")
      == [Hole("branch"), Text('-')] + [Hole("branch"), Text('-'), Hole("sha")]
    ensures Placeholders("{branch}-{branch}-{sha}") == ["branch", "branch", "sha"]
  {
    RepeatedText();
    var inner := "{" + "branch" + "}" + ("-" + ("{" + "sha" + "}"));
    TokenizeDashThen("branch", inner);
    TokenizeDashPair("branch", "sha");
    PlaceholdersDashPair("branch", "sha");
    HolesDashThen("branch", [Hole("branch"), Text('-'), Hole("sha")]);
  }

  /** A placeholder used twice is substituted the same way both times:
      `{branch}-{branch}-{sha}` formats as `main-main-abc1234`. */
  lemma RepeatedPlaceholderExample()
    ensures Format(GitResults(), Some("{branch}-{branch}-{sha}"), None) == Ok("main-main-abc1234")
  {
    var m := GitResults();
    var f := n => PlaceholderText(m, n);
    GitTexts();
    RepeatedPieces();
    RepeatedText();
    assert forall n :: n in Placeholders("{branch}-{branch}-{sha}") ==> n in OrderedMap.Keys(m);
    RenderDashThen("branch", [Hole("branch"), Text('-'), Hole("sha")], f);
    RenderDashPair("branch", "sha", f);
  }

  lemma BranchMissingText()
    ensures "{branch}-{missing}" == "{" + "branch" + "}" + ("-" + ("{" + "missing" + "}"))
  {
  }

  /** A placeholder naming no result is a `FormatError` carrying the template. */
  lemma MissingPlaceholderExample()
    ensures Format(GitResults(), Some("{branch}-{missing}"), None) == Err(FormatError("{branch}-{missing}"))
  {
    BranchMissingPlaceholders();
    GitKeys();
    FormatMissing(GitResults(), "{branch}-{missing}", "missing", None);
  }

  lemma BranchMissingPlaceholders()
    ensures Placeholders("{branch}-{missing}") == ["branch", "missing"]
  {
    BranchMissingText();
    PlaceholdersDashPair("branch", "missing");
  }

  lemma GitKeys()
    ensures OrderedMap.Keys(GitResults()) == ["branch", "sha", "tag"]
  {
  }

  /** One placeholder without a stored result is enough for the error. */
  lemma FormatMissing(results: ResultMap, template: string, name: string, separator: Option<string>)
    requires |results| > 0 && template != ""
    requires name in Placeholders(template) && name !in OrderedMap.Keys(results)
    ensures Format(results, Some(template), separator) == Err(FormatError(template))
  {
  }

  /** How the two example templates split into `{a}-{b}`, and the strings
      they render to, proved apart from the examples so that the literals do
      not enlarge the examples' own proofs. */
  lemma SuccessFailureText()
    ensures "{success}-{failure}" == "{" + "success" + "}" + ("-" + ("{" + "failure" + "}"))
    ensures "hello" + "-" + "" == "hello-"
  {
  }

  lemma SuccessFallbackText()
    ensures "{success}-{fallback}" == "{" + "success" + "}" + ("-" + ("{" + "fallback" + "}"))
    ensures "hello" + "-" + "default-value" == "hello-default-value"
  {
  }

  function Hello(): CommandResult
  {
    Succeeded("success", "echo hello", "hello")
  }

  /** A failed command without a value contributes ''. */
  lemma FailedCommandExample()
    ensures var failed := CommandResult("failure", "invalid-command", None,
        Some(CommandExecutionError("invalid-command", Some(ExitFailure))), 30, false);
      Format([("success", Hello()), ("failure", failed)], Some("{success}-{failure}"), None) == Ok("hello-")
  {
    var failed := CommandResult("failure", "invalid-command", None,
      Some(CommandExecutionError("invalid-command", Some(ExitFailure))), 30, false);
    SuccessFailureText();
    DashTemplateOfPair("success", Hello(), "failure", failed, None);
  }

  /** A failed command that carries a fallback value contributes that value,
      whatever its `success` flag says. */
  lemma FallbackValueExample()
    ensures var fellBack := CommandResult("fallback", "invalid-command", Some("default-value"),
        Some(CommandExecutionError("invalid-command", Some(ExitFailure))), 30, false);
      Format([("success", Hello()), ("fallback", fellBack)], Some("{success}-{fallback}"), None)
        == Ok("hello-default-value")
  {
    var fellBack := CommandResult("fallback", "invalid-command", Some("default-value"),
      Some(CommandExecutionError("invalid-command", Some(ExitFailure))), 30, false);
    SuccessFallbackText();
    DashTemplateOfPair("success", Hello(), "fallback", fellBack, None);
  }

  /** An empty template is no template: separator mode. */
  lemma EmptyTemplateIsSeparatorMode(results: ResultMap, separator: Option<string>)
    ensures Format(results, Some(""), separator) == Format(results, None, separator)
  {
  }

  /** A non-empty template without placeholders is the version string itself
      as soon as there is any result. */
  lemma TemplateWithoutPlaceholders(results: ResultMap, template: string, separator: Option<string>)
    requires |results| > 0 && template != ""
    requires Placeholders(template) == []
    ensures Format(results, Some(template), separator) == Ok(template)
  {
    NoPlaceholdersRendersVerbatim(template, n => PlaceholderText(results, n));
  }

  /** Two maps that agree on keys and result texts, in order. */
  ghost predicate SameTexts(a: ResultMap, b: ResultMap) {
    |a| == |b| && forall i :: 0 <= i < |a| ==> a[i].0 == b[i].0 && a[i].1.result == b[i].1.result
  }

  lemma SameTextsLookups(a: ResultMap, b: ResultMap, name: string)
    requires SameTexts(a, b)
    ensures PlaceholderText(a, name) == PlaceholderText(b, name)
    ensures name in OrderedMap.Keys(a) <==> name in OrderedMap.Keys(b)
  {
    assert OrderedMap.Keys(a) == OrderedMap.Keys(b);
    var i := OrderedMap.IndexOf(a, name);
    if 0 <= i {
      OrderedMap.IndexOfIs(b, name, i);
    }
  }

  lemma {:induction false} SameTextsOutputs(a: ResultMap, b: ResultMap)
    requires SameTexts(a, b)
    ensures Outputs(a) == Outputs(b)
  {
    if |a| > 0 {
      assert SameTexts(a[1..], b[1..]);
      SameTextsOutputs(a[1..], b[1..]);
    }
  }

  /** The version string reads only the aliases and result texts: commands,
      errors, durations and success flags never change it. */
  lemma FormatReadsOnlyTexts(a: ResultMap, b: ResultMap, template: Option<string>, separator: Option<string>)
    requires SameTexts(a, b)
    ensures Format(a, template, separator) == Format(b, template, separator)
  {
    SameTextsOutputs(a, b);
    if template.Some? {
      forall n
        ensures PlaceholderText(a, n) == PlaceholderText(b, n)
        ensures n in OrderedMap.Keys(a) <==> n in OrderedMap.Keys(b)
      {
        SameTextsLookups(a, b, n);
      }
      var ps := Tokenize(template.value);
      RenderDependsOnlyOnHoles(ps, n => PlaceholderText(a, n), n => PlaceholderText(b, n));
    }
  }
}
