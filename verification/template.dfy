/** Format templates. Both the parser and the formatter find placeholders with
    the global regular expression `/\{([^}]+)\}/g`: scanning left to right, a
    `{` opens a placeholder when a `}` follows it with at least one character
    in between; the name is everything up to the first such `}` (it may hold
    `{` but never `}`), and scanning resumes after it. A `{` that opens
    nothing is literal text. This module splits a template into literal
    characters and placeholders once, and derives the placeholder list and
    the substitution from that split. */
module Template {
  import opened Results

  datatype Piece = Text(c: char) | Hole(name: string)

  /** The first `}` at or after index `i`. */
  function ClosingBrace(s: string, i: nat): (r: Option<nat>)
    requires i <= |s|
    ensures r.Some? ==> i <= r.value < |s| && s[r.value] == '}' && '}' !in s[i..r.value]
    ensures r.None? ==> '}' !in s[i..]
    decreases |s| - i
  {
    if i == |s| then None
    else if s[i] == '}' then Some(i)
    else ClosingBrace(s, i + 1)
  }

  /** The text a piece stands for in the template. */
  function Unparse(ps: seq<Piece>): string
  {
    if |ps| == 0 then ""
    else match ps[0]
      case Text(c) => [c] + Unparse(ps[1..])
      case Hole(n) => "{" + n + "}" + Unparse(ps[1..])
  }

  /** A placeholder name as the regular expression can capture it. */
  predicate IsName(n: string) {
    n != "" && '}' !in n
  }

  /** Splits a template into pieces; every placeholder found is a
      capturable name. */
  function Tokenize(s: string): (ps: seq<Piece>)
    ensures forall p :: p in ps && p.Hole? ==> IsName(p.name)
    decreases |s|
  {
    if |s| == 0 then []
    else
      var close := if s[0] == '{' then ClosingBrace(s, 1) else None;
      if close.Some? && close.value >= 2 then
        [Hole(s[1..close.value])] + Tokenize(s[close.value + 1..])
      else
        [Text(s[0])] + Tokenize(s[1..])
  }

  /** Writing the pieces back gives the template again: the split loses and
      invents nothing. */
  lemma BracedSplit(s: string, j: nat)
    requires 1 <= j < |s| && s[0] == '{' && s[j] == '}'
    ensures s == "{" + s[1..j] + "}" + s[j + 1..]
  {
    assert s[..1] == "{" && s[j..j + 1] == "}";
    assert s == s[..1] + s[1..j] + s[j..j + 1] + s[j + 1..];
  }

  lemma {:induction false} TokenizeRoundTrip(s: string)
    ensures Unparse(Tokenize(s)) == s
    decreases |s|
  {
    if |s| > 0 {
      var close := if s[0] == '{' then ClosingBrace(s, 1) else None;
      var ps := Tokenize(s);
      if close.Some? && close.value >= 2 {
        var j := close.value;
        TokenizeRoundTrip(s[j + 1..]);
        assert ps == [Hole(s[1..j])] + Tokenize(s[j + 1..]);
        assert ps[0] == Hole(s[1..j]) && ps[1..] == Tokenize(s[j + 1..]);
        BracedSplit(s, j);
      } else {
        TokenizeRoundTrip(s[1..]);
        assert ps[0] == Text(s[0]) && ps[1..] == Tokenize(s[1..]);
        assert s == [s[0]] + s[1..];
      }
    }
  }

  /** The placeholder names of a piece sequence, in order, repeats kept. */
  function Holes(ps: seq<Piece>): seq<string>
  {
    if |ps| == 0 then []
    else match ps[0]
      case Text(_) => Holes(ps[1..])
      case Hole(n) => [n] + Holes(ps[1..])
  }

  /** `extractPlaceholders` / `parseTemplate`: the captured names in order. */
  function Placeholders(template: string): (names: seq<string>)
    ensures forall n :: n in names ==> IsName(n)
  {
    var ps := Tokenize(template);
    HolesAreNames(ps);
    Holes(ps)
  }

  lemma {:induction false} HolesAreNames(ps: seq<Piece>)
    requires forall p :: p in ps && p.Hole? ==> IsName(p.name)
    ensures forall n :: n in Holes(ps) ==> IsName(n)
  {
    if |ps| > 0 {
      assert ps[0] in ps;
      assert forall p :: p in ps[1..] ==> p in ps;
      HolesAreNames(ps[1..]);
    }
  }

  /** `template.replace(regex, (_, name) => sub(name))`: every placeholder
      replaced by its substitution, literal text kept. */
  function Render(ps: seq<Piece>, sub: string -> string): string
  {
    if |ps| == 0 then ""
    else match ps[0]
      case Text(c) => [c] + Render(ps[1..], sub)
      case Hole(n) => sub(n) + Render(ps[1..], sub)
  }

  /** Rendering reads the substitution only at the placeholders present: two
      substitutions that agree there render identically, so a repeated
      placeholder gets the same text at each occurrence. */
  lemma {:induction false} RenderDependsOnlyOnHoles(ps: seq<Piece>, f: string -> string, g: string -> string)
    requires forall n :: n in Holes(ps) ==> f(n) == g(n)
    ensures Render(ps, f) == Render(ps, g)
  {
    if |ps| > 0 {
      if ps[0].Hole? {
        assert ps[0].name in Holes(ps);
      }
      assert forall n :: n in Holes(ps[1..]) ==> n in Holes(ps);
      RenderDependsOnlyOnHoles(ps[1..], f, g);
    }
  }

  /** Writing each placeholder back as `{name}` reproduces the template. */
  lemma {:induction false} RenderWithBracesIsUnparse(ps: seq<Piece>)
    ensures Render(ps, n => "{" + n + "}") == Unparse(ps)
  {
    if |ps| > 0 {
      RenderWithBracesIsUnparse(ps[1..]);
    }
  }

  /** The substitution round trip: replacing every placeholder of a template
      by itself in braces gives back the template, whatever it contains. */
  lemma RenderIdentity(template: string)
    ensures Render(Tokenize(template), n => "{" + n + "}") == template
  {
    RenderWithBracesIsUnparse(Tokenize(template));
    TokenizeRoundTrip(template);
  }

  /** A template without placeholders renders to itself under any substitution. */
  lemma NoPlaceholdersRendersVerbatim(template: string, sub: string -> string)
    requires Placeholders(template) == []
    ensures Render(Tokenize(template), sub) == template
  {
    var ps := Tokenize(template);
    RenderDependsOnlyOnHoles(ps, sub, n => "{" + n + "}");
    RenderWithBracesIsUnparse(ps);
    TokenizeRoundTrip(template);
  }

  /** A template that starts with `{name}` yields that placeholder first. */
  lemma TokenizeHoleFirst(n: string, rest: string)
    requires IsName(n)
    ensures Tokenize("{" + n + "}" + rest) == [Hole(n)] + Tokenize(rest)
  {
    var s := "{" + n + "}" + rest;
    var j := |n| + 1;
    assert s[0] == '{' && s[j] == '}' && s[1..j] == n && s[j + 1..] == rest;
    var close := ClosingBrace(s, 1);
    assert close.Some? && close.value == j by {
      assert s[1..j + 1] == n + "}";
    }
  }

  /** A template that starts with a character other than `{` yields that
      character as literal text first. */
  lemma TokenizeTextFirst(c: char, rest: string)
    requires c != '{'
    ensures Tokenize([c] + rest) == [Text(c)] + Tokenize(rest)
  {
    assert ([c] + rest)[1..] == rest;
  }

  /** A `{` that opens no placeholder, because no `}` follows it or the
      next character already closes it, stays literal text. */
  lemma TokenizeBraceLiteral(rest: string)
    requires '}' !in rest || (|rest| > 0 && rest[0] == '}')
    ensures Tokenize("{" + rest) == [Text('{')] + Tokenize(rest)
  {
    var s := "{" + rest;
    assert s[1..] == rest;
  }

  /** The placeholders of a template that starts with `{name}`: that name,
      then those of the rest. */
  lemma PlaceholdersHoleFirst(n: string, rest: string)
    requires IsName(n)
    ensures Placeholders("{" + n + "}" + rest) == [n] + Placeholders(rest)
  {
    TokenizeHoleFirst(n, rest);
    var ps := [Hole(n)] + Tokenize(rest);
    assert ps[1..] == Tokenize(rest);
  }

  /** A leading character that opens no placeholder contributes none. */
  lemma PlaceholdersTextFirst(c: char, rest: string)
    requires c != '{' || '}' !in rest || (|rest| > 0 && rest[0] == '}')
    ensures Placeholders([c] + rest) == Placeholders(rest)
  {
    var ps;
    if c == '{' {
      assert [c] + rest == "{" + rest;
      TokenizeBraceLiteral(rest);
    } else {
      TokenizeTextFirst(c, rest);
    }
    ps := [Text(c)] + Tokenize(rest);
    assert ps[1..] == Tokenize(rest);
  }

  /** The two-placeholder template `{a}-{b}` splits into its two placeholders
      around a literal dash. */
  lemma TokenizeDashPair(a: string, b: string)
    requires IsName(a) && IsName(b)
    ensures Tokenize("{" + a + "}" + ("-" + ("{" + b + "}"))) == [Hole(a), Text('-'), Hole(b)]
  {
    var last := "{" + b + "}";
    TokenizeHoleFirst(b, "");
    assert last + "" == last;
    TokenizeTextFirst('-', last);
    assert "-" == ['-'];
    TokenizeHoleFirst(a, "-" + last);
  }

  /** ... and its placeholders are `a` then `b`. */
  lemma PlaceholdersDashPair(a: string, b: string)
    requires IsName(a) && IsName(b)
    ensures Placeholders("{" + a + "}" + ("-" + ("{" + b + "}"))) == [a, b]
  {
    TokenizeDashPair(a, b);
    var ps := [Hole(a), Text('-'), Hole(b)];
    assert [Hole(b)][1..] == [];
    assert Holes([Hole(b)]) == [b];
    assert [Text('-'), Hole(b)][1..] == [Hole(b)];
    assert Holes([Text('-'), Hole(b)]) == [b];
    assert ps[1..] == [Text('-'), Hole(b)];
  }

  /** Rendering `{a}-{b}` puts the two substitutions around the dash. */
  lemma RenderDashPair(a: string, b: string, sub: string -> string)
    ensures Render([Hole(a), Text('-'), Hole(b)], sub) == sub(a) + "-" + sub(b)
  {
    assert [Hole(b)][1..] == [];
    assert Render([Hole(b)], sub) == sub(b);
    assert [Text('-'), Hole(b)][1..] == [Hole(b)];
    assert Render([Text('-'), Hole(b)], sub) == "-" + sub(b);
    assert [Hole(a), Text('-'), Hole(b)][1..] == [Text('-'), Hole(b)];
  }

  /** A template that starts with `{a}-` yields that placeholder and the
      dash before the rest. */
  lemma TokenizeDashThen(a: string, rest: string)
    requires IsName(a)
    ensures Tokenize("{" + a + "}" + ("-" + rest)) == [Hole(a), Text('-')] + Tokenize(rest)
  {
    TokenizeHoleFirst(a, "-" + rest);
    assert "-" + rest == ['-'] + rest;
    TokenizeTextFirst('-', rest);
  }

  /** A leading placeholder and dash contribute the placeholder first. */
  lemma HolesDashThen(a: string, ps: seq<Piece>)
    ensures Holes([Hole(a), Text('-')] + ps) == [a] + Holes(ps)
  {
    var qs := [Hole(a), Text('-')] + ps;
    assert qs[1..] == [Text('-')] + ps;
    assert qs[1..][1..] == ps;
  }

  /** ... and render as the substitution, a dash, and the rest. */
  lemma RenderDashThen(a: string, ps: seq<Piece>, sub: string -> string)
    ensures Render([Hole(a), Text('-')] + ps, sub) == sub(a) + ("-" + Render(ps, sub))
  {
    var qs := [Hole(a), Text('-')] + ps;
    assert qs[1..] == [Text('-')] + ps;
    assert qs[1..][1..] == ps;
  }
}

