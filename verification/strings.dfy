/** The JavaScript string operations the version pipeline relies on:
    `String.prototype.trim`, `Array.prototype.join`, `Number.prototype.toString`
    for non-negative integers, and `replace` of the first occurrence of a
    character. */
module Strings {
  import opened Results

  /** The characters `trim` removes: ECMAScript WhiteSpace and LineTerminator. */
  predicate IsJsWhitespace(c: char) {
    || c == '\t' || c == '\U{000B}' || c == '\U{000C}' || c == ' '
    || c == '\U{00A0}' || c == '\U{FEFF}' || c == '\U{1680}'
    || ('\U{2000}' <= c <= '\U{200A}')
    || c == '\U{202F}' || c == '\U{205F}' || c == '\U{3000}'
    || IsLineTerminator(c)
  }

  /** The characters a regular-expression `.` does not match. */
  predicate IsLineTerminator(c: char) {
    c == '\n' || c == '\r' || c == '\U{2028}' || c == '\U{2029}'
  }

  ghost predicate AllWhitespace(s: string) {
    forall i :: 0 <= i < |s| ==> IsJsWhitespace(s[i])
  }

  /** `r` is `s` with its surrounding whitespace, and only that, removed:
      `r` is `s[a..b]` for positions `a <= b` with only whitespace before `a`
      and after `b`, and `r` neither starts nor ends with whitespace. */
  ghost predicate IsTrimOf(s: string, r: string) {
    && (exists a, b :: 0 <= a <= b <= |s| && r == s[a..b] && Surrounds(s, a, b))
    && (|r| > 0 ==> !IsJsWhitespace(r[0]) && !IsJsWhitespace(r[|r| - 1]))
  }

  /** Everything in `s` before position `a` and from position `b` on is
      whitespace. */
  ghost predicate Surrounds(s: string, a: nat, b: nat)
    requires a <= b <= |s|
  {
    && (forall k :: 0 <= k < a ==> IsJsWhitespace(s[k]))
    && (forall k :: b <= k < |s| ==> IsJsWhitespace(s[k]))
  }

  /** The end of the run of whitespace starting at `i`: the first
      non-whitespace position at or after `i`, or `|s|`. */
  function SkipLeading(s: string, i: nat): (j: nat)
    requires i <= |s|
    ensures i <= j <= |s|
    ensures forall k :: i <= k < j ==> IsJsWhitespace(s[k])
    ensures j < |s| ==> !IsJsWhitespace(s[j])
    decreases |s| - i
  {
    if i == |s| || !IsJsWhitespace(s[i]) then i else SkipLeading(s, i + 1)
  }

  /** The start of the run of whitespace ending at `j`, looking no further
      back than `lo`. */
  function SkipTrailing(s: string, lo: nat, j: nat): (e: nat)
    requires lo <= j <= |s|
    ensures lo <= e <= j
    ensures forall k :: e <= k < j ==> IsJsWhitespace(s[k])
    ensures e > lo ==> !IsJsWhitespace(s[e - 1])
    decreases j - lo
  {
    if j == lo || !IsJsWhitespace(s[j - 1]) then j else SkipTrailing(s, lo, j - 1)
  }

  /** `s.trim()`: `s` is the result surrounded by whitespace only, and the
      result neither starts nor ends with whitespace. */
  function Trim(s: string): (r: string)
    ensures IsTrimOf(s, r)
  {
    var a := SkipLeading(s, 0);
    var b := SkipTrailing(s, a, |s|);
    assert Surrounds(s, a, b);
    s[a..b]
  }

  /** Trimming changes nothing on a string without surrounding whitespace, so
      trimming twice is trimming once. */
  lemma TrimIdempotent(s: string)
    ensures Trim(Trim(s)) == Trim(s)
  {
    var r := Trim(s);
    assert r == r[0..|r|] && Surrounds(r, 0, |r|);
    TrimIsUnique(r, r);
  }

  /** `IsTrimOf` pins the result down: whatever is `s` without surrounding
      whitespace is exactly `s.trim()`. */
  lemma TrimIsUnique(s: string, r: string)
    requires IsTrimOf(s, r)
    ensures r == Trim(s)
  {
    var a, b :| 0 <= a <= b <= |s| && r == s[a..b] && Surrounds(s, a, b);
    if a < b {
      BoundsOfTrim(s, a, b);
    } else {
      assert SkipLeading(s, 0) == |s|;
    }
  }

  /** A word printed with a trailing line feed reads back as the word. */
  lemma TrimsLineFeed(word: string)
    requires |word| > 0 && !IsJsWhitespace(word[0]) && !IsJsWhitespace(word[|word| - 1])
    ensures Trim(word + "\n") == word
  {
    var s := word + "\n";
    assert s[0..|word|] == word && Surrounds(s, 0, |word|);
    TrimIsUnique(s, word);
  }

  /** A non-empty trimmed stretch `s[a..b]` is found by the two scans. */
  lemma BoundsOfTrim(s: string, a: nat, b: nat)
    requires a < b <= |s| && Surrounds(s, a, b)
    requires !IsJsWhitespace(s[a]) && !IsJsWhitespace(s[b - 1])
    ensures SkipLeading(s, 0) == a && SkipTrailing(s, a, |s|) == b
  {
  }

  /** `parts.join(sep)`. */
  function Join(parts: seq<string>, sep: string): string
  {
    if |parts| == 0 then ""
    else if |parts| == 1 then parts[0]
    else parts[0] + sep + Join(parts[1..], sep)
  }

  /** Joining is appending one part at a time, each after a separator: the
      shape of the loop that pushes values and joins them at the end. */
  lemma {:induction false} JoinSnoc(parts: seq<string>, p: string, sep: string)
    ensures Join(parts + [p], sep) == if |parts| == 0 then p else Join(parts, sep) + sep + p
  {
    if |parts| > 1 {
      assert (parts + [p])[1..] == parts[1..] + [p];
      JoinSnoc(parts[1..], p, sep);
    } else if |parts| == 1 {
      assert (parts + [p])[1..] == [p];
    }
  }

  /** The length of a join: every part plus one separator between neighbours. */
  lemma {:induction false} JoinLength(parts: seq<string>, sep: string)
    ensures |Join(parts, sep)| == TotalLength(parts) + (if |parts| == 0 then 0 else (|parts| - 1) * |sep|)
  {
    if |parts| > 1 {
      JoinLength(parts[1..], sep);
    }
  }

  function TotalLength(parts: seq<string>): nat
  {
    if |parts| == 0 then 0 else |parts[0]| + TotalLength(parts[1..])
  }

  function DigitChar(d: nat): (c: char)
    requires d < 10
    ensures '0' <= c <= '9' && c as int - '0' as int == d
  {
    ('0' as int + d) as char
  }

  /** `n.toString()` for a non-negative integer: its decimal digits, most
      significant first, without leading zeros. */
  function NatToString(n: nat): (s: string)
    ensures |s| > 0
    ensures forall i :: 0 <= i < |s| ==> '0' <= s[i] <= '9'
    ensures s[|s| - 1] == DigitChar(n % 10)
    ensures n < 10 <==> |s| == 1
    ensures |s| > 1 ==> s[0] != '0'
  {
    if n < 10 then [DigitChar(n)] else NatToString(n / 10) + [DigitChar(n % 10)]
  }

  /** Distinct indices have distinct decimal names, so the automatic aliases
      of a command list never collide with each other. */
  lemma {:induction false} NatToStringInjective(a: nat, b: nat)
    requires NatToString(a) == NatToString(b)
    ensures a == b
  {
    var s := NatToString(a);
    assert DigitChar(a % 10) == s[|s| - 1] == DigitChar(b % 10);
    if a >= 10 {
      assert b >= 10;
      assert NatToString(a / 10) == s[..|s| - 1] == NatToString(b / 10);
      NatToStringInjective(a / 10, b / 10);
    }
  }

  /** The number a string of decimal digits denotes, read most significant
      digit first. */
  function DecimalValue(s: string): nat
    requires forall i :: 0 <= i < |s| ==> '0' <= s[i] <= '9'
  {
    if |s| == 0 then 0
    else DecimalValue(s[..|s| - 1]) * 10 + (s[|s| - 1] as int - '0' as int)
  }

  /** `n.toString()` reads back as `n`. */
  lemma {:induction false} NatToStringValue(n: nat)
    ensures DecimalValue(NatToString(n)) == n
  {
    var s := NatToString(n);
    if n >= 10 {
      assert s[..|s| - 1] == NatToString(n / 10);
      NatToStringValue(n / 10);
    } else {
      assert s[..0] == [];
    }
  }

  /** The first position at or after `from` holding `c`, or `|s|`. */
  function FindFrom(s: string, c: char, from: nat): (i: nat)
    requires from <= |s|
    ensures from <= i <= |s|
    ensures forall j :: from <= j < i ==> s[j] != c
    ensures i < |s| ==> s[i] == c
    decreases |s| - from
  {
    if from == |s| || s[from] == c then from else FindFrom(s, c, from + 1)
  }

  /** `s.replace(c, '')` with a one-character pattern string: deletes the
      first occurrence of `c` and keeps every later one. */
  function RemoveFirst(s: string, c: char): (r: string)
    ensures c !in s ==> r == s
    ensures c in s ==> exists i :: 0 <= i < |s| && s[i] == c && c !in s[..i] && r == s[..i] + s[i + 1..]
  {
    var i := FindFrom(s, c, 0);
    if i == |s| then s
    else
      assert c !in s[..i];
      s[..i] + s[i + 1..]
  }

  /** Deleting one occurrence shortens the string by one and takes exactly
      one copy of the character out of it. */
  lemma RemoveFirstDropsOne(s: string, c: char)
    requires c in s
    ensures |RemoveFirst(s, c)| == |s| - 1
    ensures multiset(RemoveFirst(s, c)) == multiset(s) - multiset{c}
  {
    var i := FindFrom(s, c, 0);
    FindFromFinds(s, c);
    assert RemoveFirst(s, c) == s[..i] + s[i + 1..];
    assert s == s[..i] + [c] + s[i + 1..];
    DropOne(s[..i], c, s[i + 1..]);
  }

  /** A character that occurs is found before the end. */
  lemma FindFromFinds(s: string, c: char)
    requires c in s
    ensures FindFrom(s, c, 0) < |s|
  {
    var k :| 0 <= k < |s| && s[k] == c;
  }

  /** Cutting one element out of a sequence takes one copy of it out of the
      multiset. */
  lemma DropOne<T>(a: seq<T>, x: T, b: seq<T>)
    ensures multiset(a + b) == multiset(a + [x] + b) - multiset{x}
  {
    assert multiset(a + [x] + b) == multiset(a) + multiset{x} + multiset(b);
  }

  /** The occurrence `RemoveFirst` deletes is the first one. */
  lemma RemoveFirstAt(s: string, c: char, i: nat)
    requires i < |s| && s[i] == c && forall j :: 0 <= j < i ==> s[j] != c
    ensures RemoveFirst(s, c) == s[..i] + s[i + 1..]
  {
    assert FindFrom(s, c, 0) == i;
  }

  /** ASCII upper-casing of one character. */
  function UpperChar(c: char): (u: char)
    ensures 'a' <= c <= 'z' ==> 'A' <= u <= 'Z' && u as int - c as int == 'A' as int - 'a' as int
    ensures !('a' <= c <= 'z') ==> u == c
  {
    if 'a' <= c <= 'z' then (c as int - 'a' as int + 'A' as int) as char else c
  }

  /** Characters matched by the regular-expression class `\w`. */
  predicate IsWordChar(c: char) {
    ('a' <= c <= 'z') || ('A' <= c <= 'Z') || ('0' <= c <= '9') || c == '_'
  }
}
