/** The derived names both `analyticOptions` implementations print
    (src/plugins/core/index.ts and src/plugins/core/main.ts):
    `${name?.replace(/((?!\w).)/g, '_')?.toLocaleUpperCase?.()}_VERSION` and
    `${printName}: ${printVersion}`. */
module Naming {
  import opened Results
  import opened Strings

  const SUFFIX := "_VERSION"

  /** What the regular expression `/((?!\w).)/g` leaves of one character: a
      character that is not a word character is replaced by '_', except the
      line terminators, which `.` does not match. */
  function MaskChar(c: char): char
  {
    if IsWordChar(c) || IsLineTerminator(c) then c else '_'
  }

  /** Masking then upper-casing, one character at a time: every character
      is replaced on its own, so a run of several non-word characters
      becomes as many underscores. */
  function Canonical(name: string): (r: string)
    ensures |r| == |name|
    ensures forall i :: 0 <= i < |name| ==> r[i] == UpperChar(MaskChar(name[i]))
  {
    seq(|name|, i requires 0 <= i < |name| => UpperChar(MaskChar(name[i])))
  }

  /** The text a template literal makes of an optional string. */
  function Interpolate(s: Option<string>): string
  {
    match s
    case Some(v) => v
    case None => "undefined"
  }

  /** `printName`: the canonical name followed by `_VERSION`; a missing name
      interpolates as the text "undefined". */
  function PrintName(name: Option<string>): (r: string)
    ensures name.None? ==> r == "undefined_VERSION"
    ensures name.Some? ==> |r| == |name.value| + |SUFFIX| && r[|name.value|..] == SUFFIX
  {
    match name
    case None => "undefined" + SUFFIX
    case Some(n) => Canonical(n) + SUFFIX
  }

  /** Character by character, the print name keeps word characters (ASCII
      letters upper-cased) and line terminators, and turns every other
      character into '_'; no lower-case ASCII letter survives. */
  lemma PrintNameChars(name: string)
    ensures var r := PrintName(Some(name));
      forall i :: 0 <= i < |name| ==>
        && (IsWordChar(r[i]) || IsLineTerminator(r[i]))
        && !('a' <= r[i] <= 'z')
        && (IsWordChar(name[i]) || IsLineTerminator(name[i]) ==> r[i] == UpperChar(name[i]))
        && (!IsWordChar(name[i]) && !IsLineTerminator(name[i]) ==> r[i] == '_')
  {
  }

  /** `printInfo`: the print name, a colon and a space, then the version
      (the text "undefined" when there is none). */
  function PrintInfo(printName: string, printVersion: Option<string>): (r: string)
    ensures |r| >= |printName| + 2 && r[..|printName|] == printName && r[|printName|..|printName| + 2] == ": "
    ensures printVersion.Some? ==> r[|printName| + 2..] == printVersion.value
    ensures printVersion.None? ==> r[|printName| + 2..] == "undefined"
  {
    printName + ": " + Interpolate(printVersion)
  }

  /** A name already in print form is left as it is, so deriving the print
      name from a derived name's stem changes nothing. */
  lemma CanonicalIdempotent(name: string)
    ensures Canonical(Canonical(name)) == Canonical(name)
  {
    forall i | 0 <= i < |name|
      ensures UpperChar(MaskChar(Canonical(name)[i])) == Canonical(name)[i]
    {
    }
  }

  /** Each non-word character is replaced on its own: two dashes become two
      underscores, not one. */
  lemma RunsAreNotCollapsed()
    ensures PrintName(Some("a--b")) == "A__B_VERSION"
  {
    assert Canonical("a--b") == "A__B";
  }

  /** The print name is derived character by character, so it splits over
      concatenation. */
  lemma CanonicalAppend(a: string, b: string)
    ensures Canonical(a + b) == Canonical(a) + Canonical(b)
  {
  }

  /** A scoped package name: '@' and '/' and '-' each become '_'. */
  lemma ScopedNameExample()
    ensures PrintName(Some("@scope/my-package-name")) == "_SCOPE_MY_PACKAGE_NAME_VERSION"
  {
    ScopedNamePieces();
    CanonicalAppend("@scope/", "my-package-name");
    ScopeCanonical();
    PackageCanonical();
  }

  lemma ScopedNamePieces()
    ensures "@scope/my-package-name" == "@scope/" + "my-package-name"
    ensures "_SCOPE_" + "MY_PACKAGE_NAME" + SUFFIX == "_SCOPE_MY_PACKAGE_NAME_VERSION"
  {
  }

  lemma ScopeCanonical()
    ensures Canonical("@scope/") == "_SCOPE_"
  {
  }

  lemma PackageCanonical()
    ensures Canonical("my-package-name") == "MY_PACKAGE_NAME"
  {
  }

  /** The empty name leaves only the suffix. */
  lemma EmptyNameExample()
    ensures PrintName(Some("")) == "_VERSION"
  {
  }

  /** Digits are word characters and stay. */
  lemma DigitsExample()
    ensures PrintName(Some("package123")) == "PACKAGE123_VERSION"
  {
    DigitsCanonical();
  }

  lemma DigitsCanonical()
    ensures Canonical("package123") == "PACKAGE123"
    ensures "PACKAGE123" + SUFFIX == "PACKAGE123_VERSION"
  {
  }

  lemma PrintInfoExample()
    ensures PrintInfo(PrintName(Some("test-app")), Some("v1.0.0")) == "TEST_APP_VERSION: v1.0.0"
  {
    TestAppCanonical();
  }

  lemma TestAppCanonical()
    ensures Canonical("test-app") == "TEST_APP"
    ensures "TEST_APP" + SUFFIX + ": " + "v1.0.0" == "TEST_APP_VERSION: v1.0.0"
  {
  }
}
