/** The field rules the Login, Register and Profile forms declare, as
    predicates on the field's text. Each regular expression of the forms is
    given here by what it accepts. Lengths are counted in characters. */
module FormRules {
  import opened Types

  /** A character of JavaScript's `\s` class (ASCII whitespace, the Unicode
      space separators, the line and paragraph separators and U+FEFF). */
  predicate IsSpace(c: char)
  {
    c == ' ' || c == '\t' || c == '\n' || c == '\r' || c == '\U{000B}' || c == '\U{000C}'
    || c == '\U{00A0}' || c == '\U{1680}' || ('\U{2000}' <= c <= '\U{200A}')
    || c == '\U{2028}' || c == '\U{2029}' || c == '\U{202F}' || c == '\U{205F}'
    || c == '\U{3000}' || c == '\U{FEFF}'
  }

  /** A character of the class `[a-zA-Z0-9_]`. */
  predicate IsWordChar(c: char)
  {
    ('a' <= c <= 'z') || ('A' <= c <= 'Z') || ('0' <= c <= '9') || c == '_'
  }

  /** The `required` rule of a text field: the empty string is missing. */
  predicate Present(s: string)
  {
    s != ""
  }

  /** `/^[a-zA-Z0-9_]+$/.test(s)`, read as the anchored expression consumes
      its input: a word character, then either the end or another match. */
  function MatchesHandle(s: string): (ok: bool)
    ensures ok <==> |s| > 0 && forall i :: 0 <= i < |s| ==> IsWordChar(s[i])
  {
    |s| > 0 && IsWordChar(s[0]) && (|s| == 1 || MatchesHandle(s[1..]))
  }

  /** `/\S+@\S+\.\S+/.test(s)`. The expression is not anchored, so it holds
      when SOME part of `s` has that shape: a non-space character just before
      an `@` at `at`, a non-empty run of non-space characters between it and
      a `.` at `dot`, and a non-space character just after that `.`. */
  function MatchesEmail(s: string): (ok: bool)
    ensures ok ==> |s| >= 5 && '@' in s && '.' in s
  {
    exists at, dot :: 0 < at && at + 1 < dot && dot + 1 < |s|
      && EmailShapeAt(s, at, dot)
  }

  /** The characters at `at - 1`, `at`, ..., `dot + 1` read
      non-space `@` non-space-run `.` non-space. */
  predicate EmailShapeAt(s: string, at: int, dot: int)
    requires 0 < at && at + 1 < dot && dot + 1 < |s|
  {
    s[at] == '@' && s[dot] == '.' && !IsSpace(s[at - 1]) && !IsSpace(s[dot + 1])
    && forall k :: at < k < dot ==> !IsSpace(s[k])
  }

  const HandlePatternMessage := "Solo letras, n\U{00FA}meros y guiones bajos"
  const EmailRequiredMessage := "El Email es obligatorio"
  const EmailPatternMessage := "E-mail no v\U{00E1}lido"

  /** The message under a handle field, if any: `required` (whose text each
      form words differently) is checked before the pattern. */
  function HandleError(handle: string, requiredMessage: string): (message: Option<string>)
    requires requiredMessage != HandlePatternMessage
    ensures message.None? <==> MatchesHandle(handle)
    ensures message == Some(requiredMessage) <==> handle == ""
    ensures message == Some(HandlePatternMessage) <==>
              handle != "" && exists i :: 0 <= i < |handle| && !IsWordChar(handle[i])
  {
    if !Present(handle) then Some(requiredMessage)
    else if !MatchesHandle(handle) then Some(HandlePatternMessage)
    else None
  }

  /** The message under an e-mail field, if any (Login and Register word it
      the same): `required`, then the pattern. */
  function EmailError(email: string): (message: Option<string>)
    ensures message.None? <==> MatchesEmail(email)
    ensures message == Some(EmailRequiredMessage) <==> email == ""
    ensures message == Some(EmailPatternMessage) <==> email != "" && !MatchesEmail(email)
  {
    if !Present(email) then Some(EmailRequiredMessage)
    else if !MatchesEmail(email) then Some(EmailPatternMessage)
    else None
  }

  /** Text around an accepted e-mail does not matter: the rule only looks
      for a part of the field with the right shape. */
  lemma EmailIsUnanchored(before: string, s: string, after: string)
    requires MatchesEmail(s)
    ensures MatchesEmail(before + s + after)
  {
    var at, dot :| 0 < at && at + 1 < dot && dot + 1 < |s| && EmailShapeAt(s, at, dot);
    var t := before + s + after;
    var n := |before|;
    assert forall k :: 0 <= k < |s| ==> t[n + k] == s[k];
    assert EmailShapeAt(t, n + at, n + dot);
  }

  /** An accepted e-mail has an `@`, a `.` after it, and at least five characters. */
  lemma EmailHasAtThenDot(s: string)
    requires MatchesEmail(s)
    ensures |s| >= 5
    ensures exists at, dot :: 0 <= at < dot < |s| && s[at] == '@' && s[dot] == '.'
  {
    var at, dot :| 0 < at && at + 1 < dot && dot + 1 < |s| && EmailShapeAt(s, at, dot);
  }

  /** No accepted handle is an accepted e-mail, since `@` is not a word character. */
  lemma HandleIsNeverEmail(s: string)
    requires MatchesHandle(s)
    ensures !MatchesEmail(s)
  {
    forall at, dot | 0 < at && at + 1 < dot && dot + 1 < |s|
      ensures !EmailShapeAt(s, at, dot)
    {
      assert IsWordChar(s[at]);
    }
  }

  /** A plain address is accepted. */
  lemma EmailAcceptsAddress()
    ensures MatchesEmail("ana@mail.com")
  {
    var s := "ana@mail.com";
    assert s[3] == '@' && s[8] == '.' && s[2] == 'a' && s[9] == 'c';
    assert forall k :: 3 < k < 8 ==> s[k] in "mail";
    assert EmailShapeAt(s, 3, 8);
  }

  /** Text around an address is accepted too. */
  lemma EmailAcceptsSurroundedAddress()
    ensures MatchesEmail("see ana@mail.com please")
  {
    var s := "see ana@mail.com please";
    assert s[7] == '@' && s[12] == '.' && s[6] == 'a' && s[13] == 'c';
    assert forall k :: 7 < k < 12 ==> s[k] in "mail";
    assert EmailShapeAt(s, 7, 12);
  }

  /** Strings that are not addresses at all are accepted. */
  lemma EmailAcceptsNonAddresses()
    ensures MatchesEmail("a@..c")
    ensures MatchesEmail("@@@.@")
  {
    assert EmailShapeAt("a@..c", 1, 3);
    assert EmailShapeAt("@@@.@", 1, 3);
  }

  /** Without a `.` after the `@` the field is refused. */
  lemma EmailRefusesNoDot()
    ensures !MatchesEmail("ana@mail")
  {
    var s := "ana@mail";
    forall at, dot | 0 < at && at + 1 < dot && dot + 1 < |s|
      ensures !EmailShapeAt(s, at, dot)
    {
      assert s[dot] != '.';
    }
  }

  /** A space just before the only `@` makes the field refused. */
  lemma EmailRefusesSpaceBeforeAt()
    ensures !MatchesEmail("ana @mail.com")
  {
    var s := "ana @mail.com";
    forall at, dot | 0 < at && at + 1 < dot && dot + 1 < |s|
      ensures !EmailShapeAt(s, at, dot)
    {
      if s[at] == '@' {
        assert at == 4 && IsSpace(s[3]);
      }
    }
  }

  /** The part between `@` and `.` must not be empty. */
  lemma EmailRefusesEmptyDomain()
    ensures !MatchesEmail("ana@.com")
  {
    var s := "ana@.com";
    forall at, dot | 0 < at && at + 1 < dot && dot + 1 < |s|
      ensures !EmailShapeAt(s, at, dot)
    {
      if s[at] == '@' {
        assert at == 3 && s[dot] != '.';
      }
    }
  }

  /** What the handle expression lets through and what it stops. */
  lemma HandleExamples()
    ensures MatchesHandle("dev_tree42")
    ensures !MatchesHandle("")
    ensures !MatchesHandle("dev-tree")
    ensures !MatchesHandle("dev tree")
    ensures !MatchesHandle("a\U{00F1}o")
  {
    assert !IsWordChar("dev-tree"[3]);
    assert !IsWordChar("dev tree"[3]);
    assert !IsWordChar("a\U{00F1}o"[1]);
  }
}
