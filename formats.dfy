/**
 * The two regular expressions of the User model, written out as character
 * classes and a split, for ASCII input:
 *
 *   VALID_NAME_REGEX  = \A[a-z0-9_\.]*\z                      (case-insensitive)
 *   VALID_EMAIL_REGEX = \A[\w+\-.]+@[a-z\d\-.]+\.[a-z]+\z      (case-insensitive)
 */
module Formats {
  import opened Wrappers
  import opened Text

  /** `[a-z]` under the `i` flag. */
  predicate IsLetter(c: char) { 'a' <= c <= 'z' || 'A' <= c <= 'Z' }

  predicate IsDigit(c: char) { '0' <= c <= '9' }

  /** `[a-z0-9_\.]` under the `i` flag. */
  predicate IsNameChar(c: char) { IsLetter(c) || IsDigit(c) || c == '_' || c == '.' }

  /** `[\w+\-.]`: `\w` is letters, digits and `_`. */
  predicate IsLocalChar(c: char) {
    IsLetter(c) || IsDigit(c) || c == '_' || c == '+' || c == '-' || c == '.'
  }

  /** `[a-z\d\-.]` under the `i` flag. */
  predicate IsDomainChar(c: char) { IsLetter(c) || IsDigit(c) || c == '-' || c == '.' }

  /** The whole string matches VALID_NAME_REGEX. */
  predicate MatchesNameRegex(s: string) {
    forall i :: 0 <= i < |s| ==> IsNameChar(s[i])
  }

  /**
   * `s` reads L@D.T with the `@` at `at` and the `.` that ends the domain at `dot`:
   * L non-empty local characters, D non-empty domain characters, T non-empty letters.
   */
  predicate EmailSplitAt(s: string, at: int, dot: int) {
    0 < at && at + 1 < dot && dot + 1 < |s| && s[at] == '@' && s[dot] == '.' &&
    (forall i :: 0 <= i < at ==> IsLocalChar(s[i])) &&
    (forall i :: at < i < dot ==> IsDomainChar(s[i])) &&
    (forall i :: dot < i < |s| ==> IsLetter(s[i]))
  }

  /** The whole string matches VALID_EMAIL_REGEX: some split into L@D.T exists. */
  ghost predicate MatchesEmailRegex(s: string) {
    exists at, dot :: EmailSplitAt(s, at, dot)
  }

  /** The position of the first `c` in `s`, if any. */
  function FirstIndex(s: string, c: char): (r: Option<nat>)
    ensures r.Some? ==> r.value < |s| && s[r.value] == c
    ensures forall i :: 0 <= i < |s| && s[i] == c ==> r.Some? && r.value <= i
  {
    if s == [] then None
    else if s[0] == c then Some(0)
    else match FirstIndex(s[1..], c)
      case None => None
      case Some(k) => Some(k + 1)
  }

  /** The position of the last `c` in `s`, if any. */
  function LastIndex(s: string, c: char): (r: Option<nat>)
    ensures r.Some? ==> r.value < |s| && s[r.value] == c
    ensures forall i :: 0 <= i < |s| && s[i] == c ==> r.Some? && i <= r.value
  {
    if s == [] then None
    else if s[|s| - 1] == c then Some(|s| - 1)
    else LastIndex(s[..|s| - 1], c)
  }

  /**
   * Deciding the email regex without backtracking: local characters exclude
   * `@` and the top-level label excludes `.`, so the only split worth trying
   * is at the first `@` and the last `.`.
   */
  function EmailFormatOk(s: string): bool {
    match (FirstIndex(s, '@'), LastIndex(s, '.'))
    case (Some(at), Some(dot)) => EmailSplitAt(s, at, dot)
    case _ => false
  }

  /** The deterministic check accepts exactly the strings the regex matches. */
  lemma EmailFormatOkMatchesRegex(s: string)
    ensures EmailFormatOk(s) <==> MatchesEmailRegex(s)
  {
    if MatchesEmailRegex(s) {
      var at, dot :| EmailSplitAt(s, at, dot);
      var first, last := FirstIndex(s, '@'), LastIndex(s, '.');
      assert first == Some(at) && last == Some(dot);
    }
  }

  /** Letters of either case are accepted alike by every character class above. */
  lemma CharClassesIgnoreCase(c: char)
    ensures IsNameChar(DowncaseChar(c)) == IsNameChar(c)
    ensures IsLocalChar(DowncaseChar(c)) == IsLocalChar(c)
    ensures IsDomainChar(DowncaseChar(c)) == IsDomainChar(c)
    ensures IsLetter(DowncaseChar(c)) == IsLetter(c)
    ensures DowncaseChar(c) == '@' <==> c == '@'
    ensures DowncaseChar(c) == '.' <==> c == '.'
  {
  }

  /** The `i` flag: lower-casing a string does not change whether it is a valid name. */
  lemma NameRegexIgnoresCase(s: string)
    ensures MatchesNameRegex(Downcase(s)) <==> MatchesNameRegex(s)
  {
    forall i | 0 <= i < |s| ensures IsNameChar(Downcase(s)[i]) == IsNameChar(s[i]) {
      CharClassesIgnoreCase(s[i]);
    }
  }

  /** The `i` flag: lower-casing a string does not change whether it is a valid email. */
  lemma EmailRegexIgnoresCase(s: string)
    ensures MatchesEmailRegex(Downcase(s)) <==> MatchesEmailRegex(s)
  {
    var d := Downcase(s);
    forall i | 0 <= i < |s|
      ensures IsLocalChar(d[i]) == IsLocalChar(s[i]) && IsDomainChar(d[i]) == IsDomainChar(s[i])
      ensures IsLetter(d[i]) == IsLetter(s[i]) && (d[i] == '@' <==> s[i] == '@') && (d[i] == '.' <==> s[i] == '.')
    {
      CharClassesIgnoreCase(s[i]);
    }
    forall at, dot ensures EmailSplitAt(d, at, dot) == EmailSplitAt(s, at, dot) {
    }
  }

  /** A string the email regex matches is never blank: its first character is a local character. */
  lemma EmailRegexNotBlank(s: string)
    ensures MatchesEmailRegex(s) ==> !IsBlank(s)
  {
    if MatchesEmailRegex(s) {
      var at, dot :| EmailSplitAt(s, at, dot);
      assert IsLocalChar(s[0]);
    }
  }

  /** A non-blank string the name regex matches is a non-empty one, and conversely. */
  lemma NameRegexBlankIsEmpty(s: string)
    ensures MatchesNameRegex(s) ==> (IsBlank(s) <==> s == [])
  {
    if MatchesNameRegex(s) && s != [] {
      assert IsNameChar(s[0]);
    }
  }

  /**
   * An address whose only `@` is at `at` and whose only later `.` is at `dot`
   * is rejected when some character between them is outside the domain class.
   */
  lemma BadDomainCharRejects(s: string, at: nat, bad: nat, dot: nat)
    requires at < bad < dot < |s| && !IsDomainChar(s[bad])
    requires forall i :: 0 <= i < |s| && s[i] == '@' ==> i == at
    requires forall i :: at < i < |s| && s[i] == '.' ==> i == dot
    ensures !MatchesEmailRegex(s)
  {
  }

  /** Addresses the regex accepts, mixed case included. */
  lemma ValidEmailExamples()
    ensures MatchesEmailRegex("user@foo.COM")
    ensures MatchesEmailRegex("A_US-ER@f.b.org")
  {
    assert EmailSplitAt("user@foo.COM", 4, 8);
    assert EmailSplitAt("A_US-ER@f.b.org", 7, 11);
  }

  /** More addresses the regex accepts: dots and `+` in the local part. */
  lemma MoreValidEmailExamples()
    ensures MatchesEmailRegex("frst.lst@foo.jp")
    ensures MatchesEmailRegex("a+b@baz.cn")
  {
    assert EmailSplitAt("frst.lst@foo.jp", 8, 12);
    assert EmailSplitAt("a+b@baz.cn", 3, 7);
  }

  /** Addresses the regex rejects: a comma for the dot, no `@`, an empty top-level label, `_` or `+` in the domain. */
  lemma InvalidEmailExamples()
    ensures !MatchesEmailRegex("user@foo,com")
    ensures !MatchesEmailRegex("user_at_foo.org")
    ensures !MatchesEmailRegex("example.user@foo.")
    ensures !MatchesEmailRegex("foo@bar_baz.com")
    ensures !MatchesEmailRegex("foo@bar+baz.com")
  {
    BadDomainCharRejects("foo@bar_baz.com", 3, 7, 11);
    BadDomainCharRejects("foo@bar+baz.com", 3, 7, 11);
  }
}
