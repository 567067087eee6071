/**
 * The two string helpers the validators and hooks of the User model rely on,
 * restricted to ASCII: Ruby's `String#downcase` and ActiveSupport's `blank?`.
 */
module Text {

  /** The ASCII characters of the POSIX `[[:space:]]` class `blank?` tests: space, tab, LF, VT, FF and CR. */
  predicate IsSpace(c: char) {
    c == ' ' || c == '\t' || c == '\n' || c == '\U{B}' || c == '\U{C}' || c == '\r'
  }

  /** `blank?` on a string: empty, or white space only. */
  predicate IsBlank(s: string) {
    forall i :: 0 <= i < |s| ==> IsSpace(s[i])
  }

  predicate IsUpper(c: char) { 'A' <= c <= 'Z' }

  /** `downcase` on one character: A-Z become a-z, every other character is kept. */
  function DowncaseChar(c: char): char {
    if IsUpper(c) then (c as int - 'A' as int + 'a' as int) as char else c
  }

  /** `String#downcase`, ASCII only. */
  function Downcase(s: string): (r: string)
    ensures |r| == |s|
    ensures forall i :: 0 <= i < |s| ==> r[i] == DowncaseChar(s[i])
  {
    if s == [] then [] else [DowncaseChar(s[0])] + Downcase(s[1..])
  }

  /** A string `downcase` leaves as it is: no upper-case letter in it. */
  predicate IsLowercase(s: string) {
    forall i :: 0 <= i < |s| ==> !IsUpper(s[i])
  }

  /** What `downcase` returns has no upper-case letter left. */
  lemma DowncaseIsLowercase(s: string)
    ensures IsLowercase(Downcase(s))
  {
  }

  /** `downcase` changes a string exactly when it holds an upper-case letter. */
  lemma DowncaseFixesExactlyLowercase(s: string)
    ensures Downcase(s) == s <==> IsLowercase(s)
  {
    if Downcase(s) == s {
      forall i | 0 <= i < |s| ensures !IsUpper(s[i]) {
        assert Downcase(s)[i] == DowncaseChar(s[i]);
      }
    }
  }

  /** Lower-casing twice is lower-casing once. */
  lemma DowncaseIdempotent(s: string)
    ensures Downcase(Downcase(s)) == Downcase(s)
  {
    DowncaseIsLowercase(s);
    DowncaseFixesExactlyLowercase(Downcase(s));
  }

  /** `downcase` never turns a non-blank string blank, nor a blank one non-blank. */
  lemma DowncaseKeepsBlankness(s: string)
    ensures IsBlank(Downcase(s)) <==> IsBlank(s)
  {
  }
}
