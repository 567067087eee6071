/**
 * Client code that drives the User model through the save sequences of its
 * behavioural tests, using only the contracts of Users.
 */
module UserScenarios {
  import opened Wrappers
  import opened Text
  import opened Formats
  import opened Users

  /** A generator that always yields the same URL-safe token. */
  function FixedTokens(n: nat): string { "abcdefghijklmnopqrstuv" }

  lemma FixedTokensAreUrlSafe()
    ensures forall n: nat :: IsUrlSafeToken(FixedTokens(n))
  {
    var t := FixedTokens(0);
    assert forall i :: 0 <= i < |t| ==> IsLetter(t[i]);
  }

  lemma DowncaseLiterals()
    ensures Downcase("Kyle") == "kyle" && Downcase("KYLE") == "kyle" && Downcase("kyle") == "kyle"
    ensures Downcase("K@X.IO") == "k@x.io" && Downcase("k@x.io") == "k@x.io"
  {
    assert DowncaseChar('K') == 'k' && DowncaseChar('Y') == 'y' && DowncaseChar('L') == 'l' && DowncaseChar('E') == 'e';
    assert DowncaseChar('X') == 'x' && DowncaseChar('I') == 'i' && DowncaseChar('O') == 'o';
  }

  lemma AcceptedLiterals()
    ensures NamePrettyAccepted(Some("Kyle")) && NamePrettyAccepted(Some("KYLE")) && NamePrettyAccepted(Some("Bob"))
    ensures EmailAccepted(Some("K@X.IO")) && EmailAccepted(Some("b@y.io"))
    ensures Present(Some("foobar")) && |"foobar"| >= MinPasswordLength
  {
    assert EmailSplitAt("K@X.IO", 1, 3) && EmailSplitAt("b@y.io", 1, 3);
    assert !IsSpace("foobar"[0]);
  }

  /**
   * A first save of a valid new user succeeds, leaves it unverified with a
   * verification pass, stores its email lower-cased, and lets it authenticate.
   */
  method FirstSave(digestOf: string -> string)
    requires !IsBlank(digestOf("foobar"))
  {
    FixedTokensAreUrlSafe();
    var store := new Store();
    var gen := new TokenSource(FixedTokens);
    var user := new User(digestOf, Some("Kyle"), Some("K@X.IO"), Some("foobar"), Some("foobar"));
    assert user.name == Some("kyle") by { DowncaseLiterals(); }
    var saved := user.Save(store, gen);
    assert saved by { AcceptedLiterals(); }
    assert user.verified == Some(false);
    assert user.verificationPass == Some(FixedTokens(1));
    assert user.email == Some("k@x.io") by { DowncaseLiterals(); }
    assert user.Authenticate("foobar");
  }

  /** Once a user whose name differs only in case has been saved, a new user with that name is not valid. */
  method TakenName(digestOf: string -> string)
    requires !IsBlank(digestOf("foobar"))
  {
    FixedTokensAreUrlSafe();
    var store := new Store();
    var gen := new TokenSource(FixedTokens);
    var twin := new User(digestOf, Some("KYLE"), Some("b@y.io"), Some("foobar"), Some("foobar"));
    var saved := twin.Save(store, gen);
    assert saved by { AcceptedLiterals(); }
    assert store.rows == [twin.ToRow()] && twin.name == Some(Downcase("KYLE"));
    var user := new User(digestOf, Some("Kyle"), Some("K@X.IO"), Some("foobar"), Some("foobar"));
    assert store.rows[0].name == Some("kyle") && user.name == Some("kyle") && user.id.None? by { DowncaseLiterals(); }
    TakenIsInvalid(user, store, 0);
    assert !user.IsValid(store);
  }

  /** Once a user whose email differs only in case has been saved, a new user with that email is not valid. */
  method TakenEmail(digestOf: string -> string)
    requires !IsBlank(digestOf("foobar"))
  {
    FixedTokensAreUrlSafe();
    var store := new Store();
    var gen := new TokenSource(FixedTokens);
    var twin := new User(digestOf, Some("Bob"), Some("K@X.IO"), Some("foobar"), Some("foobar"));
    var saved := twin.Save(store, gen);
    assert saved by { AcceptedLiterals(); }
    var user := new User(digestOf, Some("Kyle"), Some("k@x.io"), Some("foobar"), Some("foobar"));
    assert store.rows[0].email == Some("k@x.io") && user.email == Some("k@x.io") && user.id.None? by { DowncaseLiterals(); }
    TakenIsInvalid(user, store, 0);
    assert !user.IsValid(store);
  }
}
