/**
 * The `User` record of app/models/user.rb: the `name_pretty=` setter, the
 * validations, the `before_save` / `before_create` hooks, and the table of
 * stored users the uniqueness checks read and a successful save writes.
 */
module Users {
  import opened Wrappers
  import opened Text
  import opened Formats

  /** One stored row of the `users` table (the persisted columns; id is the row's position). */
  datatype Row = Row(
    name: Option<string>,
    namePretty: Option<string>,
    email: Option<string>,
    passwordDigest: Option<string>,
    rememberToken: Option<string>,
    verified: Option<bool>,
    verificationPass: Option<string>)

  /** The validation failures a `valid?` call can report, one per rule. */
  datatype Error =
    | NamePrettyBlank | NamePrettyInvalid | NamePrettyTooLong | NameTaken
    | EmailBlank | EmailInvalid | EmailTaken
    | PasswordTooShort | PasswordMismatch | PasswordConfirmationBlank | PasswordDigestBlank

  const MaxNameLength := 50
  const MinPasswordLength := 6

  /** Ruby's `to_s`, which the format and length validators apply: nil reads as "". */
  function ToS(v: Option<string>): string {
    if v.Some? then v.value else ""
  }

  /** `presence: true`: the value is neither nil nor blank. */
  predicate Present(v: Option<string>) {
    v.Some? && !IsBlank(v.value)
  }

  /** A non-empty string of at most 50 letters, digits, `_` and `.`. */
  predicate NamePrettyAccepted(v: Option<string>) {
    v.Some? && 0 < |v.value| <= MaxNameLength && MatchesNameRegex(v.value)
  }

  /** A string VALID_EMAIL_REGEX matches. */
  ghost predicate EmailAccepted(v: Option<string>) {
    v.Some? && MatchesEmailRegex(v.value)
  }

  /** A password of 6 or more characters, not all white space, confirmed by an equal string, with a digest. */
  predicate PasswordAccepted(password: Option<string>, confirmation: Option<string>, digest: Option<string>) {
    password.Some? && |password.value| >= MinPasswordLength && !IsBlank(password.value) &&
    confirmation == password && Present(digest)
  }

  /**
   * The rules on `name_pretty`: presence, VALID_NAME_REGEX, at most 50 characters.
   * Together they accept exactly a non-empty string of at most 50 letters,
   * digits, `_` and `.`.
   */
  function NamePrettyErrors(v: Option<string>): (r: set<Error>)
    ensures r == {} <==> NamePrettyAccepted(v)
    ensures v.None? ==> NamePrettyBlank in r
    ensures r <= {NamePrettyBlank, NamePrettyInvalid, NamePrettyTooLong}
  {
    NameRegexBlankIsEmpty(ToS(v));
    (if Present(v) then {} else {NamePrettyBlank}) +
    (if MatchesNameRegex(ToS(v)) then {} else {NamePrettyInvalid}) +
    (if |ToS(v)| <= MaxNameLength then {} else {NamePrettyTooLong})
  }

  /** The format rules on `email`: presence and VALID_EMAIL_REGEX. */
  function EmailErrors(v: Option<string>): (r: set<Error>)
    ensures r == {} <==> EmailAccepted(v)
    ensures !Present(v) ==> EmailBlank in r
    ensures r <= {EmailBlank, EmailInvalid}
  {
    EmailRegexNotBlank(ToS(v));
    EmailFormatOkMatchesRegex(ToS(v));
    (if Present(v) then {} else {EmailBlank}) +
    (if EmailFormatOk(ToS(v)) then {} else {EmailInvalid})
  }

  /**
   * The rules on the password: at least 6 characters (nil counts as ""), a
   * present `password_confirmation`, and, from `has_secure_password`, a
   * confirmation equal to the password whenever one is given, and a present digest.
   */
  function PasswordErrors(password: Option<string>, confirmation: Option<string>, digest: Option<string>): (r: set<Error>)
    ensures r == {} <==> PasswordAccepted(password, confirmation, digest)
    ensures confirmation.Some? && confirmation != password ==> PasswordMismatch in r
    ensures |ToS(password)| < MinPasswordLength ==> PasswordTooShort in r
    ensures !Present(confirmation) ==> PasswordConfirmationBlank in r
    ensures r <= {PasswordTooShort, PasswordConfirmationBlank, PasswordMismatch, PasswordDigestBlank}
  {
    (if |ToS(password)| >= MinPasswordLength then {} else {PasswordTooShort}) +
    (if Present(confirmation) then {} else {PasswordConfirmationBlank}) +
    (if confirmation.None? || confirmation == password then {} else {PasswordMismatch}) +
    (if Present(digest) then {} else {PasswordDigestBlank})
  }

  /** A union of three sets is empty exactly when each of them is. */
  lemma EmptyUnion<T>(a: set<T>, b: set<T>, c: set<T>)
    ensures a + b + c == {} <==> a == {} && b == {} && c == {}
  {
    if a + b + c == {} {
      assert forall x :: x in a ==> x in a + b + c;
    }
  }

  /** The rules on single attributes, leaving out the two uniqueness checks. */
  function FieldErrors(namePretty: Option<string>, email: Option<string>, password: Option<string>,
                       confirmation: Option<string>, digest: Option<string>): (r: set<Error>)
    ensures r == {} <==>
      NamePrettyAccepted(namePretty) && EmailAccepted(email) && PasswordAccepted(password, confirmation, digest)
    ensures NameTaken !in r && EmailTaken !in r
    ensures namePretty.None? ==> NamePrettyBlank in r
    ensures !Present(email) ==> EmailBlank in r
  {
    var n, e, p := NamePrettyErrors(namePretty), EmailErrors(email), PasswordErrors(password, confirmation, digest);
    EmptyUnion(n, e, p);
    n + e + p
  }

  /** Names the rules reject: blank, nil, 51 characters, a space, `#`. */
  lemma RejectedNamePrettyExamples()
    ensures NamePrettyErrors(Some(" ")) != {}
    ensures NamePrettyErrors(None) != {}
    ensures NamePrettyErrors(Some(seq(51, _ => 'a'))) != {}
    ensures NamePrettyErrors(Some("kyle almas")) != {}
    ensures NamePrettyErrors(Some("kyle#")) != {}
  {
    assert !IsNameChar("kyle almas"[4]) && !IsNameChar("kyle#"[4]);
  }

  /** Names the rules accept: letters of either case, digits, `_` and `.`. */
  lemma AcceptedNamePrettyExamples()
    ensures NamePrettyErrors(Some("kyle.almas")) == {}
    ensures NamePrettyErrors(Some("KALMAS1")) == {}
    ensures NamePrettyErrors(Some("kyle_almas")) == {}
  {
  }

  /** Passwords the rules reject: blank, unconfirmed, mismatched, too short; and one they accept. */
  lemma PasswordExamples(digest: string)
    requires !IsBlank(digest)
    ensures PasswordErrors(Some(" "), Some(" "), Some(digest)) != {}
    ensures PasswordErrors(Some("foobar"), Some("mismatch"), Some(digest)) != {}
    ensures PasswordErrors(Some("foobar"), None, Some(digest)) != {}
    ensures PasswordErrors(Some("aaaaa"), Some("aaaaa"), Some(digest)) != {}
    ensures PasswordErrors(Some("foobar"), Some("foobar"), Some(digest)) == {}
  {
    assert !IsSpace("foobar"[0]);
  }

  /**
   * `uniqueness: { case_sensitive: false }` compares LOWER(column) with LOWER(value);
   * a nil value is looked up with IS NULL, so it collides only with nil.
   */
  predicate SameKey(a: Option<string>, b: Option<string>) {
    match (a, b)
    case (Some(x), Some(y)) => Downcase(x) == Downcase(y)
    case (None, None) => true
    case _ => false
  }

  datatype Column = NameColumn | EmailColumn

  function Key(r: Row, c: Column): Option<string> {
    match c
    case NameColumn => r.name
    case EmailColumn => r.email
  }

  /** Some row other than the record's own (`self`, when it is persisted) already holds `v` in column `c`. */
  predicate Taken(rows: seq<Row>, self: Option<nat>, c: Column, v: Option<string>) {
    exists i :: 0 <= i < |rows| && self != Some(i) && SameKey(Key(rows[i], c), v)
  }

  /**
   * Every rule a record with these attributes violates, against the rows
   * other than its own (`self`): the field rules plus the two uniqueness checks.
   */
  function RecordErrors(rows: seq<Row>, self: Option<nat>, namePretty: Option<string>, name: Option<string>,
                        email: Option<string>, password: Option<string>, confirmation: Option<string>,
                        digest: Option<string>): (r: set<Error>)
    ensures r == {} <==>
      NamePrettyAccepted(namePretty) && !Taken(rows, self, NameColumn, name) &&
      EmailAccepted(email) && !Taken(rows, self, EmailColumn, email) &&
      PasswordAccepted(password, confirmation, digest)
    ensures NameTaken in r <==> Taken(rows, self, NameColumn, name)
    ensures EmailTaken in r <==> Taken(rows, self, EmailColumn, email)
    ensures namePretty.None? ==> NamePrettyBlank in r
    ensures !Present(email) ==> EmailBlank in r
  {
    var fields := FieldErrors(namePretty, email, password, confirmation, digest);
    fields +
    (if Taken(rows, self, NameColumn, name) then {NameTaken} else {}) +
    (if Taken(rows, self, EmailColumn, email) then {EmailTaken} else {})
  }

  /** Two strings that differ at most in the case of their ASCII letters. */
  predicate EqualIgnoringCase(s: string, t: string) {
    |s| == |t| && forall i :: 0 <= i < |s| ==> DowncaseChar(s[i]) == DowncaseChar(t[i])
  }

  /** The LOWER comparison is equality up to letter case, and nil matches only nil. */
  lemma SameKeyIsEqualIgnoringCase(a: Option<string>, b: Option<string>)
    ensures SameKey(a, b) <==>
      (a.None? && b.None?) || (a.Some? && b.Some? && EqualIgnoringCase(a.value, b.value))
  {
    if a.Some? && b.Some? && EqualIgnoringCase(a.value, b.value) {
      var x, y := Downcase(a.value), Downcase(b.value);
      assert forall i :: 0 <= i < |x| ==> x[i] == y[i];
    }
  }

  /** The LOWER comparison is an equivalence: reflexive, symmetric and transitive. */
  lemma SameKeyIsEquivalence(a: Option<string>, b: Option<string>, c: Option<string>)
    ensures SameKey(a, a)
    ensures SameKey(a, b) ==> SameKey(b, a)
    ensures SameKey(a, b) && SameKey(b, c) ==> SameKey(a, c)
  {
  }

  /** After an INSERT, a value is taken exactly when it was taken before or the new row holds it. */
  lemma TakenAfterInsert(rows: seq<Row>, r: Row, self: Option<nat>, c: Column, v: Option<string>)
    ensures Taken(rows + [r], self, c, v) <==>
      Taken(rows, self, c, v) || (self != Some(|rows|) && SameKey(Key(r, c), v))
  {
    var rows' := rows + [r];
    if Taken(rows', self, c, v) {
      var i :| 0 <= i < |rows'| && self != Some(i) && SameKey(Key(rows'[i], c), v);
      if i < |rows| {
        assert rows'[i] == rows[i];
      }
    }
    if Taken(rows, self, c, v) {
      var i :| 0 <= i < |rows| && self != Some(i) && SameKey(Key(rows[i], c), v);
      assert rows'[i] == rows[i];
    }
    if self != Some(|rows|) && SameKey(Key(r, c), v) {
      assert rows'[|rows|] == r;
    }
  }

  /** No two stored rows share a name or an email, ignoring case. */
  predicate Unique(rows: seq<Row>) {
    forall i, j :: 0 <= i < |rows| && 0 <= j < |rows| && i != j ==>
      !SameKey(rows[i].name, rows[j].name) && !SameKey(rows[i].email, rows[j].email)
  }

  /** The uniqueness check gives the same answer for a value and its lower-cased form. */
  lemma TakenIgnoresCase(rows: seq<Row>, self: Option<nat>, c: Column, v: string)
    ensures Taken(rows, self, c, Some(Downcase(v))) <==> Taken(rows, self, c, Some(v))
  {
    DowncaseIdempotent(v);
  }

  /** In a unique table, a stored record's own values are taken by no other row. */
  lemma TakenSkipsOwnRow(rows: seq<Row>, k: nat, c: Column)
    requires Unique(rows) && k < |rows|
    ensures !Taken(rows, Some(k), c, Key(rows[k], c))
  {
  }

  /** Inserting a row that neither check finds taken keeps the table unique. */
  lemma InsertKeepsUnique(rows: seq<Row>, r: Row)
    requires Unique(rows)
    requires !Taken(rows, None, NameColumn, r.name) && !Taken(rows, None, EmailColumn, r.email)
    ensures Unique(rows + [r])
  {
    var rows' := rows + [r];
    forall i, j | 0 <= i < |rows'| && 0 <= j < |rows'| && i != j
      ensures !SameKey(rows'[i].name, rows'[j].name) && !SameKey(rows'[i].email, rows'[j].email)
    {
      if i == |rows| {
        assert !SameKey(Key(rows[j], NameColumn), r.name) && !SameKey(Key(rows[j], EmailColumn), r.email);
      } else if j == |rows| {
        assert !SameKey(Key(rows[i], NameColumn), r.name) && !SameKey(Key(rows[i], EmailColumn), r.email);
      }
    }
  }

  /** Overwriting row `k` with a row neither check finds taken by another row keeps the table unique. */
  lemma UpdateKeepsUnique(rows: seq<Row>, k: nat, r: Row)
    requires Unique(rows) && k < |rows|
    requires !Taken(rows, Some(k), NameColumn, r.name) && !Taken(rows, Some(k), EmailColumn, r.email)
    ensures Unique(rows[k := r])
  {
    var rows' := rows[k := r];
    forall i, j | 0 <= i < |rows'| && 0 <= j < |rows'| && i != j
      ensures !SameKey(rows'[i].name, rows'[j].name) && !SameKey(rows'[i].email, rows'[j].email)
    {
      if i == k {
        assert !SameKey(Key(rows[j], NameColumn), r.name) && !SameKey(Key(rows[j], EmailColumn), r.email);
      } else if j == k {
        assert !SameKey(Key(rows[i], NameColumn), r.name) && !SameKey(Key(rows[i], EmailColumn), r.email);
      }
    }
  }

  /** `[A-Za-z0-9_-]`, the alphabet of URL-safe base64 without padding. */
  predicate IsUrlSafeChar(c: char) { IsLetter(c) || IsDigit(c) || c == '-' || c == '_' }

  /** What `SecureRandom.urlsafe_base64` returns for its default 16 random bytes: 22 URL-safe characters. */
  predicate IsUrlSafeToken(t: string) {
    |t| == 22 && forall i :: 0 <= i < |t| ==> IsUrlSafeChar(t[i])
  }

  /** A token the generator hands out is never blank. */
  lemma UrlSafeTokenPresent(t: string)
    requires IsUrlSafeToken(t)
    ensures Present(Some(t))
  {
    assert IsUrlSafeChar(t[0]);
  }

  /** What every stored row satisfies: it passed validation and went through the save hooks. */
  ghost predicate WellFormed(r: Row) {
    NamePrettyAccepted(r.namePretty) && r.name == Some(Downcase(r.namePretty.value)) &&
    EmailAccepted(r.email) && IsLowercase(r.email.value) &&
    r.rememberToken.Some? && IsUrlSafeToken(r.rememberToken.value)
  }

  /**
   * The row a successful save writes fits the table: the record passed
   * validation with email `validated`, and the hooks stored that email
   * lower-cased and a generator token as the remember token.
   */
  lemma SavedRowFits(rows: seq<Row>, self: Option<nat>, r: Row, validated: string)
    requires NamePrettyAccepted(r.namePretty) && r.name == Some(Downcase(r.namePretty.value))
    requires MatchesEmailRegex(validated) && r.email == Some(Downcase(validated))
    requires r.rememberToken.Some? && IsUrlSafeToken(r.rememberToken.value)
    requires !Taken(rows, self, NameColumn, r.name) && !Taken(rows, self, EmailColumn, Some(validated))
    ensures WellFormed(r)
    ensures !Taken(rows, self, NameColumn, r.name) && !Taken(rows, self, EmailColumn, r.email)
  {
    EmailRegexIgnoresCase(validated);
    DowncaseIsLowercase(validated);
    TakenIgnoresCase(rows, self, EmailColumn, validated);
  }

  /** The `users` table. */
  class Store {
    var rows: seq<Row>

    ghost predicate Valid()
      reads this
    {
      Unique(rows) && forall i :: 0 <= i < |rows| ==> WellFormed(rows[i])
    }

    constructor ()
      ensures Valid() && rows == []
    {
      rows := [];
    }

    /** INSERT of a row whose name and email no stored row holds: it gets the next id. */
    method Insert(r: Row) returns (id: nat)
      requires Valid() && WellFormed(r)
      requires !Taken(rows, None, NameColumn, r.name) && !Taken(rows, None, EmailColumn, r.email)
      modifies this
      ensures Valid()
      ensures rows == old(rows) + [r] && id == |old(rows)|
    {
      InsertKeepsUnique(rows, r);
      id := |rows|;
      rows := rows + [r];
    }

    /** UPDATE of the row with id `id`, to a name and email no other row holds. */
    method Update(id: nat, r: Row)
      requires Valid() && WellFormed(r) && id < |rows|
      requires !Taken(rows, Some(id), NameColumn, r.name) && !Taken(rows, Some(id), EmailColumn, r.email)
      modifies this
      ensures Valid()
      ensures rows == old(rows)[id := r]
    {
      UpdateKeepsUnique(rows, id, r);
      rows := rows[id := r];
    }
  }

  /** The random source behind `SecureRandom.urlsafe_base64`: an abstract stream of tokens. */
  class TokenSource {
    const draw: nat -> string
    var drawn: nat

    ghost predicate Valid()
      reads this
    {
      forall n: nat :: IsUrlSafeToken(draw(n))
    }

    constructor (draw: nat -> string)
      requires forall n: nat :: IsUrlSafeToken(draw(n))
      ensures Valid() && this.draw == draw && drawn == 0
    {
      this.draw := draw;
      drawn := 0;
    }

    /** `SecureRandom.urlsafe_base64`: the next token of the stream. */
    method Next() returns (t: string)
      requires Valid()
      modifies this`drawn
      ensures t == draw(old(drawn)) && drawn == old(drawn) + 1
      ensures IsUrlSafeToken(t)
    {
      t := draw(drawn);
      drawn := drawn + 1;
    }
  }

  class User {
    /** The one-way function `has_secure_password` hashes passwords with (bcrypt). */
    const digestOf: string -> string

    /** None while the record is new; the row's id once it is saved. */
    var id: Option<nat>
    var name: Option<string>
    var namePretty: Option<string>
    var email: Option<string>
    /** Not persisted: kept only on the object that was assigned them. */
    var password: Option<string>
    var passwordConfirmation: Option<string>
    var passwordDigest: Option<string>
    var rememberToken: Option<string>
    var verified: Option<bool>
    var verificationPass: Option<string>

    /**
     * What the setters keep true: `name` is the lower-cased `name_pretty`
     * whenever `name_pretty` is a string, and a non-blank password is the one
     * the digest was computed from.
     */
    ghost predicate Valid()
      reads this
    {
      (namePretty.Some? ==> name == Some(Downcase(namePretty.value))) &&
      (Present(password) ==> passwordDigest == Some(digestOf(password.value)))
    }

    /** The persisted columns of this record. */
    function ToRow(): Row
      reads this
    {
      Row(name, namePretty, email, passwordDigest, rememberToken, verified, verificationPass)
    }

    /** `User.new(name_pretty: ..., email: ..., password: ..., password_confirmation: ...)`. */
    constructor (digestOf: string -> string, namePretty: Option<string>, email: Option<string>,
                 password: Option<string>, passwordConfirmation: Option<string>)
      ensures Valid() && this.digestOf == digestOf && id.None?
      ensures this.namePretty == namePretty && this.email == email
      ensures this.password == password && this.passwordConfirmation == passwordConfirmation
      ensures name == if namePretty.Some? then Some(Downcase(namePretty.value)) else None
      ensures passwordDigest == if Present(password) then Some(digestOf(password.value)) else None
      ensures rememberToken.None? && verified.None? && verificationPass.None?
    {
      this.digestOf := digestOf;
      id, name, this.namePretty, this.email := None, None, None, None;
      this.password, this.passwordConfirmation, passwordDigest := None, None, None;
      rememberToken, verified, verificationPass := None, None, None;
      new;
      SetNamePretty(namePretty);
      SetEmail(email);
      SetPassword(password);
      SetPasswordConfirmation(passwordConfirmation);
    }

    /**
     * `name_pretty=`: stores the value as given and, when it responds to
     * `downcase` (a string), sets `name` to its lower-cased form; nil leaves
     * `name` as it was.
     */
    method SetNamePretty(val: Option<string>)
      requires Valid()
      modifies this`namePretty, this`name
      ensures Valid()
      ensures namePretty == val
      ensures name == if val.Some? then Some(Downcase(val.value)) else old(name)
    {
      namePretty := val;
      if val.Some? {
        name := Some(Downcase(val.value));
      }
    }

    method SetEmail(val: Option<string>)
      modifies this`email
      ensures email == val
    {
      email := val;
    }

    /** `password=` of `has_secure_password`: a blank password keeps the old digest. */
    method SetPassword(val: Option<string>)
      requires Valid()
      modifies this`password, this`passwordDigest
      ensures Valid()
      ensures password == val
      ensures passwordDigest == if Present(val) then Some(digestOf(val.value)) else old(passwordDigest)
    {
      password := val;
      if Present(val) {
        passwordDigest := Some(digestOf(val.value));
      }
    }

    method SetPasswordConfirmation(val: Option<string>)
      modifies this`passwordConfirmation
      ensures passwordConfirmation == val
    {
      passwordConfirmation := val;
    }

    method SetVerified(val: Option<bool>)
      modifies this`verified
      ensures verified == val
    {
      verified := val;
    }

    method SetVerificationPass(val: Option<string>)
      modifies this`verificationPass
      ensures verificationPass == val
    {
      verificationPass := val;
    }

    /** Every rule violated by this record against the stored rows other than its own. */
    function Errors(store: Store): (r: set<Error>)
      reads this, store
      ensures r == {} <==>
        NamePrettyAccepted(namePretty) && !Taken(store.rows, id, NameColumn, name) &&
        EmailAccepted(email) && !Taken(store.rows, id, EmailColumn, email) &&
        PasswordAccepted(password, passwordConfirmation, passwordDigest)
      ensures NameTaken in r <==> Taken(store.rows, id, NameColumn, name)
      ensures EmailTaken in r <==> Taken(store.rows, id, EmailColumn, email)
      ensures namePretty.None? ==> NamePrettyBlank in r
      ensures !Present(email) ==> EmailBlank in r
    {
      RecordErrors(store.rows, id, namePretty, name, email, password, passwordConfirmation, passwordDigest)
    }

    /** `valid?`: no rule is violated. */
    predicate IsValid(store: Store)
      reads this, store
      ensures IsValid(store) <==>
        NamePrettyAccepted(namePretty) && !Taken(store.rows, id, NameColumn, name) &&
        EmailAccepted(email) && !Taken(store.rows, id, EmailColumn, email) &&
        PasswordAccepted(password, passwordConfirmation, passwordDigest)
    {
      Errors(store) == {}
    }

    /** `authenticate` of `has_secure_password`: the candidate hashes to the stored digest. */
    predicate Authenticate(candidate: string)
      reads this
    {
      passwordDigest.Some? && digestOf(candidate) == passwordDigest.value
    }

    /** `before_save { |user| user.email = email.downcase }` */
    method DowncaseEmail()
      requires email.Some?
      modifies this`email
      ensures email == Some(Downcase(old(email).value))
    {
      email := Some(Downcase(email.value));
    }

    /** `before_save :create_remember_token` */
    method CreateRememberToken(gen: TokenSource)
      requires gen.Valid()
      modifies this`rememberToken, gen`drawn
      ensures rememberToken == Some(gen.draw(old(gen.drawn))) && gen.drawn == old(gen.drawn) + 1
      ensures IsUrlSafeToken(rememberToken.value)
    {
      var t := gen.Next();
      rememberToken := Some(t);
    }

    /** `before_create :create_verification_pass` */
    method CreateVerificationPass(gen: TokenSource)
      requires gen.Valid()
      modifies this`verificationPass, gen`drawn
      ensures verificationPass == Some(gen.draw(old(gen.drawn))) && gen.drawn == old(gen.drawn) + 1
    {
      var t := gen.Next();
      verificationPass := Some(t);
    }

    /** `before_create { |user| user.verified = 0 }`: 0 is cast to false on a boolean column. */
    method MarkUnverified()
      modifies this`verified
      ensures verified == Some(false)
    {
      verified := Some(false);
    }

    /**
     * What holds once validation has passed and the `before_save` hooks have
     * run: the record was valid with email `validated`, which is now stored
     * lower-cased, and the remember token is a generator token.
     */
    ghost predicate ReadyToWrite(store: Store, validated: string)
      reads this, store
    {
      Valid() && store.Valid() && (id.Some? ==> id.value < |store.rows|) &&
      NamePrettyAccepted(namePretty) && !Taken(store.rows, id, NameColumn, name) &&
      MatchesEmailRegex(validated) && email == Some(Downcase(validated)) &&
      !Taken(store.rows, id, EmailColumn, Some(validated)) &&
      PasswordAccepted(password, passwordConfirmation, passwordDigest) &&
      rememberToken.Some? && IsUrlSafeToken(rememberToken.value)
    }

    /** `create`: the `before_create` hooks (new verification pass, unverified), then INSERT. */
    method Create(store: Store, gen: TokenSource, ghost validated: string)
      requires ReadyToWrite(store, validated) && id.None? && gen.Valid()
      modifies this`verificationPass, this`verified, this`id, store, gen`drawn
      ensures Valid() && store.Valid()
      ensures verificationPass == Some(gen.draw(old(gen.drawn))) && verified == Some(false)
      ensures gen.drawn == old(gen.drawn) + 1
      ensures id == Some(|old(store.rows)|) && store.rows == old(store.rows) + [ToRow()]
    {
      SavedRowFits(store.rows, id, ToRow(), validated);
      CreateVerificationPass(gen);
      MarkUnverified();
      var row := ToRow();
      var newId := store.Insert(row);
      id := Some(newId);
    }

    /** `update`: UPDATE of the record's own row. */
    method Update(store: Store, ghost validated: string)
      requires ReadyToWrite(store, validated) && id.Some?
      modifies store
      ensures store.Valid()
      ensures store.rows == old(store.rows)[id.value := ToRow()]
    {
      var row := ToRow();
      SavedRowFits(store.rows, id, row, validated);
      store.Update(id.value, row);
    }

    /**
     * `create_or_update`, reached once validation has passed: the
     * `before_save` hooks (lower-case the email, new remember token), then
     * `create` for a new record and `update` for a stored one.
     */
    method CreateOrUpdate(store: Store, gen: TokenSource)
      requires Valid() && store.Valid() && gen.Valid()
      requires id.Some? ==> id.value < |store.rows|
      requires NamePrettyAccepted(namePretty) && !Taken(store.rows, id, NameColumn, name)
      requires EmailAccepted(email) && !Taken(store.rows, id, EmailColumn, email)
      requires PasswordAccepted(password, passwordConfirmation, passwordDigest)
      modifies this, store, gen
      ensures Valid() && store.Valid()
      ensures email == Some(Downcase(old(email).value))
      ensures rememberToken == Some(gen.draw(old(gen.drawn)))
      ensures id.Some? && id.value < |store.rows| && store.rows[id.value] == ToRow()
      ensures name == old(name) && namePretty == old(namePretty) && passwordDigest == old(passwordDigest)
      ensures password == old(password) && passwordConfirmation == old(passwordConfirmation)
      ensures old(id).None? ==>
        id == Some(|old(store.rows)|) && store.rows == old(store.rows) + [ToRow()] &&
        verificationPass == Some(gen.draw(old(gen.drawn) + 1)) && verified == Some(false) &&
        gen.drawn == old(gen.drawn) + 2
      ensures old(id).Some? ==>
        id == old(id) && store.rows == old(store.rows)[id.value := ToRow()] &&
        verificationPass == old(verificationPass) && verified == old(verified) &&
        gen.drawn == old(gen.drawn) + 1
    {
      ghost var validated := email.value;
      DowncaseEmail();
      CreateRememberToken(gen);
      if id.None? {
        Create(store, gen, validated);
      } else {
        Update(store, validated);
      }
    }

    /**
     * `save`: `valid?` against the other rows; on failure nothing changes,
     * otherwise `create_or_update` runs the hooks and writes the row.
     */
    method Save(store: Store, gen: TokenSource) returns (saved: bool)
      requires Valid() && store.Valid() && gen.Valid()
      requires id.Some? ==> id.value < |store.rows|
      modifies this, store, gen
      ensures Valid() && store.Valid()
      ensures saved == old(IsValid(store))
      ensures !saved ==> unchanged(this) && unchanged(store) && unchanged(gen)
      ensures saved ==> old(email).Some? && email == Some(Downcase(old(email).value))
      ensures saved ==> rememberToken == Some(gen.draw(old(gen.drawn)))
      ensures saved ==> id.Some? && id.value < |store.rows| && store.rows[id.value] == ToRow()
      ensures saved ==> name == old(name) && namePretty == old(namePretty) && passwordDigest == old(passwordDigest)
      ensures saved ==> password == old(password) && passwordConfirmation == old(passwordConfirmation)
      ensures saved ==> password.Some? && Authenticate(password.value)
      ensures saved && old(id).None? ==>
        id == Some(|old(store.rows)|) && store.rows == old(store.rows) + [ToRow()] &&
        verificationPass == Some(gen.draw(old(gen.drawn) + 1)) && verified == Some(false) &&
        gen.drawn == old(gen.drawn) + 2
      ensures saved && old(id).Some? ==>
        id == old(id) && store.rows == old(store.rows)[id.value := ToRow()] &&
        verificationPass == old(verificationPass) && verified == old(verified) &&
        gen.drawn == old(gen.drawn) + 1
    {
      saved := IsValid(store);
      if saved {
        CreateOrUpdate(store, gen);
      }
    }
  }

  /** A record is invalid when another stored row holds its name or its email, ignoring case. */
  lemma TakenIsInvalid(u: User, store: Store, k: nat)
    requires k < |store.rows| && u.id != Some(k)
    requires SameKey(store.rows[k].name, u.name) || SameKey(store.rows[k].email, u.email)
    ensures !u.IsValid(store)
  {
    assert SameKey(Key(store.rows[k], NameColumn), u.name) || SameKey(Key(store.rows[k], EmailColumn), u.email);
  }

  /**
   * `authenticate` accepts the password the record was given and, when no
   * other candidate hashes to the same digest, nothing else.
   */
  lemma AuthenticateExactlyPassword(u: User, candidate: string)
    requires u.Valid() && Present(u.password)
    requires u.digestOf(candidate) == u.digestOf(u.password.value) ==> candidate == u.password.value
    ensures u.Authenticate(candidate) <==> candidate == u.password.value
  {
  }

  /** A record is invalid when its password is short, or its confirmation is blank or differs from it. */
  lemma PasswordRulesInvalid(u: User, store: Store)
    requires |ToS(u.password)| < MinPasswordLength || !Present(u.passwordConfirmation) ||
             u.passwordConfirmation != u.password
    ensures !u.IsValid(store)
  {
  }
}
