# User account model (kalmas/rubyFirst)

A Dafny model of the `User` ActiveRecord model in `app/models/user.rb`. The model covers:
- the `name_pretty=` setter, which keeps the case-preserving display name and derives the lower-cased `name` from it;
- the field validations: presence, the two regular expressions, length limits and case-insensitive uniqueness;
- the password rules that `has_secure_password` adds;
- the `save` pipeline: validate, then run the `before_save` hooks (lower-case the email, refresh the remember token), then `create` or `update`;
- the create-only hooks (a verification pass, `verified` reset to false).

Modules:
- `Wrappers`: `Option`, which stands in for Ruby's `nil`.
- `Text`: ASCII `downcase` and `blank?`.
- `Formats`: `VALID_NAME_REGEX` and `VALID_EMAIL_REGEX`.
  - The name regex is written as a character class.
  - The email regex has two forms. The first is a split specification: some `L@D.T` split exists. The second is a deterministic checker that cuts at the first `@` and the last `.`. A lemma proves the two accept the same strings.
- `Users`:
  - `Row`: one stored row of the `users` table.
  - `Store`: the table, holding a sequence of rows. A row's id is its position.
  - `TokenSource`: an abstract stream of random tokens.
  - `User`: a class with the record's attributes as fields. Its methods are the setters, the hooks and `Save`.
  - `Store.Valid()` says two things: no two stored rows share a name or an email, ignoring case; and every stored row passed validation and was lower-cased by the hooks. `Save` preserves it.
- `UserScenarios`: client code that replays the behavioural tests through `Save`, using only the contracts. It shows that a first save leaves the user unverified, and that a name or email already saved in another case makes a new record invalid.

Modelling choices:
- A `nil` attribute is `None`.
- The format and length validators read `nil` as `""`, as Ruby's `to_s` does.
- Uniqueness compares `LOWER(column)` with `LOWER(value)` and skips the record's own row. A `nil` value is looked up with `IS NULL`, so it matches only another `nil`.
- Password hashing is the function `digestOf`, given to the constructor and otherwise left unspecified.
- `SecureRandom.urlsafe_base64` is the stream `TokenSource.draw`. It is assumed to yield 22 URL-safe base64 characters, which is what that call returns for its default 16 bytes.

Behaviour of the code that is easy to get wrong:
- The password length rule applies on every save, not only when a password is set. A record whose transient `password` is nil fails it, because nil has length 0.
- `has_secure_password` replaces the digest whenever a non-blank password is assigned, whether or not it is confirmed. A mismatch only blocks the save.
- A save does not promise a different remember token from the previous one. The new token is the generator's next draw.
- `verified` is set with `0`, so a boolean column stores false. Because the value is not `false`, the callback does not halt the callback chain.

## Model

| member | source | states |
|---|---|---|
| `Text.Downcase` | app/models/user.rb:24 | `downcase` keeps the length and maps each character through ASCII A–Z → a–z, leaving every other character as it is |
| `Text.DowncaseIsLowercase` | app/models/user.rb:28 | what `downcase` returns has no upper-case letter, so the stored email is all lower case |
| `Text.DowncaseFixesExactlyLowercase` | app/models/user.rb:24 | `downcase` leaves a string unchanged if and only if it has no upper-case letter |
| `Text.DowncaseIdempotent` | app/models/user.rb:28 | lower-casing a lower-cased value changes nothing, so comparing by `LOWER` gives the same answer before and after the hook |
| `Text.IsBlank` | app/models/user.rb:34 | `blank?` on a string: empty, or made only of space, tab, LF, VT, FF and CR |
| `Text.DowncaseKeepsBlankness` | app/models/user.rb:28 | lower-casing neither creates nor removes a blank value |
| `Formats.MatchesNameRegex` | app/models/user.rb:33 | VALID_NAME_REGEX: every character is a letter, a digit, `_` or `.`, the empty string included |
| `Formats.MatchesEmailRegex` | app/models/user.rb:39 | VALID_EMAIL_REGEX: the string splits as L@D.T, with L over `[A-Za-z0-9_+\-.]`, D over `[A-Za-z0-9\-.]` and T over letters, all three non-empty |
| `Formats.FirstIndex` | app/models/user.rb:39 | the first `@`: present at the returned position, absent before it, and None only when the string has no `@` |
| `Formats.LastIndex` | app/models/user.rb:39 | the last `.`: present at the returned position, absent after it, and None only when the string has no `.` |
| `Formats.EmailFormatOk` | app/models/user.rb:39 | the regex decided in one pass: the L@D.T split tried at the first `@` and the last `.` |
| `Formats.EmailFormatOkMatchesRegex` | app/models/user.rb:39 | the deterministic check accepts exactly the strings that split as L@D.T: L non-empty over `[A-Za-z0-9_+\-.]`, D non-empty over `[A-Za-z0-9\-.]`, T non-empty letters |
| `Formats.CharClassesIgnoreCase` | app/models/user.rb:33 | under the `i` flag every character class accepts a letter and its lower-case form alike |
| `Formats.NameRegexIgnoresCase` | app/models/user.rb:33 | lower-casing a name does not change whether VALID_NAME_REGEX matches it |
| `Formats.EmailRegexIgnoresCase` | app/models/user.rb:39 | lower-casing an address does not change whether VALID_EMAIL_REGEX matches it, so the stored email still matches |
| `Formats.EmailRegexNotBlank` | app/models/user.rb:39-40 | an address the regex matches is never blank |
| `Formats.NameRegexBlankIsEmpty` | app/models/user.rb:33-34 | for a string of name characters, blank means empty |
| `Formats.BadDomainCharRejects` | app/models/user.rb:39 | a character outside `[a-z\d\-.]` between the only `@` and the only later `.` rejects the address |
| `Formats.ValidEmailExamples` | spec/models/user_spec.rb:127-135 | `user@foo.COM` and `A_US-ER@f.b.org` match |
| `Formats.MoreValidEmailExamples` | spec/models/user_spec.rb:127-135 | `frst.lst@foo.jp` and `a+b@baz.cn` match |
| `Formats.InvalidEmailExamples` | spec/models/user_spec.rb:116-125 | `user@foo,com`, `user_at_foo.org`, `example.user@foo.`, `foo@bar_baz.com` and `foo@bar+baz.com` do not match |
| `Users.Present` | app/models/user.rb:34-43 | `presence: true`: the value is neither nil nor blank |
| `Users.NamePrettyErrors` | app/models/user.rb:33-35 | no error exactly when `name_pretty` is a non-empty string of at most 50 letters, digits, `_` and `.`; nil is reported blank |
| `Users.EmailErrors` | app/models/user.rb:39-40 | no format error exactly when the email is a string matching VALID_EMAIL_REGEX; nil or blank is reported blank |
| `Users.PasswordErrors` | app/models/user.rb:42-43 | no error exactly when the password has 6 or more characters, is not blank, equals its confirmation and has a digest; reports a short password, a blank confirmation and a mismatch |
| `Users.FieldErrors` | app/models/user.rb:33-43 | the rules on single attributes report nothing exactly when name_pretty, email and password are all accepted; never a uniqueness tag; nil name_pretty and a nil or blank email are reported blank |
| `Users.RejectedNamePrettyExamples` | spec/models/user_spec.rb:60-83 | " ", nil, 51 × "a", "kyle almas" and "kyle#" are rejected |
| `Users.AcceptedNamePrettyExamples` | spec/models/user_spec.rb:85-93 | "kyle.almas", "KALMAS1" and "kyle_almas" are accepted |
| `Users.PasswordExamples` | spec/models/user_spec.rb:148-182 | a blank password, a mismatched confirmation, a nil confirmation and a 5-character password are rejected; "foobar" confirmed by "foobar" is accepted |
| `Users.SameKey` | app/models/user.rb:36-41 | `LOWER(column) = LOWER(value)`, or `IS NULL` for a nil value |
| `Users.SameKeyIsEqualIgnoringCase` | app/models/user.rb:36-41 | the comparison holds exactly for two nils, or two strings of equal length whose characters agree up to ASCII case |
| `Users.SameKeyIsEquivalence` | app/models/user.rb:36-41 | the comparison is reflexive, symmetric and transitive |
| `Users.Taken` | app/models/user.rb:36-41 | the uniqueness query: some row other than the record's own holds the value in that column, ignoring case |
| `Users.RecordErrors` | app/models/user.rb:33-43 | all of the rules report nothing exactly when the field rules pass and neither value is taken by another row; the taken tags appear exactly when the lookup finds a row |
| `Users.TakenAfterInsert` | app/models/user.rb:36-41 | after an INSERT a value is taken exactly when it was taken before or the new row, when it is not the record's own, holds it |
| `Users.TakenSkipsOwnRow` | app/models/user.rb:36-41 | in a table without duplicates, a stored record's own name and email are taken by no other row, so re-validating it does not trip uniqueness |
| `Users.TakenIgnoresCase` | app/models/user.rb:40-41 | the email uniqueness check gives the same answer for a value and its lower-cased form |
| `Users.InsertKeepsUnique` | app/models/user.rb:36-41 | inserting a row whose name and email no stored row holds, ignoring case, keeps the table free of duplicates |
| `Users.UpdateKeepsUnique` | app/models/user.rb:36-41 | rewriting a row with a name and email no other row holds keeps the table free of duplicates |
| `Users.UrlSafeTokenPresent` | app/models/user.rb:52 | a generated token is never blank |
| `Users.SavedRowFits` | app/models/user.rb:28-41 | the row a successful save writes passed the name and email rules, has the lower-cased email, a generated remember token, and collides with no other row |
| `Users.TakenIsInvalid` | app/models/user.rb:36-41 | a record is invalid when another stored row holds its name or its email, ignoring case |
| `Users.AuthenticateExactlyPassword` | spec/models/user_spec.rb:163-177 | `authenticate` accepts the password the record was given, and rejects any other candidate whose hash differs from the password's |
| `Users.PasswordRulesInvalid` | app/models/user.rb:42-43 | a record is invalid when its password is under 6 characters, its confirmation is blank or nil, or the two differ |
| `Users.Store.Insert` | app/models/user.rb:30-41 | INSERT appends the row under the next id and keeps the table valid |
| `Users.Store.Update` | app/models/user.rb:36-41 | UPDATE replaces exactly the record's own row and keeps the table valid |
| `Users.TokenSource.Next` | app/models/user.rb:52 | each call hands out the next token of the stream, a URL-safe token |
| `Users.User.constructor` | spec/models/user_spec.rb:22-23 | `User.new` with the four attributes assigns them through their setters: `name` is the lower-cased `name_pretty`, the digest is set for a non-blank password, and the record is new |
| `Users.User.SetNamePretty` | app/models/user.rb:21-26 | stores the value verbatim; a string also sets `name` to its lower-cased form, and nil leaves `name` unchanged |
| `Users.User.SetEmail` | app/models/user.rb:18 | the `email=` writer stores the value verbatim |
| `Users.User.SetPasswordConfirmation` | app/models/user.rb:18 | the `password_confirmation=` writer stores the value verbatim |
| `Users.User.SetVerified` | app/models/user.rb:18 | the `verified=` writer stores the value verbatim |
| `Users.User.SetVerificationPass` | app/models/user.rb:18 | the `verification_pass=` writer stores the value verbatim |
| `Users.User.SetPassword` | app/models/user.rb:19 | stores the password; a non-blank one replaces the digest with its hash, and a blank one keeps the old digest |
| `Users.User.Errors` | app/models/user.rb:33-43 | the errors `valid?` collects on the record, against the rows other than its own: none exactly when every rule passes, a taken tag exactly when the lookup finds a row, and blank tags for a nil name_pretty or a nil or blank email |
| `Users.User.Authenticate` | app/models/user.rb:19 | `authenticate` of `has_secure_password`: the stored digest is the candidate's hash |
| `Users.User.IsValid` | app/models/user.rb:33-43 | `valid?` holds exactly when every field rule passes and neither the name nor the email is held by another row, ignoring case |
| `Users.User.DowncaseEmail` | app/models/user.rb:28 | the email becomes its lower-cased form |
| `Users.User.CreateRememberToken` | app/models/user.rb:51-53 | the remember token becomes the generator's next token |
| `Users.User.CreateVerificationPass` | app/models/user.rb:55-57 | the verification pass becomes the generator's next token |
| `Users.User.MarkUnverified` | app/models/user.rb:31 | `verified` becomes false |
| `Users.User.Create` | app/models/user.rb:30-31 | on first insert, first the verification pass is drawn and `verified` set to false, whatever the caller gave; then the row is appended under the next id and the table stays valid |
| `Users.User.Update` | app/models/user.rb:28-29 | a stored record rewrites only its own row and the table stays valid |
| `Users.User.CreateOrUpdate` | app/models/user.rb:28-31 | after validation: email lower-cased, new remember token, name, name_pretty and password untouched; a new record also gets a verification pass and `verified` false and is appended, while a stored one keeps both and has its row replaced |
| `Users.User.Save` | app/models/user.rb:28-43 | succeeds exactly when the record was valid; a failed save changes nothing; a successful one has the hook effects above, writes the record's row, keeps the table free of duplicates, and the saved password authenticates |

## Left out

- `SecureRandom.urlsafe_base64` internals: tokens come from the abstract stream `TokenSource.draw`. No two draws are claimed to differ.
- bcrypt: `digestOf` is an unspecified deterministic function. bcrypt's random salt is not modelled.
- `authenticate` is modelled as a boolean, where the original returns the record or false. In the model a record with no digest never authenticates.
- ActiveRecord persistence:
  - ids are row positions;
  - timestamps, `find_by_email` and deletion are left out;
  - database-level unique constraints and the race between the uniqueness check and the insert are left out.
- An update writes the whole row. Rails writes only the changed columns, which differs only when two in-memory objects share one stored row.
- The 255-character column limit is not modelled. Rails truncates a value to that limit before the uniqueness query.
- Mass-assignment protection (`attr_accessible`, app/models/user.rb:18) is reflected in the API rather than checked. The record has writers for exactly the six accessible attributes. The constructor takes the four attributes the tests pass to `User.new`, and `verified` and `verification_pass` are assigned through their writers afterwards. A hash naming a protected attribute, which Rails rejects, has no counterpart.
- Direct writes to `name`, `password_digest` and `remember_token` are not modelled, whether through `[]=`, `write_attribute` or the public column writers. Such a write could break `User.Valid()`: `name` would no longer be the lower-cased `name_pretty`, or the digest would no longer be the hash of the current password. `Save`'s promise that the saved password authenticates relies on `User.Valid()`.
- The protected `name=` writer (app/models/user.rb:46-48) has no counterpart: nothing in the class calls it.
- `downcase`, `blank?` and both regexes are restricted to ASCII. Unicode case mapping and Unicode white space are left out.
- Validation errors are a set of rule tags. They are not field-to-message pairs, and `Save` does not keep them on the record.
- Ruby type casting of non-string values assigned to string columns is left out. Attribute values are strings or nil.
- `dup`, used by the tests to copy a record, is not modelled. The scenarios build the copy with the constructor instead.
- spec/models/user_spec.rb and spec/factories.rb are tests and test data. They serve only as the source of the example lemmas and the scenarios.
