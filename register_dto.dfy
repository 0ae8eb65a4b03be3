/** The validation rules of the registration body (`RegisterDto`), checked before `register` runs. */
module RegisterDto {

  datatype RegisterDto = RegisterDto(email: string, username: string, password: string)

  const InvalidEmail := "Email must be a valid email address"
  const UsernameTooShort := "Username must be at least 3 characters long"
  const UsernameTooLong := "Username must be at most 20 characters long"
  const UsernameCharacters := "Username can only contain letters, numbers and underscores"
  const PasswordTooShort := "Password must be at least 6 characters long"

  /** The text-presentation and emoji-presentation variation selectors, U+FE0E and U+FE0F. */
  predicate VariationSelector(c: char) {
    c == '\U{FE0E}' || c == '\U{FE0F}'
  }

  /**
   * The length `MinLength` and `MaxLength` compare against (validator.js `isLength`): one per
   * Unicode code point, so a surrogate pair counts once, and none for a variation selector.
   */
  function ValidatorLength(s: string): nat {
    if s == [] then 0 else (if VariationSelector(s[0]) then 0 else 1) + ValidatorLength(s[1..])
  }

  /** The validator's length never exceeds the number of code points, and equals it without variation selectors. */
  lemma {:induction false} ValidatorLengthAtMost(s: string)
    ensures ValidatorLength(s) <= |s|
    ensures (forall k :: 0 <= k < |s| ==> !VariationSelector(s[k])) ==> ValidatorLength(s) == |s|
  {
    if s != [] {
      ValidatorLengthAtMost(s[1..]);
      assert forall k :: 0 <= k < |s[1..]| ==> s[1..][k] == s[k + 1];
    }
  }

  /** One character of the class `[a-zA-Z0-9_]`. */
  predicate WordChar(c: char) {
    'a' <= c <= 'z' || 'A' <= c <= 'Z' || '0' <= c <= '9' || c == '_'
  }

  /** The pattern `/^[a-zA-Z0-9_]+$/`. */
  predicate MatchesWordPattern(s: string) {
    |s| > 0 && forall k :: 0 <= k < |s| ==> WordChar(s[k])
  }

  /** The messages of the username decorators (`MinLength(3)`, `MaxLength(20)`, `Matches`) that fail. */
  function UsernameErrors(username: string): set<string> {
    (if ValidatorLength(username) < 3 then {UsernameTooShort} else {}) +
    (if ValidatorLength(username) > 20 then {UsernameTooLong} else {}) +
    (if !MatchesWordPattern(username) then {UsernameCharacters} else {})
  }

  /** The message of the password decorator (`MinLength(6)`) if it fails. */
  function PasswordErrors(password: string): set<string> {
    if ValidatorLength(password) < 6 then {PasswordTooShort} else {}
  }

  /** Every failing rule of the body; `isEmail` stands for the `IsEmail` validator. */
  function RegisterErrors(dto: RegisterDto, isEmail: string -> bool): set<string> {
    (if !isEmail(dto.email) then {InvalidEmail} else {}) + UsernameErrors(dto.username) + PasswordErrors(dto.password)
  }

  /** A username is accepted exactly when it has 3 to 20 characters, all from `[a-zA-Z0-9_]`. */
  lemma UsernameRule(username: string)
    ensures UsernameErrors(username) == {} <==>
      3 <= |username| <= 20 && forall k :: 0 <= k < |username| ==> WordChar(username[k])
  {
    ValidatorLengthAtMost(username);
    if !forall k :: 0 <= k < |username| ==> WordChar(username[k]) {
      assert UsernameCharacters in UsernameErrors(username);
    }
  }

  /** A username of fewer than 3 characters is rejected. */
  lemma ShortUsernameRejected(username: string)
    requires |username| < 3
    ensures UsernameErrors(username) != {}
  {
    UsernameRule(username);
  }

  /**
   * A username of more than 20 code points is rejected; without variation selectors the
   * rejection carries the maximum-length message.
   */
  lemma LongUsernameRejected(username: string)
    requires |username| > 20
    ensures UsernameErrors(username) != {}
    ensures (forall k :: 0 <= k < |username| ==> !VariationSelector(username[k])) ==>
      UsernameTooLong in UsernameErrors(username)
  {
    UsernameRule(username);
    ValidatorLengthAtMost(username);
  }

  /** A username with a character outside `[a-zA-Z0-9_]` is rejected, with the character-set message. */
  lemma ForeignCharacterRejected(username: string, k: nat)
    requires k < |username| && !WordChar(username[k])
    ensures UsernameCharacters in UsernameErrors(username)
  {
  }

  /**
   * An accepted password has at least 6 code points; without variation selectors a password is
   * accepted exactly when it has 6 code points or more.
   */
  lemma PasswordRule(password: string)
    ensures PasswordErrors(password) == {} ==> |password| >= 6
    ensures (forall k :: 0 <= k < |password| ==> !VariationSelector(password[k])) ==>
      (PasswordErrors(password) == {} <==> |password| >= 6)
  {
    ValidatorLengthAtMost(password);
  }

  /** The body passes exactly when each of its three fields passes. */
  lemma RegisterRule(dto: RegisterDto, isEmail: string -> bool)
    ensures RegisterErrors(dto, isEmail) == {} <==>
      isEmail(dto.email) && UsernameErrors(dto.username) == {} && PasswordErrors(dto.password) == {}
  {
    if !isEmail(dto.email) {
      assert InvalidEmail in RegisterErrors(dto, isEmail);
    }
  }
}
