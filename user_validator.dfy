/** `updateProfileValidation`: every rule is `optional()`, so a field that is
    missing (undefined) passes; a present field, `null` included, is checked
    through its string view. */
module UserValidator {
  import opened Js
  import opened Http

  const UsernameLength := FieldError("username", "Username must be 3-30 characters")
  const EmailFormat := FieldError("email", "Invalid email format")
  const BioLength := FieldError("bio", "Bio cannot exceed 200 characters")

  /** `optional()` followed by a rule on the string view. */
  predicate OptionalRule(f: Field<string>, ok: bool) {
    f.Undefined? || ok
  }

  /** `isLength({ min: 3, max: 30 })`, with validator.js's count. */
  predicate UsernameOk(f: Field<string>) {
    OptionalRule(f, 3 <= IsLengthCount(StringOf(f)) <= 30)
  }

  /** `isEmail()` is the parameter `isEmail`: its grammar is not modelled. */
  predicate EmailOk(f: Field<string>, isEmail: string -> bool) {
    OptionalRule(f, isEmail(StringOf(f)))
  }

  /** `isLength({ max: 200 })`, with validator.js's count. */
  predicate BioOk(f: Field<string>) {
    OptionalRule(f, IsLengthCount(StringOf(f)) <= 200)
  }

  /** The errors the chain collects, in rule order: each rule reports its own
      error exactly when it fails. */
  function ProfileErrors(b: ProfileBody, isEmail: string -> bool): (errs: seq<FieldError>)
    ensures UsernameLength in errs <==> !b.username.Undefined? && !(3 <= IsLengthCount(StringOf(b.username)) <= 30)
    ensures EmailFormat in errs <==> !b.email.Undefined? && !isEmail(StringOf(b.email))
    ensures BioLength in errs <==> !b.bio.Undefined? && IsLengthCount(StringOf(b.bio)) > 200
    ensures errs == [] <==> UsernameOk(b.username) && EmailOk(b.email, isEmail) && BioOk(b.bio)
  {
    RuleErrors(UsernameOk(b.username), UsernameLength)
    + RuleErrors(EmailOk(b.email, isEmail), EmailFormat)
    + RuleErrors(BioOk(b.bio), BioLength)
  }

  /** An empty body passes, whatever counts as an e-mail address. */
  lemma EmptyBodyPasses(isEmail: string -> bool)
    ensures ProfileErrors(ProfileBody(Undefined, Undefined, Undefined), isEmail) == []
  {
  }

  /** An empty or null bio is present and passes; a null username is present and fails. */
  lemma EmptyBioPassesNullUsernameFails(b: ProfileBody, isEmail: string -> bool)
    requires b.bio in {Present(""), Null} && b.username == Null
    ensures BioLength !in ProfileErrors(b, isEmail) && UsernameLength in ProfileErrors(b, isEmail)
  {
  }

  /** A presentation selector does not count towards a length bound: "ab"
      followed by U+FE0F is still too short a username, and a bio of 200
      letters followed by one is still short enough. */
  lemma SelectorsDoNotCount(b: ProfileBody, isEmail: string -> bool, letters: string)
    requires b.username == Present("ab\U{FE0F}")
    requires |letters| == 200 && forall i :: 0 <= i < 200 ==> letters[i] == 'a'
    requires b.bio == Present(letters + "\U{FE0F}")
    ensures UsernameLength in ProfileErrors(b, isEmail)
    ensures BioLength !in ProfileErrors(b, isEmail)
  {
    assert "ab\U{FE0F}"[1..] == "b\U{FE0F}" && "b\U{FE0F}"[1..] == "\U{FE0F}" && "\U{FE0F}"[1..] == "";
    IsLengthCountWithoutSelectors(letters);
    IsLengthCountAppend(letters, "\U{FE0F}");
  }
}
