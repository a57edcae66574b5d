/** The monolith's user schemas: profile update and password change, with the password policy. */
module UserSchemas {
  import opened Wrappers
  import opened Failures
  import opened Domain
  import opened SchemaChecks

  /** The fields of a profile-update body, each possibly absent. */
  datatype UpdateUserBody = UpdateUserBody(name: Option<string>, email: Option<string>, role: Option<string>)

  /** What a valid profile update carries into the service. */
  datatype UserPatch = UserPatch(name: Option<string>, email: Option<string>, role: Option<Role>)

  const NameTooShort := "Name must be at least 2 characters!"
  const BadEmail := "Invalid email format!"

  /** The field rules of the profile update, stated on their own: every field optional, any given field valid. */
  predicate UpdateUserAccepted(b: UpdateUserBody, fmt: Formats) {
    && (b.name.Some? ==> |b.name.value| >= 2)
    && (b.email.Some? ==> fmt.isEmail(b.email.value))
    && (b.role.Some? ==> b.role.value in {"USER", "ADMIN"})
  }

  function UpdateUserIssues(b: UpdateUserBody, fmt: Formats): seq<Issue> {
    (if b.name.Some? then Flag(|b.name.value| >= 2, "name", NameTooShort) else [])
    + (if b.email.Some? then Flag(fmt.isEmail(b.email.value), "email", BadEmail) else [])
    + (if b.role.Some? then Flag(ParseRole(b.role.value).Some?, "role", InvalidEnum) else [])
  }

  /** `updateUserSchema.parse`: the body is accepted exactly when every given field obeys its rule. */
  function ParseUpdateUser(b: UpdateUserBody, fmt: Formats): (r: Result<UserPatch, Failure>)
    ensures r.Ok? <==> UpdateUserAccepted(b, fmt)
    ensures r.Ok? ==> r.value.name == b.name && r.value.email == b.email
    ensures r.Ok? ==> (r.value.role.Some? <==> b.role.Some?)
    ensures r.Ok? && b.role.Some? ==> RoleName(r.value.role.value) == b.role.value
    ensures r.Err? ==> r.error.Invalid? && r.error.issues != []
    ensures b.name.Some? && |b.name.value| < 2 ==> r.Err? && Issue(["name"], NameTooShort) in r.error.issues
  {
    var issues := UpdateUserIssues(b, fmt);
    if issues == [] then
      Ok(UserPatch(b.name, b.email, if b.role.Some? then ParseRole(b.role.value) else None))
    else
      Err(Invalid(issues))
  }

  /** A body parses to the update that changes nothing iff it supplies no field; the empty body is accepted. */
  lemma EmptyUpdateAccepted(body: UpdateUserBody, fmt: Formats)
    ensures ParseUpdateUser(body, fmt) == Ok(UserPatch(None, None, None)) <==> body == UpdateUserBody(None, None, None)
    ensures ParseUpdateUser(UpdateUserBody(None, None, None), fmt) == Ok(UserPatch(None, None, None))
  {
  }

  predicate IsUpper(c: char) { 'A' <= c <= 'Z' }
  predicate IsLower(c: char) { 'a' <= c <= 'z' }
  predicate IsDigitChar(c: char) { '0' <= c <= '9' }

  predicate HasUpper(s: string) { exists i :: 0 <= i < |s| && IsUpper(s[i]) }
  predicate HasLower(s: string) { exists i :: 0 <= i < |s| && IsLower(s[i]) }
  predicate HasDigit(s: string) { exists i :: 0 <= i < |s| && IsDigitChar(s[i]) }

  /** The password policy: at least 8 characters, with an upper-case letter, a lower-case letter and a digit. */
  predicate StrongPassword(p: string) {
    |p| >= 8 && HasUpper(p) && HasLower(p) && HasDigit(p)
  }

  const CurrentRequired := "Current password is required!"
  const PasswordTooShort := "Password must be at least 8 characters!"
  const PasswordNoUpper := "Password must contain at least one uppercase letter!"
  const PasswordNoLower := "Password must contain at least one lowercase letter!"
  const PasswordNoDigit := "Password must contain at least one number!"

  datatype ChangePasswordBody = ChangePasswordBody(currentPassword: Option<string>, newPassword: Option<string>)
  datatype ChangePasswordInput = ChangePasswordInput(currentPassword: string, newPassword: string)

  /** Every rule the new password breaks is reported, in the order the schema lists them. */
  function NewPasswordIssues(p: string): seq<Issue> {
    Flag(|p| >= 8, "newPassword", PasswordTooShort)
    + Flag(HasUpper(p), "newPassword", PasswordNoUpper)
    + Flag(HasLower(p), "newPassword", PasswordNoLower)
    + Flag(HasDigit(p), "newPassword", PasswordNoDigit)
  }

  function ChangePasswordIssues(b: ChangePasswordBody): seq<Issue> {
    (if b.currentPassword.None? then Missing("currentPassword")
     else Flag(|b.currentPassword.value| >= 1, "currentPassword", CurrentRequired))
    + (if b.newPassword.None? then Missing("newPassword") else NewPasswordIssues(b.newPassword.value))
  }

  /**
   * The issues of a new password are empty exactly when it meets the policy, each names the
   * `newPassword` field, and each broken rule is reported once, in the schema's order.
   */
  lemma {:induction false} PasswordIssuesMatchPolicy(p: string)
    ensures NewPasswordIssues(p) == [] <==> StrongPassword(p)
    ensures forall i :: 0 <= i < |NewPasswordIssues(p)| ==> NewPasswordIssues(p)[i].path == ["newPassword"]
    ensures |NewPasswordIssues(p)| == (if |p| >= 8 then 0 else 1) + (if HasUpper(p) then 0 else 1)
                                      + (if HasLower(p) then 0 else 1) + (if HasDigit(p) then 0 else 1)
  {
  }

  /** `changePasswordSchema.parse`: accepted iff the current password is non-empty and the new one is strong. */
  function ParseChangePassword(b: ChangePasswordBody): (r: Result<ChangePasswordInput, Failure>)
    ensures r.Ok? <==>
      b.currentPassword.Some? && b.currentPassword.value != "" && b.newPassword.Some? && StrongPassword(b.newPassword.value)
    ensures r.Ok? ==> r.value == ChangePasswordInput(b.currentPassword.value, b.newPassword.value)
    ensures r.Err? ==> r.error.Invalid? && r.error.issues != []
    ensures b.newPassword.Some? && !HasUpper(b.newPassword.value) ==> r.Err? && Issue(["newPassword"], PasswordNoUpper) in r.error.issues
    ensures b.newPassword.Some? && !HasDigit(b.newPassword.value) ==> r.Err? && Issue(["newPassword"], PasswordNoDigit) in r.error.issues
  {
    var issues := ChangePasswordIssues(b);
    if issues == [] then Ok(ChangePasswordInput(b.currentPassword.value, b.newPassword.value)) else Err(Invalid(issues))
  }

  /** "Password1" meets the policy; "password1" (no upper case) and "Pass1" (too short) do not. */
  lemma PasswordPolicyExamples()
    ensures StrongPassword("Password1")
    ensures !StrongPassword("password1")
    ensures !StrongPassword("Pass1")
  {
    assert IsUpper("Password1"[0]) && IsLower("Password1"[1]) && IsDigitChar("Password1"[8]);
    assert !HasUpper("password1") by {
      forall i | 0 <= i < |"password1"| ensures !IsUpper("password1"[i]) {
      }
    }
  }
}
