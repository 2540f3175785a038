/** `registerSchema` (client/src/lib/schemas/registerSchema.ts): an email, a
    display name of 1 to 15 characters and a required password. */
module RegisterSchema {
  import opened SchemaUtil

  datatype RegisterForm = RegisterForm(email: string, displayName: string, password: string)

  /** The length bound of `.max(15)`. */
  const MaxDisplayName := 15

  /** zod's default messages for the email format and the `max` check. */
  const InvalidEmail := Issue("email", "Invalid email address")
  const DisplayNameTooLong := Issue("displayName", "Too big: expected string to have <=15 characters")

  /** The issues a parse of string fields reports, field by field and check by
      check. Whether a string is an email address is zod's own pattern,
      `isEmail` here. */
  function Issues(f: RegisterForm, isEmail: string -> bool): (r: seq<Issue>)
    ensures InvalidEmail in r <==> !isEmail(f.email)
    ensures Issue("displayName", RequiredMessage("displayName")) in r <==> |f.displayName| < 1
    ensures DisplayNameTooLong in r <==> |f.displayName| > MaxDisplayName
    ensures Issue("password", RequiredMessage("password")) in r <==> |f.password| < 1
    ensures |r| <= 3
  {
    (if isEmail(f.email) then [] else [InvalidEmail])
    + RequiredString("displayName", "displayName", f.displayName)
    + (if |f.displayName| > MaxDisplayName then [DisplayNameTooLong] else [])
    + RequiredString("password", "password", f.password)
  }

  /** The form is accepted exactly when the email is one, the display name has
      1 to 15 characters and the password is not empty. */
  lemma ValidIff(f: RegisterForm, isEmail: string -> bool)
    ensures Issues(f, isEmail) == [] <==>
      isEmail(f.email) && 1 <= |f.displayName| <= MaxDisplayName && |f.password| >= 1
  {
    if Issues(f, isEmail) != [] {
      assert Issues(f, isEmail)[0] in Issues(f, isEmail);
    }
  }
}
