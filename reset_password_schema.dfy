/** `resetPasswordSchema` (client/src/lib/schemas/resetPasswordSchema.ts):
    two required strings and a refinement that they match. */
module ResetPasswordSchema {
  import opened SchemaUtil

  datatype ResetPasswordForm = ResetPasswordForm(newPassword: string, confirmPassword: string)

  const Mismatch := Issue("confirmPassword", "Passwords must match")

  /** The issues a parse of string fields reports: the fields in order, then the refinement. */
  function Issues(f: ResetPasswordForm): (r: seq<Issue>)
    ensures Issue("newPassword", RequiredMessage("newPassword")) in r <==> |f.newPassword| < 1
    ensures Issue("confirmPassword", RequiredMessage("confirmPassword")) in r <==> |f.confirmPassword| < 1
    ensures Mismatch in r <==> f.newPassword != f.confirmPassword
    ensures |r| <= 3
  {
    RequiredString("newPassword", "newPassword", f.newPassword)
    + RequiredString("confirmPassword", "confirmPassword", f.confirmPassword)
    + (if f.newPassword != f.confirmPassword then [Mismatch] else [])
  }

  /** The form is accepted exactly when both fields are filled in and equal. */
  lemma ValidIff(f: ResetPasswordForm)
    ensures Issues(f) == [] <==> |f.newPassword| >= 1 && f.newPassword == f.confirmPassword
  {
    if Issues(f) != [] {
      assert Issues(f)[0] in Issues(f);
    }
  }

  /** An empty pair is reported twice as missing but never as a mismatch. */
  lemma EmptyPairIsNotAMismatch()
    ensures Issues(ResetPasswordForm("", "")) ==
      [Issue("newPassword", RequiredMessage("newPassword")), Issue("confirmPassword", RequiredMessage("confirmPassword"))]
  {
  }
}
