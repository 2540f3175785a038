/** `changePasswordSchema` (client/src/lib/schemas/changePasswordSchema.ts):
    three required strings and a refinement that the new password is confirmed. */
module ChangePasswordSchema {
  import opened SchemaUtil

  datatype ChangePasswordForm = ChangePasswordForm(currentPassword: string, newPassword: string, confirmPassword: string)

  const Mismatch := Issue("confirmPassword", "Passwords must match")

  /** The issues a parse of string fields reports, in zod's order: the fields in
      declaration order, then the refinement, which still runs after a
      too-short field since those issues do not abort the parse. */
  function Issues(f: ChangePasswordForm): (r: seq<Issue>)
    ensures Issue("currentPassword", RequiredMessage("currentPassword")) in r <==> |f.currentPassword| < 1
    ensures Issue("newPassword", RequiredMessage("newPassword")) in r <==> |f.newPassword| < 1
    ensures Issue("confirmPassword", RequiredMessage("confirmPassword")) in r <==> |f.confirmPassword| < 1
    ensures Mismatch in r <==> f.newPassword != f.confirmPassword
    ensures |r| <= 4
  {
    RequiredString("currentPassword", "currentPassword", f.currentPassword)
    + RequiredString("newPassword", "newPassword", f.newPassword)
    + RequiredString("confirmPassword", "confirmPassword", f.confirmPassword)
    + (if f.newPassword != f.confirmPassword then [Mismatch] else [])
  }

  /** The form is accepted exactly when the three fields are filled in and the confirmation matches. */
  lemma ValidIff(f: ChangePasswordForm)
    ensures Issues(f) == [] <==>
      |f.currentPassword| >= 1 && |f.newPassword| >= 1 && |f.confirmPassword| >= 1
      && f.newPassword == f.confirmPassword
  {
    if Issues(f) != [] {
      assert Issues(f)[0] in Issues(f);
    }
  }

  /** Nothing stops the new password from being the current one. */
  lemma ReusingThePasswordIsAccepted(p: string)
    requires |p| >= 1
    ensures Issues(ChangePasswordForm(p, p, p)) == []
  {
    ValidIff(ChangePasswordForm(p, p, p));
  }
}
