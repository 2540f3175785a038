/** The part of FluentValidation the server relies on: a failure record and
    the `NotEmpty` test on strings. */
module Validation {

  /** A `ValidationFailure` with the two properties the application reads. */
  datatype ValidationFailure = ValidationFailure(propertyName: string, errorMessage: string)

  /** `char.IsWhiteSpace`, restricted to the Latin-1 range. */
  predicate IsWhiteSpace(c: char) {
    c == ' ' || c == '\t' || c == '\n' || c == '\r' || c == '\U{000B}' || c == '\U{000C}'
    || c == '\U{0085}' || c == '\U{00A0}'
  }

  /** `NotEmpty()` on a string: it holds a character other than white space. */
  predicate NotBlank(s: string) {
    exists i :: 0 <= i < |s| && !IsWhiteSpace(s[i])
  }
}
