/**
 * `validator.isEmail`, the library predicate the login handler uses to reject
 * malformed addresses. Its full grammar is not part of this model; the
 * stand-in demands an '@' with at least one character on either side.
 */
module Validator {

  predicate IsEmail(s: string)
  {
    exists i :: 0 < i < |s| - 1 && s[i] == '@'
  }
}
