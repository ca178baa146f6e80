/**
 * The staff input validator (internal/validator/validate.go).  Go's `len`
 * on a string counts UTF-8 bytes, so both length checks are on `Utf8Len`.
 */
module Validator {
  import opened Wrappers
  import opened Errors
  import opened Strings

  /** The full name is rejected when it is blank or shorter than two bytes. */
  predicate BadFullName(fullName: string)
  {
    AllSpace(fullName) || Utf8Len(fullName) < 2
  }

  /**
   * `ValidateCreateStaffInput`: the name first, then the phone number,
   * whose length in bytes must be 10 or 11; its characters are not looked
   * at.
   */
  function ValidateCreateStaffInput(fullName: string, phone: string): (r: Option<Error>)
    ensures r == Some(InvalidFullName) <==> BadFullName(fullName)
    ensures r == Some(InvalidPhoneNumber) <==> !BadFullName(fullName) && !(10 <= Utf8Len(phone) <= 11)
    ensures r.None? <==> !BadFullName(fullName) && 10 <= Utf8Len(phone) <= 11
  {
    if TrimSpace(fullName) == "" || Utf8Len(fullName) < 2 then Some(InvalidFullName)
    else if Utf8Len(phone) < 10 || Utf8Len(phone) > 11 then Some(InvalidPhoneNumber)
    else None
  }

  /**
   * The phone number's content is not checked; a single letter that takes
   * two bytes is a long enough name; a name of spaces is not.
   */
  lemma ValidatorExamples()
    ensures ValidateCreateStaffInput("Al", "not-digits") == None
    ensures ValidateCreateStaffInput("é", "0123456789") == None
    ensures ValidateCreateStaffInput("A", "0123456789") == Some(InvalidFullName)
    ensures ValidateCreateStaffInput("   ", "0123456789") == Some(InvalidFullName)
    ensures ValidateCreateStaffInput("   ", "1") == Some(InvalidFullName)
    ensures ValidateCreateStaffInput("Al", "012345678901") == Some(InvalidPhoneNumber)
  {
    assert AllSpace("   ");
    assert !IsSpace("Al"[0]);
    assert !IsSpace("é"[0]);
  }
}
