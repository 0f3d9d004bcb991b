/** The body of a login request (`LoginUserDto`) and the constraints its
    decorators put on it. */
module LoginValidation {
  import opened Common
  import opened Validators

  datatype LoginBody = LoginBody(email: Field, password: Field)

  datatype LoginUserDto = LoginUserDto(email: string, password: string)

  predicate EmailAccepted(f: Field, emailFormat: string -> bool)
  {
    IsEmail(f, emailFormat) && IsNotEmpty(f)
  }

  predicate PasswordAccepted(f: Field)
  {
    IsString(f) && IsNotEmpty(f) && MinLength(f, 8)
  }

  predicate BodyAccepted(b: LoginBody, emailFormat: string -> bool)
  {
    EmailAccepted(b.email, emailFormat) && PasswordAccepted(b.password)
  }

  /** Validation of a login body against a given email grammar. */
  function Validate(b: LoginBody, emailFormat: string -> bool): (r: Option<LoginUserDto>)
    ensures r.Some? <==>
              && b.email.Str? && b.email.text != "" && emailFormat(b.email.text)
              && b.password.Str? && 8 <= CountedLength(b.password.text)
    ensures r.Some? ==> r.value == LoginUserDto(b.email.text, b.password.text)
  {
    if BodyAccepted(b, emailFormat) then Some(LoginUserDto(b.email.text, b.password.text)) else None
  }

  lemma ShortPasswordRejected(s: string)
    requires CountedLength(s) < 8
    ensures !PasswordAccepted(Str(s))
  {
  }

  /** Eight code points, one a variation selector: the count is 7, so rejected. */
  lemma SelectorPaddedPasswordRejected()
    ensures !PasswordAccepted(Str("abcdefg\U{FE0F}"))
  {
    assert CountedLength("abcdefg\U{FE0F}") == 7;
  }

  lemma EmptyFieldsRejected(emailFormat: string -> bool)
    ensures !PasswordAccepted(Str("")) && !PasswordAccepted(Missing)
    ensures !EmailAccepted(Str(""), emailFormat) && !EmailAccepted(Missing, emailFormat)
  {
  }

  lemma EmailNeedsFormat(f: Field, emailFormat: string -> bool)
    ensures EmailAccepted(f, emailFormat) <==> f.Str? && f.text != "" && emailFormat(f.text)
  {
  }
}
