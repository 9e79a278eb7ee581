/** The self-registration form, `src/pages/RegisterPage.jsx`: three checks
    in a fixed order, then `register` with everything but the confirmation. */
module RegisterPage {
  import opened Common
  import opened Text
  import opened Records
  import opened AuthStore

  datatype RegisterForm = RegisterForm(
    firstName: string,
    lastName: string,
    email: string,
    password: string,
    confirmPassword: string,
    documentId: string,
    birthDate: string,
    phone: string,
    country: string)

  const MIN_PASSWORD_LENGTH := 6

  datatype FormError = PasswordsDoNotMatch | PasswordTooShort | CountryRequired

  /** The first failing check, in the page's order. */
  function Validate(f: RegisterForm): (e: Option<FormError>)
    ensures e == Some(PasswordsDoNotMatch) <==> f.password != f.confirmPassword
    ensures e == Some(PasswordTooShort) <==> f.password == f.confirmPassword && |f.password| < MIN_PASSWORD_LENGTH
    ensures e == Some(CountryRequired) <==>
      f.password == f.confirmPassword && |f.password| >= MIN_PASSWORD_LENGTH && f.country == ""
    ensures e.None? <==>
      f.password == f.confirmPassword && |f.password| >= MIN_PASSWORD_LENGTH && f.country != ""
  {
    if f.password != f.confirmPassword then Some(PasswordsDoNotMatch)
    else if |f.password| < MIN_PASSWORD_LENGTH then Some(PasswordTooShort)
    else if f.country == "" then Some(CountryRequired)
    else None
  }

  /** `const { confirmPassword, ...registrationData } = formData`: the
      patch has no place for the confirmation, and no role. */
  function RegistrationData(f: RegisterForm): (p: UserPatch)
    ensures p.email == Some(f.email) && p.password == Some(f.password) && p.documentId == Some(f.documentId)
    ensures p.firstName == Some(f.firstName) && p.lastName == Some(f.lastName) && p.country == Some(f.country)
    ensures p.birthDate == Some(f.birthDate) && p.phone == Some(f.phone)
    ensures p.role.None? && p.id.None? && p.isConvertedDependent.None? && p.mainAccountId.None?
    ensures OpensSession(p)
  {
    EMPTY_PATCH.(
      firstName := Some(f.firstName),
      lastName := Some(f.lastName),
      email := Some(f.email),
      password := Some(f.password),
      documentId := Some(f.documentId),
      birthDate := Some(f.birthDate),
      phone := Some(f.phone),
      country := Some(f.country))
  }

  datatype SubmitOutcome =
    | Invalid(error: FormError)
    | RegisterFailed(reason: StoreError)
    /** Then on to `/dashboard`. */
    | Registered(user: User)

  /** `handleSubmit`: the store is called only when every check passes, and
      a successful registration logs the new user in. */
  method HandleSubmit(s: Store, f: RegisterForm, freshId: string, now: string) returns (r: SubmitOutcome)
    requires s.Valid()
    modifies s
    ensures s.Valid()
    ensures r.Invalid? <==> Validate(f).Some?
    ensures r.Invalid? ==> Some(r.error) == Validate(f)
    ensures !r.Registered? ==> s.users == old(s.users) && s.session == old(s.session)
    ensures Validate(f).None? ==>
      (r.Registered? <==> !EmailTaken(old(s.users), RegistrationData(f)) && !DocumentTaken(old(s.users), RegistrationData(f)))
    ensures r.RegisterFailed? ==>
      r.reason == if EmailTaken(old(s.users), RegistrationData(f)) then DuplicateEmail else DuplicateDocument
    ensures r.Registered? ==>
      var account := NewAccount(RegistrationData(f), freshId, now);
      s.users == old(s.users) + [account]
      && r.user == Strip(account) && s.session == Some(r.user)
      && account.password == Some(f.password) && |f.password| >= MIN_PASSWORD_LENGTH
  {
    var e := Validate(f);
    if e.Some? {
      return Invalid(e.value);
    }
    var result := s.Register(RegistrationData(f), freshId, now);
    if result.Err? {
      return RegisterFailed(result.error);
    }
    return Registered(result.value);
  }

  /** A visitor who signs up with the administrator's address, while no
      record has it, is given the administrator role. */
  lemma AdminAddressSignsUpAsAdmin(f: RegisterForm, freshId: string, now: string)
    requires f.email == ADMIN_EMAIL
    ensures NewAccount(RegistrationData(f), freshId, now).role == Some(ROLE_ADMIN)
  {
    AdminEmailRegistersAdmin(RegistrationData(f));
  }
}
