/** The create-user form of `src/pages/AdminPage/CreateUserModal.jsx`. The
    admin page (`src/pages/AdminPage.jsx`) runs the same guard and the same
    stripping on a form of the same shape. */
module CreateUserModal {
  import opened Common
  import opened Text
  import opened Records
  import opened AuthStore

  /** The form state: every field is a string, empty until typed in. */
  datatype UserForm = UserForm(
    firstName: string,
    lastName: string,
    email: string,
    password: string,
    documentId: string,
    birthDate: string,
    phone: string,
    role: string,
    country: string,
    medicalCenterName: string)

  const EMPTY_FORM := UserForm("", "", "", "", "", "", "", ROLE_USER, "", "")

  /** The required-field guard. */
  predicate CanCreate(f: UserForm)
  {
    f.email != "" && f.password != "" && f.firstName != "" && f.documentId != "" && f.country != ""
    && !(f.role == ROLE_MEDICAL_CENTER && f.medicalCenterName == "")
  }

  /** `{ ...form }` without `medicalCenterName` unless the role is a medical
      centre. */
  function DataToRegister(f: UserForm): (p: UserPatch)
    ensures p.medicalCenterName.Some? <==> f.role == ROLE_MEDICAL_CENTER
    ensures p.medicalCenterName.Some? ==> p.medicalCenterName.value == f.medicalCenterName
    ensures p.email == Some(f.email) && p.password == Some(f.password) && p.documentId == Some(f.documentId)
    ensures p.role == Some(f.role) && p.country == Some(f.country) && p.firstName == Some(f.firstName)
    ensures p.lastName == Some(f.lastName) && p.birthDate == Some(f.birthDate) && p.phone == Some(f.phone)
    ensures p.relationship.None? && p.createdAt.None? && p.isDependent.None?
    ensures p.id.None? && p.vaccines.None? && p.dependents.None? && p.healthProfessionals.None?
    ensures p.isConvertedDependent.None? && p.mainAccountId.None?
  {
    EMPTY_PATCH.(
      firstName := Some(f.firstName),
      lastName := Some(f.lastName),
      email := Some(f.email),
      password := Some(f.password),
      documentId := Some(f.documentId),
      birthDate := Some(f.birthDate),
      phone := Some(f.phone),
      role := Some(f.role),
      country := Some(f.country),
      medicalCenterName := if f.role == ROLE_MEDICAL_CENTER then Some(f.medicalCenterName) else None)
  }

  datatype CreateOutcome = Rejected | Submitted(data: UserPatch)

  /** `handleCreate`: reject, or hand the stripped data to `onCreate`. */
  function HandleCreate(f: UserForm): (o: CreateOutcome)
    ensures o.Rejected? <==> !CanCreate(f)
    ensures o.Submitted? ==> o.data == DataToRegister(f)
  {
    if CanCreate(f) then Submitted(DataToRegister(f)) else Rejected
  }

  /** The form after `onCreate` answered: reset only on success. */
  function FormAfter(f: UserForm, success: bool): (g: UserForm)
    ensures success ==> g == EMPTY_FORM && g.role == ROLE_USER
    ensures !success ==> g == f
  {
    if success then EMPTY_FORM else f
  }

  /** A form that passes the guard registers exactly the typed email and,
      when a role is chosen, exactly that role; a medical centre keeps its
      non-empty name and receives an empty professional list. */
  lemma SubmittedFormRegistersAsTyped(f: UserForm, freshId: string, now: string)
    requires CanCreate(f)
    ensures var account := NewAccount(DataToRegister(f), freshId, now);
      && account.email == Some(f.email)
      && account.documentId == Some(f.documentId)
      && account.password == Some(f.password)
      && (f.role != "" ==> account.role == Some(f.role))
      && (f.role == ROLE_MEDICAL_CENTER ==>
            account.medicalCenterName == Some(f.medicalCenterName) && f.medicalCenterName != ""
            && account.healthProfessionals == Some([]))
      && (f.role != ROLE_MEDICAL_CENTER ==> account.medicalCenterName.None?)
  {
  }
}
