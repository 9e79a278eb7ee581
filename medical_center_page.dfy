/** The medical-centre page, `src/pages/MedicalCenterPage.jsx`: the patient
    list and its search, patient creation, vaccine registration on behalf of
    a patient, and the centre's health-professional form. The logged-in
    centre is the parameter `center`. */
module MedicalCenterPage {
  import opened Common
  import opened Text
  import opened Records
  import opened AuthStore
  import opened AdminPage
  import opened CreateUserModal
  import opened ProtectedRoute

  /** A record the page lists as a patient. */
  predicate IsPatient(u: User)
  {
    u.role == Some(ROLE_USER)
  }

  /** `{ ...u, vaccines: u.vaccines || [] }`. */
  function WithVaccines(u: User): User
  {
    u.(vaccines := Some(OrEmpty(u.vaccines)))
  }

  /** `loadData`: the patients among the stored records. */
  function Patients(stored: seq<User>): (r: seq<User>)
    ensures |r| == Count(stored, IsPatient)
    ensures forall k :: 0 <= k < |r| ==> IsPatient(r[k]) && r[k].vaccines.Some?
    ensures forall k :: 0 <= k < |r| ==> exists j :: 0 <= j < |stored| && r[k] == WithVaccines(stored[j])
  {
    Map(Filter(stored, IsPatient), WithVaccines)
  }

  /** The patient list is the administrator's loaded table with everyone
      but the role-`user` records dropped, in the same order. */
  lemma PatientsAreLoadedUsers(stored: seq<User>)
    ensures Patients(stored) == Filter(LoadData(stored), IsPatient)
    ensures IsSubsequence(Patients(stored), LoadData(stored))
  {
    assert LoadData(stored) == Map(stored, WithVaccines);
    FilterMapCommute(stored, IsPatient, WithVaccines);
    FilterIsSubsequence(LoadData(stored), IsPatient);
  }

  /** One patient against the search term, or `None` where the filter
      throws: `u.email.toLowerCase()` and `u.documentId.includes` are
      reached without a guard when the earlier alternatives fail. The role
      is not consulted. */
  function PatientMatch(u: User, term: string): Option<bool>
  {
    var q := Lower(term);
    if Includes(Lower(FullName(u)), q) then Some(true)
    else if u.email.None? then None
    else if Includes(Lower(u.email.value), q) then Some(true)
    else if u.documentId.None? then None
    else if Includes(u.documentId.value, term) then Some(true)
    else Some(Truthy(u.country) && Includes(Lower(u.country.value), q))
  }

  /** The patient search: the matches in order, or `None` when the filter
      throws on some patient. */
  function PatientSearch(patients: seq<User>, term: string): (r: Option<seq<User>>)
    ensures r.None? <==> exists k :: 0 <= k < |patients| && PatientMatch(patients[k], term).None?
    ensures r.Some? ==> IsSubsequence(r.value, patients)
    ensures r.Some? ==> forall k :: 0 <= k < |r.value| ==> PatientMatch(r.value[k], term) == Some(true)
    ensures r.Some? ==> forall k :: 0 <= k < |patients| && PatientMatch(patients[k], term) == Some(true) ==>
      patients[k] in r.value
    ensures r.Some? ==>
      forall x :: multiset(r.value)[x] == if PatientMatch(x, term) == Some(true) then multiset(patients)[x] else 0
  {
    var p := (u: User) => PatientMatch(u, term) == Some(true);
    if exists k :: 0 <= k < |patients| && PatientMatch(patients[k], term).None? then None
    else
      FilterIsSubsequence(patients, p);
      FilterMultiset(patients, p);
      Some(Filter(patients, p))
  }

  /** The role never decides a match, and the document id is compared as
      typed: a term in other letter case matches it only through another field. */
  lemma SearchIgnoresRole(u: User, term: string, role: Option<string>)
    ensures PatientMatch(u.(role := role), term) == PatientMatch(u, term)
  {
  }

  /** An empty term keeps every patient. */
  lemma {:induction false} EmptyTermKeepsAllPatients(patients: seq<User>)
    ensures PatientSearch(patients, "") == Some(patients)
  {
    assert Lower("") == "";
    forall k | 0 <= k < |patients|
      ensures PatientMatch(patients[k], "") == Some(true)
    {
      IncludesEmpty(Lower(FullName(patients[k])));
    }
    FilterAll(patients, (u: User) => PatientMatch(u, "") == Some(true));
  }

  /** The patient-creation guard: the same five fields as the administrator's
      form, and no medical-centre name. */
  predicate CanCreatePatient(f: UserForm)
  {
    f.email != "" && f.password != "" && f.firstName != "" && f.documentId != "" && f.country != ""
  }

  /** `{ ...newUserForm, role: 'user' }`. */
  function PatientData(f: UserForm): (p: UserPatch)
    ensures p.role == Some(ROLE_USER) && p.medicalCenterName.None?
    ensures p.email == Some(f.email) && p.documentId == Some(f.documentId) && p.country == Some(f.country)
    ensures OpensSession(p)
  {
    DataToRegister(f.(role := ROLE_USER))
  }

  /** `handleCreateUser`. The store's `register` replaces the session with
      the new patient, because the role it is given is `user`. */
  method HandleCreatePatient(s: Store, f: UserForm, freshId: string, now: string) returns (r: CreateResult)
    requires s.Valid()
    modifies s
    ensures s.Valid()
    ensures r.CreateRejected? <==> !CanCreatePatient(f)
    ensures r.CreateRejected? || r.CreateFailed? ==> s.users == old(s.users) && s.session == old(s.session)
    ensures CanCreatePatient(f) ==>
      (r.Created? <==> !EmailTaken(old(s.users), PatientData(f)) && !DocumentTaken(old(s.users), PatientData(f)))
    ensures r.CreateFailed? ==>
      r.error == if EmailTaken(old(s.users), PatientData(f)) then DuplicateEmail else DuplicateDocument
    ensures r.Created? ==>
      s.users == old(s.users) + [NewAccount(PatientData(f), freshId, now)]
      && s.users[|s.users| - 1].role == Some(ROLE_USER)
      && s.session == Some(Strip(NewAccount(PatientData(f), freshId, now)))
  {
    if !CanCreatePatient(f) {
      return CreateRejected;
    }
    var result := s.Register(PatientData(f), freshId, now);
    if result.Err? {
      return CreateFailed(result.error);
    }
    return Created(result.value);
  }

  /** What the as-written creation does to the centre: the session now
      holds the new patient, whom the guard of `/medical-center` sends to
      `/dashboard`. */
  lemma CreatedPatientTakesOverSession(f: UserForm, freshId: string, now: string)
    ensures var patient := Strip(NewAccount(PatientData(f), freshId, now));
      OpensSession(PatientData(f))
      && patient.role == Some(ROLE_USER)
      && Guard(false, Some(patient), LandingRoles("/medical-center")) == Redirect("/dashboard")
  {
  }

  /** Patient creation as the page evidently means it: the same guard and
      the same new record, but the centre stays logged in. */
  method HandleCreatePatientKeepingSession(s: Store, f: UserForm, freshId: string, now: string)
    returns (r: CreateResult)
    requires s.Valid()
    modifies s
    ensures s.Valid()
    ensures s.session == old(s.session)
    ensures r.CreateRejected? <==> !CanCreatePatient(f)
    ensures !r.Created? ==> s.users == old(s.users)
    ensures CanCreatePatient(f) ==>
      (r.Created? <==> !EmailTaken(old(s.users), PatientData(f)) && !DocumentTaken(old(s.users), PatientData(f)))
    ensures r.CreateFailed? ==>
      r.error == if EmailTaken(old(s.users), PatientData(f)) then DuplicateEmail else DuplicateDocument
    ensures r.Created? ==>
      s.users == old(s.users) + [NewAccount(PatientData(f), freshId, now)]
      && s.users[|s.users| - 1].role == Some(ROLE_USER)
      && r.user == Strip(NewAccount(PatientData(f), freshId, now))
  {
    if !CanCreatePatient(f) {
      return CreateRejected;
    }
    var result := s.AppendAccount(PatientData(f), freshId, now);
    if result.Err? {
      return CreateFailed(result.error);
    }
    return Created(result.value);
  }

  /** `openAddVaccineModal`: an empty vaccine whose place is the centre's
      name, or empty. */
  function NewVaccineDraft(center: Option<User>): (v: Vaccine)
    ensures v.vaccinationPlace == (if center.Some? && Truthy(center.value.medicalCenterName)
                                   then center.value.medicalCenterName.value else "")
    ensures v.vaccineName == "" && v.dose == "" && v.vaccinationDate == "" && v.healthProfessional == ""
    ensures v.vaccineLot == "" && v.vaccineProofUrl == ""
  {
    var place := if center.Some? && Truthy(center.value.medicalCenterName) then center.value.medicalCenterName.value else "";
    Vaccine("", "", "", "", place, "", "", "")
  }

  /** `handleSaveVaccine`: the vaccine is added with acting role
      `medical_center`, so the session is never refreshed; on success a
      single-vaccine certificate is requested for the patient, looked up in
      the list the page loaded before the save. */
  method HandleSaveVaccine(s: Store, patients: seq<User>, userId: string, v: Vaccine, freshId: string)
    returns (certificate: Option<(User, seq<Vaccine>)>)
    requires s.Valid()
    modifies s
    ensures s.Valid()
    ensures s.session == old(s.session)
    ensures var i := IndexOfId(old(s.users), userId);
      s.users == if i == -1 then old(s.users)
                 else old(s.users)[i := old(s.users)[i].(vaccines := Some(OrEmpty(old(s.users)[i].vaccines) + [v.(id := freshId)]))]
    ensures certificate.Some? <==> IndexOfId(old(s.users), userId) != -1 && IndexOfId(patients, userId) != -1
    ensures certificate.Some? ==>
      certificate.value == (patients[IndexOfId(patients, userId)], [v.(id := freshId)])
  {
    var r := s.AddVaccineToUser(userId, v, freshId, ROLE_MEDICAL_CENTER);
    certificate := None;
    if r.Ok? {
      var j := IndexOfId(patients, userId);
      if j != -1 {
        certificate := Some((patients[j], [r.value]));
      }
    }
  }

  /** The health-professional form. */
  datatype ProfessionalForm = ProfessionalForm(fullName: string, documentId: string, registrationNumber: string)

  predicate ProfessionalComplete(f: ProfessionalForm)
  {
    f.fullName != "" && f.documentId != "" && f.registrationNumber != ""
  }

  /** The record handed to the store, before it assigns the id. */
  function ProfessionalOf(f: ProfessionalForm): Professional
  {
    Professional("", f.fullName, f.documentId, f.registrationNumber)
  }

  /** The three form fields as a patch; the id is kept. */
  function ProfessionalPatchOf(f: ProfessionalForm): (p: ProfessionalPatch)
    ensures forall q :: MergeProfessional(q, p) == Professional(q.id, f.fullName, f.documentId, f.registrationNumber)
  {
    ProfessionalPatch(None, Some(f.fullName), Some(f.documentId), Some(f.registrationNumber))
  }

  datatype ProfessionalOutcome = ProfessionalRejected | ProfessionalFailed(error: StoreError) | ProfessionalSaved

  /** `handleSaveProfessional`: rejected unless all three fields are filled;
      then an update of the professional being edited, or an addition. */
  method HandleSaveProfessional(s: Store, center: User, editing: Option<Professional>, f: ProfessionalForm, freshId: string)
    returns (r: ProfessionalOutcome)
    requires s.Valid()
    modifies s
    ensures s.Valid()
    ensures r.ProfessionalRejected? <==> !ProfessionalComplete(f)
    ensures !r.ProfessionalSaved? ==> s.users == old(s.users) && s.session == old(s.session)
    ensures ProfessionalComplete(f) && editing.None? ==>
      var i := FirstIndex(old(s.users), (u: User) => MedicalCenter(u, center.id));
      (r.ProfessionalSaved? <==> i != -1)
      && (i != -1 ==>
            s.users == old(s.users)[i := old(s.users)[i].(healthProfessionals :=
              Some(OrEmpty(old(s.users)[i].healthProfessionals) + [ProfessionalOf(f).(id := "prof-" + freshId)]))]
            && s.session == Refreshed(old(s.session), s.users, i, true))
    ensures ProfessionalComplete(f) && editing.Some? ==>
      var i := FirstIndex(old(s.users), (u: User) => MedicalCenter(u, center.id));
      (r.ProfessionalSaved? <==>
        i != -1 && old(s.users)[i].healthProfessionals.Some?
        && IndexOfProfessional(old(s.users)[i].healthProfessionals.value, editing.value.id) != -1)
      && (r.ProfessionalSaved? ==>
        var ps := old(s.users)[i].healthProfessionals.value;
        var j := IndexOfProfessional(ps, editing.value.id);
        s.users == old(s.users)[i := old(s.users)[i].(healthProfessionals :=
          Some(ps[j := Professional(ps[j].id, f.fullName, f.documentId, f.registrationNumber)]))]
        && s.session == Refreshed(old(s.session), s.users, i, true))
  {
    if !ProfessionalComplete(f) {
      return ProfessionalRejected;
    }
    var result;
    if editing.Some? {
      result := s.UpdateHealthProfessional(center.id, editing.value.id, ProfessionalPatchOf(f));
    } else {
      var added := s.AddHealthProfessional(center.id, ProfessionalOf(f), freshId);
      result := if added.Ok? then Ok(()) else Err(added.error);
    }
    if result.Err? {
      return ProfessionalFailed(result.error);
    }
    return ProfessionalSaved;
  }
}
