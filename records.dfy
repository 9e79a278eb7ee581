/** The records kept in the `vacun_users` table: user accounts (dependents
    are accounts too), their vaccines and, for medical centres, their health
    professionals; the partial records ("patches") that forms and callers
    pass in; and the shallow merge `{ ...record, ...patch }` that applies
    them. A field the application may leave out is an `Option`. */
module Records {
  import opened Common
  import opened Text

  const ROLE_USER := "user"
  const ROLE_ADMIN := "admin"
  const ROLE_MEDICAL_CENTER := "medical_center"
  /** The acting role the dependent-vaccine wrappers pass to the store. */
  const ACTING_DEPENDENT := "dependent_converted"

  datatype Vaccine = Vaccine(
    id: string,
    vaccineName: string,
    dose: string,
    vaccinationDate: string,
    vaccinationPlace: string,
    healthProfessional: string,
    vaccineLot: string,
    vaccineProofUrl: string)

  datatype Professional = Professional(
    id: string,
    fullName: string,
    documentId: string,
    registrationNumber: string)

  datatype User = User(
    id: string,
    email: Option<string>,
    password: Option<string>,
    documentId: Option<string>,
    firstName: Option<string>,
    lastName: Option<string>,
    birthDate: Option<string>,
    phone: Option<string>,
    country: Option<string>,
    role: Option<string>,
    medicalCenterName: Option<string>,
    relationship: Option<string>,
    createdAt: Option<string>,
    vaccines: Option<seq<Vaccine>>,
    dependents: Option<seq<string>>,
    healthProfessionals: Option<seq<Professional>>,
    isConvertedDependent: bool,
    isDependent: bool,
    mainAccountId: Option<string>)

  /** A partial vaccine: `None` is a key the object does not carry. */
  datatype VaccinePatch = VaccinePatch(
    id: Option<string>,
    vaccineName: Option<string>,
    dose: Option<string>,
    vaccinationDate: Option<string>,
    vaccinationPlace: Option<string>,
    healthProfessional: Option<string>,
    vaccineLot: Option<string>,
    vaccineProofUrl: Option<string>)

  datatype ProfessionalPatch = ProfessionalPatch(
    id: Option<string>,
    fullName: Option<string>,
    documentId: Option<string>,
    registrationNumber: Option<string>)

  /** A partial user record, as passed to `register` and `updateUser`. */
  datatype UserPatch = UserPatch(
    id: Option<string>,
    email: Option<string>,
    password: Option<string>,
    documentId: Option<string>,
    firstName: Option<string>,
    lastName: Option<string>,
    birthDate: Option<string>,
    phone: Option<string>,
    country: Option<string>,
    role: Option<string>,
    medicalCenterName: Option<string>,
    relationship: Option<string>,
    createdAt: Option<string>,
    vaccines: Option<seq<Vaccine>>,
    dependents: Option<seq<string>>,
    healthProfessionals: Option<seq<Professional>>,
    isConvertedDependent: Option<bool>,
    isDependent: Option<bool>,
    mainAccountId: Option<string>)

  function Pick<T>(p: Option<T>, old_: T): T
  {
    if p.Some? then p.value else old_
  }

  const EMPTY_PATCH := UserPatch(None, None, None, None, None, None, None, None, None,
                                 None, None, None, None, None, None, None, None, None, None)

  /** `{ id }`: a record holding nothing but its id. */
  function BareUser(id: string): User
  {
    User(id, None, None, None, None, None, None, None, None, None, None, None, None,
         None, None, None, false, false, None)
  }

  /** `{ ...u, ...p }`: every key the patch carries wins. */
  function MergeUser(u: User, p: UserPatch): User
  {
    User(
      Pick(p.id, u.id),
      Or(p.email, u.email),
      Or(p.password, u.password),
      Or(p.documentId, u.documentId),
      Or(p.firstName, u.firstName),
      Or(p.lastName, u.lastName),
      Or(p.birthDate, u.birthDate),
      Or(p.phone, u.phone),
      Or(p.country, u.country),
      Or(p.role, u.role),
      Or(p.medicalCenterName, u.medicalCenterName),
      Or(p.relationship, u.relationship),
      Or(p.createdAt, u.createdAt),
      Or(p.vaccines, u.vaccines),
      Or(p.dependents, u.dependents),
      Or(p.healthProfessionals, u.healthProfessionals),
      Pick(p.isConvertedDependent, u.isConvertedDependent),
      Pick(p.isDependent, u.isDependent),
      Or(p.mainAccountId, u.mainAccountId))
  }

  function MergeVaccine(v: Vaccine, p: VaccinePatch): Vaccine
  {
    Vaccine(
      Pick(p.id, v.id),
      Pick(p.vaccineName, v.vaccineName),
      Pick(p.dose, v.dose),
      Pick(p.vaccinationDate, v.vaccinationDate),
      Pick(p.vaccinationPlace, v.vaccinationPlace),
      Pick(p.healthProfessional, v.healthProfessional),
      Pick(p.vaccineLot, v.vaccineLot),
      Pick(p.vaccineProofUrl, v.vaccineProofUrl))
  }

  function MergeProfessional(q: Professional, p: ProfessionalPatch): Professional
  {
    Professional(
      Pick(p.id, q.id),
      Pick(p.fullName, q.fullName),
      Pick(p.documentId, q.documentId),
      Pick(p.registrationNumber, q.registrationNumber))
  }

  /** Merging an empty patch changes nothing, and merging the same patch
      twice is the same as merging it once. */
  lemma MergeUserLaws(u: User, p: UserPatch)
    ensures MergeUser(u, EMPTY_PATCH) == u
    ensures MergeUser(MergeUser(u, p), p) == MergeUser(u, p)
    ensures p.id.None? ==> MergeUser(u, p).id == u.id
  {
  }

  /** `${u.firstName} ${u.lastName}`. */
  function FullName(u: User): string
  {
    Display(u.firstName) + " " + Display(u.lastName)
  }

  /** The session copy of a record: `delete copy.password`. */
  function Strip(u: User): (r: User)
    ensures r.password.None?
    ensures r.(password := u.password) == u
  {
    u.(password := None)
  }

  predicate HasId(u: User, id: string)
  {
    u.id == id
  }

  /** `users.findIndex(u => u.id === id)`. */
  function IndexOfId(users: seq<User>, id: string): (i: int)
    ensures -1 <= i < |users|
    ensures i == -1 <==> forall k :: 0 <= k < |users| ==> users[k].id != id
    ensures 0 <= i ==> users[i].id == id && forall k :: 0 <= k < i ==> users[k].id != id
  {
    FirstIndex(users, (u: User) => u.id == id)
  }

  /** Replacing a record by one with the same id moves no id. */
  lemma IndexOfIdUpdate(users: seq<User>, i: int, u: User, id: string)
    requires 0 <= i < |users| && u.id == users[i].id
    ensures IndexOfId(users[i := u], id) == IndexOfId(users, id)
  {
    assert forall k :: 0 <= k < |users| ==> users[i := u][k].id == users[k].id;
  }

  /** `vaccines.findIndex(v => v.id === id)`. */
  function IndexOfVaccine(vs: seq<Vaccine>, id: string): (i: int)
    ensures -1 <= i < |vs|
    ensures i == -1 <==> forall k :: 0 <= k < |vs| ==> vs[k].id != id
    ensures 0 <= i ==> vs[i].id == id && forall k :: 0 <= k < i ==> vs[k].id != id
  {
    FirstIndex(vs, (v: Vaccine) => v.id == id)
  }

  /** `healthProfessionals.findIndex(p => p.id === id)`. */
  function IndexOfProfessional(ps: seq<Professional>, id: string): (i: int)
    ensures -1 <= i < |ps|
    ensures i == -1 <==> forall k :: 0 <= k < |ps| ==> ps[k].id != id
    ensures 0 <= i ==> ps[i].id == id && forall k :: 0 <= k < i ==> ps[k].id != id
  {
    FirstIndex(ps, (q: Professional) => q.id == id)
  }

  /** `users.filter(u => u.id !== id)`. */
  function WithoutUser(users: seq<User>, id: string): (r: seq<User>)
    ensures |r| <= |users|
    ensures forall k :: 0 <= k < |r| ==> r[k].id != id && r[k] in users
    ensures forall k :: 0 <= k < |users| && users[k].id != id ==> users[k] in r
  {
    Filter(users, (u: User) => u.id != id)
  }

  /** `vaccines.filter(v => v.id !== id)`. */
  function WithoutVaccine(vs: seq<Vaccine>, id: string): (r: seq<Vaccine>)
    ensures |r| <= |vs|
    ensures forall k :: 0 <= k < |r| ==> r[k].id != id && r[k] in vs
    ensures forall k :: 0 <= k < |vs| && vs[k].id != id ==> vs[k] in r
  {
    Filter(vs, (v: Vaccine) => v.id != id)
  }

  /** `healthProfessionals.filter(p => p.id !== id)`. */
  function WithoutProfessional(ps: seq<Professional>, id: string): (r: seq<Professional>)
    ensures |r| <= |ps|
    ensures forall k :: 0 <= k < |r| ==> r[k].id != id && r[k] in ps
    ensures forall k :: 0 <= k < |ps| && ps[k].id != id ==> ps[k] in r
  {
    Filter(ps, (q: Professional) => q.id != id)
  }

  /** `ids.filter(x => x !== id)`. */
  function WithoutId(ids: seq<string>, id: string): (r: seq<string>)
    ensures |r| <= |ids|
    ensures id !in r
    ensures forall x :: x in ids && x != id ==> x in r
  {
    Filter(ids, (x: string) => x != id)
  }

  /** Adding a vaccine under an id no vaccine of the list has and then
      deleting that id gives back the list. */
  lemma {:induction false} AddThenRemoveVaccine(vs: seq<Vaccine>, v: Vaccine)
    requires forall k :: 0 <= k < |vs| ==> vs[k].id != v.id
    ensures WithoutVaccine(vs + [v], v.id) == vs
  {
    var p := (x: Vaccine) => x.id != v.id;
    FilterAppend(vs, [v], p);
    FilterAll(vs, p);
    assert Filter([v], p) == [];
  }
}
