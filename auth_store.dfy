/** The record store of `src/contexts/AuthContext.jsx`: the `vacun_users`
    table and the session mirror `vacun_user` (one record of the table with
    its password removed). Every operation reads the table, finds a record
    by id, merges, appends or filters, writes the table back and refreshes
    the session when the session user is affected. Ids and timestamps that
    the source takes from the clock are parameters here. */
module AuthStore {
  import opened Common
  import opened Text
  import opened Records

  /** The failures the store reports. `VaccineListMissing` and
      `ProfessionalListMissing` stand for the TypeError the source throws
      when it calls `findIndex`/`filter` on a record that has no such list;
      the table is left as it was in those cases too. */
  datatype StoreError =
    | InvalidCredentials
    | DuplicateEmail
    | DuplicateDocument
    | UserNotFound
    | VaccineNotFound
    | VaccineListMissing
    | DependentNotFound
    | DependentNotDeleted
    | MedicalCenterNotFound
    | ProfessionalNotFound
    | ProfessionalListMissing

  datatype Result<T> = Ok(value: T) | Err(error: StoreError)

  /** What `addDependentToUser` returns on success. */
  datatype DependentCreated = DependentCreated(user: User, tempPassword: string)

  const EMAIL_DOMAIN := "@vacun.org"
  const ADMIN_EMAIL := "admin@vacun.org"

  /** `generateTemporaryPassword`: a fixed, reproducible scheme. */
  function TemporaryPassword(documentId: string): (p: string)
    ensures StartsWith(p, "vacun") && p[5..] == documentId
  {
    "vacun" + documentId
  }

  /** The `login` match: email or document id, and exactly the password. */
  predicate Credentials(u: User, identifier: string, password: string)
  {
    (u.email == Some(identifier) || u.documentId == Some(identifier)) && u.password == Some(password)
  }

  predicate EmailTaken(users: seq<User>, data: UserPatch)
  {
    Truthy(data.email) && exists k :: 0 <= k < |users| && users[k].email == data.email
  }

  /** Two missing document ids compare equal, as `undefined === undefined`. */
  predicate DocumentTaken(users: seq<User>, data: UserPatch)
  {
    exists k :: 0 <= k < |users| && users[k].documentId == data.documentId
  }

  /** The role `register` stores. */
  function AccountRole(data: UserPatch): string
  {
    if Truthy(data.role) then data.role.value
    else if data.email == Some(ADMIN_EMAIL) then ROLE_ADMIN
    else ROLE_USER
  }

  /** The email `register` stores. */
  function AccountEmail(data: UserPatch): string
  {
    if Truthy(data.email) then data.email.value else Display(data.documentId) + EMAIL_DOMAIN
  }

  /** The record `register` appends: `{ id, ...data, email, role, createdAt,
      vaccines: [], dependents: [], healthProfessionals, isConvertedDependent,
      mainAccountId }`. */
  function NewAccount(data: UserPatch, freshId: string, now: string): User
  {
    MergeUser(BareUser(freshId), data).(
      email := Some(AccountEmail(data)),
      role := Some(AccountRole(data)),
      createdAt := Some(now),
      vaccines := Some([]),
      dependents := Some([]),
      healthProfessionals := if data.role == Some(ROLE_MEDICAL_CENTER) then Some([]) else None,
      isConvertedDependent := data.isConvertedDependent == Some(true),
      mainAccountId := if Truthy(data.mainAccountId) then data.mainAccountId else None)
  }

  /** `register` replaces the session unless the SUPPLIED role is a medical
      centre or admin, or the data marks a converted dependent. */
  predicate OpensSession(data: UserPatch)
  {
    data.role != Some(ROLE_MEDICAL_CENTER) && data.role != Some(ROLE_ADMIN)
    && data.isConvertedDependent != Some(true)
  }

  /** Vaccine operations refresh the session only for these acting roles. */
  predicate RefreshesSession(actingRole: string)
  {
    actingRole == ROLE_USER || actingRole == ACTING_DEPENDENT
  }

  /** `users.findIndex(u => u.id === updatedUserData.id)`: a patch without an
      id matches no record. */
  function IndexOfPatch(users: seq<User>, id: Option<string>): (i: int)
    ensures -1 <= i < |users|
    ensures i == -1 <==> id.None? || forall k :: 0 <= k < |users| ==> users[k].id != id.value
    ensures 0 <= i ==> Some(users[i].id) == id
  {
    if id.None? then -1 else IndexOfId(users, id.value)
  }

  /** The record `updateDependentForUser` looks for. */
  predicate DependentOf(u: User, dependentId: string, mainUserId: string)
  {
    u.id == dependentId && u.mainAccountId == Some(mainUserId)
  }

  /** The record the health-professional operations look for. */
  predicate MedicalCenter(u: User, id: string)
  {
    u.id == id && u.role == Some(ROLE_MEDICAL_CENTER)
  }

  /** The data `addDependentToUser` registers. */
  function DependentAccountData(mainUserId: string, dep: UserPatch): UserPatch
  {
    dep.(email := Some(Display(dep.documentId) + EMAIL_DOMAIN),
         password := Some(TemporaryPassword(Display(dep.documentId))),
         role := Some(ROLE_USER),
         isConvertedDependent := Some(true),
         mainAccountId := Some(mainUserId),
         dependents := Some([]))
  }

  /** The table after appending `depId` to the main account's `dependents`. */
  function Linked(users: seq<User>, mainUserId: string, depId: string): seq<User>
  {
    var i := IndexOfId(users, mainUserId);
    if i == -1 then users
    else users[i := users[i].(dependents := Some(OrEmpty(users[i].dependents) + [depId]))]
  }

  /** The table after removing `depId` from the main account's `dependents`. */
  function Unlinked(users: seq<User>, mainUserId: string, depId: string): seq<User>
  {
    var i := IndexOfId(users, mainUserId);
    if i == -1 then users
    else users[i := users[i].(dependents := Some(WithoutId(OrEmpty(users[i].dependents), depId)))]
  }

  /** The session after the record at `i` changed, when the refresh rule fires. */
  function Refreshed(session: Option<User>, users: seq<User>, i: int, fires: bool): Option<User>
    requires 0 <= i < |users|
  {
    if fires && session.Some? && session.value.id == users[i].id then Some(Strip(users[i])) else session
  }

  /** An account `register` appends can log in with its document id and
      the password it was registered with. */
  lemma RegisteredAccountCanLogIn(users: seq<User>, data: UserPatch, freshId: string, now: string)
    requires data.documentId.Some? && data.password.Some?
    ensures var table := users + [NewAccount(data, freshId, now)];
      exists k :: 0 <= k < |table| && Credentials(table[k], data.documentId.value, data.password.value)
  {
    var table := users + [NewAccount(data, freshId, now)];
    assert Credentials(table[|users|], data.documentId.value, data.password.value);
  }

  /** The account `addDependentToUser` registers: a plain user, marked as a
      converted dependent of the main account, reachable by the generated
      email or the document id with the temporary password, and it never
      takes over the session. */
  lemma DependentAccountShape(mainUserId: string, dep: UserPatch, freshId: string, now: string)
    ensures var data := DependentAccountData(mainUserId, dep);
      var account := NewAccount(data, freshId, now);
      var temp := TemporaryPassword(Display(dep.documentId));
      && account.role == Some(ROLE_USER)
      && account.isConvertedDependent
      && account.mainAccountId == (if mainUserId != "" then Some(mainUserId) else None)
      && account.email == Some(Display(dep.documentId) + EMAIL_DOMAIN)
      && Credentials(account, Display(dep.documentId) + EMAIL_DOMAIN, temp)
      && (dep.documentId.Some? ==> Credentials(account, dep.documentId.value, temp))
      && account.vaccines == Some([]) && account.dependents == Some([])
      && account.healthProfessionals.None?
      && !OpensSession(data)
  {
  }

  /** Registering `admin@vacun.org` without a role creates an administrator,
      and since only the SUPPLIED role is checked, it also opens a session. */
  lemma AdminEmailRegistersAdmin(data: UserPatch)
    requires data.email == Some(ADMIN_EMAIL) && data.role.None? && data.isConvertedDependent != Some(true)
    ensures AccountRole(data) == ROLE_ADMIN && OpensSession(data)
  {
  }

  class Store {
    var users: seq<User>
    var session: Option<User>

    /** The session mirror never carries a password. */
    ghost predicate Valid()
      reads this
    {
      session.Some? ==> session.value.password.None?
    }

    predicate IsSessionUser(id: string)
      reads this
    {
      session.Some? && session.value.id == id
    }

    /** Loading the stored table and the saved session (AuthContext.jsx:21-27). */
    constructor (stored: seq<User>, saved: Option<User>)
      requires saved.Some? ==> saved.value.password.None?
      ensures Valid() && users == stored && session == saved
    {
      users := stored;
      session := saved;
    }

    method Login(identifier: string, password: string) returns (r: Result<User>)
      requires Valid()
      modifies this`session
      ensures Valid() && users == old(users)
      ensures r.Ok? <==> exists k :: 0 <= k < |users| && Credentials(users[k], identifier, password)
      ensures r.Ok? ==>
        var i := FirstIndex(users, (u: User) => Credentials(u, identifier, password));
        0 <= i && r.value == Strip(users[i]) && session == Some(r.value)
      ensures r.Err? ==> r.error == InvalidCredentials && session == old(session)
    {
      var i := FirstIndex(users, (u: User) => Credentials(u, identifier, password));
      if i == -1 {
        return Err(InvalidCredentials);
      }
      var account := Strip(users[i]);
      session := Some(account);
      return Ok(account);
    }

    /** The table half of `register`: the duplicate checks and the append,
        leaving the session alone. */
    method AppendAccount(data: UserPatch, freshId: string, now: string) returns (r: Result<User>)
      requires Valid()
      modifies this`users
      ensures Valid()
      ensures EmailTaken(old(users), data) ==> r == Err(DuplicateEmail)
      ensures !EmailTaken(old(users), data) && DocumentTaken(old(users), data) ==> r == Err(DuplicateDocument)
      ensures r.Ok? <==> !EmailTaken(old(users), data) && !DocumentTaken(old(users), data)
      ensures r.Err? ==> users == old(users)
      ensures r.Ok? ==> users == old(users) + [NewAccount(data, freshId, now)]
      ensures r.Ok? ==> r.value == Strip(NewAccount(data, freshId, now))
    {
      if Truthy(data.email) && FirstIndex(users, (u: User) => u.email == data.email) != -1 {
        return Err(DuplicateEmail);
      }
      if FirstIndex(users, (u: User) => u.documentId == data.documentId) != -1 {
        return Err(DuplicateDocument);
      }
      var account := NewAccount(data, freshId, now);
      users := users + [account];
      return Ok(Strip(account));
    }

    method Register(data: UserPatch, freshId: string, now: string) returns (r: Result<User>)
      requires Valid()
      modifies this
      ensures Valid()
      ensures EmailTaken(old(users), data) ==> r == Err(DuplicateEmail)
      ensures !EmailTaken(old(users), data) && DocumentTaken(old(users), data) ==> r == Err(DuplicateDocument)
      ensures r.Ok? <==> !EmailTaken(old(users), data) && !DocumentTaken(old(users), data)
      ensures r.Err? ==> users == old(users) && session == old(session)
      ensures r.Ok? ==> users == old(users) + [NewAccount(data, freshId, now)]
      ensures r.Ok? ==> r.value == Strip(NewAccount(data, freshId, now))
      ensures r.Ok? ==> session == if OpensSession(data) then Some(r.value) else old(session)
    {
      r := AppendAccount(data, freshId, now);
      if r.Ok? && OpensSession(data) {
        session := Some(r.value);
      }
    }

    method Logout()
      modifies this`session
      ensures Valid() && session == None && users == old(users)
    {
      session := None;
    }

    method UpdateUser(patch: UserPatch) returns (r: Result<User>)
      requires Valid()
      modifies this
      ensures Valid()
      ensures var i := IndexOfPatch(old(users), patch.id);
        if i == -1 then
          r == Err(UserNotFound) && users == old(users) && session == old(session)
        else
          users == old(users)[i := MergeUser(old(users)[i], patch)]
          && r == Ok(Strip(users[i]))
          && session == Refreshed(old(session), users, i, true)
    {
      var i := IndexOfPatch(users, patch.id);
      if i == -1 {
        return Err(UserNotFound);
      }
      users := users[i := MergeUser(users[i], patch)];
      var withoutPassword := Strip(users[i]);
      if session.Some? && Some(session.value.id) == patch.id {
        session := Some(withoutPassword);
      }
      return Ok(withoutPassword);
    }

    method DeleteUser(id: string) returns (r: Result<()>)
      requires Valid()
      modifies this
      ensures Valid()
      ensures users == WithoutUser(old(users), id)
      ensures r.Ok? <==> exists k :: 0 <= k < |old(users)| && old(users)[k].id == id
      ensures r.Err? ==> r.error == UserNotFound && users == old(users) && session == old(session)
      ensures r.Ok? ==> session == if old(IsSessionUser(id)) then None else old(session)
    {
      var remaining := WithoutUser(users, id);
      FilterShrinks(users, (u: User) => u.id != id);
      if |remaining| < |users| {
        users := remaining;
        if IsSessionUser(id) {
          Logout();
        }
        return Ok(());
      }
      FilterAll(users, (u: User) => u.id != id);
      return Err(UserNotFound);
    }

    method AddVaccineToUser(userId: string, data: Vaccine, freshId: string, actingRole: string)
      returns (r: Result<Vaccine>)
      requires Valid()
      modifies this
      ensures Valid()
      ensures var i := IndexOfId(old(users), userId);
        if i == -1 then
          r == Err(UserNotFound) && users == old(users) && session == old(session)
        else
          var added := data.(id := freshId);
          r == Ok(added)
          && users == old(users)[i := old(users)[i].(vaccines := Some(OrEmpty(old(users)[i].vaccines) + [added]))]
          && session == Refreshed(old(session), users, i, RefreshesSession(actingRole))
    {
      var i := IndexOfId(users, userId);
      if i == -1 {
        return Err(UserNotFound);
      }
      var added := data.(id := freshId);
      users := users[i := users[i].(vaccines := Some(OrEmpty(users[i].vaccines) + [added]))];
      if IsSessionUser(userId) && RefreshesSession(actingRole) {
        session := Some(Strip(users[i]));
      }
      return Ok(added);
    }

    method UpdateVaccineForUser(userId: string, vaccineId: string, patch: VaccinePatch, actingRole: string)
      returns (r: Result<()>)
      requires Valid()
      modifies this
      ensures Valid()
      ensures r.Err? ==> users == old(users) && session == old(session)
      ensures var i := IndexOfId(old(users), userId);
        if i == -1 then r == Err(UserNotFound)
        else if old(users)[i].vaccines.None? then r == Err(VaccineListMissing)
        else
          var vs := old(users)[i].vaccines.value;
          var j := IndexOfVaccine(vs, vaccineId);
          if j == -1 then r == Err(VaccineNotFound)
          else
            r == Ok(())
            && users == old(users)[i := old(users)[i].(vaccines := Some(vs[j := MergeVaccine(vs[j], patch)]))]
            && session == Refreshed(old(session), users, i, RefreshesSession(actingRole))
    {
      var i := IndexOfId(users, userId);
      if i == -1 {
        return Err(UserNotFound);
      }
      if users[i].vaccines.None? {
        return Err(VaccineListMissing);
      }
      var vs := users[i].vaccines.value;
      var j := IndexOfVaccine(vs, vaccineId);
      if j == -1 {
        return Err(VaccineNotFound);
      }
      users := users[i := users[i].(vaccines := Some(vs[j := MergeVaccine(vs[j], patch)]))];
      if IsSessionUser(userId) && RefreshesSession(actingRole) {
        session := Some(Strip(users[i]));
      }
      return Ok(());
    }

    method DeleteVaccineForUser(userId: string, vaccineId: string, actingRole: string)
      returns (r: Result<()>)
      requires Valid()
      modifies this
      ensures Valid()
      ensures r.Err? ==> users == old(users) && session == old(session)
      ensures var i := IndexOfId(old(users), userId);
        if i == -1 then r == Err(UserNotFound)
        else if old(users)[i].vaccines.None? then r == Err(VaccineListMissing)
        else
          r == Ok(())
          && users == old(users)[i := old(users)[i].(vaccines := Some(WithoutVaccine(old(users)[i].vaccines.value, vaccineId)))]
          && session == Refreshed(old(session), users, i, RefreshesSession(actingRole))
    {
      var i := IndexOfId(users, userId);
      if i == -1 {
        return Err(UserNotFound);
      }
      if users[i].vaccines.None? {
        return Err(VaccineListMissing);
      }
      users := users[i := users[i].(vaccines := Some(WithoutVaccine(users[i].vaccines.value, vaccineId)))];
      if IsSessionUser(userId) && RefreshesSession(actingRole) {
        session := Some(Strip(users[i]));
      }
      return Ok(());
    }

    /** `addVaccineToDependent`: the main account id is not used. */
    method AddVaccineToDependent(mainUserId: string, dependentId: string, data: Vaccine, freshId: string)
      returns (r: Result<Vaccine>)
      requires Valid()
      modifies this
      ensures Valid()
      ensures var i := IndexOfId(old(users), dependentId);
        if i == -1 then
          r == Err(UserNotFound) && users == old(users) && session == old(session)
        else
          var added := data.(id := freshId);
          r == Ok(added)
          && users == old(users)[i := old(users)[i].(vaccines := Some(OrEmpty(old(users)[i].vaccines) + [added]))]
          && session == Refreshed(old(session), users, i, true)
    {
      r := AddVaccineToUser(dependentId, data, freshId, ACTING_DEPENDENT);
    }

    method UpdateVaccineForDependent(mainUserId: string, dependentId: string, vaccineId: string, patch: VaccinePatch)
      returns (r: Result<()>)
      requires Valid()
      modifies this
      ensures Valid()
      ensures r.Err? ==> users == old(users) && session == old(session)
      ensures var i := IndexOfId(old(users), dependentId);
        if i == -1 then r == Err(UserNotFound)
        else if old(users)[i].vaccines.None? then r == Err(VaccineListMissing)
        else
          var vs := old(users)[i].vaccines.value;
          var j := IndexOfVaccine(vs, vaccineId);
          if j == -1 then r == Err(VaccineNotFound)
          else
            r == Ok(())
            && users == old(users)[i := old(users)[i].(vaccines := Some(vs[j := MergeVaccine(vs[j], patch)]))]
            && session == Refreshed(old(session), users, i, true)
    {
      r := UpdateVaccineForUser(dependentId, vaccineId, patch, ACTING_DEPENDENT);
    }

    method DeleteVaccineForDependent(mainUserId: string, dependentId: string, vaccineId: string)
      returns (r: Result<()>)
      requires Valid()
      modifies this
      ensures Valid()
      ensures r.Err? ==> users == old(users) && session == old(session)
      ensures var i := IndexOfId(old(users), dependentId);
        if i == -1 then r == Err(UserNotFound)
        else if old(users)[i].vaccines.None? then r == Err(VaccineListMissing)
        else
          r == Ok(())
          && users == old(users)[i := old(users)[i].(vaccines := Some(WithoutVaccine(old(users)[i].vaccines.value, vaccineId)))]
          && session == Refreshed(old(session), users, i, true)
    {
      r := DeleteVaccineForUser(dependentId, vaccineId, ACTING_DEPENDENT);
    }

    method AddDependentToUser(mainUserId: string, dep: UserPatch, freshId: string, now: string)
      returns (r: Result<DependentCreated>)
      requires Valid()
      modifies this
      ensures Valid()
      ensures var data := DependentAccountData(mainUserId, dep);
        if EmailTaken(old(users), data) then
          r == Err(DuplicateEmail) && users == old(users) && session == old(session)
        else if DocumentTaken(old(users), data) then
          r == Err(DuplicateDocument) && users == old(users) && session == old(session)
        else
          var account := NewAccount(data, freshId, now);
          var i := IndexOfId(old(users) + [account], mainUserId);
          r == Ok(DependentCreated(Strip(account), TemporaryPassword(Display(dep.documentId))))
          && users == Linked(old(users) + [account], mainUserId, account.id)
          && session == (if i == -1 then old(session) else Refreshed(old(session), users, i, true))
    {
      var temp := TemporaryPassword(Display(dep.documentId));
      var registered := Register(DependentAccountData(mainUserId, dep), freshId, now);
      if registered.Err? {
        return Err(registered.error);
      }
      ghost var appended := users;
      var i := IndexOfId(users, mainUserId);
      if i != -1 {
        users := users[i := users[i].(dependents := Some(OrEmpty(users[i].dependents) + [registered.value.id]))];
        if IsSessionUser(mainUserId) {
          session := Some(Strip(users[i]));
        }
      }
      return Ok(DependentCreated(registered.value, temp));
    }

    method UpdateDependentForUser(mainUserId: string, dependentId: string, patch: UserPatch)
      returns (r: Result<User>)
      requires Valid()
      modifies this
      ensures Valid()
      ensures var i := FirstIndex(old(users), (u: User) => DependentOf(u, dependentId, mainUserId));
        if i == -1 then
          r == Err(DependentNotFound) && users == old(users) && session == old(session)
        else
          var updated := MergeUser(old(users)[i], patch).(relationship := patch.relationship);
          r == Ok(updated)
          && users == old(users)[i := updated]
          && session == (if old(IsSessionUser(mainUserId)) && IndexOfId(users, mainUserId) != -1
                         then Some(Strip(users[IndexOfId(users, mainUserId)]))
                         else old(session))
    {
      var i := FirstIndex(users, (u: User) => DependentOf(u, dependentId, mainUserId));
      if i == -1 {
        return Err(DependentNotFound);
      }
      var updated := MergeUser(users[i], patch).(relationship := patch.relationship);
      users := users[i := updated];
      if IsSessionUser(mainUserId) {
        var m := IndexOfId(users, mainUserId);
        if m != -1 {
          session := Some(Strip(users[m]));
        }
      }
      return Ok(updated);
    }

    method DeleteDependentForUser(mainUserId: string, dependentId: string) returns (r: Result<()>)
      requires Valid()
      modifies this
      ensures Valid()
      ensures r.Ok? <==> exists k :: 0 <= k < |old(users)| && old(users)[k].id == dependentId
      ensures r.Err? ==> r.error == DependentNotDeleted && users == old(users) && session == old(session)
      ensures r.Ok? ==> users == Unlinked(WithoutUser(old(users), dependentId), mainUserId, dependentId)
      ensures r.Ok? ==>
        var afterDelete := if old(IsSessionUser(dependentId)) then None else old(session);
        var i := IndexOfId(users, mainUserId);
        session == (if i != -1 && old(IsSessionUser(mainUserId)) then Some(Strip(users[i])) else afterDelete)
    {
      var wasMain := IsSessionUser(mainUserId);
      var deleted := DeleteUser(dependentId);
      if deleted.Err? {
        return Err(DependentNotDeleted);
      }
      ghost var afterDelete := users;
      var i := IndexOfId(users, mainUserId);
      if i != -1 {
        var unlinked := users[i].(dependents := Some(WithoutId(OrEmpty(users[i].dependents), dependentId)));
        IndexOfIdUpdate(users, i, unlinked, mainUserId);
        users := users[i := unlinked];
        if wasMain {
          session := Some(Strip(users[i]));
        }
      }
      assert users == Unlinked(afterDelete, mainUserId, dependentId);
      return Ok(());
    }

    method AddHealthProfessional(medicalCenterId: string, data: Professional, freshId: string)
      returns (r: Result<Professional>)
      requires Valid()
      modifies this
      ensures Valid()
      ensures var i := FirstIndex(old(users), (u: User) => MedicalCenter(u, medicalCenterId));
        if i == -1 then
          r == Err(MedicalCenterNotFound) && users == old(users) && session == old(session)
        else
          var added := data.(id := "prof-" + freshId);
          r == Ok(added)
          && users == old(users)[i := old(users)[i].(healthProfessionals := Some(OrEmpty(old(users)[i].healthProfessionals) + [added]))]
          && session == Refreshed(old(session), users, i, true)
    {
      var i := FirstIndex(users, (u: User) => MedicalCenter(u, medicalCenterId));
      if i == -1 {
        return Err(MedicalCenterNotFound);
      }
      var added := data.(id := "prof-" + freshId);
      users := users[i := users[i].(healthProfessionals := Some(OrEmpty(users[i].healthProfessionals) + [added]))];
      if IsSessionUser(medicalCenterId) {
        session := Some(Strip(users[i]));
      }
      return Ok(added);
    }

    method UpdateHealthProfessional(medicalCenterId: string, professionalId: string, patch: ProfessionalPatch)
      returns (r: Result<()>)
      requires Valid()
      modifies this
      ensures Valid()
      ensures r.Err? ==> users == old(users) && session == old(session)
      ensures var i := FirstIndex(old(users), (u: User) => MedicalCenter(u, medicalCenterId));
        if i == -1 then r == Err(MedicalCenterNotFound)
        else if old(users)[i].healthProfessionals.None? then r == Err(ProfessionalListMissing)
        else
          var ps := old(users)[i].healthProfessionals.value;
          var j := IndexOfProfessional(ps, professionalId);
          if j == -1 then r == Err(ProfessionalNotFound)
          else
            r == Ok(())
            && users == old(users)[i := old(users)[i].(healthProfessionals := Some(ps[j := MergeProfessional(ps[j], patch)]))]
            && session == Refreshed(old(session), users, i, true)
    {
      var i := FirstIndex(users, (u: User) => MedicalCenter(u, medicalCenterId));
      if i == -1 {
        return Err(MedicalCenterNotFound);
      }
      if users[i].healthProfessionals.None? {
        return Err(ProfessionalListMissing);
      }
      var ps := users[i].healthProfessionals.value;
      var j := IndexOfProfessional(ps, professionalId);
      if j == -1 {
        return Err(ProfessionalNotFound);
      }
      users := users[i := users[i].(healthProfessionals := Some(ps[j := MergeProfessional(ps[j], patch)]))];
      if IsSessionUser(medicalCenterId) {
        session := Some(Strip(users[i]));
      }
      return Ok(());
    }

    method DeleteHealthProfessional(medicalCenterId: string, professionalId: string)
      returns (r: Result<()>)
      requires Valid()
      modifies this
      ensures Valid()
      ensures r.Err? ==> users == old(users) && session == old(session)
      ensures var i := FirstIndex(old(users), (u: User) => MedicalCenter(u, medicalCenterId));
        if i == -1 then r == Err(MedicalCenterNotFound)
        else if old(users)[i].healthProfessionals.None? then r == Err(ProfessionalListMissing)
        else
          r == Ok(())
          && users == old(users)[i := old(users)[i].(healthProfessionals :=
                        Some(WithoutProfessional(old(users)[i].healthProfessionals.value, professionalId)))]
          && session == Refreshed(old(session), users, i, true)
    {
      var i := FirstIndex(users, (u: User) => MedicalCenter(u, medicalCenterId));
      if i == -1 {
        return Err(MedicalCenterNotFound);
      }
      if users[i].healthProfessionals.None? {
        return Err(ProfessionalListMissing);
      }
      users := users[i := users[i].(healthProfessionals :=
                 Some(WithoutProfessional(users[i].healthProfessionals.value, professionalId)))];
      if IsSessionUser(medicalCenterId) {
        session := Some(Strip(users[i]));
      }
      return Ok(());
    }
  }
}
