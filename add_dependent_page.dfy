/** The add-or-edit form for a dependent, `src/pages/AddDependentPage.jsx`:
    prefill from the stored record when an `edit` id is in the address,
    the six-field guard, and the choice between updating that dependent and
    creating a new dependent account. */
module AddDependentPage {
  import opened Common
  import opened Text
  import opened Records
  import opened AuthStore

  datatype DependentForm = DependentForm(
    firstName: string,
    lastName: string,
    relationship: string,
    documentId: string,
    birthDate: string,
    country: string)

  const EMPTY_DEPENDENT_FORM := DependentForm("", "", "", "", "", "")

  /** `field || ''`. */
  function OrBlank(o: Option<string>): (s: string)
    ensures o.Some? ==> s == o.value
    ensures o.None? ==> s == ""
  {
    if o.Some? then o.value else ""
  }

  datatype Prefill =
    /** The form holds the stored values and the page is in edit mode. */
    | Editing(form: DependentForm)
    /** A toast, then back to `/manage-dependents`. */
    | EditTargetMissing
    /** A blank form in add mode. */
    | Blank

  /** The effect: with an `edit` id and a user, the first stored record with
      that id whose back-link names the user fills the form. */
  function PrefillFor(stored: seq<User>, user: Option<User>, editId: Option<string>): (r: Prefill)
    ensures r.Blank? <==> !Truthy(editId) || user.None?
    ensures r.EditTargetMissing? <==> (Truthy(editId) && user.Some?
      && forall k :: 0 <= k < |stored| ==> !DependentOf(stored[k], editId.value, user.value.id))
    ensures r.Editing? ==>
      var k := FirstIndex(stored, (u: User) => DependentOf(u, editId.value, user.value.id));
      0 <= k && DependentOf(stored[k], editId.value, user.value.id)
      && (forall j :: 0 <= j < k ==> !DependentOf(stored[j], editId.value, user.value.id))
      && r.form == DependentForm(OrBlank(stored[k].firstName), OrBlank(stored[k].lastName),
                                 OrBlank(stored[k].relationship), OrBlank(stored[k].documentId),
                                 OrBlank(stored[k].birthDate), OrBlank(stored[k].country))
  {
    if !Truthy(editId) || user.None? then Blank
    else
      var hit := Find(stored, (u: User) => DependentOf(u, editId.value, user.value.id));
      if hit.None? then EditTargetMissing
      else
        var d := hit.value;
        Editing(DependentForm(OrBlank(d.firstName), OrBlank(d.lastName), OrBlank(d.relationship),
                              OrBlank(d.documentId), OrBlank(d.birthDate), OrBlank(d.country)))
  }

  /** The six required fields. */
  predicate DependentComplete(f: DependentForm)
  {
    f.firstName != "" && f.lastName != "" && f.relationship != ""
    && f.documentId != "" && f.birthDate != "" && f.country != ""
  }

  /** The form as the data handed to the store. */
  function DependentData(f: DependentForm): (p: UserPatch)
    ensures p.firstName == Some(f.firstName) && p.lastName == Some(f.lastName)
    ensures p.relationship == Some(f.relationship) && p.documentId == Some(f.documentId)
    ensures p.birthDate == Some(f.birthDate) && p.country == Some(f.country)
    ensures p.id.None? && p.email.None? && p.password.None? && p.role.None? && p.mainAccountId.None?
  {
    EMPTY_PATCH.(
      firstName := Some(f.firstName),
      lastName := Some(f.lastName),
      relationship := Some(f.relationship),
      documentId := Some(f.documentId),
      birthDate := Some(f.birthDate),
      country := Some(f.country))
  }

  datatype SubmitOutcome =
    | Incomplete
    | SaveFailed(error: StoreError)
    /** Edit mode: back to `/manage-dependents`. */
    | Updated
    /** Add mode: the page stays and shows the temporary password. */
    | Added(tempPassword: string)

  /** `handleSubmit`: nothing reaches the store unless all six fields are
      filled; edit mode updates the dependent named in the address, add mode
      creates a dependent account and shows the password it was given. */
  method HandleSubmit(s: Store, user: User, editing: bool, editId: string, f: DependentForm,
                      freshId: string, now: string)
    returns (r: SubmitOutcome)
    requires s.Valid()
    modifies s
    ensures s.Valid()
    ensures r.Incomplete? <==> !DependentComplete(f)
    ensures r.Incomplete? || r.SaveFailed? ==> s.users == old(s.users) && s.session == old(s.session)
    ensures editing ==> !r.Added?
    ensures !editing ==> !r.Updated?
    ensures editing && DependentComplete(f) ==>
      var i := FirstIndex(old(s.users), (u: User) => DependentOf(u, editId, user.id));
      (r.Updated? <==> i != -1)
      && (i != -1 ==> s.users == old(s.users)[i := MergeUser(old(s.users)[i], DependentData(f))])
      && (r.Updated? ==>
        s.session == (if old(s.IsSessionUser(user.id)) && IndexOfId(s.users, user.id) != -1
                      then Some(Strip(s.users[IndexOfId(s.users, user.id)]))
                      else old(s.session)))
    ensures !editing && DependentComplete(f) ==>
      var data := DependentAccountData(user.id, DependentData(f));
      (r.Added? <==> !EmailTaken(old(s.users), data) && !DocumentTaken(old(s.users), data))
      && (r.Added? ==>
        r.tempPassword == TemporaryPassword(f.documentId)
        && s.users == Linked(old(s.users) + [NewAccount(data, freshId, now)], user.id, freshId)
        && var i := IndexOfId(old(s.users) + [NewAccount(data, freshId, now)], user.id);
           s.session == (if i == -1 then old(s.session) else Refreshed(old(s.session), s.users, i, true)))
  {
    if !DependentComplete(f) {
      return Incomplete;
    }
    if editing {
      var result := s.UpdateDependentForUser(user.id, editId, DependentData(f));
      if result.Err? {
        return SaveFailed(result.error);
      }
      return Updated;
    }
    var created := s.AddDependentToUser(user.id, DependentData(f), freshId, now);
    if created.Err? {
      return SaveFailed(created.error);
    }
    return Added(created.value.tempPassword);
  }
}
