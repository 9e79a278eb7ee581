/** The administrator page `src/pages/AdminPage.jsx`. Its storage helpers
    work on the `vacun_users` table directly, bypassing the store's
    operations and never touching the session; they are methods on the
    store's table here. Loading, searching, the counters and the guards are
    pure. `window.confirm` answers are parameters. */
module AdminPage {
  import opened Common
  import opened Text
  import opened Records
  import opened AuthStore
  import opened AdminStats
  import opened CreateUserModal
  import opened ProtectedRoute

  /** `loadData`: every stored record, in order, with a missing vaccine
      list replaced by an empty one. */
  function LoadData(stored: seq<User>): (r: seq<User>)
    ensures |r| == |stored|
    ensures forall k :: 0 <= k < |r| ==>
      r[k].vaccines.Some? && r[k].(vaccines := stored[k].vaccines) == stored[k]
      && OrEmpty(r[k].vaccines) == OrEmpty(stored[k].vaccines)
  {
    seq(|stored|, k requires 0 <= k < |stored| => stored[k].(vaccines := Some(OrEmpty(stored[k].vaccines))))
  }

  /** Loading does not change either counter. */
  lemma {:induction false} LoadDataKeepsTotals(stored: seq<User>)
    ensures |LoadData(stored)| == |stored|
    ensures TotalVaccines(LoadData(stored)) == TotalVaccines(stored)
  {
    if |stored| > 0 {
      LoadDataKeepsTotals(stored[1..]);
      assert LoadData(stored)[1..] == LoadData(stored[1..]);
    }
  }

  /** `updateUserInStorage`: the whole record is replaced, nothing merged. */
  method UpdateUserInStorage(s: Store, updated: User)
    modifies s`users
    ensures var i := IndexOfId(old(s.users), updated.id);
      s.users == if i == -1 then old(s.users) else old(s.users)[i := updated]
  {
    var i := IndexOfId(s.users, updated.id);
    if i != -1 {
      s.users := s.users[i := updated];
    }
  }

  /** `addVaccineToUserInStorage`: the vaccine goes last; unknown users are
      left alone. */
  method AddVaccineToUserInStorage(s: Store, userId: string, vaccine: Vaccine)
    modifies s`users
    ensures var i := IndexOfId(old(s.users), userId);
      s.users == if i == -1 then old(s.users)
                 else old(s.users)[i := old(s.users)[i].(vaccines := Some(OrEmpty(old(s.users)[i].vaccines) + [vaccine]))]
    ensures TotalVaccines(s.users) == TotalVaccines(old(s.users)) + (if IndexOfId(old(s.users), userId) == -1 then 0 else 1)
  {
    var i := IndexOfId(s.users, userId);
    if i != -1 {
      var updated := s.users[i].(vaccines := Some(OrEmpty(s.users[i].vaccines) + [vaccine]));
      TotalVaccinesUpdate(s.users, i, updated);
      s.users := s.users[i := updated];
    }
  }

  /** `updateVaccineInStorage`: the first vaccine with the id is replaced
      whole. `thrown` is the TypeError of `vaccines.findIndex` on a record
      without a vaccine list; the table is then unchanged. */
  method UpdateVaccineInStorage(s: Store, userId: string, vaccineId: string, updated: Vaccine)
    returns (thrown: bool)
    modifies s`users
    ensures var i := IndexOfId(old(s.users), userId);
      thrown <==> i != -1 && old(s.users)[i].vaccines.None?
    ensures var i := IndexOfId(old(s.users), userId);
      if i == -1 || old(s.users)[i].vaccines.None? then s.users == old(s.users)
      else
        var vs := old(s.users)[i].vaccines.value;
        var j := IndexOfVaccine(vs, vaccineId);
        s.users == if j == -1 then old(s.users)
                   else old(s.users)[i := old(s.users)[i].(vaccines := Some(vs[j := updated]))]
    ensures TotalVaccines(s.users) == TotalVaccines(old(s.users))
  {
    var i := IndexOfId(s.users, userId);
    if i == -1 {
      return false;
    }
    if s.users[i].vaccines.None? {
      return true;
    }
    var vs := s.users[i].vaccines.value;
    var j := IndexOfVaccine(vs, vaccineId);
    if j != -1 {
      var replaced := s.users[i].(vaccines := Some(vs[j := updated]));
      TotalVaccinesUpdate(s.users, i, replaced);
      s.users := s.users[i := replaced];
    }
    return false;
  }

  /** `deleteVaccineFromUserInStorage`: every vaccine with the id goes.
      `thrown` is the TypeError of `vaccines.filter` on a record without a
      vaccine list. */
  method DeleteVaccineFromUserInStorage(s: Store, userId: string, vaccineId: string)
    returns (thrown: bool)
    modifies s`users
    ensures var i := IndexOfId(old(s.users), userId);
      thrown <==> i != -1 && old(s.users)[i].vaccines.None?
    ensures var i := IndexOfId(old(s.users), userId);
      if i == -1 || old(s.users)[i].vaccines.None? then s.users == old(s.users)
      else s.users == old(s.users)[i := old(s.users)[i].(vaccines :=
                        Some(WithoutVaccine(old(s.users)[i].vaccines.value, vaccineId)))]
    ensures TotalVaccines(s.users) <= TotalVaccines(old(s.users))
  {
    var i := IndexOfId(s.users, userId);
    if i == -1 {
      return false;
    }
    if s.users[i].vaccines.None? {
      return true;
    }
    var updated := s.users[i].(vaccines := Some(WithoutVaccine(s.users[i].vaccines.value, vaccineId)));
    TotalVaccinesUpdate(s.users, i, updated);
    s.users := s.users[i := updated];
    return false;
  }

  /** `handleDeleteUser`: after confirmation, every record with the id is
      filtered out. No "not found" outcome, no logout. */
  method HandleDeleteUser(s: Store, userId: string, confirmed: bool)
    modifies s`users
    ensures s.users == if confirmed then WithoutUser(old(s.users), userId) else old(s.users)
    ensures forall k :: 0 <= k < |s.users| ==> s.users[k].id != userId || !confirmed
  {
    if confirmed {
      s.users := WithoutUser(s.users, userId);
    }
  }

  /** `handleSaveVaccine`: an edited vaccine (one whose editing copy carries
      a truthy id) replaces the stored one; anything else is added under
      `vaccine-<now>`. */
  method HandleSaveVaccine(s: Store, userId: string, editingId: Option<string>, vaccine: Vaccine, now: string)
    returns (thrown: bool)
    modifies s`users
    ensures Truthy(editingId) ==>
      var i := IndexOfId(old(s.users), userId);
      (thrown <==> i != -1 && old(s.users)[i].vaccines.None?)
      && TotalVaccines(s.users) == TotalVaccines(old(s.users))
    ensures Truthy(editingId) ==>
      var i := IndexOfId(old(s.users), userId);
      if i == -1 || old(s.users)[i].vaccines.None? then s.users == old(s.users)
      else
        var vs := old(s.users)[i].vaccines.value;
        var j := IndexOfVaccine(vs, vaccine.id);
        s.users == if j == -1 then old(s.users)
                   else old(s.users)[i := old(s.users)[i].(vaccines := Some(vs[j := vaccine]))]
    ensures !Truthy(editingId) ==>
      var i := IndexOfId(old(s.users), userId);
      !thrown
      && s.users == (if i == -1 then old(s.users)
                     else old(s.users)[i := old(s.users)[i].(vaccines :=
                            Some(OrEmpty(old(s.users)[i].vaccines) + [vaccine.(id := "vaccine-" + now)]))])
  {
    if Truthy(editingId) {
      thrown := UpdateVaccineInStorage(s, userId, vaccine.id, vaccine);
    } else {
      AddVaccineToUserInStorage(s, userId, vaccine.(id := "vaccine-" + now));
      thrown := false;
    }
  }

  datatype CreateResult = CreateRejected | CreateFailed(error: StoreError) | Created(user: User)

  /** `handleCreateUser`: the same guard and stripping as the create-user
      modal, then `register`. */
  method HandleCreateUser(s: Store, form: UserForm, freshId: string, now: string) returns (r: CreateResult)
    requires s.Valid()
    modifies s
    ensures s.Valid()
    ensures r.CreateRejected? <==> !CanCreate(form)
    ensures r.CreateRejected? || r.CreateFailed? ==> s.users == old(s.users) && s.session == old(s.session)
    ensures CanCreate(form) ==>
      (r.Created? <==> !EmailTaken(old(s.users), DataToRegister(form)) && !DocumentTaken(old(s.users), DataToRegister(form)))
    ensures r.CreateFailed? ==>
      r.error == if EmailTaken(old(s.users), DataToRegister(form)) then DuplicateEmail else DuplicateDocument
    ensures r.Created? ==>
      var account := NewAccount(DataToRegister(form), freshId, now);
      s.users == old(s.users) + [account] && r.user == Strip(account)
      && s.session == if OpensSession(DataToRegister(form)) then Some(r.user) else old(s.session)
  {
    if !CanCreate(form) {
      return CreateRejected;
    }
    var result := s.Register(DataToRegister(form), freshId, now);
    if result.Err? {
      return CreateFailed(result.error);
    }
    return Created(result.value);
  }

  /** As written, an account created here with role `user` takes over the
      administrator's session, after which `/admin` redirects away. */
  lemma CreatedUserTakesOverSession(form: UserForm, freshId: string, now: string)
    requires form.role == ROLE_USER
    ensures var account := Strip(NewAccount(DataToRegister(form), freshId, now));
      OpensSession(DataToRegister(form))
      && account.role == Some(ROLE_USER)
      && Guard(false, Some(account), LandingRoles("/admin")) == Redirect("/dashboard")
  {
  }

  /** Account creation as the page evidently means it: the same guard, the
      same duplicate rule and the same new record, but the administrator
      stays logged in. */
  method HandleCreateUserKeepingSession(s: Store, form: UserForm, freshId: string, now: string)
    returns (r: CreateResult)
    requires s.Valid()
    modifies s
    ensures s.Valid()
    ensures s.session == old(s.session)
    ensures r.CreateRejected? <==> !CanCreate(form)
    ensures !r.Created? ==> s.users == old(s.users)
    ensures CanCreate(form) ==>
      (r.Created? <==> !EmailTaken(old(s.users), DataToRegister(form)) && !DocumentTaken(old(s.users), DataToRegister(form)))
    ensures r.CreateFailed? ==>
      r.error == if EmailTaken(old(s.users), DataToRegister(form)) then DuplicateEmail else DuplicateDocument
    ensures r.Created? ==>
      var account := NewAccount(DataToRegister(form), freshId, now);
      s.users == old(s.users) + [account] && r.user == Strip(account)
  {
    if !CanCreate(form) {
      return CreateRejected;
    }
    var result := s.AppendAccount(DataToRegister(form), freshId, now);
    if result.Err? {
      return CreateFailed(result.error);
    }
    return Created(result.value);
  }

  /** One user against the admin search term, or `None` where the source
      throws: `u.email.toLowerCase()` and `u.documentId.includes` are
      reached without a guard when the earlier alternatives fail. */
  function AdminMatch(u: User, term: string): Option<bool>
  {
    var q := Lower(term);
    if Includes(Lower(FullName(u)), q) then Some(true)
    else if u.email.None? then None
    else if Includes(Lower(u.email.value), q) then Some(true)
    else if u.documentId.None? then None
    else if Includes(u.documentId.value, term) then Some(true)
    else Some((Truthy(u.country) && Includes(Lower(u.country.value), q))
              || (Truthy(u.role) && Includes(Lower(u.role.value), q)))
  }

  predicate AdminKeeps(u: User, term: string)
  {
    AdminMatch(u, term) == Some(true)
  }

  predicate AdminThrows(u: User, term: string)
  {
    AdminMatch(u, term).None?
  }

  /** The admin search: the matching users in their order, or `None` when
      the filter throws on some record. */
  function AdminSearch(users: seq<User>, term: string): (r: Option<seq<User>>)
    ensures r.None? <==> exists k :: 0 <= k < |users| && AdminThrows(users[k], term)
    ensures r.Some? ==> IsSubsequence(r.value, users)
    ensures r.Some? ==> forall k :: 0 <= k < |r.value| ==> AdminKeeps(r.value[k], term)
    ensures r.Some? ==> forall k :: 0 <= k < |users| && AdminKeeps(users[k], term) ==> users[k] in r.value
    ensures r.Some? ==> forall x :: multiset(r.value)[x] == if AdminKeeps(x, term) then multiset(users)[x] else 0
  {
    var p := (u: User) => AdminKeeps(u, term);
    if exists k :: 0 <= k < |users| && AdminThrows(users[k], term) then None
    else
      FilterIsSubsequence(users, p);
      FilterMultiset(users, p);
      Some(Filter(users, p))
  }

  /** An empty term never reaches the unguarded fields and keeps everyone. */
  lemma AdminSearchEmptyTerm(users: seq<User>)
    ensures AdminSearch(users, "") == Some(users)
  {
    assert Lower("") == "";
    forall k | 0 <= k < |users|
      ensures AdminKeeps(users[k], "")
    {
      IncludesEmpty(Lower(FullName(users[k])));
    }
    FilterAll(users, (u: User) => AdminKeeps(u, ""));
  }

  /** The two counters at the top of the page. */
  datatype PageStats = PageStats(registered: nat, vaccines: nat)

  function Stats(loaded: seq<User>): (st: PageStats)
    ensures st.registered == |loaded|
    ensures st.vaccines == TotalVaccines(loaded)
    ensures st.vaccines == 0 <==> forall k :: 0 <= k < |loaded| ==> OrEmpty(loaded[k].vaccines) == []
  {
    PageStats(|loaded|, TotalVaccines(loaded))
  }

  /** `handleGenerateUnifiedCertificate`'s guard: the first loaded record
      with the id, when it has at least one vaccine. */
  function CertificateSubject(loaded: seq<User>, userId: string): (r: Option<User>)
    ensures r.None? <==> IndexOfId(loaded, userId) == -1 || OrEmpty(loaded[IndexOfId(loaded, userId)].vaccines) == []
    ensures r.Some? ==> r.value == loaded[IndexOfId(loaded, userId)]
    ensures r.Some? ==> r.value.id == userId && forall k :: 0 <= k < |loaded| && loaded[k].id == userId ==> IndexOfId(loaded, userId) <= k
    ensures r.Some? ==> |OrEmpty(r.value.vaccines)| > 0
  {
    var i := IndexOfId(loaded, userId);
    if i == -1 || OrEmpty(loaded[i].vaccines) == [] then None else Some(loaded[i])
  }
}
