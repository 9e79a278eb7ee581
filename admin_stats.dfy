/** The four counters of `src/pages/AdminPage/AdminStats.jsx`, and the
    vaccine total that `src/pages/AdminPage.jsx` shows as well. */
module AdminStats {
  import opened Common
  import opened Records

  predicate IsDependent(u: User)
  {
    u.isDependent
  }

  predicate IsIndependent(u: User)
  {
    !u.isDependent
  }

  predicate IsMedicalCenter(u: User)
  {
    u.role == Some(ROLE_MEDICAL_CENTER)
  }

  /** `users.filter(u => !u.isDependent).length`. */
  function TotalUsers(users: seq<User>): (n: nat)
    ensures n <= |users|
    ensures n == |users| <==> forall k :: 0 <= k < |users| ==> !users[k].isDependent
  {
    FilterShrinks(users, IsIndependent);
    Count(users, IsIndependent)
  }

  /** `users.filter(u => u.isDependent).length`. */
  function TotalDependents(users: seq<User>): (n: nat)
    ensures n <= |users|
    ensures n == |users| <==> forall k :: 0 <= k < |users| ==> users[k].isDependent
  {
    FilterShrinks(users, IsDependent);
    Count(users, IsDependent)
  }

  /** `users.filter(u => u.role === 'medical_center').length`. */
  function TotalMedicalCenters(users: seq<User>): (n: nat)
    ensures n <= |users|
    ensures n == 0 <==> forall k :: 0 <= k < |users| ==> users[k].role != Some(ROLE_MEDICAL_CENTER)
    ensures n == |users| <==> forall k :: 0 <= k < |users| ==> users[k].role == Some(ROLE_MEDICAL_CENTER)
  {
    FilterShrinks(users, IsMedicalCenter);
    Count(users, IsMedicalCenter)
  }

  /** Appending a record raises each counter by one exactly when the record
      is of that counter's kind. With every counter 0 on the empty table,
      this fixes each one to the number of records of its kind. */
  lemma TotalsAppend(users: seq<User>, u: User)
    ensures TotalUsers(users + [u]) == TotalUsers(users) + (if u.isDependent then 0 else 1)
    ensures TotalDependents(users + [u]) == TotalDependents(users) + (if u.isDependent then 1 else 0)
    ensures TotalMedicalCenters(users + [u])
         == TotalMedicalCenters(users) + (if u.role == Some(ROLE_MEDICAL_CENTER) then 1 else 0)
  {
    CountAppend(users, [u], IsIndependent);
    CountAppend(users, [u], IsDependent);
    CountAppend(users, [u], IsMedicalCenter);
  }

  /** `users.reduce((sum, u) => sum + (u.vaccines ? u.vaccines.length : 0), 0)`. */
  function TotalVaccines(users: seq<User>): (n: nat)
    ensures n == 0 <==> forall k :: 0 <= k < |users| ==> OrEmpty(users[k].vaccines) == []
    ensures forall k :: 0 <= k < |users| ==> |OrEmpty(users[k].vaccines)| <= n
  {
    if |users| == 0 then 0
    else
      var rest := TotalVaccines(users[1..]);
      assert forall k :: 1 <= k < |users| ==> users[k] == users[1..][k - 1];
      |OrEmpty(users[0].vaccines)| + rest
  }

  /** Users and dependents partition the table. */
  lemma UsersAndDependentsPartition(users: seq<User>)
    ensures TotalUsers(users) + TotalDependents(users) == |users|
  {
    CountPartition(users, IsDependent, IsIndependent);
  }

  /** Replacing one record changes the vaccine total by the change in that
      record's vaccine count; this is how an added or deleted vaccine shows
      up in the counter. */
  lemma {:induction false} TotalVaccinesUpdate(users: seq<User>, i: nat, u: User)
    requires i < |users|
    ensures TotalVaccines(users[i := u]) + |OrEmpty(users[i].vaccines)|
         == TotalVaccines(users) + |OrEmpty(u.vaccines)|
  {
    if i > 0 {
      assert users[i := u][1..] == users[1..][i - 1 := u];
      TotalVaccinesUpdate(users[1..], i - 1, u);
    } else {
      assert users[i := u][1..] == users[1..];
    }
  }
}
