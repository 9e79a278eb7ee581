/** The logged-in user's dashboard, `src/pages/DashboardPage.jsx`: the
    user's own vaccine list, the number of linked dependents, the guard in
    front of certificate generation and the state of the download button. */
module DashboardPage {
  import opened Common
  import opened Records
  import opened ManageDependentsPage

  /** `user.vaccines || []`. */
  function UserVaccines(user: User): (vs: seq<Vaccine>)
    ensures user.vaccines.Some? ==> vs == user.vaccines.value
    ensures user.vaccines.None? ==> vs == []
  {
    OrEmpty(user.vaccines)
  }

  /** `dependentsCount`: how many of the stored main account's dependent
      ids resolve to a converted dependent linked back to the user. */
  function DependentsCount(user: User, stored: seq<User>): (n: nat)
    ensures var i := IndexOfId(stored, user.id);
      n == if i == -1 || stored[i].dependents.None? then 0
           else Count(stored[i].dependents.value, ResolvesIn(stored, user.id))
  {
    RecomputeCases(stored, user.id);
    |Recompute(stored, user.id)|
  }

  /** What `handleGenerateCertificate` does before calling the generator. */
  datatype CertificateOutcome =
    | Issued(subject: User, vaccines: seq<Vaccine>)
    | Refused
    /** A missing target throws: `targetUser.vaccines` for a dependent,
        `targetUser.firstName` in the refusal toast otherwise. */
    | Throws

  /** `handleGenerateCertificate(targetUser = user, isDependent = false)`:
      a dependent's own list or the user's (defaulted) list is certified;
      nothing is certified without a target or with an empty list. */
  function CertificateRequest(user: User, target: Option<User>, isDependent: bool): (o: CertificateOutcome)
    ensures o.Throws? <==> target.None?
    ensures o.Issued? ==> target == Some(o.subject) && |o.vaccines| > 0
    ensures o.Issued? ==>
      o.vaccines == (if isDependent then OrEmpty(target.value.vaccines) else UserVaccines(user))
    ensures o.Refused? <==>
      target.Some? && (if isDependent then OrEmpty(target.value.vaccines) else UserVaccines(user)) == []
  {
    if target.None? then Throws
    else
      var chosen := if isDependent then target.value.vaccines else Some(UserVaccines(user));
      if chosen.None? || |chosen.value| == 0 then Refused
      else Issued(target.value, chosen.value)
  }

  /** The download button is disabled when the user's list is empty. */
  predicate DownloadDisabled(user: User)
  {
    |UserVaccines(user)| == 0
  }

  /** The button's call uses the defaults: the certificate is issued for the
      user exactly when the button is enabled, with the user's own list. */
  lemma SelfCertificateMatchesButton(user: User)
    ensures CertificateRequest(user, Some(user), false).Issued? <==> !DownloadDisabled(user)
    ensures !DownloadDisabled(user) ==>
      CertificateRequest(user, Some(user), false) == Issued(user, OrEmpty(user.vaccines))
  {
  }
}
