/** The search filter of `src/pages/AdminPage/UserManagementCard.jsx`. The
    i18n function `t` is the parameter `tr`. */
module UserManagementCard {
  import opened Common
  import opened Text
  import opened Records

  /** `t(isConvertedDependent ? 'role_dependent_user' : `role_${role}`)`'s key. */
  function RoleKey(u: User): string
  {
    if u.isConvertedDependent then "role_dependent_user" else "role_" + Display(u.role)
  }

  /** One user against the search term. Missing fields never match; the
      document id is compared without case folding. */
  predicate CardMatches(u: User, term: string, tr: string -> string)
  {
    var q := Lower(term);
    Includes(Lower(FullName(u)), q)
    || (Truthy(u.email) && Includes(Lower(u.email.value), q))
    || (Truthy(u.documentId) && Includes(u.documentId.value, term))
    || (Truthy(u.country) && Includes(Lower(u.country.value), q))
    || (Truthy(u.role) && Includes(Lower(tr(RoleKey(u))), q))
  }

  /** `users.filter(...)`: the matching users, in their order. */
  function CardSearch(users: seq<User>, term: string, tr: string -> string): (r: seq<User>)
    ensures IsSubsequence(r, users)
    ensures forall k :: 0 <= k < |r| ==> CardMatches(r[k], term, tr)
    ensures forall k :: 0 <= k < |users| && CardMatches(users[k], term, tr) ==> users[k] in r
    ensures forall x :: multiset(r)[x] == if CardMatches(x, term, tr) then multiset(users)[x] else 0
  {
    var p := (u: User) => CardMatches(u, term, tr);
    FilterIsSubsequence(users, p);
    FilterMultiset(users, p);
    Filter(users, p)
  }

  /** An empty term keeps every user, since every name contains "". */
  lemma EmptyTermKeepsAll(users: seq<User>, tr: string -> string)
    ensures CardSearch(users, "", tr) == users
  {
    assert Lower("") == "";
    forall k | 0 <= k < |users|
      ensures CardMatches(users[k], "", tr)
    {
      IncludesEmpty(Lower(FullName(users[k])));
    }
    FilterAll(users, (u: User) => CardMatches(u, "", tr));
  }
}
