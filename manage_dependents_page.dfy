/** The dependents list of `src/pages/ManageDependentsPage.jsx`: the main
    account's `dependents` ids resolved against the stored table, and the
    recomputation after a dependent is deleted. The same resolution feeds
    the dashboard's counter and the dependent pages' lookup. */
module ManageDependentsPage {
  import opened Common
  import opened Records
  import opened AuthStore

  /** A stored record that `depId` may resolve to: a converted dependent
      whose back-link names the main account. */
  predicate LinkedDependent(u: User, depId: string, mainId: string)
  {
    u.id == depId && u.isConvertedDependent && u.mainAccountId == Some(mainId)
  }

  /** `stored.find(u => LinkedDependent(u, depId, mainId))`. */
  function Resolve(stored: seq<User>, depId: string, mainId: string): (r: Option<User>)
    ensures r.None? <==> forall k :: 0 <= k < |stored| ==> !LinkedDependent(stored[k], depId, mainId)
    ensures r.Some? ==> r.value in stored && LinkedDependent(r.value, depId, mainId)
  {
    Find(stored, (u: User) => LinkedDependent(u, depId, mainId))
  }

  /** The ids that resolve to some record. */
  function ResolvesIn(stored: seq<User>, mainId: string): string -> bool
  {
    (depId: string) => Resolve(stored, depId, mainId).Some?
  }

  /** `ids.map(depId => Resolve(...)).filter(Boolean)`. */
  function ResolveIds(ids: seq<string>, stored: seq<User>, mainId: string): (r: seq<User>)
    ensures |r| <= |ids|
    ensures forall k :: 0 <= k < |r| ==>
      r[k] in stored && r[k].id in ids && LinkedDependent(r[k], r[k].id, mainId)
  {
    if |ids| == 0 then []
    else
      var hit := Resolve(stored, ids[0], mainId);
      (if hit.Some? then [hit.value] else []) + ResolveIds(ids[1..], stored, mainId)
  }

  /** The first linked record of an id that resolves. */
  function FirstLinked(stored: seq<User>, mainId: string): string -> User
  {
    (depId: string) =>
      var hit := Resolve(stored, depId, mainId);
      if hit.Some? then hit.value else BareUser(depId)
  }

  /** Reference reading of the resolution: keep the ids that resolve, in
      order, and put each one's first linked record in its place. */
  function ResolvedRecords(ids: seq<string>, stored: seq<User>, mainId: string): seq<User>
  {
    Map(Filter(ids, ResolvesIn(stored, mainId)), FirstLinked(stored, mainId))
  }

  /** The list is exactly the resolving ids, in order, each replaced by the
      first linked record; ids that do not resolve are dropped. */
  lemma {:induction false} ResolveIdsInOrder(ids: seq<string>, stored: seq<User>, mainId: string)
    ensures ResolveIds(ids, stored, mainId) == ResolvedRecords(ids, stored, mainId)
    ensures |ResolveIds(ids, stored, mainId)| == Count(ids, ResolvesIn(stored, mainId))
  {
    if |ids| > 0 {
      ResolveIdsInOrder(ids[1..], stored, mainId);
      FilterMapStep(ids, ResolvesIn(stored, mainId), FirstLinked(stored, mainId));
    }
  }

  /** The list for the account `userId`, read from the stored table:
      empty when the account is not stored or has no `dependents` field. */
  function Recompute(stored: seq<User>, userId: string): (r: seq<User>)
    ensures forall k :: 0 <= k < |r| ==> r[k] in stored && LinkedDependent(r[k], r[k].id, userId)
    ensures var i := IndexOfId(stored, userId);
      |r| <= if i == -1 then 0 else |OrEmpty(stored[i].dependents)|
  {
    var i := IndexOfId(stored, userId);
    if i == -1 || stored[i].dependents.None? then []
    else ResolveIds(stored[i].dependents.value, stored, userId)
  }

  /** What the recomputed list is, case by case. */
  lemma RecomputeCases(stored: seq<User>, userId: string)
    ensures var i := IndexOfId(stored, userId);
      i == -1 || stored[i].dependents.None? ==> Recompute(stored, userId) == []
    ensures var i := IndexOfId(stored, userId);
      i != -1 && stored[i].dependents.Some? ==>
        Recompute(stored, userId) == ResolvedRecords(stored[i].dependents.value, stored, userId)
        && |Recompute(stored, userId)| == Count(stored[i].dependents.value, ResolvesIn(stored, userId))
  {
    var i := IndexOfId(stored, userId);
    if i != -1 && stored[i].dependents.Some? {
      ResolveIdsInOrder(stored[i].dependents.value, stored, userId);
    }
  }

  /** The list shown when the page mounts: empty with no logged-in user or
      an empty user id. */
  function DependentsDetails(user: Option<User>, stored: seq<User>): (r: seq<User>)
    ensures user.None? || user.value.id == "" ==> r == []
    ensures forall k :: 0 <= k < |r| ==>
      r[k] in stored && r[k].isConvertedDependent && r[k].mainAccountId == Some(user.value.id)
  {
    if user.Some? && user.value.id != "" then Recompute(stored, user.value.id) else []
  }

  /** `handleDeleteDependent`: after a confirmed and successful delete the
      list is read again from the table; otherwise it stays as it was. */
  method HandleDeleteDependent(s: Store, user: User, shown: seq<User>, dependentId: string, confirmed: bool)
    returns (shownAfter: seq<User>)
    requires s.Valid()
    modifies s
    ensures s.Valid()
    ensures !confirmed ==> shownAfter == shown && s.users == old(s.users) && s.session == old(s.session)
    ensures confirmed && (forall k :: 0 <= k < |old(s.users)| ==> old(s.users)[k].id != dependentId) ==>
      shownAfter == shown && s.users == old(s.users) && s.session == old(s.session)
    ensures confirmed && (exists k :: 0 <= k < |old(s.users)| && old(s.users)[k].id == dependentId) ==>
      s.users == Unlinked(WithoutUser(old(s.users), dependentId), user.id, dependentId)
      && (var afterDelete := if old(s.IsSessionUser(dependentId)) then None else old(s.session);
          var i := IndexOfId(s.users, user.id);
          s.session == (if i != -1 && old(s.IsSessionUser(user.id)) then Some(Strip(s.users[i])) else afterDelete))
      && shownAfter == Recompute(s.users, user.id)
      && forall k :: 0 <= k < |shownAfter| ==> shownAfter[k].id != dependentId
  {
    shownAfter := shown;
    if confirmed {
      var r := s.DeleteDependentForUser(user.id, dependentId);
      if r.Ok? {
        shownAfter := Recompute(s.users, user.id);
        DeletedStaysGone(old(s.users), user.id, dependentId);
      }
    }
  }

  /** Unlinking edits only the main account's `dependents`, so a table
      without `dependentId` still has none after it. */
  lemma DeletedStaysGone(users: seq<User>, mainId: string, dependentId: string)
    ensures forall k :: 0 <= k < |Unlinked(WithoutUser(users, dependentId), mainId, dependentId)| ==>
      Unlinked(WithoutUser(users, dependentId), mainId, dependentId)[k].id != dependentId
  {
    var w := WithoutUser(users, dependentId);
    var i := IndexOfId(w, mainId);
    if i != -1 {
      assert w[i].id != dependentId;
    }
  }
}
