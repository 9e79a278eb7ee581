/** The self-certificate flow of `src/pages/CertificatePage.jsx`: refuse a
    session user without vaccines, generate the PDF, and only then record
    the download in the `vacun_certificates` log, one entry per user. The
    PDF generation is reduced to whether it returned normally. */
module CertificatePage {
  import opened Common
  import opened Text
  import opened Records

  /** One entry of the certificate log. */
  datatype CertEntry = CertEntry(
    id: string,
    userId: string,
    patientName: string,
    documentId: Option<string>,
    vaccineName: string,
    dose: string,
    vaccinationDate: string,
    issueDate: string,
    downloaded: bool)

  /** The number a string of decimal digits denotes, read left to right. */
  function DigitsValue(s: string): nat
    requires forall k :: 0 <= k < |s| ==> '0' <= s[k] <= '9'
  {
    if |s| == 0 then 0
    else DigitsValue(s[..|s| - 1]) * 10 + (s[|s| - 1] as int - '0' as int)
  }

  /** The decimal rendering of a count inside a template literal: digits
      only, denoting the count, without a leading zero. */
  function Decimal(n: nat): (s: string)
    ensures |s| >= 1
    ensures forall k :: 0 <= k < |s| ==> '0' <= s[k] <= '9'
    ensures DigitsValue(s) == n
    ensures n > 0 ==> s[0] != '0'
    ensures n < 10 <==> |s| == 1
  {
    if n < 10 then [('0' as int + n) as char]
    else
      var front := Decimal(n / 10);
      var s := front + [('0' as int + n % 10) as char];
      assert s[..|s| - 1] == front;
      s
  }

  /** The guard at the top of `generateAndDownload`. */
  predicate HasVaccines(user: Option<User>)
  {
    user.Some? && user.value.vaccines.Some? && |user.value.vaccines.value| > 0
  }

  /** The entry written for `user` at time `now` (its `Date.now()` id
      suffix). The two ISO timestamps come from two separate `new Date()`
      calls, so they are separate parameters. */
  function NewEntry(user: User, now: string, vaccinationIso: string, issueIso: string): CertEntry
  {
    CertEntry(
      user.id + "-" + now,
      user.id,
      FullName(user),
      user.documentId,
      Decimal(|OrEmpty(user.vaccines)|) + " vacuna(s)",
      "Unificado",
      vaccinationIso,
      issueIso,
      true)
  }

  predicate ForUser(c: CertEntry, userId: string)
  {
    c.userId == userId
  }

  /** `certificates.findIndex(c => c.userId === user.id)`. */
  function EntryIndex(log: seq<CertEntry>, userId: string): (i: int)
    ensures -1 <= i < |log|
    ensures i == -1 <==> forall k :: 0 <= k < |log| ==> log[k].userId != userId
    ensures 0 <= i ==> log[i].userId == userId && forall k :: 0 <= k < i ==> log[k].userId != userId
  {
    FirstIndex(log, (c: CertEntry) => ForUser(c, userId))
  }

  /** The log after recording `e`: the first entry of the same user is
      replaced, else `e` is pushed. The merge `{ ...old, ...e, downloaded:
      true }` keeps nothing of the old entry, since `e` carries every field. */
  function Upserted(log: seq<CertEntry>, e: CertEntry): seq<CertEntry>
  {
    var i := EntryIndex(log, e.userId);
    if i == -1 then log + [e] else log[i := e.(downloaded := true)]
  }

  /** Recording an entry marked downloaded (as the page's entries are)
      grows the log by at most one entry; the entry for the user is the
      first with that user id, either in place of the old first one or
      appended; every other entry is untouched. */
  lemma UpsertedShape(log: seq<CertEntry>, e: CertEntry)
    requires e.downloaded
    ensures var r := Upserted(log, e);
      var i := EntryIndex(log, e.userId);
      && |log| <= |r| <= |log| + 1
      && (|r| == |log| + 1 <==> i == -1)
      && EntryIndex(r, e.userId) == (if i == -1 then |log| else i)
      && r[EntryIndex(r, e.userId)] == e
      && forall k :: 0 <= k < |log| && k != i ==> r[k] == log[k]
  {
    var r := Upserted(log, e);
    var i := EntryIndex(log, e.userId);
    if i == -1 {
      assert r[|log|] == e;
      assert forall k :: 0 <= k < |log| ==> r[k] == log[k];
    } else {
      assert forall k :: 0 <= k < i ==> r[k] == log[k];
      var j := EntryIndex(r, e.userId);
      assert r[i].userId == e.userId;
      assert j != -1 && !(j < i) && !(i < j);
    }
  }

  /** Recording the same entry twice is the same as recording it once. */
  lemma UpsertedIdempotent(log: seq<CertEntry>, e: CertEntry)
    requires e.downloaded
    ensures Upserted(Upserted(log, e), e) == Upserted(log, e)
  {
    UpsertedShape(log, e);
  }

  /** At most one entry per user. */
  predicate OnePerUser(log: seq<CertEntry>)
  {
    forall j, k :: 0 <= j < k < |log| ==> log[j].userId != log[k].userId
  }

  /** Recording keeps the log at one entry per user. */
  lemma UpsertedKeepsOnePerUser(log: seq<CertEntry>, e: CertEntry)
    requires e.downloaded && OnePerUser(log)
    ensures OnePerUser(Upserted(log, e))
  {
    var r := Upserted(log, e);
    var i := EntryIndex(log, e.userId);
    if i == -1 {
      forall j, k | 0 <= j < k < |r|
        ensures r[j].userId != r[k].userId
      {
        if k == |log| {
          assert r[j] == log[j];
        } else {
          assert r[j] == log[j] && r[k] == log[k];
        }
      }
    } else {
      forall j, k | 0 <= j < k < |r|
        ensures r[j].userId != r[k].userId
      {
        if j == i {
          assert log[i].userId == e.userId;
        } else if k == i {
          assert log[i].userId == e.userId;
        } else {
          assert r[j] == log[j] && r[k] == log[k];
        }
      }
    }
  }

  /** The `vacun_certificates` log. */
  class CertificateLog {
    var entries: seq<CertEntry>

    constructor (stored: seq<CertEntry>)
      ensures entries == stored
    {
      entries := stored;
    }

    /** The find-then-assign-or-push step of the page. */
    method Upsert(e: CertEntry)
      modifies this
      ensures entries == Upserted(old(entries), e)
    {
      var i := EntryIndex(entries, e.userId);
      if i != -1 {
        entries := entries[i := e.(downloaded := true)];
      } else {
        entries := entries + [e];
      }
    }
  }

  datatype Outcome = NoVaccines | GenerationFailed | Logged(entry: CertEntry)

  /** `generateAndDownload`: the log is written only after the PDF was
      generated; a refused user or a failed generation leaves it alone. */
  method GenerateAndDownload(log: CertificateLog, user: Option<User>, generated: bool, now: string,
                             vaccinationIso: string, issueIso: string)
    returns (o: Outcome)
    modifies log
    ensures !HasVaccines(user) ==> o == NoVaccines && log.entries == old(log.entries)
    ensures HasVaccines(user) && !generated ==> o == GenerationFailed && log.entries == old(log.entries)
    ensures HasVaccines(user) && generated ==>
      o == Logged(NewEntry(user.value, now, vaccinationIso, issueIso))
      && log.entries == Upserted(old(log.entries), o.entry)
      && o.entry.dose == "Unificado" && o.entry.downloaded && o.entry.userId == user.value.id
      && o.entry.vaccinationDate == vaccinationIso && o.entry.issueDate == issueIso
  {
    if !HasVaccines(user) {
      return NoVaccines;
    }
    if !generated {
      return GenerationFailed;
    }
    var entry := NewEntry(user.value, now, vaccinationIso, issueIso);
    log.Upsert(entry);
    return Logged(entry);
  }
}
