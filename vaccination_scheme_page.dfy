/** The vaccination scheme of a dependent, `src/pages/VaccinationSchemePage.jsx`:
    the country's schedule (or the default one) with every entry marked
    completed or pending against the vaccines the dependent has recorded.
    The country list and the schedule table are data files that are not
    part of this model; they are the parameters `countries` and `schedules`. */
module VaccinationSchemePage {
  import opened Common
  import opened Text
  import opened Records
  import opened ManageDependentsPage
  import opened DependentDashboardPage

  datatype Country = Country(name: string, code: string)

  /** One entry of a country's schedule. */
  datatype ScheduledVaccine = ScheduledVaccine(id: string, name: string, age: string, keywords: seq<string>)

  /** `{ ...scheduledVaccine, completed }`. */
  datatype SchemeEntry = SchemeEntry(scheduled: ScheduledVaccine, completed: bool)

  const DEFAULT_SCHEDULE := "DEFAULT"

  /** The key the schedule is looked up under: the code of the first country
      with the dependent's country name. Without one the key is the text
      `undefined`, as JavaScript's property lookup makes it. */
  function ScheduleKey(countries: seq<Country>, country: Option<string>): (key: string)
    ensures (exists k :: 0 <= k < |countries| && Some(countries[k].name) == country) ==>
      exists k :: 0 <= k < |countries| && Some(countries[k].name) == country && key == countries[k].code
    ensures (forall k :: 0 <= k < |countries| ==> Some(countries[k].name) != country) ==> key == "undefined"
  {
    var hit := Find(countries, (c: Country) => Some(c.name) == country);
    if hit.Some? then hit.value.code else Display(None)
  }

  /** `allSchedules[countryCode] || allSchedules['DEFAULT']`: `None` when
      neither exists, where the page's `map` call would throw. */
  function ScheduleFor(schedules: map<string, seq<ScheduledVaccine>>, key: string): (r: Option<seq<ScheduledVaccine>>)
    ensures key in schedules ==> r == Some(schedules[key])
    ensures key !in schedules && DEFAULT_SCHEDULE in schedules ==> r == Some(schedules[DEFAULT_SCHEDULE])
    ensures r.None? <==> key !in schedules && DEFAULT_SCHEDULE !in schedules
  {
    if key in schedules then Some(schedules[key])
    else if DEFAULT_SCHEDULE in schedules then Some(schedules[DEFAULT_SCHEDULE])
    else None
  }

  /** `keywords.some(kw => name.toLowerCase().includes(kw.toLowerCase()))`. */
  predicate NameMatches(name: string, keywords: seq<string>)
    ensures NameMatches(name, keywords) <==>
      exists j :: 0 <= j < |keywords| && Includes(Lower(name), Lower(keywords[j]))
  {
    if |keywords| == 0 then false
    else Includes(Lower(name), Lower(keywords[0])) || NameMatches(name, keywords[1..])
  }

  /** `vaccines.some(v => NameMatches(v.vaccineName, keywords))`. */
  predicate HasVaccine(vaccines: seq<Vaccine>, keywords: seq<string>)
    ensures HasVaccine(vaccines, keywords) <==>
      exists i, j :: 0 <= i < |vaccines| && 0 <= j < |keywords|
        && Includes(Lower(vaccines[i].vaccineName), Lower(keywords[j]))
  {
    if |vaccines| == 0 then false
    else NameMatches(vaccines[0].vaccineName, keywords) || HasVaccine(vaccines[1..], keywords)
  }

  /** `countrySchedule.map(...)`: one entry per scheduled vaccine, in order,
      each completed iff a recorded vaccine's name contains one of its
      keywords, ignoring case. */
  function ProcessScheme(schedule: seq<ScheduledVaccine>, vaccines: Option<seq<Vaccine>>): (r: seq<SchemeEntry>)
    ensures |r| == |schedule|
    ensures forall k :: 0 <= k < |r| ==> r[k].scheduled == schedule[k]
    ensures forall k :: 0 <= k < |r| ==>
      (r[k].completed <==>
        exists i, j :: 0 <= i < |OrEmpty(vaccines)| && 0 <= j < |schedule[k].keywords|
          && Includes(Lower(OrEmpty(vaccines)[i].vaccineName), Lower(schedule[k].keywords[j])))
  {
    var vs := OrEmpty(vaccines);
    seq(|schedule|, k requires 0 <= k < |schedule| =>
      SchemeEntry(schedule[k], HasVaccine(vs, schedule[k].keywords)))
  }

  /** With no recorded vaccines every entry is pending. */
  lemma NoVaccinesAllPending(schedule: seq<ScheduledVaccine>, vaccines: Option<seq<Vaccine>>)
    requires OrEmpty(vaccines) == []
    ensures forall k :: 0 <= k < |schedule| ==> !ProcessScheme(schedule, vaccines)[k].completed
  {
  }

  /** An entry whose keyword list is empty is never completed, and one with
      an empty keyword is completed as soon as any vaccine is recorded. */
  lemma KeywordEdgeCases(vaccines: seq<Vaccine>, keywords: seq<string>)
    ensures keywords == [] ==> !HasVaccine(vaccines, keywords)
    ensures "" in keywords && |vaccines| > 0 ==> HasVaccine(vaccines, keywords)
  {
    if "" in keywords && |vaccines| > 0 {
      var j :| 0 <= j < |keywords| && keywords[j] == "";
      IncludesEmpty(Lower(vaccines[0].vaccineName));
      assert Lower(keywords[j]) == "";
    }
  }

  /** What the page's effect does. */
  datatype SchemeOutcome =
    | Scheme(dependent: User, entries: seq<SchemeEntry>)
    /** Back to `/manage-dependents` after a toast. */
    | DependentMissing
    /** No logged-in user: to `/login`. */
    | ToLogin
    /** The effect does nothing and the page keeps loading. */
    | Waiting
    /** The schedule table has neither the country nor `DEFAULT`: the `map`
        call throws. */
    | NoSchedule

  function LoadScheme(stored: seq<User>, user: Option<User>, dependentId: string,
                      countries: seq<Country>, schedules: map<string, seq<ScheduledVaccine>>): (o: SchemeOutcome)
    ensures o.ToLogin? <==> user.None?
    ensures o.Waiting? <==> user.Some? && (user.value.id == "" || dependentId == "")
    ensures o.DependentMissing? <==>
      FindDependent(stored, user, dependentId).NotFound?
    ensures o.NoSchedule? <==>
      var found := FindDependent(stored, user, dependentId);
      found.Found? && ScheduleFor(schedules, ScheduleKey(countries, found.dependent.country)).None?
    ensures o.Scheme? ==>
      var found := FindDependent(stored, user, dependentId);
      var sched := ScheduleFor(schedules, ScheduleKey(countries, found.dependent.country));
      found.Found? && sched.Some? && o.dependent == found.dependent
      && o.entries == ProcessScheme(sched.value, found.dependent.vaccines)
  {
    if user.None? then ToLogin
    else
      match FindDependent(stored, user, dependentId)
      case Idle => Waiting
      case NotFound => DependentMissing
      case Found(dep) =>
        var sched := ScheduleFor(schedules, ScheduleKey(countries, dep.country));
        if sched.None? then NoSchedule
        else Scheme(dep, ProcessScheme(sched.value, dep.vaccines))
  }
}
