/** A dependent's dashboard, `src/pages/DependentDashboardPage.jsx`: the
    lookup of the dependent among the stored records, the age in whole
    years that decides whether the vaccination-scheme button is shown, and
    the guard in front of certificate generation. Today's date is a
    parameter; dates are calendar dates with JavaScript's 0-based month,
    and reading the stored birth-date string is the parameter `parse`,
    which gives `None` for a string that is not a date. */
module DependentDashboardPage {
  import opened Common
  import opened Text
  import opened Records
  import opened ManageDependentsPage

  datatype Date = Date(year: int, month: int, day: int)

  /** `a` is the same day as `b` or an earlier one. */
  predicate OnOrBefore(a: Date, b: Date)
  {
    a.year < b.year || (a.year == b.year && (a.month < b.month || (a.month == b.month && a.day <= b.day)))
  }

  /** The `n`-th birthday of someone born on `birth`. */
  function Anniversary(birth: Date, n: int): Date
  {
    Date(birth.year + n, birth.month, birth.day)
  }

  /** `getAgeInYears`: missing without a birth date; otherwise the number
      of birthdays reached by `today`. */
  function AgeInYears(birth: Option<Date>, today: Date): (age: Option<int>)
    ensures birth.None? <==> age.None?
    ensures birth.Some? ==>
      OnOrBefore(Anniversary(birth.value, age.value), today)
      && !OnOrBefore(Anniversary(birth.value, age.value + 1), today)
  {
    if birth.None? then None
    else
      var b := birth.value;
      var years := today.year - b.year;
      var monthDifference := today.month - b.month;
      if monthDifference < 0 || (monthDifference == 0 && today.day < b.day) then Some(years - 1)
      else Some(years)
  }

  /** Reaching a later birthday means having reached every earlier one. */
  lemma AnniversariesInOrder(birth: Date, m: int, n: int, today: Date)
    requires m <= n && OnOrBefore(Anniversary(birth, n), today)
    ensures OnOrBefore(Anniversary(birth, m), today)
  {
  }

  /** The scheme button shows for an age below 18. */
  predicate ShowSchemeButton(birth: Option<Date>, today: Date)
  {
    var age := AgeInYears(birth, today);
    age.Some? && age.value < 18
  }

  /** The button shows exactly for a known birth date whose eighteenth
      birthday is still ahead. */
  lemma SchemeButtonUnderEighteen(birth: Option<Date>, today: Date)
    ensures ShowSchemeButton(birth, today) <==>
      birth.Some? && !OnOrBefore(Anniversary(birth.value, 18), today)
  {
    if birth.Some? {
      var age := AgeInYears(birth, today).value;
      if age < 18 && OnOrBefore(Anniversary(birth.value, 18), today) {
        AnniversariesInOrder(birth.value, age + 1, 18, today);
      }
      if age >= 18 {
        AnniversariesInOrder(birth.value, 18, age, today);
      }
    }
  }

  /** What the page's effect finds. */
  datatype Lookup =
    | Found(dependent: User)
    /** A toast, then back to `/manage-dependents`. */
    | NotFound
    /** The effect does nothing: no user, an empty user id or no id in the route. */
    | Idle

  /** The effect: the first stored record with the route's id that is a
      converted dependent linked back to the logged-in user. */
  function FindDependent(stored: seq<User>, user: Option<User>, dependentId: string): (r: Lookup)
    ensures r.Idle? <==> user.None? || user.value.id == "" || dependentId == ""
    ensures r.Found? ==> r.dependent in stored && LinkedDependent(r.dependent, dependentId, user.value.id)
    ensures r.NotFound? ==> forall k :: 0 <= k < |stored| ==> !LinkedDependent(stored[k], dependentId, user.value.id)
    ensures r.Found? ==> r.dependent == stored[FirstIndex(stored, (u: User) => LinkedDependent(u, dependentId, user.value.id))]
  {
    if user.None? || user.value.id == "" || dependentId == "" then Idle
    else
      var hit := Resolve(stored, dependentId, user.value.id);
      if hit.Some? then Found(hit.value) else NotFound
  }

  /** The birth date `getAgeInYears` works from: none for a missing or
      empty string. An unreadable string makes the age `NaN`, which hides
      the button just as a missing date does. */
  function BirthOf(dependent: User, parse: string -> Option<Date>): Option<Date>
  {
    if Truthy(dependent.birthDate) then parse(dependent.birthDate.value) else None
  }

  datatype DependentView = DependentView(dependent: User, vaccines: seq<Vaccine>, showSchemeButton: bool)

  /** The page state after a successful lookup. */
  function ViewOf(dependent: User, parse: string -> Option<Date>, today: Date): (v: DependentView)
    ensures v.dependent == dependent && v.vaccines == OrEmpty(dependent.vaccines)
    ensures v.showSchemeButton <==>
      Truthy(dependent.birthDate) && parse(dependent.birthDate.value).Some?
      && !OnOrBefore(Anniversary(parse(dependent.birthDate.value).value, 18), today)
  {
    var birth := BirthOf(dependent, parse);
    SchemeButtonUnderEighteen(birth, today);
    DependentView(dependent, OrEmpty(dependent.vaccines), ShowSchemeButton(birth, today))
  }

  /** `handleGenerateCertificate`: refused while no dependent is loaded or
      its list is empty; otherwise that list is certified. */
  function DependentCertificate(view: Option<DependentView>): (r: Option<seq<Vaccine>>)
    ensures r.Some? <==> view.Some? && |view.value.vaccines| > 0
    ensures r.Some? ==> r.value == view.value.vaccines
  {
    if view.None? || |view.value.vaccines| == 0 then None else Some(view.value.vaccines)
  }
}
