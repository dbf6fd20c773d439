/** Shared value types: chambers, majority kinds, dates, citizens, vote records and requests. */
module Types {
  import opened Wrappers

  /** Chamber of parliament; the enum values are "Sejm" and "Senat". */
  datatype Chamber = Sejm | Senate

  /** Majority kinds named by the Constitution. */
  datatype MajorityType = Simple | Absolute | TwoThirds | ThreeFifths

  /** Art. 96(1) and Art. 97(1): statutory sizes of the chambers. */
  const SejmDeputies: int := 460
  const SenateSenators: int := 100

  // ---------------------------------------------------------------------------
  // Dates
  // ---------------------------------------------------------------------------

  /** A calendar date, as `datetime.date` (year, month, day). */
  datatype Date = Date(year: int, month: int, day: int)

  predicate IsLeapYear(y: int)
  {
    y % 4 == 0 && (y % 100 != 0 || y % 400 == 0)
  }

  function DaysInMonth(y: int, m: int): int
    requires 1 <= m <= 12
  {
    if m == 2 then (if IsLeapYear(y) then 29 else 28)
    else if m == 4 || m == 6 || m == 9 || m == 11 then 30
    else 31
  }

  /** A date of the Gregorian calendar, as every `datetime.date` is. */
  predicate ValidDate(d: Date)
  {
    1 <= d.month <= 12 && 1 <= d.day <= DaysInMonth(d.year, d.month)
  }

  /** Python's tuple comparison `(a.month, a.day) < (b.month, b.day)`. */
  predicate MonthDayBefore(a: Date, b: Date)
  {
    a.month < b.month || (a.month == b.month && a.day < b.day)
  }

  /** Chronological order of dates, `a < b`. */
  predicate Before(a: Date, b: Date)
  {
    a.year < b.year || (a.year == b.year && MonthDayBefore(a, b))
  }

  /** The calendar day after `d`. */
  function NextDay(d: Date): (n: Date)
    requires ValidDate(d)
    ensures ValidDate(n) && Before(d, n)
    ensures forall x :: ValidDate(x) && Before(d, x) ==> !Before(x, n)
  {
    if d.day < DaysInMonth(d.year, d.month) then Date(d.year, d.month, d.day + 1)
    else if d.month < 12 then Date(d.year, d.month + 1, 1)
    else Date(d.year + 1, 1, 1)
  }

  /** The same month and day as `born`, `years` years later. */
  function Anniversary(born: Date, years: int): Date
  {
    Date(born.year + years, born.month, born.day)
  }

  // ---------------------------------------------------------------------------
  // Citizens
  // ---------------------------------------------------------------------------

  /** A person; by default a Polish citizen without an Art. 99(3) conviction. */
  datatype Citizen = Citizen(
    name: string,
    dateOfBirth: Date,
    polishCitizen: bool := true,
    criminalRecord: bool := false)

  /** `Citizen.age_at`: the number of whole years completed on `on`. */
  function AgeAt(c: Citizen, on: Date): (age: int)
    ensures !Before(on, Anniversary(c.dateOfBirth, age))
    ensures Before(on, Anniversary(c.dateOfBirth, age + 1))
  {
    var born := c.dateOfBirth;
    var years := on.year - born.year;
    if MonthDayBefore(on, born) then years - 1 else years
  }

  /** `citizen.age_on`: a lookup object indexed by dates. */
  datatype AgeLookup = AgeLookup(dob: Date)

  function AgeOn(c: Citizen): (l: AgeLookup)
    ensures forall on :: Lookup(l, on) == AgeAt(c, on)
  {
    AgeLookup(c.dateOfBirth)
  }

  /** `_AgeLookup.__getitem__`, a second copy of the age computation. */
  function Lookup(l: AgeLookup, on: Date): (age: int)
    ensures !Before(on, Anniversary(l.dob, age))
    ensures Before(on, Anniversary(l.dob, age + 1))
  {
    var years := on.year - l.dob.year;
    if MonthDayBefore(on, l.dob) then years - 1 else years
  }

  // ---------------------------------------------------------------------------
  // Votes, restrictions and requests
  // ---------------------------------------------------------------------------

  /** The tally of one chamber vote; abstentions default to 0, the membership to the chamber's. */
  datatype VoteRecord = VoteRecord(
    chamber: Chamber,
    votesFor: int,
    votesAgainst: int,
    votesAbstain: int := 0,
    statutoryMembers: Option<int> := None)

  /** `total_present`: every ballot cast, whichever way, counts one member as present. */
  function TotalPresent(v: VoteRecord): (t: int)
    ensures v.votesFor >= 0 && v.votesAgainst >= 0 && v.votesAbstain >= 0 ==>
      t >= v.votesFor && t >= v.votesAgainst && t >= v.votesAbstain
    ensures v.votesFor == 0 && v.votesAgainst == 0 ==> t == v.votesAbstain
  {
    v.votesFor + v.votesAgainst + v.votesAbstain
  }

  /** The statutory number of members the vote is measured against. */
  function Members(v: VoteRecord): (m: int)
    ensures v.statutoryMembers.Some? ==> m == v.statutoryMembers.value
    ensures v.statutoryMembers.None? && v.chamber == Sejm ==> m == SejmDeputies
    ensures v.statutoryMembers.None? && v.chamber == Senate ==> m == SenateSenators
  {
    match v.statutoryMembers
    case Some(n) => n
    case None => if v.chamber == Sejm then 460 else 100
  }

  /** A proposed restriction of rights; every Art. 31(3) condition defaults to unmet. */
  datatype RightsRestriction = RightsRestriction(
    description: string,
    byStatute: bool := false,
    necessaryInDemocraticState: bool := false,
    legitimateAim: bool := false,
    proportionate: bool := false,
    preservesEssence: bool := false)

  /** An extradition request; every flag but citizenship defaults to false. */
  datatype ExtraditionRequest = ExtraditionRequest(
    subjectIsPolishCitizen: bool,
    requestingStateOrBody: string,
    basedOnRatifiedTreaty: bool := false,
    actCommittedAbroad: bool := false,
    doubleCriminality: bool := false,
    internationalJudicialBody: bool := false,
    genocideOrWarCrime: bool := false,
    politicalNonviolentOffense: bool := false,
    violatesHumanRights: bool := false,
    courtApproved: bool := false)

  // ---------------------------------------------------------------------------
  // Properties of the value types
  // ---------------------------------------------------------------------------

  /** The age reaches `n` exactly when the `n`-th anniversary of birth is on or before `on`. */
  lemma AgeReachedIffAnniversaryPassed(c: Citizen, on: Date, n: int)
    ensures AgeAt(c, on) >= n <==> !Before(on, Anniversary(c.dateOfBirth, n))
  {
  }

  /** On the birthday itself the age is the plain difference of years. */
  lemma AgeOnBirthday(c: Citizen, on: Date)
    requires on.month == c.dateOfBirth.month && on.day == c.dateOfBirth.day
    ensures AgeAt(c, on) == on.year - c.dateOfBirth.year
  {
  }

  /** Age never decreases as the date advances. */
  lemma AgeIsMonotone(c: Citizen, earlier: Date, later: Date)
    requires !Before(later, earlier)
    ensures AgeAt(c, earlier) <= AgeAt(c, later)
  {
  }

  /** A person born `n` years to the day before `on` is `n` on that day. */
  lemma AgeOnExactAnniversary(c: Citizen, on: Date, n: int)
    requires c.dateOfBirth == Date(on.year - n, on.month, on.day)
    ensures AgeAt(c, on) == n
  {
  }

  /** A person born one calendar day later is still `n - 1` on that day. */
  lemma AgeOneDayShort(c: Citizen, on: Date, n: int)
    requires ValidDate(Date(on.year - n, on.month, on.day))
    requires c.dateOfBirth == NextDay(Date(on.year - n, on.month, on.day))
    ensures AgeAt(c, on) == n - 1
  {
  }

  /** `age_on[d]` and `age_at(d)` agree for every date. */
  lemma LookupAgreesWithAgeAt(c: Citizen, on: Date)
    ensures Lookup(AgeOn(c), on) == AgeAt(c, on)
  {
  }

  /** A tally recorded without abstentions counts only the votes for and against as present. */
  lemma TotalPresentWithoutAbstentions(chamber: Chamber, votesFor: int, votesAgainst: int)
    ensures TotalPresent(VoteRecord(chamber, votesFor, votesAgainst)) == votesFor + votesAgainst
  {
  }

  /**
   * Presence grows by one with each ballot in any column, and does not depend on
   * the chamber or on the statutory membership.
   */
  lemma TotalPresentCountsEachBallot(v: VoteRecord, chamber: Chamber, members: Option<int>)
    ensures TotalPresent(v.(votesFor := v.votesFor + 1)) == TotalPresent(v) + 1
    ensures TotalPresent(v.(votesAgainst := v.votesAgainst + 1)) == TotalPresent(v) + 1
    ensures TotalPresent(v.(votesAbstain := v.votesAbstain + 1)) == TotalPresent(v) + 1
    ensures TotalPresent(v.(chamber := chamber, statutoryMembers := members)) == TotalPresent(v)
  {
  }

  /** A citizen built from a name and a birth date is a Polish citizen with a clean record. */
  lemma CitizenDefaults(name: string, born: Date)
    ensures Citizen(name, born).polishCitizen && !Citizen(name, born).criminalRecord
  {
  }
}
