/** The shape of an absence record and of the enumerations it refers to.
    The enumerations are declared in src/models/absence.ts, which is not part
    of this model: only the members the generator singles out are named here,
    the other members are carried by their numeric code. */
module Absences {
  import opened Wrappers
  import opened MockDates

  datatype AbsenceStatus = Approved | OtherStatus(code: int)

  datatype AbsenceType =
    | ReductionOfOvertime
    | SickDay
    | SickDayOfChild
    | OtherType(code: int)

  predicate IsSickType(t: AbsenceType) {
    t == SickDay || t == SickDayOfChild
  }

  /** One entry of `Object.values(E)` for a numeric TypeScript enumeration `E`:
      the compiler emits a reverse mapping, so the list holds the member names
      (strings) as well as the member values (numbers). */
  datatype EnumValue<T> = NameKey(name: string) | NumberValue(member: T)

  /** The keys every generated record shares (`commonAbsence`). */
  datatype CommonAbsence = CommonAbsence(
    id: nat,
    usersId: int,
    dateSince: Day,
    dateUntil: Day,
    status: AbsenceStatus,
    note: Option<string>,
    dateEnquired: Option<Day>,
    dateApproved: Option<Day>,
    approvedBy: Option<int>)

  /** A generated record: the shared keys spread into it, its `type`, and the
      variant-specific keys, each of which may be missing from the object. */
  datatype Absence = Absence(
    common: CommonAbsence,
    absenceType: AbsenceType,
    countDays: Field<real>,
    countHours: Field<real>,
    sickNote: Field<bool>)

  /** The approval keys agree with the status: both are set, to the approver 1 and a date,
      exactly when the absence is approved. */
  predicate ApprovalConsistent(c: CommonAbsence) {
    if c.status == Approved then c.approvedBy == Some(1) && c.dateApproved.Some?
    else c.approvedBy == None && c.dateApproved == None
  }

  /** Which variant-specific keys a record carries, by its type: an overtime
      reduction counts hours, a sick day carries neither count but a
      `sickNote`, every other type counts days. */
  predicate KeysMatchType(a: Absence) {
    if a.absenceType == ReductionOfOvertime then
      a.countDays == Null && a.countHours.Present? && a.sickNote == Missing
    else if IsSickType(a.absenceType) then
      a.countDays == Missing && a.countHours == Missing && a.sickNote.Present?
    else
      a.countHours == Null && a.countDays.Present? && a.countDays.value >= 0.5
      && a.sickNote == Missing
  }
}
