/** The absence mock generator of src/models/absence.mocks.ts.

    Every random draw of one record is a field of `RecordDraws`; once the
    draws are fixed, building the record is a pure function of the index, the
    date pair and the draws. */
module AbsenceMocks {
  import opened Wrappers
  import opened MockDates
  import opened Absences

  /** `absenceStatuses`: the numeric members of the status enumeration, in
      declaration order. */
  function AbsenceStatuses(values: seq<EnumValue<AbsenceStatus>>): (statuses: seq<AbsenceStatus>)
    ensures |statuses| <= |values|
    ensures forall s :: s in statuses <==> NumberValue(s) in values
  {
    if values == [] then []
    else
      var rest := AbsenceStatuses(values[1..]);
      assert values == [values[0]] + values[1..];
      if values[0].NumberValue? then [values[0].member] + rest else rest
  }

  /** `absenceTypesWithoutOvertimeReduction`: the numeric members of the type
      enumeration except the overtime reduction and the two sick types. */
  function TypesWithoutOvertimeReduction(values: seq<EnumValue<AbsenceType>>): (types: seq<AbsenceType>)
    ensures |types| <= |values|
    ensures forall t :: t in types <==>
      NumberValue(t) in values && t != ReductionOfOvertime && !IsSickType(t)
  {
    if values == [] then []
    else
      var rest := TypesWithoutOvertimeReduction(values[1..]);
      assert values == [values[0]] + values[1..];
      var v := values[0];
      if v.NumberValue? && v.member != ReductionOfOvertime && !IsSickType(v.member)
      then [v.member] + rest
      else rest
  }

  /** `absenceStatuses` keeps declaration order and one entry per numeric
      value: filtering a concatenation concatenates the filtered parts. */
  lemma {:induction false} AbsenceStatusesAppend(a: seq<EnumValue<AbsenceStatus>>, b: seq<EnumValue<AbsenceStatus>>)
    ensures AbsenceStatuses(a + b) == AbsenceStatuses(a) + AbsenceStatuses(b)
  {
    if a == [] {
      assert a + b == b;
    } else {
      assert (a + b)[0] == a[0];
      assert (a + b)[1..] == a[1..] + b;
      AbsenceStatusesAppend(a[1..], b);
    }
  }

  /** A single enumeration entry contributes its value exactly when it is a
      numeric one. */
  lemma AbsenceStatusesSingle(v: EnumValue<AbsenceStatus>)
    ensures AbsenceStatuses([v]) == if v.NumberValue? then [v.member] else []
  {
  }

  /** `absenceTypesWithoutOvertimeReduction` keeps declaration order and one
      entry per kept value: filtering a concatenation concatenates the
      filtered parts. Order and length decide the `index %` cycle. */
  lemma {:induction false} TypesAppend(a: seq<EnumValue<AbsenceType>>, b: seq<EnumValue<AbsenceType>>)
    ensures TypesWithoutOvertimeReduction(a + b)
      == TypesWithoutOvertimeReduction(a) + TypesWithoutOvertimeReduction(b)
  {
    if a == [] {
      assert a + b == b;
    } else {
      assert (a + b)[0] == a[0];
      assert (a + b)[1..] == a[1..] + b;
      TypesAppend(a[1..], b);
    }
  }

  /** A single enumeration entry is kept exactly when it is a numeric value
      other than the overtime reduction and the two sick types. */
  lemma TypesSingle(v: EnumValue<AbsenceType>)
    ensures TypesWithoutOvertimeReduction([v])
      == if v.NumberValue? && v.member != ReductionOfOvertime && !IsSickType(v.member)
         then [v.member] else []
  {
  }

  /** What the generator takes from the modules it imports: the two
      enumerations as `Object.values` lists them, and `endOfYear`. */
  datatype Context = Context(
    statusEnum: seq<EnumValue<AbsenceStatus>>,
    typeEnum: seq<EnumValue<AbsenceType>>,
    endOfYear: Day -> Day)

  /** The enumerations declare `Approved` and at least one type the plain
      records cycle through, and `endOfYear` obeys its laws. */
  ghost predicate ValidContext(ctx: Context) {
    && IsEndOfYear(ctx.endOfYear)
    && NumberValue(Approved) in ctx.statusEnum
    && |TypesWithoutOvertimeReduction(ctx.typeEnum)| > 0
  }

  /** The random draws behind one record, in the order the source makes them. */
  datatype RecordDraws = RecordDraws(
    isOvertimeReduction: bool, // boolean(0.2)
    sick: bool,                // boolean(0.2), consulted only without overtime reduction
    halfDay: bool,             // boolean(0.4), consulted only without overtime reduction
    hasNote: bool,             // boolean(0.2)
    since: Day,                // date.between(from, to), truncated to its day
    lengthDays: nat,           // int in [0, 30]
    forceApproved: bool,       // boolean(0.4)
    statusIndex: nat,          // position picked by arrayElement(absenceStatuses)
    enquiryLead: nat,          // int in [5, 200]
    noteText: string,          // lorem.words of 2 to 10 words
    enquiredIsNull: bool,      // boolean(0.6)
    approvalDelay: nat,        // int in [0, 4]
    countHours: real,          // float in [0.1, 8]
    dayDiscount: nat,          // int in [0, 3]
    isSickDay: bool,           // boolean(0.5): SickDay, else SickDayOfChild
    sickNote: bool)            // boolean(0.5)

  /** The ranges the random provider guarantees for one record's draws. */
  ghost predicate ValidDraws(ctx: Context, pair: DayPair, d: RecordDraws) {
    && pair.from <= d.since <= pair.to
    && d.lengthDays <= 30
    && d.statusIndex < |AbsenceStatuses(ctx.statusEnum)|
    && 5 <= d.enquiryLead <= 200
    && d.approvalDelay <= 4
    && 0.1 <= d.countHours <= 8.0
    && d.dayDiscount <= 3
  }

  predicate IsSick(d: RecordDraws) {
    !d.isOvertimeReduction && d.sick
  }

  predicate IsHalfDay(d: RecordDraws) {
    !d.isOvertimeReduction && d.halfDay
  }

  /** Neither an overtime reduction nor sick: the record cycles its type. */
  predicate IsPlain(d: RecordDraws) {
    !d.isOvertimeReduction && !IsSick(d)
  }

  /** `dateUntil`: the start day for a half day, else the earliest of the
      pair's upper bound, the drawn length and the end of the start's year. */
  function DateUntil(ctx: Context, pair: DayPair, d: RecordDraws): (until: Day)
    requires ValidContext(ctx) && ValidDraws(ctx, pair, d)
    ensures IsHalfDay(d) ==> until == d.since
    ensures !IsHalfDay(d) ==>
      && until <= pair.to
      && until <= d.since + d.lengthDays * ONE_DAY
      && until <= ctx.endOfYear(d.since)
      && (until == pair.to || until == d.since + d.lengthDays * ONE_DAY
          || until == ctx.endOfYear(d.since))
    ensures d.since <= until <= pair.to && until <= d.since + 30 * ONE_DAY
    ensures SameYear(ctx.endOfYear, d.since, until)
  {
    if IsHalfDay(d) then d.since
    else
      var bound := if pair.to <= d.since + d.lengthDays * ONE_DAY
        then pair.to else d.since + d.lengthDays * ONE_DAY;
      var until := if bound <= ctx.endOfYear(d.since) then bound else ctx.endOfYear(d.since);
      assert d.since <= ctx.endOfYear(d.since);
      until
  }

  /** `status`: `Approved` when forced, else the picked enumeration member. */
  function Status(ctx: Context, d: RecordDraws): (status: AbsenceStatus)
    requires ValidContext(ctx) && d.statusIndex < |AbsenceStatuses(ctx.statusEnum)|
    ensures status in AbsenceStatuses(ctx.statusEnum)
    ensures d.forceApproved ==> status == Approved
  {
    if d.forceApproved then Approved else AbsenceStatuses(ctx.statusEnum)[d.statusIndex]
  }

  /** `dateEnquiredDateTime`: the drawn lead time before the start day. */
  function EnquiredDay(since: Day, d: RecordDraws): (enquired: Day)
    requires 5 <= d.enquiryLead <= 200
    ensures since - 200 * ONE_DAY <= enquired <= since - 5 * ONE_DAY
  {
    since - d.enquiryLead * ONE_DAY
  }

  /** `commonAbsence`: the keys every record shares. */
  function CommonAbsenceFor(ctx: Context, index: nat, pair: DayPair, d: RecordDraws): (c: CommonAbsence)
    requires ValidContext(ctx) && ValidDraws(ctx, pair, d)
    ensures c.id == index && c.usersId == 0
    ensures c.dateSince == d.since && c.dateUntil == DateUntil(ctx, pair, d)
    ensures pair.from <= c.dateSince <= c.dateUntil <= pair.to
    ensures c.status in AbsenceStatuses(ctx.statusEnum)
    ensures c.note.Some? <==> d.hasNote
    ensures c.dateEnquired.Some? ==> c.dateEnquired.value == EnquiredDay(c.dateSince, d)
    ensures ApprovalConsistent(c)
    ensures c.dateApproved.Some? ==>
      && EnquiredDay(c.dateSince, d) <= c.dateApproved.value <= EnquiredDay(c.dateSince, d) + 4 * ONE_DAY
      && c.dateApproved.value < c.dateSince
  {
    var since := d.since;
    var status := Status(ctx, d);
    var enquired := EnquiredDay(since, d);
    CommonAbsence(
      index,
      0,
      since,
      DateUntil(ctx, pair, d),
      status,
      if d.hasNote then Some(d.noteText) else None,
      if d.enquiredIsNull then None else Some(enquired),
      if status == Approved then Some(enquired + d.approvalDelay * ONE_DAY) else None,
      if status == Approved then Some(1) else None)
  }

  /** `countDays` of a record that is not an overtime reduction: half a day,
      or the whole days the record spans less the drawn discount, at least 1. */
  function CountDays(halfDay: bool, since: Day, until: Day, discount: nat): (days: real)
    ensures halfDay ==> days == 0.5
    ensures !halfDay ==>
      && days >= 1.0
      && days >= ((until - since) / ONE_DAY - discount) as real
      && (days == 1.0 || days == ((until - since) / ONE_DAY - discount) as real)
      && days.Floor as real == days
    ensures !halfDay && since <= until ==> days <= if until - since >= 1 then (until - since) as real else 1.0
  {
    if halfDay then 0.5
    else
      var span := ((until - since) / ONE_DAY - discount) as real;
      if span >= 1.0 then span else 1.0
  }

  /** One record, built from its index, its date pair and its draws. */
  function MockAbsence(ctx: Context, index: nat, pair: DayPair, d: RecordDraws): (absence: Absence)
    requires ValidContext(ctx) && ValidDraws(ctx, pair, d)
    ensures absence.common == CommonAbsenceFor(ctx, index, pair, d)
    ensures KeysMatchType(absence)
    ensures absence.absenceType == ReductionOfOvertime <==> d.isOvertimeReduction
    ensures IsSickType(absence.absenceType) <==> IsSick(d)
    ensures absence.absenceType in TypesWithoutOvertimeReduction(ctx.typeEnum) <==> IsPlain(d)
    ensures IsPlain(d) ==>
      var plain := TypesWithoutOvertimeReduction(ctx.typeEnum);
      absence.absenceType == plain[index % |plain|]
    ensures d.isOvertimeReduction ==>
      && absence.countHours == Present(d.countHours)
      && !IsHalfDay(d) && !IsSick(d)
    ensures IsPlain(d) ==> absence.countDays == Present(CountDays(
      IsHalfDay(d), absence.common.dateSince, absence.common.dateUntil, d.dayDiscount))
    ensures IsSick(d) ==>
      absence.sickNote == Present(d.sickNote) && (absence.absenceType == SickDay <==> d.isSickDay)
  {
    var common := CommonAbsenceFor(ctx, index, pair, d);
    if d.isOvertimeReduction then
      Absence(common, ReductionOfOvertime, Null, Present(d.countHours), Missing)
    else
      // `commonNonOvertimeReduction`; the sick branch does not spread it.
      var countDays := CountDays(IsHalfDay(d), common.dateSince, common.dateUntil, d.dayDiscount);
      if IsSick(d) then
        Absence(common, if d.isSickDay then SickDay else SickDayOfChild, Missing, Missing, Present(d.sickNote))
      else
        var plain := TypesWithoutOvertimeReduction(ctx.typeEnum);
        assert plain[index % |plain|] in plain;
        Absence(common, plain[index % |plain|], Present(countDays), Null, Missing)
  }

  /** Draws for every pair of a batch. */
  ghost predicate DrawsFor(ctx: Context, pairs: seq<DayPair>, draws: seq<RecordDraws>) {
    && |draws| == |pairs|
    && forall i :: 0 <= i < |pairs| ==> ValidDraws(ctx, pairs[i], draws[i])
  }

  /** `dayPairs.map(...)`: one record per pair, in pair order, each built
      with its own position as index. */
  function MockBatch(ctx: Context, pairs: seq<DayPair>, draws: seq<RecordDraws>): (absences: seq<Absence>)
    requires ValidContext(ctx) && DrawsFor(ctx, pairs, draws)
    ensures |absences| == |pairs|
    ensures forall i :: 0 <= i < |pairs| ==>
      absences[i] == MockAbsence(ctx, i, pairs[i], draws[i])
  {
    seq(|pairs|, i requires 0 <= i < |pairs| => MockAbsence(ctx, i, pairs[i], draws[i]))
  }

  /** The options object; a missing key takes its default. */
  datatype MockOptions = MockOptions(count: Option<nat>, dateSinceBetween: Option<DayPair>)

  function Count(options: MockOptions): nat {
    if options.count.Some? then options.count.value else 1
  }

  function Window(options: MockOptions): DayPair {
    if options.dateSinceBetween.Some? then options.dateSinceBetween.value
    else DayPair(DEFAULT_FROM, DEFAULT_TO)
  }

  /** `createAbsenceMocks`: `dayPairs` stands for what `toPairs` makes of the
      generated dates, `draws` for the random provider. */
  function CreateAbsenceMocks(ctx: Context, options: MockOptions, dayPairs: seq<DayPair>, draws: seq<RecordDraws>)
    : (absences: seq<Absence>)
    requires ValidContext(ctx)
    requires IsPairing(dayPairs, Count(options), Window(options))
    requires DrawsFor(ctx, dayPairs, draws)
    ensures |absences| == Count(options)
    ensures forall i :: 0 <= i < |absences| ==>
      absences[i] == MockAbsence(ctx, i, dayPairs[i], draws[i])
    ensures forall i :: 0 <= i < |absences| ==>
      var c := absences[i].common;
      && c.id == i && c.usersId == 0
      && dayPairs[i].from <= c.dateSince <= c.dateUntil <= dayPairs[i].to
      && Window(options).from <= c.dateSince && c.dateUntil <= Window(options).to
      && SameYear(ctx.endOfYear, c.dateSince, c.dateUntil)
      && ApprovalConsistent(c)
      && KeysMatchType(absences[i])
  {
    MockBatch(ctx, dayPairs, draws)
  }
}
