# Absence mock generator

This project models `createAbsenceMocks` from the Clockodo client library
(`src/models/absence.mocks.ts`). The function is a test-fixture generator. It
takes a count and a date window, asks the date helpers for one `[from, to]`
pair per record, and builds one absence record per pair. Each record is an
overtime reduction, a sick day or a plain absence, and its dates, status,
approval and enquiry keys come from random draws.

The model makes the randomness explicit. Every draw that one record consumes
is a field of `RecordDraws`, and `ValidDraws` states the ranges the random
provider guarantees. With the draws fixed, a record is a pure function of its
index, its date pair and its draws (`MockAbsence`). The batch maps that
function over the pairs (`MockBatch`, `CreateAbsenceMocks`).

Modules:

- `Wrappers`: `Option` for nullable keys, and `Field` for the keys a record
  may lack altogether (`Missing`), hold as `null` (`Null`) or set (`Present`).
- `MockDates`: whole-day dates, `ONE_DAY`, the default window, and the laws
  assumed of `endOfYear` and of the pairing helpers.
- `Absences`: the record shape and the enumerations, with the two record
  invariants `ApprovalConsistent` and `KeysMatchType`.
- `AbsenceMocks`: the generator.
- `AbsenceMockProperties`: lemmas about whole batches.

Dates are day numbers counted from 1970-01-01. Adding `k * ONE_DAY` is
therefore adding `k`, and `startOfDay` and `isoDateFromDateTime` are the
identity. The enumerations `AbsenceStatus` and `AbsenceType` are declared in
`src/models/absence.ts`, which is not part of this model. The generator sees
them through `Object.values`, which for a numeric TypeScript enumeration lists
the member names as well as the numeric values. The model therefore takes that
list as input (`EnumValue`) and filters it as the source does. Only the members
the generator singles out are named (`Approved`, `ReductionOfOvertime`,
`SickDay`, `SickDayOfChild`). Every other member is carried by its numeric
code.

Two record-level claims one might expect do not hold of the code as written.
The model follows the code on both:

- Sick records are built by spreading `commonAbsence`, not
  `commonNonOvertimeReduction` (`src/models/absence.mocks.ts:125-133`). They
  carry neither `countDays` nor `countHours`. So "exactly one of the two
  counts per record" holds only for records that are not sick
  (`KeysMatchType`).
- Only plain records use the `index %` cycle. A batch with as many records as
  there are plain types therefore need not show every plain type
  (`CoverageNotGuaranteed`). What does hold is that any run of that many
  consecutive plain records shows them all (`PlainRunCoversTypes`).

## Model

| member | source | states |
|---|---|---|
| `AbsenceMocks.AbsenceStatuses` | src/models/absence.mocks.ts:15-17 | a status is in `absenceStatuses` exactly when the enumeration lists it as a numeric value; the list is no longer than `Object.values` |
| `AbsenceMocks.TypesWithoutOvertimeReduction` | src/models/absence.mocks.ts:18-31 | a type is in the list exactly when the enumeration lists it as a numeric value and it is none of `ReductionOfOvertime`, `SickDay`, `SickDayOfChild` |
| `AbsenceMocks.AbsenceStatusesAppend` | src/models/absence.mocks.ts:15-17 | the status list keeps declaration order and one entry per numeric value: the filter of `a + b` is the filter of `a` followed by the filter of `b` |
| `AbsenceMocks.AbsenceStatusesSingle` | src/models/absence.mocks.ts:15-17 | one entry contributes its value exactly when `typeof` is `"number"` |
| `AbsenceMocks.TypesAppend` | src/models/absence.mocks.ts:18-31 | the plain type list keeps declaration order and one entry per kept value: the filter of `a + b` is the filter of `a` followed by the filter of `b`, which fixes the order and length of the `index %` cycle |
| `AbsenceMocks.TypesSingle` | src/models/absence.mocks.ts:18-31 | one entry is kept exactly when it is a numeric value other than `ReductionOfOvertime`, `SickDay` and `SickDayOfChild` |
| `AbsenceMocks.DateUntil` | src/models/absence.mocks.ts:59-70 | a half day ends on its start day; otherwise the end day is one of the pair's `to`, the start plus the drawn 0-30 days, or the end of the start's year, and is at most each of them; always start <= end <= `to`, end <= start + 30 days, and both days lie in the same year |
| `AbsenceMocks.Status` | src/models/absence.mocks.ts:72-74 | the status is always a member of `absenceStatuses`, and it is `Approved` whenever the 0.4 draw forces it |
| `AbsenceMocks.EnquiredDay` | src/models/absence.mocks.ts:76-78 | the enquiry date lies 5 to 200 days before the start day |
| `AbsenceMocks.CommonAbsenceFor` | src/models/absence.mocks.ts:80-102 | `id` is the index and `usersId` is 0; the start day lies in the pair and ends no later than `to`; the status is in `absenceStatuses`; a note is present exactly when drawn; a stored `dateEnquired` is the enquiry date; `approvedBy == 1` and `dateApproved` are set exactly when the status is `Approved`; `dateApproved` lies 0 to 4 days after the enquiry date, so strictly before the start day |
| `AbsenceMocks.CountDays` | src/models/absence.mocks.ts:113-123 | 0.5 on a half day; otherwise (on whole-day dates) a whole number of days, at least 1, equal to 1 or to the spanned days less the 0-3 discount, and never more than the span (or 1) |
| `AbsenceMocks.MockAbsence` | src/models/absence.mocks.ts:45-143 | the record spreads `commonAbsence`; its keys match its type (`KeysMatchType`); its type is `ReductionOfOvertime` exactly when the overtime draw holds, which rules out the sick and half-day flags; it is a sick type exactly when the record is sick; it is a plain type exactly when the record is plain, and then it is `absenceTypesWithoutOvertimeReduction[index % length]` with `countDays` from `CountDays`; overtime records carry the drawn hours, sick records the drawn `sickNote` |
| `AbsenceMocks.MockBatch` | src/models/absence.mocks.ts:45 | one record per pair, in pair order; the record at position `i` is the one built with index `i` from pair `i` and draws `i`; the batch invariants are stated on `CreateAbsenceMocks` |
| `AbsenceMocks.CreateAbsenceMocks` | src/models/absence.mocks.ts:33-45 | the batch holds `count` records (1 by default); record `i` has `id == i` and `usersId == 0`; it starts and ends inside its own pair and inside the window (2020-01-01 to 2021-01-01 by default), with start <= end in one calendar year; it satisfies `ApprovalConsistent` and `KeysMatchType` |
| `AbsenceMockProperties.PlainRecordType` | src/models/absence.mocks.ts:135-142 | a plain record at batch position `i` has the plain type at `i` modulo the number of plain types |
| `AbsenceMockProperties.TypeAt` | src/models/absence.mocks.ts:104-142 | the type at batch position `i` is a plain type only if it is the one cycled to `i`, and an overtime reduction never has a plain type |
| `AbsenceMockProperties.PlainTypeDependsOnIndex` | src/models/absence.mocks.ts:137-141 | two plain records whose positions agree modulo the number of plain types have the same type, whatever their other draws |
| `AbsenceMockProperties.PlainRunCoversTypes` | src/models/absence.mocks.ts:137-141 | any run of as many consecutive plain records as there are plain types shows every plain type |
| `AbsenceMockProperties.CoverageNotGuaranteed` | src/models/absence.mocks.ts:104-142 | in a batch with exactly as many records as there are distinct plain types, an overtime reduction at position 0 means the first plain type appears nowhere in the batch |
| `AbsenceMockProperties.SingleDayWindow` | src/models/absence.mocks.ts:59-70 | when the window is a single day, every record ends on the day it starts, half day or not |

## Left out

- Random distributions: the model takes every `faker` draw as an input and states only its range, not its probability.
- `toPairs` and `generateRandomDates` (`src/lib/mocks.ts`) are not part of this model. Their result enters as `dayPairs`, assumed to hold `count` ordered pairs inside the window (`IsPairing`). Sorting, de-duplication and `maxDuplicates: 2` are not modelled.
- `endOfYear` (`src/lib/mocks.ts`) is not part of this model. It enters as a function obeying two laws (`IsEndOfYear`): it is not before its argument, and every day up to it has the same end of year. `YearEnd365` shows that the laws can be met.
- `startOfDay` and `isoDateFromDateTime` are the identity on day numbers. Time of day, local time zones, daylight-saving shifts, millisecond timestamps and the `YYYY-MM-DD` string format are not modelled.
- CountDays: the result is a whole number of days only because dates are whole days. The source divides millisecond timestamps taken in local time, so across a daylight-saving change, or when the year-end clamp picks the last instant of the year, `countDays` can be fractional (for example 9.958 instead of 10) and can exceed the whole-day span.
- DateUntil: the source adds `k * ONE_DAY` milliseconds to a local-time instant. Across a daylight-saving change the sum is an hour off midnight, and its ISO date can then differ by one day from the model's day number. The same holds for `EnquiredDay` and the `dateApproved` offset in `CommonAbsenceFor`.
- `countHours` comes from `faker.number.float`. It is an opaque real drawn in [0.1, 8], not a floating-point value.
- `note` is the drawn text or `null`. The word count (2 to 10) and the `lorem` vocabulary are not modelled.
- `count` is a natural number. A negative or fractional `count` and a window with `from > to` are not modelled.
- The enumeration declarations in `src/models/absence.ts` are not part of this model. They are inputs, assumed to declare `Approved` and at least one type other than the overtime reduction and the two sick types (`ValidContext`).
- The `as unknown as SickAbsence` cast has no counterpart: a sick record is an `Absence` whose count keys are `Missing`.
