/** The date helpers the generator imports from src/lib/mocks.ts and
    src/lib/dateTime.ts. Those files are not part of this model: dates are
    whole days, and each helper is reduced to the contract the generator
    relies on. */
module MockDates {

  /** A calendar date, counted in days since 1970-01-01. `startOfDay` and
      `isoDateFromDateTime` are the identity on this representation. */
  type Day = int

  /** The length of a day, in the unit dates are counted in. */
  const ONE_DAY: int := 1

  /** 2020-01-01 and 2021-01-01, the default bounds of the date window. */
  const DEFAULT_FROM: Day := 18262
  const DEFAULT_TO: Day := 18628

  /** One `[from, to]` tuple produced by `toPairs`. */
  datatype DayPair = DayPair(from: Day, to: Day)

  /** The laws `endOfYear` obeys on days: the end of a day's year is not
      before that day, and every day from `d` up to the end of `d`'s year has
      the same end of year as `d`. */
  ghost predicate IsEndOfYear(endOfYear: Day -> Day) {
    && (forall d :: d <= endOfYear(d))
    && (forall d, e :: d <= e <= endOfYear(d) ==> endOfYear(e) == endOfYear(d))
  }

  /** Two days lie in the same calendar year. */
  predicate SameYear(endOfYear: Day -> Day, d: Day, e: Day) {
    endOfYear(d) == endOfYear(e)
  }

  /** What the generator assumes of `toPairs(generateRandomDates({count:
      count * 2, between: window, ...}))`: one ordered pair per requested
      record, each inside the window. */
  ghost predicate IsPairing(pairs: seq<DayPair>, count: nat, window: DayPair) {
    && |pairs| == count
    && forall i :: 0 <= i < |pairs| ==>
         window.from <= pairs[i].from <= pairs[i].to <= window.to
  }

  /** A calendar of 365-day years starting at day 0; it shows that the laws
      of `IsEndOfYear` can be met. */
  function YearEnd365(d: Day): Day {
    d - d % 365 + 364
  }

  lemma YearEnd365IsEndOfYear()
    ensures IsEndOfYear(YearEnd365)
  {
  }
}
