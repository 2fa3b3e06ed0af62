/** Properties of whole batches made by the absence mock generator. */
module AbsenceMockProperties {
  import opened MockDates
  import opened Absences
  import opened AbsenceMocks

  /** A plain record at position `i` of a batch takes the plain type at
      `i` modulo the number of plain types. */
  lemma PlainRecordType(ctx: Context, pairs: seq<DayPair>, draws: seq<RecordDraws>, i: nat)
    requires ValidContext(ctx) && DrawsFor(ctx, pairs, draws)
    requires i < |pairs| && IsPlain(draws[i])
    ensures var plain := TypesWithoutOvertimeReduction(ctx.typeEnum);
      MockBatch(ctx, pairs, draws)[i].absenceType == plain[i % |plain|]
  {
    assert MockBatch(ctx, pairs, draws)[i] == MockAbsence(ctx, i, pairs[i], draws[i]);
  }

  /** The type at position `i` of a batch is a plain type only if it is the
      one cycled to `i`, and never for an overtime reduction. */
  lemma TypeAt(ctx: Context, pairs: seq<DayPair>, draws: seq<RecordDraws>, i: nat)
    requires ValidContext(ctx) && DrawsFor(ctx, pairs, draws)
    requires i < |pairs|
    ensures var plain := TypesWithoutOvertimeReduction(ctx.typeEnum);
      var t := TypesOf(MockBatch(ctx, pairs, draws))[i];
      && (t in plain ==> t == plain[i % |plain|])
      && (draws[i].isOvertimeReduction ==> t !in plain)
  {
    assert MockBatch(ctx, pairs, draws)[i] == MockAbsence(ctx, i, pairs[i], draws[i]);
  }

  /** Two plain records whose positions agree modulo the number of plain
      types have the same type, whatever their dates and other draws. */
  lemma PlainTypeDependsOnIndex(ctx: Context, pairs: seq<DayPair>, draws: seq<RecordDraws>, i: nat, j: nat)
    requires ValidContext(ctx) && DrawsFor(ctx, pairs, draws)
    requires i < |pairs| && j < |pairs| && IsPlain(draws[i]) && IsPlain(draws[j])
    requires i % |TypesWithoutOvertimeReduction(ctx.typeEnum)| == j % |TypesWithoutOvertimeReduction(ctx.typeEnum)|
    ensures MockBatch(ctx, pairs, draws)[i].absenceType == MockBatch(ctx, pairs, draws)[j].absenceType
  {
    PlainRecordType(ctx, pairs, draws, i);
    PlainRecordType(ctx, pairs, draws, j);
  }

  lemma ModOfMultiplePlus(q: int, k: int, p: int)
    requires 0 <= p < k
    ensures (k * q + p) % k == p
  {
    var x := k * q + p;
    var m := q - x / k;
    assert x == k * (x / k) + x % k;
    assert k * m == x % k - p;
  }

  /** Among any `k` consecutive indices, one has residue `p` modulo `k`. */
  lemma IndexWithResidue(start: nat, k: nat, p: nat) returns (i: nat)
    requires p < k
    ensures start <= i < start + k && i % k == p
  {
    var r := start % k;
    var q := start / k;
    assert start == k * q + r;
    var q' := if r <= p then q else q + 1;
    assert k * (q + 1) == k * q + k;
    i := k * q' + p;
    ModOfMultiplePlus(q', k, p);
  }

  /** The types of a batch, position by position. */
  function TypesOf(absences: seq<Absence>): (types: seq<AbsenceType>)
    ensures |types| == |absences|
    ensures forall i :: 0 <= i < |absences| ==> types[i] == absences[i].absenceType
  {
    seq(|absences|, i requires 0 <= i < |absences| => absences[i].absenceType)
  }

  /** Every member of `cycle` occurs among the `|cycle|` positions of
      `types` from `start` on. */
  ghost predicate ShowsAll(types: seq<AbsenceType>, cycle: seq<AbsenceType>, start: nat) {
    start + |cycle| <= |types| && forall t :: t in cycle ==> t in types[start..start + |cycle|]
  }

  /** A stretch of `|cycle|` positions that follows `cycle` by position
      modulo its length holds every member of `cycle`. */
  lemma CycleCovers(types: seq<AbsenceType>, cycle: seq<AbsenceType>, start: nat)
    requires start + |cycle| <= |types|
    requires forall i :: start <= i < start + |cycle| ==> types[i] == cycle[i % |cycle|]
    ensures ShowsAll(types, cycle, start)
  {
    forall t | t in cycle
      ensures t in types[start..start + |cycle|]
    {
      var p :| 0 <= p < |cycle| && cycle[p] == t;
      var i := IndexWithResidue(start, |cycle|, p);
      assert types[start..start + |cycle|][i - start] == t;
    }
  }

  /** Any run of as many consecutive plain records as there are plain types
      shows every plain type. */
  lemma PlainRunCoversTypes(ctx: Context, pairs: seq<DayPair>, draws: seq<RecordDraws>, start: nat)
    requires ValidContext(ctx) && DrawsFor(ctx, pairs, draws)
    requires start + |TypesWithoutOvertimeReduction(ctx.typeEnum)| <= |pairs|
    requires forall i :: start <= i < start + |TypesWithoutOvertimeReduction(ctx.typeEnum)| ==> IsPlain(draws[i])
    ensures ShowsAll(TypesOf(MockBatch(ctx, pairs, draws)), TypesWithoutOvertimeReduction(ctx.typeEnum), start)
  {
    var plain := TypesWithoutOvertimeReduction(ctx.typeEnum);
    var types := TypesOf(MockBatch(ctx, pairs, draws));
    forall i | start <= i < start + |plain|
      ensures types[i] == plain[i % |plain|]
    {
      PlainRecordType(ctx, pairs, draws, i);
    }
    CycleCovers(types, plain, start);
  }

  lemma NotAmong(types: seq<AbsenceType>, t: AbsenceType)
    requires forall i :: 0 <= i < |types| ==> types[i] != t
    ensures t !in types
  {
  }

  /** Type coverage is not guaranteed: in a batch with exactly as many
      records as there are (distinct) plain types, an overtime reduction at
      position 0 means the first plain type never appears, since position 0 is
      the only one it is cycled to. */
  lemma CoverageNotGuaranteed(ctx: Context, pairs: seq<DayPair>, draws: seq<RecordDraws>)
    requires ValidContext(ctx) && DrawsFor(ctx, pairs, draws)
    requires |pairs| == |TypesWithoutOvertimeReduction(ctx.typeEnum)|
    requires forall j :: 0 < j < |pairs| ==>
      TypesWithoutOvertimeReduction(ctx.typeEnum)[j] != TypesWithoutOvertimeReduction(ctx.typeEnum)[0]
    requires draws[0].isOvertimeReduction
    ensures TypesWithoutOvertimeReduction(ctx.typeEnum)[0] !in TypesOf(MockBatch(ctx, pairs, draws))
  {
    var plain := TypesWithoutOvertimeReduction(ctx.typeEnum);
    var types := TypesOf(MockBatch(ctx, pairs, draws));
    assert plain[0] in plain;
    forall i | 0 <= i < |types|
      ensures types[i] != plain[0]
    {
      TypeAt(ctx, pairs, draws, i);
      ModOfMultiplePlus(0, |plain|, i);
    }
    NotAmong(types, plain[0]);
  }

  /** A window of a single day leaves no room after the start day: every
      record ends the day it starts, half day or not. */
  lemma SingleDayWindow(ctx: Context, options: MockOptions, dayPairs: seq<DayPair>, draws: seq<RecordDraws>)
    requires ValidContext(ctx)
    requires IsPairing(dayPairs, Count(options), Window(options))
    requires DrawsFor(ctx, dayPairs, draws)
    requires Window(options).from == Window(options).to
    ensures forall i :: 0 <= i < Count(options) ==>
      CreateAbsenceMocks(ctx, options, dayPairs, draws)[i].common.dateUntil
        == CreateAbsenceMocks(ctx, options, dayPairs, draws)[i].common.dateSince
  {
  }
}
