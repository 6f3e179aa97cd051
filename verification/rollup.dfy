/**
 The hourly aggregates as a cache of the full log of accepted reports: exact when raw cutoffs fall
 on whole hours, the aggregate of a nonempty part of the hour otherwise.
 */
module Rollup {
  import opened Prelude
  import opened Metrics

  // ----- filters -----

  lemma {:induction false} FilterMembers<T(!new)>(items: seq<T>, p: T -> bool)
    ensures forall x :: x in Filter(items, p) <==> x in items && p(x)
  {
    if items != [] {
      FilterMembers(Init(items), p);
      assert items == Init(items) + [Last(items)];
    }
  }

  lemma {:induction false} FilterSame<T>(items: seq<T>, p: T -> bool, q: T -> bool)
    requires forall x | x in items :: p(x) == q(x)
    ensures Filter(items, p) == Filter(items, q)
  {
    if items != [] {
      assert Last(items) in items;
      FilterSame(Init(items), p, q);
    }
  }

  lemma {:induction false} FilterConcat<T>(a: seq<T>, b: seq<T>, p: T -> bool)
    ensures Filter(a + b, p) == Filter(a, p) + Filter(b, p)
  {
    if b == [] {
      assert a + b == a;
    } else {
      assert Init(a + b) == a + Init(b);
      FilterConcat(a, Init(b), p);
    }
  }

  lemma {:induction false} FilterTwice<T>(items: seq<T>, p: T -> bool, q: T -> bool, both: T -> bool)
    requires forall x | x in items :: both(x) == (p(x) && q(x))
    ensures Filter(Filter(items, p), q) == Filter(items, both)
  {
    if items != [] {
      assert Last(items) in items;
      FilterTwice(Init(items), p, q, both);
      var kept := Filter(Init(items), p);
      if p(Last(items)) {
        assert Init(kept + [Last(items)]) == kept;
      } else {
        assert Filter(items, p) == kept;
      }
    }
  }

  lemma {:induction false} FilterNone<T>(items: seq<T>, p: T -> bool)
    requires forall x | x in items :: !p(x)
    ensures Filter(items, p) == []
  {
    if items != [] {
      assert Last(items) in items;
      FilterNone(Init(items), p);
    }
  }

  // ----- groups of a filtered table -----

  predicate Aligned(t: Time) {
    t % HOUR == 0
  }

  lemma HourBounds(t: Time)
    ensures Aligned(HourOf(t)) && HourOf(t) <= t < HourOf(t) + HOUR && HOUR == 3_600_000_000_000
  {
  }

  lemma SecondBounds(t: Time)
    ensures WholeSecond(t) % 1_000_000_000 == 0 && WholeSecond(t) <= t < WholeSecond(t) + 1_000_000_000
  {
  }

  /** An hour lies entirely on one side of an aligned instant. */
  lemma HourAgainstAligned(t: Time, cutoff: Time)
    requires Aligned(cutoff)
    ensures t >= cutoff <==> HourOf(t) >= cutoff
  {
    HourBounds(t);
    var k, c := HourOf(t) / HOUR, cutoff / HOUR;
    assert HourOf(t) == k * HOUR && cutoff == c * HOUR;
  }

  lemma GroupOfSince(samples: seq<Sample>, cutoff: Time, slot: Slot)
    requires Aligned(cutoff)
    ensures Group(Since(samples, cutoff), slot) == if slot.hour >= cutoff then Group(samples, slot) else []
  {
    var both := (s: Sample) => slot.hour >= cutoff && SlotOf(s) == slot;
    forall s: Sample ensures both(s) == (s.at >= cutoff && SlotOf(s) == slot) {
      HourAgainstAligned(s.at, cutoff);
    }
    FilterTwice(samples, IsSince(cutoff), InSlot(slot), both);
    if slot.hour >= cutoff {
      FilterSame(samples, both, InSlot(slot));
    } else {
      FilterNone(samples, both);
    }
  }

  lemma GroupOfBefore(samples: seq<Sample>, cutoff: Time, slot: Slot)
    requires Aligned(cutoff)
    ensures Group(Before(samples, cutoff), slot) == if slot.hour < cutoff then Group(samples, slot) else []
  {
    var both := (s: Sample) => slot.hour < cutoff && SlotOf(s) == slot;
    forall s: Sample ensures both(s) == (s.at < cutoff && SlotOf(s) == slot) {
      HourAgainstAligned(s.at, cutoff);
    }
    FilterTwice(samples, IsBefore(cutoff), InSlot(slot), both);
    if slot.hour < cutoff {
      FilterSame(samples, both, InSlot(slot));
    } else {
      FilterNone(samples, both);
    }
  }

  /** What Grouped holds: one summary for each slot with samples. */
  lemma GroupedHas(samples: seq<Sample>, slot: Slot)
    ensures slot in Grouped(samples) <==> Group(samples, slot) != []
    ensures Group(samples, slot) != [] ==> Grouped(samples)[slot] == Summarise(Group(samples, slot))
  {
    if Group(samples, slot) != [] {
      FilterMembers(samples, InSlot(slot));
      var s := Group(samples, slot)[0];
      assert s in Group(samples, slot);
      assert s in samples && SlotOf(s) == slot;
    }
  }

  /**
   What Maintain does to one row: written from the raw reports of its hour if the hour is complete and has
   any, otherwise left as it was; and deleted if it is older than the aggregate cutoff.
   */
  lemma MaintainRow(t: Table, op: Op, slot: Slot)
    requires op.Maintain?
    ensures var after := Maintained(t, op.now, op.rawRetention, op.aggregateRetention).hourly;
            var group := if slot.hour < HourOf(op.now) then Group(t.reports, slot) else [];
            var kept := slot.hour >= WholeSecond(op.now - op.aggregateRetention);
            && (slot in after <==> kept && (group != [] || slot in t.hourly))
            && (slot in after ==> after[slot] == if group != [] then Summarise(group) else t.hourly[slot])
  {
    HourBounds(op.now);
    GroupOfBefore(t.reports, HourOf(op.now), slot);
    GroupedHas(Before(t.reports, HourOf(op.now)), slot);
  }

  // ----- runs -----

  datatype Op =
    | Save(sample: Sample)
    | Maintain(now: Time, rawRetention: Time, aggregateRetention: Time)

  /** The table, every report ever accepted, and the highest raw and aggregate cutoffs so far. */
  datatype Ledger = Ledger(table: Table, log: seq<Sample>, rawFloor: Option<Time>, aggregateFloor: Option<Time>)

  function Higher(floor: Option<Time>, cutoff: Time): Option<Time> {
    if floor.Some? && floor.value >= cutoff then floor else Some(cutoff)
  }

  predicate AtLeast(t: Time, floor: Option<Time>) {
    floor.Some? ==> t >= floor.value
  }

  function Next(l: Ledger, op: Op): Ledger {
    match op
    case Save(sample) =>
      l.(table := l.table.(reports := l.table.reports + [sample]), log := l.log + [sample])
    case Maintain(now, raw, aggregate) =>
      Ledger(Maintained(l.table, now, raw, aggregate), l.log,
             Higher(l.rawFloor, now - raw), Higher(l.aggregateFloor, WholeSecond(now - aggregate)))
  }

  function After(run: seq<Op>): Ledger {
    if run == [] then Ledger(Table([], map[]), [], None, None) else Next(After(Init(run)), Last(run))
  }

  /** Raw cutoffs fall on whole hours, retention is not negative, and no report is older than an earlier raw cutoff. */
  predicate Orderly(l: Ledger, op: Op) {
    match op
    case Save(sample) => AtLeast(sample.at, l.rawFloor)
    case Maintain(now, raw, _) => Aligned(now - raw) && raw >= 0
  }

  predicate Hourly(run: seq<Op>) {
    run == [] || (Hourly(Init(run)) && Orderly(After(Init(run)), Last(run)))
  }

  // ----- the exact theorem -----

  /** The slot's row is the aggregate of every report ever accepted for that hour. */
  predicate Exact(l: Ledger, slot: Slot) {
    && slot in l.table.hourly
    && Group(l.log, slot) != []
    && l.table.hourly[slot] == Summarise(Group(l.log, slot))
  }

  function AboveFloor(log: seq<Sample>, floor: Option<Time>): seq<Sample> {
    if floor.None? then log else Since(log, floor.value)
  }

  /** The raw table is the log above the floor; below the floor every retained hour's row is exact. */
  ghost predicate CacheFits(l: Ledger) {
    && (l.rawFloor.Some? ==> Aligned(l.rawFloor.value))
    && l.table.reports == AboveFloor(l.log, l.rawFloor)
    && (forall slot: Slot | !AtLeast(slot.hour, l.rawFloor) && AtLeast(slot.hour, l.aggregateFloor)
                            && Group(l.log, slot) != [] :: Exact(l, slot))
  }

  lemma SinceTwice(log: seq<Sample>, a: Time, b: Time)
    ensures Since(Since(log, a), b) == Since(log, if a < b then b else a)
  {
    FilterTwice(log, IsSince(a), IsSince(b), IsSince(if a < b then b else a));
  }

  lemma GroupConcat(log: seq<Sample>, sample: Sample, slot: Slot)
    ensures Group(log + [sample], slot) == Group(log, slot) + if SlotOf(sample) == slot then [sample] else []
  {
    assert Init(log + [sample]) == log;
  }

  lemma SaveKeepsCache(l: Ledger, sample: Sample)
    requires CacheFits(l) && AtLeast(sample.at, l.rawFloor)
    ensures CacheFits(Next(l, Save(sample)))
  {
    var v := Next(l, Save(sample));
    assert Init(l.log + [sample]) == l.log;
    if l.rawFloor.Some? {
      var floor := l.rawFloor.value;
      forall slot: Slot | slot.hour < floor ensures Group(v.log, slot) == Group(l.log, slot) {
        HourAgainstAligned(sample.at, floor);
        GroupConcat(l.log, sample, slot);
      }
    }
  }

  /** The raw table still holds the whole hour, or nothing of it. */
  lemma TableHoldsWholeHours(l: Ledger, slot: Slot)
    requires CacheFits(l)
    ensures Group(l.table.reports, slot) == if AtLeast(slot.hour, l.rawFloor) then Group(l.log, slot) else []
  {
    if l.rawFloor.Some? {
      GroupOfSince(l.log, l.rawFloor.value, slot);
    }
  }

  /** The rows of completed, retained hours are exact once Maintain is done. */
  lemma MaintainMakesExact(l: Ledger, op: Op, slot: Slot)
    requires CacheFits(l) && op.Maintain?
    requires slot.hour < HourOf(op.now) && AtLeast(slot.hour, Next(l, op).aggregateFloor)
    requires Group(l.log, slot) != []
    ensures Exact(Next(l, op), slot)
  {
    MaintainRow(l.table, op, slot);
    TableHoldsWholeHours(l, slot);
  }

  lemma MaintainKeepsCache(l: Ledger, op: Op)
    requires CacheFits(l) && op.Maintain? && Orderly(l, op)
    ensures CacheFits(Next(l, op))
  {
    var v, cutoff := Next(l, op), op.now - op.rawRetention;
    if l.rawFloor.Some? {
      SinceTwice(l.log, l.rawFloor.value, cutoff);
    }
    HourAgainstAligned(op.now, cutoff);
    forall slot: Slot | !AtLeast(slot.hour, v.rawFloor) && AtLeast(slot.hour, v.aggregateFloor)
                        && Group(v.log, slot) != []
      ensures Exact(v, slot)
    {
      if slot.hour < HourOf(op.now) {
        MaintainMakesExact(l, op, slot);
      } else {
        MaintainRow(l.table, op, slot);
      }
    }
  }

  lemma {:induction false} HourlyRunsFit(run: seq<Op>)
    requires Hourly(run)
    ensures CacheFits(After(run))
  {
    if run != [] {
      HourlyRunsFit(Init(run));
      if Last(run).Save? {
        SaveKeepsCache(After(Init(run)), Last(run).sample);
      } else {
        MaintainKeepsCache(After(Init(run)), Last(run));
      }
    }
  }

  /**
   Roll-up agrees with the log. In a run whose raw cutoffs fall on whole hours, after every Maintain the
   row of each completed hour that has reports, and that no aggregate cutoff has passed, is
   avg, min, max and count over all reports ever accepted for it.
   */
  lemma {:induction false} RollupAgreesWithLog(run: seq<Op>, slot: Slot)
    requires Hourly(run) && run != [] && Last(run).Maintain?
    requires slot.hour < HourOf(Last(run).now) && AtLeast(slot.hour, After(run).aggregateFloor)
    requires Group(After(run).log, slot) != []
    ensures Exact(After(run), slot)
  {
    HourlyRunsFit(Init(run));
    MaintainMakesExact(After(Init(run)), Last(run), slot);
  }

  // ----- without alignment -----

  /** `part` is the aggregate of some nonempty part of `whole`. */
  ghost predicate PartOf(row: Summary, whole: seq<Sample>) {
    exists part :: part != [] && multiset(part) <= multiset(whole) && row == Summarise(part)
  }

  ghost predicate EveryRowIsPart(l: Ledger) {
    && multiset(l.table.reports) <= multiset(l.log)
    && forall slot | slot in l.table.hourly :: PartOf(l.table.hourly[slot], Group(l.log, slot))
  }

  lemma {:induction false} FilterMultiset<T>(items: seq<T>, p: T -> bool, x: T)
    ensures multiset(Filter(items, p))[x] == if p(x) then multiset(items)[x] else 0
  {
    if items != [] {
      FilterMultiset(Init(items), p, x);
      assert items == Init(items) + [Last(items)];
    }
  }

  lemma FilterMonotone<T(!new)>(a: seq<T>, b: seq<T>, p: T -> bool)
    requires multiset(a) <= multiset(b)
    ensures multiset(Filter(a, p)) <= multiset(Filter(b, p))
  {
    forall x ensures multiset(Filter(a, p))[x] <= multiset(Filter(b, p))[x] {
      FilterMultiset(a, p, x);
      FilterMultiset(b, p, x);
    }
  }

  lemma PartGrows(row: Summary, whole: seq<Sample>, more: seq<Sample>)
    requires PartOf(row, whole)
    ensures PartOf(row, whole + more)
  {
    var part :| part != [] && multiset(part) <= multiset(whole) && row == Summarise(part);
    assert multiset(whole + more) == multiset(whole) + multiset(more);
  }

  lemma SaveKeepsParts(l: Ledger, sample: Sample)
    requires EveryRowIsPart(l)
    ensures EveryRowIsPart(Next(l, Save(sample)))
  {
    assert multiset(l.log + [sample]) == multiset(l.log) + multiset{sample};
    forall slot | slot in l.table.hourly
      ensures PartOf(l.table.hourly[slot], Group(l.log + [sample], slot))
    {
      GroupConcat(l.log, sample, slot);
      PartGrows(l.table.hourly[slot], Group(l.log, slot), if SlotOf(sample) == slot then [sample] else []);
    }
  }

  lemma MaintainKeepsParts(l: Ledger, op: Op)
    requires EveryRowIsPart(l) && op.Maintain?
    ensures EveryRowIsPart(Next(l, op))
  {
    var v := Next(l, op);
    MaintainKeepsRawPart(l, op);
    forall slot | slot in v.table.hourly ensures PartOf(v.table.hourly[slot], Group(v.log, slot)) {
      assert v.log == l.log;
      MaintainKeepsPart(l, op, slot);
    }
  }

  lemma MaintainKeepsRawPart(l: Ledger, op: Op)
    requires op.Maintain? && multiset(l.table.reports) <= multiset(l.log)
    ensures multiset(Next(l, op).table.reports) <= multiset(Next(l, op).log)
  {
    SincePart(l.table.reports, op.now - op.rawRetention);
    assert Next(l, op).table.reports == Since(l.table.reports, op.now - op.rawRetention);
  }

  lemma SincePart(reports: seq<Sample>, cutoff: Time)
    ensures multiset(Since(reports, cutoff)) <= multiset(reports)
  {
    forall x ensures multiset(Since(reports, cutoff))[x] <= multiset(reports)[x] {
      FilterMultiset(reports, IsSince(cutoff), x);
    }
  }

  lemma MaintainKeepsPart(l: Ledger, op: Op, slot: Slot)
    requires EveryRowIsPart(l) && op.Maintain? && slot in Next(l, op).table.hourly
    ensures PartOf(Next(l, op).table.hourly[slot], Group(l.log, slot))
  {
    var group := Group(l.table.reports, slot);
    MaintainRow(l.table, op, slot);
    if slot.hour < HourOf(op.now) && group != [] {
      FilterMonotone(l.table.reports, l.log, InSlot(slot));
      assert PartOf(Summarise(group), Group(l.log, slot));
    }
  }

  lemma {:induction false} EveryRowIsAPart(run: seq<Op>)
    ensures EveryRowIsPart(After(run))
  {
    if run != [] {
      EveryRowIsAPart(Init(run));
      if Last(run).Save? {
        SaveKeepsParts(After(Init(run)), Last(run).sample);
      } else {
        MaintainKeepsParts(After(Init(run)), Last(run));
      }
    }
  }

  // ----- what a part says about the whole -----

  lemma {:induction false} Extremes(items: seq<Sample>, f: Sample -> real)
    requires items != []
    ensures forall x | x in items :: Min(items, f) <= f(x) <= Max(items, f)
    ensures exists x :: x in items && f(x) == Min(items, f)
    ensures exists x :: x in items && f(x) == Max(items, f)
  {
    if |items| == 1 {
      assert items == [items[0]];
      assert items[0] in items && f(items[0]) == Min(items, f) && f(items[0]) == Max(items, f);
    } else {
      Extremes(Init(items), f);
      assert items == Init(items) + [Last(items)];
    }
  }

  /** Bounds on each item bound the sum. */
  lemma {:induction false} SumBetween(items: seq<Sample>, f: Sample -> real, low: real, high: real)
    requires forall x | x in items :: low <= f(x) <= high
    ensures low * |items| as real <= Sum(items, f) <= high * |items| as real
  {
    if items != [] {
      var n := |items| - 1;
      assert Last(items) in items;
      SumBetween(Init(items), f, low, high);
      OneTimeMore(low, n);
      OneTimeMore(high, n);
    }
  }

  lemma OneTimeMore(x: real, n: nat)
    ensures x * (n + 1) as real == x * n as real + x
  {
  }

  lemma AverageBetween(items: seq<Sample>, f: Sample -> real)
    requires items != []
    ensures Min(items, f) <= Sum(items, f) / |items| as real <= Max(items, f)
  {
    Extremes(items, f);
    SumBetween(items, f, Min(items, f), Max(items, f));
    QuotientBetween(Sum(items, f), |items| as real, Min(items, f), Max(items, f));
  }

  predicate Brackets(whole: seq<Sample>, f: Sample -> real, min: real, avg: real, max: real)
    requires whole != []
  {
    Min(whole, f) <= min <= avg <= max <= Max(whole, f)
  }

  lemma PartBracketed(part: seq<Sample>, whole: seq<Sample>, f: Sample -> real)
    requires part != [] && multiset(part) <= multiset(whole)
    ensures whole != [] && |part| <= |whole|
    ensures Brackets(whole, f, Min(part, f), Sum(part, f) / |part| as real, Max(part, f))
  {
    assert part[0] in multiset(part);
    assert |multiset(part)| <= |multiset(whole)| by {
      assert multiset(whole) == multiset(part) + (multiset(whole) - multiset(part));
    }
    AverageBetween(part, f);
    Extremes(part, f);
    Extremes(whole, f);
    forall x | x in part ensures x in whole {
      assert x in multiset(part);
    }
  }

  /**
   Without alignment every row is still the aggregate of a nonempty part of its hour: it counts no more
   samples than were accepted, and its minimum, average and maximum lie between the true extremes.
   */
  lemma {:induction false} RowsAreBracketed(run: seq<Op>, slot: Slot)
    requires slot in After(run).table.hourly
    ensures var row, whole := After(run).table.hourly[slot], Group(After(run).log, slot);
            && whole != [] && 1 <= row.samples <= |whole|
            && Brackets(whole, CPU, row.cpuMin, row.cpuAvg, row.cpuMax)
            && Brackets(whole, MEMORY, row.memoryMin, row.memoryAvg, row.memoryMax)
  {
    EveryRowIsAPart(run);
    var row, whole := After(run).table.hourly[slot], Group(After(run).log, slot);
    var part :| part != [] && multiset(part) <= multiset(whole) && row == Summarise(part);
    PartBracketed(part, whole, CPU);
    PartBracketed(part, whole, MEMORY);
  }

  /** These are the minimum, the average and the maximum of one column of the reports. */
  ghost predicate Aggregates(part: seq<Sample>, f: Sample -> real, min: real, avg: real, max: real) {
    && (forall s | s in part :: min <= f(s) <= max)
    && (exists s :: s in part && f(s) == min) && (exists s :: s in part && f(s) == max)
    && avg * |part| as real == Sum(part, f)
  }

  /** The row is the average, the extremes and the number of these reports. */
  ghost predicate Describes(row: Summary, part: seq<Sample>) {
    && part != [] && row.samples == |part|
    && Aggregates(part, (s: Sample) => s.cpu, row.cpuMin, row.cpuAvg, row.cpuMax)
    && Aggregates(part, (s: Sample) => s.memory, row.memoryMin, row.memoryAvg, row.memoryMax)
  }

  lemma ColumnAggregates(part: seq<Sample>, f: Sample -> real, g: Sample -> real)
    requires part != [] && forall s :: f(s) == g(s)
    ensures Aggregates(part, g, Min(part, f), Sum(part, f) / |part| as real, Max(part, f))
  {
    Extremes(part, f);
    SameSum(part, f, g);
    var s :| s in part && f(s) == Min(part, f);
    var t :| t in part && f(t) == Max(part, f);
    assert g(s) == Min(part, f) && g(t) == Max(part, f);
  }

  lemma SummaryDescribes(part: seq<Sample>)
    requires part != []
    ensures Describes(Summarise(part), part)
  {
    ColumnAggregates(part, CPU, (s: Sample) => s.cpu);
    ColumnAggregates(part, MEMORY, (s: Sample) => s.memory);
  }

  lemma {:induction false} SameSum(items: seq<Sample>, f: Sample -> real, g: Sample -> real)
    requires forall s | s in items :: f(s) == g(s)
    ensures Sum(items, f) == Sum(items, g)
  {
    if items != [] {
      assert Last(items) in items;
      SameSum(Init(items), f, g);
    }
  }

  /** In every run, each row describes some of the reports accepted for its hour: its extremes were reported. */
  lemma {:induction false} EveryRowDescribesReports(run: seq<Op>, slot: Slot)
    requires slot in After(run).table.hourly
    ensures exists part ::
              multiset(part) <= multiset(Group(After(run).log, slot)) && Describes(After(run).table.hourly[slot], part)
  {
    EveryRowIsAPart(run);
    var row, whole := After(run).table.hourly[slot], Group(After(run).log, slot);
    var part :| part != [] && multiset(part) <= multiset(whole) && row == Summarise(part);
    SummaryDescribes(part);
  }
}
