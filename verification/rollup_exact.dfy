/**
 Exactly when an hourly row is the aggregate of its hour, whatever the raw cutoffs: over every run in which
 no report is older than an earlier raw cutoff and raw rows are kept for at least an hour.
 */
module RollupExact {
  import opened Prelude
  import opened Metrics
  import opened Rollup

  predicate Steady(l: Ledger, op: Op) {
    match op
    case Save(sample) => AtLeast(sample.at, l.rawFloor)
    case Maintain(_, raw, _) => raw >= HOUR
  }

  predicate SteadyRun(run: seq<Op>) {
    run == [] || (SteadyRun(Init(run)) && Steady(After(Init(run)), Last(run)))
  }

  /** The cutoff falls inside the hour, with reports on both sides of it. */
  predicate Splits(cutoff: Time, group: seq<Sample>) {
    Before(group, cutoff) != [] && Since(group, cutoff) != []
  }

  predicate FloorCuts(floor: Option<Time>, group: seq<Sample>) {
    floor.Some? && Splits(floor.value, group)
  }

  /** The highest raw cutoff so far split the group, at some moment of the run. */
  predicate FloorSplits(run: seq<Op>, group: seq<Sample>) {
    run != [] && (FloorSplits(Init(run), group) || FloorCuts(After(run).rawFloor, group))
  }

  // ----- groups and cutoffs -----

  lemma {:induction false} SplitCounts(group: seq<Sample>, cutoff: Time)
    ensures |Before(group, cutoff)| + |Since(group, cutoff)| == |group|
    ensures Before(group, cutoff) == [] ==> Since(group, cutoff) == group
  {
    if group != [] {
      SplitCounts(Init(group), cutoff);
    }
  }

  /** A higher cutoff has at least as much before it. */
  lemma {:induction false} HigherCutsMore(group: seq<Sample>, low: Time, high: Time)
    requires low <= high
    ensures |Before(group, low)| <= |Before(group, high)|
  {
    if group != [] {
      HigherCutsMore(Init(group), low, high);
    }
  }

  lemma {:induction false} NoneBefore(group: seq<Sample>, cutoff: Time)
    requires forall s | s in group :: s.at >= cutoff
    ensures Before(group, cutoff) == []
  {
    if group != [] {
      assert Last(group) in group && forall s | s in Init(group) :: s in group;
      NoneBefore(Init(group), cutoff);
    }
  }

  lemma GroupOfSinceAny(samples: seq<Sample>, cutoff: Time, slot: Slot)
    ensures Group(Since(samples, cutoff), slot) == Since(Group(samples, slot), cutoff)
  {
    var both := (s: Sample) => s.at >= cutoff && SlotOf(s) == slot;
    FilterTwice(samples, IsSince(cutoff), InSlot(slot), both);
    FilterTwice(samples, InSlot(slot), IsSince(cutoff), both);
  }

  /** Raw rows are kept for an hour, so a cutoff reaches an hour's reports only once the hour is complete. */
  lemma CutHoursAreComplete(samples: seq<Sample>, slot: Slot, now: Time, raw: Time)
    requires raw >= HOUR && Before(Group(samples, slot), now - raw) != []
    ensures slot.hour < HourOf(now)
  {
    HourBounds(now);
    if slot.hour >= HourOf(now) {
      FilterMembers(samples, InSlot(slot));
      forall s | s in Group(samples, slot) ensures s.at >= now - raw {
        HourBounds(s.at);
      }
      NoneBefore(Group(samples, slot), now - raw);
    }
  }

  /** What a floor has cut off stays cut off, so if one ever split the group, the present one has some of it below. */
  lemma {:induction false} FloorsRise(run: seq<Op>, group: seq<Sample>)
    requires FloorSplits(run, group)
    ensures After(run).rawFloor.Some? && Before(group, After(run).rawFloor.value) != []
  {
    if FloorSplits(Init(run), group) {
      FloorsRise(Init(run), group);
      HigherCutsMore(group, After(Init(run)).rawFloor.value, After(run).rawFloor.value);
    }
  }

  // ----- the invariant of one row -----

  /** A row that is complete, or one that lacks samples. */
  ghost predicate RowFits(row: Option<Summary>, group: seq<Sample>, floor: Time, split: bool) {
    if split then Since(group, floor) != [] || (row.Some? && row.value.samples < |group|)
    else Since(group, floor) == [] && group != [] && row == Some(Summarise(group))
  }

  function RowOf(t: Table, slot: Slot): Option<Summary> {
    if slot in t.hourly then Some(t.hourly[slot]) else None
  }

  /** Once some of the hour was cut off, its row tells whether the cut went through the hour. */
  ghost predicate SlotFits(l: Ledger, slot: Slot, split: bool) {
    var group := Group(l.log, slot);
    && Group(l.table.reports, slot) == AboveFloor(group, l.rawFloor)
    && (split ==> l.rawFloor.Some? && Before(group, l.rawFloor.value) != [])
    && (AtLeast(slot.hour, l.aggregateFloor) && l.rawFloor.Some? && Before(group, l.rawFloor.value) != [] ==>
          RowFits(RowOf(l.table, slot), group, l.rawFloor.value, split))
  }

  lemma OneMoreAbove(group: seq<Sample>, s: Sample, cutoff: Time)
    requires s.at >= cutoff
    ensures Before(group + [s], cutoff) == Before(group, cutoff)
    ensures Since(group + [s], cutoff) == Since(group, cutoff) + [s]
  {
    assert Init(group + [s]) == group;
    assert Before(group, cutoff) + [] == Before(group, cutoff);
  }

  /** Group of one more report. */
  lemma GroupGrows(samples: seq<Sample>, sample: Sample, slot: Slot)
    ensures Group(samples + [sample], slot) ==
            if SlotOf(sample) == slot then Group(samples, slot) + [sample] else Group(samples, slot)
  {
    GroupConcat(samples, sample, slot);
    assert Group(samples, slot) + [] == Group(samples, slot);
  }

  lemma SaveKeepsSlot(l: Ledger, sample: Sample, slot: Slot, split: bool, after: bool)
    requires SlotFits(l, slot, split) && AtLeast(sample.at, l.rawFloor)
    requires SlotOf(sample) != slot ==> after == split
    requires SlotOf(sample) == slot ==> after == FloorCuts(l.rawFloor, Group(l.log + [sample], slot))
    ensures SlotFits(Next(l, Save(sample)), slot, after)
  {
    GroupGrows(l.log, sample, slot);
    GroupGrows(l.table.reports, sample, slot);
    if SlotOf(sample) == slot && l.rawFloor.Some? {
      OneMoreAbove(Group(l.log, slot), sample, l.rawFloor.value);
    }
  }

  /** The reports of the hour that a Maintain writes the row from, and those it leaves. */
  lemma MaintainKeepsGroup(l: Ledger, op: Op, slot: Slot)
    requires op.Maintain? && Group(l.table.reports, slot) == AboveFloor(Group(l.log, slot), l.rawFloor)
    ensures Group(Next(l, op).table.reports, slot) == AboveFloor(Group(l.log, slot), Next(l, op).rawFloor)
  {
    var cutoff := op.now - op.rawRetention;
    GroupOfSinceAny(l.table.reports, cutoff, slot);
    if l.rawFloor.Some? {
      SinceTwice(Group(l.log, slot), l.rawFloor.value, cutoff);
    }
  }

  /** The row after a Maintain that keeps it: rewritten from what is left of a complete hour, or as it was. */
  lemma MaintainWrites(l: Ledger, op: Op, slot: Slot)
    requires op.Maintain? && AtLeast(slot.hour, Next(l, op).aggregateFloor)
    ensures var left := Group(l.table.reports, slot);
            RowOf(Next(l, op).table, slot) ==
            if slot.hour < HourOf(op.now) && left != [] then Some(Summarise(left)) else RowOf(l.table, slot)
  {
    MaintainRow(l.table, op, slot);
  }

  lemma CutStaysCut(group: seq<Sample>, floor: Option<Time>, higher: Time)
    requires floor.Some? ==> floor.value <= higher
    ensures floor.Some? && Before(group, floor.value) != [] ==> Before(group, higher) != []
  {
    if floor.Some? {
      HigherCutsMore(group, floor.value, higher);
    }
  }

  lemma MaintainFitsRow(l: Ledger, op: Op, slot: Slot, split: bool)
    requires op.Maintain? && op.rawRetention >= HOUR && SlotFits(l, slot, split)
    requires AtLeast(slot.hour, Next(l, op).aggregateFloor)
    requires Before(Group(l.log, slot), Next(l, op).rawFloor.value) != []
    ensures var group, floor := Group(l.log, slot), Next(l, op).rawFloor;
            RowFits(RowOf(Next(l, op).table, slot), group, floor.value, split || FloorCuts(floor, group))
  {
    var higher, complete := Next(l, op).rawFloor.value, slot.hour < HourOf(op.now);
    MaintainWrites(l, op, slot);
    assert l.rawFloor == Some(higher) || complete by {
      if l.rawFloor != Some(higher) {
        CutHoursAreComplete(l.log, slot, op.now, op.rawRetention);
      }
    }
    RowAfterMaintain(RowOf(l.table, slot), RowOf(Next(l, op).table, slot), Group(l.log, slot), l.rawFloor,
                     higher, split, complete);
  }

  lemma MaintainKeepsSlot(l: Ledger, op: Op, slot: Slot, split: bool)
    requires op.Maintain? && op.rawRetention >= HOUR && SlotFits(l, slot, split)
    ensures SlotFits(Next(l, op), slot, split || FloorCuts(Next(l, op).rawFloor, Group(l.log, slot)))
  {
    var v, group := Next(l, op), Group(l.log, slot);
    MaintainKeepsGroup(l, op, slot);
    CutStaysCut(group, l.rawFloor, v.rawFloor.value);
    if AtLeast(slot.hour, v.aggregateFloor) && Before(group, v.rawFloor.value) != [] {
      MaintainFitsRow(l, op, slot, split);
    }
  }

  /** The same for one row, its group and the floors before and after. */
  lemma RowAfterMaintain(
      row: Option<Summary>, after: Option<Summary>, group: seq<Sample>, floor: Option<Time>, higher: Time,
      split: bool, complete: bool)
    requires Before(group, higher) != [] && (floor.Some? ==> floor.value <= higher)
    requires floor == Some(higher) || complete
    requires split ==> floor.Some? && Before(group, floor.value) != []
    requires floor.Some? && Before(group, floor.value) != [] ==> RowFits(row, group, floor.value, split)
    requires var left := AboveFloor(group, floor);
             after == if complete && left != [] then Some(Summarise(left)) else row
    ensures RowFits(after, group, higher, split || Splits(higher, group))
  {
    SplitCounts(group, higher);
    if floor.Some? {
      SplitCounts(group, floor.value);
      HigherCutsMore(group, floor.value, higher);
    }
  }

  lemma {:induction false} SlotsFit(run: seq<Op>, slot: Slot)
    requires SteadyRun(run)
    ensures SlotFits(After(run), slot, FloorSplits(run, Group(After(run).log, slot)))
  {
    if run != [] {
      SlotsFit(Init(run), slot);
      StepKeepsSlot(Init(run), Last(run), slot);
      assert run == Init(run) + [Last(run)];
    }
  }

  lemma {:induction false} StepKeepsSlot(run: seq<Op>, op: Op, slot: Slot)
    requires Steady(After(run), op) && SlotFits(After(run), slot, FloorSplits(run, Group(After(run).log, slot)))
    ensures var longer := run + [op];
            SlotFits(After(longer), slot, FloorSplits(longer, Group(After(longer).log, slot)))
  {
    var l, longer := After(run), run + [op];
    assert Init(longer) == run && After(longer) == Next(l, op);
    var split := FloorSplits(run, Group(l.log, slot));
    match op
    case Maintain(_, _, _) => MaintainKeepsSlot(l, op, slot, split);
    case Save(sample) =>
      SaveMovesSplits(run, sample, slot);
      SaveKeepsSlot(l, sample, slot, split, FloorSplits(longer, Group(l.log + [sample], slot)));
  }

  /** A report newer than every floor can be split off only by the present one. */
  lemma {:induction false} SaveMovesSplits(run: seq<Op>, sample: Sample, slot: Slot)
    requires AtLeast(sample.at, After(run).rawFloor)
    ensures var group := Group(After(run).log + [sample], slot);
            FloorSplits(run + [Save(sample)], group) ==
            if SlotOf(sample) == slot then FloorCuts(After(run).rawFloor, group)
            else FloorSplits(run, Group(After(run).log, slot))
  {
    var longer, group := run + [Save(sample)], Group(After(run).log + [sample], slot);
    var floor := After(run).rawFloor;
    assert Init(longer) == run && After(longer).rawFloor == floor;
    GroupGrows(After(run).log, sample, slot);
    if SlotOf(sample) == slot {
      if FloorSplits(run, group) {
        FloorsRise(run, group);
        OneMoreAbove(Group(After(run).log, slot), sample, floor.value);
      }
    } else if FloorCuts(floor, group) {
      assert FloorSplits(run, group);
    }
  }

  /** The raw table is the log above the highest cutoff so far, wherever the cutoffs fell. */
  lemma {:induction false} RawRowsAreAboveFloor(run: seq<Op>)
    requires SteadyRun(run)
    ensures After(run).table.reports == AboveFloor(After(run).log, After(run).rawFloor)
  {
    if run != [] {
      RawRowsAreAboveFloor(Init(run));
      StepKeepsRawRows(After(Init(run)), Last(run));
    }
  }

  lemma StepKeepsRawRows(l: Ledger, op: Op)
    requires Steady(l, op) && l.table.reports == AboveFloor(l.log, l.rawFloor)
    ensures Next(l, op).table.reports == AboveFloor(Next(l, op).log, Next(l, op).rawFloor)
  {
    if l.rawFloor.Some? {
      match op
      case Maintain(now, raw, _) => SinceTwice(l.log, l.rawFloor.value, now - raw);
      case Save(sample) => OneMoreAbove(l.log, sample, l.rawFloor.value);
    }
  }

  // ----- the theorem -----

  /**
   After a Maintain over a complete, retained hour: its row is the aggregate of every report ever accepted for
   it, and counts as many, if and only if no earlier raw cutoff, as the highest so far, had split the hour.
   */
  lemma {:induction false} RowIsExactIffNeverSplit(run: seq<Op>, slot: Slot)
    requires SteadyRun(run) && run != [] && Last(run).Maintain?
    requires slot.hour < HourOf(Last(run).now) && AtLeast(slot.hour, After(run).aggregateFloor)
    requires Group(After(run).log, slot) != []
    ensures slot in After(run).table.hourly
    ensures var group := Group(After(run).log, slot);
            && (Exact(After(run), slot) <==> !FloorSplits(Init(run), group))
            && (After(run).table.hourly[slot].samples == |group| <==> !FloorSplits(Init(run), group))
  {
    var l, op := After(Init(run)), Last(run);
    var group := Group(l.log, slot);
    SlotsFit(Init(run), slot);
    MaintainWrites(l, op, slot);
    if l.rawFloor.Some? {
      SplitCounts(group, l.rawFloor.value);
      assert FloorCuts(l.rawFloor, group) ==> FloorSplits(Init(run), group);
    }
  }

  // ----- in terms of the cutoffs themselves -----

  /** No Maintain goes back behind an earlier raw cutoff. */
  predicate CutoffsNeverFall(run: seq<Op>) {
    run == [] ||
    (CutoffsNeverFall(Init(run))
     && (Last(run).Maintain? ==> var floor := After(Init(run)).rawFloor;
                                 floor.Some? ==> floor.value <= Last(run).now - Last(run).rawRetention))
  }

  predicate CutoffSplits(run: seq<Op>, group: seq<Sample>) {
    exists op :: op in run && op.Maintain? && Splits(op.now - op.rawRetention, group)
  }

  /** Then the highest cutoff so far is the latest, and the condition is about the cutoffs themselves. */
  lemma {:induction false} FloorsAreCutoffs(run: seq<Op>, group: seq<Sample>)
    requires CutoffsNeverFall(run)
    ensures FloorSplits(run, group) <==> CutoffSplits(run, group)
  {
    if run != [] {
      var before, op := Init(run), Last(run);
      FloorsAreCutoffs(before, group);
      assert run == before + [op];
      OneMoreCutoff(before, op, group);
      if op.Save? && FloorCuts(After(run).rawFloor, group) {
        assert before != [] && FloorSplits(before, group);
      }
    }
  }

  lemma {:induction false} OneMoreCutoff(run: seq<Op>, op: Op, group: seq<Sample>)
    ensures CutoffSplits(run + [op], group) <==>
              CutoffSplits(run, group) || (op.Maintain? && Splits(op.now - op.rawRetention, group))
  {
    assert op in run + [op] && forall x | x in run :: x in run + [op];
  }

  /** With cutoffs that never fall, a row is exact if and only if no earlier raw cutoff split its hour. */
  lemma {:induction false} RowIsExactIffNoCutoffSplits(run: seq<Op>, slot: Slot)
    requires SteadyRun(run) && run != [] && Last(run).Maintain? && CutoffsNeverFall(Init(run))
    requires slot.hour < HourOf(Last(run).now) && AtLeast(slot.hour, After(run).aggregateFloor)
    requires Group(After(run).log, slot) != []
    ensures slot in After(run).table.hourly
    ensures var group := Group(After(run).log, slot);
            && (Exact(After(run), slot) <==> !CutoffSplits(Init(run), group))
            && (After(run).table.hourly[slot].samples == |group| <==> !CutoffSplits(Init(run), group))
  {
    RowIsExactIffNeverSplit(run, slot);
    FloorsAreCutoffs(Init(run), Group(After(run).log, slot));
  }

  // ----- a report older than an earlier cutoff -----

  /**
   The hour lies below the highest cutoff so far, so its raw rows are gone; a report of it that still arrives
   is all that the next Maintain writes the row from, whatever the row counted. No cutoff need split the hour.
   */
  lemma {:induction false} LateReportOverwritesTheHour(
      run: seq<Op>, sample: Sample, now: Time, raw: Time, aggregate: Time)
    requires SteadyRun(run) && After(run).rawFloor.Some?
    requires var slot := SlotOf(sample);
             && Group(After(run).log, slot) != [] && Since(Group(After(run).log, slot), After(run).rawFloor.value) == []
             && slot.hour < HourOf(now) && slot.hour >= WholeSecond(now - aggregate)
    ensures var l := Next(Next(After(run), Save(sample)), Maintain(now, raw, aggregate));
            && SlotOf(sample) in l.table.hourly && l.table.hourly[SlotOf(sample)].samples == 1
            && |Group(l.log, SlotOf(sample))| == |Group(After(run).log, SlotOf(sample))| + 1 > 1
  {
    SlotsFit(run, SlotOf(sample));
    LoneReportIsTheRow(After(run), sample, now, raw, aggregate);
  }

  lemma LoneReportIsTheRow(l: Ledger, sample: Sample, now: Time, raw: Time, aggregate: Time)
    requires Group(l.table.reports, SlotOf(sample)) == []
    requires SlotOf(sample).hour < HourOf(now) && SlotOf(sample).hour >= WholeSecond(now - aggregate)
    ensures var v := Next(Next(l, Save(sample)), Maintain(now, raw, aggregate));
            && SlotOf(sample) in v.table.hourly && v.table.hourly[SlotOf(sample)].samples == 1
            && |Group(v.log, SlotOf(sample))| == |Group(l.log, SlotOf(sample))| + 1
  {
    var slot, saved := SlotOf(sample), Next(l, Save(sample));
    GroupGrows(l.log, sample, slot);
    GroupGrows(l.table.reports, sample, slot);
    assert |Group(saved.table.reports, slot)| == 1;
    MaintainRow(saved.table, Maintain(now, raw, aggregate), slot);
  }

  /** There are none if reports are no older than the raw retention on arrival, and the clock does not go back. */
  lemma YoungReportsAreSteady(l: Ledger, sample: Sample, receivedAt: Time, maxAge: Time, latest: Time, raw: Time)
    requires sample.at >= receivedAt - maxAge && maxAge <= raw && latest <= receivedAt
    requires l.rawFloor.Some? ==> l.rawFloor.value <= latest - raw
    ensures Steady(l, Save(sample))
  {
  }

  // ----- a run that loses samples -----

  /** Two reports of one hour, a Maintain whose raw cutoff falls between them, and another Maintain. */
  function LosingRun(first: Sample, second: Sample, now: Time, later: Time, raw: Time, aggregate: Time): seq<Op> {
    [Save(first), Save(second), Maintain(now, raw, aggregate), Maintain(later, raw, aggregate)]
  }

  lemma TwoReports(first: Sample, second: Sample, now: Time, later: Time, raw: Time, aggregate: Time)
    requires raw >= HOUR
    ensures var run := LosingRun(first, second, now, later, raw, aggregate);
            && run != [] && Init(run) != [] && SteadyRun(run) && After(run).log == [first, second]
            && After(Init(run)).log == [first, second]
            && After(Init(Init(run))).rawFloor.None? && After(Init(run)).rawFloor == Some(now - raw)
            && After(Init(run)).aggregateFloor == Some(WholeSecond(now - aggregate))
            && After(run).aggregateFloor == Higher(Some(WholeSecond(now - aggregate)), WholeSecond(later - aggregate))
            && Last(Init(run)) == Maintain(now, raw, aggregate) && Last(run) == Maintain(later, raw, aggregate)
  {
    var run := LosingRun(first, second, now, later, raw, aggregate);
    var two, one := run[..2], run[..1];
    assert Init(run) == run[..3] && Init(Init(run)) == two && Init(two) == one && Init(one) == [];
    assert After([]) == Ledger(Table([], map[]), [], None, None);
    assert SteadyRun([]) && SteadyRun(one) && SteadyRun(two) && SteadyRun(Init(run));
  }

  lemma FilterPair(a: Sample, b: Sample, p: Sample -> bool)
    ensures Filter([a, b], p) == (if p(a) then [a] else []) + (if p(b) then [b] else [])
  {
    var pair, one := [a, b], [a];
    assert Init(pair) == one && Init(one) == [];
    assert Filter(one, p) == if p(a) then [a] else [];
  }

  lemma SplitPair(first: Sample, second: Sample, cutoff: Time, slot: Slot)
    requires SlotOf(first) == SlotOf(second) == slot && first.at < cutoff <= second.at
    ensures Group([first, second], slot) == [first, second] && Splits(cutoff, [first, second])
  {
    FilterPair(first, second, InSlot(slot));
    FilterPair(first, second, IsBefore(cutoff));
    FilterPair(first, second, IsSince(cutoff));
  }

  /** While no Maintain has run, nothing is split; the first one after the reports makes an exact row. */
  lemma {:induction false} FirstMaintainIsExact(run: seq<Op>, slot: Slot)
    requires SteadyRun(run) && run != [] && Last(run).Maintain? && After(Init(run)).rawFloor.None?
    requires slot.hour < HourOf(Last(run).now) && AtLeast(slot.hour, After(run).aggregateFloor)
    requires Group(After(run).log, slot) != []
    ensures Exact(After(run), slot)
  {
    RowIsExactIffNeverSplit(run, slot);
    if FloorSplits(Init(run), Group(After(run).log, slot)) {
      FloorsRise(Init(run), Group(After(run).log, slot));
    }
  }

  lemma {:induction false} SplitRowCountsLess(run: seq<Op>, slot: Slot)
    requires SteadyRun(run) && run != [] && Last(run).Maintain?
    requires slot.hour < HourOf(Last(run).now) && AtLeast(slot.hour, After(run).aggregateFloor)
    requires Group(After(run).log, slot) != []
    requires Init(run) != [] && FloorCuts(After(Init(run)).rawFloor, Group(After(run).log, slot))
    ensures slot in After(run).table.hourly
    ensures After(run).table.hourly[slot].samples < |Group(After(run).log, slot)|
  {
    RowIsExactIffNeverSplit(run, slot);
    RowsAreBracketed(run, slot);
  }

  /** A cutoff an hour or more back reaches only complete hours, now and later. */
  lemma CutIsComplete(at: Time, now: Time, raw: Time, later: Time)
    requires at < now - raw && raw >= HOUR && now <= later
    ensures HourOf(at) < HourOf(now) && HourOf(at) < HourOf(later)
  {
    HourBounds(at);
    HourBounds(now);
    HourBounds(later);
  }

  /** What the two lemmas above need of the run. */
  lemma LosingRunSplits(first: Sample, second: Sample, now: Time, later: Time, raw: Time, aggregate: Time)
    requires SlotOf(first) == SlotOf(second) && first.at < now - raw <= second.at && now <= later
    requires raw >= HOUR && SlotOf(first).hour >= later - aggregate
    ensures var run, slot := LosingRun(first, second, now, later, raw, aggregate), SlotOf(first);
            && run != [] && Init(run) != [] && SteadyRun(run) && SteadyRun(Init(run))
            && Last(run).Maintain? && slot.hour < HourOf(Last(run).now)
            && Last(Init(run)).Maintain? && slot.hour < HourOf(Last(Init(run)).now)
            && After(Init(Init(run))).rawFloor.None?
            && AtLeast(slot.hour, After(run).aggregateFloor) && AtLeast(slot.hour, After(Init(run)).aggregateFloor)
            && Group(After(run).log, slot) == Group(After(Init(run)).log, slot) == [first, second]
            && FloorCuts(After(Init(run)).rawFloor, Group(After(run).log, slot))
  {
    TwoReports(first, second, now, later, raw, aggregate);
    SplitPair(first, second, now - raw, SlotOf(first));
    CutIsComplete(first.at, now, raw, later);
  }

  /** The row counts both reports after the first Maintain, and fewer after the second. */
  lemma SecondMaintainLosesASample(
      first: Sample, second: Sample, now: Time, later: Time, raw: Time, aggregate: Time)
    requires SlotOf(first) == SlotOf(second) && first.at < now - raw <= second.at && now <= later
    requires raw >= HOUR && SlotOf(first).hour >= later - aggregate
    ensures var run, slot := LosingRun(first, second, now, later, raw, aggregate), SlotOf(first);
            && run != [] && Init(run) != [] && SteadyRun(run) && |Group(After(run).log, slot)| == 2
            && slot in After(Init(run)).table.hourly && After(Init(run)).table.hourly[slot].samples == 2
            && slot in After(run).table.hourly && After(run).table.hourly[slot].samples < 2
  {
    LosingRunSplits(first, second, now, later, raw, aggregate);
    FirstThenSecond(LosingRun(first, second, now, later, raw, aggregate), SlotOf(first));
  }

  lemma {:induction false} FirstThenSecond(run: seq<Op>, slot: Slot)
    requires run != [] && Init(run) != [] && SteadyRun(run) && SteadyRun(Init(run))
    requires Last(run).Maintain? && slot.hour < HourOf(Last(run).now)
    requires Last(Init(run)).Maintain? && slot.hour < HourOf(Last(Init(run)).now)
    requires After(Init(Init(run))).rawFloor.None?
    requires AtLeast(slot.hour, After(run).aggregateFloor) && AtLeast(slot.hour, After(Init(run)).aggregateFloor)
    requires Group(After(run).log, slot) == Group(After(Init(run)).log, slot) != []
    requires FloorCuts(After(Init(run)).rawFloor, Group(After(run).log, slot))
    ensures var all := |Group(After(run).log, slot)|;
            && slot in After(Init(run)).table.hourly && After(Init(run)).table.hourly[slot].samples == all
            && slot in After(run).table.hourly && After(run).table.hourly[slot].samples < all
  {
    FirstMaintainIsExact(Init(run), slot);
    SplitRowCountsLess(run, slot);
  }
}
