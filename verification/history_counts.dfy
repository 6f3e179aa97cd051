/**
 What the points of a history stand for: over every run, how often each accepted report is counted, and
 exactly when each is counted once.
 */
module HistoryCounts {
  import opened Prelude
  import opened Metrics
  import opened Rollup
  import opened Downsampling
  import opened Histories
  import RollupExact

  // ----- sums over points and samples -----

  function ValueOf(column: Column): Sample -> real {
    if column == Cpu then CPU else MEMORY
  }

  lemma {:induction false} InsertedTotals(p: Point, points: seq<Point>, column: Column)
    ensures TotalWeight(Inserted(p, points)) == TotalWeight(points) + Weight(p)
    ensures Weighted(Inserted(p, points), column) == Weighted(points, column) + Times(Value(column, p), Weight(p))
  {
    if points == [] || Last(points).at <= p.at {
      assert Init(points + [p]) == points;
    } else {
      InsertedTotals(p, Init(points), column);
      assert Init(Inserted(p, points)) == Inserted(p, Init(points));
    }
  }

  lemma {:induction false} SortedTotals(samples: seq<Sample>, column: Column)
    ensures TotalWeight(Sorted(samples)) == |samples|
    ensures Weighted(Sorted(samples), column) == Sum(samples, ValueOf(column))
  {
    if samples != [] {
      SortedTotals(Init(samples), column);
      var p := RawPoint(Last(samples));
      InsertedTotals(p, Sorted(Init(samples)), column);
      TimesIsProduct(Value(column, p), 1);
    }
  }

  lemma {:induction false} FilterSplits(
      items: seq<Sample>, p: Sample -> bool, q: Sample -> bool, either: Sample -> bool, f: Sample -> real)
    requires forall x | x in items :: !(p(x) && q(x)) && either(x) == (p(x) || q(x))
    ensures |Filter(items, either)| == |Filter(items, p)| + |Filter(items, q)|
    ensures Sum(Filter(items, either), f) == Sum(Filter(items, p), f) + Sum(Filter(items, q), f)
  {
    if items != [] {
      assert Last(items) in items;
      FilterSplits(Init(items), p, q, either, f);
      SumOneMore(Filter(Init(items), either), Last(items), f);
      SumOneMore(Filter(Init(items), p), Last(items), f);
      SumOneMore(Filter(Init(items), q), Last(items), f);
    }
  }

  lemma SumOneMore(items: seq<Sample>, x: Sample, f: Sample -> real)
    ensures Sum(items + [x], f) == Sum(items, f) + f(x)
    ensures Sum(items + [], f) == Sum(items, f)
  {
    assert Init(items + [x]) == items && items + [] == items;
  }

  function InHours(agent: string, hours: seq<Time>): Sample -> bool {
    (s: Sample) => s.agent == agent && HourOf(s.at) in hours
  }

  /** The row summarises exactly the log's samples of its slot. */
  predicate RowExact(t: Table, log: seq<Sample>, slot: Slot) {
    slot in t.hourly && Group(log, slot) != [] && t.hourly[slot] == Summarise(Group(log, slot))
  }

  /** An exact row weighs as much as its samples. */
  lemma RowTotals(t: Table, log: seq<Sample>, slot: Slot, column: Column)
    requires RowExact(t, log, slot)
    ensures var p := HourPoint(slot.agent, t.hourly, slot.hour);
            && Weight(p) == |Group(log, slot)|
            && Times(Value(column, p), Weight(p)) == Sum(Group(log, slot), ValueOf(column))
  {
    var p := HourPoint(slot.agent, t.hourly, slot.hour);
    TimesIsProduct(Value(column, p), Weight(p));
  }

  lemma {:induction false} HourlyTotals(t: Table, log: seq<Sample>, agent: string, hours: seq<Time>, column: Column)
    requires forall h | h in hours :: RowExact(t, log, Slot(agent, h))
    requires forall i, j | 0 <= i < j < |hours| :: hours[i] < hours[j]
    ensures TotalWeight(HourPoints(agent, t.hourly, hours)) == |Filter(log, InHours(agent, hours))|
    ensures Weighted(HourPoints(agent, t.hourly, hours), column)
            == Sum(Filter(log, InHours(agent, hours)), ValueOf(column))
  {
    if hours == [] {
      FilterNone(log, InHours(agent, hours));
    } else {
      var slot := Slot(agent, Last(hours));
      assert Last(hours) in hours && hours == Init(hours) + [Last(hours)];
      HourlyTotals(t, log, agent, Init(hours), column);
      LastMerged(HourPoints(agent, t.hourly, Init(hours)), HourPoint(agent, t.hourly, Last(hours)), column);
      RowTotals(t, log, slot, column);
      assert Last(hours) !in Init(hours);
      FilterSplits(log, InHours(agent, Init(hours)), InSlot(slot), InHours(agent, hours), ValueOf(column));
    }
  }

  // ----- the tables and the log -----

  /** A report of an hour the hourly query asks for; its bounds are cut to whole seconds. */
  function Listed(agent: string, since: Time, rawStart: Time): Sample -> bool {
    (s: Sample) => s.agent == agent && WholeSecond(since) <= HourOf(s.at) < WholeSecond(rawStart)
  }

  /** The tables account for the log: raw reports from rawStart on, exact rows for the hours asked for before it. */
  ghost predicate Accounts(t: Table, log: seq<Sample>, agent: string, since: Time, rawStart: Time) {
    && Filter(t.reports, OfAgentSince(agent, rawStart)) == Filter(log, OfAgentSince(agent, rawStart))
    && (forall hour | WholeSecond(since) <= hour < WholeSecond(rawStart) ::
          var slot := Slot(agent, hour);
          (slot in t.hourly || Group(log, slot) != []) ==> RowExact(t, log, slot))
  }

  /** The query lists exactly the hours of its range that have a row, in order. */
  lemma HoursListed(t: Table, agent: string, since: Time, until: Time)
    ensures forall h :: h in Ascending(HoursBetween(t, agent, since, until))
                        <==> WholeSecond(since) <= h < WholeSecond(until) && Slot(agent, h) in t.hourly
    ensures forall i, j | 0 <= i < j < |Ascending(HoursBetween(t, agent, since, until))| ::
              Ascending(HoursBetween(t, agent, since, until))[i] < Ascending(HoursBetween(t, agent, since, until))[j]
  {
    var hours := HoursBetween(t, agent, since, until);
    AscendingListsTheSet(hours);
    forall h ensures h in hours <==> WholeSecond(since) <= h < WholeSecond(until) && Slot(agent, h) in t.hourly {
      if WholeSecond(since) <= h < WholeSecond(until) && Slot(agent, h) in t.hourly {
        assert Slot(agent, h).hour in hours;
      }
    }
  }

  /** A report lies in a listed hour exactly when its hour is asked for: that hour then has a row. */
  lemma HoursAreTheLogs(
      t: Table, log: seq<Sample>, agent: string, since: Time, rawStart: Time, hours: seq<Time>, s: Sample)
    requires Accounts(t, log, agent, since, rawStart) && s in log
    requires forall h :: h in hours <==>
               WholeSecond(since) <= h < WholeSecond(rawStart) && Slot(agent, h) in t.hourly
    ensures InHours(agent, hours)(s) == Listed(agent, since, rawStart)(s)
  {
    if Listed(agent, since, rawStart)(s) {
      FilterMembers(log, InSlot(SlotOf(s)));
      assert s in Group(log, SlotOf(s));
    }
  }

  /**
   Where every listed row is exact: the points count the reports of the hours asked for, and the reports since
   the raw start. A report in both is counted twice, one in neither not at all.
   */
  lemma JoinCounts(t: Table, log: seq<Sample>, agent: string, since: Time, rawStart: Time, column: Column)
    requires Accounts(t, log, agent, since, rawStart) && since < rawStart
    ensures var points := Joined(t, agent, since, rawStart);
            var older, newer := Filter(log, Listed(agent, since, rawStart)), Filter(log, OfAgentSince(agent, rawStart));
            && TotalWeight(points) == |older| + |newer|
            && Weighted(points, column) == Sum(older, ValueOf(column)) + Sum(newer, ValueOf(column))
  {
    var hours := Ascending(HoursBetween(t, agent, since, rawStart));
    HoursListed(t, agent, since, rawStart);
    forall h | h in hours ensures RowExact(t, log, Slot(agent, h)) {
    }
    HourlyTotals(t, log, agent, hours, column);
    SortedTotals(Filter(t.reports, OfAgentSince(agent, rawStart)), column);
    WeightConcat(HourlyHistory(t, agent, since, rawStart), RawHistory(t, agent, rawStart), column);
    forall s | s in log ensures InHours(agent, hours)(s) == Listed(agent, since, rawStart)(s) {
      HoursAreTheLogs(t, log, agent, since, rawStart, hours, s);
    }
    FilterSame(log, InHours(agent, hours), Listed(agent, since, rawStart));
  }

  /** A range within the raw retention is read from the raw rows alone. */
  lemma RawCounts(t: Table, log: seq<Sample>, agent: string, since: Time, rawStart: Time, column: Column)
    requires Accounts(t, log, agent, since, rawStart) && since >= rawStart
    ensures var points, reports := Joined(t, agent, since, rawStart), Filter(log, OfAgentSince(agent, since));
            && TotalWeight(points) == |reports|
            && Weighted(points, column) == Sum(reports, ValueOf(column))
  {
    var from, later := OfAgentSince(agent, rawStart), OfAgentSince(agent, since);
    FilterTwice(t.reports, from, later, later);
    FilterTwice(log, from, later, later);
    SortedTotals(Filter(t.reports, later), column);
  }

  // ----- rows that lack samples -----

  function RowCount(t: Table, slot: Slot): nat {
    if slot in t.hourly then t.hourly[slot].samples else 0
  }

  /** No row is empty, and none counts more than was accepted for its hour; every run keeps this. */
  ghost predicate Bounded(t: Table, log: seq<Sample>) {
    forall slot | slot in t.hourly :: 1 <= t.hourly[slot].samples <= |Group(log, slot)|
  }

  /** Every hour the query asks for has a row that counts all its reports, or no reports. */
  ghost predicate EveryHourCounted(t: Table, log: seq<Sample>, agent: string, since: Time, rawStart: Time) {
    forall hour | WholeSecond(since) <= hour < WholeSecond(rawStart) ::
      RowCount(t, Slot(agent, hour)) == |Group(log, Slot(agent, hour))|
  }

  ghost predicate FullHours(t: Table, log: seq<Sample>, agent: string, hours: seq<Time>) {
    forall h | h in hours :: RowCount(t, Slot(agent, h)) == |Group(log, Slot(agent, h))|
  }

  lemma OneMoreHour(t: Table, log: seq<Sample>, agent: string, hours: seq<Time>)
    requires hours != [] && forall i, j | 0 <= i < j < |hours| :: hours[i] < hours[j]
    requires Slot(agent, Last(hours)) in t.hourly && t.hourly[Slot(agent, Last(hours))].samples >= 1
    ensures TotalWeight(HourPoints(agent, t.hourly, hours)) ==
            TotalWeight(HourPoints(agent, t.hourly, Init(hours))) + RowCount(t, Slot(agent, Last(hours)))
    ensures |Filter(log, InHours(agent, hours))| ==
            |Filter(log, InHours(agent, Init(hours)))| + |Group(log, Slot(agent, Last(hours)))|
  {
    var slot := Slot(agent, Last(hours));
    assert hours == Init(hours) + [Last(hours)] && Last(hours) !in Init(hours);
    LastMerged(HourPoints(agent, t.hourly, Init(hours)), HourPoint(agent, t.hourly, Last(hours)), Cpu);
    FilterSplits(log, InHours(agent, Init(hours)), InSlot(slot), InHours(agent, hours), CPU);
  }

  /** The rows count at most the reports of their hours, and all of them exactly if each row does. */
  lemma {:induction false} HourlyAtMost(t: Table, log: seq<Sample>, agent: string, hours: seq<Time>)
    requires Bounded(t, log) && forall h | h in hours :: Slot(agent, h) in t.hourly
    requires forall i, j | 0 <= i < j < |hours| :: hours[i] < hours[j]
    ensures TotalWeight(HourPoints(agent, t.hourly, hours)) <= |Filter(log, InHours(agent, hours))|
    ensures TotalWeight(HourPoints(agent, t.hourly, hours)) == |Filter(log, InHours(agent, hours))| <==>
              FullHours(t, log, agent, hours)
  {
    if hours == [] {
      FilterNone(log, InHours(agent, hours));
    } else {
      assert Last(hours) in hours && hours == Init(hours) + [Last(hours)];
      HourlyAtMost(t, log, agent, Init(hours));
      OneMoreHour(t, log, agent, hours);
    }
  }

  /** A narrower filter keeps at most as many, and as many only if it is the same on all items. */
  lemma {:induction false} NarrowerKeepsLess(items: seq<Sample>, p: Sample -> bool, q: Sample -> bool)
    requires forall x | x in items :: p(x) ==> q(x)
    ensures |Filter(items, p)| <= |Filter(items, q)|
    ensures |Filter(items, p)| == |Filter(items, q)| <==> forall x | x in items :: p(x) == q(x)
  {
    if items != [] {
      assert items == Init(items) + [Last(items)];
      NarrowerKeepsLess(Init(items), p, q);
    }
  }

  /** What it takes for the listed rows to count every report of the hours asked for. */
  lemma CountedIffListed(t: Table, log: seq<Sample>, agent: string, since: Time, rawStart: Time, hours: seq<Time>)
    requires Bounded(t, log)
    requires forall h :: h in hours <==>
               WholeSecond(since) <= h < WholeSecond(rawStart) && Slot(agent, h) in t.hourly
    ensures EveryHourCounted(t, log, agent, since, rawStart) <==>
              FullHours(t, log, agent, hours)
              && forall s | s in log :: InHours(agent, hours)(s) == Listed(agent, since, rawStart)(s)
  {
    var same := forall s | s in log :: InHours(agent, hours)(s) == Listed(agent, since, rawStart)(s);
    if EveryHourCounted(t, log, agent, since, rawStart) {
      forall s | s in log ensures InHours(agent, hours)(s) == Listed(agent, since, rawStart)(s) {
        FilterMembers(log, InSlot(SlotOf(s)));
        assert s in Group(log, SlotOf(s));
      }
    }
    if FullHours(t, log, agent, hours) && same {
      forall hour | WholeSecond(since) <= hour < WholeSecond(rawStart)
        ensures RowCount(t, Slot(agent, hour)) == |Group(log, Slot(agent, hour))|
      {
        var group := Group(log, Slot(agent, hour));
        if group != [] {
          FilterMembers(log, InSlot(Slot(agent, hour)));
          assert group[0] in group;
        }
      }
    }
  }

  /**
   In general, with the range starting before the raw start: the points count at most the reports of the hours
   asked for and those since the raw start, and all of them if and only if every hour is counted in full.
   */
  lemma JoinCountsAtMost(t: Table, log: seq<Sample>, agent: string, since: Time, rawStart: Time)
    requires Bounded(t, log) && since < rawStart
    requires Filter(t.reports, OfAgentSince(agent, rawStart)) == Filter(log, OfAgentSince(agent, rawStart))
    ensures var count := TotalWeight(Joined(t, agent, since, rawStart));
            var older, newer := Filter(log, Listed(agent, since, rawStart)), Filter(log, OfAgentSince(agent, rawStart));
            && count <= |older| + |newer|
            && (count == |older| + |newer| <==> EveryHourCounted(t, log, agent, since, rawStart))
  {
    var hours := Ascending(HoursBetween(t, agent, since, rawStart));
    HoursListed(t, agent, since, rawStart);
    HourlyAtMost(t, log, agent, hours);
    NarrowerKeepsLess(log, InHours(agent, hours), Listed(agent, since, rawStart));
    CountedIffListed(t, log, agent, since, rawStart, hours);
    SortedTotals(Filter(t.reports, OfAgentSince(agent, rawStart)), Cpu);
    WeightConcat(HourlyHistory(t, agent, since, rawStart), RawHistory(t, agent, rawStart), Cpu);
  }

  // ----- who is counted twice, and who not at all -----

  /** In the raw start's hour, at or after the raw start, though the hour's row is listed as well. */
  function CountedTwice(agent: string, since: Time, rawStart: Time): Sample -> bool {
    (s: Sample) => s.agent == agent && s.at >= rawStart && WholeSecond(since) <= HourOf(s.at) < WholeSecond(rawStart)
  }

  /** Before the raw start, in an hour that begins within its second: neither query asks for it. */
  function Missed(agent: string, rawStart: Time): Sample -> bool {
    (s: Sample) => s.agent == agent && s.at < rawStart && HourOf(s.at) >= WholeSecond(rawStart)
  }

  /** Both kinds lie in the raw start's own hour, and only one of them can occur. */
  lemma OnlyTheRawStartsHour(agent: string, since: Time, rawStart: Time, s: Sample)
    ensures CountedTwice(agent, since, rawStart)(s) ==>
              HourOf(s.at) == HourOf(rawStart) && HourOf(rawStart) < WholeSecond(rawStart)
    ensures Missed(agent, rawStart)(s) ==> HourOf(s.at) == HourOf(rawStart) == WholeSecond(rawStart)
  {
    if CountedTwice(agent, since, rawStart)(s) {
      TwiceInItsHour(s.at, rawStart);
    }
    if Missed(agent, rawStart)(s) {
      MissedInItsHour(s.at, rawStart);
    }
  }

  lemma SecondBounds(t: Time)
    ensures WholeSecond(t) <= t < WholeSecond(t) + SECOND
  {
  }

  /** Every whole hour is a whole second, so cutting to hours cuts at least as much. */
  lemma HourBeforeSecond(t: Time)
    ensures HourOf(t) <= WholeSecond(t)
  {
    var h, s := t / HOUR, t / SECOND;
    assert HourOf(t) == h * 3600 * SECOND && WholeSecond(t) == s * SECOND;
    HourBounds(t);
    SecondBounds(t);
  }

  lemma TwiceInItsHour(at: Time, rawStart: Time)
    requires at >= rawStart && HourOf(at) < WholeSecond(rawStart)
    ensures HourOf(at) == HourOf(rawStart)
  {
    HourBounds(at);
    HourBounds(rawStart);
    SecondBounds(rawStart);
    HourAgainstAligned(at, HourOf(rawStart));
    HourAgainstAligned(rawStart, HourOf(at));
  }

  lemma MissedInItsHour(at: Time, rawStart: Time)
    requires at < rawStart && HourOf(at) >= WholeSecond(rawStart)
    ensures HourOf(at) == HourOf(rawStart) == WholeSecond(rawStart)
  {
    HourBounds(at);
    HourAgainstAligned(rawStart, HourOf(at));
    HourBeforeSecond(rawStart);
  }

  function Ind(b: bool): nat {
    if b then 1 else 0
  }

  lemma {:induction false} CountsBalance(items: seq<Sample>, a: Sample -> bool, b: Sample -> bool, c: Sample -> bool,
                                         d: Sample -> bool, e: Sample -> bool)
    requires forall x | x in items :: Ind(a(x)) + Ind(b(x)) + Ind(c(x)) == Ind(d(x)) + Ind(e(x))
    ensures |Filter(items, a)| + |Filter(items, b)| + |Filter(items, c)| == |Filter(items, d)| + |Filter(items, e)|
  {
    if items != [] {
      assert Last(items) in items && forall x | x in Init(items) :: x in items;
      CountsBalance(Init(items), a, b, c, d, e);
    }
  }

  lemma CountedOnceOrNot(agent: string, since: Time, rawStart: Time, s: Sample)
    requires Aligned(since) && since < rawStart
    ensures Ind(Listed(agent, since, rawStart)(s)) + Ind(OfAgentSince(agent, rawStart)(s))
            + Ind(Missed(agent, rawStart)(s))
            == Ind(OfAgentSince(agent, since)(s)) + Ind(CountedTwice(agent, since, rawStart)(s))
  {
    WholeHoursAreWholeSeconds(since);
    HourAgainstAligned(s.at, since);
    if s.at >= rawStart {
      OnlyTheRawStartsHour(agent, since, rawStart, s);
      SecondBounds(rawStart);
    } else if HourOf(s.at) >= WholeSecond(rawStart) {
      MissedIsSince(since, rawStart, s.at);
    }
  }

  lemma MissedIsSince(since: Time, rawStart: Time, at: Time)
    requires Aligned(since) && since < rawStart && HourOf(at) >= WholeSecond(rawStart)
    ensures at >= since
  {
    var s, r := since / SECOND, rawStart / SECOND;
    WholeHoursAreWholeSeconds(since);
    HourBounds(at);
    assert WholeSecond(rawStart) == r * SECOND && since == s * SECOND;
  }

  /** The reports of the hours asked for that their rows do not count. */
  function Lost(t: Table, log: seq<Sample>, agent: string, since: Time, rawStart: Time): int {
    |Filter(log, Listed(agent, since, rawStart))| + |Filter(log, OfAgentSince(agent, rawStart))|
    - TotalWeight(Joined(t, agent, since, rawStart))
  }

  lemma ReportsBalance(log: seq<Sample>, agent: string, since: Time, rawStart: Time)
    requires Aligned(since) && since < rawStart
    ensures |Filter(log, Listed(agent, since, rawStart))| + |Filter(log, OfAgentSince(agent, rawStart))|
            + |Filter(log, Missed(agent, rawStart))|
            == |Filter(log, OfAgentSince(agent, since))| + |Filter(log, CountedTwice(agent, since, rawStart))|
  {
    forall s | s in log
      ensures Ind(Listed(agent, since, rawStart)(s)) + Ind(OfAgentSince(agent, rawStart)(s))
              + Ind(Missed(agent, rawStart)(s))
              == Ind(OfAgentSince(agent, since)(s)) + Ind(CountedTwice(agent, since, rawStart)(s))
    {
      CountedOnceOrNot(agent, since, rawStart, s);
    }
    CountsBalance(log, Listed(agent, since, rawStart), OfAgentSince(agent, rawStart), Missed(agent, rawStart),
                  OfAgentSince(agent, since), CountedTwice(agent, since, rawStart));
  }

  /** Not both: a report is counted twice only if the raw start's hour is listed, and missed only if it is not. */
  lemma NotBothTwiceAndMissed(log: seq<Sample>, agent: string, since: Time, rawStart: Time)
    ensures Filter(log, CountedTwice(agent, since, rawStart)) == [] || Filter(log, Missed(agent, rawStart)) == []
  {
    var twice, missed := Filter(log, CountedTwice(agent, since, rawStart)), Filter(log, Missed(agent, rawStart));
    FilterMembers(log, CountedTwice(agent, since, rawStart));
    FilterMembers(log, Missed(agent, rawStart));
    if twice != [] && missed != [] {
      assert twice[0] in twice && missed[0] in missed;
      OnlyTheRawStartsHour(agent, since, rawStart, twice[0]);
      OnlyTheRawStartsHour(agent, since, rawStart, missed[0]);
      assert false;
    }
  }

  /**
   For a range from a whole hour: the count is right if and only if the reports counted twice make up for those
   missed and those lost from rows; where every hour is counted in full, if and only if there are none.
   */
  lemma CountIsExactIff(t: Table, log: seq<Sample>, agent: string, since: Time, rawStart: Time)
    requires Bounded(t, log) && Aligned(since) && since < rawStart
    requires Filter(t.reports, OfAgentSince(agent, rawStart)) == Filter(log, OfAgentSince(agent, rawStart))
    ensures var exact := TotalWeight(Joined(t, agent, since, rawStart)) == |Filter(log, OfAgentSince(agent, since))|;
            var twice := Filter(log, CountedTwice(agent, since, rawStart));
            var missed := Filter(log, Missed(agent, rawStart));
            var lost := Lost(t, log, agent, since, rawStart);
            && lost >= 0 && (lost == 0 <==> EveryHourCounted(t, log, agent, since, rawStart))
            && (exact <==> |twice| == |missed| + lost)
            && (lost == 0 ==> (exact <==> twice == [] && missed == []))
  {
    JoinCountsAtMost(t, log, agent, since, rawStart);
    ReportsBalance(log, agent, since, rawStart);
    NotBothTwiceAndMissed(log, agent, since, rawStart);
  }

  // ----- whole hours -----

  lemma WholeHoursAreWholeSeconds(t: Time)
    requires Aligned(t)
    ensures WholeSecond(t) == t
  {
    assert t == (t / HOUR) * 3600 * SECOND;
  }

  /** With a raw start on the hour, joining the tables loses nothing and counts nothing twice. */
  lemma JoinAccountsForTheLog(t: Table, log: seq<Sample>, agent: string, since: Time, rawStart: Time, column: Column)
    requires Accounts(t, log, agent, since, rawStart) && Aligned(since) && Aligned(rawStart)
    ensures var points, reports := Joined(t, agent, since, rawStart), Filter(log, OfAgentSince(agent, since));
            && TotalWeight(points) == |reports|
            && Weighted(points, column) == Sum(reports, ValueOf(column))
  {
    if since >= rawStart {
      RawCounts(t, log, agent, since, rawStart, column);
    } else {
      JoinCounts(t, log, agent, since, rawStart, column);
      WholeHoursAreWholeSeconds(since);
      WholeHoursAreWholeSeconds(rawStart);
      forall s | s in log
        ensures var older, newer := Listed(agent, since, rawStart)(s), OfAgentSince(agent, rawStart)(s);
                !(older && newer) && OfAgentSince(agent, since)(s) == (older || newer)
      {
        HourAgainstAligned(s.at, since);
        HourAgainstAligned(s.at, rawStart);
      }
      FilterSplits(log, Listed(agent, since, rawStart), OfAgentSince(agent, rawStart), OfAgentSince(agent, since),
                   ValueOf(column));
    }
  }

  // ----- whole runs -----

  lemma {:induction false} RowsOfTheLog(run: seq<Op>, slot: Slot)
    ensures slot in After(run).table.hourly ==> Group(After(run).log, slot) != []
  {
    EveryRowIsAPart(run);
    if slot in After(run).table.hourly {
      assert PartOf(After(run).table.hourly[slot], Group(After(run).log, slot));
    }
  }

  lemma RawRowsAccount(t: Table, log: seq<Sample>, floor: Option<Time>, agent: string, rawStart: Time)
    requires t.reports == AboveFloor(log, floor) && AtLeast(rawStart, floor)
    ensures Filter(t.reports, OfAgentSince(agent, rawStart)) == Filter(log, OfAgentSince(agent, rawStart))
  {
    if floor.Some? {
      FilterTwice(log, IsSince(floor.value), OfAgentSince(agent, rawStart), OfAgentSince(agent, rawStart));
    }
  }

  /** A table maintained on whole hours accounts for the log. */
  lemma {:induction false} MaintainedTableAccounts(run: seq<Op>, agent: string, since: Time, rawStart: Time)
    requires Hourly(run) && run != [] && Last(run).Maintain?
    requires Aligned(since) && Aligned(rawStart) && rawStart <= HourOf(Last(run).now)
    requires AtLeast(rawStart, After(run).rawFloor) && AtLeast(since, After(run).aggregateFloor)
    ensures Accounts(After(run).table, After(run).log, agent, since, rawStart)
  {
    var l := After(run);
    HourlyRunsFit(run);
    RawRowsAccount(l.table, l.log, l.rawFloor, agent, rawStart);
    WholeHoursAreWholeSeconds(since);
    WholeHoursAreWholeSeconds(rawStart);
    forall hour | since <= hour < rawStart
      ensures var slot := Slot(agent, hour);
              (slot in l.table.hourly || Group(l.log, slot) != []) ==> RowExact(l.table, l.log, slot)
    {
      RowsOfTheLog(run, Slot(agent, hour));
      if Group(l.log, Slot(agent, hour)) != [] {
        RollupAgreesWithLog(run, Slot(agent, hour));
      }
    }
  }

  /** None of the agent's hours in the range was ever split by the highest raw cutoff so far. */
  ghost predicate NeverSplit(run: seq<Op>, agent: string, since: Time, rawStart: Time)
    requires run != []
  {
    forall hour | WholeSecond(since) <= hour < WholeSecond(rawStart) ::
      !RollupExact.FloorSplits(Init(run), Group(After(run).log, Slot(agent, hour)))
  }

  /** With arbitrary cutoffs the table accounts for the log where no hour was split. */
  lemma {:induction false} UnsplitTableAccounts(run: seq<Op>, agent: string, since: Time, rawStart: Time)
    requires RollupExact.SteadyRun(run) && run != [] && Last(run).Maintain?
    requires WholeSecond(rawStart) <= HourOf(Last(run).now) && NeverSplit(run, agent, since, rawStart)
    requires AtLeast(rawStart, After(run).rawFloor) && AtLeast(WholeSecond(since), After(run).aggregateFloor)
    ensures Accounts(After(run).table, After(run).log, agent, since, rawStart)
  {
    var l := After(run);
    RollupExact.RawRowsAreAboveFloor(run);
    RawRowsAccount(l.table, l.log, l.rawFloor, agent, rawStart);
    forall hour | WholeSecond(since) <= hour < WholeSecond(rawStart)
      ensures var slot := Slot(agent, hour);
              (slot in l.table.hourly || Group(l.log, slot) != []) ==> RowExact(l.table, l.log, slot)
    {
      RowsOfTheLog(run, Slot(agent, hour));
      if Group(l.log, Slot(agent, hour)) != [] {
        RollupExact.RowIsExactIffNeverSplit(run, Slot(agent, hour));
      }
    }
  }

  lemma {:induction false} RunsAreBounded(run: seq<Op>)
    ensures Bounded(After(run).table, After(run).log)
  {
    forall slot | slot in After(run).table.hourly
      ensures 1 <= After(run).table.hourly[slot].samples <= |Group(After(run).log, slot)|
    {
      RowsAreBracketed(run, slot);
    }
  }

  /** After a Maintain that completed them, the hours asked for are counted in full exactly if none was ever split. */
  lemma {:induction false} CountedIffNeverSplit(run: seq<Op>, agent: string, since: Time, rawStart: Time)
    requires RollupExact.SteadyRun(run) && run != [] && Last(run).Maintain?
    requires WholeSecond(rawStart) <= HourOf(Last(run).now) && AtLeast(WholeSecond(since), After(run).aggregateFloor)
    ensures EveryHourCounted(After(run).table, After(run).log, agent, since, rawStart) <==>
              NeverSplit(run, agent, since, rawStart)
  {
    forall hour | WholeSecond(since) <= hour < WholeSecond(rawStart)
      ensures var group := Group(After(run).log, Slot(agent, hour));
              RowCount(After(run).table, Slot(agent, hour)) == |group| <==> !RollupExact.FloorSplits(Init(run), group)
    {
      HourCountedIffNeverSplit(run, Slot(agent, hour));
    }
  }

  lemma {:induction false} HourCountedIffNeverSplit(run: seq<Op>, slot: Slot)
    requires RollupExact.SteadyRun(run) && run != [] && Last(run).Maintain?
    requires slot.hour < HourOf(Last(run).now) && AtLeast(slot.hour, After(run).aggregateFloor)
    ensures var group := Group(After(run).log, slot);
            RowCount(After(run).table, slot) == |group| <==> !RollupExact.FloorSplits(Init(run), group)
  {
    var group := Group(After(run).log, slot);
    if group != [] {
      RollupExact.RowIsExactIffNeverSplit(run, slot);
    } else {
      RowsOfTheLog(run, slot);
      if RollupExact.FloorSplits(Init(run), group) {
        RollupExact.FloorsRise(Init(run), group);
      }
    }
  }

  /** Reports saved later, in hours not asked for by the hourly query, change neither its rows nor their hours. */
  lemma {:induction false} LaterReportsKeepHours(
      run: seq<Op>, later: seq<Op>, agent: string, since: Time, rawStart: Time)
    requires forall op | op in later :: op.Save? && HourOf(op.sample.at) >= WholeSecond(rawStart)
    requires Filter(After(run).table.reports, OfAgentSince(agent, rawStart))
             == Filter(After(run).log, OfAgentSince(agent, rawStart))
    ensures var l, v := After(run), After(run + later);
            && v.table.hourly == l.table.hourly
            && Filter(v.table.reports, OfAgentSince(agent, rawStart)) == Filter(v.log, OfAgentSince(agent, rawStart))
            && forall hour | WholeSecond(since) <= hour < WholeSecond(rawStart) ::
                 Group(v.log, Slot(agent, hour)) == Group(l.log, Slot(agent, hour))
    decreases |later|
  {
    if later == [] {
      assert run + later == run;
    } else {
      assert Last(later) in later && forall op | op in Init(later) :: op in later;
      LaterReportsKeepHours(run, Init(later), agent, since, rawStart);
      LedgerOneMore(run, later);
      SaveKeepsHours(After(run + Init(later)), Last(later).sample, agent, since, rawStart);
    }
  }

  lemma SaveKeepsHours(l: Ledger, sample: Sample, agent: string, since: Time, rawStart: Time)
    requires HourOf(sample.at) >= WholeSecond(rawStart)
    requires Filter(l.table.reports, OfAgentSince(agent, rawStart)) == Filter(l.log, OfAgentSince(agent, rawStart))
    ensures var v := Next(l, Save(sample));
            && v.table.hourly == l.table.hourly
            && Filter(v.table.reports, OfAgentSince(agent, rawStart)) == Filter(v.log, OfAgentSince(agent, rawStart))
            && forall hour | WholeSecond(since) <= hour < WholeSecond(rawStart) ::
                 Group(v.log, Slot(agent, hour)) == Group(l.log, Slot(agent, hour))
  {
    var v := Next(l, Save(sample));
    assert Init(v.table.reports) == l.table.reports && Init(v.log) == l.log;
    forall hour | WholeSecond(since) <= hour < WholeSecond(rawStart)
      ensures Group(v.log, Slot(agent, hour)) == Group(l.log, Slot(agent, hour))
    {
      RollupExact.GroupGrows(l.log, sample, Slot(agent, hour));
    }
  }

  /** So an exact account stays exact. */
  lemma {:induction false} LaterReportsAccount(run: seq<Op>, later: seq<Op>, agent: string, since: Time, rawStart: Time)
    requires Accounts(After(run).table, After(run).log, agent, since, rawStart)
    requires forall op | op in later :: op.Save? && HourOf(op.sample.at) >= WholeSecond(rawStart)
    ensures Accounts(After(run + later).table, After(run + later).log, agent, since, rawStart)
  {
    LaterReportsKeepHours(run, later, agent, since, rawStart);
  }

  lemma {:induction false} LedgerOneMore(run: seq<Op>, later: seq<Op>)
    requires later != []
    ensures After(run + later) == Next(After(run + Init(later)), Last(later))
  {
    assert Init(run + later) == run + Init(later);
  }

  /**
   History over whole runs. If a Maintain has completed every hour before the raw start, raw cutoffs fell
   on whole hours and none passed the raw start, the range is still retained, and the reports since that
   Maintain were measured after the raw start, then the points History returns stand for each accepted
   report since `since` exactly once: their samples add up to the number of reports, and their weighted
   values to the reports' values.
   */
  lemma HistoryStandsForEveryReport(
      run: seq<Op>, later: seq<Op>, agent: string, since: Time, rawStart: Time, maximum: nat, column: Column)
    requires Hourly(run) && run != [] && Last(run).Maintain?
    requires Aligned(since) && Aligned(rawStart) && rawStart <= HourOf(Last(run).now)
    requires AtLeast(rawStart, After(run).rawFloor) && AtLeast(since, After(run).aggregateFloor)
    requires forall op | op in later :: op.Save? && op.sample.at >= rawStart
    requires maximum > 0
    ensures var l := After(run + later);
            var points := Downsampled(Joined(l.table, agent, since, rawStart), maximum);
            var reports := Filter(l.log, OfAgentSince(agent, since));
            && |points| <= maximum
            && TotalWeight(points) == |reports|
            && Weighted(points, column) == Sum(reports, ValueOf(column))
  {
    var l := After(run + later);
    MaintainedTableAccounts(run, agent, since, rawStart);
    forall op | op in later ensures HourOf(op.sample.at) >= WholeSecond(rawStart) {
      WholeHoursAreWholeSeconds(rawStart);
      HourAgainstAligned(op.sample.at, rawStart);
    }
    LaterReportsAccount(run, later, agent, since, rawStart);
    JoinAccountsForTheLog(l.table, l.log, agent, since, rawStart, column);
    DownsamplingConserves(Joined(l.table, agent, since, rawStart), maximum, column);
  }

  /**
   In every run, with the cutoffs a running server has and at any moment of it: the samples are at most the
   reports of the hours asked for plus those since the raw start, and exactly these if and only if every hour
   asked for has a row that counts all its reports.
   */
  lemma {:induction false} HistoryNeverOvercounts(
      run: seq<Op>, agent: string, since: Time, rawStart: Time, maximum: nat)
    requires RollupExact.SteadyRun(run) && since < rawStart && AtLeast(rawStart, After(run).rawFloor) && maximum > 0
    ensures var l := After(run);
            var count := TotalWeight(Downsampled(Joined(l.table, agent, since, rawStart), maximum));
            var older := Filter(l.log, Listed(agent, since, rawStart));
            var newer := Filter(l.log, OfAgentSince(agent, rawStart));
            && count <= |older| + |newer|
            && (count == |older| + |newer| <==> EveryHourCounted(l.table, l.log, agent, since, rawStart))
  {
    var l := After(run);
    RunsAreBounded(run);
    RollupExact.RawRowsAreAboveFloor(run);
    RawRowsAccount(l.table, l.log, l.rawFloor, agent, rawStart);
    JoinCountsAtMost(l.table, l.log, agent, since, rawStart);
    DownsamplingConserves(Joined(l.table, agent, since, rawStart), maximum, Cpu);
  }

  /**
   Once a Maintain has completed the hours asked for, with reports of newer hours since: the samples are at most
   those reports, and all of them if and only if no raw cutoff ever split one of the hours. Then the weighted
   values are those of the reports, too; and from a whole hour on they are the reports since then if and only if
   none is counted twice in the raw start's hour, and none missed because that hour began within its second.
   */
  lemma HistoryCountsEveryReport(
      run: seq<Op>, later: seq<Op>, agent: string, since: Time, rawStart: Time, maximum: nat, column: Column)
    requires RollupExact.SteadyRun(run) && run != [] && Last(run).Maintain? && since < rawStart
    requires WholeSecond(rawStart) <= HourOf(Last(run).now)
    requires AtLeast(rawStart, After(run).rawFloor) && AtLeast(WholeSecond(since), After(run).aggregateFloor)
    requires forall op | op in later :: op.Save? && HourOf(op.sample.at) >= WholeSecond(rawStart)
    requires maximum > 0
    ensures var l := After(run + later);
            var points := Downsampled(Joined(l.table, agent, since, rawStart), maximum);
            var older := Filter(l.log, Listed(agent, since, rawStart));
            var newer := Filter(l.log, OfAgentSince(agent, rawStart));
            && TotalWeight(points) <= |older| + |newer|
            && (TotalWeight(points) == |older| + |newer| <==> NeverSplit(run, agent, since, rawStart))
            && (NeverSplit(run, agent, since, rawStart) ==>
                  Weighted(points, column) == Sum(older, ValueOf(column)) + Sum(newer, ValueOf(column)))
            && (NeverSplit(run, agent, since, rawStart) && Aligned(since) ==>
                  (TotalWeight(points) == |Filter(l.log, OfAgentSince(agent, since))| <==>
                   Filter(l.log, CountedTwice(agent, since, rawStart)) == []
                   && Filter(l.log, Missed(agent, rawStart)) == []))
  {
    CountsIff(run, later, agent, since, rawStart);
    var l := After(run + later);
    DownsamplingConserves(Joined(l.table, agent, since, rawStart), maximum, column);
    if NeverSplit(run, agent, since, rawStart) {
      UnsplitTableAccounts(run, agent, since, rawStart);
      LaterReportsAccount(run, later, agent, since, rawStart);
      JoinCounts(l.table, l.log, agent, since, rawStart, column);
      if Aligned(since) {
        RunsAreBounded(run + later);
        CountIsExactIff(l.table, l.log, agent, since, rawStart);
      }
    }
  }

  lemma {:induction false} CountsIff(run: seq<Op>, later: seq<Op>, agent: string, since: Time, rawStart: Time)
    requires RollupExact.SteadyRun(run) && run != [] && Last(run).Maintain? && since < rawStart
    requires WholeSecond(rawStart) <= HourOf(Last(run).now)
    requires AtLeast(rawStart, After(run).rawFloor) && AtLeast(WholeSecond(since), After(run).aggregateFloor)
    requires forall op | op in later :: op.Save? && HourOf(op.sample.at) >= WholeSecond(rawStart)
    ensures var l := After(run + later);
            var count := TotalWeight(Joined(l.table, agent, since, rawStart));
            var older := Filter(l.log, Listed(agent, since, rawStart));
            var newer := Filter(l.log, OfAgentSince(agent, rawStart));
            && count <= |older| + |newer|
            && (count == |older| + |newer| <==> NeverSplit(run, agent, since, rawStart))
  {
    var l, v := After(run), After(run + later);
    RollupExact.RawRowsAreAboveFloor(run);
    RawRowsAccount(l.table, l.log, l.rawFloor, agent, rawStart);
    LaterReportsKeepHours(run, later, agent, since, rawStart);
    RunsAreBounded(run + later);
    JoinCountsAtMost(v.table, v.log, agent, since, rawStart);
    CountedIffNeverSplit(run, agent, since, rawStart);
    assert EveryHourCounted(v.table, v.log, agent, since, rawStart) <==>
             EveryHourCounted(l.table, l.log, agent, since, rawStart);
  }
}
