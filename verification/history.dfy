/**
 Metric history (internal/storage/storage.go): hourly aggregates before the raw retention, raw reports
 after it, joined and downsampled.
 */
module Histories {
  import opened Prelude
  import opened Metrics
  import Rollup
  import opened Downsampling

  // ----- the two queries -----

  function HoursBetween(t: Table, agent: string, since: Time, until: Time): set<Time> {
    set slot | slot in t.hourly && slot.agent == agent
               && WholeSecond(since) <= slot.hour < WholeSecond(until) :: slot.hour
  }

  function HourPoint(agent: string, hourly: map<Slot, Summary>, hour: Time): Point {
    var slot := Slot(agent, hour);
    if slot in hourly then Point(hour, hourly[slot].cpuAvg, hourly[slot].memoryAvg, hourly[slot].samples)
    else Point(hour, 0.0, 0.0, 0)
  }

  function HourPoints(agent: string, hourly: map<Slot, Summary>, hours: seq<Time>): seq<Point> {
    if hours == [] then []
    else HourPoints(agent, hourly, Init(hours)) + [HourPoint(agent, hourly, Last(hours))]
  }

  /** hourlyHistory: the agent's rows with since <= hour_start < until, in order. */
  function HourlyHistory(t: Table, agent: string, since: Time, until: Time): seq<Point> {
    HourPoints(agent, t.hourly, Ascending(HoursBetween(t, agent, since, until)))
  }

  /** ORDER BY measured_at: the point goes behind those no later than it. */
  function Inserted(p: Point, points: seq<Point>): seq<Point> {
    if points == [] || Last(points).at <= p.at then points + [p]
    else Inserted(p, Init(points)) + [Last(points)]
  }

  function RawPoint(s: Sample): Point {
    Point(s.at, s.cpu, s.memory, 1)
  }

  function Sorted(samples: seq<Sample>): seq<Point> {
    if samples == [] then [] else Inserted(RawPoint(Last(samples)), Sorted(Init(samples)))
  }

  function OfAgentSince(agent: string, since: Time): Sample -> bool {
    (s: Sample) => s.agent == agent && s.at >= since
  }

  /** rawHistory: the agent's reports since an instant, in time order. */
  function RawHistory(t: Table, agent: string, since: Time): seq<Point> {
    Sorted(Filter(t.reports, OfAgentSince(agent, since)))
  }

  /** The points before downsampling. */
  function Joined(t: Table, agent: string, since: Time, rawStart: Time): seq<Point> {
    if since < rawStart then HourlyHistory(t, agent, since, rawStart) + RawHistory(t, agent, rawStart)
    else RawHistory(t, agent, since)
  }

  /** History; None is the error for a nonpositive maximum. */
  method History(store: Store, agent: string, since: Time, now: Time, rawRetention: Time, maxPoints: int)
    returns (result: Option<seq<Point>>)
    ensures result == if maxPoints < 1 then None
                      else Some(Downsampled(Joined(store.View(), agent, since, now - rawRetention), maxPoints))
  {
    if maxPoints < 1 {
      return None;
    }
    var rawStart := now - rawRetention;
    var points: seq<Point> := [];
    var from := since;
    if since < rawStart {
      points := HourlyHistory(store.View(), agent, since, rawStart);
      from := rawStart;
    }
    var raw := RawHistory(store.View(), agent, from);
    assert since >= rawStart ==> points + raw == raw;
    points := points + raw;
    var sampled := Downsample(points, maxPoints);
    result := Some(sampled);
  }

  // ----- time order -----

  lemma {:induction false} InsertedKeepsOrder(p: Point, points: seq<Point>)
    requires InTimeOrder(points)
    ensures InTimeOrder(Inserted(p, points))
  {
    if points != [] && Last(points).at > p.at {
      var before, end := Init(points), Last(points);
      assert points == before + [end];
      InsertedKeepsOrder(p, before);
      NoneLater(p, before, end.at);
    }
  }

  /** The same points, and one more. */
  lemma {:induction false} InsertedMembers(p: Point, points: seq<Point>)
    ensures forall q :: q in Inserted(p, points) <==> q == p || q in points
  {
    if points != [] && Last(points).at > p.at {
      InsertedMembers(p, Init(points));
      assert points == Init(points) + [Last(points)];
    }
  }

  lemma NoneLater(p: Point, points: seq<Point>, end: Time)
    requires p.at <= end && forall i | 0 <= i < |points| :: points[i].at <= end
    ensures forall i | 0 <= i < |Inserted(p, points)| :: Inserted(p, points)[i].at <= end
  {
    InsertedMembers(p, points);
    forall i | 0 <= i < |Inserted(p, points)| ensures Inserted(p, points)[i].at <= end {
      assert Inserted(p, points)[i] in Inserted(p, points);
    }
  }

  lemma {:induction false} SortedInOrder(samples: seq<Sample>)
    ensures InTimeOrder(Sorted(samples))
    ensures forall q | q in Sorted(samples) :: exists s :: s in samples && q == RawPoint(s)
  {
    if samples != [] {
      SortedInOrder(Init(samples));
      InsertedKeepsOrder(RawPoint(Last(samples)), Sorted(Init(samples)));
      InsertedMembers(RawPoint(Last(samples)), Sorted(Init(samples)));
    }
  }

  lemma {:induction false} HourPointsAt(agent: string, hourly: map<Slot, Summary>, hours: seq<Time>)
    ensures |HourPoints(agent, hourly, hours)| == |hours|
    ensures forall i | 0 <= i < |hours| :: HourPoints(agent, hourly, hours)[i].at == hours[i]
  {
    if hours != [] {
      HourPointsAt(agent, hourly, Init(hours));
    }
  }

  /** In all cases the points come in time order, also after downsampling. */
  lemma HistoryInTimeOrder(t: Table, agent: string, since: Time, rawStart: Time, maximum: nat)
    requires maximum > 0
    ensures InTimeOrder(Joined(t, agent, since, rawStart))
    ensures InTimeOrder(Downsampled(Joined(t, agent, since, rawStart), maximum))
  {
    var from := if since < rawStart then rawStart else since;
    SortedInOrder(Filter(t.reports, OfAgentSince(agent, from)));
    Rollup.FilterMembers(t.reports, OfAgentSince(agent, from));
    var raw := RawHistory(t, agent, from);
    assert forall q | q in raw :: q.at >= from;
    if since < rawStart {
      var hours := HoursBetween(t, agent, since, rawStart);
      AscendingListsTheSet(hours);
      HourPointsAt(agent, t.hourly, Ascending(hours));
      var hourly := HourlyHistory(t, agent, since, rawStart);
      forall i | 0 <= i < |hourly| ensures hourly[i].at < rawStart {
        assert Ascending(hours)[i] in hours;
      }
      forall i, j | 0 <= i < j < |hourly + raw| ensures (hourly + raw)[i].at <= (hourly + raw)[j].at {
        if j >= |hourly| {
          assert raw[j - |hourly|] in raw;
        }
      }
    }
    DownsamplingKeepsTimeOrder(Joined(t, agent, since, rawStart), maximum);
  }

  // ----- which points -----

  lemma {:induction false} SortedMembers(samples: seq<Sample>, p: Point)
    ensures p in Sorted(samples) <==> exists s :: s in samples && p == RawPoint(s)
  {
    if samples != [] {
      SortedMembers(Init(samples), p);
      InsertedMembers(RawPoint(Last(samples)), Sorted(Init(samples)));
      assert samples == Init(samples) + [Last(samples)];
    }
  }

  lemma {:induction false} HourPointsMembers(agent: string, hourly: map<Slot, Summary>, hours: seq<Time>, p: Point)
    ensures p in HourPoints(agent, hourly, hours) <==> exists h :: h in hours && p == HourPoint(agent, hourly, h)
  {
    if hours != [] {
      HourPointsMembers(agent, hourly, Init(hours), p);
      assert hours == Init(hours) + [Last(hours)];
    }
  }

  /** A point of a report of the agent in the raw table, no older than an instant. */
  ghost predicate OfReport(p: Point, t: Table, agent: string, from: Time) {
    exists s :: s in t.reports && s.agent == agent && s.at >= from && p == Point(s.at, s.cpu, s.memory, 1)
  }

  /** A point of an hourly row of the agent, between two instants cut to whole seconds. */
  ghost predicate OfHour(p: Point, t: Table, agent: string, since: Time, until: Time) {
    && Slot(agent, p.at) in t.hourly && WholeSecond(since) <= p.at < WholeSecond(until)
    && var row := t.hourly[Slot(agent, p.at)];
    p == Point(p.at, row.cpuAvg, row.memoryAvg, row.samples)
  }

  lemma RawPointsAreReports(t: Table, agent: string, from: Time, p: Point)
    ensures p in RawHistory(t, agent, from) <==> OfReport(p, t, agent, from)
  {
    var kept := Filter(t.reports, OfAgentSince(agent, from));
    SortedMembers(kept, p);
    Rollup.FilterMembers(t.reports, OfAgentSince(agent, from));
    if p in RawHistory(t, agent, from) {
      var s :| s in kept && p == RawPoint(s);
      assert s in t.reports && s.agent == agent && s.at >= from;
    }
    if OfReport(p, t, agent, from) {
      var s :| s in t.reports && s.agent == agent && s.at >= from && p == Point(s.at, s.cpu, s.memory, 1);
      assert s in kept && p == RawPoint(s);
    }
  }

  lemma HourlyPointsAreRows(t: Table, agent: string, since: Time, until: Time, p: Point)
    ensures p in HourlyHistory(t, agent, since, until) <==> OfHour(p, t, agent, since, until)
  {
    var hours := HoursBetween(t, agent, since, until);
    AscendingListsTheSet(hours);
    HourPointsMembers(agent, t.hourly, Ascending(hours), p);
    if OfHour(p, t, agent, since, until) {
      assert Slot(agent, p.at).hour in hours;
      assert p == HourPoint(agent, t.hourly, p.at);
    }
  }

  /**
   The points before downsampling are those of the agent's hourly rows from `since` up to the raw start, and of
   its reports from then on; without hours to ask for, of its reports since `since`. No other agent's are among them.
   */
  lemma PointsAreRowsAndReports(t: Table, agent: string, since: Time, rawStart: Time, p: Point)
    ensures p in Joined(t, agent, since, rawStart) <==>
              if since < rawStart then OfHour(p, t, agent, since, rawStart) || OfReport(p, t, agent, rawStart)
              else OfReport(p, t, agent, since)
  {
    HourlyPointsAreRows(t, agent, since, rawStart, p);
    RawPointsAreReports(t, agent, rawStart, p);
    RawPointsAreReports(t, agent, since, p);
  }
}
