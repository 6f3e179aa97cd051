/**
 Stored measurements (internal/storage/storage.go): the raw reports table, the hourly aggregates,
 and the transactions that fill and maintain them. Percentages are exact reals.
 */
module Metrics {
  import opened Prelude

  datatype Sample = Sample(agent: string, at: Time, cpu: real, memory: real)

  /** One row of hourly_metrics is keyed by agent and hour. */
  datatype Slot = Slot(agent: string, hour: Time)

  datatype Summary = Summary(
    cpuAvg: real, cpuMin: real, cpuMax: real,
    memoryAvg: real, memoryMin: real, memoryMax: real,
    samples: nat)

  datatype Table = Table(reports: seq<Sample>, hourly: map<Slot, Summary>)

  function HourOf(t: Time): Time {
    t - t % HOUR
  }

  /** RFC 3339 without a fraction: the instant cut to whole seconds. */
  function WholeSecond(t: Time): Time {
    t - t % SECOND
  }

  function SlotOf(s: Sample): Slot {
    Slot(s.agent, HourOf(s.at))
  }

  // ----- filters, sums, extremes -----

  function Filter<T>(items: seq<T>, p: T -> bool): seq<T> {
    if items == [] then [] else Filter(Init(items), p) + if p(Last(items)) then [Last(items)] else []
  }

  function Sum<T>(items: seq<T>, f: T -> real): real {
    if items == [] then 0.0 else Sum(Init(items), f) + f(Last(items))
  }

  function Min(items: seq<Sample>, f: Sample -> real): real
    requires items != []
  {
    if |items| == 1 then f(items[0])
    else var m := Min(Init(items), f); if f(Last(items)) < m then f(Last(items)) else m
  }

  function Max(items: seq<Sample>, f: Sample -> real): real
    requires items != []
  {
    if |items| == 1 then f(items[0])
    else var m := Max(Init(items), f); if f(Last(items)) > m then f(Last(items)) else m
  }

  const CPU: Sample -> real := (s: Sample) => s.cpu
  const MEMORY: Sample -> real := (s: Sample) => s.memory

  function InSlot(slot: Slot): Sample -> bool {
    (s: Sample) => SlotOf(s) == slot
  }

  function IsBefore(cutoff: Time): Sample -> bool {
    (s: Sample) => s.at < cutoff
  }

  function IsSince(cutoff: Time): Sample -> bool {
    (s: Sample) => s.at >= cutoff
  }

  function Group(samples: seq<Sample>, slot: Slot): seq<Sample> {
    Filter(samples, InSlot(slot))
  }

  function Before(samples: seq<Sample>, cutoff: Time): seq<Sample> {
    Filter(samples, IsBefore(cutoff))
  }

  function Since(samples: seq<Sample>, cutoff: Time): seq<Sample> {
    Filter(samples, IsSince(cutoff))
  }

  /** AVG, MIN, MAX and COUNT of one group. */
  function Summarise(group: seq<Sample>): Summary
    requires group != []
  {
    Summary(Sum(group, CPU) / |group| as real, Min(group, CPU), Max(group, CPU),
            Sum(group, MEMORY) / |group| as real, Min(group, MEMORY), Max(group, MEMORY),
            |group|)
  }

  // ----- the maintenance transaction -----

  /** INSERT ... SELECT ... GROUP BY ... ON CONFLICT DO UPDATE over the completed hours. */
  function Upserted(t: Table, now: Time): map<Slot, Summary> {
    t.hourly + Grouped(Before(t.reports, HourOf(now)))
  }

  function Grouped(samples: seq<Sample>): map<Slot, Summary> {
    map slot | slot in (set s | s in samples :: SlotOf(s)) && Group(samples, slot) != [] ::
      Summarise(Group(samples, slot))
  }

  /** DELETE FROM hourly_metrics WHERE hour_start < ?, the cutoff formatted to whole seconds. */
  function Retained(hourly: map<Slot, Summary>, cutoff: Time): map<Slot, Summary> {
    map slot | slot in hourly && slot.hour >= WholeSecond(cutoff) :: hourly[slot]
  }

  function Maintained(t: Table, now: Time, rawRetention: Time, aggregateRetention: Time): Table {
    Table(Since(t.reports, now - rawRetention), Retained(Upserted(t, now), now - aggregateRetention))
  }

  class Store {
    var lastSequence: map<string, nat>
    var lastSeen: map<string, Time>
    var reports: seq<Sample>
    var hourly: map<Slot, Summary>

    constructor (agents: set<string>)
      ensures lastSequence == (map a | a in agents :: 0) && lastSeen == map[]
      ensures View() == Table([], map[])
    {
      lastSequence, lastSeen, reports, hourly := map a | a in agents :: 0, map[], [], map[];
    }

    function View(): Table
      reads this
    {
      Table(reports, hourly)
    }

    /** SaveReport: the sequence check and the insertion are one transaction; false is ErrReplay. */
    method SaveReport(sequence: nat, sample: Sample, now: Time) returns (saved: bool)
      modifies this
      ensures saved <==> sample.agent in old(lastSequence) && old(lastSequence)[sample.agent] < sequence
      ensures saved ==> lastSequence == old(lastSequence)[sample.agent := sequence]
                        && lastSeen == old(lastSeen)[sample.agent := now]
                        && View() == old(View()).(reports := old(reports) + [sample])
      ensures !saved ==> lastSequence == old(lastSequence) && lastSeen == old(lastSeen) && View() == old(View())
    {
      if sample.agent !in lastSequence || lastSequence[sample.agent] >= sequence {
        return false;
      }
      lastSequence := lastSequence[sample.agent := sequence];
      lastSeen := lastSeen[sample.agent := now];
      reports := reports + [sample];
      saved := true;
    }

    method Maintain(now: Time, rawRetention: Time, aggregateRetention: Time)
      modifies this`reports, this`hourly
      ensures View() == Maintained(old(View()), now, rawRetention, aggregateRetention)
    {
      var currentHour := HourOf(now);
      var rawCutoff := now - rawRetention;
      var aggregateCutoff := now - aggregateRetention;
      var aggregates := hourly + Grouped(Before(reports, currentHour));
      reports, hourly := Since(reports, rawCutoff), Retained(aggregates, aggregateCutoff);
    }
  }
}
