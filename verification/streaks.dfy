/**
 ApplyRule refines the evaluation history: the active row of a key, kept incrementally,
 equals a summary of the key's current run of violated evaluations.
 */
module Streaks {
  import opened Prelude
  import opened Alerts
  import opened AlertRuns

  datatype Observation = Observation(ev: Evaluation, now: Time)

  /** Every evaluation of one key, in order; other keys, acknowledgements and marks drop out. */
  function History(run: seq<Step>, key: Key): seq<Observation> {
    if run == [] then []
    else
      var earlier := History(Init(run), key);
      if Last(run).Evaluate? && Last(run).ev.key == key then
        earlier + [Observation(Last(run).ev, Last(run).now)]
      else earlier
  }

  /** The current streak: the longest all-violated suffix. */
  function Streak(history: seq<Observation>): seq<Observation> {
    if history == [] || !Last(history).ev.violated then []
    else Streak(Init(history)) + [Last(history)]
  }

  lemma {:induction false} StreakIsTheLongestViolatedSuffix(history: seq<Observation>)
    ensures var n := |Streak(history)|;
            && n <= |history| && Streak(history) == history[|history| - n..]
            && (forall i | |history| - n <= i < |history| :: history[i].ev.violated)
            && (n < |history| ==> !history[|history| - n - 1].ev.violated)
  {
    if history != [] && Last(history).ev.violated {
      StreakIsTheLongestViolatedSuffix(Init(history));
    }
  }

  /** The i-th violation of the streak meets its own firing condition. */
  predicate ReachedAt(streak: seq<Observation>, i: nat)
    requires i < |streak|
  {
    Reached(streak[i].ev, i + 1, streak[i].now - streak[0].now)
  }

  /** `a` is what the streak amounts to. */
  ghost predicate Summarises(a: Alert, streak: seq<Observation>) {
    && streak != []
    && a.violations == |streak|
    && a.startedAt == streak[0].now
    && a.severity == Last(streak).ev.severity
    && a.value == Last(streak).ev.value
    && a.threshold == Last(streak).ev.threshold
    && a.state == (if exists i :: 0 <= i < |streak| && ReachedAt(streak, i) then Firing else Pending)
    && (a.state == Firing ==>
          exists i ::
            && 0 <= i < |streak| && ReachedAt(streak, i)
            && a.firingAt == Some(streak[i].now)
            && forall j | 0 <= j < i :: !ReachedAt(streak, j))
  }

  lemma SummaryGrows(a: Alert, streak: seq<Observation>, ev: Evaluation, now: Time)
    requires Summarises(a, streak)
    ensures Summarises(ContinuedRow(a, ev, now), streak + [Observation(ev, now)])
  {
    var longer := streak + [Observation(ev, now)];
    assert forall i | 0 <= i < |streak| :: ReachedAt(longer, i) == ReachedAt(streak, i);
    if a.state == Firing {
      var i :| 0 <= i < |streak| && ReachedAt(streak, i) && a.firingAt == Some(streak[i].now)
               && forall j | 0 <= j < i :: !ReachedAt(streak, j);
      assert ReachedAt(longer, i);
    } else {
      assert ReachedAt(longer, |streak|) == Fires(a, ev, now);
    }
  }

  lemma SummaryStarts(ev: Evaluation, now: Time)
    ensures Summarises(OpenedRow(ev, now), [Observation(ev, now)])
  {
    assert ReachedAt([Observation(ev, now)], 0) == Reached(ev, 1, 0);
  }

  /** What a reader needs of the key's active row: it summarises the streak, or there is none. */
  ghost predicate Refines(rows: seq<Alert>, key: Key, streak: seq<Observation>) {
    match ActiveIndex(rows, key)
    case None => streak == []
    case Some(id) => Summarises(rows[id], streak)
  }

  lemma SameSummarySameStreak(a: Alert, b: Alert, streak: seq<Observation>)
    requires SameSummary(a, b) && Summarises(a, streak)
    ensures Summarises(b, streak)
  {
  }

  /** A step that does not evaluate the key leaves the streak's columns of its active row alone. */
  lemma OtherStepsKeepSummary(rows: seq<Alert>, step: Step, key: Key, streak: seq<Observation>)
    requires WellFormed(rows) && Refines(rows, key, streak)
    requires step.Evaluate? ==> step.ev.key != key
    ensures Refines(StepRows(rows, step), key, streak)
  {
    var after := StepRows(rows, step);
    OtherStepsKeepActive(rows, step, key);
    if ActiveIndex(rows, key).Some? {
      var id := ActiveIndex(rows, key).value;
      OtherStepsKeepRows(rows, step, key, id);
      SameSummarySameStreak(rows[id], after[id], streak);
    }
  }

  lemma {:induction false} EvaluationKeepsSummary(
      rows: seq<Alert>, ev: Evaluation, now: Time, history: seq<Observation>)
    requires WellFormed(rows) && Refines(rows, ev.key, Streak(history))
    ensures Refines(Applied(rows, ev, now), ev.key, Streak(history + [Observation(ev, now)]))
  {
    var after := Applied(rows, ev, now);
    assert Init(history + [Observation(ev, now)]) == history;
    OwnStepDecidesActive(rows, ev, now);
    match ActiveIndex(rows, ev.key)
    case None =>
      SummaryStarts(ev, now);
      if ev.violated {
        assert Streak(history) + [Observation(ev, now)] == [Observation(ev, now)];
      }
    case Some(id) =>
      SummaryGrows(rows[id], Streak(history), ev, now);
  }

  /**
   Streak refinement. After every run, for every key: there is an active row exactly when the
   key's last evaluation was violated; it counts the current streak, started with its first
   violation, carries the last evaluation's severity, value and threshold, and is firing exactly
   when some violation of the streak met its own count or duration, since the first that did.
   */
  lemma {:induction false} ActiveRowSummarisesStreak(run: seq<Step>, key: Key)
    ensures Refines(Replay(run), key, Streak(History(run, key)))
  {
    if run != [] {
      ActiveRowSummarisesStreak(Init(run), key);
      ReachableIsWellFormed(Init(run));
      var step := Last(run);
      if step.Evaluate? && step.ev.key == key {
        EvaluationKeepsSummary(Replay(Init(run)), step.ev, step.now, History(Init(run), key));
      } else {
        OtherStepsKeepSummary(Replay(Init(run)), step, key, Streak(History(Init(run), key)));
      }
    }
  }

  /** With a constant count above one, an alert is firing exactly from the count-th violation in a row. */
  lemma {:induction false} FiringByCount(run: seq<Step>, key: Key, count: int, id: nat)
    requires count > 1
    requires forall o | o in Streak(History(run, key)) :: o.ev.consecutive == count
    requires ActiveIndex(Replay(run), key) == Some(id)
    ensures Replay(run)[id].state == Firing <==> |Streak(History(run, key))| >= count
  {
    ActiveRowSummarisesStreak(run, key);
    var streak := Streak(History(run, key));
    assert forall i | 0 <= i < |streak| :: streak[i] in streak;
    if |streak| >= count {
      assert ReachedAt(streak, count - 1);
    }
  }

  /** With a constant duration and a clock that never steps back, it is firing exactly `duration` into the streak. */
  lemma {:induction false} FiringByDuration(run: seq<Step>, key: Key, duration: Time, id: nat)
    requires forall o | o in Streak(History(run, key)) :: o.ev.consecutive <= 1 && o.ev.duration == duration
    requires var streak := Streak(History(run, key));
             forall i | 0 <= i < |streak| :: streak[i].now <= Last(streak).now
    requires ActiveIndex(Replay(run), key) == Some(id)
    ensures var streak := Streak(History(run, key));
            streak != [] &&
            (Replay(run)[id].state == Firing <==> Last(streak).now - streak[0].now >= duration)
  {
    ActiveRowSummarisesStreak(run, key);
    var streak := Streak(History(run, key));
    assert forall i | 0 <= i < |streak| :: streak[i] in streak;
    if Last(streak).now - streak[0].now >= duration {
      assert ReachedAt(streak, |streak| - 1);
    }
  }

  /**
   The evaluation that ends a streak closes its row: it keeps the streak's start, count, severity and firing
   time, and takes the value, the threshold and the time of the evaluation.
   */
  lemma {:induction false} ClosedRowRecordsTheStreak(run: seq<Step>, ev: Evaluation, now: Time, id: nat)
    requires !ev.violated && ActiveIndex(Replay(run), ev.key) == Some(id)
    ensures var after, streak := Replay(run + [Evaluate(ev, now)]), Streak(History(run, ev.key));
            && id < |after| && streak != []
            && var b := after[id];
            && b.state == Resolved && b.resolvedAt == Some(now) && b.value == ev.value && b.threshold == ev.threshold
            && b.startedAt == streak[0].now && b.violations == |streak| && b.severity == Last(streak).ev.severity
            && (b.firingAt.Some? <==> exists i | 0 <= i < |streak| :: ReachedAt(streak, i))
            && (b.firingAt.Some? ==>
                  exists i | 0 <= i < |streak| ::
                    ReachedAt(streak, i) && b.firingAt == Some(streak[i].now)
                    && forall j | 0 <= j < i :: !ReachedAt(streak, j))
  {
    ActiveRowSummarisesStreak(run, ev.key);
    ReachableIsWellFormed(run);
    ReplayConcat(run, Evaluate(ev, now));
  }
}
