/**
 When a notification is owed, told from a row's columns before and after each step: an alert that starts
 firing, turns critical or recovers is due, and stays due until a delivery of it is marked.
 */
module Announcements {
  import opened Prelude
  import opened Alerts
  import opened AlertRuns

  // ----- what makes news, column by column; `before` is None for a new row -----

  predicate StartsFiring(before: Option<Alert>, after: Alert) {
    after.state == Firing && (before.None? || before.value.state != Firing)
  }

  predicate TurnsCritical(before: Option<Alert>, after: Alert) {
    && before.Some? && before.value.state == Firing && before.value.severity == Warning
    && after.state == Firing && after.severity == Critical
  }

  predicate Recovers(before: Option<Alert>, after: Alert) {
    && before.Some? && before.value.state == Firing && before.value.notice != Suppressed
    && after.state == Resolved
  }

  predicate IsNews(before: Option<Alert>, after: Alert) {
    StartsFiring(before, after) || TurnsCritical(before, after) || Recovers(before, after)
  }

  function RowAt(rows: seq<Alert>, id: nat): Option<Alert> {
    if id < |rows| then Some(rows[id]) else None
  }

  /** The step marks the row 'sent' or 'suppressed', and the row is still what the mail was about. */
  predicate MarksRow(rows: seq<Alert>, step: Step, id: nat) {
    && step.Mark? && (step.notice == Sent || step.notice == Suppressed) && step.seen.id == id && id < |rows|
    && rows[id].state == step.seen.alert.state && rows[id].severity == step.seen.alert.severity
    && rows[id].notice == Due
  }

  predicate AcknowledgesRow(rows: seq<Alert>, step: Step, id: nat) {
    step.Acknowledge? && step.id == id && id < |rows| && rows[id].Active() && rows[id].acknowledged == None
  }

  // ----- one step -----

  /** What a step writes into the three columns about notifications of a row: all cases, and nothing else. */
  lemma StepWritesNotice(rows: seq<Alert>, step: Step, id: nat)
    requires WellFormed(rows) && id < |StepRows(rows, step)|
    ensures var before, after := RowAt(rows, id), StepRows(rows, step)[id];
            && after.notice == (if IsNews(before, after) then Due
                                else if MarksRow(rows, step, id) then step.notice
                                else if before.None? then NoNotice
                                else before.value.notice)
            && after.lastNotifiedAt == (if MarksRow(rows, step, id) && step.notice == Sent then Some(step.now)
                                        else if before.None? then None
                                        else before.value.lastNotifiedAt)
            && after.acknowledged == (if before.None? || TurnsCritical(before, after) then None
                                      else if AcknowledgesRow(rows, step, id)
                                      then Some(Acknowledgement(step.now, step.actor))
                                      else before.value.acknowledged)
  {
  }

  // ----- the audit log -----

  /** The row an evaluation continues, closes or opens. */
  predicate Concerns(rows: seq<Alert>, step: Step, id: nat) {
    && step.Evaluate? && id < |StepRows(rows, step)|
    && Touched(rows, step) == if id < |rows| then Some(id) else None
  }

  /** The audit entry of an evaluation names what happened to its row. */
  lemma AuditNamesTheChange(rows: seq<Alert>, step: Step, id: nat)
    requires WellFormed(rows) && Concerns(rows, step, id)
    ensures var before, after := RowAt(rows, id), StepRows(rows, step)[id];
            var entry := (t: Transition) => [RuleEntry(t, Target(after.key), step.ev.severity)];
            StepAudit(rows, step) ==
            if StartsFiring(before, after) then entry(Fired)
            else if TurnsCritical(before, after) then entry(Escalated)
            else if after.state == Resolved then entry(Closed)
            else if before.None? then entry(Opened)
            else []
  {
  }

  /** An evaluation that concerns no row leaves no entry, an acknowledgement one exactly if it is recorded. */
  lemma NoChangeNoEntry(rows: seq<Alert>, step: Step)
    ensures step.Evaluate? && StepRows(rows, step) == rows && Touched(rows, step) == None ==>
              StepAudit(rows, step) == []
    ensures step.Acknowledge? ==>
              StepAudit(rows, step) ==
              if AcknowledgesRow(rows, step, step.id) then [AckEntry(step.actor, step.id)] else []
    ensures step.Mark? ==> StepAudit(rows, step) == []
  {
  }

  // ----- runs -----

  predicate MakesNews(rows: seq<Alert>, step: Step, id: nat) {
    id < |StepRows(rows, step)| && IsNews(RowAt(rows, id), StepRows(rows, step)[id])
  }

  /** Some step of the run made news of the row, and no later one marked it. */
  predicate NewsSinceLastMark(run: seq<Step>, id: nat) {
    run != [] &&
    (MakesNews(Replay(Init(run)), Last(run), id)
     || (NewsSinceLastMark(Init(run), id) && !MarksRow(Replay(Init(run)), Last(run), id)))
  }

  lemma StepKeepsRowCount(rows: seq<Alert>, step: Step)
    ensures |rows| <= |StepRows(rows, step)|
  {
  }

  lemma {:induction false} NoRowNoNews(run: seq<Step>, id: nat)
    requires id >= |Replay(run)|
    ensures !NewsSinceLastMark(run, id)
  {
    if run != [] {
      StepKeepsRowCount(Replay(Init(run)), Last(run));
      NoRowNoNews(Init(run), id);
    }
  }

  /** One step: due afterwards exactly when it makes news, or was due and is not marked. */
  lemma StepKeepsDue(rows: seq<Alert>, step: Step, id: nat)
    requires WellFormed(rows) && id < |StepRows(rows, step)|
    ensures StepRows(rows, step)[id].notice == Due <==>
              MakesNews(rows, step, id)
              || (id < |rows| && rows[id].notice == Due && !MarksRow(rows, step, id))
  {
    StepWritesNotice(rows, step, id);
  }

  /**
   Over every run of rules, acknowledgements and marks: a row is due exactly when it started firing, turned
   critical or recovered at some step, and no delivery of it was marked since.
   */
  lemma {:induction false} DueIffNewsSinceLastMark(run: seq<Step>, id: nat)
    requires id < |Replay(run)|
    ensures Replay(run)[id].notice == Due <==> NewsSinceLastMark(run, id)
    ensures IsDue(Replay(run)[id]) <==> NewsSinceLastMark(run, id)
  {
    ReachableIsWellFormed(run);
    ReachableIsWellFormed(Init(run));
    StepKeepsDue(Replay(Init(run)), Last(run), id);
    if id < |Replay(Init(run))| {
      DueIffNewsSinceLastMark(Init(run), id);
    } else {
      NoRowNoNews(Init(run), id);
    }
  }

  /** So the next pass loads it, unless a whole batch of earlier rows is due as well. */
  lemma {:induction false} NewsIsLoaded(run: seq<Step>, id: nat, limit: nat)
    requires id < |Replay(run)| && NewsSinceLastMark(run, id)
    ensures var due := DueRows(Replay(run), limit);
            Snapshot(id, Replay(run)[id]) in due
            || (|due| == limit && forall k | 0 <= k < limit :: due[k].id < id && IsDue(due[k].alert))
  {
    DueIffNewsSinceLastMark(run, id);
    DueRowsAreTheFirstDue(Replay(run), limit);
  }
}
