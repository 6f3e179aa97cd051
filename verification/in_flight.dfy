/**
 A mail is sent outside any transaction, so the table moves on while it is in flight. The
 compare-and-set of MarkAlertDelivery must not consume a transition newer than the mail.
 */
module InFlight {
  import opened Prelude
  import opened Alerts
  import opened AlertRuns

  /** The step sets the row's notification pending: it fires, escalates or resolves it. */
  predicate Announces(rows: seq<Alert>, step: Step, id: nat) {
    && step.Evaluate? && Touched(rows, step) == Some(id)
    && TransitionOf(rows, step.ev, step.now).Some?
    && id < |StepRows(rows, step)| && StepRows(rows, step)[id].notice == Due
  }

  /** Some step of `after` set the row's notification pending. */
  predicate Announced(before: seq<Step>, after: seq<Step>, id: nat) {
    after != [] &&
    (Announced(before, Init(after), id) || Announces(Replay(before + Init(after)), Last(after), id))
  }

  predicate ChangesSeverity(rows: seq<Alert>, step: Step, id: nat) {
    id < |rows| && id < |StepRows(rows, step)| && StepRows(rows, step)[id].severity != rows[id].severity
  }

  /** Some step of `after` changed the row's severity. */
  predicate SeverityMoved(before: seq<Step>, after: seq<Step>, id: nat) {
    after != [] &&
    (SeverityMoved(before, Init(after), id) || ChangesSeverity(Replay(before + Init(after)), Last(after), id))
  }

  /** One worker delivers at a time, so nothing else marks the row while its mail is in flight. */
  ghost predicate OneDelivery(after: seq<Step>, id: nat) {
    forall step | step in after :: step.Mark? ==> step.seen.id != id
  }

  /** What one step can do to a row whose mail is in flight. */
  lemma StepMovesRow(rows: seq<Alert>, step: Step, id: nat)
    requires WellFormed(rows) && id < |rows| && IsDue(rows[id])
    requires step.Mark? ==> step.seen.id != id
    ensures id < |StepRows(rows, step)|
    ensures var a, b := rows[id], StepRows(rows, step)[id];
            && IsDue(b)
            && (a.state == Resolved ==> b.state == Resolved)
            && (b.state == Resolved ==> b.severity == a.severity)
            && (Announces(rows, step, id) <==>
                  a.state == Firing && (b.state == Resolved || (a.severity == Warning && b.severity == Critical)))
  {
  }

  /**
   A due row as it was seen and as it is now, and whether it was announced or its severity moved meanwhile:
   without an announcement a warning stays one, and a severity that is back where it was never moved; a
   severity that never moved is as seen, and then nothing was announced.
   */
  predicate Tracks(seen: Alert, now: Alert, announced: bool, moved: bool) {
    && IsDue(now)
    && (seen.state == Resolved ==> now.state == Resolved)
    && (now.state == seen.state && !announced ==>
          (seen.severity == Warning ==> now.severity == Warning) && (now.severity == seen.severity ==> !moved))
    && (now.state == seen.state && !moved ==> now.severity == seen.severity && !announced)
  }

  lemma TracksOneMoreStep(seen: Alert, a: Alert, b: Alert, announced: bool, moved: bool, announces: bool)
    requires Tracks(seen, a, announced, moved) && IsDue(seen) && IsDue(b)
    requires a.state == Resolved ==> b.state == Resolved
    requires b.state == Resolved ==> b.severity == a.severity
    requires announces <==>
               a.state == Firing && (b.state == Resolved || (a.severity == Warning && b.severity == Critical))
    ensures Tracks(seen, b, announced || announces, moved || b.severity != a.severity)
  {
  }

  lemma StepKeepsTrack(seen: Alert, rows: seq<Alert>, step: Step, id: nat, announced: bool, moved: bool)
    requires WellFormed(rows) && id < |rows| && IsDue(seen) && Tracks(seen, rows[id], announced, moved)
    requires step.Mark? ==> step.seen.id != id
    ensures id < |StepRows(rows, step)|
    ensures Tracks(seen, StepRows(rows, step)[id], announced || Announces(rows, step, id),
                   moved || ChangesSeverity(rows, step, id))
  {
    StepMovesRow(rows, step, id);
    TracksOneMoreStep(seen, rows[id], StepRows(rows, step)[id], announced, moved, Announces(rows, step, id));
  }

  lemma {:induction false} WhileInFlight(before: seq<Step>, after: seq<Step>, id: nat)
    requires id < |Replay(before)| && IsDue(Replay(before)[id]) && OneDelivery(after, id)
    ensures id < |Replay(before + after)|
    ensures Tracks(Replay(before)[id], Replay(before + after)[id],
                   Announced(before, after, id), SeverityMoved(before, after, id))
    decreases |after|
  {
    if after == [] {
      assert before + after == before;
    } else {
      var sofar, step := before + Init(after), Last(after);
      assert step in after && forall s | s in Init(after) :: s in after;
      WhileInFlight(before, Init(after), id);
      ReplayOneMore(before, after);
      ReachableIsWellFormed(sofar);
      StepKeepsTrack(Replay(before)[id], Replay(sofar), step, id,
                     Announced(before, Init(after), id), SeverityMoved(before, Init(after), id));
    }
  }

  /**
   When does marking a delivery consume a newer transition? A mark that takes effect covers a
   notification set pending after its snapshot if and only if the row's severity changed
   meanwhile. (The compare-and-set only sees the severity it comes back to.)
   */
  lemma {:induction false} EffectiveMarkConsumesNewerIffSeverityMoved(before: seq<Step>, after: seq<Step>, id: nat)
    requires id < |Replay(before)| && IsDue(Replay(before)[id]) && OneDelivery(after, id)
    requires Awaits(Replay(before + after), Snapshot(id, Replay(before)[id]))
    ensures Announced(before, after, id) <==> SeverityMoved(before, after, id)
  {
    WhileInFlight(before, after, id);
  }

  predicate LowersSeverity(rows: seq<Alert>, step: Step, id: nat) {
    ChangesSeverity(rows, step, id) && rows[id].severity == Critical
  }

  /** No step of `after` lowers the row's severity. */
  predicate SeverityNeverFalls(before: seq<Step>, after: seq<Step>, id: nat) {
    after == [] ||
    (SeverityNeverFalls(before, Init(after), id)
     && !LowersSeverity(Replay(before + Init(after)), Last(after), id))
  }

  /** One more step that does not lower the severity: back where it was seen, it never moved. */
  lemma OnlyRises(seen: Severity, mid: Severity, now: Severity, moved: bool)
    requires seen == Critical ==> mid == Critical
    requires mid == seen ==> !moved
    requires mid == Critical ==> now == mid
    ensures seen == Critical ==> now == Critical
    ensures now == seen ==> !moved && now == mid
  {
  }

  /** The severity a row has after a run. */
  function SeverityAfter(run: seq<Step>, id: nat): Option<Severity> {
    if id < |Replay(run)| then Some(Replay(run)[id].severity) else None
  }

  lemma RowStays(rows: seq<Alert>, step: Step, id: nat)
    requires id < |rows|
    ensures id < |StepRows(rows, step)|
  {
  }

  lemma {:induction false} SeverityOneStep(run: seq<Step>, step: Step, id: nat)
    requires SeverityAfter(run, id).Some?
    ensures SeverityAfter(run + [step], id).Some?
    ensures ChangesSeverity(Replay(run), step, id) <==> SeverityAfter(run + [step], id) != SeverityAfter(run, id)
    ensures LowersSeverity(Replay(run), step, id) <==>
              SeverityAfter(run, id).value == Critical && SeverityAfter(run + [step], id).value == Warning
  {
    RowStays(Replay(run), step, id);
    ReplayConcat(run, step);
  }

  lemma {:induction false} RisingSeverityReturnsOnlyUnmoved(before: seq<Step>, after: seq<Step>, id: nat)
    requires SeverityAfter(before, id).Some? && SeverityNeverFalls(before, after, id)
    ensures SeverityAfter(before + after, id).Some?
    ensures SeverityAfter(before, id).value == Critical ==> SeverityAfter(before + after, id).value == Critical
    ensures SeverityAfter(before + after, id) == SeverityAfter(before, id) ==> !SeverityMoved(before, after, id)
    decreases |after|
  {
    if after == [] {
      assert before + after == before;
    } else {
      var sofar, step := before + Init(after), Last(after);
      RisingSeverityReturnsOnlyUnmoved(before, Init(after), id);
      assert before + after == sofar + [step];
      SeverityOneStep(sofar, step, id);
      assert !LowersSeverity(Replay(sofar), step, id);
      OnlyRises(SeverityAfter(before, id).value, SeverityAfter(sofar, id).value,
                SeverityAfter(sofar + [step], id).value, SeverityMoved(before, Init(after), id));
    }
  }

  /** If severity never falls while the mail is in flight, its mark clears nothing newer than its snapshot. */
  lemma {:induction false} MarkClearsNothingNewer(
      before: seq<Step>, after: seq<Step>, id: nat, notice: Notice, now: Time)
    requires id < |Replay(before)| && IsDue(Replay(before)[id]) && OneDelivery(after, id)
    requires SeverityNeverFalls(before, after, id)
    requires Announced(before, after, id)
    ensures Marked(Replay(before + after), Snapshot(id, Replay(before)[id]), notice, now)
            == Replay(before + after)
  {
    var seen := Snapshot(id, Replay(before)[id]);
    if Awaits(Replay(before + after), seen) {
      EffectiveMarkConsumesNewerIffSeverityMoved(before, after, id);
      RisingSeverityReturnsOnlyUnmoved(before, after, id);
      assert false;
    }
  }

  /** Whatever the severities do, the mark of a firing mail never takes a recovery that came while it was in flight. */
  lemma {:induction false} FiringMarkSparesRecovery(
      before: seq<Step>, after: seq<Step>, id: nat, notice: Notice, now: Time)
    requires id < |Replay(before)| && IsDue(Replay(before)[id]) && OneDelivery(after, id)
    requires Replay(before)[id].state == Firing
    requires id < |Replay(before + after)| && Replay(before + after)[id].state == Resolved
    ensures Replay(before + after)[id].notice == Due
    ensures Marked(Replay(before + after), Snapshot(id, Replay(before)[id]), notice, now)
            == Replay(before + after)
  {
    WhileInFlight(before, after, id);
  }

  /** Nor does the mark of a warning mail ever take the escalation its alert has gone through meanwhile. */
  lemma {:induction false} WarningMarkSparesEscalation(
      before: seq<Step>, after: seq<Step>, id: nat, notice: Notice, now: Time)
    requires id < |Replay(before)| && IsDue(Replay(before)[id]) && OneDelivery(after, id)
    requires Replay(before)[id].severity == Warning
    requires id < |Replay(before + after)| && Replay(before + after)[id].severity == Critical
    ensures Replay(before + after)[id].notice == Due
    ensures Marked(Replay(before + after), Snapshot(id, Replay(before)[id]), notice, now)
            == Replay(before + after)
  {
    WhileInFlight(before, after, id);
  }

  /** Severity can fall back: a warning mail in flight then swallows the escalation it never reported. */
  lemma SeverityFallSwallowsEscalation(key: Key)
    ensures var rule := (severity: Severity) => Evaluation(key, severity, 0.0, 0.0, true, 0, 0);
            var before := [Evaluate(rule(Warning), 0)];
            var after := [Evaluate(rule(Critical), 1), Evaluate(rule(Warning), 2)];
            && |Replay(before)| == 1 && IsDue(Replay(before)[0])
            && Announced(before, after, 0)
            && Awaits(Replay(before + after), Snapshot(0, Replay(before)[0]))
  {
    var rule := (severity: Severity) => Evaluation(key, severity, 0.0, 0.0, true, 0, 0);
    var before := [Evaluate(rule(Warning), 0)];
    var up, down := Evaluate(rule(Critical), 1), Evaluate(rule(Warning), 2);
    var raised := OpenedRow(rule(Warning), 0);
    assert Init(before) == [] && Replay(before) == [raised];
    ReplayConcat(before, up);
    OneRow(raised);
    OneRow(ContinuedRow(raised, rule(Critical), 1));
    assert before + [] == before && Init([up]) == [] && Init([up, down]) == [up];
    assert Announced(before, [up], 0);
    ReplayConcat(before + [up], down);
    assert before + [up] + [down] == before + [up, down];
  }

  lemma OneRow(a: Alert)
    requires a.Active()
    ensures ActiveIndex([a], a.key) == Some(0)
  {
  }
}
