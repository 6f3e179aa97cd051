/**
 What the cooldown holds back, and nothing else: over every run of the worker and the table, whatever the
 settings and whichever queries, mails and marks fail, an unfiltered firing alert is held back if and only if a
 recovery of the very same agent, rule, resource and severity was mailed and recorded within the cooldown.
 */
module HeldBack {
  import opened Prelude
  import opened Alerts
  import opened AlertRuns
  import opened Notifier
  import opened Recoveries

  /** The operator's settings let the alert through. */
  predicate LetThrough(a: Alert, smtp: bool, prefs: Preferences) {
    && smtp && prefs.enabled
    && (a.severity == Warning ==> prefs.warnings)
    && (a.state == Resolved ==> prefs.recovery)
  }

  /** The row was notified of an alert of the same agent, rule, resource and severity, since an instant. */
  predicate NotifiedAlike(row: Alert, a: Alert, since: Time) {
    && row.key.agent == a.key.agent && row.key.rule == a.key.rule && row.key.resource == a.key.resource
    && row.severity == a.severity && row.notice == Sent
    && row.lastNotifiedAt.Some? && row.lastNotifiedAt.value >= since
  }

  /** Another row than the one seen was notified of such an alert. */
  ghost predicate AnotherNotified(rows: seq<Alert>, seen: Snapshot, since: Time) {
    exists i | 0 <= i < |rows| :: i != seen.id && NotifiedAlike(rows[i], seen.alert, since)
  }

  /** The worker's decision about one alert, from the settings and the columns of the other rows. */
  lemma MailedIffLetThroughAndNotHeld(w: World, smtp: bool, prefs: Preferences, now: Time, cooldown: Time)
    requires Enabled(w, Choose(smtp, prefs, now))
    ensures var seen, v := w.queue[0], Act(w, Choose(smtp, prefs, now), cooldown);
            && (v.phase == Mailing <==>
                  LetThrough(seen.alert, smtp, prefs)
                  && !(seen.alert.state == Firing && cooldown > 0 && AnotherNotified(w.rows, seen, now - cooldown)))
            && (v.phase == Mailing || v.phase == Suppressing)
            && v == w.(phase := v.phase, clock := now)
  {
    var seen := w.queue[0];
    assert forall i | 0 <= i < |w.rows| ::
        CountsForCooldown(w.rows[i], seen.alert.key, seen.alert.severity, now - cooldown)
        == NotifiedAlike(w.rows[i], seen.alert, now - cooldown);
  }

  // ----- what was mailed and recorded -----

  /** A mail that left, and the time the worker recorded it at. */
  datatype Delivery = Delivery(seen: Snapshot, markedAt: Time)

  function Recorded(start: Time, run: seq<Action>, cooldown: Time): seq<Delivery> {
    if run == [] then []
    else
      var earlier, before := Recorded(start, Init(run), cooldown), Walk(start, Init(run), cooldown);
      if before.Some? then earlier + NewlyRecorded(before.value, Last(run)) else earlier
  }

  function NewlyRecorded(w: World, action: Action): seq<Delivery> {
    if action.Record? && w.queue != [] && w.phase == Recording then [Delivery(w.queue[0], action.now)] else []
  }

  // ----- the invariant -----

  predicate Unmarked(a: Alert) {
    a.notice == NoNotice || a.notice == Due
  }

  /** A queue entry has its row's key; a recovery is as it was seen; a firing entry's key has no newer row marked. */
  ghost predicate EntryFits(rows: seq<Alert>, s: Snapshot) {
    && s.id < |rows| && rows[s.id].key == s.alert.key && IsDue(s.alert)
    && (s.alert.state == Resolved ==> rows[s.id] == s.alert)
    && (s.alert.state == Firing ==>
          forall j | s.id < j < |rows| && rows[j].key == s.alert.key :: Unmarked(rows[j]))
  }

  ghost predicate QueueFits(w: World) {
    forall k | 0 <= k < |w.queue| :: EntryFits(w.rows, w.queue[k])
  }

  predicate Recovery(d: Delivery) {
    d.seen.alert.state == Resolved
  }

  /** The row of a recorded recovery says so, and the other way round. */
  ghost predicate LedgerFits(rows: seq<Alert>, recorded: seq<Delivery>) {
    && (forall d | d in recorded && Recovery(d) ::
          d.seen.id < |rows| && rows[d.seen.id] == MarkedRow(d.seen.alert, Sent, d.markedAt))
    && (forall i | 0 <= i < |rows| && rows[i].state == Resolved && rows[i].notice == Sent ::
          exists d :: d in recorded && d.seen.id == i && Recovery(d))
  }

  /** What rule steps and acknowledgements may do to one row: they mark nothing, and leave resolved rows alone. */
  predicate MarksNothing(rows: seq<Alert>, after: seq<Alert>, id: nat)
    requires |rows| <= |after| && id < |after|
  {
    if id < |rows| then
      && after[id].key == rows[id].key
      && (rows[id].state == Resolved ==> after[id] == rows[id])
      && (Unmarked(rows[id]) ==> Unmarked(after[id]))
      && (after[id].notice == Sent && after[id].state == Resolved ==> after[id] == rows[id])
    else Unmarked(after[id])
  }

  lemma TableMarksNothing(rows: seq<Alert>, step: Step, id: nat)
    requires WellFormed(rows) && !step.Mark?
    ensures |rows| <= |StepRows(rows, step)|
    ensures id < |StepRows(rows, step)| ==> MarksNothing(rows, StepRows(rows, step), id)
  {
  }

  lemma {:induction false} UnmarkedKeepsLedger(w: World, after: seq<Alert>, recorded: seq<Delivery>)
    requires QueueFits(w) && LedgerFits(w.rows, recorded)
    requires |w.rows| <= |after| && forall id | 0 <= id < |after| :: MarksNothing(w.rows, after, id)
    ensures QueueFits(w.(rows := after)) && LedgerFits(after, recorded)
  {
    forall k | 0 <= k < |w.queue| ensures EntryFits(after, w.queue[k]) {
      var entry := w.queue[k];
      assert EntryFits(w.rows, entry) && MarksNothing(w.rows, after, entry.id);
      forall j | entry.id < j < |after| && after[j].key == entry.alert.key && entry.alert.state == Firing
        ensures Unmarked(after[j])
      {
        assert MarksNothing(w.rows, after, j);
      }
    }
    forall d | d in recorded && Recovery(d) ensures after[d.seen.id] == w.rows[d.seen.id] {
      assert MarksNothing(w.rows, after, d.seen.id);
    }
    forall i | 0 <= i < |after| && after[i].state == Resolved && after[i].notice == Sent
      ensures exists d :: d in recorded && d.seen.id == i && Recovery(d)
    {
      assert MarksNothing(w.rows, after, i);
    }
  }

  lemma {:induction false} TableKeepsLedger(w: World, step: Step, recorded: seq<Delivery>)
    requires WellFormed(w.rows) && QueueFits(w) && LedgerFits(w.rows, recorded) && !step.Mark?
    ensures QueueFits(w.(rows := StepRows(w.rows, step))) && LedgerFits(StepRows(w.rows, step), recorded)
  {
    var after := StepRows(w.rows, step);
    TableMarksNothing(w.rows, step, 0);
    forall id | 0 <= id < |after| ensures MarksNothing(w.rows, after, id) {
      TableMarksNothing(w.rows, step, id);
    }
    UnmarkedKeepsLedger(w, after, recorded);
  }

  lemma LoadKeepsLedger(w: World)
    requires WellFormed(w.rows)
    ensures QueueFits(w.(queue := DueRows(w.rows, BATCH)))
  {
    var due := DueRows(w.rows, BATCH);
    DueRowsAreTheFirstDue(w.rows, BATCH);
    forall k | 0 <= k < |due| ensures EntryFits(w.rows, due[k]) {
      assert due[k].alert == w.rows[due[k].id];
    }
  }

  /** The head leaves the queue; at most its own row has changed. */
  lemma HeadLeavesQueue(w: World, v: World)
    requires BatchFits(w) && QueueFits(w) && w.queue != [] && v.queue == w.queue[1..]
    requires |v.rows| == |w.rows| && forall i | 0 <= i < |w.rows| && i != w.queue[0].id :: v.rows[i] == w.rows[i]
    requires w.queue[0].id < |w.rows| && v.rows[w.queue[0].id].key == w.rows[w.queue[0].id].key
    ensures QueueFits(v)
  {
    forall k | 0 <= k < |v.queue| ensures EntryFits(v.rows, v.queue[k]) {
      assert v.queue[k] == w.queue[k + 1] && EntryFits(w.rows, w.queue[k + 1]);
    }
  }

  /** A recovery that was mailed takes the mark 'sent'; no other resolved row becomes 'sent'. */
  lemma {:induction false} RecordKeepsLedger(w: World, now: Time, recorded: seq<Delivery>)
    requires BatchFits(w) && QueueFits(w) && LedgerFits(w.rows, recorded) && Enabled(w, Record(now))
    ensures LedgerFits(Act(w, Record(now), 0).rows, recorded + NewlyRecorded(w, Record(now)))
  {
    var head, v, all := w.queue[0], Act(w, Record(now), 0), recorded + NewlyRecorded(w, Record(now));
    assert EntryFits(w.rows, head) && IsDue(w.rows[head.id]);
    forall d | d in all && Recovery(d)
      ensures d.seen.id < |v.rows| && v.rows[d.seen.id] == MarkedRow(d.seen.alert, Sent, d.markedAt)
    {
      if d in recorded {
        assert d.seen.id != head.id;
      }
    }
    forall i | 0 <= i < |v.rows| && v.rows[i].state == Resolved && v.rows[i].notice == Sent
      ensures exists d :: d in all && d.seen.id == i && Recovery(d)
    {
      if i == head.id {
        assert Delivery(head, now) in all;
      } else {
        var d :| d in recorded && d.seen.id == i && Recovery(d);
        assert d in all;
      }
    }
  }

  lemma {:induction false} StepKeepsLedger(w: World, action: Action, cooldown: Time, recorded: seq<Delivery>)
    requires BatchFits(w) && QueueFits(w) && LedgerFits(w.rows, recorded) && Enabled(w, action)
    ensures QueueFits(Act(w, action, cooldown))
    ensures LedgerFits(Act(w, action, cooldown).rows, recorded + NewlyRecorded(w, action))
  {
    var v := Act(w, action, cooldown);
    assert action.Record? || recorded + NewlyRecorded(w, action) == recorded;
    match action
    case Table(step) => TableKeepsLedger(w, step, recorded);
    case Load => LoadKeepsLedger(w);
    case Record(now) =>
      RecordKeepsLedger(w, now, recorded);
      HeadLeavesQueue(w, v);
    case GiveUp => HeadLeavesQueue(w, v);
    case _ =>
  }

  lemma {:induction false} LedgerIsKept(start: Time, run: seq<Action>, cooldown: Time)
    requires Walk(start, run, cooldown).Some?
    ensures QueueFits(Walk(start, run, cooldown).value)
    ensures LedgerFits(Walk(start, run, cooldown).value.rows, Recorded(start, run, cooldown))
  {
    if run != [] {
      LedgerIsKept(start, Init(run), cooldown);
      WalkFits(start, Init(run), cooldown);
      StepKeepsLedger(Walk(start, Init(run), cooldown).value, Last(run), cooldown,
                      Recorded(start, Init(run), cooldown));
    }
  }

  // ----- the theorem -----

  /** A recovery of the same agent, rule, resource and severity was recorded since an instant. */
  predicate RecoveryRecorded(d: Delivery, a: Alert, since: Time) {
    && Recovery(d) && d.markedAt >= since && d.seen.alert.severity == a.severity
    && d.seen.alert.key.agent == a.key.agent && d.seen.alert.key.rule == a.key.rule
    && d.seen.alert.key.resource == a.key.resource
  }

  lemma {:induction false} NotifiedMeansRecovery(w: World, recorded: seq<Delivery>, i: nat, since: Time)
    requires BatchFits(w) && QueueFits(w) && LedgerFits(w.rows, recorded)
    requires w.queue != [] && w.queue[0].alert.state == Firing
    requires i < |w.rows| && i != w.queue[0].id && NotifiedAlike(w.rows[i], w.queue[0].alert, since)
    ensures exists d :: d in recorded && RecoveryRecorded(d, w.queue[0].alert, since)
  {
    var head := w.queue[0];
    assert EntryFits(w.rows, head);
    assert w.rows[i].key == head.alert.key;
    assert i < head.id && !w.rows[i].Active();
    var d :| d in recorded && d.seen.id == i && Recovery(d);
    assert RecoveryRecorded(d, head.alert, since);
  }

  lemma {:induction false} RecoveryMeansNotified(w: World, recorded: seq<Delivery>, d: Delivery, since: Time)
    requires BatchFits(w) && QueueFits(w) && LedgerFits(w.rows, recorded)
    requires w.queue != [] && d in recorded && RecoveryRecorded(d, w.queue[0].alert, since)
    ensures d.seen.id < |w.rows| && d.seen.id != w.queue[0].id
    ensures NotifiedAlike(w.rows[d.seen.id], w.queue[0].alert, since)
  {
    assert IsDue(w.rows[w.queue[0].id]);
  }

  ghost predicate RecoveryRecordedIn(recorded: seq<Delivery>, a: Alert, since: Time) {
    exists d :: d in recorded && RecoveryRecorded(d, a, since)
  }

  lemma {:induction false} NotifiedIffRecovery(w: World, recorded: seq<Delivery>, since: Time)
    requires BatchFits(w) && QueueFits(w) && LedgerFits(w.rows, recorded)
    requires w.queue != [] && w.queue[0].alert.state == Firing
    ensures AnotherNotified(w.rows, w.queue[0], since) <==> RecoveryRecordedIn(recorded, w.queue[0].alert, since)
  {
    var head := w.queue[0];
    if AnotherNotified(w.rows, head, since) {
      var i :| 0 <= i < |w.rows| && i != head.id && NotifiedAlike(w.rows[i], head.alert, since);
      NotifiedMeansRecovery(w, recorded, i, since);
    }
    if RecoveryRecordedIn(recorded, head.alert, since) {
      var d :| d in recorded && RecoveryRecorded(d, head.alert, since);
      RecoveryMeansNotified(w, recorded, d, since);
    }
  }

  /**
   An alert the settings let through is held back if and only if it is firing, there is a cooldown, and a
   recovery of this very agent, rule, resource and severity was recorded within it; mails about anything else,
   and firing mails, never hold it back.
   */
  lemma HeldBackIffItsRecoveryWasRecorded(
      start: Time, run: seq<Action>, cooldown: Time, smtp: bool, prefs: Preferences, now: Time)
    requires Walk(start, run, cooldown).Some?
    requires var w := Walk(start, run, cooldown).value;
             Enabled(w, Choose(smtp, prefs, now)) && LetThrough(w.queue[0].alert, smtp, prefs)
    ensures var w := Walk(start, run, cooldown).value;
            var a := w.queue[0].alert;
            Act(w, Choose(smtp, prefs, now), cooldown).phase ==
            if a.state == Firing && cooldown > 0
               && RecoveryRecordedIn(Recorded(start, run, cooldown), a, now - cooldown)
            then Suppressing else Mailing
  {
    var w, recorded := Walk(start, run, cooldown).value, Recorded(start, run, cooldown);
    WalkFits(start, run, cooldown);
    LedgerIsKept(start, run, cooldown);
    MailedIffLetThroughAndNotHeld(w, smtp, prefs, now, cooldown);
    if w.queue[0].alert.state == Firing {
      NotifiedIffRecovery(w, recorded, now - cooldown);
    }
  }

  // ----- every record is of a mail -----

  ghost predicate MailsFit(w: World, recorded: seq<Delivery>) {
    && (w.phase == Recording ==>
          w.queue != [] && w.mails != [] && Last(w.mails).seen == w.queue[0] && Last(w.mails).at <= w.clock)
    && (forall d | d in recorded :: exists m :: m in w.mails && m.seen == d.seen && m.at <= d.markedAt)
  }

  lemma {:induction false} StepKeepsMails(w: World, action: Action, cooldown: Time, recorded: seq<Delivery>)
    requires BatchFits(w) && MailsFit(w, recorded) && Enabled(w, action)
    ensures MailsFit(Act(w, action, cooldown), recorded + NewlyRecorded(w, action))
  {
    var v, all := Act(w, action, cooldown), recorded + NewlyRecorded(w, action);
    forall d | d in all ensures exists m :: m in v.mails && m.seen == d.seen && m.at <= d.markedAt {
      if d in recorded {
        var m :| m in w.mails && m.seen == d.seen && m.at <= d.markedAt;
        assert m in v.mails;
      } else {
        assert Last(w.mails) in v.mails;
      }
    }
  }

  /** What is recorded was mailed before. */
  lemma {:induction false} RecordedWasMailed(start: Time, run: seq<Action>, cooldown: Time)
    requires Walk(start, run, cooldown).Some?
    ensures MailsFit(Walk(start, run, cooldown).value, Recorded(start, run, cooldown))
  {
    if run != [] {
      RecordedWasMailed(start, Init(run), cooldown);
      WalkFits(start, Init(run), cooldown);
      StepKeepsMails(Walk(start, Init(run), cooldown).value, Last(run), cooldown, Recorded(start, Init(run), cooldown));
    }
  }
}
