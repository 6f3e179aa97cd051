/**
 The cooldown over whole runs: two firing mails for one agent, rule and resource are more than
 the cooldown apart, however rule steps and acknowledgements interleave with the worker.
 */
module Cooldown {
  import opened Prelude
  import opened Alerts
  import opened AlertRuns
  import opened Notifier

  /** The key under watch, its one severity, and the configured cooldown. */
  datatype Watch = Watch(key: Key, severity: Severity, cooldown: Time)

  function Begin(start: Time): World {
    World([], [], Choosing, [], start)
  }

  /**
   Enabled, and for the watched key: evaluations keep one severity; its recoveries are not filtered out, and
   nothing fails about them; and a firing mail that left is marked. A firing alert's cooldown query, mail and
   suppression may fail: it stays due and is tried again.
   */
  predicate Permitted(w: World, action: Action, watch: Watch) {
    && Enabled(w, action)
    && (action.Table? && action.step.Evaluate? && action.step.ev.key == watch.key ==>
          action.step.ev.severity == watch.severity)
    && (w.queue != [] && w.queue[0].alert.key == watch.key ==>
          && (action.GiveUp? ==> w.queue[0].alert.state == Firing && w.phase != Recording)
          && (action.Choose? && w.queue[0].alert.state == Resolved ==>
                !Filtered(w.queue[0].alert, action.smtp, action.prefs)))
  }

  /** The worlds of a run, from an empty table. */
  function Reach(start: Time, run: seq<Action>, watch: Watch): Option<World> {
    if run == [] then Some(Begin(start))
    else
      var before := Reach(start, Init(run), watch);
      if before.Some? && Permitted(before.value, Last(run), watch) then
        Some(Act(before.value, Last(run), watch.cooldown))
      else None
  }

  predicate FiringMail(m: Mail, watch: Watch) {
    m.seen.alert.key == watch.key && m.seen.alert.state == Firing
  }

  predicate FiringEntry(s: Snapshot, watch: Watch) {
    s.alert.key == watch.key && s.alert.state == Firing
  }

  // ----- the invariant -----

  ghost predicate RowsFit(w: World, watch: Watch) {
    && WellFormed(w.rows)
    && forall i | 0 <= i < |w.rows| && w.rows[i].key == watch.key :: w.rows[i].severity == watch.severity
  }

  /** Queue entries are in id order and still due; a resolved one is exactly as it was seen. */
  ghost predicate QueueFits(w: World, watch: Watch) {
    && (w.queue == [] ==> w.phase == Choosing)
    && (forall k | 0 <= k < |w.queue| ::
          && w.queue[k].id < |w.rows|
          && w.rows[w.queue[k].id].key == w.queue[k].alert.key
          && IsDue(w.queue[k].alert) && IsDue(w.rows[w.queue[k].id])
          && (w.queue[k].alert.key == watch.key ==> w.queue[k].alert.severity == watch.severity)
          && (w.queue[k].alert.state == Resolved ==> w.rows[w.queue[k].id] == w.queue[k].alert))
    && (forall j, k | 0 <= j < k < |w.queue| :: w.queue[j].id < w.queue[k].id)
    && (forall j, k | 0 <= j < k < |w.queue| && FiringEntry(w.queue[j], watch) :: !FiringEntry(w.queue[k], watch))
    && (w.phase == Suppressing && w.queue[0].alert.key == watch.key ==> w.queue[0].alert.state == Firing)
  }

  /** The row remembers a notification at least as late as this mail. */
  predicate Remembered(w: World, m: Mail) {
    && m.seen.id < |w.rows|
    && w.rows[m.seen.id].notice == Sent
    && w.rows[m.seen.id].lastNotifiedAt.Some?
    && m.at <= w.rows[m.seen.id].lastNotifiedAt.value <= w.clock
  }

  /** The alert resolved before the mail could be marked; its recovery is still to be mailed. */
  predicate AwaitsRecovery(w: World, m: Mail) {
    m.seen.id < |w.rows| && w.rows[m.seen.id].state == Resolved && w.rows[m.seen.id].notice == Due
  }

  /** This very mail has left and is about to be marked. */
  predicate JustMailed(w: World, m: Mail) {
    w.phase == Recording && w.queue != [] && w.queue[0] == m.seen
  }

  ghost predicate MailsFit(w: World, watch: Watch) {
    forall i | 0 <= i < |w.mails| && FiringMail(w.mails[i], watch) ::
      && w.mails[i].at <= w.clock
      && w.mails[i].seen.id < |w.rows| && w.rows[w.mails[i].seen.id].key == watch.key
      && (Remembered(w, w.mails[i]) || AwaitsRecovery(w, w.mails[i]) || JustMailed(w, w.mails[i]))
  }

  /** The recovery of `id` is ahead of entry k in this pass. */
  predicate RecoveryAhead(w: World, id: nat, k: nat)
    requires k <= |w.queue|
  {
    exists j | 0 <= j < k :: w.queue[j].id == id && w.queue[j].alert.state == Resolved
  }

  /**
   Before a firing alert of the key is decided on, every earlier firing mail of the key belongs to
   another, resolved row, which either remembers it or is re-marked earlier in this pass.
   */
  ghost predicate PassFits(w: World, watch: Watch) {
    forall k, i | 0 <= k < |w.queue| && FiringEntry(w.queue[k], watch)
                  && 0 <= i < |w.mails| && FiringMail(w.mails[i], watch) ::
      if w.mails[i].seen.id == w.queue[k].id then k == 0 && w.phase == Recording
      else
        && w.mails[i].seen.id < |w.rows| && w.rows[w.mails[i].seen.id].state == Resolved
        && (Remembered(w, w.mails[i]) || RecoveryAhead(w, w.mails[i].seen.id, k))
  }

  ghost predicate ClearedFits(w: World, watch: Watch) {
    w.phase == Mailing && w.queue != [] && FiringEntry(w.queue[0], watch) ==>
      forall i | 0 <= i < |w.mails| && FiringMail(w.mails[i], watch) ::
        w.clock - w.mails[i].at > watch.cooldown
  }

  ghost predicate Spaced(mails: seq<Mail>, watch: Watch) {
    forall i, j | 0 <= i < j < |mails| && FiringMail(mails[i], watch) && FiringMail(mails[j], watch) ::
      mails[j].at - mails[i].at > watch.cooldown
  }

  ghost predicate Inv(w: World, watch: Watch) {
    && RowsFit(w, watch) && QueueFits(w, watch) && MailsFit(w, watch)
    && PassFits(w, watch) && ClearedFits(w, watch) && Spaced(w.mails, watch)
  }

  // ----- each action keeps it -----

  /** A rule step or an acknowledgement can only turn a sent alert into a due recovery. */
  predicate KeepsMemory(a: Alert, b: Alert) {
    a.notice == Sent ==>
      (b.notice == Sent && b.lastNotifiedAt == a.lastNotifiedAt) || (b.state == Resolved && b.notice == Due)
  }

  lemma TableMovesRows(rows: seq<Alert>, step: Step, watch: Watch, id: nat)
    requires WellFormed(rows) && !step.Mark? && id < |rows|
    ensures id < |StepRows(rows, step)| && StepRows(rows, step)[id].key == rows[id].key
    ensures IsDue(rows[id]) ==> IsDue(StepRows(rows, step)[id])
    ensures rows[id].state == Resolved ==> StepRows(rows, step)[id] == rows[id]
    ensures rows[id].key == watch.key && rows[id].severity == watch.severity
            && (step.Evaluate? && step.ev.key == watch.key ==> step.ev.severity == watch.severity) ==>
              KeepsMemory(rows[id], StepRows(rows, step)[id])
  {
  }

  lemma TableKeepsQueue(w: World, action: Action, watch: Watch)
    requires Inv(w, watch) && Permitted(w, action, watch) && action.Table?
    ensures RowsFit(Act(w, action, watch.cooldown), watch)
    ensures QueueFits(Act(w, action, watch.cooldown), watch)
  {
    StepKeepsWellFormed(w.rows, action.step);
    forall id | 0 <= id < |w.rows|
      ensures id < |StepRows(w.rows, action.step)|
      ensures var b := StepRows(w.rows, action.step)[id];
              && b.key == w.rows[id].key && (IsDue(w.rows[id]) ==> IsDue(b))
              && (w.rows[id].state == Resolved ==> b == w.rows[id])
    {
      TableMovesRows(w.rows, action.step, watch, id);
    }
  }

  lemma TableKeepsMails(w: World, action: Action, watch: Watch)
    requires Inv(w, watch) && Permitted(w, action, watch) && action.Table?
    ensures MailsFit(Act(w, action, watch.cooldown), watch)
    ensures PassFits(Act(w, action, watch.cooldown), watch)
  {
    var after := Act(w, action, watch.cooldown);
    forall i | 0 <= i < |w.mails| && FiringMail(w.mails[i], watch)
      ensures var m := w.mails[i];
              && m.seen.id < |after.rows| && after.rows[m.seen.id].key == watch.key
              && (Remembered(w, m) ==> Remembered(after, m) || AwaitsRecovery(after, m))
              && (AwaitsRecovery(w, m) ==> AwaitsRecovery(after, m))
              && (w.rows[m.seen.id].state == Resolved ==> after.rows[m.seen.id] == w.rows[m.seen.id])
    {
      TableMovesRows(w.rows, action.step, watch, w.mails[i].seen.id);
    }
    assert forall k, id: nat | 0 <= k <= |w.queue| :: RecoveryAhead(after, id, k) == RecoveryAhead(w, id, k);
  }

  lemma TableKeepsInv(w: World, action: Action, watch: Watch)
    requires Inv(w, watch) && Permitted(w, action, watch) && action.Table?
    ensures Inv(Act(w, action, watch.cooldown), watch)
  {
    TableKeepsQueue(w, action, watch);
    TableKeepsMails(w, action, watch);
  }

  lemma LoadFillsQueue(w: World, v: World, watch: Watch)
    requires RowsFit(w, watch) && w.phase == Choosing && v == w.(queue := DueRows(w.rows, BATCH))
    ensures QueueFits(v, watch)
    ensures forall k | 0 <= k < |v.queue| :: v.queue[k].id < |v.rows| && v.queue[k].alert == v.rows[v.queue[k].id]
  {
    DueRowsAreTheFirstDue(w.rows, BATCH);
  }

  /** A mail whose alert awaits its recovery: the recovery is loaded before any later firing alert of the key. */
  lemma LoadPutsRecoveryAhead(w: World, v: World, watch: Watch, k: nat, m: Mail)
    requires RowsFit(w, watch) && v == w.(queue := DueRows(w.rows, BATCH))
    requires k < |v.queue| && FiringEntry(v.queue[k], watch) && v.queue[k].id < |w.rows|
    requires v.queue[k].alert == w.rows[v.queue[k].id]
    requires m.seen.id < |w.rows| && w.rows[m.seen.id].key == watch.key && AwaitsRecovery(w, m)
    ensures RecoveryAhead(v, m.seen.id, k)
  {
    DueRowsAreTheFirstDue(w.rows, BATCH);
    var id := m.seen.id;
    var recovery := Snapshot(id, w.rows[id]);
    assert recovery in v.queue;
    var j :| 0 <= j < |v.queue| && v.queue[j] == recovery;
    assert id < v.queue[k].id;
  }

  lemma LoadKeepsInv(w: World, action: Action, watch: Watch)
    requires Inv(w, watch) && Permitted(w, action, watch) && action.Load?
    ensures Inv(Act(w, action, watch.cooldown), watch)
  {
    var v := Act(w, action, watch.cooldown);
    LoadFillsQueue(w, v, watch);
    forall k, i | 0 <= k < |v.queue| && FiringEntry(v.queue[k], watch)
                  && 0 <= i < |w.mails| && FiringMail(w.mails[i], watch)
      ensures w.mails[i].seen.id != v.queue[k].id
      ensures w.rows[w.mails[i].seen.id].state == Resolved
      ensures Remembered(w, w.mails[i]) || RecoveryAhead(v, w.mails[i].seen.id, k)
    {
      if !Remembered(w, w.mails[i]) {
        LoadPutsRecoveryAhead(w, v, watch, k, w.mails[i]);
      }
    }
  }

  lemma ChooseKeepsInv(w: World, action: Action, watch: Watch)
    requires Inv(w, watch) && Permitted(w, action, watch) && action.Choose?
    requires watch.cooldown > 0
    ensures Inv(Act(w, action, watch.cooldown), watch)
  {
    var after := Act(w, action, watch.cooldown);
    if after.phase == Mailing && FiringEntry(w.queue[0], watch) {
      forall i | 0 <= i < |w.mails| && FiringMail(w.mails[i], watch)
        ensures after.clock - w.mails[i].at > watch.cooldown
      {
        var id := w.mails[i].seen.id;
        assert Remembered(w, w.mails[i]);
        assert !CountsForCooldown(w.rows[id], watch.key, watch.severity, action.now - watch.cooldown);
      }
    }
  }

  ghost predicate Mailed(w: World, v: World, now: Time) {
    && w.queue != [] && w.phase == Mailing && now >= w.clock
    && v == w.(phase := Recording, mails := w.mails + [Mail(w.queue[0], now)], clock := now)
  }

  lemma DeliverKeepsMails(w: World, v: World, watch: Watch, now: Time)
    requires Inv(w, watch) && Mailed(w, v, now)
    ensures MailsFit(v, watch)
  {
    forall i | 0 <= i < |w.mails| && FiringMail(w.mails[i], watch)
      ensures Remembered(v, w.mails[i]) || AwaitsRecovery(v, w.mails[i])
    {
      assert !JustMailed(w, w.mails[i]);
    }
    assert FiringMail(Last(v.mails), watch) ==> JustMailed(v, Last(v.mails));
  }

  lemma DeliverKeepsPass(w: World, v: World, watch: Watch, now: Time)
    requires QueueFits(w, watch) && PassFits(w, watch) && Mailed(w, v, now)
    ensures PassFits(v, watch)
  {
    forall k, i | 0 <= k < |v.queue| && FiringEntry(v.queue[k], watch)
                  && 0 <= i < |v.mails| && FiringMail(v.mails[i], watch)
      ensures if v.mails[i].seen.id == v.queue[k].id then k == 0 && v.phase == Recording
              else
                && v.mails[i].seen.id < |v.rows| && v.rows[v.mails[i].seen.id].state == Resolved
                && (Remembered(v, v.mails[i]) || RecoveryAhead(v, v.mails[i].seen.id, k))
    {
      if i < |w.mails| {
        assert RecoveryAhead(v, v.mails[i].seen.id, k) == RecoveryAhead(w, v.mails[i].seen.id, k);
      }
    }
  }

  lemma DeliverKeepsSpacing(w: World, v: World, watch: Watch, now: Time)
    requires ClearedFits(w, watch) && Spaced(w.mails, watch) && Mailed(w, v, now)
    ensures Spaced(v.mails, watch)
  {
  }

  lemma DeliverKeepsInv(w: World, action: Action, watch: Watch)
    requires Inv(w, watch) && Permitted(w, action, watch) && action.Deliver?
    ensures Inv(Act(w, action, watch.cooldown), watch)
  {
    var v := Act(w, action, watch.cooldown);
    DeliverKeepsMails(w, v, watch, action.now);
    DeliverKeepsPass(w, v, watch, action.now);
    DeliverKeepsSpacing(w, v, watch, action.now);
  }

  /** Recording changes the row at the head of the queue and no other; a head still as seen takes the mark. */
  lemma RecordKeepsQueue(w: World, action: Action, watch: Watch)
    requires Inv(w, watch) && Permitted(w, action, watch) && action.Record?
    ensures RowsFit(Act(w, action, watch.cooldown), watch)
    ensures QueueFits(Act(w, action, watch.cooldown), watch)
  {
    StepKeepsWellFormed(w.rows, Mark(w.queue[0], if w.phase == Recording then Sent else Suppressed, action.now));
  }

  lemma RecordKeepsMail(w: World, action: Action, watch: Watch, m: Mail)
    requires Inv(w, watch) && Permitted(w, action, watch) && action.Record?
    requires m in w.mails && FiringMail(m, watch)
    ensures var after := Act(w, action, watch.cooldown);
            && (Remembered(w, m) ==> Remembered(after, m))
            && (Remembered(after, m) || AwaitsRecovery(after, m))
            && m.seen.id < |w.rows|
            && (w.rows[m.seen.id].state == Resolved ==> after.rows[m.seen.id].state == Resolved)
            && (m.seen.id == w.queue[0].id && w.queue[0].alert.state == Resolved ==> Remembered(after, m))
  {
    var i :| 0 <= i < |w.mails| && w.mails[i] == m;
    if m.seen.id == w.queue[0].id && FiringEntry(w.queue[0], watch) {
      assert w.phase == Recording;
    }
  }

  /** Recording takes the head off the queue; a recovery at the head is remembered from then on. */
  lemma RecordKeepsPass(w: World, v: World, watch: Watch)
    requires QueueFits(w, watch) && PassFits(w, watch) && w.queue != []
    requires v.queue == w.queue[1..] && v.mails == w.mails && v.phase == Choosing && |v.rows| == |w.rows|
    requires forall m | m in w.mails && FiringMail(m, watch) && m.seen.id < |w.rows| ::
               && (Remembered(w, m) ==> Remembered(v, m))
               && (w.rows[m.seen.id].state == Resolved ==> v.rows[m.seen.id].state == Resolved)
               && (m.seen.id == w.queue[0].id && w.queue[0].alert.state == Resolved ==> Remembered(v, m))
    ensures PassFits(v, watch)
  {
    forall k, i | 0 <= k < |v.queue| && FiringEntry(v.queue[k], watch)
                  && 0 <= i < |w.mails| && FiringMail(w.mails[i], watch)
      ensures w.mails[i].seen.id != v.queue[k].id
      ensures w.mails[i].seen.id < |v.rows| && v.rows[w.mails[i].seen.id].state == Resolved
      ensures Remembered(v, w.mails[i]) || RecoveryAhead(v, w.mails[i].seen.id, k)
    {
      assert v.queue[k] == w.queue[k + 1] && w.mails[i] in w.mails;
      if !Remembered(v, w.mails[i]) {
        var j :| 0 <= j < k + 1 && w.queue[j].id == w.mails[i].seen.id && w.queue[j].alert.state == Resolved;
        assert j != 0 && v.queue[j - 1] == w.queue[j];
      }
    }
  }

  lemma RecordKeepsInv(w: World, action: Action, watch: Watch)
    requires Inv(w, watch) && Permitted(w, action, watch) && action.Record?
    ensures Inv(Act(w, action, watch.cooldown), watch)
  {
    var after := Act(w, action, watch.cooldown);
    RecordKeepsQueue(w, action, watch);
    forall m | m in w.mails && FiringMail(m, watch)
      ensures m.seen.id < |w.rows| && (Remembered(w, m) ==> Remembered(after, m))
      ensures Remembered(after, m) || AwaitsRecovery(after, m)
      ensures w.rows[m.seen.id].state == Resolved ==> after.rows[m.seen.id].state == Resolved
      ensures m.seen.id == w.queue[0].id && w.queue[0].alert.state == Resolved ==> Remembered(after, m)
    {
      RecordKeepsMail(w, action, watch, m);
    }
    RecordKeepsPass(w, after, watch);
    assert forall i | 0 <= i < |w.mails| :: w.mails[i] in w.mails;
  }

  /** The head given up is of another key, or a firing alert that was not mailed. */
  predicate Skippable(w: World, watch: Watch) {
    w.queue != []
    && (w.queue[0].alert.key == watch.key ==> w.queue[0].alert.state == Firing && w.phase != Recording)
  }

  lemma GiveUpKeepsPass(w: World, v: World, watch: Watch)
    requires QueueFits(w, watch) && PassFits(w, watch) && MailsFit(w, watch)
    requires Skippable(w, watch) && v == w.(queue := w.queue[1..], phase := Choosing)
    ensures PassFits(v, watch)
  {
    forall k, i | 0 <= k < |v.queue| && FiringEntry(v.queue[k], watch)
                  && 0 <= i < |w.mails| && FiringMail(w.mails[i], watch)
      ensures w.mails[i].seen.id != v.queue[k].id
      ensures w.mails[i].seen.id < |w.rows| && w.rows[w.mails[i].seen.id].state == Resolved
      ensures Remembered(v, w.mails[i]) || RecoveryAhead(v, w.mails[i].seen.id, k)
    {
      assert v.queue[k] == w.queue[k + 1];
      if !Remembered(w, w.mails[i]) {
        var j :| 0 <= j < k + 1 && w.queue[j].id == w.mails[i].seen.id && w.queue[j].alert.state == Resolved;
        assert v.queue[j - 1] == w.queue[j];
      }
    }
  }

  lemma GiveUpKeepsMails(w: World, v: World, watch: Watch)
    requires QueueFits(w, watch) && MailsFit(w, watch)
    requires Skippable(w, watch) && v == w.(queue := w.queue[1..], phase := Choosing)
    ensures QueueFits(v, watch) && MailsFit(v, watch)
  {
    assert forall k | 0 <= k < |v.queue| :: v.queue[k] == w.queue[k + 1];
    forall i | 0 <= i < |w.mails| && FiringMail(w.mails[i], watch)
      ensures Remembered(v, w.mails[i]) || AwaitsRecovery(v, w.mails[i])
    {
      assert !JustMailed(w, w.mails[i]);
    }
  }

  lemma GiveUpKeepsInv(w: World, action: Action, watch: Watch)
    requires Inv(w, watch) && Permitted(w, action, watch) && action.GiveUp?
    ensures Inv(Act(w, action, watch.cooldown), watch)
  {
    var v := Act(w, action, watch.cooldown);
    GiveUpKeepsMails(w, v, watch);
    GiveUpKeepsPass(w, v, watch);
  }

  lemma EndPassKeepsInv(w: World, action: Action, watch: Watch)
    requires Inv(w, watch) && Permitted(w, action, watch) && action.EndPass?
    ensures Inv(Act(w, action, watch.cooldown), watch)
  {
  }

  lemma {:induction false} ReachableFits(start: Time, run: seq<Action>, watch: Watch)
    requires watch.cooldown > 0 && Reach(start, run, watch).Some?
    ensures Inv(Reach(start, run, watch).value, watch)
  {
    if run != [] {
      ReachableFits(start, Init(run), watch);
      var w, action := Reach(start, Init(run), watch).value, Last(run);
      match action
      case Table(_) => TableKeepsInv(w, action, watch);
      case Load => LoadKeepsInv(w, action, watch);
      case Choose(_, _, _) => ChooseKeepsInv(w, action, watch);
      case Deliver(_) => DeliverKeepsInv(w, action, watch);
      case Record(_) => RecordKeepsInv(w, action, watch);
      case GiveUp => GiveUpKeepsInv(w, action, watch);
      case EndPass => EndPassKeepsInv(w, action, watch);
    }
  }

  /**
   Cooldown over whole runs. In every permitted run, any two firing mails of the watched key are
   more than the cooldown apart, even when an alert resolves while its mail is being sent.
   */
  lemma {:induction false} FiringMailsAreSpaced(start: Time, run: seq<Action>, watch: Watch, i: nat, j: nat)
    requires watch.cooldown > 0 && Reach(start, run, watch).Some?
    requires i < j < |Reach(start, run, watch).value.mails|
    requires FiringMail(Reach(start, run, watch).value.mails[i], watch)
    requires FiringMail(Reach(start, run, watch).value.mails[j], watch)
    ensures Reach(start, run, watch).value.mails[j].at - Reach(start, run, watch).value.mails[i].at > watch.cooldown
  {
    ReachableFits(start, run, watch);
  }
}
