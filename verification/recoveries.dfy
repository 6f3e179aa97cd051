/**
 An alert whose recovery is suppressed is never mailed again: over every run of the worker and the
 table, whatever the settings and whichever mails and marks fail.
 */
module Recoveries {
  import opened Prelude
  import opened Alerts
  import opened AlertRuns
  import opened Notifier

  /** The worlds of a run, from an empty table. */
  function Walk(start: Time, run: seq<Action>, cooldown: Time): Option<World> {
    if run == [] then Some(World([], [], Choosing, [], start))
    else
      var before := Walk(start, Init(run), cooldown);
      if before.Some? && Enabled(before.value, Last(run)) then Some(Act(before.value, Last(run), cooldown)) else None
  }

  /** The rest of the batch is in id order, and every row in it is still due. */
  ghost predicate BatchFits(w: World) {
    && WellFormed(w.rows)
    && (w.queue == [] ==> w.phase == Choosing)
    && (forall k | 0 <= k < |w.queue| :: w.queue[k].id < |w.rows| && IsDue(w.rows[w.queue[k].id]))
    && (forall j, k | 0 <= j < k < |w.queue| :: w.queue[j].id < w.queue[k].id)
  }

  lemma DueStaysDue(rows: seq<Alert>, step: Step, id: nat)
    requires id < |rows| && IsDue(rows[id]) && (step.Mark? ==> step.seen.id != id)
    ensures id < |StepRows(rows, step)| && IsDue(StepRows(rows, step)[id])
  {
  }

  lemma TableKeepsBatch(w: World, step: Step)
    requires BatchFits(w) && !step.Mark?
    ensures BatchFits(w.(rows := StepRows(w.rows, step)))
  {
    StepKeepsWellFormed(w.rows, step);
    forall k | 0 <= k < |w.queue|
      ensures w.queue[k].id < |StepRows(w.rows, step)| && IsDue(StepRows(w.rows, step)[w.queue[k].id])
    {
      DueStaysDue(w.rows, step, w.queue[k].id);
    }
  }

  /** The head leaves the batch; its row may have been marked. */
  lemma HeadLeaves(w: World, v: World, mark: Step)
    requires BatchFits(w) && w.queue != [] && mark.Mark? && mark.seen == w.queue[0]
    requires v.rows == w.rows || v.rows == StepRows(w.rows, mark)
    requires v.queue == w.queue[1..] && v.phase == Choosing
    ensures BatchFits(v)
  {
    StepKeepsWellFormed(w.rows, mark);
    forall k | 0 <= k < |v.queue| ensures v.queue[k].id < |v.rows| && IsDue(v.rows[v.queue[k].id]) {
      assert v.queue[k] == w.queue[k + 1];
      DueStaysDue(w.rows, mark, v.queue[k].id);
    }
    assert forall k | 0 <= k < |v.queue| :: v.queue[k] == w.queue[k + 1];
  }

  lemma LoadFillsBatch(w: World)
    requires BatchFits(w) && w.phase == Choosing
    ensures BatchFits(w.(queue := DueRows(w.rows, BATCH)))
  {
    var due := DueRows(w.rows, BATCH);
    DueRowsAreTheFirstDue(w.rows, BATCH);
    forall k | 0 <= k < |due| ensures due[k].id < |w.rows| && IsDue(w.rows[due[k].id]) {
      assert due[k].alert == w.rows[due[k].id];
    }
  }

  lemma StepKeepsBatch(w: World, action: Action, cooldown: Time)
    requires BatchFits(w) && Enabled(w, action)
    ensures BatchFits(Act(w, action, cooldown))
  {
    var v := Act(w, action, cooldown);
    match action
    case Table(step) => TableKeepsBatch(w, step);
    case Load => LoadFillsBatch(w);
    case Record(now) =>
      HeadLeaves(w, v, Mark(w.queue[0], if w.phase == Recording then Sent else Suppressed, now));
    case GiveUp => HeadLeaves(w, v, Mark(w.queue[0], Sent, 0));
    case _ =>
  }

  lemma {:induction false} WalkFits(start: Time, run: seq<Action>, cooldown: Time)
    requires Walk(start, run, cooldown).Some?
    ensures BatchFits(Walk(start, run, cooldown).value)
  {
    if run != [] {
      WalkFits(start, Init(run), cooldown);
      StepKeepsBatch(Walk(start, Init(run), cooldown).value, Last(run), cooldown);
    }
  }

  /** Resolved, and its recovery sent, suppressed or never announced. */
  predicate Settled(w: World, id: nat) {
    id < |w.rows| && w.rows[id].state == Resolved && w.rows[id].notice != Due
  }

  /** One step keeps a settled row, and mails nothing about it. */
  lemma StepSparesSettled(w: World, action: Action, cooldown: Time, id: nat)
    requires BatchFits(w) && Enabled(w, action) && Settled(w, id)
    ensures var v := Act(w, action, cooldown);
            && id < |v.rows| && v.rows[id] == w.rows[id]
            && (v.mails == w.mails || exists m: Mail :: m.seen.id != id && v.mails == w.mails + [m])
  {
    match action
    case Table(step) => StepFollows(w.rows, step, id);
    case Record(now) =>
      StepFollows(w.rows, Mark(w.queue[0], if w.phase == Recording then Sent else Suppressed, now), id);
    case Deliver(now) => assert w.queue[0].id != id;
    case _ =>
  }

  lemma {:induction false} SettledIsNeverMailed(
      start: Time, before: seq<Action>, after: seq<Action>, cooldown: Time, id: nat)
    requires Walk(start, before + after, cooldown).Some?
    ensures Walk(start, before, cooldown).Some?
    ensures var w, v := Walk(start, before, cooldown).value, Walk(start, before + after, cooldown).value;
            Settled(w, id) ==>
              && id < |v.rows| && v.rows[id] == w.rows[id] && |w.mails| <= |v.mails|
              && forall i | |w.mails| <= i < |v.mails| :: v.mails[i].seen.id != id
    decreases |after|
  {
    if after == [] {
      assert before + after == before;
    } else {
      assert Init(before + after) == before + Init(after);
      SettledIsNeverMailed(start, before, Init(after), cooldown, id);
      WalkFits(start, before + Init(after), cooldown);
      var u := Walk(start, before + Init(after), cooldown).value;
      if Settled(Walk(start, before, cooldown).value, id) {
        StepSparesSettled(u, Last(after), cooldown, id);
      }
    }
  }

  /** An alert that is marked suppressed when it resolves gets no recovery mail, nor any other. */
  lemma SuppressedAtResolutionIsNeverMailed(
      start: Time, before: seq<Action>, ev: Evaluation, now: Time, after: seq<Action>, cooldown: Time, id: nat)
    requires Walk(start, before + [Table(Evaluate(ev, now))] + after, cooldown).Some?
    requires Walk(start, before, cooldown).Some?
    requires var rows := Walk(start, before, cooldown).value.rows;
             ActiveIndex(rows, ev.key) == Some(id) && !ev.violated
             && rows[id].state == Firing && rows[id].notice == Suppressed
    ensures var v := Walk(start, before + [Table(Evaluate(ev, now))] + after, cooldown).value;
            forall i | |Walk(start, before, cooldown).value.mails| <= i < |v.mails| :: v.mails[i].seen.id != id
  {
    var closing := before + [Table(Evaluate(ev, now))];
    assert Init(closing) == before;
    SettledIsNeverMailed(start, closing, after, cooldown, id);
  }
}
