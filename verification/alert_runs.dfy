/**
 Runs of the alerts table: rule evaluations, acknowledgements and delivery marks in any
 interleaving, and what every such run keeps.
 */
module AlertRuns {
  import opened Prelude
  import opened Alerts

  datatype Step =
    | Evaluate(ev: Evaluation, now: Time)
    | Acknowledge(id: nat, actor: string, now: Time)
    | Mark(seen: Snapshot, notice: Notice, now: Time)

  function StepRows(rows: seq<Alert>, step: Step): seq<Alert> {
    match step
    case Evaluate(ev, now) => Applied(rows, ev, now)
    case Acknowledge(id, actor, now) => Acknowledged(rows, id, actor, now)
    case Mark(seen, notice, now) => Marked(rows, seen, notice, now)
  }

  function StepAudit(rows: seq<Alert>, step: Step): seq<AuditEntry> {
    match step
    case Evaluate(ev, now) => AuditOf(rows, ev, now)
    case Acknowledge(id, actor, _) => if CanAcknowledge(rows, id) then [AckEntry(actor, id)] else []
    case Mark(_, _, _) => []
  }

  /** The rows a run leaves behind, from an empty table. */
  function Replay(run: seq<Step>): seq<Alert> {
    if run == [] then [] else StepRows(Replay(Init(run)), Last(run))
  }

  /** The audit log a run leaves behind. */
  function AuditTrail(run: seq<Step>): seq<AuditEntry> {
    if run == [] then [] else AuditTrail(Init(run)) + StepAudit(Replay(Init(run)), Last(run))
  }

  // ----- what one step may do to one row -----

  /** The row the step evaluates, if it evaluates one. */
  function Touched(rows: seq<Alert>, step: Step): Option<nat> {
    if step.Evaluate? then ActiveIndex(rows, step.ev.key) else None
  }

  predicate EscalatesRow(rows: seq<Alert>, step: Step, id: nat) {
    && step.Evaluate? && Touched(rows, step) == Some(id) && step.ev.violated
    && id < |rows| && Escalates(rows[id], step.ev)
  }

  /** The step writes 'sent' into the row. */
  predicate MarksSent(rows: seq<Alert>, step: Step, id: nat) {
    step.Mark? && step.notice == Sent && step.seen.id == id && Awaits(rows, step.seen)
  }

  // ----- the shape of the table -----

  /** NULL columns agree with the state, and notification_state is 'none' exactly while firing_at is NULL. */
  predicate Coherent(a: Alert) {
    && (a.notice == NoNotice <==> a.firingAt == None)
    && (a.state == Pending ==> a.firingAt == None)
    && (a.state == Firing ==> a.firingAt.Some?)
    && (a.state == Resolved <==> a.resolvedAt.Some?)
    && (a.notice == Sent ==> a.lastNotifiedAt.Some?)
    && a.violations >= 1
  }

  /** Only the newest row of a key may be active; so at most one is. */
  ghost predicate OnlyNewestActive(rows: seq<Alert>) {
    forall i, j | 0 <= i < j < |rows| && rows[i].key == rows[j].key :: !rows[i].Active()
  }

  ghost predicate WellFormed(rows: seq<Alert>) {
    && OnlyNewestActive(rows)
    && forall i | 0 <= i < |rows| :: Coherent(rows[i])
  }

  lemma ActiveIndexIsTheActiveRow(rows: seq<Alert>, id: nat)
    requires OnlyNewestActive(rows)
    requires id < |rows| && rows[id].Active()
    ensures ActiveIndex(rows, rows[id].key) == Some(id)
  {
    var found := ActiveIndex(rows, rows[id].key);
    assert IsActiveFor(rows[id], rows[id].key);
  }

  // ----- which row of a key is active after a step -----

  lemma {:induction false} SameActive(rows: seq<Alert>, after: seq<Alert>, key: Key)
    requires |rows| <= |after|
    requires forall i | 0 <= i < |rows| :: IsActiveFor(after[i], key) == IsActiveFor(rows[i], key)
    requires forall i | |rows| <= i < |after| :: !IsActiveFor(after[i], key)
    ensures ActiveIndex(after, key) == ActiveIndex(rows, key)
    decreases |after|
  {
    if |after| > |rows| {
      SameActive(rows, Init(after), key);
    } else if rows != [] {
      SameActive(Init(rows), Init(after), key);
    }
  }

  /** The columns acknowledgements and marks do not write are the same. */
  predicate SameSummary(a: Alert, b: Alert) {
    a == b.(acknowledged := a.acknowledged, notice := a.notice, lastNotifiedAt := a.lastNotifiedAt)
  }

  lemma OtherStepsKeepRows(rows: seq<Alert>, step: Step, key: Key, i: nat)
    requires step.Evaluate? ==> step.ev.key != key
    requires i < |StepRows(rows, step)|
    ensures i < |rows| && rows[i].key == key ==> SameSummary(rows[i], StepRows(rows, step)[i])
    ensures i < |rows| ==> rows[i].key == StepRows(rows, step)[i].key
    ensures i >= |rows| ==> StepRows(rows, step)[i].key != key
  {
  }

  /** A step that does not evaluate the key leaves its active row active. */
  lemma OtherStepsKeepActive(rows: seq<Alert>, step: Step, key: Key)
    requires step.Evaluate? ==> step.ev.key != key
    ensures |rows| <= |StepRows(rows, step)|
    ensures ActiveIndex(StepRows(rows, step), key) == ActiveIndex(rows, key)
  {
    var after := StepRows(rows, step);
    forall i | 0 <= i < |after|
      ensures if i < |rows| then IsActiveFor(after[i], key) == IsActiveFor(rows[i], key)
              else !IsActiveFor(after[i], key)
    {
      OtherStepsKeepRows(rows, step, key, i);
    }
    SameActive(rows, after, key);
  }

  lemma OnlyTheActiveRow(rows: seq<Alert>, i: nat, key: Key)
    requires OnlyNewestActive(rows) && i < |rows|
    ensures IsActiveFor(rows[i], key) ==> ActiveIndex(rows, key) == Some(i)
  {
    if IsActiveFor(rows[i], key) {
      ActiveIndexIsTheActiveRow(rows, i);
    }
  }

  /** An evaluation decides whether its key has an active row, and which. */
  lemma OwnStepDecidesActive(rows: seq<Alert>, ev: Evaluation, now: Time)
    requires WellFormed(rows)
    ensures ActiveIndex(Applied(rows, ev, now), ev.key) ==
            if !ev.violated then None
            else if ActiveIndex(rows, ev.key).None? then Some(|rows|) else ActiveIndex(rows, ev.key)
  {
    if ev.violated {
      StepKeepsWellFormed(rows, Evaluate(ev, now));
      ViolatedStaysActive(rows, ev, now);
    } else {
      NotViolatedEndsActive(rows, ev, now);
    }
  }

  lemma ViolatedStaysActive(rows: seq<Alert>, ev: Evaluation, now: Time)
    requires ev.violated && OnlyNewestActive(Applied(rows, ev, now))
    ensures ActiveIndex(Applied(rows, ev, now), ev.key) ==
            if ActiveIndex(rows, ev.key).None? then Some(|rows|) else ActiveIndex(rows, ev.key)
  {
    var id := match ActiveIndex(rows, ev.key) case None => |rows| case Some(active) => active;
    ViolatedRowIsActive(rows, ev, now, id);
    OnlyTheActiveRow(Applied(rows, ev, now), id, ev.key);
  }

  lemma ViolatedRowIsActive(rows: seq<Alert>, ev: Evaluation, now: Time, id: nat)
    requires ev.violated
    requires id == match ActiveIndex(rows, ev.key) case None => |rows| case Some(active) => active
    ensures id < |Applied(rows, ev, now)| && IsActiveFor(Applied(rows, ev, now)[id], ev.key)
  {
  }

  lemma NotViolatedEndsActive(rows: seq<Alert>, ev: Evaluation, now: Time)
    requires !ev.violated && OnlyNewestActive(rows)
    ensures ActiveIndex(Applied(rows, ev, now), ev.key) == None
  {
    forall i | 0 <= i < |rows| ensures !IsActiveFor(Applied(rows, ev, now)[i], ev.key) {
      OnlyTheActiveRow(rows, i, ev.key);
    }
  }

  lemma StepKeepsWellFormed(rows: seq<Alert>, step: Step)
    requires WellFormed(rows)
    ensures WellFormed(StepRows(rows, step))
  {
  }

  /** The ledger invariant: every reachable table is well formed. */
  lemma {:induction false} ReachableIsWellFormed(run: seq<Step>)
    ensures WellFormed(Replay(run))
  {
    if run != [] {
      ReachableIsWellFormed(Init(run));
      StepKeepsWellFormed(Replay(Init(run)), Last(run));
    }
  }

  /** The rows a run leaves behind, from any table. */
  function ReplayFrom(rows: seq<Alert>, run: seq<Step>): seq<Alert> {
    if run == [] then rows else StepRows(ReplayFrom(rows, Init(run)), Last(run))
  }

  lemma StepKeepsRows(rows: seq<Alert>, step: Step)
    requires OnlyNewestActive(rows)
    ensures |rows| <= |StepRows(rows, step)| && OnlyNewestActive(StepRows(rows, step))
    ensures forall i | 0 <= i < |StepRows(rows, step)| && (i < |rows| ==> Coherent(rows[i])) ::
              Coherent(StepRows(rows, step)[i])
  {
  }

  /**
   A table taken over from an older schema: resolved rows may lack the firing time their notification state
   calls for. One active row per key is enough to start from, and every other row keeps the invariant.
   */
  lemma {:induction false} TakenOverTableKeepsInvariant(rows: seq<Alert>, run: seq<Step>)
    requires OnlyNewestActive(rows)
    ensures |rows| <= |ReplayFrom(rows, run)| && OnlyNewestActive(ReplayFrom(rows, run))
    ensures forall i | 0 <= i < |ReplayFrom(rows, run)| && (i < |rows| ==> Coherent(rows[i])) ::
              Coherent(ReplayFrom(rows, run)[i])
  {
    if run != [] {
      TakenOverTableKeepsInvariant(rows, Init(run));
      StepKeepsRows(ReplayFrom(rows, Init(run)), Last(run));
    }
  }

  /** At most one row per key is active, and its id is what the rule transaction finds. */
  lemma {:induction false} OneActivePerKey(run: seq<Step>, i: nat, j: nat)
    requires i < |Replay(run)| && j < |Replay(run)|
    requires Replay(run)[i].key == Replay(run)[j].key
    requires Replay(run)[i].Active() && Replay(run)[j].Active()
    ensures i == j
    ensures ActiveIndex(Replay(run), Replay(run)[i].key) == Some(i)
  {
    ReachableIsWellFormed(run);
    ActiveIndexIsTheActiveRow(Replay(run), i);
  }

  // ----- what never changes once it has happened -----

  /** From `a` to `b` a row may only move forward. */
  predicate Follows(a: Alert, b: Alert) {
    && a.key == b.key && a.startedAt == b.startedAt && a.violations <= b.violations
    && (a.firingAt.Some? ==> b.firingAt == a.firingAt)
    && (a.state == Firing ==> b.state != Pending)
    && (a.state == Resolved ==>
          b == a.(notice := b.notice, lastNotifiedAt := b.lastNotifiedAt))
    && (a.state == Resolved && a.notice != Due ==> b == a)
  }

  lemma StepFollows(rows: seq<Alert>, step: Step, id: nat)
    requires WellFormed(rows) && id < |rows|
    ensures id < |StepRows(rows, step)| && Follows(rows[id], StepRows(rows, step)[id])
  {
  }

  lemma {:induction false} ReplayConcat(run: seq<Step>, step: Step)
    ensures Replay(run + [step]) == StepRows(Replay(run), step)
    ensures AuditTrail(run + [step]) == AuditTrail(run) + StepAudit(Replay(run), step)
  {
    assert Init(run + [step]) == run;
  }

  lemma {:induction false} ReplayOneMore(before: seq<Step>, after: seq<Step>)
    requires after != []
    ensures Replay(before + after) == StepRows(Replay(before + Init(after)), Last(after))
  {
    assert before + after == before + Init(after) + [Last(after)];
    ReplayConcat(before + Init(after), Last(after));
  }

  /**
   Rows move forward over whole runs: ids stay, a resolved row never reactivates, and one
   that was settled ('none', 'sent' or 'suppressed') when it resolved never changes again,
   so a recovery suppressed at resolution is never mailed.
   */
  lemma {:induction false} RowsOnlyMoveForward(before: seq<Step>, after: seq<Step>, id: nat)
    requires id < |Replay(before)|
    ensures id < |Replay(before + after)|
    ensures Follows(Replay(before)[id], Replay(before + after)[id])
    decreases |after|
  {
    if after == [] {
      assert before + after == before;
    } else {
      RowsOnlyMoveForward(before, Init(after), id);
      var sofar := before + Init(after);
      ReplayOneMore(before, after);
      ReachableIsWellFormed(sofar);
      StepFollows(Replay(sofar), Last(after), id);
      FollowsOn(Replay(before)[id], Replay(sofar)[id], Replay(before + after)[id]);
    }
  }

  lemma FollowsOn(a: Alert, b: Alert, c: Alert)
    requires Follows(a, b) && Follows(b, c)
    ensures Follows(a, c)
  {
  }

  // ----- how often an alert can be marked 'sent' -----

  function SentMarks(run: seq<Step>, id: nat): nat {
    if run == [] then 0
    else SentMarks(Init(run), id) + if MarksSent(Replay(Init(run)), Last(run), id) then 1 else 0
  }

  function Escalations(run: seq<Step>, id: nat): nat {
    if run == [] then 0
    else Escalations(Init(run), id) + if EscalatesRow(Replay(Init(run)), Last(run), id) then 1 else 0
  }

  /** Deliveries a row has earned but not used: its firing, its escalations, its recovery. */
  function Earned(a: Alert, escalations: nat): nat {
    (if a.firingAt.Some? then 1 else 0) + escalations
    + if a.firingAt.Some? && a.state == Resolved then 1 else 0
  }

  lemma {:induction false} SentMarksAreEarned(run: seq<Step>, id: nat)
    ensures id >= |Replay(run)| ==> SentMarks(run, id) == Escalations(run, id) == 0
    ensures id < |Replay(run)| ==>
              SentMarks(run, id) + (if Replay(run)[id].notice == Due then 1 else 0)
              <= Earned(Replay(run)[id], Escalations(run, id))
  {
    if run != [] {
      SentMarksAreEarned(Init(run), id);
      ReachableIsWellFormed(Init(run));
      if id < |Replay(Init(run))| {
        StepFollows(Replay(Init(run)), Last(run), id);
      }
    }
  }

  /** Effective 'sent' marks on one alert number at most 2 plus its escalations. */
  lemma {:induction false} SentMarksBound(run: seq<Step>, id: nat)
    ensures SentMarks(run, id) <= 2 + Escalations(run, id)
  {
    SentMarksAreEarned(run, id);
  }
}
