/**
 The alerts table and its audit log (internal/storage/storage.go).

 The table is a sequence of rows; a row's position is its AUTOINCREMENT id, and rows
 are never deleted. `Applied` and `Marked` say what one transaction does to the
 rows; `AlertStore` is the store whose methods run those transactions.
 */
module Alerts {
  import opened Prelude

  datatype Severity = Warning | Critical

  datatype State = Pending | Firing | Resolved

  /** notification_state: 'none', 'pending', 'sent' and 'suppressed'. */
  datatype Notice = NoNotice | Due | Sent | Suppressed

  datatype Key = Key(agent: string, rule: string, resource: string)

  datatype Acknowledgement = Acknowledgement(at: Time, actor: string)

  datatype Alert = Alert(
    key: Key,
    severity: Severity,
    state: State,
    value: real,
    threshold: real,
    startedAt: Time,
    firingAt: Option<Time>,
    resolvedAt: Option<Time>,
    acknowledged: Option<Acknowledgement>,
    notice: Notice,
    lastNotifiedAt: Option<Time>,
    violations: nat)
  {
    predicate Active() {
      state != Resolved
    }
  }

  datatype Evaluation = Evaluation(
    key: Key,
    severity: Severity,
    value: real,
    threshold: real,
    violated: bool,
    duration: Time,
    consecutive: int)

  /** The lifecycle steps that ApplyRule audits. */
  datatype Transition = Opened | Fired | Escalated | Closed

  datatype AuditEntry =
    | RuleEntry(transition: Transition, target: string, severity: Severity)
    | AckEntry(actor: string, id: nat)

  /** A row as a reader saw it, with its id. */
  datatype Snapshot = Snapshot(id: nat, alert: Alert)

  predicate IsActiveFor(a: Alert, key: Key) {
    a.key == key && a.Active()
  }

  /** The row `WHERE agent_id=? AND rule_key=? AND resource=? AND state IN ('pending', 'firing')`. */
  function ActiveIndex(rows: seq<Alert>, key: Key): (id: Option<nat>)
    ensures id.Some? ==> id.value < |rows| && IsActiveFor(rows[id.value], key)
    ensures id.None? ==> forall i | 0 <= i < |rows| :: !IsActiveFor(rows[i], key)
  {
    if rows == [] then None
    else if IsActiveFor(Last(rows), key) then Some(|rows| - 1)
    else ActiveIndex(Init(rows), key)
  }

  /** Does the count-th violation of a streak, `elapsed` after its first, fire the alert? */
  predicate Reached(ev: Evaluation, count: int, elapsed: Time) {
    if ev.consecutive > 1 then count >= ev.consecutive else elapsed >= ev.duration
  }

  function OpenedRow(ev: Evaluation, now: Time): Alert {
    var fires := Reached(ev, 1, 0);
    Alert(ev.key, ev.severity, if fires then Firing else Pending, ev.value, ev.threshold, now,
          if fires then Some(now) else None, None, None, if fires then Due else NoNotice, None, 1)
  }

  predicate Escalates(a: Alert, ev: Evaluation) {
    a.state == Firing && a.severity != Critical && ev.severity == Critical
  }

  predicate Fires(a: Alert, ev: Evaluation, now: Time) {
    a.state == Pending && Reached(ev, a.violations + 1, now - a.startedAt)
  }

  function ContinuedRow(a: Alert, ev: Evaluation, now: Time): Alert {
    var updated := a.(severity := ev.severity, value := ev.value, threshold := ev.threshold,
                      violations := a.violations + 1);
    if Fires(a, ev, now) then
      updated.(state := Firing, firingAt := Some(now), notice := Due)
    else if Escalates(a, ev) then
      updated.(notice := Due, acknowledged := None)
    else
      updated
  }

  function ClosedRow(a: Alert, ev: Evaluation, now: Time): Alert {
    a.(state := Resolved, resolvedAt := Some(now), value := ev.value, threshold := ev.threshold,
       notice := if a.state != Firing then NoNotice
                 else if a.notice == Suppressed then Suppressed
                 else Due)
  }

  /** The alerts table after ApplyRule. */
  function Applied(rows: seq<Alert>, ev: Evaluation, now: Time): seq<Alert> {
    match ActiveIndex(rows, ev.key)
    case None => if ev.violated then rows + [OpenedRow(ev, now)] else rows
    case Some(id) =>
      rows[id := if ev.violated then ContinuedRow(rows[id], ev, now)
                 else ClosedRow(rows[id], ev, now)]
  }

  /** The lifecycle step ApplyRule takes, if any. */
  function TransitionOf(rows: seq<Alert>, ev: Evaluation, now: Time): Option<Transition> {
    match ActiveIndex(rows, ev.key)
    case None =>
      if !ev.violated then None else if Reached(ev, 1, 0) then Some(Fired) else Some(Opened)
    case Some(id) =>
      if !ev.violated then Some(Closed)
      else if Fires(rows[id], ev, now) then Some(Fired)
      else if Escalates(rows[id], ev) then Some(Escalated)
      else None
  }

  /** auditRuleTx: the target names the agent, the rule and, if there is one, the resource. */
  function Target(key: Key): string {
    key.agent + "/" + key.rule + if key.resource == "" then "" else "/" + key.resource
  }

  function AuditOf(rows: seq<Alert>, ev: Evaluation, now: Time): seq<AuditEntry> {
    match TransitionOf(rows, ev, now)
    case None => []
    case Some(t) => [RuleEntry(t, Target(ev.key), ev.severity)]
  }

  predicate IsDue(a: Alert) {
    a.notice == Due && a.state != Pending
  }

  /** The rows a notification pass loads, in id order: the first `limit` due ones. */
  function DueRows(rows: seq<Alert>, limit: nat): (due: seq<Snapshot>)
    ensures |due| <= limit
  {
    if rows == [] then []
    else
      var earlier := DueRows(Init(rows), limit);
      if IsDue(Last(rows)) && |earlier| < limit then
        earlier + [Snapshot(|rows| - 1, Last(rows))]
      else earlier
  }

  /** Once the batch is full, later rows do not change it. */
  lemma {:induction false} FullBatchStays(rows: seq<Alert>, id: nat, limit: nat)
    requires id <= |rows| && (id == |rows| || |DueRows(rows[..id], limit)| == limit)
    ensures DueRows(rows, limit) == DueRows(rows[..id], limit)
  {
    if id == |rows| {
      assert rows[..id] == rows;
    } else {
      assert Init(rows)[..id] == rows[..id];
      FullBatchStays(Init(rows), id, limit);
    }
  }

  /** A notification pass sees a row exactly when it is due, fired or resolved, and in the first `limit` such. */
  lemma {:induction false} DueRowsAreTheFirstDue(rows: seq<Alert>, limit: nat)
    ensures var due := DueRows(rows, limit);
            && (forall k | 0 <= k < |due| ::
                  due[k].id < |rows| && due[k].alert == rows[due[k].id] && IsDue(due[k].alert))
            && (forall k, m | 0 <= k < m < |due| :: due[k].id < due[m].id)
            && (forall i | 0 <= i < |rows| && IsDue(rows[i]) ::
                  Snapshot(i, rows[i]) in due
                  || (|due| == limit && forall k | 0 <= k < |due| :: due[k].id < i))
  {
    if rows != [] {
      DueRowsAreTheFirstDue(Init(rows), limit);
      var earlier, due := DueRows(Init(rows), limit), DueRows(rows, limit);
      forall i | 0 <= i < |rows| && IsDue(rows[i])
        ensures Snapshot(i, rows[i]) in due
                || (|due| == limit && forall k | 0 <= k < |due| :: due[k].id < i)
      {
        if i < |rows| - 1 {
          assert rows[i] == Init(rows)[i];
          assert Snapshot(i, Init(rows)[i]) in earlier ==> Snapshot(i, rows[i]) in due;
        } else if |earlier| < limit {
          assert due[|earlier|] == Snapshot(i, rows[i]);
        }
      }
    }
  }

  /** Is the delivery of `seen` still the delivery this row is waiting for? */
  predicate Awaits(rows: seq<Alert>, seen: Snapshot) {
    && seen.id < |rows|
    && rows[seen.id].state == seen.alert.state
    && rows[seen.id].severity == seen.alert.severity
    && rows[seen.id].notice == Due
  }

  function MarkedRow(a: Alert, notice: Notice, now: Time): Alert {
    a.(notice := notice,
       lastNotifiedAt := if notice == Sent then Some(now) else a.lastNotifiedAt)
  }

  /** MarkAlertDelivery: a compare-and-set against the row the worker saw. */
  function Marked(rows: seq<Alert>, seen: Snapshot, notice: Notice, now: Time): seq<Alert> {
    if (notice == Sent || notice == Suppressed) && Awaits(rows, seen) then
      rows[seen.id := MarkedRow(rows[seen.id], notice, now)]
    else rows
  }

  predicate CanAcknowledge(rows: seq<Alert>, id: nat) {
    id < |rows| && rows[id].Active() && rows[id].acknowledged == None
  }

  function Acknowledged(rows: seq<Alert>, id: nat, actor: string, now: Time): seq<Alert> {
    if CanAcknowledge(rows, id) then
      rows[id := rows[id].(acknowledged := Some(Acknowledgement(now, actor)))]
    else rows
  }

  /** Would the cooldown query count this row against an alert of this key and severity? */
  predicate CountsForCooldown(a: Alert, key: Key, severity: Severity, since: Time) {
    && a.key == key && a.severity == severity && a.notice == Sent
    && a.lastNotifiedAt.Some? && a.lastNotifiedAt.value >= since
  }

  predicate InCooldown(rows: seq<Alert>, seen: Snapshot, cooldown: Time, now: Time) {
    && seen.alert.state == Firing
    && cooldown > 0
    && exists i | 0 <= i < |rows| ::
         i != seen.id && CountsForCooldown(rows[i], seen.alert.key, seen.alert.severity, now - cooldown)
  }

  class AlertStore {
    var alerts: seq<Alert>
    var audit: seq<AuditEntry>

    constructor ()
      ensures alerts == [] && audit == []
    {
      alerts, audit := [], [];
    }

    method ApplyRule(ev: Evaluation, now: Time) returns (changed: bool)
      modifies this
      ensures alerts == Applied(old(alerts), ev, now)
      ensures audit == old(audit) + AuditOf(old(alerts), ev, now)
      ensures changed <==> audit != old(audit)
    {
      changed := false;
      var active := ActiveIndex(alerts, ev.key);
      if ev.violated && active.None? {
        var state, notice, firingAt := Pending, NoNotice, None;
        if ev.duration <= 0 && ev.consecutive <= 1 {
          state, notice, firingAt := Firing, Due, Some(now);
        }
        alerts := alerts + [Alert(ev.key, ev.severity, state, ev.value, ev.threshold, now,
                                  firingAt, None, None, notice, None, 1)];
        AuditRule(ev, if state == Firing then Fired else Opened);
        changed := true;
      } else if ev.violated {
        var existing := alerts[active.value];
        var nextCount := existing.violations + 1;
        var reachedCount := ev.consecutive > 1 && nextCount >= ev.consecutive;
        var reachedDuration := ev.consecutive <= 1 && now - existing.startedAt >= ev.duration;
        var updated := existing.(severity := ev.severity, value := ev.value,
                                 threshold := ev.threshold, violations := nextCount);
        if existing.state == Pending && (reachedCount || reachedDuration) {
          updated := updated.(state := Firing, firingAt := Some(now), notice := Due);
          AuditRule(ev, Fired);
          changed := true;
        } else if existing.state == Firing && existing.severity != Critical && ev.severity == Critical {
          updated := updated.(notice := Due, acknowledged := None);
          AuditRule(ev, Escalated);
          changed := true;
        }
        alerts := alerts[active.value := updated];
      } else if active.Some? {
        var existing := alerts[active.value];
        var notice := NoNotice;
        if existing.state == Firing {
          notice := Due;
          if existing.notice == Suppressed {
            notice := Suppressed;
          }
        }
        alerts := alerts[active.value := existing.(state := Resolved, resolvedAt := Some(now),
                         value := ev.value, threshold := ev.threshold, notice := notice)];
        AuditRule(ev, Closed);
        changed := true;
      }
    }

    method AuditRule(ev: Evaluation, transition: Transition)
      modifies this`audit
      ensures audit == old(audit) + [RuleEntry(transition, Target(ev.key), ev.severity)]
    {
      var target := ev.key.agent + "/" + ev.key.rule;
      if ev.key.resource != "" {
        target := target + "/" + ev.key.resource;
      }
      assert target == Target(ev.key);
      audit := audit + [RuleEntry(transition, target, ev.severity)];
    }

    /** The query goes over the ids in order and stops at the limit, 100 if none between 1 and 100 is asked for. */
    method PendingNotifications(limit: int) returns (due: seq<Snapshot>)
      ensures var bound := if limit < 1 || limit > 100 then 100 else limit;
              && due == DueRows(alerts, bound)
              && (forall k | 0 <= k < |due| ::
                    due[k].id < |alerts| && due[k].alert == alerts[due[k].id] && IsDue(due[k].alert))
              && (forall k, m | 0 <= k < m < |due| :: due[k].id < due[m].id)
              && (forall i | 0 <= i < |alerts| && IsDue(alerts[i]) ::
                    Snapshot(i, alerts[i]) in due
                    || (|due| == bound && forall k | 0 <= k < |due| :: due[k].id < i))
    {
      var bound := limit;
      if limit < 1 || limit > 100 {
        bound := 100;
      }
      due := [];
      var id := 0;
      while id < |alerts| && |due| < bound
        invariant id <= |alerts|
        invariant due == DueRows(alerts[..id], bound)
      {
        assert Init(alerts[..id + 1]) == alerts[..id];
        if alerts[id].notice == Due && (alerts[id].state == Firing || alerts[id].state == Resolved) {
          due := due + [Snapshot(id, alerts[id])];
        }
        id := id + 1;
      }
      FullBatchStays(alerts, id, bound);
      DueRowsAreTheFirstDue(alerts, bound);
    }

    method NotificationInCooldown(seen: Snapshot, cooldown: Time, now: Time) returns (held: bool)
      ensures held == InCooldown(alerts, seen, cooldown, now)
      ensures held <==>
                && seen.alert.state == Firing && cooldown > 0
                && exists i | 0 <= i < |alerts| ::
                     && i != seen.id && alerts[i].key == seen.alert.key && alerts[i].severity == seen.alert.severity
                     && alerts[i].notice == Sent && alerts[i].lastNotifiedAt.Some?
                     && now - cooldown <= alerts[i].lastNotifiedAt.value
    {
      if seen.alert.state != Firing || cooldown <= 0 {
        return false;
      }
      held := exists i | 0 <= i < |alerts| ::
        (i != seen.id && CountsForCooldown(alerts[i], seen.alert.key, seen.alert.severity, now - cooldown));
    }

    method MarkAlertDelivery(seen: Snapshot, notice: Notice, now: Time)
      modifies this`alerts
      ensures alerts == Marked(old(alerts), seen, notice, now)
    {
      if notice != Sent && notice != Suppressed {
        return;
      }
      if Awaits(alerts, seen) {
        alerts := alerts[seen.id := MarkedRow(alerts[seen.id], notice, now)];
      }
    }

    method AcknowledgeAlert(id: nat, actor: string, now: Time) returns (found: bool)
      modifies this
      ensures alerts == Acknowledged(old(alerts), id, actor, now)
      ensures found == CanAcknowledge(old(alerts), id)
      ensures audit == old(audit) + if found then [AckEntry(actor, id)] else []
    {
      found := CanAcknowledge(alerts, id);
      if found {
        alerts := alerts[id := alerts[id].(acknowledged := Some(Acknowledgement(now, actor)))];
        audit := audit + [AckEntry(actor, id)];
      }
    }
  }
}
