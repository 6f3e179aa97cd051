/**
 The notification worker (processNotifications, internal/server/server.go): it loads the
 due alerts, then for each one filters, asks for the cooldown, mails and marks. Mails leave
 outside any transaction, so rule evaluations and acknowledgements fall between its steps.
 */
module Notifier {
  import opened Prelude
  import opened Alerts
  import AlertRuns

  const BATCH := 50

  datatype Preferences = Preferences(enabled: bool, warnings: bool, recovery: bool)

  /** Where the worker is with the first alert of its queue. */
  datatype Phase = Choosing | Suppressing | Mailing | Recording

  datatype Mail = Mail(seen: Snapshot, at: Time)

  /** The alerts table, the rest of the worker's pass, the mails that left, and the latest clock reading. */
  datatype World = World(
    rows: seq<Alert>,
    queue: seq<Snapshot>,
    phase: Phase,
    mails: seq<Mail>,
    clock: Time)

  datatype Action =
    | Table(step: AlertRuns.Step)
    | Load
    | Choose(smtp: bool, prefs: Preferences, now: Time)
    | Deliver(now: Time)
    | Record(now: Time)
    | GiveUp   // the cooldown query, the mailer or the mark failed: go on with the next alert
    | EndPass  // the pass ran out of time between two alerts

  /** Alerts of this severity and state are not mailed. */
  predicate Silenced(severity: Severity, state: State, smtp: bool, prefs: Preferences) {
    || !smtp
    || !prefs.enabled
    || (severity == Warning && !prefs.warnings)
    || (state == Resolved && !prefs.recovery)
  }

  /** An alert the operator does not want mailed. */
  predicate Filtered(a: Alert, smtp: bool, prefs: Preferences) {
    Silenced(a.severity, a.state, smtp, prefs)
  }

  predicate Enabled(w: World, action: Action) {
    match action
    case Table(step) => !step.Mark?
    case Load => w.queue == [] && w.phase == Choosing
    case Choose(_, _, now) => w.queue != [] && w.phase == Choosing && now >= w.clock
    case Deliver(now) => w.queue != [] && w.phase == Mailing && now >= w.clock
    case Record(now) => w.queue != [] && (w.phase == Suppressing || w.phase == Recording) && now >= w.clock
    case GiveUp => w.queue != []
    case EndPass => w.phase == Choosing
  }

  function Act(w: World, action: Action, cooldown: Time): World
    requires Enabled(w, action)
  {
    match action
    case Table(step) => w.(rows := AlertRuns.StepRows(w.rows, step))
    case Load => w.(queue := DueRows(w.rows, BATCH))
    case Choose(smtp, prefs, now) =>
      var held := Filtered(w.queue[0].alert, smtp, prefs) || InCooldown(w.rows, w.queue[0], cooldown, now);
      w.(phase := if held then Suppressing else Mailing, clock := now)
    case Deliver(now) =>
      w.(phase := Recording, mails := w.mails + [Mail(w.queue[0], now)], clock := now)
    case Record(now) =>
      var notice := if w.phase == Recording then Sent else Suppressed;
      w.(rows := Marked(w.rows, w.queue[0], notice, now), queue := w.queue[1..], phase := Choosing, clock := now)
    case GiveUp => w.(queue := w.queue[1..], phase := Choosing)
    case EndPass => w.(queue := [])
  }

  /** The worker; its methods are the steps between which the rest of the server may run. */
  class Worker {
    const store: AlertStore
    const cooldown: Time
    var queue: seq<Snapshot>
    var phase: Phase
    var mails: seq<Mail>

    constructor (store: AlertStore, cooldown: Time)
      ensures this.store == store && this.cooldown == cooldown
      ensures queue == [] && phase == Choosing && mails == []
    {
      this.store, this.cooldown := store, cooldown;
      queue, phase, mails := [], Choosing, [];
    }

    function View(clock: Time): World
      reads this, store
    {
      World(store.alerts, queue, phase, mails, clock)
    }

    method LoadPass(ghost clock: Time)
      requires Enabled(View(clock), Load)
      modifies this`queue
      ensures View(clock) == Act(old(View(clock)), Load, cooldown)
      ensures |queue| <= 50 && forall k | 0 <= k < |queue| :: queue[k].id < |store.alerts| && IsDue(queue[k].alert)
    {
      queue := store.PendingNotifications(BATCH);
    }

    method ChooseNext(smtp: bool, prefs: Preferences, ghost clock: Time, now: Time)
      requires Enabled(View(clock), Choose(smtp, prefs, now))
      modifies this`phase
      ensures View(now) == Act(old(View(clock)), Choose(smtp, prefs, now), cooldown)
    {
      var seen := queue[0];
      if !smtp || !prefs.enabled || (seen.alert.severity == Warning && !prefs.warnings)
         || (seen.alert.state == Resolved && !prefs.recovery) {
        phase := Suppressing;
      } else {
        var held := store.NotificationInCooldown(seen, cooldown, now);
        phase := if held then Suppressing else Mailing;
      }
    }

    method SendMail(ghost clock: Time, now: Time)
      requires Enabled(View(clock), Deliver(now))
      modifies this`phase, this`mails
      ensures View(now) == Act(old(View(clock)), Deliver(now), cooldown)
    {
      mails := mails + [Mail(queue[0], now)];
      phase := Recording;
    }

    method RecordOutcome(ghost clock: Time, now: Time)
      requires Enabled(View(clock), Record(now))
      modifies this`phase, this`queue, store`alerts
      ensures View(now) == Act(old(View(clock)), Record(now), cooldown)
    {
      store.MarkAlertDelivery(queue[0], if phase == Recording then Sent else Suppressed, now);
      queue, phase := queue[1..], Choosing;
    }
  }
}
