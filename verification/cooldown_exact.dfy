/**
 Exactly when the cooldown holds: which mail settings and which failures let two firing mails of one key
 leave at once, and that all others keep them apart.
 */
module CooldownExact {
  import opened Prelude
  import opened Alerts
  import opened AlertRuns
  import opened Notifier
  import opened Cooldown

  /** Handling an alert of this state is broken off in this phase: its query, its mail or its mark failed. */
  datatype Failure = Failure(state: State, phase: Phase)

  /** One mail configuration, in force for a whole run, and the failures that may befall the watched key in it. */
  datatype Settings = Settings(smtp: bool, prefs: Preferences, failures: set<Failure>)

  /**
   A firing mail that left and is not marked; or a recovery that is not handled to its end, so that it stays due
   where the cooldown query looks for 'sent'. (With recoveries mailed, none is ever to be suppressed; and as no
   query is made for a recovery, nothing of it fails in phase Choosing either.)
   */
  predicate Harmful(f: Failure) {
    f == Failure(Firing, Recording) || (f.state == Resolved && f.phase != Suppressing)
  }

  /** Permitted, except that the settings decide what is filtered out and what may fail. */
  predicate PermittedUnder(w: World, action: Action, watch: Watch, settings: Settings) {
    && Enabled(w, action)
    && (action.Table? && action.step.Evaluate? && action.step.ev.key == watch.key ==>
          action.step.ev.severity == watch.severity)
    && (action.GiveUp? && w.queue[0].alert.key == watch.key ==>
          Failure(w.queue[0].alert.state, w.phase) in settings.failures)
    && (action.Choose? ==> action.smtp == settings.smtp && action.prefs == settings.prefs)
  }

  function ReachUnder(start: Time, run: seq<Action>, watch: Watch, settings: Settings): Option<World> {
    if run == [] then Some(Begin(start))
    else
      var before := ReachUnder(start, Init(run), watch, settings);
      if before.Some? && PermittedUnder(before.value, Last(run), watch, settings) then
        Some(Act(before.value, Last(run), watch.cooldown))
      else None
  }

  ghost predicate Possible(w: World, watch: Watch, settings: Settings) {
    exists start, run :: ReachUnder(start, run, watch, settings) == Some(w)
  }

  predicate SilencedState(watch: Watch, state: State, settings: Settings) {
    Silenced(watch.severity, state, settings.smtp, settings.prefs)
  }

  predicate Harmless(settings: Settings) {
    forall f | f in settings.failures :: !Harmful(f)
  }

  /** With recoveries mailed and no harmful failure, such a run meets the hypotheses of the spacing theorem. */
  lemma {:induction false} MailedRecoveriesArePermitted(
      start: Time, run: seq<Action>, watch: Watch, settings: Settings)
    requires watch.cooldown > 0 && !SilencedState(watch, Resolved, settings) && Harmless(settings)
    requires ReachUnder(start, run, watch, settings).Some?
    ensures Reach(start, run, watch) == ReachUnder(start, run, watch, settings)
  {
    if run != [] {
      MailedRecoveriesArePermitted(start, Init(run), watch, settings);
      ReachableFits(start, Init(run), watch);
      StepUnderIsPermitted(Reach(start, Init(run), watch).value, Last(run), watch, settings);
    }
  }

  lemma StepUnderIsPermitted(w: World, action: Action, watch: Watch, settings: Settings)
    requires QueueFits(w, watch) && !SilencedState(watch, Resolved, settings) && Harmless(settings)
    requires PermittedUnder(w, action, watch, settings)
    ensures Permitted(w, action, watch)
  {
  }

  /** Rows and queue entries of the key have its severity, and none of its firing alerts was or will be mailed. */
  ghost predicate Quiet(w: World, watch: Watch) {
    && (forall i | 0 <= i < |w.rows| && w.rows[i].key == watch.key :: w.rows[i].severity == watch.severity)
    && (forall k | 0 <= k < |w.queue| && w.queue[k].alert.key == watch.key ::
          w.queue[k].alert.severity == watch.severity)
    && (w.phase == Mailing && w.queue != [] ==> !FiringEntry(w.queue[0], watch))
    && (forall i | 0 <= i < |w.mails| :: !FiringMail(w.mails[i], watch))
  }

  lemma StepKeepsSeverity(rows: seq<Alert>, step: Step, watch: Watch)
    requires forall i | 0 <= i < |rows| && rows[i].key == watch.key :: rows[i].severity == watch.severity
    requires step.Evaluate? && step.ev.key == watch.key ==> step.ev.severity == watch.severity
    ensures var after := StepRows(rows, step);
            forall i | 0 <= i < |after| && after[i].key == watch.key :: after[i].severity == watch.severity
  {
  }

  lemma TableStaysQuiet(w: World, step: Step, watch: Watch)
    requires Quiet(w, watch) && (step.Evaluate? && step.ev.key == watch.key ==> step.ev.severity == watch.severity)
    ensures Quiet(w.(rows := StepRows(w.rows, step)), watch)
  {
    StepKeepsSeverity(w.rows, step, watch);
  }

  lemma LoadStaysQuiet(w: World, watch: Watch)
    requires Quiet(w, watch) && w.phase == Choosing
    ensures Quiet(w.(queue := DueRows(w.rows, BATCH)), watch)
  {
    DueRowsAreTheFirstDue(w.rows, BATCH);
  }

  lemma NextStaysQuiet(w: World, v: World, watch: Watch)
    requires Quiet(w, watch) && w.queue != []
    requires v.rows == w.rows && v.mails == w.mails && v.queue == w.queue[1..] && v.phase == Choosing
    ensures Quiet(v, watch)
  {
    assert forall k | 0 <= k < |v.queue| :: v.queue[k] == w.queue[k + 1];
  }

  lemma StepStaysQuiet(w: World, action: Action, watch: Watch, settings: Settings)
    requires Quiet(w, watch) && SilencedState(watch, Firing, settings)
    requires PermittedUnder(w, action, watch, settings)
    ensures Quiet(Act(w, action, watch.cooldown), watch)
  {
    match action
    case Table(step) => TableStaysQuiet(w, step, watch);
    case Load => LoadStaysQuiet(w, watch);
    case Choose(_, _, _) =>
    case Deliver(_) =>
    case Record(now) =>
      var marked := Mark(w.queue[0], if w.phase == Recording then Sent else Suppressed, now);
      TableStaysQuiet(w, marked, watch);
      NextStaysQuiet(w.(rows := StepRows(w.rows, marked)), Act(w, action, watch.cooldown), watch);
    case GiveUp => NextStaysQuiet(w, Act(w, action, watch.cooldown), watch);
    case EndPass =>
  }

  lemma {:induction false} SilencedStaysQuiet(start: Time, run: seq<Action>, watch: Watch, settings: Settings)
    requires SilencedState(watch, Firing, settings) && ReachUnder(start, run, watch, settings).Some?
    ensures Quiet(ReachUnder(start, run, watch, settings).value, watch)
  {
    if run != [] {
      SilencedStaysQuiet(start, Init(run), watch, settings);
      StepStaysQuiet(ReachUnder(start, Init(run), watch, settings).value, Last(run), watch, settings);
    }
  }

  // ----- the run that breaks it -----

  lemma Extend(w: World, action: Action, watch: Watch, settings: Settings) returns (v: World)
    requires Possible(w, watch, settings) && PermittedUnder(w, action, watch, settings)
    ensures v == Act(w, action, watch.cooldown) && Possible(v, watch, settings)
  {
    var start, run :| ReachUnder(start, run, watch, settings) == Some(w);
    assert Init(run + [action]) == run;
    v := Act(w, action, watch.cooldown);
    assert ReachUnder(start, run + [action], watch, settings) == Some(v);
  }

  lemma {:induction false} NothingDue(rows: seq<Alert>)
    requires forall i | 0 <= i < |rows| :: rows[i].notice == Suppressed
    ensures DueRows(rows, BATCH) == []
  {
    if rows != [] {
      NothingDue(Init(rows));
    }
  }

  /** The worker between two passes. */
  function Idle(rows: seq<Alert>, mails: seq<Mail>, t: Time): World {
    World(rows, [], Choosing, mails, t)
  }

  function RuleStep(watch: Watch, violated: bool, t: Time): Step {
    Evaluate(Evaluation(watch.key, watch.severity, 0.0, 0.0, violated, 0, 0), t)
  }

  function RaisedRow(watch: Watch, t: Time): Alert {
    OpenedRow(RuleStep(watch, true, t).ev, t)
  }

  lemma {:induction false} Evaluated(rows: seq<Alert>, after: seq<Alert>, violated: bool, mails: seq<Mail>, t: Time,
                  watch: Watch, settings: Settings)
    requires Possible(Idle(rows, mails, t), watch, settings)
    requires after == StepRows(rows, RuleStep(watch, violated, t))
    ensures Possible(Idle(after, mails, t), watch, settings)
  {
    var w := Extend(Idle(rows, mails, t), Table(RuleStep(watch, violated, t)), watch, settings);
  }

  /** Load, choose and mail a firing alert, after rows that are settled; it is about to be marked. */
  lemma MailLeaves(settled: seq<Alert>, raised: Alert, mails: seq<Mail>, t: Time, watch: Watch, settings: Settings)
    requires Possible(Idle(settled + [raised], mails, t), watch, settings)
    requires forall i | 0 <= i < |settled| :: settled[i].notice == Suppressed
    requires raised.key == watch.key && raised.severity == watch.severity && raised.state == Firing && IsDue(raised)
    requires !SilencedState(watch, Firing, settings)
    ensures var seen := Snapshot(|settled|, raised);
            Possible(World(settled + [raised], [seen], Recording, mails + [Mail(seen, t)], t), watch, settings)
  {
    var rows, seen := settled + [raised], Snapshot(|settled|, raised);
    assert Init(rows) == settled;
    NothingDue(settled);
    assert DueRows(rows, BATCH) == [seen];
    var w := Extend(Idle(rows, mails, t), Load, watch, settings);
    w := Extend(w, Choose(settings.smtp, settings.prefs, t), watch, settings);
    assert w == World(rows, [seen], Mailing, mails, t);
    w := Extend(w, Deliver(t), watch, settings);
  }

  /** And it is marked. */
  lemma Delivered(settled: seq<Alert>, raised: Alert, mails: seq<Mail>, t: Time, watch: Watch, settings: Settings)
    requires Possible(Idle(settled + [raised], mails, t), watch, settings)
    requires forall i | 0 <= i < |settled| :: settled[i].notice == Suppressed
    requires raised.key == watch.key && raised.severity == watch.severity && raised.state == Firing && IsDue(raised)
    requires !SilencedState(watch, Firing, settings)
    ensures Possible(Idle(settled + [MarkedRow(raised, Sent, t)], mails + [Mail(Snapshot(|settled|, raised), t)], t),
                     watch, settings)
  {
    var rows, seen := settled + [raised], Snapshot(|settled|, raised);
    MailLeaves(settled, raised, mails, t, watch, settings);
    MarkTakesEffect(rows, seen, Sent, t);
    var w := Extend(World(rows, [seen], Recording, mails + [Mail(seen, t)], t), Record(t), watch, settings);
    var after := settled + [MarkedRow(raised, Sent, t)];
    assert rows[|settled| := MarkedRow(raised, Sent, t)] == after;
    assert w == Idle(after, mails + [Mail(seen, t)], t);
  }

  lemma MarkTakesEffect(rows: seq<Alert>, seen: Snapshot, notice: Notice, t: Time)
    requires notice == Sent || notice == Suppressed
    requires seen.id < |rows| && rows[seen.id] == seen.alert && seen.alert.notice == Due
    ensures Marked(rows, seen, notice, t) == rows[seen.id := MarkedRow(seen.alert, notice, t)]
  {
  }

  /** Load, filter out and suppress a recovery. */
  lemma RecoverySuppressed(closed: Alert, mails: seq<Mail>, t: Time, watch: Watch, settings: Settings)
    requires Possible(Idle([closed], mails, t), watch, settings)
    requires closed.key == watch.key && closed.severity == watch.severity
    requires closed.state == Resolved && closed.notice == Due && SilencedState(watch, Resolved, settings)
    ensures Possible(Idle([MarkedRow(closed, Suppressed, t)], mails, t), watch, settings)
  {
    var rows, seen := [closed], Snapshot(0, closed);
    assert Init(rows) == [] && DueRows(rows, BATCH) == [seen];
    var w := Extend(Idle(rows, mails, t), Load, watch, settings);
    w := Extend(w, Choose(settings.smtp, settings.prefs, t), watch, settings);
    assert w == World(rows, [seen], Suppressing, mails, t);
    MarkTakesEffect(rows, seen, Suppressed, t);
    w := Extend(w, Record(t), watch, settings);
    assert rows[0 := MarkedRow(closed, Suppressed, t)] == [MarkedRow(closed, Suppressed, t)];
    assert w == Idle([MarkedRow(closed, Suppressed, t)], mails, t);
  }

  /** Fire and mail, after rows that are settled. */
  lemma FiredAndMailed(settled: seq<Alert>, mails: seq<Mail>, t: Time, watch: Watch, settings: Settings)
    requires Possible(Idle(settled, mails, t), watch, settings) && !SilencedState(watch, Firing, settings)
    requires forall i | 0 <= i < |settled| :: settled[i].notice == Suppressed && settled[i].state == Resolved
    ensures var raised := RaisedRow(watch, t);
            Possible(Idle(settled + [MarkedRow(raised, Sent, t)], mails + [Mail(Snapshot(|settled|, raised), t)], t),
                     watch, settings)
  {
    var raised := RaisedRow(watch, t);
    Evaluated(settled, settled + [raised], true, mails, t, watch, settings);
    Delivered(settled, raised, mails, t, watch, settings);
  }

  function ClosedAfterMail(watch: Watch, t: Time): Alert {
    ClosedRow(MarkedRow(RaisedRow(watch, t), Sent, t), RuleStep(watch, false, t).ev, t)
  }

  function FirstMail(watch: Watch, t: Time): Mail {
    Mail(Snapshot(0, RaisedRow(watch, t)), t)
  }

  /** Fire, mail, resolve. */
  lemma MailedThenResolved(watch: Watch, settings: Settings, t: Time)
    requires !SilencedState(watch, Firing, settings)
    ensures Possible(Idle([ClosedAfterMail(watch, t)], [FirstMail(watch, t)], t), watch, settings)
  {
    var sent := MarkedRow(RaisedRow(watch, t), Sent, t);
    assert ReachUnder(t, [], watch, settings) == Some(Idle([], [], t));
    FiredAndMailed([], [], t, watch, settings);
    assert [] + [sent] == [sent] && [] + [FirstMail(watch, t)] == [FirstMail(watch, t)];
    assert ActiveIndex([sent], watch.key) == Some(0);
    Evaluated([sent], [ClosedAfterMail(watch, t)], false, [FirstMail(watch, t)], t, watch, settings);
  }

  /**
   A filtered recovery turns the 'sent' row into 'suppressed', which the cooldown query no longer
   counts: the next alert of the key is mailed at once, whatever the cooldown.
   */
  lemma FilteredRecoveryForgetsTheMail(watch: Watch, settings: Settings, t: Time) returns (w: World)
    requires !SilencedState(watch, Firing, settings) && SilencedState(watch, Resolved, settings)
    ensures Possible(w, watch, settings)
    ensures |w.mails| == 2 && w.mails[0].at == w.mails[1].at == t
    ensures FiringMail(w.mails[0], watch) && FiringMail(w.mails[1], watch)
  {
    var closed, mail := ClosedAfterMail(watch, t), FirstMail(watch, t);
    var again := Mail(Snapshot(1, RaisedRow(watch, t)), t);
    MailedThenResolved(watch, settings, t);
    RecoverySuppressed(closed, [mail], t, watch, settings);
    var quiet := [MarkedRow(closed, Suppressed, t)];
    FiredAndMailed(quiet, [mail], t, watch, settings);
    w := Idle(quiet + [MarkedRow(RaisedRow(watch, t), Sent, t)], [mail] + [again], t);
    assert w.mails[0] == mail && w.mails[1] == again;
  }

  // ----- the failures that break it -----

  /** A firing mail that cannot be marked is sent again by the next pass. */
  lemma UnmarkedMailIsRepeated(watch: Watch, settings: Settings, t: Time) returns (w: World)
    requires !SilencedState(watch, Firing, settings) && Failure(Firing, Recording) in settings.failures
    ensures Possible(w, watch, settings)
    ensures |w.mails| == 2 && w.mails[0].at == w.mails[1].at == t
    ensures FiringMail(w.mails[0], watch) && FiringMail(w.mails[1], watch)
  {
    var raised, mail := RaisedRow(watch, t), FirstMail(watch, t);
    assert ReachUnder(t, [], watch, settings) == Some(Idle([], [], t));
    Evaluated([], [raised], true, [], t, watch, settings);
    assert [] + [raised] == [raised] && [] + [mail] == [mail];
    MailLeaves([], raised, [], t, watch, settings);
    w := Extend(World([raised], [mail.seen], Recording, [mail], t), GiveUp, watch, settings);
    assert w == Idle([raised], [mail], t);
    MailLeaves([], raised, [mail], t, watch, settings);
    w := World([raised], [mail.seen], Recording, [mail] + [mail], t);
    assert w.mails[0] == mail && w.mails[1] == mail;
  }

  /** The key's alert was mailed and resolved, and has fired again; one pass is about to handle both. */
  function Both(watch: Watch, t: Time): World {
    var rows := [ClosedAfterMail(watch, t), RaisedRow(watch, t)];
    World(rows, [Snapshot(0, rows[0]), Snapshot(1, rows[1])], Choosing, [FirstMail(watch, t)], t)
  }

  lemma BothInOnePass(watch: Watch, settings: Settings, t: Time)
    requires !SilencedState(watch, Firing, settings)
    ensures Possible(Both(watch, t), watch, settings)
  {
    var closed, raised, mail := ClosedAfterMail(watch, t), RaisedRow(watch, t), FirstMail(watch, t);
    var rows, one := [closed, raised], [closed];
    MailedThenResolved(watch, settings, t);
    assert Init(one) == [] && ActiveIndex(one, watch.key) == None && one + [raised] == rows;
    Evaluated(one, rows, true, [mail], t, watch, settings);
    assert Init(rows) == one && DueRows(one, BATCH) == [Snapshot(0, closed)];
    assert DueRows(rows, BATCH) == [Snapshot(0, closed), Snapshot(1, raised)];
    var w := Extend(Idle(rows, [mail], t), Load, watch, settings);
  }

  /** The recovery is broken off in some phase; a recovery mail may have left. */
  lemma RecoveryFails(watch: Watch, settings: Settings, t: Time, phase: Phase) returns (w: World)
    requires !SilencedState(watch, Resolved, settings) && !SilencedState(watch, Firing, settings)
    requires phase != Suppressing && Failure(Resolved, phase) in settings.failures
    ensures Possible(w, watch, settings)
    ensures w.rows == Both(watch, t).rows && w.queue == [Both(watch, t).queue[1]] && w.phase == Choosing && w.clock == t
    ensures w.mails != [] && w.mails[0] == FirstMail(watch, t)
  {
    BothInOnePass(watch, settings, t);
    w := Both(watch, t);
    if phase != Choosing {
      w := Extend(w, Choose(settings.smtp, settings.prefs, t), watch, settings);
      assert w.phase == Mailing;
    }
    if phase == Recording {
      w := Extend(w, Deliver(t), watch, settings);
    }
    w := Extend(w, GiveUp, watch, settings);
  }

  /** The recovery stays due, and the alert after it is mailed at once. */
  lemma FailedRecoveryForgetsTheMail(watch: Watch, settings: Settings, t: Time, phase: Phase) returns (w: World)
    requires !SilencedState(watch, Resolved, settings) && !SilencedState(watch, Firing, settings)
    requires phase != Suppressing && Failure(Resolved, phase) in settings.failures
    ensures Possible(w, watch, settings)
    ensures |w.mails| >= 2 && w.mails[0].at == Last(w.mails).at == t
    ensures FiringMail(w.mails[0], watch) && FiringMail(Last(w.mails), watch)
  {
    w := RecoveryFails(watch, settings, t, phase);
    w := Extend(w, Choose(settings.smtp, settings.prefs, t), watch, settings);
    assert w.phase == Mailing;
    w := Extend(w, Deliver(t), watch, settings);
  }

  // ----- the theorem -----

  /** In every run under the settings the key's firing mails are more than the cooldown apart. */
  ghost predicate AlwaysSpaced(watch: Watch, settings: Settings) {
    forall w: World | Possible(w, watch, settings) :: Spaced(w.mails, watch)
  }

  lemma SpacedUnlessHarmed(watch: Watch, settings: Settings)
    requires watch.cooldown > 0
    requires SilencedState(watch, Firing, settings) || (!SilencedState(watch, Resolved, settings) && Harmless(settings))
    ensures AlwaysSpaced(watch, settings)
  {
    forall w: World | Possible(w, watch, settings) ensures Spaced(w.mails, watch) {
      var start, run :| ReachUnder(start, run, watch, settings) == Some(w);
      if SilencedState(watch, Firing, settings) {
        SilencedStaysQuiet(start, run, watch, settings);
      } else {
        MailedRecoveriesArePermitted(start, run, watch, settings);
        ReachableFits(start, run, watch);
      }
    }
  }

  lemma TwoAtOnce(w: World, watch: Watch, settings: Settings, i: nat, j: nat)
    requires watch.cooldown > 0 && Possible(w, watch, settings)
    requires i < j < |w.mails| && w.mails[i].at == w.mails[j].at
    requires FiringMail(w.mails[i], watch) && FiringMail(w.mails[j], watch)
    ensures !AlwaysSpaced(watch, settings)
  {
    assert !Spaced(w.mails, watch);
  }

  /**
   The cooldown holds exactly when nothing of the key is mailed, or its recoveries are mailed too and none of the
   failures that may befall it is harmful.
   */
  lemma SpacedIffNothingForgets(watch: Watch, settings: Settings)
    requires watch.cooldown > 0
    ensures AlwaysSpaced(watch, settings) <==>
              SilencedState(watch, Firing, settings)
              || (!SilencedState(watch, Resolved, settings) && Harmless(settings))
  {
    if SilencedState(watch, Firing, settings) {
      SpacedUnlessHarmed(watch, settings);
    } else if SilencedState(watch, Resolved, settings) {
      var w := FilteredRecoveryForgetsTheMail(watch, settings, 0);
      TwoAtOnce(w, watch, settings, 0, 1);
    } else if Harmless(settings) {
      SpacedUnlessHarmed(watch, settings);
    } else {
      HarmBreaksSpacing(watch, settings);
    }
  }

  lemma HarmBreaksSpacing(watch: Watch, settings: Settings)
    requires watch.cooldown > 0 && !SilencedState(watch, Firing, settings) && !SilencedState(watch, Resolved, settings)
    requires !Harmless(settings)
    ensures !AlwaysSpaced(watch, settings)
  {
    var f :| f in settings.failures && Harmful(f);
    if f.state == Firing {
      var w := UnmarkedMailIsRepeated(watch, settings, 0);
      TwoAtOnce(w, watch, settings, 0, 1);
    } else {
      assert f == Failure(Resolved, f.phase);
      var w := FailedRecoveryForgetsTheMail(watch, settings, 0, f.phase);
      TwoAtOnce(w, watch, settings, 0, |w.mails| - 1);
    }
  }

  /** With no harmful failures, the settings alone decide. */
  lemma SpacedIffRecoveriesAreMailedToo(watch: Watch, settings: Settings)
    requires watch.cooldown > 0 && Harmless(settings)
    ensures AlwaysSpaced(watch, settings) <==>
              (SilencedState(watch, Resolved, settings) ==> SilencedState(watch, Firing, settings))
  {
    SpacedIffNothingForgets(watch, settings);
  }
}
