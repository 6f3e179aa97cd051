/**
 The audit log is enough to know every alert's current state: replaying the entries that
 name a key, in order, is always a legal lifecycle and ends in the key's present status.
 */
module AuditReplay {
  import opened Prelude
  import opened Alerts
  import opened AlertRuns

  datatype Status = Absent | Waiting | Raised

  function StatusOf(rows: seq<Alert>, key: Key): Status {
    match ActiveIndex(rows, key)
    case None => Absent
    case Some(id) => if rows[id].state == Firing then Raised else Waiting
  }

  /** The legal lifecycle; None is an illegal step. */
  function Advance(status: Status, transition: Transition): Option<Status> {
    match (status, transition)
    case (Absent, Opened) => Some(Waiting)
    case (Absent, Fired) => Some(Raised)
    case (Waiting, Fired) => Some(Raised)
    case (Raised, Escalated) => Some(Raised)
    case (Waiting, Closed) => Some(Absent)
    case (Raised, Closed) => Some(Absent)
    case _ => None
  }

  /** Read the log for one target. */
  function ReadBack(log: seq<AuditEntry>, target: string): Option<Status> {
    if log == [] then Some(Absent)
    else
      var earlier := ReadBack(Init(log), target);
      if earlier.Some? && Last(log).RuleEntry? && Last(log).target == target then
        Advance(earlier.value, Last(log).transition)
      else earlier
  }

  // ----- audit targets name keys uniquely -----

  /** Agent ids and rule names contain no slash; resources (mount points) may. */
  predicate Plain(key: Key) {
    '/' !in key.agent && '/' !in key.rule
  }

  function BeforeSlash(s: string): string {
    if s == "" || s[0] == '/' then "" else [s[0]] + BeforeSlash(s[1..])
  }

  lemma {:induction false} BeforeSlashFinds(p: string, x: string)
    requires '/' !in p
    ensures BeforeSlash(p) == p && BeforeSlash(p + "/" + x) == p
  {
    if p != "" {
      BeforeSlashFinds(p[1..], x);
      assert (p + "/" + x)[1..] == p[1..] + "/" + x;
      assert forall c | c in p[1..] :: c in p;
    }
  }

  /** The key an audit target was written for. */
  function KeyOf(target: string): Key {
    var agent := BeforeSlash(target);
    var rest := if |agent| < |target| then target[|agent| + 1..] else "";
    var rule := BeforeSlash(rest);
    Key(agent, rule, if |rule| < |rest| then rest[|rule| + 1..] else "")
  }

  lemma TargetRoundTrip(key: Key)
    requires Plain(key)
    ensures KeyOf(Target(key)) == key
  {
    var rest := key.rule + if key.resource == "" then "" else "/" + key.resource;
    assert Target(key) == key.agent + "/" + rest;
    BeforeSlashFinds(key.agent, rest);
    BeforeSlashFinds(key.rule, key.resource);
    assert key.resource == "" ==> rest == key.rule;
    assert key.resource != "" ==> rest == key.rule + "/" + key.resource;
  }

  /** Without that, two keys can share a target: the rule "x/y" alone, and "x" on the resource "y". */
  lemma SlashedRuleSharesTarget()
    ensures Target(Key("a", "x/y", "")) == Target(Key("a", "x", "y"))
  {
    assert Target(Key("a", "x/y", "")) == "a/x/y" && Target(Key("a", "x", "y")) == "a/x/y";
  }

  // ----- replay -----

  ghost predicate AllPlain(run: seq<Step>) {
    forall step | step in run && step.Evaluate? :: Plain(step.ev.key)
  }

  lemma EvaluationAdvances(rows: seq<Alert>, ev: Evaluation, now: Time)
    requires WellFormed(rows)
    ensures var after := StatusOf(Applied(rows, ev, now), ev.key);
            match TransitionOf(rows, ev, now)
            case None => after == StatusOf(rows, ev.key)
            case Some(t) => Advance(StatusOf(rows, ev.key), t) == Some(after)
  {
    OwnStepDecidesActive(rows, ev, now);
    var after := Applied(rows, ev, now);
    match ActiveIndex(rows, ev.key)
    case None =>
      assert ev.violated ==> after[|rows|] == OpenedRow(ev, now);
    case Some(id) =>
      assert ev.violated ==> after[id] == ContinuedRow(rows[id], ev, now);
  }

  lemma OtherStepsKeepStatus(rows: seq<Alert>, step: Step, key: Key)
    requires WellFormed(rows)
    requires step.Evaluate? ==> step.ev.key != key
    ensures StatusOf(StepRows(rows, step), key) == StatusOf(rows, key)
  {
    OtherStepsKeepActive(rows, step, key);
    if ActiveIndex(rows, key).Some? {
      OtherStepsKeepRows(rows, step, key, ActiveIndex(rows, key).value);
    }
  }

  lemma ReadOneMore(log: seq<AuditEntry>, entry: AuditEntry, target: string)
    requires ReadBack(log, target).Some?
    ensures ReadBack(log + [entry], target) ==
            if entry.RuleEntry? && entry.target == target
            then Advance(ReadBack(log, target).value, entry.transition) else ReadBack(log, target)
  {
    assert Init(log + [entry]) == log && Last(log + [entry]) == entry;
  }

  lemma ReadMore(log: seq<AuditEntry>, added: seq<AuditEntry>, target: string)
    requires |added| <= 1 && ReadBack(log, target).Some?
    ensures ReadBack(log + added, target) ==
            if added != [] && added[0].RuleEntry? && added[0].target == target
            then Advance(ReadBack(log, target).value, added[0].transition) else ReadBack(log, target)
  {
    if added == [] {
      assert log + added == log;
    } else {
      assert added == [added[0]];
      ReadOneMore(log, added[0], target);
    }
  }

  /** Audit replay: for every run the log of a key is a legal lifecycle that ends in its current status. */
  lemma {:induction false} LogReadsBack(run: seq<Step>, key: Key)
    requires AllPlain(run) && Plain(key)
    ensures ReadBack(AuditTrail(run), Target(key)) == Some(StatusOf(Replay(run), key))
  {
    if run != [] {
      var step, rows, log := Last(run), Replay(Init(run)), AuditTrail(Init(run));
      LogReadsBack(Init(run), key);
      ReachableIsWellFormed(Init(run));
      var added := StepAudit(rows, step);
      ReadMore(log, added, Target(key));
      if step.Evaluate? && step.ev.key == key {
        EvaluationAdvances(rows, step.ev, step.now);
      } else {
        OtherStepsKeepStatus(rows, step, key);
        if step.Evaluate? {
          TargetRoundTrip(step.ev.key);
          TargetRoundTrip(key);
        }
      }
    }
  }

  /** An alert row resolves at most once, so its key's log never closes twice in a row. */
  lemma {:induction false} ClosedThenOpened(run: seq<Step>, key: Key, step: Step)
    requires AllPlain(run + [step]) && Plain(key)
    requires ReadBack(AuditTrail(run), Target(key)) == Some(Absent)
    requires step.Evaluate? && step.ev.key == key
    ensures StepAudit(Replay(run), step) ==
            if !step.ev.violated then []
            else [RuleEntry(if Reached(step.ev, 1, 0) then Fired else Opened, Target(key), step.ev.severity)]
  {
    assert forall s | s in run :: s in run + [step];
    LogReadsBack(run, key);
  }
}
