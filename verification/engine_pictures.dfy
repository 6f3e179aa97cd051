/**
 What one evaluated report says about each thing it monitors, column by column: for an entry with a name of its
 own, exactly when its alert is active and what the row shows; and what happens to the alerts of things the
 report no longer mentions.
 */
module EnginePictures {
  import opened Prelude
  import opened Alerts
  import opened AlertRuns
  import opened Engines
  import opened EngineTheorems

  /** No other entry of the list has the property. */
  ghost predicate Only<T>(items: seq<T>, x: T, p: T -> bool) {
    x in items && p(x) && forall y | y in items && p(y) :: y == x
  }

  // ----- things the report mentions -----

  /** A service whose state is unknown keeps its alert; otherwise it is active exactly if failed or inactive. */
  lemma ServiceAlertFollowsItsState(rows: seq<Alert>, report: Report, cfg: Config, now: Time, s: Service)
    requires WellFormed(rows) && Only(report.services, s, (t: Service) => t.name == s.name)
    ensures var key := Key(report.agent, "systemd_unavailable", s.name);
            IsActive(Evaluated(rows, report, cfg, now), key) <==>
              if s.error != "" || s.activeState == "" || s.activeState == "unknown" then IsActive(rows, key)
              else s.activeState == "failed" || s.activeState == "inactive"
  {
    ReportDecidesItsAlerts(rows, report, cfg, now, Key(report.agent, "systemd_unavailable", s.name));
  }

  lemma ContainerAlertsFollowItsState(rows: seq<Alert>, report: Report, cfg: Config, now: Time, c: Container)
    requires WellFormed(rows) && Only(report.docker.containers, c, (d: Container) => d.name == c.name)
    ensures var after := Evaluated(rows, report, cfg, now);
            && (IsActive(after, Key(report.agent, "docker_stopped", c.name)) <==> c.state != "running")
            && (IsActive(after, Key(report.agent, "docker_unhealthy", c.name)) <==> c.health == "unhealthy")
  {
    ReportDecidesItsAlerts(rows, report, cfg, now, Key(report.agent, "docker_stopped", c.name));
    ReportDecidesItsAlerts(rows, report, cfg, now, Key(report.agent, "docker_unhealthy", c.name));
  }

  /** A check with no certificate to speak of keeps a certificate alert, unless it is plain HTTP. */
  lemma CheckAlertsFollowItsResult(rows: seq<Alert>, report: Report, cfg: Config, now: Time, c: Check)
    requires WellFormed(rows) && Only(report.checks, c, (d: Check) => d.name == c.name)
    ensures var after, tls := Evaluated(rows, report, cfg, now), Key(report.agent, "tls_expiring", c.name);
            && (IsActive(after, Key(report.agent, "http_failed", c.name)) <==> !c.ok)
            && (IsActive(after, tls) <==>
                  if c.tlsDaysLeft.Some? then c.tlsDaysLeft.value <= cfg.tlsWarningDays
                  else IsActive(rows, tls) && !("http://" <= c.url))
  {
    ReportDecidesItsAlerts(rows, report, cfg, now, Key(report.agent, "http_failed", c.name));
    ReportDecidesItsAlerts(rows, report, cfg, now, Key(report.agent, "tls_expiring", c.name));
  }

  // ----- things it does not mention -----

  lemma GoneMountEndsItsAlerts(rows: seq<Alert>, report: Report, cfg: Config, now: Time, name: string)
    requires WellFormed(rows)
    requires forall f | f in report.filesystems :: f.mountpoint != name || f.fsType == "squashfs"
    ensures var after := Evaluated(rows, report, cfg, now);
            && !IsActive(after, Key(report.agent, "disk_warning", name))
            && !IsActive(after, Key(report.agent, "disk_critical", name))
  {
    ReportDecidesItsAlerts(rows, report, cfg, now, Key(report.agent, "disk_warning", name));
    ReportDecidesItsAlerts(rows, report, cfg, now, Key(report.agent, "disk_critical", name));
  }

  lemma GoneServiceEndsItsAlert(rows: seq<Alert>, report: Report, cfg: Config, now: Time, name: string)
    requires WellFormed(rows) && forall s | s in report.services :: s.name != name
    ensures !IsActive(Evaluated(rows, report, cfg, now), Key(report.agent, "systemd_unavailable", name))
  {
    ReportDecidesItsAlerts(rows, report, cfg, now, Key(report.agent, "systemd_unavailable", name));
  }

  lemma GoneCheckEndsItsAlerts(rows: seq<Alert>, report: Report, cfg: Config, now: Time, name: string)
    requires WellFormed(rows) && forall c | c in report.checks :: c.name != name
    ensures var after := Evaluated(rows, report, cfg, now);
            && !IsActive(after, Key(report.agent, "http_failed", name))
            && !IsActive(after, Key(report.agent, "tls_expiring", name))
  {
    ReportDecidesItsAlerts(rows, report, cfg, now, Key(report.agent, "http_failed", name));
    ReportDecidesItsAlerts(rows, report, cfg, now, Key(report.agent, "tls_expiring", name));
  }

  /** A container that is gone ends its alerts, unless Docker is monitored and cannot be reached. */
  lemma GoneContainerEndsItsAlerts(rows: seq<Alert>, report: Report, cfg: Config, now: Time, name: string, rule: string)
    requires WellFormed(rows) && (rule == "docker_stopped" || rule == "docker_unhealthy")
    requires forall c | c in report.docker.containers :: c.name != name
    ensures IsActive(Evaluated(rows, report, cfg, now), Key(report.agent, rule, name)) <==>
              IsActive(rows, Key(report.agent, rule, name)) && report.docker.enabled && !report.docker.available
  {
    ReportDecidesItsAlerts(rows, report, cfg, now, Key(report.agent, rule, name));
  }

  // ----- what an active row shows -----

  /** The three columns an evaluation writes into an active row. */
  datatype Shown = Shown(severity: Severity, value: real, threshold: real)

  function ShownIn(a: Alert): Shown {
    Shown(a.severity, a.value, a.threshold)
  }

  function ShownBy(ev: Evaluation): Shown {
    Shown(ev.severity, ev.value, ev.threshold)
  }

  function Indicator(b: bool): real {
    if b then 1.0 else 0.0
  }

  /** What the report has to show for an alert of this rule and resource. */
  ghost predicate InReport(shown: Shown, rule: string, resource: string, report: Report, cfg: Config) {
    match rule
    case "cpu_high" => shown == Shown(Critical, report.cpu, cfg.cpuThreshold)
    case "memory_high" => shown == Shown(Critical, report.memory, cfg.memoryThreshold)
    case "disk_warning" =>
      exists f :: f in report.filesystems && f.mountpoint == resource
                  && shown == Shown(Warning, f.used, cfg.diskWarning)
    case "disk_critical" =>
      exists f :: f in report.filesystems && f.mountpoint == resource
                  && shown == Shown(Critical, f.used, cfg.diskCritical)
    case "systemd_unavailable" =>
      exists s :: s in report.services && s.name == resource
                  && shown == Shown(Critical, Indicator(s.activeState == "failed" || s.activeState == "inactive"), 1.0)
    case "docker_stopped" =>
      exists c :: c in report.docker.containers && c.name == resource
                  && shown == Shown(Critical, Indicator(c.state != "running"), 1.0)
    case "docker_unhealthy" =>
      exists c :: c in report.docker.containers && c.name == resource
                  && shown == Shown(Critical, Indicator(c.health == "unhealthy"), 1.0)
    case "http_failed" =>
      exists c :: c in report.checks && c.name == resource && shown == Shown(Critical, c.statusCode as real, 399.0)
    case "tls_expiring" =>
      exists c :: c in report.checks && c.name == resource && c.tlsDaysLeft.Some?
                  && var days := c.tlsDaysLeft.value;
                  shown == Shown(if days <= cfg.tlsCriticalDays then Critical else Warning, days, cfg.tlsWarningDays)
    case _ => true
  }

  ghost predicate AllInReport(rules: seq<Evaluation>, report: Report, cfg: Config) {
    forall ev | ev in rules :: InReport(ShownBy(ev), ev.key.rule, ev.key.resource, report, cfg)
  }

  lemma {:induction false} EachInReport<T>(items: seq<T>, rulesOf: T -> seq<Evaluation>, report: Report, cfg: Config)
    requires forall x | x in items :: AllInReport(rulesOf(x), report, cfg)
    ensures AllInReport(Each(items, rulesOf), report, cfg)
  {
    if items != [] {
      assert Last(items) in items && forall x | x in Init(items) :: x in items;
      EachInReport(Init(items), rulesOf, report, cfg);
    }
  }

  lemma FilesystemRulesInReport(report: Report, cfg: Config)
    ensures AllInReport(Each(report.filesystems, f => FilesystemRules(report.agent, f, cfg)), report, cfg)
  {
    forall f | f in report.filesystems ensures AllInReport(FilesystemRules(report.agent, f, cfg), report, cfg) {
    }
    EachInReport(report.filesystems, f => FilesystemRules(report.agent, f, cfg), report, cfg);
  }

  lemma ServiceRulesInReport(report: Report, cfg: Config)
    ensures AllInReport(Each(report.services, s => ServiceRules(report.agent, s)), report, cfg)
  {
    forall s | s in report.services ensures AllInReport(ServiceRules(report.agent, s), report, cfg) {
    }
    EachInReport(report.services, s => ServiceRules(report.agent, s), report, cfg);
  }

  lemma ContainerRulesInReport(report: Report, cfg: Config)
    ensures AllInReport(Each(report.docker.containers, c => ContainerRules(report.agent, c)), report, cfg)
  {
    forall c | c in report.docker.containers ensures AllInReport(ContainerRules(report.agent, c), report, cfg) {
    }
    EachInReport(report.docker.containers, c => ContainerRules(report.agent, c), report, cfg);
  }

  lemma CheckRulesInReport(report: Report, cfg: Config)
    ensures AllInReport(Each(report.checks, c => CheckRules(report.agent, c, cfg)), report, cfg)
  {
    forall c | c in report.checks ensures AllInReport(CheckRules(report.agent, c, cfg), report, cfg) {
    }
    EachInReport(report.checks, c => CheckRules(report.agent, c, cfg), report, cfg);
  }

  lemma InReportConcat(a: seq<Evaluation>, b: seq<Evaluation>, report: Report, cfg: Config)
    requires AllInReport(a, report, cfg) && AllInReport(b, report, cfg)
    ensures AllInReport(a + b, report, cfg)
  {
  }

  lemma RulesAreInReport(report: Report, cfg: Config)
    ensures AllInReport(ReportRules(report, cfg), report, cfg)
  {
    var host := HostRules(report, cfg);
    var disks := Each(report.filesystems, f => FilesystemRules(report.agent, f, cfg));
    var services := Each(report.services, s => ServiceRules(report.agent, s));
    var containers := Each(report.docker.containers, c => ContainerRules(report.agent, c));
    var checks := Each(report.checks, c => CheckRules(report.agent, c, cfg));
    FilesystemRulesInReport(report, cfg);
    ServiceRulesInReport(report, cfg);
    ContainerRulesInReport(report, cfg);
    CheckRulesInReport(report, cfg);
    InReportConcat(host, disks, report, cfg);
    InReportConcat(host + disks, services, report, cfg);
    InReportConcat(host + disks + services, containers, report, cfg);
    InReportConcat(host + disks + services + containers, checks, report, cfg);
  }

  /** A rule writes its three columns into the key's active row. */
  lemma RuleWritesItsRow(rows: seq<Alert>, ev: Evaluation, now: Time, id: nat)
    requires WellFormed(rows) && ActiveIndex(Applied(rows, ev, now), ev.key) == Some(id)
    ensures id < |Applied(rows, ev, now)| && ShownIn(Applied(rows, ev, now)[id]) == ShownBy(ev)
  {
    OwnStepDecidesActive(rows, ev, now);
  }

  lemma {:induction false} WrittenByARule(rows: seq<Alert>, rules: seq<Evaluation>, now: Time, key: Key, id: nat)
    requires WellFormed(rows) && Mentions(rules, key) && ActiveIndex(ApplyAll(rows, rules, now), key) == Some(id)
    ensures exists ev :: ev in rules && ev.key == key && ShownIn(ApplyAll(rows, rules, now)[id]) == ShownBy(ev)
  {
    var before, last := ApplyAll(rows, Init(rules), now), Last(rules);
    LastRuleDecides(rows, Init(rules), now, key);
    if last.key == key {
      RuleWritesItsRow(before, last, now, id);
      assert last in rules;
    } else {
      OtherStepsKeepActive(before, Evaluate(last, now), key);
      OtherStepsKeepRows(before, Evaluate(last, now), key, id);
      MentionedEarlier(rules, key);
      WrittenByARule(rows, Init(rules), now, key, id);
      var ev :| ev in Init(rules) && ev.key == key && ShownIn(before[id]) == ShownBy(ev);
      assert ev in rules;
    }
  }

  lemma MentionedEarlier(rules: seq<Evaluation>, key: Key)
    requires Mentions(rules, key) && Last(rules).key != key
    ensures Mentions(Init(rules), key)
  {
    var k :| 0 <= k < |rules| && rules[k].key == key;
    assert Init(rules)[k].key == key;
  }

  /** After a report, the active row of anything it speaks of shows the severity, value and threshold of its entry. */
  lemma ActiveRowsShowTheReport(rows: seq<Alert>, report: Report, cfg: Config, now: Time, key: Key, id: nat)
    requires WellFormed(rows) && key.agent == report.agent && Verdict(report, cfg, key).Some?
    requires ActiveIndex(Evaluated(rows, report, cfg, now), key) == Some(id)
    ensures InReport(ShownIn(Evaluated(rows, report, cfg, now)[id]), key.rule, key.resource, report, cfg)
  {
    var rules := ReportRules(report, cfg);
    var applied := ApplyAll(rows, rules, now);
    RulesCarryVerdict(report, cfg, key);
    LastRuleMentions(rules, key);
    RulesAreInReport(report, cfg);
    SweepKeepsMentioned(applied, report, rules, now, key);
    WrittenByARule(rows, rules, now, key, id);
  }

  lemma SweepKeepsMentioned(rows: seq<Alert>, report: Report, rules: seq<Evaluation>, now: Time, key: Key)
    requires Mentions(rules, key)
    ensures ActiveIndex(Swept(rows, report, rules, now), key) == ActiveIndex(rows, key)
    ensures forall i | 0 <= i < |rows| && rows[i].key == key :: Swept(rows, report, rules, now)[i] == rows[i]
  {
    SameActive(rows, Swept(rows, report, rules, now), key);
  }

  /** The row of an offline agent is critical, and shows the silence and the limit in seconds. */
  lemma OfflineRowShowsTheSilence(rows: seq<Alert>, listed: LastSeen, now: Time, cfg: Config, id: nat)
    requires WellFormed(rows) && cfg.offlineAfter >= 0 && now - listed.at > cfg.offlineAfter
    requires ActiveIndex(Applied(rows, OfflineRule(listed.agent, now - listed.at, cfg), now),
                         Key(listed.agent, "agent_offline", "")) == Some(id)
    ensures var after := Applied(rows, OfflineRule(listed.agent, now - listed.at, cfg), now);
            && id < |after| && after[id].severity == Critical
            && after[id].value * SECOND as real == (now - listed.at) as real
            && after[id].threshold * SECOND as real == cfg.offlineAfter as real
  {
    var rule := OfflineRule(listed.agent, now - listed.at, cfg);
    OfflineMeansSilent(listed.agent, now - listed.at, cfg);
    RuleWritesItsRow(rows, rule, now, id);
  }

  // ----- what silence leaves in a row -----

  lemma {:induction false} UnmentionedRowStays(rows: seq<Alert>, rules: seq<Evaluation>, now: Time, key: Key, id: nat)
    requires WellFormed(rows) && ActiveIndex(rows, key) == Some(id) && !Mentions(rules, key)
    ensures ActiveIndex(ApplyAll(rows, rules, now), key) == Some(id)
    ensures SameSummary(rows[id], ApplyAll(rows, rules, now)[id])
  {
    if rules != [] {
      assert forall k | 0 <= k < |Init(rules)| :: Init(rules)[k] == rules[k];
      UnmentionedRowStays(rows, Init(rules), now, key, id);
      var before := ApplyAll(rows, Init(rules), now);
      OtherStepsKeepActive(before, Evaluate(Last(rules), now), key);
      OtherStepsKeepRows(before, Evaluate(Last(rules), now), key, id);
    }
  }

  /** An alert that a report's silence settles is closed at that time with the value zero, and is else as it was. */
  lemma SilencedRowEndsAtZero(rows: seq<Alert>, report: Report, cfg: Config, now: Time, key: Key, id: nat)
    requires WellFormed(rows) && ActiveIndex(rows, key) == Some(id) && key.agent == report.agent
    requires Verdict(report, cfg, key) == None && SilenceResolves(report, key)
    ensures var after := Evaluated(rows, report, cfg, now);
            && id < |after|
            && var a, b := rows[id], after[id];
            && b.state == Resolved && b.resolvedAt == Some(now) && b.value == 0.0
            && b.key == a.key && b.severity == a.severity && b.threshold == a.threshold
            && b.startedAt == a.startedAt && b.firingAt == a.firingAt && b.violations == a.violations
  {
    var rules := ReportRules(report, cfg);
    RulesCarryVerdict(report, cfg, key);
    LastRuleMentions(rules, key);
    UnmentionedRowStays(rows, rules, now, key, id);
  }

  // ----- an evaluation that stops -----

  /** An evaluation stopped after k rules has decided exactly the alerts those rules are about. */
  lemma StoppedReportDecidesWhatItReached(
      rows: seq<Alert>, report: Report, cfg: Config, now: Time, k: nat, key: Key)
    requires WellFormed(rows) && k <= |ReportRules(report, cfg)|
    ensures IsActive(EvaluatedUntil(rows, report, cfg, now, k), key) <==>
              match LastRule(ReportRules(report, cfg)[..k], key)
              case None => IsActive(rows, key)
              case Some(ev) => ev.violated
  {
    assert ReportRules(report, cfg)[..|ReportRules(report, cfg)|] == ReportRules(report, cfg);
    LastRuleDecides(rows, ReportRules(report, cfg)[..k], now, key);
  }
}
