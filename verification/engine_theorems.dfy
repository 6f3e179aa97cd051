/**
 What one report does to its agent's alerts, whatever was active before: the incremental
 rule steps and the sweep of missing resources amount to a declarative picture of the report.
 */
module EngineTheorems {
  import opened Prelude
  import opened Alerts
  import opened AlertRuns
  import opened Engines

  predicate IsActive(rows: seq<Alert>, key: Key) {
    ActiveIndex(rows, key).Some?
  }

  // ----- one rule, many rules -----

  /** A rule step decides its own key and leaves every other alone. */
  lemma RuleDecidesItsKey(rows: seq<Alert>, ev: Evaluation, now: Time, key: Key)
    requires WellFormed(rows)
    ensures IsActive(Applied(rows, ev, now), key) <==> if key == ev.key then ev.violated else IsActive(rows, key)
  {
    if key == ev.key {
      OwnStepDecidesActive(rows, ev, now);
    } else {
      OtherStepsKeepActive(rows, Evaluate(ev, now), key);
    }
  }

  function LastRule(rules: seq<Evaluation>, key: Key): Option<Evaluation> {
    if rules == [] then None
    else if Last(rules).key == key then Some(Last(rules))
    else LastRule(Init(rules), key)
  }

  lemma {:induction false} LastRuleDecides(rows: seq<Alert>, rules: seq<Evaluation>, now: Time, key: Key)
    requires WellFormed(rows)
    ensures WellFormed(ApplyAll(rows, rules, now))
    ensures IsActive(ApplyAll(rows, rules, now), key) <==>
            match LastRule(rules, key) case None => IsActive(rows, key) case Some(ev) => ev.violated
  {
    if rules != [] {
      LastRuleDecides(rows, Init(rules), now, key);
      var before := ApplyAll(rows, Init(rules), now);
      StepKeepsWellFormed(before, Evaluate(Last(rules), now));
      RuleDecidesItsKey(before, Last(rules), now, key);
    }
  }

  lemma {:induction false} LastRuleConcat(a: seq<Evaluation>, b: seq<Evaluation>, key: Key)
    ensures LastRule(a + b, key) == if LastRule(b, key).Some? then LastRule(b, key) else LastRule(a, key)
  {
    if b == [] {
      assert a + b == a;
    } else {
      assert Init(a + b) == a + Init(b);
      LastRuleConcat(a, Init(b), key);
    }
  }

  lemma {:induction false} LastRuleMentions(rules: seq<Evaluation>, key: Key)
    ensures LastRule(rules, key).Some? <==> Mentions(rules, key)
  {
    if rules != [] {
      LastRuleMentions(Init(rules), key);
      assert Mentions(Init(rules), key) ==> Mentions(rules, key) by {
        if k :| 0 <= k < |Init(rules)| && Init(rules)[k].key == key {
          assert rules[k].key == key;
        }
      }
    }
  }

  lemma {:induction false} LastRuleEach<T>(items: seq<T>, rulesOf: T -> seq<Evaluation>, p: T -> bool, key: Key)
    requires forall x :: x in items ==> (LastRule(rulesOf(x), key).Some? <==> p(x))
    ensures LastRule(Each(items, rulesOf), key) ==
            match FindLast(items, p) case None => None case Some(x) => LastRule(rulesOf(x), key)
  {
    if items != [] {
      LastRuleEach(Init(items), rulesOf, p, key);
      LastRuleConcat(Each(Init(items), rulesOf), rulesOf(Last(items)), key);
      assert Last(items) in items;
    }
  }

  // ----- the sweep -----

  lemma SweepResolvesSilence(rows: seq<Alert>, report: Report, rules: seq<Evaluation>, now: Time, key: Key)
    requires key.agent == report.agent
    ensures IsActive(Swept(rows, report, rules, now), key) <==>
            IsActive(rows, key) && (Mentions(rules, key) || !SilenceResolves(report, key))
  {
    var after := Swept(rows, report, rules, now);
    if IsActive(after, key) {
      assert IsActiveFor(rows[ActiveIndex(after, key).value], key);
    }
    if IsActive(rows, key) && (Mentions(rules, key) || !SilenceResolves(report, key)) {
      assert IsActiveFor(after[ActiveIndex(rows, key).value], key);
    }
  }

  // ----- what a report says about a key -----

  /** The report's verdict on a key: violated, not violated, or silent. */
  function Verdict(report: Report, cfg: Config, key: Key): Option<bool> {
    match key.rule
    case "cpu_high" => if key.resource == "" then Some(report.cpu > cfg.cpuThreshold) else None
    case "memory_high" => if key.resource == "" then Some(report.memory > cfg.memoryThreshold) else None
    case "agent_offline" => if key.resource == "" then Some(false) else None
    case "disk_warning" =>
      (match MountNamed(report, key.resource)
       case None => None
       case Some(f) => Some(f.used > cfg.diskWarning && f.used <= cfg.diskCritical))
    case "disk_critical" =>
      (match MountNamed(report, key.resource)
       case None => None
       case Some(f) => Some(f.used > cfg.diskCritical))
    case "systemd_unavailable" =>
      (match KnownServiceNamed(report, key.resource)
       case None => None
       case Some(s) => Some(IsDown(s)))
    case "docker_stopped" =>
      (match ContainerNamed(report, key.resource)
       case None => None
       case Some(c) => Some(c.state != "running"))
    case "docker_unhealthy" =>
      (match ContainerNamed(report, key.resource)
       case None => None
       case Some(c) => Some(c.health == "unhealthy"))
    case "http_failed" =>
      (match CheckNamed(report, key.resource)
       case None => None
       case Some(c) => Some(!c.ok))
    case "tls_expiring" =>
      (match CertificateNamed(report, key.resource)
       case None => None
       case Some(c) => Some(c.tlsDaysLeft.Some? && c.tlsDaysLeft.value <= cfg.tlsWarningDays))
    case _ => None
  }

  function MountNamed(report: Report, name: string): Option<Filesystem> {
    FindLast(report.filesystems, (f: Filesystem) => Monitorable(f) && f.mountpoint == name)
  }

  function KnownServiceNamed(report: Report, name: string): Option<Service> {
    FindLast(report.services, (s: Service) => Known(s) && s.name == name)
  }

  function ContainerNamed(report: Report, name: string): Option<Container> {
    FindLast(report.docker.containers, (c: Container) => c.name == name)
  }

  function CertificateNamed(report: Report, name: string): Option<Check> {
    FindLast(report.checks, (c: Check) => c.tlsDaysLeft.Some? && c.name == name)
  }

  function ViolatedBy(rule: Option<Evaluation>): Option<bool> {
    if rule.None? then None else Some(rule.value.violated)
  }

  lemma LastRulePair(a: Evaluation, b: Evaluation, key: Key)
    ensures LastRule([], key) == None
    ensures LastRule([a], key) == if a.key == key then Some(a) else None
    ensures LastRule([a, b], key) == if b.key == key then Some(b) else LastRule([a], key)
  {
    assert Init([a]) == [] && Init([a, b]) == [a];
  }

  lemma FilesystemVerdict(report: Report, cfg: Config, key: Key)
    requires key.agent == report.agent
    ensures var rules := Each(report.filesystems, f => FilesystemRules(report.agent, f, cfg));
            ViolatedBy(LastRule(rules, key)) ==
            if Section(key.rule) == 2 then Verdict(report, cfg, key) else None
  {
    var rulesOf := f => FilesystemRules(report.agent, f, cfg);
    var named := key.rule == "disk_warning" || key.rule == "disk_critical";
    var p := (f: Filesystem) => named && Monitorable(f) && f.mountpoint == key.resource;
    forall f | f in report.filesystems
      ensures ViolatedBy(LastRule(rulesOf(f), key)) ==
              if !p(f) then None
              else Some(f.used > (if key.rule == "disk_critical" then cfg.diskCritical else cfg.diskWarning)
                        && (key.rule == "disk_warning" ==> f.used <= cfg.diskCritical))
    {
      if Monitorable(f) {
        LastRulePair(rulesOf(f)[0], rulesOf(f)[1], key);
      }
    }
    LastRuleEach(report.filesystems, rulesOf, p, key);
    if named {
      SameFind(report.filesystems, p, (f: Filesystem) => Monitorable(f) && f.mountpoint == key.resource);
    }
  }

  lemma {:induction false} SameFind<T>(items: seq<T>, p: T -> bool, q: T -> bool)
    requires forall x | x in items :: p(x) == q(x)
    ensures FindLast(items, p) == FindLast(items, q)
  {
    if items != [] {
      assert Last(items) in items;
      SameFind(Init(items), p, q);
    }
  }

  lemma HostVerdict(report: Report, cfg: Config, key: Key)
    requires key.agent == report.agent
    ensures ViolatedBy(LastRule(HostRules(report, cfg), key)) ==
            if Section(key.rule) == 1 then Verdict(report, cfg, key) else None
  {
    var rules := HostRules(report, cfg);
    assert Init(rules) == [rules[0], rules[1]];
    LastRulePair(rules[0], rules[1], key);
  }

  lemma ServiceVerdict(report: Report, cfg: Config, key: Key)
    requires key.agent == report.agent
    ensures var rules := Each(report.services, s => ServiceRules(report.agent, s));
            ViolatedBy(LastRule(rules, key)) ==
            if Section(key.rule) == 3 then Verdict(report, cfg, key) else None
  {
    var rulesOf := s => ServiceRules(report.agent, s);
    var p := (s: Service) => key.rule == "systemd_unavailable" && Known(s) && s.name == key.resource;
    forall s | s in report.services
      ensures ViolatedBy(LastRule(rulesOf(s), key)) == if p(s) then Some(IsDown(s)) else None
    {
      if Known(s) {
        LastRulePair(rulesOf(s)[0], rulesOf(s)[0], key);
      }
    }
    LastRuleEach(report.services, rulesOf, p, key);
    if key.rule == "systemd_unavailable" {
      SameFind(report.services, p, (s: Service) => Known(s) && s.name == key.resource);
    }
  }

  lemma OneContainer(agent: string, c: Container, key: Key)
    requires key.agent == agent
    ensures ViolatedBy(LastRule(ContainerRules(agent, c), key)) ==
            if Section(key.rule) != 4 || c.name != key.resource then None
            else Some(if key.rule == "docker_stopped" then c.state != "running" else c.health == "unhealthy")
  {
    var rules := ContainerRules(agent, c);
    LastRulePair(rules[0], rules[1], key);
  }

  lemma ContainerVerdict(report: Report, cfg: Config, key: Key)
    requires key.agent == report.agent
    ensures var rules := Each(report.docker.containers, c => ContainerRules(report.agent, c));
            ViolatedBy(LastRule(rules, key)) ==
            if Section(key.rule) == 4 then Verdict(report, cfg, key) else None
  {
    var named := Section(key.rule) == 4;
    var p := (c: Container) => named && c.name == key.resource;
    forall c | c in report.docker.containers
      ensures LastRule(ContainerRules(report.agent, c), key).Some? <==> p(c)
    {
      OneContainer(report.agent, c, key);
    }
    LastRuleEach(report.docker.containers, c => ContainerRules(report.agent, c), p, key);
    if named {
      SameFind(report.docker.containers, p, (c: Container) => c.name == key.resource);
      var found := FindLast(report.docker.containers, p);
      if found.Some? {
        OneContainer(report.agent, found.value, key);
      }
    }
  }

  lemma OneCheck(agent: string, c: Check, cfg: Config, key: Key)
    requires key.agent == agent
    ensures ViolatedBy(LastRule(CheckRules(agent, c, cfg), key)) ==
            if Section(key.rule) != 5 || c.name != key.resource then None
            else if key.rule == "http_failed" then Some(!c.ok)
            else if c.tlsDaysLeft.Some? then Some(c.tlsDaysLeft.value <= cfg.tlsWarningDays)
            else None
  {
    var rules := CheckRules(agent, c, cfg);
    if c.tlsDaysLeft.Some? {
      assert rules == [rules[0], rules[1]];
      LastRulePair(rules[0], rules[1], key);
    } else {
      assert rules == [rules[0]];
      LastRulePair(rules[0], rules[0], key);
    }
  }

  /** Does the entry give a rule for the key? */
  function GivesCheckRule(key: Key): Check -> bool {
    (c: Check) => Section(key.rule) == 5 && (key.rule == "http_failed" || c.tlsDaysLeft.Some?) && c.name == key.resource
  }

  lemma CheckFound(report: Report, key: Key)
    ensures key.rule == "http_failed" ==>
              FindLast(report.checks, GivesCheckRule(key)) == CheckNamed(report, key.resource)
    ensures key.rule == "tls_expiring" ==>
              FindLast(report.checks, GivesCheckRule(key)) == CertificateNamed(report, key.resource)
  {
    if key.rule == "http_failed" {
      SameFind(report.checks, GivesCheckRule(key), (c: Check) => c.name == key.resource);
    } else if key.rule == "tls_expiring" {
      SameFind(report.checks, GivesCheckRule(key), (c: Check) => c.tlsDaysLeft.Some? && c.name == key.resource);
    }
  }

  lemma CheckVerdict(report: Report, cfg: Config, key: Key)
    requires key.agent == report.agent
    ensures var rules := Each(report.checks, c => CheckRules(report.agent, c, cfg));
            ViolatedBy(LastRule(rules, key)) ==
            if Section(key.rule) == 5 then Verdict(report, cfg, key) else None
  {
    var p := GivesCheckRule(key);
    forall c | c in report.checks
      ensures LastRule(CheckRules(report.agent, c, cfg), key).Some? <==> p(c)
    {
      OneCheck(report.agent, c, cfg, key);
    }
    LastRuleEach(report.checks, c => CheckRules(report.agent, c, cfg), p, key);
    CheckFound(report, key);
    var found := FindLast(report.checks, p);
    if found.Some? {
      OneCheck(report.agent, found.value, cfg, key);
    }
  }

  /** The list of the report a rule is about: host, file systems, services, containers or checks. */
  function Section(rule: string): nat {
    match rule
    case "cpu_high" => 1
    case "memory_high" => 1
    case "agent_offline" => 1
    case "disk_warning" => 2
    case "disk_critical" => 2
    case "systemd_unavailable" => 3
    case "docker_stopped" => 4
    case "docker_unhealthy" => 4
    case "http_failed" => 5
    case "tls_expiring" => 5
    case _ => 0
  }

  lemma LastOfFive(a: seq<Evaluation>, b: seq<Evaluation>, c: seq<Evaluation>, d: seq<Evaluation>, e: seq<Evaluation>,
                   key: Key, section: nat, verdict: Option<bool>)
    requires ViolatedBy(LastRule(a, key)) == if section == 1 then verdict else None
    requires ViolatedBy(LastRule(b, key)) == if section == 2 then verdict else None
    requires ViolatedBy(LastRule(c, key)) == if section == 3 then verdict else None
    requires ViolatedBy(LastRule(d, key)) == if section == 4 then verdict else None
    requires ViolatedBy(LastRule(e, key)) == if section == 5 then verdict else None
    requires section == 0 ==> verdict == None
    requires section <= 5
    ensures ViolatedBy(LastRule(a + b + c + d + e, key)) == verdict
  {
    LastRuleConcat(a, b, key);
    LastRuleConcat(a + b, c, key);
    LastRuleConcat(a + b + c, d, key);
    LastRuleConcat(a + b + c + d, e, key);
  }

  /** The rule list a report is turned into says of each key what the report says of it. */
  lemma RulesCarryVerdict(report: Report, cfg: Config, key: Key)
    requires key.agent == report.agent
    ensures ViolatedBy(LastRule(ReportRules(report, cfg), key)) == Verdict(report, cfg, key)
  {
    HostVerdict(report, cfg, key);
    FilesystemVerdict(report, cfg, key);
    ServiceVerdict(report, cfg, key);
    ContainerVerdict(report, cfg, key);
    CheckVerdict(report, cfg, key);
    LastOfFive(HostRules(report, cfg),
               Each(report.filesystems, f => FilesystemRules(report.agent, f, cfg)),
               Each(report.services, s => ServiceRules(report.agent, s)),
               Each(report.docker.containers, c => ContainerRules(report.agent, c)),
               Each(report.checks, c => CheckRules(report.agent, c, cfg)),
               key, Section(key.rule), Verdict(report, cfg, key));
  }

  // ----- the picture -----

  /**
   Report evaluation refines a declarative picture: after EvaluateReport, an alert of the agent is
   active exactly when the report says it is violated or, where the report is silent, when it was
   active before and silence does not settle it.
   */
  lemma ReportDecidesItsAlerts(rows: seq<Alert>, report: Report, cfg: Config, now: Time, key: Key)
    requires WellFormed(rows) && key.agent == report.agent
    ensures IsActive(Evaluated(rows, report, cfg, now), key) <==>
            match Verdict(report, cfg, key)
            case Some(violated) => violated
            case None => IsActive(rows, key) && !SilenceResolves(report, key)
  {
    var rules := ReportRules(report, cfg);
    RulesCarryVerdict(report, cfg, key);
    LastRuleDecides(rows, rules, now, key);
    LastRuleMentions(rules, key);
    SweepResolvesSilence(ApplyAll(rows, rules, now), report, rules, now, key);
  }

  // ----- corollaries -----

  /** No two entries of the list go by one name. */
  ghost predicate Distinct<T>(items: seq<T>, same: (T, T) -> bool) {
    forall i, j | 0 <= i < j < |items| :: !same(items[i], items[j])
  }

  ghost predicate DistinctMounts(report: Report) {
    Distinct(report.filesystems,
             (a: Filesystem, b: Filesystem) => Monitorable(a) && Monitorable(b) && a.mountpoint == b.mountpoint)
  }

  /** With distinct mounts, the active disk alerts are exactly the mounts over a limit, and never both kinds on one. */
  lemma DiskAlertsAreTheFullMounts(rows: seq<Alert>, report: Report, cfg: Config, now: Time, mount: string)
    requires WellFormed(rows) && DistinctMounts(report)
    ensures var after := Evaluated(rows, report, cfg, now);
            && (IsActive(after, Key(report.agent, "disk_critical", mount)) <==>
                  exists f :: f in report.filesystems && Monitorable(f) && f.mountpoint == mount
                              && f.used > cfg.diskCritical)
            && (IsActive(after, Key(report.agent, "disk_warning", mount)) <==>
                  exists f :: f in report.filesystems && Monitorable(f) && f.mountpoint == mount
                              && cfg.diskWarning < f.used <= cfg.diskCritical)
            && !(IsActive(after, Key(report.agent, "disk_critical", mount))
                 && IsActive(after, Key(report.agent, "disk_warning", mount)))
  {
    ReportDecidesItsAlerts(rows, report, cfg, now, Key(report.agent, "disk_critical", mount));
    ReportDecidesItsAlerts(rows, report, cfg, now, Key(report.agent, "disk_warning", mount));
    forall f | f in report.filesystems && Monitorable(f) && f.mountpoint == mount
      ensures MountNamed(report, mount) == Some(f)
    {
      var i :| 0 <= i < |report.filesystems| && report.filesystems[i] == f;
      var g := MountNamed(report, mount).value;
      var j :| 0 <= j < |report.filesystems| && report.filesystems[j] == g;
    }
  }

  /** Usage alerts follow the report, and the agent is not offline once it has reported. */
  lemma HostAlertsFollowTheReport(rows: seq<Alert>, report: Report, cfg: Config, now: Time)
    requires WellFormed(rows)
    ensures var after := Evaluated(rows, report, cfg, now);
            && (IsActive(after, Key(report.agent, "cpu_high", "")) <==> report.cpu > cfg.cpuThreshold)
            && (IsActive(after, Key(report.agent, "memory_high", "")) <==> report.memory > cfg.memoryThreshold)
            && !IsActive(after, Key(report.agent, "agent_offline", ""))
  {
    ReportDecidesItsAlerts(rows, report, cfg, now, Key(report.agent, "cpu_high", ""));
    ReportDecidesItsAlerts(rows, report, cfg, now, Key(report.agent, "memory_high", ""));
    ReportDecidesItsAlerts(rows, report, cfg, now, Key(report.agent, "agent_offline", ""));
  }

  /** A service in an unknown state, and containers while Docker is unreachable, keep their alerts as they were. */
  lemma UnknownLeavesAlertsStanding(rows: seq<Alert>, report: Report, cfg: Config, now: Time, name: string)
    requires WellFormed(rows)
    ensures (exists s :: s in report.services && s.name == name)
            && (forall s | s in report.services && s.name == name :: !Known(s)) ==>
              (IsActive(Evaluated(rows, report, cfg, now), Key(report.agent, "systemd_unavailable", name)) <==>
               IsActive(rows, Key(report.agent, "systemd_unavailable", name)))
    ensures report.docker.enabled && !report.docker.available
            && (forall c | c in report.docker.containers :: c.name != name) ==>
              forall rule | rule == "docker_stopped" || rule == "docker_unhealthy" ::
                IsActive(Evaluated(rows, report, cfg, now), Key(report.agent, rule, name)) <==>
                IsActive(rows, Key(report.agent, rule, name))
  {
    ReportDecidesItsAlerts(rows, report, cfg, now, Key(report.agent, "systemd_unavailable", name));
    ReportDecidesItsAlerts(rows, report, cfg, now, Key(report.agent, "docker_stopped", name));
    ReportDecidesItsAlerts(rows, report, cfg, now, Key(report.agent, "docker_unhealthy", name));
  }

  // ----- an evaluation that stops -----

  lemma {:induction false} LastRulePrefix(rules: seq<Evaluation>, k: nat, key: Key)
    requires k <= |rules| && LastRule(rules, key) == None
    ensures LastRule(rules[..k], key) == None
  {
    if k == |rules| {
      assert rules[..k] == rules;
    } else {
      assert Init(rules)[..k] == rules[..k];
      LastRulePrefix(Init(rules), k, key);
    }
  }

  /** Of a report's rules only the third is about the agent being offline. */
  lemma OnlyTheThirdRule(report: Report, cfg: Config, agent: string)
    ensures |ReportRules(report, cfg)| >= 3
    ensures LastRule(ReportRules(report, cfg)[..2], Key(agent, "agent_offline", "")) == None
    ensures ReportRules(report, cfg)[2] == OnlineRule(report.agent, cfg)
    ensures LastRule(ReportRules(report, cfg)[3..], Key(agent, "agent_offline", "")) == None
  {
    var rules, key := ReportRules(report, cfg), Key(agent, "agent_offline", "");
    var host := HostRules(report, cfg);
    var disks := Each(report.filesystems, f => FilesystemRules(report.agent, f, cfg));
    var services := Each(report.services, s => ServiceRules(report.agent, s));
    var containers := Each(report.docker.containers, c => ContainerRules(report.agent, c));
    var checks := Each(report.checks, c => CheckRules(report.agent, c, cfg));
    assert rules[..2] == [host[0], host[1]];
    LastRulePair(host[0], host[1], key);
    var rest := disks + services + containers + checks;
    assert rules == host + rest && rules[3..] == rest;
    if agent == report.agent {
      FilesystemVerdict(report, cfg, key);
      ServiceVerdict(report, cfg, key);
      ContainerVerdict(report, cfg, key);
      CheckVerdict(report, cfg, key);
      LastRuleConcat(disks, services, key);
      LastRuleConcat(disks + services, containers, key);
      LastRuleConcat(disks + services + containers, checks, key);
    } else {
      RulesNameTheAgent(report, cfg);
      LastRuleMentions(rest, key);
      assert forall k | 0 <= k < |rest| :: rest[k] in rules;
    }
  }

  /** What the first k rules say about the agent being offline. */
  lemma StoppedRules(report: Report, cfg: Config, k: nat, agent: string)
    requires k <= |ReportRules(report, cfg)|
    ensures LastRule(ReportRules(report, cfg)[..k], Key(agent, "agent_offline", "")) ==
            if agent == report.agent && k >= 3 then Some(OnlineRule(agent, cfg)) else None
  {
    var rules, key := ReportRules(report, cfg), Key(agent, "agent_offline", "");
    OnlyTheThirdRule(report, cfg, agent);
    if k < 3 {
      assert rules[..k] == rules[..2][..k];
      LastRulePrefix(rules[..2], k, key);
    } else {
      var upto, after := rules[..2] + [rules[2]], rules[3..][..k - 3];
      assert rules[..k] == upto + after;
      LastRulePrefix(rules[3..], k - 3, key);
      LastRuleConcat(upto, after, key);
      LastRuleConcat(rules[..2], [rules[2]], key);
      LastRulePair(rules[2], rules[2], key);
    }
  }

  /** An evaluation that stops has shown the agent online exactly if it got as far as the third rule. */
  lemma StoppedReportDecidesOffline(
      rows: seq<Alert>, report: Report, cfg: Config, now: Time, k: nat, agent: string)
    requires WellFormed(rows)
    ensures WellFormed(EvaluatedUntil(rows, report, cfg, now, k))
    ensures IsActive(EvaluatedUntil(rows, report, cfg, now, k), Key(agent, "agent_offline", "")) <==>
              IsActive(rows, Key(agent, "agent_offline", "")) && !(agent == report.agent && k >= 3)
  {
    var rules := ReportRules(report, cfg);
    var end := if k < |rules| then k else |rules|;
    assert |rules| >= 3 by {
      OnlyTheThirdRule(report, cfg, agent);
    }
    assert rules[..|rules|] == rules;
    StoppedRules(report, cfg, end, agent);
    LastRuleDecides(rows, rules[..end], now, Key(agent, "agent_offline", ""));
  }

  // ----- silence -----

  /** Every agent is listed once. */
  ghost predicate ListedOnce(agents: seq<LastSeen>) {
    forall i, j | 0 <= i < j < |agents| :: agents[i].agent != agents[j].agent
  }

  lemma OneMoreOffline(agents: seq<LastSeen>, cfg: Config, now: Time, key: Key)
    requires agents != []
    ensures var rule := OfflineRule(Last(agents).agent, now - Last(agents).at, cfg);
            LastRule(OfflineRules(agents, cfg, now), key) ==
            if rule.key == key then Some(rule) else LastRule(OfflineRules(Init(agents), cfg, now), key)
  {
    var before := OfflineRules(Init(agents), cfg, now);
    var rule := OfflineRule(Last(agents).agent, now - Last(agents).at, cfg);
    assert Init(before + [rule]) == before && Last(before + [rule]) == rule;
  }

  lemma {:induction false} OnlyOfflineRules(agents: seq<LastSeen>, cfg: Config, now: Time, key: Key)
    requires key.rule != "agent_offline" || key.resource != "" || forall a | a in agents :: a.agent != key.agent
    ensures LastRule(OfflineRules(agents, cfg, now), key) == None
  {
    if agents != [] {
      assert Last(agents) in agents && forall a | a in Init(agents) :: a in agents;
      OnlyOfflineRules(Init(agents), cfg, now, key);
      OneMoreOffline(agents, cfg, now, key);
    }
  }

  lemma {:induction false} OfflineVerdict(agents: seq<LastSeen>, cfg: Config, now: Time, i: nat)
    requires ListedOnce(agents) && i < |agents|
    ensures var a := agents[i];
            LastRule(OfflineRules(agents, cfg, now), Key(a.agent, "agent_offline", ""))
            == Some(OfflineRule(a.agent, now - a.at, cfg))
  {
    OneMoreOffline(agents, cfg, now, Key(agents[i].agent, "agent_offline", ""));
    if i < |agents| - 1 {
      OfflineVerdict(Init(agents), cfg, now, i);
    }
  }

  lemma SecondsCompare(a: Time, b: Time)
    ensures Seconds(a) > Seconds(b) <==> a > b
  {
  }

  /**
   The offline pass: of the listed agents, exactly those silent for longer than the limit have an
   active offline alert afterwards; no other alert of any agent starts or ends.
   */
  lemma OfflineAlertsAreTheSilentAgents(rows: seq<Alert>, agents: seq<LastSeen>, cfg: Config, now: Time)
    requires WellFormed(rows) && ListedOnce(agents) && cfg.offlineAfter >= 0
    ensures var after := ApplyAll(rows, OfflineRules(agents, cfg, now), now);
            && (forall i | 0 <= i < |agents| ::
                  IsActive(after, Key(agents[i].agent, "agent_offline", "")) <==> now - agents[i].at > cfg.offlineAfter)
            && (forall key: Key | key.rule != "agent_offline" || key.resource != ""
                                  || (forall a | a in agents :: a.agent != key.agent) ::
                  IsActive(after, key) <==> IsActive(rows, key))
  {
    var rules := OfflineRules(agents, cfg, now);
    forall i | 0 <= i < |agents|
      ensures IsActive(ApplyAll(rows, rules, now), Key(agents[i].agent, "agent_offline", ""))
              <==> now - agents[i].at > cfg.offlineAfter
    {
      LastRuleDecides(rows, rules, now, Key(agents[i].agent, "agent_offline", ""));
      OfflineVerdict(agents, cfg, now, i);
      OfflineMeansSilent(agents[i].agent, now - agents[i].at, cfg);
    }
    forall key: Key | key.rule != "agent_offline" || key.resource != ""
                      || (forall a | a in agents :: a.agent != key.agent)
      ensures IsActive(ApplyAll(rows, rules, now), key) <==> IsActive(rows, key)
    {
      LastRuleDecides(rows, rules, now, key);
      OnlyOfflineRules(agents, cfg, now, key);
    }
  }

  lemma OfflineMeansSilent(agent: string, silence: Time, cfg: Config)
    requires cfg.offlineAfter >= 0
    ensures OfflineRule(agent, silence, cfg).violated <==> silence > cfg.offlineAfter
  {
    SecondsCompare(silence, cfg.offlineAfter);
    SecondsCompare(0, cfg.offlineAfter);
    SecondsCompare(0, silence);
  }

  // ----- other agents -----

  ghost predicate OthersKept(before: seq<Alert>, after: seq<Alert>, agent: string) {
    && |before| <= |after|
    && (forall i | 0 <= i < |before| && before[i].key.agent != agent :: after[i] == before[i])
    && (forall i | |before| <= i < |after| :: after[i].key.agent == agent)
    && (forall i | 0 <= i < |before| :: after[i].key == before[i].key)
  }

  lemma {:induction false} ApplyAllKeepsOthers(rows: seq<Alert>, rules: seq<Evaluation>, now: Time, agent: string)
    requires forall k | 0 <= k < |rules| :: rules[k].key.agent == agent
    ensures OthersKept(rows, ApplyAll(rows, rules, now), agent)
  {
    if rules != [] {
      ApplyAllKeepsOthers(rows, Init(rules), now, agent);
    }
  }

  lemma {:induction false} EachOfAgent<T>(items: seq<T>, rulesOf: T -> seq<Evaluation>, agent: string)
    requires forall x :: x in items ==> forall ev :: ev in rulesOf(x) ==> ev.key.agent == agent
    ensures forall ev | ev in Each(items, rulesOf) :: ev.key.agent == agent
  {
    if items != [] {
      EachOfAgent(Init(items), rulesOf, agent);
      assert Last(items) in items;
    }
  }

  lemma OfAgentConcat(a: seq<Evaluation>, b: seq<Evaluation>, agent: string)
    requires forall ev | ev in a :: ev.key.agent == agent
    requires forall ev | ev in b :: ev.key.agent == agent
    ensures forall ev | ev in a + b :: ev.key.agent == agent
  {
  }

  lemma RulesNameTheAgent(report: Report, cfg: Config)
    ensures forall ev | ev in ReportRules(report, cfg) :: ev.key.agent == report.agent
  {
    var disks := Each(report.filesystems, f => FilesystemRules(report.agent, f, cfg));
    var services := Each(report.services, s => ServiceRules(report.agent, s));
    var containers := Each(report.docker.containers, c => ContainerRules(report.agent, c));
    var checks := Each(report.checks, c => CheckRules(report.agent, c, cfg));
    EachOfAgent(report.filesystems, f => FilesystemRules(report.agent, f, cfg), report.agent);
    EachOfAgent(report.services, s => ServiceRules(report.agent, s), report.agent);
    EachOfAgent(report.docker.containers, c => ContainerRules(report.agent, c), report.agent);
    EachOfAgent(report.checks, c => CheckRules(report.agent, c, cfg), report.agent);
    OfAgentConcat(HostRules(report, cfg), disks, report.agent);
    OfAgentConcat(HostRules(report, cfg) + disks, services, report.agent);
    OfAgentConcat(HostRules(report, cfg) + disks + services, containers, report.agent);
    OfAgentConcat(HostRules(report, cfg) + disks + services + containers, checks, report.agent);
  }

  /** A report changes no row of any other agent, and adds none. */
  lemma OtherAgentsAreUntouched(rows: seq<Alert>, report: Report, cfg: Config, now: Time)
    ensures OthersKept(rows, Evaluated(rows, report, cfg, now), report.agent)
  {
    var rules := ReportRules(report, cfg);
    RulesNameTheAgent(report, cfg);
    forall k | 0 <= k < |rules| ensures rules[k].key.agent == report.agent {
      assert rules[k] in rules;
    }
    ApplyAllKeepsOthers(rows, rules, now, report.agent);
  }
}
