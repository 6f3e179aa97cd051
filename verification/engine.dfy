/**
 The rule engine (internal/alerts/engine.go): a report becomes rule evaluations, each is applied to
 the alerts table, and active alerts the report no longer speaks of are resolved or left standing.
 */
module Engines {
  import opened Prelude
  import opened Alerts
  import opened AlertRuns

  datatype Filesystem = Filesystem(mountpoint: string, fsType: string, used: real)
  datatype Service = Service(name: string, activeState: string, error: string)
  datatype Container = Container(name: string, state: string, health: string)
  datatype Docker = Docker(enabled: bool, available: bool, containers: seq<Container>)
  datatype Check = Check(name: string, url: string, statusCode: nat, ok: bool, tlsDaysLeft: Option<real>)

  datatype Report = Report(
    agent: string,
    cpu: real,
    memory: real,
    filesystems: seq<Filesystem>,
    services: seq<Service>,
    docker: Docker,
    checks: seq<Check>)

  datatype Config = Config(
    cpuThreshold: real,
    memoryThreshold: real,
    highUsageDuration: Time,
    diskWarning: real,
    diskCritical: real,
    offlineAfter: Time,
    httpFailureCount: int,
    tlsWarningDays: real,
    tlsCriticalDays: real)

  predicate Monitorable(f: Filesystem) {
    f.fsType != "squashfs"
  }

  predicate Known(s: Service) {
    s.error == "" && s.activeState != "" && s.activeState != "unknown"
  }

  predicate IsDown(s: Service) {
    s.activeState == "failed" || s.activeState == "inactive"
  }

  predicate PlainHttp(check: Check) {
    "http://" <= check.url
  }

  function Flag(b: bool): real {
    if b then 1.0 else 0.0
  }

  function Seconds(span: Time): real {
    span as real / SECOND as real
  }

  // ----- the rules a report gives -----

  function HostRules(report: Report, cfg: Config): seq<Evaluation> {
    [Evaluation(Key(report.agent, "cpu_high", ""), Critical, report.cpu, cfg.cpuThreshold,
                report.cpu > cfg.cpuThreshold, cfg.highUsageDuration, 0),
     Evaluation(Key(report.agent, "memory_high", ""), Critical, report.memory, cfg.memoryThreshold,
                report.memory > cfg.memoryThreshold, cfg.highUsageDuration, 0),
     OnlineRule(report.agent, cfg)]
  }

  function OnlineRule(agent: string, cfg: Config): Evaluation {
    Evaluation(Key(agent, "agent_offline", ""), Critical, 0.0, Seconds(cfg.offlineAfter), false, 0, 0)
  }

  /** The rule for an agent that was silent for a span; a last-seen time in the future counts as no silence. */
  function OfflineRule(agent: string, silence: Time, cfg: Config): Evaluation {
    var seconds := if Seconds(silence) < 0.0 then 0.0 else Seconds(silence);
    Evaluation(Key(agent, "agent_offline", ""), Critical, seconds, Seconds(cfg.offlineAfter),
               seconds > Seconds(cfg.offlineAfter), 0, 0)
  }

  datatype LastSeen = LastSeen(agent: string, at: Time)

  function OfflineRules(agents: seq<LastSeen>, cfg: Config, now: Time): seq<Evaluation> {
    if agents == [] then []
    else OfflineRules(Init(agents), cfg, now) + [OfflineRule(Last(agents).agent, now - Last(agents).at, cfg)]
  }

  function FilesystemRules(agent: string, f: Filesystem, cfg: Config): seq<Evaluation> {
    if !Monitorable(f) then []
    else
      [Evaluation(Key(agent, "disk_warning", f.mountpoint), Warning, f.used, cfg.diskWarning,
                  f.used > cfg.diskWarning && f.used <= cfg.diskCritical, 0, 0),
       Evaluation(Key(agent, "disk_critical", f.mountpoint), Critical, f.used, cfg.diskCritical,
                  f.used > cfg.diskCritical, 0, 0)]
  }

  function ServiceRules(agent: string, s: Service): seq<Evaluation> {
    if !Known(s) then []
    else [Evaluation(Key(agent, "systemd_unavailable", s.name), Critical, Flag(IsDown(s)), 1.0, IsDown(s), 0, 0)]
  }

  function ContainerRules(agent: string, c: Container): seq<Evaluation> {
    [Evaluation(Key(agent, "docker_stopped", c.name), Critical, Flag(c.state != "running"), 1.0,
                c.state != "running", 0, 0),
     Evaluation(Key(agent, "docker_unhealthy", c.name), Critical, Flag(c.health == "unhealthy"), 1.0,
                c.health == "unhealthy", 0, 0)]
  }

  function CheckRules(agent: string, check: Check, cfg: Config): seq<Evaluation> {
    [Evaluation(Key(agent, "http_failed", check.name), Critical, check.statusCode as real, 399.0,
                !check.ok, 0, cfg.httpFailureCount)]
    + match check.tlsDaysLeft
      case None => []
      case Some(days) =>
        [Evaluation(Key(agent, "tls_expiring", check.name),
                    if days <= cfg.tlsCriticalDays then Critical else Warning, days, cfg.tlsWarningDays,
                    days <= cfg.tlsWarningDays, 0, 0)]
  }

  function Each<T>(items: seq<T>, rules: T -> seq<Evaluation>): seq<Evaluation> {
    if items == [] then [] else Each(Init(items), rules) + rules(Last(items))
  }

  function ReportRules(report: Report, cfg: Config): seq<Evaluation> {
    HostRules(report, cfg)
    + Each(report.filesystems, f => FilesystemRules(report.agent, f, cfg))
    + Each(report.services, s => ServiceRules(report.agent, s))
    + Each(report.docker.containers, c => ContainerRules(report.agent, c))
    + Each(report.checks, c => CheckRules(report.agent, c, cfg))
  }

  // ----- applying them -----

  function ApplyAll(rows: seq<Alert>, rules: seq<Evaluation>, now: Time): seq<Alert> {
    if rules == [] then rows else Applied(ApplyAll(rows, Init(rules), now), Last(rules), now)
  }

  /** The last item with a property: later entries of a report override earlier ones. */
  function FindLast<T>(items: seq<T>, p: T -> bool): (found: Option<T>)
    ensures found.Some? ==> found.value in items && p(found.value)
    ensures found.None? ==> forall x | x in items :: !p(x)
  {
    if items == [] then None
    else if p(Last(items)) then Some(Last(items))
    else FindLast(Init(items), p)
  }

  function ServiceNamed(report: Report, name: string): Option<Service> {
    FindLast(report.services, (s: Service) => s.name == name)
  }

  function CheckNamed(report: Report, name: string): Option<Check> {
    FindLast(report.checks, (c: Check) => c.name == name)
  }

  /** Does silence about an active alert resolve it? */
  predicate SilenceResolves(report: Report, key: Key) {
    match key.rule
    case "disk_warning" => true
    case "disk_critical" => true
    case "http_failed" => true
    case "systemd_unavailable" =>
      var service := ServiceNamed(report, key.resource);
      service.None? || Known(service.value)
    case "docker_stopped" => !report.docker.enabled || report.docker.available
    case "docker_unhealthy" => !report.docker.enabled || report.docker.available
    case "tls_expiring" =>
      var check := CheckNamed(report, key.resource);
      check.None? || PlainHttp(check.value)
    case _ => false
  }

  predicate Mentions(rules: seq<Evaluation>, key: Key) {
    exists k :: 0 <= k < |rules| && rules[k].key == key
  }

  predicate Sweeps(a: Alert, report: Report, rules: seq<Evaluation>) {
    a.Active() && a.key.agent == report.agent && !Mentions(rules, a.key) && SilenceResolves(report, a.key)
  }

  function SilenceRule(a: Alert): Evaluation {
    Evaluation(a.key, a.severity, 0.0, a.threshold, false, 0, 0)
  }

  /** resolveMissing, row by row. */
  function Swept(rows: seq<Alert>, report: Report, rules: seq<Evaluation>, now: Time): seq<Alert> {
    seq(|rows|, i requires 0 <= i < |rows| =>
      if Sweeps(rows[i], report, rules) then ClosedRow(rows[i], SilenceRule(rows[i]), now) else rows[i])
  }

  /** The alerts table after EvaluateReport. */
  function Evaluated(rows: seq<Alert>, report: Report, cfg: Config, now: Time): seq<Alert> {
    var rules := ReportRules(report, cfg);
    Swept(ApplyAll(rows, rules, now), report, rules, now)
  }

  /** The alerts table after an EvaluateReport that a database error stops before its k-th rule or its sweep. */
  function EvaluatedUntil(rows: seq<Alert>, report: Report, cfg: Config, now: Time, k: nat): seq<Alert> {
    var rules := ReportRules(report, cfg);
    ApplyAll(rows, if k < |rules| then rules[..k] else rules, now)
  }

  class Engine {
    const store: AlertStore
    const cfg: Config

    /** New: an unset failure count and unset certificate limits get their defaults. */
    constructor (store: AlertStore, cfg: Config)
      ensures this.store == store
      ensures this.cfg == cfg.(httpFailureCount := if cfg.httpFailureCount == 0 then 3 else cfg.httpFailureCount,
                               tlsWarningDays := if cfg.tlsWarningDays == 0.0 then 14.0 else cfg.tlsWarningDays,
                               tlsCriticalDays := if cfg.tlsCriticalDays == 0.0 then 3.0 else cfg.tlsCriticalDays)
    {
      var complete := cfg;
      if complete.httpFailureCount == 0 {
        complete := complete.(httpFailureCount := 3);
      }
      if complete.tlsWarningDays == 0.0 {
        complete := complete.(tlsWarningDays := 14.0);
      }
      if complete.tlsCriticalDays == 0.0 {
        complete := complete.(tlsCriticalDays := 3.0);
      }
      this.store, this.cfg := store, complete;
    }

    /** `stops` is the number of rules that go through before a database error, if there is one. */
    method EvaluateReport(report: Report, now: Time, stops: Option<nat>) returns (ok: bool)
      requires WellFormed(store.alerts)
      modifies store
      ensures ok <==> stops.None?
      ensures store.alerts == if stops.None? then Evaluated(old(store.alerts), report, cfg, now)
                              else EvaluatedUntil(old(store.alerts), report, cfg, now, stops.value)
    {
      var rules := Collect(report);
      if stops.Some? {
        ApplyRules(if stops.value < |rules| then rules[..stops.value] else rules, now);
        return false;
      }
      ApplyRules(rules, now);
      ResolveMissing(report, rules, now);
      ok := true;
    }

    /** Each rule is its own transaction. */
    method ApplyRules(rules: seq<Evaluation>, now: Time)
      requires WellFormed(store.alerts)
      modifies store
      ensures store.alerts == ApplyAll(old(store.alerts), rules, now) && WellFormed(store.alerts)
    {
      for k := 0 to |rules|
        invariant store.alerts == ApplyAll(old(store.alerts), rules[..k], now)
        invariant WellFormed(store.alerts)
      {
        assert Init(rules[..k + 1]) == rules[..k];
        StepKeepsWellFormed(store.alerts, Evaluate(rules[k], now));
        var _ := store.ApplyRule(rules[k], now);
      }
      assert rules[..|rules|] == rules;
    }

    method EvaluateOffline(agents: seq<LastSeen>, now: Time)
      modifies store
      ensures store.alerts == ApplyAll(old(store.alerts), OfflineRules(agents, cfg, now), now)
    {
      for i := 0 to |agents|
        invariant store.alerts == ApplyAll(old(store.alerts), OfflineRules(agents[..i], cfg, now), now)
      {
        var seconds := Seconds(now - agents[i].at);
        if seconds < 0.0 {
          seconds := 0.0;
        }
        var rule := Evaluation(Key(agents[i].agent, "agent_offline", ""), Critical, seconds,
                               Seconds(cfg.offlineAfter), seconds > Seconds(cfg.offlineAfter), 0, 0);
        assert Init(agents[..i + 1]) == agents[..i];
        ghost var before := OfflineRules(agents[..i], cfg, now);
        assert OfflineRules(agents[..i + 1], cfg, now) == before + [rule] && Init(before + [rule]) == before;
        var _ := store.ApplyRule(rule, now);
      }
      assert agents[..|agents|] == agents;
    }

    /** A delayed report still proves that its agent is online. */
    method ResolveOnline(agent: string, now: Time)
      modifies store
      ensures store.alerts == Applied(old(store.alerts), OnlineRule(agent, cfg), now)
    {
      var _ := store.ApplyRule(OnlineRule(agent, cfg), now);
    }

    method Collect(report: Report) returns (rules: seq<Evaluation>)
      ensures rules == ReportRules(report, cfg)
    {
      rules := HostRules(report, cfg);
      rules := AppendEach(rules, report.filesystems, f => FilesystemRules(report.agent, f, cfg));
      rules := AppendEach(rules, report.services, s => ServiceRules(report.agent, s));
      rules := AppendEach(rules, report.docker.containers, c => ContainerRules(report.agent, c));
      rules := AppendEach(rules, report.checks, c => CheckRules(report.agent, c, cfg));
    }

    /** One loop over a list of the report, appending each item's rules. */
    static method AppendEach<T>(sofar: seq<Evaluation>, items: seq<T>, rulesOf: T -> seq<Evaluation>)
      returns (rules: seq<Evaluation>)
      ensures rules == sofar + Each(items, rulesOf)
    {
      rules := sofar;
      for i := 0 to |items|
        invariant rules == sofar + Each(items[..i], rulesOf)
      {
        assert Init(items[..i + 1]) == items[..i];
        rules := rules + rulesOf(items[i]);
      }
      assert items[..|items|] == items;
    }

    /** Go over the alerts that were active, in some order, and resolve those the silence settles. */
    method ResolveMissing(report: Report, rules: seq<Evaluation>, now: Time)
      requires WellFormed(store.alerts)
      modifies store
      ensures store.alerts == Swept(old(store.alerts), report, rules, now)
    {
      var snapshot := store.alerts;
      var n := |snapshot|;
      for i := 0 to n
        invariant |store.alerts| == n && WellFormed(store.alerts)
        invariant forall j | 0 <= j < i :: store.alerts[j] == Swept(snapshot, report, rules, now)[j]
        invariant forall j | i <= j < n :: store.alerts[j] == snapshot[j]
      {
        var a := snapshot[i];
        if Sweeps(a, report, rules) {
          ActiveIndexIsTheActiveRow(store.alerts, i);
          StepKeepsWellFormed(store.alerts, Evaluate(SilenceRule(a), now));
          var _ := store.ApplyRule(SilenceRule(a), now);
        }
      }
    }
  }
}
