/**
 What an accepted report amounts to: the alerts of its agent follow its measurements, and the history shows
 the values it carried at the time it carried.
 */
module StoredReports {
  import opened Prelude
  import opened Alerts
  import opened AlertRuns
  import opened Engines
  import opened EngineTheorems
  import opened Ingestion
  import Metrics
  import Histories
  import Downsampling

  // ----- alerts -----

  /**
   A report answered 202 and measured no longer than the offline limit before it was received: each alert of its
   agent is active afterwards exactly when the report violates it or, if the report is silent about it, when it
   was active before and silence does not settle it.
   */
  lemma FreshReportIsEvaluated(s: Ingestion.State, r: Request, now: Time, c: Settings, key: Key)
    requires WellFormed(s.alerts) && StatusOf(s, r, Works, now, c) == 202
    requires now - r.message.value.at <= c.cfg.offlineAfter
    requires key.agent == r.message.value.report.agent
    ensures IsActive(Ingested(s, r, Works, now, c).alerts, key) <==>
              match Verdict(r.message.value.report, c.cfg, key)
              case Some(violated) => violated
              case None => IsActive(s.alerts, key) && !SilenceResolves(r.message.value.report, key)
  {
    ReportDecidesItsAlerts(s.alerts, r.message.value.report, c.cfg, now, key);
  }

  /** In particular its usage and disk alerts are those its measurements call for, and the agent is not offline. */
  lemma FreshReportRaisesItsAlerts(s: Ingestion.State, r: Request, now: Time, c: Settings, mount: string)
    requires WellFormed(s.alerts) && StatusOf(s, r, Works, now, c) == 202
    requires now - r.message.value.at <= c.cfg.offlineAfter && DistinctMounts(r.message.value.report)
    ensures var report, after := r.message.value.report, Ingested(s, r, Works, now, c).alerts;
            && (IsActive(after, Key(report.agent, "cpu_high", "")) <==> report.cpu > c.cfg.cpuThreshold)
            && (IsActive(after, Key(report.agent, "memory_high", "")) <==> report.memory > c.cfg.memoryThreshold)
            && (IsActive(after, Key(report.agent, "disk_critical", mount)) <==>
                  exists f :: f in report.filesystems && f.fsType != "squashfs" && f.mountpoint == mount
                              && f.used > c.cfg.diskCritical)
            && (IsActive(after, Key(report.agent, "disk_warning", mount)) <==>
                  exists f :: f in report.filesystems && f.fsType != "squashfs" && f.mountpoint == mount
                              && c.cfg.diskWarning < f.used <= c.cfg.diskCritical)
            && !IsActive(after, Key(report.agent, "agent_offline", ""))
  {
    var report := r.message.value.report;
    HostAlertsFollowTheReport(s.alerts, report, c.cfg, now);
    DiskAlertsAreTheFullMounts(s.alerts, report, c.cfg, now, mount);
  }

  /** Answered 202 but measured longer ago: the agent's offline alert ends, and no other alert starts or ends. */
  lemma StaleReportOnlyClearsOffline(s: Ingestion.State, r: Request, now: Time, c: Settings, key: Key)
    requires WellFormed(s.alerts) && StatusOf(s, r, Works, now, c) == 202
    requires now - r.message.value.at > c.cfg.offlineAfter
    ensures IsActive(Ingested(s, r, Works, now, c).alerts, key) <==>
              IsActive(s.alerts, key) && key != Key(r.message.value.report.agent, "agent_offline", "")
  {
    OldReportOnlyClearsOffline(s, r, now, c, key);
  }

  // ----- metrics -----

  /**
   A request stores a row if and only if it raises its agent's last sequence, to its own; the row has the
   agent, the time, the CPU and the memory of the report, and it is the only change to the metrics.
   */
  lemma StoredRowIsTheReport(s: Ingestion.State, r: Request, fault: Fault, now: Time, c: Settings)
    ensures var after := Ingested(s, r, fault, now, c);
            if after.lastSequence == s.lastSequence then after.metrics == s.metrics
            else
              && r.message.Some?
              && var m := r.message.value;
              && m.report.agent in s.lastSequence && s.lastSequence[m.report.agent] < m.sequence
              && after.lastSequence == s.lastSequence[m.report.agent := m.sequence]
              && after.metrics.hourly == s.metrics.hourly
              && |after.metrics.reports| == |s.metrics.reports| + 1
              && Init(after.metrics.reports) == s.metrics.reports
              && var row := Last(after.metrics.reports);
              && row.agent == m.report.agent && row.at == m.at
              && row.cpu == m.report.cpu && row.memory == m.report.memory
  {
    if Saves(s, r, fault, now, c) {
      var m := r.message.value;
      assert s.lastSequence[m.report.agent := m.sequence][m.report.agent] != s.lastSequence[m.report.agent];
    }
  }

  /** A stored report is a point of its agent's history, at its own time and with its own values. */
  lemma StoredReportIsInTheHistory(
      s: Ingestion.State, r: Request, fault: Fault, now: Time, c: Settings, since: Time, rawStart: Time)
    requires var after := Ingested(s, r, fault, now, c);
             after.lastSequence != s.lastSequence && r.message.Some?
             && since <= r.message.value.at && rawStart <= r.message.value.at
    ensures var m := r.message.value;
            Downsampling.Point(m.at, m.report.cpu, m.report.memory, 1)
            in Histories.Joined(Ingested(s, r, fault, now, c).metrics, m.report.agent, since, rawStart)
  {
    StoredRowIsTheReport(s, r, fault, now, c);
    var t, m := Ingested(s, r, fault, now, c).metrics, r.message.value;
    assert Last(t.reports) in t.reports;
    Histories.PointsAreRowsAndReports(t, m.report.agent, since, rawStart,
                                      Downsampling.Point(m.at, m.report.cpu, m.report.memory, 1));
  }
}
