/**
 Who counts as offline: runs of the ingest handlers and the offline pass. The pass judges each agent by the
 time it listed, one transaction at a time, while reports keep arriving; a report is stored in one
 transaction and evaluated later.
 */
module Offline {
  import opened Prelude
  import opened Alerts
  import opened AlertRuns
  import opened Engines
  import opened EngineTheorems
  import opened Ingestion
  import Limiters
  import Metrics

  // ----- runs -----

  /** A stored report whose evaluation is still to come. */
  datatype Unshown = Unshown(message: Message, fault: Fault, now: Time)

  /** The server, with the reports its handlers have stored and not yet evaluated. */
  datatype Site = Site(world: World, pending: seq<Unshown>)

  datatype Op =
    | Save(request: Request, fault: Fault, now: Time)  // a request up to the end of the store's transaction
    | Show(i: nat)                                     // the evaluation of a stored report, in any order
    | List(agents: seq<LastSeen>, now: Time)           // the tick's time and the query of a new pass
    | Judge                                            // the rule for the next listed agent
    | Abandon                                          // a rule failed, or the pass ran out of time

  /** The time on record for the agent of a request, if there is one, is not later. */
  predicate NotBefore(now: Time, r: Request, lastSeen: map<string, Time>) {
    r.message.Some? && r.message.value.report.agent in lastSeen ==> lastSeen[r.message.value.report.agent] <= now
  }

  /**
   A listing is true when it is made, and passes come one after the other. The clock does not go back between
   an agent's reports, and a report stored after a tick bears a time at most the offline limit before it. A
   handler has five seconds, and the limit is at least thirty: a report is evaluated before a tick comes that
   is more than the limit after it.
   */
  ghost predicate Enabled(s: Site, op: Op, c: Settings) {
    match op
    case Save(r, _, now) =>
      now >= s.world.passNow - c.cfg.offlineAfter && NotBefore(now, r, s.world.state.lastSeen)
    case Show(i) => i < |s.pending| && s.world.passNow - s.pending[i].now <= c.cfg.offlineAfter
    case List(agents, now) =>
      s.world.queue == [] && now >= s.world.passNow && Lists(agents, s.world.state.lastSeen)
    case Judge => s.world.queue != []
    case Abandon => s.world.queue != []
  }

  /** The state when the store's transaction is over. */
  function Saved(s: Ingestion.State, r: Request, fault: Fault, now: Time, c: Settings): Ingestion.State {
    Ingested(s, r, fault, now, c).(alerts := s.alerts, notifyWake := s.notifyWake)
  }

  function Shown(s: Ingestion.State, p: Unshown, c: Settings): Ingestion.State {
    s.(alerts := AlertsAfter(s.alerts, p.message, p.fault, p.now, c), notifyWake := true)
  }

  ghost function Next(s: Site, op: Op, c: Settings): Site
    requires Enabled(s, op, c)
  {
    var w := s.world;
    match op
    case Save(r, fault, now) =>
      Site(w.(state := Saved(w.state, r, fault, now, c)),
           if StatusOf(w.state, r, fault, now, c) == 202 then s.pending + [Unshown(r.message.value, fault, now)]
           else s.pending)
    case Show(i) =>
      Site(w.(state := Shown(w.state, s.pending[i], c)), s.pending[..i] + s.pending[i + 1..])
    case List(agents, now) => s.(world := w.(queue := agents, passNow := now))
    case Judge => s.(world := Judged(w, c))
    case Abandon => s.(world := w.(queue := []))
  }

  /** Storing a report and evaluating it at once is what the handler promises. */
  lemma SaveThenShowIsIngest(s: Ingestion.State, r: Request, fault: Fault, now: Time, c: Settings)
    ensures var saved := Saved(s, r, fault, now, c);
            Ingested(s, r, fault, now, c) ==
            if StatusOf(s, r, fault, now, c) == 202 then Shown(saved, Unshown(r.message.value, fault, now), c)
            else saved
  {
  }

  function Begin(agents: set<string>, start: Time): Site {
    Site(World(State(Limiters.Table(map[], start), map a | a in agents :: 0, map[], Metrics.Table([], map[]), [],
                     false),
               [], start), [])
  }

  ghost function Reach(agents: set<string>, start: Time, run: seq<Op>, c: Settings): Option<Site> {
    if run == [] then Some(Begin(agents, start))
    else
      var before := Reach(agents, start, Init(run), c);
      if before.Some? && Enabled(before.value, Last(run), c) then Some(Next(before.value, Last(run), c)) else None
  }

  /** The step stores a report of the agent. */
  predicate SavesFor(s: Site, op: Op, agent: string, c: Settings) {
    && op.Save? && Saves(s.world.state, op.request, op.fault, op.now, c)
    && op.request.message.value.report.agent == agent
  }

  /** The step evaluates a report of the agent far enough to show it online. */
  predicate Clears(s: Site, op: Op, agent: string, c: Settings) {
    && op.Show? && op.i < |s.pending| && s.pending[op.i].message.report.agent == agent
    && ShowsOnline(s.pending[op.i].message, s.pending[op.i].fault, s.pending[op.i].now, c)
  }

  // ----- each report is stored once -----

  /** The agent's sequences in the order they were stored. */
  ghost function Stored(agents: set<string>, start: Time, run: seq<Op>, c: Settings, agent: string): seq<nat> {
    if run == [] then []
    else
      var earlier, before := Stored(agents, start, Init(run), c, agent), Reach(agents, start, Init(run), c);
      if before.Some? && SavesFor(before.value, Last(run), agent, c)
      then earlier + [Last(run).request.message.value.sequence] else earlier
  }

  /** One step stores a larger sequence of the agent, or leaves its last one. */
  lemma StepMovesSequence(w: Site, op: Op, c: Settings, agent: string)
    requires Enabled(w, op, c)
    ensures var before, after := w.world.state.lastSequence, Next(w, op, c).world.state.lastSequence;
            && (agent in after <==> agent in before)
            && (SavesFor(w, op, agent, c) ==> agent in after && before[agent] < after[agent]
                                              && after[agent] == op.request.message.value.sequence)
            && (!SavesFor(w, op, agent, c) && agent in after ==> after[agent] == before[agent])
  {
  }

  /** Increasing, and ending in the agent's last sequence. */
  ghost predicate StoredFits(stored: seq<nat>, last: map<string, nat>, agent: string) {
    && (forall i, j | 0 <= i < j < |stored| :: stored[i] < stored[j])
    && (agent in last ==> last[agent] == if stored == [] then 0 else Last(stored))
    && (agent !in last ==> stored == [])
  }

  lemma LargerStaysInOrder(stored: seq<nat>, before: map<string, nat>, after: map<string, nat>, agent: string)
    requires StoredFits(stored, before, agent) && agent in before && agent in after && before[agent] < after[agent]
    ensures StoredFits(stored + [after[agent]], after, agent)
  {
    assert forall i | 0 <= i < |stored| :: stored[i] <= Last(stored);
  }

  /**
   In every run, with any agents, faults and repetitions: an agent's reports are stored in increasing order,
   each once.
   */
  lemma {:induction false} StoredInOrder(agents: set<string>, start: Time, run: seq<Op>, c: Settings, agent: string)
    requires Reach(agents, start, run, c).Some?
    ensures StoredFits(Stored(agents, start, run, c, agent),
                       Reach(agents, start, run, c).value.world.state.lastSequence, agent)
  {
    if run != [] {
      StoredInOrder(agents, start, Init(run), c, agent);
      var s, v := Reach(agents, start, Init(run), c).value, Reach(agents, start, run, c).value;
      StepMovesSequence(s, Last(run), c, agent);
      if SavesFor(s, Last(run), agent, c) {
        LargerStaysInOrder(Stored(agents, start, Init(run), c, agent), s.world.state.lastSequence,
                           v.world.state.lastSequence, agent);
      }
    }
  }

  // ----- the judgement an alert rests on -----

  function OfflineKey(agent: string): Key {
    Key(agent, "agent_offline", "")
  }

  /** A report of the agent was stored since the last listing. */
  ghost predicate SavedSinceListing(agents: set<string>, start: Time, run: seq<Op>, c: Settings, agent: string) {
    run != [] && !Last(run).List? &&
    var before := Reach(agents, start, Init(run), c);
    before.Some? &&
    (SavesFor(before.value, Last(run), agent, c) || SavedSinceListing(agents, start, Init(run), c, agent))
  }

  /**
   A judgement of an agent: what the pass had listed and its tick; whether a report was stored since the
   listing, and whether a report has been evaluated far enough since the judgement to show the agent online.
   */
  datatype Judgement = Judgement(listed: LastSeen, passNow: Time, savedSince: bool, shownSince: bool)

  /** The agent's last judgement, and what happened since. */
  ghost function LastJudgement(agents: set<string>, start: Time, run: seq<Op>, c: Settings, agent: string)
    : Option<Judgement>
  {
    if run == [] then None
    else
      var before, earlier := Reach(agents, start, Init(run), c), LastJudgement(agents, start, Init(run), c, agent);
      if before.None? then None
      else JudgementAfter(before.value, Last(run), c, agent, earlier,
                          SavedSinceListing(agents, start, Init(run), c, agent))
  }

  ghost function JudgementAfter(s: Site, op: Op, c: Settings, agent: string, earlier: Option<Judgement>, saved: bool)
    : Option<Judgement>
  {
    if op.Judge? && s.world.queue != [] && s.world.queue[0].agent == agent then
      Some(Judgement(s.world.queue[0], s.world.passNow, saved, false))
    else if earlier.None? then None
    else Some(earlier.value.(savedSince := earlier.value.savedSince || SavesFor(s, op, agent, c),
                             shownSince := earlier.value.shownSince || Clears(s, op, agent, c)))
  }

  /** The listed time lay more than the limit before the tick. */
  predicate Overdue(j: Judgement, c: Settings) {
    j.passNow - j.listed.at > c.cfg.offlineAfter
  }

  // ----- the alert follows the listing -----

  lemma AlertsDecideOffline(alerts: seq<Alert>, m: Message, fault: Fault, now: Time, c: Settings, agent: string)
    requires WellFormed(alerts)
    ensures WellFormed(AlertsAfter(alerts, m, fault, now, c))
    ensures IsActive(AlertsAfter(alerts, m, fault, now, c), OfflineKey(agent)) <==>
              IsActive(alerts, OfflineKey(agent)) && !(m.report.agent == agent && ShowsOnline(m, fault, now, c))
  {
    match fault
    case Works =>
      if Fresh(m, now, c) {
        EvaluationKeepsWellFormed(alerts, m.report, c.cfg, now);
        FreshReportDecidesOffline(alerts, m.report, c.cfg, now, agent);
      } else {
        StepKeepsWellFormed(alerts, Evaluate(OnlineRule(m.report.agent, c.cfg), now));
        RuleDecidesItsKey(alerts, OnlineRule(m.report.agent, c.cfg), now, OfflineKey(agent));
      }
    case EvaluationStops(k) =>
      if Fresh(m, now, c) {
        StoppedReportDecidesOffline(alerts, m.report, c.cfg, now, k, agent);
      }
    case _ =>
  }

  lemma FreshReportDecidesOffline(alerts: seq<Alert>, report: Report, cfg: Config, now: Time, agent: string)
    requires WellFormed(alerts)
    ensures IsActive(Evaluated(alerts, report, cfg, now), OfflineKey(agent)) <==>
              IsActive(alerts, OfflineKey(agent)) && agent != report.agent
  {
    if agent == report.agent {
      ReportDecidesItsAlerts(alerts, report, cfg, now, OfflineKey(agent));
    } else {
      OtherAgentsAreUntouched(alerts, report, cfg, now);
      var after := Evaluated(alerts, report, cfg, now);
      if IsActive(alerts, OfflineKey(agent)) {
        assert IsActiveFor(after[ActiveIndex(alerts, OfflineKey(agent)).value], OfflineKey(agent));
      }
      if IsActive(after, OfflineKey(agent)) {
        assert IsActiveFor(alerts[ActiveIndex(after, OfflineKey(agent)).value], OfflineKey(agent));
      }
    }
  }

  lemma RuleKeepsAndDecides(rows: seq<Alert>, ev: Evaluation, now: Time, key: Key)
    requires WellFormed(rows)
    ensures WellFormed(Applied(rows, ev, now))
    ensures IsActive(Applied(rows, ev, now), key) <==> if ev.key == key then ev.violated else IsActive(rows, key)
  {
    assert StepRows(rows, Evaluate(ev, now)) == Applied(rows, ev, now);
    StepKeepsWellFormed(rows, Evaluate(ev, now));
    RuleDecidesItsKey(rows, ev, now, key);
  }

  lemma JudgementKeepsWellFormed(rows: seq<Alert>, listed: LastSeen, passNow: Time, cfg: Config)
    requires WellFormed(rows)
    ensures WellFormed(JudgedRows(rows, listed, passNow, cfg))
  {
    RuleKeepsAndDecides(rows, OfflineRule(listed.agent, passNow - listed.at, cfg), passNow, OfflineKey(listed.agent));
  }

  lemma JudgementDecides(rows: seq<Alert>, listed: LastSeen, passNow: Time, cfg: Config, agent: string)
    requires WellFormed(rows)
    ensures IsActive(JudgedRows(rows, listed, passNow, cfg), OfflineKey(agent)) <==>
              if listed.agent == agent then OfflineRule(listed.agent, passNow - listed.at, cfg).violated
              else IsActive(rows, OfflineKey(agent))
  {
    RuleKeepsAndDecides(rows, OfflineRule(listed.agent, passNow - listed.at, cfg), passNow, OfflineKey(agent));
  }

  lemma JudgeDecidesOffline(w: World, c: Settings, agent: string)
    requires WellFormed(w.state.alerts) && w.queue != [] && c.cfg.offlineAfter >= 0
    ensures WellFormed(Judged(w, c).state.alerts)
    ensures IsActive(Judged(w, c).state.alerts, OfflineKey(agent)) <==>
              if w.queue[0].agent == agent then w.passNow - w.queue[0].at > c.cfg.offlineAfter
              else IsActive(w.state.alerts, OfflineKey(agent))
  {
    var rows, listed := w.state.alerts, w.queue[0];
    JudgementKeepsWellFormed(rows, listed, w.passNow, c.cfg);
    JudgementDecides(rows, listed, w.passNow, c.cfg, agent);
    OfflineMeansSilent(listed.agent, w.passNow - listed.at, c.cfg);
  }

  /** The judgement found the agent silent beyond the limit, and nothing has shown it online since. */
  predicate Raised(last: Option<Judgement>, c: Settings) {
    last.Some? && Overdue(last.value, c) && !last.value.shownSince
  }

  lemma StepFollowsTheListing(
      s: Site, op: Op, c: Settings, agent: string, last: Option<Judgement>, saved: bool)
    requires WellFormed(s.world.state.alerts) && Enabled(s, op, c) && c.cfg.offlineAfter >= 0
    requires IsActive(s.world.state.alerts, OfflineKey(agent)) <==> Raised(last, c)
    ensures WellFormed(Next(s, op, c).world.state.alerts)
    ensures IsActive(Next(s, op, c).world.state.alerts, OfflineKey(agent)) <==>
              Raised(JudgementAfter(s, op, c, agent, last, saved), c)
  {
    match op
    case Show(i) =>
      var p := s.pending[i];
      AlertsDecideOffline(s.world.state.alerts, p.message, p.fault, p.now, c, agent);
    case Judge => JudgeDecidesOffline(s.world, c, agent);
    case _ =>
  }

  /**
   In every run an agent's offline alert is active exactly when its last judgement found it silent beyond the
   limit, by the time the pass had listed, and no report has shown it online since.
   */
  lemma {:induction false} OfflineFollowsTheListing(
      agents: set<string>, start: Time, run: seq<Op>, c: Settings, agent: string)
    requires Reach(agents, start, run, c).Some? && c.cfg.offlineAfter >= 0
    ensures WellFormed(Reach(agents, start, run, c).value.world.state.alerts)
    ensures IsActive(Reach(agents, start, run, c).value.world.state.alerts, OfflineKey(agent)) <==>
              Raised(LastJudgement(agents, start, run, c, agent), c)
  {
    if run != [] {
      OfflineFollowsTheListing(agents, start, Init(run), c, agent);
      StepFollowsTheListing(Reach(agents, start, Init(run), c).value, Last(run), c, agent,
                            LastJudgement(agents, start, Init(run), c, agent),
                            SavedSinceListing(agents, start, Init(run), c, agent));
    }
  }

  // ----- when the listing is out of date -----

  /** The time on record is the listed one, or one stored after the listing. */
  predicate TimeFits(lastSeen: map<string, Time>, listed: LastSeen, passNow: Time, saved: bool, c: Settings) {
    && listed.agent in lastSeen
    && if saved then lastSeen[listed.agent] >= passNow - c.cfg.offlineAfter
       else lastSeen[listed.agent] == listed.at
  }

  /** The agent's record is at least as late as every report of it that is still to be evaluated. */
  predicate PendingFits(s: Site, agent: string) {
    forall i | 0 <= i < |s.pending| && s.pending[i].message.report.agent == agent ::
      agent in s.world.state.lastSeen && s.pending[i].now <= s.world.state.lastSeen[agent]
  }

  predicate QueueFits(s: Site, c: Settings, agent: string, saved: bool) {
    forall i | 0 <= i < |s.world.queue| && s.world.queue[i].agent == agent ::
      TimeFits(s.world.state.lastSeen, s.world.queue[i], s.world.passNow, saved, c)
  }

  predicate LastFits(s: Site, c: Settings, agent: string, last: Option<Judgement>) {
    last.Some? ==>
      && last.value.listed.agent == agent && last.value.passNow <= s.world.passNow
      && TimeFits(s.world.state.lastSeen, last.value.listed, last.value.passNow, last.value.savedSince, c)
      && (last.value.shownSince ==>
            s.world.state.lastSeen[agent] >= last.value.passNow - c.cfg.offlineAfter)
  }

  lemma StepKeepsPending(s: Site, op: Op, c: Settings, agent: string)
    requires Enabled(s, op, c) && PendingFits(s, agent)
    ensures PendingFits(Next(s, op, c), agent)
  {
    match op
    case Save(_, _, _) => SaveMovesTime(s, op, c, agent);
    case Show(i) =>
      var pending := s.pending[..i] + s.pending[i + 1..];
      assert forall k | 0 <= k < |pending| :: pending[k] == if k < i then s.pending[k] else s.pending[k + 1];
    case _ =>
  }

  lemma StepKeepsQueue(s: Site, op: Op, c: Settings, agent: string, saved: bool)
    requires Enabled(s, op, c) && QueueFits(s, c, agent, saved)
    ensures QueueFits(Next(s, op, c), c, agent, !op.List? && (SavesFor(s, op, agent, c) || saved))
  {
    match op
    case Save(_, _, _) => SaveMovesTime(s, op, c, agent);
    case Judge =>
      var queue := s.world.queue;
      assert forall i | 0 <= i < |queue| - 1 :: queue[1..][i] == queue[i + 1];
    case _ =>
  }

  lemma StepKeepsLast(s: Site, op: Op, c: Settings, agent: string, last: Option<Judgement>, saved: bool)
    requires Enabled(s, op, c) && PendingFits(s, agent) && QueueFits(s, c, agent, saved)
    requires LastFits(s, c, agent, last)
    ensures LastFits(Next(s, op, c), c, agent, JudgementAfter(s, op, c, agent, last, saved))
  {
    match op
    case Save(_, _, _) => SaveMovesTime(s, op, c, agent);
    case Show(i) => assert Clears(s, op, agent, c) ==> s.pending[i].now <= s.world.state.lastSeen[agent];
    case _ =>
  }

  lemma SaveMovesTime(s: Site, op: Op, c: Settings, agent: string)
    requires op.Save? && Enabled(s, op, c)
    ensures var before, after := s.world.state.lastSeen, Next(s, op, c).world.state.lastSeen;
            && (SavesFor(s, op, agent, c) ==>
                  agent in after && after[agent] == op.now && (agent in before ==> before[agent] <= op.now))
            && (!SavesFor(s, op, agent, c) ==>
                  (agent in before <==> agent in after) && (agent in before ==> after[agent] == before[agent]))
    ensures var pending := Next(s, op, c).pending;
            pending == s.pending
            || (pending == s.pending + [Last(pending)] && Last(pending).now == op.now
                && (Last(pending).message.report.agent == agent ==> SavesFor(s, op, agent, c)))
  {
  }

  lemma {:induction false} RunKeepsPass(agents: set<string>, start: Time, run: seq<Op>, c: Settings, agent: string)
    requires Reach(agents, start, run, c).Some?
    ensures var s := Reach(agents, start, run, c).value;
            && PendingFits(s, agent) && QueueFits(s, c, agent, SavedSinceListing(agents, start, run, c, agent))
            && LastFits(s, c, agent, LastJudgement(agents, start, run, c, agent))
  {
    if run != [] {
      RunKeepsPass(agents, start, Init(run), c, agent);
      var s, saved := Reach(agents, start, Init(run), c).value, SavedSinceListing(agents, start, Init(run), c, agent);
      StepKeepsPending(s, Last(run), c, agent);
      StepKeepsQueue(s, Last(run), c, agent, saved);
      StepKeepsLast(s, Last(run), c, agent, LastJudgement(agents, start, Init(run), c, agent), saved);
    }
  }

  /** At the tick of the agent's last judgement its last stored report, as now on record, was older than the limit. */
  ghost predicate TrulyOffline(agents: set<string>, start: Time, run: seq<Op>, c: Settings, agent: string) {
    var reached, last := Reach(agents, start, run, c), LastJudgement(agents, start, run, c, agent);
    && reached.Some? && last.Some? && agent in reached.value.world.state.lastSeen
    && last.value.passNow - reached.value.world.state.lastSeen[agent] > c.cfg.offlineAfter
  }

  /**
   Exactly when the alert of a judged agent is wrong: the pass had listed it as silent beyond the limit, a
   report of it was stored after the listing, and none has been evaluated since the judgement. It is then a
   false alarm; no judged agent that is silent goes without its alert.
   */
  lemma {:induction false} WrongIffListedBeforeAReport(
      agents: set<string>, start: Time, run: seq<Op>, c: Settings, agent: string)
    requires Reach(agents, start, run, c).Some? && c.cfg.offlineAfter >= 0
    ensures var active := IsActive(Reach(agents, start, run, c).value.world.state.alerts, OfflineKey(agent));
            var last := LastJudgement(agents, start, run, c, agent);
            && (active != TrulyOffline(agents, start, run, c, agent) <==>
                  last.Some? && Overdue(last.value, c) && last.value.savedSince && !last.value.shownSince)
            && (TrulyOffline(agents, start, run, c, agent) ==> active)
  {
    OfflineFollowsTheListing(agents, start, run, c, agent);
    RunKeepsPass(agents, start, run, c, agent);
  }

  // ----- the run that shows it -----

  lemma {:induction false} Extend(
      agents: set<string>, start: Time, run: seq<Op>, op: Op, c: Settings, s: Site)
    returns (longer: seq<Op>)
    requires Reach(agents, start, run, c) == Some(s) && Enabled(s, op, c)
    ensures longer == run + [op] && Reach(agents, start, longer, c) == Some(Next(s, op, c))
  {
    longer := run + [op];
    assert Init(longer) == run;
  }

  /** A client's second call finds room, and is allowed if two attempts are. */
  lemma SecondCallAllowed(client: string, start: Time, now: Time, l: Limiters.Limits)
    requires l.limit >= 2 && l.maxKeys >= 1
    ensures var empty := Limiters.Table(map[], start);
            && Limiters.Allowed(empty, client, start, l)
            && Limiters.Allowed(Limiters.Called(empty, client, start, l), client, now, l)
  {
    var empty := Limiters.Table(map[], start);
    assert Limiters.Cleaned(empty, start, l.window).items == map[];
    var t := Limiters.Called(empty, client, start, l);
    assert t.items == map[client := Limiters.Attempt(1, start)];
    var items := Limiters.Cleaned(t, now, l.window).items;
    if client !in items {
      assert items == map[];
    }
  }

  function ReportOf(client: string, report: Report, sequence: nat, at: Time): Request {
    Request(client, Some(Message(report, sequence, at)), true, true)
  }

  /** A report is stored and evaluated without interruption. */
  lemma {:induction false} Reported(
      agents: set<string>, start: Time, run: seq<Op>, c: Settings, s: Site, r: Request, now: Time)
    returns (longer: seq<Op>, v: Site)
    requires Reach(agents, start, run, c) == Some(s) && s.pending == []
    requires c.cfg.offlineAfter >= 0 && now >= s.world.passNow && NotBefore(now, r, s.world.state.lastSeen)
    requires StatusOf(s.world.state, r, Works, now, c) == 202
    ensures Reach(agents, start, longer, c) == Some(v)
    ensures v == Site(s.world.(state := Ingested(s.world.state, r, Works, now, c)), [])
  {
    longer := Extend(agents, start, run, Save(r, Works, now), c, s);
    v := Next(s, Save(r, Works, now), c);
    assert v.pending == [Unshown(r.message.value, Works, now)];
    SaveThenShowIsIngest(s.world.state, r, Works, now, c);
    longer := Extend(agents, start, longer, Show(0), c, v);
    v := Next(v, Show(0), c);
  }

  /** An agent reports once, and falls silent until a pass lists it. */
  lemma ListedAsSilent(client: string, report: Report, start: Time, tick: Time, c: Settings)
    returns (run: seq<Op>, s: Site)
    requires c.limits.limit >= 2 && c.limits.maxKeys >= 1 && tick >= start && c.cfg.offlineAfter >= 0
    ensures Reach({report.agent}, start, run, c) == Some(s) && s.pending == []
    ensures s.world.queue == [LastSeen(report.agent, start)] && s.world.passNow == tick
    ensures s.world.state.lastSequence == map[report.agent := 1] && s.world.state.lastSeen == map[report.agent := start]
    ensures s.world.state.attempts == Limiters.Called(Limiters.Table(map[], start), client, start, c.limits)
  {
    var begin, first := Begin({report.agent}, start), ReportOf(client, report, 1, start);
    SecondCallAllowed(client, start, start, c.limits);
    assert Newer(begin.world.state, first.message.value);
    run, s := Reported({report.agent}, start, [], c, begin, first, start);
    assert s.world.state.lastSeen == map[report.agent := start] && s.world.queue == [];
    var listing := List([LastSeen(report.agent, start)], tick);
    assert Lists(listing.agents, s.world.state.lastSeen);
    run := Extend({report.agent}, start, run, listing, c, s);
    s := Next(s, listing, c);
  }

  /** Its next report is stored, evaluated and answered 202; then the listed rule is applied: it counts as offline. */
  lemma LateReportIsAlarmed(client: string, report: Report, start: Time, tick: Time, c: Settings)
    returns (run: seq<Op>, s: Site)
    requires c.limits.limit >= 2 && c.limits.maxKeys >= 1 && c.cfg.offlineAfter >= 0
    requires tick - start > c.cfg.offlineAfter
    ensures Reach({report.agent}, start, run, c) == Some(s) && s.pending == []
    ensures IsActive(s.world.state.alerts, OfflineKey(report.agent))
    ensures report.agent in s.world.state.lastSeen
            && s.world.state.lastSeen[report.agent] == s.world.passNow == tick
  {
    run, s := ListedAsSilent(client, report, start, tick, c);
    SecondCallAllowed(client, start, tick, c.limits);
    run, s := Reported({report.agent}, start, run, c, s, ReportOf(client, report, 2, tick), tick);
    OfflineFollowsTheListing({report.agent}, start, run, c, report.agent);
    JudgeDecidesOffline(s.world, c, report.agent);
    run := Extend({report.agent}, start, run, Judge, c, s);
    s := Next(s, Judge, c);
  }
}
