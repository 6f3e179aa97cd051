/**
 The ingest handler (internal/server/server.go) and the offline pass beside it: which request is stored,
 which stored report is evaluated, and the steps between which the two interleave.
 */
module Ingestion {
  import opened Prelude
  import opened Alerts
  import opened AlertRuns
  import opened Engines
  import opened EngineTheorems
  import Delivery
  import Limiters
  import Metrics

  datatype Message = Message(report: Report, sequence: nat, at: Time)

  /**
   A request as the handler sees it: no message if the body does not decode; the verdicts of Validate
   and of the tokens.
   */
  datatype Request = Request(client: string, message: Option<Message>, valid: bool, authorised: bool)

  /**
   What goes wrong: no transaction; a commit that reports an error and may still have been applied; or,
   after the report is stored, a database error that stops the evaluation after so many rules.
   */
  datatype Fault = Works | NoTransaction | CommitFails(applied: bool) | EvaluationStops(rules: nat)

  datatype State = State(
    attempts: Limiters.Table,
    lastSequence: map<string, nat>,
    lastSeen: map<string, Time>,
    metrics: Metrics.Table,
    alerts: seq<Alert>,
    notifyWake: bool)  // a token in the one-slot channel the notifier waits for

  datatype Settings = Settings(limits: Limiters.Limits, cfg: Config)

  function SampleOf(m: Message): Metrics.Sample {
    Metrics.Sample(m.report.agent, m.at, m.report.cpu, m.report.memory)
  }

  /** The request gets as far as the store. */
  predicate Admitted(s: State, r: Request, now: Time, c: Settings) {
    Limiters.Allowed(s.attempts, r.client, now, c.limits) && r.message.Some? && r.valid && r.authorised
  }

  /** The store takes the sequence: the agent is known and has sent only smaller ones. */
  predicate Newer(s: State, m: Message) {
    m.report.agent in s.lastSequence && s.lastSequence[m.report.agent] < m.sequence
  }

  function StatusOf(s: State, r: Request, fault: Fault, now: Time, c: Settings): int {
    if !Limiters.Allowed(s.attempts, r.client, now, c.limits) then 429
    else if r.message.None? then 400
    else if !r.valid then 422
    else if !r.authorised then 401
    else if fault == NoTransaction then 500
    else if !Newer(s, r.message.value) then 409
    else if fault.CommitFails? then 500
    else 202
  }

  /** The report is in the database afterwards, whatever the client is told. */
  predicate Saves(s: State, r: Request, fault: Fault, now: Time, c: Settings) {
    Admitted(s, r, now, c) && Newer(s, r.message.value) && fault != NoTransaction && fault != CommitFails(false)
  }

  /** A report measured too long ago only shows that its agent is online. */
  predicate Fresh(m: Message, now: Time, c: Settings) {
    m.at >= now - c.cfg.offlineAfter
  }

  function AlertsAfter(alerts: seq<Alert>, m: Message, fault: Fault, now: Time, c: Settings): seq<Alert> {
    match fault
    case Works =>
      if Fresh(m, now, c) then Evaluated(alerts, m.report, c.cfg, now)
      else Applied(alerts, OnlineRule(m.report.agent, c.cfg), now)
    case EvaluationStops(k) => if Fresh(m, now, c) then EvaluatedUntil(alerts, m.report, c.cfg, now, k) else alerts
    case _ => alerts
  }

  /** The evaluation got as far as the rule that shows the agent online. */
  predicate ShowsOnline(m: Message, fault: Fault, now: Time, c: Settings) {
    fault == Works || (fault.EvaluationStops? && Fresh(m, now, c) && fault.rules >= 3)
  }

  function Ingested(s: State, r: Request, fault: Fault, now: Time, c: Settings): State {
    var counted := s.(attempts := Limiters.Called(s.attempts, r.client, now, c.limits));
    if !Saves(s, r, fault, now, c) then counted
    else
      var m := r.message.value;
      counted.(lastSequence := s.lastSequence[m.report.agent := m.sequence],
               lastSeen := s.lastSeen[m.report.agent := now],
               metrics := s.metrics.(reports := s.metrics.reports + [SampleOf(m)]),
               alerts := AlertsAfter(s.alerts, m, fault, now, c),
               notifyWake := s.notifyWake || !fault.CommitFails?)
  }

  /** Every agent ever heard of, once, with the time of its last stored report. */
  ghost predicate Lists(agents: seq<LastSeen>, lastSeen: map<string, Time>) {
    && ListedOnce(agents)
    && (forall i | 0 <= i < |agents| :: agents[i].agent in lastSeen && lastSeen[agents[i].agent] == agents[i].at)
    && (forall k | k in lastSeen :: LastSeen(k, lastSeen[k]) in agents)
  }

  /**
   The state and the offline pass in progress: the agents it listed and has not judged yet, and the time of
   its tick. Every rule of the pass is its own transaction, so requests are handled between them.
   */
  datatype World = World(state: State, queue: seq<LastSeen>, passNow: Time)

  /** One agent of the listing is judged by the time listed for it. */
  function Judged(w: World, c: Settings): World
    requires w.queue != []
  {
    w.(state := w.state.(alerts := JudgedRows(w.state.alerts, w.queue[0], w.passNow, c.cfg)), queue := w.queue[1..])
  }

  function JudgedRows(rows: seq<Alert>, listed: LastSeen, passNow: Time, cfg: Config): seq<Alert> {
    Applied(rows, OfflineRule(listed.agent, passNow - listed.at, cfg), passNow)
  }

  class Server {
    const limiter: Limiters.Limiter
    const store: Metrics.Store
    const engine: Engine
    var queue: seq<LastSeen>
    var passNow: Time
    var notifyWake: bool

    constructor (limiter: Limiters.Limiter, store: Metrics.Store, engine: Engine, now: Time)
      ensures this.limiter == limiter && this.store == store && this.engine == engine
      ensures queue == [] && passNow == now && !notifyWake
    {
      this.limiter, this.store, this.engine := limiter, store, engine;
      queue, passNow, notifyWake := [], now, false;
    }

    function Configured(): Settings {
      Settings(limiter.limits, engine.cfg)
    }

    function View(): World
      reads this, limiter, store, engine.store
    {
      World(State(limiter.View(), store.lastSequence, store.lastSeen, store.View(), engine.store.alerts, notifyWake),
            queue, passNow)
    }

    method Ingest(r: Request, fault: Fault, now: Time) returns (status: int)
      requires WellFormed(engine.store.alerts)
      modifies this`notifyWake, limiter, store, engine.store
      ensures status == StatusOf(old(View()).state, r, fault, now, Configured())
      ensures View() == old(View()).(state := Ingested(old(View()).state, r, fault, now, Configured()))
    {
      var allowed := limiter.Allow(r.client, now);
      if !allowed {
        return 429;
      }
      if r.message.None? {
        return 400;
      }
      if !r.valid {
        return 422;
      }
      if !r.authorised {
        return 401;
      }
      var m := r.message.value;
      status := SaveReport(m, fault, now);
      if status != 202 {
        return;
      }
      EvaluateStored(m, fault, now);
      notifyWake := true;
    }

    /** An error of the evaluation is only logged. */
    method EvaluateStored(m: Message, fault: Fault, now: Time)
      requires WellFormed(engine.store.alerts) && (fault == Works || fault.EvaluationStops?)
      modifies engine.store
      ensures engine.store.alerts == AlertsAfter(old(engine.store.alerts), m, fault, now, Configured())
    {
      if m.at >= now - engine.cfg.offlineAfter {
        var _ := engine.EvaluateReport(m.report, now, if fault == Works then None else Some(fault.rules));
      } else if fault == Works {
        engine.ResolveOnline(m.report.agent, now);
      }
    }

    /** The store's transaction, and the status its outcome is answered with. */
    method SaveReport(m: Message, fault: Fault, now: Time) returns (status: int)
      modifies store
      ensures var newer, before := old(Newer(View().state, m)), old(View()).state;
              var saved := newer && fault != NoTransaction && fault != CommitFails(false);
              && status == (if fault == NoTransaction then 500 else if !newer then 409
                            else if fault.CommitFails? then 500 else 202)
              && store.lastSequence == (if saved then before.lastSequence[m.report.agent := m.sequence]
                                        else before.lastSequence)
              && store.lastSeen == (if saved then before.lastSeen[m.report.agent := now] else before.lastSeen)
              && store.View() == if saved then before.metrics.(reports := before.metrics.reports + [SampleOf(m)])
                                 else before.metrics
    {
      if fault == NoTransaction {
        return 500;
      }
      if fault == CommitFails(false) {
        return if Newer(View().state, m) then 500 else 409;
      }
      var saved := store.SaveReport(m.sequence, SampleOf(m), now);
      status := if !saved then 409 else if fault.CommitFails? then 500 else 202;
    }

    method AgentLastSeen() returns (agents: seq<LastSeen>)
      ensures Lists(agents, store.lastSeen)
    {
      agents := [];
      var rest := store.lastSeen;
      while rest != map[]
        invariant rest.Keys <= store.lastSeen.Keys
        invariant forall k | k in rest :: rest[k] == store.lastSeen[k]
        invariant forall i | 0 <= i < |agents| ::
                    && agents[i].agent in store.lastSeen && agents[i].agent !in rest
                    && store.lastSeen[agents[i].agent] == agents[i].at
        invariant ListedOnce(agents)
        invariant forall k | k in store.lastSeen && k !in rest :: LastSeen(k, store.lastSeen[k]) in agents
        decreases |rest|
      {
        var k :| k in rest;
        agents := agents + [LastSeen(k, rest[k])];
        rest := rest - {k};
      }
    }

    /** The pass begins: one query lists the agents. */
    method BeginPass(now: Time)
      requires queue == []
      modifies this`queue, this`passNow
      ensures Lists(queue, old(View()).state.lastSeen)
      ensures View() == old(View()).(queue := queue, passNow := now)
    {
      queue := AgentLastSeen();
      passNow := now;
    }

    /** One more agent of the listing: one rule, one transaction. */
    method JudgeNext()
      requires queue != []
      modifies this`queue, engine.store
      ensures View() == Judged(old(View()), Configured())
    {
      var seconds := Seconds(passNow - queue[0].at);
      if seconds < 0.0 {
        seconds := 0.0;
      }
      var rule := Evaluation(Key(queue[0].agent, "agent_offline", ""), Critical, seconds,
                             Seconds(engine.cfg.offlineAfter), seconds > Seconds(engine.cfg.offlineAfter), 0, 0);
      var _ := engine.store.ApplyRule(rule, passNow);
      queue := queue[1..];
    }

    /** A rule that fails, or the end of its time, ends the pass. */
    method AbandonPass()
      modifies this`queue
      ensures View() == old(View()).(queue := [])
    {
      queue := [];
    }
  }

  // ----- a pass that nothing interrupts -----

  function JudgedFirst(w: World, k: nat, c: Settings): World
    requires k <= |w.queue|
    ensures JudgedFirst(w, k, c).queue == w.queue[k..]
  {
    if k == 0 then w else Judged(JudgedFirst(w, k - 1, c), c)
  }

  /** Judging a whole listing in one go is what EvaluateOffline promises. */
  lemma {:induction false} UninterruptedPass(w: World, k: nat, c: Settings)
    requires k <= |w.queue|
    ensures JudgedFirst(w, k, c) ==
            w.(state := w.state.(alerts := ApplyAll(w.state.alerts, OfflineRules(w.queue[..k], c.cfg, w.passNow),
                                                    w.passNow)),
               queue := w.queue[k..])
  {
    if k > 0 {
      UninterruptedPass(w, k - 1, c);
      assert Init(w.queue[..k]) == w.queue[..k - 1];
      var before := OfflineRules(w.queue[..k - 1], c.cfg, w.passNow);
      var rule := OfflineRule(w.queue[k - 1].agent, w.passNow - w.queue[k - 1].at, c.cfg);
      assert OfflineRules(w.queue[..k], c.cfg, w.passNow) == before + [rule] && Init(before + [rule]) == before;
    }
  }

  // ----- what one request may do -----

  lemma SweepKeepsWellFormed(rows: seq<Alert>, report: Report, rules: seq<Evaluation>, now: Time)
    requires WellFormed(rows)
    ensures WellFormed(Swept(rows, report, rules, now))
  {
  }

  lemma EvaluationKeepsWellFormed(alerts: seq<Alert>, report: Report, cfg: Config, now: Time)
    requires WellFormed(alerts)
    ensures WellFormed(Evaluated(alerts, report, cfg, now))
  {
    var rules := ReportRules(report, cfg);
    LastRuleDecides(alerts, rules, now, Key("", "", ""));
    SweepKeepsWellFormed(ApplyAll(alerts, rules, now), report, rules, now);
  }

  /** A refused request leaves all but the client's attempts as it was; 202 means stored, and the notifier woken. */
  lemma StatusTellsTheEffect(s: State, r: Request, fault: Fault, now: Time, c: Settings)
    ensures var status, after := StatusOf(s, r, fault, now, c), Ingested(s, r, fault, now, c);
            && (status != 202 && status != 500 ==> after == s.(attempts := after.attempts))
            && (status != 202 ==> after.alerts == s.alerts)
            && (status == 202 <==> Saves(s, r, fault, now, c) && !fault.CommitFails?)
            && (after.notifyWake <==> s.notifyWake || status == 202)
            && (status == 409 ==> r.message.value.report.agent in s.lastSequence ==>
                  s.lastSequence[r.message.value.report.agent] >= r.message.value.sequence)
  {
  }

  /** An old report clears the agent's offline alert and touches no other alert. */
  lemma OldReportOnlyClearsOffline(s: State, r: Request, now: Time, c: Settings, key: Key)
    requires WellFormed(s.alerts) && StatusOf(s, r, Works, now, c) == 202 && !Fresh(r.message.value, now, c)
    ensures IsActive(Ingested(s, r, Works, now, c).alerts, key) <==>
              IsActive(s.alerts, key) && key != Key(r.message.value.report.agent, "agent_offline", "")
  {
    RuleDecidesItsKey(s.alerts, OnlineRule(r.message.value.report.agent, c.cfg), now, key);
  }

  // ----- the server of the delivery protocol -----

  /** The handler's outcome in the terms of the delivery protocol. */
  function VerdictOf(s: State, r: Request, fault: Fault, now: Time, c: Settings): Delivery.Verdict {
    if !Limiters.Allowed(s.attempts, r.client, now, c.limits) then Delivery.RateLimited
    else if r.message.None? then Delivery.Malformed
    else if !r.valid then Delivery.Invalid
    else if !r.authorised then Delivery.Unauthorized
    else if fault == NoTransaction then Delivery.StoreFailed(false)
    else if !fault.CommitFails? || !Newer(s, r.message.value) then Delivery.Stored
    else Delivery.StoreFailed(fault.applied)
  }

  /**
   The delivery protocol's server is this handler: with the same last sequence, it gives the same status,
   stores in the same cases, and moves the last sequence alike.
   */
  lemma HandlerIsTheProtocolServer(
      s: State, r: Request, fault: Fault, now: Time, c: Settings, w: Delivery.World, agent: string, attempt: nat)
    requires agent in s.lastSequence && s.lastSequence[agent] == w.last && attempt < |w.requests|
    requires r.message.Some? ==>
               r.message.value.report.agent == agent && r.message.value.sequence == w.requests[attempt]
    ensures var verdict := VerdictOf(s, r, fault, now, c);
            && StatusOf(s, r, fault, now, c) == Delivery.StatusOf(w, w.requests[attempt], verdict)
            && (Saves(s, r, fault, now, c) <==> Delivery.Inserts(w, w.requests[attempt], verdict))
            && Ingested(s, r, fault, now, c).lastSequence[agent]
               == Delivery.Next(w, Delivery.Serve(attempt, verdict)).last
  {
  }
}
