/**
 The engine over sequences of reports: when an alert of an agent is firing, in terms of the last reports of
 that agent alone, and what severity it has; reports of other agents, offline passes, acknowledgements and marks
 come in between.
 */
module ReportRuns {
  import opened Prelude
  import opened Alerts
  import opened AlertRuns
  import opened Streaks
  import opened Engines
  import opened EngineTheorems

  datatype Happening =
    | Reported(report: Report, now: Time)                      // a report is evaluated
    | ShownOnline(agent: string, now: Time)                    // an old report only shows that its agent is online
    | Judged(listed: LastSeen, now: Time)                      // an offline pass judges an agent
    | Acknowledged(id: nat, actor: string, now: Time)
    | Marked(seen: Snapshot, notice: Notice, now: Time)

  /** The step of the alerts table, for all but a report. */
  function StepOf(h: Happening, cfg: Config): Step
    requires !h.Reported?
  {
    match h
    case ShownOnline(agent, now) => Evaluate(OnlineRule(agent, cfg), now)
    case Judged(listed, now) => Evaluate(OfflineRule(listed.agent, now - listed.at, cfg), now)
    case Acknowledged(id, actor, now) => Acknowledge(id, actor, now)
    case Marked(seen, notice, now) => Mark(seen, notice, now)
  }

  function Table(run: seq<Happening>, cfg: Config): seq<Alert> {
    if run == [] then []
    else
      var before := Table(Init(run), cfg);
      if Last(run).Reported? then Evaluated(before, Last(run).report, cfg, Last(run).now)
      else StepRows(before, StepOf(Last(run), cfg))
  }

  // ----- the rules about one key -----

  /** All rules for the key, in order. */
  function RulesFor(rules: seq<Evaluation>, key: Key): seq<Evaluation> {
    if rules == [] then []
    else RulesFor(Init(rules), key) + if Last(rules).key == key then [Last(rules)] else []
  }

  lemma {:induction false} RulesForConcat(a: seq<Evaluation>, b: seq<Evaluation>, key: Key)
    ensures RulesFor(a + b, key) == RulesFor(a, key) + RulesFor(b, key)
  {
    if b == [] {
      assert a + b == a;
    } else {
      assert Init(a + b) == a + Init(b);
      RulesForConcat(a, Init(b), key);
    }
  }

  lemma {:induction false} RulesForNone(rules: seq<Evaluation>, key: Key)
    ensures RulesFor(rules, key) == [] <==> !Mentions(rules, key)
  {
    if rules != [] {
      RulesForNone(Init(rules), key);
      if Mentions(Init(rules), key) {
        var k :| 0 <= k < |Init(rules)| && Init(rules)[k].key == key;
        assert rules[k].key == key;
      }
    }
  }

  lemma RulesForPair(a: Evaluation, b: Evaluation, key: Key)
    ensures RulesFor([a], key) == if a.key == key then [a] else []
    ensures RulesFor([a, b], key) == RulesFor([a], key) + RulesFor([b], key)
  {
    assert Init([a]) == [] && Init([a, b]) == [a];
  }

  /** No two entries of the list have the property. */
  ghost predicate AtMostOne<T(!new)>(items: seq<T>, p: T -> bool) {
    forall i, j | 0 <= i < j < |items| :: !(p(items[i]) && p(items[j]))
  }

  /** If only one entry can give rules for the key, they are its rules. */
  lemma {:induction false} RulesForEach<T(!new)>(items: seq<T>, rulesOf: T -> seq<Evaluation>, p: T -> bool, key: Key)
    requires forall x :: x in items && !p(x) ==> RulesFor(rulesOf(x), key) == []
    requires AtMostOne(items, p)
    ensures RulesFor(Each(items, rulesOf), key) ==
            match FindLast(items, p) case None => [] case Some(x) => RulesFor(rulesOf(x), key)
  {
    if items != [] {
      RulesForEach(Init(items), rulesOf, p, key);
      RulesForConcat(Each(Init(items), rulesOf), rulesOf(Last(items)), key);
      assert Last(items) in items;
      if p(Last(items)) {
        NotFound(items, p);
      }
    }
  }

  lemma NotFound<T(!new)>(items: seq<T>, p: T -> bool)
    requires items != [] && AtMostOne(items, p) && p(Last(items))
    ensures FindLast(Init(items), p) == None
  {
  }

  // ----- the rules of one report about one key -----

  lemma RulesForFive(a: seq<Evaluation>, b: seq<Evaluation>, c: seq<Evaluation>, d: seq<Evaluation>,
                     e: seq<Evaluation>, key: Key)
    ensures RulesFor(a + b + c + d + e, key)
            == RulesFor(a, key) + RulesFor(b, key) + RulesFor(c, key) + RulesFor(d, key) + RulesFor(e, key)
  {
    RulesForConcat(a, b, key);
    RulesForConcat(a + b, c, key);
    RulesForConcat(a + b + c, d, key);
    RulesForConcat(a + b + c + d, e, key);
  }

  lemma NoLastRuleNoRules(rules: seq<Evaluation>, key: Key)
    requires ViolatedBy(LastRule(rules, key)) == None
    ensures RulesFor(rules, key) == []
  {
    LastRuleMentions(rules, key);
    RulesForNone(rules, key);
  }

  function CheckList(report: Report, cfg: Config): seq<Evaluation> {
    Each(report.checks, c => CheckRules(report.agent, c, cfg))
  }

  lemma HostOrCheckRules(report: Report, cfg: Config, key: Key)
    requires key.agent == report.agent
    ensures Section(key.rule) == 1 ==> RulesFor(ReportRules(report, cfg), key) == RulesFor(HostRules(report, cfg), key)
    ensures Section(key.rule) == 5 ==> RulesFor(ReportRules(report, cfg), key) == RulesFor(CheckList(report, cfg), key)
  {
    var disks := Each(report.filesystems, f => FilesystemRules(report.agent, f, cfg));
    var services := Each(report.services, s => ServiceRules(report.agent, s));
    var containers := Each(report.docker.containers, c => ContainerRules(report.agent, c));
    if Section(key.rule) == 1 || Section(key.rule) == 5 {
      HostVerdict(report, cfg, key);
      FilesystemVerdict(report, cfg, key);
      ServiceVerdict(report, cfg, key);
      ContainerVerdict(report, cfg, key);
      CheckVerdict(report, cfg, key);
      NoLastRuleNoRules(disks, key);
      NoLastRuleNoRules(services, key);
      NoLastRuleNoRules(containers, key);
      NoLastRuleNoRules(if Section(key.rule) == 1 then CheckList(report, cfg) else HostRules(report, cfg), key);
      RulesForFive(HostRules(report, cfg), disks, services, containers, CheckList(report, cfg), key);
    }
  }

  /** A usage limit gives each report one rule, with the configured duration and no count. */
  lemma UsageRule(report: Report, cfg: Config, rule: string)
    requires rule == "cpu_high" || rule == "memory_high"
    ensures RulesFor(ReportRules(report, cfg), Key(report.agent, rule, "")) ==
            [if rule == "cpu_high"
             then Evaluation(Key(report.agent, rule, ""), Critical, report.cpu, cfg.cpuThreshold,
                             report.cpu > cfg.cpuThreshold, cfg.highUsageDuration, 0)
             else Evaluation(Key(report.agent, rule, ""), Critical, report.memory, cfg.memoryThreshold,
                             report.memory > cfg.memoryThreshold, cfg.highUsageDuration, 0)]
  {
    var key, host := Key(report.agent, rule, ""), HostRules(report, cfg);
    HostOrCheckRules(report, cfg, key);
    RulesForThree(host[0], host[1], host[2], key);
  }

  lemma RulesForThree(a: Evaluation, b: Evaluation, c: Evaluation, key: Key)
    ensures RulesFor([a, b, c], key) == RulesFor([a], key) + RulesFor([b], key) + RulesFor([c], key)
    ensures forall x | x in {a, b, c} :: RulesFor([x], key) == if x.key == key then [x] else []
  {
    assert [a, b] + [c] == [a, b, c];
    RulesForConcat([a, b], [c], key);
    RulesForPair(a, b, key);
    RulesForPair(c, c, key);
  }

  ghost predicate DistinctChecks(report: Report) {
    forall i, j | 0 <= i < j < |report.checks| :: report.checks[i].name != report.checks[j].name
  }

  /** A check, by a name of its own, gives each report one rule, with the configured count and no duration. */
  lemma HttpRule(report: Report, cfg: Config, name: string)
    requires DistinctChecks(report)
    ensures RulesFor(ReportRules(report, cfg), HttpKey(report.agent, name)) == RulesOfCheck(report, cfg, name)
  {
    assert Section(HttpKey(report.agent, name).rule) == 5;
    HostOrCheckRules(report, cfg, HttpKey(report.agent, name));
    ChecksGiveOneRule(report, cfg, name);
  }

  function HttpKey(agent: string, name: string): Key {
    Key(agent, "http_failed", name)
  }

  /** What the report's entry of that name, if it has one, is evaluated as. */
  function RulesOfCheck(report: Report, cfg: Config, name: string): seq<Evaluation> {
    match CheckNamed(report, name)
    case None => []
    case Some(c) =>
      [Evaluation(HttpKey(report.agent, name), Critical, c.statusCode as real, 399.0, !c.ok, 0, cfg.httpFailureCount)]
  }

  lemma ChecksGiveOneRule(report: Report, cfg: Config, name: string)
    requires DistinctChecks(report)
    ensures RulesFor(CheckList(report, cfg), HttpKey(report.agent, name)) == RulesOfCheck(report, cfg, name)
  {
    var key, named := HttpKey(report.agent, name), (c: Check) => c.name == name;
    forall c | c in report.checks && !named(c) ensures RulesFor(CheckRules(report.agent, c, cfg), key) == [] {
      OneCheckRule(report.agent, c, cfg, key);
    }
    RulesForEach(report.checks, c => CheckRules(report.agent, c, cfg), named, key);
    var found := CheckNamed(report, name);
    if found.Some? {
      OneCheckRule(report.agent, found.value, cfg, key);
    }
  }

  lemma OneCheckRule(agent: string, c: Check, cfg: Config, key: Key)
    requires key.agent == agent && key.rule == "http_failed"
    ensures RulesFor(CheckRules(agent, c, cfg), key) ==
            if c.name != key.resource then []
            else [Evaluation(key, Critical, c.statusCode as real, 399.0, !c.ok, 0, cfg.httpFailureCount)]
  {
    var rules := CheckRules(agent, c, cfg);
    RulesForPair(rules[0], rules[if |rules| > 1 then 1 else 0], key);
    assert rules == if |rules| > 1 then [rules[0], rules[1]] else [rules[0]];
  }

  // ----- the table follows the observations -----

  /** What happens to a key's streak: its rules, or the end of it where the report's silence settles the alert. */
  function Observed(h: Happening, cfg: Config, key: Key): seq<Observation> {
    if !h.Reported? || h.report.agent != key.agent then []
    else
      var rules := RulesFor(ReportRules(h.report, cfg), key);
      if rules != [] then At(rules, h.now)
      else if SilenceResolves(h.report, key) then
        [Observation(Evaluation(key, Critical, 0.0, 0.0, false, 0, 0), h.now)]
      else []
  }

  function At(rules: seq<Evaluation>, now: Time): seq<Observation> {
    if rules == [] then [] else At(Init(rules), now) + [Observation(Last(rules), now)]
  }

  function Observations(run: seq<Happening>, cfg: Config, key: Key): seq<Observation> {
    if run == [] then [] else Observations(Init(run), cfg, key) + Observed(Last(run), cfg, key)
  }

  lemma {:induction false} RulesKeepSummary(
      rows: seq<Alert>, rules: seq<Evaluation>, now: Time, key: Key, history: seq<Observation>)
    requires WellFormed(rows) && Refines(rows, key, Streak(history))
    ensures WellFormed(ApplyAll(rows, rules, now))
    ensures Refines(ApplyAll(rows, rules, now), key, Streak(history + At(RulesFor(rules, key), now)))
  {
    if rules == [] {
      assert history + [] == history;
    } else {
      RulesKeepSummary(rows, Init(rules), now, key, history);
      var before, earlier := ApplyAll(rows, Init(rules), now), RulesFor(Init(rules), key);
      StepKeepsWellFormed(before, Evaluate(Last(rules), now));
      if Last(rules).key == key {
        EvaluationKeepsSummary(before, Last(rules), now, history + At(earlier, now));
        assert Init(earlier + [Last(rules)]) == earlier;
        assert history + At(earlier, now) + [Observation(Last(rules), now)]
               == history + At(earlier + [Last(rules)], now);
      } else {
        OtherStepsKeepSummary(before, Evaluate(Last(rules), now), key, Streak(history + At(earlier, now)));
        assert earlier + [] == earlier;
      }
    }
  }

  lemma SweepKeepsTable(rows: seq<Alert>, report: Report, rules: seq<Evaluation>, now: Time)
    requires WellFormed(rows)
    ensures WellFormed(Swept(rows, report, rules, now))
  {
  }

  /** The report's silence ends the streak, or the sweep leaves the key's row alone. */
  predicate Silenced(report: Report, rules: seq<Evaluation>, key: Key) {
    key.agent == report.agent && !Mentions(rules, key) && SilenceResolves(report, key)
  }

  lemma SweepKeepsSummary(
      rows: seq<Alert>, report: Report, rules: seq<Evaluation>, now: Time, key: Key, streak: seq<Observation>)
    requires Refines(rows, key, streak) && !Silenced(report, rules, key)
    ensures Refines(Swept(rows, report, rules, now), key, streak)
  {
    SameActive(rows, Swept(rows, report, rules, now), key);
  }

  lemma SilenceEndsStreak(rows: seq<Alert>, report: Report, rules: seq<Evaluation>, now: Time, key: Key)
    requires Silenced(report, rules, key)
    ensures Refines(Swept(rows, report, rules, now), key, [])
  {
    SweepResolvesSilence(rows, report, rules, now, key);
  }

  lemma OtherAgentsRules(report: Report, cfg: Config, key: Key)
    requires key.agent != report.agent
    ensures RulesFor(ReportRules(report, cfg), key) == []
  {
    var rules := ReportRules(report, cfg);
    RulesNameTheAgent(report, cfg);
    assert forall k | 0 <= k < |rules| :: rules[k] in rules;
    RulesForNone(rules, key);
  }

  lemma ReportKeepsSummary(
      rows: seq<Alert>, report: Report, cfg: Config, now: Time, key: Key, history: seq<Observation>)
    requires WellFormed(rows) && Refines(rows, key, Streak(history))
    ensures WellFormed(Evaluated(rows, report, cfg, now))
    ensures Refines(Evaluated(rows, report, cfg, now), key,
                    Streak(history + Observed(Reported(report, now), cfg, key)))
  {
    var rules := ReportRules(report, cfg);
    var applied, own := ApplyAll(rows, rules, now), RulesFor(rules, key);
    RulesKeepSummary(rows, rules, now, key, history);
    RulesForNone(rules, key);
    SweepKeepsTable(applied, report, rules, now);
    assert history + [] == history;
    if key.agent != report.agent {
      OtherAgentsRules(report, cfg, key);
    }
    if Silenced(report, rules, key) {
      SilenceEndsStreak(applied, report, rules, now, key);
      var ending := Observation(Evaluation(key, Critical, 0.0, 0.0, false, 0, 0), now);
      assert Last(history + [ending]) == ending;
    } else {
      SweepKeepsSummary(applied, report, rules, now, key, Streak(history + At(own, now)));
    }
  }

  /**
   After every run of reports and everything else, for every key that is not about the agent being offline: the
   active row summarises the streak of violations in the reports of its agent.
   */
  lemma {:induction false} TableFollowsTheReports(run: seq<Happening>, cfg: Config, key: Key)
    requires key.rule != "agent_offline"
    ensures WellFormed(Table(run, cfg))
    ensures Refines(Table(run, cfg), key, Streak(Observations(run, cfg, key)))
  {
    if run != [] {
      TableFollowsTheReports(Init(run), cfg, key);
      var before, history := Table(Init(run), cfg), Observations(Init(run), cfg, key);
      if Last(run).Reported? {
        ReportKeepsSummary(before, Last(run).report, cfg, Last(run).now, key, history);
      } else {
        StepKeepsWellFormed(before, StepOf(Last(run), cfg));
        OtherStepsKeepSummary(before, StepOf(Last(run), cfg), key, Streak(history));
        assert history + [] == history;
      }
    }
  }

  // ----- in terms of the last reports -----

  datatype Receipt = Receipt(report: Report, now: Time)

  /** The agent's reports, in the order in which they were evaluated. */
  function Receipts(run: seq<Happening>, agent: string): seq<Receipt> {
    if run == [] then []
    else
      var earlier := Receipts(Init(run), agent);
      if Last(run).Reported? && Last(run).report.agent == agent
      then earlier + [Receipt(Last(run).report, Last(run).now)] else earlier
  }

  /** What a rule looks at in a report, and when it fires. */
  datatype Terms = Terms(
    bad: Report -> bool, value: Report -> real, threshold: real, duration: Time, consecutive: int)

  /** The observation is of this report: violated exactly if the report is bad, and then on the rule's terms. */
  predicate Observes(o: Observation, receipt: Receipt, terms: Terms) {
    && o.now == receipt.now
    && (o.ev.violated <==> terms.bad(receipt.report))
    && (o.ev.violated ==>
          && o.ev.severity == Critical && o.ev.value == terms.value(receipt.report)
          && o.ev.threshold == terms.threshold
          && o.ev.duration == terms.duration && o.ev.consecutive == terms.consecutive)
  }

  ghost predicate OnePerReport(observations: seq<Observation>, receipts: seq<Receipt>, terms: Terms) {
    && |observations| == |receipts|
    && forall i | 0 <= i < |receipts| :: Observes(observations[i], receipts[i], terms)
  }

  /** The last n of the reports are bad. */
  ghost predicate LastBad(receipts: seq<Receipt>, n: nat, bad: Report -> bool) {
    n <= |receipts| && forall i | |receipts| - n <= i < |receipts| :: bad(receipts[i].report)
  }

  predicate IsFiring(rows: seq<Alert>, key: Key) {
    var id := ActiveIndex(rows, key);
    id.Some? && rows[id.value].state == Firing
  }

  /** The streak is as long as the bad end of the reports. */
  lemma {:induction false} StreakIsTheBadEnd(
      observations: seq<Observation>, receipts: seq<Receipt>, terms: Terms, n: nat)
    requires OnePerReport(observations, receipts, terms)
    ensures |Streak(observations)| <= |receipts|
    ensures LastBad(receipts, n, terms.bad) <==> n <= |Streak(observations)|
  {
    StreakIsTheLongestViolatedSuffix(observations);
    var m := |Streak(observations)|;
    if m < n <= |receipts| {
      assert Observes(observations[|receipts| - m - 1], receipts[|receipts| - m - 1], terms);
    } else if n <= m {
      forall i | |receipts| - n <= i < |receipts| ensures terms.bad(receipts[i].report) {
        assert Observes(observations[i], receipts[i], terms);
      }
    }
  }

  lemma {:induction false} StreakObserves(observations: seq<Observation>, receipts: seq<Receipt>, terms: Terms, i: nat)
    requires OnePerReport(observations, receipts, terms) && i < |Streak(observations)|
    ensures |Streak(observations)| <= |receipts|
    ensures Observes(Streak(observations)[i], receipts[|receipts| - |Streak(observations)| + i], terms)
    ensures Streak(observations)[i].ev.violated
  {
    StreakIsTheLongestViolatedSuffix(observations);
    var m := |Streak(observations)|;
    SuffixObserves(observations, receipts, terms, m, i);
    assert observations[|observations| - m + i].ev.violated;
  }

  lemma {:induction false} SuffixObserves(
      observations: seq<Observation>, receipts: seq<Receipt>, terms: Terms, m: nat, i: nat)
    requires OnePerReport(observations, receipts, terms) && i < m <= |observations|
    ensures m <= |receipts| && observations[|observations| - m..][i] == observations[|observations| - m + i]
    ensures Observes(observations[|observations| - m..][i], receipts[|receipts| - m + i], terms)
  {
    assert Observes(observations[|receipts| - m + i], receipts[|receipts| - m + i], terms);
  }

  /** With a count: firing exactly when at least so many of the last reports are bad. */
  lemma {:induction false} FiringByReports(
      rows: seq<Alert>, key: Key, observations: seq<Observation>, receipts: seq<Receipt>, terms: Terms)
    requires Refines(rows, key, Streak(observations)) && OnePerReport(observations, receipts, terms)
    requires terms.consecutive >= 1 && terms.duration == 0
    ensures IsFiring(rows, key) <==> LastBad(receipts, terms.consecutive, terms.bad)
  {
    var streak := Streak(observations);
    StreakIsTheBadEnd(observations, receipts, terms, terms.consecutive);
    forall i | 0 <= i < |streak|
      ensures ReachedAt(streak, i) <==> if terms.consecutive > 1 then i + 1 >= terms.consecutive
                                        else streak[i].now - streak[0].now >= 0
    {
      StreakObserves(observations, receipts, terms, i);
    }
    if |streak| >= terms.consecutive {
      assert ReachedAt(streak, terms.consecutive - 1);
    }
  }

  /** The reports were evaluated in the order of the clock. */
  ghost predicate InOrder(receipts: seq<Receipt>) {
    forall i, j | 0 <= i < j < |receipts| :: receipts[i].now <= receipts[j].now
  }

  /** The last reports are bad, and the first and the last of them at least a span apart. */
  ghost predicate BadFor(receipts: seq<Receipt>, span: Time, bad: Report -> bool) {
    exists n | 1 <= n <= |receipts| ::
      LastBad(receipts, n, bad) && Last(receipts).now - receipts[|receipts| - n].now >= span
  }

  /** Bad for as long: so is the streak. */
  lemma {:induction false} LongEnough(observations: seq<Observation>, receipts: seq<Receipt>, terms: Terms)
    requires OnePerReport(observations, receipts, terms) && InOrder(receipts)
    requires BadFor(receipts, terms.duration, terms.bad)
    ensures var m := |Streak(observations)|;
            1 <= m <= |receipts| && Last(receipts).now - receipts[|receipts| - m].now >= terms.duration
  {
    var n :| 1 <= n <= |receipts| && LastBad(receipts, n, terms.bad)
             && Last(receipts).now - receipts[|receipts| - n].now >= terms.duration;
    StreakIsTheBadEnd(observations, receipts, terms, n);
  }

  lemma {:induction false} ReachedBySpan(observations: seq<Observation>, receipts: seq<Receipt>, terms: Terms, i: nat)
    requires OnePerReport(observations, receipts, terms) && i < |Streak(observations)| && terms.consecutive <= 1
    ensures var streak := Streak(observations);
            && |streak| <= |receipts| && streak[i].now == receipts[|receipts| - |streak| + i].now
            && (ReachedAt(streak, i) <==> streak[i].now - streak[0].now >= terms.duration)
  {
    StreakObserves(observations, receipts, terms, i);
  }

  /** With a duration: firing exactly when the last reports have been bad for as long. */
  lemma {:induction false} FiringBySpan(
      rows: seq<Alert>, key: Key, observations: seq<Observation>, receipts: seq<Receipt>, terms: Terms)
    requires Refines(rows, key, Streak(observations)) && OnePerReport(observations, receipts, terms)
    requires terms.consecutive <= 1 && InOrder(receipts)
    ensures IsFiring(rows, key) <==> BadFor(receipts, terms.duration, terms.bad)
  {
    var streak := Streak(observations);
    var m := |streak|;
    forall i | 0 <= i < m
      ensures m <= |receipts| && streak[i].now == receipts[|receipts| - m + i].now
      ensures ReachedAt(streak, i) <==> streak[i].now - streak[0].now >= terms.duration
    {
      ReachedBySpan(observations, receipts, terms, i);
    }
    StreakIsTheBadEnd(observations, receipts, terms, m);
    if IsFiring(rows, key) {
      assert LastBad(receipts, m, terms.bad);
    }
    if BadFor(receipts, terms.duration, terms.bad) {
      LongEnough(observations, receipts, terms);
      assert ReachedAt(streak, m - 1);
    }
  }

  /** An active row shows the last report, since the first of the bad ones. */
  lemma {:induction false} RowShowsTheReports(
      rows: seq<Alert>, key: Key, observations: seq<Observation>, receipts: seq<Receipt>, terms: Terms)
    requires Refines(rows, key, Streak(observations)) && OnePerReport(observations, receipts, terms)
    ensures IsActive(rows, key) <==> LastBad(receipts, 1, terms.bad)
    ensures IsActive(rows, key) ==> Shows(rows[ActiveIndex(rows, key).value], receipts, terms)
  {
    StreakIsTheBadEnd(observations, receipts, terms, 1);
    var streak := Streak(observations);
    if streak != [] {
      StreakIsTheBadEnd(observations, receipts, terms, |streak|);
      StreakIsTheBadEnd(observations, receipts, terms, |streak| + 1);
      StreakObserves(observations, receipts, terms, 0);
      StreakObserves(observations, receipts, terms, |streak| - 1);
    }
  }

  /** Critical, with the last report's value; it counts the bad reports at the end and started with their first. */
  ghost predicate Shows(a: Alert, receipts: seq<Receipt>, terms: Terms) {
    && receipts != [] && a.severity == Critical
    && a.value == terms.value(Last(receipts).report) && a.threshold == terms.threshold
    && LastBad(receipts, a.violations, terms.bad) && !LastBad(receipts, a.violations + 1, terms.bad)
    && 1 <= a.violations && a.startedAt == receipts[|receipts| - a.violations].now
  }

  // ----- checks -----

  /** The report says that the check failed. */
  function FailsCheck(name: string): Report -> bool {
    (r: Report) => exists c | c in r.checks :: c.name == name && !c.ok
  }

  function StatusOfCheck(name: string): Report -> real {
    (r: Report) => if CheckNamed(r, name).Some? then CheckNamed(r, name).value.statusCode as real else 0.0
  }

  function HttpTerms(cfg: Config, name: string): Terms {
    Terms(FailsCheck(name), StatusOfCheck(name), 399.0, 0, cfg.httpFailureCount)
  }

  lemma CheckIsTheNamedOne(report: Report, name: string)
    requires DistinctChecks(report)
    ensures FailsCheck(name)(report) <==> CheckNamed(report, name).Some? && !CheckNamed(report, name).value.ok
  {
    forall c | c in report.checks && c.name == name ensures CheckNamed(report, name) == Some(c) {
      var i :| 0 <= i < |report.checks| && report.checks[i] == c;
      var found := CheckNamed(report, name).value;
      var j :| 0 <= j < |report.checks| && report.checks[j] == found;
    }
  }

  lemma ReportObservesCheck(report: Report, now: Time, cfg: Config, name: string)
    requires DistinctChecks(report)
    ensures var o := Observed(Reported(report, now), cfg, HttpKey(report.agent, name));
            |o| == 1 && Observes(o[0], Receipt(report, now), HttpTerms(cfg, name))
  {
    HttpRule(report, cfg, name);
    CheckIsTheNamedOne(report, name);
    var rules := RulesFor(ReportRules(report, cfg), HttpKey(report.agent, name));
    if rules != [] {
      assert Init(rules) == [] && At(rules, now) == [Observation(rules[0], now)];
    }
  }

  ghost predicate ChecksAreDistinct(receipts: seq<Receipt>) {
    forall i | 0 <= i < |receipts| :: DistinctChecks(receipts[i].report)
  }

  lemma {:induction false} EarlierChecksAreDistinct(run: seq<Happening>, agent: string)
    requires run != [] && ChecksAreDistinct(Receipts(run, agent))
    ensures ChecksAreDistinct(Receipts(Init(run), agent))
    ensures Last(run).Reported? && Last(run).report.agent == agent ==> DistinctChecks(Last(run).report)
  {
    var earlier, all := Receipts(Init(run), agent), Receipts(run, agent);
    assert forall i | 0 <= i < |earlier| :: all[i] == earlier[i];
    assert Last(run).Reported? && Last(run).report.agent == agent ==> all[|all| - 1].report == Last(run).report;
  }

  lemma {:induction false} OneMoreObserved(
      observations: seq<Observation>, receipts: seq<Receipt>, more: seq<Observation>, receipt: Receipt, terms: Terms)
    requires OnePerReport(observations, receipts, terms) && |more| == 1 && Observes(more[0], receipt, terms)
    ensures OnePerReport(observations + more, receipts + [receipt], terms)
  {
  }

  lemma {:induction false} ChecksObserved(run: seq<Happening>, cfg: Config, agent: string, name: string)
    requires ChecksAreDistinct(Receipts(run, agent))
    ensures OnePerReport(Observations(run, cfg, HttpKey(agent, name)), Receipts(run, agent),
                         HttpTerms(cfg, name))
  {
    if run != [] {
      EarlierChecksAreDistinct(run, agent);
      ChecksObserved(Init(run), cfg, agent, name);
      if Last(run).Reported? && Last(run).report.agent == agent {
        var report, now, key := Last(run).report, Last(run).now, HttpKey(agent, name);
        ReportObservesCheck(report, now, cfg, name);
        OneMoreObserved(Observations(Init(run), cfg, key), Receipts(Init(run), agent),
                        Observed(Reported(report, now), cfg, key), Receipt(report, now), HttpTerms(cfg, name));
      }
    }
  }

  /**
   A check's alert is firing exactly when the last `http_failure_count` reports of the agent all say that the
   check failed, and active exactly when the last one does; it is critical, shows the last status code, and
   counts the failures in a row.
   */
  lemma {:induction false} HttpFiresAfterSoManyFailures(run: seq<Happening>, cfg: Config, agent: string, name: string)
    requires cfg.httpFailureCount >= 1 && ChecksAreDistinct(Receipts(run, agent))
    ensures var rows, key, reports := Table(run, cfg), HttpKey(agent, name), Receipts(run, agent);
            && (IsFiring(rows, key) <==> LastBad(reports, cfg.httpFailureCount, FailsCheck(name)))
            && (IsActive(rows, key) <==> LastBad(reports, 1, FailsCheck(name)))
            && (IsActive(rows, key) ==> Shows(rows[ActiveIndex(rows, key).value], reports, HttpTerms(cfg, name)))
  {
    var key := HttpKey(agent, name);
    TableFollowsTheReports(run, cfg, key);
    ChecksObserved(run, cfg, agent, name);
    FiringByReports(Table(run, cfg), key, Observations(run, cfg, key), Receipts(run, agent), HttpTerms(cfg, name));
    RowShowsTheReports(Table(run, cfg), key, Observations(run, cfg, key), Receipts(run, agent), HttpTerms(cfg, name));
  }

  // ----- usage -----

  datatype Usage = Cpu | Memory

  function UsageKey(agent: string, usage: Usage): Key {
    Key(agent, if usage == Cpu then "cpu_high" else "memory_high", "")
  }

  /** The report's usage is above its threshold. */
  function Above(cfg: Config, usage: Usage): Report -> bool {
    (r: Report) => if usage == Cpu then r.cpu > cfg.cpuThreshold else r.memory > cfg.memoryThreshold
  }

  function UsageTerms(cfg: Config, usage: Usage): Terms {
    Terms(Above(cfg, usage), (r: Report) => if usage == Cpu then r.cpu else r.memory,
          if usage == Cpu then cfg.cpuThreshold else cfg.memoryThreshold, cfg.highUsageDuration, 0)
  }

  lemma ReportObservesUsage(report: Report, now: Time, cfg: Config, usage: Usage)
    ensures var o := Observed(Reported(report, now), cfg, UsageKey(report.agent, usage));
            |o| == 1 && Observes(o[0], Receipt(report, now), UsageTerms(cfg, usage))
  {
    UsageRule(report, cfg, UsageKey(report.agent, usage).rule);
    var rules := RulesFor(ReportRules(report, cfg), UsageKey(report.agent, usage));
    assert Init(rules) == [] && At(rules, now) == [Observation(rules[0], now)];
  }

  lemma {:induction false} UsageObserved(run: seq<Happening>, cfg: Config, agent: string, usage: Usage)
    ensures OnePerReport(Observations(run, cfg, UsageKey(agent, usage)), Receipts(run, agent), UsageTerms(cfg, usage))
  {
    if run != [] {
      UsageObserved(Init(run), cfg, agent, usage);
      if Last(run).Reported? && Last(run).report.agent == agent {
        var report, now, key := Last(run).report, Last(run).now, UsageKey(agent, usage);
        ReportObservesUsage(report, now, cfg, usage);
        OneMoreObserved(Observations(Init(run), cfg, key), Receipts(Init(run), agent),
                        Observed(Reported(report, now), cfg, key), Receipt(report, now), UsageTerms(cfg, usage));
      }
    }
  }

  /**
   A usage alert is firing exactly when the last reports of the agent were all above the threshold and span at
   least `high_usage_duration`, and active exactly when the last one was above it.
   */
  lemma {:induction false} UsageFiresAfterTheDuration(run: seq<Happening>, cfg: Config, agent: string, usage: Usage)
    requires InOrder(Receipts(run, agent))
    ensures var rows, key, reports := Table(run, cfg), UsageKey(agent, usage), Receipts(run, agent);
            && (IsFiring(rows, key) <==> BadFor(reports, cfg.highUsageDuration, Above(cfg, usage)))
            && (IsActive(rows, key) <==> LastBad(reports, 1, Above(cfg, usage)))
            && (IsActive(rows, key) ==> Shows(rows[ActiveIndex(rows, key).value], reports, UsageTerms(cfg, usage)))
  {
    var key, terms := UsageKey(agent, usage), UsageTerms(cfg, usage);
    TableFollowsTheReports(run, cfg, key);
    UsageObserved(run, cfg, agent, usage);
    FiringBySpan(Table(run, cfg), key, Observations(run, cfg, key), Receipts(run, agent), terms);
    RowShowsTheReports(Table(run, cfg), key, Observations(run, cfg, key), Receipts(run, agent), terms);
  }

  // ----- severities -----

  /** How severe an alert of this rule is at this value: a full disk is critical, one filling up a warning. */
  predicate Fitting(rule: string, severity: Severity, value: real, cfg: Config) {
    if rule == "disk_warning" then severity == Warning
    else if rule == "tls_expiring" then severity == Critical <==> value <= cfg.tlsCriticalDays
    else severity == Critical
  }

  /** All but usage and checks fire at once. */
  predicate Waits(rule: string) {
    rule == "cpu_high" || rule == "memory_high" || rule == "http_failed"
  }

  predicate RuleFits(ev: Evaluation, cfg: Config) {
    && Fitting(ev.key.rule, ev.severity, ev.value, cfg)
    && (!Waits(ev.key.rule) ==> ev.duration == 0 && ev.consecutive == 0)
  }

  predicate RowFits(a: Alert, cfg: Config) {
    a.Active() ==> Fitting(a.key.rule, a.severity, a.value, cfg) && (!Waits(a.key.rule) ==> a.state == Firing)
  }

  ghost predicate AllFit(rows: seq<Alert>, cfg: Config) {
    forall i | 0 <= i < |rows| :: RowFits(rows[i], cfg)
  }

  lemma {:induction false} EachFits<T>(items: seq<T>, rulesOf: T -> seq<Evaluation>, cfg: Config)
    requires forall x | x in items :: forall ev | ev in rulesOf(x) :: RuleFits(ev, cfg)
    ensures forall ev | ev in Each(items, rulesOf) :: RuleFits(ev, cfg)
  {
    if items != [] {
      assert Last(items) in items && forall x | x in Init(items) :: x in items;
      EachFits(Init(items), rulesOf, cfg);
    }
  }

  lemma ReportRulesFit(report: Report, cfg: Config)
    ensures forall ev | ev in ReportRules(report, cfg) :: RuleFits(ev, cfg)
  {
    EachFits(report.filesystems, f => FilesystemRules(report.agent, f, cfg), cfg);
    EachFits(report.services, s => ServiceRules(report.agent, s), cfg);
    EachFits(report.docker.containers, c => ContainerRules(report.agent, c), cfg);
    EachFits(report.checks, c => CheckRules(report.agent, c, cfg), cfg);
  }

  lemma RuleKeepsFit(rows: seq<Alert>, ev: Evaluation, now: Time, cfg: Config)
    requires AllFit(rows, cfg) && RuleFits(ev, cfg)
    ensures AllFit(Applied(rows, ev, now), cfg)
  {
    var after := Applied(rows, ev, now);
    forall i | 0 <= i < |after| ensures RowFits(after[i], cfg) {
      assert i < |rows| ==> RowFits(rows[i], cfg);
    }
  }

  lemma {:induction false} RulesKeepFit(rows: seq<Alert>, rules: seq<Evaluation>, now: Time, cfg: Config)
    requires AllFit(rows, cfg) && forall ev | ev in rules :: RuleFits(ev, cfg)
    ensures AllFit(ApplyAll(rows, rules, now), cfg)
  {
    if rules != [] {
      assert Last(rules) in rules && forall ev | ev in Init(rules) :: ev in rules;
      RulesKeepFit(rows, Init(rules), now, cfg);
      RuleKeepsFit(ApplyAll(rows, Init(rules), now), Last(rules), now, cfg);
    }
  }

  lemma SweepKeepsFit(rows: seq<Alert>, report: Report, rules: seq<Evaluation>, now: Time, cfg: Config)
    requires AllFit(rows, cfg)
    ensures AllFit(Swept(rows, report, rules, now), cfg)
  {
    var after := Swept(rows, report, rules, now);
    forall i | 0 <= i < |after| ensures RowFits(after[i], cfg) {
      assert RowFits(rows[i], cfg);
    }
  }

  lemma OtherHappeningsKeepFit(rows: seq<Alert>, h: Happening, cfg: Config)
    requires AllFit(rows, cfg) && !h.Reported?
    ensures AllFit(StepRows(rows, StepOf(h, cfg)), cfg)
  {
    match h
    case ShownOnline(agent, now) => RuleKeepsFit(rows, OnlineRule(agent, cfg), now, cfg);
    case Judged(listed, now) => RuleKeepsFit(rows, OfflineRule(listed.agent, now - listed.at, cfg), now, cfg);
    case Acknowledged(id, actor, now) => MarksKeepFit(rows, Acknowledge(id, actor, now), cfg);
    case Marked(seen, notice, now) => MarksKeepFit(rows, Mark(seen, notice, now), cfg);
  }

  lemma MarksKeepFit(rows: seq<Alert>, step: Step, cfg: Config)
    requires AllFit(rows, cfg) && !step.Evaluate?
    ensures AllFit(StepRows(rows, step), cfg)
  {
    forall i | 0 <= i < |rows| ensures RowFits(StepRows(rows, step)[i], cfg) {
      assert RowFits(rows[i], cfg);
    }
  }

  /**
   In every run an active disk warning is a warning, a certificate alert is critical exactly at or below the
   critical number of days, and every other active alert is critical; all but usage and checks are firing as
   soon as they are active.
   */
  lemma {:induction false} SeveritiesFit(run: seq<Happening>, cfg: Config)
    ensures AllFit(Table(run, cfg), cfg)
  {
    if run != [] {
      SeveritiesFit(Init(run), cfg);
      var before := Table(Init(run), cfg);
      match Last(run)
      case Reported(report, now) =>
        var rules := ReportRules(report, cfg);
        ReportRulesFit(report, cfg);
        RulesKeepFit(before, rules, now, cfg);
        SweepKeepsFit(ApplyAll(before, rules, now), report, rules, now, cfg);
      case _ => OtherHappeningsKeepFit(before, Last(run), cfg);
    }
  }
}
