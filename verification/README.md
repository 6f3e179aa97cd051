# Verification of the monitor's stateful core

The repository is a small server-monitoring system: an agent collects reports, keeps them in an
on-disk spool and sends them to a server; the server stores them, turns them into alerts, mails the
alerts, and keeps metric history. This project models the parts of it that are state machines and
proves what they keep over every run.

`dafny verify dfyconfig.toml` checks the whole project.

It has five parts.

1. **Durable delivery** (`sequence`, `spool_names`, `spool`, `sender`, `delivery`, `delivery_safety`,
   `delivery_theorems`, `delivery_answers`). The collector, the sender, the network, the server and the machine
   take separate steps in any order. Requests are processed late, repeatedly or with the answer lost; a crash
   may come between any two steps and keeps or undoes each directory change not yet synced.
2. **Alerts and notifications** (`alerts`, `alert_runs`, `announcements`, `streaks`, `audit_replay`, `in_flight`,
   `notifier`, `cooldown`, `cooldown_exact`, `recoveries`, `held_back`, `engine`, `engine_theorems`,
   `engine_pictures`, `report_runs`). Rule evaluations, acknowledgements and the notification worker's marks
   interleave; the worker mails outside any transaction.
3. **Metric roll-up and history** (`metrics`, `rollup`, `rollup_exact`, `history`, `history_counts`,
   `downsample`). Hourly rows and raw rows are a cache of the log of all accepted reports.
4. **Ingestion and the offline pass** (`ingest`, `stored_reports`, `offline`). The handler that ties the others
   together, and the pass that lists the agents and then judges them one transaction at a time, while reports
   arrive. `HandlerIsTheProtocolServer` connects the handler to the server of the delivery protocol.
5. **Timed maps** (`limiter`, `sessions`). Each is compared with a specification that reads the
   history of calls and knows nothing of cleanup.

Every component is written twice: as functions on values that say what one transaction does, and as a
class (or a method with a loop) in the form the Go code has, whose postconditions tie its new state to
those functions. The theorems are lemmas about runs, which are sequences of such steps.

Instants and spans are whole nanoseconds, percentages are exact reals, a table is a sequence or a map,
and a transaction is one atomic step. I/O failures, clocks, mailer outcomes and verdicts of code that is
not modelled are parameters.

## What the theorems assume, and where the code falls short

- Delivery: one agent process per agent id, a server database that is never rolled back, directory syncs
  that do not fail, and a spool capacity that is not raised between starts. The last is exact:
  `SafeIffCapacityNotRaised` shows that both promises (a 409 is true, no report vanishes) hold for a change
  of capacity if and only if it is not an increase.
- Cooldown: one severity for the key, a clock that does not go back, recoveries that are not filtered out and
  are handled to their end, and firing mails that are marked once they left. A firing alert's own cooldown
  query, mail and suppression may fail and are tried again. `SpacedIffNothingForgets` gives the exact condition
  on the mail settings and on the failures: the cooldown fails exactly when firing alerts of the key are mailed
  and either its recoveries are filtered out (which overwrites the 'sent' mark that the cooldown query looks
  for), or a firing mail may stay unmarked, or a recovery may fail and so stay due.
- What the cooldown holds back needs no assumption (`HeldBackIffItsRecoveryWasRecorded`): the query looks for a
  'sent' row of the same agent, rule, resource and severity, and such a row other than the alert's own is always
  a recovery that was mailed. The time that counts is when that mail was recorded, not when it left.
- Mail in flight: one worker. Severity may fall back to warning in a plain update, and then a mark can
  cover an escalation it did not report (`SeverityFallSwallowsEscalation`); it happens exactly when the
  severity moved and came back (`EffectiveMarkConsumesNewerIffSeverityMoved`).
- Offline pass: an alert follows the time the pass had listed. The alert of a judged agent is wrong exactly when
  the agent was listed as silent beyond the limit, a report of it was stored after the listing, and none has
  been evaluated since the judgement (`WrongIffListedBeforeAReport`; `LateReportIsAlarmed` is such a run). It is
  then a false alarm: no judged agent that is silent goes without its alert. The clock does not go back between
  an agent's reports; a report stored after a tick bears a time at most the limit before it, and a report is
  evaluated before a tick more than the limit after it (a handler has five seconds, `internal/server/server.go:489`,
  and the limit is at least thirty, `internal/config/config.go:311`).
- Roll-up: raw rows are kept for at least an hour, and no report is older than an earlier raw cutoff. With
  `max_report_age` at most `raw_retention` and a clock that does not go back there is none
  (`YoungReportsAreSteady`); `internal/config/config.go:326-331` also allows more, and then such a report becomes
  the whole row of its hour (`LateReportOverwritesTheHour`). A row is exact if and only if no raw cutoff split its
  hour (`RowIsExactIffNeverSplit`, `RowIsExactIffNoCutoffSplits`); cutoffs on whole hours never do
  (`RollupAgreesWithLog`). The server's own call passes the current time (`cmd/server/main.go:122`), which can:
  `SecondMaintainLosesASample`. `RowsAreBracketed` is what remains true of every row.
- Firing after a count or a duration: the reports of an agent name each check once, none of their evaluations
  stops at a database error, and for durations they are evaluated in the order of the clock
  (`HttpFiresAfterSoManyFailures`, `UsageFiresAfterTheDuration`).
- History: under the same assumption the samples returned never exceed the reports of the hours listed plus those
  since the raw start (`HistoryNeverOvercounts`), and after a Maintain that completed those hours they are all of
  them if and only if no raw cutoff split one of the hours (`HistoryCountsEveryReport`). As every hour that leaves
  raw retention while the server runs can be split, an old range usually falls short. A raw start inside an hour
  counts the reports of that hour after it twice (`CountIsExactIff`).
- Audit: agent ids and rule names without a slash, which `Report.Validate` and the engine's fixed rule
  names give. `SlashedRuleSharesTarget` shows why.

## Model

| member | source | states |
|---|---|---|
| SpoolNames.NameRoundTrip | internal/agent/spool.go:219-226 | for every nonzero 64-bit number, listing parses its report file name back to that number |
| SpoolNames.OnlyReportNames | internal/agent/spool.go:219-226 | a name is accepted if and only if it is the report file name of some such number |
| SpoolNames.NameOrderIsNumberOrder | internal/agent/spool.go:261-263 | byte order of file names is numeric order, because 2^64-1 fits the twenty digits |
| Sequences.Sequence.NewSequence | internal/agent/sequence.go:18-31 | a missing state file counts as zero; one that cannot be read or does not hold a 64-bit number is an error; otherwise the counter starts from its number |
| Sequences.StateRoundTrip | internal/agent/sequence.go:24-29 | the text Next writes is read back as the number it was written for, white space trimmed |
| Sequences.Sequence.Next | internal/agent/sequence.go:33-72 | one call, including its failure before and after the rename and the wrap-around test of a 64-bit addition |
| Sequences.NumbersIncrease | internal/agent/sequence.go:33-72 | across any calls, errors, crashes and restarts, where a restart leaves an unsynced rename unsynced, the returned numbers are nonzero and strictly increase, and memory, file and what a crash leaves are each at least every one of them |
| Sequences.NextAfterCrashIsNew | internal/agent/sequence.go:18-72 | a restarted agent never hands out a number it handed out before, even if the last rename is undone |
| Sequences.FailuresConsumeNothing | internal/agent/sequence.go:33-72 | between two starts there are no gaps: a call that fails, even after its rename, consumes no number, and the others count up by one |
| Sequences.ExhaustedCounterStays | internal/agent/sequence.go:36-39 | at 2^64-1 every call is an error and nothing changes |
| Spools.NewestKeepsTheLargest | internal/agent/spool.go:188-207 | what a trim leaves: at most the capacity, and every file left is newer than every file dropped |
| Spools.Spool.NewSpool | internal/agent/spool.go:36-59 | an error exactly without a positive capacity, if the directory cannot be prepared, or if the trim fails; otherwise the newest `maximum` files remain, durably |
| Spools.Spool.Trim | internal/agent/spool.go:188-207 | the loop drops exactly the oldest files beyond capacity, counts them, stops early on a failed listing or removal, and syncs only when it dropped something and finished, which may fail too |
| Spools.Spool.Enqueue | internal/agent/spool.go:61-123 | which files are present and durable, the wake token, the drop count and the error, for every point at which it can fail, including an error after the rename that leaves the file |
| Spools.Spool.Peek | internal/agent/spool.go:125-162 | the smallest sequence number present, or nothing; an error if the directory or that file cannot be read |
| Spools.Spool.Acknowledge | internal/agent/spool.go:164-175 | the file is gone durably, also if it had been evicted already; what a failed removal and a failed sync leave |
| Spools.TrimKeepsSuffix | internal/agent/spool.go:188-207 | trimming keeps a suffix of the enqueue order a suffix |
| Senders.SendWithRetry | internal/agent/sender.go:65-122 | retries exactly no answer, 401, 403, 404, 408, 425, 429 and 5xx, pauses by doubling up to the cap plus the jitter drawn, ends accepted at the first 2xx, refused with its code at any other answer, or by cancellation |
| Senders.BackoffIsCapped | internal/agent/sender.go:70-91 | pauses lie between one and thirty seconds, and are thirty exactly from the sixth on |
| DeliverySafety.ReachableFits | internal/agent/spool.go:61-207 | the invariant of every reachable world, over every interleaving of collector, sender, server, crash and restart |
| DeliverySafety.ServeKeepsInv | internal/storage/storage.go:204-241 | the server processing any request ever sent, at any time and any number of times, keeps the invariant |
| DeliverySafety.CrashKeepsInv | internal/agent/spool.go:107-123 | a crash that keeps or undoes each unsynced directory change keeps the invariant |
| DeliverySafety.TrimEndKeepsInv | internal/agent/spool.go:188-207 | finishing a trim, or failing in it, keeps the invariant; start-up trims away every stale file a crash revived |
| DeliveryTheorems.ConflictMeansStored | internal/agent/sender.go:112-122 | a 409 for the report in flight means that this very report is stored, and nothing newer was ever sent |
| DeliveryTheorems.EveryReportIsAccountedFor | internal/agent/sender.go:33-62 | conservation: each durably enqueued report is in the spool, evicted, accepted, or refused with a permanent status other than 409 |
| DeliveryTheorems.AcceptancesIncrease | internal/storage/storage.go:218-240 | acceptances strictly increase, so each report is stored at most once, and only enqueued reports are stored |
| DeliveryTheorems.SpoolIsASuffix | internal/agent/spool.go:188-207 | while the agent runs the spool is a suffix of the enqueue order, whatever crashes revived |
| DeliveryTheorems.AttemptsInOrder | internal/agent/sender.go:33-62 | attempts leave in nondecreasing order of sequence, also across restarts |
| DeliveryAnswers.RetryKeepsTheReport | internal/agent/sender.go:113-122 | after 401, 403, 404, 408, 425, 429 or 5xx the sender holds the same report again, and nothing else has changed |
| DeliveryAnswers.OtherAnswersAreFinal | internal/agent/sender.go:33-62 | after any other answer it goes on to acknowledge the report, which counts as refused unless the answer was 2xx or 409 |
| DeliveryAnswers.RefusedWasMalformedOrInvalid | internal/server/server.go:465-510 | over every run, a report is given up only after the server answered an attempt of it with 400 or 422 |
| DeliveryAnswers.OnlyFinalAnswersClearTheSpool | internal/agent/sender.go:33-62 | over every run with crashes, an enqueued report whose answers were all lost, 401, 403, 404, 408, 425, 429 or 5xx is still in the spool or was evicted, and was not refused |
| DeliveryTheorems.TrimTakesSteps | internal/agent/spool.go:188-207 | the protocol's eviction steps together do what the Trim method promises |
| DeliveryTheorems.EnqueueTakesSteps | internal/agent/spool.go:107-123 | commit, sync and eviction steps together do what the Enqueue method promises |
| DeliveryTheorems.NoLostWakeUp | internal/agent/spool.go:111-114 | whenever the sender waits on a nonempty spool the wake channel holds a token |
| DeliveryTheorems.TokenIffCommitSince | internal/agent/spool.go:107-114 | and it holds one only then: exactly when a commit came after the sender's last wake-up and the last crash |
| DeliveryTheorems.SenderCanMove | internal/agent/sender.go:33-62 | until the spool is empty some sender step is enabled, unless an Enqueue holds the mutex |
| DeliveryTheorems.SenderStepWorks | internal/agent/sender.go:33-93 | each sender step lowers the work left, except for what a failed attempt or a failed removal adds |
| DeliveryTheorems.SenderStepsAreBounded | internal/agent/sender.go:33-93 | without new reports the sender takes at most as many further steps as there is work and setbacks add, however the server interleaves |
| DeliveryTheorems.SenderDrainsTheSpool | internal/agent/sender.go:33-62 | without new reports, a run that no sender step can extend has an empty spool and nothing in the sender's hand, within that bound |
| DeliveryTheorems.RaisedCapacityConflicts | internal/agent/spool.go:52-57 | for every capacity and every larger one after a restart, a run reaches a 409 for a report that is stored nowhere and not counted as evicted |
| DeliveryTheorems.RaisedCapacityLosesAReport | internal/agent/sender.go:58-61 | one acknowledgement later that report is in no place at all |
| DeliveryTheorems.SafeIffCapacityNotRaised | internal/agent/spool.go:52-57 | every 409 in hand is true, and no enqueued report vanishes, over all runs with a change of capacity, if and only if it is not raised |
| Ingestion.HandlerIsTheProtocolServer | internal/server/server.go:465-524 | the handler is the delivery protocol's server: same status, same storing, same last sequence |
| Ingestion.Server.Ingest | internal/server/server.go:465-524 | the order of the checks and their statuses, and the whole new state: attempts, sequence, last-seen time, raw row, alerts, the notifier's wake-up |
| Ingestion.Server.SaveReport | internal/storage/storage.go:204-241 | the transaction's outcome and status, also when the commit reports an error but was applied |
| Ingestion.Server.EvaluateStored | internal/server/server.go:505-511 | a fresh report is evaluated, an old one only shows its agent online; an error stops the evaluation and not the answer |
| Ingestion.Server.AgentLastSeen | internal/storage/storage.go:670-688 | lists every agent that has a last-seen time, once, with that time |
| Ingestion.Server.BeginPass | internal/alerts/engine.go:178-182 | a pass begins with one listing of the agents' last-seen times |
| Ingestion.Server.JudgeNext | internal/alerts/engine.go:183-196 | the next listed agent is judged by its listed time, in a transaction of its own |
| Ingestion.Server.AbandonPass | internal/alerts/engine.go:193-195 | a failing rule ends the pass |
| Ingestion.UninterruptedPass | internal/alerts/engine.go:178-198 | judging a listing in one go is what EvaluateOffline promises |
| Ingestion.StatusTellsTheEffect | internal/server/server.go:465-516 | a refused request changes nothing but the client's attempts; no status but 202 touches alerts or wakes the notifier; 202 exactly when the commit reported no error |
| Ingestion.OldReportOnlyClearsOffline | internal/server/server.go:505-511 | a report older than the offline limit clears its agent's offline alert and starts or ends no other alert |
| StoredReports.FreshReportIsEvaluated | internal/server/server.go:505-508 | a report answered 202 and measured at most the offline limit before it was received decides every alert of its agent: violated ones are active, and what it is silent about stays unless silence settles it |
| StoredReports.FreshReportRaisesItsAlerts | internal/server/server.go:505-508 | in particular CPU, memory and disk alerts follow its measurements and the configured limits, and its agent is not offline |
| StoredReports.StaleReportOnlyClearsOffline | internal/server/server.go:509-511 | one measured longer ago ends its agent's offline alert, and no other alert starts or ends |
| StoredReports.StoredRowIsTheReport | internal/storage/storage.go:218-236 | whatever goes wrong, a request adds a row exactly if it raises the agent's sequence, and the row has the report's agent, time, CPU and memory |
| StoredReports.StoredReportIsInTheHistory | internal/storage/storage.go:266-308 | a stored report is a point of its agent's history, at its own time and with its own CPU and memory |
| Offline.StoredInOrder | internal/storage/storage.go:218-230 | in every run, over all agents, faults and repetitions, each agent's stored sequences strictly increase and the last is last_sequence |
| Offline.SaveThenShowIsIngest | internal/server/server.go:496-516 | storing and then evaluating a report, the two steps of a run, make up the handler |
| Offline.OfflineFollowsTheListing | internal/alerts/engine.go:178-206 | in every run of handlers and offline passes, with storing, evaluating, listing and judging interleaved, an offline alert is active exactly when the agent's last judgement found it silent beyond the limit by the listed time and no report of it has been evaluated since |
| Offline.WrongIffListedBeforeAReport | internal/alerts/engine.go:178-198 | the alert disagrees with the last stored report if and only if the last judgement listed the agent as silent beyond the limit, a report of it was stored after the listing, and none has been evaluated since; it is then a false alarm, and no judged agent that is silent goes without its alert |
| Offline.LateReportIsAlarmed | internal/alerts/engine.go:183-196 | the counterexample: listed, then stored and evaluated with 202, then judged by the listed time, so offline although just seen |
| Alerts.AlertStore.ApplyRule | internal/storage/storage.go:482-582 | the transaction's rows and audit entry, and changed exactly when it appended one |
| Alerts.AlertStore.AuditRule | internal/storage/storage.go:584-592 | the audit target and transition appended |
| Alerts.AlertStore.PendingNotifications | internal/storage/storage.go:594-601 | going over the ids and stopping at the limit gives due rows only, in id order, and every due row unless the limit was reached before it; an out-of-range limit is 100 |
| Alerts.AlertStore.NotificationInCooldown | internal/storage/storage.go:603-614 | a firing alert is in its cooldown if and only if another row of the same agent, rule, resource and severity was marked sent within it |
| Alerts.AlertStore.MarkAlertDelivery | internal/storage/storage.go:620-642 | compare-and-set on state, severity and 'pending'; other rows and columns stay |
| Alerts.AlertStore.AcknowledgeAlert | internal/storage/storage.go:644-668 | only an active, unacknowledged alert is acknowledged and audited |
| AlertRuns.StepKeepsWellFormed | internal/storage/storage.go:499-577 | every rule step, acknowledgement and mark keeps the table's invariant |
| AlertRuns.ReachableIsWellFormed | migrations/003_alert_state_machine.sql:6-42 | in every table grown from the empty one only a key's newest row may be active, and notification_state is 'none' exactly when firing_at is null |
| AlertRuns.TakenOverTableKeepsInvariant | migrations/003_alert_state_machine.sql:25-42 | from any table in which only a key's newest row may be active, also one with carried-over rows: that stays so over any run, and every new row, and every old one that had it so, has 'none' exactly when firing_at is null |
| AlertRuns.OneActivePerKey | migrations/003_alert_state_machine.sql:40-42 | at most one row per key is active, so the unique index is never violated |
| AlertRuns.OwnStepDecidesActive | internal/storage/storage.go:490-577 | an evaluation leaves an active row of its key exactly when violated, and it is the old one or a new one |
| AlertRuns.RowsOnlyMoveForward | internal/storage/storage.go:526-577 | over any run a row never changes key or start, never leaves resolved, and a resolved row that is suppressed or sent never changes again |
| Alerts.DueRowsAreTheFirstDue | internal/storage/storage.go:594-601 | the snapshot holds exactly the due rows, in id order, up to the limit |
| AlertRuns.SentMarksBound | internal/storage/storage.go:626-642 | effective 'sent' marks on one alert number at most two plus its escalations |
| Announcements.StepWritesNotice | internal/storage/storage.go:499-577 | what each step writes into a row's three notification columns: an alert that starts firing, turns critical or, not suppressed, recovers is 'pending', an escalation also takes the acknowledgement back, and nothing else but a matching mark or a first acknowledgement changes them |
| Announcements.DueIffNewsSinceLastMark | internal/storage/storage.go:594-642 | over every run a row is due if and only if it started firing, turned critical or recovered, and no delivery of it was marked since |
| Announcements.NewsIsLoaded | internal/storage/storage.go:594-601 | so the next pass loads it, unless a whole batch of earlier rows is due as well |
| Announcements.AuditNamesTheChange | internal/storage/storage.go:499-592 | an evaluation's audit entry names what happened to its row, with the evaluation's severity, and there is one exactly if the row was opened, fired, turned critical or closed |
| Announcements.NoChangeNoEntry | internal/storage/storage.go:644-668 | an evaluation that concerns no row and a mark leave no entry, and an acknowledgement leaves one exactly when it is recorded |
| Streaks.StreakIsTheLongestViolatedSuffix | internal/storage/storage.go:499-577 | the specification of a streak is the longest violated suffix of the key's evaluations |
| Streaks.ActiveRowSummarisesStreak | internal/storage/storage.go:499-577 | after every run the active row of a key is the summary of its current streak: count, start, severity, value, threshold, state and firing time |
| Streaks.ClosedRowRecordsTheStreak | internal/storage/storage.go:555-577 | the evaluation that ends a streak closes its row, which keeps the streak's start, count, severity and firing time and takes the evaluation's time, value and threshold |
| Streaks.FiringByCount | internal/storage/storage.go:522-528 | with a constant count above one the alert is firing exactly from the count-th violation in a row |
| Streaks.FiringByDuration | internal/storage/storage.go:524-528 | with a constant duration the alert is firing exactly when the streak has lasted that long |
| AuditReplay.TargetRoundTrip | internal/storage/storage.go:584-588 | without slashes in agent and rule, an audit target determines its key |
| AuditReplay.SlashedRuleSharesTarget | internal/storage/storage.go:584-588 | with a slash two keys share a target |
| AuditReplay.LogReadsBack | internal/storage/storage.go:498-592 | for every run the audit entries of a key form a legal lifecycle that ends in its current status |
| AuditReplay.ClosedThenOpened | internal/storage/storage.go:499-520 | after a closed lifecycle an evaluation logs nothing or a new opening |
| InFlight.WhileInFlight | internal/storage/storage.go:526-577 | what can happen to a row while its mail is in flight: it stays due, and resolved stays resolved |
| InFlight.EffectiveMarkConsumesNewerIffSeverityMoved | internal/storage/storage.go:620-642 | a mark that takes effect covers a notification newer than its snapshot if and only if the severity moved meanwhile |
| InFlight.MarkClearsNothingNewer | internal/storage/storage.go:620-642 | if severity never falls while the mail is in flight, the mark clears nothing set pending after its snapshot |
| InFlight.FiringMarkSparesRecovery | internal/storage/storage.go:636-639 | the mark of a firing mail never takes a recovery that came meanwhile |
| InFlight.WarningMarkSparesEscalation | internal/storage/storage.go:636-639 | the mark of a warning mail never takes the escalation its alert has gone through |
| InFlight.SeverityFallSwallowsEscalation | internal/storage/storage.go:551-553 | the counterexample: up to critical and back, and the warning's mark takes effect |
| Notifier.Worker.LoadPass | internal/server/server.go:559-565 | the pass starts from a snapshot of the first due alerts, at most fifty |
| Notifier.Worker.ChooseNext | internal/server/server.go:584-596 | the next alert is held back exactly when filtered or in cooldown |
| Notifier.Worker.SendMail | internal/server/server.go:602-605 | a mail leaves, and the table is not touched |
| Notifier.Worker.RecordOutcome | internal/server/server.go:597-608 | the outcome is marked against the snapshot, and the pass goes on |
| Cooldown.ReachableFits | internal/server/server.go:574-609 | the invariant of the worker and the table over every interleaving, with firing alerts whose query, mail or suppression fails |
| Cooldown.RecordKeepsInv | internal/server/server.go:606-608 | marking an outcome keeps it: a mail's row remembers it, or its recovery is due and ahead of any later alert of the key |
| Cooldown.FiringMailsAreSpaced | internal/server/server.go:574-609 | over whole runs any two firing mails of the key are more than the cooldown apart, even when an alert resolves while its mail is being sent, whichever firing alerts are filtered, and when failed firing mails are tried again |
| CooldownExact.FilteredRecoveryForgetsTheMail | internal/storage/storage.go:608-612 | under any one configuration that mails the key's firing alerts and not its recoveries, a run mails two firing alerts at one instant, for any cooldown |
| CooldownExact.UnmarkedMailIsRepeated | internal/server/server.go:606-608 | if marking a firing mail may fail, a run mails the same alert twice at one instant |
| CooldownExact.FailedRecoveryForgetsTheMail | internal/server/server.go:602-605 | if a recovery's mail or mark may fail, a run mails a later firing alert of the key at the instant of an earlier one: the recovery stays due and is not 'sent' |
| CooldownExact.SpacedIffNothingForgets | internal/server/server.go:584-608 | for fixed mail settings and any set of failures that may befall the key, its firing mails are always more than the cooldown apart if and only if they are filtered out, or its recoveries are not and none of the failures is an unmarked firing mail or a recovery broken off |
| CooldownExact.SpacedIffRecoveriesAreMailedToo | internal/server/server.go:584-588 | without such failures they are spaced if and only if recoveries are mailed or firing alerts are not |
| Recoveries.SettledIsNeverMailed | internal/server/server.go:559-609 | over every run of the worker and the table, with any settings and failures, a resolved row whose recovery is sent or suppressed is never mailed again |
| Recoveries.SuppressedAtResolutionIsNeverMailed | internal/storage/storage.go:559-565 | an alert marked suppressed when it resolves never gets a recovery mail |
| HeldBack.MailedIffLetThroughAndNotHeld | internal/server/server.go:584-596 | an alert is mailed if and only if the settings let it through and, if it is firing and there is a cooldown, no other row of the same agent, rule, resource and severity was notified within it |
| HeldBack.HeldBackIffItsRecoveryWasRecorded | internal/server/server.go:574-609 | over every run, with any settings and failures, an alert the settings let through is held back if and only if it is firing and a recovery of this very agent, rule, resource and severity was mailed and recorded within the cooldown, whatever was mailed about anything else |
| HeldBack.RecordedWasMailed | internal/server/server.go:602-608 | what is recorded as delivered left as a mail before |
| Engines.Engine.constructor | internal/alerts/engine.go:19-30 | unset failure count and certificate limits take their defaults |
| Engines.Engine.Collect | internal/alerts/engine.go:33-123 | the rules a report gives, in order |
| Engines.Engine.EvaluateReport | internal/alerts/engine.go:32-131 | applies every rule, then resolves what silence settles; a database error stops it after so many rules |
| Engines.Engine.ApplyRules | internal/alerts/engine.go:124-129 | the rules are applied one by one, in order |
| Engines.Engine.ResolveMissing | internal/alerts/engine.go:133-176 | going over the active alerts one by one resolves exactly the rows the declarative sweep closes |
| Engines.Engine.EvaluateOffline | internal/alerts/engine.go:178-198 | applies one offline rule for each listed agent, silence clamped at zero |
| Engines.Engine.ResolveOnline | internal/alerts/engine.go:200-206 | applies the not-violated offline rule |
| EngineTheorems.LastRuleDecides | internal/alerts/engine.go:124-131 | of several rules for a key the last decides whether it is active |
| EngineTheorems.RulesCarryVerdict | internal/alerts/engine.go:33-123 | the rule list says of each key what the report says of it |
| EngineTheorems.SweepResolvesSilence | internal/alerts/engine.go:133-176 | the sweep ends exactly the alerts nothing mentions and whose silence settles them |
| EngineTheorems.ReportDecidesItsAlerts | internal/alerts/engine.go:32-176 | after a report an alert of its agent is active exactly when the report violates it, or when the report is silent, it was active and silence does not settle it |
| EngineTheorems.DiskAlertsAreTheFullMounts | internal/alerts/engine.go:54-73 | with distinct mounts the disk alerts are exactly the mounts over a limit, never both kinds on one mount |
| EngineTheorems.HostAlertsFollowTheReport | internal/alerts/engine.go:33-50 | usage alerts follow the report, and the agent is not offline once it has reported |
| EngineTheorems.StoppedReportDecidesOffline | internal/alerts/engine.go:124-129 | an evaluation that stops has shown its agent online exactly if it got past the third rule |
| EngineTheorems.UnknownLeavesAlertsStanding | internal/alerts/engine.go:145-169 | a service in an unknown state, and containers while Docker is unreachable, keep their alerts, of both docker rules |
| EngineTheorems.OtherAgentsAreUntouched | internal/alerts/engine.go:32-176 | a report changes no row of any other agent and adds none |
| EngineTheorems.OfflineAlertsAreTheSilentAgents | internal/alerts/engine.go:178-198 | after an offline pass exactly the agents silent for longer than the limit are offline, and no other alert starts or ends |
| EnginePictures.ServiceAlertFollowsItsState | internal/alerts/engine.go:74-86 | a service alert is active exactly if the service is failed or inactive; an unknown state or an error leaves it as it was |
| EnginePictures.ContainerAlertsFollowItsState | internal/alerts/engine.go:87-102 | container alerts are active exactly if the container is not running, and if it is unhealthy |
| EnginePictures.CheckAlertsFollowItsResult | internal/alerts/engine.go:103-123 | a check's alert is active exactly if it failed, its certificate alert exactly if the days left are at most the warning limit; without a certificate it stays, unless the check is plain HTTP |
| EnginePictures.GoneMountEndsItsAlerts | internal/alerts/engine.go:151-152 | a mount no longer reported has no disk alert |
| EnginePictures.GoneServiceEndsItsAlert | internal/alerts/engine.go:153-156 | a service no longer reported has no alert |
| EnginePictures.GoneCheckEndsItsAlerts | internal/alerts/engine.go:151-161 | a check no longer reported has no alert, nor has its certificate |
| EnginePictures.GoneContainerEndsItsAlerts | internal/alerts/engine.go:157-158 | a container no longer reported keeps its alerts only while Docker is monitored and cannot be reached |
| EnginePictures.ActiveRowsShowTheReport | internal/alerts/engine.go:33-123 | after a report, the active row of anything it speaks of has the severity, value and threshold of its entry in the report |
| EnginePictures.OfflineRowShowsTheSilence | internal/alerts/engine.go:183-192 | an offline agent's row is critical and shows the silence and the limit in seconds |
| EnginePictures.SilencedRowEndsAtZero | internal/alerts/engine.go:166-170 | an alert that a report's silence settles is closed at that time with the value zero, and keeps its severity, threshold, start, count and firing time |
| EnginePictures.StoppedReportDecidesWhatItReached | internal/alerts/engine.go:124-129 | an evaluation stopped after k rules has decided exactly the alerts those rules are about |
| ReportRuns.TableFollowsTheReports | internal/alerts/engine.go:32-176 | over every run of reports of all agents, offline passes, acknowledgements and marks, a key's active row summarises the streak of violations in its agent's reports, which also ends where a report's silence settles the alert |
| ReportRuns.HttpFiresAfterSoManyFailures | internal/alerts/engine.go:103-110 | a check's alert is firing exactly when the last http_failure_count reports of its agent all say that it failed, and active exactly when the last one does; the row is critical, shows the last status code and counts the failures in a row |
| ReportRuns.UsageFiresAfterTheDuration | internal/alerts/engine.go:33-45 | a CPU or memory alert is firing exactly when the last reports were all above the threshold over at least high_usage_duration, and active exactly when the last one was |
| ReportRuns.SeveritiesFit | internal/alerts/engine.go:33-131 | in every run an active disk warning is a warning, a certificate alert is critical exactly at or below the critical days, every other active alert is critical, and all but usage and checks are firing at once |
| Metrics.Store.constructor | internal/storage/storage.go:155-156 | enrolled agents start at sequence zero and were never seen |
| Metrics.Store.SaveReport | internal/storage/storage.go:204-241 | accepts only a strictly larger sequence of a known agent, and then records sequence, time and row together |
| Metrics.Store.Maintain | internal/storage/storage.go:365-400 | upserts the completed hours, then deletes old raw and old hourly rows |
| Rollup.MaintainRow | internal/storage/storage.go:375-397 | what one Maintain does to one hour's row: replaced, kept or deleted |
| Rollup.RollupAgreesWithLog | internal/storage/storage.go:365-400 | with whole-hour raw cutoffs, after every Maintain each retained completed hour's row is avg, min, max and count over all reports ever accepted for it |
| Rollup.EveryRowIsAPart | internal/storage/storage.go:383-392 | in every run, aligned or not, each row is the aggregate of a nonempty part of its hour |
| Rollup.RowsAreBracketed | internal/storage/storage.go:383-392 | so its count is at most the true count and true min <= min <= avg <= max <= true max |
| Rollup.EveryRowDescribesReports | internal/storage/storage.go:375-382 | in every run the row of an hour has the number, the averages and the extremes, each of them reported, of some of the reports accepted for it |
| RollupExact.RowIsExactIffNeverSplit | internal/storage/storage.go:375-397 | over runs with arbitrary cutoffs, after a Maintain a complete, retained hour's row is the aggregate of all its reports, and counts as many, if and only if the highest cutoff so far never split the hour |
| RollupExact.RowIsExactIffNoCutoffSplits | internal/storage/storage.go:383-392 | the same in terms of the cutoffs themselves, when they never fall |
| RollupExact.SecondMaintainLosesASample | cmd/server/main.go:118-126 | the counterexample: two reports of an hour, a cutoff between them, and the second Maintain's row counts fewer |
| RollupExact.LateReportOverwritesTheHour | internal/storage/storage.go:383-392 | after any run, a report of an hour whose raw rows are all gone becomes that hour's whole row at the next Maintain, though the log has more |
| Histories.History | internal/storage/storage.go:266-286 | an error for a nonpositive maximum; otherwise the two queries joined at the raw start and downsampled |
| HistoryCounts.HoursListed | internal/storage/storage.go:310-329 | the hourly query lists exactly the hours between its bounds, cut to whole seconds, that have a row, in order |
| Histories.HistoryInTimeOrder | internal/storage/storage.go:266-329 | in all cases the points come in time order, before and after downsampling |
| Histories.PointsAreRowsAndReports | internal/storage/storage.go:266-329 | a point is in the joined history exactly if it is that of an hourly row of the agent between the bounds, with its averages and count, or of a report of the agent since the raw start, with its time and values |
| HistoryCounts.JoinCounts | internal/storage/storage.go:266-329 | where every listed row is exact, the points count the reports of the hours asked for plus the reports since the raw start |
| HistoryCounts.JoinCountsAtMost | internal/storage/storage.go:266-329 | where every row counts at most the reports of its hour, the points count at most that many, and as many if and only if each of the hours with reports has a row that counts them all |
| HistoryCounts.CountIsExactIff | internal/storage/storage.go:270-284 | from a whole hour on, the count is right if and only if as many reports are counted twice (in the raw start's listed hour after it) as are missed (in an hour that begins within the raw start's second before it) or lost from a row; with nothing lost, if and only if none is counted twice and none missed |
| HistoryCounts.JoinAccountsForTheLog | internal/storage/storage.go:266-329 | with a raw start on the hour, joining the tables loses no report and counts none twice |
| HistoryCounts.HistoryStandsForEveryReport | internal/storage/storage.go:266-363 | over whole runs on whole hours, also with reports saved after the last Maintain, the returned points' samples add up to the number of accepted reports since `since`, and their weighted values to the reports' values |
| HistoryCounts.HistoryNeverOvercounts | internal/storage/storage.go:266-400 | at any moment of any run, with any cutoffs: the returned samples are at most the reports of the hours asked for plus those since the raw start, and all of them if and only if every such hour has a full row |
| HistoryCounts.HistoryCountsEveryReport | internal/storage/storage.go:266-400 | once a Maintain has completed the hours asked for, whatever the cutoffs, and with newer reports saved since: the samples are all those reports if and only if no raw cutoff ever split one of the hours, and fewer otherwise; if none was split, the weighted values are the reports' too, and the count since a whole hour is right if and only if no report is counted twice or missed |
| Downsampling.Downsample | internal/storage/storage.go:331-363 | the bucket loop returns the merged buckets, and its two clamps never act |
| Downsampling.BoundOf | internal/storage/storage.go:338-339 | truncating the fractional bound gives the integer quotient |
| Downsampling.MergeBucket | internal/storage/storage.go:346-360 | the accumulators give the bucket's weighted means and total weight, a weight below one counting as one |
| Downsampling.BoundsPartition | internal/storage/storage.go:336-345 | the buckets are nonempty and adjacent, start at the first point and end at the last |
| Downsampling.DownsamplingConserves | internal/storage/storage.go:331-363 | the maximum is met exactly, and total weight and weighted sums are preserved |
| Downsampling.MeansStayInRange | internal/storage/storage.go:357-360 | each mean lies within the range of its own bucket |
| Downsampling.DownsamplingKeepsTimeOrder | internal/storage/storage.go:357-358 | time order is kept |
| Downsampling.MergedPointsBeginTheirBuckets | internal/storage/storage.go:336-358 | the k-th merged point bears the time of the point at k times the count over the maximum, rounded down |
| Downsampling.LonePointStays | internal/storage/storage.go:346-360 | a bucket of one point is that point, counting as one if it has no samples |
| Limiters.Limiter.constructor | internal/auth/limiter.go:22-27 | an empty table with room for ten thousand keys |
| Limiters.Limiter.Allow | internal/auth/limiter.go:29-51 | cleanup, refusal of new keys in a full table, window and count: the answer and the whole new table |
| Limiters.Limiter.Cleanup | internal/auth/limiter.go:33-38 | deleting entry by entry removes exactly the expired windows |
| Limiters.Limiter.Reset | internal/auth/limiter.go:53-57 | forgets the key |
| Limiters.TableIsBounded | internal/auth/limiter.go:41-43 | stored keys never exceed maxKeys, whatever the clock does |
| Limiters.AnswersFollowTheHistory | internal/auth/limiter.go:29-51 | on a monotone clock a call that finds room is allowed exactly when its window, counted over the key's whole history without cleanup, holds at most `limit` attempts |
| Limiters.KeysAreForgotten | internal/auth/limiter.go:33-38 | on a clock that does not go back, after any call every window in the table opened less than two windows ago |
| Limiters.FewKeysAreNeverRefused | internal/auth/limiter.go:41-43 | while at most maxKeys keys are in play no call is refused for want of room |
| Limiters.FewerThanTwiceTheLimit | internal/auth/limiter.go:44-50 | any stretch of calls shorter than the window, without a reset, allows a key at most twice the limit less one |
| Limiters.BoundIsReached | internal/auth/limiter.go:44-50 | that bound is reached, within one nanosecond |
| SessionTables.Sessions.constructor | internal/auth/session.go:31-34 | an empty table with its two limits |
| SessionTables.Sessions.Create | internal/auth/session.go:36-61 | stale sessions go first; an error exactly at capacity; otherwise a new session |
| SessionTables.Sessions.Get | internal/auth/session.go:63-80 | accepts exactly a present session that is neither idle nor old, renews it, and otherwise deletes it |
| SessionTables.Sessions.Delete | internal/auth/session.go:82-86 | removes the cookie's session, if there is a cookie |
| SessionTables.Sessions.CleanupLocked | internal/auth/session.go:102-108 | deleting entry by entry removes exactly the stale sessions |
| SessionTables.TableIsBounded | internal/auth/session.go:47-51 | the table never holds more than ten thousand sessions |
| SessionTables.RoomIsLiveRoom | internal/auth/session.go:47-51 | a login finds room exactly when fewer than ten thousand sessions are live by the history |
| SessionTables.AnswersFollowTheHistory | internal/auth/session.go:36-108 | on a monotone clock Get accepts a token exactly when it was issued and not deleted, is within its lifetime, and no gap between uses exceeds the idle limit; the history is the calls alone, so cleanup never changes an answer |
| SessionTables.NoSessionRevives | internal/auth/session.go:63-80 | a token once refused stays refused unless it is issued again |

## Left out

- Files, SQL, HTTP, SMTP and TLS themselves: only their effect on the directory, the tables, and the answer or its loss.
- Tokens and passwords (Argon2id, bcrypt, HMAC, random tokens): a session token stands for its keyed hash, a bearer token for the verdict on it.
- `Report.Validate` and configuration loading: independent range checks; their verdict or their ranges are inputs.
- The dashboard, labels, descriptions and the event broker: presentation, and a best-effort fan-out.
- Rate arithmetic of the collector: one-branch facts.
- Timestamps as text: comparisons in SQL are modelled on instants. Text order agrees with time order only for equal numbers of fractional digits (section 5.1 of RFC 3339), and the format drops trailing zeros, so the remark at `internal/storage/preferences.go:43` is not used. Cutoffs written to whole seconds are modelled as such.
- Downsampling.BoundOf: exact reals; with float64 a bucket bound can be off by one, which could leave out the last point.
- Averages in SQLite and in Go: exact reals as well.
- Row order among equal timestamps, and the order by start time in which active alerts are swept: the sweep is proved row by row, and rows of one key do not interact.
- `MarkAlertNotification`, the unconditional mark at `internal/storage/storage.go:616`: the worker does not use it.
- Rule and resource are a pair here; the NUL-joined string of `ruleKey` is not built (the engine's rule names contain no NUL).
- Directory permissions, the Windows branches and the removal of temporary files at start-up: files the spool lists are the committed ones.
- The endless loop of `Sender.Run` is not one method: its rounds are the sender's steps in the delivery protocol.
- Engines.Engine.EvaluateReport: does not model an error in the middle of the sweep, and takes the rules of one report without another report's between them; in the offline runs a stored report is evaluated in one step, any time later.
- ReportRuns.HttpFiresAfterSoManyFailures: only evaluations that no database error stops; what a stopped one does to the offline alert is `StoppedReportDecidesOffline`.
- Failing directory syncs and unreadable spool files: part of the spool's methods, excluded from the runs of the delivery protocol.
- AlertRuns.ReachableIsWellFormed: does not start from the rows that migration 003 carries over, some of which break its 'none' clause; `TakenOverTableKeepsInvariant` says what holds from them.
- A mail whose sending reports an error is taken not to have left.
- Ingestion.Server.AgentLastSeen: does not fix the order by agent id; the offline theorem holds for any order.
- Enrolment, token rotation and the login handlers around the limiter and the session table.
