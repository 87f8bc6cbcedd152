# Verified model of the usage and budget tracker

This project models the logic of the tracker that decides numbers and state: how logs become usage entries, how
spend becomes forecasts and alerts, how costs are attributed, rolled up and billed. Money is a real number, tokens are
unbounded integers, and a time is a count of nanoseconds since 1 January of year 1, UTC. Functions and methods follow
the branches of the source; a method with a loop is proved against a specification, and the properties are lemmas about
that specification.

Check it with `dafny verify dfyconfig.toml --resource-limit 2000000 --verification-time-limit 0`.

## What is modelled

- **Log ingestion.** `ClaudeLog` is the byte loop of the Claude Code parser. `ClaudeCut` proves where a growing log can
  be cut: on a log of JSON values, one a line, parsing a prefix and then everything after its next offset reads every
  row once, whatever is appended. `Watcher` is the coordinator that reads a tail or replays a file, suppresses by
  marker, stores and saves a checkpoint. `ExactlyOnce` runs it: over any interleaving of appends, ingestions that stop
  anywhere, growth between the two reads of one ingestion, and identities that change from one ingestion to the next,
  a final completed ingestion makes of the first usage table what one parse of the whole file makes of it.
  `ReplacedLog` proves the same of a file that replaces another, or is cut short, under any old checkpoint.
  `ExactlyOnceIff` proves which logs survive every run: those whose keys name one entry and whose markers name one
  key, and no others.
  `WholeFileTargets` is the run for sources that are read whole: every event is stored once, but for the billing mode
  and names it takes from its session; `WholeFileIff` proves for which lists the table is that of a single ingestion.
  `ClaudeSample` exhibits a decoder and logs: one that meets what is assumed, one that is stored twice, one that loses.
- **Normalization.** `Normalizer` groups events into sessions and builds entries and summaries, all or nothing;
  `NormalizerTheorems` proves that a batch conserves every token and cost, and what it does not depend on, and
  `StoredEntries` what every field of an entry says of its event, the billing mode included.
- **Budgets.** `Budget` and `BudgetMonitor` are thresholds, forecast arithmetic, states and alerts; `BudgetAlerts` is
  the monitor as a state machine over runs with three writes that can each fail. `AlertIds`, `AlertTable` and
  `AlertRuns` are the alerts' ids, the table they key, and which alerts keep their rows.
- **Waste.** `ZombieLoop` is the run detector, `WasteSummary` the attribution of wasted entries to one insight each, and
  `WeeklyWaste` the sum of the current week.
- **Graphs.** `GraphRollUp` and `GraphSnapshot` are the ten largest models and the rest, by tokens, by cost and by day;
  `BarBlocks` shares out the cells of the token bar by largest remainder.
- **Billing.** `Calendar` is the civil calendar, `Billing` the renewals and monthly charges, `SubscriptionRollup` the
  fees kept in the database, found by a query that compares texts.
- **Storage and prices.** `Transactions` is the retrying transaction, `Timestamps` the comparison of times as text,
  `Catalog` the layered price index, `OpenRouterCosts` the reconciliation of list prices with reported totals.
- `Bytes`, `Text`, `Domain`, `Sums` and `Sorting` hold what the others share; `Names` says which provider names and
  entries are accepted, and `WhiteSpace` that the log's white space is that of Unicode, encoded.

Some properties do not hold of the code on all inputs. There the model keeps the code as it is and a lemma gives the
exact condition:

- `CutIsAlwaysExactIff` (a log that is not clean), `ExactlyOnceIff` with `StoredAgain`, `Suppressed`,
  `SampleStoredTwice` and `SampleLost` (rows that share a key or a marker);
- `ListStoredOnceIff` with `SteadyIff` and `ChangedProvider` (events that share a marker, sessions that change their
  hint or names), `SessionRowIff` (a session spread over batches);
- `QuietRerunIff`, `EdgesOfBudget` and `TiesPrintAlike` (thresholds that print alike with six decimals),
  `AlertsSurviveIff` with `LostAlert` (or with two);
- `MostRecentRenewalIff` with `RenewalInTheFuture` (late March), `ReportedIffNothingStays` with `FeeStays` (a charge
  that disappeared), `FilterLosesNothingIff` with `FeeLost` (a subscription that ends in the month's first second);
- `WeeklyWasteIff` with `LostWeek` and `WrongWeek` (weeks across New Year), `TrendAddsUpIff` (charges outside the
  elapsed days), `DaysAddUpIff` with `DaysOfListedEntries` (entries of the next month's first second);
- `UsageFilterIff` and `SubscriptionFilterIff` (fractions of a boundary second), `CostsReconciled` (nothing reported).

## Assumptions

- The JSON decoder is a parameter; `ClaudeLog.JsonRows` states the four facts used about it, from sections 2 and 4 of
  RFC 8259. Which file bytes decode to which row is not modelled.
- `ExactlyOnce.Identified` is what the parser makes of names: an entry id is a digest of path, key and time, so it
  determines the key; a key consists of message and request id where present and is a digest of the line otherwise; a
  marker is the request id, the message id or the key, so it follows from the key. It supposes that digests do not
  collide, that ids hold no colon, and that the project's directory has a name that is not blank.
- `ExactlyOnce.Unambiguous` is what a log may fail: rows with one key make the same entry, and rows with one marker have
  one key. `ExactlyOnceIff` shows that it is exactly what a log needs. A row may be repeated.
- A source that is read whole (OpenCode, Gemini) lists events with distinct ids, those of its messages, and its list
  grows at the end. `ListStoredOnceIff` says what else it needs.
- Repositories are maps by key. A failing write changes nothing; `Transactions` justifies this for the usage table.
- Clocks, file contents and failures are parameters.

## Model

| member | source | states |
|---|---|---|
| Bytes.BlankIgnoresCR | internal/adapters/parsers/claude.go:237-239 | removing the carriage return of a line ended by CR LF never changes whether the line counts as blank |
| WhiteSpace.BlankIff | internal/adapters/parsers/claude.go:237-239 | a line is blank exactly when it is the UTF-8 encoding of a text of white space |
| Text.TrimIs | internal/domain/provider.go:35-40 | what trimming takes away is white space at the two ends, and what is left has none there |
| Text.SpacesAre | internal/domain/provider.go:35-40 | the 25 characters that count as white space |
| Text.LessIs | internal/service/graph_query.go:185-194 | strings compare by the first place where they differ, or by length when there is none |
| Bytes.LinesAppend | internal/adapters/parsers/claude.go:93-123 | appending bytes leaves every terminated line as it is and only continues the unterminated last one |
| ClaudeLog.Parse | internal/adapters/parsers/claude.go:74-155 | the byte loop returns the de-duplicated rows from the start offset on, in order, and the offset behind the last line that is not partial; an offset outside the file restarts at 0 |
| ClaudeLog.DedupAppend | internal/adapters/parsers/claude.go:93-122 | de-duplicating a longer row list continues from the keys seen so far |
| ClaudeCut.RowOfLine | internal/adapters/parsers/claude.go:157-182 | for any decoder that obeys RFC 8259 the blank test and the carriage return decide nothing: a line contributes exactly what it decodes to |
| ClaudeCut.JsonLinesAreClean | internal/adapters/parsers/claude.go:125-152 | a file of JSON values, one a line, with a last line that may be cut anywhere, is a clean log, because values are prefix-free |
| ClaudeCut.CutTheorem | internal/adapters/parsers/claude.go:74-155 | on a clean log, parsing any prefix and then all bytes after its next offset reads each row of the whole once and in order |
| ClaudeCut.CutTheoremForEvents | internal/adapters/parsers/claude.go:74-155 | the same for the events of the two calls, when the rows have distinct keys |
| ClaudeCut.RestIsClean | internal/adapters/parsers/claude.go:125-152 | what is left to read of a clean log is a clean log |
| ClaudeCut.CutIsAlwaysExactIff | internal/adapters/parsers/claude.go:125-152 | without any assumption on the log, the cut is exact for every continuation if and only if the tail is JSON white space or is left unread as partial |
| ClaudeCut.LostRow | internal/adapters/parsers/claude.go:125-152 | where the condition fails, a complete row written right behind the tail shows it: two parses read a row that one parse does not |
| ClaudeSample.SampleDecoder | internal/adapters/parsers/claude.go:157-182 | a decoder exists that meets every fact assumed of the JSON decoder |
| ClaudeSample.SampleLog | internal/adapters/parsers/claude.go:74-155 | a log with a complete row and the beginning of another meets everything the run theorem assumes |
| ClaudeSample.SampleStoredTwice | internal/adapters/parsers/claude.go:283-303 | a log of two rows with one key and different times, which make different entries, is led astray by some run |
| ClaudeSample.SampleLost | internal/adapters/parsers/claude.go:214-215 | so is a log of two messages of one request, whose rows have different keys and one marker |
| Watcher.WatchCoordinator.IngestPath | internal/service/watcher.go:225-311 | nothing is stored or recorded unless there is something to ingest; the batch is stored before the checkpoint; a saved status means both happened, any other leaves the checkpoint; and exactly which failures prevent it |
| Watcher.SuppressProcessedEvents | internal/service/watcher.go:443-454 | the backward scan for the marker computes the specified rest of the events |
| Watcher.UnprocessedIs | internal/service/watcher.go:443-461 | that rest is everything behind the last event that carries the marker, and everything when none does |
| Watcher.MarkerIs | internal/service/watcher.go:456-461 | the marker is the external id, and the entry id where that is blank |
| Watcher.PlanOfView | internal/service/watcher.go:313-333 | a missing file is passed over, an unreadable one or a directory is an error, except for a target that is read whole, whose offset is the size |
| ExactlyOnce.DedupPosition | internal/service/watcher.go:280-291 | an event kept by de-duplication, and all kept before it, come from the rows up to that row's first occurrence |
| ExactlyOnce.SuppressedIsStored | internal/service/watcher.go:280-301 | when a file is replayed, every event that the marker suppresses belongs to a row consumed before |
| ExactlyOnce.BatchIsStored | internal/service/session_normalizer.go:189-195 | storing a batch of the file's rows keeps every row stored before, adds the batch, and adds nothing else |
| ExactlyOnce.PlanAdvances | internal/service/watcher.go:225-311 | every ingestion, by tail or by replay, plans a batch and a checkpoint that move the invariant on, and reaches the end of a file that has stopped growing |
| ExactlyOnce.SafeAfter | internal/service/watcher.go:293-311 | after the batch is stored the invariant holds both with the old checkpoint, if the process stops, and with the new one |
| ExactlyOnce.IngestClaudeLog | internal/service/watcher.go:225-311 | a call of the coordinator on a Claude log, with any failures, is a step of the state machine, and a saved status is a complete one |
| ExactlyOnce.StepKeepsInv | internal/service/watcher.go:225-311 | every append and every ingestion, wherever it stops, keeps the invariant: safe offset, stored marker, everything before it stored |
| ExactlyOnce.InvAlways | internal/service/watcher.go:225-311 | in every state of every run the saved offset is a safe cut and everything before it is stored |
| ExactlyOnce.ExactlyOnce | internal/service/watcher.go:225-311 | after any run from any usage table, whatever the identity of the file in each ingestion, a completed ingestion of the final file leaves exactly what a single parse of the whole file makes of the first table, provided that no key names two entries and no marker two keys |
| ExactlyOnce.CompletedIsExact | internal/service/watcher.go:225-311 | the same from any state that the invariant allows |
| ExactlyOnce.CatchUp | internal/service/watcher.go:225-311 | from any such state, once the file has stopped growing and its rows are acceptable, one call without failures saves its checkpoint and the table is exact |
| ReplacedLog.IngestReplaced | internal/service/watcher.go:313-333 | when the checkpoint is of another path or identity or lies outside the file, a saved ingestion saves the offset of a parse from the start, keeps all other entries, and stores every row of the file if none carries the old marker; otherwise what lies behind the last that does |
| ReplacedLog.IngestTail | internal/service/watcher.go:313-333 | otherwise it stores what lies behind the offset, looks at nothing before it, and moves the offset on by what a parse of that part consumes |
| ReplacedLog.FileInvAlways | internal/service/watcher.go:225-311 | in every state after a replacement the new file has not been noticed, or the saved offset is a safe cut of it and everything before it is stored |
| ReplacedLog.ReplacedExactlyOnce | internal/service/watcher.go:225-311 | after a replacement, over any appends, failures and stops, a completed ingestion of the new file as it finally is leaves every row of it stored, and exactly what a single parse makes of the table before the replacement |
| ExactlyOnceIff.CutBefore | internal/adapters/parsers/claude.go:93-123 | a log can be cut in front of any of its rows so that a parse reads exactly the rows before it |
| ExactlyOnceIff.StoredAgain | internal/adapters/parsers/claude.go:283-303 | when a row has the key of a kept row but makes another entry, stopping in front of it leads some run to another table |
| ExactlyOnceIff.Suppressed | internal/service/watcher.go:443-461 | when a later row with another key has the marker of a row that was read before, some run suppresses it at a replay and never stores it |
| ExactlyOnceIff.ExactlyOnceIff | internal/service/watcher.go:225-311 | for JSON logs of acceptable rows, every run that completes leaves the table of a single parse if and only if rows with one key make the same entry and rows with one marker have one key |
| WholeFileTargets.LeftBehind | internal/service/watcher.go:443-454 | with distinct markers, what was handed on and what the marker leaves make up the whole list |
| WholeFileTargets.InvAlways | internal/service/watcher.go:280-301 | in every state of a run the batches handed on are a prefix of the list and the marker is that of the last of them |
| WholeFileTargets.HandedOnce | internal/service/watcher.go:280-301 | over any growing list, with stutters and parse failures, a recorded ingestion leaves every event recorded as handed on exactly once and in order |
| WholeFileTargets.SourceStepKeepsInv | internal/service/watcher.go:225-311 | an ingestion of a whole list with distinct markers and ids, also one that stops between storing the batch and saving the checkpoint, keeps the invariant: every event up to the marker is stored with its entry in some part of the list, and nothing else is; a completed one stores all |
| WholeFileTargets.SourceInvAlways | internal/service/watcher.go:225-311 | that holds in every state of every run |
| WholeFileTargets.ListCoresStoredOnce | internal/service/watcher.go:225-311 | after any run with stops anywhere, a completed ingestion leaves exactly the ids of the list, and under each the entry that a single ingestion of the list gives, in all but billing mode, project and agent |
| WholeFileTargets.ListStoredOnce | internal/service/watcher.go:225-311 | when, besides, the events of each session agree in their hint and in whether they name project and agent, the table is the one that a single ingestion of the list gives |
| WholeFileIff.StoredAlone | internal/service/attribution.go:42-101 | ingested up to an event, with it alone, and then to the end, the list keeps the entry the event has alone, where a single ingestion gives another |
| WholeFileIff.NeverStored | internal/service/watcher.go:443-461 | when two events share a marker, some run that completes never stores the second |
| WholeFileIff.ListStoredOnceIff | internal/service/watcher.go:225-311 | for accepted events with distinct ids, every run that completes leaves the table of a single ingestion if and only if markers are distinct and the events of each session agree in their hint and in whether they name project and agent |
| WholeFileIff.ChangedProvider | internal/adapters/parsers/opencode.go:518-526 | a session with a message through OpenRouter and one through another provider is such a list: some run stores another billing mode |
| Domain.NewTokens | internal/domain/usage.go:45-72 | accepts exactly the counts that are not negative, and returns a total that is their sum |
| Domain.NewCosts | internal/domain/usage.go:84-115 | accepts exactly the costs that are not negative, and returns a total that is their sum |
| Domain.SlugIsStable | internal/domain/provider.go:35-50 | a provider name that was accepted once is accepted again, unchanged |
| Names.SlugIff | internal/domain/provider.go:8 | the pattern: groups of lower-case letters and digits joined by single hyphens |
| Names.LowerPairs | internal/domain/provider.go:35-36 | each of the 26 capital letters has its small letter, and nothing else is changed |
| Names.AcceptedNameIff | internal/domain/provider.go:35-50 | a name is accepted exactly when it is such groups once trimmed and in lower case, and is stored like that |
| Names.EntryAcceptedIff | internal/domain/usage.go:133-230 | exactly which entries are accepted, with the pairs of source and billing mode spelled out, and that only the spelling of the provider is changed |
| Normalizer.CollectSessions | internal/service/session_normalizer.go:66-127 | one pass over the events fails exactly when some event is refused or a running sum would be negative, and otherwise holds for every session its range, sums, hints and last names |
| Normalizer.BuildSession | internal/service/session_normalizer.go:132-187 | every event of the session becomes its entry, and the summary of the session is never refused |
| Normalizer.SessionNormalizer.Normalize | internal/service/session_normalizer.go:53-198 | accepted batches are stored as entries and summaries of all events; a refused event means no write; a failed session write means no usage write |
| Normalizer.SummaryAcceptedIff | internal/domain/session.go:22-68 | exactly which summaries are accepted |
| StoredEntries.ModeIs | internal/service/attribution.go:42-101 | the mode of a session is subscription when some event hints it and none hints a key of the user's own, directly or through OpenRouter; it is BYOK when some event hints such a key and none a subscription; otherwise unknown |
| StoredEntries.EntriesSay | internal/service/session_normalizer.go:132-187 | each event has its entry and each entry its event, field by field: trimmed ids, source, provider, time, amounts, metadata, the session's mode, and names taken from the session's last event that gives them |
| StoredEntries.SummariesSay | internal/service/session_normalizer.go:132-187 | the mode of a summary is told by the hints of its session |
| NormalizerTheorems.BatchConserves | internal/service/session_normalizer.go:53-198 | one entry an event, and entries and summaries each add up to the events in every token and cost dimension |
| NormalizerTheorems.SummaryIgnoresOrder | internal/service/session_normalizer.go:74-187 | sums, time range and billing mode of a session do not depend on the order of its events |
| NormalizerTheorems.AcceptableIff | internal/service/session_normalizer.go:66-127 | with valid amounts a batch is accepted exactly when each event is: sessions add no reason to refuse |
| NormalizerTheorems.AcceptedEvents | internal/service/session_normalizer.go:240-299 | exactly which events are accepted, in terms of the event alone |
| NormalizerTheorems.EntriesAreOwn | internal/service/attribution.go:42-101 | an event that names its project and agent and carries no billing hint yields the same entry in every batch |
| NormalizerTheorems.EntriesAreSteady | internal/service/attribution.go:42-101 | so does an event of a session whose events agree in their hint and in whether they name project and agent |
| NormalizerTheorems.SteadyIff | internal/service/attribution.go:42-101 | every event of a batch has the entry it has alone if and only if the events of each session agree in their hint and in whether they name project and agent |
| NormalizerTheorems.SplitSession | internal/service/session_normalizer.go:132-187 | an event whose session gains a different hint yields another billing mode in a batch with it than alone |
| NormalizerTheorems.SomeBatch | internal/service/session_normalizer.go:132-187 | for any events there are entries and summaries as the normalizer builds them |
| NormalizerTheorems.SessionRowIff | internal/adapters/sqlite/session_repository.go:33-54 | a session's row holds the last batch's tokens and costs in every dimension, which are the session's exactly when its earlier events carry no tokens, or cost nothing |
| Budget.EvaluateSpend | internal/domain/budget.go:114-135 | triggers exactly the thresholds whose share of the limit is reached, in order, and refuses a negative spend |
| Budget.NewBudgetState | internal/domain/budget.go:205-254 | exactly which states are accepted, and that percents printing alike with six decimals are stored once |
| Budget.AlertAcceptedIff | internal/domain/alert.go:58-129 | exactly which alerts are accepted |
| Budget.ForecastAcceptedIff | internal/domain/budget.go:149-192 | exactly which forecasts are accepted, and their overrun |
| Budget.MicroIsNearest | internal/domain/budget.go:243-248 | a percent prints as the nearest millionth, an even one at a tie |
| Budget.TiesPrintAlike | internal/domain/budget.go:243-248 | two valid thresholds, one an exact tie, print alike |
| BudgetMonitor.FilterBudgetInputs | internal/service/budget_monitor.go:194-218 | keeps exactly the entries and fees that fit the budget's provider and project, in order |
| BudgetMonitor.FittingEntriesAre | internal/service/budget_monitor.go:194-218 | which entries count for a budget, in terms of provider and project tag |
| BudgetMonitor.FittingFeesAre | internal/service/budget_monitor.go:194-218 | which fees do: those of the provider, and none for a budget of a project |
| BudgetMonitor.ForecastAsOf | internal/service/budget_monitor.go:220-246 | for a calendar month the result is in the month: the latest time observed, or the month's last instant when something lies behind it |
| BudgetMonitor.NewState | internal/service/budget_monitor.go:294-310 | the state stored for an evaluation, and exactly when it is refused |
| BudgetMonitor.BuildBudgetAlerts | internal/service/budget_monitor.go:312-393 | the alerts for conditions that hold now and did not in the previous state; an error only where one of them is invalid |
| BudgetMonitor.AlertsSay | internal/service/budget_monitor.go:312-393 | what each alert says: time, period, limit, the threshold with its severity or which overrun, and the spend that is meant |
| AlertIds.ThresholdIdsAlike | internal/service/budget_monitor.go:324 | two threshold alerts have one id exactly when budget and time are the same and the percents print alike with two decimals |
| AlertIds.KindsApart | internal/service/budget_monitor.go:322-372 | ids of different kinds of alerts differ |
| AlertIds.IdsAre | internal/service/budget_monitor.go:322-372 | the text of the three kinds of ids |
| AlertIds.PercentReads | internal/service/budget_monitor.go:324 | the percent in an id is the nearest hundredth, an even one at a tie |
| BudgetMonitor.MonitorBudget | internal/service/budget_monitor.go:80-119 | for a valid budget and amounts that are not negative, one budget is always assessed, as the specification says |
| BudgetMonitor.ForecastArithmetic | internal/service/budget_monitor.go:248-267 | observed days lie between 1 and the month's days, and the projection is the spend scaled to the month, so never below it |
| BudgetMonitor.ObservedIsDay | internal/service/budget_monitor.go:256-267 | in its month the observed days are the day of the month |
| BudgetMonitor.OutsidePeriod | internal/service/budget_monitor.go:248-267 | a time outside the period counts for one day, and nothing is scaled |
| BudgetMonitor.ForecastIs | internal/service/budget_monitor.go:248-292 | the forecast of a run times the day of the month is the spend times the days of the month; overrun and day counts follow |
| BudgetMonitor.NothingIsRefused | internal/service/budget_monitor.go:269-393 | observed and remaining days make up the month, the forecast is at least the spend, and no forecast, state or alert built on the way is refused |
| BudgetAlerts.BudgetMonitorService.MonitorPeriod | internal/service/budget_monitor.go:48-152 | a monitor run, with any of its three writes failing, takes the stored forecasts, states and alerts to the specified next store, and writes the new alerts to the rows under their ids |
| BudgetAlerts.EdgesOfBudget | internal/service/budget_monitor.go:312-393 | a run builds one alert for a condition exactly when the stored state gains it, or when it is a crossed threshold that the state cannot remember because a lower one prints alike; none otherwise or for another budget |
| BudgetAlerts.OverrunImplies | internal/domain/budget.go:114-135 | a budget over its limit is also forecast to be and has crossed every threshold |
| BudgetAlerts.QuietRerunIff | internal/domain/budget.go:205-254 | a second run with the same spend is silent if and only if no two crossed thresholds print alike with six decimals |
| BudgetAlerts.RunEdge | internal/service/budget_monitor.go:80-130 | what one run adds to the alerts of a condition is its rising edge, unless the alert write fails, and a repeated alert of a threshold that prints like a lower one, if no write fails |
| BudgetAlerts.AlertsAreRisingEdges | internal/service/budget_monitor.go:48-152 | over any sequence of runs and failing writes, alerts handed on plus edges lost to a failed alert write are exactly the rising edges of the stored state plus the repeated alerts of thresholds that print alike |
| BudgetAlerts.KeptIff | internal/domain/budget.go:205-254 | of the crossed thresholds a state remembers exactly those that print like no lower one |
| BudgetAlerts.NothingRepeated | internal/service/budget_monitor.go:312-393 | nothing is alerted twice for the two overruns, nor for thresholds when no two of them print alike |
| BudgetAlerts.AlwaysConsistent | internal/service/budget_monitor.go:48-152 | in every run every stored state that is over its limit is also forecast to be |
| AlertTable.UpsertAlerts | internal/adapters/sqlite/alert_repository.go:14-85 | under every id one of the alerts written, and all other rows as they were |
| AlertRuns.AlertsSurviveIff | internal/service/budget_monitor.go:48-152 | over any sequence of runs and failing writes the table has a row for each id handed on; all alerts keep theirs if and only if no two different ones are of one kind, budget and time and, for thresholds, print alike with two decimals |
| AlertRuns.LostAlert | internal/service/budget_monitor.go:324 | thresholds of 80.1 and 80.4 per cent crossed in one run make two alerts, of which one is stored |
| ZombieLoop.DetectZombieLoopRun | internal/service/detector_set_b.go:310-356 | returns the first of the longest maximal runs of one signature with at least five entries, no success and at most one marker, without its first three entries, looking at no more than three times as many entries as there are |
| ZombieLoop.RunsApart | internal/service/detector_set_b.go:310-356 | two maximal runs that overlap are the same run |
| ZombieLoop.BestIsUnique | internal/service/detector_set_b.go:310-356 | the specification of the scan allows one result only |
| ZombieLoop.StalledIff | internal/service/detector_set_b.go:317-345 | a maximal run counts when it has five entries at least, no success, and no two different progress markers |
| ZombieLoop.SignatureIs | internal/service/detector_set_b.go:296-308 | the signature is the first value under five keys, else tool and target; the keys of retries add nothing |
| ZombieLoop.ProgressIs | internal/service/detector_set_b.go:388-399 | the progress marker is the first value under its five keys |
| ZombieLoop.SucceededIff | internal/service/detector_set_b.go:365-386 | an entry succeeded exactly when one of four words stands somewhere in its status, in lower case |
| ZombieLoop.GroupedUsageEntriesBySession | internal/service/detector_set_b.go:258-274 | every session's entries, all of them, ordered by time and entry id |
| ZombieLoop.SessionInOrder | internal/service/detector_set_b.go:258-274 | that order spelled out: the earliest first, and of those at one time the smallest id; and which entries these are |
| ZombieLoop.EarlierIsOrder | internal/service/detector_set_b.go:264-271 | that order is strict and leaves no two entries with different ids unordered |
| ZombieLoop.DetectionIgnoresOrder | internal/service/detector_set_b.go:201-274 | what is detected in a session does not depend on the order in which the entries are listed |
| WasteSummary.OwnEntries | internal/service/waste_summary.go:99-118 | every entry that some insight names is owned by a least of the insights that name it |
| WasteSummary.OwnerIs | internal/service/waste_summary.go:187-210 | the owner is a critical insight if one names the entry, else a high, else a medium, else a low one; of its severity none was detected earlier, and of those at the same time none has a smaller id |
| WasteSummary.OwnerLessIsOrder | internal/service/waste_summary.go:187-210 | the order of owners is strict, and any two insights with different ids are ordered |
| WasteSummary.OwnershipIgnoresOrder | internal/service/waste_summary.go:99-118 | the owners are the same for every order of the insights |
| WasteSummary.ChargeOwned | internal/service/waste_summary.go:120-135 | every owned entry is charged once, to its detector, its day and the total, in whatever order the map is walked |
| WasteSummary.QueryWasteSummary | internal/service/waste_summary.go:64-185 | the summary charges the owned entries by detector and by day, with percent, projection and insight counts as specified |
| WasteSummary.DetectorsAddUp | internal/service/waste_summary.go:137-144 | the costs by detector add up to the total waste |
| WasteSummary.DetectorRows | internal/service/waste_summary.go:137-144 | one row a detector, in the fixed order, with the number of its insights |
| WasteSummary.TrendAddsUpIff | internal/service/waste_summary.go:212-223 | the days of the trend leave out exactly the charged entries outside the elapsed days, so they add up to the total waste if and only if these cost nothing |
| WasteSummary.WasteIsSpent | internal/service/waste_summary.go:92-185 | waste is not negative, never exceeds spend, and its percentage is its share of the spend, between 0 and 100 |
| WasteSummary.SummaryIgnoresOrder | internal/service/waste_summary.go:64-185 | the summary is the same for every order of entries, of insights and of map iteration |
| WasteSummary.ElapsedIsDay | internal/service/waste_summary.go:246-258 | in its month the elapsed days are the day of the month, after it all days of the month, before it none |
| WasteSummary.ProjectionScales | internal/service/waste_summary.go:238-244 | the month-end projection scales the waste of the elapsed days to the month and is never below it |
| WeeklyWaste.IsoNamesWeek | internal/service/waste_summary.go:225-236 | ISO year and week number together name a week from Monday to Sunday |
| WeeklyWaste.SumCurrentWeek | internal/service/waste_summary.go:225-236 | adds up the days whose ISO year is now's calendar year and whose ISO week is now's |
| WeeklyWaste.WeeklyWasteIff | internal/service/waste_summary.go:225-236 | for every month asked for and every time, the sum reported for the current week is right if and only if the week belongs to the calendar year, or the other week that is counted comes to the same |
| WeeklyWaste.CountedIs | internal/service/waste_summary.go:225-236 | what the test counts is one week, or none |
| WeeklyWaste.CountsCurrentWeek | internal/service/waste_summary.go:225-236 | it is the current week exactly when the ISO year is the calendar year |
| WeeklyWaste.AcrossNewYear | internal/service/waste_summary.go:225-236 | in the last three days of December it is the first week of the year that is ending, in the first three of January the 52nd or 53rd of the year that begins |
| WeeklyWaste.NothingThisMonth | internal/service/waste_summary.go:225-236 | asked for the month of the clock, nothing is counted then |
| WeeklyWaste.LostWeek | internal/service/waste_summary.go:225-236 | on Monday, 31 December of year 1, the waste of the day is left out |
| WeeklyWaste.WrongWeek | internal/service/waste_summary.go:225-236 | on Tuesday, 31 December of year 2, asked for January of that year, the waste of 1 January is reported for the current week |
| GraphRollUp.BuildAccumulators | internal/service/graph_query.go:139-170 | one accumulator for each model name, holding the sums of exactly its entries, day by day |
| GraphRollUp.SharesModelIff | internal/service/graph_query.go:172-183 | two entries priced by a model are of one model exactly when their trimmed model ids agree |
| GraphRollUp.UnknownModelIff | internal/service/graph_query.go:172-183 | which entries are of the unknown model |
| GraphRollUp.TokensRank | internal/service/graph_query.go:185-194 | the order by tokens is strict and settles every tie by name |
| GraphRollUp.CostsRank | internal/service/graph_query.go:196-208 | the order by cost is strict and settles every tie by name |
| GraphRollUp.SortedModels | internal/service/graph_query.go:210-221 | lists every model once, sorted, with its accumulated sums |
| GraphRollUp.RankingIs | internal/service/graph_query.go:185-221 | the larger total, or cost, first, and of equals the smaller name |
| GraphRollUp.LimitModels | internal/service/graph_query.go:242-267 | keeps the first ten models and folds the sums of all others, day by day, into one |
| GraphRollUp.LimitIs | internal/service/graph_query.go:242-267 | up to ten models stay as they are; of more the first ten stay, and one named Other follows |
| GraphRollUp.RollUpConserves | internal/service/graph_query.go:122-267 | the models shown hold every kind of token, the cost and each day's tokens of all entries, nothing lost or counted twice |
| GraphRollUp.RankingIgnoresOrder | internal/service/graph_query.go:185-221 | the ranking depends neither on the order of the entries nor on the iteration of the map |
| GraphRollUp.LargestAreKept | internal/service/graph_query.go:242-267 | no model that is folded ranks before one that is kept |
| GraphSnapshot.BuildDailyTrends | internal/service/graph_query.go:297-324 | one trend for each day of the period, with the models that have tokens on it; none for an unset period |
| GraphSnapshot.DayAddsUp | internal/service/graph_query.go:297-324 | the models of a day, folded ones included, hold exactly the tokens of that day's entries |
| GraphSnapshot.DaysAddUpIff | internal/service/graph_query.go:297-324 | for any entries, the days hold all tokens but those of entries outside the month, so they add up if and only if these carry none |
| GraphSnapshot.DaysOfListedEntries | internal/adapters/sqlite/usage_repository.go:160-163 | of the entries the usage query lists for a month, those outside it lie in fractions of the next month's first second, and the days add up if and only if these carry no tokens |
| GraphSnapshot.BuildGraphSnapshot | internal/service/graph_query.go:122-137 | usage, costs, trends and breakdowns come from the two rankings; without entries everything is empty |
| GraphSnapshot.SnapshotConserves | internal/service/graph_query.go:122-137 | the token and cost graphs each add up to the entries |
| GraphSnapshot.SnapshotIgnoresOrder | internal/service/graph_query.go:122-137 | the snapshot is the same for every order of the entries |
| GraphSnapshot.SnapshotShowsLargest | internal/service/graph_query.go:242-267 | at most ten models and the rest are shown, and a model that is not shown has no more tokens, or cost, than any that is |
| GraphSnapshot.BarsCanBeDrawn | internal/service/graph_query.go:326-340 | every breakdown with tokens meets what the bar needs: four parts that add up to its total |
| BarBlocks.QuotasFill | internal/adapters/tui/graph_view.go:299-313 | the exact shares add up to the bar, and rounding them down leaves fewer than four cells, so the remainders never run out |
| BarBlocks.SortRemainders | internal/adapters/tui/graph_view.go:315-321 | the exchange sort keeps the four remainders and puts the largest first |
| BarBlocks.ShareOutBlocks | internal/adapters/tui/graph_view.go:286-325 | the four blocks add up to the bar, each is less than one cell from its share, and those rounded up have the largest remainders |
| BarBlocks.BlocksAreShares | internal/adapters/tui/graph_view.go:286-325 | in whole numbers: each block times the total differs from its tokens times the width by less than the total |
| BarBlocks.LargestFirst | internal/adapters/tui/graph_view.go:323-325 | giving the cells that are left to the first remainders meets that description |
| Calendar.CivilOf | internal/domain/subscription.go:14-21 | every time has a month, a day of that month and a clock, and is the date built from them |
| Calendar.CivilOfDate | internal/domain/subscription.go:40-44 | a date is read back as it was built |
| Calendar.MonthStartIs | internal/domain/subscription.go:23-45 | the days before the first of any month from year 1 on, in closed form, leap days of the Gregorian calendar included |
| Calendar.HasPeriodIff | internal/domain/subscription.go:14-21 | there is a period for every time after the zero time |
| Calendar.DaysInMonthIs | internal/app/startup.go:412-414 | day 0 of the next month is the last day of the month, leap years included |
| Calendar.MonthPeriodIs | internal/domain/subscription.go:23-45 | a period is a whole month of 28 to 31 days starting at midnight; that of January of year 1 counts as unset |
| Calendar.PeriodsTile | internal/domain/subscription.go:14-54 | a time lies in the period of its own month and in no other |
| Calendar.NextIsNextMonth | internal/domain/subscription.go:56-65 | the next period is that of the next month |
| Billing.MostRecentRenewalIff | internal/app/startup.go:400-410 | the result is the greatest renewal not in the future, for every time and renewal day, if and only if the previous month has today's day or this month's renewal is not still to come; otherwise it is in the future |
| Billing.SkipsBackIsMarch | internal/app/startup.go:400-410 | that exception is exactly 29 March of common years and 30 March, before a later renewal day |
| Billing.RenewalInTheFuture | internal/app/startup.go:400-410 | on 30 March of any year, renewal day 31 yields a date in the future |
| Billing.ChargeIs | internal/domain/subscription.go:193-224 | a month is charged exactly when the subscription runs at the month's charge time, the renewal day moved to the last day where needed |
| Billing.SubscriptionAcceptedIff | internal/domain/subscription.go:81-165 | exactly which subscriptions are accepted, and how they are spelled |
| Billing.FeeAcceptedIff | internal/domain/subscription.go:255-301 | exactly which fees are accepted, and the period they are given |
| Billing.ChargesIncrease | internal/domain/subscription.go:193-224 | a charge lies in its month, and charges of later months are later |
| Billing.ChargedMonthsAreContiguous | internal/domain/subscription.go:193-224 | there is no gap between two charged months |
| Billing.ChargedOverlaps | internal/domain/subscription.go:226-240 | a charged month overlaps the subscription |
| Billing.FeeIsNeverRefused | internal/domain/subscription.go:167-191 | for a valid subscription and any month the fee is the charge or nothing, never an error |
| SubscriptionRollup.SubscriptionService.RollupMonthlySpend | internal/service/subscriptions.go:89-162 | the fees due of the subscriptions that the text query finds are upserted by subscription and month and those of the listed subscriptions reported; an error changes nothing |
| SubscriptionRollup.FilterLosesNothingIff | internal/adapters/sqlite/subscription_repository.go:102-107 | the fees of the subscriptions found are those of all active ones if and only if no active subscription charged in the month ends within a fraction of its first second; in December of year 9999 it must also have started by year 1000 |
| SubscriptionRollup.ListedFeesIff | internal/adapters/sqlite/subscription_repository.go:102-107 | in every month this holds if and only if the query finds every active subscription that is charged |
| SubscriptionRollup.FeeLost | internal/adapters/sqlite/subscription_repository.go:102-107 | in every month, a subscription of half a second from its start on is accepted and charged, but not found, and its fee is lost |
| SubscriptionRollup.ReportedIffNothingStays | internal/service/subscriptions.go:120-128 | what is reported are the fees due if and only if no listed subscription that is not charged has left a fee in the table |
| SubscriptionRollup.FeeStays | internal/service/subscriptions.go:120-128 | ending a subscription before its charge day, after the fee was rolled up, leaves the fee reported |
| Timestamps.SecondsInOrder | internal/adapters/sqlite/subscription_repository.go:374-376 | down to the second, formatted times compare as the times do |
| Timestamps.TextReads | internal/adapters/sqlite/subscription_repository.go:374-376 | a formatted time can be read back: year, month, day, hour, minute, second and fraction stand in their places |
| Timestamps.TextBefore | internal/adapters/sqlite/usage_repository.go:160-163 | against a full second, text order differs from time order exactly for fractions of that second |
| Timestamps.TextBeforeYear10000 | internal/adapters/sqlite/usage_repository.go:160-163 | against the end of December of year 9999, which prints with five digits, only texts of years up to 1000 come first |
| Timestamps.ListedIs | internal/adapters/sqlite/usage_repository.go:160-163 | which times the query lists for a month: none for December of year 9999, and otherwise the month shifted by the fractions of its boundary seconds |
| Timestamps.UsageFilterIff | internal/adapters/sqlite/usage_repository.go:160-163 | for every month of the years 1 to 9999, exactly when the query agrees with the period: unless the time is a fraction of the month's first second or of the next month's, and, in the first and the last of these months, as stated |
| Timestamps.SubscriptionFilterIff | internal/adapters/sqlite/subscription_repository.go:102-107 | for the same months, exactly which subscriptions the query lists, compared with those that overlap the month |
| Transactions.Store.WithTx | internal/adapters/sqlite/repository.go:10-80 | no error means one commit of what the callback returned, an error means no change; the callback runs at most once an attempt and the attempts are bounded |
| Transactions.CommitsIff | internal/adapters/sqlite/repository.go:10-80 | a transaction commits if and only if, within the attempts allowed, one has no failure and all before it were busy and not cancelled |
| Transactions.SettlesAt | internal/adapters/sqlite/repository.go:18-60 | with at least one attempt some attempt settles the transaction: the error behind the loop is not reached |
| Transactions.BusyTimeoutIff | internal/adapters/sqlite/repository.go:63-80 | the busy error is returned exactly when every attempt was busy and no wait was cancelled |
| Transactions.StopsIff | internal/adapters/sqlite/repository.go:18-80 | a permanent failure is returned exactly when one comes behind busy attempts only, and cancellation exactly when a wait behind one of them is cut off |
| Transactions.UpsertUsageEntries | internal/adapters/sqlite/usage_repository.go:17-124 | all entries are valid and stored under their ids, or the table is as it was |
| Catalog.AddToIndex | internal/catalog/catalog.go:88-91 | an index holds, under both keys of every entry, what a scan for the last such entry finds |
| Catalog.PriceCatalog.constructor | internal/catalog/catalog.go:69-122 | the three indexes hold the override, the embedded documents and the cache document |
| Catalog.PriceCatalog.LookupModelPrice | internal/catalog/catalog.go:124-158 | a lookup in the maps finds what a scan of the three lists finds, layer by layer and key by key |
| Catalog.PriceCatalog.ReplaceCatalog | internal/catalog/catalog.go:201-224 | a snapshot replaces cache and cache snapshot together, or changes nothing; the cache stays the index of the snapshot |
| Catalog.FirstFiledIs | internal/catalog/catalog.go:137-153 | within a layer something is found exactly when an entry has one of the two keys, and the lookup key comes before the model id |
| Catalog.LookupFinds | internal/catalog/catalog.go:124-158 | a price is found exactly when a layer that applies has one; overrides come before embedded catalogs, the cache serves OpenRouter only, and the price has the provider asked for |
| Catalog.NormalizedIsStable | internal/catalog/document.go:27-84 | a snapshot that was accepted is accepted again as it stands |
| Catalog.SnapshotAcceptedIff | internal/catalog/document.go:42-84 | exactly which snapshots are accepted, and what is stored of them |
| Catalog.PriceAcceptedIff | internal/catalog/loader.go:112-148 | exactly which prices are accepted, and how their names are normalized |
| Catalog.SameKeyIff | internal/catalog/catalog.go:281-286 | two lookup keys are one when the providers are the same and the names agree but for case and white space around them |
| OpenRouterCosts.AcceptedIff | internal/adapters/openrouter/client.go:489-536 | exactly which imports are accepted: a reported total that is not negative and, where a price is given, prices and invocations that are not |
| OpenRouterCosts.CalculatedIs | internal/ports/catalog.go:28-53 | each component of the list price is its own tokens at its own price for a million, tools by invocation, and the total is their sum |
| OpenRouterCosts.PricedIff | internal/adapters/openrouter/client.go:572-574 | a price is given when one of its five parts is positive |
| OpenRouterCosts.CostsReconciled | internal/adapters/openrouter/client.go:489-546 | an accepted breakdown has no negative part, adds up, comes to the reported total within 1e-9 if and only if something was reported, no price is given or the list prices come to no more than that, and keeps the list prices unless they exceed what was reported |

## Left out

- ClaudeLog.Parse: parser warnings are not modelled, nor which JSON fields make a row usable; the decoder is a parameter.
- ExactlyOnce.ExactlyOnce: one log at one path; other sources do not write to the table meanwhile.
- ReplacedLog.ReplacedExactlyOnce: a file that is cut short under the same identity and written past the old offset before an ingestion sees it goes unnoticed (`IngestTail`), as does a replacement whose rows carry the old marker; both are excluded.
- WholeFileTargets.HandedOnce: counts the batches whose checkpoint was saved; one that was stored before a failed save is handed on again, and `ListCoresStoredOnce` says what the table then holds.
- ExactlyOnce.PlanAdvances: growth of the file between the size check and the first read of one ingestion is not modelled.
- Normalizer.SessionNormalizer.Normalize: trimming of metadata keys and values, tags becoming metadata, and attribution warnings.
- GraphRollUp.BuildAccumulators: accumulators are values in the map, replaced on each entry, rather than shared objects.
- BudgetAlerts.BudgetMonitorService.MonitorPeriod: the order in which a batch of alerts is written, which decides between alerts of one id, and the notifier.
- WasteSummary.QueryWasteSummary: the list of top causes.
- ZombieLoop.DetectZombieLoopRun: severity and the payload of the insight.
- Timestamps.UsageFilterIff: comparing texts of times before year 1 or after year 9999, and periods after it; the same for the filters of subscriptions and the ids of alerts.
- SubscriptionRollup.SubscriptionService.RollupMonthlySpend: the sums of fees and usage, and the order of the query.
- Catalog.PriceCatalog.constructor: reading and parsing catalog files, the cache times of entries, and the listing of a provider's prices.
- NewMonthlyBudget: only what it guarantees is stated, as `Budget.MonthlyBudget.Valid`.
- Rounding of floating-point numbers and overflow of 64-bit integers: reals and unbounded integers.
- Lower-casing outside ASCII.
- The Codex and OpenCode parsers, other detectors, settings, dashboards and all user interface except the bar.
- Directory walking, file notifications, HTTP, SQL itself, keyring: input and output.
- Columns that record when a row was written, and currencies.
