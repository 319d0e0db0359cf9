# pmacct-analyzer: verified models of its stateful pipelines

A network-traffic analyser in two programs: an endpoint agent (Rust) that reports which program opened
which connection, and a server (Go) that stores those reports, rolls up accounting data, runs detection
rules, keeps alerts and notifies people. This project models the parts whose correctness spans several
functions or files, and proves what holds over every run. `dafny verify dfyconfig.toml` checks it.

| file | what it models |
|---|---|
| `Wire.dfy`, `Aggregator.dfy`, `Spool.dfy`, `Ingest.dfy` | the parts of the endpoint telemetry pipeline: records, per-minute aggregation, the disk spool, the server's validation and additive merge |
| `Books.dfy`, `Turns.dfy`, `Runner.dfy` | the agent loop: books that account for every connection, one turn of the loop as a relation between states, and the class that carries turns out |
| `Runs.dfy`, `Calm.dfy` | what holds over all its runs: nothing unaccounted for, every loss explained, runs that lose nothing, a spool that drains |
| `Findings.dfy`, `Alerts.dfy`, `Notify.dfy`, `Exclusions.dfy` | dedupe keys and severities, the alerts table, the notification queue, the trusted list |
| `Trust.dfy`, `Moments.dfy`, `Pipeline.dfy` | the pipeline that joins them: coverage of texts as they come and as the database prints them, what each operation does to the whole state as a step function, and the engine that carries it out |
| `Guarantees.dfy`, `Overlap.dfy` | what holds over all its histories, one operation after another and with operations overlapping |
| `Rollups.dfy`, `Hours.dfy`, `VtQuota.dfy` | the cursor-driven peer rollup, the overlapping hourly rollup, and the two VirusTotal lanes that share one quota |
| `Registry.dfy` | built-in and user-defined rules, their overrides, rows and effective configuration |
| `Login.dfy`, `Version.dfy`, `Cadence.dfy`, `Base64.dfy` | brute-force protection, version order and automatic updates, beacon detection, and the base64 decoder |
| `Selection.dfy` | what it means to drop some elements of a list and keep the others |
| `Text.dfy`, `Address.dfy`, `Numbers.dfy`, `Sets.dfy`, `Options.dfy` | shared helpers |

Conventions. Database tables are maps and one SQL statement is one atomic step. Clocks, network outcomes,
disk faults and query answers are parameters, so a contract speaks about all of them. Where the source
updates state in place the model is a class, and each method states its whole new state; ghost fields hold
histories (books, ledgers, logs) that a contract needs and the program does not keep. Each `Run` takes an
arbitrary sequence of events and is the statement over all runs. Methods are proved against functions of the
state, and what these functions compute is stated once more without them: column by column, as an independent
sum, or as exactly the elements of a list that are to be kept (`Selection.dfy`).

## What the proofs found

Each point is a lemma or a contract with its exact condition.

- Batches are called deterministic, but the sort key leaves out source, protocol, user and container: the
  order is determined if and only if no two different records tie (`Aggregation.OrderDeterminedIff`).
- The agent loses a connection only where a state explains it: a full map, a counter at its end after 2^32 - 1
  observations of one key (`Runs.SaturationNeedsCounter`), a spool at a cap, a reused file name, a disk that
  fails, a server that finds the record outside its time window, or a self-update, which drops what is in
  memory (`Runs.Account`). While every event finds room in the state it meets it loses nothing but what the
  server rejects, whatever happens to uploads and acknowledgements (`Calm.RoomyRunsLoseNothing`); a lost
  acknowledgement makes the server count a batch twice, never less.
- A spooled batch of more than 20000 connections is refused by the server each time and is never passed
  over, so it blocks everything behind it (`Calm.OversizeBlocks`). Otherwise n batches leave with ceil(n / 20)
  uploads when every send succeeds (`Calm.SpoolDrainsInTime`).
- A trusted network keeps its coverage, host by host, if and only if it lies apart from the IPv4-mapped block
  ::ffff:0:0/96: one inside that block is accepted and covers nothing, and one around it loses its IPv4 hosts
  (`Exclusions.NormalizeKeepsCoverageIff`). The browser does not unmap addresses: of those the server trusts it
  shows exactly the ones not written in mapped form (`Exclusions.BrowserAgreesIff`).
- "Severity only escalates" holds except when the stored severity is unknown
  (`Findings.EscalatedIsMaxIff`, `Alerts.LedgerSeverity`). Rules and IDS events only bring known ones, and then
  every row shows the highest severity ever folded into it (`Guarantees.RunGuarded`).
- Two findings can share a dedupe key when the key of one imitates the other's port and key
  (`Findings.DedupeKeyIff`, `Findings.PortsCollide`).
- The filter asks for the names of an address by the text a finding came with, while names are known, and alerts
  are later matched, by the text the database prints. The two agree on a text if and only if it is printed as
  it came, the printed text is not covered, or it parses and its address is covered (`Trust.SpellingMatters`).
  So an IDS alert that spells an address in its own way gets past a trusted name
  (`Overlap.MisspelledAlertGetsIn`).
- Over any history of whole operations no alert is ever live on a trusted address if and only if no finding that
  opens an alert is covered as the table shows it and no covered alert is reopened
  (`Guarantees.GuaranteeIff`); without reopens it is enough that findings are spelled as the database prints
  addresses (`Guarantees.WellSpelledHistoriesAreSafe`). When operations overlap the same holds with the list as
  it stands at each store (`Overlap.RunOverlapping`), so a rule run that filters before a list change and stores
  after it breaks the guarantee as well (`Overlap.StaleListLetsTrustedIn`).
- The VirusTotal counters stay within the quotas, but they count rows looked up, not calls; the calls of a day
  or a month can exceed its quota, at most by those that leave no row of their own (`VtQuota.Run`), and these
  have no bound (`VtQuota.CallsPastQuota`).
- A cursor that fails to store makes the next run fold the same window again, and one that cannot be read makes
  a run fold eight days again or, if it is older than that, leave a gap. Per host, peer and day the excess is
  exactly the sum of those windows, gaps counted negative; with nothing late or pruned the table is exact if and
  only if that sum is zero everywhere, which without gaps means that the windows hold no row that counts
  (`Rollups.Run`, `Rollups.ExcessVanishesIff`). For that it suffices that the cursor can be read and the last
  store of every run succeeds (`Rollups.StoredTailIsEmpty`).
- An hour shows what the last run that saw it found (`Hours.HourShowsLastRun`). Once completed it is exact if
  and only if no row that counts for it arrives after that run (`Hours.CompletedHourIsExactIff`); seen only
  from inside it stays partial, and an hour the server slept through is missing (`Hours.MissedHourIsUntouched`).
- A duration with spaces around it is accepted for a built-in rule and then read as the default
  (`Registry.MergedAsRequestedIff`); fractions of a second are lost at a restart (`Registry.StoredSameIff`).
- The self-test before an update looks for the announced version anywhere in the output. An install moves
  the version up whatever is running if and only if the binary is not older than announced
  (`Version.InstallAdvancesIff`); an older build announced as newer is installed at each of its offers
  (`Version.ReinstalledEveryTime`).
- The login window is open at its old end: a closed window can hold twice the limit
  (`Login.TwiceInClosedWindow`). Overlapping logins add one failure per extra request in flight
  (`Login.WindowBound`).

## Model

| member | source | states |
|---|---|---|
| Wire.ValidConn | backend/internal/api/agents.go:227-255 | a record is kept exactly when its protocol, addresses, port and minute are acceptable at that time, and then says column by column what the connection said: its own port, protocol in lower case, unmapped addresses, the minute it falls in, trimmed and cut texts, a count of at least one |
| Wire.SameRowIff | backend/internal/db/agents.go:236-241 | two agent records share a row if and only if minute, unmapped source and destination, protocol, port, program, user and container agree |
| Wire.KeyKept | backend/internal/api/agents.go:227-255 | the row an agent's record is filed in, column by column in the record's own terms |
| Wire.RecordKept | backend/internal/api/agents.go:244-254 | what that row says of it: process, counts, hash, name or the program's base name, command line |
| Wire.WeightOf | backend/internal/api/agents.go:244-246 | a record weighs its count, or one, under the key of its row and nothing under any other |
| Wire.BaseNameIs | backend/internal/api/agents.go:257-262 | the base name is what follows the last separator of either kind |
| Text.TrimSpaceCuts | backend/internal/api/agents.go:264-270 | trimming cuts white space off both ends and leaves none there |
| Text.TruncIs | backend/internal/api/agents.go:264-270 | a trimmed text is cut to its first n bytes, or left alone |
| Address.UnmapIs | backend/internal/api/agents.go:240 | an IPv4-mapped address becomes the IPv4 address it carries, and no other address changes |
| Wire.AgentRecordAcceptable | agent/agent-core/src/model.rs:63-100 | what the agent sends is refused only for its minute being too old or too new |
| Wire.TotAppend | agent/agent-core/src/aggregator.rs:60-66 | connection totals per stored key add up over batches |
| Aggregation.Aggregator.Observe | agent/agent-core/src/aggregator.rs:23-56 | one observation creates, folds, saturates or is dropped at capacity, in exactly those cases; no key's total changes otherwise |
| Aggregation.ObservedFolds | agent/agent-core/src/aggregator.rs:26-31 | a repeated key folds into its own entry only: latest process, bytes added, one more counted, each as far as its counter goes |
| Aggregation.ObservedEnters | agent/agent-core/src/aggregator.rs:32-56 | a new key gets an entry that says what was observed, the command line only if it may be sent, unless the map is full |
| Aggregation.Aggregator.Drain | agent/agent-core/src/aggregator.rs:60-66 | takes out each due record once and nothing else, sorted, conserving every key's total |
| Aggregation.Aggregator.TakeOut | agent/agent-core/src/aggregator.rs:63-64 | the records of the given keys leave memory once each, sorted |
| Aggregation.AggTotReplace | agent/agent-core/src/aggregator.rs:26-34 | folding adds one connection to its key, or none at u32 saturation |
| Aggregation.AggTotRemove | agent/agent-core/src/aggregator.rs:60-66 | the total in memory does not depend on the order entries are taken out |
| Aggregation.SortedTwice | agent/agent-core/src/aggregator.rs:64 | two sorted batches of the same records without ties are equal |
| Aggregation.BeforeIs | agent/agent-core/src/aggregator.rs:64 | the order compares minute, program, destination and port, in this order, and two records tie if and only if all four agree |
| Aggregation.OrderDeterminedIff | agent/agent-core/src/aggregator.rs:64 | the batch order is determined if and only if no two different records tie |
| Spooling.Spool.Push | agent/agent-core/src/spool.rs:24-43 | evicts the fewest oldest files that make room, then writes; an oversize batch changes nothing; every disk fault's outcome |
| Spooling.Spool.MakeRoom | agent/agent-core/src/spool.rs:30-38 | the fewest oldest files that make room go |
| Spooling.Spool.Peek | agent/agent-core/src/spool.rs:46-56 | returns the oldest readable batch, deleting only corrupt files in front of it |
| Spooling.Spool.Remove | agent/agent-core/src/spool.rs:58-60 | removes the head |
| Spooling.PushLeavesLongestSuffix | agent/agent-core/src/spool.rs:24-43 | with increasing stamps, a push leaves the longest suffix of old files and new batch within both caps, if the count cap is at least one |
| Spooling.EvictsUnique | agent/agent-core/src/spool.rs:30-38 | the number of evicted files is determined |
| Spooling.WrittenNewest | agent/agent-core/src/spool.rs:39-42 | a newest stamp appends and overwrites nothing |
| Spooling.WrittenIs | agent/agent-core/src/spool.rs:39-42 | a write leaves the new file and every file of another stamp, and destroys those of the same one |
| Spooling.BatchesAre | agent/agent-core/src/spool.rs:46-56 | the batches to upload are those of the readable files, all of them and in order |
| Spooling.WrittenConns | agent/agent-core/src/spool.rs:39-42 | a write conserves connections up to the file it overwrites |
| Ingest.MergeAllClosedForm | backend/internal/db/agents.go:230-251 | a batch is stored exactly when all totals fit their columns, and then adds exactly its totals |
| Ingest.MergeOrderIndependent | backend/internal/db/agents.go:236-241 | reordering a batch changes neither its acceptance nor any total |
| Ingest.MergeBatchesFlat | backend/internal/db/agents.go:230-251 | uploading batch after batch is uploading their concatenation |
| Ingest.MergeSplitIndependent | backend/internal/db/agents.go:230-251 | totals depend only on the bag of accepted rows, however it is split and ordered |
| Ingest.LastRowDescribes | backend/internal/db/agents.go:236-241 | when the descriptive columns do depend on order, exactly |
| Ingest.MergeRowIs | backend/internal/db/agents.go:236-241 | an upsert fits or does not, exactly, and changes the row of its key only: counts added, described as the new row says, an empty command line leaving the old one |
| Ingest.AcceptedAre | backend/internal/api/agents.go:178-200 | the rows stored are those of the acceptable connections, all of them and in order |
| Ingest.KeptAndRefused | backend/internal/api/agents.go:178-200 | every record is kept or refused by its own acceptability, in order |
| Ingest.AcceptedWeight | backend/internal/api/agents.go:178-200 | what the server adds for a key is what the kept records weigh |
| Ingest.KeptPlusRefused | backend/internal/api/agents.go:178-200 | every record is either kept or refused |
| Ingest.RefusedAreOutside | backend/internal/api/agents.go:227-255 | only records outside the acceptance rule are refused |
| Ingest.Server.InsertEndpointConns | backend/internal/db/agents.go:230-251 | all rows or none; the new table is the merge |
| Ingest.Server.AgentEvents | backend/internal/api/agents.go:155-222 | accepts within the size limits, counts accepted and rejected, and stores exactly the accepted rows |
| Ingest.Server.Receive | backend/internal/api/agents.go:155-222 | when an upload is stored and when it is acknowledged, exactly, under every fault |
| Bookkeeping.BooksApplied | agent/pmacct-agent/src/runner.rs:113-137 | an upload keeps the books balanced whether or not its answer arrives |
| Bookkeeping.BooksPush | agent/pmacct-agent/src/runner.rs:135-140 | a push keeps the books balanced |
| Bookkeeping.BooksExit | agent/pmacct-agent/src/runner.rs:119-122 | so does a process exit, with what was in memory booked as lost |
| Bookkeeping.UploadCapacity | agent/pmacct-agent/src/runner.rs:113-116 | no upload changes how many observations are booked as dropped at capacity |
| Bookkeeping.Settle | agent/pmacct-agent/src/runner.rs:88-156 | balanced books give the totals, exact or bounded below |
| Runner.Agent.constructor | agent/pmacct-agent/src/runner.rs:75-85 | a run starts with an empty memory and balanced books |
| Runner.Agent.ObserveOne | agent/pmacct-agent/src/runner.rs:95-101 | an observation is in memory or booked as lost at capacity or saturation, and which of these, exactly |
| Runner.Agent.PollTick | agent/pmacct-agent/src/runner.rs:90-103 | every socket found becomes one observation, in order: memory, drop counter and books are the fold over them |
| Turns.SeenAt | agent/pmacct-agent/src/runner.rs:93-101 | each socket found is one connection without bytes, under its own key, in the order found |
| Runner.Agent.TakeBatch | agent/pmacct-agent/src/runner.rs:105 | completed minutes leave memory and are in hand |
| Runner.Agent.Upload | agent/pmacct-agent/src/runner.rs:113-116 | acknowledged exactly when stored and answered; table and books afterwards |
| Runner.Agent.SpoolBatch | agent/pmacct-agent/src/runner.rs:135-140 | the batch is spooled, or booked as unspoolable; what it evicts or overwrites is booked |
| Runner.Agent.FlushOne | agent/pmacct-agent/src/runner.rs:126-129 | the oldest readable batch leaves exactly when its upload is acknowledged |
| Runner.Agent.FlushSpool | agent/pmacct-agent/src/runner.rs:125-132 | at most twenty batches, oldest first, until none is left or an upload fails |
| Runner.Agent.Exit | agent/pmacct-agent/src/runner.rs:119-122 | an update ends the process and loses exactly what is in memory |
| Runner.Agent.Acknowledged | agent/pmacct-agent/src/runner.rs:114-132 | when the agent exits for an update, exactly; otherwise the spool is flushed |
| Runner.Agent.SendTick | agent/pmacct-agent/src/runner.rs:104-142 | which of idle, failed, uploaded and exited happens, exactly, and the whole new state of each |
| Runner.Agent.StopNow | agent/pmacct-agent/src/runner.rs:144-153 | everything in memory is sent or spooled |
| Runner.Agent.Step | agent/pmacct-agent/src/runner.rs:88-156 | one turn of the loop takes the state where that turn leads |
| Runner.Agent.Run | agent/pmacct-agent/src/runner.rs:88-156 | a run goes through exactly the states its events lead to, until the agent stops |
| Runs.BookedContinues | agent/pmacct-agent/src/runner.rs:90-103 | the books after a poll are balanced again and have seen what it found |
| Runs.TurnContinues | agent/pmacct-agent/src/runner.rs:88-156 | one turn keeps the books balanced, the drop counter equal to the losses at capacity, and adds to the observed exactly what was polled |
| Runs.TraceContinues | agent/pmacct-agent/src/runner.rs:88-156 | so does a whole run |
| Runs.PollGrew | agent/pmacct-agent/src/runner.rs:90-103 | a poll loses an observation only to a full map without its key, or to a counter at its end |
| Runs.UploadGrew | agent/pmacct-agent/src/runner.rs:113-116 | an upload loses only records outside the server's acceptance rule at the server's time |
| Runs.PushGrew | agent/pmacct-agent/src/runner.rs:135-140 | a push loses what it evicts only when the spool is at a cap, what it overwrites only under the same name, and its batch only when that cannot be written |
| Runs.TurnGrew | agent/pmacct-agent/src/runner.rs:88-156 | every loss of a turn is excused by the event and the state it met |
| Runs.LossesExplained | agent/pmacct-agent/src/runner.rs:88-156 | every loss of a run is excused by some event of it in the state it met |
| Runs.TraceWitnessed | agent/pmacct-agent/src/runner.rs:90-103 | a count in memory never exceeds the observations of its minute and key, nor the number of keys all observations |
| Runs.SaturationNeedsCounter | agent/pmacct-agent/src/runner.rs:90-103 | a loss by saturation takes 2^32 - 1 earlier observations of its minute and key |
| Runs.Account | agent/pmacct-agent/src/runner.rs:88-156 | over every run: server plus memory plus spool plus losses account for everything observed; equality when no acknowledgement is lost, at least that otherwise; every loss is explained; the drop counter is exact |
| Calm.CalmTurn | agent/pmacct-agent/src/runner.rs:88-156 | a turn under wide caps and a working disk loses only what the server rejects |
| Calm.CalmRunsLoseNothing | agent/pmacct-agent/src/runner.rs:88-156 | so does a run, whatever uploads fail and whichever acknowledgements get lost |
| Calm.RoomLeavesNoExcuse | agent/pmacct-agent/src/runner.rs:88-156 | an event that finds room excuses no loss but the server's rejections |
| Calm.RoomyRunsLoseNothing | agent/pmacct-agent/src/runner.rs:88-156 | a run of any length whose every event finds room in the state it meets loses only what the server rejects |
| Calm.RoomForPoll | agent/pmacct-agent/src/runner.rs:90-103 | a poll finds room when the map and every counter have room for as many observations as it makes |
| Calm.FlushStops | agent/pmacct-agent/src/runner.rs:126-131 | a flush takes the oldest batches in order and stops short of twenty only when none is left, an upload is disturbed or the server cannot store the oldest one |
| Calm.FlushDrains | agent/pmacct-agent/src/runner.rs:126-131 | an undisturbed flush of storable batches takes the oldest twenty, or all there are |
| Calm.OversizeBlocks | agent/pmacct-agent/src/runner.rs:126-131 | an oversize batch at the head blocks the spool, whatever the faults |
| Calm.SmoothTick | agent/pmacct-agent/src/runner.rs:104-132 | a send tick without faults leaves the spool alone when idle, and else takes the oldest twenty out |
| Calm.SpoolDrains | agent/pmacct-agent/src/runner.rs:125-132 | over any fault-free ticks the spool shrinks by twenty per upload, oldest first |
| Calm.SpoolDrainsInTime | agent/pmacct-agent/src/runner.rs:125-132 | n spooled batches are gone after ceil(n/20) uploads when every send succeeds |
| Findings.EscalatedIsMaxIff | backend/internal/db/alerts.go:107-108 | the stored severity becomes the maximum if and only if it is known or the finding is not info or warning |
| Findings.SeverityOrder | backend/internal/db/alerts.go:21-31 | critical ranks above warning, warning above info, info above every other text |
| Findings.ItoaInjective | backend/internal/db/alerts.go:74-76 | decimal texts of different ports differ |
| Findings.DedupeKeyShape | backend/internal/db/alerts.go:72-81 | the joined key is rule, host and peer followed by the optional parts |
| Findings.SuffixIff | backend/internal/db/alerts.go:72-81 | when the optional parts of two findings join to the same text, exactly |
| Findings.DedupeKeyIff | backend/internal/db/alerts.go:72-81 | two findings share a key if and only if they agree on everything in it or one key imitates the other's port |
| Findings.PortsCollide | backend/internal/db/alerts.go:72-81 | such a pair: port 443 without a key, and no port with key 443 |
| Alerts.FoldedRank | backend/internal/db/alerts.go:106-108 | the severity a row ends up with, known first severity or not |
| Alerts.FoldedIsMaxIff | backend/internal/db/alerts.go:106-108 | it is the highest folded in if and only if the first one is known, none is, or one is critical |
| Alerts.LedgerSeverity | backend/internal/db/alerts.go:21-31 | the same of every row ever created, deleted or not |
| Alerts.LedgerTotals | backend/internal/db/alerts.go:85-118 | per dedupe key, the counts of all rows ever created sum to the findings stored |
| Alerts.KnownSeveritiesShow | backend/internal/db/alerts.go:106-108 | when only known severities are ever raised, every row, deleted or not, shows the highest folded into it |
| Alerts.InvInsert | backend/internal/db/alerts.go:103-109 | a new row keeps the table invariant |
| Alerts.InvBump | backend/internal/db/alerts.go:105-108 | a repeated finding keeps it |
| Alerts.InvResolve | backend/internal/db/alerts.go:253-319 | bulk resolving keeps it |
| Alerts.InvDelete | backend/internal/db/alerts.go:273-308 | deleting resolved rows keeps it |
| Alerts.AlertStore.UpsertAlert | backend/internal/db/alerts.go:83-118 | an error exactly when a value does not fit its column or the count is full; otherwise the finding opens a row that says column by column what it said, or is folded into the live row of its key, which takes its title and details, is seen now, counts one more and is otherwise as it was, severity apart; no other row changes |
| Alerts.NewAlertIs | backend/internal/db/alerts.go:103-104 | a new row says what its finding said, is first and last seen now, open and counted once |
| Alerts.BumpedIs | backend/internal/db/alerts.go:105-108 | a repeated finding gives the row its title and details, the time of now and one more count, raises the severity at most, and leaves every other column |
| Alerts.RowStep | backend/internal/db/alerts.go:83-328 | one operation seen from one row: stored into, reopened, marked as notified, or left with all it knew |
| Alerts.OperationIs | backend/internal/db/alerts.go:213-328 | what each other operation does to a row that was there: which rows it resolves, acknowledges, reopens, deletes or marks, exactly, and that it adds none |
| Alerts.RowsTell | backend/internal/db/alerts.go:83-328 | after any operations every row tells its history: rule, addresses, port and first sight of the first finding stored in it, title, details and last sight of the last, their number, its last reopening and its last delivery |
| Alerts.SilentAreResolved | backend/internal/db/alerts.go:311-319 | after any operations exactly the live alerts whose last finding and last reopening are both older than the limit are resolved; one that received a finding within it stays live |
| Alerts.ConflictsAre | backend/internal/db/alerts.go:105 | the live row of a key is the one a finding goes into |
| Alerts.AlertStore.SetAlertState | backend/internal/db/alerts.go:213-230 | the allowed transitions and their stamps; resolved rows and other rows untouched |
| Alerts.AlertStore.ReopenAlert | backend/internal/db/alerts.go:232-250 | reopens exactly when the row is resolved and no other live row has its key; otherwise names the latest conflict |
| Alerts.AlertStore.ResolveAlerts | backend/internal/db/alerts.go:252-269 | resolves exactly the live rows that match |
| Alerts.AlertStore.AutoResolveStale | backend/internal/db/alerts.go:311-319 | resolves exactly the live rows silent and not reopened for long enough |
| Alerts.AlertStore.DeleteResolvedAlerts | backend/internal/db/alerts.go:271-293 | deletes exactly the matching resolved rows |
| Alerts.AlertStore.DeleteAlert | backend/internal/db/alerts.go:295-308 | deletes the row exactly when it is resolved, and reports existence |
| Alerts.AlertStore.PruneResolvedAlerts | backend/internal/db/alert_retention.go:76-93 | deletes exactly the resolved rows past the days of their severity |
| Alerts.ExpiredMeans | backend/internal/db/alert_retention.go:80-84 | which rows have outlived the days set for their severity |
| Alerts.AlertStore.MarkNotified | backend/internal/db/alerts.go:321-328 | stamps exactly the given rows |
| Alerts.DeleteMore | backend/internal/db/alert_retention.go:80-91 | pruning severity by severity deletes what one pass over all would |
| Alerts.Perform | backend/internal/db/alerts.go:83-328 | one statement leaves exactly the table its step function names |
| Alerts.Run | backend/internal/db/alerts.go:83-328 | any interleaving from an empty table leaves exactly the table its statements lead to: one live row per key, stamps agree with states, only resolved rows deleted, counts add up to all findings raised |
| Alerts.CountWithinRaised | backend/internal/db/alerts.go:105-106 | no row counts more findings than were ever raised |
| Notify.QuietHoursOnTheClock | backend/internal/notify/notify.go:158-176 | quiet hours run from start to end around the clock face, across midnight too, for any two integers; when a full day or a range beyond it differs |
| Notify.Dispatcher.SetMinSeverity | backend/internal/notify/notify.go:68-82 | which texts are accepted, after trimming and lower-casing, and the new threshold |
| Notify.Dispatcher.Offer | backend/internal/notify/notify.go:222-236 | every channel is tried; delivered when one accepts |
| Notify.Dispatcher.Flush | backend/internal/notify/notify.go:204-242 | outside quiet hours the whole queue is the batch and nothing waits, inside them nothing is taken; each refusing channel counts as one failure |
| Notify.Dispatcher.Notify | backend/internal/notify/notify.go:181-202 | queues exactly what passes the threshold and flushes in immediate mode |
| Notify.PassingIsKept | backend/internal/notify/notify.go:186-191 | every alert of at least the minimum severity passes, as often as it was raised and in that order, and no other does |
| Notify.NotifyQueues | backend/internal/notify/notify.go:181-202 | what passes joins the queue behind what waits, and the whole queue goes out at once exactly when there is something new, alerts go out immediately and neither reading of the clock is quiet |
| Notify.AllPassingIsKept | backend/internal/notify/notify.go:181-202 | over any calls what passed is all that arrived of at least the minimum severity, in order |
| Notify.RefusalsCount | backend/internal/notify/notify.go:223-231 | the failures counted are the channels that refuse |
| Notify.QueueKeepsOrder | backend/internal/notify/notify.go:181-260 | over any calls, the batches taken followed by what waits are, in arrival order, all alerts of at least the minimum severity and no others, each as often as it came |
| Notify.QuietTakesNothing | backend/internal/notify/notify.go:205-215 | no call takes anything inside quiet hours |
| Notify.Run | backend/internal/notify/notify.go:181-260 | any run of the dispatcher has exactly that queue, so nothing is lost, repeated or reordered |
| Exclusions.SameBlock | backend/internal/db/exclusions.go:138-156 | equal leading bits is membership in one aligned block |
| Exclusions.MaskingKeepsCoverage | backend/internal/db/exclusions.go:26-46 | clearing host bits never changes what a prefix covers |
| Exclusions.ContainsIff | backend/internal/db/exclusions.go:150-153 | a prefix contains the addresses of its family whose quotient by the block size is its own |
| Exclusions.MaskedIsFirst | backend/internal/db/exclusions.go:35 | masking leaves the first address of the block |
| Exclusions.StoredAddresses | backend/internal/db/exclusions.go:31-40 | what is stored for an address and for a network: unmapped, a network of one address as that address, any other by its first, a mapped one beyond 32 bits unusable |
| Exclusions.StoredNames | backend/internal/db/exclusions.go:41-45 | which other texts are stored as name patterns, exactly, and in which form |
| Exclusions.GlobMatchIff | backend/internal/db/exclusions.go:121-124 | a glob matches exactly the texts it becomes when runs of characters without a newline stand for its stars |
| Exclusions.CoversNameIff | backend/internal/db/exclusions.go:166-176 | a name is matched trimmed, without one final dot and in lower case, and never when nothing is left |
| Exclusions.NormalizeKeepsCoverageIff | backend/internal/db/exclusions.go:26-46 | normalising keeps which hosts a network covers if and only if the network lies apart from the IPv4-mapped block |
| Exclusions.ExclusionSet.constructor | backend/internal/db/exclusions.go:109-128 | the compiled set holds exactly the list's patterns by kind |
| Exclusions.ExclusionSet.IsEmpty | backend/internal/db/exclusions.go:130-132 | empty exactly when the list has no usable pattern |
| Exclusions.ExclusionSet.MatchIP | backend/internal/db/exclusions.go:138-156 | matches exactly when some pattern covers the address |
| Exclusions.ExclusionSet.Match | backend/internal/db/exclusions.go:159-178 | matches exactly when some pattern covers the address or one of its names |
| Exclusions.ShiftTestIsMembership | frontend/src/lib/exclusions.svelte.ts:30-40 | the browser's shift test is membership in [base, base + 2^(width - bits)) |
| Exclusions.BrowserMatchIP | frontend/src/lib/exclusions.svelte.ts:53-59 | the first pattern of the list that covers an address text, or none |
| Exclusions.NormalizedIsUnmapped | backend/internal/db/exclusions.go:26-46 | no stored pattern is about mapped addresses |
| Exclusions.BrowserAgreesIff | frontend/src/lib/exclusions.svelte.ts:30-59 | the browser shows exactly the trusted addresses that are not written in mapped form |
| Exclusions.BrowserDiffersOnMapped | frontend/src/lib/exclusions.svelte.ts:53-59 | a mapped address the server trusts and the browser does not, however it is written |
| Exclusions.GroupsReadBack | frontend/src/lib/exclusions.svelte.ts:5-28 | folding digit groups and splitting the number are inverse |
| Exclusions.IpToBits | frontend/src/lib/exclusions.svelte.ts:5-28 | the accumulating loop computes the address's number |
| Trust.SpellingMatters | backend/internal/db/exclusions.go:189-212 | storing a text never takes it off the list; when it leaves its coverage as it is, exactly |
| Trust.CoverageIff | backend/internal/rules/exclusions.go:40-48 | findings and rows are covered when some pattern covers host or peer, by its parsed and unmapped address or a name known for exactly that text |
| Trust.CoveredLiveIff | backend/internal/db/exclusions.go:214-270 | which live alerts a list covers, one by one |
| Trust.UncoveredAreKept | backend/internal/rules/exclusions.go:40-49 | the filter drops the covered findings and nothing else: every other one is kept, as often as it was found and in order |
| Trust.AdmittedIs | backend/internal/rules/exclusions.go:12-50 | the filter fails exactly when a name pattern exists and a finding carries a text that is no address; otherwise it keeps exactly the uncovered findings |
| Trust.WithoutKeeps | backend/internal/db/exclusions.go:82-89 | removing a pattern keeps every other one in its order |
| Trust.PlainFindingsAgree | backend/internal/rules/exclusions.go:41-49 | filter and table agree on findings spelled as the database prints addresses, or covered by no name |
| Trust.NothingUncovered | backend/internal/rules/exclusions.go:20-22 | the shortcut for an empty list changes nothing |
| Trust.AddedList | backend/internal/api/api.go:1475-1500 | coverage under a longer list, over the table in which what the new pattern covers has been resolved |
| Trust.ShorterList | backend/internal/db/exclusions.go:83-87 | a shorter list covers no more alerts |
| Pipeline.Engine.ApplyExclusions | backend/internal/rules/exclusions.go:12-50 | drops exactly the findings the list covers by their own texts, keeping every other one in order, or fails when a name has to be looked up for a text that is no address |
| Pipeline.Engine.KeepUncovered | backend/internal/rules/exclusions.go:39-49 | the loop keeps exactly the uncovered findings, all of them and in order |
| Pipeline.Engine.NamesOfFindings | backend/internal/rules/exclusions.go:23-38 | the names of all addresses of the findings, or an error exactly when one text is no address |
| Pipeline.Engine.NamesForIPs | backend/internal/db/exclusions.go:189-212 | the names of each address by the text the database prints, or an error when a text is no address |
| Pipeline.Engine.AnswersServe | backend/internal/rules/exclusions.go:24-49 | looking names up by the findings' own texts finds what is known by exactly those texts |
| Pipeline.Engine.FindingCovered | backend/internal/rules/exclusions.go:41-49 | covered exactly when the host or the peer is, by address or by name |
| Pipeline.Engine.AddressesOf | backend/internal/rules/exclusions.go:17-32 | collects exactly the nonempty addresses of the findings |
| Pipeline.Engine.NamesOnlyMatterWithPatterns | backend/internal/rules/exclusions.go:33-40 | skipping the name lookup when no name pattern exists changes nothing |
| Pipeline.Engine.Evaluate | backend/internal/rules/rules.go:478-515 | exempt hosts and trusted addresses are dropped, defaults filled in, or the name lookup failed |
| Moments.EvaluatedFrom | backend/internal/rules/rules.go:492-508 | evaluating a rule completes what its query found on hosts that are not exempt, all of it and in order |
| Moments.CompletedIs | backend/internal/rules/rules.go:497-506 | a completed finding has the rule's name, its own or the rule's severity and title, and is otherwise as found |
| Moments.RunLetsThrough | backend/internal/rules/rules.go:480-515 | what a run lets through is, of the findings on hosts that are not exempt, exactly those not covered, completed and in order |
| Moments.IdsLetsThrough | backend/internal/rules/rules.go:669-690 | an IDS finding is let through unless it is switched off, exempt or covered |
| Moments.RaisedAreQueued | backend/internal/rules/rules.go:584-600 | a run without a store error hands every alert it raised to the queue, in order, and one with a store error none |
| Pipeline.Engine.StoreAndCollect | backend/internal/rules/rules.go:584-593 | one finding: when storing it is an error, the row it goes into, seen now and of its key, the table afterwards, and whether that row is raised, with the severity it then has |
| Pipeline.Engine.StoreAll | backend/internal/rules/rules.go:584-594 | the findings are folded one by one up to the first store error: table, rows, raised alerts and result are those of the fold |
| Pipeline.Engine.Announce | backend/internal/rules/rules.go:598-600 | the queue afterwards, and a delivery recorded for exactly the rows of an accepted batch |
| Pipeline.Engine.Process | backend/internal/rules/rules.go:583-601 | folding and announcing together; nothing is announced after a store error |
| Pipeline.Engine.RunRule | backend/internal/rules/rules.go:555-601 | a rule run leaves exactly the state its step function names, and returns what it raised, or an error |
| Pipeline.Engine.RaiseIDS | backend/internal/rules/rules.go:668-703 | so does an IDS finding, through the same filters |
| Pipeline.Engine.FlushTick | backend/internal/notify/notify.go:205-260 | so does the dispatcher's timer |
| Pipeline.Engine.SelectCovered | backend/internal/db/exclusions.go:216-262 | the ids selected are exactly the live alerts a pattern covers |
| Pipeline.Engine.ResolveExcluded | backend/internal/db/exclusions.go:214-275 | resolves exactly those |
| Pipeline.Engine.AddExclusion | backend/internal/api/api.go:1475-1500 | a new pattern is stored in normal form and resolves exactly the live alerts it covers |
| Pipeline.Engine.DeleteExclusion | backend/internal/db/exclusions.go:83-87 | removing a pattern leaves the alerts alone |
| Pipeline.Engine.Operate | backend/internal/db/alerts.go:213-319 | a request of the API or a maintenance job is exactly its statement on the table |
| Pipeline.FoldStopped | backend/internal/rules/rules.go:585-588 | behind the first store error nothing is stored |
| Pipeline.Handle | backend/internal/rules/rules.go:555-703 | any operation leaves exactly the state its step function names, deliveries included |
| Pipeline.Run | backend/internal/rules/rules.go:442-475 | so does any sequence of operations |
| Guarantees.RunFoldsAndRaises | backend/internal/rules/rules.go:584-593 | a run's findings sit in live rows of their keys, and the rows raised are exactly those new, unsent or sent long enough ago before the run |
| Guarantees.UpsertExposes | backend/internal/rules/rules.go:584-592 | a store exposes its row exactly when it opens one and the table shows it covered |
| Guarantees.FoldExposes | backend/internal/rules/rules.go:584-594 | so a run exposes exactly those rows |
| Guarantees.ReopenExposes | backend/internal/db/alerts.go:232-250 | a reopen exposes exactly its alert, if that is covered |
| Guarantees.EventExposes | backend/internal/rules/rules.go:555-703 | what an operation lets in is exposed afterwards, and nothing else is newly exposed |
| Guarantees.GuaranteeIff | backend/internal/rules/rules.go:555-703 | over any history nothing is ever exposed if and only if no operation lets anything in |
| Guarantees.PlainRunsLetNothingIn | backend/internal/rules/exclusions.go:41-49 | a run lets nothing in when its findings are spelled as the database prints addresses, or covered by no name |
| Guarantees.WellSpelledHistoriesAreSafe | backend/internal/rules/rules.go:555-703 | histories of such findings without reopens never expose anything |
| Guarantees.SpacedDelivery | backend/internal/rules/rules.go:589-591 | a delivery of raised alerts keeps every row's deliveries apart |
| Guarantees.SpacedStep | backend/internal/rules/rules.go:589-600 | in immediate mode without quiet hours every operation keeps the deliveries of each row more than the renotify interval apart |
| Guarantees.SpacedHistory | backend/internal/rules/rules.go:589-600 | so does every history |
| Guarantees.DeliveriesRecorded | backend/internal/notify/notify.go:204-242 | an operation takes at most one batch, and appends to the record exactly the accepted deliveries of its rows |
| Guarantees.RecordNeverShrinks | backend/internal/notify/notify.go:204-242 | the record of deliveries is only ever extended |
| Guarantees.RaisedStayKnown | backend/internal/rules/rules.go:494-503 | rules with a known severity and findings with none or a known one raise only known severities |
| Guarantees.RunGuarded | backend/internal/rules/rules.go:442-703 | any sequence of operations on an engine: never a live alert on a trusted address if and only if none is let in, deliveries apart and never unrecorded, and every row showing its highest severity |
| Overlap.Begin | backend/internal/rules/rules.go:478-515 | what a run filters with the list as it is then |
| Overlap.Carry | backend/internal/rules/rules.go:555-601 | one move of an overlapping history leaves exactly the state its step function names |
| Overlap.Run | backend/internal/rules/rules.go:555-601 | so does any interleaving of moves |
| Overlap.StoresFold | backend/internal/rules/rules.go:584-593 | stores one after another are the fold over the findings, up to the first store error |
| Overlap.UndisturbedRun | backend/internal/rules/rules.go:555-601 | a run whose stores nothing disturbs is the whole run of the step function, delivery included |
| Overlap.MoveExposes | backend/internal/rules/rules.go:584-600 | what a move lets in is exposed afterwards, and nothing else is newly exposed |
| Overlap.GuaranteeIff | backend/internal/rules/rules.go:584-592 | nothing is exposed at any moment if and only if no move lets anything in |
| Overlap.ExposedWasLetIn | backend/internal/rules/rules.go:584-592 | an exposed alert was exposed at the start or let in by one particular move |
| Overlap.RunOverlapping | backend/internal/rules/rules.go:555-601 | over any interleaving of runs, deliveries, list changes, operators, reopens and timers on an engine: no alert is ever live on a trusted address if and only if no finding is stored that opens an alert covered as shown by the list at that store, and no covered alert is reopened |
| Overlap.CoveredFindingOpens | backend/internal/db/alerts.go:72-81 | while nothing is exposed a finding that will be shown covered always opens an alert, texts with the separator apart |
| Overlap.StaleListLetsTrustedIn | backend/internal/api/api.go:1475-1500 | a run that breaks it: filtered, then listed, then stored |
| Overlap.MisspelledIsAdmitted | backend/internal/rules/exclusions.go:41-49 | the filter lets a differently spelled address of a trusted name pass |
| Overlap.MisspelledAlertGetsIn | backend/internal/suricata/suricata.go:399-420 | a single IDS alert that breaks it, with nothing overlapping |
| Overlap.MisspelledExists | backend/internal/db/exclusions.go:189-212 | such a list, world and alert |
| Rollups.OneShotTiles | backend/internal/scheduler/scheduler.go:451-468 | one-shot aggregations of adjoining windows add up |
| Rollups.OneShotIs | backend/internal/db/rollups.go:43-56 | the one-shot aggregation of a window is what a local host and a peer that is not local exchanged in it, in either direction, and nothing for any other pair |
| Rollups.AddFlowIs | backend/internal/db/rollups.go:46-56 | a flow with exactly one local end adds its bytes and one flow to the row of that end, the other end and the day, and nothing else |
| Rollups.InWindowIs | backend/internal/db/rollups.go:43-45 | a window takes the rows stamped in it, each once |
| Rollups.RollBegins | backend/internal/scheduler/scheduler.go:451-467 | a run goes from the cursor, or eight days back without one, to three minutes ago, up to the chunk that fails |
| Rollups.ChunksAreSixHours | backend/internal/scheduler/scheduler.go:457-461 | chunks are six hours long, except that the last ends where the run ends |
| Rollups.LastStoredIs | backend/internal/scheduler/scheduler.go:466-467 | the cursor is behind the last folded chunk whose end was stored |
| Rollups.FoldedWindow | backend/internal/db/rollups.go:40-59 | folding a window's rows is its one-shot aggregation |
| Rollups.BalanceRoll | backend/internal/scheduler/scheduler.go:451-468 | a run keeps the balance, whether it reads, stores or misses its cursor |
| Rollups.AlwaysBalanced | backend/internal/scheduler/scheduler.go:451-468 | after any history what was folded plus what came too late is the one-shot aggregation up to the cursor plus the excess |
| Rollups.StartBeforeCursor | backend/internal/scheduler/scheduler.go:452-456 | the cursor is never in front of the left end |
| Rollups.CompleteRunReachesEnd | backend/internal/scheduler/scheduler.go:456-466 | chunk after chunk a run ends at its end, never past it |
| Rollups.PeerRollup.RollupPeerDays | backend/internal/db/rollups.go:40-59 | adds to each local host, peer that is not local and day exactly the bytes and flows the two exchanged in the window on that day, and nothing to any other row; every row has a local host and a peer that is not |
| Rollups.PeerRollup.Arrive | backend/internal/scheduler/scheduler.go:451-452 | a row that arrives behind the cursor is late, any other is not |
| Rollups.PeerRollup.RunPeers | backend/internal/scheduler/scheduler.go:451-468 | where a run begins, with, without or with an unreadable cursor, the cursor it leaves for any outcome of the stores, and exactly what it folds |
| Rollups.PeerRollup.PruneDays | backend/internal/db/rollups.go:62-76 | deletes exactly the older days |
| Rollups.StoredTailIsEmpty | backend/internal/scheduler/scheduler.go:462-466 | a run that reads its cursor and whose last store succeeds leaves no excess |
| Rollups.QuietWindow | backend/internal/db/rollups.go:40-59 | a window aggregates to nothing for every key if and only if no row in it counts |
| Rollups.EventAddsNothingIff | backend/internal/scheduler/scheduler.go:451-468 | without a gap an event takes nothing away, and adds nothing if and only if its windows hold no row that counts |
| Rollups.ExcessVanishesIff | backend/internal/scheduler/scheduler.go:451-468 | in a history without gaps there is no excess if and only if all these windows hold no row that counts |
| Rollups.Step | backend/internal/scheduler/scheduler.go:451-468 | one event moves cursor, left end, late rows and what was folded as the history functions say |
| Rollups.Run | backend/internal/scheduler/scheduler.go:451-468 | after any history, failed reads of the cursor included, table plus late rows is the one-shot aggregation from the left end up to the cursor plus the excess; with nothing late or pruned they are equal if and only if nothing is in excess |
| Hours.HourRollup.RollupHours | backend/internal/db/rollups.go:8-37 | replaces exactly the hours in the window for which it finds rows |
| Hours.HourSums | backend/internal/db/rollups.go:18-26 | a local host's hour shows what it sent as bytes out, what it received as bytes in, and packets and flows of both; other hosts have none |
| Hours.HourEnds | backend/internal/db/rollups.go:18-26 | its peers are the other ends of those flows and its ports the lower port of each |
| Hours.HourAggClip | backend/internal/db/rollups.go:8-37 | a window aggregates an hour as far as the window reaches into it |
| Hours.HourAggMonotone | backend/internal/db/rollups.go:8-37 | a longer window over more rows never finds less |
| Hours.LaterRowsChangeIff | backend/internal/db/rollups.go:8-37 | later rows leave an hour's aggregation alone if and only if none counts for it |
| Hours.CompletesIff | backend/internal/scheduler/scheduler.go:439-449 | which run times complete an hour, exactly |
| Hours.HourShowsLastRun | backend/internal/scheduler/scheduler.go:446-449 | an hour shows what the last run that saw it found, complete or in part, with rows arriving between runs |
| Hours.MissedHourIsUntouched | backend/internal/scheduler/scheduler.go:446-449 | an hour no run saw stays as it was |
| Hours.LastRunCompletes | backend/internal/scheduler/scheduler.go:446-449 | once an hour was completed, the last run that saw it completed it too |
| Hours.CompletedHourIsExactIff | backend/internal/scheduler/scheduler.go:446-449 | a completed hour is its one-shot aggregation over any later accounts if and only if no row that counts for it arrived after the last run that saw it |
| Hours.RunHours | backend/internal/scheduler/scheduler.go:446-449 | the job run after run gives every hour what the history function says |
| Hours.RegularRunsComplete | backend/internal/scheduler/scheduler.go:446-449 | runs at most two hours apart complete every hour in their range |
| VtQuota.RetryBound | backend/internal/db/queries.go:672-674 | for a key that always fails, lookup n (2 to 7) comes more than 30 * (2^n - 2) minutes after the first |
| VtQuota.RetryPlateau | backend/internal/db/queries.go:672-674 | later lookups are more than 1920 minutes apart |
| VtQuota.CandidateIff | backend/internal/db/queries.go:670-673 | which keys are candidates: those never looked up, due for a refresh by status and lane, or failed longer ago than the backoff of their attempts |
| VtQuota.BackoffKept | backend/internal/db/queries.go:651 | a lookup of a candidate respects the backoff |
| VtQuota.UsedLater | backend/internal/db/queries.go:697-703 | a counter never grows by time passing |
| VtQuota.UsedPut | backend/internal/db/queries.go:633-656 | one lookup raises a counter by at most one |
| VtQuota.CallsAreSeenOrInvisible | backend/internal/db/queries.go:697-703 | calls split into those the counter sees and those it cannot |
| VtQuota.StoredAreUsed | backend/internal/db/queries.go:697-703 | the rows counted since a moment are those of the keys stored since then |
| VtQuota.VtLanes.Begin | backend/internal/scheduler/scheduler.go:557-596 | a pass takes exactly the first min(batch, daily left, monthly left) candidates, under the mutex |
| VtQuota.VtLanes.Lookup | backend/internal/scheduler/scheduler.go:596-641 | a refused call leaves the key's record alone and ends the pass; an answer updates exactly that record |
| VtQuota.VtLanes.Save | backend/internal/db/queries.go:633-656 | a stored answer changes one row, raises each counter by at most one and keeps every other candidate |
| VtQuota.VtLanes.Choose | backend/internal/db/queries.go:660-694 | the candidates of a lane, each once, none missing |
| VtQuota.VtLanes.RunPass | backend/internal/scheduler/scheduler.go:305-359 | the calls a whole pass makes: on the ranked keys in order, as many as it chose, up to the first refusal |
| VtQuota.VtLanes.Tick | backend/internal/scheduler/scheduler.go:305-359 | time passing, over midnight and month end too, keeps the quotas |
| VtQuota.Run | backend/internal/scheduler/scheduler.go:557-619 | any interleaving of both lanes: counters within quotas, the calls of the day and of the month exactly the counter plus the invisible ones, every key backed off |
| VtQuota.CallsPastQuota | backend/internal/scheduler/scheduler.go:596-641 | a run with any number of calls under a quota of one |
| Base64.ByteNumberInjective | agent/pmacct-agent/src/identity.rs:545-548 | byte strings of one length are determined by their number |
| Base64.DecodesUnique | agent/pmacct-agent/src/identity.rs:533-551 | there is one right answer for every run of letters |
| Base64.ShiftedLow | agent/pmacct-agent/src/identity.rs:543 | shifting in 32 bits without a mask keeps the low bits |
| Base64.TakeByte | agent/pmacct-agent/src/identity.rs:545-548 | extracting a byte leaves the invariant for the rest |
| Base64.TracksStep | agent/pmacct-agent/src/identity.rs:538-549 | one letter keeps the low-bit invariant, for any length of input |
| Base64.TakeSextet | agent/pmacct-agent/src/identity.rs:543-548 | the loop body does that step |
| Base64.DecodeB64Hex | agent/pmacct-agent/src/identity.rs:533-551 | empty for a foreign character, otherwise the hex of the one right decoding up to the first padding |
| Base64.HexIs | agent/pmacct-agent/src/identity.rs:551 | two lower-case digits for each byte, the high one first |
| Base64.EncodedLength | agent/pmacct-agent/src/identity.rs:538-541 | padding fills an encoding up to whole groups of four |
| Base64.SextetsDecode | agent/pmacct-agent/src/identity.rs:533-551 | the encoder's output decodes to the original bytes |
| Base64.PositionOfLetter | agent/pmacct-agent/src/identity.rs:534 | every value has its own letter, never the padding |
| Base64.LetterIs | agent/pmacct-agent/src/identity.rs:534 | the 64 letters in their order: capitals, small letters, digits, plus and slash |
| Base64.RoundTrip | agent/pmacct-agent/src/identity.rs:533-551 | of an encoding by section 4 of RFC 4648, padded or not, the decoder sees only letters, and they decode to the original bytes and no others |
| Cadence.PositiveGaps | backend/internal/explain/cadence.go:24-30 | the positive gaps of a sorted list are the gaps of its distinct times |
| Cadence.SumOf | backend/internal/explain/cadence.go:34-37 | the accumulating loop is the sum |
| Cadence.SquaresOf | backend/internal/explain/cadence.go:39-42 | and the squared deviations |
| Cadence.Beaconish | backend/internal/explain/cadence.go:18-46 | the verdict and both averages as functions of the distinct times |
| Cadence.QuotientTest | backend/internal/explain/cadence.go:43-45 | the coefficient-of-variation test with its square root is the squared test |
| Cadence.ClimbingUnique | backend/internal/explain/cadence.go:22-30 | a set of times has one ascending list |
| Cadence.VerdictOfSet | backend/internal/explain/cadence.go:16-46 | the verdict depends only on the set of times |
| Cadence.VerdictShifts | backend/internal/explain/cadence.go:16-46 | and not on when it happened |
| Cadence.FlaggedNeedsSix | backend/internal/explain/cadence.go:16-17 | flagged means at least six distinct times |
| Cadence.GapsTelescope | backend/internal/explain/cadence.go:34-38 | the average gap is the span over the number of gaps |
| Cadence.PeriodicFlaggedIff | backend/internal/explain/cadence.go:16-46 | strictly periodic contacts are flagged if and only if there are six distinct ones and the period is two minutes or more |
| Cadence.SteadyIsFlagged | backend/internal/explain/cadence.go:16-46 | gaps all within a quarter of a long enough average are flagged |
| Login.WindowBound | backend/internal/auth/auth.go:120-135 | with at most c overlapping requests, a window holds at most limit + c - 1 failed checks plus lost rows; none when the limit is not positive |
| Login.RecentFailuresCount | backend/internal/db/auth.go:164-171 | what counts as a recent failure: every stored outcome of the address but a success, strictly younger than the window |
| Login.AutoBlockKeepsManual | backend/internal/db/auth.go:305-313 | a lockout leaves every manual entry as it is and adds nothing under an allow rule |
| Login.AutoBlockIs | backend/internal/db/auth.go:305-313 | a lockout changes nothing under an allow rule or over an administrator's entry, and otherwise denies exactly the address for its length from now |
| Login.AutoBlockDenies | backend/internal/db/auth.go:275-313 | when and until when a locked-out address is denied, exactly |
| Login.Service.Enter | backend/internal/auth/auth.go:120-133 | the gate: through, refused or unavailable, exactly, and the whole new state |
| Login.Service.Finish | backend/internal/auth/auth.go:135-177 | for each answer what is recorded (a wrong password and a disabled account as failed checks), when the address is blocked, and the whole new state |
| Login.Service.SetRule | backend/internal/db/auth.go:291-320 | an administrator's entry, with or without an expiry, replaces or removes what stood there |
| Login.LoginAlone | backend/internal/auth/auth.go:120-177 | an undisturbed login is refused exactly when the limit is reached within the window; the whole new state |
| Login.FailedTry | backend/internal/auth/auth.go:135-177 | a login let through with a wrong password adds exactly that to the record |
| Login.RecordOnlyGrows | backend/internal/auth/auth.go:120-177 | what is on record, and what reached the gate, stays there |
| Login.EditsAndTime | backend/internal/db/auth.go:291-320 | an edit sets or removes the entry of its network and no other, and time changes nothing else |
| Login.Run | backend/internal/auth/auth.go:120-177 | any interleaving of logins, time and edits leads exactly where its events lead and keeps the window bound for every address |
| Login.RunAlone | backend/internal/auth/auth.go:120-177 | logins one after another lead exactly where they lead: at most the limit per window, manual entries untouched |
| Login.TwiceInClosedWindow | backend/internal/db/auth.go:164-171 | a run with twice the limit in a closed window |
| Version.Newer | agent/agent-core/src/version.rs:7-17 | true exactly when the first differing part is larger |
| Version.TiedMeansSameParts | agent/agent-core/src/version.rs:9-12 | equality after zero padding is agreement on every part |
| Version.Trichotomy | agent/agent-core/src/version.rs:7-17 | any two versions are newer, older or tied, never two of these |
| Version.AboveTransitive | agent/agent-core/src/version.rs:7-17 | the order is transitive |
| Version.NegativelyTransitive | agent/agent-core/src/version.rs:7-17 | a strict weak order: ties are interchangeable |
| Version.Split | agent/agent-core/src/version.rs:2-4 | pieces hold no separator, and there is always one |
| Version.SplitIs | agent/agent-core/src/version.rs:3 | dots, hyphens and plus signs end a piece, and nothing else does |
| Version.NumberIs | agent/agent-core/src/version.rs:3 | a piece counts as the number it spells if that fits 64 bits, and as 0 otherwise |
| Version.ParseDotted | agent/agent-core/src/version.rs:2-4 | dotted numbers, with or without a v, parse to themselves |
| Version.InstallAdvancesIff | agent/pmacct-agent/src/update.rs:14-16 | an install moves the version up whatever runs, if and only if the binary is not older than announced |
| Version.TruthfulBuildsAdvance | agent/pmacct-agent/src/update.rs:41-47 | a binary that carries the announced version is such a build |
| Version.SelfTestIsNotEnough | agent/pmacct-agent/src/update.rs:41-47 | a build that passes the self-test and is still wanted after its own install |
| Version.ContainsIff | agent/pmacct-agent/src/update.rs:45 | the test looks for the announced text at any place of the output |
| Version.ReinstalledEveryTime | agent/pmacct-agent/src/update.rs:99-113 | such a build is installed at every one of its offers |
| Version.Installed.Consider | agent/pmacct-agent/src/update.rs:99-113 | when any offer is tried and installed, exactly, and the new state |
| Version.HonestStretchClimbs | agent/pmacct-agent/src/update.rs:14-16 | over any stretch of installs without a build older than announced the versions strictly climb |
| Version.ClimbingNeverRepeats | agent/pmacct-agent/src/update.rs:14-16 | in such a stretch no version, nor a tie of one, runs twice |
| Version.Run | agent/pmacct-agent/src/runner.rs:117-124 | over any offers, truthful or not, attempts and installed builds are exactly those the retry limit, the order and the tests let through; every honest stretch climbs; failed attempts are more than an hour apart |
| Registry.ToRowOk | backend/internal/rules/custom.go:41-119 | a spec that passes validation is within every limit and its base's parameters |
| Registry.AcceptedSpecIff | backend/internal/rules/custom.go:41-119 | which specifications are accepted, exactly |
| Registry.AcceptedSpecGives | backend/internal/rules/custom.go:41-119 | the rule an accepted specification gives, stored and in effect: what it says, and the defaults for what it leaves out |
| Registry.CleanedIs | backend/internal/rules/custom.go:66-70 | the hosts listed are the given ones, trimmed and without empty ones, in order |
| Registry.NameOkIff | backend/internal/rules/custom.go:35 | which names are accepted |
| Registry.DefaultsInEffect | backend/internal/rules/rules.go:268-315 | a built-in rule without an override has its own severity, timing and parameters |
| Registry.RequestedIs | backend/internal/rules/rules.go:368-439 | when an update is accepted, and what it asks for, field by field |
| Registry.DefaultsHaveItsParams | backend/internal/rules/rules.go:368-391 | the parameters an update may name are those the rule has |
| Registry.MergedAsRequestedIff | backend/internal/rules/rules.go:395-439 | an update of a built-in rule gives exactly what was asked if and only if both timing texts are plain, or harmless |
| Registry.PaddedTimingReverts | backend/internal/rules/rules.go:353-366 | an accepted duration that is then ignored |
| Registry.UpdatedAsRequested | backend/internal/rules/custom.go:220-249 | an update of a custom rule gives exactly what was asked and keeps the limits |
| Registry.StoredSameIff | backend/internal/db/custom_rules.go:70-86 | a restart changes a rule exactly when a timing has a fraction of a second |
| Registry.NamesUnique | backend/internal/rules/custom.go:194-217 | no two rules, built-in or custom, share a name |
| Registry.FindInstalled | backend/internal/rules/custom.go:175-191 | installing changes what one name stands for and no other |
| Registry.FindWithout | backend/internal/rules/custom.go:260-267 | removing takes out one name and no other |
| Registry.Engine.constructor | backend/internal/rules/rules.go:226-238 | loading takes exactly the rows that can be built; the rows this engine writes load into a valid engine |
| Registry.LoadedIs | backend/internal/rules/custom.go:146-170 | loading keeps exactly the rows that can be built, in table order |
| Registry.TableIs | backend/internal/db/custom_rules.go:70-86 | the table holds each listed row under its name |
| Registry.Engine.Install | backend/internal/rules/custom.go:175-191 | the loop replaces in place or appends |
| Registry.TakeOut | backend/internal/rules/custom.go:261-266 | the removal loop takes out exactly the first match, or nothing |
| Registry.Engine.SaveCustom | backend/internal/rules/custom.go:194-217 | each result with its condition; on success the rule is what was given and no other rule changed, even those built on it |
| Registry.Engine.Put | backend/internal/rules/custom.go:212-216 | storing and installing a row changes one rule and keeps memory and table in agreement |
| Registry.Engine.UpdateConfig | backend/internal/rules/rules.go:393-439 | each result with its condition; exactly the requested fields of one rule change, timing texts apart; what is stored and what stays in memory when storing fails |
| Registry.Engine.DeleteCustom | backend/internal/rules/custom.go:252-270 | removes one custom rule from memory and table, and no other |
| Registry.Run | backend/internal/rules/custom.go:194-270 | over any run names stay unique, rules within limits, memory in agreement with the table and with the stored overrides |

## Left out

- Runner.Agent.Run: the identity facts of programs are counted but not followed to the server's tables.
- Runs.Account: the agent's own clock may jump freely; the order of records that tie in a drained batch is left open.
- Spooling.Spool.Push: assumes nothing about stamps, but the count and byte totals come from the directory listing; other filesystem faults than a failed listing or write are not modelled.
- Wire.ValidConn: cutting a text at a byte limit can split a UTF-8 character; characters stand for bytes here.
- Ingest.Server.InsertEndpointConns: one agent's part of the table only; the retention job that deletes old rows is not part of this model.
- Alerts.AlertStore.UpsertAlert: a database error other than a value that does not fit is a step that does not happen.
- Pipeline.Run: the parsing of addresses and the table of names do not change during a run.
- Overlap.RunOverlapping: adding a pattern and resolving what it covers is one move; how far apart deliveries are is proved for operations that do not overlap.
- Rollups.Run: accounting rows are inserted, never updated or deleted after they were folded.
- Pipeline.Engine.Announce: recording a delivery in the table always succeeds here; when it fails in the program, the next delivery may come too soon.
- Hours.HourRollup.RollupHours: the first-run backfill, day by day, is not an event of its own.
- VtQuota.RetryBound: bounds lookups whose result was stored; for the others there is no bound, as CallsPastQuota shows.
- VtQuota.Run: the manual refresh from the web page, which takes no quota lock, is not an event.
- Cadence.Beaconish: exact reals instead of floating point, no rounding of the two reported figures, and no saturation of durations of centuries.
- Login.Run: the password hash, sessions, cookies and the middleware that reads the decision are parameters or absent.
- Login.AutoBlockDenies: the purge of expired entries is not modelled; it removes only entries that deny nothing.
- Version.Installed.Consider: the jitter before a download and the manual update command are left out, and only ASCII and Latin-1 spaces are trimmed.
- Registry.Run: two requests that change the same rule at the same time are taken one after the other; run statistics of rules are left out.
- Registry.ToRowOk: letter case is ASCII, and running the user's SQL is not modelled.
- Detection queries, dashboards, feeds and network providers: their answers are arbitrary inputs.
- Scheduling of rule runs by the engine's ticker, alert retention validation, program identity lookups and manifest unescaping: easy next to what is here.
- HTTP handlers, TLS, enrolment, cookies, JSON and gzip, capture backends and process resolution: plumbing and operating-system calls.
