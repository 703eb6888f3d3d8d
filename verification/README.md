# A verified model of the migration engine

This project models the resumable core of a Zoho-to-Google mailbox migration agent in Dafny and proves what its users rely on: workers pause, resume and stop when told to, no message is imported twice or forgotten, limits on request rates and retries hold, and the numbers in the reports add up.

`dafny verify dfyconfig.toml` checks everything.

## How the model is built

* **Concurrency is a transition system.** The pause controller, the workers waiting on it and the network watchdog are one system whose steps are single statements (`PauseProtocol`). A locked section is several steps, and only the lock keeps other threads out. `Do` is total, so every finite list of moves is an interleaving and every theorem about `At(run, k)` is about all of them. The controller object itself is a class whose methods are tied to that system (`PauseControl.SectionIsAtomic`).
* **Objects that the program updates in place are classes**: the controller, the token bucket, the checkpoint store, the streaming agent with its nested loops, the bulk importer with its label cache, and the vault. Each method's contract gives its whole new state as a function of the old one, and the guarantees are proved about those functions over all runs.
* **The world outside is a parameter.** Remote answers, clock readings, random draws, the instant of a cancel, the instant of a crash, and which commits fail are arbitrary. A crash or a cancel can come before every single statement of the streaming loop.
* **Histories are part of the state.** `accepted` counts the copies of a message that Gmail has taken (`filed` the same copies of the bulk importer with their labels), `lost` those whose acknowledgement or row was lost on the way back, and `created` the requests for a label that Google has answered with an id.

| file | what it is about |
|---|---|
| `PauseProtocol.dfy`, `PauseController.dfy` | pause, resume, cancel, network loss, `wait_if_paused` |
| `Watchdog.dfy`, `Recovery.dfy` | the recovery thread: when it resumes, whose pause it ends, when a loss is stranded |
| `RateLimiter.dfy`, `Retry.dfy` | token bucket, retry with back-off |
| `Checkpoint.dfy` | the keyed tables |
| `Labels.dfy` | look a folder's label up, or have it created |
| `Mailbox.dfy`, `MailboxProofs.dfy`, `MailboxCoverage.dfy`, `MailboxCancel.dfy` | a user's run, labels and streaming, as a function of its world, and its guarantees |
| `MailboxAgent.dfy`, `MailboxExecute.dfy` | the labelling and streaming loops and the loop over users, in place |
| `BulkImport.dfy`, `BulkImporter.dfy` | the archive importer: worker threads, label cache, repeated imports |
| `BulkHistory.dfy`, `BulkLabels.dfy`, `BulkFiling.dfy` | what the importer's thread pool has Google do: messages accepted, labels created, labels of the copies |
| `Directory.dfy`, `Discovery.dfy` | directory paging with endpoint fallback; assessment totals |
| `Vault.dfy` | the fallback cipher and the life of the vault |

## Where the code does less than it seems to

The code is modelled as it is. Where a natural property fails, there is a concrete run that breaks it and a statement of when it holds.

* The repository's README (lines 218 and 225) promises that a manual pause lasts until it is resumed and that recovery heals itself. A watchdog checks the state only at its loop head, so it can end a manual pause made during its last probe (`WatchdogCanEndManualPause`); `WatchdogResume` says exactly when it does.
* Nobody may be left to look at the network again. A disconnect reported after the watchdog's resume but before its thread has ended starts no new watchdog (`DisconnectCanBeStranded`); and two threads that report a disconnect at once can start two watchdogs, the first of which clears the second one's flag (`OverlappingStartsCanStrand`). `NetworkLossIsHandled` names the three moves by which the last thread at work lets go of a loss, and says that in every other run it is never forgotten.
* The listing drops entries without an id, and the page loop takes a short page for the last one. One such entry hides all later pages of the folder (`DroppedEntryHidesLaterPages`); `VisitsEverything` says exactly when nothing is hidden.
* A cancel that arrives while a message is being streamed is caught by the loop's `except Exception` and written to the checkpoint as a FAILED row; a run whose last message it was returns as if it had not been cancelled (`CancelInsideFetch`; `RaisesExactly` says exactly when a run ends with the cancel), and execute goes on to the next user, whose labels are created before anything looks at the pause controller. `AfterCancel` bounds what still happens to one row and one call, `CancelBeforeFetch` reaches both bounds, and `LateExactly` says exactly when there is a late row or a late call. `ExecuteAfterCancel` adds up all mailboxes: one late call, one late row, and labels for one user at most.
* A bulk-import dry run writes SYNCED rows, so the live import after it imports nothing (`SecondImportSkipsAll` with a dry first run). `DryRunKeepsRows` says exactly when it leaves the rows alone: when nothing in the archive is new, or the first new entry's row cannot be written. The mailbox agent's dry run writes nothing (`DryRunChangesNothing`).
* The Google client answers an error of its own with the label id INBOX (connectors/google_client.py:367-369), and the mailbox agent saves that like any label, so one error sends a folder to the inbox for good. `SavedLabelSticks` says that the first answer saved is the label ever after, whichever it was, so this happens exactly if that answer is INBOX.
* A label whose mapping could not be saved is remembered by the cache alone (`FailedSaveShowsTheCache`). `CacheIsTransparentExactly` says that the cache is transparent exactly as long as no request is answered from a cached label that the table does not have.
* Two archives imported in parallel can import a message twice. `ImportsOnceExactly` says that this happens in some schedule exactly when they have in common a message that is not in the checkpoint yet. Likewise they can have a label created twice; `CreatesOnceExactly` says that this happens in some schedule exactly when they have new messages in a common folder without a label.

## Model

| member | source | states |
|---|---|---|
| PauseProtocol.StepKeepsInv | engine/pause_controller.py:61-133 | Every step of every thread keeps: one lock holder at most, event and state apart only while the holder is between its two writes, no unnotified waiter while the event is set, and only resumes issued by watchdogs |
| PauseProtocol.AlwaysInv | engine/pause_controller.py:61-133 | The same after every prefix of every interleaving |
| PauseProtocol.NoLostWakeup | engine/pause_controller.py:61-125 | At every lock-free instant the event is set exactly when the state is RUNNING or CANCELLED, and then no waiter is left unnotified |
| PauseProtocol.MutualExclusion | engine/pause_controller.py:33-115 | No two threads are inside locked sections at once |
| PauseProtocol.OneStepOfState | engine/pause_controller.py:61-115 | The state changes only by the write of a locked section that its guard allows, and then to that section's target |
| PauseProtocol.SectionMeans | engine/pause_controller.py:61-115 | Statement by statement, from any state of the system: a pause or resume takes effect from every state but CANCELLED, a disconnect from RUNNING and PAUSED_NETWORK_LOST, a cancel always; each stores its own state, and clears the event (pause, disconnect) or sets it (resume, cancel) |
| PauseProtocol.CancelledForever | engine/pause_controller.py:61-115 | CANCELLED is absorbing in every interleaving |
| PauseProtocol.CancelledNotBefore | engine/pause_controller.py:61-115 | A state other than CANCELLED was never preceded by CANCELLED |
| PauseProtocol.NetworkLossNeverReplacesManualPause | engine/pause_controller.py:74-90 | Between a manual pause and a later PAUSED_NETWORK_LOST the state was RUNNING |
| PauseProtocol.CallStep | engine/pause_controller.py:117-133 | How far any one step can carry a waiting thread: it is notified, or gets to the last check, only if the state let workers through, or the event was set |
| PauseProtocol.WaitProgressSeen | engine/pause_controller.py:117-131 | A call that is notified or has reached its last check has seen, inside the call, a state that lets workers through |
| PauseProtocol.WaitReturnsOnlyAfterRunning | engine/pause_controller.py:117-133 | A normal return of `wait_if_paused`, in any interleaving, means that the state was RUNNING at some instant inside the call and CANCELLED at none |
| PauseProtocol.CancelledCallRaises | engine/pause_controller.py:117-133 | Over whole runs: a thread inside `wait_if_paused` when the state is CANCELLED raises with its second move that finds the lock free at the latest, timed out or not, whatever the others do, and does not return before |
| PauseProtocol.RunningCallReturns | engine/pause_controller.py:117-133 | Over whole runs: while the state is RUNNING a thread inside `wait_if_paused` returns with its fifth move that finds the lock free at the latest, timed out or not, whatever the others do |
| PauseControl.PauseController.constructor | engine/pause_controller.py:32-39 | Starts RUNNING with the event set and no reason |
| PauseControl.PauseController.Pause | engine/pause_controller.py:61-72 | Unless cancelled, ends PAUSED_MANUAL with the event cleared and the reason given; once cancelled nothing changes |
| PauseControl.PauseController.HandleNetworkDisconnect | engine/pause_controller.py:74-90 | Takes effect exactly from RUNNING and PAUSED_NETWORK_LOST, and then asks for a watchdog and ends PAUSED_NETWORK_LOST with the event cleared; otherwise nothing changes |
| PauseControl.PauseController.Resume | engine/pause_controller.py:92-104 | Unless cancelled, ends RUNNING with the event set and no reason; once cancelled nothing changes |
| PauseControl.PauseController.Cancel | engine/pause_controller.py:106-115 | Always ends CANCELLED with the reason given and the event set, so that waiters can leave |
| PauseControl.SectionIsAtomic | engine/pause_controller.py:61-115 | The small steps of a section, taken by one thread alone from a free lock, end with the lock free and with the state and event that the methods' contracts state, from exactly the states named there |
| Watchdog.MonitorHistory | engine/pause_controller.py:207-222 | The program counter and success count of a watchdog say which reads and probes lie in its own past |
| Watchdog.StateIsLastWrite | engine/pause_controller.py:61-115 | The state is PAUSED_MANUAL exactly when a manual pause is the latest write |
| Watchdog.WatchdogResume | engine/pause_controller.py:207-222 | Every resume of a watchdog follows two consecutive successful probes of its own, each after a loop-head read of PAUSED_NETWORK_LOST, and it ends a manual pause if and only if a manual pause is the latest write since the second read |
| Watchdog.WatchdogCanEndManualPause | engine/pause_controller.py:211-219 | A run in which a watchdog's resume turns PAUSED_MANUAL into RUNNING |
| Watchdog.DisconnectCanBeStranded | engine/pause_controller.py:198-224 | A run that ends in PAUSED_NETWORK_LOST with every thread idle or dead |
| Watchdog.OverlappingStartsCanStrand | engine/pause_controller.py:198-224 | A run with an instant at which two watchdogs are looping, and a later one at which a disconnect's check finds the second of them still looping and starts none; it ends in PAUSED_NETWORK_LOST with every thread idle or dead |
| Recovery.StepWorked | engine/pause_controller.py:198-224 | A step leaves a network loss without any thread at work on it exactly when the last such thread lets go: its check finds a live watchdog, its loop head finds the flag cleared, or the thread it wants to start has been started |
| Recovery.NetworkLossIsHandled | engine/pause_controller.py:198-224 | For every interleaving of any number of threads, overlapping starts included: a network loss always has a thread about to make sure of a watchdog, or a watchdog that will look again or is about to resume, if and only if no move of the run lets go of a loss |
| Recovery.AtMostOneWatchdog | engine/pause_controller.py:198-205 | In every interleaving there is never more than one live watchdog if and only if none is started beside a live one |
| Recovery.StartsInTurnSuffice | engine/pause_controller.py:198-205 | If calls do not overlap once they have passed the check, no watchdog is ever started beside a live one |
| Recovery.StartsInTurnExactly | engine/pause_controller.py:200-205 | Calls do not overlap in that sense if and only if no thread passes the check while another one is between its check and its start |
| Recovery.ChecksApartSuffice | engine/pause_controller.py:200-205 | Hence without such a check there is never more than one live watchdog |
| RateLimiter.TokenBucket.constructor | engine/rate_limiter.py:22-27 | Starts full at the current time |
| RateLimiter.TokenBucket.Section | engine/rate_limiter.py:32-42 | One locked attempt in numbers: the level and time it leaves, whether it grants, and how long to sleep if not |
| RateLimiter.TokenBucket.AcquireAlone | engine/rate_limiter.py:29-44 | A lone caller within the capacity sleeps at most once, and not at all exactly when the first attempt is granted, with the level and time afterwards; above the capacity it is never granted, however often it sleeps |
| RateLimiter.SecondAttemptGranted | engine/rate_limiter.py:29-44 | After the computed sleep, or a longer one, the second attempt succeeds |
| RateLimiter.AttemptMeans | engine/rate_limiter.py:31-44 | What flowed in since the last attempt is added, up to the capacity; a grant is given exactly if the amount is there and takes just that; a refusal takes nothing and asks for the time the missing tokens take to flow in, 0.01 s at least |
| RateLimiter.LevelBounded | engine/rate_limiter.py:29-40 | After every run of attempts by any threads the level is within [0, capacity] |
| RateLimiter.LevelExactly | engine/rate_limiter.py:29-44 | The level after any run at all, idle times included: the least, over the instants of the run, of capacity plus inflow since minus grants since; it is attained, so nothing is granted or spilled unaccounted for |
| RateLimiter.IdleBucketIsFull | engine/rate_limiter.py:31-40 | After any legal run, a bucket idle for capacity / rate grants exactly what is within the capacity and then holds the capacity less the amount |
| RateLimiter.WindowPotential | engine/rate_limiter.py:29-40 | Tokens left plus tokens granted in the window never exceed the capacity plus the inflow since it opened |
| RateLimiter.WindowBound | engine/rate_limiter.py:29-40 | In every run and every window [s, t] the tokens granted are at most capacity + rate * (t - s) |
| RateLimiter.AboveCapacityNeverGranted | engine/rate_limiter.py:36-40 | A request above the capacity is never granted, whatever the level and the time |
| RateLimiter.UnitsInv | engine/rate_limiter.py:29-44 | Tokens are conserved over n unit acquires: level = capacity - n + rate * elapsed, below one short sleep's inflow once time has passed |
| RateLimiter.LoneCallerTime | engine/rate_limiter.py:29-44 | n > capacity unit acquires back to back take T with (n - capacity) / rate <= T < (n - capacity) / rate + 0.01 |
| Retry.OneTurn | engine/rate_limiter.py:75-93 | One pass through the loop: when it stops, for which reason, and whether it used up quota, in terms of the controller, the exception and the cancel |
| Retry.DelaySchedule | engine/rate_limiter.py:95-96 | The first delay is the smaller of the initial delay and the cap; each next one is the factor times the last, up to the cap, and none exceeds the cap; only with a factor below one can a capped delay be followed by more than that |
| Retry.OutageIsFree | engine/rate_limiter.py:81-89 | However many network failures a pause controller absorbs: no quota is used, nothing is slept, and the loop goes on |
| Retry.UncontrolledCounts | engine/rate_limiter.py:78-93 | Without a controller every retryable failure uses quota, network or not |
| Retry.TotalBackOff | engine/rate_limiter.py:95-98 | The jittered sleeps add up to at most 1.5 times the capped delays before the last counted failure, and at least half of them when the quota is used up |
| Retry.RetryWithBackoff | engine/rate_limiter.py:64-98 | Gives up exactly at the max_retries-th counted failure; network failures under a pause controller use no quota; every other result is explained by the last turn; a cancel, a value or an exception that is not retryable ends the loop; the number of turns is below max_retries plus the network failures; the time slept, exactly and within its bounds |
| Checkpoint.NormIsNormal | engine/checkpoint.py:136-200 | Normalising an address is idempotent and leaves no upper case and no blank at either end, over ASCII |
| Checkpoint.NormIsSlice | engine/checkpoint.py:136-200 | A normalised address is the given one less the blanks at its ends, letter by letter in lower case, and nothing else is dropped |
| Checkpoint.KeysApart | engine/checkpoint.py:171-202 | Two requests speak of one row if and only if entity, id and normalised address agree |
| Checkpoint.AskedAfterRecord | engine/checkpoint.py:166-202 | After a row is recorded its own item is synced if the row says so, and every other item is what it was |
| Checkpoint.CheckpointStore.constructor | engine/checkpoint.py:23-92 | Opening a database keeps the rows it has |
| Checkpoint.CheckpointStore.IsItemSynced | engine/checkpoint.py:166-174 | True exactly when there is a SYNCED row under entity, id and normalised address |
| Checkpoint.CheckpointStore.RecordItemSync | engine/checkpoint.py:176-202 | Inserts or replaces the row under entity, id and normalised address, and no other |
| Checkpoint.CheckpointStore.GetGoogleLabelId | engine/checkpoint.py:150-158 | The label of the row for this user and folder, if there is one |
| Checkpoint.CheckpointStore.SaveFolderMapping | engine/checkpoint.py:136-144 | Inserts or replaces that one mapping and nothing else |
| Checkpoint.RecordedUnderAnySpelling | engine/checkpoint.py:166-200 | A row recorded under one spelling of an address is found under another exactly when the two have the same normal form |
| Labels.LookupKeeps | atomic_agents/mailbox_agent.py:122-143 | Lookup-or-create keeps the row of a mapped folder and creates no label for it; if the row is saved, the label created is that of the folder newly mapped |
| Mailbox.VisitsStep | atomic_agents/mailbox_agent.py:169-278 | One turn of the page loop: a page, and the rest of the source only if the page was full |
| Mailbox.FoldersOps | atomic_agents/mailbox_agent.py:161-280 | Every run is a list of gates, listings and message visits, the latter drawn from what the page loops hand out |
| MailboxProofs.StreamFacts | atomic_agents/mailbox_agent.py:220-263 | The try block books one kept copy and one SYNCED row together, or neither, wherever it is interrupted |
| MailboxProofs.MessageVisit | atomic_agents/mailbox_agent.py:191-274 | One visit keeps copies and rows in step, touches no other row, counts the message once, and writes at most one late row and starts at most one late call |
| MailboxProofs.MessageRow | atomic_agents/mailbox_agent.py:204-274 | The row a visit leaves: oversize exactly above 25 MiB; SYNCED only with the digest and byte count of the very bytes fetched; otherwise FAILED with an error and one more failure counted |
| MailboxProofs.ExecKeepsInv | atomic_agents/mailbox_agent.py:161-280 | Any list of operations keeps the accounting, the count of visits and the bound after a cancel |
| MailboxProofs.RunInv | atomic_agents/mailbox_agent.py:147-280 | Hence every run does; if it ends normally, synced + skipped + failed is the number of messages visited |
| MailboxProofs.ExactlyOnce | atomic_agents/mailbox_agent.py:191-274 | After any sequence of runs, each ended by completion, cancel, exception or crash, the copies Gmail has of a message are one if its row is SYNCED plus the acceptances that lost their acknowledgement or commit; without losses never a second copy |
| MailboxProofs.AfterCancel | atomic_agents/mailbox_agent.py:161-274 | After a cancel, whatever the worker was doing, it starts at most one more retried call and writes at most one more row |
| MailboxProofs.LabelsCreatedOnce | atomic_agents/mailbox_agent.py:115-145 | Over any sequence of runs, however they end, a saved mapping stays and its label is never created again; if labels can be saved, each folder's label is created once |
| MailboxProofs.SavedLabelSticks | atomic_agents/mailbox_agent.py:127-143 | Whatever non-empty answer is saved for a folder first is its label in every later live run that does not die, whatever runs come in between, and no label is asked for again; so INBOX sticks exactly if INBOX was the answer |
| MailboxProofs.SavedIsMapped | atomic_agents/mailbox_agent.py:127-143 | The saved answer is in the table at the end of its run and after any further runs |
| MailboxProofs.SystemTable | atomic_agents/mailbox_agent.py:282-295 | Which folder names stand for a label of Gmail's own, and for which, whatever case and blanks |
| MailboxProofs.FolderLabel | atomic_agents/mailbox_agent.py:115-145 | The label of each folder in each case: Gmail's own; a made-up one in a dry run; the one in the table; the answer of Google if it was saved; INBOX after an error of Google or of the table; and a label is created exactly if there is none and Google does not fail |
| MailboxCancel.LateExactly | atomic_agents/mailbox_agent.py:161-274 | In every run: a row is written after the cancel if and only if the cancel falls between the gate and the row of a new message, and a call is started after it if and only if it falls between a gate and the call behind it; neither more than once |
| MailboxCancel.ApplyLateRow | atomic_agents/mailbox_agent.py:191-274 | The same for a row and one operation |
| MailboxCancel.ApplyLateCall | atomic_agents/mailbox_agent.py:170-251 | The same for a call and one operation |
| MailboxCancel.RaisesExactly | atomic_agents/mailbox_agent.py:161-280 | While the process lives and rows get written: a run ends with the exception of a cancel if and only if the cancel has come at the gate of one of its folders, pages or messages; otherwise it returns as if it had not been cancelled |
| MailboxCancel.ApplyRaises | atomic_agents/mailbox_agent.py:170-274 | A listing or a message raises exactly if the cancel comes before its gate; a later cancel is caught |
| MailboxCancel.CancelInsideFetch | atomic_agents/mailbox_agent.py:220-274 | A run whose cancel comes inside the fetch: a FAILED row, and the run returns normally |
| MailboxCancel.CancelBeforeFetch | atomic_agents/mailbox_agent.py:192-231 | A run with one late call and one late row, so the bounds are reached |
| MailboxCoverage.VisitsEverything | atomic_agents/mailbox_agent.py:169-278 | The page loop hands out every message of a folder, once and in order, if and only if no entry without an id is followed on a later page by one with an id |
| MailboxCoverage.DroppedEntryHidesLaterPages | connectors/zoho_client.py:479-485 | A folder of 101 entries whose first has no id: the message that only the last entry holds is never visited |
| MailboxCoverage.SteadyRun | atomic_agents/mailbox_agent.py:161-280 | Without cancel, crash or failed commit, whatever listings, fetches and imports fail: a run comes to its end, visits in each folder the pages before the first listing that failed, and counts every visit once as synced, skipped or failed |
| MailboxCoverage.UnstoppedRun | atomic_agents/mailbox_agent.py:161-280 | If in addition no listing fails it visits what the page loops hand out, in order, dry or live, and counts every visit once |
| MailboxCoverage.CleanRunCompletes | atomic_agents/mailbox_agent.py:161-280 | After any history one clean run leaves every listed message of at most 25 MiB SYNCED |
| MailboxCoverage.CleanRunGains | atomic_agents/mailbox_agent.py:161-280 | The exact gain of a clean run after any history: the visited ids without a SYNCED row, of at most 25 MiB, get one each and one kept copy each in Gmail, no other message gets either, and `synced` is their number |
| MailboxCoverage.CleanRunCompletesSource | atomic_agents/mailbox_agent.py:161-280 | The same for every message with an id in the source of a folder that hides nothing |
| MailboxCoverage.ReplayGrows | atomic_agents/mailbox_agent.py:195-197 | Over any sequence of runs, of any users, dry or live and however they end, a SYNCED row is never taken back |
| MailboxCoverage.LaterRunImportsNothing | atomic_agents/mailbox_agent.py:195-197 | After a clean run, and any runs in between, every later live run on the same source, however it goes, imports nothing and reports synced = 0 |
| MailboxCoverage.DryRunChangesNothing | atomic_agents/mailbox_agent.py:122-202 | A dry run changes neither item rows nor folder rows, imports no message and creates no label, and its skipped and byte counts are those of the messages visited |
| MailboxCoverage.DryRunForecast | atomic_agents/mailbox_agent.py:191-280 | Dry and live run from the same checkpoint visit the same messages; dry.synced - live.synced = live.failed + (live.skipped - dry.skipped), and dry.skipped <= live.skipped |
| MailboxAgent.StreamingAgent.WaitIfPaused | atomic_agents/mailbox_agent.py:192-193 | Lets the worker through or raises, as the cancel instant says |
| MailboxAgent.StreamingAgent.Retried | engine/rate_limiter.py:75-83 | A retried call without side effects: a gate before every try |
| MailboxAgent.StreamingAgent.FetchMessage | atomic_agents/mailbox_agent.py:222-234 | Fetching, with an exception for a missing or empty payload |
| MailboxAgent.StreamingAgent.ImportMessage | atomic_agents/mailbox_agent.py:242-251 | Importing, with tries that Gmail accepted although the answer was lost |
| MailboxAgent.StreamingAgent.RecordRow | engine/checkpoint.py:176-202 | The row is written, or the commit raises and it is not |
| MailboxAgent.StreamingAgent.TryStream | atomic_agents/mailbox_agent.py:220-263 | The whole try block, left at the first exception |
| MailboxAgent.StreamingAgent.SkipOversize | atomic_agents/mailbox_agent.py:205-217 | The oversize branch, which counts the failure after the row |
| MailboxAgent.StreamingAgent.Except | atomic_agents/mailbox_agent.py:264-274 | The except block, which counts before it writes and also catches a cancellation |
| MailboxAgent.StreamingAgent.StreamMessage | atomic_agents/mailbox_agent.py:191-274 | The body of the message loop changes the world as `Mailbox.Message` |
| MailboxAgent.StreamingAgent.ListPage | atomic_agents/mailbox_agent.py:170-189 | The page that was listed, or none when the listing failed, was swallowed or was interrupted |
| MailboxAgent.StreamingAgent.StreamFolder | atomic_agents/mailbox_agent.py:166-278 | The page loop terminates, with the messages not yet paged as its measure, and changes the world as `Mailbox.Folder` |
| MailboxAgent.StreamingAgent.EnsureLabel | atomic_agents/mailbox_agent.py:122-143 | The label of one folder, table and history afterwards, in every branch: system, dry run, mapped, created, not saved |
| MailboxAgent.StreamingAgent.SettleFolder | atomic_agents/mailbox_agent.py:127-143 | Lookup, or Google's answer and whether it was saved |
| MailboxAgent.StreamingAgent.FailedTries | engine/rate_limiter.py:75-98 | The failing tries of an import, some accepted with the answer lost |
| MailboxAgent.StreamingAgent.MapAndCreateLabels | atomic_agents/mailbox_agent.py:115-145 | One label for each folder, in order, changing the world as `Mailbox.LabelFolders` |
| MailboxAgent.StreamingAgent.StreamUserMailbox | atomic_agents/mailbox_agent.py:147-280 | The nested loops change store, Gmail and counters exactly as `Mailbox.StreamFolders` |
| MailboxAgent.StreamingAgent.MigrateUser | atomic_agents/mailbox_agent.py:85-93 | Labels, then stream: exactly `Mailbox.Run`, about which the guarantees above are proved |
| MailboxExecute.Execute | atomic_agents/mailbox_agent.py:62-113 | The loop over users, on one clock and with one cancel: books, totals and per-user results, left at the first exception that escapes a mailbox; what they are is said by the next two rows |
| MailboxExecute.EveryUserReported | atomic_agents/mailbox_agent.py:62-113 | For distinct addresses, without cancel, crash or failed commit: every user with an account is in the results, with exactly one failure if the folders could not be listed, and otherwise with every visited message counted once |
| MailboxExecute.CleanUserMigrated | atomic_agents/mailbox_agent.py:62-113 | Among such users, a live one whose listings, fetches and imports go well: the result counts as synced exactly its new ids of at most 25 MiB, and after execute every visited message of that size is SYNCED |
| MailboxExecute.TotalsAddUp | atomic_agents/mailbox_agent.py:62-113 | For distinct addresses the reported totals are the sums of the per-user results, and the accounting holds from one mailbox to the next |
| MailboxExecute.RunAfterCancel | atomic_agents/mailbox_agent.py:85-93 | A user's run that begins after the cancel visits and imports nothing, and ends execute if the user has a folder |
| MailboxExecute.ExecuteAfterCancel | atomic_agents/mailbox_agent.py:62-113 | After the one cancel, execute as a whole starts at most one more retried call, writes at most one more item row, and has labels created for at most one user |
| BulkImport.StepLeavesOthers | engine/bulk_importer.py:104-247 | A worker's step changes nothing that belongs to another user |
| BulkImport.StepCongruent | engine/bulk_importer.py:104-247 | A worker's step depends on nothing that belongs to another user |
| BulkImport.OwnOutcome | engine/bulk_importer.py:267-332 | At every moment of every interleaving, finishing one worker gives its user what running it alone from the start gives |
| BulkImport.ParallelIsSequential | engine/bulk_importer.py:267-332 | For distinct target users every complete interleaving ends with the item rows, folder rows, label cache, counters, accepted messages with their labels, and created labels of importing the archives one after another |
| BulkImporter.ResolveRuns | engine/bulk_importer.py:104-138 | The small steps of a resolution, taken alone, are the resolution in one go |
| BulkImporter.ZohoBulkZipImporter.constructor | engine/bulk_importer.py:91-102 | Starts with an empty label cache |
| BulkImporter.ZohoBulkZipImporter.ResolveLabel | engine/bulk_importer.py:104-138 | The label returned, and cache, table and labels created afterwards, in every branch |
| BulkImporter.ZohoBulkZipImporter.Deliver | engine/bulk_importer.py:200-234 | Dry run, import, import that fails before or after Gmail accepted it, and rows that cannot be written: tables, history and counters are those of the worker steps |
| BulkImporter.ZohoBulkZipImporter.ImportUserZip | engine/bulk_importer.py:168-265 | The loop over an archive leaves tables, cache, history and counters as the worker's steps run to the end, or to the exception that leaves it |
| BulkImporter.OneResolution | engine/bulk_importer.py:104-138 | One request: label, label created and table are those of lookup-or-create without a cache, exactly unless it is answered from a cached label that the table does not have |
| BulkImporter.CacheIsTransparentExactly | engine/bulk_importer.py:104-138 | For a new importer and any sequence of resolutions, whatever Google and the checkpoint answer: both forms agree at every point of the sequence if and only if no request is answered from a cached label that the table does not have |
| BulkImporter.CacheIsTransparent | engine/bulk_importer.py:104-138 | Hence in every dry run, and in every live run whose saves succeed; then cache entries always agree with the table |
| BulkImporter.CreatedAtMostOnce | engine/bulk_importer.py:117-138 | Whatever fails, one importer has a folder's label created at most once, never when it is cached or mapped, and existing mappings stay |
| BulkImporter.FailedSaveShowsTheCache | engine/bulk_importer.py:130-138 | Two messages of an unmapped folder whose save fails: after the second one the two forms differ |
| BulkImporter.FinishCounts | engine/bulk_importer.py:181-247 | At the end of an archive that did not raise every entry has a row and was counted once; a live import, raised or not, counts as synced exactly the messages Gmail took and whose row was written |
| BulkImporter.FinishMarks | engine/bulk_importer.py:200-220 | A clean import, or a dry run, whose rows get written leaves every entry with a SYNCED row |
| BulkImporter.SecondImportSkipsAll | tests/test_bulk_importer.py:113-125 | Importing the archive again skips every entry and changes nothing, after a clean import or after a dry run |
| BulkImporter.DryRunKeepsRows | engine/bulk_importer.py:200-206 | A dry run leaves the item rows as they were if and only if nothing in the archive is new, or the first new entry's row cannot be written; if rows can be written, if and only if nothing is new |
| BulkHistory.PoolKeepsSynced | engine/bulk_importer.py:185-188 | After every schedule of any workers, dry or live, finished or not, a row that was SYNCED at the start still is, and no worker has claimed its message |
| BulkHistory.LaterImportSkipsAll | tests/test_bulk_importer.py:113-125 | The same after any number of parallel imports of anything in between, by this importer or new ones |
| BulkHistory.PoolAccounted | engine/bulk_importer.py:199-332 | For tasks without a new message in common, of one user or not, after every schedule and whatever fails: the copies Gmail accepted since the start are the messages newly SYNCED, those whose row is about to be written, and those whose answer or row was lost |
| BulkHistory.ImportsOnceExactly | engine/bulk_importer.py:311-317 | When imports and row writes succeed: no schedule imports a message twice if and only if no two archives have in common a message that is not in the checkpoint yet |
| BulkHistory.SharedIsImportedTwice | engine/bulk_importer.py:311-317 | For any two archives with such a message in common, a schedule that imports it twice |
| BulkHistory.DistinctUsersShareNothing | engine/bulk_importer.py:182-188 | Archives of different users have no message in common |
| BulkHistory.SequentialAccounted | engine/bulk_importer.py:168-247 | One after another, archives with anything in common are accounted for: a message newly SYNCED is one more copy, losses aside |
| BulkLabels.PoolLabels | engine/bulk_importer.py:104-138 | For tasks without new messages in a common unknown folder, after every schedule, dry or live and whatever fails: a label created is cached or about to be, known folders keep their rows and cache entries, and a worker that looks for a label has a new message of a folder not cached before |
| BulkLabels.LabelsCreatedOnce | engine/bulk_importer.py:104-138 | Hence at most one label for a folder, and none for a folder mapped or cached before |
| BulkLabels.SharedFolderIsCreatedTwice | engine/bulk_importer.py:116-135 | For any two archives with new messages in a common unknown folder, wherever in the archives, a schedule that has its label created twice |
| BulkLabels.CreatesOnceExactly | engine/bulk_importer.py:104-138 | For live imports that get their labels, and archives whose item keys tell folders apart: no schedule has a folder's label created twice if and only if no two archives have new messages in a common folder without a label |
| BulkFiling.PoolFiles | engine/bulk_importer.py:104-222 | After every schedule, dry or live, shared users or not, whatever fails: every new copy is under the label of its entry's folder (Gmail's own, from cache or table, or created for an entry of that folder; INBOX only if a creation or save for the folder failed), every label cached or saved belongs to its folder, and every new row carries its entry's digest and, if SYNCED, the id Gmail acknowledged that import with |
| BulkFiling.FinishBytes | engine/bulk_importer.py:200-222 | The bytes reported are the sizes of the entries counted as synced, each entry once |
| BulkFiling.SystemFolders | engine/bulk_importer.py:30-44 | Which folder names need no label of their own, and the label each gets |
| BulkFiling.LabelNameIs | engine/bulk_importer.py:131 | The name of a folder's label is its path with forward slashes and none at the ends |
| BulkFiling.ItemsApart | engine/bulk_importer.py:182-188 | Entries share a row exactly if they are one user's and folder and message id make the same path |
| Directory.ValidMembers | connectors/zoho_client.py:324-334 | The filter keeps exactly the users of valid records, each with a normalised address that contains '@' |
| Directory.ValidOne | connectors/zoho_client.py:324-334 | A record gives one user, under the normal form of its first address field that is not empty, or none if that has no '@' |
| Directory.ValidAppend | connectors/zoho_client.py:322-372 | Filtering page by page, in order, is filtering the whole directory |
| Directory.WalkOfSlices | connectors/zoho_client.py:308-377 | Paging through an endpoint that serves exact slices gives the whole directory |
| Directory.WalkMeans | connectors/zoho_client.py:308-387 | After any number of full pages the next answer decides: a client error drops everything gathered and passes the endpoint over, any other exception leaves the method, a single record or a short page or the end completes the listing with all records up to there |
| Directory.PagesEnd | connectors/zoho_client.py:313-377 | There always is such an answer, or the end |
| Directory.PageThrough | connectors/zoho_client.py:308-387 | After the full pages: nobody on a client error, an exception on any other, and the valid users of all records up to there at a single record, a short page or the end |
| Directory.Collect | connectors/zoho_client.py:324-372 | The loop over a page collects the valid users in order |
| Directory.ListOrganizationUsers | connectors/zoho_client.py:289-387 | Nobody exactly when every endpoint fails or has no valid user; otherwise the complete filtered directory of the first endpoint that does; never a partial listing |
| Discovery.FirstUser | engine/discovery.py:88-150 | The estimate of one user, with as many bytes as its megabytes say |
| Discovery.EstimateMeans | engine/discovery.py:88-150 | The estimate of each user from the directory and the folder listing: which users are inspected, their folders' messages, none if listing raises, otherwise one message for each full 100 KiB and at least one; the size reported, or 100 KiB for each message found |
| Discovery.FolderMessagesMean | engine/discovery.py:106-127 | The reported counts of the folders, or if all are zero what the samples of the first three list |
| Discovery.CountsAdd | engine/discovery.py:106 | The reported counts are added up over all folders |
| Discovery.FirstLoop | engine/discovery.py:88-155 | The first pass: the running totals are the sums of the per-user estimates, exactly |
| Discovery.Fill | engine/discovery.py:158-163 | Filling in one blank estimate changes the sums by just what is filled in |
| Discovery.RoundingGap | engine/discovery.py:161-163 | Rounding to two decimals and truncating to bytes part by at most 0.005 MB and one byte |
| Discovery.Round2Means | engine/discovery.py:161 | Rounding to two decimals gives the nearest multiple of 0.01, and of two the even one |
| Discovery.Extrapolate | engine/discovery.py:158-163 | The second pass fills in the average where there was no estimate, in place, and changes no other entry; the message total stays the sum of the estimates and the storage total stays near theirs |
| Discovery.FillBlanks | engine/discovery.py:152-163 | The same with the averages it fills in, and the message total they give |
| Discovery.RunAssessment | engine/discovery.py:77-166 | Which entries are filled in, and with what; the message total is the per-user sum, and S + (n - s) * floor(S / s) when extrapolated, which lies in (S * n / s - (n - s), S * n / s]; the storage total differs from the per-user sum by at most 0.005 MB and one byte per extrapolated user |
| Vault.RoundTrip | security/vault.py:65-114 | Decryption inverts encryption for every text within the four-byte counter, every key, nonce and HMAC |
| Vault.StreamLength | security/vault.py:80-85 | n blocks of key stream are 32 n bytes, whatever HMAC is |
| Vault.StreamByte | security/vault.py:82-87 | Byte r of block q of the key stream is byte r of the HMAC of the counter q |
| Vault.CipherMeans | security/vault.py:78-114 | Each byte of a cipher text, and of a decrypted one, is the byte given xor the HMAC, under the key derived with "enc-key" and the nonce, of the four big-endian bytes of its block number; the tag is the first 16 bytes of the HMAC of nonce and text under the key derived with "auth-key"; decryption refuses exactly the ciphers with any other tag |
| Vault.PurgedForever | security/vault.py:54-147 | After a purge, explicit or by expiry, the store stays empty and every access is refused |
| Vault.PurgedExactly | security/vault.py:54-63 | A vault is purged if and only if it was asked to be, or someone came for a secret after its time |
| Vault.RetrievesLastStored | security/vault.py:116-129 | While the vault lives, a retrieve answers with the value stored last under the key, and a membership test with whether there is one, as read off the history of calls; after its time both are refused |
| Vault.EphemeralVault.constructor | security/vault.py:39-47 | Starts empty and not purged |
| Vault.EphemeralVault.Touch | security/vault.py:49-52 | Moves the access time unless purged, and nothing else |
| Vault.EphemeralVault.Purge | security/vault.py:136-147 | Zeroes every byte of the key in place and empties the store |
| Vault.EphemeralVault.CheckTtl | security/vault.py:54-63 | Refuses exactly when purged or expired, and purges in the latter case |
| Vault.EphemeralVault.KeyStream | security/vault.py:80-85 | The counter loop builds the shortest prefix of the key stream that is long enough, in both directions the same, or overflows |
| Vault.EphemeralVault.Encrypt | security/vault.py:75-91 | The fallback branch of encryption: the bytes of text and tag, or an overflow exactly beyond the counter's range |
| Vault.EphemeralVault.Decrypt | security/vault.py:100-114 | The fallback branch of decryption: exactly the wrong tags are refused, before anything else |
| Vault.EphemeralVault.Store | security/vault.py:116-121 | Through the cipher the vault means a map from keys to values: store; what is held is masked and tagged |
| Vault.EphemeralVault.Retrieve | security/vault.py:123-129 | The same for retrieve, whose decryption never fails on what was stored |
| Vault.EphemeralVault.Has | security/vault.py:131-134 | The same for has |

## Left out

- RateLimiter.WindowBound: the clock is assumed never to go backwards and requests not to be negative; arithmetic is over exact reals.
- BulkLabels.CreatesOnceExactly: for item keys that tell folders apart; messages of two folders can have the same key (`a` with id `b/c`, `a/b` with id `c`), and then the row of one keeps a worker from the other. `LabelsCreatedOnce` needs no such condition.
- A request for a label that Google answers with an error after creating it: `created` counts the requests answered with an id, since a later get-or-create finds the label.
- PauseProtocol.WaitReturnsOnlyAfterRunning: `wait_if_paused` and the recovery loop are steps of the transition system rather than methods with loops, because their guarantee is about interleavings inside the loop.
- MailboxExecute.Execute: the listing of a user's folders takes no time on the clock and is not counted as a late call; it is not wrapped in a retry.
- Checkpoint.NormIsNormal: lower case and blanks are those of ASCII.
- The quota and the back-off times inside the mailbox model: a retried call there is a finite list of failing tries and a last one; `Retry` has the loop itself.
- Errors of checkpoint reads; a failed commit is taken not to have changed the table.
- The label sent along with an imported mailbox message (atomic_agents/mailbox_agent.py:239): one conditional over the label map, which is modelled.
- Argument mismatches with the Google client (`is_unread`, `get_or_create_label`): modelled as the import and label creation they are meant to be.
- Callbacks, logging, time stamps in rows, the users table and summary statistics.
- Archive reading, file-name matching and the result dictionary of the bulk importer; the number of threads (any interleaving is allowed, so any number is).
- Folder, calendar and contact counts in the assessment, and everything in it that is not a total; an assessment object is a record in an array.
- The alias and name fields of a directory user, and storage parsing; an endpoint that serves full pages for ever.
- AES-GCM, text encoding, and the strength of HMAC, which is any function with 32-byte results.
- `NonRetryableZohoError` is retried like its parent class; which exceptions count as retryable or as network errors is a parameter.
- Asynchronous variants of acquire and retry, which repeat the same sections.
- Calendar and contacts agents, pipeline, provisioning, auditing, user interface, report files: simpler loops or plumbing.
