# Verified models of the service toolkit's protocols and codecs

Dafny models of the toolkit's hand-written concurrency protocols and codecs, with proofs of what they promise.
`dafny verify dfyconfig.toml` checks everything.

Promises are modelled as steps: everything between two awaits is one atomic transition. A protocol is a state, a total
function `Step` over its events (an event that cannot occur in a state leaves it unchanged) and `Run` over any finite
sequence of events, so a statement about `Run` is a statement about every interleaving. The instance factory, the guest,
the token, the file system and the clock are the events' arguments. Beside each protocol stands a class with the
source's own fields, whose methods carry a ghost copy of the model's state and end in the state the step function gives.

| file | what it models |
|---|---|
| `Pool.dfy`, `PoolAnswers.dfy`, `InstancePool.dfy` | the bounded pool of component instances: FIFO waiters, lazy creation, leases with discard, close |
| `RuntimeShutdown.dfy`, `ShutdownCompletion.dfy`, `ShutdownTermination.dfy`, `RuntimeAnswers.dfy`, `WasmRuntime.dfy` | calls, guests and the two-layer close of the runtime, on top of the pool; when that close can, and must, get through |
| `ErrorCatalog.dfy`, `RetryTrace.dfy` | the ABI error catalog; the attempts of one call, its events and delays |
| `SessionPool.dfy`, `SessionAnswers.dfy` | PKCS#11 sessions: wake-one waiters, barging newcomers, a counter claimed before the await, token login |
| `Workers.dfy`, `WorkersAnswers.dfy`, `Jobs.dfy`, `JobsAnswers.dfy` | the worker loop and the job scheduler under reconfiguration |
| `FileSink.dfy` | the rotating log sink and its file table |
| `JsonText.dfy`, `JsonScanner.dfy`, `JsonReads.dfy`, `JsonScannerClass.dfy` | JSON texts with all white space and escapes, the duplicate-field scanner, and a parser for the meaning of a text |
| `JsonPrint.dfy`, `AbiResponse.dfy`, `AbiAnswers.dfy` | JSON printing; ABI responses made, written, read back and validated |
| `Base64.dfy` | the two canonical-Base64 gates |
| `Der.dfy`, `TokenKeys.dfy` | the DER writer and reader with JavaScript's 32-bit shifts; keys, EC points and the X.509 walk |
| `Utf8.dfy`, `Texts.dfy`, `KeyUri.dfy`, `KeyUriAnswers.dfy` | UTF-8 with replacement and byte order mark; trimming and splitting; key URIs |
| `Settings.dfy`, `Ini.dfy`, `IniAnswers.dfy` | settings trees and their merge; INI overlays |
| `Common.dfy` | shared values and predicates |

The `...Answers` files say what each operation answers in the ordinary case and in every other, as conditions on what a
caller sees.

Eight promises turn out to hold only under a condition; each is stated with its exact condition:

- a woken waiter of the session pool that is aborted takes its wake-up with it, unless nobody waits or another wake-up
  is to spare (`AbortLosesIff`; over whole runs `NothingLostIff`; a run that strands a waiter, `AbortLosesWakeUp`);
- a call whose timeout or deadline is no finite number of at least zero is counted before it is refused and never
  uncounted: close() gets done, on every fair schedule, exactly when no such call was made (`FairShutdownIff`,
  `ShutdownComesToRest`, `ShutdownCompletesIff`, `DeadlineRefusedIff`);
- a success nested exactly 32 containers deep can be made but not read back (`SuccessRoundTrip`);
- a certificate without its version field yields its subject instead of its key (`SpkiExactlyWhen`);
- a bare EC point is unwrapped when its bytes also read as a wrapped one (`BarePoint`, `BareP256`);
- a key URI whose text starts with U+FEFF does not come back as it was (`KeyUris.RoundTrip`, `Idempotent`);
- a repeated INI key keeps all its values exactly when no line for a prefix of it follows one of them and every line for
  an extension of it is followed by one for a prefix, or what is lost does not show (`RepeatedKeys`, `LedThrough`,
  `BuildGrows`; two lines that lose a value, `LosesValue`);
- a worker limit bounds the tasks in flight exactly when it is a whole number (`SlotsKeptIff`).

## Model

| member | source | states |
|---|---|---|
| PoolModel.RunKeeps | wasm/runtime.ts:524-696 | every reachable pool state: entries + creations within the limit, each instance in one place only, leases, waiters and rejections accounted for, the close protocol consistent |
| PoolModel.Progress | wasm/runtime.ts:551-667 | open pool, no discard closing: a parked waiter means no idle instance, and creations in flight cover the waiters or the pool is at its maximum |
| PoolModel.Fairness | wasm/runtime.ts:551-631 | grants follow arrival order; every caller is granted, parked or rejected, exactly one of these and once |
| PoolModel.Safety | wasm/runtime.ts:505-667 | entries + creating never exceed the maximum; busy entries are exactly those with an unreleased lease, one to one |
| PoolModel.ClosedMeansClosed | wasm/runtime.ts:593-695 | when close() settles, nothing is busy or being created and every instance ever created had close called exactly once |
| PoolModel.ClosingAdvances | wasm/runtime.ts:574-695 | no instance is closed twice; a closed pool with nothing busy, creating or mid-close has begun finalising |
| PoolModel.ReturnedOnlyByRelease | wasm/runtime.ts:574-591 | a lease ends with its instance still in the pool only through a healthy release of that very lease |
| PoolModel.SettledClosed | wasm/runtime.ts:669-695 | a settled pool close leaves no busy instance, no creation and no waiter, and one close call per instance |
| PoolAnswers.Admitted | wasm/runtime.ts:551-572 | in every run acquire() turns a caller away exactly when the pool is closed or its signal has fired; otherwise it is granted at once if an instance is idle and nobody waits, or parked while instances are being created for the queue or the pool is full |
| PoolAnswers.RejectedOnlyFor | wasm/runtime.ts:551-667 | a step rejects a caller only for a closed pool, its fired signal, or a failed creation while it is first in the queue, and then always; no fired signal is granted, no answer taken back, no creation started beyond the waiters |
| PoolAnswers.AbortedAreRejected | wasm/runtime.ts:555-561 | an abort rejects every parked caller that listens to it; close() rejects all |
| PoolAnswers.ReadyServes | wasm/runtime.ts:574-651 | an instance created, or given back in health, stays in an open pool and serves the first waiter, or is idle |
| PoolAnswers.ClosedOnlyFor | wasm/runtime.ts:574-695 | close is called for exactly a broken or late lease, a late creation, or what finalisation finds; close() rejects exactly when a close failed that it reports |
| PoolAnswers.SettlesIff | wasm/runtime.ts:675-695 | finalisation closes what is left to it, and close() settles exactly when all of that has settled |
| PoolAnswers.FailuresCounted | wasm/runtime.ts:580-695 | those failures are the failed closes of a closed pool and of finalisation |
| InstancePoolClass.InstancePool.Stats | wasm/runtime.ts:543-549 | the counts it reports are the leased, existing and waiting ones of the model |
| InstancePoolClass.InstancePool.PumpWaiters | wasm/runtime.ts:608-631 | the two nested loops terminate and end in the state of the pump function |
| InstancePoolClass.InstancePool.AcquireLease | wasm/runtime.ts:551-572 | the new state is that of an acquire step, queue and listener included |
| InstancePoolClass.InstancePool.OnAborted | wasm/runtime.ts:555-561 | an aborted waiter leaves the queue and is rejected; nobody else moves |
| InstancePoolClass.InstancePool.ReleaseEntry | wasm/runtime.ts:574-591 | the new state is that of a release step; it tells whether a close is awaited |
| InstancePoolClass.InstancePool.AfterClose | wasm/runtime.ts:580-586 | after a discard's close: failure recorded if closed, queue pumped, close advanced |
| InstancePoolClass.InstancePool.Created | wasm/runtime.ts:637-651 | a created instance joins the pool and serves waiters, or is closed if the pool is |
| InstancePoolClass.InstancePool.CreationFailed | wasm/runtime.ts:652-665 | the first waiter is rejected, the queue pumped, the close advanced |
| InstancePoolClass.InstancePool.CloseAll | wasm/runtime.ts:593-606 | waiters rejected, no more acquires, finalising begun when nothing is busy or creating |
| InstancePoolClass.InstancePool.MaybeFinish | wasm/runtime.ts:669-674 | finalising starts exactly once, when nothing is busy or creating |
| RuntimeModel.RunKeeps | wasm/runtime.ts:177-318 | every reachable runtime state: each unreleased lease belongs to a call or a tracked guest, across load, calls and shutdown |
| RuntimeModel.NoDispatchAfterClose | wasm/runtime.ts:288-318 | once close() has started, no component dispatch begins |
| RuntimeModel.LeasesBackBeforePoolCloses | wasm/runtime.ts:293-304 | on reaching pool.close() every lease ever granted has been released, also for calls that timed out while their guest ran |
| RuntimeModel.ShutdownClosesEverything | wasm/runtime.ts:288-314 | a finished shutdown leaves no call, guest or lease, and every instance closed once |
| RuntimeModel.ReusedOnlyAfterValidAnswer | wasm/runtime.ts:389-435 | an instance goes back to the idle set only after a dispatch that settled un-aborted with a valid response |
| RuntimeModel.DeadlineRefusedIff | wasm/runtime.ts:742-763 | resolveDeadline throws exactly when an option that is given is not a finite number of at least zero, whatever the clock and the default; otherwise both limits are kept |
| ShutdownCompletion.ShutdownCompletesIff | wasm/runtime.ts:182-190 | from any reachable point a close() can still run to its end exactly when no call before it had refused options: such a call throws after it is counted and before the try block |
| ShutdownCompletion.Completes | wasm/runtime.ts:288-318 | without such a call, from every reachable state of a shutdown some continuation ends all calls, guests, creations and closes and settles it |
| ShutdownTermination.ShutdownComesToRest | wasm/runtime.ts:288-318 | after close() only boundedly many events change anything, whatever their order; when none can any more, the shutdown is done exactly when no earlier call had refused options |
| ShutdownTermination.FairShutdownIff | wasm/runtime.ts:177-318 | on every endless schedule on which something that can change sooner or later does, the shutdown gets done exactly when no earlier call had refused options |
| ShutdownTermination.StepWork | wasm/runtime.ts:177-318 | once close() has started, an event changes nothing or uses up work: no aborted call sleeps again, no instance is created any more, no guest is dispatched |
| ShutdownCompletion.RunSound | wasm/runtime.ts:403-433 | a call that awaits the pool, once granted, still holds that lease until it sees it |
| RuntimeAnswers.CallDispatches | wasm/runtime.ts:189-433 | whatever happened before, a call of an open runtime whose load succeeds, un-aborted and with a lease free, gets to its dispatch |
| RuntimeAnswers.InvokeAnswers | wasm/runtime.ts:177-200 | an open runtime counts each call and loads with the first accepted one; a closed one turns it away |
| RuntimeAnswers.LoadAnswers | wasm/runtime.ts:320-387 | the load succeeds exactly when the bundle loads before close(), and settles once |
| RuntimeAnswers.AsksPool | wasm/runtime.ts:189-216 | behind the load and each delay a call asks the pool with its own signal, or ends |
| RuntimeAnswers.Dispatches | wasm/runtime.ts:400-410 | a granted instance is dispatched to, unless the call is aborted or throws; then it is given back to be closed |
| RuntimeAnswers.GuestAnswers | wasm/runtime.ts:411-431 | an instance goes back after a valid answer to a call that is not aborted, and is closed otherwise |
| RuntimeAnswers.AttemptOver | wasm/runtime.ts:246-284 | an attempt that is over is followed by a retry or the end; the end uncounts the call |
| RuntimeAnswers.CutIff | wasm/runtime.ts:835-855 | an abort cuts a call short exactly while it races its signal |
| RuntimeAnswers.AbortAnswers | wasm/runtime.ts:703-740 | a caller's abort or deadline fires the signal of its own call only, while that is under way |
| RuntimeAnswers.CloseAnswers | wasm/runtime.ts:288-296 | the first close() aborts every call under way and no other signal, and waits for them; a second one does nothing |
| WasmRuntimeClass.WasmRuntime.BeginCall | wasm/runtime.ts:177-200 | a call is counted unless closing, and only then its options are checked: refused ones leave it counted; the first accepted one starts the load |
| WasmRuntimeClass.WasmRuntime.EndCall | wasm/runtime.ts:278-284 | a finished call is uncounted, and the last one wakes close() |
| WasmRuntimeClass.WasmRuntime.TrackDispatch | wasm/runtime.ts:403-433 | a dispatched guest is tracked until it settles |
| WasmRuntimeClass.WasmRuntime.Close | wasm/runtime.ts:288-296 | close() waits for the active calls, if any; a second call changes nothing |
| WasmRuntimeClass.WasmRuntime.ResumeClose | wasm/runtime.ts:293-304 | the closure of close() goes on exactly when what it awaits is there: calls, load, background snapshot, pool |
| RetryTrace.Invoke | wasm/runtime.ts:201-277 | the retry loop terminates with the trace, delays and ending of the specification |
| RetryTrace.TraceShape | wasm/runtime.ts:203-276 | (start queued? failure retry)* then an optional start with success or failure, one id throughout, and one operation and target on all but queued; success exactly when the call returns; an abort or a rejected sleep may end it in a delay |
| RetryTrace.AttemptsBounded | wasm/runtime.ts:201-203 | at most maxAttempts starts, numbered from 1, and only one unless the call may be retried |
| RetryTrace.RetriedExactlyWhen | wasm/runtime.ts:247-274 | attempt n starts exactly when the call may be retried so often and each earlier attempt threw, un-aborted, a retryable guest error whose code the policy lists and that is no deadline or cancellation, and its delay ran out |
| RetryTrace.EndingSays | wasm/runtime.ts:217-276 | the last attempt decides the ending: its answer, the abort, what it threw, or what cut its delay short |
| RetryTrace.TraceIs | wasm/runtime.ts:201-277 | the trace is what its attempts show, one after the other |
| RetryTrace.AttemptShows | wasm/runtime.ts:203-272 | an attempt shows its start, that it is queued, its success or its failure with the code of the abort or of what it threw, and the retry when there may be one |
| RetryTrace.BackoffGrows | wasm/runtime.ts:262-274 | delays never shrink, start at initialDelayMs and stay within maxDelayMs |
| RetryTrace.DelaysDouble | wasm/runtime.ts:262-274 | the first delay is initialDelayMs, each next one twice as long up to maxDelayMs, one after each attempt that is or would be retried |
| RetryTrace.AnswersAreFinal | wasm/codec.ts:74-122 | under the catalog an answered attempt is never retried: a second one needs a thrown guest error, from the factory, a native adapter or the close of a discarded instance |
| SessionModel.RunKeeps | encrypt/pkcs11/session.ts:204-330 | every reachable session state keeps the counting, queueing, exclusiveness and login invariants |
| SessionModel.NoLostWakeUp | encrypt/pkcs11/session.ts:224-285 | no woken caller aborted: a parked caller means wake-ups and closing releases under way cover the idle sessions and free slots |
| SessionModel.AbortLosesIff | encrypt/pkcs11/session.ts:243-244 | aborting a woken caller leaves a wake-up short exactly when somebody is parked and no other wake-up can be spared |
| SessionModel.NothingLostIff | encrypt/pkcs11/session.ts:224-285 | in every run, no moment is short of a wake-up exactly when each woken caller it aborted could be spared |
| SessionModel.LostWakeUpsBounded | encrypt/pkcs11/session.ts:243-244 | the shortfall is at most the number of woken callers that were aborted |
| SessionModel.AbortLosesWakeUp | encrypt/pkcs11/session.ts:243-244 | a run in which one abort leaves a caller parked although a slot is free |
| SessionModel.ParkedMeansFull | encrypt/pkcs11/session.ts:224-285 | with nothing on its way, a parked caller means every slot is leased or being opened |
| SessionModel.Accounting | encrypt/pkcs11/session.ts:204-286 | open = idle + leased + opening, within 0..size; no handle idle twice, idle and leased, or leased twice |
| SessionModel.ReleasesExactlyOnce | encrypt/pkcs11/session.ts:309-330 | withSession releases each session it acquired exactly once, and no other |
| SessionModel.OneTokenLogin | encrypt/pkcs11/session.ts:164-189 | at most one token login is in flight |
| SessionAnswers.WorksIff | encrypt/pkcs11/session.ts:319-323 | a caller starts its operation exactly when it was logged in when it asked, or the attempt it awaits succeeded |
| SessionAnswers.WorkedOnlyAdmitted | encrypt/pkcs11/session.ts:309-330 | in every run whoever works was admitted by the login, and whoever was not is let go without having worked |
| SessionAnswers.LoginAnswers | encrypt/pkcs11/session.ts:320-328 | after the attempt a caller works on its session, or releases it, closed if it is dead |
| SessionAnswers.FinishAnswers | encrypt/pkcs11/session.ts:321-328 | a finished operation releases the session; it is closed only for a failure that says it is dead |
| SessionAnswers.AuthenticateAnswers | encrypt/pkcs11/session.ts:164-189 | nothing when logged in, the attempt under way, or one new attempt |
| SessionAnswers.LoggedInIff | encrypt/pkcs11/session.ts:164-196 | the flag holds from a token login that succeeds until a dead session's reset or the end of a drain |
| SessionAnswers.LoginLasts | encrypt/pkcs11/session.ts:164-196 | in every run no other attempt is made in between |
| SessionAnswers.LoggedInOnlyBy | encrypt/pkcs11/session.ts:164-189 | no run is logged in before a token login succeeded in it |
| SessionAnswers.AttemptSteps | encrypt/pkcs11/session.ts:173-181 | an attempt asks for the PIN, then goes to the token, and ends as these do |
| SessionAnswers.TurnAnswers | encrypt/pkcs11/session.ts:226-243 | one turn gives the session returned last, else claims a slot, else parks at the end |
| SessionAnswers.OpenAnswers | encrypt/pkcs11/session.ts:232-241 | a claimed slot becomes the caller's session, or is given back and wakes the first waiter |
| SessionAnswers.DrainAnswers | encrypt/pkcs11/session.ts:259-276 | a drain takes the idle sessions; its end and the close of a dead session wake one waiter each |
| SessionPoolClass.SessionPool.TakeTurn | encrypt/pkcs11/session.ts:226-243 | one turn of the loop: last idle session, else a claimed slot, else a place in the queue |
| SessionPoolClass.SessionPool.WakeOne | encrypt/pkcs11/session.ts:283-285 | it restores the invariant of a pool that owes one wake-up: the longest waiting caller is woken, nobody else moves |
| SessionPoolClass.SessionPool.OpenRejected | encrypt/pkcs11/session.ts:237-241 | the claimed slot is given back and one waiter woken |
| SessionPoolClass.SessionPool.GiveBack | encrypt/pkcs11/session.ts:252-265 | a healthy session becomes idle and wakes one; a dead one frees its slot before the close |
| SessionPoolClass.SessionPool.DrainIdle | encrypt/pkcs11/session.ts:268-270 | the invariant is kept, none of the sessions to close is in use, and what stays counted is leased or being opened |
| WorkersModel.NothingLost | tools/workers/workers.ts:39-133 | started tasks then the queue are the added tasks in order, less those a reset dropped; active is the number of unsettled started tasks |
| WorkersModel.DropsOnlyByReset | tools/workers/workers.ts:110-115 | without a reset nothing is dropped |
| WorkersModel.ResetIsFinal | tools/workers/workers.ts:110-115 | a task queued when a reset comes is never started, in any later run |
| WorkersModel.NoIdleSlot | tools/workers/workers.ts:118-133 | running with a non-empty queue implies active >= slots |
| WorkersModel.OneAtATime | tools/workers/workers.ts:66-83 | in sequential mode a step starts at most one task, and only when none is in flight |
| WorkersModel.BoundedBetweenChanges | tools/workers/workers.ts:44-64 | between reconfigurations active never exceeds the larger of what was in flight and the slots, rounded up |
| WorkersModel.SlotsKeptIff | tools/workers/workers.ts:61-64 | every run without reconfiguration stays within its slots, whatever came before, exactly when their number is whole: a fractional one admits a task too many |
| WorkersAnswers.RoomIsUsed | tools/workers/workers.ts:118-133 | in every run a running loop leaves a task queued exactly when the limit, or in sequential mode another task, leaves no room, and starts one only into room |
| WorkersAnswers.SettingsAnswer | tools/workers/workers.ts:61-115 | when the loop runs, and with which limit and mode |
| WorkersAnswers.StartsAnswer | tools/workers/workers.ts:86-133 | nothing starts in a stopped loop, and only the settled task leaves those in flight |
| WorkersAnswers.SettlesAnswer | tools/workers/workers.ts:128-131 | a settled task is counted out once |
| WorkerLoop.Workers.PumpQueue | tools/workers/workers.ts:118-133 | the while loop ends in the state of the pump function |
| WorkerLoop.Workers.Add | tools/workers/workers.ts:39-42 | the new state is that of an add step |
| WorkerLoop.Workers.ChangeLimit | tools/workers/workers.ts:61-64 | the new state is that of a limit change, applied verbatim |
| WorkerLoop.Workers.ChangeMode | tools/workers/workers.ts:80-83 | the new state is that of a mode change |
| WorkerLoop.Workers.Launch | tools/workers/workers.ts:86-90 | the new state is that of a start; a running loop is left alone |
| WorkerLoop.Workers.Relaunch | tools/workers/workers.ts:98-101 | a restart pumps as a start does |
| WorkerLoop.Workers.Reset | tools/workers/workers.ts:110-115 | the invariant is kept: the whole queue is dropped, nothing is started, what is in flight stays counted, the defaults are back |
| WorkerLoop.Workers.Settled | tools/workers/workers.ts:128-131 | a settled task frees its slot and pumps if running |
| JobsModel.RunKeeps | tools/jobs/jobs.ts:71-229 | every reachable scheduler state keeps exclusive executions and one timer per armed job |
| JobsModel.NoOverlap | tools/jobs/jobs.ts:210-229 | an unsettled execution keeps its control running across ticks, timeouts, pause, resume and stop, so no two overlap |
| JobsModel.TimersMatchJobs | tools/jobs/jobs.ts:111-124 | the live interval timers are exactly those held by registered controls, one to one |
| JobsModel.DestroyClears | tools/jobs/jobs.ts:150-154 | destroying leaves no live timer and no job |
| JobsAnswers.StartTicks | tools/jobs/jobs.ts:111-115 | starting gives every registered job a live timer that ticks it, unless started already or in test mode |
| JobsAnswers.RestartTicks | tools/jobs/jobs.ts:75-82 | so does a restart; in test mode it leaves no timer |
| JobsAnswers.StartedTicks | tools/jobs/jobs.ts:71-210 | outside test mode, in every run: started means every registered job is ticked, not started means no timer is alive |
| JobsAnswers.RegisterAnswers | tools/jobs/jobs.ts:84-191 | a new id adds one job, ticked at once when started; a duplicate changes nothing |
| JobsAnswers.JobAnswers | tools/jobs/jobs.ts:118-139 | stop, pause and resume do so to their job and leave all others alone |
| JobsAnswers.TickRunsIff | tools/jobs/jobs.ts:210-213 | a tick begins an execution exactly when it is due and its job neither paused, stopped nor running |
| JobsAnswers.EndsIff | tools/jobs/jobs.ts:214-229 | an execution is over exactly when its work has settled and its race is decided |
| JobsClass.Jobs.ArmControl | tools/jobs/jobs.ts:193-196 | for a listed control the invariant is kept and a live timer ticks it afterwards; one that had a timer keeps it, no other control changes |
| JobsClass.Jobs.DisarmControl | tools/jobs/jobs.ts:198-203 | the invariant is kept, exactly its own timer is gone from the live ones, no other control changes |
| JobsClass.Jobs.StartAll | tools/jobs/jobs.ts:111-115 | the loop arms every job, unless started or in test mode |
| JobsClass.Jobs.StopAllTimers | tools/jobs/jobs.ts:205-208 | the loop disarms every job |
| JobsClass.Jobs.StopControl | tools/jobs/jobs.ts:118-122 | a stopped job is marked and disarmed |
| JobsClass.Jobs.DestroyAll | tools/jobs/jobs.ts:150-153 | the new state is that of a destroy step |
| JobsClass.Jobs.Tick | tools/jobs/jobs.ts:210-213 | an execution begins exactly when the job is neither paused, stopped nor running |
| JobsClass.Jobs.ExecutionEnded | tools/jobs/jobs.ts:226-227 | the invariant is kept, no execution of the control is left and it may begin again; other controls and all timers are untouched |
| FileSinkModel.Conservation | logger/sink/file.ts:104-131 | backups in rotation order then the active file hold the initial contents and every line; after a failure a prefix of that; currentSize is the active file's size |
| FileSinkModel.StaysOn | logger/sink/file.ts:104-131 | without failures the sink stays on |
| FileSinkModel.RotatedFilesFit | logger/sink/file.ts:110-123 | each rotated file fits maxSizeBytes, unless it is the initial contents or one oversize line |
| FileSinkModel.BackupsNeverCollide | logger/sink/file.ts:229-245 | backup times strictly increase whatever the clock does, and no earlier backup is overwritten |
| FileSinkModel.RotatesIff | logger/sink/file.ts:104-131 | in every run a write rotates exactly when the line would not fit behind what the active file holds, to the first free time from the clock on; otherwise the line is appended and no backup touched |
| FileSinkModel.FaultAnswers | logger/sink/file.ts:104-131 | any fault it meets turns the sink off; a failed rotation writes no line, a failed append a prefix of it |
| FileSinkClass.FileSink.NextBackupTime | logger/sink/file.ts:229-245 | the loop stops at the first free time after the last rotation |
| FileSinkClass.FileSink.RotateActive | logger/sink/file.ts:206-217 | the new file table is that of a rotation, for each way it can fail |
| FileSinkClass.FileSink.WriteLine | logger/sink/file.ts:104-131 | the new file table is that of a write step |
| JsonReads.ScannerRefinesTree | wasm/codec.ts:481-545 | for every value printed with any white space and escapes the scanner stops exactly behind it and accepts exactly when no object repeats a decoded key and no value lies under more than 32 containers |
| JsonReads.ValueReads | wasm/codec.ts:498-512 | the same at any position and depth inside a text: first complaint in document order, or the value's end |
| JsonReads.VerdictMeans | wasm/codec.ts:498-543 | the first complaint is absent exactly when depth and uniqueness hold |
| JsonText.RepeatsMeans | wasm/codec.ts:520-528 | a repeated key is two equal decoded keys at different places |
| JsonReads.LiteralScanned | wasm/codec.ts:486-497 | a string token ends at its closing quote and decodes to the text it stands for |
| JsonScannerClass.Scanner.Whitespace | wasm/codec.ts:483-485 | the index moves past white space only |
| JsonScannerClass.Scanner.ReadString | wasm/codec.ts:486-497 | the index moves behind the token, or the exception is that of the function |
| JsonScannerClass.Scanner.ReadValue | wasm/codec.ts:498-508 | index and exception are those of the function, on every text |
| JsonScannerClass.Scanner.ReadObject | wasm/codec.ts:509-516 | the same for an object |
| JsonScannerClass.Scanner.ReadMembers | wasm/codec.ts:517-530 | the same for the loop over its members, with its set of keys |
| JsonScannerClass.Scanner.ReadArray | wasm/codec.ts:531-543 | the same for an array |
| JsonScannerClass.AssertUniqueFields | wasm/codec.ts:481-545 | it terminates on every text, malformed ones included, with the function's verdict |
| JsonPrint.QuoteBack | wasm/codec.ts:205 | every string, lone surrogates included, is printed so that it reads back as itself |
| JsonPrint.StringifyParses | wasm/codec.ts:256-258 | a printed tree parses back to itself and passes the scanner exactly up to 32 containers |
| AbiResponses.CopyMeans | wasm/codec.ts:379-413 | copyAbiValue accepts exactly at most 32 containers without reserved keys, and copies |
| AbiResponses.SameBound | wasm/codec.ts:379-380 | on texts without repeated keys the scanner accepts exactly the nesting copyAbiValue accepts |
| AbiResponses.ParseSerialized | wasm/codec.ts:251-264 | reading a written response is validating its tree, within byte limit and depth |
| AbiResponses.SuccessRoundTrip | wasm/codec.ts:213-216 | a success comes back as made exactly when its result is at most 31 containers deep and its text within 1 MiB |
| AbiResponses.FailureRoundTrip | wasm/codec.ts:219-248 | every failure that can be made comes back as made |
| AbiResponses.OtherIdRefused | wasm/codec.ts:278-280 | a response for another request is refused |
| AbiResponses.RepeatsRefused | wasm/codec.ts:251-264 | a text in which any object repeats a key is refused |
| AbiResponses.ValidateEnvelope | wasm/codec.ts:267-285 | validation undoes the envelope, for each id and both outcomes |
| AbiResponses.ValidateErrorTree | wasm/codec.ts:287-313 | validation undoes the error object, for every code and field |
| AbiAnswers.ValidateIff | wasm/codec.ts:267-313 | a tree is accepted as a response exactly when it has that response's fields, no more and no less, in any order: version, id, and the catalog's message and retryability for its code |
| AbiAnswers.ParseResponseIff | wasm/codec.ts:251-264 | every JSON text, with any white space and escapes, is read exactly when it is within the limits, repeats no key, and its tree is such a response |
| AbiAnswers.CreateFailureIff | wasm/codec.ts:219-248 | a failure is made exactly from a lawful id and field and what the catalog says of its code |
| AbiAnswers.CreateSuccessIff | wasm/codec.ts:213-216 | a success is made exactly from a lawful id and a result copyAbiValue takes |
| AbiAnswers.Utf8LengthIs | wasm/codec.ts:251-254 | the byte limit counts the UTF-8 encoding of the text |
| AbiAnswers.LabelIff | wasm/codec.ts:427-437 | printable ASCII within the limit is a lawful id; a control character never is |
| AbiAnswers.TruthWrites | wasm/codec.ts:256-258 | truth values are written by their names |
| Base64.BinaryAccepts | wasm/native.ts:313-334 | binary accepts exactly the encodings of at most maxBytes bytes; the early length test turns none away |
| Base64.BinaryRejects | wasm/native.ts:318-331 | which of its two errors binary reports |
| Base64.GatesAgree | wasm/codec.ts:415-425 | the strict and the loose gate accept the same texts with the same bytes, exactly the encoder's image |
| Base64.PatternsAgree | wasm/codec.ts:31 | on lengths divisible by four both patterns accept the same texts |
| Base64.RoundTrip | wasm/codec.ts:125-150 | decoding an encoding gives the bytes; its length is encodedLength |
| Base64.Canonical | wasm/native.ts:329-330 | the re-encoding check accepts exactly the encoder's image |
| Der.WriteLength | encrypt/pkcs11/keys.ts:247-252 | the loop writes the length octets of the function |
| Der.WriteInteger | encrypt/pkcs11/keys.ts:274-282 | the loop writes the trimmed INTEGER of the function |
| Der.Read | encrypt/pkcs11/keys.ts:298-311 | the loop over the length octets reads what the function reads |
| Der.ReadRecovers | encrypt/pkcs11/keys.ts:254-311 | readElement recovers what tagged() wrote, wherever it stands, exactly for content below 2^31 bytes |
| Der.IntegerMeaning | encrypt/pkcs11/keys.ts:269-282 | the INTEGER has the magnitude's value and is minimal and not negative |
| Der.MinimalUnique | encrypt/pkcs11/keys.ts:269-282 | no other content octets are minimal with that value |
| TokenKeys.RsaRoundTrip | encrypt/pkcs11/keys.ts:124-136 | the SPKI decodes to the same modulus and exponent, exactly below 2^31 bytes |
| TokenKeys.RsaAccepts | encrypt/pkcs11/keys.ts:124-131 | a key is made exactly when both numbers are present and positive |
| TokenKeys.ExtractSpki | encrypt/pkcs11/keys.ts:321-351 | the walk with its loop ends with the function's result or error |
| TokenKeys.SpkiWithVersion | encrypt/pkcs11/keys.ts:321-351 | a certificate with its version yields its exact SubjectPublicKeyInfo |
| TokenKeys.SpkiWithoutVersion | encrypt/pkcs11/keys.ts:331-350 | without it, the subject is returned, or an error if that is no SEQUENCE |
| TokenKeys.SpkiExactlyWhen | encrypt/pkcs11/keys.ts:321-351 | the SPKI comes back exactly when the version is there or the subject equals it |
| TokenKeys.WrappedPoint | encrypt/pkcs11/keys.ts:190-197 | a wrapped point is unwrapped |
| TokenKeys.BarePoint | encrypt/pkcs11/keys.ts:190-206 | a bare point comes back unchanged exactly when its bytes do not also read as a wrapped one |
| TokenKeys.BareP256 | encrypt/pkcs11/keys.ts:190-206 | for a P-256 point: the three ambiguous beginnings, and no others |
| TokenKeys.PointSound | encrypt/pkcs11/keys.ts:190-206 | what comes back is a plausible point, the value itself or what it wraps |
| Utf8.RoundTrip | encrypt/pkcs11/uri.ts:18-19 | decoding encoded text gives it back, less a leading byte order mark |
| Utf8.EncodeCharMeans | encrypt/pkcs11/uri.ts:18-19 | the octets of a character are those of RFC 3629, section 3 |
| KeyUris.UnescapeAttribute | encrypt/pkcs11/uri.ts:124-146 | the loop decodes as the function does, malformed escapes refused |
| KeyUris.EscapeAttribute | encrypt/pkcs11/uri.ts:239-247 | the loop escapes as the function does |
| KeyUris.RejectPinAttributes | encrypt/pkcs11/uri.ts:102-113 | it refuses exactly the queries with a segment named pin-value or pin-source |
| KeyUris.ParseKeyUri | encrypt/pkcs11/uri.ts:152-203 | the loop over the attributes ends with the function's result or error |
| KeyUris.EscapeRoundTrip | encrypt/pkcs11/uri.ts:229-247 | percent escapes carry arbitrary bytes, in characters that neither split nor trim |
| KeyUris.ParseFormat | encrypt/pkcs11/uri.ts:209-216 | parsing a formatted URI gives exactly what survives, or the error, for every URI |
| KeyUris.RoundTrip | encrypt/pkcs11/uri.ts:152-216 | with a non-empty object or id and any id bytes it comes back unchanged exactly when no text starts with U+FEFF |
| KeyUris.Idempotent | encrypt/pkcs11/uri.ts:205-216 | format after parse is stable, exactly when no parsed text starts with U+FEFF |
| KeyUris.PinRefused | encrypt/pkcs11/uri.ts:102-113 | a query that names the PIN is refused, wherever it stands |
| KeyUriAnswers.ParseIff | encrypt/pkcs11/uri.ts:152-203 | a reference is taken exactly when its query names no PIN and its attributes are good and address a key; it means what the last attribute of each name says |
| KeyUriAnswers.AttributesIff | encrypt/pkcs11/uri.ts:168-196 | the same for any list of attributes, in any order, unknown names passed over |
| KeyUriAnswers.HexIff | encrypt/pkcs11/uri.ts:116-146 | the hexadecimal digits are sixteen, in either case |
| KeyUriAnswers.EscapeReads | encrypt/pkcs11/uri.ts:124-146 | an escape stands for its byte in either case |
| KeyUriAnswers.EscapeIff | encrypt/pkcs11/uri.ts:226-247 | a byte is written as its character exactly when it is a letter, a digit or one of sixteen marks, otherwise as an escape |
| KeyUriAnswers.PlainReads | encrypt/pkcs11/uri.ts:124-146 | any other character stands for its UTF-8 octets |
| KeyUriAnswers.TypeIff | encrypt/pkcs11/uri.ts:53-84 | the five types by name, and no others |
| KeyUriAnswers.EscapeRefused | encrypt/pkcs11/uri.ts:124-146 | a percent sign without two digits is refused anywhere |
| KeyUriAnswers.NotAUriIff | encrypt/pkcs11/uri.ts:152-160 | no key URI exactly without the scheme |
| SettingsTree.WriteRead | tools/utilities/values.ts:128-153 | a written path reads back the value |
| SettingsTree.WriteFrame | tools/utilities/values.ts:128-153 | every path that diverges from it reads as before |
| SettingsTree.MergeSettings | tools/utilities/values.ts:159-168 | the recursive loop computes the merge, in whatever order the entries come |
| SettingsTree.MergeAnswers | tools/utilities/values.ts:155-168 | a path is answered by the overlay from the first segment that is not record over record, otherwise by the earlier tree |
| SettingsTree.MergeRecords | tools/utilities/values.ts:155-168 | where both hold records, the merged record |
| Ini.ParseIni | tools/utilities/ini.ts:46-79 | the loop over the lines gives the entries' tree, or the first error with its line |
| Ini.SectionsAreDottedKeys | tools/utilities/ini.ts:35-45 | writing section headers into the keys as dotted prefixes gives the same entries |
| IniAnswers.HeaderLine | tools/utilities/ini.ts:86-97 | a line `[name]`, with or without a comment, puts the lines after it under the path of `name`; other text after it is an error of that line |
| IniAnswers.OpenHeaderLine | tools/utilities/ini.ts:86-89 | a bracket that is not closed is an error of that line |
| IniAnswers.PairLine | tools/utilities/ini.ts:62-76 | a line with an equals sign is an entry under the section in force: key before the first one, raw value after it |
| IniAnswers.BareLine | tools/utilities/ini.ts:62-65 | any other line without one is an error of that line |
| IniAnswers.IdleLine | tools/utilities/ini.ts:52-53 | blank lines and comments do nothing |
| IniAnswers.PlainKey | tools/utilities/values.ts:120-125 | a key without dots is one trimmed, lowered segment |
| IniAnswers.UnquotedIsTyped | tools/utilities/ini.ts:132-174 | a value without quotes around it is typed from what stands before its comment |
| IniAnswers.AppendsTo | tools/utilities/ini.ts:103-125 | the same key again appends, lists spread out |
| Ini.RepeatedKeys | tools/utilities/ini.ts:99-125 | for any entries, a key holds its values in order as one list, a single one as it is, exactly when they are undisturbed by lines for prefixes and extensions, or the loss does not show |
| Ini.RepeatedKeysInOrder | tools/utilities/ini.ts:99-125 | by the order of the lines alone when no value is an empty list or a list with records |
| Ini.LedThrough | tools/utilities/ini.ts:99-125 | for any entries, what a path holds, from the lines alone: the values since it was last broken, behind nothing or behind the record of the lines below it |
| Ini.BuildGrows | tools/utilities/ini.ts:84-125 | the whole tree that reading, appending and writing build line by line is the one the lines describe |
| Ini.ParseGrows | tools/utilities/ini.ts:46-79 | so parsing gives that tree, or the first error |
| Ini.LosesValue | tools/utilities/ini.ts:103-110 | a key and one below it lose a value, in either order |
| Ini.EntriesWritten | tools/utilities/ini.ts:46-79 | the entries of every file qualify: each has a key and a value that is no record |
| Ini.StripTrailingComment | tools/utilities/ini.ts:165-174 | the loop strips what the function strips |
| Ini.CommentStart | tools/utilities/ini.ts:161-174 | a comment starts at the first marker after a blank, and nowhere else |
| Ini.QuotedIsText | tools/utilities/ini.ts:145-159 | whatever stands between quotes is kept as text |
| Ini.DottedKey | tools/utilities/values.ts:120-125 | a dotted key is its parts' paths in order |

## Left out

- Network, SDK, crypto and foreign calls: KMS adapters, gRPC, fetch, telemetry, `encrypt/pkcs11/ffi.ts`, component loading, signatures and digests.
- RuntimeShutdown: the statement-by-statement body of invoke() between its awaits is on values; `health()`, the `#state` label and native-adapter calls are not in it.
- Runtime callbacks: a caller's own now() and requestId() are taken not to throw; what an observer throws is swallowed.
- Runtime timeouts: a caller's abort and a deadline are one event; the shutdown signal reaches the live calls in the order they were made.
- Session pool: a token never hands out a handle that is in use; the closes of a drain are one step with its wake-up and login reset; module and slot caches are not modelled.
- SessionModel.NoLostWakeUp: excludes runs in which a woken caller is aborted, because the source then may lose the wake-up; NothingLostIff says exactly when.
- Workers: a limit that is not a number or infinite; what a task does.
- Jobs: several instances and the global registry; cron matching is an event's choice.
- File sink: retention and pruning, compression, the tee, partial writes inside one append, permissions; backup names are taken to be injective in their time.
- JSON numbers stand for themselves: their normalisation, -0 and overflow to infinity are not modelled.
- JSON objects keep their fields in order of appearance; JavaScript moves integer-like keys first.
- Reference cycles, typed arrays and prototypes as input of copyAbiValue: a tree has none. Request envelopes and metadata: they add no harder check.
- Keys inherited from JavaScript's object prototype, in the type table of key URIs, the error catalog and settings trees.
- Key URIs: a lone surrogate in a reference behaves as U+FFFD and is not modelled apart; text fields are well-formed.
- EC curve names, ECDH and Ed25519 wrapping, and the Base64 around keys: calls of what is modelled.
- Ini: lower-casing and the typing of unquoted values are arbitrary functions; the carriage return before a line feed is white space that trimming removes.
- Settings: trees are values, so subtrees shared between merged trees are not modelled.
- TokenKeys.SpkiExactlyWhen: certificates below 2^31 bytes, the bound of the reader.
