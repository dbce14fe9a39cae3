# Remote command orchestrator: a verified model

`rco` runs a job, a list of steps, over SSH on many hosts at once. This project models the parts of it whose
correctness is hardest to see and proves what they promise. `dafny verify dfyconfig.toml` checks all of it.

| part | modules |
|---|---|
| a whole run | `WholeRun`: the scheduler, the host runs and the bastion pool together; `WholeRunEnds`: it can always return |
| the run scheduler | `Scheduler` (atomic steps), `SchedulerSafety` (invariants), `SchedulerTheorems`, `SchedulerWitness`, `Report`, `Limits`, `FailureLimit` |
| shared bastion connections | `BastionPool` (protocol), `BastionSafety`, `BastionPoolObject` (the object itself), `Dialing` |
| one host | `Network` (what may happen), `HostConnection`, `HostSteps`, `HostRun`, `HostTheorems`, `HostWitness` (runs that exist), `Backoff`, `JobRuns` |
| command output | `OutputBuffer`, `Judging` |
| host keys | `KnownHosts` |
| texts | `Template`, `Shell` (how a POSIX shell reads), `Quoting`, `Redactor`, `OneSecret` |
| jobs and inventories | `Jobs`, `Building`, `VariableSources`, `Inventory`, `Selection` |
| saved reports | `Rerun`, `RunReports` |
| shared | `Options`, `Domain`, `Counting`, `Extremes`, `Ordering`, `Text` |

How the model is made:

- Concurrency is a state machine. `Run`, the bastion pool and trust-on-first-use are sets of atomic actions (one per
  lock section, counter update, channel operation or connection event); a run is any sequence of enabled actions,
  so every interleaving is covered. Go's `select` is free to take either ready branch. Theorems are about every
  reachable state. `WholeRun` puts the machines together: host runs call the pool, and the pool is closed without a
  guard of its own, where `Run` defers it.
- One host is imperative: methods over a `Net` object whose dials, commands, clock and cancellation return arbitrary
  values within what the SSH layer can return. What the network did is a ghost trace, and each method's contract
  ties its result to that trace. The theorems of `HostTheorems` are about the relation those contracts establish, and
  `HostWitness` builds runs in it, from the first dial to the last event, where an exception has to be shown.
- Where the code does not do what it is for on all inputs, a theorem states for which it does, as an equivalence with a
  condition that can be checked beforehand, and a run or an input is given for the others.
- A loop over a Go map takes its entries with `:|`, in any order, and is proved against a description that has no order.
- Byte strings are `string`s, one `char` a byte. Durations are integers of nanoseconds; the 64-bit shift of the
  backoff wraps as it does in Go.

## Where the code differs from what it says, or surprises

The model follows the code. These are stated as members, with the exact condition where there is one.

1. A step that may lose its connection and uploads something first counts a connection lost during the *upload* as the
   expected loss, so it can be SUCCESS without its script ever having run (`internal/runner/runner.go:345`, `518-527`).
   In every run SUCCESS means submitted exactly for all other steps: `HostWitness.SuccessSubmitsIff`, with a whole run in
   `HostWitness.UnsentRun`, and in terms of the job `JobRuns.SuccessSubmitsIff`.
2. If the read of the boot ID before a reboot is cancelled, the step is FAILED while the host is CANCELLED
   (`internal/runner/runner.go:337`). `HostTheorems.StatusFitsCategory` says when, `HostWitness.ReportsCancellationIff`
   that it can happen exactly to rebooting steps.
3. `get` of the bastion pool returns the bare context error, so a cancelled wait for a bastion becomes INTERNAL_ERROR
   (`internal/sshx/bastion.go:53-54`, `internal/sshx/dial.go:171-173`, `207-209`). `Dialing.CancelledUnlessWaiting`
   is the exact condition for an attempt, `Dialing.CancellationReportedIff` for a configuration.
4. "At most conc host goroutines exist" (`internal/runner/runner.go:187`) is true of every run exactly if there are no more
   hosts than slots: `SchedulerWitness.GoroutinesBoundedIff`. A goroutine between `<-sem` and the end of `wg.Done` has
   given its slot back.
5. The redactor's marker can bring a secret back: "ACTED" survives in "[REDACTED]". `Redactor.CompleteIffOutsideMarker`
   gives the exact condition for secrets without brackets, `OneSecret.OneSecretIff` that for a single secret of any
   characters: it is part of the marker, or an end of the marker begins it, or what stands before a masked one can.
6. Variable names of the inventory are not checked (`internal/job/variables.go:86-88`). A line exported for `a=b` sets
   `a`, one for `a b` sets `b` (`Quoting.EqualsInName`, `Quoting.SpaceInName`); the script finds its variables exactly if
   all names are identifiers (`Quoting.ExportsReadBackIff`).
7. The backoff is documented to double up to its maximum; where the shift wraps into the valid range it does not
   (`Backoff.DoublesUpToMax`, `Backoff.WrapCanShrinkTheDelay`). A `--max-retry-delay` of -2 ns or less is accepted
   (`internal/cli/cli.go:133`) and makes the first pause panic: `Backoff.PanicsIffNegativeMaximum`.
8. An empty pattern counts as found as soon as any byte was written: `OutputBuffer.SeenMeansContains`.
9. A retry pause that is interrupted leaves the result of the attempt before it, so the step is FAILED and not
   CANCELLED (`internal/runner/runner.go:484-486`). `HostTheorems.CancelledByLastReply` says what is reported,
   `HostWitness.FailedInPauseIff` that it can happen exactly to steps with retries.
10. The destination of a sensitive copy step is part of the command line, which the step's mark is there to keep secrets
    out of (`internal/job/build.go:83-89`). The line depends on a sensitive value exactly if the destination refers to one:
    `Building.LineHoldsNoSecretIff`.
11. A percentage with decimals can come to one host too many: 1.1% of 3000 comes to 34 in floating point, where
    33 are that share (`Limits.FractionsRoundUp`). It does not unless the share is a whole number of hosts
    (`Limits.DecimalPercent`, for up to twelve decimals), nor for whole percentages (`Limits.WholePercentIsExact`). With
    more digits than a double holds a host can be lost too (`Limits.FractionsRoundDown`).
12. The pool itself does not keep `Close` from coming while a dial is in flight, after which a bastion can be dialed twice
    (`BastionSafety.EarlyCloseDialsTwice`). In a run it never comes then: `WholeRun.NothingDialingAtClose`.
13. A `max_failures` of "1e19" hosts passes every check, and its conversion to an integer (`internal/job/job.go:394`) makes
    it the least 64-bit integer on amd64: `Limits.HugeLimitTurnsNegative`. The limit is the number written, and a limit at
    all, exactly below 2^63 (`Limits.HostsLimitIff`, `Jobs.LimitHoldsForAnyRun`). No host is skipped for it, as none would be
    under a limit that high: `FailureLimit.HighLimitNeverSkips`.

## Model

| member | source | states |
|---|---|---|
| SchedulerTheorems.FailuresBounded | internal/runner/runner.go:161-209 | in every reachable state the report holds at most MaxFailures - 1 + max(1, Concurrency) FAILED hosts |
| SchedulerWitness.BoundReached | internal/runner/runner.go:161-209 | for every configuration with enough hosts some run reaches that number: the bound is exact |
| SchedulerTheorems.ConcurrencyBounded | internal/runner/runner.go:182-205 | started hosts that have not released their slot never outnumber the tokens taken, nor those the slots |
| SchedulerWitness.GoroutinesBoundedIff | internal/runner/runner.go:187 | goroutines never outnumber the slots in any run exactly if the hosts do not |
| SchedulerTheorems.SkipIsFinal | internal/runner/runner.go:192-196 | once a plan is skipped the limit has been reached and no later plan was or is started |
| SchedulerTheorems.SkipsAreASuffix | internal/runner/runner.go:185-196 | without cancellation every plan after a skipped one is skipped |
| SchedulerTheorems.RunsAreFinite | internal/runner/runner.go:185-208 | no interleaving has more than 14 steps per host and 5 more |
| SchedulerTheorems.NeverStuck | internal/runner/runner.go:185-208 | until `Run` returns some step other than a cancellation is enabled, given that host runs return |
| SchedulerTheorems.QuietAfterJoin | internal/runner/runner.go:180-206 | when the deferred pool Close runs, no slot is held and every host has been announced and its goroutine is over |
| SchedulerTheorems.ReportComplete | internal/runner/runner.go:159-177 | when `Run` returns each plan has one result, its own, and OnHostDone was called once for each |
| SchedulerTheorems.SummaryExact | internal/runner/report.go:92-111 | the four counts of the summary add up to the hosts, the failed count is the one the limit saw, and OK holds exactly if all succeeded |
| SchedulerSafety.InvKept | internal/runner/runner.go:161-209 | every atomic step keeps slots, counters, results, calls and the failure bound in agreement with the phases of all hosts |
| Report.Finish | internal/runner/report.go:92-109 | the counting loop computes the tally that the lemmas are about |
| Report.CountsAddUp | internal/runner/report.go:96-108 | every host is in exactly one count |
| Report.OkIffAllSucceeded | internal/runner/report.go:111 | OK exactly if every result is SUCCESS |
| Limits.PercentIsLeast | internal/job/job.go:381-395 | in exact arithmetic a percentage means the least positive number of hosts that is at least that share, never more than all |
| Limits.HostsLimitIff | internal/job/job.go:391-394 | a whole number of hosts is accepted whatever its size; the limit is that number, and at least 1, exactly if it is below 2^63 |
| Limits.HugeLimitTurnsNegative | internal/job/job.go:394 | "1e19" is accepted and becomes the least 64-bit integer |
| Limits.DecimalPercent | internal/job/job.go:385-390 | for every percentage of at most twelve decimals, read and computed in doubles with a rounding after each operation: the exact limit if that share of the hosts is no whole number, otherwise the exact one or one more |
| Limits.WholePercentIsExact | internal/job/job.go:389-390 | for a whole-number percentage the computation in doubles gives the exact limit |
| Limits.FractionsRoundUp | internal/job/job.go:389-390 | 1.1% of 3000 hosts comes to 34 in doubles and to 33 exactly |
| Limits.FractionsRoundDown | internal/job/job.go:385-390 | a percentage just above 1, with twenty decimals, of 100 hosts comes to 1 in doubles and to 2 exactly |
| Jobs.LimitHoldsForAnyRun | internal/job/job.go:245-249 | the limit of an accepted job is accepted for any number of hosts, although it was checked for one; it is at least 1 exactly unless it is a number of hosts of 2^63 or more |
| FailureLimit.HighLimitNeverSkips | internal/runner/runner.go:192 | a number of hosts not below that of the run never skips one, also where the conversion makes it negative |
| FailureLimit.WholeShareNeverSkips | internal/job/job.go:39-41 | with "100%" a finished run has no skipped host, however many failed |
| FailureLimit.FailuresWithinShare | internal/job/job.go:39-41 | with p percent, the failed hosts less one round of concurrent ones stay below p percent of all |
| FailureLimit.FailuresWithinComputedShare | internal/job/job.go:385-390 | and with the limit as doubles compute it, for at most twelve decimals: the same, but for one more host if p percent are a whole number of hosts |
| BastionSafety.InvKept | internal/sshx/bastion.go:29-96 | every atomic step of get, evict, broken or of a dying connection, and a Close that comes after all calls, keeps the invariant of map, entries and callers |
| BastionSafety.SingleFlight | internal/sshx/bastion.go:26-49 | per bastion at most one connection is being dialed or in service, and it is the one in the map |
| BastionSafety.MapHoldsConnections | internal/sshx/bastion.go:42-49 | a mapped entry whose latch is open never holds an error |
| BastionSafety.ResultShared | internal/sshx/bastion.go:50-53 | callers that return through one latch get the same outcome, that of its dial |
| BastionSafety.DialedOnce | internal/sshx/bastion.go:41-49 | an entry's dial is ended only by its own caller and never starts again; an open connection can only close |
| BastionSafety.OneDialPerLoss | internal/sshx/bastion.go:26-39 | over any stretch of any run, the dials to a bastion are those of the entries that left the map and the one in it: callers that find an entry cost none |
| BastionSafety.DialsOfARun | internal/sshx/bastion.go:26-28 | a whole run dials a bastion at most once more than its connection is lost, however many hosts ask |
| BastionSafety.StaleCallersSpareNewer | internal/sshx/bastion.go:58-79 | an entry leaves the map only by its own failed dial, its own watcher, a broken call on its own connection, or Close |
| WholeRun.NothingDialingAtClose | internal/runner/runner.go:180-206 | in every run, when the deferred Close executes, every call of the pool has returned and no entry is dialing: a consequence of wg.Wait, not a guard |
| WholeRun.BastionsClosed | internal/runner/runner.go:180-206 | when Run returns, every bastion connection it ever made is closed |
| WholeRun.TargetsClosed | internal/runner/runner.go:249-316 | and every target connection: each host's trace owns one at a time, uses and closes only the one it owns, and hangs up all it dialed |
| WholeRun.ResultsAreHostRuns | internal/runner/runner.go:159-209 | each result in the report is the status of a run of that plan's steps with that trace, or of a host never started |
| WholeRun.NoneCancelledUnlessTheRunIs | internal/runner/runner.go:159-209 | a run that was never cancelled reports no host as CANCELLED |
| WholeRunEnds.RunCanReturn | internal/runner/runner.go:159-209 | from every reachable state of the combined run, calls in progress and hosts in mid-step included, some continuation leads to the return of `Run` |
| HostWitness.AllDone | internal/runner/runner.go:249-316 | for any list of steps some host run ends with SUCCESS |
| WholeRun.PartsAreReachable | internal/runner/runner.go:161-209 | in the combined run, scheduler and pool only reach states their own theorems are about |
| WholeRun.InvKept | internal/runner/runner.go:161-209 | every step of the combined run keeps: a call that has not returned belongs to a running host, and traces fit phases |
| BastionSafety.EarlyCloseDialsTwice | internal/sshx/bastion.go:82-96 | without that order, a Close in mid-dial leads to two dials of one bastion at once |
| BastionSafety.NobodyStranded | internal/sshx/bastion.go:50-55 | as long as a caller is not done, some caller can step without giving up |
| BastionPoolObject.Pool.Lookup | internal/sshx/bastion.go:30-39 | carries an object that stands for a protocol state to one that stands for the state after the caller's step, and returns the entry that caller is then on |
| BastionPoolObject.Pool.SetResult | internal/sshx/bastion.go:41-42 | likewise for the end of the dial: the entry shows a connection exactly if there is one |
| BastionPoolObject.Pool.OpenLatch | internal/sshx/bastion.go:48 | likewise for the opening of the latch |
| BastionPoolObject.Pool.Evict | internal/sshx/bastion.go:58-64 | likewise for the eviction after a failed dial and by the watcher of a closed connection |
| BastionPoolObject.Pool.Broken | internal/sshx/bastion.go:66-79 | likewise for the two steps of broken, comparing connections where the protocol compares entries; a refused tunnel leaves the state |
| BastionPoolObject.Pool.Close | internal/sshx/bastion.go:81-96 | likewise for Close, one entry at a time in any order |
| Dialing.Wire.Dial | internal/sshx/dial.go:159-196 | for every course of the legs: a client owns exactly what the attempt opened for itself, all of it past its handshake; without one nothing of it stays open and the category is that of the failed leg; only a shared bastion connection that did not merely refuse is reported broken |
| Dialing.CancelledUnlessWaiting | internal/sshx/bastion.go:50-55 | a cancelled attempt reports CANCELLED exactly unless it ended in the pool's wait, which reports INTERNAL_ERROR |
| Dialing.CancellationReportedIff | internal/sshx/dial.go:164-173 | all cancelled attempts report CANCELLED exactly in configurations without a shared bastion |
| Dialing.Wire.DialHop | internal/sshx/dial.go:199-205 | a failed hop leaves no connection open |
| Dialing.Wire.CloseClient | internal/sshx/dial.go:150-156 | closes the connection and the owned bastion connection, nothing else |
| HostConnection.Connect | internal/runner/runner.go:443-459 | for any settings: between 1 and max(0, ConnectRetries) + 1 dials, each but the last failing in a retryable way, pauses within retries times the longest pause, the last dial's category or a cancellation, at most one connection left; a panic only at the first pause under a negative maximum |
| Backoff.Delay | internal/runner/runner.go:575-581 | for all 64-bit settings: a panic exactly if the maximum is -2 ns or less, otherwise a delay within [0, maxDelay] and between half the ceiling and the ceiling |
| Backoff.PanicsIffNegativeMaximum | internal/runner/runner.go:580 | the random range is positive exactly if the ceiling is -1 or more, exactly if the maximum is |
| Backoff.NegativeMaximumPanics | internal/runner/runner.go:580 | settings for which it is not |
| Backoff.DoublesUpToMax | internal/runner/runner.go:575-579 | the ceiling is min(base * 2^(attempt-1), maxDelay) exactly if the shift does not wrap into the valid range |
| Backoff.WrapCanShrinkTheDelay | internal/runner/runner.go:575-579 | settings for which it does wrap, to 4 ns |
| HostConnection.ReadBootId | internal/runner/runner.go:421-431 | without a failure the ID is not empty and is what the host printed on this connection |
| HostConnection.Attempt | internal/runner/runner.go:392-417 | one round: the events of each way it can end, at most one connection kept, over within 30 s of the deadline |
| HostConnection.WaitForHost | internal/runner/runner.go:375-419 | dials times delay fit in the timeout; returns by timeout + 30 s + delay; ends at the first auth or host-key failure; success shows another boot ID when one was asked for; of the two timeouts "not rebooted" exactly when the old ID was seen |
| HostSteps.TryStep | internal/runner/runner.go:517-540 | the command runs exactly once, or not at all if its upload failed, within two timeouts, and the verdict is that of the last reply |
| HostSteps.RunStep | internal/runner/runner.go:477-507 | between 1 and Retries + 1 attempts, repeated only after COMMAND_FAILED or COMMAND_TIMEOUT, stopped early only by cancellation; the result reports the last one |
| HostSteps.RunDisconnecting | internal/runner/runner.go:326-373 | boot ID first, then the attempts, then reconnecting if the connection went or a reboot is due; which connection goes on, the failure of each branch and the category of each; CANCELLED only if the run was; all within the sum of its timeouts |
| HostSteps.RunFireAndForget | internal/runner/runner.go:295-303 | a command cut off while starting is forgiven, nothing else is |
| HostRun.RunHost | internal/runner/runner.go:249-316 | the host ends with no connection and never used one it did not own; the trace is connecting, the test for sudo, the steps, then hanging up, related to the result; CANCELLED only if the run was |
| HostRun.NeedsSudoPassword | internal/runner/runner.go:464-475 | sudo is tested at most once, over the connection held, and only with a password and a step to use it for; the password is needed exactly if that test did not end with exit code 0 |
| HostRun.RunSteps | internal/runner/runner.go:284-315 | steps run up to the first failure that stops, on the connection the step before left, and are skipped after it; the first failure decides |
| HostRun.SkipAll | internal/runner/runner.go:267-274 | without a connection every step is skipped and the host's category is that of the last dial, or CANCELLED if the pause after it was cut short |
| HostTheorems.OneResultPerStep | internal/runner/runner.go:285-307 | one result per action, in order |
| HostTheorems.SuccessMeansAllSucceeded | internal/runner/runner.go:249-316 | SUCCESS exactly if every step is SUCCESS, for a non-empty list |
| HostTheorems.FirstFailureReported | internal/runner/runner.go:253-261 | category and failed step are those of the first step that failed, all before it succeeded; without a connection the category is that of the last dial or a cancellation in the pause after it |
| HostTheorems.FailureStops | internal/runner/runner.go:308-313 | cancellation and SESSION_FAILED stop even with continue_on_error; everything after is skipped |
| HostTheorems.SkipsFollowAFailure | internal/runner/runner.go:285-313 | skipped steps are a suffix and follow a failure |
| HostTheorems.SubmittedPerAttempt | internal/runner/runner.go:477-507 | over the whole host run, reconnects included, a command is submitted at most once per reported attempt, never for a skipped step |
| HostTheorems.SubmittedAtMostOnce | internal/runner/runner.go:331-373 | a step without retries is submitted at most once |
| HostTheorems.PlainSuccessIsEarned | internal/runner/runner.go:543-568 | SUCCESS of a plain step means its own command ended with the expected code and a reply that meets its conditions |
| Judging.PlainSuccessPrinted | internal/runner/runner.go:534-568 | and, in terms of the complete outputs, that it printed all it had to and nothing it must not |
| Judging.Observe | internal/sshx/exec.go:113-126 | running the output through the two buffers and check yields a reply judged as the complete outputs deserve, for every chunking, and its text is what the buffer kept without the trailing newlines |
| HostWitness.SuccessSubmitsIff | internal/runner/runner.go:345-351 | for any steps and any of them: SUCCESS means submitted in every run exactly if the step uploads nothing or is not meant to lose its connection |
| HostWitness.UnsentRun | internal/runner/runner.go:518-527 | a whole run of any such list in which the step, rebooting or not, is SUCCESS and its command never submitted |
| HostTheorems.StatusFitsCategory | internal/runner/runner.go:336-337 | a step's status is that of its category exactly unless its boot-ID read was cancelled |
| HostWitness.ReportsCancellationIff | internal/runner/runner.go:159-160 | a cancelled step is reported CANCELLED in every run exactly if it does not reboot |
| HostTheorems.CancelledByLastReply | internal/runner/runner.go:481-504 | a step that keeps its connection is CANCELLED exactly if its last command was, so never for an interrupted pause |
| HostWitness.FailedInPauseIff | internal/runner/runner.go:482-487 | a run exists in which a step is cut short in a pause and FAILED exactly if it has retries |
| HostTheorems.HostCancelledIff | internal/runner/runner.go:253-261 | a host is CANCELLED exactly if its category is |
| HostTheorems.RebootVerified | internal/runner/runner.go:331-373 | after a SUCCESS reboot the next step's connection is new and has told a boot ID other than the one read before |
| HostTheorems.ConnectionStays | internal/runner/runner.go:292-306 | only a step that may disconnect changes the connection |
| HostTheorems.LaterStepsOnNewBoot | internal/runner/runner.go:331-340 | every later attempt, up to the next disconnecting step, is made on that connection |
| JobRuns.FragileRunsOnce | internal/job/build.go:142-144 | for every validated job, whatever defaults.retries says, a reboot, disconnect or fire_and_forget command is submitted at most once per host run, any other at most eleven times |
| JobRuns.RebootStepVerified | internal/job/build.go:126-127 | SUCCESS of a step marked reboot in a validated job implies the new boot |
| JobRuns.SuccessSubmitsIff | internal/runner/runner.go:517-540 | of a validated job: exactly unless the step is reboot or disconnect and a script or sensitive |
| JobRuns.ReportsCancellationIff | internal/runner/runner.go:336-337 | of a validated job: exactly unless the step is reboot |
| JobRuns.FailedInPauseIff | internal/job/build.go:139-144 | of a validated job: exactly the steps with effective retries |
| JobRuns.JobSucceeded | internal/runner/runner.go:249-316 | a host succeeds exactly if every step of the validated job does |
| JobRuns.BuiltActions | internal/job/build.go:105-115 | what Build returns for a validated job meets the premise of these |
| OutputBuffer.Buffer.Write | internal/sshx/buffer.go:38-58 | after any sequence of writes, retained bytes, found flags and carry agree with the whole stream, within 1.5 times the limit, with re-copied bytes at most those written |
| OutputBuffer.Buffer.Scan | internal/sshx/buffer.go:60-71 | a pattern is marked exactly if it occurs in the stream so far, also across writes |
| OutputBuffer.CarrySuffices | internal/sshx/buffer.go:60-71 | the last longest-minus-one bytes are all a match across writes can need |
| OutputBuffer.Buffer.Found | internal/sshx/buffer.go:74 | Found(i) exactly if pattern i occurs in the whole stream |
| OutputBuffer.Buffer.String | internal/sshx/buffer.go:83-90 | the text kept depends on the stream only, not on its chunks |
| OutputBuffer.Buffer.constructor | internal/sshx/buffer.go:30-36 | a new buffer agrees with the empty stream |
| OutputBuffer.Buffer.Overlap | internal/sshx/buffer.go:32-34 | no pattern is longer than the carry plus one, and the carry is no longer than that needs |
| OutputBuffer.DroppedMiddle | internal/sshx/buffer.go:83-90 | beyond the limit the two kept halves do not overlap and the note counts exactly the bytes between them |
| OutputBuffer.Collect | internal/sshx/buffer.go:38-90 | for every chunking, text, flags, truncation and total are those of the concatenation |
| OutputBuffer.SeenMeansContains | internal/sshx/buffer.go:61-63 | found means occurs for every pattern but the empty one on an empty stream |
| OutputBuffer.FoundInEither | internal/sshx/exec.go:38-40 | found in stdout or in stderr as wholes |
| OutputBuffer.Check | internal/runner/runner.go:542-568 | the verdict is the one the complete outputs deserve, though their middle was dropped, and names the first condition that fails |
| KnownHosts.InvKept | internal/sshx/dial.go:58-124 | every step of concurrent handshakes with possibly stale callbacks keeps the file and the sessions in agreement |
| KnownHosts.AppendOnly | internal/sshx/dial.go:97-124 | the file only grows, and not at all without AcceptNew |
| KnownHosts.KnownHostsGainNoKey | internal/sshx/dial.go:106-109 | a host with an entry never gains another |
| KnownHosts.OneKeyPerNewHost | internal/sshx/dial.go:97-124 | at most one key is ever added per unknown host |
| KnownHosts.SameKeyForAll | internal/sshx/dial.go:82-124 | all connections accepted for it presented that key |
| KnownHosts.KnownHostNeedsItsKey | internal/sshx/dial.go:87-93 | a known host is accepted only with a key known before |
| KnownHosts.HostKeys.Add | internal/sshx/dial.go:97-124 | the method does to file and cache what the protocol's step does |
| KnownHosts.StaleReadingsAreSafe | internal/sshx/dial.go:57-80 | a cached reading behind the file gives the verdict of the file as it is, or finds the host unknown, which is decided afresh |
| Template.ScansAgree | internal/job/variables.go:13-33 | the two scans agree in number and place exactly if a one-pass grammar accepts the text, and then give its names |
| Template.ParseCoversText | internal/job/variables.go:13 | the pieces of the grammar put together are the text |
| Template.References | internal/job/variables.go:18-34 | accepts exactly the texts of the grammar and returns their names in order |
| Template.SubstituteFills | internal/job/variables.go:41-48 | the substitution yields the literals interleaved with the values, or exactly the missing names |
| Template.Render | internal/job/variables.go:36-53 | the three outcomes and when each occurs |
| Template.ValueVerbatim | internal/job/variables.go:41-48 | a value that looks like a template is copied as it is |
| Quoting.FeedQuote | internal/job/build.go:214-215 | read by the POSIX rules in any word context, a quoted text adds exactly its characters to the word |
| Quoting.QuoteIsOneWord | internal/job/build.go:214-215 | a quoted text on its own reads as exactly one word, itself |
| Quoting.SudoLineRead | internal/job/build.go:61-96 | a sudo line delivers the inner command unchanged as the argument of sh -c, for every kind of step, with the cleanup after it |
| Quoting.FileCommandRead | internal/job/build.go:77-81 | the inner command of an uploaded script names the interpreter and the temp path, whatever the path holds |
| Quoting.FileLineRead | internal/job/build.go:77-96 | and so does the whole line without sudo, with the cleanup naming the same path |
| Quoting.ExportReadBackIff | internal/job/build.go:201-213 | an export line sets its variable to its value, and nothing else, exactly if the name is an identifier |
| Quoting.ExportsReadBackIff | internal/job/build.go:201-213 | all lines set exactly the variables of the map exactly if all its names are |
| Quoting.OnlyIdentifiersAreSet | internal/job/build.go:201-213 | whatever a text of export lines sets has an identifier for its name |
| Quoting.Exports | internal/job/build.go:201-213 | whatever order the map yields, the text is the sorted lines and reads back to the same map exactly if all names are identifiers |
| Quoting.EqualsInName | internal/job/variables.go:86-88 | an unchecked name `a=b` sets another variable |
| Quoting.SpaceInName | internal/job/variables.go:86-88 | and so does `a b` |
| Quoting.CopyLineTells | internal/job/build.go:83-90 | the line of a copy step determines its destination |
| VariableSources.ScriptFindsItsVariables | internal/job/build.go:167-170 | a script finds exactly its host's variables exactly if the undeclared ones are identifiers, as declared ones always are |
| Redactor.Redactor.Add | internal/credentials/credentials.go:120-132 | the list stays longest-first, free of duplicates and of short values, and gains exactly the new ones |
| Redactor.Redactor.String | internal/credentials/credentials.go:134-142 | applies the passes that the lemmas are about |
| Redactor.NoSecretSurvives | internal/credentials/credentials.go:135-142 | no registered secret is in the result for any text, if none can overlap the marker |
| Redactor.Idempotent | internal/credentials/credentials.go:135-142 | redacting twice is redacting once, under the same condition |
| Redactor.SecretBecomesMarker | internal/credentials/credentials.go:130-131 | longest first, a text that is a secret becomes the bare marker |
| Redactor.CompleteIffOutsideMarker | internal/credentials/credentials.go:114 | for secrets without brackets, masking is complete exactly if none is part of the marker |
| OneSecret.OneSecretIff | internal/credentials/credentials.go:135-142 | for any single secret, brackets or not: it is kept out of every text exactly unless the marker brings it back, which depends on the overlaps of the secret with the marker and itself alone |
| OneSecret.BroughtBack | internal/credentials/credentials.go:135-142 | for every secret that it does, a text that shows it |
| OneSecret.MeetingIsNotEnough | internal/credentials/credentials.go:114 | `[a[` meets the marker and still never survives |
| Redactor.MarkerSecretsSurvive | internal/credentials/credentials.go:135-142 | a secret that is part of the marker is brought back |
| Redactor.PasswordActedSurvives | internal/credentials/credentials.go:139 | a concrete one |
| Jobs.Check | internal/job/job.go:239-358 | a job is accepted exactly if it meets all the rules |
| Jobs.CheckSteps | internal/job/job.go:274-356 | step names are distinct and every step is sound, position included |
| Jobs.CheckRefs | internal/job/job.go:360-379 | a text is accepted exactly if all its references are declared and sensitive ones are allowed there |
| Building.Precedence | internal/job/build.go:117-144 | a step's own setting holds under any defaults and command line, a job's default under any command line; fragile steps are not retried under any |
| Building.OptionsAreSafe | internal/job/job.go:308-325 | of a validated job: retries 0 to 10 and 0 for fragile steps, a bounded positive reconnect timeout, fire_and_forget last and without upload |
| Building.Build | internal/job/build.go:104-115 | one concrete step per step, each meeting its description, or a template error exactly if some step does not render |
| Building.BuildStep | internal/job/build.go:117-199 | what one step becomes, and when it cannot be built |
| Building.MissingVariablesOnly | internal/job/build.go:117-199 | of a validated job a step can be built exactly if every variable it refers to has a value |
| Building.PlainStepsHoldNoSecret | internal/job/job.go:360-363 | what is sent, shown and looked for in a step not marked sensitive does not depend on sensitive variables |
| Building.DisplayHoldsNoSecret | internal/job/build.go:190-191 | what reports show of any step does not depend on them |
| Building.LineHoldsNoSecretIff | internal/job/build.go:190-197 | the command line of a step is the same for all values of sensitive variables exactly unless it is a copy whose destination refers to one |
| Building.DestinationTells | internal/job/build.go:83-90 | values that tell the lines of such a step apart |
| VariableSources.Resolve | internal/job/variables.go:75-124 | accepted exactly if every rule holds; the values follow the precedence and the secrets are exactly the environment's and the sensitive ones, in any map order |
| VariableSources.SensitiveFromEnvironment | internal/job/variables.go:106-117 | a sensitive variable's value came from the environment and is redacted |
| VariableSources.RequiredMeansBuilt | internal/job/variables.go:111-113 | a step whose variables are required or have defaults can be built from any accepted inputs |
| Inventory.MergeVariables | internal/inventory/inventory.go:243-253 | later maps override, every value is checked even if overridden |
| Inventory.Deduplicate | internal/inventory/inventory.go:254-260 | each tag once, in order of first occurrence |
| Inventory.FirstOccurrencesUnique | internal/inventory/inventory.go:254-260 | that order leaves no choice |
| Inventory.Resolve | internal/inventory/inventory.go:232-285 | resolves exactly the hosts that can be, to a target meeting its description |
| Inventory.ResolvesToOne | internal/inventory/inventory.go:232-285 | a host resolves to one target only |
| Selection.AddHost | internal/inventory/inventory.go:159-176 | one more host, in any order, keeps names, errors and targets in agreement with the set of hosts seen |
| Selection.Select | internal/inventory/inventory.go:154-206 | succeeds exactly on a sound inventory and a selector naming what exists, whatever the map order, with the selected targets ascending by name |
| Inventory.SelectionUnique | internal/inventory/inventory.go:154-206 | only one list meets that description |
| Selection.Filter | internal/inventory/inventory.go:199-205 | sorts by name and keeps exactly the targets selected |
| Selection.MergeInto | internal/inventory/inventory.go:119-130 | merging two files succeeds exactly if no name is in both |
| Rerun.JsonlStream.Put | internal/cli/reports.go:43-53 | the first error stays, and without one no line is missing |
| Rerun.JsonlStream.Close | internal/cli/reports.go:55-70 | no error means the file holds every line and then the totals |
| Rerun.StreamReadsBack | internal/cli/reports.go:96-113 | the lines of a report give back its results |
| Rerun.OnlyFailed | internal/cli/reports.go:120-131 | the loops keep the targets, in order, that the report lists with another status than SUCCESS |
| Rerun.OnlyFailedOfStream | internal/cli/reports.go:96-131 | from the lines of a .jsonl file to the targets of the rerun: those its host lines list with another status than SUCCESS |
| Rerun.ReportOrderIrrelevant | internal/cli/reports.go:122-131 | with unique hosts the choice does not depend on the order of the report |
| Rerun.RetriedUntilSuccess | internal/cli/reports.go:78-134 | along any chain of reruns a target is in a run exactly if it failed in all runs before |
| Rerun.SucceededIsLeftAlone | internal/cli/reports.go:78-134 | a host that succeeded is in no later run |
| Rerun.RerunNarrows | internal/cli/reports.go:78-134 | a rerun has the targets of the run before in order, less those that succeeded |
| RunReports.AnnouncementsAreResults | internal/runner/runner.go:168-177 | the lines streamed in the course of a run are the final results, in the order of the calls |
| RunReports.StreamAndReportAgree | internal/cli/reports.go:78-134 | the .jsonl of a finished run and its final list lead to the same rerun, for every completion order |
| RunReports.FinishedRunReports | internal/runner/runner.go:159-208 | a finished run reports on its targets as the chain of reruns assumes |
| RunReports.KilledRunRerun | internal/cli/reports.go:19-20 | the stream of a run killed at any point leads to a rerun of exactly the hosts announced by then that did not succeed |

## Left out

- Redactor.CompleteIffOutsideMarker: exact for lists of secrets without brackets, and OneSecret.OneSecretIff for any single secret; for several with brackets among them, what one secret's marker makes with another is only bounded from one side (NoSecretSurvives).
- Limits.PercentIsLeast: exact arithmetic; what doubles make of it is in DecimalPercent and WholePercentIsExact, for products of digits and hosts up to 2^50. Splitting off the digits of the text, NaN and infinities are not modelled.
- Limits.HostsLimitIff: the conversion of amd64; Go leaves it to the platform, and arm64 stops at the greatest integer instead.
- Jobs.Check: whether a regular expression compiles is an input.
- HostConnection.WaitForHost: an idealised clock, in which a step of the program takes no time by itself and a dial ends by its deadline.
- HostSteps.TryStep: the content of the upload and the sudo password on stdin are not modelled.
- HostRun.RunHost: a failure is a category without its text; notes and durations are left out. A dial fails as CANCELLED only if the run was cancelled.
- Quoting.SudoLineRead: reads the outer line; the inner copy command uses double quotes and `$(...)`, which the shell model does not read. NUL bytes are not excluded because the model gives them no meaning.
- KnownHosts.HostKeys.Load: the file is a sequence of host and key; hashed names, patterns, several key types, other writers and partial writes are not modelled, nor is the mode that skips the check.
- Rerun.JsonlStream.Put: a write that fails is taken to have written nothing.
- Dialing.Wire.Dial: timers that close a connection during the handshake are part of its outcome; that library errors are classified as CANCELLED only for a cancelled context is assumed.
- OutputBuffer.Check: the verdict of `expect.regex`, judged on the truncated text, is an input.
- BastionPoolObject.Pool.Lookup: the waiting between the locked sections is in module BastionPool.
- Selection.MergeInto: the partly filled destination after a failure; merging the host lists and the single `defaults` of several files.
- WholeRun.ResultsAreHostRuns: a host run that panics (Backoff) ends the process and is no part of the combined run; which of a host's dials go through the pool is left open.
- Quoting.ExportsReadBackIff: variables that the shell itself keeps read-only.
- SSH transport, key parsing, DNS, TCP and the classification of library errors: arbitrary outcomes.
- Reading files, YAML and JSON, hashes, flags, previews, logging and progress.
- What remote commands do, and the shell grammar beyond quoting.
