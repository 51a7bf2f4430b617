# Verification of Excubitor's cores

Excubitor supervises services on one machine: it tails their logs, answers control requests on a
local socket, keeps its own backend process alive, filters DNS, and watches for intrusions. This
project models the stateful and algorithmic cores of that system and proves what they are for.

| Module | What it models |
|---|---|
| `LineSplit`, `ProcessLogTail`, `LogTailExact`, `LogTailCuts`, `LogTailRecovery`, `LogTailReplay`, `LogTailRestart`, `LogTailOnce` | The byte-level tail of a growing log file: chunked reads, a bounded pending buffer, discarding of oversized lines, publish failures, persisted offsets and restarts, against splitting the whole file on newlines |
| `StateStore`, `Supervisor`, `SupervisorSafety`, `SupervisorReuse`, `SupervisorCommit`, `SupervisorReplies`, `SupervisorProgress`, `LocalControl` | Idempotent control operations with execute, prepare and commit, the bounded durable log, late reply callbacks, failed writes and restarts, as a transition system over the stretches between two awaits |
| `Backend`, `BackendSafety`, `BackendRuns`, `BackendProgress`, `BackendController` | Launch, adoption, recovery and termination of the backend process, with process deaths, status writes that fail, and supervisor crashes at any moment |
| `TargetQueue` | The promise tails that run the operations of one target one after the other |
| `Bits`, `Bytes`, `Text`, `AddressText`, `DnsMessage`, `TestPackets`, `DnsRoundTrip`, `DnsRefusals` | DNS wire format (sections 3.1 and 4.1.1 to 4.1.4 of RFC 1035), IPv4 and IPv6 text (section 4.2 of RFC 5952), and the packet encoder |
| `Utf16`, `JsonText`, `Framing`, `JsonBounds` | UTF-8 and JSON text (section 3 of RFC 3629, section 7 of RFC 8259), newline framing, DNS-over-TCP framing (section 4.2.2 of RFC 1035), and the truncation that keeps a response inside one frame |
| `NewestRows` | The bounded heap of the newest rows and the merge of two stores |
| `Rings`, `QueryLog` | The rings of recent lines and queries, as suffixes of one history |
| `LaunchOrder` | Dependency expansion, start and stop order |
| `Monitor`, `MonitorProgress`, `Routes`, `NonceCache` | The intrusion latch, the ingress migration plan against its verifier, and the replay cache |

Classes carry the fields of the program's objects. Each method keeps the class invariant, is proved
against a function on values (`View() == Step(old(View()), …)`), and promises what that means for its
caller; the theorems are about those functions over every sequence of events. Promises are explicit:
whatever a pending write, delivery, probe or termination answers, and in whatever order the code
allows, is an event.

## What turned out not to hold

Each of these is a proved lemma with a run of the model, and the exact condition under which the
promise does hold.

- An operation id can run more often than it was accepted: when its record was evicted and the id is
  reused for a direct execution while a reply callback of its former life is outstanding, because the
  callback checks only that a record is accepted, not how it was dispatched. This needs no particular
  size of the log (`SupervisorReuse.ReuseAfterEvictionRunsTooOften`). An id dispatched only in certain
  modes runs at most once per acceptance if and only if these are not all three
  (`SupervisorReuse.BoundedUnlessAllModes`), and any id does while its record is retained
  (`SupervisorSafety.RetainedRunsAtMostOnce`).
- A prepared operation can run without a commit of its own: after its record was evicted and it was
  prepared again, a reply callback left over from its former life runs it
  (`SupervisorCommit.SecondPreparationRunsUnasked`). While it waits, it can run unasked if and only if such
  a callback is outstanding (`SupervisorCommit.RunsUnaskedIffCallback`); a retained one runs only after a
  commit (`SupervisorCommit.RetainedRunsAfterCommit`).
- A restart of the log tail in the middle of a discarded line publishes the end of that line
  (`LogTailRestart.RestartWhileDiscardingPublishesAFragment`). A start publishes exactly the lines that
  begin there or later if and only if it is at a line start, or what is left of the line there is empty
  or over the limit (`LogTailRestart.RestartPublishesWholeLinesIff`).
- What is published is not always the cleaned split of the file, and can depend on the polls: a raw line
  one byte over the limit that ends in CR is published or not depending on where a read ended
  (`LogTailRestart.CutDecidesTheLongestLine`). Every lifetime publishes the cleaned split if and only if
  every raw line, CR included, fits the limit (`LogTailCuts.PublishesCleanSplitIff`), and polls never
  matter if and only if no raw line is over the limit only by its CR (`LogTailCuts.PollsDoNotMatterIff`).
- A recovery that waits in vain for a reserved launch whose pid was never written starts a second
  backend beside a live one (`BackendRuns.TimedOutReservationDoubles`). Runs without such an event keep
  at most one backend (`BackendRuns.AtMostOneBackend`), and every run with one can go on to two
  (`BackendRuns.GivingUpCanDouble`).
- A dependency starts first if and only if its tier is not the higher one
  (`LaunchOrder.DependencyStartsFirst`); a catalog in which it starts last is in
  `LaunchOrder.DependencyStartsLast`. Stopping is the exact reverse of starting, as its comment says,
  if and only if every tier holds one service (`LaunchOrder.StopReversesOnlySingletons`,
  `LaunchOrder.StopKeepsTheOrderInsideATier`).
- The expansion puts dependencies first if and only if no listed code depends on itself
  (`LaunchOrder.TopologicalIffAcyclic`); one that does is in `LaunchOrder.SelfDependencyIsNotFirst`.
- A limit of 0 still shows one line of the global view (`Rings.ZeroLimitShowsOneLine`); a view keeps to
  its limit if and only if that is at least 1, or it is 0 and no line is wanted (`Rings.LimitIsKeptIff`).
- A shortened string can end in a high surrogate: some limit makes it do so if and only if the string
  holds two high surrogates in a row and the second is lone (`JsonBounds.EndsHighIffTwoHighs`,
  `JsonBounds.TwoHighsLeaveOne`). A given limit does so if and only if two high surrogates end a part that
  fits and the halving asks about the next longer part first (`JsonBounds.EndsHighAtLimitIff`), which the
  length of the rest decides (`JsonBounds.RestDecidesAStraddledCut`). A string of whole characters never
  loses half of one (`JsonBounds.PairsAreNotSplit`).
- With a clock that goes back the nonce cache forgets a nonce it should refuse
  (`NonceCache.BackwardClockForgets`). Whatever the clock does, a nonce is refused exactly if it was
  recorded less than the retention before, and not pruned in between at a time at which it had expired
  (`NonceCache.RefusedIffHeld`).
- The DNS-over-TCP loop accepts chunks of 65,538 bytes whatever came before; 65,539 is too many
  (`Framing.LargerChunkDestroys`).

## Model

| member | source | states |
|---|---|---|
| LineSplit.SplitUnsplit | src/log/process-log-tail.ts:184-202 | The reference split: gluing the raw lines and the tail back gives the file, and no raw line holds a newline |
| LineSplit.EmitIsCleanSplit | src/log/process-log-tail.ts:184-202 | With every raw line in the limit, or a lone CR, what the reader emits is the cleaned split, wherever reads were cut |
| LineSplit.EmitAppend | src/log/process-log-tail.ts:168-202 | At a line start, emission of two parts is the emission of each |
| LineSplit.OversizeLine | src/log/process-log-tail.ts:171-183 | A tail over the limit at a cut never surfaces: emission goes on after the next newline |
| LineSplit.InLimitWithinEmit | src/log/process-log-tail.ts:188-200 | Lines whose raw length fits are emitted in order, whatever the cuts |
| ProcessLogTail.LogTail.PublishLines | src/log/process-log-tail.ts:184-202 | The index loop publishes exactly the lines the specification emits, up to the first rejection, and stops at the tail |
| ProcessLogTail.LogTail.Consume | src/log/process-log-tail.ts:167-213 | A chunk whose lines were all published moves the cursor by its length and puts the committed offset into the table, to be written; a rejected one leaves cursor and table as they were |
| ProcessLogTail.LogTail.Drain | src/log/process-log-tail.ts:151-217 | One poll reads what the read returns, at most 262,144 bytes and at most to the end of the file, and is the drain step of the model |
| ProcessLogTail.LogTail.PersistOffsets | src/log/process-log-tail.ts:219-232 | A write happens only when dirty; a successful one makes the saved offset that of the table and nothing dirty, a failed one stays dirty and leaves it |
| ProcessLogTail.LogTail.constructor | src/log/process-log-tail.ts:132-149 | A cursor that has read nothing starts inside the file: at a saved offset, if the file reaches it, without discarding; with none saved 1,048,576 bytes before the end or at the first byte, discarding exactly if bytes were left out |
| LogTailExact.PublishesExactly | src/log/process-log-tail.ts:151-217 | Over every growth, poll and read size of one lifetime: pending is the newline-free, in-limit rest, empty while discarding; with no rejection, exactly what the bytes contain was published |
| LogTailExact.PublishesCleanSplit | src/log/process-log-tail.ts:151-217 | With every raw line in the limit, the published lines are the cleaned split of the file up to the committed offset |
| LogTailExact.ExpectedAtCommitted | src/log/process-log-tail.ts:203-213 | Nothing is pending before the committed offset, and pending is the file between the two offsets |
| LogTailExact.ChunkKeepsReading | src/log/process-log-tail.ts:167-213 | Every chunk keeps the cursor invariant, discarding or not |
| LogTailCuts.PublishesCleanSplitIff | src/log/process-log-tail.ts:151-217 | All lifetimes that lead to a file, whatever its growth and polls, publish its cleaned split up to the committed offset if and only if every raw line of it, CR included, fits the limit |
| LogTailCuts.PollsDoNotMatterIff | src/log/process-log-tail.ts:151-217 | Any two lifetimes that lead to a file and read as far publish the same if and only if no raw line of it is over the limit only by its CR |
| LogTailCuts.EmitIsCleanSplitIff | src/log/process-log-tail.ts:171-202 | The emission is the cleaned split for all cuts if and only if every raw line fits |
| LogTailCuts.EmitIgnoresCutsIff | src/log/process-log-tail.ts:171-202 | The emission is the same for all cuts if and only if no raw line is over the limit only by its CR |
| LogTailCuts.ByteReadsLose | src/log/process-log-tail.ts:151-217 | Read byte by byte, a file with a raw line that does not fit is not published as its cleaned split |
| LogTailCuts.ByteReadsDiffer | src/log/process-log-tail.ts:151-217 | Two byte-wise readings of a file, with and without a stop before the newline of a line over by its CR, publish differently |
| LogTailRecovery.NoLineLost | src/log/process-log-tail.ts:132-217 | Over rejected publishes, failed offset writes and restarts, every in-limit line up to the committed offset was published, in order |
| LogTailRecovery.OnlyGenuineLines | src/log/process-log-tail.ts:132-213 | With restarts at line starts every published line is a line of the file, and an offset recorded while not discarding is a line start |
| LogTailReplay.PublishesInOrder | src/log/process-log-tail.ts:132-213 | With restarts at line starts, what was published is, in order, one stretch of the file's lines after the other, each from a line start on and in file order, at most one more than there were restarts and rejected publishes |
| LogTailOnce.PersistedRestartResumes | src/log/process-log-tail.ts:132-232 | After any run from a saved offset, a successful write saves the committed offset and a restart resumes exactly there, with nothing published in between |
| LogTailOnce.NothingIsRepeated | src/log/process-log-tail.ts:132-232 | The lifetime after such a restart publishes exactly the lines behind the committed offset, none of the earlier ones again |
| LogTailOnce.ExactlyOnce | src/log/process-log-tail.ts:132-232 | With every line within the limit, no rejected publish and offsets written before every restart, any run publishes the cleaned split of the file, each line once |
| LogTailOnce.WrittenIsClean | src/log/process-log-tail.ts:184-202 | Splitting and cleaning a file of lines written with LF or CR LF gives back their texts |
| LogTailOnce.WrittenIsPublished | src/log/process-log-tail.ts:132-232 | Lines a program writes come out as exactly their texts, however the file grew, was read and was resumed |
| LogTailOnce.TruncatedIsReadAnew | src/log/process-log-tail.ts:151-158 | A file that became shorter than what was read of it is read from its first byte again |
| LogTailRestart.RestartPublishes | src/log/process-log-tail.ts:132-217 | A start at any saved offset publishes what is left of the line there, if that is kept, and then every line after it |
| LogTailRestart.RestartPublishesWholeLinesIff | src/log/process-log-tail.ts:140-148 | A start publishes exactly the lines that begin there or later if and only if it is at a line start or what is left of the line there is empty or over the limit |
| LogTailRestart.LinesFromAreGenuine | src/log/process-log-tail.ts:140-148 | The lines that begin at or after the start of a lifetime are lines of the file within the limit |
| LogTailRestart.RestartWhileDiscardingPublishesAFragment | src/log/process-log-tail.ts:140-148 | The offset recorded inside a discarded line leads to a restart that publishes the end of that line |
| LogTailRestart.OversizedIsRecorded | src/log/process-log-tail.ts:206-213 | The offset inside a discarded line is recorded |
| LogTailRestart.CutDecidesTheLongestLine | src/log/process-log-tail.ts:187-210 | Two runs of the reader over one file: a raw line of the limit plus a CR is published in one read and dropped in two |
| StateStore.OperationStore.RecordAccepted | src/local-control/state-store.ts:90-114 | A failed acceptance leaves memory and disk unchanged |
| StateStore.OperationStore.RecordCompleted | src/local-control/state-store.ts:116-123 | A failed completion is visible in memory only; an unknown id changes nothing |
| StateStore.OperationStore.Boot | src/local-control/state-store.ts:63-84 | Accepted records become interrupted, the newest are kept |
| StateStore.AcceptKeeps | src/local-control/state-store.ts:90-114 | Accepting keeps ids unique and, in a log within its bound, the new record, whether its id was there or not; every other record is unchanged or evicted |
| StateStore.CompleteKeeps | src/local-control/state-store.ts:116-123 | Completing changes the response of one record and nothing else |
| StateStore.InitializeKeeps | src/local-control/state-store.ts:63-84 | No accepted record survives a start; every kept record keeps everything else |
| StateStore.NewestKeeps | src/local-control/state-store.ts:112 | The bound drops oldest records only |
| StateStore.NewestIsEnd | src/local-control/state-store.ts:112 | The bound keeps the end of the log, as many records as it allows |
| StateStore.AcceptEvicts | src/local-control/state-store.ts:90-114 | A new record is appended; a record is evicted if and only if the log is full and it is the oldest |
| StateStore.AcceptReplaces | src/local-control/state-store.ts:100-112 | A known record is replaced where it stands, and nothing is evicted |
| StateStore.InterruptedAtStart | src/local-control/state-store.ts:63-84 | At a start exactly the accepted operations fail as interrupted; every other record is as it was |
| LocalControl.LocalControlSupervisor.constructor | src/local-control/state-store.ts:63-84 | A supervisor starts within its bound on effects, and shows no accepted record |
| LocalControl.LocalControlSupervisor.Dispatch | src/local-control/supervisor.ts:251-350 | No request runs anything. An admissible request is answered with the response recorded for it, joins the dispatch in flight it repeats, or begins for an unused id, and conflicts if and only if its id stands for a different target, action or mode; a callback is armed only for a commit of a prepared operation that is still accepted |
| LocalControl.LocalControlSupervisor.CommitDeferred | src/local-control/supervisor.ts:373-405 | A commit arms a callback if and only if there is a prepared record of its target and action that is still accepted; a replayed response is terminal; nothing else changes |
| LocalControl.LocalControlSupervisor.OnAcceptWritten | src/local-control/supervisor.ts:352-362 | The acceptance counts, is found in the log and is on disk exactly if its write succeeded; a failed one changes neither log, disk nor count; nothing runs |
| LocalControl.LocalControlSupervisor.Resume | src/local-control/supervisor.ts:364-370 | A prepared operation has no right to run by itself; any other has it once |
| LocalControl.LocalControlSupervisor.StartEffect | src/local-control/supervisor.ts:368-370 | The queued operation runs once more and its right to run is used up, within the bound |
| LocalControl.LocalControlSupervisor.FireCallback | src/local-control/supervisor.ts:414-424 | A callback runs nothing; it claims only an id nobody else holds, not while closing, and only a record that is not terminal |
| LocalControl.LocalControlSupervisor.StartClaim | src/local-control/supervisor.ts:424-427 | A claimed operation runs exactly once unless the supervisor is closing, and the claim can run nothing more |
| LocalControl.LocalControlSupervisor.OnCompleteWritten | src/local-control/supervisor.ts:435-451 | A retained record is terminal from then on, whatever the write answers; no other record, no id and no claim changes |
| LocalControl.LocalControlSupervisor.OnClaimWritten | src/local-control/supervisor.ts:428-451 | The record of a claimed operation is terminal before its claim is released, so that no later callback claims it; no other record changes |
| LocalControl.LocalControlSupervisor.RecordExcubitor | src/local-control/state-store.ts:125-129 | A written backend status makes every recorded response durable, changes none, and runs nothing |
| LocalControl.LocalControlSupervisor.GetOperation | src/local-control/state-store.ts:86-88 | The search finds the first record of an id |
| SupervisorReplies.AdmissibleIsAnswered | src/local-control/supervisor.ts:302-350 | Every admissible request gets the reply its id stands for: replayed, joined, begun, or a conflict if and only if target, action or mode differ |
| SupervisorReplies.CommitIsAnswered | src/local-control/supervisor.ts:373-405 | A commit is armed, answered with the outcome, a conflict, or not prepared, each in exactly one situation |
| SupervisorReplies.OthersAreRefused | src/local-control/supervisor.ts:258-284 | What is refused before the id is looked at: while closing, and what cannot be prepared or committed |
| SupervisorReplies.TargetKeysDiffer | src/local-control/protocol.ts:199-201 | Different targets have different keys |
| SupervisorProgress.ExecutedOnce | src/local-control/supervisor.ts:302-371 | An accepted direct execution runs exactly once, its response is recorded and durable, and the same request is answered with it |
| SupervisorProgress.PreparedOnly | src/local-control/supervisor.ts:352-366 | An accepted preparation is recorded, runs nothing, and is answered as accepted |
| SupervisorProgress.CommittedOnce | src/local-control/supervisor.ts:373-451 | A commit runs a prepared operation exactly once and records its response; repeated preparations and commits are answered with it |
| SupervisorProgress.RestartInterrupts | src/local-control/state-store.ts:63-84 | After a restart an operation that was still accepted is answered as interrupted |
| SupervisorSafety.EffectsWithinAcceptances | src/local-control/supervisor.ts:302-451 | In every interleaving the effects of an id are at most its acceptances plus the callbacks that claimed a record that was not prepared |
| SupervisorSafety.RetainedRunsAtMostOnce | src/local-control/supervisor.ts:302-451 | An operation whose record was never evicted is accepted and runs at most once |
| SupervisorSafety.NothingRunsUnaccepted | src/local-control/supervisor.ts:352-371 | Nothing runs for an id no acceptance of which was written |
| SupervisorSafety.FailedAcceptanceFreesTheId | src/local-control/supervisor.ts:345-362 | A failed acceptance changes nothing and the same request begins afresh |
| SupervisorSafety.TerminalStays | src/local-control/state-store.ts:63-123 | A terminal response never returns to accepted while its record is retained |
| SupervisorReuse.BoundedUnlessAllModes | src/local-control/supervisor.ts:373-433 | For every id, set of modes and size of the log: all runs that dispatch the id only in these modes have at most as many effects as acceptances if and only if they are not all three modes |
| SupervisorReuse.TwoModesRunWithinAcceptances | src/local-control/supervisor.ts:302-451 | An id never prepared, or never committed, or never executed directly runs at most once per acceptance, evictions and all |
| SupervisorReuse.ReuseAfterEvictionRunsTooOften | src/local-control/supervisor.ts:414-427 | For every size of the log a run with two acceptances and three effects of one id |
| SupervisorCommit.PreparingRunsNothing | src/local-control/supervisor.ts:364-366 | An id never committed and never executed directly has no effects in any run, however often it is prepared |
| SupervisorCommit.RetainedRunsAfterCommit | src/local-control/supervisor.ts:373-405 | A prepared operation whose record was never evicted has effects only behind a dispatched commit of it |
| SupervisorCommit.RunsUnaskedIffCallback | src/local-control/supervisor.ts:407-433 | An accepted operation that nobody claimed, and that at most is being prepared, can run with no further commit or direct execution if and only if a reply callback of its id is outstanding |
| SupervisorCommit.SecondPreparationRunsUnasked | src/local-control/supervisor.ts:414-427 | For every size of the log a run prepares an id again after its eviction, with a callback left over that can run it without another commit |
| BackendController.ExcubitorBackendController.StartRequested | src/local-control/excubitor-backend.ts:204-230 | A start cancels the timer, never forgets an adopted pid that is reported alive, and goes on to a launch only when nothing is alive |
| BackendController.ExcubitorBackendController.TimerTurn | src/local-control/excubitor-backend.ts:589-596 | A start by the restart timer never forgets an adopted pid that is reported alive, and goes on to a launch only when nothing is alive |
| BackendController.ExcubitorBackendController.ReserveLaunch | src/local-control/excubitor-backend.ts:231-248 | An occupied port ends in a crashed status to be written; a free one leads to a queued reservation whose own write the launch waits for |
| BackendController.ExcubitorBackendController.SpawnReserved | src/local-control/excubitor-backend.ts:249-278 | A child appears only after the reservation with its token was durable, and is then the only live process; a failed one leaves no token |
| BackendController.ExcubitorBackendController.ReadinessEnded | src/local-control/excubitor-backend.ts:284-313 | Readiness counts only for the child it was waited for; that child is terminated exactly if it is still owned and not ready |
| BackendController.ExcubitorBackendController.Recover | src/local-control/excubitor-backend.ts:89-98 | A live persisted pid with a running intent is waited for; a launch follows only when nothing is alive and never from a stopped intent |
| BackendController.ExcubitorBackendController.IdentityAnswered | src/local-control/excubitor-backend.ts:105-176 | A persisted pid that is alive is adopted under its token, confirmed or not; a stopped intent never goes on to a launch |
| BackendController.ExcubitorBackendController.HealthProbed | src/local-control/excubitor-backend.ts:180-226 | Only a confirmed identity is adopted or terminated; a probe of an adopted process forgets nothing |
| BackendController.ExcubitorBackendController.StopRequested | src/local-control/excubitor-backend.ts:317-354 | A stop forgets nothing, cancels the timer and queues the stopped intent, as stopping or as stopped if there is nothing, and waits for that write before anything is terminated |
| BackendController.ExcubitorBackendController.RestartRequested | src/local-control/excubitor-backend.ts:369-375 | A restart forgets nothing and changes no intent before its first status, restarting, was written |
| BackendController.ExcubitorBackendController.TerminationEnded | src/local-control/excubitor-backend.ts:228-366 | A failed termination forgets nothing; after a successful one of an adopted process nothing is alive; a launch follows only then |
| BackendController.ExcubitorBackendController.StatusSettled | src/local-control/excubitor-backend.ts:755-765 | A successful write makes the oldest queued status durable, a failed one leaves the disk; either way the token of the known process stays durable |
| BackendController.ExcubitorBackendController.Resume | src/local-control/excubitor-backend.ts:245-366 | After its status write an operation terminates something only if that write was durable; a launch follows only when nothing is alive |
| BackendController.ExcubitorBackendController.HandleExit | src/local-control/excubitor-backend.ts:565-582 | An exit leaves nothing alive or known and, with a running intent, a restart timer |
| BackendController.ExcubitorBackendController.HandleSpawnError | src/local-control/excubitor-backend.ts:550-563 | A spawn that failed after all leaves nothing alive or known, a crashed state and, with a running intent, a restart timer |
| BackendController.ExcubitorBackendController.AdoptedGone | src/local-control/excubitor-backend.ts:725-736 | An adopted process is forgotten only when nothing is alive |
| BackendController.ExcubitorBackendController.AdoptedWasChecked | src/local-control/excubitor-backend.ts:687-724 | A check of the adopted process forgets nothing; its state becomes running or crashed with the answer, and every change is written |
| BackendController.ExcubitorBackendController.StopOrphan | src/local-control/excubitor-backend.ts:687-695 | An adopted process is stopped by the monitor only under a stopped intent, after it was announced |
| BackendController.ExcubitorBackendController.ReplaceUnhealthy | src/local-control/excubitor-backend.ts:638-660 | A child is replaced by the monitor only under a running intent, after it was announced |
| BackendRuns.KnownProcessIsDurable | src/local-control/excubitor-backend.ts:90-315 | Over every run with crashes: child and adopted pid never coexist, and the token of the known process is in the durable status |
| BackendRuns.AtMostOneBackend | src/local-control/excubitor-backend.ts:90-315 | Over every run with crashes in which no event gives up on a live reservation: at most one backend lives, it is known or under recovery, and the durable status leads back to it |
| BackendRuns.GivingUpCanDouble | src/local-control/excubitor-backend.ts:105-128 | Every run that gives up on a live reservation can go on to two live backends |
| BackendRuns.RecoveryTakesOver | src/local-control/excubitor-backend.ts:90-202 | A recovery that ends has adopted or kept the live process; it starts none beside it |
| BackendRuns.LivePidIsNeverReplaced | src/local-control/excubitor-backend.ts:90-230 | With a running intent, a persisted pid and token, nothing is launched while every liveness check reports that pid alive, whoever owns it; a recovery that ends has kept it |
| BackendRuns.StoppedStaysStopped | src/local-control/excubitor-backend.ts:131-178 | With a durable stopped intent and no request to start, nothing is ever launched, restarts of the supervisor included |
| BackendRuns.StoppedIntentLaunchesNothing | src/local-control/excubitor-backend.ts:131-178 | A supervisor that finds a stopped intent launches nothing until it is asked to, and the intent stays durable |
| BackendRuns.TimedOutReservationDoubles | src/local-control/excubitor-backend.ts:105-128 | The window before the pid is durable: a timed-out wait leads to two processes |
| BackendProgress.StartRuns | src/local-control/excubitor-backend.ts:204-297 | A start from nothing whose writes, spawn and readiness succeed runs: a child, running, alone, and named by the durable status |
| BackendProgress.RestartRuns | src/local-control/excubitor-backend.ts:369-375 | A restart whose writes, termination and launch succeed runs a new process in place of a child, of a verified adopted process, and of nothing |
| BackendProgress.StopEndsStopped | src/local-control/excubitor-backend.ts:317-367 | A stop whose writes and termination succeed ends stopped, durably, with nothing alive, for a child, a verified adopted process, and nothing |
| BackendProgress.DeathComesBack | src/local-control/excubitor-backend.ts:565-598 | A child or an adopted process that dies under a running intent leaves a restart timer and nothing alive |
| BackendProgress.UnhealthyComesBack | src/local-control/excubitor-backend.ts:638-669 | An unhealthy child is announced and terminated, and leaves a restart timer and nothing alive |
| BackendProgress.FailedLaunchComesBack | src/local-control/excubitor-backend.ts:245-313 | A launch leaves a restart timer and nothing alive when its reservation is not written, its spawn throws, or its child does not become ready |
| BackendProgress.ComesBackAndRuns | src/local-control/excubitor-backend.ts:584-598 | A restart timer that comes due leads to a running backend |
| BackendProgress.RecoveryRuns | src/local-control/excubitor-backend.ts:89-98 | A supervisor that finds no status, or one of a process that is gone, starts the backend |
| BackendProgress.RecoveryDecides | src/local-control/excubitor-backend.ts:100-129 | A persisted process that is gone when probed or by the deadline is replaced; a live one that never answers is kept, crashed |
| BackendProgress.CrashIsSurvived | src/local-control/excubitor-backend.ts:90-202 | A supervisor that crashes beside its backend adopts it again: at once, before the deadline, and from a mere reservation |
| BackendProgress.RecoveryRests | src/local-control/excubitor-backend.ts:131-178 | A supervisor that finds a stopped intent and nothing alive rests stopped, durably |
| BackendProgress.OrphanIsStopped | src/local-control/excubitor-backend.ts:144-178 | An orphan under a stopped intent is ended, by the recovery and by the monitor |
| BackendProgress.StartVerifiesAdopted | src/local-control/excubitor-backend.ts:212-224 | A start beside an adopted process runs on if its health answers, and keeps it unchanged if not |
| BackendProgress.StartKeepsRunning | src/local-control/excubitor-backend.ts:226-227 | A start beside a running child changes only the intent |
| BackendProgress.StartReplacesCrashed | src/local-control/excubitor-backend.ts:226-230 | A start terminates a child that no longer runs properly and runs a new one |
| BackendProgress.UnverifiedIsKept | src/local-control/excubitor-backend.ts:325-344 | A stop of an adopted process that cannot be verified keeps it, crashed, with a durable stopped intent |
| BackendProgress.UnterminatedIsKept | src/local-control/excubitor-backend.ts:353-362 | A child that cannot be terminated is kept, crashed, with a durable stopped intent |
| BackendProgress.OccupiedEndsCrashed | src/local-control/excubitor-backend.ts:231-238 | An occupied port ends a launch crashed, durably, and starts nothing |
| BackendProgress.FailedWriteEnds | src/local-control/excubitor-backend.ts:245-366 | After an own status write that failed, an operation launches, terminates and probes nothing; only a launch under way aborts its own child |
| BackendSafety.ReservedKeeps | src/local-control/excubitor-backend.ts:241-283 | The launch step keeps every invariant: the new process is alone and named by the durable status |
| BackendSafety.IdentifiedKeeps | src/local-control/excubitor-backend.ts:100-178 | Every answer to the wait for a persisted identity keeps the invariant: the live process stays named by the durable status and known |
| TargetQueue.TargetOperationQueue.Submit | src/local-control/target-queue.ts:4-8 | A submission is chained to the tail and becomes the tail |
| TargetQueue.TargetOperationQueue.Finalise | src/local-control/target-queue.ts:9-11 | Cleanup deletes its own tail and never a newer one |
| TargetQueue.OneAtATimeInOrder | src/local-control/target-queue.ts:4-13 | Per target no two operations run at once, and one that started has all earlier ones behind it |
| TargetQueue.DrainIsSound | src/local-control/target-queue.ts:15-20 | When no tail is left everything submitted is finished |
| TargetQueue.AllFinalisedMeansDrained | src/local-control/target-queue.ts:9-20 | When everything was cleaned up, no tail is left |
| TargetQueue.OldestMayStart | src/local-control/target-queue.ts:5-6 | The oldest unfinished operation of a target runs or may start, after rejections too |
| DnsMessage.ReadNameLoop | src/dnsfilter/dns-message.ts:45-71 | The loop over labels and pointers terminates and reads what the specification reads |
| DnsMessage.ReadNameAdvances | src/dnsfilter/dns-message.ts:45-71 | A name that was read ends after its start and inside the buffer, whatever its pointers |
| DnsMessage.ReadFromAdvances | src/dnsfilter/dns-message.ts:50-70 | From any point of the reading, after labels and pointers, a name that is read ends behind the point where its bytes began and inside the buffer |
| DnsMessage.ResponseFlagBits | src/dnsfilter/dns-message.ts:99-102 | The whole flag word of a response: QR and RA set, opcode and RD copied, the code in the low four bits, everything else clear |
| DnsMessage.BuildResponse | src/dnsfilter/dns-message.ts:97-108 | The buffer writes give the response of the specification |
| DnsMessage.CollectAnswers | src/dnsfilter/dns-message.ts:160-174 | The answer loop, for any count, stays in bounds and collects the addresses of the records in order |
| DnsRoundTrip.QueryRoundTrip | src/dnsfilter/dns-message.ts:74-94 | Parsing an encoded query gives id, opcode, lower-cased name, type, and the packet length as its end |
| DnsRoundTrip.AnswerRoundTrip | src/dnsfilter/dns-message.ts:147-175 | Parsing an encoded answer with compressed owner names gives one address for each record of type 1 with four bytes or type 28 with sixteen, in order and none for others, and each reads back to the bytes of its record |
| DnsRoundTrip.AddressOfRecord | src/dnsfilter/dns-message.ts:170-171 | A record of type 1 with four bytes or of type 28 with sixteen gives one address that reads back to its bytes, any other record none |
| DnsRoundTrip.AnsweredIffAsked | src/dnsfilter/dns-message.ts:147-158 | An encoded response is accepted if and only if id, name, type and class are those that were asked for |
| DnsRefusals.ParsedIff | src/dnsfilter/dns-message.ts:74-94 | A query is accepted if and only if it has a query's header, one question and a readable one; its fields are these bytes; a refused one can be answered if and only if it has such a header |
| DnsRefusals.AnsweredIff | src/dnsfilter/dns-message.ts:147-175 | A response is accepted if and only if id, QR bit, count, question and every record are as required, in terms of its bytes |
| DnsRefusals.ReadIffShort | src/dnsfilter/dns-message.ts:60-66 | A name is read if and only if its labels with their lengths take at most 255 bytes |
| DnsRefusals.ChainIsReadIffShort | src/dnsfilter/dns-message.ts:50-59 | A chain of pointers is read if and only if it has at most 32 |
| DnsRefusals.NoPointerInAQuestion | src/dnsfilter/dns-message.ts:55-56 | A question holds no pointer |
| DnsRefusals.ReservedLengths | src/dnsfilter/dns-message.ts:61 | The reserved kinds of length are refused |
| DnsRefusals.QueryOnTheWire | src/dnsfilter/dns-message.ts:74-94 | One query byte by byte, with its opcode, lower-cased name, type and class |
| DnsRoundTrip.OwnResponseIsAccepted | src/dnsfilter/dns-message.ts:97-175 | The response built for any parsed query is accepted for that query with the same code and no address |
| DnsRoundTrip.ReadSame | src/dnsfilter/dns-message.ts:45-71 | A name without pointers reads the same in a copy and with pointers allowed |
| DnsRoundTrip.ReadEncodedName | src/dnsfilter/test-packets.ts:6-12 | An encoded name reads back lower-cased, to its end |
| DnsRoundTrip.ReadPointer | src/dnsfilter/test-packets.ts:49 | The owner pointer reads the question's name and ends after two bytes |
| TestPackets.QueryFlagBits | src/dnsfilter/test-packets.ts:30-32 | The encoder's flags read back as a query with that opcode |
| TestPackets.AnswerFlagBits | src/dnsfilter/test-packets.ts:57 | The encoder's flags read back as a response with that code |
| AddressText.Ipv4RoundTrip | src/dnsfilter/dns-message.ts:170 | Dotted text reads back to its four bytes |
| AddressText.Ipv6RoundTrip | src/dnsfilter/dns-message.ts:118-133 | IPv6 text expands back to its sixteen bytes |
| AddressText.ShortensTheFirstLongestRun | src/dnsfilter/dns-message.ts:122-130 | The shortened run has at least two groups, is longest, and is the first of its length |
| AddressText.LongestZeroRun | src/dnsfilter/dns-message.ts:122-130 | The loop over the hexadecimal texts of the groups finds the first longest run of zero groups |
| AddressText.FormatIpv6Text | src/dnsfilter/dns-message.ts:118-133 | Joining the texts around that run is the text whose round trip is proved |
| NewestRows.ResultHeap.AddResult | src/log/query-engine.ts:113-123 | The heap stays a selection of the newest rows of everything inserted |
| NewestRows.ResultHeap.SiftUp | src/log/query-engine.ts:125-133 | Sifting up restores the heap and permutes |
| NewestRows.ResultHeap.SiftDown | src/log/query-engine.ts:135-146 | Sifting down restores the heap and permutes |
| NewestRows.QueryJsonl | src/log/query-engine.ts:69-111 | The result is a selection of the rows, newest first, of the size the limit allows, whose timestamps are those of sorting all and taking the limit |
| NewestRows.NewestIsPrefix | src/log/query-engine.ts:110-123 | Any selection of the newest timestamps, sorted, is that prefix |
| NewestRows.NewestOfNewest | src/log/query-engine.ts:57-63 | The newest of two selections are the newest of both collections |
| NewestRows.MergeIsNewestOfBoth | src/log/query-engine.ts:57-63 | Merging, sorting and cutting two selections gives the top timestamps of the union |
| NewestRows.MergeKeepsRows | src/log/query-engine.ts:57-63 | A merge holds only rows of the two selections, each as often as they do, newest first, as many as the limit allows |
| Rings.CircularBuffer.Push | src/log/ring-buffer.ts:33-41 | A push keeps the newest entries of the contents and the new one, which is last; it drops one only if the ring is full |
| Rings.CircularBuffer.NewestFirstValues | src/log/ring-buffer.ts:43-50 | The loop lists the contents newest first |
| Rings.CircularBuffer.Resize | src/log/ring-buffer.ts:52-59 | A resize keeps the newest entries that fit, and all if all fit |
| Rings.LogRingBuffer.Append | src/log/ring-buffer.ts:79-97 | The two rings that take the line are distinct objects; both views stay suffixes of the history with the new line at its end, and no other view changes |
| Rings.LogRingBuffer.Configure | src/log/ring-buffer.ts:72-77 | Both kinds of view keep their newest lines |
| Rings.LogRingBuffer.Clear | src/log/ring-buffer.ts:113-117 | Every view and the history are empty, the rings are new ones |
| Rings.TakeWanted | src/log/ring-buffer.ts:99-107 | The loop takes the wanted lines in order, up to the limit but at least one |
| Rings.LogRingBuffer.Recent | src/log/ring-buffer.ts:99-107 | Only lines of the wanted codes, newest first, never more than a limit of at least 1, and fewer only if no more are kept |
| Rings.LogRingBuffer.RecentForService | src/log/ring-buffer.ts:109-111 | A prefix of the history of that code, newest first; never more than the limit, and less only if no more is kept |
| Rings.ViewsAgree | src/log/ring-buffer.ts:62-111 | For any code, `recent` and `recentForService` are comparable by prefix, and both show the history of that code |
| Rings.IdsDecrease | src/log/ring-buffer.ts:79-107 | Whatever is shown, ids strictly decrease |
| Rings.ViewsAppend | src/log/ring-buffer.ts:79-97 | An append keeps both views suffixes of the history |
| Rings.ViewsResize | src/log/ring-buffer.ts:72-77 | A resize keeps both views suffixes of the history |
| Rings.LimitIsKeptIff | src/log/ring-buffer.ts:99-107 | The global view keeps to its limit if and only if that is at least 1, or it is 0 and no retained line is wanted |
| Rings.ZeroLimitShowsOneLine | src/log/ring-buffer.ts:99-107 | A limit of 0 shows one line, and none of a service |
| QueryLog.QueryLog.Add | src/dnsfilter/query-log.ts:54-63 | An added record is counted once and the array keeps the newest records |
| QueryLog.QueryLog.Recent | src/dnsfilter/query-log.ts:72-80 | Only records that pass the filter, newest first, never more than the limit, and fewer only if no more are kept |
| QueryLog.QueryLog.Resize | src/dnsfilter/query-log.ts:45-52 | A resize keeps the newest records |
| QueryLog.CountersCount | src/dnsfilter/query-log.ts:54-63 | Each counter is the number of records with its action |
| QueryLog.AddKeeps | src/dnsfilter/query-log.ts:57-62 | The write index keeps the array a rotation of the newest records |
| QueryLog.NewestAt | src/dnsfilter/query-log.ts:75-76 | The offset from the write index finds the record of that age |
| LaunchOrder.ExpandWithDependencies | src/launch/order.ts:37-55 | Terminates on every graph; each code once, all requested codes, closed under dependencies, nothing unreachable, in the order of the visit |
| LaunchOrder.Expansion.Visit | src/launch/order.ts:43-51 | A visit keeps what is listed and handles its code, cycles included |
| LaunchOrder.BeginningsAreKept | src/launch/order.ts:53 | The expansion of a request begins with that of its beginning: earlier codes and what they need come first |
| LaunchOrder.DependenciesInOrder | src/launch/order.ts:43-51 | Below a code its dependencies are listed in their own order, and the code last |
| LaunchOrder.TopologicalIffAcyclic | src/launch/order.ts:37-55 | The expansion puts every dependency before its dependents if and only if no listed code depends on itself |
| LaunchOrder.SelfDependencyIsNotFirst | src/launch/order.ts:43-51 | The expansion of a service that depends on itself lists it once, and not behind itself |
| LaunchOrder.OrderForStart | src/launch/order.ts:57-74 | Tiers ascend, and each holds its selected services in the order of the codes |
| LaunchOrder.StartOrderIsPermutation | src/launch/order.ts:57-74 | Every selected service is started as often as listed, and no other |
| LaunchOrder.StartOrderIsSorted | src/launch/order.ts:57-74 | By tier, and inside a tier by the order of the codes |
| LaunchOrder.PlatformStartsFirst | src/launch/order.ts:16-27 | infra starts before cernere, cernere before corpus, these before services that use the corpus, and those before all others; a project decides before a code |
| LaunchOrder.DependencyStartsFirst | src/launch/order.ts:37-74 | A dependency starts first if and only if its tier is not the higher one |
| LaunchOrder.DependencyStartsLast | src/launch/order.ts:57-74 | A catalog in which a dependency is expanded first and started last |
| LaunchOrder.StopReversesOnlySingletons | src/launch/order.ts:76-81 | Stopping reverses starting if and only if every tier holds one service |
| LaunchOrder.StopKeepsTheOrderInsideATier | src/launch/order.ts:76-81 | Two services of one tier stop in the order in which they start |
| Framing.NewlineJsonFramer.Push | src/local-control/line-framer.ts:15-29 | One push frames the pending text and the chunk, keeps the rest, and throws on a frame that is too long |
| Framing.ChunkingIsInvisible | src/local-control/line-framer.ts:15-29 | Some push throws exactly when one push of everything would; otherwise the same lines and rest |
| Framing.SentIsFramed | src/local-control/line-framer.ts:15-29 | The texts a sender ends with LF or CR LF are delivered exactly, and the unterminated rest is kept; it throws if and only if a line, its CR included, or the rest is over the limit |
| Framing.SentIsDelivered | src/local-control/line-framer.ts:15-29 | However the stream is cut into chunks, exactly the sent texts are delivered and the rest kept, or it throws, on the same condition |
| Framing.FrameAppend | src/local-control/line-framer.ts:15-29 | Framing a text in two parts |
| Utf16.Utf8Grows | src/local-control/line-framer.ts:22-27 | The UTF-8 length never shrinks by appending, pairs included |
| JsonText.Utf8Length | src/local-control/line-framer.ts:22-27 | The size a line is checked with is the number of its UTF-8 bytes, pairs and lone surrogates included |
| JsonText.JsonLength | src/local-control/protocol.ts:220-231 | The size a value is checked with is the length of its JSON string literal, escapes and surrogates included |
| JsonText.JsonRoundTrip | src/local-control/protocol.ts:220-231 | Reading that literal gives back the text, unit for unit |
| Framing.TcpConnection.OnData | src/dnsfilter/listener.ts:101-126 | One data event delivers the complete packets in order and keeps the rest, or destroys |
| Framing.SplitIsInvisible | src/dnsfilter/listener.ts:101-126 | Any split delivers the same packets, and no chunk of at most 65,538 bytes destroys |
| Framing.RestIsBounded | src/dnsfilter/listener.ts:107-111 | At most 65,536 bytes are kept |
| Framing.LargerChunkDestroys | src/dnsfilter/listener.ts:103-106 | A chunk one byte larger can destroy |
| Framing.PackedIsUnpacked | src/dnsfilter/listener.ts:107-111 | Packets sent behind their lengths come out again, with no rest |
| JsonBounds.TruncateJsonString | src/local-control/protocol.ts:220-236 | The binary search computes the specified truncation |
| JsonBounds.TruncationFits | src/local-control/protocol.ts:220-236 | A prefix that fits; whole if it fits; else no further unit fits and no longer prefix encodes to less than the limit minus one |
| JsonBounds.EncodedSizeIsNotMonotone | src/local-control/protocol.ts:228-229 | Completing a pair makes the encoding shorter |
| Utf16.JsonShrinksByTwo | src/local-control/protocol.ts:229 | Appending shortens the JSON encoding by no more than two bytes, and only after a high surrogate |
| JsonBounds.PairsAreNotSplit | src/local-control/protocol.ts:232-234 | A well-formed string stays well-formed |
| JsonBounds.EndsHighIffTwoHighs | src/local-control/protocol.ts:220-236 | Some limit cuts a value so that it ends in a high surrogate if and only if it holds two high surrogates in a row of which the second is lone |
| JsonBounds.EndsHighAtLimitIff | src/local-control/protocol.ts:220-236 | For one limit: a high surrogate is left at the end if and only if two of them end a part that fits and the halving asks about the next longer part before any that a pair makes fit again |
| JsonBounds.RestDecidesAStraddledCut | src/local-control/protocol.ts:225-231 | Two values that differ only behind a pair that lies across the limit: one ends in a high surrogate, one does not |
| JsonBounds.TwoHighsLeaveOne | src/local-control/protocol.ts:232-234 | A concrete value of three lone high surrogates, cut to 14 bytes, ends in one |
| JsonBounds.BoundedPayload | src/local-control/protocol.ts:73-86 | The payload of a bounded control result takes at most 24,576 bytes for each of its two streams, 4,096 for the command, and a constant |
| JsonBounds.EachIsShortened | src/local-control/protocol.ts:73-86 | Each of the three texts becomes its own beginning within its own limit, stays as it is if that fits, and is marked if not |
| JsonBounds.ResponseFitsFrame | src/local-control/protocol.ts:203-218 | A failed or completed response with a bounded control result fits one 64 KiB frame |
| Monitor.IntrusionMonitor.InspectRequest | src/intrusion/monitor.ts:37-46 | A request passes only if there is no incident before and after it; a suspicious one never passes, and latches unless the monitor is stopping; a blocked one changes nothing |
| Monitor.IntrusionMonitor.ResponseSeen | src/intrusion/monitor.ts:47-54 | A suspicious response or lost evidence latches; anything else, and everything after the first incident, changes nothing |
| Monitor.IntrusionMonitor.TripLatch | src/intrusion/monitor.ts:55-63 | The first trip latches with its identity whether it can be saved or not, delivers nothing itself and starts the one reconciliation; a later one changes nothing |
| Monitor.IntrusionMonitor.ScheduleWork | src/intrusion/monitor.ts:74-79 | At most one reconciliation is in flight: a tick during one changes nothing; otherwise it starts one for an incident unless the monitor is stopping |
| Monitor.IntrusionMonitor.NotifyEnded | src/intrusion/monitor.ts:80-92 | A successful delivery is the first for its containment; a failed one is due again; identity and containment stay |
| Monitor.IntrusionMonitor.ContainEnded | src/intrusion/monitor.ts:99-104 | Containment is confirmed exactly if the remote call succeeded, was not before, and identity and deliveries stay |
| Monitor.IntrusionMonitor.ClearWork | src/intrusion/monitor.ts:76-79 | At the end of a reconciliation nothing is in flight and a tick may start the next |
| Monitor.OneReportPerContainment | src/intrusion/monitor.ts:74-105 | At most one reconciliation in flight; at most three successful deliveries, one per containment, in order |
| Monitor.LatchHolds | src/intrusion/monitor.ts:37-105 | After a trip nothing passes, identity never changes, containment never goes back |
| Monitor.PassesIffNothingHappened | src/intrusion/monitor.ts:37-79 | After any events a harmless request passes if and only if no incident was loaded, the monitor was not stopped and nothing alarming was seen, whatever was saved or sent |
| MonitorProgress.ReportedAndContained | src/intrusion/monitor.ts:80-105 | A reconciliation in which everything succeeds reports the open incident, contains it, reports that, and saves it so |
| MonitorProgress.FailedIsTriedAgain | src/intrusion/monitor.ts:80-105 | One in which everything fails ends with the incident still to be reported and contained by the next |
| MonitorProgress.AlarmStartsReporting | src/intrusion/monitor.ts:37-79 | A suspicious request latches and starts the first report at once |
| MonitorProgress.RunKept | src/intrusion/monitor.ts:64-73 | After any run the saved incident is the current one unless the last save failed |
| MonitorProgress.RestartStaysBlocked | src/intrusion/monitor.ts:64-73 | A monitor started on what was saved of an incident lets nothing through |
| NonceCache.NonceMemory.Prune | src/federation/nonce-cache.ts:21-26 | The deleting loop keeps exactly the entries that have not expired |
| NonceCache.NonceMemory.RememberNonce | src/federation/nonce-cache.ts:29-35 | A nonce is refused exactly while its entry has not expired; a new one is kept for the retention; no unexpired entry is lost or changed |
| NonceCache.PruningIsInvisible | src/federation/nonce-cache.ts:17-38 | With a clock that does not go back, a call is refused exactly when its nonce was accepted less than the retention before |
| NonceCache.NoReplayWithinTwiceTheSkew | src/federation/peer-auth.ts:107-111 | No request of a peer with one nonce passes twice less than twice the skew apart |
| NonceCache.RefusedIffHeld | src/federation/nonce-cache.ts:17-38 | Whatever the clock does, a call is refused if and only if its nonce was recorded less than the retention before it, and since then neither recorded again nor pruned when it had expired |
| NonceCache.BackwardClockForgets | src/federation/nonce-cache.ts:30 | With a clock that goes back a nonce passes that should not |
| Routes.PlanRepointsMatchedRules | src/intrusion/route-plan.ts:18-41 | A plan keeps the number, order, selectors and other origin options of all rules and changes only matched ones |
| Routes.PlanSucceedsIff | src/intrusion/route-plan.ts:18-41 | A plan succeeds if and only if tunnel and port are valid, the options readable, every route has exactly one rule, and every rule a route selects still serves that route's origin under its Host header |
| Routes.PlannedHostIsExclusive | src/intrusion/coverage.ts:15-27 | After a successful plan a host has no gateway gap if and only if every rule on it matched some route |
| Routes.PlanKeepsOtherGaps | src/intrusion/coverage.ts:28-33 | The other two checks find after the plan what they found before |
| Routes.LowersLetters | src/intrusion/route-plan.ts:6-8 | Host names are compared letter by letter in lower case, all other characters as they are |
| Routes.HostGapIff | src/intrusion/coverage.ts:15-27 | A host has a gap if and only if some rule on it does not go to the gateway under its route's key or some route on it does not have exactly one rule |
| Routes.HostGapsIff | src/intrusion/coverage.ts:15-27 | The gaps name exactly the hosts that have one, and reading invalid options throws |
| Routes.RestGapsIff | src/intrusion/coverage.ts:28-33 | The fallback is unsafe unless the last rule has no host and answers 404 or 503; routes are uncovered if and only if some rule serves a foreign host |
| Routes.VerifyTunnel | src/intrusion/coverage.ts:11-34 | The loop over hosts reports the gaps of one tunnel, or throws |

## Left out

- HTTP routers, the frontend, the CLI, rendering, SQL, YAML, schemas, TLS, signatures and hashing: shells around these cores.
- Child processes, the operating system, health endpoints, Cloudflare and Discord appear only as the answers they may give.
- File truncation and rotation in the log tail: in the runs the file only grows; one poll of a file that became shorter is `LogTailOnce.TruncatedIsReadAnew`.
- UTF-8 decoding of log lines: lines are bytes.
- LogTailRecovery.NoLineLost: requires that a restart without stored offsets still reaches back to the first line asked about, because the initial backfill is bounded to 1 MiB.
- LocalControl.LocalControlSupervisor.Dispatch: status requests, the daily-update gate and the start and close lifecycle are not part of the model; one abstract effect stands for every operation.
- LocalControl.LocalControlSupervisor.RecordExcubitor: the backend status itself is not part of this state, only that writing it writes the operations too.
- LocalControl.LocalControlSupervisor.OnAcceptWritten: pending store writes may settle in any order, although the program writes them one after the other; the theorems hold for the larger set of runs.
- The order in which queued operations of one target run is proved in `TargetQueue`, not again in `Supervisor`.
- BackendRuns.AtMostOneBackend: backoff delays, log file descriptors, health-failure counting, restart counters and error texts, and the preserve-on-shutdown request are not modelled; a monitor may fire at any moment.
- BackendRuns.AtMostOneBackend: assumes that a process reported dead is dead, that only the holder of a token answers with it, and that a child that reports an error has no process.
- NewestRows.QueryJsonl: reading and filtering files is not modelled; the rows are those that passed the filters, and the order of rows with equal timestamps is not stated.
- DnsMessage.CollectAnswers: the two reasons for an unreadable answer are one.
- AddressText.Ipv4RoundTrip: test records carry their bytes; parsing dotted text in the encoder is not modelled.
- JsonBounds.ResponseFitsFrame: the emergency result, which is bounded the same way, and status payloads are not modelled; numbers are known by the length of their text.
- Monitor.OneReportPerContainment: the detector is a given answer, and evidence records are not modelled.
- LaunchOrder.OrderForStart: a project or code named like one of the twelve properties every JavaScript object inherits (`constructor`, `toString`, …) finds that property in the tier table of `src/launch/order.ts:16-27`, and its tier is then no number; the model gives such a service the tier of any other name.
- Routes.PlannedHostIsExclusive: comparing origins as URLs is a given relation; invalid URLs count as different.
- Small classifiers, settings resolvers, allowlists and preference stores: they would only add easy members.
