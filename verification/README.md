# UCloud sandboxes SDK: verified client protocols

This project models the client-side protocols of the UCloud sandboxes SDK and
proves what they promise over whole runs. `dafny verify dfyconfig.toml` checks
all of it. The gateway, the relay, the clock, the network and the order in which
threads and coroutines run are never fixed: they are the nondeterministic steps
of a transition system, or a script of answers and times that a method receives
and about which nothing is known beyond the assumptions listed below.

## What is modelled

* **Relay admission and workers.** `RelayAdmission` and `SyncAdmission` are the
  two request budgets, as classes whose methods are tied to the steps of a
  transition system. `LeaseHandler` is one leased request: its handler running
  beside its lease renewer. `RelayWorkers` composes any number of worker loops
  over one budget, with the handlers' endings taken from `LeaseHandler`. A task
  whose done-callback has not run still holds its permit.
* **Build contexts.** `BuildContext` is the hand-over of a semaphore permit and
  of a packed archive between a caller, an executor future and their callbacks.
  `Fingerprint` is the byte stream behind a context's fingerprint, with a
  decoder. `BuildRecovery` is the submission of a build whose answer may be lost.
* **Long polls.** `JobFollow` waits for a job and follows its output; `ExecDrain`
  drains the numbered events of an exec session.
* **Requests.** `ConnectionPool` is the pool of idle connections and the one
  request it may send twice; `RequestRetry` is the retry classifier and the
  request loop on top of it; `GroupCreate` repeats a group create with the same
  classifier.
* **Uploads.** `ContainerPaths`, `FileTree` and `FileArchive` canonicalise the
  input of `upload_files` and relate the archive to the tree it builds.
* **Smaller machines.** `ProcessStdin` is a buffered standard input, `ImageWait` the
  wait for registered images, `BuildWait` the wait for one build.

A loop over a script of answers is specified by a predicate on whole runs
(`FollowRun`, `RequestRun`, `CreateRun`, `WaitRun`, `BuildRun`, `SubmitRun`), which
fixes every pause and every end by the answers and the clock; what the loop
promises is then proved of that predicate.

Three kinds of lemma stand beside each machine. One says what holds at every
moment of every run. One says, in the source's own statuses, codes, paths and
times, what each decision is, without naming the function that makes it. And one
says what can always happen next (a worker returns, a permit is handed on, a
connection is used again), so that no promise holds only because nothing moves.

`Runs` has the notion of a run and its induction principle, `Prelude` and
`SortedNames` what several modules share.

## What the proofs assume of the other side

* A pre-dispatch fence is given before anything is dispatched, and a write that
  failed as unreachable never ran (`RequestRetry.Honest`).
* A send to a process's standard input that failed, rather than was cancelled,
  did not reach the server (`ProcessStdin.SendEnd`).
* A log read is answered for the offset and the stream it asked for, from one
  append-only log, and a terminal record names that log's final length
  (`JobFollow.Serves`).
* Exec pages are slices of one history (`ExecDrain.SlicesOf`); what the client
  checks by itself is proved for arbitrary pages.
* An image answer speaks only of the names that were asked
  (`ImageWait.AnswersOnlyAsked`); what it does not need is proved without it.
* A listing that worked shows the builds of the spec that existed
  (`BuildRecovery.ListingShows`).
* A waiter whose semaphore acquisition is cancelled takes no permit with it.

## Where the code does less than one might expect

Each has a lemma with the failing input and the condition under which the
property does hold.

* `RequestRetry.UnreachableWriteIsRepeated`: a POST whose write ran but failed
  with an unreachable errno is sent again. With honest fences alone, what the
  client saw of a request rules out a second run exactly when at most one attempt
  may have run the operation, and a retried attempt may have exactly when it shows
  such an errno (`RequestRetry.WhatWasSeenDecides`, `RequestRetry.RetriedTurnMayRun`).
* `Fingerprint.GrownFileIsAmbiguous`: content that grew between `lstat` and the
  read can imitate further entries. The stream decodes to its context exactly
  when every size is the length of its content and every text is free of NUL
  (`Fingerprint.StreamRoundTrip`).
* `ProcessStdin.CancelledSendLosesItsBatch`: a drain that is cancelled, rather
  than failed, does not put its batch back. Over every run, bytes are conserved
  exactly when no batch was lost so (`ProcessStdin.StdinRuns`), and the same
  decides whether everything was delivered before end-of-input
  (`ProcessStdin.EndOfInputIsLast`). A batch is lost exactly by a send that is
  cancelled before it arrives (`ProcessStdin.OnlyCancellationLoses`).
* `GroupCreate.UnparsableAnswerHidesTheGroup`, `GroupCreate.LateWakeHidesTheGroup`,
  `GroupCreate.BrokenRequestHidesTheGroup`: an answer that cannot be parsed, a sleep
  that overshoots the deadline, or a request that ends in an exception that is no
  API error (its own deadline after a refused connection, a body cut short or not
  UTF-8) ends a create with an error that carries no member status although an
  earlier answer gave one. `GroupCreate.StatusIsCarried` says exactly when that happens.
* `ImageWait.StrangersFoolTheCount`, `ImageWait.CompanyFoolsTheCount`: a gateway
  that answers for another name instead makes the settled count right too early, and
  the wait ends with a missing name; one that answers for another name as well makes
  the count overshoot, and the wait ends by refusing an empty request although the
  image is ready. A wait that ends in one of these ways or normally ends normally
  exactly when only requested names were settled (`ImageWait.CountDecides`).
* `JobFollow.EchoIsTrusted`: a chunk at another offset passes the client's checks,
  and the follower then ends normally with other bytes.

## Model

| member | source | states |
|---|---|---|
| RelayAdmission.AsyncRequestBudget.Drain | src/ucloud_sandboxes_sdk/_relay_admission.py:74-84 | the loop over the deque leaves exactly the budget of the recursive drain |
| RelayAdmission.AsyncRequestBudget.Release | src/ucloud_sandboxes_sdk/_relay_admission.py:70-72 | returned permits go to the queue before they stay available |
| RelayAdmission.AsyncRequestBudget.BeginAcquire | src/ucloud_sandboxes_sdk/_relay_admission.py:47-50 | an arrival joins the end of the queue, and is granted at once when it can be |
| RelayAdmission.AsyncRequestBudget.EndAcquire | src/ucloud_sandboxes_sdk/_relay_admission.py:59-68 | a call that does not claim withdraws its future or gives the granted permit back |
| RelayAdmission.DrainResult | src/ucloud_sandboxes_sdk/_relay_admission.py:74-84 | draining keeps arrival order, leaves no permit idle before a live waiter, and only turns pending futures into granted ones |
| RelayAdmission.DrainConserves | src/ucloud_sandboxes_sdk/_relay_admission.py:74-84 | available plus granted-but-unclaimed permits are unchanged by draining |
| RelayAdmission.AbandonKeepsInv | src/ucloud_sandboxes_sdk/_relay_admission.py:63-68 | a stop or cancellation that races with a grant loses no permit |
| RelayAdmission.StepKeepsInv | src/ucloud_sandboxes_sdk/_relay_admission.py:41-84 | every step of every call keeps order, tightness and conservation |
| RelayAdmission.BudgetRuns | src/ucloud_sandboxes_sdk/_relay_admission.py:41-84 | at every moment of every run: available + unclaimed + held = capacity, no permit idles before a queued head, nobody is granted past an earlier arrival that still waits |
| RelayAdmission.GrantedCallClaims | src/ucloud_sandboxes_sdk/_relay_admission.py:47-68 | a granted call that is neither stopped nor interrupted can wake and return its permit to its caller |
| RelayAdmission.ReleaseGrantsTheHead | src/ucloud_sandboxes_sdk/_relay_admission.py:70-84 | a returned permit goes at once to the longest waiting call |
| SyncAdmission.SyncRequestBudget.Look | src/ucloud_sandboxes_sdk/_relay_admission.py:24-33 | one turn of a waiting thread: it takes a permit only as the head, and leaves the queue whenever it returns |
| SyncAdmission.SyncRequestBudget.Release | src/ucloud_sandboxes_sdk/_relay_admission.py:35-38 | a release raises what is available by the permits given back |
| SyncAdmission.SyncBudgetRuns | src/ucloud_sandboxes_sdk/_relay_admission.py:13-38 | over every interleaving of threads permits are conserved and granted strictly in arrival order |
| SyncAdmission.FirstWaiterIsServed | src/ucloud_sandboxes_sdk/_relay_admission.py:20-33 | a free permit is taken by the first waiter's next turn unless it was stopped |
| SyncAdmission.PermitIsHandedOn | src/ucloud_sandboxes_sdk/_relay_admission.py:13-38 | with one permit a second thread can be served when the first gives its permit back |
| LeaseHandler.CommitResponseBytes | src/ucloud_sandboxes_sdk/relay.py:1011-1051 | the result is the answer to the last send; every send before it failed with a retryable relay error; any other end comes at once, or after all attempts |
| LeaseHandler.StepKeepsInv | src/ucloud_sandboxes_sdk/relay.py:1624-1742 | every step of the handler or its renewer keeps the bookkeeping of receipts and failures |
| LeaseHandler.HandlerRuns | src/ucloud_sandboxes_sdk/relay.py:1624-1679 | over every interleaving: a normal return has a receipt, a handler or commit failure is the one raised, a renewal failure surfaces only after a commit and never for a retryable or already-completed answer |
| LeaseHandler.RetryRule | src/ucloud_sandboxes_sdk/relay.py:1836-1843 | seven statuses are final whatever the error says; otherwise its own flag decides, and without one its status, an error without a status being retryable |
| LeaseHandler.RequestIsServed | src/ucloud_sandboxes_sdk/relay.py:1624-1742 | a run exists in which a request is handled, its lease renewed meanwhile, its result committed, and the handler returns with a receipt |
| LeaseHandler.FailureMoves | src/ucloud_sandboxes_sdk/relay.py:1645-1670 | an ordinary exception is committed as an error answer; any other failure, and any failure of that commit, stops and cancels the renewer and is kept; a commit that returns stops the renewer and has a receipt |
| LeaseHandler.RenewalMoves | src/ucloud_sandboxes_sdk/relay.py:1733-1742 | a retryable renewal error is waited out and any other ends the renewer with it |
| LeaseHandler.RenewalFailureSurfaces | src/ucloud_sandboxes_sdk/relay.py:1671-1679 | after a commit a renewal error is raised unless it says that the request is already completed |
| LeaseHandler.CancellationMoves | src/ucloud_sandboxes_sdk/relay.py:1665-1674 | a cancellation of the cleanup replaces its outcome, after the renewer it kills has died if it still ran |
| LeaseHandler.StoppedRenewerEnds | src/ucloud_sandboxes_sdk/relay.py:1733-1742 | once stopped, a waiting renewer renews no more |
| RelayWorkers.ReleaseAlwaysAllowed | src/ucloud_sandboxes_sdk/relay.py:1506-1572 | no path releases a permit that was not held |
| RelayWorkers.StepKeepsInv | src/ucloud_sandboxes_sdk/relay.py:1428-1572 | every step of every worker, handler and callback keeps permits and leases accounted for |
| RelayWorkers.WorkersConservePermits | src/ucloud_sandboxes_sdk/relay.py:1506-1572 | available, unclaimed, reserved and unsettled permits add up to the capacity; polls plus running handlers never exceed it; no worker exceeds its own limit |
| RelayWorkers.WorkersReturnEveryPermit | src/ucloud_sandboxes_sdk/relay.py:1428-1482 | once workers have ended and callbacks have run, the whole capacity is available |
| RelayWorkers.ReturnedWorkerHasReceipts | src/ucloud_sandboxes_sdk/relay.py:1485-1572 | a worker that returns normally has a completion receipt for every request its polls leased |
| RelayWorkers.GatheringWorkerReturns | src/ucloud_sandboxes_sdk/relay.py:1563-1564 | in every state a gathering worker whose tasks all returned can return, with everything it leased |
| RelayWorkers.StoppedWorkerReturns | src/ucloud_sandboxes_sdk/relay.py:1508-1564 | a worker at its loop head that sees the stop event waits for its tasks and returns when they returned |
| RelayWorkers.StoppedAcquireGathers | src/ucloud_sandboxes_sdk/relay.py:1518-1564 | a worker stopped while it waits for a permit goes on to wait for its tasks |
| RelayWorkers.InterruptedAcquireFails | src/ucloud_sandboxes_sdk/relay.py:1518-1572 | a worker interrupted while it waits for a permit fails |
| RelayWorkers.ReapedTasks | src/ucloud_sandboxes_sdk/relay.py:1509-1512 | a task that returned is forgotten and one that failed makes the worker fail |
| RelayWorkers.PollErrors | src/ucloud_sandboxes_sdk/relay.py:1533-1542 | a failed poll leads back to the loop head or, when final, to failure, and keeps no permit either way |
| RelayWorkers.FailuresSurface | src/ucloud_sandboxes_sdk/relay.py:1543-1572 | a cancellation, a task that cannot be created and an oversized answer make the worker fail, and a failing worker raises |
| RelayWorkers.OneRequestIsServed | src/ucloud_sandboxes_sdk/relay.py:1485-1572 | a run exists from an idle worker to one that leased a request, has its receipt, returned and gave its permit back |
| BuildContext.JobStep | src/ucloud_sandboxes_sdk/client.py:4093-4133 | each step of one preparation moves a permit between it and the semaphore or leaves both alone |
| BuildContext.AdmissionRuns | src/ucloud_sandboxes_sdk/client.py:4052-4133 | every permit is in the semaphore or with one job, at most two preparations are unfinished, no archive is closed twice or while in use |
| BuildContext.SettledJobs | src/ucloud_sandboxes_sdk/client.py:4065-4133 | a settled job closed its archive exactly once if it packed one, and gave its permit back unless the loop was closed |
| BuildContext.SettledLoopIsIdle | src/ucloud_sandboxes_sdk/client.py:4052-4133 | settled jobs leave an open loop's semaphore as it was created |
| BuildContext.ContextIsUsed | src/ucloud_sandboxes_sdk/client.py:4065-4133 | whenever a permit is free a new caller can have its context packed, use the archive, close it once, and leave the semaphore as it was |
| BuildContext.AbandonedContextIsClosed | src/ucloud_sandboxes_sdk/client.py:4093-4133 | a caller that gives up while its context is packed leaves the archive to a callback that closes it once, and the permit comes back |
| BuildContext.EarlyGiveUps | src/ucloud_sandboxes_sdk/client.py:4065-4105 | queued work is withdrawn, and a caller that gives up before submitting keeps no permit |
| BuildContext.LoopOpensAndCloses | src/ucloud_sandboxes_sdk/client.py:4052-4120 | a loop starts with two free permits; a preparation that finishes after it was closed cannot give its permit back |
| ConnectionPool.Pool.Take | src/ucloud_sandboxes_sdk/_http.py:66-76 | the most recently returned usable connection; unusable ones above it are closed, other origins are untouched |
| ConnectionPool.Pool.Give | src/ucloud_sandboxes_sdk/_http.py:78-84 | the connection joins its own origin's list or, when that is full, is closed |
| ConnectionPool.Pool.OpenReusing | src/ucloud_sandboxes_sdk/_http.py:153-209 | the usable idle connections are tried newest first and then a fresh one; only a GET or HEAD is written again, and only after a write that failed before a response; such a failure reaches the caller only from the fresh connection, and exactly the unusable and the failed connections are closed |
| ConnectionPool.StaleConnsAreSkipped | src/ucloud_sandboxes_sdk/_http.py:153-209 | a read over stale idle connections returns what the fresh connection's write meets |
| ConnectionPool.Pool.UsableWereIdle | src/ucloud_sandboxes_sdk/_http.py:66-76 | the connections tried before the fresh one were idle and usable |
| ConnectionPool.ReadBody | src/ucloud_sandboxes_sdk/_http.py:237-252 | the whole body exactly when neither its announced nor its real length exceeds the limit, holding as many bytes as `Held` says |
| ConnectionPool.HeldIsBounded | src/ucloud_sandboxes_sdk/_http.py:240-252 | a reader never holds more than one byte beyond the limit, and holds a body that fits whole |
| ConnectionPool.StepKeepsInv | src/ucloud_sandboxes_sdk/_http.py:48-209 | every step of every thread keeps ownership linear |
| ConnectionPool.PoolRuns | src/ucloud_sandboxes_sdk/_http.py:48-209 | a connection is listed once under its own origin exactly when idle, and idle only when clean; a response owns exactly the connection inside it; no list exceeds the limit |
| ConnectionPool.ClosedIsFinal | src/ucloud_sandboxes_sdk/_http.py:66-84 | a closed connection is never handed out again |
| ConnectionPool.CloseAgain | src/ucloud_sandboxes_sdk/_http.py:135-144 | closing a response again changes nothing, at once or later |
| ConnectionPool.FullyReadIsReused | src/ucloud_sandboxes_sdk/_http.py:135-144 | reading a response to its end and closing it puts its connection on its origin's list, from where the next request takes it |
| ConnectionPool.OtherConnsAreClosed | src/ucloud_sandboxes_sdk/_http.py:135-209 | a response closed early or by its server, a failed request, a full list and an unusable idle connection each close the connection |
| ConnectionPool.RequestsAndResponses | src/ucloud_sandboxes_sdk/_http.py:172-209 | a new connection carries a request or is closed, and an answered request hands its connection to its response |
| RequestRetry.RequestJson | src/ucloud_sandboxes_sdk/client.py:2208-2260 | the trailing assertion is unreachable; each attempt begins when the pause before it is over, and before the deadline; no pause is begun that would reach it; the loop ends only as its last answer, the clock and the deadline say |
| RequestRetry.RequestHasOneRun | src/ucloud_sandboxes_sdk/client.py:2208-2260 | what the attempts meet decides the outcome and when each attempt and pause was |
| RequestRetry.PauseBounds | src/ucloud_sandboxes_sdk/client.py:5056-5083 | a retry pause is never negative and never longer than a minute |
| RequestRetry.AttemptLimits | src/ucloud_sandboxes_sdk/client.py:4885-5040 | ordinary errors stop within six attempts and connect failures within five, on one counter; only fences, the stable create and idempotent deletes go on |
| RequestRetry.RepeatedAnswers | src/ucloud_sandboxes_sdk/client.py:4926-5040 | exactly the HTTP answers that are listed code by code, verb by verb and path by path are followed by another attempt, within six attempts where the deadline is not the only bound |
| RequestRetry.RepeatedConnects | src/ucloud_sandboxes_sdk/client.py:4875-4888 | a failed connect is repeated up to five attempts, with the stated pauses; a success or any other break is the last attempt |
| RequestRetry.AnswerPauses | src/ucloud_sandboxes_sdk/client.py:5056-5083 | the pause after an HTTP answer is Retry-After drawn out by at most a quarter, or doubles from a quarter of a second up to four, for a sandbox creation thirty |
| RequestRetry.GivenUpForCause | src/ucloud_sandboxes_sdk/client.py:2208-2260 | a request is given up after an answer worth repeating only when its six attempts are used up or the pause would reach the deadline |
| RequestRetry.AnsweredForCause | src/ucloud_sandboxes_sdk/client.py:2208-2260 | a request is answered exactly by a success status whose body could be read |
| RequestRetry.SandboxDeleteMeaning | src/ucloud_sandboxes_sdk/client.py:4944-4949 | a sandbox delete is a DELETE of one sandbox's path, with any query after it |
| RequestRetry.RepeatableOperations | src/ucloud_sandboxes_sdk/client.py:4942-4953 | the operations that may be repeated whatever became of an earlier attempt, by verb and path |
| RequestRetry.RetriedTurnRanNothing | src/ucloud_sandboxes_sdk/client.py:4926-5040 | a retried attempt at a non-repeatable operation ran nothing, exactly when fences and unreachable writes meant what the client trusts them to mean |
| RequestRetry.RetriedTurnMayRun | src/ucloud_sandboxes_sdk/client.py:4926-5040 | with honest fences, a retried attempt may have run the operation exactly when it shows as a write that failed as unreachable |
| RequestRetry.RunsAtMost | src/ucloud_sandboxes_sdk/client.py:4926-5040 | no behaviour of the server that looks the same to the client runs the operation more often than there are attempts that may have run it |
| RequestRetry.WorstIsPossible | src/ucloud_sandboxes_sdk/client.py:4926-5040 | some behaviour that looks the same runs it in every attempt that may have |
| RequestRetry.WhatWasSeenDecides | src/ucloud_sandboxes_sdk/client.py:2208-2260 | what the client saw of a request rules out a second run exactly when at most one attempt may have run, as when no retried attempt shows an unreachable write |
| RequestRetry.AtMostOneEffect | src/ucloud_sandboxes_sdk/client.py:4926-5040 | however many attempts follow each other, only the last can have run such an operation |
| RequestRetry.RequestRunsAtMostOnce | src/ucloud_sandboxes_sdk/client.py:2208-2260 | one request composed with the pool's own resend runs a non-repeatable operation at most once, and not at all when no attempt ended it |
| RequestRetry.UnreachableWriteIsRepeated | src/ucloud_sandboxes_sdk/client.py:2252-2258 | a write that ran but failed as unreachable is repeated |
| JobFollow.Follow | src/ucloud_sandboxes_sdk/client.py:1515-1548 | every read but the last lets the follower go on, its chunks are yielded in order, and the last read is the one that ends it; truncation comes before the current chunk |
| JobFollow.FollowHasOneRun | src/ucloud_sandboxes_sdk/client.py:1515-1548 | the answers decide how a follower ends, after how many reads, and what it yields |
| JobFollow.FollowYieldsTheLog | src/ucloud_sandboxes_sdk/client.py:1515-1548 | from one append-only log, what is yielded is the log from the start offset on at every moment, and a normal end has yielded all of it |
| JobFollow.EndsForCause | src/ucloud_sandboxes_sdk/client.py:4033-4049 | the first read whose record shows truncation, or the end of the job and of its stream, is the last, and ends the follow accordingly; nothing else ends it |
| JobFollow.DelayMeaning | src/ucloud_sandboxes_sdk/client.py:3980-4049 | what a read makes a follower do: stop, raise, or pause as Retry-After says, for the polling pause after an early answer without news, or not at all |
| JobFollow.FollowNeverSpins | src/ucloud_sandboxes_sdk/client.py:3987-4049 | whatever the server answers, the unparked reads that did not end a follow are at most the bytes they brought plus the time that passed, in quanta |
| JobFollow.ReadCost | src/ucloud_sandboxes_sdk/client.py:3987-4049 | a read that is neither final nor parked brought a byte, was held for half the wait, or is followed by the polling pause |
| JobFollow.StopIsTheEnd | src/ucloud_sandboxes_sdk/client.py:4035-4041 | the read that ends a follow has reached the end of the stream |
| JobFollow.EchoIsTrusted | src/ucloud_sandboxes_sdk/client.py:709-740 | a run of the follower over an answer at another offset ends normally with bytes that are not the log's |
| JobFollow.Wait | src/ucloud_sandboxes_sdk/client.py:1444-1479 | only the last record is terminal; every read follows the pause the one before it asked for, cut at the deadline; a timeout is never early |
| JobFollow.IdleReadsCostTime | src/ucloud_sandboxes_sdk/client.py:1454-1479 | up to every read, the idle reads so far cost a quantum of time each |
| JobFollow.WaitNeverSpins | src/ucloud_sandboxes_sdk/client.py:1454-1479 | the reads without news that the deadline did not shorten are at most the time that passed, in quanta |
| JobFollow.StatusPauses | src/ucloud_sandboxes_sdk/client.py:4018-4028 | the pause after a status read of a running job |
| JobFollow.WaitsFitTheDeadline | src/ucloud_sandboxes_sdk/client.py:1454-1479 | every pause of a wait is the one its answer asks for, or ends exactly at the deadline |
| ExecDrain.ExecState.TakeInitial | src/ucloud_sandboxes_sdk/client.py:1246-1249 | the initial page is consumed once |
| ExecDrain.ExecState.AcceptEvents | src/ucloud_sandboxes_sdk/client.py:1256-1266 | a page is accepted exactly when its events go on without a gap; a refused one leaves the counter at the first event that did not fit, and the error says what was expected and what came |
| ExecDrain.ExecState.Round | src/ucloud_sandboxes_sdk/client.py:1383-1395 | one round of either loop accepts the next page or ends for a stated reason |
| ExecDrain.ExecState.Wait | src/ucloud_sandboxes_sdk/client.py:1397-1430 | whatever pages arrive, the events are those of the accepted pages, numbered without gap or repeat; the loop reads on exactly until a page drains the session, does not fit, or comes too late; the result has what was written to each stream |
| ExecDrain.ExecState.Events | src/ucloud_sandboxes_sdk/client.py:1375-1395 | the iterator yields the same events as waiting does |
| ExecDrain.OutputOfConcat | src/ucloud_sandboxes_sdk/client.py:5176-5201 | a stream's output is assembled page by page |
| ExecDrain.OutputIsWritten | src/ucloud_sandboxes_sdk/client.py:5181-5190 | a reader sees the data of all events of its stream, in order, and nothing else |
| ExecDrain.OutputOfStreams | src/ucloud_sandboxes_sdk/client.py:5181-5190 | events of one stream alone give all their data, events of other streams change nothing, a stream without events is empty |
| ExecDrain.SlicesAddUp | src/ucloud_sandboxes_sdk/client.py:1375-1430 | slices of one history add up to a stretch of it |
| ExecDrain.DrainsTheHistory | src/ucloud_sandboxes_sdk/client.py:1270-1430 | slices of one history are never refused, and draining against its final sequence returns all of it, each reader seeing what was written to its stream |
| ExecDrain.StopRule | src/ucloud_sandboxes_sdk/client.py:1270-1279 | a drained loop saw the session end and read up to its final sequence or, without one, until a page brought nothing; no earlier page showed as much |
| ExecDrain.EmptyPageConfirms | src/ucloud_sandboxes_sdk/client.py:1276-1279 | a server that names no final sequence but answers an ended session with no events only when none are left is drained completely |
| ExecDrain.LatestSession | src/ucloud_sandboxes_sdk/client.py:1251-1254 | the session is the latest one that a page brought |
| ExecDrain.MisfitMeaning | src/ucloud_sandboxes_sdk/client.py:5155-5173 | a page has no misfit exactly when its events are numbered on without a gap |
| ExecDrain.ProgressDrains | src/ucloud_sandboxes_sdk/client.py:1270-1430 | whenever the exit becomes known, before the loop or on the way: when the pages from then on bring events while any are missing, the loop stops within one page per missing event and ends drained unless its deadline comes first |
| FileArchive.NameFiles | src/ucloud_sandboxes_sdk/client.py:4664-4694 | naming succeeds exactly when every path denotes a member and no two the same one |
| FileArchive.FindParent | src/ucloud_sandboxes_sdk/client.py:4697-4705 | finds a parent directory exactly when some name is a directory prefix of another |
| FileArchive.FileArchive | src/ucloud_sandboxes_sdk/client.py:4650-4705 | accepts exactly the acceptable input, with its canonical archive, and names a true reason otherwise |
| FileArchive.MemberPathMeaning | src/ucloud_sandboxes_sdk/client.py:4670-4683 | a path denotes a member exactly when it is clean and names a file strictly below the base directory, and the base and the member are that file's place |
| FileArchive.MemberPathErrors | src/ucloud_sandboxes_sdk/client.py:4670-4683 | the error for each way in which a path can fail |
| FileArchive.AcceptanceRule | src/ucloud_sandboxes_sdk/client.py:4650-4705 | acceptance without member names: the limits, an absolute clean base, files below it, and no file's place at or above another's |
| FileArchive.UploadWritesEachFile | src/ucloud_sandboxes_sdk/client.py:4650-4705 | an upload that succeeds leaves each file, with its data, at the place its own path names, and every other file as it was |
| FileArchive.AcceptedIsCanonical | src/ucloud_sandboxes_sdk/client.py:4650-4705 | members are strictly sorted, made of proper components, none a directory of another, and are the caller's files, each once |
| FileArchive.ContainerPathParts | src/ucloud_sandboxes_sdk/client.py:4616-4617 | a member's absolute path denotes the base directory followed by the member |
| FileArchive.MemberDenotesItself | src/ucloud_sandboxes_sdk/client.py:4675-4683 | a member's own name, relative or absolute, denotes that member again |
| FileArchive.ResubmissionIsIdempotent | src/ucloud_sandboxes_sdk/client.py:4650-4705 | submitting an archive's members again, in any mix of spellings, gives the same archive |
| FileArchive.ExtractionMatchesFallback | src/ucloud_sandboxes_sdk/client.py:1745-1764 | extracting in any order builds on any tree what the per-file fallback builds, and fails exactly when it fails |
| ContainerPaths.CleanParts | src/ucloud_sandboxes_sdk/client.py:4708-4714 | whatever spelling is accepted, its parts are proper components |
| ContainerPaths.CleanMeaning | src/ucloud_sandboxes_sdk/client.py:4708-4714 | a path is clean when it has neither a control code nor a ".." between its slashes |
| ContainerPaths.PartsOfOne | src/ucloud_sandboxes_sdk/client.py:4711 | a component is a part unless it is empty or a single dot |
| ContainerPaths.ComponentsRoundTrip | src/ucloud_sandboxes_sdk/client.py:4708-4714 | joining components and splitting them again is the identity |
| ContainerPaths.PartsUnder | src/ucloud_sandboxes_sdk/client.py:4616-4617 | putting one path under another appends its parts |
| FileTree.WritesAddUp | src/ucloud_sandboxes_sdk/client.py:1759-1760 | independent writes succeed exactly when each alone would, with a closed form of their effect |
| FileTree.WriteFileMeaning | src/ucloud_sandboxes_sdk/client.py:1759-1760 | a file can be written unless it stands in for a directory or a file stands on the way to it, and then exactly the directories on the way are added |
| FileTree.OrderIsIrrelevant | src/ucloud_sandboxes_sdk/client.py:1759-1760 | the order of independent writes matters neither for the tree nor for failure |
| SortedNames.SortSorts | src/ucloud_sandboxes_sdk/client.py:4702 | sorting distinct names gives the same names in strictly increasing order |
| SortedNames.LessMeaning | src/ucloud_sandboxes_sdk/client.py:4702 | a proper prefix comes first, otherwise the first difference decides |
| SortedNames.SortIgnoresOrder | src/ucloud_sandboxes_sdk/integrations/inspect.py:592-645 | the sorted list does not depend on the order in which names come |
| Fingerprint.Digest.HashText | src/ucloud_sandboxes_sdk/integrations/inspect.py:654-657 | feeds each text followed by NUL |
| Fingerprint.Digest.FeedFile | src/ucloud_sandboxes_sdk/integrations/inspect.py:592-645 | reading in chunks feeds exactly the content and a NUL |
| Fingerprint.Digest.HashEntry | src/ucloud_sandboxes_sdk/integrations/inspect.py:592-645 | each kind of entry feeds its encoding |
| Fingerprint.BuildContextFingerprint | src/ucloud_sandboxes_sdk/integrations/inspect.py:592-645 | the digest is fed the encoding of the header and of the sorted entries, or of the missing context |
| Fingerprint.EntryRoundTrip | src/ucloud_sandboxes_sdk/integrations/inspect.py:592-657 | one entry followed by anything decodes to that entry and the rest |
| Fingerprint.StreamRoundTrip | src/ucloud_sandboxes_sdk/integrations/inspect.py:592-657 | the stream decodes to its header and context exactly when sizes are true and texts are free of NUL |
| Fingerprint.StreamIsInjective | src/ucloud_sandboxes_sdk/integrations/inspect.py:592-657 | different headers or entry lists give different streams |
| Fingerprint.StreamDeterminesContext | src/ucloud_sandboxes_sdk/integrations/inspect.py:592-657 | two contexts feed the same bytes exactly when headers and entries agree, in whatever order they are enumerated |
| Fingerprint.GrownFileIsAmbiguous | src/ucloud_sandboxes_sdk/integrations/inspect.py:592-645 | content that grew after its size was written imitates a further entry |
| ProcessStdin.AsyncProcessStdin.Write | src/ucloud_sandboxes_sdk/client.py:2540-2590 | bytes are appended unless the stream is closing |
| ProcessStdin.AsyncProcessStdin.BeginDrain | src/ucloud_sandboxes_sdk/client.py:2540-2590 | the lock holder takes the whole buffer as its batch |
| ProcessStdin.AsyncProcessStdin.EndDrain | src/ucloud_sandboxes_sdk/client.py:2540-2590 | a failed send puts its batch back in front of later bytes, a cancelled one does not |
| ProcessStdin.StdinRuns | src/ucloud_sandboxes_sdk/client.py:2540-2590 | over every run the batches sent, the one on its way and the buffer are every byte written, in order; the delivered bytes take the batches' place exactly when no batch was lost |
| ProcessStdin.EndOfInputIsLast | src/ucloud_sandboxes_sdk/client.py:2540-2590 | end-of-input goes out only when nothing is left to send, and after everything was delivered exactly when no batch was lost |
| ProcessStdin.CloseSendsTheRest | src/ucloud_sandboxes_sdk/client.py:2572-2590 | closing an input that nobody is sending from can deliver what is buffered as one last batch and then end-of-input |
| ProcessStdin.FailedBatchIsRepeated | src/ucloud_sandboxes_sdk/client.py:2558-2570 | a batch whose send failed can be sent again, with later bytes behind it |
| ProcessStdin.OnlyCancellationLoses | src/ucloud_sandboxes_sdk/client.py:2564-2568 | a batch is lost by a send cancelled before it arrives and by nothing else |
| ProcessStdin.CancelledSendLosesItsBatch | src/ucloud_sandboxes_sdk/client.py:2558-2568 | write, drain, and cancel the drain's request: the bytes are gone |
| GroupCreate.SandboxGroupCreate.Accept | src/ucloud_sandboxes_sdk/client.py:864-872 | keeps the last record any answer gave for each member |
| GroupCreate.SandboxGroupCreate.RetryDelay | src/ucloud_sandboxes_sdk/client.py:876-902 | the identical request is repeated only when the answer asks for it and the pause ends before the deadline |
| GroupCreate.SandboxGroupCreate.Handles | src/ucloud_sandboxes_sdk/client.py:912-922 | a handle per member that was not deleted, in member order, with its last record; an error when a member is not placed |
| GroupCreate.Create | src/ucloud_sandboxes_sdk/client.py:1667-1690 | one payload is repeated, only when the answer asks for it and its pause fits the deadline; success only when every member is placed or deleted; the last answer or the clock decides every other end |
| GroupCreate.AcceptedAnswerEnds | src/ucloud_sandboxes_sdk/client.py:1667-1690 | an accepted answer ends the create, with a handle for exactly the members that were not deleted, in order, or with the group as it is when a member is unplaced |
| GroupCreate.OtherAnswersEnd | src/ucloud_sandboxes_sdk/client.py:876-910 | the error of each other end, by status, payload and deadline |
| GroupCreate.RequestsAreInTime | src/ucloud_sandboxes_sdk/client.py:1667-1690 | every request of a create is sent before the deadline, after the pause that the answer before it asked for |
| GroupCreate.AsksMeaning | src/ucloud_sandboxes_sdk/client.py:888-892 | which refusals ask for a repeat, by status and body |
| GroupCreate.StatusIsCarried | src/ucloud_sandboxes_sdk/client.py:836-922 | after an answer that gave member statuses, a failed create's error carries the latest exactly when the last request did not break, its answer is parsable and not an unavailability, and the deadline did not pass during the sleep |
| GroupCreate.LastRecordMeaning | src/ucloud_sandboxes_sdk/client.py:864-872 | the record of a handle was given, and no later answer gave another |
| GroupCreate.LastToldMeaning | src/ucloud_sandboxes_sdk/client.py:904-910 | a latest status is known exactly when some answer gave one |
| GroupCreate.UnparsableAnswerHidesTheGroup | src/ucloud_sandboxes_sdk/client.py:779-833 | every create whose second answer cannot be parsed ends with an error without the status that the first gave |
| GroupCreate.LateWakeHidesTheGroup | src/ucloud_sandboxes_sdk/client.py:876-902 | so does every create whose sleep overshoots the deadline |
| GroupCreate.BrokenRequestHidesTheGroup | src/ucloud_sandboxes_sdk/client.py:2210-2258 | and every create whose next request ends in an exception that is no API error |
| ImageWait.EnsureImages | src/ucloud_sandboxes_sdk/client.py:2049-2066 | the batches of the de-duplicated names are asked for in order until one fails, and the result is the merge of their answers |
| ImageWait.BatchesPartition | src/ucloud_sandboxes_sdk/client.py:2060-2065 | the batches follow the names in order, none empty, none over a thousand; without a failed request they are all of them |
| ImageWait.WaitForImages | src/ucloud_sandboxes_sdk/client.py:2068-2098 | each round asks exactly for what is not settled, and settles what the answers to it say; the first round that fails fatally, settles enough names or is late ends the wait |
| ImageWait.SettledOnlyGrows | src/ucloud_sandboxes_sdk/client.py:2082-2092 | from a gateway that answers only for the names asked, what is settled only grows, never changes, and is about requested names |
| ImageWait.WaitCoversTheNames | src/ucloud_sandboxes_sdk/client.py:2068-2098 | then a normal end has exactly the requested names, each settled, a timeout really leaves one unsettled, and no name goes missing |
| ImageWait.PromptGatewayIsEnough | src/ucloud_sandboxes_sdk/client.py:2068-2098 | from a gateway with a settled status for all names asked, every wait for valid names ends normally in its first round |
| ImageWait.SettledWasGiven | src/ucloud_sandboxes_sdk/client.py:2082-2092 | every settled status is one that the gateway gave to a request of this wait |
| ImageWait.SettledIsNeverAsked | src/ucloud_sandboxes_sdk/client.py:2082-2092 | a settled name is never asked for again |
| ImageWait.BadNamesAreRejected | src/ucloud_sandboxes_sdk/client.py:4177-4183 | no names, or an empty one among them, are refused before anything is asked |
| ImageWait.DedupeKeepsNames | src/ucloud_sandboxes_sdk/client.py:4177-4183 | de-duplication keeps every name once |
| ImageWait.DedupeKeepsOrder | src/ucloud_sandboxes_sdk/client.py:4177-4183 | a name stays where it first stood |
| ImageWait.CountIsRight | src/ucloud_sandboxes_sdk/client.py:2093-2094 | equal counts mean that every name is settled exactly when nothing but requested names is |
| ImageWait.CountDecides | src/ucloud_sandboxes_sdk/client.py:2081-2094 | a wait that reaches the count or has nothing left to ask for ends normally exactly when nothing but requested names was settled |
| ImageWait.StrangersFoolTheCount | src/ucloud_sandboxes_sdk/client.py:2093-2094 | from a gateway that answers for another name, every wait for one name ends with that name missing |
| ImageWait.CompanyFoolsTheCount | src/ucloud_sandboxes_sdk/client.py:2081-2094 | from a gateway that answers for the name and another, every wait for one name without a deadline ends with a rejected request |
| BuildWait.ImageBuildWait.RetryDelay | src/ucloud_sandboxes_sdk/client.py:1312-1330 | retries only failed observations, without a deadline only six in a row, with a growing pause that is cut at the deadline |
| BuildWait.WaitForImageBuild | src/ucloud_sandboxes_sdk/client.py:1984-2008 | every pause begins when its poll was answered, is the one that poll asks for, and the wait ends only with a terminal build, a final error, too many failures in a row, or the deadline |
| BuildWait.NoPausePassesTheDeadline | src/ucloud_sandboxes_sdk/client.py:1322-1338 | no pause of any wait is negative or passes the deadline, and only the deadline makes one shorter than a tenth of a second |
| BuildWait.SixFailuresInARow | src/ucloud_sandboxes_sdk/client.py:1319-1321 | without a deadline every seven polls in a row that were followed by a pause include one that succeeded |
| BuildWait.RepeatedPolls | src/ucloud_sandboxes_sdk/client.py:1310-1318 | which failed polls are repeated, by status, cause and flag |
| BuildWait.GivenUpForCause | src/ucloud_sandboxes_sdk/client.py:1310-1321 | a failed poll ends the wait only when it is not one to repeat or, without a deadline, the seventh in a row |
| BuildWait.FailurePauses | src/ucloud_sandboxes_sdk/client.py:1319-1327 | the pause after failures doubles up to five seconds, is no shorter than Retry-After, and is drawn out by at most a fifth |
| BuildWait.PausesAreDue | src/ucloud_sandboxes_sdk/client.py:1327-1335 | every pause is the one due after its poll, or ends exactly at the deadline |
| BuildWait.TimedOutForCause | src/ucloud_sandboxes_sdk/client.py:1337-1341 | a wait times out only at its deadline or after it, and sends and sleeps only before |
| BuildRecovery.Recover | src/ucloud_sandboxes_sdk/integrations/inspect.py:1066-1103 | the first status that fits the attempt, the first unexpected error, or neither |
| BuildRecovery.Submit | src/ucloud_sandboxes_sdk/integrations/inspect.py:1003-1063 | a returned build is an active one, the direct answer, or the one recovered for its attempt; another attempt follows only a retryable or lost answer without a recovery; every other end has its stated cause |
| BuildRecovery.RunningBuildIsJoined | src/ucloud_sandboxes_sdk/integrations/inspect.py:958-1025 | the first attempt whose listing shows a running build of the image and tag returns such a build |
| BuildRecovery.ReturnedBuildFits | src/ucloud_sandboxes_sdk/integrations/inspect.py:1003-1165 | what every returned build is: listed and running, the direct answer, or shown after its submission, of the image and tag, and not among the listed ones when it has ended |
| BuildRecovery.RaisedForCause | src/ucloud_sandboxes_sdk/integrations/inspect.py:1032-1103 | a submission is given up only for a final refusal or an unexpected error after a lost answer |
| BuildRecovery.RecoveryEndsTheSubmission | src/ucloud_sandboxes_sdk/integrations/inspect.py:1036-1063 | an attempt whose lost answer is recovered, or whose recovery fails, is the last |
| BuildRecovery.RecoveryRule | src/ucloud_sandboxes_sdk/integrations/inspect.py:1066-1165 | after an exact listing, a recovery succeeds exactly when some status read, before any unexpected error, shows a build of the spec that is running or did not exist before the attempt, and with such a build |
| BuildRecovery.RecoveredTerminalBuildIsNew | src/ucloud_sandboxes_sdk/integrations/inspect.py:1122-1165 | over a whole submission, a terminal build returned as recovered did not exist before its attempt, nor did another of its id |
| BuildRecovery.NoListingNoTerminalRecovery | src/ucloud_sandboxes_sdk/integrations/inspect.py:1145-1165 | without a listing no terminal build is returned as recovered |

## Left out

- Sockets, TLS, proxies and the urllib and aiohttp internals: only the outcome of a connect, a write and a read is modelled.
- tar, gzip, SHA-256, JSON and base64: the proofs stop at the bytes fed to a digest and at decoded payloads.
- Endless environments: a loop that the source can run for ever receives a finite script of answers and ends with an outcome such as `Unfinished` or `PagesUsedUp` when the script does.
- Retry-After as a date, and how jitter is drawn: an optional number from 0 to 60 and an arbitrary number from 0 to 1.
- The transport-state checks of relay requests (`_completion_receipt`, `_renewed_request`): an answer either yields a receipt or fails.
- The threaded twin of the lease handler, and the asynchronous twins of the client's loops: each pair has one model. The worker model covers both loops; only the budget is modelled for threads and for tasks.
- How the sandbox orders file names that are not plain text: names are ordered by code point, and the encoding of undecodable file names into bytes is not modelled.
- A link that cannot be read: it is a link to the placeholder target that the source writes, and so equals a link that literally has that target.
- Argument type errors of `upload_files` and `write`: inputs have their declared types.
- The compressed-size limit of an archive and the acknowledgement of its upload: only the uncompressed limit decides acceptance here.
- Progress and status callbacks: they see what the model's results show and change nothing.
- Which of several active builds is newest: an arbitrary choice among them.
- Request bodies, headers, URL quoting, sandbox specifications, network policies and the Inspect environment's plumbing: field copying with easy claims.
- LeaseHandler.HandlerRuns: a cancellation that arrives while the failed or committed handler waits for its renewer replaces the outcome, because the source lets it; such runs are marked and excluded from the claim about which failure is raised.
- RequestRetry.RequestJson: a body that cannot be rewound is not modelled; every attempt sends the same bytes.
