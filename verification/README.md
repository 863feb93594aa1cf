# Verification model of the comm layer

A Dafny model of the asynchronous machinery of the `comm` layer, the consumer watchdog
of `bus/liveness.py`, the strict-schema transform and Accept-Language resolution, with
proofs of what they promise together.  `dafny verify dfyconfig.toml` checks everything.

Each part has the same build.  The state is a datatype, one operation is a function from
state to state, and a class or a method written the way the source is written (fields
reassigned, loops, early returns) is proved to do exactly what that function says.  The
promises are then lemmas over every input or over every run of operations in any order.

| file | what it models |
| ---- | -------------- |
| `Tasks.dfy` | task rows: start with a dedupe key, the claim, the five handler endings, requeue, park, crash |
| `Sweeps.dfy` | the deadline sweep beside them |
| `Checkpoints.dfy` | the checkpoint ledger of a task and the handler that resumes from it |
| `Retries.dfy` | the same while the store keeps what it is given: what requeues, crashes and lost writes cannot do |
| `Overflow.dfy`, `References.dfy` | object keys, references, replies and checkpoints that travel by reference |
| `Codecs.dfy` | an encoding of JSON that meets the laws the other files ask of one |
| `Recovery.dfy` | named calls over an at-most-once transport and the shelf of finished replies |
| `Attempts.dfy` | what such a call makes of the attempt of a task |
| `Outbox.dfy`, `OutboxMeaning.dfy` | `emit` and `mutate_and_emit` under nested atomic blocks, and what programs of them commit |
| `Delivery.dfy` | the fan-out of an event, `claim_once`, acknowledgement |
| `Projections.dfy`, `ProjectionRuns.dfy` | the idempotent upsert, paged rebuild, and whole runs against the owner |
| `Liveness.dfy` | the consumer watchdog |
| `SchemaStrict.dfy`, `SchemaMeaning.dfy`, `SchemaWalk.dfy` | the transform, its meaning for instances, the walk in place |
| `SchemaSharing.dfy` | the walk on a schema in which one dict stands in several places |
| `Language.dfy`, `Text.dfy` | Accept-Language parsing and resolution |
| `Backoff.dfy` | the retry ladder |
| `Common.dfy` | `Option`, `Result`, JSON values |

What the outside world decides is a parameter or a step: clock readings and random draws,
whether a store or a row write goes through, what a provider answers, when a worker
dies, which message is lost, repeated or late.  JSON text, sha256 and `str()` are the
functions of a `Codec`.  Where a lemma needs a value to come back from its own text it asks
that of the codec (`Overflow.RoundTrips`, `Overflow.Lawful`), and where it needs digests to
be hexadecimal it says so (`Overflow.HexDigests`); `Codecs.LawsCanBeMet` gives a codec that
has both, for every JSON document.  No digest is taken to be free of collisions.

Findings that the proofs made precise:

* Requeues, parks, crashes in the handler, revivals and lost row writes are harmless as
  they come, in any number and order: while the store answers and keeps this task's objects
  and no step returns `None`, no recorded step is ever run again (`Retries.NeverRunAgain`),
  what is committed is the result of a run without failures (`Retries.RetriesAreHarmless`),
  and each real run of a step is the one that is kept or was in an attempt that ended before
  the row had it (`Retries.EveryRunIsKeptOrLost`).
* Outside such an environment a retried task still commits the result of a run without
  failures as long as a step is run again only while no later step's checkpoint reads back
  (`Checkpoints.RetriedRefinesFaultFree`).  Whenever it is not so, the task can commit a
  result that no run without failures gives (`Checkpoints.InvokeBelowRecordedMixes`).  Three
  ways there: a step that records `None` (`NoneIsNotACheckpoint`), one failed read of a
  stored checkpoint (`OneFailedReadMixes`), and a worker that dies, or a commit that fails,
  after the finished task's objects were deleted (`CrashInFinishMixes`).
* A parked task stays parked, and every retry the budget allows really happens
  (`Checkpoints.ParkedForGood`, `Tasks.GoesOnExactly`, `Tasks.BudgetsAreReached`); which of
  the two a call's failure leads to is `Attempts.AttemptEndsExactly`.
* A nested block that fails is undone alone, and an outermost one commits exactly when it is
  left cleanly and nothing failed in it outside a savepoint that was rolled back
  (`OutboxMeaning.InnerFailsAlone`, `OutboxMeaning.OutermostCommitsExactly`); the flag, the
  savepoints and the callback list do no more than that (`OutboxMeaning.ProgramCommits`).
* The deadline sweep changes an ended row or gives a row two owners exactly when it writes to
  a row that ended after it was read, or that a worker has
  (`Sweeps.SweepsAreHarmlessExactly`).
* The key sanitiser keeps dots and the key check refuses `..`, so a large checkpoint whose
  object name holds `..` in its first 80 characters is written and never read back
  (`Checkpoints.LargeCheckpointReadableExactly`).
* A call gets only its own answer exactly when the 16 digits kept of the digest tell the
  calls of its task apart (`Recovery.TaskCallsGetTheirOwnExactly`).
* A shelved reply is read more than once exactly when a call reads it between another
  call's read and delete (`Recovery.ConsumedOnceExactly`); calls that follow one another
  cannot.  A provider's frame that the store wrote under another name is reported as
  shelved and never found (`Recovery.DurableShelf.Put`).
* An acknowledged event can be delivered again exactly by a dispatcher that read its row
  before the mark (`Delivery.AnotherDeliveryExactly`, `Delivery.LateDeliveriesAtMost`).
* A running handler is forgotten exactly when a nested one was left and none entered since
  (`Liveness.ForgottenExactly`).
* `q=nan` is not a positive weight, but the entry stays in the list
  (`Language.PositiveOnlyExactly`, `Language.NaNIsListed`).
* The guard that skips the power past attempt 64 jumps straight to the cap
  (`Backoff.CeilingDoubles`).
* A dict that is shared between schemas only is transformed as if it stood in each place on
  its own (`SchemaSharing.ToStrictShared`); one that is `properties` and `items` of the same
  node loses the properties named like a dropped keyword (`SchemaSharing.SharedBothWays`).
* With `oneOf`, a value that was valid can stop being valid after the transform
  (`SchemaMeaning.OneOfCanBreak`).

## Model

| member | source | states |
|---|---|---|
| Tasks.JournalConserved | comm/tasks.py:539-553 | In every reachable state: requested events = 1 + requeues + re-announcements, attempts = requeues + (0 if PENDING else 1), completed = 1 exactly when DONE, failed = 1 exactly when FAILED, and no two active attempts own one row |
| Tasks.RunKeepsInv | comm/tasks.py:848-876 | Every run of starts, workers and crashes keeps all task invariants and never changes a row that is DONE or FAILED, although finish and park write the state without looking at it; with the deadline sweep among the steps it is `Sweeps.SweepsAreHarmlessExactly` |
| Tasks.RetryBudget | comm/tasks.py:810-836 | However the failures interleave: at most max(1, max_attempts + grace) claims, at most max(1, max_attempts) attempts that ended other than with no responder, and a total hold under the ladder |
| Tasks.HoldBound | comm/tasks.py:902-933 | A task requeued n times is held at most n·cap seconds in all and, for n ≤ 64, at most base·(2^n − 1) |
| Tasks.OneLiveTaskPerKey | comm/tasks.py:554-576 | In every interleaving of concurrent starts and executors at most one PENDING or RUNNING task has a given non-empty dedupe key |
| Tasks.StartReturnsLive | comm/tasks.py:519-576 | The id a start() returns names a task of its key that is live at that instant; a task is created exactly when it was not live before, and only where none of its key was |
| Tasks.RedeliveryIsNoOp | comm/tasks.py:732-749 | An announcement changes nothing exactly when its row is missing, not PENDING, or still held |
| Tasks.ClaimsExactly | comm/tasks.py:732-749 | What a claim changes: RUNNING, one more attempt, one more worker, nothing else |
| Tasks.RequeueHoldsExactly | comm/tasks.py:902-933 | After a requeue an announcement gets the task claimed if and only if its delay is over |
| Tasks.GoesOnExactly | comm/tasks.py:810-836 | After an attempt the task waits for a retry, with its drawn delay, if and only if its handler raised with attempts left or found no responder with attempts or grace left; it is DONE if and only if the handler succeeded |
| Tasks.EndsForExactly | comm/tasks.py:754-836 | The failure reason of a parked task, by how its last attempt ended |
| Tasks.BudgetsAreReached | comm/tasks.py:810-836 | For every limit there is a run with exactly max(1, max_attempts + grace) claims of a task nobody answers, and one with exactly max(1, max_attempts) answered attempts of a task that keeps raising |
| Tasks.DrawnExactly | comm/backoff.py:80-109 | The delays a requeue can have are exactly those some jitter draws |
| Tasks.AnnouncedAgainExactly | comm/tasks.py:929-933 | A row is announced once more if and only if it is requeued, or re-announced while it waits for a retry |
| Tasks.DeadWorkersEndNothing | comm/tasks.py:744-749 | A worker that died can no longer end its attempt, and leaves the row as it was |
| Tasks.StartsExactly | comm/tasks.py:519-553 | A start with a key takes the live task if and only if there is one, and else makes one; a start without a key always makes one |
| Tasks.LosersExactly | comm/tasks.py:554-576 | A start is refused by the index if and only if its key is live by then, and then fails if and only if none is live when it looks again |
| Tasks.RacersShareTheTask | comm/tasks.py:554-576 | Two starts of one key that both found no live task end with the same one |
| Tasks.ServedTasksEnd | comm/tasks.py:750-753 | No more than twice its budget of serving steps ever happens to a task, and when that many have it is DONE or FAILED |
| Tasks.LiveTasksCanBeServed | comm/tasks.py:732-743 | A live task no worker died with can always be served: by an announcement once due, or by any ending of its attempt |
| Tasks.TaskStore.FindLive | comm/tasks.py:520-527 | The SELECT finds the first live row of the key |
| Tasks.TaskStore.Select | comm/tasks.py:519-533 | start() up to its insert: reuse a live task or go on |
| Tasks.TaskStore.Insert | comm/tasks.py:538-553 | The insert with its announcement, or the refusal of the unique index |
| Tasks.TaskStore.Reselect | comm/tasks.py:554-576 | The loser of the race takes the winner's id, or raises when the winner is gone |
| Tasks.TaskStore.Execute | comm/tasks.py:732-753 | The claim: only a due PENDING row, which becomes RUNNING with one more attempt |
| Tasks.TaskStore.Conclude | comm/tasks.py:757-877 | The handler's endings and which of finish, requeue and park each leads to |
| Tasks.TaskStore.Requeue | comm/tasks.py:902-933 | Back to PENDING, held for the drawn delay, announced again |
| Tasks.TaskStore.Park | comm/tasks.py:936-959 | FAILED with its reason and its one failed event |
| Sweeps.SweepsAreHarmlessExactly | django/taskstore/management/commands/sweep_tasks.py:85-176 | Over every run of starts, workers and sweeps from the empty table: no ended row changes, no row has two owners, and the workers are never left on the way to either, if and only if the sweep never writes to a row that has ended since it was read or that a worker has |
| Sweeps.SweepsKeepBudgetExactly | django/taskstore/management/commands/sweep_tasks.py:94-119 | With sweeps that do not interfere: no row is claimed, or waits to be claimed, beyond its budget, if and only if no row is revived that has used its budget up since it was read |
| Sweeps.StepKeepsInv | comm/tasks.py:732-749 | Every step that does not interfere keeps each worked row RUNNING and its own, keys deduplicated, and ended rows as they are |
| Sweeps.FoundIsReads | django/taskstore/management/commands/sweep_tasks.py:85-89 | The one query for expired rows is a run of row reads |
| Sweeps.RefusedExactly | django/taskstore/management/commands/sweep_tasks.py:114-119 | Reviving a row is refused by the unique index if and only if another row of its non-empty key is live |
| Sweeps.DealtWithOnce | django/taskstore/management/commands/sweep_tasks.py:92-119 | A read row may be failed, and revived if and only if it had an attempt left and no rival is live; each is dealt with once |
| Sweeps.SweptRowsGoOn | django/taskstore/management/commands/sweep_tasks.py:114-161 | A failed row says why, has its event and is never claimed; a revived one is announced and claimed by the next announcement |
| Sweeps.Command.FindExpired | django/taskstore/management/commands/sweep_tasks.py:85-89 | The rows not ended whose deadline is over, as they were read |
| Sweeps.Command.Clashes | comm/tasks.py:554-576 | Whether another row of the key is live |
| Sweeps.Command.Handle | django/taskstore/management/commands/sweep_tasks.py:92-176 | One turn of the loop: revived when a reply waits and attempts are left, else failed with its event, or refused with nothing changed |
| Checkpoints.RetriedRefinesFaultFree | comm/tasks.py:181-211 | Under any schedule of failures, crashes, failing reads, lost objects, lost row writes and retries in which a step is run again only while no later checkpoint reads back: the result committed at DONE is that of a run without failures on values that were all really produced, each step on exactly the values before it. `Retries.AllReliableIsAllSafe` derives the condition from what the store does |
| Checkpoints.InvokeBelowRecordedMixes | comm/tasks.py:206-211 | The converse: from every state in which a step is run again below a checkpoint that reads back, the task can go on to commit a result no run without failures gives |
| Checkpoints.RunAgainOnlyIfNotRead | comm/tasks.py:137-149 | Over every run, a step whose checkpoint reached the row is run again only if some attempt found nothing in its entry; `Retries.NeverRunAgain` is the case where none can |
| Checkpoints.NothingFoundExactly | comm/tasks.py:368-387 | An attempt finds nothing in a recorded entry if and only if None was recorded, or the value went by reference and the store does not answer, the key is refused or the object is gone |
| Checkpoints.CrashInFinishExactly | comm/tasks.py:848-867 | A worker that dies between dropping the ledger and the commit costs no checkpoint, if and only if none of the objects deleted by then holds one |
| Checkpoints.CrashInFinishMixes | comm/tasks.py:848-867 | A concrete run: after such a death the task commits a result no run without failures gives |
| Checkpoints.OneFailedReadMixes | comm/tasks.py:376-387 | A concrete run: one failed read of a stored checkpoint does the same |
| Checkpoints.FaultFreeRunCommits | comm/tasks.py:151-156 | Every outcome a run without failures can have is really reached by one, so the refinement is to something that happens |
| Checkpoints.ShapedValueMixes | comm/overflow.py:293-299 | A concrete run: a value kept on the row that is shaped like a reference to an object of another is resumed as that object's content |
| Checkpoints.CheckpointOutlivesCrash | comm/tasks.py:181-191 | A checkpoint whose write reached the row outlives the worker: the next attempt reads the very value recorded |
| Checkpoints.ClaimedAgainExactly | comm/tasks.py:902-948 | After a failed attempt the task can be claimed again if and only if it was requeued; after a crash only once it is revived |
| Checkpoints.ParkedForGood | comm/tasks.py:936-948 | Over every run after a park: FAILED, no step run again, ledger and result as they were |
| Checkpoints.EndedTasksStay | comm/tasks.py:735-743 | The same from every ended task |
| Checkpoints.NotesOutliveCrash | comm/tasks.py:240-254 | A call noted on the row is known to the next attempt after a crash |
| Checkpoints.CallsAreAdded | comm/tasks.py:240-254 | Noting a call keeps every call noted before |
| Checkpoints.ClearDeletesExactly | comm/tasks.py:405-420 | The finish deletes an object if and only if it is a checkpoint of the ledger or the shelved reply of a noted call, and its delete works |
| Checkpoints.LostObjectIsMissed | comm/tasks.py:376-387 | A lost object makes the step that needs it be called again |
| Checkpoints.CheckpointKeysAreSpelled | comm/tasks.py:349-352 | The object key of an ordinarily named checkpoint, segment by segment |
| Checkpoints.LandsExactly | comm/tasks.py:340-365 | A checkpoint lands in the store if and only if it is over the limit and a store takes it, and then where the store says |
| Checkpoints.StepGrowsRow | comm/tasks.py:929-932 | Until the commit of DONE no step, requeue, park, crash and the deletes of the finish included, takes an entry off the row |
| Checkpoints.StepKeepsInv | comm/tasks.py:763-771 | Every checkpoint that reads back, on the row and in the context's dict, was really produced, on values that agree with every earlier checkpoint that still reads back |
| Checkpoints.LargeCheckpointReadableExactly | comm/tasks.py:340-387 | A large checkpoint on its own key reads back if and only if the prefix is clean, the key short enough and the object name's first 80 characters hold no ".." |
| Checkpoints.NoneIsNotACheckpoint | comm/tasks.py:206-211 | A concrete run: a step that records None is run again below a recorded one and the result is that of no run without failures |
| Checkpoints.TaskRun.Claim | comm/tasks.py:763-769 | The context's dict is loaded from the row at claim time |
| Checkpoints.TaskRun.Resume | comm/tasks.py:206-211 | A hit takes over the recorded value; anything else changes nothing |
| Checkpoints.TaskRun.NameCall | comm/tasks.py:213-254 | The call is noted in the reserved entry and on the row; one noted before is not written again |
| Checkpoints.TaskRun.Checkpoint | comm/tasks.py:181-204 | The value, inline or by reference, goes into the dict and the whole dict onto the row when that write succeeds |
| Checkpoints.TaskRun.Fail | comm/tasks.py:929-948 | Requeue and park leave the ledger alone |
| Checkpoints.TaskRun.DropReplies | comm/tasks.py:298-311 | Every shelved reply of the noted calls is deleted, except those whose delete fails |
| Checkpoints.TaskRun.DropObjects | comm/tasks.py:405-420 | Every object the context's ledger names is deleted, except those whose delete fails |
| Checkpoints.TaskRun.ClearLedger | comm/tasks.py:848-864 | Both, before anything of the finish is written |
| Checkpoints.TaskRun.Commit | comm/tasks.py:851-876 | DONE with the result and an empty ledger on the row |
| Retries.RetriesAreHarmless | comm/tasks.py:181-211 | From the start of a task, in an environment that answers reads and keeps this task's objects, under any schedule of requeues, crashes in the handler, revivals and lost row writes: the result committed is that of a run without failures |
| Retries.NeverRunAgain | comm/tasks.py:181-211 | There a step whose checkpoint reached the row is never run again |
| Retries.AllReliableIsAllSafe | comm/tasks.py:206-211 | There no attempt finds nothing in a recorded entry, and no step is ever run below one that reads back |
| Retries.CalledExactly | comm/tasks.py:206-211 | There a step is called for if and only if it has no entry |
| Retries.StepKeepsRInv | comm/tasks.py:763-771 | On the row and in the dict the recorded steps are the first ones of the plan, and each entry reads back while its objects are there |
| Retries.EveryRunIsKeptOrLost | comm/tasks.py:181-204 | A step has really run exactly once for each attempt that ended before the row had its checkpoint, and once more when it is kept |
| Retries.RetriedTasksCanFinish | comm/tasks.py:757-877 | From every point of such a run, mid-step or with the worker dead, the task can go on to DONE with every value the row has a checkpoint of |
| Recovery.ReturnsOnlyItsOwnExactly | comm/nats.py:193-272 | Under any mix of losses, timeouts, retries and late completions every call returns only frames some provider run produced for that same task, function and payload, if and only if no two of the requests share a key |
| Recovery.TaskCallsGetTheirOwnExactly | comm/tasks.py:228-239 | For the keys the code computes: if and only if the 16 digits kept of the digest tell the calls of each task apart |
| Recovery.DigestsTellApart | comm/tasks.py:228-234 | The key is of the function and the whole payload: calls of a task are told apart as long as 16 digits of the digest tell their texts apart |
| Recovery.ShelfHoldsSuccesses | comm/overflow.py:333-335 | Errors are never shelved, what is on the shelf was produced for a request its key stands for, and shelf hits, requests and refusals add up to the calls made |
| Recovery.NotBoughtTwice | comm/overflow.py:325-331 | While a finished reply stays on the shelf and the store can be read, no further request for that call goes out |
| Recovery.AskedOnlyWhenEmpty | comm/nats.py:193-206 | The provider is asked only when the read of the shelf before the wire found nothing |
| Recovery.RaisesExactly | comm/nats.py:212-270 | A call raises PayloadTooLarge if and only if nothing was shelved and the request does not fit; NotRegistered if and only if it was sent and nobody responds; CallFailed if and only if the wait failed and nothing was shelved then either |
| Recovery.ReturnsExactly | comm/nats.py:193-272 | Which frame a call returns, when it asks, and what it takes off the shelf |
| Recovery.StepRaisesExactly | comm/nats.py:246-270 | The same in the protocol: which step makes which call raise which error |
| Recovery.AnswersArrive | comm/nats.py:243-272 | What a provider answers can arrive at the call it was made for |
| Recovery.LandedAnswersNext | comm/nats.py:193-208 | A landed success answers the next call of the same request without asking; a lost one is asked for again |
| Recovery.RefusedIsARun | comm/nats.py:222-241 | A request too large to travel is refused with nothing asked |
| Attempts.AttemptEndsExactly | comm/tasks.py:776-836 | From the wire to the row: which answer, timeout, missing provider or oversize makes the attempt of a task succeed, be retried or end the task, and whether it counts |
| Recovery.ConsumedOnceExactly | comm/overflow.py:387-409 | Over every run: no shelved frame is ever read more than once, plus once for each delete of it that failed, if and only if no call reads a frame that another one has read and not yet discarded |
| Recovery.ConsumedAtMostOnce | comm/overflow.py:387-409 | The case of attempts that follow one another |
| Recovery.OverlappingCallsReadTwice | comm/overflow.py:401-409 | A concrete run: overlapping calls read one frame twice with no delete failing |
| Recovery.CallIsARun | comm/nats.py:208-272 | What one caller does, whatever the others do while it waits, is a run of the protocol and ends in the state the method's specification gives |
| Recovery.HitIsARun | comm/nats.py:193-206 | The same for a call answered from the shelf before the wire |
| Recovery.DurableShelf.Put | comm/overflow.py:357-384 | Only successes of named calls are shelved; the key is returned unless the store refuses, also when it wrote the frame under another name |
| Recovery.DurableShelf.Take | comm/overflow.py:387-409 | The frame if it is there and readable, removed unless the delete fails |
| Recovery.DurableShelf.Transport | comm/nats.py:174-272 | The shelf before the wire, the refusal of what does not fit, the reply, no responder, and the shelf after a reply that did not come |
| Overflow.MintedKeyReadableExactly | comm/overflow.py:302-304 | A minted key passes the reader's check if and only if the prefix is clean, the key short enough and the first 80 characters of the function name hold no ".." |
| Overflow.KeyReadableExactly | comm/overflow.py:524-544 | Which keys under a trimmed prefix the check accepts |
| Overflow.OutsideIsRefused | comm/overflow.py:524-544 | An accepted key lies under the prefix, and one that climbs, names a scheme, holds a backslash, is absolute, empty or too long is refused |
| Overflow.BarePrefixIsAccepted | comm/overflow.py:524-544 | The shortest key under a clean prefix is accepted |
| Overflow.SameShelfExactly | comm/overflow.py:344-354 | Two calls share a shelf key if and only if both sanitised segments are the same |
| Overflow.TaskKeysAreInjective | comm/tasks.py:234-254 | Keys of task calls pass the sanitiser unchanged, and two calls share a shelf key if and only if task, fingerprint and sanitised function are the same |
| Codecs.LawsCanBeMet | comm/tasks.py:344-347 | What is asked of json.dumps, json.loads and the digest can be met for every JSON document at once |
| Overflow.PrefixIsTrimmed | comm/overflow.py:91-105 | The configured prefix, or the default, never starts or ends with a slash |
| Overflow.OversizedExactly | comm/overflow.py:108-124 | A frame leaves the wire exactly when a limit that is set, the deployment's or the broker's, is exceeded |
| Overflow.PrefixExactly | comm/overflow.py:91-105 | The prefix is the configured text between the slashes at its ends, or the documented default |
| Overflow.KeysAreSpelled | comm/overflow.py:302-354 | The keys of replies, requests, checkpoints and durable replies, segment by segment |
| Overflow.SegmentsExactly | comm/overflow.py:302-354 | What any function name or reply key becomes as a segment: its length and every character |
| References.ByReferenceMeansTheFrame | comm/nats.py:142-171 | Decoding a reply sent by reference gives what the frame itself means, errors included |
| References.DirectMeansTheFrameExactly | comm/overflow.py:293-299 | Decoding the frame itself gives that too, whatever the store holds, if and only if the frame is not shaped like a reference |
| References.ResultArrives | comm/nats.py:159-171 | What a provider answers comes out of call() unchanged by either road |
| References.ErrorsArrive | comm/nats.py:159-170 | An error frame raises, by either road, the too-large error when it is marked so and a remote failure otherwise |
| References.EmptyReplyIsNone | comm/nats.py:149-171 | An empty reply is None |
| References.RepliesRaiseExactly | comm/nats.py:142-171 | A reply raises if and only if it is no JSON, its reference cannot be resolved, or its error is not empty |
| References.OnlyTheSameBytes | comm/overflow.py:490-505 | A reference is resolved if and only if the store answers, the key is accepted and the object there has the recorded length and is the recorded bytes or a collision of their digest |
| References.RefusedForExactly | comm/overflow.py:447-505 | Which error refuses a reference: the first of the checks on store, key, object, size and digest that fails, and which values are not checked |
| References.ConsumedExactly | comm/overflow.py:507-521 | Decoding a reply deletes an object if and only if the reply is a reference to it that passed every check and the delete works |
| References.ReadOnceThenGone | comm/overflow.py:507-521 | Once a reply by reference was read and its object deleted it cannot be read again, and no other object is touched |
| References.StoredReadsBack | comm/overflow.py:259-285 | A reference made by store_frame passes every check while its object is kept |
| References.ReferencedCheckpointReadsBack | comm/tasks.py:368-387 | A checkpoint taken by reference reads back, as often as it is read, while its object is kept |
| References.InlineCheckpointReadsBackExactly | comm/tasks.py:368-375 | A checkpoint kept on the row reads back whatever the store holds if and only if the value is not shaped like a reference |
| References.LeavesTheRowExactly | comm/tasks.py:345-347 | A checkpoint leaves the row if and only if a limit is set and its text is longer |
| References.UnreadIsDefault | comm/tasks.py:376-387 | A stored checkpoint that cannot be read is the default, whatever the reason |
| References.SharedStore.StoreFrame | comm/overflow.py:259-285 | The object is written and the reference names where it really landed; no store and a refused put are errors |
| References.SharedStore.Dereference | comm/overflow.py:447-521 | The checks in their order, each with its error; the object is consumed only when asked and when the delete works |
| References.SharedStore.DecodeReply | comm/nats.py:142-171 | One level of reference resolved, then the reply's error, its too-large marker or its result |
| References.SharedStore.EncodeCheckpoint | comm/tasks.py:340-365 | Inline when small or when no store takes it, else by reference |
| References.SharedStore.DecodeCheckpoint | comm/tasks.py:368-387 | The value, or the default when the object cannot be read; nothing is consumed |
| Outbox.VisibleExactly | comm/actions.py:133-173 | Over any nesting of blocks left by return or exception, a row is visible if and only if its block and every enclosing one committed |
| Outbox.DispatchedExactly | comm/actions.py:205-211 | The events dispatched are exactly the visible ones, each once and in the order written |
| Outbox.SpoiledNeverCommits | comm/actions.py:94-104 | No row written in a block where an emit failed is ever visible, whoever swallowed the exception |
| Outbox.TogetherOrNotAtAll | comm/actions.py:134-150 | A mutation and an event of the same block are visible together or not at all |
| Outbox.SurvivingMatchesTruncation | comm/actions.py:210-211 | Rolling back to a savepoint drops from the callbacks exactly what it drops from the rows |
| OutboxMeaning.ProgramCommits | comm/actions.py:134-173 | For every program of nested blocks: the rows visible at its end and the events dispatched are those its compositional meaning gives, in which a failing block with a savepoint takes back its own rows and nothing else |
| OutboxMeaning.OutermostCommitsExactly | comm/actions.py:166-171 | An outermost block commits its rows if and only if it is left cleanly and no write failed in it outside a savepoint that was rolled back, read off its statements |
| OutboxMeaning.InnerFailsAlone | comm/actions.py:166-171 | A nested block left by an exception, whatever was done in it, leaves the enclosing blocks, their rows, their callbacks and the flag as they were |
| OutboxMeaning.TaintedExactly | comm/actions.py:94-104 | A body can only be rolled back if and only if one of its statements failed outside a savepoint of its own |
| Outbox.Database.Enter | comm/actions.py:166-171 | Entering an atomic block, with a savepoint unless the transaction is already doomed |
| Outbox.Database.Exit | comm/actions.py:166-171 | Leaving it: join, commit and dispatch, roll back to the savepoint, roll back all, or pass the mark on |
| Outbox.Database.Save | comm/actions.py:139-142 | A model save inside or outside a block |
| Outbox.Database.Emit | comm/actions.py:42-130 | The row and its callback, the refusal outside a block, or a transaction that can only roll back |
| Outbox.ScopedEmitter.Call | comm/actions.py:185-202 | Inert once its block has exited; otherwise one emit, recorded when it succeeds |
| Outbox.OpenScope | comm/actions.py:166-171 | Entering a mutate_and_emit() block yields an active emitter |
| Outbox.CloseScope | comm/actions.py:169-173 | Leaving it, either way, leaves the emitter inert |
| Delivery.FanOutRunsEachOnce | comm/actions.py:265-294 | Each delivery runs every handler once and in order whatever the others do, and the delivery around it keeps exactly its claims |
| Delivery.RunKeeps | comm/delivery_scope.py:31-52 | In every nest of deliveries a fact is granted at most once a delivery and denied only after it was granted in that same delivery |
| Delivery.RedeliveryIsFree | comm/delivery_scope.py:10-14 | The outcome of a delivery does not depend on what was claimed around it or before it |
| Delivery.ClaimDecides | comm/delivery_scope.py:41-52 | A handler goes on as granted if and only if it is outside any delivery or the fact is new to this one |
| Delivery.SecondClaimDenied | comm/delivery_scope.py:41-52 | The second claim of a fact in one delivery is denied |
| Delivery.NoErrorsExactly | comm/actions.py:273-294 | Nothing is left to retry if and only if every handler returned or had its payload parked |
| Delivery.AcknowledgedExactly | django/outbox/relay.py:94-109 | With dispatches that follow one another: an event is acknowledged if and only if some delivery of it was clean and confirmed; it was delivered up to the first such one and never after, and every other delivery counted as a failed attempt |
| Delivery.AloneIsDispatch | django/outbox/relay.py:94-109 | A dispatcher nobody overlaps reads, delivers and marks as one step |
| Delivery.AnotherDeliveryExactly | django/outbox/relay.py:104-109 | With dispatchers that overlap: another delivery can still happen if and only if the row is not marked or some dispatcher read it before it was |
| Delivery.LateDeliveriesAtMost | django/outbox/relay.py:104-109 | After the mark each such dispatcher delivers at most once more and nobody else does |
| Delivery.DeadDispatchersLeaveTheRow | django/outbox/relay.py:104-109 | A dispatcher that dies leaves the row to be read again |
| Delivery.Subscribers.ClaimOnce | comm/delivery_scope.py:41-52 | Always granted outside a delivery, else once a key |
| Delivery.Subscribers.RunHandlers | comm/actions.py:273-294 | The loop over the handlers and the failures it collects |
| Delivery.Subscribers.DeliverToSubscribers | comm/actions.py:265-270 | The scope is set around the loop and reset after it |
| Delivery.Subscribers.DispatchOne | django/outbox/relay.py:94-109 | One call of dispatch_one on one row |
| Projections.ProjectionTable.ApplyEvent | comm/projections.py:331-380 | One upsert and its result, or an error and an unchanged table |
| Projections.ProjectionTable.Rebuild | comm/projections.py:541-584 | Succeeds if and only if no call raises, every row is well formed and no key comes twice; then the table holds every exported row exactly once, rows, batches and progress are those of the export and the drift check is in sync; a failure leaves the table as it was |
| Projections.ProjectionTable.StorePage | comm/projections.py:565-581 | One page of it |
| Projections.ProjectionTable.BulkCreate | comm/projections.py:577-577 | All rows of a page are inserted, or a key was there already |
| Projections.ProjectionTable.DriftCheck | comm/projections.py:587-602 | The local count and the exported one, for every export that ends |
| Projections.CountSnapshot | comm/projections.py:522-538 | The sum over the pages of the cursor walk |
| Projections.PagesFollowCursors | comm/projections.py:522-538 | Each page is read under the cursor the one before it named, from none, until an answer names none or an empty one |
| Projections.GoodRowExactly | comm/projections.py:563-577 | An exported row can be stored if and only if it has its source key, no seq or an int, and columns the table has |
| Projections.PageSpoilsExport | comm/projections.py:541-544 | A page that cannot be added to the pages before it spoils the whole export |
| ProjectionRuns.AppliesExactly | comm/projections.py:335-371 | An event changes the table if and only if its row is new or its position strictly newer and it is not the event the row shows; no other row changes |
| ProjectionRuns.LargerWins | comm/projections.py:169-180 | With a declared field two events of a row end, in either order, at the one whose field is larger whatever the timestamps; without one, at the later timestamp |
| ProjectionRuns.OutcomesExactly | comm/projections.py:353-380 | Created, updated or skipped: which is reported when, by the payload |
| ProjectionRuns.FirstStaysOnTies | comm/projections.py:366-369 | Of two events in the same place the first stays |
| ProjectionRuns.RefusedExactly | comm/projections.py:343-351 | An event is refused for its key if and only if that is missing or null, for its position if and only if a declared field is missing or no int |
| ProjectionRuns.RebuiltRowsTakeLater | comm/projections.py:563-577 | A rebuilt row stands at its exported seq, or 0, and takes exactly the events in a later place |
| ProjectionRuns.ConvergesExactly | comm/projections.py:343-380 | Every order and duplication of every part of an event set ends at the newest event of each row, if and only if each newer event writes over all that an older one of its row wrote |
| ProjectionRuns.OrderDoesNotMatter | comm/projections.py:335-338 | Two delivery sequences over the same events leave the same table |
| ProjectionRuns.GuardIsRedundantExactly | comm/projections.py:366-369 | The event-id test never changes a run, if and only if no id is reused at a later position of its row |
| ProjectionRuns.RunKeepsAgreement | comm/projections.py:541-551 | In every interleaving of owner updates, deliveries and rebuilds each row is the owner's at that row's position, and no position goes down |
| ProjectionRuns.RebuildNeverGoesBackExactly | comm/projections.py:549-551 | A rebuild takes no row and no position back, if and only if its snapshot is at least as new as everything taken in before |
| ProjectionRuns.CaughtUpExactly | comm/projections.py:331-338 | The table is the owner's current state, if and only if the newest update of every row has been taken in |
| ProjectionRuns.RebuiltTableIsSnapshot | comm/projections.py:563-577 | What rebuild stores is the snapshot the owner exported |
| Liveness.ConsumerLiveness.constructor | bus/liveness.py:176-218 | The watchdog as it starts |
| Liveness.ConsumerLiveness.OnAssign | bus/liveness.py:220-229 | The new assignment's size; with partitions it restarts the assignment's clock and clears the broker outage |
| Liveness.ConsumerLiveness.OnRevoke | bus/liveness.py:231-243 | The assignment is empty and its clock keeps running |
| Liveness.ConsumerLiveness.RecordPoll | bus/liveness.py:245-253 | A poll restarts the poll clock and, with partitions, the assignment's, and then ends a broker outage |
| Liveness.ConsumerLiveness.RecordMessage | bus/liveness.py:255-260 | A message is dated, restarts the assignment's clock and ends a broker outage |
| Liveness.ConsumerLiveness.OnBrokerError | bus/liveness.py:262-311 | The error is noted; a fatal one is kept, and an outage keeps the date of its first report |
| Liveness.ConsumerLiveness.EnterHandler | bus/liveness.py:329-332 | Entering a handler |
| Liveness.ConsumerLiveness.LeaveHandler | bus/liveness.py:333-344 | Leaving it credits its time to both clocks, never past now |
| Liveness.ConsumerLiveness.BrokersSayReachable | bus/liveness.py:488-505 | The probe and its ten-second cache |
| Liveness.ConsumerLiveness.StallReason | bus/liveness.py:455-486 | Why the process should exit, if it should |
| Liveness.ConsumerLiveness.CheckNow | bus/liveness.py:507-533 | Exit on a reason, else nothing |
| Liveness.HandlerTimeIsNeverIdle | bus/liveness.py:314-341 | Over all runs without nested handlers from the start of the process: both baselines stay at or before now, measured silence is at most the non-handler time since the last poll, probes are ten seconds apart, and no exit comes before a full window of non-handler idleness |
| Liveness.NoExitInsideHandler | bus/liveness.py:457-464 | Inside a handler only a fatal client error ends the process |
| Liveness.StallIsSeenInTime | bus/liveness.py:455-512 | Idle since L, brokers answering since R, a check every d seconds: the process exits, and the run ends, no later than max(L + window, R + 10) + d |
| Liveness.ForgottenExactly | bus/liveness.py:314-341 | Over every run with handlers nested as deep as they like: a running handler is forgotten if and only if an inner one was left and none entered since, and then a check ends the process exactly as if the loop were idle |
| Liveness.NestedHandlerCanBeKilled | bus/liveness.py:314-348 | A concrete run: a nested handler ends a busy process |
| Liveness.OutageIsDatedOnce | bus/liveness.py:291-293 | Until a sign of an assignment a broker outage keeps the date of its first report |
| Liveness.SignEndsOutage | bus/liveness.py:251-260 | And such a sign, and nothing else, ends it |
| Liveness.FatalErrorsExit | bus/liveness.py:280-281 | A fatal client error ends the process with code 75 at the next check, whatever comes between; any other error never does |
| Liveness.RemembersTheLatest | bus/liveness.py:220-275 | Over every run the assignment, the last message, the last error and the last poll are those of the latest step that speaks of them |
| Liveness.AsksBrokersExactly | bus/liveness.py:466-505 | The brokers are asked if and only if a check finds a whole idle window outside handlers and no answer younger than ten seconds |
| SchemaStrict.StrictIsInSubset | schema_strict.py:76-96 | Every reached node is in the subset: no dropped keyword, and each object node requires exactly its sorted property names and forbids others |
| SchemaStrict.StrictFixesSubset | schema_strict.py:62-75 | The transform leaves a schema as it is, if and only if it is in the subset already |
| SchemaStrict.StrictIsIdempotent | schema_strict.py:62-75 | Transforming twice is transforming once |
| SchemaStrict.PropertiesSurvive | schema_strict.py:83-93 | A property survives whatever its name, and is itself transformed |
| SchemaStrict.DropsExactly | schema_strict.py:47-59 | Of a node's keywords exactly the eleven named ones are dropped |
| SchemaStrict.GoesIntoExactly | schema_strict.py:89-96 | Which keywords are walked as dicts of schemas, which as schemas, and that the rest stays |
| SchemaStrict.SortedNamesSorts | schema_strict.py:85-88 | The required names are the property names, each once, in ascending order |
| SchemaMeaning.StrictMeaning | schema_strict.py:62-99 | An instance is valid after the transform if and only if it satisfies the original with the dropped keywords ignored and every object carrying exactly the declared keys |
| SchemaMeaning.StrictKeepsValid | schema_strict.py:62-75 | Without oneOf, a value that was valid and carries exactly the declared keys stays valid |
| SchemaMeaning.StrictSchemasAreExact | schema_strict.py:85-88 | Under a transformed schema valid objects carry exactly the declared keys |
| SchemaMeaning.OneOfCanBreak | schema_strict.py:83-96 | A concrete schema with oneOf where a valid value stops being valid |
| SchemaWalk.Container.Walk | schema_strict.py:76-96 | The walk in place turns the document a tree spells into its transform |
| SchemaWalk.Container.DropKeywords | schema_strict.py:83-84 | Popping the dropped keywords, one at a time, leaves every other entry as it was |
| SchemaWalk.Container.CloseProperties | schema_strict.py:85-88 | Requiring and closing one object node |
| SchemaWalk.Container.WalkItems | schema_strict.py:77-80 | The loop over a list |
| SchemaWalk.Container.WalkChildren | schema_strict.py:89-96 | The loops over the named and the listed children |
| SchemaWalk.ToStrictSubset | schema_strict.py:62-99 | The copy becomes the transform and the caller's schema still spells what it did |
| SchemaSharing.ToStrictShared | schema_strict.py:62-99 | On a copy with sharing the outcome spells the transform, if a dict reached as a schema stands nowhere as a dict of properties or as data |
| SchemaSharing.ClosesMeansStrict | schema_strict.py:76-96 | Closing every visited dict once spells the transform of the document, however often the walk comes by |
| SchemaSharing.SharedBothWays | schema_strict.py:83-96 | When one dict is both the properties and the items of a node, a property named like a dropped keyword is lost |
| SchemaSharing.Copied.Walk | schema_strict.py:76-96 | The walk in place on shared nodes: whatever is shared, nothing above is touched and no dropped keyword comes back; under the condition exactly the visited dicts are closed |
| Language.RankedIsTheWanted | language.py:82-113 | The list holds exactly the kept tags, heavier first and in header order on ties |
| Language.PositiveOnlyExactly | language.py:101-110 | Every listed tag has a positive weight, if and only if no weight is NaN |
| Language.NaNIsListed | language.py:104-110 | A concrete element: its weight is NaN and it is listed |
| Language.TagIsSpelled | language.py:93-100 | Whatever blanks and parameters an element has, it names its tag in small letters and is listed if and only if that is not "*" |
| Language.LastQualityDecides | language.py:101-108 | Of several q parameters the last decides, with 0 for one that is no number |
| Language.NoQualityIsOne | language.py:101-108 | Without one the weight is 1 |
| Language.QualityOf | language.py:101-108 | The loop over the parameters |
| Language.ParseAcceptLanguage | language.py:82-113 | The loop over the header's elements, and the sort |
| Language.FirstAcceptedIsBest | language.py:116-138 | The first tag the supported set accepts is the heaviest, earliest on ties, of all it accepts |
| Language.DeviceIsBest | language.py:133-138 | The device language is the match of that tag, or none when the set accepts no tag |
| Language.MatchesExactly | language.py:116-130 | The full tag is tried before its base |
| Language.OneTagDevice | language.py:133-138 | With one tag in the header: the tag, else its base, else none |
| Language.WeightsGoDown | language.py:101-113 | In the list weights go down, and equal ones keep the header's order |
| Language.RulesExactly | language.py:157-177 | The four documented rules, one by one |
| Language.FromHeader | language.py:133-138 | The search loop |
| Language.ResolveLanguage | language.py:141-177 | The branches of the resolver |
| Language.ResolveUnfolds | language.py:157-162 | The four documented rules as one table of candidates |
| Language.AutoIsSupported | language.py:163-177 | What is chosen without an explicit choice is a supported language or the default |
| Text.SplitJoins | language.py:93-102 | Splitting cuts at every separator and nowhere else |
| Text.StripsExactly | language.py:94-98 | Stripping takes the blanks at both ends and nothing else |
| Text.LowersExactly | language.py:98-98 | Lower-casing maps each capital to its small letter and keeps the rest |
| Backoff.CeilingMonotone | comm/backoff.py:42-63 | The ladder never goes down |
| Backoff.CeilingBelowCap | comm/backoff.py:42-63 | It never exceeds the cap, if and only if the ladder is on or the cap is not negative |
| Backoff.CeilingDoubles | comm/backoff.py:42-63 | Each rung is the one before doubled and capped, if and only if it is not rung 65 or 64 doublings have reached the cap |
| Backoff.LadderSumGeometricExactly | comm/backoff.py:42-63 | The doubling bound on the total holds for every number of retries, if and only if the cap is within 64 doublings of the base |
| Backoff.LadderSumBound | comm/backoff.py:42-63 | The whole ladder in closed form |
| Backoff.RetryDelay | comm/backoff.py:80-109 | The drawn delay lies between zero and the ceiling, and is zero when the ladder is off |
| Backoff.TotalHoldFlat | comm/backoff.py:80-109 | What n retries really wait is at most n·cap |
| Backoff.TotalHoldGeometric | comm/backoff.py:80-109 | And for n ≤ 64 at most base·(2^n − 1) |

## Left out

- Sweeps: which deadlines are over and which replies wait are up to the environment; the grace a revived row gets is a deadline again.
- Checkpoints.RetriedRefinesFaultFree: besides the order of runs it asks that a value kept on the row is not shaped like a reference, that a stored one comes back from its text, that names of checkpoint objects are not used again, and that each name is recorded once a run.
- Checkpoints: the handler is the documented idiom, named steps in a fixed order; a handler that branches on what it resumed is not modelled.
- Recovery.DurableShelf.Transport: what other processes do to the shelf while the call waits is an argument, and the reply frame is a success or a failure; what frames mean as bytes is `References.dfy`.
- Objects that expire: TTLs and bucket rules are steps that lose a shelved frame or a stored object, at any time.
- Outbox: autocommit switched off by hand, durable blocks, `set_rollback(False)`, savepoints the database itself refuses, the emit gate of test suites, and OUTBOX_ENABLED switched off.
- Delivery.AcknowledgedExactly: dispatches follow one another here, overlapping ones are `Delivery.AnotherDeliveryExactly`; the batch of `dispatch_pending`, its locks and its backoff schedule are not modelled.
- Delivery: exceptions that are not subclasses of `Exception`, the bus transport, trace propagation.
- Projections.ProjectionTable.Rebuild: requires that following the cursors ends; an export whose cursors go round for ever never returns in the source either. Concurrent writers to the same table are serialised.
- ProjectionRuns: rows that the owner deletes; no event of the source deletes a projection row.
- Projection modes, the registry, `read()` and the configuration checks of `comm/projections.py`.
- Liveness: heartbeat files, metrics and the thread that polls; the poll loop's calls are the steps of a run.
- Liveness.HandlerTimeIsNeverIdle: handlers do not nest; `Liveness.ForgottenExactly` says what happens when they do.
- SchemaMeaning.StrictMeaning: the meaning of keywords the walk does not enter is an arbitrary function of keyword, value and instance, and `$ref` is followed up to any given depth.
- SchemaWalk.ToStrictSubset: schemas without sharing only, the others are `SchemaSharing.ToStrictShared`; `copy.deepcopy` is a library call, and that it yields a separate copy that spells the same document is required.
- SchemaSharing: documents that contain themselves, on which the source does not return; the pops and assignments of one dict are one step there, one at a time in `SchemaWalk.dfy`.
- Language.RankedIsTheWanted: the order of the list when some weight is NaN, which Python's sort leaves open.
- Language.FirstAcceptedIsBest: headers in which a named tag weighs NaN, for the same reason.
- Language.DeviceIsBest: the same headers.
- Language: stripping and lower-casing are those of ASCII; reading a header field from a request.
- Tasks: the callback function, payload and result values, correlation ids, routing of announcements to services that do not own the row, and the inline and Celery executors.
- Sockets, reconnects and the event-loop thread of `comm/nats.py`; Kafka, NATS and Redis clients; metrics and logging.
- Configuration walks and system checks: easy members only.
