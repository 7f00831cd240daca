# actjs: a verified model of the runtime's state machines

actjs is an actor runtime. Its guarantees are spread over many functions and whole runs: an actor's
state survives a crash, a tell is not lost, a stale owner cannot write, a subscriber catches up, a
dependency set is consistent. This project models the code that carries those guarantees and proves
them in Dafny 4.11. `dafny verify dfyconfig.toml` checks everything.

## How it is built

Each source component is one module. The component's operations are functions on values. Where the
source is an object that changes its fields there is also a class with those fields, and each method
is proved to take exactly the step the function describes. Loops stay loops. The main results are
lemmas about those functions over every run.

| file | component |
|---|---|
| `Wrappers.dfy`, `Intervals.dfy` | what several components share: optional values, fresh names, ascending sequences |
| `Events.dfy` | event values, `normalizeEvent`, the live fold and the replay fold |
| `Inbox.dfy`, `Storage.dfy`, `Driver.dfy` | the in-memory storage driver: events, snapshots, fence, compacted inbox |
| `Fence.dfy` | several owners over one stored row |
| `Memory.dfy`, `Host.dfy`, `ActorHost.dfy` | the event-sourced host, as steps between awaits and as methods |
| `Recovery.dfy`, `Activation.dfy`, `Deactivation.dfy`, `Delivery.dfy`, `Turns.dfy`, `Redelivery.dfy`, `Offers.dfy` | crash recovery, replay tail, what an activation and a deactivation leave, durable tells, when they are acknowledged and how often they are handled, the order of service after an activation |
| `Mailbox.dfy`, `Directory.dfy`, `Loader.dfy`, `TokenBucket.dfy` | mailbox, directory, class cache, rate limiter |
| `Picking.dfy`, `Resolver.dfy`, `Conflicts.dfy`, `MapSums.dfy` | dependency resolver |
| `Diff.dfy` | line diff |
| `Registry.dfy`, `Client.dfy`, `Sse.dfy` | subscriptions on the server, in the client, and over SSE |
| `Subscribers.dfy`, `SubscribedHost.dfy`, `Convergence.dfy`, `Departures.dfy`, `SubscriberCap.dfy` | the path from a host's turn to the client, and the subscriber cap |
| `Reminders.dfy`, `Jsonb.dfy`, `Utf8.dfy` | the two-store reminder protocol, and what its columns do to messages |
| `Jose.dfy` | JOSE to DER |

**Host and crashes.** `Host.Sys` is a store, which survives, and a host with its mailbox and tells in
flight, which does not. `Host.Next` takes one step between two awaits, so a `Crash` step can fall
between any two storage writes of an activation, a tell, a turn or a deactivation; only `Start` takes
several awaits at once, the reads and the registration that begin an activation. Handler outcomes,
failing acks, another owner's fence bumps and interleaved tells are part of the steps.
`ActorHost.CommitIsSteps` ties the host's commit method to those steps.

**Choices.** The reducer, handlers, compiler, source hash, `semver.satisfies` and `semver.compare` are
parameters. Clocks are arguments. Seqs and fences are unbounded integers, as JavaScript `bigint`s
are. Token counts and times of the rate limiter are reals. A JavaScript `Map` is a map, or a list in
insertion order where the order is observable (the class cache).

## What turned out to be false, and exactly when it is true

- **Replay loses tagged-union events.** A live commit folds the event the handler returned
  (src/runtime/host.ts:679); replay folds only the stored payload (src/runtime/host.ts:432-439), and
  `normalizeEvent` strips `type` from a tagged union. The ledger style of the repository's own tests
  therefore comes back from a crash without its events. `Recovery.RecoveryIff`: recovery is exact for
  every run if and only if the reducer cannot tell an event from its stored payload in any state that
  commits reach.
- **A cold start can strand its fence token.** The host reads the token before it registers the actor
  row, and registration resets the fence to 0. `Recovery.TokenFreshIff`: the new host may write if and
  only if a snapshot exists or the fence was still 0.
- **Two bumps with one expected value can both succeed**, but only for an actor without a row
  (`Fence.DoubleBumpIff`).
- **Registering a row again lets epochs go back.** Every cold start without a snapshot does it.
  `Fence.ReregistrationGoesBackIff`: accepted epochs can go back afterwards if and only if a write at
  a positive epoch was accepted before. `Fence.EpochsGoBack` is a run of six acts in which they do.
- **The replay tail can grow past N.** `Recovery.ShortTailIff`: it stays short at every await if and
  only if every flush of a turn passes and no ack is rejected over a snapshot that has come due.
  `Recovery.TailOutgrowsLimit` is a run with one fence bump, and `Recovery.TailIsUnbounded` gives, for
  every length, a run of rejected acks that leaves a tail of that length between turns.
- **A tell can be handled twice although nothing crashed and its ack was accepted**, when its append
  outlives a re-activation of its host object: the activation finds it pending and the tell still joins
  the new mailbox (`Redelivery.StaleTellRunsTwice`). `Redelivery.HandlerRunsAreBounded`: in every run, a
  handler runs at most once plus once for each activation that found the tell pending.
- **A tell that arrives while an activation reads its inbox is served before the older entries**, where
  the comment says it enqueues after them (`Offers.NewerIsServedFirst`). `Offers.OfferOrder`: the
  re-offered entries come first if and only if nothing newer was accepted between the opening of the
  host and the offer.
- **A dependency conflict does not mean that there is no solution.** The resolver takes the highest
  version at once and never takes back what that version asks for, so it can miss a solution at a lower
  one even if no pick is ever replaced (`Conflicts.ConflictIsNotUnsolvable`, for any two versions and
  ranges that tell them apart). `Conflicts.SolutionsDepart`: whatever the problem, every solution differs
  from the chain of some clashing range in a choice that was open. So a conflict whose chains left no
  choice does mean that there is no solution (`Conflicts.ForcedConflictIsUnsolvable`), and where every
  range allows at most one live version the resolver succeeds if and only if there is one
  (`Conflicts.ResolvedIffSolvable`).
- **The rate limit can be exceeded through eviction.** `TokenBucket.BoundedIffPatient`: capacity plus
  inflow bounds every window of every run if and only if the idle window refills the smaller of the
  eviction slack (1e-6) and the capacity.
- **SSE resume can skip events.** `Sse.ResumeIsExactIff`: every event after the resume point arrives
  once and in order if and only if replay read every commit, or emission had not passed replay when the
  listener was attached, the listener's host object makes every later commit, and no ack after one of
  them is rejected. `Sse.ResumeCanSkip` has an input for each of the three ways to fail. What does arrive
  is in order and without repeats in any case (`Sse.StreamNumbers`). Replayed events are payloads while
  live ones are whole events; both carry the log row of their seq (`Sse.StreamCarriesLog`).
- **A subscriber can fall out of step with its host**, in three ways: it attaches after a turn has
  folded its batch and the batch is then emitted, so it has it twice; the ack after the fold is
  rejected, so a batch it awaited is never emitted; or its host object is evicted and the next one goes
  on without it. `Subscribers.Converges` and `Convergence.ConvergesIff`: these three are the exact
  condition, and `Departures.ThreeWaysOut` has a run of a handful of steps for each. A subscriber that
  attaches after a fold whose ack is then rejected is in step.
- **A reminder can be popped twice without a crash.** Recovery rebuilds a member's text from the row.
  Its `jsonb` column keeps the names of an object in its own order, and its `uuid` column prints an actor
  id in lower case, so the text may differ from the one enqueued and ZADD adds a second member where the
  comment calls it idempotent. `Reminders.ExactlyOnceIff`: the queue and the pop count are as promised in
  every run if and only if the columns give back unchanged every message they take.
  `Jsonb.UnchangedIffCanonical`: that is, if and only if the actor id is a uuid in lower case with its
  four hyphens, and in every object of the payload the names other than array indices are ordered by
  their length in UTF-8 and then by characters. `Jsonb.HiToXIsPoppedTwice` and
  `Jsonb.UpperCaseIdIsPoppedTwice` are failing inputs for each half.
- **The retry time can be too long** for a limiter that evicts early. `TokenBucket.RetryIsExactIff` says
  for which denials, and `TokenBucket.AlwaysToldRightIff` for which limiters: every denial of every run
  is told the right time if and only if what eviction forgives has flowed in by the first ms at which an
  untouched bucket can be evicted.
- **The active-actor cap and the subscriber cap are not hard caps.** `Directory.CapBound` and
  `SubscriberCap.CapBound` give the slack, `CapIsTight` shows that it is met for every cap and every
  overlap, and `CapHoldsIff` says when the cap holds.
- `normalizeEvent`'s comment allows a `causationId` on events; the code drops it. The model follows
  the code.

## Model

| member | source | states |
|---|---|---|
| `Events.ReplayMatchesFold` | src/runtime/host.ts:429-443 | replaying the stored rows gives the state the live folds gave, when the reducer agrees on an event and its payload |
| `Events.ReplayMatchesFoldIff` | src/runtime/host.ts:675-680 | that agreement, in every state commits reach, is also necessary |
| `Events.NormalizeIs` | src/runtime/host.ts:861-882 | an explicit record is stored as its type and its very payload, a tagged union as its type and exactly its other fields, and nothing else is stored |
| `Events.ExplicitReplaysPayloads` | src/runtime/host.ts:432-439 | a log of explicit records replays as their payloads, for every reducer |
| `Events.TallyAgrees` | src/runtime/host.ts:861-882 | a reducer that looks through explicit records cannot tell any event from what is stored of it |
| `Events.LedgerIsBalance` | tests/runtime/event-sourced.test.ts:29-36 | live, the tests' ledger is the sum of its movements, and only events with its two tags keep its state |
| `Events.TaggedUnionLedgerIsNotReplayed` | src/runtime/host.ts:867-882 | a tagged-union deposit of 10 folds to 10 live and leaves the state `undefined` on replay |
| `Events.LedgerReplaysToUndefined` | tests/runtime/event-sourced.test.ts:29-36 | so does every non-empty log of tagged-union events, whatever they are |
| `Driver.MemoryStorageDriver.RegisterActor` | src/storage/memory.ts:102-115 | registration sets the fence to 0 and leaves every other actor's data alone |
| `Driver.MemoryStorageDriver.LoadActorFence` | src/storage/memory.ts:117-119 | the stored fence, 0 without a row |
| `Driver.MemoryStorageDriver.BumpActorFence` | src/storage/memory.ts:121-130 | compare-and-set; refuses with both values; stores nothing for an actor without a row |
| `Driver.MemoryStorageDriver.AssertFence` | src/storage/memory.ts:180-186 | passes iff no fence is expected or it is the stored one |
| `Driver.MemoryStorageDriver.LoadSnapshot` | src/storage/memory.ts:139-158 | the snapshot with the highest non-negative seq, none without a row |
| `Storage.LatestIff` | src/storage/memory.ts:139-158 | it is that one and no other: the slot at -1 is never loaded |
| `Driver.MemoryStorageDriver.SaveSnapshot` | src/storage/memory.ts:160-178 | a stale write changes nothing; an accepted one sets that seq only |
| `Driver.MemoryStorageDriver.AppendEvents` | src/storage/memory.ts:190-220 | keys stay exactly 1..head, the log grows by the batch, errors change nothing, the returned seq is the new head |
| `Driver.MemoryStorageDriver.HeadEventSeq` | src/storage/memory.ts:250-252 | the length of the log |
| `Driver.MemoryStorageDriver.ReadEvents` | src/storage/memory.ts:222-248 | filter, sort and lookup stream exactly the log from `fromSeq` on, with its seqs, in order |
| `Driver.MemoryStorageDriver.AppendInbox` | src/storage/memory.ts:256-265 | a fresh id from the counter, the record last in the bucket |
| `Driver.MemoryStorageDriver.ReadPendingInbox` | src/storage/memory.ts:267-278 | the oldest-first prefix of the pending records (one record even for a limit below 1) |
| `Driver.MemoryStorageDriver.AckInbox` | src/storage/memory.ts:280-297 | marks the ids, then drops the acknowledged prefix with its marks |
| `Driver.MemoryStorageDriver.PendingInboxCount` | src/storage/memory.ts:299-307 | the number of pending records, on the fast path and on the slow one |
| `Driver.Compact` | src/storage/memory.ts:287-296 | the compaction loops compute the acknowledged prefix and the marks left |
| `Driver.ReadBucket` | src/storage/memory.ts:227-241 | sorted keys of a dense bucket are an interval, so the records are consecutive |
| `Inbox.AckRefines` | src/storage/memory.ts:280-297 | one ack with compaction keeps standing for the full history |
| `Inbox.RunRefines` | src/storage/memory.ts:256-297 | over any run, the compacted inbox stands for everything appended and acked |
| `Inbox.CompactionIsInvisible` | src/storage/memory.ts:267-307 | reads and counts of the compacted inbox are those of appended-minus-acked |
| `Inbox.FreshIsNeverAcked` | src/storage/memory.ts:256-297 | if acks name issued ids, no fresh id is already acked |
| `Inbox.EarlyAckHides` | src/storage/memory.ts:280-286 | an ack of an id not yet issued hides the record that gets it |
| `Fence.RunFenced` | src/storage/memory.ts:102-130 | over every interleaving with re-registrations: from one registration to the next, successful bumps expected 0, 1, 2, ...; held claims differ; accepted writes never go back an epoch |
| `Fence.StoreHoldsAccepted` | src/storage/memory.ts:160-220 | over every interleaving the log and the snapshots are exactly what owners with the stored token wrote, in order, and every such write is there |
| `Fence.OneClaimantWrites` | src/storage/memory.ts:160-220 | of two owners holding a won claim, at most one can change anything |
| `Fence.StaleWritesChangeNothing` | src/storage/memory.ts:180-220 | an overtaken owner's writes change nothing, for as long as neither it nor the row is reloaded |
| `Fence.DoubleBumpIff` | src/storage/memory.ts:121-130 | two bumps with one expected value both succeed iff there is no row and it is 0 |
| `Fence.GoesBackIff` | src/storage/memory.ts:180-220 | after any run, accepted epochs can still go back without another registration iff they have, or an accepted write is ahead of the row |
| `Fence.ReregistrationGoesBackIff` | src/storage/memory.ts:102-115 | after a re-registration accepted epochs can go back iff a write at a positive epoch was accepted before it |
| `Fence.EpochsGoBack` | src/storage/memory.ts:102-115 | a run of six acts with one re-registration: a write at epoch 1, then one at epoch 0, both accepted |
| `Fence.RegisteredOnceIsForward` | src/storage/memory.ts:102-130 | for a row registered once they never go back, and no token is ahead of the row |
| `ActorHost.ActorHost.FlushSnapshot` | src/runtime/host.ts:783-799 | saves the current state at `currentSeq`; a refused save leaves the counter but has dropped the dirty flag |
| `ActorHost.ActorHost.ReplayEvents` | src/runtime/host.ts:425-450 | folds exactly the rows after `currentSeq` and asks for a snapshot when they reach the interval |
| `ActorHost.ActorHost.DoActivate` | src/runtime/host.ts:270-335 | snapshot or registration, token, replay and opportunistic flush, as the machine's activation steps |
| `ActorHost.ActorHost.CommitEs` | src/runtime/host.ts:657-715 | append, fold, ack and threshold flush, with every refusal, as one commit |
| `ActorHost.ActorHost.ApplyBatch` | src/runtime/host.ts:677-692 | the live fold and the counters it moves |
| `ActorHost.ActorHost.FlushIfDue` | src/runtime/host.ts:712-714 | flushes exactly at the threshold |
| `ActorHost.CommitIsSteps` | src/runtime/host.ts:657-715 | the commit is the machine's steps run without interruption, so crashes inside it are covered |
| `ActorHost.DoneIffLogged` | src/runtime/host.ts:657-712 | the caller is told of success iff its events are in the log, and a refused turn leaves no trace |
| `Recovery.RunShape` | src/runtime/host.ts:657-715 | in every run the log is the committed events, snapshots lie within it, `eventsSinceSnapshot` is head minus latest snapshot |
| `Recovery.RunStates` | src/runtime/host.ts:425-450 | at every await every snapshot at k is the fold of the first k events and the live state is the fold up to `currentSeq` |
| `Recovery.RestartIsColdStart` | src/runtime/host.ts:270-335 | crash, start and replay produce the cold-start memory |
| `Recovery.CrashRecovers` | src/runtime/host.ts:270-450 | whatever await a crash hits, a cold start rebuilds the lost state, plus a batch that was durable but not folded |
| `Recovery.RecoveryIff` | src/runtime/host.ts:432-439 | every run recovers iff the reducer agrees on events and payloads |
| `Recovery.LedgerForgets` | src/runtime/host.ts:867-882 | the ledger of the repository's tests has a run that does not recover |
| `Recovery.TallyRecovers` | src/runtime/host.ts:432-439 | with that reducer every run recovers |
| `Recovery.ReplayTailBound` | src/runtime/host.ts:688-714 | if every flush of a turn passes and no ack is rejected over a due snapshot: fewer than N events to replay between turns, fewer than N plus the batch anywhere |
| `Recovery.ShortTailIff` | src/runtime/host.ts:694-714 | the tail is short at every await of a run iff every step of the run is smooth in that sense |
| `Recovery.SingleOwnerIsSmooth` | src/runtime/host.ts:279-282 | without fence bumps and rejected acks every run is smooth |
| `Recovery.TailOutgrowsLimit` | src/runtime/host.ts:712-714 | any batch of N events or more, with a fence bump before the flush: between turns all of them are newer than the latest snapshot |
| `Recovery.TailIsUnbounded` | src/runtime/host.ts:694-714 | for every n a run of batches of one event, with every ack rejected, ends between turns with a tail of n |
| `Recovery.TokenFreshIff` | src/runtime/host.ts:279-316 | an activated host may write iff a snapshot exists or the fence was 0 |
| `Recovery.RegistrationStrandsToken` | src/runtime/host.ts:279-316 | a run that ends with a stashed token no row stores |
| `Activation.ActivationFlushesIff` | src/runtime/host.ts:270-355 | in every run: an activation snapshots the head iff the tail has reached N, fails iff it then holds a stranded token, and otherwise opens an empty mailbox with the pending entries to offer |
| `Deactivation.DeactivationFlushes` | src/runtime/host.ts:500-528 | in every run: with the stored token a host that has committed since it opened leaves a snapshot at the head of the log, so that a cold start replays nothing; one that has not, or whose token is stale, leaves the store as it was |
| `Deactivation.DeactivationSaves` | src/runtime/host.ts:504-508 | that snapshot is the fold of the whole log |
| `Deactivation.OneCallIsSaved` | src/runtime/host.ts:688-693 | one call of one event, then a deactivation: the only snapshot is the folded state at 1 |
| `Delivery.RunAccounted` | src/runtime/host.ts:537-550 | every step keeps the books of issued, pending and acknowledged entries |
| `Delivery.RunExplained` | src/runtime/host.ts:585-700 | every acknowledgement, made or under way, has its reason in the run: the handler call that returned those rows, a message without a handler, or an enqueue that found the mailbox full |
| `Delivery.TellsAreNeverLost` | src/runtime/host.ts:537-700 | an issued entry is pending or has a fate, never both; a committed one has in the log exactly the rows its own handler returned, at the place they were appended; an unhandled one has no handler; a dropped one found the mailbox full |
| `Turns.TurnAcknowledgesIff` | src/runtime/host.ts:585-627 | in every run an undisturbed turn acknowledges its tell iff it does not fail, also when nobody handles it; every other entry waits as before |
| `Turns.DroppedIffNoRoom` | src/runtime/host.ts:537-552 | a stored tell is dropped iff its host is open, busy and full; one that finds the host gone or closing keeps its entry |
| `Redelivery.HandlerRunsAreBounded` | src/runtime/host.ts:343-355 | over every run, with any crashes, rejected acks and late tells, the handler of an entry runs at most once plus once for each activation that found it pending |
| `Redelivery.StaleTellRunsTwice` | src/runtime/host.ts:537-541 | a run without a crash or a rejected ack in which a tell is handled, acknowledged, and handled again |
| `Offers.ActivationOffersPending` | src/runtime/host.ts:343-355 | wherever the host stands when the offer arrives: as many pending entries as there is room for join the mailbox, oldest first, behind what is there; nothing is acknowledged |
| `Offers.ServedInOrder` | src/runtime/host.ts:577-583 | the worker gets items in the order the mailbox took them, and what it has not got is the buffer |
| `Offers.UpUntilEnded` | src/runtime/host.ts:261-268 | a host in service stays in service, whatever is asked of it, until a crash or a deactivation after its worker has left |
| `Offers.OfferOrder` | src/runtime/host.ts:339-355 | re-offered entries are served before every newer item iff no newer item was accepted between the opening and the offer |
| `Offers.NewerIsServedFirst` | src/runtime/host.ts:340-355 | a run in which the worker is handed a newer tell and the pending one joins the buffer behind it |
| `Delivery.EnqueueIsMailboxEnqueue` | src/runtime/host.ts:541-549 | the host's enqueue is the mailbox's, with one waiting worker |
| `Delivery.FinishIsMailboxDequeue` | src/runtime/host.ts:577-583 | ending a turn is the worker's next dequeue |
| `Mailbox.RunIsIdeal` | src/runtime/mailbox.ts:55-88 | every run leaves the ideal mailbox: call t gets accepted item t, or null once closed |
| `Mailbox.Conservation` | src/runtime/mailbox.ts:55-79 | delivered in call order, then the buffer, is what was accepted; buffer and waiters never coexist; capacity holds |
| `Mailbox.DrainsBeforeNull` | src/runtime/mailbox.ts:71-88 | a null means closed, buffer empty, and every accepted item already delivered |
| `Mailbox.AcceptsExactly` | src/runtime/mailbox.ts:55-64 | accepted iff open and fewer than capacity ahead of the consumers |
| `Mailbox.Mailbox.Enqueue` | src/runtime/mailbox.ts:55-64 | the three verdicts and the step |
| `Mailbox.Mailbox.Dequeue` | src/runtime/mailbox.ts:71-79 | buffer first, then null when closed, else a waiter |
| `Mailbox.Mailbox.Close` | src/runtime/mailbox.ts:82-88 | every waiter gets null, once |
| `Mailbox.Open` | src/runtime/mailbox.ts:34-36 | refused iff the capacity is below 1 |
| `Picking.PickIsHighest` | src/registry/resolver.ts:201-217 | null iff nothing live meets every range; else published, live, within every range, of highest precedence |
| `Picking.RepickDescends` | src/registry/resolver.ts:156-168 | a new range never raises a pick, changes it iff it refuses it, and then costs a candidate |
| `Picking.RepickStrictlyDescends` | src/registry/resolver.ts:163-168 | with distinct precedence, a changed pick goes strictly down |
| `Resolver.NextKeepsClosed` | src/registry/resolver.ts:163-185 | roots and dependencies of current picks are recorded or queued, even after a re-pick |
| `Resolver.NextKeepsExplained` | src/registry/resolver.ts:148-184 | every range keeps a justified chain from a root |
| `Resolver.NextKeepsPaid` | src/registry/resolver.ts:163-172 | each pick after the first has cost its class a candidate |
| `Resolver.Resolve` | src/registry/resolver.ts:106-197 | terminates without limits; the answer is the first thing that ends the walk without limits, in the order the loop tests: a chain too long, no candidate, a pick too many, an empty queue; all recorded chains and picks are within the limits; a result is a closed, highest, justified solution and each error means what it says |
| `Resolver.OneAnswer` | src/registry/resolver.ts:141-186 | limits or not, turn, answer and number of picks are fixed by the problem |
| `Resolver.LimitErrorIff` | src/registry/resolver.ts:143-172 | a limit error is the answer iff the walk hits that limit before it ends or hits the other |
| `Resolver.ResolvedIsWithinLimits` | src/registry/resolver.ts:143-172 | a result has no more picks than `maxNodes` and no chain longer than `maxDepth` allows |
| `Conflicts.ResolvedSolves` | src/registry/resolver.ts:186-197 | a result is a choice of live versions that satisfies the roots and its own dependencies |
| `Conflicts.StuckDecides` | src/registry/resolver.ts:141-186 | the walk of a problem ends in one way: if it gets stuck, every answer without limits is that conflict |
| `Conflicts.SolutionsDepart` | src/registry/resolver.ts:141-186 | every solution of a problem whose walk is stuck lacks a version that was chosen, among several allowed, on the chain of a clashing range |
| `Conflicts.ForcedConflictIsUnsolvable` | src/registry/resolver.ts:141-186 | a conflict whose chains left no choice means that there is no solution |
| `Conflicts.ResolvedIffSolvable` | src/registry/resolver.ts:141-197 | without limits: success only on solvable problems, and, where every range allows at most one live version, on exactly those |
| `Conflicts.ConflictIsNotUnsolvable` | src/registry/resolver.ts:156-168 | for any valid precedence, two versions and ranges that tell them apart: a solvable problem whose walk is stuck after two turns, with no pick replaced |
| `Diff.FillRow` | src/codegen/diff.ts:41-44 | one row of the table from the row below |
| `Diff.FillTable` | src/codegen/diff.ts:36-45 | dp[i][j] is the LCS length of the two suffixes |
| `Diff.Walk` | src/codegen/diff.ts:46-65 | the walk emits the canonical script, deleting before adding on a tie |
| `Diff.LcsDiff` | src/codegen/diff.ts:35-66 | the script spells both texts and its context lines are a longest common subsequence |
| `Diff.LcsIsUpperBound` | src/codegen/diff.ts:38-45 | no common subsequence beats the table |
| `Diff.ScriptSpells` | src/codegen/diff.ts:46-65 | context and deletions spell the old text, context and additions the new one |
| `Diff.ScriptIsOptimal` | src/codegen/diff.ts:46-65 | no other script keeps more lines or changes fewer |
| `Diff.PatchRecoversBoth` | src/codegen/diff.ts:18-27 | both texts are read back from the printed diff |
| `Diff.UnifiedDiff` | src/codegen/diff.ts:11-28 | empty iff the texts are equal; otherwise both are recoverable |
| `Subscribers.RunWellFormed` | src/server/subscription-registry.ts:93-176 | in every run, with hosts folding, acknowledging, emitting and being evicted in between, the three indexes and the attachments agree |
| `Subscribers.Converges` | src/runtime/host.ts:677-710 | for every reducer: a client that no spoiling step hit has its host's state and seq between turns, and lags by exactly the awaited batch during one |
| `Convergence.ConvergesIff` | src/runtime/host.ts:680-710 | with a reducer that forgets nothing and events told apart, a client is in step iff no batch it awaited lost its ack, no batch it had in its snapshot was emitted to it, and no evicted host of it went on |
| `Convergence.EveryReducerConverges` | src/runtime/host.ts:680-710 | if that client is in step, a client with any other reducer is: the schedule alone decides |
| `Departures.ThreeWaysOut` | src/runtime/host.ts:680-710 | for any event, a run for each way out of step: the ack rejected, the client attached after the fold, the host evicted under it |
| `SubscribedHost.FoldIsHostFold` | src/runtime/host.ts:677-700 | the fold of a turn is the host machine's, and a rejected ack leaves it folded |
| `SubscribedHost.SuccessorHasState` | src/runtime/host.ts:510-533 | the host after an eviction has the evicted one's state and seq, when the reducer agrees on stored payloads, and finds them in a snapshot if the evicted one had committed under the stored token |
| `SubscribedHost.EvictionIsColdStart` | src/runtime/host.ts:510-533 | the memory an eviction leaves to the next host is what a cold start reads, once the host has committed under the stored token |
| `Subscribers.EvictDeafens` | src/runtime/host.ts:824-832 | evicting a host cuts off every listener of its actor |
| `Subscribers.EvictedIsDeaf` | src/runtime/host.ts:824-832 | a listener of an evicted host stays subscribed, counts towards the cap and is sent nothing, not even a tombstone |
| `Subscribers.TombstoneEnds` | src/server/subscription-registry.ts:193-203 | a tombstone detaches and freezes the client, at the host's state if it was in step |
| `Subscribers.DetachedIsSilent` | src/server/subscription-registry.ts:163-176 | nothing is sent to a subscription that ended |
| `SubscriberCap.CapBound` | src/server/subscription-registry.ts:88-93 | subscribers plus calls that passed the check are at most the cap - 1 + the peak of calls waiting for their host |
| `SubscriberCap.CapHolds` | src/server/subscription-registry.ts:88-91 | subscribe calls that do not overlap keep an actor within its cap |
| `SubscriberCap.CapHoldsIff` | src/server/subscription-registry.ts:88-93 | runs with at most p calls waiting together all respect a positive cap iff p is at most 1 |
| `SubscriberCap.CapIsTight` | src/server/subscription-registry.ts:88-125 | the bound is met for every cap and every peak |
| `Registry.DeliverSeqEmits` | src/runtime/host.ts:749-757 | in whatever order the listeners are called, each gets the info once, nobody else anything, and the indexes agree |
| `Registry.DetachIndexed` | src/server/subscription-registry.ts:163-176 | detaching keeps all three indexes in agreement |
| `Registry.SubscriptionRegistry.CheckCap` | src/server/subscription-registry.ts:88-91 | refuses iff the actor has its cap of subscribers |
| `Registry.SubscriptionRegistry.AttachTo` | src/server/subscription-registry.ts:93-138 | once the host is there: attaches, indexes and sends the snapshot, and the indexes agree |
| `Registry.SubscriptionRegistry.DetachSub` | src/server/subscription-registry.ts:163-176 | removes the subscription from every index, keys with their last member |
| `Registry.SubscriptionRegistry.DeliverTo` | src/server/subscription-registry.ts:178-211 | one notification; a tombstone also detaches |
| `Registry.SubscriptionRegistry.EmitCommit` | src/runtime/host.ts:749-757 | calls the listeners of one host object one after the other; each gets it once, nobody else does |
| `Registry.SubscriptionRegistry.UnsubscribeConnection` | src/server/subscription-registry.ts:149-156 | drops that connection's subscriptions and no other |
| `Client.BufferingIsInvisible` | src/client/subscriptions.ts:57-94 | buffering then registering equals registering first, within the TTL |
| `Client.LateMissDrops` | src/client/subscriptions.ts:173-185 | any miss after the TTL drops an old buffer, none before does |
| `Client.TombstoneFreezes` | src/client/subscriptions.ts:118-162 | nothing after a tombstone changes the record |
| `Client.LastSnapshotAndSince` | src/client/subscriptions.ts:110-165 | a record with a reducer holds the last snapshot with every event since folded over it |
| `Client.LastBroughtWins` | src/client/subscriptions.ts:110-165 | one without holds the last state that a snapshot or a hint brought, and events alone move neither state nor seq |
| `Client.SubscriptionState.ApplyOne` | src/client/subscriptions.ts:110-165 | the switch over kinds, with the reducer loop |
| `Client.SubscriptionState.Buffer` | src/client/subscriptions.ts:173-185 | sweep, then append to this subscription's buffer |
| `Client.SubscriptionState.Flush` | src/client/subscriptions.ts:89-94 | applies the buffered notifications in order, once |
| `Sse.ReplayFromSeq` | src/server/routes/sse.ts:200-228 | the payloads after `fromSeq` in one notification, or nothing |
| `Sse.ResumeSink.Accept` | src/server/routes/sse.ts:230-249 | drops a first snapshot and every event up to the replayed seq |
| `Sse.FilterIsExact` | src/server/routes/sse.ts:230-249 | for any notes: exactly the notes other than a snapshot that comes first and events already replayed are passed on, by index, in order, once |
| `Sse.StreamNumbers` | src/server/routes/sse.ts:114-130 | for any interleaving of head check, replay, attach, commits, rejected acks and eviction: the seqs on the socket ascend, and are those of the replayed commits and of the later ones the listener gets |
| `Sse.ResumeIsExactIff` | src/server/routes/sse.ts:200-228 | for a client behind the head the host reports: exact iff replay read everything, or no unread commit was emitted before the attach, lost its ack, or came from another host object |
| `Sse.ResumeCanSkip` | src/server/routes/sse.ts:200-228 | two commits of one event: the second never arrives if it was emitted before the attach, if its ack was rejected, or if its host is another one |
| `Sse.NotBehindStartsOver` | src/server/routes/sse.ts:209-212 | a client that is not behind gets the snapshot and the later commits, gap-free iff the listener gets exactly the commits the snapshot does not hold |
| `Sse.TombstoneEndsStream` | src/server/routes/sse.ts:114-130 | resumed or not, a client is told of its actor's end iff there is one, once, and last |
| `Sse.StreamCarriesLog` | src/server/routes/sse.ts:200-249 | every event sent is the log row its seq names |
| `TokenBucket.CollectKeepsLevel` | src/limits/token-bucket.ts:105-113 | eviction changes no level, now or later |
| `TokenBucket.CollectsSeldom` | src/limits/token-bucket.ts:105-113 | at most one collection per idle window, which forgets exactly the other buckets that are idle and full to within the slack |
| `TokenBucket.RefillOnlyAdds` | src/limits/token-bucket.ts:89-103 | whatever the clock does, a refill takes nothing away and stays within the capacity |
| `TokenBucket.FreeIsGranted` | src/limits/token-bucket.ts:61-64 | a cost of 0 or less is granted with the capacity as remainder and changes nothing |
| `TokenBucket.TryMeetsLevel` | src/limits/token-bucket.ts:61-76 | granted iff the level covers the cost; takes exactly what it grants |
| `TokenBucket.TryKeepsOthers` | src/limits/token-bucket.ts:89-103 | no request moves another subject's level |
| `TokenBucket.WindowBound` | src/limits/token-bucket.ts:61-103 | grants in any window are at most capacity plus inflow |
| `TokenBucket.BoundedIffPatient` | src/limits/token-bucket.ts:105-113 | the bound holds for every run iff the idle window refills what eviction forgives |
| `TokenBucket.RetryIsExactIff` | src/limits/token-bucket.ts:72-113 | for any limiter the retry time is exact iff the bucket is too empty to be evicted, or has refilled by the first ms at which it could be |
| `TokenBucket.AlwaysToldRightIff` | src/limits/token-bucket.ts:72-113 | every denial of every run is told the exact time iff the limiter refills what eviction forgives by the first ms at which a bucket can be evicted |
| `TokenBucket.HastyIsToldWrong` | src/limits/token-bucket.ts:72-113 | any other limiter tells a wrong time in a run of two requests |
| `TokenBucket.RetryIsExact` | src/limits/token-bucket.ts:72-75 | in particular when the idle window refills the slack, wherever the collector stands: the least whole number of ms after which the request succeeds |
| `TokenBucket.BeyondCapacityIsNeverGranted` | src/limits/token-bucket.ts:68-75 | a cost above capacity is always denied, with a retry time all the same |
| `TokenBucket.TokenBucket.MaybeGc` | src/limits/token-bucket.ts:105-113 | the loop evicts exactly the idle full buckets |
| `TokenBucket.TokenBucket.Peek` | src/limits/token-bucket.ts:89-103 | refill, capped, and touch |
| `TokenBucket.TokenBucket.Try` | src/limits/token-bucket.ts:61-76 | reply and state of one request |
| `Loader.LoadRefinesUncached` | src/runtime/loader.ts:106-129 | a cached load returns what compiling would, and refuses an expired version it has cached |
| `Loader.HeldIsNeverEvicted` | src/runtime/loader.ts:225-240 | an entry with references survives every load |
| `Loader.HeldUntilReleased` | src/runtime/loader.ts:135-145 | over any part of any run an acquired class keeps its very constructor, and exactly the references acquired and not released, until they run out |
| `Loader.VictimIsLeastRecentlyLoaded` | src/runtime/loader.ts:227-236 | the evicted entry was loaded longest ago among those nobody holds |
| `Loader.ReleaseUndoesAcquire` | src/runtime/loader.ts:135-145 | a release undoes an acquire |
| `Loader.PublishKeeps` | src/storage/memory.ts:345-363 | with an injective hash, publishing never changes a cached class |
| `Loader.RunGood` | src/runtime/loader.ts:106-240 | over every run loads are uncached loads, and size is at most max(cap, 1 + peak held) |
| `Loader.LoadsFirstSource` | src/storage/memory.ts:345-400 | in every run a load gives the class compiled from the first source published for the version, unless the grace period last given to it is over |
| `Loader.EvictsOnlyAboveCap` | src/runtime/loader.ts:225-240 | below the cap a load forgets nothing; above it one entry at most, never the one it returns |
| `Loader.ClassLoader.Load` | src/runtime/loader.ts:106-129 | every outcome, with the cache it leaves |
| `Loader.ClassLoader.MaybeEvict` | src/runtime/loader.ts:225-240 | the scan finds the least recently used eligible entry, first inserted among equals |
| `Loader.ClassLoader.AcquireSha` | src/runtime/loader.ts:135-138 | one more reference, if cached |
| `Loader.ClassLoader.ReleaseSha` | src/runtime/loader.ts:141-145 | one reference less, never below 0 |
| `Directory.RunAccounts` | src/runtime/directory.ts:74-147 | in every run counters equal live hosts and no id is both live and in flight |
| `Directory.OneHostServes` | src/runtime/directory.ts:74-111 | every resolve until the host ends is served by the same host object |
| `Directory.FirstTouchStartsIff` | src/runtime/directory.ts:74-123 | in every run a known class that nobody serves is started, under a host no other id has, iff there is no cap or fewer of its hosts are live |
| `Directory.RefusedOtherwise` | src/runtime/directory.ts:74-90 | refused as destroyed iff shutdown began, as unknown iff nobody serves the id and the class is not registered |
| `Directory.EndOfActivation` | src/runtime/directory.ts:103-111 | a finished activation is live under the host it started with, a failed one is gone, no other id notices |
| `Directory.EvictedIsGone` | src/runtime/directory.ts:141-147 | an evicted host serves no longer and its class has one live host less |
| `Directory.SuccessorIsNew` | src/runtime/directory.ts:96-102 | a started host is none that ever served |
| `Directory.ShutdownEmpties` | src/runtime/directory.ts:163-174 | once nothing is in flight, a shutdown leaves no host and no count |
| `Directory.CapBound` | src/runtime/directory.ts:85-123 | live plus in flight is at most cap - 1 + peak in flight |
| `Directory.NoOverlapNoExcess` | src/runtime/directory.ts:113-123 | without overlapping activations the cap holds |
| `Directory.CapIsTight` | src/runtime/directory.ts:113-123 | for every cap and every peak p some run ends with cap - 1 + p live hosts |
| `Directory.CapHoldsIff` | src/runtime/directory.ts:113-123 | runs with at most p overlapping activations all respect the cap iff p is at most 1 |
| `Directory.Directory.StartResolve` | src/runtime/directory.ts:74-102 | cached, in flight, unknown class, over cap, or started |
| `Directory.Directory.FinishResolve` | src/runtime/directory.ts:103-111 | live, counted, no longer in flight |
| `Directory.Directory.FailResolve` | src/runtime/directory.ts:103-111 | no longer in flight, nothing counted |
| `Directory.Directory.CheckActiveCap` | src/runtime/directory.ts:113-123 | refuses iff a positive cap is reached |
| `Directory.Directory.BumpActive` | src/runtime/directory.ts:125-133 | counters at or below 0 disappear |
| `Directory.Directory.EvictHost` | src/runtime/directory.ts:141-147 | not live, counted out |
| `Reminders.RunGood` | src/storage/valkey-pg.ts:389-456 | in every run, whatever the column does to texts: members carry their row's time, are in one place, and every undelivered row has one |
| `Reminders.InitRestoresQueue` | src/storage/valkey-pg.ts:94-97 | a completed init leaves every undelivered row in the sorted set, and of a reminder whose text comes back unchanged nothing else |
| `Reminders.NothingIsEarly` | src/storage/valkey-pg.ts:400-411 | nothing is popped before its time, earlier reminders first |
| `Reminders.NothingDueIsLeft` | src/storage/valkey-pg.ts:400-411 | a pop takes no more than its limit, and if fewer, nothing due is left |
| `Reminders.PopsAreBounded` | src/storage/valkey-pg.ts:413-423 | popped once per member it has had, one or two, plus once per removal cut off from its mark |
| `Reminders.NothingIsLost` | src/storage/valkey-pg.ts:389-423 | while running, an undelivered reminder is queued, about to be, or just popped |
| `Reminders.FlushedIsRestored` | src/storage/valkey-pg.ts:430-456 | after a crash that flushed the sorted set, recovery restores the queue exactly, whatever the columns do |
| `Reminders.ExactlyOnceIff` | src/storage/valkey-pg.ts:430-456 | every run that enqueues messages of a kind restores its queue and pops once plus once per cut iff the columns give every such message they take back unchanged |
| `Reminders.ChangedTextIsPoppedTwice` | src/storage/valkey-pg.ts:444-453 | any message that comes back changed has a run in which it is popped twice with no crash in between |
| `Jsonb.HiToXIsPoppedTwice` | migrations/0002_reminders.up.sql:12 | a message with the payload {"text":"hi","to":"x"} is such a message |
| `Jsonb.UpperCaseIdIsPoppedTwice` | migrations/0002_reminders.up.sql:9 | so is one to a uuid with letters in upper case, whatever its payload |
| `Jsonb.UuidIffPlain` | migrations/0002_reminders.up.sql:9 | `uuid` gives a text back unchanged iff it has five groups of lower-case digits, 8, 4, 4, 4 and 12 |
| `Jsonb.UuidTakesIff` | migrations/0002_reminders.up.sql:9 | the column takes exactly eight groups of four digits with at most one hyphen between two groups, in braces or not |
| `Jsonb.UuidKeepsDigits` | migrations/0002_reminders.up.sql:9 | it keeps the 32 digits, in lower case and with its own four hyphens |
| `Utf8.BytesOrderLikeChars` | migrations/0002_reminders.up.sql:12 | the encoding of RFC 3629 orders texts by bytes as by characters |
| `Jsonb.UnchangedIffInOrder` | migrations/0002_reminders.up.sql:12 | `jsonb` gives a value back unchanged iff every object in it, at any depth, has its names in order |
| `Jsonb.UnchangedIffCanonical` | src/storage/valkey-pg.ts:430-456 | a message the columns take comes back unchanged iff its actor id is such a uuid and its payload is in order |
| `Jsonb.ExactlyOnceIffCanonical` | src/storage/valkey-pg.ts:430-456 | so reminders are exact iff the messages used have such ids and payloads |
| `Reminders.EnqueueIsSteps` | src/storage/valkey-pg.ts:389-398 | enqueueing is the row, then the member, as two steps of the protocol |
| `Reminders.PopIsSteps` | src/storage/valkey-pg.ts:400-424 | popping is the script, then the mark |
| `Reminders.RecoverIsSteps` | src/storage/valkey-pg.ts:430-456 | recovery is the read and one add per row, in any order |
| `Reminders.ReminderStore.EnqueueReminder` | src/storage/valkey-pg.ts:389-398 | the row with the message as the columns keep it and the member with the message as it was given; nothing if the columns refuse it |
| `Reminders.ReminderStore.PopDueReminders` | src/storage/valkey-pg.ts:400-424 | the earliest due members up to the limit leave the set and are marked |
| `Reminders.ReminderStore.RecoverReminders` | src/storage/valkey-pg.ts:430-456 | every undelivered row is a member again, with the text the column gives back; other members stay |
| `Jose.TrimLeadingZeros` | src/server/auth.ts:447-451 | leading zeros go, the last byte stays |
| `Jose.JoseEcdsaToDer` | src/server/auth.ts:434-445 | 64 bytes become DER that decodes to r and s; other lengths pass through |
| `Jose.RoundTrip` | src/server/auth.ts:434-459 | a strict DER reader gets back both big-endian values |
| `Jose.ConvertIsInjective` | src/server/auth.ts:434-459 | different signatures give different DER |
| `Jose.ConvertIsCanonical` | src/server/auth.ts:434-459 | the output is the only DER text that decodes to the two numbers |

## Left out

- Single-writer-mailbox actors: handlers mutate state in place, snapshots are debounced by a timer and JSON patches come from a library.
- Class versions: migration of snapshots and events, sticky and floating loading; every run stays within one version.
- User hooks (`onInit`, `onActivate`, `onDeactivate`) and overridden `snapshot()`: `onInit` is folded into the initial state.
- Timers of the host: idle deactivation is a deactivation at any time; `touch` is not modelled.
- Jsonb.Stored: what the columns refuse beyond an id that is no uuid, such as a NUL character, is a parameter; strings and numbers keep their value in `jsonb`, and JavaScript writes a value in one way.
- Host steps: a fence bump cannot fall between the token read and the registration of an activation, and a tell in flight over a re-activation joins the new mailbox only once the host is open.
- Conflicts.ResolvedIffSolvable: where ranges leave a choice, no condition for a conflict to mean unsolvable is given beyond its chains.
- Resolver order: independence of the order of roots is not claimed, because what a pick asks for stays when the pick is replaced.
- Resolver strings: chains are lists of hops, not joined text, and catalog lookups are a finite map instead of awaited calls.
- Loader.RunGood: loads run one at a time; the gap between `load` and `acquire`, and TypeScript compilation itself, are not modelled.
- Registry.SubscriptionRegistry.DeliverTo: patch notifications of single-writer actors are not modelled; a sink that throws is caught and changes nothing else, so it needs no step.
- Client.SubscriptionState.ApplyOne: patch notifications and the calls of local listeners are not modelled.
- Subscribers.Converges: an eviction happens between turns, after the host's flush, and its successor's state is taken from `SubscribedHost.SuccessorHasState`.
- Registry.DeliverAll: the loops over listeners and over a connection's subscriptions run on the registry's value, which the methods then assign to the fields.
- Client transport, RPC, offline queue and optimistic updates.
- The rest of the storage layer: SQL snapshots, class tables, manifests, idempotency records, audit entries; timestamps and causation ids of events.
- TokenBucket.WindowBound: reals instead of doubles, so rounding is not modelled.
- Authentication, policies, capabilities, signing, metrics, logging, HTTP routing, CLI and UI bindings.
