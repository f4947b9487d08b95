# NexusChat protocols in Dafny

NexusChat keeps its state in Cassandra and Redis and runs several concurrent protocols on top of
them. This project models the ones whose correctness is not visible in any single function, and
proves what they guarantee. `dafny verify dfyconfig.toml` checks everything.

How it is modelled: a table, a Redis key or a cache is a map or a set; one Cassandra statement
(a conditional update included), one Redis command or one Lua script is one atomic step. For the
concurrent protocols a run is any finite sequence of such steps by any number of processes; a process
may stop anywhere, and a statement may be lost before it takes effect or have its reply lost after.
Beside each machine the operation is written in its own form, as a class whose methods update the same
tables, and tied to the machine or to a function that the theorems are about.

| file | contents |
|---|---|
| Outbox, OutboxRuns, OutboxTheorems | the notification outbox: rows and conditional updates, the machine of enqueuers and workers with its invariant, what holds in every run |
| OutboxStore | Store, CassandraDeliverer and Worker as code, and their calls as runs of the machine |
| OutboxRecovery, OutboxWindow, OutboxLost, OutboxFate, OutboxHidden | which rows a scan reads and how far back in clock time, which intents it recovers after a crash, exactly which are never claimed again, and a run that loses one |
| OutboxEndless | retries without end when status reads fail |
| OutboxScans, OutboxAnomaly | when a batch can hold an intent twice and when a claim comes too early |
| Friends, FriendRaces | friend requests call by call with their Redis mirror, and statement by statement under concurrency |
| DirectChannel, DirectChannelTheorems, DirectChannelStore | reservation of one direct channel per pair, its roll-back and the loser's path |
| Names, Identity, IdentityStore | unique usernames and handles, claims with roll-back, Signup |
| Search | the lexicographic prefix index and SearchUsers |
| Messages, ReadPointer, Membership | message quota, read pointer, membership cache |
| RateLimit, Moderation, ModerationRuns, Assertions | token bucket, flood window and scoring, exactly which messages flood, repeat and are muted, nonce memory |
| Ranking, Ranks | topic lists and candidate ranking |
| Basics, Text | optional values and statement failures; byte order, folding, decimal numbers |

What the proofs found about the code:

- A ClaimDue batch is distinct exactly as long as scans finish within their lease (if the batch size and
  the attempts are more than one). The claim does not recheck the due time, so a retry between a scan's
  read and its claim lets it apply early.
- Index rows are never removed and every SELECT takes at most batchSize of them: an intent whose row has
  batchSize others of any kind before it in its day bucket is never claimed, so a burst of one intent more
  than the batch size loses the last one.
- An intent is lost too if its row leaves the eight buckets before it is due and its last lease is over.
- If status reads fail, the attempt count starts over and an intent can be retried without end.
- Redelivery makes a notification unread again.
- Two friend requests that cross leave requests pending both ways.
- Unfriending leaves the accepted row: its sender can never send again, its recipient can restore the
  friendship alone.
- Without a stored row, accepting through the Redis mirror makes friends without a conditional update.
- The direct-channel roll-back covers failures after the reservation call only: if the by-id insert
  inside that call fails, the pair stays taken by a channel without members. And while a winner is
  unfinished its channel, already handed to others, can still disappear.
- If the reply of a user record write is lost, the user stays stored while its claims are deleted.
- The token bucket needs rate * ttl >= burst; backward clock steps add to what it grants.
- The flood check blocks by itself only up to a block score of 90.
- A nonce can be replayed if the lock is taken after the assertion expired although it was checked before.
- overlap counts repeated values of its second list as shared.
- README.md of the repository names the final state `dead`; the code stores `dead_letter`, as modelled.

## Model

| member | source | states |
|---|---|---|
| `OutboxTheorems.LeasesNeverOverlap` | pkg/notification/outbox.go:138-204 | In every run of any number of enqueuers and workers, with failures and crashes, the stamped leases of two claims on one intent are disjoint and ordered unless a retry released the intent in between. |
| `OutboxTheorems.SupersededWorkerChangesNothing` | pkg/notification/outbox.go:181-204 | A Complete or Retry by a worker whose claim was superseded leaves every by-id row as it is. |
| `OutboxTheorems.BatchesAreBoundedAndDistinct` | pkg/notification/outbox.go:138-179 | In every run a batch never exceeds the limit, and holds an intent twice only if a retry released that intent between the two claims. |
| `OutboxAnomaly.BatchesAreDistinctExactlyWhen` | pkg/notification/outbox.go:138-204 | For every configuration and every scan length d: all batches of all runs whose scans last at most d are distinct if and only if d is at most the lease, or the batch size is one, or the first failure already ends an intent. |
| `OutboxAnomaly.BatchCanHoldAnIntentTwice` | pkg/notification/outbox.go:149-177 | For every configuration with room for two intents and two attempts and every d beyond the lease, a run with scans of at most d in which a batch holds one intent twice, the second claim applied one tick after the lease and before the intent is due again. |
| `OutboxScans.ScansWithinTheLeaseAreDistinct` | pkg/notification/outbox.go:147-177 | If every scan is over within its own lease, every batch of every run is distinct. |
| `OutboxScans.EarlyClaimExactlyWhen` | pkg/notification/outbox.go:154-168 | With anything happening between a worker's read of a row and its claim, a claim that applies is before the due time if and only if a retry applied in between and the last one rescheduled the intent past the scan's clock reading. |
| `OutboxScans.DueTimeIsTheLastRetrys` | pkg/notification/outbox.go:193-204 | Over any stretch of applied updates the due time is that of the stretch's last retry, and unchanged without one. |
| `OutboxTheorems.SettledRowsNeverChange` | pkg/notification/outbox.go:181-204 | Complete and dead-letter rows never change again in any continuation of any run. |
| `OutboxTheorems.CompleteMeansDeliveredOnce` | pkg/notification/delivery.go:20-26 | A complete intent has a notification with exactly the enqueued contents, and redelivery never adds a second row for it. |
| `OutboxTheorems.ReadExactlyWhen` | pkg/notification/delivery.go:20-26 | After any run a delivered notification is read if and only if it was marked read and its intent was not delivered since: every redelivery makes it unread again. |
| `OutboxTheorems.FailureRaisesAttemptsByOne` | pkg/notification/outbox.go:193-204 | A recorded failure whose status read succeeded raises attempts by exactly one, sets the due time to the clock reading plus the delay for that attempt, releases the lease, and lowers maxAttempts - attempts by one. |
| `OutboxTheorems.RetriesAreCountedAndBounded` | pkg/notification/worker.go:97-117 | In every run the attempt count is the number of recorded retries from the last one on whose status read failed, and stays below maxAttempts; an intent dies exactly at its maxAttempts-th counted failure; if all status reads succeed every retry counts. |
| `OutboxEndless.MisreadsRetryForEver` | pkg/notification/worker.go:111-117 | For every configuration with two attempts or more and every n, a run in which an intent is retried n times and is still pending with a count of at most 1. |
| `OutboxTheorems.FinishedIntentsAreIndexed` | pkg/notification/outbox.go:56-95 | Wherever anyone stopped or crashed, every pending intent whose Enqueue returned nil has an index row at exactly its next attempt time. |
| `OutboxRecovery.ClaimedExactlyWhen` | pkg/notification/outbox.go:138-179 | After any run, one undisturbed ClaimDue claims an intent if and only if it is pending, due and unleased and one of its due index rows, in one of the eight buckets, has fewer rows before it than the claims from newer buckets leave of the limit. |
| `OutboxRecovery.ScansExactly` | pkg/notification/outbox.go:148-153 | The day loop reads an intent if and only if a due row of it stands at a position of its bucket below the limit minus the claims made from newer buckets. |
| `OutboxRecovery.LapsedIntentsAreRecovered` | pkg/notification/outbox.go:56-179 | Crash recovery: after any run, wherever anyone stopped, a pending intent whose Enqueue returned nil is claimed once it is due and its lease lapsed, if its row at that due time meets this condition. |
| `OutboxRecovery.UncutScansRecover` | pkg/notification/outbox.go:148-177 | In particular whenever the due rows of each bucket, settled ones included, fit what the claims from newer buckets leave of the limit, so that LIMIT cuts none of the SELECTs. |
| `OutboxRecovery.RunsKeepIndex` | pkg/notification/outbox.go:91-95 | In every run each bucket stays in clustering order, has one row per key and holds rows of its own day only. |
| `OutboxRecovery.PositionIsAhead` | pkg/notification/outbox.go:150-151 | So a row's position is the number of rows before its key. |
| `OutboxWindow.ClaimedInClockTime` | pkg/notification/outbox.go:89-179 | The same in clock time: after any run, when LIMIT cuts nothing, one undisturbed ClaimDue claims exactly the pending, due and unleased intents with an index row due between the midnight (UTC) seven days ago and now, a day being 86,400 seconds. |
| `OutboxWindow.SevenDaysAreEnough` | pkg/notification/outbox.go:56-179 | So an intent whose Enqueue returned nil is claimed at any time up to seven times 24 hours after it became due, once its last lease is over. |
| `OutboxWindow.EightDaysAreTooMany` | pkg/notification/outbox.go:148-153 | With or without LIMIT, an intent all of whose index rows were due more than eight times 24 hours ago is not claimed. |
| `OutboxFate.LostExactlyWhen` | pkg/notification/outbox.go:138-204 | After any run, with nobody at work on a pending intent and no scan under way: no continuation claims it if and only if each of its index rows stands behind at least batchSize others of its bucket or will have left the eight buckets at the first clock reading at which row and intent are due and its last lease is over. |
| `OutboxFate.RowInReachIsUsed` | pkg/notification/outbox.go:138-179 | Otherwise waiting for that clock reading and fault-free scans of new workers alone claim it. |
| `OutboxLost.LimitHidesLiveOnes` | pkg/notification/outbox.go:148-177 | A pending intent nobody is at work on, whose every row stands behind at least batchSize others of its bucket, is claimed by no undisturbed ClaimDue and in no continuation, whatever has become of the intents before it and whatever scans are under way. |
| `OutboxLost.OutOfReachIntentsAreLost` | pkg/notification/outbox.go:148-168 | With scans under way too: an intent all of whose rows are behind the limit or will have left the eight buckets at their first chance, and that no scan under way can claim, is claimed in no continuation, even if it is enqueued again. |
| `OutboxLost.LostForever` | pkg/notification/outbox.go:56-179 | The invariant behind these, kept by every step of every process; no claim of the intent is ever applied. |
| `OutboxHidden.BurstLosesTheLast` | pkg/notification/outbox.go:56-177 | For every configuration a run that enqueues batchSize + 1 intents at one tick and does nothing else, after which the last of them is claimed in no continuation whatever. |
| `OutboxStore.ClaimDueExact` | pkg/notification/outbox.go:138-179 | One ClaimDue takes exactly the pending, due, unleased intents among the rows it reads, each once, and changes only their leases. |
| `OutboxStore.ClaimDueIsARun` | pkg/notification/outbox.go:138-179 | The undisturbed call is a run of the transition system's own steps and reaches exactly its tables and batch. |
| `OutboxStore.ProcessIsARun` | pkg/notification/worker.go:89-117 | The whole process call is a run of it too: the scan, some time, and the settling of its batch, with exactly the tables Process leaves. |
| `OutboxStore.ProcessSettlesEachOnce` | pkg/notification/worker.go:89-109 | Each held intent of a batch is settled once, by its own delivery outcome. |
| `OutboxStore.ProcessOutcome` | pkg/notification/worker.go:89-109 | One process call settles every claimable intent it reads by its own outcome, keeps retried ones findable, and changes no other row. |
| `OutboxStore.Store.Send` | pkg/notification/outbox.go:181-191 | A conditional update applies exactly when its condition holds, and otherwise changes nothing. |
| `OutboxStore.Store.AddIndexRow` | pkg/notification/outbox.go:91-95 | Upserts one row of the day bucket of its due time. |
| `OutboxStore.Store.Deliver` | pkg/notification/delivery.go:20-26 | Upserts the notification under the intent's own key. |
| `OutboxStore.Store.Enqueue` | pkg/notification/outbox.go:56-87 | Valid exactly if id, user, type and creation time are set; a first enqueue stores and indexes a pending row, a repeated one of a pending intent only indexes it again, one of a settled intent or an invalid one changes nothing. |
| `OutboxStore.Store.ClaimSelected` | pkg/notification/outbox.go:152-172 | The inner loop takes the claimable intents of one SELECT's rows in order. |
| `OutboxStore.Store.ClaimDue` | pkg/notification/outbox.go:138-179 | The loops, with the defaults of 50 intents and 30 seconds, compute the specified scan over eight day buckets, whose reach in clock time is OutboxWindow.ClaimedInClockTime. |
| `OutboxStore.Store.Complete` | pkg/notification/outbox.go:181-191 | Completes the row only if it is pending and owned by the caller. |
| `OutboxStore.Store.Retry` | pkg/notification/outbox.go:193-204 | Dead-letters at the last attempt, else indexes the new due time first and then reschedules the row. |
| `OutboxStore.Store.Settle` | pkg/notification/worker.go:95-108 | One intent of the batch: deliver and complete, or record the failure. |
| `OutboxStore.Store.Process` | pkg/notification/worker.go:89-109 | Claims a batch and settles its intents in order; the tables it leaves are those of the run in ProcessIsARun. |
| `OutboxRuns.RunsKeepInv` | pkg/notification/worker.go:89-117 | The protocol invariant holds after every run: the row table is the replay of its applied updates, held intents are recorded, leases are stamped by the clock, and finished intents stay indexed. |
| `OutboxRuns.StepKeepsInv` | pkg/notification/outbox.go:56-204 | Every single statement, failure or crash keeps the invariant. |
| `Outbox.LeasesDisjoint` | pkg/notification/outbox.go:165-168 | Follows from the conditional updates alone, for any log of applied ones. |
| `Outbox.SupersededIsHarmless` | pkg/notification/outbox.go:181-204 | After another owner's latest claim no settlement by the earlier owner is legal. |
| `Outbox.SettledForever` | pkg/notification/outbox.go:181-204 | No legal update changes a settled row. |
| `Outbox.RowHoldsEnqueuedBody` | pkg/notification/outbox.go:65-77 | A row keeps the contents it was first enqueued with. |
| `Outbox.AttemptsCountRetries` | pkg/notification/outbox.go:193-204 | For any log of applied updates: attempts equal the number of retries from the last one on that could not read the count. |
| `Outbox.InsertIndexes` | pkg/notification/outbox.go:91-95 | An index insert adds exactly its own (due time, id) key. |
| `Outbox.UpsertClustered` | pkg/notification/outbox.go:91-95 | An insert keeps a partition in clustering order with one row per key. |
| `Outbox.DueEntriesClustered` | pkg/notification/outbox.go:150-151 | In a clustered partition the due rows are a prefix. |
| `Outbox.RetryDelay` | pkg/notification/outbox.go:101-122 | The doubling loop returns min(base * 2^(attempts-1), max) with the defaults, and none of the values its variable takes exceeds max(base, max). |
| `Outbox.DelayDoubles` | pkg/notification/outbox.go:101-122 | The first delay is the base, each further one twice the one before, all cut at the cap; the defaults are one second and five minutes. |
| `Outbox.DelayGrows` | pkg/notification/outbox.go:101-122 | Delays are positive, never shrink with the attempt number and stay within the cap. |
| `Friends.RunsStayConsistent` | pkg/user/repo.go:327-546 | Every sequential run of send, accept, decline, cancel and unfriend keeps the tables and their Redis mirror consistent. |
| `Friends.RelationsMirrorEachOther` | pkg/user/service.go:341-375 | After any such run chat's AreFriends equals the user service's IsFriend, friendship is symmetric, outgoing mirrors incoming, and requests never pend both ways. |
| `Friends.RelationFromRows` | pkg/user/service.go:341-375 | What a user is told after any such run, exactly, from the durable rows: friends by the edge, else outgoing by the own pending request, incoming by the other's, declined by the own declined one, else none. |
| `Friends.SendingPends` | pkg/user/service.go:258-317 | A send that answers Ok leaves its request pending and changes no other row or edge: the sender sees it outgoing, the recipient incoming; a refused one changes nothing. |
| `Friends.AcceptingBefriends` | pkg/user/repo.go:446-508 | An accept succeeds exactly on a pending or accepted request, which is then accepted, with both edges there; a refused one changes nothing. |
| `Friends.DecliningDeclines` | pkg/user/repo.go:510-546 | A decline succeeds exactly on a pending or declined request, which is then declined, no edge changing; a refused one changes nothing. |
| `Friends.CancellingRemoves` | pkg/user/repo.go:596-625 | A cancel succeeds exactly on the caller's pending request, which is then gone, no edge changing; a refused one changes nothing. |
| `Friends.UnfriendingEnds` | pkg/user/repo.go:658-669 | Afterwards neither is the other's friend for either service, and all requests and other edges stay. |
| `Friends.SendSucceedsExactlyWhen` | pkg/user/service.go:258-317 | Exactly when a request can be sent, in terms of the stored state. |
| `Friends.RefusalsExactly` | pkg/user/service.go:258-317 | And which error a refused request gets, each one by an exact condition on the stored rows and the safety answer. |
| `Friends.AcceptedForever` | pkg/user/repo.go:658-669 | An accepted row survives everything including unfriending: its sender can never send again, its recipient restores the friendship by accepting once more. |
| `Friends.OnlyAcceptMakesFriends` | pkg/user/repo.go:446-508 | Without an accept between the two, no sequence of calls makes them friends. |
| `Friends.CancelUndoesSend` | pkg/user/repo.go:596-625 | Cancelling a first request restores every table. |
| `Friends.FriendRepo.StatusCas` | pkg/user/repo.go:334-349 | The conditional status update applies exactly when the status is the expected one. |
| `Friends.FriendRepo.CreateFriendRequest` | pkg/user/repo.go:327-380 | Inserts, or re-opens a declined row, and writes the mirror. |
| `Friends.FriendRepo.GetFriendRequests` | pkg/user/repo.go:409-444 | Returns exactly the senders pending in the table or the mirror. |
| `Friends.FriendRepo.IsFriendOf` | pkg/user/repo.go:382-407 | True exactly if either store has the edge. |
| `Friends.FriendRepo.SendFriendRequest` | pkg/user/service.go:258-317 | The checks in order and their errors, then the request. |
| `Friends.FriendRepo.MoveMirrorToFriends` | pkg/user/repo.go:468-508 | Both edges in both stores, and the pending mirror entries removed. |
| `Friends.FriendRepo.AcceptFriendRequest` | pkg/user/repo.go:446-508 | Accepts a pending row, repeats an accepted one, falls back to the mirror without a row, and refuses otherwise. |
| `Friends.FriendRepo.DeclineFriendRequest` | pkg/user/repo.go:510-546 | The same for declining. |
| `Friends.FriendRepo.CancelFriendRequest` | pkg/user/repo.go:596-625 | Deletes a pending row of the sender and its mirror entries. |
| `Friends.FriendRepo.RemoveFriend` | pkg/user/repo.go:658-669 | Removes all four edges and leaves the request row. |
| `Friends.FriendRepo.GetRelationshipStatus` | pkg/user/service.go:341-375 | Friends, outgoing, incoming, declined or none, in that order of precedence; what each answer says about the rows is RelationFromRows. |
| `FriendRaces.PhasesEndOnce` | pkg/user/repo.go:334-349 | Over every interleaving a request is re-sent only after its phase ended, each pending phase ends by at most one applied update, and an acceptance is final. |
| `FriendRaces.AcceptanceIsFinal` | pkg/user/repo.go:446-485 | After an applied acceptance no later update of that request applies. |
| `FriendRaces.RunsJustifyEdges` | pkg/user/repo.go:446-508 | Every friendship edge of every run, in Cassandra or in the Redis mirror, was there before or stems from an acceptance of one of the two requests. |
| `FriendRaces.FriendsOnlyByAccepting` | pkg/user/repo.go:446-546 | Over every interleaving of any users' operations, two users become friends, for the user service or for chat, only by an applied accept update of one of their two requests, or by the mirror fallback, which only a request can take that is accepted in the run and had no row at the start or is cancelled in it. |
| `FriendRaces.BothPendExactlyWhen` | pkg/user/service.go:258-317 | In any run whose sends all go through SendFriendRequest, requests come to pend both ways if and only if two sends cross: one checks for the reverse request before it is there and applies its own update after. |
| `FriendRaces.CrossingRequests` | pkg/user/service.go:258-317 | For any two users a run of their two first requests that does so. |
| `FriendRaces.AcceptIsRestartable` | pkg/user/repo.go:446-485 | An accept that stopped anywhere after its update is completed by running it again: both edges in both stores, no pending mirror entry. |
| `FriendRaces.CallsAreSoloRuns` | pkg/user/repo.go:327-669 | Every sequential operation, SendFriendRequest of known and unblocked users with its checks included, is one process of the interleaving machine run to its end. |
| `FriendRaces.FallbackAcceptsWithoutUpdate` | pkg/user/repo.go:486-508 | A concrete race with the first send in which the mirror fallback makes friends although no conditional update applied and the row stays pending. |
| `DirectChannelTheorems.OneChannelPerPair` | pkg/chat/service.go:539-611 | Over every interleaving in which no call fails after reserving, a pair's channel is never replaced, at most one id wins each pair, and every successful call returns it whichever user is named first. |
| `DirectChannelTheorems.SuccessesAgree` | pkg/chat/service.go:539-611 | In every run at all, successful calls for a pair whose reservation was never rolled back return the same stored channel. |
| `DirectChannelTheorems.PermanentExactlyWhen` | pkg/chat/service.go:575-611 | A stored reservation survives all continuations if and only if its winner is neither past the reservation and unfinished nor rolling it back. |
| `DirectChannelTheorems.CreatedForever` | pkg/chat/service.go:594-611 | Once its creator returned, a channel keeps its pair under the smaller and larger id, its by-id row, its kind, placeholder 0 and both members in table and cache, whatever other calls do and however they fail. |
| `DirectChannelTheorems.LoserDeletesOnlyItsOwn` | pkg/chat/repo.go:536-547 | Every statement of a loser's DeleteChannel leaves both direct-channel tables and all rows of other channels unchanged. |
| `DirectChannelTheorems.OnlyThePairIsInside` | pkg/chat/repo.go:671-686 | No run puts anyone but the two users and placeholder 0 into a pair's channel, and its by-id row names exactly that pair. |
| `DirectChannel.RunsKeepInv` | pkg/chat/service.go:539-611 | The protocol invariant holds after every run with arbitrary failures. |
| `DirectChannel.StepKeepsInv` | pkg/chat/repo.go:671-693 | Every single statement keeps it. |
| `DirectChannel.StatementsAreAllowed` | pkg/chat/service.go:539-611 | Each call writes only rows of the id it drew, except for the by-id and kind rows that any finder of the channel writes again. |
| `DirectChannelStore.ChannelStore.AddUserToChannel` | pkg/chat/repo_cache.go:76-82 | The table row first, the cache entry only after it. |
| `DirectChannelStore.ChannelStore.DeleteChannel` | pkg/chat/repo.go:536-547 | Removes all rows of the channel and the pair its by-id row names. |
| `DirectChannelStore.ChannelStore.GetDirectChannel` | pkg/chat/repo.go:617-632 | Finds the pair's channel in either argument order and backfills its by-id row, ignoring that write's error. |
| `DirectChannelStore.ChannelStore.ReservePair` | pkg/chat/repo.go:671-686 | Reserved, lost or failed, with the exact rows left in each case. |
| `DirectChannelStore.ChannelStore.Furnish` | pkg/chat/service.go:594-607 | The winner's further rows, all of them or an error with only rows of its own channel added. |
| `DirectChannelStore.ChannelStore.ReserveNew` | pkg/chat/service.go:468-481 | The new channel's row, its first kind and the reservation. |
| `DirectChannelStore.ChannelStore.Make` | pkg/chat/service.go:571-611 | Alone, a failure after the reservation restores all tables; a failure during it leaves the pair taken if and only if the conditional insert took effect. |
| `DirectChannelStore.ChannelStore.CreateDirectChannel` | pkg/chat/service.go:539-611 | Every answer of the call and the tables it leaves, for every statement that may fail. |
| `DirectChannelStore.LoneCallCreates` | pkg/chat/service.go:571-611 | In the concurrent machine an undisturbed call that finds no channel ends with exactly the tables of the sequential form, its own finished channel. |
| `DirectChannelStore.LoneCallFinds` | pkg/chat/service.go:560-567 | And one that finds a channel returns it, with by-id row and kind written again. |
| `Identity.StoredUsersOwnTheirNames` | pkg/user/repo.go:80-125 | Over every interleaving of single Redis commands and every failure, a stored user owns the claims of its username and handle unless its own record write took effect but reported an error. |
| `Identity.NamesAreUnique` | pkg/user/repo.go:241-258 | So no two of them share a normalized username or handle. |
| `Identity.FailedCreatesLeaveExactly` | pkg/user/repo.go:89-112 | A create that ended on a taken name, its handle claim or its record write holds exactly those claims that its call made without noticing or whose own delete was lost, and that no later delete of it removed. |
| `Identity.NameIsPermanentExactlyWhen` | pkg/user/repo.go:105-112 | An owned username stays owned in every continuation if and only if the create is not about to roll it back. |
| `Identity.LostRecordGivesNameAway` | pkg/user/repo.go:105-112 | The lost reply of a record write leaves the user stored without its claim, so that another user can store the same username. |
| `Identity.RunsKeepInv` | pkg/user/repo.go:80-125 | The invariant behind these holds after every run. |
| `Identity.StepKeepsInv` | pkg/user/repo.go:80-125 | Every single command keeps it. |
| `IdentityStore.UserRepo.ClaimUnique` | pkg/user/repo.go:241-258 | Claims a free key, accepts one the id already holds, refuses any other. |
| `IdentityStore.UserRepo.CreateUser` | pkg/user/repo.go:80-125 | Succeeds if and only if both names are free and the write works, and otherwise leaves the claims as they were. |
| `IdentityStore.CreateIsASoloRun` | pkg/user/repo.go:80-125 | An undisturbed CreateUser is the call's own run in the concurrent machine, with the same answer and the same keys. |
| `IdentityStore.UserRepo.TryHandle` | pkg/user/service.go:151-163 | One attempt of Signup and its three outcomes. |
| `IdentityStore.UserRepo.Signup` | pkg/user/service.go:151-164 | Succeeds if and only if the username and one of the 100 handles are free, takes the first free handle, and otherwise leaves every key as it was. |
| `Names.NormalizesExactly` | pkg/user/service.go:62-68 | A text normalizes to a name if and only if the name has 3 to 30 letters a-z, digits or underscores and the text is one optional "@", spaces, that name in any case, and spaces; everything else is refused. |
| `Names.NormalizeIsIdempotent` | pkg/user/service.go:62-68 | Normalizing the result again changes nothing. |
| `Names.WellFormedIsItsOwnKey` | pkg/user/repo.go:233-238 | A well-formed name is its own username key and handle key. |
| `Names.KeysExactly` | pkg/user/repo.go:233-238 | Exactly which texts claim the key of a valid name: its spellings in any case with spaces around them, for a handle also with one leading "@". |
| `Names.GeneratedHandlesDiffer` | pkg/user/service.go:166-180 | The 100 handles of one signup are pairwise different and at most 29 characters long, for any base text and id. |
| `Names.GeneratedHandlesSpell` | pkg/user/service.go:166-180 | For a valid username the handle of an attempt is the username cut to 24 characters, the attempt's number unless it is the first, and the last three digits of the id. |
| `Names.GeneratedHandlesAreValid` | pkg/user/service.go:166-180 | For a valid username each of them is a valid handle and its own claim key. |
| `Search.FoldIs` | pkg/user/repo.go:260-277 | What folding gives for any text: nothing for spaces alone, else exactly the text without capitals and outer spaces that it spells in any case. |
| `Search.RangeIsPrefixed` | pkg/user/repo.go:299-300 | For arbitrary strings, the exact members of the range from q to q followed by 0xff. |
| `Search.RangeIsPrefix` | pkg/user/repo.go:299-300 | Without the byte 0xff the range holds exactly the members with prefix q. |
| `Search.MemberRoundTrip` | pkg/user/repo.go:260-273 | An indexed member gives back its user id. |
| `Search.InsertKeepsSorted` | pkg/user/repo.go:260-273 | The index stays in strict byte order. |
| `Search.ListedAreHits` | pkg/user/repo.go:299-303 | A range query returns only hits, and all of them when it is not cut. |
| `Search.UserIndex.IndexUser` | pkg/user/repo.go:260-273 | Adds the folded name and handle of the user and nothing for empty ones. |
| `Search.UserIndex.ReadUser` | pkg/user/repo.go:158-169 | Reading a user indexes it again, which removes nothing and keeps the order. |
| `Search.UserIndex.Scan` | pkg/user/repo.go:304-323 | The loop over one index: bounded, distinct, stored users only, and complete unless the result is full. |
| `Search.UserIndex.SearchUsers` | pkg/user/repo.go:275-325 | At most limit users if that is 1 to 50 and else at most 20, all stored and different; an exact handle or a number answers alone; otherwise only users with an indexed name or handle in range, and all of them when nothing was cut. |
| `Search.UserIndex.SearchFor` | pkg/user/repo.go:284-325 | The same for a folded nonempty query. |
| `Search.UserIndex.ScanBoth` | pkg/user/repo.go:296-325 | The handle index first, then the name index as the reads in between left it. |
| `RateLimit.NeverMoreThanBurstPlusRate` | pkg/common/ratelimit.go:19-45 | Calls in time order get at most burst + rate * (to - from) tokens in the seconds from..to, whatever the bucket held before. |
| `RateLimit.GrantedExactlyWhen` | pkg/common/ratelimit.go:19-45 | Every decision exactly: from an unused bucket and in time order, a call is granted if and only if for each call up to it the request, with all that was granted from that call on, is at most burst + rate * (seconds since that call). |
| `RateLimit.ExpiringGrantedExactlyWhen` | pkg/common/ratelimit.go:19-45 | The same for the expiring keys of the code if rate * ttl >= burst. |
| `RateLimit.ExpiryIsHarmlessExactlyWhen` | pkg/common/ratelimit.go:42-43 | Expiring keys decide every call sequence as lasting keys do if and only if rate * ttl >= burst. |
| `RateLimit.ExpiringBoundExactlyWhen` | pkg/common/ratelimit.go:42-43 | The bucket with expiring keys keeps the bound over all call sequences if and only if rate * ttl >= burst. |
| `RateLimit.BackwardClockDefeatsBound` | pkg/common/ratelimit.go:34-36 | One late clock reading among the callers doubles what a full bucket gives out in one second. |
| `RateLimit.BoundWithBackwardClocks` | pkg/common/ratelimit.go:19-45 | For every call sequence, in any order of clock readings: the bound holds with the sum of all backward steps, in seconds, added to the length of the interval. |
| `RateLimit.RateLimiter.ReserveN` | pkg/common/ratelimit.go:19-45 | The script's effect on the two keys and its answer, whose decisions are those of GrantedExactlyWhen; a lifetime below one second fails before anything is granted. |
| `Messages.QuotaHolds` | pkg/chat/repo.go:165-190 | With at most k calls in flight a channel never holds more than max + k - 1 messages beyond those whose call failed between storing and counting. |
| `Messages.QuotaIsTight` | pkg/chat/repo.go:165-190 | For every limit and every k a run without failures reaches that bound. |
| `Messages.LoneCallIsExact` | pkg/chat/repo.go:165-178 | With nobody else in flight and no earlier failure a call is refused exactly when the channel is full. |
| `Messages.LoneCallEnds` | pkg/chat/repo.go:165-190 | Where one call run alone in the machine ends, for every outcome of its three statements: message, counter and answer. |
| `Messages.RunsKeepBooks` | pkg/chat/repo.go:179-189 | In every run each message is counted, about to be counted, or stray, and the counter is the number of counted ones. |
| `Messages.MessageRepo.InsertMessage` | pkg/chat/repo.go:165-190 | One call alone, for every outcome of its three statements: Ok exactly if the counter was below the limit and all worked, then stored and counted once; refused exactly at the limit; with an error exactly the message and the count that took effect; it ends as the machine's own call does, in tables and answer. |
| `ReadPointer.NeverMovesBack` | pkg/chat/repo.go:191-207 | In every continuation of every reachable state the pointer never decreases. |
| `ReadPointer.FinishedCallsAreCovered` | pkg/chat/repo.go:191-207 | A finished call leaves the pointer at its id or beyond, and the pointer is always an existing message some call marked. |
| `ReadPointer.AllFinishedIsTheMaximum` | pkg/chat/repo.go:191-207 | Once all calls finish the pointer is exactly the maximum of the marked ids. |
| `ReadPointer.ReadState.MarkMessageRead` | pkg/chat/repo.go:191-207 | Alone, the pointer becomes the larger of itself and the id; an unknown message changes nothing. |
| `Membership.ChecksAreExact` | pkg/chat/repo_cache.go:97-151 | After any operations and key losses, if no removal's cache command failed, a check answers what the database says, and a no leaves the cache equal to it. |
| `Membership.MembersExactly` | pkg/chat/repo_cache.go:76-362 | After any operations, whatever cache commands failed and keys were lost, a user is in the database if and only if an operation added it and none since removed it or deleted the channel. |
| `Membership.ChecksTellWhoJoined` | pkg/chat/repo_cache.go:97-151 | So if no removal's cache command failed, a check answers exactly whether the user was added and not removed since. |
| `Membership.CheckIsWrongExactlyWhen` | pkg/chat/repo_cache.go:97-151 | After any operations with any failures, a check is wrong if and only if some removal of that user failed to reach a cache that held it and nothing cleared the entry since. |
| `Membership.ListsAreWhole` | pkg/chat/repo_cache.go:152-183 | Without key loss and cache failures a listing is the database's members with or without placeholder 0, and an error exactly when there are none. |
| `Membership.ListsTellWhoJoined` | pkg/chat/repo_cache.go:152-183 | So in such runs a listing holds exactly the users added and not removed since, up to placeholder 0, and is an error exactly when there is none. |
| `Membership.CacheIsWhole` | pkg/chat/repo_cache.go:76-82 | In such runs the cache holds every member but possibly 0. |
| `Membership.MissingStaysMissing` | pkg/chat/repo_cache.go:152-183 | A member missing from a nonempty cache stays unlisted through adds, removals of others and listings. |
| `Membership.ChecksRepair` | pkg/chat/repo_cache.go:108-131 | After any operations without a failed removal, a check of any user the cache does not hold makes the next listing exactly the database's. |
| `Membership.LossHidesMembers` | pkg/chat/repo_cache.go:152-169 | A concrete run in which a key loss hides a member from the listing. |
| `Membership.MembershipCache.AddUserToChannel` | pkg/chat/repo_cache.go:76-82 | Table first, then cache. |
| `Membership.MembershipCache.RemoveRoomMember` | pkg/chat/repo_cache.go:357-362 | Table first, then cache; that the user is gone then is MembersExactly. |
| `Membership.MembershipCache.SelectUserIDs` | pkg/chat/repo.go:141-153 | Each member exactly once. |
| `Membership.MembershipCache.IsChannelUserExist` | pkg/chat/repo_cache.go:97-151 | The loops compute the specified answer and cache. |
| `Membership.MembershipCache.GetChannelUserIDs` | pkg/chat/repo_cache.go:152-183 | A nonempty cache is trusted, an empty one filled, an empty channel an error. |
| `Moderation.MoreRulesNeverWeaken` | pkg/safety/service.go:142-155 | The score does not depend on the order or repetition of rules, and more rules never lower it or weaken the action. |
| `Moderation.TopIsMaximum` | pkg/safety/service.go:119-147 | The score is the maximum of 0 and all triggers. |
| `Moderation.FloodsAreBounded` | pkg/safety/service.go:112-121 | With a block score of at most 90 and working counters, any interval of L seconds lets at most maxMessages * (ceil(L / window) + 1) of a user's messages through. |
| `Moderation.WindowBoundExactlyWhen` | pkg/safety/service.go:112-155 | At most maxMessages messages per aligned window escape in every history if and only if the block score is at most 90. |
| `Moderation.WindowsTrack` | pkg/safety/service.go:112-116 | A window's counter key outlives the window and counts every message of it that escapes. |
| `ModerationRuns.FloodedExactlyWhen` | pkg/safety/service.go:112-121 | In every history a message is a flood if and only if, itself included, more than maxMessages messages of its window were let past the mute check. |
| `ModerationRuns.FloodMutes` | pkg/safety/service.go:108-121 | A flood mutes its user for the configured seconds, to the nearest second: every message of that time is blocked without being counted, and the first one after it is heard again. |
| `ModerationRuns.RepeatedExactlyWhen` | pkg/safety/service.go:122-132 | In every history in time order a message is a repeat if and only if it is nonempty and three earlier heard ones of the same content precede it, each less than two minutes before the next. |
| `Moderation.Moderator.ScoreSignals` | pkg/safety/service.go:119-141 | The guarded chain computes the maximum of all signals that fired, 90, 85, 75, 60 or 45, with the name of that signal. |
| `Moderation.Moderator.Count` | pkg/safety/service.go:112-136 | The two counters and the mute key, also when either counter fails: it then adds no signal and leaves its keys alone. |
| `Moderation.Moderator.ApplyRules` | pkg/safety/service.go:142-147 | The rule loop extends that maximum by the rules that are enabled, compile and match. |
| `Moderation.Moderator.Moderate` | pkg/safety/service.go:102-157 | A muted user is blocked at 100; otherwise the score is the highest of the signals and the rules that fire, whichever counters fail, with its name; block from the block score on, warn from the warn score on, else allow. |
| `Assertions.AcceptedExactlyWhen` | pkg/realtime/assertion.go:240-265 | In any run of verifications whose checks and lock may be apart, with fresh nonces in the genuine assertions and anything at all in forged ones, one is accepted if and only if it is genuine with a nonce, issued at most 30 seconds ahead, not expired and valid for at most 120 seconds, and its nonce is new or it got the lock after its own expiry. |
| `Assertions.PruningIsInvisible` | pkg/realtime/assertion.go:256-265 | If moreover each verification is atomic, it decides exactly as with a memory that forgets nothing. |
| `Assertions.NoReplay` | pkg/realtime/assertion.go:240-265 | No assertion is accepted again unless the lock was taken after its expiry, and never when verification is atomic, even if nonces repeat. |
| `Assertions.LateLockReplays` | pkg/realtime/assertion.go:240-265 | For every assertion there is a run in which a late lock accepts it a second time. |
| `Assertions.MemoryIsRecent` | pkg/realtime/assertion.go:254-264 | Whatever is remembered was accepted, expires at most 150 seconds after its checks, and in atomic runs is at most 150 seconds old. |
| `Assertions.SignedAcceptedExactlyWhen` | pkg/realtime/assertion.go:124-149 | In atomic runs with fresh genuine nonces, whatever is forged, a signed assertion is accepted if and only if the verifier's clock is at most 30 seconds behind and less than 120 ahead, and only the first time. |
| `Assertions.RememberedUntilExpiry` | pkg/realtime/assertion.go:256-264 | An accepted nonce is remembered with its own expiry until a lock is taken after it. |
| `Assertions.Verifier.Verify` | pkg/realtime/assertion.go:240-265 | The checks, the pruning loop over the shared map, the replay check and the new entry. |
| `Ranking.NormalizeIsStable` | pkg/discovery/service.go:89-108 | Normalizing gives a strictly sorted, duplicate-free list of at most max folded values, all of them unless cut, and normalizing again changes nothing. |
| `Ranking.FirstAreKept` | pkg/discovery/service.go:89-108 | Which values a cut list keeps: exactly the first max different nonempty ones, trimmed and folded. |
| `Ranking.Normalize` | pkg/discovery/service.go:89-108 | The loop with its early stop computes it. |
| `Ranking.OverlapIsJaccardExactlyWhen` | pkg/discovery/service.go:146-162 | Of nonempty lists the overlap is their Jaccard ratio if and only if the second has no duplicates. |
| `Ranking.OverlapOfUnique` | pkg/discovery/service.go:146-162 | On duplicate-free lists it is symmetric and between 0 and 1. |
| `Ranking.OverlapPositiveExactlyWhen` | pkg/discovery/service.go:146-162 | Two nonempty lists overlap if and only if they share a value or the second repeats one. |
| `Ranking.CountHits` | pkg/discovery/service.go:154-160 | The second loop counts values already in the growing union. |
| `Ranking.ComputeOverlap` | pkg/discovery/service.go:146-162 | Both loops and the final ratio. |
| `Ranks.RankIsAStableSelection` | pkg/discovery/service.go:172-198 | Rank returns exactly the nonzero other candidates without an avoid-topic clash, each with its own score, by descending score and stably. |
| `Ranks.StaysExactlyWhen` | pkg/discovery/service.go:176-186 | With normalized profiles a candidate stays if and only if it is neither 0 nor the user and, if its profile is enabled, neither of the two avoids what the other likes. |
| `Ranks.TiesKeepTheGivenOrder` | pkg/discovery/service.go:172-198 | Equal scores keep the order of the candidates, repeated ones included. |
| `Ranks.ScoreShares` | pkg/discovery/service.go:164-194 | What a candidate scores, to the nearest hundredth: 10 and 40 times the shared interests, 20 times the shared languages, 15 for one conversation goal and 3 for each star of its rating within 0 to 5, two and a half stars without one; 10 without an enabled profile. |
| `Ranks.StarsDecide` | pkg/discovery/service.go:164-194 | So of two equal profiles the better rated never ranks below, a rating better by a hundredth scores more, and one star more exactly three points more. |
| `Ranks.ScoresInRange` | pkg/discovery/service.go:178-194 | With normalized profiles every score is between 10 and 100. |
| `Ranks.ClashIsAShared` | pkg/discovery/service.go:183-185 | For normalized profiles a clash is a shared value. |
| `Ranks.RepeatedInterestsOverscore` | pkg/discovery/service.go:146-162 | For a direct caller of overlap with lists that storing would have normalized, a repeated interest makes the overlap 4 and the score exceed 100. |
| `Ranks.PutKeepsListsNormal` | pkg/discovery/service.go:130-138 | Storing a profile keeps all stored lists duplicate-free; the new ones are exactly the first 10 languages, 30 interests and 20 topics to avoid, the goal loses its outer spaces, and no other profile or rating changes. |
| `Ranks.SortIsStable` | pkg/discovery/service.go:196-196 | The sort is descending and keeps the order of equal scores. |
| `Ranks.Rank` | pkg/discovery/service.go:172-198 | The loop over the candidates and the sort compute it. |
| `Text.DecimalRoundTrip` | pkg/user/repo.go:261-261 | Formatting a number and reading its digits gives the number back. |
| `Text.ParsesExactly` | pkg/user/repo.go:287-287 | The texts read as a 64-bit number are exactly its decimal form with any zeros before it. |

## Left out

- Generic library plumbing (gin, gRPC, Kafka, OAuth, S3, TLS, tracing, configuration, wire, cobra), generated code and the frontend: no protocol of their own.
- Cryptography, hashing, JWT, JSON and regular expressions: signatures, digests and pattern matches are given facts; random ids, tickets and nonces are fresh values.
- Cassandra replication and consistency levels: every statement is atomic and linearizable.
- Outbox columns last_error and updated_at, and the millisecond precision of stored timestamps: nothing reads the former, and times are integers.
- Outbox workers share one configuration and have distinct ids; Run's ticker and Close's mutex are not modelled: process is started and stopped at any step.
- OutboxTheorems.BatchesAreBoundedAndDistinct: states distinctness up to a retry between the two claims, because a stalled scan can claim one intent twice; the exact condition is OutboxAnomaly.BatchesAreDistinctExactlyWhen.
- The user repository without a Cassandra session, request and friendship timestamps, and notifications sent beside friend calls: they change no relationship.
- Errors of Redis mirror writes are ignored by the code; here those writes take effect, and only processes stop.
- DirectChannelStore.ChannelStore.DeleteChannel: its own statements do not fail in this form; their failures are in the concurrent machine.
- DirectChannelStore.ChannelStore.CreateDirectChannel: run alone it cannot lose the reservation, so the loser's path is in the concurrent machine only.
- Identity.StoredUsersOwnTheirNames: excludes a user whose own record write took effect but reported an error, because the code then deletes the claims and keeps the record.
- UpdateUser, passwords, and the naming loop of OAuth sign-in: its creations are calls of CreateUser with fresh ids like any other, and the rest deletes no claim.
- Letters outside ASCII: folding and trimming follow ASCII rules; the regular expression for names admits nothing else.
- Search stores one score for all members and models Redis's byte order on characters up to 255.
- Message contents, pagination, reactions, pins and receipts other than the read pointer: independent of quota and pointer.
- Membership.ListsAreWhole: excludes key loss and failing cache commands, because a nonempty partial cache is trusted.
- Online-presence counters: an increment followed by a delete, not atomic and not part of membership.
- Moderation's storage of decisions, risk scores and events: written after the decision and never read by it.
- Floating-point rounding in the ranking: scores are exact reals rounded to two decimals.
- Match wait lists, workspaces, room listing, pins and payload formatting: they would only add easy members.
