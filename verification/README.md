# RSVP pipeline: a verified model

This project models the back end of an event RSVP service as state machines and proves what its protocols promise.
The centre is one pipeline: registration operations change seats and waitlists and write messages to a transactional
outbox; a relay publishes the outbox at least once; a projector turns the messages into a feed that shows a
confirmed count per event. The question the project answers is when that projected count is the true one. Six
smaller protocols of the same services stand beside it.

| files | what they hold |
|---|---|
| `Collections`, `Messages`, `JoinLog` | shared vocabulary; logs of messages, the life of one registration, sums of count changes |
| `Registrations`, `RegistrationInvariants`, `RegistrationAnswers` | the registration protocol of both repositories as atomic steps, what every run keeps, and when each operation is answered how |
| `WaitlistSpec`, `RegistrationTheorems`, `JoinStatus` | the simple form (seats and one FIFO queue per event) both repositories refine; consequences; reported statuses |
| `MemoryRepository`, `PostgresRepository` | the two repositories as classes whose methods are proved to take exactly those steps |
| `FeedProjection`, `Pipeline`, `FeedDetails` | the projector, its clamped counter, and counts and details of registrations against feed |
| `OutboxRelay`, `RelayRuns`, `EffectOrder`, `EndToEnd` | the relay, its runs with crashes and rollbacks, the order of effects in the feed, and the way from operation to feed |
| `Visits`, `FeedFailures`, `Overtaking` | one user's visit as a run of operations, the ways its messages lead to a wrong count, and a user passed in line |
| `ConsumerRetry`, `ConsumerRuns` | the consumer's retry path, and many consumers on channels with late confirmations |
| `Notifications`, `RefreshTokens`, `RateLimit`, `RevocationCache`, `FeedListing` | delivery leases, refresh-token families, fixed-window limiter, revocation cache, feed paging |

How things are modelled:

- A mutex section or a database transaction is one atomic step. Runs are arbitrary sequences of such steps, so every
  interleaving of callers, relays, workers and crashes is covered.
- Clock readings, new identifiers and the answers of the database, the broker and the cache are parameters of a step.
  Times are integers, counted in seconds (nanoseconds in the limiter); the zero time is 0. New
  identifiers are assumed to be new (`Registrations.Fresh`).
- Whether the caller is an administrator is a boolean on the step. Authentication is not part of the step.
- A database error that rolls a registration operation back leaves the state as it was; such an operation is no step.
- Table defaults and keys are those of `migrations/`: counts and attempts start at 0, `(consumer_name, message_id)` is
  unique, a feed row's capacity is not negative.

What turned out about the code:

- Once every message has taken effect the feed never shows too few seats, but it can show too many. If two messages
  of one registration take effect in the wrong order, the clamp at zero turns the swap into a lasting surplus. The
  effects keep the order written if and only if each message takes effect after the earlier ones of its registration
  (`EffectOrder.OrderOfEffectsIff`); then, with increasing times per registration and everything sent and processed,
  the feed is exact (`EndToEnd.PipelineAgrees`). On the way to the broker the order is kept if and only if every
  record is settled: its earlier siblings are with the broker already, or stand before it in the batch
  (`EndToEnd.OrderIsKeptIff`, `EndToEnd.OrderCanBreakIff`). Five ways to the wrong order are shown, each as a run from
  the same operations:
  - a refused publish, because the relay stops there and the refused row waits out its backoff while younger rows go
    on (`FeedFailures.RefusedPublishOvercounts`);
  - two relays, because one skips the rows the other has locked (`FeedFailures.TwoRelaysOvercount`); the deployment
    in deploy/kubernetes/deployments.yaml:499 runs two;
  - operations whose clock readings are equal or reversed, because the service reads the clock before the event row is
    locked and the relay orders by that time (`FeedFailures.TiedTimesOvercount`);
  - a failed handling, because the consumer sends the message to a retry queue while later ones go on
    (`FeedFailures.FailedHandlingOvercounts`);
  - two feed workers, because each commits on its own (`FeedFailures.TwoWorkersOvercount`); the deployment in
    deploy/kubernetes/deployments.yaml:346 runs two.
- The other details of an event in the feed are those of the event message that took effect last, and right if and
  only if it gives them (`FeedDetails.DetailsAreRightIff`); so a failed handling can leave a cancelled event listed
  (`FeedDetails.CanceledEventStaysListed`).
- A consumer can drop a message. The wait for a confirmation takes whatever answer comes next on the channel, and the
  consumers go on with the same channel after a timeout, so the late confirmation of one delivery acknowledges the
  next (`ConsumerRuns.LateConfirmationDropsAnother`). A consumer that opened a new channel after each confirmation it
  gave up on would drop nothing (`ConsumerRuns.CarefulConsumerDropsNothing`, `ConsumerRuns.CanDropIff`). The relay
  does just that: it closes its publisher after every error (cmd/outbox-relay/main.go:107-123), which is why its
  model takes each answer as that of its own publish.
- Cancelling an event cancels its registrations without messages about them, so the feed keeps the last count, which
  is right if and only if nobody held a seat (`Pipeline.CanceledFeedIsStale`, `FeedFailures.CanceledEventOvercounts`).
- Raising capacity promotes nobody, and a newcomer can pass the line
  (`RegistrationTheorems.RaisedCapacityLetsANewcomerPass`, `Overtaking.NewcomerPasses`); exactly such a raise breaks the rule that waiting means
  full (`RegistrationTheorems.WaitingMeansFullIff`).
- When two rows of a user carry the same update time, the in-memory repository's reported status depends on map
  order (`JoinStatus.MemoryAnswerIsCertainIff`, `Visits.TiedRejoinConfusesMemory`). PostgreSQL breaks such ties by
  creation time (`JoinStatus.PostgresAnswerIsCertainIff`), but with reversed clock readings both report CANCELED to a
  user who holds a seat (`Visits.ReversedRejoinConfusesBoth`).
- Replaying a spent refresh token kills its family only if the token has not expired and its user exists
  (`RefreshTokens.ReplayKillsFamilyIff`, `RefreshTokens.ExpiredReplaySparesTheFamily`).
- A worker that crashes during the fifth claim of a notification leaves a row in PROCESSING that nobody claims again
  (`Notifications.ClaimedAgainIff`, `Notifications.FifthCrashStrands`).
- The revocation cache is visible in one case: the token expires between its verification and the lookup
  (`RevocationCache.CacheShowsIff`, `RevocationCache.WarmedEntryOutlivesTheToken`).
- A retried delivery reports its first routing key at every hop if and only if one of these holds: the original-key
  header carries a text that is not all white space; the header is absent or empty and the key is nonempty without
  white space around it; or the key is the consumer's queue name (which carries no white space)
  (`ConsumerRetry.EveryHopReportsTheFirstKeyIff`). What the relay publishes is of the second kind
  (`ConsumerRetry.PlainDeliveryKeepsItsKey`); a header of white space is not
  (`ConsumerRetry.BlankHeaderLosesTheKey`).

## Model

| member | source | states |
|---|---|---|
| `RegistrationInvariants.RunKeeps` | internal/services/eventregistration/repository.go:77-291 | In every state reachable by either repository: confirmed seats never exceed a positive capacity, a user has at most one active registration per event, waiting rows carry positive distinct numbers, a cancelled event has no active registration, confirmed seats of a live event equal confirmed plus promoted minus cancelled-while-confirmed messages, and each registration's messages trace its life |
| `RegistrationInvariants.StepKeeps` | internal/services/eventregistration/repository.go:68-291 | Each of the six operations, successful or refused, keeps all of that together |
| `RegistrationInvariants.JoinKeeps` | internal/services/eventregistration/repository.go:195-231 | A join keeps the whole invariant whether it returns the existing registration, confirms, waitlists or fails |
| `RegistrationInvariants.CancelKeeps` | internal/services/eventregistration/repository.go:266-291 | Giving up a registration, with or without a promotion after it, keeps the whole invariant |
| `RegistrationInvariants.CancelEventKeeps` | internal/services/eventregistration/repository.go:124-160 | Cancelling an event and all its active registrations at once keeps the invariant although no message tells of the registrations |
| `RegistrationInvariants.UpdateKeeps` | internal/services/eventregistration/repository.go:77-122 | An update, whatever it changes, never leaves fewer seats than are confirmed |
| `RegistrationInvariants.OneRowKeepsLedger` | internal/services/eventregistration/repository.go:432-443 | Writing a registration row together with the message that records it keeps the outbox accounts; this is what writing both in one transaction buys |
| `WaitlistSpec.StepRefines` | internal/services/eventregistration/repository.go:195-291 | Every operation of either repository is one step of a machine with confirmed seats and a FIFO queue per event and no numbers, with the same answer |
| `WaitlistSpec.RunRefines` | internal/services/eventregistration/repository.go:195-291 | Whole runs of either repository stay related to the queue machine: the queue lists exactly the waiting registrations by increasing number |
| `WaitlistSpec.JoinRefines` | internal/services/eventregistration/repository.go:195-231 | A waitlisted join appends to the end of the queue although cancelled rows keep their numbers and promoted ones become 0 |
| `WaitlistSpec.CancelRefines` | internal/services/eventregistration/repository.go:266-291 | A cancel removes the registration from wherever it stands in the queue, and a freed seat goes to the queue's head |
| `WaitlistSpec.CancelEventRefines` | internal/services/eventregistration/repository.go:124-160 | Cancelling an event empties its queue and no other |
| `WaitlistSpec.HeadIsFirst` | internal/services/eventregistration/repository.go:413-430 | The waiting row with the least number is the head of the queue, and there is one exactly if somebody waits |
| `RegistrationTheorems.RepositoriesAgree` | internal/services/eventregistration/postgres_repository.go:232-292 | The in-memory and the PostgreSQL repository simulate each other: same operations, same events, registrations, messages and answers, and the same ranking of waiting users, although PostgreSQL clears and reuses numbers |
| `RegistrationTheorems.AnswerIsTheBoards` | internal/services/eventregistration/postgres_repository.go:355-408 | Every answer either repository ever gives is the queue machine's answer at that point of the run |
| `RegistrationTheorems.CancelPromotesTheHead` | internal/services/eventregistration/repository.go:276-290 | After cancelling a confirmed registration with people in line exactly the first in line has taken the seat; otherwise only the registration itself is gone; nobody else moved |
| `RegistrationTheorems.CancelTouchesOneEvent` | internal/services/eventregistration/repository.go:266-291 | Giving up a registration moves nobody of any other event |
| `RegistrationTheorems.WaitingMeansFullIff` | internal/services/eventregistration/domain.go:136-157 | In a run a waiting line has meant exactly full at every point if and only if no update that went through raised capacity while people waited |
| `RegistrationTheorems.StepKeepsFullHouseIff` | internal/services/eventregistration/repository.go:77-291 | From a state in which waiting means full, a step leaves such a state if and only if it is not an update that goes through (authorised, valid) and raises the capacity of an event somebody waits for |
| `RegistrationTheorems.RaisedCapacityLetsANewcomerPass` | internal/services/eventregistration/repository.go:108-113 | After capacity is raised above a waiting line the next newcomer is confirmed and the line stands as before |
| `Overtaking.NewcomerPasses` | internal/services/eventregistration/repository.go:108-113 | A run: create with one seat, two joins, a raise to two seats, a third join; the third user is confirmed and the second still waits |
| `RegistrationTheorems.CanceledCountIsFrozen` | internal/services/eventregistration/repository.go:124-160 | Once an event is cancelled no later operation writes a message that changes its count |
| `RegistrationTheorems.CancellingLeavesTheCountBehind` | internal/services/eventregistration/repository.go:146-158 | Cancelling an event empties its seats while the outbox still accounts for all of them |
| `JoinStatus.JoinStatusIsExpected` | internal/services/eventregistration/repository.go:386-401 | With strictly increasing operation times the only status either repository can report is that of the active registration, else CANCELED if the user ever joined, else NOT_JOINED |
| `JoinStatus.MemoryAnswerIsCertainIff` | internal/services/eventregistration/repository.go:386-401 | The in-memory report is certain if and only if no other row of the user was updated as late as the active one |
| `JoinStatus.PostgresAnswerIsCertainIff` | internal/services/eventregistration/postgres_repository.go:537-550 | The PostgreSQL report is certain if and only if every other row of the user is older than the active one by update and creation time |
| `JoinStatus.AgedReportsAreExpected` | internal/services/eventregistration/postgres_repository.go:537-550 | When older rows are strictly older, ordering by update and creation time and taking the newest of an unordered map give the same status |
| `RegistrationAnswers.JoinIsAnsweredIff` | internal/services/eventregistration/domain.go:146-157 | For a known event and a user without an active registration, exactly when a join is refused as cancelled, refused as started, confirmed or waitlisted; a refused join changes nothing |
| `RegistrationAnswers.JoinIsIdle` | internal/services/eventregistration/repository.go:195-206 | An unknown event is answered as not found and an active registration is returned as it is; neither changes anything |
| `RegistrationAnswers.JoinAddsOneRow` | internal/services/eventregistration/repository.go:212-231 | The row and the message a join adds, field by field, and that nothing else changes |
| `RegistrationAnswers.RowsAreJoinedInTime` | internal/services/eventregistration/domain.go:150-152 | Over runs: a join that adds a row was made to a published event before the start it had at that moment |
| `RegistrationAnswers.CreateWrites` | internal/services/eventregistration/repository.go:68-75 | Creating an event stores it, answers with no seats taken and writes its message |
| `RegistrationAnswers.CancelEventIsAnsweredIff` | internal/services/eventregistration/repository.go:128-140 | Cancelling an event changes anything if and only if the event is published and the actor is its organizer or an administrator; exactly when the answer is not found or forbidden |
| `RegistrationAnswers.CancelEventWrites` | internal/services/eventregistration/repository.go:141-155 | What a cancellation writes: the status of the event and of its active rows, and one message |
| `RegistrationAnswers.EventIsCanceledIff` | internal/services/eventregistration/postgres_repository.go:109-170 | Over runs: an event is cancelled if and only if its organizer or an administrator cancelled it while it was there |
| `RegistrationAnswers.UpdateIsAnsweredIff` | internal/services/eventregistration/repository.go:77-118 | Who may update, each refusal and its condition in the order of the checks, and when the update goes through; a refusal changes nothing |
| `RegistrationAnswers.UpdateWrites` | internal/services/eventregistration/repository.go:90-122 | An update that goes through changes exactly the fields given and the update time, and writes one message |
| `RegistrationAnswers.ValidateAnswers` | internal/services/eventregistration/domain.go:111-134 | Which events are valid and which error the others get |
| `RegistrationAnswers.CancelRegistrationIsAnsweredIff` | internal/services/eventregistration/repository.go:243-264 | Exactly when giving up somebody else's registration is not found or forbidden; otherwise it is the user's own step |
| `RegistrationAnswers.GivingUpIsAnswered` | internal/services/eventregistration/repository.go:266-291 | The answer, the cancelled row and the message that tells of it, field by field; without an active registration nothing changes |
| `RegistrationAnswers.PromotionIsAnsweredIff` | internal/services/eventregistration/repository.go:280-290 | Somebody is promoted if and only if a seat was given up and somebody waits; then it is the first in line, with its row and message field by field |
| `RegistrationAnswers.MessagesNameTheirRows` | internal/services/eventregistration/repository.go:472-486 | Over runs: every join message names a registration that is there, with that registration's event and user |
| `Visits.TiedRejoinConfusesMemory` | internal/services/eventregistration/repository.go:386-401 | A run: create, join, leave, and join again at the instant of leaving; in memory CANCELED may be reported beside CONFIRMED, PostgreSQL reports CONFIRMED |
| `Visits.ReversedRejoinConfusesBoth` | internal/services/eventregistration/postgres_repository.go:537-550 | A run: create, join, leave, and join again at an earlier clock reading; both repositories report CANCELED to a user who holds a seat |
| `Visits.VisitRuns` | internal/services/eventregistration/repository.go:195-291 | The shortest run with a cancellation: what the outbox holds after create, join and leave, and that nobody holds a seat |
| `MemoryRepositories.MemoryRepository.CreateEvent` | internal/services/eventregistration/repository.go:68-75 | Stores the event and its message, with the answer the protocol step gives |
| `MemoryRepositories.MemoryRepository.UpdateEvent` | internal/services/eventregistration/repository.go:77-122 | Ends in the protocol step's state and answer, on the refused paths too |
| `MemoryRepositories.MemoryRepository.ApplyCommand` | internal/services/eventregistration/repository.go:91-117 | Absent fields stay, present ones change, and the capacity error is found before the other checks |
| `MemoryRepositories.MemoryRepository.CancelEvent` | internal/services/eventregistration/repository.go:124-160 | Ends in the protocol step's state and answer; cancelling twice changes nothing and writes nothing |
| `MemoryRepositories.MemoryRepository.ReleaseAllLocked` | internal/services/eventregistration/repository.go:146-153 | The loop over the rows, in any order, cancels exactly the active ones of that event |
| `MemoryRepositories.MemoryRepository.JoinEvent` | internal/services/eventregistration/repository.go:195-231 | Ends in the protocol step's state and answer for an existing registration, a seat, a place in line, and each error |
| `MemoryRepositories.MemoryRepository.CancelJoin` | internal/services/eventregistration/repository.go:233-241 | Ends in the protocol step's state and answer, the missing event included |
| `MemoryRepositories.MemoryRepository.CancelRegistration` | internal/services/eventregistration/repository.go:243-264 | The organizer's or administrator's cancel is the same step as the user's own |
| `MemoryRepositories.MemoryRepository.CancelRegistrationLocked` | internal/services/eventregistration/repository.go:266-291 | Cancelling, promoting and both messages make one step; the promotion sees the row already cancelled |
| `MemoryRepositories.MemoryRepository.GetJoinStatus` | internal/services/eventregistration/repository.go:293-301 | Reports a status of a row updated last, whichever the map yields first, and an error for a missing event |
| `MemoryRepositories.MemoryRepository.DetailLocked` | internal/services/eventregistration/repository.go:354-365 | The detail carries the event and its true number of confirmed seats |
| `MemoryRepositories.MemoryRepository.ConfirmedCountLocked` | internal/services/eventregistration/repository.go:367-375 | The counting loop gives the number of confirmed registrations whatever order the map is walked in |
| `MemoryRepositories.MemoryRepository.ActiveRegistrationLocked` | internal/services/eventregistration/repository.go:377-384 | Finds the user's one active registration exactly if there is one |
| `MemoryRepositories.MemoryRepository.LatestStatusLocked` | internal/services/eventregistration/repository.go:386-401 | The status comes from a row no other row of the user is newer than |
| `MemoryRepositories.MemoryRepository.NextWaitlistPositionLocked` | internal/services/eventregistration/repository.go:403-411 | One more than the greatest number of any row of the event, cancelled rows included |
| `MemoryRepositories.MemoryRepository.FirstWaitlistedLocked` | internal/services/eventregistration/repository.go:413-430 | The waiting row of the least number, and none exactly if nobody waits |
| `Registrations.NextPosition` | internal/services/eventregistration/repository.go:403-411 | The new number is positive and greater than every number used in the event |
| `Registrations.FirstWaiting` | internal/services/eventregistration/repository.go:413-430 | A waiting row none of the others stands before |
| `MemoryRepositories.ActiveIsUnique` | internal/services/eventregistration/repository.go:377-384 | Whichever active row the loop meets first is the only one |
| `PostgresRepositories.PostgresRepository.CreateEvent` | internal/services/eventregistration/postgres_repository.go:23-43 | Stores the event and its message, with the answer the protocol step gives |
| `PostgresRepositories.PostgresRepository.UpdateEvent` | internal/services/eventregistration/postgres_repository.go:45-107 | Ends in the same step as the in-memory update |
| `PostgresRepositories.PostgresRepository.CancelEvent` | internal/services/eventregistration/postgres_repository.go:109-170 | Ends in the same step as the in-memory cancellation |
| `PostgresRepositories.PostgresRepository.JoinEvent` | internal/services/eventregistration/postgres_repository.go:232-292 | Ends in the protocol step's state and answer |
| `PostgresRepositories.PostgresRepository.CancelJoin` | internal/services/eventregistration/postgres_repository.go:294-312 | Ends in the protocol step's state and answer |
| `PostgresRepositories.PostgresRepository.CancelRegistration` | internal/services/eventregistration/postgres_repository.go:314-353 | Ends in the protocol step's state and answer |
| `PostgresRepositories.PostgresRepository.CancelRegistrationTx` | internal/services/eventregistration/postgres_repository.go:355-408 | Cancelling clears the number, and the promotion picks the least remaining number |
| `PostgresRepositories.PostgresRepository.GetJoinStatus` | internal/services/eventregistration/postgres_repository.go:410-428 | Reports the status the ordered query may return, and an error for a missing event |
| `PostgresRepositories.PostgresRepository.ActiveRegistrationTx` | internal/services/eventregistration/postgres_repository.go:523-535 | Finds the user's one active registration exactly if there is one |
| `PostgresRepositories.PostgresRepository.LatestStatusTx` | internal/services/eventregistration/postgres_repository.go:537-550 | The status is that of a row last by update and creation time |
| `PostgresRepositories.PostgresRepository.NextWaitlistPositionTx` | internal/services/eventregistration/postgres_repository.go:552-560 | The number that is greater than all numbers now in use |
| `PostgresRepositories.PostgresRepository.FirstWaitlistedTx` | internal/services/eventregistration/postgres_repository.go:562-575 | The waiting row of the least number; the further ordering never matters because numbers are distinct |
| `JoinLog.LifeIsItsSum` | internal/services/eventregistration/repository.go:215-290 | Along the unbroken life of a registration the count changes add up to one exactly while it holds a seat |
| `JoinLog.SumFromLogs` | internal/services/feedprojection/projector.go:67-85 | The total change of a count depends only on which messages each registration sent, not on order or interleaving |
| `JoinLog.UnbrokenLivesSumUp` | internal/services/feedprojection/projector.go:67-85 | If every registration's own messages trace an unbroken life, no total is negative |
| `FeedProjection.Projector.HandleEnvelope` | internal/services/feedprojection/projector.go:33-65 | Claim and effect happen together or not at all: the state is that of the specification, processed means new and applicable, duplicate means seen before |
| `FeedProjection.Projector.Apply` | internal/services/feedprojection/projector.go:67-85 | Which messages can be carried out, and that a failed one leaves the rows alone |
| `FeedProjection.Projector.UpsertEvent` | internal/services/feedprojection/projector.go:99-127 | An event message replaces the details and never the count; a missing id, a malformed start or a negative capacity fails |
| `FeedProjection.Projector.ChangeConfirmedCount` | internal/services/feedprojection/projector.go:129-141 | The count moves by the delta, never below zero, from 0 for an unknown event, and leaves the details alone |
| `FeedProjection.OnlyEffectiveDeliveriesCount` | internal/services/feedprojection/projector.go:87-97 | Any sequence of deliveries with failures and repeats equals handling each message once, at its first committed delivery |
| `FeedProjection.RepeatIsInvisible` | internal/services/feedprojection/projector.go:46-52 | A repeat of a processed message, inserted anywhere, changes nothing that follows |
| `FeedProjection.FailureIsInvisible` | internal/services/feedprojection/projector.go:39-44 | A failed delivery, inserted anywhere, leaves neither a claim nor an effect |
| `FeedProjection.ApplicableIff` | internal/services/feedprojection/projector.go:67-134 | Exactly which messages have an effect: a complete envelope, a known routing key, and for an event message an id, a readable start and no negative capacity, for a change of the count an id that is not blank |
| `FeedProjection.LostAnswerStillCounts` | internal/services/feedprojection/projector.go:58-61 | A commit whose answer is lost has its effect, and the redelivery is a repeat |
| `FeedProjection.DeficitIsWorstPrefix` | internal/services/feedprojection/projector.go:137-137 | The deficit is how far the lowest prefix sum lies below zero, and it is attained |
| `FeedProjection.CountIsSumPlusDeficit` | internal/services/feedprojection/projector.go:129-141 | For any order of first deliveries the clamped count is the sum of the deltas plus the deepest deficit on the way |
| `FeedProjection.CountIsExactIff` | internal/services/feedprojection/projector.go:129-141 | The count never falls short of the sum and equals it if and only if no prefix sums below zero |
| `FeedProjection.RowsFactor` | internal/services/feedprojection/projector.go:99-141 | A projected row's details depend on the event messages alone, its count on the join messages alone |
| `FeedProjection.InterleavingIsInvisible` | internal/services/feedprojection/projector.go:67-85 | Event messages commute with join messages: any two interleavings give the same rows |
| `FeedProjection.JoinMessagesDoNotCommute` | internal/services/feedprojection/projector.go:137-137 | A confirmation and its cancellation swapped end at 1 instead of 0 |
| `Pipeline.FeedAgrees` | internal/services/feedprojection/projector.go:33-141 | For every run of operations and every delivery that keeps each registration's messages in order, interleaved, repeated and failing at will, the projected count of every event not cancelled is its number of confirmed registrations |
| `Pipeline.FeedNeverUndercounts` | internal/services/feedprojection/projector.go:129-141 | In any order at all, once every message took effect the feed shows the true count plus the deepest deficit, and is exact if and only if no prefix goes below zero |
| `Pipeline.FeedFollows` | internal/services/feedprojection/projector.go:67-85 | Midway through an in-order delivery the count is that of the messages handled so far |
| `Pipeline.InOrderNeverClamps` | internal/services/feedprojection/projector.go:137-137 | While each registration's messages keep their order the clamp never bites |
| `Pipeline.CanceledFeedIsStale` | internal/services/eventregistration/repository.go:146-158 | After an event is cancelled, whatever operations follow, nobody holds a seat and the feed shows the count of the moment before; it is right if and only if nobody held a seat then |
| `FeedFailures.CanceledEventOvercounts` | internal/services/eventregistration/repository.go:146-158 | A run: create, join, cancel the event; handled in order, the feed shows one seat and nobody holds one |
| `FeedDetails.DetailsAgree` | internal/services/feedprojection/projector.go:99-127 | For every run and every delivery in which each event's own messages took effect in the order written, the feed shows title, city, venue, start, capacity and status of every event as they are; it says CANCELED of exactly the cancelled events |
| `FeedDetails.DetailsAreRightIff` | internal/services/feedprojection/projector.go:99-127 | In any order, once some message about an event took effect, the six details shown are right if and only if the message that took effect last gives them |
| `FeedDetails.RunSays` | internal/services/eventregistration/repository.go:459-470 | Over runs: the last message written about an event gives its six details as they are |
| `FeedDetails.LastMessageDecides` | internal/services/feedprojection/projector.go:107-125 | The row carries the fields of the last event message about it; join messages and other events leave them alone |
| `FeedDetails.NoPhantomDetails` | internal/services/feedprojection/projector.go:99-127 | Of an event nobody created the feed says nothing |
| `FeedDetails.SwapIsStaleIff` | internal/services/feedprojection/projector.go:111-125 | Two messages about an event taking effect in the wrong order leave other details if and only if they differ in one of the six |
| `FeedDetails.CanceledEventStaysListed` | internal/services/feedprojection/consumer.go:55-66 | A run: create and cancel, the first handling rolls back once and its retry comes last; the event is cancelled and the feed lists it as published |
| `Pipeline.OutboxIdsAreDistinct` | internal/services/eventregistration/repository.go:432-443 | No two messages of a run share an id, so the projector's dedupe never swallows a new one |
| `Pipeline.RunIsProjectable` | internal/services/eventregistration/repository.go:459-486 | Every message the operations write can be carried out by the projector |
| `Pipeline.StraightDeliveryAgrees` | internal/services/feedprojection/projector.go:33-141 | Publishing the outbox once in the order written gives the true counts |
| `OutboxRelay.Relay.PublishBatch` | internal/services/outboxrelay/relay.go:56-89 | What the broker took stays even when the transaction is lost; rows change only on commit; nothing is handled after the first failure |
| `OutboxRelay.BatchShape` | internal/services/outboxrelay/relay.go:56-89 | A batch leaves a sent prefix, at most one failed row right after it, and an untouched rest; each sent envelope is with the broker |
| `OutboxRelay.BatchStopsAtTheFirstFailure` | internal/services/outboxrelay/relay.go:56-89 | The records before the first one that is invalid or not confirmed go out, that one fails, and the broker has exactly those and perhaps the one refused |
| `OutboxRelay.SelectionIsUnique` | internal/services/outboxrelay/relay.go:152-160 | The ordered query has one answer: rows that are due, not SENT or DEAD and held by nobody, a hundred at most unless another number is asked for |
| `OutboxRelay.FailureIsCounted` | internal/services/outboxrelay/relay.go:91-97 | A failed attempt is counted; the eighth makes the row DEAD, after the others it waits exactly 1, 4, 15, 60, 300, 900 and 3600 seconds |
| `RelayRuns.NoMessageIsLost` | internal/services/outboxrelay/relay.go:56-97 | Under crashes, rollbacks after publish and several relays every row ever inserted is retryable with fewer than 8 attempts, or SENT with its own envelope confirmed, or DEAD with exactly 8 attempts |
| `RelayRuns.FinalRowsStay` | internal/services/outboxrelay/relay.go:152-160 | A row that is SENT or DEAD never changes again |
| `RelayRuns.BatchesSpendBudget` | internal/services/outboxrelay/relay.go:181-224 | Every committed nonempty batch strictly uses up attempts left over; a lost one uses none |
| `RelayRuns.CommittedBatchesAreBounded` | internal/services/outboxrelay/relay.go:56-97 | At most eight nonempty batches per row ever commit |
| `RelayRuns.StepIsPatient` | internal/services/outboxrelay/relay.go:226-238 | A failed row is tried again no sooner than its backoffs so far after its first failure |
| `RelayRuns.NoRowDiesEarly` | internal/services/outboxrelay/relay.go:26-34 | No row goes DEAD sooner than 4880 seconds after its first failed attempt, however many relays overlap and however their clocks differ, as long as no relay's clock runs backwards during one batch |
| `EndToEnd.RunWritesInTime` | internal/services/eventregistration/repository.go:432-443 | Operations at strictly increasing times write each registration's messages with strictly increasing times, promotion and cancellation of one call included |
| `EndToEnd.OrderIsKeptIff` | internal/services/outboxrelay/relay.go:56-179 | Any relays with crashes, rollbacks, refusals and locked rows: the broker has each registration's messages in order if and only if, for each record that reached it, every earlier sibling was with the broker already or stood before it in the batch; hypothesis: each registration's messages carry increasing times |
| `EndToEnd.BatchKeepsOrderIff` | internal/services/outboxrelay/relay.go:56-89 | One batch, committed or lost, keeps the order if and only if each record that reaches the broker is settled in that sense |
| `EndToEnd.SentSiblingsSettle` | internal/services/outboxrelay/relay.go:152-179 | A check on the table before the batch is enough: every earlier sibling is SENT or stands before in the batch |
| `EndToEnd.OrderCanBreakIff` | internal/services/outboxrelay/relay.go:152-179 | With what is written so far, some batches of some relays can break the order if and only if a row that can still be sent has an earlier sibling that is not with the broker |
| `EndToEnd.SmoothRunIsSettled` | internal/services/outboxrelay/relay.go:152-179 | One relay at a time (no rows locked by another) that meets no refusal satisfies the condition by ordering each batch by creation time, however many batches are lost after publishing |
| `EffectOrder.OrderOfEffectsIff` | internal/services/feedprojection/projector.go:33-65 | However deliveries fail, repeat and interleave, each registration's messages take effect in the order written if and only if each takes effect after all earlier ones of its registration; hypothesis: increasing times per registration |
| `EffectOrder.WaitingIsClosedIff` | internal/services/feedprojection/projector.go:87-97 | That is so if and only if no message takes effect before every earlier one of its registration is among the processed ids, which a projector could check |
| `EndToEnd.SettledBrokerIsClosed` | internal/services/outboxrelay/relay.go:128-179 | If every record was settled and each registration's messages carry increasing times, each message stands at the broker after all earlier ones of its registration |
| `EndToEnd.StraightReadingWaits` | internal/services/feedprojection/consumer.go:47-69 | One projector that reads such a sequence in order and never fails processes everything and makes each message wait for the earlier ones |
| `EndToEnd.PipelineAgrees` | internal/services/feedprojection/projector.go:33-141 | Fresh identifiers, increasing times per registration, everything sent by any relays with crashes, rollbacks, refusals and locks, and any deliveries of it by any number of projectors with failures, retries and repeats until all is processed: if each message takes effect only after the earlier ones of its registration, the feed shows the true count of every event not cancelled |
| `EndToEnd.StraightPipelineAgrees` | internal/services/outboxrelay/relay.go:56-179 | The same conclusion if every record was settled when it reached the broker and one projector reads in order without failing |
| `EndToEnd.OneSmoothRelayAgrees` | internal/services/outboxrelay/relay.go:56-179 | The same from plainer hypotheses: strictly increasing operation times, one relay at a time, no refused publish, one projector reading in order without failing |
| `FeedFailures.RefusedPublishOvercounts` | internal/services/outboxrelay/relay.go:74-81 | A run of create, join and leave, one refused publish of the join: everything ends SENT and delivered once, nobody holds a seat and the feed shows one |
| `FeedFailures.TwoRelaysOvercount` | internal/services/outboxrelay/relay.go:152-160 | The same operations, nothing refused: one relay holds the join's row, another publishes the leave first; the feed shows one seat too many |
| `FeedFailures.TiedTimesOvercount` | internal/services/eventregistration/service.go:76-90 | The same operations, one relay, nothing refused, but the two clock readings are equal or reversed: the leave is published first and the feed shows one seat too many |
| `FeedFailures.FailedHandlingOvercounts` | internal/services/feedprojection/consumer.go:55-66 | The same operations at increasing times, one relay, nothing refused, sent in order, one projector: the join's handling rolls back once and its retry comes after the leave; the feed shows one seat too many |
| `FeedFailures.TwoWorkersOvercount` | internal/services/feedprojection/consumer.go:36-51 | The same without a failure: two workers share the queue, each handles its own messages in order, and the leave commits before the join |
| `Notifications.Repository.ClaimNextDelivery` | internal/services/notification/repository.go:144-196 | Claims a row that is due, unlocked and has attempts left, with the token of this claim; answers none only if no free row is claimable |
| `Notifications.SomeRowIsPicked` | internal/services/notification/repository.go:154-165 | The ordered query finds a row if and only if some row nobody else holds is claimable |
| `Notifications.Repository.UpdateDeliveryState` | internal/services/notification/repository.go:311-326 | The state changes if and only if the row is still in PROCESSING under exactly this claim's deadline |
| `Notifications.Repository.MarkDeliverySent` | internal/services/notification/repository.go:198-227 | A report that no longer holds the row writes neither state nor delivery row; one that does writes both |
| `Notifications.Repository.MarkDeliveryFailed` | internal/services/notification/repository.go:229-263 | The same for a failure, with the next attempt moved out by the backoff |
| `Notifications.RunKeeps` | internal/services/notification/repository.go:119-263 | The history of claims stays in step with the table in every reachable state, with any number of workers and crashes |
| `Notifications.DeadlinesIncrease` | internal/services/notification/repository.go:144-196 | Lock deadlines strictly increase per notification whatever the skew between the workers' clocks |
| `Notifications.ReportGoesThroughIff` | internal/services/notification/repository.go:311-326 | A report goes through if and only if its claim is the latest and nobody has reported on it |
| `Notifications.SupersededReportIsVoid` | internal/services/notification/repository.go:198-263 | The report of a superseded claim changes nothing |
| `Notifications.DeliveryBounds` | internal/services/notification/repository.go:144-227 | A notification is claimed at most five times and has at most one SENT delivery row |
| `Notifications.FiveClaimsAtMost` | internal/services/notification/repository.go:28-29 | Over runs: five claims and one SENT delivery row at most |
| `Notifications.ClaimableIff` | internal/services/notification/repository.go:154-162 | A row can be claimed with fewer than five attempts when it is due, or in PROCESSING with its lock run out |
| `Notifications.ClaimTakesTheOldest` | internal/services/notification/repository.go:163-190 | The oldest claimable row that nobody holds is taken, under a deadline one lease or thirty seconds away; the claim and the row say the same |
| `Notifications.ReportWrites` | internal/services/notification/repository.go:198-263 | What a report that goes through writes, with waits of 5, 30, 120 and 600 seconds after the first four failures |
| `Notifications.SentIsFinal` | internal/services/notification/repository.go:311-326 | No step changes a SENT notification |
| `Notifications.ClaimedAgainIff` | internal/services/notification/repository.go:144-196 | Over runs: some continuation claims a notification if and only if it is not SENT and has attempts left; otherwise no continuation ever does |
| `Notifications.FifthCrashStrands` | internal/services/notification/repository.go:157-161 | A run: five claims whose workers crash; the row stays in PROCESSING and no continuation claims it |
| `RefreshTokens.SessionRepository.RotateRefreshSession` | internal/services/auth/repository.go:190-222 | Rotation, replay and expiry end in the specified state and answer, the family revocation on replay included |
| `RefreshTokens.SessionRepository.RevokeRefreshSession` | internal/services/auth/repository.go:224-234 | Logout marks a session once and ignores unknown ones |
| `RefreshTokens.SessionRepository.RevokeRefreshFamilyLocked` | internal/services/auth/repository.go:236-245 | The loop over the map revokes exactly the unrevoked sessions of the family, in any order |
| `RefreshTokens.FamiliesAreChains` | internal/services/auth/repository.go:182-245 | In every reachable state each family is one unforked chain without repetition, linked by replacement |
| `RefreshTokens.OneLiveSession` | internal/services/auth/repository.go:190-222 | A family has at most one session that can still rotate |
| `RefreshTokens.RotatesAtMostOnce` | internal/services/auth/service.go:224-251 | A token rotates successfully at most once in a whole run |
| `RefreshTokens.ReplayKillsFamilyIff` | internal/services/auth/repository.go:195-206 | Replaying a spent token ends its family if and only if it was ended before or the token is unexpired and its user exists |
| `RefreshTokens.ExpiredReplaySparesTheFamily` | internal/services/auth/repository.go:195-197 | A run: a rotated token replayed after its expiry; the family is alive and the successor still rotates |
| `RefreshTokens.ReplayEndsTheFamily` | internal/services/auth/repository.go:190-245 | After such a replay every refresh with any token of the family fails for the rest of the run |
| `RefreshTokens.DeadStaysDead` | internal/services/auth/repository.go:236-245 | A revoked family never comes back |
| `RefreshTokens.LogoutKillsFamily` | internal/services/auth/repository.go:224-245 | Logging out revokes the whole family of a known token and touches no other; an unknown token changes nothing |
| `RefreshTokens.LogoutEndsTheFamily` | internal/services/auth/service.go:253-272 | Over runs: after a logout every refresh with any token of that family fails |
| `RefreshTokens.RefreshIsAnsweredIff` | internal/services/auth/repository.go:190-210 | Exactly which refreshes are unauthorized, a reuse, or rotate |
| `RefreshTokens.RotationWrites` | internal/services/auth/repository.go:207-222 | A rotation hands out one live token of the same user and family and marks the old one as replaced by it, field by field; no other token changes |
| `RefreshTokens.ReplayWrites` | internal/services/auth/repository.go:203-206 | A replay revokes what was not revoked in its family, at that moment, and touches no other family |
| `RefreshTokens.IssuedSessionRotates` | internal/services/auth/service.go:274-301 | A session just issued to an existing user rotates until it expires |
| `RateLimit.MemoryFixedWindowStore.Allow` | internal/platform/httpapi/rate_limit.go:51-75 | Buckets and answer end as specified: a window that is not positive is refused, a new window starts when the old one is over, and a rejection announces at least one second |
| `RateLimit.AllowedIffAmongTheFirst` | internal/platform/httpapi/rate_limit.go:59-74 | A request is allowed if and only if it is among the first `limit` of its key in the window it is counted in, read off the list of requests; otherwise it is told to wait for what is left of that window, and one second at least |
| `RateLimit.FewRecentRequestsAreAllowed` | internal/platform/httpapi/rate_limit.go:59-69 | A client with at most `limit` requests in the window-long interval ending now is never refused |
| `RateLimit.BadWindowIsRefused` | internal/platform/httpapi/rate_limit.go:52-54 | A window that is not positive is refused and counts nothing |
| `RateLimit.RunIsBounded` | internal/platform/httpapi/rate_limit.go:51-75 | The bucket knows enough about the past: what was allowed since any instant is bounded by what its window and the one before can hold |
| `RateLimit.AtMostTwiceTheLimit` | internal/platform/httpapi/rate_limit.go:51-75 | Under a monotone clock any half-open interval of one window length holds at most twice the limit |
| `RateLimit.RetrySucceedsIff` | internal/platform/httpapi/rate_limit.go:66-74 | After a rejection, with no other request for the key, a later request is allowed if and only if the window is over |
| `RateLimit.WaitingRetryAfterSuffices` | internal/platform/httpapi/rate_limit.go:66-74 | A client that waits for the announced time is let through |
| `RevocationCache.CachedRevocationRepository.RevokeToken` | internal/services/auth/revocation_cache.go:29-35 | The durable write decides the answer; a cache failure does not show |
| `RevocationCache.CachedRevocationRepository.IsTokenRevoked` | internal/services/auth/revocation_cache.go:37-51 | A hit answers without the database; a miss asks it and warms the cache for a minute when the token is revoked |
| `RevocationCache.CacheIsBacked` | internal/services/auth/revocation_cache.go:29-51 | In every reachable state each cache entry is backed by a durable revocation of that token |
| `RevocationCache.CacheShowsIff` | internal/services/auth/service.go:201-222 | With and without the cache the answers differ if and only if a hit meets a token that expired between verification and lookup and whose user exists |
| `RevocationCache.CacheIsInvisible` | internal/services/auth/service.go:201-222 | The cache is invisible whenever the lookup happens before the token expires, whatever the cache does |
| `RevocationCache.WarmedEntryOutlivesTheToken` | internal/services/auth/revocation_cache.go:46-49 | A run with two different answers: a lookup one second before expiry warms the cache, and a request verified in that second and looked up after it is rejected with the cache and let in without it |
| `RevocationCache.LetInIff` | internal/services/auth/service.go:201-222 | Over runs: a verified token lets its user in if and only if the user exists and the token was not revoked durably, or has expired since |
| `RevocationCache.LetInWithCacheIff` | internal/services/auth/revocation_cache.go:37-51 | The same through the cache, however it behaves, while the database answers and the token has not expired |
| `RevocationCache.FailedLookupLetsNobodyIn` | internal/services/auth/revocation_cache.go:43-46 | With the database down nobody is let in: a hit rejects, and a miss is answered as unavailable for a token that verifies |
| `RevocationCache.CacheEntryLasts` | internal/services/auth/revocation_cache.go:46-49 | An entry made on logout is hit until the token expires, one made by a lookup for sixty seconds |
| `ConsumerRetry.Channel.BuildFailureHeaders` | internal/platform/messaging/rabbitmq.go:298-312 | All old headers survive under the new count, delay and error |
| `ConsumerRetry.Channel.PublishWithConfirm` | internal/platform/messaging/rabbitmq.go:322-357 | Success is the next unread confirmation on the channel being an ack, whichever publish it answers; a timeout leaves the answer to the next reader |
| `ConsumerRetry.Channel.PublishFailedDelivery` | internal/platform/messaging/rabbitmq.go:214-236 | Which queue and headers a failed delivery goes on with; if every earlier confirmation was read, a reported action means the broker took this very publication |
| `ConsumerRetry.JourneyLadder` | internal/platform/messaging/rabbitmq.go:214-275 | A delivery that always fails is handled once per retry left and once more, through the retry queues in order and then the dead letters |
| `ConsumerRetry.FreshMessageIsHandledSixTimes` | internal/platform/messaging/rabbitmq.go:214-275 | A message that has not failed yet is handled six times, through retry queues 1 to 5 and then dead, with its body unchanged |
| `ConsumerRetry.FailureIsWritten` | internal/platform/messaging/rabbitmq.go:214-236 | Target and headers of each failure: the count, delays of 5 and 30 seconds, 2, 10 and 30 minutes, the error, and the reason of a dead letter |
| `ConsumerRetry.RetryCountReads` | internal/platform/messaging/rabbitmq.go:238-275 | The count a message brings is the number, or the text read as one, and never below zero |
| `ConsumerRetry.RetryCountGrows` | internal/platform/messaging/rabbitmq.go:238-275 | The count read back from the headers written is one more |
| `ConsumerRetry.OneReturnKeepsKeyIff` | internal/platform/messaging/rabbitmq.go:277-284 | The condition under which one retry keeps the reported routing key, both ways |
| `ConsumerRetry.EveryHopReportsTheFirstKeyIff` | internal/platform/messaging/rabbitmq.go:277-312 | Every hop reports the first routing key if and only if the first retry keeps it |
| `ConsumerRetry.PlainDeliveryKeepsItsKey` | internal/platform/messaging/rabbitmq.go:277-284 | A message published without the header, under a key without white space around it, reports that key at every hop |
| `ConsumerRetry.BlankHeaderLosesTheKey` | internal/platform/messaging/rabbitmq.go:322-328 | A header of white space is neither filled in nor read: after one retry the queue's name is reported instead of the key |
| `ConsumerRuns.CarefulConsumerDropsNothing` | internal/services/feedprojection/consumer.go:47-69 | Any number of consumers, late answers, timeouts and lost connections: if each publishes only on a channel on which it gave up on no confirmation, every message is processed or the broker has a copy |
| `ConsumerRuns.CanDropIff` | internal/services/feedprojection/consumer.go:55-66 | After such a run, and while nobody gives up on another confirmation, some continuation drops a message for good if and only if a confirmation was given up on and its channel is still in use |
| `ConsumerRuns.AbandonedDrops` | internal/platform/messaging/rabbitmq.go:343-356 | From any reachable state with such a channel, how a message gets dropped |
| `ConsumerRuns.LateConfirmationDropsAnother` | internal/services/feedprojection/consumer.go:55-66 | A run: one republish times out, its late confirmation is read as that of the next, which is acknowledged and dropped when the connection dies |
| `ConsumerRuns.ExchangeIsARun` | internal/platform/messaging/rabbitmq.go:322-357 | What `PublishFailedDelivery` does on a channel, and acknowledging after it, is a run of this machine: the delivery is removed exactly on success |
| `ConsumerRuns.RunIsSound` | internal/platform/messaging/rabbitmq.go:224-236 | Whatever the consumers do, a delayed copy sits in the retry queue its header counts, one of the five |
| `FeedListing.LessIsStrictTotalOrder` | internal/services/feed/repository.go:100-112 | The comparator is a strict total order on events with distinct ids, missing starts included |
| `FeedListing.ListingHolds` | internal/services/feed/repository.go:90-99 | A listing holds exactly the published events of the city asked for, or of any city when none is |
| `FeedListing.ListingIsChronological` | internal/services/feed/repository.go:100-112 | Earlier starts stand before later ones, missing starts last, and equal ones by id |
| `FeedListing.PageHolds` | internal/services/feed/domain.go:32-43 | Which part of the listing a page holds: twenty events unless a number is asked for, a hundred at most, from the offset on |
| `FeedListing.MemoryRepository.ListEvents` | internal/services/feed/repository.go:87-120 | The page is cut from a sorted listing of exactly the published events that match the city |
| `FeedListing.MemoryRepository.SortIn` | internal/services/feed/repository.go:100-112 | Collecting keeps the list sorted and complete |
| `FeedListing.ListEventsIsDetermined` | internal/services/feed/repository.go:87-112 | The answer does not depend on the order in which the map is walked |
| `FeedListing.PagesAreThePrefix` | internal/services/feed/domain.go:32-43 | Pages at offsets 0, L, 2L, ... put together are the listing's prefix without gap or repetition, for every L from 1 to 100 |
| `FeedListing.PagingIsComplete` | internal/services/feed/repository.go:113-120 | Enough pages yield every matching published event exactly once and in order |

## Left out

- ConsumerRetry.Channel.PublishFailedDelivery: the queue is one that has a retry policy, so the error for an unknown queue does not occur.
- ConsumerRetry.RetryCountGrows: header numbers are mathematical integers; an unsigned 64-bit header beyond the signed range, which the source would convert to a negative count, is not represented.
- Audit events, correlation ids and metrics: written beside the state and read by no protocol.
- HTTP handlers, gateway, cookies, configuration, frontend and deployment files: plumbing around the protocols.
- Hashing, signing, base64, JSON and AMQP or SQL encoding: hashes and ids are opaque values, payloads are records, and what a decoder rejects is a value of its own (`Malformed`, a text header that is no number).
- Trimming of payload fields, and cutting of error texts to their length limit: field values stand for the text as decoded and trimmed.
- Error-text and update-time columns of outbox rows, notifications and feed rows: no decision reads them.
- Authentication and role checks: `admin` is a boolean on the step.
- Database failures inside a registration operation: the transaction rolls back, so the operation is no step.
- The detail answer's viewer status and the lists of events: reads that other members already determine.
- MemoryRepositories.MemoryRepository.FirstWaitlistedLocked: one pass for the least number stands for the library's in-place sort of the waiting rows; its ties on creation time cannot occur, because waiting numbers are distinct.
- MemoryRepositories.MemoryRepository.ApplyCommand: names the middle part of the update, which the source writes inline.
- FeedListing.MemoryRepository.SortIn: an insertion in order stands for the library's in-place sort; that the sorted list is unique is proved separately.
- PostgresRepositories.PostgresRepository.FirstWaitlistedTx: the queries of the PostgreSQL repository are set expressions over the table rather than row scans, and so are its other reads.
- PostgresRepositories.PostgresRepository.LatestStatusTx: says which row the ordering may put first and leaves open which of two rows equal in both columns it is, as the query does.
- EndToEnd.StraightPipelineAgrees: one projector reads the broker's sequence in order and does not fail; the general statement is `EndToEnd.PipelineAgrees`, whose deliveries are given by what the projectors handle and in which order, not by the consumers' channels and retry queues of `ConsumerRuns`.
- EndToEnd.OrderIsKeptIff: batches of two relays that overlap in time take effect as wholes, one after the other; a finer interleaving of their publishes appears as a batch lost after some records and repeated later.
- EndToEnd.RunWritesInTime: speaks of strictly increasing operation times; the service reads the clock before it locks the event, so the source does not guarantee them.
- Notifications.ClaimedAgainIff: the continuation that claims the row may find all other rows locked by other workers.
- ConsumerRuns.CarefulConsumerDropsNothing: the library hands confirmations on in the order of the publishes; its blocking when several are left unread is not modelled, and messages are told apart by their bodies.
- Refresh rotation in `internal/services/auth/postgres_repository.go`: the same protocol as the in-memory one, modelled once.
- RefreshTokens.ReplayEndsTheFamily: access tokens issued earlier stay valid until they expire, and the model says nothing about them.
- RateLimit.WaitingRetryAfterSuffices: speaks of the duration returned, not of the whole seconds put into the response header.
- RevocationCache.CacheShowsIff: the durable lookup is the in-memory repository's, which still reports a token at the instant of its expiry; the PostgreSQL one (internal/services/auth/postgres_repository.go:100) no longer does, so there the condition includes that instant.
- The Redis limiter: its script is a second implementation behind the same interface; the in-memory one is modelled.
- Turning an envelope into a notification row: the same claim-by-message-id as the projector's.
- The login guard and the media assets: small machines that repeat the limiter and the lease.
- The feed list cache: its key lowercases the city while the repository matches case exactly, so it is not transparent and no general law holds.
- Operator scripts that requeue DEAD rows or copy dead letters: they step outside the attempt bound on purpose.
