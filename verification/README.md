# Verified model of the notification service

This project models the delivery pipeline of the notification service and proves what it
keeps. An event is stored for each recipient, counted, gated by preferences and fanned out
to two Redis lists; workers drain the lists to Centrifugo and to Firebase; the API reads
and clears rows and tells the user's other devices; the Centrifugo gateway decides who may
listen and how often clients may publish.

| file | what it holds |
|---|---|
| `table.dfy`, `memory_store.dfy` | the per-user table as a value with its runs and pages, and the two-index heap store that refines it |
| `ratelimit.dfy`, `ratelimit_theorems.dfy`, `ratelimit_witness.dfy`, `ratelimit_exact.dfy` | the token bucket object, its histories, the bounds and the histories that reach them, and every answer from the times of the calls alone |
| `contract.dfy`, `preference.dfy`, `subscribers.dfy`, `queue.dfy`, `channels.dfy` | events, gates, collections, lists, channel names and policy |
| `fanout.dfy`, `service.dfy`, `fanout_theorems.dfy`, `audience.dfy` | the fan-out specification, the service objects that deliver it, what it amounts to, and who gets what down to the stored fields |
| `api.dfy`, `badge.dfy` | the API handlers with read sync, and the law tying badges to the store |
| `push.dfy`, `ownership.dfy`, `workers.dfy` | the push worker, token ownership over runs, the dispatch workers |
| `gateway.dfy`, `lingocast.dfy` | the gateway callbacks and who receives what, the shared event handler |
| `races.dfy`, `retries.dfy` | requests that overlap call by call, and processing one event again |
| `journeys.dfy` | results that cross components: from an event through queue, worker, channel and gateway to what a client shows |
| `arith.dfy`, `wrappers.dfy` | division facts, an option type and sequences without repeats |

Outside calls are inputs. `Env` (in `fanout.dfy`), `Faults`, `Turn` and the `fails`
arguments say which call fails, by position; the clock, generated row IDs, parsed
times of day, verified tokens, Firebase's answers and Centrifugo's acceptance are arguments.
An event's `Extra` map is an object (`FieldMap`) that every stored row points to; each
message is built in a map of its own, whose contents are copied when it is enqueued, which
is where the code marshals it. `Params` holds the contents of `Extra` beside it, for the
specification.
Integers are unbounded; Go's truncating division is written out as `Quotient`, and the
page count uses the exact integer ceiling in place of the floating-point one.

## What turned out not to hold

- **Badge numbers.** `docs/notification-flows.md` presents `unread_count` as tracking the
  real total, and live updates as carrying none. A number is right at the moment a counting
  message is sent (`SentNumbersExact`), but three kinds of operation are `Silent`: an event
  that stores a row without an in-app message (every `streak_at_risk` event, or a user who
  switched in-app off), the deletion of an unread row, and a live update that passes on an
  `unread_count` its producer put among the extra fields. One operation leaves a right badge
  right if and only if it is not silent (`SilentExact`; for the live update, if and only if
  its number is the count, `EchoExact`), and a run keeps it right throughout if and only if
  none misleads (`RightUnlessSilent`). `BadgeLaw` gives the exact difference;
  `StreakLeavesBadgeBehind` and `ProducerSetsBadge` are concrete inputs.
- **Order of badge numbers.** That a drained queue leaves the newest number on screen, in
  every interleaving of producers and workers, holds if and only if at most one dispatch
  worker takes messages (`NewestWinsIff`); `TwoWorkersStale` is the failing schedule.
- **Overlapping requests.** A number is counted before it is enqueued, and other requests may
  write in between. The last number enqueued is then off by exactly what those writes did to
  the unread count (`LastNumberExact`): with nothing new stored since, it is stale if and
  only if some request took an unread row of the user (`StaleExactly`); `OvertakenStale` is a
  concrete run.
- **Retries.** An event whose enqueue failed is stored again by each retry (`RetriesStore`)
  and its already sent messages are sent again (`RetryRepeats`), under other row IDs
  (`RepeatsLookNew`).
- **Cleanup.** Sweeping changes limiter answers unless the age is long enough;
  `CleanupInvisibleIff` gives the exact condition on the arguments.
- **Window bound.** `burst + rate * ceil(W / interval)` is not the tight bound; the exact
  worst case is one less unless the interval divides the window, and counts at most a
  burst per refill (`WorstCaseClosedForm`, `WorstCaseAttained`).
- **Create.** Storing under an ID in use leaves the old object listed but no longer
  indexed; the store stays consistent exactly when the ID is new (`Create`).
- **Result counts of a multicast.** Sent, unregistered and failed add up to the tokens
  whatever Firebase answers if and only if the job's tokens are all different
  (`AlwaysAddsUpIff`; for one given answer, `TokenPartition`). For a job the service plans
  that is if and only if one device lookup of its user worked, which is always so when no
  recipient is listed twice (`JobTokensDistinct`, `PlannedJobAddsUp`). `TwiceListedFails` is
  a failing job.
- **Repeated recipients.** A user listed twice gets the tokens twice in each job;
  `TokensExact` keeps the multiplicity, `TokensOnce` is the case without repeats.

Where documents and code differ the code is followed: `docs/notification-flow.md` names
channels `notifications:user:…` and calls the push worker a stub; the code uses
`noti:user:…` and sends through Firebase.

## Model

| member | source | states |
|---|---|---|
| RateLimiting.RateLimiter.Allow | internal/gateway/ratelimit.go:32-59 | the answer and every key's bucket afterwards are those of one step on the bucket map; no two keys share a bucket |
| RateLimiting.Bucket.Take | internal/gateway/ratelimit.go:43-58 | refill (truncating division, cap at the burst, clock restarted) then one token taken if any |
| RateLimiting.RateLimiter.Cleanup | internal/gateway/ratelimit.go:62-71 | exactly the buckets last filled before the cutoff go, whatever the iteration order |
| RateLimitTheorems.TokensInRangeRun | internal/gateway/ratelimit.go:43-57 | over any timed history every bucket holds between zero and burst tokens |
| RateLimitTheorems.NonInterference | internal/gateway/ratelimit.go:32-59 | a key's answers in any interleaved history are those of the history without other keys' calls |
| RateLimitTheorems.WindowBound | internal/gateway/ratelimit.go:32-59 | any history of calls and safe sweeps on any keys, any window: admissions of one key are at most the worst case |
| RateLimitTheorems.WorstCaseClosedForm | internal/gateway/ratelimit.go:43-51 | closed form of the worst case, and that it is within burst + rate * ceil(W/interval) |
| RateLimitWitnesses.WorstCaseAttained | internal/gateway/ratelimit.go:32-59 | for every configuration and window length some history reaches the worst case, so the bound is exact |
| RateLimitTheorems.CreationBound | internal/gateway/ratelimit.go:37-71 | counted from the call that creates the bucket, only whole intervals add tokens, whatever other keys hold and whatever safe sweeps follow |
| RateLimitExact.AnswersExact | internal/gateway/ratelimit.go:32-59 | every answer a key gets in any history of calls and safe sweeps: its calls fall into epochs an interval or more apart, and each epoch admits as many first calls as there are tokens when it opens, those left over plus the rate per whole interval, up to the burst |
| RateLimitExact.EpochsExact | internal/gateway/ratelimit.go:43-58 | the same for the calls of one key cut into given epochs, with the bucket they leave |
| RateLimitExact.NoRateExact | internal/gateway/ratelimit.go:43-58 | without a rate a key's first calls are admitted, as many as the burst, and no other |
| RateLimitExact.BurstAfterBurst | internal/gateway/ratelimit.go:43-58 | after j calls at time 0, m calls at any other time: as many are admitted as there are tokens left then or added since, capped at the burst, for any rate and for a clock set back |
| RateLimitExact.BurstAfterSweep | internal/gateway/ratelimit.go:62-71 | a sweep in between removes a bucket last filled longer ago than the age, tokens or no tokens, and keeps any other |
| RateLimitTheorems.NoBurstAdmitsNone | internal/gateway/ratelimit.go:54-56 | with a burst of zero or less nothing is ever admitted |
| RateLimitTheorems.SafeSweepsInvisible | internal/gateway/ratelimit.go:36-71 | sweeps with a long enough age, inserted anywhere, change no answer |
| RateLimitWitnesses.CleanupInvisibleIff | internal/gateway/ratelimit.go:62-71 | sweeping with an age never changes an answer if and only if the refill over that age reaches the burst |
| RateLimitWitnesses.WaitingIsEnough | internal/gateway/ratelimit.go:43-58 | with rate and burst at least one, a call one interval after the last fill is admitted |
| RateLimitWitnesses.DiscardedFraction | internal/gateway/ratelimit.go:44-51 | over any run, restarting the clock at refills discards less than half of the elapsed time |
| MemoryStore.NotificationStore.Create | internal/store/memory/notification.go:30-40 | appends the row to its user's list, as an object of its own that shares the caller's extra map; generates an ID when empty; the two indexes agree afterwards if and only if the ID was new |
| MemoryStore.NotificationStore.GetByID | internal/store/memory/notification.go:42-51 | a fresh copy of the caller's own row, nothing for anyone else's ID |
| MemoryStore.NotificationStore.ListByUserID | internal/store/memory/notification.go:53-69 | the first rows up to the limit, as fresh copies |
| MemoryStore.NotificationStore.ListByUserIDPaginated | internal/store/memory/notification.go:71-123 | the specified page of the filtered list with its totals, as fresh copies |
| MemoryStore.NotificationStore.MarkRead | internal/store/memory/notification.go:125-134 | a write through the ID index shows in the user's list; nobody else's row changes |
| MemoryStore.NotificationStore.MarkAllRead | internal/store/memory/notification.go:136-147 | returns the prior unread count; every row of the user, and no other, is read |
| MemoryStore.NotificationStore.Delete | internal/store/memory/notification.go:149-165 | removes the row from both indexes, keeping the order of the rest; brings in no ID |
| MemoryStore.NotificationStore.CountUnread | internal/store/memory/notification.go:167-177 | the number of the user's unread rows |
| MemoryStore.IndexAppend | internal/store/memory/notification.go:36-38 | appending keeps both indexes views of one set of objects if and only if the ID is not in use |
| MemoryStore.NotificationStore.TwoViews | internal/store/memory/notification.go:25-28 | a valid store lists each indexed object under its owner, once, and indexes each listed object itself |
| MemoryStore.NotificationStore.ValidView | internal/store/memory/notification.go:25-28 | a valid store stands for a table with globally unique IDs, those of the ID index |
| MemoryStore.NotificationStore.OwnerCheck | internal/store/memory/notification.go:45-48 | the owner test through the ID index agrees with searching the user's own rows |
| MemoryStore.GeneratedDistinct | internal/store/memory/notification.go:179-181 | generated IDs are pairwise different |
| MemoryStore.GeneratedReads | internal/store/memory/notification.go:179-181 | a generated ID is mem- and the counter in decimal without leading zeros |
| MemoryStore.NotificationStore.NextIDFresh | internal/store/memory/notification.go:33-35 | while every ID in use came from the generator, the next generated one is new |
| MemoryStore.NotificationStore.CreateUnnamed | internal/store/memory/notification.go:30-40 | storing under an empty ID keeps it that every ID came from the generator, and the store consistent |
| MemoryStore.GeneratedRunFresh | internal/store/memory/notification.go:33-35 | over any run, creations under generated IDs never meet a used one, whatever is read or deleted in between |
| Tables.EntryExact | internal/store/memory/notification.go:30-177 | each operation changes its owner's unread count by its ledger entry (so MarkAllRead leaves zero) and no other user's rows |
| Tables.UnreadLedger | internal/store/memory/notification.go:30-177 | over any run with fresh IDs, unread = before + unread creates - first reads - MarkAllRead returns - unread deletes |
| Tables.UsersIsolated | internal/store/memory/notification.go:30-177 | a user's rows after a run depend only on that user's own operations |
| Tables.PaginationCovers | internal/store/memory/notification.go:83-121 | pages 1..TotalPages laid end to end are the list, and fewer pages are not |
| Tables.HasMoreExact | internal/store/memory/notification.go:93-121 | HasMore holds if and only if the next page is non-empty, early return included |
| Tables.UnreadFilter | internal/store/memory/notification.go:75-81 | the unread filter keeps exactly the unread rows, as many as the count says |
| Tables.UnreadInOrder | internal/store/memory/notification.go:75-81 | at each place the filter keeps an unread row once, between what it keeps before and after it: order and multiplicity stay |
| Tables.FilteredExact | internal/store/memory/notification.go:75-81 | listing everything filters nothing, listing the unread drops exactly the read rows |
| Tables.PageSays | internal/store/memory/notification.go:83-121 | page 1 and size 20 by default, the total is the length of the whole filtered list, TotalPages the least number that holds it |
| Tables.PageShows | internal/store/memory/notification.go:93-121 | a page shows the rows at its places of the list, as many as there are |
| Tables.MarkReadAt | internal/store/memory/notification.go:125-134 | marking one ID raises that user's row's flag in place and changes nothing else |
| Tables.MarkAllReadAt | internal/store/memory/notification.go:136-147 | marking all raises the flags of that user's rows in place and changes nothing else |
| Tables.DeleteAt | internal/store/memory/notification.go:149-165 | deleting closes the gap of that one row |
| Contract.ValidEvents | pkg/contract/envelope.go:44-63 | an event passes if and only if identity is registered, actor and every object are complete and there is an object |
| Contract.ErrorsExact | pkg/contract/envelope.go:44-63 | which error each malformed event meets: that of its earliest wrong part |
| Contract.ChannelTable | pkg/contract/channels.go:12-48 | which channels each identity uses, in-app first, and which identities are live updates |
| Contract.FirstIncomplete | pkg/contract/envelope.go:54-58 | the reported index is that of the first incomplete object |
| Contract.SliceFromInterface | pkg/utils/converter_util.go:31-46 | string lists as they are, decoded lists without their non-strings, nothing else |
| Contract.StringsMembers | pkg/utils/converter_util.go:35-42 | a decoded list names exactly the users it holds as strings |
| Contract.StringsInOrder | pkg/utils/converter_util.go:35-42 | a decoded list keeps its strings at their places, repeats included |
| Contract.RecipientsExact | pkg/utils/converter_util.go:6-22 | u is a recipient if and only if extra.to is there and names u, or it is absent or null and the first object's audience names u |
| Contract.ToIsTaken | pkg/utils/converter_util.go:6-9 | a list in extra.to is taken as it stands, in order with its repeats, whatever the objects say |
| Preferences.CircularWindow | internal/domain/preference.go:65-77 | for any day length the branching test is membership in a circular interval |
| Preferences.WindowLength | internal/domain/preference.go:65-77 | a window holds back (end - start) mod day minutes; the swapped window is its complement |
| Preferences.QuietHoursOnlyHoldPush | internal/service/notification.go:139-153 | quiet hours only ever take push away |
| Preferences.PushGate | internal/service/notification.go:139-153 | the push gate in circular-clock terms: not muted, switched on, local minute outside the window |
| Services.NotificationService.Process | internal/service/notification.go:73-110 | the store, and both queues, hold exactly what is specified: the plan's messages before the first failing enqueue, an error if and only if one failed; every new row points to the event's own extra map, which nothing writes; each in-app message sent was built in a new map of its own |
| Services.NotificationService.PersistNotifications | internal/service/notification.go:183-204 | rows for the recipients whose creation worked, in order, all sharing one extra map, and the map of the last one per user |
| Services.NotificationService.UnreadCounts | internal/service/notification.go:208-219 | the count of each recipient whose lookup worked |
| Services.NotificationService.FilterByPreference | internal/service/notification.go:115-135 | the recipients that pass, or whose lookup failed; the rest of the parameters unchanged |
| Services.NotificationService.Enrich | internal/service/notification.go:159-181 | device tokens per user for push, nothing for other channels |
| Services.NotificationService.DispatchInApp | internal/service/dispatcher.go:29-58 | one broadcast, or one message per recipient, up to the first failing enqueue; the maps the messages were built in are new, pairwise different objects that still say at the end what their own message said, and the shared extra map is as before |
| Services.NotificationService.DispatchPush | internal/service/dispatcher.go:92-112 | one job per recipient with a token, up to the first failing enqueue |
| Services.MakeBasePayload | internal/service/dispatcher.go:60-77 | a new map object, not the shared one, with the specified fields, device tokens removed |
| Services.MakeUserPayload | internal/service/dispatcher.go:38-46 | a new map object for one recipient with its id, time and count added |
| Services.MakePushData | internal/service/dispatcher.go:117-129 | string fields only, plus identity and link |
| Fanout.Reach | internal/service/dispatcher.go:53-55 | the first failing attempt: all before it succeed |
| Fanout.DeliveredThen | internal/service/notification.go:100-107 | deliveries in sequence are one delivery of the joined plan |
| FanoutTheorems.ExactFanout | internal/service/notification.go:85-109 | without faults: one in-app message per recipient past the gate (or one broadcast if any) and one push job per gated recipient with tokens, in input order |
| FanoutTheorems.DispatchersInTurn | internal/service/notification.go:100-107 | every dispatcher registered for a channel gets the event, in order of registration, several for one channel included |
| FanoutTheorems.FailureLeavesPrefix | internal/service/notification.go:100-107 | stopping early leaves a prefix of the in-app messages and no job, or all of them and a prefix of the jobs |
| FanoutTheorems.KeptIsPick | internal/service/notification.go:120-132 | the gate keeps the passing positions and nothing else |
| FanoutTheorems.PickExact | internal/service/notification.go:121-132 | a selection ascends through exactly the kept positions: order kept, none lost, none repeated |
| FanoutTheorems.InAppRecipients | internal/service/notification.go:115-153 | u gets an in-app message if and only if listed at a position that passes or could not be read |
| FanoutTheorems.PushRecipients | internal/service/notification.go:159-181 | for any recipient list, with or without a preference store: a gated user gets a job if and only if one of its device lookups worked and it has a non-empty token; its tokens are the usable ones once per working lookup |
| FanoutTheorems.JobTokensDistinct | internal/service/notification.go:164-176 | a planned job's tokens are all different if and only if one device lookup of its user worked; always, when no recipient is listed twice |
| FanoutTheorems.UsableDistinct | internal/store/mongo/subscriber.go:33-48 | the unique index on user and token keeps a user's usable tokens all different |
| FanoutTheorems.TokensExact | internal/service/notification.go:164-176 | tokens per user with multiplicity, for any recipient list |
| FanoutTheorems.TokensOnce | internal/service/notification.go:164-176 | a user listed once has exactly the tokens of the one lookup |
| FanoutTheorems.PersistedLast | internal/service/notification.go:183-204 | the remembered notification is the row of the user's last successful creation, and is in the store |
| FanoutTheorems.MessageNamesOwnRow | internal/service/dispatcher.go:38-43 | the id in a message names a stored unread row of that recipient with that text: that of its last successful creation |
| FanoutTheorems.CountsExact | internal/service/notification.go:208-219 | the number in a message is the recipient's count after everything is stored |
| FanoutTheorems.PersistRaisesUnread | internal/service/notification.go:80-83 | storing raises each count by the rows stored for that user |
| FanoutTheorems.PayloadExact | internal/service/dispatcher.go:38-77 | no device tokens reach a client, shared fields are set, other extra fields pass untouched |
| FanoutTheorems.PushDataExact | internal/service/dispatcher.go:117-129 | push data holds exactly the string fields plus identity and link |
| Audiences.InAppAudience | internal/service/notification.go:115-153 | u gets an in-app message if and only if listed with in-app switched on and the identity not muted, or no stored preference, or one that could not be read |
| Audiences.PushAudience | internal/service/notification.go:115-153 | u passes the push gate if and only if listed with push switched on, not muted, outside quiet hours, or no stored or readable preference |
| Audiences.JobSays | internal/service/dispatcher.go:92-129 | title, body, link, event type and data of every push job are the event's |
| Audiences.MessageSays | internal/service/dispatcher.go:29-58 | room, event name, title, body, link, id, created_at and count of every in-app message |
| Audiences.PayloadFields | internal/service/dispatcher.go:38-77 | every field of a recipient's payload: the given value, else what the extra fields say, never device tokens |
| Audiences.BroadcastFields | internal/service/dispatcher.go:30-36 | every field of a broadcast's payload; nothing of any one recipient |
| Audiences.RowsExact | internal/service/notification.go:183-204 | each successful creation's row stands at its place of its user's list with every field the event's |
| Audiences.StoredOrNot | internal/service/notification.go:80-83 | a live update stores nothing; anything else one row per listing |
| Queues.RedisList.Enqueue | internal/queue/queue.go:21-27 | a push at the head adds to the back of the waiting order; a failed one changes nothing |
| Queues.RedisList.Pop | internal/queue/queue.go:36-47 | a pop from the tail takes the oldest message, nothing from an empty list |
| Api.NotificationHandler.MarkRead | internal/api/notification_handler.go:128-154 | status in every case; the store change; the sync message carries the new count |
| Api.NotificationHandler.MarkAllRead | internal/api/notification_handler.go:165-179 | status, the number updated, and the sync message |
| Api.NotificationHandler.Delete | internal/api/notification_handler.go:189-209 | status and store change; no message is sent |
| Api.ReadSync.NotificationRead | internal/api/read_sync.go:31-40 | one message to the user's own room, or none when the enqueue fails |
| Api.ReadSync.NotificationReadAll | internal/api/read_sync.go:42-50 | one message with count zero to the user's own room |
| Api.SyncSays | internal/api/read_sync.go:31-50 | room, event name, id and number of the two sync messages |
| Badges.DriftStep | internal/api/notification_handler.go:138-152 | each operation changes store minus badge by exactly its drift |
| Badges.Perform | internal/service/notification.go:73-110 | with no failing call the service and API objects do to the store and the queue exactly one step of the serial system |
| Badges.BadgeLaw | internal/service/notification.go:80-109 | over any fault-free run the store's count is the shown number plus the drift added up operation by operation |
| Badges.SilentExact | internal/service/notification.go:73-110 | one operation leaves a right badge right if and only if it is not silent: no rows stored for the user without an in-app message, no unread row deleted |
| Badges.EchoExact | internal/service/dispatcher.go:38-52 | after a live update with a number of its own the badge is right if and only if that number is the user's count |
| Badges.RightUnlessSilent | internal/service/notification.go:73-110 | a right badge stays right over every run without silent operations, and throughout a run if and only if no operation misleads |
| Badges.SentNumbersExact | internal/service/dispatcher.go:44-46 | every unread_count sent to a user is that user's count at the end of the operation that sent it, but for one a live update carries in its extra fields |
| Badges.StreakLeavesBadgeBehind | pkg/contract/channels.go:27-29 | a push-only event leaves a correct badge behind by the rows it stored |
| Subscribers.DeletedExact | internal/store/mongo/subscriber.go:50-53 | one pair goes; other users' rows stay, same token or not |
| Subscribers.SubscriberStore.Upsert | internal/store/mongo/subscriber.go:25-31 | a registration that works makes the specified change, a failed one none |
| Subscribers.UpsertedExact | internal/store/mongo/subscriber.go:25-31 | the pair is registered once, its row replaced in place or added; every other row and every other user's list is as it was |
| Subscribers.MatchingMembers | internal/store/mongo/subscriber.go:33-48 | a lookup returns all of a user's rows and no one else's |
| Subscribers.MatchingConcat | internal/store/mongo/subscriber.go:33-48 | a lookup keeps the order and multiplicity of the rows |
| PushDelivery.Send | pkg/push/fcm.go:69-109 | answers classified in order, surplus answers ignored, empty token list not sent |
| PushDelivery.ClassesExact | pkg/push/fcm.go:95-107 | a token is reported dead, or failed, if and only if some answer about it says so |
| PushDelivery.LastReason | pkg/push/fcm.go:95-107 | the reason kept for a failed token is that of the last answer that failed it |
| PushDelivery.DeadInOrder | pkg/push/fcm.go:95-107 | the dead tokens come one per dead answer, in order |
| PushDelivery.OutcomeSays | pkg/push/fcm.go:69-109 | what a handled job adds up to, by kinds of answer; nothing for a job without tokens |
| PushDelivery.SucceededExact | cmd/worker-push/main.go:145-155 | the pruned counter counts the deletions that worked and only those |
| PushDelivery.TokenPartition | pkg/push/fcm.go:94-108 | sent + unregistered + failed = tokens if and only if no token failed twice |
| PushDelivery.AlwaysAddsUpIff | pkg/push/fcm.go:94-108 | the three counts add up whatever Firebase answers if and only if the tokens are all different |
| PushDelivery.DistinctTokensPartition | pkg/push/fcm.go:94-108 | distinct tokens fall in exactly one class each |
| PushDelivery.PrunedExact | cmd/worker-push/main.go:145-155 | pruning removes exactly the pairs whose deletion worked and touches no other user |
| PushDelivery.PushWorker.Handle | cmd/worker-push/main.go:112-157 | counters and collection after one job, never an error |
| PushDelivery.HandledTokens | cmd/worker-push/main.go:138-155 | afterwards the user has the old tokens minus the dead ones; one that merely failed stays |
| TokenOwnership.JobsOwned | internal/service/notification.go:164-180 | every planned job carries at least one token, all registered to its user at that moment |
| TokenOwnership.PlannedJobAddsUp | internal/service/notification.go:164-180 | for a planned job the counts add up whatever Firebase answers if and only if one device lookup of its user worked; always, when no recipient is listed twice |
| TokenOwnership.FailedDevicesStay | cmd/worker-push/main.go:138-155 | with no recipient listed twice, handling a planned job never removes a device whose delivery merely failed |
| TokenOwnership.OwnershipOverRuns | cmd/worker-push/main.go:145-152 | over any run each waiting job carries only tokens registered to its user in the collection it was enriched from; untouched users keep every row |
| DispatchWorkers.DispatchWorker.Consume | internal/queue/queue.go:30-53 | the loop does the turns in order; it ends at the first cancel or read error and at nothing else, an idle timeout or a short reply included |
| DispatchWorkers.DispatchWorker.Handle | cmd/worker-dispatch/main.go:87-112 | a malformed entry changes nothing, a refused publish counts one failure, an accepted one publishes event and payload on the room's channel; never an error |
| DispatchWorkers.OneWorkerConserves | internal/queue/queue.go:30-53 | handled followed by waiting is everything enqueued, in order; each handled entry counted once; publications follow handling order |
| DispatchWorkers.EverythingHandled | internal/queue/queue.go:30-53 | once as many messages were offered after the last arrival as ever arrived, nothing waits and all was handled in order, however many idle timeouts came between |
| DispatchWorkers.RefusedAreDropped | cmd/worker-dispatch/main.go:100-109 | while every publish fails, nothing is published and each well-formed message is counted failed |
| DispatchWorkers.OutcomesExact | cmd/worker-dispatch/main.go:100-111 | with any number of workers a failure is counted only where a publish failed, a publication made only where one worked |
| DispatchWorkers.MessagesConserved | cmd/worker-dispatch/main.go:87-112 | any number of workers and producers: every message is in exactly one place, leaves in order, is published at most once, and the counters add up |
| DispatchWorkers.SingleWorkerInOrder | internal/queue/queue.go:30-53 | with one worker the handled messages are a prefix of the enqueue order |
| DispatchWorkers.OneWorkerRuns | internal/queue/queue.go:30-53 | the consume loop of one worker is a run of the shared list with that worker alone: same order, counters and publications |
| DispatchWorkers.PublishedInOrder | cmd/worker-dispatch/main.go:87-112 | one worker without failed publishes publishes the handled messages, in order |
| DispatchWorkers.OneWorkerInOrder | internal/queue/queue.go:30-53 | one worker, any interleaving with producers, no failed publish: what was published is the messages done with, in enqueue order |
| DispatchWorkers.TwoWorkersReorder | cmd/worker-dispatch/main.go:87-112 | two workers can publish two messages the wrong way round |
| Channels.ParseExact | pkg/centrifugo/channels.go:41-51 | parsing inverts naming both ways, for ids with colons too |
| Channels.CutExact | pkg/centrifugo/channels.go:46 | cutting finds the first separator |
| Channels.WireNames | pkg/centrifugo/channels.go:13-37 | the channel and room names on the wire |
| Channels.UserAddress | pkg/centrifugo/channels.go:29-58 | a user's room maps to the user's channel, which parses back to the user |
| Channels.ChallengeAddress | pkg/centrifugo/channels.go:35-58 | the same for challenges |
| Channels.AddressesDistinct | pkg/centrifugo/channels.go:29-37 | different users, and users and challenges, never share an address |
| Channels.OwnerOnly | internal/gateway/policy.go:29-41 | v may act on u's channel if and only if v is u |
| Channels.ChallengeNeedsToken | internal/gateway/policy.go:46-55 | a challenge channel needs a token minted for that user and channel |
| Channels.AllowExact | internal/gateway/policy.go:29-59 | everything the policy lets through, by channel name |
| Gateway.ProxyHandler.Publish | internal/gateway/handler.go:107-127 | the limiter is charged for every request, then the policy decides |
| Gateway.PublishBound | internal/gateway/handler.go:22-29 | whatever all users send, one user publishes at most 20 at once and 30 over any second |
| Gateway.PublishBoundReached | internal/gateway/handler.go:22-29 | a user does get 20 publishes at once and 30 over a second |
| Gateway.PublishReaches | internal/gateway/handler.go:119-124 | a client publish never reaches another user's channel or a challenge |
| Gateway.PrivateDelivery | internal/gateway/handler.go:81-102 | over any run a message to u's room is received only by connections authenticated as u, one to a challenge only with a token for it |
| Gateway.OwnerReceives | internal/gateway/handler.go:79-85 | a new connection of u receives what is sent to u's room |
| Gateway.ConnectExact | internal/gateway/handler.go:55-85 | a connection is accepted if and only if its token verifies to a non-empty user, who starts on the own channel |
| Gateway.SubscribeExact | internal/gateway/handler.go:89-102 | which subscriptions are accepted, by channel name and token; all others are refused |
| Gateway.TokensBehindConnections | internal/gateway/handler.go:60-77 | in any run a connection stands for a user only by a token that verified to that user |
| Gateway.ChallengeFollowed | internal/gateway/handler.go:89-102 | subscribing with the right token brings a challenge's broadcasts, otherwise changes nothing; leaving ends them |
| Lingocasts.Lingocast | internal/handlers/lingocast.go:19-54 | no object or nobody addressed does nothing; otherwise exactly the fan-out of the extracted parameters |
| Lingocasts.ParamsSay | internal/handlers/lingocast.go:31-52 | title, body, link, extra fields, recipients and channel of the parameters, field by field |
| Lingocasts.OneAddressee | internal/handlers/lingocast.go:19-54 | an event addressed to exactly one user stores rows, sends personal messages and queues push jobs for that user only |
| Lingocasts.BroadcastCollapse | internal/handlers/lingocast.go:56-64 | a valid leaderboard event is one message on its challenge's channel or none: no personal message, push or row |
| Lingocasts.OthersArePersonal | internal/handlers/lingocast.go:56-64 | every other identity's in-app messages go to recipients' own rooms |
| Journeys.IdReachesOwner | internal/service/dispatcher.go:38-52 | in any gateway run, whoever receives an event's personal message, a live update's too, is authenticated as its recipient, and the id of a stored row in it is that of a row of that user |
| Journeys.NewestNumber | cmd/worker-dispatch/main.go:87-112 | with one worker and no failed publish a client shows the newest handled number; once drained, the newest ever enqueued |
| Journeys.NewestWinsIff | cmd/worker-dispatch/main.go:87-112 | in every drained run without a failed publish the newest number stays on screen if and only if at most one worker takes messages |
| Journeys.ScreenMatchesStore | internal/service/dispatcher.go:44-46 | after any fault-free run without silent operations, drained by one worker, the user's clients show the store's count |
| Journeys.ScreenMatchesStoreAnyRun | internal/service/dispatcher.go:44-46 | the same over every interleaving of producers with one worker |
| Journeys.TwoWorkersStale | internal/queue/queue.go:30-53 | with two workers a drained queue can leave the older of two numbers on screen |
| Journeys.ProducerSetsBadge | internal/handlers/lingocast.go:35-41 | a valid video_progress event with an unread_count among its fields sets the badge to that number, whatever the store counts |
| Journeys.TwiceListedFails | pkg/push/fcm.go:94-108 | a planned job, for a user listed twice with one device, whose answers do not add up to its tokens |
| Races.StepHonest | internal/service/notification.go:208-219 | whatever overlaps, each message held or sent carries the count its user had when it was counted |
| Races.LastNumberExact | internal/service/notification.go:80-109 | over any overlapping of requests the store's count is the last number enqueued plus the ledger of the writes made since it was counted |
| Races.StaleExactly | internal/service/notification.go:80-109 | with nothing new stored since its count, the last number is stale, and then too high, if and only if a request took an unread row of the user |
| Races.OvertakenStale | internal/api/notification_handler.go:138-152 | a row read between an event's count and its enqueue leaves the badge at one with nothing unread |
| Retries.AttemptSends | internal/service/notification.go:85-109 | one attempt at a personal event sends the first so many in-app messages, then the first so many push jobs |
| Retries.RetryRepeats | cmd/ingest/main.go:163-193 | a failed attempt and a retry that works leave the sent prefix and then everything, the push jobs being the very same |
| Retries.RepeatsLookNew | internal/service/notification.go:183-204 | a recipient reached twice gets two messages that name two different rows, both in the store |
| Retries.RetriesStore | internal/service/notification.go:183-204 | any number of attempts adds each attempt's rows to each user's list and unread count |

## Left out

- HTTP routing, JSON encoding, CORS, configuration, logging, health probes and metrics text: no property beyond input and output. A message that does not decode is `Malformed`.
- JWT signatures and the key cache: a verified token is an argument (`TokenParser`, `SubjectParser`).
- The Kafka consumer, when it retries and its dead letters: that library is not part of this model; `Retries` says what each further attempt does.
- The MongoDB notification store with its newest-first order and 100-row cap; only subscriber and preference collections are modelled, as tables.
- Firebase, Redis and Centrifugo internals: one answer per call, an atomic list, a publish that is accepted or not. A failed push onto a list is taken to leave the list alone.
- Parsing of times of day and time zones: `Clock` gives the parsed and local minutes.
- Link and title wording in the two techinsight handlers: they reach the same `Process`.
- MemoryStore.NotificationStore.Create: requires that the caller's object is not one of the stored ones, as every caller in the service builds a new object; that nobody writes a shared `Extra` map later is the caller's business, as in Go.
- RateLimiting.RateLimiter.Allow: requires a positive interval; the code divides by it.
- Services.NotificationService.Process: requires new row IDs, as UUIDs are; parameters are values, so that the caller's struct is filled in is stated through the result `filled`.
- Badges.BadgeLaw: is about serial runs (`Races` has the overlapping ones) in which no store, count or enqueue call fails (preference lookups may), on a service with read sync configured; without it no read is told to anyone.
- MemoryStore.NotificationStore.Delete: a user's list is a sequence the field is assigned anew, so the shift inside Go's backing array is not modelled; no other slice of that array outlives a call.
- Races.LastNumberExact: is about numbers counted from the store; a live update's own number (`EchoExact`) is not one.
- Lingocasts.Lingocast: the producer's own `data` map is a value; the handler copies it before anything else sees it.
- PushDelivery.TokenPartition: takes Firebase's answers to line up one to one with the tokens and its success count to count the accepted ones.
- DispatchWorkers.MessagesConserved: a worker process killed while it handles a message is not modelled; the message would stay held.
- `extra.ignore` is not read by the code and so is not modelled.
