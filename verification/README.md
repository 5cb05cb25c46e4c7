# A verified model of the gateway's stateful cores

The gateway relays requests to language-model providers, bills them, and sells quota.  Most of it is plumbing; this
project models the parts whose correctness depends on many steps agreeing with each other, and proves what they are for.

| file | what it models |
|---|---|
| `Basics.dfy` | types that several modules share |
| `OrderLock.dfy` | the reference-counted mutex per order, one shared access per step, any number of goroutines |
| `PaymentOrders.dfy` | top-up and subscription orders, the database transactions and the payment callbacks, access by access |
| `PaymentOutcomes.dfy` | what each callback, run to its end, leaves of its order and of the ledger |
| `PaymentSystem.dfy` | the callbacks inside the lock, interleaved with each other and with the writers that take no lock |
| `TopupAmount.dfy` | top-ups requested in tokens, with the rounding of the decimal division |
| `RateLimiter.dfy` | the sliding-window limiter and its sweep, against an unbounded log |
| `Text.dfy`, `ModelNames.dfy`, `UpstreamUpdate.dfy` | the stored model list and its reconciliation with the upstream's list |
| `PriceDiff.dfy`, `ModelsDev.dfy` | the price difference report and the selection of the cheapest offer |
| `BodyStorage.dfy`, `RequestContext.dfy`, `CacheCounters.dfy` | request bodies in memory or on disk, retries that read them again, the usage counters |
| `MultiKey.dfy`, `MultiKeyRequests.dfy`, `KeyStatus.dfy` | channels with many keys: the management actions, requests that interleave, and the paged listing |
| `Midjourney.dfy`, `MidjourneySuccess.dfy` | the pollers that update tasks by compare-and-set and refund failed ones; what becomes of a task that succeeded |
| `Billing.dfy`, `Relay.dfy` | the billing session and the retry loops of Relay and RelayTask |
| `Ogg.dfy` | the duration of an Opus file from its Ogg pages (section 6 of RFC 3533, section 4 of RFC 7845) |
| `RedisHash.dfy` | structs stored as Redis hashes |

Objects the program updates in place are classes, its loops are methods proved against specification functions, and its
concurrent parts are transition systems whose invariants hold in every interleaving.  `dafny verify dfyconfig.toml`
checks the whole project.

## Where the code does less than one would expect

Each of these is stated with the exact condition under which the code does meet the expectation, and with an input or a
run that shows it can fail.

- An order that has reached Success can become Failed again: the Waffo and Waffo Pancake payment requests for top-ups, and the
  Pancake one for subscriptions, when the provider's answer is an error, save the row they inserted without taking the order
  lock or looking at it again (`PaymentSystem.FinalStatusChanges`, `PaymentSystem.FinalSubChanges`; runs:
  `PaymentSystem.CreditedOrderMarkedFailed`, `PaymentSystem.GrantedOrderMarkedFailed`).
- EpayNotify marks an order Success and credits the user in two accesses; if the second is refused, the credit is lost
  (`PaymentSystem.EpayCreditedExactlyWhen`; run: `PaymentSystem.EpayOrderLeftUncredited`).  Completing an order by
  hand does what its callback would do only for a positive quota, the Waffos apart, and for a Creem order only if the unit
  leaves the amount as it is (`PaymentOrders.ManualMatchesCallback`, `PaymentOrders.ManualCreemExample`).
- The limiter agrees with the log exactly when the maximum is at least 1 and, if it sweeps, the window is at most one second
  longer than the expiration (`RateLimiter.FaithfulExactlyWhen`, `RateLimiter.ZeroMaxUnfaithful`,
  `RateLimiter.ShortExpirationUnfaithful`).
- Reconciliation does not settle for upstream names with a comma, nor when an added name is the ignore-list entry that
  held another name back (`UpstreamUpdate.FixpointExactlyWhen`, `UpstreamUpdate.CommaExample`,
  `UpstreamUpdate.IgnoreListExample`).
- Price differences whose upstream value is null or the text "same" can be dropped (`PriceDiff.ReportedExactlyWhen`,
  `PriceDiff.InvisibleExample`).
- An empty read at the end tells a memory storage from a disk storage (`BodyStorage.Indistinguishable`,
  `BodyStorage.EmptyReadTellsApart`).
- Deleting keys is exact only if the remaining keys survive being joined and parsed again; deleting the auto-disabled keys
  of a channel that has no others deletes none and enables them all (`MultiKey.ActionRefines`,
  `MultiKey.DeleteAllDisabledEnablesThem`, `MultiKey.EmptyLineIsLost`).
- A management request loads the channel before it takes the channel's lock, so its save undoes the saves since its load:
  a change is lost exactly when a save that stays had loaded the channel before it (`MultiKeyRequests.UndoneExactlyWhen`,
  `MultiKeyRequests.NothingLostExactlyWhen`; a run in which a deleted key comes back:
  `MultiKeyRequests.DeletedKeyComesBack`).
- Refunds of tasks are right, over all runs, whether the clock may go back or not, exactly for upstreams whose fail reasons and statuses agree and that name a
  task again in the same pass only to repeat the failure the poller has written (`Midjourney.RefundsExactlyWhen`; runs:
  `Midjourney.RefundedUnfailed`, `Midjourney.RefundedTwice`, `Midjourney.RepeatGoesWrong`).  In particular, once a
  task has timed out, an unfinished reply that comes twice can refund it and then overwrite its failure, and a failure with
  its own reason that comes twice can refund it twice (`Midjourney.RepeatExamples`).
- A task that has finished without a failure stays finished, is loaded by no later pass and refunded by none, over all runs
  with replies that can be trusted, exactly when the status of a final reply is one that the task cannot have before it and no
  reply of the same pass follows it (`MidjourneySuccess.SuccessesStayExactlyWhen`).  The update compares the status only, so a
  poller that still holds the same status writes over the finished row (`MidjourneySuccess.OneInTimeOneLate`), and so does a
  failure that follows in the same response (`MidjourneySuccess.FollowedByFailure`).
- The comment above the channel selection (service/channel_select.go:49-83) counts retries across groups; the code sets the
  counter back in every automatic group, so RetryTimes + 1 is not the bound there, and a request that has used up all
  groups fails for want of a channel instead of with its last error (`Relay.TaskRetryTimesBound`,
  `Relay.RelayRetryTimesBound`; witnesses: `Relay.TaskBoundReached`, `Relay.RelayBoundReached`).
- A billing session that is settled with another amount after it was refunded charges the wrong amount
  (`Billing.CostsExactlyWhen`, `Billing.SettledAfterRefundExample`).  That is a property of the session alone: its callers
  refund last, and `Relay.Relay` and `Relay.RelayTask` show that a request is charged right.
- A pointer to the empty text and a valid DeletedAt do not survive a Redis hash (`RedisHash.ReturnedExactlyWhen`,
  `RedisHash.LossyExamples`).
- A top-up in tokens that reaches the minimum can be credited more than was asked for if QuotaPerUnit is 2·10^16 or more
  (`TopupAmount.AlwaysCreditedRight`, `TopupAmount.RoundedUpExample`).

## Model

| member | source | states |
|---|---|---|
| `OrderLock.EnterKept` | controller/topup.go:279-280 | a new caller of LockOrder keeps the lock invariant |
| `OrderLock.AdvanceKept` | controller/topup.go:279-308 | every shared access of LockOrder and UnlockOrder, by any goroutine, keeps the invariant: refCount counts the goroutines between increment and decrement, the map holds each goroutine's mutex, holders are in the critical section |
| `OrderLock.OthersStay` | controller/topup.go:279-308 | a step of one goroutine moves no other goroutine |
| `OrderLock.MutualExclusion` | controller/topup.go:279-308 | two goroutines are never in the critical section of one order |
| `OrderLock.MapIsExact` | controller/topup.go:268-308 | the map holds an order's mutex exactly while it is referenced, up to the goroutine that is storing or deleting it |
| `OrderLock.QuiescentMapIsEmpty` | controller/topup.go:298-307 | when every goroutine has returned the map is empty |
| `OrderLock.NoDeadlock` | controller/topup.go:279-308 | while any goroutine is inside, some goroutine can take a step |
| `OrderLock.AdvanceProgresses` | controller/topup.go:279-308 | every shared access brings its goroutine one further: five for LockOrder, six for UnlockOrder, and then it is gone |
| `PaymentOrders.HandlerStepGood` | controller/topup_stripe.go:222-327 | one access of any callback touches its order only, keeps it consistent, never moves it out of a final status, and credits or grants nothing but the right thing to the right user; that it does credit is in `PaymentOutcomes` |
| `PaymentOrders.EpayStepGood` | controller/topup.go:373-408 | the same for the three accesses of EpayNotify |
| `PaymentOrders.RechargeGood` | model/topup.go:109-160 | the same for the one-transaction recharges |
| `PaymentOrders.CompleteGood` | model/topup.go:320-391 | the same for completing a pending top-up, by callback or by hand |
| `PaymentOrders.CompleteSubGood` | model/subscription.go:569-677 | the same for completing a subscription order |
| `PaymentOrders.ManualMatchesCallback` | model/topup.go:320-465 | completing a pending order by hand leaves the ledger and the status that its callback would, exactly when the provider is Waffo or Pancake, or the quota is positive and, for Creem, the unit is at least 1 and exceeds it by less than one over the amount |
| `PaymentOrders.ManualCreemExample` | model/topup.go:320-465 | at the default unit a Creem order for a quota of 1 is credited 500000 by hand |
| `PaymentOrders.EpayCreditLost` | controller/topup.go:391-404 | an order saved as Success is left without a credit exactly when the crediting access fails or is refused |
| `PaymentOrders.EpayUncreditedStep` | controller/topup.go:373-408 | only saving the row leaves an Epay order Success and uncredited, and only the access after that can credit it |
| `PaymentOrders.UnlockedEpayCreditsTwice` | controller/topup.go:373-408 | without the lock two Epay callbacks can credit an order twice |
| `PaymentOrders.UpdatePendingGood` | model/topup.go:82-107 | the pending-only update keeps the order consistent and moves no final status |
| `PaymentOutcomes.StripePays` | controller/topup_stripe.go:259-290 | a Stripe payment leaves a waiting order Success and credits the integer part of its money times QuotaPerUnit; for anything else nothing changes |
| `PaymentOutcomes.CreemPays` | controller/topup_creem.go:286-359 | a one-time Creem payment leaves a waiting order Success and credits its amount; a recurring one without a subscription order does nothing |
| `PaymentOutcomes.WaffoPays` | model/topup.go:467-589 | the two Waffo payments leave a waiting order Success and credit the integer part of its amount times QuotaPerUnit, if that is positive |
| `PaymentOutcomes.EpayPays` | controller/topup.go:373-408 | an Epay payment leaves a waiting order Success, paid in the notified way, and credits the integer part of its amount times QuotaPerUnit unless that is negative |
| `PaymentOutcomes.AdministratorPays` | model/topup.go:320-391 | completing by hand leaves any pending order Success and credits its money (Stripe) or its amount in units, if that is positive |
| `PaymentOutcomes.StripeFails` | controller/topup_stripe.go:222-257 | a failed payment leaves a waiting Stripe order Failed |
| `PaymentOutcomes.StripeExpires` | controller/topup_stripe.go:292-327 | an expired session leaves the waiting subscription order, or else the waiting top-up, Expired |
| `PaymentOutcomes.SubscriptionPays` | model/subscription.go:569-677 | a paid subscription order that waits ends Success and granted, with a top-up row of its money, unless a row of its number was paid otherwise |
| `PaymentOutcomes.FailedAccess` | model/topup.go:109-160 | an access that fails changes nothing |
| `PaymentOutcomes.CreditsExactlyWhen` | controller/topup_stripe.go:222-327 | an access credits exactly when it is the paying one of its callback, the quota is accepted and the database works; the credit is what the order is worth, for its owner |
| `PaymentSystem.AccessKept` | controller/topup_creem.go:286-359 | a database access inside the critical section keeps the invariant of the whole system |
| `PaymentSystem.RequestFailedKept` | controller/topup_waffo.go:226-297 | so does a failed Waffo payment request, which takes no lock |
| `PaymentSystem.SubRequestFailedKept` | controller/subscription_payment_waffo_pancake.go:109-116 | so does a failed request for a subscription, which saves its old copy (Pancake) or expires a pending order (Epay) without a lock |
| `PaymentSystem.WaffoNoticeKept` | controller/topup_waffo.go:391-419 | so does an unlocked failure notice |
| `PaymentSystem.StepKept` | controller/topup.go:279-408 | every step of every goroutine, locked or not, keeps the invariant |
| `PaymentSystem.CreditedAtMostOnce` | controller/topup.go:373-408 | in every interleaving, with the writers that take no lock, each top-up is credited and each subscription granted at most once, to its owner, for its quota |
| `PaymentSystem.CreditMeansSuccess` | controller/topup_stripe.go:259-290 | over every run a credited order is Success exactly when no failed payment request has overwritten it; a Success order of a provider other than Epay was credited |
| `PaymentSystem.GrantMeansSuccess` | model/subscription.go:569-641 | over every run a granted subscription order is Success exactly when no failed request has overwritten it; a Success order was granted |
| `PaymentSystem.EpayCreditedExactlyWhen` | controller/topup.go:373-408 | over every run a Success Epay order that no callback is about to credit was credited exactly when no crediting access was refused |
| `PaymentSystem.HistoryExactlyWhen` | controller/topup_waffo.go:237-296 | the recorded overwritings and refusals are exactly the steps of the run that did them |
| `PaymentSystem.FinalStatusChanges` | controller/topup_waffo.go:237-296 | a final status changes in a step exactly when the step is a failing payment request that saves its old copy |
| `PaymentSystem.FinalSubChanges` | controller/subscription_payment_waffo_pancake.go:109-116 | the final status of a subscription order changes in a step exactly when the step is a failing Pancake request that saves its old copy |
| `PaymentSystem.FinalStatusKept` | model/topup.go:82-107 | over a run an order that has left Pending keeps its status unless overwritten that way |
| `PaymentSystem.FinalSubKept` | controller/subscription_payment_epay.go:110-111 | the same over a run for subscription orders |
| `PaymentSystem.CreditedOrderMarkedFailed` | controller/topup_waffo.go:226-297 | a run in which a credited order ends as Failed |
| `PaymentSystem.GrantedOrderMarkedFailed` | controller/subscription_payment_waffo_pancake.go:109-116 | a run in which a granted subscription order ends as Failed |
| `PaymentSystem.EpayOrderLeftUncredited` | controller/topup.go:391-404 | a run in which an Epay order ends as Success without a credit |
| `PaymentSystem.LockGuarantees` | controller/topup.go:279-308 | in every reachable state of the system the lock excludes, finds its mutexes, never unlocks an unlocked one, leaves an empty map behind and never gets stuck |
| `PaymentSystem.RequestEndsOnce` | controller/topup_waffo.go:226-297 | over every run a payment request ends once: after that it is not waiting any more and overwrites nothing |
| `TopupAmount.StoredExactlyWhen` | controller/topup.go:242-247 | the order stores the whole quotient exactly when the remainder is not within rounding distance of QuotaPerUnit |
| `TopupAmount.CreditedExactlyWhen` | controller/topup.go:179-199 | the credit is at most the request and less than a unit short of it under the same condition, and never below MinTopUp times QuotaPerUnit |
| `TopupAmount.AlwaysCreditedRight` | controller/topup.go:179-260 | for every minimum, all requests that reach it are credited at most what was asked and less than one unit short of it, exactly when QuotaPerUnit < 2·10^16 |
| `TopupAmount.RoundedUp` | controller/topup.go:242-247 | for every other unit and every minimum, a request that is credited one token more |
| `TopupAmount.RoundedUpExample` | controller/topup.go:242-247 | such a unit and request at the default minimum of 1 |
| `RateLimiter.InMemoryRateLimiter.Request` | common/rate-limit.go:45-70 | lets a request through exactly when the key is new, has fewer than max entries, or its oldest one is old enough, and says what queue that leaves |
| `RateLimiter.InMemoryRateLimiter.ClearExpiredItems` | common/rate-limit.go:28-42 | one pass removes exactly the keys whose newest request has expired, whatever the order of the keys |
| `RateLimiter.AgreeingDecision` | common/rate-limit.go:45-70 | a queue that agrees with the log decides like the log |
| `RateLimiter.RunAgrees` | common/rate-limit.go:28-70 | after every run with sweeps at any moments the queue is the newest part of the log and what it lacks is too old to count |
| `RateLimiter.YoungerIs` | common/rate-limit.go:54-59 | the count of the promise is the number of log entries less than the duration old |
| `RateLimiter.LimiterMatchesLog` | common/rate-limit.go:28-70 | every decision of every run is the one the unbounded log calls for |
| `RateLimiter.NoWindowOverfull` | common/rate-limit.go:33-69 | no time window of the given length holds more accepted requests than the maximum |
| `RateLimiter.InWindowIs` | common/rate-limit.go:54-59 | the count of a window is the number of entries in it |
| `RateLimiter.FaithfulExactlyWhen` | common/rate-limit.go:14-70 | the agreement holds for all runs exactly when max >= 1 and, if expirationDuration starts a sweeper, duration <= expiration + 1 |
| `RateLimiter.ZeroMaxUnfaithful` | common/rate-limit.go:64-69 | a maximum of 0 still lets one request through |
| `RateLimiter.ShortExpirationUnfaithful` | common/rate-limit.go:33-38 | a sweep that forgets too early lets a request through |
| `ModelNames.NormalizeIsNormal` | controller/channel_upstream_update.go:100-105 | normalized lists are trimmed, without empty names and without repetitions |
| `ModelNames.NormalFixed` | controller/channel_upstream_update.go:100-105 | normalizing a normal list changes nothing |
| `ModelNames.NormalizeIs` | controller/channel_upstream_update.go:100-105 | normalization keeps the trimmed first occurrence of every name that is not empty, in order |
| `Text.TrimIs` | controller/channel_upstream_update.go:100-105 | trimming takes exactly the longest cut ends away |
| `ModelNames.MergeModelNames` | controller/channel_upstream_update.go:107-121 | the merge loop computes the normalization of the concatenation |
| `ModelNames.FilterMembers` | controller/channel_upstream_update.go:123-143 | subtraction and intersection keep exactly the wanted names and keep normal lists normal |
| `ModelNames.FilterIs` | controller/channel_upstream_update.go:123-143 | a filter keeps the wanted names in their order |
| `ModelNames.SelectedMembers` | controller/channel_upstream_update.go:123-150 | what subtracting, intersecting and applying a selection leave; a name both added and removed is added |
| `UpstreamUpdate.CollectPending` | controller/channel_upstream_update.go:179-238 | the loops compute the two pending lists, which `UpstreamUpdate.PendingAddsAre` and the two after it describe from the raw lists |
| `UpstreamUpdate.PendingAddsAre` | controller/channel_upstream_update.go:179-238 | a name is a pending add if and only if the upstream lists it, it is not local, no redirect leads to it, and no ignore entry names it or matches it as a pattern |
| `UpstreamUpdate.PendingRemovesAre` | controller/channel_upstream_update.go:179-238 | a name is a pending remove if and only if it is local, not the source of a redirect, and not listed upstream |
| `UpstreamUpdate.PendingInOrder` | controller/channel_upstream_update.go:179-238 | both keep the order of the list they come from |
| `UpstreamUpdate.DetectedIs` | controller/channel_upstream_update.go:474-521 | what a check stores: the pending changes, or with auto-sync the added names behind the local ones |
| `UpstreamUpdate.AppliedIgnoreList` | controller/channel_upstream_update.go:919-967 | the ignore list after a selection: the old entries and the names just ignored, without those added |
| `UpstreamUpdate.ChannelRecord.CheckAndPersist` | controller/channel_upstream_update.go:474-521 | the new channel record after a check, with and without auto-sync, and the number of models it added |
| `UpstreamUpdate.ChannelRecord.ApplyUpdates` | controller/channel_upstream_update.go:919-967 | the new channel record after applying a selection |
| `UpstreamUpdate.StoredModels` | model/channel.go:289-294 | a normal list of comma-free names comes back from the stored text |
| `UpstreamUpdate.RoundModels` | controller/channel_upstream_update.go:145-150 | the models after a round: the old ones without the removed, then the added |
| `UpstreamUpdate.RoundIsExact` | controller/channel_upstream_update.go:179-238 | detecting again finds exactly what was left pending, for every selection whose added names have no comma, if and only if the entries that are not being added hold back what was held back or ignored |
| `UpstreamUpdate.FixpointExactlyWhen` | controller/channel_upstream_update.go:919-1068 | applying everything leaves nothing pending exactly when no added name has a comma and the ignore list survives |
| `UpstreamUpdate.FixpointForPlainNames` | controller/channel_upstream_update.go:179-238 | in particular for names without comma and without the prefix "regex:" |
| `UpstreamUpdate.CommaNeverSettles` | model/channel.go:289-294 | a pending name with a comma is pending again after the round |
| `UpstreamUpdate.CommaExample` | controller/channel_upstream_update.go:179-238 | there is such a name |
| `UpstreamUpdate.DroppedIsPending` | controller/channel_upstream_update.go:919-967 | a name that only entries being added hold back is pending after the round |
| `UpstreamUpdate.EntryDropped` | controller/channel_upstream_update.go:919-967 | adding a model whose name is an ignore-list entry for another name, but not for itself, lets the other name go |
| `UpstreamUpdate.IgnoreListExample` | controller/channel_upstream_update.go:179-238 | with the entry "regex:^y$" and an upstream that also lists a model of that name, the model "y" is pending after everything was applied |
| `UpstreamUpdate.AutoSyncSettles` | controller/channel_upstream_update.go:474-521 | auto-sync leaves no pending adds exactly when no added name has a comma |
| `UpstreamUpdate.SelectionPartitions` | controller/channel_upstream_update.go:919-967 | every pending add ends added, ignored or still pending |
| `PriceDiff.BuildDifferences` | controller/ratio_sync.go:536-696 | the four passes over maps compute the declarative report |
| `PriceDiff.DiffersIs` | controller/ratio_sync.go:48-132 | published numbers differ when they are a billionth or more apart, anything else unless it is the same |
| `PriceDiff.DiffersOneSided` | controller/ratio_sync.go:593-654 | what is not published differs from nothing; what has no local value differs unless it is null |
| `PriceDiff.ShownIs` | controller/ratio_sync.go:593-654 | how a channel is shown: its value, "same" or null |
| `PriceDiff.TrustedIs` | controller/ratio_sync.go:558-590 | a price is not to be trusted exactly when the ratio is 37.5 and the completion ratio 1, to a billionth |
| `PriceDiff.ReportSound` | controller/ratio_sync.go:593-654 | whatever is reported differs in some channel |
| `PriceDiff.ReportedExactlyWhen` | controller/ratio_sync.go:593-696 | a place is reported exactly when some channel differs there and some listed channel is not shown as "same" there |
| `PriceDiff.ReportContents` | controller/ratio_sync.go:593-696 | a reported item holds the local value and exactly the channels with a showable difference anywhere, with their values and trust |
| `PriceDiff.ReportIsExact` | controller/ratio_sync.go:536-696 | for values that are neither null nor "same" the report is exactly the differences and lists exactly the channels that differ |
| `PriceDiff.WithDiffMembers` | controller/ratio_sync.go:656-665 | the channels kept by the last pass are those with a showable difference |
| `PriceDiff.InvisibleIsDropped` | controller/ratio_sync.go:656-693 | without showable differences nothing is reported |
| `PriceDiff.InvisibleExample` | controller/ratio_sync.go:607-631 | such a difference exists |
| `ModelsDev.BuildCandidate` | controller/ratio_sync.go:845-879 | which costs make a candidate, and that it carries them unchanged but for a negative cache price |
| `ModelsDev.SortedKeys` | controller/ratio_sync.go:915-919 | the providers in ascending order, each once |
| `ModelsDev.SelectCandidates` | controller/ratio_sync.go:906-947 | the selection loops pick for every model the fold over its offers in provider order, and fail exactly when there is none |
| `ModelsDev.PickIsCheapest` | controller/ratio_sync.go:881-893 | the fold picks a non-zero price whenever there is one, and none undercuts it by epsilon or more |
| `ModelsDev.SelectionIsCheapest` | controller/ratio_sync.go:845-944 | the same for every model of every catalogue |
| `ModelsDev.SelectedModels` | controller/ratio_sync.go:845-944 | exactly the models with a usable price are selected, each at the price of a provider that sells it |
| `ModelsDev.SelectedPrice` | controller/ratio_sync.go:881-944 | a model that some provider charges for is not selected for free, and no provider charges a billionth less or cheaper |
| `ModelsDev.FreeFromTheFirst` | controller/ratio_sync.go:881-944 | a model that is free everywhere comes from the first provider in order |
| `ModelsDev.LessIs` | controller/ratio_sync.go:881-919 | the order of the providers is that of their first different character |
| `ModelsDev.UnsortedErrorAccumulates` | controller/ratio_sync.go:881-893 | in another visiting order the error grows without bound |
| `BodyStorage.MemoryStorage.Read` | common/body_storage.go:47-54 | behaves as the abstract storage |
| `BodyStorage.MemoryStorage.Seek` | common/body_storage.go:56-63 | behaves as the abstract storage |
| `BodyStorage.MemoryStorage.Close` | common/body_storage.go:65-72 | closes, and counts itself out once however often it is called |
| `BodyStorage.DiskStorage.Read` | common/body_storage.go:169-176 | behaves as the abstract storage but for an empty read at the end |
| `BodyStorage.DiskStorage.Seek` | common/body_storage.go:178-185 | behaves as the abstract storage |
| `BodyStorage.DiskStorage.Bytes` | common/body_storage.go:198-230 | returns the whole content and leaves the position where it was |
| `BodyStorage.DiskStorage.Close` | common/body_storage.go:187-196 | closes, removes the file, and counts itself out once however often it is called |
| `BodyStorage.Stats.DecrementDiskFiles` | common/disk_cache_config.go:115-122 | the counters fall by the storage and stop at zero |
| `BodyStorage.PerformAll` | common/body_storage.go:47-230 | any sequence of calls gives the answers of the abstract storage |
| `BodyStorage.SeekThenRead` | common/body_storage.go:47-63 | a read answers with the bytes at the position the seek before it asked for |
| `BodyStorage.ReadsDeliver` | common/body_storage.go:47-176 | however the reads are cut, they deliver the body from the position on, in order, until it ends |
| `BodyStorage.DroppedAfterAdded` | common/disk_cache_config.go:109-134 | counting a storage out undoes counting it in |
| `BodyStorage.Indistinguishable` | common/body_storage.go:47-230 | for every sequence of calls the two storages go through the same states, and answer alike exactly when no call is an empty read at the end |
| `BodyStorage.EmptyReadTellsApart` | common/body_storage.go:47-54 | an empty read of an empty body is answered differently |
| `RequestContext.CreateBodyStorage` | common/body_storage.go:241-259 | on disk exactly when enabled, large enough, available and the file works; at the start of the data; counted |
| `RequestContext.CreateFromReader` | common/body_storage.go:262-303 | when a body is refused as too large, when it fails, and otherwise whether it is kept on disk or in memory; refused and unreadable bodies leave the counters alone |
| `RequestContext.Context.GetBodyStorage` | common/gin.go:36-96 | whatever was read before, the storage comes back at offset 0 of the whole original body; exactly when there is one, and of which kind |
| `RequestContext.Context.UnmarshalBodyReusable` | common/gin.go:108-155 | decodes from the original body and leaves it readable from its start |
| `RequestContext.Context.CleanupBodyStorage` | common/gin.go:99-106 | closes the storage and counts it out, unless it was closed or missing |
| `RequestContext.RunAttempts` | controller/relay.go:191-211 | whether the body was stored and read before the loop or not, once there is a stored body every attempt has it and reads what it would have read alone; the counters grow only if the loop stored it |
| `CacheCounters.DiskExactKept` | common/disk_cache_config.go:109-122 | every step of creating and closing keeps the disk counters equal to the sums over the storages, the clamp untouched |
| `CacheCounters.MemoryExactKept` | common/disk_cache_config.go:125-134 | the same for the memory counters |
| `CacheCounters.OpensOnDisk` | common/body_storage.go:100-130 | a storage that passes the check and is written adds one file and its bytes |
| `CacheCounters.OpensInMemory` | common/body_storage.go:37-45 | a storage in memory adds one buffer and its bytes |
| `CacheCounters.ChecksAndFails` | common/body_storage.go:100-167 | a storage that fails after the check leaves the counters alone |
| `CacheCounters.Closes` | common/body_storage.go:65-196 | closing takes away what opening added |
| `CacheCounters.CountersExact` | common/body_storage.go:37-196 | in every interleaving the counters are exact at every moment and the clamp is never taken |
| `CacheCounters.CountersConserved` | common/body_storage.go:37-196 | at quiescent points they are the number and total size of the open storages |
| `CacheCounters.DiskUsageBounded` | common/disk_cache_config.go:170-177 | usage and bytes in flight never exceed the limit by more than one body for every concurrent creator but one; a single creator never exceeds it |
| `CacheCounters.BoundAttained` | common/body_storage.go:246-255 | the bound is reached |
| `MultiKey.StoredKeys` | model/channel.go:175-197 | joining, storing and parsing a list of keys returns it exactly when its ends are not empty, no key has a line break and the text is no JSON array |
| `MultiKey.ShortenedIsExact` | model/channel.go:532-579 | writing a shortened list of records stores exactly it if and only if its keys survive |
| `MultiKey.Channel.Update` | model/channel.go:532-579 | an empty key keeps the stored one, the size is recounted, the status map is cut |
| `MultiKey.Channel.Manage` | controller/channel.go:1649-1952 | the six changing actions, with the loops that rebuild the maps under a running index, do to the row what the specification says |
| `MultiKey.ActionRefines` | controller/channel.go:1649-1952 | every action does to the list of records what it is meant to do exactly when it is safe, and then keeps indices below the size and the size equal to the number of keys; what it is meant to do is in the four rows from `MultiKey.SwitchingIs` on |
| `MultiKey.SwitchingIs` | controller/channel.go:1649-1733 | disabling or enabling a key in range changes that key alone; an enabled key forgets time and reason |
| `MultiKey.SwitchingAllIs` | controller/channel.go:1734-1804 | the same for all keys; disabling leaves the disabled ones as they are and is refused if none is enabled |
| `MultiKey.DeletingIs` | controller/channel.go:1805-1882 | deleting a key keeps every other one, in order and as it was; the last key cannot be deleted |
| `MultiKey.PurgingIs` | controller/channel.go:1885-1952 | deleting the disabled keys removes exactly the automatically disabled ones; the others stay in order, manually disabled ones with status, time and reason |
| `MultiKey.KeysAre` | model/channel.go:175-197 | the keys of a text are the elements of the array or the lines, and the size counts them unless the array is empty |
| `MultiKey.DenseIs` | model/channel.go:56-66 | what is known of the key at a position |
| `MultiKey.RunRefines` | controller/channel.go:1649-1952 | over any sequence of safe actions the sparse maps stand for the list of records |
| `MultiKey.SkipKey` | controller/channel.go:1823-1855 | the loop of delete_key rebuilds keys and maps of all records but one |
| `MultiKey.SkipAutoDisabled` | controller/channel.go:1886-1923 | the loop of delete_disabled_keys rebuilds the text and the maps of the records that `MultiKey.KeptIs` describes |
| `MultiKey.KeptIs` | controller/channel.go:1886-1923 | the records whose status is not 3, in order, each with key and status, time and reason if disabled and neither if enabled |
| `MultiKey.DeletionKeepsBounds` | controller/channel.go:1865-1872 | a deletion leaves the indices in bounds exactly when the written text is no empty array and no time or reason is kept past its lines |
| `MultiKey.DeleteAllDisabledEnablesThem` | controller/channel.go:1885-1944 | deleting the keys of an all auto-disabled channel enables them instead |
| `MultiKey.EmptyLineIsLost` | controller/channel.go:1805-1882 | deleting a key next to an empty line loses that line too and leaves a time past the end |
| `MultiKeyRequests.SaveUndoesExactlyWhen` | model/channel.go:532-579 | a save makes the row what its action makes of the row it had loaded, whatever is stored by now, exactly when it writes a key text or the text is unchanged |
| `MultiKeyRequests.RowIsItsSurvivors` | controller/channel.go:1489-1960 | in every interleaving of requests with safe deletions the stored row is valid and is what the surviving saves, one after the other, make of the first row |
| `MultiKeyRequests.UndoneExactlyWhen` | controller/channel.go:1492-1530 | a save is undone exactly when a surviving later save had loaded the channel before it |
| `MultiKeyRequests.NothingLostExactlyWhen` | controller/channel.go:1492-1530 | the surviving saves are all saves, in order, exactly when no save had loaded the channel before an earlier one was made |
| `MultiKeyRequests.DeletedKeyComesBack` | controller/channel.go:1492-1530 | a run in which a deleted key is there again |
| `KeyStatus.GetKeyStatus` | controller/channel.go:1535-1646 | the page, the totals and the statistics of the filtered listing, with key previews cut by bytes |
| `KeyStatus.FilteredCount` | controller/channel.go:1550-1608 | the filtered list is as long as the statistics say |
| `KeyStatus.FilteredIs` | controller/channel.go:1598-1608 | the filtered list is the items with the status, in order |
| `KeyStatus.ShownIs` | controller/channel.go:1550-1592 | what is shown of a key: its status, time and reason unless enabled, and its first ten bytes |
| `KeyStatus.PagesPartition` | controller/channel.go:1610-1631 | the pages together are the whole list in order, all full but the last |
| `Midjourney.SkippingIsHarmless` | controller/midjourney.go:241-294 | a skipped reply to an unfinished task fails nothing and would change only buttons and properties |
| `Midjourney.WrittenIs` | controller/midjourney.go:169-211 | a task keeps its ids, owner, channel and quota, takes everything else from the reply, and is finished exactly when the reply is final or gives a reason for a failure |
| `Midjourney.SkippedExactlyWhen` | controller/midjourney.go:241-294 | a reply is skipped exactly when it reports no failure of an unfinished task and would change nothing but buttons and properties |
| `Midjourney.ReplyOutcome` | controller/midjourney.go:153-219 | all that a reply does to the row, to the memory of the poller and to the refund in hand, in terms of the reply, the timeout of an hour and the held status |
| `Midjourney.BulkFailIs` | controller/midjourney.go:59-107 | a bulk update fails and finishes the given rows and touches nothing else |
| `Midjourney.Group` | controller/midjourney.go:47-58 | every unfinished task is failed as nameless or asked for in its channel |
| `Midjourney.HeldTasks` | controller/midjourney.go:47-58 | a pass holds a task for exactly the upstream ids of the loaded tasks |
| `Midjourney.LastHeld` | controller/midjourney.go:47-58 | of several tasks with one id it holds the last |
| `Midjourney.NullIdsAre` | controller/midjourney.go:47-58 | the nameless tasks in the order of the rows |
| `Midjourney.ChannelIdsAre` | controller/midjourney.go:47-58 | the ids asked for in a channel in the order of the rows |
| `Midjourney.Pass.HandleReply` | controller/midjourney.go:153-232 | one reply, with the refund that may follow, is one step of the specification, whose effect `Midjourney.ReplyOutcome` states in full |
| `Midjourney.Pass.HandleReplies` | controller/midjourney.go:153-233 | the loop over a response is the sequence of these steps |
| `Midjourney.PassIsARun` | controller/midjourney.go:153-233 | the loop over a response is a run of one poller, so what every run keeps, it keeps |
| `Midjourney.Database.UpdateWithStatus` | model/midjourney.go:178-184 | writes exactly when the row still has the status it was read with |
| `Midjourney.StepKept` | controller/midjourney.go:40-233 | every step of every poller with trustworthy replies keeps the invariant: failed rows are finished, a task held as failed is touched by no reply to come, no refund is paid or pending twice |
| `Midjourney.RefundsExactlyWhen` | controller/midjourney.go:153-233 | in all runs of any number of pollers, each handling whole responses, with any clock or with one that does not go back, each task is refunded at most once, only if failed and with quota, and balances grow by exactly the refunds, if and only if the replies of every pass are consistent and later replies for a task repeat the failure written before |
| `Midjourney.RefundedUnfailed` | controller/midjourney.go:204-219 | a run with a refund for a task that is not failed |
| `Midjourney.RefundedTwice` | controller/midjourney.go:160-219 | a run in which two pollers refund one task |
| `Midjourney.RepeatedReplyExactlyWhen` | controller/midjourney.go:153-232 | after a reply that refunds a task, another one in the same pass leaves it refunded once and failed exactly when it is final, FAILURE, and has the info and the fail reason that were written |
| `Midjourney.RepeatGoesWrong` | controller/midjourney.go:153-232 | a run, with a clock that does not go back, in which another later reply refunds the task twice or leaves it not failed |
| `Midjourney.RepeatExamples` | controller/midjourney.go:160-165 | a consistent reply that comes twice in a pass is not trustworthy unless it is final and carries the reason of the timeout |
| `MidjourneySuccess.SuccessIsStored` | controller/midjourney.go:153-219 | a final reply in time that wins its update finishes the row with its status, reason, info, buttons and properties, and refunds nothing |
| `MidjourneySuccess.LateSuccessFails` | controller/midjourney.go:160-219 | after an hour the same reply fails the task, and its quota is to be given back |
| `MidjourneySuccess.SuccessesStayExactlyWhen` | controller/midjourney.go:40-233 | with replies that can be trusted, in all runs of any number of pollers with any starting statuses that include the empty one, a task that finished without a failure stays as it is unless failed in bulk, is loaded by no later pass and refunded by none, if and only if a final status is never one the task had before and no reply of the same pass follows |
| `MidjourneySuccess.OneInTimeOneLate` | model/midjourney.go:178-184 | a run in which a poller that is late fails and refunds a task that another one has finished |
| `MidjourneySuccess.FollowedByFailure` | controller/midjourney.go:153-232 | a run in which a failure in the same response does so |
| `Billing.BillingSession.constructor` | service/billing_session.go:186-230 | what is taken in advance from the funding source and from the token |
| `Billing.BillingSession.Settle` | service/billing_session.go:41-79 | moves the charge to the real amount once; which parts move, and whether it reports success, under partial failures |
| `Billing.BillingSession.Refund` | service/billing_session.go:82-123 | gives back everything once, and nothing after a settlement; what exactly is given back when some of the updates fail |
| `Billing.BillingSession.Reserve` | service/billing_session.go:152-178 | takes more in advance or leaves everything as it was, and what stays taken if the rollback fails |
| `Billing.PerformCalls` | service/billing_session.go:41-178 | what any sequence of calls costs the user and the token |
| `Billing.CostsExactlyWhen` | service/billing_session.go:41-123 | a session costs what its first settlement or refund says exactly when no Refund that gave something back precedes a first Settle of another amount |
| `Billing.RefundThenSettle` | service/billing_session.go:41-123 | settled after a refund, a session costs what is settled less what was given back |
| `Billing.ReservedIs` | service/billing_session.go:152-178 | what is taken in advance is the largest of the first amount and the targets, and never more for a trusted user |
| `Billing.SettledAfterRefundExample` | service/billing_session.go:41-123 | such a session pays the user |
| `Billing.FirstDecides` | service/billing_session.go:41-123 | the first settlement or refund decides |
| `Relay.RetryDecision` | controller/relay.go:325-355 | as an if-and-only-if over the context and the error: a channel error is retried unless the affinity rule forbids it, any other one only with retries left, no channel asked for, not final, no success status, and as the settings say for its status; more retries left never turn a retry into none |
| `Relay.TaskRetryDecision` | controller/relay.go:616-656 | as an if-and-only-if: with retries left, no channel asked for and no affinity rule, 307 and 429 are retried, 400 and 408 are not, a server error unless its status is to be skipped, and any other one exactly when it is not local and no success; otherwise nothing is retried |
| `Relay.RelayTriedAgain` | controller/relay.go:191-237 | over every run, an attempt is followed by another only after an error the settings allow, and with a channel asked for only after an error of the channel |
| `Relay.TaskTriedAgain` | controller/relay.go:518-566 | the same for tasks: never after a bad request, a timeout or a success status, and after a local error only for overload, redirects and server errors |
| `Relay.TaskEnds` | controller/relay.go:518-606 | how a task ends, from what its attempts met: every attempt had a body and, but the first, a channel that could be set up; success exactly if the last attempt was accepted |
| `Relay.RelayEnds` | controller/relay.go:191-249 | the same for the requests of Relay |
| `Relay.LoopIs` | controller/relay.go:191-237 | the loop goes on exactly while there is a reason to, with the counters and groups that the selections leave, and stops for the reason it gives |
| `Relay.RetryParam.IncreaseRetry` | service/channel_select.go:34-43 | one more, or the same after a reset |
| `Relay.RetryParam.SearchGroups` | service/channel_select.go:84-155 | the search through the automatic groups and the counter it leaves |
| `Relay.RetryParam.GetChannel` | controller/relay.go:293-323 | the channel the request came with first, a locked one always, otherwise the selection; a channel that cannot be set up counts as none |
| `Relay.SelectAutoMoves` | service/channel_select.go:84-155 | every selection moves on in the groups or in the priorities of one group |
| `Relay.SelectAutoIs` | service/channel_select.go:84-155 | the first group from here on with a channel is taken, at priority 0 unless it is the current one; the next attempt stays there or, with the retries used up, starts afresh in the next group |
| `Relay.SelectIs` | controller/relay.go:293-323 | exactly when an attempt gets a channel |
| `Relay.AttemptsBounded` | controller/relay.go:191-237 | every request makes at least one attempt and at most Bound |
| `Relay.TaskBoundReached` | controller/relay.go:518-566 | a task that every channel answers with 429 tries RetryTimes + 1 times in every group and then fails for want of a channel |
| `Relay.RelayBoundReached` | controller/relay.go:191-237 | the same for a request that every channel fails |
| `Relay.TaskRetryTimesBound` | controller/relay.go:518-566 | RetryTimes + 1 bounds the attempts of every task exactly when the counter is never set back |
| `Relay.RelayRetryTimesBound` | controller/relay.go:191-237 | the same for every request of Relay |
| `Relay.PostConsumeQuota` | service/quota.go:411-446 | without a session the quota is charged to the user and, outside the playground, to the token |
| `Relay.FirstSettled` | controller/relay.go:191-237 | the amount that counts is that of the first attempt that settles |
| `Relay.EverySettlementCounts` | controller/relay.go:191-237 | without a session every settlement adds its amount |
| `Relay.RelayTask` | controller/relay.go:486-606 | ends as its attempts say, with exactly one of settlement and refund: user and token pay the accepted quota, or nothing |
| `Relay.Relay` | controller/relay.go:170-249 | refunds exactly when it ends with an error; with a session the request costs what was settled first, or nothing; a free request, which has none, what was settled |
| `Ogg.SignedRoundTrip` | common/audio.go:229-229 | every 64-bit position comes back from its little-endian bytes |
| `Ogg.LastByteCountsMost` | common/audio.go:229-229 | positions are little-endian |
| `Ogg.SignedIs` | common/audio.go:229-229 | a position is the number of 64 bits with a sign that has the same bits |
| `Ogg.OpusDuration` | common/audio.go:196-254 | the loop ends for every input and returns the scanned granule position over 48000 |
| `Ogg.EncodedPage` | common/audio.go:219-247 | every granule position, header and body make a page in the layout the scanner reads |
| `Ogg.PageIs` | common/audio.go:206-247 | the layout of a page byte by byte |
| `Ogg.ScansLargestGranule` | common/audio.go:206-254 | for pages with any junk before, between and after them the result is the largest of 0 and their granule positions |
| `Ogg.CutOffPageCounts` | common/audio.go:206-254 | a last page that is cut off anywhere behind its header still counts |
| `RedisHash.EncodeObject` | common/redis.go:113-144 | the hash holds exactly the text of every stored field |
| `RedisHash.DecodeObject` | common/redis.go:172-236 | fields are set from their texts up to the first one that does not parse, where a nil pointer is left pointing to a zero; an empty hash is an error |
| `RedisHash.IntRoundTrip` | common/redis.go:143-143 | every 64-bit integer comes back from its decimal text |
| `RedisHash.DecimalIs` | common/redis.go:143-143 | integers are stored in base ten without leading zeros |
| `RedisHash.ParseIntIs` | common/redis.go:196-231 | exactly the texts of digits with at most one sign are read, if the number has 64 bits |
| `RedisHash.ParseBoolIs` | common/redis.go:196-231 | the twelve texts that are read as a truth value |
| `RedisHash.StoredTexts` | common/redis.go:113-144 | what text is stored for every kind of field |
| `RedisHash.ReadFields` | common/redis.go:172-236 | what every kind of field becomes for a text, a missing one and an empty one |
| `RedisHash.DecodeUndoesEncode` | common/redis.go:113-236 | reading an encoded struct into a zero object never fails and returns every field but the lossy ones |
| `RedisHash.ReturnedExactlyWhen` | common/redis.go:109-236 | decoding the encoded fields gives all of them back unchanged exactly when none is a pointer to the empty text or a valid DeletedAt |
| `RedisHash.LossyExamples` | common/redis.go:118-146 | decoding what was encoded makes a pointer to the empty text nil and a valid DeletedAt invalid |
| `RedisHash.RoundTrip` | common/redis.go:107-239 | writing and reading back in place |

## Left out

- HTTP handlers, JSON binding, permissions, logging, audit records and translations are not part of this model.
- Signature checks of the payment webhooks and the payment providers themselves: a callback is any callback.
- A database transaction is one atomic step that may fail, except that EpayNotify's separate accesses are separate steps; isolation anomalies inside the database are not modelled.
- Trade numbers are numbers, unique in each table and different between the two tables, as their prefixes make them.
- One process: the order lock does not reach across processes, and neither do these theorems.
- The lock and the callbacks are modelled on values, one step per shared access, because their steps interleave; no class stands for the mutex.
- Floating-point prices and ratios are real numbers; NaN and JSON values that cannot be compared are not modelled.
- Quotas, sizes and page numbers are unbounded integers; overflow is not modelled except for the 64-bit range of Ogg positions and Redis integers.
- Regular expressions of the ignore list are an arbitrary matching function, and JSON decoding of key texts is an arbitrary function that drops at least the brackets and commas.
- Fetching the upstream's models and prices over the network, and the conversion of prices after the selection.
- ModelsDev.SelectCandidates: the models of one provider are visited in any order instead of sorted order; the result does not depend on it.
- Files are regular files whose reads are not cut short; a write that fails leaves no storage behind.
- CacheCounters.DiskUsageBounded: assumes that no more is written than was checked, and constant settings; the maintenance functions that set counters directly (clean-up, synchronisation, reset) are not part of the runs.
- RequestContext.CreateFromReader: the statistics of cache hits are not modelled.
- MultiKey.Channel.Manage: one request alone; MultiKeyRequests interleaves them.
- MultiKeyRequests.RowIsItsSurvivors: deletions are taken to be safe for the copy they are made from (MultiKey.ActionRefines says what the others do), and the writers outside the management handler, such as the one that disables a failing key, are not modelled.
- RateLimiter.FaithfulExactlyWhen: speaks of one setting for all keys; LimiterMatchesLog covers settings that differ between keys.
- Buying a subscription with the wallet balance: its order is created as Success in one transaction, and no callback touches it.
- The UTF-8 encoding of keys is an arbitrary function.
- Midjourney.RefundsExactlyWhen: counts successful refunds only; the notify handler that also writes tasks is not modelled, and the replies of a pass are fixed when it starts, which lets them be any replies.
- MidjourneySuccess.SuccessesStayExactlyWhen: for replies that can be trusted in the sense of Midjourney.RefundsExactlyWhen.
- Choosing a key for a request (random or polling) and the key cache.
- Relay.RelayTask, Relay.Relay: the database is taken to work; the partial failures are in the contracts of Settle and Refund. Violation fees, affinity rules and status-code tables are arbitrary functions.
- RedisHash.DecodeObject: only texts, integers, booleans, pointers to them and DeletedAt; other kinds are refused by the decoder.
- Ogg.OpusDuration: checksums and stream numbers are not looked at, as in the code; other audio formats are not modelled.
- TopupAmount.CreditedExactlyWhen: QuotaPerUnit is a whole number.
- The translation of requests and answers between providers.
