# A model of the ad market's escrow deals

The repository runs a market for channel ads. Two sides agree on a deal, the lessee deposits the price into an escrow
wallet on TON, a userbot posts the ad and checks hourly that it stays, and then the deposit is paid to the lessor, or
back to the lessee if the ad was deleted. This project models that protocol and the code that feeds it, and proves what
it is for: money moves at most once, to the right side, in the agreed amount, whatever crashes in between.

| files | what they model |
|---|---|
| `DoOnce`, `DoOnceRuns`, `Attempts` | the lock, recover, act, record, release pattern that the payout and the post share |
| `Deals`, `DealLife`, `DealInvariant`, `DealTheorems`, `DealPayouts` | one deal as a state machine over every repository call and external effect, with late sign requests, crashes and any number of workers |
| `DealSignings`, `DealTiming` | who changes and signs a draft, and when an ad may be posted |
| `DealSolo`, `DealRefunds`, `SmoothRuns`, `DealProgress`, `DealJourneys`, `DealStranded`, `DealTwice` | deals as deployed, when a deal is refunded, which deals can move on and get through, which cannot, and which are paid twice |
| `Market`, `MarketJourneys` | all deals, one clock, one blockchain, and a new deal that gets through among others |
| `Scripts`, `Tables`, `EscrowService`, `DealService`, `PostService`, `Deposits` | the repositories and services as classes over the tables, each proved to do exactly its steps of the state machine |
| `Float`, `Money`, `TwoPercent`, `Prices`, `Decimal`, `EventCodec`, `Signatures` | double-precision amounts, the price pipeline, the event encoding, the signed bytes |
| `Shards`, `Walk`, `Coverage`, `Climbs`, `LostShards`, `Observer` | shard histories with splits and merges, the walk back to the frontier, what runs of masters emit, what failed lookups change, and the observer class |
| `LiteClient` | pagination of a block's transactions and the search for an outgoing payment |

## Assumptions

Each is a value of `DoOnce.Fault` or a modelling choice; `DoOnceRuns.EveryFaultBreaks` shows what happens without it.

- Every repository call is one atomic step, and a call that returns without error has committed. The code drops the
  error of the commit (`internal/market/repository/deal_action_lock/repository.go:38`).
- `SplitClock`: the lock test and the lock take see one clock value.
- `UnreadLock`: the payout reads the last lock successfully whenever it has expired. The code goes on if the read fails
  (`internal/market/service/escrow/service.go:165-166`); the sender gives up instead.
- `LateEffect`: an effect is performed before the worker's own lock expires.
- `RecordError`: after a successful effect the worker records it or crashes.
- `WrongLookup`: the lookups on the chain and in the channel answer exactly. They read only the newest 20 entries;
  `LiteClient.LookupExactness` says when that is exact.
- `ChangedOrder`: what a worker performs and searches for is what the row calls for. For deals this is proved
  (`DealPayouts.PreparesGoal`), not assumed.
- `StaleRow`: a lock is taken only while the row still waits. With several payout workers the code does not ensure
  this: the deal is read at `internal/market/service/escrow/service.go:119`, before the lock.
- The program starts one payout worker (`cmd/market/main.go:129`) and one sender. For them `StaleRow` and `LateEffect`
  are not needed, and the other five are (`DoOnceRuns.SoloToleratedFaults`, `DealSolo.SoloPaidAndPosted`).
- A transfer or a send that returns an error did not happen.
- In the services any call may fail, unless the database is `reliable`. Those that do are noted in
  `Tables.Database.failed`, and the contracts put down to a failure only what has such a note (`Tables.Blamed`).
- A seed phrase is never generated twice (`Market.SeedReused`).
- The escrow creator, the passed-message worker, the sender of the post and its checker run as one instance each.
- The texts of different deals in one channel differ, and the channel of a listing does not change, so that each deal
  has an ad log of its own.

## Where the code differs from what it promises

- Two payout workers can pay twice (`StaleRow` above). One worker can, too, if it fails to read its last lock after a
  crash (`UnreadLock`), or if the deal's status cannot be written after a transfer (`RecordError`). The first two are
  shown on the deal itself (`DealTwice.TwoWorkersPayTwice`, `DealTwice.OneWorkerPaysTwice`).
- The end and the first check of a post are computed from two clock readings
  (`internal/userbot/service/userbot/deal_post_workers.go:109-110`); if the second is later, even by a microsecond, deals
  of more than one hour lose their last check (`DealTheorems.ChecksByDuration`).
- If the answer to sending an ad does not contain its id, zero is stored, every check misses the ad, and the deal is
  refunded although the ad is live (`DealStranded.LiveAdRefunded`, `DealRefunds.RefundedForAReason`).
- A deal keeps its deposit for ever if its listing has no channel or its text is empty (`DealProgress.PostedIffPostable`,
  `DealStranded.NoChannelKeepsDeposit`), and if its payout address does not parse, which nothing checks before the deal
  is signed (`DealProgress.PaidIffPayable`, `DealStranded.BadAddressKeepsDeposit`).
- The commission round trip is exact only up to a bound; at the default two percent the first price that does not come
  back is 140737488355375 nanoton (`TwoPercent.SmallerPricesAreRecovered`, `TwoPercent.FirstLost`). So it is with the
  display of prices in TON (`Prices.CoarsePriceChanges`).
- The signed bytes have no separators. Matching against the listing makes the terms unambiguous
  (`Signatures.SamePayload`, `Signatures.SamePayloadIff`), but not the payout addresses: any strings are accepted, only
  what both join to is signed, and changing them leaves signatures in place (`Signatures.SignedOtherAddresses`). If only
  one side's address changes, or if both keep their lengths, that cannot happen (`Signatures.OneAddressDetermines`,
  `Signatures.PayloadDetermines`).
- A top shard block whose lookup fails drops its shard from the frontier. Later walks repeat blocks exactly if they
  pass such a top (`LostShards.FailedWalksRepeat`), and if all walks of a master fail, the blocks up to the next one are
  not sent at all (`LostShards.AllWalksFailed`).

## Model

| member | source | states |
|---|---|---|
| DoOnce.StepInv | internal/market/service/escrow/service.go:164-213 | every fault-free step of any worker, in any interleaving and with crashes, keeps the protocol invariant; its key part: an effect that is in place while the row still waits implies that the last lock is still `locked` |
| DoOnce.TakeInv | internal/market/repository/deal_action_lock/repository.go:32-82 | taking a lock keeps it, provided the row still waits and the last lock has not expired, or has expired and was searched in vain |
| DoOnce.ActInv | internal/market/service/escrow/service.go:183-186 | performing the effect under a lock that has not expired keeps it |
| DoOnce.ReleaseInv | internal/market/repository/deal_action_lock/repository.go:121-130 | so does releasing a lock as failed or completed |
| DoOnce.TickInv | internal/market/repository/deal_action_lock/repository.go:42-62 | so does the passing of time |
| DoOnceRuns.AtMostOnce | internal/market/service/escrow/service.go:164-213 | in every fault-free run with any number of workers at most one copy of the effect is in place, and it is in place if the row is closed |
| DoOnceRuns.EveryFaultBreaks | internal/market/service/escrow/service.go:119-213 | each of the seven assumptions is needed: for each there is a run that violates it alone and performs the effect twice; `StaleRow` is two payout workers as coded, because the deal row is read before the lock, and `UnreadLock` is one worker whose read of the last lock fails after a crash |
| DoOnceRuns.ToleratedFaults | internal/market/service/escrow/service.go:164-213 | a set of faults can be tolerated in all runs if and only if it is empty |
| DoOnceRuns.SecondEffectIff | internal/market/repository/deal_action_lock/repository.go:42-79 | from any reachable state, one lock take followed by the effect makes a second copy if and only if a copy is in place and the take is faulty: the row is stale, or the last lock has expired unread or since the test |
| DoOnceRuns.SoloAtMostOnce | cmd/market/main.go:127-129 | with one worker, as the program starts it, a stale row and a late effect do no harm: five assumptions are enough |
| DoOnceRuns.SoloToleratedFaults | cmd/market/main.go:127-129 | the exact boundary for one worker: a set of faults can be tolerated if and only if it holds nothing but `StaleRow` and `LateEffect` |
| Attempts.AttemptEffect | internal/market/service/escrow/service.go:164-213 | the small steps of one execution that no other worker disturbs, whichever of its calls fail, come to one outcome: recovery of an earlier effect, being turned away by a lock or an error, or the effect under a lock of its own |
| Attempts.AttemptBlocked | internal/market/repository/deal_action_lock/repository.go:56-59 | while a lock is active an execution changes nothing, whatever fails |
| Attempts.AttemptedKeepsInv | internal/market/service/escrow/service.go:164-213 | an execution keeps the invariant, unless it passes over an expired lock that it could not read or leaves an effect unrecorded |
| Attempts.AttemptCompletes | internal/market/service/escrow/service.go:164-213 | once no lock is active, one execution whose reads, effect and record succeed closes the row with exactly one effect in place, whether or not it had happened before, and whether or not locks could be cleared and released |
| DealInvariant.NewCellInv | internal/market/service/deal/deal.go:17-29 | a new deal satisfies the invariant |
| DealInvariant.DraftStepInv | internal/market/service/deal/deal.go:62-173 | requests of the two sides keep it, also sign requests that commit late |
| DealInvariant.EscrowStepInv | internal/market/service/escrow/service.go:83-116 | the escrow creator, deposits, expiry and completion keep it |
| DealInvariant.CheckStepInv | internal/userbot/service/userbot/deal_post_workers.go:171-201 | the checks of the post and the bulk writes keep it |
| DealInvariant.WritePassedInv | internal/market/repository/deal_post_message/repository.go:183-245 | the bulk writes, which do not look at the deal's status, keep the coupling of message status and deal status |
| DealInvariant.PostStepInv | internal/userbot/service/userbot/deal_post_workers.go:63-126 | every step of the post protocol keeps it |
| DealInvariant.PayStepInv | internal/market/service/escrow/service.go:164-213 | every step of the payout protocol keeps it |
| DealInvariant.CellRunInv | internal/market/repository/deal/repository.go:234-504 | in every run, without any assumption on locks, clocks and lookups: price and deposit belong together, approved deals carry matching signatures, the vault holds the seed of the escrow address, message status and deal status agree, and the check schedule is kept |
| DealTheorems.FrozenStep | internal/market/repository/deal/repository.go:234-326 | no step changes terms, deposit, payout addresses or signatures of a deal that has left the draft |
| DealTheorems.ApprovedForGood | internal/market/repository/deal/repository.go:285-326 | a deal at `approved` or later carries both signatures over exactly its present terms and payout addresses, and keeps all of them for the rest of any run, however late sign requests commit |
| DealTheorems.SeedAgreement | internal/market/service/escrow/service.go:83-116 | with a creator that may crash anywhere, a deal with an escrow address has in the vault the seed of that address, and neither changes again |
| DealTheorems.StatusStep | internal/market/repository/deal/repository.go:328-504 | every step keeps the status or raises its rank |
| DealTheorems.Progress | internal/market/repository/deal/repository.go:328-504 | a deal changes its status at most seven times in any run, always upwards |
| DealTheorems.NeverBoth | internal/market/repository/deal/repository.go:404-465 | statuses of one rank exclude each other over a whole run: expired and deposit confirmed, release and refund |
| DealTheorems.BulkWritesHitInProgress | internal/market/repository/deal_post_message/repository.go:202-204 | in every reachable state the unguarded status writes hit only deals in progress |
| DealTheorems.CheckSchedule | internal/userbot/service/userbot/deal_post_workers.go:171-201 | a post passes exactly on the (max(0, floor((end - first slot) / 1h)) + 1)-th positive check; the k-th check is not before its slot, the last one is later than an hour before the end, and a post fails exactly if a check saw it missing |
| DealTheorems.ChecksByDuration | internal/userbot/service/userbot/deal_post_workers.go:109-110 | a released deal of D hours has seen max(1, D) checks if the two readings of the clock agree, and max(1, D - 1) if the second is later by less than an hour |
| DealTheorems.NoChannelNoPayout | internal/userbot/service/userbot/deal_post_workers.go:44-47 | a deal on a listing without a channel is never posted: after its deposit it stays where it is in every run and pays no one |
| DealProgress.PostedIffPostable | internal/userbot/service/userbot/deal_post_workers.go:42-61 | after whatever run from the creation, a deal whose deposit is confirmed can still be posted, by the deployed sender alone and without a fault, if and only if its listing has a channel and its text is not empty; otherwise no run at all changes its status |
| DealProgress.PaidIffPayable | internal/market/service/escrow/service.go:126-135 | after whatever run from the creation, a deal that waits for its release or refund can still be paid the agreed transfer and confirmed, by the deployed payout worker alone and without a fault, if and only if its payout address parses; otherwise no run at all changes its status |
| DealJourneys.Completes | internal/market/service/escrow/service.go:118-220 | every deal that can be signed, with a channel and a payout address that parses, of whatever price and duration, has a fault-free run of the deployed workers from its creation to its completion, with exactly one ad and exactly one transfer, the agreed one |
| DealJourneys.ChecksPass | internal/userbot/service/userbot/deal_post_workers.go:171-201 | an ad that stays in the channel passes its last check, however many checks its duration takes |
| MarketJourneys.NewDealCompletes | internal/market/service/escrow/service.go:83-220 | in any fault-free market such a deal can be created and completed without a fault; the chain then shows exactly its transfer, and no other deal has changed |
| DealStranded.NoChannelKeepsDeposit | internal/userbot/service/userbot/deal_post_workers.go:42-47 | every deal on a listing without a channel that both sides sign has a fault-free run to the confirmed deposit, after which no run takes it further |
| DealStranded.BadAddressKeepsDeposit | internal/market/service/escrow/service.go:131-135 | every signed deal with a payout address that does not parse has a fault-free run to the waiting status, for the release and for the refund, after which no run takes it further |
| DealStranded.LiveAdRefunded | internal/userbot/service/userbot/deal_post_workers.go:133-154 | a deal whose ad is live and was never removed, but whose message id the sender did not get, has a fault-free run to the refund |
| DealTwice.TwoWorkersPayTwice | internal/market/service/escrow/service.go:119-189 | every deal that waits for its payout has a run of two payout workers, with a stale row as the only fault, that pays it twice |
| DealTwice.OneWorkerPaysTwice | internal/market/service/escrow/service.go:165-189 | and a run of one payout worker, with an unread lock as the only fault |
| DealRefunds.RefundedForAReason | internal/userbot/service/userbot/deal_post_workers.go:171-201 | in every fault-free run from the creation, a deal takes the way of the refund only if its ad was removed or its message id is not known; in the second case it never takes the way of the release |
| DealRefunds.GoneIsNeverReleased | internal/userbot/service/userbot/deal_post_workers.go:171-201 | once an ad is gone before its last check, and no sender holds a lock to post it again, no fault-free run releases the deal |
| DealTiming.NeverPostedEarly | internal/userbot/service/userbot/deal_post_workers.go:42-61 | in every run from the creation, whatever goes wrong, an ad is in the channel, or has been, or a sender is about to post it, only if the listing has a channel, there is a text, and the time agreed for the post has come |
| DealSignings.OnlySidesChangeDrafts | internal/market/service/deal/deal.go:62-173 | a request changes a deal only while it is a draft and only if it comes from one of its sides, and a payout address only if it comes from the side that owns it |
| DealSignings.SignReadIff | internal/market/service/deal/deal.go:83-111 | a request to sign is made exactly with the user's own payout address as connected wallet, both addresses set, and a text that is not just white space |
| DealSignings.ApprovedByBothWallets | internal/market/service/deal/deal.go:83-126 | in every run from the creation, an approved deal has been signed by both sides, each of which asked with its own payout address as connected wallet and got the signature of the approved deal |
| DealPayouts.PreparesGoal | internal/market/service/escrow/service.go:126-160 | a worker that reads a waiting deal prepares exactly the agreed transfer, and will look for the same one |
| DealPayouts.SafeStep | internal/market/service/escrow/service.go:118-246 | every fault-free step of any actor keeps both protocols of the deal |
| DealPayouts.PaidOnceAndRight | internal/market/service/escrow/service.go:118-246 | in every fault-free run the escrow wallet pays at most once over release and refund together; a confirmed deal has paid exactly once, to the lessor on release and the lessee on refund, the amount that belongs to the agreed price |
| DealPayouts.PostedOnce | internal/userbot/service/userbot/deal_post_workers.go:63-126 | in every fault-free run at most one copy of the ad is live, it is the agreed ad in the listing's channel, and a message row exists only if it was posted |
| DealSolo.SoloPaidAndPosted | cmd/market/main.go:127-129 | with one payout worker and one sender, as deployed, the deal is paid once and right and posted once in every run, even with stale rows and late effects |
| Market.WalletStep | internal/market/service/escrow/service.go:186-209 | a fault-free step adds at most one transfer to the wallet of its deal, and out of that deal's escrow address |
| Market.MarketStep | internal/market/service/escrow/service.go:83-213 | a step on one deal keeps the invariant of all deals and of the chain they share |
| Market.ChainPaysOnce | internal/market/service/escrow/service.go:118-246 | in every fault-free run of the whole market the chain shows at most one transfer out of each escrow address, the agreed one, and every confirmed or completed deal has made it |
| Market.DeployedChainPaysOnce | cmd/market/main.go:127-129 | the same for the market as deployed, with one payout worker and one sender, even with stale rows and late effects |
| Market.SettledDeal | internal/market/service/escrow/calculations.go:8-22 | the deposit of a settled deal is its payout plus gas plus a commission that is not negative, and its payout is its price |
| Market.Conservation | internal/analytics/repository/repository.go:87-103 | over any list of settled deals the required deposits equal the payouts on the chain plus gas plus the commission of the analytics query, and no wallet is overdrawn |
| Scripts.StepsAreRun | internal/market/service/escrow/service.go:118-213 | the steps of one undisturbed service execution are a run of the deal, so the theorems on runs apply to it |
| Scripts.PayScriptEffect | internal/market/service/escrow/service.go:118-220 | the steps of a release or refund come to `PayOutcome`, the contract of the service method |
| Scripts.PostScriptEffect | internal/userbot/service/userbot/deal_post_workers.go:36-129 | the steps of the sender come to `PostOutcome` |
| Scripts.CreateScriptEffect | internal/market/service/escrow/service.go:83-116 | the steps of the escrow creator come to `CreateOutcome` |
| Scripts.CheckScriptEffect | internal/userbot/service/userbot/deal_post_workers.go:171-201 | the steps of the checker come to `CheckOutcome` |
| Scripts.PassScriptEffect | internal/market/service/deal_post_message/worker.go:36-64 | the steps of the passed-message worker come to `PassOutcome` |
| Scripts.SignScriptEffect | internal/market/service/deal/deal.go:83-115 | the two halves of signing come to `SignOutcome` |
| Scripts.PayOutcomeSafe | internal/market/service/escrow/service.go:118-220 | an execution of the payout service keeps a safe deal safe, unless it passes over an expired lock that it could not read or leaves a transfer unrecorded |
| Scripts.PostOutcomeSafe | internal/userbot/service/userbot/deal_post_workers.go:36-129 | so does an execution of the sender, unless it leaves an ad unrecorded |
| Scripts.RecoveryCompletes | internal/market/service/escrow/service.go:164-213 | from every state a fault-free run with crashes leaves behind, once no lock is active, one execution whose reads, transfer and record succeed confirms a waiting deal with one payout in total |
| Tables.Database.CreateDeal | internal/market/service/deal/deal.go:17-29 | a new row is a draft with the computed deposit; an existing row stays |
| Tables.Database.SetDealStatus | internal/market/repository/deal/repository.go:404-414 | a guarded status write changes that row only, and only from the status it names |
| Tables.Database.SetDealStatusConfirmed | internal/market/repository/deal/repository.go:455-489 | the guarded write from a waiting status to the confirmed one, or an error that changes nothing |
| Tables.Database.SetDealStatusCompleted | internal/market/repository/deal/repository.go:442-453 | only confirmed deals are completed |
| Tables.Database.SetDealStatusRejected | internal/market/repository/deal/repository.go:491-504 | only a draft is rejected, and the answer says whether it was |
| Tables.Database.SetDealEscrowAddress | internal/market/repository/deal/repository.go:328-340 | address and status are set together, and only on an approved deal |
| Tables.Database.UpdateDealDraftFieldsAndClearSignatures | internal/market/repository/deal/repository.go:234-250 | a draft gets new terms and deposit and loses both signatures; other deals stay |
| Tables.Database.SetDealPayoutAddress | internal/market/repository/deal/repository.go:264-273 | the side that asks gets its payout address changed, on a draft only |
| Tables.Database.SignDealInTx | internal/market/repository/deal/repository.go:285-326 | write, read again and approve come to one function of the row as it is at commit time |
| Tables.Database.TakeDealActionLock | internal/market/repository/deal_action_lock/repository.go:32-82 | succeeds only if no lock of the action is active, and then appends one lock; `already locked` is answered only if one is active, and an error changes nothing |
| Tables.Database.GetLastDealActionLock | internal/market/repository/deal_action_lock/repository.go:84-108 | the newest lock of the action, if there is one, or an error |
| Tables.Database.ReleaseDealActionLock | internal/market/repository/deal_action_lock/repository.go:121-130 | changes the status of that lock and nothing else, or fails and changes nothing |
| Tables.Database.CreateDealPostMessageAndSetDealInProgress | internal/market/repository/deal_post_message/repository.go:62-108 | inserts the only message row of a deal and moves the deal on; an existing row leaves message and deal alone, and an error changes nothing |
| Tables.Database.UpdateDealPostMessage | internal/market/repository/deal_post_message/repository.go:110-131 | changes status and next check of one message |
| Tables.Database.CloseDealPostMessages | internal/market/repository/deal_post_message/repository.go:183-245 | overwrites the status of every listed message and of its deal |
| EscrowService.Escrow.CreateEscrow | internal/market/service/escrow/service.go:83-116 | exactly an approved deal gets seed and address of the same wallet, made of the next seed of the generator; every other deal is left alone; safe rows stay safe |
| EscrowService.Escrow.TryRecover | internal/market/service/escrow/service.go:164-182 | an expired locked last lock is completed and the deal confirmed if the transfer is found, and is marked failed if not; this is skipped only if the read of the lock failed, and the lock stays as it is only if a write failed |
| EscrowService.Escrow.TransferUnderLock | internal/market/service/escrow/service.go:184-213 | refused only by an active lock or a failed call; otherwise the transfer happens under a lock of its own, which ends completed exactly if transfer and status write succeed |
| EscrowService.Escrow.ReleaseOrRefundEscrow | internal/market/service/escrow/service.go:118-220 | if none of its calls fails, a safe deal that waits with a payout address that parses and no active lock ends confirmed, with exactly the agreed transfer in its wallet, whether or not an earlier worker had paid, and any other deal keeps its row and wallet; if some fail, an error has paid only if the transfer was made and its status write failed, and no lock stays behind unless it could not be released |
| EscrowService.Escrow.CreateAll | internal/market/service/escrow/worker.go:21-39 | one round creates a wallet for exactly the approved deals without one, each from a seed of its own |
| EscrowService.CreatedDistinct | internal/market/service/escrow/worker.go:21-39 | if the generator never repeats a seed, such a round keeps the escrow addresses of waiting deals distinct, which the deposit events rely on |
| EscrowService.Escrow.PayAll | internal/market/service/escrow/worker.go:56-84 | one round pays exactly as agreed every safe deal that can be paid now and none of whose calls fails, whatever happens to the others; deals that do not wait are not touched |
| EscrowService.GoodPay | internal/market/service/escrow/service.go:118-220 | the outcome of an execution without failures, from every safe state: paid as agreed exactly if the deal can be paid now |
| EscrowService.LeavesNoLock | internal/market/service/escrow/service.go:184-213 | whether it pays or fails, an execution leaves no active lock behind unless the lock could not be released |
| EscrowService.Escrow.ProcessDepositEvents | internal/market/service/escrow/deposit_worker.go:37-72 | with distinct escrow addresses a batch confirms exactly the waiting deals for which one handled event carries at least the escrow amount, and changes nothing else; if no call fails, all events are handled and acknowledged; otherwise as many are not handled as calls have failed |
| Deposits.ConfirmedIffPaid | internal/market/service/escrow/deposit_worker.go:37-72 | with distinct escrow addresses, after any sequence of events a deal is confirmed if and only if it was waiting and some single event for its address carries at least its escrow amount; nothing else changes |
| Deposits.EscrowsAreDistinct | internal/market/service/escrow/service.go:88-111 | escrow addresses are distinct in every market that can come about without a seed being generated twice, whatever else goes wrong |
| Deposits.Batches | internal/market/service/escrow/deposit_worker.go:37-72 | splitting events into batches makes no difference |
| Deposits.OrderAndRepetition | internal/market/service/escrow/deposit_worker.go:37-72 | neither do order and repetition |
| DealService.Service.UpdateDealDraft | internal/market/service/deal/deal.go:62-79 | exactly a side of a draft can change it; then the deposit follows the price and both signatures are gone; anyone else gets the error of the code and changes nothing |
| DealService.Service.SignDeal | internal/market/service/deal/deal.go:83-126 | succeeds exactly if the user is a side of the draft, both payout addresses are set, the connected wallet is the user's own payout address, and the text has more than white space; then only that side's signature changes, and the deal is approved exactly if both now match |
| DealService.Service.SetDealPayoutAddress | internal/market/service/deal/deal.go:129-144 | exactly a side of a draft changes its own payout address, to one that is not empty, and nothing else |
| DealService.Service.RejectDeal | internal/market/service/deal/deal.go:147-173 | exactly a side can reject, and only a draft; otherwise nothing changes |
| DealService.Service.ExpireTimedOutDeposits | internal/market/service/deal/deal.go:176-189 | of the listed deals exactly those that still wait for the deposit expire |
| DealService.Service.CompleteAll | internal/market/service/deal/deal.go:200-212 | every confirmed deal is completed and no other deal changes |
| PostService.Userbot.SaveMessage | internal/userbot/service/userbot/deal_post_workers.go:109-120 | the end of the post and its first check come from two readings of the clock; the id of the message is stored if the answer contained it |
| PostService.Userbot.TryRecover | internal/userbot/service/userbot/deal_post_workers.go:69-96 | an expired locked last lock leads to saving the found post, or is marked failed if there is none or it cannot be saved; the deal is skipped only if the read of the lock failed |
| PostService.Userbot.SendUnderLock | internal/userbot/service/userbot/deal_post_workers.go:98-126 | refused only by an active lock or a failed call; otherwise the ad is sent and saved under a lock of its own, which ends completed exactly if both succeed; the id is stored unless the answer lacked it |
| PostService.Userbot.RunDealPostSenderOnce | internal/userbot/service/userbot/deal_post_workers.go:36-129 | one round leaves every deal alone that is not due: no confirmed deposit, a message already, no channel, no text, or a time in the future; every safe deal that is due, not locked, and none of whose calls fails, ends in progress with exactly the agreed ad in the channel, its end the agreed hours from now and its first check in an hour |
| PostService.GoodPost | internal/userbot/service/userbot/deal_post_workers.go:63-126 | the outcome of an execution of the sender without failures, from every safe state: posted as agreed exactly if the deal is due and not locked |
| PostService.Userbot.RunDealPostCheckerOnce | internal/userbot/service/userbot/deal_post_workers.go:171-201 | one round marks a due message deleted if the ad is not found under its id, passed if the check an hour later would be after its end, and puts it off by an hour otherwise; every other message is left alone |
| PostService.PassedMessages.RunPassedOnce | internal/market/service/deal_post_message/worker.go:36-64 | passed posts and their deals move to release, deleted ones to refund, all others stay |
| Float.RelativeError | internal/market/service/escrow/calculations.go:8-22 | one double-precision operation is off by at most 2^-53 of its result |
| Float.HalfEvenIff | internal/market/service/escrow/calculations.go:8-22 | ties in double-precision operations go to the even mantissa, everything else to the nearest one |
| Money.RoundAwayIff | internal/market/service/escrow/calculations.go:10-20 | rounding to whole nanoton goes to the nearest integer, and away from zero if two are as near |
| Money.RoundTrip | internal/market/service/escrow/calculations.go:8-22 | paying out recovers the price exactly from the deposit for every price p >= 0 and multiplier 1 <= m <= 2 with 4pm + 2 <= (m - 1) 2^53 (p <= 2^53 if m = 1, and p = 0 always) |
| Money.ExactRoundTrip | internal/market/service/escrow/calculations.go:8-22 | without floating point error it does so for every price and every m >= 1 |
| Money.Split | internal/analytics/repository/repository.go:87-103 | the deposit is price plus gas plus commission, and the commission is not negative |
| Money.DepositIsNear | internal/market/service/escrow/calculations.go:8-12 | the deposit is price times multiplier plus gas, to less than one nanoton |
| TwoPercent.SmallerPricesAreRecovered | internal/market/service/escrow/calculations.go:8-22 | at the default commission of two percent every price below 140737488355375 nanoton is recovered exactly |
| TwoPercent.FirstLost | internal/market/service/escrow/calculations.go:8-22 | and that price is not: one nanoton too much is paid out |
| Shards.CreatedIffRisen | internal/blockchain_observer/workers.go:181-186 | across extensions, splits and merges, a block existed at an earlier time exactly if its place had reached its sequence number by then |
| Walk.TestIsCovered | internal/blockchain_observer/workers.go:182-186 | on every block the walk can meet, the test on the frontier map means the block existed when the frontier was taken, although the map knows only the present shards |
| Walk.PushedExactly | internal/blockchain_observer/workers.go:181-208 | a walk pushes exactly the ancestors that did not exist when the frontier was taken |
| Walk.EveryBlockIsBelowATop | internal/blockchain_observer/workers.go:163-178 | every block of the history is a present top or an ancestor of one |
| Coverage.StepCovers | internal/blockchain_observer/workers.go:143-179 | one master emits exactly the blocks that appeared since the last one, however many were skipped |
| Coverage.EmitsExactlyTheNew | internal/blockchain_observer/workers.go:135-208 | over any run of masters with gaps, the emitted blocks are exactly the first tops and every block at or below a later top that is not at or below a first top |
| Coverage.EmittedForOneMaster | internal/blockchain_observer/workers.go:143-179 | no block is emitted for two masters |
| Coverage.EmissionsOrder | internal/blockchain_observer/workers.go:163-178 | for one master, every block comes after each of its parents at which the walk does not stop |
| Coverage.RunOrder | internal/blockchain_observer/workers.go:135-208 | over a whole run, every block after the first tops comes after each of its parents, except parents that are as old as the first tops |
| Observer.ShardStack.Push | internal/blockchain_observer/utils.go:36-38 | appends a block |
| Observer.ShardStack.Pop | internal/blockchain_observer/utils.go:40-47 | takes the last block, or nothing if there is none |
| Observer.RecordsExactly | internal/blockchain_observer/workers.go:111-131 | a polled master is forwarded exactly if it exceeds everything before it |
| Observer.ObserveMasters | internal/blockchain_observer/workers.go:104-133 | the polling loop forwards these masters |
| Observer.Observer.HandleShardBlock | internal/blockchain_observer/workers.go:181-208 | whatever lookups fail: only uncovered ancestors are pushed, each after one of its children, and a block whose own lookup succeeded has all its uncovered parents above it; never more than three lookups per pushed block, and at least two failed ones per block without an answer; if at most one lookup fails, exactly the walk of the specification |
| Observer.Observer.HandleNewMaster | internal/blockchain_observer/workers.go:143-179 | the new frontier consists of exactly the tops whose own lookup did not fail, and what is sent is what their walks pushed, from the top of the stack down; every block sent is a top or precedes one of its children, and follows its uncovered parents if its own lookup succeeded; with at most one failed lookup, exactly what the specification says |
| Observer.Observer.HandleMasters | internal/blockchain_observer/workers.go:135-141 | a run of the handler emits `Observed`, with a reliable server |
| Climbs.EmittedInOrder | internal/blockchain_observer/workers.go:167-176 | the order of what is sent for one master, whatever lookups failed |
| LostShards.RepeatsIffMissing | internal/blockchain_observer/workers.go:166-186 | with a part of a frontier, the walk pushes a block that was covered already if and only if the top of a missing shard lies at or below its start |
| LostShards.FailedWalksRepeat | internal/blockchain_observer/workers.go:166-186 | after a master with failed walks, the walk from a later block pushes something old if and only if one of the tops whose walk failed lies at or below that block |
| LostShards.NothingNewMissed | internal/blockchain_observer/workers.go:181-208 | and it still pushes everything at or below its start that is new |
| LostShards.AllWalksFailed | internal/blockchain_observer/workers.go:156-162 | the frontier becomes empty, so that the next master is taken for the first one, exactly if every walk of a master fails |
| LostShards.ForgottenShard | internal/blockchain_observer/workers.go:166-176 | if no shard of the frontier is among those of the ancestors of a top, its walk pushes the whole ancestry |
| LostShards.LeftShardRepeats | internal/blockchain_observer/workers.go:166-186 | a history of two shards in which one failed lookup makes a later walk go down to the zero state again |
| LiteClient.GetTransactionIDsFromBlock | internal/liteclient/client.go:147-185 | the result is a permutation of the block's transactions sorted by logical time, for any paging; it fails exactly if one page fails five times, not counting `not ready` |
| LiteClient.FewFailures | internal/liteclient/client.go:154-173 | with fewer than five errors it never fails |
| LiteClient.GivesUpIff | internal/liteclient/client.go:154-178 | it gives up exactly if, while pages are left, five errors come with no page in between; errors on different pages do not add up |
| LiteClient.SortSorts | internal/liteclient/client.go:181-183 | sorting keeps every transaction |
| LiteClient.HasOutgoingTxTo | internal/liteclient/client.go:224-267 | finds a payment exactly if it is among the newest 20 transactions |
| LiteClient.LookupExactness | internal/liteclient/client.go:237-240 | a payment is found exactly while fewer than 20 transactions have followed it |
| Prices.ValidateListingPrices | internal/market/domain/listing_prices.go:80-119 | accepts exactly lists of pairs of an hour string and a number from zero up |
| Prices.ConvertListingPricesTONToNanoton | internal/market/domain/price.go:21-42 | keeps the order and the labels, drops exactly the slots without a usable price, and stores 10^9 nanoton for each TON, to less than one nanoton below 2^22 TON |
| Prices.ConvertListingPricesNanotonToTON | internal/market/domain/price.go:45-66 | keeps the order and the labels, drops exactly the slots without a number, and shows 10^-9 TON for each nanoton, to less than a quarter of a nanoton below 2^22 TON |
| Prices.WholeTON | internal/market/domain/price.go:8-18 | whole TON below 2^22 are converted exactly, 10^9 nanoton each, in both directions |
| Prices.NearestNanoton | internal/market/domain/price.go:10-13 | an amount in TON below 2^22 is stored to less than one nanoton |
| Prices.NothingIsLost | internal/market/domain/price.go:21-42 | an accepted list loses no slot and keeps its order when it is stored |
| Prices.DealPriceMatchesListing | internal/market/domain/listing_prices.go:16-48 | accepts exactly a slot's own type, hours and price |
| Prices.ShownPriceReturns | internal/market/domain/price.go:11-18 | a price below 2^22 TON returns to the nanoton after being shown in TON |
| Prices.CoarsePriceChanges | internal/market/domain/price.go:11-18 | seven nanoton above that bound it does not |
| Prices.PricePipeline | internal/market/domain/listing_prices.go:16-119 | of an accepted list every slot as shown can be submitted and matches, and nothing else matches |
| Decimal.ParsePrint | internal/event/domain/entity/event_escrow_deposit.go:49-62 | parsing the decimal form of any int64 gives it back |
| EventCodec.EscrowDepositEvent.FromMap | internal/event/domain/entity/event_escrow_deposit.go:26-31 | decodes the four fields and leaves the message id alone |
| EventCodec.ThroughTheStream | internal/event/domain/entity/event_escrow_deposit.go:17-62 | through the stream and back every field is restored, for all int64 amounts and timestamps |
| Signatures.SamePayload | internal/market/domain/deal_signature.go:12-22 | two different agreements have the same signed bytes, because there are no separators |
| Signatures.LateSigningApproves | internal/market/repository/deal/repository.go:285-326 | if terms change after both sides have read them, their late signatures approve the new terms exactly if both payloads are the same |
| Signatures.SignedOneApprovedOther | internal/market/domain/deal_signature.go:12-43 | with such terms a deal is approved on terms that neither side has read |
| Signatures.SamePayloadIff | internal/market/domain/deal_signature.go:12-22 | for terms whose duration is the one in their type, as matching a listing demands, and whose details are a JSON object, as the validation of details stores them: payloads are equal if and only if type, duration, price and details are equal and user and payout addresses join to the same string |
| Signatures.OneAddressDetermines | internal/market/domain/deal_signature.go:12-22 | so the payload of a user determines the whole agreement if at most one side's payout address differs |
| Signatures.PayloadDetermines | internal/market/domain/deal_signature.go:12-22 | and it determines the user too if the payout addresses have the same lengths, which raw addresses of one workchain have but the code does not ask for |
| Signatures.SignedOtherAddresses | internal/market/repository/deal/repository.go:264-326 | the lessor signs, both sides change their payout addresses, the lessee signs: the deal is approved on addresses that the lessor has not signed if and only if both pairs join to one string |

## Left out

- User interface, HTTP routing, login, configuration, health, metrics and shutdown: they hold no state of a deal.
- Notifications, the forum topic of a deal, photos, channel statistics and history charts: they hold no state that a deal depends on.
- Postgres, Redis, Vault, Telegram and the TON wallet are state with the contracts given under Assumptions; retries and timeouts inside their clients are not modelled.
- JSON syntax, the regular expression engine, SHA-256 and RFC 3339: values are taken as parsed, and a signature as the bytes that were hashed; that SHA-256 has no collisions is assumed.
- 64-bit overflow of amounts, and overflow and subnormal numbers of doubles; `Float` has the 53-bit mantissa and the rounding.
- The division in the analytics query is taken as exact and its multiplier as the double itself, where the query gets its decimal form; and gas is taken as a whole number of nanoton, since one side truncates it and the other rounds it.
- Several instances of the escrow creator, the passed-message worker, the sender or its checker: the unguarded writes are not safe there.
- Failed reads of a deal, its seed or a list at the beginning of an execution, and failed calls of the escrow creator, the checker, the passed-message worker, the expiry and completion of deals, and the requests of the two sides: the execution ends there for that deal, which is a crash step of the state machine.
- EscrowService.Escrow.PayAll: the clock stands still during a round, and the deals of a round are listed at its beginning in any order; interleavings with other workers are covered by the theorems on runs, not by the method.
- PostService.Userbot.RunDealPostCheckerOnce: of a message id, only whether it is that of the ad; a check finds the ad if it is in the channel and its id is known.
- DealService.Service.ExpireTimedOutDeposits: does not model `updated_at`; which deals are old enough is a parameter.
- Observer.Observer.HandleNewMaster: when lookups fail for good, says what is sent and in which order, and not which blocks are missing in between, because errors of nested calls are dropped.
- LiteClient.HasOutgoingTxTo: errors of the lookup, which the caller treats as "not found", are part of the fault `WrongLookup`.
- Delivery of deposits from the observer to the event stream: notifications are dropped when the channel is full, so no guarantee is claimed.
- The expiry of Redis keys, which expires deals by address, is the same guarded write as the expiry by id.
