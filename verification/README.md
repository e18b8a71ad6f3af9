# A verified model of the OTP platform's state machines

The platform sends one-time codes over WhatsApp and bills each send to a prepaid wallet.
This project models the parts of it that keep state, and proves what every run of them
keeps: the wallet ledger with its row-locked transactions, the refresh-token families, the
OTP lifecycle across the API handlers, the code cache and the two queue workers, the
sliding-window limiter, the idempotency tiers, webhook ingestion, and the attempt counter of
the Supabase function.

Code that changes tables and caches step by step is modelled twice. A class with the same
fields runs it statement by statement; a function on values says what the whole call does,
and each method is proved to do exactly that. The properties are then proved of the
functions, composed into state machines over all runs.

| file | what it models |
|---|---|
| `Money`, `References`, `Text`, `Prelude`, `Messages` | amounts on a grid of 1/10000, stored references, shared types |
| `Ledger` | one committed wallet transaction, and what sequences of them keep |
| `LedgerConcurrency` | the same transactions interleaved statement by statement, with locks and roll-backs |
| `WalletService` | the wallet service over its tables |
| `RefreshTokens` | token families and their service |
| `OtpStore` | one stored code, in its memory form and its Redis form |
| `OtpSystem` | the whole OTP lifecycle as one machine: send, resend, verify, status, both workers, top-ups, losses |
| `OtpRoutes` | the handlers of that machine, statement by statement |
| `OtpEffects` | what each step of that machine leaves, from the fields of the call |
| `OtpLifecycle` | cache and table agreement, deadlines, verified requests, idempotent sends |
| `OtpDeadlines` | exactly when no run verifies after a deadline |
| `OtpThrottle` | the cooldown and the phone block |
| `OtpMoney` | no run mints credits |
| `OtpDelivery` | delivery records and provider calls under faults of both workers |
| `OtpWorker` | attempts and retries of a delivery job, with a fault possible at every call |
| `WebhookWorker`, `WebhookIngestion` | delivery webhooks, with a fault possible at every call |
| `RateLimit`, `Idempotency`, `SupabaseVerify` | as named |

## Assumptions

- Amounts are exact reals; `Math.round(x * 10000) / 10000` is the floor of x·10000 + 1/2,
  over 10000. IEEE-754 effects are not modelled.
- Time is a monotone clock in whole milliseconds, read once by each handler call; times to
  live are whole seconds, and the maximum number of tries is at least 1.
- Hashes are injective: a code, phone number or token stands for its hash. Generated ids are
  arbitrary; one that is already in use is refused by the unique key.
- Each handler call and each worker attempt of the OTP system is one step. The wallet
  transactions (`LedgerConcurrency`), the token service (`RefreshTokens`) and the Supabase
  function (`SupabaseVerify`) are interleaved at their database statements.
- The wallet's transactions run at READ COMMITTED, PostgreSQL's default.
- Redis and memory are each a pure mode of the store of codes, cooldowns and blocks. In Redis
  the API processes share it and any key may be evicted; memory mode means a single API
  process, whose restart loses all three. A Redis key is gone at the instant it expires.
  `TTL` answers in whole seconds; the repository does not say how Redis rounds, so rounding
  down and rounding to the nearest second are both covered.
- The provider's answers, the broker, the failing calls of both workers, and the verdicts of
  the rate limiter and the customer block are parameters of the steps.

## Where the code does less than it says

- A refund is promised exactly once for each failed request (`MIGRATION_REPORT.md:11`), but
  the column that keys refunds holds UUIDs, so every generated id (`req_…`) is stored as
  null. At most one refund for each key does hold; a wallet gets at most one refund ever
  (`SecondRequestIdIsNotRefunded`, `OneRefundPerWallet`; exact condition: `RefundPostsIff`).
- A top-up is documented as having an idempotent reference (`API_DOCUMENTATION.md:456`). It
  has no duplicate check (`TopUpRepeats`).
- In Redis, a wrong try is not counted while `TTL` answers zero (`LastInstantIsUnmetered`,
  exact condition for one try: `CountedIff`, for a run: `ComparisonsAccounted`).
- With a `TTL` that rounds to the nearest second, a wrong try can prolong a code's life
  (`LifeExtendedIff`) past its deadline (`LateVerification`, exact condition over all runs:
  `AlwaysInTimeIff`).
- The memory form and the Redis form give the same verdicts on tries away from the expiry
  (`FormsAgree`). Near it the wrong tries, which rewrite the Redis key with a whole number of
  seconds, can have moved the Redis expiry, and the forms can differ (`DriftShows`,
  `FormsDifferAtExpiry`; exact condition: `VerdictsAgreeIff`).
- A cooldown or a block ends early when a restart in memory mode, or an eviction, loses it
  (`LossLifts`; exact condition: `InCooldownIff`, `BlockedIff`).
- A late delivery attempt overwrites a verified status (`VerifiedStaysUnderWorkerIff`, over
  runs `VerifiedForGoodIff`).
- A dead-letter queue that fails after a refund lets a refunded code be delivered
  (`RefundedYetSent`; exact condition: `DeliveredAndRefundedIff`).
- A webhook job writes a message's status and its event in two statements without a
  transaction; when the second fails, the message shows a status of which it has no event
  (`TornJobShows`; exact condition: `RecordsHold`, `ReplayIsIdempotentIff`).
- Two webhook events can share an external id when a status holds an underscore
  (`ExternalIdsCollide`; exact condition: `StatusesCollideIff`).
- An idempotent response whose table write was lost is forgotten with the caches
  (`UnsavedIsForgotten`; exact condition: `SaveSettlesIff`).
- A webhook event stored while the broker is down is never queued
  (`QueuedIffBrokerUpAtFirst`).
- The Supabase function allows one comparison fewer than its maximum (`AttemptCap`), and one
  more for every failed call of the counting procedure (`ComparisonsBounded`,
  `UncountedCallCompares`). It accepts an old code after a resend (`OldCodeAfterResend`;
  exact condition: `MatchesIff`).

## Model

| member | source | states |
|---|---|---|
| Money.RoundTo4 | src/modules/wallet/wallet.service.ts:78 | The result is on the 1/10000 grid, less than half a step below and at most half a step above its argument |
| Money.RoundIsUnique | src/modules/wallet/wallet.service.ts:78 | Only one value satisfies that, so the rounding (ties upwards) is determined by it |
| References.SameStoredReference | src/modules/wallet/wallet.service.ts:5-9 | Two references are one refund key exactly when neither is a UUID, or both are the same UUID up to case |
| References.UuidGroups | src/modules/wallet/wallet.service.ts:7-8 | A reference is kept exactly when it is five groups of 8, 4, 4, 4 and 12 hex digits with hyphens between |
| References.RequestIdsStoreNull | src/modules/otp/otp.service.ts:24-26 | A generated request id is stored as null |
| Ledger.SerialKeepsOk | src/modules/wallet/wallet.service.ts:42-230 | After any sequence of debits, refunds and top-ups every account's rows link from the 100-credit grant to its balance, each before being the previous after, none below zero, and no refund key occurs twice |
| Ledger.BalanceOnGrid | supabase/migrations/20260905010000_phase2_hardening.sql:22-33 | A balance is never negative and always a multiple of 1/10000 |
| Ledger.RoundingBound | src/modules/wallet/wallet.service.ts:78 | After n rows the balance is within n/20000 of the grant plus the signed amounts, and equal to it when the amounts are on the grid |
| Ledger.DebitPostsIff | src/modules/wallet/wallet.service.ts:63-101 | A debit posts if and only if the amount is at most the balance, so the last credit can be spent; then it adds one row of what it found and left, and otherwise answers the balance and the amount and changes nothing |
| Ledger.TopUpPostsIff | src/modules/wallet/wallet.service.ts:203-228 | A top-up posts, with its one row, if and only if the new balance is not negative |
| Ledger.RefundWrites | src/modules/wallet/wallet.service.ts:134-176 | A refund adds one row when its key is unused, and changes nothing when it has been used |
| Ledger.NewWalletHoldsHundred | src/modules/wallet/wallet.service.ts:25-28 | A customer without a wallet can spend a hundred credits and no more |
| Ledger.RefundPostsIff | src/modules/wallet/wallet.service.ts:137-155 | A refund posts if and only if its stored key is unused in that wallet and the new balance is not negative, which a refund of a non-negative cost never violates |
| Ledger.RefundAtMostOnce | src/modules/wallet/wallet.service.ts:107-150 | After one committed refund call, whatever runs in between, every later call with the same key returns the current balance and changes nothing |
| Ledger.SecondRequestIdIsNotRefunded | src/modules/wallet/wallet.service.ts:135-150 | Of two failed requests of one customer with generated ids, the second is never refunded |
| Ledger.TopUpRepeats | src/modules/wallet/wallet.service.ts:185-230 | A repeated top-up with the same reference posts again |
| LedgerConcurrency.Serialisable | src/modules/wallet/wallet.service.ts:15-230 | For any interleaving of any transactions, rolled back anywhere, the committed tables equal the committed operations run one at a time in lock order; and each transaction that committed or refused answered what it answers at its place there |
| LedgerConcurrency.RefusalsAreSerial | src/modules/wallet/wallet.service.ts:59-76 | A transaction that rolled itself back answered what its operation answers on the serial ledger at its lock place, and that is a refusal |
| LedgerConcurrency.AloneEnds | src/modules/wallet/wallet.service.ts:48-104 | From any reachable state an operation whose wallet nobody holds, run alone, ends within seven statements with the outcome and the tables of the whole operation |
| LedgerConcurrency.NextKeepsInv | src/modules/wallet/wallet.service.ts:48-104 | Every statement keeps the locking discipline: one holder for each wallet, no second acquisition, no overlap of two holders, and each phase's local values still true of the committed row |
| LedgerConcurrency.CommitKeepsInv | src/modules/wallet/wallet.service.ts:80-101 | Committing the buffered balance and row applies the whole operation to the tables as they are at the commit |
| LedgerConcurrency.CommitElsewhere | src/modules/wallet/wallet.service.ts:48-104 | A commit that overtakes transactions which locked earlier leaves the results of all other committed calls as they were |
| LedgerConcurrency.InterleavingsKeepLedger | src/modules/wallet/wallet.service.ts:15-230 | Every interleaving leaves every account linked from one grant to a non-negative balance, with one refund row for each key |
| LedgerConcurrency.OneRefundInterleaved | src/modules/wallet/wallet.service.ts:107-150 | In every interleaving, of two committed refund calls of one key the one that locked later was answered with the balance it found, and changed nothing |
| LedgerConcurrency.HistoryGrows | prisma/schema.prisma:442 | A committed wallet is never created again and never loses a row, so the grant is paid at most once to a customer |
| LedgerConcurrency.WalletAlwaysFound | src/modules/wallet/wallet.service.ts:59-61 | The "Wallet not found" branch is unreachable in every interleaving |
| WalletService.WalletService.GetOrCreateWallet | src/modules/wallet/wallet.service.ts:15-36 | Returns the customer's account, created with 100 credits and no rows when missing, and touches no other |
| WalletService.WalletService.FindRefund | src/modules/wallet/wallet.service.ts:138-145 | True exactly when the wallet has a refund row of that type and stored reference |
| WalletService.WalletService.DeductCreditsAtomic | src/modules/wallet/wallet.service.ts:42-105 | Tables and result are those of the committed or rolled-back debit of `Ledger`, which `DebitPostsIff` states |
| WalletService.WalletService.RefundCredits | src/modules/wallet/wallet.service.ts:112-180 | Tables and result are those of the posted, duplicate or refused refund of `Ledger` |
| WalletService.WalletService.TopupWallet | src/modules/wallet/wallet.service.ts:185-230 | Tables and result are those of the top-up of `Ledger` |
| RefreshTokens.FamiliesAreChains | src/modules/auth/refresh-token.service.ts:13-119 | In every reachable state each family is one chain under `replaced_by_token_id`: all its tokens, each once, of one user, all revoked but possibly the last |
| RefreshTokens.RotatesIff | src/modules/auth/refresh-token.service.ts:60-86 | A rotation succeeds if and only if the token is known, not revoked, not past its expiry, its user active and the new token new; each error exactly when its check is the first to fail |
| RefreshTokens.RotationWrites | src/modules/auth/refresh-token.service.ts:88-110 | A rotation dates and links the old token, adds the new one, live, with a full life, in the same family and of the same user, and touches nothing else |
| RefreshTokens.CreateOpensFamily | src/modules/auth/refresh-token.service.ts:13-29 | A session opens with one live token of a full life, which rotates at any time of it and not after, and touches nothing else |
| RefreshTokens.RevocationWrites | src/modules/auth/refresh-token.service.ts:122-130 | Revoking a family or a user dates exactly its live tokens, and no other |
| RefreshTokens.NoExpiredRotation | src/modules/auth/refresh-token.service.ts:74-77 | In every reachable state each replaced token was replaced at a time within its life |
| RefreshTokens.OneLiveToken | src/modules/auth/refresh-token.service.ts:64-110 | A family never has two live tokens |
| RefreshTokens.RotatesOnce | src/modules/auth/refresh-token.service.ts:64-72 | After a token has rotated, whatever runs in between, rotating it again is taken for a reuse and condemns its family |
| RefreshTokens.RevocationIsFinal | src/modules/auth/refresh-token.service.ts:102-131 | No row is removed, owner, family and expiry never change, and a revocation date and a link once written stay as written |
| RefreshTokens.PendingOrDead | src/modules/auth/refresh-token.service.ts:120-131 | A decided revocation is still to run or has killed the family, whatever interleaves |
| RefreshTokens.RevokedFamilyStaysDead | src/modules/auth/refresh-token.service.ts:120-160 | After a detected reuse or a logout, whatever runs before and after the revocation step, from that step on no token of the family is live |
| RefreshTokens.LiveTokenRotatesInTheGap | src/modules/auth/refresh-token.service.ts:45-133 | Between detection and revocation the family's live token still rotates; the revocation then also kills the new one |
| RefreshTokens.RevokeAllCountsFamilies | src/modules/auth/refresh-token.service.ts:166-177 | In every reachable state the returned count is the number of the user's families with a live token, and all of them are dead afterwards |
| RefreshTokens.RefreshTokenService.RotateToken | src/modules/auth/refresh-token.service.ts:35-134 | Verdict and table for each case: unknown, reused (family revoked), expired, inactive user, and rotated with its link, as `RotatesIff` and `RotationWrites` state |
| RefreshTokens.RefreshTokenService.RevokeFamilyByToken | src/modules/auth/refresh-token.service.ts:139-161 | True exactly for a known token, and then revokes the live tokens of its family and nothing else |
| RefreshTokens.RefreshTokenService.RevokeAllUserTokens | src/modules/auth/refresh-token.service.ts:166-177 | Revokes exactly the user's live tokens and returns their number |
| OtpStore.AttemptBudget | src/modules/otp/otp.service.ts:116-216 | For each stored code and any tries: the entry's counter is the number of charged tries, at most the maximum of them are charged, and at most one try succeeds, which removes the entry |
| OtpStore.WrongTryReports | src/modules/otp/otp.service.ts:150-187 | The k-th charged try, when wrong, reports maximum − k tries left, and ends the code when k is the maximum |
| OtpStore.ComparisonsAccounted | src/modules/otp/otp.service.ts:116-179 | In both forms, over any tries: comparisons are the charged tries, at most the maximum, plus those made while `TTL` answers zero; so with none of the latter, as in memory, at most the maximum |
| OtpStore.LastInstantIsUnmetered | src/modules/otp/otp.service.ts:173-179 | In Redis, while the key is alive and `TTL` answers zero, any number of wrong tries is compared and none is counted |
| OtpStore.CountedIff | src/modules/otp/otp.service.ts:131-179 | A wrong try below the maximum is counted if and only if the store is in memory or `TTL` answers more than zero |
| OtpStore.LifeExtendedIff | src/modules/otp/otp.service.ts:174-178 | A wrong try lengthens a code's life if and only if `TTL` rounds to the nearest second and half a second or more is left over |
| OtpStore.SameAfterWrongTryIff | src/modules/otp/otp.service.ts:131-178 | One wrong try leaves the same entry in memory and in Redis if and only if a whole number of seconds remain |
| OtpStore.VerdictsAgreeIff | src/modules/otp/otp.service.ts:92-216 | Over every sequence of tries from one stored code, each try gets the same verdict in memory and in Redis if and only if both forms find the code with the same count, or neither finds it |
| OtpStore.FormsAgree | src/modules/otp/otp.service.ts:92-216 | Store refinement: for every sequence of tries, each outside the drift that the wrong tries before it can have given the expiry, both forms give the same verdicts |
| OtpStore.FormsAgreeAwayFromExpiry | src/modules/otp/otp.service.ts:92-216 | The same from the times alone: every try outside a fixed margin around the expiry, of about a second for each wrong try allowed |
| OtpStore.FormsAgreeOnWholeSeconds | src/modules/otp/otp.service.ts:92-216 | Inside the margin too, with the same entries, when every try is a whole number of seconds from the expiry and not at it |
| OtpStore.DriftShows | src/modules/otp/otp.service.ts:173-178 | The margin is needed with either rounding: after one wrong try a later try is answered in one form only |
| OtpStore.MemoryOtpStore.Verify | src/modules/otp/otp.service.ts:101-216 | Verdict and store of the memory form, with the entry object updated in place and no other entry changed |
| OtpStore.RedisOtpStore.Verify | src/modules/otp/otp.service.ts:92-216 | Verdict and store of the Redis form, with the value rewritten under the remaining time to live |
| OtpStore.MemoryOtpStore.Store | src/modules/otp/otp.service.ts:51-78 | Replaces the entry of its key by one with no attempts and the given life |
| OtpStore.RedisOtpStore.Store | src/modules/otp/otp.service.ts:51-78 | The same in Redis |
| OtpRoutes.OtpApi.CheckSend | src/modules/otp/otp.routes.ts:119-217 | The first failing check of a send, in the handler's order, decides its answer |
| OtpRoutes.OtpApi.Send | src/modules/otp/otp.routes.ts:118-325 | Every table, cache, queue and wallet, and the reply, after a send are those of the machine's send step, which the rows of `OtpEffects` state |
| OtpEffects.SendStopped | src/modules/otp/otp.routes.ts:119-217 | Which failing check decides the reply, and that a send stopped by one has no effect |
| OtpEffects.SendUnpaid | src/modules/otp/otp.routes.ts:226-247 | A send the wallet does not cover answers the balance and the cost, and leaves its row and nothing else |
| OtpEffects.PaidSendLeaves | src/modules/otp/otp.routes.ts:223-310 | A paid send leaves its row, one debit, its code and its cooldown; and with the broker up one waiting job at the end of the queue, with it down a row sent, or a row failed and the refund applied, or, on an exception, nothing more |
| OtpEffects.ResendStopped | src/modules/otp/otp.routes.ts:403-447 | Which failing check decides the reply to a resend, and that only an overdue request is touched, and marked expired |
| OtpEffects.PaidResendLeaves | src/modules/otp/otp.routes.ts:449-520 | A paid resend leaves the new code, life and deadline, one debit, the cooldown, and one waiting job or, with the broker down, a row sent on success; it never refunds |
| OtpEffects.RightCode | src/modules/otp/otp.service.ts:116-205 | The right code is accepted whatever was tried before, ends the code and marks its request verified now |
| OtpEffects.WrongCode | src/modules/otp/otp.service.ts:128-188 | A wrong code is counted in the row; at the maximum it ends the code, expires the request and blocks the number for an hour |
| OtpEffects.WrongCodeEntry | src/modules/otp/otp.service.ts:131-179 | What a wrong code below the maximum leaves of the entry, in each form |
| OtpEffects.NothingStored | src/modules/otp/otp.service.ts:92-114 | Without a stored code in its life nothing is verified and nothing changes |
| OtpEffects.QueryExpires | src/modules/otp/otp.service.ts:243-257 | A status query marks exactly the overdue requests that are still open |
| OtpEffects.JobLeaves | src/queues/workers/otp.worker.ts:46-152 | A fault-free attempt of a queued job delivers it, or gives it up with the request failed, refunded and dead-lettered, or leaves it waiting one attempt on |
| OtpEffects.WebhookLeaves | src/queues/workers/webhook.worker.ts:17-91 | A fault-free webhook job records a new type on the first message with its id, and reflects it on the request |
| OtpRoutes.OtpApi.Resend | src/modules/otp/otp.routes.ts:394-522 | The same for a resend |
| OtpRoutes.OtpApi.Verify | src/modules/otp/otp.service.ts:80-225 | The same for a verification, with its verdict |
| OtpRoutes.OtpApi.GetOtpStatus | src/modules/otp/otp.service.ts:227-269 | The same for a status query: an overdue open request is expired first, and the status reported is the stored one |
| OtpLifecycle.LifecycleHolds | src/modules/otp/otp.service.ts:51-225 | In every reachable state each cache entry names an unverified row of its application and phone with the same hash, expiring less than a second before the row's deadline and not after it, but for the drift of wrong tries; and every row has attempts ≤ its maximum, and was verified in time |
| OtpLifecycle.ResendTimes | src/modules/otp/otp.routes.ts:426-481 | A resend caches with a time to live between 60 and 3600 s, less than a second short of the new deadline, which is not before the old one, and the old one has not passed |
| OtpLifecycle.DeadlinesOnlyExtend | src/modules/otp/otp.routes.ts:426-473 | Over any run no deadline moves earlier, and a deadline that has passed is never changed |
| OtpLifecycle.VerifiedInTime | src/modules/otp/otp.service.ts:92-205 | No request is ever verified after its deadline, although verification never reads it; with a `TTL` that rounds to nearest, by at most 500 ms for each wrong try allowed |
| OtpDeadlines.AlwaysInTimeIff | src/modules/otp/otp.service.ts:92-205 | Every reachable state has every request verified in time if and only if `TTL` does not round to the nearest second or the maximum is one try |
| OtpLifecycle.LateVerification | src/modules/otp/otp.service.ts:173-205 | The excess occurs: a well-timed wrong try lets the right code be accepted 1 ms after the deadline |
| OtpLifecycle.VerifiedForGoodIff | src/modules/otp/otp.routes.ts:418-437 | Over every run from a lifecycle state, a verified row never changes if and only if no delivery attempt of the run writes a status for its request |
| OtpLifecycle.VerifiedStays | src/modules/otp/otp.routes.ts:418-437 | No send, resend, verification, status query, webhook, loss or restart changes a verified row |
| OtpLifecycle.VerifiedStaysUnderWorkerIff | src/queues/workers/otp.worker.ts:79-129 | A delivery attempt leaves a verified row as it is if and only if it writes no status for that request |
| OtpLifecycle.SendIsIdempotent | src/modules/otp/otp.routes.ts:152-162 | After a send under a key whose response reached the table, whatever runs and is lost, a later send under the key that reaches the lookup, and reads the table or finds the key in a cache, gets that response and changes nothing at all |
| OtpLifecycle.SettledForGoodIff | src/middleware/idempotency.ts:13-91 | Over every run, evictions and restarts included, a key whose response names a known request keeps that response alone, in the table and in every tier, if and only if no send under it is accepted |
| OtpLifecycle.AcceptedIsUnanswered | src/middleware/idempotency.ts:13-51 | Under such a key only a send that can read neither the table nor a cached response can be accepted |
| OtpThrottle.InCooldownIff | src/modules/otp/otp.service.ts:28-49 | In every reachable state a number is in its cooldown if and only if a send or resend to it was paid for less than the cooldown ago and that timer has not been lost since, by a restart in memory mode or an eviction |
| OtpThrottle.BlockedIff | src/middleware/rate-limit.ts:51-71 | In every reachable state a number is blocked if and only if a code of it had its last wrong try less than an hour ago and that timer has not been lost since |
| OtpThrottle.CooldownHolds | src/modules/otp/otp.routes.ts:210-217 | While a number's cooldown is held by the history of the run, no send to it has any effect; and a send is refused for the cooldown only then |
| OtpThrottle.CooldownHoldsForResend | src/modules/otp/otp.routes.ts:439-447 | Nor has a resend, but to mark an overdue request expired; and one is refused for the cooldown only then |
| OtpThrottle.LossLifts | src/modules/otp/otp.service.ts:28-37 | After a timer is lost its check passes, however recent the send or the wrong try |
| OtpThrottle.PaidIff | src/modules/otp/otp.routes.ts:241-299 | A send or resend is paid for, which starts the cooldown, if and only if it is accepted or its dispatch throws |
| OtpThrottle.BlockHolds | src/modules/otp/otp.routes.ts:143-150 | While a number's block is held by the history of the run, every send to it is refused without effect, even one that repeats a known key; and a send is refused for the block only then |
| OtpMoney.MoneyHolds | src/modules/otp/otp.routes.ts:242-299 | In every reachable state every refund is of the fixed cost and for a charged request of that wallet, every debit is of the fixed cost, and charged requests are at most as many as debits |
| OtpMoney.KeysCountRefunds | src/modules/wallet/wallet.service.ts:137-150 | With distinct refund keys, a wallet has as many keys as refunds |
| OtpMoney.CreditsAreTopUps | src/modules/wallet/wallet.service.ts:185-230 | In every reachable state the credit rows of a wallet add up to the positive top-ups made to it |
| OtpMoney.SendMoves | src/modules/otp/otp.routes.ts:241-299 | A send moves nothing, or one debit, or one debit and then one refund |
| OtpMoney.NoCreditsMinted | src/modules/otp/otp.routes.ts:242-299 | Over all runs of sends, resends, fallback dispatches, worker retries and redeliveries: refunds never exceed debits, in number and in total, and a balance is at most the grant plus the top-ups (to within n/20000, exactly on the grid) |
| OtpMoney.OneRefundPerWallet | src/modules/otp/otp.routes.ts:291-297 | With request ids as generated, each wallet gets at most one refund over a whole run, however many deliveries fail |
| OtpDelivery.RecordsHold | src/queues/workers/webhook.worker.ts:39-69 | In every reachable state, whatever calls of either worker fail and however webhooks repeat: no message has an event type twice, and its status is that of its last event if and only if the last write of its status also inserted the event |
| OtpWorker.ProviderCallsBounded | src/queues/queue.ts:4-15 | However the provider answers and whatever fails, a job handed out once calls the provider once for each failed attempt and once more when it completes, never more than its attempts allow, and exactly that many when it is exhausted |
| OtpDelivery.CallsBounded | src/queues/queue.ts:4-15 | In every run of the whole system a job's calls to the provider are at most three, and one more for each time the queue hands it out again |
| OtpWorker.RunRefundsOnce | src/queues/workers/otp.worker.ts:97-139 | However the provider answers and whatever fails, a job's run applies at most one refund |
| OtpWorker.FaultFreeRun | src/queues/workers/otp.worker.ts:46-152 | With no failing calls: success leaves the request sent and the wallets untouched; permanent failure and exhausted retries leave it failed, dead-lettered and refunded, by exactly one row when the key is unused |
| OtpWorker.RunWallets | src/queues/workers/otp.worker.ts:46-152 | For every script of answers and faults, exactly when a job's run has applied its one refund: a retried attempt refunded and then threw, or the job ended in permanent failure, or the handler of the exhausted job refunded |
| OtpWorker.DeliveredAndRefundedIff | src/queues/workers/otp.worker.ts:97-114 | A delivered job's request is sent, and has been refunded as well if and only if an earlier attempt refunded a permanent failure and then threw |
| OtpWorker.RefundedYetSent | src/queues/workers/otp.worker.ts:97-112 | That occurs: a dead-letter failure after the refund makes the job retry, and it may then be delivered |
| OtpWorker.StatusAfterAttempt | src/queues/workers/otp.worker.ts:79-129 | The status an attempt leaves, from the provider's answer, the faults and the attempt number, whatever status it found |
| OtpWorker.AttemptRecordsMessage | src/queues/workers/otp.worker.ts:54-77 | A fault-free answered attempt adds one message with one event of its own status, with a provider id exactly on success |
| OtpWorker.OtpWorker.ProcessSendOtpJob | src/queues/workers/otp.worker.ts:34-153 | Status, wallets, messages and dead letters, and whether it throws, for every answer, fault and attempt number |
| WebhookWorker.SyncedIff | src/queues/workers/webhook.worker.ts:48-69 | Over any run of jobs, each whole, stopped between its two writes, or stopped before them, the status is that of the last event if and only if the last job that wrote a status inserted its event |
| WebhookWorker.StatusTable | src/queues/workers/webhook.worker.ts:15-37 | What each status, in any case, is recorded as and makes of a request |
| WebhookWorker.JobComesTo | src/queues/workers/webhook.worker.ts:39-91 | What a job comes to on the message and the request when no call fails, and when any one fails |
| WebhookWorker.ReplayIsIdempotentIff | src/queues/workers/webhook.worker.ts:39-69 | Any such run leaves a message as the first whole job of each event type would, if and only if the last write of its status was whole |
| WebhookWorker.ReplayIsIdempotent | src/queues/workers/webhook.worker.ts:39-69 | It is enough that every job stopped between its writes is later got through, whatever runs in between |
| WebhookWorker.EventsAreOfFirsts | src/queues/workers/webhook.worker.ts:40-68 | The events, in order, are always those of the first whole job of each type |
| WebhookWorker.TornJobShows | src/queues/workers/webhook.worker.ts:57-68 | A job whose event insert fails leaves the message with a status of which it has no event, until a whole job repairs it |
| WebhookWorker.EventsRecorded | src/queues/workers/webhook.worker.ts:39-69 | The event types recorded are the message's own and those of the whole jobs, none twice and none ever removed |
| WebhookWorker.JobRecordsOnce | src/queues/workers/webhook.worker.ts:40-48 | A job changes the message exactly when its event type is new and it comes to a write, and the same job again never |
| WebhookWorker.RequestFollowsLastJob | src/queues/workers/webhook.worker.ts:71-91 | The request's status is that of the last job that came to its update with a status of its own, unless it is verified |
| WebhookWorker.ReplayMovesRequestBack | src/queues/workers/webhook.worker.ts:71-91 | A replayed "sent" after "delivered" leaves the message delivered and moves the request back to sent |
| WebhookWorker.FindFrom | src/queues/workers/webhook.worker.ts:17-20 | The first message with that provider id, and none when there is none |
| WebhookWorker.WebhookWorker.ProcessWebhookJob | src/queues/workers/webhook.worker.ts:13-106 | For every choice of failing calls: which message, request and event row a job changes, how, and that it changes no other |
| WebhookIngestion.QueuedAtMostOnce | src/modules/webhooks/webhooks.routes.ts:98-131 | Over any stream of payload items no external event id is queued twice |
| WebhookIngestion.StoredIff | src/modules/webhooks/webhooks.routes.ts:98-111 | An external id is stored if and only if some complete item with it met a working database |
| WebhookIngestion.QueuedIffBrokerUpAtFirst | src/modules/webhooks/webhooks.routes.ts:101-131 | An event is queued if and only if the broker answered when it was first stored |
| WebhookIngestion.ItemAtPlace | src/modules/webhooks/webhooks.routes.ts:88-96 | Every status item of every change of every entry is handled, at its place in the payload's order |
| WebhookIngestion.PlaceHasItem | src/modules/webhooks/webhooks.routes.ts:88-96 | Nothing else is: every place is that of an item |
| WebhookIngestion.StatusesCollideIff | src/modules/webhooks/webhooks.routes.ts:99 | Two different statuses can share an external id, for some message ids, if and only if one ends with an underscore and the other |
| WebhookIngestion.ExternalIdInjective | src/modules/webhooks/webhooks.routes.ts:99 | External ids tell events apart unless one status ends that way |
| WebhookIngestion.ExternalIdsCollide | src/modules/webhooks/webhooks.routes.ts:98-131 | When two different events share an id, the second is dropped as a duplicate |
| WebhookIngestion.WebhookRoutes.Meta | src/modules/webhooks/webhooks.routes.ts:82-137 | The three nested loops ingest exactly the items of the payload, in order |
| RateLimit.ListIsWindow | src/middleware/rate-limit.ts:39-41 | The pruned list is what pruning the full history of calls would leave |
| RateLimit.ZSetIsWindow | src/middleware/rate-limit.ts:19-25 | The sorted set holds exactly the calls of the window, although its key may have expired in between |
| RateLimit.BothFormsCountHistory | src/middleware/rate-limit.ts:16-48 | Both forms count for each call the number of all calls ever made in (now − W, now] |
| RateLimit.RefusedIff | src/middleware/rate-limit.ts:27-48 | In both forms a call is refused if and only if it is more than the maximum in its window, and is otherwise told how many are left |
| RateLimit.AdmissionBound | src/middleware/rate-limit.ts:43-48 | No interval of length W admits more than `maxRequests` calls |
| RateLimit.RateLimiter.IsRateLimited | src/middleware/rate-limit.ts:11-49 | The verdict and the store after one call, in Redis or, when it fails, in memory |
| Idempotency.SettledAnswers | src/middleware/idempotency.ts:13-51 | Once the table has a key's response, a lookup answers it if and only if it can read the table or a cache still has the key, from any process, and never answers another |
| Idempotency.SaveSettlesIff | src/middleware/idempotency.ts:67-90 | A save under an unused key settles it if and only if the table write lands |
| Idempotency.SavedAnswersIff | src/middleware/idempotency.ts:13-91 | After a save under an unused key a lookup finds the response if and only if a tier that the save reached, and that has not dropped it by its one day, is read |
| Idempotency.FindRow | src/middleware/idempotency.ts:35-45 | Finds a row of that key and endpoint if there is one, and none only if there is none |
| Idempotency.IdempotencyMiddleware.GetIdempotentResponse | src/middleware/idempotency.ts:13-51 | The answer of the first tier that has one, in the order Redis, memory, table |
| Idempotency.IdempotencyMiddleware.SaveIdempotentResponse | src/middleware/idempotency.ts:53-91 | All three tiers after a save, with Redis or the table failing or not |
| SupabaseVerify.ComparisonsBounded | supabase/functions/otp/index.ts:290-327 | In every interleaving of verifications and resends, comparisons are at most the maximum − 1, plus one for each call whose counting procedure failed |
| SupabaseVerify.AttemptCap | supabase/migrations/20260905000000_init_schema.sql:361-407 | With no failing procedure call, at most maximum − 1 comparisons ever |
| SupabaseVerify.AttemptsOnlyGrow | supabase/functions/otp/index.ts:408-415 | The counter never decreases: a resend gives a new code but no new attempts |
| SupabaseVerify.LockedForGood | supabase/migrations/20260905000000_init_schema.sql:383-394 | Once the counter is at maximum − 1, no later counted call is let through, whatever resends come between |
| SupabaseVerify.MatchesIff | supabase/functions/otp/index.ts:290-320 | In every interleaving a comparison matches if and only if the submitted code is the one sent last before that call read the row: an old code exactly when the reading came before the resend |
| SupabaseVerify.VerifiedNeedsCode | supabase/functions/otp/index.ts:290-337 | In every interleaving a request that has become verified was marked by a call whose code was the one sent last before it read the row, and which read it unverified and not past its deadline |
| SupabaseVerify.ClosedReadingNeverCompares | supabase/functions/otp/index.ts:296-306 | In every interleaving a call that read the row verified, or after its deadline, never compares and verifies nothing; an overdue one marks the row expired |
| SupabaseVerify.AloneVerifiesIff | supabase/functions/otp/index.ts:290-337 | An uninterrupted call verifies if and only if the row is unverified, in time, with an attempt left, and the code right; and what it counts otherwise |
| SupabaseVerify.AttemptWrites | supabase/migrations/20260905000000_init_schema.sql:381-405 | The counting procedure always counts, answers exceeded from the maximum on, and then marks the row failed |
| SupabaseVerify.ResendWrites | supabase/functions/otp/index.ts:408-415 | A resend marks the row sent under the new code and deadline, and leaves its attempts |
| SupabaseVerify.OldCodeAfterResend | supabase/functions/otp/index.ts:290-337 | So a call that read the row before a resend succeeds with the old code and marks the request verified |
| SupabaseVerify.OtpRequest.RecordOtpAttempt | supabase/migrations/20260905000000_init_schema.sql:361-407 | The locked counting step: the new count, whether it answers exceeded, and the status it then sets |

## Left out

- OtpStore.FormsAgree: leaves out tries inside the drift around the expiry, because there the forms can differ (`DriftShows`); the condition that is exact for every try is `VerdictsAgreeIff`.
- OtpLifecycle.SendIsIdempotent: assumes that no send under the key was accepted, in between, without the table and the caches; such a send has a response of its own, which then answers from the caches.
- OtpMoney.NoCreditsMinted: the cost is fixed over a run, as one process configuration fixes it.
- Concurrent send, resend and verify handlers of the API: they check and then act without locks, so the statements are about calls that do not overlap.
- A database or cache failing in the middle of a send, resend or verify handler, other than the broker, the provider and the idempotency tiers.
- A Redis that goes up and down within the life of one code, cooldown or phone block, and several API processes without a Redis, each with timers and codes of its own.
- A rotation still in flight while the family's `updateMany` runs, which could commit a token that statement does not see.
- Fractional `ttl_seconds`, which the schema accepts; times are whole milliseconds and seconds.
- `getOrCreateWallet` outside a transaction, as the balance routes call it: it adds at most the wallet with its grant and no row, which is what every transaction finds in its absence.
- A Redis that still answers a key at the very instant of its expiry.
- IEEE-754 rounding of amounts, and of timestamps in seconds.
- Rows that only record: `otp_verifications`, audit logs, request hashes, descriptions, and timestamps other than `expires_at`, `verified_at` and `revoked_at`.
- The limiter and customer-block verdicts inside a send: they are parameters of the step; the limiter is modelled on its own.
- Status strings named like members of JavaScript's `Object.prototype`, which the status maps would look up there.
- HTTP, schemas, authentication, the webhook handshake and signature check, providers, cryptography and code generation.
- The Supabase `meta-webhook` function, its wallet procedures, and the legacy Python code.
