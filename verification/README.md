# Yaver API: verified core

A Dafny model of the state machines behind the Yaver API's HTTP and database plumbing, with proofs about every
input, every run and every interleaving.

| file | what it models |
|---|---|
| `RateLimit.dfy` | the token-bucket limiter and its sweeper |
| `Deliveries.dfy` | the webhook dispatcher: selection, retry with backoff, dead-lettering |
| `Outbox.dfy` | the transactional outbox and its concurrent drainers |
| `Credits.dfy` | balance and ledger, charges, grants, race-safe org provisioning |
| `Payments.dfy` | checkout and settlement of gateway callbacks |
| `Calls.dfy` | placing calls: charge, warn, dial, record |
| `FlowEngine.dfy` | the keypad flow engine, the live session and the simulator |
| `FlowAnalysis.dfy`, `Graphs.dfy` | what a flow's graph tells about its simulations and sessions |
| `Bus.dfy` | the in-process activity bus |
| `WorkerPool.dfy` | the in-process job orchestrator |
| `Phone.dfy`, `Recipients.dfy` | phone canonicalisation and recipient import |
| `Options.dfy` | optional values and fallible statements |

`dafny verify dfyconfig.toml` checks the whole project.

## How to read it

Code that updates fields is a class whose methods are proved against functions on values. Concurrent behaviour is a
state and a total `Next(state, step)`; a step that is not enabled changes nothing, and a theorem about `Run` speaks of
every sequence of steps, that is, of every interleaving. A SQL statement, or a transaction, is one step. Failures are
arguments: a statement may fail with or without having taken effect, a commit may fail, a process may stop anywhere.
Gateways, telephony, HTTP replies and clocks are arbitrary inputs. Generated ids are fresh.

Main results:

- The bucket equals a policy that keeps the whole history and looks at every window of it, for every configuration and
  any order of timestamps (`BucketIsGreedy`). The rate bound holds although the clock is read before the lock
  (`RateBoundBetweenSweeps`). If timestamps go back by at most d seconds, eviction is unobservable exactly when
  600 - 2d seconds refill the burst or the burst is below one (`SweepsInvisibleExactlyWhen`); for the two configured
  limiters that is d up to 285 and 290 seconds (`ConfiguredLimiters`), and without any bound on d it is never so
  (`VisibleOnUnboundedClocks`).
- A due delivery with k pending deliveries in front of it is selected by tick k/50 + 1 and by no earlier one
  (`NoStarvation`), whatever is rescheduled or arrives later; `late` arrivals due before it delay it to tick
  (k + late)/50 + 1 at most. This holds exactly when no pending delivery with a URL that does not parse is it or before
  it (`AttemptedExactlyWhen`); such a one stops everything behind it for good (`BarredForever`).
- Each outbox row yields at most one delivery, exactly one if the committing drain saw a subscribed endpoint (`AtMostOnce`).
- Every balance equals its ledger sum, up to one starter grant whose ledger row was lost (`LedgerConserved`); paid
  credits equal granted plus in flight plus forgone (`PaymentsAccounted`); an org never spends more than it had, its one
  starter grant and what it has paid for (`NeverSpendsUnpaid`); nothing is dialled unpaid (`NothingDialledUnpaid`).
- A live session is decided by the first step of the simulation that does not gather (`SessionRefinesSimulation`). The
  flow's graph tells exactly when simulator and session always agree (`AlwaysSameOutcomeExactlyWhen`) and when every
  session ends (`AlwaysEndsExactlyWhen`).
- The bus never sends on a closed channel and offers each event exactly once to each subscriber it serves
  (`BusSafety`); the worker pool loses no job, and drains on shutdown exactly when it has a worker (`DrainsExactlyWhen`).

Where code and comments differ, the model follows the code:

- A drain that fails after an insert reports deliveries that were rolled back (`FailedDrainMiscounts`);
  `CountIsCommittedExactlyWhen` says when the count can be trusted.
- Deliveries are promised to be retried and dead-lettered. A URL that does not parse makes a nil request whose use
  panics, so its row is never marked, and after every restart the dispatcher panics on it again
  (`UnparsableUrlBlocks`).
- The first confirmed callback is promised to grant. If the grant fails or the settlement's reply is lost, no replay
  grants (`ForgoneForGood`).
- The import count is the number of distinct valid phones in the file, not of recipients added
  (`CountIsGrowthExactlyWhen`).
- "Exactly one" low-balance warning holds when the crossing charge is a placed call's and its reply arrives; a test call,
  or a charge whose reply is lost, crosses silently, and then no later charge warns (`OneWarningPerFall`,
  `SilentCrossings`).
- A number with a plus sign inside is accepted (`InteriorPlusSurvives`); `DigitsExactlyWhen` says when the result is
  all digits, as section 6 of ITU-T E.164 asks.
- The simulator may also run out of inputs at a plain prompt (`SimulationStopsAtPrompt`), and walks on from one where a live session ends, so it can
  show "confirmed" for a call that ends with no result (`SimulatorMisleads`). `AwaitsExactlyWhen`,
  `SameOutcomeExactlyWhen` and `AlwaysSameOutcomeExactlyWhen` say when it does not.
- A session is promised to run to a terminal outcome; on a loop of gathers it need not (`MenuNeedNotEnd`,
  `AlwaysEndsExactlyWhen`).
- Pressing a key named "timeout" is not timing out (`MenuTellsTimeoutsApart`, `PressedTimeoutIsTimeoutExactlyWhen`).
- A test call whose keypress does not end the flow panics after dialling (`MenuPanicsTestCall`,
  `TestCallEndsExactlyWhen`).

## Model

| member | source | states |
|---|---|---|
| `RateLimit.Limiter.constructor` | internal/platform/ratelimit/ratelimit.go:30-38 | a new limiter has no buckets, a rate of perMinute/60 and the given burst |
| `RateLimit.Limiter.Allow` | internal/platform/ratelimit/ratelimit.go:41-62 | answer and new bucket map are those of one request in `Handle`; other keys are untouched |
| `RateLimit.Limiter.SweepOnce` | internal/platform/ratelimit/ratelimit.go:64-75 | one pass removes exactly the buckets last touched before ten minutes ago, and alters no other, in any iteration order |
| `RateLimit.WindowBound` | internal/platform/ratelimit/ratelimit.go:46-61 | no window ending at a request has less slack than the tokens the request finds |
| `RateLimit.TightestWindow` | internal/platform/ratelimit/ratelimit.go:46-61 | some window has exactly that slack, and if the burst is at least one it starts at an admitted request or at the request itself |
| `RateLimit.BucketIsGreedy` | internal/platform/ratelimit/ratelimit.go:41-62 | for every configuration and history, clocks in any order, the bucket's answers are those of the policy that admits a request iff every window ending at it stays within burst + rate x length |
| `RateLimit.BucketIsGreedyAtAdmitted` | internal/platform/ratelimit/ratelimit.go:41-62 | for every configuration and history, clocks in any order, it suffices to look at windows that start at an admitted request or at the request itself |
| `RateLimit.RateBound` | internal/platform/ratelimit/ratelimit.go:42-61 | consecutive requests of a key with timestamps in [a, b], in any order, admit at most burst + rate x (b - a) |
| `RateLimit.KeysAreIndependent` | internal/platform/ratelimit/ratelimit.go:46-49 | between sweeps each key is served as if it were alone |
| `RateLimit.SinceEviction` | internal/platform/ratelimit/ratelimit.go:64-75 | in every run a key's bucket is what its requests since its last eviction left: `cut` is just past the last sweep that evicted it |
| `RateLimit.RateBoundBetweenSweeps` | internal/platform/ratelimit/ratelimit.go:41-75 | the rate bound for the whole limiter after any run, in any stretch without sweeps, timestamps in any order |
| `RateLimit.SweptAgreesRun` | internal/platform/ratelimit/ratelimit.go:64-75 | while timestamps go back by at most d and 600 - 2d seconds refill the burst, a swept limiter differs from one that never sweeps only by buckets that would be full whenever next asked for |
| `RateLimit.SweepsVisible` | internal/platform/ratelimit/ratelimit.go:64-75 | otherwise some run whose timestamps go back by at most d answers differently with a sweep than without |
| `RateLimit.SweepsInvisibleExactlyWhen` | internal/platform/ratelimit/ratelimit.go:41-75 | for every bound d >= 0 on how far timestamps go back: sweeps inserted anywhere leave every answer to every key unchanged iff burst < 1 or perMinute >= 0 and perMinute x (600 - 2d) >= 60 x burst |
| `RateLimit.InvisibleOnOrderedClocks` | internal/platform/ratelimit/ratelimit.go:41-75 | on clocks in order that is burst < 1 or 10 x perMinute >= burst |
| `RateLimit.VisibleOnUnboundedClocks` | internal/platform/ratelimit/ratelimit.go:42-43 | with no bound on how far timestamps go back, sweeps are invisible iff burst < 1 |
| `RateLimit.ConfiguredLimiters` | internal/transport/http/server.go:57-58 | for the two configured limiters sweeps are invisible iff timestamps go back by at most 285 and 290 seconds |
| `RateLimit.GreedyPerKeyExactlyWhen` | internal/platform/ratelimit/ratelimit.go:41-75 | with sweeps anywhere, other keys interleaved and timestamps going back by at most d, every key sees the greedy policy on its own history, iff that same condition holds |
| `RateLimit.RateBoundAcrossSweeps` | internal/platform/ratelimit/ratelimit.go:41-75 | where that condition holds, the rate bound holds in any stretch of any run, sweeps included |
| `Deliveries.SortedDue` | internal/adapter/postgres/queries/webhooks.sql:27-31 | holds exactly the due rows, ordered by retry time, then creation |
| `Deliveries.SelectsInOrder` | internal/adapter/postgres/queries/webhooks.sql:27-31 | at most fifty pending rows whose retry time has come, by retry time, with their attempt counts |
| `Deliveries.LeavesOutOnlyLater` | internal/adapter/postgres/queries/webhooks.sql:27-31 | such a row is left out only by fifty others, none due later |
| `Deliveries.Dispatcher.MarkDelivered` | internal/adapter/postgres/queries/webhooks.sql:33-36 | sets delivered and counts the attempt, on that row only |
| `Deliveries.Dispatcher.Reschedule` | internal/adapter/postgres/queries/webhooks.sql:38-41 | sets status and retry time and counts the attempt, on that row only |
| `Deliveries.Dispatcher.Fail` | internal/service/webhooks/webhooks.go:131-141 | a fifth failure dead-letters; an earlier one retries after its backoff |
| `Deliveries.Dispatcher.Deliver` | internal/service/webhooks/webhooks.go:94-129 | with an endpoint, and a URL that does not parse, panics and stores nothing; else a code in 200..299 delivers, and anything else, or no endpoint, is retried after 2, 5, 15 and 60 seconds and dead-lettered the fifth time; the attempt is counted |
| `Deliveries.Dispatcher.Tick` | internal/service/webhooks/webhooks.go:80-92 | takes in the drained rows, then attempts the first fifty due rows in order, up to one that panics, or none if the selection fails |
| `Deliveries.Lifecycle` | internal/service/webhooks/webhooks.go:94-141 | over every run with lost updates, panics and restarts: a row is delivered iff its last recorded reply has a code in 200..299, no earlier one has; pending has under 5 attempts and waits 2, 5, 15 or 60 seconds from the last, dead exactly 5; attempts are that far apart; settled rows never change; POSTs never exceed attempts plus lost updates |
| `Deliveries.LifecycleFromStart` | internal/service/webhooks/webhooks.go:94-141 | so in every state that a run from an empty table reaches |
| `Deliveries.SelectAdvances` | internal/adapter/postgres/queries/webhooks.sql:27-31 | a tick takes exactly fifty rows from in front of a waiting row, or the row itself |
| `Deliveries.NoStarvation` | internal/service/webhooks/webhooks.go:80-141 | if no pending row with a URL that does not parse is before it, in hand or the row itself: a due row with k rows in front is selected by no tick before k/50 + 1, and by tick (k + late)/50 + 1 at the latest, `late` counting arrivals with an earlier retry time; whatever else arrives or is rescheduled, if updates are stored and nobody restarts the dispatcher |
| `Deliveries.AttemptedInTime` | internal/service/webhooks/webhooks.go:80-141 | once that tick has worked off its batch, or panicked behind the row, the row has been attempted |
| `Deliveries.BarredForever` | internal/service/webhooks/webhooks.go:94-129 | otherwise, as long as the endpoint of the row with that URL is found, neither it nor any row behind it is ever attempted, in any run with restarts, lost updates and arrivals |
| `Deliveries.AttemptedExactlyWhen` | internal/service/webhooks/webhooks.go:80-129 | between ticks, a due row is attempted by that tick in every such run iff no pending row with a URL that does not parse is it or before it |
| `Deliveries.UnparsableUrlBlocks` | internal/service/webhooks/webhooks.go:111-112 | two rows, the first with such a URL: in no continuation is either delivered, failed or dead-lettered |
| `Deliveries.TickIsRun` | internal/service/webhooks/webhooks.go:80-92 | the tick method's effect is that of arrivals, a selection and attempts |
| `Outbox.Claim` | internal/adapter/postgres/queries/webhooks.sql:14-19 | claims distinct, undispatched, unlocked rows, at most the limit |
| `Outbox.ClaimsLowestFirst` | internal/adapter/postgres/queries/webhooks.sql:14-19 | in id order; a claimable row is left only at the limit and only for lower ids |
| `Outbox.DrainRows` | internal/adapter/postgres/webhooks.go:93-108 | works the claimed rows up to the first failing insert or mark: which deliveries are inserted and which rows marked by then, and their count; each delivery carries its row's org, event and payload to the URL of the org's active endpoint that takes the event |
| `Outbox.OutboxRepo.DrainOutbox` | internal/adapter/postgres/webhooks.go:79-110 | count, error and both tables are those of `Drain`: all or nothing, a failed commit having taken effect or not, the count being that of the inserts made; fails iff the claim, an insert, a mark or the commit reports an error |
| `Outbox.DrainDelivers` | internal/adapter/postgres/webhooks.go:93-109 | a drain that succeeds marks every claimed row and makes a delivery for exactly those whose org has an active endpoint, looked up without error, for all events or for the row's; with the row's contents |
| `Outbox.CountIsCommittedExactlyWhen` | internal/adapter/postgres/webhooks.go:92-109 | the count returned is the number of deliveries committed iff the claim failed, every statement worked and the commit took effect, or nothing had been inserted by the first failure |
| `Outbox.FailedDrainMiscounts` | internal/adapter/postgres/webhooks.go:104-107 | one subscribed row whose mark fails: one delivery is reported, none exists |
| `Outbox.AtMostOnce` | internal/adapter/postgres/webhooks.go:79-110 | over every interleaving of drainers, recorders, endpoint changes and aborts: copies of a row's delivery are 1 if the committing drain saw an active endpoint of its org that takes its event and 0 otherwise; dispatched iff that decision has committed; every delivery carries its row's org, event and payload to that endpoint's URL |
| `Outbox.OutboxIsRecorded` | internal/adapter/postgres/queries/webhooks.sql:11-12 | over every run the outbox holds what was recorded, in order |
| `Outbox.RunExtends` | internal/adapter/postgres/queries/webhooks.sql:11-25 | over every run rows, decisions and deliveries are never taken back or altered |
| `Outbox.DrainIsRun` | internal/adapter/postgres/webhooks.go:79-110 | an undisturbed drain is begin, lookups, and commit if it carries through, else abort |
| `Credits.CreditRepo.TryDeduct` | internal/adapter/postgres/credits.go:35-57 | succeeds iff the transaction begins, the account covers the charge and the commit works; a failed commit has taken effect or not; insufficiency is told apart from errors |
| `Credits.CreditRepo.GrantCredits` | internal/adapter/postgres/credits.go:59-81 | grants by the grant transaction; fails iff it does not begin, overflows or its commit reports an error, which has taken effect or not |
| `Credits.DeductExact` | internal/adapter/postgres/queries/credits.sql:10-12 | an ordinary charge succeeds iff the account covers it, moves exactly that amount of that org and books it |
| `Credits.GrantExact` | internal/adapter/postgres/queries/credits.sql:4-8 | a grant opens the account if needed, fails only on column overflow, moves exactly that amount and books it |
| `Credits.DeductBalanced` | internal/adapter/postgres/credits.go:43-52 | a charge of any amount, even one that wraps at 32 bits, keeps balance and ledger in step and not negative |
| `Credits.LedgerConserved` | internal/adapter/postgres/orgs.go:22-63 | over every interleaving of charges, grants and provisioning runs with failures: no negative balance; balance is ledger sum plus 0 or one unbooked 500; at most one run per owner seeds |
| `Credits.GapIsReached` | internal/adapter/postgres/orgs.go:58-60 | a failing ledger insert leaves 500 credits in the balance and none in the ledger |
| `Credits.SeedsAtMostOnce` | internal/adapter/postgres/orgs.go:46-61 | no org is given its starter credits twice |
| `Credits.ProvisioningCompletes` | internal/adapter/postgres/orgs.go:37-61 | an undisturbed run for a new owner creates the org, seeds 500 and books them |
| `Credits.OrgRepo.EnsureForUser` | internal/adapter/postgres/orgs.go:22-63 | leaves the tables as the provisioning run's own statements do, returns the owner's org iff read, insert and re-read work, changes nothing for an owner who has one |
| `Credits.ProvisionsAlone` | internal/adapter/postgres/orgs.go:29-61 | what a run by itself leaves, for every way its statements can go |
| `Credits.ProvisioningIsRun` | internal/adapter/postgres/orgs.go:22-63 | what the method leaves is left by six steps of the concurrent provisioning |
| `Payments.Clamp` | internal/service/billing/billing.go:50-54 | credits outside 1..100000 become 100 or 100000 |
| `Payments.Billing.Checkout` | internal/service/billing/billing.go:49-78 | records one pending payment, which stays even if the gateway fails |
| `Payments.Billing.Settle` | internal/adapter/postgres/payments.go:30-62 | a pending payment takes whatever verdict comes, any other keeps its own, and no other row changes; reports whether this call did it; on an error of the update the row may have moved, unreported |
| `Payments.Billing.SettlePayment` | internal/service/billing/billing.go:83-104 | grants exactly on the way from pending to paid, by the call that knows it moved the payment, for verified callbacks of known payments; fails exactly on a verification, settlement or grant error |
| `Payments.Accounts` | internal/service/billing/billing.go:91-102 | per org, paid credits are granted plus in flight plus forgone |
| `Payments.PaymentsAccounted` | internal/service/billing/billing.go:83-104 | over every interleaving of checkouts, replayed or conflicting callbacks, calls and provisioning: at most one grant per payment, only if paid, and the accounts add up |
| `Payments.NeverSpendsUnpaid` | internal/service/billing/billing.go:80-104 | across settlement, metering and provisioning on one book: calls charged plus balance equal the opening balance plus starter credits (0 or 500) plus granted top-ups, and never exceed the first two plus paid credits |
| `Payments.FirstVerdictIsFinal` | internal/adapter/postgres/payments.go:33-43 | a payment leaves pending at most once and keeps its verdict, org and credits |
| `Payments.VerdictSticks` | internal/adapter/postgres/payments.go:33-43 | a verdict stored on a pending payment, paid or refused, is its status over every continuation |
| `Payments.RefusedForGood` | internal/service/billing/billing.go:80-104 | a payment first refused never has a ledger row, even if a later callback says paid |
| `Payments.ForgoneForGood` | internal/service/billing/billing.go:80-104 | over every run a payment whose grant failed, or whose settlement went unheard, stays paid without a ledger row, whatever callbacks are replayed |
| `Payments.UnheardIsNeverGranted` | internal/service/billing/billing.go:91-96 | a confirmed payment whose settling update loses its reply, and every continuation |
| `Payments.FailedGrantIsNeverMadeUp` | internal/service/billing/billing.go:98-101 | a confirmed payment whose grant fails, and every continuation |
| `Payments.SettlementIsRun` | internal/service/billing/billing.go:91-102 | an undisturbed settlement is the settling update followed by its grant |
| `Calls.Service.PlaceCall` | internal/service/calls/calls.go:148-185 | the acts in full: one credit charged, a warning iff ten are left, a dial, and the only record, queued with no result and no event; cut short at the first failure, which the error names; a charge or record reported as failed may have taken effect |
| `Calls.Service.RunTestCall` | internal/service/calls/calls.go:76-124 | the acts in full: one credit charged, a dial, and the only record, with the outcome's status and result and the event "call." and that status; cut short at the first failure, which the error names; panics after dialling iff the keypress does not end the flow |
| `Calls.WarnsIsAnAct` | internal/service/calls/calls.go:160-169 | the warnings counted are the warning acts of a placed call, whatever becomes of its dial and record |
| `Calls.WarningsNeedGrantBetween` | internal/service/calls/calls.go:166-169 | between two charges that warn an org there is a committed grant that raises its balance |
| `Calls.OneWarningPerFall` | internal/service/calls/calls.go:160-169 | from above the threshold and until a top-up, other orgs doing anything: at most one warning; exactly one iff the crossing charge is a placed call's whose reply arrived |
| `Calls.SilentCrossings` | internal/service/calls/calls.go:161-169 | a crossing charge whose reply is lost, or by a test call, goes unwarned for good |
| `Calls.NothingDialledUnpaid` | internal/service/calls/calls.go:85-115 | at every point of every interleaving on one credit book with grants, other charges and provisioning: recorded <= answered dials <= dial attempts <= ledger rows for calls <= credits the ledger added, plus 500 if the starter row is missing; per org |
| `Calls.PlacedCallIsRun` | internal/service/calls/calls.go:148-185 | what the service's placed call does to book and tally is what its steps do |
| `Calls.TestCallIsRun` | internal/service/calls/calls.go:76-124 | the same for a test call, with an outcome or without |
| `FlowEngine.Start` | internal/flowengine/ivr.go:14-18 | positions a fresh state at the entry, which speaks: its own prompt, its keypad if it gathers, its result and "completed" iff it is an end or has a result |
| `FlowEngine.OnDTMF` | internal/flowengine/ivr.go:22-33 | moves to the key's branch, else the invalid branch, whose node speaks so; else hangs up in place, without a prompt and unanswered |
| `FlowEngine.OnTimeout` | internal/flowengine/ivr.go:36-44 | moves to the timeout branch, whose node speaks so; else hangs up in place, without a prompt and unanswered |
| `FlowEngine.PressedTimeoutIsTimeoutExactlyWhen` | internal/flowengine/ivr.go:22-44 | pressing "timeout" equals timing out iff the node has a timeout branch or no invalid branch |
| `FlowEngine.Simulate` | internal/flowengine/simulate.go:25-59 | shows, for every input list, the prompt, kind and waiting of each node its inputs lead along; it has ended with the last node's result, "completed", or unanswered where an input leads nowhere, or has run out of inputs; and it is the trace of turns that the lemmas below speak of |
| `FlowEngine.SimulationComposes` | internal/flowengine/simulate.go:25-48 | an ended trace ignores more inputs; another is extended from its last turn, with one step per input plus one |
| `FlowEngine.RunSession` | internal/flowengine/session.go:26-56 | result, leg actions and replies used are those of `Converse`, for every leg, failing or not |
| `FlowEngine.SessionWalksFrom` | internal/flowengine/session.go:26-56 | for every flow and leg: each question carries the prompt and keypad of the node the replies have led to; the call closes with the last node's prompt and result, or its prompt and a hangup without one, or a hangup without one where no branch exists; errors and waiting included |
| `FlowEngine.SessionRefinesSimulation` | internal/flowengine/session.go:26-56 | on an error-free leg replaying the inputs, outcome, leg actions and replies used are fixed by the simulation's first turn that does not gather; with none, all replies are used and it waits at the last node |
| `FlowAnalysis.AwaitsExactlyWhen` | internal/flowengine/simulate.go:22-48 | every simulation that has not ended is waiting for a key, iff the graph leads to no plain or missing node |
| `FlowAnalysis.SimulationStopsAtPrompt` | internal/flowengine/simulate.go:22-48 | a simulation that stops at a plain prompt |
| `FlowAnalysis.SameOutcomeExactlyWhen` | internal/flowengine/simulate.go:25-48 | an ended simulation shows the session's outcome iff every turn before its last gathers or its outcome is an empty completion |
| `FlowAnalysis.AlwaysSameOutcomeExactlyWhen` | internal/flowengine/simulate.go:25-48 | it does so on every input iff in the graph nothing but an empty completion can come out after a plain node |
| `FlowAnalysis.SimulatorMisleads` | internal/service/flows/flows.go:95-108 | a flow that validation accepts, on which the simulator shows "confirmed" and the session ends with no result |
| `FlowAnalysis.SessionTerminates` | internal/flowengine/session.go:26-56 | unless gathers loop, the leg is asked at most once per node, and the run ends with an outcome after exactly one hangup, its last action |
| `FlowAnalysis.CycleNeverEnds` | internal/flowengine/session.go:26-56 | on a cycle of gathers that a session comes to, it can be kept waiting for any number of replies |
| `FlowAnalysis.AlwaysEndsExactlyWhen` | internal/flowengine/session.go:23-56 | every error-free session has ended with an outcome after as many replies as there are nodes, iff no gather that is come to through gathers leads back to itself through gathers; and if one does, sessions of every length are still waiting |
| `FlowAnalysis.RankRulesOutLoops` | internal/flowengine/session.go:26-56 | a rank that falls along every transition between gathers rules such loops out |
| `FlowAnalysis.MenuNeedNotEnd` | internal/service/flows/flows.go:95-108 | a menu that validation accepts and whose invalid branch leads back to it: sessions of every length |
| `FlowAnalysis.MenuPanicsTestCall` | internal/service/calls/calls.go:97-109 | on it, a test call with an unknown key has no outcome |
| `FlowAnalysis.MenuTellsTimeoutsApart` | internal/flowengine/ivr.go:22-44 | on it, pressing "timeout" asks again where timing out, and the simulation, end |
| `FlowEngine.OrderConfirmDecidesAtOnce` | internal/adapter/postgres/orgs.go:85-96 | on the default flow every error-free session asks once, with its greeting and one digit in six seconds, and the first reply decides the outcome and the closing recording |
| `FlowEngine.TestCallIsSimulationExactlyWhen` | internal/service/calls/calls.go:97-100 | the test call's outcome is that of the one-input simulation iff the digit is not "timeout", the entry ends the call, or it has a timeout branch or no invalid one |
| `FlowEngine.TestCallEndsExactlyWhen` | internal/service/calls/calls.go:97-109 | a test call has an outcome iff the entry, or the node its keypress leads to if any, ends the call |
| `Bus.BusSafety` | internal/platform/bus/bus.go:32-74 | over every interleaving: no send on a closed channel, no double close, buffers of at most 16 events of the subscriber's org, accepted = received + buffered, no empty org registered, each event offered exactly once to each served subscriber and to nobody else |
| `Bus.DropsOnlyWhenFull` | internal/platform/bus/bus.go:35-40 | over every run each dropped event was put to its subscriber at a moment when the buffer held sixteen |
| `Bus.PublisherServesAll` | internal/platform/bus/bus.go:32-41 | over every run a publisher that has left has offered its event exactly once to each subscriber registered at its lock, and to nobody else |
| `Bus.SubscribeRegisters` | internal/platform/bus/bus.go:45-54 | left alone, a subscription ends up registered, live and empty, and the lock free |
| `Bus.CancelCloses` | internal/platform/bus/bus.go:55-74 | left alone, a cancel ends with the subscriber gone, its channel closed and the lock free |
| `Bus.PublishStarts` | internal/platform/bus/bus.go:32-34 | without a writer, a publisher takes the lock with its org's subscribers to serve |
| `Bus.PublisherFinishes` | internal/platform/bus/bus.go:35-41 | from there it can always finish: no send blocks |
| `Bus.SendOffers` | internal/platform/bus/bus.go:35-40 | a send appends to a buffer of fewer than sixteen, and drops otherwise |
| `WorkerPool.PoolConserves` | internal/adapter/orchestrator/local/local.go:27-55 | over every interleaving each job sent is queued, running or finished, exactly once; at most `workers` run; they start in order |
| `WorkerPool.EnqueueWaitsExactlyWhen` | internal/adapter/orchestrator/local/local.go:27-55 | enqueueing waits exactly while 256 jobs are queued; an idle worker takes the first |
| `WorkerPool.DrainsExactlyWhen` | internal/adapter/orchestrator/local/local.go:57-61 | when shutdown returns every job has run exactly as often as it was sent, iff the pool has at least one worker |
| `WorkerPool.ShutdownCompletes` | internal/adapter/orchestrator/local/local.go:40-61 | from any closed state of a pool with a worker, every schedule of effective steps reaches the return after exactly the remaining number of steps, not before, and can always be continued until then |
| `WorkerPool.ShutdownStepCounts` | internal/adapter/orchestrator/local/local.go:40-61 | after the close every worker step brings the return one step nearer |
| `WorkerPool.ShutdownNotStuck` | internal/adapter/orchestrator/local/local.go:40-61 | until shutdown has returned some step can be taken |
| `Phone.AcceptsExactly` | pkg/phone/phone.go:14-38 | an input is accepted iff its kept characters write a number in one of four ways, and the result is +880 and that number |
| `Phone.FormatsAgree` | pkg/phone/phone.go:12-13 | the three documented formats of a number give the same result |
| `Phone.NormalizeIdempotent` | pkg/phone/phone.go:14-38 | normalising a result gives it back |
| `Phone.DigitsExactlyWhen` | pkg/phone/phone.go:15-25 | the result is all digits after its plus iff the input has no plus after its first kept character |
| `Phone.InteriorPlusSurvives` | pkg/phone/phone.go:15-25 | an input with an interior plus that is accepted |
| `Phone.TrimmedNormalizesAlike` | internal/service/campaigns/campaigns.go:79 | trimming white space first makes no difference |
| `Phone.TrimsExactly` | internal/service/campaigns/campaigns.go:79-90 | trimming takes off exactly the white space at both ends |
| `Recipients.Campaign.AddRecipient` | internal/adapter/postgres/queries/campaigns.sql:25-28 | inserts unless the campaign already has the phone |
| `Recipients.Campaign.ImportRecipients` | internal/service/campaigns/campaigns.go:59-97 | up to the first row that does not parse or whose insert reports an error, and no further: the table is that of importing row by row without a seen-set, the count is the number of distinct canonical phones; a failed insert may have taken effect |
| `Recipients.Campaign.ImportRow` | internal/service/campaigns/campaigns.go:76-94 | inserts the row's phone iff it is valid and new in the file, named by its second field, trimmed |
| `Recipients.ReadableIsImported` | internal/service/campaigns/campaigns.go:66-96 | stopping at the first row that does not parse, that is the import of the rows before it |
| `Recipients.ImportComposesExactlyWhen` | internal/service/campaigns/campaigns.go:66-96 | importing A then B stores what importing A + B stores iff A parses to its end or B adds nothing after it |
| `Recipients.FirstNameWins` | internal/service/campaigns/campaigns.go:79-94 | stored phones keep their names; a new phone is stored iff the first field of some row normalises to it, with the second field, trimmed, of the first such row, or no name |
| `Recipients.StoresCanonical` | internal/service/campaigns/campaigns.go:79-94 | every stored phone is its own canonical form |
| `Recipients.ReimportChangesNothing` | internal/service/campaigns/campaigns.go:59-97 | importing stored phones back, with any names, changes nothing |
| `Recipients.CountIsGrowthExactlyWhen` | internal/service/campaigns/campaigns.go:56-58 | the count is the table's growth iff the file's phones are new to the campaign |

## Left out

- HTTP handlers, event streaming, configuration, telemetry and wiring: plumbing.
- Payment, telephony, messaging, e-mail and speech adapters: unseen services, here arbitrary answers.
- Cryptography, sessions, one-time codes and id generation: ids are taken to be fresh.
- JSON and CSV parsing: flows and rows are taken as parsed.
- Chat, summaries and reports: lookup tables.
- Campaign start and scheduling: dispatching and marking are separate statements, so exactly-once is not promised.
- Plain repositories, ingest routing and the development-only top-up: easy members only.
- `PlaceCall` under redelivery: it has no deduplication key, so a redelivered job charges and dials again.
- RateLimit.Limiter.Allow: tokens and instants are reals; rounding of the float counters is not modelled.
- RateLimit.SweptAgreesRun: assumes that timestamps go back by at most d and that 600 - 2d seconds refill the burst; otherwise sweeps can be seen (`SweepsVisible`).
- Deliveries.NoStarvation: assumes one dispatcher that nobody restarts, stored updates, one clock that does not go back, and ties broken by creation; the query leaves ties open. After a restart it applies anew. Which URLs parse is a flag of the row.
- Deliveries.Dispatcher.Deliver: signing and headers are left out; endpoint and secret failures are one reply without a POST.
- FlowEngine.RunSession: a leg is a finite script of replies, so a leg that never stops replying is seen through its finite prefixes.
- Bus.BusSafety: channels, locks and maps are values moved by steps, so aliasing of the objects is not captured; a map's iteration order is any order of sends.
- WorkerPool.PoolConserves: the pool is a value moved by steps; a job that panics is not modelled.
- Outbox.AtMostOnce: the call row committed with an outbox row is not modelled.
