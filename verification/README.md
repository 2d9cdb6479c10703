# Trade lifecycle coordination — a Dafny model

This project models the coordination core of the opportunity trader:

- **Ledger queries** of the trade repository. Each is a pure function over a ledger snapshot (`seq<Trade>`):
  - the staleness queries and the symbol query used by the reconciliation jobs;
  - the NN slave and master queries;
  - the exposure and locked-funds sums;
  - the dependants-by-master-status query.
- **Admission.** The side-exposure limiter (`canProceed`), the threshold validator (`validateAtLeast`), and the closed `Reason` vocabulary with its messages.
- **Reconciliation jobs** (`OrderUpdater`), modelled as a class whose methods append to the gateway commander's log and the trade state-machine service's log:
  - the bulk refresh, with one list-open command per stale symbol in shuffled order;
  - the stuck-order recheck, which groups stale orders by client, shuffles each group and sends at most `maxToCheckStuckPerClient` get-order commands per client;
  - the timeout sweep, which sends TIMEOUT to each stale UNKNOWN trade under acquire/send/release.
- **Dependent-order pusher** (`NnSlaveOrderPusher`). For every DEPENDS_ON trade whose master is CLOSED, it does one of two things:
  - expires the trade: CANCELLED is sent to the trade's machine;
  - asks the dependency handler to publish it. On success, CONTINUE carrying the NN order id goes to the NN order's acceptance machine.

  Every failure while handling one dependant is caught, and the run goes on with the next dependant.

Each method is proved against a specification function of its inputs. Examples are `TimeoutOps(TimeoutCandidates(..))` and `PushEffects(Dependants(..), ..)`. Lemmas then prove what the jobs promise:
- exactly one TIMEOUT per stale UNKNOWN trade, and none to an OPENED trade;
- exactly one CANCELLED per expired dependant, and no publication of an expired one;
- exactly one CONTINUE per published dependant, addressed to the machine of the order id it carries;
- balanced acquire/release checkouts, on the understanding that the gateway and the state-machine services never fail (see "Left out");
- for each client, the right number of distinct get-order commands, drawn from its own stale orders;
- one symbol command per stale symbol.

Modelling conventions:
- Timestamps are integer milliseconds, so `plusMinutes(m)` adds `m * 60000` and `minusSeconds(s)` subtracts `s * 1000`.
- Amounts (`BigDecimal`, `double`) are reals.
- A Java exception that the code throws and a caller catches becomes a `Result` failure.
- `Collections.shuffle`, the iteration order of a `HashMap` and the enumeration of a `Set` are nondeterministic choices (`:|`). The proofs hold for every choice.

Three points of the code's behaviour are worth stating outright:
- **Dependant expiry.** A dependant's expiry is measured from its *own* `recordedOn` plus `maxSlaveDelayM` minutes, not from its master's time. It is expired as soon as that instant is no longer strictly in the future, so the boundary instant counts as expired (NnSlaveOrderPusher.java:81). `ExpiryBoundary` proves the inclusive boundary.
- **Side limit.** The cap is compared with the balance *before* the trade (TotalAmountTradeLimiter.java:40). With a cap of 1000 and a balance of 900, a buy of 200 that takes the balance to 1100 is admitted; only the next non-reducing trade is refused. `canProceed` returns `false` to refuse; the only rejection it raises is NO_CONFIG. `SideLimitScenario` proves these outcomes.
- **Staleness cut-off.** The staleness queries are inclusive (`statusUpdated <= cutoff`).

## Model

Source paths are relative to the repository root.

| member | source | states |
|---|---|---|
| `Domain.SameIdSameRow` | xo-opportunity-trader/src/main/java/com/gtc/opportunity/trader/repository/TradeRepository.java:20 | trade id is the primary key: two rows of a unique-id ledger with the same id are the same row |
| `Domain.UniqueIdsOccurOnce` | xo-opportunity-trader/src/main/java/com/gtc/opportunity/trader/repository/TradeRepository.java:20 | each row of a unique-id ledger occurs in it exactly once |
| `TradeRepository.FindById` | xo-opportunity-trader/src/main/java/com/gtc/opportunity/trader/repository/TradeRepository.java:22 | a found row is in the ledger and carries the id; empty only when no row has the id |
| `TradeRepository.FindSymbols` | xo-opportunity-trader/src/main/java/com/gtc/opportunity/trader/repository/TradeRepository.java:29-37 | a (client, from, to) triple is in the result if and only if some row with status in the set, `statusUpdated <= lastUpdate` and the requested client enabled flag has it |
| `TradeRepository.SortDesc` | xo-opportunity-trader/src/main/java/com/gtc/opportunity/trader/repository/TradeRepository.java:42 | ORDER BY … DESC: the result is sorted newest first and is a permutation of the input |
| `TradeRepository.FindByStatusInAndStatusUpdatedBefore` | xo-opportunity-trader/src/main/java/com/gtc/opportunity/trader/repository/TradeRepository.java:39-46 | every row with status in the set, `statusUpdated <= lastUpdate` (inclusive) and matching enabled flag, as often as in the ledger, and no other row; sorted by `statusUpdated` descending |
| `TradeRepository.StaleQueryReturnsOnce` | xo-opportunity-trader/src/main/java/com/gtc/opportunity/trader/repository/TradeRepository.java:39-46 | over a unique-id ledger the staleness query returns each matching row's id exactly once and a non-matching row's id never |
| `TradeRepository.FindNnSlaveByStatusInAndStatusUpdatedBefore` | xo-opportunity-trader/src/main/java/com/gtc/opportunity/trader/repository/TradeRepository.java:48-57 | exactly the stale rows that belong to an NN order and depend on a master, sorted by `statusUpdated` descending |
| `TradeRepository.FindNnMasterByStatusInAndRecordedOnBefore` | xo-opportunity-trader/src/main/java/com/gtc/opportunity/trader/repository/TradeRepository.java:59-68 | exactly the rows recorded at or before the cut-off that belong to an NN order and depend on no master, sorted by `recordedOn` descending |
| `TradeRepository.NnSlaveAndMasterDisjoint` | xo-opportunity-trader/src/main/java/com/gtc/opportunity/trader/repository/TradeRepository.java:48-68 | no row is returned by both the NN slave and the NN master query |
| `TradeRepository.TradeBalanceWithSide` | xo-opportunity-trader/src/main/java/com/gtc/opportunity/trader/repository/TradeRepository.java:74-80 | COALESCE: the sum is 0 when no row of that client and pair, in the statuses and not `ignoreAsSideLimit`, exists |
| `TradeRepository.TradeBalanceWithSideAppend` | xo-opportunity-trader/src/main/java/com/gtc/opportunity/trader/repository/TradeRepository.java:74-80 | adding a row adds its `openingAmount` when it counts toward the side and nothing otherwise |
| `TradeRepository.BuyLock` | xo-opportunity-trader/src/main/java/com/gtc/opportunity/trader/repository/TradeRepository.java:82-84 | a row outside the wallet, the statuses or with `openingAmount <= 0` locks nothing; a buy at a non-negative price locks a non-negative amount |
| `TradeRepository.LockedByBuyTradesWithStatus` | xo-opportunity-trader/src/main/java/com/gtc/opportunity/trader/repository/TradeRepository.java:82-84 | 0 when no row locks; non-negative when every locking row has a non-negative price |
| `TradeRepository.LockedByBuyAppend` | xo-opportunity-trader/src/main/java/com/gtc/opportunity/trader/repository/TradeRepository.java:82-84 | adding a row adds exactly its buy lock `openingAmount * openingPrice` (0 when it does not lock) |
| `TradeRepository.LockedBySellTradesWithStatus` | xo-opportunity-trader/src/main/java/com/gtc/opportunity/trader/repository/TradeRepository.java:86-88 | the sell lock is never negative, and 0 when no row of the wallet with the statuses sells |
| `TradeRepository.LockedBySellAppend` | xo-opportunity-trader/src/main/java/com/gtc/opportunity/trader/repository/TradeRepository.java:86-88 | adding a selling row adds `-openingAmount`; any other row adds nothing |
| `TradeRepository.FindDependantsByMasterStatus` | xo-opportunity-trader/src/main/java/com/gtc/opportunity/trader/repository/TradeRepository.java:93-97 | exactly the rows in the dependent statuses whose master exists and is in the master statuses, as often as in the ledger; a row without a master never matches |
| `TradeRepository.DependantOfMaster` | xo-opportunity-trader/src/main/java/com/gtc/opportunity/trader/repository/TradeRepository.java:93-97 | with unique ids, a row depending on `master` is returned if and only if its status and its master's status qualify |
| `Reasons.Ordinal` | xo-opportunity-trader/src/main/java/com/gtc/opportunity/trader/service/xoopportunity/creation/fastexception/Reason.java:12-25 | every reason sits at its declaration position in the list of all reasons |
| `Reasons.Msg` | xo-opportunity-trader/src/main/java/com/gtc/opportunity/trader/service/xoopportunity/creation/fastexception/Reason.java:12-27 | every reason has a non-empty message whose length and first letter (its `Signature`) tell it apart from every other reason's message |
| `Reasons.ReasonCount` | xo-opportunity-trader/src/main/java/com/gtc/opportunity/trader/service/xoopportunity/creation/fastexception/Reason.java:12-25 | there are exactly fourteen reasons, each listed once |
| `Reasons.ReasonOfMsg` | xo-opportunity-trader/src/main/java/com/gtc/opportunity/trader/service/xoopportunity/creation/fastexception/Reason.java:12-27 | a reason recovered from a message has that message; none is recovered only when no listed reason has it |
| `Reasons.MsgRoundTrip` | xo-opportunity-trader/src/main/java/com/gtc/opportunity/trader/service/xoopportunity/creation/fastexception/Reason.java:12-27 | each reason's message recovers the reason |
| `Reasons.MsgInjective` | xo-opportunity-trader/src/main/java/com/gtc/opportunity/trader/service/xoopportunity/creation/fastexception/Reason.java:12-27 | distinct reasons have distinct messages |
| `Checker.ValidateAtLeast` | xo-opportunity-trader/src/main/java/com/gtc/opportunity/trader/service/xoopportunity/creation/Checker.java:13-19 | passes if and only if `value >= threshold`; otherwise a rejection with the given reason, value and threshold |
| `Checker.ValidateAtLeastAtBoundary` | xo-opportunity-trader/src/main/java/com/gtc/opportunity/trader/service/xoopportunity/creation/Checker.java:14 | a value equal to the threshold passes |
| `Checker.ValidateAtLeastMonotone` | xo-opportunity-trader/src/main/java/com/gtc/opportunity/trader/service/xoopportunity/creation/Checker.java:13-19 | raising the value or lowering the threshold keeps a pass |
| `TotalAmountTradeLimiter.SideBalance` | xo-opportunity-trader/src/main/java/com/gtc/opportunity/trader/service/xoopportunity/creation/TotalAmountTradeLimiter.java:28-30 | the candidate's pre-trade exposure is the side balance over its own client and pair in the side-limit statuses; 0 when no such row counts |
| `TotalAmountTradeLimiter.CanProceed` | xo-opportunity-trader/src/main/java/com/gtc/opportunity/trader/service/xoopportunity/creation/TotalAmountTradeLimiter.java:26-41 | NO_CONFIG exactly when the symbol has no configuration; otherwise admitted if and only if the trade reduces `abs` of the side balance or the pre-trade `abs(balance) <= cap` |
| `TotalAmountTradeLimiter.NoConfigRejectsEvenReducing` | xo-opportunity-trader/src/main/java/com/gtc/opportunity/trader/service/xoopportunity/creation/TotalAmountTradeLimiter.java:31-32 | the missing-configuration rejection comes before the reduction test |
| `TotalAmountTradeLimiter.ReducingTradeAdmitted` | xo-opportunity-trader/src/main/java/com/gtc/opportunity/trader/service/xoopportunity/creation/TotalAmountTradeLimiter.java:34-38 | a configured trade that reduces exposure is admitted whatever the cap |
| `TotalAmountTradeLimiter.NonReducingTradeDecidedByPreTradeBalance` | xo-opportunity-trader/src/main/java/com/gtc/opportunity/trader/service/xoopportunity/creation/TotalAmountTradeLimiter.java:40 | a non-reducing trade is admitted exactly when the pre-trade balance is within the cap |
| `TotalAmountTradeLimiter.OverCapRefusesNonReducing` | xo-opportunity-trader/src/main/java/com/gtc/opportunity/trader/service/xoopportunity/creation/TotalAmountTradeLimiter.java:40 | past the cap, every non-reducing trade is refused |
| `TotalAmountTradeLimiter.AdmissionMonotoneInCap` | xo-opportunity-trader/src/main/java/com/gtc/opportunity/trader/service/xoopportunity/creation/TotalAmountTradeLimiter.java:40 | raising the cap never turns an admission into a refusal |
| `TotalAmountTradeLimiter.IgnoredRowDoesNotChangeDecision` | xo-opportunity-trader/src/main/java/com/gtc/opportunity/trader/service/xoopportunity/creation/TotalAmountTradeLimiter.java:28-30 | a row flagged `ignoreAsSideLimit`, or of another client or pair, does not change the decision |
| `TotalAmountTradeLimiter.SideLimitScenario` | xo-opportunity-trader/src/main/java/com/gtc/opportunity/trader/service/xoopportunity/creation/TotalAmountTradeLimiter.java:26-41 | cap 1000, balance 900: buys of 50 and 200 and a sell of 950 are admitted; from 1100 a buy of 1 is refused |
| `Gateway.Commander.ListOpenOrders` | xo-opportunity-trader/src/main/java/com/gtc/opportunity/trader/service/scheduled/trade/management/OrderUpdater.java:75-82 | appends one list-open command with the client name and both currencies |
| `Gateway.Commander.GetOrder` | xo-opportunity-trader/src/main/java/com/gtc/opportunity/trader/service/scheduled/trade/management/OrderUpdater.java:96-104 | appends one get-order command with the client name and the assigned order id |
| `StateMachines.StateMachineService.AcquireStateMachine` | xo-opportunity-trader/src/main/java/com/gtc/opportunity/trader/service/scheduled/trade/management/OrderUpdater.java:116 | records the checkout of the machine with that key |
| `StateMachines.StateMachineService.SendEvent` | xo-opportunity-trader/src/main/java/com/gtc/opportunity/trader/service/scheduled/trade/management/OrderUpdater.java:117 | records the event sent to the machine |
| `StateMachines.StateMachineService.ReleaseStateMachine` | xo-opportunity-trader/src/main/java/com/gtc/opportunity/trader/service/scheduled/trade/management/OrderUpdater.java:118 | records the hand-back of the machine |
| `StateMachines.BracketedBalances` | xo-opportunity-trader/src/main/java/com/gtc/opportunity/trader/service/scheduled/trade/management/OrderUpdater.java:116-118 | a log of complete checkouts has as many releases as acquisitions |
| `Shuffling.Shuffle` | xo-opportunity-trader/src/main/java/com/gtc/opportunity/trader/service/scheduled/trade/management/OrderUpdater.java:73 | the shuffled list is a permutation of the original |
| `Shuffling.ListOf` | xo-opportunity-trader/src/main/java/com/gtc/opportunity/trader/service/scheduled/trade/management/OrderUpdater.java:68-70 | the list copy of a set holds each element exactly once |
| `Reconciler.GroupByClient` | xo-opportunity-trader/src/main/java/com/gtc/opportunity/trader/service/scheduled/trade/management/OrderUpdater.java:91-92 | the groups' keys are exactly the clients with orders (no empty group), and each group is exactly that client's orders in query order |
| `Reconciler.OrderUpdater.constructor` | xo-opportunity-trader/src/main/java/com/gtc/opportunity/trader/service/scheduled/trade/management/OrderUpdater.java:40-61 | the bulk and stuck intervals are configured in seconds and kept in milliseconds (`* 1000`) |
| `Reconciler.OrderUpdater.BulkUpdateOrderStatus` | xo-opportunity-trader/src/main/java/com/gtc/opportunity/trader/service/scheduled/trade/management/OrderUpdater.java:63-83 | exactly one list-open command per stale (client, pair) symbol, in some order, and nothing else; no machine touched |
| `Reconciler.OrderUpdater.SendListOpen` | xo-opportunity-trader/src/main/java/com/gtc/opportunity/trader/service/scheduled/trade/management/OrderUpdater.java:74-83 | the loop sends one list-open command per symbol of the shuffled array, in array order |
| `Reconciler.ListOpenOnce` | xo-opportunity-trader/src/main/java/com/gtc/opportunity/trader/service/scheduled/trade/management/OrderUpdater.java:68-83 | listing each symbol of a set once yields exactly one list-open command per symbol and nothing else |
| `Reconciler.OrderUpdater.StuckUpdateOrderStatus` | xo-opportunity-trader/src/main/java/com/gtc/opportunity/trader/service/scheduled/trade/management/OrderUpdater.java:85-106 | only get-order commands; for every client, `min(max, stale orders of the client)` of them, each for a distinct stale order of that client; no machine touched |
| `Reconciler.OrderUpdater.CheckStuck` | xo-opportunity-trader/src/main/java/com/gtc/opportunity/trader/service/scheduled/trade/management/OrderUpdater.java:93-105 | the per-client loop over the grouping, in any client order, serves every client as above |
| `Reconciler.OrderUpdater.CheckClientOrders` | xo-opportunity-trader/src/main/java/com/gtc/opportunity/trader/service/scheduled/trade/management/OrderUpdater.java:95-104 | shuffles the group and sends get-order commands for its first `min(max, size)` orders |
| `Reconciler.OrderUpdater.SendGetOrders` | xo-opportunity-trader/src/main/java/com/gtc/opportunity/trader/service/scheduled/trade/management/OrderUpdater.java:96-104 | the loop sends get-order commands for exactly the first `n` orders of the shuffled array, in order |
| `Reconciler.SmallClientFullyServed` | xo-opportunity-trader/src/main/java/com/gtc/opportunity/trader/service/scheduled/trade/management/OrderUpdater.java:96 | a client with no more stale orders than the cap gets a get-order for every one of them, each once |
| `Reconciler.OrderUpdater.OrderTimeouter` | xo-opportunity-trader/src/main/java/com/gtc/opportunity/trader/service/scheduled/trade/management/OrderUpdater.java:108-120 | the machine log grows by one acquire/TIMEOUT/release per stale UNKNOWN trade of an enabled client, in query order; no command sent |
| `Reconciler.OrderUpdater.SendTimeouts` | xo-opportunity-trader/src/main/java/com/gtc/opportunity/trader/service/scheduled/trade/management/OrderUpdater.java:115-119 | the loop appends one checkout per due trade, in order |
| `Reconciler.TimeoutOpsConcat` | xo-opportunity-trader/src/main/java/com/gtc/opportunity/trader/service/scheduled/trade/management/OrderUpdater.java:115-119 | the sweep over `a + b` is the sweep over `a` followed by the sweep over `b` |
| `Reconciler.TimeoutOpsBracketed` | xo-opportunity-trader/src/main/java/com/gtc/opportunity/trader/service/scheduled/trade/management/OrderUpdater.java:116-118 | the sweep's log is a sequence of complete checkouts; acquisitions equal releases |
| `Reconciler.TimeoutSendCount` | xo-opportunity-trader/src/main/java/com/gtc/opportunity/trader/service/scheduled/trade/management/OrderUpdater.java:115-119 | a machine gets as many TIMEOUTs as due trades carry its id, and never CANCELLED |
| `Reconciler.TimeoutDueOnce` | xo-opportunity-trader/src/main/java/com/gtc/opportunity/trader/service/scheduled/trade/management/OrderUpdater.java:112-114 | the sweep's query holds a UNKNOWN, enabled, `orderTimeoutS`-stale trade's id once and any other row's id never |
| `Reconciler.TimeoutExactlyOnce` | xo-opportunity-trader/src/main/java/com/gtc/opportunity/trader/service/scheduled/trade/management/OrderUpdater.java:111-120 | with unique ids, exactly one TIMEOUT to each stale UNKNOWN trade of an enabled client, none to any other trade |
| `Reconciler.OpenedNeverTimedOut` | xo-opportunity-trader/src/main/java/com/gtc/opportunity/trader/service/scheduled/trade/management/OrderUpdater.java:114 | an OPENED trade is never sent TIMEOUT |
| `Reconciler.TimeoutNothingToStrangers` | xo-opportunity-trader/src/main/java/com/gtc/opportunity/trader/service/scheduled/trade/management/OrderUpdater.java:113-119 | no TIMEOUT goes to an id that no ledger row carries |
| `SlavePushing.ExpiresAt` | xo-opportunity-trader/src/main/java/com/gtc/opportunity/trader/service/scheduled/trade/management/NnSlaveOrderPusher.java:81 | the expiry instant lies exactly `maxSlaveDelayM` whole minutes after `recordedOn`, and not before it unless the delay is negative |
| `SlavePushing.IsExpired` | xo-opportunity-trader/src/main/java/com/gtc/opportunity/trader/service/scheduled/trade/management/NnSlaveOrderPusher.java:81-83 | with a non-positive delay every dependant recorded by now is expired; with a non-negative delay an expired dependant was recorded by now |
| `SlavePushing.ExpiredStaysExpired` | xo-opportunity-trader/src/main/java/com/gtc/opportunity/trader/service/scheduled/trade/management/NnSlaveOrderPusher.java:81-83 | once expired, a dependant stays expired at every later instant |
| `SlavePushing.OutcomeOf` | xo-opportunity-trader/src/main/java/com/gtc/opportunity/trader/service/scheduled/trade/management/NnSlaveOrderPusher.java:48-72 | no config exactly when the symbol has no NN config; expired exactly when configured and expired; every other outcome is configured and unexpired; the handler throwing gives PublishFailed; CONTINUE exactly when the handler returns true and the trade has an NN order, whose id it carries |
| `SlavePushing.EffectsOf` | xo-opportunity-trader/src/main/java/com/gtc/opportunity/trader/service/scheduled/trade/management/NnSlaveOrderPusher.java:48-72 | one dependant yields CANCELLED if and only if expired, a handler call if and only if configured and unexpired, CONTINUE if and only if published with an NN order; expired excludes both others; an expiry is exactly one CANCELLED checkout, a publish exactly one CONTINUE checkout to its order's machine, an attempt exactly one handler call |
| `SlavePushing.PushEffectsConcat` | xo-opportunity-trader/src/main/java/com/gtc/opportunity/trader/service/scheduled/trade/management/NnSlaveOrderPusher.java:42-45 | handling is per dependant: the run over `a + b` is the run over `a` then over `b`, so one dependant's failure does not affect the others |
| `SlavePushing.PushEffectsBracketed` | xo-opportunity-trader/src/main/java/com/gtc/opportunity/trader/service/scheduled/trade/management/NnSlaveOrderPusher.java:60-88 | both machine logs of a run are complete checkouts with as many releases as acquisitions |
| `SlavePushing.AttemptsCount` | xo-opportunity-trader/src/main/java/com/gtc/opportunity/trader/service/scheduled/trade/management/NnSlaveOrderPusher.java:52-58 | the handler sees a dependant as often as it occurs if it is configured and unexpired, never otherwise |
| `SlavePushing.CancelCount` | xo-opportunity-trader/src/main/java/com/gtc/opportunity/trader/service/scheduled/trade/management/NnSlaveOrderPusher.java:81-88 | a trade's machine gets CANCELLED as often as the trade occurs if it is expired, never otherwise |
| `SlavePushing.ContinuesMatchOrders` | xo-opportunity-trader/src/main/java/com/gtc/opportunity/trader/service/scheduled/trade/management/NnSlaveOrderPusher.java:60-66 | every CONTINUE goes to the machine named by the order id in its header, and order `k` gets one if and only if some dependant with NN order `k` was published |
| `SlavePushing.ContinueCount` | xo-opportunity-trader/src/main/java/com/gtc/opportunity/trader/service/scheduled/trade/management/NnSlaveOrderPusher.java:56-66 | NN order `k`'s machine gets exactly as many CONTINUEs as there are dependants published with NN order `k` |
| `SlavePushing.ExpiredCancelledOnce` | xo-opportunity-trader/src/main/java/com/gtc/opportunity/trader/service/scheduled/trade/management/NnSlaveOrderPusher.java:41-46 | with unique ids, a run sends exactly one CANCELLED to each expired dependant of a closed master, none to any other trade |
| `SlavePushing.HandlerAskedOnce` | xo-opportunity-trader/src/main/java/com/gtc/opportunity/trader/service/scheduled/trade/management/NnSlaveOrderPusher.java:52-56 | with unique ids, the handler is asked once about each configured, unexpired dependant of a closed master, never about an expired one |
| `SlavePushing.ExpiryBoundary` | xo-opportunity-trader/src/main/java/com/gtc/opportunity/trader/service/scheduled/trade/management/NnSlaveOrderPusher.java:81-83 | a dependant is expired at `recordedOn + maxSlaveDelayM` minutes exactly and not one millisecond before |
| `SlavePushing.DependencyHandler.PublishDependentOrderIfPossible` | xo-opportunity-trader/src/main/java/com/gtc/opportunity/trader/service/scheduled/trade/management/NnSlaveOrderPusher.java:56 | returns the handler's decision for the trade and records the call |
| `SlavePushing.NnSlaveOrderPusher.PushOrders` | xo-opportunity-trader/src/main/java/com/gtc/opportunity/trader/service/scheduled/trade/management/NnSlaveOrderPusher.java:38-46 | the three logs grow by exactly the effects of handling each dependant of a closed master in query order |
| `SlavePushing.NnSlaveOrderPusher.PushAll` | xo-opportunity-trader/src/main/java/com/gtc/opportunity/trader/service/scheduled/trade/management/NnSlaveOrderPusher.java:45 | the loop over the dependants accumulates each one's effects in order |
| `SlavePushing.NnSlaveOrderPusher.AckAndCreateOrders` | xo-opportunity-trader/src/main/java/com/gtc/opportunity/trader/service/scheduled/trade/management/NnSlaveOrderPusher.java:48-72 | the outcome and the effects recorded are those of `EffectsOf`: nothing for a missing config, CANCELLED for an expired trade, a handler call otherwise, and CONTINUE only when published with an NN order |
| `SlavePushing.NnSlaveOrderPusher.CheckForExpirationAndExpireIfNeeded` | xo-opportunity-trader/src/main/java/com/gtc/opportunity/trader/service/scheduled/trade/management/NnSlaveOrderPusher.java:74-90 | fails with "No config" exactly when the symbol has no NN config; otherwise true if and only if expired, and only then is CANCELLED delivered under checkout |

## Left out

- StateMachines.StateMachineService.SendEvent, StateMachines.StateMachineService.AcquireStateMachine, StateMachines.StateMachineService.ReleaseStateMachine, Gateway.Commander.ListOpenOrders, Gateway.Commander.GetOrder: these services are taken never to fail. In the code, acquire/send/release has no try/finally, so an exception from `sendEvent` leaves the machine checked out. In the pusher the per-dependant catch swallows it and the run goes on; in the timeout sweep and the two commander jobs it ends the rest of the run. The model does not capture this. `Reconciler.TimeoutOpsBracketed`, `SlavePushing.PushEffectsBracketed`, `Reconciler.TimeoutExactlyOnce` and `SlavePushing.ExpiredCancelledOnce` hold for failure-free runs only. The caught failures that are modelled are the missing NN config, the handler throwing, and a dependant without an NN order.
- The trade state machines' transition tables are not part of this model. TIMEOUT and CANCELLED are modelled as events delivered under checkout; what a machine then does with them is not modelled.
- The dependency handler's decision is an oracle (`decide`): publish, not yet, or throw. Its own logic (the fill check, saving the dependant) is not part of this model.
- Command ids (`UuidGenerator`) are random and are not modelled. Logging, thread renaming and New Relic tracing are left out.
- Scheduling (`@Scheduled`), transactions (`@Transactional`) and concurrency between jobs are left out. Each job is one sequential run over a ledger snapshot.
- The clock is a parameter `now`, read once per run. `NnSlaveOrderPusher` reads the database clock once per dependant; the model takes all reads within one run to agree. `CurrentTimestamp` is not part of this model.
- The configuration caches are maps from symbol to configuration. In `canProceed`, a configuration whose XO part is null would throw NullPointerException; this is not modelled.
- Reconciler.OrderUpdater.CheckClientOrders: the cap `maxToCheckStuckPerClient` is a `nat`. A negative value, for which `Stream.limit` throws, is not modelled.
- `findDependantsByMasterStatus` has no ORDER BY. The model returns the dependants in ledger order, while the database may return them in any order. The count lemmas (`ExpiredCancelledOnce`, `HandlerAskedOnce`) do not depend on this order.
- Database tie-breaking under ORDER BY … DESC is unspecified. The model sorts stably, by insertion.
- SQL NULL for the amount columns is not modelled; amounts are always present.
- Floating point (`double` in `validateAtLeast`) is modelled as reals, without NaN or rounding.
- Not part of this model: the rest of `TradeRepository` (`findByXoOrderId`, `findByAssignedId`, the counters, `findByXoOrderNotNull`, `findByNnOrderNotNull`, `findByDependsOn`), the full TradeStatus enumeration and the NN_OPPORTUNITY_PREFIX string. The NN machine key is the NN order id itself.
- Also not part of this model: the WebSocket client, the NN solver and predictor, the replenishment service, the withdraw command and the NN market-data client.
