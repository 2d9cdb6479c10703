/**
 * Side-exposure admission: may a candidate trade be opened, given the signed
 * balance of its client and pair and the configured single-side cap?
 *
 * The cap is compared with the balance BEFORE the candidate, so one trade may
 * carry the balance past the cap; after that only exposure-reducing trades
 * pass. A missing client configuration is a `NO_CONFIG` rejection, decided
 * before the reduction test.
 */
module TotalAmountTradeLimiter {
  import opened Wrappers
  import opened Domain
  import opened Reasons
  import opened TradeRepository

  /** The part of a client configuration the limiter reads: its single-side cap. */
  datatype ClientConfig = ClientConfig(singleSideTradeLimit: real)

  /** The statuses whose trades count as exposure: UNKNOWN, OPENED, CLOSED, DONE_MAN. */
  const SideLimitStatuses: set<TradeStatus> := {Unknown, Opened, Closed, DoneMan}

  function Abs(x: real): real {
    if x < 0.0 then -x else x
  }

  /** The candidate's pre-trade exposure: the side balance of its client and pair. */
  function SideBalance(ledger: seq<Trade>, trade: Trade): (r: real)
    ensures (forall t :: t in ledger ==> !CountsTowardSide(t, trade.client, trade.currencyFrom, trade.currencyTo, SideLimitStatuses))
            ==> r == 0.0
  {
    TradeBalanceWithSide(ledger, trade.client, trade.currencyFrom, trade.currencyTo, SideLimitStatuses)
  }

  /** Whether the candidate's amount shrinks the magnitude of the balance `bal`. */
  predicate Reduces(bal: real, amount: real) {
    Abs(bal + amount) < Abs(bal)
  }

  /**
   * The admission decision: `Success(true)` admits, `Success(false)` refuses,
   * `Failure(Rejected(NoConfig))` is the missing-configuration rejection.
   * The ledger is only read.
   */
  function CanProceed(ledger: seq<Trade>, trade: Trade, configs: map<Symbol, ClientConfig>): (r: Result<bool, Rejection>)
    ensures SymbolOf(trade) !in configs <==> r == Failure(Rejected(NoConfig))
    ensures r.Success? ==>
              (r.value <==> Reduces(SideBalance(ledger, trade), trade.amount)
                            || Abs(SideBalance(ledger, trade)) <= configs[SymbolOf(trade)].singleSideTradeLimit)
  {
    var bal := SideBalance(ledger, trade);
    if SymbolOf(trade) !in configs then Failure(Rejected(NoConfig))
    else
      var cfg := configs[SymbolOf(trade)];
      var newBal := bal + trade.amount;
      if Abs(newBal) < Abs(bal) then Success(true)
      else Success(cfg.singleSideTradeLimit >= Abs(bal))
  }

  /** Without a configuration the candidate is rejected even if it would reduce exposure. */
  lemma NoConfigRejectsEvenReducing(ledger: seq<Trade>, trade: Trade, configs: map<Symbol, ClientConfig>)
    requires SymbolOf(trade) !in configs
    requires Reduces(SideBalance(ledger, trade), trade.amount)
    ensures CanProceed(ledger, trade, configs) == Failure(Rejected(NoConfig))
  {
  }

  /** With a configuration, a trade that reduces exposure is admitted whatever the cap. */
  lemma ReducingTradeAdmitted(ledger: seq<Trade>, trade: Trade, configs: map<Symbol, ClientConfig>)
    requires SymbolOf(trade) in configs
    requires Reduces(SideBalance(ledger, trade), trade.amount)
    ensures CanProceed(ledger, trade, configs) == Success(true)
  {
  }

  /**
   * A trade that does not reduce exposure (equal magnitude included) is
   * admitted exactly when the pre-trade balance is within the cap.
   */
  lemma NonReducingTradeDecidedByPreTradeBalance(ledger: seq<Trade>, trade: Trade, configs: map<Symbol, ClientConfig>)
    requires SymbolOf(trade) in configs
    requires !Reduces(SideBalance(ledger, trade), trade.amount)
    ensures CanProceed(ledger, trade, configs)
         == Success(Abs(SideBalance(ledger, trade)) <= configs[SymbolOf(trade)].singleSideTradeLimit)
  {
  }

  /** Once the balance is past the cap, every non-reducing trade is refused. */
  lemma OverCapRefusesNonReducing(ledger: seq<Trade>, trade: Trade, configs: map<Symbol, ClientConfig>)
    requires SymbolOf(trade) in configs
    requires Abs(SideBalance(ledger, trade)) > configs[SymbolOf(trade)].singleSideTradeLimit
    requires !Reduces(SideBalance(ledger, trade), trade.amount)
    ensures CanProceed(ledger, trade, configs) == Success(false)
  {
  }

  /** Raising the cap never turns an admission into a refusal. */
  lemma AdmissionMonotoneInCap(ledger: seq<Trade>, trade: Trade, configs: map<Symbol, ClientConfig>, higher: real)
    requires SymbolOf(trade) in configs
    requires higher >= configs[SymbolOf(trade)].singleSideTradeLimit
    requires CanProceed(ledger, trade, configs) == Success(true)
    ensures CanProceed(ledger, trade, configs[SymbolOf(trade) := ClientConfig(higher)]) == Success(true)
  {
  }

  /**
   * Rows the decision ignores: adding a row flagged `ignoreAsSideLimit`, or one
   * of another client or pair, leaves the decision unchanged.
   */
  lemma IgnoredRowDoesNotChangeDecision(
    ledger: seq<Trade>, extra: Trade, trade: Trade, configs: map<Symbol, ClientConfig>)
    requires extra.ignoreAsSideLimit || SymbolOf(extra) != SymbolOf(trade)
    ensures CanProceed(ledger + [extra], trade, configs) == CanProceed(ledger, trade, configs)
  {
    TradeBalanceWithSideAppend(ledger, extra, trade.client, trade.currencyFrom, trade.currencyTo, SideLimitStatuses);
  }

  /** An open buy of client "X" on BTC/USD with the given opening amount. */
  function ScenarioTrade(id: TradeId, amount: real): Trade {
    Trade(id, "X", true, "BTC", "USD", Wallet("X", "BTC"), amount, amount, 1.0,
          Opened, 0, 0, None, false, None, None)
  }

  /**
   * Cap 1000 and an open balance of 900: buys of 50 and of 200 are both
   * admitted (the 200 carries the balance to 1100, past the cap), a sell of
   * 950 is admitted as a reduction, and from 1100 a further buy of 1 is refused.
   */
  lemma SideLimitScenario()
    ensures var configs := map[Symbol("X", "BTC", "USD") := ClientConfig(1000.0)];
            var ledger := [ScenarioTrade("t1", 900.0)];
            && CanProceed(ledger, ScenarioTrade("c1", 50.0), configs) == Success(true)
            && CanProceed(ledger, ScenarioTrade("c2", 200.0), configs) == Success(true)
            && CanProceed(ledger, ScenarioTrade("c3", -950.0), configs) == Success(true)
            && CanProceed(ledger + [ScenarioTrade("c2", 200.0)], ScenarioTrade("c4", 1.0), configs) == Success(false)
  {
    var ledger := [ScenarioTrade("t1", 900.0)];
    var c := ScenarioTrade("c4", 1.0);
    assert SideBalance(ledger, c) == 900.0;
    TradeBalanceWithSideAppend(ledger, ScenarioTrade("c2", 200.0), "X", "BTC", "USD", SideLimitStatuses);
  }
}
