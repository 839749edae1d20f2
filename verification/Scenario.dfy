/** Small concrete markets of one symbol, for runs that show where a property stops. */
module Scenario {
  import opened Prelude
  import opened Engine
  import opened Episode

  /** No costs, no borrow rate, no limits: full allocation at the open, starting at the first row. */
  function Plain(maxSteps: int): EnvConfig {
    EnvConfig(maxSteps, 0.0, 1.0, 0.0, 8760.0, 0, false, 0, 0.0, 1, 1, 0.0, 0.0, 0.0, 1.0, 1, 0.0, 0.0, 0, 0)
  }

  function FlatBar(price: real): Bar { Bar(price, price, price, price, 1.0) }

  /** One symbol without features, at one price a bar. */
  function OneSymbol(prices: seq<real>): MarketData {
    MarketData(1, seq(|prices|, _ => []), seq(|prices|, t requires 0 <= t < |prices| => [FlatBar(prices[t])]), None)
  }

  lemma OneSymbolIsValid(prices: seq<real>)
    requires prices != []
    ensures OneSymbol(prices).Valid() && OneSymbol(prices).T() == |prices|
  {
  }

  const LONG := 1
  const SHORT := 2

  /** Configurations that trade like the plain one at the first bar. */
  predicate PlainOrders(cfg: EnvConfig) {
    && cfg.feeRate == 0.0 && cfg.maxLeverage == 1.0 && cfg.allocationBins == 1 && cfg.levelBins == 1
    && cfg.slippageBps == 0.0 && cfg.bufferBps == 0.0 && cfg.fillProbability == 1.0 && cfg.guardBps == 0.0
    && cfg.forcedOffset == 0
  }

  lemma DecodesSides(cfg: EnvConfig)
    requires PlainOrders(cfg)
    ensures SideBlock(cfg, 1) == 1
    ensures Decode(cfg, 1, LONG) == Enter(false, 0, 0, 0) && Decode(cfg, 1, SHORT) == Enter(true, 0, 0, 0)
  {
  }

  /** The size of a first order at a price of 100. */
  lemma FirstOrder(cfg: EnvConfig, isBuy: bool)
    requires PlainOrders(cfg)
    ensures OrderSize(cfg, FlatBar(100.0), INITIAL_CASH, 1.0, 0.0, isBuy) == Some((100.0, 100.0))
  {
    assert LimitPrice(FlatBar(100.0), 0.0) == 100.0;
    assert LimitFill(cfg, FlatBar(100.0), 100.0, isBuy) == Some(100.0);
    assert Budget(cfg, INITIAL_CASH, 1.0) == 10000.0 && UnitCost(cfg, 100.0) == 100.0;
  }

  /** A first order from a fresh account at 100: a hundred shares, bought or sold short. */
  lemma FirstTrade(cfg: EnvConfig, a: Agent, isShort: bool, word: nat)
    requires PlainOrders(cfg) && WellFormed(a, 1) && a.pos < 0 && a.cash == INITIAL_CASH
    ensures TradeBar(cfg, [FlatBar(100.0)], None, a, if isShort then SHORT else LONG, word) ==
            Traded(a.(cash := if isShort then 20000.0 else 0.0, pos := if isShort then 1 else 0,
                      qty := 100.0, entry := 100.0, hold := 0), 0, 1)
  {
    hide Decode, OrderSize;
    DecodesSides(cfg);
    FirstOrder(cfg, !isShort);
    assert EntryCost(cfg, 100.0, 100.0) == 10000.0 && ShortProceeds(cfg, 100.0, 100.0) == 10000.0;
  }
}
