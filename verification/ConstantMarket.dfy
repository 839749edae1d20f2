/** No profit from nothing: in a market where nothing moves, no action sequence, long or short, levered
    or not, at any limit offset, ever gains; and the exact price of a round trip at one bar's open. */
module ConstantMarket {
  import opened Prelude
  import opened Engine
  import opened Episode

  ghost predicate FrozenRow(row: seq<Bar>) {
    forall s :: 0 <= s < |row| ==> 0.0 < row[s].open == row[s].high == row[s].low == row[s].close
  }

  /** Every bar of each symbol is one positive price that never changes. */
  ghost predicate Frozen(md: MarketData)
    requires md.Valid()
  {
    && FrozenRow(md.prices[0])
    && forall t, s :: 0 <= t < md.T() && 0 <= s < md.numSymbols ==> md.prices[t][s] == md.prices[0][s]
  }

  ghost predicate CostsNonNegative(cfg: EnvConfig) {
    0.0 <= cfg.feeRate && 0.0 <= cfg.slippageBps && 0.0 <= cfg.bufferBps
  }

  lemma FrozenRows(md: MarketData, t: nat)
    requires md.Valid() && Frozen(md) && t < md.T()
    ensures md.prices[t] == md.prices[0]
  {
  }

  /** A frozen bar fills an order only at its own price. */
  lemma FillsAtPrice(cfg: EnvConfig, bar: Bar, target: real, isBuy: bool)
    requires CostsNonNegative(cfg) && 0.0 < target
    requires 0.0 < bar.open == bar.high == bar.low == bar.close
    requires LimitFill(cfg, bar, target, isBuy).Some?
    ensures LimitFill(cfg, bar, target, isBuy).value == bar.open
  {
    var b, s := cfg.bufferBps / 10000.0, cfg.slippageBps / 10000.0;
    if isBuy {
      MulMono(1.0 - b, 1.0, target);
      MulMono(1.0, 1.0 + s, target);
    } else {
      MulMono(1.0, 1.0 + b, target);
      MulMono(1.0 - s, 1.0, target);
    }
  }

  lemma CloseNeverGains(cfg: EnvConfig, row: seq<Bar>, a: Agent)
    requires WellFormed(a, |row|) && FrozenRow(row) && CostsNonNegative(cfg)
    ensures Equity(row, Close(cfg, row, a).0) <= Equity(row, a)
  {
    if 0 <= a.pos {
      var p := row[SymOf(a.pos, |row|)].open;
      ExitNeverGains(cfg, a.qty, p);
    }
  }

  lemma ExitNeverGains(cfg: EnvConfig, qty: real, p: real)
    requires CostsNonNegative(cfg) && 0.0 < qty && 0.0 < p
    ensures SaleProceeds(cfg, qty, p) <= qty * p <= BuyBackCost(cfg, qty, p)
  {
    var v, e := qty * p, EffectiveExitFee(cfg);
    MulMono(1.0 - e, 1.0, v);
    MulMono(1.0, 1.0 + e, v);
  }

  lemma EntryNeverGains(cfg: EnvConfig, qty: real, p: real)
    requires 0.0 <= cfg.feeRate && 0.0 < qty && 0.0 < p
    ensures ShortProceeds(cfg, qty, p) <= qty * p <= EntryCost(cfg, qty, p)
  {
    MulMono(1.0 - cfg.feeRate, 1.0, qty * p);
    MulMono(1.0, 1.0 + cfg.feeRate, p);
    MulMono(p, UnitCost(cfg, p), qty);
  }

  lemma OpenNeverGains(cfg: EnvConfig, row: seq<Bar>, a: Agent, o: Order)
    requires WellFormed(a, |row|) && FrozenRow(row) && CostsNonNegative(cfg)
    requires a.pos < 0 && o.Enter? && o.sym < |row|
    ensures Equity(row, Open(cfg, row, a, o)) <= Equity(row, a)
  {
    hide LimitFill, EntryCost, ShortProceeds, Budget, UnitCost, LimitPrice;
    var bar := row[o.sym];
    var level := LevelOffsetBps(cfg, o.levelIdx);
    var size := OrderSize(cfg, bar, a.cash, AllocationPct(cfg, o.allocIdx), level, !o.isShort);
    if size.Some? {
      FillsAtPrice(cfg, bar, LimitPrice(bar, level), !o.isShort);
      EntryNeverGains(cfg, size.value.1, bar.open);
    }
  }

  lemma TradeNeverGains(cfg: EnvConfig, row: seq<Bar>, mask: Option<seq<bool>>, a: Agent, action: int, word: nat)
    requires WellFormed(a, |row|) && (mask.Some? ==> |mask.value| == |row|)
    requires FrozenRow(row) && CostsNonNegative(cfg)
    ensures Equity(row, TradeBar(cfg, row, mask, a, action, word).agent) <= Equity(row, a)
  {
    CloseNeverGains(cfg, row, a);
    HoldKeepsEquity(row, a);
    var f := ForceClose(cfg, row, mask, a).agent;
    CloseNeverGains(cfg, row, f);
    HoldKeepsEquity(row, f);
    var o := Decode(cfg, |row|, action);
    if ReachesOpen(cfg, row, mask, f, o, word) {
      OpenNeverGains(cfg, row, Close(cfg, row, f).0, o);
    }
    hide Equity, Close, Open, Decode;
  }

  lemma HoldKeepsEquity(row: seq<Bar>, a: Agent)
    requires WellFormed(a, |row|)
    ensures Equity(row, a.(hold := a.hold + 1)) == Equity(row, a)
  {
  }

  lemma SettleNeverGains(cfg: EnvConfig, md: MarketData, a: Agent)
    requires md.Valid() && Frozen(md) && WellFormed(a, md.numSymbols)
    ensures Equity(md.prices[0], Settle(cfg, md, a).0) == Settle(cfg, md, a).1 <= Equity(md.prices[0], a)
  {
    hide BorrowFee;
    var b := a.(step := a.step + 1);
    FrozenRows(md, Clock(md, b));
  }

  /** One step: equity at the frozen prices does not rise, and an ending episode logs no gain. */
  lemma StepNeverGains(cfg: EnvConfig, md: MarketData, s: EnvState, i: Input)
    requires md.Valid() && Frozen(md) && CostsNonNegative(cfg)
    requires WellFormed(s.agent, md.numSymbols) && Equity(md.prices[0], s.agent) <= INITIAL_CASH
    ensures Equity(md.prices[0], Step(cfg, md, s, i).agent) <= INITIAL_CASH
    ensures !Step(cfg, md, s, i).terminal ==>
              Equity(md.prices[0], Step(cfg, md, s, i).agent) <= Equity(md.prices[0], s.agent)
    ensures Step(cfg, md, s, i).log.totalReturn <= s.log.totalReturn
  {
    hide TradeBar, Settle, Close, Observe, Done, Equity;
    var row := md.prices[0];
    FrozenRows(md, Clock(md, s.agent));
    TradeNeverGains(cfg, row, md.MaskRow(Clock(md, s.agent)), s.agent, i.action, i.fillWord);
    var b := TradeNow(cfg, md, s.agent, i.action, i.fillWord).agent;
    SettleNeverGains(cfg, md, b);
    var c := Settle(cfg, md, b).0;
    FrozenRows(md, Clock(md, c));
    CloseNeverGains(cfg, row, c);
    FlatEquity(row, c);
    FlatEquity(row, Close(cfg, row, c).0);
    FlatEquity(row, ResetAgent(cfg, md, i.offsetWord));
    DivMono(FinalClose(cfg, row, c).1 - INITIAL_CASH, 0.0, INITIAL_CASH);
  }

  lemma FlatEquity(row: seq<Bar>, a: Agent)
    requires WellFormed(a, |row|)
    ensures a.pos < 0 ==> Equity(row, a) == a.cash
  {
  }

  /** Over any run, through any number of episodes: equity never exceeds the starting cash and the
      logged total return is at most zero. */
  lemma {:induction false} NoProfitFromNothing(cfg: EnvConfig, md: MarketData, word: nat, inputs: seq<Input>, k: nat)
    requires md.Valid() && Frozen(md) && CostsNonNegative(cfg) && k <= |inputs|
    ensures var s := After(cfg, md, Reset(cfg, md, EMPTY_LOG, word), inputs, k);
            Equity(md.prices[0], s.agent) <= INITIAL_CASH && s.log.totalReturn <= 0.0
    ensures 0 < k && !After(cfg, md, Reset(cfg, md, EMPTY_LOG, word), inputs, k).terminal ==>
              Equity(md.prices[0], After(cfg, md, Reset(cfg, md, EMPTY_LOG, word), inputs, k).agent)
              <= Equity(md.prices[0], After(cfg, md, Reset(cfg, md, EMPTY_LOG, word), inputs, k - 1).agent)
  {
    hide Step, Observe;
    if 0 < k {
      NoProfitFromNothing(cfg, md, word, inputs, k - 1);
      StepNeverGains(cfg, md, After(cfg, md, Reset(cfg, md, EMPTY_LOG, word), inputs, k - 1), inputs[k - 1]);
    }
  }

  // ---------------------------------------------------------------- the golden round trip

  /** The fraction of the budget an open and a close at one price lose, for fee `f` and slippage `s`. */
  function RoundTripLoss(f: real, s: real): real
    requires 0.0 <= f && 0.0 <= s
  {
    RoundTripDenominator(f, s);
    (2.0 * f + 2.0 * s + f * s) / ((1.0 + f) * (1.0 + s))
  }

  lemma RoundTripDenominator(f: real, s: real)
    requires 0.0 <= f && 0.0 <= s
    ensures 1.0 <= (1.0 + f) * (1.0 + s)
  {
    MulMono(1.0, 1.0 + s, 1.0 + f);
  }

  /** Opening a long at the bar's open and closing it at the same open loses exactly this fraction of
      the budget, whatever the bar, as long as the order fills. */
  lemma RoundTripCost(cfg: EnvConfig, row: seq<Bar>, a: Agent, sym: nat, alloc: real)
    requires CostsNonNegative(cfg) && cfg.guardBps <= 0.0
    requires WellFormed(a, |row|) && a.pos < 0 && sym < |row|
    requires OpenLong(cfg, row, a, sym, alloc, 0.0).pos == sym
    ensures Close(cfg, row, OpenLong(cfg, row, a, sym, alloc, 0.0)).0.cash
            == a.cash - Budget(cfg, a.cash, alloc) * RoundTripLoss(cfg.feeRate, cfg.slippageBps / 10000.0)
  {
    hide Budget, UnitCost, Slipped, LimitFill;
    var bar := row[sym];
    var p, s := bar.open, cfg.slippageBps / 10000.0;
    assert LimitPrice(bar, 0.0) == p;
    var (fill, qty) := OrderSize(cfg, bar, a.cash, alloc, 0.0, true).value;
    var budget := Budget(cfg, a.cash, alloc);
    assert EntryCost(cfg, qty, fill) == budget;
    FilledAtSlipped(cfg, bar, p);
    SoldForBudgetLessLoss(cfg, budget, qty, p, fill);
    hide SaleProceeds, EntryCost, OrderSize, RoundTripLoss, LimitPrice;
    assert OpenLong(cfg, row, a, sym, alloc, 0.0).cash == a.cash - budget;
  }

  lemma FilledAtSlipped(cfg: EnvConfig, bar: Bar, target: real)
    requires LimitFill(cfg, bar, target, true).Some?
    ensures LimitFill(cfg, bar, target, true).value == Slipped(cfg, target, true)
  {
  }

  lemma SoldForBudgetLessLoss(cfg: EnvConfig, budget: real, qty: real, p: real, fill: real)
    requires CostsNonNegative(cfg) && 0.0 < p && fill == Slipped(cfg, p, true)
    requires EntryCost(cfg, qty, fill) == budget
    ensures SaleProceeds(cfg, qty, p) == budget - budget * RoundTripLoss(cfg.feeRate, cfg.slippageBps / 10000.0)
  {
    var f, s := cfg.feeRate, cfg.slippageBps / 10000.0;
    assert fill == p * (1.0 + s);
    assert UnitCost(cfg, fill) == p * (1.0 + s) * (1.0 + f);
    RoundTripAlgebra(budget, qty, p, f, s);
  }

  lemma RoundTripAlgebra(budget: real, qty: real, p: real, f: real, s: real)
    requires 0.0 < p && 0.0 <= f && 0.0 <= s
    requires qty * (p * (1.0 + s) * (1.0 + f)) == budget
    ensures qty * p * (1.0 - (f + s)) == budget - budget * RoundTripLoss(f, s)
  {
    var v, d, n := qty * p, (1.0 + f) * (1.0 + s), 2.0 * f + 2.0 * s + f * s;
    RoundTripDenominator(f, s);
    assert budget == v * d;
    assert d - n == 1.0 - (f + s);
    assert budget * (n / d) == v * n by { assert (n / d) * d == n; }
  }

  /** It is never more than twice the fee plus the slippage. */
  lemma RoundTripBound(f: real, s: real)
    requires 0.0 <= f && 0.0 <= s
    ensures 0.0 <= RoundTripLoss(f, s) <= 2.0 * (f + s)
  {
    var e, g := f + s, f * s;
    var d, n := (1.0 + f) * (1.0 + s), 2.0 * f + 2.0 * s + f * s;
    RoundTripDenominator(f, s);
    MulNonNeg(f, s);
    MulNonNeg(f, f);
    MulNonNeg(s, s);
    MulNonNeg(e, g);
    assert d == 1.0 + e + g;
    assert e * e == f * f + 2.0 * g + s * s;
    assert e * d == e + e * e + e * g;
    DivMono(n, 2.0 * (e * d), d);
    DivMono(0.0, n, d);
    assert 2.0 * (e * d) / d == 2.0 * e;
  }

  /** The fraction of the budget that selling short and buying back at one price lose. */
  function ShortRoundTripLoss(f: real, s: real): real
    requires 0.0 <= f && 0.0 <= s < 1.0
  {
    ShortDenominator(f, s);
    var base := (1.0 + f) * (1.0 - s);
    assert base > 0.0;
    (2.0 * f + 2.0 * s - f * s) / base
  }

  lemma ShortDenominator(f: real, s: real)
    requires 0.0 <= f && 0.0 <= s < 1.0
    ensures 0.0 < (1.0 + f) * (1.0 - s)
  {
    MulMono(1.0, 1.0 + f, 1.0 - s);
  }

  /** Opening a short at the bar's open and buying it back at the same open loses exactly this fraction
      of the budget. The entry is sold lower and the exit bought higher, so it is dearer than a long's. */
  lemma ShortRoundTripCost(cfg: EnvConfig, row: seq<Bar>, a: Agent, sym: nat, alloc: real)
    requires CostsNonNegative(cfg) && cfg.slippageBps < 10000.0
    requires WellFormed(a, |row|) && a.pos < 0 && sym < |row|
    requires OpenShort(cfg, row, a, sym, alloc, 0.0).pos == |row| + sym
    ensures Close(cfg, row, OpenShort(cfg, row, a, sym, alloc, 0.0)).0.cash
            == a.cash - Budget(cfg, a.cash, alloc) * ShortRoundTripLoss(cfg.feeRate, cfg.slippageBps / 10000.0)
  {
    hide Budget, UnitCost, Slipped, LimitFill;
    var bar := row[sym];
    var p, s := bar.open, cfg.slippageBps / 10000.0;
    assert LimitPrice(bar, 0.0) == p;
    var (fill, qty) := OrderSize(cfg, bar, a.cash, alloc, 0.0, false).value;
    var budget := Budget(cfg, a.cash, alloc);
    assert EntryCost(cfg, qty, fill) == budget;
    SoldAtSlipped(cfg, bar, p);
    BoughtBackForLoss(cfg, budget, qty, p, fill);
    hide BuyBackCost, ShortProceeds, EntryCost, OrderSize, ShortRoundTripLoss, LimitPrice;
  }

  lemma SoldAtSlipped(cfg: EnvConfig, bar: Bar, target: real)
    requires LimitFill(cfg, bar, target, false).Some?
    ensures LimitFill(cfg, bar, target, false).value == Slipped(cfg, target, false)
  {
  }

  lemma BoughtBackForLoss(cfg: EnvConfig, budget: real, qty: real, p: real, fill: real)
    requires CostsNonNegative(cfg) && cfg.slippageBps < 10000.0 && 0.0 < p && fill == Slipped(cfg, p, false)
    requires EntryCost(cfg, qty, fill) == budget
    ensures ShortProceeds(cfg, qty, fill) - BuyBackCost(cfg, qty, p)
            == -(budget * ShortRoundTripLoss(cfg.feeRate, cfg.slippageBps / 10000.0))
  {
    var f, s := cfg.feeRate, cfg.slippageBps / 10000.0;
    assert fill == p * (1.0 - s);
    assert UnitCost(cfg, fill) == p * (1.0 - s) * (1.0 + f);
    assert BuyBackCost(cfg, qty, p) == qty * p * (1.0 + (f + s));
    assert ShortProceeds(cfg, qty, fill) == qty * (p * (1.0 - s)) * (1.0 - f);
    ShortAlgebra(budget, qty, p, f, s);
  }

  lemma ShortAlgebra(budget: real, qty: real, p: real, f: real, s: real)
    requires 0.0 < p && 0.0 <= f && 0.0 <= s < 1.0
    requires qty * (p * (1.0 - s) * (1.0 + f)) == budget
    ensures qty * (p * (1.0 - s)) * (1.0 - f) - qty * p * (1.0 + (f + s)) == -(budget * ShortRoundTripLoss(f, s))
  {
    BudgetLost(budget, qty, p, 1.0 - s, 1.0 + f, 1.0 - f, 1.0 + (f + s));
    assert (1.0 + (f + s)) - (1.0 - s) * (1.0 - f) == 2.0 * f + 2.0 * s - f * s;
  }

  lemma BudgetLost(budget: real, q: real, p: real, u: real, w: real, g: real, h: real)
    requires 0.0 < u && 0.0 < w && q * (p * u * w) == budget
    ensures 0.0 < w * u
    ensures q * (p * u) * g - q * p * h == -(budget * ((h - u * g) / (w * u)))
  {
    var v, d, x := q * p, w * u, u * g;
    Regroup(q, p, u, w);
    Regroup(q, p, u, g);
    Spread(v, d, h - x);
    assert v * x - v * h == -(v * (h - x));
  }

  lemma Regroup(q: real, p: real, u: real, w: real)
    ensures q * (p * u * w) == (q * p) * (w * u) && q * (p * u) * w == (q * p) * (u * w)
  {
    var g := u * w;
    assert p * u * w == p * g && q * (p * g) == (q * p) * g;
    assert q * (p * u) * w == q * (p * u * w);
  }

  lemma Spread(v: real, d: real, n: real)
    requires 0.0 < d
    ensures (v * d) * (n / d) == v * n
  {
    var q := n / d;
    assert q * d == n;
    assert (v * d) * q == v * (q * d);
  }

  /** The golden fixture: on the bar 100/101/99/100 with a 10 bps fee and 10000 in cash, slippages of
      0, 5 and 20 bps enter at 100, 100.05 and 100.20 and lose 19.98, 29.96 and 59.84 to the cent. */
  lemma GoldenCells(cfg: EnvConfig, a: Agent)
    requires cfg.feeRate == 0.001 && cfg.maxLeverage == 1.0 && cfg.guardBps <= 0.0
    requires 0.0 <= cfg.bufferBps <= 20.0
    requires WellFormed(a, 1) && a.pos < 0 && a.cash == INITIAL_CASH
    ensures var row := [Bar(100.0, 101.0, 99.0, 100.0, 1000.0)];
            var b := OpenLong(cfg, row, a, 0, 1.0, 0.0);
            var cost := INITIAL_CASH - Close(cfg, row, b).0.cash;
            && (cfg.slippageBps == 0.0 ==> b.entry == 100.0 && 19.975 < cost < 19.985)
            && (cfg.slippageBps == 5.0 ==> b.entry == 100.05 && 29.955 < cost < 29.965)
            && (cfg.slippageBps == 20.0 ==> b.entry == 100.2 && 59.835 < cost < 59.845)
  {
    var bar := Bar(100.0, 101.0, 99.0, 100.0, 1000.0);
    if cfg.slippageBps == 0.0 || cfg.slippageBps == 5.0 || cfg.slippageBps == 20.0 {
      assert LimitPrice(bar, 0.0) == 100.0;
      assert Trigger(cfg, 100.0, true) <= 100.0 && Trigger(cfg, 100.0, true) >= 99.0;
      assert Budget(cfg, INITIAL_CASH, 1.0) == 10000.0;
      RoundTripCost(cfg, [bar], a, 0, 1.0);
    }
  }
}
