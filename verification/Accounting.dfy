/** What the engine charges, refuses and counts: borrow fees, the in-sim guard, wins, and the statistics an
    episode leaves in the log. */
module Accounting {
  import opened Prelude
  import opened Engine
  import opened Episode
  import opened HoldingTime

  // ---------------------------------------------------------------- borrow fees

  /** The bar of the symbol held. */
  function HeldBar(row: seq<Bar>, a: Agent): Bar
    requires WellFormed(a, |row|) && 0 <= a.pos
  {
    row[if a.pos < |row| then a.pos else a.pos - |row|]
  }

  function PeriodsPerYear(cfg: EnvConfig): real { if 0.0 < cfg.periodsPerYear then cfg.periodsPerYear else 8760.0 }

  /** A year of fees: a short pays the rate on its whole value, a levered long on the part it did not put up,
      nobody else pays anything. */
  lemma YearOfFees(cfg: EnvConfig, row: seq<Bar>, a: Agent)
    requires WellFormed(a, |row|)
    ensures a.pos < 0 || cfg.shortBorrowApr <= 0.0 ==> BorrowFee(cfg, row, a) == 0.0
    ensures 0 <= a.pos && HeldBar(row, a).close <= 0.0 ==> BorrowFee(cfg, row, a) == 0.0
    ensures 0 <= a.pos < |row| && cfg.maxLeverage <= 1.0 ==> BorrowFee(cfg, row, a) == 0.0
    ensures |row| <= a.pos && 0.0 < cfg.shortBorrowApr && 0.0 < HeldBar(row, a).close ==>
              BorrowFee(cfg, row, a) * PeriodsPerYear(cfg) == a.qty * HeldBar(row, a).close * cfg.shortBorrowApr
    ensures 0 <= a.pos < |row| && 1.0 < cfg.maxLeverage && 0.0 < cfg.shortBorrowApr && 0.0 < HeldBar(row, a).close ==>
              BorrowFee(cfg, row, a) * PeriodsPerYear(cfg) * cfg.maxLeverage
              == a.qty * HeldBar(row, a).close * (cfg.maxLeverage - 1.0) * cfg.shortBorrowApr
  {
    if 0 <= a.pos && 0.0 < HeldBar(row, a).close {
      FeeBack(a.qty * HeldBar(row, a).close, cfg.shortBorrowApr, PeriodsPerYear(cfg));
      if 1.0 < cfg.maxLeverage {
        Borrowed(a.qty, HeldBar(row, a).close, cfg.maxLeverage, cfg.shortBorrowApr, PeriodsPerYear(cfg));
      }
    }
  }

  lemma FeeBack(x: real, apr: real, ppy: real)
    requires 0.0 < ppy
    ensures x * apr / ppy * ppy == x * apr
  {
  }

  lemma Borrowed(qty: real, price: real, leverage: real, apr: real, ppy: real)
    requires 0.0 < qty && 0.0 < price && 1.0 < leverage && 0.0 < ppy
    ensures var part := qty * price * (1.0 - 1.0 / leverage);
            0.0 < part && part * apr / ppy * ppy * leverage == qty * price * (leverage - 1.0) * apr
  {
    var x, r := qty * price, 1.0 / leverage;
    assert r * leverage == 1.0;
    assert 0.0 < x;
    DivMono(1.0, leverage, leverage);
    assert r < 1.0 by {
      if 1.0 <= r {
        MulMono(1.0, r, leverage);
      }
    }
    assert 0.0 < x * (1.0 - r);
    FeeBack(x * (1.0 - r), apr, ppy);
    assert (1.0 - r) * leverage == leverage - 1.0;
    assert x * (1.0 - r) * apr * leverage == x * ((1.0 - r) * leverage) * apr;
  }

  // ---------------------------------------------------------------- the guard

  /** The guard refuses a long sale exactly when it is on and the price is below the entry less the tolerance of
      the position's age: the base one before it is stale, the overnight one from then on, and none where that
      is not positive. */
  lemma GuardByAge(cfg: EnvConfig, sell: real, entry: real, hold: nat, isShort: bool)
    ensures GuardRefuses(cfg, sell, entry, hold, isShort) <==>
            && !isShort && 0.0 < cfg.guardBps && 0.0 < entry && 0.0 < sell
            && (if hold < cfg.guardStaleAfter then 10000.0 * sell < entry * (10000.0 - cfg.guardBps)
                else 0.0 < cfg.guardOvernightBps && 10000.0 * sell < entry * (10000.0 - cfg.guardOvernightBps))
  {
    FloorInBps(entry, cfg.guardBps);
    FloorInBps(entry, cfg.guardOvernightBps);
  }

  lemma FloorInBps(entry: real, bps: real)
    ensures 10000.0 * (entry * (1.0 - bps / 10000.0)) == entry * (10000.0 - bps)
  {
    var b := bps / 10000.0;
    assert bps == 10000.0 * b;
    assert 10000.0 * (entry * b) == entry * (10000.0 * b);
  }

  // ---------------------------------------------------------------- closing

  /** What a close that is not refused leaves: no position, a trade more, and cash moved by the shares at the open,
      for a long less fee and slippage, for a short with them on top. */
  lemma CloseTerms(cfg: EnvConfig, row: seq<Bar>, a: Agent)
    requires WellFormed(a, |row|) && 0 <= a.pos && !Refused(cfg, row, a)
    ensures var (b, closed) := Close(cfg, row, a);
            var value := a.qty * HeldBar(row, a).open;
            && closed && b.pos == -1 && b.qty == 0.0 && b.entry == 0.0 && b.hold == 0
            && b.numTrades == a.numTrades + 1
            && 10000.0 * (b.cash - a.cash)
               == (if a.pos < |row| then value * (10000.0 - 10000.0 * cfg.feeRate - cfg.slippageBps)
                   else -(value * (10000.0 + 10000.0 * cfg.feeRate + cfg.slippageBps)))
  {
    CostInBps(a.qty * HeldBar(row, a).open, cfg.feeRate, cfg.slippageBps);
  }

  // ---------------------------------------------------------------- wins

  /** Closing at the open of a row gains: above the entry for a long, below it for a short. */
  predicate Gains(row: seq<Bar>, a: Agent)
    requires WellFormed(a, |row|)
  {
    0 <= a.pos && if a.pos < |row| then a.entry < HeldBar(row, a).open else HeldBar(row, a).open < a.entry
  }

  lemma CloseWins(cfg: EnvConfig, row: seq<Bar>, a: Agent)
    requires WellFormed(a, |row|)
    ensures var (b, closed) := Close(cfg, row, a);
            b.winning == a.winning + if closed && Gains(row, a) then 1 else 0
  {
  }

  /** A bar wins at most once: when it closes the position it started with at a gain. */
  lemma TradeWins(cfg: EnvConfig, row: seq<Bar>, mask: Option<seq<bool>>, a: Agent, action: int, word: nat)
    requires WellFormed(a, |row|) && (mask.Some? ==> |mask.value| == |row|)
    ensures var r := TradeBar(cfg, row, mask, a, action, word);
            r.closes <= 1 && r.agent.winning == a.winning + if r.closes == 1 && Gains(row, a) then 1 else 0
  {
    CloseWins(cfg, row, a);
    CloseKeepsTerms(cfg, row, a);
    var f := ForceClose(cfg, row, mask, a).agent;
    CloseWins(cfg, row, f);
    var o := Decode(cfg, |row|, action);
    if ReachesOpen(cfg, row, mask, f, o, word) {
      OpenKeepsWins(cfg, row, Close(cfg, row, f).0, o);
    }
    hide Close, Open, Decode;
  }

  lemma CloseKeepsTerms(cfg: EnvConfig, row: seq<Bar>, a: Agent)
    requires WellFormed(a, |row|)
    ensures var (b, closed) := Close(cfg, row, a);
            !closed ==> Gains(row, b) == Gains(row, a) && b.winning == a.winning
  {
  }

  lemma OpenKeepsWins(cfg: EnvConfig, row: seq<Bar>, a: Agent, o: Order)
    requires WellFormed(a, |row|) && o.Enter? && o.sym < |row|
    ensures Open(cfg, row, a, o).winning == a.winning
  {
  }

  /** How many of the positions closed during the first `k` steps gained. */
  function Wins(cfg: EnvConfig, md: MarketData, s: EnvState, inputs: seq<Input>, k: nat): nat
    requires md.Valid() && WellFormed(s.agent, md.numSymbols) && k <= |inputs|
  {
    if k == 0 then 0
    else
      var x := After(cfg, md, s, inputs, k - 1);
      var won := TradeNow(cfg, md, x.agent, inputs[k - 1].action, inputs[k - 1].fillWord).closes == 1
                 && Gains(md.prices[Clock(md, x.agent)], x.agent);
      Wins(cfg, md, s, inputs, k - 1) + if won then 1 else 0
  }

  lemma SettleKeepsWins(cfg: EnvConfig, md: MarketData, a: Agent)
    requires md.Valid() && WellFormed(a, md.numSymbols)
    ensures Settle(cfg, md, a).0.winning == a.winning
  {
  }

  /** Within an episode the counter is the number of winning closes, under any mask, guard and lottery. */
  lemma {:induction false} WinsAreCounted(cfg: EnvConfig, md: MarketData, word: nat, inputs: seq<Input>, k: nat)
    requires md.Valid() && 0 < k <= |inputs|
    requires Unbroken(cfg, md, Reset(cfg, md, EMPTY_LOG, word), inputs, k - 1)
    ensures var s := Reset(cfg, md, EMPTY_LOG, word);
            AtTheEnd(cfg, md, s, inputs, k).winning == Wins(cfg, md, s, inputs, k)
  {
    hide Step, Observe, TradeBar, Settle, Gains;
    var s := Reset(cfg, md, EMPTY_LOG, word);
    var x, i := After(cfg, md, s, inputs, k - 1), inputs[k - 1];
    if 1 < k {
      WinsAreCounted(cfg, md, word, inputs, k - 1);
      assert !After(cfg, md, s, inputs, k - 1).terminal;
      StepIsSettled(cfg, md, After(cfg, md, s, inputs, k - 2), inputs[k - 2]);
    }
    var t := Clock(md, x.agent);
    TradeWins(cfg, md.prices[t], md.MaskRow(t), x.agent, i.action, i.fillWord);
    SettleKeepsWins(cfg, md, TradeNow(cfg, md, x.agent, i.action, i.fillWord).agent);
  }

  // ---------------------------------------------------------------- what the log says

  /** The equity an episode ends with: cash when flat; the cash after selling or buying back at the open with fee
      and slippage; or, where the guard refuses, cash and shares at the close. */
  lemma FinalEquityIs(cfg: EnvConfig, row: seq<Bar>, a: Agent)
    requires WellFormed(a, |row|)
    ensures var equity := FinalClose(cfg, row, a).1;
            if a.pos < 0 then equity == a.cash
            else if Refused(cfg, row, a) then a.pos < |row| && equity == a.cash + a.qty * HeldBar(row, a).close
            else if a.pos < |row| then
              10000.0 * (equity - a.cash)
              == a.qty * HeldBar(row, a).open * (10000.0 - 10000.0 * cfg.feeRate - cfg.slippageBps)
            else
              10000.0 * (a.cash - equity)
              == a.qty * HeldBar(row, a).open * (10000.0 + 10000.0 * cfg.feeRate + cfg.slippageBps)
  {
    if 0 <= a.pos {
      CostInBps(a.qty * HeldBar(row, a).open, cfg.feeRate, cfg.slippageBps);
    }
  }

  lemma CostInBps(x: real, fee: real, bps: real)
    ensures 10000.0 * (x * (1.0 - (fee + bps / 10000.0))) == x * (10000.0 - 10000.0 * fee - bps)
    ensures 10000.0 * (x * (1.0 + (fee + bps / 10000.0))) == x * (10000.0 + 10000.0 * fee + bps)
  {
    var b := bps / 10000.0;
    assert bps == 10000.0 * b;
    assert 10000.0 * (x * (1.0 - (fee + b))) == x * (10000.0 * (1.0 - (fee + b)));
    assert 10000.0 * (x * (1.0 + (fee + b))) == x * (10000.0 * (1.0 + (fee + b)));
  }

  /** The log of the first episode, when it ends at step `k`: its return on ten thousand, its drawdown and trades,
      the share of trades that gained and the steps per trade, both nothing without trades, and one episode. */
  lemma EpisodeLog(cfg: EnvConfig, md: MarketData, word: nat, inputs: seq<Input>, k: nat)
    requires md.Valid() && 0 < k <= |inputs|
    requires Unbroken(cfg, md, Reset(cfg, md, EMPTY_LOG, word), inputs, k - 1)
    requires After(cfg, md, Reset(cfg, md, EMPTY_LOG, word), inputs, k).terminal
    ensures var s := Reset(cfg, md, EMPTY_LOG, word);
            var a := AtTheEnd(cfg, md, s, inputs, k);
            var row := md.prices[Clock(md, a)];
            var log := After(cfg, md, s, inputs, k).log;
            var sold := 0 <= a.pos && !Refused(cfg, row, a);
            var trades := a.numTrades + if sold then 1 else 0;
            && 10000.0 * log.totalReturn == FinalClose(cfg, row, a).1 - 10000.0
            && log.maxDrawdown == a.maxDrawdown && log.numTrades == trades as real && log.n == 1
            && (if 0 < trades then
                  && log.winRate * trades as real
                     == (Wins(cfg, md, s, inputs, k) + if sold && Gains(row, a) then 1 else 0) as real
                  && log.avgHold * trades as real == k as real
                else log.winRate == 0.0 && log.avgHold == 0.0)
  {
    hide Step, Observe, TradeBar, Settle, Done, Close, FinalClose, Gains, Refused, Wins;
    var s := Reset(cfg, md, EMPTY_LOG, word);
    WinsAreCounted(cfg, md, word, inputs, k);
    StepsAreCounted(cfg, md, word, inputs, k);
    UnbrokenLog(cfg, md, s, inputs, k - 1);
    var x := After(cfg, md, s, inputs, k - 1);
    StepIsSettled(cfg, md, x, inputs[k - 1]);
    AfterStep(cfg, md, s, inputs, k);
    var a := AtTheEnd(cfg, md, s, inputs, k);
    var row := md.prices[Clock(md, a)];
    FinalCounts(cfg, row, a);
    var (closed, equity) := FinalClose(cfg, row, a);
    AddedUp(closed, equity);
  }

  /** What one episode adds to an empty log. */
  lemma AddedUp(a: Agent, equity: real)
    requires a.initial == INITIAL_CASH
    ensures var log := AddEpisode(EMPTY_LOG, a, equity);
            && 10000.0 * log.totalReturn == equity - 10000.0
            && log.maxDrawdown == a.maxDrawdown && log.numTrades == a.numTrades as real && log.n == 1
            && (if 0 < a.numTrades then
                  && log.winRate * a.numTrades as real == a.winning as real
                  && log.avgHold * a.numTrades as real == a.step as real
                else log.winRate == 0.0 && log.avgHold == 0.0)
  {
  }

  lemma FinalCounts(cfg: EnvConfig, row: seq<Bar>, a: Agent)
    requires WellFormed(a, |row|)
    ensures var b := FinalClose(cfg, row, a).0;
            var sold := 0 <= a.pos && !Refused(cfg, row, a);
            && b.numTrades == a.numTrades + (if sold then 1 else 0)
            && b.winning == a.winning + (if sold && Gains(row, a) then 1 else 0)
            && b.maxDrawdown == a.maxDrawdown && b.step == a.step && b.initial == a.initial
  {
  }

  lemma {:induction false} StepsAreCounted(cfg: EnvConfig, md: MarketData, word: nat, inputs: seq<Input>, k: nat)
    requires md.Valid() && 0 < k <= |inputs|
    requires Unbroken(cfg, md, Reset(cfg, md, EMPTY_LOG, word), inputs, k - 1)
    ensures AtTheEnd(cfg, md, Reset(cfg, md, EMPTY_LOG, word), inputs, k).step == k
  {
    hide Step, Observe, TradeNow, Settle;
    var s := Reset(cfg, md, EMPTY_LOG, word);
    var x, i := After(cfg, md, s, inputs, k - 1), inputs[k - 1];
    if 1 < k {
      StepsAreCounted(cfg, md, word, inputs, k - 1);
      assert !After(cfg, md, s, inputs, k - 1).terminal;
      StepIsSettled(cfg, md, After(cfg, md, s, inputs, k - 2), inputs[k - 2]);
    }
    TradeKeepsTime(cfg, md, x.agent, i.action, i.fillWord);
  }
}
