/** Slippage monotonicity as a two-run theorem: the same long-only, unlevered action sequence never
    does worse at the lower slippage, as long as no open fills at the lower slippage alone. */
module Slippage {
  import opened Prelude
  import opened Engine
  import opened Episode

  ghost predicate PositivePrices(md: MarketData) {
    forall t, s :: 0 <= t < |md.prices| && 0 <= s < |md.prices[t]| ==>
      0.0 < md.prices[t][s].open && 0.0 < md.prices[t][s].close
  }

  /** Long-only, unlevered trading with the in-sim guard off. */
  ghost predicate Unlevered(cfg: EnvConfig) {
    && 0.0 <= cfg.feeRate && 0.0 <= cfg.slippageBps && EffectiveExitFee(cfg) <= 1.0
    && cfg.maxLeverage <= 1.0 && cfg.guardBps <= 0.0
  }

  /** Two configurations that differ only in slippage. */
  ghost predicate Cheaper(lo: EnvConfig, hi: EnvConfig) {
    Unlevered(lo) && lo.slippageBps <= hi.slippageBps && hi == lo.(slippageBps := hi.slippageBps)
  }

  ghost predicate LongOnly(cfg: EnvConfig, s: nat, action: int) {
    !(Decode(cfg, s, action).Enter? && Decode(cfg, s, action).isShort)
  }

  /** Same position for the same time, with at least as much cash and quantity, none of it negative. */
  ghost predicate Dominates(x: Agent, y: Agent, s: nat) {
    && WellFormed(x, s) && WellFormed(y, s)
    && x.pos == y.pos < s && x.hold == y.hold && x.offset == y.offset && x.step == y.step
    && 0.0 <= y.cash <= x.cash && y.qty <= x.qty
  }

  /** A bar on which the cheaper run opens a position only if the dearer run does. */
  predicate OpensTogether(r: Traded, q: Traded) { r.opens == 1 ==> q.opens == 1 }

  lemma FillMonotone(lo: EnvConfig, hi: EnvConfig, bar: Bar, target: real)
    requires Cheaper(lo, hi) && 0.0 < target
    requires LimitFill(hi, bar, target, true).Some?
    ensures LimitFill(lo, bar, target, true).Some?
    ensures 0.0 < LimitFill(lo, bar, target, true).value <= LimitFill(hi, bar, target, true).value
  {
    assert Trigger(lo, target, true) == Trigger(hi, target, true);
    SlippedMonotone(lo, hi, target);
    hide Trigger, Slipped;
  }

  lemma SlippedMonotone(lo: EnvConfig, hi: EnvConfig, target: real)
    requires Cheaper(lo, hi) && 0.0 < target
    ensures 0.0 < Slipped(lo, target, true) <= Slipped(hi, target, true)
  {
    var f, g := 1.0 + lo.slippageBps / 10000.0, 1.0 + hi.slippageBps / 10000.0;
    assert 1.0 <= f <= g;
    MulMono(f, g, target);
    MulMono(1.0, f, target);
    assert Slipped(lo, target, true) == target * f && Slipped(hi, target, true) == target * g;
  }

  /** The slice of cash an order of this size spends. */
  function Share(cfg: EnvConfig, alloc: real): real { cfg.maxLeverage * (if 1.0 < alloc then 1.0 else alloc) }

  lemma OrderSizeMonotone(lo: EnvConfig, hi: EnvConfig, bar: Bar, x: real, y: real, alloc: real, level: real)
    requires Cheaper(lo, hi) && y <= x
    requires OrderSize(hi, bar, y, alloc, level, true).Some?
    ensures OrderSize(lo, bar, x, alloc, level, true).Some?
    ensures OrderSize(hi, bar, y, alloc, level, true).value.1 <= OrderSize(lo, bar, x, alloc, level, true).value.1
    ensures 0.0 < OrderSize(lo, bar, x, alloc, level, true).value.0
  {
    hide LimitFill, Budget, UnitCost, LimitPrice;
    var target := LimitPrice(bar, level);
    FillMonotone(lo, hi, bar, target);
    var p, q := LimitFill(lo, bar, target, true).value, LimitFill(hi, bar, target, true).value;
    UnitMonotone(lo, hi, p, q);
    BudgetMonotone(lo, hi, x, y, alloc);
    var u, v, b, c := UnitCost(lo, p), UnitCost(hi, q), Budget(lo, x, alloc), Budget(hi, y, alloc);
    DivAntitone(c, u, v);
    DivMono(c, b, u);
    QuotientPositive(c, v);
  }

  lemma QuotientPositive(a: real, x: real)
    requires 0.0 < a && 0.0 < x
    ensures 0.0 < a / x
  {
  }

  lemma UnitMonotone(lo: EnvConfig, hi: EnvConfig, p: real, q: real)
    requires Cheaper(lo, hi) && 0.0 < p <= q
    ensures 0.0 < UnitCost(lo, p) <= UnitCost(hi, q)
  {
    MulMono(p, q, 1.0 + lo.feeRate);
  }

  lemma BudgetMonotone(lo: EnvConfig, hi: EnvConfig, x: real, y: real, alloc: real)
    requires Cheaper(lo, hi) && 0.0 < y <= x && 0.0 < alloc && 0.0 < Budget(hi, y, alloc)
    ensures 0.0 < Budget(hi, y, alloc) <= Budget(lo, x, alloc)
  {
    var w := if 1.0 < alloc then 1.0 else alloc;
    SharePositive(y, lo.maxLeverage, w);
    MulMono(y, x, lo.maxLeverage);
    MulMono(y * lo.maxLeverage, x * lo.maxLeverage, w);
  }

  lemma SharePositive(y: real, lev: real, w: real)
    requires 0.0 < y * lev * w && 0.0 < y && 0.0 < w
    ensures 0.0 < lev
  {
    if lev <= 0.0 {
      MulMono(lev, 0.0, y);
      MulMono(y * lev, 0.0, w);
      assert false;
    }
  }

  /** A long order of `budget / unit` shares spends exactly the budget, the share of the cash. */
  lemma EntrySpendsBudget(cfg: EnvConfig, bar: Bar, cash: real, alloc: real, level: real)
    requires OrderSize(cfg, bar, cash, alloc, level, true).Some?
    ensures var (fill, qty) := OrderSize(cfg, bar, cash, alloc, level, true).value;
            EntryCost(cfg, qty, fill) == cash * Share(cfg, alloc) && 0.0 < EntryCost(cfg, qty, fill)
    ensures 0.0 < cash && 0.0 < alloc
  {
    hide LimitFill, UnitCost;
    var (fill, qty) := OrderSize(cfg, bar, cash, alloc, level, true).value;
    assert qty * UnitCost(cfg, fill) == Budget(cfg, cash, alloc);
  }

  lemma CloseKeepsDominance(lo: EnvConfig, hi: EnvConfig, row: seq<Bar>, x: Agent, y: Agent)
    requires Cheaper(lo, hi) && Dominates(x, y, |row|)
    requires forall s :: 0 <= s < |row| ==> 0.0 < row[s].open
    requires EffectiveExitFee(hi) <= 1.0
    ensures Close(lo, row, x).1 == Close(hi, row, y).1 == (0 <= x.pos)
    ensures Dominates(Close(lo, row, x).0, Close(hi, row, y).0, |row|)
  {
    hide SaleProceeds;
    if 0 <= x.pos {
      ProceedsMonotone(lo, hi, x.qty, y.qty, row[SymOf(x.pos, |row|)].open);
    }
  }

  lemma ProceedsMonotone(lo: EnvConfig, hi: EnvConfig, x: real, y: real, p: real)
    requires Cheaper(lo, hi) && EffectiveExitFee(hi) <= 1.0 && 0.0 <= y <= x && 0.0 <= p
    ensures 0.0 <= SaleProceeds(hi, y, p) <= SaleProceeds(lo, x, p)
  {
    FeeMonotone(lo, hi);
    hide EffectiveExitFee;
    ExitMonotone(x, y, p, 1.0 - EffectiveExitFee(lo), 1.0 - EffectiveExitFee(hi));
  }

  lemma FeeMonotone(lo: EnvConfig, hi: EnvConfig)
    requires Cheaper(lo, hi)
    ensures EffectiveExitFee(lo) <= EffectiveExitFee(hi)
  {
  }

  lemma ExitMonotone(x: real, y: real, p: real, f: real, g: real)
    requires 0.0 <= y <= x && 0.0 <= p && 0.0 <= g <= f
    ensures 0.0 <= y * p * g <= x * p * f
  {
    MulMono(y, x, p);
    MulMono(y * p, x * p, g);
    MulMono(g, f, x * p);
  }

  lemma OpenKeepsDominance(lo: EnvConfig, hi: EnvConfig, row: seq<Bar>, x: Agent, y: Agent, o: Order)
    requires Cheaper(lo, hi) && Dominates(x, y, |row|) && x.pos < 0
    requires o.Enter? && !o.isShort && o.sym < |row|
    requires Open(hi, row, y, o).pos == TargetPos(o, |row|)
    ensures Open(lo, row, x, o).pos == TargetPos(o, |row|)
    ensures Dominates(Open(lo, row, x, o), Open(hi, row, y, o), |row|)
  {
    hide OrderSize, EntryCost;
    var alloc, level := AllocationPct(hi, o.allocIdx), LevelOffsetBps(hi, o.levelIdx);
    assert AllocationPct(lo, o.allocIdx) == alloc && LevelOffsetBps(lo, o.levelIdx) == level;
    OrderSizeMonotone(lo, hi, row[o.sym], x.cash, y.cash, alloc, level);
    EntrySpendsBudget(lo, row[o.sym], x.cash, alloc, level);
    EntrySpendsBudget(hi, row[o.sym], y.cash, alloc, level);
    RestMonotone(x.cash, y.cash, Share(lo, alloc));
  }

  lemma RestMonotone(x: real, y: real, share: real)
    requires 0.0 <= y <= x && share <= 1.0
    ensures 0.0 <= y - y * share <= x - x * share
  {
    MulMono(y, x, 1.0 - share);
    MulNonNeg(y, 1.0 - share);
  }

  /** One bar of trading: an open that fills in the dearer run fills in the cheaper one, and dominance
      survives the bar exactly when no open fills in the cheaper run alone. An order that fills in neither
      leaves both flat. */
  lemma TradeKeepsDominance(lo: EnvConfig, hi: EnvConfig, row: seq<Bar>, mask: Option<seq<bool>>,
                            x: Agent, y: Agent, action: int, word: nat)
    requires Cheaper(lo, hi) && Dominates(x, y, |row|) && EffectiveExitFee(hi) <= 1.0
    requires mask.Some? ==> |mask.value| == |row|
    requires forall s :: 0 <= s < |row| ==> 0.0 < row[s].open
    requires LongOnly(hi, |row|, action)
    ensures var r, q := TradeBar(lo, row, mask, x, action, word), TradeBar(hi, row, mask, y, action, word);
            && OpensTogether(q, r)
            && (Dominates(r.agent, q.agent, |row|) <==> OpensTogether(r, q))
            && (r.agent.pos == q.agent.pos <==> OpensTogether(r, q))
  {
    hide Close, Open;
    CloseKeepsDominance(lo, hi, row, x, y);
    var fx, fy := ForceClose(lo, row, mask, x).agent, ForceClose(hi, row, mask, y).agent;
    assert Dominates(fx, fy, |row|);
    var o := Decode(hi, |row|, action);
    assert Decode(lo, |row|, action) == o by { DecodeIgnoresSlippage(lo, hi, |row|, action); }
    hide Decode;
    CloseKeepsDominance(lo, hi, row, fx, fy);
    if ReachesOpen(hi, row, mask, fy, o, word) {
      var a, b := Close(lo, row, fx).0, Close(hi, row, fy).0;
      OpenOrStayFlat(lo, row, a, o);
      OpenOrStayFlat(hi, row, b, o);
      if Open(hi, row, b, o).pos == TargetPos(o, |row|) {
        OpenKeepsDominance(lo, hi, row, a, b, o);
      }
    }
  }

  lemma OpenOrStayFlat(cfg: EnvConfig, row: seq<Bar>, a: Agent, o: Order)
    requires WellFormed(a, |row|) && a.pos < 0 && o.Enter? && o.sym < |row|
    ensures Open(cfg, row, a, o) == a || Open(cfg, row, a, o).pos == TargetPos(o, |row|)
  {
    hide OrderSize, EntryCost;
  }

  lemma DecodeIgnoresSlippage(lo: EnvConfig, hi: EnvConfig, s: nat, action: int)
    requires hi == lo.(slippageBps := hi.slippageBps)
    ensures Decode(lo, s, action) == Decode(hi, s, action)
  {
    hide SplitIndex;
    assert SideBlock(lo, s) == SideBlock(hi, s);
  }

  lemma EquityMonotone(row: seq<Bar>, x: Agent, y: Agent)
    requires Dominates(x, y, |row|)
    requires forall s :: 0 <= s < |row| ==> 0.0 < row[s].close
    ensures 0.0 <= Equity(row, y) <= Equity(row, x)
  {
    if 0 <= x.pos {
      var p := row[SymOf(x.pos, |row|)].close;
      MulMono(y.qty, x.qty, p);
      MulNonNeg(y.qty, p);
    }
  }

  lemma SettleKeepsDominance(lo: EnvConfig, hi: EnvConfig, md: MarketData, x: Agent, y: Agent)
    requires md.Valid() && PositivePrices(md) && Cheaper(lo, hi) && Dominates(x, y, md.numSymbols)
    ensures Dominates(Settle(lo, md, x).0, Settle(hi, md, y).0, md.numSymbols)
    ensures 0.0 <= Settle(hi, md, y).1 <= Settle(lo, md, x).1
    ensures Settle(lo, md, x).1 == Equity(md.prices[Clock(md, Settle(lo, md, x).0)], Settle(lo, md, x).0)
    ensures Settle(hi, md, y).1 == Equity(md.prices[Clock(md, Settle(hi, md, y).0)], Settle(hi, md, y).0)
  {
    hide Equity;
    var b, c := x.(step := x.step + 1), y.(step := y.step + 1);
    var row := md.prices[Clock(md, b)];
    assert BorrowFee(lo, row, b) == 0.0 && BorrowFee(hi, row, c) == 0.0;
    EquityMonotone(row, b, c);
    TrackKeepsEquity(row, b, Equity(row, b));
    TrackKeepsEquity(row, c, Equity(row, c));
  }

  lemma TrackKeepsEquity(row: seq<Bar>, a: Agent, e: real)
    requires WellFormed(a, |row|)
    ensures WellFormed(Track(a, e), |row|) && Equity(row, Track(a, e)) == Equity(row, a)
  {
  }

  /** Every action so far is long-only, and no open has filled in the cheaper run alone. */
  ghost predicate AlikeLongs(lo: EnvConfig, hi: EnvConfig, md: MarketData, r: EnvState, s: EnvState,
                             inputs: seq<Input>, k: nat)
    requires md.Valid() && WellFormed(r.agent, md.numSymbols) && WellFormed(s.agent, md.numSymbols) && k <= |inputs|
  {
    forall j :: 0 <= j < k ==>
      && LongOnly(hi, md.numSymbols, inputs[j].action)
      && OpensTogetherAt(lo, hi, md, After(lo, md, r, inputs, j), After(hi, md, s, inputs, j), inputs[j])
  }

  ghost predicate OpensTogetherAt(lo: EnvConfig, hi: EnvConfig, md: MarketData, x: EnvState, y: EnvState, i: Input)
    requires md.Valid() && WellFormed(x.agent, md.numSymbols) && WellFormed(y.agent, md.numSymbols)
  {
    OpensTogether(TradeNow(lo, md, x.agent, i.action, i.fillWord), TradeNow(hi, md, y.agent, i.action, i.fillWord))
  }

  ghost predicate Comparable(lo: EnvConfig, hi: EnvConfig, md: MarketData) {
    md.Valid() && PositivePrices(md) && Cheaper(lo, hi) && EffectiveExitFee(hi) <= 1.0
  }

  /** If `x` has just ended then so has `y` (with early exit off), and when both have, the return `x`
      added to its log is at least the one `y` added. */
  ghost predicate Outlives(cfg: EnvConfig, x: EnvState, y: EnvState, before: Log, before': Log) {
    && (x.terminal && !cfg.earlyExit ==> y.terminal)
    && (x.terminal && y.terminal ==>
          y.log.totalReturn - before'.totalReturn <= x.log.totalReturn - before.totalReturn)
  }

  ghost predicate StillDominates(x: EnvState, y: EnvState, s: nat) {
    !x.terminal && !y.terminal ==> Dominates(x.agent, y.agent, s)
  }

  lemma StepKeepsDominance(lo: EnvConfig, hi: EnvConfig, md: MarketData, x: EnvState, y: EnvState, i: Input)
    requires Comparable(lo, hi, md) && Dominates(x.agent, y.agent, md.numSymbols)
    requires LongOnly(hi, md.numSymbols, i.action)
    requires OpensTogetherAt(lo, hi, md, x, y, i)
    ensures StillDominates(Step(lo, md, x, i), Step(hi, md, y, i), md.numSymbols)
    ensures Outlives(lo, Step(lo, md, x, i), Step(hi, md, y, i), x.log, y.log)
  {
    hide TradeBar, Settle, Equity, Observe, Close, ResetAgent;
    var t := Clock(md, y.agent);
    TradeKeepsDominance(lo, hi, md.prices[t], md.MaskRow(t), x.agent, y.agent, i.action, i.fillWord);
    var b := TradeNow(lo, md, x.agent, i.action, i.fillWord).agent;
    var c := TradeNow(hi, md, y.agent, i.action, i.fillWord).agent;
    SettleKeepsDominance(lo, hi, md, b, c);
    var u, v := Settle(lo, md, b).0, Settle(hi, md, c).0;
    var row := md.prices[Clock(md, u)];
    CloseKeepsDominance(lo, hi, row, u, v);
    DivMono(FinalClose(hi, row, v).1 - INITIAL_CASH, FinalClose(lo, row, u).1 - INITIAL_CASH, INITIAL_CASH);
    CloseKeepsInitial(lo, row, u);
    CloseKeepsInitial(hi, row, v);
  }

  lemma CloseKeepsInitial(cfg: EnvConfig, row: seq<Bar>, a: Agent)
    requires WellFormed(a, |row|)
    ensures Close(cfg, row, a).0.initial == a.initial
  {
  }

  lemma {:induction false} RunsDominate(lo: EnvConfig, hi: EnvConfig, md: MarketData, r: EnvState, s: EnvState,
                                        inputs: seq<Input>, k: nat)
    requires Comparable(lo, hi, md) && k <= |inputs| && Dominates(r.agent, s.agent, md.numSymbols)
    requires AlikeLongs(lo, hi, md, r, s, inputs, k)
    requires Unbroken(lo, md, r, inputs, k) && Unbroken(hi, md, s, inputs, k)
    ensures Dominates(After(lo, md, r, inputs, k).agent, After(hi, md, s, inputs, k).agent, md.numSymbols)
  {
    hide Step, OpensTogetherAt, LongOnly, AlikeLongs;
    if 0 < k {
      AlikeLast(lo, hi, md, r, s, inputs, k);
      RunsDominate(lo, hi, md, r, s, inputs, k - 1);
      assert !After(lo, md, r, inputs, k).terminal && !After(hi, md, s, inputs, k).terminal;
      StepKeepsDominance(lo, hi, md, After(lo, md, r, inputs, k - 1), After(hi, md, s, inputs, k - 1), inputs[k - 1]);
    }
  }

  /** Until either run ends, the cheaper run holds at least as much cash and quantity, and its equity
      at any row of positive closes is at least as high. */
  lemma LowerSlippageDominates(lo: EnvConfig, hi: EnvConfig, md: MarketData, word: nat,
                               inputs: seq<Input>, k: nat, row: seq<Bar>)
    requires Comparable(lo, hi, md) && k <= |inputs|
    requires AlikeLongs(lo, hi, md, Reset(lo, md, EMPTY_LOG, word), Reset(hi, md, EMPTY_LOG, word), inputs, k)
    requires Unbroken(lo, md, Reset(lo, md, EMPTY_LOG, word), inputs, k)
    requires Unbroken(hi, md, Reset(hi, md, EMPTY_LOG, word), inputs, k)
    requires |row| == md.numSymbols && forall s :: 0 <= s < |row| ==> 0.0 < row[s].close
    ensures var x := After(lo, md, Reset(lo, md, EMPTY_LOG, word), inputs, k).agent;
            var y := After(hi, md, Reset(hi, md, EMPTY_LOG, word), inputs, k).agent;
            Dominates(x, y, md.numSymbols) && 0.0 <= Equity(row, y) <= Equity(row, x)
  {
    var r, s := Reset(lo, md, EMPTY_LOG, word), Reset(hi, md, EMPTY_LOG, word);
    hide *;
    ResetDominates(lo, hi, md, word);
    RunsDominate(lo, hi, md, r, s, inputs, k);
    EquityMonotone(row, After(lo, md, r, inputs, k).agent, After(hi, md, s, inputs, k).agent);
  }

  /** A step after which both runs hold the same has opened in both or in neither. */
  lemma SamePositionMeansTogether(lo: EnvConfig, hi: EnvConfig, md: MarketData, x: EnvState, y: EnvState, i: Input)
    requires Comparable(lo, hi, md) && Dominates(x.agent, y.agent, md.numSymbols)
    requires LongOnly(hi, md.numSymbols, i.action)
    requires !Step(lo, md, x, i).terminal && !Step(hi, md, y, i).terminal
    requires Step(lo, md, x, i).agent.pos == Step(hi, md, y, i).agent.pos
    ensures OpensTogetherAt(lo, hi, md, x, y, i)
  {
    hide TradeBar, Observe, LongOnly, BorrowFee, Equity;
    var t := Clock(md, y.agent);
    TradeKeepsDominance(lo, hi, md.prices[t], md.MaskRow(t), x.agent, y.agent, i.action, i.fillWord);
    StepIsSettled(lo, md, x, i);
    StepIsSettled(hi, md, y, i);
  }

  /** The condition is exact: over a long-only run, the cheaper run dominates after every step exactly when
      no open has filled in it alone. */
  lemma {:induction false} DominanceIsOpeningTogether(lo: EnvConfig, hi: EnvConfig, md: MarketData, word: nat,
                                                      inputs: seq<Input>, k: nat)
    requires Comparable(lo, hi, md) && k <= |inputs|
    requires forall j :: 0 <= j < k ==> LongOnly(hi, md.numSymbols, inputs[j].action)
    requires Unbroken(lo, md, Reset(lo, md, EMPTY_LOG, word), inputs, k)
    requires Unbroken(hi, md, Reset(hi, md, EMPTY_LOG, word), inputs, k)
    ensures var r, s := Reset(lo, md, EMPTY_LOG, word), Reset(hi, md, EMPTY_LOG, word);
            (forall j :: 0 <= j <= k ==> DominatesAt(lo, hi, md, r, s, inputs, j))
            <==> AlikeLongs(lo, hi, md, r, s, inputs, k)
  {
    hide Step, OpensTogetherAt, LongOnly, Reset, Dominates;
    var r, s := Reset(lo, md, EMPTY_LOG, word), Reset(hi, md, EMPTY_LOG, word);
    ResetDominates(lo, hi, md, word);
    if k > 0 {
      DominanceIsOpeningTogether(lo, hi, md, word, inputs, k - 1);
      if DominatesAt(lo, hi, md, r, s, inputs, k - 1) {
        StepDecides(lo, hi, md, r, s, inputs, k);
      }
    }
  }

  lemma StepDecides(lo: EnvConfig, hi: EnvConfig, md: MarketData, r: EnvState, s: EnvState, inputs: seq<Input>, k: nat)
    requires Comparable(lo, hi, md) && 0 < k <= |inputs|
    requires WellFormed(r.agent, md.numSymbols) && WellFormed(s.agent, md.numSymbols)
    requires LongOnly(hi, md.numSymbols, inputs[k - 1].action)
    requires DominatesAt(lo, hi, md, r, s, inputs, k - 1)
    requires !After(lo, md, r, inputs, k).terminal && !After(hi, md, s, inputs, k).terminal
    ensures DominatesAt(lo, hi, md, r, s, inputs, k)
            <==> OpensTogetherAt(lo, hi, md, After(lo, md, r, inputs, k - 1), After(hi, md, s, inputs, k - 1), inputs[k - 1])
  {
    hide Step, LongOnly, OpensTogetherAt;
    var x, y := After(lo, md, r, inputs, k - 1), After(hi, md, s, inputs, k - 1);
    AfterStep(lo, md, r, inputs, k);
    AfterStep(hi, md, s, inputs, k);
    if OpensTogetherAt(lo, hi, md, x, y, inputs[k - 1]) {
      StepKeepsDominance(lo, hi, md, x, y, inputs[k - 1]);
    } else if DominatesAt(lo, hi, md, r, s, inputs, k) {
      SamePositionMeansTogether(lo, hi, md, x, y, inputs[k - 1]);
    }
  }

  ghost predicate DominatesAt(lo: EnvConfig, hi: EnvConfig, md: MarketData, r: EnvState, s: EnvState,
                              inputs: seq<Input>, j: nat)
    requires md.Valid() && WellFormed(r.agent, md.numSymbols) && WellFormed(s.agent, md.numSymbols) && j <= |inputs|
  {
    Dominates(After(lo, md, r, inputs, j).agent, After(hi, md, s, inputs, j).agent, md.numSymbols)
  }

  lemma ResetDominates(lo: EnvConfig, hi: EnvConfig, md: MarketData, word: nat)
    requires Comparable(lo, hi, md)
    ensures Dominates(Reset(lo, md, EMPTY_LOG, word).agent, Reset(hi, md, EMPTY_LOG, word).agent, md.numSymbols)
  {
  }

  /** The cheaper run lives at least as long unless early exit is on, and when both end together its
      logged return is at least as high. */
  lemma LowerSlippageOutlives(lo: EnvConfig, hi: EnvConfig, md: MarketData, word: nat, inputs: seq<Input>, k: nat)
    requires Comparable(lo, hi, md) && 0 < k <= |inputs|
    requires AlikeLongs(lo, hi, md, Reset(lo, md, EMPTY_LOG, word), Reset(hi, md, EMPTY_LOG, word), inputs, k)
    requires Unbroken(lo, md, Reset(lo, md, EMPTY_LOG, word), inputs, k - 1)
    requires Unbroken(hi, md, Reset(hi, md, EMPTY_LOG, word), inputs, k - 1)
    ensures Outlives(lo, After(lo, md, Reset(lo, md, EMPTY_LOG, word), inputs, k),
                     After(hi, md, Reset(hi, md, EMPTY_LOG, word), inputs, k), EMPTY_LOG, EMPTY_LOG)
  {
    var r, s := Reset(lo, md, EMPTY_LOG, word), Reset(hi, md, EMPTY_LOG, word);
    ResetLog(lo, md, word);
    ResetLog(hi, md, word);
    hide Step, After, OpensTogetherAt, LongOnly, AlikeLongs, Reset, Dominates, Unbroken;
    ResetDominates(lo, hi, md, word);
    RunsOutlive(lo, hi, md, r, s, inputs, k);
  }

  lemma RunsOutlive(lo: EnvConfig, hi: EnvConfig, md: MarketData, r: EnvState, s: EnvState, inputs: seq<Input>, k: nat)
    requires Comparable(lo, hi, md) && 0 < k <= |inputs| && Dominates(r.agent, s.agent, md.numSymbols)
    requires AlikeLongs(lo, hi, md, r, s, inputs, k)
    requires Unbroken(lo, md, r, inputs, k - 1) && Unbroken(hi, md, s, inputs, k - 1)
    ensures Outlives(lo, After(lo, md, r, inputs, k), After(hi, md, s, inputs, k), r.log, s.log)
  {
    hide Step, After, OpensTogetherAt, LongOnly, AlikeLongs, Unbroken;
    BeforeLast(lo, hi, md, r, s, inputs, k);
    AfterStep(lo, md, r, inputs, k);
    AfterStep(hi, md, s, inputs, k);
    StepOutlives(lo, hi, md, After(lo, md, r, inputs, k - 1), After(hi, md, s, inputs, k - 1), inputs[k - 1],
                 After(lo, md, r, inputs, k), After(hi, md, s, inputs, k), r.log, s.log);
  }

  lemma BeforeLast(lo: EnvConfig, hi: EnvConfig, md: MarketData, r: EnvState, s: EnvState, inputs: seq<Input>, k: nat)
    requires Comparable(lo, hi, md) && 0 < k <= |inputs| && Dominates(r.agent, s.agent, md.numSymbols)
    requires AlikeLongs(lo, hi, md, r, s, inputs, k)
    requires Unbroken(lo, md, r, inputs, k - 1) && Unbroken(hi, md, s, inputs, k - 1)
    ensures Dominates(After(lo, md, r, inputs, k - 1).agent, After(hi, md, s, inputs, k - 1).agent, md.numSymbols)
    ensures LongOnly(hi, md.numSymbols, inputs[k - 1].action)
    ensures OpensTogetherAt(lo, hi, md, After(lo, md, r, inputs, k - 1), After(hi, md, s, inputs, k - 1), inputs[k - 1])
    ensures After(lo, md, r, inputs, k - 1).log == r.log && After(hi, md, s, inputs, k - 1).log == s.log
  {
    hide Step, OpensTogetherAt, LongOnly, AlikeLongs;
    AlikeLast(lo, hi, md, r, s, inputs, k);
    RunsDominate(lo, hi, md, r, s, inputs, k - 1);
    UnbrokenLog(lo, md, r, inputs, k - 1);
    UnbrokenLog(hi, md, s, inputs, k - 1);
  }

  lemma StepOutlives(lo: EnvConfig, hi: EnvConfig, md: MarketData, x: EnvState, y: EnvState, i: Input,
                     x': EnvState, y': EnvState, p: Log, q: Log)
    requires Comparable(lo, hi, md) && Dominates(x.agent, y.agent, md.numSymbols)
    requires LongOnly(hi, md.numSymbols, i.action) && OpensTogetherAt(lo, hi, md, x, y, i)
    requires x' == Step(lo, md, x, i) && y' == Step(hi, md, y, i) && x.log == p && y.log == q
    ensures Outlives(lo, x', y', p, q)
  {
    hide Step;
    StepKeepsDominance(lo, hi, md, x, y, i);
  }

  lemma AlikeLast(lo: EnvConfig, hi: EnvConfig, md: MarketData, r: EnvState, s: EnvState, inputs: seq<Input>, k: nat)
    requires md.Valid() && WellFormed(r.agent, md.numSymbols) && WellFormed(s.agent, md.numSymbols)
    requires 0 < k <= |inputs| && AlikeLongs(lo, hi, md, r, s, inputs, k)
    ensures AlikeLongs(lo, hi, md, r, s, inputs, k - 1)
    ensures LongOnly(hi, md.numSymbols, inputs[k - 1].action)
    ensures OpensTogetherAt(lo, hi, md, After(lo, md, r, inputs, k - 1), After(hi, md, s, inputs, k - 1), inputs[k - 1])
  {
    hide LongOnly, OpensTogetherAt, Step;
  }

  lemma ResetLog(cfg: EnvConfig, md: MarketData, word: nat)
    requires md.Valid()
    ensures Reset(cfg, md, EMPTY_LOG, word).log == EMPTY_LOG
  {
  }
}
