/** On what terms the paper trader fills: prices, quantities and profits of single orders, and of every fill in the
    ledger of any run. */
module PaperFills {
  import opened Prelude
  import opened Engine
  import opened Orders
  import opened Strategy
  import opened WaterFilling
  import opened Sizer
  import opened KrakenPaper
  import opened PaperLedger
  import opened LostFills
  import B = Broker

  /** The simulated fill at a positive target, in basis points. A buy needs the bar to dip the buffer below the
      target and to reach the slipped price above it; a sell the mirror image. No fill is a price of zero. */
  lemma FillPriceExactly(bar: Bar, target: real, bufferBps: real, slippageBps: real)
    requires 0.0 < target && 0.0 <= slippageBps < 10000.0
    ensures var buy := FillPrice(bar, target, bufferBps, slippageBps, true);
            && (buy > 0.0 <==>
                  && (LowOf(bar) <= 0.0 || 10000.0 * LowOf(bar) <= target * (10000.0 - bufferBps))
                  && target * (10000.0 + slippageBps) <= 10000.0 * HighOf(bar))
            && (buy == 0.0 || 10000.0 * buy == target * (10000.0 + slippageBps))
    ensures var sell := FillPrice(bar, target, bufferBps, slippageBps, false);
            && (sell > 0.0 <==>
                  && target * (10000.0 + bufferBps) <= 10000.0 * HighOf(bar)
                  && 10000.0 * LowOf(bar) <= target * (10000.0 - slippageBps))
            && (sell == 0.0 || 10000.0 * sell == target * (10000.0 - slippageBps))
  {
    hide LimitFill, LowOf, HighOf;
    FillsExactly(BareEnv(bufferBps, slippageBps), bar, target);
    MulPositive(target, 10000.0 + slippageBps);
    MulPositive(target, 10000.0 - slippageBps);
    PriceOfFill(bar, target, bufferBps, slippageBps, true);
    PriceOfFill(bar, target, bufferBps, slippageBps, false);
    hide FillPrice;
  }

  lemma PriceOfFill(bar: Bar, target: real, bufferBps: real, slippageBps: real, isBuy: bool)
    ensures var fill := LimitFill(BareEnv(bufferBps, slippageBps), bar, target, isBuy);
            FillPrice(bar, target, bufferBps, slippageBps, isBuy) == if fill.Some? then fill.value else 0.0
  {
    hide LimitFill;
  }

  lemma FillPriceIsSlipped(bar: Bar, target: real, bufferBps: real, slippageBps: real, isBuy: bool)
    ensures var fill := FillPrice(bar, target, bufferBps, slippageBps, isBuy);
            fill > 0.0 ==> 10000.0 * fill == target * if isBuy then 10000.0 + slippageBps else 10000.0 - slippageBps
  {
    hide LimitFill;
    FillsExactly(BareEnv(bufferBps, slippageBps), bar, target);
  }

  /** A round trip's net is what the sale brings in after its fee less what the buy cost with its own. */
  lemma NetIsCashFlow(feeRate: real, qty: real, entry: real, exit: real)
    ensures Net(feeRate, qty, entry, exit) == qty * exit * (1.0 - feeRate) - qty * entry * (1.0 + feeRate)
  {
    var x, y := qty * entry, qty * exit;
    assert qty * (exit - entry) == y - x;
    assert feeRate * qty * (entry + exit) == feeRate * x + feeRate * y;
  }

  /** What a fill says of its own terms: the price is the decision price moved by the slippage against the trader,
      and a buy spends at the decision price no more than a share of the equity. */
  predicate InTerms(p: Params, f: PaperFill, share: real) {
    if f.side == "buy" then
      && 10000.0 * f.fillPrice == f.decisionPrice * (10000.0 + p.slippageBps)
      && f.qty * f.decisionPrice <= share * p.equity
    else 10000.0 * f.fillPrice == f.decisionPrice * (10000.0 - p.slippageBps)
  }

  ghost predicate AllInTerms(p: Params, fills: seq<PaperFill>, share: real) {
    forall f :: f in fills ==> InTerms(p, f, share)
  }

  lemma QuantityBuysTheShare(weight: real, equity: real, price: real)
    requires price > 0.0
    ensures Quantity(weight, equity, price) * price == weight * equity
  {
  }

  /** An entry buys its weight of the equity at the close. */
  lemma EntryTerms(p: Params, g: Progress, sym: string, weight: real, bar: Bar, clock: Clock)
    ensures var h := Entry(p, g, sym, weight, bar, clock);
            h.events != g.events ==>
              && |h.events| == |g.events| + 1 && h.events[..|g.events|] == g.events
              && var f := h.events[|g.events|];
                 && f.side == "buy" && f.symbol == sym && f.decisionPrice == bar.close
                 && f.qty * bar.close == weight * p.equity
                 && 10000.0 * f.fillPrice == bar.close * (10000.0 + p.slippageBps)
  {
    if bar.close > 0.0 {
      QuantityBuysTheShare(weight, p.equity, bar.close);
      FillPriceIsSlipped(bar, bar.close, p.bufferBps, p.slippageBps, true);
    }
    hide FillPrice, Quantity, B.Executes, B.Submitted;
  }

  /** An exit sells the whole of what is held at the close and books the cash it made. */
  lemma ExitTerms(p: Params, g: Progress, sym: string, bar: Bar, clock: Clock)
    ensures var h := Exit(p, g, sym, bar, clock);
            h.events != g.events ==>
              && |h.events| == |g.events| + 1 && h.events[..|g.events|] == g.events && HeldOf(g.held, sym).Some?
              && var f, holding := h.events[|g.events|], HeldOf(g.held, sym).value;
                 && f.side == "sell" && f.symbol == sym && f.decisionPrice == bar.close && f.qty == holding.qty
                 && 10000.0 * f.fillPrice == bar.close * (10000.0 - p.slippageBps)
                 && h.pnl - g.pnl == f.realizedPnl
                 && f.realizedPnl == f.qty * f.fillPrice * (1.0 - p.feeRate)
                                     - f.qty * holding.entryFill * (1.0 + p.feeRate)
  {
    FillPriceIsSlipped(bar, bar.close, p.bufferBps, p.slippageBps, false);
    if HeldOf(g.held, sym).Some? {
      var holding := HeldOf(g.held, sym).value;
      NetIsCashFlow(p.feeRate, holding.qty, holding.entryFill,
                    FillPrice(bar, bar.close, p.bufferBps, p.slippageBps, false));
    }
    hide FillPrice, Net, B.Executes, B.Submitted, HeldOf, Without;
  }

  lemma OneMoreInTerms(p: Params, fills: seq<PaperFill>, more: seq<PaperFill>, share: real)
    requires AllInTerms(p, fills, share) && |more| == |fills| + 1 && more[..|fills|] == fills
    requires InTerms(p, more[|fills|], share)
    ensures AllInTerms(p, more, share)
  {
    assert more == fills + [more[|fills|]];
  }

  lemma {:induction false} ExitsInTerms(p: Params, g: Progress, syms: seq<string>, snap: Snapshot, wanted: set<string>,
                                        clock: Clock, share: real)
    requires AllInTerms(p, g.events, share)
    ensures AllInTerms(p, Exits(p, g, syms, snap, wanted, clock).events, share)
    decreases |syms|
  {
    if g.raised || syms == [] {
    } else if syms[0] in wanted || syms[0] !in snap.bars {
      ExitsInTerms(p, g, syms[1..], snap, wanted, clock, share);
    } else {
      var h := Exit(p, g, syms[0], snap.bars[syms[0]], clock);
      ExitTerms(p, g, syms[0], snap.bars[syms[0]], clock);
      if h.events != g.events {
        OneMoreInTerms(p, g.events, h.events, share);
      }
      ExitsInTerms(p, h, syms[1..], snap, wanted, clock, share);
    }
    hide Exit, HeldOf, AllInTerms;
  }

  lemma {:induction false} EntriesInTerms(p: Params, g: Progress, targets: seq<Position>, snap: Snapshot, clock: Clock,
                                          share: real)
    requires AllInTerms(p, g.events, share) && 0.0 <= p.equity
    requires forall i :: 0 <= i < |targets| ==> targets[i].weight <= share
    ensures AllInTerms(p, Entries(p, g, targets, snap, clock).events, share)
    decreases |targets|
  {
    if g.raised || targets == [] {
    } else if HeldOf(g.held, targets[0].symbol).Some? {
      EntriesInTerms(p, g, targets[1..], snap, clock, share);
    } else if targets[0].symbol in snap.bars {
      var bar := snap.bars[targets[0].symbol];
      var h := Entry(p, g, targets[0].symbol, targets[0].weight, bar, clock);
      EntryTerms(p, g, targets[0].symbol, targets[0].weight, bar, clock);
      MulMono(targets[0].weight, share, p.equity);
      if h.events != g.events {
        OneMoreInTerms(p, g.events, h.events, share);
      }
      EntriesInTerms(p, h, targets[1..], snap, clock, share);
    }
    hide Entry, HeldOf, AllInTerms;
  }

  /** No target weighs more than the cap with its tolerance. */
  lemma TargetsAreCapped(signals: seq<SymbolSignal>, cfg: StrategyConfig)
    requires Sane(cfg) && Targets(signals, cfg).Some?
    ensures forall i :: 0 <= i < |Targets(signals, cfg).value| ==>
              Targets(signals, cfg).value[i].weight <= cfg.maxPositionWeight + TOLERANCE
  {
    var picks := SelectPicks(FilterByConviction(signals, cfg), cfg);
    if picks != [] {
      EveryPickIsFunded(picks, cfg);
      PositionsMatchPicks(picks, Allocation(picks, cfg));
      forall i | 0 <= i < |picks|
        ensures Allocation(picks, cfg)[picks[i].symbol] <= cfg.maxPositionWeight + TOLERANCE
      {
        WeightIsCapped(picks, cfg, i);
      }
    }
    hide SelectPicks, FilterByConviction, Allocation, Positions, Divisible;
  }

  lemma WeightIsCapped(picks: seq<SymbolSignal>, cfg: StrategyConfig, i: nat)
    requires Sane(cfg) && i < |picks|
    ensures Divisible(picks, cfg.minVolatility) && picks[i].symbol in Allocation(picks, cfg)
    ensures Allocation(picks, cfg)[picks[i].symbol] <= cfg.maxPositionWeight + TOLERANCE
  {
    NamesAreKeys(picks, cfg.minVolatility);
    NamesHasEveryPick(picks, i);
    LowerVolatilityEarnsMore(picks, cfg, picks[i].symbol, picks[i].symbol);
    hide Allocation, Raw, Names, Divisible;
  }

  /** Every fill in the ledger of any run, steps that raise included, is on these terms: slipped against the trader,
      and no buy larger than the cap on one name, with its tolerance, allows. */
  lemma {:induction false} LedgerInTerms(p: Params, history: nat, score: Score, ticks: seq<Tick>)
    requires Quoted(ticks) && Sane(p.strategy) && 0.0 <= p.equity
    ensures AllInTerms(p, Run(p, history, score, ticks).fills, p.strategy.maxPositionWeight + TOLERANCE)
  {
    if ticks != [] {
      var last := ticks[|ticks| - 1];
      var t := Run(p, history, score, ticks[..|ticks| - 1]);
      LedgerInTerms(p, history, score, ticks[..|ticks| - 1]);
      DealtInTerms(p, history, score, t, last.snap, last.clock);
      hide AllInTerms, Trade, Targets, Signals;
      MoreInTerms(p, t.fills, Dealt(p, history, score, t, last.snap, last.clock),
                  p.strategy.maxPositionWeight + TOLERANCE);
    }
  }

  lemma MoreInTerms(p: Params, fills: seq<PaperFill>, more: seq<PaperFill>, share: real)
    requires AllInTerms(p, fills, share) && AllInTerms(p, more, share)
    ensures AllInTerms(p, fills + more, share)
  {
  }

  lemma DealtInTerms(p: Params, history: nat, score: Score, t: Trader, snap: Snapshot, clock: Clock)
    requires snap.Quoted() && Sane(p.strategy) && 0.0 <= p.equity
    ensures AllInTerms(p, Dealt(p, history, score, t, snap, clock), p.strategy.maxPositionWeight + TOLERANCE)
  {
    var signals := Signals(BarsAfter(t, history, snap), snap.names, score);
    var share := p.strategy.maxPositionWeight + TOLERANCE;
    if Targets(signals, p.strategy).Some? {
      var targets := Targets(signals, p.strategy).value;
      var start := Progress(t.held, t.pnl, t.book, [], false);
      TargetsAreCapped(signals, p.strategy);
      ExitsInTerms(p, start, HeldNames(t.held), snap, Wanted(targets), clock, share);
      EntriesInTerms(p, Exits(p, start, HeldNames(t.held), snap, Wanted(targets), clock), targets, snap, clock, share);
    }
    hide Targets, Signals, Exits, Entries, InTerms, BarsAfter;
  }
}
