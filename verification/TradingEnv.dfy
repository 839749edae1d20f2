/** The environment as the program keeps it: one mutable struct whose functions update the account,
    the log and the observation buffer in place. Each method is proved to do what the functions of
    Engine and Episode say. */
module TradingEnv {
  import opened Prelude
  import opened Engine
  import opened Episode
  import opened Observation

  class TradingEnv {
    const cfg: EnvConfig
    const md: MarketData
    var cash: real
    var positionSym: int
    var positionQty: real
    var entryPrice: real
    var holdHours: int
    var peakEquity: real
    var initialEquity: real
    var numTrades: int
    var winningTrades: int
    var maxDrawdown: real
    var dataOffset: int
    var step: int
    var log: Log
    var terminal: bool
    const observations: array<real>

    ghost function Account(): Agent
      reads this
    {
      Agent(cash, positionSym, positionQty, entryPrice, holdHours, peakEquity, initialEquity,
            numTrades, winningTrades, maxDrawdown, dataOffset, step)
    }

    ghost function State(): EnvState
      reads this, observations
    {
      EnvState(Account(), log, terminal, observations[..])
    }

    ghost predicate Valid()
      reads this
    {
      && md.Valid()
      && WellFormed(Account(), md.numSymbols)
      && observations.Length == |md.features[0]| + 5 + md.numSymbols
    }

    constructor (cfg: EnvConfig, md: MarketData, word: nat)
      requires md.Valid()
      ensures Valid() && this.cfg == cfg && this.md == md && fresh(observations)
      ensures State() == Reset(cfg, md, EMPTY_LOG, word)
    {
      this.cfg, this.md := cfg, md;
      log := EMPTY_LOG;
      observations := new real[|md.features[0]| + 5 + md.numSymbols];
      new;
      CReset(word);
    }

    method ResetAgentState(word: nat)
      requires md.Valid()
      modifies this
      ensures Account() == ResetAgent(cfg, md, word)
      ensures log == old(log) && terminal == old(terminal)
    {
      var top := md.T() - cfg.maxSteps - 1;
      if 0 <= cfg.forcedOffset {
        dataOffset := cfg.forcedOffset;
        if top < dataOffset && 0 <= top {
          dataOffset := top;
        }
      } else if top <= 0 {
        dataOffset := 0;
      } else {
        dataOffset := FastRandInt(top + 1, word);
      }
      step := 0;
      cash := INITIAL_CASH;
      positionSym := -1;
      positionQty := 0.0;
      entryPrice := 0.0;
      holdHours := 0;
      peakEquity := INITIAL_CASH;
      initialEquity := INITIAL_CASH;
      numTrades := 0;
      winningTrades := 0;
      maxDrawdown := 0.0;
    }

    method CReset(word: nat)
      requires md.Valid() && observations.Length == |md.features[0]| + 5 + md.numSymbols
      modifies this, observations
      ensures Valid() && State() == Reset(cfg, md, old(log), word)
    {
      ResetAgentState(word);
      terminal := false;
      FillObservations();
    }

    /** Copies the lagged feature row to the front of the buffer. */
    method CopyFeatures(t: nat)
      requires Valid() && t < md.T()
      modifies observations
      ensures observations[..|md.features[0]|] == md.features[t]
    {
      for i := 0 to |md.features[0]|
        invariant observations[..i] == md.features[t][..i]
      {
        observations[i] := md.features[t][i];
      }
    }

    /** Zeroes the one-hot stretch and marks the held symbol, 1 for a long and -1 for a short. */
    method WriteOneHot(base: nat)
      requires Valid() && base == |md.features[0]| + 5
      modifies observations
      ensures observations[..base] == old(observations[..base])
      ensures observations[base..] == OneHot(positionSym, md.numSymbols)
    {
      var s := md.numSymbols;
      for i := base to base + s
        invariant observations[..base] == old(observations[..base])
        invariant forall j :: base <= j < i ==> observations[j] == 0.0
      {
        observations[i] := 0.0;
      }
      if 0 <= positionSym < s {
        observations[base + positionSym] := 1.0;
      } else if s <= positionSym < 2 * s {
        observations[base + (positionSym - s)] := -1.0;
      }
    }

    /** Writes the five portfolio numbers, valued at the observed row. */
    method WritePortfolio(base: nat, tObs: nat)
      requires Valid() && tObs < md.T() && base == |md.features[0]|
      modifies observations
      ensures observations[..base] == old(observations[..base])
      ensures observations[base..base + 5] == PortfolioNumbers(cfg, md.prices[tObs], Account())
    {
      var posVal, unrealPnl := 0.0, 0.0;
      if 0 <= positionSym {
        var price := md.prices[tObs][SymOf(positionSym, md.numSymbols)].close;
        posVal := MarkedValue(positionQty, price, md.numSymbols <= positionSym);
        unrealPnl := MarkedGain(positionQty, entryPrice, price, md.numSymbols <= positionSym);
      }
      assert (posVal, unrealPnl) == Marked(md.prices[tObs], Account());
      observations[base] := Scaled(cash);
      observations[base + 1] := Scaled(posVal);
      observations[base + 2] := Scaled(unrealPnl);
      observations[base + 3] := OfHorizon(cfg, holdHours);
      observations[base + 4] := OfHorizon(cfg, step);
    }

    /** Fills the buffer in three stretches: the feature row, the five portfolio numbers, and the
        one-hot position. */
    method FillObservations()
      requires Valid()
      modifies observations
      ensures observations[..] == Observe(cfg, md, Account())
      ensures Shows(cfg, md, Account(), observations[..])
    {
      hide Shows, Observe;
      ObservationShows(cfg, md, Account());
      ObserveInParts(cfg, md, Account());
      var t := dataOffset + step;
      if md.T() <= t {
        t := md.T() - 1;
      }
      var lag := if 1 <= cfg.decisionLag then cfg.decisionLag else 1;
      var tObs := t - lag;
      if tObs < 0 {
        tObs := 0;
      }
      hide PortfolioNumbers, OneHot;
      var base := |md.features[0]|;
      CopyFeatures(tObs);
      WritePortfolio(base, tObs);
      assert observations[..base] == md.features[tObs];
      ghost var front := observations[..base + 5];
      assert front == observations[..base] + observations[base..base + 5];
      WriteOneHot(base + 5);
      assert observations[..] == observations[..base + 5] + observations[base + 5..];
    }

    method ComputeEquity(t: nat) returns (equity: real)
      requires Valid() && t < md.T()
      ensures equity == Equity(md.prices[t], Account())
    {
      equity := cash;
      if 0 <= positionSym {
        var price := md.prices[t][SymOf(positionSym, md.numSymbols)].close;
        if md.numSymbols <= positionSym {
          equity := equity - positionQty * price;
        } else {
          equity := equity + positionQty * price;
        }
      }
    }

    /** Closes the open position at the bar's open unless the guard refuses. */
    method ClosePosition(t: nat) returns (closed: bool)
      requires Valid() && t < md.T()
      modifies this
      ensures Valid() && log == old(log) && terminal == old(terminal)
      ensures (Account(), closed) == Close(cfg, md.prices[t], old(Account()))
    {
      if positionSym < 0 {
        return false;
      }
      var price := md.prices[t][SymOf(positionSym, md.numSymbols)].open;
      var isShort := md.numSymbols <= positionSym;
      if GuardRefuses(cfg, price, entryPrice, holdHours, isShort) {
        holdHours := holdHours + 1;
        return false;
      }
      cash := ExitCash(cfg, cash, positionQty, price, isShort);
      var pnl := if isShort then entryPrice - price else price - entryPrice;
      if 0.0 < pnl {
        winningTrades := winningTrades + 1;
      }
      numTrades := numTrades + 1;
      positionSym := -1;
      positionQty := 0.0;
      entryPrice := 0.0;
      holdHours := 0;
      return true;
    }

    method OpenPosition(t: nat, isShort: bool, sym: nat, alloc: real, levelBps: real)
      requires Valid() && t < md.T() && sym < md.numSymbols
      modifies this
      ensures Valid() && log == old(log) && terminal == old(terminal)
      ensures Account() == if isShort then OpenShort(cfg, md.prices[t], old(Account()), sym, alloc, levelBps)
                           else OpenLong(cfg, md.prices[t], old(Account()), sym, alloc, levelBps)
    {
      var size := OrderSize(cfg, md.prices[t][sym], cash, alloc, levelBps, !isShort);
      if size.None? {
        return;
      }
      var (fill, qty) := size.value;
      if isShort {
        cash := cash + ShortProceeds(cfg, qty, fill);
        positionSym := md.numSymbols + sym;
      } else {
        var cost := EntryCost(cfg, qty, fill);
        if cost <= 0.0 {
          return;
        }
        cash := cash - cost;
        positionSym := sym;
      }
      positionQty := qty;
      entryPrice := fill;
      holdHours := 0;
    }

    method ForceClosePhase(t: nat) returns (tradeEvents: nat)
      requires Valid() && t < md.T()
      modifies this
      ensures Valid() && log == old(log) && terminal == old(terminal)
      ensures var want := ForceClose(cfg, md.prices[t], md.MaskRow(t), old(Account()));
              Account() == want.agent && tradeEvents == want.closes
    {
      tradeEvents := 0;
      if 0 < cfg.maxHoldHours && 0 <= positionSym && cfg.maxHoldHours <= holdHours {
        if Tradable(md.MaskRow(t), SymOf(positionSym, md.numSymbols)) {
          var closed := ClosePosition(t);
          if closed {
            tradeEvents := 1;
          }
        }
      }
    }

    /** Carries out the decoded action. */
    method ActPhase(t: nat, o: Order, word: nat) returns (tradeEvents: nat)
      requires Valid() && t < md.T() && (o.Enter? ==> o.sym < md.numSymbols)
      modifies this
      ensures Valid() && log == old(log) && terminal == old(terminal)
      ensures var want := Act(cfg, md.prices[t], md.MaskRow(t), old(Account()), o, word);
              Account() == want.agent && tradeEvents == want.closes + want.opens
    {
      tradeEvents := 0;
      var s := md.numSymbols;
      var mask := md.MaskRow(t);
      var curTradable := true;
      if 0 <= positionSym {
        curTradable := Tradable(mask, SymOf(positionSym, s));
      }
      match o
      case Invalid =>
      case GoFlat =>
        if 0 <= positionSym {
          if curTradable {
            var closed := ClosePosition(t);
            if closed {
              tradeEvents := 1;
            }
          } else {
            holdHours := holdHours + 1;
          }
        }
      case Enter(isShort, sym, allocIdx, levelIdx) =>
        var target := if isShort then s + sym else sym;
        if positionSym == target {
          holdHours := holdHours + 1;
        } else if !Tradable(mask, sym) {
          if 0 <= positionSym {
            holdHours := holdHours + 1;
          }
        } else if 0 <= positionSym && !curTradable {
          holdHours := holdHours + 1;
        } else {
          var closeOk := true;
          if 0 <= positionSym {
            closeOk := ClosePosition(t);
            if closeOk {
              tradeEvents := 1;
            }
          }
          if closeOk {
            if FillLottery(cfg, word) {
              OpenPosition(t, isShort, sym, AllocationPct(cfg, allocIdx), LevelOffsetBps(cfg, levelIdx));
              if positionSym == target {
                tradeEvents := tradeEvents + 1;
              }
            }
          }
        }
    }

    /** The forced close, then the decoded action. */
    method TradePhase(t: nat, action: int, word: nat) returns (tradeEvents: nat)
      requires Valid() && t < md.T()
      modifies this
      ensures Valid() && log == old(log) && terminal == old(terminal)
      ensures var want := TradeBar(cfg, md.prices[t], md.MaskRow(t), old(Account()), action, word);
              Account() == want.agent && tradeEvents == want.closes + want.opens
    {
      var forced := ForceClosePhase(t);
      var acted := ActPhase(t, Decode(cfg, md.numSymbols, action), word);
      tradeEvents := forced + acted;
    }

    /** Time moves on: valuation, borrow, peak and drawdown. */
    method SettlePhase() returns (equityAfter: real)
      requires Valid()
      modifies this
      ensures Valid() && log == old(log) && terminal == old(terminal)
      ensures (Account(), equityAfter) == Settle(cfg, md, old(Account()))
    {
      step := step + 1;
      var t := dataOffset + step;
      if md.T() <= t {
        t := md.T() - 1;
      }
      equityAfter := ComputeEquity(t);
      var fee := BorrowFee(cfg, md.prices[t], Agent(cash, positionSym, positionQty, entryPrice, holdHours,
        peakEquity, initialEquity, numTrades, winningTrades, maxDrawdown, dataOffset, step));
      if 0.0 < fee {
        cash := cash - fee;
        equityAfter := equityAfter - fee;
      }
      if peakEquity < equityAfter {
        peakEquity := equityAfter;
      }
      if 0.0 < peakEquity {
        var drawdown := (peakEquity - equityAfter) / peakEquity;
        if maxDrawdown < drawdown {
          maxDrawdown := drawdown;
        }
      }
    }

    /** The terminal branch: close, log, reset. */
    method FinishPhase(word: nat)
      requires Valid()
      modifies this
      ensures Valid() && terminal && Account() == ResetAgent(cfg, md, word)
      ensures var row := md.prices[Clock(md, old(Account()))];
              var (closed, finalEquity) := FinalClose(cfg, row, old(Account()));
              log == AddEpisode(old(log), closed, finalEquity)
    {
      var t := dataOffset + step;
      if md.T() <= t {
        t := md.T() - 1;
      }
      var finalEquity;
      if 0 <= positionSym {
        var closed := ClosePosition(t);
        if closed {
          finalEquity := cash;
        } else {
          finalEquity := ComputeEquity(t);
        }
      } else {
        finalEquity := cash;
      }
      var totalReturn := (finalEquity - initialEquity) / initialEquity;
      log := Log(log.totalReturn + totalReturn,
                 log.maxDrawdown + maxDrawdown,
                 log.numTrades + numTrades as real,
                 log.winRate + (if 0 < numTrades then winningTrades as real / numTrades as real else 0.0),
                 log.avgHold + (if 0 < numTrades then step as real / numTrades as real else 0.0),
                 log.n + 1);
      terminal := true;
      ResetAgentState(word);
    }

    method CStep(i: Input)
      requires Valid()
      modifies this, observations
      ensures Valid() && State() == Step(cfg, md, old(State()), i)
    {
      terminal := false;
      var t := dataOffset + step;
      if md.T() <= t {
        t := md.T() - 1;
      }
      var tradeEvents := TradePhase(t, i.action, i.fillWord);
      assert Account() == TradeNow(cfg, md, old(Account()), i.action, i.fillWord).agent;
      var equityAfter := SettlePhase();
      var done := Done(cfg, md, Agent(cash, positionSym, positionQty, entryPrice, holdHours,
        peakEquity, initialEquity, numTrades, winningTrades, maxDrawdown, dataOffset, step), equityAfter);
      if done {
        FinishPhase(i.offsetWord);
      }
      FillObservations();
    }
  }
}
