/** Unlevered longs stay solvent, and when the one-pass drawdown is the worst relative fall of the equity
    path. */
module Solvency {
  import opened Prelude
  import opened Engine
  import opened Episode
  import opened Scenario
  import opened Slippage

  /** Unlevered long-only trading at costs that cannot eat more than the sale. The guard is free. */
  ghost predicate Prudent(cfg: EnvConfig) {
    && 0.0 <= cfg.feeRate && 0.0 <= cfg.slippageBps && EffectiveExitFee(cfg) <= 1.0
    && cfg.maxLeverage <= 1.0
  }

  ghost predicate Solvent(a: Agent, s: nat) { WellFormed(a, s) && 0.0 <= a.cash && a.pos < s }

  lemma CloseStaysSolvent(cfg: EnvConfig, row: seq<Bar>, a: Agent)
    requires Prudent(cfg) && Solvent(a, |row|)
    requires forall s :: 0 <= s < |row| ==> 0.0 < row[s].open
    ensures Solvent(Close(cfg, row, a).0, |row|)
  {
    if 0 <= a.pos {
      var p := row[SymOf(a.pos, |row|)].open;
      MulNonNeg(a.qty, p);
      MulNonNeg(a.qty * p, 1.0 - EffectiveExitFee(cfg));
    }
  }

  lemma OpenStaysSolvent(cfg: EnvConfig, row: seq<Bar>, a: Agent, o: Order)
    requires Prudent(cfg) && Solvent(a, |row|) && o.Enter? && !o.isShort && o.sym < |row|
    ensures Solvent(Open(cfg, row, a, o), |row|)
  {
    hide OrderSize, EntryCost;
    var alloc, level := AllocationPct(cfg, o.allocIdx), LevelOffsetBps(cfg, o.levelIdx);
    if OrderSize(cfg, row[o.sym], a.cash, alloc, level, true).Some? {
      EntrySpendsBudget(cfg, row[o.sym], a.cash, alloc, level);
      ShareAtMostOne(cfg, alloc);
      RestMonotone(a.cash, a.cash, Share(cfg, alloc));
    }
  }

  lemma ShareAtMostOne(cfg: EnvConfig, alloc: real)
    requires Prudent(cfg) && 0.0 < alloc
    ensures Share(cfg, alloc) <= 1.0
  {
    var w := if 1.0 < alloc then 1.0 else alloc;
    MulMono(cfg.maxLeverage, 1.0, w);
  }

  lemma TradeStaysSolvent(cfg: EnvConfig, row: seq<Bar>, mask: Option<seq<bool>>, a: Agent, action: int, word: nat)
    requires Prudent(cfg) && Solvent(a, |row|) && (mask.Some? ==> |mask.value| == |row|)
    requires forall s :: 0 <= s < |row| ==> 0.0 < row[s].open
    requires LongOnly(cfg, |row|, action)
    ensures Solvent(TradeBar(cfg, row, mask, a, action, word).agent, |row|)
  {
    CloseStaysSolvent(cfg, row, a);
    var f := ForceClose(cfg, row, mask, a).agent;
    CloseStaysSolvent(cfg, row, f);
    var o := Decode(cfg, |row|, action);
    if ReachesOpen(cfg, row, mask, f, o, word) {
      OpenStaysSolvent(cfg, row, Close(cfg, row, f).0, o);
    }
    hide Close, Open, Decode;
  }

  lemma SettleStaysSolvent(cfg: EnvConfig, md: MarketData, a: Agent)
    requires md.Valid() && PositivePrices(md) && Prudent(cfg) && Solvent(a, md.numSymbols)
    ensures Solvent(Settle(cfg, md, a).0, md.numSymbols)
    ensures 0.0 <= Settle(cfg, md, a).1
  {
    var b := a.(step := a.step + 1);
    var row := md.prices[Clock(md, b)];
    assert BorrowFee(cfg, row, b) == 0.0;
    if 0 <= b.pos {
      MulNonNeg(b.qty, row[SymOf(b.pos, |row|)].close);
    }
  }

  ghost predicate LongOnlyRun(cfg: EnvConfig, md: MarketData, inputs: seq<Input>) {
    forall j :: 0 <= j < |inputs| ==> LongOnly(cfg, md.numSymbols, inputs[j].action)
  }

  lemma StepStaysSolvent(cfg: EnvConfig, md: MarketData, s: EnvState, i: Input)
    requires md.Valid() && PositivePrices(md) && Prudent(cfg) && Solvent(s.agent, md.numSymbols)
    requires LongOnly(cfg, md.numSymbols, i.action)
    ensures Solvent(Settled(cfg, md, s, i).0, md.numSymbols) && 0.0 <= Settled(cfg, md, s, i).1
    ensures Solvent(Step(cfg, md, s, i).agent, md.numSymbols)
  {
    hide TradeBar, Settle, LongOnly;
    var t := Clock(md, s.agent);
    TradeStaysSolvent(cfg, md.prices[t], md.MaskRow(t), s.agent, i.action, i.fillWord);
    SettleStaysSolvent(cfg, md, TradeNow(cfg, md, s.agent, i.action, i.fillWord).agent);
    hide Done, FinalClose, Observe, AddEpisode, Clock;
  }

  /** Through any number of episodes, cash is never negative, and neither is any equity reading. */
  lemma {:induction false} LongsStaySolvent(cfg: EnvConfig, md: MarketData, word: nat, inputs: seq<Input>, k: nat)
    requires md.Valid() && PositivePrices(md) && Prudent(cfg) && LongOnlyRun(cfg, md, inputs) && k <= |inputs|
    ensures Solvent(After(cfg, md, Reset(cfg, md, EMPTY_LOG, word), inputs, k).agent, md.numSymbols)
    ensures 0 < k ==>
      0.0 <= Settled(cfg, md, After(cfg, md, Reset(cfg, md, EMPTY_LOG, word), inputs, k - 1), inputs[k - 1]).1
  {
    hide Step, Settled, Observe, LongOnly;
    if 0 < k {
      LongsStaySolvent(cfg, md, word, inputs, k - 1);
      StepStaysSolvent(cfg, md, After(cfg, md, Reset(cfg, md, EMPTY_LOG, word), inputs, k - 1), inputs[k - 1]);
    }
  }

  // ---------------------------------------------------------------- drawdown

  /** The relative fall from `x` to `y`. */
  function Fall(x: real, y: real): real
    requires 0.0 < x
  {
    (x - y) / x
  }

  ghost predicate IsPeak(path: seq<real>, peak: real) {
    peak in path && forall i :: 0 <= i < |path| ==> path[i] <= peak
  }

  /** `d` is the largest relative fall from any reading to the same or a later one. */
  ghost predicate IsWorstFall(path: seq<real>, d: real) {
    && (forall i, j :: 0 <= i <= j < |path| && 0.0 < path[i] ==> Fall(path[i], path[j]) <= d)
    && (exists i, j :: 0 <= i <= j < |path| && 0.0 < path[i] && Fall(path[i], path[j]) == d)
  }

  lemma FallMonotone(x: real, y: real, e: real)
    requires 0.0 < x <= y && 0.0 <= e
    ensures Fall(x, e) <= Fall(y, e) <= 1.0
  {
    DivAntitone(e, x, y);
    FallAsRatio(x, e);
    FallAsRatio(y, e);
  }

  lemma FallAsRatio(x: real, e: real)
    requires 0.0 < x
    ensures Fall(x, e) == 1.0 - e / x
  {
    var q, r := e / x, Fall(x, e);
    assert q * x == e && r * x == x - e;
    assert (1.0 - q) * x == x - e;
    Cancel(r, 1.0 - q, x);
  }

  /** One more reading keeps the running peak and drawdown right. */
  lemma TrackStep(path: seq<real>, a: Agent, e: real)
    requires IsPeak(path, a.peak) && IsWorstFall(path, a.maxDrawdown) && 0.0 < a.peak && 0.0 <= e
    requires 0.0 <= a.maxDrawdown <= 1.0
    ensures IsPeak(path + [e], Track(a, e).peak) && IsWorstFall(path + [e], Track(a, e).maxDrawdown)
    ensures 0.0 < Track(a, e).peak && 0.0 <= Track(a, e).maxDrawdown <= 1.0
  {
    var q, b := path + [e], Track(a, e);
    var n := |path|;
    assert q[n] == e && forall i :: 0 <= i < n ==> q[i] == path[i];
    FallMonotone(b.peak, b.peak, e);
    assert b.maxDrawdown == MaxReal(a.maxDrawdown, Fall(b.peak, e));
    forall i, j | 0 <= i <= j < |q| && 0.0 < q[i]
      ensures Fall(q[i], q[j]) <= b.maxDrawdown
    {
      if j == n {
        FallMonotone(q[i], b.peak, e);
      }
    }
    TrackPeak(path, a, e);
    if b.maxDrawdown == a.maxDrawdown {
      var i, j :| 0 <= i <= j < |path| && 0.0 < path[i] && Fall(path[i], path[j]) == a.maxDrawdown;
      assert Fall(q[i], q[j]) == b.maxDrawdown;
    } else {
      var i :| 0 <= i < |q| && q[i] == b.peak;
      assert Fall(q[i], q[n]) == b.maxDrawdown;
    }
  }

  lemma TrackPeak(path: seq<real>, a: Agent, e: real)
    requires IsPeak(path, a.peak)
    ensures IsPeak(path + [e], Track(a, e).peak)
  {
    var q := path + [e];
    assert q[|path|] == e;
    var i :| 0 <= i < |path| && path[i] == a.peak;
    assert q[i] == a.peak;
  }

  /** The equity readings of an episode, the starting cash first. */
  function EquityPath(cfg: EnvConfig, md: MarketData, s: EnvState, inputs: seq<Input>, k: nat): (r: seq<real>)
    requires md.Valid() && WellFormed(s.agent, md.numSymbols) && k <= |inputs|
    ensures |r| == k + 1
  {
    if k == 0 then [INITIAL_CASH]
    else EquityPath(cfg, md, s, inputs, k - 1) + [Settled(cfg, md, After(cfg, md, s, inputs, k - 1), inputs[k - 1]).1]
  }

  ghost predicate TrackedBy(path: seq<real>, a: Agent) {
    IsPeak(path, a.peak) && IsWorstFall(path, a.maxDrawdown) && 0.0 < a.peak && 0.0 <= a.maxDrawdown <= 1.0
  }

  /** Settling takes one reading. */
  lemma SettledIsTracked(cfg: EnvConfig, md: MarketData, path: seq<real>, s: EnvState, i: Input) returns (c: Agent)
    requires md.Valid() && WellFormed(s.agent, md.numSymbols) && TrackedBy(path, s.agent)
    ensures TrackedBy(path, c) && Settled(cfg, md, s, i).0 == Track(c, Settled(cfg, md, s, i).1)
  {
    TradeKeepsTime(cfg, md, s.agent, i.action, i.fillWord);
    hide TradeNow, BorrowFee, Equity;
    var b := TradeNow(cfg, md, s.agent, i.action, i.fillWord).agent;
    c := b.(step := b.step + 1, cash := Settled(cfg, md, s, i).0.cash);
  }

  lemma SettleTracks(cfg: EnvConfig, md: MarketData, path: seq<real>, s: EnvState, i: Input)
    requires md.Valid() && WellFormed(s.agent, md.numSymbols) && TrackedBy(path, s.agent)
    requires 0.0 <= Settled(cfg, md, s, i).1
    ensures TrackedBy(path + [Settled(cfg, md, s, i).1], Settled(cfg, md, s, i).0)
  {
    hide Settled, Track;
    var c := SettledIsTracked(cfg, md, path, s, i);
    TrackStep(path, c, Settled(cfg, md, s, i).1);
  }

  /** Over an episode that goes on, any reading is far above zero, so the running numbers are right: for any
      prices, costs and actions. */
  lemma {:induction false} RunTracks(cfg: EnvConfig, md: MarketData, word: nat, inputs: seq<Input>, k: nat)
    requires md.Valid() && k <= |inputs|
    requires Unbroken(cfg, md, Reset(cfg, md, EMPTY_LOG, word), inputs, k)
    ensures TrackedBy(EquityPath(cfg, md, Reset(cfg, md, EMPTY_LOG, word), inputs, k),
                      After(cfg, md, Reset(cfg, md, EMPTY_LOG, word), inputs, k).agent)
    ensures AllPositive(EquityPath(cfg, md, Reset(cfg, md, EMPTY_LOG, word), inputs, k))
  {
    hide Settled, Observe, Step, TrackedBy;
    var s := Reset(cfg, md, EMPTY_LOG, word);
    if k == 0 {
      FreshIsTracked(cfg, md, word);
    } else {
      RunTracks(cfg, md, word, inputs, k - 1);
      var x := After(cfg, md, s, inputs, k - 1);
      assert !After(cfg, md, s, inputs, k).terminal;
      StepIsSettled(cfg, md, x, inputs[k - 1]);
      SettleTracks(cfg, md, EquityPath(cfg, md, s, inputs, k - 1), x, inputs[k - 1]);
    }
  }

  lemma FreshIsTracked(cfg: EnvConfig, md: MarketData, word: nat)
    requires md.Valid()
    ensures TrackedBy([INITIAL_CASH], ResetAgent(cfg, md, word)) && AllPositive([INITIAL_CASH])
  {
    var path := [INITIAL_CASH];
    assert path[0] == INITIAL_CASH;
    assert Fall(path[0], path[0]) == 0.0;
  }

  ghost predicate AllPositive(path: seq<real>) { forall i :: 0 <= i < |path| ==> 0.0 < path[i] }

  /** A negative reading: the tracked drawdown becomes the fall from the peak, beyond one. */
  lemma BelowZeroTracks(path: seq<real>, a: Agent, e: real)
    requires TrackedBy(path, a) && AllPositive(path) && e < 0.0
    ensures Track(a, e).maxDrawdown == Fall(a.peak, e) > 1.0
    ensures IsWorstFall(path + [e], Track(a, e).maxDrawdown) <==> forall i :: 0 <= i < |path| ==> path[i] == a.peak
  {
    var q, d, n := path + [e], Track(a, e).maxDrawdown, |path|;
    assert q[n] == e && forall i :: 0 <= i < n ==> q[i] == path[i];
    BeyondOne(a.peak, e);
    forall i | 0 <= i < n
      ensures Fall(a.peak, e) <= Fall(q[i], e)
      ensures Fall(q[i], e) == d <==> q[i] == a.peak
      ensures forall j :: i <= j < n ==> Fall(q[i], q[j]) <= d
    {
      FallOfLess(q[i], a.peak, e);
      assert forall j :: i <= j < n ==> Fall(q[i], q[j]) == Fall(path[i], path[j]) <= a.maxDrawdown;
    }
    if forall i :: 0 <= i < n ==> path[i] == a.peak {
      assert q[0] == a.peak && Fall(q[0], q[n]) == d;
      assert IsWorstFall(q, d);
    } else {
      var i :| 0 <= i < n && path[i] != a.peak;
      assert Fall(q[i], q[n]) > d;
    }
  }

  lemma BeyondOne(x: real, e: real)
    requires 0.0 < x && e < 0.0
    ensures Fall(x, e) > 1.0
  {
    var f := Fall(x, e);
    assert f * x == x - e;
    if f <= 1.0 {
      MulMono(f, 1.0, x);
    }
  }

  /** From below zero the fall is the larger the less it starts from. */
  lemma FallOfLess(x: real, y: real, e: real)
    requires 0.0 < x <= y && e < 0.0
    ensures Fall(y, e) <= Fall(x, e) && (Fall(x, e) == Fall(y, e) <==> x == y)
  {
    DivAntitone(-e, x, y);
    FallAsRatio(x, e);
    FallAsRatio(y, e);
    var p, q := e / x, e / y;
    assert (-e) / x == -p && (-e) / y == -q;
    assert p * x == e == q * y;
    if p == q {
      assert p * (y - x) == 0.0 && p != 0.0;
    }
  }

  /** After any number of steps of an episode, its last step included, at any prices, costs and actions: the
      drawdown kept in one pass is the worst relative fall over all earlier-later pairs of readings exactly
      when the last reading is not negative, or nothing moved before it. Then it lies between 0 and 1, as long
      as the last reading does; after a negative one it is the fall from the peak, more than 1. It is what an
      ending episode adds to the log. */
  lemma DrawdownIsWorstFall(cfg: EnvConfig, md: MarketData, word: nat, inputs: seq<Input>, k: nat)
    requires md.Valid() && 0 < k <= |inputs|
    requires Unbroken(cfg, md, Reset(cfg, md, EMPTY_LOG, word), inputs, k - 1)
    ensures var s := Reset(cfg, md, EMPTY_LOG, word);
            var path, a := EquityPath(cfg, md, s, inputs, k), Settled(cfg, md, After(cfg, md, s, inputs, k - 1), inputs[k - 1]).0;
            var d := a.maxDrawdown;
            && IsPeak(path, a.peak) && 0.0 < a.peak
            && (IsWorstFall(path, d) <==> 0.0 <= path[k] || forall i :: 0 <= i < k ==> path[i] == INITIAL_CASH)
            && (0.0 <= path[k] ==> 0.0 <= d <= 1.0)
            && (path[k] < 0.0 ==> d == Fall(a.peak, path[k]) > 1.0)
            && (After(cfg, md, s, inputs, k).terminal ==> After(cfg, md, s, inputs, k).log.maxDrawdown == d)
  {
    hide Settled, Observe, Step, Done, FinalClose, IsWorstFall;
    var s := Reset(cfg, md, EMPTY_LOG, word);
    var x, i := After(cfg, md, s, inputs, k - 1), inputs[k - 1];
    RunTracks(cfg, md, word, inputs, k - 1);
    LastReadingTracks(cfg, md, EquityPath(cfg, md, s, inputs, k - 1), x, i);
    PathStarts(cfg, md, s, inputs, k - 1);
    StepIsSettled(cfg, md, x, i);
    UnbrokenLog(cfg, md, s, inputs, k - 1);
    var a := Settled(cfg, md, x, i).0;
    FinalKeepsDrawdown(cfg, md.prices[Clock(md, a)], a);
    var before, path := EquityPath(cfg, md, s, inputs, k - 1), EquityPath(cfg, md, s, inputs, k);
    assert path == before + [Settled(cfg, md, x, i).1];
    assert forall j :: 0 <= j < k ==> path[j] == before[j];
  }

  lemma {:induction false} PathStarts(cfg: EnvConfig, md: MarketData, s: EnvState, inputs: seq<Input>, k: nat)
    requires md.Valid() && WellFormed(s.agent, md.numSymbols) && k <= |inputs|
    ensures EquityPath(cfg, md, s, inputs, k)[0] == INITIAL_CASH
  {
    hide Settled, After;
    if 0 < k {
      PathStarts(cfg, md, s, inputs, k - 1);
    }
  }

  /** One more reading of any sign after a tracked, positive path. */
  lemma LastReadingTracks(cfg: EnvConfig, md: MarketData, path: seq<real>, s: EnvState, i: Input)
    requires md.Valid() && WellFormed(s.agent, md.numSymbols) && TrackedBy(path, s.agent) && AllPositive(path)
    ensures var (a, e) := Settled(cfg, md, s, i);
            && IsPeak(path + [e], a.peak) && 0.0 < a.peak
            && (0.0 <= e ==> TrackedBy(path + [e], a))
            && (e < 0.0 ==> a.maxDrawdown == Fall(a.peak, e) > 1.0)
            && (IsWorstFall(path + [e], a.maxDrawdown) <==> 0.0 <= e || forall j :: 0 <= j < |path| ==> path[j] == path[0])
  {
    var (a, e) := Settled(cfg, md, s, i);
    if 0.0 <= e {
      SettleTracks(cfg, md, path, s, i);
    } else {
      var c := SettledIsTracked(cfg, md, path, s, i);
      BelowZeroTracks(path, c, e);
      TrackPeak(path, c, e);
      assert forall j :: 0 <= j < |path| ==> path[j] <= c.peak;
      var j :| 0 <= j < |path| && path[j] == c.peak;
    }
    hide Settled, IsWorstFall, Track;
  }

  /** So over unlevered longs it always is the worst fall, between 0 and 1. */
  lemma LongsDrawdownIsWorstFall(cfg: EnvConfig, md: MarketData, word: nat, inputs: seq<Input>, k: nat)
    requires md.Valid() && PositivePrices(md) && Prudent(cfg) && LongOnlyRun(cfg, md, inputs) && 0 < k <= |inputs|
    requires Unbroken(cfg, md, Reset(cfg, md, EMPTY_LOG, word), inputs, k - 1)
    ensures var s := Reset(cfg, md, EMPTY_LOG, word);
            var d := Settled(cfg, md, After(cfg, md, s, inputs, k - 1), inputs[k - 1]).0.maxDrawdown;
            0.0 <= d <= 1.0 && IsWorstFall(EquityPath(cfg, md, s, inputs, k), d)
  {
    hide Settled, Step, LongOnlyRun, PositivePrices, Prudent, IsWorstFall, IsPeak;
    LongsStaySolvent(cfg, md, word, inputs, k);
    DrawdownIsWorstFall(cfg, md, word, inputs, k);
  }

  lemma FinalKeepsDrawdown(cfg: EnvConfig, row: seq<Bar>, a: Agent)
    requires WellFormed(a, |row|)
    ensures FinalClose(cfg, row, a).0.maxDrawdown == a.maxDrawdown
  {
    CloseKeepsTime(cfg, row, a);
  }

  // ---------------------------------------------------------------- a drawdown that is not the worst fall

  /** A short at 100 that first loses a tenth and then all and more. */
  function Squeeze(): MarketData { OneSymbol([100.0, 110.0, 400.0, 400.0]) }

  function HoldShort(): seq<Input> { [Input(SHORT, 0, 0), Input(SHORT, 0, 0)] }

  /** The account after the first bar, before and after it is settled, and at the second. */
  function Shorted(): Agent { Agent(20000.0, 1, 100.0, 100.0, 0, INITIAL_CASH, INITIAL_CASH, 0, 0, 0.0, 0, 0) }

  function Squeezed(): Agent { Shorted().(step := 1, maxDrawdown := 0.1) }

  lemma SqueezeIsValid()
    ensures Squeeze().Valid() && Squeeze().T() == 4 && Squeeze().numSymbols == 1 && Squeeze().tradable.None?
    ensures Squeeze().prices[0] == [FlatBar(100.0)] && Squeeze().prices[1] == [FlatBar(110.0)]
    ensures Squeeze().prices[2] == [FlatBar(400.0)]
    ensures ResetAgent(Plain(10), Squeeze(), 0).offset == 0
  {
    OneSymbolIsValid([100.0, 110.0, 400.0, 400.0]);
  }

  lemma ShortIsOpened()
    ensures Squeeze().Valid()
    ensures TradeNow(Plain(10), Squeeze(), ResetAgent(Plain(10), Squeeze(), 0), SHORT, 0).agent == Shorted()
  {
    hide TradeBar, Squeeze;
    SqueezeIsValid();
    FirstTrade(Plain(10), ResetAgent(Plain(10), Squeeze(), 0), true, 0);
  }

  lemma FirstLoss()
    ensures Squeeze().Valid() && WellFormed(Shorted(), 1)
    ensures var cfg, md := Plain(10), Squeeze();
            Settle(cfg, md, Shorted()) == (Squeezed(), 9000.0) && !Done(cfg, md, Squeezed(), 9000.0)
  {
    hide Squeeze;
    SqueezeIsValid();
    assert Equity([FlatBar(110.0)], Shorted().(step := 1)) == 9000.0;
  }

  lemma SecondLoss()
    ensures Squeeze().Valid() && WellFormed(Squeezed(), 1)
    ensures var cfg, md := Plain(10), Squeeze();
            && TradeNow(cfg, md, Squeezed(), SHORT, 0).agent == Squeezed().(hold := 1)
            && Settle(cfg, md, Squeezed().(hold := 1)).1 == -20000.0
  {
    SqueezeIsValid();
    DecodesSides(Plain(10));
    hide Decode, Squeeze;
    assert Equity([FlatBar(400.0)], Squeezed().(hold := 1, step := 2)) == -20000.0;
  }

  /** The log of this run reports a drawdown of 3, the fall from the starting 10000 to -20000; the fall from
      9000 is deeper. */
  lemma ShortsOverrunTheDrawdown()
    ensures Squeeze().Valid()
    ensures var s := Reset(Plain(10), Squeeze(), EMPTY_LOG, 0);
            && Unbroken(Plain(10), Squeeze(), s, HoldShort(), 1)
            && EquityPath(Plain(10), Squeeze(), s, HoldShort(), 2) == [10000.0, 9000.0, -20000.0]
            && After(Plain(10), Squeeze(), s, HoldShort(), 2).terminal
            && After(Plain(10), Squeeze(), s, HoldShort(), 2).log.maxDrawdown == 3.0
            && !IsWorstFall([10000.0, 9000.0, -20000.0], 3.0)
  {
    hide TradeNow, Settle, Observe, FinalClose, Squeeze, EarlyExit, Clock, Squeezed, Shorted;
    SqueezeIsValid();
    ShortIsOpened();
    FirstLoss();
    SecondLoss();
    var cfg, md, inputs := Plain(10), Squeeze(), HoldShort();
    var s := Reset(cfg, md, EMPTY_LOG, 0);
    StepIsSettled(cfg, md, s, inputs[0]);
    AfterStep(cfg, md, s, inputs, 1);
    assert After(cfg, md, s, inputs, 1).agent == Squeezed();
    StepIsSettled(cfg, md, After(cfg, md, s, inputs, 1), inputs[1]);
    AfterStep(cfg, md, s, inputs, 2);
    var path := EquityPath(cfg, md, s, inputs, 2);
    assert path == [10000.0, 9000.0, -20000.0];
    DrawdownIsWorstFall(cfg, md, 0, inputs, 2);
    assert path[1] != INITIAL_CASH;
    assert Fall(10000.0, -20000.0) == 3.0;
    hide IsWorstFall;
  }
}
