/** How long a position can be held, and how trades are counted. */
module HoldingTime {
  import opened Prelude
  import opened Engine
  import opened Episode
  import opened Scenario

  // ---------------------------------------------------------------- counting

  function Held(a: Agent): nat { if 0 <= a.pos then 1 else 0 }

  lemma CloseCounts(cfg: EnvConfig, row: seq<Bar>, a: Agent)
    requires WellFormed(a, |row|)
    ensures var (b, closed) := Close(cfg, row, a);
            var n := if closed then 1 else 0;
            b.numTrades == a.numTrades + n && Held(b) == Held(a) - n
  {
  }

  lemma OpenCounts(cfg: EnvConfig, row: seq<Bar>, a: Agent, o: Order)
    requires WellFormed(a, |row|) && a.pos < 0 && o.Enter? && o.sym < |row|
    ensures Open(cfg, row, a, o).numTrades == a.numTrades
    ensures Held(Open(cfg, row, a, o)) == if Open(cfg, row, a, o).pos == TargetPos(o, |row|) then 1 else 0
    ensures Open(cfg, row, a, o).pos != TargetPos(o, |row|) ==> Open(cfg, row, a, o) == a
    ensures Open(cfg, row, a, o).pos == TargetPos(o, |row|) ==> Open(cfg, row, a, o).hold == 0
  {
  }

  /** One bar: positions closed go to the trade count, positions opened to the holding. */
  lemma TradeCounts(cfg: EnvConfig, row: seq<Bar>, mask: Option<seq<bool>>, a: Agent, action: int, word: nat)
    requires WellFormed(a, |row|) && (mask.Some? ==> |mask.value| == |row|)
    ensures var r := TradeBar(cfg, row, mask, a, action, word);
            && r.agent.numTrades == a.numTrades + r.closes
            && Held(r.agent) == Held(a) + r.opens - r.closes
  {
    CloseCounts(cfg, row, a);
    var f := ForceClose(cfg, row, mask, a).agent;
    CloseCounts(cfg, row, f);
    var o := Decode(cfg, |row|, action);
    if ReachesOpen(cfg, row, mask, f, o, word) {
      OpenCounts(cfg, row, Close(cfg, row, f).0, o);
    }
    hide Close, Open, Decode;
  }

  /** Positions opened during the first `k` steps. */
  function Opens(cfg: EnvConfig, md: MarketData, s: EnvState, inputs: seq<Input>, k: nat): nat
    requires md.Valid() && WellFormed(s.agent, md.numSymbols) && k <= |inputs|
  {
    if k == 0 then 0
    else
      var x := After(cfg, md, s, inputs, k - 1);
      Opens(cfg, md, s, inputs, k - 1) + TradeNow(cfg, md, x.agent, inputs[k - 1].action, inputs[k - 1].fillWord).opens
  }

  lemma SettleKeepsCounts(cfg: EnvConfig, md: MarketData, a: Agent)
    requires md.Valid() && WellFormed(a, md.numSymbols)
    ensures var b := Settle(cfg, md, a).0;
            b.numTrades == a.numTrades && b.pos == a.pos && b.hold == a.hold
  {
  }

  /** Within an episode, opens minus counted trades is one exactly when a position is held, under any
      mask, guard and lottery. */
  lemma {:induction false} TradesMatchOpens(cfg: EnvConfig, md: MarketData, word: nat, inputs: seq<Input>, k: nat)
    requires md.Valid() && k <= |inputs|
    requires Unbroken(cfg, md, Reset(cfg, md, EMPTY_LOG, word), inputs, k)
    ensures var s := Reset(cfg, md, EMPTY_LOG, word);
            var a := After(cfg, md, s, inputs, k).agent;
            Opens(cfg, md, s, inputs, k) - a.numTrades == Held(a)
  {
    hide Step, Observe, TradeBar, Settle;
    if 0 < k {
      TradesMatchOpens(cfg, md, word, inputs, k - 1);
      var s := Reset(cfg, md, EMPTY_LOG, word);
      var x, i := After(cfg, md, s, inputs, k - 1), inputs[k - 1];
      assert !After(cfg, md, s, inputs, k).terminal;
      StepIsSettled(cfg, md, x, i);
      var t := Clock(md, x.agent);
      TradeCounts(cfg, md.prices[t], md.MaskRow(t), x.agent, i.action, i.fillWord);
      SettleKeepsCounts(cfg, md, TradeNow(cfg, md, x.agent, i.action, i.fillWord).agent);
    }
  }

  /** The account an ending step closes out. */
  function AtTheEnd(cfg: EnvConfig, md: MarketData, s: EnvState, inputs: seq<Input>, k: nat): (a: Agent)
    requires md.Valid() && WellFormed(s.agent, md.numSymbols) && 0 < k <= |inputs|
    ensures WellFormed(a, md.numSymbols)
  {
    Settled(cfg, md, After(cfg, md, s, inputs, k - 1), inputs[k - 1]).0
  }

  /** A held position that the guard keeps from being sold at the open of a row. */
  predicate Refused(cfg: EnvConfig, row: seq<Bar>, a: Agent)
    requires WellFormed(a, |row|)
  {
    0 <= a.pos && GuardRefuses(cfg, row[SymOf(a.pos, |row|)].open, a.entry, a.hold, |row| <= a.pos)
  }

  /** When an episode ends, the log counts the positions it opened, all but one exactly when the guard
      refuses the final close of a position still held. */
  lemma LogCountsOpens(cfg: EnvConfig, md: MarketData, word: nat, inputs: seq<Input>, k: nat)
    requires md.Valid() && 0 < k <= |inputs|
    requires Unbroken(cfg, md, Reset(cfg, md, EMPTY_LOG, word), inputs, k - 1)
    requires After(cfg, md, Reset(cfg, md, EMPTY_LOG, word), inputs, k).terminal
    ensures var s := Reset(cfg, md, EMPTY_LOG, word);
            var a := AtTheEnd(cfg, md, s, inputs, k);
            After(cfg, md, s, inputs, k).log.numTrades ==
              (Opens(cfg, md, s, inputs, k) - if Refused(cfg, md.prices[Clock(md, a)], a) then 1 else 0) as real
  {
    hide Step, Observe, TradeBar, Settle, Done, Close;
    var s := Reset(cfg, md, EMPTY_LOG, word);
    var x, i := After(cfg, md, s, inputs, k - 1), inputs[k - 1];
    TradesMatchOpens(cfg, md, word, inputs, k - 1);
    UnbrokenLog(cfg, md, s, inputs, k - 1);
    StepIsSettled(cfg, md, x, i);
    var t := Clock(md, x.agent);
    TradeCounts(cfg, md.prices[t], md.MaskRow(t), x.agent, i.action, i.fillWord);
    SettleKeepsCounts(cfg, md, TradeNow(cfg, md, x.agent, i.action, i.fillWord).agent);
    var a := Settled(cfg, md, x, i).0;
    FinalCloseCounts(cfg, md.prices[Clock(md, a)], a);
  }

  lemma FinalCloseCounts(cfg: EnvConfig, row: seq<Bar>, a: Agent)
    requires WellFormed(a, |row|)
    ensures FinalClose(cfg, row, a).0.numTrades == a.numTrades + Held(a) - if Refused(cfg, row, a) then 1 else 0
  {
  }

  // ---------------------------------------------------------------- holding time

  predicate IsAction(cfg: EnvConfig, s: nat, action: int) { 0 <= action <= 2 * SideBlock(cfg, s) }

  /** A held position that cannot be closed on this bar: its market is closed, or the guard refuses. */
  predicate Stuck(cfg: EnvConfig, row: seq<Bar>, mask: Option<seq<bool>>, a: Agent)
    requires WellFormed(a, |row|) && (mask.Some? ==> |mask.value| == |row|)
  {
    0 <= a.pos && (!Tradable(mask, SymOf(a.pos, |row|)) || Refused(cfg, row, a))
  }

  /** At the hold limit the open of the bar closes the position, unless it is stuck. */
  lemma LimitClosesUnlessStuck(cfg: EnvConfig, row: seq<Bar>, mask: Option<seq<bool>>, a: Agent)
    requires WellFormed(a, |row|) && (mask.Some? ==> |mask.value| == |row|)
    requires 0 < cfg.maxHoldHours <= a.hold && 0 <= a.pos
    ensures ForceClose(cfg, row, mask, a).closes == 1 <==> !Stuck(cfg, row, mask, a)
    ensures ForceClose(cfg, row, mask, a).agent.pos == if Stuck(cfg, row, mask, a) then a.pos else -1
  {
  }

  /** A forced close that the guard refuses, which ages the position. */
  predicate ForceRefused(cfg: EnvConfig, row: seq<Bar>, mask: Option<seq<bool>>, a: Agent)
    requires WellFormed(a, |row|) && (mask.Some? ==> |mask.value| == |row|)
  {
    0 < cfg.maxHoldHours <= a.hold && Refused(cfg, row, a) && Tradable(mask, SymOf(a.pos, |row|))
  }

  /** One bar: a position that survives it was below the limit or stuck, and ages by one for an action of the
      action space and by one for a forced close that was refused. */
  lemma TradeAges(cfg: EnvConfig, row: seq<Bar>, mask: Option<seq<bool>>, a: Agent, action: int, word: nat)
    requires WellFormed(a, |row|) && (mask.Some? ==> |mask.value| == |row|)
    ensures var r := TradeBar(cfg, row, mask, a, action, word);
            && r.opens <= 1
            && (0 <= r.agent.pos && r.opens == 1 ==> r.agent.hold == 0)
            && (0 <= r.agent.pos && r.opens == 0 ==>
                  && r.agent.pos == a.pos && (0 < cfg.maxHoldHours <= a.hold ==> Stuck(cfg, row, mask, a))
                  && r.agent.hold == a.hold + (if IsAction(cfg, |row|, action) then 1 else 0)
                                     + if ForceRefused(cfg, row, mask, a) then 1 else 0)
  {
    var f := ForceClose(cfg, row, mask, a).agent;
    ForceCloseOrAge(cfg, row, mask, a);
    CloseOrAge(cfg, row, f);
    var o := Decode(cfg, |row|, action);
    if ReachesOpen(cfg, row, mask, f, o, word) {
      OpenCounts(cfg, row, Close(cfg, row, f).0, o);
    }
    hide Close, Open, Decode, Stuck, ForceRefused, ForceClose;
  }

  lemma ForceCloseOrAge(cfg: EnvConfig, row: seq<Bar>, mask: Option<seq<bool>>, a: Agent)
    requires WellFormed(a, |row|) && (mask.Some? ==> |mask.value| == |row|)
    ensures var f := ForceClose(cfg, row, mask, a);
            && f.opens == 0 && WellFormed(f.agent, |row|)
            && (f.agent.pos == -1
                || (&& f.agent == a.(hold := a.hold + if ForceRefused(cfg, row, mask, a) then 1 else 0)
                    && (0 < cfg.maxHoldHours <= a.hold ==> a.pos < 0 || Stuck(cfg, row, mask, a))))
  {
  }

  /** A close flattens the account, or the refusal ages the position by one. */
  lemma CloseOrAge(cfg: EnvConfig, row: seq<Bar>, a: Agent)
    requires WellFormed(a, |row|)
    ensures var (b, closed) := Close(cfg, row, a);
            && (closed ==> b.pos == -1)
            && (!closed ==> b == if 0 <= a.pos then a.(hold := a.hold + 1) else a)
  {
  }

  /** The step whose action opened the position now held: the last step that opened one. */
  function EntryStep(cfg: EnvConfig, md: MarketData, s: EnvState, inputs: seq<Input>, k: nat): int
    requires md.Valid() && WellFormed(s.agent, md.numSymbols) && k <= |inputs|
  {
    if k == 0 then -1
    else
      var x := After(cfg, md, s, inputs, k - 1);
      if TradeNow(cfg, md, x.agent, inputs[k - 1].action, inputs[k - 1].fillWord).opens == 1 then k - 1
      else EntryStep(cfg, md, s, inputs, k - 1)
  }

  /** How many of the steps after `e` and before `k` took an action number of the action space. */
  function ActionsSince(cfg: EnvConfig, s: nat, inputs: seq<Input>, e: int, k: nat): nat
    requires k <= |inputs|
  {
    if k <= e + 1 || k == 0 then 0
    else ActionsSince(cfg, s, inputs, e, k - 1) + if IsAction(cfg, s, inputs[k - 1].action) then 1 else 0
  }

  /** No bar up to and including that of step `k` starts stuck at the limit. */
  ghost predicate NeverStuck(cfg: EnvConfig, md: MarketData, s: EnvState, inputs: seq<Input>, k: nat)
    requires md.Valid() && WellFormed(s.agent, md.numSymbols) && k <= |inputs|
  {
    forall j :: 0 <= j < k ==> FreeAt(cfg, md, After(cfg, md, s, inputs, j).agent)
  }

  predicate FreeAt(cfg: EnvConfig, md: MarketData, a: Agent)
    requires md.Valid() && WellFormed(a, md.numSymbols)
  {
    cfg.maxHoldHours <= a.hold ==> !Stuck(cfg, md.prices[Clock(md, a)], md.MaskRow(Clock(md, a)), a)
  }

  /** Open markets and no guard are never stuck. */
  lemma OpenMarketsAreFree(cfg: EnvConfig, md: MarketData, a: Agent)
    requires md.Valid() && WellFormed(a, md.numSymbols) && md.tradable.None? && cfg.guardBps <= 0.0
    ensures FreeAt(cfg, md, a)
  {
  }

  /** How many of the steps after `e` and before `k` began with a forced close that the guard refused. */
  function RefusalsSince(cfg: EnvConfig, md: MarketData, s: EnvState, inputs: seq<Input>, e: int, k: nat): nat
    requires md.Valid() && WellFormed(s.agent, md.numSymbols) && k <= |inputs|
  {
    if k <= e + 1 || k == 0 then 0
    else RefusalsSince(cfg, md, s, inputs, e, k - 1)
         + if RefusedAt(cfg, md, After(cfg, md, s, inputs, k - 1).agent) then 1 else 0
  }

  predicate RefusedAt(cfg: EnvConfig, md: MarketData, a: Agent)
    requires md.Valid() && WellFormed(a, md.numSymbols)
  {
    ForceRefused(cfg, md.prices[Clock(md, a)], md.MaskRow(Clock(md, a)), a)
  }

  /** The age of a held position is the number of valid actions since its entry plus the number of forced
      closes refused since, whatever else was sent, under any mask, guard and limit. */
  lemma {:induction false} HoldCountsActions(cfg: EnvConfig, md: MarketData, word: nat, inputs: seq<Input>, k: nat)
    requires md.Valid() && k <= |inputs|
    requires Unbroken(cfg, md, Reset(cfg, md, EMPTY_LOG, word), inputs, k)
    ensures var s := Reset(cfg, md, EMPTY_LOG, word);
            var a, e := After(cfg, md, s, inputs, k).agent, EntryStep(cfg, md, s, inputs, k);
            0 <= a.pos ==>
              && 0 <= e < k
              && a.hold == ActionsSince(cfg, md.numSymbols, inputs, e, k) + RefusalsSince(cfg, md, s, inputs, e, k)
  {
    hide Step, Observe, TradeBar, Settle, FreeAt, RefusedAt, IsAction;
    if 0 < k {
      HoldCountsActions(cfg, md, word, inputs, k - 1);
      var s := Reset(cfg, md, EMPTY_LOG, word);
      var x, i := After(cfg, md, s, inputs, k - 1), inputs[k - 1];
      assert !After(cfg, md, s, inputs, k).terminal;
      StepIsSettled(cfg, md, x, i);
      BarAges(cfg, md, x.agent, i);
    }
  }

  lemma BarAges(cfg: EnvConfig, md: MarketData, a: Agent, i: Input)
    requires md.Valid() && WellFormed(a, md.numSymbols)
    ensures var r := TradeNow(cfg, md, a, i.action, i.fillWord);
            var b := Settle(cfg, md, r.agent).0;
            && r.opens <= 1
            && (0 <= b.pos && r.opens == 1 ==> b.hold == 0)
            && (0 <= b.pos && r.opens == 0 ==>
                  && 0 <= a.pos && (0 < cfg.maxHoldHours && FreeAt(cfg, md, a) ==> a.hold < cfg.maxHoldHours)
                  && b.hold == a.hold + (if IsAction(cfg, md.numSymbols, i.action) then 1 else 0)
                               + if RefusedAt(cfg, md, a) then 1 else 0)
  {
    var t := Clock(md, a);
    TradeAges(cfg, md.prices[t], md.MaskRow(t), a, i.action, i.fillWord);
    SettleKeepsCounts(cfg, md, TradeNow(cfg, md, a, i.action, i.fillWord).agent);
    hide TradeBar, Settle, IsAction, Stuck, ForceRefused;
  }

  /** Where no bar starts stuck at the limit, no forced close is refused and the age never exceeds the limit. */
  lemma {:induction false} HoldWithinLimit(cfg: EnvConfig, md: MarketData, word: nat, inputs: seq<Input>, k: nat)
    requires md.Valid() && 0 < cfg.maxHoldHours && k <= |inputs|
    requires Unbroken(cfg, md, Reset(cfg, md, EMPTY_LOG, word), inputs, k)
    requires NeverStuck(cfg, md, Reset(cfg, md, EMPTY_LOG, word), inputs, k)
    ensures var s := Reset(cfg, md, EMPTY_LOG, word);
            var a, e := After(cfg, md, s, inputs, k).agent, EntryStep(cfg, md, s, inputs, k);
            0 <= a.pos ==> RefusalsSince(cfg, md, s, inputs, e, k) == 0 && a.hold <= cfg.maxHoldHours
  {
    hide Step, Observe, TradeBar, Settle, FreeAt, RefusedAt, IsAction;
    if 0 < k {
      HoldWithinLimit(cfg, md, word, inputs, k - 1);
      var s := Reset(cfg, md, EMPTY_LOG, word);
      var x, i := After(cfg, md, s, inputs, k - 1), inputs[k - 1];
      assert !After(cfg, md, s, inputs, k).terminal && FreeAt(cfg, md, x.agent);
      StepIsSettled(cfg, md, x, i);
      BarAges(cfg, md, x.agent, i);
      FreeIsNotRefused(cfg, md, x.agent);
    }
  }

  lemma FreeIsNotRefused(cfg: EnvConfig, md: MarketData, a: Agent)
    requires md.Valid() && WellFormed(a, md.numSymbols) && FreeAt(cfg, md, a)
    ensures !RefusedAt(cfg, md, a)
  {
  }

  predicate AllActions(cfg: EnvConfig, s: nat, inputs: seq<Input>, e: int, k: nat)
    requires k <= |inputs|
  {
    forall j :: 0 <= j && e < j < k ==> IsAction(cfg, s, inputs[j].action)
  }

  lemma {:induction false} CountIsLength(cfg: EnvConfig, s: nat, inputs: seq<Input>, e: nat, k: nat)
    requires e < k <= |inputs|
    ensures ActionsSince(cfg, s, inputs, e, k) <= k - 1 - e
    ensures ActionsSince(cfg, s, inputs, e, k) == k - 1 - e <==> AllActions(cfg, s, inputs, e, k)
  {
    hide IsAction;
    if e + 1 < k {
      CountIsLength(cfg, s, inputs, e, k - 1);
    }
  }

  /** The age is the number of steps since the entry exactly when every action since was valid. */
  lemma HoldCountsSteps(cfg: EnvConfig, md: MarketData, word: nat, inputs: seq<Input>, k: nat)
    requires md.Valid() && 0 < cfg.maxHoldHours && k <= |inputs|
    requires Unbroken(cfg, md, Reset(cfg, md, EMPTY_LOG, word), inputs, k)
    requires NeverStuck(cfg, md, Reset(cfg, md, EMPTY_LOG, word), inputs, k)
    requires 0 <= After(cfg, md, Reset(cfg, md, EMPTY_LOG, word), inputs, k).agent.pos
    ensures var s := Reset(cfg, md, EMPTY_LOG, word);
            var a, e := After(cfg, md, s, inputs, k).agent, EntryStep(cfg, md, s, inputs, k);
            && 0 <= e < k && a.hold <= cfg.maxHoldHours
            && (a.hold == k - 1 - e <==> AllActions(cfg, md.numSymbols, inputs, e, k))
  {
    HoldCountsActions(cfg, md, word, inputs, k);
    HoldWithinLimit(cfg, md, word, inputs, k);
    CountIsLength(cfg, md.numSymbols, inputs, EntryStep(cfg, md, Reset(cfg, md, EMPTY_LOG, word), inputs, k), k);
    hide Step, NeverStuck, ActionsSince, RefusalsSince, AllActions;
  }

  /** A position is held for at most `M` valid actions after its entry, and when it has seen `M` the open of
      the bar closes it. With only valid actions that is no later than step `e + M + 1`. */
  lemma ClosedByLimit(cfg: EnvConfig, md: MarketData, word: nat, inputs: seq<Input>, k: nat)
    requires md.Valid() && 0 < cfg.maxHoldHours && k < |inputs|
    requires Unbroken(cfg, md, Reset(cfg, md, EMPTY_LOG, word), inputs, k)
    requires NeverStuck(cfg, md, Reset(cfg, md, EMPTY_LOG, word), inputs, k + 1)
    requires 0 <= After(cfg, md, Reset(cfg, md, EMPTY_LOG, word), inputs, k).agent.pos
    ensures var s := Reset(cfg, md, EMPTY_LOG, word);
            var a, e := After(cfg, md, s, inputs, k).agent, EntryStep(cfg, md, s, inputs, k);
            var n := ActionsSince(cfg, md.numSymbols, inputs, e, k);
            && n <= cfg.maxHoldHours
            && (n == cfg.maxHoldHours <==>
                  ForceClose(cfg, md.prices[Clock(md, a)], md.MaskRow(Clock(md, a)), a).closes == 1)
            && (AllActions(cfg, md.numSymbols, inputs, e, k) ==> n == k - 1 - e)
  {
    var s := Reset(cfg, md, EMPTY_LOG, word);
    HoldCountsActions(cfg, md, word, inputs, k);
    HoldWithinLimit(cfg, md, word, inputs, k);
    CountIsLength(cfg, md.numSymbols, inputs, EntryStep(cfg, md, s, inputs, k), k);
    var a := After(cfg, md, s, inputs, k).agent;
    assert FreeAt(cfg, md, a);
    if cfg.maxHoldHours <= a.hold {
      LimitClosesUnlessStuck(cfg, md.prices[Clock(md, a)], md.MaskRow(Clock(md, a)), a);
    }
    hide Step, ActionsSince, RefusalsSince, AllActions, Stuck, Close;
  }

  /** An action number outside the action space leaves a position below the limit, and its age, exactly as
      they were. */
  lemma InvalidActionStopsTheClock(cfg: EnvConfig, row: seq<Bar>, mask: Option<seq<bool>>, a: Agent, action: int,
                                   word: nat)
    requires WellFormed(a, |row|) && (mask.Some? ==> |mask.value| == |row|)
    requires !IsAction(cfg, |row|, action) && a.hold < cfg.maxHoldHours
    ensures TradeBar(cfg, row, mask, a, action, word) == Traded(a, 0, 0)
  {
  }

  // ---------------------------------------------------------------- a position older than its limit

  /** A market that stands still for long enough, one long entry, and then nothing but numbers outside the
      action space. */
  function Idle(limit: nat): EnvConfig { Plain(limit + 10).(maxHoldHours := limit) }

  function Still(limit: nat): MarketData { OneSymbol(seq(limit + 20, _ => 100.0)) }

  function EnterThenIdle(limit: nat): (r: seq<Input>)
    ensures |r| == limit + 3
  {
    seq(limit + 3, j => Input(if j == 0 then LONG else 99, 0, 0))
  }

  /** The account of the long after `k` bars. */
  function Waiting(k: nat): Agent { Agent(0.0, 0, 100.0, 100.0, 0, 10000.0, 10000.0, 0, 0, 0.0, 0, k) }

  lemma StillIsValid(limit: nat)
    ensures Still(limit).Valid() && Still(limit).T() == limit + 20 && Still(limit).numSymbols == 1
    ensures Still(limit).tradable.None?
    ensures forall t :: 0 <= t < limit + 20 ==> Still(limit).prices[t] == [FlatBar(100.0)]
  {
    OneSymbolIsValid(seq(limit + 20, _ => 100.0));
  }

  /** A bar that passes with nothing moving. */
  lemma IdleBar(limit: nat, k: nat)
    requires k < limit + 3
    ensures Still(limit).Valid()
    ensures var cfg, md := Idle(limit), Still(limit);
            Settle(cfg, md, Waiting(k)) == (Waiting(k + 1), 10000.0) && !Done(cfg, md, Waiting(k + 1), 10000.0)
  {
    StillIsValid(limit);
    assert Equity([FlatBar(100.0)], Waiting(k + 1)) == 10000.0;
    assert Clock(Still(limit), Waiting(k + 1)) == k + 1;
  }

  /** The first step buys, every later one is idle; both leave the account waiting one bar on. */
  lemma IdleTrade(limit: nat, s: EnvState, i: Input, k: nat)
    requires 0 < limit && k < limit + 3
    requires if k == 0 then s.agent == ResetAgent(Idle(limit), Still(limit), 0) && i.action == LONG
             else s.agent == Waiting(k) && i.action == 99
    ensures Still(limit).Valid() && WellFormed(s.agent, 1)
    ensures TradeNow(Idle(limit), Still(limit), s.agent, i.action, i.fillWord)
            == Traded(Waiting(k), 0, if k == 0 then 1 else 0)
  {
    hide TradeBar, IsAction;
    var cfg, md := Idle(limit), Still(limit);
    StillIsValid(limit);
    assert md.prices[Clock(md, s.agent)] == [FlatBar(100.0)];
    if k == 0 {
      FirstTrade(cfg, s.agent, false, i.fillWord);
    } else {
      assert !IsAction(cfg, 1, 99) by { DecodesSides(cfg); assert SideBlock(cfg, 1) == 1; IsNoAction(cfg); }
      InvalidActionStopsTheClock(cfg, [FlatBar(100.0)], None, s.agent, 99, i.fillWord);
    }
  }

  lemma IsNoAction(cfg: EnvConfig)
    requires SideBlock(cfg, 1) == 1
    ensures !IsAction(cfg, 1, 99)
  {
  }

  lemma {:induction false} IdleRun(limit: nat, k: nat)
    requires 0 < limit && 0 < k <= limit + 3
    ensures Still(limit).Valid()
    ensures var cfg, md, inputs := Idle(limit), Still(limit), EnterThenIdle(limit);
            var s := Reset(cfg, md, EMPTY_LOG, 0);
            && After(cfg, md, s, inputs, k).agent == Waiting(k) && !After(cfg, md, s, inputs, k).terminal
            && EntryStep(cfg, md, s, inputs, k) == 0
  {
    hide TradeNow, Settle, Observe, Step, Done;
    var cfg, md, inputs := Idle(limit), Still(limit), EnterThenIdle(limit);
    StillIsValid(limit);
    var s := Reset(cfg, md, EMPTY_LOG, 0);
    if k > 1 {
      IdleRun(limit, k - 1);
    }
    var x := After(cfg, md, s, inputs, k - 1);
    IdleTrade(limit, x, inputs[k - 1], k - 1);
    IdleBar(limit, k - 1);
    StepIsSettled(cfg, md, x, inputs[k - 1]);
    AfterStep(cfg, md, s, inputs, k);
  }

  /** For every limit there is a run, never stuck, that holds one position for more than that many steps:
      its age stands still at zero. */
  lemma PositionOutlivesTheLimit(limit: nat)
    requires 0 < limit
    ensures Still(limit).Valid()
    ensures var cfg, md, inputs := Idle(limit), Still(limit), EnterThenIdle(limit);
            var s, k := Reset(cfg, md, EMPTY_LOG, 0), limit + 3;
            && Unbroken(cfg, md, s, inputs, k) && NeverStuck(cfg, md, s, inputs, k)
            && var a, e := After(cfg, md, s, inputs, k).agent, EntryStep(cfg, md, s, inputs, k);
               0 <= a.pos && a.hold == 0 && k - 1 - e > cfg.maxHoldHours == limit
  {
    hide Step, Observe, FreeAt;
    var cfg, md, inputs := Idle(limit), Still(limit), EnterThenIdle(limit);
    StillIsValid(limit);
    var s := Reset(cfg, md, EMPTY_LOG, 0);
    forall j | 1 <= j <= limit + 3
      ensures !After(cfg, md, s, inputs, j).terminal
    {
      IdleRun(limit, j);
    }
    forall j | 0 <= j < limit + 3
      ensures FreeAt(cfg, md, After(cfg, md, s, inputs, j).agent)
    {
      OpenMarketsAreFree(cfg, md, After(cfg, md, s, inputs, j).agent);
    }
    IdleRun(limit, limit + 3);
  }
}
