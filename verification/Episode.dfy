/** The episode machine: reset, observation, one environment step, and runs of steps. */
module Episode {
  import opened Prelude
  import opened Engine

  datatype Log = Log(totalReturn: real, maxDrawdown: real, numTrades: real, winRate: real, avgHold: real, n: nat)

  const EMPTY_LOG := Log(0.0, 0.0, 0.0, 0.0, 0.0, 0)

  /** What a caller can see of an environment between calls. */
  datatype EnvState = EnvState(agent: Agent, log: Log, terminal: bool, obs: seq<real>)

  /** One step's input: the action and the two raw 64-bit words the generator would hand out, the
      first for the fill lottery and the second for the next episode's offset. */
  datatype Input = Input(action: int, fillWord: nat, offsetWord: nat)

  const TWO32: nat := 0x1_0000_0000
  const TWO64: nat := 0x1_0000_0000_0000_0000

  /** Multiply-shift: the top 32 bits of a word scaled to [0, n). */
  function FastRandInt(n: int, word: nat): nat
  {
    if n <= 1 then 0
    else
      assert 0 <= (word / TWO32) * n;
      ((word / TWO32) * n) / TWO32
  }

  function MaxOffset(cfg: EnvConfig, md: MarketData): int { md.T() - cfg.maxSteps - 1 }

  function ResetOffset(cfg: EnvConfig, md: MarketData, word: nat): nat {
    var top := MaxOffset(cfg, md);
    if 0 <= cfg.forcedOffset then
      if top < cfg.forcedOffset && 0 <= top then top else cfg.forcedOffset
    else if top <= 0 then 0
    else FastRandInt(top + 1, word)
  }

  function ResetAgent(cfg: EnvConfig, md: MarketData, word: nat): (a: Agent)
    requires 0 < md.numSymbols
    ensures WellFormed(a, md.numSymbols)
  {
    Agent(INITIAL_CASH, -1, 0.0, 0.0, 0, INITIAL_CASH, INITIAL_CASH, 0, 0, 0.0,
          ResetOffset(cfg, md, word), 0)
  }

  /** The data row an account stands at, clamped to the last row. */
  function Clock(md: MarketData, a: Agent): (t: nat)
    requires md.Valid() && 0 <= a.offset && 0 <= a.step
    ensures t < md.T()
  {
    Min(a.offset + a.step, md.T() - 1)
  }

  /** The lagged row an observation is taken from. */
  function ObsRow(cfg: EnvConfig, t: nat): (r: nat)
    ensures r <= t && (0 < t ==> r < t)
  {
    Max(0, t - Max(1, cfg.decisionLag))
  }

  function MarkedValue(qty: real, price: real, isShort: bool): real {
    if isShort then -(qty * price) else qty * price
  }

  function MarkedGain(qty: real, entry: real, price: real, isShort: bool): real {
    if isShort then qty * (entry - price) else qty * (price - entry)
  }

  /** The signed value of the position, and its unrealised gain, at the closes of a row. */
  function Marked(row: seq<Bar>, a: Agent): (real, real)
    requires WellFormed(a, |row|)
  {
    if a.pos < 0 then (0.0, 0.0)
    else
      var price := row[SymOf(a.pos, |row|)].close;
      (MarkedValue(a.qty, price, |row| <= a.pos), MarkedGain(a.qty, a.entry, price, |row| <= a.pos))
  }

  function Scaled(x: real): real { x / INITIAL_CASH }

  function OfHorizon(cfg: EnvConfig, n: int): real {
    n as real / (if 0 < cfg.maxSteps then cfg.maxSteps else 1) as real
  }

  /** The five portfolio numbers shown beside the features, valued at the given row. */
  function PortfolioNumbers(cfg: EnvConfig, row: seq<Bar>, a: Agent): (r: seq<real>)
    requires WellFormed(a, |row|)
    ensures |r| == 5
  {
    var (value, unrealised) := Marked(row, a);
    [Scaled(a.cash), Scaled(value), Scaled(unrealised), OfHorizon(cfg, a.hold), OfHorizon(cfg, a.step)]
  }

  /** The signed one-hot position: 1 at a held long, -1 at a held short. */
  function OneHot(pos: int, s: nat): (r: seq<real>)
    ensures |r| == s
  {
    seq(s, i => if i == pos then 1.0 else if s + i == pos then -1.0 else 0.0)
  }

  function Observe(cfg: EnvConfig, md: MarketData, a: Agent): (r: seq<real>)
    requires md.Valid() && WellFormed(a, md.numSymbols)
    ensures |r| == |md.features[0]| + 5 + md.numSymbols
  {
    var t := ObsRow(cfg, Clock(md, a));
    md.features[t] + (PortfolioNumbers(cfg, md.prices[t], a) + OneHot(a.pos, md.numSymbols))
  }

  /** Running peak and drawdown after one more equity reading. */
  function Track(a: Agent, equity: real): Agent {
    var peak := if a.peak < equity then equity else a.peak;
    var fall := if 0.0 < peak then (peak - equity) / peak else 0.0;
    a.(peak := peak,
       maxDrawdown := if 0.0 < peak && a.maxDrawdown < fall then fall else a.maxDrawdown)
  }

  /** Time moves one bar: mark to market, charge borrow, track the peak. Returns the account and
      its equity after the fee. */
  function Settle(cfg: EnvConfig, md: MarketData, a: Agent): (r: (Agent, real))
    requires md.Valid() && WellFormed(a, md.numSymbols)
    ensures WellFormed(r.0, md.numSymbols) && r.0.step == a.step + 1
  {
    var b := a.(step := a.step + 1);
    var row := md.prices[Clock(md, b)];
    var fee := BorrowFee(cfg, row, b);
    var equity := if 0.0 < fee then Equity(row, b) - fee else Equity(row, b);
    (Track(if 0.0 < fee then b.(cash := b.cash - fee) else b, equity), equity)
  }

  /** The fraction of the episode the early-exit rule believes is behind it: one step ahead of the
      counter, which has already moved when the rule is asked. */
  function Progress(cfg: EnvConfig, a: Agent): real
    requires cfg.maxSteps != 0
  {
    var raw := (a.step + 1) as real / cfg.maxSteps as real;
    if 1.0 < raw then 1.0 else raw
  }

  predicate EarlyExit(cfg: EnvConfig, a: Agent, equity: real) {
    && cfg.earlyExit
    && 2 <= cfg.maxSteps
    && cfg.earlyExitMinSteps <= cfg.maxSteps
    && 0.0 < a.initial
    && cfg.earlyExitProgress <= Progress(cfg, a)
    && (equity - a.initial) / a.initial < a.maxDrawdown
  }

  const BANKRUPT := 100.0

  predicate Done(cfg: EnvConfig, md: MarketData, a: Agent, equity: real)
    requires md.Valid() && 0 <= a.offset && 0 <= a.step
  {
    || cfg.maxSteps <= a.step
    || md.T() - 1 <= Clock(md, a)
    || EarlyExit(cfg, a, equity)
    || equity < BANKRUPT
  }

  /** The account after the closing trade of an episode, and the equity the log reports. */
  function FinalClose(cfg: EnvConfig, row: seq<Bar>, a: Agent): (r: (Agent, real))
    requires WellFormed(a, |row|)
    ensures WellFormed(r.0, |row|)
  {
    var (b, closed) := Close(cfg, row, a);
    if a.pos < 0 then (a, a.cash) else if closed then (b, b.cash) else (b, Equity(row, b))
  }

  function AddEpisode(log: Log, a: Agent, finalEquity: real): Log
    requires a.initial != 0.0
  {
    Log(log.totalReturn + (finalEquity - a.initial) / a.initial,
        log.maxDrawdown + a.maxDrawdown,
        log.numTrades + a.numTrades as real,
        log.winRate + (if 0 < a.numTrades then a.winning as real / a.numTrades as real else 0.0),
        log.avgHold + (if 0 < a.numTrades then a.step as real / a.numTrades as real else 0.0),
        log.n + 1)
  }

  function TradeNow(cfg: EnvConfig, md: MarketData, a: Agent, action: int, word: nat): (r: Traded)
    requires md.Valid() && WellFormed(a, md.numSymbols)
    ensures WellFormed(r.agent, md.numSymbols)
  {
    var t := Clock(md, a);
    TradeBar(cfg, md.prices[t], md.MaskRow(t), a, action, word)
  }

  /** Trading moves neither the clock nor the equity statistics. */
  lemma TradeKeepsTime(cfg: EnvConfig, md: MarketData, a: Agent, action: int, word: nat)
    requires md.Valid() && WellFormed(a, md.numSymbols)
    ensures SameTime(TradeNow(cfg, md, a, action, word).agent, a)
  {
    var t := Clock(md, a);
    var row, mask := md.prices[t], md.MaskRow(t);
    var f := ForceClose(cfg, row, mask, a).agent;
    CloseKeepsTime(cfg, row, a);
    CloseKeepsTime(cfg, row, f);
    var o := Decode(cfg, |row|, action);
    if ReachesOpen(cfg, row, mask, f, o, word) {
      OpenKeepsTime(cfg, row, Close(cfg, row, f).0, o);
    }
    hide Close, Open, Decode, Clock;
  }

  predicate SameTime(b: Agent, a: Agent) {
    && b.offset == a.offset && b.step == a.step
    && b.peak == a.peak && b.maxDrawdown == a.maxDrawdown && b.initial == a.initial
  }

  lemma CloseKeepsTime(cfg: EnvConfig, row: seq<Bar>, a: Agent)
    requires WellFormed(a, |row|)
    ensures SameTime(Close(cfg, row, a).0, a)
  {
  }

  lemma OpenKeepsTime(cfg: EnvConfig, row: seq<Bar>, a: Agent, o: Order)
    requires WellFormed(a, |row|) && o.Enter? && o.sym < |row|
    ensures SameTime(Open(cfg, row, a, o), a)
  {
  }

  function Step(cfg: EnvConfig, md: MarketData, s: EnvState, i: Input): (r: EnvState)
    requires md.Valid() && WellFormed(s.agent, md.numSymbols)
    ensures WellFormed(r.agent, md.numSymbols)
  {
    var traded := TradeNow(cfg, md, s.agent, i.action, i.fillWord);
    var (settled, equity) := Settle(cfg, md, traded.agent);
    if Done(cfg, md, settled, equity) then
      var (closed, finalEquity) := FinalClose(cfg, md.prices[Clock(md, settled)], settled);
      var fresh' := ResetAgent(cfg, md, i.offsetWord);
      EnvState(fresh', AddEpisode(s.log, closed, finalEquity), true, Observe(cfg, md, fresh'))
    else EnvState(settled, s.log, false, Observe(cfg, md, settled))
  }

  function Reset(cfg: EnvConfig, md: MarketData, log: Log, word: nat): (r: EnvState)
    requires md.Valid()
    ensures WellFormed(r.agent, md.numSymbols)
  {
    var a := ResetAgent(cfg, md, word);
    EnvState(a, log, false, Observe(cfg, md, a))
  }

  /** The state after the first `k` inputs. */
  function After(cfg: EnvConfig, md: MarketData, s: EnvState, inputs: seq<Input>, k: nat): (r: EnvState)
    requires md.Valid() && WellFormed(s.agent, md.numSymbols) && k <= |inputs|
    ensures WellFormed(r.agent, md.numSymbols)
  {
    if k == 0 then s else Step(cfg, md, After(cfg, md, s, inputs, k - 1), inputs[k - 1])
  }

  /** No episode ended during the first `k` steps. */
  ghost predicate Unbroken(cfg: EnvConfig, md: MarketData, s: EnvState, inputs: seq<Input>, k: nat)
    requires md.Valid() && WellFormed(s.agent, md.numSymbols) && k <= |inputs|
  {
    forall j :: 1 <= j <= k ==> !After(cfg, md, s, inputs, j).terminal
  }

  lemma AfterStep(cfg: EnvConfig, md: MarketData, s: EnvState, inputs: seq<Input>, k: nat)
    requires md.Valid() && WellFormed(s.agent, md.numSymbols) && 0 < k <= |inputs|
    ensures After(cfg, md, s, inputs, k) == Step(cfg, md, After(cfg, md, s, inputs, k - 1), inputs[k - 1])
  {
  }

  /** The log only moves when an episode ends. */
  lemma {:induction false} UnbrokenLog(cfg: EnvConfig, md: MarketData, s: EnvState, inputs: seq<Input>, k: nat)
    requires md.Valid() && WellFormed(s.agent, md.numSymbols) && k <= |inputs|
    requires Unbroken(cfg, md, s, inputs, k)
    ensures After(cfg, md, s, inputs, k).log == s.log
  {
    hide TradeNow, Settle, Done, FinalClose, Observe;
    if 0 < k {
      UnbrokenLog(cfg, md, s, inputs, k - 1);
      assert !After(cfg, md, s, inputs, k).terminal;
    }
  }

  /** The account after trading and settling one step, before the terminal branch is considered, with
      its equity reading. */
  function Settled(cfg: EnvConfig, md: MarketData, s: EnvState, i: Input): (r: (Agent, real))
    requires md.Valid() && WellFormed(s.agent, md.numSymbols)
    ensures WellFormed(r.0, md.numSymbols)
  {
    Settle(cfg, md, TradeNow(cfg, md, s.agent, i.action, i.fillWord).agent)
  }

  lemma StepIsSettled(cfg: EnvConfig, md: MarketData, s: EnvState, i: Input)
    requires md.Valid() && WellFormed(s.agent, md.numSymbols)
    ensures var (a, e) := Settled(cfg, md, s, i);
            && Step(cfg, md, s, i).terminal == Done(cfg, md, a, e)
            && (!Step(cfg, md, s, i).terminal ==> Step(cfg, md, s, i).agent == a && Step(cfg, md, s, i).log == s.log)
            && (Step(cfg, md, s, i).terminal ==>
                  Step(cfg, md, s, i).log == AddEpisode(s.log, FinalClose(cfg, md.prices[Clock(md, a)], a).0,
                                                        FinalClose(cfg, md.prices[Clock(md, a)], a).1))
  {
  }

  /** A policy in closed loop with the environment for `k` steps. */
  function Play(cfg: EnvConfig, md: MarketData, policy: seq<real> -> int, words: seq<(nat, nat)>, word: nat, k: nat)
    : (s: EnvState)
    requires md.Valid() && k <= |words|
    ensures WellFormed(s.agent, md.numSymbols)
  {
    if k == 0 then Reset(cfg, md, EMPTY_LOG, word)
    else
      var s := Play(cfg, md, policy, words, word, k - 1);
      Step(cfg, md, s, Input(policy(s.obs), words[k - 1].0, words[k - 1].1))
  }

  ghost predicate Unterminated(cfg: EnvConfig, md: MarketData, policy: seq<real> -> int, words: seq<(nat, nat)>,
                               word: nat, k: nat)
    requires md.Valid() && k <= |words|
  {
    forall j :: 1 <= j <= k ==> !Play(cfg, md, policy, words, word, j).terminal
  }

  /** Along an unterminated run the account stands at `offset + step` without clamping. */
  lemma {:induction false} ClockOfPlay(cfg: EnvConfig, md: MarketData, policy: seq<real> -> int,
                                       words: seq<(nat, nat)>, word: nat, k: nat)
    requires md.Valid() && k <= |words| && Unterminated(cfg, md, policy, words, word, k)
    ensures var a := Play(cfg, md, policy, words, word, k).agent;
            a.offset == ResetOffset(cfg, md, word) && a.step == k
            && (0 < k ==> a.offset + k < md.T() - 1)
  {
    if 0 < k {
      ClockOfPlay(cfg, md, policy, words, word, k - 1);
      var s := Play(cfg, md, policy, words, word, k - 1);
      assert !Play(cfg, md, policy, words, word, k).terminal;
      TradeKeepsTime(cfg, md, s.agent, policy(s.obs), words[k - 1].0);
    }
  }
}
