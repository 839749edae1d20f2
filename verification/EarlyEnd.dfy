/** When the early-exit rule may end an episode: one step before the fraction of the horizon it is given. */
module EarlyEnd {
  import opened Prelude
  import opened Engine
  import opened Episode
  import opened Scenario

  /** An account whose return is below its drawdown, where the rule applies at all. */
  predicate Losing(cfg: EnvConfig, a: Agent, equity: real) {
    && cfg.earlyExit && 2 <= cfg.maxSteps && cfg.earlyExitMinSteps <= cfg.maxSteps && 0.0 < a.initial
    && (equity - a.initial) / a.initial < a.maxDrawdown
  }

  /** After `step` steps the rule fires on a losing account exactly when one step more would be the given
      fraction of the horizon; a fraction above one is never reached. */
  lemma EarlyExitByStep(cfg: EnvConfig, a: Agent, equity: real)
    ensures EarlyExit(cfg, a, equity) <==>
            && Losing(cfg, a, equity) && cfg.earlyExitProgress <= 1.0
            && cfg.earlyExitProgress * cfg.maxSteps as real <= (a.step + 1) as real
  {
    if 2 <= cfg.maxSteps {
      QuotientAtLeast((a.step + 1) as real, cfg.maxSteps as real, cfg.earlyExitProgress);
    }
  }

  /** Short of its horizon and of the end of its data, an episode ends at step `k` exactly when it is ruined,
      or when it is losing and `k + 1` steps are the given fraction of the horizon. */
  lemma EarlyEndsAreByTheRule(cfg: EnvConfig, md: MarketData, policy: seq<real> -> int, words: seq<(nat, nat)>, word: nat,
                              k: nat)
    requires md.Valid() && 0 < k <= |words| && Unterminated(cfg, md, policy, words, word, k - 1)
    requires k < cfg.maxSteps && ResetOffset(cfg, md, word) + k < md.T() - 1
    ensures var s := Play(cfg, md, policy, words, word, k - 1);
            var (a, equity) := Settled(cfg, md, s, Input(policy(s.obs), words[k - 1].0, words[k - 1].1));
            Play(cfg, md, policy, words, word, k).terminal <==>
            || equity < 100.0
            || (&& Losing(cfg, a, equity) && cfg.earlyExitProgress <= 1.0
                && cfg.earlyExitProgress * cfg.maxSteps as real <= (k + 1) as real)
  {
    hide TradeNow, Observe, EarlyExit, Losing, ResetOffset;
    var s := Play(cfg, md, policy, words, word, k - 1);
    var i := Input(policy(s.obs), words[k - 1].0, words[k - 1].1);
    ClockOfPlay(cfg, md, policy, words, word, k - 1);
    TradeKeepsTime(cfg, md, s.agent, i.action, i.fillWord);
    StepIsSettled(cfg, md, s, i);
    var (a, equity) := Settled(cfg, md, s, i);
    EarlyExitByStep(cfg, a, equity);
    assert a.step == k && a.offset == s.agent.offset;
  }

  // ---------------------------------------------------------------- a run that ends a step early

  /** Ten steps, ended once a fifth is behind a losing account. */
  function AFifth(): EnvConfig { Plain(10).(earlyExit := true, earlyExitProgress := 0.2) }

  function Falling(): MarketData { OneSymbol([100.0, 90.0, 90.0, 90.0]) }

  function AlwaysLong(): seq<real> -> int { (obs: seq<real>) => LONG }

  /** The account after buying a hundred shares at the first bar. */
  function Bought(): Agent { Agent(0.0, 0, 100.0, 100.0, 0, INITIAL_CASH, INITIAL_CASH, 0, 0, 0.0, 0, 0) }

  lemma LongIsTraded()
    ensures Falling().Valid() && ResetOffset(AFifth(), Falling(), 0) == 0 && WellFormed(Bought(), 1)
    ensures TradeNow(AFifth(), Falling(), ResetAgent(AFifth(), Falling(), 0), LONG, 0).agent == Bought()
  {
    OneSymbolIsValid([100.0, 90.0, 90.0, 90.0]);
    FirstTrade(AFifth(), ResetAgent(AFifth(), Falling(), 0), false, 0);
    hide TradeBar;
    assert Falling().prices[0] == [FlatBar(100.0)];
  }

  lemma LongIsLosing()
    ensures Falling().Valid() && WellFormed(Bought(), 1)
    ensures var (a, equity) := Settle(AFifth(), Falling(), Bought());
            equity == 9000.0 && a.step == 1 && Losing(AFifth(), a, equity)
  {
    OneSymbolIsValid([100.0, 90.0, 90.0, 90.0]);
    assert Falling().prices[1] == [FlatBar(90.0)];
    assert Equity([FlatBar(90.0)], Bought().(step := 1)) == 9000.0;
  }

  /** The run ends after one step, of which a tenth is less than the fifth it was given. */
  lemma EndsBeforeItsFraction()
    ensures var cfg, md := AFifth(), Falling();
            && md.Valid() && Play(cfg, md, AlwaysLong(), [(0, 0)], 0, 1).terminal
            && (1 as real) / cfg.maxSteps as real < cfg.earlyExitProgress
  {
    hide TradeNow, Settle, Losing, Observe, OneSymbol;
    LongIsTraded();
    LongIsLosing();
    var cfg, md := AFifth(), Falling();
    var s := Play(cfg, md, AlwaysLong(), [(0, 0)], 0, 0);
    assert s == Reset(cfg, md, EMPTY_LOG, 0);
    assert AlwaysLong()(s.obs) == LONG;
    StepIsSettled(cfg, md, s, Input(LONG, 0, 0));
    var (a, equity) := Settle(cfg, md, Bought());
    EarlyExitByStep(cfg, a, equity);
  }
}
