/** No look-ahead as a two-run property: what a policy sees at bar t is a function of the price rows
    before t and of the lagged feature rows, except for the borrow fee, which is charged at bar t's
    close before the observation is taken. */
module NoLookAhead {
  import opened Prelude
  import opened Engine
  import opened Episode
  import opened Scenario

  /** Two markets of the same shape whose price and mask rows agree before bar `t` and whose feature
      rows agree up to the row observed at `t`. */
  ghost predicate AgreeBefore(cfg: EnvConfig, m: MarketData, n: MarketData, t: nat)
    requires m.Valid() && n.Valid()
  {
    && m.numSymbols == n.numSymbols && m.T() == n.T() && t < m.T()
    && (forall r :: 0 <= r < t ==> m.prices[r] == n.prices[r])
    && (forall r :: 0 <= r < t ==> m.MaskRow(r) == n.MaskRow(r))
    && (forall r :: 0 <= r <= Max(0, t - Max(1, cfg.decisionLag)) ==> m.features[r] == n.features[r])
  }

  /** The bar at which the policy decides after `k` steps. */
  function DecisionBar(cfg: EnvConfig, md: MarketData, word: nat, k: nat): nat {
    ResetOffset(cfg, md, word) + k
  }

  /** The fee charged at the end of step `k + 1`. */
  function FeeAtNewBar(cfg: EnvConfig, md: MarketData, s: EnvState, action: int, word: nat): real
    requires md.Valid() && WellFormed(s.agent, md.numSymbols)
  {
    var b := TradeNow(cfg, md, s.agent, action, word).agent;
    var c := b.(step := b.step + 1);
    MaxReal(0.0, BorrowFee(cfg, md.prices[Clock(md, c)], c))
  }

  lemma ResetAgrees(cfg: EnvConfig, m: MarketData, n: MarketData, word: nat, t: nat)
    requires m.Valid() && n.Valid() && AgreeBefore(cfg, m, n, t)
    requires ResetOffset(cfg, m, word) <= t
    ensures ResetAgent(cfg, m, word) == ResetAgent(cfg, n, word)
    ensures Reset(cfg, m, EMPTY_LOG, word) == Reset(cfg, n, EMPTY_LOG, word)
  {
    assert ResetOffset(cfg, m, word) == ResetOffset(cfg, n, word);
    var a := ResetAgent(cfg, m, word);
    FlatObservationAgrees(cfg, m, n, a, t);
  }

  /** A flat account is shown no prices, only the lagged feature row. */
  lemma FlatObservationAgrees(cfg: EnvConfig, m: MarketData, n: MarketData, a: Agent, t: nat)
    requires m.Valid() && n.Valid() && AgreeBefore(cfg, m, n, t)
    requires WellFormed(a, m.numSymbols) && a.pos < 0 && a.offset + a.step <= t
    ensures Observe(cfg, m, a) == Observe(cfg, n, a)
  {
  }

  /** One step in two markets that agree on every row it reads. */
  lemma StepAgrees(cfg: EnvConfig, m: MarketData, n: MarketData, s: EnvState, i: Input, t: nat)
    requires m.Valid() && n.Valid() && WellFormed(s.agent, m.numSymbols)
    requires AgreeBefore(cfg, m, n, t)
    requires s.agent.offset + s.agent.step + 1 < t
    requires !Step(cfg, m, s, i).terminal
    ensures Step(cfg, m, s, i) == Step(cfg, n, s, i)
  {
    TradeKeepsTime(cfg, m, s.agent, i.action, i.fillWord);
    assert TradeNow(cfg, m, s.agent, i.action, i.fillWord) == TradeNow(cfg, n, s.agent, i.action, i.fillWord);
    var b := TradeNow(cfg, m, s.agent, i.action, i.fillWord).agent;
    assert Settle(cfg, m, b) == Settle(cfg, n, b);
    var c := Settle(cfg, m, b).0;
    assert Observe(cfg, m, c) == Observe(cfg, n, c);
  }

  /** Before the last bar the two runs are in the same state, statistics included. */
  lemma {:induction false} RunsAgree(cfg: EnvConfig, m: MarketData, n: MarketData, policy: seq<real> -> int,
                                     words: seq<(nat, nat)>, word: nat, k: nat, t: nat)
    requires m.Valid() && n.Valid() && k <= |words|
    requires AgreeBefore(cfg, m, n, t)
    requires DecisionBar(cfg, m, word, k) < t
    requires Unterminated(cfg, m, policy, words, word, k)
    ensures Play(cfg, m, policy, words, word, k) == Play(cfg, n, policy, words, word, k)
  {
    hide Step;
    if k == 0 {
      ResetAgrees(cfg, m, n, word, t);
    } else {
      RunsAgree(cfg, m, n, policy, words, word, k - 1, t);
      ClockOfPlay(cfg, m, policy, words, word, k - 1);
      var s := Play(cfg, m, policy, words, word, k - 1);
      assert !Play(cfg, m, policy, words, word, k).terminal;
      StepAgrees(cfg, m, n, s, Input(policy(s.obs), words[k - 1].0, words[k - 1].1), t);
    }
  }

  /** The last step, whose valuation reads the new bar: the settled account is shown alike exactly when
      the two borrow fees agree. */
  lemma LastBarAgrees(cfg: EnvConfig, m: MarketData, n: MarketData, s: EnvState, i: Input, t: nat)
    requires m.Valid() && n.Valid() && WellFormed(s.agent, m.numSymbols)
    requires AgreeBefore(cfg, m, n, t)
    requires s.agent.offset + s.agent.step + 1 == t
    ensures Observe(cfg, m, Settled(cfg, m, s, i).0) == Observe(cfg, n, Settled(cfg, n, s, i).0)
            <==> FeeAtNewBar(cfg, m, s, i.action, i.fillWord) == FeeAtNewBar(cfg, n, s, i.action, i.fillWord)
  {
    TradeKeepsTime(cfg, m, s.agent, i.action, i.fillWord);
    assert TradeNow(cfg, m, s.agent, i.action, i.fillWord) == TradeNow(cfg, n, s.agent, i.action, i.fillWord);
    var b := TradeNow(cfg, m, s.agent, i.action, i.fillWord).agent;
    var x, y := Settle(cfg, m, b).0, Settle(cfg, n, b).0;
    assert x.cash == b.cash - FeeAtNewBar(cfg, m, s, i.action, i.fillWord);
    assert y.cash == b.cash - FeeAtNewBar(cfg, n, s, i.action, i.fillWord);
    assert y == x.(cash := y.cash, peak := y.peak, maxDrawdown := y.maxDrawdown);
    ObservationShowsCash(cfg, m, n, x, y, t);
  }

  /** Two accounts that differ only in cash and statistics are shown alike exactly when the cash is equal. */
  lemma ObservationShowsCash(cfg: EnvConfig, m: MarketData, n: MarketData, x: Agent, y: Agent, t: nat)
    requires m.Valid() && n.Valid() && WellFormed(x, m.numSymbols) && WellFormed(y, m.numSymbols)
    requires AgreeBefore(cfg, m, n, t) && Clock(m, x) == t && 0 < t
    requires y == x.(cash := y.cash, peak := y.peak, maxDrawdown := y.maxDrawdown)
    ensures Observe(cfg, m, x) == Observe(cfg, n, y) <==> x.cash == y.cash
  {
    var r := ObsRow(cfg, t);
    var row := m.prices[r];
    assert row == n.prices[r];
    var base := |m.features[0]|;
    assert m.features[r] == n.features[r] && |m.features[r]| == base;
    assert Marked(row, x) == Marked(row, y);
    assert Observe(cfg, m, x)[base] == Scaled(x.cash);
    assert Observe(cfg, n, y)[base] == Scaled(y.cash);
    assert Scaled(x.cash) == Scaled(y.cash) <==> x.cash == y.cash;
  }

  // ---------------------------------------------------------------- who pays on the new bar

  /** An account that owes a borrow fee on any bar of positive closes: a short, or a long on margin. */
  predicate Pays(cfg: EnvConfig, s: nat, a: Agent) {
    0.0 < cfg.shortBorrowApr && 0 <= a.pos && (s <= a.pos || 1.0 < cfg.maxLeverage)
  }

  function EvenRow(s: nat, price: real): (r: seq<Bar>)
    ensures |r| == s
  {
    seq(s, _ => Bar(price, price, price, price, 1.0))
  }

  /** Its fee is proportional to the close. */
  lemma FeeScales(cfg: EnvConfig, s: nat, a: Agent)
    requires WellFormed(a, s) && Pays(cfg, s, a)
    ensures 0.0 < BorrowFee(cfg, EvenRow(s, 1.0), a) < BorrowFee(cfg, EvenRow(s, 2.0), a)
  {
    var ppy := if cfg.periodsPerYear <= 0.0 then 8760.0 else cfg.periodsPerYear;
    var margin := if s <= a.pos then 1.0 else 1.0 - 1.0 / cfg.maxLeverage;
    assert 0.0 < margin by {
      if a.pos < s {
        DivAntitone(1.0, 1.0, cfg.maxLeverage);
        assert 1.0 / cfg.maxLeverage != 1.0;
      }
    }
    PositiveProduct(a.qty, margin);
    PositiveProduct(a.qty * margin, cfg.shortBorrowApr);
    var base := a.qty * margin * cfg.shortBorrowApr / ppy;
    PositiveQuotient(a.qty * margin * cfg.shortBorrowApr, ppy);
    FeeFormula(a.qty, 1.0, margin, cfg.shortBorrowApr, ppy);
    FeeFormula(a.qty, 2.0, margin, cfg.shortBorrowApr, ppy);
    PositiveProduct(a.qty * 1.0, margin);
    PositiveProduct(a.qty * 2.0, margin);
  }

  lemma PositiveProduct(x: real, y: real)
    requires 0.0 < x && 0.0 < y
    ensures 0.0 < x * y
  {
  }

  lemma PositiveQuotient(x: real, y: real)
    requires 0.0 < x && 0.0 < y
    ensures 0.0 < x / y
  {
  }

  lemma FeeFormula(q: real, p: real, margin: real, apr: real, ppy: real)
    requires 0.0 < ppy
    ensures q * p * margin * apr / ppy == p * (q * margin * apr / ppy)
  {
    var x := q * margin * apr;
    assert q * p * margin * apr == p * x;
    assert (x / ppy) * ppy == x;
    Cancel(p * x / ppy, p * (x / ppy), ppy);
  }

  /** The fee depends on the row it is charged at exactly for a paying account. */
  lemma FeeReadsTheRow(cfg: EnvConfig, s: nat, a: Agent)
    requires WellFormed(a, s)
    ensures (forall p: seq<Bar>, q: seq<Bar> ::
               |p| == s && |q| == s ==> BorrowFee(cfg, p, a) == BorrowFee(cfg, q, a))
            <==> !Pays(cfg, s, a)
  {
    if Pays(cfg, s, a) {
      FeeScales(cfg, s, a);
      hide BorrowFee;
    } else {
      assert forall p: seq<Bar> :: |p| == s ==> BorrowFee(cfg, p, a) == 0.0;
    }
  }

  /** The account after the trades of step `k`, before the new bar is looked at. */
  function TradedAt(cfg: EnvConfig, md: MarketData, policy: seq<real> -> int, words: seq<(nat, nat)>, word: nat, k: nat)
    : (a: Agent)
    requires md.Valid() && 0 < k <= |words|
    ensures WellFormed(a, md.numSymbols)
  {
    var s := Play(cfg, md, policy, words, word, k - 1);
    TradeNow(cfg, md, s.agent, policy(s.obs), words[k - 1].0).agent
  }

  /** What the policy is shown after step `k`, if the episode goes on. */
  function Shown(cfg: EnvConfig, md: MarketData, policy: seq<real> -> int, words: seq<(nat, nat)>, word: nat, k: nat)
    : seq<real>
    requires md.Valid() && 0 < k <= |words|
  {
    var s := Play(cfg, md, policy, words, word, k - 1);
    Observe(cfg, md, Settled(cfg, md, s, Input(policy(s.obs), words[k - 1].0, words[k - 1].1)).0)
  }

  lemma ShownIsObserved(cfg: EnvConfig, md: MarketData, policy: seq<real> -> int, words: seq<(nat, nat)>, word: nat, k: nat)
    requires md.Valid() && 0 < k <= |words| && !Play(cfg, md, policy, words, word, k).terminal
    ensures Play(cfg, md, policy, words, word, k).obs == Shown(cfg, md, policy, words, word, k)
  {
    hide TradeNow, Settle, Done, Observe;
  }

  /** In two markets that agree before bar t the policy is shown the same at t exactly when the two fees
      charged at t agree; up to then the runs are the same. */
  lemma ShownAgrees(cfg: EnvConfig, m: MarketData, n: MarketData, policy: seq<real> -> int, words: seq<(nat, nat)>,
                    word: nat, k: nat)
    requires m.Valid() && n.Valid() && 0 < k <= |words|
    requires AgreeBefore(cfg, m, n, DecisionBar(cfg, m, word, k))
    requires Unterminated(cfg, m, policy, words, word, k - 1)
    ensures Play(cfg, m, policy, words, word, k - 1) == Play(cfg, n, policy, words, word, k - 1)
    ensures TradedAt(cfg, m, policy, words, word, k) == TradedAt(cfg, n, policy, words, word, k)
    ensures Shown(cfg, m, policy, words, word, k) == Shown(cfg, n, policy, words, word, k)
            <==> FeeOn(cfg, m, policy, words, word, k) == FeeOn(cfg, n, policy, words, word, k)
  {
    hide Step, ResetOffset, FeeAtNewBar, Settled, Observe;
    var t := DecisionBar(cfg, m, word, k);
    RunsAgree(cfg, m, n, policy, words, word, k - 1, t);
    ClockOfPlay(cfg, m, policy, words, word, k - 1);
    var s := Play(cfg, m, policy, words, word, k - 1);
    LastBarAgrees(cfg, m, n, s, Input(policy(s.obs), words[k - 1].0, words[k - 1].1), t);
  }

  /** The fee charged at the end of step `k`. */
  function FeeOn(cfg: EnvConfig, md: MarketData, policy: seq<real> -> int, words: seq<(nat, nat)>, word: nat, k: nat)
    : real
    requires md.Valid() && 0 < k <= |words|
  {
    var s := Play(cfg, md, policy, words, word, k - 1);
    FeeAtNewBar(cfg, md, s, policy(s.obs), words[k - 1].0)
  }

  /** It is the traded account's fee on the row of the new bar. */
  lemma FeeIsOnTheNewRow(cfg: EnvConfig, md: MarketData, policy: seq<real> -> int, words: seq<(nat, nat)>, word: nat, k: nat)
    requires md.Valid() && 0 < k <= |words| && Unterminated(cfg, md, policy, words, word, k - 1)
    requires DecisionBar(cfg, md, word, k) < md.T()
    ensures FeeOn(cfg, md, policy, words, word, k)
         == MaxReal(0.0, BorrowFee(cfg, md.prices[DecisionBar(cfg, md, word, k)], TradedAt(cfg, md, policy, words, word, k)))
  {
    hide TradeNow, ResetOffset, Step, Play, BorrowFee, FeeAtNewBar;
    ClockOfPlay(cfg, md, policy, words, word, k - 1);
    var s := Play(cfg, md, policy, words, word, k - 1);
    FeeIsOnItsRow(cfg, md, s, policy(s.obs), words[k - 1].0);
  }

  lemma FeeIsOnItsRow(cfg: EnvConfig, md: MarketData, s: EnvState, action: int, word: nat)
    requires md.Valid() && WellFormed(s.agent, md.numSymbols)
    requires s.agent.offset + s.agent.step + 1 < md.T()
    ensures FeeAtNewBar(cfg, md, s, action, word)
         == MaxReal(0.0, BorrowFee(cfg, md.prices[s.agent.offset + s.agent.step + 1],
                                   TradeNow(cfg, md, s.agent, action, word).agent))
  {
    hide TradeNow, BorrowFee;
    TradeKeepsTime(cfg, md, s.agent, action, word);
    FeeIgnoresTheStep(cfg, md.prices[s.agent.offset + s.agent.step + 1], TradeNow(cfg, md, s.agent, action, word).agent);
  }

  lemma FeeIgnoresTheStep(cfg: EnvConfig, row: seq<Bar>, a: Agent)
    requires WellFormed(a, |row|)
    ensures BorrowFee(cfg, row, a.(step := a.step + 1)) == BorrowFee(cfg, row, a)
  {
  }

  /** A market with another row at bar t. */
  function WithRow(md: MarketData, t: nat, row: seq<Bar>): MarketData
    requires t < |md.prices|
  {
    md.(prices := md.prices[t := row])
  }

  lemma WithRowAgrees(cfg: EnvConfig, m: MarketData, t: nat, row: seq<Bar>)
    requires m.Valid() && t < m.T() && |row| == m.numSymbols
    ensures var n := WithRow(m, t, row);
            n.Valid() && AgreeBefore(cfg, m, n, t) && n.T() == m.T() && n.numSymbols == m.numSymbols && n.prices[t] == row
  {
  }

  /** Look-ahead is exactly the borrow fee. After any unterminated run, what the policy is shown at bar t is
      the same in every market that agrees before t if and only if the account, once it has traded, is no
      short at a positive rate and no long on margin at one. The condition is known before bar t. */
  lemma LookAheadIsTheFee(cfg: EnvConfig, m: MarketData, policy: seq<real> -> int, words: seq<(nat, nat)>, word: nat,
                          k: nat)
    requires m.Valid() && 0 < k <= |words| && DecisionBar(cfg, m, word, k) < m.T()
    requires Unterminated(cfg, m, policy, words, word, k - 1)
    ensures (forall n: MarketData :: n.Valid() && AgreeBefore(cfg, m, n, DecisionBar(cfg, m, word, k)) ==>
               Shown(cfg, n, policy, words, word, k) == Shown(cfg, m, policy, words, word, k))
            <==> !Pays(cfg, m.numSymbols, TradedAt(cfg, m, policy, words, word, k))
  {
    hide Shown, TradedAt, Pays, FeeOn, AgreeBefore, DecisionBar;
    var t := DecisionBar(cfg, m, word, k);
    var a := TradedAt(cfg, m, policy, words, word, k);
    FeeReadsTheRow(cfg, m.numSymbols, a);
    if Pays(cfg, m.numSymbols, a) {
      var n := OtherShown(cfg, m, policy, words, word, k);
    } else {
      forall n: MarketData | n.Valid() && AgreeBefore(cfg, m, n, t)
        ensures Shown(cfg, n, policy, words, word, k) == Shown(cfg, m, policy, words, word, k)
      {
        SameShown(cfg, m, n, policy, words, word, k);
      }
    }
  }

  lemma SameShown(cfg: EnvConfig, m: MarketData, n: MarketData, policy: seq<real> -> int, words: seq<(nat, nat)>,
                  word: nat, k: nat)
    requires m.Valid() && n.Valid() && 0 < k <= |words|
    requires AgreeBefore(cfg, m, n, DecisionBar(cfg, m, word, k))
    requires Unterminated(cfg, m, policy, words, word, k - 1)
    requires !Pays(cfg, m.numSymbols, TradedAt(cfg, m, policy, words, word, k))
    ensures Shown(cfg, n, policy, words, word, k) == Shown(cfg, m, policy, words, word, k)
  {
    hide Shown, TradedAt, Pays, FeeOn, BorrowFee;
    ShownAgrees(cfg, m, n, policy, words, word, k);
    SameUnterminated(cfg, m, n, policy, words, word, k - 1);
    FeeIsOnTheNewRow(cfg, m, policy, words, word, k);
    FeeIsOnTheNewRow(cfg, n, policy, words, word, k);
    FeeReadsTheRow(cfg, m.numSymbols, TradedAt(cfg, m, policy, words, word, k));
  }

  lemma SameUnterminated(cfg: EnvConfig, m: MarketData, n: MarketData, policy: seq<real> -> int,
                         words: seq<(nat, nat)>, word: nat, k: nat)
    requires m.Valid() && n.Valid() && k < |words|
    requires AgreeBefore(cfg, m, n, DecisionBar(cfg, m, word, k + 1))
    requires Unterminated(cfg, m, policy, words, word, k)
    ensures Unterminated(cfg, n, policy, words, word, k) && DecisionBar(cfg, n, word, k + 1) == DecisionBar(cfg, m, word, k + 1)
  {
    hide Play;
    forall j | 1 <= j <= k
      ensures !Play(cfg, n, policy, words, word, j).terminal
    {
      RunsAgree(cfg, m, n, policy, words, word, j, DecisionBar(cfg, m, word, k + 1));
    }
  }

  /** With another row at the new bar, the fee is the one on that row. */
  lemma ShownWithRow(cfg: EnvConfig, m: MarketData, policy: seq<real> -> int, words: seq<(nat, nat)>, word: nat, k: nat,
                     row: seq<Bar>)
    returns (n: MarketData)
    requires m.Valid() && 0 < k <= |words| && DecisionBar(cfg, m, word, k) < m.T() && |row| == m.numSymbols
    requires Unterminated(cfg, m, policy, words, word, k - 1)
    ensures n.Valid() && AgreeBefore(cfg, m, n, DecisionBar(cfg, m, word, k))
    ensures Shown(cfg, m, policy, words, word, k) == Shown(cfg, n, policy, words, word, k)
            <==> FeeOn(cfg, m, policy, words, word, k) == MaxReal(0.0, BorrowFee(cfg, row, TradedAt(cfg, m, policy, words, word, k)))
  {
    hide Shown, TradedAt, FeeOn, BorrowFee, AgreeBefore, Unterminated, DecisionBar, WithRow;
    var t := DecisionBar(cfg, m, word, k);
    n := WithRow(m, t, row);
    WithRowAgrees(cfg, m, t, row);
    ShownAgrees(cfg, m, n, policy, words, word, k);
    SameUnterminated(cfg, m, n, policy, words, word, k - 1);
    assert DecisionBar(cfg, n, word, k) == t;
    FeeIsOnTheNewRow(cfg, n, policy, words, word, k);
  }

  /** For a paying account one of two closes of the new bar is shown differently. */
  lemma OtherShown(cfg: EnvConfig, m: MarketData, policy: seq<real> -> int, words: seq<(nat, nat)>, word: nat, k: nat)
    returns (n: MarketData)
    requires m.Valid() && 0 < k <= |words| && DecisionBar(cfg, m, word, k) < m.T()
    requires Unterminated(cfg, m, policy, words, word, k - 1)
    requires Pays(cfg, m.numSymbols, TradedAt(cfg, m, policy, words, word, k))
    ensures n.Valid() && AgreeBefore(cfg, m, n, DecisionBar(cfg, m, word, k))
    ensures Shown(cfg, n, policy, words, word, k) != Shown(cfg, m, policy, words, word, k)
  {
    hide Shown, TradedAt, Pays, FeeOn, BorrowFee, AgreeBefore, Unterminated, DecisionBar;
    FeeScales(cfg, m.numSymbols, TradedAt(cfg, m, policy, words, word, k));
    n := ShownWithRow(cfg, m, policy, words, word, k, EvenRow(m.numSymbols, 1.0));
    if Shown(cfg, n, policy, words, word, k) == Shown(cfg, m, policy, words, word, k) {
      n := ShownWithRow(cfg, m, policy, words, word, k, EvenRow(m.numSymbols, 2.0));
    }
  }

  /** With no borrow rate there is no look-ahead: observation and action at bar t depend only on
      rows before t. */
  lemma NoLookAhead(cfg: EnvConfig, m: MarketData, n: MarketData, policy: seq<real> -> int,
                    words: seq<(nat, nat)>, word: nat, k: nat)
    requires m.Valid() && n.Valid() && k <= |words|
    requires cfg.shortBorrowApr <= 0.0
    requires AgreeBefore(cfg, m, n, DecisionBar(cfg, m, word, k))
    requires Unterminated(cfg, m, policy, words, word, k) && Unterminated(cfg, n, policy, words, word, k)
    ensures var x, y := Play(cfg, m, policy, words, word, k), Play(cfg, n, policy, words, word, k);
            x.obs == y.obs && policy(x.obs) == policy(y.obs)
  {
    hide Shown, TradedAt;
    if k == 0 {
      ResetAgrees(cfg, m, n, word, DecisionBar(cfg, m, word, 0));
    } else {
      hide Play;
      SameShown(cfg, m, n, policy, words, word, k);
      ShownIsObserved(cfg, m, policy, words, word, k);
      ShownIsObserved(cfg, n, policy, words, word, k);
    }
  }

  // ---------------------------------------------------------------- the leak in a run

  /** A policy that shorts at a positive borrow rate, in a market with a chosen second close. */
  function Borrowed(): EnvConfig { Plain(10).(shortBorrowApr := 87.6) }

  function SecondClose(price: real): MarketData { OneSymbol([100.0, price, 100.0, 100.0]) }

  function AlwaysShort(): seq<real> -> int { (obs: seq<real>) => SHORT }

  /** The account after shorting a hundred shares at the first bar. */
  function Shorted(): Agent {
    Agent(20000.0, 1, 100.0, 100.0, 0, INITIAL_CASH, INITIAL_CASH, 0, 0, 0.0, 0, 0)
  }

  lemma ShortIsTraded(price: real)
    ensures SecondClose(price).Valid() && ResetOffset(Borrowed(), SecondClose(price), 0) == 0
    ensures WellFormed(Shorted(), 1)
    ensures TradeNow(Borrowed(), SecondClose(price), ResetAgent(Borrowed(), SecondClose(price), 0), SHORT, 0).agent
         == Shorted()
  {
    var cfg, md := Borrowed(), SecondClose(price);
    OneSymbolIsValid([100.0, price, 100.0, 100.0]);
    FirstTrade(cfg, ResetAgent(cfg, md, 0), true, 0);
    hide TradeBar;
    assert md.prices[0] == [FlatBar(100.0)];
  }

  /** It pays a hundredth of its value at the second close, and the episode goes on. */
  lemma ShortIsSettled(price: real)
    requires 50.0 <= price <= 150.0
    ensures SecondClose(price).Valid() && WellFormed(Shorted(), 1)
    ensures BorrowFee(Borrowed(), SecondClose(price).prices[1], Shorted()) == price
    ensures var (a, equity) := Settle(Borrowed(), SecondClose(price), Shorted());
            !Done(Borrowed(), SecondClose(price), a, equity)
  {
    var cfg, md := Borrowed(), SecondClose(price);
    OneSymbolIsValid([100.0, price, 100.0, 100.0]);
    assert md.prices[1] == [FlatBar(price)];
    assert 100.0 * price * 87.6 / 8760.0 == price;
    FeeIgnoresTheStep(cfg, md.prices[1], Shorted());
    var (a, equity) := Settle(cfg, md, Shorted());
    assert equity == 20000.0 - 100.0 * price - price;
  }

  lemma ShortPays(price: real)
    requires 50.0 <= price <= 150.0
    ensures SecondClose(price).Valid() && ResetOffset(Borrowed(), SecondClose(price), 0) == 0
    ensures FeeOn(Borrowed(), SecondClose(price), AlwaysShort(), [(0, 0)], 0, 1) == price
    ensures Unterminated(Borrowed(), SecondClose(price), AlwaysShort(), [(0, 0)], 0, 1)
  {
    hide TradeNow, Settle, Done, Observe, BorrowFee, FinalClose, AddEpisode;
    ShortIsTraded(price);
    ShortIsSettled(price);
    var cfg, md := Borrowed(), SecondClose(price);
    OneSymbolIsValid([100.0, price, 100.0, 100.0]);
    hide OneSymbol, FeeAtNewBar;
    var s := Play(cfg, md, AlwaysShort(), [(0, 0)], 0, 0);
    assert s == Reset(cfg, md, EMPTY_LOG, 0);
    assert AlwaysShort()(s.obs) == SHORT;
    assert Play(cfg, md, AlwaysShort(), [(0, 0)], 0, 1) == Step(cfg, md, s, Input(SHORT, 0, 0));
    FeeIsOnItsRow(cfg, md, s, SHORT, 0);
  }

  /** After `k` steps in two markets that agree before the bar reached, the policy is shown different
      observations. */
  ghost predicate SeesApart(cfg: EnvConfig, m: MarketData, n: MarketData, policy: seq<real> -> int,
                            words: seq<(nat, nat)>, word: nat, k: nat)
  {
    && m.Valid() && n.Valid() && 0 < k <= |words|
    && AgreeBefore(cfg, m, n, DecisionBar(cfg, m, word, k))
    && Unterminated(cfg, m, policy, words, word, k) && Unterminated(cfg, n, policy, words, word, k)
    && Play(cfg, m, policy, words, word, k).obs != Play(cfg, n, policy, words, word, k).obs
  }

  /** Where the fees differ, so do the observations of two runs that go on. */
  lemma FeesAreSeen(cfg: EnvConfig, m: MarketData, n: MarketData, policy: seq<real> -> int, words: seq<(nat, nat)>,
                    word: nat, k: nat)
    requires m.Valid() && n.Valid() && 0 < k <= |words|
    requires AgreeBefore(cfg, m, n, DecisionBar(cfg, m, word, k))
    requires Unterminated(cfg, m, policy, words, word, k) && Unterminated(cfg, n, policy, words, word, k)
    requires FeeOn(cfg, m, policy, words, word, k) != FeeOn(cfg, n, policy, words, word, k)
    ensures SeesApart(cfg, m, n, policy, words, word, k)
  {
    hide FeeOn, Shown, Play, ResetOffset;
    ShownAgrees(cfg, m, n, policy, words, word, k);
    ShownIsObserved(cfg, m, policy, words, word, k);
    ShownIsObserved(cfg, n, policy, words, word, k);
  }

  lemma SecondClosesAgree(p: real, q: real)
    ensures var m, n := SecondClose(p), SecondClose(q);
            m.Valid() && n.Valid() && AgreeBefore(Borrowed(), m, n, 1) && ResetOffset(Borrowed(), m, 0) == 0
  {
    var m, n := SecondClose(p), SecondClose(q);
    OneSymbolIsValid([100.0, p, 100.0, 100.0]);
    OneSymbolIsValid([100.0, q, 100.0, 100.0]);
    assert m.prices[0] == n.prices[0];
  }

  /** Two runs of one policy on markets whose rows agree before bar 1, in which the observation at bar 1
      differs, because the fee taken out of the cash shown is 100 in one and 110 in the other. */
  lemma ShortsSeeTheNewClose()
    ensures SeesApart(Borrowed(), SecondClose(100.0), SecondClose(110.0), AlwaysShort(), [(0, 0)], 0, 1)
    ensures SecondClose(100.0).Valid() && DecisionBar(Borrowed(), SecondClose(100.0), 0, 1) == 1
  {
    hide FeeOn, ResetOffset, OneSymbol, AgreeBefore, Unterminated, SeesApart;
    ShortPays(100.0);
    ShortPays(110.0);
    SecondClosesAgree(100.0, 110.0);
    FeesAreSeen(Borrowed(), SecondClose(100.0), SecondClose(110.0), AlwaysShort(), [(0, 0)], 0, 1);
  }
}
