/** What an observation shows, number by number, and that it shows nothing else. */
module Observation {
  import opened Prelude
  import opened Engine
  import opened Episode

  /** The row shown at bar `t`: as many bars back as the decision lag says, at least one, and the first row
      before that. */
  function ShownRow(lag: int, t: nat): (r: nat)
    ensures r <= t
  {
    if lag < 1 then (if t == 0 then 0 else t - 1)
    else if t < lag then 0
    else t - lag
  }

  /** The buffer is: the features of the row shown; cash, signed position value and unrealised gain at that
      row's closes, as parts of the starting cash; age and step, as parts of the horizon; and one number a
      symbol, 1 where it is held long, -1 where it is held short. */
  predicate Shows(cfg: EnvConfig, md: MarketData, a: Agent, obs: seq<real>)
    requires md.Valid() && WellFormed(a, md.numSymbols)
  {
    var s, base := md.numSymbols, |md.features[0]|;
    var now := if a.offset + a.step < md.T() then a.offset + a.step else md.T() - 1;
    var row := ShownRow(cfg.decisionLag, now);
    && |obs| == base + 5 + s
    && obs[..base] == md.features[row]
    && 10000.0 * obs[base] == a.cash
    && ShowsPosition(md.prices[row], s, a, 10000.0 * obs[base + 1], 10000.0 * obs[base + 2])
    && ShowsTime(cfg.maxSteps, a, obs[base + 3], obs[base + 4])
    && forall j :: base + 5 <= j < |obs| ==>
         obs[j] == if a.pos == j - base - 5 then 1.0 else if a.pos == s + j - base - 5 then -1.0 else 0.0
  }

  /** Value and gain of nothing, of a long, and of a short, which is a liability and gains as the price falls. */
  predicate ShowsPosition(row: seq<Bar>, s: nat, a: Agent, value: real, gain: real)
    requires WellFormed(a, s) && |row| == s
  {
    if a.pos < 0 then value == 0.0 && gain == 0.0
    else if a.pos < s then
      value == a.qty * row[a.pos].close && gain == value - a.qty * a.entry
    else
      value == -(a.qty * row[a.pos - s].close) && gain == value + a.qty * a.entry
  }

  predicate ShowsTime(maxSteps: int, a: Agent, age: real, step: real) {
    var horizon := if maxSteps < 1 then 1.0 else maxSteps as real;
    age * horizon == a.hold as real && step * horizon == a.step as real
  }

  /** It is what every account is shown. */
  lemma ObservationShows(cfg: EnvConfig, md: MarketData, a: Agent)
    requires md.Valid() && WellFormed(a, md.numSymbols)
    ensures Shows(cfg, md, a, Observe(cfg, md, a))
  {
    var obs, base, s := Observe(cfg, md, a), |md.features[0]|, md.numSymbols;
    var t := ObsRow(cfg, Clock(md, a));
    assert t == ShownRow(cfg.decisionLag, Clock(md, a));
    assert obs[..base] == md.features[t];
    var numbers := PortfolioNumbers(cfg, md.prices[t], a);
    assert forall j :: 0 <= j < 5 ==> obs[base + j] == numbers[j];
    assert forall j :: base + 5 <= j < |obs| ==> obs[j] == OneHot(a.pos, s)[j - base - 5];
    NumbersShow(cfg, md.prices[t], a);
    hide Observe, PortfolioNumbers, ShowsPosition, ShowsTime, ObsRow, ShownRow;
  }

  /** The observation in the order it is written. */
  lemma ObserveInParts(cfg: EnvConfig, md: MarketData, a: Agent)
    requires md.Valid() && WellFormed(a, md.numSymbols)
    ensures var t := ObsRow(cfg, Clock(md, a));
            Observe(cfg, md, a)
            == md.features[t] + PortfolioNumbers(cfg, md.prices[t], a) + OneHot(a.pos, md.numSymbols)
  {
    hide PortfolioNumbers, OneHot;
  }

  lemma NumbersShow(cfg: EnvConfig, row: seq<Bar>, a: Agent)
    requires WellFormed(a, |row|)
    ensures var n := PortfolioNumbers(cfg, row, a);
            && 10000.0 * n[0] == a.cash
            && ShowsPosition(row, |row|, a, 10000.0 * n[1], 10000.0 * n[2])
            && ShowsTime(cfg.maxSteps, a, n[3], n[4])
  {
    if 0 <= a.pos {
      var price := row[SymOf(a.pos, |row|)].close;
      GainIsDifference(a.qty, price, a.entry);
    }
  }

  lemma GainIsDifference(qty: real, price: real, entry: real)
    ensures qty * (price - entry) == qty * price - qty * entry
    ensures qty * (entry - price) == -(qty * price) + qty * entry
  {
  }

  /** And nothing is left open: two buffers that show the same account are equal. */
  lemma ShowsAllOfIt(cfg: EnvConfig, md: MarketData, a: Agent, obs: seq<real>, other: seq<real>)
    requires md.Valid() && WellFormed(a, md.numSymbols)
    requires Shows(cfg, md, a, obs) && Shows(cfg, md, a, other)
    ensures obs == other
  {
    hide ShowsPosition, ShowsTime, ShownRow;
    var base, s := |md.features[0]|, md.numSymbols;
    var row := md.prices[ShownRow(cfg.decisionLag, if a.offset + a.step < md.T() then a.offset + a.step else md.T() - 1)];
    OnePosition(row, s, a, obs[base + 1], obs[base + 2], other[base + 1], other[base + 2]);
    OneTime(cfg.maxSteps, a, obs[base + 3], obs[base + 4], other[base + 3], other[base + 4]);
    assert obs[base..base + 5] == other[base..base + 5];
    assert obs[base + 5..] == other[base + 5..];
    assert obs == obs[..base] + obs[base..base + 5] + obs[base + 5..];
    assert other == other[..base] + other[base..base + 5] + other[base + 5..];
  }

  lemma OnePosition(row: seq<Bar>, s: nat, a: Agent, value: real, gain: real, value': real, gain': real)
    requires WellFormed(a, s) && |row| == s
    requires ShowsPosition(row, s, a, 10000.0 * value, 10000.0 * gain)
    requires ShowsPosition(row, s, a, 10000.0 * value', 10000.0 * gain')
    ensures value == value' && gain == gain'
  {
  }

  lemma OneTime(maxSteps: int, a: Agent, age: real, step: real, age': real, step': real)
    requires ShowsTime(maxSteps, a, age, step) && ShowsTime(maxSteps, a, age', step')
    ensures age == age' && step == step'
  {
    var horizon := if maxSteps < 1 then 1.0 else maxSteps as real;
    Cancel(age, age', horizon);
    Cancel(step, step', horizon);
  }

  /** Along any run, through any number of episodes, the observation is that of the account as it stands. */
  lemma {:induction false} RunsShow(cfg: EnvConfig, md: MarketData, word: nat, inputs: seq<Input>, k: nat)
    requires md.Valid() && k <= |inputs|
    ensures var s := After(cfg, md, Reset(cfg, md, EMPTY_LOG, word), inputs, k);
            Shows(cfg, md, s.agent, s.obs)
  {
    hide Observe, Shows, TradeNow, Settle, Done, FinalClose;
    var s := After(cfg, md, Reset(cfg, md, EMPTY_LOG, word), inputs, k);
    ObservationShows(cfg, md, s.agent);
  }
}
