/** The gate over real plays: what promotion says about the episodes behind the table. */
module Promotion {
  import opened Prelude
  import opened Engine
  import opened Episode
  import opened Windows
  import opened Gate

  /** The randomness of one window: its offset and the generator's words. */
  datatype Draw = Draw(offset: nat, word: nat, words: seq<(nat, nat)>)

  /** One policy on one market, played at each slippage over its windows. */
  datatype Evaluation = Evaluation(
    base: EnvConfig,
    slippages: seq<real>,
    md: MarketData,
    policy: seq<real> -> int,
    draws: seq<seq<Draw>>)
  {
    ghost predicate Valid() {
      && md.Valid() && 1 <= base.maxSteps && |draws| == |slippages|
      && forall level, i :: 0 <= level < |draws| && 0 <= i < |draws[level]| ==> LoopBound(base) <= |draws[level][i].words|
    }

    function Config(level: nat, i: nat): EnvConfig
      requires Valid() && level < |draws| && i < |draws[level]|
    {
      base.(slippageBps := slippages[level], forcedOffset := draws[level][i].offset)
    }

    function Played(level: nat, i: nat): WindowResult
      requires Valid() && level < |draws| && i < |draws[level]|
    {
      var draw := draws[level][i];
      PlayedWindow(Config(level, i), md, policy, draw.words, draw.word, draw.offset)
    }

    /** The gate's row for a level: each window's monthly return and drawdown. */
    function Row(level: nat): (row: seq<Window>)
      requires Valid() && level < |draws|
      ensures |row| == |draws[level]|
    {
      seq(|draws[level]|, i requires 0 <= i < |draws[level]| => Window(Played(level, i).monthly, Played(level, i).maxDrawdown))
    }

    function Table(): (table: seq<seq<Window>>)
      requires Valid()
      ensures |table| == |draws|
    {
      seq(|draws|, level requires 0 <= level < |draws| => Row(level))
    }

    /** The step ends the first episode of a window within the runner's loop. */
    ghost predicate Ends(level: nat, i: nat, k: nat)
      requires Valid() && level < |draws| && i < |draws[level]|
    {
      k <= LoopBound(base) && EndsAt(Config(level, i), md, policy, draws[level][i].words, draws[level][i].word, k)
    }

    /** Account and equity at the end of that episode, the final close included. */
    function Final(level: nat, i: nat, k: nat): (Agent, real)
      requires Valid() && level < |draws| && i < |draws[level]| && 0 < k <= |draws[level][i].words|
    {
      var a := LastReading(Config(level, i), md, policy, draws[level][i].words, draws[level][i].word, k).0;
      (a, FinalClose(Config(level, i), md.prices[Clock(md, a)], a).1)
    }
  }

  /** What a window gained on its ten thousand, and the drawdown on the way: those of its first episode, or nothing
      where the runner does not reach an end. */
  ghost predicate Gained(e: Evaluation, level: nat, i: nat, gain: real, drawdown: real)
    requires e.Valid() && level < |e.draws| && i < |e.draws[level]|
  {
    if exists k: nat :: e.Ends(level, i, k) then
      exists k: nat :: e.Ends(level, i, k)
                       && e.Final(level, i, k).1 == 10000.0 + gain && e.Final(level, i, k).0.maxDrawdown == drawdown
    else gain == 0.0 && drawdown == 0.0
  }

  lemma RowIsGained(e: Evaluation, level: nat, i: nat)
    requires e.Valid() && level < |e.draws| && i < |e.draws[level]|
    ensures var gain := 10000.0 * e.Played(level, i).totalReturn;
            && Gained(e, level, i, gain, e.Row(level)[i].maxDrawdown)
            && 10000.0 * e.Row(level)[i].monthly * e.base.maxSteps as real == 730.0 * gain
  {
    hide PlayedWindow, EndsAt, LastReading, FinalClose, ReportsEpisode, Gained;
    PlayIsGained(e, level, i);
    MonthIsScaled(e, level, i);
  }

  lemma MonthIsScaled(e: Evaluation, level: nat, i: nat)
    requires e.Valid() && level < |e.draws| && i < |e.draws[level]|
    ensures 10000.0 * e.Played(level, i).monthly * e.base.maxSteps as real
         == 730.0 * (10000.0 * e.Played(level, i).totalReturn)
  {
    hide PlayedWindow, EndsAt, EndsWithin, ReportsEpisode, ReadsOneEpisode;
    var cfg, draw := e.Config(level, i), e.draws[level][i];
    WindowReports(cfg, e.md, e.policy, draw.words, draw.word, draw.offset);
    Thousands(e.Played(level, i).monthly, e.base.maxSteps as real, e.Played(level, i).totalReturn);
  }

  lemma PlayIsGained(e: Evaluation, level: nat, i: nat)
    requires e.Valid() && level < |e.draws| && i < |e.draws[level]|
    ensures Gained(e, level, i, 10000.0 * e.Played(level, i).totalReturn, e.Played(level, i).maxDrawdown)
  {
    hide PlayedWindow, EndsAt, LastReading, FinalClose, ReportsEpisode, ReadsOneEpisode;
    var cfg, draw := e.Config(level, i), e.draws[level][i];
    WindowReports(cfg, e.md, e.policy, draw.words, draw.word, draw.offset);
    if exists k: nat :: e.Ends(level, i, k) {
      var k: nat :| e.Ends(level, i, k);
      EndIsInside(e, level, i, k);
      ReportIsFinal(e, level, i, k);
    } else {
      NothingEnds(e, level, i);
    }
  }

  lemma EndIsInside(e: Evaluation, level: nat, i: nat, k: nat)
    requires e.Valid() && level < |e.draws| && i < |e.draws[level]| && e.Ends(level, i, k)
    ensures 0 < k <= |e.draws[level][i].words|
  {
  }

  lemma ReportIsFinal(e: Evaluation, level: nat, i: nat, k: nat)
    requires e.Valid() && level < |e.draws| && i < |e.draws[level]| && 0 < k <= |e.draws[level][i].words|
    requires ReportsEpisode(e.Config(level, i), e.md, e.policy, e.draws[level][i].words, e.draws[level][i].word, k,
                            e.Played(level, i))
    ensures e.Final(level, i, k).1 == 10000.0 + 10000.0 * e.Played(level, i).totalReturn
    ensures e.Final(level, i, k).0.maxDrawdown == e.Played(level, i).maxDrawdown
  {
    hide PlayedWindow, LastReading, FinalClose;
  }

  lemma NothingEnds(e: Evaluation, level: nat, i: nat)
    requires e.Valid() && level < |e.draws| && i < |e.draws[level]| && !exists k: nat :: e.Ends(level, i, k)
    ensures !EndsWithin(e.Config(level, i), e.md, e.policy, e.draws[level][i].words, e.draws[level][i].word,
                        LoopBound(e.Config(level, i)))
  {
    hide EndsAt;
    forall k: nat | k <= LoopBound(e.base)
      ensures !EndsAt(e.Config(level, i), e.md, e.policy, e.draws[level][i].words, e.draws[level][i].word, k)
    {
      assert !e.Ends(level, i, k);
    }
  }

  lemma Thousands(monthly: real, steps: real, total: real)
    requires monthly * steps == 730.0 * total
    ensures 10000.0 * monthly * steps == 730.0 * (10000.0 * total)
  {
    assert 10000.0 * monthly * steps == 10000.0 * (monthly * steps);
  }

  /** A gain that reaches a monthly target, per month of 730 bars. */
  predicate GainReaches(gain: real, steps: int, target: real) {
    730.0 * gain >= 10000.0 * target * steps as real
  }

  lemma ReachesByGain(monthly: real, gain: real, steps: int, target: real)
    requires 1 <= steps && 10000.0 * monthly * steps as real == 730.0 * gain
    ensures monthly >= target <==> GainReaches(gain, steps, target)
  {
    var n := 10000.0 * steps as real;
    var x, y := monthly * n, target * n;
    Rearranged(monthly, steps as real);
    Rearranged(target, steps as real);
    if monthly >= target {
      MulMono(target, monthly, n);
    } else {
      assert (target - monthly) * n == y - x;
      assert 0.0 < (target - monthly) * n;
    }
  }

  lemma Rearranged(x: real, steps: real)
    ensures 10000.0 * x * steps == x * (10000.0 * steps)
  {
  }

  /** How many of the first `n` windows of a level reach the target by what they gained. */
  function Reaching(e: Evaluation, level: nat, target: real, n: nat): nat
    requires e.Valid() && level < |e.draws| && n <= |e.draws[level]|
  {
    if n == 0 then 0
    else Reaching(e, level, target, n - 1)
         + if GainReaches(10000.0 * e.Played(level, n - 1).totalReturn, e.base.maxSteps, target) then 1 else 0
  }

  lemma {:induction false} CountIsReaching(e: Evaluation, level: nat, target: real, n: nat)
    requires e.Valid() && level < |e.draws| && n <= |e.draws[level]|
    ensures CountGe(Monthlies(e.Row(level))[..n], target) == Reaching(e, level, target, n)
  {
    hide GainReaches, PlayedWindow, Gained, LoopBound;
    if n > 0 {
      CountIsReaching(e, level, target, n - 1);
      RowIsGained(e, level, n - 1);
      ReachesByGain(e.Row(level)[n - 1].monthly, 10000.0 * e.Played(level, n - 1).totalReturn, e.base.maxSteps, target);
      OneMoreCounted(e.Row(level), n, target);
    }
  }

  lemma OneMoreCounted(row: seq<Window>, n: nat, target: real)
    requires 0 < n <= |row|
    ensures CountGe(Monthlies(row)[..n], target)
         == CountGe(Monthlies(row)[..n - 1], target) + if row[n - 1].monthly >= target then 1 else 0
  {
    var all := Monthlies(row);
    assert all[..n][..n - 1] == all[..n - 1];
  }

  /** Enough windows of a level reach the target: more than half of them, or for an even number half of them with
      the nearest two averaging to it. A level of no windows counts as zero. */
  predicate EnoughReach(e: Evaluation, level: nat, target: real)
    requires e.Valid() && level < |e.draws|
  {
    var n := |e.draws[level]|;
    var reaching := Reaching(e, level, target, n);
    if n == 0 then target <= 0.0
    else reaching > n / 2 || (n % 2 == 0 && reaching == n / 2 && NearestReach(Monthlies(e.Row(level)), target))
  }

  predicate LevelBreaches(e: Evaluation, level: nat, limit: real)
    requires e.Valid() && level < |e.draws|
  {
    exists i :: 0 <= i < |e.draws[level]| && e.Played(level, i).maxDrawdown > limit
  }

  lemma LevelPasses(e: Evaluation, level: nat, limits: Limits)
    requires e.Valid() && level < |e.draws|
    ensures Passes(CellOf(e.Row(level), limits), limits.target) <==>
            EnoughReach(e, level, limits.target) && (limits.failFast ==> !LevelBreaches(e, level, limits.maxDrawdown))
  {
    var row, patient := e.Row(level), limits.(failFast := false);
    PatientPasses(row, patient);
    if row != [] {
      CountIsReaching(e, level, limits.target, |row|);
      assert Monthlies(row)[..|row|] == Monthlies(row);
    }
    if limits.failFast {
      CellVerdictAgrees(row, limits, patient);
      BreachIsBreach(e, level, limits.maxDrawdown);
    } else {
      assert limits == patient;
    }
    hide CellOf, IsCell, PlayedWindow, CountGe, Reaching, NearestReach, Breaches, LevelBreaches, Monthlies;
  }

  lemma BreachIsBreach(e: Evaluation, level: nat, limit: real)
    requires e.Valid() && level < |e.draws|
    ensures Breaches(e.Row(level), limit) <==> LevelBreaches(e, level, limit)
  {
    var row := e.Row(level);
    assert forall i :: 0 <= i < |row| ==> row[i].maxDrawdown == e.Played(level, i).maxDrawdown;
    hide PlayedWindow;
  }

  /** Without the bail-out a cell passes by its median, and that by the count. */
  lemma PatientPasses(row: seq<Window>, limits: Limits)
    requires !limits.failFast
    ensures var n, count := |row|, CountGe(Monthlies(row), limits.target);
            Passes(CellOf(row, limits), limits.target) <==>
            if n == 0 then limits.target <= 0.0
            else count > n / 2 || (n % 2 == 0 && count == n / 2 && NearestReach(Monthlies(row), limits.target))
  {
    var cell := CellOf(row, limits);
    assert row[..|row|] == row;
    assert cell.reason == Finished && cell.windowsRun == |row|;
    if row != [] {
      MedianByCount(Monthlies(row), limits.target);
      if |row| % 2 == 0 {
        EvenMedianByCount(Monthlies(row), limits.target);
      }
    }
    hide Median, CountGe, NearestReach, CellOf;
  }

  /** Promotion read off the plays: at every slippage enough windows gain, on their ten thousand and per 730 bars,
      at least the target, and under fail-fast no window of any level has a drawdown beyond the limit. */
  lemma PromotionByPlays(e: Evaluation, limits: Limits)
    requires e.Valid()
    ensures Sweep(e.Table(), limits, 0, None, []).promote <==>
            forall level :: 0 <= level < |e.draws| ==>
              EnoughReach(e, level, limits.target) && (limits.failFast ==> !LevelBreaches(e, level, limits.maxDrawdown))
  {
    PromoteIsAllPass(e.Table(), limits, 0, None, []);
    forall level | 0 <= level < |e.draws|
      ensures Passes(CellOf(e.Table()[level], limits), limits.target) <==>
              EnoughReach(e, level, limits.target) && (limits.failFast ==> !LevelBreaches(e, level, limits.maxDrawdown))
    {
      LevelPasses(e, level, limits);
    }
    hide Passes, CellOf, Sweep, EnoughReach, LevelBreaches, PlayedWindow;
  }
}
