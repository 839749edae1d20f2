/** Evaluation windows: the offsets the gate generates, where an episode may stand in the data, when it
    ends, and when the window runner reads exactly one episode from the log. */
module Windows {
  import opened Prelude
  import opened Engine
  import opened Episode
  import opened Scenario
  import opened Accounting
  import E = TradingEnv

  // ---------------------------------------------------------------- random numbers in range

  lemma FastRandIntInRange(n: int, word: nat)
    requires 0 < n && word < TWO64
    ensures FastRandInt(n, word) < n
  {
    if 1 < n {
      var x := word / TWO32;
      assert x < TWO32;
      ProductBelow(x, n, TWO32);
    }
  }

  /** The draw is the word's upper half, as a fraction of 2^32, times the bound, rounded down; so every number below
      the bound is drawn by some word. */
  lemma FastRandIntIsScaled(n: nat, word: nat)
    requires 0 < n && word < TWO64
    ensures var k, x := FastRandInt(n, word), word / 0x1_0000_0000;
            k * 0x1_0000_0000 <= x * n < (k + 1) * 0x1_0000_0000
  {
    if n == 1 {
      assert word / TWO32 < TWO32;
    }
  }

  lemma EveryDrawHappens(n: nat, k: nat) returns (word: nat)
    requires k < n <= TWO32
    ensures word < TWO64 && FastRandInt(n, word) == k
  {
    var x := (k * TWO32 + n - 1) / n;
    CeilingTimes(k * TWO32, n);
    assert x < TWO32 by {
      assert k * TWO32 <= (n - 1) * TWO32;
      if TWO32 <= x {
        MulMonoNat(TWO32, x, n);
      }
    }
    word := x * TWO32;
    assert word / TWO32 == x;
    if 1 < n {
      QuotientIs(x * n, TWO32, k);
    }
  }

  lemma CeilingTimes(a: nat, n: nat)
    requires 0 < n
    ensures a <= (a + n - 1) / n * n < a + n
  {
    var b := a + n - 1;
    assert b == b / n * n + b % n;
  }

  lemma MulMonoNat(a: nat, b: nat, c: nat)
    requires a <= b
    ensures a * c <= b * c
  {
  }

  lemma QuotientIs(a: nat, n: nat, k: nat)
    requires 0 < n && k * n <= a < (k + 1) * n
    ensures a / n == k
  {
    var q := a / n;
    assert a == q * n + a % n;
    if q < k {
      MulMonoNat(q + 1, k, n);
    } else if k < q {
      MulMonoNat(k + 1, q, n);
    }
  }

  /** Where a reset goes: to the forced offset, or the last that fits when that is past it and there is one; else to
      any offset that fits, each reached by some word, and to the start when none does. */
  lemma ResetGoes(cfg: EnvConfig, md: MarketData, word: nat)
    requires word < TWO64
    ensures 0 <= cfg.forcedOffset <= MaxOffset(cfg, md) ==> ResetOffset(cfg, md, word) == cfg.forcedOffset
    ensures 0 <= cfg.forcedOffset && 0 <= MaxOffset(cfg, md) < cfg.forcedOffset ==>
              ResetOffset(cfg, md, word) == MaxOffset(cfg, md)
    ensures 0 <= cfg.forcedOffset && MaxOffset(cfg, md) < 0 ==> ResetOffset(cfg, md, word) == cfg.forcedOffset
    ensures cfg.forcedOffset < 0 && MaxOffset(cfg, md) <= 0 ==> ResetOffset(cfg, md, word) == 0
    ensures cfg.forcedOffset < 0 && 0 <= MaxOffset(cfg, md) ==> ResetOffset(cfg, md, word) <= MaxOffset(cfg, md)
  {
    if 0 <= MaxOffset(cfg, md) {
      ResetOffsetInRange(cfg, md, word);
    }
    hide FastRandInt;
  }

  lemma EveryOffsetIsReached(cfg: EnvConfig, md: MarketData, offset: nat) returns (word: nat)
    requires cfg.forcedOffset < 0 && offset <= md.T() - cfg.maxSteps - 1 < TWO32
    ensures word < TWO64 && ResetOffset(cfg, md, word) == offset
  {
    word := EveryDrawHappens(md.T() - cfg.maxSteps, offset);
    hide FastRandInt;
  }

  lemma ProductBelow(x: nat, n: nat, b: nat)
    requires x < b && 0 < n
    ensures (x * n) / b < n
  {
    assert x * n < b * n;
    QuotientBound(x * n, n, b);
  }

  lemma RandFloatInRange(word: nat)
    requires word < TWO64
    ensures 0.0 <= RandFloat(word) < 1.0
  {
    assert word / 0x100_0000_0000 < 16777216;
  }

  /** Every reset lands on an offset that leaves room for a whole episode, as long as the data has room
      for one at all. */
  lemma ResetOffsetInRange(cfg: EnvConfig, md: MarketData, word: nat)
    requires word < TWO64 && 0 <= MaxOffset(cfg, md)
    ensures ResetOffset(cfg, md, word) <= MaxOffset(cfg, md)
  {
    hide FastRandInt;
    if cfg.forcedOffset < 0 && 0 < MaxOffset(cfg, md) {
      FastRandIntInRange(MaxOffset(cfg, md) + 1, word);
    }
  }

  // ---------------------------------------------------------------- generated offsets

  /** Python's `int` of a float: truncation toward zero. */
  function Trunc(x: real): int { if 0.0 <= x then x.Floor else -((-x).Floor) }

  /** The range between two offsets, each rounded toward zero and kept inside the data; all of it when none is left. */
  function RangeBetween(maxOffset: int, from: real, to: real): (int, int) {
    var lo := Max(0, Trunc(from));
    var hi := Min(maxOffset, Trunc(to));
    if hi <= lo then (0, maxOffset) else (lo, hi)
  }

  function OffsetRange(maxOffset: int, loFrac: real, hiFrac: real): (int, int) {
    RangeBetween(maxOffset, Times(maxOffset as real, loFrac), Times(maxOffset as real, hiFrac))
  }

  /** The requested fractions of the last offset, each rounded down, where that leaves a range, and the whole of it
      where not. */
  lemma OffsetRangeIs(maxOffset: int, loFrac: real, hiFrac: real)
    requires 0 < maxOffset && 0.0 <= loFrac && 0.0 <= hiFrac <= 1.0
    ensures var lo, hi := Times(maxOffset as real, loFrac).Floor, Times(maxOffset as real, hiFrac).Floor;
            OffsetRange(maxOffset, loFrac, hiFrac) == if lo < hi then (lo, hi) else (0, maxOffset)
  {
    hide RangeBetween, Times;
    PartOfMost(maxOffset as real, loFrac, hiFrac);
    RangeOfFloors(maxOffset, Times(maxOffset as real, loFrac), Times(maxOffset as real, hiFrac));
  }

  lemma PartOfMost(most: real, x: real, y: real)
    requires 0.0 < most && 0.0 <= x && 0.0 <= y <= 1.0
    ensures 0.0 <= Times(most, x) && 0.0 <= Times(most, y) <= most
  {
    MulNonNeg(most, x);
    MulNonNeg(most, y);
    MulMono(y, 1.0, most);
  }

  lemma RangeOfFloors(maxOffset: int, x: real, y: real)
    requires 0.0 <= x && 0.0 <= y <= maxOffset as real
    ensures RangeBetween(maxOffset, x, y) == if x.Floor < y.Floor then (x.Floor, y.Floor) else (0, maxOffset)
  {
  }

  /** Rounding is toward zero. */
  lemma TruncIsTowardZero(x: real)
    ensures 0.0 <= x ==> Trunc(x) as real <= x < Trunc(x) as real + 1.0
    ensures x < 0.0 ==> Trunc(x) as real - 1.0 < x <= Trunc(x) as real
  {
  }

  lemma OffsetRangeInside(maxOffset: int, loFrac: real, hiFrac: real)
    requires 0 < maxOffset
    ensures var (lo, hi) := OffsetRange(maxOffset, loFrac, hiFrac); 0 <= lo < hi <= maxOffset
  {
  }

  /** Seeded offsets: `draws` is the generator's stream, reduced to the range by `randint`. Fails when
      a window does not fit strictly inside the data. */
  method GenerateOffsets(timesteps: int, n: nat, windowSteps: int, draws: seq<nat>, loFrac: real, hiFrac: real)
    returns (r: Result<seq<nat>>)
    requires n <= |draws|
    ensures r.Ok? <==> 0 < timesteps - windowSteps - 1
    ensures r.Ok? ==> |r.value| == n && forall i :: 0 <= i < n ==> r.value[i] <= timesteps - windowSteps - 1
    ensures r.Ok? ==> var (lo, hi) := OffsetRange(timesteps - windowSteps - 1, loFrac, hiFrac);
                      forall i :: 0 <= i < n ==> lo <= r.value[i] <= hi
    ensures r.Ok? ==> var (lo, hi) := OffsetRange(timesteps - windowSteps - 1, loFrac, hiFrac);
                      forall i :: 0 <= i < n && draws[i] <= hi - lo ==> r.value[i] == lo + draws[i]
  {
    var maxOffset := timesteps - windowSteps - 1;
    if maxOffset <= 0 {
      return Err("window_steps too large");
    }
    OffsetRangeInside(maxOffset, loFrac, hiFrac);
    hide OffsetRange;
    var (lo, hi) := OffsetRange(maxOffset, loFrac, hiFrac);
    var offsets: seq<nat> := [];
    for i := 0 to n
      invariant |offsets| == i
      invariant forall j :: 0 <= j < i ==> lo <= offsets[j] <= hi
      invariant forall j :: 0 <= j < i && draws[j] <= hi - lo ==> offsets[j] == lo + draws[j]
    {
      var offset: nat := lo + draws[i] % (hi - lo + 1);
      SmallRemainder(draws[i], hi - lo + 1);
      offsets := offsets + [offset];
    }
    return Ok(offsets);
  }

  lemma SmallRemainder(x: nat, n: nat)
    requires 0 < n
    ensures x % n < n && (x < n ==> x % n == x)
  {
  }

  /** An offset the gate generates is used as it is: reset never clamps it. */
  lemma GeneratedOffsetUnclamped(cfg: EnvConfig, md: MarketData, offset: nat, word: nat)
    requires cfg.forcedOffset == offset <= md.T() - cfg.maxSteps - 1
    ensures ResetOffset(cfg, md, word) == offset
  {
  }

  // ---------------------------------------------------------------- one episode

  /** The last step's reading, which decides the terminal flag. */
  function LastReading(cfg: EnvConfig, md: MarketData, policy: seq<real> -> int, words: seq<(nat, nat)>, word: nat,
                       k: nat)
    : (Agent, real)
    requires md.Valid() && 0 < k <= |words|
  {
    var s := Play(cfg, md, policy, words, word, k - 1);
    Settled(cfg, md, s, Input(policy(s.obs), words[k - 1].0, words[k - 1].1))
  }

  /** An episode ended early: the account fell below a hundredth of its start, or the drawdown rule fired. */
  predicate CutShort(cfg: EnvConfig, a: Agent, equity: real) { equity < BANKRUPT || EarlyExit(cfg, a, equity) }

  /** A step of an episode that fits in the data ends it exactly at the window length unless it is cut
      short, and until then every row it touches is the unclamped `offset + step`, inside the data. */
  lemma EpisodeLength(cfg: EnvConfig, md: MarketData, policy: seq<real> -> int, words: seq<(nat, nat)>, word: nat,
                      k: nat)
    requires md.Valid() && 0 < k <= |words| && word < TWO64
    requires 1 <= cfg.maxSteps && 0 <= MaxOffset(cfg, md)
    requires Unterminated(cfg, md, policy, words, word, k - 1)
    ensures k <= cfg.maxSteps
    ensures var (a, e) := LastReading(cfg, md, policy, words, word, k);
            && a.offset == ResetOffset(cfg, md, word) && a.step == k
            && a.offset + a.step < md.T() && Clock(md, a) == a.offset + a.step
            && (Play(cfg, md, policy, words, word, k).terminal <==> k == cfg.maxSteps || CutShort(cfg, a, e))
  {
    hide Settle, TradeNow, Step, Observe, EarlyExit, ResetOffset;
    ResetOffsetInRange(cfg, md, word);
    ClockOfPlay(cfg, md, policy, words, word, k - 1);
    if 1 < k {
      StillShort(cfg, md, policy, words, word, k - 1);
    }
    var s := Play(cfg, md, policy, words, word, k - 1);
    var i := Input(policy(s.obs), words[k - 1].0, words[k - 1].1);
    StepIsSettled(cfg, md, s, i);
    SettledTime(cfg, md, s, i);
  }

  lemma SettledTime(cfg: EnvConfig, md: MarketData, s: EnvState, i: Input)
    requires md.Valid() && WellFormed(s.agent, md.numSymbols)
    ensures var a := Settled(cfg, md, s, i).0; a.offset == s.agent.offset && a.step == s.agent.step + 1
  {
    TradeKeepsTime(cfg, md, s.agent, i.action, i.fillWord);
    hide TradeNow, BorrowFee, Equity;
  }

  lemma StillShort(cfg: EnvConfig, md: MarketData, policy: seq<real> -> int, words: seq<(nat, nat)>, word: nat, k: nat)
    requires md.Valid() && 0 < k <= |words| && Unterminated(cfg, md, policy, words, word, k)
    ensures k < cfg.maxSteps
  {
    hide Settle, TradeNow, Step, Observe, EarlyExit, ResetOffset;
    ClockOfPlay(cfg, md, policy, words, word, k);
    var s := Play(cfg, md, policy, words, word, k - 1);
    assert !Play(cfg, md, policy, words, word, k).terminal;
    StepIsSettled(cfg, md, s, Input(policy(s.obs), words[k - 1].0, words[k - 1].1));
  }

  /** The episode lasts `k` steps: it ends there and not before. */
  ghost predicate EndsAt(cfg: EnvConfig, md: MarketData, policy: seq<real> -> int, words: seq<(nat, nat)>, word: nat,
                         k: nat)
    requires md.Valid()
  {
    && 0 < k <= |words|
    && Unterminated(cfg, md, policy, words, word, k - 1)
    && Play(cfg, md, policy, words, word, k).terminal
  }

  lemma {:induction false} PlayLog(cfg: EnvConfig, md: MarketData, policy: seq<real> -> int, words: seq<(nat, nat)>,
                                   word: nat, k: nat)
    requires md.Valid() && k <= |words| && Unterminated(cfg, md, policy, words, word, k)
    ensures Play(cfg, md, policy, words, word, k).log == EMPTY_LOG
  {
    hide Step, Observe, ResetOffset;
    if 0 < k {
      PlayLog(cfg, md, policy, words, word, k - 1);
      var s := Play(cfg, md, policy, words, word, k - 1);
      assert !Play(cfg, md, policy, words, word, k).terminal;
      StepIsSettled(cfg, md, s, Input(policy(s.obs), words[k - 1].0, words[k - 1].1));
    }
  }

  lemma EndedLog(cfg: EnvConfig, md: MarketData, policy: seq<real> -> int, words: seq<(nat, nat)>, word: nat, k: nat)
    requires md.Valid() && EndsAt(cfg, md, policy, words, word, k)
    ensures Play(cfg, md, policy, words, word, k).log.n == 1
  {
    hide Step, Observe, ResetOffset, Settled, FinalClose;
    PlayLog(cfg, md, policy, words, word, k - 1);
    var s := Play(cfg, md, policy, words, word, k - 1);
    StepIsSettled(cfg, md, s, Input(policy(s.obs), words[k - 1].0, words[k - 1].1));
  }

  // ---------------------------------------------------------------- the window runner

  datatype WindowResult = WindowResult(
    offset: int,
    totalReturn: real,
    monthly: real,
    maxDrawdown: real,
    numTrades: real)

  function WindowOf(offset: int, windowSteps: int, log: Log): WindowResult
    requires windowSteps != 0
  {
    WindowResult(offset, log.totalReturn, log.totalReturn * (730.0 / windowSteps as real),
                 if log.maxDrawdown < 0.0 then -log.maxDrawdown else log.maxDrawdown, log.numTrades)
  }

  /** How many steps the runner's loop takes at most: a negative lag makes it shorter than the window. */
  function LoopBound(cfg: EnvConfig): nat { Max(0, cfg.maxSteps + cfg.decisionLag + 2) }

  /** The first episode ends within `n` steps. */
  ghost predicate EndsWithin(cfg: EnvConfig, md: MarketData, policy: seq<real> -> int, words: seq<(nat, nat)>,
                             word: nat, n: nat)
    requires md.Valid()
  {
    exists k: nat :: k <= n && EndsAt(cfg, md, policy, words, word, k)
  }

  /** Step `k` ends the episode by ruin, by the early-exit rule or at the end of the data. */
  ghost predicate CutAt(cfg: EnvConfig, md: MarketData, policy: seq<real> -> int, words: seq<(nat, nat)>, word: nat,
                        k: nat)
    requires md.Valid()
  {
    && 0 < k <= |words| && Unterminated(cfg, md, policy, words, word, k - 1)
    && var (a, e) := LastReading(cfg, md, policy, words, word, k);
       CutShort(cfg, a, e) || md.T() - 1 <= Clock(md, a)
  }

  /** Where the runner stops reading: at the end of the episode, or out of steps with the episode still going. */
  ghost predicate StopsAt(cfg: EnvConfig, md: MarketData, policy: seq<real> -> int, words: seq<(nat, nat)>, word: nat,
                          k: nat)
    requires md.Valid()
  {
    EndsAt(cfg, md, policy, words, word, k)
    || (k == LoopBound(cfg) <= |words| && Unterminated(cfg, md, policy, words, word, k))
  }

  lemma {:induction false} FirstEnd(cfg: EnvConfig, md: MarketData, policy: seq<real> -> int, words: seq<(nat, nat)>,
                                    word: nat, n: nat)
    requires md.Valid() && n <= |words| && !Unterminated(cfg, md, policy, words, word, n)
    ensures EndsWithin(cfg, md, policy, words, word, n)
  {
    hide Play;
    if n == 0 {
    } else if Unterminated(cfg, md, policy, words, word, n - 1) {
      assert EndsAt(cfg, md, policy, words, word, n);
    } else {
      FirstEnd(cfg, md, policy, words, word, n - 1);
    }
  }

  /** A step ends the episode at the window length or by a cut, and by nothing else. */
  lemma EndsByLengthOrCut(cfg: EnvConfig, md: MarketData, policy: seq<real> -> int, words: seq<(nat, nat)>, word: nat,
                          k: nat)
    requires md.Valid() && 0 < k <= |words| && Unterminated(cfg, md, policy, words, word, k - 1)
    ensures Play(cfg, md, policy, words, word, k).terminal <==>
            cfg.maxSteps <= k || CutAt(cfg, md, policy, words, word, k)
  {
    hide Settle, TradeNow, Step, Observe, EarlyExit, ResetOffset;
    ClockOfPlay(cfg, md, policy, words, word, k - 1);
    var s := Play(cfg, md, policy, words, word, k - 1);
    var i := Input(policy(s.obs), words[k - 1].0, words[k - 1].1);
    StepIsSettled(cfg, md, s, i);
    SettledTime(cfg, md, s, i);
  }

  /** The runner's loop reaches the end of the episode exactly when the lag is at least minus two, or the
      episode is cut within the steps it takes. */
  lemma LoopReachesTheEnd(cfg: EnvConfig, md: MarketData, policy: seq<real> -> int, words: seq<(nat, nat)>, word: nat)
    requires md.Valid() && 1 <= cfg.maxSteps && LoopBound(cfg) <= |words|
    ensures EndsWithin(cfg, md, policy, words, word, LoopBound(cfg)) <==>
            -2 <= cfg.decisionLag
            || exists k: nat :: k <= LoopBound(cfg) && CutAt(cfg, md, policy, words, word, k)
  {
    hide Play, CutAt;
    var bound := LoopBound(cfg);
    if -2 <= cfg.decisionLag && Unterminated(cfg, md, policy, words, word, bound) {
      StillShort(cfg, md, policy, words, word, bound);
    }
    if !Unterminated(cfg, md, policy, words, word, bound) {
      FirstEnd(cfg, md, policy, words, word, bound);
    }
    forall k: nat | k <= bound && EndsAt(cfg, md, policy, words, word, k)
      ensures cfg.maxSteps <= k || CutAt(cfg, md, policy, words, word, k)
    {
      EndsByLengthOrCut(cfg, md, policy, words, word, k);
    }
    forall k: nat | k <= bound && CutAt(cfg, md, policy, words, word, k)
      ensures EndsAt(cfg, md, policy, words, word, k)
    {
      CutIsEnd(cfg, md, policy, words, word, k);
    }
  }

  lemma CutIsEnd(cfg: EnvConfig, md: MarketData, policy: seq<real> -> int, words: seq<(nat, nat)>, word: nat, k: nat)
    requires md.Valid() && CutAt(cfg, md, policy, words, word, k)
    ensures EndsAt(cfg, md, policy, words, word, k)
  {
    hide Play, LastReading;
    EndsByLengthOrCut(cfg, md, policy, words, word, k);
  }

  /** What the runner finds in the log: one episode if it reached its end, nothing if it did not. */
  lemma StoppedLog(cfg: EnvConfig, md: MarketData, policy: seq<real> -> int, words: seq<(nat, nat)>, word: nat, k: nat)
    requires md.Valid() && k <= LoopBound(cfg) && StopsAt(cfg, md, policy, words, word, k)
    ensures k <= |words|
    ensures var log := Play(cfg, md, policy, words, word, k).log;
            if EndsWithin(cfg, md, policy, words, word, LoopBound(cfg)) then log.n == 1 else log == EMPTY_LOG
  {
    hide Play;
    if EndsAt(cfg, md, policy, words, word, k) {
      EndedLog(cfg, md, policy, words, word, k);
    } else {
      PlayLog(cfg, md, policy, words, word, k);
    }
  }

  /** The step at which the runner stops, from step `k` on. */
  function StopFrom(cfg: EnvConfig, md: MarketData, policy: seq<real> -> int, words: seq<(nat, nat)>, word: nat, k: nat)
    : (n: nat)
    requires md.Valid() && k <= LoopBound(cfg) <= |words|
    ensures k <= n <= LoopBound(cfg)
    decreases LoopBound(cfg) - k
  {
    if k == LoopBound(cfg) || Play(cfg, md, policy, words, word, k).terminal then k
    else StopFrom(cfg, md, policy, words, word, k + 1)
  }

  lemma {:induction false} StopIsStop(cfg: EnvConfig, md: MarketData, policy: seq<real> -> int, words: seq<(nat, nat)>,
                                      word: nat, k: nat)
    requires md.Valid() && k <= LoopBound(cfg) <= |words|
    requires if k == 0 then !Play(cfg, md, policy, words, word, 0).terminal
             else Unterminated(cfg, md, policy, words, word, k - 1)
    ensures StopsAt(cfg, md, policy, words, word, StopFrom(cfg, md, policy, words, word, k))
    decreases LoopBound(cfg) - k
  {
    hide Play;
    if k < LoopBound(cfg) && !Play(cfg, md, policy, words, word, k).terminal {
      assert Unterminated(cfg, md, policy, words, word, k);
      StopIsStop(cfg, md, policy, words, word, k + 1);
    }
  }

  /** The result of a window, played out. */
  function PlayedWindow(cfg: EnvConfig, md: MarketData, policy: seq<real> -> int, words: seq<(nat, nat)>, word: nat,
                        offset: int): WindowResult
    requires md.Valid() && cfg.maxSteps != 0 && LoopBound(cfg) <= |words|
  {
    WindowOf(offset, cfg.maxSteps,
             Play(cfg, md, policy, words, word, StopFrom(cfg, md, policy, words, word, 0)).log)
  }

  /** The numbers of the episode that ends at step `k`: its return on ten thousand, its drawdown, its trades with
      the final close. */
  predicate ReportsEpisode(cfg: EnvConfig, md: MarketData, policy: seq<real> -> int, words: seq<(nat, nat)>, word: nat,
                           k: nat, r: WindowResult)
    requires md.Valid() && 0 < k <= |words|
  {
    var a := LastReading(cfg, md, policy, words, word, k).0;
    var (closed, equity) := FinalClose(cfg, md.prices[Clock(md, a)], a);
    10000.0 * r.totalReturn == equity - 10000.0 && r.maxDrawdown == a.maxDrawdown && r.numTrades == closed.numTrades as real
  }

  predicate ReportsNothing(r: WindowResult) { r.totalReturn == 0.0 && r.maxDrawdown == 0.0 && r.numTrades == 0.0 }

  /** The log read where the loop stops holds the first episode and no other, or nothing. */
  ghost predicate ReadsOneEpisode(cfg: EnvConfig, md: MarketData, policy: seq<real> -> int, words: seq<(nat, nat)>,
                                  word: nat)
    requires md.Valid() && LoopBound(cfg) <= |words|
  {
    var n := StopFrom(cfg, md, policy, words, word, 0);
    var log := Play(cfg, md, policy, words, word, n).log;
    && StopsAt(cfg, md, policy, words, word, n)
    && if EndsWithin(cfg, md, policy, words, word, LoopBound(cfg)) then log.n == 1 else log == EMPTY_LOG
  }

  /** What a window reports. Its monthly return is the total one scaled to 730 bars; the total return, drawdown and
      trades are those of the first episode where that ends within the loop, at whatever step, and nothing where it
      does not. */
  lemma WindowReports(cfg: EnvConfig, md: MarketData, policy: seq<real> -> int, words: seq<(nat, nat)>, word: nat,
                      offset: int)
    requires md.Valid() && 1 <= cfg.maxSteps && LoopBound(cfg) <= |words|
    ensures var r := PlayedWindow(cfg, md, policy, words, word, offset);
            && r.offset == offset && r.monthly * cfg.maxSteps as real == 730.0 * r.totalReturn
            && (forall k: nat :: k <= LoopBound(cfg) && EndsAt(cfg, md, policy, words, word, k) ==>
                  ReportsEpisode(cfg, md, policy, words, word, k, r))
            && (!EndsWithin(cfg, md, policy, words, word, LoopBound(cfg)) ==> ReportsNothing(r))
            && ReadsOneEpisode(cfg, md, policy, words, word)
  {
    hide Play, ReportsEpisode;
    var n := StopFrom(cfg, md, policy, words, word, 0);
    assert !Play(cfg, md, policy, words, word, 0).terminal by { ResetIsOpen(cfg, md, word); FirstPlay(cfg, md, policy, words, word); }
    StopIsStop(cfg, md, policy, words, word, 0);
    StoppedLog(cfg, md, policy, words, word, n);
    var r := PlayedWindow(cfg, md, policy, words, word, offset);
    ScaledToMonth(r.totalReturn, cfg.maxSteps as real);
    forall k: nat | k <= LoopBound(cfg) && EndsAt(cfg, md, policy, words, word, k)
      ensures ReportsEpisode(cfg, md, policy, words, word, k, r)
    {
      OnlyOneEnd(cfg, md, policy, words, word, k, n);
      EndReports(cfg, md, policy, words, word, k, offset);
    }
  }

  lemma ScaledToMonth(x: real, steps: real)
    requires 0.0 < steps
    ensures x * (730.0 / steps) * steps == 730.0 * x
  {
    var m := 730.0 / steps;
    assert m * steps == 730.0;
    assert x * m * steps == x * (m * steps);
  }

  lemma FirstPlay(cfg: EnvConfig, md: MarketData, policy: seq<real> -> int, words: seq<(nat, nat)>, word: nat)
    requires md.Valid()
    ensures Play(cfg, md, policy, words, word, 0) == Reset(cfg, md, EMPTY_LOG, word)
  {
  }

  /** The runner stops at the end of the episode when it gets there. */
  lemma OnlyOneEnd(cfg: EnvConfig, md: MarketData, policy: seq<real> -> int, words: seq<(nat, nat)>, word: nat,
                   k: nat, n: nat)
    requires md.Valid() && k <= LoopBound(cfg) && EndsAt(cfg, md, policy, words, word, k)
    requires StopsAt(cfg, md, policy, words, word, n)
    ensures k == n
  {
    hide Play;
    if EndsAt(cfg, md, policy, words, word, n) {
      EndIsFirst(cfg, md, policy, words, word, k, n);
      EndIsFirst(cfg, md, policy, words, word, n, k);
    }
  }

  lemma EndIsFirst(cfg: EnvConfig, md: MarketData, policy: seq<real> -> int, words: seq<(nat, nat)>, word: nat,
                   k: nat, j: nat)
    requires md.Valid() && EndsAt(cfg, md, policy, words, word, k)
    requires 0 < j <= |words| && Play(cfg, md, policy, words, word, j).terminal
    ensures k <= j
  {
    hide Play;
  }

  lemma EndReports(cfg: EnvConfig, md: MarketData, policy: seq<real> -> int, words: seq<(nat, nat)>, word: nat, k: nat,
                   offset: int)
    requires md.Valid() && cfg.maxSteps != 0 && EndsAt(cfg, md, policy, words, word, k)
    ensures ReportsEpisode(cfg, md, policy, words, word, k,
                           WindowOf(offset, cfg.maxSteps, Play(cfg, md, policy, words, word, k).log))
  {
    hide Step, Observe, Settle, TradeNow, Done, FinalClose, AddEpisode;
    PlayLog(cfg, md, policy, words, word, k - 1);
    DrawdownIsNotNegative(cfg, md, policy, words, word, k);
    var s := Play(cfg, md, policy, words, word, k - 1);
    StepIsSettled(cfg, md, s, Input(policy(s.obs), words[k - 1].0, words[k - 1].1));
    var a := LastReading(cfg, md, policy, words, word, k).0;
    FinalCounts(cfg, md.prices[Clock(md, a)], a);
    var (closed, equity) := FinalClose(cfg, md.prices[Clock(md, a)], a);
    AddedUp(closed, equity);
  }

  lemma {:induction false} DrawdownIsNotNegative(cfg: EnvConfig, md: MarketData, policy: seq<real> -> int,
                                                 words: seq<(nat, nat)>, word: nat, k: nat)
    requires md.Valid() && 0 < k <= |words| && Unterminated(cfg, md, policy, words, word, k - 1)
    ensures 0.0 <= LastReading(cfg, md, policy, words, word, k).0.maxDrawdown
  {
    hide Step, Observe, TradeNow, BorrowFee, Equity;
    var s := Play(cfg, md, policy, words, word, k - 1);
    if 1 < k {
      DrawdownIsNotNegative(cfg, md, policy, words, word, k - 1);
      assert !Play(cfg, md, policy, words, word, k - 1).terminal;
      var x := Play(cfg, md, policy, words, word, k - 2);
      StepIsSettled(cfg, md, x, Input(policy(x.obs), words[k - 2].0, words[k - 2].1));
    }
    TradeKeepsTime(cfg, md, s.agent, policy(s.obs), words[k - 1].0);
  }

  /** Plays one window and reads its metrics from the log: that of the first episode and of no other if the
      loop reaches its end, and an empty one if not, whatever the policy and the draws, and whether or not the
      offset is clamped. */
  method RunWindow(cfg: EnvConfig, md: MarketData, policy: seq<real> -> int, words: seq<(nat, nat)>, word: nat,
                   offset: nat)
    returns (r: WindowResult)
    requires md.Valid()
    requires 1 <= cfg.maxSteps && cfg.forcedOffset == offset
    requires LoopBound(cfg) <= |words|
    ensures r == PlayedWindow(cfg, md, policy, words, word, offset)
    ensures r.offset == offset && r.monthly * cfg.maxSteps as real == 730.0 * r.totalReturn
    ensures forall k: nat :: k <= LoopBound(cfg) && EndsAt(cfg, md, policy, words, word, k) ==>
              ReportsEpisode(cfg, md, policy, words, word, k, r)
    ensures !EndsWithin(cfg, md, policy, words, word, LoopBound(cfg)) ==> ReportsNothing(r)
    ensures ReadsOneEpisode(cfg, md, policy, words, word)
  {
    hide Step, Reset, Observe, ResetOffset, ResetAgent, EndsWithin, ReportsEpisode, EndsAt, ReadsOneEpisode;
    var env := new E.TradingEnv(cfg, md, word);
    var bound := LoopBound(cfg);
    var i := 0;
    assert !Play(cfg, md, policy, words, word, 0).terminal by { ResetIsOpen(cfg, md, word); }
    while i < bound && !env.terminal
      invariant 0 <= i <= bound && env.Valid() && env.cfg == cfg && env.md == md
      invariant fresh(env) && fresh(env.observations)
      invariant env.State() == Play(cfg, md, policy, words, word, i)
      invariant StopFrom(cfg, md, policy, words, word, i) == StopFrom(cfg, md, policy, words, word, 0)
      decreases bound - i
    {
      env.CStep(Input(policy(env.observations[..]), words[i].0, words[i].1));
      i := i + 1;
    }
    var log := env.log;
    var maxDd := if log.maxDrawdown < 0.0 then -log.maxDrawdown else log.maxDrawdown;
    r := WindowResult(offset, log.totalReturn, log.totalReturn * (730.0 / cfg.maxSteps as real), maxDd, log.numTrades);
    WindowReports(cfg, md, policy, words, word, offset);
  }

  lemma ResetIsOpen(cfg: EnvConfig, md: MarketData, word: nat)
    requires md.Valid()
    ensures !Reset(cfg, md, EMPTY_LOG, word).terminal
  {
  }

  // ---------------------------------------------------------------- a window that reads nothing

  /** A window of ten bars in a market that stands still, with room to spare, and a policy that stays flat. */
  function Lagging(lag: int): EnvConfig { Plain(10).(decisionLag := lag) }

  function Motionless(): MarketData { OneSymbol(seq(12, _ => 100.0)) }

  function AlwaysFlat(): seq<real> -> int { (obs: seq<real>) => 0 }

  function NineDraws(): seq<(nat, nat)> { seq(9, _ => (0, 0)) }

  lemma MotionlessIsValid()
    ensures Motionless().Valid() && Motionless().T() == 12 && Motionless().numSymbols == 1
    ensures forall t :: 0 <= t < 12 ==> Motionless().prices[t] == [FlatBar(100.0)]
  {
    OneSymbolIsValid(seq(12, _ => 100.0));
  }

  function FlatAt(k: nat): Agent { Agent(INITIAL_CASH, -1, 0.0, 0.0, 0, INITIAL_CASH, INITIAL_CASH, 0, 0, 0.0, 0, k) }

  lemma FlatBarPasses(lag: int, k: nat)
    requires k < 9
    ensures Motionless().Valid()
    ensures var cfg, md := Lagging(lag), Motionless();
            && TradeNow(cfg, md, FlatAt(k), 0, 0).agent == FlatAt(k)
            && Settle(cfg, md, FlatAt(k)) == (FlatAt(k + 1), INITIAL_CASH)
            && !Done(cfg, md, FlatAt(k + 1), INITIAL_CASH)
  {
    MotionlessIsValid();
  }

  lemma {:induction false} FlatRunGoesOn(lag: int, k: nat)
    requires k <= 9
    ensures Motionless().Valid()
    ensures Play(Lagging(lag), Motionless(), AlwaysFlat(), NineDraws(), 0, k).agent == FlatAt(k)
    ensures !Play(Lagging(lag), Motionless(), AlwaysFlat(), NineDraws(), 0, k).terminal
  {
    hide TradeNow, Settle, Done, Observe, Step;
    MotionlessIsValid();
    var cfg, md := Lagging(lag), Motionless();
    if k > 0 {
      FlatRunGoesOn(lag, k - 1);
      FlatBarPasses(lag, k - 1);
      var s := Play(cfg, md, AlwaysFlat(), NineDraws(), 0, k - 1);
      assert AlwaysFlat()(s.obs) == 0;
      StepIsSettled(cfg, md, s, Input(0, 0, 0));
    }
  }

  /** At every lag of minus three or less the runner gives this policy up after nine steps or fewer of its
      ten, and reads an empty log. */
  lemma ShortLoopReadsNothing(lag: int)
    requires lag <= -3
    ensures Motionless().Valid()
    ensures var cfg, md, words := Lagging(lag), Motionless(), NineDraws();
            var n := LoopBound(cfg);
            && n <= 9 && StopsAt(cfg, md, AlwaysFlat(), words, 0, n)
            && !EndsWithin(cfg, md, AlwaysFlat(), words, 0, n)
            && Play(cfg, md, AlwaysFlat(), words, 0, n).log == EMPTY_LOG
  {
    hide Play;
    MotionlessIsValid();
    var cfg, md, words := Lagging(lag), Motionless(), NineDraws();
    var n := LoopBound(cfg);
    forall k: nat | k <= n
      ensures !Play(cfg, md, AlwaysFlat(), words, 0, k).terminal
    {
      FlatRunGoesOn(lag, k);
    }
    assert StopsAt(cfg, md, AlwaysFlat(), words, 0, n);
    StoppedLog(cfg, md, AlwaysFlat(), words, 0, n);
  }
}
