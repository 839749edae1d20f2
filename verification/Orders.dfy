/** What an order can get: limit fills inside the bar and never better than asked, and the ladders of
    allocation and limit offset that action bins stand for. */
module Orders {
  import opened Prelude
  import opened Engine

  ghost predicate Adverse(cfg: EnvConfig) { 0.0 <= cfg.bufferBps <= 10000.0 && 0.0 <= cfg.slippageBps <= 10000.0 }

  function LowOf(bar: Bar): real { if bar.high < bar.low then bar.high else bar.low }

  function HighOf(bar: Bar): real { if bar.high < bar.low then bar.low else bar.high }

  /** The prices around a positive target: the trigger lies on the favourable side, the fill on the other. */
  lemma AroundTarget(cfg: EnvConfig, target: real, isBuy: bool)
    requires Adverse(cfg) && 0.0 < target
    ensures isBuy ==> 0.0 <= Trigger(cfg, target, true) <= target <= Slipped(cfg, target, true)
    ensures !isBuy ==> Slipped(cfg, target, false) <= target <= Trigger(cfg, target, false)
  {
    var b, s := cfg.bufferBps / 10000.0, cfg.slippageBps / 10000.0;
    MulMono(1.0 - b, 1.0, target);
    MulMono(1.0, 1.0 + b, target);
    MulMono(1.0 - s, 1.0, target);
    MulMono(1.0, 1.0 + s, target);
    MulNonNeg(1.0 - b, target);
  }

  /** Exactly which orders fill, on the bar and in basis points. A buy needs the bar to go the buffer below the
      target, or to zero, and to reach up to the target raised by the slippage, at which it fills; a sell the
      mirror image. */
  lemma FillsExactly(cfg: EnvConfig, bar: Bar, target: real)
    ensures LimitFill(cfg, bar, target, true).Some? <==>
            && (LowOf(bar) <= 0.0 || 10000.0 * LowOf(bar) <= target * (10000.0 - cfg.bufferBps))
            && target * (10000.0 + cfg.slippageBps) <= 10000.0 * HighOf(bar)
    ensures LimitFill(cfg, bar, target, true).Some? ==>
            10000.0 * LimitFill(cfg, bar, target, true).value == target * (10000.0 + cfg.slippageBps)
    ensures LimitFill(cfg, bar, target, false).Some? <==>
            && target * (10000.0 + cfg.bufferBps) <= 10000.0 * HighOf(bar)
            && 10000.0 * LowOf(bar) <= target * (10000.0 - cfg.slippageBps)
    ensures LimitFill(cfg, bar, target, false).Some? ==>
            10000.0 * LimitFill(cfg, bar, target, false).value == target * (10000.0 - cfg.slippageBps)
  {
    hide Trigger, Slipped;
    PricesInBasisPoints(cfg, target);
  }

  lemma PricesInBasisPoints(cfg: EnvConfig, target: real)
    ensures var buy := target * (10000.0 - cfg.bufferBps);
            10000.0 * Trigger(cfg, target, true) == if buy <= 0.0 then 0.0 else buy
    ensures 10000.0 * Trigger(cfg, target, false) == target * (10000.0 + cfg.bufferBps)
    ensures 10000.0 * Slipped(cfg, target, true) == target * (10000.0 + cfg.slippageBps)
    ensures 10000.0 * Slipped(cfg, target, false) == target * (10000.0 - cfg.slippageBps)
  {
    InBasisPoints(target, cfg.bufferBps);
    InBasisPoints(target, cfg.slippageBps);
    var x := target * (1.0 - cfg.bufferBps / 10000.0);
    assert Trigger(cfg, target, true) == MaxReal(0.0, x);
    assert x <= 0.0 <==> 10000.0 * x <= 0.0;
  }

  lemma InBasisPoints(x: real, bps: real)
    ensures 10000.0 * (x * (1.0 + bps / 10000.0)) == x * (10000.0 + bps)
    ensures 10000.0 * (x * (1.0 - bps / 10000.0)) == x * (10000.0 - bps)
  {
    var b := bps / 10000.0;
    assert bps == 10000.0 * b;
    assert 10000.0 * (x * b) == x * (10000.0 * b);
  }

  /** Under a positive buffer, a bar that only touches a positive target fills no order at it. */
  lemma TouchIsNoFill(cfg: EnvConfig, bar: Bar, target: real)
    requires 0.0 < target && 0.0 < cfg.bufferBps
    ensures LowOf(bar) == target ==> LimitFill(cfg, bar, target, true).None?
    ensures HighOf(bar) == target ==> LimitFill(cfg, bar, target, false).None?
  {
    FillsExactly(cfg, bar, target);
    MulPositive(target, cfg.bufferBps);
    assert target * (10000.0 - cfg.bufferBps) == 10000.0 * target - target * cfg.bufferBps;
    assert target * (10000.0 + cfg.bufferBps) == 10000.0 * target + target * cfg.bufferBps;
  }

  /** At five basis points of buffer and ten of slippage a dip of two below the limit is not enough for a buy;
      without the buffer it fills ten above. */
  lemma ShallowDip(cfg: EnvConfig)
    requires cfg.slippageBps == 10.0
    ensures var bar := Bar(100.0, 101.0, 99.98, 100.0, 1.0);
            && (cfg.bufferBps == 5.0 ==> LimitFill(cfg, bar, 100.0, true) == None)
            && (cfg.bufferBps == 0.0 ==> LimitFill(cfg, bar, 100.0, true) == Some(100.1))
  {
    FillsExactly(cfg, Bar(100.0, 101.0, 99.98, 100.0, 1.0), 100.0);
  }

  lemma MulPositive(x: real, y: real)
    requires 0.0 < x && 0.0 < y
    ensures 0.0 < x * y
  {
  }

  /** A fill lies inside the bar and is never better than the limit. */
  lemma FillIsInsideTheBar(cfg: EnvConfig, bar: Bar, target: real, isBuy: bool)
    requires Adverse(cfg) && 0.0 < target && LimitFill(cfg, bar, target, isBuy).Some?
    ensures var fill := LimitFill(cfg, bar, target, isBuy).value;
            && LowOf(bar) <= fill <= HighOf(bar)
            && (if isBuy then target <= fill else fill <= target)
  {
    AroundTarget(cfg, target, isBuy);
    hide Trigger, Slipped;
  }

  /** A stricter buffer or a larger slippage fills no order that the milder ones would not. */
  lemma StricterFillsLess(mild: EnvConfig, strict: EnvConfig, bar: Bar, target: real, isBuy: bool)
    requires Adverse(mild) && Adverse(strict) && 0.0 < target
    requires mild.bufferBps <= strict.bufferBps && mild.slippageBps <= strict.slippageBps
    requires LimitFill(strict, bar, target, isBuy).Some?
    ensures LimitFill(mild, bar, target, isBuy).Some?
    ensures var a, b := LimitFill(mild, bar, target, isBuy).value, LimitFill(strict, bar, target, isBuy).value;
            if isBuy then a <= b else b <= a
  {
    StricterTrigger(mild, strict, target);
    StricterSlip(mild, strict, target);
    hide Trigger, Slipped;
  }

  lemma StricterTrigger(mild: EnvConfig, strict: EnvConfig, target: real)
    requires 0.0 < target && mild.bufferBps <= strict.bufferBps
    ensures Trigger(strict, target, true) <= Trigger(mild, target, true)
    ensures Trigger(mild, target, false) <= Trigger(strict, target, false)
  {
    var b, c := mild.bufferBps / 10000.0, strict.bufferBps / 10000.0;
    MulMono(1.0 - c, 1.0 - b, target);
    MulMono(1.0 + b, 1.0 + c, target);
  }

  lemma StricterSlip(mild: EnvConfig, strict: EnvConfig, target: real)
    requires 0.0 < target && mild.slippageBps <= strict.slippageBps
    ensures Slipped(mild, target, true) <= Slipped(strict, target, true)
    ensures Slipped(strict, target, false) <= Slipped(mild, target, false)
  {
    var s, t := mild.slippageBps / 10000.0, strict.slippageBps / 10000.0;
    MulMono(1.0 + s, 1.0 + t, target);
    MulMono(1.0 - t, 1.0 - s, target);
  }

  /** Allocation bins climb to the whole of the cash. */
  lemma AllocationLadder(cfg: EnvConfig, i: nat, j: nat)
    requires i <= j < AllocBins(cfg)
    ensures AllocationPct(cfg, i) <= AllocationPct(cfg, j) <= AllocationPct(cfg, AllocBins(cfg) - 1) == 1.0
  {
    if 1 < cfg.allocationBins {
      var n := cfg.allocationBins as real;
      DivMono((i + 1) as real, (j + 1) as real, n);
      DivMono((j + 1) as real, n, n);
      assert n / n == 1.0;
    }
  }

  /** The offset a fraction of the way from the largest discount to the largest premium. */
  function Ramp(x: real, top: real): real { (2.0 * x - 1.0) * top }

  lemma RampRises(x: real, y: real, top: real)
    requires 0.0 <= x <= y <= 1.0 && 0.0 < top
    ensures -top <= Ramp(x, top) <= Ramp(y, top) <= top
  {
    MulMono(2.0 * x - 1.0, 2.0 * y - 1.0, top);
    MulMono(-1.0, 2.0 * x - 1.0, top);
    MulMono(2.0 * y - 1.0, 1.0, top);
  }

  lemma RampEnds(x: real, top: real)
    ensures Ramp(0.0, top) == -top && Ramp(1.0, top) == top && Ramp(1.0 - x, top) == -Ramp(x, top)
  {
    assert 2.0 * (1.0 - x) - 1.0 == -(2.0 * x - 1.0);
  }

  lemma FractionOrder(x: real, y: real, n: real)
    requires 0.0 <= x <= y <= n && 0.0 < n
    ensures 0.0 <= x / n <= y / n <= 1.0 && 0.0 / n == 0.0 && n / n == 1.0
  {
    DivMono(0.0, x, n);
    DivMono(x, y, n);
    DivMono(y, n, n);
  }

  lemma FractionMirror(x: real, n: real)
    requires 0.0 < n
    ensures (n - x) / n == 1.0 - x / n
  {
    var q, r := (n - x) / n, x / n;
    assert q * n == n - x && r * n == x;
    assert (1.0 - r) * n == n - x;
    Cancel(q, 1.0 - r, n);
  }

  lemma LevelIsRamp(cfg: EnvConfig, i: nat)
    requires 1 < cfg.levelBins && 0.0 < cfg.maxOffsetBps && i < cfg.levelBins
    ensures LevelOffsetBps(cfg, i) == Ramp(i as real / (cfg.levelBins - 1) as real, cfg.maxOffsetBps)
  {
  }

  /** Each bin is one of as many equal parts of the cash, but at least a hundredth of it. */
  lemma AllocationIsEven(cfg: EnvConfig, i: nat)
    requires i < AllocBins(cfg)
    ensures AllocBins(cfg) <= 100 * (i + 1) ==> AllocationPct(cfg, i) * AllocBins(cfg) as real == (i + 1) as real
    ensures AllocBins(cfg) >= 100 * (i + 1) ==> AllocationPct(cfg, i) * 100.0 == 1.0
  {
    var n, k := AllocBins(cfg) as real, (i + 1) as real;
    PartOfWhole(k, n);
    assert AllocationPct(cfg, i) == if k / n < 0.01 then 0.01 else k / n;
  }

  lemma PartOfWhole(k: real, n: real)
    requires 0.0 < k <= n
    ensures k / n * n == k && k / n <= 1.0 && (k / n < 0.01 <==> 100.0 * k < n)
    ensures 100.0 * k == n ==> k / n == 0.01
  {
    var q := k / n;
    assert q * n == k;
    DivMono(k, n, n);
    QuotientAtLeast(k, n, 0.01);
    if 100.0 * k == n {
      Cancel(q, 0.01, n);
    }
  }

  /** Level bins are evenly spaced. */
  lemma LevelsAreEven(cfg: EnvConfig, i: nat)
    requires 1 < cfg.levelBins && 0.0 < cfg.maxOffsetBps && i < cfg.levelBins
    ensures LevelOffsetBps(cfg, i) * (cfg.levelBins - 1) as real
         == (2.0 * i as real - (cfg.levelBins - 1) as real) * cfg.maxOffsetBps
  {
    LevelIsRamp(cfg, i);
    var n := (cfg.levelBins - 1) as real;
    var x := i as real / n;
    assert x * n == i as real;
    RampTimes(x, cfg.maxOffsetBps, n);
    hide LevelOffsetBps;
  }

  lemma RampTimes(x: real, top: real, n: real)
    ensures Ramp(x, top) * n == (2.0 * (x * n) - n) * top
  {
    assert (2.0 * x - 1.0) * n == 2.0 * (x * n) - n;
    assert ((2.0 * x - 1.0) * top) * n == ((2.0 * x - 1.0) * n) * top;
  }

  /** Level bins run evenly from the largest discount to the largest premium, mirrored about zero. */
  lemma LevelLadder(cfg: EnvConfig, i: nat, j: nat)
    requires 1 < cfg.levelBins && 0.0 < cfg.maxOffsetBps && i <= j < cfg.levelBins
    ensures LevelOffsetBps(cfg, 0) == -cfg.maxOffsetBps && LevelOffsetBps(cfg, cfg.levelBins - 1) == cfg.maxOffsetBps
    ensures -cfg.maxOffsetBps <= LevelOffsetBps(cfg, i) <= LevelOffsetBps(cfg, j) <= cfg.maxOffsetBps
    ensures LevelOffsetBps(cfg, cfg.levelBins - 1 - i) == -LevelOffsetBps(cfg, i)
  {
    var n: nat := cfg.levelBins - 1;
    FractionOrder(i as real, j as real, n as real);
    FractionMirror(i as real, n as real);
    assert (n - i) as real == n as real - i as real;
    RampRises(i as real / n as real, j as real / n as real, cfg.maxOffsetBps);
    RampEnds(i as real / n as real, cfg.maxOffsetBps);
    LevelIsRamp(cfg, 0);
    LevelIsRamp(cfg, i);
    LevelIsRamp(cfg, j);
    LevelIsRamp(cfg, n - i);
    LevelIsRamp(cfg, n);
    hide Ramp, LevelOffsetBps;
  }

  // ---------------------------------------------------------------- the terms of an open

  /** Where an order's limit lies: a positive level is above the open, for buys and sells alike. */
  lemma LimitOfLevel(bar: Bar, level: real)
    ensures 10000.0 * LimitPrice(bar, level) == bar.open * (10000.0 + level)
  {
    InBasisPoints(bar.open, level);
  }

  /** What an open leaves behind: the price moved by level and slippage, an outlay of the levered share of the
      cash with the fee on top of the price, and for a short the proceeds with the fee taken off. */
  lemma OpenTerms(cfg: EnvConfig, row: seq<Bar>, a: Agent, o: Order)
    requires WellFormed(a, |row|) && a.pos < 0 && o.Enter? && o.sym < |row|
    requires Open(cfg, row, a, o) != a
    ensures var b, bar := Open(cfg, row, a, o), row[o.sym];
            var level, share := LevelOffsetBps(cfg, o.levelIdx), AllocationPct(cfg, o.allocIdx);
            var slip := if o.isShort then -cfg.slippageBps else cfg.slippageBps;
            && b.pos == TargetPos(o, |row|) && b.hold == 0
            && 100000000.0 * b.entry == bar.open * (10000.0 + level) * (10000.0 + slip)
            && b.qty * (b.entry * (1.0 + cfg.feeRate)) == a.cash * cfg.maxLeverage * share
            && b.cash == a.cash + (if o.isShort then b.qty * b.entry * (1.0 - cfg.feeRate)
                                   else -(a.cash * cfg.maxLeverage * share))
            && b == a.(cash := b.cash, pos := b.pos, qty := b.qty, entry := b.entry, hold := 0)
  {
    hide AllocationPct, LevelOffsetBps, OrderSize;
    var level, share := LevelOffsetBps(cfg, o.levelIdx), AllocationPct(cfg, o.allocIdx);
    var size := OrderSize(cfg, row[o.sym], a.cash, share, level, !o.isShort);
    assert size.Some?;
    SizeTerms(cfg, row[o.sym], a.cash, share, level, !o.isShort);
  }

  lemma SizeTerms(cfg: EnvConfig, bar: Bar, cash: real, share: real, level: real, isBuy: bool)
    requires share <= 1.0 && OrderSize(cfg, bar, cash, share, level, isBuy).Some?
    ensures var (fill, qty) := OrderSize(cfg, bar, cash, share, level, isBuy).value;
            && 100000000.0 * fill == bar.open * (10000.0 + level) * (10000.0 + if isBuy then cfg.slippageBps else -cfg.slippageBps)
            && qty * (fill * (1.0 + cfg.feeRate)) == cash * cfg.maxLeverage * share
  {
    hide LimitFill, LimitPrice;
    var target := LimitPrice(bar, level);
    var (fill, qty) := OrderSize(cfg, bar, cash, share, level, isBuy).value;
    LimitOfLevel(bar, level);
    FillsExactly(cfg, bar, target);
    QuotientBack(Budget(cfg, cash, share), UnitCost(cfg, fill));
    InSteps(fill, target, bar.open * (10000.0 + level), 10000.0 + if isBuy then cfg.slippageBps else -cfg.slippageBps);
  }

  lemma InSteps(fill: real, target: real, x: real, slip: real)
    requires 10000.0 * fill == target * slip && 10000.0 * target == x
    ensures 100000000.0 * fill == x * slip
  {
    assert 100000000.0 * fill == 10000.0 * (target * slip) == (10000.0 * target) * slip;
  }

  lemma QuotientBack(x: real, y: real)
    requires 0.0 < y
    ensures x / y * y == x
  {
  }

  /** Exactly when an order opens, with positive leverage and a fee and slippage that leave prices positive: cash
      and limit are positive and the limit fills. */
  lemma OpensExactly(cfg: EnvConfig, row: seq<Bar>, a: Agent, o: Order)
    requires WellFormed(a, |row|) && a.pos < 0 && o.Enter? && o.sym < |row|
    requires 0.0 < cfg.maxLeverage && -1.0 < cfg.feeRate && -10000.0 < cfg.slippageBps < 10000.0
    ensures var limit := LimitPrice(row[o.sym], LevelOffsetBps(cfg, o.levelIdx));
            Open(cfg, row, a, o).pos == TargetPos(o, |row|) <==>
            && 0.0 < row[o.sym].open && 0.0 < a.cash && 0.0 < limit
            && LimitFill(cfg, row[o.sym], limit, !o.isShort).Some?
  {
    hide LimitPrice, LimitFill, AllocationPct, LevelOffsetBps, OrderSize;
    var bar, level, share := row[o.sym], LevelOffsetBps(cfg, o.levelIdx), AllocationPct(cfg, o.allocIdx);
    SizeIsSome(cfg, bar, a.cash, share, level, !o.isShort);
    var size := OrderSize(cfg, bar, a.cash, share, level, !o.isShort);
    if size.Some? {
      assert 0.0 < EntryCost(cfg, size.value.1, size.value.0) by {
        MulPositive(size.value.1, UnitCost(cfg, size.value.0));
      }
    }
  }

  lemma SizeIsSome(cfg: EnvConfig, bar: Bar, cash: real, share: real, level: real, isBuy: bool)
    requires 0.0 < share <= 1.0
    requires 0.0 < cfg.maxLeverage && -1.0 < cfg.feeRate && -10000.0 < cfg.slippageBps < 10000.0
    ensures var size, limit := OrderSize(cfg, bar, cash, share, level, isBuy), LimitPrice(bar, level);
            && (size.Some? <==> 0.0 < bar.open && 0.0 < cash && 0.0 < limit && LimitFill(cfg, bar, limit, isBuy).Some?)
            && (size.Some? ==> 0.0 < UnitCost(cfg, size.value.0) && 0.0 < size.value.1)
  {
    hide LimitPrice, LimitFill;
    var limit := LimitPrice(bar, level);
    if 0.0 < limit && LimitFill(cfg, bar, limit, isBuy).Some? {
      FillIsPositive(cfg, bar, limit, isBuy);
      if 0.0 < cash {
        BudgetIsPositive(cash, cfg.maxLeverage, share, LimitFill(cfg, bar, limit, isBuy).value, 1.0 + cfg.feeRate);
      }
    }
  }

  lemma FillIsPositive(cfg: EnvConfig, bar: Bar, limit: real, isBuy: bool)
    requires 0.0 < limit && -10000.0 < cfg.slippageBps < 10000.0 && LimitFill(cfg, bar, limit, isBuy).Some?
    ensures 0.0 < LimitFill(cfg, bar, limit, isBuy).value
  {
    hide LimitFill;
    FillsExactly(cfg, bar, limit);
    var raised, lowered := 10000.0 + cfg.slippageBps, 10000.0 - cfg.slippageBps;
    MulPositive(limit, raised);
    MulPositive(limit, lowered);
    var fill := LimitFill(cfg, bar, limit, isBuy).value;
    assert 10000.0 * fill == limit * (if isBuy then raised else lowered);
  }

  lemma BudgetIsPositive(cash: real, leverage: real, share: real, fill: real, unit: real)
    requires 0.0 < cash && 0.0 < leverage && 0.0 < share && 0.0 < fill && 0.0 < unit
    ensures 0.0 < cash * leverage * share && 0.0 < fill * unit
    ensures 0.0 < cash * leverage * share / (fill * unit)
  {
    MulPositive(cash, leverage);
    MulPositive(cash * leverage, share);
    MulPositive(fill, unit);
    DivPositive(cash * leverage * share, fill * unit);
  }

  lemma DivPositive(x: real, y: real)
    requires 0.0 < x && 0.0 < y
    ensures 0.0 < x / y
  {
  }

  // ---------------------------------------------------------------- the fill lottery

  /** Which 64-bit words fill at a probability below one: those whose upper 24 bits, as a number, are at most
      the probability times 2^24, that is all words below one bound. */
  lemma LotteryByWord(cfg: EnvConfig, word: nat)
    requires 0.0 <= cfg.fillProbability < 1.0
    ensures var bound := (cfg.fillProbability * 16777216.0).Floor + 1;
            FillLottery(cfg, word) <==> word < bound * 0x100_0000_0000
  {
    var x := word / 0x100_0000_0000;
    var p := cfg.fillProbability * 16777216.0;
    assert RandFloat(word) <= cfg.fillProbability <==> x as real <= p;
    assert x as real <= p <==> x <= p.Floor;
    assert word == x * 0x100_0000_0000 + word % 0x100_0000_0000;
  }

  /** At one or more every word fills, below zero none does. */
  lemma LotteryAtTheEnds(cfg: EnvConfig, word: nat)
    ensures 1.0 <= cfg.fillProbability ==> FillLottery(cfg, word)
    ensures cfg.fillProbability < 0.0 ==> !FillLottery(cfg, word)
  {
  }
}
