/** The one fill engine: market rows, the agent's account, limit fills, and the opening and closing
    of positions. Every function here looks at a single row of bars, so what a decision can depend
    on is visible in its arguments. */
module Engine {
  import opened Prelude

  const INITIAL_CASH := 10000.0

  /** Market data in row form: `features[t]` holds the S*F numbers of bar t, `prices[t][s]` the bar
      of symbol s, `tradable[t][s]` the optional open-market mask. */
  datatype MarketData = MarketData(
    numSymbols: nat,
    features: seq<seq<real>>,
    prices: seq<seq<Bar>>,
    tradable: Option<seq<seq<bool>>>)
  {
    function T(): nat { |prices| }

    ghost predicate Valid() {
      && 0 < numSymbols && 0 < T()
      && |features| == T()
      && (forall t :: 0 <= t < T() ==> |prices[t]| == numSymbols)
      && (forall t :: 0 <= t < T() ==> |features[t]| == |features[0]|)
      && (tradable.Some? ==>
            |tradable.value| == T()
            && forall t :: 0 <= t < T() ==> |tradable.value[t]| == numSymbols)
    }

    function MaskRow(t: nat): (m: Option<seq<bool>>)
      requires Valid() && t < T()
      ensures m.Some? ==> |m.value| == numSymbols
    {
      if tradable.None? then None else Some(tradable.value[t])
    }
  }

  datatype EnvConfig = EnvConfig(
    maxSteps: int,
    feeRate: real,
    maxLeverage: real,
    shortBorrowApr: real,
    periodsPerYear: real,
    maxHoldHours: int,
    earlyExit: bool,
    earlyExitMinSteps: int,
    earlyExitProgress: real,
    allocationBins: int,
    levelBins: int,
    maxOffsetBps: real,
    slippageBps: real,
    bufferBps: real,
    fillProbability: real,
    decisionLag: int,
    guardBps: real,
    guardOvernightBps: real,
    guardStaleAfter: int,
    forcedOffset: int)

  /** The agent's account. `pos` is -1 when flat, 0..S-1 for a long, S..2S-1 for a short. */
  datatype Agent = Agent(
    cash: real,
    pos: int,
    qty: real,
    entry: real,
    hold: int,
    peak: real,
    initial: real,
    numTrades: int,
    winning: int,
    maxDrawdown: real,
    offset: int,
    step: int)

  /** What the engine keeps of an account: a legal position code, shares exactly when a position is
      held, and non-negative counters. */
  ghost predicate WellFormed(a: Agent, s: nat) {
    && 0 < s
    && -1 <= a.pos < 2 * s
    && (a.pos < 0 ==> a.qty == 0.0)
    && (0 <= a.pos ==> 0.0 < a.qty)
    && 0 <= a.hold && 0 <= a.offset && 0 <= a.step
    && a.initial == INITIAL_CASH
  }

  /** The symbol of a position code. */
  function SymOf(pos: nat, s: nat): (r: nat)
    requires pos < 2 * s
    ensures r < s
  {
    if pos < s then pos else pos - s
  }

  /** It is the code modulo the number of symbols. */
  lemma SymOfIsModulo(pos: nat, s: nat)
    requires pos < 2 * s
    ensures SymOf(pos, s) == pos % s
  {
    if s <= pos {
      var q := pos / s;
      assert q * s + pos % s == pos;
      assert q == 1;
    }
  }

  predicate Tradable(mask: Option<seq<bool>>, sym: nat)
    requires mask.Some? ==> sym < |mask.value|
  {
    mask.None? || mask.value[sym]
  }

  // ---------------------------------------------------------------- valuation

  function Equity(row: seq<Bar>, a: Agent): real
    requires WellFormed(a, |row|)
  {
    if a.pos < 0 then a.cash
    else
      var price := row[SymOf(a.pos, |row|)].close;
      if |row| <= a.pos then a.cash - a.qty * price else a.cash + a.qty * price
  }

  function BorrowFee(cfg: EnvConfig, row: seq<Bar>, a: Agent): real
    requires WellFormed(a, |row|)
  {
    if cfg.shortBorrowApr <= 0.0 || a.qty <= 0.0 then 0.0
    else
      var ppy := if cfg.periodsPerYear <= 0.0 then 8760.0 else cfg.periodsPerYear;
      var price := row[SymOf(a.pos, |row|)].close;
      if price <= 0.0 then 0.0
      else if |row| <= a.pos then a.qty * price * cfg.shortBorrowApr / ppy
      else if 1.0 < cfg.maxLeverage then
        var borrowed := a.qty * price * (1.0 - 1.0 / cfg.maxLeverage);
        if borrowed <= 0.0 then 0.0 else borrowed * cfg.shortBorrowApr / ppy
      else 0.0
  }

  // ---------------------------------------------------------------- execution

  predicate GuardRefuses(cfg: EnvConfig, sellPrice: real, entry: real, hold: int, isShort: bool) {
    && 0.0 < cfg.guardBps
    && !isShort
    && 0.0 < entry && 0.0 < sellPrice
    && var stale := if cfg.guardStaleAfter < 0 then 0 else cfg.guardStaleAfter;
       var tol := if stale <= hold then cfg.guardOvernightBps else cfg.guardBps;
       0.0 < tol && sellPrice < entry * (1.0 - tol / 10000.0)
  }

  function EffectiveExitFee(cfg: EnvConfig): real { cfg.feeRate + cfg.slippageBps / 10000.0 }

  /** What selling `qty` shares at `price` brings in after fee and slippage. */
  function SaleProceeds(cfg: EnvConfig, qty: real, price: real): real { qty * price * (1.0 - EffectiveExitFee(cfg)) }

  /** What buying back `qty` shares at `price` costs with fee and slippage. */
  function BuyBackCost(cfg: EnvConfig, qty: real, price: real): real { qty * price * (1.0 + EffectiveExitFee(cfg)) }

  /** Cash after selling a long, or buying back a short, at `price`. */
  function ExitCash(cfg: EnvConfig, cash: real, qty: real, price: real, isShort: bool): real {
    if isShort then cash - BuyBackCost(cfg, qty, price) else cash + SaleProceeds(cfg, qty, price)
  }

  /** What `qty` shares bought at `fill` cost with the fee. */
  function EntryCost(cfg: EnvConfig, qty: real, fill: real): real { qty * UnitCost(cfg, fill) }

  /** What `qty` shares sold short at `fill` bring in after the fee. */
  function ShortProceeds(cfg: EnvConfig, qty: real, fill: real): real { qty * fill * (1.0 - cfg.feeRate) }

  function Close(cfg: EnvConfig, row: seq<Bar>, a: Agent): (r: (Agent, bool))
    requires WellFormed(a, |row|)
    ensures WellFormed(r.0, |row|)
    ensures r.1 ==> 0 <= a.pos && r.0.pos == -1
    ensures !r.1 ==> r.0 == a.(hold := r.0.hold)
  {
    if a.pos < 0 then (a, false)
    else
      var price := row[SymOf(a.pos, |row|)].open;
      var isShort := |row| <= a.pos;
      if GuardRefuses(cfg, price, a.entry, a.hold, isShort) then (a.(hold := a.hold + 1), false)
      else
        var pnl := if isShort then a.entry - price else price - a.entry;
        (a.(cash := ExitCash(cfg, a.cash, a.qty, price, isShort), pos := -1, qty := 0.0, entry := 0.0, hold := 0,
            numTrades := a.numTrades + 1,
            winning := if 0.0 < pnl then a.winning + 1 else a.winning), true)
  }

  /** The price the bar must reach: `bufferBps` beyond the target, never below zero. */
  function Trigger(cfg: EnvConfig, target: real, isBuy: bool): real {
    var buffer := cfg.bufferBps / 10000.0;
    if isBuy then MaxReal(0.0, target * (1.0 - buffer)) else target * (1.0 + buffer)
  }

  /** The target moved against the trader by the slippage. */
  function Slipped(cfg: EnvConfig, target: real, isBuy: bool): real {
    var slippage := cfg.slippageBps / 10000.0;
    if isBuy then target * (1.0 + slippage) else target * (1.0 - slippage)
  }

  /** The binary limit fill: the bar must reach the buffered trigger, and the slipped price must
      still lie inside the bar. */
  function LimitFill(cfg: EnvConfig, bar: Bar, target: real, isBuy: bool): Option<real> {
    var low := if bar.high < bar.low then bar.high else bar.low;
    var high := if bar.high < bar.low then bar.low else bar.high;
    var trigger := Trigger(cfg, target, isBuy);
    var price := Slipped(cfg, target, isBuy);
    if isBuy then if trigger < low || high < price then None else Some(price)
    else if high < trigger || price < low then None else Some(price)
  }

  function AllocationPct(cfg: EnvConfig, idx: int): (r: real)
    ensures 0.0 < r <= 1.0
  {
    var bins := cfg.allocationBins;
    if bins <= 1 then 1.0
    else
      var i := if idx < 0 then 0 else if bins <= idx then bins - 1 else idx;
      var pct := (i + 1) as real / bins as real;
      if pct < 0.01 then 0.01 else if 1.0 < pct then 1.0 else pct
  }

  function LevelOffsetBps(cfg: EnvConfig, idx: int): real {
    var bins := cfg.levelBins;
    if bins <= 1 || cfg.maxOffsetBps <= 0.0 then 0.0
    else
      var i := if idx < 0 then 0 else if bins <= idx then bins - 1 else idx;
      (2.0 * (i as real / (bins - 1) as real) - 1.0) * cfg.maxOffsetBps
  }

  /** The limit price of an order placed `levelBps` away from the open. */
  function LimitPrice(bar: Bar, levelBps: real): real { bar.open * (1.0 + levelBps / 10000.0) }

  /** The levered slice of cash an order may spend. */
  function Budget(cfg: EnvConfig, cash: real, alloc: real): real {
    cash * cfg.maxLeverage * (if 1.0 < alloc then 1.0 else alloc)
  }

  /** The price of one share with the fee. */
  function UnitCost(cfg: EnvConfig, fill: real): real { fill * (1.0 + cfg.feeRate) }

  /** The shares an order buys or sells short with its slice of levered cash; `None` when the order
      does not fill or its slice is empty. */
  function OrderSize(cfg: EnvConfig, bar: Bar, cash: real, alloc: real, levelBps: real, isBuy: bool)
    : (r: Option<(real, real)>)
    ensures r.Some? ==> 0.0 < r.value.1
  {
    if bar.open <= 0.0 || cash <= 0.0 then None
    else
      var target := LimitPrice(bar, levelBps);
      if target <= 0.0 then None
      else
        var fill := LimitFill(cfg, bar, target, isBuy);
        if fill.None? || alloc <= 0.0 then None
        else
          var budget := Budget(cfg, cash, alloc);
          var unit := UnitCost(cfg, fill.value);
          if budget <= 0.0 || unit <= 0.0 then None
          else if budget / unit <= 0.0 then None
          else Some((fill.value, budget / unit))
  }

  function OpenLong(cfg: EnvConfig, row: seq<Bar>, a: Agent, sym: nat, alloc: real, levelBps: real)
    : (r: Agent)
    requires WellFormed(a, |row|) && sym < |row|
    ensures WellFormed(r, |row|)
  {
    var size := OrderSize(cfg, row[sym], a.cash, alloc, levelBps, true);
    if size.None? then a
    else
      var (fill, qty) := size.value;
      var cost := EntryCost(cfg, qty, fill);
      if cost <= 0.0 then a
      else a.(cash := a.cash - cost, pos := sym, qty := qty, entry := fill, hold := 0)
  }

  function OpenShort(cfg: EnvConfig, row: seq<Bar>, a: Agent, sym: nat, alloc: real, levelBps: real)
    : (r: Agent)
    requires WellFormed(a, |row|) && sym < |row|
    ensures WellFormed(r, |row|)
  {
    var size := OrderSize(cfg, row[sym], a.cash, alloc, levelBps, false);
    if size.None? then a
    else
      var (fill, qty) := size.value;
      a.(cash := a.cash + ShortProceeds(cfg, qty, fill),
         pos := |row| + sym, qty := qty, entry := fill, hold := 0)
  }

  // ---------------------------------------------------------------- actions

  datatype Order = GoFlat | Invalid | Enter(isShort: bool, sym: nat, allocIdx: nat, levelIdx: nat)

  function AllocBins(cfg: EnvConfig): (r: int) ensures r >= 1 { Max(1, cfg.allocationBins) }

  function LevelBins(cfg: EnvConfig): (r: int) ensures r >= 1 { Max(1, cfg.levelBins) }

  /** Action numbers per side: symbols times allocation bins times level bins. */
  function SideBlock(cfg: EnvConfig, s: nat): (r: nat) {
    assert 0 <= AllocBins(cfg) * LevelBins(cfg);
    assert 0 <= s * (AllocBins(cfg) * LevelBins(cfg));
    s * (AllocBins(cfg) * LevelBins(cfg))
  }

  /** Splits an index within one side into symbol, allocation bin and level bin. */
  function SplitIndex(idx: nat, s: nat, allocBins: nat, levelBins: nat): (r: (nat, nat, nat))
    requires 0 < allocBins && 0 < levelBins && idx < s * (allocBins * levelBins)
    ensures r.0 < s && r.1 < allocBins && r.2 < levelBins
  {
    var per := allocBins * levelBins;
    PerPositive(allocBins, levelBins);
    QuotientBound(idx, s, per);
    QuotientBound(idx % per, allocBins, levelBins);
    (idx / per, (idx % per) / levelBins, (idx % per) % levelBins)
  }

  function Decode(cfg: EnvConfig, s: nat, action: int): (o: Order)
    ensures o.Enter? ==> o.sym < s && o.allocIdx < AllocBins(cfg) && o.levelIdx < LevelBins(cfg)
    ensures o.Invalid? <==> action < 0 || 2 * SideBlock(cfg, s) < action
    ensures o.GoFlat? <==> action == 0
  {
    var side := SideBlock(cfg, s);
    if action == 0 then GoFlat
    else if 1 <= action <= 2 * side then
      var isShort := side <= action - 1;
      var (sym, alloc, level) :=
        SplitIndex(if isShort then action - 1 - side else action - 1, s, AllocBins(cfg), LevelBins(cfg));
      Enter(isShort, sym, alloc, level)
    else Invalid
  }

  lemma PerPositive(a: int, b: int)
    requires 1 <= a && 1 <= b
    ensures 1 <= a * b
  {
  }

  /** The position an order asks for. */
  function TargetPos(o: Order, s: nat): int
    requires o.Enter?
  {
    if o.isShort then s + o.sym else o.sym
  }

  // ---------------------------------------------------------------- one bar's trading

  /** An account after trading, with the number of positions closed and opened on the way. */
  datatype Traded = Traded(agent: Agent, closes: nat, opens: nat)

  function ForceClose(cfg: EnvConfig, row: seq<Bar>, mask: Option<seq<bool>>, a: Agent): (r: Traded)
    requires WellFormed(a, |row|) && (mask.Some? ==> |mask.value| == |row|)
    ensures WellFormed(r.agent, |row|)
  {
    if 0 < cfg.maxHoldHours && 0 <= a.pos && cfg.maxHoldHours <= a.hold
       && Tradable(mask, SymOf(a.pos, |row|))
    then
      var (b, closed) := Close(cfg, row, a);
      Traded(b, if closed then 1 else 0, 0)
    else Traded(a, 0, 0)
  }

  function CloseForFlat(cfg: EnvConfig, row: seq<Bar>, mask: Option<seq<bool>>, a: Agent): (r: Traded)
    requires WellFormed(a, |row|) && (mask.Some? ==> |mask.value| == |row|)
    ensures WellFormed(r.agent, |row|)
  {
    if a.pos < 0 then Traded(a, 0, 0)
    else if Tradable(mask, SymOf(a.pos, |row|)) then
      var (b, closed) := Close(cfg, row, a);
      Traded(b, if closed then 1 else 0, 0)
    else Traded(a.(hold := a.hold + 1), 0, 0)
  }

  /** The draw of the fill lottery: the top 24 bits of a 64-bit word as a fraction of 2^24. */
  function RandFloat(word: nat): real { (word / 0x100_0000_0000) as real / 16777216.0 }

  predicate FillLottery(cfg: EnvConfig, word: nat) {
    1.0 <= cfg.fillProbability || RandFloat(word) <= cfg.fillProbability
  }

  function Open(cfg: EnvConfig, row: seq<Bar>, a: Agent, o: Order): (r: Agent)
    requires WellFormed(a, |row|) && o.Enter? && o.sym < |row|
    ensures WellFormed(r, |row|)
  {
    var alloc := AllocationPct(cfg, o.allocIdx);
    var level := LevelOffsetBps(cfg, o.levelIdx);
    if o.isShort then OpenShort(cfg, row, a, o.sym, alloc, level)
    else OpenLong(cfg, row, a, o.sym, alloc, level)
  }

  /** Whether this bar's action reaches an open call, given the account after the forced close. */
  predicate ReachesOpen(cfg: EnvConfig, row: seq<Bar>, mask: Option<seq<bool>>, a: Agent, o: Order, word: nat)
    requires WellFormed(a, |row|) && (mask.Some? ==> |mask.value| == |row|)
    requires o.Enter? ==> o.sym < |row|
  {
    && o.Enter?
    && a.pos != TargetPos(o, |row|)
    && Tradable(mask, o.sym)
    && (0 <= a.pos ==> Tradable(mask, SymOf(a.pos, |row|)) && Close(cfg, row, a).1)
    && FillLottery(cfg, word)
  }

  function Act(cfg: EnvConfig, row: seq<Bar>, mask: Option<seq<bool>>, a: Agent, o: Order, word: nat)
    : (r: Traded)
    requires WellFormed(a, |row|) && (mask.Some? ==> |mask.value| == |row|)
    requires o.Enter? ==> o.sym < |row|
    ensures WellFormed(r.agent, |row|)
  {
    match o
    case Invalid => Traded(a, 0, 0)
    case GoFlat => CloseForFlat(cfg, row, mask, a)
    case Enter(_, sym, _, _) =>
      if a.pos == TargetPos(o, |row|) then Traded(a.(hold := a.hold + 1), 0, 0)
      else if !Tradable(mask, sym) then
        Traded(if 0 <= a.pos then a.(hold := a.hold + 1) else a, 0, 0)
      else if 0 <= a.pos && !Tradable(mask, SymOf(a.pos, |row|)) then
        Traded(a.(hold := a.hold + 1), 0, 0)
      else
        var (flat, closed) := Close(cfg, row, a);
        var closes := if closed then 1 else 0;
        if (0 <= a.pos && !closed) || !FillLottery(cfg, word) then Traded(flat, closes, 0)
        else
          var b := Open(cfg, row, flat, o);
          Traded(b, closes, if b.pos == TargetPos(o, |row|) then 1 else 0)
  }

  /** Everything the engine does at one bar before time moves on. */
  function TradeBar(cfg: EnvConfig, row: seq<Bar>, mask: Option<seq<bool>>, a: Agent, action: int, word: nat)
    : (r: Traded)
    requires WellFormed(a, |row|) && (mask.Some? ==> |mask.value| == |row|)
    ensures WellFormed(r.agent, |row|)
  {
    var forced := ForceClose(cfg, row, mask, a);
    var acted := Act(cfg, row, mask, forced.agent, Decode(cfg, |row|, action), word);
    Traded(acted.agent, forced.closes + acted.closes, acted.opens)
  }
}
