/** Inverse-volatility positions from picks, and the limits they respect. */
module Sizer {
  import opened Prelude
  import opened WaterFilling

  datatype SymbolSignal = SymbolSignal(symbol: string, score: real, volatility: real)

  datatype Position = Position(symbol: string, weight: real)

  datatype StrategyConfig = StrategyConfig(
    convictionThreshold: real,
    maxPositions: int,
    grossExposure: real,
    maxPositionWeight: real,
    minVolatility: real)

  const DEFAULT := StrategyConfig(0.0, 5, 1.0, 0.34, 0.0001)

  /** The distinct symbols in order of first appearance. */
  function Names(picks: seq<SymbolSignal>): seq<string> {
    if picks == [] then []
    else
      var before := Names(picks[..|picks| - 1]);
      var last := picks[|picks| - 1].symbol;
      if last in before then before else before + [last]
  }

  predicate Divisible(picks: seq<SymbolSignal>, minVolatility: real) {
    forall s :: s in picks ==> MaxReal(s.volatility, minVolatility) != 0.0
  }

  /** Inverse volatilities by symbol; a repeated symbol keeps its last volatility. */
  function Raw(picks: seq<SymbolSignal>, minVolatility: real): map<string, real>
    requires Divisible(picks, minVolatility)
  {
    if picks == [] then map[]
    else
      var last := picks[|picks| - 1];
      Raw(picks[..|picks| - 1], minVolatility)[last.symbol := 1.0 / MaxReal(last.volatility, minVolatility)]
  }

  function Allocation(picks: seq<SymbolSignal>, cfg: StrategyConfig): map<string, real>
    requires Divisible(picks, cfg.minVolatility)
  {
    var raw := Raw(picks, cfg.minVolatility);
    if Total(Names(picks), raw) <= 0.0 then map[]
    else Fill(Names(picks), cfg.maxPositionWeight, cfg.grossExposure, map[], raw)
  }

  function WeightOf(weights: map<string, real>, symbol: string): real {
    if symbol in weights then weights[symbol] else 0.0
  }

  /** One position per pick with a positive weight, in pick order. */
  function Positions(picks: seq<SymbolSignal>, weights: map<string, real>): seq<Position> {
    if picks == [] then []
    else
      var last := picks[|picks| - 1].symbol;
      Positions(picks[..|picks| - 1], weights)
      + if WeightOf(weights, last) > 0.0 then [Position(last, WeightOf(weights, last))] else []
  }

  /** The fraction of equity that positions put to work. */
  function Deployed(positions: seq<Position>): real {
    if positions == [] then 0.0
    else Deployed(positions[..|positions| - 1]) + positions[|positions| - 1].weight
  }

  method InverseVolWeights(picks: seq<SymbolSignal>, cfg: StrategyConfig) returns (r: Result<seq<Position>>)
    ensures r == if Divisible(picks, cfg.minVolatility) then Ok(Positions(picks, Allocation(picks, cfg)))
                 else Err("float division by zero")
  {
    hide Fill, Total, MaxReal;
    if |picks| == 0 {
      return Ok([]);
    }
    var raw: map<string, real> := map[];
    var names: seq<string> := [];
    for i := 0 to |picks|
      invariant Divisible(picks[..i], cfg.minVolatility)
      invariant raw == Raw(picks[..i], cfg.minVolatility) && names == Names(picks[..i])
    {
      assert picks[..i + 1][..i] == picks[..i];
      var floored := MaxReal(picks[i].volatility, cfg.minVolatility);
      if floored == 0.0 {
        assert picks[i] in picks;
        return Err("float division by zero");
      }
      raw := raw[picks[i].symbol := 1.0 / floored];
      names := if picks[i].symbol in names then names else names + [picks[i].symbol];
    }
    assert picks[..|picks|] == picks;
    if Total(names, raw) <= 0.0 {
      PositionsOfNothing(picks);
      return Ok([]);
    }
    var capped := Recycle(names, raw, cfg.maxPositionWeight, cfg.grossExposure);
    var positions: seq<Position> := [];
    for i := 0 to |picks|
      invariant positions == Positions(picks[..i], Allocation(picks, cfg))
    {
      assert picks[..i + 1][..i] == picks[..i];
      var weight := WeightOf(capped, picks[i].symbol);
      if weight > 0.0 {
        positions := positions + [Position(picks[i].symbol, weight)];
      }
    }
    assert picks[..|picks|] == picks;
    r := Ok(positions);
  }

  lemma {:induction false} PositionsOfNothing(picks: seq<SymbolSignal>)
    ensures Positions(picks, map[]) == []
  {
    if picks == [] {
    } else {
      PositionsOfNothing(picks[..|picks| - 1]);
    }
  }

  /** What the sizing law is stated for: a positive volatility floor, cap and exposure. */
  predicate Sane(cfg: StrategyConfig) {
    cfg.minVolatility > 0.0 && cfg.maxPositionWeight > 0.0 && cfg.grossExposure > 0.0
  }

  lemma {:induction false} NamesAreDistinct(picks: seq<SymbolSignal>)
    ensures Distinct(Names(picks))
  {
    if picks == [] {
    } else {
      NamesAreDistinct(picks[..|picks| - 1]);
    }
  }

  lemma {:induction false} NamesHasEveryPick(picks: seq<SymbolSignal>, i: nat)
    requires i < |picks|
    ensures picks[i].symbol in Names(picks)
  {
    if i < |picks| - 1 {
      NamesHasEveryPick(picks[..|picks| - 1], i);
    }
  }

  lemma {:induction false} NamesAreKeys(picks: seq<SymbolSignal>, minVolatility: real)
    requires minVolatility > 0.0
    ensures Divisible(picks, minVolatility)
    ensures forall s :: s in Names(picks) <==> s in Raw(picks, minVolatility)
    ensures forall s :: s in Raw(picks, minVolatility) ==> Raw(picks, minVolatility)[s] > 0.0
  {
    if picks == [] {
    } else {
      NamesAreKeys(picks[..|picks| - 1], minVolatility);
    }
  }

  function Floored(volatility: real, floor: real): real { if volatility < floor then floor else volatility }

  /** The volatility a symbol is sized by: that of its last pick, but at least the floor. */
  function RiskOf(picks: seq<SymbolSignal>, symbol: string, floor: real): real {
    if picks == [] then floor
    else
      var last := picks[|picks| - 1];
      if last.symbol == symbol then Floored(last.volatility, floor) else RiskOf(picks[..|picks| - 1], symbol, floor)
  }

  lemma {:induction false} RawIsOneOverRisk(picks: seq<SymbolSignal>, symbol: string, floor: real)
    requires floor > 0.0 && Divisible(picks, floor)
    ensures RiskOf(picks, symbol, floor) >= floor
    ensures symbol in Raw(picks, floor) ==> Raw(picks, floor)[symbol] * RiskOf(picks, symbol, floor) == 1.0
  {
    if picks != [] {
      var last := picks[|picks| - 1];
      RawIsOneOverRisk(picks[..|picks| - 1], symbol, floor);
      OneOver(last.volatility, floor);
      hide MaxReal, Floored;
    }
  }

  lemma OneOver(volatility: real, floor: real)
    requires floor > 0.0
    ensures var risk := Floored(volatility, floor);
            risk == MaxReal(volatility, floor) >= floor && 1.0 / risk * risk == 1.0
  {
  }

  /** For distinct symbols it is the pick's own. */
  lemma {:induction false} RiskOfPick(picks: seq<SymbolSignal>, i: nat, floor: real)
    requires DistinctSymbols(picks) && i < |picks|
    ensures RiskOf(picks, picks[i].symbol, floor) == Floored(picks[i].volatility, floor)
  {
    if i < |picks| - 1 {
      RiskOfPick(picks[..|picks| - 1], i, floor);
    }
  }

  /** A weight that is not capped is one level over the symbol's risk; where that overflows, the cap. */
  function LevelOverRisk(level: real, risk: real, cap: real): real
    requires risk > 0.0
  {
    if level / risk > cap + TOLERANCE then cap else level / risk
  }

  lemma WaterOverRisk(level: real, raw: real, risk: real)
    requires risk > 0.0 && raw * risk == 1.0
    ensures Water(level, raw) == level / risk
  {
    var q := level / risk;
    assert q * risk == level == level * (raw * risk) == (level * raw) * risk;
    Cancel(q, level * raw, risk);
  }

  /** Every symbol weighs one level over its risk, or the cap where that overflows it. */
  predicate LevelByRisk(picks: seq<SymbolSignal>, cfg: StrategyConfig, level: real)
    requires Sane(cfg) && Divisible(picks, cfg.minVolatility)
  {
    && level > 0.0
    && forall s :: s in Names(picks) ==>
         && s in Allocation(picks, cfg) && RiskOf(picks, s, cfg.minVolatility) > 0.0
         && Allocation(picks, cfg)[s]
            == LevelOverRisk(level, RiskOf(picks, s, cfg.minVolatility), cfg.maxPositionWeight)
  }

  /** The sizer is water filling over volatilities: one level for every symbol, divided by its risk, and the cap
      where that overflows it; the whole budget is given out unless even all caps fall short of it. */
  lemma SizerIsWaterFilling(picks: seq<SymbolSignal>, cfg: StrategyConfig) returns (level: real)
    requires Sane(cfg) && picks != []
    ensures Divisible(picks, cfg.minVolatility)
    ensures Settled(Names(picks), Raw(picks, cfg.minVolatility), cfg.maxPositionWeight, cfg.grossExposure,
                    Allocation(picks, cfg), level)
    ensures LevelByRisk(picks, cfg, level)
  {
    NamesAreKeys(picks, cfg.minVolatility);
    var names, raw := Names(picks), Raw(picks, cfg.minVolatility);
    NamesHasEveryPick(picks, 0);
    TotalPositive(names, raw);
    TotalOfNothing(names);
    level := FillSettles(names, raw, cfg.maxPositionWeight, cfg.grossExposure, map[], raw, 0.0);
    FilledByRisk(picks, cfg, level);
    hide Total, LevelByRisk;
  }

  lemma FilledByRisk(picks: seq<SymbolSignal>, cfg: StrategyConfig, level: real)
    requires Sane(cfg) && level > 0.0 && Divisible(picks, cfg.minVolatility)
    requires Filled(Raw(picks, cfg.minVolatility), cfg.maxPositionWeight, Allocation(picks, cfg), level)
    ensures LevelByRisk(picks, cfg, level)
  {
    hide Allocation, Raw, Water, RiskOf;
    var raw := Raw(picks, cfg.minVolatility);
    NamesAreKeys(picks, cfg.minVolatility);
    forall s | s in Names(picks)
      ensures RiskOf(picks, s, cfg.minVolatility) > 0.0
      ensures Water(level, raw[s]) == level / RiskOf(picks, s, cfg.minVolatility)
    {
      RawIsOneOverRisk(picks, s, cfg.minVolatility);
      WaterOverRisk(level, raw[s], RiskOf(picks, s, cfg.minVolatility));
    }
  }

  /** Two weights against two risks: neither at the cap, weight times risk is the same; one at the cap and the
      other below it, the one at the cap has the smaller risk. */
  predicate SharesRisk(x: real, p: real, y: real, q: real, cap: real) {
    (x != cap && y != cap ==> x * p == y * q) && (x == cap && y < cap ==> p < q)
  }

  /** What volatility does to two symbols. */
  lemma EqualRisk(picks: seq<SymbolSignal>, cfg: StrategyConfig, a: string, b: string)
    requires Sane(cfg) && a in Names(picks) && b in Names(picks)
    ensures Divisible(picks, cfg.minVolatility)
    ensures SharesRisk(WeightOf(Allocation(picks, cfg), a), RiskOf(picks, a, cfg.minVolatility),
                       WeightOf(Allocation(picks, cfg), b), RiskOf(picks, b, cfg.minVolatility), cfg.maxPositionWeight)
  {
    hide Allocation, RiskOf, LevelOverRisk, Raw, Divisible, Settled, SharesRisk;
    assert picks != [];
    var level := SizerIsWaterFilling(picks, cfg);
    LevelDecides(level, RiskOf(picks, a, cfg.minVolatility), RiskOf(picks, b, cfg.minVolatility), cfg.maxPositionWeight);
  }

  lemma LevelDecides(level: real, p: real, q: real, cap: real)
    requires 0.0 < level && 0.0 < p && 0.0 < q
    ensures SharesRisk(LevelOverRisk(level, p, cap), p, LevelOverRisk(level, q, cap), q, cap)
  {
    var x, y := level / p, level / q;
    assert x * p == level == y * q;
    if q <= p {
      DivAntitone(level, q, p);
    }
  }

  /** The same on distinct picks, by their own volatilities and the weights of their positions. */
  lemma EqualRiskOfPicks(picks: seq<SymbolSignal>, cfg: StrategyConfig, i: nat, j: nat)
    requires Sane(cfg) && DistinctSymbols(picks) && i < |picks| && j < |picks|
    ensures Divisible(picks, cfg.minVolatility) && |Positions(picks, Allocation(picks, cfg))| == |picks|
    ensures var positions := Positions(picks, Allocation(picks, cfg));
            SharesRisk(positions[i].weight, Floored(picks[i].volatility, cfg.minVolatility),
                       positions[j].weight, Floored(picks[j].volatility, cfg.minVolatility), cfg.maxPositionWeight)
  {
    hide Allocation, RiskOf, Names, Divisible, DistinctSymbols, Positions, SharesRisk;
    EveryPickIsFunded(picks, cfg);
    PositionsMatchPicks(picks, Allocation(picks, cfg));
    NamesHasEveryPick(picks, i);
    NamesHasEveryPick(picks, j);
    EqualRisk(picks, cfg, picks[i].symbol, picks[j].symbol);
    RiskOfPick(picks, i, cfg.minVolatility);
    RiskOfPick(picks, j, cfg.minVolatility);
  }

  /** The caps of `n` names against the budget decide how much is given out. */
  lemma GrossExposureIsMet(picks: seq<SymbolSignal>, cfg: StrategyConfig)
    requires Sane(cfg) && picks != []
    ensures Divisible(picks, cfg.minVolatility)
    ensures var given := Total(Names(picks), Allocation(picks, cfg));
            var caps := Capacity(|Names(picks)|, cfg.maxPositionWeight);
            && given <= cfg.grossExposure
            && (caps >= cfg.grossExposure ==> given == cfg.grossExposure)
            && (Capacity(|Names(picks)|, cfg.maxPositionWeight + TOLERANCE) < cfg.grossExposure ==> given == caps)
  {
    var level := SizerIsWaterFilling(picks, cfg);
    NamesAreKeys(picks, cfg.minVolatility);
    var names, weights, cap := Names(picks), Allocation(picks, cfg), cfg.maxPositionWeight;
    TotalAtMost(names, weights, cap + TOLERANCE);
    if forall s :: s in names ==> weights[s] == cap {
      TotalOfConstant(names, weights, cap);
    }
    hide Total, Water, Allocation, Raw, Names, Capacity, Divisible;
  }

  /** No name exceeds the cap by more than the tolerance, and less volatility never earns less, up to
      the same tolerance. */
  lemma LowerVolatilityEarnsMore(picks: seq<SymbolSignal>, cfg: StrategyConfig, a: string, b: string)
    requires Sane(cfg)
    requires a in Names(picks) && b in Names(picks)
    requires Divisible(picks, cfg.minVolatility)
    requires a in Raw(picks, cfg.minVolatility) && b in Raw(picks, cfg.minVolatility)
    requires Raw(picks, cfg.minVolatility)[a] >= Raw(picks, cfg.minVolatility)[b]
    ensures a in Allocation(picks, cfg) && b in Allocation(picks, cfg)
    ensures var weights := Allocation(picks, cfg);
            && 0.0 < weights[b] <= cfg.maxPositionWeight + 0.000000000001
            && weights[a] >= weights[b] - 0.000000000001
            && (weights[b] <= cfg.maxPositionWeight ==> weights[a] >= weights[b])
  {
    var level := SizerIsWaterFilling(picks, cfg);
    NamesAreKeys(picks, cfg.minVolatility);
    LevelFavours(Raw(picks, cfg.minVolatility), cfg.maxPositionWeight, Allocation(picks, cfg), level, a, b);
    hide Total, Water, Allocation, Raw, Names, Filled, Divisible;
  }

  lemma LevelFavours(raw: map<string, real>, cap: real, weights: map<string, real>, level: real, a: string, b: string)
    requires 0.0 < cap && 0.0 < level && Filled(raw, cap, weights, level)
    requires a in raw && b in raw && raw[a] >= raw[b] > 0.0
    ensures a in weights && b in weights && 0.0 < weights[b] <= cap + TOLERANCE
    ensures weights[a] >= weights[b] - TOLERANCE && (weights[b] <= cap ==> weights[a] >= weights[b])
  {
    WaterOrder(level, raw[b], raw[a]);
    hide Water;
  }

  lemma WaterOrder(level: real, low: real, high: real)
    requires 0.0 < level && 0.0 < low <= high
    ensures 0.0 < Water(level, low) <= Water(level, high)
  {
  }

  /** Every pick gets a position, in pick order, with its symbol's weight. */
  lemma {:induction false} PositionsMatchPicks(picks: seq<SymbolSignal>, weights: map<string, real>)
    requires forall i :: 0 <= i < |picks| ==> picks[i].symbol in weights && weights[picks[i].symbol] > 0.0
    ensures |Positions(picks, weights)| == |picks|
    ensures forall i :: 0 <= i < |picks| ==>
              Positions(picks, weights)[i] == Position(picks[i].symbol, weights[picks[i].symbol])
  {
    if picks == [] {
    } else {
      PositionsMatchPicks(picks[..|picks| - 1], weights);
    }
  }

  predicate DistinctSymbols(picks: seq<SymbolSignal>) {
    forall i, j :: 0 <= i < j < |picks| ==> picks[i].symbol != picks[j].symbol
  }

  /** Positions deploy what the table gives out when no symbol repeats, and more when one does. */
  lemma {:induction false} DeployedAgainstTotal(picks: seq<SymbolSignal>, weights: map<string, real>)
    requires forall i :: 0 <= i < |picks| ==> picks[i].symbol in weights && weights[picks[i].symbol] > 0.0
    ensures DistinctSymbols(picks) ==> Deployed(Positions(picks, weights)) == Total(Names(picks), weights)
    ensures !DistinctSymbols(picks) ==> Deployed(Positions(picks, weights)) > Total(Names(picks), weights)
  {
    if picks == [] {
    } else {
      var before := picks[..|picks| - 1];
      var last := picks[|picks| - 1].symbol;
      DeployedAgainstTotal(before, weights);
      NamesOfPicks(before, last);
      var positions := Positions(before, weights);
      assert (positions + [Position(last, weights[last])])[..|positions|] == positions;
      assert (Names(before) + [last])[..|Names(before)|] == Names(before);
      assert DistinctSymbols(picks) <==> DistinctSymbols(before) && last !in Names(before);
    }
  }

  lemma {:induction false} NamesOfPicks(picks: seq<SymbolSignal>, symbol: string)
    ensures symbol in Names(picks) <==> exists i :: 0 <= i < |picks| && picks[i].symbol == symbol
  {
    if picks == [] {
    } else {
      NamesOfPicks(picks[..|picks| - 1], symbol);
      assert forall i :: 0 <= i < |picks| - 1 ==> picks[i] == picks[..|picks| - 1][i];
    }
  }

  /** Every name got the cap. */
  predicate AllAtCap(picks: seq<SymbolSignal>, cfg: StrategyConfig)
    requires Divisible(picks, cfg.minVolatility)
  {
    forall s :: s in Names(picks) ==> WeightOf(Allocation(picks, cfg), s) == cfg.maxPositionWeight
  }

  /** The exposure limit is respected by what is deployed exactly when no symbol is picked twice, or every
      name got the cap and all picks at the cap are within it. So picks that would overrun it at the cap must
      be distinct; and where the caps of the names fall short of it, repeated or not, the picks at the cap decide. */
  lemma ExposureLimitNeedsDistinctSymbols(picks: seq<SymbolSignal>, cfg: StrategyConfig)
    requires Sane(cfg) && picks != []
    ensures Divisible(picks, cfg.minVolatility)
    ensures var within := Deployed(Positions(picks, Allocation(picks, cfg))) <= cfg.grossExposure;
            var atCap := Capacity(|picks|, cfg.maxPositionWeight);
            && (within <==> DistinctSymbols(picks) || (AllAtCap(picks, cfg) && atCap <= cfg.grossExposure))
            && (atCap > cfg.grossExposure ==> (within <==> DistinctSymbols(picks)))
            && (Capacity(|Names(picks)|, cfg.maxPositionWeight + TOLERANCE) < cfg.grossExposure ==>
                  AllAtCap(picks, cfg) && (within <==> atCap <= cfg.grossExposure))
  {
    GrossExposureIsMet(picks, cfg);
    EveryPickIsFunded(picks, cfg);
    DeployedAgainstTotal(picks, Allocation(picks, cfg));
    SpentOrAllAtCap(picks, cfg);
    hide Allocation, Total, Deployed, Positions, Names, Divisible, DistinctSymbols, Capacity, AllAtCap;
  }

  /** For any cap above the tolerance times the number of picks, the limit can be checked before sizing: it
      holds exactly for distinct symbols, or when all picks at the cap are within it. */
  lemma ExposureLimitBeforehand(picks: seq<SymbolSignal>, cfg: StrategyConfig)
    requires Sane(cfg) && picks != [] && Capacity(|picks|, TOLERANCE) < cfg.maxPositionWeight
    ensures Divisible(picks, cfg.minVolatility)
    ensures Deployed(Positions(picks, Allocation(picks, cfg))) <= cfg.grossExposure <==>
            DistinctSymbols(picks) || Capacity(|picks|, cfg.maxPositionWeight) <= cfg.grossExposure
  {
    hide Allocation, Deployed, Positions, Names, Divisible, DistinctSymbols, Capacity, AllAtCap;
    ExposureLimitNeedsDistinctSymbols(picks, cfg);
    FewerNames(picks);
    if |Names(picks)| < |picks| {
      CapacityWithTolerance(|Names(picks)|, |picks|, cfg.maxPositionWeight);
    }
  }

  lemma {:induction false} FewerNames(picks: seq<SymbolSignal>)
    ensures |Names(picks)| <= |picks| && (|Names(picks)| == |picks| ==> DistinctSymbols(picks))
  {
    if picks != [] {
      var before, last := picks[..|picks| - 1], picks[|picks| - 1].symbol;
      FewerNames(before);
      NamesOfPicks(before, last);
    }
  }

  lemma CapacityWithTolerance(n: nat, m: nat, cap: real)
    requires n < m && 0.0 < cap && Capacity(m, TOLERANCE) < cap
    ensures Capacity(n, cap + TOLERANCE) < Capacity(m, cap)
  {
    FewerAtMore(n as real, m as real, cap, TOLERANCE);
  }

  lemma FewerAtMore(a: real, b: real, cap: real, tol: real)
    requires 0.0 <= a && a + 1.0 <= b && 0.0 < cap && 0.0 <= tol && b * tol < cap
    ensures a * (cap + tol) < b * cap
  {
    var ac, at, bc := a * cap, a * tol, b * cap;
    MulMono(a, b, tol);
    MulMono(a + 1.0, b, cap);
    assert (a + 1.0) * cap == ac + cap;
    assert a * (cap + tol) == ac + at;
  }

  /** Three picks of one symbol overrun the default limits. */
  lemma RepeatedPicksOverrun(pick: SymbolSignal)
    ensures var picks := [pick, pick, pick];
            && Divisible(picks, DEFAULT.minVolatility)
            && Deployed(Positions(picks, Allocation(picks, DEFAULT))) == 1.02 > DEFAULT.grossExposure
  {
    var picks := [pick, pick, pick];
    assert picks[..2] == [pick, pick] && [pick, pick][..1] == [pick] && [pick][..0] == [];
    assert Names([pick]) == [pick.symbol] && Names([pick, pick]) == [pick.symbol];
    assert Names(picks) == [pick.symbol];
    SpentOrAllAtCap(picks, DEFAULT);
    hide Allocation, Deployed, Positions, Names, Divisible, AllAtCap;
  }

  /** The table gives out the whole exposure, or everybody has the cap and each pick deploys it. */
  lemma SpentOrAllAtCap(picks: seq<SymbolSignal>, cfg: StrategyConfig)
    requires Sane(cfg) && picks != []
    ensures Divisible(picks, cfg.minVolatility)
    ensures Total(Names(picks), Allocation(picks, cfg)) == cfg.grossExposure || AllAtCap(picks, cfg)
    ensures AllAtCap(picks, cfg) ==>
              Deployed(Positions(picks, Allocation(picks, cfg))) == Capacity(|picks|, cfg.maxPositionWeight)
    ensures Capacity(|Names(picks)|, cfg.maxPositionWeight + TOLERANCE) < cfg.grossExposure ==> AllAtCap(picks, cfg)
  {
    var level := SizerIsWaterFilling(picks, cfg);
    NamesAreKeys(picks, cfg.minVolatility);
    var names, weights := Names(picks), Allocation(picks, cfg);
    TotalAtMost(names, weights, cfg.maxPositionWeight + TOLERANCE);
    if AllAtCap(picks, cfg) {
      DeployedAtCap(picks, weights, cfg.maxPositionWeight);
    }
    hide Total, Water, Allocation, Raw, Names, Capacity, Divisible, Deployed, Positions;
  }

  lemma {:induction false} DeployedAtCap(picks: seq<SymbolSignal>, weights: map<string, real>, cap: real)
    requires cap > 0.0 && forall s :: s in Names(picks) ==> WeightOf(weights, s) == cap
    ensures Deployed(Positions(picks, weights)) == Capacity(|picks|, cap)
  {
    if picks != [] {
      var before, last := picks[..|picks| - 1], picks[|picks| - 1].symbol;
      DeployedAtCap(before, weights, cap);
      var positions := Positions(before, weights);
      var all := positions + [Position(last, cap)];
      assert all[..|positions|] == positions;
      assert Positions(picks, weights) == all;
      CapacityOfMore(|before|, cap);
    }
    hide Capacity, Names, WeightOf;
  }

  lemma CapacityOfMore(n: nat, cap: real)
    ensures Capacity(n + 1, cap) == Capacity(n, cap) + cap && Capacity(0, cap) == 0.0
  {
  }

  /** The tolerance is real: a name may end up above the cap inside it, and then the more volatile of two
      names earns more. */
  lemma ToleranceIsReal()
    ensures var cfg := StrategyConfig(0.0, 2, 2.0 + TOLERANCE / 2.0, 1.0, 0.1);
            var picks := [SymbolSignal("A", 1.0, 0.5), SymbolSignal("B", 1.0, 1.0)];
            && Sane(cfg) && Divisible(picks, cfg.minVolatility)
            && Allocation(picks, cfg) == map["A" := 1.0, "B" := 1.0 + TOLERANCE / 2.0]
  {
    var cfg := StrategyConfig(0.0, 2, 2.0 + TOLERANCE / 2.0, 1.0, 0.1);
    var a, b := SymbolSignal("A", 1.0, 0.5), SymbolSignal("B", 1.0, 1.0);
    var names, raw := ["A", "B"], map["A" := 2.0, "B" := 1.0];
    assert [a, b][..1] == [a] && [a][..0] == [];
    assert Names([a]) == ["A"] && Names([a, b]) == names;
    assert Raw([a], cfg.minVolatility) == map["A" := 2.0];
    assert Raw([a, b], cfg.minVolatility) == map["A" := 2.0]["B" := 1.0] == raw;
    TotalOfTwo(raw);
    FillsPastTheCap();
    hide Fill, Total, Names, Raw;
  }

  lemma FillsPastTheCap()
    ensures Fill(["A", "B"], 1.0, 2.0 + TOLERANCE / 2.0, map[], map["A" := 2.0, "B" := 1.0])
         == map["A" := 1.0, "B" := 1.0 + TOLERANCE / 2.0]
  {
    hide Fill, Total, Over, Shares, AllAt;
    var names, raw, budget := ["A", "B"], map["A" := 2.0, "B" := 1.0], 2.0 + TOLERANCE / 2.0;
    var one, rest, left := map["A" := 1.0], map["B" := 1.0], 1.0 + TOLERANCE / 2.0;
    TotalOfTwo(raw);
    TotalOfTwo(map[]);
    TotalOfTwo(one);
    TotalOfTwo(rest);
    OverflowOfTwo(budget, left);
    FillRound(names, 1.0, budget, map[], raw);
    FillRound(names, 1.0, budget, one, rest);
  }

  lemma OverflowOfTwo(budget: real, left: real)
    requires budget == 2.0 + TOLERANCE / 2.0 && left == 1.0 + TOLERANCE / 2.0
    ensures var raw, one, rest := map["A" := 2.0, "B" := 1.0], map["A" := 1.0], map["B" := 1.0];
            && Over(raw, budget, 3.0, 1.0) == {"A"} && Over(rest, left, 1.0, 1.0) == {}
            && map[] + AllAt({"A"}, 1.0) == one && raw - {"A"} == rest
            && one + Shares(rest, left, 1.0) == map["A" := 1.0, "B" := left]
  {
    assert Share(budget, 2.0, 3.0) > 1.0 + TOLERANCE && Share(budget, 1.0, 3.0) < 1.0;
    assert Share(left, 1.0, 1.0) == left;
    assert AllAt({"A"}, 1.0) == map["A" := 1.0] && map["A" := 2.0, "B" := 1.0] - {"A"} == map["B" := 1.0];
    assert Shares(map["B" := 1.0], left, 1.0) == map["B" := left];
    hide Share;
  }

  lemma TotalOfTwo(m: map<string, real>)
    ensures Total(["A", "B"], m) == (if "A" in m then m["A"] else 0.0) + (if "B" in m then m["B"] else 0.0)
  {
    assert ["A", "B"][..1] == ["A"] && ["A"][..0] == [];
    assert Total(["A"], m) == if "A" in m then m["A"] else 0.0;
  }

  lemma EveryPickIsFunded(picks: seq<SymbolSignal>, cfg: StrategyConfig)
    requires Sane(cfg) && picks != []
    ensures Divisible(picks, cfg.minVolatility)
    ensures forall i :: 0 <= i < |picks| ==>
              picks[i].symbol in Allocation(picks, cfg) && Allocation(picks, cfg)[picks[i].symbol] > 0.0
  {
    NamesAreKeys(picks, cfg.minVolatility);
    forall i | 0 <= i < |picks|
      ensures picks[i].symbol in Allocation(picks, cfg) && Allocation(picks, cfg)[picks[i].symbol] > 0.0
    {
      NamesHasEveryPick(picks, i);
      LowerVolatilityEarnsMore(picks, cfg, picks[i].symbol, picks[i].symbol);
    }
    hide Allocation, Raw, Names, Divisible;
  }

  lemma FundedWithinLimits(picks: seq<SymbolSignal>, cfg: StrategyConfig)
    requires Sane(cfg) && DistinctSymbols(picks)
    ensures Divisible(picks, cfg.minVolatility)
    ensures var positions := Positions(picks, Allocation(picks, cfg));
            && |positions| == |picks| && Deployed(positions) <= cfg.grossExposure
            && (forall i :: 0 <= i < |positions| ==>
                  && positions[i].symbol == picks[i].symbol
                  && 0.0 < positions[i].weight <= cfg.maxPositionWeight + TOLERANCE)
  {
    if picks == [] {
      return;
    }
    EveryPickIsFunded(picks, cfg);
    PositionsMatchPicks(picks, Allocation(picks, cfg));
    ExposureLimitNeedsDistinctSymbols(picks, cfg);
    NamesAreKeys(picks, cfg.minVolatility);
    forall i | 0 <= i < |picks|
      ensures Allocation(picks, cfg)[picks[i].symbol] <= cfg.maxPositionWeight + TOLERANCE
    {
      NamesHasEveryPick(picks, i);
      LowerVolatilityEarnsMore(picks, cfg, picks[i].symbol, picks[i].symbol);
    }
    hide Allocation, Raw, Names, Divisible, DistinctSymbols, Capacity;
  }
}
