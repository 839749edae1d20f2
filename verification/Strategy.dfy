/** The pure signal-to-weights pipeline: conviction filter, top picks by score, and the sizing of the picks. */
module Strategy {
  import opened Prelude
  import opened Sizer
  import opened WaterFilling

  // ---------------------------------------------------------------- filter and pick

  /** Long-eligible signals, in order: at least the threshold and strictly positive. */
  function FilterByConviction(signals: seq<SymbolSignal>, cfg: StrategyConfig): seq<SymbolSignal> {
    if signals == [] then []
    else
      (if signals[0].score >= cfg.convictionThreshold && signals[0].score > 0.0 then [signals[0]] else [])
      + FilterByConviction(signals[1..], cfg)
  }

  /** Strings in code-point order. */
  predicate TextLeq(a: string, b: string) {
    a == [] || (b != [] && (a[0] < b[0] || (a[0] == b[0] && TextLeq(a[1..], b[1..]))))
  }

  lemma {:induction false} TextOrderTotal(a: string, b: string)
    ensures TextLeq(a, b) || TextLeq(b, a)
  {
    if a == [] || b == [] || a[0] != b[0] {
    } else {
      TextOrderTotal(a[1..], b[1..]);
    }
  }

  lemma {:induction false} TextOrderTransitive(a: string, b: string, c: string)
    requires TextLeq(a, b) && TextLeq(b, c)
    ensures TextLeq(a, c)
  {
    if a == [] || a[0] != b[0] || b[0] != c[0] {
    } else {
      TextOrderTransitive(a[1..], b[1..], c[1..]);
    }
  }

  /** Higher score first, symbol order among equals. */
  predicate Ranks(p: SymbolSignal, q: SymbolSignal) {
    p.score > q.score || (p.score == q.score && TextLeq(p.symbol, q.symbol))
  }

  function InsertRanked(x: SymbolSignal, ranked: seq<SymbolSignal>): seq<SymbolSignal> {
    if ranked == [] || Ranks(x, ranked[0]) then [x] + ranked
    else [ranked[0]] + InsertRanked(x, ranked[1..])
  }

  /** The stable sort by rank. */
  function Ranked(signals: seq<SymbolSignal>): seq<SymbolSignal> {
    if signals == [] then [] else InsertRanked(signals[0], Ranked(signals[1..]))
  }

  function SelectPicks(signals: seq<SymbolSignal>, cfg: StrategyConfig): seq<SymbolSignal> {
    var ranked := Ranked(signals);
    ranked[..Min(|ranked|, Max(0, cfg.maxPositions))]
  }

  predicate InOrder(s: seq<SymbolSignal>) {
    forall i, j :: 0 <= i < j < |s| ==> Ranks(s[i], s[j])
  }

  lemma {:induction false} InsertKeepsOrder(x: SymbolSignal, ranked: seq<SymbolSignal>)
    requires InOrder(ranked)
    ensures InOrder(InsertRanked(x, ranked)) && multiset(InsertRanked(x, ranked)) == multiset(ranked) + multiset{x}
  {
    if ranked == [] {
    } else if Ranks(x, ranked[0]) {
      forall j | 0 < j < |ranked|
        ensures Ranks(x, ranked[j])
      {
        RanksTransitive(x, ranked[0], ranked[j]);
      }
    } else {
      var rest := InsertRanked(x, ranked[1..]);
      assert ranked == [ranked[0]] + ranked[1..];
      InsertKeepsOrder(x, ranked[1..]);
      TextOrderTotal(x.symbol, ranked[0].symbol);
      forall j | 0 <= j < |rest|
        ensures Ranks(ranked[0], rest[j])
      {
        assert rest[j] in multiset(rest);
        assert rest[j] == x || rest[j] in ranked[1..];
      }
    }
  }

  lemma RanksTransitive(p: SymbolSignal, q: SymbolSignal, r: SymbolSignal)
    requires Ranks(p, q) && Ranks(q, r)
    ensures Ranks(p, r)
  {
    if p.score == q.score == r.score {
      TextOrderTransitive(p.symbol, q.symbol, r.symbol);
    }
  }

  lemma {:induction false} RankedIsSorted(signals: seq<SymbolSignal>)
    ensures InOrder(Ranked(signals)) && multiset(Ranked(signals)) == multiset(signals)
  {
    if signals == [] {
    } else {
      RankedIsSorted(signals[1..]);
      InsertKeepsOrder(signals[0], Ranked(signals[1..]));
      assert signals == [signals[0]] + signals[1..];
    }
  }

  /** Picks and the rest make up the signals; every pick ranks before everything left out. */
  lemma PicksAreTheTop(signals: seq<SymbolSignal>, cfg: StrategyConfig) returns (rest: seq<SymbolSignal>)
    ensures var picks := SelectPicks(signals, cfg);
            && multiset(picks) + multiset(rest) == multiset(signals)
            && |picks| == Min(|signals|, Max(0, cfg.maxPositions))
            && InOrder(picks) && (forall p, q :: p in picks && q in rest ==> Ranks(p, q))
  {
    RankedIsSorted(signals);
    var ranked := Ranked(signals);
    assert |ranked| == |signals| by {
      assert |multiset(ranked)| == |multiset(signals)|;
    }
    rest := ranked[Min(|ranked|, Max(0, cfg.maxPositions))..];
    assert ranked == SelectPicks(signals, cfg) + rest;
  }

  /** No pick scores below anything left out, and of equal scores the earlier symbol is picked. */
  lemma PicksScoreHighest(signals: seq<SymbolSignal>, cfg: StrategyConfig) returns (rest: seq<SymbolSignal>)
    ensures var picks := SelectPicks(signals, cfg);
            && multiset(picks) + multiset(rest) == multiset(signals)
            && (forall i, j :: 0 <= i < j < |picks| ==> picks[i].score >= picks[j].score)
            && (forall p, q :: p in picks && q in rest ==>
                  && p.score >= q.score
                  && (p.score == q.score ==> p.symbol == q.symbol || Before(p.symbol, q.symbol)))
  {
    rest := PicksAreTheTop(signals, cfg);
    forall p, q | p in SelectPicks(signals, cfg) && q in rest && p.score == q.score
      ensures p.symbol == q.symbol || Before(p.symbol, q.symbol)
    {
      TextLeqIsBefore(p.symbol, q.symbol);
    }
    hide SelectPicks, TextLeq;
  }

  /** One text comes before another: it is a proper beginning of it, or smaller at the first difference. */
  ghost predicate Before(a: string, b: string) {
    (|a| < |b| && a == b[..|a|])
    || exists i :: 0 <= i < |a| && i < |b| && a[..i] == b[..i] && a[i] < b[i]
  }

  lemma {:induction false} TextLeqIsBefore(a: string, b: string)
    requires TextLeq(a, b)
    ensures a == b || Before(a, b)
  {
    if a == [] {
    } else if a[0] < b[0] {
      assert a[..0] == b[..0];
    } else {
      TextLeqIsBefore(a[1..], b[1..]);
      assert a == [a[0]] + a[1..] && b == [b[0]] + b[1..];
      if exists i :: 0 <= i < |a[1..]| && i < |b[1..]| && a[1..][..i] == b[1..][..i] && a[1..][i] < b[1..][i] {
        var i :| 0 <= i < |a[1..]| && i < |b[1..]| && a[1..][..i] == b[1..][..i] && a[1..][i] < b[1..][i];
        assert a[..i + 1] == [a[0]] + a[1..][..i] && b[..i + 1] == [b[0]] + b[1..][..i];
        assert a[i + 1] < b[i + 1];
      }
    }
  }

  method Decide(signals: seq<SymbolSignal>, cfg: StrategyConfig) returns (r: Result<seq<Position>>)
    ensures var picks := SelectPicks(FilterByConviction(signals, cfg), cfg);
            r == if Divisible(picks, cfg.minVolatility) then Ok(Positions(picks, Allocation(picks, cfg)))
                 else Err("float division by zero")
  {
    var eligible := FilterByConviction(signals, cfg);
    var picks := SelectPicks(eligible, cfg);
    r := InverseVolWeights(picks, cfg);
  }

  // ---------------------------------------------------------------- the whole pipeline

  predicate Eligible(s: SymbolSignal, cfg: StrategyConfig) { s.score >= cfg.convictionThreshold && s.score > 0.0 }

  lemma {:induction false} FilterKeepsTheEligible(signals: seq<SymbolSignal>, cfg: StrategyConfig)
    ensures forall s :: s in FilterByConviction(signals, cfg) <==> s in signals && Eligible(s, cfg)
    ensures DistinctSymbols(signals) ==> DistinctSymbols(FilterByConviction(signals, cfg))
  {
    if signals == [] {
    } else {
      FilterKeepsTheEligible(signals[1..], cfg);
      assert signals == [signals[0]] + signals[1..];
      var rest := FilterByConviction(signals[1..], cfg);
      if DistinctSymbols(signals) {
        forall j | 0 <= j < |rest|
          ensures rest[j].symbol != signals[0].symbol
        {
          assert rest[j] in signals[1..];
        }
      }
    }
  }

  lemma {:induction false} InsertKeepsDistinct(x: SymbolSignal, ranked: seq<SymbolSignal>)
    requires DistinctSymbols(ranked) && forall q :: q in ranked ==> q.symbol != x.symbol
    ensures DistinctSymbols(InsertRanked(x, ranked))
    ensures forall q :: q in InsertRanked(x, ranked) <==> q == x || q in ranked
  {
    if ranked == [] || Ranks(x, ranked[0]) {
      assert forall j :: 0 <= j < |ranked| ==> ranked[j] in ranked;
    } else {
      InsertKeepsDistinct(x, ranked[1..]);
      var rest := InsertRanked(x, ranked[1..]);
      forall j | 0 <= j < |rest|
        ensures rest[j].symbol != ranked[0].symbol
      {
        assert rest[j] == x || rest[j] in ranked[1..];
      }
    }
  }

  lemma {:induction false} RankedKeepsDistinct(signals: seq<SymbolSignal>)
    requires DistinctSymbols(signals)
    ensures DistinctSymbols(Ranked(signals))
    ensures forall q :: q in Ranked(signals) <==> q in signals
  {
    if signals == [] {
    } else {
      RankedKeepsDistinct(signals[1..]);
      InsertKeepsDistinct(signals[0], Ranked(signals[1..]));
    }
  }

  /** End to end, on distinct symbols: the positions are exactly the top eligible signals, best first, each
      funded, together within the exposure limit and each within the cap. */
  lemma DecisionIsSound(signals: seq<SymbolSignal>, cfg: StrategyConfig)
    requires Sane(cfg) && DistinctSymbols(signals)
    ensures var eligible := FilterByConviction(signals, cfg);
            var picks := SelectPicks(eligible, cfg);
            && Divisible(picks, cfg.minVolatility)
            && var positions := Positions(picks, Allocation(picks, cfg));
               && |positions| == |picks| == Min(|eligible|, Max(0, cfg.maxPositions))
               && (forall i :: 0 <= i < |positions| ==>
                     && positions[i].symbol == picks[i].symbol && Eligible(picks[i], cfg)
                     && 0.0 < positions[i].weight <= cfg.maxPositionWeight + TOLERANCE)
               && (forall s, p :: s in signals && Eligible(s, cfg) && s !in picks && p in picks ==> Ranks(p, s))
               && Deployed(positions) <= cfg.grossExposure
  {
    var eligible := FilterByConviction(signals, cfg);
    FilterKeepsTheEligible(signals, cfg);
    PicksRankFirst(eligible, cfg);
    FundedWithinLimits(SelectPicks(eligible, cfg), cfg);
    hide FilterByConviction, SelectPicks, Allocation, Ranks, DistinctSymbols, Positions, Deployed, Divisible;
  }

  /** The picks are signals, distinct if those are, and nobody passed over ranks strictly above a pick. */
  lemma PicksRankFirst(signals: seq<SymbolSignal>, cfg: StrategyConfig)
    requires DistinctSymbols(signals)
    ensures var picks := SelectPicks(signals, cfg);
            && DistinctSymbols(picks) && |picks| == Min(|signals|, Max(0, cfg.maxPositions))
            && (forall p :: p in picks ==> p in signals)
            && (forall s, p :: s in signals && s !in picks && p in picks ==> Ranks(p, s))
  {
    RankedKeepsDistinct(signals);
    var picks := SelectPicks(signals, cfg);
    var rest := PicksAreTheTop(signals, cfg);
    forall s | s in signals && s !in picks
      ensures s in rest
    {
      assert s in multiset(signals);
    }
    hide Ranks;
  }
}
