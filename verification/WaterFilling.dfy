/** Capped redistribution: rounds that cap whatever overflows and recycle the rest, and the common level
    they end at. A dictionary is a map together with the sequence of its keys in insertion order. */
module WaterFilling {
  import opened Prelude

  /** Above the cap by more than this counts as overflow. */
  const TOLERANCE := 0.000000000001

  /** The sum of a dictionary's values, in key order. */
  function Total(names: seq<string>, m: map<string, real>): real {
    if names == [] then 0.0
    else
      var last := names[|names| - 1];
      Total(names[..|names| - 1], m) + if last in m then m[last] else 0.0
  }

  function Share(budget: real, w: real, total: real): real
    requires total != 0.0
  {
    budget * (w / total)
  }

  /** The names whose proportional share of what is left overflows the cap. */
  function Over(remaining: map<string, real>, budget: real, total: real, cap: real): set<string>
    requires total != 0.0
  {
    set s | s in remaining && Share(budget, remaining[s], total) > cap + TOLERANCE
  }

  function Shares(remaining: map<string, real>, budget: real, total: real): map<string, real>
    requires total != 0.0
  {
    map s | s in remaining :: Share(budget, remaining[s], total)
  }

  function AllAt(names: set<string>, cap: real): map<string, real> { map s | s in names :: cap }

  /** The rounds from a given split into capped and remaining names. */
  function Fill(names: seq<string>, cap: real, budget: real, capped: map<string, real>, remaining: map<string, real>):
    map<string, real>
    decreases |remaining|
  {
    var total := Total(names, remaining);
    var left := budget - Total(names, capped);
    if |remaining| == 0 || left <= 0.0 || total <= 0.0 then capped
    else
      var over := Over(remaining, left, total, cap);
      if over == {} then capped + Shares(remaining, left, total)
      else
        Fewer(remaining, over);
        Fill(names, cap, budget, capped + AllAt(over, cap), remaining - over)
  }

  lemma Fewer(m: map<string, real>, gone: set<string>)
    requires gone <= m.Keys && gone != {}
    ensures |m - gone| < |m|
  {
    assert (m - gone).Keys == m.Keys - gone;
    assert |m.Keys - gone| == |m.Keys| - |gone|;
  }

  /** The height water at a level gives a name of this raw weight. */
  function Water(level: real, raw: real): real { level * raw }

  lemma WaterAdds(level: real, a: real, b: real)
    ensures Water(level, a + b) == Water(level, a) + Water(level, b)
  {
  }

  lemma WaterOfNothing(level: real)
    ensures Water(level, 0.0) == 0.0
  {
  }

  lemma WaterRises(level: real, higher: real, raw: real)
    requires level <= higher && 0.0 <= raw
    ensures Water(level, raw) <= Water(higher, raw)
  {
    MulMono(level, higher, raw);
  }

  predicate Distinct(names: seq<string>) {
    forall i, j :: 0 <= i < j < |names| ==> names[i] != names[j]
  }

  lemma {:induction false} TotalOfUnion(names: seq<string>, a: map<string, real>, b: map<string, real>)
    requires a.Keys !! b.Keys
    ensures Total(names, a + b) == Total(names, a) + Total(names, b)
  {
    if names == [] {
    } else {
      TotalOfUnion(names[..|names| - 1], a, b);
    }
  }

  lemma {:induction false} TotalOfScaled(names: seq<string>, a: map<string, real>, b: map<string, real>, k: real)
    requires a.Keys == b.Keys && forall s :: s in a ==> b[s] == Water(k, a[s])
    ensures Total(names, b) == Water(k, Total(names, a))
  {
    if names == [] {
    } else {
      var last := names[|names| - 1];
      WaterAdds(k, Total(names[..|names| - 1], a), if last in a then a[last] else 0.0);
      TotalOfScaled(names[..|names| - 1], a, b, k);
    }
  }

  lemma {:induction false} TotalPositive(names: seq<string>, m: map<string, real>)
    requires forall s :: s in m ==> m[s] > 0.0
    ensures Total(names, m) >= 0.0
    ensures (exists s :: s in names && s in m) ==> Total(names, m) > 0.0
  {
    if names == [] {
    } else {
      TotalPositive(names[..|names| - 1], m);
      assert names == names[..|names| - 1] + [names[|names| - 1]];
    }
  }

  /** Capping names whose share overflows frees budget: their caps add up to less than their shares. */
  lemma {:induction false} CapsBelowShares(names: seq<string>, caps: map<string, real>, m: map<string, real>, k: real)
    requires caps.Keys == m.Keys && forall s :: s in m ==> caps[s] < Water(k, m[s])
    ensures Total(names, caps) <= Water(k, Total(names, m))
    ensures (exists s :: s in names && s in m) ==> Total(names, caps) < Water(k, Total(names, m))
  {
    if names == [] {
    } else {
      var last := names[|names| - 1];
      WaterAdds(k, Total(names[..|names| - 1], m), if last in m then m[last] else 0.0);
      CapsBelowShares(names[..|names| - 1], caps, m, k);
      assert names == names[..|names| - 1] + [names[|names| - 1]];
    }
  }

  lemma {:induction false} TotalOfNothing(names: seq<string>)
    ensures Total(names, map[]) == 0.0
  {
    if names == [] {
    } else {
      TotalOfNothing(names[..|names| - 1]);
    }
  }

  /** What `n` names can hold together at a cap. */
  function Capacity(n: nat, cap: real): real { n as real * cap }

  lemma {:induction false} TotalOfConstant(names: seq<string>, m: map<string, real>, c: real)
    requires forall s :: s in names ==> s in m && m[s] == c
    ensures Total(names, m) == Capacity(|names|, c)
  {
    if names == [] {
    } else {
      TotalOfConstant(names[..|names| - 1], m, c);
    }
  }

  lemma {:induction false} TotalAtMost(names: seq<string>, m: map<string, real>, c: real)
    requires forall s :: s in names ==> s in m && m[s] <= c
    ensures Total(names, m) <= Capacity(|names|, c)
  {
    if names == [] {
    } else {
      TotalAtMost(names[..|names| - 1], m, c);
    }
  }

  /** What one name gets when water stands at a level. */
  function AtLevel(level: real, raw: real, cap: real): real {
    if Water(level, raw) > cap + TOLERANCE then cap else Water(level, raw)
  }

  /** An allocation filled to one common level. */
  predicate Filled(raw: map<string, real>, cap: real, weights: map<string, real>, level: real) {
    weights.Keys == raw.Keys && forall s :: s in raw ==> weights[s] == AtLevel(level, raw[s], cap)
  }

  /** A round's state: the names already capped overflow at the level reached so far, and what is left
      of the budget lifts the rest strictly above it. */
  ghost predicate Rising(names: seq<string>, raw: map<string, real>, cap: real, budget: real,
                         capped: map<string, real>, remaining: map<string, real>, level: real) {
    && cap > 0.0 && level >= 0.0
    && (forall s :: s in raw <==> s in names)
    && capped.Keys !! remaining.Keys && capped.Keys + remaining.Keys == raw.Keys
    && (forall s :: s in raw ==> raw[s] > 0.0)
    && (forall s :: s in remaining ==> remaining[s] == raw[s])
    && (forall s :: s in capped ==> capped[s] == cap && Water(level, raw[s]) > cap + TOLERANCE)
    && budget - Total(names, capped) > Water(level, Total(names, remaining))
  }

  /** A share of what is left is the level times the raw weight. */
  lemma ShareIsLevel(left: real, w: real, total: real)
    requires total > 0.0
    ensures Share(left, w, total) == Water(left / total, w)
  {
    var a, b := w / total, left / total;
    assert a * total == w && b * total == left;
    assert (a * left) * total == (b * w) * total by {
      assert (a * left) * total == (a * total) * left;
      assert (b * w) * total == (b * total) * w;
    }
    Cancel(a * left, b * w, total);
  }

  /** The level a round reaches is above every earlier one. */
  lemma LevelRises(left: real, total: real, level: real) returns (higher: real)
    requires total > 0.0 && level >= 0.0 && left > Water(level, total)
    ensures left > 0.0 && higher == left / total > level && Water(higher, total) == left
  {
    higher := left / total;
    if higher <= level {
      MulMono(higher, level, total);
    }
    MulNonNeg(level, total);
  }

  /** Capping the overflowing names leaves more than their shares' worth to the others. */
  lemma CappingFreesBudget(names: seq<string>, cap: real, budget: real, capped: map<string, real>,
                           remaining: map<string, real>, over: set<string>, level: real)
    requires over <= remaining.Keys && capped.Keys !! remaining.Keys
    requires budget - Total(names, capped) == Water(level, Total(names, remaining))
    requires forall s :: s in over ==> cap < Water(level, remaining[s])
    requires exists s :: s in names && s in over
    ensures budget - Total(names, capped + AllAt(over, cap)) > Water(level, Total(names, remaining - over))
  {
    var caps := AllAt(over, cap);
    var part := map s | s in over :: remaining[s];
    TotalOfUnion(names, capped, caps);
    assert part + (remaining - over) == remaining;
    TotalOfUnion(names, part, remaining - over);
    CapsBelowShares(names, caps, part, level);
    WaterAdds(level, Total(names, part), Total(names, remaining - over));
    hide Total, Water;
  }

  /** Capping the names that overflow at a higher level keeps a round's state. */
  lemma CappingKeepsRising(names: seq<string>, raw: map<string, real>, cap: real, budget: real,
                           capped: map<string, real>, remaining: map<string, real>, over: set<string>,
                           level: real, higher: real)
    requires Rising(names, raw, cap, budget, capped, remaining, level) && level < higher
    requires budget - Total(names, capped) == Water(higher, Total(names, remaining))
    requires over <= remaining.Keys && over != {}
    requires forall s :: s in over ==> Water(higher, remaining[s]) > cap + TOLERANCE
    ensures Rising(names, raw, cap, budget, capped + AllAt(over, cap), remaining - over, higher)
  {
    var first :| first in over;
    CappingFreesBudget(names, cap, budget, capped, remaining, over, higher);
    forall s | s in capped
      ensures Water(higher, raw[s]) > cap + TOLERANCE
    {
      WaterRises(level, higher, raw[s]);
    }
    hide Total, Water;
  }

  /** The level of a round: the rest of the budget over the rest of the raw weight, above every level before. */
  lemma RoundLevel(names: seq<string>, raw: map<string, real>, cap: real, budget: real,
                   capped: map<string, real>, remaining: map<string, real>, level: real)
    returns (higher: real)
    requires Rising(names, raw, cap, budget, capped, remaining, level) && |remaining| > 0
    ensures var total := Total(names, remaining);
            var left := budget - Total(names, capped);
            && total > 0.0 && left > 0.0 && higher == left / total > level >= 0.0 && Water(higher, total) == left
  {
    var some :| some in remaining;
    TotalPositive(names, remaining);
    higher := LevelRises(budget - Total(names, capped), Total(names, remaining), level);
  }

  lemma SharesAreLevel(remaining: map<string, real>, left: real, total: real)
    requires total > 0.0
    ensures forall s :: s in remaining ==> Shares(remaining, left, total)[s] == Water(left / total, remaining[s])
    ensures forall s :: s in remaining ==> Share(left, remaining[s], total) == Water(left / total, remaining[s])
  {
    forall s | s in remaining
      ensures Share(left, remaining[s], total) == Water(left / total, remaining[s])
    {
      ShareIsLevel(left, remaining[s], total);
    }
  }

  /** A round in which nobody overflows gives out all that is left, at its own level. */
  lemma LastRound(names: seq<string>, raw: map<string, real>, cap: real, budget: real, capped: map<string, real>,
                  remaining: map<string, real>, level: real, higher: real, shares: map<string, real>)
    requires Rising(names, raw, cap, budget, capped, remaining, level) && level < higher
    requires budget - Total(names, capped) == Water(higher, Total(names, remaining))
    requires shares.Keys == remaining.Keys
    requires forall s :: s in remaining ==> shares[s] == Water(higher, remaining[s]) <= cap + TOLERANCE
    ensures Filled(raw, cap, capped + shares, higher) && Total(names, capped + shares) == budget
  {
    TotalOfScaled(names, remaining, shares, higher);
    TotalOfUnion(names, capped, shares);
    forall s | s in capped
      ensures Water(higher, raw[s]) > cap + TOLERANCE
    {
      WaterRises(level, higher, raw[s]);
    }
    hide Total, Water;
  }

  lemma AllCapped(names: seq<string>, raw: map<string, real>, cap: real, budget: real,
                  capped: map<string, real>, remaining: map<string, real>, level: real)
    returns (final: real)
    requires Rising(names, raw, cap, budget, capped, remaining, level) && |remaining| == 0
    ensures final > level && Filled(raw, cap, capped, final) && Total(names, capped) < budget
  {
    final := level + 1.0;
    forall s | s in capped
      ensures Water(final, raw[s]) > cap + TOLERANCE
    {
      WaterRises(level, final, raw[s]);
    }
    assert remaining == map[];
    TotalOfNothing(names);
    WaterOfNothing(level);
    hide Total, Water;
  }

  /** What the rounds achieve: one level for all, and the whole budget given out unless even all caps
      together fall short of it. */
  ghost predicate Settled(names: seq<string>, raw: map<string, real>, cap: real, budget: real,
                          weights: map<string, real>, level: real) {
    && level > 0.0 && Filled(raw, cap, weights, level)
    && (Total(names, weights) == budget
        || (Total(names, weights) < budget && forall s :: s in raw ==> weights[s] == cap))
  }

  /** The rounds settle at a level at or above any level reached on the way; no round runs out of budget. */
  lemma {:induction false} FillSettles(names: seq<string>, raw: map<string, real>, cap: real, budget: real,
                                       capped: map<string, real>, remaining: map<string, real>, level: real)
    returns (final: real)
    requires Rising(names, raw, cap, budget, capped, remaining, level)
    ensures final > level && Settled(names, raw, cap, budget, Fill(names, cap, budget, capped, remaining), final)
    decreases |remaining|
  {
    if |remaining| == 0 {
      final := AllCapped(names, raw, cap, budget, capped, remaining, level);
    } else {
      final := RoundSettles(names, raw, cap, budget, capped, remaining, level);
    }
  }

  /** What a round with budget to give out comes down to. */
  lemma FillRound(names: seq<string>, cap: real, budget: real, capped: map<string, real>, remaining: map<string, real>)
    requires |remaining| > 0 && Total(names, remaining) > 0.0 && budget - Total(names, capped) > 0.0
    ensures var left, total := budget - Total(names, capped), Total(names, remaining);
            var over := Over(remaining, left, total, cap);
            Fill(names, cap, budget, capped, remaining) ==
              if over == {} then capped + Shares(remaining, left, total)
              else Fill(names, cap, budget, capped + AllAt(over, cap), remaining - over)
  {
  }

  lemma {:induction false} RoundSettles(names: seq<string>, raw: map<string, real>, cap: real, budget: real,
                                        capped: map<string, real>, remaining: map<string, real>, level: real)
    returns (final: real)
    requires Rising(names, raw, cap, budget, capped, remaining, level) && |remaining| > 0
    ensures final > level && Settled(names, raw, cap, budget, Fill(names, cap, budget, capped, remaining), final)
    decreases |remaining|, 0
  {
    var higher := RoundLevel(names, raw, cap, budget, capped, remaining, level);
    var left, total := budget - Total(names, capped), Total(names, remaining);
    var over := Over(remaining, left, total, cap);
    SharesAreLevel(remaining, left, total);
    FillRound(names, cap, budget, capped, remaining);
    if over == {} {
      var shares := Shares(remaining, left, total);
      assert forall s :: s in remaining ==> s !in over;
      LastRound(names, raw, cap, budget, capped, remaining, level, higher, shares);
      final := higher;
    } else {
      Fewer(remaining, over);
      CappingKeepsRising(names, raw, cap, budget, capped, remaining, over, level, higher);
      final := FillSettles(names, raw, cap, budget, capped + AllAt(over, cap), remaining - over, higher);
    }
    hide Total, Share, Water, Rising, Filled, Fill;
  }

  /** The allocation loop: caps whatever overflows and recycles the rest until nothing overflows. */
  method Recycle(names: seq<string>, raw: map<string, real>, cap: real,
                 budget: real) returns (capped: map<string, real>)
    ensures capped == Fill(names, cap, budget, map[], raw)
  {
    capped := map[];
    var remaining := raw;
    while |remaining| > 0
      invariant Fill(names, cap, budget, capped, remaining) == Fill(names, cap, budget, map[], raw)
      decreases |remaining|
    {
      var total := Total(names, remaining);
      var left := budget - Total(names, capped);
      if left <= 0.0 || total <= 0.0 {
        break;
      }
      var newlyCapped := Over(remaining, left, total, cap);
      if newlyCapped == {} {
        capped := capped + Shares(remaining, left, total);
        break;
      }
      Fewer(remaining, newlyCapped);
      FillRound(names, cap, budget, capped, remaining);
      capped := capped + AllAt(newlyCapped, cap);
      remaining := remaining - newlyCapped;
    }
  }
}
