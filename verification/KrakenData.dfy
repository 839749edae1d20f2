/** From exchange pages to an aligned price grid: paging with a cursor, merging sources, and laying every
    symbol on one regular grid with forward fill. */
module KrakenData {
  import opened Prelude

  datatype Quote = Quote(ts: int, bar: Bar)

  type Series = map<int, Bar>

  /** An exchange may answer differently each time it is asked: the call's number and the cursor. */
  type Exchange = (nat, int) -> seq<Quote>

  // ---------------------------------------------------------------- paging

  /** The bars of a batch up to the end, put into what is there; the last of equal times stays. */
  function Kept(out: Series, batch: seq<Quote>, until: int): Series {
    if batch == [] then out
    else
      var last := batch[|batch| - 1];
      var before := Kept(out, batch[..|batch| - 1], until);
      if last.ts <= until then before[last.ts := last.bar] else before
  }

  /** The pages from a cursor on. */
  function Paged(ask: Exchange, calls: nat, cursor: int, until: int, step: nat, out: Series): Series
    requires 0 < step
    decreases until - cursor
  {
    if cursor >= until then out
    else
      var batch := ask(calls, cursor);
      if batch == [] then out
      else
        var lastTs := batch[|batch| - 1].ts;
        if lastTs < cursor + step then Kept(out, batch, until)
        else Paged(ask, calls + 1, lastTs + step, until, step, Kept(out, batch, until))
  }

  /** Terminates whatever the exchange answers: a page without progress ends the loop. */
  method FetchOhlcvPaged(ask: Exchange, since: int, until: int, step: nat) returns (out: Series)
    requires 0 < step
    ensures out == Paged(ask, 0, since, until, step, map[])
  {
    out := map[];
    var cursor := since;
    var calls := 0;
    while cursor < until
      invariant Paged(ask, calls, cursor, until, step, out) == Paged(ask, 0, since, until, step, map[])
      decreases until - cursor
    {
      var batch := ask(calls, cursor);
      if |batch| == 0 {
        break;
      }
      ghost var before := out;
      for i := 0 to |batch|
        invariant out == Kept(before, batch[..i], until)
      {
        assert batch[..i + 1][..i] == batch[..i];
        if batch[i].ts <= until {
          out := out[batch[i].ts := batch[i].bar];
        }
      }
      assert batch[..|batch|] == batch;
      var lastTs := batch[|batch| - 1].ts;
      if lastTs < cursor + step {
        break;
      }
      cursor := lastTs + step;
      calls := calls + 1;
    }
  }

  /** A market's bars: ascending, at least a step apart. Gaps are allowed. */
  predicate Spaced(bars: seq<Quote>, step: nat) {
    forall i, j :: 0 <= i < j < |bars| ==> bars[i].ts + step <= bars[j].ts
  }

  /** How many bars lie before a time. */
  function Before(bars: seq<Quote>, ts: int): (n: nat)
    ensures n <= |bars|
  {
    if bars == [] then 0
    else if bars[|bars| - 1].ts < ts then |bars|
    else Before(bars[..|bars| - 1], ts)
  }

  /** A page holds the next bars from the cursor on, at least two of them while there are two. */
  predicate NextBars(batch: seq<Quote>, bars: seq<Quote>, ts: int) {
    var k := Before(bars, ts);
    k + |batch| <= |bars| && batch == bars[k..k + |batch|] && |batch| >= Min(2, |bars| - k)
  }

  ghost predicate Honest(ask: Exchange, bars: seq<Quote>) { forall n, ts :: NextBars(ask(n, ts), bars, ts) }

  lemma {:induction false} BeforeSplits(bars: seq<Quote>, ts: int, step: nat)
    requires Spaced(bars, step)
    ensures forall i :: 0 <= i < |bars| ==> (bars[i].ts < ts <==> i < Before(bars, ts))
  {
    if bars == [] {
    } else if bars[|bars| - 1].ts >= ts {
      BeforeSplits(bars[..|bars| - 1], ts, step);
    }
  }

  lemma {:induction false} KeptOfCat(out: Series, a: seq<Quote>, b: seq<Quote>, until: int)
    ensures Kept(out, a + b, until) == Kept(Kept(out, a, until), b, until)
  {
    if b == [] {
      assert a + b == a;
    } else {
      KeptOfCat(out, a, b[..|b| - 1], until);
      assert (a + b)[..|a + b| - 1] == a + b[..|b| - 1];
    }
  }

  /** An honest page moves the cursor past exactly the bars it holds, or is the last. */
  lemma PageAdvances(bars: seq<Quote>, batch: seq<Quote>, cursor: int, step: nat)
    requires 0 < step && Spaced(bars, step) && NextBars(batch, bars, cursor) && batch != []
    ensures var k := Before(bars, cursor);
            var lastTs := batch[|batch| - 1].ts;
            if lastTs < cursor + step then k + |batch| == |bars| else Before(bars, lastTs + step) == k + |batch|
  {
    var k, n := Before(bars, cursor), |batch|;
    BeforeSplits(bars, cursor, step);
    var lastTs := batch[n - 1].ts;
    assert bars[k + n - 1].ts == lastTs && bars[k].ts >= cursor;
    assert n >= 2 ==> bars[k].ts + step <= bars[k + n - 1].ts;
    if lastTs >= cursor + step {
      BeforeSplits(bars, lastTs + step, step);
      assert k + n < |bars| ==> bars[k + n - 1].ts + step <= bars[k + n].ts;
    }
  }

  lemma HonestPage(ask: Exchange, bars: seq<Quote>, n: nat, ts: int)
    requires Honest(ask, bars)
    ensures NextBars(ask(n, ts), bars, ts)
  {
  }

  /** The pages of an honest exchange add up to one stretch of its bars, up to the end asked for. */
  lemma {:induction false} PagesAreAStretch(ask: Exchange, bars: seq<Quote>, calls: nat, cursor: int, until: int,
                                            step: nat, a: nat) returns (e: nat)
    requires 0 < step && Spaced(bars, step) && Honest(ask, bars) && a <= Before(bars, cursor)
    ensures a <= e <= |bars| && (forall i :: e <= i < |bars| ==> bars[i].ts >= until)
    ensures Paged(ask, calls, cursor, until, step, Kept(map[], bars[a..Before(bars, cursor)], until))
         == Kept(map[], bars[a..e], until)
    decreases until - cursor
  {
    hide Honest, Kept, Spaced;
    var k := Before(bars, cursor);
    BeforeSplits(bars, cursor, step);
    if cursor >= until {
      e := k;
    } else {
      var batch := ask(calls, cursor);
      HonestPage(ask, bars, calls, cursor);
      if batch == [] {
        e := |bars|;
      } else {
        PageAdvances(bars, batch, cursor, step);
        KeptOfCat(map[], bars[a..k], batch, until);
        assert bars[a..k] + batch == bars[a..k + |batch|];
        var lastTs := batch[|batch| - 1].ts;
        if lastTs < cursor + step {
          e := k + |batch|;
        } else {
          e := PagesAreAStretch(ask, bars, calls + 1, lastTs + step, until, step, a);
        }
      }
    }
  }

  /** Each ascending bar up to the end is kept with its own values. */
  lemma {:induction false} KeptHas(bars: seq<Quote>, until: int, step: nat, i: nat)
    requires 0 < step && Spaced(bars, step) && i < |bars| && bars[i].ts <= until
    ensures bars[i].ts in Kept(map[], bars, until) && Kept(map[], bars, until)[bars[i].ts] == bars[i].bar
  {
    if i < |bars| - 1 {
      KeptHas(bars[..|bars| - 1], until, step, i);
      assert bars[i].ts + step <= bars[|bars| - 1].ts;
    }
  }

  /** Nothing else is kept. */
  lemma {:induction false} KeptOnly(bars: seq<Quote>, until: int, ts: int) returns (i: nat)
    requires ts in Kept(map[], bars, until)
    ensures ts <= until && i < |bars| && bars[i].ts == ts
  {
    if ts in Kept(map[], bars[..|bars| - 1], until) {
      i := KeptOnly(bars[..|bars| - 1], until, ts);
    } else {
      i := |bars| - 1;
    }
  }

  lemma KeptNothing(until: int)
    ensures Kept(map[], [], until) == map[]
  {
  }

  lemma PartOfSpaced(bars: seq<Quote>, a: nat, e: nat, step: nat)
    requires a <= e <= |bars| && Spaced(bars, step)
    ensures Spaced(bars[a..e], step) && forall i :: 0 <= i < e - a ==> bars[a..e][i] == bars[a + i]
  {
  }

  /** Paging an honest exchange collects every bar in `[since, until)` with its values, and nothing
      outside `[since, until]`. */
  lemma HonestPagingIsComplete(ask: Exchange, bars: seq<Quote>, since: int, until: int, step: nat)
    requires 0 < step && Spaced(bars, step) && Honest(ask, bars)
    ensures var out := Paged(ask, 0, since, until, step, map[]);
            && (forall i :: 0 <= i < |bars| && since <= bars[i].ts < until ==>
                  bars[i].ts in out && out[bars[i].ts] == bars[i].bar)
            && (forall ts :: ts in out ==> since <= ts <= until && exists i :: 0 <= i < |bars| && bars[i].ts == ts)
  {
    hide Honest, Spaced, Kept, Paged, Before;
    var a := Before(bars, since);
    BeforeSplits(bars, since, step);
    assert bars[a..a] == [] && Kept(map[], [], until) == map[] by { KeptNothing(until); }
    var e := PagesAreAStretch(ask, bars, 0, since, until, step, a);
    var part := bars[a..e];
    PartOfSpaced(bars, a, e, step);
    var out := Kept(map[], part, until);
    forall i | 0 <= i < |bars| && since <= bars[i].ts < until
      ensures bars[i].ts in out && out[bars[i].ts] == bars[i].bar
    {
      assert part[i - a] == bars[i];
      KeptHas(part, until, step, i - a);
    }
    forall ts | ts in out
      ensures since <= ts <= until && exists i :: 0 <= i < |bars| && bars[i].ts == ts
    {
      var i := KeptOnly(part, until, ts);
      assert bars[a + i].ts == ts;
    }
  }

  /** Pages of a single bar are too short: the first one, if it falls in the first step, ends the loop. */
  lemma OneBarPagesStop(ask: Exchange, first: Quote, since: int, until: int, step: nat)
    requires 0 < step && since < until && ask(0, since) == [first] && since <= first.ts < since + step
    ensures Paged(ask, 0, since, until, step, map[]) == if first.ts <= until then map[first.ts := first.bar] else map[]
  {
    assert [first][..0] == [];
    assert Kept(map[], [first], until) == if first.ts <= until then map[first.ts := first.bar] else map[];
  }

  // ---------------------------------------------------------------- merging

  function BarsOf(source: map<string, Series>, sym: string): Series { if sym in source then source[sym] else map[] }

  /** The bar of the last source that has one. */
  function LastBar(sources: seq<map<string, Series>>, sym: string, ts: int): Option<Bar> {
    if sources == [] then None
    else
      var last := sources[|sources| - 1];
      if ts in BarsOf(last, sym) then Some(last[sym][ts]) else LastBar(sources[..|sources| - 1], sym, ts)
  }

  predicate Named(sources: seq<map<string, Series>>, sym: string) {
    exists i :: 0 <= i < |sources| && sym in sources[i]
  }

  function BarAt(bars: Series, ts: int): Option<Bar> { if ts in bars then Some(bars[ts]) else None }

  /** Later sources win, bar by bar. */
  ghost predicate IsMerge(out: map<string, Series>, sources: seq<map<string, Series>>) {
    && (forall sym :: sym in out <==> Named(sources, sym))
    && forall sym, ts :: BarAt(BarsOf(out, sym), ts) == LastBar(sources, sym, ts)
  }

  function Merged(before: map<string, Series>, source: map<string, Series>, sym: string, updated: bool): Series
    requires updated ==> sym in source
  {
    if updated then BarsOf(before, sym) + source[sym] else BarsOf(before, sym)
  }

  method MergeSeries(sources: seq<map<string, Series>>) returns (out: map<string, Series>)
    ensures IsMerge(out, sources)
  {
    out := map[];
    for i := 0 to |sources|
      invariant IsMerge(out, sources[..i])
    {
      ghost var before := out;
      var source := sources[i];
      var todo := source.Keys;
      while todo != {}
        invariant todo <= source.Keys
        invariant forall sym :: sym in out <==> sym in before || (sym in source && sym !in todo)
        invariant forall sym :: sym in out ==> out[sym] == Merged(before, source, sym, sym in source && sym !in todo)
        decreases |todo|
      {
        var sym :| sym in todo;
        out := out[sym := BarsOf(out, sym) + source[sym]];
        todo := todo - {sym};
      }
      OneMoreSource(out, before, sources[..i], source);
      assert sources[..i] + [source] == sources[..i + 1];
    }
    assert sources[..|sources|] == sources;
  }

  lemma OneMoreSource(out: map<string, Series>, before: map<string, Series>, sources: seq<map<string, Series>>,
                      source: map<string, Series>)
    requires IsMerge(before, sources)
    requires forall sym :: sym in out <==> sym in before || sym in source
    requires forall sym :: sym in out ==> out[sym] == Merged(before, source, sym, sym in source)
    ensures IsMerge(out, sources + [source])
  {
    forall sym
      ensures sym in out <==> Named(sources + [source], sym)
    {
      NamedInMore(sources, source, sym);
    }
    forall sym, ts
      ensures BarAt(BarsOf(out, sym), ts) == LastBar(sources + [source], sym, ts)
    {
      LastBarOfMore(sources, source, sym, ts);
      assert BarAt(BarsOf(before, sym), ts) == LastBar(sources, sym, ts);
      MergedAt(before, source, sym, ts);
      hide Merged, LastBar, Named;
    }
  }

  lemma NamedInMore(sources: seq<map<string, Series>>, source: map<string, Series>, sym: string)
    ensures Named(sources + [source], sym) <==> Named(sources, sym) || sym in source
  {
    var all := sources + [source];
    if Named(sources, sym) {
      var i :| 0 <= i < |sources| && sym in sources[i];
      assert sym in all[i];
    }
    if sym in source {
      assert sym in all[|sources|];
    }
  }

  lemma LastBarOfMore(sources: seq<map<string, Series>>, source: map<string, Series>, sym: string, ts: int)
    ensures LastBar(sources + [source], sym, ts) ==
            if ts in BarsOf(source, sym) then Some(source[sym][ts]) else LastBar(sources, sym, ts)
  {
  }

  lemma MergedAt(before: map<string, Series>, source: map<string, Series>, sym: string, ts: int)
    ensures BarAt(Merged(before, source, sym, sym in source), ts) ==
            if ts in BarsOf(source, sym) then Some(source[sym][ts]) else BarAt(BarsOf(before, sym), ts)
  {
  }

  // ---------------------------------------------------------------- alignment

  const ZERO_BAR := Bar(0.0, 0.0, 0.0, 0.0, 0.0)

  function Flat(close: real): Bar { Bar(close, close, close, close, 0.0) }

  function GridTs(first: int, step: nat, k: nat): int { first + k * step }

  /** The last grid index up to `k` at which there is a bar. */
  function Latest(bars: Series, first: int, step: nat, k: nat): Option<nat> {
    if GridTs(first, step, k) in bars then Some(k)
    else if k == 0 then None
    else Latest(bars, first, step, k - 1)
  }

  /** The bar of a grid cell: the real one, else flat at the latest earlier close, else zeros. */
  function Aligned(bars: Series, first: int, step: nat, k: nat): Bar {
    match Latest(bars, first, step, k)
    case None => ZERO_BAR
    case Some(j) =>
      LatestIsBar(bars, first, step, k);
      if j == k then bars[GridTs(first, step, k)] else Flat(bars[GridTs(first, step, j)].close)
  }

  /** The latest index is the greatest one with a bar; there is none exactly when no earlier grid point has one. */
  lemma {:induction false} LatestIsBar(bars: Series, first: int, step: nat, k: nat)
    ensures Latest(bars, first, step, k).Some? ==>
              var j := Latest(bars, first, step, k).value;
              && j <= k && GridTs(first, step, j) in bars
              && (forall i :: j < i <= k ==> GridTs(first, step, i) !in bars)
    ensures Latest(bars, first, step, k).None? <==> forall i :: 0 <= i <= k ==> GridTs(first, step, i) !in bars
  {
    if GridTs(first, step, k) !in bars && k > 0 {
      LatestIsBar(bars, first, step, k - 1);
    }
  }

  lemma SomeMember(keys: set<int>)
    requires keys != {}
    ensures exists k :: k in keys
  {
    assert (forall k :: k !in keys) ==> keys == {};
  }

  method LeastKey(bars: Series) returns (least: int)
    requires bars != map[]
    ensures least in bars && forall k :: k in bars ==> least <= k
  {
    var todo := bars.Keys;
    assert todo == {} ==> bars == map[];
    SomeMember(todo);
    least :| least in todo;
    while todo != {}
      invariant todo <= bars.Keys && least in bars
      invariant forall k :: k in bars && k !in todo ==> least <= k
      decreases |todo|
    {
      SomeMember(todo);
      var k :| k in todo;
      if k < least {
        least := k;
      }
      todo := todo - {k};
    }
  }

  method GreatestKey(bars: Series) returns (greatest: int)
    requires bars != map[]
    ensures greatest in bars && forall k :: k in bars ==> k <= greatest
  {
    var todo := bars.Keys;
    assert todo == {} ==> bars == map[];
    SomeMember(todo);
    greatest :| greatest in todo;
    while todo != {}
      invariant todo <= bars.Keys && greatest in bars
      invariant forall k :: k in bars && k !in todo ==> k <= greatest
      decreases |todo|
    {
      SomeMember(todo);
      var k :| k in todo;
      if k > greatest {
        greatest := k;
      }
      todo := todo - {k};
    }
  }

  predicate IsLeast(bars: Series, k: int) { k in bars && forall j :: j in bars ==> k <= j }

  predicate IsGreatest(bars: Series, k: int) { k in bars && forall j :: j in bars ==> j <= k }

  /** The symbols that have bars, in order. */
  function Present(series: map<string, Series>, symbols: seq<string>): (r: seq<string>)
    ensures forall s :: s in r <==> s in symbols && BarsOf(series, s) != map[]
  {
    if symbols == [] then []
    else
      Present(series, symbols[..|symbols| - 1])
      + if BarsOf(series, symbols[|symbols| - 1]) != map[] then [symbols[|symbols| - 1]] else []
  }

  /** The latest of the first bars and the earliest of the last. */
  ghost predicate Overlap(series: map<string, Series>, present: seq<string>, first: int, last: int) {
    && (exists i :: 0 <= i < |present| && IsLeast(BarsOf(series, present[i]), first))
    && (exists i :: 0 <= i < |present| && IsGreatest(BarsOf(series, present[i]), last))
    && (forall i, k :: 0 <= i < |present| && IsLeast(BarsOf(series, present[i]), k) ==> k <= first)
    && (forall i, k :: 0 <= i < |present| && IsGreatest(BarsOf(series, present[i]), k) ==> last <= k)
  }

  lemma OverlapOfOne(series: map<string, Series>, sym: string, first: int, last: int)
    requires IsLeast(BarsOf(series, sym), first) && IsGreatest(BarsOf(series, sym), last)
    ensures Overlap(series, [sym], first, last)
  {
    assert [sym][0] == sym;
  }

  method Bounds(series: map<string, Series>, present: seq<string>) returns (first: int, last: int)
    requires present != [] && forall s :: s in present ==> BarsOf(series, s) != map[]
    ensures Overlap(series, present, first, last)
  {
    hide Overlap;
    first := LeastKey(BarsOf(series, present[0]));
    last := GreatestKey(BarsOf(series, present[0]));
    OverlapOfOne(series, present[0], first, last);
    assert present[..1] == [present[0]];
    for i := 1 to |present|
      invariant Overlap(series, present[..i], first, last)
    {
      var low := LeastKey(BarsOf(series, present[i]));
      var high := GreatestKey(BarsOf(series, present[i]));
      Widen(series, present[..i], first, last, present[i], low, high);
      assert present[..i] + [present[i]] == present[..i + 1];
      first := Max(first, low);
      last := Min(last, high);
    }
    assert present[..|present|] == present;
  }

  lemma Widen(series: map<string, Series>, present: seq<string>, first: int, last: int, sym: string, low: int,
              high: int)
    requires Overlap(series, present, first, last)
    requires IsLeast(BarsOf(series, sym), low) && IsGreatest(BarsOf(series, sym), high)
    ensures Overlap(series, present + [sym], Max(first, low), Min(last, high))
  {
    var all := present + [sym];
    assert all[|present|] == sym;
    var i :| 0 <= i < |present| && IsLeast(BarsOf(series, present[i]), first);
    assert all[i] == present[i];
    var j :| 0 <= j < |present| && IsGreatest(BarsOf(series, present[j]), last);
    assert all[j] == present[j];
  }

  /** The grid's length: the points from the first to the last, the last one rounded up to a whole step. */
  function GridLength(first: int, last: int, step: nat): (n: nat)
    requires 0 < step && first <= last
    ensures 0 < n
  {
    (last - first + step - 1) / step + 1
  }

  /** The carried bar closes where the latest bar before `k` closed; there is none if there was none. */
  predicate Carries(bars: Series, first: int, step: nat, k: nat, lastBar: Option<Bar>) {
    if k == 0 then lastBar == None
    else
      var j := Latest(bars, first, step, k - 1);
      && (j.None? <==> lastBar.None?)
      && (j.Some? ==>
            && GridTs(first, step, j.value) in bars
            && lastBar.value.close == bars[GridTs(first, step, j.value)].close)
  }

  lemma CarryNothing(bars: Series, first: int, step: nat)
    ensures Carries(bars, first, step, 0, None)
  {
  }

  lemma CarryOn(bars: Series, first: int, step: nat, k: nat, lastBar: Option<Bar>)
    requires Carries(bars, first, step, k, lastBar)
    ensures var bar := if GridTs(first, step, k) in bars then Some(bars[GridTs(first, step, k)])
                       else if lastBar.Some? then Some(Flat(lastBar.value.close))
                       else None;
            && Aligned(bars, first, step, k) == (if bar.Some? then bar.value else ZERO_BAR)
            && Carries(bars, first, step, k + 1, if bar.Some? then bar else lastBar)
  {
  }

  /** Writes one symbol's column, carrying the last bar forward. */
  method FillColumn(prices: array2<Bar>, si: nat, bars: Series, first: int, step: nat)
    requires si < prices.Length1 && forall k :: 0 <= k < prices.Length0 ==> prices[k, si] == ZERO_BAR
    modifies prices
    ensures forall k :: 0 <= k < prices.Length0 ==> prices[k, si] == Aligned(bars, first, step, k)
    ensures forall k, s :: 0 <= k < prices.Length0 && 0 <= s < prices.Length1 && s != si ==>
              prices[k, s] == old(prices[k, s])
  {
    hide Aligned, Carries, GridTs;
    var lastBar: Option<Bar> := None;
    CarryNothing(bars, first, step);
    for ti := 0 to prices.Length0
      invariant Carries(bars, first, step, ti, lastBar)
      invariant forall k :: 0 <= k < ti ==> prices[k, si] == Aligned(bars, first, step, k)
      invariant forall k :: ti <= k < prices.Length0 ==> prices[k, si] == ZERO_BAR
      invariant forall k, s :: 0 <= k < prices.Length0 && 0 <= s < prices.Length1 && s != si ==>
                  prices[k, s] == old(prices[k, s])
    {
      CarryOn(bars, first, step, ti, lastBar);
      var bar := if GridTs(first, step, ti) in bars then Some(bars[GridTs(first, step, ti)])
                 else if lastBar.Some? then Some(Flat(lastBar.value.close))
                 else None;
      if bar.Some? {
        prices[ti, si] := bar.value;
        lastBar := bar;
      }
    }
  }

  /** A table with one row per grid point, one column per symbol. */
  method AlignToGrid(series: map<string, Series>, symbols: seq<string>, step: nat)
    returns (r: Result<seq<string>>, ghost first: int, ghost last: int, prices: array2<Bar>)
    requires 0 < step
    ensures fresh(prices)
    ensures Present(series, symbols) != [] ==> Overlap(series, Present(series, symbols), first, last)
    ensures r.Ok? <==> Present(series, symbols) != [] && first <= last
    ensures r.Ok? ==>
              && r.value == Present(series, symbols)
              && prices.Length0 == GridLength(first, last, step) && prices.Length1 == |r.value|
              && forall k, s :: 0 <= k < prices.Length0 && 0 <= s < prices.Length1 ==>
                   prices[k, s] == Aligned(BarsOf(series, r.value[s]), first, step, k)
    ensures r.Ok? ==> 0 < prices.Length0
                      && (GridTs(first, step, prices.Length0 - 1) == last <==> (last - first) % step == 0)
    ensures r.Ok? ==> forall s :: 0 <= s < prices.Length1 && PositiveCloses(BarsOf(series, r.value[s])) ==>
                        (first in BarsOf(series, r.value[s]) <==> forall k :: 0 <= k < prices.Length0 ==> 0.0 < prices[k, s].close)
  {
    hide Aligned, Carries, GridTs, Overlap, GridLength, PositiveCloses;
    prices := new Bar[0, 0];
    var present := Present(series, symbols);
    if present == [] {
      first, last := 0, 0;
      return Err("no symbol has any bars to align"), first, last, prices;
    }
    var lo, hi := Bounds(series, present);
    first, last := lo, hi;
    if hi < lo {
      return Err("symbols do not overlap in time"), first, last, prices;
    }
    var nt := GridLength(lo, hi, step);
    prices := new Bar[nt, |present|]((_, _) => ZERO_BAR);
    for si := 0 to |present|
      invariant fresh(prices) && prices.Length0 == nt && prices.Length1 == |present|
      invariant forall k, s :: 0 <= k < nt && 0 <= s < si ==>
                  prices[k, s] == Aligned(BarsOf(series, present[s]), lo, step, k)
      invariant forall k, s :: 0 <= k < nt && si <= s < |present| ==> prices[k, s] == ZERO_BAR
    {
      FillColumn(prices, si, BarsOf(series, present[si]), lo, step);
    }
    r := Ok(present);
    GridSpans(lo, hi, step);
    forall s | 0 <= s < |present| && PositiveCloses(BarsOf(series, present[s]))
      ensures lo in BarsOf(series, present[s]) <==> forall k :: 0 <= k < nt ==> 0.0 < prices[k, s].close
    {
      ColumnIsCovered(BarsOf(series, present[s]), lo, step, nt);
    }
  }

  /** The caller's series fix the range: two overlaps of them are one. */
  lemma OverlapIsUnique(series: map<string, Series>, present: seq<string>, first: int, last: int, first': int, last': int)
    requires Overlap(series, present, first, last) && Overlap(series, present, first', last')
    ensures first == first' && last == last'
  {
  }

  /** The grid starts at the first common time and ends at or after the last, by less than a step: exactly at
      it when the range is a whole number of steps, and only then. */
  lemma GridSpans(first: int, last: int, step: nat)
    requires 0 < step && first <= last
    ensures GridTs(first, step, 0) == first
    ensures last <= GridTs(first, step, GridLength(first, last, step) - 1) < last + step
    ensures GridTs(first, step, GridLength(first, last, step) - 1) == last <==> (last - first) % step == 0
  {
    var n := GridLength(first, last, step) - 1;
    var d := last - first + step - 1;
    assert n == d / step && d == step * (d / step) + d % step;
    assert n * step == step * (d / step);
    WholeSteps(last - first, step, n);
  }

  lemma WholeSteps(span: nat, step: nat, n: nat)
    requires 0 < step && span <= n * step < span + step
    ensures n * step == span <==> span % step == 0
  {
    var q, r := span / step, span % step;
    assert span == q * step + r;
    if n * step == span {
      assert (n - q) * step == r;
      FewerThanOne(n - q, step);
    } else if r == 0 {
      assert (n - q) * step == n * step - span;
      FewerThanOne(n - q, step);
    }
  }

  /** A multiple inside one step is none at all. */
  lemma FewerThanOne(k: int, step: nat)
    requires 0 <= k * step < step
    ensures k == 0
  {
  }

  /** A bar at one price and without volume. */
  function Unmoved(bar: Bar): Bar { Bar(bar.close, bar.close, bar.close, bar.close, 0.0) }

  /** A symbol has a bar on the grid at or before a cell. */
  ghost predicate Covered(bars: Series, first: int, step: nat, k: nat) {
    exists j: nat :: j <= k && GridTs(first, step, j) in bars
  }

  /** A cell without such a bar is zeros, whatever bars the symbol has before the grid or beside it; any other
      cell is a bar of the symbol or flat at the close of one. */
  lemma CellIsCovered(bars: Series, first: int, step: nat, k: nat)
    ensures !Covered(bars, first, step, k) ==> Aligned(bars, first, step, k) == Bar(0.0, 0.0, 0.0, 0.0, 0.0)
    ensures Covered(bars, first, step, k) ==>
              exists ts :: ts in bars && Aligned(bars, first, step, k) in {bars[ts], Unmoved(bars[ts])}
  {
    LatestIsBar(bars, first, step, k);
    hide GridTs;
  }

  /** Every cell of a column. */
  ghost predicate AllCovered(bars: Series, first: int, step: nat, n: nat) {
    forall k: nat :: k < n ==> Covered(bars, first, step, k)
  }

  predicate PositiveCloses(bars: Series) { forall ts :: ts in bars ==> 0.0 < bars[ts].close }

  /** No cell of a symbol's column is left without a bar exactly when the symbol has one at the grid's start;
      for positive closes those are the columns whose every close is positive. */
  lemma ColumnIsCovered(bars: Series, first: int, step: nat, n: nat)
    requires 0 < n
    ensures AllCovered(bars, first, step, n) <==> first in bars
    ensures PositiveCloses(bars) ==>
              ((forall k: nat :: k < n ==> 0.0 < Aligned(bars, first, step, k).close) <==> first in bars)
  {
    assert GridTs(first, step, 0) == first;
    forall k: nat
      ensures first in bars ==> Covered(bars, first, step, k)
      ensures PositiveCloses(bars) ==> (0.0 < Aligned(bars, first, step, k).close <==> Covered(bars, first, step, k))
    {
      CellIsCovered(bars, first, step, k);
    }
    assert Covered(bars, first, step, 0) <==> first in bars;
    hide Aligned, GridTs;
  }

  /** What the aligner promises of its range, for the series it is given: the grid spans the first to the last
      common time exactly when they are whole steps apart, and every symbol covers the whole of it exactly
      when every symbol has a bar at the first. */
  lemma AlignmentKeepsItsPromise(series: map<string, Series>, symbols: seq<string>, step: nat, first: int, last: int)
    requires 0 < step && Overlap(series, Present(series, symbols), first, last) && first <= last
    ensures var kept, n := Present(series, symbols), GridLength(first, last, step);
            && (GridTs(first, step, n - 1) == last <==> (last - first) % step == 0)
            && (forall s :: s in kept ==>
                  (AllCovered(BarsOf(series, s), first, step, n) <==> first in BarsOf(series, s)))
  {
    GridSpans(first, last, step);
    forall s | s in Present(series, symbols)
      ensures AllCovered(BarsOf(series, s), first, step, GridLength(first, last, step)) <==> first in BarsOf(series, s)
    {
      ColumnIsCovered(BarsOf(series, s), first, step, GridLength(first, last, step));
    }
    hide AllCovered, GridTs, Overlap, GridLength;
  }

  // ---------------------------------------------------------------- where the promise is broken

  /** One symbol has bars at 0 and 2, the other at 1 and 2 steps. */
  function Holed(step: nat): map<string, Series> {
    map["A" := map[0 := Flat(1.0), 2 * step := Flat(1.0)], "B" := map[step := Flat(1.0), 2 * step := Flat(1.0)]]
  }

  lemma BothPresent(step: nat)
    ensures Present(Holed(step), ["A", "B"]) == ["A", "B"]
  {
    assert ["A", "B"][..1] == ["A"] && ["A"][..0] == [];
    assert 0 in BarsOf(Holed(step), "A") && step in BarsOf(Holed(step), "B");
    assert Present(Holed(step), ["A"]) == ["A"];
  }

  /** The grid runs from one step to two, both symbols are kept, and the first price of the first is zeros. */
  lemma HoleAtTheStart(step: nat)
    requires 0 < step
    ensures Present(Holed(step), ["A", "B"]) == ["A", "B"] && Overlap(Holed(step), ["A", "B"], step, 2 * step)
    ensures Aligned(BarsOf(Holed(step), "A"), step, step, 0) == ZERO_BAR
    ensures Aligned(BarsOf(Holed(step), "B"), step, step, 0) == Flat(1.0)
  {
    hide Overlap, Present;
    BothPresent(step);
    HoledEnds(step);
    OverlapOfOne(Holed(step), "A", 0, 2 * step);
    Widen(Holed(step), ["A"], 0, 2 * step, "B", step, 2 * step);
    assert ["A"] + ["B"] == ["A", "B"];
    assert GridTs(step, step, 0) == step;
  }

  lemma HoledEnds(step: nat)
    requires 0 < step
    ensures IsLeast(BarsOf(Holed(step), "A"), 0) && IsGreatest(BarsOf(Holed(step), "A"), 2 * step)
    ensures IsLeast(BarsOf(Holed(step), "B"), step) && IsGreatest(BarsOf(Holed(step), "B"), 2 * step)
  {
  }

  /** A symbol whose last bar is half a step off the grid: the grid's second and last point is later. */
  lemma GridPassesTheLastBar(half: nat)
    requires 0 < half
    ensures var series: map<string, Series> := map["A" := map[0 := Flat(1.0), half := Flat(1.0)]];
            && Present(series, ["A"]) == ["A"] && Overlap(series, ["A"], 0, half)
            && GridLength(0, half, 2 * half) == 2 && GridTs(0, 2 * half, 1) == 2 * half > half
  {
    var series: map<string, Series> := map["A" := map[0 := Flat(1.0), half := Flat(1.0)]];
    assert ["A"][..0] == [] && ["A"][0] == "A";
    assert IsLeast(BarsOf(series, "A"), 0) && IsGreatest(BarsOf(series, "A"), half);
    OverlapOfOne(series, "A", 0, half);
    assert (half + 2 * half - 1) / (2 * half) == 1 by {
      QuotientOne(3 * half - 1, 2 * half);
    }
  }

  lemma QuotientOne(x: nat, y: nat)
    requires y <= x < 2 * y
    ensures x / y == 1
  {
    assert x / y * y + x % y == x;
    FewerThanOne(x / y - 1, y);
  }
}
