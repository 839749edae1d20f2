/** What the paper ledger conserves over whole runs, when a raising step breaks it, and that a bounded bar
    history gives the same run as an unlimited one. */
module PaperLedger {
  import opened Prelude
  import opened Engine
  import opened BuyMemory
  import opened Sizer
  import opened Strategy
  import opened KrakenPaper
  import B = Broker
  import T = Technical

  // ---------------------------------------------------------------- reading a ledger

  function LastFill(fills: seq<PaperFill>, sym: string): Option<PaperFill> {
    if fills == [] then None
    else if fills[|fills| - 1].symbol == sym then Some(fills[|fills| - 1])
    else LastFill(fills[..|fills| - 1], sym)
  }

  /** Each symbol's fills alternate, opening with a buy; a sell is for the quantity bought and books the
      round trip's net profit. */
  predicate Paired(fills: seq<PaperFill>, feeRate: real) {
    fills == [] ||
    (var before := fills[..|fills| - 1];
     var f := fills[|fills| - 1];
     var last := LastFill(before, f.symbol);
     && Paired(before, feeRate)
     && if last.Some? && last.value.side == "buy" then
          f.side == "sell" && f.qty == last.value.qty
          && f.realizedPnl == Net(feeRate, f.qty, last.value.fillPrice, f.fillPrice)
        else f.side == "buy" && f.realizedPnl == 0.0)
  }

  function TotalPnl(fills: seq<PaperFill>): real {
    if fills == [] then 0.0 else TotalPnl(fills[..|fills| - 1]) + fills[|fills| - 1].realizedPnl
  }

  /** The position a ledger leaves open in a symbol: that of a last fill that is a buy. */
  function OpenIn(fills: seq<PaperFill>, sym: string): Option<Holding> {
    var last := LastFill(fills, sym);
    if last.Some? && last.value.side == "buy" then Some(Holding(sym, last.value.qty, last.value.fillPrice)) else None
  }

  function OrderFor(f: PaperFill): B.Order { B.Order(f.symbol, f.side, f.qty, f.decisionPrice) }

  function OrdersFor(fills: seq<PaperFill>): seq<B.Order> {
    if fills == [] then [] else OrdersFor(fills[..|fills| - 1]) + [OrderFor(fills[|fills| - 1])]
  }

  /** No symbol is held twice. */
  predicate Once(held: seq<Holding>) {
    forall i, j :: 0 <= i < j < |held| ==> held[i].symbol != held[j].symbol
  }

  /** Symbols are held once each, exactly those with an open position, at its quantity and price. */
  ghost predicate HoldsOpen(held: seq<Holding>, fills: seq<PaperFill>) {
    Once(held) && forall sym :: HeldOf(held, sym) == OpenIn(fills, sym)
  }

  /** Positions, realised profit and executed orders are all what the fills say. */
  ghost predicate Balanced(held: seq<Holding>, pnl: real, orders: seq<B.Order>, fills: seq<PaperFill>, feeRate: real) {
    && Paired(fills, feeRate) && HoldsOpen(held, fills)
    && pnl == TotalPnl(fills) && orders == OrdersFor(fills)
  }

  ghost predicate Midway(p: Params, g: Progress, past: seq<PaperFill>) {
    Balanced(g.held, g.pnl, g.book.filled, past + g.events, p.feeRate)
  }

  // ---------------------------------------------------------------- one more fill

  lemma {:induction false} HeldOfWithout(held: seq<Holding>, sym: string, other: string)
    requires Once(held)
    ensures HeldOf(Without(held, sym), other) == if other == sym then None else HeldOf(held, other)
  {
    if held == [] {
    } else if held[0].symbol == sym {
      NotHeld(held[1..], sym);
    } else {
      HeldOfWithout(held[1..], sym, other);
    }
  }

  lemma {:induction false} NotHeld(held: seq<Holding>, sym: string)
    ensures HeldOf(held, sym) == None <==> forall i :: 0 <= i < |held| ==> held[i].symbol != sym
  {
    if held == [] {
    } else {
      NotHeld(held[1..], sym);
      assert forall j :: 0 <= j < |held[1..]| ==> held[1..][j] == held[j + 1];
      assert forall i :: 0 < i < |held| ==> held[i] == held[1..][i - 1];
    }
  }

  lemma {:induction false} WithoutIsPart(held: seq<Holding>, sym: string, h: Holding)
    requires h in Without(held, sym)
    ensures h in held
  {
    if held[0].symbol != sym && h != held[0] {
      WithoutIsPart(held[1..], sym, h);
    }
  }

  lemma {:induction false} WithoutStaysDistinct(held: seq<Holding>, sym: string)
    requires Once(held)
    ensures Once(Without(held, sym))
  {
    if held == [] || held[0].symbol == sym {
    } else {
      WithoutStaysDistinct(held[1..], sym);
      var r := Without(held[1..], sym);
      forall j | 0 <= j < |r|
        ensures r[j].symbol != held[0].symbol
      {
        WithoutIsPart(held[1..], sym, r[j]);
      }
    }
  }

  lemma {:induction false} HeldOfMore(held: seq<Holding>, h: Holding, sym: string)
    ensures HeldOf(held + [h], sym) ==
            if HeldOf(held, sym).Some? then HeldOf(held, sym) else if h.symbol == sym then Some(h) else None
  {
    if held == [] {
    } else {
      HeldOfMore(held[1..], h, sym);
      assert (held + [h])[1..] == held[1..] + [h];
    }
  }

  /** What one more fill does to everything read off a ledger. */
  lemma OneMoreFill(fills: seq<PaperFill>, f: PaperFill, sym: string)
    ensures var all := fills + [f];
            && all[..|fills|] == fills
            && LastFill(all, sym) == (if f.symbol == sym then Some(f) else LastFill(fills, sym))
            && TotalPnl(all) == TotalPnl(fills) + f.realizedPnl
            && OrdersFor(all) == OrdersFor(fills) + [OrderFor(f)]
  {
  }

  /** A buy of a symbol not held keeps the balance. */
  lemma BuyBalances(held: seq<Holding>, pnl: real, orders: seq<B.Order>, fills: seq<PaperFill>, f: PaperFill,
                    feeRate: real)
    requires Balanced(held, pnl, orders, fills, feeRate)
    requires HeldOf(held, f.symbol).None? && f.side == "buy" && f.realizedPnl == 0.0
    ensures Balanced(held + [Holding(f.symbol, f.qty, f.fillPrice)], pnl, orders + [OrderFor(f)], fills + [f], feeRate)
  {
    OneMoreFill(fills, f, f.symbol);
    assert OpenIn(fills, f.symbol) == None;
    NotHeld(held, f.symbol);
    var more := held + [Holding(f.symbol, f.qty, f.fillPrice)];
    forall sym
      ensures HeldOf(more, sym) == OpenIn(fills + [f], sym)
    {
      HeldOfMore(held, Holding(f.symbol, f.qty, f.fillPrice), sym);
      OneMoreFill(fills, f, sym);
    }
    hide TotalPnl, OrdersFor, LastFill, HeldOf;
  }

  /** A sell of the whole of a held position at its net keeps the balance. */
  lemma SellBalances(held: seq<Holding>, pnl: real, orders: seq<B.Order>, fills: seq<PaperFill>, f: PaperFill,
                     feeRate: real)
    requires Balanced(held, pnl, orders, fills, feeRate)
    requires HeldOf(held, f.symbol).Some? && f.side == "sell" && f.qty == HeldOf(held, f.symbol).value.qty
    requires f.realizedPnl == Net(feeRate, f.qty, HeldOf(held, f.symbol).value.entryFill, f.fillPrice)
    ensures Balanced(Without(held, f.symbol), pnl + f.realizedPnl, orders + [OrderFor(f)], fills + [f], feeRate)
  {
    OneMoreFill(fills, f, f.symbol);
    assert OpenIn(fills, f.symbol) == HeldOf(held, f.symbol);
    WithoutStaysDistinct(held, f.symbol);
    forall sym
      ensures HeldOf(Without(held, f.symbol), sym) == OpenIn(fills + [f], sym)
    {
      HeldOfWithout(held, f.symbol, sym);
      OneMoreFill(fills, f, sym);
    }
    hide TotalPnl, OrdersFor, LastFill, HeldOf, Net, Without;
  }

  // ---------------------------------------------------------------- a step

  lemma PlainSides()
    ensures NormalSide("buy") == "buy" && NormalSide("sell") == "sell"
  {
  }

  lemma ExitBalances(p: Params, g: Progress, sym: string, bar: Bar, clock: Clock, past: seq<PaperFill>)
    requires Midway(p, g, past)
    ensures Midway(p, Exit(p, g, sym, bar, clock), past)
  {
    var held := HeldOf(g.held, sym);
    var fill := FillPrice(bar, bar.close, p.bufferBps, p.slippageBps, false);
    if fill > 0.0 && held.Some? {
      var order := Sell(sym, held.value.qty, bar, clock);
      PlainSides();
      B.SubmittedFills(g.book, p.settings, order);
      if B.Executes(g.book, p.settings, order) {
        var net := Net(p.feeRate, held.value.qty, held.value.entryFill, fill);
        var f := PaperFill(sym, "sell", held.value.qty, bar.close, fill, net);
        SellBalances(g.held, g.pnl, g.book.filled, past + g.events, f, p.feeRate);
        assert past + (g.events + [f]) == past + g.events + [f];
      }
    }
    hide Balanced, FillPrice, Net, HeldOf, NormalSide, B.Submitted, B.Executes;
  }

  lemma EnteredBalances(p: Params, g: Progress, sym: string, qty: real, bar: Bar, clock: Clock, past: seq<PaperFill>)
    requires Midway(p, g, past) && HeldOf(g.held, sym).None?
    ensures Midway(p, Entered(p, g, sym, qty, bar, clock), past)
  {
    var fill := FillPrice(bar, bar.close, p.bufferBps, p.slippageBps, true);
    var order := Buying(sym, qty, bar, clock);
    PlainSides();
    B.SubmittedFills(g.book, p.settings, order);
    if fill > 0.0 && B.Executes(g.book, p.settings, order) {
      var f := PaperFill(sym, "buy", qty, bar.close, fill, 0.0);
      BuyBalances(g.held, g.pnl, g.book.filled, past + g.events, f, p.feeRate);
      assert past + (g.events + [f]) == past + g.events + [f];
    }
    hide Balanced, FillPrice, HeldOf, NormalSide, B.Submitted, B.Executes;
  }

  lemma EntryBalances(p: Params, g: Progress, sym: string, weight: real, bar: Bar, clock: Clock, past: seq<PaperFill>)
    requires Midway(p, g, past) && HeldOf(g.held, sym).None?
    ensures Midway(p, Entry(p, g, sym, weight, bar, clock), past)
  {
    if bar.close > 0.0 {
      EnteredBalances(p, g, sym, Quantity(weight, p.equity, bar.close), bar, clock, past);
    }
    hide Balanced, Entered, Quantity, HeldOf;
  }

  lemma {:induction false} ExitsBalance(p: Params, g: Progress, syms: seq<string>, snap: Snapshot, wanted: set<string>,
                                        clock: Clock, past: seq<PaperFill>)
    requires Midway(p, g, past)
    ensures Midway(p, Exits(p, g, syms, snap, wanted, clock), past)
    decreases |syms|
  {
    if g.raised || syms == [] {
    } else if syms[0] in wanted || syms[0] !in snap.bars {
      ExitsBalance(p, g, syms[1..], snap, wanted, clock, past);
    } else {
      ExitBalances(p, g, syms[0], snap.bars[syms[0]], clock, past);
      ExitsBalance(p, Exit(p, g, syms[0], snap.bars[syms[0]], clock), syms[1..], snap, wanted, clock, past);
    }
  }

  lemma {:induction false} EntriesBalance(p: Params, g: Progress, targets: seq<Position>, snap: Snapshot, clock: Clock,
                                          past: seq<PaperFill>)
    requires Midway(p, g, past)
    ensures Midway(p, Entries(p, g, targets, snap, clock), past)
    decreases |targets|
  {
    if g.raised || targets == [] {
    } else if HeldOf(g.held, targets[0].symbol).Some? {
      EntriesBalance(p, g, targets[1..], snap, clock, past);
    } else if targets[0].symbol in snap.bars {
      var bar := snap.bars[targets[0].symbol];
      EntryBalances(p, g, targets[0].symbol, targets[0].weight, bar, clock, past);
      EntriesBalance(p, Entry(p, g, targets[0].symbol, targets[0].weight, bar, clock), targets[1..], snap, clock, past);
    }
  }

  ghost predicate InBalance(p: Params, t: Trader) {
    Balanced(t.held, t.pnl, t.book.filled, t.fills, p.feeRate)
  }

  function BarsAfter(t: Trader, n: nat, snap: Snapshot): map<string, seq<Bar>>
    requires snap.Quoted()
  {
    Appended(t.bars, snap.names, snap.bars, n)
  }

  /** The fills a step trades, whether or not it records them. */
  function Dealt(p: Params, history: nat, score: Score, t: Trader, snap: Snapshot, clock: Clock): seq<PaperFill>
    requires snap.Quoted()
  {
    var targets := Targets(Signals(BarsAfter(t, history, snap), snap.names, score), p.strategy);
    if targets.None? then [] else Trade(p, t.held, t.pnl, t.book, targets.value, snap, clock).events
  }

  /** What a step deals keeps positions, profit and orders in balance with the ledger. It records them, unless
      it raises: then the ledger stays in balance exactly when nothing was dealt. */
  lemma StepKeepsTheLedger(p: Params, history: nat, score: Score, t: Trader, snap: Snapshot, clock: Clock)
    requires InBalance(p, t) && snap.Quoted()
    ensures var (u, raised) := Stepped(p, history, score, t, snap, clock);
            var dealt := Dealt(p, history, score, t, snap, clock);
            && u.fills == (if raised then t.fills else t.fills + dealt)
            && Balanced(u.held, u.pnl, u.book.filled, t.fills + dealt, p.feeRate)
            && (InBalance(p, u) <==> !raised || dealt == [])
  {
    var targets := Targets(Signals(BarsAfter(t, history, snap), snap.names, score), p.strategy);
    var dealt := Dealt(p, history, score, t, snap, clock);
    assert t.fills + [] == t.fills;
    if targets.Some? {
      var start := Progress(t.held, t.pnl, t.book, [], false);
      assert start.events == [];
      var wanted := Wanted(targets.value);
      ExitsBalance(p, start, HeldNames(t.held), snap, wanted, clock, t.fills);
      var middle := Exits(p, start, HeldNames(t.held), snap, wanted, clock);
      EntriesBalance(p, middle, targets.value, snap, clock, t.fills);
      OrderCount(t.fills);
      OrderCount(t.fills + dealt);
    }
    hide Targets, Signals, Exits, Entries, Paired, HoldsOpen, TotalPnl, OrdersFor;
  }

  lemma {:induction false} OrderCount(fills: seq<PaperFill>)
    ensures |OrdersFor(fills)| == |fills|
  {
    if fills == [] {
    } else {
      OrderCount(fills[..|fills| - 1]);
    }
  }

  // ---------------------------------------------------------------- runs

  datatype Tick = Tick(snap: Snapshot, clock: Clock)

  ghost predicate Quoted(ticks: seq<Tick>) {
    forall i :: 0 <= i < |ticks| ==> ticks[i].snap.Quoted()
  }

  function Run(p: Params, history: nat, score: Score, ticks: seq<Tick>): Trader
    requires Quoted(ticks)
  {
    if ticks == [] then NEW
    else
      var last := ticks[|ticks| - 1];
      Stepped(p, history, score, Run(p, history, score, ticks[..|ticks| - 1]), last.snap, last.clock).0
  }

  predicate Quiet(p: Params, history: nat, score: Score, ticks: seq<Tick>)
    requires Quoted(ticks)
  {
    if ticks == [] then true
    else
      var before := ticks[..|ticks| - 1];
      var last := ticks[|ticks| - 1];
      && Quiet(p, history, score, before)
      && !Stepped(p, history, score, Run(p, history, score, before), last.snap, last.clock).1
  }

  /** Over any run in which no step raises, the ledger is in balance. */
  lemma {:induction false} RunKeepsTheLedger(p: Params, history: nat, score: Score, ticks: seq<Tick>)
    requires Quoted(ticks) && Quiet(p, history, score, ticks)
    ensures InBalance(p, Run(p, history, score, ticks))
  {
    if ticks == [] {
    } else {
      var before := ticks[..|ticks| - 1];
      var last := ticks[|ticks| - 1];
      RunKeepsTheLedger(p, history, score, before);
      StepKeepsTheLedger(p, history, score, Run(p, history, score, before), last.snap, last.clock);
      hide InBalance, Stepped, Balanced, Dealt;
    }
  }

  // ---------------------------------------------------------------- bounded history

  /** The default signal: a day's return as conviction, true range as risk. */
  function Momentum(root: real -> real): Score {
    (sym: string, bars: seq<Bar>) => if |bars| < 2 then (0.0, 0.0001) else LastRow(bars, root)
  }

  function Highs(bars: seq<Bar>): (r: seq<real>) ensures |r| == |bars| { seq(|bars|,
                 i requires 0 <= i < |bars| => bars[i].high) }

  function Lows(bars: seq<Bar>): (r: seq<real>) ensures |r| == |bars| { seq(|bars|,
                i requires 0 <= i < |bars| => bars[i].low) }

  function Closes(bars: seq<Bar>): (r: seq<real>) ensures |r| == |bars| { seq(|bars|,
                  i requires 0 <= i < |bars| => bars[i].close) }

  function LastRow(bars: seq<Bar>, root: real -> real): (real, real)
    requires bars != []
  {
    var row := T.Row(Highs(bars), Lows(bars), Closes(bars), |bars| - 1, root);
    (row[T.RETURN_24H], MaxReal(row[T.ATR_PCT_24H], 0.0001))
  }

  /** The signal only looks at the last seventy-three bars. */
  lemma MomentumIgnoresOldBars(sym: string, all: seq<Bar>, n: nat, root: real -> real)
    requires 73 <= n
    ensures Momentum(root)(sym, Last(all, n)) == Momentum(root)(sym, all)
  {
    if n < |all| {
      LastRowIgnoresOldBars(all, n, root);
      hide LastRow;
    } else {
      assert Last(all, n) == all;
    }
  }

  lemma LastRowIgnoresOldBars(all: seq<Bar>, n: nat, root: real -> real)
    requires 73 <= n < |all|
    ensures LastRow(Last(all, n), root) == LastRow(all, root)
  {
    SeriesOfLast(all, n);
    T.SeventyThreeBarsSuffice(Highs(all), Lows(all), Closes(all), |all| - n, |all| - 1, root);
    hide T.Row, Highs, Lows, Closes;
  }

  lemma SeriesOfLast(all: seq<Bar>, n: nat)
    requires n < |all|
    ensures var a, kept := |all| - n, Last(all, n);
            && |kept| == n && Highs(kept) == Highs(all)[a..] && Lows(kept) == Lows(all)[a..]
            && Closes(kept) == Closes(all)[a..]
  {
  }

  /** The bounded histories are the ends of the unlimited ones. */
  ghost predicate Ends(short: map<string, seq<Bar>>, long: map<string, seq<Bar>>, n: nat) {
    forall sym :: BarsOf(short, sym) == Last(BarsOf(long, sym), n)
  }

  /** No history is longer than this. */
  ghost predicate AtMost(bars: map<string, seq<Bar>>, count: nat) {
    forall sym :: |BarsOf(bars, sym)| <= count
  }

  lemma LastOfMore(s: seq<Bar>, bar: Bar, n: nat, limit: nat)
    requires 1 <= n && |s| < limit
    ensures Last(Last(s, n) + [bar], n) == Last(s + [bar], n) && Last(s + [bar], limit) == s + [bar]
  {
  }

  function Put(bars: map<string, seq<Bar>>, sym: string, bar: Bar, n: nat): map<string, seq<Bar>> {
    bars[sym := Last(BarsOf(bars, sym) + [bar], n)]
  }

  /** One symbol's new bar, in a bounded and in an unlimited history. */
  lemma OneBarEnds(short: map<string, seq<Bar>>, long: map<string, seq<Bar>>, sym: string, bar: Bar, n: nat, limit: nat,
                   count: nat)
    requires Ends(short, long, n) && 1 <= n && AtMost(long, count) && count < limit
    ensures Ends(Put(short, sym, bar, n), Put(long, sym, bar, limit), n)
    ensures AtMost(Put(long, sym, bar, limit), count + 1)
  {
    forall other
      ensures BarsOf(Put(short, sym, bar, n), other) == Last(BarsOf(Put(long, sym, bar, limit), other), n)
      ensures |BarsOf(Put(long, sym, bar, limit), other)| <= count + 1
    {
      assert |BarsOf(long, other)| <= count;
      assert BarsOf(short, other) == Last(BarsOf(long, other), n);
      OneBarEnd(short, long, sym, bar, n, limit, count, other);
    }
    hide Put, BarsOf, Last;
  }

  lemma OneBarEnd(short: map<string, seq<Bar>>, long: map<string, seq<Bar>>, sym: string, bar: Bar, n: nat, limit: nat,
                  count: nat, other: string)
    requires BarsOf(short, other) == Last(BarsOf(long, other), n) && 1 <= n
    requires |BarsOf(long, other)| <= count < limit
    ensures BarsOf(Put(short, sym, bar, n), other) == Last(BarsOf(Put(long, sym, bar, limit), other), n)
    ensures |BarsOf(Put(long, sym, bar, limit), other)| <= count + 1
  {
    LastOfMore(BarsOf(long, other), bar, n, limit);
    PutAt(short, sym, bar, n, other);
    PutAt(long, sym, bar, limit, other);
    hide Last, Put, BarsOf;
  }

  lemma PutAt(bars: map<string, seq<Bar>>, sym: string, bar: Bar, n: nat, other: string)
    ensures BarsOf(Put(bars, sym, bar, n), other) ==
            if other == sym then Last(BarsOf(bars, sym) + [bar], n) else BarsOf(bars, other)
  {
  }

  lemma {:induction false} AppendedEnds(short: map<string, seq<Bar>>, long: map<string, seq<Bar>>, names: seq<string>,
                                        quotes: map<string, Bar>, n: nat, limit: nat, count: nat)
    requires Ends(short, long, n) && 1 <= n && AtMost(long, count) && count + |names| <= limit
    requires forall s :: s in names ==> s in quotes
    ensures Ends(Appended(short, names, quotes, n), Appended(long, names, quotes, limit), n)
    ensures AtMost(Appended(long, names, quotes, limit), count + |names|)
    decreases |names|
  {
    if names == [] {
    } else {
      var sym, bar := names[0], quotes[names[0]];
      OneBarEnds(short, long, sym, bar, n, limit, count);
      AppendedEnds(Put(short, sym, bar, n), Put(long, sym, bar, limit), names[1..], quotes, n, limit, count + 1);
      hide Ends, AtMost, Last, BarsOf;
    }
  }

  lemma {:induction false} SignalsAgree(short: map<string, seq<Bar>>, long: map<string, seq<Bar>>, names: seq<string>,
                                        n: nat, root: real -> real)
    requires Ends(short, long, n) && 73 <= n
    ensures Signals(short, names, Momentum(root)) == Signals(long, names, Momentum(root))
  {
    if names == [] {
    } else {
      SignalsAgree(short, long, names[1..], n, root);
      assert BarsOf(short, names[0]) == Last(BarsOf(long, names[0]), n);
      MomentumIgnoresOldBars(names[0], BarsOf(long, names[0]), n, root);
      hide Momentum;
    }
  }

  function BarCount(ticks: seq<Tick>): nat {
    if ticks == [] then 0 else BarCount(ticks[..|ticks| - 1]) + |ticks[|ticks| - 1].snap.names|
  }

  /** Two traders alike in everything but how much history they keep. */
  ghost predicate Alike(t: Trader, u: Trader, n: nat) {
    Ends(t.bars, u.bars, n) && (t.held, t.pnl, t.fills, t.book) == (u.held, u.pnl, u.fills, u.book)
  }

  /** Histories matter to a step only through the signals they give. */
  lemma SteppedBySignals(p: Params, n: nat, m: nat, score: Score, t: Trader, u: Trader, snap: Snapshot, clock: Clock)
    requires (t.held, t.pnl, t.fills, t.book) == (u.held, u.pnl, u.fills, u.book) && snap.Quoted()
    requires Signals(BarsAfter(t, n, snap), snap.names, score) == Signals(BarsAfter(u, m, snap), snap.names, score)
    ensures var a := Stepped(p, n, score, t, snap, clock);
            var b := Stepped(p, m, score, u, snap, clock);
            && a.1 == b.1 && a.0.bars == BarsAfter(t, n, snap)
            && b.0 == a.0.(bars := BarsAfter(u, m, snap))
  {
  }

  lemma StepStaysAlike(p: Params, n: nat, limit: nat, t: Trader, u: Trader, snap: Snapshot, clock: Clock,
                       root: real -> real, count: nat)
    requires 73 <= n && Alike(t, u, n) && snap.Quoted() && AtMost(u.bars, count) && count + |snap.names| <= limit
    ensures var a := Stepped(p, n, Momentum(root), t, snap, clock);
            var b := Stepped(p, limit, Momentum(root), u, snap, clock);
            Alike(a.0, b.0, n) && a.1 == b.1 && AtMost(b.0.bars, count + |snap.names|)
  {
    AppendedEnds(t.bars, u.bars, snap.names, snap.bars, n, limit, count);
    SignalsAgree(BarsAfter(t, n, snap), BarsAfter(u, limit, snap), snap.names, n, root);
    SteppedBySignals(p, n, limit, Momentum(root), t, u, snap, clock);
    hide Ends, Momentum, Stepped, Appended, Signals, AtMost;
  }

  /** Keeping at least seventy-three bars gives the very run that keeping them all gives: the same
      positions, profit, ledger and orders after every step, and the same steps raising. */
  lemma {:induction false} BoundedHistoryIsLossless(p: Params, n: nat, limit: nat, ticks: seq<Tick>, root: real -> real)
    requires 73 <= n && Quoted(ticks) && BarCount(ticks) <= limit
    ensures Alike(Run(p, n, Momentum(root), ticks), Run(p, limit, Momentum(root), ticks), n)
    ensures Quiet(p, n, Momentum(root), ticks) == Quiet(p, limit, Momentum(root), ticks)
    ensures AtMost(Run(p, limit, Momentum(root), ticks).bars, BarCount(ticks))
  {
    if ticks == [] {
    } else {
      var before, last := ticks[..|ticks| - 1], ticks[|ticks| - 1];
      BoundedHistoryIsLossless(p, n, limit, before, root);
      StepStaysAlike(p, n, limit, Run(p, n, Momentum(root), before), Run(p, limit, Momentum(root), before), last.snap,
                     last.clock, root, BarCount(before));
      hide Alike, AtMost, Stepped, Momentum;
    }
  }
}
