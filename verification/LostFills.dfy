/** When a step of the paper trader loses fills: exactly when, of the orders it is about to send, the first
    is executed and a later one is not. All of it can be read before the step. */
module LostFills {
  import opened Prelude
  import opened Engine
  import opened BuyMemory
  import opened WaterFilling
  import opened Sizer
  import opened Strategy
  import opened KrakenPaper
  import opened PaperLedger
  import B = Broker
  import M = BuyMemory

  // ---------------------------------------------------------------- the orders a step is about to send

  /** The sell a held name is due for: unwanted, quoted, and filled at the close. */
  function ExitRequest(p: Params, held: seq<Holding>, sym: string, snap: Snapshot, wanted: set<string>, clock: Clock)
    : (r: seq<B.Request>)
    ensures |r| <= 1
  {
    if sym in wanted || sym !in snap.bars || HeldOf(held, sym).None? then []
    else
      var bar := snap.bars[sym];
      if FillPrice(bar, bar.close, p.bufferBps, p.slippageBps, false) <= 0.0 then []
      else [Sell(sym, HeldOf(held, sym).value.qty, bar, clock)]
  }

  function ExitRequests(p: Params, held: seq<Holding>, syms: seq<string>, snap: Snapshot, wanted: set<string>,
                        clock: Clock): seq<B.Request>
  {
    if syms == [] then []
    else ExitRequest(p, held, syms[0], snap, wanted, clock) + ExitRequests(p, held, syms[1..], snap, wanted, clock)
  }

  /** The buy a target is due for: quoted at a positive close, and filled there. */
  function EntryRequest(p: Params, target: Position, snap: Snapshot, clock: Clock): (r: seq<B.Request>)
    ensures |r| <= 1
  {
    if target.symbol !in snap.bars then []
    else
      var bar := snap.bars[target.symbol];
      if bar.close <= 0.0 || FillPrice(bar, bar.close, p.bufferBps, p.slippageBps, true) <= 0.0 then []
      else [Buying(target.symbol, Quantity(target.weight, p.equity, bar.close), bar, clock)]
  }

  /** Buys of targets not among the names held or bought already. */
  function EntryRequests(p: Params, names: set<string>, targets: seq<Position>, snap: Snapshot, clock: Clock)
    : seq<B.Request>
    decreases |targets|
  {
    if targets == [] then []
    else if targets[0].symbol in names then EntryRequests(p, names, targets[1..], snap, clock)
    else
      var due := EntryRequest(p, targets[0], snap, clock);
      due + EntryRequests(p, if due == [] then names else names + {targets[0].symbol}, targets[1..], snap, clock)
  }

  function NamesHeld(held: seq<Holding>): set<string> { set i | 0 <= i < |held| :: held[i].symbol }

  function ExitsDue(p: Params, held: seq<Holding>, targets: seq<Position>, snap: Snapshot, clock: Clock)
    : seq<B.Request>
  {
    ExitRequests(p, held, HeldNames(held), snap, Wanted(targets), clock)
  }

  function OrdersDue(p: Params, held: seq<Holding>, targets: seq<Position>, snap: Snapshot, clock: Clock)
    : seq<B.Request>
  {
    ExitsDue(p, held, targets, snap, clock) + EntryRequests(p, NamesHeld(held), targets, snap, clock)
  }

  predicate InClockOrder(due: seq<B.Request>) {
    forall i, j :: 0 <= i < j < |due| ==> due[i].now <= due[j].now
  }

  /** Some order is not executed, judged by the book as it is now. */
  predicate SomeBlocked(book: B.Book, settings: Settings, due: seq<B.Request>) {
    exists r :: r in due && !B.Executes(book, settings, r)
  }

  /** An order is executed before one is not. */
  predicate Loses(book: B.Book, settings: Settings, due: seq<B.Request>) {
    due != [] && B.Executes(book, settings, due[0]) && SomeBlocked(book, settings, due)
  }

  // ---------------------------------------------------------------- pruning on the way changes no verdict

  /** Two memories alike in every record still fresh at a time. */
  predicate SameFresh(b: B.Book, c: B.Book, settings: Settings, since: real) {
    Pruned(b.buys, since, settings.memorySeconds) == Pruned(c.buys, since, settings.memorySeconds)
  }

  lemma PrunedTwice(buys: map<string, Buy>, early: real, late: real, window: real)
    requires early <= late
    ensures Pruned(Pruned(buys, early, window), late, window) == Pruned(buys, late, window)
  {
  }

  lemma SameFreshLater(b: B.Book, c: B.Book, settings: Settings, early: real, late: real)
    requires SameFresh(b, c, settings, early) && early <= late
    ensures SameFresh(b, c, settings, late)
  {
    PrunedTwice(b.buys, early, late, settings.memorySeconds);
    PrunedTwice(c.buys, early, late, settings.memorySeconds);
    hide Pruned;
  }

  /** Then every order from that time on meets the same verdict, and a sell prunes both alike. */
  lemma SameVerdict(b: B.Book, c: B.Book, settings: Settings, r: B.Request)
    requires SameFresh(b, c, settings, r.now)
    ensures B.Executes(b, settings, r) == B.Executes(c, settings, r)
    ensures B.IsSell(r) ==> SameFresh(B.Submitted(b, settings, r), c, settings, r.now)
  {
    B.RefusesByLookup(b.buys, settings, r.symbol, r.price, r.now);
    B.RefusesByLookup(c.buys, settings, r.symbol, r.price, r.now);
    PrunedTwice(b.buys, r.now, r.now, settings.memorySeconds);
    hide Pruned, Refuses, Floor, Upper, NormalSide;
  }

  // ---------------------------------------------------------------- exits

  /** Where the exits stand: names still to come are held as at the start, and the memory differs from the
      start's only in what is too old to matter. */
  ghost predicate Underway(p: Params, held: seq<Holding>, book: B.Book, g: Progress, syms: seq<string>, since: real) {
    && !g.raised && Once(g.held)
    && (forall sym :: sym in syms ==> HeldOf(g.held, sym) == HeldOf(held, sym))
    && SameFresh(g.book, book, p.settings, since)
  }

  /** One exit: nothing, or a fill, or a raise, as its request says. */
  lemma ExitOutcome(p: Params, held: seq<Holding>, book: B.Book, g: Progress, sym: string, snap: Snapshot,
                    wanted: set<string>, clock: Clock, since: real)
    requires !g.raised && HeldOf(g.held, sym) == HeldOf(held, sym) && sym !in wanted && sym in snap.bars
    requires SameFresh(g.book, book, p.settings, since)
    requires ExitRequest(p, held, sym, snap, wanted, clock) != [] ==> since <= clock(sym).0
    ensures var due := ExitRequest(p, held, sym, snap, wanted, clock);
            var h := Exit(p, g, sym, snap.bars[sym], clock);
            && (due == [] ==> h == g)
            && (due != [] && B.Executes(book, p.settings, due[0]) ==>
                  && !h.raised && h.events != [] && h.held == Without(g.held, sym)
                  && SameFresh(h.book, book, p.settings, clock(sym).0))
            && (due != [] && !B.Executes(book, p.settings, due[0]) ==> h.raised && h.events == g.events)
  {
    var due := ExitRequest(p, held, sym, snap, wanted, clock);
    if due != [] {
      SameFreshLater(g.book, book, p.settings, since, clock(sym).0);
      SameVerdict(g.book, book, p.settings, due[0]);
      PlainSides();
    }
    hide FillPrice, Net, HeldOf, Without, B.Submitted, SameFresh, Refuses, NormalSide;
  }

  lemma {:induction false} ExitsOutcome(p: Params, held: seq<Holding>, book: B.Book, g: Progress, syms: seq<string>,
                                        snap: Snapshot, wanted: set<string>, clock: Clock, since: real)
    requires Underway(p, held, book, g, syms, since)
    requires forall i, j :: 0 <= i < j < |syms| ==> syms[i] != syms[j]
    requires var due := ExitRequests(p, held, syms, snap, wanted, clock);
             InClockOrder(due) && forall i :: 0 <= i < |due| ==> since <= due[i].now
    ensures var due := ExitRequests(p, held, syms, snap, wanted, clock);
            var h := Exits(p, g, syms, snap, wanted, clock);
            && (h.raised <==> SomeBlocked(book, p.settings, due))
            && (h.events != [] <==> g.events != [] || (due != [] && B.Executes(book, p.settings, due[0])))
    decreases |syms|
  {
    if syms == [] {
    } else if syms[0] in wanted || syms[0] !in snap.bars {
      var due := ExitRequests(p, held, syms[1..], snap, wanted, clock);
      assert ExitRequests(p, held, syms, snap, wanted, clock) == [] + due == due;
      ExitsOutcome(p, held, book, g, syms[1..], snap, wanted, clock, since);
    } else {
      var first := ExitRequest(p, held, syms[0], snap, wanted, clock);
      var rest := ExitRequests(p, held, syms[1..], snap, wanted, clock);
      var h := Exit(p, g, syms[0], snap.bars[syms[0]], clock);
      assert syms[0] in syms;
      FirstIsInOrder(first, rest, since);
      ExitOutcome(p, held, book, g, syms[0], snap, wanted, clock, since);
      if first == [] {
        ExitsOutcome(p, held, book, g, syms[1..], snap, wanted, clock, since);
      } else if B.Executes(book, p.settings, first[0]) {
        StillUnderway(p, held, book, g, h, syms, since, clock(syms[0]).0);
        ExitsOutcome(p, held, book, h, syms[1..], snap, wanted, clock, clock(syms[0]).0);
      }
      BlockedInParts(book, p.settings, first, rest);
    }
    hide Exit, ExitRequest, Without, HeldOf, B.Executes, SomeBlocked, InClockOrder, SameFresh;
  }

  lemma FirstIsInOrder(first: seq<B.Request>, rest: seq<B.Request>, since: real)
    requires |first| <= 1 && InClockOrder(first + rest)
    requires forall i :: 0 <= i < |first + rest| ==> since <= (first + rest)[i].now
    ensures InClockOrder(rest) && forall i :: 0 <= i < |rest| ==> since <= rest[i].now
    ensures first != [] ==> since <= first[0].now && forall i :: 0 <= i < |rest| ==> first[0].now <= rest[i].now
  {
    assert forall i :: 0 <= i < |rest| ==> rest[i] == (first + rest)[|first| + i];
    assert first != [] ==> first[0] == (first + rest)[0];
  }

  lemma BlockedInParts(book: B.Book, settings: Settings, first: seq<B.Request>, rest: seq<B.Request>)
    ensures SomeBlocked(book, settings, first + rest) <==>
            SomeBlocked(book, settings, first) || SomeBlocked(book, settings, rest)
    ensures |first| == 1 ==> (SomeBlocked(book, settings, first) <==> !B.Executes(book, settings, first[0]))
    ensures first == [] ==> first + rest == rest && !SomeBlocked(book, settings, first)
    ensures first != [] ==> (first + rest)[0] == first[0]
  {
    hide B.Executes;
  }

  lemma StillUnderway(p: Params, held: seq<Holding>, book: B.Book, g: Progress, h: Progress, syms: seq<string>,
                      since: real, now: real)
    requires syms != [] && Underway(p, held, book, g, syms, since) && since <= now
    requires forall i, j :: 0 <= i < j < |syms| ==> syms[i] != syms[j]
    requires !h.raised && h.held == Without(g.held, syms[0]) && SameFresh(h.book, book, p.settings, now)
    ensures Underway(p, held, book, h, syms[1..], now)
  {
    WithoutStaysDistinct(g.held, syms[0]);
    forall sym | sym in syms[1..]
      ensures HeldOf(h.held, sym) == HeldOf(held, sym)
    {
      HeldOfWithout(g.held, syms[0], sym);
      assert sym in syms;
    }
    hide HeldOf, Without, SameFresh;
  }

  /** Exits leave wanted names alone. */
  lemma {:induction false} ExitsKeepTheWanted(p: Params, g: Progress, syms: seq<string>, snap: Snapshot,
                                              wanted: set<string>, clock: Clock, sym: string)
    requires Once(g.held) && sym in wanted
    ensures HeldOf(Exits(p, g, syms, snap, wanted, clock).held, sym) == HeldOf(g.held, sym)
    decreases |syms|
  {
    if g.raised || syms == [] {
    } else if syms[0] in wanted || syms[0] !in snap.bars {
      ExitsKeepTheWanted(p, g, syms[1..], snap, wanted, clock, sym);
    } else {
      HeldOfWithout(g.held, syms[0], sym);
      WithoutStaysDistinct(g.held, syms[0]);
      ExitsKeepTheWanted(p, Exit(p, g, syms[0], snap.bars[syms[0]], clock), syms[1..], snap, wanted, clock, sym);
    }
    hide B.Submitted, B.Executes, Net, FillPrice, HeldOf, Without, Once;
  }

  // ---------------------------------------------------------------- entries

  /** Buys are judged by their form alone. */
  lemma BuysIgnoreTheBook(b: B.Book, c: B.Book, settings: Settings, r: B.Request)
    requires r.side == "buy"
    ensures B.Executes(b, settings, r) == B.Executes(c, settings, r)
  {
    PlainSides();
  }

  predicate OneMore(more: seq<Holding>, held: seq<Holding>, sym: string) {
    |more| == |held| + 1 && more[..|held|] == held && more[|held|].symbol == sym
  }

  lemma EntryOutcome(p: Params, book: B.Book, g: Progress, target: Position, snap: Snapshot, clock: Clock)
    requires !g.raised && target.symbol in snap.bars
    ensures var due := EntryRequest(p, target, snap, clock);
            var h := Entry(p, g, target.symbol, target.weight, snap.bars[target.symbol], clock);
            && (due == [] ==> h == g)
            && (due != [] && B.Executes(book, p.settings, due[0]) ==>
                  !h.raised && h.events != [] && OneMore(h.held, g.held, target.symbol))
            && (due != [] && !B.Executes(book, p.settings, due[0]) ==> h.raised && h.events == g.events)
  {
    var due := EntryRequest(p, target, snap, clock);
    var bar := snap.bars[target.symbol];
    if due != [] {
      BuysIgnoreTheBook(g.book, book, p.settings, due[0]);
    }
    hide FillPrice, Quantity, B.Submitted, B.Executes;
  }

  ghost predicate Entering(g: Progress, names: set<string>, targets: seq<Position>, snap: Snapshot) {
    && !g.raised
    && (forall i :: 0 <= i < |targets| ==> targets[i].symbol in snap.bars)
    && (forall i :: 0 <= i < |targets| ==> (HeldOf(g.held, targets[i].symbol).Some? <==> targets[i].symbol in names))
  }

  lemma StillEntering(g: Progress, h: Progress, names: set<string>, targets: seq<Position>, snap: Snapshot)
    requires targets != [] && Entering(g, names, targets, snap)
    requires !h.raised && OneMore(h.held, g.held, targets[0].symbol)
    ensures Entering(h, names + {targets[0].symbol}, targets[1..], snap)
  {
    forall i | 0 < i < |targets|
      ensures HeldOf(h.held, targets[i].symbol).Some? <==> targets[i].symbol in names + {targets[0].symbol}
    {
      HeldOfMore(g.held, h.held[|g.held|], targets[i].symbol);
      assert h.held == g.held + [h.held[|g.held|]];
    }
    hide HeldOf;
  }

  lemma {:induction false} EntriesOutcome(p: Params, book: B.Book, g: Progress, names: set<string>, targets: seq<Position>,
                                          snap: Snapshot, clock: Clock)
    requires Entering(g, names, targets, snap)
    ensures var due := EntryRequests(p, names, targets, snap, clock);
            var h := Entries(p, g, targets, snap, clock);
            && (h.raised <==> SomeBlocked(book, p.settings, due))
            && (h.events != [] <==> g.events != [] || (due != [] && B.Executes(book, p.settings, due[0])))
    decreases |targets|
  {
    if targets == [] {
    } else if targets[0].symbol in names {
      EntriesOutcome(p, book, g, names, targets[1..], snap, clock);
    } else {
      var first := EntryRequest(p, targets[0], snap, clock);
      var more := if first == [] then names else names + {targets[0].symbol};
      var h := Entry(p, g, targets[0].symbol, targets[0].weight, snap.bars[targets[0].symbol], clock);
      EntryOutcome(p, book, g, targets[0], snap, clock);
      if first == [] {
        EntriesOutcome(p, book, g, names, targets[1..], snap, clock);
      } else if B.Executes(book, p.settings, first[0]) {
        StillEntering(g, h, names, targets, snap);
        EntriesOutcome(p, book, h, more, targets[1..], snap, clock);
      }
      BlockedInParts(book, p.settings, first, EntryRequests(p, more, targets[1..], snap, clock));
    }
    hide Entry, EntryRequest, HeldOf, B.Executes, SomeBlocked;
  }

  // ---------------------------------------------------------------- a step

  lemma NamesOfHeld(held: seq<Holding>, sym: string)
    ensures sym in NamesHeld(held) <==> HeldOf(held, sym).Some?
  {
    NotHeld(held, sym);
  }

  /** What trading does, read off the orders due before it. */
  lemma TradeOutcome(p: Params, held: seq<Holding>, pnl: real, book: B.Book, targets: seq<Position>, snap: Snapshot,
                     clock: Clock)
    requires Once(held) && forall i :: 0 <= i < |targets| ==> targets[i].symbol in snap.bars
    requires InClockOrder(ExitsDue(p, held, targets, snap, clock))
    ensures var due := OrdersDue(p, held, targets, snap, clock);
            var g := Trade(p, held, pnl, book, targets, snap, clock);
            && (g.raised <==> SomeBlocked(book, p.settings, due))
            && (g.raised && g.events != [] <==> Loses(book, p.settings, due))
  {
    var start := Progress(held, pnl, book, [], false);
    var names, wanted := HeldNames(held), Wanted(targets);
    var sells := ExitsDue(p, held, targets, snap, clock);
    var buys := EntryRequests(p, NamesHeld(held), targets, snap, clock);
    var middle := Exits(p, start, names, snap, wanted, clock);
    var since := if sells == [] then 0.0 else sells[0].now;
    ExitsOutcome(p, held, book, start, names, snap, wanted, clock, since);
    if !middle.raised {
      forall i | 0 <= i < |targets|
        ensures HeldOf(middle.held, targets[i].symbol).Some? <==> targets[i].symbol in NamesHeld(held)
      {
        ExitsKeepTheWanted(p, start, names, snap, wanted, clock, targets[i].symbol);
        NamesOfHeld(held, targets[i].symbol);
      }
      EntriesOutcome(p, book, middle, NamesHeld(held), targets, snap, clock);
    }
    BlockedInParts(book, p.settings, sells, buys);
    hide Exits, Entries, ExitRequests, EntryRequests, HeldOf, B.Executes, SomeBlocked, NamesHeld;
  }

  lemma {:induction false} SignalsAreOfNames(bars: map<string, seq<Bar>>, names: seq<string>, score: Score)
    ensures forall s :: s in Signals(bars, names, score) ==> s.symbol in names
  {
    if names != [] {
      SignalsAreOfNames(bars, names[1..], score);
    }
  }

  lemma {:induction false} PositionsAreOfPicks(picks: seq<SymbolSignal>, weights: map<string, real>)
    ensures forall q :: q in Positions(picks, weights) ==> q.weight > 0.0 && exists s :: s in picks && s.symbol == q.symbol
  {
    if picks != [] {
      PositionsAreOfPicks(picks[..|picks| - 1], weights);
      assert picks[|picks| - 1] in picks;
      assert forall s :: s in picks[..|picks| - 1] ==> s in picks;
    }
  }

  /** Whatever the pipeline wants is in the snapshot, with a positive weight. */
  lemma TargetsAreQuoted(bars: map<string, seq<Bar>>, names: seq<string>, score: Score, cfg: StrategyConfig)
    ensures var targets := Targets(Signals(bars, names, score), cfg);
            targets.Some? ==> forall i :: 0 <= i < |targets.value| ==>
                                targets.value[i].weight > 0.0 && targets.value[i].symbol in names
  {
    var signals := Signals(bars, names, score);
    var eligible := FilterByConviction(signals, cfg);
    var picks := SelectPicks(eligible, cfg);
    SignalsAreOfNames(bars, names, score);
    FilterKeepsTheEligible(signals, cfg);
    var rest := PicksAreTheTop(eligible, cfg);
    forall s | s in picks
      ensures s.symbol in names
    {
      assert s in multiset(picks) + multiset(rest);
      assert s in eligible;
    }
    if Divisible(picks, cfg.minVolatility) {
      PositionsAreOfPicks(picks, Allocation(picks, cfg));
      var positions := Positions(picks, Allocation(picks, cfg));
      assert forall i :: 0 <= i < |positions| ==> positions[i] in positions;
    }
    hide Signals, FilterByConviction, SelectPicks, Allocation, Positions, Ranks, Divisible, Eligible;
  }

  function Wishes(p: Params, history: nat, score: Score, t: Trader, snap: Snapshot): Option<seq<Position>>
    requires snap.Quoted()
  {
    Targets(Signals(BarsAfter(t, history, snap), snap.names, score), p.strategy)
  }

  /** The sells, and all the orders, a step is about to send; none when the sizing divides by zero. */
  function StepExits(p: Params, history: nat, score: Score, t: Trader, snap: Snapshot, clock: Clock): seq<B.Request>
    requires snap.Quoted()
  {
    match Wishes(p, history, score, t, snap)
    case None => []
    case Some(targets) => ExitsDue(p, t.held, targets, snap, clock)
  }

  function StepOrders(p: Params, history: nat, score: Score, t: Trader, snap: Snapshot, clock: Clock): seq<B.Request>
    requires snap.Quoted()
  {
    match Wishes(p, history, score, t, snap)
    case None => []
    case Some(targets) => OrdersDue(p, t.held, targets, snap, clock)
  }

  /** A step leaves the ledger out of balance exactly when, of the orders due before it and judged by the
      book as it stands before it, the first is executed and some other is not. Sells are timed in the order
      they are sent. It raises exactly when the sizing divides by zero or some order due is not executed. */
  lemma StepLosesFills(p: Params, history: nat, score: Score, t: Trader, snap: Snapshot, clock: Clock)
    requires InBalance(p, t) && snap.Quoted()
    requires InClockOrder(StepExits(p, history, score, t, snap, clock))
    ensures var (u, raised) := Stepped(p, history, score, t, snap, clock);
            var due := StepOrders(p, history, score, t, snap, clock);
            && (raised <==> Wishes(p, history, score, t, snap).None? || SomeBlocked(t.book, p.settings, due))
            && (InBalance(p, u) <==> !Loses(t.book, p.settings, due))
  {
    StepKeepsTheLedger(p, history, score, t, snap, clock);
    match Wishes(p, history, score, t, snap)
    case None =>
    case Some(targets) =>
      TargetsAreQuoted(BarsAfter(t, history, snap), snap.names, score, p.strategy);
      TradeOutcome(p, t.held, t.pnl, t.book, targets, snap, clock);
      hide InBalance, Targets, Signals, Trade, OrdersDue, ExitsDue, Loses, InClockOrder, BarsAfter;
  }

  // ---------------------------------------------------------------- which orders are not executed

  /** Held names are named and held in a positive quantity. */
  predicate Sound(held: seq<Holding>) {
    forall h :: h in held ==> h.symbol != "" && h.qty > 0.0
  }

  lemma ExitStaysSound(p: Params, g: Progress, sym: string, bar: Bar, clock: Clock)
    requires Sound(g.held)
    ensures Sound(Exit(p, g, sym, bar, clock).held)
  {
    forall h | h in Without(g.held, sym)
      ensures h in g.held
    {
      WithoutIsPart(g.held, sym, h);
    }
    hide B.Submitted, B.Executes, FillPrice, Net;
  }

  lemma EntryStaysSound(p: Params, g: Progress, sym: string, weight: real, bar: Bar, clock: Clock)
    requires Sound(g.held)
    ensures Sound(Entry(p, g, sym, weight, bar, clock).held)
  {
    hide FillPrice, Quantity, B.Submitted, NormalSide, Refuses;
  }

  lemma {:induction false} ExitsStaySound(p: Params, g: Progress, syms: seq<string>, snap: Snapshot, wanted: set<string>,
                                          clock: Clock)
    requires Sound(g.held)
    ensures Sound(Exits(p, g, syms, snap, wanted, clock).held)
    decreases |syms|
  {
    if g.raised || syms == [] {
    } else if syms[0] in wanted || syms[0] !in snap.bars {
      ExitsStaySound(p, g, syms[1..], snap, wanted, clock);
    } else {
      ExitStaysSound(p, g, syms[0], snap.bars[syms[0]], clock);
      ExitsStaySound(p, Exit(p, g, syms[0], snap.bars[syms[0]], clock), syms[1..], snap, wanted, clock);
    }
    hide Exit, Sound;
  }

  lemma {:induction false} EntriesStaySound(p: Params, g: Progress, targets: seq<Position>, snap: Snapshot, clock: Clock)
    requires Sound(g.held)
    ensures Sound(Entries(p, g, targets, snap, clock).held)
    decreases |targets|
  {
    if g.raised || targets == [] {
    } else if HeldOf(g.held, targets[0].symbol).Some? {
      EntriesStaySound(p, g, targets[1..], snap, clock);
    } else if targets[0].symbol in snap.bars {
      var bar := snap.bars[targets[0].symbol];
      EntryStaysSound(p, g, targets[0].symbol, targets[0].weight, bar, clock);
      EntriesStaySound(p, Entry(p, g, targets[0].symbol, targets[0].weight, bar, clock), targets[1..], snap, clock);
    }
    hide Entry, Sound, HeldOf;
  }

  /** After any run, steps that raise included, what is held is named and of positive quantity. */
  lemma {:induction false} RunHoldsSound(p: Params, history: nat, score: Score, ticks: seq<Tick>)
    requires Quoted(ticks)
    ensures Sound(Run(p, history, score, ticks).held)
  {
    if ticks != [] {
      var last := ticks[|ticks| - 1];
      var t := Run(p, history, score, ticks[..|ticks| - 1]);
      RunHoldsSound(p, history, score, ticks[..|ticks| - 1]);
      var targets := Targets(Signals(BarsAfter(t, history, last.snap), last.snap.names, score), p.strategy);
      if targets.Some? {
        var start := Progress(t.held, t.pnl, t.book, [], false);
        ExitsStaySound(p, start, HeldNames(t.held), last.snap, Wanted(targets.value), last.clock);
        EntriesStaySound(p, Exits(p, start, HeldNames(t.held), last.snap, Wanted(targets.value), last.clock),
                         targets.value, last.snap, last.clock);
      }
      hide Sound, Exits, Entries, Targets, Signals, Appended;
    }
  }

  lemma {:induction false} ExitsAreSells(p: Params, held: seq<Holding>, syms: seq<string>, snap: Snapshot,
                                         wanted: set<string>, clock: Clock)
    requires Sound(held)
    ensures forall r :: r in ExitRequests(p, held, syms, snap, wanted, clock) ==>
              r.side == "sell" && r.symbol != "" && r.qty > 0.0
  {
    if syms != [] {
      ExitsAreSells(p, held, syms[1..], snap, wanted, clock);
      if HeldOf(held, syms[0]).Some? {
        HeldIsAmong(held, syms[0]);
      }
    }
    hide FillPrice, HeldOf, Sound;
  }

  lemma {:induction false} HeldIsAmong(held: seq<Holding>, sym: string)
    requires HeldOf(held, sym).Some? && Sound(held)
    ensures HeldOf(held, sym).value.symbol == sym != "" && HeldOf(held, sym).value.qty > 0.0
  {
    if held[0].symbol == sym {
      assert held[0] in held;
    } else {
      assert forall h :: h in held[1..] ==> h in held;
      HeldIsAmong(held[1..], sym);
    }
  }

  lemma {:induction false} EntriesAreBuys(p: Params, names: set<string>, targets: seq<Position>, snap: Snapshot, clock: Clock)
    requires p.equity > 0.0
    requires forall i :: 0 <= i < |targets| ==> targets[i].weight > 0.0 && targets[i].symbol != ""
    ensures forall r :: r in EntryRequests(p, names, targets, snap, clock) ==>
              r.side == "buy" && r.symbol != "" && r.qty > 0.0 && r.price > 0.0
    decreases |targets|
  {
    if targets != [] {
      var due := EntryRequest(p, targets[0], snap, clock);
      EntriesAreBuys(p, names, targets[1..], snap, clock);
      EntriesAreBuys(p, names + {targets[0].symbol}, targets[1..], snap, clock);
      if due != [] {
        QuantityIsPositive(targets[0].weight, p.equity, snap.bars[targets[0].symbol].close);
      }
    }
    hide FillPrice, Quantity;
  }

  lemma QuantityIsPositive(weight: real, equity: real, price: real)
    requires 0.0 < weight && 0.0 < equity && 0.0 < price
    ensures 0.0 < Quantity(weight, equity, price)
  {
    assert 0.0 < weight * equity;
  }

  /** From a sound account of positive equity no buy is ever held up: an order due is not executed exactly
      when it is a sell the guard refuses, or one at a price that is not positive. */
  lemma OnlySellsAreBlocked(p: Params, history: nat, score: Score, t: Trader, snap: Snapshot, clock: Clock)
    requires snap.Quoted() && Sound(t.held) && p.equity > 0.0 && "" !in snap.names
    ensures forall r :: r in StepOrders(p, history, score, t, snap, clock) ==>
              (!B.Executes(t.book, p.settings, r) <==>
               r.side == "sell" && (r.price <= 0.0
                                    || Refuses(t.book.buys, p.settings, r.symbol, r.price, r.now, NO_OPTIONS)))
  {
    PlainSides();
    match Wishes(p, history, score, t, snap)
    case None =>
    case Some(targets) =>
      TargetsAreQuoted(BarsAfter(t, history, snap), snap.names, score, p.strategy);
      ExitsAreSells(p, t.held, HeldNames(t.held), snap, Wanted(targets), clock);
      EntriesAreBuys(p, NamesHeld(t.held), targets, snap, clock);
      hide Targets, Signals, ExitRequests, EntryRequests, Refuses, NormalSide, Sound;
  }

  // ---------------------------------------------------------------- a run that loses a fill

  function Around(close: real): Bar { Bar(close, close + 1.0, close - 1.0, close, 1.0) }

  /** Two names, the second at a chosen close. */
  function Pair(second: real): Snapshot { Snapshot(["A", "B"], map["A" := Around(100.0), "B" := Around(second)]) }

  function At(now: real): Clock { (sym: string) => (now, now) }

  /** The default sizing, costs and guard on ten thousand. */
  function Paper(): Params {
    Params(Sizer.DEFAULT, 10000.0, 10.0, 5.0, 0.0026, M.DEFAULT)
  }

  /** Wants every name at its first bar and none after. */
  function Fading(): Score { (sym: string, bars: seq<Bar>) => if |bars| < 2 then (1.0, 0.01) else (-1.0, 0.01) }

  /** Both names are bought at 100; then both are to be sold, the first at 100, the second at 50. */
  function Slump(): seq<Tick> { [Tick(Pair(100.0), At(0.0)), Tick(Pair(50.0), At(1.0))] }

  lemma PairFills(close: real)
    requires 0.0 < close <= 100.0
    ensures FillPrice(Around(close), close, 5.0, 10.0, true) == close * 1.001
    ensures FillPrice(Around(close), close, 5.0, 10.0, false) == close * 0.999
  {
  }

  function Wants(sym: string, score: real): SymbolSignal { SymbolSignal(sym, score, 0.01) }

  lemma BothAreWanted()
    ensures var signals := [Wants("A", 1.0), Wants("B", 1.0)];
            SelectPicks(FilterByConviction(signals, Sizer.DEFAULT), Sizer.DEFAULT) == signals
  {
    var a, b := Wants("A", 1.0), Wants("B", 1.0);
    assert [a, b][1..] == [b] && [b][1..] == [];
    assert FilterByConviction([b], Sizer.DEFAULT) == [b];
    assert FilterByConviction([a, b], Sizer.DEFAULT) == [a, b];
    assert Ranked([b]) == [b];
    assert TextLeq("A", "B");
    assert Ranked([a, b]) == [a, b];
  }

  lemma NoneIsWanted()
    ensures SelectPicks(FilterByConviction([Wants("A", -1.0), Wants("B", -1.0)], Sizer.DEFAULT), Sizer.DEFAULT) == []
  {
    var a, b := Wants("A", -1.0), Wants("B", -1.0);
    assert [a, b][1..] == [b] && [b][1..] == [];
    assert FilterByConviction([b], Sizer.DEFAULT) == [];
    assert FilterByConviction([a, b], Sizer.DEFAULT) == [];
  }

  lemma PairIsAppended(bars: map<string, seq<Bar>>, close: real, history: nat)
    ensures Pair(close).Quoted()
    ensures Appended(bars, ["A", "B"], Pair(close).bars, history)
         == bars["A" := Last(BarsOf(bars, "A") + [Around(100.0)], history)]
                ["B" := Last(BarsOf(bars, "B") + [Around(close)], history)]
  {
    hide Last, Around;
    assert ["A", "B"][1..] == ["B"] && ["B"][1..] == [];
  }

  lemma PairIsScored(bars: map<string, seq<Bar>>, score: Score)
    requires BarsOf(bars, "A") != [] && BarsOf(bars, "B") != []
    ensures Signals(bars, ["A", "B"], score)
         == [SignalOf("A", BarsOf(bars, "A"), score), SignalOf("B", BarsOf(bars, "B"), score)]
  {
    hide BarsOf;
    assert ["A", "B"][1..] == ["B"] && ["B"][1..] == [];
    assert Signals(bars, ["B"], score) == [SignalOf("B", BarsOf(bars, "B"), score)];
  }

  lemma FirstSignals(history: nat)
    requires 2 <= history
    ensures Pair(100.0).Quoted()
    ensures var bars := Appended(map[], ["A", "B"], Pair(100.0).bars, history);
            && bars == map["A" := [Around(100.0)], "B" := [Around(100.0)]]
            && Signals(bars, ["A", "B"], Fading()) == [Wants("A", 1.0), Wants("B", 1.0)]
  {
    hide Appended, Signals, Around;
    PairIsAppended(map[], 100.0, history);
    PairIsScored(map["A" := [Around(100.0)], "B" := [Around(100.0)]], Fading());
  }

  lemma SecondSignals(history: nat)
    requires 2 <= history
    ensures Pair(50.0).Quoted()
    ensures var bars := Appended(map["A" := [Around(100.0)], "B" := [Around(100.0)]], ["A", "B"], Pair(50.0).bars, history);
            Signals(bars, ["A", "B"], Fading()) == [Wants("A", -1.0), Wants("B", -1.0)]
  {
    hide Appended, Signals, Around;
    var first := map["A" := [Around(100.0)], "B" := [Around(100.0)]];
    PairIsAppended(first, 50.0, history);
    PairIsScored(Appended(first, ["A", "B"], Pair(50.0).bars, history), Fading());
  }

  /** Both names held and remembered at 100. */
  predicate HoldsThePair(t: Trader) {
    && |t.held| == 2 && t.held[0].symbol == "A" && t.held[1].symbol == "B"
    && t.held[0].qty > 0.0 && t.held[1].qty > 0.0
    && t.book.buys == map["A" := Buy(100.0, 0.0), "B" := Buy(100.0, 0.0)]
  }

  lemma UpperPair()
    ensures Upper("A") == "A" && Upper("B") == "B"
  {
  }

  /** One entry at 100 of a name that is not held. */
  lemma EntryBuys(g: Progress, sym: string, weight: real)
    requires !g.raised && sym != "" && Upper(sym) == sym && weight > 0.0
    requires forall k :: k in g.book.buys ==> g.book.buys[k].ts == 0.0
    ensures var h := Entry(Paper(), g, sym, weight, Around(100.0), At(0.0));
            && !h.raised && h.book.buys == g.book.buys[sym := Buy(100.0, 0.0)]
            && h.held == g.held + [Holding(sym, Quantity(weight, 10000.0, 100.0), 100.0 * 1.001)]
            && Quantity(weight, 10000.0, 100.0) > 0.0
  {
    PairFills(100.0);
    PlainSides();
    QuantityIsPositive(weight, 10000.0, 100.0);
    assert Pruned(g.book.buys, 0.0, 259200.0) == g.book.buys;
    hide FillPrice, Quantity, NormalSide, Upper, Pruned;
  }

  lemma BothAreBought(weightA: real, weightB: real)
    requires weightA > 0.0 && weightB > 0.0
    ensures var g := Trade(Paper(), [], 0.0, B.Book(map[], []), [Position("A", weightA), Position("B", weightB)],
                           Pair(100.0), At(0.0));
            && !g.raised && |g.held| == 2 && g.held[0].symbol == "A" && g.held[1].symbol == "B"
            && g.held[0].qty > 0.0 && g.held[1].qty > 0.0
            && g.book.buys == map["A" := Buy(100.0, 0.0), "B" := Buy(100.0, 0.0)]
  {
    var start := Progress([], 0.0, B.Book(map[], []), [], false);
    var targets := [Position("A", weightA), Position("B", weightB)];
    assert targets[1..] == [targets[1]] && targets[1..][1..] == [];
    UpperPair();
    EntryBuys(start, "A", weightA);
    var one := Entry(Paper(), start, "A", weightA, Around(100.0), At(0.0));
    EntryBuys(one, "B", weightB);
    var two := Entry(Paper(), one, "B", weightB, Around(100.0), At(0.0));
    assert HeldNames([]) == [] && HeldOf([], "A") == None;
    assert Entries(Paper(), two, [], Pair(100.0), At(0.0)) == two;
    assert one.held == [one.held[0]] && HeldOf(one.held, "B") == None;
    assert Entries(Paper(), one, targets[1..], Pair(100.0), At(0.0)) == two;
    assert Entries(Paper(), start, targets, Pair(100.0), At(0.0)) == two;
    hide Entry, Upper, Quantity;
  }

  /** The positions taken at the first bar, whatever weights the sizer gives. */
  lemma FirstTargets()
    ensures var targets := Targets([Wants("A", 1.0), Wants("B", 1.0)], Sizer.DEFAULT);
            && targets.Some? && |targets.value| == 2
            && targets.value[0].symbol == "A" && targets.value[1].symbol == "B"
            && targets.value[0].weight > 0.0 && targets.value[1].weight > 0.0
  {
    var picks := [Wants("A", 1.0), Wants("B", 1.0)];
    BothAreWanted();
    EveryPickIsFunded(picks, Sizer.DEFAULT);
    PositionsMatchPicks(picks, Allocation(picks, Sizer.DEFAULT));
    hide SelectPicks, FilterByConviction, Allocation, Positions, Divisible;
  }

  lemma FirstTick(history: nat)
    requires 2 <= history
    ensures Pair(100.0).Quoted()
    ensures var (t, raised) := Stepped(Paper(), history, Fading(), NEW, Pair(100.0), At(0.0));
            && !raised && HoldsThePair(t)
            && t.bars == map["A" := [Around(100.0)], "B" := [Around(100.0)]]
  {
    hide Trade, Targets, Signals, Appended, Fading, Around;
    FirstSignals(history);
    FirstTargets();
    var targets := Targets([Wants("A", 1.0), Wants("B", 1.0)], Sizer.DEFAULT).value;
    assert targets == [Position("A", targets[0].weight), Position("B", targets[1].weight)];
    BothAreBought(targets[0].weight, targets[1].weight);
  }

  lemma SecondWishes(history: nat, t: Trader)
    requires 2 <= history && t.bars == map["A" := [Around(100.0)], "B" := [Around(100.0)]]
    ensures Wishes(Paper(), history, Fading(), t, Pair(50.0)) == Some([])
  {
    SecondSignals(history);
    NoneIsWanted();
    hide SelectPicks, FilterByConviction, Signals, Appended, Fading;
  }

  /** The first sale is good, the second is below the floor of its buy. */
  lemma SecondOrders(t: Trader)
    requires HoldsThePair(t)
    ensures var due := ExitsDue(Paper(), t.held, [], Pair(50.0), At(1.0));
            && due == [Sell("A", t.held[0].qty, Around(100.0), At(1.0)), Sell("B", t.held[1].qty, Around(50.0), At(1.0))]
            && B.Executes(t.book, M.DEFAULT, due[0]) && !B.Executes(t.book, M.DEFAULT, due[1])
  {
    PairFills(100.0);
    PairFills(50.0);
    PlainSides();
    UpperPair();
    var names := HeldNames(t.held);
    assert names == ["A", "B"] && names[1..] == ["B"] && names[1..][1..] == [];
    assert t.held[1..][0] == t.held[1];
    assert HeldOf(t.held, "A") == Some(t.held[0]) && HeldOf(t.held, "B") == Some(t.held[1]);
    var sells := [Sell("A", t.held[0].qty, Around(100.0), At(1.0)), Sell("B", t.held[1].qty, Around(50.0), At(1.0))];
    hide FillPrice, HeldOf, NormalSide, Upper;
    assert ExitRequest(Paper(), t.held, "A", Pair(50.0), {}, At(1.0)) == [sells[0]];
    assert ExitRequest(Paper(), t.held, "B", Pair(50.0), {}, At(1.0)) == [sells[1]];
    assert ExitRequests(Paper(), t.held, names[1..], Pair(50.0), {}, At(1.0)) == [sells[1]];
    assert ExitRequests(Paper(), t.held, names, Pair(50.0), {}, At(1.0)) == sells;
    assert Wanted([]) == {};
  }

  lemma SecondTick(history: nat, t: Trader)
    requires 2 <= history && HoldsThePair(t) && InBalance(Paper(), t)
    requires t.bars == map["A" := [Around(100.0)], "B" := [Around(100.0)]]
    ensures Pair(50.0).Quoted()
    ensures !InBalance(Paper(), Stepped(Paper(), history, Fading(), t, Pair(50.0), At(1.0)).0)
  {
    hide InBalance, Stepped, ExitsDue, Fading, HoldsThePair, B.Executes, Around;
    SecondWishes(history, t);
    SecondOrders(t);
    StepLosesFills(Paper(), history, Fading(), t, Pair(50.0), At(1.0));
  }

  /** A run from a new trader that loses a fill: nothing raises at the first tick, and after the second the
      sale of the first name has been executed but is in no ledger. */
  lemma RefusalLosesFills(history: nat)
    requires 2 <= history
    ensures Quoted(Slump())
    ensures Quiet(Paper(), history, Fading(), Slump()[..1])
    ensures InBalance(Paper(), Run(Paper(), history, Fading(), Slump()[..1]))
    ensures !InBalance(Paper(), Run(Paper(), history, Fading(), Slump()))
  {
    hide InBalance, Stepped, Fading, Around, Pair, At, HoldsThePair;
    FirstTick(history);
    var t := Stepped(Paper(), history, Fading(), NEW, Pair(100.0), At(0.0)).0;
    SlumpRuns(history);
    RunKeepsTheLedger(Paper(), history, Fading(), Slump()[..1]);
    SecondTick(history, t);
  }

  lemma SlumpRuns(history: nat)
    requires 2 <= history
    ensures Pair(100.0).Quoted() && Pair(50.0).Quoted() && Quoted(Slump())
    ensures var (t, raised) := Stepped(Paper(), history, Fading(), NEW, Pair(100.0), At(0.0));
            && Run(Paper(), history, Fading(), Slump()[..1]) == t
            && Quiet(Paper(), history, Fading(), Slump()[..1]) == !raised
            && Run(Paper(), history, Fading(), Slump()) == Stepped(Paper(), history, Fading(), t, Pair(50.0), At(1.0)).0
  {
    hide Stepped, Fading, Around;
    var ticks := Slump();
    assert ticks[..1] == [ticks[0]] && [ticks[0]][..0] == [];
    assert Run(Paper(), history, Fading(), []) == NEW;
  }
}
