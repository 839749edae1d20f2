/** The paper trader: bounded bar histories, the sizing pipeline, guarded orders, fills simulated by the one
    fill engine, and a ledger of what was traded. */
module KrakenPaper {
  import opened Prelude
  import opened Engine
  import opened BuyMemory
  import opened Sizer
  import opened Strategy
  import B = Broker
  import T = Technical

  datatype Holding = Holding(symbol: string, qty: real, entryFill: real)

  /** A simulated fill; `realizedPnl` is zero on the opening leg. */
  datatype PaperFill = PaperFill(
    symbol: string,
    side: string,
    qty: real,
    decisionPrice: real,
    fillPrice: real,
    realizedPnl: real)

  datatype Params = Params(
    strategy: StrategyConfig,
    equity: real,
    slippageBps: real,
    bufferBps: real,
    feeRate: real,
    settings: Settings)

  /** The closed bar of each symbol, in the snapshot's order. */
  datatype Snapshot = Snapshot(names: seq<string>, bars: map<string, Bar>) {
    predicate Quoted() { forall s :: s in names ==> s in bars }
  }

  /** The clock as the guard and the buy record read it for each symbol's order. */
  type Clock = string -> (real, real)

  type Score = (string, seq<Bar>) -> (real, real)

  // ---------------------------------------------------------------- fills

  /** The fill engine at an arbitrary target; zero when the bar cannot fill the order. */
  function FillPrice(bar: Bar, target: real, bufferBps: real, slippageBps: real, isBuy: bool): real {
    match LimitFill(BareEnv(bufferBps, slippageBps), bar, target, isBuy)
    case Some(fill) => fill
    case None => 0.0
  }

  function BareEnv(bufferBps: real, slippageBps: real): EnvConfig {
    EnvConfig(0, 0.001, 1.0, 0.0, 0.0, 0, false, 0, 0.0, 1, 1, 0.0, slippageBps, bufferBps, 0.0, 0, 0.0, 0.0, 0, 0)
  }

  function Net(feeRate: real, qty: real, entry: real, exit: real): real {
    qty * (exit - entry) - feeRate * qty * (entry + exit)
  }

  function HeldOf(held: seq<Holding>, sym: string): Option<Holding> {
    if held == [] then None
    else if held[0].symbol == sym then Some(held[0])
    else HeldOf(held[1..], sym)
  }

  function Without(held: seq<Holding>, sym: string): seq<Holding> {
    if held == [] then []
    else if held[0].symbol == sym then held[1..]
    else [held[0]] + Without(held[1..], sym)
  }

  /** Where a step stands: positions, realised profit, orders, the fills of this step so far, and whether
      an order has raised. */
  datatype Progress = Progress(held: seq<Holding>, pnl: real, book: B.Book, events: seq<PaperFill>, raised: bool)

  function Sell(sym: string, qty: real, bar: Bar, clock: Clock): B.Request {
    B.Request(sym, "sell", qty, bar.close, clock(sym).0, clock(sym).1)
  }

  function Buying(sym: string, qty: real, bar: Bar, clock: Clock): B.Request {
    B.Request(sym, "buy", qty, bar.close, clock(sym).0, clock(sym).1)
  }

  /** A guarded exit at the close; no fill leaves the name held, a refusal raises. */
  function Exit(p: Params, g: Progress, sym: string, bar: Bar, clock: Clock): Progress {
    var fill := FillPrice(bar, bar.close, p.bufferBps, p.slippageBps, false);
    var held := HeldOf(g.held, sym);
    if fill <= 0.0 || held.None? then g
    else
      var Holding(_, qty, entry) := held.value;
      var order := Sell(sym, qty, bar, clock);
      var book := B.Submitted(g.book, p.settings, order);
      if !B.Executes(g.book, p.settings, order) then g.(book := book, raised := true)
      else
        var net := Net(p.feeRate, qty, entry, fill);
        Progress(Without(g.held, sym), g.pnl + net, book,
                 g.events + [PaperFill(sym, "sell", qty, bar.close, fill, net)], false)
  }

  function Entered(p: Params, g: Progress, sym: string, qty: real, bar: Bar, clock: Clock): Progress {
    var fill := FillPrice(bar, bar.close, p.bufferBps, p.slippageBps, true);
    if fill <= 0.0 then g
    else
      var order := Buying(sym, qty, bar, clock);
      var book := B.Submitted(g.book, p.settings, order);
      if !B.Executes(g.book, p.settings, order) then g.(book := book, raised := true)
      else
        Progress(g.held + [Holding(sym, qty, fill)], g.pnl, book,
                 g.events + [PaperFill(sym, "buy", qty, bar.close, fill, 0.0)], false)
  }

  function Quantity(weight: real, equity: real, price: real): real
    requires price > 0.0
  {
    weight * equity / price
  }

  /** A guarded entry at the close, sized as a fraction of equity. */
  function Entry(p: Params, g: Progress, sym: string, weight: real, bar: Bar, clock: Clock): Progress {
    if bar.close <= 0.0 then g else Entered(p, g, sym, Quantity(weight, p.equity, bar.close), bar, clock)
  }

  function Wanted(positions: seq<Position>): set<string> { set i | 0 <= i < |positions| :: positions[i].symbol }

  /** Exits, in the order the names were entered, of whatever is held, quoted and no longer wanted. */
  function Exits(p: Params, g: Progress, syms: seq<string>, snap: Snapshot, wanted: set<string>, clock: Clock): Progress
    decreases |syms|
  {
    if g.raised || syms == [] then g
    else if syms[0] in wanted || syms[0] !in snap.bars then Exits(p, g, syms[1..], snap, wanted, clock)
    else Exits(p, Exit(p, g, syms[0], snap.bars[syms[0]], clock), syms[1..], snap, wanted, clock)
  }

  /** Entries, in target order; a target missing from the snapshot raises. */
  function Entries(p: Params, g: Progress, targets: seq<Position>, snap: Snapshot, clock: Clock): Progress
    decreases |targets|
  {
    if g.raised || targets == [] then g
    else if HeldOf(g.held, targets[0].symbol).Some? then Entries(p, g, targets[1..], snap, clock)
    else if targets[0].symbol !in snap.bars then g.(raised := true)
    else
      Entries(p, Entry(p, g, targets[0].symbol, targets[0].weight, snap.bars[targets[0].symbol], clock), targets[1..],
              snap, clock)
  }

  // ---------------------------------------------------------------- a step

  datatype Trader = Trader(
    bars: map<string, seq<Bar>>,
    held: seq<Holding>,
    pnl: real,
    fills: seq<PaperFill>,
    book: B.Book)

  const NEW := Trader(map[], [], 0.0, [], B.Book(map[], []))

  function Last(s: seq<Bar>, n: nat): seq<Bar> { s[|s| - Min(|s|, n)..] }

  function BarsOf(bars: map<string, seq<Bar>>, sym: string): seq<Bar> { if sym in bars then bars[sym] else [] }

  /** Every name's new bar goes on its history, of which the last bars are kept. */
  function Appended(bars: map<string, seq<Bar>>, names: seq<string>, quotes: map<string, Bar>, history: nat):
    map<string, seq<Bar>>
    requires forall s :: s in names ==> s in quotes
    decreases |names|
  {
    if names == [] then bars
    else
      Appended(bars[names[0] := Last(BarsOf(bars, names[0]) + [quotes[names[0]]], history)], names[1..], quotes,
               history)
  }

  function SignalOf(sym: string, bars: seq<Bar>, score: Score): SymbolSignal {
    SymbolSignal(sym, score(sym, bars).0, score(sym, bars).1)
  }

  /** One signal for each name that has bars, in order. */
  function Signals(bars: map<string, seq<Bar>>, names: seq<string>, score: Score): seq<SymbolSignal> {
    if names == [] then []
    else
      var mine := BarsOf(bars, names[0]);
      (if mine == [] then [] else [SignalOf(names[0], mine, score)]) + Signals(bars, names[1..], score)
  }

  function HeldNames(held: seq<Holding>): (r: seq<string>)
    ensures |r| == |held|
  {
    seq(|held|, i requires 0 <= i < |held| => held[i].symbol)
  }

  /** What the pipeline wants of these signals, unless it divides by zero. */
  function Targets(signals: seq<SymbolSignal>, cfg: StrategyConfig): Option<seq<Position>> {
    var picks := SelectPicks(FilterByConviction(signals, cfg), cfg);
    if Divisible(picks, cfg.minVolatility) then Some(Positions(picks, Allocation(picks, cfg))) else None
  }

  /** The trading part of a step: exits, then entries. */
  function Trade(p: Params, held: seq<Holding>, pnl: real, book: B.Book, targets: seq<Position>, snap: Snapshot,
                 clock: Clock): Progress
  {
    var start := Progress(held, pnl, book, [], false);
    Entries(p, Exits(p, start, HeldNames(held), snap, Wanted(targets), clock), targets, snap, clock)
  }

  /** One decision cycle. A step that raises keeps what it did to positions and orders but records none of
      its fills. The flag tells whether it raised. */
  function Stepped(p: Params, history: nat, score: Score, t: Trader, snap: Snapshot, clock: Clock): (Trader, bool)
    requires snap.Quoted()
  {
    var bars := Appended(t.bars, snap.names, snap.bars, history);
    var targets := Targets(Signals(bars, snap.names, score), p.strategy);
    if targets.None? then (t.(bars := bars), true)
    else
      var g := Trade(p, t.held, t.pnl, t.book, targets.value, snap, clock);
      (Trader(bars, g.held, g.pnl, if g.raised then t.fills else t.fills + g.events, g.book), g.raised)
  }

  // ---------------------------------------------------------------- the trader object

  class KrakenPaperTrader {
    const params: Params
    const history: nat
    const score: Score
    const broker: B.Broker
    var bars: map<string, seq<Bar>>
    var held: seq<Holding>
    var realizedPnl: real
    var fills: seq<PaperFill>

    constructor (params: Params, history: nat, score: Score, broker: B.Broker)
      ensures this.params == params && this.history == history && this.score == score && this.broker == broker
      ensures bars == map[] && held == [] && realizedPnl == 0.0 && fills == []
    {
      this.params, this.history, this.score, this.broker := params, history, score, broker;
      bars, held, realizedPnl, fills := map[], [], 0.0, [];
    }

    ghost predicate Valid()
      reads broker.memory
    {
      broker.memory.settings == params.settings
    }

    function State(): Trader
      reads this, broker, broker.executor, broker.memory
    {
      Trader(bars, held, realizedPnl, fills, broker.Contents())
    }

    function Now(events: seq<PaperFill>, raised: bool): Progress
      reads this, broker, broker.executor, broker.memory
    {
      Progress(held, realizedPnl, broker.Contents(), events, raised)
    }

    method SimulateExit(sym: string, bar: Bar, clock: Clock, ghost events: seq<PaperFill>)
      returns (r: Result<Option<PaperFill>>)
      requires Valid() && HeldOf(held, sym).Some?
      modifies this`held, this`realizedPnl, broker.executor, broker.memory
      ensures Now(if r.Ok? && r.value.Some? then events + [r.value.value] else events, r.Err?)
           == Exit(params, old(Now(events, false)), sym, bar, clock)
    {
      var sellFill := FillPrice(bar, bar.close, params.bufferBps, params.slippageBps, false);
      if sellFill <= 0.0 {
        return Ok(None);
      }
      var holding := HeldOf(held, sym).value;
      var order := broker.SubmitOrder(Sell(sym, holding.qty, bar, clock));
      if order.Err? {
        return Err(order.message);
      }
      held := Without(held, sym);
      var net := Net(params.feeRate, holding.qty, holding.entryFill, sellFill);
      realizedPnl := realizedPnl + net;
      r := Ok(Some(PaperFill(sym, "sell", holding.qty, bar.close, sellFill, net)));
    }

    method SimulateEntry(sym: string, qty: real, bar: Bar, clock: Clock, ghost events: seq<PaperFill>)
      returns (r: Result<Option<PaperFill>>)
      requires Valid()
      modifies this`held, broker.executor, broker.memory
      ensures Now(if r.Ok? && r.value.Some? then events + [r.value.value] else events, r.Err?)
           == Entered(params, old(Now(events, false)), sym, qty, bar, clock)
    {
      var entryFill := FillPrice(bar, bar.close, params.bufferBps, params.slippageBps, true);
      if entryFill <= 0.0 {
        return Ok(None);
      }
      var order := broker.SubmitOrder(Buying(sym, qty, bar, clock));
      if order.Err? {
        return Err(order.message);
      }
      held := held + [Holding(sym, qty, entryFill)];
      r := Ok(Some(PaperFill(sym, "buy", qty, bar.close, entryFill, 0.0)));
    }

    /** Appends each closed bar and drops the oldest beyond the history length. */
    method AppendBars(snap: Snapshot)
      requires snap.Quoted()
      modifies this`bars
      ensures bars == Appended(old(bars), snap.names, snap.bars, history)
    {
      for i := 0 to |snap.names|
        invariant Appended(bars, snap.names[i..], snap.bars, history)
               == Appended(old(bars), snap.names, snap.bars, history)
      {
        var sym := snap.names[i];
        assert snap.names[i..][1..] == snap.names[i + 1..];
        var all := BarsOf(bars, sym) + [snap.bars[sym]];
        var kept := all;
        while |kept| > history
          invariant |kept| <= |all| && kept == all[|all| - |kept|..]
          invariant |kept| >= Min(|all|, history)
          decreases |kept|
        {
          kept := kept[1..];
        }
        bars := bars[sym := kept];
      }
    }

    method GatherSignals(names: seq<string>) returns (signals: seq<SymbolSignal>)
      ensures signals == Signals(bars, names, score)
    {
      signals := [];
      for i := 0 to |names|
        invariant signals + Signals(bars, names[i..], score) == Signals(bars, names, score)
      {
        assert names[i..][1..] == names[i + 1..];
        var mine := BarsOf(bars, names[i]);
        if mine != [] {
          var (conviction, volatility) := score(names[i], mine);
          signals := signals + [SymbolSignal(names[i], conviction, volatility)];
          assert SignalOf(names[i], mine, score) == SymbolSignal(names[i], conviction, volatility);
        }
      }
    }

    method ExitUnwanted(targets: seq<Position>, snap: Snapshot, clock: Clock) returns (events: seq<PaperFill>,
                        raised: bool)
      requires Valid()
      modifies this`held, this`realizedPnl, broker.executor, broker.memory
      ensures Now(events, raised)
           == Exits(params, old(Now([], false)), HeldNames(old(held)), snap, Wanted(targets), clock)
    {
      var names := HeldNames(held);
      events, raised := [], false;
      ghost var start := Now([], false);
      for i := 0 to |names|
        invariant !raised
        invariant Exits(params, Now(events, false), names[i..], snap, Wanted(targets), clock)
               == Exits(params, start, names, snap, Wanted(targets), clock)
      {
        assert names[i..][1..] == names[i + 1..];
        var sym := names[i];
        if sym !in Wanted(targets) && sym in snap.bars && HeldOf(held, sym).Some? {
          var r := SimulateExit(sym, snap.bars[sym], clock, events);
          if r.Err? {
            raised := true;
            return;
          }
          if r.value.Some? {
            events := events + [r.value.value];
          }
        }
      }
    }

    method EnterWanted(targets: seq<Position>, snap: Snapshot, clock: Clock, events: seq<PaperFill>)
      returns (more: seq<PaperFill>, raised: bool)
      requires Valid()
      modifies this`held, broker.executor, broker.memory
      ensures Now(more, raised) == Entries(params, old(Now(events, false)), targets, snap, clock)
    {
      hide Entered, Quantity, FillPrice;
      more, raised := events, false;
      ghost var start := Now(events, false);
      for i := 0 to |targets|
        invariant !raised
        invariant Entries(params, Now(more, false), targets[i..], snap, clock)
               == Entries(params, start, targets, snap, clock)
      {
        assert targets[i..][1..] == targets[i + 1..];
        var sym := targets[i].symbol;
        if HeldOf(held, sym).None? {
          if sym !in snap.bars {
            raised := true;
            return;
          }
          var price := snap.bars[sym].close;
          if price > 0.0 {
            var qty := Quantity(targets[i].weight, params.equity, price);
            var r := SimulateEntry(sym, qty, snap.bars[sym], clock, more);
            if r.Err? {
              raised := true;
              return;
            }
            if r.value.Some? {
              more := more + [r.value.value];
            }
          }
        }
      }
    }

    method Step(snap: Snapshot, clock: Clock) returns (r: Result<seq<PaperFill>>)
      requires Valid() && snap.Quoted()
      modifies this, broker.executor, broker.memory
      ensures (State(), r.Err?) == Stepped(params, history, score, old(State()), snap, clock)
      ensures r.Ok? ==> fills == old(fills) + r.value
    {
      AppendBars(snap);
      var signals := GatherSignals(snap.names);
      var targets := Decide(signals, params.strategy);
      if targets.Err? {
        return Err(targets.message);
      }
      var events, raised := ExitUnwanted(targets.value, snap, clock);
      if raised {
        return Err("exit refused");
      }
      events, raised := EnterWanted(targets.value, snap, clock, events);
      if raised {
        return Err("entry refused");
      }
      fills := fills + events;
      r := Ok(events);
    }
  }
}
