/** The one order write surface: check the order, guard it, execute it, and only then remember a buy. */
module Broker {
  import opened Prelude
  import opened BuyMemory

  datatype Order = Order(symbol: string, side: string, qty: real, price: real)

  /** One submission, with the clock as the guard and the buy record read it. */
  datatype Request = Request(symbol: string, side: string, qty: real, price: real, now: real, stamp: real)

  class PaperExecutor {
    var filled: seq<Order>

    constructor ()
      ensures filled == []
    {
      filled := [];
    }

    method Execute(order: Order)
      modifies this
      ensures filled == old(filled) + [order]
    {
      filled := filled + [order];
    }
  }

  /** What a broker works on: the persistent buy map and the executed orders. */
  datatype Book = Book(buys: map<string, Buy>, filled: seq<Order>)

  predicate WellFormed(r: Request) {
    NormalSide(r.side) in {"buy", "sell"} && r.symbol != "" && r.qty > 0.0 && r.price > 0.0
  }

  function OrderOf(r: Request): Order { Order(r.symbol, NormalSide(r.side), r.qty, r.price) }

  predicate IsBuy(r: Request) { WellFormed(r) && NormalSide(r.side) == "buy" }

  predicate IsSell(r: Request) { WellFormed(r) && NormalSide(r.side) == "sell" }

  /** Whether a request reaches the executor. */
  predicate Executes(b: Book, settings: Settings, r: Request) {
    IsBuy(r) || (IsSell(r) && !Refuses(b.buys, settings, r.symbol, r.price, r.now, NO_OPTIONS))
  }

  /** The book after a request. A refused sell leaves only its pruning behind, a malformed one nothing. */
  function Submitted(b: Book, settings: Settings, r: Request): Book {
    if IsBuy(r) then
      Book(Recorded(b.buys, settings.memorySeconds, r.symbol, r.price, r.now, r.stamp), b.filled + [OrderOf(r)])
    else if IsSell(r) then
      Book(Pruned(b.buys, r.now, settings.memorySeconds),
           if Executes(b, settings, r) then b.filled + [OrderOf(r)] else b.filled)
    else b
  }

  lemma SubmittedFills(b: Book, settings: Settings, r: Request)
    ensures Submitted(b, settings, r).filled == if Executes(b, settings, r) then b.filled + [OrderOf(r)] else b.filled
  {
  }

  class Broker {
    const executor: PaperExecutor
    const memory: BuyMemory

    constructor (executor: PaperExecutor, memory: BuyMemory)
      ensures this.executor == executor && this.memory == memory
    {
      this.executor := executor;
      this.memory := memory;
    }

    function Contents(): Book
      reads this, executor, memory
    {
      Book(memory.buys, executor.filled)
    }

    method SubmitOrder(r: Request) returns (order: Result<Order>)
      modifies executor, memory
      ensures Contents() == Submitted(old(Contents()), memory.settings, r)
      ensures order.Ok? <==> Executes(old(Contents()), memory.settings, r)
      ensures order.Ok? ==> order.value == OrderOf(r)
    {
      var sideNorm := NormalSide(r.side);
      if sideNorm != "buy" && sideNorm != "sell" {
        return Err("invalid side");
      }
      if r.symbol == "" {
        return Err("missing symbol");
      }
      if !(r.qty > 0.0) {
        return Err("qty must be > 0");
      }
      if !(r.price > 0.0) {
        return Err("price must be > 0");
      }
      NormalIsNormal(r.side);
      var guard := memory.GuardSell(r.symbol, sideNorm, r.price, r.now, NO_OPTIONS, false);
      if guard.Err? {
        return Err(guard.message);
      }
      var placed := Order(r.symbol, sideNorm, r.qty, r.price);
      executor.Execute(placed);
      if sideNorm == "buy" {
        memory.RecordBuyPrice(r.symbol, r.price, r.now, r.stamp);
      }
      order := Ok(placed);
    }
  }

  lemma NormalIsNormal(side: string)
    requires NormalSide(side) in {"buy", "sell"}
    ensures NormalSide(NormalSide(side)) == NormalSide(side)
  {
  }

  // ---------------------------------------------------------------- whole runs

  function Run(settings: Settings, requests: seq<Request>): Book {
    if requests == [] then Book(map[], [])
    else Submitted(Run(settings, requests[..|requests| - 1]), settings, requests[|requests| - 1])
  }

  /** What a request does to the buy memory. */
  function EventOf(r: Request): (e: seq<Event>)
    ensures |e| <= 1
  {
    if IsBuy(r) then [Bought(Upper(r.symbol), Buy(r.price, r.stamp), r.now)]
    else if IsSell(r) then [Looked(r.now)]
    else []
  }

  function Events(requests: seq<Request>): seq<Event> {
    if requests == [] then [] else Events(requests[..|requests| - 1]) + EventOf(requests[|requests| - 1])
  }

  lemma SubmittedIsApplied(b: Book, settings: Settings, r: Request)
    ensures Submitted(b, settings, r).buys ==
            if EventOf(r) == [] then b.buys else Applied(b.buys, EventOf(r)[0], settings.memorySeconds)
  {
  }

  lemma OneMoreEvent(history: seq<Event>, more: seq<Event>, window: real, key: string)
    requires |more| <= 1
    ensures Memory(history + more, window) ==
            if more == [] then Memory(history, window) else Applied(Memory(history, window), more[0], window)
    ensures LatestBuy(history + more, key) ==
            if more == [] then LatestBuy(history, key)
            else if more[0].Bought? && more[0].key == key then Some(more[0].buy)
            else if more[0].ForgotAll? || (more[0].Forgot? && more[0].key == key) then None
            else LatestBuy(history, key)
  {
    if more == [] {
      assert history + more == history;
    } else {
      assert (history + more)[..|history|] == history;
    }
  }

  lemma {:induction false} RunIsMemory(settings: Settings, requests: seq<Request>)
    ensures Run(settings, requests).buys == Memory(Events(requests), settings.memorySeconds)
  {
    if requests == [] {
    } else {
      var before, r := requests[..|requests| - 1], requests[|requests| - 1];
      RunIsMemory(settings, before);
      SubmittedIsApplied(Run(settings, before), settings, r);
      OneMoreEvent(Events(before), EventOf(r), settings.memorySeconds, "");
      hide Submitted, EventOf, Applied;
    }
  }

  /** The last well-formed buy of a symbol, read off the requests alone. */
  function LastBuy(requests: seq<Request>, key: string): Option<Buy> {
    if requests == [] then None
    else
      var r := requests[|requests| - 1];
      if IsBuy(r) && Upper(r.symbol) == key then Some(Buy(r.price, r.stamp))
      else LastBuy(requests[..|requests| - 1], key)
  }

  lemma {:induction false} LastBuyIsLatest(requests: seq<Request>, key: string)
    ensures LatestBuy(Events(requests), key) == LastBuy(requests, key)
    ensures LastBuy(requests, key).Some? ==> LastBuy(requests, key).value.price > 0.0
  {
    if requests == [] {
    } else {
      var before, r := requests[..|requests| - 1], requests[|requests| - 1];
      LastBuyIsLatest(before, key);
      OneMoreEvent(Events(before), EventOf(r), 0.0, key);
      hide Upper, NormalSide, LatestBuy;
    }
  }

  /** The clock never runs backwards over a run. */
  predicate Timely(requests: seq<Request>, now: real) {
    if requests == [] then true
    else
      var r := requests[|requests| - 1];
      r.now <= r.stamp <= now && Timely(requests[..|requests| - 1], r.now)
  }

  lemma {:induction false} TimelyIsInOrder(requests: seq<Request>, now: real)
    requires Timely(requests, now)
    ensures InOrder(Events(requests), now)
  {
    if requests == [] {
    } else {
      var before, r := requests[..|requests| - 1], requests[|requests| - 1];
      TimelyIsInOrder(before, r.now);
      InOrderLater(Events(before), r.now, now);
      assert (Events(before) + EventOf(r))[..|Events(before)|] == Events(before);
      assert Events(before) + [] == Events(before);
      hide Upper, NormalSide;
    }
  }

  /** Below the floor of the last buy, when that is recent enough to count. */
  predicate Spirals(settings: Settings, requests: seq<Request>, r: Request) {
    var last := LastBuy(requests, Upper(r.symbol));
    && last.Some? && Fresh(last.value, r.now, settings.memorySeconds)
    && r.price < Floor(last.value.price, settings.toleranceBps)
  }

  /** After any run on a clock that never runs backwards, a well-formed sell is executed exactly when it
      is not below the floor of the last buy of its symbol in the window; when it is refused the executor
      is untouched. The last buy is read off the whole run, not off the pruned map. */
  lemma SellsMeetTheFloor(settings: Settings, requests: seq<Request>, r: Request)
    requires IsSell(r) && Timely(requests, r.now)
    ensures Executes(Run(settings, requests), settings, r) <==> !Spirals(settings, requests, r)
    ensures Run(settings, requests + [r]).filled ==
            Run(settings, requests).filled + if Spirals(settings, requests, r) then [] else [OrderOf(r)]
  {
    var key := Upper(r.symbol);
    RunIsMemory(settings, requests);
    LastBuyIsLatest(requests, key);
    TimelyIsInOrder(requests, r.now);
    PruningIsLossless(Events(requests), key, r.now, settings.memorySeconds);
    RefusesByLookup(Run(settings, requests).buys, settings, r.symbol, r.price, r.now);
    assert (requests + [r])[..|requests|] == requests;
    hide Upper, NormalSide, Floor, Memory, LatestBuy, Events, LastBuy, Refuses, Lookup, Pruned, Timely, InOrder;
  }

  lemma RefusesByLookup(buys: map<string, Buy>, settings: Settings, symbol: string, price: real, now: real)
    ensures Refuses(buys, settings, symbol, price, now, NO_OPTIONS) <==>
            var found := Lookup(Pruned(buys, now, settings.memorySeconds), Upper(symbol));
            found.Some? && found.value.price > 0.0 && price < Floor(found.value.price, settings.toleranceBps)
  {
  }

  /** A sell executed against a buy inside the window. */
  predicate RoundTrip(settings: Settings, requests: seq<Request>, r: Request) {
    var last := LastBuy(requests, Upper(r.symbol));
    && IsSell(r) && Executes(Run(settings, requests), settings, r)
    && last.Some? && Fresh(last.value, r.now, settings.memorySeconds)
  }

  function RoundTrips(settings: Settings, requests: seq<Request>): nat {
    if requests == [] then 0
    else
      var before := requests[..|requests| - 1];
      RoundTrips(settings, before) + if RoundTrip(settings, before, requests[|requests| - 1]) then 1 else 0
  }

  /** The product of sell price over last buy price along a run's round trips. */
  function Compounded(settings: Settings, requests: seq<Request>): real {
    if requests == [] then 1.0
    else
      var before := requests[..|requests| - 1];
      var r := requests[|requests| - 1];
      if RoundTrip(settings, before, r) then Times(Compounded(settings, before), TripRatio(before, r))
      else Compounded(settings, before)
  }

  /** Sell price over the last buy price; one when there is none. */
  function TripRatio(before: seq<Request>, r: Request): real {
    var last := LastBuy(before, Upper(r.symbol));
    if last.None? || last.value.price == 0.0 then 1.0 else r.price / last.value.price
  }

  lemma RatioMeetsFloor(sell: real, buy: real, bps: real)
    requires buy > 0.0 && sell >= Floor(buy, bps)
    ensures sell / buy >= 1.0 - bps / 10000.0
  {
    var floor := Floor(buy, bps);
    DivMono(floor, sell, buy);
    var q := floor / buy;
    assert q * buy == floor;
    Cancel(q, 1.0 - bps / 10000.0, buy);
  }

  lemma RoundTripRatio(settings: Settings, before: seq<Request>, r: Request)
    requires Timely(before, r.now) && RoundTrip(settings, before, r)
    ensures TripRatio(before, r) >= 1.0 - settings.toleranceBps / 10000.0
  {
    SellsMeetTheFloor(settings, before, r);
    LastBuyIsLatest(before, Upper(r.symbol));
    RatioMeetsFloor(r.price, LastBuy(before, Upper(r.symbol)).value.price, settings.toleranceBps);
    hide Upper, NormalSide, Executes, Floor, LastBuy;
  }

  lemma TimesNonNegative(a: real, b: real)
    requires 0.0 <= a && 0.0 <= b
    ensures 0.0 <= Times(a, b)
  {
    MulNonNeg(a, b);
  }

  lemma {:induction false} PowerNonNegative(x: real, n: nat)
    requires x >= 0.0
    ensures Power(x, n) >= 0.0
  {
    if n == 0 {
    } else {
      PowerNonNegative(x, n - 1);
      TimesNonNegative(Power(x, n - 1), x);
      hide Times;
    }
  }

  lemma CompoundStep(c: real, p: real, ratio: real, keep: real)
    requires c >= p >= 0.0 && ratio >= keep >= 0.0
    ensures Times(c, ratio) >= Times(p, keep)
  {
    MulMono(p, c, keep);
    MulMono(keep, ratio, c);
  }

  /** No loop of buys and sells bleeds faster than the tolerance: over any run, `n` round trips inside the
      window keep at least the `n`-th power of one minus the tolerance. */
  lemma {:induction false} RoundTripsKeepTheTolerance(settings: Settings, requests: seq<Request>, now: real)
    requires Timely(requests, now) && settings.toleranceBps <= 10000.0
    ensures Compounded(settings, requests) >=
            Power(1.0 - settings.toleranceBps / 10000.0, RoundTrips(settings, requests))
  {
    if requests == [] {
    } else {
      var before := requests[..|requests| - 1];
      var r := requests[|requests| - 1];
      var keep := 1.0 - settings.toleranceBps / 10000.0;
      RoundTripsKeepTheTolerance(settings, before, r.now);
      if RoundTrip(settings, before, r) {
        RoundTripRatio(settings, before, r);
        PowerNonNegative(keep, RoundTrips(settings, before));
        CompoundStep(Compounded(settings, before), Power(keep, RoundTrips(settings, before)), TripRatio(before, r),
                     keep);
      }
      hide RoundTrip, TripRatio, Times;
    }
  }
}
