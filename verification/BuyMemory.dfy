/** The memory of recent buys behind the death-spiral guard: one persistent map per account, pruned on
    every use, and the guard that refuses a sell far below the remembered buy. */
module BuyMemory {
  import opened Prelude

  datatype Buy = Buy(price: real, ts: real)

  datatype Settings = Settings(toleranceBps: real, atrMult: real, memorySeconds: real)

  /** 3%, three times the average true range, three days. */
  const DEFAULT := Settings(300.0, 3.0, 259200.0)

  // ---------------------------------------------------------------- text

  function UpperChar(c: char): char { if 'a' <= c <= 'z' then (c as int - 32) as char else c }

  function LowerChar(c: char): char { if 'A' <= c <= 'Z' then (c as int + 32) as char else c }

  function Upper(s: string): (r: string)
    ensures |r| == |s|
  {
    seq(|s|, i requires 0 <= i < |s| => UpperChar(s[i]))
  }

  function Lower(s: string): string { seq(|s|, i requires 0 <= i < |s| => LowerChar(s[i])) }

  /** What counts as white space at the ends of a side. */
  predicate Blank(c: char) {
    var code := c as int;
    || 9 <= code <= 13 || 28 <= code <= 32 || code in {0x85, 0xa0, 0x1680, 0x2028, 0x2029, 0x202f, 0x205f, 0x3000}
    || 0x2000 <= code <= 0x200a
  }

  function Strip(s: string): string {
    if s == [] then s
    else if Blank(s[0]) then Strip(s[1..])
    else if Blank(s[|s| - 1]) then Strip(s[..|s| - 1])
    else s
  }

  function NormalSide(side: string): string { Lower(Strip(side)) }

  /** Case moves a letter of one alphabet to the same place in the other and leaves every other character alone. */
  lemma CaseOfChar(c: char)
    ensures 'a' <= c <= 'z' ==> UpperChar(c) as int - 'A' as int == c as int - 'a' as int
    ensures 'A' <= c <= 'Z' ==> LowerChar(c) as int - 'a' as int == c as int - 'A' as int
    ensures !('a' <= c <= 'z') ==> UpperChar(c) == c
    ensures !('A' <= c <= 'Z') ==> LowerChar(c) == c
  {
  }

  /** Stripping cuts blanks, and only those, off both ends. */
  lemma {:induction false} StripCuts(s: string) returns (i: nat, j: nat)
    ensures i <= j <= |s| && Strip(s) == s[i..j]
    ensures (forall k :: 0 <= k < i || j <= k < |s| ==> Blank(s[k])) && (i < j ==> !Blank(s[i]) && !Blank(s[j - 1]))
  {
    hide Blank;
    if s == [] {
      i, j := 0, 0;
    } else if Blank(s[0]) {
      i, j := StripCuts(s[1..]);
      assert forall k :: 0 < k < |s| ==> s[k] == s[1..][k - 1];
      assert s[1..][i..j] == s[i + 1..j + 1];
      i, j := i + 1, j + 1;
    } else if Blank(s[|s| - 1]) {
      i, j := StripCuts(s[..|s| - 1]);
      assert s[..|s| - 1][i..j] == s[i..j];
    } else {
      i, j := 0, |s|;
      assert s[0..|s|] == s;
    }
  }

  // ---------------------------------------------------------------- the operations as functions

  predicate Fresh(b: Buy, now: real, window: real) { now - b.ts <= window }

  function Pruned(buys: map<string, Buy>, now: real, window: real): map<string, Buy> {
    map k | k in buys && Fresh(buys[k], now, window) :: buys[k]
  }

  function Recorded(buys: map<string, Buy>, window: real, symbol: string, price: real, now: real, stamp: real):
    map<string, Buy>
  {
    if symbol == "" || price <= 0.0 then buys
    else Pruned(buys, now, window)[Upper(symbol) := Buy(price, stamp)]
  }

  /** What a caller of the guard may set beside the order itself. */
  datatype Options = Options(toleranceBps: Option<real>, atrPct: Option<real>, atrMult: Option<real>)

  const NO_OPTIONS := Options(None, None, None)

  /** The base tolerance, widened to the volatility's when that is larger. */
  function EffectiveBps(settings: Settings, o: Options): real {
    var base := if o.toleranceBps.Some? then o.toleranceBps.value else settings.toleranceBps;
    if o.atrPct.Some? && o.atrPct.value > 0.0 then
      var mult := if o.atrMult.Some? then o.atrMult.value else settings.atrMult;
      MaxReal(base, mult * o.atrPct.value * 10000.0)
    else base
  }

  function Floor(buyPrice: real, bps: real): real { buyPrice * (1.0 - bps / 10000.0) }

  /** Only sells of a symbol at a positive price are looked at, and none while overridden. */
  predicate Looks(symbol: string, side: string, price: real, overridden: bool) {
    NormalSide(side) in {"sell", "short"} && symbol != "" && price > 0.0 && !overridden
  }

  predicate Refuses(buys: map<string, Buy>, settings: Settings, symbol: string, price: real, now: real, o: Options) {
    var key := Upper(symbol);
    && key in buys && Fresh(buys[key], now, settings.memorySeconds)
    && buys[key].price > 0.0 && price < Floor(buys[key].price, EffectiveBps(settings, o))
  }

  class BuyMemory {
    const settings: Settings
    var buys: map<string, Buy>

    constructor (settings: Settings)
      ensures this.settings == settings && buys == map[]
    {
      this.settings := settings;
      buys := map[];
    }

    /** Keeps the records no older than the window. */
    method Prune(now: real) returns (out: map<string, Buy>)
      ensures out == Pruned(buys, now, settings.memorySeconds)
    {
      out := map[];
      var todo := buys.Keys;
      while todo != {}
        invariant todo <= buys.Keys
        invariant forall k :: k in out <==> k in buys && k !in todo && Fresh(buys[k], now, settings.memorySeconds)
        invariant forall k :: k in out ==> out[k] == buys[k]
        decreases |todo|
      {
        var symbol :| symbol in todo;
        if now - buys[symbol].ts <= settings.memorySeconds {
          out := out[symbol := buys[symbol]];
        }
        todo := todo - {symbol};
      }
    }

    /** Remembers a buy, stamped no earlier than the pruning before it. */
    method RecordBuyPrice(symbol: string, price: real, now: real, stamp: real)
      modifies this
      ensures buys == Recorded(old(buys), settings.memorySeconds, symbol, price, now, stamp)
    {
      if symbol == "" || price <= 0.0 {
        return;
      }
      var data := Prune(now);
      buys := data[Upper(symbol) := Buy(price, stamp)];
    }

    /** The guard: an error is a refused order. */
    method GuardSell(symbol: string, side: string, price: real, now: real, o: Options, overridden: bool)
      returns (r: Result<()>)
      modifies this
      ensures buys == if Looks(symbol, side, price, overridden) then Pruned(old(buys), now, settings.memorySeconds)
                      else old(buys)
      ensures r.Ok? <==> !(Looks(symbol, side, price, overridden)
                           && Refuses(old(buys), settings, symbol, price, now, o))
    {
      if side == "" {
        assert NormalSide(side) == "";
        return Ok(());
      }
      var sideNorm := NormalSide(side);
      if sideNorm != "sell" && sideNorm != "short" {
        return Ok(());
      }
      if symbol == "" || price <= 0.0 || overridden {
        return Ok(());
      }
      var pruned := Prune(now);
      if pruned != buys {
        buys := pruned;
      }
      if Upper(symbol) !in pruned || pruned[Upper(symbol)].price <= 0.0 {
        return Ok(());
      }
      var tolBps := if o.toleranceBps.Some? then o.toleranceBps.value else settings.toleranceBps;
      if o.atrPct.Some? && o.atrPct.value > 0.0 {
        var mult := if o.atrMult.Some? then o.atrMult.value else settings.atrMult;
        var volBps := mult * o.atrPct.value * 10000.0;
        if volBps > tolBps {
          tolBps := volBps;
        }
      }
      var floor := pruned[Upper(symbol)].price * (1.0 - tolBps / 10000.0);
      r := if price < floor then Err("refusing death-spiral SELL") else Ok(());
    }

    method ForgetBuy(symbol: string)
      modifies this
      ensures buys == old(buys) - {Upper(symbol)}
    {
      buys := buys - {Upper(symbol)};
    }

    method ForgetAllBuys()
      modifies this
      ensures buys == map[]
    {
      buys := map[];
    }
  }

  /** The widened floor is the lower of two: the base tolerance below the buy, and the given multiple of the true
      range below it. */
  lemma FloorIsTheLower(settings: Settings, o: Options, buyPrice: real)
    requires 0.0 <= buyPrice
    ensures var base := buyPrice * (10000.0 - if o.toleranceBps.Some? then o.toleranceBps.value else settings.toleranceBps);
            var floor := 10000.0 * Floor(buyPrice, EffectiveBps(settings, o));
            if o.atrPct.Some? && o.atrPct.value > 0.0 then
              var mult := if o.atrMult.Some? then o.atrMult.value else settings.atrMult;
              var wide := 10000.0 * (buyPrice * (1.0 - mult * o.atrPct.value));
              floor == if base < wide then base else wide
            else floor == base
  {
    var tol := if o.toleranceBps.Some? then o.toleranceBps.value else settings.toleranceBps;
    FloorInBps(buyPrice, tol);
    if o.atrPct.Some? && o.atrPct.value > 0.0 {
      var width := (if o.atrMult.Some? then o.atrMult.value else settings.atrMult) * o.atrPct.value;
      FloorInBps(buyPrice, width * 10000.0);
      if tol <= width * 10000.0 {
        FloorAntitone(buyPrice, tol, width * 10000.0);
      } else {
        FloorAntitone(buyPrice, width * 10000.0, tol);
      }
      assert 10000.0 * (buyPrice * (1.0 - width)) == buyPrice * (10000.0 - width * 10000.0);
    }
    hide Floor;
  }

  lemma FloorInBps(buyPrice: real, bps: real)
    ensures 10000.0 * Floor(buyPrice, bps) == buyPrice * (10000.0 - bps)
  {
    var b := bps / 10000.0;
    assert bps == 10000.0 * b;
    assert 10000.0 * (buyPrice * b) == buyPrice * (10000.0 * b);
  }

  /** Volatility only ever widens the floor: what the widened guard refuses the base guard refuses too. */
  lemma WideningNeverTightens(buys: map<string, Buy>, settings: Settings, symbol: string, price: real, now: real,
                              o: Options)
    ensures EffectiveBps(settings, o) >= EffectiveBps(settings, o.(atrPct := None))
    ensures Refuses(buys, settings, symbol, price, now, o) ==>
            Refuses(buys, settings, symbol, price, now, o.(atrPct := None))
  {
    if Refuses(buys, settings, symbol, price, now, o) {
      FloorAntitone(buys[Upper(symbol)].price, EffectiveBps(settings, o.(atrPct := None)), EffectiveBps(settings, o));
    }
    hide Floor, Upper;
  }

  lemma FloorAntitone(buyPrice: real, low: real, high: real)
    requires buyPrice >= 0.0 && low <= high
    ensures Floor(buyPrice, high) <= Floor(buyPrice, low)
  {
  }

  // ---------------------------------------------------------------- the pruned map against the whole history

  /** What changes the memory: a buy, a look that prunes, or a reset. */
  datatype Event =
    | Bought(key: string, buy: Buy, at: real)
    | Looked(at: real)
    | Forgot(key: string)
    | ForgotAll

  function Applied(buys: map<string, Buy>, e: Event, window: real): map<string, Buy> {
    match e
    case Bought(key, buy, at) => Pruned(buys, at, window)[key := buy]
    case Looked(at) => Pruned(buys, at, window)
    case Forgot(key) => buys - {key}
    case ForgotAll => map[]
  }

  /** The persisted map after a history of events. */
  function Memory(history: seq<Event>, window: real): map<string, Buy> {
    if history == [] then map[]
    else Applied(Memory(history[..|history| - 1], window), history[|history| - 1], window)
  }

  /** The last buy of a symbol not forgotten since, however old: no pruning here. */
  function LatestBuy(history: seq<Event>, key: string): Option<Buy> {
    if history == [] then None
    else
      var last := history[|history| - 1];
      if last.Bought? && last.key == key then Some(last.buy)
      else if last.ForgotAll? || (last.Forgot? && last.key == key) then None
      else LatestBuy(history[..|history| - 1], key)
  }

  /** Every pruning since the latest buy of a symbol found that buy inside the window. */
  predicate NeverStale(history: seq<Event>, key: string, window: real) {
    if history == [] then true
    else
      var last := history[|history| - 1];
      var before := history[..|history| - 1];
      if last.Bought? && last.key == key then true
      else if last.ForgotAll? || (last.Forgot? && last.key == key) then true
      else
        && NeverStale(before, key, window)
        && (last.Bought? || last.Looked? ==>
              LatestBuy(before, key).Some? ==> Fresh(LatestBuy(before, key).value, last.at, window))
  }

  function Lookup(buys: map<string, Buy>, key: string): Option<Buy> { if key in buys then Some(buys[key]) else None }

  /** Whatever the clock does: the map holds the latest buy of a symbol, or, if some pruning since found it
      too old, nothing. An older buy never resurfaces. */
  lemma {:induction false} MemoryIsTheLatestBuy(history: seq<Event>, key: string, window: real)
    ensures Lookup(Memory(history, window), key) ==
            if NeverStale(history, key, window) then LatestBuy(history, key) else None
  {
    if history == [] {
    } else {
      MemoryIsTheLatestBuy(history[..|history| - 1], key, window);
    }
  }

  /** Events happen in clock order, and a buy is stamped between its pruning and whatever follows. */
  predicate InOrder(history: seq<Event>, now: real) {
    if history == [] then true
    else
      var last := history[|history| - 1];
      match last
      case Bought(_, buy, at) => at <= buy.ts <= now && InOrder(history[..|history| - 1], at)
      case Looked(at) => at <= now && InOrder(history[..|history| - 1], at)
      case _ => InOrder(history[..|history| - 1], now)
  }

  lemma {:induction false} InOrderLater(history: seq<Event>, now: real, later: real)
    requires InOrder(history, now) && now <= later
    ensures InOrder(history, later)
  {
    if history != [] && (history[|history| - 1].Forgot? || history[|history| - 1].ForgotAll?) {
      InOrderLater(history[..|history| - 1], now, later);
    }
  }

  lemma {:induction false} OrderedIsNeverStale(history: seq<Event>, key: string, now: real, window: real)
    requires InOrder(history, now)
    requires LatestBuy(history, key).Some? && Fresh(LatestBuy(history, key).value, now, window)
    ensures NeverStale(history, key, window)
  {
    if history != [] {
      var before := history[..|history| - 1];
      match history[|history| - 1] {
        case Bought(k, _, at) =>
          if k != key {
            OrderedIsNeverStale(before, key, at, window);
          }
        case Looked(at) =>
          OrderedIsNeverStale(before, key, at, window);
        case Forgot(k) =>
          if k != key {
            OrderedIsNeverStale(before, key, now, window);
          }
        case ForgotAll =>
      }
    }
  }

  /** With a clock that never runs backwards, pruning loses nothing: a lookup in the pruned map finds
      exactly the latest buy of the whole history, when that is still inside the window. */
  lemma PruningIsLossless(history: seq<Event>, key: string, now: real, window: real)
    requires InOrder(history, now)
    ensures Lookup(Pruned(Memory(history, window), now, window), key) ==
            if LatestBuy(history, key).Some? && Fresh(LatestBuy(history, key).value, now, window)
            then LatestBuy(history, key) else None
  {
    MemoryIsTheLatestBuy(history, key, window);
    if LatestBuy(history, key).Some? && Fresh(LatestBuy(history, key).value, now, window) {
      OrderedIsNeverStale(history, key, now, window);
    }
  }

  /** Without that it does lose: a look from past the window, and the buy is gone when the clock is set back. */
  lemma BackwardClockForgets(key: string, price: real, window: real)
    requires window > 0.0
    ensures var history := [Bought(key, Buy(price, 0.0), 0.0), Looked(window + 1.0)];
            && LatestBuy(history, key) == Some(Buy(price, 0.0)) && Fresh(Buy(price, 0.0), window, window)
            && Lookup(Pruned(Memory(history, window), window, window), key) == None
  {
    var history := [Bought(key, Buy(price, 0.0), 0.0), Looked(window + 1.0)];
    assert history[..1] == [Bought(key, Buy(price, 0.0), 0.0)];
    assert LatestBuy(history[..1], key) == Some(Buy(price, 0.0));
    MemoryIsTheLatestBuy(history, key, window);
  }
}
