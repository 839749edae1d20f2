/** What one bar may and may not do: the mask, the guard, the lottery and the action against the position. */
module TradingRules {
  import opened Prelude
  import opened Engine
  import opened Episode
  import opened HoldingTime

  /** The account with its age moved. */
  predicate OnlyAged(b: Agent, a: Agent) { b == a.(hold := b.hold) }

  predicate IsHeldOpen(mask: Option<seq<bool>>, s: nat, a: Agent)
    requires WellFormed(a, s) && (mask.Some? ==> |mask.value| == s)
  {
    mask.None? || (0 <= a.pos && mask.value[if a.pos < s then a.pos else a.pos - s])
  }

  /** A position in a closed market stays as it is, whatever the action, and ages by one exactly for a number of the
      action space. */
  lemma ClosedMarketFreezes(cfg: EnvConfig, row: seq<Bar>, mask: Option<seq<bool>>, a: Agent, action: int, word: nat)
    requires WellFormed(a, |row|) && (mask.Some? ==> |mask.value| == |row|)
    requires 0 <= a.pos && !IsHeldOpen(mask, |row|, a)
    ensures TradeBar(cfg, row, mask, a, action, word)
         == Traded(a.(hold := a.hold + if 0 <= action <= 2 * SideBlock(cfg, |row|) then 1 else 0), 0, 0)
  {
    hide Open, Close, SideBlock;
  }

  /** A position the guard refuses to sell stays too. */
  lemma RefusalHolds(cfg: EnvConfig, row: seq<Bar>, mask: Option<seq<bool>>, a: Agent, action: int, word: nat)
    requires WellFormed(a, |row|) && (mask.Some? ==> |mask.value| == |row|)
    requires 0 <= a.pos && forall age: nat :: Refused(cfg, row, a.(hold := age))
    ensures var r := TradeBar(cfg, row, mask, a, action, word);
            OnlyAged(r.agent, a) && a.hold <= r.agent.hold && r.closes == 0 == r.opens
  {
    assert Refused(cfg, row, a.(hold := a.hold));
    var f := ForceClose(cfg, row, mask, a).agent;
    assert OnlyAged(f, a) by {
      hide ForceClose;
      ForceCloseOrAge(cfg, row, mask, a);
      RefusedStays(cfg, row, mask, a);
    }
    assert Refused(cfg, row, a.(hold := f.hold));
    CloseOrAge(cfg, row, f);
    hide Open, Decode, Refused, ForceClose;
  }

  lemma RefusedStays(cfg: EnvConfig, row: seq<Bar>, mask: Option<seq<bool>>, a: Agent)
    requires WellFormed(a, |row|) && (mask.Some? ==> |mask.value| == |row|) && Refused(cfg, row, a)
    ensures ForceClose(cfg, row, mask, a).agent.pos == a.pos
    ensures ForceClose(cfg, row, mask, a).closes == 0
  {
  }

  /** Below the limit, going flat sells or buys back what is held in an open market unless the guard refuses, and
      leaves a flat account alone. */
  lemma GoingFlat(cfg: EnvConfig, row: seq<Bar>, mask: Option<seq<bool>>, a: Agent, word: nat)
    requires WellFormed(a, |row|) && (mask.Some? ==> |mask.value| == |row|)
    requires cfg.maxHoldHours <= 0 || a.hold < cfg.maxHoldHours
    ensures var r := TradeBar(cfg, row, mask, a, 0, word);
            && r.opens == 0
            && (a.pos < 0 ==> r == Traded(a, 0, 0))
            && (0 <= a.pos && IsHeldOpen(mask, |row|, a) ==>
                  (if Refused(cfg, row, a) then OnlyAged(r.agent, a) && r.closes == 0
                   else r.agent.pos == -1 && r.agent.qty == 0.0 && r.closes == 1))
  {
    hide Open, ExitCash;
  }

  /** Below the limit, asking for the position already held only ages it. */
  lemma AskingForTheSame(cfg: EnvConfig, row: seq<Bar>, mask: Option<seq<bool>>, a: Agent, action: int, word: nat)
    requires WellFormed(a, |row|) && (mask.Some? ==> |mask.value| == |row|)
    requires cfg.maxHoldHours <= 0 || a.hold < cfg.maxHoldHours
    requires Decode(cfg, |row|, action).Enter? && a.pos == TargetPos(Decode(cfg, |row|, action), |row|)
    ensures TradeBar(cfg, row, mask, a, action, word) == Traded(a.(hold := a.hold + 1), 0, 0)
  {
    hide Open, Close, Decode;
  }

  /** Asking for a symbol whose market is closed changes nothing but the age of what is held. */
  lemma ClosedTargetIsLeft(cfg: EnvConfig, row: seq<Bar>, mask: Option<seq<bool>>, a: Agent, action: int, word: nat)
    requires WellFormed(a, |row|) && mask.Some? && |mask.value| == |row|
    requires cfg.maxHoldHours <= 0 || a.hold < cfg.maxHoldHours
    requires var o := Decode(cfg, |row|, action); o.Enter? && !mask.value[o.sym]
    ensures TradeBar(cfg, row, mask, a, action, word) == Traded(if 0 <= a.pos then a.(hold := a.hold + 1) else a, 0, 0)
  {
    hide Open, Close, Decode;
  }

  /** Asking for another position in open markets first closes the one held, unless refused, and then opens with the
      cash of the closed account exactly when the lottery lets it: at most one close and one open. */
  lemma Switching(cfg: EnvConfig, row: seq<Bar>, mask: Option<seq<bool>>, a: Agent, action: int, word: nat)
    requires WellFormed(a, |row|) && (mask.Some? ==> |mask.value| == |row|)
    requires cfg.maxHoldHours <= 0 || a.hold < cfg.maxHoldHours
    requires var o := Decode(cfg, |row|, action);
             o.Enter? && a.pos != TargetPos(o, |row|) && (mask.Some? ==> mask.value[o.sym])
    requires 0 <= a.pos ==> IsHeldOpen(mask, |row|, a)
    ensures var r, o := TradeBar(cfg, row, mask, a, action, word), Decode(cfg, |row|, action);
            if Refused(cfg, row, a) then OnlyAged(r.agent, a) && r.closes == 0 == r.opens
            else
              var flat := Close(cfg, row, a).0;
              && flat.pos == -1 && r.closes == (if 0 <= a.pos then 1 else 0)
              && r.agent == (if FillLottery(cfg, word) then Open(cfg, row, flat, o) else flat)
              && (r.opens == 1 <==> r.agent.pos == TargetPos(o, |row|)) && r.opens <= 1
  {
    CloseOrAge(cfg, row, a);
    hide Open, Decode, FillLottery, ExitCash;
  }

  /** At the limit an open market closes the position before the action is looked at, unless the guard refuses. */
  lemma LimitComesFirst(cfg: EnvConfig, row: seq<Bar>, mask: Option<seq<bool>>, a: Agent, action: int, word: nat)
    requires WellFormed(a, |row|) && (mask.Some? ==> |mask.value| == |row|)
    requires 0 < cfg.maxHoldHours <= a.hold && 0 <= a.pos && IsHeldOpen(mask, |row|, a) && !Refused(cfg, row, a)
    ensures var flat := Close(cfg, row, a).0;
            var r, rest := TradeBar(cfg, row, mask, a, action, word), TradeBar(cfg, row, mask, flat, action, word);
            flat.pos == -1 && r == rest.(closes := rest.closes + 1) && rest.closes == 0
  {
    CloseOrAge(cfg, row, a);
    hide Open, Decode, FillLottery, ExitCash;
  }

  // ---------------------------------------------------------------- settling

  /** Settling moves time by a bar and takes the fee out of the cash; nothing else of the position moves, and the
      reading is what the settled account is worth at the closes of the new bar. */
  lemma SettleReads(cfg: EnvConfig, md: MarketData, a: Agent)
    requires md.Valid() && WellFormed(a, md.numSymbols)
    ensures var (b, equity) := Settle(cfg, md, a);
            var row := md.prices[Min(a.offset + a.step + 1, md.T() - 1)];
            && equity == Equity(row, b) && b.step == a.step + 1
            && b.cash == a.cash - MaxReal(0.0, BorrowFee(cfg, row, a))
            && b == a.(step := b.step, cash := b.cash, peak := b.peak, maxDrawdown := b.maxDrawdown)
  {
    hide BorrowFee, Equity, Track;
    var later := a.(step := a.step + 1);
    var row := md.prices[Clock(md, later)];
    FeeOfLater(cfg, row, a);
    var fee := BorrowFee(cfg, row, later);
    var charged := if 0.0 < fee then later.(cash := later.cash - fee) else later;
    EquityOfLess(row, later, fee);
    TrackOnlyTracks(row, charged, if 0.0 < fee then Equity(row, later) - fee else Equity(row, later));
  }

  lemma FeeOfLater(cfg: EnvConfig, row: seq<Bar>, a: Agent)
    requires WellFormed(a, |row|)
    ensures BorrowFee(cfg, row, a.(step := a.step + 1)) == BorrowFee(cfg, row, a)
  {
  }

  lemma EquityOfLess(row: seq<Bar>, a: Agent, fee: real)
    requires WellFormed(a, |row|)
    ensures Equity(row, a.(cash := a.cash - fee)) == Equity(row, a) - fee
  {
  }

  lemma TrackOnlyTracks(row: seq<Bar>, a: Agent, e: real)
    requires WellFormed(a, |row|)
    ensures var b := Track(a, e);
            b == a.(peak := b.peak, maxDrawdown := b.maxDrawdown) && WellFormed(b, |row|) && Equity(row, b) == Equity(row, a)
  {
  }
}
