/** Action numbers: the simulator's decoder and the encoder it inverts. */
module Actions {
  import opened Prelude
  import opened Engine

  /** Going flat, and each side, symbol, allocation bin and level bin. */
  function NumActions(cfg: EnvConfig, s: nat): nat { 1 + 2 * SideBlock(cfg, s) }

  predicate InRange(cfg: EnvConfig, s: nat, o: Order) {
    o.GoFlat? || (o.Enter? && o.sym < s && o.allocIdx < AllocBins(cfg) && o.levelIdx < LevelBins(cfg))
  }

  function Position(cfg: EnvConfig, sym: nat, alloc: nat, level: nat): int {
    sym * (AllocBins(cfg) * LevelBins(cfg)) + (alloc * LevelBins(cfg) + level)
  }

  /** The number that stands for an order. */
  function Encode(cfg: EnvConfig, s: nat, o: Order): int
    requires InRange(cfg, s, o)
  {
    if o.GoFlat? then 0
    else 1 + (if o.isShort then SideBlock(cfg, s) else 0) + Position(cfg, o.sym, o.allocIdx, o.levelIdx)
  }

  lemma DivMod(q: nat, k: nat, r: nat)
    requires r < k
    ensures (q * k + r) / k == q && (q * k + r) % k == r
  {
    var n := q * k + r;
    SameQuotient(q, r, n / k, n % k, k);
  }

  lemma SameQuotient(q: nat, r: nat, p: nat, t: nat, k: nat)
    requires r < k && t < k && q * k + r == p * k + t
    ensures q == p && r == t
  {
    assert q < p ==> (q + 1) * k <= p * k;
    assert p < q ==> (p + 1) * k <= q * k;
  }

  lemma ProductBound(i: nat, n: nat, k: nat, r: nat)
    requires i < n && r < k
    ensures i * k + r < n * k
  {
    assert (i + 1) * k <= n * k;
  }

  lemma PositionInBlock(cfg: EnvConfig, s: nat, sym: nat, alloc: nat, level: nat)
    requires sym < s && alloc < AllocBins(cfg) && level < LevelBins(cfg)
    ensures 0 <= Position(cfg, sym, alloc, level) < SideBlock(cfg, s)
    ensures SplitIndex(Position(cfg, sym, alloc, level), s, AllocBins(cfg), LevelBins(cfg)) == (sym, alloc, level)
  {
    var a, l := AllocBins(cfg), LevelBins(cfg);
    ProductBound(alloc, a, l, level);
    ProductBound(sym, s, a * l, alloc * l + level);
    DivMod(sym, a * l, alloc * l + level);
    DivMod(alloc, l, level);
  }

  /** Every order in range has a number below the action count, and decoding that number gives it back. */
  lemma DecodeOfEncode(cfg: EnvConfig, s: nat, o: Order)
    requires InRange(cfg, s, o)
    ensures 0 <= Encode(cfg, s, o) < NumActions(cfg, s) && Decode(cfg, s, Encode(cfg, s, o)) == o
  {
    if o.Enter? {
      PositionInBlock(cfg, s, o.sym, o.allocIdx, o.levelIdx);
    }
    hide SplitIndex, Position, SideBlock;
  }

  /** Conversely every number below the action count stands for exactly one order, and no other does. */
  lemma EncodeOfDecode(cfg: EnvConfig, s: nat, action: int)
    ensures InRange(cfg, s, Decode(cfg, s, action)) <==> 0 <= action < NumActions(cfg, s)
    ensures 0 <= action < NumActions(cfg, s) ==> Encode(cfg, s, Decode(cfg, s, action)) == action
  {
    var side := SideBlock(cfg, s);
    if 1 <= action <= 2 * side {
      var idx := if side <= action - 1 then action - 1 - side else action - 1;
      JoinSplit(cfg, s, idx);
    }
    hide SplitIndex, Position, SideBlock;
  }

  lemma JoinSplit(cfg: EnvConfig, s: nat, idx: nat)
    requires idx < SideBlock(cfg, s)
    ensures var (sym, alloc, level) := SplitIndex(idx, s, AllocBins(cfg), LevelBins(cfg));
            Position(cfg, sym, alloc, level) == idx
  {
    var a, l := AllocBins(cfg), LevelBins(cfg);
    var per := a * l;
    PerPositive(a, l);
    assert idx == per * (idx / per) + idx % per;
    assert idx % per == l * (idx % per / l) + idx % per % l;
  }
}
