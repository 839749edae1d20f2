/** The technical features of one symbol's bars: running-window loops, the definitions they compute, and
    how far back a row looks. The square root is a parameter. */
module Technical {
  import opened Prelude

  const EPS := 0.00000001
  const VOL_FALLBACK := 0.01

  function Abs(x: real): real { if x < 0.0 then -x else x }

  function Clip(x: real, lo: real, hi: real): real { if x < lo then lo else if x > hi then hi else x }

  /** Relative change, zero from a base too small to divide by. */
  function Change(prev: real, cur: real): real { if Abs(prev) > EPS then (cur - prev) / prev else 0.0 }

  function Sum(s: seq<real>): real { if s == [] then 0.0 else Sum(s[..|s| - 1]) + s[|s| - 1] }

  function Greatest(s: seq<real>): real
    requires s != []
  {
    if |s| == 1 then s[0] else MaxReal(Greatest(s[..|s| - 1]), s[|s| - 1])
  }

  // ---------------------------------------------------------------- what each feature means

  /** The last `w` values up to and including index `i`, or as many as there are. */
  function Window(s: seq<real>, i: nat, w: nat): (r: seq<real>)
    requires i < |s|
    ensures |r| == Min(i + 1, w)
  {
    s[Max(0, i + 1 - w)..i + 1]
  }

  function ChangeAt(s: seq<real>, i: nat, n: nat): real
    requires i < |s|
  {
    if i < n then 0.0 else Change(s[i - n], s[i])
  }

  function MeanAt(s: seq<real>, i: nat, w: nat): real
    requires i < |s| && 1 <= w
  {
    Sum(Window(s, i, w)) / Min(i + 1, w) as real
  }

  function MaxAt(s: seq<real>, i: nat, w: nat): real
    requires i < |s| && 1 <= w
  {
    Greatest(Window(s, i, w))
  }

  /** The changes between neighbours. */
  function Returns(s: seq<real>): (r: seq<real>)
    ensures |r| == Max(0, |s| - 1)
  {
    seq(Max(0, |s| - 1), j requires 0 <= j < |s| - 1 => Change(s[j], s[j + 1]))
  }

  function SquaresAround(s: seq<real>, mean: real): real {
    if s == [] then 0.0
    else SquaresAround(s[..|s| - 1], mean) + (s[|s| - 1] - mean) * (s[|s| - 1] - mean)
  }

  /** Sample variance, with the fallback when fewer than two values are in view. */
  function Deviation(vals: seq<real>, root: real -> real): real {
    if |vals| < 2 then VOL_FALLBACK
    else
      var mean := Sum(vals) / |vals| as real;
      root(SquaresAround(vals, mean) / (|vals| - 1) as real)
  }

  /** The returns in the last `w` bars; each needs the close before it. */
  function DeviationAt(closes: seq<real>, i: nat, w: nat, root: real -> real): real
    requires i < |closes|
  {
    Deviation(Returns(Window(closes, i, w + 1)), root)
  }

  function TrueRangeAt(highs: seq<real>, lows: seq<real>, closes: seq<real>, i: nat): real
    requires |highs| == |lows| == |closes| && i < |closes|
  {
    var hl := highs[i] - lows[i];
    if i == 0 then hl
    else MaxReal(MaxReal(hl, Abs(highs[i] - closes[i - 1])), Abs(lows[i] - closes[i - 1]))
  }

  function TrueRanges(highs: seq<real>, lows: seq<real>, closes: seq<real>): (r: seq<real>)
    requires |highs| == |lows| == |closes|
    ensures |r| == |closes|
  {
    seq(|closes|, i requires 0 <= i < |closes| => TrueRangeAt(highs, lows, closes, i))
  }

  /** One row of features, in the order the feature specification fixes. */
  function Features(c: real, return1h: real, return24h: real, volatility: real, ma24: real, ma72: real, atr24: real,
                    trend72h: real, top72: real): (r: seq<real>)
    ensures |r| == 8
  {
    [Clip(return1h, -0.5, 0.5),
     Clip(return24h, -1.0, 1.0),
     volatility,
     Clip((c - ma24) / MaxReal(ma24, EPS), -0.5, 0.5),
     Clip((c - ma72) / MaxReal(ma72, EPS), -0.5, 0.5),
     Clip(atr24 / MaxReal(c, EPS), 0.0, 0.5),
     Clip(trend72h, -1.0, 1.0),
     Clip((c - top72) / MaxReal(top72, EPS), -1.0, 0.0)]
  }

  function Row(highs: seq<real>, lows: seq<real>, closes: seq<real>, i: nat, root: real -> real): (r: seq<real>)
    requires |highs| == |lows| == |closes| && i < |closes|
    ensures |r| == 8
  {
    Features(closes[i], ChangeAt(closes, i, 1), ChangeAt(closes, i, 24), DeviationAt(closes, i, 24, root),
             MeanAt(closes, i, 24), MeanAt(closes, i, 72), MeanAt(TrueRanges(highs, lows, closes), i, 24),
             ChangeAt(closes, i, 72), MaxAt(closes, i, 72))
  }

  const RETURN_24H := 1
  const ATR_PCT_24H := 5
  const TREND_72H := 6

  // ---------------------------------------------------------------- the loops

  lemma {:induction false} SumFromFront(x: real, s: seq<real>)
    ensures Sum([x] + s) == x + Sum(s)
  {
    if s == [] {
      assert [x] + s == [x];
    } else {
      SumFromFront(x, s[..|s| - 1]);
      assert ([x] + s)[..|s|] == [x] + s[..|s| - 1];
    }
  }

  lemma SumFromBack(s: seq<real>, x: real)
    ensures Sum(s + [x]) == Sum(s) + x
  {
  }

  method PctChange(series: seq<real>, n: nat) returns (out: seq<real>)
    ensures |out| == |series| && forall i :: 0 <= i < |series| ==> out[i] == ChangeAt(series, i, n)
  {
    out := seq(|series|, _ => 0.0);
    var i := n;
    while i < |series|
      invariant n <= i && |out| == |series|
      invariant forall k :: 0 <= k < |series| ==> out[k] == if k < i then ChangeAt(series, k, n) else 0.0
    {
      var prev := series[i - n];
      out := out[i := if Abs(prev) > EPS then (series[i] - prev) / prev else 0.0];
      i := i + 1;
    }
  }

  /** The running sum over a double-ended queue. */
  method RollingMean(series: seq<real>, w: nat) returns (out: seq<real>)
    requires 1 <= w
    ensures |out| == |series| && forall i :: 0 <= i < |series| ==> out[i] == MeanAt(series, i, w)
  {
    out := seq(|series|, _ => 0.0);
    var acc := 0.0;
    var window: seq<real> := [];
    for i := 0 to |series|
      invariant |out| == |series| && acc == Sum(window)
      invariant window == series[Max(0, i - w)..i]
      invariant forall k :: 0 <= k < i ==> out[k] == MeanAt(series, k, w)
    {
      SumFromBack(window, series[i]);
      window := window + [series[i]];
      acc := acc + series[i];
      if |window| > w {
        SumFromFront(window[0], window[1..]);
        assert [window[0]] + window[1..] == window;
        acc := acc - window[0];
        window := window[1..];
      }
      assert window == Window(series, i, w);
      out := out[i := acc / |window| as real];
    }
    hide Sum;
  }

  method GreatestOf(s: seq<real>) returns (m: real)
    requires s != []
    ensures m == Greatest(s)
  {
    m := s[0];
    for i := 1 to |s|
      invariant m == Greatest(s[..i])
    {
      assert s[..i + 1][..i] == s[..i];
      if s[i] > m {
        m := s[i];
      }
    }
    assert s[..|s|] == s;
  }

  method RollingMax(series: seq<real>, w: nat) returns (out: seq<real>)
    requires 1 <= w
    ensures |out| == |series| && forall i :: 0 <= i < |series| ==> out[i] == MaxAt(series, i, w)
  {
    out := seq(|series|, _ => 0.0);
    for i := 0 to |series|
      invariant |out| == |series|
      invariant forall k :: 0 <= k < i ==> out[k] == MaxAt(series, k, w)
    {
      var m := GreatestOf(series[Max(0, i - w + 1)..i + 1]);
      out := out[i := m];
    }
  }

  method RollingStdOfReturns(closes: seq<real>, w: nat, root: real -> real) returns (out: seq<real>)
    ensures |out| == |closes| && forall i :: 0 <= i < |closes| ==> out[i] == DeviationAt(closes, i, w, root)
  {
    out := seq(|closes|, _ => VOL_FALLBACK);
    for i := 0 to |closes|
      invariant |out| == |closes|
      invariant forall k :: 0 <= k < i ==> out[k] == DeviationAt(closes, k, w, root)
    {
      var vals := ReturnsInView(closes, i, w);
      if |vals| >= 2 {
        var mean := Sum(vals) / |vals| as real;
        out := out[i := root(SquaresAround(vals, mean) / (|vals| - 1) as real)];
      } else {
        out := out[i := VOL_FALLBACK];
      }
    }
  }

  method ReturnsInView(closes: seq<real>, i: nat, w: nat) returns (vals: seq<real>)
    requires i < |closes|
    ensures vals == Returns(Window(closes, i, w + 1))
  {
    var lo := Max(1, i - w + 1);
    ghost var view := Window(closes, i, w + 1);
    vals := [];
    var j := lo;
    while j < i + 1
      invariant lo <= j && (j <= i + 1 || (vals == [] && j == lo))
      invariant |vals| == j - lo
      invariant forall k :: 0 <= k < |vals| ==> vals[k] == Change(closes[lo - 1 + k], closes[lo + k])
    {
      vals := vals + [Change(closes[j - 1], closes[j])];
      j := j + 1;
    }
    assert forall k :: 0 <= k < |view| ==> view[k] == closes[lo - 1 + k];
  }

  method TrueRange(highs: seq<real>, lows: seq<real>, closes: seq<real>) returns (tr: seq<real>)
    requires |highs| == |lows| == |closes|
    ensures tr == TrueRanges(highs, lows, closes)
  {
    tr := seq(|closes|, _ => 0.0);
    for i := 0 to |closes|
      invariant |tr| == |closes|
      invariant forall k :: 0 <= k < i ==> tr[k] == TrueRangeAt(highs, lows, closes, k)
    {
      var hl := highs[i] - lows[i];
      if i == 0 {
        tr := tr[i := hl];
      } else {
        var pc := closes[i - 1];
        tr := tr[i := MaxReal(MaxReal(hl, Abs(highs[i] - pc)), Abs(lows[i] - pc))];
      }
    }
  }

  method TechnicalFeatures(opens: seq<real>, highs: seq<real>, lows: seq<real>, closes: seq<real>, root: real -> real)
    returns (r: Result<seq<seq<real>>>)
    ensures r.Ok? <==> |opens| == |highs| == |lows| == |closes|
    ensures r.Ok? ==>
              && |r.value| == |closes|
              && forall i :: 0 <= i < |closes| ==> r.value[i] == Row(highs, lows, closes, i, root)
  {
    var n := |closes|;
    if !(|opens| == |highs| == |lows| == n) {
      return Err("OHLC series must be equal length");
    }
    if n == 0 {
      return Ok([]);
    }
    var return1h := PctChange(closes, 1);
    var return24h := PctChange(closes, 24);
    var volatility24h := RollingStdOfReturns(closes, 24, root);
    var ma24 := RollingMean(closes, 24);
    var ma72 := RollingMean(closes, 72);
    var tr := TrueRange(highs, lows, closes);
    var atr24 := RollingMean(tr, 24);
    var trend72h := PctChange(closes, 72);
    var rmax72 := RollingMax(closes, 72);
    var rows: seq<seq<real>> := [];
    for i := 0 to n
      invariant |rows| == i && forall k :: 0 <= k < i ==> rows[k] == Row(highs, lows, closes, k, root)
    {
      rows := rows + [Features(closes[i], return1h[i], return24h[i], volatility24h[i], ma24[i], ma72[i], atr24[i],
                               trend72h[i], rmax72[i])];
    }
    r := Ok(rows);
    hide ChangeAt, MeanAt, MaxAt, DeviationAt, TrueRanges, Features;
  }

  // ---------------------------------------------------------------- causality and memory

  /** No look-ahead: the rows of a prefix of the bars are the rows of all the bars. */
  lemma RowsAreCausal(highs: seq<real>, lows: seq<real>, closes: seq<real>, k: nat, i: nat, root: real -> real)
    requires |highs| == |lows| == |closes| && i < k <= |closes|
    ensures Row(highs[..k], lows[..k], closes[..k], i, root) == Row(highs, lows, closes, i, root)
  {
    var tr := TrueRanges(highs, lows, closes);
    assert TrueRanges(highs[..k], lows[..k], closes[..k]) == tr[..k];
    WindowOfPrefix(closes, k, i, 24);
    WindowOfPrefix(closes, k, i, 25);
    WindowOfPrefix(closes, k, i, 72);
    WindowOfPrefix(tr, k, i, 24);
    hide Window, Sum, Greatest, Deviation, Returns, Change, Features, TrueRanges;
  }

  lemma WindowOfPrefix(s: seq<real>, k: nat, i: nat, w: nat)
    requires i < k <= |s|
    ensures Window(s[..k], i, w) == Window(s, i, w)
  {
  }

  lemma WindowOfSuffix(s: seq<real>, a: nat, i: nat, w: nat)
    requires a <= i < |s| && w <= i - a + 1
    ensures Window(s[a..], i - a, w) == Window(s, i, w)
  {
  }

  /** Seventy-three bars are enough: bars before them do not change the row. */
  lemma SeventyThreeBarsSuffice(highs: seq<real>, lows: seq<real>, closes: seq<real>, a: nat, i: nat,
                                root: real -> real)
    requires |highs| == |lows| == |closes| && a + 72 <= i < |closes|
    ensures Row(highs[a..], lows[a..], closes[a..], i - a, root) == Row(highs, lows, closes, i, root)
  {
    AllButTheTrend(highs, lows, closes, a, i, root);
    hide MeanAt, MaxAt, DeviationAt, Change, Clip, TrueRanges, Row;
    TrendOf(highs, lows, closes, i, root);
    TrendOf(highs[a..], lows[a..], closes[a..], i - a, root);
  }

  lemma TrendOf(highs: seq<real>, lows: seq<real>, closes: seq<real>, i: nat, root: real -> real)
    requires |highs| == |lows| == |closes| && i < |closes|
    ensures Row(highs, lows, closes, i, root)[TREND_72H] == Clip(ChangeAt(closes, i, 72), -1.0, 1.0)
  {
  }

  /** From seventy-two bars every feature but the trend is the same. */
  lemma AllButTheTrend(highs: seq<real>, lows: seq<real>, closes: seq<real>, a: nat, i: nat, root: real -> real)
    requires |highs| == |lows| == |closes| && a + 71 <= i < |closes|
    ensures var row := Row(highs, lows, closes, i, root);
            Row(highs[a..], lows[a..], closes[a..], i - a, root)
              == row[TREND_72H := Row(highs[a..], lows[a..], closes[a..], i - a, root)[TREND_72H]]
  {
    var tr := TrueRanges(highs, lows, closes);
    var near := TrueRanges(highs[a..], lows[a..], closes[a..]);
    WindowOfSuffix(closes, a, i, 24);
    WindowOfSuffix(closes, a, i, 25);
    WindowOfSuffix(closes, a, i, 72);
    assert Window(near, i - a, 24) == Window(tr, i, 24);
    hide Window, Sum, Greatest, Deviation, Returns, Change, Clip, TrueRanges;
  }

  /** Seventy-two bars are not: with exactly that many kept, the row is right just when there was no
      trend to see. */
  lemma SeventyTwoBarsNeedNoTrend(highs: seq<real>, lows: seq<real>, closes: seq<real>, i: nat, root: real -> real)
    requires |highs| == |lows| == |closes| && 72 <= i < |closes|
    ensures var a := i - 71;
            (Row(highs[a..], lows[a..], closes[a..], 71, root) == Row(highs, lows, closes, i, root)
             <==> Row(highs, lows, closes, i, root)[TREND_72H] == 0.0)
  {
    var a := i - 71;
    AllButTheTrend(highs, lows, closes, a, i, root);
    TrendOf(highs[a..], lows[a..], closes[a..], 71, root);
    hide MeanAt, MaxAt, DeviationAt, Change, TrueRanges, Row;
  }

  lemma SeventyTwoBarsMiss(highs: seq<real>, lows: seq<real>, closes: seq<real>, root: real -> real)
    requires |highs| == |lows| == |closes| == 73 && closes[0] == 1.0 && closes[72] == 2.0
    ensures Row(highs[1..], lows[1..], closes[1..], 71, root) != Row(highs, lows, closes, 72, root)
  {
    SeventyTwoBarsNeedNoTrend(highs, lows, closes, 72, root);
    TrendOf(highs, lows, closes, 72, root);
  }
}
