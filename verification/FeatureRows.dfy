/** The eight technical features of a bar, each from the bars alone, and what the default signal makes of them. */
module FeatureRows {
  import opened Prelude
  import opened Technical
  import opened KrakenPaper
  import opened PaperLedger

  // ---------------------------------------------------------------- the pieces, in other words

  /** The number of the interval nearest to `x`. */
  function Nearest(lo: real, x: real, hi: real): real { if hi < x then hi else if x < lo then lo else x }

  /** How much more a close is than an earlier one; nothing from a base within a hundred-millionth of zero. */
  function Growth(s: seq<real>, i: nat, back: nat): real
    requires i < |s|
  {
    if i < back || -0.00000001 <= s[i - back] <= 0.00000001 then 0.0 else s[i] / s[i - back] - 1.0
  }

  function First(i: nat, w: nat): (lo: nat)
    ensures lo <= i + 1
  {
    if w <= i + 1 then i + 1 - w else 0
  }

  /** The mean of the last `w` values, or of as many as there are, by running totals. */
  function Mean(s: seq<real>, i: nat, w: nat): real
    requires i < |s| && 1 <= w
  {
    (Sum(s[..i + 1]) - Sum(s[..First(i, w)])) / (i + 1 - First(i, w)) as real
  }

  /** Off a reference, in parts of it; the reference is at least a hundred-millionth. */
  function Off(x: real, reference: real): real {
    (x - reference) / if reference < 0.00000001 then 0.00000001 else reference
  }

  /** The largest of the bar's own range and its gaps from the close before. */
  function Range(highs: seq<real>, lows: seq<real>, closes: seq<real>, i: nat): real
    requires |highs| == |lows| == |closes| && i < |closes|
  {
    var own := highs[i] - lows[i];
    if i == 0 then own
    else
      var up, down := highs[i] - closes[i - 1], closes[i - 1] - lows[i];
      var gap := if up < -up then -up else up;
      var drop := if down < -down then -down else down;
      if own <= gap && drop <= gap then gap else if own <= drop then drop else own
  }

  function Ranges(highs: seq<real>, lows: seq<real>, closes: seq<real>): (r: seq<real>)
    requires |highs| == |lows| == |closes|
    ensures |r| == |closes|
  {
    seq(|closes|, i requires 0 <= i < |closes| => Range(highs, lows, closes, i))
  }

  function Square(x: real): real { x * x }

  function SumOfSquares(s: seq<real>): real {
    if s == [] then 0.0 else SumOfSquares(s[..|s| - 1]) + Square(s[|s| - 1])
  }

  /** The one-bar growths of the last `n` bars. */
  function Growths(closes: seq<real>, i: nat, n: nat): (r: seq<real>)
    requires n <= i < |closes|
    ensures |r| == n
  {
    seq(n, j requires 0 <= j < n => Growth(closes, i - n + 1 + j, 1))
  }

  /** The sample variance by sums and squares. */
  function Variance(s: seq<real>): real
    requires 2 <= |s|
  {
    (|s| as real * SumOfSquares(s) - Sum(s) * Sum(s)) / (|s| as real * (|s| as real - 1.0))
  }

  ghost predicate IsTop(s: seq<real>, i: nat, w: nat, top: real)
    requires i < |s|
  {
    (exists j :: First(i, w) <= j <= i && s[j] == top) && forall j :: First(i, w) <= j <= i ==> s[j] <= top
  }

  /** One row: the 1-bar and 24-bar growth, the deviation of the last 24 growths, the distance from the 24-bar and
      72-bar mean, the mean range over the close, the 72-bar growth, and the distance from the 72-bar top, each
      within its own limits. */
  ghost predicate Describes(highs: seq<real>, lows: seq<real>, closes: seq<real>, i: nat, root: real -> real, row: seq<real>)
    requires |highs| == |lows| == |closes| && i < |closes|
  {
    var c := closes[i];
    var n := Min(i, 24);
    && |row| == 8
    && row[0] == Nearest(-0.5, Growth(closes, i, 1), 0.5)
    && row[1] == Nearest(-1.0, Growth(closes, i, 24), 1.0)
    && row[2] == (if n < 2 then 0.01 else root(Variance(Growths(closes, i, n))))
    && row[3] == Nearest(-0.5, Off(c, Mean(closes, i, 24)), 0.5)
    && row[4] == Nearest(-0.5, Off(c, Mean(closes, i, 72)), 0.5)
    && row[5] == Nearest(0.0, Mean(Ranges(highs, lows, closes), i, 24) / (if c < 0.00000001 then 0.00000001 else c), 0.5)
    && row[6] == Nearest(-1.0, Growth(closes, i, 72), 1.0)
    && exists top :: IsTop(closes, i, 72, top) && row[7] == Nearest(-1.0, Off(c, top), 0.0)
  }

  // ---------------------------------------------------------------- they are what the rows hold

  lemma ChangeIsGrowth(s: seq<real>, i: nat, back: nat)
    requires i < |s|
    ensures ChangeAt(s, i, back) == Growth(s, i, back)
  {
    if back <= i {
      var prev, cur := s[i - back], s[i];
      if prev != 0.0 {
        LessOne(cur, prev);
      }
    }
  }

  lemma LessOne(x: real, y: real)
    requires y != 0.0
    ensures (x - y) / y == x / y - 1.0
  {
    var p, q := (x - y) / y, x / y;
    assert p * y == x - y && q * y == x;
    assert (q - 1.0) * y == x - y;
    if 0.0 < y {
      Cancel(p, q - 1.0, y);
    } else {
      var z := -y;
      assert p * z == -(p * y) && (q - 1.0) * z == -((q - 1.0) * y);
      Cancel(p, q - 1.0, z);
    }
  }

  lemma {:induction false} SumOfPart(s: seq<real>, lo: nat, hi: nat)
    requires lo <= hi <= |s|
    ensures Sum(s[lo..hi]) == Sum(s[..hi]) - Sum(s[..lo])
  {
    if lo < hi {
      SumOfPart(s, lo, hi - 1);
      assert s[lo..hi][..hi - lo - 1] == s[lo..hi - 1];
      assert s[..hi][..hi - 1] == s[..hi - 1];
    }
  }

  lemma MeanIsMean(s: seq<real>, i: nat, w: nat)
    requires i < |s| && 1 <= w
    ensures MeanAt(s, i, w) == Mean(s, i, w)
  {
    SumOfPart(s, First(i, w), i + 1);
    assert Window(s, i, w) == s[First(i, w)..i + 1];
  }

  lemma RangesAreTrue(highs: seq<real>, lows: seq<real>, closes: seq<real>)
    requires |highs| == |lows| == |closes|
    ensures TrueRanges(highs, lows, closes) == Ranges(highs, lows, closes)
  {
    forall i | 0 <= i < |closes|
      ensures TrueRangeAt(highs, lows, closes, i) == Range(highs, lows, closes, i)
    {
    }
  }

  /** The true range of a bar with its high above its low: from the higher of high and last close to the lower
      of low and last close. */
  lemma RangeSpans(highs: seq<real>, lows: seq<real>, closes: seq<real>, i: nat)
    requires |highs| == |lows| == |closes| && 0 < i < |closes| && lows[i] <= highs[i]
    ensures TrueRangeAt(highs, lows, closes, i)
         == MaxReal(highs[i], closes[i - 1]) - (if lows[i] <= closes[i - 1] then lows[i] else closes[i - 1])
  {
  }

  /** Squares around a number, by squares, sum and count. */
  function Around(squares: real, sum: real, n: real, mean: real): real {
    squares - 2.0 * mean * sum + n * mean * mean
  }

  function SquareFrom(x: real, mean: real): real { (x - mean) * (x - mean) }

  lemma {:induction false} SquaresBySums(s: seq<real>, mean: real)
    ensures SquaresAround(s, mean) == Around(SumOfSquares(s), Sum(s), |s| as real, mean)
  {
    hide Around, SquareFrom, Square;
    if s == [] {
      AroundNothing(s, mean);
    } else {
      var before, last := s[..|s| - 1], s[|s| - 1];
      SquaresBySums(before, mean);
      var n := |before| as real;
      OneMoreSquare(SumOfSquares(before), Sum(before), n, last, mean);
      OneMoreAround(s, mean);
    }
  }

  lemma AroundNothing(s: seq<real>, mean: real)
    requires s == []
    ensures SquaresAround(s, mean) == 0.0 == Around(SumOfSquares(s), Sum(s), |s| as real, mean)
  {
  }

  lemma OneMoreAround(s: seq<real>, mean: real)
    requires s != []
    ensures var before, last := s[..|s| - 1], s[|s| - 1];
            && SquaresAround(s, mean) == SquaresAround(before, mean) + SquareFrom(last, mean)
            && Around(SumOfSquares(s), Sum(s), |s| as real, mean)
               == Around(SumOfSquares(before) + Square(last), Sum(before) + last, |before| as real + 1.0, mean)
  {
    hide Around, Square;
    assert |s| as real == |s[..|s| - 1]| as real + 1.0;
  }

  lemma OneMoreSquare(squares: real, sum: real, n: real, x: real, mean: real)
    ensures Around(squares, sum, n, mean) + SquareFrom(x, mean) == Around(squares + Square(x), sum + x, n + 1.0, mean)
  {
    var m, mx, mm := mean * sum, mean * x, mean * mean;
    assert SquareFrom(x, mean) == x * x - 2.0 * mx + mm;
    assert 2.0 * mean * (sum + x) == 2.0 * m + 2.0 * mx && 2.0 * mean * sum == 2.0 * m;
    assert n * mean * mean == n * mm && (n + 1.0) * mean * mean == n * mm + mm;
  }

  lemma VarianceIsVariance(s: seq<real>)
    requires 2 <= |s|
    ensures SquaresAround(s, Sum(s) / |s| as real) / (|s| - 1) as real == Variance(s)
  {
    hide SquaresAround, Sum, SumOfSquares;
    SquaresBySums(s, Sum(s) / |s| as real);
    ByCount(|s|, Sum(s), SumOfSquares(s), SquaresAround(s, Sum(s) / |s| as real));
  }

  lemma ByCount(n: nat, sum: real, squares: real, around: real)
    requires 2 <= n
    requires around == Around(squares, sum, n as real, sum / n as real)
    ensures around / (n - 1) as real == (n as real * squares - sum * sum) / (n as real * (n as real - 1.0))
  {
    var m := n as real;
    assert (n - 1) as real == m - 1.0;
    ByDenominator(m, sum, squares, sum / m);
  }

  lemma ByDenominator(n: real, sum: real, squares: real, mean: real)
    requires 2.0 <= n && mean == sum / n
    ensures (squares - 2.0 * mean * sum + n * mean * mean) / (n - 1.0) == (n * squares - sum * sum) / (n * (n - 1.0))
  {
    assert mean * n == sum;
    var x, d := squares - 2.0 * mean * sum + n * mean * mean, n - 1.0;
    assert n * mean * mean == sum * mean;
    assert n * x == n * squares - 2.0 * (n * mean) * sum + sum * (n * mean);
    assert n * x == n * squares - sum * sum;
    Expanded(x, d, n);
  }

  lemma Expanded(x: real, d: real, n: real)
    requires 0.0 < d && 0.0 < n
    ensures 0.0 < n * d && x / d == n * x / (n * d)
  {
    var q, r := x / d, n * x / (n * d);
    assert 0.0 < n * d;
    assert q * d == x && r * (n * d) == n * x;
    assert q * (n * d) == n * (q * d);
    Cancel(q, r, n * d);
  }

  lemma DeviationIsDeviation(closes: seq<real>, i: nat, root: real -> real)
    requires i < |closes|
    ensures var n := Min(i, 24);
            DeviationAt(closes, i, 24, root) == if n < 2 then 0.01 else root(Variance(Growths(closes, i, n)))
  {
    var n := Min(i, 24);
    var changes := Returns(Window(closes, i, 25));
    assert |changes| == n;
    forall j | 0 <= j < n
      ensures changes[j] == Growths(closes, i, n)[j]
    {
      ChangeIsGrowth(closes, i - n + 1 + j, 1);
    }
    assert changes == Growths(closes, i, n);
    if 2 <= n {
      VarianceIsVariance(changes);
    }
    hide SquaresAround, Sum, Variance, Growth, Change;
  }

  lemma {:induction false} GreatestIsTop(s: seq<real>)
    requires s != []
    ensures Greatest(s) in s && forall x :: x in s ==> x <= Greatest(s)
  {
    if |s| > 1 {
      GreatestIsTop(s[..|s| - 1]);
      assert s == s[..|s| - 1] + [s[|s| - 1]];
    }
  }

  lemma MaxIsTop(s: seq<real>, i: nat, w: nat)
    requires i < |s| && 1 <= w
    ensures IsTop(s, i, w, MaxAt(s, i, w))
  {
    var view := Window(s, i, w);
    GreatestIsTop(view);
    assert forall j :: First(i, w) <= j <= i ==> s[j] == view[j - First(i, w)];
    var top := MaxAt(s, i, w);
    var k :| 0 <= k < |view| && view[k] == top;
    assert s[First(i, w) + k] == top;
    forall j | First(i, w) <= j <= i
      ensures s[j] <= top
    {
      assert view[j - First(i, w)] in view;
    }
    hide Greatest;
  }

  /** Every row is as described. */
  lemma RowIsDescribed(highs: seq<real>, lows: seq<real>, closes: seq<real>, i: nat, root: real -> real)
    requires |highs| == |lows| == |closes| && i < |closes|
    ensures Describes(highs, lows, closes, i, root, Row(highs, lows, closes, i, root))
  {
    hide Growth, ChangeAt, Mean, MeanAt, DeviationAt, Variance, MaxAt, IsTop, TrueRanges, Ranges;
    ChangeIsGrowth(closes, i, 1);
    ChangeIsGrowth(closes, i, 24);
    ChangeIsGrowth(closes, i, 72);
    DeviationIsDeviation(closes, i, root);
    MeanIsMean(closes, i, 24);
    MeanIsMean(closes, i, 72);
    RangesAreTrue(highs, lows, closes);
    MeanIsMean(Ranges(highs, lows, closes), i, 24);
    MaxIsTop(closes, i, 72);
  }

  // ---------------------------------------------------------------- the default signal

  /** What the default signal says. With fewer than twenty-five bars, or a close twenty-four bars back within a
      hundred-millionth of zero, it has no conviction; else it is the growth since then, at most one either way,
      so positive exactly after a rise. Its risk is at least a ten-thousandth. */
  lemma SignalIsTheDaysGrowth(sym: string, bars: seq<Bar>, root: real -> real)
    ensures var (conviction, risk) := Momentum(root)(sym, bars);
            && risk >= 0.0001
            && (|bars| < 25 ==> conviction == 0.0)
            && (|bars| >= 25 ==>
                  var now, then' := bars[|bars| - 1].close, bars[|bars| - 25].close;
                  && (-0.00000001 <= then' <= 0.00000001 ==> conviction == 0.0)
                  && (0.00000001 < then' ==>
                        && conviction == Nearest(-1.0, now / then' - 1.0, 1.0)
                        && (0.0 < conviction <==> then' < now)))
  {
    if |bars| >= 2 {
      LastRowIsDescribed(bars, root);
      if |bars| >= 25 {
        var now, then' := bars[|bars| - 1].close, bars[|bars| - 25].close;
        assert Closes(bars)[|bars| - 25] == then' && Closes(bars)[|bars| - 1] == now;
        if 0.00000001 < then' {
          QuotientAbove(now, then');
        }
      }
    }
    hide LastRow;
  }

  lemma QuotientAbove(x: real, y: real)
    requires 0.0 < y
    ensures 1.0 < x / y <==> y < x
  {
    var q := x / y;
    assert q * y == x;
    QuotientAtLeast(x, y, 1.0);
    if x == y {
      Cancel(q, 1.0, y);
    }
  }

  /** Conviction is the 24-bar growth, risk the mean range over the last close, at most a half. */
  lemma LastRowIsDescribed(bars: seq<Bar>, root: real -> real)
    requires bars != []
    ensures var (conviction, risk) := LastRow(bars, root);
            var i, c := |bars| - 1, bars[|bars| - 1].close;
            && conviction == Nearest(-1.0, Growth(Closes(bars), i, 24), 1.0)
            && risk == MaxReal(Nearest(0.0, Mean(Ranges(Highs(bars), Lows(bars), Closes(bars)), i, 24)
                                            / (if c < 0.00000001 then 0.00000001 else c), 0.5), 0.0001)
  {
    RowIsDescribed(Highs(bars), Lows(bars), Closes(bars), |bars| - 1, root);
    hide Row, Mean, Ranges, Growth;
  }
}
