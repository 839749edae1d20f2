/** The promotion gate over a fixed table of window results: one row of windows per slippage level, a
    median per row, and an early bail-out whose verdict must match the patient one. */
module Gate {
  import opened Prelude

  /** What the gate looks at in one window. */
  datatype Window = Window(monthly: real, maxDrawdown: real)

  datatype Reason = Finished | Drawdown(window: nat) | Unreachable(ge: nat, needed: nat, window: nat)

  datatype Cell = Cell(median: real, windowsRun: nat, reason: Reason) {
    predicate FailedFast() { reason != Finished }
  }

  datatype Outcome = AllPass | FailFast(level: nat) | BelowTarget(level: nat)

  datatype Verdict = Verdict(promote: bool, worstMedian: real, failedFast: bool, outcome: Outcome, cells: seq<Cell>)

  datatype Limits = Limits(target: real, failFast: bool, maxDrawdown: real)

  // ---------------------------------------------------------------- the median

  function InsertSorted(x: real, s: seq<real>): (r: seq<real>)
    ensures |r| == |s| + 1
  {
    if s == [] || x <= s[0] then [x] + s else [s[0]] + InsertSorted(x, s[1..])
  }

  function Sorted(s: seq<real>): (r: seq<real>)
    ensures |r| == |s|
  {
    if s == [] then [] else InsertSorted(s[0], Sorted(s[1..]))
  }

  /** The middle of the sorted values, or the mean of the two middle ones. */
  function Median(s: seq<real>): real
    requires s != []
  {
    var t := Sorted(s);
    var n := |s|;
    if n % 2 == 1 then t[n / 2] else (t[n / 2 - 1] + t[n / 2]) / 2.0
  }

  /** How many values reach the target. */
  function CountGe(s: seq<real>, target: real): nat {
    if s == [] then 0 else CountGe(s[..|s| - 1], target) + if s[|s| - 1] >= target then 1 else 0
  }

  /** How many of `n` windows must reach the target for the median to. */
  function WindowsNeeded(n: nat): nat { n - n / 2 }

  predicate Ascending(s: seq<real>) {
    forall i, j :: 0 <= i <= j < |s| ==> s[i] <= s[j]
  }

  lemma {:induction false} CountOfCat(a: seq<real>, b: seq<real>, target: real)
    ensures CountGe(a + b, target) == CountGe(a, target) + CountGe(b, target)
  {
    if b == [] {
      assert a + b == a;
    } else {
      CountOfCat(a, b[..|b| - 1], target);
      assert (a + b)[..|a + b| - 1] == a + b[..|b| - 1];
    }
  }

  /** Nobody counted is nobody reaching, and everybody counted is everybody reaching. */
  lemma {:induction false} CountTells(s: seq<real>, target: real)
    ensures CountGe(s, target) <= |s|
    ensures CountGe(s, target) == 0 <==> forall y :: y in s ==> y < target
    ensures CountGe(s, target) == |s| <==> forall y :: y in s ==> y >= target
  {
    if s != [] {
      CountTells(s[..|s| - 1], target);
      var before, last := s[..|s| - 1], s[|s| - 1];
      assert s == before + [last];
      assert last in s && forall y :: y in s <==> y in before || y == last;
    }
  }

  lemma {:induction false} InsertShape(x: real, s: seq<real>)
    requires Ascending(s)
    ensures Ascending(InsertSorted(x, s))
    ensures forall y :: y in InsertSorted(x, s) <==> y == x || y in s
  {
    if s == [] || x <= s[0] {
    } else {
      InsertShape(x, s[1..]);
      var rest := InsertSorted(x, s[1..]);
      forall j | 0 <= j < |rest|
        ensures s[0] <= rest[j]
      {
        assert rest[j] in rest;
      }
    }
  }

  lemma {:induction false} InsertCounts(x: real, s: seq<real>, target: real)
    ensures CountGe(InsertSorted(x, s), target) == CountGe(s, target) + if x >= target then 1 else 0
  {
    if s == [] || x <= s[0] {
      CountOfCat([x], s, target);
    } else {
      InsertCounts(x, s[1..], target);
      CountOfCat([s[0]], InsertSorted(x, s[1..]), target);
      CountOfCat([s[0]], s[1..], target);
      assert [s[0]] + s[1..] == s;
    }
  }

  lemma {:induction false} SortedShape(s: seq<real>)
    ensures Ascending(Sorted(s))
  {
    if s == [] {
    } else {
      SortedShape(s[1..]);
      InsertShape(s[0], Sorted(s[1..]));
    }
  }

  lemma {:induction false} SortedCounts(s: seq<real>, target: real)
    ensures CountGe(Sorted(s), target) == CountGe(s, target)
  {
    if s == [] {
    } else {
      SortedCounts(s[1..], target);
      InsertCounts(s[0], Sorted(s[1..]), target);
      CountOfCat([s[0]], s[1..], target);
      assert [s[0]] + s[1..] == s;
    }
  }

  /** In ascending order the values that reach the target are the last ones. */
  lemma {:induction false} CountIsSuffix(s: seq<real>, target: real, k: nat)
    requires Ascending(s) && k < |s|
    ensures s[k] >= target <==> CountGe(s, target) >= |s| - k
  {
    if s[|s| - 1] < target {
      CountTells(s, target);
    } else if k == |s| - 1 {
    } else {
      CountIsSuffix(s[..|s| - 1], target, k);
    }
  }

  /** Too few windows at the target keep the median below it; for an odd number of windows, enough of
      them is the same as a median at or above it. */
  lemma MedianByCount(s: seq<real>, target: real)
    requires s != []
    ensures CountGe(s, target) < WindowsNeeded(|s|) ==> Median(s) < target
    ensures |s| % 2 == 1 ==> (Median(s) >= target <==> CountGe(s, target) >= WindowsNeeded(|s|))
  {
    SortedShape(s);
    SortedCounts(s, target);
    CountIsSuffix(Sorted(s), target, |s| / 2);
  }

  /** The greatest value below the target. */
  function GreatestBelow(s: seq<real>, target: real): (r: Option<real>)
    ensures r.None? <==> forall y :: y in s ==> target <= y
    ensures r.Some? ==> r.value in s && r.value < target && forall y :: y in s && y < target ==> y <= r.value
  {
    if s == [] then None
    else
      var rest := GreatestBelow(s[1..], target);
      assert s[0] in s && forall y :: y in s <==> y == s[0] || y in s[1..];
      if s[0] < target && (rest.None? || rest.value < s[0]) then Some(s[0]) else rest
  }

  /** The least value at or above the target. */
  function LeastReaching(s: seq<real>, target: real): (r: Option<real>)
    ensures r.None? <==> forall y :: y in s ==> y < target
    ensures r.Some? ==> r.value in s && target <= r.value && forall y :: y in s && target <= y ==> r.value <= y
  {
    if s == [] then None
    else
      var rest := LeastReaching(s[1..], target);
      assert s[0] in s && forall y :: y in s <==> y == s[0] || y in s[1..];
      if target <= s[0] && (rest.None? || s[0] < rest.value) then Some(s[0]) else rest
  }

  /** The values nearest to the target on its two sides make up for each other. */
  predicate NearestReach(s: seq<real>, target: real) {
    var low, high := GreatestBelow(s, target), LeastReaching(s, target);
    low.Some? && high.Some? && low.value + high.value >= 2.0 * target
  }

  lemma {:induction false} SortedMembers(s: seq<real>)
    ensures forall y :: y in Sorted(s) <==> y in s
  {
    if s != [] {
      SortedMembers(s[1..]);
      SortedShape(s[1..]);
      InsertShape(s[0], Sorted(s[1..]));
    }
  }

  lemma NearestAre(s: seq<real>, target: real, low: real, high: real)
    requires low in s && high in s && low < target <= high
    requires forall y :: y in s ==> y <= low || high <= y
    ensures GreatestBelow(s, target) == Some(low) && LeastReaching(s, target) == Some(high)
  {
  }

  /** With exactly half of an even number of values at the target, the two middle ones are the nearest to it. */
  lemma MiddleIsNearest(s: seq<real>, target: real)
    requires s != [] && |s| % 2 == 0 && CountGe(s, target) == |s| / 2
    ensures GreatestBelow(s, target) == Some(Sorted(s)[|s| / 2 - 1])
    ensures LeastReaching(s, target) == Some(Sorted(s)[|s| / 2])
  {
    hide Sorted, CountGe, GreatestBelow, LeastReaching;
    var t, m := Sorted(s), |s| / 2;
    SortedShape(s);
    SortedCounts(s, target);
    SortedMembers(s);
    CountIsSuffix(t, target, m - 1);
    CountIsSuffix(t, target, m);
    assert t[m - 1] in t && t[m] in t;
    forall y | y in s
      ensures y <= t[m - 1] || t[m] <= y
    {
      var i :| 0 <= i < |t| && t[i] == y;
    }
    NearestAre(s, target, t[m - 1], t[m]);
  }

  /** For an even number of values the median reaches the target exactly when more than half of them do, or
      half of them do and the nearest below and above it average to it. */
  lemma EvenMedianByCount(s: seq<real>, target: real)
    requires s != [] && |s| % 2 == 0
    ensures Median(s) >= target <==>
            CountGe(s, target) > |s| / 2 || (CountGe(s, target) == |s| / 2 && NearestReach(s, target))
  {
    SortedShape(s);
    SortedCounts(s, target);
    CountIsSuffix(Sorted(s), target, |s| / 2 - 1);
    CountIsSuffix(Sorted(s), target, |s| / 2);
    if CountGe(s, target) == |s| / 2 {
      MiddleIsNearest(s, target);
    }
  }

  // ---------------------------------------------------------------- one cell

  function Monthlies(row: seq<Window>): (r: seq<real>)
    ensures |r| == |row|
  {
    seq(|row|, i requires 0 <= i < |row| => row[i].monthly)
  }

  function MedianMonthly(row: seq<Window>): real { if row == [] then 0.0 else Median(Monthlies(row)) }

  /** Whether the median can no longer reach the target after window `i`. */
  predicate Hopeless(row: seq<Window>, i: nat, target: real)
    requires i < |row|
  {
    CountGe(Monthlies(row[..i + 1]), target) + (|row| - (i + 1)) < WindowsNeeded(|row|)
  }

  /** Why the cell stops after window `i`, if it does: the drawdown is looked at first. */
  function StopReason(row: seq<Window>, i: nat, limits: Limits): Reason
    requires i < |row|
  {
    if !limits.failFast then Finished
    else if row[i].maxDrawdown > limits.maxDrawdown then Drawdown(i)
    else if Hopeless(row, i, limits.target) then
      Unreachable(CountGe(Monthlies(row[..i + 1]), limits.target), WindowsNeeded(|row|), i)
    else Finished
  }

  /** No window before `k` gives a reason to stop. */
  predicate RunsTo(row: seq<Window>, limits: Limits, k: int)
    requires k <= |row|
  {
    forall i :: 0 <= i < k ==> StopReason(row, i, limits) == Finished
  }

  /** The result of a cell: it ran up to the first window with a reason to stop, or through all of them. */
  predicate IsCell(row: seq<Window>, limits: Limits, cell: Cell) {
    && cell.windowsRun <= |row|
    && RunsTo(row, limits, cell.windowsRun - 1)
    && cell.reason == (if cell.windowsRun == 0 then Finished else StopReason(row, cell.windowsRun - 1, limits))
    && (cell.reason == Finished ==> cell.windowsRun == |row|)
    && cell.median == MedianMonthly(row[..cell.windowsRun])
  }

  /** A cell's result is determined by its row and the limits. */
  lemma CellIsUnique(row: seq<Window>, limits: Limits, c: Cell, d: Cell)
    requires IsCell(row, limits, c) && IsCell(row, limits, d)
    ensures c == d
  {
  }

  lemma CountGrows(row: seq<Window>, i: nat, target: real)
    requires i < |row|
    ensures CountGe(Monthlies(row[..i + 1]), target) ==
            CountGe(Monthlies(row[..i]), target) + if row[i].monthly >= target then 1 else 0
  {
    assert Monthlies(row[..i + 1])[..i] == Monthlies(row[..i]);
  }

  lemma StopReasonByCount(row: seq<Window>, i: nat, limits: Limits, geCount: nat)
    requires i < |row| && geCount == CountGe(Monthlies(row[..i + 1]), limits.target)
    ensures StopReason(row, i, limits) ==
            if !limits.failFast then Finished
            else if row[i].maxDrawdown > limits.maxDrawdown then Drawdown(i)
            else if geCount + (|row| - (i + 1)) < WindowsNeeded(|row|) then
              Unreachable(geCount, WindowsNeeded(|row|), i)
            else Finished
  {
  }

  method RunCell(row: seq<Window>, limits: Limits) returns (cell: Cell)
    ensures IsCell(row, limits, cell)
  {
    NoneBeforeTheFirst(row, limits);
    hide MedianMonthly, CountGe, Monthlies, StopReason, WindowsNeeded, RunsTo;
    var n := |row|;
    var neededGe := WindowsNeeded(n);
    var results: seq<Window> := [];
    var geCount: nat := 0;
    var reason := Finished;
    var i := 0;
    while i < n
      invariant 0 <= i <= n && results == row[..i] && reason == Finished
      invariant geCount == CountGe(Monthlies(row[..i]), limits.target)
      invariant RunsTo(row, limits, i)
      invariant i > 0 ==> RunsTo(row, limits, i - 1) && StopReason(row, i - 1, limits) == Finished
    {
      results := results + [row[i]];
      assert results == row[..i + 1];
      CountGrows(row, i, limits.target);
      if row[i].monthly >= limits.target {
        geCount := geCount + 1;
      }
      StopReasonByCount(row, i, limits, geCount);
      i := i + 1;
      if limits.failFast {
        if row[i - 1].maxDrawdown > limits.maxDrawdown {
          reason := Drawdown(i - 1);
          break;
        }
        var remaining := n - i;
        if geCount + remaining < neededGe {
          reason := Unreachable(geCount, neededGe, i - 1);
          break;
        }
      }
      RunsOn(row, limits, i - 1);
    }
    cell := Cell(MedianMonthly(results), |results|, reason);
  }

  lemma NoneBeforeTheFirst(row: seq<Window>, limits: Limits)
    ensures RunsTo(row, limits, 0) && RunsTo(row, limits, -1) && CountGe(Monthlies(row[..0]), limits.target) == 0
  {
  }

  lemma RunsOn(row: seq<Window>, limits: Limits, i: nat)
    requires i < |row| && RunsTo(row, limits, i) && StopReason(row, i, limits) == Finished
    ensures RunsTo(row, limits, i + 1)
  {
  }

  /** The cell with its bail-out, as a value. */
  function CellOf(row: seq<Window>, limits: Limits): (cell: Cell)
    ensures IsCell(row, limits, cell)
  {
    var k := FirstStop(row, limits, 0);
    Cell(MedianMonthly(row[..k]), k, if k == 0 then Finished else StopReason(row, k - 1, limits))
  }

  function FirstStop(row: seq<Window>, limits: Limits, i: nat): (k: nat)
    requires i <= |row|
    ensures i <= k <= |row| && (i < |row| ==> i < k)
    ensures forall j :: i <= j < k - 1 ==> StopReason(row, j, limits) == Finished
    ensures k < |row| ==> StopReason(row, k - 1, limits) != Finished
    decreases |row| - i
  {
    if i == |row| then i
    else if StopReason(row, i, limits) != Finished then i + 1
    else FirstStop(row, limits, i + 1)
  }

  // ---------------------------------------------------------------- the bail-out never changes the verdict

  /** Rows of the same length that agree on the first `k` windows. */
  predicate Completes(row: seq<Window>, full: seq<Window>, k: nat) {
    |full| == |row| && k <= |row| && full[..k] == row[..k]
  }

  /** A cell that bails because the median is out of reach is right, whatever the remaining windows hold. */
  lemma BailIsSound(row: seq<Window>, limits: Limits, full: seq<Window>)
    requires var cell := CellOf(row, limits);
             cell.reason.Unreachable? && Completes(row, full, cell.windowsRun)
    ensures MedianMonthly(full) < limits.target
  {
    var k := CellOf(row, limits).windowsRun;
    var all := Monthlies(full);
    assert all == Monthlies(row[..k]) + all[k..] by {
      assert all[..k] == Monthlies(row[..k]);
    }
    CountOfCat(Monthlies(row[..k]), all[k..], limits.target);
    CountTells(all[k..], limits.target);
    MedianByCount(all, limits.target);
  }

  /** The rule gives up too late: as many windows are left as must reach the target, for an even number
      of them, and the nearest values seen already keep the mean of the two middle ones below it. */
  predicate Late(row: seq<Window>, i: nat, target: real)
    requires i < |row|
  {
    var seen := Monthlies(row[..i + 1]);
    && |row| % 2 == 0
    && 0 < CountGe(seen, target) && CountGe(seen, target) + (|row| - (i + 1)) == |row| / 2
    && !NearestReach(seen, target)
  }

  /** The seen windows followed by equal ones. */
  function FilledWith(row: seq<Window>, i: nat, monthly: real): (full: seq<Window>)
    requires i < |row|
    ensures Completes(row, full, i + 1)
  {
    row[..i + 1] + seq(|row| - (i + 1), _ => Window(monthly, 0.0))
  }

  lemma CountOfCompleted(row: seq<Window>, full: seq<Window>, i: nat, target: real) returns (tail: seq<real>)
    requires i < |row| && Completes(row, full, i + 1)
    ensures Monthlies(full) == Monthlies(row[..i + 1]) + tail && |tail| == |row| - (i + 1)
    ensures CountGe(Monthlies(full), target) == CountGe(Monthlies(row[..i + 1]), target) + CountGe(tail, target)
    ensures CountGe(tail, target) <= |tail|
    ensures forall v :: full == FilledWith(row, i, v) ==> forall y :: y in tail ==> y == v
  {
    tail := Monthlies(full)[i + 1..];
    assert Monthlies(full)[..i + 1] == Monthlies(row[..i + 1]);
    CountOfCat(Monthlies(row[..i + 1]), tail, target);
    CountTells(tail, target);
  }

  lemma LateIsLost(row: seq<Window>, i: nat, target: real, full: seq<Window>)
    requires i < |row| && Late(row, i, target) && Completes(row, full, i + 1)
    ensures MedianMonthly(full) < target
  {
    var seen, all := Monthlies(row[..i + 1]), Monthlies(full);
    var tail := CountOfCompleted(row, full, i, target);
    EvenMedianByCount(all, target);
    if CountGe(all, target) == |all| / 2 {
      CountTells(tail, target);
      CountTells(seen, target);
      TailCannotHelp(seen, tail, target);
    }
  }

  /** More values at the target bring the least of them no higher. */
  lemma TailCannotHelp(seen: seq<real>, tail: seq<real>, target: real)
    requires LeastReaching(seen, target).Some? && forall y :: y in tail ==> y >= target
    ensures NearestReach(seen + tail, target) ==> NearestReach(seen, target)
  {
    var all := seen + tail;
    assert forall y :: y in all <==> y in seen || y in tail;
  }

  /** The value of the remaining windows that helps most. */
  function BestFill(row: seq<Window>, i: nat, target: real): real
    requires i < |row|
  {
    var seen := Monthlies(row[..i + 1]);
    if LeastReaching(seen, target).Some? then LeastReaching(seen, target).value
    else if GreatestBelow(seen, target).Some? then 2.0 * target - GreatestBelow(seen, target).value
    else target
  }

  /** Followed by the best value, nearest values that reach the target go on reaching it, and a lowest one
      with nothing at the target yet is made up for. */
  lemma BestFillReaches(seen: seq<real>, tail: seq<real>, target: real, best: real)
    requires GreatestBelow(seen, target).Some? && forall y :: y in tail ==> y == best
    requires LeastReaching(seen, target).Some? ==>
               best == LeastReaching(seen, target).value && NearestReach(seen, target)
    requires LeastReaching(seen, target).None? ==>
               best == 2.0 * target - GreatestBelow(seen, target).value && tail != []
    ensures NearestReach(seen + tail, target)
  {
    var all, low := seen + tail, GreatestBelow(seen, target).value;
    assert forall y :: y in all <==> y in seen || y in tail;
    if LeastReaching(seen, target).Some? {
      assert best in seen;
    } else {
      var first := tail[0];
      assert first in tail;
    }
    assert best in all;
    NearestAre(all, target, low, best);
  }

  lemma FilledReaches(row: seq<Window>, i: nat, target: real)
    requires i < |row| && !Hopeless(row, i, target) && !Late(row, i, target)
    ensures MedianMonthly(FilledWith(row, i, BestFill(row, i, target))) >= target
  {
    hide Median, CountGe, GreatestBelow, LeastReaching, NearestReach, FilledWith;
    var best := BestFill(row, i, target);
    var full := FilledWith(row, i, best);
    var seen, all := Monthlies(row[..i + 1]), Monthlies(full);
    var tail := CountOfCompleted(row, full, i, target);
    CountTells(tail, target);
    MedianByCount(all, target);
    if |row| % 2 == 0 {
      EvenMedianByCount(all, target);
      if CountGe(all, target) == |all| / 2 {
        CountTells(seen, target);
        BestFillReaches(seen, tail, target, best);
      }
    }
  }

  /** Exactly when the median is out of reach: no completion of the windows seen so far reaches the target
      if and only if the rule gives up, or is late. For an odd number it is never late. */
  lemma BailIsExact(row: seq<Window>, i: nat, target: real)
    requires i < |row|
    ensures (exists full :: Completes(row, full, i + 1) && MedianMonthly(full) >= target)
            <==> !Hopeless(row, i, target) && !Late(row, i, target)
  {
    if !Hopeless(row, i, target) && !Late(row, i, target) {
      FilledReaches(row, i, target);
    }
    forall full | Completes(row, full, i + 1) && (Hopeless(row, i, target) || Late(row, i, target))
      ensures MedianMonthly(full) < target
    {
      if Late(row, i, target) {
        LateIsLost(row, i, target, full);
      } else {
        var tail := CountOfCompleted(row, full, i, target);
        MedianByCount(Monthlies(full), target);
      }
    }
    hide MedianMonthly, Late, Hopeless;
  }

  /** It is late on a row of four: after three windows, one of them at the target, it goes on, and no fourth
      window can help. */
  lemma BailMayBeLate(target: real, last: Window)
    ensures var row := [Window(target - 1.0, 0.0), Window(target - 1.0, 0.0), Window(target, 0.0), last];
            !Hopeless(row, 2, target) && Late(row, 2, target) && MedianMonthly(row) < target
  {
    var low := Window(target - 1.0, 0.0);
    var row := [low, low, Window(target, 0.0), last];
    var seen := Monthlies(row[..3]);
    assert seen == [target - 1.0, target - 1.0, target];
    assert seen[..2] == [target - 1.0, target - 1.0] && seen[..2][..1] == [target - 1.0];
    assert CountGe(seen[..2][..1], target) == 0;
    assert CountGe(seen[..2], target) == 0;
    assert CountGe(seen, target) == 1;
    NearestAre(seen, target, target - 1.0, target);
    LateIsLost(row, 2, target, row);
  }

  predicate Patient(limits: Limits, patient: Limits) {
    !patient.failFast && patient.target == limits.target && patient.maxDrawdown == limits.maxDrawdown
  }

  predicate Breaches(row: seq<Window>, maxDrawdown: real) {
    exists i :: 0 <= i < |row| && row[i].maxDrawdown > maxDrawdown
  }

  predicate Passes(cell: Cell, target: real) { !cell.FailedFast() && cell.median >= target }

  /** A cell passes with the bail-out exactly when it passes without and no window breaches the drawdown
      limit. */
  lemma CellVerdictAgrees(row: seq<Window>, limits: Limits, patient: Limits)
    requires limits.failFast && Patient(limits, patient)
    ensures Passes(CellOf(row, limits), limits.target) <==>
            Passes(CellOf(row, patient), limits.target) && !Breaches(row, limits.maxDrawdown)
  {
    var cell, slow := CellOf(row, limits), CellOf(row, patient);
    assert row[..|row|] == row;
    assert slow.windowsRun == |row|;
    if cell.reason.Unreachable? {
      BailIsSound(row, limits, row);
    } else if cell.reason == Finished {
      forall i | 0 <= i < |row|
        ensures row[i].maxDrawdown <= limits.maxDrawdown
      {
        assert StopReason(row, i, limits) == Finished;
      }
    } else {
      assert row[cell.windowsRun - 1].maxDrawdown > limits.maxDrawdown;
    }
  }

  /** With an odd number of windows, a cell that runs to the end under the bail-out has reached the target. */
  lemma FinishedOddCellPasses(row: seq<Window>, limits: Limits)
    requires limits.failFast && |row| % 2 == 1
    ensures CellOf(row, limits).reason == Finished ==> CellOf(row, limits).median >= limits.target
  {
    var cell := CellOf(row, limits);
    if cell.reason == Finished {
      assert row[..|row|] == row;
      MedianByCount(Monthlies(row), limits.target);
    }
  }

  /** With an even number it has exactly when more than half of the windows did, or half of them did and the
      nearest below and above the target average to it. */
  lemma FinishedEvenCellByCount(row: seq<Window>, limits: Limits)
    requires row != [] && |row| % 2 == 0
    ensures CellOf(row, limits).reason == Finished ==>
              var count := CountGe(Monthlies(row), limits.target);
              (CellOf(row, limits).median >= limits.target <==>
               count > |row| / 2 || (count == |row| / 2 && NearestReach(Monthlies(row), limits.target)))
  {
    var cell := CellOf(row, limits);
    if cell.reason == Finished {
      assert row[..|row|] == row;
      EvenMedianByCount(Monthlies(row), limits.target);
    }
  }

  /** Half of them at the target can miss it. */
  lemma FinishedEvenCellMayMiss(limits: Limits)
    requires limits.failFast
    ensures var row := [Window(limits.target, limits.maxDrawdown), Window(limits.target - 1.0, limits.maxDrawdown)];
            CellOf(row, limits).reason == Finished && CellOf(row, limits).median < limits.target
  {
    var row := [Window(limits.target, limits.maxDrawdown), Window(limits.target - 1.0, limits.maxDrawdown)];
    var one, two := Monthlies(row[..1]), Monthlies(row[..2]);
    assert one == [limits.target] && two == [limits.target, limits.target - 1.0] && two[..1] == one;
    assert CountGe(one, limits.target) == 1 && CountGe(two, limits.target) == 1;
    assert StopReason(row, 0, limits) == Finished == StopReason(row, 1, limits);
    assert two[1..] == [limits.target - 1.0] && two[1..][1..] == [];
    var low := Sorted(two[1..]);
    assert low == [limits.target - 1.0] && low[1..] == [];
    assert InsertSorted(limits.target, low[1..]) == [limits.target];
    assert Sorted(two) == [limits.target - 1.0, limits.target];
  }

  // ---------------------------------------------------------------- the sweep over slippages

  /** The verdict from a given level on, with what the earlier levels left: all of them passed. */
  function Sweep(table: seq<seq<Window>>, limits: Limits, level: nat, worst: Option<real>, cells: seq<Cell>): Verdict
    requires level <= |table|
    decreases |table| - level
  {
    if level == |table| then Verdict(true, if worst.Some? then worst.value else 0.0, false, AllPass, cells)
    else
      var cell := CellOf(table[level], limits);
      var low := Lower(worst, cell.median);
      if cell.FailedFast() then Verdict(false, low, true, FailFast(level), cells + [cell])
      else if cell.median < limits.target then Verdict(false, low, false, BelowTarget(level), cells + [cell])
      else Sweep(table, limits, level + 1, Some(low), cells + [cell])
  }

  method Evaluate(table: seq<seq<Window>>, limits: Limits) returns (verdict: Verdict)
    ensures verdict == Sweep(table, limits, 0, None, [])
  {
    var cells: seq<Cell> := [];
    var worst: Option<real> := None;
    var failedFast := false;
    var promote := true;
    var outcome := AllPass;
    var level := 0;
    while level < |table|
      invariant 0 <= level <= |table| && promote && !failedFast && outcome == AllPass
      invariant Sweep(table, limits, level, worst, cells) == Sweep(table, limits, 0, None, [])
    {
      var cell := RunCell(table[level], limits);
      CellIsUnique(table[level], limits, cell, CellOf(table[level], limits));
      cells := cells + [cell];
      worst := Some(Lower(worst, cell.median));
      if cell.FailedFast() {
        failedFast, promote, outcome := true, false, FailFast(level);
        break;
      }
      if cell.median < limits.target {
        promote, outcome := false, BelowTarget(level);
        break;
      }
      level := level + 1;
    }
    verdict := Verdict(promote, if worst.Some? then worst.value else 0.0, failedFast, outcome, cells);
  }

  /** Promotion is every level's cell passing. */
  lemma {:induction false} PromoteIsAllPass(table: seq<seq<Window>>, limits: Limits, level: nat,
                                            worst: Option<real>, cells: seq<Cell>)
    requires level <= |table|
    ensures Sweep(table, limits, level, worst, cells).promote <==>
            forall k :: level <= k < |table| ==> Passes(CellOf(table[k], limits), limits.target)
    decreases |table| - level
  {
    if level < |table| {
      var cell := CellOf(table[level], limits);
      if Passes(cell, limits.target) {
        var low := Lower(worst, cell.median);
        PromoteIsAllPass(table, limits, level + 1, Some(low), cells + [cell]);
      }
    }
  }

  /** Failing fast never promotes what patience would reject, and rejects more only for a drawdown
      breach: promotion with it is promotion without it and no breach anywhere in the table. */
  lemma FailFastKeepsTheVerdict(table: seq<seq<Window>>, limits: Limits, patient: Limits)
    requires limits.failFast && Patient(limits, patient)
    ensures Sweep(table, limits, 0, None, []).promote <==>
            && Sweep(table, patient, 0, None, []).promote
            && (forall k :: 0 <= k < |table| ==> !Breaches(table[k], limits.maxDrawdown))
  {
    PromoteIsAllPass(table, limits, 0, None, []);
    PromoteIsAllPass(table, patient, 0, None, []);
    forall k | 0 <= k < |table|
      ensures Passes(CellOf(table[k], limits), limits.target) <==>
              Passes(CellOf(table[k], patient), limits.target) && !Breaches(table[k], limits.maxDrawdown)
    {
      CellVerdictAgrees(table[k], limits, patient);
    }
    hide Passes, Breaches, CellOf, Sweep;
  }

  predicate IsLeast(m: real, cells: seq<Cell>) {
    && (forall k :: 0 <= k < |cells| ==> m <= cells[k].median)
    && (exists k :: 0 <= k < |cells| && cells[k].median == m)
  }

  function Lower(worst: Option<real>, m: real): real { if worst.Some? && worst.value <= m then worst.value else m }

  lemma LeastOfMore(worst: Option<real>, cells: seq<Cell>, cell: Cell)
    requires worst.Some? <==> cells != []
    requires worst.Some? ==> IsLeast(worst.value, cells)
    ensures IsLeast(Lower(worst, cell.median), cells + [cell])
  {
    var more := cells + [cell];
    if Lower(worst, cell.median) == cell.median {
      assert more[|cells|].median == cell.median;
    } else {
      var k :| 0 <= k < |cells| && cells[k].median == worst.value;
      assert more[k].median == worst.value;
    }
  }

  /** Cells of the first levels of a table. */
  predicate AreCells(table: seq<seq<Window>>, limits: Limits, cells: seq<Cell>) {
    |cells| <= |table| && forall k :: 0 <= k < |cells| ==> cells[k] == CellOf(table[k], limits)
  }

  lemma OneMoreCell(table: seq<seq<Window>>, limits: Limits, cells: seq<Cell>)
    requires AreCells(table, limits, cells) && |cells| < |table|
    ensures AreCells(table, limits, cells + [CellOf(table[|cells|], limits)])
  {
  }

  /** The reported worst median is the smallest median among the cells that ran, which are the levels
      up to the first that fails; on promotion they are all of them, none below the target. */
  lemma {:induction false} WorstMedianIsTheLeast(table: seq<seq<Window>>, limits: Limits, level: nat,
                                                 worst: Option<real>, cells: seq<Cell>)
    requires level <= |table| && |cells| == level
    requires AreCells(table, limits, cells)
    requires forall k :: 0 <= k < level ==> cells[k].median >= limits.target
    requires worst.Some? <==> level > 0
    requires worst.Some? ==> IsLeast(worst.value, cells)
    ensures var v := Sweep(table, limits, level, worst, cells);
            && AreCells(table, limits, v.cells)
            && (table == [] ==> v.worstMedian == 0.0) && (table != [] ==> IsLeast(v.worstMedian, v.cells))
            && (v.promote ==> |v.cells| == |table| && (table != [] ==> v.worstMedian >= limits.target))
    decreases |table| - level
  {
    if level < |table| {
      var cell := CellOf(table[level], limits);
      var low := Lower(worst, cell.median);
      LeastOfMore(worst, cells, cell);
      OneMoreCell(table, limits, cells);
      hide IsLeast, IsCell, Lower, AreCells, CellOf;
      if Passes(cell, limits.target) {
        WorstMedianIsTheLeast(table, limits, level + 1, Some(low), cells + [cell]);
      }
    }
  }
}
