/**
 * Payline evaluation (`processReelsPosition`, server/index.js): for each
 * payline, collect the symbols under the cells its mask marks, measure the
 * run of the first symbol, and report the line when the run is at least 3.
 */
module Paylines {
  import opened Results
  import opened Money
  import opened Games

  /** A grid coordinate. */
  datatype Cell = Cell(reel: nat, row: nat)

  /** `a` is visited before `b`: reels left to right, rows top to bottom within a reel. */
  predicate Before(a: Cell, b: Cell) {
    a.reel < b.reel || (a.reel == b.reel && a.row < b.row)
  }

  /** Every cell of the sequence comes before all cells after it. */
  predicate InScanOrder(cells: seq<Cell>) {
    forall a, b :: 0 <= a < b < |cells| ==> Before(cells[a], cells[b])
  }

  /** The cells of reel `reel` that a mask column marks with 1, in row order. */
  function ReelCells(maskReel: seq<int>, reel: nat): seq<Cell>
    decreases |maskReel|
  {
    if |maskReel| == 0 then []
    else
      var last := |maskReel| - 1;
      ReelCells(maskReel[..last], reel) + (if maskReel[last] == 1 then [Cell(reel, last)] else [])
  }

  /** The cells a mask marks with 1, in the order the server's nested loop visits them. */
  function MarkedCells(mask: Mask): seq<Cell>
    decreases |mask|
  {
    if |mask| == 0 then []
    else
      var last := |mask| - 1;
      MarkedCells(mask[..last]) + ReelCells(mask[last], last)
  }

  /** The number of 1 entries in a mask. */
  function OnesIn(mask: Mask): nat
    decreases |mask|
  {
    if |mask| == 0 then 0 else OnesIn(mask[..|mask| - 1]) + multiset(mask[|mask| - 1])[1]
  }

  lemma {:induction false} ReelCellsMembership(maskReel: seq<int>, reel: nat)
    ensures forall c :: c in ReelCells(maskReel, reel) <==>
      c.reel == reel && c.row < |maskReel| && maskReel[c.row] == 1
    decreases |maskReel|
  {
    if |maskReel| > 0 {
      var last := |maskReel| - 1;
      ReelCellsMembership(maskReel[..last], reel);
    }
  }

  lemma {:induction false} ReelCellsOrdered(maskReel: seq<int>, reel: nat)
    ensures InScanOrder(ReelCells(maskReel, reel))
    decreases |maskReel|
  {
    if |maskReel| > 0 {
      var last := |maskReel| - 1;
      ReelCellsOrdered(maskReel[..last], reel);
      ReelCellsMembership(maskReel[..last], reel);
      ReelCellsMembership(maskReel, reel);
      var cells := ReelCells(maskReel, reel);
      var front := ReelCells(maskReel[..last], reel);
      var tail := if maskReel[last] == 1 then [Cell(reel, last)] else [];
      assert cells == front + tail;
      forall a, b | 0 <= a < b < |cells|
        ensures Before(cells[a], cells[b])
      {
        if b >= |front| {
          assert cells[b] == Cell(reel, last);
          assert cells[a] == front[a];
          assert front[a] in front;
          assert front[a].row < last;
        } else {
          assert cells[a] == front[a] && cells[b] == front[b];
        }
      }
    }
  }

  lemma {:induction false} ReelCellsCount(maskReel: seq<int>, reel: nat)
    ensures |ReelCells(maskReel, reel)| == multiset(maskReel)[1]
    decreases |maskReel|
  {
    if |maskReel| > 0 {
      var last := |maskReel| - 1;
      ReelCellsCount(maskReel[..last], reel);
      assert maskReel == maskReel[..last] + [maskReel[last]];
      assert multiset(maskReel) == multiset(maskReel[..last]) + multiset{maskReel[last]};
    }
  }

  /** A cell is collected for a payline exactly when the mask marks it with 1. */
  lemma {:induction false} MarkedCellsMembership(mask: Mask)
    ensures forall c :: c in MarkedCells(mask) <==>
      c.reel < |mask| && c.row < |mask[c.reel]| && mask[c.reel][c.row] == 1
    decreases |mask|
  {
    if |mask| > 0 {
      var last := |mask| - 1;
      MarkedCellsMembership(mask[..last]);
      ReelCellsMembership(mask[last], last);
    }
  }

  /** Collected cells come strictly in scan order: reel by reel, then row by row. */
  lemma {:induction false} MarkedCellsOrdered(mask: Mask)
    ensures InScanOrder(MarkedCells(mask))
    decreases |mask|
  {
    if |mask| > 0 {
      var last := |mask| - 1;
      MarkedCellsOrdered(mask[..last]);
      MarkedCellsMembership(mask[..last]);
      ReelCellsOrdered(mask[last], last);
      ReelCellsMembership(mask[last], last);
      var cells := MarkedCells(mask);
      var front := MarkedCells(mask[..last]);
      var back := ReelCells(mask[last], last);
      assert cells == front + back;
      forall a, b | 0 <= a < b < |cells|
        ensures Before(cells[a], cells[b])
      {
        if a < |front| && b >= |front| {
          assert cells[a] == front[a] && front[a] in front;
          assert front[a].reel < last;
          assert cells[b] == back[b - |front|] && back[b - |front|] in back;
          assert back[b - |front|].reel == last;
        } else if a >= |front| {
          assert cells[a] == back[a - |front|] && cells[b] == back[b - |front|];
        } else {
          assert cells[a] == front[a] && cells[b] == front[b];
        }
      }
    }
  }

  /** One cell is collected per 1 in the mask. */
  lemma {:induction false} MarkedCellsCount(mask: Mask)
    ensures |MarkedCells(mask)| == OnesIn(mask)
    decreases |mask|
  {
    if |mask| > 0 {
      var last := |mask| - 1;
      MarkedCellsCount(mask[..last]);
      ReelCellsCount(mask[last], last);
    }
  }

  /**
   * `symbolsInLine`: the grid symbols under the cells the mask marks, in scan
   * order; there is one per 1 in the mask.
   */
  function SymbolsInLine(mask: Mask, grid: Grid): (symbols: seq<int>)
    requires MaskFits(mask, grid)
    ensures |symbols| == OnesIn(mask)
  {
    var cells := MarkedCells(mask);
    MarkedCellsMembership(mask);
    MarkedCellsCount(mask);
    seq(|cells|, (n: int) requires 0 <= n < |cells| => grid[cells[n].reel][cells[n].row])
  }

  /** The symbols of a payline are the grid's symbols at the mask's marked cells, in scan order. */
  lemma SymbolsAtMarkedCells(mask: Mask, grid: Grid)
    requires MaskFits(mask, grid)
    ensures var cells := MarkedCells(mask);
      && |SymbolsInLine(mask, grid)| == |cells|
      && forall n :: 0 <= n < |cells| ==>
        cells[n].reel < |grid| && cells[n].row < |grid[cells[n].reel]|
        && SymbolsInLine(mask, grid)[n] == grid[cells[n].reel][cells[n].row]
  {
    MarkedCellsMembership(mask);
    var cells := MarkedCells(mask);
    forall n | 0 <= n < |cells|
      ensures cells[n].reel < |grid| && cells[n].row < |grid[cells[n].reel]|
    {
      assert cells[n] in cells;
    }
  }

  /** `count` is the length of the run of `s[0]` at the start of `s`. */
  predicate IsMaximalRun(s: seq<int>, count: nat) {
    && 1 <= count <= |s|
    && (forall n :: 0 <= n < count ==> s[n] == s[0])
    && (count < |s| ==> s[count] != s[0])
  }

  /** The server's counting loop from index `j` on, with the count equal to `j`. */
  function RunFrom(s: seq<int>, j: nat): (count: nat)
    requires 1 <= j
    requires |s| == 0 || j <= |s|
    requires forall n :: 0 <= n < j && n < |s| ==> s[n] == s[0]
    ensures j <= count
    ensures |s| == 0 ==> count == j
    ensures |s| > 0 ==> count <= |s|
    ensures forall n :: 0 <= n < count && n < |s| ==> s[n] == s[0]
    ensures count < |s| ==> s[count] != s[0]
    decreases |s| - j
  {
    if j < |s| && s[j] == s[0] then RunFrom(s, j + 1) else j
  }

  /**
   * `identicalSymbolsCount`: the run of the first symbol, starting from 1 and
   * stopping at the first mismatch. An empty line counts 1, as in the server,
   * where the loop never runs.
   */
  function RunCount(s: seq<int>): (count: nat)
    ensures |s| == 0 ==> count == 1
    ensures |s| > 0 ==> IsMaximalRun(s, count)
  {
    RunFrom(s, 1)
  }

  /** A maximal run is unique, so `RunCount` is the only count that is one. */
  lemma RunCountCharacterization(s: seq<int>, count: nat)
    requires |s| > 0
    ensures IsMaximalRun(s, count) <==> count == RunCount(s)
  {
  }

  /** `symbolsMultipliers[symbol][count - 3]` is defined. */
  predicate HasMultiplier(cfg: Config, symbol: int, count: nat) {
    symbol in cfg.multipliers && 3 <= count && count - 3 < |cfg.multipliers[symbol]|
  }

  /** The rounded payout of a run: the stake times the run's multiplier. */
  function LineAmount(cfg: Config, betAmount: real, symbol: int, count: nat): (r: real)
    requires HasMultiplier(cfg, symbol, count)
    ensures IsCents(r)
    ensures r - 0.005 <= betAmount * cfg.multipliers[symbol][count - 3] < r + 0.005
  {
    Round2(betAmount * cfg.multipliers[symbol][count - 3])
  }

  /** One entry of the server's result list; `mask` is the entry the server calls `map`. */
  datatype LineResult = LineResult(number: nat, symbol: int, count: nat, mask: Mask, amount: real)

  /**
   * A paying run with no multiplier entry. The server reads past the symbol's
   * multiplier table (or indexes `undefined` when the symbol has no table) and
   * throws; the bet handler turns that into a bet error.
   */
  datatype EvalError = MissingMultiplier(number: nat, symbol: int, count: nat)

  /** Every payline's marked cells lie inside the grid. */
  predicate PaylinesFit(cfg: Config, grid: Grid) {
    forall i :: 0 <= i < |cfg.paylines| ==> MaskFits(cfg.paylines[i], grid)
  }

  /** The symbols of payline `i`. */
  function LineSymbols(cfg: Config, grid: Grid, i: nat): seq<int>
    requires i < |cfg.paylines| && PaylinesFit(cfg, grid)
  {
    SymbolsInLine(cfg.paylines[i], grid)
  }

  /** Payline `i` pays: its first symbol repeats at least three times in a row. */
  predicate LinePays(cfg: Config, grid: Grid, i: nat)
    requires i < |cfg.paylines| && PaylinesFit(cfg, grid)
  {
    RunCount(LineSymbols(cfg, grid, i)) >= 3
  }

  /**
   * `l` is the entry the server reports for payline `i`: numbered `i + 1`,
   * carrying the line's mask, the maximal run of its first symbol (at least 3)
   * and the rounded stake times that run's multiplier.
   */
  predicate IsLineResult(cfg: Config, betAmount: real, grid: Grid, i: nat, l: LineResult)
    requires i < |cfg.paylines| && PaylinesFit(cfg, grid)
  {
    var s := LineSymbols(cfg, grid, i);
    && l.number == i + 1
    && l.mask == cfg.paylines[i]
    && 3 <= l.count
    && IsMaximalRun(s, l.count)
    && l.symbol == s[0]
    && HasMultiplier(cfg, l.symbol, l.count)
    && l.amount == LineAmount(cfg, betAmount, l.symbol, l.count)
  }

  /** Payline `i` pays but its run has no multiplier entry. */
  predicate MissingAt(cfg: Config, grid: Grid, i: nat)
    requires i < |cfg.paylines| && PaylinesFit(cfg, grid)
  {
    var s := LineSymbols(cfg, grid, i);
    LinePays(cfg, grid, i) && !HasMultiplier(cfg, s[0], RunCount(s))
  }

  /** The server's handling of one payline. */
  function EvaluateLine(cfg: Config, betAmount: real, grid: Grid, i: nat): (r: Result<Option<LineResult>, EvalError>)
    requires i < |cfg.paylines| && PaylinesFit(cfg, grid)
    ensures r == Success(None) <==> !LinePays(cfg, grid, i)
    ensures r.Failure? <==> MissingAt(cfg, grid, i)
    ensures r.Failure? ==> r.error.number == i + 1
    ensures r.Success? && r.value.Some? ==> IsLineResult(cfg, betAmount, grid, i, r.value.value)
  {
    var s := LineSymbols(cfg, grid, i);
    var count := RunCount(s);
    if count < 3 then Success(None)
    else if HasMultiplier(cfg, s[0], count) then
      Success(Some(LineResult(i + 1, s[0], count, cfg.paylines[i], LineAmount(cfg, betAmount, s[0], count))))
    else
      Failure(MissingMultiplier(i + 1, s[0], count))
  }

  /** The server's handling of every payline, one outcome per payline. */
  function LineOutcomes(cfg: Config, betAmount: real, grid: Grid): seq<Result<Option<LineResult>, EvalError>>
    requires PaylinesFit(cfg, grid)
  {
    seq(|cfg.paylines|, (i: int) requires 0 <= i < |cfg.paylines| => EvaluateLine(cfg, betAmount, grid, i))
  }

  /** The outcome at position `i` reports the entry numbered `i + 1`. */
  predicate Numbered(outcomes: seq<Result<Option<LineResult>, EvalError>>) {
    forall i :: 0 <= i < |outcomes| && outcomes[i].Success? && outcomes[i].value.Some? ==>
      outcomes[i].value.value.number == i + 1
  }

  /**
   * The `forEach` over the paylines from position `i` on: the entries of the
   * lines that report one, in order; the first failing line stops it, as the
   * thrown error leaves the server's loop. Entries are numbered after `i`,
   * within the outcomes, in strictly increasing payline order.
   */
  function Collect(outcomes: seq<Result<Option<LineResult>, EvalError>>, i: nat): (r: Result<seq<LineResult>, EvalError>)
    requires i <= |outcomes| && Numbered(outcomes)
    ensures r.Success? ==> forall k :: 0 <= k < |r.value| ==> i < r.value[k].number <= |outcomes|
    ensures r.Success? ==> forall k, l :: 0 <= k < l < |r.value| ==> r.value[k].number < r.value[l].number
    decreases |outcomes| - i
  {
    if i == |outcomes| then Success([])
    else if outcomes[i].Failure? then Failure(outcomes[i].error)
    else
      var rest := Collect(outcomes, i + 1);
      if rest.Failure? then rest
      else if outcomes[i].value.Some? then Success([outcomes[i].value.value] + rest.value)
      else rest
  }

  /** On success, every collected entry is the outcome of its own payline. */
  lemma {:induction false} CollectEntries(outcomes: seq<Result<Option<LineResult>, EvalError>>, i: nat)
    requires i <= |outcomes| && Numbered(outcomes)
    requires Collect(outcomes, i).Success?
    ensures var lines := Collect(outcomes, i).value;
      forall k :: 0 <= k < |lines| ==> outcomes[lines[k].number - 1] == Success(Some(lines[k]))
    decreases |outcomes| - i
  {
    if i < |outcomes| {
      CollectEntries(outcomes, i + 1);
      var rest := Collect(outcomes, i + 1).value;
      var lines := Collect(outcomes, i).value;
      if outcomes[i].value.Some? {
        assert lines == [outcomes[i].value.value] + rest;
        forall k | 0 <= k < |lines|
          ensures outcomes[lines[k].number - 1] == Success(Some(lines[k]))
        {
          if k > 0 {
            assert lines[k] == rest[k - 1];
          }
        }
      } else {
        assert lines == rest;
      }
    }
  }

  /**
   * Collecting from `i` fails exactly when some outcome from `i` on is a
   * failure, and the error is that of the first one.
   */
  lemma {:induction false} CollectFailure(outcomes: seq<Result<Option<LineResult>, EvalError>>, i: nat)
    requires i <= |outcomes| && Numbered(outcomes)
    ensures Collect(outcomes, i).Failure? <==> exists j :: i <= j < |outcomes| && outcomes[j].Failure?
    ensures Collect(outcomes, i).Failure? ==>
      exists j :: i <= j < |outcomes| && outcomes[j] == Failure(Collect(outcomes, i).error)
        && forall j' :: i <= j' < j ==> outcomes[j'].Success?
    decreases |outcomes| - i
  {
    if i == |outcomes| {
    } else if outcomes[i].Failure? {
      assert Collect(outcomes, i) == Failure(outcomes[i].error);
      assert outcomes[i] == Failure(Collect(outcomes, i).error);
    } else {
      CollectFailure(outcomes, i + 1);
      var rest := Collect(outcomes, i + 1);
      assert Collect(outcomes, i).Failure? <==> rest.Failure?;
      if rest.Failure? {
        assert Collect(outcomes, i) == rest;
        var j :| i + 1 <= j < |outcomes| && outcomes[j] == Failure(rest.error)
          && forall j' :: i + 1 <= j' < j ==> outcomes[j'].Success?;
        assert forall j' :: i <= j' < j ==> outcomes[j'].Success?;
      }
    }
  }

  /** Every outcome from `i` on that reports an entry has its number among `lines`. */
  predicate Covers(lines: seq<LineResult>, outcomes: seq<Result<Option<LineResult>, EvalError>>, i: nat) {
    forall j :: i <= j < |outcomes| && outcomes[j].Success? && outcomes[j].value.Some? ==>
      exists k :: 0 <= k < |lines| && lines[k].number == j + 1
  }

  /** Putting the entry of outcome `i` in front of a cover from `i + 1` gives a cover from `i`. */
  lemma CoversCons(line: LineResult, rest: seq<LineResult>, outcomes: seq<Result<Option<LineResult>, EvalError>>, i: nat)
    requires i < |outcomes| && line.number == i + 1
    requires Covers(rest, outcomes, i + 1)
    ensures Covers([line] + rest, outcomes, i)
  {
    var lines := [line] + rest;
    forall j | i <= j < |outcomes| && outcomes[j].Success? && outcomes[j].value.Some?
      ensures exists k :: 0 <= k < |lines| && lines[k].number == j + 1
    {
      if j == i {
        assert lines[0].number == j + 1;
      } else {
        var k :| 0 <= k < |rest| && rest[k].number == j + 1;
        assert lines[k + 1] == rest[k];
      }
    }
  }

  /** On success, the entry of every outcome from `i` on that reports one is collected. */
  lemma {:induction false} CollectComplete(outcomes: seq<Result<Option<LineResult>, EvalError>>, i: nat)
    requires i <= |outcomes| && Numbered(outcomes)
    requires Collect(outcomes, i).Success?
    ensures Covers(Collect(outcomes, i).value, outcomes, i)
    decreases |outcomes| - i
  {
    if i < |outcomes| {
      CollectComplete(outcomes, i + 1);
      var rest := Collect(outcomes, i + 1).value;
      if outcomes[i].value.Some? {
        CoversCons(outcomes[i].value.value, rest, outcomes, i);
      }
    }
  }

  /** On success, a paying payline has its entry among the results. */
  lemma PayingLineReported(cfg: Config, betAmount: real, grid: Grid, lines: seq<LineResult>, i: nat)
    requires PaylinesFit(cfg, grid) && i < |cfg.paylines|
    requires Numbered(LineOutcomes(cfg, betAmount, grid))
    requires Collect(LineOutcomes(cfg, betAmount, grid), 0) == Success(lines)
    requires LinePays(cfg, grid, i)
    ensures exists k :: 0 <= k < |lines| && lines[k].number == i + 1
  {
    var outcomes := LineOutcomes(cfg, betAmount, grid);
    CollectFailure(outcomes, 0);
    CollectComplete(outcomes, 0);
    assert outcomes[i] == EvaluateLine(cfg, betAmount, grid, i);
    assert outcomes[i].Success?;
  }

  /** Every result entry comes from a paying payline. */
  lemma ReportedLinePays(cfg: Config, betAmount: real, grid: Grid, lines: seq<LineResult>, k: nat)
    requires PaylinesFit(cfg, grid)
    requires Numbered(LineOutcomes(cfg, betAmount, grid))
    requires Collect(LineOutcomes(cfg, betAmount, grid), 0) == Success(lines)
    requires k < |lines|
    ensures 1 <= lines[k].number <= |cfg.paylines|
    ensures LinePays(cfg, grid, lines[k].number - 1)
    ensures IsLineResult(cfg, betAmount, grid, lines[k].number - 1, lines[k])
  {
    var outcomes := LineOutcomes(cfg, betAmount, grid);
    var i := lines[k].number - 1;
    CollectEntries(outcomes, 0);
    assert outcomes[i] == Success(Some(lines[k]));
    assert outcomes[i] == EvaluateLine(cfg, betAmount, grid, i);
  }

  /** Evaluation fails exactly when some paying run has no multiplier entry. */
  lemma FailsIffMultiplierMissing(cfg: Config, betAmount: real, grid: Grid)
    requires PaylinesFit(cfg, grid)
    requires Numbered(LineOutcomes(cfg, betAmount, grid))
    ensures Collect(LineOutcomes(cfg, betAmount, grid), 0).Failure? <==>
      exists i :: 0 <= i < |cfg.paylines| && MissingAt(cfg, grid, i)
  {
    var outcomes := LineOutcomes(cfg, betAmount, grid);
    CollectFailure(outcomes, 0);
    if Collect(outcomes, 0).Failure? {
      var j :| 0 <= j < |outcomes| && outcomes[j].Failure?;
      assert outcomes[j] == EvaluateLine(cfg, betAmount, grid, j);
      assert MissingAt(cfg, grid, j);
    } else if exists i :: 0 <= i < |cfg.paylines| && MissingAt(cfg, grid, i) {
      var i :| 0 <= i < |cfg.paylines| && MissingAt(cfg, grid, i);
      assert outcomes[i] == EvaluateLine(cfg, betAmount, grid, i);
    }
  }

  /** Every reported outcome carries its payline's number. */
  lemma OutcomesNumbered(cfg: Config, betAmount: real, grid: Grid)
    requires PaylinesFit(cfg, grid)
    ensures Numbered(LineOutcomes(cfg, betAmount, grid))
  {
    var outcomes := LineOutcomes(cfg, betAmount, grid);
    forall i | 0 <= i < |outcomes| && outcomes[i].Success? && outcomes[i].value.Some?
      ensures outcomes[i].value.value.number == i + 1
    {
      assert outcomes[i] == EvaluateLine(cfg, betAmount, grid, i);
    }
  }

  /** On success, the paying paylines are exactly the reported ones. */
  lemma PayingIffReported(cfg: Config, betAmount: real, grid: Grid, lines: seq<LineResult>)
    requires PaylinesFit(cfg, grid)
    requires Numbered(LineOutcomes(cfg, betAmount, grid))
    requires Collect(LineOutcomes(cfg, betAmount, grid), 0) == Success(lines)
    ensures forall i :: 0 <= i < |cfg.paylines| ==>
      (LinePays(cfg, grid, i) <==> exists k :: 0 <= k < |lines| && lines[k].number == i + 1)
  {
    forall i | 0 <= i < |cfg.paylines|
      ensures LinePays(cfg, grid, i) <==> exists k :: 0 <= k < |lines| && lines[k].number == i + 1
    {
      PayingIffReportedAt(cfg, betAmount, grid, lines, i);
    }
  }

  /** `PayingIffReported` for the payline at position `i`. */
  lemma PayingIffReportedAt(cfg: Config, betAmount: real, grid: Grid, lines: seq<LineResult>, i: nat)
    requires PaylinesFit(cfg, grid) && i < |cfg.paylines|
    requires Numbered(LineOutcomes(cfg, betAmount, grid))
    requires Collect(LineOutcomes(cfg, betAmount, grid), 0) == Success(lines)
    ensures LinePays(cfg, grid, i) <==> exists k :: 0 <= k < |lines| && lines[k].number == i + 1
  {
    if LinePays(cfg, grid, i) {
      PayingLineReported(cfg, betAmount, grid, lines, i);
    }
    if exists k :: 0 <= k < |lines| && lines[k].number == i + 1 {
      var k :| 0 <= k < |lines| && lines[k].number == i + 1;
      ReportedLinePays(cfg, betAmount, grid, lines, k);
    }
  }

  /** On success, every entry is the entry of its payline. */
  lemma EntriesAreLineResults(cfg: Config, betAmount: real, grid: Grid, lines: seq<LineResult>)
    requires PaylinesFit(cfg, grid)
    requires Numbered(LineOutcomes(cfg, betAmount, grid))
    requires Collect(LineOutcomes(cfg, betAmount, grid), 0) == Success(lines)
    ensures forall k :: 0 <= k < |lines| ==>
      (1 <= lines[k].number <= |cfg.paylines| && IsLineResult(cfg, betAmount, grid, lines[k].number - 1, lines[k]))
  {
    forall k | 0 <= k < |lines|
      ensures 1 <= lines[k].number <= |cfg.paylines| && IsLineResult(cfg, betAmount, grid, lines[k].number - 1, lines[k])
    {
      ReportedLinePays(cfg, betAmount, grid, lines, k);
    }
  }

  /**
   * `processReelsPosition`: the server's `forEach` over the paylines, keeping
   * the entries of the paying ones in payline order and stopping at the first
   * paying run without a multiplier. `EvaluateSpec` characterises the result.
   */
  function Evaluate(cfg: Config, betAmount: real, grid: Grid): (r: Result<seq<LineResult>, EvalError>)
    requires PaylinesFit(cfg, grid)
    ensures r.Success? ==> forall k :: 0 <= k < |r.value| ==> 1 <= r.value[k].number <= |cfg.paylines|
    ensures r.Success? ==> forall k, l :: 0 <= k < l < |r.value| ==> r.value[k].number < r.value[l].number
  {
    OutcomesNumbered(cfg, betAmount, grid);
    Collect(LineOutcomes(cfg, betAmount, grid), 0)
  }

  /**
   * The paying lines, in payline order, at most one per payline: a payline
   * appears exactly when its run is at least 3, and its entry carries the
   * run and its rounded payout. Evaluation fails exactly when some paying run
   * has no multiplier entry.
   */
  lemma EvaluateSpec(cfg: Config, betAmount: real, grid: Grid)
    requires PaylinesFit(cfg, grid)
    ensures var r := Evaluate(cfg, betAmount, grid);
      r.Failure? <==> exists i :: 0 <= i < |cfg.paylines| && MissingAt(cfg, grid, i)
    ensures var r := Evaluate(cfg, betAmount, grid);
      r.Success? ==> forall k :: 0 <= k < |r.value| ==>
        (1 <= r.value[k].number <= |cfg.paylines| && IsLineResult(cfg, betAmount, grid, r.value[k].number - 1, r.value[k]))
    ensures var r := Evaluate(cfg, betAmount, grid);
      r.Success? ==> forall k, l :: 0 <= k < l < |r.value| ==> r.value[k].number < r.value[l].number
    ensures var r := Evaluate(cfg, betAmount, grid);
      r.Success? ==> forall i :: 0 <= i < |cfg.paylines| ==>
        (LinePays(cfg, grid, i) <==> exists k :: 0 <= k < |r.value| && r.value[k].number == i + 1)
  {
    OutcomesNumbered(cfg, betAmount, grid);
    var r := Evaluate(cfg, betAmount, grid);
    FailsIffMultiplierMissing(cfg, betAmount, grid);
    if r.Success? {
      PayingIffReported(cfg, betAmount, grid, r.value);
      EntriesAreLineResults(cfg, betAmount, grid, r.value);
    }
  }

  /** With a non-negative stake and a non-negative multiplier a run's payout is non-negative. */
  lemma LineAmountNonNegative(cfg: Config, betAmount: real, symbol: int, count: nat)
    requires HasMultiplier(cfg, symbol, count)
    requires 0.0 <= betAmount && NonNegativeMultipliers(cfg)
    ensures 0.0 <= LineAmount(cfg, betAmount, symbol, count)
  {
    var m := cfg.multipliers[symbol][count - 3];
    assert 0.0 <= m;
    Round2NonNegative(betAmount * m);
  }

  /** Outcomes that all report nothing collect to no entries. */
  lemma {:induction false} CollectAllNone(outcomes: seq<Result<Option<LineResult>, EvalError>>, i: nat)
    requires i <= |outcomes| && Numbered(outcomes)
    requires forall j :: i <= j < |outcomes| ==> outcomes[j] == Success(None)
    ensures Collect(outcomes, i) == Success([])
    decreases |outcomes| - i
  {
    if i < |outcomes| {
      CollectAllNone(outcomes, i + 1);
    }
  }

  /** A grid on which no payline pays evaluates to no entries, whatever the multipliers. */
  lemma NoPayingLineEvaluatesEmpty(cfg: Config, betAmount: real, grid: Grid)
    requires PaylinesFit(cfg, grid)
    requires forall i :: 0 <= i < |cfg.paylines| ==> !LinePays(cfg, grid, i)
    ensures Evaluate(cfg, betAmount, grid) == Success([])
  {
    OutcomesNumbered(cfg, betAmount, grid);
    var outcomes := LineOutcomes(cfg, betAmount, grid);
    forall j | 0 <= j < |outcomes|
      ensures outcomes[j] == Success(None)
    {
      assert outcomes[j] == EvaluateLine(cfg, betAmount, grid, j);
    }
    CollectAllNone(outcomes, 0);
  }

  /** A reported entry's payout is non-negative. */
  lemma EntryAmountNonNegative(cfg: Config, betAmount: real, grid: Grid, i: nat, l: LineResult)
    requires i < |cfg.paylines| && PaylinesFit(cfg, grid)
    requires 0.0 <= betAmount && NonNegativeMultipliers(cfg)
    requires IsLineResult(cfg, betAmount, grid, i, l)
    ensures 0.0 <= l.amount
  {
    LineAmountNonNegative(cfg, betAmount, l.symbol, l.count);
  }

  /** With a non-negative stake and non-negative multipliers, every payout is non-negative. */
  lemma AmountsNonNegative(cfg: Config, betAmount: real, grid: Grid, lines: seq<LineResult>)
    requires PaylinesFit(cfg, grid)
    requires 0.0 <= betAmount && NonNegativeMultipliers(cfg)
    requires Evaluate(cfg, betAmount, grid) == Success(lines)
    ensures forall k :: 0 <= k < |lines| ==> 0.0 <= lines[k].amount
  {
    OutcomesNumbered(cfg, betAmount, grid);
    forall k | 0 <= k < |lines|
      ensures 0.0 <= lines[k].amount
    {
      ReportedLinePays(cfg, betAmount, grid, lines, k);
      EntryAmountNonNegative(cfg, betAmount, grid, lines[k].number - 1, lines[k]);
    }
  }
}
