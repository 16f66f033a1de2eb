/**
 * Drawing a reel grid (`generateRandomReelsPosition`, server/index.js). The
 * random source is an input: `draws` is the sequence of values `Math.random()`
 * returns, consumed reel by reel and, within a reel, row by row.
 */
module Reels {
  import opened Games

  /** What `Math.random()` guarantees: one value in `[0, 1)` per drawn cell. */
  predicate ValidDraws(cfg: Config, draws: seq<real>) {
    && |draws| == cfg.reelsCount * RowsPerReel(cfg)
    && forall n :: 0 <= n < |draws| ==> 0.0 <= draws[n] < 1.0
  }

  /** Position in `draws` of the value used for row `j` of reel `i`. */
  function DrawIndex(cfg: Config, i: nat, j: nat): nat {
    i * RowsPerReel(cfg) + j
  }

  /**
   * Every cell of the grid reads a value inside `draws`, and no two cells
   * read the same one.
   */
  lemma DrawIndicesInRange(cfg: Config)
    ensures forall i: nat, j: nat :: i < cfg.reelsCount && j < RowsPerReel(cfg) ==>
      DrawIndex(cfg, i, j) < cfg.reelsCount * RowsPerReel(cfg)
    ensures forall i: nat, j: nat, i': nat, j': nat ::
      j < RowsPerReel(cfg) && j' < RowsPerReel(cfg) && DrawIndex(cfg, i, j) == DrawIndex(cfg, i', j') ==>
        i == i' && j == j'
  {
    var rows := RowsPerReel(cfg);
    forall i: nat, j: nat | i < cfg.reelsCount && j < rows
      ensures DrawIndex(cfg, i, j) < cfg.reelsCount * rows
    {
      assert i * rows + rows == (i + 1) * rows;
      ScaleMonotone(i + 1, cfg.reelsCount, rows);
    }
    forall i: nat, j: nat, i': nat, j': nat |
      j < rows && j' < rows && DrawIndex(cfg, i, j) == DrawIndex(cfg, i', j')
      ensures i == i' && j == j'
    {
      if i < i' {
        DrawIndexBelowNextReel(cfg, i, j, i');
      } else if i' < i {
        DrawIndexBelowNextReel(cfg, i', j', i);
      }
    }
  }

  /** A cell of reel `i` reads an earlier value than any cell of a later reel `i'`. */
  lemma DrawIndexBelowNextReel(cfg: Config, i: nat, j: nat, i': nat)
    requires j < RowsPerReel(cfg) && i < i'
    ensures forall j': nat :: DrawIndex(cfg, i, j) < DrawIndex(cfg, i', j')
  {
    var rows := RowsPerReel(cfg);
    assert i * rows + rows == (i + 1) * rows;
    ScaleMonotone(i + 1, i', rows);
  }

  lemma ScaleMonotone(a: nat, b: nat, c: nat)
    requires a <= b
    ensures a * c <= b * c
  {
    assert b * c == a * c + (b - a) * c;
  }

  /**
   * One symbol drawn from a uniform value `u` in `[0, 1)`: the symbols
   * `1..symbolsCount` split `[0, 1)` into equal buckets, and `s` is the bucket
   * `u` falls in.
   */
  function DrawSymbol(symbolsCount: nat, u: real): (s: int)
    requires 1 <= symbolsCount
    requires 0.0 <= u < 1.0
    ensures 1 <= s <= symbolsCount
    ensures (s - 1) as real <= u * symbolsCount as real < s as real
  {
    assert u * symbolsCount as real < 1.0 * symbolsCount as real;
    (u * symbolsCount as real).Floor + 1
  }

  /**
   * The grid drawn for a game: `reelsCount` reels of `reelPositions + 1`
   * symbols each, every symbol in `[1, symbolsCount]`, cell `(i, j)` drawn
   * from the `(i * (reelPositions + 1) + j)`-th random value.
   */
  function DrawGrid(cfg: Config, draws: seq<real>): (grid: Grid)
    requires 1 <= cfg.symbolsCount
    requires ValidDraws(cfg, draws)
    ensures Shaped(grid, cfg)
    ensures forall i, j :: 0 <= i < |grid| && 0 <= j < |grid[i]| ==>
      DrawIndex(cfg, i, j) < |draws| && grid[i][j] == DrawSymbol(cfg.symbolsCount, draws[DrawIndex(cfg, i, j)])
  {
    DrawIndicesInRange(cfg);
    seq(cfg.reelsCount, (i: int) requires 0 <= i < cfg.reelsCount =>
      seq(RowsPerReel(cfg), (j: int) requires 0 <= j < RowsPerReel(cfg) =>
        DrawSymbol(cfg.symbolsCount, draws[DrawIndex(cfg, i, j)])))
  }

  // ---------------------------------------------------------------------
  // The draw as written: `parseInt(Math.random() * symbolsCount) + 1`.
  // ---------------------------------------------------------------------

  function Pow10(e: nat): (p: real)
    ensures 1.0 <= p
  {
    if e == 0 then 1.0 else 10.0 * Pow10(e - 1)
  }

  lemma Pow10Seven()
    ensures Pow10(7) == 10000000.0
  {
    assert Pow10(1) == 10.0;
    assert Pow10(2) == 100.0;
    assert Pow10(3) == 1000.0;
    assert Pow10(4) == 10000.0;
    assert Pow10(5) == 100000.0;
    assert Pow10(6) == 1000000.0;
  }

  lemma DivideThenMultiply(a: real, n: real)
    requires 0.0 <= a < 1.0 && 1.0 <= n
    ensures 0.0 <= a / n < 1.0
    ensures (a / n) * n == a
  {
  }

  /** `parseInt(9e-7)` is 9. */
  lemma ParseIntBelowOneMillionth()
    ensures ParseIntOfNumber(0.0000009) == 9
  {
    Pow10Seven();
    var x := 0.0000009;
    assert x * Pow10(7) == 9.0;
    assert LeadingDigitFrom(x, 7) == 9;
  }

  /**
   * The leading decimal digit of a positive `x` below one millionth: the
   * integer part of `x * 10^e` for the first `e` (from the given one) at which
   * that product reaches 1. A positive double is at least about 4.9e-324, so
   * the scan stops by exponent 324.
   */
  function LeadingDigitFrom(x: real, e: nat): (d: int)
    requires 0.0 < x
    ensures 0 <= d
    decreases 324 - e
  {
    if e >= 324 || x * Pow10(e) >= 1.0 then (x * Pow10(e)).Floor else LeadingDigitFrom(x, e + 1)
  }

  /**
   * `parseInt(x)` applied to a number `0 <= x < 1e21`. `parseInt` first turns
   * `x` into its string form. That form is a plain decimal from one millionth
   * up, and parsing keeps its integer part. Below one millionth it is in
   * exponent notation (`5e-7`), and parsing keeps only the leading digit.
   */
  function ParseIntOfNumber(x: real): (n: int)
    requires 0.0 <= x < 1000000000000000000000.0
    ensures 0 <= n
    ensures (x == 0.0 || 0.000001 <= x) ==> n as real <= x < n as real + 1.0
  {
    if x == 0.0 || 0.000001 <= x then x.Floor else LeadingDigitFrom(x, 7)
  }

  /** One symbol as the server draws it. */
  function DrawSymbolAsWritten(symbolsCount: nat, u: real): (s: int)
    requires symbolsCount as real < 1000000000000000000000.0
    requires 0.0 <= u < 1.0
    ensures 1 <= s
  {
    ProductBelow(u, symbolsCount as real);
    ParseIntOfNumber(u * symbolsCount as real) + 1
  }

  lemma ProductBelow(u: real, n: real)
    requires 0.0 <= u < 1.0 && 0.0 <= n
    ensures 0.0 <= u * n <= n
  {
    assert (1.0 - u) * n >= 0.0;
  }

  /**
   * For every game with at most nine symbols there is a random value for which
   * the server's draw yields symbol 10, outside `[1, symbolsCount]`.
   */
  lemma DrawSymbolAsWrittenLeavesRange(symbolsCount: nat)
    requires 1 <= symbolsCount <= 9
    ensures var u := 0.0000009 / symbolsCount as real;
      && 0.0 <= u < 1.0
      && DrawSymbolAsWritten(symbolsCount, u) == 10
      && DrawSymbolAsWritten(symbolsCount, u) > symbolsCount
  {
    var n := symbolsCount as real;
    var u := 0.0000009 / n;
    DivideThenMultiply(0.0000009, n);
    DrawAtNineMillionths(symbolsCount, u);
  }

  /** A draw whose product with the symbol count is `9e-7` yields symbol 10. */
  lemma DrawAtNineMillionths(symbolsCount: nat, u: real)
    requires 1 <= symbolsCount <= 9 && 0.0 <= u < 1.0
    requires u * symbolsCount as real == 0.0000009
    ensures DrawSymbolAsWritten(symbolsCount, u) == 10
  {
    ParseIntBelowOneMillionth();
  }

  /**
   * The server's draw and `DrawSymbol` pick the same symbol whenever
   * `u * symbolsCount` is zero or at least one millionth.
   */
  lemma DrawSymbolAsWrittenAgrees(symbolsCount: nat, u: real)
    requires 1 <= symbolsCount
    requires symbolsCount as real < 1000000000000000000000.0
    requires 0.0 <= u < 1.0
    requires u == 0.0 || 0.000001 <= u * symbolsCount as real
    ensures DrawSymbolAsWritten(symbolsCount, u) == DrawSymbol(symbolsCount, u)
  {
  }
}
