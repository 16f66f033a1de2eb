/**
 * The per-game configuration the server reads from its game-data modules
 * (reel and symbol counts, payline masks, multiplier tables, default stakes),
 * and the reel grid it is applied to. The server picks a configuration by
 * switching on the game id; here the configuration is passed explicitly.
 */
module Games {

  /** A reel grid: `grid[reel][row]` is a symbol id. */
  type Grid = seq<seq<int>>

  /** A payline mask over the grid: `mask[reel][row] == 1` marks a cell of the line. */
  type Mask = seq<seq<int>>

  /**
   * A game's data. `multipliers[symbol][count - 3]` is the payout multiplier
   * of a run of `count` equal symbols.
   */
  datatype Config = Config(
    reelsCount: nat,
    reelPositions: nat,
    symbolsCount: nat,
    paylines: seq<Mask>,
    multipliers: map<int, seq<real>>,
    defaultBet: real,
    defaultCoinValue: real)

  /** Every reel of a drawn grid has one more symbol than the visible positions. */
  function RowsPerReel(cfg: Config): nat {
    cfg.reelPositions + 1
  }

  /** `grid` has the configured shape and every symbol id is in `[1, symbolsCount]`. */
  ghost predicate Shaped(grid: Grid, cfg: Config) {
    && |grid| == cfg.reelsCount
    && (forall i :: 0 <= i < |grid| ==> |grid[i]| == RowsPerReel(cfg))
    && (forall i, j :: 0 <= i < |grid| && 0 <= j < |grid[i]| ==> 1 <= grid[i][j] <= cfg.symbolsCount)
  }

  /** Every cell the mask marks lies inside the grid. */
  predicate MaskFits(mask: Mask, grid: Grid) {
    forall j, k :: 0 <= j < |mask| && 0 <= k < |mask[j]| && mask[j][k] == 1 ==>
      j < |grid| && k < |grid[j]|
  }

  /** Every cell any payline marks lies inside a grid of the configured shape. */
  predicate PaylinesFitShape(cfg: Config) {
    forall i, j, k ::
      (0 <= i < |cfg.paylines| && 0 <= j < |cfg.paylines[i]| && 0 <= k < |cfg.paylines[i][j]| && cfg.paylines[i][j][k] == 1)
      ==> j < cfg.reelsCount && k < RowsPerReel(cfg)
  }

  /** The game data the server relies on without checking it. */
  predicate ValidConfig(cfg: Config) {
    && 1 <= cfg.symbolsCount
    && PaylinesFitShape(cfg)
  }

  /** No multiplier is negative: payouts never take money away. */
  predicate NonNegativeMultipliers(cfg: Config) {
    forall s, n :: s in cfg.multipliers && 0 <= n < |cfg.multipliers[s]| ==> 0.0 <= cfg.multipliers[s][n]
  }

  /** A grid of the configured shape fits every payline of a valid configuration. */
  lemma ShapedGridFitsPaylines(cfg: Config, grid: Grid)
    requires ValidConfig(cfg)
    requires Shaped(grid, cfg)
    ensures forall i :: 0 <= i < |cfg.paylines| ==> MaskFits(cfg.paylines[i], grid)
  {
  }
}
