/*
 * TilePalette: the colour summary of one tile and the LUT mode its
 * distinct-colour count selects.
 */
module TilePalettes {
  import opened StirTypes

  /** TilePalette::LUT_MAX: the largest colour count that still has a LUT. */
  const LUT_MAX: nat := 16

  /**
   * TilePalette::ColorMode without its two sentinels (CM_INVALID and
   * CM_COUNT name no mode), in the enum's order: cheapest first.
   */
  datatype ColorMode = LUT1 | LUT2 | LUT4 | LUT16 | TrueColor

  /** The mode's enumerator value. */
  function Rank(m: ColorMode): nat
  {
    match m
    case LUT1 => 0
    case LUT2 => 1
    case LUT4 => 2
    case LUT16 => 3
    case TrueColor => 4
  }

  /** How many colours a LUT mode can index. */
  function Capacity(m: ColorMode): nat
  {
    match m
    case LUT1 => 1
    case LUT2 => 2
    case LUT4 => 4
    case LUT16 => 16
    case TrueColor => 0
  }

  /** A tile with `numColors` distinct colours can be stored in mode `m`. */
  predicate Fits(m: ColorMode, numColors: nat)
  {
    m == TrueColor || numColors <= Capacity(m)
  }

  /** The colors[LUT_MAX] array of a palette. */
  type Lut = s: seq<RGB565> | |s| == LUT_MAX witness seq(16, _ => 0)

  /**
   * numColors is the distinct-colour count; colors[] holds LUT_MAX
   * entries by decreasing popularity and is meaningful only when the
   * count is at most LUT_MAX. A count of zero means "not built yet".
   */
  datatype TilePalette = TilePalette(numColors: U8, colors: Lut)

  /** TilePalette::colorMode: the cheapest mode the colour count fits. */
  function ColorModeOf(numColors: U8): (m: ColorMode)
    ensures Fits(m, numColors)
    ensures forall m' :: Fits(m', numColors) ==> Rank(m) <= Rank(m')
  {
    if numColors <= 1 then LUT1
    else if numColors <= 2 then LUT2
    else if numColors <= 4 then LUT4
    else if numColors <= 16 then LUT16
    else TrueColor
  }

  /**
   * TilePalette::maxLUTIndex: the largest LUT entry the tile's encoding
   * may refer to. A solid-colour tile's opcode can reach any of the 16
   * entries; otherwise it is the top entry of the tile's LUT mode.
   */
  function MaxLUTIndex(numColors: U8): (r: nat)
    ensures numColors <= 1 ==> r == LUT_MAX - 1
    ensures 1 < numColors <= LUT_MAX ==> r == Capacity(ColorModeOf(numColors)) - 1
    ensures numColors > LUT_MAX ==> r == LUT_MAX - 1
    ensures HasLUT(numColors) ==> numColors <= r + 1  // every colour index below numColors is at most r
  {
    if numColors <= 1 then 15
    else if numColors <= 2 then 1
    else if numColors <= 4 then 3
    else 15
  }

  /** TilePalette::hasLUT: the tile has a colour LUT at all. */
  function HasLUT(numColors: U8): (r: bool)
    ensures r <==> ColorModeOf(numColors) != TrueColor
  {
    numColors <= LUT_MAX
  }

  /** More colours never select a cheaper mode. */
  lemma ColorModeMonotone(a: U8, b: U8)
    requires a <= b
    ensures Rank(ColorModeOf(a)) <= Rank(ColorModeOf(b))
  {
    assert Fits(ColorModeOf(b), a);
  }
}
