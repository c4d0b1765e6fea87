/*
 * TileGrid: an image as a row-major matrix of tile serial numbers.
 */
module TileGrids {
  import opened StirTypes
  import opened TilePools

  class TileGrid {
    const pool: TilePool    // referenced, not owned
    var width: U32          // in tiles
    var height: U32         // in tiles
    var tiles: seq<U32>     // the serial of each cell, row-major

    /** What TileGrid::load leaves behind: one serial per cell. */
    ghost predicate Valid()
      reads this
    {
      |tiles| == width * height
    }

    /** TileGrid(pool): an empty grid over `pool`. */
    constructor (pool: TilePool)
      ensures this.pool == pool && Valid() && tiles == []
    {
      this.pool := pool;
      width, height, tiles := 0, 0, [];
    }

    /** TileGrid::width. */
    function Width(): U32
      reads this
    {
      width
    }

    /** TileGrid::height. */
    function Height(): U32
      reads this
    {
      height
    }

    /** TileGrid::tile(x, y): the serial stored at position x + y*width. */
    function TileAt(x: U32, y: U32): (s: U32)
      reads this
      requires x + y * width < |tiles|
      ensures s == tiles[RowMajor(x, y, width)]
    {
      tiles[x + y * width]
    }

    /** Every cell of the grid can be looked up. */
    lemma CellInStorage(x: U32, y: U32)
      requires Valid() && x < Width() && y < Height()
      ensures x + y * width < |tiles|
    {
      RowMajorInRange(x, y, width, height);
    }

    /** Distinct cells have distinct serial slots. */
    lemma CellsDistinct(x1: U32, y1: U32, x2: U32, y2: U32)
      requires Valid() && x1 < Width() && x2 < Width()
      requires x1 != x2 || y1 != y2
      ensures RowMajor(x1, y1, width) != RowMajor(x2, y2, width)
    {
      RowMajorInverse(x1, y1, width);
      RowMajorInverse(x2, y2, width);
    }

    /** Every serial slot belongs to the cell (p mod width, p div width). */
    lemma EverySlotIsACell(p: nat)
      requires Valid() && p < |tiles|
      ensures p % Width() < Width() && p / Width() < Height()
      ensures TileAt(p % Width(), p / Width()) == tiles[p]
    {
      assert width > 0;
      RowMajorOnto(p, width);
      if p / width >= height {
        MulLeq(height, p / width, width);
        assert false;
      }
    }
  }
}
