/*
 * TileStack: a cluster of similar tiles, represented by one median tile
 * that is computed on demand and cached.
 */
module TileStacks {
  import opened StirTypes
  import opened Tiles

  /** TileStack::NO_INDEX, the index of a stack that has not been ordered yet. */
  const NO_INDEX: U32 := 0xFFFF_FFFF

  class TileStack {
    var tiles: seq<Tile>    // members, shared with the pool
    var cache: Tile?        // the median, once known
    var index: U32          // emission index, NO_INDEX until ordered

    /**
     * The tile that median() yields when the general-case computation
     * would produce `computed`.
     */
    ghost function Current(computed: Tile): Tile
      reads this
    {
      if cache != null then cache else if |tiles| == 1 then tiles[0] else computed
    }

    /**
     * TileStack::median. A cached median is returned as it is; a stack of
     * one tile is represented by that very tile, never a copy; otherwise
     * the median is computed. `computed` stands for the tile that
     * TileStack::computeMedian (in tile.cpp) would intern.
     */
    method Median(computed: Tile) returns (m: Tile)
      modifies this`cache
      ensures cache == m
      ensures old(cache) != null ==> m == old(cache)
      ensures old(cache) == null && |tiles| == 1 ==> m == tiles[0]
      ensures old(cache) == null && |tiles| != 1 ==> m == computed
      ensures m == old(Current(computed))
      ensures Current(computed) == old(Current(computed))
    {
      if cache == null {
        if |tiles| == 1 {
          cache := tiles[0];
        } else {
          cache := computed;
        }
      }
      m := cache;
    }
  }

  /**
   * Once median() has run, later calls return the same tile whatever the
   * general-case computation would give, and leave the stack as it was.
   */
  method MedianTwice(st: TileStack, first: Tile, second: Tile) returns (m1: Tile, m2: Tile)
    modifies st`cache
    ensures m1 == m2 && st.cache == m1
    ensures old(st.cache) == null && |st.tiles| == 1 ==> m1 == st.tiles[0]
  {
    m1 := st.Median(first);
    m2 := st.Median(second);
  }
}
