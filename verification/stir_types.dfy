/*
 * Machine integer widths, RGB565 pixels and the row-major addressing
 * shared by a tile's 8x8 pixel block and a TileGrid's block matrix.
 */
module StirTypes {

  /** Unsigned integers of the widths the C++ code uses. */
  type U8 = x: int | 0 <= x < 0x100
  type U16 = x: int | 0 <= x < 0x1_0000
  type U32 = x: int | 0 <= x < 0x1_0000_0000

  const U16_MOD: int := 0x1_0000
  const U32_MOD: int := 0x1_0000_0000

  /** One 16-bit RGB565 colour value. */
  type RGB565 = U16

  /** Tile::SIZE (pixels on a side) and Tile::PIXELS (pixels in a tile). */
  const SIZE: nat := 8
  const PIXELS: nat := 64

  /** The 64 pixels of one tile, row-major. */
  type Pixels = s: seq<RGB565> | |s| == PIXELS witness seq(64, _ => 0)

  /** Position of cell (x, y) in a row-major matrix `w` cells wide. */
  function RowMajor(x: nat, y: nat, w: nat): nat
  {
    x + y * w
  }

  /** Every cell of a w-by-h matrix lands inside its w*h storage. */
  lemma RowMajorInRange(x: nat, y: nat, w: nat, h: nat)
    requires x < w && y < h
    ensures RowMajor(x, y, w) < w * h
  {
    assert y <= h - 1;
    assert y * w <= (h - 1) * w by { MulLeq(y, h - 1, w); }
    assert (h - 1) * w == h * w - w;
  }

  /** Column and row are recovered from a position: the layout is one-to-one. */
  lemma RowMajorInverse(x: nat, y: nat, w: nat)
    requires x < w
    ensures RowMajor(x, y, w) % w == x && RowMajor(x, y, w) / w == y
  {
    var p := RowMajor(x, y, w);
    var q, r := p / w, p % w;
    assert q * w + r == y * w + x;
    assert (q - y) * w == x - r;
    if q > y {
      MulLeq(1, q - y, w);
      assert false;
    } else if q < y {
      MulLeq(1, y - q, w);
      assert false;
    }
  }

  /** Every position of the storage is the position of exactly that cell. */
  lemma RowMajorOnto(p: nat, w: nat)
    requires w > 0
    ensures p % w < w && RowMajor(p % w, p / w, w) == p
  {
  }

  lemma MulLeq(a: nat, b: nat, c: nat)
    requires a <= b
    ensures a * c <= b * c
  {
  }
}
