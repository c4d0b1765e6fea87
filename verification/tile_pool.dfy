/*
 * TilePool: the tiles registered for one asset, by serial number, and
 * the optimized stacks they are emitted as; plus the byte-addressed
 * read-back of the decompressed tile data.
 */
module TilePools {
  import opened StirTypes
  import opened Tiles
  import opened TileStacks

  /** TilePool::MAX_SIZE, the firmware's tiles-per-asset-slot limit. */
  const MAX_SIZE: nat := 4096

  /** Bytes of decompressed data per tile: sizeof(RGB565) * Tile::PIXELS. */
  const TILE_BYTES: nat := 128

  /** The tile an address falls in, truncated to 16 bits as a `TilePool::Index` holds it. */
  function TileIndexOf(addr: U32): (ti: U16)
    ensures ti * TILE_BYTES <= addr % (U16_MOD * TILE_BYTES) < (ti + 1) * TILE_BYTES
  {
    (addr / TILE_BYTES) % U16_MOD
  }

  /** The pixel an address falls in, within its tile. */
  function PixelIndexOf(addr: U32): (p: nat)
    ensures p < PIXELS
  {
    (addr / 2) % PIXELS
  }

  /**
   * The byte of pixel value `c` that `addr` selects. `TilePool::rawByte`
   * shifts right by 8 for an even address and by 0 for an odd one, then keeps
   * the low 8 bits: the pixel is stored big-endian.
   */
  function PixelByte(c: RGB565, addr: nat): (b: U8)
    ensures addr % 2 == 0 ==> 256 * b <= c < 256 * (b + 1)
    ensures addr % 2 == 1 ==> (c - b) % 256 == 0
  {
    if addr % 2 == 0 then c / 256 else c % 256
  }

  /**
   * TilePool::rawByte over `image`, the pixels of the pool's tiles by
   * index: the addressed byte, or 0xFF past the last tile.
   */
  function RawByteOf(image: seq<Pixels>, addr: U32): (b: U8)
    ensures TileIndexOf(addr) >= |image| ==> b == 0xFF
  {
    var ti := TileIndexOf(addr);
    if ti < |image| then PixelByte(image[ti][PixelIndexOf(addr)], addr) else 0xFF
  }

  /** Bytes 2k and 2k+1 of a tile's range put back together give its pixel k. */
  lemma RawByteRoundTrip(image: seq<Pixels>, t: nat, p: nat)
    requires t < |image| && t < U16_MOD && p < PIXELS
    ensures 256 * RawByteOf(image, TILE_BYTES * t + 2 * p) + RawByteOf(image, TILE_BYTES * t + 2 * p + 1)
            == image[t][p]
  {
    PixelAddresses(t, p);
  }

  /** Bytes 128t+2p and 128t+2p+1 both select tile t, pixel p. */
  lemma PixelAddresses(t: nat, p: nat)
    requires t < U16_MOD && p < PIXELS
    ensures TileIndexOf(TILE_BYTES * t + 2 * p) == t && TileIndexOf(TILE_BYTES * t + 2 * p + 1) == t
    ensures PixelIndexOf(TILE_BYTES * t + 2 * p) == p && PixelIndexOf(TILE_BYTES * t + 2 * p + 1) == p
  {
    var hi, lo := TILE_BYTES * t + 2 * p, TILE_BYTES * t + 2 * p + 1;
    RowMajorInverse(2 * p, t, TILE_BYTES);
    RowMajorInverse(2 * p + 1, t, TILE_BYTES);
    RowMajorInverse(0, p + 64 * t, 2);
    RowMajorInverse(1, p + 64 * t, 2);
    RowMajorInverse(p, t, PIXELS);
    assert hi / 2 == p + 64 * t && lo / 2 == p + 64 * t;
  }

  /** A pixel as the flash stores it: high byte first. */
  function PixelBytes(c: RGB565): seq<U8>
  {
    [c / 256, c % 256]
  }

  /** The decompressed bytes of a run of pixels, in order. */
  function PixelStream(px: seq<RGB565>): (bs: seq<U8>)
    ensures |bs| == 2 * |px|
  {
    if px == [] then [] else PixelBytes(px[0]) + PixelStream(px[1..])
  }

  /** The decompressed data of a pool: each tile's 64 pixels, tile after tile by index. */
  function ImageStream(image: seq<Pixels>): (bs: seq<U8>)
    ensures |bs| == TILE_BYTES * |image|
  {
    if image == [] then [] else PixelStream(image[0]) + ImageStream(image[1..])
  }

  /** Byte k of a pixel run is the high or low byte of pixel k / 2. */
  lemma {:induction false} PixelStreamAt(px: seq<RGB565>, k: nat)
    requires k < 2 * |px|
    ensures PixelStream(px)[k] == PixelByte(px[k / 2], k)
  {
    if k >= 2 {
      PixelStreamAt(px[1..], k - 2);
      ShiftDivMod(k - 2, 1, 2);
    }
  }

  /** Byte a of a pool's data belongs to tile a / 128, pixel (a / 2) mod 64. */
  lemma {:induction false} ImageStreamAt(image: seq<Pixels>, a: nat)
    requires a < TILE_BYTES * |image|
    ensures ImageStream(image)[a] == PixelByte(image[a / TILE_BYTES][(a / 2) % PIXELS], a)
  {
    if a < TILE_BYTES {
      PixelStreamAt(image[0], a);
    } else {
      var b := a - TILE_BYTES;
      ImageStreamTail(image, a);
      ImageStreamAt(image[1..], b);
      NextTile(b);
    }
  }

  /** Past the first tile, a pool's data continues with the data of the remaining tiles. */
  lemma ImageStreamTail(image: seq<Pixels>, a: nat)
    requires TILE_BYTES <= a < TILE_BYTES * |image|
    ensures ImageStream(image)[a] == ImageStream(image[1..])[a - TILE_BYTES]
  {
    var head, rest := PixelStream(image[0]), ImageStream(image[1..]);
    assert |head| == TILE_BYTES;
    ImageStreamUnfold(image);
    ConcatAt(head, rest, a);
  }

  lemma ImageStreamUnfold(image: seq<Pixels>)
    requires image != []
    ensures ImageStream(image) == PixelStream(image[0]) + ImageStream(image[1..])
  {
  }

  /** Indexing past the first part of a concatenation indexes the second part. */
  lemma ConcatAt<T>(x: seq<T>, y: seq<T>, a: nat)
    requires |x| <= a < |x| + |y|
    ensures (x + y)[a] == y[a - |x|]
  {
  }

  /** One tile further on, an address selects the next tile and the same pixel. */
  lemma NextTile(b: nat)
    ensures (b + TILE_BYTES) / TILE_BYTES == b / TILE_BYTES + 1
    ensures ((b + TILE_BYTES) / 2) % PIXELS == (b / 2) % PIXELS
    ensures (b + TILE_BYTES) % 2 == b % 2
  {
    ShiftDivMod(b, 1, TILE_BYTES);
    ShiftDivMod(b, PIXELS, 2);
    ShiftDivMod(b / 2, 1, PIXELS);
  }

  /**
   * Below 2^23, rawByte reads the pool's decompressed data at `addr`, and
   * 0xFF past its end.
   */
  lemma RawByteIsStream(image: seq<Pixels>, addr: U32)
    requires addr < U16_MOD * TILE_BYTES
    ensures addr < |ImageStream(image)| ==> RawByteOf(image, addr) == ImageStream(image)[addr]
    ensures addr >= |ImageStream(image)| ==> RawByteOf(image, addr) == 0xFF
  {
    TileIndexBelowWrap(addr);
    if addr < |ImageStream(image)| {
      ImageStreamAt(image, addr);
    } else {
      PastLastTile(addr, |image|);
    }
  }

  /** Below 2^23 the 16-bit tile index does not wrap. */
  lemma TileIndexBelowWrap(addr: U32)
    requires addr < U16_MOD * TILE_BYTES
    ensures TileIndexOf(addr) == addr / TILE_BYTES
  {
  }

  /** An address at or past n tiles' worth of bytes lies in tile n or later. */
  lemma PastLastTile(addr: nat, n: nat)
    requires addr >= TILE_BYTES * n
    ensures addr / TILE_BYTES >= n
  {
    RowMajorOnto(addr, TILE_BYTES);
  }

  /**
   * From 2^23 on the 16-bit tile index wraps, so an address aliases the
   * one 2^23 bytes below it instead of reading as 0xFF.
   */
  lemma RawByteAliases(image: seq<Pixels>, addr: U32)
    requires addr >= U16_MOD * TILE_BYTES
    ensures RawByteOf(image, addr) == RawByteOf(image, addr - U16_MOD * TILE_BYTES)
  {
    var a := addr - U16_MOD * TILE_BYTES;
    ShiftDivMod(a, U16_MOD, TILE_BYTES);
    ShiftDivMod(a / TILE_BYTES, 1, U16_MOD);
    ShiftDivMod(a, U16_MOD * PIXELS, 2);
    ShiftDivMod(a / 2, U16_MOD, PIXELS);
  }

  /** Adding k multiples of m shifts n / m by k and leaves n % m alone. */
  lemma ShiftDivMod(n: nat, k: nat, m: nat)
    requires m > 0
    ensures (n + k * m) / m == n / m + k && (n + k * m) % m == n % m
  {
    RowMajorOnto(n, m);
    RowMajorInverse(n % m, n / m + k, m);
    assert RowMajor(n % m, n / m + k, m) == n + k * m;
  }

  /**
   * A pool within the firmware's MAX_SIZE tiles lies wholly below the
   * wrap: rawByte reads every byte of its data, and 0xFF right after it.
   */
  lemma RawByteWithinMaxSize(image: seq<Pixels>, addr: U32)
    requires |image| <= MAX_SIZE
    ensures addr < |ImageStream(image)| ==> RawByteOf(image, addr) == ImageStream(image)[addr]
    ensures |ImageStream(image)| <= addr < U16_MOD * TILE_BYTES ==> RawByteOf(image, addr) == 0xFF
  {
    if addr < U16_MOD * TILE_BYTES {
      RawByteIsStream(image, addr);
    }
  }

  /** A one-tile pool answers address 2^23, far past its last tile, with real pixel data. */
  lemma RawByteWrapReadsTileZero(px: Pixels)
    requires px[0] / 256 != 0xFF
    ensures U16_MOD * TILE_BYTES / TILE_BYTES >= |[px]|
    ensures RawByteOf([px], U16_MOD * TILE_BYTES) == px[0] / 256 != 0xFF
  {
  }

  class TilePool {
    var numFixed: U32                 // serials below this are set in stone
    var stackList: seq<TileStack>     // every stack of the optimized pool
    var stackArray: seq<TileStack>    // stack i is the one emitted at index i
    var tiles: seq<Tile>              // tile registered under each serial
    var stackIndex: seq<TileStack>    // the stack that serial s now belongs to

    ghost predicate Valid()
      reads this
    {
      numFixed <= |tiles|
    }

    /** The pixels of every stack's median, by index (see TileStack.Current). */
    ghost function Image(computed: Tile): seq<Pixels>
      reads this, stackArray
    {
      seq(|stackArray|, i reads this, stackArray requires 0 <= i < |stackArray| =>
                          stackArray[i].Current(computed).id.pixels)
    }

    /** TilePool(): an empty pool with nothing fixed. */
    constructor ()
      ensures Valid() && numFixed == 0
      ensures stackList == [] && stackArray == [] && tiles == [] && stackIndex == []
    {
      numFixed := 0;
      stackList, stackArray, tiles, stackIndex := [], [], [], [];
    }

    /** TilePool::makeFixed: every tile registered so far is set in stone. */
    method MakeFixed()
      requires Valid()
      modifies this`numFixed
      ensures Valid()
      ensures numFixed == |tiles| % U32_MOD
    {
      numFixed := |tiles| % U32_MOD;
    }

    /**
     * TilePool::add: register a tile under the next serial, the number of
     * tiles registered before it (as a 32-bit Serial).
     */
    method Add(t: Tile) returns (s: U32)
      requires Valid()
      modifies this`tiles
      ensures Valid()
      ensures tiles == old(tiles) + [t]
      ensures s == |old(tiles)| % U32_MOD
      ensures |old(tiles)| < U32_MOD ==> s == |old(tiles)| && tiles[s] == t
    {
      s := |tiles| % U32_MOD;
      tiles := tiles + [t];
    }

    /** TilePool::index: the emission index of a serial's stack, as a 16-bit Index. */
    function Index(s: U32): (r: U16)
      reads this, stackIndex
      requires s < |stackIndex|
      ensures stackIndex[s].index < U16_MOD ==> r == stackIndex[s].index
      ensures stackIndex[s].index == NO_INDEX ==> r == 0xFFFF
    {
      stackIndex[s].index % U16_MOD
    }

    /** TilePool::size: the number of optimized stacks, as an unsigned. */
    function Size(): (n: U32)
      reads this
      ensures |stackList| < U32_MOD ==> n == |stackList|
    {
      |stackList| % U32_MOD
    }

    /** TilePool::tile: the median tile of the stack with index `s`. */
    method TileAt(s: U16, computed: Tile) returns (t: Tile)
      requires s < |stackArray|
      modifies (stackArray[s] as TileStack)`cache
      ensures t == old(stackArray[s].Current(computed))
      ensures t.id.pixels == old(Image(computed))[s]
      ensures stackArray[s].cache == t
      ensures Image(computed) == old(Image(computed))
    {
      t := stackArray[s].Median(computed);
    }

    /**
     * TilePool::rawByte: one byte of decompressed tile data by address,
     * big-endian within each pixel; 0xFF when the (16-bit) tile index is
     * past the last stack. Only meaningful once the stacks are indexed,
     * when stackArray lists every stack of stackList.
     */
    method RawByte(addr: U32, computed: Tile) returns (b: U8)
      requires |stackArray| == |stackList| < U32_MOD
      modifies (if TileIndexOf(addr) < |stackArray| then {stackArray[TileIndexOf(addr)]} else {})`cache
      ensures b == RawByteOf(old(Image(computed)), addr)
      ensures Image(computed) == old(Image(computed))
    {
      var ti := TileIndexOf(addr);
      var pi := PixelIndexOf(addr);
      if ti < Size() {
        var t := TileAt(ti, computed);
        b := PixelByte(t.Pixel(pi), addr);
      } else {
        b := 0xFF;
      }
    }
  }

  /**
   * Reading pixel p of the stack with index t back through rawByte, high
   * byte then low byte, gives the pixel of that stack's median: the first
   * read leaves the median in place for the second.
   */
  method ReadPixel(pool: TilePool, t: U16, p: nat, computed: Tile) returns (c: nat)
    requires |pool.stackArray| == |pool.stackList| < U32_MOD
    requires t < |pool.stackArray| && p < PIXELS
    modifies (pool.stackArray[t] as TileStack)`cache
    ensures c == old(pool.Image(computed))[t][p]
    ensures pool.Image(computed) == old(pool.Image(computed))
  {
    var hi, lo := TILE_BYTES * t + 2 * p, TILE_BYTES * t + 2 * p + 1;
    RawByteRoundTrip(old(pool.Image(computed)), t, p);
    PixelAddresses(t, p);
    var h := pool.RawByte(hi, computed);
    var l := pool.RawByte(lo, computed);
    c := 256 * (h as nat) + l as nat;
  }
}
