/*
 * Tile options, tile identity, the immutable flyweight Tile and the
 * registry of interned instances.
 */
module Tiles {
  import opened StirTypes
  import opened TilePalettes

  /**
   * TileOptions::quality is a double. The code modelled here only
   * compares it with `==`. As far as `==` can tell a double is a number or NaN, and
   * NaN is equal to nothing, itself included.
   */
  datatype Quality = Num(value: real) | NaN

  /** `==` on two doubles. */
  function QualityEq(a: Quality, b: Quality): (r: bool)
    ensures r <==> a == b && a.Num?
  {
    a.Num? && b.Num? && a.value == b.value
  }

  /** The knobs a tile carries into optimization: error budget, pinning, chroma keying. */
  datatype TileOptions = TileOptions(quality: Quality, pinned: bool, chromaKey: bool)

  /** TileOptions(_quality = 0, _pinned = false): chroma keying is always on. */
  function NewOptions(quality: Quality := Num(0.0), pinned: bool := false): (o: TileOptions)
    ensures o.chromaKey
  {
    TileOptions(quality, pinned, true)
  }

  /** TileOptions::operator==: field-wise on quality, pinned and chromaKey. */
  function OptionsEq(a: TileOptions, b: TileOptions): (r: bool)
    ensures r <==> a == b && a.quality.Num?
  {
    QualityEq(a.quality, b.quality) && a.pinned == b.pinned && a.chromaKey == b.chromaKey
  }

  /** Two freshly constructed option sets compare equal exactly when their arguments do. */
  lemma NewOptionsEq(q1: Quality, p1: bool, q2: Quality, p2: bool)
    ensures OptionsEq(NewOptions(q1, p1), NewOptions(q2, p2)) <==> QualityEq(q1, q2) && p1 == p2
  {
  }

  /** Tile::Identity: the key that identifies a tile, pixels plus options. */
  datatype Identity = Identity(pixels: Pixels, options: TileOptions)

  /** Identity::operator==: equal options and a byte-wise equal pixel block. */
  function IdentityEq(a: Identity, b: Identity): (r: bool)
    ensures r <==> OptionsEq(a.options, b.options) &&
                   forall i :: 0 <= i < PIXELS ==> a.pixels[i] == b.pixels[i]
    ensures r <==> a == b && a.options.quality.Num?
  {
    OptionsEq(a.options, b.options) && a.pixels == b.pixels
  }

  /** Identity equality is symmetric. */
  lemma IdentityEqSymmetric(a: Identity, b: Identity)
    ensures IdentityEq(a, b) == IdentityEq(b, a)
  {
  }

  /** Identity equality is reflexive exactly for a quality that is not NaN. */
  lemma IdentityEqReflexive(a: Identity)
    ensures IdentityEq(a, a) <==> !a.options.quality.NaN?
  {
  }

  /** Identity equality is transitive. */
  lemma IdentityEqTransitive(a: Identity, b: Identity, c: Identity)
    requires IdentityEq(a, b) && IdentityEq(b, c)
    ensures IdentityEq(a, c)
  {
  }

  /**
   * One 8x8 tile in RGB565. The identity never changes; the palette is a
   * cache filled on first use.
   */
  class Tile {
    const id: Identity
    var palette: TilePalette

    /** A new tile; its palette is not built yet (zero colours). */
    constructor (id: Identity)
      ensures this.id == id && palette.numColors == 0
    {
      this.id := id;
      palette := TilePalette(0, seq(LUT_MAX, _ => 0));
    }

    /** Tile::pixel(i). */
    function Pixel(i: nat): RGB565
      requires i < PIXELS
    {
      id.pixels[i]
    }

    /** Tile::pixel(x, y): pixel x + y*SIZE. */
    function PixelXY(x: U32, y: U32): (c: RGB565)
      requires x + y * 8 < PIXELS
      ensures c == id.pixels[RowMajor(x, y, SIZE)]
    {
      Pixel(x + y * 8)
    }

    /**
     * Tile::pixelWrap: any coordinates, folded onto the tile.
     * `Tile::pixelWrap` masks with `& 7`, which on unsigned values is `% 8`.
     */
    function PixelWrap(x: U32, y: U32): (c: RGB565)
      ensures x < SIZE && y < SIZE ==> c == PixelXY(x, y)
    {
      PixelXY(x % 8, y % 8)
    }

    /** Pixel i sits at column i mod 8 of row i div 8. */
    lemma PixelIsRowMajor(i: nat)
      requires i < PIXELS
      ensures PixelXY(i % SIZE, i / SIZE) == Pixel(i)
    {
      RowMajorOnto(i, SIZE);
    }

    /** pixelWrap repeats with period 8 in each direction. */
    lemma PixelWrapPeriodic(x: U32, y: U32)
      ensures x + SIZE < U32_MOD ==> PixelWrap(x + SIZE, y) == PixelWrap(x, y)
      ensures y + SIZE < U32_MOD ==> PixelWrap(x, y + SIZE) == PixelWrap(x, y)
    {
      ShiftByEight(x);
      ShiftByEight(y);
    }

    /**
     * Tile::palette: build the palette on the first call only. `built`
     * stands for what Tile::constructPalette (in tile.cpp) produces.
     */
    method Palette(built: TilePalette) returns (p: TilePalette)
      modifies this`palette
      ensures old(palette.numColors) != 0 ==> palette == old(palette)
      ensures old(palette.numColors) == 0 ==> palette == built
      ensures p == palette
    {
      if palette.numColors == 0 {
        palette := built;
      }
      p := palette;
    }
  }

  /** Adding a whole tile side does not change a coordinate modulo 8. */
  lemma ShiftByEight(n: nat)
    ensures (n + 8) % 8 == n % 8
  {
    RowMajorOnto(n, 8);
    RowMajorInverse(n % 8, n / 8 + 1, 8);
  }

  /**
   * Tile::instances, the map of interned tiles, as an explicit object.
   * Only identities whose quality is a number can be found again.
   */
  class TileRegistry {
    var instances: map<Identity, Tile>

    ghost predicate Valid()
      reads this
    {
      forall k | k in instances :: instances[k].id == k && k.options.quality.Num?
    }

    constructor ()
      ensures Valid() && instances == map[]
    {
      instances := map[];
    }

    /**
     * Tile::instance(id): the registered tile equal to `id`, or a new one
     * that is registered. A NaN quality never compares equal, so such a
     * request always yields a new tile that no later lookup can find.
     */
    method Instance(id: Identity) returns (t: Tile)
      requires Valid()
      modifies this
      ensures Valid()
      ensures t.id == id
      ensures id.options.quality.NaN? ==> fresh(t) && instances == old(instances)
      ensures id.options.quality.Num? && id in old(instances) ==>
                t == old(instances)[id] && instances == old(instances)
      ensures id.options.quality.Num? && id !in old(instances) ==>
                fresh(t) && instances == old(instances)[id := t]
    {
      if id.options.quality.Num? && id in instances {
        t := instances[id];
      } else {
        t := new Tile(id);
        if id.options.quality.Num? {
          instances := instances[id := t];
        }
      }
    }
  }

  /** The flyweight guarantee: two requests with equal identities share one tile. */
  method InstanceTwice(reg: TileRegistry, a: Identity, b: Identity) returns (ta: Tile, tb: Tile)
    requires reg.Valid() && IdentityEq(a, b)
    modifies reg
    ensures reg.Valid()
    ensures ta == tb && ta.id == a
    ensures a in reg.instances && reg.instances[a] == ta
  {
    ta := reg.Instance(a);
    tb := reg.Instance(b);
  }
}
