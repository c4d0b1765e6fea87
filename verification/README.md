# Tile atlas data model and cube neighbour sensors, in Dafny

This project models two small cores of the Sifteo Thundercracker tree.

**STIR's tile data model** (`stir/src/tile.h`). STIR reduces images to an atlas of
8x8 RGB565 tiles for the cube's flash. The model covers the following parts:

- `TilePalette` and the LUT colour mode picked by a tile's distinct-colour count (`TilePalettes`).
- `TileOptions`, `Tile::Identity` and their `==` (`Tiles`).
- The immutable flyweight `Tile`, with pixel addressing and its lazily built palette (`Tiles`).
- The registry of interned tiles (`Tiles.TileRegistry`).
- `TileStack::median` and its cache (`TileStacks`).
- The serial and index registry of `TilePool`, with the big-endian byte read-back `rawByte` (`TilePools`).
- The row-major `TileGrid` lookup (`TileGrids`). `width()` and `height()` are the getters `Width` and `Height`.

Integer widths follow the C++ (`StirTypes`). `Serial` and `numFixed` hold a 32-bit count. `Index` is 16 bits. A stack's `index` is an `unsigned` that is truncated when returned as an `Index`.

Because `Index` is 16 bits, `rawByte` computes `addr / 128` modulo 65536. "Out-of-range addresses return 0xFF" therefore holds only for addresses below 2^23. From 2^23 upward, an address reads the same byte as the address 2^23 below it (`RawByteAliases`). So a one-tile pool answers address 2^23 with its first pixel's high byte, not with 0xFF (`RawByteWrapReadsTileZero`). The atlas holds at most 4096 tiles, which is 2^19 bytes. Every real tile byte is therefore reachable below the wrap (`RawByteWithinMaxSize`).

`quality` is a `double`. The code modelled here only compares it with `==`; its use as an error budget through `getMaxMSE` is left out. It is modelled as a real number or NaN. NaN is equal to nothing, itself included. As a result, `Identity` equality is symmetric and transitive. It is reflexive exactly when the quality is not NaN. The registry can never find a tile registered under a NaN quality again, so every such request gets a fresh tile.

Some bodies live in `tile.cpp`, which is not part of this model: `Tile::constructPalette`, `TileStack::computeMedian` and the body of `Tile::instance`. Where the modelled code calls one of these, the collaborator's result is a parameter. `built` is the palette that `constructPalette` builds. `computed` is the median tile that `computeMedian` interns. `Tile::instance` is modelled from its doc comment and the `instances` map as lookup-else-insert.

**The emulator's neighbour sensors** (`emulator/src/cube_neighbors.h`, module `CubeNeighbors`). The state is a 4x4 `array2` of 32-bit contact masks. `setContact` and `clearContact` set or clear one cube's bit in place. `clearNeighborInput` and `receivedPulse` lower or raise `PIN_IN` (bit 6) of the CPU's port-1 register and request a timer edge check. `isSideReceiving` reads one bit of `inputMask`.

The CPU is a stub class `Em8051`, holding the `mSFR` register file and `needTimerEdgeCheck`. `PORT` is `REG_P1`, SFR 0x90, at offset 0x10 of the 128-entry file. `cube_cpu_reg.h` is not part of this model, and the proofs only use the fact that `PORT` is a valid index.

## Model

| member | source | states |
|---|---|---|
| `TilePalettes.ColorModeOf` | stir/src/tile.h:84-90 | the mode fits the colour count, and no mode that fits it is cheaper (1/2/4/16-entry LUT, else true colour) |
| `TilePalettes.ColorModeMonotone` | stir/src/tile.h:84-90 | more colours never select a cheaper mode |
| `TilePalettes.MaxLUTIndex` | stir/src/tile.h:92-97 | 15 for a solid colour (its opcode reaches any entry) and past LUT_MAX; otherwise the top entry of the mode's LUT; every colour index below the count is within it whenever there is a LUT |
| `TilePalettes.HasLUT` | stir/src/tile.h:99-102 | a LUT exists exactly when the colour mode is not true colour |
| `Tiles.QualityEq` | stir/src/tile.h:119-124 | double `==`: equal numbers, never NaN |
| `Tiles.NewOptions` | stir/src/tile.h:113-115 | chroma keying is on by default |
| `Tiles.NewOptionsEq` | stir/src/tile.h:113-127 | two constructed option sets are equal exactly when their quality and pinned arguments are |
| `Tiles.OptionsEq` | stir/src/tile.h:123-127 | equal exactly when all three fields are equal and the quality is not NaN |
| `Tiles.IdentityEq` | stir/src/tile.h:151-158 | equal options and all 64 pixels equal; equivalently, structurally equal with a non-NaN quality |
| `Tiles.IdentityEqSymmetric` | stir/src/tile.h:155-157 | identity equality is symmetric |
| `Tiles.IdentityEqReflexive` | stir/src/tile.h:155-157 | identity equality is reflexive exactly for non-NaN quality |
| `Tiles.IdentityEqTransitive` | stir/src/tile.h:155-157 | identity equality is transitive |
| `Tiles.Tile.constructor` | stir/src/tile.h:195 | a tile keeps the identity it was made from and starts with an unbuilt palette |
| `Tiles.Tile.Pixel` | stir/src/tile.h:163-165 | pixel i is entry i of the 64-pixel block the tile was made from; `PixelIsRowMajor` ties it to (x, y) addressing |
| `Tiles.Tile.PixelXY` | stir/src/tile.h:167-169 | pixel (x, y) of the tile is element x + 8y of the row-major block |
| `Tiles.Tile.PixelIsRowMajor` | stir/src/tile.h:163-169 | every pixel i is pixel (i mod 8, i div 8): the two addressings agree |
| `Tiles.Tile.PixelWrap` | stir/src/tile.h:171-173 | defined for all coordinates, and equal to pixel (x, y) on the tile |
| `Tiles.Tile.PixelWrapPeriodic` | stir/src/tile.h:171-173 | pixelWrap repeats with period 8 along both axes |
| `Tiles.Tile.Palette` | stir/src/tile.h:175-180 | the palette is built on the first call only; once built it is returned unchanged |
| `Tiles.TileRegistry.constructor` | stir/src/tile.h:197 | the registry starts empty |
| `Tiles.TileRegistry.Instance` | stir/src/tile.h:136-160 | a registered identity returns its tile and leaves the map alone; a new one adds exactly that entry, mapped to a fresh tile with that identity; a NaN-quality identity gets a fresh tile that no lookup can return, now or later |
| `Tiles.InstanceTwice` | stir/src/tile.h:136-138 | two requests with equal identities return the same tile |
| `TileStacks.TileStack.Median` | stir/src/tile.h:235-247 | returns the cache if set; a one-tile stack yields that very tile; otherwise the computed median; the result is cached, the stack's other fields are untouched and its median stays the same |
| `TileStacks.MedianTwice` | stir/src/tile.h:235-247 | a second median() returns the same tile as the first |
| `TilePools.TileIndexOf` | stir/src/tile.h:329 | the tile index whose 128-byte range holds the address, taken modulo 2^23 bytes because `Index` is 16 bits |
| `TilePools.PixelIndexOf` | stir/src/tile.h:330 | the pixel an address selects lies inside its tile |
| `TilePools.PixelByte` | stir/src/tile.h:332 | an even address selects the high byte of the pixel (256*b <= c < 256*(b+1)), an odd one the low byte (c and b agree modulo 256) |
| `TilePools.RawByteOf` | stir/src/tile.h:319-334 | the read-back over the pool's pixels; 0xFF whenever the 16-bit tile index is past the last tile (`RawByteIsStream` and `RawByteAliases` characterise the rest) |
| `TilePools.RawByteRoundTrip` | stir/src/tile.h:319-334 | bytes 128t+2p and 128t+2p+1, combined as hi*256+lo, give back pixel p of tile t |
| `TilePools.PixelStream` | stir/src/tile.h:321-327 | reference layout of decompressed data: each pixel as two bytes, high byte first, so a run of n pixels is 2n bytes |
| `TilePools.ImageStream` | stir/src/tile.h:321-327 | a pool's decompressed data is its tiles' pixel streams by index, 128 bytes per tile |
| `TilePools.PixelStreamAt` | stir/src/tile.h:325-332 | byte k of a pixel run is the high (k even) or low (k odd) byte of pixel k/2 |
| `TilePools.ImageStreamAt` | stir/src/tile.h:329-332 | byte a of the pool's data belongs to tile a/128, pixel (a/2) mod 64 |
| `TilePools.RawByteIsStream` | stir/src/tile.h:319-334 | below 2^23, rawByte is random access into the pool's decompressed data, and reads 0xFF at and past its end |
| `TilePools.RawByteWithinMaxSize` | stir/src/tile.h:285 | for a pool of at most MAX_SIZE tiles, rawByte reads every byte of its data and 0xFF from its end up to the wrap |
| `TilePools.RawByteAliases` | stir/src/tile.h:329 | from 2^23 on, the 16-bit tile index wraps: an address reads what the address 2^23 lower reads |
| `TilePools.RawByteWrapReadsTileZero` | stir/src/tile.h:329-333 | a one-tile pool answers address 2^23, past its last tile, with pixel data rather than 0xFF |
| `TilePools.TilePool.constructor` | stir/src/tile.h:287 | a new pool is empty with nothing fixed |
| `TilePools.TilePool.MakeFixed` | stir/src/tile.h:294-296 | numFixed becomes the tile count (as 32 bits); nothing else changes; numFixed never exceeds the tile count |
| `TilePools.TilePool.Add` | stir/src/tile.h:298-302 | appends exactly the tile and returns the previous tile count as its serial, so serials are dense and earlier ones keep their tiles |
| `TilePools.TilePool.Index` | stir/src/tile.h:304-307 | a stack index below 65536 is returned as it is; NO_INDEX reads as 0xFFFF |
| `TilePools.TilePool.Size` | stir/src/tile.h:314-317 | the number of stacks |
| `TilePools.TilePool.TileAt` | stir/src/tile.h:309-312 | the median of the stack with that index, which is then cached; only that stack's cache is written, and no stack's median changes |
| `TilePools.TilePool.RawByte` | stir/src/tile.h:319-334 | the byte equals the read-back function over the pixels of the stacks' medians, where only the median of stack ti matters; only that stack's cache is written and no median changes, as for a `const` method |
| `TilePools.ReadPixel` | stir/src/tile.h:319-334 | reading bytes 128t+2p and 128t+2p+1 with two rawByte calls and combining them as hi*256+lo gives pixel p of stack t's median |
| `TileGrids.TileGrid.constructor` | stir/src/tile.h:367 | a new grid over the pool is empty |
| `TileGrids.TileGrid.Width` | stir/src/tile.h:372-374 | a plain getter for the width in tiles; the layout facts about width and height are `CellInStorage` and `EverySlotIsACell` |
| `TileGrids.TileGrid.Height` | stir/src/tile.h:376-378 | a plain getter for the height in tiles; the layout facts about width and height are `CellInStorage` and `EverySlotIsACell` |
| `TileGrids.TileGrid.TileAt` | stir/src/tile.h:380-382 | the serial of cell (x, y) is entry x + y*width |
| `TileGrids.TileGrid.CellInStorage` | stir/src/tile.h:380-382 | every cell of a width-by-height grid has a slot |
| `TileGrids.TileGrid.CellsDistinct` | stir/src/tile.h:380-382 | distinct cells have distinct slots |
| `TileGrids.TileGrid.EverySlotIsACell` | stir/src/tile.h:380-382 | every slot is the slot of cell (p mod width, p div width) |
| `CubeNeighbors.SetBit` | emulator/src/cube_neighbors.h:83 | the cube's bit becomes set and every other bit keeps its value |
| `CubeNeighbors.ClearBit` | emulator/src/cube_neighbors.h:88 | the cube's bit becomes clear and every other bit keeps its value |
| `CubeNeighbors.SetClearIdempotent` | emulator/src/cube_neighbors.h:81-89 | setting twice is setting once; clearing twice is clearing once |
| `CubeNeighbors.SetClearInverse` | emulator/src/cube_neighbors.h:81-89 | set then clear leaves the bit clear; clearing a set bit and setting it again restores the mask |
| `CubeNeighbors.SetPinIn` | emulator/src/cube_neighbors.h:102 | PIN_IN becomes set and the port's other pins keep their values |
| `CubeNeighbors.ClearPinIn` | emulator/src/cube_neighbors.h:94 | PIN_IN becomes clear and the port's other pins keep their values |
| `CubeNeighbors.PinInLaws` | emulator/src/cube_neighbors.h:91-104 | a second pulse changes nothing; clearing after a pulse equals clearing alone; clearing a low pin changes nothing |
| `CubeNeighbors.ClearNeighborInput` | emulator/src/cube_neighbors.h:91-97 | if PIN_IN is high, only that bit of the port falls and an edge check is requested; otherwise the CPU is unchanged |
| `CubeNeighbors.ReceivedPulse` | emulator/src/cube_neighbors.h:99-104 | only PIN_IN of the port is raised, and an edge check is requested |
| `CubeNeighbors.ReceivedPulseTwice` | emulator/src/cube_neighbors.h:99-104 | two pulses leave the CPU as one does |
| `CubeNeighbors.Neighbors.Init` | emulator/src/cube_neighbors.h:75-77 | every contact mask is zero |
| `CubeNeighbors.Neighbors.SetContact` | emulator/src/cube_neighbors.h:81-84 | that mask gains the cube's bit; every other mask is unchanged |
| `CubeNeighbors.Neighbors.ClearContact` | emulator/src/cube_neighbors.h:86-89 | that mask loses the cube's bit; every other mask is unchanged |
| `CubeNeighbors.Neighbors.IsSideReceiving` | emulator/src/cube_neighbors.h:106-108 | true exactly when setting bit `side` of inputMask would not change it; sides 8 to 31 read as not receiving |

## Left out

- Tile error metrics are not modelled. These are `errorMetric`, `fineMSE`, `coarseMSE` and `sobelError`, with `constructSobel` and `constructDec4`. They are double-precision CIELab and Sobel arithmetic whose bodies are in `tile.cpp`.
- `Tile::reduce` is not modelled. It calls a foreign `ColorReducer`.
- `TilePool::optimize` and its passes are not modelled: `optimizeFixedTiles`, `optimizePalette`, `optimizeOrder`, `optimizeTiles`, `optimizeTrueColorTiles` and `optimizeTilesPass`. Neither are `closest`, `encode` and `calculateCRC`. Their bodies are in `tile.cpp`. The fields these passes fill (`stackList`, `stackArray`, `stackIndex`, and a stack's `index`) are plain state in the model.
- `TileStack`'s constructor, `add` and `replace` are not modelled, and neither is `TileGrid::load`. Their bodies are in `tile.cpp`.
- `TileStack::isPinned` and `isLossless` are not modelled, and neither are the `pinned` and `lossless` flags they read. Those flags are written only in `tile.cpp`, which is not part of this model.
- `Tile::constructPalette` and `TileStack::computeMedian` are in `tile.cpp`. Their results enter as the parameters `built` and `computed`.
- TileStacks.TileStack.Median: `computeMedian` interns its result, which inserts into the `Tile::instances` registry; that insertion is not modelled, `computed` can be any tile, and the frame names only the stack's cache.
- The contents and order of a palette's `colors` are not modelled, because `constructPalette` produces them.
- `Tile::instance(opt, rgba, stride)` is not modelled. Its RGBA to RGB565 conversion lives in `color.h`, which is not part of this model.
- `TileOptions::getMaxMSE` and `TilePalette::colorModeName` are not modelled. One is floating point and the other is a name table.
- `Tile::options()` and `TileGrid::getPool()` are not modelled. They are plain getters.
- Tiles.TileRegistry.Instance: a NaN-quality identity leaves `instances` unchanged. A lookup-else-insert on the C++ map would add an entry under such a key on every call, and no later lookup could find it; those unreachable entries are not modelled.
- Tiles.Quality: the model does not tell +0.0 from -0.0 or represent infinities. Only `==` on the value is modelled.
- Tiles.Tile.PixelXY: the model requires x + 8y < 64 and does not model the 32-bit wrap of `x + y * SIZE` that would let a huge y reach a valid index.
- TileGrids.TileGrid.TileAt: the model requires x + y*width to be below the cell count and does not model 32-bit wrap-around of that sum.
- TilePools.TilePool.RawByte: the model requires `stackArray` to list as many stacks as `stackList`, which holds once indices are assigned and is what `tile(ti)` needs for every ti below `size()`. It also requires the stack count to fit in 32 bits.
- TileGrids.TileGrid.constructor: the model assumes the grid starts empty. The constructor's body is not shown.
- Tiles.Tile.constructor: the model assumes the palette starts with zero colours, which is what the lazy check in `palette()` relies on. `TilePalette()` and the tile constructor are in `tile.cpp`.
- `Neighbors::attachCubes`, `ioTick` and `transmitPulse` are not modelled. Their bodies are not shown, and `ioTick` is what updates `inputMask` and `prevDriveHigh`.
- `receivedPulse`'s `Tracer::log` output is left out.
- The remark that only the UI thread calls `setContact` and `clearContact` is left out. Threading is not modelled.
- `Em8051` is a stub holding only the registers this code touches; its constructor allocates the register file.
- `Neighbors` has no constructor in the C++. The model's constructor allocates the 4x4 mask array and promises nothing about `inputMask`, for which the C++ sets no initial value. `init()` zeroes only the contact masks; `prevDriveHigh` and `otherCubes` are not modelled.
