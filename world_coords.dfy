// Coordinate conversions of the world map: world tile positions, world
// chunk positions (unbounded, may be negative), local chunk positions on the
// wrap-around grid of chunks, and positions inside a chunk. The source works
// on 32-bit `int` with C++ truncating division and on `unsigned int`
// for the chunk-relative values; both are written out here.
module WorldCoords {
  import opened Matrices
  import opened Chunks

  const IntMin: int := -0x8000_0000
  const IntMax: int := 0x7FFF_FFFF
  const UintModulus: int := 0x1_0000_0000

  predicate IsInt(x: int) { IntMin <= x <= IntMax }

  /** C++ `/` on `int`: the quotient truncated toward zero (divisor positive). */
  function CDiv(a: int, b: int): (q: int)
    requires b > 0
  {
    if a >= 0 then a / b else -((-a) / b)
  }

  /** C++ `%` on `int`: the remainder has the sign of the dividend. */
  function CMod(a: int, b: int): (r: int)
    requires b > 0
  {
    a - b * CDiv(a, b)
  }

  /** Euclidean division is determined by its quotient and remainder. */
  lemma DivModUnique(a: int, b: int, q: int, r: int)
    requires b > 0 && a == b * q + r && 0 <= r < b
    ensures a / b == q && a % b == r
  {
    var q0, r0 := a / b, a % b;
    assert a == b * q0 + r0;
    if q0 > q {
      assert b * q0 >= b * (q + 1) by { MulLeftMono(b, q + 1, q0); }
      assert false;
    } else if q0 < q {
      assert b * q >= b * (q0 + 1) by { MulLeftMono(b, q0 + 1, q); }
      assert false;
    }
  }

  lemma MulLeftMono(b: int, m: int, n: int)
    requires b > 0 && m <= n
    ensures b * m <= b * n
  {
    assert b * n - b * m == b * (n - m);
  }

  /** The truncating remainder lies strictly between -b and b and is a
    * negative-or-zero shift of the Euclidean one for negative dividends. */
  lemma CModNegative(a: int, b: int)
    requires b > 0 && a <= 0
    ensures -b < CMod(a, b) <= 0
    ensures CMod(a, b) == (if a % b == 0 then 0 else a % b - b)
  {
    var m := -a;
    var q, r := m / b, m % b;
    assert m == b * q + r;
    assert CDiv(a, b) == -q;
    assert CMod(a, b) == -r by { assert a - b * (-q) == -(b * q + r) + b * q; }
    if r == 0 {
      DivModUnique(a, b, -q, 0);
    } else {
      DivModUnique(a, b, -q - 1, b - r);
    }
  }

  /** The source's floor idiom: shift negative values by -(32 - 1) before
    * the truncating division. The shift must not overflow. */
  function FloorShift(x: int): int
  {
    (if x < 0 then -(ChunkSize as int) + 1 else 0) + x
  }

  predicate ConvertibleInt(x: int) { IsInt(x) && IsInt(FloorShift(x)) }

  /** `posToWorldChunkPos` on one axis: the world chunk holding tile x. */
  function PosToWorldChunk(x: int): (c: int)
    requires ConvertibleInt(x)
  {
    CDiv(FloorShift(x), ChunkSize)
  }

  /** `posToTilePos` on one axis: the position of tile x inside its chunk. */
  function PosToTile(x: int): (t: int)
    requires ConvertibleInt(x)
  {
    x - CDiv(FloorShift(x), ChunkSize) * ChunkSize
  }

  /** The world chunk is floor(x / 32) for every int, negative ones too. */
  lemma PosToWorldChunkIsFloor(x: int)
    requires ConvertibleInt(x)
    ensures PosToWorldChunk(x) == x / ChunkSize
    ensures ChunkSize * PosToWorldChunk(x) <= x < ChunkSize * PosToWorldChunk(x) + ChunkSize
  {
    var q, r := x / ChunkSize, x % ChunkSize;
    if x < 0 {
      DivModUnique(ChunkSize - 1 - x, ChunkSize, -q, ChunkSize - 1 - r);
    }
  }

  /** The tile position is x - 32 * floor(x / 32), that is x mod 32, in [0, 32). */
  lemma PosToTileIsMod(x: int)
    requires ConvertibleInt(x)
    ensures PosToTile(x) == x % ChunkSize
    ensures 0 <= PosToTile(x) < ChunkSize
  {
    PosToWorldChunkIsFloor(x);
  }

  /** `worldToLocalChunkPos` on one axis for a grid of `size` chunks: the
    * truncating-remainder formula for negative positions, `%` otherwise. */
  function WorldToLocal(x: int, size: nat): (l: int)
    requires 0 < size <= IntMax && IsInt(x)
  {
    if x < 0 then size + CMod(x + 1, size) - 1 else x % size
  }

  /** The local chunk position is x mod size (Euclidean), in [0, size), for
    * negative positions too. */
  lemma WorldToLocalIsMod(x: int, size: nat)
    requires 0 < size <= IntMax && IsInt(x)
    ensures WorldToLocal(x, size) == x % size
    ensures 0 <= WorldToLocal(x, size) < size
  {
    if x < 0 {
      CModNegative(x + 1, size);
      var q, r := (x + 1) / size, (x + 1) % size;
      if r == 0 {
        DivModUnique(x, size, q - 1, size - 1);
      } else {
        DivModUnique(x, size, q, r - 1);
      }
    }
  }

  /** The grid of chunks wraps around: shifting by whole grid widths lands
    * on the same local position. */
  lemma WorldToLocalPeriodic(x: int, k: int, size: nat)
    requires 0 < size <= IntMax && IsInt(x) && IsInt(x + k * size)
    ensures WorldToLocal(x + k * size, size) == WorldToLocal(x, size)
  {
    WorldToLocalIsMod(x, size);
    WorldToLocalIsMod(x + k * size, size);
    DivModUnique(x + k * size, size, x / size + k, x % size);
  }

  /** The implicit conversion of an `int` to `unsigned int`. */
  function ToUnsigned(x: int): (u: int)
    ensures 0 <= u < UintModulus
  {
    x % UintModulus
  }

  /** The implicit conversion of an `unsigned int` to `int` (two's complement). */
  function ToSigned(u: int): (x: int)
    requires 0 <= u < UintModulus
    ensures IsInt(x)
  {
    if u > IntMax then u - UintModulus else u
  }

  /** `tilePosToPos` on one axis: tile + chunk * 32 in unsigned arithmetic,
    * returned as an `int`. */
  function TilePosToPos(tile: int, chunk: int): (p: int)
    requires 0 <= tile < UintModulus && 0 <= chunk < UintModulus
    ensures IsInt(p)
  {
    ToSigned((tile + chunk * ChunkSize) % UintModulus)
  }

  /** Unsigned wrap-around does not disturb a result that fits an `int`. */
  lemma TilePosToPosExact(tile: int, chunk: int)
    requires 0 <= tile < ChunkSize && IsInt(chunk) && IsInt(tile + chunk * ChunkSize)
    ensures TilePosToPos(tile, ToUnsigned(chunk)) == tile + chunk * ChunkSize
  {
    var p := tile + chunk * ChunkSize;
    var k := chunk / UintModulus;
    var u := ToUnsigned(chunk);
    assert chunk == UintModulus * k + u;
    var s := tile + u * ChunkSize;
    assert s == p - UintModulus * (k * ChunkSize) by {
      assert u * ChunkSize == chunk * ChunkSize - UintModulus * k * ChunkSize;
    }
    if p >= 0 {
      DivModUnique(s, UintModulus, -k * ChunkSize, p);
    } else {
      DivModUnique(s, UintModulus, -k * ChunkSize - 1, p + UintModulus);
    }
  }

  /** Round trip: the tile position and the world chunk of x give x back. */
  lemma TilePosToPosRoundTrip(x: int)
    requires ConvertibleInt(x)
    ensures TilePosToPos(PosToTile(x), ToUnsigned(PosToWorldChunk(x))) == x
  {
    PosToTileIsMod(x);
    PosToWorldChunkIsFloor(x);
    TilePosToPosExact(PosToTile(x), PosToWorldChunk(x));
  }

  /** One axis of locating a world tile: the local chunk is floor(x / 32)
    * modulo the grid size and the tile inside it is x mod 32. */
  lemma LocateAxis(x: int, size: nat)
    requires ConvertibleInt(x) && 0 < size <= IntMax
    ensures IsInt(PosToWorldChunk(x)) && PosToWorldChunk(x) == x / ChunkSize
    ensures WorldToLocal(PosToWorldChunk(x), size) == (x / ChunkSize) % size
    ensures PosToTile(x) == x % ChunkSize
  {
    PosToWorldChunkIsFloor(x);
    PosToTileIsMod(x);
    WorldToLocalIsMod(PosToWorldChunk(x), size);
  }

  /** `coordToChunkIndex`: the chunk at (x, y) is stored row-major. */
  function ChunkIndex(x: nat, y: nat, width: nat, height: nat): (i: nat)
    requires x < width && y < height
    ensures i < width * height
  {
    SlotInRange(x, y, width, height);
    Slot(x, y, width)
  }
}
