// The world map: a wrap-around grid of `width` x `height` chunks addressed
// by world tile positions.
module Worlds {
  import opened Tiles
  import opened Matrices
  import opened Chunks
  import opened ChunkProperties
  import opened WorldCoords

  /** The chunk of the grid that holds world tile (x, y): floor division by
    * 32, then Euclidean modulo by the grid size. */
  function WorldSlot(x: int, y: int, width: nat, height: nat): (i: nat)
    requires width > 0 && height > 0
    ensures i < width * height
  {
    ChunkIndex((x / ChunkSize) % width, (y / ChunkSize) % height, width, height)
  }

  /** The tile at world position (x, y) of a layer, for the chunk contents `vs`. */
  function WorldTile(vs: seq<ChunkView>, width: nat, height: nat, x: int, y: int, layer: nat): Tile
    requires width > 0 && height > 0 && |vs| == width * height
    requires forall i :: 0 <= i < |vs| ==> WellFormed(vs[i])
  {
    ViewTile(vs[WorldSlot(x, y, width, height)], x % ChunkSize, y % ChunkSize, layer)
  }

  /** The chunk contents after writing `tile` at world position (x, y). */
  function WorldSet(vs: seq<ChunkView>, width: nat, height: nat, x: int, y: int, tile: Tile, layer: nat): (r: seq<ChunkView>)
    requires width > 0 && height > 0 && |vs| == width * height
    requires forall i :: 0 <= i < |vs| ==> WellFormed(vs[i])
    ensures |r| == |vs| && forall i :: 0 <= i < |r| ==> WellFormed(r[i])
  {
    var i := WorldSlot(x, y, width, height);
    vs[i := SetTileSpec(vs[i], x % ChunkSize, y % ChunkSize, tile, layer).0]
  }

  /** Two world positions name the same cell exactly when they agree modulo
    * the size of the world in tiles. */
  predicate SameCell(x: int, y: int, x2: int, y2: int, width: nat, height: nat)
    requires width > 0 && height > 0
  {
    x % (ChunkSize * width) == x2 % (ChunkSize * width) && y % (ChunkSize * height) == y2 % (ChunkSize * height)
  }

  /** Splitting x mod (32 * size) into the chunk and the tile inside it. */
  lemma SplitMod(x: int, size: nat)
    requires size > 0
    ensures x % (ChunkSize * size) == ((x / ChunkSize) % size) * ChunkSize + x % ChunkSize
  {
    var c, t := x / ChunkSize, x % ChunkSize;
    var q, r := c / size, c % size;
    assert x == ChunkSize * c + t;
    assert c == size * q + r;
    assert x == (ChunkSize * size) * q + (r * ChunkSize + t) by {
      assert ChunkSize * c == ChunkSize * (size * q) + ChunkSize * r;
      assert ChunkSize * (size * q) == (ChunkSize * size) * q;
    }
    assert r * ChunkSize + t < ChunkSize * size by {
      MulLeftMono(ChunkSize, r + 1, size);
    }
    DivModUnique(x, ChunkSize * size, q, r * ChunkSize + t);
  }

  /** Same cell means same chunk of the grid and same position in it. */
  lemma SameCellIffSameSlot(x: int, y: int, x2: int, y2: int, width: nat, height: nat)
    requires width > 0 && height > 0
    ensures SameCell(x, y, x2, y2, width, height) <==>
      (WorldSlot(x, y, width, height) == WorldSlot(x2, y2, width, height)
       && x % ChunkSize == x2 % ChunkSize && y % ChunkSize == y2 % ChunkSize)
  {
    SplitMod(x, width);
    SplitMod(x2, width);
    SplitMod(y, height);
    SplitMod(y2, height);
    var a, b := (x / ChunkSize) % width, (y / ChunkSize) % height;
    var a2, b2 := (x2 / ChunkSize) % width, (y2 / ChunkSize) % height;
    if Slot(a, b, width) == Slot(a2, b2, width) {
      SlotInjective(a, b, a2, b2, width);
    }
    if a * ChunkSize + x % ChunkSize == a2 * ChunkSize + x2 % ChunkSize {
      DivModUnique(a * ChunkSize + x % ChunkSize, ChunkSize, a, x % ChunkSize);
      DivModUnique(a2 * ChunkSize + x2 % ChunkSize, ChunkSize, a2, x2 % ChunkSize);
    }
    if b * ChunkSize + y % ChunkSize == b2 * ChunkSize + y2 % ChunkSize {
      DivModUnique(b * ChunkSize + y % ChunkSize, ChunkSize, b, y % ChunkSize);
      DivModUnique(b2 * ChunkSize + y2 % ChunkSize, ChunkSize, b2, y2 % ChunkSize);
    }
  }

  /** The world wraps around: positions a whole world apart read the same. */
  lemma WorldTilePeriodic(vs: seq<ChunkView>, width: nat, height: nat, x: int, y: int, kx: int, ky: int, layer: nat)
    requires width > 0 && height > 0 && |vs| == width * height
    requires forall i :: 0 <= i < |vs| ==> WellFormed(vs[i])
    ensures WorldTile(vs, width, height, x + kx * (ChunkSize * width), y + ky * (ChunkSize * height), layer)
         == WorldTile(vs, width, height, x, y, layer)
  {
    var x2, y2 := x + kx * (ChunkSize * width), y + ky * (ChunkSize * height);
    DivModUnique(x2, ChunkSize * width, x / (ChunkSize * width) + kx, x % (ChunkSize * width));
    DivModUnique(y2, ChunkSize * height, y / (ChunkSize * height) + ky, y % (ChunkSize * height));
    SameCellIffSameSlot(x, y, x2, y2, width, height);
  }

  /** A write at (x, y) followed by a read at any position naming the same
    * cell gives the tile back, whenever the layer exists after the write. */
  lemma WorldSetThenGet(vs: seq<ChunkView>, width: nat, height: nat, x: int, y: int, tile: Tile, layer: nat, x2: int, y2: int)
    requires width > 0 && height > 0 && |vs| == width * height
    requires forall i :: 0 <= i < |vs| ==> WellFormed(vs[i])
    requires SameCell(x, y, x2, y2, width, height)
    ensures var r := WorldSet(vs, width, height, x, y, tile, layer);
      layer < |r[WorldSlot(x2, y2, width, height)].layers| ==> WorldTile(r, width, height, x2, y2, layer) == tile
  {
    SameCellIffSameSlot(x, y, x2, y2, width, height);
    var i := WorldSlot(x, y, width, height);
    SetThenGet(vs[i], x % ChunkSize, y % ChunkSize, tile, layer);
  }

  /** A write leaves every other cell of the world as it was, on every layer
    * that still exists. */
  lemma WorldSetKeepsOthers(vs: seq<ChunkView>, width: nat, height: nat, x: int, y: int, tile: Tile, layer: nat,
                            x2: int, y2: int, layer2: nat)
    requires width > 0 && height > 0 && |vs| == width * height
    requires forall i :: 0 <= i < |vs| ==> WellFormed(vs[i])
    requires !SameCell(x, y, x2, y2, width, height) || layer2 != layer
    ensures var r := WorldSet(vs, width, height, x, y, tile, layer);
      layer2 < |r[WorldSlot(x2, y2, width, height)].layers| ==>
        WorldTile(r, width, height, x2, y2, layer2) == WorldTile(vs, width, height, x2, y2, layer2)
  {
    SameCellIffSameSlot(x, y, x2, y2, width, height);
    var i := WorldSlot(x, y, width, height);
    if WorldSlot(x2, y2, width, height) == i {
      SetKeepsOtherCells(vs[i], x % ChunkSize, y % ChunkSize, tile, layer, x2 % ChunkSize, y2 % ChunkSize, layer2);
    }
  }

  /** The world chunk (on one axis) of the tile at offset c from origin. */
  function ChunkOfOffset(origin: int, c: int): int
  {
    (origin + c) / ChunkSize
  }

  /** The clipping of `getTiles` on one axis, for the chunk starting at
    * world tile `minPos` and a read of `size` tiles from `origin`: the
    * chunk-local start `cMin`, the output start `tilesMin` and the
    * chunk-local end `cMax`. */
  function Clip(origin: int, size: int, minPos: int): (r: (int, int, int))
  {
    var (cMin, tilesMin) := if minPos < origin then (origin - minPos, 0) else (0, minPos - origin);
    var cMax := if ChunkSize as int - 1 - cMin + 1 > size - tilesMin then size + cMin - 1 - tilesMin else ChunkSize - 1;
    (cMin, tilesMin, cMax)
  }

  /** For a world chunk i the read touches, the clip stays inside the chunk
    * and the output, and the unsigned arithmetic of the source never wraps. */
  lemma AxisClip(origin: int, size: int, i: int)
    requires size > 0 && origin / ChunkSize <= i <= (origin + size - 1) / ChunkSize
    ensures var (cMin, tilesMin, cMax) := Clip(origin, size, ChunkSize * i);
      && 0 <= cMin <= cMax < ChunkSize && 0 <= tilesMin && tilesMin + (cMax - cMin) < size
      && tilesMin - cMin == ChunkSize * i - origin
  {
  }

  /** The clip selects exactly the output positions whose world tile lies
    * in chunk i. */
  lemma {:induction false} AxisClipMember(origin: int, size: int, i: int, c: int)
    requires size > 0 && origin / ChunkSize <= i <= (origin + size - 1) / ChunkSize && 0 <= c < size
    ensures var (cMin, tilesMin, cMax) := Clip(origin, size, ChunkSize * i);
      ChunkOfOffset(origin, c) == i <==> tilesMin <= c <= tilesMin + (cMax - cMin)
  {
    AxisClip(origin, size, i);
    if ChunkSize * i <= origin + c < ChunkSize * i + ChunkSize {
      DivModUnique(origin + c, ChunkSize, i, origin + c - ChunkSize * i);
    }
  }

  /** An output cell of `getTiles` lies in world chunk (i, j) exactly when
    * the clips of chunk (i, j) select it, and it is then read from the
    * grid chunk (i, j) wraps to, at the clipped position. */
  lemma PartCell(vs: seq<ChunkView>, width: nat, height: nat, x: int, y: int, w: int, h: int, i: int, j: int,
                 k: int, l: int, layer: nat)
    requires width > 0 && height > 0 && |vs| == width * height
    requires forall s :: 0 <= s < |vs| ==> WellFormed(vs[s])
    requires w > 0 && h > 0 && x / ChunkSize <= i <= (x + w - 1) / ChunkSize && y / ChunkSize <= j <= (y + h - 1) / ChunkSize
    requires 0 <= k < w && 0 <= l < h
    ensures var (cMinX, tilesMinX, cMaxX) := Clip(x, w, ChunkSize * i);
      var (cMinY, tilesMinY, cMaxY) := Clip(y, h, ChunkSize * j);
      && (ChunkOfOffset(x, k) == i && ChunkOfOffset(y, l) == j <==>
           tilesMinX <= k <= tilesMinX + (cMaxX - cMinX) && tilesMinY <= l <= tilesMinY + (cMaxY - cMinY))
      && (ChunkOfOffset(x, k) == i && ChunkOfOffset(y, l) == j ==>
           && 0 <= cMinX + k - tilesMinX < ChunkSize && 0 <= cMinY + l - tilesMinY < ChunkSize
           && ViewTile(vs[ChunkIndex(i % width, j % height, width, height)], cMinX + k - tilesMinX, cMinY + l - tilesMinY, layer)
              == WorldTile(vs, width, height, x + k, y + l, layer))
  {
    var (cMinX, tilesMinX, cMaxX) := Clip(x, w, ChunkSize * i);
    var (cMinY, tilesMinY, cMaxY) := Clip(y, h, ChunkSize * j);
    AxisClip(x, w, i);
    AxisClip(y, h, j);
    AxisClipMember(x, w, i, k);
    AxisClipMember(y, h, j, l);
    if ChunkOfOffset(x, k) == i && ChunkOfOffset(y, l) == j {
      ChunkCell(vs, width, height, i, j, cMinX + k - tilesMinX, cMinY + l - tilesMinY, layer);
    }
  }

  /** The tile at offset (a, b) of world chunk (i, j) is read from the grid
    * chunk that (i, j) wraps to, at (a, b). */
  lemma ChunkCell(vs: seq<ChunkView>, width: nat, height: nat, i: int, j: int, a: int, b: int, layer: nat)
    requires width > 0 && height > 0 && |vs| == width * height
    requires forall s :: 0 <= s < |vs| ==> WellFormed(vs[s])
    requires 0 <= a < ChunkSize && 0 <= b < ChunkSize
    ensures WorldTile(vs, width, height, ChunkSize * i + a, ChunkSize * j + b, layer)
         == ViewTile(vs[ChunkIndex(i % width, j % height, width, height)], a, b, layer)
  {
    InChunk(ChunkSize * i + a, i, a);
    InChunk(ChunkSize * j + b, j, b);
  }

  /** A tile inside world chunk i, at offset a, is found in chunk i at a. */
  lemma InChunk(p: int, i: int, a: int)
    requires 0 <= a < ChunkSize && p == ChunkSize * i + a
    ensures p / ChunkSize == i && p % ChunkSize == a
  {
    DivModUnique(p, ChunkSize, i, a);
  }

  class WorldMap {
    const width: nat
    const height: nat
    const chunks: seq<Chunk>
    ghost var Repr: set<object>

    ghost predicate Valid()
      reads this, Repr
    {
      && this in Repr
      && |chunks| == width * height
      && (forall i :: 0 <= i < |chunks| ==>
            chunks[i] in Repr && chunks[i].Repr <= Repr && this !in chunks[i].Repr && chunks[i].Valid())
      && (forall i, j :: 0 <= i < j < |chunks| ==> chunks[i].Repr !! chunks[j].Repr)
    }

    ghost function View(): (vs: seq<ChunkView>)
      reads this, Repr
      requires Valid()
      ensures |vs| == |chunks| && forall i :: 0 <= i < |vs| ==> WellFormed(vs[i])
    {
      seq(|chunks|, i reads this, Repr requires 0 <= i < |chunks| && chunks[i] in Repr && chunks[i].Repr <= Repr && chunks[i].Valid() =>
        chunks[i].View())
    }

    /** Every position conversion the source performs stays within `int`
      * and the grid has at least one chunk. */
    predicate Addressable(x: int, y: int)
    {
      && 0 < width <= IntMax && 0 < height <= IntMax
      && ConvertibleInt(x) && ConvertibleInt(y)
    }

    /** Creates the grid row by row, every chunk new. */
    constructor (chunksX: nat, chunksY: nat)
      ensures Valid() && fresh(Repr)
      ensures width == chunksX && height == chunksY
      ensures forall i :: 0 <= i < |View()| ==> View()[i] == InitialView()
    {
      var cs: seq<Chunk> := [];
      ghost var r: set<object> := {};
      var y := 0;
      while y < chunksY
        invariant y <= chunksY && |cs| == y * chunksX
        invariant fresh(r)
        invariant forall i :: 0 <= i < |cs| ==> cs[i] in r && cs[i].Repr <= r && cs[i].Valid() && cs[i].View() == InitialView()
        invariant forall i, j :: 0 <= i < j < |cs| ==> cs[i].Repr !! cs[j].Repr
      {
        var x := 0;
        while x < chunksX
          invariant x <= chunksX && |cs| == y * chunksX + x
          invariant fresh(r)
          invariant forall i :: 0 <= i < |cs| ==> cs[i] in r && cs[i].Repr <= r && cs[i].Valid() && cs[i].View() == InitialView()
          invariant forall i, j :: 0 <= i < j < |cs| ==> cs[i].Repr !! cs[j].Repr
        {
          var c := new Chunk();
          cs := cs + [c];
          r := r + c.Repr;
          x := x + 1;
        }
        y := y + 1;
      }
      width := chunksX;
      height := chunksY;
      chunks := cs;
      Repr := {this} + r;
    }

    /** `getChunk`: the chunk at world chunk position (cx, cy), wrapping
      * around the grid. */
    function GetChunk(cx: int, cy: int): (c: Chunk)
      reads this, Repr
      requires Valid() && 0 < width <= IntMax && 0 < height <= IntMax && IsInt(cx) && IsInt(cy)
      ensures c == chunks[ChunkIndex(cx % width, cy % height, width, height)]
    {
      WorldToLocalIsMod(cx, width);
      WorldToLocalIsMod(cy, height);
      chunks[ChunkIndex(WorldToLocal(cx, width), WorldToLocal(cy, height), width, height)]
    }

    /** `posToChunkPos` followed by `coordToChunkIndex`: the chunk holding
      * a world position. */
    function ChunkOf(x: int, y: int): (i: nat)
      reads this
      requires Addressable(x, y) && |chunks| == width * height
      ensures i == WorldSlot(x, y, width, height) && i < |chunks|
    {
      LocateAxis(x, width);
      LocateAxis(y, height);
      ChunkIndex(WorldToLocal(PosToWorldChunk(x), width), WorldToLocal(PosToWorldChunk(y), height), width, height)
    }

    /** `getTile`: the tile of a layer at a world position. */
    function GetTile(x: int, y: int, layer: nat): (t: Tile)
      reads this, Repr
      requires Valid() && Addressable(x, y)
      ensures t == WorldTile(View(), width, height, x, y, layer)
    {
      LocateAxis(x, width);
      LocateAxis(y, height);
      chunks[ChunkOf(x, y)].GetTile(PosToTile(x), PosToTile(y), layer)
    }

    /** Writes a cell of one chunk of the grid; the other chunks keep their
      * contents since their footprints are disjoint from it. */
    method WriteChunk(i: nat, tx: nat, ty: nat, tile: Tile, layer: nat)
      requires Valid() && i < |chunks| && tx < ChunkSize && ty < ChunkSize
      modifies Repr
      ensures Valid() && fresh(Repr - old(Repr)) && old(Repr) <= Repr
      ensures View() == old(View())[i := SetTileSpec(old(View())[i], tx, ty, tile, layer).0]
    {
      var c := chunks[i];
      ghost var before := View();
      ghost var after := SetTileSpec(before[i], tx, ty, tile, layer).0;
      var _ := c.SetTile(tx, ty, tile, layer);
      Repr := Repr + c.Repr;
      forall j | 0 <= j < |chunks| && j != i
        ensures chunks[j].Valid() && chunks[j].Repr == old(chunks[j].Repr) && chunks[j].View() == before[j]
      {
        assert old(chunks[j].Repr) !! old(c.Repr) by {
          if j < i {} else {}
        }
        ChunkFramed(chunks[j]);
      }
    }

    /** A chunk none of whose footprint changed keeps its validity and
      * contents. */
    static twostate lemma ChunkFramed(c: Chunk)
      requires old(c.Valid()) && unchanged(old(c.Repr))
      ensures c.Repr == old(c.Repr) && c.Valid() && c.View() == old(c.View())
    {
    }

    /** A world none of whose footprint changed keeps its validity and
      * contents. */
    static twostate lemma Framed(w: WorldMap)
      requires old(w.Valid()) && unchanged(old(w.Repr))
      ensures w.Repr == old(w.Repr) && w.Valid() && w.View() == old(w.View())
    {
      forall i | 0 <= i < |w.chunks|
        ensures w.chunks[i].Valid() && w.chunks[i].View() == old(w.chunks[i].View())
      {
        ChunkFramed(w.chunks[i]);
      }
    }

    /** `setTile`: writes through the chunk holding the position. */
    method SetTile(x: int, y: int, tile: Tile, layer: nat)
      requires Valid() && Addressable(x, y)
      modifies Repr
      ensures Valid() && fresh(Repr - old(Repr)) && old(Repr) <= Repr
      ensures View() == WorldSet(old(View()), width, height, x, y, tile, layer)
    {
      LocateAxis(x, width);
      LocateAxis(y, height);
      WriteChunk(ChunkOf(x, y), PosToTile(x), PosToTile(y), tile, layer);
    }

    /** The arguments `getTiles` accepts: a non-empty rectangle whose
      * corners convert without overflow. */
    predicate TilesReadable(x: int, y: int, w: int, h: int)
    {
      && 0 < width <= IntMax && 0 < height <= IntMax && w > 0 && h > 0
      && ConvertibleInt(x) && ConvertibleInt(y) && ConvertibleInt(x + w - 1) && ConvertibleInt(y + h - 1)
    }

    /** One chunk of `getTiles`: copies the part of the rectangle lying in
      * world chunk (i, j), read from `chunk` (the grid chunk (i, j) wraps
      * to, whose contents are entry `ChunkIndex(i % width, j % height)` of
      * the world contents `vs`), into the output. */
    static method CopyChunkPart(m: Matrix<Tile>, chunk: Chunk, ghost vs: seq<ChunkView>, width: nat, height: nat,
                                x: int, y: int, w: int, h: int, i: int, j: int, layer: nat)
      requires 0 < width <= IntMax && 0 < height <= IntMax && |vs| == width * height
      requires forall s :: 0 <= s < |vs| ==> WellFormed(vs[s])
      requires w > 0 && h > 0 && ConvertibleInt(x) && ConvertibleInt(y) && ConvertibleInt(x + w - 1) && ConvertibleInt(y + h - 1)
      requires x / ChunkSize <= i <= (x + w - 1) / ChunkSize && y / ChunkSize <= j <= (y + h - 1) / ChunkSize
      requires chunk.Valid() && m !in chunk.Repr && chunk.View() == vs[ChunkIndex(i % width, j % height, width, height)]
      requires m.Valid() && m.width == w && m.height == h
      modifies m
      ensures m.Valid() && m.width == w && m.height == h
      ensures forall k, l :: 0 <= k < w && 0 <= l < h ==>
        m.Get(k, l) == if ChunkOfOffset(x, k) == i && ChunkOfOffset(y, l) == j
                       then WorldTile(vs, width, height, x + k, y + l, layer) else old(m.Get(k, l))
    {
      LocateAxis(x, width);
      LocateAxis(x + w - 1, width);
      LocateAxis(y, height);
      LocateAxis(y + h - 1, height);
      TilePosToPosExact(0, i);
      TilePosToPosExact(0, j);
      var minPosX := TilePosToPos(0, ToUnsigned(i));
      var minPosY := TilePosToPos(0, ToUnsigned(j));
      var (cMinX, tilesMinX, cMaxX) := Clip(x, w, minPosX);
      var (cMinY, tilesMinY, cMaxY) := Clip(y, h, minPosY);
      AxisClip(x, w, i);
      AxisClip(y, h, j);
      assert minPosX == ChunkSize * i && minPosY == ChunkSize * j;
      CopyRect(m, chunk, cMinX, cMinY, tilesMinX, tilesMinY, cMaxX - cMinX + 1, cMaxY - cMinY + 1, layer);
      ghost var cv := chunk.View();
      assert cv == vs[ChunkIndex(i % width, j % height, width, height)];
      forall k, l | 0 <= k < w && 0 <= l < h
        ensures m.Get(k, l) == if ChunkOfOffset(x, k) == i && ChunkOfOffset(y, l) == j
                               then WorldTile(vs, width, height, x + k, y + l, layer) else old(m.Get(k, l))
      {
        PartCell(vs, width, height, x, y, w, h, i, j, k, l, layer);
        if ChunkOfOffset(x, k) == i && ChunkOfOffset(y, l) == j {
          assert m.Get(k, l) == ViewTile(cv, cMinX + k - tilesMinX, cMinY + l - tilesMinY, layer);
        } else {
          assert m.Get(k, l) == old(m.Get(k, l));
        }
      }
    }

    /** The copy loops of `getTiles` for one chunk: nx x ny cells of a chunk
      * layer starting at (cMinX, cMinY) go to the output at (tilesMinX, tilesMinY). */
    static method CopyRect(m: Matrix<Tile>, chunk: Chunk, cMinX: nat, cMinY: nat, tilesMinX: nat, tilesMinY: nat,
                           nx: nat, ny: nat, layer: nat)
      requires chunk.Valid() && m !in chunk.Repr && m.Valid()
      requires cMinX + nx <= ChunkSize && cMinY + ny <= ChunkSize
      requires tilesMinX + nx <= m.width && tilesMinY + ny <= m.height
      modifies m
      ensures m.Valid() && m.width == old(m.width) && m.height == old(m.height)
      ensures forall c, d :: 0 <= c < m.width && 0 <= d < m.height ==>
        m.Get(c, d) == if tilesMinX <= c < tilesMinX + nx && tilesMinY <= d < tilesMinY + ny
                       then ViewTile(chunk.View(), cMinX + c - tilesMinX, cMinY + d - tilesMinY, layer) else old(m.Get(c, d))
    {
      var k := 0;
      while k < nx
        invariant 0 <= k <= nx
        invariant m.Valid() && m.width == old(m.width) && m.height == old(m.height)
        invariant forall c, d :: 0 <= c < m.width && 0 <= d < m.height ==>
          m.Get(c, d) == if tilesMinX <= c < tilesMinX + k && tilesMinY <= d < tilesMinY + ny
                         then chunk.GetTile(cMinX + c - tilesMinX, cMinY + d - tilesMinY, layer) else old(m.Get(c, d))
      {
        var l := 0;
        while l < ny
          invariant 0 <= l <= ny
          invariant m.Valid() && m.width == old(m.width) && m.height == old(m.height)
          invariant forall c, d :: 0 <= c < m.width && 0 <= d < m.height ==>
            m.Get(c, d) == if (tilesMinX <= c < tilesMinX + k && tilesMinY <= d < tilesMinY + ny)
                              || (c == tilesMinX + k && tilesMinY <= d < tilesMinY + l)
                           then chunk.GetTile(cMinX + c - tilesMinX, cMinY + d - tilesMinY, layer) else old(m.Get(c, d))
        {
          m.Set(k + tilesMinX, l + tilesMinY, chunk.GetTile(cMinX + k, cMinY + l, layer));
          l := l + 1;
        }
        k := k + 1;
      }
    }

    /** `getTiles`: reads a w x h rectangle of a layer starting at world
      * position (x, y), chunk by chunk; the read may span several chunks,
      * start at negative positions and wrap around the world. */
    method GetTiles(x: int, y: int, w: int, h: int, layer: nat) returns (m: Matrix<Tile>)
      requires Valid() && TilesReadable(x, y, w, h)
      ensures fresh(m) && m.Valid() && m.width == w && m.height == h
      ensures forall k, l :: 0 <= k < w && 0 <= l < h ==> m.Get(k, l) == WorldTile(View(), width, height, x + k, y + l, layer)
    {
      LocateAxis(x, width);
      LocateAxis(x + w - 1, width);
      LocateAxis(y, height);
      LocateAxis(y + h - 1, height);
      var minChunkX, minChunkY := PosToWorldChunk(x), PosToWorldChunk(y);
      var maxChunkX, maxChunkY := PosToWorldChunk(x + w - 1), PosToWorldChunk(y + h - 1);
      ghost var vs := View();
      m := new Matrix(w, h, EmptyTile());
      var i := minChunkX;
      while i <= maxChunkX
        invariant minChunkX <= i <= maxChunkX + 1
        invariant fresh(m) && m !in Repr && m.Valid() && m.width == w && m.height == h
        invariant Valid() && View() == vs
        invariant forall k, l :: 0 <= k < w && 0 <= l < h && ChunkOfOffset(x, k) < i ==>
          m.Get(k, l) == WorldTile(vs, width, height, x + k, y + l, layer)
      {
        var j := minChunkY;
        while j <= maxChunkY
          invariant minChunkY <= j <= maxChunkY + 1
          invariant fresh(m) && m !in Repr && m.Valid() && m.width == w && m.height == h
          invariant Valid() && View() == vs
          invariant forall k, l ::
            0 <= k < w && 0 <= l < h && (ChunkOfOffset(x, k) < i || (ChunkOfOffset(x, k) == i && ChunkOfOffset(y, l) < j))
            ==> m.Get(k, l) == WorldTile(vs, width, height, x + k, y + l, layer)
        {
          var chunk := GetChunk(i, j);
          CopyChunkPart(m, chunk, vs, width, height, x, y, w, h, i, j, layer);
          j := j + 1;
        }
        i := i + 1;
      }
    }
  }
}
