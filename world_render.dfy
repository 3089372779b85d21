// The streaming renderer of the world: which chunks are in view around the
// view centre, the chunks and layers it tracks, the render definitions per
// layer, and the 34×34 read around a chunk a layer is drawn from.

module WorldRender {
  import opened Wrappers
  import opened Sequences
  import opened Tiles
  import opened Matrices
  import opened Chunks
  import opened WorldCoords
  import opened Worlds

  // ---------------------------------------------------------------------
  // The chunks in view

  /** Chunks (i, y0), ..., (i, y1): one pass of the inner loop. */
  function ViewColumn(i: int, y0: int, y1: int): seq<(int, int)>
    decreases y1 - y0
  {
    if y1 < y0 then [] else ViewColumn(i, y0, y1 - 1) + [(i, y1)]
  }

  /** The chunks of the inclusive rectangle [x0, x1] × [y0, y1], with the
    * first coordinate as the outer loop. */
  function ViewRect(x0: int, x1: int, y0: int, y1: int): seq<(int, int)>
    decreases x1 - x0
  {
    if x1 < x0 then [] else ViewRect(x0, x1 - 1, y0, y1) + ViewColumn(x1, y0, y1)
  }

  lemma {:induction false} ViewColumnContents(i: int, y0: int, y1: int)
    ensures forall c :: c in ViewColumn(i, y0, y1) <==> c.0 == i && y0 <= c.1 <= y1
    ensures |ViewColumn(i, y0, y1)| == if y1 < y0 then 0 else y1 - y0 + 1
    ensures Distinct(ViewColumn(i, y0, y1))
    decreases y1 - y0
  {
    if y0 <= y1 {
      ViewColumnContents(i, y0, y1 - 1);
      DistinctConcat(ViewColumn(i, y0, y1 - 1), [(i, y1)]);
    }
  }

  /** The view holds every chunk of the rectangle exactly once, and no
    * other. */
  lemma {:induction false} ViewRectContents(x0: int, x1: int, y0: int, y1: int)
    ensures forall c :: c in ViewRect(x0, x1, y0, y1) <==> x0 <= c.0 <= x1 && y0 <= c.1 <= y1
    ensures |ViewRect(x0, x1, y0, y1)| == if x1 < x0 || y1 < y0 then 0 else (x1 - x0 + 1) * (y1 - y0 + 1)
    ensures Distinct(ViewRect(x0, x1, y0, y1))
    decreases x1 - x0
  {
    if x0 <= x1 {
      ViewRectContents(x0, x1 - 1, y0, y1);
      ViewColumnContents(x1, y0, y1);
      DistinctConcat(ViewRect(x0, x1 - 1, y0, y1), ViewColumn(x1, y0, y1));
      if y0 <= y1 {
        calc {
          |ViewRect(x0, x1, y0, y1)|;
          (x1 - 1 - x0 + 1) * (y1 - y0 + 1) + (y1 - y0 + 1);
          (x1 - x0 + 1) * (y1 - y0 + 1);
        }
      }
    }
  }

  /** The chunk coordinates whose tiles, with a margin of one tile, have
    * `int` positions the conversions accept. */
  predicate ChunkInRange(c: int)
  {
    -0x3FF_FFFF <= c <= 0x3FF_FFFE
  }

  /** A view centre and size whose corners convert without overflow and
    * lie in chunks in range. */
  predicate ViewInRange(x: int, y: int, v: int)
  {
    && ConvertibleInt(x - v) && ConvertibleInt(y - v) && ConvertibleInt(x + v) && ConvertibleInt(y + v)
    && ChunkInRange(PosToWorldChunk(x - v)) && ChunkInRange(PosToWorldChunk(y - v))
    && ChunkInRange(PosToWorldChunk(x + v)) && ChunkInRange(PosToWorldChunk(y + v))
  }

  /** The chunks in view around (x, y) for a view size v. */
  function ViewChunks(x: int, y: int, v: int): seq<(int, int)>
    requires ViewInRange(x, y, v)
  {
    ViewRect(PosToWorldChunk(x - v), PosToWorldChunk(x + v), PosToWorldChunk(y - v), PosToWorldChunk(y + v))
  }

  /** A view of non-negative size holds at least the chunk of its centre. */
  lemma ViewHoldsCentre(x: int, y: int, v: int)
    requires ViewInRange(x, y, v) && v >= 0 && ConvertibleInt(x) && ConvertibleInt(y)
    ensures (PosToWorldChunk(x), PosToWorldChunk(y)) in ViewChunks(x, y, v)
  {
    ChunkMono(x - v, x);
    ChunkMono(x, x + v);
    ChunkMono(y - v, y);
    ChunkMono(y, y + v);
    var x0, x1 := PosToWorldChunk(x - v), PosToWorldChunk(x + v);
    var y0, y1 := PosToWorldChunk(y - v), PosToWorldChunk(y + v);
    ViewRectContents(x0, x1, y0, y1);
  }

  /** The chunk of a tile never decreases as the tile moves right. */
  lemma ChunkMono(a: int, b: int)
    requires ConvertibleInt(a) && ConvertibleInt(b) && a <= b
    ensures PosToWorldChunk(a) <= PosToWorldChunk(b)
  {
    PosToWorldChunkIsFloor(a);
    PosToWorldChunkIsFloor(b);
    FloorMono(a, b);
  }

  lemma FloorMono(a: int, b: int)
    requires a <= b
    ensures a / ChunkSize <= b / ChunkSize
  {
  }

  /** `getViewChunks`: the chunks of the inclusive rectangle between the
    * chunks of the view's corners, with i as the outer loop. */
  method GetViewChunks(x: int, y: int, viewSize: int) returns (chunks: seq<(int, int)>)
    requires ViewInRange(x, y, viewSize)
    ensures chunks == ViewChunks(x, y, viewSize)
  {
    var x0, y0 := PosToWorldChunk(x - viewSize), PosToWorldChunk(y - viewSize);
    var x1, y1 := PosToWorldChunk(x + viewSize), PosToWorldChunk(y + viewSize);
    chunks := RectChunks(x0, x1, y0, y1);
  }

  /** The two loops of `getViewChunks` over the corner chunks' bounds. */
  method RectChunks(x0: int, x1: int, y0: int, y1: int) returns (chunks: seq<(int, int)>)
    ensures chunks == ViewRect(x0, x1, y0, y1)
  {
    chunks := [];
    var i := x0;
    while i <= x1
      invariant x0 <= i && (i <= x1 + 1 || i == x0)
      invariant chunks == ViewRect(x0, i - 1, y0, y1)
      decreases x1 - i
    {
      var j := y0;
      while j <= y1
        invariant y0 <= j && (j <= y1 + 1 || j == y0)
        invariant chunks == ViewRect(x0, i - 1, y0, y1) + ViewColumn(i, y0, j - 1)
        decreases y1 - j
      {
        chunks := chunks + [(i, j)];
        j := j + 1;
      }
      assert ViewRect(x0, i, y0, y1) == ViewRect(x0, i - 1, y0, y1) + ViewColumn(i, y0, y1);
      i := i + 1;
    }
  }

  // ---------------------------------------------------------------------
  // Render definitions per layer

  /** A tile render definition, by the material it carries. */
  datatype RenderDef = RenderDef(material: nat)

  /** The definition of a layer: null beyond the list. */
  function DefAt(defs: seq<Option<RenderDef>>, layer: nat): Option<RenderDef>
  {
    if layer < |defs| then defs[layer] else None
  }

  /** The definition `drawLayer` and `drawTile` use: the layer's, or the
    * default one when the layer has none. */
  function DefFor(defs: seq<Option<RenderDef>>, default: Option<RenderDef>, layer: nat): (d: Option<RenderDef>)
    ensures layer < |defs| && defs[layer].Some? ==> d == defs[layer]
    ensures !(layer < |defs| && defs[layer].Some?) ==> d == default
  {
    if DefAt(defs, layer).Some? then DefAt(defs, layer) else default
  }

  /** `renderTile`: the centre of the local matrix, whatever the position. */
  function RenderTile(mat: seq<Tile>, x: int, y: int): (t: Tile)
    requires |mat| == 9
    ensures t == mat[4]
  {
    mat[Slot(1, 1, 3)]
  }

  // ---------------------------------------------------------------------
  // The padded read around a chunk

  /** One axis of the padded read: padded index i stands for local position
    * i - 1, which wraps into the previous (0) or next (2) chunk beyond
    * the chunk's edges; 1 is the chunk itself. */
  function Wrapped(i: int): (r: (int, int))
  {
    if i - 1 < 0 then (ChunkSize - 1, 0)
    else if i - 1 >= ChunkSize then (0, 2)
    else (i - 1, 1)
  }

  lemma WrappedPosition(c: int, i: int)
    requires 0 <= i < ChunkSize + 2
    ensures 0 <= Wrapped(i).0 < ChunkSize && 0 <= Wrapped(i).1 < 3
    ensures ChunkSize * (c + Wrapped(i).1 - 1) + Wrapped(i).0 == ChunkSize * c + i - 1
  {
  }

  /** The world's tile at (x, y) of a layer. */
  ghost function TileAt(world: WorldMap, x: int, y: int, layer: nat): Tile
    reads world, world.Repr
    requires world.Valid() && 0 < world.width && 0 < world.height
  {
    WorldTile(world.View(), world.width, world.height, x, y, layer)
  }

  /** The chunk of the grid at world chunk (cx, cy). */
  function GridChunk(world: WorldMap, cx: int, cy: int): Chunk
    requires 0 < world.width && 0 < world.height && |world.chunks| == world.width * world.height
  {
    world.chunks[ChunkIndex(cx % world.width, cy % world.height, world.width, world.height)]
  }

  /** The 3×3 chunks around world chunk (cx, cy): entry (a, b) holds chunk
    * (cx + a - 1, cy + b - 1), as the source's 3×3 matrix of chunks. */
  method NearChunks(world: WorldMap, cx: int, cy: int) returns (chunks: map<(int, int), Chunk>)
    requires world.Valid() && 0 < world.width <= IntMax && 0 < world.height <= IntMax
    requires ChunkInRange(cx) && ChunkInRange(cy)
    ensures forall a, b :: 0 <= a < 3 && 0 <= b < 3 ==>
      (a, b) in chunks && chunks[(a, b)] == GridChunk(world, cx + a - 1, cy + b - 1)
  {
    chunks := map[];
    for i := -1 to 2
      invariant forall a, b :: 0 <= a < i + 1 && 0 <= b < 3 ==>
        (a, b) in chunks && chunks[(a, b)] == GridChunk(world, cx + a - 1, cy + b - 1)
    {
      for j := -1 to 2
        invariant forall a, b :: (0 <= a < i + 1 && 0 <= b < 3) || (a == i + 1 && 0 <= b < j + 1) ==>
          (a, b) in chunks && chunks[(a, b)] == GridChunk(world, cx + a - 1, cy + b - 1)
      {
        chunks := chunks[(i + 1, j + 1) := world.GetChunk(cx + i, cy + j)];
      }
    }
  }

  /** The padded cell (i, j) is read from the near chunk Wrapped(i), Wrapped(j)
    * selects, and that read is the world's tile one tile before the chunk's
    * origin plus (i, j). */
  lemma PaddedCell(world: WorldMap, chunks: map<(int, int), Chunk>, cx: int, cy: int, i: int, j: int, layer: nat)
    requires world.Valid() && 0 < world.width && 0 < world.height
    requires forall a, b :: 0 <= a < 3 && 0 <= b < 3 ==>
      (a, b) in chunks && chunks[(a, b)] == GridChunk(world, cx + a - 1, cy + b - 1)
    requires 0 <= i < ChunkSize + 2 && 0 <= j < ChunkSize + 2
    ensures (Wrapped(i).1, Wrapped(j).1) in chunks
    ensures var c := chunks[(Wrapped(i).1, Wrapped(j).1)];
      && c.Valid() && 0 <= Wrapped(i).0 < ChunkSize && 0 <= Wrapped(j).0 < ChunkSize
      && c.GetTile(Wrapped(i).0, Wrapped(j).0, layer) == TileAt(world, ChunkSize * cx + i - 1, ChunkSize * cy + j - 1, layer)
  {
    WrappedPosition(cx, i);
    WrappedPosition(cy, j);
    var (x, a) := Wrapped(i);
    var (y, b) := Wrapped(j);
    var w, h := world.width, world.height;
    var k := ChunkIndex((cx + a - 1) % w, (cy + b - 1) % h, w, h);
    assert chunks[(a, b)] == world.chunks[k];
    assert world.View()[k] == world.chunks[k].View();
    ChunkCell(world.View(), w, h, cx + a - 1, cy + b - 1, x, y, layer);
  }

  /** A snapshot of the world's chunks that tiles can be read from. */
  predicate GridOk(vs: seq<ChunkView>, w: nat, h: nat)
  {
    w > 0 && h > 0 && |vs| == w * h && forall s :: 0 <= s < |vs| ==> WellFormed(vs[s])
  }

  /** Cell (i, j) of the padded read around world chunk (cx, cy): the tile at
    * one tile before the chunk's origin plus (i, j). */
  function PaddedTile(vs: seq<ChunkView>, w: nat, h: nat, cx: int, cy: int, i: int, j: int, layer: nat): Tile
    requires GridOk(vs, w, h)
  {
    WorldTile(vs, w, h, ChunkSize * cx + i - 1, ChunkSize * cy + j - 1, layer)
  }

  /** The padded 34×34 read `drawLayer` builds: cell (i, j) is the world's
    * tile at (32 cx + i - 1, 32 cy + j - 1), so the border rows and columns
    * come from the eight neighbouring chunks, wrapping around the world. */
  method ReadAround(world: WorldMap, cx: int, cy: int, layer: nat) returns (tiles: Matrix<Tile>)
    requires world.Valid() && 0 < world.width <= IntMax && 0 < world.height <= IntMax
    requires ChunkInRange(cx) && ChunkInRange(cy)
    ensures fresh(tiles) && tiles.Valid() && tiles.width == ChunkSize + 2 && tiles.height == ChunkSize + 2
    ensures GridOk(world.View(), world.width, world.height)
    ensures forall i: nat, j: nat :: i < ChunkSize + 2 && j < ChunkSize + 2 ==>
      tiles.Get(i, j) == PaddedTile(world.View(), world.width, world.height, cx, cy, i, j, layer)
  {
    var chunks := NearChunks(world, cx, cy);
    ghost var vs := world.View();
    ghost var w, h := world.width, world.height;
    assert GridOk(vs, w, h);
    tiles := new Matrix(ChunkSize + 2, ChunkSize + 2, EmptyTile());
    for i := 0 to ChunkSize + 2
      invariant tiles.Valid() && tiles.width == ChunkSize + 2 && tiles.height == ChunkSize + 2
      invariant world.Valid() && world.View() == vs
      invariant forall a: nat, b: nat :: a < i && b < ChunkSize + 2 ==>
        tiles.Get(a, b) == PaddedTile(vs, w, h, cx, cy, a, b, layer)
    {
      ReadColumn(world, chunks, cx, cy, layer, tiles, i);
    }
  }

  /** The inner loop of the padded read: column i of `tiles` is filled and
    * every other column is left as it was. */
  method ReadColumn(world: WorldMap, chunks: map<(int, int), Chunk>, cx: int, cy: int, layer: nat, tiles: Matrix<Tile>, i: nat)
    requires world.Valid() && 0 < world.width && 0 < world.height
    requires forall a, b :: 0 <= a < 3 && 0 <= b < 3 ==>
      (a, b) in chunks && chunks[(a, b)] == GridChunk(world, cx + a - 1, cy + b - 1)
    requires tiles.Valid() && tiles.width == ChunkSize + 2 && tiles.height == ChunkSize + 2 && i < ChunkSize + 2
    requires tiles !in world.Repr
    modifies tiles
    ensures tiles.Valid() && tiles.width == ChunkSize + 2 && tiles.height == ChunkSize + 2
    ensures GridOk(world.View(), world.width, world.height)
    ensures forall b: nat :: b < ChunkSize + 2 ==>
      tiles.Get(i, b) == PaddedTile(world.View(), world.width, world.height, cx, cy, i, b, layer)
    ensures forall a: nat, b: nat :: a < ChunkSize + 2 && b < ChunkSize + 2 && a != i ==> tiles.Get(a, b) == old(tiles.Get(a, b))
  {
    ghost var vs := world.View();
    ghost var w, h := world.width, world.height;
    assert GridOk(vs, w, h);
    for j := 0 to ChunkSize + 2
      invariant tiles.Valid() && tiles.width == ChunkSize + 2 && tiles.height == ChunkSize + 2
      invariant world.Valid() && world.View() == vs
      invariant forall b: nat :: b < j ==> tiles.Get(i, b) == PaddedTile(vs, w, h, cx, cy, i, b, layer)
      invariant forall a: nat, b: nat :: a < ChunkSize + 2 && b < ChunkSize + 2 && a != i ==> tiles.Get(a, b) == old(tiles.Get(a, b))
    {
      var t := ReadCell(world, chunks, cx, cy, layer, i, j);
      label Before:
      tiles.Set(i, j, t);
      WorldMap.Framed(world);
      assert GridOk(vs, w, h);
      forall b: nat | b < j + 1
        ensures tiles.Get(i, b) == PaddedTile(vs, w, h, cx, cy, i, b, layer)
      {
        if b < j {
          assert tiles.Get(i, b) == old@Before(tiles.Get(i, b));
        }
      }
    }
  }

  /** One cell of the padded read: the local position and the near chunk
    * Wrapped selects, then that chunk's tile. */
  method ReadCell(world: WorldMap, chunks: map<(int, int), Chunk>, cx: int, cy: int, layer: nat, i: nat, j: nat) returns (t: Tile)
    requires world.Valid() && 0 < world.width && 0 < world.height
    requires forall a, b :: 0 <= a < 3 && 0 <= b < 3 ==>
      (a, b) in chunks && chunks[(a, b)] == GridChunk(world, cx + a - 1, cy + b - 1)
    requires i < ChunkSize + 2 && j < ChunkSize + 2
    ensures GridOk(world.View(), world.width, world.height)
    ensures t == PaddedTile(world.View(), world.width, world.height, cx, cy, i, j, layer)
  {
    var (x, cX) := Wrapped(i);
    var (y, cY) := Wrapped(j);
    PaddedCell(world, chunks, cx, cy, i, j, layer);
    t := chunks[(cX, cY)].GetTile(x, y, layer);
  }

  /** The 3×3 window of the padded read whose top-left corner is (i, j),
    * stored at Slot(a, b, 3) for cell (i + a, j + b). */
  function Window(tiles: Matrix<Tile>, i: nat, j: nat): (w: seq<Tile>)
    reads tiles
    requires tiles.Valid() && i + 2 < tiles.width && j + 2 < tiles.height
    ensures |w| == 9 && w[Slot(1, 1, 3)] == tiles.Get(i + 1, j + 1)
  {
    [tiles.Get(i, j), tiles.Get(i + 1, j), tiles.Get(i + 2, j),
     tiles.Get(i, j + 1), tiles.Get(i + 1, j + 1), tiles.Get(i + 2, j + 1),
     tiles.Get(i, j + 2), tiles.Get(i + 1, j + 2), tiles.Get(i + 2, j + 2)]
  }

  /** The drawing loop of `drawLayer`: each of the 32×32 cells of the
    * layer's map gets the centre of its padded window, directly when there
    * is no definition and through `renderTile` otherwise. */
  method DrawCells(tiles: Matrix<Tile>, def: Option<RenderDef>, x: int, y: int, cells: seq<Tile>) returns (drawn: seq<Tile>)
    requires tiles.Valid() && tiles.width == ChunkSize + 2 && tiles.height == ChunkSize + 2
    requires |cells| == CellCount
    ensures |drawn| == CellCount
    ensures forall i: nat, j: nat :: i < ChunkSize && j < ChunkSize ==> drawn[Slot(i, j, ChunkSize)] == tiles.Get(i + 1, j + 1)
  {
    drawn := cells;
    for i := 0 to ChunkSize
      invariant |drawn| == CellCount
      invariant forall a: nat, b: nat :: a < i && b < ChunkSize ==> drawn[Slot(a, b, ChunkSize)] == tiles.Get(a + 1, b + 1)
    {
      for j := 0 to ChunkSize
        invariant |drawn| == CellCount
        invariant forall a: nat, b: nat :: (a < i && b < ChunkSize) || (a == i && b < j) ==>
          drawn[Slot(a, b, ChunkSize)] == tiles.Get(a + 1, b + 1)
      {
        var t;
        if def.None? {
          t := tiles.Get(i + 1, j + 1);
        } else {
          var w := Window(tiles, i, j);
          t := RenderTile(w, x + i, y + j);
        }
        SlotInRange(i, j, ChunkSize, ChunkSize);
        drawn := drawn[Slot(i, j, ChunkSize) := t];
      }
    }
  }

  /** Every cell of a drawn layer holds the world's tile at its position in
    * world chunk (cx, cy). */
  predicate LayerDrawn(vs: seq<ChunkView>, w: nat, h: nat, cx: int, cy: int, layer: nat, cells: seq<Tile>)
    requires GridOk(vs, w, h)
  {
    && |cells| == CellCount
    && forall a: nat, b: nat :: a < ChunkSize && b < ChunkSize ==>
         cells[Slot(a, b, ChunkSize)] == WorldTile(vs, w, h, ChunkSize * cx + a, ChunkSize * cy + b, layer)
  }

  /** The padded read and the drawing loop together: whatever the
    * definition, the drawn layer shows the world's tiles of its chunk. */
  lemma {:induction false} PaddedDrawIsWorld(vs: seq<ChunkView>, w: nat, h: nat, cx: int, cy: int, layer: nat, tiles: Matrix<Tile>, drawn: seq<Tile>)
    requires GridOk(vs, w, h)
    requires tiles.Valid() && tiles.width == ChunkSize + 2 && tiles.height == ChunkSize + 2
    requires forall i: nat, j: nat :: i < ChunkSize + 2 && j < ChunkSize + 2 ==>
      tiles.Get(i, j) == PaddedTile(vs, w, h, cx, cy, i, j, layer)
    requires |drawn| == CellCount
    requires forall i: nat, j: nat :: i < ChunkSize && j < ChunkSize ==> drawn[Slot(i, j, ChunkSize)] == tiles.Get(i + 1, j + 1)
    ensures LayerDrawn(vs, w, h, cx, cy, layer, drawn)
  {
    forall a: nat, b: nat | a < ChunkSize && b < ChunkSize
      ensures drawn[Slot(a, b, ChunkSize)] == WorldTile(vs, w, h, ChunkSize * cx + a, ChunkSize * cy + b, layer)
    {
      assert drawn[Slot(a, b, ChunkSize)] == PaddedTile(vs, w, h, cx, cy, a + 1, b + 1, layer);
    }
  }

  /** The origin of a chunk in range, and the positions one tile around it,
    * convert without overflow, and the origin lies in that chunk. */
  lemma ChunkOrigin(c: int, a: int)
    requires ChunkInRange(c) && -1 <= a <= ChunkSize
    ensures ConvertibleInt(ChunkSize * c + a)
    ensures a == 0 ==> PosToWorldChunk(ChunkSize * c) == c
  {
    if a == 0 {
      PosToWorldChunkIsFloor(ChunkSize * c);
    }
  }

  /** The 3×3 window `drawTile` reads around world tile (px, py), stored at
    * Slot(a, b, 3) for tile (px + a - 1, py + b - 1). */
  method ReadWindow(world: WorldMap, px: int, py: int, layer: nat) returns (w: seq<Tile>)
    requires world.Valid() && 0 < world.width <= IntMax && 0 < world.height <= IntMax
    requires ConvertibleInt(px - 1) && ConvertibleInt(px) && ConvertibleInt(px + 1)
    requires ConvertibleInt(py - 1) && ConvertibleInt(py) && ConvertibleInt(py + 1)
    ensures |w| == 9 && w[Slot(1, 1, 3)] == WorldTile(world.View(), world.width, world.height, px, py, layer)
  {
    ghost var vs := world.View();
    var w00, w01, w02 := ReadColumn3(world, vs, px - 1, py, layer, false);
    var w10, w11, w12 := ReadColumn3(world, vs, px, py, layer, true);
    var w20, w21, w22 := ReadColumn3(world, vs, px + 1, py, layer, false);
    w := [w00, w10, w20, w01, w11, w21, w02, w12, w22];
  }

  /** A column of that window: the tiles (x, py - 1), (x, py), (x, py + 1).
    * The window's contract only speaks of its centre, so only the middle
    * column (`middle`) reports what its centre tile is. */
  method ReadColumn3(world: WorldMap, ghost vs: seq<ChunkView>, x: int, py: int, layer: nat, ghost middle: bool) returns (above: Tile, centre: Tile, below: Tile)
    requires world.Valid() && 0 < world.width <= IntMax && 0 < world.height <= IntMax && vs == world.View()
    requires ConvertibleInt(x) && ConvertibleInt(py - 1) && ConvertibleInt(py) && ConvertibleInt(py + 1)
    ensures world.View() == vs
    ensures middle ==> centre == WorldTile(vs, world.width, world.height, x, py, layer)
  {
    above := world.GetTile(x, py - 1, layer);
    centre := world.GetTile(x, py, layer);
    below := world.GetTile(x, py + 1, layer);
  }

  // ---------------------------------------------------------------------
  // The tracked chunks and layers

  /** A scene node position; the model keeps positions in whole tiles. */
  datatype Position = Position(x: int, y: int, z: real)

  /** One drawn layer of a tracked chunk: its entity (an opaque token), the
    * cells of its tilemap, its node's position and whether it is enabled. */
  datatype LayerInfo = LayerInfo(entity: nat, cells: seq<Tile>, position: Position, enabled: bool)

  /** A tracked chunk: its world chunk coordinates (not wrapped), the grid
    * chunk they address, and its layers from the bottom up. */
  datatype ChunkInfo = ChunkInfo(x: int, y: int, chunk: Chunk, layers: seq<LayerInfo>)

  /** What a change notification did: nothing for an untracked chunk,
    * nothing defined for a layer index beyond the mirrored stack, or its
    * work. */
  datatype Update = Untracked | OutOfRange | Applied

  function Coords(infos: seq<ChunkInfo>): (cs: seq<(int, int)>)
    ensures |cs| == |infos| && forall k :: 0 <= k < |infos| ==> cs[k] == (infos[k].x, infos[k].y)
  {
    seq(|infos|, k requires 0 <= k < |infos| => (infos[k].x, infos[k].y))
  }

  /** `std::find_if` on coordinates: the first position holding c, or the
    * length when there is none. */
  function Find(cs: seq<(int, int)>, c: (int, int)): (k: nat)
    ensures k <= |cs|
    ensures k < |cs| ==> cs[k] == c
    ensures forall m :: 0 <= m < k ==> cs[m] != c
    ensures k < |cs| <==> c in cs
  {
    if |cs| == 0 then 0
    else if cs[0] == c then 0
    else 1 + Find(cs[1..], c)
  }

  /** The tracked chunk with coordinates (x, y), found as the source finds it. */
  function FindInfo(infos: seq<ChunkInfo>, x: int, y: int): (k: nat)
    ensures k <= |infos|
  {
    Find(Coords(infos), (x, y))
  }

  /** In a list without repeats, the first position of an element is its
    * position. */
  lemma {:induction false} FindDistinct(cs: seq<(int, int)>, k: nat)
    requires Distinct(cs) && k < |cs|
    ensures Find(cs, cs[k]) == k
  {
  }

  /** The layer's node origin `addNewLayer` sets: the chunk's first tile,
    * at the chunk layer's height. */
  function LayerOrigin(x: int, y: int, height: real): Position
  {
    Position(ChunkSize * x, ChunkSize * y, height)
  }

  /** The position `updateLayerHeight` sets: the chunk coordinates
    * themselves, not multiplied by the chunk size. */
  function HeightMoved(x: int, y: int, height: real): Position
  {
    Position(x, y, height)
  }

  /** A height change moves every layer of a chunk other than (0, 0) away
    * from the origin `addNewLayer` gave it. */
  lemma HeightChangeMovesLayer(x: int, y: int, height: real)
    ensures HeightMoved(x, y, height) == LayerOrigin(x, y, height) <==> x == 0 && y == 0
  {
  }

  /** The entity tokens of a layer stack from the top layer down: the order
    * `removeChunk` kills them in. */
  function TopDown(ls: seq<LayerInfo>): (es: seq<nat>)
    ensures |es| == |ls|
    ensures forall m :: 0 <= m < |ls| ==> es[m] == ls[|ls| - 1 - m].entity
  {
    if |ls| == 0 then [] else [ls[|ls| - 1].entity] + TopDown(ls[..|ls| - 1])
  }

  /** Every layer of a stack with its enabled flag set to e. */
  function WithEnabled(ls: seq<LayerInfo>, e: bool): (r: seq<LayerInfo>)
  {
    seq(|ls|, m requires 0 <= m < |ls| => ls[m].(enabled := e))
  }

  /** The inner loop of `onEnable`/`onDisable`: one chunk's layers. */
  method SwitchLayers(ls: seq<LayerInfo>, e: bool) returns (r: seq<LayerInfo>)
    ensures r == WithEnabled(ls, e)
  {
    r := ls;
    for m := 0 to |ls|
      invariant |r| == |ls|
      invariant forall n :: 0 <= n < m ==> r[n] == ls[n].(enabled := e)
      invariant forall n :: m <= n < |ls| ==> r[n] == ls[n]
    {
      r := r[m := r[m].(enabled := e)];
    }
  }

  /** Switching keeps the layers, their entities, cells and positions, and
    * leaves every layer with the requested flag. */
  lemma SwitchKeepsLayers(ls: seq<LayerInfo>, e: bool)
    ensures |WithEnabled(ls, e)| == |ls|
    ensures forall m :: 0 <= m < |ls| ==>
      && WithEnabled(ls, e)[m].enabled == e
      && WithEnabled(ls, e)[m].entity == ls[m].entity
      && WithEnabled(ls, e)[m].cells == ls[m].cells
      && WithEnabled(ls, e)[m].position == ls[m].position
  {
  }

  /** A layer `addNewLayer` has just made: entity e, enabled, at the origin
    * of chunk (x, y) and the given height, showing the world's tiles. */
  predicate NewLayer(info: LayerInfo, e: nat, vs: seq<ChunkView>, w: nat, h: nat, x: int, y: int, layer: nat, height: real)
    requires GridOk(vs, w, h)
  {
    && info.entity == e && info.enabled
    && info.position == LayerOrigin(x, y, height)
    && LayerDrawn(vs, w, h, x, y, layer, info.cells)
  }

  /** Layers 0 .. |c.layers| - 1 of tracked chunk c are fresh mirrors of
    * the chunk's layers, with consecutive entities from e0. */
  predicate LayersMirrored(c: ChunkInfo, e0: nat, vs: seq<ChunkView>, w: nat, h: nat)
    reads c.chunk
    requires GridOk(vs, w, h)
  {
    && |c.layers| <= c.chunk.LayerCount()
    && forall l :: 0 <= l < |c.layers| ==>
         NewLayer(c.layers[l], e0 + l, vs, w, h, c.x, c.y, l, c.chunk.LayerHeight(l))
  }

  /** A mirror of the next chunk layer extends the mirrored stack. */
  lemma MirroredStep(c: ChunkInfo, l: LayerInfo, e0: nat, vs: seq<ChunkView>, w: nat, h: nat)
    requires GridOk(vs, w, h) && LayersMirrored(c, e0, vs, w, h) && |c.layers| < c.chunk.LayerCount()
    requires NewLayer(l, e0 + |c.layers|, vs, w, h, c.x, c.y, |c.layers|, c.chunk.LayerHeight(|c.layers|))
    ensures LayersMirrored(c.(layers := c.layers + [l]), e0, vs, w, h)
  {
    var ls := c.layers + [l];
    forall m | 0 <= m < |ls|
      ensures NewLayer(ls[m], e0 + m, vs, w, h, c.x, c.y, m, c.chunk.LayerHeight(m))
    {
      if m < |c.layers| {
        assert ls[m] == c.layers[m];
      } else {
        assert ls[m] == l;
      }
    }
  }

  /** What a tracked chunk must satisfy: coordinates whose tiles convert,
    * the grid chunk they address, and 32×32 layers. */
  predicate InfoOk(world: WorldMap, c: ChunkInfo)
  {
    && 0 < world.width && 0 < world.height && |world.chunks| == world.width * world.height
    && ChunkInRange(c.x) && ChunkInRange(c.y)
    && c.chunk == GridChunk(world, c.x, c.y)
    && forall l :: 0 <= l < |c.layers| ==> |c.layers[l].cells| == CellCount
  }

  /** Every tracked chunk with all its layers switched to e. */
  function AllSwitched(infos: seq<ChunkInfo>, e: bool): (r: seq<ChunkInfo>)
  {
    seq(|infos|, k requires 0 <= k < |infos| => infos[k].(layers := WithEnabled(infos[k].layers, e)))
  }

  /** Switching every chunk keeps the tracked coordinates and chunks, and
    * each chunk's layer count. */
  lemma AllSwitchedKeepsChunks(infos: seq<ChunkInfo>, e: bool)
    ensures Coords(AllSwitched(infos, e)) == Coords(infos)
    ensures forall k :: 0 <= k < |infos| ==>
      && AllSwitched(infos, e)[k].chunk == infos[k].chunk
      && |AllSwitched(infos, e)[k].layers| == |infos[k].layers|
  {
  }



  /** Erasing a tracked chunk erases its coordinates, and a list without
    * repeats stays without repeats. */
  lemma RemoveKeepsDistinct(infos: seq<ChunkInfo>, k: nat)
    requires k < |infos| && Distinct(Coords(infos))
    ensures Coords(RemoveAt(infos, k)) == RemoveAt(Coords(infos), k)
    ensures Distinct(Coords(RemoveAt(infos, k)))
  {
    var cs, rs := Coords(infos), Coords(RemoveAt(infos, k));
    forall a, b | 0 <= a < b < |rs|
      ensures rs[a] != rs[b]
    {
      var a', b' := if a < k then a else a + 1, if b < k then b else b + 1;
      assert rs[a] == cs[a'] && rs[b] == cs[b'];
    }
  }

  /** The coordinates erased are the only ones that go. */
  lemma RemoveAtContents<T>(s: seq<T>, k: nat, c: T)
    requires k < |s| && Distinct(s)
    ensures c in RemoveAt(s, k) <==> c in s && c != s[k]
  {
    if c in s && c != s[k] {
      var m :| 0 <= m < |s| && s[m] == c;
      assert RemoveAt(s, k)[if m < k then m else m - 1] == c;
    }
  }

  /** Appending coordinates not yet tracked makes them the last found. */
  lemma FindAppended(cs: seq<(int, int)>, c: (int, int))
    requires c !in cs
    ensures Find(cs + [c], c) == |cs|
  {
    assert (cs + [c])[|cs|] == c;
  }

  /** Every chunk in view is a chunk in range. */
  lemma ViewChunksInRange(x: int, y: int, v: int)
    requires ViewInRange(x, y, v)
    ensures forall c :: c in ViewChunks(x, y, v) ==> ChunkInRange(c.0) && ChunkInRange(c.1)
    ensures Distinct(ViewChunks(x, y, v))
  {
    ViewRectContents(PosToWorldChunk(x - v), PosToWorldChunk(x + v), PosToWorldChunk(y - v), PosToWorldChunk(y + v));
  }

  /** What `onTileUpdate` leaves in the cells of layer `layer` of chunk
    * (x, y) after a change at (tx, ty): the whole layer drawn anew when the
    * position is outside the map, otherwise only that cell, set to the
    * world's tile at its position. */
  predicate Redrawn(vs: seq<ChunkView>, w: nat, h: nat, x: int, y: int, layer: nat, tx: nat, ty: nat,
                    before: seq<Tile>, after: seq<Tile>)
    requires GridOk(vs, w, h) && |before| == CellCount
  {
    if tx >= ChunkSize || ty >= ChunkSize then
      LayerDrawn(vs, w, h, x, y, layer, after)
    else
      SlotInRange(tx, ty, ChunkSize, ChunkSize);
      after == before[Slot(tx, ty, ChunkSize) := WorldTile(vs, w, h, tx + ChunkSize * x, ty + ChunkSize * y, layer)]
  }

  /** The tracked chunks: unique coordinates, each chunk in order. */
  predicate InfosOk(world: WorldMap, infos: seq<ChunkInfo>)
  {
    Distinct(Coords(infos)) && forall k :: 0 <= k < |infos| ==> InfoOk(world, infos[k])
  }

  /** Giving a tracked chunk other layers of 32×32 cells keeps the list in
    * order and its coordinates as they were. */
  lemma ReplaceLayers(world: WorldMap, infos: seq<ChunkInfo>, k: nat, ls: seq<LayerInfo>)
    requires InfosOk(world, infos) && k < |infos|
    requires forall l :: 0 <= l < |ls| ==> |ls[l].cells| == CellCount
    ensures Coords(infos[k := infos[k].(layers := ls)]) == Coords(infos)
    ensures InfosOk(world, infos[k := infos[k].(layers := ls)])
  {
    var r := infos[k := infos[k].(layers := ls)];
    assert Coords(r) == Coords(infos);
  }

  /** The tracked chunks with the cells of layer `layer` of chunk `k`
    * replaced. */
  function WithCells(infos: seq<ChunkInfo>, k: nat, layer: nat, cells: seq<Tile>): (r: seq<ChunkInfo>)
    requires k < |infos| && layer < |infos[k].layers|
    ensures |r| == |infos| && |r[k].layers| == |infos[k].layers| && r[k].layers[layer].cells == cells
  {
    var c := infos[k];
    infos[k := c.(layers := c.layers[layer := c.layers[layer].(cells := cells)])]
  }

  /** The chunks of the view not yet tracked, in view order. */
  function Missing(view: seq<(int, int)>, placed: seq<(int, int)>): (r: seq<(int, int)>)
    ensures |r| <= |view|
  {
    if |view| == 0 then []
    else Missing(view[..|view| - 1], placed) + (if view[|view| - 1] in placed then [] else [view[|view| - 1]])
  }

  /** The chunks found missing are exactly those of the view not placed. */
  lemma {:induction false} MissingContents(view: seq<(int, int)>, placed: seq<(int, int)>)
    ensures forall c :: c in Missing(view, placed) <==> c in view && c !in placed
  {
    if |view| > 0 {
      MissingContents(view[..|view| - 1], placed);
      assert view == view[..|view| - 1] + [view[|view| - 1]];
    }
  }

  /** A view without repeats has its missing chunks without repeats. */
  lemma {:induction false} MissingDistinct(view: seq<(int, int)>, placed: seq<(int, int)>)
    requires Distinct(view)
    ensures Distinct(Missing(view, placed))
  {
    if |view| > 0 {
      var init := view[..|view| - 1];
      assert Distinct(init);
      MissingDistinct(init, placed);
      MissingContents(init, placed);
      DistinctConcat(Missing(init, placed), if view[|view| - 1] in placed then [] else [view[|view| - 1]]);
    }
  }

  /** The one new missing chunk a step of the first loop adds. */
  lemma MissingStep(view: seq<(int, int)>, placed: seq<(int, int)>, i: nat, now: seq<(int, int)>)
    requires i < |view| && Distinct(view)
    requires forall c :: c in now <==> c in placed || c in Missing(view[..i], placed)
    ensures view[i] !in now ==> Missing(view[..i + 1], placed) == Missing(view[..i], placed) + [view[i]]
    ensures view[i] in now ==> Missing(view[..i + 1], placed) == Missing(view[..i], placed)
  {
    assert view[..i + 1][..i] == view[..i];
    MissingContents(view[..i], placed);
    forall m | 0 <= m < i
      ensures view[..i][m] != view[i]
    {
    }
  }

  /** The tracked chunks in view, in their order: what the second loop of
    * `onCenterViewUpdate` keeps. */
  function KeptInView(infos: seq<ChunkInfo>, view: seq<(int, int)>): (r: seq<ChunkInfo>)
    ensures |r| <= |infos|
  {
    if |infos| == 0 then []
    else
      var last := infos[|infos| - 1];
      KeptInView(infos[..|infos| - 1], view) + (if (last.x, last.y) in view then [last] else [])
  }

  /** The entities the second loop kills: those of each tracked chunk out
    * of view, from its top layer down, chunk after chunk. */
  function StaleEntities(infos: seq<ChunkInfo>, view: seq<(int, int)>): seq<nat>
  {
    if |infos| == 0 then []
    else
      var last := infos[|infos| - 1];
      StaleEntities(infos[..|infos| - 1], view) + (if (last.x, last.y) in view then [] else TopDown(last.layers))
  }

  /** The number of layers of the chunks cs: the entities their mirrors use. */
  function LayerTotal(cs: seq<ChunkInfo>): nat
  {
    if |cs| == 0 then 0 else LayerTotal(cs[..|cs| - 1]) + |cs[|cs| - 1].layers|
  }

  /** The chunks cs as `addNewChunk` appends them one after the other: each
    * the grid chunk at its coordinates with every layer mirrored from the
    * world vs, the entities counted on from e0. */
  ghost predicate AddedChunks(world: WorldMap, cs: seq<ChunkInfo>, e0: nat, vs: seq<ChunkView>, w: nat, h: nat)
    reads set k | 0 <= k < |cs| :: cs[k].chunk
    requires 0 < world.width && 0 < world.height && |world.chunks| == world.width * world.height
    requires GridOk(vs, w, h)
  {
    forall k :: 0 <= k < |cs| ==>
      && cs[k].chunk == GridChunk(world, cs[k].x, cs[k].y)
      && |cs[k].layers| == cs[k].chunk.LayerCount()
      && LayersMirrored(cs[k], e0 + LayerTotal(cs[..k]), vs, w, h)
  }

  /** One more chunk appended by `addNewChunk`, its entities following on. */
  lemma AddedStep(world: WorldMap, cs: seq<ChunkInfo>, c: ChunkInfo, e0: nat, vs: seq<ChunkView>, w: nat, h: nat)
    requires 0 < world.width && 0 < world.height && |world.chunks| == world.width * world.height
    requires GridOk(vs, w, h) && AddedChunks(world, cs, e0, vs, w, h)
    requires c.chunk == GridChunk(world, c.x, c.y) && |c.layers| == c.chunk.LayerCount()
    requires LayersMirrored(c, e0 + LayerTotal(cs), vs, w, h)
    ensures AddedChunks(world, cs + [c], e0, vs, w, h)
    ensures LayerTotal(cs + [c]) == LayerTotal(cs) + |c.layers|
  {
    var r := cs + [c];
    assert r[..|cs|] == cs;
    forall k | 0 <= k < |r|
      ensures && r[k].chunk == GridChunk(world, r[k].x, r[k].y)
              && |r[k].layers| == r[k].chunk.LayerCount()
              && LayersMirrored(r[k], e0 + LayerTotal(r[..k]), vs, w, h)
    {
      if k < |cs| {
        assert r[..k] == cs[..k] && r[k] == cs[k];
      }
    }
  }

  /** A list one longer that starts with o + added is o + added followed by
    * its last chunk. */
  lemma AppendedTo(o: seq<ChunkInfo>, added: seq<ChunkInfo>, after: seq<ChunkInfo>)
    requires |after| == |o| + |added| + 1 && after[..|o| + |added|] == o + added
    ensures after == o + (added + [after[|o| + |added|]])
  {
    assert after == after[..|o| + |added|] + [after[|o| + |added|]];
  }

  /** A list that starts with o is o followed by the rest. */
  lemma PrefixSplit(o: seq<ChunkInfo>, now: seq<ChunkInfo>)
    requires |o| <= |now| && now[..|o|] == o
    ensures now == o + now[|o|..]
  {
    assert now == now[..|o|] + now[|o|..];
  }

  lemma CoordsConcat(a: seq<ChunkInfo>, b: seq<ChunkInfo>)
    ensures Coords(a + b) == Coords(a) + Coords(b)
  {
  }

  /** The chunks kept are exactly the tracked ones in view. */
  lemma {:induction false} KeptContents(infos: seq<ChunkInfo>, view: seq<(int, int)>)
    ensures forall c :: c in KeptInView(infos, view) <==> c in infos && (c.x, c.y) in view
    ensures forall c :: c in Coords(KeptInView(infos, view)) <==> c in Coords(infos) && c in view
    ensures forall k :: 0 <= k < |infos| && Coords(infos)[k] in view ==> infos[k] in KeptInView(infos, view)
  {
    if |infos| > 0 {
      var init, last := infos[..|infos| - 1], infos[|infos| - 1];
      KeptContents(init, view);
      assert infos == init + [last];
      CoordsConcat(KeptInView(init, view), if (last.x, last.y) in view then [last] else []);
      CoordsConcat(init, [last]);
    }
  }

  /** Keeping the chunks in view of a list is keeping those of its two
    * halves. */
  lemma {:induction false} KeptConcat(a: seq<ChunkInfo>, b: seq<ChunkInfo>, view: seq<(int, int)>)
    ensures KeptInView(a + b, view) == KeptInView(a, view) + KeptInView(b, view)
  {
    if |b| == 0 {
      assert a + b == a;
    } else {
      var n := |b| - 1;
      assert (a + b)[..|a + b| - 1] == a + b[..n];
      KeptConcat(a, b[..n], view);
    }
  }

  /** The entities killed for a list are those killed for its two halves. */
  lemma {:induction false} StaleConcat(a: seq<ChunkInfo>, b: seq<ChunkInfo>, view: seq<(int, int)>)
    ensures StaleEntities(a + b, view) == StaleEntities(a, view) + StaleEntities(b, view)
  {
    if |b| == 0 {
      assert a + b == a;
    } else {
      var n := |b| - 1;
      assert (a + b)[..|a + b| - 1] == a + b[..n];
      StaleConcat(a, b[..n], view);
    }
  }

  /** Chunks all in view are all kept, and none of their entities is
    * killed. */
  lemma {:induction false} AllKept(cs: seq<ChunkInfo>, view: seq<(int, int)>)
    requires forall k :: 0 <= k < |cs| ==> (cs[k].x, cs[k].y) in view
    ensures KeptInView(cs, view) == cs && StaleEntities(cs, view) == []
  {
    if |cs| > 0 {
      var n := |cs| - 1;
      AllKept(cs[..n], view);
      assert cs[..n] + [cs[n]] == cs;
    }
  }

  /** The chunks the first loop of `onCenterViewUpdate` appends are all
    * in view: the second loop keeps them all and kills none of theirs. */
  lemma AddedInView(o: seq<ChunkInfo>, added: seq<ChunkInfo>, view: seq<(int, int)>)
    requires Coords(added) == Missing(view, Coords(o))
    ensures KeptInView(o + added, view) == KeptInView(o, view) + added
    ensures StaleEntities(o + added, view) == StaleEntities(o, view)
  {
    MissingContents(view, Coords(o));
    forall k | 0 <= k < |added|
      ensures (added[k].x, added[k].y) in view
    {
      assert Coords(added)[k] in Missing(view, Coords(o));
    }
    KeptConcat(o, added, view);
    StaleConcat(o, added, view);
    AllKept(added, view);
  }

  /** What `onCenterViewUpdate` leaves of the tracked chunks o in now,
    * with the next entity token going from e0 to e1: first the chunks of o
    * in view, in their order, then the chunks of the view not in o, in view
    * order, each the grid chunk at its coordinates with every layer
    * mirrored from the world vs and the entities counted on from e0. */
  ghost predicate ViewFollowed(world: WorldMap, o: seq<ChunkInfo>, now: seq<ChunkInfo>, e0: nat, e1: nat,
                               vs: seq<ChunkView>, w: nat, h: nat, view: seq<(int, int)>)
    reads set k | 0 <= k < |now| :: now[k].chunk
    requires 0 < world.width && 0 < world.height && |world.chunks| == world.width * world.height
    requires GridOk(vs, w, h)
  {
    var kept := KeptInView(o, view);
    && |kept| <= |now| && now[..|kept|] == kept
    && Coords(now[|kept|..]) == Missing(view, Coords(o))
    && AddedChunks(world, now[|kept|..], e0, vs, w, h)
    && e1 == e0 + LayerTotal(now[|kept|..])
  }

  /** What the first loop of `onCenterViewUpdate` leaves of the tracked
    * chunks o in now, the next entity token going from e0 to e1: o as it
    * was, then the chunks of the view not in o, in view order, each the
    * grid chunk at its coordinates with every layer mirrored from the world
    * vs and the entities counted on from e0. */
  ghost predicate MissingAppended(world: WorldMap, o: seq<ChunkInfo>, now: seq<ChunkInfo>, e0: nat, e1: nat,
                                  vs: seq<ChunkView>, w: nat, h: nat, view: seq<(int, int)>)
    reads set k | 0 <= k < |now| :: now[k].chunk
    requires 0 < world.width && 0 < world.height && |world.chunks| == world.width * world.height
    requires GridOk(vs, w, h)
  {
    && |o| <= |now| && now[..|o|] == o
    && Coords(now[|o|..]) == Missing(view, Coords(o))
    && AddedChunks(world, now[|o|..], e0, vs, w, h)
    && e1 == e0 + LayerTotal(now[|o|..])
  }

  /** The second loop run after the first: the chunks left are those of o
    * in view followed by the chunks added, which are exactly the chunks of
    * the view; every chunk of o in view stays, and only chunks of o are
    * killed. */
  lemma Followed(world: WorldMap, o: seq<ChunkInfo>, mid: seq<ChunkInfo>, now: seq<ChunkInfo>, e0: nat, e1: nat,
                 vs: seq<ChunkView>, w: nat, h: nat, view: seq<(int, int)>)
    requires 0 < world.width && 0 < world.height && |world.chunks| == world.width * world.height
    requires GridOk(vs, w, h) && MissingAppended(world, o, mid, e0, e1, vs, w, h, view)
    requires now == KeptInView(mid, view)
    ensures ViewFollowed(world, o, now, e0, e1, vs, w, h, view)
    ensures forall c :: c in Coords(now) <==> c in view
    ensures forall k :: 0 <= k < |o| && Coords(o)[k] in view ==> o[k] in now
    ensures StaleEntities(mid, view) == StaleEntities(o, view)
  {
    var added := mid[|o|..];
    PrefixSplit(o, mid);
    AddedInView(o, added, view);
    var kept := KeptInView(o, view);
    assert now[..|kept|] == kept && now[|kept|..] == added;
    KeptContents(mid, view);
    MissingContents(view, Coords(o));
    CoordsConcat(o, added);
    forall k | 0 <= k < |o| && Coords(o)[k] in view
      ensures o[k] in now
    {
      assert mid[k] == o[k] && Coords(mid)[k] == Coords(o)[k];
    }
  }

  /** The second loop ends once every chunk of o went through it: the
    * chunks of o in view are left and the entities of the others killed. */
  lemma KeptEnd(o: seq<ChunkInfo>, view: seq<(int, int)>, j: nat, now: seq<ChunkInfo>)
    requires j <= |o| && now == KeptInView(o[..j], view) + o[j..] && |now| == |KeptInView(o[..j], view)|
    ensures j == |o| && now == KeptInView(o, view) && StaleEntities(o[..j], view) == StaleEntities(o, view)
  {
    assert o[..|o|] == o;
  }

  /** One step of the second loop: the chunk at i is the j-th of o; out of
    * view it is erased and its entities killed, otherwise it stays. */
  lemma KeptStep(o: seq<ChunkInfo>, view: seq<(int, int)>, j: nat, k: seq<nat>)
    requires j < |o|
    ensures var kept := KeptInView(o[..j], view);
      && |kept| < |kept + o[j..]| && (kept + o[j..])[|kept|] == o[j]
      && ((o[j].x, o[j].y) !in view ==>
        && KeptInView(o[..j + 1], view) + o[j + 1..] == RemoveAt(kept + o[j..], |kept|)
        && |KeptInView(o[..j + 1], view)| == |kept|
        && (k + StaleEntities(o[..j], view)) + TopDown(o[j].layers) == k + StaleEntities(o[..j + 1], view))
      && ((o[j].x, o[j].y) in view ==>
        && KeptInView(o[..j + 1], view) + o[j + 1..] == kept + o[j..]
        && |KeptInView(o[..j + 1], view)| == |kept| + 1
        && StaleEntities(o[..j + 1], view) == StaleEntities(o[..j], view))
  {
    assert o[..j + 1][..j] == o[..j];
    assert o[..j + 1][j] == o[j];
    var kept := KeptInView(o[..j], view);
    assert o[j..] == [o[j]] + o[j + 1..];
    assert RemoveAt(kept + o[j..], |kept|) == kept + o[j + 1..];
    assert kept + o[j..] == (kept + [o[j]]) + o[j + 1..];
  }

  /** A world grid that can be addressed, and tracked chunks in order. */
  predicate Tracking(world: WorldMap, infos: seq<ChunkInfo>)
  {
    && 0 < world.width <= IntMax && 0 < world.height <= IntMax && |world.chunks| == world.width * world.height
    && InfosOk(world, infos)
  }

  /** The streaming renderer of `WorldRenderBehaviour`. */
  class WorldRenderer {
    const world: WorldMap
    const viewSize: int
    var chunkInfos: seq<ChunkInfo>
    var tilesDef: seq<Option<RenderDef>>
    var defaultDef: Option<RenderDef>
    /** The next entity token handed out. */
    var nextEntity: nat
    /** The entity tokens killed so far, in order. */
    var killed: seq<nat>

    /** Tracked coordinates are unique and every tracked chunk is in order. */
    ghost predicate Valid()
      reads this
    {
      Tracking(world, chunkInfos)
    }

    /** The world can be read, and this renderer is not part of it. */
    ghost predicate Ready()
      reads world, world.Repr
    {
      world.Valid() && this !in world.Repr
    }

    constructor (map_: WorldMap, viewSize: int)
      requires 0 < map_.width <= IntMax && 0 < map_.height <= IntMax && |map_.chunks| == map_.width * map_.height
      ensures Valid() && world == map_ && this.viewSize == viewSize
      ensures chunkInfos == [] && tilesDef == [] && defaultDef == None && nextEntity == 0 && killed == []
    {
      world := map_;
      this.viewSize := viewSize;
      chunkInfos := [];
      tilesDef := [];
      defaultDef := None;
      nextEntity := 0;
      killed := [];
    }

    method SetDefaultTileDef(def: Option<RenderDef>)
      modifies this
      ensures defaultDef == def
      ensures chunkInfos == old(chunkInfos) && tilesDef == old(tilesDef)
      ensures nextEntity == old(nextEntity) && killed == old(killed)
    {
      defaultDef := def;
    }

    /** Stores the definition of a layer, padding the list with nulls up to
      * it; a null definition beyond the list changes nothing. */
    method SetTileDef(def: Option<RenderDef>, layer: nat)
      modifies this
      ensures forall l: nat :: DefAt(tilesDef, l) == if l == layer then def else DefAt(old(tilesDef), l)
      ensures |tilesDef| == if def.None? && layer >= |old(tilesDef)| then |old(tilesDef)|
                            else if layer < |old(tilesDef)| then |old(tilesDef)| else layer + 1
      ensures chunkInfos == old(chunkInfos) && defaultDef == old(defaultDef)
      ensures nextEntity == old(nextEntity) && killed == old(killed)
    {
      if def.None? && layer >= |tilesDef| {
        return;
      }
      var i := |tilesDef|;
      while i <= layer
        invariant |old(tilesDef)| <= |tilesDef| && i == |tilesDef|
        invariant i <= layer + 1 || i == |old(tilesDef)|
        invariant forall l: nat :: DefAt(tilesDef, l) == DefAt(old(tilesDef), l)
        invariant chunkInfos == old(chunkInfos) && defaultDef == old(defaultDef)
        invariant nextEntity == old(nextEntity) && killed == old(killed)
      {
        tilesDef := tilesDef + [None];
        i := i + 1;
      }
      tilesDef := tilesDef[layer := def];
    }

    /** A copy on the same world and view size, with the same definitions
      * layer by layer and no tracked chunks. */
    method Clone() returns (r: WorldRenderer)
      requires Valid()
      ensures fresh(r) && r.Valid() && r.world == world && r.viewSize == viewSize
      ensures r.chunkInfos == [] && r.defaultDef == defaultDef
      ensures forall l: nat :: DefAt(r.tilesDef, l) == DefAt(tilesDef, l)
    {
      r := new WorldRenderer(world, viewSize);
      r.SetDefaultTileDef(defaultDef);
      for i := 0 to |tilesDef|
        invariant fresh(r) && r.Valid() && r.world == world && r.viewSize == viewSize
        invariant r.chunkInfos == [] && r.defaultDef == defaultDef
        invariant forall l: nat :: DefAt(r.tilesDef, l) == if l < i then DefAt(tilesDef, l) else None
      {
        r.SetTileDef(tilesDef[i], i);
      }
    }

    /** `drawLayer`: the layer's 32×32 map drawn from the padded read around
      * the chunk holding tile (x, y); each cell gets the world's tile at its
      * position, whether or not a definition applies. */
    method DrawLayer(cells: seq<Tile>, x: int, y: int, layer: nat) returns (drawn: seq<Tile>)
      requires Valid() && Ready() && |cells| == CellCount
      requires ConvertibleInt(x) && ConvertibleInt(y)
      requires ChunkInRange(PosToWorldChunk(x)) && ChunkInRange(PosToWorldChunk(y))
      ensures GridOk(world.View(), world.width, world.height)
      ensures LayerDrawn(world.View(), world.width, world.height, PosToWorldChunk(x), PosToWorldChunk(y), layer, drawn)
    {
      var def := DefFor(tilesDef, defaultDef, layer);
      var cx, cy := PosToWorldChunk(x), PosToWorldChunk(y);
      var tiles := ReadAround(world, cx, cy, layer);
      ghost var vs := world.View();
      drawn := DrawCells(tiles, def, x, y, cells);
      PaddedDrawIsWorld(vs, world.width, world.height, cx, cy, layer, tiles, drawn);
      WorldMap.Framed(world);
    }

    /** `drawTile`: cell (x, y) of a map whose first tile is (mapX, mapY)
      * gets the world's tile at its position, read directly without a
      * definition and through the 3×3 window otherwise; no other cell
      * changes. */
    method DrawTile(cells: seq<Tile>, mapX: int, mapY: int, x: nat, y: nat, layer: nat) returns (drawn: seq<Tile>)
      requires Valid() && Ready() && |cells| == CellCount && x < ChunkSize && y < ChunkSize
      requires ConvertibleInt(x + mapX) && ConvertibleInt(y + mapY)
      requires DefFor(tilesDef, defaultDef, layer).Some? ==>
        && ConvertibleInt(x + mapX - 1) && ConvertibleInt(x + mapX + 1)
        && ConvertibleInt(y + mapY - 1) && ConvertibleInt(y + mapY + 1)
      ensures Slot(x, y, ChunkSize) < CellCount
      ensures drawn == cells[Slot(x, y, ChunkSize) := WorldTile(world.View(), world.width, world.height, x + mapX, y + mapY, layer)]
    {
      var def := DefFor(tilesDef, defaultDef, layer);
      SlotInRange(x, y, ChunkSize, ChunkSize);
      var px, py := x + mapX, y + mapY;
      var t;
      if def.None? {
        t := world.GetTile(px, py, layer);
      } else {
        var w := ReadWindow(world, px, py, layer);
        t := RenderTile(w, px, py);
      }
      drawn := cells[Slot(x, y, ChunkSize) := t];
    }

    /** `addNewLayer`: the tracked chunk (x, y) gets a new top layer mirroring
      * chunk layer `layer`, with a new entity, its origin at the chunk's
      * first tile and the chunk layer's height, and its cells drawn. */
    method AddNewLayer(x: int, y: int, layer: nat)
      requires Valid() && Ready()
      requires FindInfo(chunkInfos, x, y) < |chunkInfos|
      requires |chunkInfos[FindInfo(chunkInfos, x, y)].layers| == layer
      requires chunkInfos[FindInfo(chunkInfos, x, y)].chunk.HaveLayer(layer)
      modifies this
      ensures Valid() && Ready() && Coords(chunkInfos) == Coords(old(chunkInfos))
      ensures GridOk(world.View(), world.width, world.height)
      ensures var k := FindInfo(old(chunkInfos), x, y);
        var c := old(chunkInfos)[k];
        && k < |chunkInfos| && |chunkInfos[k].layers| == layer + 1
        && chunkInfos == old(chunkInfos)[k := c.(layers := c.layers + [chunkInfos[k].layers[layer]])]
        && NewLayer(chunkInfos[k].layers[layer], old(nextEntity), world.View(), world.width, world.height, x, y, layer,
                    c.chunk.LayerHeight(layer))
      ensures nextEntity == old(nextEntity) + 1 && killed == old(killed)
      ensures tilesDef == old(tilesDef) && defaultDef == old(defaultDef)
    {
      var k := FindInfo(chunkInfos, x, y);
      var info := chunkInfos[k];
      var fresh_ := NewLayerAt(x, y, layer, info.chunk.LayerHeight(layer));
      WorldMap.Framed(world);
      ReplaceLayers(world, chunkInfos, k, info.layers + [fresh_]);
      nextEntity := nextEntity + 1;
      chunkInfos := chunkInfos[k := info.(layers := info.layers + [fresh_])];
      assert chunkInfos[k].layers[layer] == fresh_;
      WorldMap.Framed(world);
    }

    /** The layer `addNewLayer` creates for layer `layer` of tracked chunk
      * (x, y): the next entity, enabled, at the chunk's first tile and the
      * given height, its cells drawn from blank. */
    method NewLayerAt(x: int, y: int, layer: nat, height: real) returns (l: LayerInfo)
      requires Valid() && Ready() && ChunkInRange(x) && ChunkInRange(y)
      ensures GridOk(world.View(), world.width, world.height)
      ensures NewLayer(l, nextEntity, world.View(), world.width, world.height, x, y, layer, height)
      ensures |l.cells| == CellCount
    {
      ChunkOrigin(x, 0);
      ChunkOrigin(y, 0);
      var blank := seq(CellCount, _ => EmptyTile());
      var cells := DrawLayer(blank, ChunkSize * x, ChunkSize * y, layer);
      l := LayerInfo(nextEntity, cells, LayerOrigin(x, y, height), true);
    }

    /** `addNewChunk`: chunk (x, y) of the world becomes tracked, after the
      * others, with one drawn layer per layer of the chunk, bottom up. The
      * coordinates must not be tracked yet: `addNewLayer` would otherwise
      * find the older entry and fail its assertion. */
    method AddNewChunk(x: int, y: int)
      requires Valid() && Ready() && ChunkInRange(x) && ChunkInRange(y)
      requires (x, y) !in Coords(chunkInfos)
      modifies this
      ensures Valid() && Ready() && GridOk(world.View(), world.width, world.height)
      ensures |chunkInfos| == |old(chunkInfos)| + 1 && chunkInfos[..|old(chunkInfos)|] == old(chunkInfos)
      ensures Coords(chunkInfos) == Coords(old(chunkInfos)) + [(x, y)]
      ensures var c := chunkInfos[|old(chunkInfos)|];
        && c.chunk == GridChunk(world, x, y) && |c.layers| == c.chunk.LayerCount()
        && LayersMirrored(c, old(nextEntity), world.View(), world.width, world.height)
        && nextEntity == old(nextEntity) + |c.layers|
      ensures killed == old(killed) && tilesDef == old(tilesDef) && defaultDef == old(defaultDef)
    {
      var chunk := world.GetChunk(x, y);
      ghost var n := |chunkInfos|;
      FindAppended(Coords(chunkInfos), (x, y));
      DistinctConcat(Coords(chunkInfos), [(x, y)]);
      chunkInfos := chunkInfos + [ChunkInfo(x, y, chunk, [])];
      assert Coords(chunkInfos) == Coords(old(chunkInfos)) + [(x, y)];
      ghost var appended := chunkInfos;
      AddChunkLayers(x, y);
      assert chunkInfos[..n] == appended[..n];
    }

    /** The loop of `addNewChunk`: `addNewLayer` for each layer of the
      * tracked chunk (x, y), which has none yet. */
    method AddChunkLayers(x: int, y: int)
      requires Valid() && Ready()
      requires FindInfo(chunkInfos, x, y) < |chunkInfos| && chunkInfos[FindInfo(chunkInfos, x, y)].layers == []
      modifies this
      ensures Valid() && Ready() && GridOk(world.View(), world.width, world.height)
      ensures Coords(chunkInfos) == Coords(old(chunkInfos))
      ensures var k := FindInfo(old(chunkInfos), x, y);
        var c := old(chunkInfos)[k];
        && chunkInfos == old(chunkInfos)[k := c.(layers := chunkInfos[k].layers)]
        && |chunkInfos[k].layers| == c.chunk.LayerCount()
        && LayersMirrored(chunkInfos[k], old(nextEntity), world.View(), world.width, world.height)
        && nextEntity == old(nextEntity) + |chunkInfos[k].layers|
      ensures killed == old(killed) && tilesDef == old(tilesDef) && defaultDef == old(defaultDef)
    {
      var n := FindInfo(chunkInfos, x, y);
      var chunk := chunkInfos[n].chunk;
      ghost var vs := world.View();
      ghost var e0 := nextEntity;
      assert GridOk(vs, world.width, world.height);
      var i := 0;
      while i < chunk.LayerCount()
        invariant Valid() && Ready() && world.View() == vs && GridOk(vs, world.width, world.height)
        invariant Coords(chunkInfos) == Coords(old(chunkInfos)) && FindInfo(chunkInfos, x, y) == n
        invariant chunkInfos == old(chunkInfos)[n := old(chunkInfos)[n].(layers := chunkInfos[n].layers)]
        invariant chunkInfos[n].chunk == chunk && |chunkInfos[n].layers| == i
        invariant LayersMirrored(chunkInfos[n], e0, vs, world.width, world.height)
        invariant nextEntity == e0 + i
        invariant killed == old(killed) && tilesDef == old(tilesDef) && defaultDef == old(defaultDef)
        decreases chunk.LayerCount() - i
      {
        ghost var prev := chunkInfos[n];
        AddNewLayer(x, y, i);
        ghost var added := chunkInfos[n].layers[i];
        assert chunkInfos[n] == prev.(layers := prev.layers + [added]);
        assert world.View() == vs;
        assert NewLayer(added, e0 + i, vs, world.width, world.height, x, y, i, chunk.LayerHeight(i));
        MirroredStep(prev, added, e0, vs, world.width, world.height);
        i := i + 1;
      }
    }

    /** `removeLayer`: the top layer of tracked chunk (x, y) goes, and its
      * entity is killed. */
    method RemoveLayer(x: int, y: int, layer: nat)
      requires Valid()
      requires FindInfo(chunkInfos, x, y) < |chunkInfos|
      requires |chunkInfos[FindInfo(chunkInfos, x, y)].layers| == layer + 1
      modifies this
      ensures Valid() && Coords(chunkInfos) == Coords(old(chunkInfos))
      ensures var k := FindInfo(old(chunkInfos), x, y);
        var c := old(chunkInfos)[k];
        && chunkInfos == old(chunkInfos)[k := c.(layers := c.layers[..layer])]
        && killed == old(killed) + [c.layers[layer].entity]
      ensures nextEntity == old(nextEntity) && tilesDef == old(tilesDef) && defaultDef == old(defaultDef)
    {
      var k := FindInfo(chunkInfos, x, y);
      var info := chunkInfos[k];
      killed := killed + [info.layers[layer].entity];
      chunkInfos := chunkInfos[k := info.(layers := info.layers[..layer])];
    }

    /** `updateLayerHeight` as a build without assertions runs it: the layer
      * node moves to the chunk layer's height and to the chunk coordinates
      * themselves; a layer beyond the mirrored stack or the chunk's stack
      * is an access out of range, modelled as no change. */
    method UpdateLayerHeight(x: int, y: int, layer: nat) returns (u: Update)
      requires Valid()
      requires FindInfo(chunkInfos, x, y) < |chunkInfos|
      modifies this
      ensures Valid() && Coords(chunkInfos) == Coords(old(chunkInfos))
      ensures var k := FindInfo(old(chunkInfos), x, y);
        var c := old(chunkInfos)[k];
        if layer < |c.layers| && c.chunk.HaveLayer(layer) then
          && u == Applied
          && chunkInfos == old(chunkInfos)[k := c.(layers := c.layers[layer := c.layers[layer].(position := HeightMoved(x, y, c.chunk.LayerHeight(layer)))])]
        else
          u == Update.OutOfRange && chunkInfos == old(chunkInfos)
      ensures nextEntity == old(nextEntity) && killed == old(killed)
      ensures tilesDef == old(tilesDef) && defaultDef == old(defaultDef)
    {
      var k := FindInfo(chunkInfos, x, y);
      var info := chunkInfos[k];
      if layer >= |info.layers| || !info.chunk.HaveLayer(layer) {
        return Update.OutOfRange;
      }
      var l := info.layers[layer];
      var moved := l.(position := HeightMoved(x, y, info.chunk.LayerHeight(layer)));
      chunkInfos := chunkInfos[k := info.(layers := info.layers[layer := moved])];
      u := Applied;
    }

    /** The loops of `onEnable` and `onDisable`: every layer of every
      * tracked chunk is switched to e. */
    method SetEnabled(e: bool)
      requires Valid()
      modifies this
      ensures Valid() && chunkInfos == AllSwitched(old(chunkInfos), e)
      ensures nextEntity == old(nextEntity) && killed == old(killed)
      ensures tilesDef == old(tilesDef) && defaultDef == old(defaultDef)
    {
      AllSwitchedKeepsChunks(chunkInfos, e);
      for k := 0 to |chunkInfos|
        invariant |chunkInfos| == |old(chunkInfos)|
        invariant forall m :: 0 <= m < |chunkInfos| ==>
          chunkInfos[m] == if m < k then AllSwitched(old(chunkInfos), e)[m] else old(chunkInfos)[m]
        invariant nextEntity == old(nextEntity) && killed == old(killed)
        invariant tilesDef == old(tilesDef) && defaultDef == old(defaultDef)
      {
        var layers := SwitchLayers(chunkInfos[k].layers, e);
        chunkInfos := chunkInfos[k := chunkInfos[k].(layers := layers)];
      }
      assert chunkInfos == AllSwitched(old(chunkInfos), e);
    }

    /** `onEnable`: every layer entity is enabled. */
    method OnEnable()
      requires Valid()
      modifies this
      ensures Valid() && chunkInfos == AllSwitched(old(chunkInfos), true)
      ensures nextEntity == old(nextEntity) && killed == old(killed)
      ensures tilesDef == old(tilesDef) && defaultDef == old(defaultDef)
    {
      SetEnabled(true);
    }

    /** `onDisable`: every layer entity is disabled. */
    method OnDisable()
      requires Valid()
      modifies this
      ensures Valid() && chunkInfos == AllSwitched(old(chunkInfos), false)
      ensures nextEntity == old(nextEntity) && killed == old(killed)
      ensures tilesDef == old(tilesDef) && defaultDef == old(defaultDef)
    {
      SetEnabled(false);
    }

    /** `removeChunk`: the layers of the tracked chunk at `index` go from the
      * top down, their entities killed in that order, then the chunk is
      * erased; the other chunks keep their order. */
    method RemoveChunk(index: nat)
      requires Valid() && index < |chunkInfos|
      modifies this
      ensures Valid() && chunkInfos == RemoveAt(old(chunkInfos), index)
      ensures killed == old(killed) + TopDown(old(chunkInfos)[index].layers)
      ensures nextEntity == old(nextEntity) && tilesDef == old(tilesDef) && defaultDef == old(defaultDef)
    {
      RemoveAllLayers(index);
      RemoveKeepsDistinct(chunkInfos, index);
      assert RemoveAt(chunkInfos, index) == RemoveAt(old(chunkInfos), index);
      chunkInfos := RemoveAt(chunkInfos, index);
    }

    /** The loop of `removeChunk`: `removeLayer` on each layer of the chunk
      * at `index`, from the top down. */
    method RemoveAllLayers(index: nat)
      requires Valid() && index < |chunkInfos|
      modifies this
      ensures Valid() && |chunkInfos| == |old(chunkInfos)|
      ensures chunkInfos == old(chunkInfos)[index := old(chunkInfos)[index].(layers := [])]
      ensures killed == old(killed) + TopDown(old(chunkInfos)[index].layers)
      ensures nextEntity == old(nextEntity) && tilesDef == old(tilesDef) && defaultDef == old(defaultDef)
    {
      var c := chunkInfos[index];
      var size := |c.layers|;
      FindDistinct(Coords(chunkInfos), index);
      assert FindInfo(chunkInfos, c.x, c.y) == index;
      assert c.(layers := c.layers[..size]) == c;
      assert chunkInfos == chunkInfos[index := c];
      ghost var order := TopDown(c.layers);
      for i := 0 to size
        invariant Valid() && Coords(chunkInfos) == Coords(old(chunkInfos))
        invariant chunkInfos == old(chunkInfos)[index := c.(layers := c.layers[..size - i])]
        invariant killed == old(killed) + order[..i]
        invariant nextEntity == old(nextEntity) && tilesDef == old(tilesDef) && defaultDef == old(defaultDef)
      {
        assert FindInfo(chunkInfos, c.x, c.y) == index;
        assert c.layers[..size - i][..size - i - 1] == c.layers[..size - i - 1];
        ghost var before := chunkInfos;
        RemoveLayer(c.x, c.y, size - i - 1);
        assert chunkInfos == before[index := c.(layers := c.layers[..size - i - 1])];
        assert before[index := c.(layers := c.layers[..size - i - 1])]
            == old(chunkInfos)[index := c.(layers := c.layers[..size - i - 1])];
        assert order[i] == c.layers[size - i - 1].entity;
        assert order[..i + 1] == order[..i] + [order[i]];
      }
      assert order[..size] == order;
    }

    /** `onLayerUpdate`: a change to a layer of a tracked chunk is mirrored
      * (added, removed or moved); an untracked chunk is ignored. What the
      * source asserts about the layer index is the notifier's obligation. */
    method OnLayerUpdate(x: int, y: int, layer: nat, state: ChangeState) returns (u: Update)
      requires Valid() && Ready()
      requires var k := FindInfo(chunkInfos, x, y);
        k < |chunkInfos| ==>
          && (state == Added ==> |chunkInfos[k].layers| == layer && chunkInfos[k].chunk.HaveLayer(layer))
          && (state == Removed ==> |chunkInfos[k].layers| == layer + 1)
      modifies this
      ensures Valid() && Ready() && Coords(chunkInfos) == Coords(old(chunkInfos))
      ensures GridOk(world.View(), world.width, world.height)
      ensures u == Untracked <==> (x, y) !in Coords(old(chunkInfos))
      ensures u == Untracked ==> chunkInfos == old(chunkInfos) && nextEntity == old(nextEntity) && killed == old(killed)
      ensures var k := FindInfo(old(chunkInfos), x, y);
        k < |old(chunkInfos)| && state == Added ==>
          && u == Applied && |chunkInfos[k].layers| == layer + 1
          && chunkInfos[k].layers[..layer] == old(chunkInfos)[k].layers
          && NewLayer(chunkInfos[k].layers[layer], old(nextEntity), world.View(), world.width, world.height, x, y, layer,
                      chunkInfos[k].chunk.LayerHeight(layer))
      ensures var k := FindInfo(old(chunkInfos), x, y);
        k < |old(chunkInfos)| && state == Removed ==>
          && u == Applied && chunkInfos[k].layers == old(chunkInfos)[k].layers[..layer]
          && killed == old(killed) + [old(chunkInfos)[k].layers[layer].entity]
      ensures var k := FindInfo(old(chunkInfos), x, y);
        k < |old(chunkInfos)| && state == HeightChanged ==>
          (u == Applied <==> layer < |old(chunkInfos)[k].layers| && old(chunkInfos)[k].chunk.HaveLayer(layer))
      ensures tilesDef == old(tilesDef) && defaultDef == old(defaultDef)
    {
      var k := FindInfo(chunkInfos, x, y);
      if k == |chunkInfos| {
        return Untracked;
      }
      assert GridOk(world.View(), world.width, world.height);
      match state {
        case Added =>
          AddNewLayer(x, y, layer);
          u := Applied;
        case Removed =>
          RemoveLayer(x, y, layer);
          u := Applied;
        case HeightChanged =>
          u := UpdateLayerHeight(x, y, layer);
      }
    }

    /** `onTileUpdate` as a build without assertions runs it: for a tracked
      * chunk and a mirrored layer, a position outside the 32×32 map redraws
      * the whole layer and a position inside it redraws that one cell; a
      * layer beyond the mirrored stack is an access out of range, modelled
      * as no change. */
    method OnTileUpdate(x: int, y: int, layer: nat, tx: nat, ty: nat) returns (u: Update)
      requires Valid() && Ready()
      modifies this
      ensures Valid() && Ready() && Coords(chunkInfos) == Coords(old(chunkInfos))
      ensures GridOk(world.View(), world.width, world.height)
      ensures var k := FindInfo(old(chunkInfos), x, y);
        if k == |old(chunkInfos)| then u == Untracked && chunkInfos == old(chunkInfos)
        else if layer >= |old(chunkInfos)[k].layers| then u == Update.OutOfRange && chunkInfos == old(chunkInfos)
        else
          && u == Applied && |chunkInfos| == |old(chunkInfos)| && layer < |chunkInfos[k].layers|
          && chunkInfos == WithCells(old(chunkInfos), k, layer, chunkInfos[k].layers[layer].cells)
          && Redrawn(world.View(), world.width, world.height, x, y, layer, tx, ty,
                     old(chunkInfos)[k].layers[layer].cells, chunkInfos[k].layers[layer].cells)
      ensures nextEntity == old(nextEntity) && killed == old(killed)
      ensures tilesDef == old(tilesDef) && defaultDef == old(defaultDef)
    {
      var k := FindInfo(chunkInfos, x, y);
      if k == |chunkInfos| {
        return Untracked;
      }
      var info := chunkInfos[k];
      if layer >= |info.layers| {
        return Update.OutOfRange;
      }
      var cells := Redraw(info.layers[layer].cells, x, y, layer, tx, ty);
      StoreCells(k, layer, cells);
      u := Applied;
    }

    /** Stores the redrawn cells of layer `layer` of the tracked chunk `k`. */
    method StoreCells(k: nat, layer: nat, cells: seq<Tile>)
      requires Valid() && Ready() && k < |chunkInfos| && layer < |chunkInfos[k].layers| && |cells| == CellCount
      modifies this
      ensures Valid() && Ready() && world.View() == old(world.View())
      ensures chunkInfos == WithCells(old(chunkInfos), k, layer, cells)
      ensures Coords(chunkInfos) == Coords(old(chunkInfos))
      ensures nextEntity == old(nextEntity) && killed == old(killed)
      ensures tilesDef == old(tilesDef) && defaultDef == old(defaultDef)
    {
      var info := chunkInfos[k];
      ReplaceLayers(world, chunkInfos, k, info.layers[layer := info.layers[layer].(cells := cells)]);
      chunkInfos := WithCells(chunkInfos, k, layer, cells);
    }

    /** The drawing step of `onTileUpdate` for the map of layer `layer` of
      * chunk (x, y): the whole layer when (tx, ty) is outside the map, the
      * one cell otherwise. */
    method Redraw(cells: seq<Tile>, x: int, y: int, layer: nat, tx: nat, ty: nat) returns (drawn: seq<Tile>)
      requires Valid() && Ready() && ChunkInRange(x) && ChunkInRange(y) && |cells| == CellCount
      ensures GridOk(world.View(), world.width, world.height) && |drawn| == CellCount
      ensures Redrawn(world.View(), world.width, world.height, x, y, layer, tx, ty, cells, drawn)
    {
      if tx >= ChunkSize || ty >= ChunkSize {
        ChunkOrigin(x, 0);
        ChunkOrigin(y, 0);
        drawn := DrawLayer(cells, ChunkSize * x, ChunkSize * y, layer);
      } else {
        ChunkOrigin(x, tx - 1);
        ChunkOrigin(x, tx);
        ChunkOrigin(x, tx + 1);
        ChunkOrigin(y, ty - 1);
        ChunkOrigin(y, ty);
        ChunkOrigin(y, ty + 1);
        drawn := DrawTile(cells, ChunkSize * x, ChunkSize * y, tx, ty, layer);
      }
    }

    /** `onCenterViewUpdate`: afterwards exactly the chunks in view around
      * (x, y) are tracked. The chunks tracked before and still in view stay
      * first, in their order, with their mirrors as they were; the chunks
      * of the view not tracked before follow, in view order, each the grid
      * chunk at its coordinates with every layer mirrored and new entities
      * counted on; the entities of the chunks out of view are killed. */
    method OnCenterViewUpdate(x: int, y: int)
      requires Valid() && Ready() && ViewInRange(x, y, viewSize)
      modifies this
      ensures Valid() && Ready()
      ensures forall c :: c in Coords(chunkInfos) <==> c in ViewChunks(x, y, viewSize)
      ensures forall k :: 0 <= k < |old(chunkInfos)| && Coords(old(chunkInfos))[k] in ViewChunks(x, y, viewSize) ==>
        old(chunkInfos)[k] in chunkInfos
      ensures ViewFollowed(world, old(chunkInfos), chunkInfos, old(nextEntity), nextEntity, old(world.View()),
                           world.width, world.height, ViewChunks(x, y, viewSize))
      ensures killed == old(killed) + StaleEntities(old(chunkInfos), ViewChunks(x, y, viewSize))
      ensures tilesDef == old(tilesDef) && defaultDef == old(defaultDef)
    {
      var view := GetViewChunks(x, y, viewSize);
      ViewChunksInRange(x, y, viewSize);
      WorldMap.Framed(world);
      ghost var o, e0, vs := chunkInfos, nextEntity, world.View();
      AddMissing(view);
      ghost var mid, e1 := chunkInfos, nextEntity;
      RemoveStale(view);
      WorldMap.Framed(world);
      Followed(world, o, mid, chunkInfos, e0, e1, vs, world.width, world.height, view);
    }

    /** The first loop of `onCenterViewUpdate`: each chunk in view that is
      * not tracked yet is added, in view order, after the tracked ones. */
    method AddMissing(view: seq<(int, int)>)
      requires Valid() && Ready() && Distinct(view)
      requires forall c :: c in view ==> ChunkInRange(c.0) && ChunkInRange(c.1)
      modifies this
      ensures Valid() && Ready()
      ensures forall c :: c in Coords(chunkInfos) <==> c in Coords(old(chunkInfos)) || c in view
      ensures MissingAppended(world, old(chunkInfos), chunkInfos, old(nextEntity), nextEntity, old(world.View()),
                              world.width, world.height, view)
      ensures killed == old(killed) && tilesDef == old(tilesDef) && defaultDef == old(defaultDef)
    {
      ghost var o, vs := chunkInfos, world.View();
      ghost var added: seq<ChunkInfo> := [];
      assert o + added == o;
      for i := 0 to |view|
        invariant Valid() && Ready() && world.View() == vs && GridOk(vs, world.width, world.height)
        invariant chunkInfos == o + added && Coords(added) == Missing(view[..i], Coords(o))
        invariant AddedChunks(world, added, old(nextEntity), vs, world.width, world.height)
        invariant nextEntity == old(nextEntity) + LayerTotal(added)
        invariant killed == old(killed) && tilesDef == old(tilesDef) && defaultDef == old(defaultDef)
      {
        added := AddIfMissing(view, i, o, added, vs, old(nextEntity));
      }
      assert view[..|view|] == view;
      MissingContents(view, Coords(o));
      CoordsConcat(o, added);
      assert chunkInfos[..|o|] == o && chunkInfos[|o|..] == added;
    }

    /** One pass of the first loop of `onCenterViewUpdate`: chunk view[i]
      * is added when it is not tracked yet. */
    method AddIfMissing(view: seq<(int, int)>, i: nat, ghost o: seq<ChunkInfo>, ghost added: seq<ChunkInfo>,
                        ghost vs: seq<ChunkView>, ghost e0: nat)
      returns (ghost more: seq<ChunkInfo>)
      requires Valid() && Ready() && world.View() == vs && GridOk(vs, world.width, world.height)
      requires i < |view| && Distinct(view) && ChunkInRange(view[i].0) && ChunkInRange(view[i].1)
      requires chunkInfos == o + added && Coords(added) == Missing(view[..i], Coords(o))
      requires AddedChunks(world, added, e0, vs, world.width, world.height)
      requires nextEntity == e0 + LayerTotal(added)
      modifies this
      ensures Valid() && Ready() && world.View() == vs && GridOk(vs, world.width, world.height)
      ensures chunkInfos == o + more && Coords(more) == Missing(view[..i + 1], Coords(o))
      ensures AddedChunks(world, more, e0, vs, world.width, world.height)
      ensures nextEntity == e0 + LayerTotal(more)
      ensures killed == old(killed) && tilesDef == old(tilesDef) && defaultDef == old(defaultDef)
    {
      more := added;
      var c := view[i];
      CoordsConcat(o, added);
      MissingStep(view, Coords(o), i, Coords(chunkInfos));
      if FindInfo(chunkInfos, c.0, c.1) == |chunkInfos| {
        assert c !in Coords(chunkInfos);
        more := AddChunkAfter(c, o, added, vs, e0);
      } else {
        assert c in Coords(chunkInfos);
      }
    }

    /** `addNewChunk` of chunk c, not tracked yet, after the chunks o +
      * added. */
    method AddChunkAfter(c: (int, int), ghost o: seq<ChunkInfo>, ghost added: seq<ChunkInfo>,
                         ghost vs: seq<ChunkView>, ghost e0: nat)
      returns (ghost more: seq<ChunkInfo>)
      requires Valid() && Ready() && world.View() == vs && GridOk(vs, world.width, world.height)
      requires ChunkInRange(c.0) && ChunkInRange(c.1) && c !in Coords(chunkInfos)
      requires chunkInfos == o + added
      requires AddedChunks(world, added, e0, vs, world.width, world.height)
      requires nextEntity == e0 + LayerTotal(added)
      modifies this
      ensures Valid() && Ready() && world.View() == vs
      ensures chunkInfos == o + more && Coords(more) == Coords(added) + [c]
      ensures AddedChunks(world, more, e0, vs, world.width, world.height)
      ensures nextEntity == e0 + LayerTotal(more)
      ensures killed == old(killed) && tilesDef == old(tilesDef) && defaultDef == old(defaultDef)
    {
      ghost var before := chunkInfos;
      AddNewChunk(c.0, c.1);
      WorldMap.Framed(world);
      ghost var nc := chunkInfos[|before|];
      assert (nc.x, nc.y) == Coords(chunkInfos)[|before|] == c;
      AppendedTo(o, added, chunkInfos);
      AddedStep(world, added, nc, e0, vs, world.width, world.height);
      CoordsConcat(added, [nc]);
      assert Coords([nc]) == [c];
      more := added + [nc];
    }

    /** The second loop of `onCenterViewUpdate`: each tracked chunk out of
      * view is removed and its entities killed; the index stays put after
      * a removal (the source's unsigned decrement and increment cancel out). */
    method RemoveStale(view: seq<(int, int)>)
      requires Valid()
      modifies this
      ensures Valid()
      ensures chunkInfos == KeptInView(old(chunkInfos), view)
      ensures forall c :: c in Coords(chunkInfos) <==> c in Coords(old(chunkInfos)) && c in view
      ensures forall k :: 0 <= k < |old(chunkInfos)| && Coords(old(chunkInfos))[k] in view ==>
        old(chunkInfos)[k] in chunkInfos
      ensures killed == old(killed) + StaleEntities(old(chunkInfos), view)
      ensures nextEntity == old(nextEntity) && tilesDef == old(tilesDef) && defaultDef == old(defaultDef)
    {
      ghost var o := chunkInfos;
      ghost var j := 0;
      assert o[..0] == [] && o[0..] == o;
      var i := 0;
      while i < |chunkInfos|
        invariant Valid() && j <= |o|
        invariant chunkInfos == KeptInView(o[..j], view) + o[j..] && i == |KeptInView(o[..j], view)|
        invariant killed == old(killed) + StaleEntities(o[..j], view)
        invariant nextEntity == old(nextEntity) && tilesDef == old(tilesDef) && defaultDef == old(defaultDef)
        decreases |o| - j
      {
        i := DropIfStale(view, i, o, j, old(killed));
        j := j + 1;
      }
      KeptEnd(o, view, j, chunkInfos);
      KeptContents(o, view);
    }

    /** One pass of the second loop of `onCenterViewUpdate`: the chunk at
      * i, the j-th of o, is removed when out of view. */
    method DropIfStale(view: seq<(int, int)>, i: nat, ghost o: seq<ChunkInfo>, ghost j: nat, ghost k0: seq<nat>)
      returns (next: nat)
      requires Valid() && j < |o|
      requires chunkInfos == KeptInView(o[..j], view) + o[j..] && i == |KeptInView(o[..j], view)|
      requires killed == k0 + StaleEntities(o[..j], view)
      modifies this
      ensures Valid()
      ensures chunkInfos == KeptInView(o[..j + 1], view) + o[j + 1..] && next == |KeptInView(o[..j + 1], view)|
      ensures killed == k0 + StaleEntities(o[..j + 1], view)
      ensures nextEntity == old(nextEntity) && tilesDef == old(tilesDef) && defaultDef == old(defaultDef)
    {
      KeptStep(o, view, j, k0);
      var c := chunkInfos[i];
      if (c.x, c.y) !in view {
        RemoveChunk(i);
        next := i;
      } else {
        next := i + 1;
      }
    }
  }
}
