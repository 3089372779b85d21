# Tellustris core, modelled in Dafny

Tellustris is a 2D tile game engine written in C++. Its world is an
unbounded grid of 32x32 chunks. Each chunk stacks tilemap layers of tiles.
A tile carries a material id and a collider packed into 32 bits. Around
this grid sit several subsystems:

- autotiling, which picks a tile shape from a cell's eight neighbours;
- renderers, which stream chunks in and out as the view moves;
- collision builders, which merge full tiles into boxes;
- a collision-layer table;
- animation registries;
- an arithmetic expression tree with named parameters;
- event subscriptions;
- a behaviour component;
- a deterministic hash used as a random source.

This project models that core in Dafny 4.11 and proves the properties its
code promises. It follows the form of the source: pure code becomes
datatypes, functions and lemmas, and objects that change state become
classes with `modifies` frames. Every loop method is proved against a
specification function.

| file | module | models |
|---|---|---|
| wrappers.dfy | Wrappers | `Option` |
| sequences.dfy | Sequences | distinctness and removal at an index, shared by the registries |
| tiles.dfy | Tiles | `Tile`, `TileCollider`, the 32-bit packing `toInt`/`fromInt` and the collision tests |
| matrix.dfy | Matrices | `Matrix<T>` (resizable, row-major) and `FixedMatrix<T>` (over an array) |
| tilemap.dfy | Tilemaps | `Tilemap<T>`: a matrix of tiles with tile size and delta, and its modification events |
| chunk.dfy | Chunks | `Chunk`: the layer stack, its per-layer tile counts, growth and the popping of empty top layers |
| world_coords.dfy | WorldCoords | the integer conversions between world, chunk and tile positions, with C++'s truncating `/` and `%` |
| world.dfy | Worlds | `WorldMap`: the chunk grid, `getTile`, `setTile` and the clipped rectangle copy `getTiles` |
| tile_connexion.dfy | TileConnexion | the classification of a 3x3 neighbourhood into a connexion shape |
| tile_definition.dfy | TileDefinitions | `TileDefinition`: materials, textures per shape, allowed layers and the weighted tile choice |
| ground_render.dfy | GroundRender | the per-cell material and neighbourhood decisions of the chunk ground renderer and its border updates |
| world_render.dfy | WorldRender | `WorldRenderBehaviour`: the view rectangle, the chunk entries and their layers, and `drawLayer` |
| world_render2.dfy | WorldRender2 | `WorldRenderBehaviour2`: chunks streamed in and out as the view centre moves |
| collision_definition.dfy | CollisionDefinitions | the table of 32 collision layers, their contacts and the three masks |
| tilemap_collider.dfy | TilemapColliders | `TilemapCollider`: tile id to collider layer, with its events |
| tilemap_collider_component.dfy | TilemapColliderComponents | the merging of full tiles into disjoint boxes and the per-layer rebuild |
| chunk_collision.dfy | ChunkCollisions | `ChunkCollisionBehaviour`: the same merge over a chunk's layers, boxes included |
| animation.dfy | Animations | `Animation`: frames, `duration` and `bounds` |
| animator.dfy | Animators | `Animator`: named states, transitions and their renumbering on removal |
| tilemap_animations.dfy | TilemapAnimation | `TilemapAnimations`: one animation per tile id, swap-remove and frame time |
| animator_component.dfy | AnimatorComponents | `AnimatorComponent`: the named properties and the attached sprites |
| expression_value.dfy | ExpressionValues | the expression nodes, their values and their text |
| expression.dfy | Expressions | `Expression`: a tree with registered named parameters |
| events.dfy | Events | `EventsHolder` and `EventsImpl`: connections, blocking, disconnection and moves |
| behaviour_component.dfy | BehaviourComponents | `BehaviourComponent`: attached behaviours, their indices and the lifecycle hooks they receive |
| random_hash.dfy | RandomHashes | `RandomHash`: the 64-bit finaliser and how a seed and arguments are chained |

Renderer, physics and entity calls are opaque: the model records only
which cells or entities are enabled, which boxes are built and which hooks
are called, in order.

## Model

| member | source | states |
|---|---|---|
| Tiles.FromInt | Tellustris/Src/Tilemap/Tile.cpp:22-29 | decoding any 32-bit value yields a collider whose fields fit their bit ranges (flags, rotation below 4, type below 2^12, layer below 2^16) |
| Tiles.ToIntIsOr | Tellustris/Src/Tilemap/Tile.cpp:8-20 | for a collider whose fields fit, adding the shifted fields never carries: the packed value is their bitwise or |
| Tiles.ToIntLayout | Tellustris/Src/Tilemap/Tile.cpp:8-20 | bit 0 holds xFlipped, bit 1 yFlipped, bits 2-3 the rotation, bits 4-15 the type and bits 16-31 the collision layer |
| Tiles.FromIntToInt | Tellustris/Src/Tilemap/Tile.cpp:8-29 | decoding the packing of a collider whose fields fit gives the collider back |
| Tiles.ToIntFromInt | Tellustris/Src/Tilemap/Tile.cpp:8-29 | packing the decoding of any 32-bit value gives the value back |
| Tiles.ToInt | Tellustris/Src/Tilemap/Tile.cpp:8-20 | whatever the other fields hold, bit 0 of the packed value is xFlipped and bit 1 is yFlipped |
| Tiles.DefaultCollider | Tellustris/Src/Tilemap/Tile.cpp:3-6 | the collider built from 0 is Empty, rotation R_0, unflipped, on layer 0 |
| Tiles.FullHasCollision | Tellustris/Src/Tilemap/Tile.cpp:31-39 | a full collider is a colliding one, and the default collider does not collide |
| Matrices.SlotInRange | Tellustris/Include/Utility/Matrix.h:22-26 | an in-range cell (x, y) addresses a slot inside the width*height storage |
| Matrices.SlotInjective | Tellustris/Include/Utility/Matrix.h:24-25 | two in-range cells with the same slot x + y*width are the same cell |
| Matrices.SlotOnto | Tellustris/Include/Utility/Matrix.h:16-26 | every slot of the storage is the slot of the in-range cell (k mod width, k div width) |
| Matrices.CellsDetermine | Tellustris/Include/Utility/Matrix.h:22-32 | two storages of the same grid that agree on every cell are equal |
| Matrices.Matrix.constructor | Tellustris/Include/Utility/Matrix.h:16-20 | the grid has the given dimensions and width*height cells, each equal to the default |
| Matrices.Matrix.Get | Tellustris/Include/Utility/Matrix.h:28-32 | requires an in-range cell (the assertion); the value at slot x + y*width, which lies inside the storage |
| Matrices.Matrix.Set | Tellustris/Include/Utility/Matrix.h:22-26 | requires x < width and y < height; writes slot x + y*width: cell (x, y) reads the new value, every other cell and both dimensions are unchanged |
| Matrices.Matrix.CopyColumn | Tellustris/Include/Utility/Matrix.h:69-70 | the inner copy loop of resize: the first h cells of column i move into the new grid, every other cell of it is kept |
| Matrices.Matrix.Resize | Tellustris/Include/Utility/Matrix.h:64-74 | the dimensions become the new ones; a cell inside both the old and new bounds keeps its value, every other cell is the default; resizing to the same dimensions changes nothing |
| Matrices.FixedMatrix.constructor | Tellustris/Include/Utility/FixedMatrix.h:16-19 | all WIDTH*HEIGHT cells hold the default |
| Matrices.FixedMatrix.Get | Tellustris/Include/Utility/FixedMatrix.h:27-31 | requires an in-range cell (the assertion); the value at slot x + y*WIDTH, which lies inside the array |
| Matrices.FixedMatrix.Set | Tellustris/Include/Utility/FixedMatrix.h:21-25 | requires x < WIDTH and y < HEIGHT; cell (x, y) reads the new value and every other cell is unchanged |
| Tilemaps.Tilemap.constructor | Tellustris/Src/Tilemap/Tilemap.cpp:3-9 | a width x height map, every cell value-initialised, with the given tile size and delta and no notification yet |
| Tilemaps.Tilemap.Width | Tellustris/Include/Tilemap/Tilemap.h:52 | the grid's width; with the height it spans the cells stored |
| Tilemaps.Tilemap.Height | Tellustris/Include/Tilemap/Tilemap.h:53 | the grid's height; with the width it spans the cells stored |
| Tilemaps.Tilemap.GetTile | Tellustris/Src/Tilemap/Tilemap.cpp:11-14 | requires an in-range cell; the cell at (x, y), stored at slot x + y*width |
| Tilemaps.Tilemap.SetTile | Tellustris/Src/Tilemap/Tilemap.cpp:16-21 | requires an in-range cell; that cell reads the value, every other cell is unchanged, and exactly one notification is logged, with the value-initialised payload (0, 0) |
| Tilemaps.Tilemap.SetTileSize | Tellustris/Src/Tilemap/Tilemap.cpp:23-30 | requires a positive size; the size is set, the delta kept, one (0, 0) notification logged |
| Tilemaps.Tilemap.SetTileDelta | Tellustris/Src/Tilemap/Tilemap.cpp:32-37 | the delta is set, the size kept, one (0, 0) notification logged |
| Chunks.TilesEqualIsBlank | Tellustris/Src/GameData/Chunk.cpp:99-107 | for a collider that fits the packed layout, a tile compares equal to the default tile exactly when its id is 0 and its collider type is Empty |
| Chunks.TilesEqualReflexiveSymmetric | Tellustris/Src/GameData/Chunk.cpp:99-107 | `tilesEqual` is reflexive and symmetric |
| Chunks.InitialView | Tellustris/Src/GameData/Chunk.cpp:6-10 | a new chunk has two layers of 32x32 cells |
| Chunks.Chunk.constructor | Tellustris/Src/GameData/Chunk.cpp:6-10 | a new chunk holds exactly the two static layers, blank, at heights 0 and 0.5, each with counter 1, and no event |
| Chunks.Chunk.GetTile | Tellustris/Src/GameData/Chunk.cpp:12-23 | the tile at (x, y) of the layer, or the default tile when the layer is at or beyond the layer count |
| Chunks.Chunk.GetMap | Tellustris/Src/GameData/Chunk.cpp:69-79 | a tilemap is returned exactly when `haveLayer` holds (layer below the count), and it is that layer's |
| Chunks.Chunk.LayerCount | Tellustris/Src/GameData/Chunk.cpp:94-97 | `haveLayer` holds exactly for the indices below the count |
| Chunks.Chunk.HaveLayer | Tellustris/Src/GameData/Chunk.cpp:76-79 | true exactly when the index is below the number of layers |
| Chunks.Chunk.SetLayerHeight | Tellustris/Src/GameData/Chunk.cpp:81-92 | requires an existing layer; only that layer's height changes and one `heightChanged` event for it is appended; `layerHeight` then reads the new height back |
| Chunks.Chunk.LayerHeight | Tellustris/Src/GameData/Chunk.cpp:88-92 | requires an existing layer (the assertion); the layer's height, the value `setLayerHeight` writes |
| Chunks.Chunk.PushBlankLayer | Tellustris/Src/GameData/Chunk.cpp:36-40 | one step of the growth loop: a blank layer at index i with height i - 1 is pushed and `added` is sent for i |
| Chunks.Chunk.GrowLayers | Tellustris/Src/GameData/Chunk.cpp:36-40 | the growth loop leaves the chunk as the growth function of the old contents describes |
| Chunks.Chunk.PopTopLayer | Tellustris/Src/GameData/Chunk.cpp:63-64 | one step of the removal loop: `removed` is sent with index size-1, then the top layer is popped |
| Chunks.Chunk.PopEmptyLayers | Tellustris/Src/GameData/Chunk.cpp:61-65 | the removal loop leaves the chunk as the removal function of the old contents describes |
| Chunks.Chunk.WriteLayerCell | Tellustris/Src/GameData/Chunk.cpp:43-45 | reports whether the old tile was blank, then writes the cell of an existing layer through its tilemap |
| Chunks.Chunk.SetCount | Tellustris/Src/GameData/Chunk.cpp:54-57 | only that layer's counter changes |
| Chunks.Chunk.StoreLayerCount | Tellustris/Src/GameData/Chunk.cpp:54-66 | stores the counter; when the layer is the top one and its counter is 0 the removal loop runs |
| Chunks.Chunk.RecountLayer | Tellustris/Src/GameData/Chunk.cpp:47-66 | the counting part of `setTile`, as the counting function describes |
| Chunks.Chunk.SetTile | Tellustris/Src/GameData/Chunk.cpp:25-67 | the new contents and the outcome (dropped, reaching the missing layer index, written) are those of the `setTile` function of the old contents, inverted emptiness flags included |
| ChunkProperties.RemovedEvents | Tellustris/Src/GameData/Chunk.cpp:61-65 | the removal loop sends one `removed` event per popped layer |
| ChunkProperties.AddedEvents | Tellustris/Src/GameData/Chunk.cpp:36-40 | the growth loop sends one `added` event per pushed layer |
| ChunkProperties.PopEmptyShape | Tellustris/Src/GameData/Chunk.cpp:59-66 | the removal loop keeps a prefix of at least the two static layers; every popped layer had counter 0; `removed` is sent for each popped index from the top down; it stops at the static layers or at a non-zero top counter |
| ChunkProperties.GrowShape | Tellustris/Src/GameData/Chunk.cpp:36-40 | the growth loop keeps the existing layers and appends blank layers up to `layer` of them (index i at height i - 1, counter 0) with `added` in increasing order; it never creates index `layer` itself |
| ChunkProperties.WriteAtGet | Tellustris/Src/GameData/Chunk.cpp:43-45 | writing a cell changes that cell of that layer and nothing else: other cells, layers, counters, heights and events stay |
| ChunkProperties.StaticLayerWrite | Tellustris/Src/GameData/Chunk.cpp:45-49 | a write to layer 0 or 1 stores the tile and keeps every counter, height, the layer count and the events |
| ChunkProperties.SameBlanknessNotCounted | Tellustris/Src/GameData/Chunk.cpp:51-52 | when the old and the new tile are equally blank the write is not counted and no layer is removed |
| ChunkProperties.MissingLayerNeverWritten | Tellustris/Src/GameData/Chunk.cpp:30-43 | a write beyond the stack is never stored: a non-blank tile is dropped with no change; a blank one grows the stack to exactly `layer` layers, so the index read next is still missing |
| ChunkProperties.NonBlankWriteCanRemoveItsLayer | Tellustris/Src/GameData/Chunk.cpp:30-66 | with the inverted flags, writing a non-blank tile over a blank cell of a dynamic top layer with counter 1 brings the counter to 0 and removes the layer, losing the tile |
| ChunkProperties.RecountKeepsCells | Tellustris/Src/GameData/Chunk.cpp:47-66 | the counting step keeps a prefix of the stack with the same cells |
| ChunkProperties.SetThenGet | Tellustris/Src/GameData/Chunk.cpp:12-67 | after a write, a read of the same cell gives the tile back whenever the layer still exists |
| ChunkProperties.SetKeepsOtherCells | Tellustris/Src/GameData/Chunk.cpp:12-67 | a write leaves every other cell of every layer that still exists as it was; layers it created read as the default tile |
| Chunks.BlankLayer | Tellustris/Src/GameData/Chunk.cpp:36-40 | a layer the chunk creates holds a full 32 by 32 grid |
| Chunks.Grow | Tellustris/Src/GameData/Chunk.cpp:36-40 | pushing layers up to the one written keeps every layer a full grid and the static layers present |
| Chunks.PopEmpty | Tellustris/Src/GameData/Chunk.cpp:59-66 | popping empty top layers never removes a static layer and keeps every layer a full grid |
| Chunks.WriteCell | Tellustris/Src/GameData/Chunk.cpp:43-45 | writing one cell keeps the layer a full grid |
| Chunks.WriteAt | Tellustris/Src/GameData/Chunk.cpp:43-45 | writing one cell of an existing layer keeps the chunk well formed |
| Chunks.Recount | Tellustris/Src/GameData/Chunk.cpp:47-66 | the counting after a write keeps the chunk well formed |
| Chunks.StoreCount | Tellustris/Src/GameData/Chunk.cpp:54-66 | storing a counter, and the pops it may start, keep the chunk well formed |
| WorldCoords.CModNegative | Tellustris/Src/GameData/WorldMap.cpp:158-172 | C++'s truncating `%` on a non-positive dividend lies in (-b, 0] and is the Euclidean remainder shifted down by b unless it is 0 |
| WorldCoords.PosToWorldChunkIsFloor | Tellustris/Src/GameData/WorldMap.cpp:156-162 | the biased truncating division gives floor(x / 32) for every `int`, negative ones included |
| WorldCoords.PosToTileIsMod | Tellustris/Src/GameData/WorldMap.cpp:131-139 | the tile position inside the chunk is x mod 32, in [0, 32) |
| WorldCoords.WorldToLocalIsMod | Tellustris/Src/GameData/WorldMap.cpp:169-180 | both branches of `worldToLocalChunkPos` give the Euclidean x mod size, in [0, size), for negative x too |
| WorldCoords.WorldToLocalPeriodic | Tellustris/Src/GameData/WorldMap.cpp:169-180 | positions a whole number of grid widths apart wrap to the same chunk of the grid |
| WorldCoords.ToUnsigned | Tellustris/Src/GameData/WorldMap.cpp:187-190 | the conversion of an `int` to `unsigned int` gives a value in [0, 2^32) |
| WorldCoords.ToSigned | Tellustris/Src/GameData/WorldMap.cpp:187-190 | the conversion of an `unsigned int` back to `int` gives a value in the `int` range |
| WorldCoords.TilePosToPos | Tellustris/Src/GameData/WorldMap.cpp:187-190 | `tilePosToPos` on one axis, computed modulo 2^32, always gives an `int` |
| WorldCoords.TilePosToPosExact | Tellustris/Src/GameData/WorldMap.cpp:187-190 | with a tile below 32, a chunk given as a converted `int` and a result that fits an `int`, `tilePosToPos` is exactly tile + 32 chunk |
| WorldCoords.TilePosToPosRoundTrip | Tellustris/Src/GameData/WorldMap.cpp:131-190 | `tilePosToPos(posToTilePos(x), posToWorldChunkPos(x)) == x` for every convertible x |
| WorldCoords.LocateAxis | Tellustris/Src/GameData/WorldMap.cpp:121-139 | `posToChunkPos` gives floor(x / 32) mod size and `posToTilePos` gives x mod 32 |
| WorldCoords.ChunkIndex | Tellustris/Src/GameData/WorldMap.cpp:202-207 | under the assertion x < width and y < height, the row-major index is below width * height |
| Worlds.WorldSlot | Tellustris/Src/GameData/WorldMap.cpp:202-207 | the chunk of the grid that holds a world tile is a valid index of the grid |
| Worlds.WorldSet | Tellustris/Src/GameData/WorldMap.cpp:36-42 | a world write keeps the number of chunks and every chunk well formed |
| Worlds.SplitMod | Tellustris/Src/GameData/WorldMap.cpp:121-139 | x mod (32 size) splits into the chunk of the grid times 32 plus the tile inside it |
| Worlds.SameCellIffSameSlot | Tellustris/Src/GameData/WorldMap.cpp:30-41 | two world positions name the same cell exactly when they have the same chunk of the grid and the same tile inside it |
| Worlds.WorldTilePeriodic | Tellustris/Src/GameData/WorldMap.cpp:28-180 | the world wraps around: positions a whole world apart read the same tile |
| Worlds.WorldSetThenGet | Tellustris/Src/GameData/WorldMap.cpp:28-42 | after a write, a read at any position naming the same cell gives the tile back whenever the layer still exists |
| Worlds.WorldSetKeepsOthers | Tellustris/Src/GameData/WorldMap.cpp:28-42 | a write leaves every other cell and every other layer that still exists as it was |
| Worlds.AxisClip | Tellustris/Src/GameData/WorldMap.cpp:58-83 | for each world chunk the read touches, the clip lies inside the chunk and inside the output, and the unsigned arithmetic does not wrap |
| Worlds.AxisClipMember | Tellustris/Src/GameData/WorldMap.cpp:58-89 | the clip selects exactly the output positions whose world tile lies in that chunk |
| Worlds.PartCell | Tellustris/Src/GameData/WorldMap.cpp:54-89 | an output cell is written for chunk (i, j) exactly when it lies in that world chunk, and what is written is the world tile at that position |
| Worlds.ChunkCell | Tellustris/Src/GameData/WorldMap.cpp:16-34 | the tile at offset (a, b) of world chunk (i, j) is read from the grid chunk that (i, j) wraps to |
| Worlds.InChunk | Tellustris/Src/GameData/WorldMap.cpp:156-162 | a position 32 i + a with a below 32 lies in world chunk i at offset a |
| Worlds.WorldMap.constructor | Tellustris/Src/GameData/WorldMap.cpp:5-14 | the grid has the given width and height and every chunk is new, with the initial contents of a chunk |
| Worlds.WorldMap.GetChunk | Tellustris/Src/GameData/WorldMap.cpp:16-26 | the chunk at a world chunk position is the one at its Euclidean remainders by the grid size |
| Worlds.WorldMap.ChunkOf | Tellustris/Src/GameData/WorldMap.cpp:121-207 | the chunk holding a world position is the grid slot of that position |
| Worlds.WorldMap.GetTile | Tellustris/Src/GameData/WorldMap.cpp:28-34 | the tile read is the world tile of the grid's contents at that position |
| Worlds.WorldMap.WriteChunk | Tellustris/Src/GameData/WorldMap.cpp:41 | a write through one chunk changes that chunk as the chunk's `setTile` does and leaves the others alone |
| Worlds.WorldMap.SetTile | Tellustris/Src/GameData/WorldMap.cpp:36-42 | the new contents of the grid are the world write of the old contents |
| Worlds.WorldMap.CopyChunkPart | Tellustris/Src/GameData/WorldMap.cpp:58-89 | one iteration of the chunk loops: the output cells lying in world chunk (i, j) receive the world tile and every other cell keeps its value |
| Worlds.WorldMap.CopyRect | Tellustris/Src/GameData/WorldMap.cpp:87-89 | the copy loops move an nx x ny block of a chunk layer to the output at the given offset and touch no other cell |
| Worlds.WorldMap.GetTiles | Tellustris/Src/GameData/WorldMap.cpp:44-94 | every cell (k, l) of the w x h result is the world tile at (x + k, y + l), across chunk borders and negative positions |
| TileConnexion.NeighboursOf | Tellustris/Src/GameData/TileConnexionType.cpp:10-17 | the four sides and four corners are read from the cells of the 3x3 matrix around the centre, column first |
| TileConnexion.LocalMatrixToConnexion | Tellustris/Src/GameData/TileConnexionType.cpp:6-126 | the centre cell must be set (the assertion); the shape is the classification of the eight neighbours |
| TileConnexion.ClassifyPattern | Tellustris/Src/GameData/TileConnexionType.cpp:19-125 | the shape chosen names exactly the open sides and the open visible corners of the neighbourhood |
| TileConnexion.PatternClassify | Tellustris/Src/GameData/TileConnexionType.cpp:19-125 | each of the 47 shapes is chosen for its own pattern, which is canonical |
| TileConnexion.PatternInjective | Tellustris/Src/GameData/TileConnexionType.cpp:19-125 | distinct shapes stand for distinct neighbourhood patterns |
| TileConnexion.SameShapeIffSameCanonical | Tellustris/Src/GameData/TileConnexionType.cpp:19-125 | two neighbourhoods get the same shape exactly when they agree on the sides and on the corners between two connected sides |
| TileConnexion.OnlyNeighboursMatter | Tellustris/Src/GameData/TileConnexionType.cpp:8-17 | two matrices with the same eight neighbours give the same shape |
| TileConnexion.NoSideIsFull | Tellustris/Src/GameData/TileConnexionType.cpp:19-21 | with no connected side the shape is `Full`, whatever the corners |
| TileConnexion.AllConnectedIsEmpty | Tellustris/Src/GameData/TileConnexionType.cpp:124-125 | with all eight neighbours connected the shape is `Empty` |
| TileConnexion.ThreeOpenSides | Tellustris/Src/GameData/TileConnexionType.cpp:22-30 | exactly one connected side gives the matching three-open-sides shape |
| TileConnexion.StraightPieces | Tellustris/Src/GameData/TileConnexionType.cpp:31-35 | two opposite connected sides give `Vertical` or `Horizontal` |
| TileConnexion.LeftOpenUsesRightCorners | Tellustris/Src/GameData/TileConnexionType.cpp:55-82 | with only the left side open the shape depends on the two right corners alone |
| TileConnexion.ClosedSidesUseCorners | Tellustris/Src/GameData/TileConnexionType.cpp:89-125 | with all sides connected, two neighbourhoods get the same shape exactly when their corners agree |
| TileConnexion.OpenCornersIsQuad | Tellustris/Src/GameData/TileConnexionType.cpp:89-91 | all sides connected and no corner connected gives `QuadCorners` |
| TileDefinitions.ConnexionIndex | Tellustris/Include/GameData/TileDefinition.h:34 | every shape has a slot below the number of shapes |
| TileDefinitions.BlankMaterial | Tellustris/Src/GameData/TileDefinition.cpp:54-55 | a value-initialised material has an empty list for every shape and no allowed layer |
| TileDefinitions.IndexOf | Tellustris/Src/GameData/TileDefinition.cpp:6-38 | `std::find`: the first position holding the element, or the length when there is none |
| TileDefinitions.FindPair | Tellustris/Src/GameData/TileDefinition.cpp:58 | the `find_if` of `addTile`: the first entry with the same texture and tile, or the length |
| TileDefinitions.UpsertProperties | Tellustris/Src/GameData/TileDefinition.cpp:57-62 | after the upsert the definition is in the slot exactly once, entries with other keys are kept in place, the slot grows by at most one entry and keys stay unique |
| TileDefinitions.Grown | Tellustris/Src/GameData/TileDefinition.cpp:54-80 | the growth loop yields max(count, id + 1) materials: the old ones, then blank ones |
| TileDefinitions.AddTileSpec | Tellustris/Src/GameData/TileDefinition.cpp:52-63 | `addTile` keeps every material well formed, never shrinks the list and makes material `id` exist |
| TileDefinitions.GrownReadsAlike | Tellustris/Src/GameData/TileDefinition.cpp:54-75 | growing the list changes no answer of `getTile`, since a new material reads like an unknown one |
| TileDefinitions.AddTileThenGet | Tellustris/Src/GameData/TileDefinition.cpp:52-75 | after `addTile`, `getTile` of that material and shape gives the upsert of what it gave before, and every other material and shape reads as before |
| TileDefinitions.AddTileKeepsUnique | Tellustris/Src/GameData/TileDefinition.cpp:52-63 | `addTile` keeps the (texture, tile) keys of every slot unique |
| TileDefinitions.AddAllowedSpec | Tellustris/Src/GameData/TileDefinition.cpp:77-83 | `addAllowedLayers` keeps every material well formed and makes material `id` exist |
| TileDefinitions.AddAllowedThenAllowed | Tellustris/Src/GameData/TileDefinition.cpp:77-123 | after `addAllowedLayers`, a material is allowed on a layer exactly when it was before or it is that material and the new range contains the layer |
| TileDefinitions.NoteEntriesContents | Tellustris/Src/GameData/TileDefinition.cpp:103-109 | scanning one slot lists a texture exactly when it was already listed or a real tile of the slot uses it; nothing is listed twice and the earlier entries stay first |
| TileDefinitions.NoteSlotsContents | Tellustris/Src/GameData/TileDefinition.cpp:100-110 | the textures of a material are exactly those of its tiles with a non-zero id, each listed once |
| TileDefinitions.TileDefinition.constructor | Tellustris/Include/GameData/TileDefinition.h:38-70 | a new definition has no texture and no material |
| TileDefinitions.TileDefinition.AddTexture | Tellustris/Src/GameData/TileDefinition.cpp:4-11 | a listed texture gives its first index and changes nothing; a new one is appended and its index is the old length; in both cases the index holds the texture |
| TileDefinitions.TileDefinition.HaveTexture | Tellustris/Src/GameData/TileDefinition.cpp:30-33 | true exactly when the texture is listed |
| TileDefinitions.TileDefinition.TextureIndex | Tellustris/Src/GameData/TileDefinition.cpp:35-39 | requires the texture to be listed (the assertion); gives its first position |
| TileDefinitions.TileDefinition.GetTexture | Tellustris/Src/GameData/TileDefinition.cpp:41-45 | requires a listed position (the assertion); the texture there is listed and first appears at or before that position |
| TileDefinitions.TileDefinition.TextureCount | Tellustris/Src/GameData/TileDefinition.cpp:47-50 | every listed texture's index lies below the count |
| TileDefinitions.TileDefinition.MaterialCount | Tellustris/Src/GameData/TileDefinition.cpp:85-88 | a material id at or past the count has no tile in any shape slot |
| TileDefinitions.TileDefinition.RemoveTextureAt | Tellustris/Src/GameData/TileDefinition.cpp:18-23 | requires a valid index (the assertion); erases that entry and keeps the order of the others |
| TileDefinitions.TileDefinition.RemoveTexture | Tellustris/Src/GameData/TileDefinition.cpp:13-16 | erases the first occurrence of a listed texture; the list shrinks by one |
| TileDefinitions.TileDefinition.RemoveAllTexture | Tellustris/Src/GameData/TileDefinition.cpp:25-28 | empties the texture list and keeps the materials |
| TileDefinitions.TileDefinition.GrowMaterials | Tellustris/Src/GameData/TileDefinition.cpp:54-55 | the growth loop leaves the list as the growth function describes |
| TileDefinitions.TileDefinition.AddTile | Tellustris/Src/GameData/TileDefinition.cpp:52-63 | the new materials are `addTile` of the old ones; textures are kept |
| TileDefinitions.TileDefinition.AddTileFields | Tellustris/Src/GameData/TileDefinition.cpp:65-68 | the same as `addTile` with the definition built from the fields; the texture defaults to 0 and the weight to 1 |
| TileDefinitions.TileDefinition.GetTile | Tellustris/Src/GameData/TileDefinition.cpp:70-75 | an unknown material gives the empty list; a known one gives the list of that shape |
| TileDefinitions.TileDefinition.AddAllowedLayers | Tellustris/Src/GameData/TileDefinition.cpp:77-83 | the new materials are `addAllowedLayers` of the old ones; textures are kept |
| TileDefinitions.TileDefinition.ClearMaterials | Tellustris/Src/GameData/TileDefinition.cpp:90-93 | empties the material list and keeps the textures |
| TileDefinitions.TileDefinition.TexturesIndexsForMaterial | Tellustris/Src/GameData/TileDefinition.cpp:95-111 | the loops compute the texture list of the material, whose contents the lemmas above describe |
| TileDefinitions.TileDefinition.IsMaterialAllowedOnLayer | Tellustris/Src/GameData/TileDefinition.cpp:113-123 | the search answers exactly whether some range of a known material contains the layer |
| TileDefinitions.TileDefinition.GetRandomTile | Tellustris/Include/GameData/TileDefinition.h:56-65 | an empty slot gives the value-initialised definition; otherwise the result is one of the slot's entries, and never one of weight 0 while some entry has a positive weight |
| TileDefinitions.TileDefinition.Weights | Tellustris/Include/GameData/TileDefinition.h:61-63 | the weight vector lines up with the candidates, entry by entry |
| TileDefinitions.AddTextureThenGet | Tellustris/Src/GameData/TileDefinition.cpp:4-50 | the index `addTexture` returns reads the texture back through `getTexture`, and `textureCount` grows by one exactly when the texture was new |
| GroundRender.Window | Tellustris/Src/GameData/Behaviours/ChunkGroundRenderBehaviour.cpp:54-57 | the nine ids of a 3x3 window of the read, in the order of the classifier's local matrix |
| GroundRender.ScanWindow | Tellustris/Src/GameData/Behaviours/ChunkGroundRenderBehaviour.cpp:46-49 | the same nine ids in the order the candidate loops visit them |
| GroundRender.CandidatesStep | Tellustris/Src/GameData/Behaviours/ChunkGroundRenderBehaviour.cpp:49-52 | one more visited id joins the candidates unless it is above the centre's id or already listed |
| GroundRender.CandidatesContents | Tellustris/Src/GameData/Behaviours/ChunkGroundRenderBehaviour.cpp:45-62 | the candidates are exactly the distinct ids of the window not above the centre's id, each once, in order of first appearance |
| GroundRender.CandidatesMembers | Tellustris/Src/GameData/Behaviours/ChunkGroundRenderBehaviour.cpp:45-52 | an id is a candidate exactly when the window holds it and it is not above the centre's id |
| GroundRender.CandidatesDistinct | Tellustris/Src/GameData/Behaviours/ChunkGroundRenderBehaviour.cpp:50-52 | no candidate is listed twice |
| GroundRender.CandidatesOrder | Tellustris/Src/GameData/Behaviours/ChunkGroundRenderBehaviour.cpp:45-52 | the candidates are listed in order of first appearance in the window |
| GroundRender.FirstIndexOfLast | Tellustris/Src/GameData/Behaviours/ChunkGroundRenderBehaviour.cpp:50 | the first occurrence of an id in the visited ids is the one before the last visit, if any, otherwise the last |
| GroundRender.FirstIndexInPrefix | Tellustris/Src/GameData/Behaviours/ChunkGroundRenderBehaviour.cpp:50 | the `std::find` of the candidate list: appending keeps the first position of an element already there and finds a new one at the end |
| GroundRender.Neighbourhood | Tellustris/Src/GameData/Behaviours/ChunkGroundRenderBehaviour.cpp:54-188 | the local matrix compares each window id with the centre's or the candidate's id by the rule of the event at hand (`<=` the centre, `<=` the candidate, `==` the centre) |
| GroundRender.NeighbourhoodCentre | Tellustris/Src/GameData/Behaviours/ChunkGroundRenderBehaviour.cpp:57-188 | the centre cell of the local matrix is set exactly when the rule is not the tile-change rule or the candidate is the centre's own material |
| GroundRender.ClearedCentreClassifiesAsSet | Tellustris/Src/GameData/TileConnexionType.cpp:8-17 | on a tile change a candidate below the centre's material gives a cleared centre, which violates the classifier's assertion; the shape does not depend on it |
| GroundRender.AtlasCell | Tellustris/Src/GameData/Behaviours/ChunkGroundRenderBehaviour.cpp:273-276 | tile `id` sits at column (id - 1) mod columns and row (id - 1) / columns of the texture |
| GroundRender.AtlasCellInjective | Tellustris/Src/GameData/Behaviours/ChunkGroundRenderBehaviour.cpp:273-277 | distinct ids get distinct atlas cells |
| GroundRender.AtlasLastColumn | Tellustris/Src/GameData/Behaviours/ChunkGroundRenderBehaviour.cpp:273-274 | the column count is positive exactly for a texture at least one pixel wide, and the last column ends inside the texture exactly when the width is a whole number of tile steps minus the gap |
| GroundRender.AtlasOverhang | Tellustris/Src/GameData/Behaviours/ChunkGroundRenderBehaviour.cpp:273 | a 64-pixel texture admits two columns, the second ending past the right edge |
| GroundRender.FullMapBorderFacing | Tellustris/Src/GameData/Behaviours/ChunkGroundRenderBehaviour.cpp:194-207 | a full redraw sends 4 + 4 * 32 updates, each to an adjacent chunk on the edge facing this one, covering each side neighbour's whole facing edge |
| GroundRender.TileChangeUpdateTargets | Tellustris/Src/GameData/Behaviours/ChunkGroundRenderBehaviour.cpp:150-156 | a cell inside the chunk is sent to the chunk itself (what the assertion forbids); a cell one past the right or bottom edge is sent to the neighbour at 32, off its grid, since `i > chunkSize` is false for 32 |
| GroundRender.GridOfThree | Tellustris/Src/GameData/Behaviours/ChunkGroundRenderBehaviour.cpp:125-126 | three passes of the outer loop are its three columns in turn |
| GroundRender.ColumnOfThree | Tellustris/Src/GameData/Behaviours/ChunkGroundRenderBehaviour.cpp:126 | three passes of the inner loop are its three updates in turn |
| GroundRender.TileChangeUpdatesShape | Tellustris/Src/GameData/Behaviours/ChunkGroundRenderBehaviour.cpp:125-157 | a change on row or column 0 sends nothing; elsewhere nine updates around the cell, in loop order, the middle one to the chunk itself |
| GroundRender.LoopVisits | Tellustris/Src/GameData/Behaviours/ChunkGroundRenderBehaviour.cpp:125-126 | the signed counter compared with the `size_t` bound: at p = 0 the loop never starts, otherwise it runs from p - 1 to p + 1 |
| GroundRender.SortSorted | Tellustris/Src/GameData/Behaviours/ChunkGroundRenderBehaviour.cpp:287 | the sort yields an ascending permutation, without duplicates when the input has none |
| GroundRender.Painted | Tellustris/Src/GameData/Behaviours/ChunkGroundRenderBehaviour.cpp:254-278 | an id of 0 or a texture the tile map lacks disables the cell; otherwise the cell shows that tile; no other cell changes |
| GroundRender.PickedIsShown | Tellustris/Src/GameData/Behaviours/ChunkGroundRenderBehaviour.cpp:222-239 | a drawn cell is shown exactly when the tile picked has a non-zero id, since the tile map lists every texture a real tile of the material uses |
| GroundRender.ShapeSlot | Tellustris/Src/GameData/Behaviours/ChunkGroundRenderBehaviour.cpp:54-61 | the shape a candidate is drawn with is one of the classifier's connexion slots |
| GroundRender.PaintedShows | Tellustris/Src/GameData/Behaviours/ChunkGroundRenderBehaviour.cpp:254-278 | `drawTile` shows the tile it is given at the cell and changes no other cell |
| GroundRender.CellShowsAgree | Tellustris/Src/GameData/Behaviours/ChunkGroundRenderBehaviour.cpp:130-146 | what a cell shows depends on that cell of the tile map alone |
| GroundRender.CellRedrawnStart | Tellustris/Src/GameData/Behaviours/ChunkGroundRenderBehaviour.cpp:130-133 | a cell cleared in every tracked tile map shows nothing before any candidate is drawn |
| GroundRender.DrawStep | Tellustris/Src/GameData/Behaviours/ChunkGroundRenderBehaviour.cpp:137-146 | one more candidate drawn by `setTile` with the classifier's shape and a picked tile: the cell now also shows, in that material's tile map, a tile the pick may return for that shape; material 0 changes nothing |
| GroundRender.DrawMaterialStep | Tellustris/Src/GameData/Behaviours/ChunkGroundRenderBehaviour.cpp:211-240 | for a material other than 0, the entry found or appended shows the picked tile at the cell and every other entry is as it was |
| GroundRender.DrawnEntry | Tellustris/Src/GameData/Behaviours/ChunkGroundRenderBehaviour.cpp:211-240 | the entry `setTile` drew shows the picked tile at the cell and is otherwise as before the redraw |
| GroundRender.ClearedThenDrawn | Tellustris/Src/GameData/Behaviours/ChunkGroundRenderBehaviour.cpp:130-146 | clearing a cell in every tracked tile map and then drawing it is a redraw of that cell from the state before the clearing |
| GroundRender.RedrawnStart | Tellustris/Src/GameData/Behaviours/ChunkGroundRenderBehaviour.cpp:125-192 | a redraw that has redrawn no cell yet leaves every tile map as it was |
| GroundRender.RedrawnStep | Tellustris/Src/GameData/Behaviours/ChunkGroundRenderBehaviour.cpp:125-192 | redrawing one more cell with its own window and candidates extends a redraw by that cell, leaving the cells already redrawn as they were shown |
| GroundRender.ChunkBeforeSteps | Tellustris/Src/GameData/Behaviours/ChunkGroundRenderBehaviour.cpp:170-171 | the full redraw's loops visit each cell of a column once and pass from one column to the next |
| GroundRender.ChunkBeforeEnds | Tellustris/Src/GameData/Behaviours/ChunkGroundRenderBehaviour.cpp:170-171 | the full redraw starts with no cell and ends having visited all 32x32 |
| GroundRender.AroundBeforeSteps | Tellustris/Src/GameData/Behaviours/ChunkGroundRenderBehaviour.cpp:125-128 | the tile-change loops add each visited cell inside the chunk once, skip those outside it, and end with exactly the cells around (x, y) that lie in the chunk, none on row or column 0 |
| GroundRender.FindMaterial | Tellustris/Src/GameData/Behaviours/ChunkGroundRenderBehaviour.cpp:218-291 | the `find_if` on the material: the first entry for it, or the length |
| GroundRender.UncountedAllDropped | Tellustris/Src/GameData/Behaviours/ChunkGroundRenderBehaviour.cpp:233-250 | the counter of set tiles starts at 0 and is never raised, so cleaning drops every entry |
| GroundRender.HeightsAscending | Tellustris/Src/GameData/Behaviours/ChunkGroundRenderBehaviour.cpp:289-295 | distinct materials get depths ascending with the material id, between -n - 1 and the attach depth |
| GroundRender.StackedStart | Tellustris/Src/GameData/Behaviours/ChunkGroundRenderBehaviour.cpp:289 | before the first step nothing is restacked |
| GroundRender.SortedMaterials | Tellustris/Src/GameData/Behaviours/ChunkGroundRenderBehaviour.cpp:284-287 | sorting distinct materials keeps them distinct and as many |
| GroundRender.StackedStep | Tellustris/Src/GameData/Behaviours/ChunkGroundRenderBehaviour.cpp:291-294 | one step gives the entry of the i-th sorted material the depth i - n - 1 |
| GroundRender.StackedAll | Tellustris/Src/GameData/Behaviours/ChunkGroundRenderBehaviour.cpp:289-295 | after the loop every entry has the depth of its material's rank |
| GroundRender.CollectMaterials | Tellustris/Src/GameData/Behaviours/ChunkGroundRenderBehaviour.cpp:284-286 | the first loop collects the entries' materials, in order |
| GroundRender.Restack | Tellustris/Src/GameData/Behaviours/ChunkGroundRenderBehaviour.cpp:284-295 | the entry of the i-th smallest material gets depth i - n - 1; tile maps not tracked keep their state |
| GroundRender.Detached | Tellustris/Src/GameData/Behaviours/ChunkGroundRenderBehaviour.cpp:113-114 | detaching a set of tile maps clears their attached flag and leaves the others as they were |
| GroundRender.CellPosition | Tellustris/Src/GameData/Behaviours/ChunkGroundRenderBehaviour.cpp:38-167 | the world position of tile t of this chunk is t + 32 (chunk mod grid size), inside the world |
| GroundRender.ChunkGroundRender.constructor | Tellustris/Src/GameData/Behaviours/ChunkGroundRenderBehaviour.cpp:11-23 | the behaviour keeps its chunk, world and definitions; the chunk always has layers, so every cell of every new tile map shows what a full redraw from the 34x34 read of the world around the chunk calls for, the read being the world's tiles, and the border updates are sent |
| GroundRender.ChunkGroundRender.Clone | Tellustris/Src/GameData/Behaviours/ChunkGroundRenderBehaviour.cpp:25-29 | a new behaviour for the same chunk, world and definitions, in the state of a new one |
| GroundRender.ChunkGroundRender.DrawTile | Tellustris/Src/GameData/Behaviours/ChunkGroundRenderBehaviour.cpp:254-278 | only the cell (x, y) of entry k's tile map changes, as `Painted` says |
| GroundRender.ChunkGroundRender.ClearTile | Tellustris/Src/GameData/Behaviours/ChunkGroundRenderBehaviour.cpp:242-246 | the cell is disabled in every tracked tile map and nothing else changes |
| GroundRender.ChunkGroundRender.SetTile | Tellustris/Src/GameData/Behaviours/ChunkGroundRenderBehaviour.cpp:211-240 | material 0 changes nothing; a material without a tile map gets one, attached at the attach depth and tracked with its textures; then the cell of that tile map shows a tile the random pick may return for the material and shape, and no other cell or tile map changes |
| GroundRender.ChunkGroundRender.AddTilemap | Tellustris/Src/GameData/Behaviours/ChunkGroundRenderBehaviour.cpp:219-235 | a new tile map is attached at depth -2 and tracked with the material's textures and a zero counter |
| GroundRender.ChunkGroundRender.DrawCandidate | Tellustris/Src/GameData/Behaviours/ChunkGroundRenderBehaviour.cpp:137-146 | a candidate above the centre or already drawn is skipped; otherwise it joins the list, and the cell, redrawn so far for the earlier candidates, now also shows in that material's tile map a tile picked for the shape the classifier gives its neighbourhood |
| GroundRender.ChunkGroundRender.DrawCell | Tellustris/Src/GameData/Behaviours/ChunkGroundRenderBehaviour.cpp:176-191 | the materials drawn at a cleared cell are exactly the candidates of its window, and the cell shows, in each drawn material's tile map, a tile picked for that material's shape, and nothing in the others |
| GroundRender.ChunkGroundRender.RedrawCell | Tellustris/Src/GameData/Behaviours/ChunkGroundRenderBehaviour.cpp:130-147 | the cell is cleared in every tracked tile map, then each candidate of its window is drawn: the cell shows, in each drawn material's tile map, a tile the random pick may return for the shape the classifier gives its neighbourhood, and nothing in the others; no other cell changes |
| GroundRender.ChunkGroundRender.RedrawnSinceStart | Tellustris/Src/GameData/Behaviours/ChunkGroundRenderBehaviour.cpp:125-192 | a redraw begins with no cell redrawn |
| GroundRender.ChunkGroundRender.RedrawNext | Tellustris/Src/GameData/Behaviours/ChunkGroundRenderBehaviour.cpp:125-192 | redrawing one more cell extends the redraw by that cell and sends no border update |
| GroundRender.ChunkGroundRender.ReadWorld | Tellustris/Src/GameData/Behaviours/ChunkGroundRenderBehaviour.cpp:123-168 | cell (k, l) of the read is the world's layer-0 tile at (x0 + k, y0 + l) |
| GroundRender.ChunkGroundRender.FullRedraw | Tellustris/Src/GameData/Behaviours/ChunkGroundRenderBehaviour.cpp:170-208 | every cell of the chunk is redrawn from the read with its own window under the centre-match rule, the neighbours' updates are sent, and the entries are then dropped |
| GroundRender.ChunkGroundRender.TileChangeCell | Tellustris/Src/GameData/Behaviours/ChunkGroundRenderBehaviour.cpp:128-147 | a visited cell inside the chunk is redrawn with its own window under the candidate rule; one outside it changes nothing |
| GroundRender.ChunkGroundRender.TileChangeRedraw | Tellustris/Src/GameData/Behaviours/ChunkGroundRenderBehaviour.cpp:125-158 | the cells around (x, y) in the chunk are redrawn from the 5x5 read, the border updates of every visited cell are sent in loop order, and the entries are dropped |
| GroundRender.ChunkGroundRender.BorderRedraw | Tellustris/Src/GameData/Behaviours/ChunkGroundRenderBehaviour.cpp:40-64 | cell (x, y) alone is redrawn from the 3x3 read, each candidate compared with the cell's own material; no border update is sent and the entries are dropped |
| GroundRender.ChunkGroundRender.OnLayerRemove | Tellustris/Src/GameData/Behaviours/ChunkGroundRenderBehaviour.cpp:110-117 | every tracked tile map is detached and the list emptied |
| GroundRender.ChunkGroundRender.UpdateMaterialsHeights | Tellustris/Src/GameData/Behaviours/ChunkGroundRenderBehaviour.cpp:280-296 | the tracked tile maps are stacked by ascending material; nothing else changes |
| GroundRender.ChunkGroundRender.CleanLayers | Tellustris/Src/GameData/Behaviours/ChunkGroundRenderBehaviour.cpp:248-252 | the entries without a set tile are dropped, which is all of them; the dropped tile maps stay attached |
| GroundRender.ChunkGroundRender.RedrawColumn | Tellustris/Src/GameData/Behaviours/ChunkGroundRenderBehaviour.cpp:171-192 | the cells of one column are redrawn from the read, each with its own window, extending the redraw of the columns before |
| GroundRender.ChunkGroundRender.RedrawCells | Tellustris/Src/GameData/Behaviours/ChunkGroundRenderBehaviour.cpp:170-192 | all 32x32 cells are redrawn, column by column, each showing what its window and the read's candidates call for; no cell outside the chunk changes; the border updates are not touched |
| GroundRender.ChunkGroundRender.SendFullBorderUpdates | Tellustris/Src/GameData/Behaviours/ChunkGroundRenderBehaviour.cpp:194-207 | appends the corner updates, then the side updates in loop order |
| GroundRender.ChunkGroundRender.OnFullMapChange | Tellustris/Src/GameData/Behaviours/ChunkGroundRenderBehaviour.cpp:161-209 | the old tile maps are detached; the read is the world's 34x34 tiles around the chunk; every cell of the chunk in the new tile maps shows what its window calls for under the centre-match rule; the border updates are sent and the tracked list ends empty |
| GroundRender.ChunkGroundRender.TileChangeColumn | Tellustris/Src/GameData/Behaviours/ChunkGroundRenderBehaviour.cpp:126-157 | the inner loop redraws the cells of one column that lie in the chunk, returns the updates of every visited cell in order, and on row 0 changes no tile map |
| GroundRender.ChunkGroundRender.TileChangeCells | Tellustris/Src/GameData/Behaviours/ChunkGroundRenderBehaviour.cpp:125-157 | the loops redraw exactly the cells around (x, y) that lie in the chunk and return the tile-change updates in order; on row or column 0 no tile map changes |
| GroundRender.ChunkGroundRender.OnTileChange | Tellustris/Src/GameData/Behaviours/ChunkGroundRenderBehaviour.cpp:119-159 | the read is the world's 5x5 tiles around (x, y); exactly the cells around it in the chunk are redrawn from the read with the candidate rule, other cells stay, the tile-change updates are appended, the entries are dropped, and on row or column 0 nothing is redrawn |
| GroundRender.ChunkGroundRender.OnBorderBlockUpdate | Tellustris/Src/GameData/Behaviours/ChunkGroundRenderBehaviour.cpp:31-65 | a layer other than 0 changes nothing; on layer 0 the read is the world's 3x3 tiles around the cell, the cell alone is redrawn from it with the centre rule, and the entries are dropped |
| GroundRender.ChunkGroundRender.OnMapChange | Tellustris/Src/GameData/Behaviours/ChunkGroundRenderBehaviour.cpp:93-103 | a layer other than 0 changes nothing; a position inside the chunk is a tile change around it, as `OnTileChange` states; outside it, a full redraw, as `OnFullMapChange` states |
| GroundRender.ChunkGroundRender.OnLayerChange | Tellustris/Src/GameData/Behaviours/ChunkGroundRenderBehaviour.cpp:78-108 | layer 0 added redraws the whole chunk from the world, as `OnFullMapChange` states; removed detaches everything; every other change is ignored |
| GroundRender.ChunkGroundRender.OnEnable | Tellustris/Src/GameData/Behaviours/ChunkGroundRenderBehaviour.cpp:67-71 | the chunk always has layers, so the whole chunk is redrawn from the world, as `OnFullMapChange` states, and the border updates sent |
| GroundRender.ChunkGroundRender.OnDisable | Tellustris/Src/GameData/Behaviours/ChunkGroundRenderBehaviour.cpp:73-76 | every tracked tile map is detached and the list emptied |
| WorldRender.ViewColumnContents | Tellustris/Src/GameData/Behaviours/WorldRenderBehaviour.cpp:128-129 | one pass of the inner loop lists exactly the chunks (i, y0..y1), each once |
| WorldRender.ViewRectContents | Tellustris/Src/GameData/Behaviours/WorldRenderBehaviour.cpp:126-131 | the loops list every chunk of the inclusive rectangle exactly once, and no other; the count is the rectangle's area |
| WorldRender.ViewHoldsCentre | Tellustris/Src/GameData/Behaviours/WorldRenderBehaviour.cpp:62-132 | a view of non-negative size holds the chunk of its centre, so the list the source asserts non-empty is non-empty |
| WorldRender.ChunkMono | Tellustris/Src/GameData/WorldMap.cpp:156-162 | the chunk a tile lies in never decreases as the tile coordinate grows |
| WorldRender.GetViewChunks | Tellustris/Src/GameData/Behaviours/WorldRenderBehaviour.cpp:121-132 | the chunks between the chunks of the view's corners, i outer and j inner |
| WorldRender.RectChunks | Tellustris/Src/GameData/Behaviours/WorldRenderBehaviour.cpp:126-129 | the two loops list the inclusive rectangle of chunks between the bounds, i outer and j inner |
| WorldRender.NearChunks | Tellustris/Src/GameData/Behaviours/WorldRenderBehaviour.cpp:233-238 | entry (a, b) of the 3x3 matrix of chunks is the grid chunk of world chunk (cx + a - 1, cy + b - 1) |
| WorldRender.DefFor | Tellustris/Src/GameData/Behaviours/WorldRenderBehaviour.cpp:227-231 | the layer's own definition when the list has one for it, otherwise the default definition |
| WorldRender.RenderTile | Tellustris/Src/GameData/TileRenderDefinition.cpp:11-14 | the centre cell (1, 1) of the 3×3 read, slot 4, whatever the position given |
| WorldRender.PaddedCell | Tellustris/Src/GameData/Behaviours/WorldRenderBehaviour.cpp:244-270 | the local position and near chunk the loop body selects read the world's tile one tile before the chunk's origin plus (i, j) |
| WorldRender.ReadAround | Tellustris/Src/GameData/Behaviours/WorldRenderBehaviour.cpp:240-271 | cell (i, j) of the 34x34 read is the world's tile at (32 cx + i - 1, 32 cy + j - 1), border rows and columns included |
| WorldRender.ReadColumn | Tellustris/Src/GameData/Behaviours/WorldRenderBehaviour.cpp:242-271 | the inner loop fills column i of the read and leaves every other column as it was |
| WorldRender.ReadCell | Tellustris/Src/GameData/Behaviours/WorldRenderBehaviour.cpp:244-270 | one cell of the read is the padded tile at (i, j) |
| WorldRender.Window | Tellustris/Src/GameData/Behaviours/WorldRenderBehaviour.cpp:280-289 | the 3x3 local matrix built from the read has the read's cell (i + 1, j + 1) at its centre |
| WorldRender.DrawCells | Tellustris/Src/GameData/Behaviours/WorldRenderBehaviour.cpp:273-292 | each of the 32x32 cells gets the centre of its window, directly without a definition and through it otherwise |
| WorldRender.PaddedDrawIsWorld | Tellustris/Src/GameData/Behaviours/WorldRenderBehaviour.cpp:225-293 | the read and the drawing loop together draw, cell by cell, the world's tiles of the chunk |
| WorldRender.ChunkOrigin | Tellustris/Src/GameData/Behaviours/WorldRenderBehaviour.cpp:117-200 | the origin 32 c of a chunk in range, and the positions a tile around it, convert without overflow, and the origin lies in chunk c |
| WorldRender.ReadWindow | Tellustris/Src/GameData/Behaviours/WorldRenderBehaviour.cpp:307-316 | the 3x3 window read around a world tile has that tile at its centre |
| WorldRender.ReadColumn3 | Tellustris/Src/GameData/Behaviours/WorldRenderBehaviour.cpp:308-316 | one column of the window reads three world tiles and leaves the world unchanged; the middle column reads the centre |
| WorldRender.Find | Tellustris/Src/GameData/Behaviours/WorldRenderBehaviour.cpp:66-86 | the `find_if` on coordinates: the first position holding them, or the length exactly when they are absent |
| WorldRender.FindInfo | Tellustris/Src/GameData/Behaviours/WorldRenderBehaviour.cpp:86-216 | the tracked chunk with coordinates (x, y), or the length |
| WorldRender.FindDistinct | Tellustris/Src/GameData/Behaviours/WorldRenderBehaviour.cpp:161 | in a list without repeats the search finds each element at its own position |
| WorldRender.HeightChangeMovesLayer | Tellustris/Src/GameData/Behaviours/WorldRenderBehaviour.cpp:175-222 | a height change puts a layer at the chunk coordinates, not at 32 times them, so every chunk but (0, 0) moves away from where `addNewLayer` placed it |
| WorldRender.TopDown | Tellustris/Src/GameData/Behaviours/WorldRenderBehaviour.cpp:152-154 | the entities of a layer stack listed from the top layer down |
| WorldRender.SwitchLayers | Tellustris/Src/GameData/Behaviours/WorldRenderBehaviour.cpp:48-56 | the inner loop switches every layer of one chunk |
| WorldRender.SwitchKeepsLayers | Tellustris/Src/GameData/Behaviours/WorldRenderBehaviour.cpp:45-57 | switching keeps the layers, their entities, cells and positions, and leaves each with the requested flag |
| WorldRender.MirroredStep | Tellustris/Src/GameData/Behaviours/WorldRenderBehaviour.cpp:196-200 | a layer built for the next chunk layer extends the mirrored stack |
| WorldRender.AllSwitchedKeepsChunks | Tellustris/Src/GameData/Behaviours/WorldRenderBehaviour.cpp:45-57 | switching every chunk keeps the tracked coordinates, chunks and layer counts |
| WorldRender.RemoveKeepsDistinct | Tellustris/Src/GameData/Behaviours/WorldRenderBehaviour.cpp:156 | erasing a tracked chunk erases its coordinates and keeps the list without repeats |
| WorldRender.RemoveAtContents | Tellustris/Src/GameData/Behaviours/WorldRenderBehaviour.cpp:156 | in a list without repeats the erased coordinates are the only ones that go |
| WorldRender.FindAppended | Tellustris/Src/GameData/Behaviours/WorldRenderBehaviour.cpp:141 | coordinates appended when absent are found at the end |
| WorldRender.ViewChunksInRange | Tellustris/Src/GameData/Behaviours/WorldRenderBehaviour.cpp:121-132 | the chunks of a view in range are in range and listed without repeats |
| WorldRender.ReplaceLayers | Tellustris/Src/GameData/Behaviours/WorldRenderBehaviour.cpp:198-211 | giving a tracked chunk other well-formed layers keeps the list's coordinates and its invariant |
| WorldRender.WorldRenderer.constructor | Tellustris/Src/GameData/Behaviours/WorldRenderBehaviour.cpp:14-19 | a renderer on the map with the view size, no tracked chunk and no definition |
| WorldRender.WorldRenderer.SetDefaultTileDef | Tellustris/Src/GameData/Behaviours/WorldRenderBehaviour.cpp:30-33 | only the default definition changes |
| WorldRender.WorldRenderer.SetTileDef | Tellustris/Src/GameData/Behaviours/WorldRenderBehaviour.cpp:35-43 | afterwards layer `layer` reads the definition and every other layer reads as before; the list grows to layer + 1 unless the definition is null beyond it |
| WorldRender.WorldRenderer.Clone | Tellustris/Src/GameData/Behaviours/WorldRenderBehaviour.cpp:21-28 | a renderer on the same map and view size with the same definitions, layer by layer, and no tracked chunk |
| WorldRender.WorldRenderer.DrawLayer | Tellustris/Src/GameData/Behaviours/WorldRenderBehaviour.cpp:225-293 | every cell of the drawn layer is the world's tile at its position, with or without a definition |
| WorldRender.WorldRenderer.DrawTile | Tellustris/Src/GameData/Behaviours/WorldRenderBehaviour.cpp:295-319 | cell (x, y) gets the world's tile at (x + mapX, y + mapY); the other cells stay |
| WorldRender.WorldRenderer.AddNewLayer | Tellustris/Src/GameData/Behaviours/WorldRenderBehaviour.cpp:159-201 | the tracked chunk gets one new top layer with a new entity, placed at the chunk's first tile and the layer's height, drawn from the world; the other chunks stay |
| WorldRender.WorldRenderer.AddNewChunk | Tellustris/Src/GameData/Behaviours/WorldRenderBehaviour.cpp:134-145 | chunk (x, y) becomes tracked after the others, with one drawn layer per chunk layer, bottom up |
| WorldRender.WorldRenderer.AddChunkLayers | Tellustris/Src/GameData/Behaviours/WorldRenderBehaviour.cpp:143-144 | the loop adds a layer for each layer of the chunk and keeps the coordinates |
| WorldRender.WorldRenderer.RemoveLayer | Tellustris/Src/GameData/Behaviours/WorldRenderBehaviour.cpp:203-212 | the top layer of the tracked chunk goes and its entity is killed |
| WorldRender.WorldRenderer.UpdateLayerHeight | Tellustris/Src/GameData/Behaviours/WorldRenderBehaviour.cpp:214-223 | a layer in both stacks moves to the layer's height at the chunk coordinates themselves; otherwise the access is out of range and nothing changes |
| WorldRender.WorldRenderer.SetEnabled | Tellustris/Src/GameData/Behaviours/WorldRenderBehaviour.cpp:47-56 | every layer of every tracked chunk is switched to the given flag |
| WorldRender.WorldRenderer.OnEnable | Tellustris/Src/GameData/Behaviours/WorldRenderBehaviour.cpp:45-50 | every layer entity is enabled; nothing else changes |
| WorldRender.WorldRenderer.OnDisable | Tellustris/Src/GameData/Behaviours/WorldRenderBehaviour.cpp:52-57 | every layer entity is disabled; nothing else changes |
| WorldRender.WorldRenderer.RemoveChunk | Tellustris/Src/GameData/Behaviours/WorldRenderBehaviour.cpp:147-157 | the chunk's entities are killed from the top layer down and the chunk is erased; the other chunks keep their order |
| WorldRender.WorldRenderer.RemoveAllLayers | Tellustris/Src/GameData/Behaviours/WorldRenderBehaviour.cpp:152-154 | the loop empties the chunk's layers, killing their entities from the top down |
| WorldRender.WorldRenderer.OnLayerUpdate | Tellustris/Src/GameData/Behaviours/WorldRenderBehaviour.cpp:84-105 | an untracked chunk is ignored; otherwise an added layer is mirrored, a removed one killed, and a height change applied when the layer exists |
| WorldRender.WorldRenderer.OnTileUpdate | Tellustris/Src/GameData/Behaviours/WorldRenderBehaviour.cpp:107-119 | an untracked chunk or a layer beyond the mirrored stack changes nothing; otherwise the layer is redrawn as `Redraw` says |
| WorldRender.WorldRenderer.Redraw | Tellustris/Src/GameData/Behaviours/WorldRenderBehaviour.cpp:116-118 | a position outside the 32x32 map redraws the whole layer, one inside it that cell only |
| WorldRender.WorldRenderer.OnCenterViewUpdate | Tellustris/Src/GameData/Behaviours/WorldRenderBehaviour.cpp:59-82 | afterwards exactly the chunks in view are tracked: the tracked chunks in view keep their order and mirrors, then each chunk of the view not tracked before follows, in view order, as the grid chunk at its coordinates with every layer mirrored from the world and new entities counted on; the entities of the chunks that left the view are killed, chunk by chunk, from the top layer down |
| WorldRender.WorldRenderer.AddMissing | Tellustris/Src/GameData/Behaviours/WorldRenderBehaviour.cpp:64-69 | the tracked chunks stay first; each chunk of the view not tracked yet follows, in view order, as the grid chunk with every layer mirrored and new entities counted on; nothing is killed |
| WorldRender.WorldRenderer.RemoveStale | Tellustris/Src/GameData/Behaviours/WorldRenderBehaviour.cpp:71-81 | the chunks left are exactly those tracked and in view, in order, each as it was; the entities of the others are killed, chunk by chunk, from the top layer down |
| WorldRender.WorldRenderer.AddIfMissing | Tellustris/Src/GameData/Behaviours/WorldRenderBehaviour.cpp:64-69 | one pass of the first loop: the visited chunk is appended, mirrored, exactly when it is not tracked yet |
| WorldRender.WorldRenderer.AddChunkAfter | Tellustris/Src/GameData/Behaviours/WorldRenderBehaviour.cpp:67-68 | an untracked chunk is appended after the others, as the grid chunk with every layer mirrored and the entities following on |
| WorldRender.WorldRenderer.DropIfStale | Tellustris/Src/GameData/Behaviours/WorldRenderBehaviour.cpp:71-81 | one pass of the second loop: the chunk at the index is erased with its entities killed when out of view, kept otherwise |
| WorldRender.WorldRenderer.NewLayerAt | Tellustris/Src/GameData/Behaviours/WorldRenderBehaviour.cpp:167-200 | the layer `addNewLayer` builds: the next entity, at the chunk's first tile and the given height, its cells drawn from the world |
| WorldRender.Missing | Tellustris/Src/GameData/Behaviours/WorldRenderBehaviour.cpp:64-69 | the chunks the first loop adds never outnumber the view |
| WorldRender.MissingContents | Tellustris/Src/GameData/Behaviours/WorldRenderBehaviour.cpp:64-69 | the chunks found missing are exactly those of the view not tracked |
| WorldRender.MissingDistinct | Tellustris/Src/GameData/Behaviours/WorldRenderBehaviour.cpp:64-69 | a view without repeats has its missing chunks without repeats |
| WorldRender.MissingStep | Tellustris/Src/GameData/Behaviours/WorldRenderBehaviour.cpp:66-68 | a step of the first loop adds the visited chunk exactly when it is not yet tracked |
| WorldRender.KeptInView | Tellustris/Src/GameData/Behaviours/WorldRenderBehaviour.cpp:71-81 | the chunks the second loop keeps never outnumber the tracked ones |
| WorldRender.KeptContents | Tellustris/Src/GameData/Behaviours/WorldRenderBehaviour.cpp:71-81 | the chunks kept are exactly the tracked ones in view, and every tracked chunk in view is kept |
| WorldRender.KeptConcat | Tellustris/Src/GameData/Behaviours/WorldRenderBehaviour.cpp:71-81 | keeping the chunks in view of two lists in a row is keeping those of each |
| WorldRender.StaleConcat | Tellustris/Src/GameData/Behaviours/WorldRenderBehaviour.cpp:71-81 | the entities killed for two lists in a row are those killed for each, in order |
| WorldRender.AllKept | Tellustris/Src/GameData/Behaviours/WorldRenderBehaviour.cpp:71-81 | chunks all in view are all kept and none of their entities is killed |
| WorldRender.AddedInView | Tellustris/Src/GameData/Behaviours/WorldRenderBehaviour.cpp:64-81 | every chunk the first loop adds is in view, so the second loop keeps all of them and kills none of theirs |
| WorldRender.AddedStep | Tellustris/Src/GameData/Behaviours/WorldRenderBehaviour.cpp:134-145 | one more chunk appended by `addNewChunk` extends the mirrored chunks, its entities following on |
| WorldRender.Followed | Tellustris/Src/GameData/Behaviours/WorldRenderBehaviour.cpp:59-82 | the two loops together leave the tracked chunks in view followed by the chunks added, which are exactly the view's untracked chunks; every chunk tracked and in view stays, and only chunks tracked before are killed |
| WorldRender.KeptEnd | Tellustris/Src/GameData/Behaviours/WorldRenderBehaviour.cpp:71-81 | the second loop ends once every tracked chunk went through it, leaving the kept ones and having killed the entities of the others |
| WorldRender.KeptStep | Tellustris/Src/GameData/Behaviours/WorldRenderBehaviour.cpp:73-80 | one step of the second loop: the chunk at the index is the next tracked one; out of view it is erased and its entities appended to the killed ones, otherwise it stays |
| WorldRender2.InView | Tellustris/Src/GameData/Behaviours/WorldRenderBehaviour2.cpp:48-58 | the entries the second loop keeps never outnumber the tracked ones |
| WorldRender2.OutOfView | Tellustris/Src/GameData/Behaviours/WorldRenderBehaviour2.cpp:53-78 | the entities the second loop kills never outnumber the tracked ones |
| WorldRender2.NewEntries | Tellustris/Src/GameData/Behaviours/WorldRenderBehaviour2.cpp:61-73 | the entries appended for a list of chunks have exactly those coordinates, in order |
| WorldRender2.InViewContents | Tellustris/Src/GameData/Behaviours/WorldRenderBehaviour2.cpp:48-58 | the entries kept are exactly the tracked ones in view |
| WorldRender2.InViewDistinct | Tellustris/Src/GameData/Behaviours/WorldRenderBehaviour2.cpp:48-58 | keeping the entries in view keeps the coordinates without repeats |
| WorldRender2.AllInView | Tellustris/Src/GameData/Behaviours/WorldRenderBehaviour2.cpp:48-58 | entries all in view all stay, in order, and none is killed |
| WorldRender2.InViewConcat | Tellustris/Src/GameData/Behaviours/WorldRenderBehaviour2.cpp:48-58 | keeping the entries in view of two lists in a row is keeping those of each |
| WorldRender2.OutOfViewConcat | Tellustris/Src/GameData/Behaviours/WorldRenderBehaviour2.cpp:48-58 | the entities killed for two lists in a row are those killed for each, in order |
| WorldRender2.AddedKept | Tellustris/Src/GameData/Behaviours/WorldRenderBehaviour2.cpp:41-58 | every chunk the first loop adds is in view, so the second loop keeps it |
| WorldRender2.ViewTracked | Tellustris/Src/GameData/Behaviours/WorldRenderBehaviour2.cpp:36-59 | after an update every chunk of the view is tracked exactly once and no other chunk is |
| WorldRender2.AddStep | Tellustris/Src/GameData/Behaviours/WorldRenderBehaviour2.cpp:41-46 | a tracked chunk changes nothing; any other is appended with the next entity |
| WorldRender2.Filtered | Tellustris/Src/GameData/Behaviours/WorldRenderBehaviour2.cpp:48-58 | after j tracked entries went through the second loop, the list holds the kept ones of those followed by the rest |
| WorldRender2.FilteredAll | Tellustris/Src/GameData/Behaviours/WorldRenderBehaviour2.cpp:48-58 | once all went through, the entries in view are left |
| WorldRender2.StaleStep | Tellustris/Src/GameData/Behaviours/WorldRenderBehaviour2.cpp:50-57 | the entry at index i is the j-th tracked one, i being the number kept so far |
| WorldRender2.WorldRenderer2.constructor | Tellustris/Src/GameData/Behaviours/WorldRenderBehaviour2.cpp:10-16 | a renderer on the map with the definition and view size, tracking no chunk |
| WorldRender2.WorldRenderer2.Clone | Tellustris/Src/GameData/Behaviours/WorldRenderBehaviour2.cpp:18-22 | a renderer on the same map, definition and view size, tracking no chunk |
| WorldRender2.WorldRenderer2.OnEnable | Tellustris/Src/GameData/Behaviours/WorldRenderBehaviour2.cpp:24-28 | as written, every chunk entity is disabled; nothing else changes |
| WorldRender2.WorldRenderer2.OnDisable | Tellustris/Src/GameData/Behaviours/WorldRenderBehaviour2.cpp:30-34 | as written, every chunk entity is enabled; nothing else changes |
| WorldRender2.WorldRenderer2.SetAll | Tellustris/Src/GameData/Behaviours/WorldRenderBehaviour2.cpp:26-33 | the loop sets every chunk entity to the flag and keeps the entries' coordinates |
| WorldRender2.WorldRenderer2.AddChunk | Tellustris/Src/GameData/Behaviours/WorldRenderBehaviour2.cpp:61-73 | a new enabled entity for the world's chunk (x, y) is appended |
| WorldRender2.WorldRenderer2.RemoveChunk | Tellustris/Src/GameData/Behaviours/WorldRenderBehaviour2.cpp:75-80 | the entity at `index` is killed and its entry erased; the others keep their order |
| WorldRender2.WorldRenderer2.OnCenterViewUpdate | Tellustris/Src/GameData/Behaviours/WorldRenderBehaviour2.cpp:36-59 | the tracked chunks still in view stay in order, then new entities for the view's untracked chunks; the others are killed in order; the tracked chunks are exactly the view |
| WorldRender2.WorldRenderer2.AddMissing | Tellustris/Src/GameData/Behaviours/WorldRenderBehaviour2.cpp:41-46 | the first loop appends an entity for each untracked chunk of the view, in view order |
| WorldRender2.WorldRenderer2.RemoveStale | Tellustris/Src/GameData/Behaviours/WorldRenderBehaviour2.cpp:48-58 | the second loop keeps the entries in view and kills the others, in order |
| WorldRender2.WorldRenderer2.StaleAt | Tellustris/Src/GameData/Behaviours/WorldRenderBehaviour2.cpp:50-57 | one pass of the second loop, with the index moved back after a removal, keeps the loop's invariant |
| TilemapColliders.AddTileLayers | Tellustris/Src/Tilemap/TilemapCollider.cpp:9-12 | registering an id puts it on its new layer and takes it off every other layer |
| TilemapColliders.RemoveTileLayers | Tellustris/Src/Tilemap/TilemapCollider.cpp:19-22 | unregistering an id takes it off every layer and nothing else |
| TilemapColliders.TilemapCollider.constructor | Tellustris/Include/Tilemap/TilemapCollider.h:40-43 | a new collider has no id and has sent no notification |
| TilemapColliders.TilemapCollider.AddTile | Tellustris/Src/Tilemap/TilemapCollider.cpp:7-15 | the id is registered on the layer, overwriting, and one notification is sent even when nothing changed |
| TilemapColliders.TilemapCollider.RemoveTile | Tellustris/Src/Tilemap/TilemapCollider.cpp:17-25 | the id is forgotten; a notification is sent exactly when it was registered |
| TilemapColliders.TilemapCollider.HaveTile | Tellustris/Src/Tilemap/TilemapCollider.cpp:27-30 | true exactly when some layer's set of registered ids holds the id |
| TilemapColliders.TilemapCollider.Layer | Tellustris/Src/Tilemap/TilemapCollider.cpp:32-36 | requires a registered id (the assertion); the id is among the tiles of the layer returned |
| TilemapColliders.TilemapCollider.Tiles | Tellustris/Src/Tilemap/TilemapCollider.cpp:38-46 | the ids registered on the layer, each once, and no other |
| TilemapColliderComponents.CoverBoxes | Tellustris/Src/Components/TilemapColliderComponent.cpp:92-143 | no two shapes of a layer cover the same tile, and every tile of a box is a full tile of that layer |
| TilemapColliderComponents.Covered | Tellustris/Src/Components/TilemapColliderComponent.cpp:87 | the coverage matrix read as a value, cell for cell |
| TilemapColliderComponents.Mark | Tellustris/Src/Components/TilemapColliderComponent.cpp:137-139 | marking a box keeps the matrix's shape |
| TilemapColliderComponents.SkipStep | Tellustris/Src/Components/TilemapColliderComponent.cpp:95-105 | a covered tile, one without collision, or a full tile of another layer leaves the scan's invariant in place |
| TilemapColliderComponents.CellStep | Tellustris/Src/Components/TilemapColliderComponent.cpp:101-104 | a partly colliding tile adds its own shape and keeps the invariant |
| TilemapColliderComponents.BoxStep | Tellustris/Src/Components/TilemapColliderComponent.cpp:137-141 | a box of unmarked full tiles of the layer starting at the tile visited is added and marked, and the invariant holds |
| TilemapColliderComponents.ScanStart | Tellustris/Src/Components/TilemapColliderComponent.cpp:87-89 | with nothing marked and no shape the invariant holds |
| TilemapColliderComponents.RowStep | Tellustris/Src/Components/TilemapColliderComponent.cpp:92-93 | the end of a row keeps the invariant for the next one |
| TilemapColliderComponents.ScanDone | Tellustris/Src/Components/TilemapColliderComponent.cpp:92-143 | at the end of the scan the shapes cover without overlap |
| TilemapColliderComponents.BoxWidth | Tellustris/Src/Components/TilemapColliderComponent.cpp:107-118 | the width is the longest run of eligible tiles from (x, y), at least 1 |
| TilemapColliderComponents.RowEligible | Tellustris/Src/Components/TilemapColliderComponent.cpp:122-131 | the inner loop answers whether every tile of the row segment is eligible |
| TilemapColliderComponents.BoxHeight | Tellustris/Src/Components/TilemapColliderComponent.cpp:119-135 | the height is the longest run of fully eligible rows from y, at least 1 |
| TilemapColliderComponents.MarkColumn | Tellustris/Src/Components/TilemapColliderComponent.cpp:138-139 | marks one column of the box and nothing else |
| TilemapColliderComponents.MarkBox | Tellustris/Src/Components/TilemapColliderComponent.cpp:137-139 | the matrix becomes the old coverage with the box marked |
| TilemapColliderComponents.AddBox | Tellustris/Src/Components/TilemapColliderComponent.cpp:105-142 | a box at an eligible tile is measured, marked and added, keeping the scan's invariant |
| TilemapColliderComponents.ScanCell | Tellustris/Src/Components/TilemapColliderComponent.cpp:95-142 | one tile of the scan keeps the invariant |
| TilemapColliderComponents.ScanRow | Tellustris/Src/Components/TilemapColliderComponent.cpp:93-143 | one row of the scan keeps the invariant |
| TilemapColliderComponents.BuildColliders | Tellustris/Src/Components/TilemapColliderComponent.cpp:87-143 | the shapes built cover without overlap, boxes only over full tiles of the layer |
| TilemapColliderComponents.FindLayer | Tellustris/Src/Components/TilemapColliderComponent.cpp:63-71 | the `find_if` on the id: the first entry with that id, or the count |
| TilemapColliderComponents.SwapRemove | Tellustris/Src/Components/TilemapColliderComponent.cpp:75-76 | overwriting entry k with the last and popping removes one entry |
| TilemapColliderComponents.Replaced | Tellustris/Src/Components/TilemapColliderComponent.cpp:72-74 | at most one entity is killed, exactly when the id has an entry |
| TilemapColliderComponents.WithoutIds | Tellustris/Src/Components/TilemapColliderComponent.cpp:71-77 | in a list with one entry per id, removing an id's entry leaves every other id once and not that one |
| TilemapColliderComponents.FirstSeenContents | Tellustris/Src/Components/TilemapColliderComponent.cpp:63-65 | the ids in order of first appearance: every id, none twice |
| TilemapColliderComponents.FirstSeenPush | Tellustris/Src/Components/TilemapColliderComponent.cpp:63-65 | a visited id is appended exactly when it is new |
| TilemapColliderComponents.RebuiltIds | Tellustris/Src/Components/TilemapColliderComponent.cpp:57-66 | the rebuilt list holds each collision layer of a colliding tile once, and no other |
| TilemapColliderComponents.AppendedLayer | Tellustris/Src/Components/TilemapColliderComponent.cpp:147 | a list that gained one covering entry still covers, with the id appended |
| TilemapColliderComponents.SeenStep | Tellustris/Src/Components/TilemapColliderComponent.cpp:60-65 | one tile of the column scan appends an entry for a new colliding id and keeps the others |
| TilemapColliderComponents.TilemapColliderComponent.constructor | Tellustris/Include/Components/TilemapColliderComponent.h:18 | a new component has no map, no callback and no entry |
| TilemapColliderComponents.TilemapColliderComponent.UpdateLayer | Tellustris/Src/Components/TilemapColliderComponent.cpp:69-148 | the layer's old entry is killed and swap-removed; a new entry with a new entity and shapes covering the map without overlap is appended |
| TilemapColliderComponents.TilemapColliderComponent.DropLayer | Tellustris/Src/Components/TilemapColliderComponent.cpp:71-77 | the entry of the layer, if there is one, has its entity killed and is replaced by the last entry; the other entries and their ids stay and the ids stay distinct |
| TilemapColliderComponents.TilemapColliderComponent.ClearLayers | Tellustris/Src/Components/TilemapColliderComponent.cpp:53-55 | every entity is killed in order and the list emptied |
| TilemapColliderComponents.TilemapColliderComponent.RebuildTile | Tellustris/Src/Components/TilemapColliderComponent.cpp:59-65 | one tile of the rebuild extends the list as `SeenStep` says |
| TilemapColliderComponents.TilemapColliderComponent.RebuildColumn | Tellustris/Src/Components/TilemapColliderComponent.cpp:58-66 | one column of the rebuild, top to bottom |
| TilemapColliderComponents.TilemapColliderComponent.UpdateLayers | Tellustris/Src/Components/TilemapColliderComponent.cpp:48-67 | without a map nothing changes; with one every entry is killed and the list rebuilt with one covering entry per collision id, in order of first appearance |
| TilemapColliderComponents.TilemapColliderComponent.AttachTilemap | Tellustris/Src/Components/TilemapColliderComponent.cpp:26-36 | the callback is connected exactly when there is a map, and the layers are rebuilt |
| TilemapColliderComponents.TilemapColliderComponent.Assign | Tellustris/Src/Components/TilemapColliderComponent.cpp:14-24 | copying attaches the other component's map |
| TilemapColliderComponents.TilemapColliderComponent.OnTilemapModified | Tellustris/Src/Components/TilemapColliderComponent.cpp:38-46 | a position inside the map rebuilds the tile's layer; one outside rebuilds every layer, and the read that follows is out of range |
| CollisionDefinitions.ResetInfos | Tellustris/Src/GameData/CollisionDefinition.cpp:138-145 | a reset slot has the empty name and no contact with any of the 32 slots |
| CollisionDefinitions.OrBitIf | Tellustris/Src/GameData/CollisionDefinition.cpp:69-106 | one step of a mask loop sets bit i exactly when contact i is of the kind collected, and keeps the other bits |
| CollisionDefinitions.MaskBit | Tellustris/Src/GameData/CollisionDefinition.cpp:62-109 | bit j of a row's mask is set exactly when contact j is of the kind that mask collects |
| CollisionDefinitions.MaskUpToStep | Tellustris/Src/GameData/CollisionDefinition.cpp:68-70 | one more pass of the loop ors in the bit of the next contact |
| CollisionDefinitions.MaskUnionUpTo | Tellustris/Src/GameData/CollisionDefinition.cpp:62-109 | after any number of passes the any-contact mask is the union of the collision and trigger masks |
| CollisionDefinitions.MaskUnion | Tellustris/Src/GameData/CollisionDefinition.cpp:62-109 | `collisionAndTriggerMask` is the bitwise union of `collisionMask` and `triggerMask` |
| CollisionDefinitions.FindName | Tellustris/Src/GameData/CollisionDefinition.cpp:37-49 | the `find_if` over all 32 slots: the first slot with that name, or 32 |
| CollisionDefinitions.Shifted | Tellustris/Src/GameData/CollisionDefinition.cpp:28-32 | the table after `removeLayer` keeps its 32 slots |
| CollisionDefinitions.SetBoth | Tellustris/Src/GameData/CollisionDefinition.cpp:121-122 | the table after `setCollision` keeps its slots |
| CollisionDefinitions.SetBothReads | Tellustris/Src/GameData/CollisionDefinition.cpp:116-136 | after `setCollision(a, b, t)`, `getCollision` gives t both ways; every other pair and every name read as before |
| CollisionDefinitions.RemoveKeepsColumns | Tellustris/Src/GameData/CollisionDefinition.cpp:24-33 | rows below the one removed stay as they were, columns included |
| CollisionDefinitions.RemoveLeavesStaleColumn | Tellustris/Src/GameData/CollisionDefinition.cpp:24-33 | on a concrete table, removing layer 1 makes layer 0 collide with the old layer 2, which it did not collide with before |
| CollisionDefinitions.EmptyNameFound | Tellustris/Src/GameData/CollisionDefinition.cpp:35-142 | a reset slot has the empty name, so `haveLayer("")` holds while a slot is free |
| CollisionDefinitions.CollisionDefinition.constructor | Tellustris/Include/GameData/CollisionDefinition.h:58-59 | every slot starts reset and no layer is in use |
| CollisionDefinitions.CollisionDefinition.HaveLayerName | Tellustris/Src/GameData/CollisionDefinition.cpp:35-38 | true exactly when some slot, in use or not, has the name |
| CollisionDefinitions.CollisionDefinition.HaveLayer | Tellustris/Src/GameData/CollisionDefinition.cpp:40-43 | a layer in use is one of the 32 slots |
| CollisionDefinitions.CollisionDefinition.LayerCount | Tellustris/Src/GameData/CollisionDefinition.cpp:52-55 | at most 32, and `haveLayer(index)` holds exactly for the indices below it |
| CollisionDefinitions.CollisionDefinition.LayerIndex | Tellustris/Src/GameData/CollisionDefinition.cpp:45-50 | requires the name to exist (the assertion); the first slot with that name |
| CollisionDefinitions.CollisionDefinition.ResetLayer | Tellustris/Src/GameData/CollisionDefinition.cpp:138-145 | only that slot changes, to the reset slot |
| CollisionDefinitions.CollisionDefinition.AddLayer | Tellustris/Src/GameData/CollisionDefinition.cpp:7-17 | requires a free slot and a new name (the assertions); the next slot gets the name and no contact, the count grows by one, and the name is found at the index returned |
| CollisionDefinitions.CollisionDefinition.RemoveLayer | Tellustris/Src/GameData/CollisionDefinition.cpp:24-33 | the rows above the index move down one slot unchanged, the freed top slot is reset and the count drops by one |
| CollisionDefinitions.CollisionDefinition.RemoveLayerNamed | Tellustris/Src/GameData/CollisionDefinition.cpp:19-22 | the same, at the first slot with that name |
| CollisionDefinitions.CollisionDefinition.SetCollision | Tellustris/Src/GameData/CollisionDefinition.cpp:116-123 | the contact is stored on both sides and reads back both ways |
| CollisionDefinitions.CollisionDefinition.SetCollisionNamed | Tellustris/Src/GameData/CollisionDefinition.cpp:111-114 | the same, by the names' slots |
| CollisionDefinitions.CollisionDefinition.GetCollision | Tellustris/Src/GameData/CollisionDefinition.cpp:129-135 | requires both layers in use (the assertions); the contact agrees with bit b of layer a's any-contact, collision and trigger masks |
| CollisionDefinitions.CollisionDefinition.GetCollisionNamed | Tellustris/Src/GameData/CollisionDefinition.cpp:124-127 | the contact of the first slots with the names, as the first name's collision and trigger masks record it at the second's bit |
| CollisionDefinitions.CollisionDefinition.CollisionAndTriggerMask | Tellustris/Src/GameData/CollisionDefinition.cpp:62-73 | the loop computes the mask of every contact of the row |
| CollisionDefinitions.CollisionDefinition.CollisionMask | Tellustris/Src/GameData/CollisionDefinition.cpp:80-91 | the loop computes the mask of the `Collision` contacts |
| CollisionDefinitions.CollisionDefinition.TriggerMask | Tellustris/Src/GameData/CollisionDefinition.cpp:98-109 | the loop computes the mask of the `Trigger` contacts |
| CollisionDefinitions.CollisionDefinition.MasksNamed | Tellustris/Src/GameData/CollisionDefinition.cpp:57-96 | the three masks of the layer with that name |
| ChunkCollisions.HaveFullCollisionAt | Tellustris/Src/GameData/Behaviours/ChunkCollisionBehaviour.cpp:177-186 | the answer is true exactly when some layer's tile at (x, y) has collision layer c and a full collider |
| ChunkCollisions.FullTileStartsBox | Tellustris/Src/GameData/Behaviours/ChunkCollisionBehaviour.cpp:98-147 | every full tile of collision layer c is the top-left corner of a box of the built collider, so every full tile is covered |
| ChunkCollisions.MergedBoxOverlaps | Tellustris/Src/GameData/Behaviours/ChunkCollisionBehaviour.cpp:98-147 | since the scan never skips a tile already covered, a box of two or more tiles always shares a tile with another box of the collider |
| ChunkCollisions.CellsStep | Tellustris/Src/GameData/Behaviours/ChunkCollisionBehaviour.cpp:101-111 | a tile that is not full adds its per-layer cells and keeps the scan invariant (boxes hold only full tiles, marks match the boxes, visited tiles are accounted for) |
| ChunkCollisions.BoxStep | Tellustris/Src/GameData/Behaviours/ChunkCollisionBehaviour.cpp:141-145 | adding and marking a box made of full tiles starting at the current tile keeps the scan invariant |
| ChunkCollisions.ScanStart | Tellustris/Src/GameData/Behaviours/ChunkCollisionBehaviour.cpp:94-98 | an empty coverage matrix and no shapes satisfy the scan invariant at the first tile |
| ChunkCollisions.ColumnStep | Tellustris/Src/GameData/Behaviours/ChunkCollisionBehaviour.cpp:98-99 | the invariant at the bottom of a column is the invariant at the top of the next |
| ChunkCollisions.ScanDone | Tellustris/Src/GameData/Behaviours/ChunkCollisionBehaviour.cpp:98-147 | at the end of the scan every shape is a box of full tiles or a cell, every full tile starts a box and every tile that is not full has its cells |
| ChunkCollisions.BoxWidth | Tellustris/Src/GameData/Behaviours/ChunkCollisionBehaviour.cpp:114-122 | the width is at least one and stays in the chunk; every tile after the start within it is full and uncovered, and the first tile past it is not, or the chunk ends |
| ChunkCollisions.RowFreeLoop | Tellustris/Src/GameData/Behaviours/ChunkCollisionBehaviour.cpp:126-133 | the flag is true exactly when every tile of the row across the width is full and uncovered |
| ChunkCollisions.BoxHeight | Tellustris/Src/GameData/Behaviours/ChunkCollisionBehaviour.cpp:123-139 | the height is at least one and stays in the chunk; every row below the start within it is free across the width, and the next row is not, or the chunk ends |
| ChunkCollisions.AddBox | Tellustris/Src/GameData/Behaviours/ChunkCollisionBehaviour.cpp:112-145 | at a full tile a box starting there, made only of full tiles, is appended and marked, and the scan invariant moves on by one tile |
| ChunkCollisions.AddCells | Tellustris/Src/GameData/Behaviours/ChunkCollisionBehaviour.cpp:101-111 | the shapes appended for a tile that is not full are exactly its cells, one per layer whose collider there is on c |
| ChunkCollisions.ScanTile | Tellustris/Src/GameData/Behaviours/ChunkCollisionBehaviour.cpp:100-146 | one tile of the scan keeps the scan invariant and moves it on by one tile |
| ChunkCollisions.ScanColumn | Tellustris/Src/GameData/Behaviours/ChunkCollisionBehaviour.cpp:99-147 | one column of the scan moves the invariant from the top of the column to the top of the next |
| ChunkCollisions.NewCoverage | Tellustris/Src/GameData/Behaviours/ChunkCollisionBehaviour.cpp:94-96 | the new coverage matrix is fresh, square of the chunk size, with nothing covered |
| ChunkCollisions.BuildChunkColliders | Tellustris/Src/GameData/Behaviours/ChunkCollisionBehaviour.cpp:94-147 | the collider built for c covers every full tile by a box of full tiles starting there and every other colliding tile by its cells, and holds nothing else |
| ChunkCollisions.LayerIds | Tellustris/Src/GameData/Behaviours/ChunkCollisionBehaviour.cpp:54-56 | the ids of the entries, in order |
| ChunkCollisions.LayerEntities | Tellustris/Src/GameData/Behaviours/ChunkCollisionBehaviour.cpp:75-80 | the entities of the entries, in order |
| ChunkCollisions.FindChunkLayer | Tellustris/Src/GameData/Behaviours/ChunkCollisionBehaviour.cpp:84-85 | the index found is the first entry with that id, or the count when none has it |
| ChunkCollisions.Category | Tellustris/Src/GameData/Behaviours/ChunkCollisionBehaviour.cpp:155 | the category of collision layer c is a single bit |
| ChunkCollisions.RebuiltChunkIds | Tellustris/Src/GameData/Behaviours/ChunkCollisionBehaviour.cpp:40-60 | the ids the scan creates are distinct, and an id is among them exactly when some tile of some layer of the chunk collides with that collision layer |
| ChunkCollisions.IdsStep | Tellustris/Src/GameData/Behaviours/ChunkCollisionBehaviour.cpp:49-58 | one tile of the scan adds its collision layer to the created ids exactly when the tile collides and the id is not yet there |
| ChunkCollisions.BuildLayer | Tellustris/Src/GameData/Behaviours/ChunkCollisionBehaviour.cpp:82-162 | the entry built carries the id and entity given, the collider of c and the category and mask of c from the collision table |
| ChunkCollisions.DropEntry | Tellustris/Src/GameData/Behaviours/ChunkCollisionBehaviour.cpp:67-70 | the swap-remove leaves one entry fewer |
| ChunkCollisions.DropEntryEntries | Tellustris/Src/GameData/Behaviours/ChunkCollisionBehaviour.cpp:67-70 | with distinct ids the swap-remove drops exactly entry i, keeps every other entry and keeps the ids distinct |
| ChunkCollisions.ChunkCollisionBehaviour.constructor | Tellustris/Src/GameData/Behaviours/ChunkCollisionBehaviour.cpp:9-13 | a new behaviour has no entries, no subscriptions and has killed nothing |
| ChunkCollisions.ChunkCollisionBehaviour.Clone | Tellustris/Src/GameData/Behaviours/ChunkCollisionBehaviour.cpp:15-19 | the clone is a fresh behaviour with nothing built and no subscription |
| ChunkCollisions.ChunkCollisionBehaviour.ClearCollisions | Tellustris/Src/GameData/Behaviours/ChunkCollisionBehaviour.cpp:75-80 | every entry's entity is killed, in order, and the list is emptied; nothing else changes |
| ChunkCollisions.ChunkCollisionBehaviour.CreateCollisionLayer | Tellustris/Src/GameData/Behaviours/ChunkCollisionBehaviour.cpp:82-162 | the entry of c is replaced in place, keeping its entity, or appended with the next entity, and holds the collider and settings of c |
| ChunkCollisions.ChunkCollisionBehaviour.ScanCollisionTile | Tellustris/Src/GameData/Behaviours/ChunkCollisionBehaviour.cpp:49-58 | one tile of the scan keeps the built entries in step with the ids created so far, one tile further on |
| ChunkCollisions.ChunkCollisionBehaviour.ScanCollisionColumn | Tellustris/Src/GameData/Behaviours/ChunkCollisionBehaviour.cpp:47-59 | one column of the scan keeps the built entries in step with the ids created, one column further on |
| ChunkCollisions.ChunkCollisionBehaviour.ScanCollisionLayer | Tellustris/Src/GameData/Behaviours/ChunkCollisionBehaviour.cpp:40-60 | one layer of the scan keeps the entries in step with the ids created, and subscribes to the layer when not yet subscribed |
| ChunkCollisions.Sweep | Tellustris/Src/GameData/Behaviours/ChunkCollisionBehaviour.cpp:62-72 | the removal loop from a position on, with a removed entry's place taken by the last one and examined again: every entry left has a created id, and entries left plus entities killed number the entries given |
| ChunkCollisions.ChunkCollisionBehaviour.DropStale | Tellustris/Src/GameData/Behaviours/ChunkCollisionBehaviour.cpp:62-72 | the result of `Sweep` on the old list: exactly the entries whose id was not created are removed, their entities appended to the killed list in the order the loop kills them; when every id was created nothing changes |
| ChunkCollisions.ChunkCollisionBehaviour.UpdateCollisions | Tellustris/Src/GameData/Behaviours/ChunkCollisionBehaviour.cpp:34-73 | the old entities are killed; the new entries are, in scan order, the distinct colliding collision layers of the chunk, each with a new entity, its collider and its settings; every layer is subscribed |
| ChunkCollisions.ChunkCollisionBehaviour.OnEnable | Tellustris/Src/GameData/Behaviours/ChunkCollisionBehaviour.cpp:21-25 | the layer-changed callback is connected and the entries are those of a full update |
| ChunkCollisions.ChunkCollisionBehaviour.OnDisable | Tellustris/Src/GameData/Behaviours/ChunkCollisionBehaviour.cpp:27-32 | the entries are cleared, their entities killed, and every subscription is dropped |
| Animations.BoundsContainFrames | Tellustris/Src/Animator/Animation.cpp:18-40 | every frame, shifted by its offset, lies inside the bounds |
| Animations.BoundsAttained | Tellustris/Src/Animator/Animation.cpp:27-37 | each edge of the bounds is the matching edge of some shifted frame |
| Animations.BoundsSmallest | Tellustris/Src/Animator/Animation.cpp:18-40 | any rectangle holding every shifted frame holds the bounds, so the bounds are the smallest such rectangle |
| Animations.TotalTimeConcat | Tellustris/Src/Animator/Animation.cpp:9-16 | the duration of two runs of frames played in turn is the sum of their durations |
| Animations.TotalTimeBounds | Tellustris/Src/Animator/Animation.cpp:9-16 | with no negative frame time, no single frame lasts longer than the whole animation |
| Animations.TotalTimeNonNegative | Tellustris/Src/Animator/Animation.cpp:9-16 | with no negative frame time, the duration is not negative |
| Animations.Animation.constructor | Tellustris/Src/Animator/Animation.cpp:3-7 | a new animation has no frame and the loop flag given, false by default |
| Animations.Animation.PushBack | Tellustris/Include/Animator/Animation.h:28 | the frame is appended and the loop flag kept |
| Animations.Animation.PopBack | Tellustris/Include/Animator/Animation.h:29 | the last frame is dropped and the loop flag kept |
| Animations.Animation.Duration | Tellustris/Src/Animator/Animation.cpp:9-16 | the result is the total of the frame times; with no negative time it bounds every frame's time |
| Animations.Animation.Bounds | Tellustris/Src/Animator/Animation.cpp:18-40 | no frame gives the empty rectangle, one frame its own shifted rectangle, and otherwise a rectangle holding every shifted frame (the smallest, by the lemmas above) |
| Animators.Names | Tellustris/Include/Animator/Animator.h:12-19 | the names of the states, in order |
| Animators.Kept | Tellustris/Src/Animator/Animator.cpp:24-27 | exactly the transitions that touch neither end at the removed state remain, and no more than before |
| Animators.KeptConcat | Tellustris/Src/Animator/Animator.cpp:24-27 | the removal filter keeps order: filtering a list is filtering its two halves |
| Animators.RenumberAll | Tellustris/Src/Animator/Animator.cpp:29-35 | each kept transition has both ends shifted down past the removed state, in place |
| Animators.ShiftKeepsState | Tellustris/Src/Animator/Animator.cpp:29-37 | after the erase, the shifted index of any other state names that same state |
| Animators.RemovedLinks | Tellustris/Src/Animator/Animator.cpp:20-41 | after a removal every remaining transition joins, by its shifted indices, the same two states as before, and its ends are in range |
| Animators.RemoveDropsName | Tellustris/Src/Animator/Animator.cpp:15-18 | with distinct names, removing the state with a name leaves no state with that name |
| Animators.RenameDropsName | Tellustris/Src/Animator/Animator.cpp:71-77 | renaming to an unused name leaves the old name unused and the names distinct |
| Animators.RemoveKeepsNamesDistinct | Tellustris/Src/Animator/Animator.cpp:37 | erasing a state keeps the remaining names distinct |
| Animators.UpdateKeepsNames | Tellustris/Src/Animator/Animator.cpp:108-156 | changing a state's animation or flags leaves the names unchanged |
| Animators.ExistsAsWrittenAdmitsCount | Tellustris/Src/Animator/Animator.cpp:87-90 | the written guard `index <= size` accepts the state count, which names no state; the corrected guard refuses it |
| Animators.FirstNamed | Tellustris/Src/Animator/Animator.cpp:43-53 | the search `animationIndex` performs: a position holding the name with no earlier state holding it |
| Animators.FirstNamedUnique | Tellustris/Src/Animator/Animator.cpp:43-53 | when the names are distinct, the first state with a name is the only one, so the search finds the state the caller means |
| Animators.Animator.constructor | Tellustris/Include/Animator/Animator.h:38-83 | a new animator has no state, no transition and default index 0 |
| Animators.Animator.AnimationExistNamed | Tellustris/Src/Animator/Animator.cpp:79-85 | the answer is true exactly when some state has the name |
| Animators.Animator.AnimationExist | Tellustris/Src/Animator/Animator.cpp:87-90 | the answer is true exactly when the index names a state or equals the state count |
| Animators.Animator.AnimationIndex | Tellustris/Src/Animator/Animator.cpp:43-53 | the index of the first state with the name; a missing name fails the assertion |
| Animators.Animator.AddAnimation | Tellustris/Src/Animator/Animator.cpp:7-13 | a new name's state is appended with no transition, both flags false unless given, and its index, the old count, is returned |
| Animators.Animator.RemoveAnimation | Tellustris/Src/Animator/Animator.cpp:20-41 | the state is erased, the transitions touching it dropped, the others renumbered in order, and the default index moved down when it lay above |
| Animators.Animator.RemoveAnimationNamed | Tellustris/Src/Animator/Animator.cpp:15-18 | removal at the index of the first state with the name: that state is erased, the transitions touching it dropped and the rest renumbered, the default index moved down when it lay above; one state fewer and the name no longer present |
| Animators.Animator.RenameAnimation | Tellustris/Src/Animator/Animator.cpp:71-77 | only that state's name changes, to a name not in use |
| Animators.Animator.RenameAnimationNamed | Tellustris/Src/Animator/Animator.cpp:66-69 | only the first state with the name is renamed, everything else about it and every other state kept; transitions and default index unchanged; the new name is present and the old one gone |
| Animators.Animator.SetAnimation | Tellustris/Src/Animator/Animator.cpp:108-112 | only that state's animation changes |
| Animators.Animator.SetAnimationXFlipped | Tellustris/Src/Animator/Animator.cpp:130-134 | only that state's horizontal flag changes |
| Animators.Animator.SetAnimationYFlipped | Tellustris/Src/Animator/Animator.cpp:152-156 | only that state's vertical flag changes |
| Animators.Animator.SetDefaultAnimation | Tellustris/Src/Animator/Animator.cpp:173-177 | the default index becomes the given state's; states and transitions are kept |
| Animators.OnlyNamed | Tellustris/Src/Animator/Animator.cpp:43-59 | a state is found by its own name, and with distinct names the search returns its index |
| Animators.OnlyNamedAll | Tellustris/Src/Animator/Animator.cpp:43-53 | with distinct names every state carrying a name sits where the search finds it |
| Animators.Animator.AnimationName | Tellustris/Src/Animator/Animator.cpp:55-59 | requires the index to name a state (the assertion); the name is in use, and looking it up gives the index back |
| Animators.Animator.AnimationCount | Tellustris/Src/Animator/Animator.cpp:61-64 | the indices that name a state are exactly those below the count |
| Animators.Animator.AnimationOfNamed | Tellustris/Src/Animator/Animator.cpp:92-95 | requires the name to exist (the assertion in `animationIndex`); the animation of the state carrying the name |
| Animators.Animator.AnimationOf | Tellustris/Src/Animator/Animator.cpp:97-101 | requires the index to name a state; reading by index agrees with reading by that state's name |
| Animators.Animator.IsAnimationXFlippedNamed | Tellustris/Src/Animator/Animator.cpp:114-117 | the horizontal flag of the state carrying the name |
| Animators.Animator.IsAnimationXFlipped | Tellustris/Src/Animator/Animator.cpp:119-123 | reading the horizontal flag by index agrees with reading it by that state's name |
| Animators.Animator.IsAnimationYFlippedNamed | Tellustris/Src/Animator/Animator.cpp:136-139 | the vertical flag of the state carrying the name |
| Animators.Animator.IsAnimationYFlipped | Tellustris/Src/Animator/Animator.cpp:141-145 | reading the vertical flag by index agrees with reading it by that state's name |
| Animators.Animator.DefaultAnimationName | Tellustris/Src/Animator/Animator.cpp:158-166 | requires the default index to name a state; the name is in use and looking it up gives the default index back |
| Animators.Animator.SetAnimationNamed | Tellustris/Src/Animator/Animator.cpp:103-106 | the first state with that name gets the animation; every other field and state, the transitions and the default index are kept |
| Animators.Animator.SetAnimationXFlippedNamed | Tellustris/Src/Animator/Animator.cpp:125-128 | the first state with that name gets the horizontal flag; every other field and state, the transitions and the default index are kept |
| Animators.Animator.SetAnimationYFlippedNamed | Tellustris/Src/Animator/Animator.cpp:147-150 | the first state with that name gets the vertical flag; every other field and state, the transitions and the default index are kept |
| Animators.Animator.SetDefaultAnimationNamed | Tellustris/Src/Animator/Animator.cpp:168-171 | the default index becomes the position of the first state with that name; states and transitions are kept |
| TilemapAnimation.Ids | Tellustris/Include/Tilemap/TilemapAnimations.h:19-24 | the tile ids of the entries, in order |
| TilemapAnimation.Find | Tellustris/Src/Tilemap/TilemapAnimations.cpp:16 | the index found carries the id and no earlier entry does; the length means no entry carries it |
| TilemapAnimation.FindUnique | Tellustris/Src/Tilemap/TilemapAnimations.cpp:67-74 | with one entry per id, the search finds the only entry carrying the id |
| TilemapAnimation.FindSameIds | Tellustris/Src/Tilemap/TilemapAnimations.cpp:16-21 | two lists with the same ids give the same search result, so overwriting an entry's animation does not move it |
| TilemapAnimation.FindAppend | Tellustris/Src/Tilemap/TilemapAnimations.cpp:22 | after an append the search finds an old entry first, and the new one only when no old entry carries the id |
| TilemapAnimation.ReplaceLookup | Tellustris/Src/Tilemap/TilemapAnimations.cpp:17-21 | overwriting an entry in place keeps its index, changes the lookup of its id only, and keeps one entry per id |
| TilemapAnimation.AppendIds | Tellustris/Src/Tilemap/TilemapAnimations.cpp:22 | appending an id no entry carries keeps one entry per id |
| TilemapAnimation.AppendLookup | Tellustris/Src/Tilemap/TilemapAnimations.cpp:22 | appending a new id's entry adds the lookup of that id only |
| TilemapAnimation.SwapRemove | Tellustris/Src/Tilemap/TilemapAnimations.cpp:38-39 | the swap-remove leaves one entry fewer |
| TilemapAnimation.SwapRemoveLookup | Tellustris/Src/Tilemap/TilemapAnimations.cpp:35-41 | swap-removing an id's entry removes the lookup of that id only and keeps one entry per id |
| TilemapAnimation.TilemapAnimations.constructor | Tellustris/Src/Tilemap/TilemapAnimations.cpp:8-10 | a new registry has no entry, the frame time given (1 by default) and has sent no event |
| TilemapAnimation.TilemapAnimations.RegisterAnimation | Tellustris/Src/Tilemap/TilemapAnimations.cpp:12-25 | the id now looks up the new animation and expression and no other id changes; a known id's entry is overwritten in place, every other entry keeping its position; a new one is appended; one event is sent |
| TilemapAnimation.TilemapAnimations.RemoveAnimation | Tellustris/Src/Tilemap/TilemapAnimations.cpp:33-42 | the id no longer looks anything up and no other id changes; an event is sent exactly when the id was present |
| TilemapAnimation.TilemapAnimations.HaveAnimation | Tellustris/Src/Tilemap/TilemapAnimations.cpp:44-47 | true exactly when some entry carries the id, that is when its lookup succeeds |
| TilemapAnimation.FindAll | Tellustris/Src/Tilemap/TilemapAnimations.cpp:49-65 | with one entry per id, every position carrying an id is where the search stops |
| TilemapAnimation.TilemapAnimations.AnimationOf | Tellustris/Src/Tilemap/TilemapAnimations.cpp:49-56 | requires a registered id (the assertion); the frames the id's lookup gives, held by the only entry carrying it |
| TilemapAnimation.TilemapAnimations.AnimationExpression | Tellustris/Src/Tilemap/TilemapAnimations.cpp:58-65 | requires a registered id (the assertion); the expression the id's lookup gives, held by the only entry carrying it |
| TilemapAnimation.TilemapAnimations.AnimationAt | Tellustris/Src/Tilemap/TilemapAnimations.cpp:76-80 | requires an index in range (the assertion); reading by position agrees with reading by the id of the entry there |
| TilemapAnimation.TilemapAnimations.Index | Tellustris/Src/Tilemap/TilemapAnimations.cpp:67-74 | the only position whose entry carries the id, and the animation there is the id's animation |
| TilemapAnimation.TilemapAnimations.SetFrameTime | Tellustris/Src/Tilemap/TilemapAnimations.cpp:82-86 | the frame time is set, the entries kept and one event sent |
| AnimatorComponents.Names | Tellustris/Include/Components/AnimatorComponent.h:68 | the property names, in order |
| AnimatorComponents.IndexOf | Tellustris/Src/Components/AnimatorComponent.cpp:52-54 | the index found carries the name and no earlier property does; the length means no property carries it |
| AnimatorComponents.IndexOfMissing | Tellustris/Src/Components/AnimatorComponent.cpp:50-57 | the search runs off the end exactly when no property has the name |
| AnimatorComponents.IndexOfSameNames | Tellustris/Src/Components/AnimatorComponent.cpp:50-57 | two lists with the same names give the same search result, so writing values never moves a property |
| AnimatorComponents.AppendNames | Tellustris/Src/Components/AnimatorComponent.cpp:55-56 | appending a new name keeps the names distinct and adds exactly that name at the end |
| AnimatorComponents.WriteValue | Tellustris/Src/Components/AnimatorComponent.cpp:59-77 | writing at the index found for a name makes it the value read back for that name, and every other name reads as before |
| AnimatorComponents.AppendValue | Tellustris/Src/Components/AnimatorComponent.cpp:55-77 | appending a new name reads back its value for that name and leaves every other name's value alone |
| AnimatorComponents.FindSprite | Tellustris/Src/Components/AnimatorComponent.cpp:28-35 | the position of the sprite, or the length exactly when it is not attached |
| AnimatorComponents.SwapRemoveSprites | Tellustris/Src/Components/AnimatorComponent.cpp:36-40 | swap-removing a sprite from a list without repeats drops exactly that sprite and keeps the list without repeats |
| AnimatorComponents.AnimatorComponent.constructor | Tellustris/Src/Components/AnimatorComponent.cpp:13-16 | a new component holds the four default properties at indices 0 to 3 with value 0, no sprite, speed 1 and state 0 |
| AnimatorComponents.AnimatorComponent.AddDefaultProperties | Tellustris/Src/Components/AnimatorComponent.cpp:196-202 | on an empty list, "time", "timeSingle", "finished" and "loops" are registered in that order and their indices remembered |
| AnimatorComponents.AnimatorComponent.PropertyIndex | Tellustris/Src/Components/AnimatorComponent.cpp:50-57 | a known name gives its first index and changes nothing; a new name is appended with the default value and gets the last index |
| AnimatorComponents.AnimatorComponent.SetProperty | Tellustris/Src/Components/AnimatorComponent.cpp:66-69 | only the value at that index changes; names and everything else are kept |
| AnimatorComponents.AnimatorComponent.SetPropertyNamed | Tellustris/Src/Components/AnimatorComponent.cpp:59-64 | the name then reads back as the value, every other name reads as before, and the name is appended only when it was new; sprites, speed, current state and the four default property indices are kept |
| AnimatorComponents.AnimatorComponent.PropertyNamed | Tellustris/Src/Components/AnimatorComponent.cpp:71-77 | the value of the first property with the name, and the default value 0 for a missing name |
| AnimatorComponents.AnimatorComponent.PropertyAt | Tellustris/Src/Components/AnimatorComponent.cpp:79-84 | an index past the end reads as the default value 0 |
| AnimatorComponents.AnimatorComponent.ResetProperties | Tellustris/Src/Components/AnimatorComponent.cpp:86-97 | keeping the indices (the default), every value is zeroed with the names and order kept; otherwise the list restarts as the four defaults |
| AnimatorComponents.AnimatorComponent.AttachSprite | Tellustris/Src/Components/AnimatorComponent.cpp:25-31 | a sprite is appended only when not yet attached, so the list stays without repeats |
| AnimatorComponents.AnimatorComponent.DetachSprite | Tellustris/Src/Components/AnimatorComponent.cpp:33-43 | true exactly when the sprite was attached; then the last sprite moves into its slot and the last slot is dropped, so it is gone and every other sprite kept; otherwise the list is unchanged; nothing else changes |
| AnimatorComponents.AnimatorComponent.DetachAllSprite | Tellustris/Src/Components/AnimatorComponent.cpp:45-48 | no sprite remains; nothing else changes |
| AnimatorComponents.AnimatorComponent.SetSpeed | Tellustris/Src/Components/AnimatorComponent.cpp:99-102 | the speed is set; nothing else changes |
| ExpressionValues.TruncDivSigns | Tellustris/Include/Utility/Expression/ExpressionValue.h:187-194 | the `/=` of a reciprocal node truncates toward zero: it is odd in each argument and its magnitude is the quotient of the magnitudes, unlike the floor quotient |
| ExpressionValues.Values | Tellustris/Include/Utility/Expression/ExpressionValue.h:89-95 | when every operand has a value, the values in operand order |
| ExpressionValues.Eval | Tellustris/Include/Utility/Expression/ExpressionValue.h:32-537 | comparison and logic nodes evaluate to 0 or 1 |
| ExpressionValues.FoldSumConcat | Tellustris/Include/Utility/Expression/ExpressionValue.h:89-95 | summing two runs of operands one after the other adds their sums |
| ExpressionValues.FoldProductConcat | Tellustris/Include/Utility/Expression/ExpressionValue.h:150-156 | multiplying two runs of operands one after the other multiplies their products |
| ExpressionValues.Reverse | Tellustris/Include/Utility/Expression/ExpressionValue.h:89-95 | the operands in reverse order |
| ExpressionValues.FoldReverse | Tellustris/Include/Utility/Expression/ExpressionValue.h:89-156 | the sum and the product of a run of values do not depend on its order |
| ExpressionValues.SumProductReversed | Tellustris/Include/Utility/Expression/ExpressionValue.h:89-156 | a sum or product node with its operands reversed has the same value, and is undefined on the same inputs |
| ExpressionValues.NotValues | Tellustris/Include/Utility/Expression/ExpressionValue.h:528-532 | `!` gives 1 exactly on 0, and `!!` gives 1 exactly on a defined nonzero value |
| ExpressionValues.LogicSteps | Tellustris/Include/Utility/Expression/ExpressionValue.h:477-532 | an or node gives 1 once its left side is nonzero, an and node gives 0 once its left side is 0, and otherwise each gives the truth of its right side |
| ExpressionValues.DeMorganAnd | Tellustris/Include/Utility/Expression/ExpressionValue.h:503-532 | not (a and b) and (not a) or (not b) agree, undefined results included |
| ExpressionValues.DeMorganOr | Tellustris/Include/Utility/Expression/ExpressionValue.h:477-532 | not (a or b) and (not a) and (not b) agree, undefined results included |
| ExpressionValues.NatToString | Tellustris/Include/Utility/Expression/ExpressionValue.h:42-45 | the printed form of a number is nonempty and made of decimal digits |
| ExpressionValues.NatToStringRoundTrip | Tellustris/Include/Utility/Expression/ExpressionValue.h:42-45 | reading back the printed form of a non-negative number gives the number |
| ExpressionValues.IntToStringRoundTrip | Tellustris/Include/Utility/Expression/ExpressionValue.h:42-45 | reading back the printed form of any integer, negative included, gives the integer |
| ExpressionValues.ToString | Tellustris/Include/Utility/Expression/ExpressionValue.h:42-537 | a number or a constant prints as text that parses back to its value; `NaryToString` and `ToStringBalanced` state the forms of the other nodes |
| ExpressionValues.NegativeRoundTrip | Tellustris/Include/Utility/Expression/ExpressionValue.h:42-45 | a negative integer prints as a minus sign before its magnitude and reads back as itself |
| ExpressionValues.NonNegativeRoundTrip | Tellustris/Include/Utility/Expression/ExpressionValue.h:42-45 | a non-negative integer prints without a sign and reads back as itself |
| ExpressionValues.SignedText | Tellustris/Include/Utility/Expression/ExpressionValue.h:42-45 | digits after a minus sign read as the negation of what the digits alone read as |
| ExpressionValues.NetConcat | Tellustris/Include/Utility/Expression/ExpressionValue.h:97-107 | the parenthesis count of a concatenation is the sum of the counts |
| ExpressionValues.PlainNet | Tellustris/Include/Utility/Expression/ExpressionValue.h:97-107 | text without parentheses counts zero |
| ExpressionValues.PlainBalanced | Tellustris/Include/Utility/Expression/ExpressionValue.h:97-107 | text without parentheses is balanced |
| ExpressionValues.BalancedConcat | Tellustris/Include/Utility/Expression/ExpressionValue.h:97-107 | two balanced pieces in a row are balanced |
| ExpressionValues.BalancedConcat3 | Tellustris/Include/Utility/Expression/ExpressionValue.h:97-107 | three balanced pieces in a row are balanced |
| ExpressionValues.NetParen | Tellustris/Include/Utility/Expression/ExpressionValue.h:97-107 | one character counts +1 for an opening, -1 for a closing parenthesis, 0 otherwise |
| ExpressionValues.BalancedWrap | Tellustris/Include/Utility/Expression/ExpressionValue.h:97-107 | balanced text between an opening and a closing parenthesis, each padded with plain text, is balanced |
| ExpressionValues.JoinBalanced | Tellustris/Include/Utility/Expression/ExpressionValue.h:97-107 | balanced items joined by a separator without parentheses are balanced |
| ExpressionValues.IntToStringPlain | Tellustris/Include/Utility/Expression/ExpressionValue.h:42-45 | a printed number holds no parenthesis |
| ExpressionValues.Literals | Tellustris/Include/Utility/Expression/ExpressionValue.h:97-485 | the separators printed between operands hold no parenthesis, and the prefixes and suffix hold exactly one |
| ExpressionValues.ToStringBalanced | Tellustris/Include/Utility/Expression/ExpressionValue.h:42-537 | every printed expression has balanced parentheses, provided no name it prints holds one |
| ExpressionValues.OperandsBalanced | Tellustris/Include/Utility/Expression/ExpressionValue.h:97-107 | a bracketed list of printed operands is balanced |
| ExpressionValues.BinaryBalanced | Tellustris/Include/Utility/Expression/ExpressionValue.h:228-231 | a bracketed binary form of two balanced sides is balanced |
| Expressions.BindOperands | Tellustris/Include/Utility/Expression/Expression.h:68-75 | binding a list of operands keeps their number |
| Expressions.Rebound | Tellustris/Include/Utility/Expression/Expression.h:68-75 | rebinding a walk of parameters keeps its length |
| Expressions.ValuesOf | Tellustris/Include/Utility/Expression/Expression.h:115 | the values of the parameters of a walk, in order |
| Expressions.Zeros | Tellustris/Include/Utility/Expression/Expression.h:77-85 | the zero value for each registered parameter |
| Expressions.ReboundConcat | Tellustris/Include/Utility/Expression/Expression.h:68-75 | rebinding two walks in a row is rebinding their concatenation |
| Expressions.BindOccurrences | Tellustris/Include/Utility/Expression/Expression.h:68-110 | setting values along the tree and then walking it gives the old walk with the new values: every parameter node is reached exactly once |
| Expressions.OperandsOccurrences | Tellustris/Include/Utility/Expression/Expression.h:68-110 | the same for a list of operands |
| Expressions.BindTwice | Tellustris/Include/Utility/Expression/Expression.h:68-85 | setting the parameters twice is setting them once with the second values, so the tree keeps its shape |
| Expressions.UnaryTwice | Tellustris/Include/Utility/Expression/Expression.h:68-85 | the same for a negation or not node |
| Expressions.NaryTwice | Tellustris/Include/Utility/Expression/Expression.h:68-85 | the same for a sum, product, reciprocal or function node |
| Expressions.BinaryTwice | Tellustris/Include/Utility/Expression/Expression.h:68-85 | the same for a power, comparison, or and and node |
| Expressions.OperandsTwice | Tellustris/Include/Utility/Expression/Expression.h:68-85 | the same for a list of operands |
| Expressions.BindSelf | Tellustris/Include/Utility/Expression/Expression.h:68-75 | setting every parameter to the value it holds gives the tree back |
| Expressions.OperandsSelf | Tellustris/Include/Utility/Expression/Expression.h:68-75 | the same for a list of operands |
| Expressions.SplitValues | Tellustris/Include/Utility/Expression/Expression.h:68-75 | values matching the walk of two parts match each part |
| Expressions.BindToString | Tellustris/Include/Utility/Expression/Expression.h:68-101 | a parameter prints its name and not its value, so setting parameters never changes the printed form |
| Expressions.OperandsToString | Tellustris/Include/Utility/Expression/Expression.h:68-101 | the same for each operand of a list |
| Expressions.NaryToString | Tellustris/Include/Utility/Expression/Expression.h:68-101 | the same for a sum, product, reciprocal or function node, whose operands are printed joined by a separator |
| Expressions.IndexOf | Tellustris/Include/Utility/Expression/Expression.h:87-94 | the index found holds the name and no earlier one does; the count means the name is missing |
| Expressions.Assigned | Tellustris/Include/Utility/Expression/Expression.h:68-75 | after setting an index, exactly the nodes registered under it take the value |
| Expressions.RegisterStep | Tellustris/Include/Utility/Expression/Expression.h:104-110 | registering one more parameter node keeps every earlier node's index right, and names exactly the names seen so far |
| Expressions.IndexOfDistinct | Tellustris/Include/Utility/Expression/Expression.h:87-94 | among distinct names, a name's only position is the one found |
| Expressions.IndexOfIs | Tellustris/Include/Utility/Expression/Expression.h:87-94 | a position with the name and none before it is the one found; it is in range exactly when the name is known |
| Expressions.IndexOfAppended | Tellustris/Include/Utility/Expression/Expression.h:104-110 | a new name appended is found at the old count |
| Expressions.ResetIdempotent | Tellustris/Include/Utility/Expression/Expression.h:77-85 | resetting twice leaves the tree as resetting once |
| Expressions.SelfAssignment | Tellustris/Include/Utility/Expression/Expression.h:40-53 | assigning a parsed expression to itself as written loses its tree; the checked assignment keeps it |
| Expressions.Expression.constructor | Tellustris/Include/Utility/Expression/Expression.h:31 | the empty expression has no tree, no names and no registered node |
| Expressions.Expression.Parsed | Tellustris/Include/Utility/Expression/Expression.h:28-110 | an expression with a parsed tree knows exactly the names of its parameter nodes, each node registered under its name's index |
| Expressions.Expression.Copy | Tellustris/Include/Utility/Expression/Expression.h:34-38 | a copy holds the other's tree and knows exactly the names of its parameter nodes; a copy of an expression with no tree has no tree and no parameters |
| Expressions.CopyAsWritten | Tellustris/Include/Utility/Expression/Expression.h:34-38 | the copy constructor as written dereferences a null tree exactly when the other expression has none, and otherwise copies its tree |
| Expressions.EmptyCopy | Tellustris/Include/Utility/Expression/Expression.h:34-38 | copying the empty expression as written dereferences a null tree, while the model's copy is empty and computes 0 |
| Expressions.Expression.Compute | Tellustris/Include/Utility/Expression/Expression.h:56-61 | 0 without a tree, otherwise the value of the tree |
| Expressions.Expression.Text | Tellustris/Include/Utility/Expression/Expression.h:96-101 | empty without a tree, otherwise the printed tree |
| Expressions.Expression.NameIndex | Tellustris/Include/Utility/Expression/Expression.h:87-94 | the first index of the name, in range exactly when the name is known |
| Expressions.Expression.AddParameter | Tellustris/Include/Utility/Expression/Expression.h:104-110 | a new name is appended, a known one kept; the node is registered last under the index of its name, and the names stay distinct |
| Expressions.Expression.RegisterParameters | Tellustris/Include/Utility/Expression/Expression.h:37-110 | from nothing, every parameter node of the tree is registered and the names known are exactly the names in the tree |
| Expressions.Expression.SetParameter | Tellustris/Include/Utility/Expression/Expression.h:68-75 | exactly the nodes registered under the index take the value; names, registrations and printed form are kept |
| Expressions.Expression.SetParameterNamed | Tellustris/Include/Utility/Expression/Expression.h:63-66 | exactly the nodes with that name take the value; an unknown name changes nothing |
| Expressions.Expression.ResetParameters | Tellustris/Include/Utility/Expression/Expression.h:77-85 | every registered node becomes 0, and nothing else changes |
| Expressions.Expression.Assign | Tellustris/Include/Utility/Expression/Expression.h:40-53 | assigning another expression copies its tree; assigning an expression to itself leaves it empty |
| Expressions.Expression.AssignChecked | Tellustris/Include/Utility/Expression/Expression.h:40-53 | every expression, itself included, is copied: the tree becomes the other's and its names are exactly those of the new tree |
| BehaviourComponents.Broadcast | Tellustris/Src/Components/BehaviourComponent.cpp:143-144 | one call of the hook per behaviour, in order of position |
| BehaviourComponents.Started | Tellustris/Src/Components/BehaviourComponent.cpp:45-50 | every behaviour marked started, nothing else changed |
| BehaviourComponents.WithEntity | Tellustris/Src/Components/BehaviourComponent.cpp:94-98 | every behaviour given, or stripped of, the entity, nothing else changed |
| BehaviourComponents.Renumbered | Tellustris/Src/Components/BehaviourComponent.cpp:75-77 | every behaviour's index is its position, nothing else changed |
| BehaviourComponents.StartsExactly | Tellustris/Src/Components/BehaviourComponent.cpp:45-50 | the start pass calls `onStart` on a behaviour exactly when it was not started, and calls no other hook |
| BehaviourComponents.StartsOnce | Tellustris/Src/Components/BehaviourComponent.cpp:45-50 | once every behaviour is started, a later update starts none again |
| BehaviourComponents.StartsStep | Tellustris/Src/Components/BehaviourComponent.cpp:45-50 | one more behaviour in the start pass adds its `onStart` exactly when it was not started |
| BehaviourComponents.BehaviourComponent.constructor | Tellustris/Include/Components/BehaviourComponent.h:13-33 | a new component has no entity, no behaviour and has called no hook |
| BehaviourComponents.BehaviourComponent.Copy | Tellustris/Src/Components/BehaviourComponent.cpp:9-13 | the copy has no entity, called no hook, and holds a fresh clone of each of the other's behaviours (not started, no entity), renumbered from 0 |
| BehaviourComponents.BehaviourComponent.Notify | Tellustris/Src/Components/BehaviourComponent.cpp:143-144 | the hook is called once on every behaviour, in order, and nothing else changes |
| BehaviourComponents.BehaviourComponent.Update | Tellustris/Src/Components/BehaviourComponent.cpp:40-54 | with an entity, the behaviours not yet started are started in order and marked, then every behaviour is updated in order; without one nothing happens |
| BehaviourComponents.BehaviourComponent.Attach | Tellustris/Src/Components/BehaviourComponent.cpp:56-69 | the behaviour is appended with index the old count, and with an entity it gets the entity and is enabled |
| BehaviourComponents.BehaviourComponent.Detach | Tellustris/Src/Components/BehaviourComponent.cpp:71-78 | the behaviour at the index is erased, the others keep their order and are renumbered, and no hook is called |
| BehaviourComponents.BehaviourComponent.DetachAll | Tellustris/Src/Components/BehaviourComponent.cpp:80-85 | with an entity every behaviour is disabled in order; the list itself is kept |
| BehaviourComponents.BehaviourComponent.DetachAllClearing | Tellustris/Src/Components/BehaviourComponent.cpp:80-85 | with an entity every behaviour is disabled in order, then the list is emptied |
| BehaviourComponents.BehaviourComponent.OnAttached | Tellustris/Src/Components/BehaviourComponent.cpp:87-99 | the component gets an entity; every behaviour gets it and is enabled, in order |
| BehaviourComponents.BehaviourComponent.OnDetached | Tellustris/Src/Components/BehaviourComponent.cpp:115-125 | the component loses its entity; every behaviour is disabled in order and loses it |
| BehaviourComponents.BehaviourComponent.OnEntityDestruction | Tellustris/Src/Components/BehaviourComponent.cpp:127-137 | with an entity every behaviour is destroyed in order and loses it, while the component keeps its flag; without one nothing happens |
| BehaviourComponents.BehaviourComponent.OnEntityEvent | Tellustris/Src/Components/BehaviourComponent.cpp:101-153 | with an entity, the event is forwarded to every behaviour in order and nothing else changes |
| BehaviourComponents.BehaviourComponent.OnContact | Tellustris/Src/Components/BehaviourComponent.cpp:155-177 | the contact is forwarded to every behaviour in order, entity or not, and nothing else changes |
| BehaviourComponents.BehaviourComponent.Assign | Tellustris/Src/Components/BehaviourComponent.cpp:15-38 | every old behaviour is disabled; the behaviours become fresh clones of the other's (not started), renumbered and, with an entity, given it and enabled; assigning a component to itself leaves it empty |
| BehaviourComponents.Clones | Tellustris/Include/GameData/Behaviours/Behaviour.h:42-44 | a clone keeps each behaviour's kind and data, and is built anew: not started and holding no entity |
| BehaviourComponents.StartsAll | Tellustris/Src/Components/BehaviourComponent.cpp:44-51 | behaviours none of which is started all get `onStart` on the next update, in order |
| BehaviourComponents.CopiesStartAnew | Tellustris/Src/Components/BehaviourComponent.cpp:15-51 | the behaviours of a copy or an assignment are all started again on the next update |
| BehaviourComponents.DetachAllKeeps | Tellustris/Src/Components/BehaviourComponent.cpp:80-85 | after `detachAll` as written the attached behaviour is still there; after the clearing version none is |
| Events.IdCounter.constructor | Tellustris/Include/Utility/Event/Events.h:9-13 | the counter starts at 0 |
| Events.IdCounter.NextId | Tellustris/Include/Utility/Event/Events.h:9-13 | the identifier returned is the counter, which then moves on by one |
| Events.TwoIds | Tellustris/Include/Utility/Event/Events.h:9-13 | two identifiers handed out in turn are increasing, hence distinct |
| Events.EventsImpl.constructor | Tellustris/Src/Utility/Event/Events.cpp:11-16 | a new connection is not blocked |
| Events.EventsHolder.constructor | Tellustris/Include/Utility/Event/Events.h:53 | a holder made without a connection is disconnected |
| Events.EventsHolder.Holding | Tellustris/Src/Utility/Event/Events.cpp:18-22 | the holder owns the connection given |
| Events.EventsHolder.Move | Tellustris/Src/Utility/Event/Events.cpp:24-28 | the new holder takes the other's connection and the other is left disconnected |
| Events.EventsHolder.IsDisconnected | Tellustris/Src/Utility/Event/Events.cpp:48-51 | true exactly when there is no connection |
| Events.EventsHolder.Connected | Tellustris/Src/Utility/Event/Events.cpp:43-46 | true exactly when not disconnected |
| Events.EventsHolder.IsBlocked | Tellustris/Src/Utility/Event/Events.cpp:53-58 | never blocked without a connection, otherwise the connection's flag |
| Events.EventsHolder.BlockEvent | Tellustris/Src/Utility/Event/Events.cpp:60-65 | the holder then reports blocked exactly when it is connected and the flag given is set; the connection is kept |
| Events.EventsHolder.Disconnect | Tellustris/Src/Utility/Event/Events.cpp:67-72 | the holder is then disconnected and not blocked |
| Events.EventsHolder.MoveAssign | Tellustris/Src/Utility/Event/Events.cpp:30-36 | the holder takes the other's connection after dropping its own, the other is left disconnected, and moving a holder into itself disconnects it |
| Events.DisconnectTwice | Tellustris/Src/Utility/Event/Events.cpp:67-72 | disconnecting a second time leaves the holder disconnected, as once |
| Events.ConnectBlockMove | Tellustris/Src/Utility/Event/Events.cpp:18-65 | a fresh connection is connected and unblocked; blocking it is reported; after a move the new holder carries the flag and the old one is disconnected |
| RandomHashes.HashValues | Tellustris/Include/Utility/RandomHash.h:38-47 | the finaliser's values at 0 and 1, and the largest word wrapping to 0 and hashing to 0 |
| RandomHashes.ChainedFront | Tellustris/Include/Utility/RandomHash.h:57-63 | folding an argument put in front is mixing it in last |
| RandomHashes.LastArgumentFirst | Tellustris/Include/Utility/RandomHash.h:49-63 | the hash of a seed and arguments mixes the last argument with the hashed seed, then folds every earlier argument in from the back |
| RandomHashes.RandomHash.constructor | Tellustris/Include/Utility/RandomHash.h:32-36 | a new generator holds the seed given |
| RandomHashes.RandomHash.Draw | Tellustris/Include/Utility/RandomHash.h:65-70 | the value drawn is the hash of the seed and the arguments, stored as the last value; the seed is kept |
| RandomHashes.RandomHash.SetSeed | Tellustris/Include/Utility/RandomHash.h:72-75 | the seed becomes the value given; the last value is kept |
| RandomHashes.RandomHash.Seed | Tellustris/Include/Utility/RandomHash.h:77-80 | the seed held |
| RandomHashes.Reproducible | Tellustris/Include/Utility/RandomHash.h:32-80 | drawing twice with the same arguments gives the same value, and a seed set is read back |

## Left out

- Loading of resources and settings from files and JSON: this is I/O.
- Rendering: tilemap and animation rendering components, the chunk renderer's graphics attach and detach, materials and UV or time arithmetic. Renderer calls become maps of enabled cells or opaque tokens.
- Tile collider geometry (`toCollider`, `transform`, `moveAndScale`), the physics shapes built from boxes, the collision callbacks and the contact arbiter: these are floating-point geometry and a physics backend. Built boxes are kept as integer rectangles.
- Perlin noise, the static random generator, window events, the systems, start-up, the view updater, the resource and settings registries and the enum helpers: these are not part of the core.
- The float overloads of the world position conversions: they only floor and delegate to the integer versions, which are modelled.
- Float values are modelled as mathematical values. Frame times, layer heights and the animator speed are `real`. Animator properties, expression values (the template type `T`) and view centres are `int`. No rounding is modelled. Integer wrap-around is modelled only where the source relies on a fixed width: the 32-bit tile packing and layer tile counts, and the 64-bit hash.
- `getRandomTile`'s weighted draw (`std::discrete_distribution`) is a nondeterministic choice among the candidates of positive weight. The distribution itself is not modelled.
- TileDefinitions.TileDefinition.GetRandomTile: when no weight of the slot is positive, `std::discrete_distribution` is undefined (its weights must sum to more than 0); the model then returns any entry of the slot.
- TileDefinitions.TileDefinition.GetTile: for an unknown material the source returns a reference to a temporary empty vector, which dangles once the call returns; the model returns the empty list the code evidently intends.
- `OperationPower` (`std::pow`) and `Function` (`std::function`) nodes are evaluated through opaque functions passed in an environment.
- The expression parser and `registerAnimation` from a string: the parser's source is not part of this model. `Expression` starts from a parsed tree.
- The order in which `Expression` registers parameters: `registerParameter` is not part of this model, so it is taken to be the order of the tree walk.
- `Event::send` and `Events::connect`: their source is not part of this model. An event sent is recorded as an entry in a log, and a connection starts from an `EventsImpl` whose callback is left out.
- The `EventsHolder` default constructor and `Animation::current` are declared but never defined. The constructor is modelled as a holder without a connection. `current` is left out.
- `WorldRenderBehaviour2::onBoderBlockUpdate` and `ChunkBorder` are declared but never defined: they are left out.
- `AnimatorComponent::attachAnimator`, `setCurrentState`, `changeState`, `update`, `updateDefaultProperties` and `updateSprite`: they rely on the animator's transition conditions, which are not part of this model, and on `Animation::current`, float time and UV flipping.
- Behaviour hooks (`onStart`, `onUpdate`, `onEnable`, `onDisable`, entity events, contacts) are recorded as a log of calls, in order. What a behaviour does in them is left out, and so is the elapsed time passed to `onUpdate`.
- `Clone` of a behaviour is a fresh copy of its settings: the copy is not started and has no entity, as every `clone` constructs a new behaviour. What a behaviour holds besides these flags is left out. Identifiers from `nextId` are unbounded and never wrap.
- The position of the scene node `addChunk` creates is left out: it is renderer state.
- The ground renderer's read of the world is not kept by the source once a redraw ends; the model keeps it in a ghost field, `lastRead`, and the entries `cleanLayers` drops in another, `dropped`, so that the handlers can state what every cell of the tile maps shows in terms of the world's tiles.
- GroundRender.ChunkGroundRender.OnFullMapChange: the model reads the world before detaching the old tile maps, where the source detaches first; detaching changes no tile of the world, so the read is the same.
- GroundRender.ChunkGroundRender.OnBorderBlockUpdate: the source also draws a random tile for the cell's own material and discards it; only the draw's effect on the random generator would show, and the generator is not modelled.
- The collision layers' contacts are left uninitialised by the source's constructor. The model starts every slot reset (empty name, no contact).
- The asserts the source writes inverted (`WorldRenderBehaviour.cpp` lines 113 and 219) are modelled as a release build: the assertion is dropped and the out-of-range update leaves the state unchanged.
- `RandomHash`'s `value` field is uninitialised by the source's constructor, and the model leaves it arbitrary.
- RandomHashes.Hash: the finaliser is not proved invertible. The steps are invertible, but proofs over 64-bit words do not close at the solver's limit. Its partner is the fold `Chained`, with reference values at 0, 1 and the largest word.
- Objects the source shares by reference are modelled by owned values or by classes with disjoint footprints. Aliasing between a chunk's tile maps and the renderers that display them is not captured.
- `Animator::defaultAnimationIndex` has no member of its own: it returns the field, which the model reads as `defaultIndex`.

## Findings

| source | as written | input that shows it | evidently intended | confidence | as-written member | corrected member |
|---|---|---|---|---|---|---|
| Tellustris/Src/Animator/Animator.cpp:87-90 | `animationExist(index)` tests `index <= m_states.size()` | an index equal to the number of states passes the guard, and `m_states[index]` then reads past the end | `index < m_states.size()` | not executed | Animators.ExistsAsWrittenAdmitsCount | Animators.HaveState |
| Tellustris/Include/Utility/Expression/Expression.h:40-53 | copy-assignment resets its own tree before copying the other's | `e = e` on an expression with a tree leaves it with no tree | self-assignment leaves the expression unchanged | not executed | Expressions.SelfAssignment | Expressions.Expression.AssignChecked |
| Tellustris/Include/Utility/Expression/Expression.h:34-38 | the copy constructor calls `registerParameter` through the cloned tree without testing it | copying a default-constructed expression, which holds no tree, dereferences a null pointer | the copy of an expression with no tree is empty, as `operator=` already handles | not executed | Expressions.CopyAsWritten | Expressions.Expression.Copy |
| Tellustris/Src/Components/BehaviourComponent.cpp:80-85 | `detachAll` only calls `onDisable` on each behaviour | a component with one behaviour still holds it after `detachAll` | every behaviour is removed | not executed | BehaviourComponents.DetachAllKeeps | BehaviourComponents.BehaviourComponent.DetachAllClearing |
