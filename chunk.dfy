// A 32x32 chunk of the world: a stack of tile layers that grows on demand
// and drops empty layers from the top.
module Chunks {
  import opened Wrappers
  import opened Tiles
  import opened Matrices
  import opened Tilemaps

  const ChunkSize: nat := 32
  const TileSize: nat := 32
  const TileDelta: nat := 1
  /** The two bottom layers are present at all times. */
  const StaticLayers: nat := 2
  const CellCount: nat := 1024

  datatype ChangeState = Added | Removed | HeightChanged
  datatype LayerChanged = LayerChanged(layer: nat, state: ChangeState)

  /** One layer of the stack: its tilemap, its drawing height and the
    * counter of the source's tile counting (an unsigned 32-bit value). */
  datatype TilemapLayer = TilemapLayer(tilemap: Tilemap<Tile>, height: real, tileCount: bv32)

  /** What a layer holds: its cells (row-major), height, counter and the
    * notifications its tilemap has sent. */
  datatype LayerView = LayerView(cells: seq<Tile>, height: real, tileCount: bv32, modified: seq<TilemapModified>)

  /** What a chunk holds: its layers, bottom first, and the layer events sent. */
  datatype ChunkView = ChunkView(layers: seq<LayerView>, events: seq<LayerChanged>)

  /** How a write ended: dropped without effect, reaching the out-of-range
    * layer index the source then reads (after growing the stack), or written. */
  datatype Outcome = Dropped | OutOfRange | Written

  /** The source's tile comparison: ids must match; two colliders of kind
    * Empty match whatever their other bits; otherwise the packed colliders
    * are compared. */
  predicate TilesEqual(a: Tile, b: Tile)
  {
    if a.id != b.id then false
    else if a.collider.kind == Empty && b.collider.kind == Empty then true
    else ToInt(a.collider) == ToInt(b.collider)
  }

  /** "Equal to the default tile": id 0 and an Empty collider. */
  predicate IsBlank(t: Tile) { TilesEqual(t, EmptyTile()) }

  /** For a collider that fits the packed layout (every decoded one does),
    * blank means id 0 and kind Empty. */
  lemma TilesEqualIsBlank(t: Tile)
    requires Packable(t.collider)
    ensures IsBlank(t) <==> t.id == 0 && t.collider.kind == Empty
  {
    if t.id == 0 && t.collider.kind != Empty && ToInt(t.collider) == ToInt(EmptyTile().collider) {
      FromIntToInt(t.collider);
      assert false;
    }
  }

  /** The comparison is reflexive and symmetric. */
  lemma TilesEqualReflexiveSymmetric(a: Tile, b: Tile)
    ensures TilesEqual(a, a)
    ensures TilesEqual(a, b) == TilesEqual(b, a)
  {
  }

  predicate LayerWellFormed(l: LayerView) { |l.cells| == CellCount }

  /** Every layer holds 32x32 cells and the two static layers exist. */
  predicate WellFormed(v: ChunkView)
  {
    |v.layers| >= StaticLayers && forall i :: 0 <= i < |v.layers| ==> LayerWellFormed(v.layers[i])
  }

  /** A layer created by a chunk: every cell the default tile, counter 0. */
  function BlankLayer(height: real, count: bv32): (l: LayerView)
    ensures LayerWellFormed(l)
  {
    LayerView(seq(CellCount, _ => EmptyTile()), height, count, [])
  }

  /** The two static layers at heights 0 and 0.5, each with counter 1. */
  function InitialView(): (v: ChunkView)
    ensures WellFormed(v)
  {
    ChunkView([BlankLayer(0.0, 1), BlankLayer(0.5, 1)], [])
  }

  /** The tile at (x, y) of a layer, or the default tile when the layer does
    * not exist. */
  function ViewTile(v: ChunkView, x: nat, y: nat, layer: nat): Tile
    requires WellFormed(v) && x < ChunkSize && y < ChunkSize
  {
    if layer >= |v.layers| then EmptyTile()
    else
      SlotInRange(x, y, ChunkSize, ChunkSize);
      v.layers[layer].cells[Slot(x, y, ChunkSize)]
  }

  /** Pushes blank layers until there are `layer` of them; layer i gets
    * height i - 1 and an `added` event. */
  function Grow(v: ChunkView, layer: nat): (r: ChunkView)
    requires WellFormed(v)
    ensures WellFormed(r)
    decreases layer - |v.layers|
  {
    if |v.layers| >= layer then v
    else
      var i := |v.layers|;
      Grow(ChunkView(v.layers + [BlankLayer(i as real - 1.0, 0)], v.events + [LayerChanged(i, Added)]), layer)
  }

  /** Pops top layers while more than the static ones remain and the top
    * counter is 0, sending `removed` with the top index before each pop. */
  function PopEmpty(v: ChunkView): (r: ChunkView)
    requires WellFormed(v)
    ensures WellFormed(r)
    decreases |v.layers|
  {
    var n := |v.layers|;
    if n > StaticLayers && v.layers[n - 1].tileCount == 0 then
      PopEmpty(ChunkView(v.layers[..n - 1], v.events + [LayerChanged(n - 1, Removed)]))
    else v
  }

  function WriteCell(l: LayerView, x: nat, y: nat, t: Tile): (r: LayerView)
    requires LayerWellFormed(l) && x < ChunkSize && y < ChunkSize
    ensures LayerWellFormed(r)
  {
    SlotInRange(x, y, ChunkSize, ChunkSize);
    l.(cells := l.cells[Slot(x, y, ChunkSize) := t], modified := l.modified + [Unspecified])
  }

  /** Writes one cell of an existing layer (the tilemap notifies once). */
  function WriteAt(v: ChunkView, x: nat, y: nat, t: Tile, layer: nat): (r: ChunkView)
    requires WellFormed(v) && x < ChunkSize && y < ChunkSize && layer < |v.layers|
    ensures WellFormed(r)
  {
    ChunkView(v.layers[layer := WriteCell(v.layers[layer], x, y, t)], v.events)
  }

  /** The tile counting after a write to an existing layer: static layers
    * and writes that keep the blankness are not counted; otherwise the
    * counter goes down when the OLD tile was blank and up when the NEW one
    * is (wrapping modulo 2^32), and a top layer whose counter reaches 0
    * starts the removal loop. */
  function Recount(v: ChunkView, layer: nat, haveOld: bool, haveNew: bool): (r: ChunkView)
    requires WellFormed(v) && layer < |v.layers|
    ensures WellFormed(r)
  {
    if layer < StaticLayers || haveOld == haveNew then v
    else
      StoreCount(v, layer, NewCount(v.layers[layer].tileCount, haveOld))
  }

  /** The counter after a counted write: one less when the old tile was
    * blank, one more otherwise, wrapping modulo 2^32. */
  function NewCount(c: bv32, haveOld: bool): bv32
  {
    if haveOld then c - 1 else c + 1
  }

  /** Stores a new counter for a layer; a top layer whose counter is 0
    * starts the removal loop. */
  function StoreCount(v: ChunkView, layer: nat, count: bv32): (r: ChunkView)
    requires WellFormed(v) && layer < |v.layers|
    ensures WellFormed(r)
  {
    var counted := ChunkView(v.layers[layer := v.layers[layer].(tileCount := count)], v.events);
    if layer == |v.layers| - 1 && count == 0 then PopEmpty(counted) else counted
  }

  /** The effect of the source's `setTile` on a chunk, as written. "haveNew"
    * is true when the NEW tile is blank and "haveOld" when the OLD one is,
    * so a missing layer is only reached for a blank tile, and writing a
    * non-blank tile over a blank cell decrements the counter. */
  function SetTileSpec(v: ChunkView, x: nat, y: nat, tile: Tile, layer: nat): (ChunkView, Outcome)
    requires WellFormed(v) && x < ChunkSize && y < ChunkSize
  {
    var haveNew := IsBlank(tile);
    if layer >= |v.layers| then
      if !haveNew then (v, Dropped) else (Grow(v, layer), OutOfRange)
    else
      (Recount(WriteAt(v, x, y, tile, layer), layer, IsBlank(ViewTile(v, x, y, layer)), haveNew), Written)
  }

  class Chunk {
    var layers: seq<TilemapLayer>
    var events: seq<LayerChanged>
    /** The chunk, its tilemaps and their grids (tilemaps of popped layers
      * may stay in it). */
    ghost var Repr: set<object>

    ghost predicate Valid()
      reads this, Repr
    {
      && this in Repr
      && |layers| >= StaticLayers
      && (forall i :: 0 <= i < |layers| ==>
            && layers[i].tilemap in Repr && layers[i].tilemap.matrix in Repr
            && layers[i].tilemap.Valid()
            && layers[i].tilemap.Width() == ChunkSize && layers[i].tilemap.Height() == ChunkSize)
      && (forall i, j :: 0 <= i < j < |layers| ==>
            layers[i].tilemap != layers[j].tilemap && layers[i].tilemap.matrix != layers[j].tilemap.matrix)
    }

    ghost function ViewOf(l: TilemapLayer): LayerView
      reads l.tilemap, l.tilemap.matrix
    {
      LayerView(l.tilemap.matrix.data, l.height, l.tileCount, l.tilemap.modified)
    }

    ghost function View(): (v: ChunkView)
      reads this, Repr
      requires Valid()
      ensures WellFormed(v)
    {
      ChunkView(seq(|layers|, i reads this, Repr requires 0 <= i < |layers| && Valid() => ViewOf(layers[i])), events)
    }

    /** A new chunk has the two static layers, blank. */
    constructor ()
      ensures Valid() && fresh(Repr) && View() == InitialView()
    {
      var t0 := new Tilemap(ChunkSize, ChunkSize, TileSize, TileDelta, EmptyTile());
      var t1 := new Tilemap(ChunkSize, ChunkSize, TileSize, TileDelta, EmptyTile());
      layers := [TilemapLayer(t0, 0.0, 1), TilemapLayer(t1, 0.5, 1)];
      events := [];
      Repr := {this, t0, t0.matrix, t1, t1.matrix};
    }

    /** `layerCount`: the layers that exist are the indices below it. */
    function LayerCount(): (r: nat)
      reads this
      ensures forall l: nat :: HaveLayer(l) <==> l < r
    {
      |layers|
    }

    /** `haveLayer`: the layer exists exactly when the chunk holds that many
      * layers. */
    predicate HaveLayer(layer: nat): (b: bool)
      reads this
      ensures b <==> layer < |layers|
    {
      |layers| > layer
    }

    /** The tile at (x, y) of a layer; the default tile when the layer does
      * not exist (never an error). */
    function GetTile(x: nat, y: nat, layer: nat): (t: Tile)
      reads this, Repr
      requires Valid() && x < ChunkSize && y < ChunkSize
      ensures t == ViewTile(View(), x, y, layer)
    {
      if layer >= |layers| then EmptyTile()
      else layers[layer].tilemap.GetTile(x, y)
    }

    /** The tilemap of a layer, or nothing when the layer does not exist. */
    function GetMap(layer: nat): (m: Option<Tilemap<Tile>>)
      reads this
      ensures m.Some? <==> HaveLayer(layer)
      ensures m.Some? ==> m.value == layers[layer].tilemap
    {
      if !HaveLayer(layer) then None else Some(layers[layer].tilemap)
    }

    /** The source asserts the layer exists. */
    method SetLayerHeight(layer: nat, height: real)
      requires Valid() && HaveLayer(layer)
      modifies this
      ensures Valid() && Repr == old(Repr)
      ensures View() == old(View()).(layers := old(View()).layers[layer := old(View()).layers[layer].(height := height)],
                                     events := old(events) + [LayerChanged(layer, HeightChanged)])
      ensures LayerHeight(layer) == height
    {
      layers := layers[layer := layers[layer].(height := height)];
      events := events + [LayerChanged(layer, HeightChanged)];
    }

    /** `layerHeight`: the source asserts the layer exists. */
    function LayerHeight(layer: nat): real
      reads this
      requires HaveLayer(layer)
    {
      layers[layer].height
    }

    /** One step of the growth loop: pushes a fresh blank layer at index i
      * with height i - 1 and sends `added`. */
    method PushBlankLayer()
      requires Valid()
      modifies this
      ensures Valid() && fresh(Repr - old(Repr)) && old(Repr) <= Repr
      ensures var i := |old(layers)|;
        View() == ChunkView(old(View()).layers + [BlankLayer(i as real - 1.0, 0)], old(View()).events + [LayerChanged(i, Added)])
    {
      var i := |layers|;
      var t := new Tilemap(ChunkSize, ChunkSize, TileSize, TileDelta, EmptyTile());
      layers := layers + [TilemapLayer(t, i as real - 1.0, 0)];
      events := events + [LayerChanged(i, Added)];
      Repr := Repr + {t, t.matrix};
    }

    /** The growth loop of `setTile`: pushes blank layers up to `layer`. */
    method GrowLayers(layer: nat)
      requires Valid()
      modifies this
      ensures Valid() && fresh(Repr - old(Repr)) && old(Repr) <= Repr
      ensures View() == Grow(old(View()), layer)
    {
      var i := |layers|;
      while i < layer
        invariant Valid() && fresh(Repr - old(Repr)) && old(Repr) <= Repr
        invariant i == |layers| || (i >= layer && |layers| >= layer)
        invariant Grow(View(), layer) == Grow(old(View()), layer)
      {
        PushBlankLayer();
        i := i + 1;
      }
    }

    /** One step of the removal loop: sends `removed` for the top layer and
      * pops it. */
    method PopTopLayer()
      requires Valid() && |layers| > StaticLayers
      modifies this
      ensures Valid() && Repr == old(Repr)
      ensures var n := |old(layers)|;
        View() == ChunkView(old(View()).layers[..n - 1], old(View()).events + [LayerChanged(n - 1, Removed)])
    {
      var n := |layers|;
      events := events + [LayerChanged(n - 1, Removed)];
      layers := layers[..n - 1];
    }

    /** The removal loop of `setTile`. */
    method PopEmptyLayers()
      requires Valid()
      modifies this
      ensures Valid() && Repr == old(Repr)
      ensures View() == PopEmpty(old(View()))
    {
      while |layers| > StaticLayers && layers[|layers| - 1].tileCount == 0
        invariant Valid() && Repr == old(Repr)
        invariant PopEmpty(View()) == PopEmpty(old(View()))
        decreases |layers|
      {
        PopTopLayer();
      }
    }

    /** Writes one cell of an existing layer through its tilemap; reports
      * whether the old tile was blank. */
    method WriteLayerCell(x: nat, y: nat, tile: Tile, layer: nat) returns (haveOld: bool)
      requires Valid() && x < ChunkSize && y < ChunkSize && layer < |layers|
      modifies layers[layer].tilemap, layers[layer].tilemap.matrix
      ensures Valid() && layers == old(layers)
      ensures haveOld == IsBlank(ViewTile(old(View()), x, y, layer))
      ensures View() == WriteAt(old(View()), x, y, tile, layer)
    {
      var t := layers[layer].tilemap;
      haveOld := IsBlank(t.GetTile(x, y));
      t.SetTile(x, y, tile);
    }

    /** Stores a new counter for one layer. */
    method SetCount(layer: nat, count: bv32)
      requires Valid() && layer < |layers|
      modifies this
      ensures Valid() && Repr == old(Repr) && |layers| == old(|layers|)
      ensures View() == ChunkView(old(View()).layers[layer := old(View()).layers[layer].(tileCount := count)], old(View()).events)
    {
      layers := layers[layer := layers[layer].(tileCount := count)];
    }

    /** Stores a counter, then pops empty top layers when the counted layer
      * was the top one and its counter is 0. */
    method StoreLayerCount(layer: nat, count: bv32)
      requires Valid() && layer < |layers|
      modifies this
      ensures Valid() && Repr == old(Repr)
      ensures View() == StoreCount(old(View()), layer, count)
    {
      SetCount(layer, count);
      if layer == |layers| - 1 && count == 0 {
        PopEmptyLayers();
      }
    }

    /** The counting part of `setTile`. */
    method RecountLayer(layer: nat, haveOld: bool, haveNew: bool)
      requires Valid() && layer < |layers|
      modifies this
      ensures Valid() && Repr == old(Repr)
      ensures View() == Recount(old(View()), layer, haveOld, haveNew)
    {
      if layer < StaticLayers || haveOld == haveNew {
        return;
      }
      StoreLayerCount(layer, NewCount(layers[layer].tileCount, haveOld));
    }

    /** Writes a tile into a layer as the source does, including its
      * inverted emptiness flags and its out-of-range layer access. */
    method SetTile(x: nat, y: nat, tile: Tile, layer: nat) returns (outcome: Outcome)
      requires Valid() && x < ChunkSize && y < ChunkSize
      modifies Repr
      ensures Valid() && fresh(Repr - old(Repr)) && old(Repr) <= Repr
      ensures (View(), outcome) == SetTileSpec(old(View()), x, y, tile, layer)
    {
      var haveNew := IsBlank(tile);
      if layer >= |layers| {
        if !haveNew {
          return Dropped;
        }
        GrowLayers(layer);
        return OutOfRange;
      }
      var haveOld := WriteLayerCell(x, y, tile, layer);
      RecountLayer(layer, haveOld, haveNew);
      return Written;
    }
  }
}

module ChunkProperties {
  import opened Tiles
  import opened Matrices
  import opened Tilemaps
  import opened Chunks

  /** The `removed` events the removal loop sends while the stack shrinks
    * from `from` layers to `to`: top index first. */
  function RemovedEvents(from: nat, to: nat): (e: seq<LayerChanged>)
    ensures |e| == (if from > to then from - to else 0)
    decreases from
  {
    if from <= to then [] else [LayerChanged(from - 1, Removed)] + RemovedEvents(from - 1, to)
  }

  /** The `added` events the growth loop sends while the stack grows from
    * `from` layers to `to`: lowest index first. */
  function AddedEvents(from: nat, to: nat): (e: seq<LayerChanged>)
    ensures |e| == (if to > from then to - from else 0)
    decreases if to > from then to - from else 0
  {
    if from >= to then [] else [LayerChanged(from, Added)] + AddedEvents(from + 1, to)
  }

  /** The removal loop keeps a prefix of the stack, never fewer than the
    * static layers; every popped layer had counter 0, `removed` is sent for
    * each popped index from the top down, and the loop stops at the static
    * layers or at a top layer whose counter is not 0. */
  lemma {:induction false} PopEmptyShape(v: ChunkView)
    requires WellFormed(v)
    ensures var r := PopEmpty(v);
      && StaticLayers <= |r.layers| <= |v.layers|
      && r.layers == v.layers[..|r.layers|]
      && (forall i :: |r.layers| <= i < |v.layers| ==> v.layers[i].tileCount == 0)
      && r.events == v.events + RemovedEvents(|v.layers|, |r.layers|)
      && (|r.layers| == StaticLayers || r.layers[|r.layers| - 1].tileCount != 0)
    decreases |v.layers|
  {
    var n := |v.layers|;
    if n > StaticLayers && v.layers[n - 1].tileCount == 0 {
      var w := ChunkView(v.layers[..n - 1], v.events + [LayerChanged(n - 1, Removed)]);
      PopEmptyShape(w);
      var r := PopEmpty(w);
      assert r.layers == v.layers[..|r.layers|];
      assert r.events == v.events + RemovedEvents(n, |r.layers|);
    }
  }

  /** The growth loop keeps the existing layers and appends blank layers up
    * to `layer` of them (index i at height i - 1, counter 0), sending
    * `added` for each new index in increasing order; it never creates the
    * layer at index `layer` itself. */
  lemma {:induction false} GrowShape(v: ChunkView, layer: nat)
    requires WellFormed(v)
    ensures var r := Grow(v, layer);
      && |r.layers| == (if layer > |v.layers| then layer else |v.layers|)
      && r.layers[..|v.layers|] == v.layers
      && (forall i :: |v.layers| <= i < |r.layers| ==> r.layers[i] == BlankLayer(i as real - 1.0, 0))
      && r.events == v.events + AddedEvents(|v.layers|, |r.layers|)
    decreases layer - |v.layers|
  {
    if |v.layers| < layer {
      var i := |v.layers|;
      var w := ChunkView(v.layers + [BlankLayer(i as real - 1.0, 0)], v.events + [LayerChanged(i, Added)]);
      GrowShape(w, layer);
      var r := Grow(w, layer);
      assert r.layers[..i] == r.layers[..i + 1][..i];
      assert r.events == v.events + AddedEvents(i, |r.layers|);
    }
  }

  /** Writing a cell changes that cell of that layer and nothing else: other
    * cells, other layers, counters, heights and events stay. */
  lemma WriteAtGet(v: ChunkView, x: nat, y: nat, t: Tile, layer: nat, x2: nat, y2: nat, layer2: nat)
    requires WellFormed(v) && x < ChunkSize && y < ChunkSize && layer < |v.layers|
    requires x2 < ChunkSize && y2 < ChunkSize
    ensures var r := WriteAt(v, x, y, t, layer);
      && |r.layers| == |v.layers| && r.events == v.events
      && (forall i :: 0 <= i < |v.layers| ==>
            r.layers[i].tileCount == v.layers[i].tileCount && r.layers[i].height == v.layers[i].height)
      && ViewTile(r, x2, y2, layer2) == if x2 == x && y2 == y && layer2 == layer then t else ViewTile(v, x2, y2, layer2)
  {
    if layer2 == layer && Slot(x, y, ChunkSize) == Slot(x2, y2, ChunkSize) {
      SlotInjective(x, y, x2, y2, ChunkSize);
    }
  }

  /** A write to one of the two static layers is never counted: it stores
    * the tile and keeps every counter, height, the layer count and the
    * events. */
  lemma StaticLayerWrite(v: ChunkView, x: nat, y: nat, tile: Tile, layer: nat)
    requires WellFormed(v) && x < ChunkSize && y < ChunkSize && layer < StaticLayers
    ensures SetTileSpec(v, x, y, tile, layer) == (WriteAt(v, x, y, tile, layer), Written)
    ensures ViewTile(SetTileSpec(v, x, y, tile, layer).0, x, y, layer) == tile
  {
    WriteAtGet(v, x, y, tile, layer, x, y, layer);
  }

  /** When the old and the new tile are equally blank, the write is not
    * counted and no layer is removed. */
  lemma SameBlanknessNotCounted(v: ChunkView, x: nat, y: nat, tile: Tile, layer: nat)
    requires WellFormed(v) && x < ChunkSize && y < ChunkSize && layer < |v.layers|
    requires IsBlank(ViewTile(v, x, y, layer)) == IsBlank(tile)
    ensures SetTileSpec(v, x, y, tile, layer) == (WriteAt(v, x, y, tile, layer), Written)
  {
  }

  /** A write to a layer beyond the stack is never stored: a non-blank tile
    * is dropped unchanged, and a blank one grows the stack to exactly `layer` layers,
    * so the target layer still does not exist and reads give the default. */
  lemma MissingLayerNeverWritten(v: ChunkView, x: nat, y: nat, tile: Tile, layer: nat)
    requires WellFormed(v) && x < ChunkSize && y < ChunkSize && layer >= |v.layers|
    ensures var (r, outcome) := SetTileSpec(v, x, y, tile, layer);
      && outcome != Written
      && (outcome == Dropped <==> !IsBlank(tile))
      && (outcome == Dropped ==> r == v)
      && (outcome == OutOfRange ==> |r.layers| == layer)
      && ViewTile(r, x, y, layer) == EmptyTile()
  {
    GrowShape(v, layer);
  }

  /** The inverted emptiness flag at work: writing a non-blank tile over a
    * blank cell of a dynamic top layer whose counter is 1 brings the counter
    * to 0 and removes the layer, so the tile just written is lost. */
  lemma NonBlankWriteCanRemoveItsLayer(v: ChunkView, x: nat, y: nat, tile: Tile)
    requires WellFormed(v) && x < ChunkSize && y < ChunkSize && |v.layers| > StaticLayers
    requires var top := |v.layers| - 1;
      v.layers[top].tileCount == 1 && IsBlank(ViewTile(v, x, y, top)) && !IsBlank(tile)
    ensures var top := |v.layers| - 1;
      var (r, outcome) := SetTileSpec(v, x, y, tile, top);
      && outcome == Written
      && |r.layers| <= top
      && ViewTile(r, x, y, top) == EmptyTile() != tile
  {
    var top := |v.layers| - 1;
    var w := WriteAt(v, x, y, tile, top);
    WriteAtGet(v, x, y, tile, top, x, y, top);
    var counted := ChunkView(w.layers[top := w.layers[top].(tileCount := 0)], w.events);
    assert Recount(w, top, true, false) == PopEmpty(counted);
    PopEmptyShape(counted);
  }

  /** The counting step never touches cells: it keeps a prefix of the
    * stack with the same cells. */
  lemma RecountKeepsCells(w: ChunkView, layer: nat, haveOld: bool, haveNew: bool)
    requires WellFormed(w) && layer < |w.layers|
    ensures var r := Recount(w, layer, haveOld, haveNew);
      && |r.layers| <= |w.layers|
      && (forall i :: 0 <= i < |r.layers| ==> r.layers[i].cells == w.layers[i].cells)
  {
    if !(layer < StaticLayers || haveOld == haveNew) {
      var count := NewCount(w.layers[layer].tileCount, haveOld);
      var counted := ChunkView(w.layers[layer := w.layers[layer].(tileCount := count)], w.events);
      PopEmptyShape(counted);
    }
  }

  /** A write followed by a read of the same cell gives the tile back,
    * whenever the layer exists after the write. */
  lemma SetThenGet(v: ChunkView, x: nat, y: nat, tile: Tile, layer: nat)
    requires WellFormed(v) && x < ChunkSize && y < ChunkSize
    ensures var r := SetTileSpec(v, x, y, tile, layer).0;
      layer < |r.layers| ==> ViewTile(r, x, y, layer) == tile
  {
    if layer >= |v.layers| {
      MissingLayerNeverWritten(v, x, y, tile, layer);
    } else {
      var w := WriteAt(v, x, y, tile, layer);
      WriteAtGet(v, x, y, tile, layer, x, y, layer);
      RecountKeepsCells(w, layer, IsBlank(ViewTile(v, x, y, layer)), IsBlank(tile));
    }
  }

  /** A write leaves every other cell of every layer that still exists as
    * it was; layers the write created read as the default tile. */
  lemma SetKeepsOtherCells(v: ChunkView, x: nat, y: nat, tile: Tile, layer: nat, x2: nat, y2: nat, layer2: nat)
    requires WellFormed(v) && x < ChunkSize && y < ChunkSize && x2 < ChunkSize && y2 < ChunkSize
    requires x2 != x || y2 != y || layer2 != layer
    ensures var r := SetTileSpec(v, x, y, tile, layer).0;
      layer2 < |r.layers| ==> ViewTile(r, x2, y2, layer2) == ViewTile(v, x2, y2, layer2)
  {
    if layer >= |v.layers| {
      GrowShape(v, layer);
    } else {
      var w := WriteAt(v, x, y, tile, layer);
      WriteAtGet(v, x, y, tile, layer, x2, y2, layer2);
      RecountKeepsCells(w, layer, IsBlank(ViewTile(v, x, y, layer)), IsBlank(tile));
    }
  }
}
