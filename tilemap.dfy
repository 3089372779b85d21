// A grid of tiles with its rendering sizes and a modification notification.
module Tilemaps {
  import opened Matrices

  /** The payload of a modification notification. */
  datatype TilemapModified = TilemapModified(x: nat, y: nat)

  /** Every notification is sent with a value-initialised payload. */
  const Unspecified := TilemapModified(0, 0)

  /** The cell type is a parameter: the header declares `unsigned int`
    * cells while the chunks store whole tiles in their tilemaps. */
  class Tilemap<T> {
    const matrix: Matrix<T>
    var tileSize: nat
    var tileDelta: nat
    /** The notifications sent so far, oldest first. */
    var modified: seq<TilemapModified>

    function Repr(): set<object> { {this, matrix} }

    ghost predicate Valid()
      reads matrix
    {
      matrix.Valid()
    }

    /** `width`: with the height, it spans the cells stored. */
    function Width(): (r: nat)
      reads matrix
      ensures Valid() ==> |matrix.data| == r * matrix.height
    {
      matrix.width
    }

    /** `height`: with the width, it spans the cells stored. */
    function Height(): (r: nat)
      reads matrix
      ensures Valid() ==> |matrix.data| == matrix.width * r
    {
      matrix.height
    }

    /** A width x height map whose cells are all `blank` (the value-initialised
      * cell), with no notification sent yet. */
    constructor (width: nat, height: nat, tileSize: nat, tileDelta: nat, blank: T)
      ensures Valid() && fresh(matrix)
      ensures Width() == width && Height() == height && matrix.data == seq(width * height, _ => blank)
      ensures this.tileSize == tileSize && this.tileDelta == tileDelta && modified == []
      ensures forall x: nat, y: nat :: x < width && y < height ==> GetTile(x, y) == blank
    {
      matrix := new Matrix(width, height, blank);
      this.tileSize, this.tileDelta := tileSize, tileDelta;
      modified := [];
    }

    /** `getTile`: the cell at (x, y), stored at slot x + y*width. */
    function GetTile(x: nat, y: nat): (t: T)
      reads matrix
      requires Valid() && x < Width() && y < Height()
      ensures Slot(x, y, Width()) < |matrix.data| && t == matrix.data[Slot(x, y, Width())]
    {
      matrix.Get(x, y)
    }

    /** Overwrites one cell and sends one notification, whether or not the
      * value changed; the payload is (0, 0), not the written position. */
    method SetTile(x: nat, y: nat, v: T)
      requires Valid() && x < Width() && y < Height()
      modifies this, matrix
      ensures Valid() && Width() == old(Width()) && Height() == old(Height())
      ensures GetTile(x, y) == v
      ensures forall a: nat, b: nat :: a < Width() && b < Height() && (a, b) != (x, y) ==>
        GetTile(a, b) == old(GetTile(a, b))
      ensures Slot(x, y, Width()) < |old(matrix.data)| && matrix.data == old(matrix.data)[Slot(x, y, Width()) := v]
      ensures modified == old(modified) + [Unspecified]
      ensures tileSize == old(tileSize) && tileDelta == old(tileDelta)
    {
      matrix.Set(x, y, v);
      modified := modified + [Unspecified];
    }

    /** The source asserts the size is positive. */
    method SetTileSize(size: nat)
      requires size > 0
      modifies this
      ensures tileSize == size && tileDelta == old(tileDelta)
      ensures modified == old(modified) + [Unspecified]
    {
      tileSize := size;
      modified := modified + [Unspecified];
    }

    method SetTileDelta(delta: nat)
      modifies this
      ensures tileDelta == delta && tileSize == old(tileSize)
      ensures modified == old(modified) + [Unspecified]
    {
      tileDelta := delta;
      modified := modified + [Unspecified];
    }
  }
}
