// Row-major grids: the growable Matrix and the fixed-size FixedMatrix.
module Matrices {

  /** Position of cell (x, y) in row-major storage of the given width. */
  function Slot(x: nat, y: nat, width: nat): nat { x + y * width }

  /** A cell inside a width x height grid has a slot inside the storage. */
  lemma SlotInRange(x: nat, y: nat, width: nat, height: nat)
    requires x < width && y < height
    ensures Slot(x, y, width) < width * height
  {
    calc {
      Slot(x, y, width);
    <  width + y * width;
    == (y + 1) * width;
    <= { MulMono(y + 1, height, width); } height * width;
    }
  }

  lemma MulMono(a: nat, b: nat, c: nat)
    requires a <= b
    ensures a * c <= b * c
  {
  }

  /** Distinct in-range cells never share a slot. */
  lemma SlotInjective(x1: nat, y1: nat, x2: nat, y2: nat, width: nat)
    requires x1 < width && x2 < width
    requires Slot(x1, y1, width) == Slot(x2, y2, width)
    ensures x1 == x2 && y1 == y2
  {
    if y1 < y2 {
      MulMono(y1 + 1, y2, width);
      assert false;
    } else if y2 < y1 {
      MulMono(y2 + 1, y1, width);
      assert false;
    }
  }

  /** Every slot of the storage belongs to exactly one cell. */
  lemma SlotOnto(k: nat, width: nat, height: nat)
    requires k < width * height
    ensures 0 < width && k % width < width && k / width < height
    ensures Slot(k % width, k / width, width) == k
  {
    if k / width >= height {
      MulMono(height, k / width, width);
      assert false;
    }
  }

  /** Two storages of a width x height grid that agree on every cell are equal. */
  lemma CellsDetermine<T>(a: seq<T>, b: seq<T>, width: nat, height: nat)
    requires |a| == |b| == width * height
    requires forall x: nat, y: nat :: x < width && y < height && Slot(x, y, width) < |a| ==>
      a[Slot(x, y, width)] == b[Slot(x, y, width)]
    ensures a == b
  {
    forall k | 0 <= k < |a| ensures a[k] == b[k] {
      SlotOnto(k, width, height);
      var x, y := k % width, k / width;
      assert a[Slot(x, y, width)] == b[Slot(x, y, width)];
    }
  }

  /** A growable width x height grid stored row-major in one vector. */
  class Matrix<T> {
    var width: nat
    var height: nat
    var data: seq<T>

    ghost predicate Valid()
      reads this
    {
      |data| == width * height
    }

    /** The cell at (x, y); the source asserts the position is in range. */
    function Get(x: nat, y: nat): (v: T)
      reads this
      requires Valid() && x < width && y < height
      ensures Slot(x, y, width) < |data| && v == data[Slot(x, y, width)]
    {
      SlotInRange(x, y, width, height);
      data[Slot(x, y, width)]
    }

    /** A width x height grid with every cell equal to `default`. */
    constructor (w: nat, h: nat, default: T)
      ensures Valid() && width == w && height == h && data == seq(w * h, _ => default)
      ensures forall x: nat, y: nat :: x < w && y < h ==> Get(x, y) == default
    {
      width, height := w, h;
      data := seq(w * h, _ => default);
      new;
      forall x: nat, y: nat | x < w && y < h ensures Get(x, y) == default {
        SlotInRange(x, y, w, h);
      }
    }

    /** Writes through the reference handed out for (x, y): that cell
      * changes and no other. */
    method Set(x: nat, y: nat, v: T)
      requires Valid() && x < width && y < height
      modifies this
      ensures Valid() && width == old(width) && height == old(height)
      ensures Slot(x, y, width) < |old(data)| && data == old(data)[Slot(x, y, width) := v]
      ensures Get(x, y) == v
      ensures forall a: nat, b: nat :: a < width && b < height && (a, b) != (x, y) ==>
        Get(a, b) == old(Get(a, b))
    {
      SlotInRange(x, y, width, height);
      data := data[Slot(x, y, width) := v];
      forall a: nat, b: nat | a < width && b < height && (a, b) != (x, y)
        ensures Get(a, b) == old(Get(a, b))
      {
        SlotInRange(a, b, width, height);
        if Slot(a, b, width) == Slot(x, y, width) {
          SlotInjective(a, b, x, y, width);
        }
      }
    }

    /** The inner copy loop of Resize: rows 0..h-1 of column i are copied
      * from this grid into `m`; the rest of `m` is left as it was. */
    method CopyColumn(m: Matrix<T>, i: nat, h: nat)
      requires Valid() && m.Valid() && m != this
      requires i < width && i < m.width && h <= height && h <= m.height
      modifies m
      ensures m.Valid() && m.width == old(m.width) && m.height == old(m.height)
      ensures forall a: nat, b: nat :: a < m.width && b < m.height ==>
        m.Get(a, b) == if a == i && b < h then Get(a, b) else old(m.Get(a, b))
    {
      var j := 0;
      while j < h
        invariant 0 <= j <= h
        invariant m.Valid() && m.width == old(m.width) && m.height == old(m.height)
        invariant forall a: nat, b: nat :: a < m.width && b < m.height ==>
          m.Get(a, b) == if a == i && b < j then Get(a, b) else old(m.Get(a, b))
      {
        m.Set(i, j, Get(i, j));
        j := j + 1;
      }
    }

    /** Changes the dimensions; cells inside both the old and the new
      * dimensions keep their values, every other cell is `default`. */
    method Resize(newWidth: nat, newHeight: nat, default: T)
      requires Valid()
      modifies this
      ensures Valid() && width == newWidth && height == newHeight
      ensures forall i: nat, j: nat :: i < newWidth && j < newHeight ==>
        Get(i, j) == if i < old(width) && j < old(height) then old(Get(i, j)) else default
      ensures newWidth == old(width) && newHeight == old(height) ==> data == old(data)
    {
      var m := new Matrix(newWidth, newHeight, default);
      var w := if width < newWidth then width else newWidth;
      var h := if height < newHeight then height else newHeight;
      var i := 0;
      while i < w
        modifies m
        invariant 0 <= i <= w
        invariant m.Valid() && m.width == newWidth && m.height == newHeight
        invariant forall a: nat, b: nat :: a < newWidth && b < newHeight ==>
          m.Get(a, b) == if a < i && b < h then Get(a, b) else default
      {
        CopyColumn(m, i, h);
        i := i + 1;
      }
      if newWidth == width && newHeight == height {
        forall a: nat, b: nat | a < width && b < height && Slot(a, b, width) < |m.data|
          ensures m.data[Slot(a, b, width)] == data[Slot(a, b, width)]
        {
          assert m.Get(a, b) == Get(a, b);
        }
        CellsDetermine(m.data, data, width, height);
      }
      forall a: nat, b: nat | a < newWidth && b < newHeight
        ensures m.Get(a, b) == if a < width && b < height then old(Get(a, b)) else default
      {
        if a < width && b < height {
          assert Get(a, b) == old(Get(a, b));
        }
      }
      data, width, height := m.data, newWidth, newHeight;
      assert forall a: nat, b: nat :: a < width && b < height ==> Get(a, b) == m.Get(a, b);
    }
  }

  /** A WIDTH x HEIGHT grid over a fixed-size array, row-major. */
  class FixedMatrix<T> {
    const width: nat
    const height: nat
    const data: array<T>

    ghost predicate Valid()
      reads this
    {
      data.Length == width * height
    }

    /** Fills every one of the WIDTH*HEIGHT cells with `default`. */
    constructor (w: nat, h: nat, default: T)
      ensures Valid() && width == w && height == h && fresh(data)
      ensures forall x: nat, y: nat :: x < w && y < h ==> Get(x, y) == default
    {
      width, height := w, h;
      data := new T[w * h](_ => default);
      new;
      forall x: nat, y: nat | x < w && y < h ensures Get(x, y) == default {
        SlotInRange(x, y, w, h);
      }
    }

    /** The cell at (x, y), stored at slot x + y*WIDTH. */
    function Get(x: nat, y: nat): (v: T)
      reads this, data
      requires Valid() && x < width && y < height
      ensures Slot(x, y, width) < data.Length && v == data[Slot(x, y, width)]
    {
      SlotInRange(x, y, width, height);
      data[Slot(x, y, width)]
    }

    /** Writes cell (x, y); every other cell is left as it was. */
    method Set(x: nat, y: nat, v: T)
      requires Valid() && x < width && y < height
      modifies data
      ensures Get(x, y) == v
      ensures forall a: nat, b: nat :: a < width && b < height && (a, b) != (x, y) ==>
        Get(a, b) == old(Get(a, b))
    {
      SlotInRange(x, y, width, height);
      data[Slot(x, y, width)] := v;
      forall a: nat, b: nat | a < width && b < height && (a, b) != (x, y)
        ensures Get(a, b) == old(Get(a, b))
      {
        SlotInRange(a, b, width, height);
        if Slot(a, b, width) == Slot(x, y, width) {
          SlotInjective(a, b, x, y, width);
        }
      }
    }
  }
}
