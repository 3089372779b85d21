// The collision behaviour of a chunk: for each collision layer met on any
// of the chunk's tile layers, one entity whose compound collider holds a
// box for every full tile of that collision layer, grown over the free full
// tiles after it, and a shape for every other colliding tile of it.

module ChunkCollisions {
  import opened Wrappers
  import opened Tiles
  import opened Sequences
  import opened TilemapColliderComponents
  import CollisionDefinitions

  const ChunkSize: nat := 32

  /** The chunk's tile layers as the behaviour reads them: each one a
    * `ChunkSize` by `ChunkSize` grid of colliders. */
  predicate LayersOk(ls: seq<Grid>)
  {
    forall i :: 0 <= i < |ls| ==> GridOk(ls[i]) && ls[i].width == ChunkSize && ls[i].height == ChunkSize
  }

  /** Some layer has a full collider on collision layer c at (x, y). */
  predicate FullAt(ls: seq<Grid>, c: bv32, x: nat, y: nat)
    requires LayersOk(ls) && x < ChunkSize && y < ChunkSize
  {
    exists i :: 0 <= i < |ls| && FullOn(ls[i], c, x, y)
  }

  /** `haveFullCollision(x, y, c)`: the layers are searched in order. */
  method HaveFullCollisionAt(ls: seq<Grid>, x: nat, y: nat, c: bv32) returns (full: bool)
    requires LayersOk(ls) && x < ChunkSize && y < ChunkSize
    ensures full <==> FullAt(ls, c, x, y)
  {
    for i := 0 to |ls|
      invariant forall j :: 0 <= j < i ==> !FullOn(ls[j], c, x, y)
    {
      var collider := At(ls[i], x, y);
      if collider.collisionLayer == c && HaveFullCollision(collider) {
        return true;
      }
    }
    return false;
  }

  // ---------------------------------------------------------------------
  // What `createCollisionLayer(c)` builds, in scan order: columns from the
  // left, each from the top

  /** The shapes of a tile that is not full on c: one per layer among the
    * first n whose collider there collides on c, in layer order. */
  function LayerCells(ls: seq<Grid>, c: bv32, x: nat, y: nat, n: nat): seq<Shape>
    requires LayersOk(ls) && x < ChunkSize && y < ChunkSize && n <= |ls|
  {
    if n == 0 then []
    else
      var t := At(ls[n - 1], x, y);
      LayerCells(ls, c, x, y, n - 1) + if HaveCollision(t) && t.collisionLayer == c then [CellShape(x, y, t)] else []
  }

  /** Stands for a box, of any size, whose top-left tile is (x, y). */
  function Start(x: nat, y: nat): Shape
  {
    BoxShape(x, y, 1, 1)
  }

  /** A full tile starts a box; any other tile gets its cells. */
  function TileShapes(ls: seq<Grid>, c: bv32, x: nat, y: nat): seq<Shape>
    requires LayersOk(ls) && x < ChunkSize && y < ChunkSize
  {
    if FullAt(ls, c, x, y) then [Start(x, y)] else LayerCells(ls, c, x, y, |ls|)
  }

  /** The shapes of the tiles the scan visits before (x, y): the columns
    * left of x, then column x above row y. */
  function Progress(ls: seq<Grid>, c: bv32, x: nat, y: nat): seq<Shape>
    requires LayersOk(ls) && x <= ChunkSize && y <= ChunkSize && (x == ChunkSize ==> y == 0)
    decreases x, y
  {
    if y > 0 then Progress(ls, c, x, y - 1) + TileShapes(ls, c, x, y - 1)
    else if x > 0 then Progress(ls, c, x - 1, ChunkSize)
    else []
  }

  /** A shape with a box's size forgotten. */
  function Outline(s: Shape): Shape
  {
    if s.BoxShape? then Start(s.x, s.y) else s
  }

  function Outlines(cs: seq<Shape>): seq<Shape>
  {
    if |cs| == 0 then [] else Outlines(cs[..|cs| - 1]) + [Outline(cs[|cs| - 1])]
  }

  lemma {:induction false} OutlinesAppend(cs: seq<Shape>, ds: seq<Shape>)
    ensures Outlines(cs + ds) == Outlines(cs) + Outlines(ds)
  {
    if |ds| == 0 {
      assert cs + ds == cs;
    } else {
      var n := |ds| - 1;
      assert (cs + ds)[..|cs| + n] == cs + ds[..n];
      OutlinesAppend(cs, ds[..n]);
    }
  }

  lemma {:induction false} OutlineFound(cs: seq<Shape>, s: Shape) returns (k: nat)
    requires s in Outlines(cs)
    ensures k < |cs| && Outline(cs[k]) == s
  {
    var n := |cs| - 1;
    if s in Outlines(cs[..n]) {
      k := OutlineFound(cs[..n], s);
      assert cs[..n][k] == cs[k];
    } else {
      k := n;
    }
  }

  predicate InChunk(s: Shape)
  {
    s.BoxShape? ==> 1 <= s.w && 1 <= s.h && s.x + s.w <= ChunkSize && s.y + s.h <= ChunkSize
  }

  /** Every box lies in the chunk and holds only full tiles of c. */
  predicate BoxesOk(ls: seq<Grid>, c: bv32, cs: seq<Shape>)
    requires LayersOk(ls)
  {
    && (forall k :: 0 <= k < |cs| ==> InChunk(cs[k]))
    && (forall k, a: nat, b: nat :: 0 <= k < |cs| && a < ChunkSize && b < ChunkSize && InBox(cs[k], a, b) ==> FullAt(ls, c, a, b))
  }

  /** What `createCollisionLayer(c)` builds: boxes of full tiles inside the
    * chunk, one starting at each full tile, and the cells of the other
    * tiles, in scan order. */
  predicate ChunkCoverOk(ls: seq<Grid>, c: bv32, cs: seq<Shape>)
    requires LayersOk(ls)
  {
    BoxesOk(ls, c, cs) && Outlines(cs) == Progress(ls, c, ChunkSize, 0)
  }

  // ---------------------------------------------------------------------
  // Coverage: every full tile lies in a box, and merged boxes overlap

  lemma {:induction false} StartInProgress(ls: seq<Grid>, c: bv32, a: nat, b: nat, x: nat, y: nat)
    requires LayersOk(ls) && x <= ChunkSize && y <= ChunkSize && (x == ChunkSize ==> y == 0)
    requires a < ChunkSize && b < ChunkSize && (a < x || (a == x && b < y)) && FullAt(ls, c, a, b)
    ensures Start(a, b) in Progress(ls, c, x, y)
    decreases x, y
  {
    if y > 0 {
      var before, here := Progress(ls, c, x, y - 1), TileShapes(ls, c, x, y - 1);
      assert Progress(ls, c, x, y) == before + here;
      if a != x || b != y - 1 {
        StartInProgress(ls, c, a, b, x, y - 1);
      } else {
        assert here[0] == Start(a, b);
      }
      assert Start(a, b) in before || Start(a, b) in here;
    } else {
      assert Progress(ls, c, x, y) == Progress(ls, c, x - 1, ChunkSize);
      StartInProgress(ls, c, a, b, x - 1, ChunkSize);
    }
  }

  /** A box starts at every full tile of c, so every such tile lies in a
    * box. */
  lemma FullTileStartsBox(ls: seq<Grid>, c: bv32, cs: seq<Shape>, x: nat, y: nat) returns (k: nat)
    requires LayersOk(ls) && ChunkCoverOk(ls, c, cs) && x < ChunkSize && y < ChunkSize && FullAt(ls, c, x, y)
    ensures k < |cs| && cs[k].BoxShape? && cs[k].x == x && cs[k].y == y && InBox(cs[k], x, y)
  {
    StartInProgress(ls, c, x, y, ChunkSize, 0);
    k := OutlineFound(cs, Start(x, y));
    assert InChunk(cs[k]);
  }

  /** The scan does not skip covered tiles, so a box of two or more tiles
    * is overlapped by the box that starts at its second tile. */
  lemma MergedBoxOverlaps(ls: seq<Grid>, c: bv32, cs: seq<Shape>, k: nat)
    requires LayersOk(ls) && ChunkCoverOk(ls, c, cs) && k < |cs|
    requires cs[k].BoxShape? && (cs[k].w >= 2 || cs[k].h >= 2)
    ensures exists j, a, b :: 0 <= j < |cs| && j != k && InBox(cs[j], a, b) && InBox(cs[k], a, b)
  {
    assert InChunk(cs[k]);
    var a, b := cs[k].x, cs[k].y + 1;
    if cs[k].w >= 2 {
      a, b := cs[k].x + 1, cs[k].y;
    }
    assert InBox(cs[k], a, b);
    var j := FullTileStartsBox(ls, c, cs, a, b);
  }

  // ---------------------------------------------------------------------
  // The scan, with the coverage matrix `mat` (`mat[x, y]` is tile (x, y))

  predicate MatOk(mat: array2<bool>)
  {
    mat.Length0 == ChunkSize && mat.Length1 == ChunkSize
  }

  predicate Square(m: seq<seq<bool>>)
  {
    |m| == ChunkSize && forall a :: 0 <= a < ChunkSize ==> |m[a]| == ChunkSize
  }

  /** A tile a box may grow over: not yet covered, and full on c. */
  predicate Free(ls: seq<Grid>, c: bv32, mat: array2<bool>, a: nat, b: nat)
    reads mat
    requires LayersOk(ls) && MatOk(mat) && a < ChunkSize && b < ChunkSize
  {
    !mat[a, b] && FullAt(ls, c, a, b)
  }

  /** Every tile of row b from column x on for `width` tiles is free. */
  predicate RowFree(ls: seq<Grid>, c: bv32, mat: array2<bool>, x: nat, width: nat, b: nat)
    reads mat
    requires LayersOk(ls) && MatOk(mat) && x + width <= ChunkSize && b < ChunkSize
  {
    forall a :: x <= a < x + width ==> Free(ls, c, mat, a, b)
  }

  /** Exactly the tiles in some box are marked. */
  predicate MarksOk(m: seq<seq<bool>>, cs: seq<Shape>)
    requires Square(m)
  {
    forall a: nat, b: nat :: a < ChunkSize && b < ChunkSize ==> (m[a][b] <==> Count(cs, a, b) >= 1)
  }

  /** The outlines are those of the columns left of x and of column x
    * above row y. */
  predicate Visited(ls: seq<Grid>, c: bv32, cs: seq<Shape>, x: nat, y: nat)
    requires LayersOk(ls) && x <= ChunkSize && y <= ChunkSize && (x == ChunkSize ==> y == 0)
  {
    Outlines(cs) == Progress(ls, c, x, y)
  }

  /** The scan has visited the columns left of x and column x above row
    * y: the boxes are in the chunk and hold full tiles, exactly the tiles
    * in some box are marked, and the outlines are those of the visited
    * tiles. */
  predicate ScanState(ls: seq<Grid>, c: bv32, m: seq<seq<bool>>, cs: seq<Shape>, x: nat, y: nat)
    requires LayersOk(ls) && Square(m) && x <= ChunkSize && y <= ChunkSize && (x == ChunkSize ==> y == 0)
  {
    BoxesOk(ls, c, cs) && MarksOk(m, cs) && Visited(ls, c, cs, x, y)
  }

  predicate AllCells(ds: seq<Shape>)
  {
    forall k :: 0 <= k < |ds| ==> ds[k].CellShape?
  }

  lemma {:induction false} CountCells(cs: seq<Shape>, ds: seq<Shape>, a: nat, b: nat)
    requires AllCells(ds)
    ensures Count(cs + ds, a, b) == Count(cs, a, b)
  {
    if |ds| > 0 {
      var n := |ds| - 1;
      var e := cs + ds;
      assert e[..|e| - 1] == cs + ds[..n];
      assert !InBox(e[|e| - 1], a, b);
      assert AllCells(ds[..n]);
      CountCells(cs, ds[..n], a, b);
    } else {
      assert cs + ds == cs;
    }
  }

  lemma {:induction false} LayerCellsAreCells(ls: seq<Grid>, c: bv32, x: nat, y: nat, n: nat)
    requires LayersOk(ls) && x < ChunkSize && y < ChunkSize && n <= |ls|
    ensures AllCells(LayerCells(ls, c, x, y, n))
  {
    if n > 0 {
      LayerCellsAreCells(ls, c, x, y, n - 1);
    }
  }

  lemma CellsBoxes(ls: seq<Grid>, c: bv32, cs: seq<Shape>, ds: seq<Shape>)
    requires LayersOk(ls) && BoxesOk(ls, c, cs) && AllCells(ds)
    ensures BoxesOk(ls, c, cs + ds)
  {
  }

  lemma CellsMarks(m: seq<seq<bool>>, cs: seq<Shape>, ds: seq<Shape>)
    requires Square(m) && MarksOk(m, cs) && AllCells(ds)
    ensures MarksOk(m, cs + ds)
  {
    forall a: nat, b: nat | a < ChunkSize && b < ChunkSize
      ensures Count(cs + ds, a, b) == Count(cs, a, b)
    {
      CountCells(cs, ds, a, b);
    }
  }

  lemma CellsVisited(ls: seq<Grid>, c: bv32, cs: seq<Shape>, x: nat, y: nat, ds: seq<Shape>)
    requires LayersOk(ls) && x < ChunkSize && y < ChunkSize && Visited(ls, c, cs, x, y)
    requires AllCells(ds) && TileShapes(ls, c, x, y) == ds
    ensures Visited(ls, c, cs + ds, x, y + 1)
  {
    OutlinesAppend(cs, ds);
    OutlinesCells(ds);
  }

  lemma {:induction false} OutlinesCells(ds: seq<Shape>)
    requires AllCells(ds)
    ensures Outlines(ds) == ds
  {
    if |ds| > 0 {
      var n := |ds| - 1;
      assert AllCells(ds[..n]);
      OutlinesCells(ds[..n]);
      assert ds == ds[..n] + [ds[n]];
    }
  }

  /** A tile that is not full on c adds its cells. */
  lemma CellsStep(ls: seq<Grid>, c: bv32, m: seq<seq<bool>>, cs: seq<Shape>, x: nat, y: nat)
    requires LayersOk(ls) && Square(m) && x < ChunkSize && y < ChunkSize && ScanState(ls, c, m, cs, x, y)
    requires !FullAt(ls, c, x, y)
    ensures ScanState(ls, c, m, cs + LayerCells(ls, c, x, y, |ls|), x, y + 1)
  {
    var ds := LayerCells(ls, c, x, y, |ls|);
    LayerCellsAreCells(ls, c, x, y, |ls|);
    CellsBoxes(ls, c, cs, ds);
    CellsMarks(m, cs, ds);
    CellsVisited(ls, c, cs, x, y, ds);
  }

  lemma BoxBoxes(ls: seq<Grid>, c: bv32, cs: seq<Shape>, box: Shape)
    requires LayersOk(ls) && BoxesOk(ls, c, cs) && InChunk(box)
    requires forall a: nat, b: nat :: a < ChunkSize && b < ChunkSize && InBox(box, a, b) ==> FullAt(ls, c, a, b)
    ensures BoxesOk(ls, c, cs + [box])
  {
  }

  lemma BoxMarks(m: seq<seq<bool>>, cs: seq<Shape>, box: Shape)
    requires Square(m) && MarksOk(m, cs)
    ensures Square(Mark(m, box)) && MarksOk(Mark(m, box), cs + [box])
  {
    assert (cs + [box])[..|cs|] == cs;
  }

  lemma BoxVisited(ls: seq<Grid>, c: bv32, cs: seq<Shape>, x: nat, y: nat, box: Shape)
    requires LayersOk(ls) && x < ChunkSize && y < ChunkSize && Visited(ls, c, cs, x, y)
    requires FullAt(ls, c, x, y) && box.BoxShape? && box.x == x && box.y == y
    ensures Visited(ls, c, cs + [box], x, y + 1)
  {
    assert (cs + [box])[..|cs|] == cs;
    assert Outlines(cs + [box]) == Outlines(cs) + [Start(x, y)];
  }

  /** A box at a full tile of c, inside the chunk and holding only full
    * tiles of c, is added and marked. */
  lemma BoxStep(ls: seq<Grid>, c: bv32, m: seq<seq<bool>>, cs: seq<Shape>, x: nat, y: nat, box: Shape)
    requires LayersOk(ls) && Square(m) && x < ChunkSize && y < ChunkSize && ScanState(ls, c, m, cs, x, y)
    requires FullAt(ls, c, x, y) && box.BoxShape? && box.x == x && box.y == y && InChunk(box)
    requires forall a: nat, b: nat :: a < ChunkSize && b < ChunkSize && InBox(box, a, b) ==> FullAt(ls, c, a, b)
    ensures Square(Mark(m, box)) && ScanState(ls, c, Mark(m, box), cs + [box], x, y + 1)
  {
    BoxBoxes(ls, c, cs, box);
    BoxMarks(m, cs, box);
    BoxVisited(ls, c, cs, x, y, box);
  }

  lemma ScanStart(ls: seq<Grid>, c: bv32, m: seq<seq<bool>>)
    requires LayersOk(ls) && Square(m) && forall a, b :: 0 <= a < ChunkSize && 0 <= b < ChunkSize ==> !m[a][b]
    ensures ScanState(ls, c, m, [], 0, 0)
  {
  }

  lemma ColumnStep(ls: seq<Grid>, c: bv32, m: seq<seq<bool>>, cs: seq<Shape>, x: nat)
    requires LayersOk(ls) && Square(m) && x < ChunkSize && ScanState(ls, c, m, cs, x, ChunkSize)
    ensures ScanState(ls, c, m, cs, x + 1, 0)
  {
  }

  lemma ScanDone(ls: seq<Grid>, c: bv32, m: seq<seq<bool>>, cs: seq<Shape>)
    requires LayersOk(ls) && Square(m) && ScanState(ls, c, m, cs, ChunkSize, 0)
    ensures ChunkCoverOk(ls, c, cs)
  {
  }

  /** The width loop: from (x, y), how many free tiles follow in the row.
    * The start tile itself is not checked against the coverage. */
  method BoxWidth(ls: seq<Grid>, c: bv32, mat: array2<bool>, x: nat, y: nat) returns (width: nat)
    requires LayersOk(ls) && MatOk(mat) && x < ChunkSize && y < ChunkSize
    ensures 1 <= width && x + width <= ChunkSize
    ensures forall a :: x < a < x + width ==> Free(ls, c, mat, a, y)
    ensures x + width == ChunkSize || !Free(ls, c, mat, x + width, y)
  {
    width := 1;
    var i := 1;
    while i + x < ChunkSize
      invariant 1 <= i == width && x + i <= ChunkSize
      invariant forall a :: x < a < x + i ==> Free(ls, c, mat, a, y)
    {
      if mat[x + i, y] {
        break;
      }
      var full := HaveFullCollisionAt(ls, x + i, y, c);
      if !full {
        break;
      }
      width := width + 1;
      i := i + 1;
    }
  }

  /** The inner loop of the height search: is every tile of row y, from
    * column x on for `width` tiles, free? */
  method RowFreeLoop(ls: seq<Grid>, c: bv32, mat: array2<bool>, x: nat, y: nat, width: nat) returns (allValid: bool)
    requires LayersOk(ls) && MatOk(mat) && x + width <= ChunkSize && y < ChunkSize
    ensures allValid <==> RowFree(ls, c, mat, x, width, y)
  {
    allValid := true;
    for i := 0 to width
      invariant allValid && forall a :: x <= a < x + i ==> Free(ls, c, mat, a, y)
    {
      var haveCollision := HaveFullCollisionAt(ls, x + i, y, c);
      if mat[x + i, y] || !haveCollision {
        assert !Free(ls, c, mat, x + i, y);
        allValid := false;
        break;
      }
    }
  }

  /** The height loop: how many rows below y are free across the whole
    * width. */
  method BoxHeight(ls: seq<Grid>, c: bv32, mat: array2<bool>, x: nat, y: nat, width: nat) returns (height: nat)
    requires LayersOk(ls) && MatOk(mat) && x + width <= ChunkSize && y < ChunkSize
    ensures 1 <= height && y + height <= ChunkSize
    ensures forall a, b :: x <= a < x + width && y < b < y + height ==> Free(ls, c, mat, a, b)
    ensures y + height == ChunkSize || !RowFree(ls, c, mat, x, width, y + height)
  {
    height := 1;
    var j := 1;
    while j + y < ChunkSize
      invariant 1 <= j == height && y + j <= ChunkSize
      invariant forall a, b :: x <= a < x + width && y < b < y + j ==> Free(ls, c, mat, a, b)
    {
      var allValid := RowFreeLoop(ls, c, mat, x, y + j, width);
      if allValid {
        height := height + 1;
      } else {
        break;
      }
      j := j + 1;
    }
  }

  /** A box starting at the full tile (x, y): its width, then its height,
    * then its tiles marked as covered. */
  method AddBox(ls: seq<Grid>, c: bv32, mat: array2<bool>, cs: seq<Shape>, x: nat, y: nat) returns (cs': seq<Shape>)
    requires LayersOk(ls) && MatOk(mat) && x < ChunkSize && y < ChunkSize && ScanState(ls, c, Covered(mat), cs, x, y)
    requires FullAt(ls, c, x, y)
    modifies mat
    ensures ScanState(ls, c, Covered(mat), cs', x, y + 1)
  {
    var width := BoxWidth(ls, c, mat, x, y);
    var height := BoxHeight(ls, c, mat, x, y, width);
    var box := BoxShape(x, y, width, height);
    forall a: nat, b: nat | a < ChunkSize && b < ChunkSize && InBox(box, a, b)
      ensures FullAt(ls, c, a, b)
    {
      if a > x || b > y {
        assert Free(ls, c, mat, a, b);
      }
    }
    BoxStep(ls, c, Covered(mat), cs, x, y, box);
    MarkBox(mat, x, y, width, height);
    cs' := cs + [box];
  }

  /** The cells of a tile that is not full on c: one per layer whose
    * collider there collides on c. */
  method AddCells(ls: seq<Grid>, c: bv32, cs: seq<Shape>, x: nat, y: nat) returns (cs': seq<Shape>)
    requires LayersOk(ls) && x < ChunkSize && y < ChunkSize
    ensures cs' == cs + LayerCells(ls, c, x, y, |ls|)
  {
    cs' := cs;
    for i := 0 to |ls|
      invariant cs' == cs + LayerCells(ls, c, x, y, i)
    {
      var collider := At(ls[i], x, y);
      if !HaveCollision(collider) || collider.collisionLayer != c {
        continue;
      }
      cs' := cs' + [CellShape(x, y, collider)];
    }
  }

  /** One tile of the scan: the start of a box when full on c, its cells
    * otherwise. */
  method ScanTile(ls: seq<Grid>, c: bv32, mat: array2<bool>, cs: seq<Shape>, x: nat, y: nat) returns (cs': seq<Shape>)
    requires LayersOk(ls) && MatOk(mat) && x < ChunkSize && y < ChunkSize && ScanState(ls, c, Covered(mat), cs, x, y)
    modifies mat
    ensures ScanState(ls, c, Covered(mat), cs', x, y + 1)
  {
    var full := HaveFullCollisionAt(ls, x, y, c);
    if !full {
      CellsStep(ls, c, Covered(mat), cs, x, y);
      cs' := AddCells(ls, c, cs, x, y);
    } else {
      cs' := AddBox(ls, c, mat, cs, x, y);
    }
  }

  /** One column of the scan, from the top. */
  method ScanColumn(ls: seq<Grid>, c: bv32, mat: array2<bool>, cs: seq<Shape>, x: nat) returns (cs': seq<Shape>)
    requires LayersOk(ls) && MatOk(mat) && x < ChunkSize && ScanState(ls, c, Covered(mat), cs, x, 0)
    modifies mat
    ensures ScanState(ls, c, Covered(mat), cs', x + 1, 0)
  {
    cs' := cs;
    for y := 0 to ChunkSize
      invariant ScanState(ls, c, Covered(mat), cs', x, y)
    {
      cs' := ScanTile(ls, c, mat, cs', x, y);
    }
    ColumnStep(ls, c, Covered(mat), cs', x);
  }

  /** The coverage matrix, nothing covered yet. */
  method NewCoverage(ls: seq<Grid>, c: bv32) returns (mat: array2<bool>)
    requires LayersOk(ls)
    ensures fresh(mat) && MatOk(mat) && ScanState(ls, c, Covered(mat), [], 0, 0)
  {
    mat := new bool[ChunkSize, ChunkSize]((_, _) => false);
    ScanStart(ls, c, Covered(mat));
  }

  /** The scan of `createCollisionLayer(c)`: columns from the left, each
    * from the top. */
  method BuildChunkColliders(ls: seq<Grid>, c: bv32) returns (colliders: seq<Shape>)
    requires LayersOk(ls)
    ensures ChunkCoverOk(ls, c, colliders)
  {
    var mat := NewCoverage(ls, c);
    colliders := [];
    for x := 0 to ChunkSize
      invariant ScanState(ls, c, Covered(mat), colliders, x, 0)
    {
      colliders := ScanColumn(ls, c, mat, colliders, x);
    }
    ScanDone(ls, c, Covered(mat), colliders);
  }

  // ---------------------------------------------------------------------
  // The behaviour: one entry per collision layer of the chunk

  /** The collision settings given to a layer's compound collider. */
  datatype Filter = Filter(category: bv32, mask: bv32, group: nat, collisionId: bv32)

  /** A collision layer id, its entity, and the shapes and settings of the
    * entity's compound collider (`None`: left at their defaults). */
  datatype ChunkLayer = ChunkLayer(id: bv32, entity: nat, colliders: seq<Shape>, filter: Option<Filter>)

  function LayerIds(ls: seq<ChunkLayer>): (r: seq<bv32>)
    ensures |r| == |ls| && forall k :: 0 <= k < |ls| ==> r[k] == ls[k].id
  {
    seq(|ls|, k requires 0 <= k < |ls| => ls[k].id)
  }

  function LayerEntities(ls: seq<ChunkLayer>): (r: seq<nat>)
    ensures |r| == |ls| && forall k :: 0 <= k < |ls| ==> r[k] == ls[k].entity
  {
    seq(|ls|, k requires 0 <= k < |ls| => ls[k].entity)
  }

  /** `std::find_if` on the id: the first entry with that id, or the count. */
  function FindChunkLayer(ls: seq<ChunkLayer>, id: bv32): (k: nat)
    ensures k <= |ls| && (k < |ls| ==> ls[k].id == id)
    ensures forall m :: 0 <= m < k ==> ls[m].id != id
  {
    if |ls| == 0 then 0
    else if ls[0].id == id then 0
    else 1 + FindChunkLayer(ls[1..], id)
  }

  /** The contents of a valid collision table: `nb` layers in use and
    * the 32 slots. */
  predicate TableOk(nb: nat, rows: seq<CollisionDefinitions.LayerInfos>)
  {
    nb <= 32 && |rows| == 32 && forall i :: 0 <= i < 32 ==> CollisionDefinitions.Row(rows[i])
  }

  /** The category bit of collision layer c, `1 << c`. */
  function Category(c: bv32): (b: bv32)
    requires c < 32
    ensures b != 0 && b & (b - 1) == 0
  {
    (1 as bv32) << c
  }

  /** The settings of collision layer c: its bit as category, its row's
    * contact mask as collision mask, group 0 and id c, when the table has
    * layer c; the defaults otherwise. */
  function LayerFilter(nb: nat, rows: seq<CollisionDefinitions.LayerInfos>, c: bv32): Option<Filter>
    requires TableOk(nb, rows)
  {
    if (c as nat) < nb then
      Some(Filter(Category(c),
                  CollisionDefinitions.Mask(rows[c as nat].contacts, CollisionDefinitions.AnyContact), 0, c))
    else None
  }

  /** The shapes of an entry are those `createCollisionLayer` builds for
    * its id from the chunk's layers. */
  predicate Covers(tls: seq<Grid>, e: ChunkLayer)
    requires LayersOk(tls)
  {
    ChunkCoverOk(tls, e.id, e.colliders)
  }

  predicate AllCovered(tls: seq<Grid>, ls: seq<ChunkLayer>)
    requires LayersOk(tls)
  {
    forall k :: 0 <= k < |ls| ==> Covers(tls, ls[k])
  }

  /** Every entry has the settings of its id. */
  predicate AllFiltered(nb: nat, rows: seq<CollisionDefinitions.LayerInfos>, ls: seq<ChunkLayer>)
    requires TableOk(nb, rows)
  {
    forall k :: 0 <= k < |ls| ==> ls[k].filter == LayerFilter(nb, rows, ls[k].id)
  }

  /** An entry as `createCollisionLayer` builds it from the chunk's layers
    * and the collision table. */
  predicate Made(tls: seq<Grid>, nb: nat, rows: seq<CollisionDefinitions.LayerInfos>, e: ChunkLayer)
    requires LayersOk(tls) && TableOk(nb, rows)
  {
    Covers(tls, e) && e.filter == LayerFilter(nb, rows, e.id)
  }

  lemma AllCoveredAppend(tls: seq<Grid>, ls: seq<ChunkLayer>, e: ChunkLayer)
    requires LayersOk(tls) && AllCovered(tls, ls) && Covers(tls, e)
    ensures AllCovered(tls, ls + [e])
  {
    assert forall k :: 0 <= k < |ls| ==> (ls + [e])[k] == ls[k];
  }

  lemma AllFilteredAppend(nb: nat, rows: seq<CollisionDefinitions.LayerInfos>, ls: seq<ChunkLayer>, e: ChunkLayer)
    requires TableOk(nb, rows) && AllFiltered(nb, rows, ls) && e.filter == LayerFilter(nb, rows, e.id)
    ensures AllFiltered(nb, rows, ls + [e])
  {
    assert forall k :: 0 <= k < |ls| ==> (ls + [e])[k] == ls[k];
  }

  lemma LayerIdsAppend(ls: seq<ChunkLayer>, e: ChunkLayer)
    ensures LayerIds(ls + [e]) == LayerIds(ls) + [e.id]
  {
    assert forall k :: 0 <= k < |ls| ==> (ls + [e])[k] == ls[k];
  }

  lemma LayerIdsUpdate(ls: seq<ChunkLayer>, k: nat, e: ChunkLayer)
    requires k < |ls| && ls[k].id == e.id
    ensures LayerIds(ls[k := e]) == LayerIds(ls)
  {
    var a, b := LayerIds(ls[k := e]), LayerIds(ls);
    assert forall m :: 0 <= m < |a| ==> a[m] == b[m];
  }

  lemma FreshIdAppend(ls: seq<ChunkLayer>, e: ChunkLayer)
    requires Distinct(LayerIds(ls)) && forall m :: 0 <= m < |ls| ==> ls[m].id != e.id
    ensures LayerIds(ls + [e]) == LayerIds(ls) + [e.id] && Distinct(LayerIds(ls + [e]))
  {
    LayerIdsAppend(ls, e);
    DistinctConcat(LayerIds(ls), [e.id]);
  }

  /** The id of tile (x, y) of a layer, if it collides. */
  function TileIds(g: Grid, x: nat, y: nat): seq<bv32>
    requires GridOk(g) && x < g.width && y < g.height
  {
    if HaveCollision(At(g, x, y)) then [At(g, x, y).collisionLayer] else []
  }

  /** The position (i, x, y) of the scan of `updateCollisions`: layer i,
    * column x, row y. */
  predicate ScanPos(tls: seq<Grid>, i: nat, x: nat, y: nat)
  {
    && i <= |tls| && x <= ChunkSize && y <= ChunkSize
    && (x == ChunkSize ==> y == 0) && (i == |tls| ==> x == 0 && y == 0)
  }

  /** The ids of the colliding tiles the scan of `updateCollisions` meets
    * before (i, x, y): layers in order, each column by column from the
    * left, each column from the top. */
  function IdsBefore(tls: seq<Grid>, i: nat, x: nat, y: nat): seq<bv32>
    requires LayersOk(tls) && ScanPos(tls, i, x, y)
    decreases i, x, y
  {
    if y > 0 then IdsBefore(tls, i, x, y - 1) + TileIds(tls[i], x, y - 1)
    else if x > 0 then IdsBefore(tls, i, x - 1, ChunkSize)
    else if i > 0 then IdsBefore(tls, i - 1, ChunkSize, 0)
    else []
  }

  /** (j, a, b) comes before (i, x, y) in the scan. */
  predicate Earlier(j: nat, a: nat, b: nat, i: nat, x: nat, y: nat)
  {
    j < i || (j == i && (a < x || (a == x && b < y)))
  }

  lemma {:induction false} LayeredBefore(tls: seq<Grid>, v: bv32, j: nat, a: nat, b: nat, i: nat, x: nat, y: nat)
    requires LayersOk(tls) && ScanPos(tls, i, x, y) && j < |tls| && a < ChunkSize && b < ChunkSize
    requires Earlier(j, a, b, i, x, y) && Layered(tls[j], a, b, v)
    ensures v in IdsBefore(tls, i, x, y)
    decreases i, x, y
  {
    if y > 0 {
      if j != i || a != x || b != y - 1 {
        LayeredBefore(tls, v, j, a, b, i, x, y - 1);
      }
    } else if x > 0 {
      LayeredBefore(tls, v, j, a, b, i, x - 1, ChunkSize);
    } else {
      LayeredBefore(tls, v, j, a, b, i - 1, ChunkSize, 0);
    }
  }

  lemma {:induction false} FoundBefore(tls: seq<Grid>, v: bv32, i: nat, x: nat, y: nat) returns (j: nat, a: nat, b: nat)
    requires LayersOk(tls) && ScanPos(tls, i, x, y) && v in IdsBefore(tls, i, x, y)
    ensures j < |tls| && a < ChunkSize && b < ChunkSize && Earlier(j, a, b, i, x, y) && Layered(tls[j], a, b, v)
    decreases i, x, y
  {
    if y > 0 {
      if v in IdsBefore(tls, i, x, y - 1) {
        j, a, b := FoundBefore(tls, v, i, x, y - 1);
      } else {
        j, a, b := i, x, y - 1;
      }
    } else if x > 0 {
      j, a, b := FoundBefore(tls, v, i, x - 1, ChunkSize);
    } else {
      j, a, b := FoundBefore(tls, v, i - 1, ChunkSize, 0);
    }
  }

  /** Some tile of some layer collides on collision layer v. */
  predicate ChunkHas(tls: seq<Grid>, v: bv32)
    requires LayersOk(tls)
  {
    exists j, a: nat, b: nat :: 0 <= j < |tls| && a < ChunkSize && b < ChunkSize && Layered(tls[j], a, b, v)
  }

  /** The entries `updateCollisions` creates: each collision layer of a
    * colliding tile of any of the chunk's layers, once, and no other. */
  lemma RebuiltChunkIds(tls: seq<Grid>, v: bv32)
    requires LayersOk(tls)
    ensures Distinct(FirstSeen(IdsBefore(tls, |tls|, 0, 0)))
    ensures v in FirstSeen(IdsBefore(tls, |tls|, 0, 0)) <==> ChunkHas(tls, v)
  {
    var ids := IdsBefore(tls, |tls|, 0, 0);
    FirstSeenContents(ids);
    if v in ids {
      var j, a, b := FoundBefore(tls, v, |tls|, 0, 0);
      assert Layered(tls[j], a, b, v);
    }
    if ChunkHas(tls, v) {
      var j, a: nat, b: nat :| 0 <= j < |tls| && a < ChunkSize && b < ChunkSize && Layered(tls[j], a, b, v);
      LayeredBefore(tls, v, j, a, b, |tls|, 0, 0);
    }
  }

  /** One step of `updateCollisions`' scan: the tile at (i, x, y) adds its
    * id when it collides and the id is new. */
  lemma IdsStep(tls: seq<Grid>, i: nat, x: nat, y: nat, ids: seq<bv32>)
    requires LayersOk(tls) && i < |tls| && x < ChunkSize && y < ChunkSize
    requires ids == FirstSeen(IdsBefore(tls, i, x, y))
    ensures var t := At(tls[i], x, y);
      FirstSeen(IdsBefore(tls, i, x, y + 1)) ==
        if HaveCollision(t) && t.collisionLayer !in ids then ids + [t.collisionLayer] else ids
  {
    var t := At(tls[i], x, y);
    if HaveCollision(t) {
      FirstSeenPush(IdsBefore(tls, i, x, y), t.collisionLayer);
    } else {
      assert IdsBefore(tls, i, x, y + 1) == IdsBefore(tls, i, x, y);
    }
  }

  /** The entry of collision layer c for the given entity: its shapes
    * built from the chunk's layers and its settings from the collision
    * table. */
  method BuildLayer(tls: seq<Grid>, nb: nat, rows: seq<CollisionDefinitions.LayerInfos>, c: bv32, entity: nat) returns (e: ChunkLayer)
    requires LayersOk(tls) && TableOk(nb, rows)
    ensures e.id == c && e.entity == entity && Made(tls, nb, rows, e)
  {
    var colliders := BuildChunkColliders(tls, c);
    e := ChunkLayer(c, entity, colliders, LayerFilter(nb, rows, c));
  }

  /** The entries' entities are the consecutive tokens from n. */
  predicate NumberedFrom(ls: seq<ChunkLayer>, n: nat)
  {
    forall k :: 0 <= k < |ls| ==> ls[k].entity == n + k
  }

  /** The entries built so far by the scan of `updateCollisions`: one per
    * created id, in creation order, each covering its collision layer
    * with its settings, with consecutive entities from n. */
  predicate Built(tls: seq<Grid>, nb: nat, rows: seq<CollisionDefinitions.LayerInfos>, n: nat,
                  ls: seq<ChunkLayer>, next: nat, created: seq<bv32>)
    requires LayersOk(tls) && TableOk(nb, rows)
  {
    && Distinct(created) && LayerIds(ls) == created
    && AllCovered(tls, ls) && AllFiltered(nb, rows, ls)
    && NumberedFrom(ls, n) && next == n + |ls|
  }

  lemma BuiltAppend(tls: seq<Grid>, nb: nat, rows: seq<CollisionDefinitions.LayerInfos>, n: nat,
                    ls: seq<ChunkLayer>, next: nat, created: seq<bv32>, e: ChunkLayer)
    requires LayersOk(tls) && TableOk(nb, rows) && Built(tls, nb, rows, n, ls, next, created)
    requires e.id !in created && Made(tls, nb, rows, e) && e.entity == next
    ensures Built(tls, nb, rows, n, ls + [e], next + 1, created + [e.id])
  {
    LayerIdsAppend(ls, e);
    DistinctConcat(created, [e.id]);
    AllCoveredAppend(tls, ls, e);
    AllFilteredAppend(nb, rows, ls, e);
  }

  /** Every entry's id was created by the scan. */
  predicate AllCreated(ls: seq<ChunkLayer>, created: seq<bv32>)
  {
    forall k :: 0 <= k < |ls| ==> ls[k].id in created
  }

  /** The removal in `updateCollisions`: entry i takes the last entry's
    * place and the last slot is dropped. */
  function DropEntry(ls: seq<ChunkLayer>, i: nat): (r: seq<ChunkLayer>)
    requires i < |ls|
    ensures |r| == |ls| - 1
  {
    ls[i := ls[|ls| - 1]][..|ls| - 1]
  }

  /** With distinct ids, the swap-remove drops exactly entry i and keeps
    * the entries before it in place. */
  lemma DropEntryEntries(ls: seq<ChunkLayer>, i: nat)
    requires i < |ls| && Distinct(LayerIds(ls))
    ensures var r := DropEntry(ls, i);
      && Distinct(LayerIds(r)) && r[..i] == ls[..i]
      && forall e :: e in r <==> e in ls && e != ls[i]
  {
    var r := DropEntry(ls, i);
    var n := |ls| - 1;
    assert forall m :: 0 <= m < |r| ==> r[m] == if m == i then ls[n] else ls[m];
    forall e | e in r
      ensures e in ls && e != ls[i]
    {
      var m :| 0 <= m < |r| && r[m] == e;
      if m == i {
        assert LayerIds(ls)[n] != LayerIds(ls)[i];
      } else {
        assert LayerIds(ls)[m] != LayerIds(ls)[i];
      }
    }
    forall e | e in ls && e != ls[i]
      ensures e in r
    {
      var m :| 0 <= m < |ls| && ls[m] == e;
      if m == n {
        assert r[i] == e;
      } else {
        assert r[m] == e;
      }
    }
    var a, b := LayerIds(r), LayerIds(ls);
    forall p, q | 0 <= p < q < |a|
      ensures a[p] != a[q]
    {
      var p', q' := if p == i then n else p, if q == i then n else q;
      assert a[p] == b[p'] && a[q] == b[q'];
    }
  }

  /** The removal loop of `updateCollisions` at position i, having turned
    * ls0 into ls and the kill log ks0 into ks: the entries before i are
    * kept ones, every remaining entry is an original one, every original
    * entry with a created id remains, one kill is logged per removal, and
    * nothing has changed while every original id is a created one. */
  predicate Dropping(ls0: seq<ChunkLayer>, ks0: seq<nat>, created: seq<bv32>, ls: seq<ChunkLayer>, ks: seq<nat>, i: nat)
  {
    && i <= |ls| && Distinct(LayerIds(ls))
    && (forall k :: 0 <= k < i ==> ls[k].id in created)
    && (forall e :: e in ls ==> e in ls0)
    && (forall e :: e in ls0 && e.id in created ==> e in ls)
    && |ks| + |ls| == |ks0| + |ls0|
    && |ks0| <= |ks| && ks[..|ks0|] == ks0
    && (AllCreated(ls0, created) ==> ls == ls0 && ks == ks0)
  }

  lemma DroppingRemove(ls0: seq<ChunkLayer>, ks0: seq<nat>, created: seq<bv32>, ls: seq<ChunkLayer>, ks: seq<nat>, i: nat)
    requires Dropping(ls0, ks0, created, ls, ks, i) && i < |ls| && ls[i].id !in created
    ensures Dropping(ls0, ks0, created, DropEntry(ls, i), ks + [ls[i].entity], i)
  {
    assert ls[i] in ls0;
    DropEntryEntries(ls, i);
    assert (ks + [ls[i].entity])[..|ks0|] == ks[..|ks0|];
    var r := DropEntry(ls, i);
    assert forall k :: 0 <= k < i ==> r[k] == r[..i][k];
  }

  lemma DroppingKeep(ls0: seq<ChunkLayer>, ks0: seq<nat>, created: seq<bv32>, ls: seq<ChunkLayer>, ks: seq<nat>, i: nat)
    requires Dropping(ls0, ks0, created, ls, ks, i) && i < |ls| && ls[i].id in created
    ensures Dropping(ls0, ks0, created, ls, ks, i + 1)
  {
  }

  /** The removal loop of `updateCollisions` from position i on: the list it
    * leaves and the entities it kills, in the order it kills them. A removed
    * entry's place is taken by the last one, which is examined next. */
  function Sweep(ls: seq<ChunkLayer>, created: seq<bv32>, i: nat): (r: (seq<ChunkLayer>, seq<nat>))
    requires i <= |ls| && forall k :: 0 <= k < i ==> ls[k].id in created
    ensures |r.0| + |r.1| == |ls|
    ensures forall k :: 0 <= k < |r.0| ==> r.0[k].id in created
    decreases |ls| - i
  {
    if i == |ls| then
      (ls, [])
    else if ls[i].id !in created then
      var r := Sweep(DropEntry(ls, i), created, i);
      (r.0, [ls[i].entity] + r.1)
    else
      Sweep(ls, created, i + 1)
  }

  /** The removal loop's state at position i: `Dropping`, and what the rest
    * of the loop leaves and kills completes the whole sweep of `ls0`. */
  predicate Sweeping(ls0: seq<ChunkLayer>, ks0: seq<nat>, created: seq<bv32>, ls: seq<ChunkLayer>, ks: seq<nat>, i: nat)
  {
    && Dropping(ls0, ks0, created, ls, ks, i)
    && var d := Sweep(ls, created, i);
       d.0 == Sweep(ls0, created, 0).0 && ks + d.1 == ks0 + Sweep(ls0, created, 0).1
  }

  lemma SweepingRemove(ls0: seq<ChunkLayer>, ks0: seq<nat>, created: seq<bv32>, ls: seq<ChunkLayer>, ks: seq<nat>, i: nat)
    requires Sweeping(ls0, ks0, created, ls, ks, i) && i < |ls| && ls[i].id !in created
    ensures Sweeping(ls0, ks0, created, DropEntry(ls, i), ks + [ls[i].entity], i)
  {
    DroppingRemove(ls0, ks0, created, ls, ks, i);
    var rest := Sweep(DropEntry(ls, i), created, i).1;
    assert ks + ([ls[i].entity] + rest) == (ks + [ls[i].entity]) + rest;
  }

  lemma SweepingKeep(ls0: seq<ChunkLayer>, ks0: seq<nat>, created: seq<bv32>, ls: seq<ChunkLayer>, ks: seq<nat>, i: nat)
    requires Sweeping(ls0, ks0, created, ls, ks, i) && i < |ls| && ls[i].id in created
    ensures Sweeping(ls0, ks0, created, ls, ks, i + 1)
  {
    DroppingKeep(ls0, ks0, created, ls, ks, i);
  }

  lemma SweepingDone(ls0: seq<ChunkLayer>, ks0: seq<nat>, created: seq<bv32>, ls: seq<ChunkLayer>, ks: seq<nat>, i: nat)
    requires Sweeping(ls0, ks0, created, ls, ks, i) && i >= |ls|
    ensures Distinct(LayerIds(ls)) && AllCreated(ls, created)
    ensures forall e :: e in ls <==> e in ls0 && e.id in created
    ensures |ks0| <= |ks| && ks[..|ks0|] == ks0
    ensures |ks| - |ks0| == |ls0| - |ls|
    ensures AllCreated(ls0, created) ==> ls == ls0 && ks == ks0
    ensures ls == Sweep(ls0, created, 0).0 && ks == ks0 + Sweep(ls0, created, 0).1
  {
    assert ks + [] == ks;
  }

  /** `ChunkCollisionBehaviour`. The chunk's layers and the collision table
    * are read when they are needed and given as parameters; entities are
    * tokens numbered from `nextEntity`, and `killed` lists the entities
    * killed so far. */
  class ChunkCollisionBehaviour {
    var layers: seq<ChunkLayer>
    /** How many tilemap modification subscriptions are held: one for each
      * of the first `mapModified` layer indices. */
    var mapModified: nat
    /** Whether the chunk's layer-changed callback is connected. */
    var layerChanged: bool
    var nextEntity: nat
    var killed: seq<nat>

    ghost predicate Valid()
      reads this
    {
      Distinct(LayerIds(layers))
    }

    constructor ()
      ensures Valid() && layers == [] && mapModified == 0 && !layerChanged && killed == []
    {
      layers := [];
      mapModified := 0;
      layerChanged := false;
      nextEntity := 0;
      killed := [];
    }

    /** `clone`: a new behaviour on the same chunk, with nothing built. */
    method Clone() returns (b: ChunkCollisionBehaviour)
      ensures fresh(b) && b.Valid() && b.layers == [] && b.mapModified == 0 && !b.layerChanged && b.killed == []
    {
      b := new ChunkCollisionBehaviour();
    }

    /** `clearCollisions`: every entry's entity is killed and the list
      * emptied. */
    method ClearCollisions()
      modifies this
      ensures Valid() && layers == [] && killed == old(killed) + LayerEntities(old(layers))
      ensures mapModified == old(mapModified) && layerChanged == old(layerChanged) && nextEntity == old(nextEntity)
    {
      for k := 0 to |layers|
        invariant layers == old(layers) && mapModified == old(mapModified)
        invariant layerChanged == old(layerChanged) && nextEntity == old(nextEntity)
        invariant killed == old(killed) + LayerEntities(layers)[..k]
      {
        killed := killed + [layers[k].entity];
      }
      assert LayerEntities(layers)[..|layers|] == LayerEntities(layers);
      layers := [];
    }

    /** `createCollisionLayer(c)`: the entry of c keeps its entity, or a new
      * entry with a new entity is appended, and its collider is rebuilt
      * from the chunk's layers with the settings of c. */
    method CreateCollisionLayer(tls: seq<Grid>, nb: nat, rows: seq<CollisionDefinitions.LayerInfos>, c: bv32) returns (e: ChunkLayer)
      requires Valid() && LayersOk(tls) && TableOk(nb, rows)
      modifies this
      ensures Valid() && mapModified == old(mapModified) && layerChanged == old(layerChanged) && killed == old(killed)
      ensures e.id == c && Made(tls, nb, rows, e)
      ensures var k := FindChunkLayer(old(layers), c);
        if k < |old(layers)| then
          layers == old(layers)[k := e] && e.entity == old(layers)[k].entity && nextEntity == old(nextEntity)
        else
          layers == old(layers) + [e] && e.entity == old(nextEntity) && nextEntity == old(nextEntity) + 1
    {
      var ls, next := layers, nextEntity;
      var k := FindChunkLayer(ls, c);
      if k < |ls| {
        e := BuildLayer(tls, nb, rows, c, ls[k].entity);
        LayerIdsUpdate(ls, k, e);
        ls := ls[k := e];
      } else {
        e := BuildLayer(tls, nb, rows, c, next);
        FreshIdAppend(ls, e);
        ls, next := ls + [e], next + 1;
      }
      layers, nextEntity := ls, next;
    }

    /** One tile of the scan of `updateCollisions`: a colliding tile whose
      * collision layer is not yet created gets its entry, appended with a
      * new entity. */
    method ScanCollisionTile(tls: seq<Grid>, nb: nat, rows: seq<CollisionDefinitions.LayerInfos>, ghost n: nat,
                             i: nat, x: nat, y: nat, created: seq<bv32>) returns (created': seq<bv32>)
      requires LayersOk(tls) && TableOk(nb, rows) && i < |tls| && x < ChunkSize && y < ChunkSize
      requires Built(tls, nb, rows, n, layers, nextEntity, created) && created == FirstSeen(IdsBefore(tls, i, x, y))
      modifies this
      ensures Built(tls, nb, rows, n, layers, nextEntity, created') && created' == FirstSeen(IdsBefore(tls, i, x, y + 1))
      ensures killed == old(killed) && mapModified == old(mapModified) && layerChanged == old(layerChanged)
    {
      IdsStep(tls, i, x, y, created);
      var t := At(tls[i], x, y);
      created' := created;
      if !HaveCollision(t) {
        return;
      }
      if t.collisionLayer !in created {
        created' := created + [t.collisionLayer];
        ghost var before, next := layers, nextEntity;
        assert FindChunkLayer(before, t.collisionLayer) == |before|;
        var e := CreateCollisionLayer(tls, nb, rows, t.collisionLayer);
        BuiltAppend(tls, nb, rows, n, before, next, created, e);
      }
    }

    /** Column x of layer i in the scan of `updateCollisions`, top to
      * bottom. */
    method ScanCollisionColumn(tls: seq<Grid>, nb: nat, rows: seq<CollisionDefinitions.LayerInfos>, ghost n: nat,
                               i: nat, x: nat, created: seq<bv32>) returns (created': seq<bv32>)
      requires LayersOk(tls) && TableOk(nb, rows) && i < |tls| && x < ChunkSize
      requires Built(tls, nb, rows, n, layers, nextEntity, created) && created == FirstSeen(IdsBefore(tls, i, x, 0))
      modifies this
      ensures Built(tls, nb, rows, n, layers, nextEntity, created') && created' == FirstSeen(IdsBefore(tls, i, x + 1, 0))
      ensures killed == old(killed) && mapModified == old(mapModified) && layerChanged == old(layerChanged)
    {
      created' := created;
      for y := 0 to ChunkSize
        invariant Built(tls, nb, rows, n, layers, nextEntity, created') && created' == FirstSeen(IdsBefore(tls, i, x, y))
        invariant killed == old(killed) && mapModified == old(mapModified) && layerChanged == old(layerChanged)
      {
        created' := ScanCollisionTile(tls, nb, rows, n, i, x, y, created');
      }
    }

    /** Layer i in the scan of `updateCollisions`: its modifications are
      * subscribed to unless they already are, then its columns are
      * scanned from the left. */
    method ScanCollisionLayer(tls: seq<Grid>, nb: nat, rows: seq<CollisionDefinitions.LayerInfos>, ghost n: nat,
                              i: nat, created: seq<bv32>) returns (created': seq<bv32>)
      requires LayersOk(tls) && TableOk(nb, rows) && i < |tls|
      requires Built(tls, nb, rows, n, layers, nextEntity, created) && created == FirstSeen(IdsBefore(tls, i, 0, 0))
      modifies this
      ensures Built(tls, nb, rows, n, layers, nextEntity, created') && created' == FirstSeen(IdsBefore(tls, i + 1, 0, 0))
      ensures killed == old(killed) && layerChanged == old(layerChanged)
      ensures mapModified == if old(mapModified) <= i then old(mapModified) + 1 else old(mapModified)
    {
      if mapModified <= i {
        mapModified := mapModified + 1;
      }
      created' := created;
      for x := 0 to ChunkSize
        invariant Built(tls, nb, rows, n, layers, nextEntity, created') && created' == FirstSeen(IdsBefore(tls, i, x, 0))
        invariant killed == old(killed) && layerChanged == old(layerChanged)
        invariant mapModified == if old(mapModified) <= i then old(mapModified) + 1 else old(mapModified)
      {
        created' := ScanCollisionColumn(tls, nb, rows, n, i, x, created');
      }
    }

    /** The removal loop of `updateCollisions`: every entry whose id the
      * scan did not create is killed and swap-removed, and the position is
      * examined again (the source steps its unsigned index back, wrapping
      * at 0, before the loop steps it forward). */
    method DropStale(created: seq<bv32>)
      requires Valid()
      modifies this
      ensures Valid() && AllCreated(layers, created)
      ensures forall e :: e in layers <==> e in old(layers) && e.id in created
      ensures |old(killed)| <= |killed| && killed[..|old(killed)|] == old(killed)
      ensures |killed| - |old(killed)| == |old(layers)| - |layers|
      ensures AllCreated(old(layers), created) ==> layers == old(layers) && killed == old(killed)
      ensures layers == Sweep(old(layers), created, 0).0 && killed == old(killed) + Sweep(old(layers), created, 0).1
      ensures mapModified == old(mapModified) && layerChanged == old(layerChanged) && nextEntity == old(nextEntity)
    {
      var ls, ks := layers, killed;
      var i := 0;
      while i < |ls|
        invariant Sweeping(layers, killed, created, ls, ks, i)
        invariant unchanged(this)
        decreases |ls| - i
      {
        if ls[i].id !in created {
          SweepingRemove(layers, killed, created, ls, ks, i);
          ks := ks + [ls[i].entity];
          ls := DropEntry(ls, i);
        } else {
          SweepingKeep(layers, killed, created, ls, ks, i);
          i := i + 1;
        }
      }
      SweepingDone(layers, killed, created, ls, ks, i);
      layers, killed := ls, ks;
    }

    /** `updateCollisions`: every entry is killed and the list emptied;
      * the scan then creates, in the order it meets them, one entry with a
      * new entity for each collision layer of a colliding tile, and
      * subscribes to the modifications of the layers not yet subscribed
      * to; the removal loop then finds nothing to remove. */
    method UpdateCollisions(tls: seq<Grid>, nb: nat, rows: seq<CollisionDefinitions.LayerInfos>)
      requires LayersOk(tls) && TableOk(nb, rows) && Valid()
      modifies this
      ensures Valid() && LayerIds(layers) == FirstSeen(IdsBefore(tls, |tls|, 0, 0))
      ensures AllCovered(tls, layers) && AllFiltered(nb, rows, layers)
      ensures NumberedFrom(layers, old(nextEntity)) && nextEntity == old(nextEntity) + |layers|
      ensures killed == old(killed) + LayerEntities(old(layers))
      ensures mapModified == (if old(mapModified) < |tls| then |tls| else old(mapModified))
      ensures layerChanged == old(layerChanged)
    {
      ClearCollisions();
      ghost var n, k0 := nextEntity, killed;
      var created: seq<bv32> := [];
      for i := 0 to |tls|
        invariant Built(tls, nb, rows, n, layers, nextEntity, created) && created == FirstSeen(IdsBefore(tls, i, 0, 0))
        invariant killed == k0 && layerChanged == old(layerChanged)
        invariant mapModified == if old(mapModified) < i then i else old(mapModified)
      {
        created := ScanCollisionLayer(tls, nb, rows, n, i, created);
      }
      assert AllCreated(layers, created);
      DropStale(created);
    }

    /** `onEnable`: connects the layer-changed callback and updates. */
    method OnEnable(tls: seq<Grid>, nb: nat, rows: seq<CollisionDefinitions.LayerInfos>)
      requires LayersOk(tls) && TableOk(nb, rows) && Valid()
      modifies this
      ensures Valid() && layerChanged && LayerIds(layers) == FirstSeen(IdsBefore(tls, |tls|, 0, 0))
      ensures AllCovered(tls, layers) && AllFiltered(nb, rows, layers)
      ensures NumberedFrom(layers, old(nextEntity)) && nextEntity == old(nextEntity) + |layers|
      ensures killed == old(killed) + LayerEntities(old(layers))
      ensures mapModified == (if old(mapModified) < |tls| then |tls| else old(mapModified))
    {
      layerChanged := true;
      UpdateCollisions(tls, nb, rows);
    }

    /** `onDisable`: the entries are cleared and every subscription is
      * dropped. */
    method OnDisable()
      requires Valid()
      modifies this
      ensures Valid() && layers == [] && mapModified == 0 && !layerChanged
      ensures killed == old(killed) + LayerEntities(old(layers)) && nextEntity == old(nextEntity)
    {
      ClearCollisions();
      mapModified := 0;
      layerChanged := false;
    }
  }
}
