// The collision component of a tilemap: for each collision layer, one
// entity whose compound collider merges the full tiles of that layer into
// rectangles and adds one shape per partly colliding tile.

module TilemapColliderComponents {
  import opened Wrappers
  import opened Tiles
  import opened Sequences

  /** The tilemap's colliders as `updateLayer` reads them, row by row:
    * `rows[y][x]` is the collider of the tile at (x, y). */
  datatype Grid = Grid(width: nat, height: nat, rows: seq<seq<TileCollider>>)

  predicate GridOk(g: Grid)
  {
    |g.rows| == g.height && forall y :: 0 <= y < g.height ==> |g.rows[y]| == g.width
  }

  function At(g: Grid, x: nat, y: nat): TileCollider
    requires GridOk(g) && x < g.width && y < g.height
  {
    g.rows[y][x]
  }

  /** A tile that a box on layer `index` may take: full, and on that layer. */
  predicate FullOn(g: Grid, index: bv32, x: nat, y: nat)
    requires GridOk(g) && x < g.width && y < g.height
  {
    HaveFullCollision(At(g, x, y)) && At(g, x, y).collisionLayer == index
  }

  /** A tile that gets a collider of its own: colliding but not full. */
  predicate PartOnly(c: TileCollider)
  {
    HaveCollision(c) && !HaveFullCollision(c)
  }

  /** A shape of the compound collider, in tile units: a merged box of
    * full tiles, or the collider of one partly colliding tile. */
  datatype Shape = BoxShape(x: nat, y: nat, w: nat, h: nat) | CellShape(x: nat, y: nat, collider: TileCollider)

  predicate InBox(s: Shape, a: nat, b: nat)
  {
    s.BoxShape? && s.x <= a < s.x + s.w && s.y <= b < s.y + s.h
  }

  /** How many boxes of the list cover (a, b). */
  function Count(cs: seq<Shape>, a: nat, b: nat): nat
  {
    if |cs| == 0 then 0
    else Count(cs[..|cs| - 1], a, b) + if InBox(cs[|cs| - 1], a, b) then 1 else 0
  }

  /** The per-tile shapes of the list, in order. */
  function CellsOf(cs: seq<Shape>): seq<Shape>
  {
    if |cs| == 0 then []
    else CellsOf(cs[..|cs| - 1]) + if cs[|cs| - 1].CellShape? then [cs[|cs| - 1]] else []
  }

  /** The partly colliding tiles of row y left of column x, as shapes. */
  function RowCells(g: Grid, y: nat, x: nat): seq<Shape>
    requires GridOk(g) && y < g.height && x <= g.width
  {
    if x == 0 then []
    else RowCells(g, y, x - 1) + if PartOnly(At(g, x - 1, y)) then [CellShape(x - 1, y, At(g, x - 1, y))] else []
  }

  /** The partly colliding tiles of the rows above row y, row by row. */
  function RowsCells(g: Grid, y: nat): seq<Shape>
    requires GridOk(g) && y <= g.height
  {
    if y == 0 then [] else RowsCells(g, y - 1) + RowCells(g, y - 1, g.width)
  }

  predicate BoxInside(s: Shape, g: Grid)
  {
    s.BoxShape? ==> 1 <= s.w && 1 <= s.h && s.x + s.w <= g.width && s.y + s.h <= g.height
  }

  /** What `updateLayer(index)` builds: boxes inside the map that cover
    * every full tile of layer `index` exactly once and no other tile, and
    * one shape per partly colliding tile of any layer, in scan order. */
  predicate CoverOk(g: Grid, index: bv32, cs: seq<Shape>)
    requires GridOk(g)
  {
    && (forall k :: 0 <= k < |cs| ==> BoxInside(cs[k], g))
    && (forall a: nat, b: nat :: a < g.width && b < g.height ==>
          Count(cs, a, b) == if FullOn(g, index, a, b) then 1 else 0)
    && CellsOf(cs) == RowsCells(g, g.height)
  }

  // ---------------------------------------------------------------------
  // Boxes

  lemma {:induction false} CountAtLeast(cs: seq<Shape>, k: nat, a: nat, b: nat)
    requires k < |cs| && InBox(cs[k], a, b)
    ensures Count(cs, a, b) >= 1
  {
    var n := |cs| - 1;
    if k < n {
      assert cs[..n][k] == cs[k];
      CountAtLeast(cs[..n], k, a, b);
    }
  }

  lemma {:induction false} CountAtLeastTwo(cs: seq<Shape>, i: nat, j: nat, a: nat, b: nat)
    requires i < j < |cs| && InBox(cs[i], a, b) && InBox(cs[j], a, b)
    ensures Count(cs, a, b) >= 2
  {
    var n := |cs| - 1;
    assert cs[..n][i] == cs[i];
    if j < n {
      assert cs[..n][j] == cs[j];
      CountAtLeastTwo(cs[..n], i, j, a, b);
    } else {
      CountAtLeast(cs[..n], i, a, b);
    }
  }

  /** Boxes do not overlap, and every tile of a box is a full tile of the
    * layer. */
  lemma CoverBoxes(g: Grid, index: bv32, cs: seq<Shape>, i: nat, j: nat, a: nat, b: nat)
    requires GridOk(g) && CoverOk(g, index, cs)
    requires i < j < |cs| && InBox(cs[i], a, b)
    ensures !InBox(cs[j], a, b)
    ensures a < g.width && b < g.height && FullOn(g, index, a, b)
  {
    assert BoxInside(cs[i], g);
    CountAtLeast(cs, i, a, b);
    if InBox(cs[j], a, b) {
      CountAtLeastTwo(cs, i, j, a, b);
    }
  }

  // ---------------------------------------------------------------------
  // The scan, with the coverage matrix `mat` (`mat[x, y]` is cell (x, y))

  predicate MatOk(g: Grid, mat: array2<bool>)
  {
    GridOk(g) && mat.Length0 == g.width && mat.Length1 == g.height
  }

  /** A tile the box being built may take: not yet covered, full, and on
    * the layer. */
  predicate Eligible(g: Grid, index: bv32, mat: array2<bool>, a: nat, b: nat)
    reads mat
    requires MatOk(g, mat) && a < g.width && b < g.height
  {
    !mat[a, b] && FullOn(g, index, a, b)
  }

  /** Every tile of row b from column x on for `width` tiles is eligible. */
  predicate RowOk(g: Grid, index: bv32, mat: array2<bool>, x: nat, width: nat, b: nat)
    reads mat
    requires MatOk(g, mat) && x + width <= g.width && b < g.height
  {
    forall a :: x <= a < x + width ==> Eligible(g, index, mat, a, b)
  }

  /** The coverage matrix as a value: `m[a][b]` is cell (a, b). */
  ghost function Covered(mat: array2<bool>): (m: seq<seq<bool>>)
    reads mat
    ensures |m| == mat.Length0 && forall a :: 0 <= a < mat.Length0 ==> |m[a]| == mat.Length1
  {
    seq(mat.Length0, a requires 0 <= a < mat.Length0 reads mat =>
      seq(mat.Length1, b requires 0 <= b < mat.Length1 reads mat => mat[a, b]))
  }

  predicate CoveredOk(g: Grid, m: seq<seq<bool>>)
  {
    |m| == g.width && forall a :: 0 <= a < g.width ==> |m[a]| == g.height
  }

  /** The coverage after marking a box. */
  function Mark(m: seq<seq<bool>>, box: Shape): (m': seq<seq<bool>>)
    ensures |m'| == |m| && forall a :: 0 <= a < |m| ==> |m'[a]| == |m[a]|
  {
    seq(|m|, a requires 0 <= a < |m| => seq(|m[a]|, b requires 0 <= b < |m[a]| => m[a][b] || InBox(box, a, b)))
  }

  /** The scan has visited every tile before (x, y) in row order: the
    * boxes so far cover exactly the marked tiles, once each, only full
    * tiles of the layer are marked, every such tile already visited is
    * marked, and the per-tile shapes are those of the visited tiles. */
  predicate ScanState(g: Grid, index: bv32, m: seq<seq<bool>>, cs: seq<Shape>, x: nat, y: nat)
    requires GridOk(g) && CoveredOk(g, m) && x <= g.width && y <= g.height
  {
    && (forall k :: 0 <= k < |cs| ==> BoxInside(cs[k], g))
    && (forall a: nat, b: nat :: a < g.width && b < g.height ==> Count(cs, a, b) == if m[a][b] then 1 else 0)
    && (forall a: nat, b: nat :: a < g.width && b < g.height && m[a][b] ==> FullOn(g, index, a, b))
    && (forall a: nat, b: nat :: a < g.width && b < g.height && (b < y || (b == y && a < x)) && FullOn(g, index, a, b) ==> m[a][b])
    && CellsOf(cs) == RowsCells(g, y) + if y < g.height then RowCells(g, y, x) else []
  }

  /** A tile the scan skips leaves the state as it is. */
  lemma SkipStep(g: Grid, index: bv32, m: seq<seq<bool>>, cs: seq<Shape>, x: nat, y: nat)
    requires GridOk(g) && CoveredOk(g, m) && x < g.width && y < g.height && ScanState(g, index, m, cs, x, y)
    requires m[x][y] || !HaveCollision(At(g, x, y)) || (HaveFullCollision(At(g, x, y)) && At(g, x, y).collisionLayer != index)
    ensures ScanState(g, index, m, cs, x + 1, y)
  {
    assert RowCells(g, y, x + 1) == RowCells(g, y, x);
  }

  /** A partly colliding tile adds its own shape. */
  lemma CellStep(g: Grid, index: bv32, m: seq<seq<bool>>, cs: seq<Shape>, x: nat, y: nat)
    requires GridOk(g) && CoveredOk(g, m) && x < g.width && y < g.height && ScanState(g, index, m, cs, x, y)
    requires PartOnly(At(g, x, y))
    ensures ScanState(g, index, m, cs + [CellShape(x, y, At(g, x, y))], x + 1, y)
  {
    var cs' := cs + [CellShape(x, y, At(g, x, y))];
    assert cs'[..|cs'| - 1] == cs;
    forall a: nat, b: nat | a < g.width && b < g.height
      ensures Count(cs', a, b) == Count(cs, a, b)
    {
    }
  }

  /** A box whose tiles are all unmarked full tiles of the layer, starting
    * at the tile being visited, is added and marked. */
  lemma BoxStep(g: Grid, index: bv32, m: seq<seq<bool>>, cs: seq<Shape>, x: nat, y: nat, box: Shape)
    requires GridOk(g) && CoveredOk(g, m) && x < g.width && y < g.height && ScanState(g, index, m, cs, x, y)
    requires box.BoxShape? && box.x == x && box.y == y && BoxInside(box, g)
    requires forall a: nat, b: nat :: a < g.width && b < g.height && InBox(box, a, b) ==> !m[a][b] && FullOn(g, index, a, b)
    ensures CoveredOk(g, Mark(m, box)) && ScanState(g, index, Mark(m, box), cs + [box], x + 1, y)
  {
    var cs', m' := cs + [box], Mark(m, box);
    assert cs'[..|cs'| - 1] == cs;
    assert InBox(box, x, y);
    assert RowCells(g, y, x + 1) == RowCells(g, y, x);
  }

  /** The start of the scan: nothing marked, no shape. */
  lemma ScanStart(g: Grid, index: bv32, m: seq<seq<bool>>)
    requires GridOk(g) && CoveredOk(g, m) && forall a, b :: 0 <= a < g.width && 0 <= b < g.height ==> !m[a][b]
    ensures ScanState(g, index, m, [], 0, 0)
  {
  }

  /** The end of a row. */
  lemma RowStep(g: Grid, index: bv32, m: seq<seq<bool>>, cs: seq<Shape>, y: nat)
    requires GridOk(g) && CoveredOk(g, m) && y < g.height && ScanState(g, index, m, cs, g.width, y)
    ensures ScanState(g, index, m, cs, 0, y + 1)
  {
  }

  /** The end of the scan. */
  lemma ScanDone(g: Grid, index: bv32, m: seq<seq<bool>>, cs: seq<Shape>)
    requires GridOk(g) && CoveredOk(g, m) && ScanState(g, index, m, cs, 0, g.height)
    ensures CoverOk(g, index, cs)
  {
  }

  /** The width loop: from (x, y), how many eligible tiles follow in the row. */
  method BoxWidth(g: Grid, index: bv32, mat: array2<bool>, x: nat, y: nat) returns (width: nat)
    requires MatOk(g, mat) && x < g.width && y < g.height && Eligible(g, index, mat, x, y)
    ensures 1 <= width && x + width <= g.width
    ensures forall a :: x <= a < x + width ==> Eligible(g, index, mat, a, y)
    ensures x + width == g.width || !Eligible(g, index, mat, x + width, y)
  {
    width := 1;
    var i := 1;
    while i + x < g.width
      invariant 1 <= i == width && x + i <= g.width
      invariant forall a :: x <= a < x + i ==> Eligible(g, index, mat, a, y)
    {
      if mat[x + i, y] {
        break;
      }
      var tile2 := At(g, x + i, y);
      if !HaveFullCollision(tile2) {
        break;
      }
      if tile2.collisionLayer != index {
        break;
      }
      width := width + 1;
      i := i + 1;
    }
  }

  /** The inner loop of the height search: is every tile of row y, from
    * column x on for `width` tiles, eligible? */
  method RowEligible(g: Grid, index: bv32, mat: array2<bool>, x: nat, y: nat, width: nat) returns (allValid: bool)
    requires MatOk(g, mat) && x + width <= g.width && y < g.height
    ensures allValid <==> RowOk(g, index, mat, x, width, y)
  {
    allValid := true;
    for i := 0 to width
      invariant allValid && forall a :: x <= a < x + i ==> Eligible(g, index, mat, a, y)
    {
      var tile3 := At(g, x + i, y);
      if mat[x + i, y] || !HaveFullCollision(tile3) || tile3.collisionLayer != index {
        assert !Eligible(g, index, mat, x + i, y);
        allValid := false;
        break;
      }
    }
  }

  /** The height loop: how many rows from y on are eligible across the
    * whole width. */
  method BoxHeight(g: Grid, index: bv32, mat: array2<bool>, x: nat, y: nat, width: nat) returns (height: nat)
    requires MatOk(g, mat) && x + width <= g.width && y < g.height
    requires forall a :: x <= a < x + width ==> Eligible(g, index, mat, a, y)
    ensures 1 <= height && y + height <= g.height
    ensures forall a, b :: x <= a < x + width && y <= b < y + height ==> Eligible(g, index, mat, a, b)
    ensures y + height == g.height || !RowOk(g, index, mat, x, width, y + height)
  {
    height := 1;
    var j := 1;
    while j + y < g.height
      invariant 1 <= j == height && y + j <= g.height
      invariant forall a, b :: x <= a < x + width && y <= b < y + j ==> Eligible(g, index, mat, a, b)
    {
      var allValid := RowEligible(g, index, mat, x, y + j, width);
      if allValid {
        height := height + 1;
      } else {
        break;
      }
      j := j + 1;
    }
  }

  /** Marks column a of the box, rows y to y + height - 1. */
  method MarkColumn(mat: array2<bool>, a: nat, y: nat, height: nat)
    requires a < mat.Length0 && y + height <= mat.Length1
    modifies mat
    ensures forall c: nat, d: nat :: c < mat.Length0 && d < mat.Length1 ==>
      mat[c, d] == (old(mat[c, d]) || (c == a && y <= d < y + height))
  {
    for j := 0 to height
      invariant forall c: nat, d: nat :: c < mat.Length0 && d < mat.Length1 ==>
        mat[c, d] == (old(mat[c, d]) || (c == a && y <= d < y + j))
    {
      mat[a, y + j] := true;
    }
  }

  /** Marks every tile of the box as covered. */
  method MarkBox(mat: array2<bool>, x: nat, y: nat, width: nat, height: nat)
    requires x + width <= mat.Length0 && y + height <= mat.Length1
    modifies mat
    ensures forall c: nat, d: nat :: c < mat.Length0 && d < mat.Length1 ==>
      mat[c, d] == (old(mat[c, d]) || InBox(BoxShape(x, y, width, height), c, d))
    ensures Covered(mat) == Mark(old(Covered(mat)), BoxShape(x, y, width, height))
  {
    for i := 0 to width
      invariant forall c: nat, d: nat :: c < mat.Length0 && d < mat.Length1 ==>
        mat[c, d] == (old(mat[c, d]) || InBox(BoxShape(x, y, i, height), c, d))
    {
      MarkColumn(mat, x + i, y, height);
    }
    forall a | 0 <= a < mat.Length0
      ensures Covered(mat)[a] == Mark(old(Covered(mat)), BoxShape(x, y, width, height))[a]
    {
    }
  }

  /** A box starting at (x, y): its width, then its height, then its tiles
    * marked as covered. */
  method AddBox(g: Grid, index: bv32, mat: array2<bool>, cs: seq<Shape>, x: nat, y: nat) returns (cs': seq<Shape>)
    requires MatOk(g, mat) && x < g.width && y < g.height && ScanState(g, index, Covered(mat), cs, x, y)
    requires Eligible(g, index, mat, x, y)
    modifies mat
    ensures ScanState(g, index, Covered(mat), cs', x + 1, y)
  {
    var width := BoxWidth(g, index, mat, x, y);
    var height := BoxHeight(g, index, mat, x, y, width);
    var box := BoxShape(x, y, width, height);
    forall a: nat, b: nat | a < g.width && b < g.height && InBox(box, a, b)
      ensures !Covered(mat)[a][b] && FullOn(g, index, a, b)
    {
      assert Eligible(g, index, mat, a, b);
    }
    BoxStep(g, index, Covered(mat), cs, x, y, box);
    MarkBox(mat, x, y, width, height);
    cs' := cs + [box];
  }

  /** One tile of the scan: skipped when covered or not colliding, its own
    * shape when partly colliding, the start of a box when full and on the
    * layer. */
  method ScanCell(g: Grid, index: bv32, mat: array2<bool>, cs: seq<Shape>, x: nat, y: nat) returns (cs': seq<Shape>)
    requires MatOk(g, mat) && x < g.width && y < g.height && ScanState(g, index, Covered(mat), cs, x, y)
    modifies mat
    ensures ScanState(g, index, Covered(mat), cs', x + 1, y)
  {
    if mat[x, y] {
      SkipStep(g, index, Covered(mat), cs, x, y);
      return cs;
    }
    var tile := At(g, x, y);
    if !HaveCollision(tile) {
      SkipStep(g, index, Covered(mat), cs, x, y);
      return cs;
    }
    if !HaveFullCollision(tile) {
      CellStep(g, index, Covered(mat), cs, x, y);
      cs' := cs + [CellShape(x, y, tile)];
    } else if tile.collisionLayer == index {
      cs' := AddBox(g, index, mat, cs, x, y);
    } else {
      SkipStep(g, index, Covered(mat), cs, x, y);
      cs' := cs;
    }
  }

  /** One row of the scan, from the left. */
  method ScanRow(g: Grid, index: bv32, mat: array2<bool>, cs: seq<Shape>, y: nat) returns (cs': seq<Shape>)
    requires MatOk(g, mat) && y < g.height && ScanState(g, index, Covered(mat), cs, 0, y)
    modifies mat
    ensures ScanState(g, index, Covered(mat), cs', 0, y + 1)
  {
    cs' := cs;
    for x := 0 to g.width
      invariant ScanState(g, index, Covered(mat), cs', x, y)
    {
      cs' := ScanCell(g, index, mat, cs', x, y);
    }
    RowStep(g, index, Covered(mat), cs', y);
  }

  /** `updateLayer`'s scan: rows from the top, each from the left. */
  method BuildColliders(g: Grid, index: bv32) returns (colliders: seq<Shape>)
    requires GridOk(g)
    ensures CoverOk(g, index, colliders)
  {
    var mat := new bool[g.width, g.height]((_, _) => false);
    colliders := [];
    ScanStart(g, index, Covered(mat));
    for y := 0 to g.height
      invariant ScanState(g, index, Covered(mat), colliders, 0, y)
    {
      colliders := ScanRow(g, index, mat, colliders, y);
    }
    ScanDone(g, index, Covered(mat), colliders);
  }

  // ---------------------------------------------------------------------
  // The component: one entry per collision layer

  /** `ColliderLayer`: a layer id and its entity, with the shapes of the
    * entity's compound collider. */
  datatype ColliderLayer = ColliderLayer(id: bv32, entity: nat, colliders: seq<Shape>)

  function Ids(ls: seq<ColliderLayer>): (r: seq<bv32>)
    ensures |r| == |ls| && forall k :: 0 <= k < |ls| ==> r[k] == ls[k].id
  {
    seq(|ls|, k requires 0 <= k < |ls| => ls[k].id)
  }

  function Entities(ls: seq<ColliderLayer>): (r: seq<nat>)
    ensures |r| == |ls| && forall k :: 0 <= k < |ls| ==> r[k] == ls[k].entity
  {
    seq(|ls|, k requires 0 <= k < |ls| => ls[k].entity)
  }

  lemma IdsAppend(ls: seq<ColliderLayer>, e: ColliderLayer)
    ensures Ids(ls + [e]) == Ids(ls) + [e.id]
  {
    assert forall k :: 0 <= k < |ls| ==> (ls + [e])[k] == ls[k];
  }

  lemma LastSplit(ls: seq<ColliderLayer>)
    requires |ls| > 0
    ensures ls == ls[..|ls| - 1] + [ls[|ls| - 1]]
  {
  }

  /** `std::find_if` on the id: the first entry with that id, or the count. */
  function FindLayer(ls: seq<ColliderLayer>, id: bv32): (k: nat)
    ensures k <= |ls| && (k < |ls| ==> ls[k].id == id)
    ensures forall m :: 0 <= m < k ==> ls[m].id != id
  {
    if |ls| == 0 then 0
    else if ls[0].id == id then 0
    else 1 + FindLayer(ls[1..], id)
  }

  /** Overwrites position k with the last element and drops the last. */
  function SwapRemove<T>(s: seq<T>, k: nat): (r: seq<T>)
    requires k < |s|
    ensures |r| == |s| - 1
  {
    s[k := s[|s| - 1]][..|s| - 1]
  }

  /** The entries with the given id's entry swap-removed, if there is one. */
  function Without(ls: seq<ColliderLayer>, id: bv32): seq<ColliderLayer>
  {
    var k := FindLayer(ls, id);
    if k < |ls| then SwapRemove(ls, k) else ls
  }

  /** The entity of the entry `Without` removes, if there is one. */
  function Replaced(ls: seq<ColliderLayer>, id: bv32): (r: seq<nat>)
    ensures |r| <= 1 && (|r| == 1 <==> id in Ids(ls))
  {
    var k := FindLayer(ls, id);
    if k < |ls| then [ls[k].entity] else []
  }

  /** In a list with one entry per id, removing an id's entry leaves the
    * other ids, each once, and not that id. */
  lemma WithoutIds(ls: seq<ColliderLayer>, id: bv32)
    requires Distinct(Ids(ls))
    ensures Distinct(Ids(Without(ls, id)))
    ensures forall v :: v in Ids(Without(ls, id)) <==> v in Ids(ls) && v != id
  {
    var k := FindLayer(ls, id);
    if k < |ls| {
      var r := SwapRemove(ls, k);
      var n := |ls| - 1;
      assert forall m :: 0 <= m < n ==> r[m] == if m == k then ls[n] else ls[m];
      forall v | v in Ids(ls) && v != id
        ensures v in Ids(r)
      {
        var m :| 0 <= m < |ls| && Ids(ls)[m] == v;
        if m == n {
          assert Ids(r)[k] == v;
        } else {
          assert Ids(r)[m] == v;
        }
      }
    }
  }

  /** The ids of the colliding tiles of column x above row y, top first. */
  function ColumnIds(g: Grid, x: nat, y: nat): seq<bv32>
    requires GridOk(g) && x < g.width && y <= g.height
  {
    if y == 0 then []
    else ColumnIds(g, x, y - 1) + if HaveCollision(At(g, x, y - 1)) then [At(g, x, y - 1).collisionLayer] else []
  }

  /** The ids of the colliding tiles of the columns left of x, column by
    * column: the order in which `updateLayers` meets them. */
  function ColumnsIds(g: Grid, x: nat): seq<bv32>
    requires GridOk(g) && x <= g.width
  {
    if x == 0 then [] else ColumnsIds(g, x - 1) + ColumnIds(g, x - 1, g.height)
  }

  /** Each value of the list once, at its first occurrence. */
  function FirstSeen(s: seq<bv32>): seq<bv32>
  {
    if |s| == 0 then []
    else var p := s[..|s| - 1]; FirstSeen(p) + if s[|s| - 1] in p then [] else [s[|s| - 1]]
  }

  /** `FirstSeen` keeps every value and repeats none. */
  lemma {:induction false} FirstSeenContents(s: seq<bv32>)
    ensures Distinct(FirstSeen(s))
    ensures forall v :: v in FirstSeen(s) <==> v in s
  {
    if |s| > 0 {
      var p := s[..|s| - 1];
      FirstSeenContents(p);
      assert s == p + [s[|s| - 1]];
      var last := s[|s| - 1];
      assert last in FirstSeen(p) <==> last in p;
      if last !in p {
        DistinctConcat(FirstSeen(p), [last]);
      }
    }
  }

  /** Appending a value to the list appends it to `FirstSeen` exactly
    * when it is new. */
  lemma FirstSeenPush(p: seq<bv32>, v: bv32)
    ensures FirstSeen(p + [v]) == FirstSeen(p) + if v in FirstSeen(p) then [] else [v]
  {
    FirstSeenContents(p);
    assert (p + [v])[..|p|] == p;
  }

  lemma FirstSeenAppend(s: seq<bv32>, t: seq<bv32>, v: bv32)
    ensures FirstSeen((s + t) + [v]) == FirstSeen(s + t) + if v in s + t then [] else [v]
  {
    assert ((s + t) + [v])[..|s + t|] == s + t;
  }

  /** Tile (x, y) collides and lies on collision layer v. */
  predicate Layered(g: Grid, x: nat, y: nat, v: bv32)
    requires GridOk(g) && x < g.width && y < g.height
  {
    HaveCollision(At(g, x, y)) && At(g, x, y).collisionLayer == v
  }

  lemma {:induction false} ColumnIdsHas(g: Grid, x: nat, y: nat, v: bv32)
    requires GridOk(g) && x < g.width && y <= g.height
    ensures v in ColumnIds(g, x, y) <==> exists r :: 0 <= r < y && Layered(g, x, r, v)
  {
    if y > 0 {
      ColumnIdsHas(g, x, y - 1, v);
      if Layered(g, x, y - 1, v) {
        assert v in ColumnIds(g, x, y);
      }
    }
  }

  lemma {:induction false} ColumnsIdsHas(g: Grid, x: nat, v: bv32)
    requires GridOk(g) && x <= g.width
    ensures v in ColumnsIds(g, x) <==>
      exists c, r :: 0 <= c < x && 0 <= r < g.height && Layered(g, c, r, v)
  {
    if x > 0 {
      ColumnsIdsHas(g, x - 1, v);
      ColumnIdsHas(g, x - 1, g.height, v);
    }
  }

  /** The list `updateLayers` builds holds each collision layer of a
    * colliding tile of the map once, and no other layer. */
  lemma RebuiltIds(g: Grid)
    requires GridOk(g)
    ensures Distinct(FirstSeen(ColumnsIds(g, g.width)))
    ensures forall v :: v in FirstSeen(ColumnsIds(g, g.width)) <==>
      exists x, y :: 0 <= x < g.width && 0 <= y < g.height && Layered(g, x, y, v)
  {
    FirstSeenContents(ColumnsIds(g, g.width));
    forall v
      ensures v in ColumnsIds(g, g.width) <==>
        exists x, y :: 0 <= x < g.width && 0 <= y < g.height && Layered(g, x, y, v)
    {
      ColumnsIdsHas(g, g.width, v);
    }
  }

  /** Every entry's shapes were built for the map. */
  ghost predicate AllCover(g: Grid, ls: seq<ColliderLayer>)
    requires GridOk(g)
  {
    forall k :: 0 <= k < |ls| ==> CoverOk(g, ls[k].id, ls[k].colliders)
  }

  lemma AllCoverAppend(g: Grid, ls: seq<ColliderLayer>, e: ColliderLayer)
    requires GridOk(g) && AllCover(g, ls) && CoverOk(g, e.id, e.colliders)
    ensures AllCover(g, ls + [e])
  {
    assert forall k :: 0 <= k < |ls| ==> (ls + [e])[k] == ls[k];
  }

  /** A list that gained one covering entry at its end. */
  lemma AppendedLayer(g: Grid, before: seq<ColliderLayer>, after: seq<ColliderLayer>, id: bv32)
    requires GridOk(g) && AllCover(g, before) && |after| >= 1 && after[..|after| - 1] == before
    requires after[|after| - 1].id == id && CoverOk(g, id, after[|after| - 1].colliders)
    ensures Ids(after) == Ids(before) + [id] && AllCover(g, after)
  {
    var e := after[|after| - 1];
    LastSplit(after);
    AllCoverAppend(g, before, e);
    IdsAppend(before, e);
  }

  /** The ids met by the column scan of `updateLayers` before tile (x, y):
    * the columns left of x, then column x above row y. */
  function Seen(g: Grid, x: nat, y: nat): seq<bv32>
    requires GridOk(g) && x < g.width && y <= g.height
  {
    ColumnsIds(g, x) + ColumnIds(g, x, y)
  }

  /** One tile of the column scan: a colliding tile whose id has no entry
    * yet gets one appended; any other tile keeps the entries. */
  lemma SeenStep(g: Grid, ids: seq<bv32>, x: nat, y: nat)
    requires GridOk(g) && x < g.width && y < g.height && ids == FirstSeen(Seen(g, x, y))
    ensures var t := At(g, x, y);
      FirstSeen(Seen(g, x, y + 1)) ==
        if HaveCollision(t) && t.collisionLayer !in ids then ids + [t.collisionLayer] else ids
  {
    var t := At(g, x, y);
    FirstSeenAppend(ColumnsIds(g, x), ColumnIds(g, x, y), t.collisionLayer);
    FirstSeenContents(Seen(g, x, y));
    if HaveCollision(t) {
      assert Seen(g, x, y + 1) == Seen(g, x, y) + [t.collisionLayer];
    } else {
      assert Seen(g, x, y + 1) == Seen(g, x, y);
    }
  }

  /** `TilemapColliderComponent`. The attached map is held by the contents
    * it has when the component reads it; entities are tokens numbered from
    * `nextEntity`, and `killed` lists the entities killed so far. */
  class TilemapColliderComponent {
    var tilemap: Option<Grid>
    /** Whether the modification callback is connected. */
    var subscribed: bool
    var layers: seq<ColliderLayer>
    var nextEntity: nat
    var killed: seq<nat>

    ghost predicate Valid()
      reads this
    {
      Distinct(Ids(layers)) && (tilemap.Some? ==> GridOk(tilemap.value))
    }

    constructor ()
      ensures Valid() && tilemap == None && !subscribed && layers == [] && killed == []
    {
      tilemap := None;
      subscribed := false;
      layers := [];
      nextEntity := 0;
      killed := [];
    }

    /** `updateLayer(index)`: the layer's entry, if any, is killed and
      * swap-removed, and a new entry with a fresh entity and the merged
      * boxes of the current map is appended. */
    method UpdateLayer(index: bv32)
      requires Valid() && tilemap.Some?
      modifies this
      ensures Valid() && tilemap == old(tilemap) && subscribed == old(subscribed)
      ensures |layers| >= 1 && layers[..|layers| - 1] == Without(old(layers), index)
      ensures var e := layers[|layers| - 1];
        e.id == index && e.entity == old(nextEntity) && CoverOk(tilemap.value, index, e.colliders)
      ensures nextEntity == old(nextEntity) + 1
      ensures killed == old(killed) + Replaced(old(layers), index)
      ensures forall v :: v in Ids(layers) <==> v in Ids(old(layers)) || v == index
    {
      DropLayer(index);
      var entity := nextEntity;
      nextEntity := nextEntity + 1;
      var colliders := BuildColliders(tilemap.value, index);
      ghost var rest := layers;
      var e := ColliderLayer(index, entity, colliders);
      layers := layers + [e];
      LastSplit(layers);
      IdsAppend(rest, e);
      DistinctConcat(Ids(rest), [index]);
    }

    /** The first half of `updateLayer`: the entry of the layer, if any, has
      * its entity killed and is replaced by the last entry. */
    method DropLayer(index: bv32)
      requires Valid()
      modifies this
      ensures Valid() && tilemap == old(tilemap) && subscribed == old(subscribed) && nextEntity == old(nextEntity)
      ensures layers == Without(old(layers), index) && killed == old(killed) + Replaced(old(layers), index)
      ensures forall v :: v in Ids(layers) <==> v in Ids(old(layers)) && v != index
    {
      var k := FindLayer(layers, index);
      if k < |layers| {
        killed := killed + [layers[k].entity];
        layers := SwapRemove(layers, k);
      }
      WithoutIds(old(layers), index);
    }

    /** Kills every entry's entity and clears the list. */
    method ClearLayers()
      modifies this
      ensures layers == [] && killed == old(killed) + Entities(old(layers))
      ensures tilemap == old(tilemap) && subscribed == old(subscribed) && nextEntity == old(nextEntity)
    {
      for k := 0 to |layers|
        invariant layers == old(layers) && tilemap == old(tilemap) && subscribed == old(subscribed) && nextEntity == old(nextEntity)
        invariant killed == old(killed) + Entities(layers)[..k]
      {
        killed := killed + [layers[k].entity];
      }
      assert Entities(layers)[..|layers|] == Entities(layers);
      layers := [];
    }

    /** One tile of the scan of `updateLayers`: a colliding tile whose
      * collision id has no entry yet gets its entry built. */
    method RebuildTile(x: nat, y: nat)
      requires Valid() && tilemap.Some? && x < tilemap.value.width && y < tilemap.value.height
      requires Ids(layers) == FirstSeen(Seen(tilemap.value, x, y)) && AllCover(tilemap.value, layers)
      modifies this
      ensures Valid() && tilemap == old(tilemap) && subscribed == old(subscribed)
      ensures Ids(layers) == FirstSeen(Seen(tilemap.value, x, y + 1)) && AllCover(tilemap.value, layers)
      ensures killed == old(killed)
    {
      var g := tilemap.value;
      var tile := At(g, x, y);
      ghost var before := layers;
      SeenStep(g, Ids(before), x, y);
      if HaveCollision(tile) {
        var id := tile.collisionLayer;
        if FindLayer(layers, id) == |layers| {
          assert id !in Ids(before);
          assert Without(before, id) == before && Replaced(before, id) == [];
          UpdateLayer(id);
          assert killed == old(killed) + [];
          AppendedLayer(g, before, layers, id);
        } else {
          assert id in Ids(layers);
        }
      }
    }

    /** The inner loop of `updateLayers`: column x, top to bottom. */
    method RebuildColumn(x: nat)
      requires Valid() && tilemap.Some? && x < tilemap.value.width
      requires Ids(layers) == FirstSeen(Seen(tilemap.value, x, 0)) && AllCover(tilemap.value, layers)
      modifies this
      ensures Valid() && tilemap == old(tilemap) && subscribed == old(subscribed)
      ensures Ids(layers) == FirstSeen(Seen(tilemap.value, x, tilemap.value.height)) && AllCover(tilemap.value, layers)
      ensures killed == old(killed)
    {
      for y := 0 to tilemap.value.height
        invariant Valid() && tilemap == old(tilemap) && subscribed == old(subscribed)
        invariant Ids(layers) == FirstSeen(Seen(tilemap.value, x, y)) && AllCover(tilemap.value, layers)
        invariant killed == old(killed)
      {
        RebuildTile(x, y);
      }
    }

    /** `updateLayers`: with a map, every entry is killed and the list is
      * rebuilt with one entry per collision id of a colliding tile, in the
      * order the columns meet them; without a map, nothing happens. */
    method UpdateLayers()
      requires Valid()
      modifies this
      ensures Valid() && tilemap == old(tilemap) && subscribed == old(subscribed)
      ensures tilemap.None? ==> layers == old(layers) && killed == old(killed) && nextEntity == old(nextEntity)
      ensures tilemap.Some? ==>
        && Ids(layers) == FirstSeen(ColumnsIds(tilemap.value, tilemap.value.width))
        && AllCover(tilemap.value, layers)
        && killed == old(killed) + Entities(old(layers))
    {
      if tilemap.None? {
        return;
      }
      ClearLayers();
      var g := tilemap.value;
      for x := 0 to g.width
        invariant Valid() && tilemap == old(tilemap) && subscribed == old(subscribed)
        invariant Ids(layers) == FirstSeen(ColumnsIds(g, x)) && AllCover(g, layers)
        invariant killed == old(killed) + Entities(old(layers))
      {
        assert Seen(g, x, 0) == ColumnsIds(g, x);
        RebuildColumn(x);
        assert Seen(g, x, g.height) == ColumnsIds(g, x + 1);
      }
    }

    /** `attachTilemap`: the old callback is disconnected, a callback is
      * connected when there is a map, and the layers are rebuilt. */
    method AttachTilemap(t: Option<Grid>)
      requires Valid() && (t.Some? ==> GridOk(t.value))
      modifies this
      ensures Valid() && tilemap == t && subscribed == t.Some?
      ensures t.None? ==> layers == old(layers) && killed == old(killed)
      ensures t.Some? ==>
        && Ids(layers) == FirstSeen(ColumnsIds(t.value, t.value.width))
        && AllCover(t.value, layers)
        && killed == old(killed) + Entities(old(layers))
    {
      subscribed := false;
      tilemap := t;
      if tilemap.Some? {
        subscribed := true;
      }
      UpdateLayers();
    }

    /** The copy constructor and the copy assignment: the component
      * attaches itself to the other component's map. */
    method Assign(other: TilemapColliderComponent)
      requires Valid() && other.Valid()
      modifies this
      ensures Valid() && tilemap == old(other.tilemap) && subscribed == tilemap.Some?
      ensures tilemap.Some? ==>
        && Ids(layers) == FirstSeen(ColumnsIds(tilemap.value, tilemap.value.width))
        && AllCover(tilemap.value, layers)
        && killed == old(killed) + Entities(old(layers))
    {
      AttachTilemap(other.tilemap);
    }

    /** `onTilemapModified(x, y)` with the map as it now is: the layer of
      * the modified tile is rebuilt. A position outside the map rebuilds
      * every layer first; the read of the tile that follows is then out of
      * range, which the model reports as `inRange` false and stops at. */
    method OnTilemapModified(current: Grid, x: nat, y: nat) returns (inRange: bool)
      requires Valid() && tilemap.Some? && GridOk(current)
      modifies this
      ensures Valid() && tilemap == Some(current) && subscribed == old(subscribed)
      ensures inRange <==> x < current.width && y < current.height
      ensures !inRange ==>
        && Ids(layers) == FirstSeen(ColumnsIds(current, current.width))
        && AllCover(current, layers)
        && killed == old(killed) + Entities(old(layers))
      ensures inRange ==> var index := At(current, x, y).collisionLayer;
        && killed == old(killed) + Replaced(old(layers), index)
        && |layers| >= 1 && layers[..|layers| - 1] == Without(old(layers), index)
        && layers[|layers| - 1].id == index && CoverOk(current, index, layers[|layers| - 1].colliders)
    {
      tilemap := Some(current);
      if x >= current.width || y >= current.height {
        UpdateLayers();
        return false;
      }
      UpdateLayer(At(current, x, y).collisionLayer);
      inRange := true;
    }
  }
}
