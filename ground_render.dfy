// The ground renderer of one chunk: which materials a cell draws, the
// neighbourhood handed to the shape classifier, the atlas arithmetic, the
// border updates sent to neighbouring chunks and the bookkeeping of the
// per-material tile maps.

module GroundRender {
  import opened Tiles
  import opened Matrices
  import opened Chunks
  import opened WorldCoords
  import opened Worlds
  import opened TileConnexion
  import opened TileDefinitions

  // ---------------------------------------------------------------------
  // Candidate materials of a cell

  /** The tiles a behaviour reads from the world with `getTiles`, held as a
    * value: a width × height grid stored row-major, like the matrix the
    * world fills. */
  datatype Read = Read(tiles: seq<Tile>, width: nat, height: nat)
  {
    predicate Valid()
    {
      |tiles| == width * height
    }

    function Get(x: nat, y: nat): Tile
      requires Valid() && x < width && y < height
    {
      SlotInRange(x, y, width, height);
      tiles[Slot(x, y, width)]
    }
  }

  /** The contents of a matrix the world filled. */
  function ReadOf(m: Matrix<Tile>): (r: Read)
    reads m
    requires m.Valid()
    ensures r.Valid() && r.width == m.width && r.height == m.height
    ensures forall x: nat, y: nat :: x < m.width && y < m.height ==> r.Get(x, y) == m.Get(x, y)
  {
    Read(m.data, m.width, m.height)
  }

  /** The ids of a 3×3 window starting at (ox, oy), in the order the
    * classifier's local matrix uses: entry x + 3 * y. */
  function Window(r: Read, ox: nat, oy: nat): (w: seq<nat>)
    requires r.Valid() && ox + 3 <= r.width && oy + 3 <= r.height
    ensures |w| == 9
  {
    [r.Get(ox, oy).id, r.Get(ox + 1, oy).id, r.Get(ox + 2, oy).id,
     r.Get(ox, oy + 1).id, r.Get(ox + 1, oy + 1).id, r.Get(ox + 2, oy + 1).id,
     r.Get(ox, oy + 2).id, r.Get(ox + 1, oy + 2).id, r.Get(ox + 2, oy + 2).id]
  }

  /** The same window in the order the candidate scan visits it: x outer,
    * y inner, so step 3 * x + y. */
  function ScanWindow(r: Read, ox: nat, oy: nat): (s: seq<nat>)
    requires r.Valid() && ox + 3 <= r.width && oy + 3 <= r.height
    ensures |s| == 9
  {
    [r.Get(ox, oy).id, r.Get(ox, oy + 1).id, r.Get(ox, oy + 2).id,
     r.Get(ox + 1, oy).id, r.Get(ox + 1, oy + 1).id, r.Get(ox + 1, oy + 2).id,
     r.Get(ox + 2, oy).id, r.Get(ox + 2, oy + 1).id, r.Get(ox + 2, oy + 2).id]
  }

  /** The window cell p of a chunk is classified with, when the window of
    * cell (0, 0) starts at (ox, oy) in the read: the one at p + (ox, oy).
    * Nine zeros stand for a window the read does not hold. */
  function CellWindow(r: Read, ox: int, oy: int, p: (nat, nat)): (w: seq<nat>)
    ensures |w| == 9
  {
    if r.Valid() && 0 <= p.0 + ox && p.0 + ox + 3 <= r.width && 0 <= p.1 + oy && p.1 + oy + 3 <= r.height
    then Window(r, p.0 + ox, p.1 + oy)
    else seq(9, _ => 0)
  }

  /** The window of every cell of a chunk, for a read whose window of cell
    * (0, 0) starts at (ox, oy). */
  function Windows(r: Read, ox: int, oy: int): ((nat, nat)) -> seq<nat>
  {
    p => CellWindow(r, ox, oy, p)
  }

  /** The centre of a 3×3 window: the cell's own material. */
  function Centre(w: seq<nat>): nat
  {
    if |w| == 9 then w[4] else 0
  }

  /** The materials a scan draws: each id not above `bound`, the first time
    * it is met. */
  function Candidates(scan: seq<nat>, bound: nat): seq<nat>
  {
    if scan == [] then []
    else
      var r := Candidates(scan[..|scan| - 1], bound);
      var id := scan[|scan| - 1];
      if id > bound || id in r then r else r + [id]
  }

  /** One more scanned id adds it to the candidates unless it is above the
    * bound or already listed. */
  lemma CandidatesStep(scan: seq<nat>, k: nat, bound: nat)
    requires k < |scan|
    ensures var r := Candidates(scan[..k], bound);
      Candidates(scan[..k + 1], bound) == if scan[k] > bound || scan[k] in r then r else r + [scan[k]]
  {
    assert scan[..k + 1][..k] == scan[..k];
  }

  /** The candidates are exactly the distinct ids of the scan that are not
    * above the bound, each listed once, in order of first appearance. */
  lemma CandidatesContents(scan: seq<nat>, bound: nat)
    ensures var r := Candidates(scan, bound);
      && NoDuplicates(r)
      && (forall id :: id in r <==> id in scan && id <= bound)
      && (forall a, b :: 0 <= a < b < |r| ==> IndexOf(scan, r[a]) < IndexOf(scan, r[b]))
  {
    CandidatesMembers(scan, bound);
    CandidatesDistinct(scan, bound);
    CandidatesOrder(scan, bound);
  }

  /** An id is a candidate exactly when the scan holds it and it is not
    * above the bound. */
  lemma {:induction false} CandidatesMembers(scan: seq<nat>, bound: nat)
    ensures forall id :: id in Candidates(scan, bound) <==> id in scan && id <= bound
  {
    if scan != [] {
      var init := scan[..|scan| - 1];
      CandidatesMembers(init, bound);
      assert scan == init + [scan[|scan| - 1]];
    }
  }

  /** No candidate is listed twice. */
  lemma {:induction false} CandidatesDistinct(scan: seq<nat>, bound: nat)
    ensures NoDuplicates(Candidates(scan, bound))
  {
    if scan != [] {
      CandidatesDistinct(scan[..|scan| - 1], bound);
    }
  }

  /** The ids of r appear in `scan` in the order r lists them. */
  predicate FirstSeenOrder(scan: seq<nat>, r: seq<nat>)
  {
    forall a, b :: 0 <= a < b < |r| ==> IndexOf(scan, r[a]) < IndexOf(scan, r[b])
  }

  /** The candidates are listed in order of first appearance in the scan. */
  lemma {:induction false} CandidatesOrder(scan: seq<nat>, bound: nat)
    ensures FirstSeenOrder(scan, Candidates(scan, bound))
  {
    if scan != [] {
      var init := scan[..|scan| - 1];
      var id := scan[|scan| - 1];
      CandidatesOrder(init, bound);
      CandidatesMembers(init, bound);
      var r := Candidates(init, bound);
      forall x | x in init
        ensures IndexOf(scan, x) == IndexOf(init, x) < |init|
      {
        FirstIndexOfLast(scan, x);
      }
      if !(id > bound || id in r) {
        FirstIndexOfLast(scan, id);
        forall a | 0 <= a < |r|
          ensures IndexOf(scan, r[a]) < IndexOf(scan, id)
        {
          assert r[a] in init;
        }
      }
    }
  }

  /** The first occurrence of an id in a non-empty scan is the one in all
    * but its last element, if any, and otherwise the last element. */
  lemma FirstIndexOfLast(scan: seq<nat>, x: nat)
    requires scan != []
    ensures x in scan[..|scan| - 1] ==> IndexOf(scan, x) == IndexOf(scan[..|scan| - 1], x) < |scan| - 1
    ensures x !in scan[..|scan| - 1] && x == scan[|scan| - 1] ==> IndexOf(scan, x) == |scan| - 1
  {
    assert scan == scan[..|scan| - 1] + [scan[|scan| - 1]];
    FirstIndexInPrefix(scan[..|scan| - 1], scan[|scan| - 1], x);
  }

  /** Appending an element does not move the first occurrence of one that
    * was already there; a new element is found at the end. */
  lemma {:induction false} FirstIndexInPrefix(s: seq<nat>, last: nat, x: nat)
    ensures x in s ==> IndexOf(s + [last], x) == IndexOf(s, x) < |s|
    ensures x !in s && x == last ==> IndexOf(s + [last], x) == |s|
  {
    if s != [] {
      assert (s + [last])[1..] == s[1..] + [last];
      if s[0] != x {
        FirstIndexInPrefix(s[1..], last, x);
      }
    }
  }

  // ---------------------------------------------------------------------
  // The neighbourhood handed to the classifier

  /** The three "same material" tests the renderer uses: not above the
    * centre (border update), not above the candidate (tile change), equal
    * to the centre (full redraw). */
  datatype Rule = CentreBound | CandidateBound | CentreMatch

  predicate SameMaterial(rule: Rule, centre: nat, candidate: nat, id: nat)
  {
    match rule
    case CentreBound => id <= centre
    case CandidateBound => id <= candidate
    case CentreMatch => id == centre
  }

  /** The local matrix built for one candidate from the ids of its window. */
  function Neighbourhood(w: seq<nat>, rule: Rule, candidate: nat): (mat: seq<bool>)
    requires |w| == 9
    ensures IsLocalMatrix(mat)
    ensures forall k :: 0 <= k < 9 ==> mat[k] == SameMaterial(rule, w[4], candidate, w[k])
  {
    seq(9, k requires 0 <= k < 9 => SameMaterial(rule, w[4], candidate, w[k]))
  }

  /** The classifier demands a set centre. The border and full-redraw rules
    * always give one; the tile-change rule gives one only for the centre's
    * own material, and every other candidate is below the centre. */
  lemma NeighbourhoodCentre(w: seq<nat>, rule: Rule, candidate: nat)
    requires |w| == 9 && candidate <= w[4]
    ensures Neighbourhood(w, rule, candidate)[4] <==> rule != CandidateBound || candidate == w[4]
  {
  }

  /** With a cleared centre the classifier's precondition fails; a release
    * build classifies regardless, and the centre does not take part. */
  lemma ClearedCentreClassifiesAsSet(w: seq<nat>, candidate: nat)
    requires |w| == 9 && candidate < w[4]
    ensures !Neighbourhood(w, CandidateBound, candidate)[4]
    ensures var mat := Neighbourhood(w, CandidateBound, candidate);
      Classify(NeighboursOf(mat)) == LocalMatrixToConnexion(mat[4 := true])
  {
    var mat := Neighbourhood(w, CandidateBound, candidate);
    assert NeighboursOf(mat) == NeighboursOf(mat[4 := true]);
  }

  // ---------------------------------------------------------------------
  // Atlas arithmetic

  /** The number of tile columns the renderer assumes in a texture of the
    * given width, tiles being `TileSize` wide and `TileDelta` apart. */
  function AtlasColumns(textureWidth: nat): nat
  {
    (textureWidth + TileSize) / (TileSize + TileDelta)
  }

  /** The column and row of tile `id` (ids count from 1) in the atlas. */
  function AtlasCell(id: nat, textureWidth: nat): (cell: (nat, nat))
    requires id > 0 && AtlasColumns(textureWidth) > 0
    ensures cell.0 < AtlasColumns(textureWidth)
    ensures cell.1 * AtlasColumns(textureWidth) + cell.0 == id - 1
  {
    ((id - 1) % AtlasColumns(textureWidth), (id - 1) / AtlasColumns(textureWidth))
  }

  /** Consecutive ids fill a row left to right, then wrap to the next row:
    * the atlas cell determines the id. */
  lemma AtlasCellInjective(id1: nat, id2: nat, textureWidth: nat)
    requires id1 > 0 && id2 > 0 && AtlasColumns(textureWidth) > 0
    ensures AtlasCell(id1, textureWidth) == AtlasCell(id2, textureWidth) <==> id1 == id2
  {
    var c1, c2 := AtlasCell(id1, textureWidth), AtlasCell(id2, textureWidth);
    if c1 == c2 {
      assert id1 - 1 == c1.1 * AtlasColumns(textureWidth) + c1.0;
    }
  }

  /** The column count is positive exactly for textures at least one pixel
    * wide, and the last column it admits ends inside the texture exactly
    * when the width is a whole number of tiles plus gaps, with or without
    * the trailing gap. */
  lemma {:induction false} AtlasLastColumn(textureWidth: nat)
    ensures AtlasColumns(textureWidth) > 0 <==> textureWidth > 0
    ensures textureWidth > 0 ==>
      (((AtlasColumns(textureWidth) - 1) * (TileSize + TileDelta) + TileSize <= textureWidth)
        <==> (textureWidth % (TileSize + TileDelta) == 0 || textureWidth % (TileSize + TileDelta) == TileSize))
  {
    var step := TileSize + TileDelta;
    var n := AtlasColumns(textureWidth);
    var q, r := textureWidth / step, textureWidth % step;
    assert textureWidth == step * q + r;
    if r == TileSize {
      DivModUnique(textureWidth + TileSize, step, q + 1, TileSize - 1);
      assert n == q + 1;
    } else if r == 0 {
      DivModUnique(textureWidth + TileSize, step, q, TileSize);
      assert n == q;
    } else {
      DivModUnique(textureWidth + TileSize, step, q + 1, r - 1);
      assert n == q + 1;
    }
  }

  /** The texture width 64 admits two columns, the second ending past the
    * texture's right edge. */
  lemma AtlasOverhang()
    ensures AtlasColumns(64) == 2
    ensures (AtlasColumns(64) - 1) * (TileSize + TileDelta) + TileSize > 64
  {
  }

  // ---------------------------------------------------------------------
  // Border updates sent to neighbouring chunks

  /** One call to the world renderer's border update: the world chunk, the
    * cell inside it, the layer. */
  datatype BorderUpdate = BorderUpdate(chunkX: int, chunkY: int, x: int, y: int, layer: nat)

  /** An update of a cell of a chunk adjacent to (cx, cy), on the edge that
    * touches (cx, cy). */
  predicate Facing(cx: int, cy: int, u: BorderUpdate)
  {
    var dx, dy := u.chunkX - cx, u.chunkY - cy;
    && -1 <= dx <= 1 && -1 <= dy <= 1 && (dx, dy) != (0, 0)
    && 0 <= u.x < ChunkSize && 0 <= u.y < ChunkSize && u.layer == 0
    && (dx == -1 ==> u.x == ChunkSize - 1) && (dx == 1 ==> u.x == 0)
    && (dy == -1 ==> u.y == ChunkSize - 1) && (dy == 1 ==> u.y == 0)
  }

  /** The four side updates of a full redraw for position t along the
    * sides: left, right, top, bottom neighbour in turn. */
  function SideQuad(cx: int, cy: int, t: int): seq<BorderUpdate>
  {
    [BorderUpdate(cx - 1, cy, ChunkSize - 1, t, 0), BorderUpdate(cx + 1, cy, 0, t, 0),
     BorderUpdate(cx, cy - 1, t, ChunkSize - 1, 0), BorderUpdate(cx, cy + 1, t, 0, 0)]
  }

  /** The side updates for the first n positions along each side. */
  function SideUpdates(cx: int, cy: int, n: nat): seq<BorderUpdate>
  {
    if n == 0 then [] else SideUpdates(cx, cy, n - 1) + SideQuad(cx, cy, n - 1)
  }

  function CornerUpdates(cx: int, cy: int): seq<BorderUpdate>
  {
    [BorderUpdate(cx - 1, cy - 1, ChunkSize - 1, ChunkSize - 1, 0), BorderUpdate(cx - 1, cy + 1, ChunkSize - 1, 0, 0),
     BorderUpdate(cx + 1, cy - 1, 0, ChunkSize - 1, 0), BorderUpdate(cx + 1, cy + 1, 0, 0, 0)]
  }

  /** Every update a full redraw sends, in order. */
  function FullMapBorderUpdates(cx: int, cy: int): seq<BorderUpdate>
  {
    CornerUpdates(cx, cy) + SideUpdates(cx, cy, ChunkSize)
  }

  lemma {:induction false} SideUpdatesFacing(cx: int, cy: int, n: nat)
    requires n <= ChunkSize
    ensures var r := SideUpdates(cx, cy, n);
      && |r| == 4 * n
      && (forall u :: u in r ==> Facing(cx, cy, u))
      && (forall t, u :: 0 <= t < n && u in SideQuad(cx, cy, t) ==> u in r)
  {
    if n > 0 {
      SideUpdatesFacing(cx, cy, n - 1);
      var q := SideQuad(cx, cy, n - 1);
      assert forall u :: u in q ==> Facing(cx, cy, u);
    }
  }

  /** A full redraw sends 4 + 4 * 32 updates, each to a cell of an adjacent
    * chunk on the edge facing this chunk, and reaches the whole facing
    * edge of each side neighbour and the facing corner of each diagonal
    * one. */
  lemma FullMapBorderFacing(cx: int, cy: int)
    ensures var r := FullMapBorderUpdates(cx, cy);
      && |r| == 4 + 4 * ChunkSize
      && (forall u :: u in r ==> Facing(cx, cy, u))
      && (forall t, u :: 0 <= t < ChunkSize && u in SideQuad(cx, cy, t) ==> u in r)
      && (forall u :: u in CornerUpdates(cx, cy) ==> u in r)
  {
    SideUpdatesFacing(cx, cy, ChunkSize);
  }

  /** The update a tile change sends for the visited cell (i, j): the chunk
    * is moved by one where the cell leaves the chunk, and the cell is
    * mirrored, with `>` where the edge needs `>=`. */
  function TileChangeUpdate(cx: int, cy: int, i: int, j: int): BorderUpdate
  {
    BorderUpdate(
      cx - (if i < 0 then 1 else 0) + (if i >= ChunkSize then 1 else 0),
      cy - (if j < 0 then 1 else 0) + (if j >= ChunkSize then 1 else 0),
      if i < 0 then ChunkSize - 1 else if i > ChunkSize then 0 else i,
      if j < 0 then ChunkSize - 1 else if j > ChunkSize then 0 else j,
      0)
  }

  /** A cell inside the chunk is sent to the chunk itself, which the source
    * asserts never happens; a cell one past the right or bottom edge is
    * sent to the right neighbour but at coordinate 32, outside it. */
  lemma TileChangeUpdateTargets(cx: int, cy: int, i: int, j: int)
    requires -1 <= i <= ChunkSize && -1 <= j <= ChunkSize
    ensures var u := TileChangeUpdate(cx, cy, i, j);
      && (0 <= i < ChunkSize ==> u.chunkX == cx && u.x == i)
      && (0 <= j < ChunkSize ==> u.chunkY == cy && u.y == j)
      && (i == -1 ==> u.chunkX == cx - 1 && u.x == ChunkSize - 1)
      && (j == -1 ==> u.chunkY == cy - 1 && u.y == ChunkSize - 1)
      && (i == ChunkSize ==> u.chunkX == cx + 1 && u.x == ChunkSize)
      && (j == ChunkSize ==> u.chunkY == cy + 1 && u.y == ChunkSize)
  {
  }

  /** `size_t` arithmetic: an `int` compared with a `size_t` is converted
    * to it first. */
  const SizeModulus: int := 0x1_0000_0000_0000_0000

  function ToSize(i: int): (u: int)
    requires -SizeModulus <= i < SizeModulus
    ensures 0 <= u < SizeModulus && u % SizeModulus == i % SizeModulus
  {
    if i < 0 then i + SizeModulus else i
  }

  /** The value at which a tile change's loop variable around position p
    * stops: the loop starts at p - 1 and runs while it is `<=` p + 1 as a
    * `size_t`, so at p == 0 the start -1 wraps to the largest `size_t` and
    * the loop stops at once; otherwise it visits p - 1, p and p + 1. */
  function LoopEnd(p: nat): int
  {
    if p == 0 then -1 else p + 2
  }

  /** The updates the inner loop sends for column i while j runs from lo up
    * to hi - 1. */
  function ColumnUpdates(cx: int, cy: int, i: int, lo: int, hi: int): seq<BorderUpdate>
    decreases hi - lo
  {
    if hi <= lo then [] else ColumnUpdates(cx, cy, i, lo, hi - 1) + [TileChangeUpdate(cx, cy, i, hi - 1)]
  }

  /** The updates the two loops send while i runs from lo up to hi - 1, each
    * column's j from jlo up to jhi - 1. */
  function GridUpdates(cx: int, cy: int, lo: int, hi: int, jlo: int, jhi: int): seq<BorderUpdate>
    decreases hi - lo
  {
    if hi <= lo then [] else GridUpdates(cx, cy, lo, hi - 1, jlo, jhi) + ColumnUpdates(cx, cy, hi - 1, jlo, jhi)
  }

  /** Every update a tile change at (x, y) sends, in loop order. */
  function TileChangeUpdates(cx: int, cy: int, x: nat, y: nat): seq<BorderUpdate>
  {
    GridUpdates(cx, cy, x - 1, LoopEnd(x), y - 1, LoopEnd(y))
  }

  /** Three passes of the outer loop are its three columns in turn. */
  lemma GridOfThree(cx: int, cy: int, lo: int, jlo: int, jhi: int)
    ensures GridUpdates(cx, cy, lo, lo + 3, jlo, jhi)
      == ColumnUpdates(cx, cy, lo, jlo, jhi) + ColumnUpdates(cx, cy, lo + 1, jlo, jhi) + ColumnUpdates(cx, cy, lo + 2, jlo, jhi)
  {
    assert GridUpdates(cx, cy, lo, lo + 1, jlo, jhi) == ColumnUpdates(cx, cy, lo, jlo, jhi);
    assert GridUpdates(cx, cy, lo, lo + 2, jlo, jhi) == ColumnUpdates(cx, cy, lo, jlo, jhi) + ColumnUpdates(cx, cy, lo + 1, jlo, jhi);
  }

  /** Three passes of the inner loop are their three updates in turn. */
  lemma ColumnOfThree(cx: int, cy: int, i: int, lo: int)
    ensures ColumnUpdates(cx, cy, i, lo, lo + 3)
      == [TileChangeUpdate(cx, cy, i, lo), TileChangeUpdate(cx, cy, i, lo + 1), TileChangeUpdate(cx, cy, i, lo + 2)]
  {
    assert ColumnUpdates(cx, cy, i, lo, lo + 1) == [TileChangeUpdate(cx, cy, i, lo)];
    assert ColumnUpdates(cx, cy, i, lo, lo + 2) == [TileChangeUpdate(cx, cy, i, lo), TileChangeUpdate(cx, cy, i, lo + 1)];
  }

  /** A tile change on the first row or column of the chunk sends nothing;
    * elsewhere it sends nine updates around the changed cell, the middle
    * one to the changed cell of the chunk itself. */
  lemma TileChangeUpdatesShape(cx: int, cy: int, x: nat, y: nat)
    requires x < ChunkSize && y < ChunkSize
    ensures var r := TileChangeUpdates(cx, cy, x, y);
      && (x == 0 || y == 0 ==> r == [])
      && (x > 0 && y > 0 ==>
            && r == [TileChangeUpdate(cx, cy, x - 1, y - 1), TileChangeUpdate(cx, cy, x - 1, y), TileChangeUpdate(cx, cy, x - 1, y + 1),
                     TileChangeUpdate(cx, cy, x, y - 1), TileChangeUpdate(cx, cy, x, y), TileChangeUpdate(cx, cy, x, y + 1),
                     TileChangeUpdate(cx, cy, x + 1, y - 1), TileChangeUpdate(cx, cy, x + 1, y), TileChangeUpdate(cx, cy, x + 1, y + 1)]
            && r[4] == BorderUpdate(cx, cy, x, y, 0))
  {
    if x > 0 {
      GridOfThree(cx, cy, x - 1, y - 1, LoopEnd(y));
      if y > 0 {
        ColumnOfThree(cx, cy, x - 1, y - 1);
        ColumnOfThree(cx, cy, x, y - 1);
        ColumnOfThree(cx, cy, x + 1, y - 1);
      } else {
        assert ColumnUpdates(cx, cy, x - 1, -1, -1) == [];
        assert ColumnUpdates(cx, cy, x, -1, -1) == [];
        assert ColumnUpdates(cx, cy, x + 1, -1, -1) == [];
      }
    }
  }

  /** The loop from p - 1 while `<=` p + 1 as a `size_t`: it never starts
    * at p = 0 (p - 1 wraps to the largest `size_t`), and otherwise runs up
    * to p + 1 and stops at p + 2. */
  lemma LoopVisits(p: nat, i: int)
    requires p < ChunkSize && p - 1 <= i <= p + 2 && (p == 0 ==> i == -1)
    ensures ToSize(i) <= p + 1 <==> p > 0 && i <= p + 1
    ensures ToSize(i) > p + 1 ==> i == LoopEnd(p)
  {
  }

  // ---------------------------------------------------------------------
  // Depth order of the tile maps

  predicate Ascending(s: seq<nat>)
  {
    forall i, j :: 0 <= i < j < |s| ==> s[i] <= s[j]
  }

  function Insert(x: nat, s: seq<nat>): seq<nat>
  {
    if s == [] || x <= s[0] then [x] + s else [s[0]] + Insert(x, s[1..])
  }

  /** `std::sort` on material ids. */
  function Sort(s: seq<nat>): seq<nat>
  {
    if s == [] then [] else Insert(s[0], Sort(s[1..]))
  }

  lemma {:induction false} InsertElements(x: nat, s: seq<nat>)
    ensures multiset(Insert(x, s)) == multiset(s) + multiset{x}
    ensures forall y :: y in Insert(x, s) <==> y == x || y in s
  {
    if s != [] && x > s[0] {
      InsertElements(x, s[1..]);
      assert s == [s[0]] + s[1..];
    }
  }

  lemma ConsAscending(h: nat, r: seq<nat>)
    requires Ascending(r) && forall y :: y in r ==> h <= y
    ensures Ascending([h] + r)
  {
    var t := [h] + r;
    forall i, j | 0 <= i < j < |t|
      ensures t[i] <= t[j]
    {
      assert t[j] == r[j - 1] && r[j - 1] in r;
      if i > 0 {
        assert t[i] == r[i - 1];
      }
    }
  }

  lemma ConsDistinct(h: nat, r: seq<nat>)
    requires NoDuplicates(r) && h !in r
    ensures NoDuplicates([h] + r)
  {
    var t := [h] + r;
    forall i, j | 0 <= i < j < |t|
      ensures t[i] != t[j]
    {
      assert t[j] == r[j - 1] && r[j - 1] in r;
      if i > 0 {
        assert t[i] == r[i - 1];
      }
    }
  }

  lemma {:induction false} InsertSorted(x: nat, s: seq<nat>)
    requires Ascending(s)
    ensures Ascending(Insert(x, s))
    ensures x !in s && NoDuplicates(s) ==> NoDuplicates(Insert(x, s))
  {
    if s == [] || x <= s[0] {
      forall y | y in s
        ensures x <= y
      {
        var k :| 0 <= k < |s| && s[k] == y;
        assert s[0] <= s[k];
      }
      ConsAscending(x, s);
      if x !in s && NoDuplicates(s) {
        ConsDistinct(x, s);
      }
    } else {
      InsertSorted(x, s[1..]);
      InsertElements(x, s[1..]);
      var r := Insert(x, s[1..]);
      forall y | y in r
        ensures s[0] <= y && (y != x && NoDuplicates(s) ==> s[0] != y)
      {
        if y != x {
          var i :| 0 <= i < |s[1..]| && s[1..][i] == y;
          assert s[i + 1] == y;
        }
      }
      ConsAscending(s[0], r);
      if x !in s && NoDuplicates(s) {
        assert x !in s[1..];
        ConsDistinct(s[0], r);
      }
    }
  }

  /** The sort yields an ascending permutation, without duplicates when the
    * input has none. */
  lemma {:induction false} SortSorted(s: seq<nat>)
    ensures Ascending(Sort(s)) && multiset(Sort(s)) == multiset(s)
    ensures NoDuplicates(s) ==> NoDuplicates(Sort(s))
  {
    if s != [] {
      SortSorted(s[1..]);
      assert s == [s[0]] + s[1..];
      InsertSorted(s[0], Sort(s[1..]));
      InsertElements(s[0], Sort(s[1..]));
      if NoDuplicates(s) {
        assert s[0] !in s[1..];
        assert s[0] !in multiset(Sort(s[1..]));
      }
    }
  }

  // ---------------------------------------------------------------------
  // The renderer's state

  /** A cell the renderer shows: which of the tile map's textures, which
    * tile of the atlas (see `AtlasCell`). */
  datatype DrawnTile = DrawnTile(texture: nat, tileID: nat)

  /** A tile map as the renderer holds it: its enabled cells, whether it is
    * attached to the entity's graphics, its depth. */
  datatype RenderedMap = RenderedMap(cells: map<(nat, nat), DrawnTile>, attached: bool, depth: int)

  /** The behaviour's record of one material's tile map: which rendered map
    * (`tilemap` indexes the renderer's list), the material's texture ids,
    * the material, the count of set tiles. */
  datatype TilemapInfos = TilemapInfos(tilemap: nat, texturesIndexs: seq<nat>, materialIndex: nat, setTilesCount: nat)

  /** The depth a newly attached tile map is given. */
  const AttachDepth: int := -2

  /** `drawTile` on the cells of one tile map: an id of 0, or a texture the
    * tile map does not have, disables the cell; otherwise it shows tile
    * `id` of that texture. */
  function Painted(cells: map<(nat, nat), DrawnTile>, texturesIndexs: seq<nat>, x: nat, y: nat, id: nat, textureIndex: nat)
    : (r: map<(nat, nat), DrawnTile>)
    ensures (x, y) in r <==> id != 0 && textureIndex in texturesIndexs
    ensures (x, y) in r ==>
      r[(x, y)].tileID == id && r[(x, y)].texture < |texturesIndexs| && texturesIndexs[r[(x, y)].texture] == textureIndex
    ensures forall p :: p != (x, y) ==> (p in r <==> p in cells) && (p in r ==> r[p] == cells[p])
  {
    if id == 0 || textureIndex !in texturesIndexs then cells - {(x, y)}
    else cells[(x, y) := DrawnTile(IndexOf(texturesIndexs, textureIndex), id)]
  }

  /** A drawn cell shows a tile of the material's list whenever that tile's
    * texture is one the material lists, and every real tile's texture is. */
  lemma PickedIsShown(ms: seq<TileMaterialDefinition>, mat: nat, slot: nat, t: SingleTileDefinition, x: nat, y: nat,
                      cells: map<(nat, nat), DrawnTile>)
    requires AllWellFormed(ms) && slot < ConnexionCount && RandomPick(t, TilesOf(ms, mat, slot))
    ensures (x, y) in Painted(cells, TexturesFor(ms, mat), x, y, t.tileID, t.textureID) <==> t.tileID != 0
  {
    if t.tileID != 0 {
      var tiles := TilesOf(ms, mat, slot);
      assert mat < |ms| && t in ms[mat].tiles[slot];
      var k :| 0 <= k < |tiles| && tiles[k] == t;
      NoteSlotsContents(ms[mat].tiles);
    }
  }

  function Materials(ts: seq<TilemapInfos>): (r: seq<nat>)
    ensures |r| == |ts| && forall k :: 0 <= k < |ts| ==> r[k] == ts[k].materialIndex
  {
    seq(|ts|, k requires 0 <= k < |ts| => ts[k].materialIndex)
  }

  function Handles(ts: seq<TilemapInfos>): set<nat>
  {
    set t | t in ts :: t.tilemap
  }

  lemma HandlesAppend(ts: seq<TilemapInfos>, k: nat)
    requires k < |ts|
    ensures Handles(ts[..k + 1]) == Handles(ts[..k]) + {ts[k].tilemap}
  {
    assert ts[..k + 1] == ts[..k] + [ts[k]];
  }

  /** `std::find_if` on the material: the first entry for `mat`, or the
    * length. */
  function FindMaterial(ts: seq<TilemapInfos>, mat: nat): (k: nat)
    ensures k <= |ts| && (k < |ts| ==> ts[k].materialIndex == mat)
    ensures forall j :: 0 <= j < k ==> ts[j].materialIndex != mat
  {
    if ts == [] then 0 else if ts[0].materialIndex == mat then 0 else 1 + FindMaterial(ts[1..], mat)
  }

  /** `std::remove_if` on an unset count: the entries with a set tile. */
  function KeepCounted(ts: seq<TilemapInfos>): seq<TilemapInfos>
  {
    if ts == [] then [] else (if ts[0].setTilesCount == 0 then [] else [ts[0]]) + KeepCounted(ts[1..])
  }

  lemma {:induction false} KeepCountedContents(ts: seq<TilemapInfos>)
    ensures forall t :: t in KeepCounted(ts) <==> t in ts && t.setTilesCount != 0
  {
    if ts != [] {
      KeepCountedContents(ts[1..]);
      assert ts == [ts[0]] + ts[1..];
    }
  }

  /** No entry is ever counted, so cleaning drops them all. */
  lemma {:induction false} UncountedAllDropped(ts: seq<TilemapInfos>)
    requires forall k :: 0 <= k < |ts| ==> ts[k].setTilesCount == 0
    ensures KeepCounted(ts) == []
  {
    if ts != [] {
      UncountedAllDropped(ts[1..]);
    }
  }


  /** The depth `updateMaterialsHeights` gives the tile map of `mat`: its
    * rank among the sorted materials, shifted below the attach depth. */
  function Height(ts: seq<TilemapInfos>, mat: nat): int
  {
    IndexOf(Sort(Materials(ts)), mat) - |ts| - 1
  }

  /** Distinct materials are stacked by ascending id, none above the depth
    * new tile maps are attached at. */
  lemma HeightsAscending(ts: seq<TilemapInfos>, k: nat, l: nat)
    requires NoDuplicates(Materials(ts)) && k < |ts| && l < |ts|
    ensures -|ts| - 1 <= Height(ts, ts[k].materialIndex) <= AttachDepth
    ensures ts[k].materialIndex < ts[l].materialIndex ==> Height(ts, ts[k].materialIndex) < Height(ts, ts[l].materialIndex)
  {
    var ms := Materials(ts);
    var s := Sort(ms);
    SortSorted(ms);
    assert |s| == |ts| by {
      assert |s| == |multiset(s)| == |multiset(ms)| == |ms|;
    }
    var a, b := ts[k].materialIndex, ts[l].materialIndex;
    assert a in s by {
      assert ms[k] == a && a in multiset(ms);
    }
    assert b in s by {
      assert ms[l] == b && b in multiset(ms);
    }
    var ia, ib := IndexOf(s, a), IndexOf(s, b);
    assert ia < |s| && s[ia] == a;
    assert ib < |s| && s[ib] == b;
    assert ia < ib || b <= a by {
      assert ib < ia ==> s[ib] <= s[ia];
    }
  }

  /** Entries name pairwise distinct tile maps and materials. */
  predicate DistinctEntries(ts: seq<TilemapInfos>)
  {
    forall a, b :: 0 <= a < b < |ts| ==> Unshared(ts[a], ts[b])
  }

  /** Two entries name different tile maps and different materials. */
  predicate Unshared(e: TilemapInfos, f: TilemapInfos)
  {
    e.tilemap != f.tilemap && e.materialIndex != f.materialIndex
  }

  /** Part way through a restacking: the entries whose material is among
    * the first `i` sorted ones have their height, every other tile map is
    * as before. */
  ghost predicate StackedUpTo(before: seq<RenderedMap>, after: seq<RenderedMap>, ts: seq<TilemapInfos>, i: nat)
  {
    && |after| == |before|
    && (forall h :: 0 <= h < |after| && h !in Handles(ts) ==> after[h] == before[h])
    && (forall k :: 0 <= k < |ts| ==>
          && ts[k].tilemap < |before|
          && after[ts[k].tilemap] ==
               if IndexOf(Sort(Materials(ts)), ts[k].materialIndex) < i
               then before[ts[k].tilemap].(depth := Height(ts, ts[k].materialIndex))
               else before[ts[k].tilemap])
  }

  /** Before the first step nothing is restacked. */
  lemma StackedStart(before: seq<RenderedMap>, ts: seq<TilemapInfos>)
    requires forall k :: 0 <= k < |ts| ==> ts[k].tilemap < |before|
    ensures StackedUpTo(before, before, ts, 0)
  {
  }

  /** Sorting distinct materials keeps them distinct and as many. */
  lemma SortedMaterials(ts: seq<TilemapInfos>)
    requires DistinctEntries(ts)
    ensures NoDuplicates(Materials(ts)) && NoDuplicates(Sort(Materials(ts)))
    ensures multiset(Sort(Materials(ts))) == multiset(Materials(ts)) && |Sort(Materials(ts))| == |ts|
  {
    var s := Sort(Materials(ts));
    SortSorted(Materials(ts));
    assert |s| == |multiset(s)| == |multiset(Materials(ts))| == |ts|;
  }

  /** One step of the restacking: the entry holding the `i`-th sorted
    * material gets depth `i - n - 1`. */
  lemma StackedStep(before: seq<RenderedMap>, after: seq<RenderedMap>, ts: seq<TilemapInfos>, i: nat, k: nat)
    requires DistinctEntries(ts) && StackedUpTo(before, after, ts, i)
    requires i < |ts| && k < |ts| && i < |Sort(Materials(ts))| && ts[k].materialIndex == Sort(Materials(ts))[i]
    ensures StackedUpTo(before, after[ts[k].tilemap := after[ts[k].tilemap].(depth := i - |ts| - 1)], ts, i + 1)
  {
    var s := Sort(Materials(ts));
    SortedMaterials(ts);
    assert IndexOf(s, ts[k].materialIndex) == i;
    forall k2 | 0 <= k2 < |ts| && k2 != k
      ensures IndexOf(s, ts[k2].materialIndex) != i && ts[k2].tilemap != ts[k].tilemap
    {
      assert Materials(ts)[k2] != Materials(ts)[k];
    }
    assert ts[k].tilemap in Handles(ts) by { assert ts[k] in ts; }
  }

  /** Once every sorted material is done, each entry has its height. */
  lemma StackedAll(before: seq<RenderedMap>, after: seq<RenderedMap>, ts: seq<TilemapInfos>)
    requires DistinctEntries(ts) && StackedUpTo(before, after, ts, |ts|)
    ensures forall k :: 0 <= k < |ts| ==>
      after[ts[k].tilemap] == before[ts[k].tilemap].(depth := Height(ts, ts[k].materialIndex))
  {
    SortedMaterials(ts);
    forall k | 0 <= k < |ts|
      ensures IndexOf(Sort(Materials(ts)), ts[k].materialIndex) < |ts|
    {
      assert Materials(ts)[k] in multiset(Materials(ts));
    }
  }

  /** The first loop of `updateMaterialsHeights`: the entries' materials,
    * in order. */
  method CollectMaterials(ts: seq<TilemapInfos>) returns (mats: seq<nat>)
    ensures |mats| == |ts| && forall k :: 0 <= k < |ts| ==> mats[k] == ts[k].materialIndex
  {
    mats := [];
    for k := 0 to |ts|
      invariant |mats| == k && forall l :: 0 <= l < k ==> mats[l] == ts[l].materialIndex
    {
      mats := mats + [ts[k].materialIndex];
    }
  }

  /** The loop of `updateMaterialsHeights` on the tile maps: collects the
    * entries' materials, sorts them, then gives the entry of the `i`-th
    * one the depth `i - n - 1`. */
  method Restack(before: seq<RenderedMap>, ts: seq<TilemapInfos>) returns (ms: seq<RenderedMap>)
    requires DistinctEntries(ts) && forall k :: 0 <= k < |ts| ==> ts[k].tilemap < |before|
    ensures |ms| == |before|
    ensures forall h :: 0 <= h < |ms| && h !in Handles(ts) ==> ms[h] == before[h]
    ensures forall k :: 0 <= k < |ts| ==>
      ms[ts[k].tilemap] == before[ts[k].tilemap].(depth := Height(ts, ts[k].materialIndex))
  {
    ms := before;
    var orderedMats := CollectMaterials(ts);
    assert orderedMats == Materials(ts);
    SortedMaterials(ts);
    orderedMats := Sort(orderedMats);
    var n := |orderedMats|;
    StackedStart(before, ts);
    for i := 0 to n
      invariant StackedUpTo(before, ms, ts, i)
    {
      assert orderedMats[i] in multiset(Materials(ts));
      var k := FindMaterial(ts, orderedMats[i]);
      StackedStep(before, ms, ts, i, k);
      var h := ts[k].tilemap;
      ms := ms[h := ms[h].(depth := i - n - 1)];
    }
    StackedAll(before, ms, ts);
  }

  /** The renderer's tile maps before and after some drawing: none is
    * dropped; tracked ones keep their attachment and depth (their cells may
    * change), untracked ones are untouched, and new ones are attached at
    * the attach depth. */
  ghost predicate MapsGrew(before: seq<RenderedMap>, tracked: set<nat>, after: seq<RenderedMap>)
  {
    && |before| <= |after|
    && (forall h :: 0 <= h < |before| ==>
          if h in tracked then after[h].attached == before[h].attached && after[h].depth == before[h].depth
          else after[h] == before[h])
    && (forall h :: |before| <= h < |after| ==> after[h].attached && after[h].depth == AttachDepth)
  }

  /** The behaviour's entries before and after some drawing: entries are
    * only appended, each for a tile map created meanwhile. */
  ghost predicate TilemapsGrew(before: seq<TilemapInfos>, mapCount: nat, after: seq<TilemapInfos>)
  {
    && before <= after
    && forall k :: |before| <= k < |after| ==> after[k].tilemap >= mapCount
  }

  lemma GrewReflexive(ms: seq<RenderedMap>, ts: seq<TilemapInfos>)
    ensures MapsGrew(ms, Handles(ts), ms) && TilemapsGrew(ts, |ms|, ts)
  {
  }

  lemma GrewTransitive(m0: seq<RenderedMap>, t0: seq<TilemapInfos>, m1: seq<RenderedMap>, t1: seq<TilemapInfos>,
                       m2: seq<RenderedMap>, t2: seq<TilemapInfos>)
    requires MapsGrew(m0, Handles(t0), m1) && TilemapsGrew(t0, |m0|, t1)
    requires MapsGrew(m1, Handles(t1), m2) && TilemapsGrew(t1, |m1|, t2)
    ensures MapsGrew(m0, Handles(t0), m2) && TilemapsGrew(t0, |m0|, t2)
  {
    forall h | 0 <= h < |m0| && h in Handles(t1)
      ensures h in Handles(t0)
    {
      var t :| t in t1 && t.tilemap == h;
      var k :| 0 <= k < |t1| && t1[k] == t;
      assert k < |t0|;
      assert t0[k] == t;
    }
    forall h | 0 <= h < |m0| && h in Handles(t0)
      ensures h in Handles(t1)
    {
      var t :| t in t0 && t.tilemap == h;
      var k :| 0 <= k < |t0| && t0[k] == t;
      assert t1[k] == t;
    }
  }

  /** The renderer's tile maps with the given ones detached. */
  function Detached(ms: seq<RenderedMap>, hs: set<nat>): (r: seq<RenderedMap>)
    ensures |r| == |ms|
    ensures forall h :: 0 <= h < |ms| ==> r[h] == if h in hs then ms[h].(attached := false) else ms[h]
  {
    seq(|ms|, h requires 0 <= h < |ms| => if h in hs then ms[h].(attached := false) else ms[h])
  }

  // ---------------------------------------------------------------------
  // What a redraw shows

  /** Every entry is for a material other than 0, which is never drawn. */
  predicate RealMaterials(ts: seq<TilemapInfos>)
  {
    forall k :: 0 <= k < |ts| ==> ts[k].materialIndex != 0
  }

  /** Some entry is for material `mat`. */
  predicate HasEntry(ts: seq<TilemapInfos>, mat: nat)
  {
    exists k :: 0 <= k < |ts| && ts[k].materialIndex == mat
  }

  /** The shape slot candidate `c` of a cell is drawn with: the class the
    * classifier gives the neighbours of its neighbourhood under `rule`. */
  function ShapeSlot(w: seq<nat>, rule: Rule, c: nat): (slot: nat)
    requires |w| == 9
    ensures slot < ConnexionCount
  {
    ConnexionIndex(Classify(NeighboursOf(Neighbourhood(w, rule, c))))
  }

  /** Cell p of a tile map with the given textures shows tile t the way
    * `drawTile` paints it: enabled exactly when t is a real tile of one of
    * those textures, then with t's texture and atlas id. */
  predicate ShowsTile(cells: map<(nat, nat), DrawnTile>, texturesIndexs: seq<nat>, p: (nat, nat), t: SingleTileDefinition)
  {
    && (p in cells <==> t.tileID != 0 && t.textureID in texturesIndexs)
    && (p in cells ==> cells[p] == DrawnTile(IndexOf(texturesIndexs, t.textureID), t.tileID))
  }

  /** Cell p shows some tile the random pick may return for `tiles`. */
  ghost predicate ShowsPick(cells: map<(nat, nat), DrawnTile>, texturesIndexs: seq<nat>, tiles: seq<SingleTileDefinition>,
                            p: (nat, nat))
  {
    exists t :: RandomPick(t, tiles) && ShowsTile(cells, texturesIndexs, p, t)
  }

  /** Cell p of entry e's tile map after a redraw of p that drew the
    * candidates `cands`, classifying window `w` under `rule`: when e's
    * material was drawn, a tile picked among the material's tiles for the
    * shape of its neighbourhood; otherwise nothing. */
  ghost predicate CellShows(cells: map<(nat, nat), DrawnTile>, e: TilemapInfos, ms: seq<TileMaterialDefinition>,
                            cands: seq<nat>, w: seq<nat>, rule: Rule, p: (nat, nat))
  {
    if e.materialIndex in cands
    then |w| == 9 && AllWellFormed(ms) && ShowsPick(cells, e.texturesIndexs, TilesOf(ms, e.materialIndex, ShapeSlot(w, rule, e.materialIndex)), p)
    else p !in cells
  }

  /** Two cell maps agree on cell q. */
  predicate Agree(a: map<(nat, nat), DrawnTile>, b: map<(nat, nat), DrawnTile>, q: (nat, nat))
  {
    (q in a <==> q in b) && (q in a ==> a[q] == b[q])
  }

  /** Two cell maps agree everywhere but at p. */
  ghost predicate KeptBut(a: map<(nat, nat), DrawnTile>, b: map<(nat, nat), DrawnTile>, p: (nat, nat))
  {
    forall q :: q != p ==> Agree(a, b, q)
  }

  /** The tile maps and entries (m1, t1) continue (m0, t0): entries are
    * only appended, each new one for a tile map created meanwhile. */
  ghost predicate Extends(m0: seq<RenderedMap>, t0: seq<TilemapInfos>, m1: seq<RenderedMap>, t1: seq<TilemapInfos>)
  {
    && t0 <= t1 && |m0| <= |m1|
    && (forall k :: 0 <= k < |t0| ==> t0[k].tilemap < |m0|)
    && (forall k :: 0 <= k < |t1| ==> t1[k].tilemap < |m1|)
    && (forall k :: |t0| <= k < |t1| ==> |m0| <= t1[k].tilemap)
  }

  /** The cells entry k's tile map had in (m0, t0): none for an entry
    * created since. */
  function Base(m0: seq<RenderedMap>, t0: seq<TilemapInfos>, k: nat): map<(nat, nat), DrawnTile>
  {
    if k < |t0| && t0[k].tilemap < |m0| then m0[t0[k].tilemap].cells else map[]
  }

  /** A redraw of cell p that drew the candidates `cands` took the tile
    * maps and entries from (m0, t0) to (m1, t1): each entry's tile map is
    * as it was (empty for a new one) except at p, which shows what
    * `CellShows` says; every drawn material other than 0 has an entry. */
  ghost predicate CellRedrawn(m0: seq<RenderedMap>, t0: seq<TilemapInfos>, m1: seq<RenderedMap>, t1: seq<TilemapInfos>,
                              ms: seq<TileMaterialDefinition>, cands: seq<nat>, w: seq<nat>, rule: Rule, p: (nat, nat))
  {
    && Extends(m0, t0, m1, t1)
    && (forall k :: 0 <= k < |t1| ==>
          KeptBut(m1[t1[k].tilemap].cells, Base(m0, t0, k), p) && CellShows(m1[t1[k].tilemap].cells, t1[k], ms, cands, w, rule, p))
    && (forall c :: c in cands && c != 0 ==> HasEntry(t1, c))
  }

  /** A redraw that took every cell's candidates from `scan` and classified
    * cell q with window W(q) under `rule`, and has redrawn the cells
    * `done`, took the tile maps and entries from (m0, t0) to (m1, t1):
    * every entry's tile map is as it was (empty for a new one) outside
    * `done`, and shows at each cell of `done` what `CellShows` says for
    * that cell's window and candidates; every drawn material other than 0
    * has an entry. */
  ghost predicate Redrawn(m0: seq<RenderedMap>, t0: seq<TilemapInfos>, m1: seq<RenderedMap>, t1: seq<TilemapInfos>,
                          ms: seq<TileMaterialDefinition>, scan: seq<nat>, W: ((nat, nat)) -> seq<nat>, rule: Rule,
                          done: set<(nat, nat)>)
  {
    && Extends(m0, t0, m1, t1)
    && (forall k: nat, q: (nat, nat) :: RedrawnAt(m0, t0, m1, t1, ms, scan, W, rule, done, k, q))
    && (forall q: (nat, nat), c: nat :: EntryAt(t1, scan, W, done, q, c))
  }

  /** Cell q of entry k's tile map in such a redraw: what `CellShows` says
    * when q is in `done`, as it was otherwise. */
  ghost predicate RedrawnAt(m0: seq<RenderedMap>, t0: seq<TilemapInfos>, m1: seq<RenderedMap>, t1: seq<TilemapInfos>,
                            ms: seq<TileMaterialDefinition>, scan: seq<nat>, W: ((nat, nat)) -> seq<nat>, rule: Rule,
                            done: set<(nat, nat)>, k: nat, q: (nat, nat))
  {
    k < |t1| && t1[k].tilemap < |m1| ==>
      if q in done then CellShows(m1[t1[k].tilemap].cells, t1[k], ms, Candidates(scan, Centre(W(q))), W(q), rule, q)
      else Agree(m1[t1[k].tilemap].cells, Base(m0, t0, k), q)
  }

  /** Candidate c of a cell q in `done`, when other than 0, has an entry. */
  ghost predicate EntryAt(t1: seq<TilemapInfos>, scan: seq<nat>, W: ((nat, nat)) -> seq<nat>, done: set<(nat, nat)>,
                          q: (nat, nat), c: nat)
  {
    q in done && c in Candidates(scan, Centre(W(q))) && c != 0 ==> HasEntry(t1, c)
  }

  /** `drawTile` shows the tile it is given and changes no other cell. */
  lemma PaintedShows(cells: map<(nat, nat), DrawnTile>, texturesIndexs: seq<nat>, p: (nat, nat), t: SingleTileDefinition)
    ensures ShowsTile(Painted(cells, texturesIndexs, p.0, p.1, t.tileID, t.textureID), texturesIndexs, p, t)
    ensures KeptBut(Painted(cells, texturesIndexs, p.0, p.1, t.tileID, t.textureID), cells, p)
  {
  }

  /** What a cell shows depends on that cell alone. */
  lemma CellShowsAgree(a: map<(nat, nat), DrawnTile>, b: map<(nat, nat), DrawnTile>, e: TilemapInfos,
                       ms: seq<TileMaterialDefinition>, cands: seq<nat>, w: seq<nat>, rule: Rule, p: (nat, nat))
    requires Agree(a, b, p) && CellShows(a, e, ms, cands, w, rule, p)
    ensures CellShows(b, e, ms, cands, w, rule, p)
  {
    if e.materialIndex in cands {
      var t :| RandomPick(t, TilesOf(ms, e.materialIndex, ShapeSlot(w, rule, e.materialIndex))) && ShowsTile(a, e.texturesIndexs, p, t);
      assert ShowsTile(b, e.texturesIndexs, p, t);
    }
  }

  /** Before any candidate is drawn, a cell cleared in every tracked tile
    * map shows nothing. */
  lemma CellRedrawnStart(m: seq<RenderedMap>, ts: seq<TilemapInfos>, ms: seq<TileMaterialDefinition>, w: seq<nat>,
                         rule: Rule, p: (nat, nat))
    requires forall k :: 0 <= k < |ts| ==> ts[k].tilemap < |m| && p !in m[ts[k].tilemap].cells
    ensures CellRedrawn(m, ts, m, ts, ms, [], w, rule, p)
  {
  }

  /** One more candidate c of cell p, drawn by `setTile` with the shape of
    * its neighbourhood and the picked tile t, took (m1, t1) to (m2, t2):
    * the cell now also shows what `CellShows` says for c. */
  lemma DrawStep(m0: seq<RenderedMap>, t0: seq<TilemapInfos>, m1: seq<RenderedMap>, t1: seq<TilemapInfos>,
                 m2: seq<RenderedMap>, t2: seq<TilemapInfos>, ms: seq<TileMaterialDefinition>, cands: seq<nat>, c: nat,
                 w: seq<nat>, rule: Rule, p: (nat, nat), t: SingleTileDefinition)
    requires |w| == 9 && AllWellFormed(ms) && c !in cands
    requires CellRedrawn(m0, t0, m1, t1, ms, cands, w, rule, p) && DistinctEntries(t1) && RealMaterials(t1)
    requires c == 0 ==> m2 == m1 && t2 == t1
    requires c != 0 ==> RandomPick(t, TilesOf(ms, c, ShapeSlot(w, rule, c)))
    requires c != 0 && FindMaterial(t1, c) == |t1| ==>
      && t2 == t1 + [TilemapInfos(|m1|, TexturesFor(ms, c), c, 0)]
      && m2 == m1 + [RenderedMap(Painted(map[], TexturesFor(ms, c), p.0, p.1, t.tileID, t.textureID), true, AttachDepth)]
    requires c != 0 && FindMaterial(t1, c) < |t1| ==>
      var e := t1[FindMaterial(t1, c)];
      && t2 == t1
      && m2 == m1[e.tilemap := m1[e.tilemap].(cells := Painted(m1[e.tilemap].cells, e.texturesIndexs, p.0, p.1, t.tileID, t.textureID))]
    ensures CellRedrawn(m0, t0, m2, t2, ms, cands + [c], w, rule, p)
  {
    if c == 0 {
      forall k | 0 <= k < |t2|
        ensures CellShows(m2[t2[k].tilemap].cells, t2[k], ms, cands + [c], w, rule, p)
      {
        assert t2[k].materialIndex in cands + [c] <==> t2[k].materialIndex in cands;
      }
    } else {
      DrawMaterialStep(m0, t0, m1, t1, m2, t2, ms, cands, c, w, rule, p, t);
    }
  }

  /** `DrawStep` for a material other than 0: the entry of c, found or
    * appended, shows the picked tile, and every other entry is as it was. */
  lemma DrawMaterialStep(m0: seq<RenderedMap>, t0: seq<TilemapInfos>, m1: seq<RenderedMap>, t1: seq<TilemapInfos>,
                         m2: seq<RenderedMap>, t2: seq<TilemapInfos>, ms: seq<TileMaterialDefinition>, cands: seq<nat>, c: nat,
                         w: seq<nat>, rule: Rule, p: (nat, nat), t: SingleTileDefinition)
    requires |w| == 9 && AllWellFormed(ms) && c !in cands && c != 0
    requires CellRedrawn(m0, t0, m1, t1, ms, cands, w, rule, p) && DistinctEntries(t1) && RealMaterials(t1)
    requires RandomPick(t, TilesOf(ms, c, ShapeSlot(w, rule, c)))
    requires FindMaterial(t1, c) == |t1| ==>
      && t2 == t1 + [TilemapInfos(|m1|, TexturesFor(ms, c), c, 0)]
      && m2 == m1 + [RenderedMap(Painted(map[], TexturesFor(ms, c), p.0, p.1, t.tileID, t.textureID), true, AttachDepth)]
    requires FindMaterial(t1, c) < |t1| ==>
      var e := t1[FindMaterial(t1, c)];
      && t2 == t1
      && m2 == m1[e.tilemap := m1[e.tilemap].(cells := Painted(m1[e.tilemap].cells, e.texturesIndexs, p.0, p.1, t.tileID, t.textureID))]
    ensures CellRedrawn(m0, t0, m2, t2, ms, cands + [c], w, rule, p)
  {
    var k0 := FindMaterial(t1, c);
    var e := if k0 < |t1| then t1[k0] else TilemapInfos(|m1|, TexturesFor(ms, c), c, 0);
    var before := if k0 < |t1| then m1[e.tilemap].cells else map[];
    var after := Painted(before, e.texturesIndexs, p.0, p.1, t.tileID, t.textureID);
    PaintedShows(before, e.texturesIndexs, p, t);
    assert k0 < |t2| && t2[k0] == e && m2[e.tilemap].cells == after;
    DrawnEntry(m0, t0, m1, t1, m2, t2, ms, cands, c, w, rule, p, t, k0, before, after);
    forall k | 0 <= k < |t2| && k != k0
      ensures KeptBut(m2[t2[k].tilemap].cells, Base(m0, t0, k), p)
      ensures CellShows(m2[t2[k].tilemap].cells, t2[k], ms, cands + [c], w, rule, p)
    {
      assert k < |t1| && t2[k] == t1[k] && t2[k].tilemap != e.tilemap;
      assert m2[t2[k].tilemap] == m1[t1[k].tilemap];
      assert t2[k].materialIndex in cands + [c] <==> t2[k].materialIndex in cands;
    }
    assert HasEntry(t2, c) by {
      assert t2[k0].materialIndex == c;
    }
  }

  /** The entry of the candidate `setTile` drew, existing or new, shows the
    * picked tile at p and is otherwise as it was. */
  lemma DrawnEntry(m0: seq<RenderedMap>, t0: seq<TilemapInfos>, m1: seq<RenderedMap>, t1: seq<TilemapInfos>,
                   m2: seq<RenderedMap>, t2: seq<TilemapInfos>, ms: seq<TileMaterialDefinition>, cands: seq<nat>, c: nat,
                   w: seq<nat>, rule: Rule, p: (nat, nat), t: SingleTileDefinition, k0: nat,
                   before: map<(nat, nat), DrawnTile>, after: map<(nat, nat), DrawnTile>)
    requires |w| == 9 && AllWellFormed(ms) && RandomPick(t, TilesOf(ms, c, ShapeSlot(w, rule, c)))
    requires Extends(m0, t0, m1, t1) && k0 < |t2| && t2[k0].materialIndex == c && t2[k0].tilemap < |m2|
    requires k0 < |t1| ==> t2[k0] == t1[k0] && before == m1[t1[k0].tilemap].cells && KeptBut(before, Base(m0, t0, k0), p)
    requires k0 >= |t1| ==> before == map[] && k0 >= |t0|
    requires m2[t2[k0].tilemap].cells == after
    requires ShowsTile(after, t2[k0].texturesIndexs, p, t) && KeptBut(after, before, p)
    ensures KeptBut(m2[t2[k0].tilemap].cells, Base(m0, t0, k0), p)
    ensures CellShows(m2[t2[k0].tilemap].cells, t2[k0], ms, cands + [c], w, rule, p)
  {
    forall q | q != p
      ensures Agree(after, Base(m0, t0, k0), q)
    {
      assert Agree(after, before, q);
      assert Agree(before, Base(m0, t0, k0), q);
    }
    assert c in cands + [c];
    assert ShowsPick(after, t2[k0].texturesIndexs, TilesOf(ms, c, ShapeSlot(w, rule, c)), p);
  }

  /** Clearing cell p in every tracked tile map, then redrawing it, is a
    * redraw of p from the state before the clearing. */
  lemma ClearedThenDrawn(m0: seq<RenderedMap>, m1: seq<RenderedMap>, ts: seq<TilemapInfos>, m2: seq<RenderedMap>,
                         t2: seq<TilemapInfos>, ms: seq<TileMaterialDefinition>, cands: seq<nat>, w: seq<nat>, rule: Rule,
                         p: (nat, nat))
    requires |m1| == |m0|
    requires forall h :: 0 <= h < |m1| ==>
      m1[h] == if h in Handles(ts) then m0[h].(cells := m0[h].cells - {p}) else m0[h]
    requires CellRedrawn(m1, ts, m2, t2, ms, cands, w, rule, p)
    ensures CellRedrawn(m0, ts, m2, t2, ms, cands, w, rule, p)
  {
    forall k, q | 0 <= k < |t2| && q != p
      ensures Agree(m2[t2[k].tilemap].cells, Base(m0, ts, k), q)
    {
      assert Agree(m2[t2[k].tilemap].cells, Base(m1, ts, k), q);
      if k < |ts| {
        assert ts[k].tilemap in Handles(ts) by { assert ts[k] in ts; }
      }
    }
  }

  /** A redraw that has redrawn no cell yet. */
  lemma RedrawnStart(m: seq<RenderedMap>, ts: seq<TilemapInfos>, ms: seq<TileMaterialDefinition>, scan: seq<nat>,
                     W: ((nat, nat)) -> seq<nat>, rule: Rule)
    requires forall k :: 0 <= k < |ts| ==> ts[k].tilemap < |m|
    ensures Redrawn(m, ts, m, ts, ms, scan, W, rule, {})
  {
  }

  /** Redrawing one more cell p with its own window and candidates extends
    * a redraw by p. */
  lemma RedrawnStep(m0: seq<RenderedMap>, t0: seq<TilemapInfos>, m1: seq<RenderedMap>, t1: seq<TilemapInfos>,
                    m2: seq<RenderedMap>, t2: seq<TilemapInfos>, ms: seq<TileMaterialDefinition>, scan: seq<nat>,
                    W: ((nat, nat)) -> seq<nat>, rule: Rule, done: set<(nat, nat)>, p: (nat, nat))
    requires Redrawn(m0, t0, m1, t1, ms, scan, W, rule, done) && p !in done
    requires CellRedrawn(m1, t1, m2, t2, ms, Candidates(scan, Centre(W(p))), W(p), rule, p)
    requires DistinctEntries(t2) && RealMaterials(t2)
    ensures Redrawn(m0, t0, m2, t2, ms, scan, W, rule, done + {p})
  {
    forall k: nat, q: (nat, nat)
      ensures RedrawnAt(m0, t0, m2, t2, ms, scan, W, rule, done + {p}, k, q)
    {
      if k < |t2| {
        assert RedrawnAt(m0, t0, m1, t1, ms, scan, W, rule, done, k, q);
        var cells := m2[t2[k].tilemap].cells;
        if q in done {
          assert Agree(cells, Base(m1, t1, k), q);
          if k < |t1| {
            CellShowsAgree(m1[t1[k].tilemap].cells, cells, t2[k], ms, Candidates(scan, Centre(W(q))), W(q), rule, q);
          } else {
            var mat := t2[k].materialIndex;
            assert !HasEntry(t1, mat) by {
              forall j | 0 <= j < |t1|
                ensures t1[j].materialIndex != mat
              {
                assert t2[j] == t1[j];
              }
            }
            assert EntryAt(t1, scan, W, done, q, mat);
          }
        } else if q != p {
          assert Agree(cells, Base(m1, t1, k), q);
        }
      }
    }
    forall q: (nat, nat), c: nat
      ensures EntryAt(t2, scan, W, done + {p}, q, c)
    {
      if q in done && c in Candidates(scan, Centre(W(q))) && c != 0 {
        assert EntryAt(t1, scan, W, done, q, c);
        var j :| 0 <= j < |t1| && t1[j].materialIndex == c;
        assert t2[j] == t1[j];
      }
    }
  }

  /** `r` holds the world's layer-0 tiles of the w × h rectangle at
    * (x0, y0). */
  ghost predicate ReadsWorld(r: Read, vs: seq<ChunkView>, width: nat, height: nat, x0: int, y0: int, w: nat, h: nat)
  {
    && r.Valid() && r.width == w && r.height == h
    && width > 0 && height > 0 && |vs| == width * height && (forall i :: 0 <= i < |vs| ==> WellFormed(vs[i]))
    && forall k: nat, l: nat :: k < w && l < h ==> ReadsWorldAt(r, vs, width, height, x0, y0, k, l)
  }

  /** Cell (k, l) of the read holds the world's layer-0 tile at
    * (x0 + k, y0 + l). */
  ghost predicate ReadsWorldAt(r: Read, vs: seq<ChunkView>, width: nat, height: nat, x0: int, y0: int, k: nat, l: nat)
    requires r.Valid() && k < r.width && l < r.height
    requires width > 0 && height > 0 && |vs| == width * height && (forall i :: 0 <= i < |vs| ==> WellFormed(vs[i]))
  {
    r.Get(k, l) == WorldTile(vs, width, height, x0 + k, y0 + l, 0)
  }

  /** The cells of a chunk. */
  function ChunkCells(): set<(nat, nat)>
  {
    set a: nat, b: nat | a < ChunkSize && b < ChunkSize :: (a, b)
  }

  /** The cells of a full redraw before cell (i, j): the columns before i,
    * and the rows before j of column i. */
  function ChunkBefore(i: nat, j: nat): set<(nat, nat)>
  {
    set a: nat, b: nat | a <= i && b < ChunkSize && (a < i || b < j) :: (a, b)
  }

  /** The cells of the chunk a tile change at (x, y) redraws: those around
    * (x, y) that lie in the chunk, none when x or y is 0. */
  function AroundCells(x: nat, y: nat): set<(nat, nat)>
  {
    set a: nat, b: nat | x > 0 && y > 0 && x - 1 <= a <= x + 1 && a < ChunkSize && y - 1 <= b <= y + 1 && b < ChunkSize :: (a, b)
  }

  /** The cells of a tile change at (x, y) redrawn before cell (i, j). */
  function AroundBefore(x: nat, y: nat, i: int, j: int): set<(nat, nat)>
  {
    set a: nat, b: nat | x > 0 && y > 0 && x - 1 <= a <= x + 1 && a < ChunkSize && y - 1 <= b <= y + 1 && b < ChunkSize
      && (a < i || (a == i && b < j)) :: (a, b)
  }

  /** A full redraw adds one cell at a time and passes from one column to
    * the next. */
  lemma ChunkBeforeSteps(i: nat, j: nat)
    requires i < ChunkSize && j < ChunkSize
    ensures (i, j) !in ChunkBefore(i, j) && ChunkBefore(i, j) + {(i, j)} == ChunkBefore(i, j + 1)
    ensures ChunkBefore(i, ChunkSize) == ChunkBefore(i + 1, 0)
  {
  }

  /** A full redraw starts with no cell and ends with the whole chunk. */
  lemma ChunkBeforeEnds()
    ensures ChunkBefore(0, 0) == {}
    ensures ChunkBefore(ChunkSize, 0) == ChunkCells()
  {
  }

  /** A tile change at (x, y) starts with no cell; a visited cell in the
    * chunk is added, one outside it adds nothing; a column ends where the
    * next begins; the last column ends with the cells around (x, y). */
  lemma AroundBeforeSteps(x: nat, y: nat, i: int, j: int)
    requires x < ChunkSize && y < ChunkSize && x - 1 <= i <= x + 1 && y - 1 <= j <= y + 1
    ensures AroundBefore(x, y, x - 1, y - 1) == {}
    ensures 0 <= i < ChunkSize && 0 <= j < ChunkSize && x > 0 && y > 0 ==>
      (i, j) !in AroundBefore(x, y, i, j) && AroundBefore(x, y, i, j) + {(i, j)} == AroundBefore(x, y, i, j + 1)
    ensures !(0 <= i < ChunkSize && 0 <= j < ChunkSize) ==> AroundBefore(x, y, i, j) == AroundBefore(x, y, i, j + 1)
    ensures AroundBefore(x, y, i, LoopEnd(y)) == AroundBefore(x, y, i + 1, y - 1)
    ensures AroundBefore(x, y, LoopEnd(x), y - 1) == AroundCells(x, y)
  {
  }

  /** A grid of `size` chunks per axis whose tile positions, with a margin
    * of one chunk, fit an `int`. */
  predicate Renderable(size: nat)
  {
    0 < size && size * ChunkSize + ChunkSize <= IntMax
  }

  /** `tilePosToPos(t, worldToLocalChunkPos(c))` on one axis: the world
    * position of tile t of the chunk at world coordinate c, which no
    * wrap-around disturbs in a renderable grid. */
  function CellPosition(t: nat, c: int, size: nat): (p: int)
    requires t < ChunkSize && IsInt(c) && Renderable(size)
    ensures p == t + (c % size) * ChunkSize
    ensures 0 <= p < size * ChunkSize
  {
    WorldToLocalIsMod(c, size);
    MulLeftMono(ChunkSize, WorldToLocal(c, size), size - 1);
    TilePosToPosExact(t, WorldToLocal(c, size));
    TilePosToPos(t, ToUnsigned(WorldToLocal(c, size)))
  }

  /** `ChunkGroundRenderBehaviour`: draws layer 0 of the chunk at world
    * chunk (chunkX, chunkY) as one tile map per material. */
  class ChunkGroundRender {
    const world: WorldMap
    const definition: TileDefinition
    const chunkX: int
    const chunkY: int
    /** The behaviour's entries, one per material being drawn. */
    var tilemaps: seq<TilemapInfos>
    /** Every tile map the behaviour created, by handle, as the renderer
      * holds it. */
    var maps: seq<RenderedMap>
    /** The calls made to the world renderer's border update, in order. */
    var borderUpdates: seq<BorderUpdate>
    /** The tiles the last redraw read from the world (the source drops its
      * copy once the redraw is done). */
    ghost var lastRead: Read
    /** The entries the last `cleanLayers` dropped. */
    ghost var dropped: seq<TilemapInfos>

    /** The behaviour's own invariant; the world's is required separately
      * by the operations that read it. */
    ghost predicate Valid()
      reads this, world, definition
    {
      Settled() && Tracked()
    }

    /** What the behaviour's own updates leave alone: its definitions are
      * well formed, its world is renderable, and its position fits an
      * `int`. */
    ghost predicate Settled()
      reads world, definition
    {
      && definition.Valid() && this !in world.Repr
      && Renderable(world.width) && Renderable(world.height) && IsInt(chunkX) && IsInt(chunkY)
    }

    /** Every entry names a tile map the renderer holds, is for a material
      * other than 0 and has no set tile counted; no two entries share a
      * tile map or a material. */
    ghost predicate Tracked()
      reads this
    {
      && (forall k :: 0 <= k < |tilemaps| ==> tilemaps[k].tilemap < |maps| && tilemaps[k].setTilesCount == 0)
      && DistinctEntries(tilemaps) && RealMaterials(tilemaps)
    }

    /** After a full redraw: the last read holds the world `vs`'s layer-0
      * tiles of the 34×34 square one tile around the chunk, and every cell
      * of the chunk shows, in the tile maps that started as m0, what
      * `Redrawn` says for that read under the centre-match rule. */
    ghost predicate FullyRedrawn(m0: seq<RenderedMap>, vs: seq<ChunkView>)
      reads this, world, definition
    {
      && Settled()
      && ReadsWorld(lastRead, vs, world.width, world.height,
                    CellPosition(0, chunkX, world.width) - 1, CellPosition(0, chunkY, world.height) - 1, ChunkSize + 2, ChunkSize + 2)
      && Redrawn(m0, [], maps, dropped, definition.materials, ScanWindow(lastRead, 0, 0), Windows(lastRead, 0, 0), CentreMatch, ChunkCells())
    }

    /** Creates the behaviour and, the chunk always having its static
      * layers, draws the whole chunk: every cell of every new tile map
      * shows what `Redrawn` says for the 34×34 read of the world around
      * the chunk. */
    constructor (world: WorldMap, chunkX: int, chunkY: int, definition: TileDefinition)
      requires world.Valid() && definition.Valid() && Renderable(world.width) && Renderable(world.height)
      requires IsInt(chunkX) && IsInt(chunkY)
      ensures Valid() && this.world == world && this.definition == definition
      ensures this.chunkX == chunkX && this.chunkY == chunkY
      ensures tilemaps == [] && borderUpdates == FullMapBorderUpdates(chunkX, chunkY)
      ensures forall h :: 0 <= h < |maps| ==> maps[h].attached && maps[h].depth == AttachDepth
      ensures FullyRedrawn([], old(world.View()))
    {
      this.world := world;
      this.definition := definition;
      this.chunkX := chunkX;
      this.chunkY := chunkY;
      tilemaps := [];
      maps := [];
      borderUpdates := [];
      lastRead := Read([], 0, 0);
      dropped := [];
      new;
      WorldMap.Framed(world);
      assert Detached([], Handles([])) == [];
      OnFullMapChange();
    }

    /** A new behaviour for the same chunk, world and definitions. */
    method Clone() returns (r: ChunkGroundRender)
      requires Valid() && world.Valid()
      ensures fresh(r) && r.Valid() && r.world == world && r.definition == definition
      ensures r.chunkX == chunkX && r.chunkY == chunkY
      ensures r.tilemaps == [] && r.borderUpdates == FullMapBorderUpdates(chunkX, chunkY)
    {
      r := new ChunkGroundRender(world, chunkX, chunkY, definition);
    }

    /** `drawTile`: paints cell (x, y) of entry k's tile map. */
    method DrawTile(k: nat, x: nat, y: nat, id: nat, textureIndex: nat)
      requires Valid() && k < |tilemaps|
      modifies this
      ensures Valid() && tilemaps == old(tilemaps) && borderUpdates == old(borderUpdates)
      ensures var h := tilemaps[k].tilemap;
        maps == old(maps)[h := old(maps)[h].(cells := Painted(old(maps)[h].cells, tilemaps[k].texturesIndexs, x, y, id, textureIndex))]
      ensures MapsGrew(old(maps), Handles(tilemaps), maps)
    {
      assert tilemaps[k].tilemap in Handles(tilemaps) by { assert tilemaps[k] in tilemaps; }
      var info := tilemaps[k];
      var rendered := maps[info.tilemap];
      if id == 0 {
        maps := maps[info.tilemap := rendered.(cells := rendered.cells - {(x, y)})];
        return;
      }
      var texID := IndexOf(info.texturesIndexs, textureIndex);
      if texID == |info.texturesIndexs| {
        maps := maps[info.tilemap := rendered.(cells := rendered.cells - {(x, y)})];
        return;
      }
      maps := maps[info.tilemap := rendered.(cells := rendered.cells[(x, y) := DrawnTile(texID, id)])];
    }

    /** `clearTile`: disables cell (x, y) in every tracked tile map. */
    method ClearTile(x: nat, y: nat)
      requires Valid()
      modifies this
      ensures Valid() && tilemaps == old(tilemaps) && borderUpdates == old(borderUpdates) && |maps| == |old(maps)|
      ensures forall h :: 0 <= h < |maps| ==>
        maps[h] == if h in Handles(tilemaps) then old(maps)[h].(cells := old(maps)[h].cells - {(x, y)}) else old(maps)[h]
      ensures MapsGrew(old(maps), Handles(old(tilemaps)), maps)
    {
      for k := 0 to |tilemaps|
        invariant Valid() && tilemaps == old(tilemaps) && borderUpdates == old(borderUpdates) && |maps| == |old(maps)|
        invariant forall h :: 0 <= h < |maps| ==>
          maps[h] == if h in Handles(tilemaps[..k]) then old(maps)[h].(cells := old(maps)[h].cells - {(x, y)}) else old(maps)[h]
      {
        DrawTile(k, x, y, 0, 0);
        HandlesAppend(tilemaps, k);
      }
      assert tilemaps[..|tilemaps|] == tilemaps;
    }

    /** `setTile`: draws material `mat` with the given shape at cell (x, y),
      * creating and attaching the material's tile map on first use.
      * Material 0 is never drawn. The tile drawn is `t`, one the random
      * pick may return for the material's tiles of that shape. */
    method SetTile(mat: nat, slot: nat, x: nat, y: nat) returns (ghost t: SingleTileDefinition)
      requires Valid() && slot < ConnexionCount
      modifies this
      ensures Valid() && borderUpdates == old(borderUpdates)
      ensures MapsGrew(old(maps), Handles(old(tilemaps)), maps) && TilemapsGrew(old(tilemaps), |old(maps)|, tilemaps)
      ensures mat == 0 ==> tilemaps == old(tilemaps) && maps == old(maps)
      ensures mat != 0 ==> RandomPick(t, TilesOf(definition.materials, mat, slot))
      ensures mat != 0 && FindMaterial(old(tilemaps), mat) == |old(tilemaps)| ==>
        && tilemaps == old(tilemaps) + [TilemapInfos(|old(maps)|, TexturesFor(definition.materials, mat), mat, 0)]
        && maps == old(maps) + [RenderedMap(Painted(map[], TexturesFor(definition.materials, mat), x, y, t.tileID, t.textureID), true, AttachDepth)]
      ensures mat != 0 && FindMaterial(old(tilemaps), mat) < |old(tilemaps)| ==>
        var info := old(tilemaps)[FindMaterial(old(tilemaps), mat)];
        && tilemaps == old(tilemaps)
        && maps == old(maps)[info.tilemap := old(maps)[info.tilemap].(cells := Painted(old(maps)[info.tilemap].cells, info.texturesIndexs, x, y, t.tileID, t.textureID))]
    {
      t := NoTile;
      if mat == 0 {
        return;
      }
      var k := FindMaterial(tilemaps, mat);
      if k == |tilemaps| {
        AddTilemap(mat);
      } else {
        GrewReflexive(maps, tilemaps);
      }
      ghost var (m1, t1) := (maps, tilemaps);
      var tile := definition.GetRandomTile(mat, slot);
      t := tile;
      DrawTile(k, x, y, tile.tileID, tile.textureID);
      GrewTransitive(old(maps), old(tilemaps), m1, t1, maps, tilemaps);
      if k == |old(tilemaps)| {
        assert maps == old(maps) + [RenderedMap(Painted(map[], TexturesFor(definition.materials, mat), x, y, t.tileID, t.textureID), true, AttachDepth)];
      }
    }

    /** The part of `setTile` for a material without a tile map: a new one
      * is created, attached at the attach depth and tracked with the
      * material's texture ids. The source asserts that the material is
      * allowed on layer 0, a debug check this model does not make. */
    method AddTilemap(mat: nat)
      requires Valid() && mat != 0 && FindMaterial(tilemaps, mat) == |tilemaps|
      modifies this
      ensures Valid() && borderUpdates == old(borderUpdates)
      ensures tilemaps == old(tilemaps) + [TilemapInfos(|old(maps)|, TexturesFor(definition.materials, mat), mat, 0)]
      ensures maps == old(maps) + [RenderedMap(map[], true, AttachDepth)]
      ensures MapsGrew(old(maps), Handles(old(tilemaps)), maps) && TilemapsGrew(old(tilemaps), |old(maps)|, tilemaps)
    {
      var textures := definition.TexturesIndexsForMaterial(mat);
      maps := maps + [RenderedMap(map[], true, AttachDepth)];
      tilemaps := tilemaps + [TilemapInfos(|maps| - 1, textures, mat, 0)];
    }

    /** One step of the redraw of cell (x, y): a candidate above the
      * centre's material or already drawn is skipped; otherwise it is drawn
      * with the shape of its neighbourhood in `w` under `rule` and added to
      * the drawn ones. A cell that showed what the candidates drawn so far
      * call for, since the state (m0, t0), still does with this one. */
    method DrawCandidate(w: seq<nat>, rule: Rule, x: nat, y: nat, candidate: nat, setMats: seq<nat>,
                         ghost m0: seq<RenderedMap>, ghost t0: seq<TilemapInfos>)
      returns (drawn: seq<nat>)
      requires Valid() && |w| == 9
      requires CellRedrawn(m0, t0, maps, tilemaps, definition.materials, setMats, w, rule, (x, y))
      modifies this
      ensures Valid() && borderUpdates == old(borderUpdates)
      ensures MapsGrew(old(maps), Handles(old(tilemaps)), maps) && TilemapsGrew(old(tilemaps), |old(maps)|, tilemaps)
      ensures drawn == if candidate > w[4] || candidate in setMats then setMats else setMats + [candidate]
      ensures CellRedrawn(m0, t0, maps, tilemaps, definition.materials, drawn, w, rule, (x, y))
    {
      drawn := setMats;
      if candidate > w[4] || candidate in setMats {
        return;
      }
      drawn := setMats + [candidate];
      var tiles := Neighbourhood(w, rule, candidate);
      // A release build classifies the neighbourhood whether or not its
      // centre is set (see `ClearedCentreClassifiesAsSet`).
      ghost var t := SetTile(candidate, ConnexionIndex(Classify(NeighboursOf(tiles))), x, y);
      DrawStep(m0, t0, old(maps), old(tilemaps), maps, tilemaps, definition.materials, setMats, candidate, w, rule, (x, y), t);
    }

    /** The drawing of cell (x, y), cleared beforehand in every tracked tile
      * map: the candidate materials are taken in the order of `scan` (a
      * window in scan order), and each is drawn with the shape of its
      * neighbourhood in `w` (a window in local-matrix order) under `rule`;
      * the centre of `w` is the cell's own material. Returns the candidates
      * drawn, in order. */
    method DrawCell(scan: seq<nat>, w: seq<nat>, rule: Rule, x: nat, y: nat) returns (setMats: seq<nat>)
      requires Valid() && |scan| == 9 && |w| == 9
      requires forall k :: 0 <= k < |tilemaps| ==> (x, y) !in maps[tilemaps[k].tilemap].cells
      modifies this
      ensures Valid() && borderUpdates == old(borderUpdates)
      ensures MapsGrew(old(maps), Handles(old(tilemaps)), maps) && TilemapsGrew(old(tilemaps), |old(maps)|, tilemaps)
      ensures setMats == Candidates(scan, w[4])
      ensures CellRedrawn(old(maps), old(tilemaps), maps, tilemaps, definition.materials, setMats, w, rule, (x, y))
    {
      setMats := [];
      CellRedrawnStart(maps, tilemaps, definition.materials, w, rule, (x, y));
      for a := 0 to 3
        invariant Valid() && borderUpdates == old(borderUpdates)
        invariant MapsGrew(old(maps), Handles(old(tilemaps)), maps) && TilemapsGrew(old(tilemaps), |old(maps)|, tilemaps)
        invariant setMats == Candidates(scan[..3 * a], w[4])
        invariant CellRedrawn(old(maps), old(tilemaps), maps, tilemaps, definition.materials, setMats, w, rule, (x, y))
      {
        for b := 0 to 3
          invariant Valid() && borderUpdates == old(borderUpdates)
          invariant MapsGrew(old(maps), Handles(old(tilemaps)), maps) && TilemapsGrew(old(tilemaps), |old(maps)|, tilemaps)
          invariant setMats == Candidates(scan[..3 * a + b], w[4])
          invariant CellRedrawn(old(maps), old(tilemaps), maps, tilemaps, definition.materials, setMats, w, rule, (x, y))
        {
          CandidatesStep(scan, 3 * a + b, w[4]);
          ghost var (m1, t1) := (maps, tilemaps);
          setMats := DrawCandidate(w, rule, x, y, scan[3 * a + b], setMats, old(maps), old(tilemaps));
          GrewTransitive(old(maps), old(tilemaps), m1, t1, maps, tilemaps);
        }
      }
      assert scan[..9] == scan;
    }

    /** The redraw of cell (x, y): cleared in every tracked tile map, then
      * drawn with the candidates of `scan`, each with the shape of its
      * neighbourhood in `w` under `rule`. */
    method RedrawCell(scan: seq<nat>, w: seq<nat>, rule: Rule, x: nat, y: nat)
      requires Valid() && |scan| == 9 && |w| == 9
      modifies this
      ensures Valid() && borderUpdates == old(borderUpdates)
      ensures MapsGrew(old(maps), Handles(old(tilemaps)), maps) && TilemapsGrew(old(tilemaps), |old(maps)|, tilemaps)
      ensures CellRedrawn(old(maps), old(tilemaps), maps, tilemaps, definition.materials, Candidates(scan, w[4]), w, rule, (x, y))
    {
      ClearTile(x, y);
      ghost var (m1, t1) := (maps, tilemaps);
      forall k | 0 <= k < |tilemaps|
        ensures (x, y) !in maps[tilemaps[k].tilemap].cells
      {
        assert tilemaps[k].tilemap in Handles(tilemaps) by { assert tilemaps[k] in tilemaps; }
      }
      var _ := DrawCell(scan, w, rule, x, y);
      GrewTransitive(old(maps), old(tilemaps), m1, t1, maps, tilemaps);
      ClearedThenDrawn(old(maps), m1, t1, maps, tilemaps, definition.materials, Candidates(scan, w[4]), w, rule, (x, y));
    }

    /** Part way through a redraw from (m0, t0) that takes every cell's
      * candidates from `scan` and classifies cell q with window W(q) under
      * `rule`: the behaviour is valid, its tile maps and entries have only
      * grown since, and the cells `done` are redrawn. */
    ghost predicate RedrawnSince(m0: seq<RenderedMap>, t0: seq<TilemapInfos>, scan: seq<nat>, W: ((nat, nat)) -> seq<nat>,
                                 rule: Rule, done: set<(nat, nat)>)
      reads this, world, definition
    {
      && Valid()
      && MapsGrew(m0, Handles(t0), maps) && TilemapsGrew(t0, |m0|, tilemaps)
      && Redrawn(m0, t0, maps, tilemaps, definition.materials, scan, W, rule, done)
    }

    /** Part way through a full redraw from (m0, t0) with the 34×34 read
      * `r`: the cells before (i, j) are redrawn. */
    ghost predicate CellsDone(m0: seq<RenderedMap>, t0: seq<TilemapInfos>, r: Read, i: nat, j: nat)
      requires r.Valid() && r.width == ChunkSize + 2 && r.height == ChunkSize + 2
      reads this, world, definition
    {
      exists done :: done == ChunkBefore(i, j) && RedrawnSince(m0, t0, ScanWindow(r, 0, 0), Windows(r, 0, 0), CentreMatch, done)
    }

    /** A redraw from the current state, no cell redrawn yet. */
    lemma RedrawnSinceStart(scan: seq<nat>, W: ((nat, nat)) -> seq<nat>, rule: Rule)
      requires Valid()
      ensures RedrawnSince(maps, tilemaps, scan, W, rule, {})
    {
      GrewReflexive(maps, tilemaps);
      RedrawnStart(maps, tilemaps, definition.materials, scan, W, rule);
    }

    /** Redraws cell p as one more cell of a redraw from (m0, t0). */
    method RedrawNext(scan: seq<nat>, w: seq<nat>, rule: Rule, p: (nat, nat), ghost W: ((nat, nat)) -> seq<nat>,
                      ghost m0: seq<RenderedMap>, ghost t0: seq<TilemapInfos>, ghost done: set<(nat, nat)>)
      requires |scan| == 9 && |w| == 9 && W(p) == w && p !in done
      requires RedrawnSince(m0, t0, scan, W, rule, done)
      modifies this
      ensures borderUpdates == old(borderUpdates)
      ensures RedrawnSince(m0, t0, scan, W, rule, done + {p})
    {
      RedrawCell(scan, w, rule, p.0, p.1);
      GrewTransitive(m0, t0, old(maps), old(tilemaps), maps, tilemaps);
      RedrawnStep(m0, t0, old(maps), old(tilemaps), maps, tilemaps, definition.materials, scan, W, rule, done, p);
    }

    /** `onLayerRemove`: detaches every tracked tile map and forgets them. */
    method OnLayerRemove()
      requires Valid()
      modifies this
      ensures Valid() && tilemaps == [] && borderUpdates == old(borderUpdates)
      ensures maps == Detached(old(maps), Handles(old(tilemaps)))
    {
      for k := 0 to |tilemaps|
        invariant Valid() && tilemaps == old(tilemaps) && borderUpdates == old(borderUpdates) && |maps| == |old(maps)|
        invariant forall h :: 0 <= h < |maps| ==>
          maps[h] == if h in Handles(tilemaps[..k]) then old(maps)[h].(attached := false) else old(maps)[h]
      {
        maps := maps[tilemaps[k].tilemap := maps[tilemaps[k].tilemap].(attached := false)];
        HandlesAppend(tilemaps, k);
      }
      assert tilemaps[..|tilemaps|] == tilemaps;
      assert maps == Detached(old(maps), Handles(old(tilemaps)));
      tilemaps := [];
    }

    /** `updateMaterialsHeights`: stacks the tracked tile maps by ascending
      * material (see `HeightsAscending`). */
    method UpdateMaterialsHeights()
      requires Valid()
      modifies this
      ensures Valid() && tilemaps == old(tilemaps) && borderUpdates == old(borderUpdates) && |maps| == |old(maps)|
      ensures forall h :: 0 <= h < |maps| && h !in Handles(tilemaps) ==> maps[h] == old(maps)[h]
      ensures forall k :: 0 <= k < |tilemaps| ==>
        maps[tilemaps[k].tilemap] == old(maps)[tilemaps[k].tilemap].(depth := Height(tilemaps, tilemaps[k].materialIndex))
    {
      maps := Restack(maps, tilemaps);
    }

    /** `cleanLayers`: drops the entries without a set tile, which is all
      * of them, then restacks the rest. The dropped tile maps stay attached
      * to the renderer. */
    method CleanLayers()
      requires Valid()
      modifies this
      ensures Valid() && tilemaps == KeepCounted(old(tilemaps)) && tilemaps == [] && dropped == old(tilemaps)
      ensures maps == old(maps) && borderUpdates == old(borderUpdates)
    {
      UncountedAllDropped(tilemaps);
      tilemaps := KeepCounted(tilemaps);
      UpdateMaterialsHeights();
      dropped := old(tilemaps);
      assert forall h :: 0 <= h < |maps| ==> maps[h] == old(maps)[h];
    }

    /** The cells of column `i` of a full redraw from the 34×34 read `r`:
      * each is redrawn with its own window and the candidates of the
      * read's origin window, extending a redraw from (m0, t0) of the
      * columns before `i` by column `i`. */
    method RedrawColumn(r: Read, i: nat, ghost m0: seq<RenderedMap>, ghost t0: seq<TilemapInfos>)
      requires r.Valid() && r.width == ChunkSize + 2 && r.height == ChunkSize + 2 && i < ChunkSize
      requires CellsDone(m0, t0, r, i, 0)
      modifies this
      ensures borderUpdates == old(borderUpdates)
      ensures CellsDone(m0, t0, r, i + 1, 0)
    {
      for j := 0 to ChunkSize
        invariant borderUpdates == old(borderUpdates)
        invariant CellsDone(m0, t0, r, i, j)
      {
        ChunkBeforeSteps(i, j);
        assert Windows(r, 0, 0)((i, j)) == Window(r, i, j);
        RedrawNext(ScanWindow(r, 0, 0), Window(r, i, j), CentreMatch, (i, j), Windows(r, 0, 0), m0, t0, ChunkBefore(i, j));
      }
      ChunkBeforeSteps(i, 0);
    }

    /** All 32×32 cells of a full redraw from the 34×34 read `r`, column by
      * column. */
    method RedrawCells(r: Read)
      requires Valid() && r.Valid() && r.width == ChunkSize + 2 && r.height == ChunkSize + 2
      modifies this
      ensures borderUpdates == old(borderUpdates)
      ensures RedrawnSince(old(maps), old(tilemaps), ScanWindow(r, 0, 0), Windows(r, 0, 0), CentreMatch, ChunkCells())
    {
      RedrawnSinceStart(ScanWindow(r, 0, 0), Windows(r, 0, 0), CentreMatch);
      ChunkBeforeEnds();
      for i := 0 to ChunkSize
        invariant borderUpdates == old(borderUpdates)
        invariant CellsDone(old(maps), old(tilemaps), r, i, 0)
      {
        RedrawColumn(r, i, old(maps), old(tilemaps));
      }
      ChunkBeforeEnds();
    }

    /** The four corner updates, then the four side updates for each
      * position along the sides. */
    method SendFullBorderUpdates()
      modifies this
      ensures tilemaps == old(tilemaps) && maps == old(maps)
      ensures borderUpdates == old(borderUpdates) + FullMapBorderUpdates(chunkX, chunkY)
    {
      borderUpdates := borderUpdates + CornerUpdates(chunkX, chunkY);
      for s := 0 to ChunkSize
        invariant tilemaps == old(tilemaps) && maps == old(maps)
        invariant borderUpdates == old(borderUpdates) + CornerUpdates(chunkX, chunkY) + SideUpdates(chunkX, chunkY, s)
      {
        borderUpdates := borderUpdates + [BorderUpdate(chunkX - 1, chunkY, ChunkSize - 1, s, 0)];
        borderUpdates := borderUpdates + [BorderUpdate(chunkX + 1, chunkY, 0, s, 0)];
        borderUpdates := borderUpdates + [BorderUpdate(chunkX, chunkY - 1, s, ChunkSize - 1, 0)];
        borderUpdates := borderUpdates + [BorderUpdate(chunkX, chunkY + 1, s, 0, 0)];
      }
    }

    /** `getTiles` on layer 0 of the world, for a w × h rectangle starting
      * at world position (x0, y0). */
    method ReadWorld(x0: int, y0: int, w: nat, h: nat) returns (r: Read)
      requires world.Valid() && world.TilesReadable(x0, y0, w, h)
      ensures ReadsWorld(r, world.View(), world.width, world.height, x0, y0, w, h)
    {
      var m := world.GetTiles(x0, y0, w, h, 0);
      r := ReadOf(m);
      assert forall k: nat, l: nat :: k < w && l < h ==> r.Get(k, l) == m.Get(k, l);
    }

    /** `onFullMapChange`: forgets the tracked tile maps, redraws all 32×32
      * cells from a 34×34 read starting one tile before the chunk's origin,
      * then updates the facing corners and sides of the eight neighbours.
      * The detached tile maps are left as they are; the redraw only adds
      * tile maps, attached at the attach depth, whose entries `cleanLayers`
      * then drops: each cell of each shows what `Redrawn` says for the read,
      * and nothing lies outside the chunk. */
    method OnFullMapChange()
      requires Valid() && world.Valid()
      modifies this
      ensures Valid() && tilemaps == []
      ensures borderUpdates == old(borderUpdates) + FullMapBorderUpdates(chunkX, chunkY)
      ensures MapsGrew(Detached(old(maps), Handles(old(tilemaps))), {}, maps)
      ensures FullyRedrawn(Detached(old(maps), Handles(old(tilemaps))), old(world.View()))
    {
      var px := CellPosition(0, chunkX, world.width);
      var py := CellPosition(0, chunkY, world.height);
      // The source detaches first and reads after; detaching changes no
      // tile of the world, so the read is taken first here.
      var r := ReadWorld(px - 1, py - 1, ChunkSize + 2, ChunkSize + 2);
      OnLayerRemove();
      assert Handles([]) == {};
      FullRedraw(r);
    }

    /** The redraw of a full map change from the 34×34 read `r`: every cell
      * of the chunk, then the updates of the eight neighbours, then
      * `cleanLayers`; `r` is kept as the last read. */
    method FullRedraw(r: Read)
      requires Valid() && r.Valid() && r.width == ChunkSize + 2 && r.height == ChunkSize + 2
      modifies this
      ensures Valid() && tilemaps == [] && lastRead == r
      ensures borderUpdates == old(borderUpdates) + FullMapBorderUpdates(chunkX, chunkY)
      ensures MapsGrew(old(maps), Handles(old(tilemaps)), maps)
      ensures Redrawn(old(maps), old(tilemaps), maps, dropped, definition.materials, ScanWindow(lastRead, 0, 0), Windows(lastRead, 0, 0), CentreMatch, ChunkCells())
    {
      RedrawCells(r);
      SendFullBorderUpdates();
      CleanLayers();
      lastRead := r;
    }

    /** Column i of a tile change at (x, y) from the 5×5 read `r` around
      * it: each visited cell (i, j) that lies in the chunk is redrawn with
      * its own window and the candidates of the read's origin window,
      * extending a redraw from (m0, t0) of the columns before `i`; returns
      * the border updates for every visited cell, in order. */
    method TileChangeColumn(r: Read, x: nat, y: nat, i: int, ghost m0: seq<RenderedMap>, ghost t0: seq<TilemapInfos>)
      returns (sent: seq<BorderUpdate>)
      requires r.Valid() && r.width == 5 && r.height == 5
      requires 0 < x < ChunkSize && y < ChunkSize && x <= i + 1 <= x + 2
      requires RedrawnSince(m0, t0, ScanWindow(r, 0, 0), Windows(r, 1 - x, 1 - y), CandidateBound, AroundBefore(x, y, i, y - 1))
      modifies this
      ensures borderUpdates == old(borderUpdates) && sent == ColumnUpdates(chunkX, chunkY, i, y - 1, LoopEnd(y))
      ensures y == 0 ==> maps == old(maps) && tilemaps == old(tilemaps)
      ensures RedrawnSince(m0, t0, ScanWindow(r, 0, 0), Windows(r, 1 - x, 1 - y), CandidateBound, AroundBefore(x, y, i + 1, y - 1))
    {
      sent := [];
      var j: int := y - 1;
      while ToSize(j) <= y + 1
        invariant y - 1 <= j <= y + 2 && (y == 0 ==> j == -1)
        invariant borderUpdates == old(borderUpdates) && sent == ColumnUpdates(chunkX, chunkY, i, y - 1, j)
        invariant y == 0 ==> maps == old(maps) && tilemaps == old(tilemaps)
        invariant RedrawnSince(m0, t0, ScanWindow(r, 0, 0), Windows(r, 1 - x, 1 - y), CandidateBound, AroundBefore(x, y, i, j))
        decreases y + 2 - j
      {
        LoopVisits(y, j);
        TileChangeCell(r, x, y, i, j, m0, t0);
        sent := sent + [TileChangeUpdate(chunkX, chunkY, i, j)];
        j := j + 1;
      }
      LoopVisits(y, j);
      AroundBeforeSteps(x, y, i, y - 1);
    }

    /** Cell (i, j) of a tile change at (x, y) from the 5×5 read `r`: if it
      * lies in the chunk it is redrawn with its own window, extending a
      * redraw from (m0, t0) of the cells visited before it. */
    method TileChangeCell(r: Read, x: nat, y: nat, i: int, j: int, ghost m0: seq<RenderedMap>, ghost t0: seq<TilemapInfos>)
      requires r.Valid() && r.width == 5 && r.height == 5
      requires 0 < x < ChunkSize && 0 < y < ChunkSize && x - 1 <= i <= x + 1 && y - 1 <= j <= y + 1
      requires RedrawnSince(m0, t0, ScanWindow(r, 0, 0), Windows(r, 1 - x, 1 - y), CandidateBound, AroundBefore(x, y, i, j))
      modifies this
      ensures borderUpdates == old(borderUpdates)
      ensures RedrawnSince(m0, t0, ScanWindow(r, 0, 0), Windows(r, 1 - x, 1 - y), CandidateBound, AroundBefore(x, y, i, j + 1))
    {
      AroundBeforeSteps(x, y, i, j);
      if i >= 0 && j >= 0 && i < ChunkSize && j < ChunkSize {
        assert Windows(r, 1 - x, 1 - y)((i, j)) == Window(r, i + 1 - x, j + 1 - y);
        RedrawNext(ScanWindow(r, 0, 0), Window(r, i + 1 - x, j + 1 - y), CandidateBound, (i, j), Windows(r, 1 - x, 1 - y),
                   m0, t0, AroundBefore(x, y, i, j));
      }
    }

    /** The loops of a tile change at (x, y) over the 5×5 read `r` around
      * it: columns x - 1 to x + 1 in turn; returns the border updates for
      * every visited cell, in order. */
    method TileChangeCells(r: Read, x: nat, y: nat) returns (sent: seq<BorderUpdate>)
      requires Valid() && r.Valid() && r.width == 5 && r.height == 5 && x < ChunkSize && y < ChunkSize
      modifies this
      ensures borderUpdates == old(borderUpdates) && sent == TileChangeUpdates(chunkX, chunkY, x, y)
      ensures x == 0 || y == 0 ==> maps == old(maps) && tilemaps == old(tilemaps)
      ensures RedrawnSince(old(maps), old(tilemaps), ScanWindow(r, 0, 0), Windows(r, 1 - x, 1 - y), CandidateBound, AroundCells(x, y))
    {
      ghost var idle := x == 0 || y == 0;
      sent := [];
      RedrawnSinceStart(ScanWindow(r, 0, 0), Windows(r, 1 - x, 1 - y), CandidateBound);
      var i: int := x - 1;
      AroundBeforeSteps(x, y, x - 1, y - 1);
      while ToSize(i) <= x + 1
        invariant x - 1 <= i <= x + 2 && (x == 0 ==> i == -1)
        invariant borderUpdates == old(borderUpdates)
        invariant sent == GridUpdates(chunkX, chunkY, x - 1, i, y - 1, LoopEnd(y))
        invariant idle ==> maps == old(maps) && tilemaps == old(tilemaps)
        invariant RedrawnSince(old(maps), old(tilemaps), ScanWindow(r, 0, 0), Windows(r, 1 - x, 1 - y), CandidateBound, AroundBefore(x, y, i, y - 1))
        decreases x + 2 - i
      {
        LoopVisits(x, i);
        var column := TileChangeColumn(r, x, y, i, old(maps), old(tilemaps));
        sent := sent + column;
        i := i + 1;
      }
      LoopVisits(x, i);
      AroundBeforeSteps(x, y, x - 1, y - 1);
    }

    /** `onTileChange`: redraws the cells around (x, y) that lie in the
      * chunk from the 5×5 read of the world around (x, y), and sends a
      * border update for each visited cell, in loop order. The loops
      * compare a signed position with an unsigned bound, so on the chunk's
      * first row or column nothing is redrawn or sent. Every cell of a
      * tracked or new tile map is as before outside those cells and shows
      * what `Redrawn` says for the read at them. */
    method OnTileChange(x: nat, y: nat)
      requires Valid() && world.Valid() && x < ChunkSize && y < ChunkSize
      modifies this
      ensures Valid() && tilemaps == []
      ensures borderUpdates == old(borderUpdates) + TileChangeUpdates(chunkX, chunkY, x, y)
      ensures MapsGrew(old(maps), Handles(old(tilemaps)), maps)
      ensures x == 0 || y == 0 ==> maps == old(maps) && dropped == old(tilemaps)
      ensures ReadsWorld(lastRead, old(world.View()), world.width, world.height,
                         CellPosition(x, chunkX, world.width) - 2, CellPosition(y, chunkY, world.height) - 2, 5, 5)
      ensures Redrawn(old(maps), old(tilemaps), maps, dropped, definition.materials, ScanWindow(lastRead, 0, 0), Windows(lastRead, 1 - x, 1 - y), CandidateBound, AroundCells(x, y))
    {
      var px := CellPosition(x, chunkX, world.width);
      var py := CellPosition(y, chunkY, world.height);
      var r := ReadWorld(px - 2, py - 2, 5, 5);
      TileChangeRedraw(r, x, y);
    }

    /** The redraw of a tile change at (x, y) from the 5×5 read `r` around
      * it, with its border updates in loop order, then `cleanLayers`; `r`
      * is kept as the last read. */
    method TileChangeRedraw(r: Read, x: nat, y: nat)
      requires Valid() && r.Valid() && r.width == 5 && r.height == 5 && x < ChunkSize && y < ChunkSize
      modifies this
      ensures Valid() && tilemaps == [] && lastRead == r
      ensures borderUpdates == old(borderUpdates) + TileChangeUpdates(chunkX, chunkY, x, y)
      ensures MapsGrew(old(maps), Handles(old(tilemaps)), maps)
      ensures x == 0 || y == 0 ==> maps == old(maps) && dropped == old(tilemaps)
      ensures Redrawn(old(maps), old(tilemaps), maps, dropped, definition.materials, ScanWindow(lastRead, 0, 0), Windows(lastRead, 1 - x, 1 - y), CandidateBound, AroundCells(x, y))
    {
      var sent := TileChangeCells(r, x, y);
      // The neighbours are called in this order as the cells are visited;
      // none of the calls reads this behaviour's state.
      borderUpdates := borderUpdates + sent;
      CleanLayers();
      lastRead := r;
    }

    /** The redraw of a border update: cell (x, y) alone, from the 3×3
      * read `r` around it, each candidate's neighbourhood compared with the
      * cell's own material; then `cleanLayers`, and `r` is kept as the
      * last read. */
    method BorderRedraw(r: Read, x: nat, y: nat)
      requires Valid() && r.Valid() && r.width == 3 && r.height == 3
      modifies this
      ensures Valid() && borderUpdates == old(borderUpdates)
      ensures MapsGrew(old(maps), Handles(old(tilemaps)), maps)
      ensures tilemaps == [] && lastRead == r
      ensures Redrawn(old(maps), old(tilemaps), maps, dropped, definition.materials, ScanWindow(lastRead, 0, 0), Windows(lastRead, -(x as int), -(y as int)), CentreBound, {(x, y)})
    {
      RedrawnSinceStart(ScanWindow(r, 0, 0), Windows(r, -(x as int), -(y as int)), CentreBound);
      assert Windows(r, -(x as int), -(y as int))((x, y)) == Window(r, 0, 0);
      RedrawNext(ScanWindow(r, 0, 0), Window(r, 0, 0), CentreBound, (x, y), Windows(r, -(x as int), -(y as int)), maps, tilemaps, {});
      assert {} + {(x, y)} == {(x, y)};
      CleanLayers();
      lastRead := r;
    }

    /** `onBoderBlockUpdate`: a neighbour changed next to cell (x, y) of
      * layer 0, which is redrawn from the 3×3 read of the world around it,
      * each candidate's neighbourhood compared with the cell's own
      * material. Every other cell is as before. Other layers are ignored. */
    method OnBorderBlockUpdate(x: nat, y: nat, layer: nat)
      requires Valid() && world.Valid()
      requires layer == 0 ==> x < ChunkSize && y < ChunkSize
      modifies this
      ensures Valid() && borderUpdates == old(borderUpdates)
      ensures layer != 0 ==> maps == old(maps) && tilemaps == old(tilemaps)
      ensures layer == 0 ==> tilemaps == [] && MapsGrew(old(maps), Handles(old(tilemaps)), maps)
      ensures layer == 0 ==>
        && ReadsWorld(lastRead, old(world.View()), world.width, world.height,
                      CellPosition(x, chunkX, world.width) - 1, CellPosition(y, chunkY, world.height) - 1, 3, 3)
        && Redrawn(old(maps), old(tilemaps), maps, dropped, definition.materials, ScanWindow(lastRead, 0, 0), Windows(lastRead, -(x as int), -(y as int)), CentreBound, {(x, y)})
    {
      if layer != 0 {
        return;
      }
      var px := CellPosition(x, chunkX, world.width);
      var py := CellPosition(y, chunkY, world.height);
      var r := ReadWorld(px - 1, py - 1, 3, 3);
      BorderRedraw(r, x, y);
    }

    /** `onMapChange`: a change of layer 0 at (x, y) redraws around that
      * cell, or the whole chunk when the position is outside it. */
    method OnMapChange(layer: nat, x: nat, y: nat)
      requires Valid() && world.Valid()
      modifies this
      ensures Valid()
      ensures layer != 0 ==> maps == old(maps) && tilemaps == old(tilemaps) && borderUpdates == old(borderUpdates)
      ensures layer == 0 ==>
        && tilemaps == []
        && borderUpdates == old(borderUpdates) +
             (if x >= ChunkSize || y >= ChunkSize then FullMapBorderUpdates(chunkX, chunkY) else TileChangeUpdates(chunkX, chunkY, x, y))
      ensures layer == 0 && (x >= ChunkSize || y >= ChunkSize) ==>
        FullyRedrawn(Detached(old(maps), Handles(old(tilemaps))), old(world.View()))
      ensures layer == 0 && x < ChunkSize && y < ChunkSize ==>
        && ReadsWorld(lastRead, old(world.View()), world.width, world.height,
                      CellPosition(x, chunkX, world.width) - 2, CellPosition(y, chunkY, world.height) - 2, 5, 5)
        && Redrawn(old(maps), old(tilemaps), maps, dropped, definition.materials, ScanWindow(lastRead, 0, 0), Windows(lastRead, 1 - x, 1 - y), CandidateBound, AroundCells(x, y))
    {
      if layer != 0 {
        return;
      }
      if x >= ChunkSize || y >= ChunkSize {
        OnFullMapChange();
      } else {
        OnTileChange(x, y);
      }
    }

    /** `onLayerChange`: layer 0 added (`onLayerAdd`) redraws the whole
      * chunk, removed detaches everything; other changes are ignored. */
    method OnLayerChange(layer: nat, state: ChangeState)
      requires Valid() && world.Valid()
      modifies this
      ensures Valid()
      ensures layer != 0 || state == HeightChanged ==>
        maps == old(maps) && tilemaps == old(tilemaps) && borderUpdates == old(borderUpdates)
      ensures layer == 0 && state == Added ==>
        && tilemaps == [] && borderUpdates == old(borderUpdates) + FullMapBorderUpdates(chunkX, chunkY)
        && MapsGrew(Detached(old(maps), Handles(old(tilemaps))), {}, maps)
        && FullyRedrawn(Detached(old(maps), Handles(old(tilemaps))), old(world.View()))
      ensures layer == 0 && state == Removed ==>
        tilemaps == [] && borderUpdates == old(borderUpdates) && maps == Detached(old(maps), Handles(old(tilemaps)))
    {
      if layer != 0 {
        return;
      }
      match state {
        case Added => OnFullMapChange();
        case Removed => OnLayerRemove();
        case HeightChanged =>
      }
    }

    /** `onEnable`: the chunk always has its static layers, so the whole
      * chunk is redrawn (`onLayerAdd`). */
    method OnEnable()
      requires Valid() && world.Valid()
      modifies this
      ensures Valid() && tilemaps == []
      ensures borderUpdates == old(borderUpdates) + FullMapBorderUpdates(chunkX, chunkY)
      ensures MapsGrew(Detached(old(maps), Handles(old(tilemaps))), {}, maps)
      ensures FullyRedrawn(Detached(old(maps), Handles(old(tilemaps))), old(world.View()))
    {
      OnFullMapChange();
    }

    /** `onDisable`: detaches every tracked tile map. */
    method OnDisable()
      requires Valid()
      modifies this
      ensures Valid() && tilemaps == [] && borderUpdates == old(borderUpdates)
      ensures maps == Detached(old(maps), Handles(old(tilemaps)))
    {
      OnLayerRemove();
    }
  }
}
