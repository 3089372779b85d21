// The second streaming renderer of the world: one entity per chunk in view,
// each carrying a chunk renderer, created and killed as the view centre
// moves.

module WorldRender2 {
  import opened Chunks
  import opened WorldCoords
  import opened Worlds
  import opened TileDefinitions
  import opened WorldRender
  import opened Sequences

  /** A tracked chunk: its entity token, its world chunk coordinates, the
    * chunk its renderer draws, and whether the entity is enabled. */
  datatype ChunkEntry = ChunkEntry(entity: nat, x: int, y: int, chunk: Chunk, enabled: bool)

  function Places(cs: seq<ChunkEntry>): (ps: seq<(int, int)>)
    ensures |ps| == |cs| && forall k :: 0 <= k < |cs| ==> ps[k] == (cs[k].x, cs[k].y)
  {
    seq(|cs|, k requires 0 <= k < |cs| => (cs[k].x, cs[k].y))
  }

  /** The tracked chunks that are in view, in their order. */
  function InView(cs: seq<ChunkEntry>, view: seq<(int, int)>): (r: seq<ChunkEntry>)
    ensures |r| <= |cs|
  {
    if |cs| == 0 then []
    else InView(cs[..|cs| - 1], view) + (if (cs[|cs| - 1].x, cs[|cs| - 1].y) in view then [cs[|cs| - 1]] else [])
  }

  /** The entities of the tracked chunks out of view, in their order. */
  function OutOfView(cs: seq<ChunkEntry>, view: seq<(int, int)>): (r: seq<nat>)
    ensures |r| <= |cs|
  {
    if |cs| == 0 then []
    else OutOfView(cs[..|cs| - 1], view) + (if (cs[|cs| - 1].x, cs[|cs| - 1].y) in view then [] else [cs[|cs| - 1].entity])
  }

  /** The entries `addChunk` appends for the chunks cs, entity tokens
    * counted from e0. */
  function NewEntries(world: WorldMap, e0: nat, cs: seq<(int, int)>): (r: seq<ChunkEntry>)
    requires 0 < world.width && 0 < world.height && |world.chunks| == world.width * world.height
    ensures |r| == |cs| && Places(r) == cs
  {
    seq(|cs|, k requires 0 <= k < |cs| => ChunkEntry(e0 + k, cs[k].0, cs[k].1, GridChunk(world, cs[k].0, cs[k].1), true))
  }

  /** The entries kept are exactly the tracked ones in view. */
  lemma {:induction false} InViewContents(cs: seq<ChunkEntry>, view: seq<(int, int)>)
    ensures forall e :: e in InView(cs, view) <==> e in cs && (e.x, e.y) in view
    ensures forall c :: c in Places(InView(cs, view)) <==> c in Places(cs) && c in view
  {
    if |cs| > 0 {
      var init, last := cs[..|cs| - 1], cs[|cs| - 1];
      InViewContents(init, view);
      var tail := if (last.x, last.y) in view then [last] else [];
      assert InView(cs, view) == InView(init, view) + tail;
      assert cs == init + [last];
      PlacesConcat(InView(init, view), tail);
      PlacesConcat(init, [last]);
    }
  }

  lemma PlacesConcat(a: seq<ChunkEntry>, b: seq<ChunkEntry>)
    ensures Places(a + b) == Places(a) + Places(b)
  {
  }

  /** Keeping the entries in view keeps a list without repeated coordinates
    * without them. */
  lemma {:induction false} InViewDistinct(cs: seq<ChunkEntry>, view: seq<(int, int)>)
    requires Distinct(Places(cs))
    ensures Distinct(Places(InView(cs, view)))
  {
    if |cs| > 0 {
      var init, last := cs[..|cs| - 1], cs[|cs| - 1];
      assert Places(init) == Places(cs)[..|cs| - 1];
      InViewDistinct(init, view);
      InViewContents(init, view);
      forall m | 0 <= m < |init|
        ensures Places(init)[m] != (last.x, last.y)
      {
        assert Places(init)[m] == Places(cs)[m] && (last.x, last.y) == Places(cs)[|cs| - 1];
      }
      var tail := if (last.x, last.y) in view then [last] else [];
      PlacesConcat(InView(init, view), tail);
      DistinctConcat(Places(InView(init, view)), Places(tail));
    }
  }

  /** Keeping the entries in view of a list is keeping those of its two
    * halves. */
  lemma {:induction false} InViewConcat(a: seq<ChunkEntry>, b: seq<ChunkEntry>, view: seq<(int, int)>)
    ensures InView(a + b, view) == InView(a, view) + InView(b, view)
  {
    if |b| == 0 {
      assert a + b == a;
    } else {
      var n := |b| - 1;
      assert (a + b)[..|a + b| - 1] == a + b[..n];
      InViewConcat(a, b[..n], view);
    }
  }

  /** The entities killed for a list are those killed for its two halves. */
  lemma {:induction false} OutOfViewConcat(a: seq<ChunkEntry>, b: seq<ChunkEntry>, view: seq<(int, int)>)
    ensures OutOfView(a + b, view) == OutOfView(a, view) + OutOfView(b, view)
  {
    if |b| == 0 {
      assert a + b == a;
    } else {
      var n := |b| - 1;
      assert (a + b)[..|a + b| - 1] == a + b[..n];
      OutOfViewConcat(a, b[..n], view);
    }
  }

  /** Entries all in view all stay, and none is killed. */
  lemma {:induction false} AllInView(cs: seq<ChunkEntry>, view: seq<(int, int)>)
    requires forall k :: 0 <= k < |cs| ==> (cs[k].x, cs[k].y) in view
    ensures InView(cs, view) == cs && OutOfView(cs, view) == []
  {
    if |cs| > 0 {
      var n := |cs| - 1;
      AllInView(cs[..n], view);
      assert cs[..n] + [cs[n]] == cs;
    }
  }

  /** The chunks the first loop adds are all kept by the second. */
  lemma AddedKept(world: WorldMap, cs: seq<ChunkEntry>, e0: nat, view: seq<(int, int)>)
    requires 0 < world.width && 0 < world.height && |world.chunks| == world.width * world.height
    ensures var added := NewEntries(world, e0, Missing(view, Places(cs)));
      && InView(cs + added, view) == InView(cs, view) + added
      && OutOfView(cs + added, view) == OutOfView(cs, view)
  {
    var added := NewEntries(world, e0, Missing(view, Places(cs)));
    MissingContents(view, Places(cs));
    forall k | 0 <= k < |added|
      ensures (added[k].x, added[k].y) in view
    {
      assert Places(added)[k] in Missing(view, Places(cs));
    }
    InViewConcat(cs, added, view);
    OutOfViewConcat(cs, added, view);
    AllInView(added, view);
  }

  /** `onCenterViewUpdate` run on tracked chunks cs leaves every chunk of
    * the view tracked exactly once, and no other. */
  lemma ViewTracked(world: WorldMap, cs: seq<ChunkEntry>, e0: nat, view: seq<(int, int)>)
    requires 0 < world.width && 0 < world.height && |world.chunks| == world.width * world.height
    requires Distinct(Places(cs)) && Distinct(view)
    ensures var r := InView(cs, view) + NewEntries(world, e0, Missing(view, Places(cs)));
      && Distinct(Places(r))
      && forall c :: c in Places(r) <==> c in view
  {
    var kept, added := InView(cs, view), NewEntries(world, e0, Missing(view, Places(cs)));
    InViewContents(cs, view);
    InViewDistinct(cs, view);
    MissingContents(view, Places(cs));
    MissingDistinct(view, Places(cs));
    PlacesConcat(kept, added);
    DistinctConcat(Places(kept), Places(added));
  }

  lemma NewEntriesAppend(world: WorldMap, e0: nat, cs: seq<(int, int)>, c: (int, int))
    requires 0 < world.width && 0 < world.height && |world.chunks| == world.width * world.height
    ensures NewEntries(world, e0, cs + [c])
      == NewEntries(world, e0, cs) + [ChunkEntry(e0 + |cs|, c.0, c.1, GridChunk(world, c.0, c.1), true)]
  {
  }

  /** The tracked chunks after the first i chunks of the view went through
    * the first loop of `onCenterViewUpdate`. */
  function Tracked(world: WorldMap, o: seq<ChunkEntry>, e0: nat, view: seq<(int, int)>, i: nat): seq<ChunkEntry>
    requires 0 < world.width && 0 < world.height && |world.chunks| == world.width * world.height
    requires i <= |view|
  {
    o + NewEntries(world, e0, Missing(view[..i], Places(o)))
  }

  /** One step of the first loop: a chunk of the view already tracked
    * changes nothing, any other is appended with the next entity token. */
  lemma AddStep(world: WorldMap, o: seq<ChunkEntry>, e0: nat, view: seq<(int, int)>, i: nat, cs: seq<ChunkEntry>)
    requires 0 < world.width && 0 < world.height && |world.chunks| == world.width * world.height
    requires i < |view| && Distinct(view) && Distinct(Places(cs))
    requires cs == Tracked(world, o, e0, view, i)
    ensures view[i] in Places(cs) ==> Tracked(world, o, e0, view, i + 1) == cs
    ensures view[i] !in Places(cs) ==>
      var e := ChunkEntry(e0 + |cs| - |o|, view[i].0, view[i].1, GridChunk(world, view[i].0, view[i].1), true);
      Tracked(world, o, e0, view, i + 1) == cs + [e] && Distinct(Places(cs + [e]))
  {
    var miss := Missing(view[..i], Places(o));
    PlacesConcat(o, NewEntries(world, e0, miss));
    MissingStep(view, Places(o), i, Places(cs));
    var c := view[i];
    if c !in Places(cs) {
      var e := ChunkEntry(e0 + |miss|, c.0, c.1, GridChunk(world, c.0, c.1), true);
      NewEntriesAppend(world, e0, miss, c);
      assert o + (NewEntries(world, e0, miss) + [e]) == cs + [e];
      PlacesConcat(cs, [e]);
      assert Places([e]) == [c];
      DistinctConcat(Places(cs), [c]);
    }
  }

  /** The tracked chunks after the first j of the tracked chunks o went
    * through the second loop of `onCenterViewUpdate`. */
  function Filtered(o: seq<ChunkEntry>, view: seq<(int, int)>, j: nat): (r: seq<ChunkEntry>)
    requires j <= |o|
    ensures |r| == |InView(o[..j], view)| + |o| - j
  {
    InView(o[..j], view) + o[j..]
  }

  /** Once every tracked chunk went through the second loop, those in view
    * are left. */
  lemma FilteredAll(o: seq<ChunkEntry>, view: seq<(int, int)>)
    ensures Filtered(o, view, |o|) == InView(o, view)
    ensures OutOfView(o[..|o|], view) == OutOfView(o, view)
  {
    assert o[..|o|] == o;
  }

  /** One step of the second loop: the entry at i is the j-th of o; out of
    * view it is erased and its entity killed, otherwise it stays. */
  lemma StaleStep(o: seq<ChunkEntry>, view: seq<(int, int)>, j: nat, k: seq<nat>)
    requires j < |o|
    ensures var i := |InView(o[..j], view)|;
      && i < |Filtered(o, view, j)| && Filtered(o, view, j)[i] == o[j]
      && ((o[j].x, o[j].y) !in view ==>
        && Filtered(o, view, j + 1) == RemoveAt(Filtered(o, view, j), i)
        && |InView(o[..j + 1], view)| == i
        && (k + OutOfView(o[..j], view)) + [o[j].entity] == k + OutOfView(o[..j + 1], view))
      && ((o[j].x, o[j].y) in view ==>
        && Filtered(o, view, j + 1) == Filtered(o, view, j)
        && |InView(o[..j + 1], view)| == i + 1
        && OutOfView(o[..j + 1], view) == OutOfView(o[..j], view))
  {
    assert o[..j + 1][..j] == o[..j];
    assert o[..j + 1] == o[..j] + [o[j]];
    var kept := InView(o[..j], view);
    assert o[j..] == [o[j]] + o[j + 1..];
    assert RemoveAt(kept + o[j..], |kept|) == kept + o[j + 1..];
    assert kept + o[j..] == (kept + [o[j]]) + o[j + 1..];
  }

  /** The streaming renderer of `WorldRenderBehaviour2`. */
  class WorldRenderer2 {
    const world: WorldMap
    const definition: TileDefinition
    const viewSize: int
    var chunks: seq<ChunkEntry>
    /** The next entity token handed out. */
    var nextEntity: nat
    /** The entity tokens killed so far, in order. */
    var killed: seq<nat>

    /** No chunk is tracked twice. */
    ghost predicate Valid()
      reads this
    {
      && 0 < world.width <= IntMax && 0 < world.height <= IntMax && |world.chunks| == world.width * world.height
      && Distinct(Places(chunks))
    }

    /** The world can be read, and this renderer is not part of it. */
    ghost predicate Ready()
      reads world, world.Repr
    {
      world.Valid() && this !in world.Repr
    }

    constructor (map_: WorldMap, definition: TileDefinition, viewSize: int)
      requires 0 < map_.width <= IntMax && 0 < map_.height <= IntMax && |map_.chunks| == map_.width * map_.height
      ensures Valid() && world == map_ && this.definition == definition && this.viewSize == viewSize
      ensures chunks == [] && nextEntity == 0 && killed == []
    {
      world := map_;
      this.definition := definition;
      this.viewSize := viewSize;
      chunks := [];
      nextEntity := 0;
      killed := [];
    }

    /** `clone`: a renderer on the same map, definition and view size,
      * tracking no chunk. */
    method Clone() returns (r: WorldRenderer2)
      requires Valid()
      ensures fresh(r) && r.Valid() && r.chunks == []
      ensures r.world == world && r.definition == definition && r.viewSize == viewSize
    {
      r := new WorldRenderer2(world, definition, viewSize);
    }

    /** `onEnable`, as written: every chunk entity is disabled. */
    method OnEnable()
      modifies this
      ensures Places(chunks) == Places(old(chunks))
      ensures forall k :: 0 <= k < |chunks| ==> chunks[k] == old(chunks)[k].(enabled := false)
      ensures nextEntity == old(nextEntity) && killed == old(killed)
    {
      SetAll(false);
    }

    /** `onDisable`, as written: every chunk entity is enabled. */
    method OnDisable()
      modifies this
      ensures Places(chunks) == Places(old(chunks))
      ensures forall k :: 0 <= k < |chunks| ==> chunks[k] == old(chunks)[k].(enabled := true)
      ensures nextEntity == old(nextEntity) && killed == old(killed)
    {
      SetAll(true);
    }

    /** The loop of `onEnable` and `onDisable`: every chunk entity set to e. */
    method SetAll(e: bool)
      modifies this
      ensures |chunks| == |old(chunks)| && Places(chunks) == Places(old(chunks))
      ensures forall k :: 0 <= k < |chunks| ==> chunks[k] == old(chunks)[k].(enabled := e)
      ensures nextEntity == old(nextEntity) && killed == old(killed)
    {
      for k := 0 to |chunks|
        invariant |chunks| == |old(chunks)|
        invariant forall m :: 0 <= m < |chunks| ==>
          chunks[m] == if m < k then old(chunks)[m].(enabled := e) else old(chunks)[m]
        invariant nextEntity == old(nextEntity) && killed == old(killed)
      {
        chunks := chunks[k := chunks[k].(enabled := e)];
      }
    }

    /** `addChunk`: a new enabled entity rendering the world's chunk (x, y)
      * is tracked after the others. */
    method AddChunk(x: int, y: int)
      requires Valid() && Ready() && IsInt(x) && IsInt(y)
      modifies this
      ensures Ready()
      ensures chunks == old(chunks) + [ChunkEntry(old(nextEntity), x, y, GridChunk(world, x, y), true)]
      ensures nextEntity == old(nextEntity) + 1 && killed == old(killed)
    {
      var chunk := world.GetChunk(x, y);
      chunks := chunks + [ChunkEntry(nextEntity, x, y, chunk, true)];
      nextEntity := nextEntity + 1;
    }

    /** `removeChunk`: the entity at `index` is killed and its entry erased;
      * the others keep their order. */
    method RemoveChunk(index: nat)
      requires index < |chunks|
      modifies this
      ensures chunks == RemoveAt(old(chunks), index)
      ensures killed == old(killed) + [old(chunks)[index].entity] && nextEntity == old(nextEntity)
    {
      killed := killed + [chunks[index].entity];
      chunks := RemoveAt(chunks, index);
    }

    /** `onCenterViewUpdate`: the tracked chunks still in view stay in their
      * order, followed by new entities for the chunks of the view not
      * tracked before, in view order; the entities out of view are killed
      * in their order. Every chunk of the view is then tracked exactly
      * once, and no other. */
    method OnCenterViewUpdate(x: int, y: int)
      requires Valid() && Ready() && ViewInRange(x, y, viewSize)
      modifies this
      ensures Valid() && Ready()
      ensures chunks == InView(old(chunks), ViewChunks(x, y, viewSize))
        + NewEntries(world, old(nextEntity), Missing(ViewChunks(x, y, viewSize), Places(old(chunks))))
      ensures killed == old(killed) + OutOfView(old(chunks), ViewChunks(x, y, viewSize))
      ensures forall c :: c in Places(chunks) <==> c in ViewChunks(x, y, viewSize)
    {
      var view := GetViewChunks(x, y, viewSize);
      ViewChunksInRange(x, y, viewSize);
      ghost var before, e0 := chunks, nextEntity;
      AddMissing(view);
      AddedKept(world, before, e0, view);
      ViewTracked(world, before, e0, view);
      RemoveStale(view);
    }

    /** The first loop of `onCenterViewUpdate`: an entity for each chunk of
      * the view not tracked yet, in view order. */
    method AddMissing(view: seq<(int, int)>)
      requires Valid() && Ready() && Distinct(view)
      requires forall c :: c in view ==> ChunkInRange(c.0) && ChunkInRange(c.1)
      modifies this
      ensures Valid() && Ready()
      ensures chunks == old(chunks) + NewEntries(world, old(nextEntity), Missing(view, Places(old(chunks))))
      ensures nextEntity == old(nextEntity) + |Missing(view, Places(old(chunks)))| && killed == old(killed)
    {
      ghost var o, e0 := chunks, nextEntity;
      for i := 0 to |view|
        invariant Valid() && Ready()
        invariant chunks == Tracked(world, o, e0, view, i)
        invariant nextEntity == e0 + |chunks| - |o| && killed == old(killed)
      {
        var c := view[i];
        AddStep(world, o, e0, view, i, chunks);
        if Find(Places(chunks), c) == |chunks| {
          AddChunk(c.0, c.1);
        }
      }
      assert view[..|view|] == view;
    }

    /** The second loop of `onCenterViewUpdate`: each tracked chunk out of
      * view is removed; the index stays put after a removal (the source's
      * unsigned decrement and increment cancel out). */
    method RemoveStale(view: seq<(int, int)>)
      modifies this
      ensures chunks == InView(old(chunks), view)
      ensures killed == old(killed) + OutOfView(old(chunks), view) && nextEntity == old(nextEntity)
    {
      ghost var o := chunks;
      var i := 0;
      ghost var j := 0;
      while i < |chunks|
        invariant j <= |o| && i == |InView(o[..j], view)|
        invariant chunks == Filtered(o, view, j)
        invariant killed == old(killed) + OutOfView(o[..j], view) && nextEntity == old(nextEntity)
        decreases |o| - j
      {
        i := StaleAt(view, o, j, i, old(killed));
        j := j + 1;
      }
      assert j == |o|;
      FilteredAll(o, view);
    }

    /** The body of the second loop of `onCenterViewUpdate` at index i,
      * holding the j-th of the tracked chunks o. */
    method StaleAt(view: seq<(int, int)>, ghost o: seq<ChunkEntry>, ghost j: nat, i: nat, ghost k: seq<nat>) returns (i': nat)
      requires j < |o| && i == |InView(o[..j], view)|
      requires chunks == Filtered(o, view, j) && killed == k + OutOfView(o[..j], view)
      modifies this
      ensures i' == |InView(o[..j + 1], view)|
      ensures chunks == Filtered(o, view, j + 1) && killed == k + OutOfView(o[..j + 1], view)
      ensures nextEntity == old(nextEntity)
    {
      StaleStep(o, view, j, k);
      var c := chunks[i];
      if (c.x, c.y) !in view {
        RemoveChunk(i);
        i' := i;
      } else {
        i' := i + 1;
      }
    }
  }
}
