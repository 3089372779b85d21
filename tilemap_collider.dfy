// The registry saying which tile ids collide, and on which collision layer.

module TilemapColliders {
  import opened Sequences

  /** The ids registered on a layer. */
  function TilesOn(tiles: map<nat, nat>, layer: nat): set<nat>
  {
    set id | id in tiles && tiles[id] == layer
  }

  /** Registering an id puts it on its new layer and takes it off every
    * other layer. */
  lemma AddTileLayers(tiles: map<nat, nat>, id: nat, layer: nat, other: nat)
    requires other != layer
    ensures TilesOn(tiles[id := layer], layer) == TilesOn(tiles, layer) + {id}
    ensures TilesOn(tiles[id := layer], other) == TilesOn(tiles, other) - {id}
  {
    var added := tiles[id := layer];
    assert id in TilesOn(added, layer);
    forall t | t in TilesOn(added, other)
      ensures t in TilesOn(tiles, other) - {id}
    {
      assert t != id;
    }
  }

  /** Unregistering an id takes it off every layer and nothing else. */
  lemma RemoveTileLayers(tiles: map<nat, nat>, id: nat, layer: nat)
    ensures TilesOn(tiles - {id}, layer) == TilesOn(tiles, layer) - {id}
  {
    var removed := tiles - {id};
    forall t | t in TilesOn(tiles, layer) - {id}
      ensures t in TilesOn(removed, layer)
    {
      assert t in removed;
    }
  }

  /** `TilemapCollider`: the id to layer map and the modification
    * notifications, counted (their payload is empty). */
  class TilemapCollider {
    var tiles: map<nat, nat>
    /** How many modification notifications were sent. */
    var modified: nat

    constructor ()
      ensures tiles == map[] && modified == 0
    {
      tiles := map[];
      modified := 0;
    }

    /** `addTile`: registers or overwrites the id's layer, and notifies
      * once, even when the layer was already the same. */
    method AddTile(id: nat, layer: nat)
      modifies this
      ensures tiles == old(tiles)[id := layer] && modified == old(modified) + 1
      ensures HaveTile(id) && Layer(id) == layer
      ensures TilesOn(tiles, layer) == old(TilesOn(tiles, layer)) + {id}
    {
      tiles := tiles[id := layer];
      modified := modified + 1;
      AddTileLayers(old(tiles), id, layer, layer + 1);
    }

    /** `removeTile`: forgets the id and notifies; an id that is not
      * registered changes nothing and sends nothing. */
    method RemoveTile(id: nat)
      modifies this
      ensures tiles == old(tiles) - {id}
      ensures modified == if id in old(tiles) then old(modified) + 1 else old(modified)
      ensures !HaveTile(id)
    {
      if id in tiles {
        tiles := tiles - {id};
        modified := modified + 1;
      }
    }

    /** `haveTile`. */
    predicate HaveTile(id: nat): (b: bool)
      reads this
      ensures b <==> exists layer :: id in TilesOn(tiles, layer)
    {
      assert id in tiles ==> id in TilesOn(tiles, tiles[id]);
      id in tiles
    }

    /** `layer`: only for a registered id. */
    function Layer(id: nat): (l: nat)
      reads this
      requires HaveTile(id)
      ensures id in TilesOn(tiles, l)
    {
      tiles[id]
    }

    /** `tiles(layer)`: every id registered on the layer, once each, in the
      * unspecified order of the map's traversal. */
    method Tiles(layer: nat) returns (r: seq<nat>)
      ensures Distinct(r)
      ensures forall id :: id in r <==> id in TilesOn(tiles, layer)
    {
      r := [];
      var rest := tiles.Keys;
      while rest != {}
        invariant rest <= tiles.Keys && Distinct(r)
        invariant forall id :: id in r <==> id in TilesOn(tiles, layer) && id !in rest
        decreases |rest|
      {
        var id :| id in rest;
        if tiles[id] == layer {
          r := r + [id];
        }
        rest := rest - {id};
      }
    }
  }
}
