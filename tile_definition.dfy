// The tile definition of the ground: a list of textures and, for every
// material, the candidate tiles of each of the 47 shapes and the layer
// ranges the material may sit on.
module TileDefinitions {
  import opened TileConnexion

  /** The number of shapes, hence of tile slots in a material. */
  const ConnexionCount: nat := 47

  /** The slot of a shape in a material. The source converts the shape
    * enumeration to its integer value; that numbering is not part of this
    * model, so the model numbers the shapes in the order the classifier
    * tests them. */
  function ConnexionIndex(c: Connexion): (i: nat)
    ensures i < ConnexionCount
  {
    match c
    case Full => 0
    case Top3 => 1
    case Down3 => 2
    case Left3 => 3
    case Right3 => 4
    case Vertical => 5
    case Horizontal => 6
    case DownRightWithCorner => 7
    case TopRightWithCorner => 8
    case DownLeftWithCorner => 9
    case TopLeftWithCorner => 10
    case TopLeft => 11
    case DownLeft => 12
    case TopRight => 13
    case DownRight => 14
    case LeftCorners2 => 15
    case RightCorners2 => 16
    case TopCorners2 => 17
    case DownCorners2 => 18
    case LeftCornerDown => 19
    case LeftCornerTop => 20
    case RightCornerTop => 21
    case RightCornerDown => 22
    case TopCornerDown => 23
    case TopCornerTop => 24
    case DownCornerTop => 25
    case DownCornerDown => 26
    case Left => 27
    case Right => 28
    case Top => 29
    case Down => 30
    case QuadCorners => 31
    case TopLeftCorners3 => 32
    case TopRightCorners3 => 33
    case DownLeftCorners3 => 34
    case DownRightCorners3 => 35
    case DiagonalTopRight => 36
    case DiagonalTopLeft => 37
    case RightCorners => 38
    case LeftCorners => 39
    case TopCorners => 40
    case DownCorners => 41
    case TopRightCorner => 42
    case TopLeftCorner => 43
    case DownRightCorner => 44
    case DownLeftCorner => 45
    case Empty => 46
  }

  /** A texture handle, compared by identity. */
  type TextureRef = nat

  datatype SingleTileDefinition = SingleTileDefinition(textureID: nat, tileID: nat, weight: real)

  /** The value-initialised tile definition. */
  const NoTile := SingleTileDefinition(0, 0, 0.0)

  /** Some entry of the list has a positive weight. */
  predicate AnyPositive(tiles: seq<SingleTileDefinition>)
  {
    exists k :: 0 <= k < |tiles| && tiles[k].weight > 0.0
  }

  /** A tile `getRandomTile` may return for the list `tiles`: the
    * value-initialised definition for an empty list, otherwise one of its
    * entries, of positive weight whenever some weight is positive. */
  predicate RandomPick(t: SingleTileDefinition, tiles: seq<SingleTileDefinition>)
  {
    if tiles == [] then t == NoTile else t in tiles && (AnyPositive(tiles) ==> t.weight > 0.0)
  }

  datatype TileMaterialLayers = TileMaterialLayers(min: nat, max: nat)

  /** One tile list per shape slot, and the allowed layer ranges. */
  datatype TileMaterialDefinition = TileMaterialDefinition(tiles: seq<seq<SingleTileDefinition>>, allowedLayers: seq<TileMaterialLayers>)

  predicate MaterialWellFormed(m: TileMaterialDefinition)
  {
    |m.tiles| == ConnexionCount
  }

  /** The value-initialised material: every slot empty, no allowed layer. */
  function BlankMaterial(): (m: TileMaterialDefinition)
    ensures MaterialWellFormed(m) && m.allowedLayers == []
    ensures forall k :: 0 <= k < |m.tiles| ==> m.tiles[k] == []
  {
    TileMaterialDefinition(seq(ConnexionCount, _ => []), [])
  }

  predicate AllWellFormed(ms: seq<TileMaterialDefinition>)
  {
    forall m :: 0 <= m < |ms| ==> MaterialWellFormed(ms[m])
  }

  /** `std::find`: the position of the first occurrence, or the length. */
  function IndexOf<T(==)>(s: seq<T>, x: T): (i: nat)
    ensures i <= |s| && (i < |s| ==> s[i] == x)
    ensures forall j :: 0 <= j < i ==> s[j] != x
  {
    if |s| == 0 then 0 else if s[0] == x then 0 else 1 + IndexOf(s[1..], x)
  }

  /** The key of a tile entry inside its slot. */
  predicate SamePair(a: SingleTileDefinition, b: SingleTileDefinition)
  {
    a.textureID == b.textureID && a.tileID == b.tileID
  }

  /** The `find_if` of `addTile`: the first entry with the same key. */
  function FindPair(list: seq<SingleTileDefinition>, def: SingleTileDefinition): (i: nat)
    ensures i <= |list| && (i < |list| ==> SamePair(list[i], def))
    ensures forall j :: 0 <= j < i ==> !SamePair(list[j], def)
  {
    if |list| == 0 then 0 else if SamePair(list[0], def) then 0 else 1 + FindPair(list[1..], def)
  }

  /** The slot update of `addTile`: an entry with the same key gets the new
    * weight, otherwise the definition is appended. */
  function Upsert(list: seq<SingleTileDefinition>, def: SingleTileDefinition): seq<SingleTileDefinition>
  {
    var i := FindPair(list, def);
    if i < |list| then list[i := list[i].(weight := def.weight)] else list + [def]
  }

  /** No two entries of a slot share a key. */
  predicate UniquePairs(list: seq<SingleTileDefinition>)
  {
    forall i, j :: 0 <= i < j < |list| ==> !SamePair(list[i], list[j])
  }

  /** After the upsert the definition is in the slot exactly once, every
    * entry with another key is kept in place, the slot grows by at most
    * one, and keys stay unique. */
  lemma UpsertProperties(list: seq<SingleTileDefinition>, def: SingleTileDefinition)
    ensures var r := Upsert(list, def);
      && def in r
      && (forall k :: 0 <= k < |list| && !SamePair(list[k], def) ==> r[k] == list[k])
      && |r| == (if exists k :: 0 <= k < |list| && SamePair(list[k], def) then |list| else |list| + 1)
      && (UniquePairs(list) ==> UniquePairs(r) && forall k :: 0 <= k < |r| && SamePair(r[k], def) ==> r[k] == def)
  {
    var i := FindPair(list, def);
    var r := Upsert(list, def);
    if i < |list| {
      assert r[i] == def;
      if UniquePairs(list) {
        forall k | 0 <= k < |r| && SamePair(r[k], def) ensures r[k] == def {
          if k != i {
            assert SamePair(list[k], list[i]);
            assert false;
          }
        }
      }
    } else {
      assert r[|list|] == def;
    }
  }

  /** The material list after `addTile`'s growth loop: at least id + 1
    * entries, the new ones blank. */
  function Grown(ms: seq<TileMaterialDefinition>, id: nat): (r: seq<TileMaterialDefinition>)
    ensures |r| == if id < |ms| then |ms| else id + 1
    ensures forall m :: 0 <= m < |r| ==> r[m] == if m < |ms| then ms[m] else BlankMaterial()
  {
    if id < |ms| then ms else ms + seq(id + 1 - |ms|, _ => BlankMaterial())
  }

  /** The tile list `getTile` returns: empty for an unknown material. */
  function TilesOf(ms: seq<TileMaterialDefinition>, id: nat, slot: nat): seq<SingleTileDefinition>
    requires AllWellFormed(ms) && slot < ConnexionCount
  {
    if id >= |ms| then [] else ms[id].tiles[slot]
  }

  /** The material list after `addTile`. */
  function AddTileSpec(ms: seq<TileMaterialDefinition>, id: nat, slot: nat, def: SingleTileDefinition): (r: seq<TileMaterialDefinition>)
    requires AllWellFormed(ms) && slot < ConnexionCount
    ensures AllWellFormed(r) && |r| >= |ms| && |r| > id
  {
    var g := Grown(ms, id);
    g[id := g[id].(tiles := g[id].tiles[slot := Upsert(g[id].tiles[slot], def)])]
  }

  /** Growing the material list changes no answer of `getTile`: the new
    * materials are blank, which reads like an unknown material. */
  lemma GrownReadsAlike(ms: seq<TileMaterialDefinition>, id: nat, id2: nat, slot2: nat)
    requires AllWellFormed(ms) && slot2 < ConnexionCount
    ensures AllWellFormed(Grown(ms, id)) && TilesOf(Grown(ms, id), id2, slot2) == TilesOf(ms, id2, slot2)
  {
  }

  /** `addTile` followed by `getTile`: the slot written is the upsert of
    * what `getTile` gave before, and every other material and slot reads
    * as before, including materials the growth created. */
  lemma AddTileThenGet(ms: seq<TileMaterialDefinition>, id: nat, slot: nat, def: SingleTileDefinition, id2: nat, slot2: nat)
    requires AllWellFormed(ms) && slot < ConnexionCount && slot2 < ConnexionCount
    ensures var r := AddTileSpec(ms, id, slot, def);
      TilesOf(r, id2, slot2) == if id2 == id && slot2 == slot then Upsert(TilesOf(ms, id, slot), def) else TilesOf(ms, id2, slot2)
  {
    GrownReadsAlike(ms, id, id2, slot2);
    GrownReadsAlike(ms, id, id, slot);
  }

  /** `addTile` never shrinks the material list and keeps keys unique in
    * every slot. */
  lemma AddTileKeepsUnique(ms: seq<TileMaterialDefinition>, id: nat, slot: nat, def: SingleTileDefinition)
    requires AllWellFormed(ms) && slot < ConnexionCount
    requires forall m, k :: 0 <= m < |ms| && 0 <= k < ConnexionCount ==> UniquePairs(ms[m].tiles[k])
    ensures var r := AddTileSpec(ms, id, slot, def);
      |r| >= |ms| && forall m, k :: 0 <= m < |r| && 0 <= k < ConnexionCount ==> UniquePairs(r[m].tiles[k])
  {
    var r := AddTileSpec(ms, id, slot, def);
    var g := Grown(ms, id);
    UpsertProperties(g[id].tiles[slot], def);
    forall m, k | 0 <= m < |r| && 0 <= k < ConnexionCount ensures UniquePairs(r[m].tiles[k]) {
      if m >= |ms| {
        assert g[m] == BlankMaterial();
      }
    }
  }

  /** The material list after `addAllowedLayers`: the range is appended as
    * given, with no check and no deduplication. */
  function AddAllowedSpec(ms: seq<TileMaterialDefinition>, id: nat, min: nat, max: nat): (r: seq<TileMaterialDefinition>)
    requires AllWellFormed(ms)
    ensures AllWellFormed(r) && |r| >= |ms| && |r| > id
  {
    var g := Grown(ms, id);
    g[id := g[id].(allowedLayers := g[id].allowedLayers + [TileMaterialLayers(min, max)])]
  }

  /** `isMaterialAllowedOnLayer` as a property: some range of a known
    * material contains the layer. */
  predicate AllowedOn(ms: seq<TileMaterialDefinition>, id: nat, layer: nat)
  {
    id < |ms| && exists k :: 0 <= k < |ms[id].allowedLayers| && ms[id].allowedLayers[k].min <= layer <= ms[id].allowedLayers[k].max
  }

  /** After `addAllowedLayers` a material is allowed on a layer exactly
    * when it was before or the new range contains it; other materials are
    * unaffected. */
  lemma AddAllowedThenAllowed(ms: seq<TileMaterialDefinition>, id: nat, min: nat, max: nat, id2: nat, layer: nat)
    requires AllWellFormed(ms)
    ensures AllowedOn(AddAllowedSpec(ms, id, min, max), id2, layer) <==>
      if id2 == id then AllowedOn(ms, id, layer) || (min <= layer <= max) else AllowedOn(ms, id2, layer)
  {
    var r := AddAllowedSpec(ms, id, min, max);
    var g := Grown(ms, id);
    if id2 == id {
      var old_ := g[id].allowedLayers;
      assert r[id].allowedLayers == old_ + [TileMaterialLayers(min, max)];
      if min <= layer <= max {
        assert r[id].allowedLayers[|old_|] == TileMaterialLayers(min, max);
      }
      if AllowedOn(ms, id, layer) {
        var k :| 0 <= k < |ms[id].allowedLayers| && ms[id].allowedLayers[k].min <= layer <= ms[id].allowedLayers[k].max;
        assert r[id].allowedLayers[k] == ms[id].allowedLayers[k];
      }
      if AllowedOn(r, id, layer) && !(min <= layer <= max) {
        var k :| 0 <= k < |r[id].allowedLayers| && r[id].allowedLayers[k].min <= layer <= r[id].allowedLayers[k].max;
        assert k < |old_|;
      }
    } else if id2 < |r| && id2 >= |ms| {
      assert r[id2] == BlankMaterial();
    }
  }

  /** One entry of the scan of `texturesIndexsForMaterial`: a real tile
    * whose texture is not yet listed adds it. */
  function NoteTexture(acc: seq<nat>, e: SingleTileDefinition): seq<nat>
  {
    if e.tileID == 0 || e.textureID in acc then acc else acc + [e.textureID]
  }

  /** The scan over the entries of one slot, in order. */
  function NoteEntries(acc: seq<nat>, es: seq<SingleTileDefinition>): seq<nat>
  {
    if |es| == 0 then acc else NoteTexture(NoteEntries(acc, es[..|es| - 1]), es[|es| - 1])
  }

  /** The scan over the slots of a material, in slot order. */
  function NoteSlots(slots: seq<seq<SingleTileDefinition>>): seq<nat>
  {
    if |slots| == 0 then [] else NoteEntries(NoteSlots(slots[..|slots| - 1]), slots[|slots| - 1])
  }

  /** `texturesIndexsForMaterial` as a value: empty for an unknown material. */
  function TexturesFor(ms: seq<TileMaterialDefinition>, id: nat): seq<nat>
  {
    if id >= |ms| then [] else NoteSlots(ms[id].tiles)
  }

  predicate NoDuplicates(s: seq<nat>)
  {
    forall i, j :: 0 <= i < j < |s| ==> s[i] != s[j]
  }

  /** A texture is listed for a slot scan exactly when it was already
    * listed or some real tile of the slot uses it; nothing is listed twice
    * and earlier entries stay in place. */
  lemma {:induction false} NoteEntriesContents(acc: seq<nat>, es: seq<SingleTileDefinition>)
    ensures var r := NoteEntries(acc, es);
      && acc <= r
      && (NoDuplicates(acc) ==> NoDuplicates(r))
      && forall x :: x in r <==> x in acc || exists k :: 0 <= k < |es| && es[k].tileID != 0 && es[k].textureID == x
  {
    if |es| > 0 {
      var init := es[..|es| - 1];
      NoteEntriesContents(acc, init);
      var mid := NoteEntries(acc, init);
      var e := es[|es| - 1];
      forall x ensures x in NoteTexture(mid, e) <==> x in acc || exists k :: 0 <= k < |es| && es[k].tileID != 0 && es[k].textureID == x
      {
        if exists k :: 0 <= k < |init| && init[k].tileID != 0 && init[k].textureID == x {
          var k :| 0 <= k < |init| && init[k].tileID != 0 && init[k].textureID == x;
          assert es[k] == init[k];
        }
        if exists k :: 0 <= k < |es| && es[k].tileID != 0 && es[k].textureID == x {
          var k :| 0 <= k < |es| && es[k].tileID != 0 && es[k].textureID == x;
          if k < |init| {
            assert init[k] == es[k];
          }
        }
      }
    }
  }

  /** The textures of a material are exactly those of its real tiles, each
    * listed once, in the order they are first met. */
  lemma {:induction false} NoteSlotsContents(slots: seq<seq<SingleTileDefinition>>)
    ensures var r := NoteSlots(slots);
      && NoDuplicates(r)
      && forall x :: x in r <==> exists s, k :: 0 <= s < |slots| && 0 <= k < |slots[s]| && slots[s][k].tileID != 0 && slots[s][k].textureID == x
  {
    if |slots| > 0 {
      var init := slots[..|slots| - 1];
      var last := slots[|slots| - 1];
      NoteSlotsContents(init);
      NoteEntriesContents(NoteSlots(init), last);
      forall x ensures x in NoteSlots(slots) <==>
        exists s, k :: 0 <= s < |slots| && 0 <= k < |slots[s]| && slots[s][k].tileID != 0 && slots[s][k].textureID == x
      {
        if exists s, k :: 0 <= s < |init| && 0 <= k < |init[s]| && init[s][k].tileID != 0 && init[s][k].textureID == x {
          var s, k :| 0 <= s < |init| && 0 <= k < |init[s]| && init[s][k].tileID != 0 && init[s][k].textureID == x;
          assert slots[s] == init[s];
        }
        if exists k :: 0 <= k < |last| && last[k].tileID != 0 && last[k].textureID == x {
          var k :| 0 <= k < |last| && last[k].tileID != 0 && last[k].textureID == x;
          assert slots[|slots| - 1][k] == last[k];
        }
        if exists s, k :: 0 <= s < |slots| && 0 <= k < |slots[s]| && slots[s][k].tileID != 0 && slots[s][k].textureID == x {
          var s, k :| 0 <= s < |slots| && 0 <= k < |slots[s]| && slots[s][k].tileID != 0 && slots[s][k].textureID == x;
          if s < |init| {
            assert init[s] == slots[s];
          }
        }
      }
    }
  }

  /** The tile definition shared by the ground renderers. */
  class TileDefinition {
    var textures: seq<TextureRef>
    var materials: seq<TileMaterialDefinition>

    /** Every material has one tile list per shape. */
    ghost predicate Valid()
      reads this
    {
      AllWellFormed(materials)
    }

    constructor ()
      ensures Valid() && textures == [] && materials == []
    {
      textures := [];
      materials := [];
    }

    /** `addTexture`: the index of the texture, appending it when new. */
    method AddTexture(texture: TextureRef) returns (index: nat)
      modifies this
      ensures materials == old(materials)
      ensures texture in old(textures) ==> textures == old(textures) && index == IndexOf(old(textures), texture)
      ensures texture !in old(textures) ==> textures == old(textures) + [texture] && index == |old(textures)|
      ensures index < |textures| && textures[index] == texture
    {
      index := IndexOf(textures, texture);
      if index < |textures| {
        return;
      }
      textures := textures + [texture];
      index := |textures| - 1;
    }

    /** `haveTexture`. */
    function HaveTexture(texture: TextureRef): (b: bool)
      reads this
      ensures b <==> texture in textures
    {
      IndexOf(textures, texture) < |textures|
    }

    /** `textureIndex`: the first position of a texture known to be listed. */
    function TextureIndex(texture: TextureRef): (i: nat)
      reads this
      requires HaveTexture(texture)
      ensures i < |textures| && textures[i] == texture && texture !in textures[..i]
    {
      IndexOf(textures, texture)
    }

    /** `getTexture`: the texture at a listed position. */
    function GetTexture(index: nat): (t: TextureRef)
      reads this
      requires index < |textures|
      ensures HaveTexture(t) && TextureIndex(t) <= index
    {
      textures[index]
    }

    /** `textureCount`: every listed texture's index lies below it. */
    function TextureCount(): (r: nat)
      reads this
      ensures forall t :: HaveTexture(t) ==> TextureIndex(t) < r
    {
      |textures|
    }

    /** `materialCount`: a material id at or past it has no tiles. */
    function MaterialCount(): (r: nat)
      reads this
      ensures Valid() ==> forall id: nat, slot: nat :: r <= id && slot < ConnexionCount ==> TilesOf(materials, id, slot) == []
    {
      |materials|
    }

    /** `removeTexture(index)`: erases that entry, keeping the order of the rest. */
    method RemoveTextureAt(index: nat)
      requires index < |textures|
      modifies this
      ensures textures == old(textures[..index] + textures[index + 1..]) && materials == old(materials)
    {
      textures := textures[..index] + textures[index + 1..];
    }

    /** `removeTexture(texture)`: erases the first occurrence of a listed texture. */
    method RemoveTexture(texture: TextureRef)
      requires HaveTexture(texture)
      modifies this
      ensures var i := old(TextureIndex(texture));
        textures == old(textures[..i] + textures[i + 1..]) && materials == old(materials)
      ensures |textures| == |old(textures)| - 1
    {
      RemoveTextureAt(TextureIndex(texture));
    }

    /** `removeAllTexture`. */
    method RemoveAllTexture()
      modifies this
      ensures textures == [] && materials == old(materials)
    {
      textures := [];
    }

    /** `addTile`'s growth loop. */
    method GrowMaterials(id: nat)
      requires Valid()
      modifies this
      ensures Valid() && materials == Grown(old(materials), id) && textures == old(textures)
    {
      ghost var ms := materials;
      while id >= |materials|
        invariant |ms| <= |materials| <= if id < |ms| then |ms| else id + 1
        invariant forall m :: 0 <= m < |materials| ==> materials[m] == if m < |ms| then ms[m] else BlankMaterial()
        invariant textures == old(textures)
        decreases id + 1 - |materials|
      {
        materials := materials + [BlankMaterial()];
      }
    }

    /** `addTile`: grows the material list if needed and upserts the
      * definition into the slot of the shape. */
    method AddTile(id: nat, slot: nat, def: SingleTileDefinition)
      requires Valid() && slot < ConnexionCount
      modifies this
      ensures Valid() && materials == AddTileSpec(old(materials), id, slot, def) && textures == old(textures)
    {
      GrowMaterials(id);
      var tiles := materials[id].tiles[slot];
      var i := FindPair(tiles, def);
      if i < |tiles| {
        tiles := tiles[i := tiles[i].(weight := def.weight)];
      } else {
        tiles := tiles + [def];
      }
      materials := materials[id := materials[id].(tiles := materials[id].tiles[slot := tiles])];
    }

    /** The `addTile` overload taking the fields separately. */
    method AddTileFields(id: nat, slot: nat, tileID: nat, textureID: nat := 0, weight: real := 1.0)
      requires Valid() && slot < ConnexionCount
      modifies this
      ensures Valid() && textures == old(textures)
      ensures materials == AddTileSpec(old(materials), id, slot, SingleTileDefinition(textureID, tileID, weight))
    {
      AddTile(id, slot, SingleTileDefinition(textureID, tileID, weight));
    }

    /** `getTile`. */
    function GetTile(id: nat, slot: nat): (r: seq<SingleTileDefinition>)
      reads this
      requires Valid() && slot < ConnexionCount
      ensures id >= |materials| ==> r == []
      ensures r == TilesOf(materials, id, slot)
    {
      if id >= |materials| then [] else materials[id].tiles[slot]
    }

    /** `addAllowedLayers`. */
    method AddAllowedLayers(id: nat, min: nat, max: nat)
      requires Valid()
      modifies this
      ensures Valid() && materials == AddAllowedSpec(old(materials), id, min, max) && textures == old(textures)
    {
      GrowMaterials(id);
      materials := materials[id := materials[id].(allowedLayers := materials[id].allowedLayers + [TileMaterialLayers(min, max)])];
    }

    /** `clearMaterials`. */
    method ClearMaterials()
      modifies this
      ensures Valid() && materials == [] && textures == old(textures)
    {
      materials := [];
    }

    /** `texturesIndexsForMaterial`: scans every slot and entry. */
    method TexturesIndexsForMaterial(id: nat) returns (indexs: seq<nat>)
      requires Valid()
      ensures indexs == TexturesFor(materials, id)
    {
      if id >= |materials| {
        return [];
      }
      var slots := materials[id].tiles;
      indexs := [];
      var s := 0;
      while s < |slots|
        invariant s <= |slots| && indexs == NoteSlots(slots[..s])
      {
        var tiles := slots[s];
        ghost var before := indexs;
        var k := 0;
        while k < |tiles|
          invariant k <= |tiles| && indexs == NoteEntries(before, tiles[..k])
        {
          var t := tiles[k];
          if t.tileID != 0 && IndexOf(indexs, t.textureID) == |indexs| {
            indexs := indexs + [t.textureID];
          }
          assert tiles[..k + 1][..k] == tiles[..k];
          k := k + 1;
        }
        assert tiles[..k] == tiles;
        assert slots[..s + 1][..s] == slots[..s];
        s := s + 1;
      }
      assert slots[..s] == slots;
    }

    /** `isMaterialAllowedOnLayer`: searches the ranges of the material. */
    method IsMaterialAllowedOnLayer(id: nat, layer: nat) returns (allowed: bool)
      ensures allowed == AllowedOn(materials, id, layer)
    {
      if id >= |materials| {
        return false;
      }
      var ranges := materials[id].allowedLayers;
      var k := 0;
      while k < |ranges|
        invariant k <= |ranges|
        invariant forall j :: 0 <= j < k ==> !(ranges[j].min <= layer <= ranges[j].max)
      {
        if ranges[k].min <= layer && ranges[k].max >= layer {
          return true;
        }
        k := k + 1;
      }
      return false;
    }

    /** `getRandomTile`: the value-initialised definition when the slot is
      * empty, otherwise one of its entries, of positive weight whenever one
      * has a positive weight; which one the weighted draw returns is a
      * choice the model leaves open. */
    method GetRandomTile(id: nat, slot: nat) returns (t: SingleTileDefinition)
      requires Valid() && slot < ConnexionCount
      ensures TilesOf(materials, id, slot) == [] ==> t == NoTile
      ensures TilesOf(materials, id, slot) != [] ==> t in TilesOf(materials, id, slot)
      ensures AnyPositive(TilesOf(materials, id, slot)) ==> t.weight > 0.0
      ensures RandomPick(t, TilesOf(materials, id, slot))
    {
      var tiles := GetTile(id, slot);
      if |tiles| == 0 {
        return NoTile;
      }
      var weights := Weights(tiles);
      if exists k :: 0 <= k < |weights| && weights[k] > 0.0 {
        // `std::discrete_distribution` never draws an entry of weight 0
        // while some weight is positive.
        var k :| 0 <= k < |weights| && weights[k] > 0.0;
        t := tiles[k];
      } else {
        var k :| 0 <= k < |weights|;
        t := tiles[k];
      }
    }

    /** The weight vector of `getRandomTile`, aligned with the candidates. */
    static method Weights(tiles: seq<SingleTileDefinition>) returns (weights: seq<real>)
      ensures |weights| == |tiles| && forall k :: 0 <= k < |tiles| ==> weights[k] == tiles[k].weight
    {
      weights := [];
      for k := 0 to |tiles|
        invariant |weights| == k && forall j :: 0 <= j < k ==> weights[j] == tiles[j].weight
      {
        weights := weights + [tiles[k].weight];
      }
    }
  }

  /** `addTexture` then `getTexture`: the index returned reads the texture
    * back, and the count grows by one exactly when the texture was new. */
  method AddTextureThenGet(d: TileDefinition, texture: TextureRef) returns (same: bool, counted: bool)
    modifies d
    ensures same && counted
  {
    var had := d.HaveTexture(texture);
    var before := d.TextureCount();
    var index := d.AddTexture(texture);
    same := d.GetTexture(index) == texture;
    counted := d.TextureCount() == if had then before else before + 1;
  }
}
