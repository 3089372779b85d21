// Tile and its packed collider description.
module Tiles {

  /** The collider kind, stored as the raw value of the source's enumeration
    * (an `enum class` over `unsigned int`, so any 32-bit value can be held). */
  type ColliderKind = bv32
  const Empty: ColliderKind := 0
  const Full: ColliderKind := 1
  const Triangle: ColliderKind := 2
  const Half: ColliderKind := 3
  const Quarter: ColliderKind := 4
  const CentredHalf: ColliderKind := 5
  /** The largest named kind (`Max = CentredHalf`). */
  const MaxKind: ColliderKind := CentredHalf

  /** Rotation R_0, R_90, R180, R270 as the raw values 0..3. */
  type Rotation = bv32

  datatype TileCollider = TileCollider(
    kind: ColliderKind,
    rotation: Rotation,
    xFlipped: bool,
    yFlipped: bool,
    collisionLayer: bv32)

  /** A tile: an atlas id (0 means "nothing") and its collider. */
  datatype Tile = Tile(id: nat, collider: TileCollider)

  /** A collider whose fields fit the packed layout: rotation below 4, kind
    * below 2^12, collision layer below 2^16 (every named kind fits). */
  predicate Packable(c: TileCollider)
  {
    c.rotation < 4 && c.kind < 0x1000 && c.collisionLayer < 0x1_0000
  }

  function Bit(b: bool): bv32 { if b then 1 else 0 }

  /** Sums the shifted fields: bit 0, bit 1, bits 2-3, bits 4-15 and
    * bits 16-31; the additions wrap modulo 2^32. */
  function Sum(x: bv32, y: bv32, r: bv32, k: bv32, l: bv32): bv32
  {
    x + (y << 1) + (r << 2) + (k << 4) + (l << 16)
  }

  /** The same layout written with bitwise or. */
  function Or(x: bv32, y: bv32, r: bv32, k: bv32, l: bv32): bv32
  {
    x | (y << 1) | (r << 2) | (k << 4) | (l << 16)
  }

  /** Packs a collider: bit 0 xFlipped, bit 1 yFlipped, bits 2-3 rotation,
    * bits 4-15 kind, bits 16-31 collision layer, accumulated by additions
    * that wrap modulo 2^32 as the source's unsigned arithmetic does. */
  function ToInt(c: TileCollider): (v: bv32)
    ensures (v & 1 == 1 <==> c.xFlipped) && (v & 2 == 2 <==> c.yFlipped)
  {
    Sum(Bit(c.xFlipped), Bit(c.yFlipped), c.rotation, c.kind, c.collisionLayer)
  }

  function PackedFields(c: TileCollider): bv32
  {
    Or(Bit(c.xFlipped), Bit(c.yFlipped), c.rotation, c.kind, c.collisionLayer)
  }

  /** Unpacks a 32-bit value field by field. */
  function FromInt(v: bv32): (c: TileCollider)
    ensures Packable(c)
  {
    TileCollider(
      kind := (v & 0xFFF0) >> 4,
      rotation := (v & 0xC) >> 2,
      xFlipped := v & 1 > 0,
      yFlipped := v & 2 > 0,
      collisionLayer := (v & 0xFFFF_0000) >> 16)
  }

  lemma AddDisjoint(a: bv32, b: bv32)
    requires a & b == 0
    ensures a + b == a | b
  {
  }

  lemma Unfold(x: bv32, y: bv32, r: bv32, k: bv32, l: bv32)
    ensures Sum(x, y, r, k, l) == x + (y << 1) + (r << 2) + (k << 4) + (l << 16)
    ensures Or(x, y, r, k, l) == x | (y << 1) | (r << 2) | (k << 4) | (l << 16)
  {
  }

  /** Adding fields that occupy disjoint bit ranges never carries. */
  lemma NoCarry(x: bv32, y: bv32, r: bv32, k: bv32, l: bv32)
    requires x < 2 && y < 2 && r < 4 && k < 0x1000 && l < 0x1_0000
    ensures Sum(x, y, r, k, l) == Or(x, y, r, k, l)
  {
    Unfold(x, y, r, k, l);
    var a, b, c, d := x, y << 1, r << 2, k << 4;
    AddDisjoint(a, b);
    AddDisjoint(a | b, c);
    AddDisjoint(a | b | c, d);
    AddDisjoint(a | b | c | d, l << 16);
  }

  /** When the fields fit their bit ranges the sum is the bitwise or of the
    * shifted fields. */
  lemma ToIntIsOr(c: TileCollider)
    requires Packable(c)
    ensures ToInt(c) == PackedFields(c)
  {
    var x, y := Bit(c.xFlipped), Bit(c.yFlipped);
    NoCarry(x, y, c.rotation, c.kind, c.collisionLayer);
    assert ToInt(c) == Sum(x, y, c.rotation, c.kind, c.collisionLayer);
    assert PackedFields(c) == Or(x, y, c.rotation, c.kind, c.collisionLayer);
  }

  /** Field extraction from an or of disjoint fields. */
  lemma OrFields(x: bv32, y: bv32, r: bv32, k: bv32, l: bv32)
    requires x < 2 && y < 2 && r < 4 && k < 0x1000 && l < 0x1_0000
    ensures var v := Or(x, y, r, k, l);
      && v & 1 == x && (v & 2) >> 1 == y && (v & 0xC) >> 2 == r
      && (v & 0xFFF0) >> 4 == k && (v & 0xFFFF_0000) >> 16 == l
  {
    Unfold(x, y, r, k, l);
  }

  /** The bit layout of a packed collider. */
  lemma ToIntLayout(c: TileCollider)
    requires Packable(c)
    ensures var v := ToInt(c);
      && (v & 1 == 1 <==> c.xFlipped)
      && (v & 2 == 2 <==> c.yFlipped)
      && (v & 0xC) >> 2 == c.rotation
      && (v & 0xFFF0) >> 4 == c.kind
      && (v & 0xFFFF_0000) >> 16 == c.collisionLayer
  {
    var x, y := Bit(c.xFlipped), Bit(c.yFlipped);
    ToIntIsOr(c);
    OrFields(x, y, c.rotation, c.kind, c.collisionLayer);
    var v := ToInt(c);
    assert v == Or(x, y, c.rotation, c.kind, c.collisionLayer);
    assert v & 1 == x;
    FlagBits(v, c.xFlipped, c.yFlipped);
  }

  lemma FlagBits(v: bv32, xf: bool, yf: bool)
    requires v & 1 == Bit(xf) && (v & 2) >> 1 == Bit(yf)
    ensures (v & 1 == 1 <==> xf) && (v & 2 == 2 <==> yf)
  {
  }

  /** Decoding a packed collider gives back the collider. */
  lemma FromIntToInt(c: TileCollider)
    requires Packable(c)
    ensures FromInt(ToInt(c)) == c
  {
    ToIntLayout(c);
  }

  /** Every 32-bit value is the packing of its decoding. */
  lemma ToIntFromInt(v: bv32)
    ensures ToInt(FromInt(v)) == v
  {
    ToIntIsOr(FromInt(v));
  }

  /** The value-initialised collider: the one decoded from 0. */
  function DefaultCollider(): (c: TileCollider)
    ensures c == TileCollider(Empty, 0, false, false, 0)
  {
    FromInt(0)
  }

  /** The value-initialised tile `Tile{}`. */
  function EmptyTile(): Tile { Tile(0, DefaultCollider()) }

  predicate HaveCollision(c: TileCollider) { c.kind != Empty }

  predicate HaveFullCollision(c: TileCollider) { c.kind == Full }

  /** A full collider is a colliding one. */
  lemma FullHasCollision(c: TileCollider)
    ensures HaveFullCollision(c) ==> HaveCollision(c)
    ensures HaveCollision(DefaultCollider()) == false
  {
  }
}
