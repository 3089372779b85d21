// The collision table: up to 32 named collision layers, each with a row of
// contact types against the 32 slots, and the bit masks built from a row.

module CollisionDefinitions {

  /** `ContactType`, with the `None` value the table uses for "no contact". */
  datatype ContactType = None | Collision | Trigger

  /** One slot of the table: a layer name and its row of contacts. */
  datatype LayerInfos = LayerInfos(name: string, contacts: seq<ContactType>)

  const MaxLayerNb: nat := 32

  /** The slot `resetLayer` leaves: no name, no contact. */
  function ResetInfos(): (r: LayerInfos)
    ensures |r.contacts| == MaxLayerNb
  {
    LayerInfos("", seq(MaxLayerNb, _ => None))
  }

  predicate Row(l: LayerInfos)
  {
    |l.contacts| == MaxLayerNb
  }

  // ---------------------------------------------------------------------
  // Bit masks

  /** Which contacts a mask collects. */
  datatype MaskKind = AnyContact | OnlyCollision | OnlyTrigger

  predicate Selects(kind: MaskKind, c: ContactType)
  {
    match kind
    case AnyContact => c != None
    case OnlyCollision => c == Collision
    case OnlyTrigger => c == Trigger
  }

  /** `1 << i` on a 32-bit unsigned mask. */
  function Bit(i: nat): bv32
    requires i < 32
  {
    (1 as bv32) << i
  }

  /** The mask of the first k contacts of a row. */
  function MaskUpTo(cs: seq<ContactType>, kind: MaskKind, k: nat): bv32
    requires k <= |cs| && k <= 32
  {
    if k == 0 then 0
    else if Selects(kind, cs[k - 1]) then MaskUpTo(cs, kind, k - 1) | Bit(k - 1)
    else MaskUpTo(cs, kind, k - 1)
  }

  /** The mask of a whole row. */
  function Mask(cs: seq<ContactType>, kind: MaskKind): bv32
    requires |cs| == MaxLayerNb
  {
    MaskUpTo(cs, kind, |cs|)
  }

  /** One step of a mask loop: `mask |= 1 << i` when contact i is of the
    * kind collected. */
  method OrBitIf(cs: seq<ContactType>, kind: MaskKind, i: nat, mask: bv32) returns (m: bv32)
    requires i < |cs| && i < 32 && mask == MaskUpTo(cs, kind, i)
    ensures m == MaskUpTo(cs, kind, i + 1)
  {
    if Selects(kind, cs[i]) {
      m := mask | Bit(i);
    } else {
      m := mask;
    }
  }

  lemma BitsApart(i: nat, j: nat)
    requires i < 32 && j < 32 && i != j
    ensures Bit(i) & Bit(j) == 0
  {
  }

  lemma BitSet(i: nat)
    requires i < 32
    ensures Bit(i) & Bit(i) != 0
  {
  }

  /** Bit j of the mask of the first k contacts is set exactly when j < k
    * and contact j is of the kind collected. */
  predicate BitUpTo(cs: seq<ContactType>, kind: MaskKind, k: nat, j: nat)
    requires k <= |cs| && k <= 32 && j < 32
  {
    MaskUpTo(cs, kind, k) & Bit(j) != 0 <==> j < k && Selects(kind, cs[j])
  }

  lemma BitStepSkip(cs: seq<ContactType>, kind: MaskKind, k: nat, j: nat)
    requires 0 < k <= |cs| && k <= 32 && j < 32 && BitUpTo(cs, kind, k - 1, j) && !Selects(kind, cs[k - 1])
    ensures BitUpTo(cs, kind, k, j)
  {
    MaskUpToStep(cs, kind, k);
  }

  lemma BitStepOther(cs: seq<ContactType>, kind: MaskKind, k: nat, j: nat)
    requires 0 < k <= |cs| && k <= 32 && j < 32 && BitUpTo(cs, kind, k - 1, j) && Selects(kind, cs[k - 1])
    requires j != k - 1
    ensures BitUpTo(cs, kind, k, j)
  {
    MaskUpToStep(cs, kind, k);
    BitsApart(k - 1, j);
    OrApart(MaskUpTo(cs, kind, k - 1), Bit(k - 1), Bit(j));
  }

  lemma OrApart(a: bv32, x: bv32, y: bv32)
    requires x & y == 0
    ensures (a | x) & y == a & y
  {
  }

  lemma BitStepSame(cs: seq<ContactType>, kind: MaskKind, k: nat)
    requires 0 < k <= |cs| && k <= 32 && Selects(kind, cs[k - 1])
    ensures BitUpTo(cs, kind, k, k - 1)
  {
    MaskUpToStep(cs, kind, k);
    OrTest(MaskUpTo(cs, kind, k - 1), Bit(k - 1), k - 1);
    BitSet(k - 1);
  }

  lemma {:induction false} MaskUpToBit(cs: seq<ContactType>, kind: MaskKind, k: nat, j: nat)
    requires k <= |cs| && k <= 32 && j < 32
    ensures BitUpTo(cs, kind, k, j)
  {
    if k > 0 {
      MaskUpToBit(cs, kind, k - 1, j);
      if !Selects(kind, cs[k - 1]) {
        BitStepSkip(cs, kind, k, j);
      } else if j != k - 1 {
        BitStepOther(cs, kind, k, j);
      } else {
        BitStepSame(cs, kind, k);
      }
    }
  }

  lemma OrTest(a: bv32, b: bv32, j: nat)
    requires j < 32
    ensures (a | b) & Bit(j) != 0 <==> a & Bit(j) != 0 || b & Bit(j) != 0
  {
    assert (a | b) & Bit(j) == (a & Bit(j)) | (b & Bit(j));
  }

  /** Bit j of a row's mask is set exactly when contact j is of the kind
    * collected. */
  lemma MaskBit(cs: seq<ContactType>, kind: MaskKind, j: nat)
    requires |cs| == MaxLayerNb && j < 32
    ensures Mask(cs, kind) & Bit(j) != 0 <==> Selects(kind, cs[j])
  {
    MaskUpToBit(cs, kind, MaxLayerNb, j);
  }

  /** One unfolding of `MaskUpTo`. */
  lemma MaskUpToStep(cs: seq<ContactType>, kind: MaskKind, k: nat)
    requires 0 < k <= |cs| && k <= 32
    ensures MaskUpTo(cs, kind, k) ==
      if Selects(kind, cs[k - 1]) then MaskUpTo(cs, kind, k - 1) | Bit(k - 1) else MaskUpTo(cs, kind, k - 1)
  {
  }

  lemma OrLeft(b: bv32, c: bv32, x: bv32)
    ensures (b | c) | x == (b | x) | c
  {
  }

  lemma OrRight(b: bv32, c: bv32, x: bv32)
    ensures (b | c) | x == b | (c | x)
  {
  }

  predicate UnionUpTo(cs: seq<ContactType>, k: nat)
    requires k <= |cs| && k <= 32
  {
    MaskUpTo(cs, AnyContact, k) == MaskUpTo(cs, OnlyCollision, k) | MaskUpTo(cs, OnlyTrigger, k)
  }

  // One contact more keeps the collision-and-trigger mask the union of the
  // two others, one lemma per contact type.

  lemma UnionStepNone(cs: seq<ContactType>, k: nat)
    requires 0 < k <= |cs| && k <= 32 && UnionUpTo(cs, k - 1) && cs[k - 1] == None
    ensures UnionUpTo(cs, k)
  {
    MaskUpToStep(cs, AnyContact, k);
    MaskUpToStep(cs, OnlyCollision, k);
    MaskUpToStep(cs, OnlyTrigger, k);
  }

  lemma UnionStepCollision(cs: seq<ContactType>, k: nat)
    requires 0 < k <= |cs| && k <= 32 && UnionUpTo(cs, k - 1) && cs[k - 1] == Collision
    ensures UnionUpTo(cs, k)
  {
    MaskUpToStep(cs, AnyContact, k);
    MaskUpToStep(cs, OnlyCollision, k);
    MaskUpToStep(cs, OnlyTrigger, k);
    OrLeft(MaskUpTo(cs, OnlyCollision, k - 1), MaskUpTo(cs, OnlyTrigger, k - 1), Bit(k - 1));
  }

  lemma UnionStepTrigger(cs: seq<ContactType>, k: nat)
    requires 0 < k <= |cs| && k <= 32 && UnionUpTo(cs, k - 1) && cs[k - 1] == Trigger
    ensures UnionUpTo(cs, k)
  {
    MaskUpToStep(cs, AnyContact, k);
    MaskUpToStep(cs, OnlyCollision, k);
    MaskUpToStep(cs, OnlyTrigger, k);
    OrRight(MaskUpTo(cs, OnlyCollision, k - 1), MaskUpTo(cs, OnlyTrigger, k - 1), Bit(k - 1));
  }

  /** The collision-and-trigger mask is the union of the two others. */
  lemma {:induction false} MaskUnionUpTo(cs: seq<ContactType>, k: nat)
    requires k <= |cs| && k <= 32
    ensures UnionUpTo(cs, k)
  {
    if k > 0 {
      MaskUnionUpTo(cs, k - 1);
      match cs[k - 1]
      case None => UnionStepNone(cs, k);
      case Collision => UnionStepCollision(cs, k);
      case Trigger => UnionStepTrigger(cs, k);
    }
  }

  lemma MaskUnion(cs: seq<ContactType>)
    requires |cs| == MaxLayerNb
    ensures Mask(cs, AnyContact) == Mask(cs, OnlyCollision) | Mask(cs, OnlyTrigger)
  {
    MaskUnionUpTo(cs, MaxLayerNb);
  }

  // ---------------------------------------------------------------------
  // Table updates, as functions of the slots

  /** `std::find_if` over all 32 slots: the first slot named `name`, or 32. */
  function FindName(infos: seq<LayerInfos>, name: string): (k: nat)
    ensures k <= |infos|
    ensures k < |infos| ==> infos[k].name == name
    ensures forall m :: 0 <= m < k ==> infos[m].name != name
  {
    if |infos| == 0 then 0
    else if infos[0].name == name then 0
    else 1 + FindName(infos[1..], name)
  }

  /** The slots after `removeLayer(index)` on a table of n layers: the rows
    * after `index` move down one slot as they are, and the slot freed at
    * the top is reset. */
  function Shifted(infos: seq<LayerInfos>, index: nat, n: nat): (r: seq<LayerInfos>)
    requires index < n <= |infos|
    ensures |r| == |infos|
  {
    seq(|infos|, i requires 0 <= i < |infos| =>
      if index <= i < n - 1 then infos[i + 1] else if i == n - 1 then ResetInfos() else infos[i])
  }

  /** The slots after `setCollision(a, b, t)`. */
  function SetBoth(infos: seq<LayerInfos>, a: nat, b: nat, t: ContactType): (r: seq<LayerInfos>)
    requires a < |infos| && b < |infos| && a < MaxLayerNb && b < MaxLayerNb && Row(infos[a]) && Row(infos[b])
    ensures |r| == |infos|
  {
    var r1 := infos[a := infos[a].(contacts := infos[a].contacts[b := t])];
    r1[b := r1[b].(contacts := r1[b].contacts[a := t])]
  }

  /** Setting a contact makes it read back from both sides, and leaves
    * every other pair and every name as it was. */
  lemma SetBothReads(infos: seq<LayerInfos>, a: nat, b: nat, t: ContactType)
    requires a < |infos| && b < |infos| && Row(infos[a]) && Row(infos[b])
    requires a < MaxLayerNb && b < MaxLayerNb
    ensures var r := SetBoth(infos, a, b, t);
      && r[a].contacts[b] == t && r[b].contacts[a] == t
      && (forall i, j :: 0 <= i < |infos| && 0 <= j < |infos[i].contacts| && (i, j) != (a, b) && (i, j) != (b, a) ==>
            |r[i].contacts| == |infos[i].contacts| && r[i].contacts[j] == infos[i].contacts[j])
      && (forall i :: 0 <= i < |infos| ==> r[i].name == infos[i].name)
  {
  }

  /** `removeLayer` moves rows without touching their columns: a layer
    * below the one removed keeps, at the removed layer's column, its
    * contact with the removed layer, and that column now stands for the
    * next layer. */
  lemma RemoveKeepsColumns(infos: seq<LayerInfos>, index: nat, n: nat, i: nat)
    requires index < n <= |infos| && i < index
    ensures Shifted(infos, index, n)[i] == infos[i]
  {
  }

  /** A table of three layers where layer 0 collides with layer 1 but not
    * with layer 2: after removing layer 1, the table says that layer 0
    * collides with what is now layer 1, the old layer 2. */
  lemma RemoveLeavesStaleColumn()
    ensures var row0 := LayerInfos("a", [None, Collision, None] + seq(29, _ => None));
      var infos := [row0, ResetInfos().(name := "b"), ResetInfos().(name := "c")] + seq(29, _ => ResetInfos());
      && infos[0].contacts[2] == None
      && Shifted(infos, 1, 3)[1] == infos[2]
      && Shifted(infos, 1, 3)[0].contacts[1] == Collision
  {
  }

  /** The reset slots have the empty name, so while a slot is free the name
    * "" counts as present. */
  lemma EmptyNameFound(infos: seq<LayerInfos>, n: nat)
    requires n < |infos| && infos[n] == ResetInfos()
    ensures FindName(infos, "") <= n
  {
    if FindName(infos, "") > n {
      assert infos[n].name == "";
    }
  }

  /** `CollisionDefinition`: a fixed array of 32 slots of which the first
    * `layerNb` are in use. */
  class CollisionDefinition {
    const infos: array<LayerInfos>
    var layerNb: nat

    ghost predicate Valid()
      reads this, infos
    {
      infos.Length == MaxLayerNb && layerNb <= MaxLayerNb && forall i :: 0 <= i < MaxLayerNb ==> Row(infos[i])
    }

    /** Every slot starts reset, with no layer in use. */
    constructor ()
      ensures Valid() && fresh(infos) && layerNb == 0
      ensures forall i :: 0 <= i < MaxLayerNb ==> infos[i] == ResetInfos()
    {
      infos := new LayerInfos[MaxLayerNb](_ => ResetInfos());
      layerNb := 0;
    }

    /** `haveLayer(name)`: some slot, in use or not, has that name. */
    predicate HaveLayerName(name: string): (b: bool)
      reads this, infos
      ensures b <==> exists k :: 0 <= k < infos.Length && infos[k].name == name
    {
      var k := FindName(infos[..], name);
      assert forall m :: 0 <= m < infos.Length ==> infos[..][m] == infos[m];
      k < infos.Length
    }

    /** `haveLayer(index)`: a layer in use is one of the 32 slots. */
    predicate HaveLayer(index: nat): (b: bool)
      reads this, infos
      ensures Valid() && b ==> index < infos.Length
    {
      index < layerNb
    }

    /** `layerIndex`: the first slot with that name. */
    function LayerIndex(name: string): (k: nat)
      reads this, infos
      requires HaveLayerName(name)
      ensures k < infos.Length && infos[k].name == name
      ensures forall m :: 0 <= m < k ==> infos[m].name != name
    {
      FindName(infos[..], name)
    }

    /** `layerNb()`: at most 32, and the layers in use are the indices below it. */
    function LayerCount(): (r: nat)
      reads this, infos
      ensures Valid() ==> r <= MaxLayerNb
      ensures forall i: nat :: HaveLayer(i) <==> i < r
    {
      layerNb
    }

    /** `getCollision`: the contact of layer a with layer b, which is what
      * bit b of layer a's masks records. */
    function GetCollision(a: nat, b: nat): (r: ContactType)
      reads this, infos
      requires Valid() && a < layerNb && b < layerNb
      ensures Mask(infos[a].contacts, AnyContact) & Bit(b) != 0 <==> r != None
      ensures Mask(infos[a].contacts, OnlyCollision) & Bit(b) != 0 <==> r == Collision
      ensures Mask(infos[a].contacts, OnlyTrigger) & Bit(b) != 0 <==> r == Trigger
    {
      MaskBit(infos[a].contacts, AnyContact, b);
      MaskBit(infos[a].contacts, OnlyCollision, b);
      MaskBit(infos[a].contacts, OnlyTrigger, b);
      infos[a].contacts[b]
    }

    /** `getCollision` by names: the contact of the first slots with the
      * names, as the first name's masks record it at the second's bit. */
    function GetCollisionNamed(name1: string, name2: string): (r: ContactType)
      reads this, infos
      requires Valid() && HaveLayerName(name1) && HaveLayerName(name2)
      requires LayerIndex(name1) < layerNb && LayerIndex(name2) < layerNb
      ensures Mask(infos[LayerIndex(name1)].contacts, OnlyCollision) & Bit(LayerIndex(name2)) != 0 <==> r == Collision
      ensures Mask(infos[LayerIndex(name1)].contacts, OnlyTrigger) & Bit(LayerIndex(name2)) != 0 <==> r == Trigger
    {
      GetCollision(LayerIndex(name1), LayerIndex(name2))
    }

    /** `resetLayer`: the slot loses its name and every contact. */
    method ResetLayer(index: nat)
      requires Valid() && index < MaxLayerNb
      modifies infos
      ensures Valid() && infos[..] == old(infos[..])[index := ResetInfos()]
    {
      infos[index] := infos[index].(name := "");
      for j := 0 to MaxLayerNb
        invariant Valid() && infos[index].name == ""
        invariant forall m :: 0 <= m < MaxLayerNb ==> infos[index].contacts[m] == if m < j then None else old(infos[index]).contacts[m]
        invariant forall i :: 0 <= i < MaxLayerNb && i != index ==> infos[i] == old(infos[i])
      {
        infos[index] := infos[index].(contacts := infos[index].contacts[j := None]);
      }
      assert infos[index] == ResetInfos();
    }

    /** `addLayer`: the next free slot gets the name and no contact; its
      * index, the old count, is returned. */
    method AddLayer(name: string) returns (index: nat)
      requires Valid() && layerNb < MaxLayerNb && !HaveLayerName(name)
      modifies this, infos
      ensures Valid() && index == old(layerNb) && layerNb == old(layerNb) + 1 && HaveLayer(index)
      ensures infos[..] == old(infos[..])[index := ResetInfos().(name := name)]
      ensures HaveLayerName(name) && LayerIndex(name) == index
      ensures forall j :: 0 <= j < layerNb ==> GetCollision(index, j) == None
    {
      ResetLayer(layerNb);
      infos[layerNb] := infos[layerNb].(name := name);
      layerNb := layerNb + 1;
      index := layerNb - 1;
      assert forall m :: 0 <= m < infos.Length && m != index ==> infos[m].name == old(infos[m].name);
      assert FindName(infos[..], name) == index by {
        assert old(FindName(infos[..], name)) == MaxLayerNb;
      }
    }

    /** `removeLayer(index)`: the rows above `index` move down one slot as
      * they are, and the freed top slot is reset. */
    method RemoveLayer(index: nat)
      requires Valid() && index < layerNb
      modifies this, infos
      ensures Valid() && layerNb == old(layerNb) - 1
      ensures infos[..] == Shifted(old(infos[..]), index, old(layerNb))
    {
      for i := index to layerNb - 1
        invariant Valid() && layerNb == old(layerNb)
        invariant forall m :: 0 <= m < MaxLayerNb ==> infos[m] == if index <= m < i then old(infos[m + 1]) else old(infos[m])
      {
        infos[i] := infos[i + 1];
      }
      layerNb := layerNb - 1;
      ResetLayer(layerNb);
    }

    /** `removeLayer(name)`. */
    method RemoveLayerNamed(name: string)
      requires Valid() && HaveLayerName(name) && LayerIndex(name) < layerNb
      modifies this, infos
      ensures Valid() && layerNb == old(layerNb) - 1
      ensures infos[..] == Shifted(old(infos[..]), old(LayerIndex(name)), old(layerNb))
    {
      RemoveLayer(LayerIndex(name));
    }

    /** `setCollision(a, b, t)`: the contact is set on both sides. */
    method SetCollision(a: nat, b: nat, t: ContactType)
      requires Valid() && a < layerNb && b < layerNb
      modifies infos
      ensures Valid() && infos[..] == SetBoth(old(infos[..]), a, b, t)
      ensures GetCollision(a, b) == t && GetCollision(b, a) == t
    {
      infos[a] := infos[a].(contacts := infos[a].contacts[b := t]);
      infos[b] := infos[b].(contacts := infos[b].contacts[a := t]);
      SetBothReads(old(infos[..]), a, b, t);
    }

    /** `setCollision` by names. */
    method SetCollisionNamed(name1: string, name2: string, t: ContactType)
      requires Valid() && HaveLayerName(name1) && HaveLayerName(name2)
      requires LayerIndex(name1) < layerNb && LayerIndex(name2) < layerNb
      modifies infos
      ensures Valid() && infos[..] == SetBoth(old(infos[..]), old(LayerIndex(name1)), old(LayerIndex(name2)), t)
    {
      SetCollision(LayerIndex(name1), LayerIndex(name2), t);
    }

    /** `collisionAndTriggerMask(index)`: bit i set for every contact. */
    method CollisionAndTriggerMask(index: nat) returns (mask: bv32)
      requires Valid() && index < layerNb
      ensures mask == Mask(infos[index].contacts, AnyContact)
    {
      mask := 0;
      for i := 0 to MaxLayerNb
        invariant mask == MaskUpTo(infos[index].contacts, AnyContact, i)
      {
        mask := OrBitIf(infos[index].contacts, AnyContact, i, mask);
      }
    }

    /** `collisionMask(index)`: bit i set for every `Collision` contact. */
    method CollisionMask(index: nat) returns (mask: bv32)
      requires Valid() && index < layerNb
      ensures mask == Mask(infos[index].contacts, OnlyCollision)
    {
      mask := 0;
      for i := 0 to MaxLayerNb
        invariant mask == MaskUpTo(infos[index].contacts, OnlyCollision, i)
      {
        mask := OrBitIf(infos[index].contacts, OnlyCollision, i, mask);
      }
    }

    /** `triggerMask(index)`: bit i set for every `Trigger` contact. */
    method TriggerMask(index: nat) returns (mask: bv32)
      requires Valid() && index < layerNb
      ensures mask == Mask(infos[index].contacts, OnlyTrigger)
    {
      mask := 0;
      for i := 0 to MaxLayerNb
        invariant mask == MaskUpTo(infos[index].contacts, OnlyTrigger, i)
      {
        mask := OrBitIf(infos[index].contacts, OnlyTrigger, i, mask);
      }
    }

    /** The three masks by name. */
    method MasksNamed(name: string) returns (both: bv32, collision: bv32, trigger: bv32)
      requires Valid() && HaveLayerName(name) && LayerIndex(name) < layerNb
      ensures both == Mask(infos[LayerIndex(name)].contacts, AnyContact)
      ensures collision == Mask(infos[LayerIndex(name)].contacts, OnlyCollision)
      ensures trigger == Mask(infos[LayerIndex(name)].contacts, OnlyTrigger)
    {
      both := CollisionAndTriggerMask(LayerIndex(name));
      collision := CollisionMask(LayerIndex(name));
      trigger := TriggerMask(LayerIndex(name));
    }
  }
}
