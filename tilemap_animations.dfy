// The tile animations of a tilemap: for a tile id, the list of tile ids it
// cycles through and the expression that drives the cycle.

module TilemapAnimation {
  import opened Wrappers
  import opened Sequences

  /** One registered animation. The expression is an opaque handle on the
    * parsed expression object the entry owns. */
  datatype Info = Info(tileID: nat, animation: seq<nat>, expression: nat)

  function Ids(es: seq<Info>): (r: seq<nat>)
    ensures |r| == |es| && forall i :: 0 <= i < |es| ==> r[i] == es[i].tileID
  {
    seq(|es|, i requires 0 <= i < |es| => es[i].tileID)
  }

  /** `find_if` on the tile id: the first entry carrying it, or the length
    * when there is none. */
  function Find(es: seq<Info>, id: nat): (k: nat)
    ensures k <= |es|
    ensures k < |es| ==> es[k].tileID == id
    ensures forall j :: 0 <= j < k ==> es[j].tileID != id
  {
    if |es| == 0 then 0
    else if es[0].tileID == id then 0
    else 1 + Find(es[1..], id)
  }

  /** The entry for a tile id, if any. */
  function Lookup(es: seq<Info>, id: nat): Option<Info>
  {
    var k := Find(es, id);
    if k < |es| then Some(es[k]) else None
  }

  /** With one entry per id, every position carrying an id is the one found. */
  lemma FindAll(es: seq<Info>, id: nat)
    ensures Distinct(Ids(es)) ==> forall k :: 0 <= k < |es| && es[k].tileID == id ==> Find(es, id) == k
  {
    forall k | 0 <= k < |es| && es[k].tileID == id && Distinct(Ids(es))
      ensures Find(es, id) == k
    {
      FindUnique(es, id, k);
    }
  }

  /** With one entry per id, the entry found for an id is the one at any
    * position carrying it. */
  lemma FindUnique(es: seq<Info>, id: nat, k: nat)
    requires Distinct(Ids(es)) && k < |es| && es[k].tileID == id
    ensures Find(es, id) == k
  {
    var f := Find(es, id);
    assert Ids(es)[f] == Ids(es)[k];
  }

  /** The search only looks at the ids. */
  lemma {:induction false} FindSameIds(es: seq<Info>, r: seq<Info>, id: nat)
    requires Ids(es) == Ids(r)
    ensures Find(es, id) == Find(r, id)
  {
    if |es| > 0 && es[0].tileID != id {
      assert Ids(es[1..]) == Ids(es)[1..] == Ids(r)[1..] == Ids(r[1..]);
      FindSameIds(es[1..], r[1..], id);
    }
  }

  /** Searching a list with one entry appended finds the old entry first. */
  lemma {:induction false} FindAppend(es: seq<Info>, e: Info, id: nat)
    ensures Find(es + [e], id) ==
      if Find(es, id) < |es| then Find(es, id) else if e.tileID == id then |es| else |es| + 1
  {
    if |es| > 0 && es[0].tileID != id {
      assert (es + [e])[1..] == es[1..] + [e];
      FindAppend(es[1..], e, id);
    }
  }

  /** Overwriting the entry of an id in place changes the lookup of that id
    * only, and keeps one entry per id. */
  lemma ReplaceLookup(es: seq<Info>, k: nat, e: Info)
    requires Distinct(Ids(es)) && k < |es| && es[k].tileID == e.tileID
    ensures Distinct(Ids(es[k := e]))
    ensures Find(es[k := e], e.tileID) == k
    ensures forall t :: Lookup(es[k := e], t) == if t == e.tileID then Some(e) else Lookup(es, t)
  {
    var r := es[k := e];
    assert Ids(r) == Ids(es);
    FindUnique(es, e.tileID, k);
    forall t
      ensures Lookup(r, t) == if t == e.tileID then Some(e) else Lookup(es, t)
    {
      FindSameIds(es, r, t);
      var f := Find(es, t);
      assert f < |es| && f != k ==> r[f] == es[f];
      assert f < |es| && t != e.tileID ==> f != k;
    }
  }

  /** An id no entry carries can be appended to the ids without repeating one. */
  lemma AppendIds(es: seq<Info>, e: Info)
    requires Distinct(Ids(es))
    requires forall j :: 0 <= j < |es| ==> es[j].tileID != e.tileID
    ensures Distinct(Ids(es + [e]))
  {
    var ids := Ids(es);
    assert Ids(es + [e]) == ids + [e.tileID];
    assert forall c :: c in ids ==> c !in [e.tileID];
    DistinctConcat(ids, [e.tileID]);
  }

  /** Appending the entry of a new id adds that id only. */
  lemma AppendLookup(es: seq<Info>, e: Info)
    requires Find(es, e.tileID) == |es|
    ensures forall t :: Lookup(es + [e], t) == if t == e.tileID then Some(e) else Lookup(es, t)
  {
    var r := es + [e];
    forall t
      ensures Lookup(r, t) == if t == e.tileID then Some(e) else Lookup(es, t)
    {
      FindAppend(es, e, t);
      var f := Find(es, t);
      assert f < |es| ==> r[f] == es[f];
      assert r[|es|] == e;
    }
  }

  /** The list with its entry k replaced by the last one, and the last one
    * dropped. */
  function SwapRemove(es: seq<Info>, k: nat): (r: seq<Info>)
    requires k < |es|
    ensures |r| == |es| - 1
  {
    es[k := es[|es| - 1]][..|es| - 1]
  }

  /** Swap-removing the entry of an id drops that id only, and keeps one
    * entry per id. */
  lemma SwapRemoveLookup(es: seq<Info>, k: nat)
    requires Distinct(Ids(es)) && k < |es|
    ensures Distinct(Ids(SwapRemove(es, k)))
    ensures forall t :: Lookup(SwapRemove(es, k), t) == if t == es[k].tileID then None else Lookup(es, t)
  {
    var r := SwapRemove(es, k);
    var n := |es| - 1;
    forall a, b | 0 <= a < b < |r|
      ensures Ids(r)[a] != Ids(r)[b]
    {
      var a' := if a == k then n else a;
      var b' := if b == k then n else b;
      assert r[a] == es[a'] && r[b] == es[b'] && a' != b';
      assert Ids(es)[a'] != Ids(es)[b'];
    }
    forall t
      ensures Lookup(r, t) == if t == es[k].tileID then None else Lookup(es, t)
    {
      var f := Find(es, t);
      if f < |es| && t != es[k].tileID {
        var f' := if f == n then k else f;
        assert f != k && r[f'] == es[f];
        FindUnique(r, t, f');
      } else {
        forall j | 0 <= j < |r|
          ensures r[j].tileID != t
        {
          var j' := if j == k then n else j;
          assert r[j] == es[j'] && j' != k;
          assert Ids(es)[j'] != Ids(es)[k];
        }
      }
    }
  }

  /** `TilemapAnimations`: the entries, the frame time and the modification
    * event, counted (its payload is empty). */
  class TilemapAnimations {
    var entries: seq<Info>
    var frameTime: real
    /** How many modification events were sent. */
    var modified: nat

    /** One entry per tile id. */
    predicate Valid()
      reads this
    {
      Distinct(Ids(entries))
    }

    /** The frame time defaults to 1, as in the program. */
    constructor (frameTime: real := 1.0)
      ensures Valid() && entries == [] && this.frameTime == frameTime && modified == 0
    {
      entries := [];
      this.frameTime := frameTime;
      modified := 0;
    }

    /** `registerAnimation`: overwrites the entry of the id in place (its
      * index stays), or appends a new one; sends one event. The frame list
      * must not be empty. */
    method RegisterAnimation(tileID: nat, animation: seq<nat>, expression: nat)
      requires Valid() && |animation| > 0
      modifies this
      ensures Valid()
      ensures forall t :: Lookup(entries, t) ==
                if t == tileID then Some(Info(tileID, animation, expression)) else Lookup(old(entries), t)
      ensures Find(old(entries), tileID) < |old(entries)| ==>
                |entries| == |old(entries)| && Find(entries, tileID) == Find(old(entries), tileID) &&
                entries == old(entries)[Find(old(entries), tileID) := Info(tileID, animation, expression)]
      ensures Find(old(entries), tileID) == |old(entries)| ==>
                entries == old(entries) + [Info(tileID, animation, expression)]
      ensures modified == old(modified) + 1 && frameTime == old(frameTime)
    {
      var e := Info(tileID, animation, expression);
      var k := Find(entries, tileID);
      if k < |entries| {
        ReplaceLookup(entries, k, e);
        entries := entries[k := e];
      } else {
        AppendIds(entries, e);
        AppendLookup(entries, e);
        entries := entries + [e];
      }
      modified := modified + 1;
    }

    /** `removeAnimation`: moves the last entry into the freed slot and pops
      * it, sending one event; an absent id changes nothing and sends none. */
    method RemoveAnimation(tileID: nat)
      requires Valid()
      modifies this
      ensures Valid()
      ensures forall t :: Lookup(entries, t) == if t == tileID then None else Lookup(old(entries), t)
      ensures var k := Find(old(entries), tileID);
        if k < |old(entries)| then entries == SwapRemove(old(entries), k) && modified == old(modified) + 1
        else entries == old(entries) && modified == old(modified)
      ensures frameTime == old(frameTime)
    {
      var k := Find(entries, tileID);
      if k < |entries| {
        SwapRemoveLookup(entries, k);
        entries := entries[k := entries[|entries| - 1]];
        entries := entries[..|entries| - 1];
        modified := modified + 1;
      } else {
        assert Lookup(entries, tileID) == None;
      }
    }

    /** `haveAnimation`. */
    function HaveAnimation(tileID: nat): (b: bool)
      reads this
      ensures b <==> exists k :: 0 <= k < |entries| && entries[k].tileID == tileID
      ensures b <==> Lookup(entries, tileID).Some?
    {
      Find(entries, tileID) < |entries|
    }

    /** `animation(tileID)`: the tile id must be registered; the frames its
      * lookup gives, held by the only entry carrying the id. */
    function AnimationOf(tileID: nat): (r: seq<nat>)
      requires HaveAnimation(tileID)
      reads this
      ensures Lookup(entries, tileID).Some? && Lookup(entries, tileID).value.animation == r
      ensures Valid() ==> forall k :: 0 <= k < |entries| && entries[k].tileID == tileID ==> r == entries[k].animation
    {
      FindAll(entries, tileID);
      entries[Find(entries, tileID)].animation
    }

    /** `animationExpression(tileID)`: the tile id must be registered; the
      * expression its lookup gives, held by the only entry carrying the id. */
    function AnimationExpression(tileID: nat): (r: nat)
      requires HaveAnimation(tileID)
      reads this
      ensures Lookup(entries, tileID).Some? && Lookup(entries, tileID).value.expression == r
      ensures Valid() ==> forall k :: 0 <= k < |entries| && entries[k].tileID == tileID ==> r == entries[k].expression
    {
      FindAll(entries, tileID);
      entries[Find(entries, tileID)].expression
    }

    /** `animation(index)`: the index must be in range; reading by position
      * agrees with reading by the id of the entry there. */
    function AnimationAt(index: nat): (r: seq<nat>)
      requires index < |entries|
      reads this
      ensures Valid() ==> HaveAnimation(entries[index].tileID) && r == AnimationOf(entries[index].tileID)
    {
      entries[index].animation
    }

    /** `index(tileID)`: the position of the entry, so the entry at that
      * position is the tile's. */
    function Index(tileID: nat): (index: nat)
      requires Valid() && HaveAnimation(tileID)
      reads this
      ensures index < |entries| && entries[index].tileID == tileID
      ensures AnimationAt(index) == AnimationOf(tileID)
      ensures forall k :: 0 <= k < |entries| && entries[k].tileID == tileID ==> k == index
    {
      var k := Find(entries, tileID);
      assert forall j :: 0 <= j < |entries| && entries[j].tileID == tileID ==> j == k by {
        forall j | 0 <= j < |entries| && entries[j].tileID == tileID
          ensures j == k
        {
          FindUnique(entries, tileID, j);
        }
      }
      k
    }

    /** `setFrameTime`: sends one event. */
    method SetFrameTime(time: real)
      modifies this
      ensures frameTime == time && modified == old(modified) + 1 && entries == old(entries)
    {
      frameTime := time;
      modified := modified + 1;
    }
  }
}
