// The animator component of an entity: the named integer properties that
// transition conditions read, the sprites it drives and its speed.

module AnimatorComponents {
  import opened Sequences

  /** A named property and its value (a C++ `int`; the model only stores
    * and compares values, so no width is needed). */
  datatype Property = Property(name: string, value: int)

  /** The property value of a missing name or index. */
  const DefaultValue: int := 0

  /** The four properties every component starts with, at indices 0 to 3. */
  const TimeName: string := "time"
  const TimeSingleName: string := "timeSingle"
  const FinishedName: string := "finished"
  const LoopName: string := "loops"

  function DefaultProperties(): seq<Property>
  {
    [Property(TimeName, DefaultValue), Property(TimeSingleName, DefaultValue),
     Property(FinishedName, DefaultValue), Property(LoopName, DefaultValue)]
  }

  function Names(ps: seq<Property>): (r: seq<string>)
    ensures |r| == |ps| && forall i :: 0 <= i < |ps| ==> r[i] == ps[i].name
  {
    seq(|ps|, i requires 0 <= i < |ps| => ps[i].name)
  }

  /** The position of the first property with the name, or the length. */
  function IndexOf(ps: seq<Property>, name: string): (k: nat)
    ensures k <= |ps|
    ensures k < |ps| ==> ps[k].name == name
    ensures forall j :: 0 <= j < k ==> ps[j].name != name
  {
    if |ps| == 0 then 0
    else if ps[0].name == name then 0
    else 1 + IndexOf(ps[1..], name)
  }

  /** `property(name)`: the value of the first property with the name, or
    * the default value. */
  function ValueOf(ps: seq<Property>, name: string): int
  {
    var k := IndexOf(ps, name);
    if k < |ps| then ps[k].value else DefaultValue
  }

  /** A name is missing exactly when the search runs off the end. */
  lemma IndexOfMissing(ps: seq<Property>, name: string)
    ensures IndexOf(ps, name) == |ps| <==> name !in Names(ps)
  {
    var k := IndexOf(ps, name);
    if k < |ps| {
      assert Names(ps)[k] == name;
    }
  }

  /** The search only looks at the names. */
  lemma {:induction false} IndexOfSameNames(ps: seq<Property>, qs: seq<Property>, name: string)
    requires Names(ps) == Names(qs)
    ensures IndexOf(ps, name) == IndexOf(qs, name)
  {
    if |ps| > 0 && ps[0].name != name {
      assert Names(ps[1..]) == Names(ps)[1..] == Names(qs)[1..] == Names(qs[1..]);
      IndexOfSameNames(ps[1..], qs[1..], name);
    }
  }

  /** Appending a property with a new name keeps the names distinct. */
  lemma AppendNames(ps: seq<Property>, p: Property)
    requires Distinct(Names(ps)) && p.name !in Names(ps)
    ensures Distinct(Names(ps + [p])) && Names(ps + [p]) == Names(ps) + [p.name]
  {
    assert Names(ps + [p]) == Names(ps) + [p.name];
    DistinctConcat(Names(ps), [p.name]);
  }

  /** Writing a value at the index found for a name makes it the value read
    * back for that name, and leaves every other name's value alone. */
  lemma WriteValue(ps: seq<Property>, k: nat, value: int, other: string)
    requires k < |ps|
    ensures var qs := ps[k := ps[k].(value := value)];
      Names(qs) == Names(ps) &&
      ValueOf(qs, ps[k].name) == (if IndexOf(ps, ps[k].name) == k then value else ValueOf(ps, ps[k].name)) &&
      (other != ps[k].name ==> ValueOf(qs, other) == ValueOf(ps, other))
  {
    var qs := ps[k := ps[k].(value := value)];
    assert Names(qs) == Names(ps);
    IndexOfSameNames(ps, qs, ps[k].name);
    IndexOfSameNames(ps, qs, other);
    var f := IndexOf(ps, other);
    assert f < |ps| && other != ps[k].name ==> f != k && qs[f] == ps[f];
  }

  /** `AnimatorComponent`: the properties, the default property indices, the
    * attached sprites (as handles) and the playback speed. */
  class AnimatorComponent {
    var properties: seq<Property>
    var propertyTime: nat
    var propertyTimeSingle: nat
    var propertyFinished: nat
    var propertyLoop: nat
    var sprites: seq<nat>
    var speed: real
    var currentState: nat

    /** Property names and sprites are never repeated, and the four default
      * indices name the four default properties. */
    predicate Valid()
      reads this
    {
      Distinct(Names(properties)) && Distinct(sprites) &&
      propertyTime < |properties| && properties[propertyTime].name == TimeName &&
      propertyTimeSingle < |properties| && properties[propertyTimeSingle].name == TimeSingleName &&
      propertyFinished < |properties| && properties[propertyFinished].name == FinishedName &&
      propertyLoop < |properties| && properties[propertyLoop].name == LoopName
    }

    constructor ()
      ensures Valid()
      ensures properties == DefaultProperties()
      ensures propertyTime == 0 && propertyTimeSingle == 1 && propertyFinished == 2 && propertyLoop == 3
      ensures sprites == [] && speed == 1.0 && currentState == 0
    {
      properties := [];
      sprites := [];
      speed := 1.0;
      currentState := 0;
      propertyTime, propertyTimeSingle, propertyFinished, propertyLoop := 0, 0, 0, 0;
      new;
      AddDefaultProperties();
    }

    /** `addDefaultProperties`, called on an empty property list: registers
      * the four defaults in order and remembers their indices. */
    method AddDefaultProperties()
      requires properties == [] && Distinct(sprites)
      modifies this
      ensures Valid()
      ensures properties == DefaultProperties()
      ensures propertyTime == 0 && propertyTimeSingle == 1 && propertyFinished == 2 && propertyLoop == 3
      ensures sprites == old(sprites) && speed == old(speed) && currentState == old(currentState)
    {
      var ps := DefaultProperties();
      propertyTime := PropertyIndex(TimeName);
      assert properties == ps[..1];
      assert TimeSingleName !in Names(ps[..1]);
      propertyTimeSingle := PropertyIndex(TimeSingleName);
      assert properties == ps[..2];
      assert FinishedName !in Names(ps[..2]);
      propertyFinished := PropertyIndex(FinishedName);
      assert properties == ps[..3];
      assert LoopName !in Names(ps[..3]);
      propertyLoop := PropertyIndex(LoopName);
      assert properties == ps;
    }

    /** `propertyIndex`: the index of the first property with the name;
      * a new name is appended with the default value. */
    method PropertyIndex(name: string) returns (index: nat)
      modifies this
      ensures index == IndexOf(old(properties), name)
      ensures name in Names(old(properties)) ==>
                properties == old(properties) && index == IndexOf(properties, name)
      ensures name !in Names(old(properties)) ==>
                properties == old(properties) + [Property(name, DefaultValue)] && index == |old(properties)|
      ensures index < |properties| && properties[index].name == name
      ensures Distinct(Names(old(properties))) ==> Distinct(Names(properties))
      ensures sprites == old(sprites) && speed == old(speed) && currentState == old(currentState)
      ensures propertyTime == old(propertyTime) && propertyTimeSingle == old(propertyTimeSingle)
      ensures propertyFinished == old(propertyFinished) && propertyLoop == old(propertyLoop)
    {
      IndexOfMissing(properties, name);
      for i := 0 to |properties|
        invariant forall j :: 0 <= j < i ==> properties[j].name != name
      {
        if properties[i].name == name {
          return i;
        }
      }
      if Distinct(Names(properties)) {
        AppendNames(properties, Property(name, DefaultValue));
      }
      properties := properties + [Property(name, DefaultValue)];
      index := |properties| - 1;
    }

    /** `setProperty(index, value)`: unchecked in the program, so the index
      * must be in range. */
    method SetProperty(index: nat, value: int)
      requires index < |properties|
      modifies this
      ensures properties == old(properties)[index := old(properties)[index].(value := value)]
      ensures Names(properties) == Names(old(properties))
      ensures sprites == old(sprites) && speed == old(speed) && currentState == old(currentState)
      ensures propertyTime == old(propertyTime) && propertyTimeSingle == old(propertyTimeSingle)
      ensures propertyFinished == old(propertyFinished) && propertyLoop == old(propertyLoop)
    {
      properties := properties[index := properties[index].(value := value)];
    }

    /** `setProperty(name, value)`: registers the name if needed, writes the
      * value, and returns the index; reading the name back gives the value
      * and no other name's value moves. */
    method SetPropertyNamed(name: string, value: int) returns (index: nat)
      requires Valid()
      modifies this
      ensures Valid()
      ensures index < |properties| && properties[index] == Property(name, value)
      ensures ValueOf(properties, name) == value
      ensures forall other :: other != name ==> ValueOf(properties, other) == ValueOf(old(properties), other)
      ensures name in Names(old(properties)) ==> Names(properties) == Names(old(properties))
      ensures name !in Names(old(properties)) ==> Names(properties) == Names(old(properties)) + [name]
      ensures sprites == old(sprites) && speed == old(speed) && currentState == old(currentState)
      ensures propertyTime == old(propertyTime) && propertyTimeSingle == old(propertyTimeSingle)
      ensures propertyFinished == old(propertyFinished) && propertyLoop == old(propertyLoop)
    {
      ghost var before := properties;
      index := PropertyIndex(name);
      ghost var mid := properties;
      assert forall other :: other != name ==> ValueOf(mid, other) == ValueOf(before, other) by {
        forall other | other != name
          ensures ValueOf(mid, other) == ValueOf(before, other)
        {
          if name !in Names(before) {
            AppendValue(before, Property(name, DefaultValue), other);
          }
        }
      }
      assert IndexOf(mid, name) == index by {
        if name !in Names(before) {
          AppendValue(before, Property(name, DefaultValue), name);
          IndexOfMissing(before, name);
        }
      }
      forall other
        ensures var qs := mid[index := mid[index].(value := value)];
          Names(qs) == Names(mid) &&
          ValueOf(qs, name) == (if IndexOf(mid, name) == index then value else ValueOf(mid, name)) &&
          (other != name ==> ValueOf(qs, other) == ValueOf(mid, other))
      {
        WriteValue(mid, index, value, other);
      }
      SetProperty(index, value);
      if name !in Names(before) {
        AppendNames(before, Property(name, DefaultValue));
      }
    }

    /** `property(name)`: a scan for the first property with the name; a
      * missing name reads as the default value. */
    method PropertyNamed(name: string) returns (value: int)
      ensures value == ValueOf(properties, name)
      ensures name !in Names(properties) ==> value == DefaultValue
    {
      IndexOfMissing(properties, name);
      for i := 0 to |properties|
        invariant forall j :: 0 <= j < i ==> properties[j].name != name
      {
        if properties[i].name == name {
          return properties[i].value;
        }
      }
      return DefaultValue;
    }

    /** `property(index)`: an index past the end reads as the default value. */
    function PropertyAt(index: nat): (value: int)
      reads this
      ensures index >= |properties| ==> value == DefaultValue
    {
      if index < |properties| then properties[index].value else DefaultValue
    }

    /** `resetProperties(keepIndexs)`: either zeroes every value in place,
      * keeping names and order, or starts again from the four defaults. */
    method ResetProperties(keepIndexs: bool := true)
      requires Valid()
      modifies this
      ensures Valid()
      ensures keepIndexs ==> Names(properties) == Names(old(properties)) &&
                             forall i :: 0 <= i < |properties| ==> properties[i].value == DefaultValue
      ensures keepIndexs ==> propertyTime == old(propertyTime) && propertyTimeSingle == old(propertyTimeSingle) &&
                             propertyFinished == old(propertyFinished) && propertyLoop == old(propertyLoop)
      ensures !keepIndexs ==> properties == DefaultProperties() &&
                              propertyTime == 0 && propertyTimeSingle == 1 && propertyFinished == 2 && propertyLoop == 3
      ensures sprites == old(sprites) && speed == old(speed) && currentState == old(currentState)
    {
      if !keepIndexs {
        properties := [];
        AddDefaultProperties();
        return;
      }
      for i := 0 to |properties|
        invariant |properties| == |old(properties)| && Names(properties) == Names(old(properties))
        invariant forall j :: 0 <= j < i ==> properties[j].value == DefaultValue
        invariant sprites == old(sprites) && speed == old(speed) && currentState == old(currentState)
        invariant propertyTime == old(propertyTime) && propertyTimeSingle == old(propertyTimeSingle)
        invariant propertyFinished == old(propertyFinished) && propertyLoop == old(propertyLoop)
      {
        properties := properties[i := properties[i].(value := DefaultValue)];
      }
    }

    /** `attachSprite`: a sprite already attached is not added twice. */
    method AttachSprite(sprite: nat)
      requires Distinct(sprites)
      modifies this
      ensures Distinct(sprites)
      ensures sprites == if sprite in old(sprites) then old(sprites) else old(sprites) + [sprite]
      ensures properties == old(properties) && speed == old(speed) && currentState == old(currentState)
      ensures propertyTime == old(propertyTime) && propertyTimeSingle == old(propertyTimeSingle)
      ensures propertyFinished == old(propertyFinished) && propertyLoop == old(propertyLoop)
    {
      if sprite !in sprites {
        DistinctConcat(sprites, [sprite]);
        sprites := sprites + [sprite];
      }
    }

    /** `detachSprite`: moves the last sprite into the freed slot and pops
      * it; true exactly when the sprite was attached. */
    method DetachSprite(sprite: nat) returns (found: bool)
      requires Distinct(sprites)
      modifies this
      ensures found <==> sprite in old(sprites)
      ensures Distinct(sprites) && sprite !in sprites
      ensures forall s :: s in sprites <==> s in old(sprites) && s != sprite
      ensures |sprites| == if found then |old(sprites)| - 1 else |old(sprites)|
      ensures found ==> var k := FindSprite(old(sprites), sprite);
        sprites == old(sprites)[k := old(sprites)[|old(sprites)| - 1]][..|old(sprites)| - 1]
      ensures !found ==> sprites == old(sprites)
      ensures properties == old(properties) && speed == old(speed) && currentState == old(currentState)
      ensures propertyTime == old(propertyTime) && propertyTimeSingle == old(propertyTimeSingle)
      ensures propertyFinished == old(propertyFinished) && propertyLoop == old(propertyLoop)
    {
      var k := FindSprite(sprites, sprite);
      if k < |sprites| {
        SwapRemoveSprites(sprites, k);
        sprites := sprites[k := sprites[|sprites| - 1]][..|sprites| - 1];
        return true;
      }
      return false;
    }

    /** `detachAllSprite`. */
    method DetachAllSprite()
      modifies this
      ensures sprites == [] && properties == old(properties) && speed == old(speed)
      ensures currentState == old(currentState)
      ensures propertyTime == old(propertyTime) && propertyTimeSingle == old(propertyTimeSingle)
      ensures propertyFinished == old(propertyFinished) && propertyLoop == old(propertyLoop)
    {
      sprites := [];
    }

    method SetSpeed(speed: real)
      modifies this
      ensures this.speed == speed && properties == old(properties) && sprites == old(sprites)
      ensures currentState == old(currentState)
      ensures propertyTime == old(propertyTime) && propertyTimeSingle == old(propertyTimeSingle)
      ensures propertyFinished == old(propertyFinished) && propertyLoop == old(propertyLoop)
    {
      this.speed := speed;
    }
  }

  /** Appending a property with a new name leaves every other name's value
    * alone and reads back the appended value for its own name. */
  lemma AppendValue(ps: seq<Property>, p: Property, name: string)
    requires p.name !in Names(ps)
    ensures ValueOf(ps + [p], name) == if name == p.name then p.value else ValueOf(ps, name)
    ensures name == p.name ==> IndexOf(ps + [p], name) == |ps|
  {
    IndexOfAppend(ps, p, name);
    IndexOfMissing(ps, p.name);
    var k := IndexOf(ps, name);
    assert k < |ps| ==> (ps + [p])[k] == ps[k];
  }

  lemma {:induction false} IndexOfAppend(ps: seq<Property>, p: Property, name: string)
    ensures IndexOf(ps + [p], name) ==
      if IndexOf(ps, name) < |ps| then IndexOf(ps, name) else if p.name == name then |ps| else |ps| + 1
  {
    if |ps| > 0 && ps[0].name != name {
      assert (ps + [p])[1..] == ps[1..] + [p];
      IndexOfAppend(ps[1..], p, name);
    }
  }

  /** `find` on the sprites: the position of the sprite, or the length. */
  function FindSprite(ss: seq<nat>, s: nat): (k: nat)
    ensures k <= |ss| && (k < |ss| ==> ss[k] == s)
    ensures k == |ss| <==> s !in ss
  {
    if |ss| == 0 then 0
    else if ss[0] == s then 0
    else 1 + FindSprite(ss[1..], s)
  }

  /** Swap-removing a sprite from a list without repeats drops exactly it. */
  lemma SwapRemoveSprites(ss: seq<nat>, k: nat)
    requires Distinct(ss) && k < |ss|
    ensures var r := ss[k := ss[|ss| - 1]][..|ss| - 1];
      Distinct(r) && forall s :: s in r <==> s in ss && s != ss[k]
  {
    var n := |ss| - 1;
    var r := ss[k := ss[n]][..n];
    forall a, b | 0 <= a < b < |r|
      ensures r[a] != r[b]
    {
      var a' := if a == k then n else a;
      var b' := if b == k then n else b;
      assert r[a] == ss[a'] && r[b] == ss[b'] && a' != b';
    }
    forall s
      ensures s in r <==> s in ss && s != ss[k]
    {
      if s in ss && s != ss[k] {
        var j :| 0 <= j < |ss| && ss[j] == s;
        var j' := if j == n then k else j;
        assert r[j'] == s;
      }
      if s in r {
        var j :| 0 <= j < |r| && r[j] == s;
        var j' := if j == k then n else j;
        assert ss[j'] == s && j' != k;
      }
    }
  }
}
