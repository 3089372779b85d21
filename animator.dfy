// The animator: named animation states, the transitions between them and
// the state an animated entity starts in.

module Animators {
  import opened Sequences
  import Animations

  /** A named state: the animation it plays, mirrored or not, and the
    * transitions leaving it (a list nothing shown here fills in). */
  datatype State = State(name: string, animation: Animations.Animation?, xFlipped: bool, yFlipped: bool,
                         transitionIndexs: seq<nat>)

  /** A transition between two states, by index, under a condition expression. */
  datatype Transition = Transition(fromState: nat, toState: nat, condition: string)

  /** The state names, in order. */
  function Names(ss: seq<State>): (r: seq<string>)
    ensures |r| == |ss| && forall i :: 0 <= i < |ss| ==> r[i] == ss[i].name
  {
    seq(|ss|, i requires 0 <= i < |ss| => ss[i].name)
  }

  /** A transition touches a state when it leaves it or enters it. */
  predicate Touches(t: Transition, index: nat)
  {
    t.fromState == index || t.toState == index
  }

  /** The transitions that do not touch `index`, in their original order. */
  function Kept(ts: seq<Transition>, index: nat): (r: seq<Transition>)
    ensures |r| <= |ts|
    ensures forall t :: t in r <==> t in ts && !Touches(t, index)
  {
    if |ts| == 0 then []
    else
      var rest := Kept(ts[..|ts| - 1], index);
      var t := ts[|ts| - 1];
      assert ts == ts[..|ts| - 1] + [t];
      if Touches(t, index) then rest else rest + [t]
  }

  /** Filtering a list is filtering its two halves. */
  lemma {:induction false} KeptConcat(a: seq<Transition>, b: seq<Transition>, index: nat)
    ensures Kept(a + b, index) == Kept(a, index) + Kept(b, index)
  {
    if |b| == 0 {
      assert a + b == a;
    } else {
      var n := |b| - 1;
      var t, ka := b[n], Kept(a, index);
      assert (a + b)[..|a + b| - 1] == a + b[..n] && (a + b)[|a + b| - 1] == t;
      KeptConcat(a, b[..n], index);
      var front, back := Kept(a + b[..n], index), Kept(b[..n], index);
      if Touches(t, index) {
        assert Kept(a + b, index) == front && Kept(b, index) == back;
      } else {
        assert Kept(a + b, index) == front + [t] && Kept(b, index) == back + [t];
        assert (ka + back) + [t] == ka + (back + [t]);
      }
    }
  }

  /** Where a state index lands once state `index` is erased. */
  function Shift(i: nat, index: nat): nat
  {
    if i > index then i - 1 else i
  }

  function Renumber(t: Transition, index: nat): Transition
  {
    t.(fromState := Shift(t.fromState, index), toState := Shift(t.toState, index))
  }

  /** The kept transitions with their state indices shifted. */
  function RenumberAll(ts: seq<Transition>, index: nat): (r: seq<Transition>)
    ensures |r| == |ts| && forall j :: 0 <= j < |ts| ==> r[j] == Renumber(ts[j], index)
  {
    seq(|ts|, j requires 0 <= j < |ts| => Renumber(ts[j], index))
  }

  /** The position of the first state with the name. */
  function FirstNamed(ss: seq<State>, name: string): (i: nat)
    requires name in Names(ss)
    ensures i < |ss| && ss[i].name == name
    ensures forall j :: 0 <= j < i ==> ss[j].name != name
  {
    if ss[0].name == name then 0
    else
      var k :| 0 <= k < |ss| && Names(ss)[k] == name;
      assert Names(ss[1..])[k - 1] == name;
      1 + FirstNamed(ss[1..], name)
  }

  /** With distinct names the first state with a name is the only one. */
  lemma FirstNamedUnique(ss: seq<State>, name: string, i: nat)
    requires Distinct(Names(ss)) && i < |ss| && ss[i].name == name
    ensures name in Names(ss) && FirstNamed(ss, name) == i
  {
    assert Names(ss)[i] == name;
    var f := FirstNamed(ss, name);
    assert Names(ss)[f] == name;
  }

  /** With distinct names the state at `i` is the first with its name. */
  lemma OnlyNamed(ss: seq<State>, name: string, i: nat)
    requires i < |ss| && ss[i].name == name
    ensures name in Names(ss)
    ensures Distinct(Names(ss)) ==> FirstNamed(ss, name) == i
  {
    assert Names(ss)[i] == name;
    if Distinct(Names(ss)) {
      FirstNamedUnique(ss, name, i);
    }
  }

  /** With distinct names every state carrying a name is the first one. */
  lemma OnlyNamedAll(ss: seq<State>, name: string)
    requires name in Names(ss)
    ensures Distinct(Names(ss)) ==> forall i :: 0 <= i < |ss| && ss[i].name == name ==> i == FirstNamed(ss, name)
  {
    forall i | 0 <= i < |ss| && ss[i].name == name && Distinct(Names(ss))
      ensures i == FirstNamed(ss, name)
    {
      FirstNamedUnique(ss, name, i);
    }
  }

  /** Every state other than the erased one keeps its place in order, so its
    * shifted index names the same state. */
  lemma ShiftKeepsState(ss: seq<State>, index: nat, i: nat)
    requires index < |ss| && i < |ss| && i != index
    ensures Shift(i, index) < |ss| - 1 && RemoveAt(ss, index)[Shift(i, index)] == ss[i]
  {
  }

  /** Once state `index` and the transitions touching it are gone, every
    * remaining transition links, by its shifted indices, the same two
    * states as before. */
  lemma RemovedLinks(ss: seq<State>, ts: seq<Transition>, index: nat)
    requires index < |ss|
    requires forall t :: t in ts ==> t.fromState < |ss| && t.toState < |ss|
    ensures forall t :: t in RenumberAll(Kept(ts, index), index) ==>
              t.fromState < |ss| - 1 && t.toState < |ss| - 1
    ensures forall j :: 0 <= j < |Kept(ts, index)| ==>
              RemoveAt(ss, index)[Shift(Kept(ts, index)[j].fromState, index)] == ss[Kept(ts, index)[j].fromState] &&
              RemoveAt(ss, index)[Shift(Kept(ts, index)[j].toState, index)] == ss[Kept(ts, index)[j].toState]
  {
    var kept := Kept(ts, index);
    var r := RenumberAll(kept, index);
    forall j | 0 <= j < |kept|
      ensures r[j].fromState < |ss| - 1 && r[j].toState < |ss| - 1
      ensures RemoveAt(ss, index)[Shift(kept[j].fromState, index)] == ss[kept[j].fromState]
      ensures RemoveAt(ss, index)[Shift(kept[j].toState, index)] == ss[kept[j].toState]
    {
      assert kept[j] in kept;
      ShiftKeepsState(ss, index, kept[j].fromState);
      ShiftKeepsState(ss, index, kept[j].toState);
    }
  }

  /** Erasing the first state with a name removes the name, since names are
    * distinct. */
  lemma RemoveDropsName(ss: seq<State>, index: nat, name: string)
    requires index < |ss| && Distinct(Names(ss)) && ss[index].name == name
    ensures name !in Names(RemoveAt(ss, index))
  {
    var r := RemoveAt(ss, index);
    forall k | 0 <= k < |r|
      ensures Names(r)[k] != name
    {
      var k' := if k < index then k else k + 1;
      assert r[k] == ss[k'] && k' != index;
      assert Names(ss)[k'] != Names(ss)[index];
    }
  }

  /** Renaming a state to an unused name leaves its old name unused, since
    * names are distinct. */
  lemma RenameDropsName(ss: seq<State>, index: nat, newName: string)
    requires index < |ss| && Distinct(Names(ss)) && newName !in Names(ss)
    ensures var r := ss[index := ss[index].(name := newName)];
      newName in Names(r) && ss[index].name !in Names(r) && Distinct(Names(r))
  {
    var r := ss[index := ss[index].(name := newName)];
    assert Names(r)[index] == newName;
    forall k | 0 <= k < |r|
      ensures Names(r)[k] != ss[index].name
    {
      if k != index {
        assert Names(ss)[k] != Names(ss)[index];
      } else {
        assert Names(ss)[index] in Names(ss);
      }
    }
    forall a, b | 0 <= a < b < |r|
      ensures Names(r)[a] != Names(r)[b]
    {
      if a != index && b != index {
        assert Names(ss)[a] != Names(ss)[b];
      } else if a == index {
        assert Names(ss)[b] in Names(ss);
      } else {
        assert Names(ss)[a] in Names(ss);
      }
    }
  }

  /** Erasing one state keeps the other names distinct. */
  lemma RemoveKeepsNamesDistinct(ss: seq<State>, index: nat)
    requires index < |ss| && Distinct(Names(ss))
    ensures Distinct(Names(RemoveAt(ss, index)))
  {
    var r := RemoveAt(ss, index);
    forall a, b | 0 <= a < b < |r|
      ensures r[a].name != r[b].name
    {
      var a' := if a < index then a else a + 1;
      var b' := if b < index then b else b + 1;
      assert r[a] == ss[a'] && r[b] == ss[b'] && a' < b';
      assert Names(ss)[a'] != Names(ss)[b'];
    }
  }

  /** Changing one state without changing its name keeps the names. */
  lemma UpdateKeepsNames(ss: seq<State>, index: nat, s: State)
    requires index < |ss| && s.name == ss[index].name
    ensures Names(ss[index := s]) == Names(ss)
  {
  }

  /** The guard `animationExist(index)` as written: it admits the index one
    * past the last state. */
  predicate ExistsAsWritten(ss: seq<State>, index: nat)
  {
    index <= |ss|
  }

  /** The guard the accessors need: the index names a state. */
  predicate HaveState(ss: seq<State>, index: nat)
  {
    index < |ss|
  }

  /** The written guard lets the state count through, where `m_states[index]`
    * reads past the end; the corrected guard refuses it. */
  lemma ExistsAsWrittenAdmitsCount(ss: seq<State>)
    ensures ExistsAsWritten(ss, |ss|) && !HaveState(ss, |ss|)
  {
  }

  /** `Animator`: its states, its transitions and its default state index. */
  class Animator {
    var states: seq<State>
    var transitions: seq<Transition>
    var defaultIndex: nat

    /** Names are unique and every transition links two existing states. */
    predicate Valid()
      reads this
    {
      Distinct(Names(states)) &&
      forall t :: t in transitions ==> t.fromState < |states| && t.toState < |states|
    }

    constructor ()
      ensures Valid() && states == [] && transitions == [] && defaultIndex == 0
    {
      states := [];
      transitions := [];
      defaultIndex := 0;
    }

    /** `animationExist(name)`: a scan for the name. */
    method AnimationExistNamed(name: string) returns (b: bool)
      ensures b <==> name in Names(states)
    {
      for i := 0 to |states|
        invariant name !in Names(states)[..i]
      {
        if states[i].name == name {
          assert Names(states)[i] == name;
          return true;
        }
        assert Names(states)[..i + 1] == Names(states)[..i] + [states[i].name];
      }
      assert Names(states)[..|states|] == Names(states);
      return false;
    }

    /** `animationExist(index)` as written (`index <= size`). */
    method AnimationExist(index: nat) returns (b: bool)
      ensures b <==> ExistsAsWritten(states, index)
      ensures b <==> HaveState(states, index) || index == |states|
    {
      b := index <= |states|;
    }

    /** `animationIndex`: the first state carrying the name; a missing name
      * is a failed assertion. */
    method AnimationIndex(name: string) returns (index: nat)
      requires name in Names(states)
      ensures index == FirstNamed(states, name)
    {
      var i := 0;
      while i < |states| && states[i].name != name
        invariant 0 <= i <= |states|
        invariant forall j :: 0 <= j < i ==> states[j].name != name
        invariant i <= FirstNamed(states, name)
      {
        i := i + 1;
      }
      return i;
    }

    /** `addAnimation`: appends a state with no transitions and returns its
      * index; the name must be new. */
    method AddAnimation(name: string, anim: Animations.Animation?, xFlipped: bool := false, yFlipped: bool := false)
      returns (index: nat)
      requires Valid() && name !in Names(states)
      modifies this
      ensures Valid()
      ensures states == old(states) + [State(name, anim, xFlipped, yFlipped, [])]
      ensures index == |old(states)| && states[index].name == name
      ensures transitions == old(transitions) && defaultIndex == old(defaultIndex)
    {
      var s := State(name, anim, xFlipped, yFlipped, []);
      assert Names(states + [s]) == Names(states) + [name];
      DistinctConcat(Names(states), [name]);
      states := states + [s];
      index := |states| - 1;
    }

    /** `removeAnimation(index)`: drops the transitions touching the state,
      * renumbers the others in place, erases the state and moves the
      * default index down when it was above the erased one. */
    method RemoveAnimation(index: nat)
      requires Valid() && HaveState(states, index)
      modifies this
      ensures Valid()
      ensures states == RemoveAt(old(states), index)
      ensures transitions == RenumberAll(Kept(old(transitions), index), index)
      ensures forall j :: 0 <= j < |transitions| ==>
                states[transitions[j].fromState] == old(states)[Kept(old(transitions), index)[j].fromState] &&
                states[transitions[j].toState] == old(states)[Kept(old(transitions), index)[j].toState]
      ensures defaultIndex == if old(defaultIndex) > index then old(defaultIndex) - 1 else old(defaultIndex)
    {
      var kept := Kept(transitions, index);
      var ts := kept;
      for k := 0 to |ts|
        invariant |ts| == |kept|
        invariant forall j :: 0 <= j < k ==> ts[j] == Renumber(kept[j], index)
        invariant forall j :: k <= j < |kept| ==> ts[j] == kept[j]
      {
        var t := ts[k];
        if t.fromState > index {
          t := t.(fromState := t.fromState - 1);
        }
        if t.toState > index {
          t := t.(toState := t.toState - 1);
        }
        ts := ts[k := t];
      }
      RemovedLinks(states, transitions, index);
      RemoveKeepsNamesDistinct(states, index);
      transitions := ts;
      states := RemoveAt(states, index);
      if defaultIndex > index {
        defaultIndex := defaultIndex - 1;
      }
    }

    /** `removeAnimation(name)`: removal of the first state with that name. */
    method RemoveAnimationNamed(name: string)
      requires Valid() && name in Names(states)
      modifies this
      ensures Valid() && |states| == |old(states)| - 1 && name !in Names(states)
      ensures var i := FirstNamed(old(states), name);
        && states == RemoveAt(old(states), i)
        && transitions == RenumberAll(Kept(old(transitions), i), i)
        && defaultIndex == if old(defaultIndex) > i then old(defaultIndex) - 1 else old(defaultIndex)
    {
      var index := AnimationIndex(name);
      RemoveDropsName(states, index, name);
      RemoveAnimation(index);
    }

    /** `renameAnimation(index, newName)`: the new name must be unused. */
    method RenameAnimation(index: nat, newName: string)
      requires Valid() && HaveState(states, index) && newName !in Names(states)
      modifies this
      ensures Valid()
      ensures states == old(states)[index := old(states)[index].(name := newName)]
      ensures Names(states) == old(Names(states))[index := newName]
      ensures transitions == old(transitions) && defaultIndex == old(defaultIndex)
    {
      RenameDropsName(states, index, newName);
      states := states[index := states[index].(name := newName)];
    }

    /** `renameAnimation(name, newName)`. */
    method RenameAnimationNamed(name: string, newName: string)
      requires Valid() && name in Names(states) && newName !in Names(states)
      modifies this
      ensures Valid() && newName in Names(states) && name !in Names(states)
      ensures var i := FirstNamed(old(states), name);
        states == old(states)[i := old(states)[i].(name := newName)]
      ensures transitions == old(transitions) && defaultIndex == old(defaultIndex)
    {
      var index := AnimationIndex(name);
      RenameDropsName(states, index, newName);
      RenameAnimation(index, newName);
    }

    /** `setAnimation(index, animation)`: only that state's animation changes. */
    method SetAnimation(index: nat, anim: Animations.Animation?)
      requires Valid() && HaveState(states, index)
      modifies this
      ensures Valid()
      ensures states == old(states)[index := old(states)[index].(animation := anim)]
      ensures transitions == old(transitions) && defaultIndex == old(defaultIndex)
    {
      UpdateKeepsNames(states, index, states[index].(animation := anim));
      states := states[index := states[index].(animation := anim)];
    }

    /** `setAnimationXFlipped(index, flipped)`: only that state's flag changes. */
    method SetAnimationXFlipped(index: nat, flipped: bool)
      requires Valid() && HaveState(states, index)
      modifies this
      ensures Valid()
      ensures states == old(states)[index := old(states)[index].(xFlipped := flipped)]
      ensures transitions == old(transitions) && defaultIndex == old(defaultIndex)
    {
      UpdateKeepsNames(states, index, states[index].(xFlipped := flipped));
      states := states[index := states[index].(xFlipped := flipped)];
    }

    /** `setAnimationYFlipped(index, flipped)`: only that state's flag changes. */
    method SetAnimationYFlipped(index: nat, flipped: bool)
      requires Valid() && HaveState(states, index)
      modifies this
      ensures Valid()
      ensures states == old(states)[index := old(states)[index].(yFlipped := flipped)]
      ensures transitions == old(transitions) && defaultIndex == old(defaultIndex)
    {
      UpdateKeepsNames(states, index, states[index].(yFlipped := flipped));
      states := states[index := states[index].(yFlipped := flipped)];
    }

    /** `setDefaultAnimation(index)`. */
    method SetDefaultAnimation(index: nat)
      requires HaveState(states, index)
      modifies this
      ensures defaultIndex == index && HaveState(states, defaultIndex)
      ensures states == old(states) && transitions == old(transitions)
    {
      defaultIndex := index;
    }

    /** The name overloads of the setters: the first state with the name. */
    method SetAnimationNamed(name: string, anim: Animations.Animation?)
      requires Valid() && name in Names(states)
      modifies this
      ensures Valid()
      ensures var i := FirstNamed(old(states), name);
        states == old(states)[i := old(states)[i].(animation := anim)]
      ensures transitions == old(transitions) && defaultIndex == old(defaultIndex)
    {
      var index := AnimationIndex(name);
      SetAnimation(index, anim);
    }

    method SetAnimationXFlippedNamed(name: string, flipped: bool)
      requires Valid() && name in Names(states)
      modifies this
      ensures Valid()
      ensures var i := FirstNamed(old(states), name);
        states == old(states)[i := old(states)[i].(xFlipped := flipped)]
      ensures transitions == old(transitions) && defaultIndex == old(defaultIndex)
    {
      var index := AnimationIndex(name);
      SetAnimationXFlipped(index, flipped);
    }

    method SetAnimationYFlippedNamed(name: string, flipped: bool)
      requires Valid() && name in Names(states)
      modifies this
      ensures Valid()
      ensures var i := FirstNamed(old(states), name);
        states == old(states)[i := old(states)[i].(yFlipped := flipped)]
      ensures transitions == old(transitions) && defaultIndex == old(defaultIndex)
    {
      var index := AnimationIndex(name);
      SetAnimationYFlipped(index, flipped);
    }

    method SetDefaultAnimationNamed(name: string)
      requires Valid() && name in Names(states)
      modifies this
      ensures states == old(states) && transitions == old(transitions)
      ensures defaultIndex == FirstNamed(states, name)
    {
      var index := AnimationIndex(name);
      SetDefaultAnimation(index);
    }

    /** The getters; an index getter asserts the index names a state. */
    /** `animationName`: the name of a state, and looking that name up gives
      * the index back, since names are distinct. */
    function AnimationName(index: nat): (r: string)
      requires HaveState(states, index)
      reads this
      ensures r in Names(states)
      ensures Valid() ==> FirstNamed(states, r) == index
    {
      OnlyNamed(states, states[index].name, index);
      states[index].name
    }

    /** `animationCount`: the indices below it are exactly those naming a state. */
    function AnimationCount(): (r: nat)
      reads this
      ensures forall i: nat :: HaveState(states, i) <==> i < r
    {
      |states|
    }

    /** `animation(name)`: the animation of the state with the name. */
    function AnimationOfNamed(name: string): (r: Animations.Animation?)
      requires name in Names(states)
      reads this
      ensures Valid() ==> forall i :: 0 <= i < |states| && states[i].name == name ==> r == states[i].animation
    {
      OnlyNamedAll(states, name);
      states[FirstNamed(states, name)].animation
    }

    /** `animation(index)`: reading by index agrees with reading by the
      * state's name. */
    function AnimationOf(index: nat): (r: Animations.Animation?)
      requires HaveState(states, index)
      reads this
      ensures Valid() ==> r == AnimationOfNamed(AnimationName(index))
    {
      states[index].animation
    }

    /** `isAnimationXFlipped(name)`. */
    function IsAnimationXFlippedNamed(name: string): (r: bool)
      requires name in Names(states)
      reads this
      ensures Valid() ==> forall i :: 0 <= i < |states| && states[i].name == name ==> r == states[i].xFlipped
    {
      OnlyNamedAll(states, name);
      states[FirstNamed(states, name)].xFlipped
    }

    /** `isAnimationXFlipped(index)`. */
    function IsAnimationXFlipped(index: nat): (r: bool)
      requires HaveState(states, index)
      reads this
      ensures Valid() ==> r == IsAnimationXFlippedNamed(AnimationName(index))
    {
      states[index].xFlipped
    }

    /** `isAnimationYFlipped(name)`. */
    function IsAnimationYFlippedNamed(name: string): (r: bool)
      requires name in Names(states)
      reads this
      ensures Valid() ==> forall i :: 0 <= i < |states| && states[i].name == name ==> r == states[i].yFlipped
    {
      OnlyNamedAll(states, name);
      states[FirstNamed(states, name)].yFlipped
    }

    /** `isAnimationYFlipped(index)`. */
    function IsAnimationYFlipped(index: nat): (r: bool)
      requires HaveState(states, index)
      reads this
      ensures Valid() ==> r == IsAnimationYFlippedNamed(AnimationName(index))
    {
      states[index].yFlipped
    }

    /** `defaultAnimationName`: needs the default index to name a state,
      * which erasing the default state at the end can break. Looking the
      * name up gives the default index back. */
    function DefaultAnimationName(): (r: string)
      requires HaveState(states, defaultIndex)
      reads this
      ensures r in Names(states)
      ensures Valid() ==> FirstNamed(states, r) == defaultIndex
    {
      AnimationName(defaultIndex)
    }
  }
}
