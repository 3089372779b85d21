// The component that runs an entity's behaviours: it numbers them, hands
// them the entity, and calls their hooks when the entity is attached,
// detached, enabled, disabled, destroyed, updated or touched.

module BehaviourComponents {
  import opened Sequences

  /** One behaviour as the component sees it: what it is (its class and
    * data, opaque here), its position, whether it holds the entity, and
    * whether it has been started. */
  datatype Behaviour = Behaviour(kind: nat, index: nat, hasEntity: bool, started: bool)

  /** The hooks of a behaviour. Their bodies belong to the behaviours, so the
    * model records which hook is called on which position, in order. */
  datatype Hook =
    | OnStart | OnEnable | OnDisable | OnDestroy | OnUpdate
    | OnComponentAttached | OnComponentDetached
    | OnContactStart | OnContactEnd | OnContactPreSolve | OnContactPostSolve

  datatype Call = Call(hook: Hook, at: nat)

  /** The hook called on every position in order. */
  function Broadcast(h: Hook, n: nat): (cs: seq<Call>)
    ensures |cs| == n && forall i :: 0 <= i < n ==> cs[i] == Call(h, i)
  {
    seq(n, i requires 0 <= i < n => Call(h, i))
  }

  /** `onStart` on every behaviour not started yet, in order. */
  function Starts(bs: seq<Behaviour>): seq<Call>
  {
    if |bs| == 0 then []
    else Starts(bs[..|bs| - 1]) + (if bs[|bs| - 1].started then [] else [Call(OnStart, |bs| - 1)])
  }

  /** Every behaviour marked started. */
  function Started(bs: seq<Behaviour>): (r: seq<Behaviour>)
    ensures |r| == |bs|
    ensures forall i :: 0 <= i < |bs| ==> r[i] == bs[i].(started := true)
  {
    seq(|bs|, i requires 0 <= i < |bs| => bs[i].(started := true))
  }

  /** Every behaviour holding the entity, or none. */
  function WithEntity(bs: seq<Behaviour>, e: bool): (r: seq<Behaviour>)
    ensures |r| == |bs|
    ensures forall i :: 0 <= i < |bs| ==> r[i] == bs[i].(hasEntity := e)
  {
    seq(|bs|, i requires 0 <= i < |bs| => bs[i].(hasEntity := e))
  }

  /** What `clone` yields for each behaviour: the same kind and data, built
    * anew by a constructor rather than copied, so holding no entity and not
    * started. */
  function Clones(bs: seq<Behaviour>): (r: seq<Behaviour>)
    ensures |r| == |bs|
    ensures forall i :: 0 <= i < |bs| ==> r[i] == bs[i].(hasEntity := false, started := false)
  {
    seq(|bs|, i requires 0 <= i < |bs| => bs[i].(hasEntity := false, started := false))
  }

  /** Each behaviour knows its own position. */
  predicate Numbered(bs: seq<Behaviour>)
  {
    forall i :: 0 <= i < |bs| ==> bs[i].index == i
  }

  /** The list with each behaviour's index set to its position. */
  function Renumbered(bs: seq<Behaviour>): (r: seq<Behaviour>)
    ensures |r| == |bs| && Numbered(r)
    ensures forall i :: 0 <= i < |bs| ==> r[i] == bs[i].(index := i)
  {
    seq(|bs|, i requires 0 <= i < |bs| => bs[i].(index := i))
  }

  /** `onStart` is called on exactly the behaviours not started yet. */
  lemma {:induction false} StartsExactly(bs: seq<Behaviour>, i: nat)
    ensures Call(OnStart, i) in Starts(bs) <==> i < |bs| && !bs[i].started
    ensures forall c :: c in Starts(bs) ==> c.hook == OnStart
  {
    if |bs| > 0 {
      var n := |bs| - 1;
      StartsExactly(bs[..n], i);
      assert i < n ==> bs[..n][i] == bs[i];
    }
  }

  /** Once every behaviour is started, no `onStart` is called again. */
  lemma {:induction false} StartsOnce(bs: seq<Behaviour>)
    ensures Starts(Started(bs)) == []
  {
    if |bs| > 0 {
      var n := |bs| - 1;
      assert Started(bs)[..n] == Started(bs[..n]);
      StartsOnce(bs[..n]);
    }
  }

  /** Behaviours none of which is started get `onStart` on every position,
    * in order. */
  lemma {:induction false} StartsAll(bs: seq<Behaviour>)
    requires forall i :: 0 <= i < |bs| ==> !bs[i].started
    ensures Starts(bs) == Broadcast(OnStart, |bs|)
  {
    if |bs| > 0 {
      var n := |bs| - 1;
      StartsAll(bs[..n]);
      assert Broadcast(OnStart, n) + [Call(OnStart, n)] == Broadcast(OnStart, |bs|);
    }
  }

  /** A copied list of behaviours is started again from the first: the
    * clones carry no started flag over. */
  lemma CopiesStartAnew(bs: seq<Behaviour>, e: bool)
    ensures Starts(Renumbered(WithEntity(Clones(bs), e))) == Broadcast(OnStart, |bs|)
  {
    StartsAll(Renumbered(WithEntity(Clones(bs), e)));
  }

  lemma StartsStep(bs: seq<Behaviour>, i: nat)
    requires i < |bs|
    ensures Starts(bs[..i + 1]) == Starts(bs[..i]) + (if bs[i].started then [] else [Call(OnStart, i)])
  {
    assert bs[..i + 1][..i] == bs[..i];
  }

  /** `BehaviourComponent`: whether it is attached to an entity, its
    * behaviours in order, and the hooks called so far. */
  class BehaviourComponent {
    var haveEntity: bool
    var behaviours: seq<Behaviour>
    var calls: seq<Call>

    predicate Valid()
      reads this
    {
      Numbered(behaviours)
    }

    /** A component with no entity and no behaviour. */
    constructor ()
      ensures Valid() && !haveEntity && behaviours == [] && calls == []
    {
      haveEntity := false;
      behaviours := [];
      calls := [];
    }

    /** The copy constructor: copy-assignment into the new component, then
      * the entity flag cleared. The new component has no valid entity, so
      * the assignment's check demands that the other have none either. */
    constructor Copy(other: BehaviourComponent)
      requires !other.haveEntity
      ensures Valid() && !haveEntity && calls == []
      ensures behaviours == Renumbered(Clones(other.behaviours))
    {
      haveEntity := false;
      behaviours := [];
      calls := [];
      new;
      Assign(other, false);
      haveEntity := false;
    }

    /** Calls a hook on every behaviour in order. */
    method Notify(h: Hook)
      modifies this
      ensures calls == old(calls) + Broadcast(h, |behaviours|)
      ensures behaviours == old(behaviours) && haveEntity == old(haveEntity)
    {
      var n, cs := |behaviours|, calls;
      for i := 0 to n
        invariant cs == old(calls) + Broadcast(h, i)
      {
        cs := cs + [Call(h, i)];
      }
      calls := cs;
    }

    /** `update`: with an entity, starts every behaviour not started yet,
      * in order, then updates every behaviour in order; without one, does
      * nothing. */
    method Update()
      requires Valid()
      modifies this
      ensures Valid() && haveEntity == old(haveEntity)
      ensures haveEntity ==> behaviours == Started(old(behaviours))
      ensures haveEntity ==> calls == old(calls) + Starts(old(behaviours)) + Broadcast(OnUpdate, |behaviours|)
      ensures !haveEntity ==> behaviours == old(behaviours) && calls == old(calls)
    {
      if !haveEntity {
        return;
      }
      var bs0, cs0 := behaviours, calls;
      var n := |bs0|;
      var bs, cs := bs0, cs0;
      for i := 0 to n
        invariant haveEntity && |bs| == n
        invariant forall j :: 0 <= j < n ==> bs[j] == if j < i then bs0[j].(started := true) else bs0[j]
        invariant cs == cs0 + Starts(bs0[..i])
      {
        StartsStep(bs0, i);
        if !bs[i].started {
          cs := cs + [Call(OnStart, i)];
        }
        bs := bs[i := bs[i].(started := true)];
      }
      assert bs0[..n] == bs0;
      for i := 0 to n
        invariant haveEntity && cs == cs0 + Starts(bs0) + Broadcast(OnUpdate, i)
      {
        cs := cs + [Call(OnUpdate, i)];
      }
      behaviours := bs;
      calls := cs;
    }

    /** `attach`: with an entity, the behaviour gets it and is enabled;
      * either way it is numbered and put last. */
    method Attach(b: Behaviour)
      requires Valid()
      modifies this
      ensures Valid() && haveEntity == old(haveEntity)
      ensures behaviours == old(behaviours) + [b.(index := |old(behaviours)|, hasEntity := b.hasEntity || haveEntity)]
      ensures calls == old(calls) + (if haveEntity then [Call(OnEnable, |old(behaviours)|)] else [])
    {
      var nb := b;
      if haveEntity {
        nb := nb.(hasEntity := true);
        calls := calls + [Call(OnEnable, |behaviours|)];
      }
      nb := nb.(index := |behaviours|);
      behaviours := behaviours + [nb];
    }

    /** `detach`: erases the behaviour at the index, without calling any
      * hook, and renumbers the ones after it. */
    method Detach(index: nat)
      requires Valid() && index < |behaviours|
      modifies this
      ensures Valid() && haveEntity == old(haveEntity) && calls == old(calls)
      ensures behaviours == Renumbered(RemoveAt(old(behaviours), index))
    {
      var bs0 := behaviours;
      var rest := RemoveAt(bs0, index);
      var bs := rest;
      for i := index to |rest|
        invariant |bs| == |rest|
        invariant forall j :: 0 <= j < |rest| ==>
                    bs[j] == if index <= j < i then rest[j].(index := j) else rest[j]
      {
        bs := bs[i := bs[i].(index := i)];
      }
      forall j | 0 <= j < index
        ensures bs[j] == rest[j].(index := j)
      {
        assert bs0[j].index == j;
      }
      behaviours := bs;
    }

    /** `detachAll` as written: with an entity, disables every behaviour,
      * but keeps them all. */
    method DetachAll()
      requires Valid()
      modifies this
      ensures Valid() && haveEntity == old(haveEntity)
      ensures behaviours == old(behaviours)
      ensures calls == old(calls) + (if haveEntity then Broadcast(OnDisable, |behaviours|) else [])
    {
      if haveEntity {
        Notify(OnDisable);
      }
    }

    /** `detachAll` as its name promises: disables every behaviour when
      * there is an entity, then removes them all. */
    method DetachAllClearing()
      requires Valid()
      modifies this
      ensures Valid() && haveEntity == old(haveEntity)
      ensures behaviours == []
      ensures calls == old(calls) + (if haveEntity then Broadcast(OnDisable, |old(behaviours)|) else [])
    {
      if haveEntity {
        Notify(OnDisable);
      }
      behaviours := [];
    }

    /** `OnAttached`: the component, which had no entity, gets one; every
      * behaviour gets it and is enabled. */
    method OnAttached()
      requires Valid() && !haveEntity
      modifies this
      ensures Valid() && haveEntity
      ensures behaviours == WithEntity(old(behaviours), true)
      ensures calls == old(calls) + Broadcast(OnEnable, |behaviours|)
    {
      haveEntity := true;
      Notify(OnEnable);
      behaviours := WithEntity(behaviours, true);
    }

    /** `OnDetached`: every behaviour is disabled and loses the entity. */
    method OnDetached()
      requires Valid() && haveEntity
      modifies this
      ensures Valid() && !haveEntity
      ensures behaviours == WithEntity(old(behaviours), false)
      ensures calls == old(calls) + Broadcast(OnDisable, |behaviours|)
    {
      haveEntity := false;
      Notify(OnDisable);
      behaviours := WithEntity(behaviours, false);
    }

    /** `OnEntityDestruction`: with an entity, every behaviour is destroyed
      * and loses the entity; the component itself still counts as having
      * one. */
    method OnEntityDestruction()
      requires Valid()
      modifies this
      ensures Valid() && haveEntity == old(haveEntity)
      ensures haveEntity ==> behaviours == WithEntity(old(behaviours), false)
      ensures haveEntity ==> calls == old(calls) + Broadcast(OnDestroy, |behaviours|)
      ensures !haveEntity ==> behaviours == old(behaviours) && calls == old(calls)
    {
      if !haveEntity {
        return;
      }
      Notify(OnDestroy);
      behaviours := WithEntity(behaviours, false);
    }

    /** `OnEntityDisabled`, `OnEntityEnabled`, `OnComponentAttached` and
      * `OnComponentDetached`: the component must have an entity; the hook
      * goes to every behaviour in order. */
    method OnEntityEvent(h: Hook)
      requires Valid() && haveEntity
      requires h == OnDisable || h == OnEnable || h == OnComponentAttached || h == OnComponentDetached
      modifies this
      ensures Valid() && haveEntity && behaviours == old(behaviours)
      ensures calls == old(calls) + Broadcast(h, |behaviours|)
    {
      Notify(h);
    }

    /** The four contact callbacks: forwarded to every behaviour in order,
      * with or without an entity. */
    method OnContact(h: Hook)
      requires Valid()
      requires h == OnContactStart || h == OnContactEnd || h == OnContactPreSolve || h == OnContactPostSolve
      modifies this
      ensures Valid() && haveEntity == old(haveEntity) && behaviours == old(behaviours)
      ensures calls == old(calls) + Broadcast(h, |behaviours|)
    {
      Notify(h);
    }

    /** Copy-assignment. Every current behaviour is disabled, entity or
      * not; the component takes the other's entity flag, which must agree
      * with whether its own entity is valid; then a clone of each of the
      * other's behaviours (not started, no entity) is appended, numbered,
      * and, with an entity, handed it and enabled. Assigning a component
      * to itself drops every behaviour, since the list is cleared before it
      * is copied. */
    method Assign(other: BehaviourComponent, entityValid: bool)
      requires other.haveEntity == entityValid
      modifies this
      ensures Valid() && haveEntity == old(other.haveEntity)
      ensures other != this ==> behaviours == Renumbered(WithEntity(Clones(old(other.behaviours)), haveEntity))
      ensures other == this ==> behaviours == []
      ensures calls == old(calls) + Broadcast(OnDisable, |old(behaviours)|)
                       + (if haveEntity then Broadcast(OnEnable, |behaviours|) else [])
    {
      Notify(OnDisable);
      haveEntity := other.haveEntity;
      behaviours := [];
      var source, entity, cs0 := other.behaviours, haveEntity, calls;
      var bs: seq<Behaviour> := [];
      var cs := cs0;
      for i := 0 to |source|
        invariant |bs| == i
        invariant forall j :: 0 <= j < i ==>
                    bs[j] == source[j].(hasEntity := entity, started := false, index := j)
        invariant cs == cs0 + (if entity then Broadcast(OnEnable, i) else [])
      {
        var b := source[i].(hasEntity := false, started := false, index := i);
        if entity {
          b := b.(hasEntity := true);
          cs := cs + [Call(OnEnable, i)];
        }
        bs := bs + [b];
      }
      behaviours := bs;
      calls := cs;
    }
  }

  /** `detachAll` keeps the behaviours it is named after removing; the
    * clearing version removes them. */
  method DetachAllKeeps(b: Behaviour) returns (asWritten: nat, clearing: nat)
    ensures asWritten == 1 && clearing == 0
  {
    var c := new BehaviourComponent();
    c.Attach(b);
    c.DetachAll();
    asWritten := |c.behaviours|;
    var d := new BehaviourComponent();
    d.Attach(b);
    d.DetachAllClearing();
    clearing := |d.behaviours|;
  }
}
