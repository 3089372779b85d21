// An expression object: a tree of nodes, the names of its parameters, and
// the list of parameter nodes it can set, each with the index of its name.

module Expressions {
  import opened Wrappers
  import opened Sequences
  import opened ExpressionValues

  /** A parameter node seen from the expression: its name and the value
    * last set on it. */
  datatype Occurrence = Occurrence(name: string, value: int)

  /** The node kinds with no operand, one, two, or a list of them. */
  predicate IsLeaf(n: Node) { n.Number? || n.Parameter? || n.Constant? }
  predicate IsUnary(n: Node) { n.Negate? || n.Not? }
  predicate IsBinary(n: Node) { n.Power? || n.Compare? || n.Or? || n.And? }

  /** The parameter nodes of a tree in the order of a left-to-right walk,
    * every operand in turn. */
  function Occurrences(n: Node): seq<Occurrence>
    decreases n, 1
  {
    if n.Parameter? then [Occurrence(n.name, n.value)]
    else if IsLeaf(n) then []
    else if IsUnary(n) then Occurrences(n.operand)
    else if IsBinary(n) then Occurrences(n.left) + Occurrences(n.right)
    else OperandOccurrences(n.operands)
  }

  /** The parameter nodes of a list of operands, the first operand's first. */
  function OperandOccurrences(ops: seq<Node>): seq<Occurrence>
    decreases ops, 0
  {
    if |ops| == 0 then [] else Occurrences(ops[0]) + OperandOccurrences(ops[1..])
  }

  /** Value k of a list of values, 0 past its end. */
  function Val(vs: seq<int>, k: int): int
  {
    if 0 <= k < |vs| then vs[k] else 0
  }

  /** The tree with its parameter number `k` of the walk set to value
    * `off + k` of `vs`; nothing else changes. */
  function Bind(n: Node, vs: seq<int>, off: int): Node
    decreases n, 1
  {
    if n.Parameter? then Parameter(n.name, Val(vs, off))
    else if IsLeaf(n) then n
    else if IsUnary(n) then n.(operand := Bind(n.operand, vs, off))
    else if IsBinary(n) then
      n.(left := Bind(n.left, vs, off), right := Bind(n.right, vs, off + |Occurrences(n.left)|))
    else n.(operands := BindOperands(n.operands, vs, off))
  }

  /** Each operand bound from where the parameters of the operands before
    * it end. */
  function BindOperands(ops: seq<Node>, vs: seq<int>, off: int): (r: seq<Node>)
    ensures |r| == |ops|
    decreases ops, 0
  {
    if |ops| == 0 then []
    else [Bind(ops[0], vs, off)] + BindOperands(ops[1..], vs, off + |Occurrences(ops[0])|)
  }

  /** The occurrences with their values replaced from `vs`, from `off` on. */
  function Rebound(os: seq<Occurrence>, vs: seq<int>, off: int): (r: seq<Occurrence>)
    ensures |r| == |os|
  {
    seq(|os|, k requires 0 <= k < |os| => Occurrence(os[k].name, Val(vs, off + k)))
  }

  function ValuesOf(os: seq<Occurrence>): (vs: seq<int>)
    ensures |vs| == |os| && forall k :: 0 <= k < |os| ==> vs[k] == os[k].value
  {
    seq(|os|, k requires 0 <= k < |os| => os[k].value)
  }

  function Zeros(m: nat): (vs: seq<int>)
    ensures |vs| == m && forall k :: 0 <= k < m ==> vs[k] == 0
  {
    seq(m, k => 0)
  }

  lemma ReboundConcat(a: seq<Occurrence>, b: seq<Occurrence>, vs: seq<int>, off: int)
    ensures Rebound(a, vs, off) + Rebound(b, vs, off + |a|) == Rebound(a + b, vs, off)
  {
  }

  /** Binding a tree and then walking it gives the walk of the tree with the
    * new values, in order: every parameter node is reached exactly once. */
  lemma {:induction false} BindOccurrences(n: Node, vs: seq<int>, off: int)
    ensures Occurrences(Bind(n, vs, off)) == Rebound(Occurrences(n), vs, off)
    decreases n, 1
  {
    if IsLeaf(n) {
    } else if IsUnary(n) {
      BindOccurrences(n.operand, vs, off);
    } else if IsBinary(n) {
      var oa := Occurrences(n.left);
      BindOccurrences(n.left, vs, off);
      BindOccurrences(n.right, vs, off + |oa|);
      ReboundConcat(oa, Occurrences(n.right), vs, off);
    } else {
      OperandsOccurrences(n.operands, vs, off);
    }
  }

  lemma {:induction false} OperandsOccurrences(ops: seq<Node>, vs: seq<int>, off: int)
    ensures OperandOccurrences(BindOperands(ops, vs, off)) == Rebound(OperandOccurrences(ops), vs, off)
    decreases ops, 0
  {
    if |ops| > 0 {
      var o := Occurrences(ops[0]);
      var bound := BindOperands(ops, vs, off);
      assert bound[0] == Bind(ops[0], vs, off);
      assert bound[1..] == BindOperands(ops[1..], vs, off + |o|);
      BindOccurrences(ops[0], vs, off);
      OperandsOccurrences(ops[1..], vs, off + |o|);
      ReboundConcat(o, OperandOccurrences(ops[1..]), vs, off);
    }
  }

  /** Binding twice is binding once with the second values: a bound tree
    * keeps the shape of the original. */
  lemma {:induction false} BindTwice(n: Node, vs: seq<int>, ws: seq<int>, off: int)
    ensures Bind(Bind(n, vs, off), ws, off) == Bind(n, ws, off)
    decreases n, 1
  {
    if IsLeaf(n) {
    } else if IsUnary(n) {
      UnaryTwice(n, vs, ws, off);
    } else if IsBinary(n) {
      BinaryTwice(n, vs, ws, off);
    } else {
      NaryTwice(n, vs, ws, off);
    }
  }

  lemma {:induction false} UnaryTwice(n: Node, vs: seq<int>, ws: seq<int>, off: int)
    requires IsUnary(n)
    ensures Bind(Bind(n, vs, off), ws, off) == Bind(n, ws, off)
    decreases n, 0
  {
    assert Bind(n, vs, off).operand == Bind(n.operand, vs, off);
    BindTwice(n.operand, vs, ws, off);
  }

  lemma {:induction false} NaryTwice(n: Node, vs: seq<int>, ws: seq<int>, off: int)
    requires !IsLeaf(n) && !IsUnary(n) && !IsBinary(n)
    ensures Bind(Bind(n, vs, off), ws, off) == Bind(n, ws, off)
    decreases n, 0
  {
    assert Bind(n, vs, off).operands == BindOperands(n.operands, vs, off);
    OperandsTwice(n.operands, vs, ws, off);
  }

  lemma {:induction false} BinaryTwice(n: Node, vs: seq<int>, ws: seq<int>, off: int)
    requires IsBinary(n)
    ensures Bind(Bind(n, vs, off), ws, off) == Bind(n, ws, off)
    decreases n, 0
  {
    var o := off + |Occurrences(n.left)|;
    var b := Bind(n, vs, off);
    assert b.left == Bind(n.left, vs, off) && b.right == Bind(n.right, vs, o);
    BindOccurrences(n.left, vs, off);
    BindTwice(n.left, vs, ws, off);
    BindTwice(n.right, vs, ws, o);
  }

  lemma {:induction false} OperandsTwice(ops: seq<Node>, vs: seq<int>, ws: seq<int>, off: int)
    ensures BindOperands(BindOperands(ops, vs, off), ws, off) == BindOperands(ops, ws, off)
    decreases ops, 0
  {
    if |ops| > 0 {
      var o := Occurrences(ops[0]);
      var bound := BindOperands(ops, vs, off);
      assert bound[0] == Bind(ops[0], vs, off);
      assert bound[1..] == BindOperands(ops[1..], vs, off + |o|);
      BindOccurrences(ops[0], vs, off);
      BindTwice(ops[0], vs, ws, off);
      OperandsTwice(ops[1..], vs, ws, off + |o|);
    }
  }

  /** Binding a tree to the values it already holds gives it back: the walk
    * carries every value the tree holds. */
  lemma {:induction false} BindSelf(n: Node, vs: seq<int>, off: int)
    requires off >= 0 && off + |Occurrences(n)| <= |vs|
    requires forall k :: 0 <= k < |Occurrences(n)| ==> vs[off + k] == Occurrences(n)[k].value
    ensures Bind(n, vs, off) == n
    decreases n, 1
  {
    if n.Parameter? {
      assert Occurrences(n)[0].value == n.value;
    } else if IsLeaf(n) {
    } else if IsUnary(n) {
      BindSelf(n.operand, vs, off);
    } else if IsBinary(n) {
      SplitValues(Occurrences(n.left), Occurrences(n.right), vs, off);
      BindSelf(n.left, vs, off);
      BindSelf(n.right, vs, off + |Occurrences(n.left)|);
    } else {
      OperandsSelf(n.operands, vs, off);
    }
  }

  lemma {:induction false} OperandsSelf(ops: seq<Node>, vs: seq<int>, off: int)
    requires off >= 0 && off + |OperandOccurrences(ops)| <= |vs|
    requires forall k :: 0 <= k < |OperandOccurrences(ops)| ==> vs[off + k] == OperandOccurrences(ops)[k].value
    ensures BindOperands(ops, vs, off) == ops
    decreases ops, 0
  {
    if |ops| > 0 {
      var o := Occurrences(ops[0]);
      SplitValues(o, OperandOccurrences(ops[1..]), vs, off);
      BindSelf(ops[0], vs, off);
      OperandsSelf(ops[1..], vs, off + |o|);
      assert ops == [ops[0]] + ops[1..];
    }
  }

  /** Values that match a walk made of two parts match each part. */
  lemma SplitValues(a: seq<Occurrence>, b: seq<Occurrence>, vs: seq<int>, off: int)
    requires off >= 0 && off + |a + b| <= |vs|
    requires forall k :: 0 <= k < |a + b| ==> vs[off + k] == (a + b)[k].value
    ensures forall k :: 0 <= k < |a| ==> vs[off + k] == a[k].value
    ensures forall k :: 0 <= k < |b| ==> vs[off + |a| + k] == b[k].value
  {
    forall k | 0 <= k < |a|
      ensures vs[off + k] == a[k].value
    {
      assert (a + b)[k] == a[k];
    }
    forall k | 0 <= k < |b|
      ensures vs[off + |a| + k] == b[k].value
    {
      assert (a + b)[|a| + k] == b[k];
    }
  }

  /** A parameter prints its name and not its value, so binding does not
    * change the printed form. */
  lemma {:induction false} BindToString(n: Node, vs: seq<int>, off: int)
    ensures ToString(Bind(n, vs, off)) == ToString(n)
    decreases n, 1
  {
    if IsLeaf(n) {
    } else if IsUnary(n) {
      BindToString(n.operand, vs, off);
    } else if IsBinary(n) {
      BindToString(n.left, vs, off);
      BindToString(n.right, vs, off + |Occurrences(n.left)|);
    } else {
      NaryToString(n, vs, off);
    }
  }

  /** `BindToString` for a sum, product, reciprocal or function node. */
  lemma {:induction false} NaryToString(n: Node, vs: seq<int>, off: int)
    requires !IsLeaf(n) && !IsUnary(n) && !IsBinary(n)
    ensures ToString(Bind(n, vs, off)) == ToString(n)
    decreases n, 0
  {
    OperandsToString(n.operands, vs, off);
    var ops := n.operands;
    var bound := BindOperands(ops, vs, off);
    assert seq(|bound|, i requires 0 <= i < |bound| => ToString(bound[i]))
        == seq(|ops|, i requires 0 <= i < |ops| => ToString(ops[i]));
  }

  lemma {:induction false} OperandsToString(ops: seq<Node>, vs: seq<int>, off: int)
    ensures forall i :: 0 <= i < |ops| ==> ToString(BindOperands(ops, vs, off)[i]) == ToString(ops[i])
    decreases ops, 0
  {
    if |ops| > 0 {
      var o := Occurrences(ops[0]);
      var bound := BindOperands(ops, vs, off);
      assert bound[1..] == BindOperands(ops[1..], vs, off + |o|);
      BindToString(ops[0], vs, off);
      OperandsToString(ops[1..], vs, off + |o|);
      forall i | 1 <= i < |ops|
        ensures ToString(bound[i]) == ToString(ops[i])
      {
        assert bound[i] == bound[1..][i - 1] && ops[i] == ops[1..][i - 1];
      }
    }
  }

  /** The first position holding the name, or the number of names. */
  function IndexOf(names: seq<string>, name: string): (k: nat)
    ensures k <= |names|
    ensures k < |names| ==> names[k] == name
    ensures forall j :: 0 <= j < k ==> names[j] != name
  {
    if |names| == 0 then 0
    else if names[0] == name then 0
    else 1 + IndexOf(names[1..], name)
  }

  /** `params` gives, for each occurrence of the walk, the index of its
    * name in `names`. */
  predicate Indexes(names: seq<string>, params: seq<nat>, os: seq<Occurrence>)
  {
    |params| == |os| &&
    forall k :: 0 <= k < |params| ==> params[k] < |names| && names[params[k]] == os[k].name
  }

  /** The values after `setParameter(index, value)`: the occurrences
    * registered under that index take the value, the others keep theirs. */
  function Assigned(os: seq<Occurrence>, params: seq<nat>, index: nat, value: int): (vs: seq<int>)
    requires |params| == |os|
    ensures |vs| == |os|
  {
    seq(|os|, k requires 0 <= k < |os| => if params[k] == index then value else os[k].value)
  }

  /** `Expression<int>`. The tree holds the parameter values; `params`
    * stands for the list of pointers to its parameter nodes, each with the
    * index of its name, in the order they were registered. */
  class Expression {
    var tree: Option<Node>
    var names: seq<string>
    var params: seq<nat>

    /** The parameter nodes of the tree, walked left to right. */
    function Registered(): seq<Occurrence>
      reads this`tree
    {
      if tree.None? then [] else Occurrences(tree.value)
    }

    /** Every parameter node is registered once, in walk order, under the
      * index of its name, and no name is listed twice. */
    predicate Valid()
      reads this
    {
      Distinct(names) && Indexes(names, params, Registered())
    }

    /** The empty expression. */
    constructor ()
      ensures Valid() && tree == None && names == [] && params == []
    {
      tree := None;
      names := [];
      params := [];
    }

    /** An expression handed a parsed tree, whose parameter nodes then
      * register themselves. */
    constructor Parsed(t: Node)
      ensures Valid() && tree == Some(t)
      ensures forall x :: x in names <==> exists k :: 0 <= k < |Occurrences(t)| && Occurrences(t)[k].name == x
    {
      tree := Some(t);
      names := [];
      params := [];
      new;
      RegisterParameters();
    }

    /** The copy constructor: the tree of the other expression, cloned, and
      * its parameters registered afresh. Copying an expression with no tree
      * gives an expression with no tree and no parameters, where the
      * constructor as written (`CopyAsWritten`) dereferences a null tree. */
    constructor Copy(other: Expression)
      ensures Valid() && tree == other.tree
      ensures other.tree.None? ==> names == [] && params == []
      ensures forall x :: x in names <==> exists k :: 0 <= k < |Registered()| && Registered()[k].name == x
    {
      tree := other.tree;
      names := [];
      params := [];
      new;
      if tree.Some? {
        RegisterParameters();
      }
    }

    /** `compute`: 0 without a tree. */
    function Compute(env: Env): (r: Option<int>)
      reads this
      ensures tree.None? ==> r == Some(0)
      ensures tree.Some? ==> r == Eval(tree.value, env)
    {
      if tree.None? then Some(0) else Eval(tree.value, env)
    }

    /** `toString`: empty without a tree. */
    function Text(): (s: string)
      reads this
      ensures tree.None? ==> s == ""
      ensures tree.Some? ==> s == ToString(tree.value)
    {
      if tree.None? then "" else ToString(tree.value)
    }

    /** `nameIndex`: the first position of the name, or the number of names. */
    method NameIndex(name: string) returns (index: nat)
      ensures index == IndexOf(names, name)
      ensures index < |names| <==> name in names
    {
      index := 0;
      while index < |names| && names[index] != name
        invariant index <= |names| && forall j :: 0 <= j < index ==> names[j] != name
      {
        index := index + 1;
      }
      IndexOfIs(names, name, index);
    }

    /** `addParameter`: lists the name if it is new and registers the node
      * under the index of its name. */
    method AddParameter(name: string)
      requires Distinct(names)
      modifies this
      ensures Distinct(names) && tree == old(tree)
      ensures name in old(names) ==> names == old(names)
      ensures name !in old(names) ==> names == old(names) + [name]
      ensures |params| == |old(params)| + 1 && params[..|old(params)|] == old(params)
      ensures params[|params| - 1] == IndexOf(names, name) < |names|
      ensures names[params[|params| - 1]] == name
    {
      var index := NameIndex(name);
      if index == |names| {
        assert forall c :: c in names ==> c !in [name];
        DistinctConcat(names, [name]);
        IndexOfAppended(names, name);
        names := names + [name];
      }
      params := params + [index];
      assert params[..|old(params)|] == old(params);
    }

    /** Registers every parameter node of the tree, in walk order, starting
      * from no names. */
    method RegisterParameters()
      requires names == [] && params == []
      modifies this
      ensures Valid() && tree == old(tree)
      ensures forall x :: x in names <==> exists k :: 0 <= k < |Registered()| && Registered()[k].name == x
    {
      var os := Registered();
      for k := 0 to |os|
        invariant tree == old(tree) && Distinct(names) && Indexes(names, params, os[..k])
        invariant forall x :: x in names <==> exists j :: 0 <= j < k && os[j].name == x
      {
        ghost var ns, ps := names, params;
        AddParameter(os[k].name);
        RegisterStep(ns, ps, names, params, os, k);
      }
      assert os[..|os|] == os;
    }

    /** `setParameter(index, value)`: every node registered under the index
      * takes the value; no other node changes. */
    method SetParameter(index: nat, value: int)
      requires Valid()
      modifies this
      ensures Valid() && names == old(names) && params == old(params)
      ensures old(tree).None? ==> tree == None
      ensures old(tree).Some? ==>
                tree == Some(Bind(old(tree).value, Assigned(old(Registered()), params, index, value), 0))
      ensures |Registered()| == |params|
      ensures forall k :: 0 <= k < |params| ==>
                Registered()[k] == Occurrence(old(Registered())[k].name,
                                              if params[k] == index then value else old(Registered())[k].value)
      ensures Text() == old(Text())
    {
      if tree.Some? {
        var t := tree.value;
        var os := Occurrences(t);
        var vs := ValuesOf(os);
        for k := 0 to |params|
          invariant |vs| == |os|
          invariant forall j :: 0 <= j < |os| ==> vs[j] == if j < k && params[j] == index then value else os[j].value
        {
          if params[k] == index {
            vs := vs[k := value];
          }
        }
        assert vs == Assigned(os, params, index, value);
        BindOccurrences(t, vs, 0);
        BindToString(t, vs, 0);
        tree := Some(Bind(t, vs, 0));
      }
    }

    /** `setParameter(name, value)`: every node with that name takes the
      * value; an unknown name changes nothing. */
    method SetParameterNamed(name: string, value: int)
      requires Valid()
      modifies this
      ensures Valid() && names == old(names) && params == old(params)
      ensures |Registered()| == |old(Registered())|
      ensures forall k :: 0 <= k < |params| ==>
                Registered()[k] == Occurrence(old(Registered())[k].name,
                                              if old(Registered())[k].name == name then value
                                              else old(Registered())[k].value)
      ensures name !in names ==> tree == old(tree)
      ensures Text() == old(Text())
    {
      var index := NameIndex(name);
      ghost var os := Registered();
      assert forall k :: 0 <= k < |params| ==> (params[k] == index <==> os[k].name == name) by {
        forall k | 0 <= k < |params|
          ensures params[k] == index <==> os[k].name == name
        {
          IndexOfDistinct(names, names[params[k]], params[k]);
        }
      }
      SetParameter(index, value);
      if name !in names && old(tree).Some? {
        var t := old(tree).value;
        assert Assigned(os, params, index, value) == ValuesOf(os);
        BindSelf(t, ValuesOf(os), 0);
      }
    }

    /** `resetParameters`: the outer loop repeats the inner one, which sets
      * every registered node to 0. */
    method ResetParameters()
      requires Valid()
      modifies this
      ensures Valid() && names == old(names) && params == old(params)
      ensures old(tree).None? ==> tree == None
      ensures old(tree).Some? ==> tree == Some(Bind(old(tree).value, Zeros(|params|), 0))
      ensures forall k :: 0 <= k < |params| ==> Registered()[k] == Occurrence(old(Registered())[k].name, 0)
      ensures Text() == old(Text())
    {
      if tree.Some? {
        var t := tree.value;
        var os := Occurrences(t);
        var vs := ValuesOf(os);
        for i := 0 to |params|
          invariant |vs| == |os|
          invariant i > 0 ==> vs == Zeros(|os|)
          invariant i == 0 ==> vs == ValuesOf(os)
        {
          for k := 0 to |params|
            invariant |vs| == |os|
            invariant forall j :: 0 <= j < k ==> vs[j] == 0
            invariant i > 0 ==> vs == Zeros(|os|)
          {
            vs := vs[k := 0];
          }
          assert vs == Zeros(|os|);
        }
        if |params| == 0 {
          assert vs == Zeros(0);
        }
        BindOccurrences(t, vs, 0);
        BindToString(t, vs, 0);
        tree := Some(Bind(t, vs, 0));
      }
    }

    /** Copy-assignment as written: the tree is dropped before the other
      * expression's tree is read, so assigning an expression to itself
      * leaves it empty. */
    method Assign(other: Expression)
      modifies this
      ensures Valid()
      ensures other != this ==> tree == old(other.tree)
      ensures other == this ==> tree == None
      ensures forall x :: x in names <==> exists k :: 0 <= k < |Registered()| && Registered()[k].name == x
    {
      tree := None;
      if other.tree.Some? {
        tree := other.tree;
      }
      names := [];
      params := [];
      RegisterParameters();
    }

    /** Copy-assignment that reads the other tree before dropping its own:
      * every expression, itself included, is copied. */
    method AssignChecked(other: Expression)
      modifies this
      ensures Valid()
      ensures tree == old(other.tree)
      ensures forall x :: x in names <==> exists k :: 0 <= k < |Registered()| && Registered()[k].name == x
    {
      var source := other.tree;
      tree := source;
      names := [];
      params := [];
      RegisterParameters();
    }
  }

  /** Registering occurrence k keeps the earlier indexes right, since names
    * are only ever appended, and indexes occurrence k. */
  lemma RegisterStep(ns: seq<string>, ps: seq<nat>, ns': seq<string>, ps': seq<nat>,
                     os: seq<Occurrence>, k: nat)
    requires k < |os| && Indexes(ns, ps, os[..k])
    requires forall x :: x in ns <==> exists j :: 0 <= j < k && os[j].name == x
    requires os[k].name in ns ==> ns' == ns
    requires os[k].name !in ns ==> ns' == ns + [os[k].name]
    requires |ps'| == |ps| + 1 && ps'[..|ps|] == ps
    requires ps'[|ps|] < |ns'| && ns'[ps'[|ps|]] == os[k].name
    ensures Indexes(ns', ps', os[..k + 1])
    ensures forall x :: x in ns' <==> exists j :: 0 <= j < k + 1 && os[j].name == x
  {
    forall j | 0 <= j < k
      ensures ps'[j] < |ns'| && ns'[ps'[j]] == os[..k + 1][j].name
    {
      assert ps'[j] == ps[j] && os[..k][j] == os[j];
    }
    forall x
      ensures x in ns' <==> exists j :: 0 <= j < k + 1 && os[j].name == x
    {
      if x in ns' && x !in ns {
        assert os[k].name == x;
      }
    }
  }

  /** Among distinct names, the first position of a name is its only one. */
  lemma IndexOfDistinct(names: seq<string>, name: string, p: nat)
    requires Distinct(names) && p < |names| && names[p] == name
    ensures IndexOf(names, name) == p
  {
    var f := IndexOf(names, name);
    assert f <= p;
    assert names[f] == names[p];
  }

  lemma IndexOfIs(names: seq<string>, name: string, index: nat)
    requires index <= |names| && forall j :: 0 <= j < index ==> names[j] != name
    requires index < |names| ==> names[index] == name
    ensures index == IndexOf(names, name)
    ensures index < |names| <==> name in names
  {
    var f := IndexOf(names, name);
    assert f < |names| ==> names[f] == name;
  }

  lemma IndexOfAppended(names: seq<string>, name: string)
    requires name !in names
    ensures IndexOf(names + [name], name) == |names|
  {
    IndexOfIs(names + [name], name, |names|);
  }

  /** Resetting twice leaves the tree as resetting once. */
  lemma ResetIdempotent(t: Node, m: nat)
    ensures Bind(Bind(t, Zeros(m), 0), Zeros(m), 0) == Bind(t, Zeros(m), 0)
  {
    BindTwice(t, Zeros(m), Zeros(m), 0);
  }

  /** What the copy constructor as written ends in: the other tree is
    * cloned when there is one, but the parameters are then registered
    * through the new tree whether or not it exists. */
  datatype CopyOutcome = NullDereference | Copied(tree: Node)

  /** The copy constructor as written fails exactly on an expression with
    * no tree, and otherwise copies its tree. */
  function CopyAsWritten(source: Option<Node>): (r: CopyOutcome)
    ensures r.NullDereference? <==> source.None?
    ensures r.Copied? ==> source == Some(r.tree)
  {
    if source.None? then NullDereference else Copied(source.value)
  }

  /** Copying the empty expression, as written, dereferences a null tree;
    * the copy constructor of the model gives an empty expression that
    * computes 0. */
  method EmptyCopy(env: Env) returns (asWritten: CopyOutcome, corrected: Option<Node>, value: Option<int>)
    ensures asWritten == NullDereference
    ensures corrected == None && value == Some(0)
  {
    var e := new Expression();
    asWritten := CopyAsWritten(e.tree);
    var f := new Expression.Copy(e);
    corrected := f.tree;
    value := f.Compute(env);
  }

  /** Assigning a parsed expression to itself, as written, loses its tree;
    * the checked assignment keeps it. */
  method SelfAssignment(t: Node) returns (asWritten: Option<Node>, checked: Option<Node>)
    ensures asWritten == None && checked == Some(t)
  {
    var e := new Expression.Parsed(t);
    e.Assign(e);
    asWritten := e.tree;
    var f := new Expression.Parsed(t);
    f.AssignChecked(f);
    checked := f.tree;
  }
}
