// The nodes of an arithmetic and logic expression over integers: what each
// node evaluates to, and how it prints.

module ExpressionValues {
  import opened Wrappers

  datatype Comparison = Sup | SupOrEqual | Sub | SubOrEqual | Equal | Unequal

  /** One node per node class of the program. A parameter carries the value
    * last set on it; `Constant` carries a name it never prints. */
  datatype Node =
    | Number(value: int)
    | Parameter(name: string, value: int)
    | Constant(name: string, value: int)
    | Sum(operands: seq<Node>)
    | Product(operands: seq<Node>)
    | Reciprocal(operands: seq<Node>)
    | Negate(operand: Node)
    | Power(left: Node, right: Node)
    | Function(functionName: string, operands: seq<Node>)
    | Compare(op: Comparison, left: Node, right: Node)
    | Or(left: Node, right: Node)
    | And(left: Node, right: Node)
    | Not(operand: Node)

  /** What `std::pow` and the callables stored in function nodes compute;
    * the model treats both as given. */
  datatype Env = Env(pow: (int, int) -> int, call: (string, seq<int>) -> int)

  function Abs(a: int): nat
  {
    if a < 0 then -a else a
  }

  /** C++ integer division: the quotient is truncated toward zero. */
  function TruncDiv(a: int, b: int): int
    requires b != 0
  {
    if (a >= 0) == (b > 0) then Abs(a) / Abs(b) else -(Abs(a) / Abs(b))
  }

  /** Truncated division is odd in each argument and keeps the magnitude of
    * the quotient of the magnitudes, which the floor or Euclidean
    * quotient does not: -7 / 2 is -3 here. */
  lemma TruncDivSigns(a: int, b: int)
    requires b != 0
    ensures TruncDiv(-a, b) == -TruncDiv(a, b) && TruncDiv(a, -b) == -TruncDiv(a, b)
    ensures Abs(TruncDiv(a, b)) == Abs(a) / Abs(b)
    ensures TruncDiv(-7, 2) == -3 != -7 / 2
  {
    var q := Abs(a) / Abs(b);
    DivOfNat(Abs(a), Abs(b));
    assert Abs(-a) == Abs(a) && Abs(-b) == Abs(b);
    assert TruncDiv(-a, b) == if (-a >= 0) == (b > 0) then q else -q;
    assert TruncDiv(a, -b) == if (a >= 0) == (-b > 0) then q else -q;
    assert Abs(-7) / Abs(2) == 3;
  }

  lemma DivOfNat(x: nat, y: nat)
    requires y > 0
    ensures x / y >= 0 && (x == 0 ==> x / y == 0)
  {
  }

  /** The left fold of `+` from 0 and of `*` from 1. */
  function FoldSum(vs: seq<int>): int
  {
    if |vs| == 0 then 0 else FoldSum(vs[..|vs| - 1]) + vs[|vs| - 1]
  }

  function FoldProduct(vs: seq<int>): int
  {
    if |vs| == 0 then 1 else FoldProduct(vs[..|vs| - 1]) * vs[|vs| - 1]
  }

  /** The quotient of `first` by every divisor in turn, left to right; no
    * value when a divisor is 0. */
  function FoldDivide(first: int, divisors: seq<int>): Option<int>
  {
    if |divisors| == 0 then Some(first)
    else match FoldDivide(first, divisors[..|divisors| - 1])
      case None => None
      case Some(q) => if divisors[|divisors| - 1] == 0 then None else Some(TruncDiv(q, divisors[|divisors| - 1]))
  }

  function BoolValue(b: bool): int
  {
    if b then 1 else 0
  }

  function CompareValues(op: Comparison, a: int, b: int): bool
  {
    match op
      case Sup => a > b
      case SupOrEqual => a >= b
      case Sub => a < b
      case SubOrEqual => a <= b
      case Equal => a == b
      case Unequal => a != b
  }

  predicate AllSome(rs: seq<Option<int>>)
  {
    forall i :: 0 <= i < |rs| ==> rs[i].Some?
  }

  function Values(rs: seq<Option<int>>): (vs: seq<int>)
    requires AllSome(rs)
    ensures |vs| == |rs| && forall i :: 0 <= i < |rs| ==> Some(vs[i]) == rs[i]
  {
    seq(|rs|, i requires 0 <= i < |rs| && AllSome(rs) => rs[i].value)
  }

  /** `get()`. `None` stands for what the program leaves undefined: a
    * division by zero, or a reciprocal node without operands. `||` and `&&`
    * do not evaluate their right side when the left one decides. */
  function Eval(n: Node, env: Env): (r: Option<int>)
    ensures (n.Compare? || n.Or? || n.And? || n.Not?) && r.Some? ==> r.value == 0 || r.value == 1
    decreases n
  {
    match n
      case Number(v) => Some(v)
      case Parameter(_, v) => Some(v)
      case Constant(_, v) => Some(v)
      case Sum(ops) =>
        var rs := seq(|ops|, i requires 0 <= i < |ops| => Eval(ops[i], env));
        if AllSome(rs) then Some(FoldSum(Values(rs))) else None
      case Product(ops) =>
        var rs := seq(|ops|, i requires 0 <= i < |ops| => Eval(ops[i], env));
        if AllSome(rs) then Some(FoldProduct(Values(rs))) else None
      case Reciprocal(ops) =>
        var rs := seq(|ops|, i requires 0 <= i < |ops| => Eval(ops[i], env));
        if |ops| == 0 || !AllSome(rs) then None
        else FoldDivide(Values(rs)[0], Values(rs)[1..])
      case Negate(x) =>
        (match Eval(x, env) case None => None case Some(a) => Some(-a))
      case Power(b, e) =>
        (match (Eval(b, env), Eval(e, env))
          case (Some(a), Some(c)) => Some(env.pow(a, c))
          case _ => None)
      case Function(name, ops) =>
        var rs := seq(|ops|, i requires 0 <= i < |ops| => Eval(ops[i], env));
        if AllSome(rs) then Some(env.call(name, Values(rs))) else None
      case Compare(op, l, r) =>
        (match (Eval(l, env), Eval(r, env))
          case (Some(a), Some(b)) => Some(BoolValue(CompareValues(op, a, b)))
          case _ => None)
      case Or(l, r) =>
        (match Eval(l, env)
          case None => None
          case Some(a) =>
            if a != 0 then Some(1)
            else (match Eval(r, env) case None => None case Some(b) => Some(BoolValue(b != 0))))
      case And(l, r) =>
        (match Eval(l, env)
          case None => None
          case Some(a) =>
            if a == 0 then Some(0)
            else (match Eval(r, env) case None => None case Some(b) => Some(BoolValue(b != 0))))
      case Not(x) =>
        (match Eval(x, env) case None => None case Some(a) => Some(BoolValue(a == 0)))
  }

  /** Adding up two runs of values one after the other. */
  lemma {:induction false} FoldSumConcat(a: seq<int>, b: seq<int>)
    ensures FoldSum(a + b) == FoldSum(a) + FoldSum(b)
  {
    if |b| == 0 {
      assert a + b == a;
    } else {
      assert (a + b)[..|a + b| - 1] == a + b[..|b| - 1];
      FoldSumConcat(a, b[..|b| - 1]);
    }
  }

  lemma {:induction false} FoldProductConcat(a: seq<int>, b: seq<int>)
    ensures FoldProduct(a + b) == FoldProduct(a) * FoldProduct(b)
  {
    if |b| == 0 {
      assert a + b == a;
    } else {
      assert (a + b)[..|a + b| - 1] == a + b[..|b| - 1];
      FoldProductConcat(a, b[..|b| - 1]);
    }
  }

  function Reverse<T>(s: seq<T>): (r: seq<T>)
    ensures |r| == |s| && forall i :: 0 <= i < |s| ==> r[i] == s[|s| - 1 - i]
  {
    if |s| == 0 then [] else [s[|s| - 1]] + Reverse(s[..|s| - 1])
  }

  /** The fold order does not matter for integer sums and products. */
  lemma {:induction false} FoldReverse(vs: seq<int>)
    ensures FoldSum(Reverse(vs)) == FoldSum(vs) && FoldProduct(Reverse(vs)) == FoldProduct(vs)
  {
    if |vs| > 0 {
      var n := |vs| - 1;
      FoldReverse(vs[..n]);
      FoldSumConcat([vs[n]], Reverse(vs[..n]));
      FoldProductConcat([vs[n]], Reverse(vs[..n]));
    }
  }

  /** A sum or a product node has the same value with its operands in
    * reverse order, and fails on the same inputs. */
  lemma SumProductReversed(ops: seq<Node>, env: Env)
    ensures Eval(Sum(Reverse(ops)), env) == Eval(Sum(ops), env)
    ensures Eval(Product(Reverse(ops)), env) == Eval(Product(ops), env)
  {
    var rs := seq(|ops|, i requires 0 <= i < |ops| => Eval(ops[i], env));
    var rops := Reverse(ops);
    var qs := seq(|rops|, i requires 0 <= i < |rops| => Eval(rops[i], env));
    assert qs == Reverse(rs);
    assert AllSome(qs) <==> AllSome(rs) by {
      if AllSome(rs) {
        assert forall i :: 0 <= i < |qs| ==> qs[i] == rs[|rs| - 1 - i];
      }
      if AllSome(qs) {
        forall i | 0 <= i < |rs|
          ensures rs[i].Some?
        {
          assert rs[i] == qs[|rs| - 1 - i];
        }
      }
    }
    if AllSome(rs) {
      assert Values(qs) == Reverse(Values(rs));
      FoldReverse(Values(rs));
    }
  }

  /** `!` turns 0 into 1 and anything else into 0, and `!!` maps every
    * nonzero value to 1. */
  lemma NotValues(x: Node, env: Env)
    ensures Eval(Not(x), env) == Some(1) <==> Eval(x, env) == Some(0)
    ensures Eval(Not(Not(x)), env) == Some(1) <==> Eval(x, env).Some? && Eval(x, env).value != 0
  {
    var r := Eval(x, env);
    var nr := Eval(Not(x), env);
    assert nr == if r.None? then None else Some(BoolValue(r.value == 0));
    assert Eval(Not(Not(x)), env) == if nr.None? then None else Some(BoolValue(nr.value == 0));
  }

  /** Evaluating `!` and the short-circuit operators, one step. */
  lemma LogicSteps(a: Node, b: Node, env: Env)
    ensures var ra := Eval(a, env);
      Eval(Not(a), env) == if ra.None? then None else Some(BoolValue(ra.value == 0))
    ensures var ra, rb := Eval(a, env), Eval(b, env);
      Eval(And(a, b), env) == if ra.None? then None else if ra.value == 0 then Some(0)
                              else if rb.None? then None else Some(BoolValue(rb.value != 0))
    ensures var ra, rb := Eval(a, env), Eval(b, env);
      Eval(Or(a, b), env) == if ra.None? then None else if ra.value != 0 then Some(1)
                             else if rb.None? then None else Some(BoolValue(rb.value != 0))
  {
  }

  /** De Morgan holds for the short-circuit operators, undefined results
    * included. */
  lemma DeMorganAnd(a: Node, b: Node, env: Env)
    ensures Eval(Not(And(a, b)), env) == Eval(Or(Not(a), Not(b)), env)
  {
    LogicSteps(a, b, env);
    LogicSteps(b, a, env);
    LogicSteps(And(a, b), b, env);
    LogicSteps(Not(a), Not(b), env);
  }

  lemma DeMorganOr(a: Node, b: Node, env: Env)
    ensures Eval(Not(Or(a, b)), env) == Eval(And(Not(a), Not(b)), env)
  {
    LogicSteps(a, b, env);
    LogicSteps(b, a, env);
    LogicSteps(Or(a, b), b, env);
    LogicSteps(Not(a), Not(b), env);
  }

  // Printing.

  function DigitChar(d: nat): char
    requires d < 10
  {
    "0123456789"[d]
  }

  function DigitValue(c: char): nat
  {
    if '0' <= c <= '9' then (c as int - '0' as int) else 0
  }

  /** `std::to_string` of a non-negative and of any integer. */
  function NatToString(n: nat): (s: string)
    ensures |s| > 0 && forall i :: 0 <= i < |s| ==> '0' <= s[i] <= '9'
  {
    if n < 10 then [DigitChar(n)] else NatToString(n / 10) + [DigitChar(n % 10)]
  }

  function IntToString(v: int): string
  {
    if v < 0 then "-" + NatToString(-v) else NatToString(v)
  }

  /** Reading the decimal text back. */
  function ParseNat(s: string): nat
  {
    if |s| == 0 then 0 else ParseNat(s[..|s| - 1]) * 10 + DigitValue(s[|s| - 1])
  }

  function ParseInt(s: string): int
  {
    if |s| > 0 && s[0] == '-' then -(ParseNat(s[1..]) as int) else ParseNat(s) as int
  }

  lemma {:induction false} NatToStringRoundTrip(n: nat)
    ensures ParseNat(NatToString(n)) == n
  {
    if n >= 10 {
      var s := NatToString(n);
      assert s[..|s| - 1] == NatToString(n / 10);
      NatToStringRoundTrip(n / 10);
      assert DigitValue(DigitChar(n % 10)) == n % 10 by {
        assert "0123456789"[n % 10] as int == '0' as int + n % 10;
      }
    } else {
      assert "0123456789"[n] as int == '0' as int + n;
    }
  }

  /** The printed value of every integer reads back as that integer. */
  lemma IntToStringRoundTrip(v: int)
    ensures ParseInt(IntToString(v)) == v
  {
    if v < 0 {
      NegativeRoundTrip(v);
    } else {
      NonNegativeRoundTrip(v);
    }
  }

  /** A negative number prints as a minus sign before its magnitude. */
  lemma NegativeRoundTrip(v: int)
    requires v < 0
    ensures ParseInt(IntToString(v)) == v
  {
    NatToStringRoundTrip(-v);
    SignedText(NatToString(-v), -v);
  }

  /** Text after a minus sign reads as the negated number. */
  lemma SignedText(t: string, m: nat)
    requires ParseNat(t) == m
    ensures ParseInt("-" + t) == -(m as int)
  {
    assert ("-" + t)[1..] == t;
  }

  /** A non-negative number prints without a sign. */
  lemma NonNegativeRoundTrip(v: int)
    requires v >= 0
    ensures ParseInt(IntToString(v)) == v
  {
    var s := IntToString(v);
    NatToStringRoundTrip(v);
    assert s == NatToString(v) && s[0] != '-';
  }

  /** The items with the separator between two neighbours only. */
  function Join(items: seq<string>, sep: string): string
  {
    if |items| == 0 then ""
    else if |items| == 1 then items[0]
    else Join(items[..|items| - 1], sep) + sep + items[|items| - 1]
  }

  function Symbol(op: Comparison): string
  {
    match op
      case Sup => ">"
      case SupOrEqual => ">="
      case Sub => "<"
      case SubOrEqual => "<="
      case Equal => "="
      case Unequal => "!="
  }

  function Bracket(body: string): string
  {
    "( " + body + " )"
  }

  /** `toString()`: a number or a constant prints as text that parses back
    * to its value. */
  function ToString(n: Node): (r: string)
    ensures n.Number? || n.Constant? ==> ParseInt(r) == n.value
    decreases n
  {
    match n
      case Number(v) => IntToStringRoundTrip(v); IntToString(v)
      case Parameter(name, _) => name
      case Constant(_, v) => IntToStringRoundTrip(v); IntToString(v)
      case Sum(ops) => Bracket(Join(seq(|ops|, i requires 0 <= i < |ops| => ToString(ops[i])), " + "))
      case Product(ops) => Bracket(Join(seq(|ops|, i requires 0 <= i < |ops| => ToString(ops[i])), " * "))
      case Reciprocal(ops) => Bracket(Join(seq(|ops|, i requires 0 <= i < |ops| => ToString(ops[i])), " / "))
      case Negate(x) => "( -" + ToString(x) + " )"
      case Power(b, e) => Bracket(ToString(b) + " ^ " + ToString(e))
      case Function(name, ops) => name + Bracket(Join(seq(|ops|, i requires 0 <= i < |ops| => ToString(ops[i])), ", "))
      case Compare(op, l, r) => Bracket(ToString(l) + (" " + Symbol(op) + " ") + ToString(r))
      case Or(l, r) => Bracket(ToString(l) + " || " + ToString(r))
      case And(l, r) => Bracket(ToString(l) + " && " + ToString(r))
      case Not(x) => "( ! " + ToString(x) + " )"
  }

  // The printed form is bracketed consistently.

  /** Opening minus closing parentheses. */
  function Net(s: string): int
  {
    if |s| == 0 then 0
    else Net(s[..|s| - 1]) + (if s[|s| - 1] == '(' then 1 else if s[|s| - 1] == ')' then -1 else 0)
  }

  predicate Balanced(s: string)
  {
    Net(s) == 0 && forall k :: 0 <= k <= |s| ==> Net(s[..k]) >= 0
  }

  predicate Plain(s: string)
  {
    forall i :: 0 <= i < |s| ==> s[i] != '(' && s[i] != ')'
  }

  /** No parameter or function name holds a parenthesis. */
  predicate PlainNames(n: Node)
    decreases n
  {
    match n
      case Number(_) => true
      case Parameter(name, _) => Plain(name)
      case Constant(_, _) => true
      case Sum(ops) => forall i :: 0 <= i < |ops| ==> PlainNames(ops[i])
      case Product(ops) => forall i :: 0 <= i < |ops| ==> PlainNames(ops[i])
      case Reciprocal(ops) => forall i :: 0 <= i < |ops| ==> PlainNames(ops[i])
      case Negate(x) => PlainNames(x)
      case Power(b, e) => PlainNames(b) && PlainNames(e)
      case Function(name, ops) => Plain(name) && forall i :: 0 <= i < |ops| ==> PlainNames(ops[i])
      case Compare(_, l, r) => PlainNames(l) && PlainNames(r)
      case Or(l, r) => PlainNames(l) && PlainNames(r)
      case And(l, r) => PlainNames(l) && PlainNames(r)
      case Not(x) => PlainNames(x)
  }

  lemma {:induction false} NetConcat(a: string, b: string)
    ensures Net(a + b) == Net(a) + Net(b)
  {
    if |b| == 0 {
      assert a + b == a;
    } else {
      assert (a + b)[..|a + b| - 1] == a + b[..|b| - 1];
      NetConcat(a, b[..|b| - 1]);
    }
  }

  lemma {:induction false} PlainNet(s: string)
    requires Plain(s)
    ensures Net(s) == 0
  {
    if |s| > 0 {
      PlainNet(s[..|s| - 1]);
    }
  }

  lemma PlainBalanced(s: string)
    requires Plain(s)
    ensures Balanced(s)
  {
    forall k | 0 <= k <= |s|
      ensures Net(s[..k]) >= 0
    {
      PlainNet(s[..k]);
    }
    PlainNet(s);
  }

  lemma BalancedConcat(a: string, b: string)
    requires Balanced(a) && Balanced(b)
    ensures Balanced(a + b)
  {
    NetConcat(a, b);
    forall k | 0 <= k <= |a + b|
      ensures Net((a + b)[..k]) >= 0
    {
      if k <= |a| {
        assert (a + b)[..k] == a[..k];
      } else {
        assert (a + b)[..k] == a + b[..k - |a|];
        NetConcat(a, b[..k - |a|]);
      }
    }
  }

  /** Three balanced pieces in a row. */
  lemma BalancedConcat3(a: string, b: string, c: string)
    requires Balanced(a) && Balanced(b) && Balanced(c)
    ensures Balanced(a + b + c)
  {
    BalancedConcat(a, b);
    BalancedConcat(a + b, c);
  }

  /** A single parenthesis. */
  lemma NetParen(c: char)
    ensures Net([c]) == if c == '(' then 1 else if c == ')' then -1 else 0
  {
    assert [c][..0] == "";
  }

  /** Text between an opening and a closing parenthesis, each padded with
    * text holding no parenthesis. */
  lemma BalancedWrap(open: string, s: string, close: string)
    requires |open| > 0 && open[0] == '(' && Plain(open[1..])
    requires |close| > 0 && close[|close| - 1] == ')' && Plain(close[..|close| - 1])
    requires Balanced(s)
    ensures Balanced(open + s + close)
  {
    var w := open + s + close;
    var o := |open|;
    var c := |close| - 1;
    assert open == [open[0]] + open[1..];
    NetParen('(');
    NetParen(')');
    PlainNet(open[1..]);
    NetConcat([open[0]], open[1..]);
    assert close == close[..c] + [close[c]];
    PlainNet(close[..c]);
    NetConcat(close[..c], [close[c]]);
    NetConcat(open, s);
    NetConcat(open + s, close);
    forall k | 0 <= k <= |w|
      ensures Net(w[..k]) >= 0
    {
      if k == 0 {
        assert w[..k] == "";
      } else if k <= o {
        assert w[..k] == [open[0]] + open[1..k];
        assert Plain(open[1..k]) by {
          assert forall i :: 0 <= i < k - 1 ==> open[1..k][i] == open[1..][i];
        }
        PlainNet(open[1..k]);
        NetConcat([open[0]], open[1..k]);
      } else if k <= o + |s| {
        assert w[..k] == open + s[..k - o];
        NetConcat(open, s[..k - o]);
      } else if k < |w| {
        var j := k - o - |s|;
        assert w[..k] == open + s + close[..j];
        assert Plain(close[..j]) by {
          assert forall i :: 0 <= i < j ==> close[..j][i] == close[..c][i];
        }
        PlainNet(close[..j]);
        NetConcat(open + s, close[..j]);
      } else {
        assert w[..k] == w;
      }
    }
  }

  lemma {:induction false} JoinBalanced(items: seq<string>, sep: string)
    requires Plain(sep) && forall i :: 0 <= i < |items| ==> Balanced(items[i])
    ensures Balanced(Join(items, sep))
  {
    if |items| == 0 {
      assert Net("") == 0 && ""[..0] == "";
    } else if |items| > 1 {
      var n := |items| - 1;
      JoinBalanced(items[..n], sep);
      PlainBalanced(sep);
      BalancedConcat3(Join(items[..n], sep), sep, items[n]);
    }
  }

  lemma IntToStringPlain(v: int)
    ensures Plain(IntToString(v))
  {
  }

  /** The separators hold no parenthesis, and the prefixes and suffix
    * hold exactly one. */
  lemma Literals()
    ensures Plain(" + ") && Plain(" * ") && Plain(" / ") && Plain(", ") && Plain(" ^ ")
    ensures Plain(" || ") && Plain(" && ")
    ensures forall op :: Plain(" " + Symbol(op) + " ")
    ensures "( -"[0] == '(' && Plain("( -"[1..]) && "( ! "[0] == '(' && Plain("( ! "[1..])
    ensures "( "[0] == '(' && Plain("( "[1..])
    ensures " )"[|" )"| - 1] == ')' && Plain(" )"[..|" )"| - 1])
  {
    forall op
      ensures Plain(" " + Symbol(op) + " ")
    {
      var t := " " + Symbol(op) + " ";
      assert forall i :: 0 <= i < |t| ==> t[i] in {' ', '<', '>', '=', '!'};
    }
  }

  /** Every printed expression is balanced, provided no name it prints
    * holds a parenthesis. */
  lemma {:induction false} ToStringBalanced(n: Node)
    requires PlainNames(n)
    ensures Balanced(ToString(n))
    decreases n
  {
    Literals();
    match n
      case Number(v) =>
        IntToStringPlain(v);
        PlainBalanced(ToString(n));
      case Parameter(name, _) =>
        PlainBalanced(name);
      case Constant(_, v) =>
        IntToStringPlain(v);
        PlainBalanced(ToString(n));
      case Sum(ops) =>
        OperandsBalanced(ops, " + ");
      case Product(ops) =>
        OperandsBalanced(ops, " * ");
      case Reciprocal(ops) =>
        OperandsBalanced(ops, " / ");
      case Negate(x) =>
        ToStringBalanced(x);
        BalancedWrap("( -", ToString(x), " )");
      case Power(b, e) =>
        ToStringBalanced(b);
        ToStringBalanced(e);
        BinaryBalanced(ToString(b), " ^ ", ToString(e));
      case Function(name, ops) =>
        OperandsBalanced(ops, ", ");
        PlainBalanced(name);
        BalancedConcat(name, Bracket(Join(seq(|ops|, i requires 0 <= i < |ops| => ToString(ops[i])), ", ")));
      case Compare(op, l, r) =>
        ToStringBalanced(l);
        ToStringBalanced(r);
        BinaryBalanced(ToString(l), " " + Symbol(op) + " ", ToString(r));
      case Or(l, r) =>
        ToStringBalanced(l);
        ToStringBalanced(r);
        BinaryBalanced(ToString(l), " || ", ToString(r));
      case And(l, r) =>
        ToStringBalanced(l);
        ToStringBalanced(r);
        BinaryBalanced(ToString(l), " && ", ToString(r));
      case Not(x) =>
        ToStringBalanced(x);
        BalancedWrap("( ! ", ToString(x), " )");
  }

  lemma {:induction false} OperandsBalanced(ops: seq<Node>, sep: string)
    requires Plain(sep) && forall i :: 0 <= i < |ops| ==> PlainNames(ops[i])
    ensures Balanced(Bracket(Join(seq(|ops|, i requires 0 <= i < |ops| => ToString(ops[i])), sep)))
    decreases ops, 0
  {
    var items := seq(|ops|, i requires 0 <= i < |ops| => ToString(ops[i]));
    forall i | 0 <= i < |ops|
      ensures Balanced(items[i])
    {
      ToStringBalanced(ops[i]);
    }
    JoinBalanced(items, sep);
    BalancedWrap("( ", Join(items, sep), " )");
  }

  lemma BinaryBalanced(l: string, sep: string, r: string)
    requires Plain(sep) && Balanced(l) && Balanced(r)
    ensures Balanced(Bracket(l + sep + r))
  {
    PlainBalanced(sep);
    BalancedConcat3(l, sep, r);
    BalancedWrap("( ", l + sep + r, " )");
  }
}
