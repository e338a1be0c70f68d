/** Precedence climbing on a chain of operators and operands.

    The value of an operator is its precedence, and no two operators share one.
 */
module Climbing {
  import opened Lang
  import opened Syntax

  function Precedence(op: BinOp): nat {
    match op
    case LogicOr => 5
    case LogicAnd => 10
    case Equals => 20
    case NotEquals => 25
    case GreaterThen => 30
    case GreaterEqualsThen => 35
    case LessThen => 40
    case LessEqualsThen => 45
    case Plus => 50
    case Minus => 60
    case Divide => 70
    case Multiply => 80
  }

  /** An operator with the operand to its right. */
  datatype Link = Link(op: BinOp, operand: Expression)

  /** A tree over operands, which may themselves be anything in parentheses. */
  datatype Tree = Leaf(operand: Expression) | Node(op: BinOp, l: Tree, r: Tree)

  function ToExpression(t: Tree): Expression {
    match t
    case Leaf(e) => e
    case Node(op, l, r) => Binary(op, ToExpression(l), ToExpression(r))
  }

  /** The leftmost operand. */
  function Head(t: Tree): Expression {
    if t.Leaf? then t.operand else Head(t.l)
  }

  /** The operators and operands behind the leftmost operand, from left to right. */
  function Links(t: Tree): seq<Link> {
    if t.Leaf? then [] else Links(t.l) + [Link(t.op, Head(t.r))] + Links(t.r)
  }

  /** No left operand binds weaker than its parent, and every right operand binds stronger. */
  predicate Ordered(t: Tree) {
    t.Node? ==>
      Ordered(t.l) && Ordered(t.r) &&
      (t.l.Node? ==> Precedence(t.l.op) >= Precedence(t.op)) && (t.r.Node? ==> Precedence(t.r.op) > Precedence(t.op))
  }

  /** The tree, and what is left of the chain when an operator below `precedence` is reached. */
  function Climb(lhs: Tree, precedence: nat, c: seq<Link>): (r: (Tree, seq<Link>))
    ensures |r.1| <= |c|
    decreases |c|
  {
    if c == [] || Precedence(c[0].op) < precedence then (lhs, c)
    else
      var (rhs, rest) := Operand(c);
      Climb(Node(c[0].op, lhs, rhs), precedence, rest)
  }

  /** The right operand of the first operator: stronger operators behind it belong to it. */
  function Operand(c: seq<Link>): (r: (Tree, seq<Link>))
    requires c != []
    ensures |r.1| < |c|
    decreases |c|, 0
  {
    if |c| > 1 && Precedence(c[0].op) < Precedence(c[1].op)
    then Climb(Leaf(c[0].operand), Precedence(c[0].op) + 1, c[1..])
    else (Leaf(c[0].operand), c[1..])
  }

  /** The operator waiting in `c` does not bind stronger than the tree built so far. */
  predicate Waiting(lhs: Tree, c: seq<Link>) {
    lhs.Node? && c != [] ==> Precedence(c[0].op) <= Precedence(lhs.op)
  }

  lemma {:induction false} ClimbIsRight(lhs: Tree, precedence: nat, c: seq<Link>)
    requires Ordered(lhs) && Waiting(lhs, c)
    ensures
      var (t, rest) := Climb(lhs, precedence, c);
      Ordered(t) && Head(t) == Head(lhs) && Links(t) + rest == Links(lhs) + c &&
      (rest != [] ==> Precedence(rest[0].op) < precedence) &&
        (t == lhs || (t.Node? && Precedence(t.op) >= precedence)) && Waiting(t, rest)
    decreases |c|, 1
  {
    hide Precedence, Operand;
    if c != [] && Precedence(c[0].op) >= precedence {
      OperandIsRight(c);
      var (rhs, rest) := Operand(c);
      var node := Node(c[0].op, lhs, rhs);
      NodeLinks(lhs, c, rhs, rest);
      ClimbIsRight(node, precedence, rest);
    }
  }

  lemma NodeLinks(lhs: Tree, c: seq<Link>, rhs: Tree, rest: seq<Link>)
    requires c != [] && Head(rhs) == c[0].operand && Links(rhs) + rest == c[1..]
    ensures Links(Node(c[0].op, lhs, rhs)) + rest == Links(lhs) + c
  {
    var link := [Link(c[0].op, Head(rhs))];
    assert (Links(lhs) + link + Links(rhs)) + rest == Links(lhs) + (link + (Links(rhs) + rest));
    assert c == link + c[1..];
  }

  lemma {:induction false} OperandIsRight(c: seq<Link>)
    requires c != []
    ensures
      var (rhs, rest) := Operand(c);
      Ordered(rhs) && Head(rhs) == c[0].operand && Links(rhs) + rest == c[1..] &&
      (rhs.Node? ==> Precedence(rhs.op) > Precedence(c[0].op)) &&
        (rest != [] ==> Precedence(rest[0].op) <= Precedence(c[0].op))
    decreases |c|, 0
  {
    if |c| > 1 && Precedence(c[0].op) < Precedence(c[1].op) {
      ClimbIsRight(Leaf(c[0].operand), Precedence(c[0].op) + 1, c[1..]);
      assert [] + c[1..] == c[1..];
    } else {
      assert [] + c[1..] == c[1..];
    }
  }

  /** In an ordered tree every operator on the left binds at least as strong as the root, and every one on
      the right stronger. */
  lemma {:induction false} RootIsWeakest(t: Tree, p: nat, k: nat)
    requires Ordered(t) && k < |Links(t)| && t.Node? && Precedence(t.op) >= p
    ensures Precedence(Links(t)[k].op) >= p
    decreases t
  {
    var n := |Links(t.l)|;
    if k < n {
      RootIsWeakest(t.l, p, k);
    } else if k > n {
      RootIsWeakest(t.r, p, k - n - 1);
    }
  }

  /** Where the root's operator stands in the chain. */
  function RootAt(t: Tree): nat {
    if t.Node? then |Links(t.l)| else 0
  }

  lemma RootsAgree(s: Tree, t: Tree)
    requires Ordered(s) && Ordered(t) && Links(s) == Links(t) && s.Node? && t.Node?
    ensures RootAt(s) >= RootAt(t)
  {
    var c, i, j := Links(s), RootAt(s), RootAt(t);
    if i < j {
      assert c[i].op == s.op && c[j].op == t.op;
      assert c[j] == Links(s.r)[j - i - 1] && c[i] == Links(t.l)[i];
      RootIsWeakest(s.r, Precedence(s.op) + 1, j - i - 1);
      RootIsWeakest(t.l, Precedence(t.op), i);
    }
  }

  /** There is only one ordered tree over a chain. */
  lemma {:induction false} OrderedTreesAreUnique(s: Tree, t: Tree)
    requires Ordered(s) && Ordered(t) && Head(s) == Head(t) && Links(s) == Links(t)
    ensures s == t
    decreases s
  {
    if s.Node? && t.Node? {
      RootsAgree(s, t);
      RootsAgree(t, s);
      var c, n := Links(s), RootAt(s);
      assert Links(s.l) == c[..n] && Links(t.l) == c[..n];
      assert Links(s.r) == c[n + 1..] && Links(t.r) == c[n + 1..];
      assert c[n] == Link(s.op, Head(s.r)) == Link(t.op, Head(t.r));
      OrderedTreesAreUnique(s.l, t.l);
      OrderedTreesAreUnique(s.r, t.r);
    }
  }

  /** Climbing from precedence 0 uses up the chain and builds the one ordered tree over it. */
  lemma {:induction false} ClimbAll(operand: Expression, c: seq<Link>, t: Tree)
    ensures Climb(Leaf(operand), 0, c).1 == []
    ensures Ordered(t) && Head(t) == operand && Links(t) == c <==> t == Climb(Leaf(operand), 0, c).0
  {
    ClimbIsRight(Leaf(operand), 0, c);
    var (r, rest) := Climb(Leaf(operand), 0, c);
    assert [] + c == c && Links(r) + [] == Links(r);
    if Ordered(t) && Head(t) == operand && Links(t) == c {
      OrderedTreesAreUnique(t, r);
    }
  }

  // What the table says, without its numbers.

  /** Every binary operator, from the weakest to the strongest. */
  const WEAKEST_FIRST: seq<BinOp> := [
    LogicOr, LogicAnd, Equals, NotEquals, GreaterThen, GreaterEqualsThen, LessThen, LessEqualsThen, Plus, Minus,
    Divide, Multiply
  ]

  /** The list is complete, and whatever stands later in it binds stronger. */
  lemma {:induction false} TableIsList(op: BinOp, j: nat, k: nat)
    requires j < |WEAKEST_FIRST| && k < |WEAKEST_FIRST|
    ensures op in WEAKEST_FIRST
    ensures Precedence(WEAKEST_FIRST[j]) < Precedence(WEAKEST_FIRST[k]) <==> j < k
  {
    var n := match op
      case LogicOr => 0
      case LogicAnd => 1
      case Equals => 2
      case NotEquals => 3
      case GreaterThen => 4
      case GreaterEqualsThen => 5
      case LessThen => 6
      case LessEqualsThen => 7
      case Plus => 8
      case Minus => 9
      case Divide => 10
      case Multiply => 11;
    assert WEAKEST_FIRST[n] == op;
  }

  /** How two operators group three operands: a stronger one on the right takes the middle operand, any other one
      leaves it to the left. */
  function Grouped(a: Expression, op1: BinOp, b: Expression, op2: BinOp, c: Expression, right: bool): Tree {
    if right then Node(op1, Leaf(a), Node(op2, Leaf(b), Leaf(c))) else Node(op2, Node(op1, Leaf(a), Leaf(b)), Leaf(c))
  }

  lemma GroupedLinks(a: Expression, op1: BinOp, b: Expression, op2: BinOp, c: Expression, right: bool)
    ensures var t := Grouped(a, op1, b, op2, c, right);
      Head(t) == a && Links(t) == [Link(op1, b), Link(op2, c)]
  {
    assert Links(Leaf(a)) == Links(Leaf(b)) == Links(Leaf(c)) == [];
    assert Head(Leaf(a)) == a && Head(Leaf(b)) == b && Head(Leaf(c)) == c;
    if right {
      var inner := Node(op2, Leaf(b), Leaf(c));
      assert Links(inner) == [Link(op2, c)] && Head(inner) == Head(Leaf(b));
    } else {
      var inner := Node(op1, Leaf(a), Leaf(b));
      assert Links(inner) == [Link(op1, b)] && Head(inner) == Head(Leaf(a));
    }
  }

  /** Of any two operators the one later in the list takes the operand between them, wherever it stands; an
      operator and itself group to the left. So `a / b * c` is `a / (b * c)`. */
  lemma {:induction false} LaterBindsStronger(a: Expression, j: nat, b: Expression, k: nat, c: Expression)
    requires j < |WEAKEST_FIRST| && k < |WEAKEST_FIRST|
    ensures var op1, op2 := WEAKEST_FIRST[j], WEAKEST_FIRST[k];
      Climb(Leaf(a), 0, [Link(op1, b), Link(op2, c)]) == (Grouped(a, op1, b, op2, c, j < k), [])
  {
    var op1, op2 := WEAKEST_FIRST[j], WEAKEST_FIRST[k];
    TableIsList(op1, j, k);
    GroupedLinks(a, op1, b, op2, c, j < k);
    var t := Grouped(a, op1, b, op2, c, j < k);
    GroupedIsOrdered(a, op1, b, op2, c, j < k);
    ClimbAll(a, [Link(op1, b), Link(op2, c)], t);
  }

  lemma GroupedIsOrdered(a: Expression, op1: BinOp, b: Expression, op2: BinOp, c: Expression, right: bool)
    requires Precedence(op1) < Precedence(op2) <==> right
    ensures Ordered(Grouped(a, op1, b, op2, c, right))
  {
    hide Precedence;
    assert Ordered(Leaf(a)) && Ordered(Leaf(b)) && Ordered(Leaf(c));
    assert Ordered(Node(op2, Leaf(b), Leaf(c))) && Ordered(Node(op1, Leaf(a), Leaf(b)));
  }
}
