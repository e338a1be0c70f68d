/** Code for expressions, which both generators produce in the block that is selected. */
module ExprGen {
  import opened Lang
  import opened Machine
  import opened Lowering
  import opened Growth
  import opened Builder

  /** Instruction operators for the operators of the source; None raises an error there. */
  function CalcFromBinaryExpressionOp(op: BinOp): Option<CalcOp> {
    match op
    case Plus => Some(Add)
    case Minus => Some(Subtract)
    case Divide => Some(Div)
    case Multiply => Some(Mul)
    case _ => None
  }

  function CompareFromBinaryExpressionOp(op: BinOp): Option<CompareOp> {
    match op
    case Equals => Some(Eq)
    case NotEquals => Some(Ne)
    case GreaterThen => Some(Gt)
    case GreaterEqualsThen => Some(Ge)
    case LessThen => Some(Lt)
    case LessEqualsThen => Some(Le)
    case _ => None
  }

  function LogicFromBinaryExpressionOp(op: BinOp): Option<LogicOp> {
    match op
    case LogicAnd => Some(And)
    case LogicOr => Some(Or)
    case _ => None
  }

  /** The instruction chosen for a binary expression, by operand type and result type; None where the
      generator warns or raises an error. */
  function InstructionOp(operandType: Type, resultType: Type, op: BinOp): Option<Op> {
    if IsNumerical(operandType) && resultType == operandType then
      var c := CalcFromBinaryExpressionOp(op);
      if c.Some? then Some(Calc(c.value)) else None
    else if IsNumerical(operandType) && resultType == Bool then
      var c := CompareFromBinaryExpressionOp(op);
      if c.Some? then Some(Compare(c.value)) else None
    else if operandType == Bool && resultType == Bool then
      var c := LogicFromBinaryExpressionOp(op);
      if c.Some? then Some(Logic(c.value)) else None
    else None
  }

  /** The generator translates exactly the operations the decorator gives a type, and keeps the operator. */
  lemma InstructionOpAgrees(operandType: Type, resultType: Type, op: BinOp)
    ensures InstructionOp(operandType, resultType, op) ==
      if BinaryOperationResultType(operandType, op) == Some(resultType) then Some(OpFor(op)) else None
  {
  }

  /** Predicate of the compare instruction for an operator, if it is a comparison. */
  function BinaryOperationCompare(op: BinOp, operandType: Type): Option<CompareOp> {
    if !IsNumerical(operandType) then None
    else
      match op
      case Equals => Some(Eq)
      case NotEquals => Some(Ne)
      case GreaterThen => Some(Gt)
      case GreaterEqualsThen => Some(Ge)
      case LessThen => Some(Lt)
      case LessEqualsThen => Some(Le)
      case _ => None
  }

  /** The instruction for a binary expression; None raises an error. */
  function LlvmOp(operandType: Type, resultType: Type, op: BinOp): Option<Op> {
    var compare := BinaryOperationCompare(op, operandType);
    if compare.Some? then Some(Compare(compare.value))
    else
      match op
      case Plus => if IsNumerical(resultType) then Some(Calc(Add)) else None
      case Minus => if IsNumerical(resultType) then Some(Calc(Subtract)) else None
      case Divide => if IsNumerical(resultType) then Some(Calc(Div)) else None
      case Multiply => if IsNumerical(resultType) then Some(Calc(Mul)) else None
      case LogicAnd => Some(Logic(And))
      case LogicOr => Some(Logic(Or))
      case _ => None
  }

  /** An operation is translated exactly if it compares numbers, computes a number or is logical, and always to the
      operator the IR lowering uses: every operation the decorator gives a type, and some others. */
  lemma LlvmOpAgrees(operandType: Type, resultType: Type, op: BinOp)
    ensures LlvmOp(operandType, resultType, op) ==
      if LogicFromBinaryExpressionOp(op).Some? ||
        (CompareFromBinaryExpressionOp(op).Some? && IsNumerical(operandType)) ||
         (CalcFromBinaryExpressionOp(op).Some? && IsNumerical(resultType))
      then Some(OpFor(op)) else None
    ensures BinaryOperationResultType(operandType, op) == Some(resultType) ==>
      LlvmOp(operandType, resultType, op) == Some(OpFor(op))
  {
  }

  /** The generators walk an expression alike; they differ in literals, which are instructions of the IR
      and constants in LLVM, and in their operator tables. */
  datatype Target = IR | Llvm

  /** Code for an expression: straight-line, in the selected block. */
  function ExprCode(k: Target, g: Gen, e: Expr): (Gen, Operand)
    decreases e
  {
    match e
    case Lit(v) => if k.IR? then (Emit(g, Literal(v)), Reg(g.nextId)) else (g, Const(v))
    case Var(x, _) =>
      var a := AddrOf(g.lay, x);
      if a.Some? then (Emit(g, Load(a.value)), Reg(g.nextId)) else (g, NoOperand)
    case Not(i) =>
      var (g1, o) := ExprCode(k, g, i);
      (Emit(g1, Negate(o)), Reg(g1.nextId))
    case Bin(op, lhs, rhs, t) =>
      var (g1, l) := ExprCode(k, g, lhs);
      var (g2, r) := ExprCode(k, g1, rhs);
      var iop := if k.IR? then InstructionOp(ResultType(lhs), t, op) else LlvmOp(ResultType(lhs), t, op);
      if iop.Some? then (Emit(g2, Compute(iop.value, l, r)), Reg(g2.nextId)) else (g2, NoOperand)
    case Call(f, args, _) =>
      var (g1, os) := ArgsCode(k, g, args);
      (Emit(g1, CallFn(f, os)), Reg(g1.nextId))
  }

  function ArgsCode(k: Target, g: Gen, es: seq<Expr>): (Gen, seq<Operand>)
    decreases es
  {
    if es == [] then (g, [])
    else
      var (g1, o) := ExprCode(k, g, es[0]);
      var (g2, os) := ArgsCode(k, g1, es[1..]);
      (g2, [o] + os)
  }

  lemma {:induction false} ExprCodeAt(k: Target, g: Gen, e: Expr)
    requires Ok(g) && g.cur in g.blocks && Supported(e) && ExprDeclared(e, |g.lay.params|, g.lay.locals.Keys)
    ensures var (g1, o) := ExprCode(k, g, e);
      Straight(g, g1) && ExprAt(g1.blocks, g1.lay, e, g.cur, Here(g).index, Here(g1).index, o)
    decreases e
  {
    match e
    case Lit(v) =>
      EmitOk(g, Literal(v));
      assert Straight(g, g);
    case Var(x, _) => EmitOk(g, Load(AddrOf(g.lay, x).value));
    case Not(_) => NotCodeAt(k, g, e);
    case Bin(_, _, _, _) => BinCodeAt(k, g, e);
    case Call(_, _, _) => CallCodeAt(k, g, e);
  }

  lemma {:induction false} NotCodeAt(k: Target, g: Gen, e: Expr)
    requires e.Not? && Ok(g) && g.cur in g.blocks && Supported(e) && ExprDeclared(e, |g.lay.params|, g.lay.locals.Keys)
    ensures var (g1, o) := ExprCode(k, g, e);
      Straight(g, g1) && ExprAt(g1.blocks, g1.lay, e, g.cur, Here(g).index, Here(g1).index, o)
    decreases e, 0
  {
    ExprCodeAt(k, g, e.inner);
    var (g1, o) := ExprCode(k, g, e.inner);
    EmitOk(g1, Negate(o));
    StraightTrans(g, g1, Emit(g1, Negate(o)));
    ExprAtGrows(g1.blocks, Emit(g1, Negate(o)).blocks, g.lay, g.lay, e.inner, g.cur, Here(g).index, Here(g1).index, o);
  }

  lemma {:induction false} CallCodeAt(k: Target, g: Gen, e: Expr)
    requires e.Call? && Ok(g) && g.cur in g.blocks && Supported(e) && ExprDeclared(e, |g.lay.params|, g.lay.locals.Keys)
    ensures var (g1, o) := ExprCode(k, g, e);
      Straight(g, g1) && ExprAt(g1.blocks, g1.lay, e, g.cur, Here(g).index, Here(g1).index, o)
    decreases e, 0
  {
    ArgsCodeAt(k, g, e.args);
    var (g1, os) := ArgsCode(k, g, e.args);
    EmitOk(g1, CallFn(e.fn, os));
    StraightTrans(g, g1, Emit(g1, CallFn(e.fn, os)));
    ArgsAtGrows(g1.blocks, Emit(g1, CallFn(e.fn, os)).blocks, g.lay, g.lay, e.args, g.cur, Here(g).index,
      Here(g1).index, os);
  }

  lemma {:induction false} BinCodeAt(k: Target, g: Gen, e: Expr)
    requires e.Bin? && Ok(g) && g.cur in g.blocks && Supported(e) && ExprDeclared(e, |g.lay.params|, g.lay.locals.Keys)
    ensures var (g1, o) := ExprCode(k, g, e);
      Straight(g, g1) && ExprAt(g1.blocks, g1.lay, e, g.cur, Here(g).index, Here(g1).index, o)
    decreases e, 0
  {
    ExprCodeAt(k, g, e.lhs);
    var (g1, l) := ExprCode(k, g, e.lhs);
    ExprCodeAt(k, g1, e.rhs);
    var (g2, r) := ExprCode(k, g1, e.rhs);
    InstructionOpAgrees(ResultType(e.lhs), e.resultType, e.op);
    LlvmOpAgrees(ResultType(e.lhs), e.resultType, e.op);
    var g3 := Emit(g2, Compute(OpFor(e.op), l, r));
    EmitOk(g2, Compute(OpFor(e.op), l, r));
    StraightTrans(g, g1, g2);
    StraightTrans(g, g2, g3);
    ExtendsGrows(g1, g2);
    GrowsTrans(g1.blocks, g2.blocks, g3.blocks);
    BinClosed(g1, g2, g3, e, Here(g), l, r);
  }

  lemma BinClosed(g1: Gen, g2: Gen, g3: Gen, e: Expr, p: Pos, l: Operand, r: Operand)
    requires e.Bin? && Grows(g1.blocks, g3.blocks) && Grows(g2.blocks, g3.blocks) && g1.lay == g2.lay == g3.lay
    requires g1.cur == g2.cur == p.block && g3 == Emit(g2, Compute(OpFor(e.op), l, r)) && p.index <= Here(g2).index
    requires ExprAt(g1.blocks, g1.lay, e.lhs, p.block, p.index, Here(g1).index, l)
    requires ExprAt(g2.blocks, g2.lay, e.rhs, p.block, Here(g1).index, Here(g2).index, r)
    ensures ExprAt(g3.blocks, g3.lay, e, p.block, p.index, Here(g3).index, Reg(g2.nextId))
  {
    ExprAtGrows(g1.blocks, g3.blocks, g1.lay, g3.lay, e.lhs, p.block, p.index, Here(g1).index, l);
    ExprAtGrows(g2.blocks, g3.blocks, g2.lay, g3.lay, e.rhs, p.block, Here(g1).index, Here(g2).index, r);
    assert OperandsAt(g3.blocks, g3.lay, e, p.block, p.index, Here(g2).index, l, r);
  }

  lemma {:induction false} ArgsCodeAt(k: Target, g: Gen, es: seq<Expr>)
    requires Ok(g) && g.cur in g.blocks &&
      forall a <- es :: Supported(a) && ExprDeclared(a, |g.lay.params|, g.lay.locals.Keys)
    ensures var (g1, os) := ArgsCode(k, g, es);
      Straight(g, g1) && ArgsAt(g1.blocks, g1.lay, es, g.cur, Here(g).index, Here(g1).index, os)
    decreases es
  {
    if es != [] {
      ExprCodeAt(k, g, es[0]);
      var (g1, o) := ExprCode(k, g, es[0]);
      ArgsCodeAt(k, g1, es[1..]);
      var (g2, os) := ArgsCode(k, g1, es[1..]);
      StraightTrans(g, g1, g2);
      ExtendsGrows(g1, g2);
      ExprAtGrows(g1.blocks, g2.blocks, g.lay, g.lay, es[0], g.cur, Here(g).index, Here(g1).index, o);
      assert ([o] + os)[1..] == os;
    }
  }

  lemma {:induction false} ExprCodeKeepsLayout(k: Target, g: Gen, e: Expr)
    ensures ExprCode(k, g, e).0.lay == g.lay
    decreases e
  {
    match e
    case Not(i) => ExprCodeKeepsLayout(k, g, i);
    case Bin(_, l, r, _) =>
      ExprCodeKeepsLayout(k, g, l);
      ExprCodeKeepsLayout(k, ExprCode(k, g, l).0, r);
    case Call(_, args, _) => ArgsCodeKeepsLayout(k, g, args);
    case _ =>
  }

  lemma {:induction false} ArgsCodeKeepsLayout(k: Target, g: Gen, es: seq<Expr>)
    ensures ArgsCode(k, g, es).0.lay == g.lay
    decreases es
  {
    if es != [] {
      ExprCodeKeepsLayout(k, g, es[0]);
      ArgsCodeKeepsLayout(k, ExprCode(k, g, es[0]).0, es[1..]);
    }
  }

  /** `ExprCodeAt` for an expression whose variables are visible. */
  lemma VisibleCodeAt(k: Target, g: Gen, e: Expr, vis: set<nat>)
    requires Ok(g) && g.cur in g.blocks && Supported(e) && ExprDeclared(e, |g.lay.params|, vis) &&
      vis <= g.lay.locals.Keys
    ensures var (g1, o) := ExprCode(k, g, e);
      Straight(g, g1) && ExprAt(g1.blocks, g1.lay, e, g.cur, Here(g).index, Here(g1).index, o)
  {
    ExprDeclaredMore(e, |g.lay.params|, vis, g.lay.locals.Keys);
    ExprCodeAt(k, g, e);
  }
}
