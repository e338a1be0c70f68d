/** The generator of the second lowering: it walks the tree and drives an LLVM builder. */
module CodeGenerator {
  import opened Lang
  import opened Machine
  import opened Lowering
  import opened Growth
  import opened Builder
  import opened ExprGen
  import opened CodeGen
  import opened CodeGenSound
  import opened BlockShape

  /** The part of an LLVM builder the generator uses. */
  class LlvmBuilder {
    var state: Gen

    constructor ()
      ensures state == EMPTY
    {
      state := EMPTY;
    }

    /** Add a block to the function; the insertion point stays where it is. */
    method CreateBlock() returns (b: nat)
      modifies this
      ensures b == old(state).nextBlock && state == AddBlock(old(state))
    {
      b := state.nextBlock;
      state := state.(blocks := state.blocks[b := []], nextBlock := b + 1);
    }

    method SetInsertPoint(b: nat)
      modifies this
      ensures state == Select(old(state), b)
    {
      state := state.(cur := b);
    }

    /** Append an instruction. Nothing may be appended to a block that has been erased. */
    method Insert(ins: Instr) returns (o: Operand)
      requires state.cur in state.blocks
      modifies this
      ensures o == Reg(old(state).nextId) && state == Emit(old(state), ins)
    {
      o := Reg(state.nextId);
      state := state.(blocks := state.blocks[state.cur := state.blocks[state.cur] + [Node(state.nextId, ins)]],
        nextId := state.nextId + 1);
    }

    method EraseFromParent(b: nat)
      modifies this
      ensures state == EraseBlock(old(state), b)
    {
      state := state.(blocks := state.blocks - {b});
    }
  }

  /** The generator, with the globals and functions of its module. */
  class CodeGenerator {
    const builder: LlvmBuilder
    var globals: seq<Type>
    var functions: seq<Func>

    constructor ()
      ensures fresh(builder) && globals == [] && functions == []
    {
      builder := new LlvmBuilder();
      globals, functions := [], [];
    }

    method Expression(e: Expr) returns (o: Operand)
      requires builder.state.cur in builder.state.blocks
      modifies builder
      ensures (builder.state, o) == ExprCode(Llvm, old(builder.state), e)
      ensures builder.state.cur == old(builder.state).cur && builder.state.cur in builder.state.blocks
      decreases e
    {
      match e
      case Lit(v) =>
        o := Const(v);
      case Var(x, _) =>
        var a := AddrOf(builder.state.lay, x);
        if a.Some? {
          o := builder.Insert(Load(a.value));
        } else {
          o := NoOperand;
        }
      case Not(i) =>
        var inner := Expression(i);
        o := builder.Insert(Negate(inner));
      case Bin(op, l, r, t) =>
        var lhs := Expression(l);
        var rhs := Expression(r);
        var lop := LlvmOp(ResultType(l), t, op);
        if lop.Some? {
          o := builder.Insert(Compute(lop.value, lhs, rhs));
        } else {
          o := NoOperand;
        }
      case Call(f, es, _) =>
        var args: seq<Operand> := [];
        assert es[0..] == es;
        ghost var g := builder.state;
        for n := 0 to |es|
          invariant builder.state.cur == g.cur && builder.state.cur in builder.state.blocks
          invariant ArgsCode(Llvm, g, es).0 == ArgsCode(Llvm, builder.state, es[n..]).0
          invariant ArgsCode(Llvm, g, es).1 == args + ArgsCode(Llvm, builder.state, es[n..]).1
        {
          assert es[n..][0] == es[n] && es[n..][1..] == es[n + 1..];
          var arg := Expression(es[n]);
          assert forall rest :: args + ([arg] + rest) == (args + [arg]) + rest;
          args := args + [arg];
        }
        assert args + [] == args;
        o := builder.Insert(CallFn(f, args));
    }

    /** Whether the statement returns. */
    method Statement(s: Stmt, ghost vis: set<nat>, ghost n: nat) returns (isReturn: bool)
      requires Accepts(builder.state, s, vis, n)
      modifies builder
      ensures (builder.state, isReturn) == GenStatement(old(builder.state), s)
      decreases s, 1
    {
      match s
      case Return(r) =>
        if r.None? || ResultType(r.value) == Void {
          var _ := builder.Insert(Ret(None));
        } else {
          var value := Expression(r.value);
          var _ := builder.Insert(Ret(Some(value)));
        }
        isReturn := true;
      case Let(d, t, e) =>
        var init := Expression(e);
        var id := builder.state.nextId;
        var _ := builder.Insert(Alloc(t));
        var _ := builder.Insert(Store(Cell(id), init));
        builder.state := AddLocal(builder.state, d, id);
        isReturn := false;
      case Assign(x, e) =>
        var variablePtr := AddrOf(builder.state.lay, x);
        ExprCodeKeepsLayout(Llvm, builder.state, e);
        var value := Expression(e);
        if variablePtr.Some? {
          var _ := builder.Insert(Store(variablePtr.value, value));
        }
        isReturn := false;
      case Block(ss) =>
        isReturn := Compound(ss, vis, n);
      case If(_, _, _) =>
        isReturn := IfStatement(s, vis, n);
      case While(_, _) =>
        WhileStatement(s, vis, n);
        isReturn := false;
      case Eval(e) =>
        var _ := Expression(e);
        isReturn := false;
    }

    method Compound(ss: seq<Stmt>, ghost vis: set<nat>, ghost n: nat) returns (isReturn: bool)
      requires AcceptsAll(builder.state, ss, vis, n)
      modifies builder
      ensures (builder.state, isReturn) == GenCompound(old(builder.state), ss)
      decreases ss, 0
    {
      hide IdsBelow, LayoutBelow, StmtAt, StmtsAt, ExprAt, DistinctIds, Separate, GenStatement, Grows;
      assert ss[0..] == ss;
      ghost var seen, first: nat := vis, n;
      for k := 0 to |ss|
        invariant AcceptsAll(builder.state, ss[k..], seen, first)
        invariant GenCompound(old(builder.state), ss) == GenCompound(builder.state, ss[k..])
      {
        assert ss[k..][0] == ss[k] && ss[k..][1..] == ss[k + 1..];
        GenStatementAt(builder.state, ss[k], seen, first);
        isReturn := Statement(ss[k], seen, first);
        if isReturn {
          return;
        }
        seen, first := seen + Declares(ss[k]), first + Lets(ss[k]);
      }
      isReturn := false;
    }

    method IfStatement(s: Stmt, ghost vis: set<nat>, ghost n: nat) returns (hasReturn: bool)
      requires s.If? && Accepts(builder.state, s, vis, n)
      modifies builder
      ensures (builder.state, hasReturn) == GenStatement(old(builder.state), s)
      decreases s, 0
    {
      hide Accepts, AcceptsAll;
      BranchesAccept(builder.state, ExprCode(Llvm, builder.state, s.cond).0, ExprCode(Llvm, builder.state, s.cond).1, s,
        vis, n);
      var conditionVal := Expression(s.cond);
      var thenBlock := builder.CreateBlock();
      var mergeBlock := builder.CreateBlock();
      var elseBlock := mergeBlock;
      if s.els.Else? {
        elseBlock := builder.CreateBlock();
      }
      var _ := builder.Insert(CondJump(conditionVal, Some(thenBlock), Some(elseBlock)));
      builder.SetInsertPoint(thenBlock);
      var thenHasReturn := Branch(s.thn, mergeBlock, vis, n);
      if s.els.Else? {
        builder.SetInsertPoint(elseBlock);
        var elseHasReturn := Branch(s.els.stmts, mergeBlock, vis, n + LetsIn(s.thn));
        hasReturn := thenHasReturn && elseHasReturn;
      } else {
        hasReturn := false;
      }
      if hasReturn {
        builder.EraseFromParent(mergeBlock);
      }
      builder.SetInsertPoint(mergeBlock);
    }

    /** A block's statements and, unless they return, the jump that ends it. */
    method Branch(ss: seq<Stmt>, to: nat, ghost vis: set<nat>, ghost n: nat) returns (hasReturn: bool)
      requires AcceptsAll(builder.state, ss, vis, n)
      modifies builder
      ensures (builder.state, hasReturn) == GenBranch(old(builder.state), ss, to)
      decreases ss, 1
    {
      GenCompoundAt(builder.state, ss, vis, n);
      hasReturn := Compound(ss, vis, n);
      if !hasReturn {
        var _ := builder.Insert(Jump(to));
      }
    }

    method WhileStatement(s: Stmt, ghost vis: set<nat>, ghost n: nat)
      requires s.While? && Accepts(builder.state, s, vis, n)
      modifies builder
      ensures (builder.state, false) == GenStatement(old(builder.state), s)
      decreases s, 0
    {
      hide Accepts, AcceptsAll;
      WhileReady(builder.state, s, vis, n);
      var checkBlock := builder.CreateBlock();
      var bodyBlock := builder.CreateBlock();
      var mergeBlock := builder.CreateBlock();
      var _ := builder.Insert(Jump(checkBlock));
      builder.SetInsertPoint(checkBlock);
      var conditionVal := Expression(s.guard);
      var _ := builder.Insert(CondJump(conditionVal, Some(bodyBlock), Some(mergeBlock)));
      builder.SetInsertPoint(bodyBlock);
      var _ := Branch(s.body, checkBlock, vis, n);
      builder.SetInsertPoint(mergeBlock);
    }

    method FunctionBody(fd: FunDecl)
      requires !fd.isExtern && AllSupported(fd.body) && AllDeclared(fd.body, |fd.params|, {}, 0)
      modifies builder
      ensures builder.state.blocks == GenFunction(fd).blocks
    {
      builder.state := EMPTY;
      EntryOk();
      GenArgumentCellsAt(EMPTY, fd.params);
      assert fd.params[0..] == fd.params;
      for i := 0 to |fd.params|
        invariant GenArgumentCells(EMPTY, fd.params) == GenArgumentCells(builder.state, fd.params[i..])
        invariant builder.state.cur in builder.state.blocks && |builder.state.lay.params| == i
      {
        assert fd.params[i..][1..] == fd.params[i + 1..];
        var id := builder.state.nextId;
        var _ := builder.Insert(Alloc(fd.params[i]));
        var _ := builder.Insert(Store(Cell(id), ArgValue(i)));
        builder.state := builder.state.(lay := builder.state.lay.(params := builder.state.lay.params + [Cell(id)]));
      }
      var _ := Compound(fd.body, {}, 0);
    }

    method GenGlobals(values: seq<Value>)
      modifies this`globals
      ensures globals == old(globals) + GlobalTypes(values)
    {
      assert values[0..] == values;
      for i := 0 to |values|
        invariant globals + GlobalTypes(values[i..]) == old(globals) + GlobalTypes(values)
      {
        assert values[i..][0] == values[i] && values[i..][1..] == values[i + 1..];
        if IsNumerical(TypeOf(values[i])) {
          globals := globals + [TypeOf(values[i])];
        }
      }
    }

    /** Globals, then all functions without bodies, then the bodies. */
    method GenerateCode(p: Program)
      requires Lowerable(p) && functions == []
      modifies this`globals, this`functions, builder
      ensures Module(functions) == GenModule(p) && globals == old(globals) + GlobalTypes(p.globals)
    {
      GenGlobals(p.globals);
      for f := 0 to |p.funs|
        invariant globals == old(globals) + GlobalTypes(p.globals)
        invariant |functions| == f && forall i | 0 <= i < f :: functions[i] == Func(p.funs[i].isExtern, map[])
      {
        functions := functions + [Func(p.funs[f].isExtern, map[])];
      }
      for f := 0 to |p.funs|
        invariant globals == old(globals) + GlobalTypes(p.globals)
        invariant |functions| == |p.funs| && forall i | 0 <= i < f :: functions[i] == GenFunction(p.funs[i])
        invariant forall i | f <= i < |p.funs| :: functions[i] == Func(p.funs[i].isExtern, map[])
      {
        if !p.funs[f].isExtern {
          FunctionBody(p.funs[f]);
          functions := functions[f := Func(false, builder.state.blocks)];
        }
      }
      assert functions == GenModule(p).funs;
    }
  }
}
