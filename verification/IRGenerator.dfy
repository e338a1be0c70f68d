/** The IR builder and the generator that drives it. */
module IRGenerator {
  import opened Lang
  import opened Machine
  import opened Lowering
  import opened Growth
  import opened Builder
  import opened ExprGen
  import opened IRGen
  import opened Cleanup

  /** A function of the module: its blocks, the next block number and instruction identity, and the variable
      pointers stored on its declarations so far. */
  datatype IRFunction = IRFunction(isExtern: bool, basicBlocks: Graph, nextBlock: nat, nextId: nat, lay: Layout)

  /** Creates the functions, blocks and instructions of a module. */
  class IRBuilder {
    var globalVariables: seq<Type>
    var functions: seq<IRFunction>
    var currentFunction: nat
    var currentBasicBlock: nat

    constructor ()
      ensures globalVariables == [] && functions == []
    {
      globalVariables, functions, currentFunction, currentBasicBlock := [], [], 0, ENTRY;
    }

    predicate Valid()
      reads this
    {
      currentFunction < |functions|
    }

    /** What the generator works on: the current function, with the selected block. */
    function State(): Gen
      requires Valid()
      reads this
    {
      var f := functions[currentFunction];
      Gen(f.basicBlocks, currentBasicBlock, f.nextBlock, f.nextId, f.lay)
    }

    /** The rest of the module: the functions before and behind the current one. */
    function Outside(): (seq<Type>, seq<IRFunction>, bool, seq<IRFunction>)
      requires Valid()
      reads this
    {
      (globalVariables, functions[..currentFunction], functions[currentFunction].isExtern,
        functions[currentFunction + 1..])
    }

    /** Add a function with an empty entry block to the module; the block is selected. */
    method Function()
      modifies this
      ensures functions == old(functions) + [IRFunction(false, EMPTY.blocks, EMPTY.nextBlock, EMPTY.nextId, EMPTY.lay)]
      ensures currentFunction == |old(functions)| && State() == EMPTY && globalVariables == old(globalVariables)
    {
      functions := functions + [IRFunction(false, map[], 0, 0, Layout([], map[]))];
      currentFunction := |functions| - 1;
      var _ := BasicBlock();
      assert functions == functions[..currentFunction] + [functions[currentFunction]] +
        functions[currentFunction + 1..];
    }

    /** Add an argument to the current function. */
    method FunctionArgument()
      requires Valid()
      modifies this`functions
      ensures Valid() && Outside() == old(Outside())
      ensures State() == old(State()).(lay :=
        old(State()).lay.(params := old(State()).lay.params + [ArgCell(|old(State()).lay.params|)]))
    {
      var f := functions[currentFunction];
      functions := functions[currentFunction := f.(lay := f.lay.(params := f.lay.params + [ArgCell(|f.lay.params|)]))];
    }

    method GlobalVar(t: Type)
      modifies this`globalVariables
      ensures globalVariables == old(globalVariables) + [t]
    {
      globalVariables := globalVariables + [t];
    }

    /** Select a block of a function; the current function changes to the one the block belongs to. */
    method SetInsertionBasicBlock(f: nat, b: nat)
      modifies this`currentFunction, this`currentBasicBlock
      ensures currentFunction == f && currentBasicBlock == b
      ensures old(Valid()) && f == old(currentFunction) ==>
        Valid() && Outside() == old(Outside()) && State() == Select(old(State()), b)
    {
      currentFunction, currentBasicBlock := f, b;
    }

    /** Add a block to the current function and select it. */
    method BasicBlock() returns (b: nat)
      requires Valid()
      modifies this`functions, this`currentBasicBlock
      ensures Valid() && Outside() == old(Outside())
      ensures b == old(State()).nextBlock && State() == Select(AddBlock(old(State())), b)
    {
      var f := functions[currentFunction];
      b := f.nextBlock;
      functions := functions[currentFunction := f.(basicBlocks := f.basicBlocks[b := []], nextBlock := b + 1)];
      currentBasicBlock := b;
    }

    /** Append an instruction to the selected block; its identity is its result. */
    method Instruction(ins: Instr) returns (o: Operand)
      requires Valid()
      modifies this`functions
      ensures Valid() && Outside() == old(Outside())
      ensures o == Reg(old(State()).nextId) && State() == Emit(old(State()), ins)
    {
      var f := functions[currentFunction];
      o := Reg(f.nextId);
      var code := if currentBasicBlock in f.basicBlocks then f.basicBlocks[currentBasicBlock] else [];
      var blocks := f.basicBlocks[currentBasicBlock := code + [Node(f.nextId, ins)]];
      functions := functions[currentFunction := f.(basicBlocks := blocks, nextId := f.nextId + 1)];
    }

    /** Set targets of a conditional jump that is already in a block. */
    method PatchJump(p: Pos, whenTrue: Option<nat>, whenFalse: Option<nat>)
      requires Valid()
      modifies this`functions
      ensures Valid() && Outside() == old(Outside()) && State() == Patch(old(State()), p, whenTrue, whenFalse)
    {
      var f := functions[currentFunction];
      functions := functions[currentFunction := f.(basicBlocks := Patch(State(), p, whenTrue, whenFalse).blocks)];
    }

    /** Store the variable pointer on a declaration. */
    method SetVariablePtr(d: nat, alloc: nat)
      requires Valid()
      modifies this`functions
      ensures Valid() && Outside() == old(Outside()) && State() == AddLocal(old(State()), d, alloc)
    {
      var f := functions[currentFunction];
      functions := functions[currentFunction := f.(lay := f.lay.(locals := f.lay.locals[d := Cell(alloc)]))];
    }
  }

  /** A function that has only been defined, and one whose body has been visited. */
  function Defined(fd: FunDecl): IRFunction {
    IRFunction(fd.isExtern, EMPTY.blocks, EMPTY.nextBlock, EMPTY.nextId, ArgLayout(|fd.params|))
  }

  predicate Visited(fd: FunDecl, f: IRFunction) {
    f.isExtern == fd.isExtern && f.basicBlocks == FunctionCode(fd).blocks
  }

  /** Walks the tree and drives the builder. */
  class IRGenerator {
    const builder: IRBuilder

    constructor ()
      ensures fresh(builder) && builder.globalVariables == [] && builder.functions == []
    {
      builder := new IRBuilder();
    }

    method VisitExpression(e: Expr) returns (o: Operand)
      requires builder.Valid()
      modifies builder
      ensures builder.Valid() && builder.Outside() == old(builder.Outside())
      ensures (builder.State(), o) == ExprCode(IR, old(builder.State()), e)
      decreases e
    {
      match e
      case Lit(v) =>
        o := builder.Instruction(Literal(v));
      case Var(x, _) =>
        var a := AddrOf(builder.State().lay, x);
        if a.Some? {
          o := builder.Instruction(Load(a.value));
        } else {
          o := NoOperand;
        }
      case Not(i) =>
        var toNegate := VisitExpression(i);
        o := builder.Instruction(Negate(toNegate));
      case Bin(op, lhs, rhs, t) =>
        var lVal := VisitExpression(lhs);
        var rVal := VisitExpression(rhs);
        var iop := InstructionOp(ResultType(lhs), t, op);
        if iop.Some? {
          o := builder.Instruction(Compute(iop.value, lVal, rVal));
        } else {
          o := NoOperand;
        }
      case Call(f, args, _) =>
        var os := VisitArguments(args);
        o := builder.Instruction(CallFn(f, os));
    }

    method VisitArguments(es: seq<Expr>) returns (os: seq<Operand>)
      requires builder.Valid()
      modifies builder
      ensures builder.Valid() && builder.Outside() == old(builder.Outside())
      ensures (builder.State(), os) == ArgsCode(IR, old(builder.State()), es)
      decreases es
    {
      os := [];
      assert es[0..] == es;
      for n := 0 to |es|
        invariant builder.Valid() && builder.Outside() == old(builder.Outside())
        invariant ArgsCode(IR, old(builder.State()), es).0 == ArgsCode(IR, builder.State(), es[n..]).0
        invariant ArgsCode(IR, old(builder.State()), es).1 == os + ArgsCode(IR, builder.State(), es[n..]).1
      {
        assert es[n..][0] == es[n] && es[n..][1..] == es[n + 1..];
        var o := VisitExpression(es[n]);
        assert forall rest :: os + ([o] + rest) == (os + [o]) + rest;
        os := os + [o];
      }
      assert os + [] == os;
    }

    method VisitStatement(s: Stmt)
      requires builder.Valid()
      modifies builder
      ensures builder.Valid() && builder.Outside() == old(builder.Outside())
      ensures builder.State() == StmtCode(old(builder.State()), s)
      decreases s, 1
    {
      match s
      case Let(d, t, e) =>
        var id := builder.State().nextId;
        var _ := builder.Instruction(Alloc(t));
        var initVal := VisitExpression(e);
        var _ := builder.Instruction(Store(Cell(id), initVal));
        builder.SetVariablePtr(d, id);
      case Assign(x, e) =>
        var variablePtr := AddrOf(builder.State().lay, x);
        ExprCodeKeepsLayout(IR, builder.State(), e);
        var value := VisitExpression(e);
        if variablePtr.Some? {
          var _ := builder.Instruction(Store(variablePtr.value, value));
        }
      case Return(r) =>
        if r.None? {
          var _ := builder.Instruction(Ret(None));
        } else {
          var returnValue := VisitExpression(r.value);
          var _ := builder.Instruction(Ret(Some(returnValue)));
        }
      case If(_, _, _) => VisitIfStatement(s);
      case While(_, _) => VisitWhileStatement(s);
      case Block(ss) => VisitCompoundStatement(ss);
      case Eval(e) => var _ := VisitExpression(e);
    }

    method VisitCompoundStatement(ss: seq<Stmt>)
      requires builder.Valid()
      modifies builder
      ensures builder.Valid() && builder.Outside() == old(builder.Outside())
      ensures builder.State() == StmtsCode(old(builder.State()), ss)
      decreases ss, 0
    {
      assert ss[0..] == ss;
      for n := 0 to |ss|
        invariant builder.Valid() && builder.Outside() == old(builder.Outside())
        invariant StmtsCode(old(builder.State()), ss) == StmtsCode(builder.State(), ss[n..])
      {
        assert ss[n..][0] == ss[n] && ss[n..][1..] == ss[n + 1..];
        VisitStatement(ss[n]);
      }
    }

    method VisitIfStatement(s: Stmt)
      requires s.If?
      requires builder.Valid()
      modifies builder
      ensures builder.Valid() && builder.Outside() == old(builder.Outside())
      ensures builder.State() == StmtCode(old(builder.State()), s)
      decreases s, 0
    {
      var _ := builder.Instruction(Comment);
      var condition := VisitExpression(s.cond);
      var condJump := Here(builder.State());
      var _ := builder.Instruction(CondJump(condition, None, None)); // the targets are set later
      var bbThen := builder.BasicBlock();
      builder.PatchJump(condJump, Some(bbThen), None);
      VisitCompoundStatement(s.thn);
      var bbEndOfThen := builder.currentBasicBlock;
      if s.els.Else? {
        var bbElse := builder.BasicBlock();
        builder.PatchJump(condJump, None, Some(bbElse));
        VisitCompoundStatement(s.els.stmts);
        var bbEndOfElse := builder.currentBasicBlock;
        var bbMerge := builder.BasicBlock();
        builder.SetInsertionBasicBlock(builder.currentFunction, bbEndOfElse);
        var _ := builder.Instruction(Jump(bbMerge));
        builder.SetInsertionBasicBlock(builder.currentFunction, bbEndOfThen);
        var _ := builder.Instruction(Jump(bbMerge));
        builder.SetInsertionBasicBlock(builder.currentFunction, bbMerge);
      } else {
        var bbMerge := builder.BasicBlock();
        builder.PatchJump(condJump, None, Some(bbMerge));
        builder.SetInsertionBasicBlock(builder.currentFunction, bbEndOfThen);
        var _ := builder.Instruction(Jump(bbMerge));
        builder.SetInsertionBasicBlock(builder.currentFunction, bbMerge);
      }
    }

    method VisitWhileStatement(s: Stmt)
      requires s.While?
      requires builder.Valid()
      modifies builder
      ensures builder.Valid() && builder.Outside() == old(builder.Outside())
      ensures builder.State() == StmtCode(old(builder.State()), s)
      decreases s, 0
    {
      var bbBeforeWhile := builder.currentBasicBlock;
      var bbCond := builder.BasicBlock();
      var _ := builder.Instruction(Comment);
      var cond := VisitExpression(s.guard);
      var bbBody := builder.BasicBlock();
      VisitCompoundStatement(s.body);
      var _ := builder.Instruction(Jump(bbCond));
      var bbAfterWhile := builder.BasicBlock();
      builder.SetInsertionBasicBlock(builder.currentFunction, bbBeforeWhile);
      var _ := builder.Instruction(Jump(bbCond));
      builder.SetInsertionBasicBlock(builder.currentFunction, bbCond);
      var _ := builder.Instruction(CondJump(cond, Some(bbBody), Some(bbAfterWhile)));
      builder.SetInsertionBasicBlock(builder.currentFunction, bbAfterWhile);
    }

    /** Define a function: its arguments, but not its body. */
    method GenFunctionDefinition(fd: FunDecl)
      modifies builder
      ensures builder.functions == old(builder.functions) + [Defined(fd)]
      ensures builder.globalVariables == old(builder.globalVariables)
    {
      builder.Function();
      var f := builder.currentFunction;
      builder.functions := builder.functions[f := builder.functions[f].(isExtern := fd.isExtern)];
      ghost var outside := builder.Outside();
      for i := 0 to |fd.params|
        invariant builder.Valid() && builder.Outside() == outside && builder.State() == EMPTY.(lay := ArgLayout(i))
      {
        builder.FunctionArgument();
        assert ArgLayout(i).params + [ArgCell(i)] == ArgLayout(i + 1).params;
      }
      assert builder.functions == builder.functions[..f] + [builder.functions[f]] + builder.functions[f + 1..];
    }

    /** Visit the body of function `f`, which has been defined before. */
    method VisitFunctionDecl(fd: FunDecl, f: nat)
      requires f < |builder.functions| && builder.functions[f] == Defined(fd)
      modifies builder
      ensures |builder.functions| == |old(builder.functions)| && Visited(fd, builder.functions[f])
      ensures forall i | 0 <= i < |builder.functions| && i != f :: builder.functions[i] == old(builder.functions[i])
      ensures builder.globalVariables == old(builder.globalVariables)
    {
      builder.SetInsertionBasicBlock(f, ENTRY);
      ghost var outside := builder.Outside();
      assert builder.State() == FunctionStart(fd);
      if !fd.isExtern {
        VisitCompoundStatement(fd.body);
      }
      assert builder.currentFunction == f by { assert |outside.1| == f; }
      forall i | 0 <= i < |builder.functions| && i != f
        ensures builder.functions[i] == old(builder.functions[i])
      {
        if i < f {
          assert builder.functions[i] == outside.1[i];
        } else {
          assert builder.functions[i] == outside.3[i - f - 1];
        }
      }
    }

    /** All globals and functions are defined before any body is visited. */
    method VisitRootDecl(p: Program)
      requires builder.functions == []
      modifies builder
      ensures builder.globalVariables == old(builder.globalVariables) + GlobalTypes(p.globals)
      ensures |builder.functions| == |p.funs| &&
        forall f | 0 <= f < |p.funs| :: Visited(p.funs[f], builder.functions[f])
    {
      GenGlobalDefinitions(p.globals);
      for f := 0 to |p.funs|
        invariant builder.globalVariables == old(builder.globalVariables) + GlobalTypes(p.globals)
        invariant |builder.functions| == f && forall i | 0 <= i < f :: builder.functions[i] == Defined(p.funs[i])
      {
        GenFunctionDefinition(p.funs[f]);
      }
      for f := 0 to |p.funs|
        invariant builder.globalVariables == old(builder.globalVariables) + GlobalTypes(p.globals)
        invariant |builder.functions| == |p.funs| && forall i | 0 <= i < f :: Visited(p.funs[i], builder.functions[i])
        invariant forall i | f <= i < |p.funs| :: builder.functions[i] == Defined(p.funs[i])
      {
        VisitFunctionDecl(p.funs[f], f);
      }
    }

    method GenGlobalDefinitions(globals: seq<Value>)
      modifies builder`globalVariables
      ensures builder.globalVariables == old(builder.globalVariables) + GlobalTypes(globals)
    {
      assert globals[0..] == globals;
      for i := 0 to |globals|
        invariant builder.globalVariables + GlobalTypes(globals[i..]) ==
          old(builder.globalVariables) + GlobalTypes(globals)
      {
        assert globals[i..][0] == globals[i] && globals[i..][1..] == globals[i + 1..];
        if IsNumerical(TypeOf(globals[i])) {
          builder.GlobalVar(TypeOf(globals[i]));
        }
      }
    }

    /** Generate the whole module and clean it up. */
    method Generate(p: Program) returns (m: Module)
      requires builder.functions == []
      modifies builder
      ensures m == CleanModule(ModuleCode(p)) &&
        builder.globalVariables == old(builder.globalVariables) + GlobalTypes(p.globals)
    {
      VisitRootDecl(p);
      var funs: seq<Func> := [];
      for f := 0 to |p.funs|
        invariant funs == ModuleCode(p).funs[..f]
      {
        assert Visited(p.funs[f], builder.functions[f]);
        funs := funs + [Func(builder.functions[f].isExtern, builder.functions[f].basicBlocks)];
      }
      m := CleanUp(Module(funs));
    }
  }
}
