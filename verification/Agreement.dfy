/** What the two lowerings compute, and when they compute the same. */
module Agreement {
  import opened Lang
  import opened Source
  import opened Machine
  import opened Lowering
  import opened Typing
  import opened Preservation
  import Simulation
  import IRGen
  import CodeGen
  import CodeGenSound
  import BlockShape
  import opened Cleanup
  import opened Reachability
  import opened ValidModule

  /** The module the IR path ends with. */
  function IRModule(p: Program): Module { CleanModule(IRGen.ModuleCode(p)) }

  /** The module the LLVM path ends with. */
  function LlvmModule(p: Program): Module { CodeGen.GenModule(p) }

  /** A call the front end lets through: a defined function, with arguments and globals of their types. */
  ghost predicate Runnable(p: Program, h: Host, f: nat, args: seq<Value>, w: World) {
    Sound(p, h) && Callable(p, f, args) && TypedValues(args, p.funs[f].params) && TypedWorld(p, w)
  }

  /** Type soundness of runs: a value of the declared type, a division fault, out of fuel or the end of a body that
      need not return. */
  lemma RunSound(p: Program, h: Host, f: nat, args: seq<Value>, w: World, fuel: nat)
    requires Runnable(p, h, f, args, w)
    ensures GoodValue(p, RunSource(p, h, f, args, w, fuel), p.funs[f].returnType)
  {
    InvokeSound(p, h, f, args, w, fuel + 1);
  }

  lemma RunnableIsSafe(p: Program, h: Host, f: nat, args: seq<Value>, w: World)
    requires Runnable(p, h, f, args, w)
    ensures Safe(p, h, f, args, w)
  {
    forall fuel: nat
      ensures RunSource(p, h, f, args, w, fuel) != Stuck
    {
      RunSound(p, h, f, args, w, fuel);
    }
  }

  lemma CleanEnds(m: Module, h: Host, f: nat, args: seq<Value>, w: World, r: Config)
    ensures MachineEnds(CleanModule(m), h, f, args, w, r) <==> MachineEnds(m, h, f, args, w, r)
  {
    forall n: nat
      ensures Run(CleanModule(m), h, Start(f, args, w), n) == Run(m, h, Start(f, args, w), n)
    {
      CleanKeepsRuns(m, h, f, args, w, n);
    }
  }

  /** The IR path preserves meaning: same results, globals, extern calls and faults, and divergence exactly
      where the source diverges. A run goes wrong exactly where the source lets a function end without a return. */
  lemma IRPreserves(p: Program, h: Host, f: nat, args: seq<Value>, w: World, r: Config)
    requires Lowerable(p) && Runnable(p, h, f, args, w)
    ensures MachineEnds(IRModule(p), h, f, args, w, r) <==> SourceEnds(p, h, f, args, w, r)
    ensures MachineEnds(IRModule(p), h, f, args, w, Wrong) <==> FallsOff(p, h, f, args, w)
    ensures BodiesReturn(p) ==> !FallsOff(p, h, f, args, w)
  {
    hide Lowers, MachineEnds, SourceEnds, Safe, Runnable, FallsOff, BodiesReturn;
    var m := IRGen.ModuleCode(p);
    var x := Simulation.Context(p, m, h);
    IRGen.ModuleCodeLowers(p);
    RunnableIsSafe(p, h, f, args, w);
    ItIsCallable(p, h, f, args, w);
    LoweringPreserves(x, f, args, w, r);
    CleanEnds(m, h, f, args, w, r);
    WrongExactly(x, f, args, w);
    CleanEnds(m, h, f, args, w, Wrong);
    if BodiesReturn(p) {
      NothingFallsOff(p, h, f, args, w);
    }
  }

  /** Every block of the IR module that control can reach from a function's entry block has exactly one
      terminator, its last instruction, if and only if the body returns on every path. */
  lemma IRBlocksClose(p: Program, f: nat)
    requires Lowerable(p) && f < |p.funs| && !p.funs[f].isExtern
    ensures ReachableClosed(IRModule(p).funs[f].blocks) <==> AnyReturns(p.funs[f].body)
  {
    hide FunctionAt, ReachableClosed;
    var m := IRGen.ModuleCode(p);
    IRGen.ModuleCodeLowers(p);
    assert FunctionAt(p.funs[f], m.funs[f]);
    ReachableExactly(p.funs[f], m.funs[f]);
  }

  /** Every block of a function of the LLVM module has exactly one terminator, its last instruction. */
  predicate AllClosed(g: Graph) {
    forall b | b in g :: CodeGen.ClosedBlock(g[b])
  }

  /** All blocks of the LLVM module are like that if and only if the body returns on every path. */
  lemma LlvmBlocksClose(p: Program, f: nat)
    requires Lowerable(p) && f < |p.funs| && !p.funs[f].isExtern
    ensures AllClosed(LlvmModule(p).funs[f].blocks) <==> AnyReturns(p.funs[f].body)
  {
    BlockShape.EveryBlockCloses(p.funs[f]);
  }

  lemma ItIsCallable(p: Program, h: Host, f: nat, args: seq<Value>, w: World)
    requires Runnable(p, h, f, args, w)
    ensures Callable(p, f, args)
  {
  }

  lemma NothingFallsOff(p: Program, h: Host, f: nat, args: seq<Value>, w: World)
    requires Runnable(p, h, f, args, w) && BodiesReturn(p)
    ensures !FallsOff(p, h, f, args, w)
  {
    forall fuel: nat
      ensures RunSource(p, h, f, args, w, fuel) != FellOff
    {
      RunSound(p, h, f, args, w, fuel);
    }
  }

  /** A module that LLVM takes preserves the meaning of the program it implements, `p` without the evaluation of
      void expressions that are returned. */
  lemma LlvmPreserves(p: Program, h: Host, f: nat, args: seq<Value>, w: World, r: Config)
    requires Lowerable(p) && Runnable(p, h, f, args, w) && ValidLlvm(p)
    ensures MachineEnds(LlvmModule(p), h, f, args, w, r) <==> SourceEnds(CodeGen.Implemented(p), h, f, args, w, r)
    ensures !MachineEnds(LlvmModule(p), h, f, args, w, Wrong)
  {
    hide Lowers, MachineEnds, SourceEnds, Safe, Runnable, FallsOff, BodiesReturn, ValidLlvm, NoVoidVariables;
    var q := CodeGen.Implemented(p);
    var x := Simulation.Context(q, LlvmModule(p), h);
    CodeGenSound.GenModuleLowers(p);
    ImplementedRunnable(p, h, f, args, w);
    RunnableIsSafe(q, h, f, args, w);
    ItIsCallable(q, h, f, args, w);
    LoweringPreserves(x, f, args, w, r);
    WrongExactly(x, f, args, w);
    ValidExactly(p);
    ImplementedReturns(p);
    NothingFallsOff(q, h, f, args, w);
  }

  lemma ImplementedReturns(p: Program)
    ensures BodiesReturn(CodeGen.Implemented(p)) <==> BodiesReturn(p)
  {
    forall i | 0 <= i < |p.funs|
      ensures AnyReturns(CodeGen.Implemented(p).funs[i].body) == AnyReturns(p.funs[i].body)
    {
      CodeGen.AllVoidReturnsShape(p.funs[i].body);
    }
  }

  /** The LLVM code of a program runs as the IR code of that program without its void returns. */
  lemma LoweringsAgreeUpToVoidReturns(p: Program, h: Host, f: nat, args: seq<Value>, w: World, r: Config)
    requires Lowerable(p) && Runnable(p, h, f, args, w) && ValidLlvm(p)
    ensures MachineEnds(LlvmModule(p), h, f, args, w, r) <==>
      MachineEnds(IRModule(CodeGen.Implemented(p)), h, f, args, w, r)
  {
    hide ValidLlvm, MachineEnds, SourceEnds, Runnable, Lowerable;
    LlvmPreserves(p, h, f, args, w, r);
    ImplementedLowerable(p);
    ImplementedRunnable(p, h, f, args, w);
    IRPreserves(CodeGen.Implemented(p), h, f, args, w, r);
  }

  /** No void expression is returned. */
  predicate NoVoidReturns(ss: seq<Stmt>)
    decreases ss
  {
    ss != [] ==> NoVoidReturn(ss[0]) && NoVoidReturns(ss[1..])
  }

  predicate NoVoidReturn(s: Stmt)
    decreases s
  {
    match s
    case Return(r) => r.Some? ==> ResultType(r.value) != Void
    case If(_, thn, els) => NoVoidReturns(thn) && (els.Else? ==> NoVoidReturns(els.stmts))
    case While(_, body) => NoVoidReturns(body)
    case Block(ss) => NoVoidReturns(ss)
    case _ => true
  }

  predicate ReturnsNoVoid(p: Program) {
    forall i | 0 <= i < |p.funs| :: NoVoidReturns(p.funs[i].body)
  }

  lemma {:induction false} NothingErased(s: Stmt)
    ensures CodeGen.WithoutVoidReturns(s) == s <==> NoVoidReturn(s)
    decreases s
  {
    match s
    case If(_, thn, els) =>
      NothingErasedAll(thn);
      if els.Else? { NothingErasedAll(els.stmts); }
    case While(_, body) => NothingErasedAll(body);
    case Block(ss) => NothingErasedAll(ss);
    case _ =>
  }

  lemma {:induction false} NothingErasedAll(ss: seq<Stmt>)
    ensures CodeGen.AllWithoutVoidReturns(ss) == ss <==> NoVoidReturns(ss)
    decreases ss
  {
    if ss != [] {
      NothingErased(ss[0]);
      NothingErasedAll(ss[1..]);
      var r := CodeGen.AllWithoutVoidReturns(ss);
      assert r[0] == CodeGen.WithoutVoidReturns(ss[0]) && r[1..] == CodeGen.AllWithoutVoidReturns(ss[1..]);
      assert ss == [ss[0]] + ss[1..];
    }
  }

  /** Leaving out the void returns changes nothing exactly when there are none. */
  lemma ImplementsExactly(p: Program)
    ensures CodeGen.Implemented(p) == p <==> ReturnsNoVoid(p)
  {
    var q := CodeGen.Implemented(p);
    forall i | 0 <= i < |p.funs|
      ensures q.funs[i] == p.funs[i] <==> NoVoidReturns(p.funs[i].body)
    {
      NothingErasedAll(p.funs[i].body);
    }
    if ReturnsNoVoid(p) {
      assert q.funs == p.funs;
    }
  }

  /** The two lowerings agree on every run when LLVM takes the module and no void expression is returned. */
  lemma LoweringsAgree(p: Program, h: Host, f: nat, args: seq<Value>, w: World, r: Config)
    requires Lowerable(p) && Runnable(p, h, f, args, w) && ValidLlvm(p) && ReturnsNoVoid(p)
    ensures MachineEnds(IRModule(p), h, f, args, w, r) <==> MachineEnds(LlvmModule(p), h, f, args, w, r)
  {
    ImplementsExactly(p);
    LoweringsAgreeUpToVoidReturns(p, h, f, args, w, r);
  }

  // What leaving out the void returns keeps.

  lemma {:induction false} ErasedTyped(p: Program, q: Program, ctx: Typing.Context, ret: Type, s: Stmt)
    requires TypedStmt(p, ctx, ret, s) && SameSignatures(p, q)
    ensures TypedStmt(q, ctx, ret, CodeGen.WithoutVoidReturns(s)) &&
      After(ctx, CodeGen.WithoutVoidReturns(s)) == After(ctx, s)
    decreases s
  {
    match s
    case Let(_, _, e) => SignaturesSuffice(p, q, ctx, e);
    case Assign(_, e) => SignaturesSuffice(p, q, ctx, e);
    case Return(r) => if r.Some? { SignaturesSuffice(p, q, ctx, r.value); }
    case If(c, thn, els) =>
      SignaturesSuffice(p, q, ctx, c);
      AllErasedTyped(p, q, ctx, ret, thn);
      if els.Else? { AllErasedTyped(p, q, ctx, ret, els.stmts); }
    case While(c, body) =>
      SignaturesSuffice(p, q, ctx, c);
      AllErasedTyped(p, q, ctx, ret, body);
    case Block(ss) => AllErasedTyped(p, q, ctx, ret, ss);
    case Eval(e) => SignaturesSuffice(p, q, ctx, e);
  }

  lemma {:induction false} AllErasedTyped(p: Program, q: Program, ctx: Typing.Context, ret: Type, ss: seq<Stmt>)
    requires TypedAll(p, ctx, ret, ss) && SameSignatures(p, q)
    ensures TypedAll(q, ctx, ret, CodeGen.AllWithoutVoidReturns(ss))
    decreases ss
  {
    if ss != [] {
      ErasedTyped(p, q, ctx, ret, ss[0]);
      AllErasedTyped(p, q, After(ctx, ss[0]), ret, ss[1..]);
      assert CodeGen.AllWithoutVoidReturns(ss)[1..] == CodeGen.AllWithoutVoidReturns(ss[1..]);
    }
  }

  predicate SameSignatures(p: Program, q: Program) {
    q.globals == p.globals && |q.funs| == |p.funs| &&
    forall i {:trigger p.funs[i]} {:trigger q.funs[i]} | 0 <= i < |p.funs| ::
      q.funs[i].params == p.funs[i].params && q.funs[i].returnType == p.funs[i].returnType &&
        q.funs[i].isExtern == p.funs[i].isExtern
  }

  lemma {:induction false} SignaturesSuffice(p: Program, q: Program, ctx: Typing.Context, e: Expr)
    requires TypedExpr(p, ctx, e) && SameSignatures(p, q)
    ensures TypedExpr(q, ctx, e)
    decreases e
  {
    match e
    case Not(i) => SignaturesSuffice(p, q, ctx, i);
    case Bin(_, l, r, _) =>
      SignaturesSuffice(p, q, ctx, l);
      SignaturesSuffice(p, q, ctx, r);
    case Call(f, args, _) =>
      forall i | 0 <= i < |args|
        ensures TypedExpr(q, ctx, args[i]) && ResultType(args[i]) == q.funs[f].params[i]
      {
        SignaturesSuffice(p, q, ctx, args[i]);
      }
    case _ =>
  }

  lemma ImplementedRunnable(p: Program, h: Host, f: nat, args: seq<Value>, w: World)
    requires Runnable(p, h, f, args, w)
    ensures Runnable(CodeGen.Implemented(p), h, f, args, w)
  {
    var q := CodeGen.Implemented(p);
    forall i | 0 <= i < |q.funs|
      ensures TypedFunction(q, q.funs[i])
    {
      assert TypedFunction(p, p.funs[i]);
      if !p.funs[i].isExtern {
        AllErasedTyped(p, q, FunctionContext(p, p.funs[i]), p.funs[i].returnType, p.funs[i].body);
      }
    }
  }

  lemma {:induction false} ErasedLowerable(s: Stmt, np: nat, vis: set<nat>, n: nat)
    requires SupportedStmt(s) && Declared(s, np, vis, n)
    ensures var t := CodeGen.WithoutVoidReturns(s);
      SupportedStmt(t) && Declared(t, np, vis, n) && Lets(t) == Lets(s) && Declares(t) == Declares(s)
    decreases s
  {
    match s
    case If(_, thn, els) =>
      AllErasedLowerable(thn, np, vis, n);
      if els.Else? { AllErasedLowerable(els.stmts, np, vis, n + LetsIn(thn)); }
    case While(_, body) => AllErasedLowerable(body, np, vis, n);
    case Block(ss) => AllErasedLowerable(ss, np, vis, n);
    case _ =>
  }

  lemma {:induction false} AllErasedLowerable(ss: seq<Stmt>, np: nat, vis: set<nat>, n: nat)
    requires AllSupported(ss) && AllDeclared(ss, np, vis, n)
    ensures var ts := CodeGen.AllWithoutVoidReturns(ss);
      AllSupported(ts) && AllDeclared(ts, np, vis, n) && LetsIn(ts) == LetsIn(ss)
    decreases ss
  {
    if ss != [] {
      ErasedLowerable(ss[0], np, vis, n);
      AllErasedLowerable(ss[1..], np, vis + Declares(ss[0]), n + Lets(ss[0]));
      assert CodeGen.AllWithoutVoidReturns(ss)[1..] == CodeGen.AllWithoutVoidReturns(ss[1..]);
    }
  }

  lemma ImplementedLowerable(p: Program)
    requires Lowerable(p)
    ensures Lowerable(CodeGen.Implemented(p))
  {
    forall f | 0 <= f < |p.funs| && !p.funs[f].isExtern
      ensures
        var fd := CodeGen.Implemented(p).funs[f];
        AllSupported(fd.body) && AllDeclared(fd.body, |fd.params|, {}, 0)
    {
      AllErasedLowerable(p.funs[f].body, |p.funs[f].params|, {}, 0);
    }
  }
}
