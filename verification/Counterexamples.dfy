/** Accepted programs on which the compiler does not do what one would expect. */
module Counterexamples {
  import opened Lang
  import opened Source
  import opened Machine
  import opened Syntax
  import opened Typing
  import opened Preservation
  import opened Agreement
  import opened ValidModule
  import opened Scopes
  import opened Checking
  import opened CheckSound
  import opened Elaboration
  import opened ReturnFlags
  import opened DecoratorSound
  import opened ProgramSound
  import opened Compiler
  import CodeGen

  // Decorating a program that has only functions, the last of which is the main function.

  /** Function `k` is found by its name. */
  predicate FunctionsFound(root: Root, names: Names) {
    forall k: nat | k < |root.functions| ::
      root.functions[k].name in names && names[root.functions[k].name] == FunEntry(k)
  }

  /** Without an error function `k` becomes `code`. */
  predicate Becomes(root: Root, names: Names, k: nat, code: FunDecl)
    requires k < |root.functions|
  {
    DoFunction(Signatures(root), names, map[], root.functions[k], Signatures(root)[k], 0) ==
      (0, k == |root.functions| - 1, Some(code))
  }

  lemma {:induction false} NamesFound(root: Root, st: State, k: nat)
    requires root.variables == [] && DistinctFunctions(root) && k <= |root.functions| && st.here == st.names.Keys
    requires forall i: nat | i < k ::
      root.functions[i].name in st.names && st.names[root.functions[i].name] == FunEntry(i)
    requires forall i: nat | k <= i < |root.functions| :: root.functions[i].name !in st.names
    ensures var st1 := AddNames(st, GlobalEntries(root)[k..]);
      st1.errors == st.errors && FunctionsFound(root, st1.names)
    decreases |root.functions| - k
  {
    var entries := GlobalEntries(root)[k..];
    if k < |root.functions| {
      assert entries[0] == (root.functions[k].name, FunEntry(k)) && entries[1..] == GlobalEntries(root)[k + 1..];
      var st1 := AddHere(st, entries[0].0, entries[0].1);
      assert st1.names == st.names[root.functions[k].name := FunEntry(k)] && st1.errors == st.errors;
      assert forall i: nat | k < i < |root.functions| :: root.functions[i].name != root.functions[k].name;
      assert AddNames(st, entries) == AddNames(st1, entries[1..]);
      NamesFound(root, st1, k + 1);
    } else {
      assert entries == [];
      assert AddNames(st, entries) == st;
      assert FunctionsFound(root, st.names);
    }
  }

  lemma {:induction false} FunctionsBecome(root: Root, names: Names, codes: seq<FunDecl>, k: nat)
    requires |codes| == |root.functions| && k < |codes| &&
      forall i: nat | i < |codes| :: Becomes(root, names, i, codes[i])
    ensures DoFunctions(root, Signatures(root), names, map[], k, None, 0) == (0, Some(|codes| - 1), Some(codes[k..]))
    decreases |codes| - k
  {
    hide DoFunction, SignatureOf;
    var rest := codes[k + 1..];
    var main := if k + 1 < |codes| then None else Some(k);
    if k + 1 < |codes| {
      FunctionsBecome(root, names, codes, k + 1);
    }
    assert DoFunctions(root, Signatures(root), names, map[], k + 1, main, 0) == (0, Some(|codes| - 1), Some(rest));
    assert Becomes(root, names, k, codes[k]);
    assert [codes[k]] + rest == codes[k..];
  }

  /** The decorated program. */
  lemma Links(root: Root, codes: seq<FunDecl>)
    requires root.variables == [] && DistinctFunctions(root) && UnknownTypes(root.functions) == 0 &&
      |codes| == |root.functions| > 0
    requires forall names, i: nat | FunctionsFound(root, names) && i < |codes| :: Becomes(root, names, i, codes[i])
    ensures LinkNames(root) == Decorated(Some(Program([], codes)), Some(|codes| - 1), 0)
  {
    hide DoFunctions, AddNames, GlobalEntries, Becomes, FunctionsFound;
    var st := State(map[], {}, map[], 0, 0);
    assert GlobalEntries(root)[0..] == GlobalEntries(root);
    NamesFound(root, st, 0);
    FunctionsBecome(root, AddNames(st, GlobalEntries(root)).names, codes, 0);
    assert codes[0..] == codes;
  }

  lemma OneStatement(fs: seq<Signature>, ret: Type, st: State, s: Statement, t: Stmt, hasReturn: bool)
    requires DoStatement(fs, ret, st, s) == (st, Some(t), hasReturn)
    ensures DoAll(fs, ret, st, [s]) == (st, Some([t]), hasReturn)
  {
    hide DoStatement;
    assert [s][1..] == [] && [t] + [] == [t];
    assert DoAll(fs, ret, st, []) == (st, Some([]), false);
  }

  lemma TwoStatements(fs: seq<Signature>, ret: Type, st: State, s: Statement, t: Stmt, st1: State, s1: Statement,
          t1: Stmt, hasReturn: bool)
    requires DoStatement(fs, ret, st, s) == (st1, Some(t), false) &&
      DoStatement(fs, ret, st1, s1) == (st1, Some(t1), hasReturn)
    ensures DoAll(fs, ret, st, [s, s1]) == (st1, Some([t, t1]), hasReturn)
  {
    hide DoStatement;
    OneStatement(fs, ret, st1, s1, t1, hasReturn);
    assert [s, s1][1..] == [s1] && [t] + [t1] == [t, t1];
  }

  /** A function whose body has the return flag. */
  lemma FlaggedFunction(root: Root, names: Names, k: nat, code: FunDecl, st1: State)
    requires k < |root.functions| && root.functions[k].body.Some? &&
      KnownTypes(Signatures(root)[k].params) == Some(code.params)
    requires TypeNamed(root.functions[k].typeName) == Some(code.returnType) && !code.isExtern && st1.errors == 0
    requires DoAll(Signatures(root), code.returnType, BodyStart(names, map[], Signatures(root)[k].params, 0),
      root.functions[k].body.value) ==
      (st1, Some(code.body), true)
    requires k == |root.functions| - 1 <==> root.functions[k].name == "main"
    requires root.functions[k].name == "main" ==> code.returnType == I32 && Signatures(root)[k].params == []
    ensures Becomes(root, names, k, code)
  {
    hide DoAll, BodyStart, TypeNamed, KnownTypes;
  }

  /** A function without parameters whose body has the return flag. */
  lemma PlainFunction(root: Root, names: Names, k: nat, code: FunDecl, st1: State)
    requires k < |root.functions| && root.functions[k].params == [] && root.functions[k].body.Some?
    requires TypeNamed(root.functions[k].typeName) == Some(code.returnType) && code.params == [] && !code.isExtern &&
      st1.errors == 0
    requires DoAll(Signatures(root), code.returnType, BodyStart(names, map[], [], 0), root.functions[k].body.value) ==
      (st1, Some(code.body), true)
    requires k == |root.functions| - 1 <==> root.functions[k].name == "main"
    requires root.functions[k].name == "main" ==> code.returnType == I32
    ensures Becomes(root, names, k, code)
  {
    hide DoAll, BodyStart, TypeNamed, Becomes;
    assert Signatures(root)[k].params == [];
    FlaggedFunction(root, names, k, code, st1);
  }

  lemma NoArguments(sc: Scope, name: string)
    ensures CheckArguments(sc, CallTo(name, [], []), []) == Slots([], true, 0)
  {
  }

  /** A call without arguments of a function without parameters. */
  lemma PlainCall(sc: Scope, name: string, f: nat, t: Type)
    requires name in sc.names && sc.names[name] == FunEntry(f) && f < |sc.functions|
    requires sc.functions[f].params == [] && sc.functions[f].returnType == Some(t)
    ensures Check(sc, CallTo(name, [], [])) == Checked(Some(Call(f, [], t)), 0)
  {
    NoArguments(sc, name);
    assert Exprs([]) == [];
  }

  lemma NothingToMatch(fs: seq<Signature>, name: string)
    requires forall f | 0 <= f < |fs| && fs[f].name == name :: fs[f].params == []
    ensures UsedDefaultsMatch(fs, CallTo(name, [], []))
  {
  }

  /** The state in which the body of a function with one parameter starts. */
  lemma OneParameter(names: Names, param: Parameter, t: Type)
    requires param.ty == Some(t)
    ensures BodyStart(names, map[], [param], 0) ==
      State(names[param.name := VarEntry(Param(0))], {param.name}, map[Param(0) := t], 0, 0)
    ensures KnownTypes([param]) == Some([t])
  {
    var st := State(names, {}, map[] + ParamTypes([param]), 0, 0);
    assert st.types == map[Param(0) := t];
    assert AddParams(st, [param], 0) == AddParams(AddHere(st, param.name, VarEntry(Param(0))), [param], 1);
    assert [param][1..] == [] && [t] + [] == [t];
  }

  // Default values that do not have their parameters' types.

  /** `fun f(a: i32 = true): i32 { return a; }` and `fun main(): i32 { return f(); }` */
  const BAD_DEFAULT: Root :=
    Root([], [
      FunctionDeclaration("f", "i32", [ParamDeclaration("a", "i32", Some(BoolConst(true)))],
        Some([ReturnStatement(Some(Variable("a")))])),
      FunctionDeclaration("main", "i32", [], Some([ReturnStatement(Some(CallTo("f", [], [])))]))])

  const DEFAULT_PARAM: Parameter := Parameter("a", Some(I32), Some(BoolConst(true)))

  const BAD_DEFAULT_F: FunDecl := FunDecl([I32], I32, false, [Return(Some(Var(Param(0), I32)))])
  const BAD_DEFAULT_MAIN: FunDecl := FunDecl([], I32, false, [Return(Some(Call(0, [Lit(VBool(true))], I32)))])
  const BAD_DEFAULT_CODE: Program := Program([], [BAD_DEFAULT_F, BAD_DEFAULT_MAIN])

  lemma BadDefaultF(names: Names)
    ensures Becomes(BAD_DEFAULT, names, 0, BAD_DEFAULT_F)
  {
    var fs, sig := Signatures(BAD_DEFAULT), Signatures(BAD_DEFAULT)[0];
    var fd := BAD_DEFAULT.functions[0];
    assert sig.params == [DEFAULT_PARAM];
    OneParameter(names, DEFAULT_PARAM, I32);
    var st := BodyStart(names, map[], sig.params, 0);
    OneStatement(fs, I32, st, fd.body.value[0], BAD_DEFAULT_F.body[0], true);
    assert "f" != "main" by { assert |"f"| != |"main"|; }
  }

  /** The default value fills the gap unchecked. */
  lemma TheDefaultIsUsed(sc: Scope)
    ensures CheckArguments(sc, CallTo("f", [], []), [DEFAULT_PARAM]) == Slots([Filled(Some(Lit(VBool(true))))], true, 0)
  {
    var params := [DEFAULT_PARAM];
    var s := Provided(sc, CallTo("f", [], []), params).1;
    assert s == Slots([Unfilled], true, 0);
    var filled := Slots([Filled(Some(Lit(VBool(true))))], true, 0);
    assert Put(s, 0, Checked(Some(Lit(VBool(true))), 0)) == filled;
    assert FillDefaults(params, filled, 1) == filled;
  }

  lemma BadDefaultMain(names: Names)
    requires FunctionsFound(BAD_DEFAULT, names)
    ensures Becomes(BAD_DEFAULT, names, 1, BAD_DEFAULT_MAIN)
  {
    var fs, fd := Signatures(BAD_DEFAULT), BAD_DEFAULT.functions[1];
    var st := BodyStart(names, map[], [], 0);
    assert BAD_DEFAULT.functions[0].name in names && names["f"] == FunEntry(0);
    var call := CallTo("f", [], []);
    assert fs[0].params == [DEFAULT_PARAM];
    TheDefaultIsUsed(ScopeOf(fs, st));
    assert Exprs([Filled(Some(Lit(VBool(true))))]) == [Lit(VBool(true))];
    assert Check(ScopeOf(fs, st), call) == Checked(Some(BAD_DEFAULT_MAIN.body[0].result.value), 0);
    OneStatement(fs, I32, st, fd.body.value[0], BAD_DEFAULT_MAIN.body[0], true);
  }

  lemma BadDefaultAccepted()
    ensures Accepted(BAD_DEFAULT) && ProgramOf(BAD_DEFAULT) == BAD_DEFAULT_CODE
  {
    hide LinkNames, DoFunction;
    var fds := BAD_DEFAULT.functions;
    assert "f" != "main" by { assert |"f"| != |"main"|; }
    assert "i32" != "str" by { assert "i32"[0] != "str"[0]; }
    assert fds[1..] == [fds[1]] && fds[1..][1..] == [] && fds[0].params[1..] == [];
    assert UnknownTypes([]) == 0 && UnknownTypes([fds[1]]) == 0 && UnknownParams(fds[0].params) == 0;
    forall names, i: nat | FunctionsFound(BAD_DEFAULT, names) && i < 2
      ensures Becomes(BAD_DEFAULT, names, i, BAD_DEFAULT_CODE.funs[i])
    {
      if i == 0 { BadDefaultF(names); } else { BadDefaultMain(names); }
    }
    Links(BAD_DEFAULT, BAD_DEFAULT_CODE.funs);
    assert fds[0].body.value[1..] == [] && fds[1].body.value[1..] == [];
    assert StrFreeFunction(fds[0]) && StrFreeFunction(fds[1]);
  }

  lemma BadDefaultRuns(h: Host, w: World)
    ensures RunSource(BAD_DEFAULT_CODE, h, 1, [], w, 1) == Source.Ok(VBool(true), w)
  {
    var p := BAD_DEFAULT_CODE;
    var arg := Lit(VBool(true));
    assert [arg][1..] == [] && [VBool(true)] + [] == [VBool(true)];
    assert EvalArgs(p, h, [arg], ParamEnv([]), w, 1) == Source.Ok([VBool(true)], w);
    assert ExecAll(p, h, BAD_DEFAULT_F.body, ParamEnv([VBool(true)]), w, 0) == Source.Ok(Returned(VBool(true)), w);
    assert Invoke(p, h, 0, [VBool(true)], w, 1) == Source.Ok(VBool(true), w);
    assert ExecAll(p, h, BAD_DEFAULT_MAIN.body, ParamEnv([]), w, 1) == Source.Ok(Returned(VBool(true)), w);
  }

  lemma BadDefaultNotTyped()
    ensures !TypedProgram(BAD_DEFAULT_CODE)
  {
    var p := BAD_DEFAULT_CODE;
    var call := BAD_DEFAULT_MAIN.body[0].result.value;
    assert ResultType(call.args[0]) != p.funs[call.fn].params[0];
    assert !TypedExpr(p, FunctionContext(p, BAD_DEFAULT_MAIN), call);
    assert !TypedFunction(p, p.funs[1]);
  }

  /** The decorator accepts the program, and its `i32` main function returns a bool. */
  lemma DefaultsAreNotChecked(h: Host, w: World)
    ensures Accepted(BAD_DEFAULT) && !CallsMatch(BAD_DEFAULT)
    ensures RunSource(ProgramOf(BAD_DEFAULT), h, 1, [], w, 1) == Source.Ok(VBool(true), w)
  {
    hide LinkNames, RunSource, SupportedRoot, CallsMatch, TypedProgram;
    BadDefaultAccepted();
    BadDefaultRuns(h, w);
    BadDefaultNotTyped();
    LinkNamesSound(BAD_DEFAULT);
  }

  // An `if` without else part whose body returns.

  /** `fun f(b: bool): i32 { if b { return 1; } }`, `fun g(b: bool): void { if b { return; } }` and
      `fun main(): i32 { return f(false); }` */
  const BARE_RETURN: Root :=
    Root([], [
      FunctionDeclaration("f", "i32", [ParamDeclaration("b", "bool", None)],
        Some([IfStatement(Variable("b"), [ReturnStatement(Some(Constant(IntConst(1))))], NoElsePart)])),
      FunctionDeclaration("g", "void", [ParamDeclaration("b", "bool", None)],
        Some([IfStatement(Variable("b"), [ReturnStatement(None)], NoElsePart)])),
      FunctionDeclaration("main", "i32", [],
        Some([ReturnStatement(Some(CallTo("f", [Constant(BoolConst(false))], [])))]))])

  const BOOL_PARAM: Parameter := Parameter("b", Some(Bool), None)

  const BARE_RETURN_F: FunDecl :=
    FunDecl([Bool], I32, false, [If(Var(Param(0), Bool), [Return(Some(Lit(VI32(1))))], NoElse)])
  const BARE_RETURN_G: FunDecl := FunDecl([Bool], Void, false, [If(Var(Param(0), Bool), [Return(None)], NoElse)])
  const BARE_RETURN_MAIN: FunDecl := FunDecl([], I32, false, [Return(Some(Call(0, [Lit(VBool(false))], I32)))])
  const BARE_RETURN_CODE: Program := Program([], [BARE_RETURN_F, BARE_RETURN_G, BARE_RETURN_MAIN])

  lemma BareReturnIf(fs: seq<Signature>, ret: Type, st: State, result: Option<Expression>, t: Option<Expr>)
    requires "b" in st.names && st.names["b"] == VarEntry(Param(0)) && Param(0) in st.types &&
      st.types[Param(0)] == Bool
    requires forall st1: State :: DoStatement(fs, ret, st1, ReturnStatement(result)) == (st1, Some(Return(t)), true)
    ensures DoStatement(fs, ret, st, IfStatement(Variable("b"), [ReturnStatement(result)], NoElsePart)) ==
      (st, Some(If(Var(Param(0), Bool), [Return(t)], NoElse)), true)
  {
    OneStatement(fs, ret, st.(here := {}), ReturnStatement(result), Return(t), true);
    assert DoBlock(fs, ret, st, [ReturnStatement(result)]) == (st, Some([Return(t)]), true);
    assert CheckAs(ScopeOf(fs, st), Variable("b"), Bool) == Checked(Some(Var(Param(0), Bool)), 0);
  }

  /** Function 0 or 1: the body is an `if` on the parameter around one return. */
  lemma BareReturnBody(names: Names, k: nat, result: Option<Expression>, t: Option<Expr>, code: FunDecl)
    requires k < 2 && BARE_RETURN.functions[k].body ==
      Some([IfStatement(Variable("b"), [ReturnStatement(result)], NoElsePart)])
    requires code == FunDecl([Bool], if k == 0 then I32
      else Void, false, [If(Var(Param(0), Bool), [Return(t)], NoElse)])
    requires forall st: State ::
      DoStatement(Signatures(BARE_RETURN), code.returnType, st, ReturnStatement(result)) == (st, Some(Return(t)), true)
    ensures Becomes(BARE_RETURN, names, k, code)
  {
    hide DoStatement, Becomes;
    var fs, sig, fd := Signatures(BARE_RETURN), Signatures(BARE_RETURN)[k], BARE_RETURN.functions[k];
    assert sig.params == [BOOL_PARAM];
    OneParameter(names, BOOL_PARAM, Bool);
    var st := BodyStart(names, map[], sig.params, 0);
    BareReturnIf(fs, code.returnType, st, result, t);
    OneStatement(fs, code.returnType, st, fd.body.value[0], code.body[0], true);
    assert fd.name != "main" by { assert |fd.name| != |"main"|; }
    FlaggedFunction(BARE_RETURN, names, k, code, st);
  }

  /** The slots of a call `f(false)`. */
  const FALSE_GIVEN: Slots := Slots([Filled(Some(Lit(VBool(false))))], true, 0)

  lemma TheArgumentChecks(sc: Scope)
    ensures FillPositional(sc, [BOOL_PARAM], [Constant(BoolConst(false))], 0, Slots([Unfilled], true, 0)) == FALSE_GIVEN
  {
    var arg, params := Constant(BoolConst(false)), [BOOL_PARAM];
    assert [arg][1..] == [];
    assert Put(Slots([Unfilled], true, 0), 0, CheckArgument(sc, arg, Some(Bool))) == FALSE_GIVEN;
    assert FillPositional(sc, params, [], 1, FALSE_GIVEN) == FALSE_GIVEN;
  }

  lemma TheArgumentIsUsed(sc: Scope)
    ensures CheckArguments(sc, CallTo("f", [Constant(BoolConst(false))], []), [BOOL_PARAM]) == FALSE_GIVEN
  {
    hide FillPositional, CheckArgument;
    var params := [BOOL_PARAM];
    TheArgumentChecks(sc);
    assert seq(|params|, _ => Unfilled) == [Unfilled];
    assert FillDefaults(params, FALSE_GIVEN, 1) == FALSE_GIVEN;
    assert FillDefaults(params, FALSE_GIVEN, 0) == FALSE_GIVEN;
  }

  lemma BareReturnMain(names: Names)
    requires FunctionsFound(BARE_RETURN, names)
    ensures Becomes(BARE_RETURN, names, 2, BARE_RETURN_MAIN)
  {
    var fs, fd := Signatures(BARE_RETURN), BARE_RETURN.functions[2];
    var st := BodyStart(names, map[], [], 0);
    assert BARE_RETURN.functions[0].name in names && names["f"] == FunEntry(0);
    var call, sc := CallTo("f", [Constant(BoolConst(false))], []), ScopeOf(fs, st);
    assert fs[0].params == [BOOL_PARAM];
    TheArgumentIsUsed(sc);
    assert Exprs(FALSE_GIVEN.slots) == [Lit(VBool(false))];
    assert Check(sc, call) == Checked(Some(BARE_RETURN_MAIN.body[0].result.value), 0);
    OneStatement(fs, I32, st, fd.body.value[0], BARE_RETURN_MAIN.body[0], true);
  }

  lemma BareReturnSupported()
    ensures SupportedRoot(BARE_RETURN)
  {
    var fds := BARE_RETURN.functions;
    assert forall k | 0 <= k < 3 :: fds[k].body.value[1..] == [];
    assert fds[0].body.value[0].ifBody[1..] == [] && fds[1].body.value[0].ifBody[1..] == [];
    assert "i32" != "str" && "void" != "str" && "bool" != "str" by {
      assert "i32"[0] != "str"[0] && |"void"| != |"str"| && |"bool"| != |"str"|;
    }
    assert StrFreeFunction(fds[0]) && StrFreeFunction(fds[1]) && StrFreeFunction(fds[2]);
  }

  lemma BareReturnTypes()
    ensures DistinctFunctions(BARE_RETURN) && UnknownTypes(BARE_RETURN.functions) == 0
  {
    var fds := BARE_RETURN.functions;
    assert "f" != "main" && "g" != "main" by { assert |"f"| != |"main"| && |"g"| != |"main"|; }
    assert "f" != "g" by { assert "f"[0] != "g"[0]; }
    assert fds[1..] == [fds[1], fds[2]] && [fds[1], fds[2]][1..] == [fds[2]] && [fds[2]][1..] == [];
    assert fds[0].params[1..] == [] && fds[1].params[1..] == [];
    assert UnknownParams(fds[0].params) == 0 && UnknownParams(fds[1].params) == 0;
    assert UnknownTypes([fds[2]]) == 0;
    assert UnknownTypes([fds[1], fds[2]]) == 0;
  }

  lemma BareReturnAccepted()
    ensures Accepted(BARE_RETURN) && ProgramOf(BARE_RETURN) == BARE_RETURN_CODE
  {
    hide LinkNames, Becomes, SupportedRoot, DistinctFunctions, UnknownTypes;
    BareReturnSupported();
    BareReturnTypes();
    forall names, i: nat | FunctionsFound(BARE_RETURN, names) && i < 3
      ensures Becomes(BARE_RETURN, names, i, BARE_RETURN_CODE.funs[i])
    {
      if i == 0 {
        BareReturnBody(names, 0, Some(Constant(IntConst(1))), Some(Lit(VI32(1))), BARE_RETURN_F);
      } else if i == 1 {
        BareReturnBody(names, 1, None, None, BARE_RETURN_G);
      } else {
        BareReturnMain(names);
      }
    }
    Links(BARE_RETURN, BARE_RETURN_CODE.funs);
  }

  lemma BareReturnRests(k: nat)
    requires k < 2
    ensures !BodyFlagHolds(BARE_RETURN.functions[k]) && RestsOnBare(BARE_RETURN.functions[k].body.value[0])
  {
    var body := BARE_RETURN.functions[k].body.value;
    assert body[1..] == [] && body[0].ifBody[1..] == [];
    assert BareReturn(body[0]);
  }

  lemma BareReturnMatches()
    ensures CallsMatch(BARE_RETURN) && !BodyFlagHolds(BARE_RETURN.functions[0]) &&
      !BodyFlagHolds(BARE_RETURN.functions[1])
  {
    hide BodyFlagHolds;
    var fds := BARE_RETURN.functions;
    BareReturnRests(0);
    BareReturnRests(1);
    assert forall k | 0 <= k < 3 :: fds[k].body.value[1..] == [];
    assert fds[0].body.value[0].ifBody[1..] == [] && fds[1].body.value[0].ifBody[1..] == [];
  }

  /** Function 0 or 1, called with `false`. */
  lemma BareReturnFallsOff(h: Host, k: nat, w: World, fuel: nat)
    requires k < 2
    ensures RunSource(BARE_RETURN_CODE, h, k, [VBool(false)], w, fuel) == FellOff
  {
    var p := BARE_RETURN_CODE;
    var env := ParamEnv([VBool(false)]);
    var s := p.funs[k].body[0];
    assert Exec(p, h, s, env, w, fuel) == Source.Ok(Next(env), w);
    assert p.funs[k].body[1..] == [];
    assert ExecAll(p, h, [], env, w, fuel) == Source.Ok(Next(env), w);
    assert ExecAll(p, h, p.funs[k].body, env, w, fuel) == Source.Ok(Next(env), w);
  }

  lemma BareReturnMainFallsOff(h: Host, w: World)
    ensures RunSource(BARE_RETURN_CODE, h, 2, [], w, 1) == FellOff
  {
    var p := BARE_RETURN_CODE;
    var arg := Lit(VBool(false));
    assert [arg][1..] == [] && [VBool(false)] + [] == [VBool(false)];
    assert EvalArgs(p, h, [arg], ParamEnv([]), w, 1) == Source.Ok([VBool(false)], w);
    BareReturnFallsOff(h, 0, w, 0);
    assert Invoke(p, h, 0, [VBool(false)], w, 1) == FellOff;
    assert Exec(p, h, BARE_RETURN_MAIN.body[0], ParamEnv([]), w, 1) == FellOff;
  }

  lemma BareReturnCallable(h: Host, k: nat, args: seq<Value>, w: World)
    requires w.globals == [] && k < 3 && args == if k < 2 then [VBool(false)] else []
    ensures TypedHost(BARE_RETURN_CODE, h) && Callable(BARE_RETURN_CODE, k, args)
    ensures TypedValues(args, BARE_RETURN_CODE.funs[k].params) && TypedWorld(BARE_RETURN_CODE, w)
  {
  }

  lemma BareReturnRunnable(h: Host, k: nat, args: seq<Value>, w: World)
    requires w.globals == [] && k < 3 && args == if k < 2 then [VBool(false)] else []
    ensures Lowerable(BARE_RETURN_CODE) && Runnable(BARE_RETURN_CODE, h, k, args, w)
  {
    hide LinkNames, SupportedRoot, CallsMatch, TypedProgram, Lowerable, BodyFlagHolds, TypedHost, Callable, TypedValues;
    hide TypedWorld;
    hide FlagsHold, BodiesReturn, ReturnAsFlagged, SameHeaders, MainOk, RestsOnBare;
    BareReturnAccepted();
    BareReturnMatches();
    LinkNamesSound(BARE_RETURN);
    BareReturnCallable(h, k, args, w);
  }

  lemma BareReturnGoesWrong(h: Host, k: nat, args: seq<Value>, w: World, fuel: nat)
    requires w.globals == [] && k < 3 && args == if k < 2 then [VBool(false)] else []
    requires RunSource(BARE_RETURN_CODE, h, k, args, w, fuel) == FellOff
    ensures MachineEnds(IRModule(BARE_RETURN_CODE), h, k, args, w, Wrong)
  {
    hide RunSource, MachineEnds, IRModule, Lowerable, Runnable;
    BareReturnRunnable(h, k, args, w);
    IRPreserves(BARE_RETURN_CODE, h, k, args, w, Wrong);
  }

  lemma BareReturnStaysOpen(k: nat)
    requires k < 2
    ensures Accepted(BARE_RETURN) && ProgramOf(BARE_RETURN) == BARE_RETURN_CODE
    ensures !AllClosed(LlvmModule(BARE_RETURN_CODE).funs[k].blocks) && !ValidLlvm(BARE_RETURN_CODE)
  {
    hide LinkNames, SupportedRoot, AllClosed, ValidLlvm, BodyFlagHolds, CallsMatch, NoVoidVariables, IRModule;
    BareReturnAccepted();
    BareReturnMatches();
    AcceptedBlocksClose(BARE_RETURN, k);
    AcceptedModulesValid(BARE_RETURN);
    assert !BodyFlagHolds(BARE_RETURN.functions[0]);
  }

  /** The decorator accepts the program, though the flags of `f` and `g` do not hold; running it, or calling either
      function with `false`, the IR falls off a block, and LLVM does not take the module. */
  lemma BareReturnsFallOff(h: Host, w: World)
    requires w.globals == []
    ensures Accepted(BARE_RETURN) && CallsMatch(BARE_RETURN) && ProgramOf(BARE_RETURN) == BARE_RETURN_CODE
    ensures MachineEnds(IRModule(BARE_RETURN_CODE), h, 2, [], w, Wrong)
    ensures forall k: nat | k < 2 ::
      MachineEnds(IRModule(BARE_RETURN_CODE), h, k, [VBool(false)], w, Wrong) &&
        !AllClosed(LlvmModule(BARE_RETURN_CODE).funs[k].blocks)
    ensures !ValidLlvm(BARE_RETURN_CODE)
  {
    hide LinkNames, RunSource, MachineEnds, SupportedRoot, CallsMatch, BodyFlagHolds, ValidLlvm, AllClosed, IRModule;
    BareReturnMatches();
    BareReturnMainFallsOff(h, w);
    BareReturnGoesWrong(h, 2, [], w, 1);
    BareReturnStaysOpen(0);
    forall k: nat | k < 2
      ensures MachineEnds(IRModule(BARE_RETURN_CODE), h, k, [VBool(false)], w, Wrong)
      ensures !AllClosed(LlvmModule(BARE_RETURN_CODE).funs[k].blocks)
    {
      BareReturnFallsOff(h, k, w, 0);
      BareReturnGoesWrong(h, k, [VBool(false)], w, 0);
      BareReturnStaysOpen(k);
    }
  }

  // Returned void expressions.

  /** `extern fun f(): void`, `fun g(): void { return f(); }` and `fun main(): i32 { g(); return 0; }` */
  const VOID_RETURN: Root :=
    Root([], [
      FunctionDeclaration("f", "void", [], None),
      FunctionDeclaration("g", "void", [], Some([ReturnStatement(Some(CallTo("f", [], [])))])),
      FunctionDeclaration("main", "i32", [],
        Some([ExpressionStatement(CallTo("g", [], [])), ReturnStatement(Some(Constant(IntConst(0))))]))])

  const VOID_F: FunDecl := FunDecl([], Void, true, [])
  const VOID_RETURN_G: FunDecl := FunDecl([], Void, false, [Return(Some(Call(0, [], Void)))])
  const VOID_RETURN_MAIN: FunDecl := FunDecl([], I32, false, [Eval(Call(1, [], Void)), Return(Some(Lit(VI32(0))))])
  const VOID_RETURN_CODE: Program := Program([], [VOID_F, VOID_RETURN_G, VOID_RETURN_MAIN])

  lemma VoidReturnStatement(fs: seq<Signature>, st: State, name: string, f: nat)
    requires name in st.names && st.names[name] == FunEntry(f) && f < |fs| && fs[f].params == [] &&
      fs[f].returnType == Some(Void)
    ensures DoStatement(fs, Void, st, ReturnStatement(Some(CallTo(name, [], [])))) ==
      (st, Some(Return(Some(Call(f, [], Void)))), true)
  {
    hide Check;
    PlainCall(ScopeOf(fs, st), name, f, Void);
  }

  lemma VoidCallStatement(fs: seq<Signature>, st: State, name: string, f: nat)
    requires name in st.names && st.names[name] == FunEntry(f) && f < |fs| && fs[f].params == [] &&
      fs[f].returnType == Some(Void)
    ensures DoStatement(fs, I32, st, ExpressionStatement(CallTo(name, [], []))) ==
      (st, Some(Eval(Call(f, [], Void))), false)
  {
    hide Check;
    PlainCall(ScopeOf(fs, st), name, f, Void);
  }

  lemma VoidReturnBecomes(names: Names, k: nat)
    requires FunctionsFound(VOID_RETURN, names) && k < 3
    ensures Becomes(VOID_RETURN, names, k, VOID_RETURN_CODE.funs[k])
  {
    assert VOID_RETURN.functions[0].name in names && names["f"] == FunEntry(0);
    assert VOID_RETURN.functions[1].name in names && names["g"] == FunEntry(1);
    assert "f" != "main" && "g" != "main" by { assert |"f"| != |"main"| && |"g"| != |"main"|; }
    if k == 1 {
      VoidReturnG(names);
    } else if k == 2 {
      VoidReturnMain(names);
    }
  }

  lemma VoidReturnG(names: Names)
    requires "f" in names && names["f"] == FunEntry(0)
    ensures Becomes(VOID_RETURN, names, 1, VOID_RETURN_G)
  {
    hide DoStatement, Becomes;
    var fs, fd, st := Signatures(VOID_RETURN), VOID_RETURN.functions[1], BodyStart(names, map[], [], 0);
    assert fs[0].params == [];
    assert "g" != "main" by { assert |"g"| != |"main"|; }
    VoidReturnStatement(fs, st, "f", 0);
    OneStatement(fs, Void, st, fd.body.value[0], VOID_RETURN_G.body[0], true);
    PlainFunction(VOID_RETURN, names, 1, VOID_RETURN_G, st);
  }

  lemma ReturnZero(fs: seq<Signature>, st: State)
    ensures DoStatement(fs, I32, st, ReturnStatement(Some(Constant(IntConst(0))))) ==
      (st, Some(Return(Some(Lit(VI32(0))))), true)
  {
  }

  lemma VoidReturnMain(names: Names)
    requires "g" in names && names["g"] == FunEntry(1)
    ensures Becomes(VOID_RETURN, names, 2, VOID_RETURN_MAIN)
  {
    hide DoStatement, Becomes;
    var fs, fd, st := Signatures(VOID_RETURN), VOID_RETURN.functions[2], BodyStart(names, map[], [], 0);
    assert fs[1].params == [];
    VoidCallStatement(fs, st, "g", 1);
    ReturnZero(fs, st);
    TwoStatements(fs, I32, st, fd.body.value[0], VOID_RETURN_MAIN.body[0], st, fd.body.value[1],
      VOID_RETURN_MAIN.body[1], true);
    PlainFunction(VOID_RETURN, names, 2, VOID_RETURN_MAIN, st);
  }

  lemma VoidReturnSupported()
    ensures SupportedRoot(VOID_RETURN)
  {
    var fds := VOID_RETURN.functions;
    var body := fds[2].body.value;
    assert fds[1].body.value[1..] == [] && body[1..] == [body[1]] && [body[1]][1..] == [];
    assert "i32" != "str" && "void" != "str" by { assert "i32"[0] != "str"[0] && |"void"| != |"str"|; }
    assert StrFreeFunction(fds[0]) && StrFreeFunction(fds[1]) && StrFreeFunction(fds[2]);
  }

  lemma VoidReturnTypes()
    ensures DistinctFunctions(VOID_RETURN) && UnknownTypes(VOID_RETURN.functions) == 0
  {
    var fds := VOID_RETURN.functions;
    assert "f" != "main" && "g" != "main" by { assert |"f"| != |"main"| && |"g"| != |"main"|; }
    assert "f" != "g" by { assert "f"[0] != "g"[0]; }
    assert fds[1..] == [fds[1], fds[2]] && [fds[1], fds[2]][1..] == [fds[2]] && [fds[2]][1..] == [];
    assert UnknownTypes([fds[2]]) == 0;
    assert UnknownTypes([fds[1], fds[2]]) == 0;
  }

  lemma VoidReturnAccepted()
    ensures Accepted(VOID_RETURN) && ProgramOf(VOID_RETURN) == VOID_RETURN_CODE
  {
    hide LinkNames, Becomes, SupportedRoot, DistinctFunctions, UnknownTypes;
    VoidReturnSupported();
    VoidReturnTypes();
    forall names, i: nat | FunctionsFound(VOID_RETURN, names) && i < 3
      ensures Becomes(VOID_RETURN, names, i, VOID_RETURN_CODE.funs[i])
    {
      VoidReturnBecomes(names, i);
    }
    Links(VOID_RETURN, VOID_RETURN_CODE.funs);
  }

  lemma VoidReturnHolds()
    ensures FlagsHold(VOID_RETURN) && NoVoidVariables(VOID_RETURN_CODE)
  {
    var fds := VOID_RETURN.functions;
    var body, code := fds[2].body.value, VOID_RETURN_MAIN.body;
    assert body[1..] == [body[1]] && code[1..] == [code[1]] && [code[1]][1..] == [];
    assert VOID_RETURN_G.body[1..] == [];
  }

  lemma VoidReturnMatches()
    ensures CallsMatch(VOID_RETURN)
  {
    var fds := VOID_RETURN.functions;
    NothingToMatch(Signatures(VOID_RETURN), "f");
    NothingToMatch(Signatures(VOID_RETURN), "g");
    var body := fds[2].body.value;
    assert fds[1].body.value[1..] == [] && body[1..] == [body[1]] && [body[1]][1..] == [];
    assert BodyMatches(Signatures(VOID_RETURN), fds[1]) && BodyMatches(Signatures(VOID_RETURN), fds[2]);
  }

  /** The world after the call. */
  function Called(w: World): World { w.(trace := w.trace + [Event(0, [], VVoid)]) }

  lemma VoidReturnCalls(h: Host, w: World)
    requires h.ext(0, [], w) == VVoid
    ensures RunSource(VOID_RETURN_CODE, h, 2, [], w, 1) == Source.Ok(VI32(0), Called(w))
  {
    var p, env := VOID_RETURN_CODE, ParamEnv([]);
    assert EvalExpr(p, h, Call(0, [], Void), env, w, 0) == Source.Ok(VVoid, Called(w));
    assert Exec(p, h, VOID_RETURN_G.body[0], env, w, 0) == Source.Ok(Returned(VVoid), Called(w));
    assert Invoke(p, h, 1, [], w, 1) == Source.Ok(VVoid, Called(w));
    assert Exec(p, h, VOID_RETURN_MAIN.body[0], env, w, 1) == Source.Ok(Next(env), Called(w));
    assert ExecAll(p, h, VOID_RETURN_MAIN.body[1..], env, Called(w), 1) == Source.Ok(Returned(VI32(0)), Called(w));
  }

  /** `g` without its void return, and the unchanged main function. */
  lemma ErasedCode()
    ensures CodeGen.Implemented(VOID_RETURN_CODE).funs ==
      [VOID_F, VOID_RETURN_G.(body := [Return(None)]), VOID_RETURN_MAIN]
  {
    var q, body := CodeGen.Implemented(VOID_RETURN_CODE), VOID_RETURN_MAIN.body;
    assert CodeGen.AllWithoutVoidReturns(VOID_F.body) == [];
    assert VOID_RETURN_G.body[1..] == [] && body[1..] == [body[1]] && [body[1]][1..] == [];
    assert CodeGen.AllWithoutVoidReturns(VOID_RETURN_G.body) == [Return(None)];
    assert CodeGen.AllWithoutVoidReturns([body[1]]) == [body[1]];
    assert CodeGen.AllWithoutVoidReturns(body) == body;
    assert q.funs[2] == VOID_RETURN_MAIN;
  }

  lemma ErasedGRuns(h: Host, q: Program, w: World, fuel: nat)
    requires |q.funs| == 3 && q.funs[1] == VOID_RETURN_G.(body := [Return(None)])
    ensures Invoke(q, h, 1, [], w, fuel) == if fuel == 0 then OutOfFuel else Source.Ok(VVoid, w)
  {
    if fuel > 0 {
      assert Exec(q, h, Return(None), ParamEnv([]), w, fuel - 1) == Source.Ok(Returned(VVoid), w);
      assert ExecAll(q, h, [Return(None)], ParamEnv([]), w, fuel - 1) == Source.Ok(Returned(VVoid), w);
    }
  }

  lemma ErasedDoesNotCall(h: Host, w: World, fuel: nat)
    ensures var r := RunSource(CodeGen.Implemented(VOID_RETURN_CODE), h, 2, [], w, fuel);
      r.OutOfFuel? || r == Source.Ok(VI32(0), w)
  {
    hide Invoke, CodeGen.Implemented;
    var q, env, body := CodeGen.Implemented(VOID_RETURN_CODE), ParamEnv([]), VOID_RETURN_MAIN.body;
    ErasedCode();
    ErasedGRuns(h, q, w, fuel);
    assert EvalArgs(q, h, [], env, w, fuel) == Source.Ok([], w);
    assert Exec(q, h, body[0], env, w, fuel) == if fuel == 0 then OutOfFuel else Source.Ok(Next(env), w);
    if fuel > 0 {
      assert Exec(q, h, body[1], env, w, fuel) == Source.Ok(Returned(VI32(0)), w);
      assert body[1..][0] == body[1];
      assert ExecAll(q, h, body[1..], env, w, fuel) == Source.Ok(Returned(VI32(0)), w);
    }
    MainRuns(q, h, w, fuel);
  }

  lemma MainRuns(q: Program, h: Host, w: World, fuel: nat)
    requires |q.funs| == 3 && q.funs[2] == VOID_RETURN_MAIN
    ensures var r := ExecAll(q, h, VOID_RETURN_MAIN.body, ParamEnv([]), w, fuel);
      (r.OutOfFuel? ==> RunSource(q, h, 2, [], w, fuel).OutOfFuel?) &&
      (r.Ok? && r.value.Returned? ==> RunSource(q, h, 2, [], w, fuel) == Source.Ok(r.value.result, r.world))
  {
    hide ExecAll;
  }

  lemma ErasedNeverCalls(h: Host, w: World)
    ensures !SourceEnds(CodeGen.Implemented(VOID_RETURN_CODE), h, 2, [], w, Halted(VI32(0), Called(w)))
  {
    hide RunSource;
    assert Called(w) != w by { assert |Called(w).trace| != |w.trace|; }
    forall fuel: nat
      ensures Observed(RunSource(CodeGen.Implemented(VOID_RETURN_CODE), h, 2, [], w, fuel)) != Some(Halted(VI32(0),
        Called(w)))
    {
      ErasedDoesNotCall(h, w, fuel);
    }
  }

  /** The program is accepted and LLVM takes its module. The IR run calls `f`, the LLVM run does not. */
  lemma VoidReturnsDiffer(h: Host, w: World)
    requires TypedHost(VOID_RETURN_CODE, h) && w.globals == []
    ensures Accepted(VOID_RETURN) && ValidLlvm(ProgramOf(VOID_RETURN))
    ensures MachineEnds(IRModule(ProgramOf(VOID_RETURN)), h, 2, [], w, Halted(VI32(0), Called(w)))
    ensures !MachineEnds(LlvmModule(ProgramOf(VOID_RETURN)), h, 2, [], w, Halted(VI32(0), Called(w)))
  {
    hide LinkNames, RunSource, MachineEnds, SourceEnds, SupportedRoot, CallsMatch, TypedProgram, FlagsHold, ValidLlvm;
    hide Called, Lowerable;
    VoidReturnAccepted();
    VoidReturnMatches();
    VoidReturnHolds();
    LinkNamesSound(VOID_RETURN);
    AcceptedModulesValid(VOID_RETURN);
    var p, r := VOID_RETURN_CODE, Halted(VI32(0), Called(w));
    assert h.ext(0, [], w) == VVoid by { assert HasType(h.ext(0, [], w), p.funs[0].returnType); }
    VoidReturnCalls(h, w);
    assert SourceEnds(p, h, 2, [], w, r) by { Ends(p, h, 2, [], w, 1, r); }
    ErasedNeverCalls(h, w);
    IRPreserves(p, h, 2, [], w, r);
    LlvmPreserves(p, h, 2, [], w, r);
  }

  lemma Ends(p: Program, h: Host, f: nat, args: seq<Value>, w: World, fuel: nat, r: Config)
    requires Observed(RunSource(p, h, f, args, w, fuel)) == Some(r)
    ensures SourceEnds(p, h, f, args, w, r)
  {
  }

  // Variables of type void.

  /** `extern fun f(): void` and `fun main(): i32 { let x = f(); return 0; }` */
  const VOID_VARIABLE: Root :=
    Root([], [
      FunctionDeclaration("f", "void", [], None),
      FunctionDeclaration("main", "i32", [],
        Some([VariableDeclaration("x", "", CallTo("f", [], [])), ReturnStatement(Some(Constant(IntConst(0))))]))])

  const VOID_VARIABLE_MAIN: FunDecl :=
    FunDecl([], I32, false, [Let(0, Void, Call(0, [], Void)), Return(Some(Lit(VI32(0))))])
  const VOID_VARIABLE_CODE: Program := Program([], [VOID_F, VOID_VARIABLE_MAIN])

  lemma VoidDeclaration(fs: seq<Signature>, st: State, name: string, f: nat)
    requires name in st.names && st.names[name] == FunEntry(f) && f < |fs| && fs[f].params == [] &&
      fs[f].returnType == Some(Void)
    ensures DoStatement(fs, I32, st, VariableDeclaration("x", "", CallTo(name, [], []))) ==
      (AddLocal(st, "x", Some(Void)), Some(Let(st.next, Void, Call(f, [], Void))), false)
  {
    hide Check;
    PlainCall(ScopeOf(fs, st), name, f, Void);
  }

  lemma VoidVariableMain(names: Names)
    requires "f" in names && names["f"] == FunEntry(0)
    ensures Becomes(VOID_VARIABLE, names, 1, VOID_VARIABLE_MAIN)
  {
    hide DoStatement, Becomes;
    var fs, fd, st := Signatures(VOID_VARIABLE), VOID_VARIABLE.functions[1], BodyStart(names, map[], [], 0);
    assert fs[0].params == [];
    var st1 := AddLocal(st, "x", Some(Void));
    VoidDeclaration(fs, st, "f", 0);
    ReturnZero(fs, st1);
    TwoStatements(fs, I32, st, fd.body.value[0], VOID_VARIABLE_MAIN.body[0], st1, fd.body.value[1],
      VOID_VARIABLE_MAIN.body[1], true);
    PlainFunction(VOID_VARIABLE, names, 1, VOID_VARIABLE_MAIN, st1);
  }

  lemma VoidVariableBecomes(names: Names, k: nat)
    requires FunctionsFound(VOID_VARIABLE, names) && k < 2
    ensures Becomes(VOID_VARIABLE, names, k, VOID_VARIABLE_CODE.funs[k])
  {
    assert VOID_VARIABLE.functions[0].name in names && names["f"] == FunEntry(0);
    assert "f" != "main" by { assert |"f"| != |"main"|; }
    if k == 1 {
      VoidVariableMain(names);
    }
  }

  lemma VoidVariableTypes()
    ensures SupportedRoot(VOID_VARIABLE) && DistinctFunctions(VOID_VARIABLE) &&
      UnknownTypes(VOID_VARIABLE.functions) == 0
  {
    var fds := VOID_VARIABLE.functions;
    var body := fds[1].body.value;
    assert "f" != "main" by { assert |"f"| != |"main"|; }
    assert "i32" != "str" && "void" != "str" by { assert "i32"[0] != "str"[0] && |"void"| != |"str"|; }
    assert fds[1..] == [fds[1]] && [fds[1]][1..] == [];
    assert UnknownTypes([fds[1]]) == 0;
    assert body[1..] == [body[1]] && [body[1]][1..] == [];
    assert StrFreeFunction(fds[0]) && StrFreeFunction(fds[1]);
  }

  lemma VoidVariableMatches()
    ensures CallsMatch(VOID_VARIABLE) && FlagsHold(VOID_VARIABLE)
  {
    var fds := VOID_VARIABLE.functions;
    var body := fds[1].body.value;
    NothingToMatch(Signatures(VOID_VARIABLE), "f");
    assert body[1..] == [body[1]] && [body[1]][1..] == [];
    assert BodyMatches(Signatures(VOID_VARIABLE), fds[1]);
  }

  /** The decorator accepts the program and all its bodies return, but LLVM does not take the module. */
  lemma VoidVariablesAreAccepted()
    ensures Accepted(VOID_VARIABLE) && CallsMatch(VOID_VARIABLE) && FlagsHold(VOID_VARIABLE)
    ensures !ValidLlvm(ProgramOf(VOID_VARIABLE))
  {
    hide LinkNames, Becomes, ValidLlvm, SupportedRoot, DistinctFunctions, UnknownTypes, CallsMatch, FlagsHold;
    VoidVariableTypes();
    VoidVariableMatches();
    forall names, i: nat | FunctionsFound(VOID_VARIABLE, names) && i < 2
      ensures Becomes(VOID_VARIABLE, names, i, VOID_VARIABLE_CODE.funs[i])
    {
      VoidVariableBecomes(names, i);
    }
    Links(VOID_VARIABLE, VOID_VARIABLE_CODE.funs);
    AcceptedModulesValid(VOID_VARIABLE);
    assert !NoVoidIn(VOID_VARIABLE_MAIN);
    assert !NoVoidVariables(VOID_VARIABLE_CODE) by { assert VOID_VARIABLE_CODE.funs[1] == VOID_VARIABLE_MAIN; }
  }
}
