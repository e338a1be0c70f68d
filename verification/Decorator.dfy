/** The decorator itself: it walks the tree, keeps the scope stack and counts errors.

    Decorating builds a tree instead of writing into the one it reads; a declaration's type is an
    entry of `types` instead of a field of its node.
 */
module Decorator {
  import opened Lang
  import opened Syntax
  import opened Scopes
  import opened Checking
  import E = Elaboration

  class AstDecorator {
    const namesStack: NamesStack
    var functions: seq<Signature>
    var types: map<VarRef, Type>
    var next: nat
    var errors: nat

    constructor ()
      ensures fresh(namesStack) && namesStack.scopes == [] && functions == [] && types == map[] && next == 0 &&
        errors == 0
    {
      namesStack := new NamesStack();
      functions, types, next, errors := [], map[], 0, 0;
    }

    /** What an expression is checked against. */
    ghost function ScopeNow(): Scope
      reads this, namesStack
    {
      Scope(functions, Visible(namesStack.scopes), types)
    }

    /** The state as the functions of `Elaboration` see it. */
    ghost function Now(): E.State
      reads this, namesStack
      requires namesStack.scopes != []
    {
      E.State(Visible(namesStack.scopes), namesStack.scopes[|namesStack.scopes|-1].Keys, types, next, errors)
    }

    method Error()
      modifies this`errors
      ensures errors == old(errors) + 1
    {
      errors := errors + 1;
    }

    // Expressions; None where the decorator returns false.

    method DoExpression(e: Expression) returns (r: Option<Expr>)
      modifies this`errors
      ensures errors >= old(errors) && Checked(r, errors - old(errors)) == Check(old(ScopeNow()), e)
      decreases e, 1
    {
      match e
      case Missing =>
        Error();
        r := None;
      case Constant(c) =>
        r := Some(Lit(ValueOf(c)));
      case Variable(name) =>
        r := DoVariableExpression(name);
      case MemberVariable(parent, _) =>
        var p := DoExpression(parent);
        if p.Some? {
          Error();
        }
        r := None;
      case UnaryNot(inner) =>
        r := DoUnaryExpression(inner);
      case Binary(op, lhs, rhs) =>
        r := DoBinaryExpression(op, lhs, rhs);
      case CallTo(_, _, _) =>
        r := DoCallExpression(e);
      case MemberCall(parent, _, _, _) =>
        var p := DoExpression(parent);
        if p.Some? {
          Error();
        }
        r := None;
    }

    method DoVariableExpression(name: string) returns (r: Option<Expr>)
      modifies this`errors
      ensures errors >= old(errors) && Checked(r, errors - old(errors)) == Check(old(ScopeNow()), Variable(name))
    {
      var node := namesStack.FindName(name);
      if node.None? || node.value.FunEntry? {
        Error();
        return None;
      }
      var x := node.value.x;
      r := if x in types then Some(Var(x, types[x])) else None;
    }

    method DoUnaryExpression(inner: Expression) returns (r: Option<Expr>)
      modifies this`errors
      ensures errors >= old(errors) && Checked(r, errors - old(errors)) == Check(old(ScopeNow()), UnaryNot(inner))
      decreases inner, 2
    {
      var i := DoExpression(inner);
      if i.None? {
        return None;
      }
      if ResultType(i.value) != Bool {
        Error();
      }
      r := Some(Not(i.value));
    }

    method DoBinaryExpression(op: BinOp, lhs: Expression, rhs: Expression) returns (r: Option<Expr>)
      modifies this`errors
      ensures errors >= old(errors) && Checked(r, errors - old(errors)) == Check(old(ScopeNow()), Binary(op, lhs, rhs))
      decreases Binary(op, lhs, rhs), 0
    {
      var l := DoExpression(lhs);
      var ri := DoExpression(rhs);
      if l.None? || ri.None? {
        return None;
      }
      if ResultType(l.value) != ResultType(ri.value) {
        Error();
        return None;
      }
      var t := BinaryOperationResultType(ResultType(l.value), op);
      if t.None? {
        Error();
        return None;
      }
      r := Some(Bin(op, l.value, ri.value, t.value));
    }

    /** An argument, which has to have the type of its parameter. */
    method CheckFunctionCallArgType(param: Parameter, arg: Expression) returns (r: Option<Expr>)
      modifies this`errors
      ensures errors >= old(errors) && Checked(r, errors - old(errors)) == CheckArgument(old(ScopeNow()), arg, param.ty)
      decreases arg, 2
    {
      r := DoExpression(arg);
      if r.Some? && param.ty != Some(ResultType(r.value)) {
        Error();
        r := None;
      }
    }

    method DoCallExpression(call: Expression) returns (r: Option<Expr>)
      requires call.CallTo?
      modifies this`errors
      ensures errors >= old(errors) && Checked(r, errors - old(errors)) == Check(old(ScopeNow()), call)
      decreases call, 0
    {
      var func := namesStack.FindName(call.calledName);
      if func.None? || func.value.VarEntry? || func.value.index >= |functions| {
        Error();
        return None;
      }
      var params := functions[func.value.index].params;
      var callArgs, ok := seq(|params|, _ => Unfilled), true;
      ghost var before := errors;
      callArgs, ok := NonNamedArguments(params, call.nonNamed, callArgs);
      callArgs, ok := NamedArguments(params, call.named, callArgs, ok, before);
      callArgs, ok := DefaultArguments(params, callArgs, ok, before);
      if !ok {
        return None;
      }
      if functions[func.value.index].returnType.None? {
        return None;
      }
      r := Some(Call(func.value.index, Exprs(callArgs), functions[func.value.index].returnType.value));
    }

    method NonNamedArguments(params: seq<Parameter>, args: seq<Expression>, empty: seq<Slot>)
        returns (callArgs: seq<Slot>, ok: bool)
      requires |empty| == |params| && Sane(Slots(empty, true, 0))
      modifies this`errors
      ensures errors >= old(errors)
      ensures Slots(callArgs, ok, errors - old(errors)) ==
        FillPositional(old(ScopeNow()), params, args, 0, Slots(empty, true, 0))
      decreases args
    {
      callArgs, ok := empty, true;
      var argIndex := 0;
      assert args[0..] == args;
      while argIndex < |args|
        invariant 0 <= argIndex <= |args| && argIndex <= |params| == |callArgs| && errors >= old(errors)
        invariant Sane(Slots(callArgs, ok, errors - old(errors)))
        invariant FillPositional(old(ScopeNow()), params, args, 0, Slots(empty, true, 0)) ==
          FillPositional(old(ScopeNow()), params, args[argIndex..], argIndex, Slots(callArgs, ok, errors - old(errors)))
      {
        assert args[argIndex..][0] == args[argIndex] && args[argIndex..][1..] == args[argIndex + 1..];
        if argIndex >= |params| {
          Error();
          ok := false;
          return;
        }
        var arg := CheckFunctionCallArgType(params[argIndex], args[argIndex]);
        ok := ok && arg.Some?;
        callArgs := callArgs[argIndex := Filled(arg)];
        argIndex := argIndex + 1;
      }
    }

    method NamedArguments(params: seq<Parameter>, named: seq<NamedArg>, slots: seq<Slot>, ok0: bool, ghost before: nat)
        returns (callArgs: seq<Slot>, ok: bool)
      requires |slots| == |params| && before <= errors && Sane(Slots(slots, ok0, errors - before))
      modifies this`errors
      ensures errors >= old(errors)
      ensures Slots(callArgs, ok, errors - before) ==
        FillNamed(old(ScopeNow()), params, named, Slots(slots, ok0, old(errors) - before))
      decreases named
    {
      callArgs, ok := slots, ok0;
      assert named[0..] == named;
      for n := 0 to |named|
        invariant |params| == |callArgs| && errors >= old(errors) && Sane(Slots(callArgs, ok, errors - before))
        invariant FillNamed(old(ScopeNow()), params, named, Slots(slots, ok0, old(errors) - before)) ==
          FillNamed(old(ScopeNow()), params, named[n..], Slots(callArgs, ok, errors - before))
      {
        assert named[n..][0] == named[n] && named[n..][1..] == named[n + 1..];
        callArgs, ok := NamedArgument(params, named[n], callArgs, ok, before);
      }
      assert named[|named|..] == [];
    }

    method NamedArgument(params: seq<Parameter>, arg: NamedArg, slots: seq<Slot>, ok0: bool, ghost before: nat)
        returns (callArgs: seq<Slot>, ok: bool)
      requires |slots| == |params| && before <= errors && Sane(Slots(slots, ok0, errors - before))
      modifies this`errors
      ensures errors >= old(errors)
      ensures
        var s, i := Slots(slots, ok0, old(errors) - before), IndexOf(params, arg.name);
        Slots(callArgs, ok, errors - before) ==
        if i >= |params| || slots[i].Filled? then Rejected(s)
          else Put(s, i, CheckArgument(old(ScopeNow()), arg.expression, params[i].ty))
      decreases arg, 3
    {
      callArgs, ok := slots, ok0;
      var namedArgAt := FindParameter(params, arg.name);
      if namedArgAt >= |params| {
        Error();
        return callArgs, false;
      }
      if callArgs[namedArgAt].Filled? {
        Error();
        return callArgs, false;
      }
      var value := CheckFunctionCallArgType(params[namedArgAt], arg.expression);
      ok := ok && value.Some?;
      callArgs := callArgs[namedArgAt := Filled(value)];
    }

    /** Search for a parameter by name; the number of parameters if there is none. */
    method FindParameter(params: seq<Parameter>, name: string) returns (i: nat)
      ensures i == IndexOf(params, name)
    {
      i := 0;
      while i < |params| && params[i].name != name
        invariant i <= |params| && forall j | 0 <= j < i :: params[j].name != name
      {
        i := i + 1;
      }
    }

    method DefaultArguments(params: seq<Parameter>, slots: seq<Slot>, ok0: bool, ghost before: nat)
        returns (callArgs: seq<Slot>, ok: bool)
      requires |slots| == |params| && before <= errors && Sane(Slots(slots, ok0, errors - before))
      modifies this`errors
      ensures errors >= old(errors)
      ensures Slots(callArgs, ok, errors - before) == FillDefaults(params, Slots(slots, ok0, old(errors) - before), 0)
    {
      callArgs, ok := slots, ok0;
      for i := 0 to |params|
        invariant |params| == |callArgs| && errors >= old(errors) && Sane(Slots(callArgs, ok, errors - before)) &&
          (ok ==> AllFilled(callArgs[..i]))
        invariant FillDefaults(params, Slots(slots, ok0, old(errors) - before), 0) ==
          FillDefaults(params, Slots(callArgs, ok, errors - before), i)
      {
        ghost var filled := callArgs;
        if callArgs[i].Unfilled? {
          if params[i].default.None? {
            Error();
            ok := false;
          } else {
            callArgs := callArgs[i := Filled(Some(Lit(ValueOf(params[i].default.value))))];
          }
        }
        assert ok ==> forall k | 0 <= k < i :: callArgs[k] == filled[..i][k];
      }
    }

    // Statements; the tree is None where an expression in it did not check.

    /** The scopes below the innermost one. */
    ghost function Outer(): seq<Names>
      reads namesStack
      requires namesStack.scopes != []
    {
      namesStack.scopes[..|namesStack.scopes|-1]
    }

    method DoExpressionOfType(e: Expression, t: Type) returns (r: Option<Expr>)
      modifies this`errors
      ensures errors >= old(errors) && Checked(r, errors - old(errors)) == E.CheckAs(old(ScopeNow()), e, t)
    {
      r := DoExpression(e);
      if r.Some? && ResultType(r.value) != t {
        Error();
      }
    }

    method DoStatement(s: Statement, scope: nat, ret: Type) returns (tree: Option<Stmt>, hasReturn: bool)
      requires |namesStack.scopes| == scope + 1
      modifies this`types, this`next, this`errors, namesStack
      ensures |namesStack.scopes| == scope + 1 && Outer() == old(Outer())
      ensures (Now(), tree, hasReturn) == E.DoStatement(functions, ret, old(Now()), s)
      decreases s
    {
      match s
      case ReturnStatement(result) =>
        tree := DoReturnStatement(result, ret);
        hasReturn := true;
      case VariableDeclaration(name, typeName, init) =>
        tree := DoLocalDeclaration(name, typeName, init, scope);
        hasReturn := false;
      case Compound(ss) =>
        var ts;
        ts, hasReturn := DoCompoundStatementWithNewScope(ss, ret);
        tree := if ts.Some? then Some(Block(ts.value)) else None;
      case IfStatement(_, _, _) =>
        tree, hasReturn := DoIfStatement(s, ret);
      case WhileStatement(condition, body) =>
        var c := DoExpressionOfType(condition, Bool);
        var ts, _ := DoCompoundStatementWithNewScope(body, ret);
        tree := if c.Some? && ts.Some? then Some(While(c.value, ts.value)) else None;
        hasReturn := false;
      case VariableAssign(x, e) =>
        tree := DoVariableAssignStatement(x, e);
        hasReturn := false;
      case ExpressionStatement(e) =>
        var r := DoExpression(e);
        tree := if r.Some? then Some(Eval(r.value)) else None;
        hasReturn := false;
    }

    /** A local variable, whose name is declared after its initialiser and even if that did not check. */
    method DoLocalDeclaration(name: string, typeName: string, init: Expression, scope: nat) returns (tree: Option<Stmt>)
      requires |namesStack.scopes| == scope + 1
      modifies this`types, this`next, this`errors, namesStack
      ensures |namesStack.scopes| == scope + 1 && Outer() == old(Outer())
      ensures forall ret ::
        (Now(), tree, false) ==
        E.DoStatement(functions, ret, old(Now()), VariableDeclaration(name, typeName, init))
    {
      hide E.CheckDeclaration, E.TypeNamed, E.TypeForDeclaration;
      var declType, value := DoVariableDeclaration(typeName, init);
      tree := if declType.Some? && value.Some? then Some(Let(next, declType.value, value.value)) else None;
      DeclareLocal(name, declType, scope);
    }

    /** Declare the next local, with its type if it has one. */
    method DeclareLocal(name: string, declType: Option<Type>, scope: nat)
      requires |namesStack.scopes| == scope + 1
      modifies this`types, this`next, this`errors, namesStack
      ensures |namesStack.scopes| == scope + 1 && Outer() == old(Outer())
      ensures Now() == E.AddLocal(old(Now()), name, declType)
    {
      var d := next;
      next := next + 1;
      if declType.Some? {
        types := types[Local(d) := declType.value];
      }
      var added := namesStack.AddName(scope, name, VarEntry(Local(d)));
      if !added {
        Error();
      }
      assert added ==> namesStack.scopes[scope].Keys == old(namesStack.scopes[scope].Keys) + {name};
    }

    method DoReturnStatement(result: Option<Expression>, ret: Type) returns (tree: Option<Stmt>)
      requires namesStack.scopes != []
      modifies this`errors
      ensures (Now(), tree, true) == E.DoStatement(functions, ret, old(Now()), ReturnStatement(result))
    {
      if result.None? {
        if ret != Void {
          Error();
        }
        tree := Some(Return(None));
      } else {
        var r := DoExpressionOfType(result.value, ret);
        tree := if r.Some? then Some(Return(r)) else None;
      }
    }

    method DoVariableAssignStatement(x: VariableExpression, e: Expression) returns (tree: Option<Stmt>)
      modifies this`errors
      ensures errors >= old(errors) && (tree, errors - old(errors)) == E.CheckAssign(old(ScopeNow()), x, e)
    {
      var l := DoExpression(x);
      if l.None? {
        return None;
      }
      var r := DoExpressionOfType(e, ResultType(l.value));
      tree := if r.Some? && l.value.Var? then Some(Assign(l.value.x, r.value)) else None;
    }

    /** The statements of a scope that is already open. */
    method DoCompoundStatement(ss: seq<Statement>, scope: nat, ret: Type)
        returns (trees: Option<seq<Stmt>>, hasReturn: bool)
      requires |namesStack.scopes| == scope + 1
      modifies this`types, this`next, this`errors, namesStack
      ensures |namesStack.scopes| == scope + 1 && Outer() == old(Outer())
      ensures (Now(), trees, hasReturn) == E.DoAll(functions, ret, old(Now()), ss)
      decreases ss, 0
    {
      hide E.DoStatement;
      var done: seq<Stmt>, ok := [], true;
      hasReturn := false;
      assert ss[0..] == ss && forall ts: seq<Stmt> :: [] + ts == ts;
      for n := 0 to |ss|
        invariant |namesStack.scopes| == scope + 1 && Outer() == old(Outer())
        invariant
          var (st, ts, r) := E.DoAll(functions, ret, old(Now()), ss);
          var (st1, ts1, r1) := E.DoAll(functions, ret, Now(), ss[n..]);
          st == st1 && r == (hasReturn || r1) && ts == if ok && ts1.Some? then Some(done + ts1.value) else None
      {
        assert ss[n..][0] == ss[n] && ss[n..][1..] == ss[n + 1..];
        var tree, currentHasReturn := DoStatement(ss[n], scope, ret);
        hasReturn := hasReturn || currentHasReturn;
        if tree.Some? {
          assert forall rest :: done + ([tree.value] + rest) == (done + [tree.value]) + rest;
          done := done + [tree.value];
        } else {
          ok := false;
        }
      }
      assert done + [] == done;
      trees := if ok then Some(done) else None;
    }

    /** A block with a scope of its own: afterwards the scope stack is exactly as before. */
    method DoCompoundStatementWithNewScope(ss: seq<Statement>, ret: Type)
        returns (trees: Option<seq<Stmt>>, hasReturn: bool)
      requires namesStack.scopes != []
      modifies this`types, this`next, this`errors, namesStack
      ensures namesStack.scopes == old(namesStack.scopes)
      ensures (Now(), trees, hasReturn) == E.DoBlock(functions, ret, old(Now()), ss)
      decreases ss, 1
    {
      var scope := namesStack.AddNamesScope();
      assert Now() == old(Now()).(here := {});
      trees, hasReturn := DoCompoundStatement(ss, scope, ret);
      assert namesStack.scopes[..scope] == old(namesStack.scopes);
      var _ := namesStack.RemoveNamesScope(scope);
      assert namesStack.scopes == old(namesStack.scopes);
    }

    method DoIfStatement(s: Statement, ret: Type) returns (tree: Option<Stmt>, hasReturn: bool)
      requires s.IfStatement? && namesStack.scopes != []
      modifies this`types, this`next, this`errors, namesStack
      ensures namesStack.scopes == old(namesStack.scopes)
      ensures (Now(), tree, hasReturn) == E.DoStatement(functions, ret, old(Now()), s)
      decreases s, 0
    {
      var c := DoExpressionOfType(s.condition, Bool);
      var thn;
      thn, hasReturn := DoCompoundStatementWithNewScope(s.ifBody, ret);
      if s.elseBody.ElsePart? {
        var els, elseHasReturn := DoCompoundStatementWithNewScope(s.elseBody.statements, ret);
        hasReturn := hasReturn && elseHasReturn;
        tree := if c.Some? && thn.Some? && els.Some? then Some(If(c.value, thn.value, Else(els.value))) else None;
      } else {
        tree := if c.Some? && thn.Some? then Some(If(c.value, thn.value, NoElse)) else None;
      }
    }

    /** The type and the initialiser of a local variable; does not declare its name. */
    method DoVariableDeclaration(typeName: string, init: Expression)
        returns (declType: Option<Type>, value: Option<Expr>)
      modifies this`errors
      ensures errors >= old(errors) &&
        (declType, Checked(value, errors - old(errors))) == E.CheckDeclaration(old(ScopeNow()), typeName, init)
    {
      value := DoExpression(init);
      if value.None? {
        return None, value;
      }
      declType := TypeOfDeclaration(typeName, ResultType(value.value));
    }

    /** The named type, or that of the initialiser if no type is named. */
    method TypeOfDeclaration(typeName: string, t: Type) returns (declType: Option<Type>)
      modifies this`errors
      ensures errors >= old(errors) && (declType, errors - old(errors)) == E.TypeForDeclaration(typeName, t)
    {
      if typeName == "" {
        return Some(t);
      }
      declType := MakeTypeForName(typeName);
      if declType != Some(t) {
        Error();
      }
    }

    method MakeTypeForName(name: string) returns (r: Option<Type>)
      modifies this`errors
      ensures r == E.TypeNamed(name) && errors == old(errors) + E.ErrorIf(r.None?)
    {
      r := E.TypeNamed(name);
      if r.None? {
        Error();
      }
    }

    // Declarations.

    /** Declare the parameters in the function's scope; a repeated name is ignored. */
    method AddParameters(params: seq<Parameter>, scope: nat)
      requires |namesStack.scopes| == scope + 1
      modifies namesStack
      ensures |namesStack.scopes| == scope + 1 && Outer() == old(Outer())
      ensures Now() == E.AddParams(old(Now()), params, 0)
    {
      for i := 0 to |params|
        invariant |namesStack.scopes| == scope + 1 && Outer() == old(Outer())
        invariant E.AddParams(old(Now()), params, 0) == E.AddParams(Now(), params, i)
      {
        ghost var before := Now();
        var added := namesStack.AddName(scope, params[i].name, VarEntry(Param(i)));
        assert added ==> Now().here == before.here + {params[i].name};
      }
    }

    method KnownTypes(params: seq<Parameter>) returns (r: Option<seq<Type>>)
      ensures r == E.KnownTypes(params)
    {
      var ts: seq<Type> := [];
      var i := |params|;
      while i > 0
        invariant 0 <= i <= |params| && E.KnownTypes(params[i..]) == Some(ts)
      {
        i := i - 1;
        assert params[i..][0] == params[i] && params[i..][1..] == params[i + 1..];
        if params[i].ty.None? {
          UnknownTypeStays(params, i);
          return None;
        }
        ts := [params[i].ty.value] + ts;
      }
      assert params[0..] == params;
      r := Some(ts);
    }

    /** The return type and the parameter types have been resolved before. Numbers and types of parameters and
        locals are the function's own. */
    method DoFunctionDeclarationBody(fd: FunctionDeclaration, sig: Signature)
        returns (isMain: bool, tree: Option<FunDecl>)
      modifies this`types, this`next, this`errors, namesStack
      ensures namesStack.scopes == old(namesStack.scopes) && types == old(types)
      ensures (errors, isMain, tree) ==
        E.DoFunction(functions, Visible(old(namesStack.scopes)), old(types), fd, sig, old(errors))
    {
      if sig.returnType.None? {
        return false, None;
      }
      var body: Option<seq<Stmt>> := Some([]);
      if fd.body.Some? {
        body := DoScopedBody(fd.body.value, sig.params, sig.returnType.value);
      }
      isMain := false;
      if fd.name == "main" {
        if sig.params == [] && sig.returnType.value == I32 {
          isMain := true;
        } else {
          Error();
        }
      }
      var ts := KnownTypes(sig.params);
      tree := if body.Some? &&
        ts.Some? then Some(FunDecl(ts.value, sig.returnType.value, fd.body.None?, body.value)) else None;
    }

    /** The body in a scope that holds the parameters. */
    method DoScopedBody(ss: seq<Statement>, params: seq<Parameter>, ret: Type) returns (body: Option<seq<Stmt>>)
      modifies this`types, this`next, this`errors, namesStack
      ensures namesStack.scopes == old(namesStack.scopes) && types == old(types)
      ensures (body, errors) ==
        E.DoBody(functions, ret, E.BodyStart(Visible(old(namesStack.scopes)), old(types), params, old(errors)), ss)
    {
      hide E.DoBody;
      var outerTypes := types;
      var scope := namesStack.AddNamesScope();
      types := types + E.ParamTypes(params);
      next := 0;
      assert Outer() == old(namesStack.scopes);
      assert Now() == E.State(Visible(old(namesStack.scopes)), {}, old(types) + E.ParamTypes(params), 0, old(errors));
      AddParameters(params, scope);
      body := DoFunctionBody(ss, scope, ret);
      var _ := namesStack.RemoveNamesScope(scope);
      assert namesStack.scopes == old(namesStack.scopes);
      types := outerTypes;
    }

    /** The body, with an implicit return if a void function needs one. */
    method DoFunctionBody(ss: seq<Statement>, scope: nat, ret: Type) returns (body: Option<seq<Stmt>>)
      requires |namesStack.scopes| == scope + 1
      modifies this`types, this`next, this`errors, namesStack
      ensures |namesStack.scopes| == scope + 1 && Outer() == old(Outer())
      ensures (body, errors) == E.DoBody(functions, ret, old(Now()), ss)
    {
      var hasReturn;
      body, hasReturn := DoCompoundStatement(ss, scope, ret);
      if !hasReturn {
        if ret == Void {
          body := if body.Some? then Some(body.value + [Return(None)]) else None;
        } else {
          Error();
        }
      }
    }

    /** Resolve the types of a signature. */
    method ResolveSignature(fd: FunctionDeclaration) returns (sig: Signature)
      modifies this`errors
      ensures sig == E.SignatureOf(fd)
      ensures errors == old(errors) + E.ErrorIf(E.TypeNamed(fd.typeName).None?) + E.UnknownParams(fd.params)
    {
      var returnType := MakeTypeForName(fd.typeName);
      var params: seq<Parameter> := [];
      assert fd.params[0..] == fd.params;
      for i := 0 to |fd.params|
        invariant params == E.SignatureOf(fd).params[..i]
        invariant errors + E.UnknownParams(fd.params[i..]) ==
          old(errors) + E.ErrorIf(E.TypeNamed(fd.typeName).None?) + E.UnknownParams(fd.params)
      {
        assert fd.params[i..][0] == fd.params[i] && fd.params[i..][1..] == fd.params[i + 1..];
        var t := MakeTypeForName(fd.params[i].typeName);
        params := params + [Parameter(fd.params[i].name, t, fd.params[i].default)];
      }
      sig := Signature(fd.name, params, returnType);
    }

    method ResolveSignatures(fds: seq<FunctionDeclaration>) returns (sigs: seq<Signature>)
      modifies this`errors
      ensures sigs == seq(|fds|, i requires 0 <= i < |fds| => E.SignatureOf(fds[i]))
      ensures errors == old(errors) + E.UnknownTypes(fds)
    {
      sigs := [];
      assert fds[0..] == fds;
      for i := 0 to |fds|
        invariant |sigs| == i && forall k | 0 <= k < i :: sigs[k] == E.SignatureOf(fds[k])
        invariant errors + E.UnknownTypes(fds[i..]) == old(errors) + E.UnknownTypes(fds)
      {
        assert fds[i..][0] == fds[i] && fds[i..][1..] == fds[i + 1..];
        var sig := ResolveSignature(fds[i]);
        sigs := sigs + [sig];
      }
    }

    /** A global variable, whose initialiser has to be a constant. */
    method DoGlobalDeclaration(g: GlobalDeclaration) returns (declType: Option<Type>, value: Option<Value>)
      modifies this`errors
      ensures errors >= old(errors) && (declType, value, errors - old(errors)) == E.CheckGlobal(g)
    {
      if !g.init.Constant? {
        Error();
        return None, None;
      }
      value := Some(ValueOf(g.init.c));
      declType := TypeOfDeclaration(g.typeName, TypeOf(value.value));
    }

    /** Declare the global names: variables, then functions. */
    method AddGlobalNames(root: Root)
      requires |namesStack.scopes| == 1
      modifies this`errors, namesStack
      ensures |namesStack.scopes| == 1 && Now() == E.AddNames(old(Now()), E.GlobalEntries(root))
    {
      var entries := E.GlobalEntries(root);
      assert entries[0..] == entries;
      for i := 0 to |entries|
        invariant |namesStack.scopes| == 1 && E.AddNames(old(Now()), entries) == E.AddNames(Now(), entries[i..])
      {
        assert entries[i..][0] == entries[i] && entries[i..][1..] == entries[i + 1..];
        ghost var before := Now();
        var added := namesStack.AddName(0, entries[i].0, entries[i].1);
        if !added {
          Error();
        }
        assert added ==> Now().here == before.here + {entries[i].0};
      }
    }

    method DoGlobals(gs: seq<GlobalDeclaration>) returns (globals: Option<seq<Value>>)
      modifies this`types, this`errors
      ensures (types, globals, errors) == E.DoGlobals(gs, 0, old(types), Some([]), old(errors))
    {
      globals := Some([]);
      for i := 0 to |gs|
        invariant E.DoGlobals(gs, 0, old(types), Some([]), old(errors)) == E.DoGlobals(gs, i, types, globals, errors)
      {
        var declType, value := DoGlobalDeclaration(gs[i]);
        if declType.Some? {
          types := types[Global(i) := declType.value];
        }
        globals := if value.Some? && globals.Some? then Some(globals.value + [value.value]) else None;
      }
    }

    method DoFunctionBodies(root: Root) returns (funs: Option<seq<FunDecl>>, mainFunction: Option<nat>)
      requires functions == E.Signatures(root)
      modifies this`types, this`next, this`errors, namesStack
      ensures namesStack.scopes == old(namesStack.scopes) && types == old(types)
      ensures (errors, mainFunction, funs) ==
        E.DoFunctions(root, functions, Visible(old(namesStack.scopes)), old(types), 0, None, old(errors))
    {
      var done: seq<FunDecl>, ok := [], true;
      mainFunction := None;
      ghost var names := Visible(namesStack.scopes);
      assert forall fds: seq<FunDecl> :: [] + fds == fds;
      for i := 0 to |root.functions|
        invariant namesStack.scopes == old(namesStack.scopes) && types == old(types)
        invariant
          var (e, main, fds) := E.DoFunctions(root, functions, names, types, 0, None, old(errors));
          var (e1, main1, fds1) := E.DoFunctions(root, functions, names, types, i, mainFunction, errors);
          e == e1 && main == main1 && fds == if ok && fds1.Some? then Some(done + fds1.value) else None
      {
        hide E.DoFunction;
        var isMain, fd := DoFunctionDeclarationBody(root.functions[i], functions[i]);
        if isMain {
          mainFunction := Some(i);
        }
        if fd.Some? {
          assert forall rest :: done + ([fd.value] + rest) == (done + [fd.value]) + rest;
          done := done + [fd.value];
        } else {
          ok := false;
        }
      }
      assert done + [] == done;
      funs := if ok then Some(done) else None;
    }

    /** Decorate a program; true means that no error was recorded. */
    method LinkNames(root: Root) returns (ok: bool, program: Option<Program>, mainFunction: Option<nat>)
      requires namesStack.scopes == [] && types == map[] && next == 0 && errors == 0
      modifies this, namesStack
      ensures E.Decorated(program, mainFunction, errors) == E.LinkNames(root) && ok == (errors == 0)
    {
      hide E.AddNames, E.DoGlobals, E.DoFunctions, E.UnknownTypes, E.GlobalEntries, E.SignatureOf, E.TypeNamed;
      var _ := namesStack.AddNamesScope();
      assert Now() == E.State(map[], {}, map[], 0, 0);
      AddGlobalNames(root);
      functions := ResolveSignatures(root.functions);
      var globals := DoGlobals(root.variables);
      var funs;
      funs, mainFunction := DoFunctionBodies(root);
      if mainFunction.None? {
        Error();
      }
      program := if globals.Some? && funs.Some? then Some(Program(globals.value, funs.value)) else None;
      ok := errors == 0;
    }
  }

  lemma {:induction false} UnknownTypeStays(params: seq<Parameter>, i: nat)
    requires i < |params| && params[i].ty.None?
    ensures E.KnownTypes(params).None?
    decreases i
  {
    if i > 0 {
      UnknownTypeStays(params[1..], i - 1);
    }
  }
}
