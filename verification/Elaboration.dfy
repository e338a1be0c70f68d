/** What decorating statements, functions and a whole program comes to, as functions.

    The names visible at a point are a flat environment that a block restores when it ends; the
    types given to declarations, their numbers and the error counter go on.
 */
module Elaboration {
  import opened Lang
  import opened Syntax
  import opened Scopes
  import opened Checking

  /** `here` holds the names of the innermost scope, which must not be declared again. */
  datatype State = State(names: Names, here: set<string>, types: map<VarRef, Type>, next: nat, errors: nat)

  function ScopeOf(fs: seq<Signature>, st: State): Scope { Scope(fs, st.names, st.types) }

  function Record(st: State, errors: nat): State { st.(errors := st.errors + errors) }

  function ErrorIf(b: bool): nat { if b then 1 else 0 }

  function TypeNamed(name: string): Option<Type> {
    if name == "i32" then Some(I32)
    else if name == "f32" then Some(F32)
    else if name == "void" then Some(Void)
    else if name == "bool" then Some(Bool)
    else if name == "str" then Some(Str)
    else None
  }

  /** The type of a declaration whose initialiser has type `t`, and the errors of naming it: an unknown
      type name is one error, and so is a type that is not that of the initialiser. */
  function TypeForDeclaration(typeName: string, t: Type): (Option<Type>, nat) {
    if typeName == "" then (Some(t), 0)
    else (TypeNamed(typeName), ErrorIf(TypeNamed(typeName).None?) + ErrorIf(TypeNamed(typeName) != Some(t)))
  }

  /** A local declaration: the type it gets and its initialiser. */
  function CheckDeclaration(sc: Scope, typeName: string, init: Expression): (Option<Type>, Checked) {
    var r := Check(sc, init);
    if r.expr.None? then (None, r)
    else
      var (t, errors) := TypeForDeclaration(typeName, ResultType(r.expr.value));
      (t, r.(errors := r.errors + errors))
  }

  /** Declare a name in the innermost scope; a second declaration is an error and changes nothing. */
  function AddHere(st: State, name: string, entry: Entry): State {
    if name in st.here then Record(st, 1)
    else st.(names := st.names[name := entry], here := st.here + {name})
  }

  /** Local `st.next`, which is declared even if its type is not known. */
  function AddLocal(st: State, name: string, t: Option<Type>): State {
    AddHere(st.(types := if t.Some? then st.types[Local(st.next) := t.value] else st.types, next := st.next + 1), name,
      VarEntry(Local(st.next)))
  }

  /** An expression that has to be of a type. */
  function CheckAs(sc: Scope, e: Expression, t: Type): Checked {
    var r := Check(sc, e);
    if r.expr.Some? then r.(errors := r.errors + ErrorIf(ResultType(r.expr.value) != t)) else r
  }

  function CheckAssign(sc: Scope, x: VariableExpression, e: Expression): (Option<Stmt>, nat) {
    var l := Check(sc, x);
    if l.expr.None? then (None, l.errors)
    else
      var r := CheckAs(sc, e, ResultType(l.expr.value));
      (if r.expr.Some? && l.expr.value.Var? then Some(Assign(l.expr.value.x, r.expr.value))
        else None, l.errors + r.errors)
  }

  /** The state after a statement, the decorated statement, and the return flag. */
  function DoStatement(fs: seq<Signature>, ret: Type, st: State, s: Statement): (State, Option<Stmt>, bool)
    decreases s
  {
    var sc := ScopeOf(fs, st);
    match s
    case ReturnStatement(result) =>
      if result.None? then (Record(st, ErrorIf(ret != Void)), Some(Return(None)), true)
      else
        var r := CheckAs(sc, result.value, ret);
        (Record(st, r.errors), if r.expr.Some? then Some(Return(r.expr)) else None, true)
    case VariableDeclaration(name, typeName, init) =>
      var (t, r) := CheckDeclaration(sc, typeName, init);
      (AddLocal(Record(st, r.errors), name, t),
       if t.Some? && r.expr.Some? then Some(Let(st.next, t.value, r.expr.value)) else None, false)
    case Compound(ss) =>
      var (st1, ts, hasReturn) := DoBlock(fs, ret, st, ss);
      (st1, if ts.Some? then Some(Block(ts.value)) else None, hasReturn)
    case IfStatement(condition, ifBody, elseBody) =>
      var c := CheckAs(sc, condition, Bool);
      var (st1, thn, thenReturns) := DoBlock(fs, ret, Record(st, c.errors), ifBody);
      if elseBody.ElsePart? then
        var (st2, els, elseReturns) := DoBlock(fs, ret, st1, elseBody.statements);
        (st2, if c.expr.Some? && thn.Some? &&
          els.Some? then Some(If(c.expr.value, thn.value, Else(els.value))) else None, thenReturns && elseReturns)
      else
        (st1, if c.expr.Some? && thn.Some? then Some(If(c.expr.value, thn.value, NoElse)) else None, thenReturns)
    case WhileStatement(condition, body) =>
      var c := CheckAs(sc, condition, Bool);
      var (st1, ts, _) := DoBlock(fs, ret, Record(st, c.errors), body);
      (st1, if c.expr.Some? && ts.Some? then Some(While(c.expr.value, ts.value)) else None, false)
    case VariableAssign(x, e) =>
      var (t, errors) := CheckAssign(sc, x, e);
      (Record(st, errors), t, false)
    case ExpressionStatement(e) =>
      var r := Check(sc, e);
      (Record(st, r.errors), if r.expr.Some? then Some(Eval(r.expr.value)) else None, false)
  }

  function DoAll(fs: seq<Signature>, ret: Type, st: State, ss: seq<Statement>): (State, Option<seq<Stmt>>, bool)
    decreases ss, 0
  {
    if ss == [] then (st, Some([]), false)
    else
      var (st1, t, r) := DoStatement(fs, ret, st, ss[0]);
      var (st2, ts, rs) := DoAll(fs, ret, st1, ss[1..]);
      (st2, if t.Some? && ts.Some? then Some([t.value] + ts.value) else None, r || rs)
  }

  /** A block has a scope of its own: what it declares is gone when it ends. */
  function DoBlock(fs: seq<Signature>, ret: Type, st: State, ss: seq<Statement>): (State, Option<seq<Stmt>>, bool)
    decreases ss, 1
  {
    var (st1, ts, r) := DoAll(fs, ret, st.(here := {}), ss);
    (st1.(names := st.names, here := st.here), ts, r)
  }

  /** Parameters from the `i`-th on; a repeated name silently keeps its first meaning. */
  function AddParams(st: State, params: seq<Parameter>, i: nat): State
    decreases |params| - i
  {
    if i >= |params| then st
    else
      AddParams(if params[i].name in st.here then st
        else AddHere(st, params[i].name, VarEntry(Param(i))), params, i + 1)
  }

  function ParamTypes(params: seq<Parameter>): map<VarRef, Type> {
    map i: nat | i < |params| && params[i].ty.Some? :: Param(i) := params[i].ty.value
  }

  /** The state a function body starts in. */
  function BodyStart(names: Names, types: map<VarRef, Type>, params: seq<Parameter>, errors: nat): State {
    AddParams(State(names, {}, types + ParamTypes(params), 0, errors), params, 0)
  }

  function KnownTypes(params: seq<Parameter>): Option<seq<Type>>
    decreases params
  {
    if params == [] then Some([])
    else
      var ts := KnownTypes(params[1..]);
      if params[0].ty.Some? && ts.Some? then Some([params[0].ty.value] + ts.value) else None
  }

  /** The body, closed by an implicit return if it needs one, and the errors so far. */
  function DoBody(fs: seq<Signature>, ret: Type, st: State, ss: seq<Statement>): (Option<seq<Stmt>>, nat) {
    var (st1, ts, r) := DoAll(fs, ret, st, ss);
    if r then (ts, st1.errors)
    else if ret == Void then (if ts.Some? then Some(ts.value + [Return(None)]) else None, st1.errors)
    else (ts, st1.errors + 1)
  }

  /** A function, with errors so far, whether it is the main function, and the decorated function. */
  function DoFunction(fs: seq<Signature>, names: Names, types: map<VarRef, Type>, fd: FunctionDeclaration,
          sig: Signature, errors: nat)
    : (nat, bool, Option<FunDecl>)
  {
    if sig.returnType.None? then (errors, false, None)
    else
      var ret := sig.returnType.value;
      var (body, errors1) :=
        if fd.body.Some? then DoBody(fs, ret, BodyStart(names, types, sig.params, errors), fd.body.value)
          else (Some([]), errors);
      var isMain := fd.name == "main" && sig.params == [] && ret == I32;
      var ts := KnownTypes(sig.params);
      (errors1 + ErrorIf(fd.name == "main" && !isMain), isMain,
       if body.Some? && ts.Some? then Some(FunDecl(ts.value, ret, fd.body.None?, body.value)) else None)
  }

  function SignatureOf(fd: FunctionDeclaration): Signature {
    Signature(fd.name, seq(|fd.params|, i requires 0 <= i < |fd.params| =>
                             Parameter(fd.params[i].name, TypeNamed(fd.params[i].typeName), fd.params[i].default)),
              TypeNamed(fd.typeName))
  }

  function UnknownParams(params: seq<ParamDeclaration>): nat
    decreases params
  {
    if params == [] then 0 else ErrorIf(TypeNamed(params[0].typeName).None?) + UnknownParams(params[1..])
  }

  function UnknownTypes(fds: seq<FunctionDeclaration>): nat
    decreases fds
  {
    if fds == [] then 0
    else ErrorIf(TypeNamed(fds[0].typeName).None?) + UnknownParams(fds[0].params) + UnknownTypes(fds[1..])
  }

  /** A global needs a constant; its type, value and errors. */
  function CheckGlobal(g: GlobalDeclaration): (Option<Type>, Option<Value>, nat) {
    if !g.init.Constant? then (None, None, 1)
    else
      var v := ValueOf(g.init.c);
      var (t, errors) := TypeForDeclaration(g.typeName, TypeOf(v));
      (t, Some(v), errors)
  }

  /** Globals from the `i`-th on, after the types, initial values and errors of those before. */
  function DoGlobals(gs: seq<GlobalDeclaration>, i: nat, types: map<VarRef, Type>, values: Option<seq<Value>>,
          errors: nat)
    : (map<VarRef, Type>, Option<seq<Value>>, nat)
    decreases |gs| - i
  {
    if i >= |gs| then (types, values, errors)
    else
      var (t, v, e) := CheckGlobal(gs[i]);
      DoGlobals(gs, i + 1,
                if t.Some? then types[Global(i) := t.value] else types,
                if v.Some? && values.Some? then Some(values.value + [v.value]) else None,
                errors + e)
  }

  /** Declare names in order, from the `i`-th on; a repeated name is an error. */
  function AddNames(st: State, entries: seq<(string, Entry)>): State
    decreases entries
  {
    if entries == [] then st else AddNames(AddHere(st, entries[0].0, entries[0].1), entries[1..])
  }

  /** The names of the global scope: variables first. */
  function GlobalEntries(root: Root): (r: seq<(string, Entry)>) {
    seq(|root.variables|, i requires 0 <= i < |root.variables| => (root.variables[i].name, VarEntry(Global(i)))) +
    seq(|root.functions|, i requires 0 <= i < |root.functions| => (root.functions[i].name, FunEntry(i)))
  }

  /** Functions from the `i`-th on: errors so far, the last main function, the decorated functions. */
  function DoFunctions(root: Root, fs: seq<Signature>, names: Names, types: map<VarRef, Type>, i: nat,
          main: Option<nat>, errors: nat)
    : (nat, Option<nat>, Option<seq<FunDecl>>)
    requires |fs| == |root.functions|
    decreases |fs| - i
  {
    if i >= |fs| then (errors, main, Some([]))
    else
      var (e, isMain, fd) := DoFunction(fs, names, types, root.functions[i], fs[i], errors);
      var (e1, main1, fds) := DoFunctions(root, fs, names, types, i + 1, if isMain then Some(i) else main, e);
      (e1, main1, if fd.Some? && fds.Some? then Some([fd.value] + fds.value) else None)
  }

  datatype Decorated = Decorated(program: Option<Program>, main: Option<nat>, errors: nat)

  function Signatures(root: Root): (r: seq<Signature>)
    ensures |r| == |root.functions|
  {
    seq(|root.functions|, i requires 0 <= i < |root.functions| => SignatureOf(root.functions[i]))
  }

  /** Decorate a program: it is accepted when no error is recorded. */
  function LinkNames(root: Root): Decorated {
    var st := AddNames(State(map[], {}, map[], 0, 0), GlobalEntries(root));
    var (types, globals, errors) :=
      DoGlobals(root.variables, 0, map[], Some([]), st.errors + UnknownTypes(root.functions));
    var (e, main, funs) := DoFunctions(root, Signatures(root), st.names, types, 0, None, errors);
    Decorated(if globals.Some? &&
      funs.Some? then Some(Program(globals.value, funs.value)) else None, main, e + ErrorIf(main.None?))
  }
}
