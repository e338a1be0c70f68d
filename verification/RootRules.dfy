/** Whole programs: decorating records no error exactly if the program is well-formed. */
module RootRules {
  import opened Lang
  import opened Syntax
  import opened Scopes
  import opened Checking
  import opened Elaboration
  import opened DecoratorSound
  import opened ProgramSound
  import opened MeaningSound
  import opened ProgramMeaning
  import opened Rules
  import opened RulesExact
  import M = Meaning

  // Functions.

  /** Variables linked to parameters of their types. */
  predicate AreParams(params: seq<ParamDeclaration>, n: nat, env: seq<Typed>, refs: seq<VarRef>)
    requires n <= |params|
  {
    |refs| == |env| && OwnVariables(refs, 0) &&
    forall i | 0 <= i < |env| ::
      refs[i].Param? && refs[i].index < n && TypeCalled(params[refs[i].index].typeName) == Some(env[i].ty)
  }

  /** Parameters are variables of their own types. */
  lemma {:induction false} BoundTypes(params: seq<ParamDeclaration>, n: nat)
    requires n <= |params| && forall i | 0 <= i < |params| :: TypeCalled(params[i].typeName).Some?
    ensures VariableNames(ParameterEnv(params, n)) == BoundNames(params, n)
    ensures AreParams(params, n, ParameterEnv(params, n), BoundRefs(params, n))
    decreases n
  {
    hide TypeCalled, AreParams, ParameterEnv, BoundNames, BoundRefs;
    EnvStep(params, n);
    if n == 0 {
      assert AreParams(params, 0, [], []) by { NoParams(params); }
    } else {
      BoundTypes(params, n - 1);
      var env, refs, p := ParameterEnv(params, n - 1), BoundRefs(params, n - 1), params[n - 1];
      var more := Typed(p.name, TypeCalled(p.typeName).value);
      MoreNames(env, more, 0);
      MoreParams(params, n, env, refs, more);
    }
  }

  /** One more parameter, unless an earlier one has its name. */
  lemma EnvStep(params: seq<ParamDeclaration>, n: nat)
    requires n <= |params| && forall i | 0 <= i < |params| :: TypeCalled(params[i].typeName).Some?
    ensures n == 0 ==> ParameterEnv(params, n) == [] && BoundNames(params, n) == [] && BoundRefs(params, n) == []
    ensures n > 0 ==>
      var env, ns, refs, p := ParameterEnv(params, n - 1), BoundNames(params, n - 1), BoundRefs(params, n - 1),
        params[n - 1];
      ParameterEnv(params, n) ==
        (if p.name in VariableNames(env) then env else env + [Typed(p.name, TypeCalled(p.typeName).value)]) &&
      BoundNames(params, n) == (if p.name in ns then ns else ns + [p.name]) &&
      BoundRefs(params, n) == if p.name in ns then refs else refs + [Param(n - 1)]
  {
    hide TypeCalled;
  }

  lemma NoParams(params: seq<ParamDeclaration>)
    ensures AreParams(params, 0, [], [])
  {
  }

  lemma MoreParams(params: seq<ParamDeclaration>, n: nat, env: seq<Typed>, refs: seq<VarRef>, more: Typed)
    requires 0 < n <= |params| && AreParams(params, n - 1, env, refs)
    requires TypeCalled(params[n - 1].typeName) == Some(more.ty)
    ensures AreParams(params, n, env, refs) && AreParams(params, n, env + [more], refs + [Param(n - 1)])
  {
    hide TypeCalled;
  }

  lemma WrittenParams(fd: FunctionDeclaration)
    ensures Written(fd.params, SignatureOf(fd).params)
  {
  }

  /** Where the body of a function starts, its parameters are the visible variables. */
  lemma BodyAgrees(root: Root, fd: FunctionDeclaration, names: Names, types: map<VarRef, Type>, errors: nat)
    requires KnownHeaders(root) && KnownHeader(fd) && (forall name :: Outside(root, names, name)) &&
      TypesAgree(root, types, [], [])
    ensures
      var st, n := BodyStart(names, types, SignatureOf(fd).params, errors), |fd.params|;
      Agrees(root, st, ParameterEnv(fd.params, n), 0, BoundRefs(fd.params, n)) && st.errors == errors
  {
    hide Outside, TypeNamed, TypeCalled, KnownHeaders, GlobalType;
    var sigParams, n := SignatureOf(fd).params, |fd.params|;
    var st := State(names, {}, types + ParamTypes(sigParams), 0, errors);
    WrittenParams(fd);
    assert Resolves(root, names, [], []) by { NothingDeclared(root, names); }
    ParametersResolve(root, st, fd.params, sigParams, 0);
    BoundTypes(fd.params, n);
    ParameterTypes(root, fd, types, ParameterEnv(fd.params, n), BoundRefs(fd.params, n));
    assert VariableNames(ParameterEnv(fd.params, n))[0..] == BoundNames(fd.params, n);
  }

  lemma NothingDeclared(root: Root, names: Names)
    requires forall name :: Outside(root, names, name)
    ensures Resolves(root, names, [], [])
  {
    forall name
      ensures M.Innermost([], name).None? && Outside(root, names, name)
    {
    }
  }

  lemma ParameterTypes(root: Root, fd: FunctionDeclaration, types: map<VarRef, Type>, env: seq<Typed>,
          refs: seq<VarRef>)
    requires KnownHeader(fd) && TypesAgree(root, types, [], []) && AreParams(fd.params, |fd.params|, env, refs)
    ensures TypesAgree(root, types + ParamTypes(SignatureOf(fd).params), env, refs)
  {
    hide TypeCalled, TypeNamed, GlobalType;
    forall i | 0 <= i < |env|
      ensures var all := types + ParamTypes(SignatureOf(fd).params); refs[i] in all && all[refs[i]] == env[i].ty
    {
      TypesCalled(fd.params[refs[i].index].typeName);
    }
  }

  /** A function records no error exactly if it is well-formed. */
  lemma {:induction false} FunctionExact(root: Root, fd: FunctionDeclaration, names: Names, types: map<VarRef, Type>,
          errors: nat)
    requires KnownHeaders(root) && KnownHeader(fd) && (forall name :: Outside(root, names, name)) &&
      TypesAgree(root, types, [], [])
    ensures var (e, isMain, _) := DoFunction(Signatures(root), names, types, fd, SignatureOf(fd), errors);
      e >= errors && (e == errors <==> WellFormedFunction(root, fd)) && (isMain <==> IsMain(fd))
  {
    hide Outside, TypesAgree, KnownHeaders, TypeNamed, BodyStart, DoAll, Agrees, AllWellFormed, ParameterEnv;
    TypesCalled(fd.typeName);
    Spelled(fd.typeName);
    var ret := TypeCalled(fd.typeName).value;
    if fd.body.Some? {
      var st := BodyStart(names, types, SignatureOf(fd).params, errors);
      BodyAgrees(root, fd, names, types, errors);
      AllExact(root, ret, st, fd.body.value, ParameterEnv(fd.params, |fd.params|), 0,
        BoundRefs(fd.params, |fd.params|));
      FlagIsSomeReturn(Signatures(root), ret, st, fd.body.value);
    }
  }

  lemma Spelled(name: string)
    ensures TypeCalled(name) == Some(Void) <==> name == "void"
    ensures TypeCalled(name) == Some(I32) <==> name == "i32"
  {
    assert TypeCalled("void") == Some(Void) && TypeCalled("i32") == Some(I32);
  }

  lemma {:induction false} FunctionsExact(root: Root, names: Names, types: map<VarRef, Type>, i: nat,
          main: Option<nat>, errors: nat)
    requires KnownHeaders(root) && (forall name :: Outside(root, names, name)) && TypesAgree(root, types, [], []) &&
      i <= |root.functions|
    ensures var (e, main1, _) := DoFunctions(root, Signatures(root), names, types, i, main, errors);
      e >= errors &&
      (e == errors <==> forall f | i <= f < |root.functions| :: WellFormedFunction(root, root.functions[f])) &&
      (main1.Some? <==> main.Some? || exists f :: i <= f < |root.functions| && IsMain(root.functions[f]))
    decreases |root.functions| - i
  {
    hide Outside, TypesAgree, DoFunction, WellFormedFunction, IsMain, KnownHeader;
    if i < |root.functions| {
      var fd := root.functions[i];
      var (e, isMain, _) := DoFunction(Signatures(root), names, types, fd, SignatureOf(fd), errors);
      FunctionExact(root, fd, names, types, errors);
      FunctionsExact(root, names, types, i + 1, if isMain then Some(i) else main, e);
    }
  }

  // The global scope.

  lemma GlobalExact(g: GlobalDeclaration)
    ensures var (t, _, e) := CheckGlobal(g);
      (e == 0 <==> GlobalType(g).Some?) && (e == 0 ==> t == GlobalType(g))
  {
    TypesCalled(g.typeName);
    if g.init.Constant? {
      assert TypeCalled(NameOf(TypeOf(ValueOf(g.init.c)))) == Some(TypeOf(ValueOf(g.init.c)));
    }
  }

  lemma {:induction false} GlobalsExact(gs: seq<GlobalDeclaration>, i: nat, types: map<VarRef, Type>,
          values: Option<seq<Value>>, errors: nat)
    requires i <= |gs| && forall k: nat | k < i :: Global(k) in types && GlobalType(gs[k]) == Some(types[Global(k)])
    ensures var (types1, _, e) := DoGlobals(gs, i, types, values, errors);
      e >= errors && (e == errors <==> forall k | i <= k < |gs| :: GlobalType(gs[k]).Some?) &&
      (e == errors ==>
         forall k: nat | k < |gs| :: Global(k) in types1 && GlobalType(gs[k]) == Some(types1[Global(k)]))
    decreases |gs| - i
  {
    hide CheckGlobal, GlobalType;
    if i < |gs| {
      var (t, v, e) := CheckGlobal(gs[i]);
      var types1 := if t.Some? then types[Global(i) := t.value] else types;
      var values1 := if v.Some? && values.Some? then Some(values.value + [v.value]) else None;
      GlobalExact(gs[i]);
      GlobalsGrow(gs, i + 1, types1, values1, errors + e);
      if e == 0 {
        GlobalsExact(gs, i + 1, types1, values1, errors);
      }
    }
  }

  /** Names are declared without an error exactly if they are new and distinct. */
  lemma {:induction false} NamesExact(st: State, entries: seq<(string, Entry)>)
    ensures AddNames(st, entries).errors == st.errors <==>
      (forall i | 0 <= i < |entries| :: entries[i].0 !in st.here) &&
      forall i, j | 0 <= i < j < |entries| :: entries[i].0 != entries[j].0
    decreases entries
  {
    NamesDistinct(st, entries);
    if entries != [] {
      var st1 := AddHere(st, entries[0].0, entries[0].1);
      NamesExact(st1, entries[1..]);
      NamesDistinct(st1, entries[1..]);
    }
  }

  lemma ScopeExact(root: Root)
    ensures GlobalScope(root).errors == 0 <==> Distinct(GlobalNames(root))
  {
    var entries, ns := GlobalEntries(root), GlobalNames(root);
    NamesExact(State(map[], {}, map[], 0, 0), entries);
    assert |entries| == |ns| && forall i | 0 <= i < |entries| :: entries[i].0 == ns[i];
  }

  lemma {:induction false} ParamsExact(params: seq<ParamDeclaration>)
    ensures UnknownParams(params) == 0 <==> forall i | 0 <= i < |params| :: TypeCalled(params[i].typeName).Some?
    decreases params
  {
    hide TypeCalled, TypeNamed;
    if params != [] {
      TypesCalled(params[0].typeName);
      ParamsExact(params[1..]);
      assert forall i | 0 < i < |params| :: params[i] == params[1..][i - 1];
    }
  }

  lemma {:induction false} HeadersExact(fds: seq<FunctionDeclaration>)
    ensures UnknownTypes(fds) == 0 <==> forall f | 0 <= f < |fds| :: KnownHeader(fds[f])
    decreases fds
  {
    hide TypeCalled, TypeNamed;
    if fds != [] {
      TypesCalled(fds[0].typeName);
      ParamsExact(fds[0].params);
      HeadersExact(fds[1..]);
      assert forall f | 0 < f < |fds| :: fds[f] == fds[1..][f - 1];
    }
  }

  /** What comes before the function bodies. */
  lemma StartExact(root: Root)
    ensures var (types, _, start) := BeforeBodies(root);
      (start == 0 <==>
         Distinct(GlobalNames(root)) && KnownHeaders(root) &&
         forall i | 0 <= i < |root.variables| :: GlobalType(root.variables[i]).Some?) &&
      (start == 0 ==> GlobalScope(root).errors == 0 && TypesAgree(root, types, [], []))
  {
    hide GlobalScope, GlobalNames, Distinct, GlobalType, KnownHeader, DoGlobals;
    ScopeExact(root);
    HeadersExact(root.functions);
    var errors := GlobalScope(root).errors + UnknownTypes(root.functions);
    GlobalsExact(root.variables, 0, map[], Some([]), errors);
  }

  /** Decorating records no error exactly for the well-formed programs. */
  lemma {:induction false} AcceptsExactly(root: Root)
    ensures LinkNames(root).errors == 0 <==> WellFormedRoot(root)
  {
    hide GlobalNames, Distinct, GlobalType, KnownHeader, DoFunctions, BeforeBodies, IsMain, TypesAgree, Outside;
    BodiesAdd(root);
    StartExact(root);
    var names := GlobalScope(root).names;
    var (types, _, start) := BeforeBodies(root);
    if start == 0 {
      forall name
        ensures Outside(root, names, name)
      {
        GlobalNamesMean(root, name);
      }
      FunctionsExact(root, names, types, 0, None, 0);
      ErrorsAre(root);
    } else {
      NotWellFormed(root);
    }
  }

  lemma ErrorsAre(root: Root)
    ensures
      var (types, _, start) := BeforeBodies(root);
      var (e, main, _) := DoFunctions(root, Signatures(root), GlobalScope(root).names, types, 0, None, start);
      LinkNames(root).errors == e + ErrorIf(main.None?)
  {
    hide DoFunctions, DoGlobals, AddNames, Signatures;
  }

  lemma NotWellFormed(root: Root)
    requires BeforeBodies(root).2 > 0
    ensures !WellFormedRoot(root)
  {
    hide GlobalNames, Distinct, GlobalType, KnownHeader, BeforeBodies, IsMain;
    StartExact(root);
    if WellFormedRoot(root) {
      forall f | 0 <= f < |root.functions|
        ensures KnownHeader(root.functions[f])
      {
        assert WellFormedFunction(root, root.functions[f]);
      }
    }
  }
}
