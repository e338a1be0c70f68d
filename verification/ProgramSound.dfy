/** Soundness of decorating a whole program. */
module ProgramSound {
  import opened Lang
  import opened Syntax
  import opened Scopes
  import opened Checking
  import opened CheckSound
  import opened Elaboration
  import opened DecoratorSound
  import opened Typing

  /** The default values that calls use have the types of their parameters, which the decorator does not check. */
  predicate CallsMatch(root: Root) {
    forall f | 0 <= f < |root.functions| :: BodyMatches(Signatures(root), root.functions[f])
  }

  predicate BodyMatches(fs: seq<Signature>, fd: FunctionDeclaration) {
    fd.body.Some? ==> UsesMatchInAll(fs, fd.body.value)
  }

  /** No body rests on the decorator's rule for an `if` without else part. */
  predicate FlagsHold(root: Root) {
    forall f | 0 <= f < |root.functions| :: BodyFlagHolds(root.functions[f])
  }

  predicate BodyFlagHolds(fd: FunctionDeclaration) {
    fd.body.Some? ==> FlagHolds(fd.body.value)
  }

  /** `str` occurs nowhere, and globals are numbers. */
  predicate SupportedRoot(root: Root) {
    (forall i | 0 <= i < |root.variables| :: NumericGlobal(root.variables[i])) &&
    (forall f | 0 <= f < |root.functions| :: StrFreeFunction(root.functions[f]))
  }

  predicate NumericGlobal(g: GlobalDeclaration) {
    g.init.Constant? ==> g.init.c.IntConst? || g.init.c.FloatConst?
  }

  predicate StrFreeFunction(fd: FunctionDeclaration) {
    fd.typeName != "str" && BodyStrFree(fd) &&
    forall i | 0 <= i < |fd.params| ::
      fd.params[i].typeName != "str" && (fd.params[i].default.Some? ==> !fd.params[i].default.value.StringConst?)
  }

  lemma {:induction false} ParamsNamed(params: seq<ParamDeclaration>)
    requires UnknownParams(params) == 0
    ensures forall i | 0 <= i < |params| :: TypeNamed(params[i].typeName).Some?
    decreases params
  {
    if params != [] {
      ParamsNamed(params[1..]);
      assert forall i | 1 <= i < |params| :: params[i] == params[1..][i - 1];
    }
  }

  /** Every type name of a signature is known. */
  predicate Named(fd: FunctionDeclaration) {
    TypeNamed(fd.typeName).Some? && KnownTypes(SignatureOf(fd).params).Some?
  }

  lemma {:induction false} AllNamed(fds: seq<FunctionDeclaration>)
    requires UnknownTypes(fds) == 0
    ensures forall f | 0 <= f < |fds| :: Named(fds[f])
    decreases fds
  {
    if fds != [] {
      ParamsNamed(fds[0].params);
      KnownTypesAre(SignatureOf(fds[0]).params);
      AllNamed(fds[1..]);
      assert forall f | 1 <= f < |fds| :: fds[f] == fds[1..][f - 1];
    }
  }

  function ParamsOf(fd: FunctionDeclaration): (ts: seq<Type>)
    requires Named(fd)
  {
    KnownTypes(SignatureOf(fd).params).value
  }

  /** The signatures, before any body has been decorated. */
  function Headers(root: Root, globals: seq<Value>): Program
    requires forall f | 0 <= f < |root.functions| :: Named(root.functions[f])
  {
    Program(globals, seq(|root.functions|, f requires 0 <= f < |root.functions| =>
      FunDecl(ParamsOf(root.functions[f]), TypeNamed(root.functions[f].typeName).value, root.functions[f].body.None?,
        [])))
  }

  predicate SameHeader(fd: FunctionDeclaration, t: FunDecl) {
    Named(fd) && t.params == ParamsOf(fd) && Some(t.returnType) == TypeNamed(fd.typeName)
  }

  predicate SameHeaders(root: Root, p: Program) {
    |p.funs| == |root.functions| &&
      forall f {:trigger p.funs[f]} | 0 <= f < |p.funs| :: SameHeader(root.functions[f], p.funs[f])
  }

  lemma HeaderKnown(v: View, fd: FunctionDeclaration, t: FunDecl)
    requires SameHeader(fd, t) && (v.strFree ==> StrFreeFunction(fd))
    ensures SignatureKnown(v, SignatureOf(fd), t)
  {
    KnownTypesAre(SignatureOf(fd).params);
  }

  predicate DistinctFunctions(root: Root) {
    forall f, g | 0 <= f < g < |root.functions| :: root.functions[f].name != root.functions[g].name
  }

  lemma HeadersKnown(v: View, root: Root)
    requires v.fs == Signatures(root) && SameHeaders(root, v.p) && DistinctFunctions(root) &&
      (v.strFree ==> SupportedRoot(root))
    ensures FunctionsKnown(v)
  {
    forall f | 0 <= f < |v.p.funs|
      ensures SignatureKnown(v, v.fs[f], v.p.funs[f])
    {
      HeaderKnown(v, root.functions[f], v.p.funs[f]);
    }
  }

  // Globals.

  /** The first `i` globals have their types and initial values. */
  ghost predicate GlobalsDone(i: nat, types: map<VarRef, Type>, values: Option<seq<Value>>, strFree: bool) {
    values.Some? && |values.value| == i &&
      (forall k | 0 <= k < i :: HasType(values.value[k], TypeOf(values.value[k]))) &&
    (forall k: nat | k < i :: Global(k) in types) &&
    (forall x | x in types ::
      x.Global? && x.index < i && types[x] == TypeOf(values.value[x.index]) && (strFree ==> IsNumerical(types[x])))
  }

  lemma {:induction false} GlobalsSound(gs: seq<GlobalDeclaration>, i: nat, types: map<VarRef, Type>,
          values: Option<seq<Value>>, errors: nat, strFree: bool)
    requires i <= |gs| && (strFree ==> forall k | 0 <= k < |gs| :: NumericGlobal(gs[k]))
    requires errors == 0 ==> GlobalsDone(i, types, values, strFree)
    ensures var (types1, values1, e) := DoGlobals(gs, i, types, values, errors);
      e >= errors && (e == 0 ==> GlobalsDone(|gs|, types1, values1, strFree))
    decreases |gs| - i
  {
    if i < |gs| {
      var (t, v, e) := CheckGlobal(gs[i]);
      var types1 := if t.Some? then types[Global(i) := t.value] else types;
      var values1 := if v.Some? && values.Some? then Some(values.value + [v.value]) else None;
      if errors + e == 0 {
        GlobalDone(gs[i], i, types, values.value, strFree);
      }
      GlobalsSound(gs, i + 1, types1, values1, errors + e, strFree);
    }
  }

  lemma GlobalDone(g: GlobalDeclaration, i: nat, types: map<VarRef, Type>, values: seq<Value>, strFree: bool)
    requires GlobalsDone(i, types, Some(values), strFree) && CheckGlobal(g).2 == 0 && (strFree ==> NumericGlobal(g))
    ensures var (t, v, _) := CheckGlobal(g);
      t.Some? && v.Some? && GlobalsDone(i + 1, types[Global(i) := t.value], Some(values + [v.value]), strFree)
  {
    var (t, v, _) := CheckGlobal(g);
    assert t == Some(TypeOf(v.value));
    var all := values + [v.value];
    assert forall k | 0 <= k < i :: all[k] == values[k];
  }

  predicate EntryOk(root: Root, name: string, e: Entry) {
    if e.VarEntry? then e.x.Global? && e.x.index < |root.variables|
    else e.index < |root.functions| && root.functions[e.index].name == name
  }

  lemma {:induction false} NamesSound(root: Root, st: State, entries: seq<(string, Entry)>)
    requires forall i | 0 <= i < |entries| :: EntryOk(root, entries[i].0, entries[i].1)
    requires forall name | name in st.names :: EntryOk(root, name, st.names[name])
    ensures var st1 := AddNames(st, entries);
      st1.errors >= st.errors && forall name | name in st1.names :: EntryOk(root, name, st1.names[name])
    decreases entries
  {
    if entries != [] {
      NamesSound(root, AddHere(st, entries[0].0, entries[0].1), entries[1..]);
    }
  }

  /** Names declared without an error are distinct. */
  lemma {:induction false} NamesDistinct(st: State, entries: seq<(string, Entry)>)
    ensures var st1 := AddNames(st, entries);
      st1.errors >= st.errors &&
      (st1.errors == st.errors ==>
         (forall i | 0 <= i < |entries| :: entries[i].0 !in st.here) &&
           forall i, j | 0 <= i < j < |entries| :: entries[i].0 != entries[j].0)
    decreases entries
  {
    if entries != [] {
      var st1 := AddHere(st, entries[0].0, entries[0].1);
      NamesDistinct(st1, entries[1..]);
      if AddNames(st1, entries[1..]).errors == st.errors {
        forall i | 1 <= i < |entries|
          ensures entries[i].0 !in st.here && entries[i].0 != entries[0].0
        {
          assert entries[i] == entries[1..][i - 1];
        }
        forall i, j | 1 <= i < j < |entries|
          ensures entries[i].0 != entries[j].0
        {
          assert entries[i] == entries[1..][i - 1] && entries[j] == entries[1..][j - 1];
        }
      }
    }
  }

  lemma FunctionsDistinct(root: Root)
    requires GlobalScope(root).errors == 0
    ensures DistinctFunctions(root)
  {
    var entries, n := GlobalEntries(root), |root.variables|;
    NamesDistinct(State(map[], {}, map[], 0, 0), entries);
    forall f, g | 0 <= f < g < |root.functions|
      ensures root.functions[f].name != root.functions[g].name
    {
      assert entries[n + f].0 == root.functions[f].name && entries[n + g].0 == root.functions[g].name;
    }
  }

  // Functions.

  predicate MainOk(root: Root, main: Option<nat>) {
    main.Some? ==> main.value < |root.functions| &&
                   var fd := root.functions[main.value];
                     fd.name == "main" && fd.params == [] && TypeNamed(fd.typeName) == Some(I32)
  }

  function ViewOf(root: Root, p: Program, fd: FunctionDeclaration, strFree: bool): View
    requires Named(fd)
  {
    FunctionView(Signatures(root), p, ParamsOf(fd), strFree)
  }

  ghost predicate Done(p: Program, root: Root, fd: FunctionDeclaration, strFree: bool, t: FunDecl) {
    Named(fd) && FunctionDone(ViewOf(root, p, fd, strFree), fd, SignatureOf(fd), t)
  }

  ghost predicate AllFunctionsDone(p: Program, root: Root, strFree: bool, i: nat, fds: seq<FunDecl>) {
    i + |fds| == |root.functions| && forall k | 0 <= k < |fds| :: Done(p, root, root.functions[i + k], strFree, fds[k])
  }

  lemma {:induction false} OneFunctionSound(p: Program, root: Root, names: Names, types: map<VarRef, Type>,
          strFree: bool, i: nat, errors: nat)
    requires SameHeaders(root, p) && DistinctFunctions(root) && GlobalsKnown(Signatures(root), p, names, types, strFree)
    requires (strFree ==> SupportedRoot(root)) && i < |root.functions|
    ensures var (e, isMain, t) :=
      DoFunction(Signatures(root), names, types, root.functions[i], Signatures(root)[i], errors);
      e >= errors && (isMain ==> MainOk(root, Some(i))) &&
        (e == 0 ==> t.Some? && Done(p, root, root.functions[i], strFree, t.value))
  {
    hide FunctionDone, DoFunction, GlobalsKnown, FunctionsKnown;
    var fd := root.functions[i];
    assert SameHeader(fd, p.funs[i]);
    var v := ViewOf(root, p, fd, strFree);
    HeadersKnown(v, root);
    KnownTypesAre(SignatureOf(fd).params);
    assert strFree ==> StrFreeFunction(fd);
    FunctionSound(v, Signatures(root), names, types, fd, SignatureOf(fd), ParamsOf(fd), errors);
  }

  lemma {:induction false} FunctionsSound(p: Program, root: Root, names: Names, types: map<VarRef, Type>, strFree: bool,
          i: nat, main: Option<nat>, errors: nat)
    requires SameHeaders(root, p) && DistinctFunctions(root) && GlobalsKnown(Signatures(root), p, names, types, strFree)
    requires (strFree ==> SupportedRoot(root)) && MainOk(root, main) && i <= |root.functions|
    ensures var (e, main1, fds) := DoFunctions(root, Signatures(root), names, types, i, main, errors);
      e >= errors && MainOk(root, main1) && (e == 0 ==> fds.Some? && AllFunctionsDone(p, root, strFree, i, fds.value))
    decreases |root.functions| - i
  {
    hide Done, DoFunction, GlobalsKnown, SameHeaders, SupportedRoot, MainOk, DistinctFunctions;
    if i < |root.functions| {
      OneFunctionSound(p, root, names, types, strFree, i, errors);
      var (e, isMain, t) := DoFunction(Signatures(root), names, types, root.functions[i], Signatures(root)[i], errors);
      FunctionsSound(p, root, names, types, strFree, i + 1, if isMain then Some(i) else main, e);
    }
  }

  /** Types, initial values and errors before the first function body. */
  function BeforeBodies(root: Root): (map<VarRef, Type>, Option<seq<Value>>, nat) {
    DoGlobals(root.variables, 0, map[], Some([]), GlobalScope(root).errors + UnknownTypes(root.functions))
  }

  function GlobalScope(root: Root): State {
    AddNames(State(map[], {}, map[], 0, 0), GlobalEntries(root))
  }

  /** The global scope, if no error has been recorded before the first function body. */
  lemma GlobalScopeSound(root: Root, strFree: bool)
    requires BeforeBodies(root).2 == 0 && (strFree ==> SupportedRoot(root))
    ensures
      var (types, values, _) := BeforeBodies(root);
      (forall f | 0 <= f < |root.functions| :: Named(root.functions[f])) && DistinctFunctions(root) && values.Some? &&
      (forall k | 0 <= k < |values.value| :: HasType(values.value[k], TypeOf(values.value[k]))) &&
      (strFree ==> forall k | 0 <= k < |values.value| :: IsNumerical(TypeOf(values.value[k]))) &&
      forall p: Program | p.globals == values.value ::
        GlobalsKnown(Signatures(root), p, GlobalScope(root).names, types, strFree)
  {
    hide GlobalsKnown, GlobalEntries, Named, DistinctFunctions, EntryOk;
    assert forall i | 0 <= i < |GlobalEntries(root)| ::
      EntryOk(root, GlobalEntries(root)[i].0, GlobalEntries(root)[i].1) by {
      EntriesOk(root);
    }
    NamesSound(root, State(map[], {}, map[], 0, 0), GlobalEntries(root));
    GlobalsSound(root.variables, 0, map[], Some([]), GlobalScope(root).errors + UnknownTypes(root.functions), strFree);
    FunctionsDistinct(root);
    AllNamed(root.functions);
    var (types, values, _) := BeforeBodies(root);
    forall k: nat | k < |values.value|
      ensures strFree ==> IsNumerical(TypeOf(values.value[k]))
    {
      assert Global(k) in types;
    }
    forall p: Program | p.globals == values.value
      ensures GlobalsKnown(Signatures(root), p, GlobalScope(root).names, types, strFree)
    {
      ScopeKnown(root, p, GlobalScope(root).names, types, strFree);
    }
  }

  lemma EntriesOk(root: Root)
    ensures forall i | 0 <= i < |GlobalEntries(root)| ::
      EntryOk(root, GlobalEntries(root)[i].0, GlobalEntries(root)[i].1)
  {
  }

  lemma ScopeKnown(root: Root, p: Program, names: Names, types: map<VarRef, Type>, strFree: bool)
    requires GlobalsDone(|root.variables|, types, Some(p.globals), strFree)
    requires forall name | name in names :: EntryOk(root, name, names[name])
    ensures GlobalsKnown(Signatures(root), p, names, types, strFree)
  {
  }

  lemma DoneHeaders(p: Program, root: Root, strFree: bool, fds: seq<FunDecl>)
    requires AllFunctionsDone(p, root, strFree, 0, fds)
    ensures SameHeaders(root, p.(funs := fds))
  {
    forall f | 0 <= f < |fds|
      ensures SameHeader(root.functions[f], fds[f])
    {
      assert Done(p, root, root.functions[f], strFree, fds[f]);
    }
  }

  /** The bodies that return on every path are those whose flags hold. */
  predicate ReturnAsFlagged(root: Root, p: Program) {
    |p.funs| == |root.functions| &&
    forall f | 0 <= f < |p.funs| ::
      (!p.funs[f].isExtern ==> AnyReturns(p.funs[f].body)) <==> BodyFlagHolds(root.functions[f])
  }

  lemma DoneTyped(p: Program, root: Root, strFree: bool)
    requires SameHeaders(root, p) && AllFunctionsDone(p, root, strFree, 0, p.funs)
    requires forall k | 0 <= k < |p.globals| :: HasType(p.globals[k], TypeOf(p.globals[k]))
    requires strFree ==> forall k | 0 <= k < |p.globals| :: IsNumerical(TypeOf(p.globals[k]))
    ensures (TypedProgram(p) <==> CallsMatch(root)) && ReturnAsFlagged(root, p) && (strFree ==> Lowerable(p))
  {
    forall f | 0 <= f < |p.funs|
      ensures TypedFunction(p, p.funs[f]) <==> BodyMatches(Signatures(root), root.functions[f])
      ensures (!p.funs[f].isExtern ==> AnyReturns(p.funs[f].body)) <==> BodyFlagHolds(root.functions[f])
      ensures strFree && !p.funs[f].isExtern ==>
        AllSupported(p.funs[f].body) && AllDeclared(p.funs[f].body, |p.funs[f].params|, {}, 0)
    {
      var fd := root.functions[f];
      assert Done(p, root, fd, strFree, p.funs[f]);
      assert SameHeader(fd, p.funs[f]);
      assert FunctionContext(p, p.funs[f]) == ViewOf(root, p, fd, strFree).ctx;
    }
  }

  lemma {:induction false} FunctionsAdd(root: Root, names: Names, types: map<VarRef, Type>, i: nat, main: Option<nat>,
          errors: nat)
    ensures DoFunctions(root, Signatures(root), names, types, i, main, errors).0 >= errors
    decreases |root.functions| - i
  {
    if i < |root.functions| {
      var fd, sig := root.functions[i], Signatures(root)[i];
      if errors > 0 && sig.returnType.Some? && fd.body.Some? {
        var st := BodyStart(names, types, sig.params, errors);
        AddParamsErrors(State(names, {}, types + ParamTypes(sig.params), 0, errors), sig.params, 0);
        BodySound(View([], Program([], []), map[], 0, {}, false), Signatures(root), sig.returnType.value, st,
          fd.body.value);
      }
      var (e, isMain, _) := DoFunction(Signatures(root), names, types, fd, sig, errors);
      FunctionsAdd(root, names, types, i + 1, if isMain then Some(i) else main, e);
    }
  }

  /** The steps of decorating a program; function bodies only add to the errors. */
  lemma BodiesAdd(root: Root)
    ensures
      var d := LinkNames(root);
      var (types, globals, start) := BeforeBodies(root);
      var (e, main, funs) := DoFunctions(root, Signatures(root), GlobalScope(root).names, types, 0, None, start);
      d.errors >= start && (d.errors == 0 ==> e == 0 && main.Some?) && d.main == main &&
      (globals.Some? && funs.Some? ==> d.program == Some(Program(globals.value, funs.value)))
  {
    var (types, _, start) := BeforeBodies(root);
    FunctionsAdd(root, GlobalScope(root).names, types, 0, None, start);
  }

  /** Decorating without an error yields a program and its main function. The program is typed if and only if
      the default values its calls use have their parameters' types, a body returns on every path if and only if
      its flag holds, and both lowerings accept the program if the tree is one they support. */
  lemma LinkNamesSound(root: Root)
    requires LinkNames(root).errors == 0
    ensures var d := LinkNames(root);
      d.program.Some? && d.main.Some? && MainOk(root, d.main) && SameHeaders(root, d.program.value) &&
      (TypedProgram(d.program.value) <==> CallsMatch(root)) && (BodiesReturn(d.program.value) <==> FlagsHold(root)) &&
        ReturnAsFlagged(root, d.program.value) &&
      (SupportedRoot(root) ==> Lowerable(d.program.value))
  {
    hide GlobalsKnown, BeforeBodies, GlobalScope, DoFunctions, AllFunctionsDone;
    var names := GlobalScope(root).names;
    var (types, globals, start) := BeforeBodies(root);
    BodiesAdd(root);
    GlobalScopeSound(root, false);
    GlobalScopeSound(root, SupportedRoot(root));
    var p := Headers(root, globals.value);
    FunctionsSound(p, root, names, types, false, 0, None, start);
    var q := p.(funs := DoFunctions(root, Signatures(root), names, types, 0, None, start).2.value);
    DoneHeaders(p, root, false, q.funs);
    FunctionsSound(q, root, names, types, SupportedRoot(root), 0, None, start);
    DoneTyped(q, root, SupportedRoot(root));
  }
}
