/** A whole program that decorates without an error means what it says. */
module ProgramMeaning {
  import opened Lang
  import opened Source
  import opened Syntax
  import opened Scopes
  import opened Checking
  import opened Elaboration
  import opened DecoratorSound
  import opened ProgramSound
  import opened MeaningSound
  import M = Meaning

  /** Names declared one after the other without an error: each is linked to its own entry. */
  lemma {:induction false} NamesAdded(st: State, entries: seq<(string, Entry)>)
    requires AddNames(st, entries).errors == st.errors && st.here == st.names.Keys
    ensures var names := AddNames(st, entries).names;
      (forall i | 0 <= i < |entries| :: entries[i].0 in names && names[entries[i].0] == entries[i].1) &&
      (forall name | name in st.names :: name in names && names[name] == st.names[name]) &&
      forall name | name in names :: name in st.names || exists i :: 0 <= i < |entries| && entries[i].0 == name
    decreases entries
  {
    if entries != [] {
      NamesDistinct(st, entries);
      var st1 := AddHere(st, entries[0].0, entries[0].1);
      NamesAdded(st1, entries[1..]);
      var names := AddNames(st, entries).names;
      forall i | 1 <= i < |entries|
        ensures entries[i].0 in names && names[entries[i].0] == entries[i].1
      {
        assert entries[i] == entries[1..][i - 1];
      }
      forall name | name in names && name !in st.names
        ensures exists i :: 0 <= i < |entries| && entries[i].0 == name
      {
        if name !in st1.names {
          var i :| 0 <= i < |entries[1..]| && entries[1..][i].0 == name;
          assert entries[i + 1].0 == name;
        } else {
          assert entries[0].0 == name;
        }
      }
    }
  }

  /** The global scope links names to global variables and functions, and to nothing else. */
  lemma GlobalNamesMean(root: Root, name: string)
    requires GlobalScope(root).errors == 0
    ensures Outside(root, GlobalScope(root).names, name)
  {
    var entries, n, names := GlobalEntries(root), |root.variables|, GlobalScope(root).names;
    var st := State(map[], {}, map[], 0, 0);
    NamesAdded(st, entries);
    NamesDistinct(st, entries);
    var g, f := M.GlobalNamed(root, name), M.FunctionNamed(root, name);
    if g.Some? {
      assert entries[g.value] == (name, VarEntry(Global(g.value)));
    } else if f.Some? {
      assert entries[n + f.value] == (name, FunEntry(f.value));
    } else if name in names {
      var i :| 0 <= i < |entries| && entries[i].0 == name;
      NotFound(root, name, i);
    }
  }

  lemma NotFound(root: Root, name: string, i: nat)
    requires M.GlobalNamed(root, name).None? && M.FunctionNamed(root, name).None? && i < |GlobalEntries(root)|
    ensures GlobalEntries(root)[i].0 != name
  {
  }

  lemma FunctionGrows(root: Root, names: Names, types: map<VarRef, Type>, fd: FunctionDeclaration, sig: Signature,
          errors: nat)
    ensures DoFunction(Signatures(root), names, types, fd, sig, errors).0 >= errors
  {
    if sig.returnType.Some? && fd.body.Some? {
      AddParamsErrors(State(names, {}, types + ParamTypes(sig.params), 0, errors), sig.params, 0);
      AllGrow(Signatures(root), sig.returnType.value, BodyStart(names, types, sig.params, errors), fd.body.value);
    }
  }

  /** Function `k` of the program comes from function `i + k` of the tree. */
  predicate ComesFrom(root: Root, names: Names, types: map<VarRef, Type>, i: nat, t: FunDecl)
    requires i < |root.functions|
  {
    var (errors, _, code) := DoFunction(Signatures(root), names, types, root.functions[i], Signatures(root)[i], 0);
    errors == 0 && code == Some(t)
  }

  lemma {:induction false} FunctionsComeFrom(root: Root, names: Names, types: map<VarRef, Type>, i: nat,
          main: Option<nat>, errors: nat)
    requires i <= |root.functions|
    requires var r := DoFunctions(root, Signatures(root), names, types, i, main, errors); r.0 == 0 && r.2.Some?
    ensures var fds := DoFunctions(root, Signatures(root), names, types, i, main, errors).2.value;
      errors == 0 && |fds| == |root.functions| - i &&
      forall k | 0 <= k < |fds| :: ComesFrom(root, names, types, i + k, fds[k])
    decreases |root.functions| - i
  {
    hide DoFunction;
    if i < |root.functions| {
      var fd, sig := root.functions[i], Signatures(root)[i];
      var (e, isMain, t) := DoFunction(Signatures(root), names, types, fd, sig, errors);
      FunctionGrows(root, names, types, fd, sig, errors);
      FunctionsComeFrom(root, names, types, i + 1, if isMain then Some(i) else main, e);
    }
  }

  lemma FunctionIsLinked(x: Linkage, f: nat)
    requires f < |x.p.funs| == |x.root.functions| && ComesFrom(x.root, x.names, x.types, f, x.p.funs[f])
    ensures FunctionLinked(x, f)
  {
    hide DoBody, BodyStart;
    KnownTypesAre(Signatures(x.root)[f].params);
  }

  /** A tree that decorates without an error, with the program it becomes. */
  function LinkageOf(root: Root): Linkage
    requires LinkNames(root).errors == 0
  {
    LinkNamesSound(root);
    Linkage(root, LinkNames(root).program.value, GlobalScope(root).names, BeforeBodies(root).0)
  }

  lemma {:induction false} GlobalsGrow(gs: seq<GlobalDeclaration>, i: nat, types: map<VarRef, Type>,
          values: Option<seq<Value>>, errors: nat)
    ensures DoGlobals(gs, i, types, values, errors).2 >= errors
    decreases |gs| - i
  {
    if i < |gs| {
      var (t, v, e) := CheckGlobal(gs[i]);
      GlobalsGrow(gs, i + 1, if t.Some? then types[Global(i) := t.value] else types,
        if v.Some? && values.Some? then Some(values.value + [v.value]) else None, errors + e);
    }
  }

  /** What decorating a tree without an error comes to. */
  lemma DecorationIs(root: Root)
    requires LinkNames(root).errors == 0
    ensures
      var (types, globals, start) := BeforeBodies(root);
      var (e, main, funs) := DoFunctions(root, Signatures(root), GlobalScope(root).names, types, 0, None, start);
      GlobalScope(root).errors == 0 && start == 0 && e == 0 && globals.Some? && funs.Some? &&
      LinkageOf(root).p == Program(globals.value, funs.value)
  {
    hide DoFunctions, DoGlobals, GlobalScope, SameHeaders;
    BodiesAdd(root);
    GlobalsGrow(root.variables, 0, map[], Some([]), GlobalScope(root).errors + UnknownTypes(root.functions));
    LinkNamesSound(root);
    var (types, globals, start) := BeforeBodies(root);
    var (e, main, funs) := DoFunctions(root, Signatures(root), GlobalScope(root).names, types, 0, None, start);
    SomeOfBoth(root);
  }

  lemma SomeOfBoth(root: Root)
    requires LinkNames(root).program.Some?
    ensures
      var (types, globals, start) := BeforeBodies(root);
      globals.Some? && DoFunctions(root, Signatures(root), GlobalScope(root).names, types, 0, None, start).2.Some?
  {
    hide DoFunctions, DoGlobals, AddNames, GlobalEntries, UnknownTypes;
  }

  lemma RootIsLinked(root: Root)
    requires LinkNames(root).errors == 0
    ensures Linked(LinkageOf(root))
  {
    hide DoFunctions, BeforeBodies, FunctionLinked, ComesFrom, Outside, LinkNames;
    var x := LinkageOf(root);
    var (types, globals, start) := BeforeBodies(root);
    DecorationIs(root);
    FunctionsComeFrom(root, x.names, types, 0, None, start);
    forall f | 0 <= f < |x.p.funs|
      ensures FunctionLinked(x, f)
    {
      FunctionIsLinked(x, f);
    }
    forall name
      ensures Outside(root, x.names, name)
    {
      GlobalNamesMean(root, name);
    }
  }

  /** The written program runs function `f`. */
  function RunWritten(root: Root, h: Host, f: nat, args: seq<Value>, w: World, fuel: nat): Res<Value> {
    M.CallFunction(root, h, f, args, w, fuel + 1)
  }

  /** Decorating keeps the meaning: every call of every function ends exactly as in the written program, for every
      amount of fuel, with the same result, globals and extern calls. */
  lemma DecoratedMeans(root: Root, h: Host, f: nat, args: seq<Value>, w: World, fuel: nat)
    requires LinkNames(root).errors == 0
    ensures Invoke(LinkageOf(root).p, h, f, args, w, fuel + 1) == RunWritten(root, h, f, args, w, fuel)
  {
    RootIsLinked(root);
    FunctionMeans(LinkageOf(root), h, f, args, w, fuel + 1);
  }

  /** The constants global variables start with. */
  function InitialGlobals(root: Root): seq<Value>
    requires forall i | 0 <= i < |root.variables| :: root.variables[i].init.Constant?
  {
    seq(|root.variables|, i requires 0 <= i < |root.variables| => ValueOf(root.variables[i].init.c))
  }

  lemma {:induction false} GlobalsAre(gs: seq<GlobalDeclaration>, i: nat, types: map<VarRef, Type>, values: seq<Value>,
          errors: nat)
    requires i <= |gs| && |values| == i && DoGlobals(gs, i, types, Some(values), errors).2 == 0
    requires forall k | 0 <= k < i :: gs[k].init.Constant? && values[k] == ValueOf(gs[k].init.c)
    ensures var r := DoGlobals(gs, i, types, Some(values), errors).1;
      r.Some? && |r.value| == |gs| && forall k | 0 <= k < |gs| ::
        gs[k].init.Constant? && r.value[k] == ValueOf(gs[k].init.c)
    decreases |gs| - i
  {
    if i < |gs| {
      var (t, v, e) := CheckGlobal(gs[i]);
      var types1 := if t.Some? then types[Global(i) := t.value] else types;
      GlobalsGrow(gs, i + 1, types1, if v.Some? then Some(values + [v.value]) else None, errors + e);
      GlobalsAre(gs, i + 1, types1, values + [v.value], errors + e);
    }
  }

  /** The globals of the decorated program are the written ones, in their order and with their initial values. */
  lemma GlobalsAreWritten(root: Root)
    requires LinkNames(root).errors == 0
    ensures forall i | 0 <= i < |root.variables| :: root.variables[i].init.Constant?
    ensures LinkageOf(root).p.globals == InitialGlobals(root)
  {
    hide DoFunctions, LinkNames;
    DecorationIs(root);
    GlobalsAre(root.variables, 0, map[], [], GlobalScope(root).errors + UnknownTypes(root.functions));
  }
}
