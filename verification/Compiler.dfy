/** From the syntax tree to both targets. */
module Compiler {
  import opened Lang
  import opened Source
  import opened Machine
  import opened Syntax
  import opened Typing
  import opened Preservation
  import opened Agreement
  import opened Scopes
  import opened Elaboration
  import opened DecoratorSound
  import opened ProgramSound
  import opened MeaningSound
  import opened ProgramMeaning
  import opened Reachability
  import opened ValidModule

  /** A tree the compiler accepts and both lowerings support. */
  predicate Accepted(root: Root) {
    LinkNames(root).errors == 0 && SupportedRoot(root)
  }

  function ProgramOf(root: Root): Program
    requires Accepted(root)
  {
    LinkNamesSound(root);
    LinkNames(root).program.value
  }

  /** A value of a named type. */
  predicate OfType(v: Value, typeName: string) {
    TypeNamed(typeName).Some? && HasType(v, TypeNamed(typeName).value)
  }

  predicate SuitArguments(fd: FunctionDeclaration, args: seq<Value>) {
    |args| == |fd.params| && forall i | 0 <= i < |args| :: OfType(args[i], fd.params[i].typeName)
  }

  /** Globals have the types of their initial values. */
  predicate SuitGlobals(root: Root, globals: seq<Value>) {
    |globals| == |root.variables| && forall i | 0 <= i < |globals| ::
      root.variables[i].init.Constant? ==> HasType(globals[i], TypeOf(ValueOf(root.variables[i].init.c)))
  }

  /** Extern functions return values of their declared types. */
  ghost predicate SuitHost(root: Root, h: Host) {
    forall f: nat, args, w :: f < |root.functions| && root.functions[f].body.None? ==>
      OfType(h.ext(f, args, w), root.functions[f].typeName)
  }

  /** A call of a defined function with arguments, globals and extern functions of the right types. */
  ghost predicate Suits(root: Root, h: Host, f: nat, args: seq<Value>, w: World) {
    f < |root.functions| && root.functions[f].body.Some? && SuitArguments(root.functions[f], args) &&
    SuitGlobals(root, w.globals) && SuitHost(root, h)
  }

  lemma HeaderIs(root: Root, f: nat)
    requires Accepted(root) && f < |root.functions|
    ensures |ProgramOf(root).funs| == |root.functions|
    ensures
      var fd, t := root.functions[f], ProgramOf(root).funs[f];
      t.isExtern == fd.body.None? && |t.params| == |fd.params| && TypeNamed(fd.typeName) == Some(t.returnType) &&
      forall i | 0 <= i < |t.params| :: TypeNamed(fd.params[i].typeName) == Some(t.params[i])
  {
    hide LinkNames, SupportedRoot, FunctionLinked, SameHeader, CallsMatch, FlagsHold;
    LinkNamesSound(root);
    RootIsLinked(root);
    ExternIs(LinkageOf(root), f);
    HeaderTypes(root.functions[f], ProgramOf(root).funs[f]);
  }

  lemma ExternIs(x: Linkage, f: nat)
    requires Linked(x) && f < |x.p.funs|
    ensures x.p.funs[f].isExtern == x.root.functions[f].body.None?
  {
    assert FunctionLinked(x, f);
  }

  lemma HeaderTypes(fd: FunctionDeclaration, t: FunDecl)
    requires SameHeader(fd, t)
    ensures |t.params| == |fd.params| && TypeNamed(fd.typeName) == Some(t.returnType) &&
      forall i | 0 <= i < |t.params| :: TypeNamed(fd.params[i].typeName) == Some(t.params[i])
  {
    KnownTypesAre(SignatureOf(fd).params);
  }

  /** What suits the tree suits the decorated program. */
  lemma SuitsProgram(root: Root, h: Host, f: nat, args: seq<Value>, w: World)
    requires Accepted(root) && Suits(root, h, f, args, w)
    ensures
      var p := ProgramOf(root);
      Callable(p, f, args) && TypedValues(args, p.funs[f].params) && TypedWorld(p, w) && TypedHost(p, h)
  {
    hide Accepted, ProgramOf, LinkageOf;
    var p := ProgramOf(root);
    HeaderIs(root, f);
    forall k: nat, vs, w1 | k < |p.funs| && p.funs[k].isExtern
      ensures HasType(h.ext(k, vs, w1), p.funs[k].returnType)
    {
      HeaderIs(root, k);
      assert OfType(h.ext(k, vs, w1), root.functions[k].typeName);
    }
    GlobalsSuit(root, w);
  }

  lemma GlobalsSuit(root: Root, w: World)
    requires Accepted(root) && SuitGlobals(root, w.globals)
    ensures TypedWorld(ProgramOf(root), w)
  {
    GlobalsAreWritten(root);
  }

  /** The written program ends a call of function `f` like this, as the machine would report it. */
  ghost predicate WrittenEnds(root: Root, h: Host, f: nat, args: seq<Value>, w: World, r: Config) {
    exists fuel: nat :: Observed(RunWritten(root, h, f, args, w, fuel)) == Some(r)
  }

  lemma WrittenIsSource(root: Root, h: Host, f: nat, args: seq<Value>, w: World, r: Config)
    requires Accepted(root)
    ensures WrittenEnds(root, h, f, args, w, r) <==> SourceEnds(ProgramOf(root), h, f, args, w, r)
  {
    forall fuel: nat
      ensures RunSource(ProgramOf(root), h, f, args, w, fuel) == RunWritten(root, h, f, args, w, fuel)
    {
      DecoratedMeans(root, h, f, args, w, fuel);
    }
  }

  /** A run of the written program is never stuck, and a result has the declared type. */
  ghost predicate RunsWell(root: Root, h: Host, f: nat, args: seq<Value>, w: World, fuel: nat)
    requires f < |root.functions|
  {
    var r := RunWritten(root, h, f, args, w, fuel);
    r != Stuck && (r.Ok? ==> OfType(r.value, root.functions[f].typeName)) && (FlagsHold(root) ==> r != FellOff)
  }

  /** If the default values an accepted tree uses have their parameters' types, the written program runs well, and the
      IR module ends each call of each function exactly as the written program does: result, globals, extern calls and
      faults, and Wrong where a function ends without a return. A module that LLVM takes does so too, if no void
      expression is returned. */
  lemma AcceptedTreesRun(root: Root, h: Host, f: nat, args: seq<Value>, w: World, fuel: nat, r: Config)
    requires Accepted(root) && CallsMatch(root) && Suits(root, h, f, args, w)
    ensures RunsWell(root, h, f, args, w, fuel)
    ensures MachineEnds(IRModule(ProgramOf(root)), h, f, args, w, r) <==> WrittenEnds(root, h, f, args, w, r)
    ensures FlagsHold(root) ==> !MachineEnds(IRModule(ProgramOf(root)), h, f, args, w, Wrong)
    ensures ValidLlvm(ProgramOf(root)) && ReturnsNoVoid(ProgramOf(root)) ==>
      (MachineEnds(LlvmModule(ProgramOf(root)), h, f, args, w, r) <==> WrittenEnds(root, h, f, args, w, r))
  {
    hide MachineEnds, SourceEnds, RunSource, ValidLlvm, BodiesReturn, FlagsHold, FallsOff, WrittenEnds, RunWritten;
    hide Suits, RunsWell, CallsMatch, TypedProgram;
    var p := ProgramOf(root);
    ItRunsWell(root, h, f, args, w, fuel);
    SuitsProgram(root, h, f, args, w);
    LinkNamesSound(root);
    IRPreserves(p, h, f, args, w, r);
    WrittenIsSource(root, h, f, args, w, r);
    if ValidLlvm(p) && ReturnsNoVoid(p) {
      LoweringsAgree(p, h, f, args, w, r);
    }
  }

  lemma ItRunsWell(root: Root, h: Host, f: nat, args: seq<Value>, w: World, fuel: nat)
    requires Accepted(root) && CallsMatch(root) && Suits(root, h, f, args, w)
    ensures RunsWell(root, h, f, args, w, fuel)
  {
    hide CallsMatch, TypedProgram, LinkNames, SupportedRoot, TypedHost, TypedWorld, FlagsHold, BodiesReturn;
    SuitsProgram(root, h, f, args, w);
    LinkNamesSound(root);
    RunSound(ProgramOf(root), h, f, args, w, fuel);
    DecoratedMeans(root, h, f, args, w, fuel);
    HeaderIs(root, f);
  }

  /** The whole program: its main function, called without arguments while the globals have their initial values. */
  lemma AcceptedMainRuns(root: Root, h: Host, r: Config) returns (main: nat)
    requires Accepted(root) && CallsMatch(root) && SuitHost(root, h)
    requires forall i | 0 <= i < |root.functions| && root.functions[i].name == "main" :: root.functions[i].body.Some?
    ensures LinkNames(root).main == Some(main) && main < |root.functions|
    ensures root.functions[main].name == "main" && root.functions[main].params == [] &&
      root.functions[main].typeName == "i32"
    ensures forall i | 0 <= i < |root.variables| :: root.variables[i].init.Constant?
    ensures var w := World(InitialGlobals(root), []);
      MachineEnds(IRModule(ProgramOf(root)), h, main, [], w, r) <==> WrittenEnds(root, h, main, [], w, r)
  {
    hide MachineEnds, WrittenEnds, CallsMatch, LinkNames, SupportedRoot;
    LinkNamesSound(root);
    main := LinkNames(root).main.value;
    GlobalsAreWritten(root);
    IntNamed(root.functions[main].typeName);
    AcceptedTreesRun(root, h, main, [], World(InitialGlobals(root), []), 0, r);
  }

  lemma IntNamed(name: string)
    ensures TypeNamed(name) == Some(I32) <==> name == "i32"
  {
  }

  /** The blocks of a function of an accepted tree end in their only terminators, all of them in LLVM and those
      that control can reach in the IR, if and only if the flag of its body holds. */
  lemma AcceptedBlocksClose(root: Root, f: nat)
    requires Accepted(root) && f < |ProgramOf(root).funs| && !ProgramOf(root).funs[f].isExtern
    ensures f < |root.functions|
    ensures AllClosed(LlvmModule(ProgramOf(root)).funs[f].blocks) <==> BodyFlagHolds(root.functions[f])
    ensures ReachableClosed(IRModule(ProgramOf(root)).funs[f].blocks) <==> BodyFlagHolds(root.functions[f])
  {
    hide LinkNames, ReachableClosed, BodyFlagHolds, AllClosed, LlvmModule, IRModule, Lowerable;
    LinkNamesSound(root);
    var p := ProgramOf(root);
    LlvmBlocksClose(p, f);
    IRBlocksClose(p, f);
    assert (!p.funs[f].isExtern ==> AnyReturns(p.funs[f].body)) <==> BodyFlagHolds(root.functions[f]);
  }

  /** LLVM takes the module of an accepted tree exactly when the flags of all its bodies hold and none of its
      variables is of type void. */
  lemma AcceptedModulesValid(root: Root)
    requires Accepted(root)
    ensures ValidLlvm(ProgramOf(root)) <==> FlagsHold(root) && NoVoidVariables(ProgramOf(root))
  {
    hide ValidLlvm, NoVoidVariables, BodiesReturn, FlagsHold;
    LinkNamesSound(root);
    ValidExactly(ProgramOf(root));
  }
}
