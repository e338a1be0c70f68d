/** The two return flags: the decorator and the LLVM lowering disagree on an `if` without else part. */
module ReturnFlags {
  import opened Syntax

  /** What the lowering takes to return, the decorator takes to return too. */
  lemma {:induction false} MustIsHas(s: Statement)
    ensures MustReturn(s) ==> HasReturn(s)
    decreases s
  {
    match s
    case IfStatement(_, thn, els) =>
      MustIsSome(thn);
      if els.ElsePart? { MustIsSome(els.statements); }
    case Compound(ss) => MustIsSome(ss);
    case _ =>
  }

  lemma {:induction false} MustIsSome(ss: seq<Statement>)
    ensures SomeMustReturn(ss) ==> SomeReturn(ss)
    decreases ss
  {
    if ss != [] {
      MustIsHas(ss[0]);
      MustIsSome(ss[1..]);
    }
  }

  /** An `if` without else part whose body is taken to return. */
  predicate BareReturn(s: Statement) {
    s.IfStatement? && s.elseBody.NoElsePart? && SomeReturn(s.ifBody)
  }

  /** The flag of `s` rests on a bare return: one `s` is, one in a branch of an `if` both of whose branches are
      taken to return, or one in a block. */
  predicate RestsOnBare(s: Statement)
    decreases s
  {
    match s
    case IfStatement(_, thn, els) =>
      BareReturn(s) || (els.ElsePart? && HasReturn(s) && (SomeRestOnBare(thn) || SomeRestOnBare(els.statements)))
    case Compound(ss) => SomeRestOnBare(ss)
    case _ => false
  }

  /** Some flag in the list rests on a bare return, and no statement of it returns on every path. */
  predicate SomeRestOnBare(ss: seq<Statement>)
    decreases ss
  {
    !SomeMustReturn(ss) && exists i :: 0 <= i < |ss| && RestsOnBare(ss[i])
  }

  /** The flags of a statement agree exactly when the decorator's does not rest on a bare return. */
  lemma {:induction false} FlagsAgreeExactly(s: Statement)
    ensures HasReturn(s) == MustReturn(s) <==> !RestsOnBare(s)
    decreases s
  {
    MustIsHas(s);
    match s
    case IfStatement(_, thn, els) =>
      AllFlagsAgreeExactly(thn);
      if els.ElsePart? { AllFlagsAgreeExactly(els.statements); }
    case Compound(ss) => AllFlagsAgreeExactly(ss);
    case _ =>
  }

  lemma {:induction false} AllFlagsAgreeExactly(ss: seq<Statement>)
    ensures SomeReturn(ss) == SomeMustReturn(ss) <==> !SomeRestOnBare(ss)
    decreases ss
  {
    MustIsSome(ss);
    if ss != [] {
      FlagsAgreeExactly(ss[0]);
      AllFlagsAgreeExactly(ss[1..]);
      MustIsHas(ss[0]);
      assert forall i :: 1 <= i < |ss| ==> ss[i] == ss[1..][i - 1];
      assert forall i :: 0 <= i < |ss[1..]| ==> ss[1..][i] == ss[i + 1];
    }
  }

  /** There is no bare return in `s`. */
  predicate NoBareReturn(s: Statement)
    decreases s
  {
    !BareReturn(s) &&
    match s
    case IfStatement(_, thn, els) => NoBareReturns(thn) && (els.ElsePart? ==> NoBareReturns(els.statements))
    case WhileStatement(_, body) => NoBareReturns(body)
    case Compound(ss) => NoBareReturns(ss)
    case _ => true
  }

  predicate NoBareReturns(ss: seq<Statement>)
    decreases ss
  {
    ss != [] ==> NoBareReturn(ss[0]) && NoBareReturns(ss[1..])
  }

  /** The flags agree on `s` and on every statement in it. */
  predicate FlagsAgreeIn(s: Statement)
    decreases s
  {
    HasReturn(s) == MustReturn(s) &&
    match s
    case IfStatement(_, thn, els) => FlagsAgreeInAll(thn) && (els.ElsePart? ==> FlagsAgreeInAll(els.statements))
    case WhileStatement(_, body) => FlagsAgreeInAll(body)
    case Compound(ss) => FlagsAgreeInAll(ss)
    case _ => true
  }

  predicate FlagsAgreeInAll(ss: seq<Statement>)
    decreases ss
  {
    ss != [] ==> FlagsAgreeIn(ss[0]) && FlagsAgreeInAll(ss[1..])
  }

  /** The flags agree throughout a statement exactly when every `if` in it whose body is taken to return has an
      else part. */
  lemma {:induction false} AgreeThroughout(s: Statement)
    ensures FlagsAgreeIn(s) <==> NoBareReturn(s)
    decreases s
  {
    match s
    case IfStatement(_, thn, els) =>
      AllAgreeThroughout(thn);
      if els.ElsePart? { AllAgreeThroughout(els.statements); }
    case WhileStatement(_, body) => AllAgreeThroughout(body);
    case Compound(ss) => AllAgreeThroughout(ss);
    case _ =>
  }

  lemma {:induction false} AllAgreeThroughout(ss: seq<Statement>)
    ensures FlagsAgreeInAll(ss) <==> NoBareReturns(ss)
    ensures FlagsAgreeInAll(ss) ==> SomeReturn(ss) == SomeMustReturn(ss)
    decreases ss
  {
    if ss != [] {
      AgreeThroughout(ss[0]);
      AllAgreeThroughout(ss[1..]);
    }
  }
}
