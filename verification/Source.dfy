/** The meaning of a decorated program: a big-step semantics indexed by fuel, which loop iterations
    and calls consume.
 */
module Source {
  import opened Lang

  /** One call of an extern function, as the outside sees it. */
  datatype Event = Event(fn: nat, args: seq<Value>, result: Value)

  datatype World = World(globals: seq<Value>, trace: seq<Event>)

  /** What the program cannot see into: float arithmetic and the extern functions. */
  datatype Host = Host(
    add: (Float, Float) -> Float, sub: (Float, Float) -> Float, mul: (Float, Float) -> Float,
      div: (Float, Float) -> Float,
    eq: (Float, Float) -> bool, ne: (Float, Float) -> bool, gt: (Float, Float) -> bool, ge: (Float, Float) -> bool,
    lt: (Float, Float) -> bool, le: (Float, Float) -> bool,
    ext: (nat, seq<Value>, World) -> Value)

  function CallExtern(h: Host, f: nat, args: seq<Value>, w: World): (Value, World) {
    var r := h.ext(f, args, w);
    (r, w.(trace := w.trace + [Event(f, args, r)]))
  }

  /** Outcome of an operator: a value, the division fault, or operands it is not defined on. */
  datatype OpResult = Yields(v: Value) | DivisionFault | Mismatch

  const TWO_TO_THE_32: int := 0x1_0000_0000

  function Wrap(i: int): (r: int)
    ensures IsI32(r) && (r - i) % TWO_TO_THE_32 == 0
    ensures IsI32(i) ==> r == i
  {
    (i + 0x8000_0000) % TWO_TO_THE_32 - 0x8000_0000
  }

  /** Division that truncates towards zero. */
  function Quotient(x: int, y: int): int
    requires y != 0
  {
    var q := Abs(x) / Abs(y);
    if (x < 0) == (y < 0) then q else -q
  }

  /** The quotient is the number whose product with the divisor leaves a remainder smaller than the divisor and of
      the sign of the dividend. */
  lemma {:induction false} QuotientExactly(x: int, y: int, q: int)
    requires y != 0
    ensures q == Quotient(x, y) <==> var r := x - q * y;
      -Abs(y) < r < Abs(y) && (r > 0 ==> x > 0) && (r < 0 ==> x < 0)
  {
    var signed := if (x < 0) == (y < 0) then q else -q;
    var rest := Abs(x) - signed * Abs(y);
    DivisionExactly(Abs(x), Abs(y), signed);
    RestIs(x, y, q, signed);
    if x == 0 && 0 <= rest < Abs(y) {
      assert 0 / Abs(y) == 0;
      assert signed == 0 && rest == 0;
    }
  }

  lemma RestIs(x: int, y: int, q: int, signed: int)
    requires signed == if (x < 0) == (y < 0) then q else -q
    ensures x - q * y == var rest := Abs(x) - signed * Abs(y); if x < 0 then -rest else rest
  {
    assert (-q) * y == -(q * y) && q * -y == -(q * y) && (-q) * -y == q * y;
  }

  function Abs(x: int): int { if x < 0 then -x else x }

  lemma DivisionExactly(m: int, n: int, q: int)
    requires n > 0 && m >= 0
    ensures q == m / n <==> 0 <= m - q * n < n
  {
    var d := m / n - q;
    assert m - q * n == m % n + d * n;
    if d >= 1 {
      assert d * n >= n;
    } else if d <= -1 {
      assert d * n <= -n;
    }
  }

  /** Only the quotient of the smallest integer by -1 does not fit. */
  lemma {:induction false} QuotientFits(x: int, y: int)
    requires IsI32(x) && IsI32(y) && y != 0
    ensures IsI32(Quotient(x, y)) <==> !(x == I32_MIN && y == -1)
  {
    if Abs(y) >= 2 {
      HalfAtMost(Abs(x), Abs(y));
    }
  }

  lemma HalfAtMost(a: int, b: int)
    requires a >= 0 && b >= 2
    ensures 0 <= a / b && 2 * (a / b) <= a
  {
    TwiceAtMost(a / b, b);
  }

  lemma TwiceAtMost(q: int, b: int)
    requires q >= 0 && b >= 2
    ensures 2 * q <= q * b
  {
    assert q * b == 2 * q + q * (b - 2);
  }

  function Divided(x: int, y: int): OpResult {
    if y == 0 || (x == I32_MIN && y == -1) then DivisionFault else Yields(VI32(Quotient(x, y)))
  }

  function Apply(h: Host, op: BinOp, a: Value, b: Value): OpResult {
    if a.VI32? && b.VI32? then
      match op
      case Plus => Yields(VI32(Wrap(a.i + b.i)))
      case Minus => Yields(VI32(Wrap(a.i - b.i)))
      case Multiply => Yields(VI32(Wrap(a.i * b.i)))
      case Divide => Divided(a.i, b.i)
      case Equals => Yields(VBool(a.i == b.i))
      case NotEquals => Yields(VBool(a.i != b.i))
      case GreaterThen => Yields(VBool(a.i > b.i))
      case GreaterEqualsThen => Yields(VBool(a.i >= b.i))
      case LessThen => Yields(VBool(a.i < b.i))
      case LessEqualsThen => Yields(VBool(a.i <= b.i))
      case _ => Mismatch
    else if a.VF32? && b.VF32? then
      match op
      case Plus => Yields(VF32(h.add(a.f, b.f)))
      case Minus => Yields(VF32(h.sub(a.f, b.f)))
      case Multiply => Yields(VF32(h.mul(a.f, b.f)))
      case Divide => Yields(VF32(h.div(a.f, b.f)))
      case Equals => Yields(VBool(h.eq(a.f, b.f)))
      case NotEquals => Yields(VBool(h.ne(a.f, b.f)))
      case GreaterThen => Yields(VBool(h.gt(a.f, b.f)))
      case GreaterEqualsThen => Yields(VBool(h.ge(a.f, b.f)))
      case LessThen => Yields(VBool(h.lt(a.f, b.f)))
      case LessEqualsThen => Yields(VBool(h.le(a.f, b.f)))
      case _ => Mismatch
    else if a.VBool? && b.VBool? then
      match op
      case LogicAnd => Yields(VBool(a.b && b.b))
      case LogicOr => Yields(VBool(a.b || b.b))
      case _ => Mismatch
    else Mismatch
  }

  /** The outcome of an operator on integers. */
  function OnInts(h: Host, op: BinOp, a: int, b: int): OpResult { Apply(h, op, VI32(a), VI32(b)) }

  lemma {:induction false} WrapExactly(i: int, j: int)
    ensures Wrap(i) == Wrap(j) <==> (i - j) % TWO_TO_THE_32 == 0
  {
    var m, n := i + 0x8000_0000, j + 0x8000_0000;
    assert m - n == i - j;
    assert m == TWO_TO_THE_32 * (m / TWO_TO_THE_32) + m % TWO_TO_THE_32;
    assert n == TWO_TO_THE_32 * (n / TWO_TO_THE_32) + n % TWO_TO_THE_32;
  }

  /** A sum may be wrapped as it grows. */
  lemma WrapSum(i: int, j: int)
    ensures Wrap(Wrap(i) + j) == Wrap(i + j)
  {
    WrapExactly(Wrap(i) + j, i + j);
    assert Wrap(i) + j - (i + j) == Wrap(i) - i;
  }

  lemma WrapFits(i: int)
    requires IsI32(i)
    ensures Wrap(i) == i
  {
  }

  /** Addition counts up, from the largest integer to the smallest one, and subtraction undoes it. */
  lemma {:induction false} SumLaws(h: Host, a: int, b: int)
    requires IsI32(a) && IsI32(b)
    ensures OnInts(h, Plus, a, 0) == Yields(VI32(a))
    ensures OnInts(h, Plus, a, 1) == Yields(VI32(if a == I32_MAX then I32_MIN else a + 1))
    ensures b < I32_MAX ==> OnInts(h, Plus, a, b + 1) == OnInts(h, Plus, OnInts(h, Plus, a, b).v.i, 1)
    ensures OnInts(h, Minus, OnInts(h, Plus, a, b).v.i, b) == Yields(VI32(a))
  {
    hide Wrap, Quotient;
    WrapSum(a + b, 1);
    WrapSum(a + b, -b);
    WrapFits(a);
    if a < I32_MAX {
      WrapFits(a + 1);
    } else {
      WrapAround();
    }
  }

  lemma WrapAround()
    ensures Wrap(I32_MAX + 1) == I32_MIN
  {
  }

  /** Multiplication is repeated addition; division fails only where there is no quotient or it does not fit. */
  lemma {:induction false} ProductLaws(h: Host, a: int, b: int)
    requires IsI32(a) && IsI32(b)
    ensures OnInts(h, Multiply, a, 0) == Yields(VI32(0))
    ensures b < I32_MAX ==> OnInts(h, Multiply, a, b + 1) == OnInts(h, Plus, OnInts(h, Multiply, a, b).v.i, a)
    ensures OnInts(h, Divide, a, b) ==
      if b != 0 && IsI32(Quotient(a, b)) then Yields(VI32(Quotient(a, b))) else DivisionFault
  {
    hide Wrap, Quotient;
    assert a * (b + 1) == a * b + a;
    WrapSum(a * b, a);
    assert Wrap(0) == 0 by { WrapFits(0); }
    if b != 0 {
      QuotientFits(a, b);
    }
  }

  /** The comparisons are those of one order: nothing is below the smallest integer, and below the next integer is
      what is below or equal to this one. */
  lemma {:induction false} ComparisonLaws(h: Host, a: int, b: int)
    requires IsI32(a) && IsI32(b)
    ensures OnInts(h, LessThen, a, I32_MIN) == Yields(VBool(false))
    ensures b < I32_MAX ==>
      (OnInts(h, LessThen, a, b + 1).v.b <==> OnInts(h, LessThen, a, b).v.b || OnInts(h, Equals, a, b).v.b)
    ensures OnInts(h, Equals, a, b).v.b <==> !OnInts(h, LessThen, a, b).v.b && !OnInts(h, LessThen, b, a).v.b
    ensures OnInts(h, NotEquals, a, b).v.b <==> !OnInts(h, Equals, a, b).v.b
    ensures OnInts(h, GreaterThen, a, b) == OnInts(h, LessThen, b, a)
    ensures OnInts(h, GreaterEqualsThen, a, b).v.b <==> !OnInts(h, LessThen, a, b).v.b
    ensures OnInts(h, LessEqualsThen, a, b) == OnInts(h, GreaterEqualsThen, b, a)
  {
  }

  /** The logical operators, by their units, and one by the other. */
  lemma {:induction false} LogicLaws(h: Host, a: bool, b: bool)
    ensures Apply(h, LogicAnd, VBool(a), VBool(true)) == Apply(h, LogicOr, VBool(a), VBool(false)) == Yields(VBool(a))
    ensures Apply(h, LogicAnd, VBool(a), VBool(false)) == Yields(VBool(false))
    ensures Apply(h, LogicOr, VBool(a), VBool(b)).v.b <==> !Apply(h, LogicAnd, VBool(!a), VBool(!b)).v.b
  {
  }

  /** Outcome of running a piece of the program. `FellOff` is a function that ended without a return,
      `Stuck` a type mismatch or an unbound name. */
  datatype Res<+T> = Ok(value: T, world: World) | Fault(world: World) | OutOfFuel | FellOff | Stuck {
    predicate IsFailure() { !Ok? }
    function PropagateFailure<U>(): Res<U>
      requires !Ok?
    {
      match this
      case Fault(w) => Fault(w)
      case OutOfFuel => OutOfFuel
      case FellOff => FellOff
      case Stuck => Stuck
    }
    function Extract(): (T, World)
      requires Ok?
    {
      (value, world)
    }
  }

  /** Values of the parameters and locals of one activation. */
  type Env = map<VarRef, Value>

  datatype Flow = Next(env: Env) | Returned(result: Value)

  function Lookup(x: VarRef, env: Env, w: World): Option<Value> {
    if x.Global? then
      if x.index < |w.globals| then Some(w.globals[x.index]) else None
    else if x in env then Some(env[x]) else None
  }

  function EvalExpr(p: Program, h: Host, e: Expr, env: Env, w: World, fuel: nat): Res<Value>
    decreases fuel, 1, e
  {
    match e
    case Lit(v) => Ok(v, w)
    case Var(x, _) =>
      var v := Lookup(x, env, w);
      if v.Some? then Ok(v.value, w) else Stuck
    case Not(i) =>
      var (v, w1) :- EvalExpr(p, h, i, env, w, fuel);
      if v.VBool? then Ok(VBool(!v.b), w1) else Stuck
    case Bin(op, l, r, _) =>
      var (a, w1) :- EvalExpr(p, h, l, env, w, fuel);
      var (b, w2) :- EvalExpr(p, h, r, env, w1, fuel);
      (match Apply(h, op, a, b)
       case Yields(v) => Ok(v, w2)
       case DivisionFault => Fault(w2)
       case Mismatch => Stuck)
    case Call(f, args, _) =>
      var (vs, w1) :- EvalArgs(p, h, args, env, w, fuel);
      Invoke(p, h, f, vs, w1, fuel)
  }

  function EvalArgs(p: Program, h: Host, es: seq<Expr>, env: Env, w: World, fuel: nat): Res<seq<Value>>
    decreases fuel, 1, es
  {
    if es == [] then Ok([], w)
    else
      var (v, w1) :- EvalExpr(p, h, es[0], env, w, fuel);
      var (vs, w2) :- EvalArgs(p, h, es[1..], env, w1, fuel);
      Ok([v] + vs, w2)
  }

  function ParamEnv(vs: seq<Value>): Env {
    map i: nat | i < |vs| :: Param(i) := vs[i]
  }

  /** A call with evaluated arguments. */
  function Invoke(p: Program, h: Host, f: nat, vs: seq<Value>, w: World, fuel: nat): Res<Value>
    decreases fuel, 0
  {
    if f >= |p.funs| || |vs| != |p.funs[f].params| then Stuck
    else if p.funs[f].isExtern then
      var (r, w1) := CallExtern(h, f, vs, w);
      Ok(r, w1)
    else if fuel == 0 then OutOfFuel
    else
      var (flow, w1) :- ExecAll(p, h, p.funs[f].body, ParamEnv(vs), w, fuel - 1);
      if flow.Returned? then Ok(flow.result, w1) else FellOff
  }

  function Exec(p: Program, h: Host, s: Stmt, env: Env, w: World, fuel: nat): Res<Flow>
    decreases fuel, 2, s
  {
    match s
    case Let(d, _, e) =>
      var (v, w1) :- EvalExpr(p, h, e, env, w, fuel);
      Ok(Next(env[Local(d) := v]), w1)
    case Assign(x, e) =>
      var (v, w1) :- EvalExpr(p, h, e, env, w, fuel);
      if Lookup(x, env, w1).None? then Stuck
      else if x.Global? then Ok(Next(env), w1.(globals := w1.globals[x.index := v]))
      else Ok(Next(env[x := v]), w1)
    case Return(r) =>
      if r.None? then Ok(Returned(VVoid), w)
      else
        var (v, w1) :- EvalExpr(p, h, r.value, env, w, fuel);
        Ok(Returned(v), w1)
    case If(c, thn, els) =>
      var (v, w1) :- EvalExpr(p, h, c, env, w, fuel);
      if !v.VBool? then Stuck
      else if v.b then ExecAll(p, h, thn, env, w1, fuel)
      else if els.Else? then ExecAll(p, h, els.stmts, env, w1, fuel)
      else Ok(Next(env), w1)
    case While(c, body) =>
      if fuel == 0 then OutOfFuel
      else
        var (v, w1) :- EvalExpr(p, h, c, env, w, fuel);
        if !v.VBool? then Stuck
        else if !v.b then Ok(Next(env), w1)
        else
          var (flow, w2) :- ExecAll(p, h, body, env, w1, fuel - 1);
          if flow.Returned? then Ok(flow, w2)
          else Exec(p, h, s, flow.env, w2, fuel - 1)
    case Block(ss) => ExecAll(p, h, ss, env, w, fuel)
    case Eval(e) =>
      var (_, w1) :- EvalExpr(p, h, e, env, w, fuel);
      Ok(Next(env), w1)
  }

  function ExecAll(p: Program, h: Host, ss: seq<Stmt>, env: Env, w: World, fuel: nat): Res<Flow>
    decreases fuel, 2, ss
  {
    if ss == [] then Ok(Next(env), w)
    else
      var (flow, w1) :- Exec(p, h, ss[0], env, w, fuel);
      if flow.Returned? then Ok(flow, w1) else ExecAll(p, h, ss[1..], flow.env, w1, fuel)
  }

  /** A statement the LLVM lowering takes for a return never completes normally. */
  lemma {:induction false} ReturnsIsSound(p: Program, h: Host, s: Stmt, env: Env, w: World, fuel: nat)
    requires Returns(s) && Exec(p, h, s, env, w, fuel).Ok?
    ensures Exec(p, h, s, env, w, fuel).value.Returned?
    decreases s
  {
    match s
    case If(c, thn, els) =>
      var r := EvalExpr(p, h, c, env, w, fuel);
      if r.value.b {
        AnyReturnsIsSound(p, h, thn, env, r.world, fuel);
      } else {
        AnyReturnsIsSound(p, h, els.stmts, env, r.world, fuel);
      }
    case Block(ss) => AnyReturnsIsSound(p, h, ss, env, w, fuel);
    case _ =>
  }

  lemma {:induction false} AnyReturnsIsSound(p: Program, h: Host, ss: seq<Stmt>, env: Env, w: World, fuel: nat)
    requires AnyReturns(ss) && ExecAll(p, h, ss, env, w, fuel).Ok?
    ensures ExecAll(p, h, ss, env, w, fuel).value.Returned?
    decreases ss
  {
    var r := Exec(p, h, ss[0], env, w, fuel);
    if Returns(ss[0]) {
      ReturnsIsSound(p, h, ss[0], env, w, fuel);
    } else if r.value.Next? {
      AnyReturnsIsSound(p, h, ss[1..], r.value.env, r.world, fuel);
    }
  }
}
