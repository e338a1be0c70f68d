/** Control-flow graphs and the machine that runs them: the target of both lowerings.

    The IR lowering uses registers for every operand and one cell per argument. The LLVM lowering
    uses constants and argument values as operands and stores each argument into a cell of its own.
 */
module Machine {
  import opened Lang
  import opened Source

  datatype CalcOp = Add | Subtract | Mul | Div
  datatype CompareOp = Eq | Ne | Gt | Ge | Lt | Le
  datatype LogicOp = And | Or
  datatype Op = Calc(arith: CalcOp) | Compare(cmp: CompareOp) | Logic(logic: LogicOp)

  /** `NoOperand` is the null pointer a generator passes on after reporting an error. */
  datatype Operand = Const(value: Value) | Reg(id: nat) | ArgValue(index: nat) | NoOperand

  /** An address: the cell of an allocation, an argument's own cell, or a global. */
  datatype Ptr = Cell(id: nat) | ArgCell(index: nat) | GlobalCell(index: nat)

  /** A conditional jump is appended before its targets are known. */
  datatype Instr =
    | Comment
    | Literal(value: Value)
    | Negate(x: Operand)
    | Alloc(ty: Type)
    | Load(src: Ptr)
    | Store(dst: Ptr, x: Operand)
    | Compute(op: Op, l: Operand, r: Operand)
    | CallFn(fn: nat, args: seq<Operand>)
    | Ret(result: Option<Operand>)
    | Jump(to: nat)
    | CondJump(cond: Operand, whenTrue: Option<nat>, whenFalse: Option<nat>)

  /** An instruction with its identity, which is also the register that holds its result. */
  datatype Node = Node(id: nat, ins: Instr)

  type Graph = map<nat, seq<Node>>

  const ENTRY: nat := 0

  datatype Func = Func(isExtern: bool, blocks: Graph)
  datatype Module = Module(funs: seq<Func>)

  predicate IsTerminator(i: Instr) {
    i.Ret? || i.Jump? || i.CondJump?
  }

  /** One activation: where it is and what it has computed. */
  datatype Frame = Frame(fn: nat, args: seq<Value>, block: nat, pc: nat, regs: map<nat, Value>, cells: map<Ptr, Value>)

  datatype Stack = Empty | Push(top: Frame, rest: Stack)

  /** `Wrong` is every run the instruction set gives no meaning to: an undefined register or cell, a
      position outside its block, an unpatched jump, an operand of the wrong type. */
  datatype Config =
    | Running(frame: Frame, below: Stack, world: World)
    | Halted(result: Value, world: World)
    | Faulted(world: World)
    | Wrong

  function ApplyOp(h: Host, op: Op, a: Value, b: Value): OpResult {
    match op
    case Calc(c) =>
      if a.VI32? && b.VI32? then
        match c
        case Add => Yields(VI32(Wrap(a.i + b.i)))
        case Subtract => Yields(VI32(Wrap(a.i - b.i)))
        case Mul => Yields(VI32(Wrap(a.i * b.i)))
        case Div => Divided(a.i, b.i)
      else if a.VF32? && b.VF32? then
        match c
        case Add => Yields(VF32(h.add(a.f, b.f)))
        case Subtract => Yields(VF32(h.sub(a.f, b.f)))
        case Mul => Yields(VF32(h.mul(a.f, b.f)))
        case Div => Yields(VF32(h.div(a.f, b.f)))
      else Mismatch
    case Compare(c) =>
      if a.VI32? && b.VI32? then
        match c
        case Eq => Yields(VBool(a.i == b.i))
        case Ne => Yields(VBool(a.i != b.i))
        case Gt => Yields(VBool(a.i > b.i))
        case Ge => Yields(VBool(a.i >= b.i))
        case Lt => Yields(VBool(a.i < b.i))
        case Le => Yields(VBool(a.i <= b.i))
      else if a.VF32? && b.VF32? then
        match c
        case Eq => Yields(VBool(h.eq(a.f, b.f)))
        case Ne => Yields(VBool(h.ne(a.f, b.f)))
        case Gt => Yields(VBool(h.gt(a.f, b.f)))
        case Ge => Yields(VBool(h.ge(a.f, b.f)))
        case Lt => Yields(VBool(h.lt(a.f, b.f)))
        case Le => Yields(VBool(h.le(a.f, b.f)))
      else Mismatch
    case Logic(c) =>
      if a.VBool? && b.VBool? then Yields(VBool(if c.And? then a.b && b.b else a.b || b.b)) else Mismatch
  }

  function OperandValue(o: Operand, fr: Frame): Option<Value> {
    match o
    case Const(v) => Some(v)
    case Reg(id) => if id in fr.regs then Some(fr.regs[id]) else None
    case ArgValue(i) => if i < |fr.args| then Some(fr.args[i]) else None
    case NoOperand => None
  }

  function OperandValues(os: seq<Operand>, fr: Frame): Option<seq<Value>> {
    if os == [] then Some([])
    else
      var v, vs := OperandValue(os[0], fr), OperandValues(os[1..], fr);
      if v.Some? && vs.Some? then Some([v.value] + vs.value) else None
  }

  /** Move past the current instruction, `id`, whose result is `v`. */
  function Advance(fr: Frame, id: nat, v: Value): Frame {
    fr.(pc := fr.pc + 1, regs := fr.regs[id := v])
  }

  function Skip(fr: Frame): Frame {
    fr.(pc := fr.pc + 1)
  }

  function Goto(fr: Frame, b: nat): Frame {
    fr.(block := b, pc := 0)
  }

  function ArgCells(args: seq<Value>): map<Ptr, Value> {
    map i: nat | i < |args| :: ArgCell(i) := args[i]
  }

  function Enter(fn: nat, args: seq<Value>): Frame {
    Frame(fn, args, ENTRY, 0, map[], ArgCells(args))
  }

  predicate HasNode(m: Module, fr: Frame) {
    fr.fn < |m.funs| && fr.block in m.funs[fr.fn].blocks && fr.pc < |m.funs[fr.fn].blocks[fr.block]|
  }

  function NodeAt(m: Module, fr: Frame): Node
    requires HasNode(m, fr)
  {
    m.funs[fr.fn].blocks[fr.block][fr.pc]
  }

  /** Leave an activation with result `v`: the caller stands at its call instruction. */
  function ReturnTo(m: Module, below: Stack, v: Value, w: World): Config {
    match below
    case Empty => Halted(v, w)
    case Push(caller, rest) =>
      if HasNode(m, caller) then Running(Advance(caller, NodeAt(m, caller).id, v), rest, w) else Wrong
  }

  function Step(m: Module, h: Host, c: Config): Config {
    if !c.Running? then c
    else if !HasNode(m, c.frame) then Wrong
    else StepNode(m, h, NodeAt(m, c.frame), c.frame, c.below, c.world)
  }

  function StepNode(m: Module, h: Host, n: Node, fr: Frame, below: Stack, w: World): Config {
    match n.ins
    case Comment => Running(Skip(fr), below, w)
    case Literal(v) => Running(Advance(fr, n.id, v), below, w)
    case Negate(x) =>
      var v := OperandValue(x, fr);
      if v.Some? && v.value.VBool? then Running(Advance(fr, n.id, VBool(!v.value.b)), below, w) else Wrong
    case Alloc(_) => Running(Skip(fr), below, w)
    case Load(p) =>
      if p.GlobalCell? then
        if p.index < |w.globals| then Running(Advance(fr, n.id, w.globals[p.index]), below, w) else Wrong
      else if p in fr.cells then Running(Advance(fr, n.id, fr.cells[p]), below, w) else Wrong
    case Store(p, x) =>
      var v := OperandValue(x, fr);
      if v.None? then Wrong
      else if p.GlobalCell? then
        if p.index < |w.globals| then Running(Skip(fr), below, w.(globals := w.globals[p.index := v.value])) else Wrong
      else Running(Skip(fr).(cells := fr.cells[p := v.value]), below, w)
    case Compute(op, l, r) =>
      var a, b := OperandValue(l, fr), OperandValue(r, fr);
      if a.None? || b.None? then Wrong
      else
        (match ApplyOp(h, op, a.value, b.value)
         case Yields(v) => Running(Advance(fr, n.id, v), below, w)
         case DivisionFault => Faulted(w)
         case Mismatch => Wrong)
    case CallFn(f, os) =>
      var vs := OperandValues(os, fr);
      if vs.None? || f >= |m.funs| then Wrong
      else if m.funs[f].isExtern then
        var (r, w1) := CallExtern(h, f, vs.value, w);
        Running(Advance(fr, n.id, r), below, w1)
      else Running(Enter(f, vs.value), Push(fr, below), w)
    case Ret(x) =>
      if x.None? then ReturnTo(m, below, VVoid, w)
      else
        var v := OperandValue(x.value, fr);
        if v.Some? then ReturnTo(m, below, v.value, w) else Wrong
    case Jump(b) => Running(Goto(fr, b), below, w)
    case CondJump(x, t, f) =>
      var v := OperandValue(x, fr);
      if v.Some? && v.value.VBool? && t.Some? && f.Some?
      then Running(Goto(fr, if v.value.b then t.value else f.value), below, w)
      else Wrong
  }

  function Run(m: Module, h: Host, c: Config, n: nat): Config
    decreases n
  {
    if n == 0 then c else Run(m, h, Step(m, h, c), n - 1)
  }

  function Start(fn: nat, args: seq<Value>, w: World): Config {
    Running(Enter(fn, args), Empty, w)
  }

  lemma {:induction false} RunAdd(m: Module, h: Host, c: Config, i: nat, j: nat)
    ensures Run(m, h, c, i + j) == Run(m, h, Run(m, h, c, i), j)
    decreases i
  {
    if i > 0 {
      RunAdd(m, h, Step(m, h, c), i - 1, j);
    }
  }

  /** A run that has stopped stays as it is. */
  lemma {:induction false} StoppedStays(m: Module, h: Host, c: Config, n: nat)
    requires !c.Running?
    ensures Run(m, h, c, n) == c
    decreases n
  {
    if n > 0 {
      StoppedStays(m, h, c, n - 1);
    }
  }

  /** The machine is deterministic: two stopping runs from one configuration stop alike. */
  lemma {:induction false} StopsOnce(m: Module, h: Host, c: Config, i: nat, j: nat)
    requires !Run(m, h, c, i).Running? && !Run(m, h, c, j).Running?
    ensures Run(m, h, c, i) == Run(m, h, c, j)
  {
    if i <= j {
      RunAdd(m, h, c, i, j - i);
      StoppedStays(m, h, Run(m, h, c, i), j - i);
    } else {
      RunAdd(m, h, c, j, i - j);
      StoppedStays(m, h, Run(m, h, c, j), i - j);
    }
  }
}
