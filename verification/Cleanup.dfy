/** The cleanup pass: what follows the first terminator of a block is removed. */
module Cleanup {
  import opened Lang
  import opened Source
  import opened Machine

  predicate HasTerminator(b: seq<Node>) {
    exists k :: 0 <= k < |b| && IsTerminator(b[k].ins)
  }

  /** No instruction before `n` ends the block. */
  predicate OpenUntil(b: seq<Node>, n: nat) {
    forall k :: 0 <= k < n && k < |b| ==> !IsTerminator(b[k].ins)
  }

  /** The block up to and including its first terminator, or all of it. */
  function Truncated(b: seq<Node>): (r: seq<Node>)
    ensures r <= b && OpenUntil(r, if r == [] then 0 else |r| - 1)
    ensures if HasTerminator(b) then r != [] && IsTerminator(r[|r|-1].ins) else r == b
  {
    if b == [] then []
    else if IsTerminator(b[0].ins) then b[..1]
    else
      assert HasTerminator(b) <==> HasTerminator(b[1..]) by {
        assert forall k :: 0 < k < |b| ==> b[k] == b[1..][k-1];
      }
      [b[0]] + Truncated(b[1..])
  }

  function CleanGraph(g: Graph): Graph {
    map b | b in g :: Truncated(g[b])
  }

  function CleanFunc(f: Func): Func {
    f.(blocks := CleanGraph(f.blocks))
  }

  function CleanModule(m: Module): Module {
    Module(seq(|m.funs|, i requires 0 <= i < |m.funs| => CleanFunc(m.funs[i])))
  }

  lemma TruncatedIs(b: seq<Node>, n: nat)
    requires n <= |b| && OpenUntil(b, if n == 0 then 0 else n - 1)
    requires if HasTerminator(b) then n > 0 && IsTerminator(b[n-1].ins) else n == |b|
    ensures Truncated(b) == b[..n]
  {
    var r := Truncated(b);
    assert r == b[..|r|];
    if HasTerminator(b) {
      assert IsTerminator(b[|r|-1].ins);
      assert r[..n-1] == b[..n-1] || |r| < n;
    }
  }

  lemma TruncatedAgain(b: seq<Node>)
    ensures Truncated(Truncated(b)) == Truncated(b)
  {
    var r := Truncated(b);
    assert HasTerminator(r) ==> HasTerminator(b);
    TruncatedIs(r, |r|);
  }

  /** Running the pass again changes nothing. */
  lemma CleanAgain(m: Module)
    ensures CleanModule(CleanModule(m)) == CleanModule(m)
  {
    forall i | 0 <= i < |m.funs|
      ensures CleanGraph(CleanGraph(m.funs[i].blocks)) == CleanGraph(m.funs[i].blocks)
    {
      forall b | b in m.funs[i].blocks { TruncatedAgain(m.funs[i].blocks[b]); }
    }
  }

  /** Control reaches instruction `pc` only past instructions that do not end the block. */
  predicate Aligned(m: Module, fr: Frame) {
    fr.fn < |m.funs| && fr.block in m.funs[fr.fn].blocks ==> OpenUntil(m.funs[fr.fn].blocks[fr.block], fr.pc)
  }

  /** Every caller stands at a call. */
  predicate StackAligned(m: Module, s: Stack) {
    s.Push? ==> Aligned(m, s.top) && (HasNode(m, s.top) ==> NodeAt(m, s.top).ins.CallFn?) && StackAligned(m, s.rest)
  }

  predicate ConfigAligned(m: Module, c: Config) {
    c.Running? ==> Aligned(m, c.frame) && StackAligned(m, c.below)
  }

  /** An aligned activation sees the same instruction before and after the pass. */
  lemma SameNode(m: Module, fr: Frame)
    requires Aligned(m, fr)
    ensures HasNode(CleanModule(m), fr) == HasNode(m, fr)
    ensures HasNode(m, fr) ==> NodeAt(CleanModule(m), fr) == NodeAt(m, fr)
  {
    if HasNode(m, fr) {
      var b := m.funs[fr.fn].blocks[fr.block];
      var r := Truncated(b);
      if HasTerminator(b) {
        assert IsTerminator(b[|r|-1].ins);
      }
    }
  }

  lemma SameStep(m: Module, h: Host, c: Config)
    requires ConfigAligned(m, c)
    ensures Step(CleanModule(m), h, c) == Step(m, h, c)
  {
    hide Truncated, OpenUntil;
    if c.Running? {
      SameNode(m, c.frame);
      if c.below.Push? {
        SameNode(m, c.below.top);
      }
    }
  }

  lemma StepAligned(m: Module, h: Host, c: Config)
    requires ConfigAligned(m, c)
    ensures ConfigAligned(m, Step(m, h, c))
  {
    if c.Running? && HasNode(m, c.frame) {
      if !IsTerminator(NodeAt(m, c.frame).ins) {
        assert OpenUntil(m.funs[c.frame.fn].blocks[c.frame.block], c.frame.pc + 1);
      } else if c.below.Push? && HasNode(m, c.below.top) {
        assert OpenUntil(m.funs[c.below.top.fn].blocks[c.below.top.block], c.below.top.pc + 1);
      }
    }
  }

  lemma {:induction false} SameRunFrom(m: Module, h: Host, c: Config, n: nat)
    requires ConfigAligned(m, c)
    ensures Run(CleanModule(m), h, c, n) == Run(m, h, c, n)
    decreases n
  {
    if n > 0 {
      SameStep(m, h, c);
      StepAligned(m, h, c);
      SameRunFrom(m, h, Step(m, h, c), n - 1);
    }
  }

  /** The pass keeps every run of every module. */
  lemma CleanKeepsRuns(m: Module, h: Host, f: nat, args: seq<Value>, w: World, n: nat)
    ensures Run(CleanModule(m), h, Start(f, args, w), n) == Run(m, h, Start(f, args, w), n)
  {
    SameRunFrom(m, h, Start(f, args, w), n);
  }

  /** After the pass a terminator is the last instruction of its block, and no block lost its terminator. */
  lemma TerminatorsAreLast(m: Module, f: nat, b: nat, k: nat)
    requires f < |m.funs| && b in m.funs[f].blocks && k < |Truncated(m.funs[f].blocks[b])|
    ensures var r := CleanModule(m).funs[f].blocks[b];
      (IsTerminator(r[k].ins) ==> k == |r| - 1) && (HasTerminator(m.funs[f].blocks[b]) ==> IsTerminator(r[|r|-1].ins))
  {
  }

  /** One basic block, whose instruction list the pass shortens in place. */
  class BasicBlock {
    var instructions: seq<Node>

    constructor (instructions: seq<Node>)
      ensures this.instructions == instructions
    {
      this.instructions := instructions;
    }
  }

  method VisitBasicBlock(bb: BasicBlock)
    modifies bb
    ensures bb.instructions == Truncated(old(bb.instructions))
  {
    var b := bb.instructions;
    var i := 0;
    while i < |b| && !IsTerminator(b[i].ins)
      invariant 0 <= i <= |b| && OpenUntil(b, i)
    {
      i := i + 1;
    }
    if i < |b| {
      bb.instructions := b[..i + 1];
    }
    TruncatedIs(b, |bb.instructions|);
    assert i == |b| ==> b[..i] == b;
  }

  method CleanBlocks(g: Graph) returns (r: Graph)
    ensures r == CleanGraph(g)
  {
    var left := g.Keys;
    r := map[];
    while left != {}
      invariant left <= g.Keys && r.Keys == g.Keys - left
      invariant forall b :: b in r ==> r[b] == Truncated(g[b])
    {
      var b :| b in left;
      var bb := new BasicBlock(g[b]);
      VisitBasicBlock(bb);
      r := r[b := bb.instructions];
      left := left - {b};
    }
  }

  /** Run the pass over a module. */
  method CleanUp(m: Module) returns (r: Module)
    ensures r == CleanModule(m)
  {
    var funs: seq<Func> := [];
    for i := 0 to |m.funs|
      invariant funs == CleanModule(m).funs[..i]
    {
      var g := CleanBlocks(m.funs[i].blocks);
      funs := funs + [Func(m.funs[i].isExtern, g)];
    }
    r := Module(funs);
  }
}
