/** The state of a code generator inside one function, and the builder operations that change it. */
module Builder {
  import opened Lang
  import opened Machine
  import opened Lowering
  import opened Growth

  /** The blocks so far, the block instructions are appended to, the next block number and instruction
      identity, and the variable pointers stored on declarations so far. */
  datatype Gen = Gen(blocks: Graph, cur: nat, nextBlock: nat, nextId: nat, lay: Layout)

  const EMPTY: Gen := Gen(map[ENTRY := []], ENTRY, 1, 0, Layout([], map[]))

  function Code(g: Gen, b: nat): seq<Node> {
    if b in g.blocks then g.blocks[b] else []
  }

  /** Where the next instruction goes. */
  function Here(g: Gen): Pos {
    Pos(g.cur, |Code(g, g.cur)|)
  }

  /** Append an instruction to the selected block. */
  function Emit(g: Gen, ins: Instr): Gen {
    g.(blocks := g.blocks[g.cur := Code(g, g.cur) + [Node(g.nextId, ins)]], nextId := g.nextId + 1)
  }

  /** Add an empty block. */
  function AddBlock(g: Gen): Gen {
    g.(blocks := g.blocks[g.nextBlock := []], nextBlock := g.nextBlock + 1)
  }

  function Select(g: Gen, b: nat): Gen {
    g.(cur := b)
  }

  function EraseBlock(g: Gen, b: nat): Gen {
    g.(blocks := g.blocks - {b})
  }

  function WithTargets(ins: Instr, whenTrue: Option<nat>, whenFalse: Option<nat>): Instr {
    if ins.CondJump? then
      ins.(whenTrue := if whenTrue.Some? then whenTrue else ins.whenTrue,
           whenFalse := if whenFalse.Some? then whenFalse else ins.whenFalse)
    else ins
  }

  /** Fill in the targets of the conditional jump at `p`; None leaves a target as it is. */
  function Patch(g: Gen, p: Pos, whenTrue: Option<nat>, whenFalse: Option<nat>): Gen {
    if p.index < |Code(g, p.block)| then
      var n := g.blocks[p.block][p.index];
      g.(blocks := g.blocks[p.block :=
        g.blocks[p.block][p.index := n.(ins := WithTargets(n.ins, whenTrue, whenFalse))]])
    else g
  }

  /** Store the variable pointer on declaration `d`. */
  function AddLocal(g: Gen, d: nat, alloc: nat): Gen {
    g.(lay := g.lay.(locals := g.lay.locals[d := Cell(alloc)]))
  }

  ghost predicate Ok(g: Gen) {
    (forall b :: b in g.blocks ==> b < g.nextBlock) && g.cur < g.nextBlock && IdsBelow(g.blocks, g.nextId) &&
      LayoutBelow(g.lay, g.nextId)
  }

  /** From `g` to `g1` only block `g.cur` and blocks that are new have changed, and the insertion point is
      in one of them. */
  ghost predicate Extends(g: Gen, g1: Gen) {
    Ok(g1) && g.nextId <= g1.nextId && g.nextBlock <= g1.nextBlock && AppendsTo(g.blocks, g.cur, g1.blocks) &&
    LayoutGrows(g.lay, g1.lay) && (g1.cur == g.cur || g1.cur >= g.nextBlock)
  }

  /** `Extends` within one block: straight-line code. */
  ghost predicate Straight(g: Gen, g1: Gen) {
    Extends(g, g1) && g1.cur == g.cur && g1.blocks.Keys == g.blocks.Keys && g1.nextBlock == g.nextBlock &&
      g1.lay == g.lay
  }

  lemma EmitOk(g: Gen, ins: Instr)
    requires Ok(g) && g.cur in g.blocks
    ensures Straight(g, Emit(g, ins)) && Grows(g.blocks, Emit(g, ins).blocks)
  {
    AppendKeepsIds(g.blocks, g.cur, g.nextId, ins);
  }

  lemma AddBlockOk(g: Gen)
    requires Ok(g)
    ensures Ok(AddBlock(g)) && Grows(g.blocks, AddBlock(g).blocks)
  {
    SameIds(g.blocks, AddBlock(g).blocks, g.nextId);
  }

  lemma PatchOk(g: Gen, p: Pos, whenTrue: Option<nat>, whenFalse: Option<nat>)
    requires Ok(g) && Holds(g.blocks, p.block, p.index) && g.blocks[p.block][p.index].ins.CondJump?
    requires whenTrue.Some? ==> g.blocks[p.block][p.index].ins.whenTrue.None?
    requires whenFalse.Some? ==> g.blocks[p.block][p.index].ins.whenFalse.None?
    ensures var g1 := Patch(g, p, whenTrue, whenFalse); Ok(g1) && Grows(g.blocks, g1.blocks)
  {
    SameIds(g.blocks, Patch(g, p, whenTrue, whenFalse).blocks, g.nextId);
  }

  lemma ExtendsGrows(g: Gen, g1: Gen)
    requires Extends(g, g1)
    ensures Grows(g.blocks, g1.blocks)
  {
    AppendsGrows(g.blocks, g.cur, g1.blocks);
  }

  lemma ExtendsTrans(g: Gen, g1: Gen, g2: Gen)
    requires Ok(g) && Extends(g, g1) && Extends(g1, g2)
    ensures Extends(g, g2)
  {
    forall b | b in g.blocks && b != g.cur
      ensures g2.blocks[b] == g.blocks[b]
    {
      assert b < g.nextBlock;
    }
  }

  lemma StraightTrans(g: Gen, g1: Gen, g2: Gen)
    requires Ok(g) && Straight(g, g1) && Straight(g1, g2)
    ensures Straight(g, g2)
  {
    ExtendsTrans(g, g1, g2);
  }

  /** `h` was reached from `g` by changes to block `g.cur` behind its end in `g`, and to blocks `g` does not have. */
  ghost predicate Since(g: Gen, h: Gen) {
    Ok(h) && g.nextId <= h.nextId && g.nextBlock <= h.nextBlock && AppendsTo(g.blocks, g.cur, h.blocks) &&
      LayoutGrows(g.lay, h.lay)
  }

  /** A block of `h` that may change without disturbing `g`. */
  predicate Free(g: Gen, h: Gen, b: nat) {
    b in h.blocks && (b == g.cur || b >= g.nextBlock)
  }

  lemma SinceEmit(g: Gen, h: Gen, ins: Instr)
    requires Ok(g) && Since(g, h) && Free(g, h, h.cur)
    ensures Since(g, Emit(h, ins)) && Grows(h.blocks, Emit(h, ins).blocks)
  {
    EmitOk(h, ins);
  }

  lemma SinceAdd(g: Gen, h: Gen)
    requires Ok(g) && Since(g, h)
    ensures Since(g, AddBlock(h)) && Grows(h.blocks, AddBlock(h).blocks) && Free(g, AddBlock(h), h.nextBlock)
  {
    AddBlockOk(h);
  }

  lemma SincePatch(g: Gen, h: Gen, p: Pos, whenTrue: Option<nat>, whenFalse: Option<nat>)
    requires Ok(g) && Since(g, h) && Free(g, h, p.block) && Holds(h.blocks, p.block, p.index) &&
      h.blocks[p.block][p.index].ins.CondJump?
    requires p.index >= |Code(g, p.block)|
    requires whenTrue.Some? ==> h.blocks[p.block][p.index].ins.whenTrue.None?
    requires whenFalse.Some? ==> h.blocks[p.block][p.index].ins.whenFalse.None?
    ensures Since(g, Patch(h, p, whenTrue, whenFalse)) && Grows(h.blocks, Patch(h, p, whenTrue, whenFalse).blocks)
  {
    PatchOk(h, p, whenTrue, whenFalse);
  }

  lemma SinceTrans(g: Gen, h: Gen, h1: Gen)
    requires Ok(g) && Since(g, h) && Free(g, h, h.cur) && Since(h, h1)
    ensures Since(g, h1) && Grows(h.blocks, h1.blocks)
  {
    AppendsGrows(h.blocks, h.cur, h1.blocks);
    forall b | b in g.blocks && b != g.cur
      ensures h1.blocks[b] == g.blocks[b]
    {
      assert b < g.nextBlock;
    }
  }

  lemma SinceErase(g: Gen, h: Gen, b: nat)
    requires Ok(g) && Since(g, h) && b >= g.nextBlock && b in h.blocks && h.blocks[b] == []
    ensures Since(g, EraseBlock(h, b)) && Grows(h.blocks, EraseBlock(h, b).blocks)
  {
    SameIds(h.blocks, EraseBlock(h, b).blocks, h.nextId);
  }

  /** All declarations with a variable pointer are numbered below `n`, and the visible ones have theirs. */
  ghost predicate Covers(lay: Layout, vis: set<nat>, n: nat) {
    vis <= lay.locals.Keys && forall d :: d in lay.locals ==> d < n
  }

  /** The generator can start on a statement whose first local is number `n`. */
  ghost predicate Accepts(g: Gen, s: Stmt, vis: set<nat>, n: nat) {
    Ok(g) && g.cur in g.blocks && SupportedStmt(s) && Declared(s, |g.lay.params|, vis, n) && Covers(g.lay, vis, n)
  }

  ghost predicate AcceptsAll(g: Gen, ss: seq<Stmt>, vis: set<nat>, n: nat) {
    Ok(g) && g.cur in g.blocks && AllSupported(ss) && AllDeclared(ss, |g.lay.params|, vis, n) && Covers(g.lay, vis, n)
  }
}
