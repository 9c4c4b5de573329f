/** Lifting a whole control-flow graph: the emission invariant over all blocks, and where
    the code of each instruction ends up in the finished function. */
module Lifting {
  import opened Options
  import opened Ir
  import opened Codegen
  import opened Cfg
  import opened Emission
  import opened Abi
  import opened Prologue
  import Bpf

  predicate ValidArgs(args: seq<ArgType>) { |args| <= 5 && forall t <- args :: t.Valid() }

  function EmptyBlocks(g: seq<McBlock>): (f: Fn)
    ensures |f| == |g|
    ensures forall b :: 0 <= b < |g| ==> f[b] == Block(g[b].name, [], None)
  {
    seq(|g|, b requires 0 <= b < |g| => Block(g[b].name, [], None))
  }

  /** All blocks created, the entry code in the first of them. */
  function Prepared(g: seq<McBlock>, args: seq<ArgType>): (e: Emitted)
    requires g != [] && ValidArgs(args)
    ensures e.Valid() && |e.blocks| == |g|
  {
    Emitted(EmptyBlocks(g), 0, 0, 0).Append(Setup(args)).(off := ArgOffset(args, |args|))
  }

  /** The lifted function. */
  function LiftGraph(g: seq<McBlock>, args: seq<ArgType>): Fn
    requires g != [] && ValidArgs(args)
  {
    LiftBlocks(Prepared(g, args), g, |g|).blocks
  }

  /** What the lifter relies on: no empty block, terminators only at the end of blocks, and
      a block that falls through has at most one successor. */
  ghost predicate WellFormed(g: seq<McBlock>) {
    g != [] && forall b :: 0 <= b < |g| ==> WellFormedBlock(g[b])
  }

  ghost predicate WellFormedBlock(b: McBlock) {
    && b.instrs != []
    && (forall j :: 0 <= j < |b.instrs| - 1 ==> !b.instrs[j].IsTerminator())
    && (!b.instrs[|b.instrs| - 1].IsTerminator() ==> |b.succs| <= 1)
  }

  // ---------------------------------------------------------------- the invariant over blocks

  lemma {:induction false} LiftInstrsKeeps(e: Emitted, g: seq<McBlock>, b: nat, j: nat)
    requires Lifting(e, g, b) && e.Open() && j <= |g[b].instrs| && WellFormedBlock(g[b])
    ensures var e' := LiftInstrs(e, g, b, j);
            && Lifting(e', g, b)
            && Extends(e.blocks, e'.blocks)
            && (e'.Open() <==> j == 0 || !g[b].instrs[j - 1].IsTerminator())
    decreases j
  {
    if j > 0 {
      LiftInstrsKeeps(e, g, b, j - 1);
      var e1 := LiftInstrs(e, g, b, j - 1);
      LiftInsnKeeps(e1, g, b, g[b].instrs[j - 1]);
      ExtendsTransitive(e.blocks, e1.blocks, LiftInstrs(e, g, b, j).blocks);
    } else {
      ExtendsSelf(e.blocks);
    }
  }

  lemma ExtendsSelf(f: Fn)
    ensures Extends(f, f)
  {
  }

  lemma BeginBlock(e: Emitted, g: seq<McBlock>, b: nat)
    requires Between(e, g, b) && b < |g|
    ensures Lifting(e.(cur := b), g, b) && e.(cur := b).Open()
  {
  }

  lemma FallThroughKeeps(e: Emitted, g: seq<McBlock>, b: nat)
    requires Lifting(e, g, b) && (e.Open() ==> |g[b].succs| <= 1)
    ensures Between(FallThrough(e, g, b), g, b + 1)
    ensures Extends(e.blocks, FallThrough(e, g, b).blocks)
  {
    var e' := FallThrough(e, g, b);
    if !e.Open() {
      ExtendsSelf(e.blocks);
    } else if |g[b].succs| == 0 {
      ReturnKeeps(e, g, b);
    } else {
      CloseKeeps(e, g, b, Goto(SoleSuccessor(e.blocks, g, b)));
    }
    assert Lifting(e', g, b) && !e'.Open();
  }

  lemma LiftBlockKeeps(e: Emitted, g: seq<McBlock>, b: nat)
    requires Between(e, g, b) && b < |g| && WellFormedBlock(g[b])
    ensures Between(LiftBlock(e, g, b), g, b + 1)
    ensures Extends(e.blocks, LiftBlock(e, g, b).blocks)
  {
    BeginBlock(e, g, b);
    var n := |g[b].instrs|;
    LiftInstrsKeeps(e.(cur := b), g, b, n);
    var e1 := LiftInstrs(e.(cur := b), g, b, n);
    FallThroughKeeps(e1, g, b);
    ExtendsTransitive(e.blocks, e1.blocks, LiftBlock(e, g, b).blocks);
  }

  lemma {:induction false} LiftBlocksKeep(e: Emitted, g: seq<McBlock>, m: nat, n: nat)
    requires e.Valid() && WellFormed(g) && m <= n <= |g| <= |e.blocks| && Between(e, g, 0)
    ensures Between(LiftBlocks(e, g, n), g, n)
    ensures Extends(LiftBlocks(e, g, m).blocks, LiftBlocks(e, g, n).blocks)
    decreases n
  {
    if n == 0 {
      ExtendsSelf(e.blocks);
    } else {
      LiftBlocksKeep(e, g, if m < n then m else n - 1, n - 1);
      var e1 := LiftBlocks(e, g, n - 1);
      LiftBlockKeeps(e1, g, n - 1);
      if m < n {
        ExtendsTransitive(LiftBlocks(e, g, m).blocks, e1.blocks, LiftBlocks(e, g, n).blocks);
      } else {
        ExtendsSelf(LiftBlocks(e, g, n).blocks);
      }
    }
  }

  lemma PreparedBetween(g: seq<McBlock>, args: seq<ArgType>)
    requires g != [] && ValidArgs(args)
    ensures Between(Prepared(g, args), g, 0)
  {
  }

  /** When lifting ends, every block of the function, those of the division diamonds
      included, has its one terminator. */
  lemma EveryBlockClosed(g: seq<McBlock>, args: seq<ArgType>)
    requires WellFormed(g) && ValidArgs(args)
    ensures |g| <= |LiftGraph(g, args)|
    ensures forall b :: 0 <= b < |LiftGraph(g, args)| ==> LiftGraph(g, args)[b].term.Some?
  {
    PreparedBetween(g, args);
    LiftBlocksKeep(Prepared(g, args), g, |g|, |g|);
  }

  // ---------------------------------------------------------------- where an instruction's code is

  /** The function as it was when instruction j of block b was about to be lifted. */
  function EmittedBefore(g: seq<McBlock>, args: seq<ArgType>, b: nat, j: nat): (e: Emitted)
    requires g != [] && ValidArgs(args) && b < |g| && j <= |g[b].instrs|
    ensures e.Valid()
  {
    LiftInstrs(LiftBlocks(Prepared(g, args), g, b).(cur := b), g, b, j)
  }

  /** The finished function contains the function as it was then. */
  lemma FinishedExtends(g: seq<McBlock>, args: seq<ArgType>, b: nat, j: nat)
    requires WellFormed(g) && ValidArgs(args) && b < |g| && j <= |g[b].instrs|
    ensures Lifting(EmittedBefore(g, args, b, j), g, b)
    ensures EmittedBefore(g, args, b, j).Open() <==> j == 0 || !g[b].instrs[j - 1].IsTerminator()
    ensures Extends(EmittedBefore(g, args, b, j).blocks, LiftGraph(g, args))
  {
    var e0 := Prepared(g, args);
    var e := LiftBlocks(e0, g, b);
    var e1 := e.(cur := b);
    PreparedBetween(g, args);
    assert WellFormedBlock(g[b]);
    assert EmittedBefore(g, args, b, j) == LiftInstrs(e1, g, b, j);
    assert LiftBlocks(e0, g, b + 1) == LiftBlock(e, g, b) == FallThrough(LiftInstrs(e1, g, b, |g[b].instrs|), g, b);
    assert LiftGraph(g, args) == LiftBlocks(e0, g, |g|).blocks;
    hide EmittedBefore, LiftGraph, LiftBlocks, LiftBlock, LiftInstrs, FallThrough, Prepared, Between, Lifting, Extends, WellFormed, WellFormedBlock;
    LiftBlocksKeep(e0, g, b, b);
    LiftBlocksKeep(e0, g, b + 1, |g|);
    BeginBlock(e, g, b);
    LiftInstrsKeeps(e1, g, b, j);
    RestExtends(e1, g, b, j);
    ExtendsTransitive(EmittedBefore(g, args, b, j).blocks, LiftBlock(e, g, b).blocks, LiftGraph(g, args));
  }

  lemma {:induction false} InstrsExtend(e: Emitted, g: seq<McBlock>, b: nat, i: nat, j: nat)
    requires Lifting(e, g, b) && e.Open() && i <= j <= |g[b].instrs| && WellFormedBlock(g[b])
    ensures Extends(LiftInstrs(e, g, b, i).blocks, LiftInstrs(e, g, b, j).blocks)
    decreases j
  {
    if i < j {
      InstrsExtend(e, g, b, i, j - 1);
      LiftInstrsKeeps(e, g, b, j - 1);
      OneMoreExtends(LiftInstrs(e, g, b, j - 1), g, b, j, LiftInstrs(e, g, b, i).blocks);
    } else {
      ExtendsSelf(LiftInstrs(e, g, b, j).blocks);
    }
  }

  lemma OneMoreExtends(e: Emitted, g: seq<McBlock>, b: nat, j: nat, f: Fn)
    requires Lifting(e, g, b) && 0 < j <= |g[b].instrs| && WellFormedBlock(g[b])
    requires e.Open() <==> j - 1 == 0 || !g[b].instrs[j - 2].IsTerminator()
    requires Extends(f, e.blocks)
    ensures Extends(f, LiftInsn(e, g, b, g[b].instrs[j - 1]).blocks)
  {
    LiftInsnKeeps(e, g, b, g[b].instrs[j - 1]);
    ExtendsTransitive(f, e.blocks, LiftInsn(e, g, b, g[b].instrs[j - 1]).blocks);
  }

  lemma {:induction false} RestExtends(e: Emitted, g: seq<McBlock>, b: nat, j: nat)
    requires Lifting(e, g, b) && e.Open() && j <= |g[b].instrs| && WellFormedBlock(g[b])
    ensures Extends(LiftInstrs(e, g, b, j).blocks, FallThrough(LiftInstrs(e, g, b, |g[b].instrs|), g, b).blocks)
  {
    var n := |g[b].instrs|;
    InstrsExtend(e, g, b, j, n);
    LiftInstrsKeeps(e, g, b, n);
    FallThroughKeeps(LiftInstrs(e, g, b, n), g, b);
    ExtendsTransitive(LiftInstrs(e, g, b, j).blocks, LiftInstrs(e, g, b, n).blocks,
                      FallThrough(LiftInstrs(e, g, b, n), g, b).blocks);
  }

  /** So is a block as it was closed after its last instruction. */
  lemma {:induction false} FinishedExtendsClosed(g: seq<McBlock>, args: seq<ArgType>, b: nat)
    requires WellFormed(g) && ValidArgs(args) && b < |g|
    ensures var e := EmittedBefore(g, args, b, |g[b].instrs|);
            && LiftBlock(LiftBlocks(Prepared(g, args), g, b), g, b) == FallThrough(e, g, b)
            && Extends(FallThrough(e, g, b).blocks, LiftGraph(g, args))
  {
    var e0 := Prepared(g, args);
    PreparedBetween(g, args);
    LiftBlocksKeep(e0, g, b + 1, |g|);
    var e1 := LiftBlocks(e0, g, b);
    assert LiftBlocks(e0, g, b + 1) == LiftBlock(e1, g, b);
    assert LiftBlock(e1, g, b) == FallThrough(EmittedBefore(g, args, b, |g[b].instrs|), g, b);
  }

  /** Lifting of a block after the entry block begins at its first instruction, in a block
      of its own number with nothing in it. */
  lemma BlockBegins(g: seq<McBlock>, args: seq<ArgType>, b: nat)
    requires WellFormed(g) && ValidArgs(args) && 0 < b < |g|
    ensures EmittedBefore(g, args, b, 0).cur == b && EmittedBefore(g, args, b, 0).blocks[b].insts == []
  {
    PreparedBetween(g, args);
    LiftBlocksKeep(Prepared(g, args), g, b, b);
  }
}
