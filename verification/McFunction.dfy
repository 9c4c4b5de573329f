/** The machine function as it is built up: a list of blocks that grows at the end, gets an
    entry block in front, and has its successor lists filled in. */
module McFunctions {
  import opened Options
  import opened Bpf
  import opened Cfg
  import opened Emission
  import opened Lifting

  /** Blocks with at least one instruction, in order. */
  function NonEmpty(bs: seq<McBlock>): seq<McBlock> {
    if bs == [] then []
    else NonEmpty(bs[..|bs| - 1]) + if bs[|bs| - 1].instrs == [] then [] else [bs[|bs| - 1]]
  }

  lemma {:induction false} NonEmptyAll(bs: seq<McBlock>)
    requires forall b <- bs :: b.instrs != []
    ensures NonEmpty(bs) == bs
    decreases |bs|
  {
    if bs != [] {
      var front := bs[..|bs| - 1];
      forall b | b in front ensures b.instrs != [] { assert b in bs; }
      NonEmptyAll(front);
      assert bs == front + [bs[|bs| - 1]];
    }
  }

  /** The label a branch ends its block with names a block. */
  predicate TargetsKnown(bs: seq<McBlock>) {
    forall b :: 0 <= b < |bs| && bs[b].instrs != [] ==> BranchKnown(bs, bs[b].instrs[|bs[b].instrs| - 1])
  }

  predicate BranchKnown(bs: seq<McBlock>, i: Insn) {
    i.Branch? ==> i.target.Label? && FindBlock(bs, i.target.name).Some?
  }

  class McFunction {
    var blocks: seq<McBlock>

    constructor ()
      ensures blocks == []
    {
      blocks := [];
    }

    method AddBlock(name: string) returns (b: nat)
      modifies this
      ensures blocks == old(blocks) + [McBlock(name, [], [])]
      ensures b == |old(blocks)|
    {
      b := |blocks|;
      blocks := blocks + [McBlock(name, [], [])];
    }

    method AddInst(b: nat, i: Insn)
      requires b < |blocks|
      modifies this
      ensures blocks == old(blocks)[b := old(blocks)[b].(instrs := old(blocks)[b].instrs + [i])]
    {
      blocks := blocks[b := blocks[b].(instrs := blocks[b].instrs + [i])];
    }

    method AddInstBegin(b: nat, i: Insn)
      requires b < |blocks|
      modifies this
      ensures blocks == old(blocks)[b := old(blocks)[b].(instrs := [i] + old(blocks)[b].instrs)]
    {
      blocks := blocks[b := blocks[b].(instrs := [i] + blocks[b].instrs)];
    }

    method AddSucc(b: nat, s: nat)
      requires b < |blocks|
      modifies this
      ensures blocks == old(blocks)[b := old(blocks)[b].(succs := Cfg.AddSucc(old(blocks)[b].succs, s))]
    {
      if s !in blocks[b].succs {
        blocks := blocks[b := blocks[b].(succs := blocks[b].succs + [s])];
      } else {
        assert blocks[b].(succs := blocks[b].succs) == blocks[b];
      }
    }

    method FindBlockByName(name: string) returns (r: Option<nat>)
      ensures r == FindBlock(blocks, name)
    {
      var k := 0;
      while k < |blocks|
        invariant 0 <= k <= |blocks|
        invariant forall b :: 0 <= b < k ==> blocks[b].name != name
      {
        if blocks[k].name == name {
          FoundAt(blocks, name, k);
          return Some(k);
        }
        k := k + 1;
      }
      return None;
    }

    /** Drop blocks without instructions; the others keep their order. */
    method RemoveEmptyBlocks()
      modifies this
      ensures blocks == NonEmpty(old(blocks))
    {
      var kept: seq<McBlock> := [];
      var k := 0;
      while k < |blocks|
        invariant 0 <= k <= |blocks|
        invariant kept == NonEmpty(blocks[..k])
        invariant blocks == old(blocks)
      {
        assert blocks[..k + 1][..k] == blocks[..k];
        if blocks[k].instrs != [] {
          kept := kept + [blocks[k]];
        }
        k := k + 1;
      }
      assert blocks[..k] == blocks;
      blocks := kept;
    }

    /** A block that no label can name goes in front and jumps to the next. */
    method CheckEntryBlock()
      modifies this
      ensures blocks == WithEntry(old(blocks))
    {
      blocks := [McBlock(ENTRY, [], [])] + blocks;
      AddInstBegin(0, Jump(false, Offset(1)));
      assert [Jump(false, Offset(1))] + [] == [Jump(false, Offset(1))];
      assert blocks == WithEntry(old(blocks));
    }

    /** Fill in the successor lists of blocks that have none yet. */
    method GenerateSuccessors()
      requires forall b <- blocks :: b.succs == []
      requires TargetsKnown(blocks)
      modifies this
      ensures blocks == WithSuccs(old(blocks))
    {
      ghost var bs := blocks;
      var k := 0;
      while k < |blocks|
        invariant 0 <= k <= |blocks| == |bs|
        invariant forall b :: 0 <= b < k ==> blocks[b] == bs[b].(succs := SuccsOf(bs, b))
        invariant forall b :: k <= b < |bs| ==> blocks[b] == bs[b]
      {
        assert bs[k] in bs;
        SuccessorsOfBlock(k, bs);
        k := k + 1;
      }
    }

    /** The successors of one block, found by the names and instructions of all. */
    method SuccessorsOfBlock(k: nat, ghost bs: seq<McBlock>)
      requires k < |blocks| == |bs| && bs[k].succs == [] && blocks[k] == bs[k] && TargetsKnown(bs)
      requires forall b :: 0 <= b < |bs| ==> blocks[b].name == bs[b].name
      modifies this
      ensures blocks == old(blocks)[k := bs[k].(succs := SuccsOf(bs, k))]
    {
      ghost var before := blocks;
      var instrs := blocks[k].instrs;
      if instrs == [] {
        assert bs[k].(succs := []) == bs[k];
        return;
      }
      var last := instrs[|instrs| - 1];
      assert BranchKnown(bs, last);
      if k == 0 && last.Jump? && last.target.Offset? {
        if k + 1 < |blocks| { AddSucc(k, k + 1); }
      } else if last.Branch? {
        var t := FindBlockByName(last.target.name);
        SameNames(before, bs, last.target.name);
        AddSucc(k, t.value);
        if k + 1 < |blocks| { AddSucc(k, k + 1); }
      } else if last.Jump? && last.target.Label? {
        var t := FindBlockByName(last.target.name);
        SameNames(before, bs, last.target.name);
        if t.Some? { AddSucc(k, t.value); }
      } else if !last.Exit? && k + 1 < |blocks| {
        AddSucc(k, k + 1);
      }
      assert blocks[k] == bs[k].(succs := SuccsOf(bs, k));
    }
  }

  lemma {:induction false} FoundAt(bs: seq<McBlock>, name: string, k: nat)
    requires k < |bs| && bs[k].name == name && forall b :: 0 <= b < k ==> bs[b].name != name
    ensures FindBlock(bs, name) == Some(k)
  {
    FirstFound(bs, name);
  }

  lemma {:induction false} FirstFound(bs: seq<McBlock>, name: string)
    ensures FindBlock(bs, name).Some? ==>
              forall b :: 0 <= b < FindBlock(bs, name).value ==> bs[b].name != name
    decreases |bs|
  {
    if bs != [] && bs[0].name != name {
      FirstFound(bs[1..], name);
      if FindBlock(bs, name).Some? {
        forall b | 0 <= b < FindBlock(bs, name).value ensures bs[b].name != name {
          if b > 0 { assert bs[b] == bs[1..][b - 1]; }
        }
      }
    }
  }

  lemma {:induction false} SameNames(f: seq<McBlock>, bs: seq<McBlock>, name: string)
    requires |f| == |bs| && forall b :: 0 <= b < |bs| ==> f[b].name == bs[b].name
    ensures FindBlock(f, name) == FindBlock(bs, name)
    decreases |f|
  {
    if f != [] && f[0].name != name {
      SameNames(f[1..], bs[1..], name);
    }
  }
}
