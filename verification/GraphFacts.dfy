/** The reconstructed graph meets what lifting relies on, and its edges are the machine's. */
module GraphFacts {
  import opened Options
  import opened Words
  import opened Bpf
  import opened Cfg
  import opened Emission
  import opened Lifting
  import Ir

  lemma LabelledKind(p: Program, k: nat)
    requires DecodableProgram(p) && k < |p|
    ensures Labelled(p)[k].IsTerminator() == p[k].IsTerminator()
    ensures Labelled(p)[k].Exit? == p[k].Exit? && Labelled(p)[k].IsBranch() == p[k].IsBranch()
    ensures !p[k].IsBranch() ==> Labelled(p)[k] == SignExtended(p[k])
  {
    LabelledAt(p, |p|, k);
  }

  /** Inside a block no instruction but the last is a terminator. */
  lemma InnerNotTerminator(p: Program, b: nat, k: nat)
    requires DecodableProgram(p) && b < |StartsOf(p)|
    requires StartsOf(p)[b] <= k && k + 1 < EndOf(StartsOf(p), |p|, b) <= |p|
    ensures !p[k].IsTerminator()
  {
    StartsOrdered(Units(p), Leaders(p), |p|);
    NoStartInside(StartsOf(p), |p|, b, k + 1);
    if p[k].IsTerminator() {
      TerminatorEndsBlock(p, k);
      UnitAt(p, |p|, k + 1);
      StartIffLeader(Units(p), Leaders(p), |p|, k + 1);
      assert false;
    }
  }

  lemma NoStartInside(s: seq<nat>, n: nat, b: nat, k: nat)
    requires forall i, j :: 0 <= i < j < |s| ==> s[i] < s[j]
    requires b < |s| && s[b] < k < EndOf(s, n, b)
    ensures k !in s
  {
    forall i | 0 <= i < |s| ensures s[i] != k {
      if i <= b {
        assert s[i] <= s[b];
      } else {
        assert s[b + 1] <= s[i];
      }
    }
  }

  lemma InnerBlock(p: Program, b: nat, instrs: seq<Insn>)
    requires DecodableProgram(p) && b < |StartsOf(p)|
    requires StartsOf(p)[b] < EndOf(StartsOf(p), |p|, b) <= |p|
    requires instrs == Labelled(p)[StartsOf(p)[b]..EndOf(StartsOf(p), |p|, b)]
    ensures instrs != []
    ensures forall j :: 0 <= j < |instrs| - 1 ==> !instrs[j].IsTerminator()
  {
    var s := StartsOf(p)[b];
    forall j | 0 <= j < |instrs| - 1 ensures !instrs[j].IsTerminator() {
      InnerNotTerminator(p, b, s + j);
      LabelledKind(p, s + j);
    }
  }

  lemma FallsToOne(bs: seq<McBlock>, b: nat)
    requires b < |bs| && bs[b].instrs != [] && !bs[b].instrs[|bs[b].instrs| - 1].IsTerminator()
    ensures SuccsOf(bs, b) == if b + 1 < |bs| then [b + 1] else []
  {
  }

  lemma GraphBlockWellFormed(p: Program, b: nat)
    requires DecodableProgram(p) && b < |StartsOf(p)|
    ensures 1 + b < |Graph(p)| && WellFormedBlock(Graph(p)[1 + b])
  {
    GraphBlockAt(p, b);
    GraphSuccs(p, b);
    InnerBlock(p, b, Graph(p)[1 + b].instrs);
    BlockWellFormed(Graph(p)[1 + b], WithEntry(Blocks(p)), 1 + b);
  }

  lemma BlockWellFormed(blk: McBlock, bs: seq<McBlock>, b: nat)
    requires b < |bs| && blk.instrs == bs[b].instrs != [] && blk.succs == SuccsOf(bs, b)
    requires forall j :: 0 <= j < |blk.instrs| - 1 ==> !blk.instrs[j].IsTerminator()
    ensures WellFormedBlock(blk)
  {
    if !blk.instrs[|blk.instrs| - 1].IsTerminator() {
      FallsToOne(bs, b);
    }
  }

  lemma GraphSuccs(p: Program, b: nat)
    requires DecodableProgram(p) && b < |Blocks(p)|
    ensures 1 + b < |Graph(p)|
    ensures Graph(p)[1 + b].succs == SuccsOf(WithEntry(Blocks(p)), 1 + b)
    ensures WithEntry(Blocks(p))[1 + b].instrs == Graph(p)[1 + b].instrs
  {
    GraphOver(Blocks(p), b);
  }

  lemma GraphWellFormed(p: Program)
    requires DecodableProgram(p)
    ensures WellFormed(Graph(p))
    ensures |Graph(p)| == 1 + |StartsOf(p)|
  {
    var g := Graph(p);
    BlockPerStart(Labelled(p), Units(p), Names(p), Leaders(p), |p|);
    assert g[0].instrs == [Jump(false, Offset(1))];
    forall b | 0 <= b < |g| ensures WellFormedBlock(g[b]) {
      if b > 0 { GraphBlockWellFormed(p, b - 1); }
    }
  }

  // ---------------------------------------------------------------- names resolve in the IR as in the graph

  lemma {:induction false} BlockNamedFound(f: Ir.Fn, bs: seq<McBlock>, name: string)
    requires |bs| <= |f| && (forall b :: 0 <= b < |bs| ==> f[b].name == bs[b].name)
    requires FindBlock(bs, name).Some?
    ensures BlockNamed(f, name) == FindBlock(bs, name).value
    decreases |bs|
  {
    if bs[0].name != name {
      BlockNamedFound(f[1..], bs[1..], name);
    }
  }

  /** Every block but the entry block is found, by its name, at its own number. */
  ghost predicate Resolves(f: Ir.Fn, g: seq<McBlock>) {
    forall b :: 1 <= b < |g| ==> BlockNamed(f, g[b].name) == b
  }

  /** Names of the graph of p resolve all the time it is being lifted. */
  lemma GraphResolves(p: Program, f: Ir.Fn)
    requires DecodableProgram(p) && |Graph(p)| <= |f|
    requires forall b :: 0 <= b < |Graph(p)| ==> f[b].name == Graph(p)[b].name
    ensures Resolves(f, Graph(p))
  {
    BlockPerStart(Labelled(p), Units(p), Names(p), Leaders(p), |p|);
    forall b | 1 <= b < |Graph(p)| ensures BlockNamed(f, Graph(p)[b].name) == b {
      LabelResolves(p, f, b - 1);
    }
  }

  lemma {:induction false} LabelResolves(p: Program, f: Ir.Fn, b: nat)
    requires DecodableProgram(p) && b < |StartsOf(p)| && |Graph(p)| == 1 + |StartsOf(p)| <= |f|
    requires forall k :: 0 <= k < |Graph(p)| ==> f[k].name == Graph(p)[k].name
    ensures BlockNamed(f, Graph(p)[1 + b].name) == 1 + b
  {
    NameFindsBlock(p, b);
    GraphBlockAt(p, b);
    var bs := WithEntry(Blocks(p));
    forall k | 0 <= k < |bs| ensures f[k].name == bs[k].name {
      assert Graph(p)[k].name == bs[k].name;
    }
    BlockNamedFound(f, bs, Names(p)[StartsOf(p)[b]]);
  }

  // ---------------------------------------------------------------- successor lists

  /** The last instruction of a block and what generateSuccessors makes of it. */
  lemma SuccessorsOfLast(p: Program, b: nat, last: Insn)
    requires DecodableProgram(p) && b < |StartsOf(p)|
    requires |Blocks(p)| == |StartsOf(p)| && 1 + b < |Graph(p)|
    requires |Graph(p)[1 + b].instrs| > 0 && Graph(p)[1 + b].instrs[|Graph(p)[1 + b].instrs| - 1] == last
    ensures !last.IsTerminator() && 2 + b < |Graph(p)| ==> Graph(p)[1 + b].succs == [2 + b]
    ensures !last.IsTerminator() && 2 + b == |Graph(p)| ==> Graph(p)[1 + b].succs == []
    ensures last.Branch? && last.target.Label? && FindBlock(WithEntry(Blocks(p)), last.target.name).Some? ==>
              Graph(p)[1 + b].succs
              == AddOptional([FindBlock(WithEntry(Blocks(p)), last.target.name).value],
                             if 2 + b < |Graph(p)| then Some(2 + b) else None)
  {
    GraphSuccs(p, b);
    assert |WithEntry(Blocks(p))| == |Graph(p)|;
  }

  /** Composing the successor list with the branch's label: the taken edge goes to the
      labelled block and the other to the next block, also when the two coincide. In the last
      block there is no next block, and both edges go to the labelled one. */
  lemma BranchEdges(f: Ir.Fn, g: seq<McBlock>, b: nat, t: nat)
    requires Resolves(f, g) && b < |g| && 1 <= t < |g|
    requires g[b].succs == AddOptional([t], if b + 1 < |g| then Some(b + 1) else None)
    ensures BranchTargets(f, g, b, g[t].name) == (t, if b + 1 < |g| then b + 1 else t)
  {
    if b + 1 < |g| && b + 1 != t {
      SecondIsOther(g, t, b + 1, g[t].name);
    } else {
      OnlyOne(g, t, g[t].name);
    }
  }

  lemma {:induction false} SecondIsOther(g: seq<McBlock>, x: nat, y: nat, name: string)
    requires x < |g| && y < |g| && g[x].name == name && g[y].name != name
    ensures OtherSuccessor(g, [x, y], name) == g[y].name
  {
    assert [x, y][1..] == [y];
    assert OtherSuccessor(g, [y], name) == g[y].name;
  }

  lemma {:induction false} OnlyOne(g: seq<McBlock>, x: nat, name: string)
    requires x < |g| && g[x].name == name
    ensures OtherSuccessor(g, [x], name) == name
  {
    assert [x][1..] == [];
  }

  /** A block that falls through, and the entry block, continue in the next block. */
  lemma FallThroughEdge(f: Ir.Fn, g: seq<McBlock>, b: nat)
    requires Resolves(f, g) && b + 1 < |g| && g[b].succs == [b + 1]
    ensures SoleSuccessor(f, g, b) == b + 1
  {
  }

  lemma EntrySuccessor(p: Program)
    requires DecodableProgram(p) && p != []
    ensures |Graph(p)| >= 2 && Graph(p)[0].instrs == [Jump(false, Offset(1))] && Graph(p)[0].succs == [1]
  {
    BlockPerStart(Labelled(p), Units(p), Names(p), Leaders(p), |p|);
    StartsOrdered(Units(p), Leaders(p), |p|);
  }

  /** No block of the program branches or falls through to the synthetic entry block. */
  lemma EntryHasNoPredecessor(p: Program, b: nat)
    requires Resolvable(p) && b < |Graph(p)|
    ensures 0 !in Graph(p)[b].succs
  {
    if b == 0 {
      EntrySuccessor(p);
    } else {
      GraphWellFormed(p);
      GraphBlockAt(p, b - 1);
      GraphSuccs(p, b - 1);
      var e := EndOf(StartsOf(p), |p|, b - 1) - 1;
      SliceAt(Labelled(p), StartsOf(p)[b - 1], e + 1, e);
      LastBranchFound(p, e);
      NotBackToEntry(WithEntry(Blocks(p)), b);
    }
  }

  lemma LastBranchFound(p: Program, k: nat)
    requires Resolvable(p) && k < |p|
    ensures var i := Labelled(p)[k];
            i.IsBranch() ==> i.target.Label? && FindBlock(WithEntry(Blocks(p)), i.target.name) != Some(0)
  {
    LabelledKind(p, k);
    if p[k].IsBranch() {
      UnitNonNegative(p, k);
      LabelledAt(p, |p|, k);
      var t := InsnIndex(p, Cfg.Target(p, k));
      TargetStartsBlock(p, k, t);
    }
  }

  lemma {:induction false} NotBackToEntry(bs: seq<McBlock>, b: nat)
    requires 0 < b < |bs| && bs[b].instrs != []
    requires var i := bs[b].instrs[|bs[b].instrs| - 1];
             i.IsBranch() ==> i.target.Label? && FindBlock(bs, i.target.name) != Some(0)
    ensures 0 !in SuccsOf(bs, b)
  {
  }
}
