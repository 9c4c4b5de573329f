/** Bytes mode: from decoded instructions to the lifted function. */
module BytesMode {
  import opened Options
  import opened Words
  import opened Bpf
  import opened Cfg
  import opened GraphFacts
  import opened McFunctions
  import opened Abi
  import opened Prologue
  import opened Lifting
  import opened Lifters
  import opened Scratch
  import opened WholeProgram
  import opened Realization
  import opened Theorem
  import Ir

  // ---------------------------------------------------------------- which programs are accepted

  predicate IsLocalCall(i: Insn) { i.Call? && i.srcField == 1 }

  /** The error that a program is refused with, if any. */
  ghost function Verdict(p: Program, args: seq<ArgType>): Option<LiftError>
    requires DecodableProgram(p)
  {
    if exists i <- p :: IsLocalCall(i) then Some(LocalCall)
    else if p == [] then Some(EmptyProgram)
    else if !BranchesLand(p) then Some(BadBranch)
    else if |args| > 5 then Some(TooManyArguments)
    else FirstError(Labelled(p))
  }

  /** Every branch goes to the start of an instruction. */
  ghost predicate BranchesReachInstructions(p: Program)
    requires DecodableProgram(p)
  {
    forall k :: 0 <= k < |p| && (p[k].Jump? || p[k].Branch?) ==> Boundary(p, TargetUnit(p[k], UnitOf(p, k)))
  }

  predicate Liftable(i: Insn) { !i.Unsupported? && (i.Call? ==> i.imm < 0x8000_0000) }

  /**
   * What a program is refused for, read off its decoded instructions, in this order: a local call, no instruction,
   * a branch into nowhere, too many arguments, and then the first instruction that is not supported
   * or calls a helper of negative number. Nothing else is refused.
   */
  ghost predicate RefusedFor(p: Program, args: seq<ArgType>, error: Option<LiftError>)
    requires DecodableProgram(p)
  {
    if exists i <- p :: i.Call? && i.srcField == 1 then error == Some(LocalCall)
    else if p == [] then error == Some(EmptyProgram)
    else if !BranchesReachInstructions(p) then error == Some(BadBranch)
    else if |args| > 5 then error == Some(TooManyArguments)
    else
      && (error.None? <==> forall i <- p :: Liftable(i))
      && forall k :: 0 <= k < |p| && !Liftable(p[k]) && (forall j :: 0 <= j < k ==> Liftable(p[j])) ==>
           error == Some(if p[k].Unsupported? then UnsupportedInstruction else NegativeHelper)
  }

  lemma {:induction false} LabelledMeans(p: Program, k: nat)
    requires DecodableProgram(p) && k < |p|
    ensures var i := Labelled(p)[k];
            && (i.Unsupported? <==> p[k].Unsupported?) && (i.Call? <==> p[k].Call?)
            && (i.Call? ==> (i.imm < 0 <==> p[k].imm >= 0x8000_0000))
  {
    assert p[k] in p;
    LabelledAt(p, |p|, k);
    Pow2Step(32);
  }

  lemma {:induction false} VerdictMeans(p: Program, args: seq<ArgType>)
    requires DecodableProgram(p)
    ensures RefusedFor(p, args, Verdict(p, args))
  {
    assert BranchesLand(p) <==> BranchesReachInstructions(p) by { hide Boundary; }
    ErrorsMean(p);
    hide FirstError, Labelled, BranchesLand, BranchesReachInstructions, Liftable;
  }

  lemma {:induction false} ErrorsMean(p: Program)
    requires DecodableProgram(p)
    ensures FirstError(Labelled(p)).None? <==> forall i <- p :: Liftable(i)
    ensures forall k :: 0 <= k < |p| && !Liftable(p[k]) && (forall j :: 0 <= j < k ==> Liftable(p[j])) ==>
              FirstError(Labelled(p)) == Some(if p[k].Unsupported? then UnsupportedInstruction else NegativeHelper)
  {
    var ins := Labelled(p);
    NoErrorMeans(ins);
    hide FirstError, Labelled;
    forall k | 0 <= k < |p|
      ensures ins[k].Unsupported? <==> p[k].Unsupported?
      ensures !Liftable(p[k]) <==> ins[k].Unsupported? || (ins[k].Call? && ins[k].imm < 0)
    {
      LabelledMeans(p, k);
    }
    if forall i <- p :: Liftable(i) {
      forall i | i in ins ensures !i.Unsupported? && (i.Call? ==> 0 <= i.imm) {
        var k :| 0 <= k < |ins| && ins[k] == i;
        assert p[k] in p;
      }
    } else {
      var i :| i in p && !Liftable(i);
      var k :| 0 <= k < |p| && p[k] == i;
      assert ins[k] in ins;
    }
    forall k | 0 <= k < |p| && !Liftable(p[k]) && (forall j :: 0 <= j < k ==> Liftable(p[j]))
      ensures FirstError(ins) == Some(if p[k].Unsupported? then UnsupportedInstruction else NegativeHelper)
    {
      ErrorOfFirst(ins, k);
    }
  }

  lemma VerdictStages(p: Program, args: seq<ArgType>)
    requires DecodableProgram(p)
    ensures (exists i <- p :: IsLocalCall(i)) ==> Verdict(p, args) == Some(LocalCall)
    ensures !(exists i <- p :: IsLocalCall(i)) && p == [] ==> Verdict(p, args) == Some(EmptyProgram)
    ensures !(exists i <- p :: IsLocalCall(i)) && p != [] && !BranchesLand(p) ==> Verdict(p, args) == Some(BadBranch)
    ensures !(exists i <- p :: IsLocalCall(i)) && p != [] && BranchesLand(p) ==>
              Verdict(p, args) == if |args| > 5 then Some(TooManyArguments) else FirstError(Labelled(p))
  {
    hide FirstError, Labelled, BranchesLand;
  }

  /** The scratch bytes suffice, as the lifter asserts. */
  predicate ScratchSuffices(p: Program, args: seq<ArgType>) {
    (forall t <- args :: t.Valid()) && ArgOffset(args, |args|) + 40 * Calls(p, |p|) <= SCRATCH_BYTES
  }

  /** Every program that is not refused is one the correctness theorem is about. */
  lemma NotRefusedIsAccepted(p: Program, args: seq<ArgType>)
    requires DecodableProgram(p) && ScratchSuffices(p, args) && Verdict(p, args).None?
    ensures Accepted(p, args)
  {
  }

  // ---------------------------------------------------------------- the graph can be lifted

  lemma {:induction false} ConcatFront(b: McBlock, bs: seq<McBlock>)
    ensures Concat([b] + bs) == b.instrs + Concat(bs)
    decreases |bs|
  {
    if bs == [] {
      assert [b] + bs == [b] && [b][..0] == [];
    } else {
      assert ([b] + bs)[..|bs|] == [b] + bs[..|bs| - 1];
      ConcatFront(b, bs[..|bs| - 1]);
      assert (b.instrs + Concat(bs[..|bs| - 1])) + bs[|bs| - 1].instrs
             == b.instrs + (Concat(bs[..|bs| - 1]) + bs[|bs| - 1].instrs);
    }
  }

  lemma {:induction false} ConcatSame(f: seq<McBlock>, g: seq<McBlock>)
    requires |f| == |g| && forall b :: 0 <= b < |f| ==> f[b].instrs == g[b].instrs
    ensures Concat(f) == Concat(g)
    decreases |f|
  {
    if f != [] {
      ConcatSame(f[..|f| - 1], g[..|g| - 1]);
    }
  }

  /** The graph's blocks hold the entry jump and then the whole instruction stream. */
  lemma {:induction false} GraphConcat(p: Program)
    requires DecodableProgram(p)
    ensures Concat(Graph(p)) == [Jump(false, Offset(1))] + Labelled(p)
  {
    hide Labelled, Units, Names, Leaders, SuccsOf;
    CutConcatenates(Labelled(p), Units(p), Names(p), Leaders(p), |p|);
    ConcatFront(McBlock(ENTRY, [Jump(false, Offset(1))], []), Blocks(p));
    ConcatSame(Graph(p), WithEntry(Blocks(p)));
    assert Labelled(p)[..|p|] == Labelled(p);
  }

  lemma {:induction false} ErrorsAfterEntry(ins: seq<Insn>)
    ensures FirstError([Jump(false, Offset(1))] + ins) == FirstError(ins)
    ensures CallCount([Jump(false, Offset(1))] + ins) == CallCount(ins)
    decreases |ins|
  {
    var entry := [Jump(false, Offset(1))];
    if ins == [] {
      assert entry + ins == entry && entry[..0] == [];
    } else {
      assert (entry + ins)[..|ins|] == entry + ins[..|ins| - 1];
      ErrorsAfterEntry(ins[..|ins| - 1]);
    }
  }

  lemma {:induction false} CallsLabelled(p: Program, n: nat)
    requires DecodableProgram(p) && n <= |p|
    ensures CallCount(LabelledUpTo(p, n)) == Calls(p, n)
    decreases n
  {
    hide LabelledInsn;
    if n > 0 {
      assert LabelledUpTo(p, n)[..n - 1] == LabelledUpTo(p, n - 1);
      LabelledCall(p, n - 1);
      CallsLabelled(p, n - 1);
    }
  }

  lemma {:induction false} SuccsInRange(bs: seq<McBlock>, b: nat)
    requires b < |bs|
    ensures forall s <- SuccsOf(bs, b) :: s < |bs|
  {
  }

  /** Branches carry labels once they are resolved. */
  lemma LabelledBranch(p: Program, k: nat)
    requires DecodableProgram(p) && BranchesLand(p) && k < |p| && LabelledInsn(p, k).IsBranch()
    ensures LabelledInsn(p, k).target.Label?
  {
    LabelledAt(p, |p|, k);
    LabelledKind(p, k);
    UnitNonNegative(p, k);
  }

  lemma {:induction false} GraphLiftable(p: Program, b: nat)
    requires DecodableProgram(p) && BranchesLand(p) && p != [] && b < |Graph(p)|
    ensures LiftableBlock(Graph(p)[b], |Graph(p)|)
  {
    hide Labelled, LabelledInsn, Leaders, Units, Names, SuccsOf;
    SuccsInRange(WithEntry(Blocks(p)), b);
    if b == 0 {
      EntrySuccessor(p);
    } else {
      BlockPerStart(Labelled(p), Units(p), Names(p), Leaders(p), |p|);
      BlockLiftable(p, b - 1);
    }
  }

  lemma BlockLiftable(p: Program, b: nat)
    requires DecodableProgram(p) && BranchesLand(p) && b < |StartsOf(p)|
    ensures |Graph(p)| == 1 + |StartsOf(p)|
    ensures forall i <- Graph(p)[1 + b].instrs :: i.IsBranch() ==> i.target.Label?
  {
    GraphBlockAt(p, b);
    var s, e := StartsOf(p)[b], EndOf(StartsOf(p), |p|, b);
    hide Graph, Labelled, LabelledInsn, Leaders, Units, StartsOf, EndOf;
    var instrs := Graph(p)[1 + b].instrs;
    forall i | i in instrs ensures i.IsBranch() ==> i.target.Label? {
      var j :| 0 <= j < |instrs| && instrs[j] == i;
      SliceAt(Labelled(p), s, e, s + j);
      LabelledHas(p, s + j);
      if i.IsBranch() { LabelledBranch(p, s + j); }
    }
  }

  lemma LabelledHas(p: Program, k: nat)
    requires DecodableProgram(p) && k < |p|
    ensures Labelled(p)[k] == LabelledInsn(p, k)
  {
    LabelledAt(p, |p|, k);
  }

  // ---------------------------------------------------------------- resolving branches

  /** The instruction after sign extension; only its branch offset is needed from then on. */
  lemma {:induction false} ExtendedTarget(p: Program, k: nat)
    requires DecodableProgram(p) && k < |p| && p[k].IsBranch()
    ensures SignExtended(p[k]).IsBranch() && SignExtended(p[k]).target.Offset?
    ensures UnitOf(p, k) + p[k].Units() + SignExtended(p[k]).target.off == Cfg.Target(p, k)
    ensures SignExtended(p[k]).Units() == p[k].Units()
  {
  }

  lemma ExtendedKinds(i: Insn)
    requires Decodable(i)
    ensures SignExtended(i).IsBranch() == i.IsBranch() && SignExtended(i).Exit? == i.Exit?
    ensures SignExtended(i).Units() == i.Units()
  {
  }

  /** Instructions decoded so far, by the unit they start at. */
  ghost predicate Indexed(p: Program, k: nat, index: map<nat, nat>)
    requires k <= |p|
  {
    && (forall j :: 0 <= j < k ==> UnitOf(p, j) in index)
    && (forall u <- index :: index[u] < k && UnitOf(p, index[u]) == u)
  }

  /** Decodes the stream; a call to another BPF function is refused. */
  method Decode(p: Program, insns: array<Insn>) returns (units: seq<nat>, index: map<nat, nat>, local: bool)
    requires insns.Length == |p|
    modifies insns
    ensures local <==> exists i <- p :: IsLocalCall(i)
    ensures !local ==> insns[..] == p && units == Units(p) && Indexed(p, |p|, index)
  {
    units, index, local := [], map[], false;
    var unit := 0;
    for k := 0 to |p|
      invariant unit == UnitOf(p, k) && units == UnitsUpTo(p, k) && Indexed(p, k, index)
      invariant insns[..k] == p[..k] && !local
      invariant forall j :: 0 <= j < k ==> !IsLocalCall(p[j])
    {
      if IsLocalCall(p[k]) {
        local := true;
        return;
      }
      index := index[unit := k];
      units := units + [unit];
      insns[k] := p[k];
      unit := unit + p[k].Units();
    }
  }

  /** Sign-extends immediates and offsets in place. */
  method ExtendFields(p: Program, insns: array<Insn>)
    requires DecodableProgram(p) && insns[..] == p
    modifies insns
    ensures insns.Length == |p| && forall k :: 0 <= k < |p| ==> insns[k] == SignExtended(p[k])
  {
    for k := 0 to insns.Length
      invariant forall j :: 0 <= j < k ==> insns[j] == SignExtended(p[j])
      invariant forall j :: k <= j < insns.Length ==> insns[j] == p[j]
    {
      insns[k] := SignExtended(insns[k]);
    }
  }

  /** The entry, branch targets, and what follows a terminator. */
  method FindLeaders(p: Program, insns: array<Insn>, units: seq<nat>) returns (leaders: set<nat>)
    requires DecodableProgram(p) && insns.Length == |p| && units == Units(p)
    requires forall k :: 0 <= k < |p| ==> insns[k] == SignExtended(p[k])
    ensures leaders == Leaders(p)
  {
    leaders := {0};
    for k := 0 to |p|
      invariant leaders == LeadersOf(p, k)
    {
      var i := insns[k];
      ExtendedKinds(p[k]);
      UnitAt(p, |p|, k);
      if i.IsBranch() {
        ExtendedTarget(p, k);
        var t := units[k] + i.Units() + i.target.off;
        if t >= 0 { leaders := leaders + {t as nat}; }
        leaders := leaders + {units[k] + i.Units()};
      } else if i.Exit? {
        leaders := leaders + {units[k] + i.Units()};
      }
    }
  }

  /** Replaces every branch offset by the label of its target, which must be an instruction. */
  method ResolveBranches(p: Program, insns: array<Insn>, units: seq<nat>, index: map<nat, nat>) returns (ok: bool)
    requires DecodableProgram(p) && insns.Length == |p| && units == Units(p) && Indexed(p, |p|, index)
    requires forall k :: 0 <= k < |p| ==> insns[k] == SignExtended(p[k])
    modifies insns
    ensures ok <==> BranchesLand(p)
    ensures ok ==> insns[..] == Labelled(p)
  {
    hide LabelName, SignExtended, Cfg.Target, Indexed, UnitOf;
    ok := true;
    for k := 0 to |p|
      invariant ok && forall j :: 0 <= j < k ==> insns[j] == LabelledInsn(p, j)
      invariant forall j :: 0 <= j < k && p[j].IsBranch() ==> Boundary(p, Cfg.Target(p, j))
      invariant forall j :: k <= j < |p| ==> insns[j] == SignExtended(p[j])
    {
      ExtendedKinds(p[k]);
      if insns[k].IsBranch() {
        ExtendedTarget(p, k);
        UnitAt(p, |p|, k);
        var t := units[k] + insns[k].Units() + insns[k].target.off;
        IndexedIffBoundary(p, index, t);
        if t < 0 || t !in index {
          ok := false;
          return;
        }
        insns[k] := WithTarget(insns[k], Label(LabelName(t)));
      }
    }
    forall k | 0 <= k < |p| ensures insns[k] == Labelled(p)[k] {
      LabelledHas(p, k);
    }
  }

  lemma IndexedIffBoundary(p: Program, index: map<nat, nat>, u: int)
    requires Indexed(p, |p|, index)
    ensures Boundary(p, u) <==> u >= 0 && u in index
  {
    if u >= 0 && u in index {
      assert UnitOf(p, index[u]) == u;
    }
  }

  /** Starts a new block at every leader. */
  method CutBlocks(p: Program, insns: array<Insn>, units: seq<nat>, leaders: set<nat>) returns (mf: McFunction)
    requires DecodableProgram(p) && insns[..] == Labelled(p) && units == Units(p) && leaders == Leaders(p)
    ensures fresh(mf) && mf.blocks == Blocks(p)
  {
    mf := new McFunction();
    var cur: Option<nat> := None;
    hide Labelled, Units, Names, Leaders;
    for k := 0 to |p|
      invariant fresh(mf) && mf.blocks == BlocksUpTo(Labelled(p), Units(p), Names(p), Leaders(p), k)
      invariant cur.None? <==> mf.blocks == []
      invariant cur.Some? ==> cur.value + 1 == |mf.blocks|
    {
      NamesHas(p, k);
      assert insns[k] == insns[..][k];
      if units[k] in leaders || cur.None? {
        var b := mf.AddBlock(LabelName(units[k]));
        cur := Some(b);
        assert [] + [insns[k]] == [insns[k]];
      }
      mf.AddInst(cur.value, insns[k]);
    }
  }

  lemma NamesHas(p: Program, k: nat)
    requires k < |p|
    ensures Names(p)[k] == LabelName(Units(p)[k])
  {
    UnitAt(p, |p|, k);
    NameAt(p, |p|, k);
  }

  // ---------------------------------------------------------------- bytes mode

  lemma BlocksFresh(p: Program)
    requires DecodableProgram(p)
    ensures forall b <- Blocks(p) :: b.instrs != [] && b.succs == []
  {
    hide Labelled, Units, Names, Leaders;
    forall b | b in Blocks(p) ensures b.instrs != [] && b.succs == [] {
      var k :| 0 <= k < |Blocks(p)| && Blocks(p)[k] == b;
      BlockPerStart(Labelled(p), Units(p), Names(p), Leaders(p), |p|);
      BlockIsRange(Labelled(p), Units(p), Names(p), Leaders(p), |p|, k);
    }
  }

  /** The label of every branch that ends a block names a block. */
  lemma TargetsResolved(p: Program)
    requires DecodableProgram(p) && BranchesLand(p) && p != []
    ensures TargetsKnown(WithEntry(Blocks(p)))
  {
    hide Labelled, Units, Names, Leaders, LabelledInsn, FindBlock;
    var bs := WithEntry(Blocks(p));
    forall b | 0 <= b < |bs| && bs[b].instrs != [] ensures BranchKnown(bs, bs[b].instrs[|bs[b].instrs| - 1]) {
      if b > 0 { LastBranchKnown(p, b - 1); }
    }
  }

  lemma LastBranchKnown(p: Program, b: nat)
    requires Resolvable(p) && b < |Blocks(p)|
    ensures var instrs := WithEntry(Blocks(p))[1 + b].instrs;
            instrs != [] && BranchKnown(WithEntry(Blocks(p)), instrs[|instrs| - 1])
  {
    BlockPerStart(Labelled(p), Units(p), Names(p), Leaders(p), |p|);
    GraphBlockAt(p, b);
    GraphSuccs(p, b);
    var e := EndOf(StartsOf(p), |p|, b) - 1;
    SliceAt(Labelled(p), StartsOf(p)[b], e + 1, e);
    LabelFound(p, e);
  }

  lemma LabelFound(p: Program, k: nat)
    requires Resolvable(p) && k < |p|
    ensures BranchKnown(WithEntry(Blocks(p)), Labelled(p)[k])
  {
    LabelledKind(p, k);
    LabelledAt(p, |p|, k);
    if p[k].IsBranch() {
      UnitNonNegative(p, k);
      TargetStartsBlock(p, k, InsnIndex(p, Cfg.Target(p, k)));
    }
  }

  lemma {:induction false} GraphIsLiftable(p: Program, args: seq<ArgType>)
    requires Resolvable(p) && ScratchSuffices(p, args)
    ensures Graph(p) != []
    ensures forall b :: 0 <= b < |Graph(p)| ==> LiftableBlock(Graph(p)[b], |Graph(p)|)
    ensures ArgOffset(args, |args|) + 40 * CallCount(Concat(Graph(p))) <= SCRATCH_BYTES
    ensures FirstError(Concat(Graph(p))) == FirstError(Labelled(p))
  {
    hide Graph, LiftableBlock, Labelled, FirstError, CallCount, Concat;
    EntrySuccessor(p);
    forall b | 0 <= b < |Graph(p)| ensures LiftableBlock(Graph(p)[b], |Graph(p)|) {
      GraphLiftable(p, b);
    }
    GraphConcat(p);
    ErrorsAfterEntry(Labelled(p));
    CallsOfLabelled(p);
  }

  lemma {:induction false} CallsOfLabelled(p: Program)
    requires DecodableProgram(p)
    ensures CallCount(Labelled(p)) == Calls(p, |p|)
  {
    CallsLabelled(p, |p|);
  }

  /** Lifts decoded bytecode: refuses exactly the programs with a verdict against them, and
      otherwise returns the lifted function. */
  method RunBytes(p: Program, args: seq<ArgType>) returns (r: Result<Ir.Fn, LiftError>)
    requires DecodableProgram(p) && ScratchSuffices(p, args)
    ensures Verdict(p, args).Some? ==> r == Err(Verdict(p, args).value)
    ensures Verdict(p, args).None? ==> r == Ok(Lifted(p, args))
    ensures RefusedFor(p, args, if r.Ok? then None else Some(r.error))
  {
    VerdictMeans(p, args);
    VerdictStages(p, args);
    hide RefusedFor, Verdict, BranchesLand;
    hide Graph, Labelled, Leaders, Units, Blocks, LiftGraph, FirstError, ArgOffset, Concat, CallCount, LiftableBlock;
    var insns := new Insn[|p|];
    var units, index, local := Decode(p, insns);
    if local { return Err(LocalCall); }
    if |p| == 0 { return Err(EmptyProgram); }
    ExtendFields(p, insns);
    var leaders := FindLeaders(p, insns, units);
    var ok := ResolveBranches(p, insns, units, index);
    if !ok { return Err(BadBranch); }
    var mf := CutBlocks(p, insns, units, leaders);
    BuildGraph(p, mf);
    GraphIsLiftable(p, args);
    var lifter := new Lifter(mf.blocks);
    var error := lifter.LiftMCFunction(args);
    if error.Some? { return Err(error.value); }
    return Ok(lifter.blocks);
  }

  /** Entry block and successors. */
  method BuildGraph(ghost p: Program, mf: McFunction)
    requires Resolvable(p) && mf.blocks == Blocks(p)
    modifies mf
    ensures mf.blocks == Graph(p)
  {
    hide Blocks;
    BlocksFresh(p);
    NonEmptyAll(Blocks(p));
    TargetsResolved(p);
    mf.RemoveEmptyBlocks();
    mf.CheckEntryBlock();
    mf.GenerateSuccessors();
  }
}
