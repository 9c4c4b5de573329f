/** The lifted function does what the flat machine does, over whole runs. */
module WholeProgram {
  import opened Options
  import opened Words
  import opened Memory
  import opened Ir
  import opened Codegen
  import opened CodegenProofs
  import opened CallProofs
  import opened Cfg
  import opened GraphFacts
  import opened Emission
  import opened Abi
  import opened Prologue
  import opened Lifting
  import opened Simulation
  import Bpf

  // ---------------------------------------------------------------- one step, in the graph

  /** No two blocks share a name; the entry block's is unique too. */
  ghost predicate DistinctNames(g: seq<McBlock>) {
    forall b, b' :: 1 <= b < |g| && 0 <= b' < |g| && g[b].name == g[b'].name ==> b == b'
  }

  lemma {:induction false} FirstOfName(f: Fn, b: nat)
    requires b < |f| && forall b' :: 0 <= b' < b ==> f[b'].name != f[b].name
    ensures BlockNamed(f, f[b].name) == b
    decreases b
  {
    if b > 0 {
      assert f[0].name != f[b].name;
      FirstOfName(f[1..], b - 1);
    }
  }

  lemma {:induction false} LiftingResolves(e: Emitted, g: seq<McBlock>, b: nat)
    requires DistinctNames(g) && Emission.Lifting(e, g, b)
    ensures Resolves(e.blocks, g)
  {
    forall t | 1 <= t < |g| ensures BlockNamed(e.blocks, g[t].name) == t {
      FirstOfName(e.blocks, t);
    }
  }

  /** Before its last instruction a block is open. */
  lemma StillOpen(g: seq<McBlock>, args: seq<ArgType>, b: nat, j: nat)
    requires WellFormed(g) && ValidArgs(args) && b < |g|
    requires j < |g[b].instrs| || (j == |g[b].instrs| && !g[b].instrs[j - 1].IsTerminator())
    ensures Emission.Lifting(EmittedBefore(g, args, b, j), g, b) && EmittedBefore(g, args, b, j).Open()
  {
    FinishedExtends(g, args, b, j);
    assert WellFormedBlock(g[b]);
  }

  /** When instruction j of block b is about to be lifted, the code it is about to get is in
      the finished function. */
  lemma AboutToLift(g: seq<McBlock>, args: seq<ArgType>, b: nat, j: nat)
    requires WellFormed(g) && ValidArgs(args) && b < |g| && j < |g[b].instrs|
    ensures Emission.Lifting(EmittedBefore(g, args, b, j), g, b) && EmittedBefore(g, args, b, j).Open()
    ensures Extends(LiftInsn(EmittedBefore(g, args, b, j), g, b, g[b].instrs[j]).blocks, LiftGraph(g, args))
  {
    StillOpen(g, args, b, j);
    FinishedExtends(g, args, b, j + 1);
  }

  lemma DataAdvance(g: seq<McBlock>, args: seq<ArgType>, cfg: Config, o: Bpf.Oracle, u: nat, i: Bpf.Insn,
                    c: Bpf.Core, d: Data, b: nat, j: nat) returns (n: nat, d': Data)
    requires WellFormed(g) && ValidArgs(args) && b < |g| && j < |g[b].instrs|
    requires Bpf.Decodable(i) && !i.IsTerminator() && g[b].instrs[j] == Bpf.SignExtended(i) && Matches(c, d)
    requires cfg.helper == o.helper && (i.Call? ==> JunkMatches(cfg, o, u, EmittedBefore(g, args, b, j).off))
    ensures Steps(LiftGraph(g, args), cfg, Here(EmittedBefore(g, args, b, j), d), n) == Here(EmittedBefore(g, args, b, j + 1), d')
    ensures Matches(Bpf.Effect(o, u, i, c), d')
    ensures i.Nop? || i.Unsupported? || n > 0
  {
    AboutToLift(g, args, b, j);
    n, d' := DataStep(LiftGraph(g, args), cfg, o, u, i, c, d, EmittedBefore(g, args, b, j), g, b);
  }

  lemma ArriveAtBlock(g: seq<McBlock>, args: seq<ArgType>, t: nat, d: Data)
    requires WellFormed(g) && ValidArgs(args) && 0 < t < |g|
    ensures Here(EmittedBefore(g, args, t, 0), d) == At(t, 0, d)
  {
    BlockBegins(g, args, t);
  }

  /** The end of a block that falls through. */
  lemma {:induction false} FallAdvance(g: seq<McBlock>, args: seq<ArgType>, cfg: Config, d: Data, b: nat)
    requires WellFormed(g) && DistinctNames(g) && ValidArgs(args) && b + 1 < |g| && g[b].succs == [b + 1]
    requires g[b].instrs != [] && !g[b].instrs[|g[b].instrs| - 1].IsTerminator()
    ensures Steps(LiftGraph(g, args), cfg, Here(EmittedBefore(g, args, b, |g[b].instrs|), d), 1) == Here(EmittedBefore(g, args, b + 1, 0), d)
  {
    var e := EmittedBefore(g, args, b, |g[b].instrs|);
    StillOpen(g, args, b, |g[b].instrs|);
    LiftingResolves(e, g, b);
    FinishedExtendsClosed(g, args, b);
    FallFrom(LiftGraph(g, args), g, e, cfg, d, b);
    ArriveAtBlock(g, args, b + 1, d);
  }

  lemma {:induction false} FallFrom(f: Fn, g: seq<McBlock>, e: Emitted, cfg: Config, d: Data, b: nat)
    requires Resolves(e.blocks, g) && e.Open() && b + 1 < |g| && g[b].succs == [b + 1]
    requires Extends(FallThrough(e, g, b).blocks, f)
    ensures Steps(f, cfg, Here(e, d), 1) == At(b + 1, 0, d)
  {
    FallThroughEdge(e.blocks, g, b);
    GotoStep(f, cfg, d, e, b + 1);
  }

  lemma {:induction false} JumpFrom(f: Fn, g: seq<McBlock>, e: Emitted, cfg: Config, d: Data, b: nat, i: Bpf.Insn, t: nat)
    requires Resolves(e.blocks, g) && e.Open() && b < |g| && 0 < t < |g|
    requires i.Jump? && i.target == Bpf.Label(g[t].name)
    requires Extends(LiftInsn(e, g, b, i).blocks, f)
    ensures Steps(f, cfg, Here(e, d), 1) == At(t, 0, d)
  {
    GotoStep(f, cfg, d, e, t);
  }

  lemma BranchFrom(f: Fn, g: seq<McBlock>, e: Emitted, cfg: Config, i: Bpf.Insn, c: Bpf.Core, d: Data, b: nat, t: nat)
    returns (n: nat, d': Data)
    requires Resolves(e.blocks, g) && e.Open() && b < |g| && 0 < t < |g|
    requires Bpf.Decodable(i) && i.Branch? && Matches(c, d)
    requires g[b].succs == AddOptional([t], if b + 1 < |g| then Some(b + 1) else None)
    requires Extends(LiftInsn(e, g, b, WithTarget(Bpf.SignExtended(i), Bpf.Label(g[t].name))).blocks, f)
    ensures Steps(f, cfg, Here(e, d), n) == At(if Bpf.Taken(i, c) || b + 1 == |g| then t else b + 1, 0, d')
    ensures n > 0 && Matches(c, d')
  {
    BranchEdges(e.blocks, g, b, t);
    n, d' := BranchStep(f, cfg, i, c, d, e, g, b, g[t].name);
  }

  lemma {:induction false} JumpAdvance(g: seq<McBlock>, args: seq<ArgType>, cfg: Config, d: Data, b: nat, j: nat, t: nat)
    requires WellFormed(g) && DistinctNames(g) && ValidArgs(args) && b < |g| && j < |g[b].instrs| && 0 < t < |g|
    requires g[b].instrs[j].Jump? && g[b].instrs[j].target == Bpf.Label(g[t].name)
    ensures Steps(LiftGraph(g, args), cfg, Here(EmittedBefore(g, args, b, j), d), 1) == Here(EmittedBefore(g, args, t, 0), d)
  {
    var e := EmittedBefore(g, args, b, j);
    AboutToLift(g, args, b, j);
    LiftingResolves(e, g, b);
    JumpFrom(LiftGraph(g, args), g, e, cfg, d, b, g[b].instrs[j], t);
    ArriveAtBlock(g, args, t, d);
  }

  /** A conditional branch; in the last block there is only the taken edge. */
  lemma BranchAdvance(g: seq<McBlock>, args: seq<ArgType>, cfg: Config, i: Bpf.Insn, c: Bpf.Core, d: Data,
                      b: nat, j: nat, t: nat) returns (n: nat, d': Data)
    requires WellFormed(g) && DistinctNames(g) && ValidArgs(args) && b < |g| && j < |g[b].instrs| && 0 < t < |g|
    requires Bpf.Decodable(i) && i.Branch? && Matches(c, d)
    requires g[b].instrs[j] == WithTarget(Bpf.SignExtended(i), Bpf.Label(g[t].name))
    requires g[b].succs == AddOptional([t], if b + 1 < |g| then Some(b + 1) else None)
    ensures var t' := if Bpf.Taken(i, c) || b + 1 == |g| then t else b + 1;
            Steps(LiftGraph(g, args), cfg, Here(EmittedBefore(g, args, b, j), d), n) == Here(EmittedBefore(g, args, t', 0), d')
    ensures n > 0 && Matches(c, d')
  {
    var e := EmittedBefore(g, args, b, j);
    AboutToLift(g, args, b, j);
    LiftingResolves(e, g, b);
    n, d' := BranchFrom(LiftGraph(g, args), g, e, cfg, i, c, d, b, t);
    ArriveAtBlock(g, args, if Bpf.Taken(i, c) || b + 1 == |g| then t else b + 1, d');
  }

  lemma ExitAdvance(g: seq<McBlock>, args: seq<ArgType>, cfg: Config, c: Bpf.Core, d: Data, b: nat, j: nat)
    returns (n: nat)
    requires WellFormed(g) && ValidArgs(args) && b < |g| && j < |g[b].instrs| && g[b].instrs[j].Exit? && Matches(c, d)
    ensures n > 0
    ensures Steps(LiftGraph(g, args), cfg, Here(EmittedBefore(g, args, b, j), d), n) == Returned(Typed(64, c.regs[0]), c.mem, c.calls)
  {
    AboutToLift(g, args, b, j);
    n := ReturnStep(LiftGraph(g, args), cfg, c, d, EmittedBefore(g, args, b, j));
  }

  /** Falling off the last block: the lifted code returns r0 there. */
  lemma OffEndAdvance(g: seq<McBlock>, args: seq<ArgType>, cfg: Config, c: Bpf.Core, d: Data, b: nat) returns (n: nat)
    requires WellFormed(g) && ValidArgs(args) && b < |g| && g[b].succs == [] && Matches(c, d)
    requires g[b].instrs != [] && !g[b].instrs[|g[b].instrs| - 1].IsTerminator()
    ensures n > 0
    ensures Steps(LiftGraph(g, args), cfg, Here(EmittedBefore(g, args, b, |g[b].instrs|), d), n)
            == Returned(Typed(64, c.regs[0]), c.mem, c.calls)
  {
    var e := EmittedBefore(g, args, b, |g[b].instrs|);
    StillOpen(g, args, b, |g[b].instrs|);
    FinishedExtendsClosed(g, args, b);
    n := ReturnStep(LiftGraph(g, args), cfg, c, d, e);
  }

  /** Where control goes from instruction j of block b when it falls through. */
  predicate FallsTo(g: seq<McBlock>, b: nat, j: nat, b': nat, j': nat) {
    && 0 < b < |g| && j < |g[b].instrs|
    && if j + 1 < |g[b].instrs| then b' == b && j' == j + 1
       else b + 1 < |g| && g[b].succs == [b + 1] && b' == b + 1 && j' == 0
  }

  lemma DataThenFall(g: seq<McBlock>, args: seq<ArgType>, cfg: Config, o: Bpf.Oracle, u: nat, i: Bpf.Insn,
                     c: Bpf.Core, d: Data, b: nat, j: nat, b': nat, j': nat) returns (n: nat, d': Data)
    requires WellFormed(g) && DistinctNames(g) && ValidArgs(args) && FallsTo(g, b, j, b', j')
    requires Bpf.Decodable(i) && !i.IsTerminator() && g[b].instrs[j] == Bpf.SignExtended(i) && Matches(c, d)
    requires cfg.helper == o.helper && (i.Call? ==> JunkMatches(cfg, o, u, EmittedBefore(g, args, b, j).off))
    ensures Steps(LiftGraph(g, args), cfg, Here(EmittedBefore(g, args, b, j), d), n) == Here(EmittedBefore(g, args, b', j'), d')
    ensures Matches(Bpf.Effect(o, u, i, c), d')
    ensures i.Nop? || i.Unsupported? || n > 0
  {
    hide EmittedBefore, LiftGraph, LiftInsn, LiftInstrs, Bpf.Effect, Bpf.SignExtended, Matches;
    var m;
    m, d' := DataAdvance(g, args, cfg, o, u, i, c, d, b, j);
    ExtendedKind(i);
    n := FallIfLast(g, args, cfg, d', b, j, b', j');
    Chain(LiftGraph(g, args), cfg, Here(EmittedBefore(g, args, b, j), d), m, Here(EmittedBefore(g, args, b, j + 1), d'), n,
          Here(EmittedBefore(g, args, b', j'), d'));
    n := m + n;
  }

  lemma {:induction false} Chain(f: Fn, cfg: Config, s0: State, m: nat, s1: State, n: nat, s2: State)
    requires Steps(f, cfg, s0, m) == s1 && Steps(f, cfg, s1, n) == s2
    ensures Steps(f, cfg, s0, m + n) == s2
  {
    StepsAdd(f, cfg, s0, m, n);
  }

  lemma FallIfLast(g: seq<McBlock>, args: seq<ArgType>, cfg: Config, d: Data, b: nat, j: nat, b': nat, j': nat)
    returns (n: nat)
    requires WellFormed(g) && DistinctNames(g) && ValidArgs(args) && FallsTo(g, b, j, b', j')
    requires !g[b].instrs[j].IsTerminator()
    ensures Steps(LiftGraph(g, args), cfg, Here(EmittedBefore(g, args, b, j + 1), d), n) == Here(EmittedBefore(g, args, b', j'), d)
  {
    hide EmittedBefore, LiftGraph;
    n := 0;
    if j + 1 == |g[b].instrs| {
      n := 1;
      FallAdvance(g, args, cfg, d, b);
    }
  }

  lemma ExtendedKind(i: Bpf.Insn)
    requires Bpf.Decodable(i)
    ensures Bpf.SignExtended(i).IsTerminator() == i.IsTerminator()
  {
  }

  lemma DataThenReturn(g: seq<McBlock>, args: seq<ArgType>, cfg: Config, o: Bpf.Oracle, u: nat, i: Bpf.Insn,
                       c: Bpf.Core, d: Data, b: nat, j: nat) returns (n: nat)
    requires WellFormed(g) && ValidArgs(args) && b < |g| && j + 1 == |g[b].instrs| && g[b].succs == []
    requires Bpf.Decodable(i) && !i.IsTerminator() && g[b].instrs[j] == Bpf.SignExtended(i) && Matches(c, d)
    requires cfg.helper == o.helper && (i.Call? ==> JunkMatches(cfg, o, u, EmittedBefore(g, args, b, j).off))
    ensures var c' := Bpf.Effect(o, u, i, c);
            Steps(LiftGraph(g, args), cfg, Here(EmittedBefore(g, args, b, j), d), n) == Returned(Typed(64, c'.regs[0]), c'.mem, c'.calls)
  {
    hide EmittedBefore, LiftGraph, LiftInsn, LiftInstrs, Bpf.Effect, Bpf.SignExtended;
    var m, d' := DataAdvance(g, args, cfg, o, u, i, c, d, b, j);
    ExtendedKind(i);
    n := OffEndAdvance(g, args, cfg, Bpf.Effect(o, u, i, c), d', b);
    var c' := Bpf.Effect(o, u, i, c);
    Chain(LiftGraph(g, args), cfg, Here(EmittedBefore(g, args, b, j), d), m, Here(EmittedBefore(g, args, b, j + 1), d'), n,
          Returned(Typed(64, c'.regs[0]), c'.mem, c'.calls));
    n := m + n;
  }

  // ---------------------------------------------------------------- one step, in the program

  lemma GraphDistinct(p: Bpf.Program)
    requires Bpf.DecodableProgram(p)
    ensures DistinctNames(Graph(p))
  {
    var g := Graph(p);
    var f := EmptyBlocks(g);
    GraphResolves(p, f);
    forall b, b' | 1 <= b < |g| && 0 <= b' < |g| && g[b].name == g[b'].name ensures b == b' {
      assert BlockNamed(f, g[b].name) == b;
    }
  }

  /** Instruction k is instruction j of block b. */
  ghost predicate Located(p: Bpf.Program, k: nat, b: int, j: int)
    requires Bpf.DecodableProgram(p) && k < |p|
  {
    && Inside(Graph(p), b, j, LabelledInsn(p, k))
    && 0 <= BlockOf(Units(p), Leaders(p), k) < |StartsOf(p)|
    && b == GraphBlock(p, k) && j == GraphIndex(p, k)
  }

  lemma InsnLocated(p: Bpf.Program, k: nat) returns (b: nat, j: nat)
    requires Bpf.DecodableProgram(p) && k < |p|
    ensures Located(p, k, b, j)
  {
    BlockOfInRange(p, k);
    GraphInsnAt(p, k);
    LabelledAt(p, |p|, k);
    b, j := GraphBlock(p, k), GraphIndex(p, k);
  }

  /** The function under construction when instruction k is about to be lifted. */
  ghost function Point(p: Bpf.Program, args: seq<ArgType>, k: nat): (e: Emitted)
    requires Bpf.DecodableProgram(p) && ValidArgs(args) && k < |p|
    ensures e.Valid()
  {
    BlockOfInRange(p, k);
    GraphInsnAt(p, k);
    EmittedBefore(Graph(p), args, GraphBlock(p, k), GraphIndex(p, k))
  }

  function Lifted(p: Bpf.Program, args: seq<ArgType>): Fn
    requires Bpf.DecodableProgram(p) && p != [] && ValidArgs(args)
  {
    LiftGraph(Graph(p), args)
  }

  lemma SuccsFromNext(p: Bpf.Program, k: nat, b: nat, j: nat)
    requires Bpf.DecodableProgram(p) && k < |p| && Located(p, k, b, j)
    ensures WellFormed(Graph(p))
    ensures k + 1 == |p| ==> b + 1 == |Graph(p)| && j + 1 == |Graph(p)[b].instrs|
    ensures !p[k].IsTerminator() && j + 1 == |Graph(p)[b].instrs| ==>
              Graph(p)[b].succs == if b + 1 < |Graph(p)| then [b + 1] else []
  {
    GraphWellFormed(p);
    LabelledAt(p, |p|, k);
    LabelledKind(p, k);
    if k + 1 == |p| { GraphLast(p); }
    if !p[k].IsTerminator() && j + 1 == |Graph(p)[b].instrs| {
      GraphBlockAt(p, b - 1);
      SuccessorsOfLast(p, b - 1, LabelledInsn(p, k));
    }
  }

  /** Helper calls leave the lifted code and the machine with the same values in r1-r5. */
  ghost predicate CallJunk(p: Bpf.Program, args: seq<ArgType>, cfg: Config, o: Bpf.Oracle)
    requires Bpf.DecodableProgram(p) && ValidArgs(args)
  {
    forall k :: 0 <= k < |p| && p[k].Call? ==> JunkMatches(cfg, o, Bpf.UnitOf(p, k), Point(p, args, k).off)
  }

  lemma DataMatched(p: Bpf.Program, args: seq<ArgType>, cfg: Config, o: Bpf.Oracle, k: nat, c: Bpf.Core, d: Data)
    returns (n: nat, d': Data)
    requires Bpf.DecodableProgram(p) && ValidArgs(args) && k + 1 < |p| && !p[k].IsTerminator() && Matches(c, d)
    requires cfg.helper == o.helper && CallJunk(p, args, cfg, o)
    ensures Steps(Lifted(p, args), cfg, Here(Point(p, args, k), d), n) == Here(Point(p, args, k + 1), d')
    ensures Matches(Bpf.Effect(o, Bpf.UnitOf(p, k), p[k], c), d')
  {
    var b, j := InsnLocated(p, k);
    var b', j' := InsnLocated(p, k + 1);
    DataFallsTo(p, k, b, j, b', j');
    n, d' := DataThenFall(Graph(p), args, cfg, o, Bpf.UnitOf(p, k), p[k], c, d, b, j, b', j');
  }

  lemma DataFallsTo(p: Bpf.Program, k: nat, b: nat, j: nat, b': nat, j': nat)
    requires Bpf.DecodableProgram(p) && k + 1 < |p| && !p[k].IsTerminator()
    requires Located(p, k, b, j) && Located(p, k + 1, b', j')
    ensures WellFormed(Graph(p)) && DistinctNames(Graph(p)) && FallsTo(Graph(p), b, j, b', j')
    ensures LabelledInsn(p, k) == Bpf.SignExtended(p[k])
  {
    SuccsFromNext(p, k, b, j);
    GraphNext(p, k);
    GraphDistinct(p);
  }

  /** The instruction a branch goes to is first in its block, and the branch is labelled
      with the name of that block. */
  lemma {:induction false} BranchLocated(p: Bpf.Program, k: nat, t: nat, b: nat, j: nat, b': nat, j': nat)
    requires Bpf.DecodableProgram(p) && k < |p| && p[k].IsBranch() && t < |p| && Bpf.UnitOf(p, t) == Cfg.Target(p, k)
    requires Located(p, k, b, j) && Located(p, t, b', j')
    ensures j' == 0
    ensures Graph(p)[b].instrs[j] == WithTarget(Bpf.SignExtended(p[k]), Bpf.Label(Graph(p)[b'].name))
    ensures FindBlock(WithEntry(Blocks(p)), Graph(p)[b'].name) == Some(b')
  {
    TargetStartsBlock(p, k, t);
    GraphBlockAt(p, b' - 1);
  }

  lemma {:induction false} JumpMatched(p: Bpf.Program, args: seq<ArgType>, cfg: Config, k: nat, t: nat, d: Data)
    requires Bpf.DecodableProgram(p) && ValidArgs(args) && k < |p| && p[k].Jump?
    requires t < |p| && Bpf.UnitOf(p, t) == Cfg.Target(p, k)
    ensures Steps(Lifted(p, args), cfg, Here(Point(p, args, k), d), 1) == Here(Point(p, args, t), d)
  {
    hide EmittedBefore, LiftGraph, Graph, Point, GraphBlock, GraphIndex, BlockOf, StartsOf, Units, Leaders, LabelledInsn;
    var g := Graph(p);
    var b, j := InsnLocated(p, k);
    var b', j' := InsnLocated(p, t);
    PointIs(p, args, k, b, j);
    PointIs(p, args, t, b', j');
    BranchLocated(p, k, t, b, j, b', j');
    GraphWellFormed(p);
    GraphDistinct(p);
    JumpAdvance(g, args, cfg, d, b, j, b');
  }

  lemma {:induction false} BranchSuccs(p: Bpf.Program, k: nat, t: nat, b: nat, j: nat, b': nat, j': nat)
    requires Bpf.DecodableProgram(p) && k < |p| && p[k].Branch? && t < |p| && Bpf.UnitOf(p, t) == Cfg.Target(p, k)
    requires Located(p, k, b, j) && Located(p, t, b', j')
    requires j + 1 == |Graph(p)[b].instrs|
    ensures Graph(p)[b].succs == AddOptional([b'], if b + 1 < |Graph(p)| then Some(b + 1) else None)
  {
    hide Graph, StartsOf, Blocks, Units, Leaders, LabelledInsn, GraphIndex, BlockOf, SuccsOf, FindBlock, WithEntry;
    hide Names, Labelled, Cfg.Target, Bpf.UnitOf, AddOptional, EndOf;
    BranchLocated(p, k, t, b, j, b', j');
    GraphBlockAt(p, b - 1);
    SuccessorsOfLast(p, b - 1, Graph(p)[b].instrs[j]);
  }

  lemma BranchIsLast(p: Bpf.Program, k: nat, b: nat, j: nat)
    requires Bpf.DecodableProgram(p) && k < |p| && p[k].Branch? && Located(p, k, b, j)
    ensures j + 1 == |Graph(p)[b].instrs|
    ensures k + 1 < |p| ==> Located(p, k + 1, b + 1, 0)
    ensures k + 1 == |p| ==> b + 1 == |Graph(p)|
  {
    TerminatorEndsBlock(p, k);
    if k + 1 < |p| {
      var b1, j1 := InsnLocated(p, k + 1);
      GraphNext(p, k);
    } else {
      SuccsFromNext(p, k, b, j);
    }
  }

  lemma PointIs(p: Bpf.Program, args: seq<ArgType>, k: nat, b: nat, j: nat)
    requires Bpf.DecodableProgram(p) && ValidArgs(args) && k < |p| && Located(p, k, b, j)
    ensures Point(p, args, k) == EmittedBefore(Graph(p), args, b, j)
  {
  }

  /** A conditional branch; untaken in the last instruction, the lifted code goes to the
      target all the same. */
  lemma BranchMatched(p: Bpf.Program, args: seq<ArgType>, cfg: Config, k: nat, t: nat, c: Bpf.Core, d: Data)
    returns (n: nat, d': Data)
    requires Bpf.DecodableProgram(p) && ValidArgs(args) && k < |p| && p[k].Branch? && Matches(c, d)
    requires t < |p| && Bpf.UnitOf(p, t) == Cfg.Target(p, k)
    ensures var t' := if Bpf.Taken(p[k], c) || k + 1 == |p| then t else k + 1;
            Steps(Lifted(p, args), cfg, Here(Point(p, args, k), d), n) == Here(Point(p, args, t'), d')
    ensures n > 0 && Matches(c, d')
  {
    hide *;
    var b, j, b' := BranchPlace(p, args, k, t);
    LiftedIs(p, args);
    GraphWellFormed(p);
    GraphDistinct(p);
    n, d' := BranchAdvance(Graph(p), args, cfg, p[k], c, d, b, j, b');
  }

  lemma LiftedIs(p: Bpf.Program, args: seq<ArgType>)
    requires Bpf.DecodableProgram(p) && p != [] && ValidArgs(args)
    ensures Graph(p) != [] && Lifted(p, args) == LiftGraph(Graph(p), args)
  {
  }

  lemma BranchPlace(p: Bpf.Program, args: seq<ArgType>, k: nat, t: nat) returns (b: nat, j: nat, b': nat)
    requires Bpf.DecodableProgram(p) && ValidArgs(args) && k < |p| && p[k].Branch?
    requires t < |p| && Bpf.UnitOf(p, t) == Cfg.Target(p, k)
    ensures Bpf.Decodable(p[k])
    ensures b < |Graph(p)| && j < |Graph(p)[b].instrs| && 0 < b' < |Graph(p)|
    ensures Graph(p)[b].instrs[j] == WithTarget(Bpf.SignExtended(p[k]), Bpf.Label(Graph(p)[b'].name))
    ensures Graph(p)[b].succs == AddOptional([b'], if b + 1 < |Graph(p)| then Some(b + 1) else None)
    ensures Point(p, args, k) == EmittedBefore(Graph(p), args, b, j) && Point(p, args, t) == EmittedBefore(Graph(p), args, b', 0)
    ensures k + 1 == |p| <==> b + 1 == |Graph(p)|
    ensures k + 1 < |p| ==> Point(p, args, k + 1) == EmittedBefore(Graph(p), args, b + 1, 0)
  {
    hide EmittedBefore, Graph, Point, GraphBlock, GraphIndex, BlockOf, StartsOf, Units, Leaders, LabelledInsn, Blocks;
    hide WithEntry, FindBlock, Cfg.Target, Bpf.UnitOf, Bpf.SignExtended;
    var j';
    b, j := InsnLocated(p, k);
    b', j' := InsnLocated(p, t);
    BranchLocated(p, k, t, b, j, b', j');
    BranchIsLast(p, k, b, j);
    BranchSuccs(p, k, t, b, j, b', j');
    PointIs(p, args, k, b, j);
    PointIs(p, args, t, b', j');
    if k + 1 < |p| { PointIs(p, args, k + 1, b + 1, 0); }
  }

  lemma ExitMatched(p: Bpf.Program, args: seq<ArgType>, cfg: Config, k: nat, c: Bpf.Core, d: Data) returns (n: nat)
    requires Bpf.DecodableProgram(p) && ValidArgs(args) && k < |p| && p[k].Exit? && Matches(c, d)
    ensures n > 0
    ensures Steps(Lifted(p, args), cfg, Here(Point(p, args, k), d), n) == Returned(Typed(64, c.regs[0]), c.mem, c.calls)
  {
    var b, j := InsnLocated(p, k);
    GraphWellFormed(p);
    n := ExitAdvance(Graph(p), args, cfg, c, d, b, j);
  }

  /** Where the machine would run past a last instruction that is not a terminator, the
      lifted code returns r0. */
  lemma OffEndReturns(p: Bpf.Program, args: seq<ArgType>, cfg: Config, o: Bpf.Oracle, c: Bpf.Core, d: Data)
    returns (n: nat)
    requires Bpf.DecodableProgram(p) && p != [] && ValidArgs(args) && !p[|p| - 1].IsTerminator() && Matches(c, d)
    requires cfg.helper == o.helper && CallJunk(p, args, cfg, o)
    ensures var k := |p| - 1;
            var c' := Bpf.Effect(o, Bpf.UnitOf(p, k), p[k], c);
            Steps(Lifted(p, args), cfg, Here(Point(p, args, k), d), n) == Returned(Typed(64, c'.regs[0]), c'.mem, c'.calls)
  {
    var k := |p| - 1;
    var b, j := InsnLocated(p, k);
    SuccsFromNext(p, k, b, j);
    n := DataThenReturn(Graph(p), args, cfg, o, Bpf.UnitOf(p, k), p[k], c, d, b, j);
  }
}
