/** Whole runs: the lifted function against the flat machine, from entry to return. */
module Runs {
  import opened Options
  import opened Words
  import opened Memory
  import opened Ir
  import opened Codegen
  import opened CodegenProofs
  import opened CallProofs
  import opened Cfg
  import opened GraphFacts
  import opened Emission
  import opened Abi
  import opened Prologue
  import opened Lifting
  import opened Simulation
  import opened WholeProgram
  import Bpf

  // ---------------------------------------------------------------- entry

  function StartOf(mem: Memory): State { At(0, 0, Data(map[], map[], mem, [])) }

  lemma {:induction false} EntryJumps(g: seq<McBlock>, args: seq<ArgType>, cfg: Config, d: Data)
    requires WellFormed(g) && DistinctNames(g) && ValidArgs(args) && |g| > 1
    requires g[0].instrs == [Bpf.Jump(false, Bpf.Offset(1))] && g[0].succs == [1]
    ensures Steps(LiftGraph(g, args), cfg, Here(EmittedBefore(g, args, 0, 0), d), 1) == Here(EmittedBefore(g, args, 1, 0), d)
  {
    var e := EmittedBefore(g, args, 0, 0);
    AboutToLift(g, args, 0, 0);
    LiftingResolves(e, g, 0);
    EntryFrom(LiftGraph(g, args), g, e, cfg, d);
    ArriveAtBlock(g, args, 1, d);
  }

  lemma {:induction false} EntryFrom(f: Fn, g: seq<McBlock>, e: Emitted, cfg: Config, d: Data)
    requires Resolves(e.blocks, g) && e.Open() && |g| > 1 && g[0].succs == [1]
    requires Extends(LiftInsn(e, g, 0, Bpf.Jump(false, Bpf.Offset(1))).blocks, f)
    ensures Steps(f, cfg, Here(e, d), 1) == At(1, 0, d)
  {
    FallThroughEdge(e.blocks, g, 0);
    GotoStep(f, cfg, d, e, 1);
  }

  lemma {:induction false} EntrySetsUp(g: seq<McBlock>, args: seq<ArgType>, cfg: Config, d0: Data)
    requires WellFormed(g) && ValidArgs(args) && Run(cfg, Setup(args).code, d0).Some?
    ensures Steps(LiftGraph(g, args), cfg, At(0, 0, d0), |Setup(args).code|)
            == Here(EmittedBefore(g, args, 0, 0), Run(cfg, Setup(args).code, d0).value)
  {
    hide Setup, Run;
    var e, f, code := EmittedBefore(g, args, 0, 0), LiftGraph(g, args), Setup(args).code;
    FinishedExtends(g, args, 0, 0);
    hide LiftGraph;
    assert e.cur == 0 && e.blocks[0].insts == [] + code;
    assert ExtendsBlock(e.blocks[0], f[0]);
    assert f[0].insts[0..0 + |code|] == code;
    StepsStraight(f, cfg, 0, 0, code, d0);
  }

  lemma FirstPoint(p: Bpf.Program, args: seq<ArgType>)
    requires Bpf.DecodableProgram(p) && p != [] && ValidArgs(args)
    ensures Point(p, args, 0) == EmittedBefore(Graph(p), args, 1, 0)
  {
    var b, j := InsnLocated(p, 0);
    var units, leaders := Units(p), Leaders(p);
    assert Starts(units, leaders, 0) == [];
    assert Starts(units, leaders, 1) == [0];
    InBlock(units, leaders, |p|, 0);
  }

  /** From the function's entry to the first instruction, with the machine's entry state. */
  lemma EntryMatched(p: Bpf.Program, args: seq<ArgType>, vals: seq<nat>, cfg: Config, regs: seq<nat>, mem: Memory)
    returns (n: nat, d: Data)
    requires Bpf.DecodableProgram(p) && p != [] && ValidArgs(args) && |vals| == |args| && |regs| == 12
    requires ArgsPassed(cfg, args, vals, regs)
    requires EntryRegisters(args, vals, cfg.frame, regs) && EntryJunk(cfg, args, regs)
    ensures Steps(Lifted(p, args), cfg, StartOf(mem), n) == Here(Point(p, args, 0), d)
    ensures Matches(Bpf.Core(regs, mem, []), d)
  {
    hide EmittedBefore, LiftGraph, Setup, Run, Graph, Point, Matches, EntryJunk, EntryRegisters, ArgsPassed;
    SetupRuns(cfg, args, vals, regs, mem);
    GraphWellFormed(p);
    GraphDistinct(p);
    EntrySuccessor(p);
    FirstPoint(p, args);
    var d0 := Data(map[], map[], mem, []);
    d := Run(cfg, Setup(args).code, d0).value;
    EntrySetsUp(Graph(p), args, cfg, d0);
    EntryJumps(Graph(p), args, cfg, d);
    Chain(LiftGraph(Graph(p), args), cfg, At(0, 0, d0), |Setup(args).code|, Here(EmittedBefore(Graph(p), args, 0, 0), d), 1,
          Here(EmittedBefore(Graph(p), args, 1, 0), d));
    n := |Setup(args).code| + 1;
  }

  // ---------------------------------------------------------------- one step

  lemma FollowingUnit(p: Bpf.Program, k: nat)
    requires k < |p|
    ensures Bpf.UnitOf(p, k) + p[k].Units() == Bpf.UnitOf(p, k + 1)
    ensures Bpf.Boundary(p, Bpf.UnitOf(p, k + 1)) <==> k + 1 < |p|
  {
    if Bpf.Boundary(p, Bpf.UnitOf(p, k + 1)) {
      Bpf.UnitOfInjective(p, Bpf.InsnIndex(p, Bpf.UnitOf(p, k + 1)), k + 1);
    }
  }

  lemma BranchEffect(o: Bpf.Oracle, u: nat, i: Bpf.Insn, c: Bpf.Core)
    requires |c.regs| == 12 && Bpf.Decodable(i) && i.IsTerminator()
    ensures Bpf.Effect(o, u, i, c) == c
  {
  }

  /** Where the machine is after instruction k: the next instruction, or a branch target. */
  lemma NextInsn(p: Bpf.Program, k: nat, c: Bpf.Core) returns (k': nat)
    requires Resolvable(p) && k < |p| && |c.regs| == 12
    requires Bpf.Boundary(p, Bpf.NextUnit(p[k], Bpf.UnitOf(p, k), c))
    ensures k' < |p| && Bpf.UnitOf(p, k') == Bpf.NextUnit(p[k], Bpf.UnitOf(p, k), c)
    ensures p[k].Jump? || (p[k].Branch? && Bpf.Taken(p[k], c)) ==> Bpf.UnitOf(p, k') == Cfg.Target(p, k)
    ensures !(p[k].Jump? || (p[k].Branch? && Bpf.Taken(p[k], c))) ==> k' == k + 1
  {
    hide Bpf.Decodable, Bpf.Taken;
    FollowingUnit(p, k);
    if p[k].Jump? || (p[k].Branch? && Bpf.Taken(p[k], c)) {
      k' := Bpf.InsnIndex(p, Cfg.Target(p, k));
    } else {
      k' := k + 1;
    }
  }

  /** Every step of the machine that stays in the program is matched by the lifted code. */
  lemma StepMatched(p: Bpf.Program, args: seq<ArgType>, cfg: Config, o: Bpf.Oracle, k: nat, c: Bpf.Core, d: Data)
    returns (n: nat, k': nat, d': Data)
    requires Resolvable(p) && ValidArgs(args) && k < |p| && !p[k].Exit? && Matches(c, d)
    requires cfg.helper == o.helper && CallJunk(p, args, cfg, o)
    requires Bpf.Boundary(p, Bpf.NextUnit(p[k], Bpf.UnitOf(p, k), c))
    ensures k' < |p| && Bpf.UnitOf(p, k') == Bpf.NextUnit(p[k], Bpf.UnitOf(p, k), c)
    ensures Steps(Lifted(p, args), cfg, Here(Point(p, args, k), d), n) == Here(Point(p, args, k'), d')
    ensures Matches(Bpf.Effect(o, Bpf.UnitOf(p, k), p[k], c), d')
    ensures n > 0 || k' == k + 1
  {
    hide Point, Lifted, Here, Bpf.Effect, Bpf.Taken, CallJunk, Bpf.NextUnit, Bpf.UnitOf, Cfg.Target;
    k' := NextInsn(p, k, c);
    if p[k].Jump? {
      JumpMatched(p, args, cfg, k, k', d);
      BranchEffect(o, Bpf.UnitOf(p, k), p[k], c);
      n, d' := 1, d;
    } else if p[k].Branch? {
      var t := Bpf.InsnIndex(p, Cfg.Target(p, k));
      if Bpf.Taken(p[k], c) { Bpf.UnitOfInjective(p, k', t); }
      n, d' := BranchMatched(p, args, cfg, k, t, c, d);
      BranchEffect(o, Bpf.UnitOf(p, k), p[k], c);
    } else {
      n, d' := DataMatched(p, args, cfg, o, k, c, d);
    }
  }

  // ---------------------------------------------------------------- runs

  /** The machine's state and the state of the lifted function correspond. */
  ghost predicate Corresponds(p: Bpf.Program, args: seq<ArgType>, s: Bpf.Outcome, t: State)
    requires Bpf.DecodableProgram(p) && ValidArgs(args)
  {
    match s
    case Running(pc, c) => exists k: nat, d :: Running(p, args, pc, c, t, k, d)
    case Exited(r0, mem, calls) => t == Returned(Typed(64, r0), mem, calls)
    case OffEnd(_, _) => false
  }

  ghost predicate Running(p: Bpf.Program, args: seq<ArgType>, pc: int, c: Bpf.Core, t: State, k: nat, d: Data)
    requires Bpf.DecodableProgram(p) && ValidArgs(args)
  {
    k < |p| && Bpf.UnitOf(p, k) == pc && Matches(c, d) && t == Here(Point(p, args, k), d)
  }

  lemma {:induction false} FlatStepAt(p: Bpf.Program, o: Bpf.Oracle, k: nat, c: Bpf.Core)
    requires Bpf.DecodableProgram(p) && k < |p| && |c.regs| == 12
    ensures Bpf.FlatStep(p, o, Bpf.Running(Bpf.UnitOf(p, k), c))
            == if p[k].Exit? then Bpf.Exited(c.regs[0], c.mem, c.calls)
               else Bpf.Running(Bpf.NextUnit(p[k], Bpf.UnitOf(p, k), c), Bpf.Effect(o, Bpf.UnitOf(p, k), p[k], c))
  {
    assert Bpf.Boundary(p, Bpf.UnitOf(p, k));
    Bpf.UnitOfInjective(p, Bpf.InsnIndex(p, Bpf.UnitOf(p, k)), k);
  }

  /** A machine state from which the next step stays in the instruction stream. */
  ghost predicate InStream(p: Bpf.Program, s: Bpf.Outcome) {
    !s.OffEnd? && (s.Running? ==> Bpf.Boundary(p, s.pc))
  }

  lemma InStreamBefore(p: Bpf.Program, o: Bpf.Oracle, s: Bpf.Outcome)
    requires Bpf.DecodableProgram(p) && (s.Running? ==> |s.core.regs| == 12)
    ensures !Bpf.FlatStep(p, o, s).OffEnd? <==> InStream(p, s)
  {
    hide Bpf.NextUnit, Bpf.Effect;
  }

  /** The machine's start: the first instruction, with the given state. */
  function FlatStart(c: Bpf.Core): Bpf.Outcome { Bpf.Running(0, c) }

  lemma {:induction false} Progress(done: nat, m: nat, k: nat, n: nat, k': nat, len: nat)
    requires done <= m * (len + 1) + k && k < len && (n > 0 || k' == k + 1)
    ensures done + 1 <= (m + n) * (len + 1) + k'
  {
    assert (m + n) * (len + 1) == m * (len + 1) + n * (len + 1);
    if n > 0 { MulMono(len + 1, 1, n); }
  }

  /** After every number of steps that leaves the machine in the program, the lifted code is
      in the corresponding state after some number of its own steps, which grows without
      bound with the machine's. */
  lemma {:induction false} RunMatched(p: Bpf.Program, args: seq<ArgType>, cfg: Config, o: Bpf.Oracle,
                                      c0: Bpf.Core, d0: Data, steps: nat) returns (m: nat, k: nat)
    requires Resolvable(p) && ValidArgs(args) && Matches(c0, d0)
    requires cfg.helper == o.helper && CallJunk(p, args, cfg, o)
    requires InStream(p, Bpf.FlatRun(p, o, FlatStart(c0), steps))
    ensures Corresponds(p, args, Bpf.FlatRun(p, o, FlatStart(c0), steps),
                        Steps(Lifted(p, args), cfg, Here(Point(p, args, 0), d0), m))
    ensures var s := Bpf.FlatRun(p, o, FlatStart(c0), steps);
            s.Running? ==> k < |p| && steps <= m * (|p| + 1) + k && Bpf.UnitOf(p, k) == s.pc
    decreases steps
  {
    hide Lifted, Here, Point, CallJunk, Bpf.FlatStep;
    if steps == 0 {
      m, k := 0, 0;
      assert Running(p, args, 0, c0, Here(Point(p, args, 0), d0), 0, d0);
    } else {
      var s := Bpf.FlatRun(p, o, FlatStart(c0), steps - 1);
      InStreamBefore(p, o, s);
      m, k := RunMatched(p, args, cfg, o, c0, d0, steps - 1);
      if s.Running? {
        m, k := RunStep(p, args, cfg, o, s.pc, s.core, Here(Point(p, args, 0), d0), m, k, steps - 1);
      } else {
        FlatStepDone(p, o, s);
      }
    }
  }

  lemma FlatStepDone(p: Bpf.Program, o: Bpf.Oracle, s: Bpf.Outcome)
    requires Bpf.DecodableProgram(p) && !s.Running?
    ensures Bpf.FlatStep(p, o, s) == s
  {
  }

  lemma {:induction false} RunStep(p: Bpf.Program, args: seq<ArgType>, cfg: Config, o: Bpf.Oracle, pc: int, c: Bpf.Core,
                                   t0: State, m: nat, k: nat, done: nat) returns (m': nat, k': nat)
    requires Resolvable(p) && ValidArgs(args) && |c.regs| == 12
    requires cfg.helper == o.helper && CallJunk(p, args, cfg, o)
    requires Corresponds(p, args, Bpf.Running(pc, c), Steps(Lifted(p, args), cfg, t0, m))
    requires k < |p| && done <= m * (|p| + 1) + k && Bpf.UnitOf(p, k) == pc
    requires InStream(p, Bpf.FlatStep(p, o, Bpf.Running(pc, c)))
    ensures var s' := Bpf.FlatStep(p, o, Bpf.Running(pc, c));
            && Corresponds(p, args, s', Steps(Lifted(p, args), cfg, t0, m'))
            && (s'.Running? ==> k' < |p| && done + 1 <= m' * (|p| + 1) + k' && Bpf.UnitOf(p, k') == s'.pc)
  {
    hide Lifted, Here, Point, CallJunk, Bpf.FlatStep, Bpf.NextUnit, Bpf.Effect;
    var t := Steps(Lifted(p, args), cfg, t0, m);
    var k0: nat, d :| Running(p, args, pc, c, t, k0, d);
    Bpf.UnitOfInjective(p, k0, k);
    FlatStepAt(p, o, k, c);
    var n, d';
    if p[k].Exit? {
      n := ExitMatched(p, args, cfg, k, c, d);
      k' := k;
    } else {
      n, k', d' := StepMatched(p, args, cfg, o, k, c, d);
      var s' := Bpf.FlatStep(p, o, Bpf.Running(pc, c));
      assert Running(p, args, s'.pc, s'.core, Here(Point(p, args, k'), d'), k', d');
      Progress(done, m, k, n, k', |p|);
    }
    StepsAdd(Lifted(p, args), cfg, t0, m, n);
    m' := m + n;
  }
}
