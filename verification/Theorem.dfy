/** The main results about the lifter: whatever bytecode it accepts, the code it emits and
    the flat machine of RFC 9669 do the same. */
module Theorem {
  import opened Options
  import opened Words
  import opened Memory
  import opened Ir
  import opened CodegenProofs
  import opened CallProofs
  import opened Cfg
  import opened Emission
  import opened Abi
  import opened Prologue
  import opened Lifting
  import opened Scratch
  import opened Simulation
  import opened WholeProgram
  import opened Runs
  import opened Realization
  import Bpf

  /** What bytes mode accepts: resolvable branches, at most five arguments, and few enough
      calls for the scratch bytes. */
  ghost predicate Accepted(p: Bpf.Program, args: seq<ArgType>) {
    Resolvable(p) && ValidArgs(args) && ArgOffset(args, |args|) + 40 * Calls(p, |p|) <= SCRATCH_BYTES
  }

  /** The surroundings of the lifted function that realise the given entry registers and the
      clobbers of every call. */
  ghost function Surroundings(p: Bpf.Program, args: seq<ArgType>, vals: seq<nat>, frame: nat, regs: seq<nat>, o: Bpf.Oracle)
    : (cfg: Config)
    requires Accepted(p, args) && |vals| == |args| && |regs| == 12
    ensures |cfg.args| == |args| && forall i :: 0 <= i < |args| ==> cfg.args[i] == Typed(args[i].Bits(), vals[i])
    ensures cfg.frame == frame && cfg.helper == o.helper && |cfg.unspecified| == SCRATCH_BYTES
  {
    var sites := AllSites(p, args, regs, o);
    EntrySize(args, regs);
    CallSitesPrefix(p, o, |p|, |p|);
    SizeAppend(EntrySites(args, regs), CallSites(p, o, |p|));
    Config(seq(|args|, i requires 0 <= i < |args| => Typed(args[i].Bits(), vals[i])), frame,
           Layout(sites) + seq<nat>(SCRATCH_BYTES - Size(sites), i => 0), o.helper)
  }

  lemma SurroundingsRealise(p: Bpf.Program, args: seq<ArgType>, vals: seq<nat>, frame: nat, regs: seq<nat>, o: Bpf.Oracle)
    requires Accepted(p, args) && |vals| == |args| && (forall i :: 0 <= i < |args| ==> vals[i] < Pow2(args[i].Bits()))
    requires EntryRegisters(args, vals, frame, regs)
    ensures var cfg := Surroundings(p, args, vals, frame, regs, o);
            ArgsPassed(cfg, args, vals, regs) && EntryJunk(cfg, args, regs) && CallJunk(p, args, cfg, o)
  {
    hide AllSites, Layout, Point;
    var cfg := Surroundings(p, args, vals, frame, regs, o);
    var rest := cfg.unspecified[Size(AllSites(p, args, regs, o))..];
    assert cfg.unspecified == Layout(AllSites(p, args, regs, o)) + rest;
    forall r | 0 <= r < 12 ensures RegJunk(cfg, r) == Some(regs[r]) {
      RegLoads(p, args, regs, o, r, rest);
    }
    forall i | 0 <= i < |args| && args[i].JunkBits() > 0
      ensures UnspecifiedAt(cfg.unspecified, ArgOffset(args, i), args[i].JunkBits()) == Some(JunkOf(args[i], regs[1 + i]))
    {
      assert args[i] in args;
      JunkOfWidens(args[i], vals[i], regs[1 + i]);
      ArgLoads(p, args, regs, o, i, rest);
    }
    forall k | 0 <= k < |p| && p[k].Call? ensures JunkMatches(cfg, o, Bpf.UnitOf(p, k), Point(p, args, k).off) {
      ClobbersRealised(p, args, cfg, regs, o, k, rest);
    }
  }

  lemma {:induction false} ClobbersRealised(p: Bpf.Program, args: seq<ArgType>, cfg: Config, regs: seq<nat>,
                                            o: Bpf.Oracle, k: nat, rest: seq<nat>)
    requires Bpf.DecodableProgram(p) && ValidArgs(args) && |regs| == 12 && k < |p| && p[k].Call?
    requires cfg.unspecified == Layout(AllSites(p, args, regs, o)) + rest
    ensures JunkMatches(cfg, o, Bpf.UnitOf(p, k), Point(p, args, k).off)
  {
    hide AllSites, Layout, Point, Bpf.UnitOf, UnspecifiedAt;
    PointOff(p, args, k);
    forall r | 1 <= r <= 5 ensures JunkAt(cfg, Point(p, args, k).off, r) == Some(Wrap(64, o.clobber(Bpf.UnitOf(p, k), r))) {
      CallLoads(p, args, regs, o, k, r, rest);
    }
  }

  // ---------------------------------------------------------------- when the machine stays in the program

  /** A step leaves the instruction stream exactly when it falls off the last instruction. */
  lemma {:induction false} FallsOffExactly(p: Bpf.Program, o: Bpf.Oracle, k: nat, c: Bpf.Core)
    requires Resolvable(p) && k < |p| && |c.regs| == 12
    ensures InStream(p, Bpf.FlatStep(p, o, Bpf.Running(Bpf.UnitOf(p, k), c)))
            <==> k + 1 < |p| || p[k].Exit? || p[k].Jump? || (p[k].Branch? && Bpf.Taken(p[k], c))
  {
    hide Bpf.FlatStep, Bpf.Effect, Bpf.Taken, Bpf.Decodable;
    FlatStepAt(p, o, k, c);
    FollowingUnit(p, k);
    if p[k].IsBranch() {
      assert Bpf.Boundary(p, Cfg.Target(p, k));
    }
  }

  /** The machine never runs past the last instruction. */
  ghost predicate StaysIn(p: Bpf.Program, o: Bpf.Oracle, c: Bpf.Core)
    requires Bpf.DecodableProgram(p) && |c.regs| == 12
  {
    forall n: nat :: InStream(p, Bpf.FlatRun(p, o, FlatStart(c), n))
  }

  /** A program that ends in an exit or an unconditional jump never does, whatever it is given. */
  lemma {:induction false} ClosedProgramStaysIn(p: Bpf.Program, o: Bpf.Oracle, c: Bpf.Core)
    requires Resolvable(p) && (p[|p| - 1].Exit? || p[|p| - 1].Jump?) && |c.regs| == 12
    ensures StaysIn(p, o, c)
  {
    forall n: nat ensures InStream(p, Bpf.FlatRun(p, o, FlatStart(c), n)) {
      RunStaysIn(p, o, c, n);
    }
  }

  lemma {:induction false} RunStaysIn(p: Bpf.Program, o: Bpf.Oracle, c: Bpf.Core, n: nat)
    requires Resolvable(p) && (p[|p| - 1].Exit? || p[|p| - 1].Jump?) && |c.regs| == 12
    ensures InStream(p, Bpf.FlatRun(p, o, FlatStart(c), n))
    decreases n
  {
    hide Bpf.FlatStep;
    if n == 0 {
      assert Bpf.UnitOf(p, 0) == 0;
    } else {
      RunStaysIn(p, o, c, n - 1);
      var s := Bpf.FlatRun(p, o, FlatStart(c), n - 1);
      if s.Running? {
        FallsOffExactly(p, o, Bpf.InsnIndex(p, s.pc), s.core);
      } else {
        FlatStepDone(p, o, s);
      }
    }
  }

  // ---------------------------------------------------------------- the theorem

  /** A call of the function: argument values, the frame's address, registers and memory. */
  datatype Entry = Entry(vals: seq<nat>, frame: nat, regs: seq<nat>, mem: Memory)

  ghost predicate EntryState(p: Bpf.Program, args: seq<ArgType>, x: Entry) {
    && Accepted(p, args) && |x.vals| == |args| && (forall i :: 0 <= i < |args| ==> x.vals[i] < Pow2(args[i].Bits()))
    && EntryRegisters(args, x.vals, x.frame, x.regs)
  }

  /** The registers at a call with the given arguments: the rest is free, and so are the unspecified bits. */
  function RegistersAt(args: seq<ArgType>, vals: seq<nat>, frame: nat, junk: seq<nat>, free: seq<nat>): (regs: seq<nat>)
    requires ValidArgs(args) && |vals| == |junk| == |args| && |free| == 12
    ensures |regs| == 12
  {
    seq(12, r requires 0 <= r < 12 =>
      if r == 10 then Wrap(64, frame + STACK_BYTES)
      else if 1 <= r <= |args| then Widened(args[r - 1], vals[r - 1], junk[r - 1])
      else free[r])
  }

  lemma {:induction false} WidenedFits(t: ArgType, n: nat, junk: nat)
    requires t.Valid() && n < Pow2(t.Bits()) && junk < Pow2(t.JunkBits())
    ensures Widened(t, n, junk) < Pow2(64) && ArgInRegister(t, n, Widened(t, n, junk))
  {
    Pow2Mono(t.Bits(), 64);
    WidenRoundTrip(t, n, junk);
    if t.JunkBits() > 0 { ShlJunk(t.width, junk); }
  }

  /** Every choice of arguments, junk, other registers, frame address and memory is an entry the results speak about. */
  lemma {:induction false} EveryEntry(p: Bpf.Program, args: seq<ArgType>, vals: seq<nat>, frame: nat, mem: Memory,
                                      junk: seq<nat>, free: seq<nat>)
    requires Accepted(p, args) && |vals| == |junk| == |args| && |free| == 12
    requires forall i :: 0 <= i < |args| ==> vals[i] < Pow2(args[i].Bits()) && junk[i] < Pow2(args[i].JunkBits())
    requires forall r :: 0 <= r < 12 ==> free[r] < Pow2(64)
    ensures EntryState(p, args, Entry(vals, frame, RegistersAt(args, vals, frame, junk, free), mem))
  {
    var regs := RegistersAt(args, vals, frame, junk, free);
    assert |args| <= 5;
    hide Accepted, Widened, Pow2, ArgInRegister;
    forall i | 0 <= i < |args| ensures regs[1 + i] < Pow2(64) && ArgInRegister(args[i], vals[i], regs[1 + i]) {
      assert args[i] in args && regs[1 + i] == Widened(args[i], vals[i], junk[i]);
      WidenedFits(args[i], vals[i], junk[i]);
    }
    forall r | 0 <= r < 12 ensures regs[r] < Pow2(64) {
      if r != 10 && 1 <= r <= |args| {
        assert regs[1 + (r - 1)] < Pow2(64);
      } else {
        assert regs[r] == if r == 10 then Wrap(64, frame + STACK_BYTES) else free[r];
      }
    }
  }

  /** There are accepted programs. */
  lemma ExitIsAccepted()
    ensures Accepted([Bpf.Exit], [])
  {
    assert Bpf.Decodable(Bpf.Exit);
    assert ArgOffset([], 0) == 96;
  }

  /** The flat machine after n steps. */
  ghost function Machine(p: Bpf.Program, args: seq<ArgType>, x: Entry, o: Bpf.Oracle, n: nat): (s: Bpf.Outcome)
    requires EntryState(p, args, x)
  {
    Bpf.FlatRun(p, o, FlatStart(Bpf.Core(x.regs, x.mem, [])), n)
  }

  /** The lifted function after m steps, in surroundings with one fixed content of the
      unspecified bytes. */
  ghost function Code(p: Bpf.Program, args: seq<ArgType>, x: Entry, o: Bpf.Oracle, m: nat): State
    requires EntryState(p, args, x)
  {
    Steps(Lifted(p, args), Surroundings(p, args, x.vals, x.frame, x.regs, o), StartOf(x.mem), m)
  }

  /** m steps of code for n steps of the machine: only instructions that emit nothing, at most
      a whole program of them in a row, take no step. */
  predicate InStep(n: nat, m: nat, len: nat) { n <= m * (len + 1) + len }

  lemma EnoughSteps(m: nat, len: nat) returns (n: nat)
    ensures forall m': nat :: InStep(n, m', len) ==> m < m'
  {
    Scales(0, m, len + 1);
    n := m * (len + 1) + len + 1;
    forall m': nat | InStep(n, m', len) ensures m < m' {
      if m' <= m { Scales(m', m, len + 1); }
    }
  }

  lemma Scales(a: nat, b: nat, c: nat)
    requires a <= b
    ensures a * c <= b * c
  {
    MulMono(c, a, b);
  }

  lemma {:induction false} RunFromEntry(p: Bpf.Program, args: seq<ArgType>, vals: seq<nat>, regs: seq<nat>, mem: Memory,
                                        cfg: Config, o: Bpf.Oracle, n: nat) returns (m: nat)
    requires Resolvable(p) && ValidArgs(args) && |vals| == |args| && |regs| == 12 && cfg.helper == o.helper
    requires ArgsPassed(cfg, args, vals, regs) && EntryJunk(cfg, args, regs) && CallJunk(p, args, cfg, o)
    requires EntryRegisters(args, vals, cfg.frame, regs)
    requires InStream(p, Bpf.FlatRun(p, o, FlatStart(Bpf.Core(regs, mem, [])), n))
    ensures Corresponds(p, args, Bpf.FlatRun(p, o, FlatStart(Bpf.Core(regs, mem, [])), n),
                        Steps(Lifted(p, args), cfg, StartOf(mem), m))
    ensures Bpf.FlatRun(p, o, FlatStart(Bpf.Core(regs, mem, [])), n).Running? ==> n <= m * (|p| + 1) + |p|
  {
    hide Lifted, Point, Here, Bpf.FlatRun, Corresponds, CallJunk, EntryJunk, EntryRegisters, ArgsPassed, Matches, InStream;
    var e, d := EntryMatched(p, args, vals, cfg, regs, mem);
    var k;
    m, k := RunMatched(p, args, cfg, o, Bpf.Core(regs, mem, []), d, n);
    StepsAdd(Lifted(p, args), cfg, StartOf(mem), e, m);
    Scales(m, e + m, |p| + 1);
    m := e + m;
  }

  /** Forward: for every accepted program, every entry state and every behaviour of helpers
      and clobbers, the lifted function is, after some steps, in the state corresponding to
      the machine's after n steps, as long as the machine has not run off the end. In
      particular it returns r0, with the same memory and the same calls, when the machine
      exits. */
  lemma LiftedFollowsMachine(p: Bpf.Program, args: seq<ArgType>, x: Entry, o: Bpf.Oracle, n: nat) returns (m: nat)
    requires EntryState(p, args, x) && InStream(p, Machine(p, args, x, o, n))
    ensures Corresponds(p, args, Machine(p, args, x, o, n), Code(p, args, x, o, m))
    ensures Machine(p, args, x, o, n).Running? ==> InStep(n, m, |p|)
  {
    assert |x.regs| == 12;
    hide Bpf.FlatRun, Corresponds, CallJunk, EntryJunk, EntryRegisters, ArgsPassed, InStream;
    SurroundingsRealise(p, args, x.vals, x.frame, x.regs, o);
    m := RunFromEntry(p, args, x.vals, x.regs, x.mem, Surroundings(p, args, x.vals, x.frame, x.regs, o), o, n);
  }

  lemma {:induction false} BothDone(f: Fn, cfg: Config, s: State, m: nat, n: nat)
    requires !Steps(f, cfg, s, m).At? && m <= n
    ensures Steps(f, cfg, s, n) == Steps(f, cfg, s, m)
  {
    StepsAdd(f, cfg, s, m, n - m);
    StepsDone(f, cfg, Steps(f, cfg, s, m), n - m);
  }

  lemma CodeDone(p: Bpf.Program, args: seq<ArgType>, x: Entry, o: Bpf.Oracle, m: nat, n: nat)
    requires EntryState(p, args, x) && !Code(p, args, x, o, m).At? && m <= n
    ensures Code(p, args, x, o, n) == Code(p, args, x, o, m)
  {
    hide Lifted, Surroundings;
    BothDone(Lifted(p, args), Surroundings(p, args, x.vals, x.frame, x.regs, o), StartOf(x.mem), m, n);
  }

  lemma CorrespondsDone(p: Bpf.Program, args: seq<ArgType>, s: Bpf.Outcome, t: State)
    requires Bpf.DecodableProgram(p) && ValidArgs(args) && Corresponds(p, args, s, t)
    ensures s.Running? <==> t.At?
    ensures !s.Running? ==> s.Exited? && t == Returned(Typed(64, s.r0), s.mem, s.calls)
  {
    hide Point, Matches;
  }

  /** Backward: when the lifted function has finished, it has returned and not got stuck,
      and the machine has exited with the same r0, memory and calls. */
  lemma MachineFollowsLifted(p: Bpf.Program, args: seq<ArgType>, x: Entry, o: Bpf.Oracle, m: nat) returns (n: nat)
    requires EntryState(p, args, x) && StaysIn(p, o, Bpf.Core(x.regs, x.mem, []))
    requires !Code(p, args, x, o, m).At?
    ensures var s := Machine(p, args, x, o, n);
            s.Exited? && Code(p, args, x, o, m) == Returned(Typed(64, s.r0), s.mem, s.calls)
  {
    hide InStep, Machine, Code, Corresponds, InStream, EntryState;
    n := EnoughSteps(m, |p|);
    StaysAt(p, args, x, o, n);
    var m' := LiftedFollowsMachine(p, args, x, o, n);
    CorrespondsDone(p, args, Machine(p, args, x, o, n), Code(p, args, x, o, m'));
    if m' < m {
      CodeDone(p, args, x, o, m', m);
    } else {
      CodeDone(p, args, x, o, m, m');
    }
  }

  lemma StaysAt(p: Bpf.Program, args: seq<ArgType>, x: Entry, o: Bpf.Oracle, n: nat)
    requires EntryState(p, args, x) && StaysIn(p, o, Bpf.Core(x.regs, x.mem, []))
    ensures Bpf.DecodableProgram(p) && ValidArgs(args) && InStream(p, Machine(p, args, x, o, n))
  {
  }

  lemma {:induction false} ExitIsReturned(p: Bpf.Program, args: seq<ArgType>, x: Entry, o: Bpf.Oracle,
                                          n: nat) returns (m: nat)
    requires EntryState(p, args, x) && StaysIn(p, o, Bpf.Core(x.regs, x.mem, []))
    requires Machine(p, args, x, o, n).Exited?
    ensures var s := Machine(p, args, x, o, n);
            Code(p, args, x, o, m) == Returned(Typed(64, s.r0), s.mem, s.calls)
  {
    hide InStep, Machine, Code, Corresponds, InStream, EntryState;
    StaysAt(p, args, x, o, n);
    m := LiftedFollowsMachine(p, args, x, o, n);
    CorrespondsDone(p, args, Machine(p, args, x, o, n), Code(p, args, x, o, m));
  }

  /** The machine exits with this r0, this memory and these calls. */
  ghost predicate MachineExits(p: Bpf.Program, args: seq<ArgType>, x: Entry, o: Bpf.Oracle,
                               r0: nat, mem: Memory, calls: seq<Bpf.CallEvent>)
    requires EntryState(p, args, x)
  {
    exists n :: Machine(p, args, x, o, n) == Bpf.Exited(r0, mem, calls)
  }

  /** The lifted function returns this value, with this memory and these calls. */
  ghost predicate CodeReturns(p: Bpf.Program, args: seq<ArgType>, x: Entry, o: Bpf.Oracle,
                              r0: nat, mem: Memory, calls: seq<Bpf.CallEvent>)
    requires EntryState(p, args, x)
  {
    exists m :: Code(p, args, x, o, m) == Returned(Typed(64, r0), mem, calls)
  }

  ghost predicate CodeGetsStuck(p: Bpf.Program, args: seq<ArgType>, x: Entry, o: Bpf.Oracle)
    requires EntryState(p, args, x)
  {
    exists m :: Code(p, args, x, o, m) == Stuck
  }

  lemma {:induction false} ExitsImpliesReturns(p: Bpf.Program, args: seq<ArgType>, x: Entry, o: Bpf.Oracle,
                                               r0: nat, mem: Memory, calls: seq<Bpf.CallEvent>)
    requires EntryState(p, args, x) && StaysIn(p, o, Bpf.Core(x.regs, x.mem, []))
    requires MachineExits(p, args, x, o, r0, mem, calls)
    ensures CodeReturns(p, args, x, o, r0, mem, calls)
  {
    hide EntryState, StaysIn, Machine, Code;
    var n :| Machine(p, args, x, o, n) == Bpf.Exited(r0, mem, calls);
    var m := ExitIsReturned(p, args, x, o, n);
  }

  lemma {:induction false} ReturnsImpliesExits(p: Bpf.Program, args: seq<ArgType>, x: Entry, o: Bpf.Oracle,
                                               r0: nat, mem: Memory, calls: seq<Bpf.CallEvent>)
    requires EntryState(p, args, x) && StaysIn(p, o, Bpf.Core(x.regs, x.mem, []))
    requires CodeReturns(p, args, x, o, r0, mem, calls)
    ensures MachineExits(p, args, x, o, r0, mem, calls)
  {
    hide EntryState, StaysIn, Machine, Code;
    var m :| Code(p, args, x, o, m) == Returned(Typed(64, r0), mem, calls);
    var n := MachineFollowsLifted(p, args, x, o, m);
  }

  lemma {:induction false} NeverStuck(p: Bpf.Program, args: seq<ArgType>, x: Entry, o: Bpf.Oracle)
    requires EntryState(p, args, x) && StaysIn(p, o, Bpf.Core(x.regs, x.mem, []))
    ensures !CodeGetsStuck(p, args, x, o)
  {
    hide EntryState, StaysIn, Machine, Code;
    forall m ensures Code(p, args, x, o, m) != Stuck {
      if !Code(p, args, x, o, m).At? {
        var n := MachineFollowsLifted(p, args, x, o, m);
      }
    }
  }

  /** For a program that ends in an exit or a jump: the lifted function returns v exactly when
      the machine exits with v, and it never gets stuck. */
  lemma {:induction false} ReturnsExactlyWhenExits(p: Bpf.Program, args: seq<ArgType>, x: Entry, o: Bpf.Oracle,
                                r0: nat, mem: Memory, calls: seq<Bpf.CallEvent>)
    requires EntryState(p, args, x) && (p[|p| - 1].Exit? || p[|p| - 1].Jump?)
    ensures MachineExits(p, args, x, o, r0, mem, calls) <==> CodeReturns(p, args, x, o, r0, mem, calls)
    ensures !CodeGetsStuck(p, args, x, o)
  {
    ClosedProgramStaysIn(p, o, Bpf.Core(x.regs, x.mem, []));
    hide Machine, Code, StaysIn, EntryState, MachineExits, CodeReturns, CodeGetsStuck;
    NeverStuck(p, args, x, o);
    if MachineExits(p, args, x, o, r0, mem, calls) {
      ExitsImpliesReturns(p, args, x, o, r0, mem, calls);
    }
    if CodeReturns(p, args, x, o, r0, mem, calls) {
      ReturnsImpliesExits(p, args, x, o, r0, mem, calls);
    }
  }
}
