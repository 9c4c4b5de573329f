/** The code emitted into the entry block: storage for the registers, filled with
    unspecified values, the frame pointer, and the arguments. */
module Prologue {
  import opened Options
  import opened Words
  import opened Memory
  import opened Ir
  import opened Codegen
  import opened CodegenProofs
  import opened Abi
  import Bpf
  import Slots

  /** r10 points this far into the frame block. */
  const STACK_BYTES: nat := 1024

  function RegisterStorage(n: nat, id: nat, off: nat): Piece
    requires n <= 12
  {
    if n == 0 then Start(id)
    else
      RegisterStorage(n - 1, id, off)
      .Do(Alloca(RegCell(n - 1)))
      .Def(LoadUnspecified(id + n - 1, 64, off + 8 * (n - 1)))
      .Do(StoreCell(Ref(id + n - 1), RegCell(n - 1)))
  }

  /** Where the junk of argument n starts. */
  function ArgOffset(args: seq<ArgType>, n: nat): nat
    requires n <= |args| && forall t <- args :: t.Valid()
  {
    if n == 0 then 96 else ArgOffset(args, n - 1) + args[n - 1].JunkBytes()
  }

  function StoreArgs(args: seq<ArgType>, n: nat, id: nat): Piece
    requires n <= |args| && forall t <- args :: t.Valid()
  {
    if n == 0 then Start(id)
    else
      var p := StoreArgs(args, n - 1, id);
      var w := Widen(Arg(n - 1), args[n - 1], p.next, ArgOffset(args, n - 1));
      p.Then(w).Do(StoreCell(w.val, RegCell(n)))
  }

  /** Frame block, registers, frame pointer, arguments. */
  function Setup(args: seq<ArgType>): Piece
    requires forall t <- args :: t.Valid()
  {
    var p := Start(0).Def(FrameAlloc(0)).Then(RegisterStorage(12, 1, 0));
    var q := p.Def(Gep(p.next, Ref(0), Const(64, STACK_BYTES))).Do(StoreCell(Ref(p.next), RegCell(Bpf.R10)));
    q.Then(StoreArgs(args, |args|, q.next))
  }

  /** What the calling convention says about an argument register. */
  predicate ArgInRegister(t: ArgType, n: nat, r: nat)
    requires t.Valid()
  {
    if t.JunkBits() == 0 then r == Widened(t, n, 0) else Wrap(t.width, r) == n
  }

  /** The register files a function may be entered with. */
  ghost predicate EntryRegisters(args: seq<ArgType>, vals: seq<nat>, frame: nat, regs: seq<nat>)
    requires |vals| == |args| <= 5 && forall t <- args :: t.Valid()
  {
    && |regs| == 12
    && (forall r :: 0 <= r < 12 ==> regs[r] < Pow2(64))
    && regs[10] == Wrap(64, frame + STACK_BYTES)
    && (forall i :: 0 <= i < |args| ==> ArgInRegister(args[i], vals[i], regs[1 + i]))
  }

  /** At entry r10 is the address of byte 1024 of the frame block, where frame offsets are counted from. */
  lemma {:induction false} FramePointerAtTop(args: seq<ArgType>, vals: seq<nat>, frame: nat, regs: seq<nat>)
    requires |vals| == |args| <= 5 && (forall t <- args :: t.Valid()) && EntryRegisters(args, vals, frame, regs)
    ensures regs[10] == (frame + 1024) % 0x1_0000_0000_0000_0000 == (frame + Slots.FRAME_TOP) % 0x1_0000_0000_0000_0000
  {
    WrapIsMod(64, frame + STACK_BYTES);
  }

  function JunkOf(t: ArgType, r: nat): (j: nat)
    requires t.Valid()
  {
    if t.JunkBits() == 0 then 0 else ShiftRight(r, t.width)
  }

  lemma JunkOfWidens(t: ArgType, n: nat, r: nat)
    requires t.Valid() && n < Pow2(t.Bits()) && r < Pow2(64) && ArgInRegister(t, n, r)
    ensures Widened(t, n, JunkOf(t, r)) == r
    ensures JunkOf(t, r) < Pow2(t.JunkBits())
  {
    if t.JunkBits() > 0 {
      var p := Pow2(t.width);
      ShiftRightIsDiv(r, t.width);
      WrapIsMod(t.width, r);
      Pow2Add(64 - t.width, t.width);
      QuotientBound(r, Pow2(64 - t.width), p);
    }
  }

  lemma QuotientBound(r: nat, a: nat, p: nat)
    requires p > 0 && r < a * p
    ensures r / p < a
    ensures r == r / p * p + r % p
  {
    assert r == p * (r / p) + r % p;
    if r / p >= a {
      MulMono(p, a, r / p);
      assert false;
    }
  }

  /** The global of unspecified bytes holds what the register file needs at entry. */
  ghost predicate EntryJunk(cfg: Config, args: seq<ArgType>, regs: seq<nat>)
    requires |regs| == 12 && |args| <= 5 && forall t <- args :: t.Valid()
  {
    && (forall r :: 0 <= r < 12 ==> RegJunk(cfg, r) == Some(regs[r]))
    && (forall i :: 0 <= i < |args| && args[i].JunkBits() > 0 ==>
          UnspecifiedAt(cfg.unspecified, ArgOffset(args, i), args[i].JunkBits()) == Some(JunkOf(args[i], regs[1 + i])))
  }

  function RegJunk(cfg: Config, r: nat): Option<nat> { UnspecifiedAt(cfg.unspecified, 8 * r, 64) }

  /** Cells of registers below n hold the given values; nothing else matters yet. */
  ghost predicate CellsHold(d: Data, regs: seq<nat>, n: nat)
    requires n <= |regs|
  {
    forall r :: 0 <= r < n ==> RegCell(r) in d.cells && d.cells[RegCell(r)] == Typed(64, regs[r])
  }

  ghost predicate SameWorld(d: Data, d': Data, id: nat) {
    d'.mem == d.mem && d'.calls == d.calls && KeepsNames(d, d', id)
  }

  lemma {:induction false} RegisterStorageRuns(cfg: Config, d: Data, regs: seq<nat>, n: nat, id: nat)
    requires n <= 12 == |regs| && forall r :: 0 <= r < 12 ==> RegJunk(cfg, r) == Some(regs[r])
    ensures RegisterStorage(n, id, 0).next == id + n
    ensures Run(cfg, RegisterStorage(n, id, 0).code, d).Some?
    ensures CellsHold(After(cfg, RegisterStorage(n, id, 0), d), regs, n)
    ensures SameWorld(d, After(cfg, RegisterStorage(n, id, 0), d), id)
    decreases n
  {
    if n > 0 {
      RegisterStorageRuns(cfg, d, regs, n - 1, id);
      var p := RegisterStorage(n - 1, id, 0);
      AllocateCell(cfg, p, d, regs, n);
      var p1 := p.Do(Alloca(RegCell(n - 1)));
      assert RegJunk(cfg, n - 1) == Some(regs[n - 1]);
      FillCell(cfg, p1, d, regs, n, LoadUnspecified(id + n - 1, 64, 0 + 8 * (n - 1)));
    }
  }

  lemma {:induction false} AllocateCell(cfg: Config, p: Piece, d: Data, regs: seq<nat>, n: nat)
    requires Run(cfg, p.code, d).Some? && 0 < n <= |regs| && CellsHold(After(cfg, p, d), regs, n - 1)
    ensures var q := p.Do(Alloca(RegCell(n - 1)));
            && Run(cfg, q.code, d).Some?
            && CellsHold(After(cfg, q, d), regs, n - 1)
            && SameWorld(After(cfg, p, d), After(cfg, q, d), p.next)
  {
    DoRuns(cfg, p, d, Alloca(RegCell(n - 1)));
  }

  lemma {:induction false} FillCell(cfg: Config, p: Piece, d: Data, regs: seq<nat>, n: nat, load: Inst)
    requires Run(cfg, p.code, d).Some? && 0 < n <= |regs| && load.LoadUnspecified? && load.id == p.next && load.bits == 64
    requires UnspecifiedAt(cfg.unspecified, load.at, 64) == Some(regs[n - 1])
    requires CellsHold(After(cfg, p, d), regs, n - 1)
    ensures var q := p.Def(load).Do(StoreCell(Ref(p.next), RegCell(n - 1)));
            && Run(cfg, q.code, d).Some?
            && CellsHold(After(cfg, q, d), regs, n)
            && SameWorld(After(cfg, p, d), After(cfg, q, d), p.next)
  {
    DoRuns(cfg, p, d, load);
    DoRuns(cfg, p.Def(load), d, StoreCell(Ref(p.next), RegCell(n - 1)));
  }

  /** The arguments are passed as typed values and are in their registers. */
  ghost predicate ArgsPassed(cfg: Config, args: seq<ArgType>, vals: seq<nat>, regs: seq<nat>)
    requires |vals| == |args| <= 5 && |regs| == 12 && forall t <- args :: t.Valid()
  {
    && |cfg.args| == |args|
    && forall i :: 0 <= i < |args| ==>
         && cfg.args[i] == Typed(args[i].Bits(), vals[i]) && vals[i] < Pow2(args[i].Bits())
         && regs[1 + i] < Pow2(64) && ArgInRegister(args[i], vals[i], regs[1 + i])
  }

  lemma {:induction false} StoreArgsRuns(cfg: Config, d: Data, args: seq<ArgType>, vals: seq<nat>, regs: seq<nat>,
                                         n: nat, id: nat)
    requires |vals| == |args| <= 5 && |regs| == 12 && n <= |args| && forall t <- args :: t.Valid()
    requires ArgsPassed(cfg, args, vals, regs) && EntryJunk(cfg, args, regs)
    requires CellsHold(d, regs, 12)
    ensures var p := StoreArgs(args, n, id);
            && Run(cfg, p.code, d).Some?
            && CellsHold(After(cfg, p, d), regs, 12)
            && After(cfg, p, d).mem == d.mem && After(cfg, p, d).calls == d.calls
    decreases n
  {
    if n > 0 {
      StoreArgsRuns(cfg, d, args, vals, regs, n - 1, id);
      var p := StoreArgs(args, n - 1, id);
      ArgComputes(cfg, After(cfg, p, d), args, vals, regs, n, p.next);
      StoreOneArg(cfg, p, Widen(Arg(n - 1), args[n - 1], p.next, ArgOffset(args, n - 1)), d, regs, n);
    }
  }

  lemma {:induction false} ArgComputes(cfg: Config, d: Data, args: seq<ArgType>, vals: seq<nat>, regs: seq<nat>, n: nat,
                                       id: nat)
    requires |vals| == |args| <= 5 && |regs| == 12 && 0 < n <= |args| && forall t <- args :: t.Valid()
    requires ArgsPassed(cfg, args, vals, regs) && EntryJunk(cfg, args, regs)
    ensures Computes(cfg, Widen(Arg(n - 1), args[n - 1], id, ArgOffset(args, n - 1)), id, d, 64, regs[n])
  {
    var t, i := args[n - 1], n - 1;
    assert t in args;
    assert cfg.args[i] == Typed(t.Bits(), vals[i]) && vals[i] < Pow2(t.Bits());
    assert ArgInRegister(t, vals[i], regs[1 + i]) && regs[1 + i] < Pow2(64);
    assert t.JunkBits() > 0 ==> UnspecifiedAt(cfg.unspecified, ArgOffset(args, i), t.JunkBits()) == Some(JunkOf(t, regs[1 + i]));
    hide Widen, Widened, JunkOf, ArgInRegister, UnspecifiedAt, ArgOffset, EntryJunk, ArgsPassed, Computes, Pow2;
    JunkOfWidens(t, vals[i], regs[1 + i]);
    WidenComputes(cfg, d, Arg(i), t, vals[i], JunkOf(t, regs[1 + i]), id, ArgOffset(args, i));
  }

  lemma {:induction false} StoreOneArg(cfg: Config, p: Piece, w: Piece, d: Data, regs: seq<nat>, n: nat)
    requires |regs| == 12 && n < 12 && Run(cfg, p.code, d).Some? && CellsHold(After(cfg, p, d), regs, 12)
    requires Computes(cfg, w, p.next, After(cfg, p, d), 64, regs[n])
    ensures var q := p.Then(w).Do(StoreCell(w.val, RegCell(n)));
            && Run(cfg, q.code, d).Some?
            && CellsHold(After(cfg, q, d), regs, 12)
            && After(cfg, q, d).mem == After(cfg, p, d).mem && After(cfg, q, d).calls == After(cfg, p, d).calls
  {
    RunAppend(cfg, p.code, w.code, d);
    DoRuns(cfg, p.Then(w), d, StoreCell(w.val, RegCell(n)));
  }

  /** The code before the frame pointer is set. */
  lemma {:induction false} StorageRuns(cfg: Config, mem: Memory, regs: seq<nat>)
    requires |regs| == 12 && forall r :: 0 <= r < 12 ==> RegJunk(cfg, r) == Some(regs[r])
    ensures var p := Start(0).Def(FrameAlloc(0)).Then(RegisterStorage(12, 1, 0));
            var d0 := Data(map[], map[], mem, []);
            && p.next == 13
            && Run(cfg, p.code, d0).Some?
            && CellsHold(After(cfg, p, d0), regs, 12)
            && After(cfg, p, d0).mem == mem && After(cfg, p, d0).calls == []
            && Eval(cfg, Ref(0), After(cfg, p, d0).env) == Some(Typed(64, cfg.frame))
  {
    var d0 := Data(map[], map[], mem, []);
    DoRuns(cfg, Start(0), d0, FrameAlloc(0));
    var p0 := Start(0).Def(FrameAlloc(0));
    var d1 := After(cfg, p0, d0);
    RegisterStorageRuns(cfg, d1, regs, 12, 1);
    RunAppend(cfg, p0.code, RegisterStorage(12, 1, 0).code, d0);
  }

  lemma {:induction false} FramePointerRuns(cfg: Config, p: Piece, d: Data, regs: seq<nat>)
    requires |regs| == 12 && Run(cfg, p.code, d).Some? && CellsHold(After(cfg, p, d), regs, 12)
    requires Eval(cfg, Ref(0), After(cfg, p, d).env) == Some(Typed(64, cfg.frame))
    requires regs[10] == Wrap(64, cfg.frame + STACK_BYTES)
    ensures var q := p.Def(Gep(p.next, Ref(0), Const(64, STACK_BYTES))).Do(StoreCell(Ref(p.next), RegCell(Bpf.R10)));
            && Run(cfg, q.code, d).Some?
            && CellsHold(After(cfg, q, d), regs, 12)
            && After(cfg, q, d).mem == After(cfg, p, d).mem && After(cfg, q, d).calls == After(cfg, p, d).calls
  {
    var gep := Gep(p.next, Ref(0), Const(64, STACK_BYTES));
    DoRuns(cfg, p, d, gep);
    DoRuns(cfg, p.Def(gep), d, StoreCell(Ref(p.next), RegCell(Bpf.R10)));
  }

  /** Running the entry code puts the function in exactly the given entry state. */
  lemma {:induction false} SetupRuns(cfg: Config, args: seq<ArgType>, vals: seq<nat>, regs: seq<nat>, mem: Memory)
    requires |vals| == |args| <= 5 && (forall t <- args :: t.Valid()) && |regs| == 12
    requires ArgsPassed(cfg, args, vals, regs)
    requires EntryRegisters(args, vals, cfg.frame, regs) && EntryJunk(cfg, args, regs)
    ensures var d0 := Data(map[], map[], mem, []);
            && Run(cfg, Setup(args).code, d0).Some?
            && Matches(Bpf.Core(regs, mem, []), Run(cfg, Setup(args).code, d0).value)
  {
    var d0 := Data(map[], map[], mem, []);
    var p := Start(0).Def(FrameAlloc(0)).Then(RegisterStorage(12, 1, 0));
    StorageRuns(cfg, mem, regs);
    FramePointerRuns(cfg, p, d0, regs);
    var q := p.Def(Gep(p.next, Ref(0), Const(64, STACK_BYTES))).Do(StoreCell(Ref(p.next), RegCell(Bpf.R10)));
    ArgumentsRun(cfg, q, d0, args, vals, regs, mem);
  }

  lemma {:induction false} ArgumentsRun(cfg: Config, q: Piece, d0: Data, args: seq<ArgType>, vals: seq<nat>,
                                        regs: seq<nat>, mem: Memory)
    requires |vals| == |args| <= 5 && (forall t <- args :: t.Valid()) && |regs| == 12
    requires ArgsPassed(cfg, args, vals, regs)
    requires EntryRegisters(args, vals, cfg.frame, regs) && EntryJunk(cfg, args, regs)
    requires Run(cfg, q.code, d0).Some? && CellsHold(After(cfg, q, d0), regs, 12)
    requires After(cfg, q, d0).mem == mem && After(cfg, q, d0).calls == []
    ensures var code := q.Then(StoreArgs(args, |args|, q.next)).code;
            Run(cfg, code, d0).Some? && Matches(Bpf.Core(regs, mem, []), Run(cfg, code, d0).value)
  {
    StoreArgsRuns(cfg, After(cfg, q, d0), args, vals, regs, |args|, q.next);
    RunAppend(cfg, q.code, StoreArgs(args, |args|, q.next).code, d0);
  }
}
