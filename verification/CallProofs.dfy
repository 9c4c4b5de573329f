/** The code of a helper call, and of the condition of a conditional jump. */
module CallProofs {
  import opened Options
  import opened Words
  import opened Ir
  import opened Codegen
  import opened CodegenProofs
  import opened DivisionProofs
  import Bpf

  /** The values the lifted call at scratch offset `off` leaves in r1-r5 are those the
      machine's call at unit `u` leaves there. */
  ghost predicate JunkMatches(cfg: Config, o: Bpf.Oracle, u: nat, off: nat) {
    forall r :: 1 <= r <= 5 ==> JunkAt(cfg, off, r) == Some(Wrap(64, o.clobber(u, r)))
  }

  function JunkAt(cfg: Config, off: nat, r: nat): Option<nat>
    requires r >= 1
  {
    UnspecifiedAt(cfg.unspecified, off + 8 * (r - 1), 64)
  }

  /** Reading r1..rn leaves their values under consecutive names. */
  ghost predicate ArgsRead(c: Bpf.Core, d: Data, id: nat, n: nat)
    requires |c.regs| == 12 && n <= 5
  {
    forall k :: id <= k < id + n ==> k in d.env && d.env[k] == Typed(64, c.regs[k - id + 1])
  }

  lemma {:induction false} ReadArgsRuns(cfg: Config, c: Bpf.Core, d: Data, n: nat, id: nat)
    requires Matches(c, d) && n <= 5
    ensures ReadArgs(n, id).next == id + n
    ensures Run(cfg, ReadArgs(n, id).code, d).Some?
    ensures Keeps(d, After(cfg, ReadArgs(n, id), d), id)
    ensures ArgsRead(c, After(cfg, ReadArgs(n, id), d), id, n)
    decreases n
  {
    if n > 0 {
      ReadArgsRuns(cfg, c, d, n - 1, id);
      var p := ReadArgs(n - 1, id);
      var d1 := After(cfg, p, d);
      KeepsMatches(c, d, d1, id);
      var load := LoadCell(id + n - 1, 64, RegCell(n));
      assert ReadArgs(n, id) == p.Def(load);
      ReadOneArg(cfg, c, d1, n, id);
      DoRuns(cfg, p, d, load);
    }
  }

  lemma ReadOneArg(cfg: Config, c: Bpf.Core, d: Data, n: nat, id: nat)
    requires Matches(c, d) && 0 < n <= 5 && ArgsRead(c, d, id, n - 1)
    ensures var d' := d.Bind(id + n - 1, 64, c.regs[n]);
            && Exec(cfg, LoadCell(id + n - 1, 64, RegCell(n)), d) == Some(d')
            && ArgsRead(c, d', id, n) && Keeps(d, d', id)
  {
  }

  lemma EvalFive(cfg: Config, c: Bpf.Core, d: Data, id: nat)
    requires c.Valid() && ArgsRead(c, d, id, 5)
    ensures EvalAll(cfg, [Ref(id), Ref(id + 1), Ref(id + 2), Ref(id + 3), Ref(id + 4)], d.env) == Some(c.regs[1..6])
  {
    EvalSuffix(cfg, c, d, id, 5);
    assert [Ref(id), Ref(id + 1), Ref(id + 2), Ref(id + 3), Ref(id + 4)] == Refs(id, 0);
  }

  function Refs(id: nat, k: nat): seq<Val>
    requires k <= 5
    decreases 5 - k
  {
    if k == 5 then [] else [Ref(id + k)] + Refs(id, k + 1)
  }

  lemma {:induction false} EvalSuffix(cfg: Config, c: Bpf.Core, d: Data, id: nat, n: nat)
    requires c.Valid() && ArgsRead(c, d, id, 5) && n <= 5
    ensures EvalAll(cfg, Refs(id, 5 - n), d.env) == Some(c.regs[6 - n..6])
    decreases n
  {
    if n > 0 {
      EvalSuffix(cfg, c, d, id, n - 1);
      assert Refs(id, 5 - n)[1..] == Refs(id, 6 - n);
      assert Refs(id, 5 - n)[0] == Ref(id + (5 - n));
      assert EvalAs(cfg, Ref(id + (5 - n)), d.env, 64) == Some(c.regs[6 - n]);
      assert [c.regs[6 - n]] + c.regs[7 - n..6] == c.regs[6 - n..6];
    }
  }

  /** The machine after registers 1..n were clobbered. */
  function Clobbered(o: Bpf.Oracle, u: nat, c: Bpf.Core, n: nat): (c': Bpf.Core)
    requires c.Valid() && n <= 5
    ensures |c'.regs| == 12
  {
    if n == 0 then c else Clobbered(o, u, c, n - 1).With(n, Wrap(64, o.clobber(u, n)))
  }

  lemma {:induction false} ClobberedRegs(o: Bpf.Oracle, u: nat, c: Bpf.Core, n: nat)
    requires c.Valid() && n <= 5
    ensures Clobbered(o, u, c, n).mem == c.mem && Clobbered(o, u, c, n).calls == c.calls
    ensures forall r :: 0 <= r < 12 ==>
              Clobbered(o, u, c, n).regs[r] == if 1 <= r <= n then Wrap(64, o.clobber(u, r)) else c.regs[r]
    decreases n
  {
    if n > 0 {
      ClobberedRegs(o, u, c, n - 1);
    }
  }

  lemma {:induction false} ClobberRuns(cfg: Config, c: Bpf.Core, d: Data, o: Bpf.Oracle, u: nat, n: nat, id: nat, off: nat)
    requires Matches(c, d) && n <= 5 && JunkMatches(cfg, o, u, off)
    ensures Clobber(n, id, off).next == id + n
    ensures Run(cfg, Clobber(n, id, off).code, d).Some?
    ensures Matches(Clobbered(o, u, c, n), After(cfg, Clobber(n, id, off), d))
    ensures KeepsNames(d, After(cfg, Clobber(n, id, off), d), id)
    decreases n
  {
    if n > 0 {
      ClobberRuns(cfg, c, d, o, u, n - 1, id, off);
      var p := Clobber(n - 1, id, off);
      var c1, d1 := Clobbered(o, u, c, n - 1), After(cfg, p, d);
      var v := Wrap(64, o.clobber(u, n));
      var load := LoadUnspecified(id + n - 1, 64, off + 8 * (n - 1));
      assert JunkAt(cfg, off, n) == Some(v);
      DoRuns(cfg, p, d, load);
      var q := p.Def(load);
      var d2 := d1.Bind(id + n - 1, 64, v);
      assert Matches(c1, d2);
      DoRuns(cfg, q, d, StoreCell(Ref(id + n - 1), RegCell(n)));
      Bpf.WithValid(c1, n, v);
    }
  }

  /** The effect on registers, memory and the call trace of the call itself. */
  lemma HelperRuns(cfg: Config, c: Bpf.Core, d: Data, o: Bpf.Oracle, helper: int, id: nat)
    requires Matches(c, d) && cfg.helper == o.helper
    ensures var calls := c.calls + [Bpf.CallEvent(helper, c.regs[1..6], c.mem)];
            var (ret, mem) := o.helper(calls);
            var p := ReadArgs(5, id).Do(CallHelper(id + 5, helper, [Ref(id), Ref(id + 1), Ref(id + 2), Ref(id + 3), Ref(id + 4)]));
            && Run(cfg, p.code, d).Some?
            && Matches(Bpf.Core(c.regs, mem, calls), After(cfg, p, d))
            && Eval(cfg, Ref(id + 5), After(cfg, p, d).env) == Some(Typed(64, Wrap(64, ret)))
  {
    ReadArgsRuns(cfg, c, d, 5, id);
    var p := ReadArgs(5, id);
    var d1 := After(cfg, p, d);
    KeepsMatches(c, d, d1, id);
    EvalFive(cfg, c, d1, id);
    DoRuns(cfg, p, d, CallHelper(id + 5, helper, [Ref(id), Ref(id + 1), Ref(id + 2), Ref(id + 3), Ref(id + 4)]));
  }

  lemma {:induction false} CallRuns(cfg: Config, c: Bpf.Core, d: Data, o: Bpf.Oracle, u: nat, helper: int, id: nat, off: nat)
    requires Matches(c, d) && cfg.helper == o.helper && JunkMatches(cfg, o, u, off)
    ensures Run(cfg, CallPiece(helper, id, off).code, d).Some?
    ensures Matches(Bpf.CallEffect(o, u, helper, c), After(cfg, CallPiece(helper, id, off), d))
  {
    var calls := c.calls + [Bpf.CallEvent(helper, c.regs[1..6], c.mem)];
    var (ret, mem) := o.helper(calls);
    var c1 := Bpf.Core(c.regs, mem, calls);
    HelperRuns(cfg, c, d, o, helper, id);
    var p := ReadArgs(5, id).Do(CallHelper(id + 5, helper, [Ref(id), Ref(id + 1), Ref(id + 2), Ref(id + 3), Ref(id + 4)]));
    var d1 := After(cfg, p, d);
    ClobberRuns(cfg, c1, d1, o, u, 5, id + 6, off);
    var q := Clobber(5, id + 6, off);
    RunAppend(cfg, p.code, q.code, d);
    var d2 := After(cfg, p.Then(q), d);
    var store := StoreCell(Ref(id + 5), RegCell(Bpf.R0));
    DoRuns(cfg, p.Then(q), d, store);
    StoreReturned(cfg, Clobbered(o, u, c1, 5), d2, Ref(id + 5), Wrap(64, ret));
    CallEffectIsClobbered(o, u, helper, c);
  }

  lemma StoreReturned(cfg: Config, c: Bpf.Core, d: Data, v: Val, n: nat)
    requires Matches(c, d) && Eval(cfg, v, d.env) == Some(Typed(64, n)) && n < Pow2(64)
    ensures Exec(cfg, StoreCell(v, RegCell(Bpf.R0)), d).Some?
    ensures Matches(c.With(Bpf.R0, n), Exec(cfg, StoreCell(v, RegCell(Bpf.R0)), d).value)
  {
    Bpf.WithValid(c, Bpf.R0, n);
  }

  lemma {:induction false} CallEffectIsClobbered(o: Bpf.Oracle, u: nat, helper: int, c: Bpf.Core)
    requires c.Valid()
    ensures var calls := c.calls + [Bpf.CallEvent(helper, c.regs[1..6], c.mem)];
            var (ret, mem) := o.helper(calls);
            Bpf.CallEffect(o, u, helper, c)
            == Clobbered(o, u, Bpf.Core(c.regs, mem, calls), 5).With(Bpf.R0, Wrap(64, ret))
  {
    var calls := c.calls + [Bpf.CallEvent(helper, c.regs[1..6], c.mem)];
    var (ret, mem) := o.helper(calls);
    var c1 := Bpf.Core(c.regs, mem, calls);
    ClobberedRegs(o, u, c1, 5);
    var x := Bpf.CallEffect(o, u, helper, c);
    var y := Clobbered(o, u, c1, 5).With(Bpf.R0, Wrap(64, ret));
    forall r | 0 <= r < 12 ensures x.regs[r] == y.regs[r] {
      var i := r - 1;
      if 1 <= r <= 5 {
        assert x.regs[r] == Wrap(64, o.clobber(u, 1 + i));
      } else if r >= 6 {
        assert x.regs[r] == c.regs[r];
      }
    }
    assert x.regs == y.regs;
  }

  // ---------------------------------------------------------------- conditions

  lemma ConditionComputes(cfg: Config, c: Bpf.Core, d: Data, cond: Bpf.Cond, w: Bpf.Width, lhs: Bpf.Reg,
                          rhs: Bpf.Operand, id: nat)
    requires Matches(c, d) && Bpf.RawOperand(rhs)
    ensures Computes(cfg, ConditionPiece(cond, w, lhs, Bpf.SignExtendedOperand(rhs), id), id, d, 1,
                     if Bpf.Holds(cond, w.Bits(), Wrap(w.Bits(), c.regs[lhs]), Bpf.OperandValue(c, w, rhs)) then 1 else 0)
  {
    var bits := w.Bits();
    var x, y := Wrap(bits, c.regs[lhs]), Bpf.OperandValue(c, w, rhs);
    var pa := ReadReg(lhs, w, id);
    var pb := ReadOperand(Bpf.SignExtendedOperand(rhs), w, pa.next);
    var p := pa.Then(pb);
    OperandsCompute(cfg, c, d, lhs, rhs, w, id);
    if cond.Set? {
      var and := Binary(p.next, And, bits, pa.val, pb.val);
      ExecBinary(cfg, After(cfg, p, d), p.next, And, bits, pa.val, x, pb.val, y, BitAnd(x, y));
      DefComputes(cfg, p, id, d, and, bits, BitAnd(x, y));
      CompareComputes(cfg, p.Def(and), id, d, Ir.Ne, bits, Ref(p.next), BitAnd(x, y), Const(bits, 0), 0);
    } else {
      CompareComputes(cfg, p, id, d, Predicate(cond), bits, pa.val, x, pb.val, y);
      PredicateAgrees(cond, bits, x, y);
    }
  }

  lemma PredicateAgrees(cond: Bpf.Cond, bits: nat, x: nat, y: nat)
    requires bits > 0 && !cond.Set?
    ensures Compares(Predicate(cond), bits, x, y) == Bpf.Holds(cond, bits, x, y)
  {
  }

  lemma {:induction false} CompareComputes(cfg: Config, p: Piece, id: nat, d: Data, pred: Pred, bits: nat, a: Val,
                                           x: nat, b: Val, y: nat)
    requires bits > 0 && id <= p.next && Run(cfg, p.code, d).Some? && Keeps(d, After(cfg, p, d), id)
    requires Eval(cfg, a, After(cfg, p, d).env) == Some(Typed(bits, x))
    requires Eval(cfg, b, After(cfg, p, d).env) == Some(Typed(bits, y))
    ensures Computes(cfg, p.Def(ICmp(p.next, pred, bits, a, b)), id, d, 1, if Compares(pred, bits, x, y) then 1 else 0)
  {
    ExecICmp(cfg, After(cfg, p, d), p.next, pred, bits, a, x, b, y);
    DefComputes(cfg, p, id, d, ICmp(p.next, pred, bits, a, b), 1, if Compares(pred, bits, x, y) then 1 else 0);
  }

  // ---------------------------------------------------------------- every non-branching instruction

  /** The code of a straight-line instruction does what the instruction does. */
  lemma {:induction false} StraightRuns(cfg: Config, o: Bpf.Oracle, u: nat, i: Bpf.Insn, c: Bpf.Core, d: Data, id: nat,
                                        off: nat, base: nat)
    requires Matches(c, d) && Bpf.Decodable(i) && !i.IsTerminator() && cfg.helper == o.helper
    requires i.Call? ==> JunkMatches(cfg, o, u, off)
    requires i.Alu? ==> !IsDivision(i.op)
    ensures var fr := DataFragment(Bpf.SignExtended(i), id, off, base);
            && fr.split.None?
            && Run(cfg, fr.head, d).Some?
            && Matches(Bpf.Effect(o, u, i, c), Run(cfg, fr.head, d).value)
  {
    if i.IsRegisterOp() && !i.Alu? {
      RegisterRuns(cfg, c, d, i, id);
    } else if i.Alu? {
      AluRuns(cfg, c, d, i.op, i.w, i.dst, i.src, id, off, base);
    } else if i.LoadMem? || i.StoreMem? || i.StoreImm? || i.Atomic? || i.CompareExchange? {
      MemoryRuns(cfg, o, u, i, c, d, id, off, base);
    } else if i.Call? {
      CallRuns(cfg, c, d, o, u, Bpf.Imm32(i.imm), id, off);
    }
  }

  lemma {:induction false} MemoryRuns(cfg: Config, o: Bpf.Oracle, u: nat, i: Bpf.Insn, c: Bpf.Core, d: Data, id: nat,
                                      off: nat, base: nat)
    requires Matches(c, d) && Bpf.Decodable(i)
    requires i.LoadMem? || i.StoreMem? || i.StoreImm? || i.Atomic? || i.CompareExchange?
    ensures var fr := DataFragment(Bpf.SignExtended(i), id, off, base);
            && Run(cfg, fr.head, d).Some?
            && Matches(Bpf.Effect(o, u, i, c), Run(cfg, fr.head, d).value)
  {
    if i.LoadMem? || i.StoreMem? || i.StoreImm? {
      LoadOrStoreRuns(cfg, i, c, d, id, off, base);
    } else {
      AtomicsRun(cfg, i, c, d, id, off, base);
    }
  }

  lemma {:induction false} LoadOrStoreRuns(cfg: Config, i: Bpf.Insn, c: Bpf.Core, d: Data, id: nat, off: nat, base: nat)
    requires Matches(c, d) && Bpf.Decodable(i) && (i.LoadMem? || i.StoreMem? || i.StoreImm?)
    ensures var fr := DataFragment(Bpf.SignExtended(i), id, off, base);
            var c' := if i.LoadMem? then Bpf.LoadEffect(i, c) else if i.StoreMem? then Bpf.StoreEffect(i, c)
                      else Bpf.StoreImmEffect(i, c);
            Run(cfg, fr.head, d).Some? && Matches(c', Run(cfg, fr.head, d).value)
  {
    match i
    case LoadMem(size, sext, wDest, dst, b, o) => LoadRuns(cfg, c, d, size, sext, wDest, dst, b, o, id);
    case StoreMem(size, wSrc, v, b, o) => StoreRuns(cfg, c, d, size.Bits(), wSrc, v, b, o, id);
    case StoreImm(size, imm, b, o) => StoreImmRuns(cfg, c, d, size.Bits(), Bpf.Imm32(imm), b, o, id);
  }

  lemma {:induction false} AtomicsRun(cfg: Config, i: Bpf.Insn, c: Bpf.Core, d: Data, id: nat, off: nat, base: nat)
    requires Matches(c, d) && Bpf.Decodable(i) && (i.Atomic? || i.CompareExchange?)
    ensures var fr := DataFragment(Bpf.SignExtended(i), id, off, base);
            var c' := if i.Atomic? then Bpf.AtomicEffect(i, c) else Bpf.CompareExchangeEffect(i, c);
            Run(cfg, fr.head, d).Some? && Matches(c', Run(cfg, fr.head, d).value)
  {
    match i
    case Atomic(op, w, fetch, v, b, o) => AtomicRuns(cfg, c, d, op, w, fetch, v, b, o, id);
    case CompareExchange(w, v, b, o) => CompareExchangeRuns(cfg, c, d, w, v, b, o, id);
  }
}
