/** Running the code of one instruction does what RFC 9669 says the instruction does. */
module CodegenProofs {
  import opened Options
  import opened Words
  import opened Memory
  import opened Ir
  import opened Codegen
  import Bpf

  // ---------------------------------------------------------------- relations

  /** The register cells, program memory and the call trace are those of the machine. */
  ghost predicate Matches(c: Bpf.Core, d: Data) {
    && c.Valid()
    && d.mem == c.mem
    && d.calls == c.calls
    && forall r :: 0 <= r < 12 ==> RegCell(r) in d.cells && d.cells[RegCell(r)] == Typed(64, c.regs[r])
  }

  /** From d to d' only names from `id` on were (re)defined. */
  ghost predicate Keeps(d: Data, d': Data, id: nat) {
    && d'.cells == d.cells && d'.mem == d.mem && d'.calls == d.calls
    && KeepsNames(d, d', id)
  }

  ghost predicate KeepsNames(d: Data, d': Data, id: nat) {
    forall k :: 0 <= k < id && k in d.env ==> k in d'.env && d'.env[k] == d.env[k]
  }

  predicate Below(v: Val, id: nat) { v.Ref? ==> v.id < id }

  /** Running piece `p`, whose names start at `id`, computes the `bits`-bit value n. */
  ghost predicate Computes(cfg: Config, p: Piece, id: nat, d: Data, bits: nat, n: nat) {
    && id <= p.next
    && Below(p.val, p.next)
    && Run(cfg, p.code, d).Some?
    && Keeps(d, Run(cfg, p.code, d).value, id)
    && Eval(cfg, p.val, Run(cfg, p.code, d).value.env) == Some(Typed(bits, n))
  }

  function After(cfg: Config, p: Piece, d: Data): Data
    requires Run(cfg, p.code, d).Some?
  {
    Run(cfg, p.code, d).value
  }

  // ---------------------------------------------------------------- composing pieces

  lemma {:induction false} DefComputes(cfg: Config, p: Piece, id: nat, d: Data, i: Inst, bits: nat, n: nat)
    requires id <= p.next && Run(cfg, p.code, d).Some? && Keeps(d, After(cfg, p, d), id)
    requires Exec(cfg, i, After(cfg, p, d)) == Some(After(cfg, p, d).Bind(p.next, bits, n))
    ensures Computes(cfg, p.Def(i), id, d, bits, n)
    ensures After(cfg, p.Def(i), d) == After(cfg, p, d).Bind(p.next, bits, n)
  {
    RunAppend(cfg, p.code, [i], d);
    RunOne(cfg, i, After(cfg, p, d));
  }

  lemma {:induction false} StartComputes(cfg: Config, id: nat, d: Data)
    ensures Run(cfg, Start(id).code, d) == Some(d)
    ensures Keeps(d, d, id)
  {
  }

  lemma CastComputes(cfg: Config, p: Piece, id: nat, d: Data, bits: nat, n: nat, k: CastKind, to: nat, n': nat)
    requires Computes(cfg, p, id, d, bits, n)
    requires CastResult(k, bits, to, n) == Some(n')
    ensures Computes(cfg, p.Casted(k, to), id, d, to, n')
  {
    DefComputes(cfg, p, id, d, Cast(p.next, k, p.val, to), to, n');
  }

  /** A second piece run after the first: both values are available at the end. */
  lemma ThenComputes(cfg: Config, p: Piece, id: nat, d: Data, m: nat, x: nat, q: Piece, n: nat, y: nat)
    requires Computes(cfg, p, id, d, m, x)
    requires Computes(cfg, q, p.next, After(cfg, p, d), n, y)
    ensures Computes(cfg, p.Then(q), id, d, n, y)
    ensures After(cfg, p.Then(q), d) == After(cfg, q, After(cfg, p, d))
    ensures Eval(cfg, p.val, After(cfg, p.Then(q), d).env) == Some(Typed(m, x))
  {
    RunAppend(cfg, p.code, q.code, d);
  }

  lemma KeepsMatches(c: Bpf.Core, d: Data, d': Data, id: nat)
    requires Matches(c, d) && Keeps(d, d', id)
    ensures Matches(c, d')
  {
  }

  // ---------------------------------------------------------------- operands

  lemma ReadRegComputes(cfg: Config, c: Bpf.Core, d: Data, r: Bpf.Reg, w: Bpf.Width, id: nat)
    requires Matches(c, d)
    ensures Computes(cfg, ReadReg(r, w, id), id, d, w.Bits(), Wrap(w.Bits(), c.regs[r]))
  {
    StartComputes(cfg, id, d);
    DefComputes(cfg, Start(id), id, d, LoadCell(id, 64, RegCell(r)), 64, c.regs[r]);
    if w.W32? {
      CastComputes(cfg, Start(id).Def(LoadCell(id, 64, RegCell(r))), id, d, 64, c.regs[r], Trunc, 32, Wrap(32, c.regs[r]));
    } else {
      WrapIdentity(64, c.regs[r]);
    }
  }

  lemma ReadOperandComputes(cfg: Config, c: Bpf.Core, d: Data, s: Bpf.Operand, w: Bpf.Width, id: nat)
    requires Matches(c, d) && Bpf.RawOperand(s)
    ensures Computes(cfg, ReadOperand(Bpf.SignExtendedOperand(s), w, id), id, d, w.Bits(), Bpf.OperandValue(c, w, s))
  {
    match s
    case RegOp(r) => ReadRegComputes(cfg, c, d, r, w, id);
    case ImmOp(imm) =>
  }

  lemma PointerComputes(cfg: Config, c: Bpf.Core, d: Data, base: Bpf.Reg, off: int, id: nat)
    requires Matches(c, d) && Bpf.RawField(16, off)
    ensures Computes(cfg, Pointer(base, Bpf.Off16(off), id), id, d, 64, Bpf.Address(c, base, off))
  {
    var p := ReadReg(base, Bpf.W64, id);
    ReadRegComputes(cfg, c, d, base, Bpf.W64, id);
    WrapIdentity(64, c.regs[base]);
    WrapSum(64, c.regs[base], Bpf.Off16(off));
    DefComputes(cfg, p, id, d, Gep(p.next, p.val, Const(64, Wrap(64, Bpf.Off16(off)))), 64, Bpf.Address(c, base, off));
  }

  lemma WrapSum(bits: nat, a: int, b: int)
    ensures Wrap(bits, a + Wrap(bits, b)) == Wrap(bits, a + b)
  {
    WrapIsMod(bits, b);
    WrapIsMod(bits, a + Wrap(bits, b));
    WrapIsMod(bits, a + b);
    ModSum(a, b, Pow2(bits));
  }

  lemma ModSum(a: int, b: int, p: nat)
    requires p > 0
    ensures (a + b % p) % p == (a + b) % p
  {
    var q, r := (a + b % p) / p, (a + b % p) % p;
    assert a + b == p * (q + b / p) + r by {
      assert b == p * (b / p) + b % p;
      assert p * (q + b / p) == p * q + p * (b / p);
    }
    DivModUnique(a + b, p, q + b / p, r);
  }

  /** Writing a register of width w. */
  lemma {:induction false} WriteRegRuns(cfg: Config, c: Bpf.Core, d: Data, r: Bpf.Reg, w: Bpf.Width, v: Val, n: nat, id: nat)
    requires Matches(c, d) && Eval(cfg, v, d.env) == Some(Typed(w.Bits(), n)) && n < Pow2(w.Bits())
    ensures Run(cfg, WriteReg(r, w, v, id).code, d).Some?
    ensures Matches(c.With(r, n), After(cfg, WriteReg(r, w, v, id), d))
  {
    var p := Piece([], v, id);
    var p1 := if w.W32? then p.Casted(ZExt, 64) else p;
    if w.W32? {
      RunOne(cfg, Cast(id, ZExt, v, 64), d);
      assert p1.code == [Cast(id, ZExt, v, 64)];
      Pow2Mono(32, 64);
    }
    var d1 := After(cfg, p1, d);
    assert Eval(cfg, p1.val, d1.env) == Some(Typed(64, n));
    RunAppend(cfg, p1.code, [StoreCell(p1.val, RegCell(r))], d);
    RunOne(cfg, StoreCell(p1.val, RegCell(r)), d1);
    Bpf.WithValid(c, r, n);
  }

  /** A piece computing the result, followed by the write of the destination. */
  lemma {:induction false} ComputeAndWrite(cfg: Config, c: Bpf.Core, d: Data, p: Piece, id: nat, r: Bpf.Reg,
                                           w: Bpf.Width, n: nat)
    requires Matches(c, d) && Computes(cfg, p, id, d, w.Bits(), n) && n < Pow2(w.Bits())
    ensures var code := p.Then(WriteReg(r, w, p.val, p.next)).code;
            Run(cfg, code, d).Some? && Matches(c.With(r, n), Run(cfg, code, d).value)
  {
    var d1 := After(cfg, p, d);
    KeepsMatches(c, d, d1, id);
    WriteRegRuns(cfg, c, d1, r, w, p.val, n, p.next);
    RunAppend(cfg, p.code, WriteReg(r, w, p.val, p.next).code, d);
  }

  // ---------------------------------------------------------------- ALU instructions

  lemma {:induction false} ShiftMask(bits: nat, b: nat)
    requires bits == 32 || bits == 64
    ensures BitAnd(bits - 1, b) == b % bits
  {
    MaskIsMod(if bits == 32 then 5 else 6, b);
    assert Power(5) == 32 && Power(6) == 64;
  }

  lemma ArithResult(op: Bpf.AluOp, bits: nat, x: nat, y: nat)
    requires bits > 0 && !IsDivision(op) && x < Pow2(bits) && y < Pow2(bits)
    ensures BinaryResult(Opcode(op), bits, x, if IsShift(op) then y % bits else y) == Some(Bpf.AluResult(op, bits, x, y))
  {
  }

  lemma ExecBinary(cfg: Config, d: Data, id: nat, op: BinOp, bits: nat, a: Val, x: nat, b: Val, y: nat, n: nat)
    requires bits > 0 && BinaryResult(op, bits, x, y) == Some(n)
    requires Eval(cfg, a, d.env) == Some(Typed(bits, x)) && Eval(cfg, b, d.env) == Some(Typed(bits, y))
    ensures Exec(cfg, Binary(id, op, bits, a, b), d) == Some(d.Bind(id, bits, n))
  {
  }

  lemma ArithComputes(cfg: Config, d: Data, op: Bpf.AluOp, bits: nat, a: Val, x: nat, b: Val, y: nat, id: nat)
    requires bits == 32 || bits == 64
    requires !IsDivision(op) && x < Pow2(bits) && y < Pow2(bits)
    requires Below(a, id) && Below(b, id)
    requires Eval(cfg, a, d.env) == Some(Typed(bits, x)) && Eval(cfg, b, d.env) == Some(Typed(bits, y))
    ensures Computes(cfg, Arith(op, bits, a, b, id), id, d, bits, Bpf.AluResult(op, bits, x, y))
  {
    var n := Bpf.AluResult(op, bits, x, y);
    StartComputes(cfg, id, d);
    ArithResult(op, bits, x, y);
    if IsShift(op) {
      var mask := Binary(id, And, bits, Const(bits, bits - 1), b);
      ShiftMask(bits, y);
      ExecBinary(cfg, d, id, And, bits, Const(bits, bits - 1), bits - 1, b, y, y % bits);
      DefComputes(cfg, Start(id), id, d, mask, bits, y % bits);
      var p := Start(id).Def(mask);
      ExecBinary(cfg, After(cfg, p, d), id + 1, Opcode(op), bits, a, x, Ref(id), y % bits, n);
      DefComputes(cfg, p, id, d, Binary(id + 1, Opcode(op), bits, a, Ref(id)), bits, n);
    } else {
      ExecBinary(cfg, d, id, Opcode(op), bits, a, x, b, y, n);
      DefComputes(cfg, Start(id), id, d, Binary(id, Opcode(op), bits, a, b), bits, n);
    }
  }

  /** Both operands of an instruction, read in order. */
  lemma OperandsCompute(cfg: Config, c: Bpf.Core, d: Data, r: Bpf.Reg, s: Bpf.Operand, w: Bpf.Width, id: nat)
    requires Matches(c, d) && Bpf.RawOperand(s)
    ensures var pa := ReadReg(r, w, id);
            var pb := ReadOperand(Bpf.SignExtendedOperand(s), w, pa.next);
            && Computes(cfg, pa.Then(pb), id, d, w.Bits(), Bpf.OperandValue(c, w, s))
            && Below(pa.val, pb.next)
            && Eval(cfg, pa.val, After(cfg, pa.Then(pb), d).env) == Some(Typed(w.Bits(), Wrap(w.Bits(), c.regs[r])))
  {
    var pa := ReadReg(r, w, id);
    ReadRegComputes(cfg, c, d, r, w, id);
    var d1 := After(cfg, pa, d);
    KeepsMatches(c, d, d1, id);
    ReadOperandComputes(cfg, c, d1, s, w, pa.next);
    ThenComputes(cfg, pa, id, d, w.Bits(), Wrap(w.Bits(), c.regs[r]),
                 ReadOperand(Bpf.SignExtendedOperand(s), w, pa.next), w.Bits(), Bpf.OperandValue(c, w, s));
  }

  lemma {:induction false} AluRuns(cfg: Config, c: Bpf.Core, d: Data, op: Bpf.AluOp, w: Bpf.Width, dst: Bpf.Reg,
                                   s: Bpf.Operand, id: nat, off: nat, base: nat)
    requires Matches(c, d) && Bpf.RawOperand(s) && !IsDivision(op)
    ensures var code := AluFragment(op, w, dst, Bpf.SignExtendedOperand(s), id, off, base).head;
            && Run(cfg, code, d).Some?
            && Matches(c.With(dst, Bpf.AluResult(op, w.Bits(), Wrap(w.Bits(), c.regs[dst]), Bpf.OperandValue(c, w, s))),
                       Run(cfg, code, d).value)
  {
    var bits := w.Bits();
    var x, y := Wrap(bits, c.regs[dst]), Bpf.OperandValue(c, w, s);
    var pa := ReadReg(dst, w, id);
    var pb := ReadOperand(Bpf.SignExtendedOperand(s), w, pa.next);
    var operands := pa.Then(pb);
    OperandsCompute(cfg, c, d, dst, s, w, id);
    var d1 := After(cfg, operands, d);
    var arith := Arith(op, bits, pa.val, pb.val, pb.next);
    ArithComputes(cfg, d1, op, bits, pa.val, x, pb.val, y, pb.next);
    var n := Bpf.AluResult(op, bits, x, y);
    ThenComputes(cfg, operands, id, d, bits, y, arith, bits, n);
    Bpf.AluInRange(op, bits, x, y);
    ComputeAndWrite(cfg, c, d, operands.Then(arith), id, dst, w, n);
  }

  // ---------------------------------------------------------------- other register instructions

  lemma {:induction false} NegRuns(cfg: Config, c: Bpf.Core, d: Data, w: Bpf.Width, dst: Bpf.Reg, id: nat)
    requires Matches(c, d)
    ensures var code := NegPiece(w, dst, id).code;
            && Run(cfg, code, d).Some?
            && Matches(c.With(dst, Wrap(w.Bits(), 0 - Wrap(w.Bits(), c.regs[dst]))), Run(cfg, code, d).value)
  {
    var bits := w.Bits();
    var n := Wrap(bits, 0 - Wrap(bits, c.regs[dst]));
    var v := ReadReg(dst, w, id);
    var sub := Binary(v.next, Sub, bits, Const(bits, 0), v.val);
    ReadRegComputes(cfg, c, d, dst, w, id);
    DefComputes(cfg, v, id, d, sub, bits, n);
    ComputeAndWrite(cfg, c, d, v.Def(sub), id, dst, w, n);
  }

  lemma {:induction false} MoveRuns(cfg: Config, c: Bpf.Core, d: Data, w: Bpf.Width, dst: Bpf.Reg, s: Bpf.Operand, id: nat)
    requires Matches(c, d) && Bpf.RawOperand(s)
    ensures var code := MovePiece(w, dst, Bpf.SignExtendedOperand(s), id).code;
            && Run(cfg, code, d).Some?
            && Matches(c.With(dst, Bpf.OperandValue(c, w, s)), Run(cfg, code, d).value)
  {
    ReadOperandComputes(cfg, c, d, s, w, id);
    ComputeAndWrite(cfg, c, d, ReadOperand(Bpf.SignExtendedOperand(s), w, id), id, dst, w, Bpf.OperandValue(c, w, s));
  }

  lemma {:induction false} MovSextRuns(cfg: Config, c: Bpf.Core, d: Data, w: Bpf.Width, size: Bpf.Size, dst: Bpf.Reg,
                                       from: Bpf.Reg, id: nat)
    requires Matches(c, d) && (size.Byte? || size.Half? || (size.Word? && w.W64?))
    ensures var code := MovSextPiece(w, size, dst, from, id).code;
            && Run(cfg, code, d).Some?
            && Matches(c.With(dst, Words.SExt(size.Bits(), w.Bits(), Wrap(size.Bits(), c.regs[from]))),
                       Run(cfg, code, d).value)
  {
    var bits := size.Bits();
    var src := Wrap(bits, c.regs[from]);
    var v := if size.Word? then ReadReg(from, Bpf.W32, id) else ReadReg(from, w, id).Casted(Trunc, bits);
    if size.Word? {
      ReadRegComputes(cfg, c, d, from, Bpf.W32, id);
    } else {
      ReadRegComputes(cfg, c, d, from, w, id);
      WrapWrap(bits, w.Bits(), c.regs[from]);
      CastComputes(cfg, ReadReg(from, w, id), id, d, w.Bits(), Wrap(w.Bits(), c.regs[from]), Trunc, bits, src);
    }
    CastComputes(cfg, v, id, d, bits, src, SExt, w.Bits(), Words.SExt(bits, w.Bits(), src));
    ComputeAndWrite(cfg, c, d, v.Casted(SExt, w.Bits()), id, dst, w, Words.SExt(bits, w.Bits(), src));
  }

  lemma {:induction false} EndianRuns(cfg: Config, c: Bpf.Core, d: Data, swap: bool, size: Bpf.Size, dst: Bpf.Reg, id: nat)
    requires Matches(c, d) && !size.Byte?
    ensures var code := EndianPiece(swap, size, dst, id).code;
            var x := Wrap(size.Bits(), c.regs[dst]);
            && Run(cfg, code, d).Some?
            && Matches(c.With(dst, if swap then ByteSwap(size.Bytes(), x) else x), Run(cfg, code, d).value)
  {
    var bits, bytes := size.Bits(), size.Bytes();
    var x := Wrap(bits, c.regs[dst]);
    var n := if swap then ByteSwap(bytes, x) else x;
    var p0 := ReadReg(dst, Bpf.W64, id);
    ReadRegComputes(cfg, c, d, dst, Bpf.W64, id);
    var p1 := if bits < 64 then p0.Casted(Trunc, bits) else p0;
    if bits < 64 {
      WrapWrap(bits, 64, c.regs[dst]);
      CastComputes(cfg, p0, id, d, 64, Wrap(64, c.regs[dst]), Trunc, bits, x);
    }
    var p2 := if swap then p1.Def(BSwap(p1.next, bits, p1.val)) else p1;
    if swap {
      DefComputes(cfg, p1, id, d, BSwap(p1.next, bits, p1.val), bits, n);
      ByteSwapInRange(bytes, x);
    }
    var p3 := if bits < 64 then p2.Casted(ZExt, 64) else p2;
    if bits < 64 {
      CastComputes(cfg, p2, id, d, bits, n, ZExt, 64, n);
    }
    Pow2Mono(bits, 64);
    ComputeAndWrite(cfg, c, d, p3, id, dst, Bpf.W64, n);
  }

  lemma {:induction false} RegisterRuns(cfg: Config, c: Bpf.Core, d: Data, i: Bpf.Insn, id: nat)
    requires Matches(c, d) && Bpf.Decodable(i) && i.IsRegisterOp() && !i.Alu?
    ensures var code := RegisterPiece(Bpf.SignExtended(i), id).code;
            Run(cfg, code, d).Some? && Matches(c.With(i.dst, Bpf.RegisterResult(i, c)), Run(cfg, code, d).value)
  {
    match i
    case Neg(w, dst) => NegRuns(cfg, c, d, w, dst, id);
    case Mov(w, dst, s) => MoveRuns(cfg, c, d, w, dst, s, id);
    case MovZext(dst, from) => MoveRuns(cfg, c, d, Bpf.W32, dst, Bpf.RegOp(from), id);
    case MovSext(w, size, dst, from) => MovSextRuns(cfg, c, d, w, size, dst, from, id);
    case LoadImm64(dst, imm) => WriteRegRuns(cfg, c, d, dst, Bpf.W64, Const(64, imm), imm, id);
    case Endian(swap, size, dst) => EndianRuns(cfg, c, d, swap, size, dst, id);
  }

  // ---------------------------------------------------------------- memory instructions

  lemma ExecLoad(cfg: Config, d: Data, id: nat, bits: nat, ptr: Val, a: nat)
    requires bits % 8 == 0 && Eval(cfg, ptr, d.env) == Some(Typed(64, a))
    ensures Exec(cfg, LoadMem(id, bits, ptr), d) == Some(d.Bind(id, bits, Load(d.mem, a, bits / 8)))
  {
  }

  lemma ExecStore(cfg: Config, d: Data, v: Val, x: nat, bits: nat, ptr: Val, a: nat)
    requires bits % 8 == 0
    requires Eval(cfg, v, d.env) == Some(Typed(bits, x)) && Eval(cfg, ptr, d.env) == Some(Typed(64, a))
    ensures Exec(cfg, StoreMem(v, bits, ptr), d) == Some(d.(mem := Store(d.mem, a, bits / 8, x)))
  {
  }

  lemma ExecRmw(cfg: Config, d: Data, id: nat, op: RmwOp, bits: nat, ptr: Val, a: nat, v: Val, x: nat)
    requires bits % 8 == 0
    requires Eval(cfg, v, d.env) == Some(Typed(bits, x)) && Eval(cfg, ptr, d.env) == Some(Typed(64, a))
    ensures var previous := Load(d.mem, a, bits / 8);
            Exec(cfg, AtomicRmw(id, op, bits, ptr, v), d)
            == Some(d.(mem := Store(d.mem, a, bits / 8, RmwResult(op, bits, previous, x))).Bind(id, bits, previous))
  {
  }

  lemma ExecCmpXchg(cfg: Config, d: Data, id: nat, bits: nat, ptr: Val, a: nat, e: Val, y: nat, v: Val, x: nat)
    requires bits % 8 == 0
    requires Eval(cfg, v, d.env) == Some(Typed(bits, x)) && Eval(cfg, ptr, d.env) == Some(Typed(64, a))
    requires Eval(cfg, e, d.env) == Some(Typed(bits, y))
    ensures var previous := Load(d.mem, a, bits / 8);
            Exec(cfg, CmpXchg(id, bits, ptr, e, v), d)
            == Some(d.(mem := if previous == y then Store(d.mem, a, bits / 8, x) else d.mem).Bind(id, bits, previous))
  {
  }

  lemma {:induction false} DoRuns(cfg: Config, p: Piece, d: Data, i: Inst)
    requires Run(cfg, p.code, d).Some?
    ensures Run(cfg, p.Do(i).code, d) == Exec(cfg, i, After(cfg, p, d))
    ensures Run(cfg, p.Def(i).code, d) == Exec(cfg, i, After(cfg, p, d))
  {
    RunAppend(cfg, p.code, [i], d);
    RunOne(cfg, i, After(cfg, p, d));
  }

  lemma MatchesMemory(c: Bpf.Core, d: Data, mem: Memory, d': Data)
    requires Matches(c, d) && d'.mem == mem && d'.cells == d.cells && d'.calls == d.calls
    ensures Matches(c.(mem := mem), d')
  {
  }

  lemma {:induction false} StoreMatches(cfg: Config, c: Bpf.Core, d: Data, p: Piece, i: Inst, mem: Memory)
    requires Run(cfg, p.code, d).Some? && Matches(c, After(cfg, p, d))
    requires Exec(cfg, i, After(cfg, p, d)) == Some(After(cfg, p, d).(mem := mem))
    ensures Run(cfg, p.Do(i).code, d).Some?
    ensures Matches(c.(mem := mem), Run(cfg, p.Do(i).code, d).value)
  {
    DoRuns(cfg, p, d, i);
    MatchesMemory(c, After(cfg, p, d), mem, After(cfg, p.Do(i), d));
  }

  lemma {:induction false} LoadRuns(cfg: Config, c: Bpf.Core, d: Data, size: Bpf.Size, sext: bool, wDest: bool, dst: Bpf.Reg,
                 base: Bpf.Reg, off: int, id: nat)
    requires Matches(c, d) && Bpf.RawField(16, off) && (sext || wDest ==> !size.Double?) && !(sext && wDest)
    ensures var code := LoadPiece(size, sext, wDest, dst, base, Bpf.Off16(off), id).code;
            var v := Load(c.mem, Bpf.Address(c, base, off), size.Bytes());
            && Run(cfg, code, d).Some?
            && Matches(c.With(dst, if sext then Words.SExt(size.Bits(), 64, v) else v), Run(cfg, code, d).value)
  {
    var bits := size.Bits();
    var a := Bpf.Address(c, base, off);
    var v := Load(c.mem, a, size.Bytes());
    LoadInRange(c.mem, a, size.Bytes());
    var ptr := Pointer(base, Bpf.Off16(off), id);
    PointerComputes(cfg, c, d, base, off, id);
    var p := ptr.Def(LoadMem(ptr.next, bits, ptr.val));
    ExecLoad(cfg, After(cfg, ptr, d), ptr.next, bits, ptr.val, a);
    DefComputes(cfg, ptr, id, d, LoadMem(ptr.next, bits, ptr.val), bits, v);
    Pow2Mono(bits, 64);
    if wDest {
      var p1 := if bits < 32 then p.Casted(ZExt, 32) else p;
      if bits < 32 { CastComputes(cfg, p, id, d, bits, v, ZExt, 32, v); }
      Pow2Mono(bits, 32);
      ComputeAndWrite(cfg, c, d, p1, id, dst, Bpf.W32, v);
    } else {
      var n := if sext then Words.SExt(bits, 64, v) else v;
      var k := if sext then SExt else ZExt;
      var p1 := if bits < 64 then p.Casted(k, 64) else p;
      if bits < 64 { CastComputes(cfg, p, id, d, bits, v, k, 64, n); }
      ComputeAndWrite(cfg, c, d, p1, id, dst, Bpf.W64, n);
    }
  }

  /** The address operand, then the value operand of width w. */
  lemma AddressAndValueCompute(cfg: Config, c: Bpf.Core, d: Data, base: Bpf.Reg, off: int, r: Bpf.Reg, w: Bpf.Width, id: nat)
    requires Matches(c, d) && Bpf.RawField(16, off)
    ensures var ptr := Pointer(base, Bpf.Off16(off), id);
            var v := ReadReg(r, w, ptr.next);
            && Computes(cfg, ptr.Then(v), id, d, w.Bits(), Wrap(w.Bits(), c.regs[r]))
            && Below(ptr.val, ptr.next) && ptr.next <= v.next
            && Matches(c, After(cfg, ptr.Then(v), d))
            && Eval(cfg, ptr.val, After(cfg, ptr.Then(v), d).env) == Some(Typed(64, Bpf.Address(c, base, off)))
  {
    var ptr := Pointer(base, Bpf.Off16(off), id);
    PointerComputes(cfg, c, d, base, off, id);
    var d1 := After(cfg, ptr, d);
    KeepsMatches(c, d, d1, id);
    var v := ReadReg(r, w, ptr.next);
    ReadRegComputes(cfg, c, d1, r, w, ptr.next);
    ThenComputes(cfg, ptr, id, d, 64, Bpf.Address(c, base, off), v, w.Bits(), Wrap(w.Bits(), c.regs[r]));
    KeepsMatches(c, d, After(cfg, ptr.Then(v), d), id);
  }

  /** The address and the value to store, cut down to the size of the access. */
  lemma StoreOperandsCompute(cfg: Config, c: Bpf.Core, d: Data, bits: nat, w: Bpf.Width, value: Bpf.Reg,
                             base: Bpf.Reg, off: int, id: nat)
    requires Matches(c, d) && Bpf.RawField(16, off) && bits <= w.Bits()
    ensures var ptr := Pointer(base, Bpf.Off16(off), id);
            var v0 := ReadReg(value, w, ptr.next);
            var v := if bits < w.Bits() then v0.Casted(Trunc, bits) else v0;
            && Computes(cfg, ptr.Then(v), id, d, bits, Wrap(bits, c.regs[value]))
            && Eval(cfg, ptr.val, After(cfg, ptr.Then(v), d).env) == Some(Typed(64, Bpf.Address(c, base, off)))
  {
    var ptr := Pointer(base, Bpf.Off16(off), id);
    var v0 := ReadReg(value, w, ptr.next);
    AddressAndValueCompute(cfg, c, d, base, off, value, w, id);
    if bits < w.Bits() {
      var x, n := Wrap(w.Bits(), c.regs[value]), Wrap(bits, c.regs[value]);
      var cast := Cast(v0.next, Trunc, v0.val, bits);
      WrapWrap(bits, w.Bits(), c.regs[value]);
      DefComputes(cfg, ptr.Then(v0), id, d, cast, bits, n);
      assert ptr.Then(v0.Casted(Trunc, bits)).code == ptr.Then(v0).Def(cast).code;
    }
  }

  lemma {:induction false} StoreRuns(cfg: Config, c: Bpf.Core, d: Data, bits: nat, wSrc: bool, value: Bpf.Reg,
                  base: Bpf.Reg, off: int, id: nat)
    requires Matches(c, d) && Bpf.RawField(16, off) && bits % 8 == 0 && bits <= (if wSrc then 32 else 64)
    ensures var code := StorePiece(bits, wSrc, value, base, Bpf.Off16(off), id).code;
            && Run(cfg, code, d).Some?
            && Matches(c.(mem := Store(c.mem, Bpf.Address(c, base, off), bits / 8, Wrap(bits, c.regs[value]))),
                       Run(cfg, code, d).value)
  {
    var w := if wSrc then Bpf.W32 else Bpf.W64;
    var a := Bpf.Address(c, base, off);
    var n := Wrap(bits, c.regs[value]);
    var ptr := Pointer(base, Bpf.Off16(off), id);
    var v0 := ReadReg(value, w, ptr.next);
    var v := if bits < w.Bits() then v0.Casted(Trunc, bits) else v0;
    StoreOperandsCompute(cfg, c, d, bits, w, value, base, off, id);
    var p := ptr.Then(v);
    var d2 := After(cfg, p, d);
    KeepsMatches(c, d, d2, id);
    ExecStore(cfg, d2, v.val, n, bits, ptr.val, a);
    StoreMatches(cfg, c, d, p, StoreMem(v.val, bits, ptr.val), Store(c.mem, a, bits / 8, n));
  }

  lemma {:induction false} StoreImmRuns(cfg: Config, c: Bpf.Core, d: Data, bits: nat, imm: int, base: Bpf.Reg, off: int,
                                        id: nat)
    requires Matches(c, d) && Bpf.RawField(16, off) && bits % 8 == 0
    ensures var code := StoreImmPiece(bits, imm, base, Bpf.Off16(off), id).code;
            && Run(cfg, code, d).Some?
            && Matches(c.(mem := Store(c.mem, Bpf.Address(c, base, off), bits / 8, Wrap(bits, imm))),
                       Run(cfg, code, d).value)
  {
    var a := Bpf.Address(c, base, off);
    var n := Wrap(bits, imm);
    var ptr := Pointer(base, Bpf.Off16(off), id);
    PointerComputes(cfg, c, d, base, off, id);
    var d1 := After(cfg, ptr, d);
    KeepsMatches(c, d, d1, id);
    ExecStore(cfg, d1, Const(bits, n), n, bits, ptr.val, a);
    StoreMatches(cfg, c, d, ptr, StoreMem(Const(bits, n), bits, ptr.val), Store(c.mem, a, bits / 8, n));
  }

  /** An instruction that updates memory and yields a value, with or without the write of
      that value to a register. */
  lemma {:induction false} ReadModifyWrite(cfg: Config, c: Bpf.Core, d: Data, p: Piece, i: Inst, w: Bpf.Width,
                                           previous: nat, mem: Memory, r: Bpf.Reg)
    requires Run(cfg, p.code, d).Some? && Matches(c, After(cfg, p, d)) && previous < Pow2(w.Bits())
    requires Exec(cfg, i, After(cfg, p, d)) == Some(After(cfg, p, d).(mem := mem).Bind(p.next, w.Bits(), previous))
    ensures Run(cfg, p.Def(i).code, d).Some?
    ensures Matches(c.(mem := mem), After(cfg, p.Def(i), d))
    ensures var code := p.Def(i).Then(WriteReg(r, w, p.Def(i).val, p.Def(i).next)).code;
            Run(cfg, code, d).Some? && Matches(c.(mem := mem).With(r, previous), Run(cfg, code, d).value)
  {
    DoRuns(cfg, p, d, i);
    var q := p.Def(i);
    var d1 := After(cfg, q, d);
    MatchesMemory(c, After(cfg, p, d), mem, d1);
    WriteRegRuns(cfg, c.(mem := mem), d1, r, w, q.val, previous, q.next);
    RunAppend(cfg, q.code, WriteReg(r, w, q.val, q.next).code, d);
  }

  lemma {:induction false} AtomicRuns(cfg: Config, c: Bpf.Core, d: Data, op: Bpf.AtomicOp, w: Bpf.Width, fetch: bool,
                                      value: Bpf.Reg, base: Bpf.Reg, off: int, id: nat)
    requires Matches(c, d) && Bpf.RawField(16, off)
    ensures var code := AtomicPiece(op, w, fetch, value, base, Bpf.Off16(off), id).code;
            var a := Bpf.Address(c, base, off);
            var previous := Load(c.mem, a, w.Bits() / 8);
            var v := Bpf.AtomicResult(op, w.Bits(), previous, Wrap(w.Bits(), c.regs[value]));
            var c1 := c.(mem := Store(c.mem, a, w.Bits() / 8, v));
            && Run(cfg, code, d).Some?
            && Matches(if fetch then c1.With(value, previous) else c1, Run(cfg, code, d).value)
  {
    var bits := w.Bits();
    var a := Bpf.Address(c, base, off);
    var x := Wrap(bits, c.regs[value]);
    var ptr := Pointer(base, Bpf.Off16(off), id);
    var v := ReadReg(value, w, ptr.next);
    AddressAndValueCompute(cfg, c, d, base, off, value, w, id);
    var p := ptr.Then(v);
    RmwRuns(cfg, c, d, p, op, w, ptr.val, a, v.val, x, value);
  }

  /** The atomic operation itself, once its address and operand are computed. */
  lemma {:induction false} RmwRuns(cfg: Config, c: Bpf.Core, d: Data, p: Piece, op: Bpf.AtomicOp, w: Bpf.Width,
                                   ptr: Val, a: nat, v: Val, x: nat, r: Bpf.Reg)
    requires Run(cfg, p.code, d).Some? && Matches(c, After(cfg, p, d))
    requires Eval(cfg, ptr, After(cfg, p, d).env) == Some(Typed(64, a))
    requires Eval(cfg, v, After(cfg, p, d).env) == Some(Typed(w.Bits(), x))
    ensures var q := p.Def(AtomicRmw(p.next, RmwOpcode(op), w.Bits(), ptr, v));
            var q' := q.Then(WriteReg(r, w, q.val, q.next));
            var previous := Load(c.mem, a, w.Bits() / 8);
            var c1 := c.(mem := Store(c.mem, a, w.Bits() / 8, Bpf.AtomicResult(op, w.Bits(), previous, x)));
            && Run(cfg, q.code, d).Some? && Matches(c1, Run(cfg, q.code, d).value)
            && Run(cfg, q'.code, d).Some? && Matches(c1.With(r, previous), Run(cfg, q'.code, d).value)
  {
    var bits := w.Bits();
    var previous := Load(c.mem, a, bits / 8);
    LoadInRange(c.mem, a, bits / 8);
    RmwAgrees(op, bits, previous, x);
    ExecRmw(cfg, After(cfg, p, d), p.next, RmwOpcode(op), bits, ptr, a, v, x);
    ReadModifyWrite(cfg, c, d, p, AtomicRmw(p.next, RmwOpcode(op), bits, ptr, v), w, previous,
                    Store(c.mem, a, bits / 8, Bpf.AtomicResult(op, bits, previous, x)), r);
  }

  lemma RmwAgrees(op: Bpf.AtomicOp, bits: nat, previous: nat, v: nat)
    ensures RmwResult(RmwOpcode(op), bits, previous, v) == Bpf.AtomicResult(op, bits, previous, v)
  {
  }

  lemma CompareExchangeOperands(cfg: Config, c: Bpf.Core, d: Data, w: Bpf.Width, value: Bpf.Reg, base: Bpf.Reg,
                                off: int, id: nat)
    requires Matches(c, d) && Bpf.RawField(16, off)
    ensures var ptr := Pointer(base, Bpf.Off16(off), id);
            var e := ReadReg(Bpf.R0, w, ptr.next);
            var v := ReadReg(value, w, e.next);
            var p := ptr.Then(e).Then(v);
            && Computes(cfg, p, id, d, w.Bits(), Wrap(w.Bits(), c.regs[value]))
            && Matches(c, After(cfg, p, d))
            && Eval(cfg, e.val, After(cfg, p, d).env) == Some(Typed(w.Bits(), Wrap(w.Bits(), c.regs[0])))
            && Eval(cfg, ptr.val, After(cfg, p, d).env) == Some(Typed(64, Bpf.Address(c, base, off)))
  {
    var ptr := Pointer(base, Bpf.Off16(off), id);
    var e := ReadReg(Bpf.R0, w, ptr.next);
    AddressAndValueCompute(cfg, c, d, base, off, Bpf.R0, w, id);
    var p1 := ptr.Then(e);
    var d1 := After(cfg, p1, d);
    var v := ReadReg(value, w, e.next);
    ReadRegComputes(cfg, c, d1, value, w, e.next);
    ThenComputes(cfg, p1, id, d, w.Bits(), Wrap(w.Bits(), c.regs[0]), v, w.Bits(), Wrap(w.Bits(), c.regs[value]));
    KeepsMatches(c, d1, After(cfg, p1.Then(v), d), e.next);
  }

  lemma {:induction false} CompareExchangeRuns(cfg: Config, c: Bpf.Core, d: Data, w: Bpf.Width, value: Bpf.Reg,
                                               base: Bpf.Reg, off: int, id: nat)
    requires Matches(c, d) && Bpf.RawField(16, off)
    ensures var code := CompareExchangePiece(w, value, base, Bpf.Off16(off), id).code;
            var a := Bpf.Address(c, base, off);
            var previous := Load(c.mem, a, w.Bits() / 8);
            var mem := if previous == Wrap(w.Bits(), c.regs[0])
                       then Store(c.mem, a, w.Bits() / 8, Wrap(w.Bits(), c.regs[value])) else c.mem;
            && Run(cfg, code, d).Some?
            && Matches(c.(mem := mem).With(Bpf.R0, previous), Run(cfg, code, d).value)
  {
    var bits := w.Bits();
    var a := Bpf.Address(c, base, off);
    var y, x := Wrap(bits, c.regs[0]), Wrap(bits, c.regs[value]);
    var ptr := Pointer(base, Bpf.Off16(off), id);
    var e := ReadReg(Bpf.R0, w, ptr.next);
    var v := ReadReg(value, w, e.next);
    CompareExchangeOperands(cfg, c, d, w, value, base, off, id);
    ExchangeRuns(cfg, c, d, ptr.Then(e).Then(v), w, ptr.val, a, e.val, y, v.val, x);
  }

  /** The exchange itself, once its address and operands are computed. */
  lemma {:induction false} ExchangeRuns(cfg: Config, c: Bpf.Core, d: Data, p: Piece, w: Bpf.Width, ptr: Val, a: nat,
                                        e: Val, y: nat, v: Val, x: nat)
    requires Run(cfg, p.code, d).Some? && Matches(c, After(cfg, p, d))
    requires Eval(cfg, ptr, After(cfg, p, d).env) == Some(Typed(64, a))
    requires Eval(cfg, e, After(cfg, p, d).env) == Some(Typed(w.Bits(), y))
    requires Eval(cfg, v, After(cfg, p, d).env) == Some(Typed(w.Bits(), x))
    ensures var q := p.Def(CmpXchg(p.next, w.Bits(), ptr, e, v));
            var code := q.Then(WriteReg(Bpf.R0, w, q.val, q.next)).code;
            var previous := Load(c.mem, a, w.Bits() / 8);
            var mem := if previous == y then Store(c.mem, a, w.Bits() / 8, x) else c.mem;
            Run(cfg, code, d).Some? && Matches(c.(mem := mem).With(Bpf.R0, previous), Run(cfg, code, d).value)
  {
    var bits := w.Bits();
    var previous := Load(c.mem, a, bits / 8);
    LoadInRange(c.mem, a, bits / 8);
    ExecCmpXchg(cfg, After(cfg, p, d), p.next, bits, ptr, a, e, y, v, x);
    ReadModifyWrite(cfg, c, d, p, CmpXchg(p.next, bits, ptr, e, v), w, previous,
                    if previous == y then Store(c.mem, a, bits / 8, x) else c.mem, Bpf.R0);
  }
}
