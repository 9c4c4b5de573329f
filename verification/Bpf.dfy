/** BPF instructions as the disassembler hands them over, and the flat machine that
    RFC 9669 describes for them. */
module Bpf {
  import opened Words
  import opened Memory

  // ---------------------------------------------------------------- instructions

  /** r0-r10; number 11 is LLVM's internal pseudo register, which has storage too. */
  type Reg = r: nat | r < 12

  const R0: Reg := 0
  const R10: Reg := 10

  datatype Width = W32 | W64 {
    function Bits(): nat { if W32? then 32 else 64 }
  }

  datatype Size = Byte | Half | Word | Double {
    function Bytes(): nat {
      match this
      case Byte => 1
      case Half => 2
      case Word => 4
      case Double => 8
    }

    function Bits(): nat { 8 * Bytes() }
  }

  datatype AluOp = Add | Sub | Mul | And | Or | Xor | Lsh | Rsh | Arsh | Div | Mod | SDiv | SMod

  datatype Cond = Eq | Ne | Ugt | Uge | Ult | Ule | Sgt | Sge | Slt | Sle | Set

  datatype AtomicOp = AAdd | AAnd | AOr | AXor | AXchg

  datatype Operand = RegOp(reg: Reg) | ImmOp(imm: int)

  /** A branch target: an offset in 8-byte units as decoded, or the label that the
      lifter puts in its place. */
  datatype Target = Offset(off: int) | Label(name: string)

  /** One decoded instruction. Immediate and offset fields hold the encoded field
      zero-extended, until the lifter sign-extends them in place. */
  datatype Insn =
    | Nop
    | Alu(op: AluOp, w: Width, dst: Reg, src: Operand)
    | Neg(w: Width, dst: Reg)
    | Mov(w: Width, dst: Reg, src: Operand)
    | MovZext(dst: Reg, from: Reg)
    | MovSext(w: Width, size: Size, dst: Reg, from: Reg)
    | LoadImm64(dst: Reg, imm64: nat)
    | Endian(swap: bool, size: Size, dst: Reg)
    | LoadMem(size: Size, sext: bool, wDest: bool, dst: Reg, base: Reg, off: int)
    | StoreMem(size: Size, wSrc: bool, value: Reg, base: Reg, off: int)
    | StoreImm(size: Size, imm: int, base: Reg, off: int)
    | Jump(long: bool, target: Target)
    | Branch(cond: Cond, w: Width, lhs: Reg, rhs: Operand, target: Target)
    | Atomic(aop: AtomicOp, w: Width, fetch: bool, value: Reg, base: Reg, off: int)
    | CompareExchange(w: Width, value: Reg, base: Reg, off: int)
    | Call(srcField: nat, imm: int)
    | Exit
    | Unsupported
  {
    /** Length in 8-byte units: only the 64-bit immediate load is wide. */
    function Units(): (n: nat)
      ensures 1 <= n <= 2
    {
      if LoadImm64? then 2 else 1
    }

    /** Reads registers, writes register `dst`, and touches nothing else. */
    predicate IsRegisterOp() {
      Alu? || Neg? || Mov? || MovZext? || MovSext? || LoadImm64? || Endian?
    }

    predicate IsBranch() { Jump? || Branch? }

    predicate IsTerminator() { Jump? || Branch? || Exit? }
  }

  predicate RawField(bits: nat, v: int) { 0 <= v < Pow2(bits) }

  predicate RawOperand(s: Operand) { s.ImmOp? ==> RawField(32, s.imm) }

  /** What the decoder can produce: fields within their encoded width, and only the
      register and size combinations that have an opcode. */
  predicate Decodable(i: Insn) {
    match i
    case Alu(_, _, _, s) => RawOperand(s)
    case Mov(_, _, s) => RawOperand(s)
    case MovSext(w, size, _, _) => size == Byte || size == Half || (size == Word && w == W64)
    case LoadImm64(_, imm) => imm < Pow2(64)
    case Endian(_, size, _) => size != Byte
    case LoadMem(size, sext, wDest, _, _, off) =>
      RawField(16, off) && (sext || wDest ==> size != Double) && !(sext && wDest)
    case StoreMem(size, wSrc, _, _, off) => RawField(16, off) && (wSrc ==> size != Double)
    case StoreImm(_, imm, _, off) => RawField(32, imm) && RawField(16, off)
    case Jump(long, t) => t.Offset? && RawField(if long then 32 else 16, t.off)
    case Branch(_, _, _, rhs, t) => RawOperand(rhs) && t.Offset? && RawField(16, t.off)
    case Atomic(op, _, fetch, _, _, off) => RawField(16, off) && (op == AXchg ==> fetch)
    case CompareExchange(_, _, _, off) => RawField(16, off)
    case Call(_, imm) => RawField(32, imm)
    case _ => true
  }

  // ---------------------------------------------------------------- machine state

  /** A call to a helper: its number, r1-r5, and memory at the time of the call. */
  datatype CallEvent = CallEvent(id: int, args: seq<nat>, mem: Memory)

  /** Registers, memory, and the calls made so far. */
  datatype Core = Core(regs: seq<nat>, mem: Memory, calls: seq<CallEvent>) {
    predicate Valid() {
      |regs| == 12 && forall r :: 0 <= r < 12 ==> regs[r] < Pow2(64)
    }

    function Reg(r: Reg): nat
      requires |regs| == 12
    {
      regs[r]
    }

    function With(r: Reg, v: nat): Core
      requires |regs| == 12
    {
      this.(regs := regs[r := v])
    }
  }

  /** What the program's surroundings do: a helper's answer may depend on every call so
      far; `clobber(u, r)` is the value left in caller-saved register r by the call
      instruction at unit u. */
  datatype Oracle = Oracle(helper: seq<CallEvent> -> (nat, Memory), clobber: (nat, nat) -> nat)

  // ---------------------------------------------------------------- instruction semantics

  function Imm32(raw: int): int
    requires RawField(32, raw)
  {
    Signed(32, raw)
  }

  function Off16(raw: int): int
    requires RawField(16, raw)
  {
    Signed(16, raw)
  }

  function OperandValue(c: Core, w: Width, s: Operand): (n: nat)
    requires |c.regs| == 12 && RawOperand(s)
    ensures n < Pow2(w.Bits())
  {
    match s
    case RegOp(r) => Wrap(w.Bits(), c.regs[r])
    case ImmOp(imm) => Wrap(w.Bits(), Imm32(imm))
  }

  /** RFC 9669, section 4.1: total arithmetic on operands of `bits` bits. */
  function AluResult(op: AluOp, bits: nat, a: nat, b: nat): nat
    requires bits > 0 && a < Pow2(bits) && b < Pow2(bits)
  {
    match op
    case Add => Wrap(bits, a + b)
    case Sub => Wrap(bits, a - b)
    case Mul => Wrap(bits, a * b)
    case And => BitAnd(a, b)
    case Or => BitOr(a, b)
    case Xor => BitXor(a, b)
    case Lsh => Shl(bits, a, b % bits)
    case Rsh => LShr(a, b % bits)
    case Arsh => AShr(bits, a, b % bits)
    case Div => if b == 0 then 0 else a / b
    case Mod => if b == 0 then a else a % b
    case SDiv => if b == 0 then 0 else Wrap(bits, TruncDiv(Signed(bits, a), Signed(bits, b)))
    case SMod => if b == 0 then a else Wrap(bits, TruncRem(Signed(bits, a), Signed(bits, b)))
  }

  /** RFC 9669, section 4.3: the comparison of a conditional jump. */
  predicate Holds(cond: Cond, bits: nat, a: nat, b: nat)
    requires bits > 0
  {
    match cond
    case Eq => a == b
    case Ne => a != b
    case Ugt => a > b
    case Uge => a >= b
    case Ult => a < b
    case Ule => a <= b
    case Sgt => Signed(bits, a) > Signed(bits, b)
    case Sge => Signed(bits, a) >= Signed(bits, b)
    case Slt => Signed(bits, a) < Signed(bits, b)
    case Sle => Signed(bits, a) <= Signed(bits, b)
    case Set => BitAnd(a, b) != 0
  }

  function AtomicResult(op: AtomicOp, bits: nat, previous: nat, v: nat): nat {
    match op
    case AAdd => Wrap(bits, previous + v)
    case AAnd => BitAnd(previous, v)
    case AOr => BitOr(previous, v)
    case AXor => BitXor(previous, v)
    case AXchg => v
  }

  function Address(c: Core, base: Reg, off: int): nat
    requires |c.regs| == 12 && RawField(16, off)
  {
    Wrap(64, c.regs[base] + Off16(off))
  }

  /** The helper call at unit `u`: r0 receives the answer, r1-r5 are clobbered. */
  function CallEffect(o: Oracle, u: nat, id: int, c: Core): Core
    requires |c.regs| == 12
  {
    var calls := c.calls + [CallEvent(id, c.regs[1..6], c.mem)];
    var (ret, mem) := o.helper(calls);
    Core([Wrap(64, ret)] + seq<nat>(5, i requires 0 <= i < 5 => Wrap(64, o.clobber(u, 1 + i))) + c.regs[6..],
         mem, calls)
  }

  /** The value a register-to-register instruction leaves in its destination. */
  function RegisterResult(i: Insn, c: Core): (v: nat)
    requires |c.regs| == 12 && Decodable(i) && i.IsRegisterOp()
  {
    match i
    case Alu(op, w, dst, s) =>
      AluResult(op, w.Bits(), Wrap(w.Bits(), c.regs[dst]), OperandValue(c, w, s))
    case Neg(w, dst) => Wrap(w.Bits(), 0 - Wrap(w.Bits(), c.regs[dst]))
    case Mov(w, dst, s) => OperandValue(c, w, s)
    case MovZext(dst, from) => Wrap(32, c.regs[from])
    case MovSext(w, size, dst, from) => SExt(size.Bits(), w.Bits(), Wrap(size.Bits(), c.regs[from]))
    case LoadImm64(dst, imm) => imm
    case Endian(swap, size, dst) =>
      var v := Wrap(size.Bits(), c.regs[dst]);
      if swap then ByteSwap(size.Bytes(), v) else v
  }

  function LoadEffect(i: Insn, c: Core): (c': Core)
    requires |c.regs| == 12 && Decodable(i) && i.LoadMem?
    ensures |c'.regs| == 12
  {
    var v := Load(c.mem, Address(c, i.base, i.off), i.size.Bytes());
    c.With(i.dst, if i.sext then SExt(i.size.Bits(), 64, v) else v)
  }

  function StoreEffect(i: Insn, c: Core): (c': Core)
    requires |c.regs| == 12 && Decodable(i) && i.StoreMem?
  {
    c.(mem := Store(c.mem, Address(c, i.base, i.off), i.size.Bytes(), Wrap(i.size.Bits(), c.regs[i.value])))
  }

  function StoreImmEffect(i: Insn, c: Core): (c': Core)
    requires |c.regs| == 12 && Decodable(i) && i.StoreImm?
  {
    c.(mem := Store(c.mem, Address(c, i.base, i.off), i.size.Bytes(), Wrap(i.size.Bits(), Imm32(i.imm))))
  }

  function AtomicEffect(i: Insn, c: Core): (c': Core)
    requires |c.regs| == 12 && Decodable(i) && i.Atomic?
    ensures |c'.regs| == 12
  {
    var a := Address(c, i.base, i.off);
    var previous := Load(c.mem, a, i.w.Bits() / 8);
    var v := AtomicResult(i.aop, i.w.Bits(), previous, Wrap(i.w.Bits(), c.regs[i.value]));
    var c1 := c.(mem := Store(c.mem, a, i.w.Bits() / 8, v));
    if i.fetch then c1.With(i.value, previous) else c1
  }

  function CompareExchangeEffect(i: Insn, c: Core): (c': Core)
    requires |c.regs| == 12 && Decodable(i) && i.CompareExchange?
    ensures |c'.regs| == 12
  {
    var a := Address(c, i.base, i.off);
    var previous := Load(c.mem, a, i.w.Bits() / 8);
    var mem := if previous == Wrap(i.w.Bits(), c.regs[0])
               then Store(c.mem, a, i.w.Bits() / 8, Wrap(i.w.Bits(), c.regs[i.value]))
               else c.mem;
    c.(mem := mem).With(R0, previous)
  }

  /** Everything an instruction at unit `u` does besides moving the program counter. */
  function Effect(o: Oracle, u: nat, i: Insn, c: Core): (c': Core)
    requires |c.regs| == 12 && Decodable(i)
    ensures |c'.regs| == 12
  {
    if i.IsRegisterOp() then c.With(i.dst, RegisterResult(i, c))
    else if i.LoadMem? then LoadEffect(i, c)
    else if i.StoreMem? then StoreEffect(i, c)
    else if i.StoreImm? then StoreImmEffect(i, c)
    else if i.Atomic? then AtomicEffect(i, c)
    else if i.CompareExchange? then CompareExchangeEffect(i, c)
    else if i.Call? then CallEffect(o, u, Imm32(i.imm), c)
    else c
  }

  /** The instruction with its immediate and offset fields sign-extended, 16 bits for
      memory offsets and 32 for immediates; the 64-bit immediate is left alone. */
  function SignExtended(i: Insn): Insn
    requires Decodable(i)
  {
    match i
    case Alu(op, w, dst, s) => Alu(op, w, dst, SignExtendedOperand(s))
    case Mov(w, dst, s) => Mov(w, dst, SignExtendedOperand(s))
    case LoadMem(size, sext, wDest, dst, base, off) => LoadMem(size, sext, wDest, dst, base, Off16(off))
    case StoreMem(size, wSrc, value, base, off) => StoreMem(size, wSrc, value, base, Off16(off))
    case StoreImm(size, imm, base, off) => StoreImm(size, Imm32(imm), base, Off16(off))
    case Jump(long, t) => Jump(long, Offset(if long then Imm32(t.off) else Off16(t.off)))
    case Branch(cond, w, lhs, rhs, t) => Branch(cond, w, lhs, SignExtendedOperand(rhs), Offset(Off16(t.off)))
    case Atomic(op, w, fetch, value, base, off) => Atomic(op, w, fetch, value, base, Off16(off))
    case CompareExchange(w, value, base, off) => CompareExchange(w, value, base, Off16(off))
    case Call(src, imm) => Call(src, Imm32(imm))
    case _ => i
  }

  function SignExtendedOperand(s: Operand): Operand
    requires RawOperand(s)
  {
    if s.ImmOp? then ImmOp(Imm32(s.imm)) else s
  }

  predicate Taken(i: Insn, c: Core)
    requires |c.regs| == 12 && Decodable(i) && i.Branch?
  {
    Holds(i.cond, i.w.Bits(), Wrap(i.w.Bits(), c.regs[i.lhs]), OperandValue(c, i.w, i.rhs))
  }

  /** RFC 9669, section 4.3: offsets count 8-byte units from the following instruction. */
  function TargetUnit(i: Insn, u: nat): int
    requires Decodable(i) && i.IsBranch()
  {
    u + i.Units() + (if i.Jump? && i.long then Signed(32, i.target.off) else Signed(16, i.target.off))
  }

  function NextUnit(i: Insn, u: nat, c: Core): int
    requires |c.regs| == 12 && Decodable(i)
  {
    if i.Jump? || (i.Branch? && Taken(i, c)) then TargetUnit(i, u) else u + i.Units()
  }

  // ---------------------------------------------------------------- programs

  type Program = seq<Insn>

  predicate DecodableProgram(p: Program) { forall i <- p :: Decodable(i) }

  /** The unit at which instruction number `k` starts. */
  function UnitOf(p: Program, k: nat): nat
    requires k <= |p|
  {
    if k == 0 then 0 else UnitOf(p, k - 1) + p[k - 1].Units()
  }

  lemma {:induction false} UnitOfIncreases(p: Program, j: nat, k: nat)
    requires j <= k <= |p|
    ensures UnitOf(p, j) + (k - j) <= UnitOf(p, k)
    decreases k
  {
    if j < k {
      UnitOfIncreases(p, j, k - 1);
    }
  }

  lemma {:induction false} UnitOfInjective(p: Program, j: nat, k: nat)
    requires j <= |p| && k <= |p| && UnitOf(p, j) == UnitOf(p, k)
    ensures j == k
  {
    if j < k {
      UnitOfIncreases(p, j, k);
    } else if k < j {
      UnitOfIncreases(p, k, j);
    }
  }

  /** `u` is the start of an instruction. */
  ghost predicate Boundary(p: Program, u: int) {
    exists k: nat :: k < |p| && UnitOf(p, k) == u
  }

  ghost function InsnIndex(p: Program, u: int): (k: nat)
    requires Boundary(p, u)
    ensures k < |p| && UnitOf(p, k) == u
  {
    var k: nat :| k < |p| && UnitOf(p, k) == u;
    k
  }

  datatype Outcome =
    | Running(pc: int, core: Core)
    | Exited(r0: nat, mem: Memory, calls: seq<CallEvent>)
    | OffEnd(at: int, core: Core)

  /** One step of the flat machine. Leaving the instruction stream ends the run in OffEnd. */
  ghost function FlatStep(p: Program, o: Oracle, s: Outcome): (s': Outcome)
    requires DecodableProgram(p)
    requires s.Running? ==> |s.core.regs| == 12
    ensures s'.Running? ==> |s'.core.regs| == 12
  {
    if !s.Running? then s
    else if !Boundary(p, s.pc) then OffEnd(s.pc, s.core)
    else
      var k := InsnIndex(p, s.pc);
      var i := p[k];
      if i.Exit? then Exited(s.core.regs[0], s.core.mem, s.core.calls)
      else Running(NextUnit(i, UnitOf(p, k), s.core), Effect(o, UnitOf(p, k), i, s.core))
  }

  ghost function FlatRun(p: Program, o: Oracle, s: Outcome, n: nat): (s': Outcome)
    requires DecodableProgram(p)
    requires s.Running? ==> |s.core.regs| == 12
    ensures s'.Running? ==> |s'.core.regs| == 12
  {
    if n == 0 then s else FlatStep(p, o, FlatRun(p, o, s, n - 1))
  }

  // ---------------------------------------------------------------- registers stay 64-bit

  lemma AluInRange(op: AluOp, bits: nat, a: nat, b: nat)
    requires bits > 0 && a < Pow2(bits) && b < Pow2(bits)
    ensures AluResult(op, bits, a, b) < Pow2(bits)
  {
    BitOpsInRange(bits, a, b);
    match op
    case Div => if b != 0 { DivBound(a, b); }
    case Mod => if b != 0 { ModInRange(a, b); }
    case _ =>
  }

  lemma DivBound(a: nat, b: nat)
    requires b > 0
    ensures a / b <= a
  {
    var q := a / b;
    assert a == b * q + a % b;
    if q > 0 { MulAtLeast(q, b); }
  }

  /** Register results fit the destination width, so 32-bit operations zero the upper half. */
  lemma RegisterResultInRange(i: Insn, c: Core)
    requires |c.regs| == 12 && Decodable(i) && i.IsRegisterOp()
    ensures RegisterResult(i, c) < Pow2(64)
    ensures (i.Alu? || i.Neg? || i.Mov? || i.MovSext?) && i.w == W32 ==> RegisterResult(i, c) < Pow2(32)
  {
    Pow2Mono(32, 64); Pow2Mono(16, 64);
    if i.Alu? {
      AluInRange(i.op, i.w.Bits(), Wrap(i.w.Bits(), c.regs[i.dst]), OperandValue(c, i.w, i.src));
    } else if i.Endian? {
      ByteSwapInRange(i.size.Bytes(), Wrap(i.size.Bits(), c.regs[i.dst]));
    }
  }

  /** Every step keeps all registers within 64 bits. */
  lemma EffectInRange(o: Oracle, u: nat, i: Insn, c: Core)
    requires c.Valid() && Decodable(i)
    ensures Effect(o, u, i, c).Valid()
  {
    if i.IsRegisterOp() {
      RegisterResultInRange(i, c);
      WithValid(c, i.dst, RegisterResult(i, c));
    } else if i.LoadMem? || i.Atomic? || i.CompareExchange? {
      MemoryEffectInRange(o, u, i, c);
    } else if i.Call? {
      CallEffectInRange(o, u, Imm32(i.imm), c);
    }
  }

  lemma MemoryEffectInRange(o: Oracle, u: nat, i: Insn, c: Core)
    requires c.Valid() && Decodable(i)
    requires i.LoadMem? || i.Atomic? || i.CompareExchange?
    ensures Effect(o, u, i, c).Valid()
  {
    if i.LoadMem? {
      LoadWithin64(c.mem, Address(c, i.base, i.off), i.size.Bytes());
    } else {
      LoadWithin64(c.mem, Address(c, i.base, i.off), i.w.Bits() / 8);
    }
  }

  lemma LoadWithin64(mem: Memory, a: nat, n: nat)
    requires n <= 8
    ensures Load(mem, a, n) < Pow2(64)
  {
    LoadInRange(mem, a, n);
    Pow2Mono(8 * n, 64);
  }

  lemma CallEffectInRange(o: Oracle, u: nat, id: int, c: Core)
    requires c.Valid()
    ensures CallEffect(o, u, id, c).Valid()
  {
    var c' := CallEffect(o, u, id, c);
    forall r | 0 <= r < 12 ensures c'.regs[r] < Pow2(64) {
      var i := r - 1;
      if r >= 6 {
        assert c'.regs[r] == c.regs[r];
      } else if r > 0 {
        assert c'.regs[r] == Wrap(64, o.clobber(u, 1 + i));
      }
    }
  }

  lemma WithValid(c: Core, r: Reg, v: nat)
    requires c.Valid() && v < Pow2(64)
    ensures c.With(r, v).Valid()
  {
  }
}
