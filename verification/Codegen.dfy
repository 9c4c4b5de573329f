/** The code that lifting one instruction appends to the function: what the emitter
    (Lifter) is specified by, and what the simulation proof is about. */
module Codegen {
  import opened Options
  import opened Words
  import opened Ir
  import Bpf

  /** Instructions computing a value: the code, the value, and the next unused name. */
  datatype Piece = Piece(code: seq<Inst>, val: Val, next: nat) {
    function Then(q: Piece): Piece { Piece(code + q.code, q.val, q.next) }
    function Do(i: Inst): Piece { Piece(code + [i], val, next) }
    /** Append an instruction that defines the next name. */
    function Def(i: Inst): Piece { Piece(code + [i], Ref(next), next + 1) }
    function Casted(k: CastKind, to: nat): Piece { Def(Cast(next, k, val, to)) }
  }

  function Start(id: nat): Piece { Piece([], Const(0, 0), id) }

  // ---- operands ----

  function ReadReg(r: Bpf.Reg, w: Bpf.Width, id: nat): Piece {
    var p := Start(id).Def(LoadCell(id, 64, RegCell(r)));
    if w.W32? then p.Casted(Trunc, 32) else p
  }

  function ReadOperand(s: Bpf.Operand, w: Bpf.Width, id: nat): Piece {
    match s
    case RegOp(r) => ReadReg(r, w, id)
    case ImmOp(imm) => Piece([], Const(w.Bits(), Wrap(w.Bits(), imm)), id)
  }

  /** Stores `v` in register r; a 32-bit value is zero-extended first. */
  function WriteReg(r: Bpf.Reg, w: Bpf.Width, v: Val, id: nat): Piece {
    var p := Piece([], v, id);
    var p := if w.W32? then p.Casted(ZExt, 64) else p;
    p.Do(StoreCell(p.val, RegCell(r)))
  }

  function Pointer(base: Bpf.Reg, off: int, id: nat): Piece {
    var p := ReadReg(base, Bpf.W64, id);
    p.Def(Gep(p.next, p.val, Const(64, Wrap(64, off))))
  }

  // ---- arithmetic ----

  predicate IsDivision(op: Bpf.AluOp) { op.Div? || op.Mod? || op.SDiv? || op.SMod? }

  predicate IsShift(op: Bpf.AluOp) { op.Lsh? || op.Rsh? || op.Arsh? }

  function Opcode(op: Bpf.AluOp): BinOp {
    match op
    case Add => Add
    case Sub => Sub
    case Mul => Mul
    case And => And
    case Or => Or
    case Xor => Xor
    case Lsh => Shl
    case Rsh => LShr
    case Arsh => AShr
    case Div => UDiv
    case Mod => URem
    case SDiv => SDiv
    case SMod => SRem
  }

  function Arith(op: Bpf.AluOp, bits: nat, a: Val, b: Val, id: nat): Piece
    requires bits > 0
  {
    if IsShift(op) then
      Start(id)
      .Def(Binary(id, And, bits, Const(bits, bits - 1), b))
      .Def(Binary(id + 1, Opcode(op), bits, a, Ref(id)))
    else
      Start(id).Def(Binary(id, Opcode(op), bits, a, b))
  }

  // ---- fragments ----

  /** A branch out of the current block through closed blocks to a new open block. */
  datatype Split = Split(exit: Term, arms: seq<Block>, tail: seq<Inst>)

  /** What lifting one instruction appends. */
  datatype Fragment = Fragment(head: seq<Inst>, split: Option<Split>, next: nat, off: nat)

  function Straight(p: Piece, off: nat): Fragment { Fragment(p.code, None, p.next, off) }

  // A checked division: a test for a zero divisor (the head), closed arms in blocks of
  // their own, numbered from `base`, and a block where they join. The result travels in a
  // cell of its own.

  predicate IsSigned(op: Bpf.AluOp) { op.SDiv? || op.SMod? }

  function DivisionHead(op: Bpf.AluOp, bits: nat, before: Piece, a: Val, b: Val): Piece
    requires IsDivision(op)
  {
    var cell := ResultCell(before.next);
    var ifZero := if op.Div? || op.SDiv? then Const(bits, 0) else a;
    before.(next := before.next + 1)
    .Do(Alloca(cell))
    .Do(StoreCell(ifZero, cell))
    .Def(ICmp(before.next + 1, Ir.Eq, bits, b, Const(bits, 0)))
  }

  /** The operation itself, its result stored in the cell. */
  function DividePiece(op: Bpf.AluOp, bits: nat, a: Val, b: Val, cell: Cell, id: nat): Piece {
    Start(id).Def(Binary(id, Opcode(op), bits, a, b)).Do(StoreCell(Ref(id), cell))
  }

  /** The test for the overflowing signed division. */
  function OverflowCheck(bits: nat, min: nat, ones: nat, a: Val, b: Val, id: nat): Piece {
    Start(id)
    .Def(ICmp(id, Ir.Eq, bits, a, Const(bits, min)))
    .Def(ICmp(id + 1, Ir.Eq, bits, b, Const(bits, ones)))
    .Def(Binary(id + 2, And, 1, Ref(id), Ref(id + 1)))
  }

  function DivisionArms(op: Bpf.AluOp, bits: nat, a: Val, b: Val, cell: Cell, id: nat, base: nat): seq<Block>
    requires IsDivision(op) && bits > 0
  {
    if !IsSigned(op) then [Block("", DividePiece(op, bits, a, b, cell, id).code, Some(Goto(base + 1)))]
    else
      [Block("", OverflowCheck(bits, Pow2(bits - 1), Pow2(bits) - 1, a, b, id).code,
             Some(CondGoto(Ref(id + 2), base + 1, base + 2))),
       Block("", [StoreCell(if op.SDiv? then a else Const(bits, 0), cell)], Some(Goto(base + 3))),
       Block("", DividePiece(op, bits, a, b, cell, id + 3).code, Some(Goto(base + 3)))]
  }

  function ArmCount(op: Bpf.AluOp): nat { if IsSigned(op) then 3 else 1 }

  function DivisionResult(op: Bpf.AluOp, bits: nat, cell: Cell, id: nat): Piece {
    var id := if IsSigned(op) then id + 4 else id + 1;
    Start(id).Def(LoadCell(id, bits, cell))
  }

  /** The join block: the result, read from the cell, goes to the destination. */
  function DivisionTail(op: Bpf.AluOp, w: Bpf.Width, dst: Bpf.Reg, cell: Cell, id: nat): Piece {
    var p := DivisionResult(op, w.Bits(), cell, id);
    p.Then(WriteReg(dst, w, p.val, p.next))
  }

  /** A checked division, appended after the operands a and b when there are `base` blocks. */
  function DivisionFragment(op: Bpf.AluOp, w: Bpf.Width, dst: Bpf.Reg, operands: Piece, a: Val, b: Val,
                            off: nat, base: nat): Fragment
    requires IsDivision(op)
  {
    var head := DivisionHead(op, w.Bits(), operands, a, b);
    var cell := ResultCell(operands.next);
    var arms := DivisionArms(op, w.Bits(), a, b, cell, head.next, base);
    var tail := DivisionTail(op, w, dst, cell, head.next);
    Fragment(head.code, Some(Split(CondGoto(head.val, base + ArmCount(op), base), arms, tail.code)), tail.next, off)
  }

  function AluFragment(op: Bpf.AluOp, w: Bpf.Width, dst: Bpf.Reg, src: Bpf.Operand, id: nat, off: nat, base: nat): Fragment {
    var pa := ReadReg(dst, w, id);
    var pb := ReadOperand(src, w, pa.next);
    var operands := pa.Then(pb);
    if IsDivision(op) then DivisionFragment(op, w, dst, operands, pa.val, pb.val, off, base)
    else
      var p := operands.Then(Arith(op, w.Bits(), pa.val, pb.val, pb.next));
      Straight(p.Then(WriteReg(dst, w, p.val, p.next)), off)
  }

  // ---- the other register instructions ----

  function NegPiece(w: Bpf.Width, dst: Bpf.Reg, id: nat): Piece {
    var v := ReadReg(dst, w, id);
    var p := v.Def(Binary(v.next, Sub, w.Bits(), Const(w.Bits(), 0), v.val));
    p.Then(WriteReg(dst, w, p.val, p.next))
  }

  function MovePiece(w: Bpf.Width, dst: Bpf.Reg, s: Bpf.Operand, id: nat): Piece {
    var p := ReadOperand(s, w, id);
    p.Then(WriteReg(dst, w, p.val, p.next))
  }

  function MovSextPiece(w: Bpf.Width, size: Bpf.Size, dst: Bpf.Reg, from: Bpf.Reg, id: nat): Piece {
    var v := if size.Word? then ReadReg(from, Bpf.W32, id)
             else ReadReg(from, w, id).Casted(Trunc, size.Bits());
    var p := v.Casted(SExt, w.Bits());
    p.Then(WriteReg(dst, w, p.val, p.next))
  }

  function EndianPiece(swap: bool, size: Bpf.Size, dst: Bpf.Reg, id: nat): Piece {
    var p := ReadReg(dst, Bpf.W64, id);
    var p := if size.Bits() < 64 then p.Casted(Trunc, size.Bits()) else p;
    var p := if swap then p.Def(BSwap(p.next, size.Bits(), p.val)) else p;
    var p := if size.Bits() < 64 then p.Casted(ZExt, 64) else p;
    p.Then(WriteReg(dst, Bpf.W64, p.val, p.next))
  }

  function RegisterPiece(i: Bpf.Insn, id: nat): Piece
    requires i.IsRegisterOp() && !i.Alu?
  {
    match i
    case Neg(w, dst) => NegPiece(w, dst, id)
    case Mov(w, dst, s) => MovePiece(w, dst, s, id)
    case MovZext(dst, from) => MovePiece(Bpf.W32, dst, Bpf.RegOp(from), id)
    case MovSext(w, size, dst, from) => MovSextPiece(w, size, dst, from, id)
    case LoadImm64(dst, imm) => WriteReg(dst, Bpf.W64, Const(64, imm), id)
    case Endian(swap, size, dst) => EndianPiece(swap, size, dst, id)
  }

  // ---- memory ----

  function LoadPiece(size: Bpf.Size, sext: bool, wDest: bool, dst: Bpf.Reg, base: Bpf.Reg, off: int, id: nat): Piece {
    var ptr := Pointer(base, off, id);
    var bits := size.Bits();
    var p := ptr.Def(LoadMem(ptr.next, bits, ptr.val));
    if wDest then
      var p := if bits < 32 then p.Casted(ZExt, 32) else p;
      p.Then(WriteReg(dst, Bpf.W32, p.val, p.next))
    else
      var p := if bits < 64 then p.Casted(if sext then SExt else ZExt, 64) else p;
      p.Then(WriteReg(dst, Bpf.W64, p.val, p.next))
  }

  function StorePiece(bits: nat, wSrc: bool, value: Bpf.Reg, base: Bpf.Reg, off: int, id: nat): Piece {
    var ptr := Pointer(base, off, id);
    var w := if wSrc then Bpf.W32 else Bpf.W64;
    var v := ReadReg(value, w, ptr.next);
    var v := if bits < w.Bits() then v.Casted(Trunc, bits) else v;
    ptr.Then(v).Do(StoreMem(v.val, bits, ptr.val))
  }

  function StoreImmPiece(bits: nat, imm: int, base: Bpf.Reg, off: int, id: nat): Piece {
    var ptr := Pointer(base, off, id);
    ptr.Do(StoreMem(Const(bits, Wrap(bits, imm)), bits, ptr.val))
  }

  function RmwOpcode(op: Bpf.AtomicOp): RmwOp {
    match op
    case AAdd => RmwAdd
    case AAnd => RmwAnd
    case AOr => RmwOr
    case AXor => RmwXor
    case AXchg => RmwXchg
  }

  function AtomicPiece(op: Bpf.AtomicOp, w: Bpf.Width, fetch: bool, value: Bpf.Reg, base: Bpf.Reg, off: int,
                       id: nat): Piece {
    var ptr := Pointer(base, off, id);
    var v := ReadReg(value, w, ptr.next);
    var p := ptr.Then(v).Def(AtomicRmw(v.next, RmwOpcode(op), w.Bits(), ptr.val, v.val));
    if fetch then p.Then(WriteReg(value, w, p.val, p.next)) else p
  }

  function CompareExchangePiece(w: Bpf.Width, value: Bpf.Reg, base: Bpf.Reg, off: int, id: nat): Piece {
    var ptr := Pointer(base, off, id);
    var e := ReadReg(Bpf.R0, w, ptr.next);
    var v := ReadReg(value, w, e.next);
    var p := ptr.Then(e).Then(v).Def(CmpXchg(v.next, w.Bits(), ptr.val, e.val, v.val));
    p.Then(WriteReg(Bpf.R0, w, p.val, p.next))
  }

  // ---- calls ----

  function ReadArgs(n: nat, id: nat): Piece
    requires n <= 5
  {
    if n == 0 then Start(id) else ReadArgs(n - 1, id).Then(ReadReg(n, Bpf.W64, id + n - 1))
  }

  /** Give registers 1..n fresh unspecified values. */
  function Clobber(n: nat, id: nat, off: nat): Piece
    requires n <= 5
  {
    if n == 0 then Start(id)
    else
      Clobber(n - 1, id, off)
      .Def(LoadUnspecified(id + n - 1, 64, off + 8 * (n - 1)))
      .Do(StoreCell(Ref(id + n - 1), RegCell(n)))
  }

  function CallPiece(helper: int, id: nat, off: nat): Piece {
    ReadArgs(5, id)
    .Do(CallHelper(id + 5, helper, [Ref(id), Ref(id + 1), Ref(id + 2), Ref(id + 3), Ref(id + 4)]))
    .Then(Clobber(5, id + 6, off))
    .Do(StoreCell(Ref(id + 5), RegCell(Bpf.R0)))
  }

  // ---- terminators ----

  function Predicate(c: Bpf.Cond): Pred {
    match c
    case Eq => Ir.Eq
    case Ne => Ir.Ne
    case Ugt => Ir.Ugt
    case Uge => Ir.Uge
    case Ult => Ir.Ult
    case Ule => Ir.Ule
    case Sgt => Ir.Sgt
    case Sge => Ir.Sge
    case Slt => Ir.Slt
    case Sle => Ir.Sle
    case Set => Ir.Ne
  }

  function ConditionPiece(cond: Bpf.Cond, w: Bpf.Width, lhs: Bpf.Reg, rhs: Bpf.Operand, id: nat): Piece {
    var bits := w.Bits();
    var pa := ReadReg(lhs, w, id);
    var pb := ReadOperand(rhs, w, pa.next);
    var p := pa.Then(pb);
    if cond.Set? then
      var p := p.Def(Binary(p.next, And, bits, pa.val, pb.val));
      p.Def(ICmp(p.next, Ir.Ne, bits, p.val, Const(bits, 0)))
    else
      p.Def(ICmp(p.next, Predicate(cond), bits, pa.val, pb.val))
  }

  /** The whole code of a non-branching instruction, appended when the function has
      `base` blocks. */
  function DataFragment(i: Bpf.Insn, id: nat, off: nat, base: nat): Fragment
    requires !i.IsTerminator()
  {
    if i.IsRegisterOp() && !i.Alu? then Straight(RegisterPiece(i, id), off)
    else match i
      case Alu(op, w, dst, src) => AluFragment(op, w, dst, src, id, off, base)
      case LoadMem(size, sext, wDest, dst, b, o) => Straight(LoadPiece(size, sext, wDest, dst, b, o, id), off)
      case StoreMem(size, wSrc, v, b, o) => Straight(StorePiece(size.Bits(), wSrc, v, b, o, id), off)
      case StoreImm(size, imm, b, o) => Straight(StoreImmPiece(size.Bits(), imm, b, o, id), off)
      case Atomic(op, w, fetch, v, b, o) => Straight(AtomicPiece(op, w, fetch, v, b, o, id), off)
      case CompareExchange(w, v, b, o) => Straight(CompareExchangePiece(w, v, b, o, id), off)
      case Call(_, imm) => Straight(CallPiece(imm, id, off), off + 40)
      case _ => Straight(Start(id), off)
  }
}
