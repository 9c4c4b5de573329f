/** The names that the code of one instruction defines and uses: it defines the next unused ones in order,
    and uses those that it has defined. */
module Numbering {
  import opened Options
  import opened Words
  import opened Ir
  import opened Codegen
  import opened Abi
  import opened Prologue
  import Bpf

  // ---------------------------------------------------------------- definitions and uses

  /** The name an instruction defines; the storage of a division's result is named like a value. */
  function DefOf(i: Inst): Option<nat> {
    match i
    case Binary(id, _, _, _, _) => Some(id)
    case ICmp(id, _, _, _, _) => Some(id)
    case Cast(id, _, _, _) => Some(id)
    case BSwap(id, _, _) => Some(id)
    case Alloca(cell) => if cell.ResultCell? then Some(cell.site) else None
    case FrameAlloc(id) => Some(id)
    case LoadCell(id, _, _) => Some(id)
    case StoreCell(_, _) => None
    case Gep(id, _, _) => Some(id)
    case LoadMem(id, _, _) => Some(id)
    case StoreMem(_, _, _) => None
    case LoadUnspecified(id, _, _) => Some(id)
    case AtomicRmw(id, _, _, _, _) => Some(id)
    case CmpXchg(id, _, _, _, _) => Some(id)
    case CallHelper(id, _, _) => Some(id)
  }

  predicate UsesName(i: Inst, x: nat) {
    match i
    case Binary(_, _, _, a, b) => a == Ref(x) || b == Ref(x)
    case ICmp(_, _, _, a, b) => a == Ref(x) || b == Ref(x)
    case Cast(_, _, a, _) => a == Ref(x)
    case BSwap(_, _, a) => a == Ref(x)
    case Alloca(_) => false
    case FrameAlloc(_) => false
    case LoadCell(_, _, cell) => cell == ResultCell(x)
    case StoreCell(v, cell) => v == Ref(x) || cell == ResultCell(x)
    case Gep(_, base, off) => base == Ref(x) || off == Ref(x)
    case LoadMem(_, _, ptr) => ptr == Ref(x)
    case StoreMem(v, _, ptr) => v == Ref(x) || ptr == Ref(x)
    case LoadUnspecified(_, _, _) => false
    case AtomicRmw(_, _, _, ptr, v) => ptr == Ref(x) || v == Ref(x)
    case CmpXchg(_, _, ptr, expected, v) => ptr == Ref(x) || expected == Ref(x) || v == Ref(x)
    case CallHelper(_, _, args) => Ref(x) in args
  }

  predicate TermUses(t: Term, x: nat) {
    match t
    case Goto(_) => false
    case CondGoto(c, _, _) => c == Ref(x)
    case Return(v) => v == Ref(x)
  }

  // ---------------------------------------------------------------- numbered code

  /** The next unused name after the code. */
  function NextName(code: seq<Inst>, id: nat): nat {
    if code == [] then id
    else NextName(code[..|code| - 1], id) + if DefOf(code[|code| - 1]).Some? then 1 else 0
  }

  /** Names that code may use: some defined elsewhere, and those defined from `from` on. */
  datatype Scope = Scope(lo: nat, hi: nat, from: nat) {
    predicate Has(x: nat, n: nat) { lo <= x < hi || from <= x < n }
  }

  function Own(id: nat): Scope { Scope(0, 0, id) }

  predicate ValWithin(v: Val, sc: Scope, n: nat) { v.Ref? ==> sc.Has(v.id, n) }

  predicate CellWithin(cell: Cell, sc: Scope, n: nat) { cell.ResultCell? ==> sc.Has(cell.site, n) }

  /** The names that the instruction uses are in scope when `n` is the next unused name. */
  predicate UsesWithin(i: Inst, sc: Scope, n: nat) {
    match i
    case Binary(_, _, _, a, b) => ValWithin(a, sc, n) && ValWithin(b, sc, n)
    case ICmp(_, _, _, a, b) => ValWithin(a, sc, n) && ValWithin(b, sc, n)
    case Cast(_, _, a, _) => ValWithin(a, sc, n)
    case BSwap(_, _, a) => ValWithin(a, sc, n)
    case Alloca(_) => true
    case FrameAlloc(_) => true
    case LoadCell(_, _, cell) => CellWithin(cell, sc, n)
    case StoreCell(v, cell) => ValWithin(v, sc, n) && CellWithin(cell, sc, n)
    case Gep(_, base, off) => ValWithin(base, sc, n) && ValWithin(off, sc, n)
    case LoadMem(_, _, ptr) => ValWithin(ptr, sc, n)
    case StoreMem(v, _, ptr) => ValWithin(v, sc, n) && ValWithin(ptr, sc, n)
    case LoadUnspecified(_, _, _) => true
    case AtomicRmw(_, _, _, ptr, v) => ValWithin(ptr, sc, n) && ValWithin(v, sc, n)
    case CmpXchg(_, _, ptr, expected, v) => ValWithin(ptr, sc, n) && ValWithin(expected, sc, n) && ValWithin(v, sc, n)
    case CallHelper(_, _, args) => forall v <- args :: ValWithin(v, sc, n)
  }

  lemma UsedWithin(i: Inst, sc: Scope, n: nat, x: nat)
    requires UsesWithin(i, sc, n) && UsesName(i, x)
    ensures sc.Has(x, n)
  {
  }

  /** The code defines the names from `id` on, one after the other, and uses names in scope. */
  predicate Numbered(code: seq<Inst>, id: nat, sc: Scope) {
    code != [] ==>
      var front, last := code[..|code| - 1], code[|code| - 1];
      && Numbered(front, id, sc)
      && UsesWithin(last, sc, NextName(front, id))
      && (DefOf(last).Some? ==> DefOf(last).value == NextName(front, id))
  }

  predicate Made(p: Piece, id: nat, sc: Scope) {
    sc.from <= id <= p.next && Numbered(p.code, id, sc) && p.next == NextName(p.code, id) && ValWithin(p.val, sc, p.next)
  }

  lemma {:induction false} Snoc(code: seq<Inst>, i: Inst, id: nat, sc: Scope)
    ensures NextName(code + [i], id) == NextName(code, id) + if DefOf(i).Some? then 1 else 0
    ensures Numbered(code + [i], id, sc) <==>
              Numbered(code, id, sc) && UsesWithin(i, sc, NextName(code, id)) && (DefOf(i).Some? ==> DefOf(i).value == NextName(code, id))
  {
    assert (code + [i])[..|code|] == code;
  }

  lemma {:induction false} Joined(c1: seq<Inst>, c2: seq<Inst>, id: nat, sc: Scope)
    requires Numbered(c1, id, sc) && Numbered(c2, NextName(c1, id), sc)
    ensures Numbered(c1 + c2, id, sc) && NextName(c1 + c2, id) == NextName(c2, NextName(c1, id))
    decreases |c2|
  {
    if c2 == [] {
      assert c1 + c2 == c1;
    } else {
      var front, last := c2[..|c2| - 1], c2[|c2| - 1];
      assert c2 == front + [last] && c1 + c2 == (c1 + front) + [last];
      hide UsesWithin, DefOf, Numbered, NextName;
      Snoc(front, last, NextName(c1, id), sc);
      Joined(c1, front, id, sc);
      Snoc(c1 + front, last, id, sc);
    }
  }

  lemma {:induction false} NamesGoUp(code: seq<Inst>, id: nat)
    ensures id <= NextName(code, id)
    decreases |code|
  {
    if code != [] { NamesGoUp(code[..|code| - 1], id); }
  }

  // ---------------------------------------------------------------- pieces put together

  lemma StartMade(id: nat, sc: Scope)
    requires sc.from <= id
    ensures Made(Start(id), id, sc)
  {
  }

  lemma {:induction false} DoMade(p: Piece, i: Inst, id: nat, sc: Scope)
    requires Made(p, id, sc) && DefOf(i).None? && UsesWithin(i, sc, p.next)
    ensures Made(p.Do(i), id, sc)
  {
    Snoc(p.code, i, id, sc);
    hide Numbered, NextName, UsesWithin, DefOf;
  }

  lemma {:induction false} DefMade(p: Piece, i: Inst, id: nat, sc: Scope)
    requires Made(p, id, sc) && DefOf(i) == Some(p.next) && UsesWithin(i, sc, p.next)
    ensures Made(p.Def(i), id, sc)
  {
    Snoc(p.code, i, id, sc);
    hide Numbered, NextName, UsesWithin, DefOf;
  }

  lemma {:induction false} CastedMade(p: Piece, k: CastKind, to: nat, id: nat, sc: Scope)
    requires Made(p, id, sc)
    ensures Made(p.Casted(k, to), id, sc)
  {
    hide Numbered, NextName;
    DefMade(p, Cast(p.next, k, p.val, to), id, sc);
  }

  lemma {:induction false} ThenMade(p: Piece, q: Piece, id: nat, sc: Scope)
    requires Made(p, id, sc) && Made(q, p.next, sc)
    ensures Made(p.Then(q), id, sc)
  {
    Joined(p.code, q.code, id, sc);
    hide Numbered, NextName;
  }

  // ---------------------------------------------------------------- the pieces of the lifter

  lemma {:induction false} ReadRegMade(r: Bpf.Reg, w: Bpf.Width, id: nat, sc: Scope)
    requires sc.from <= id
    ensures Made(ReadReg(r, w, id), id, sc)
    ensures ReadReg(r, w, id).next == id + (if w.W32? then 2 else 1)
  {
    StartMade(id, sc);
    var load := LoadCell(id, 64, RegCell(r));
    var p := Start(id).Def(load);
    DefMade(Start(id), load, id, sc);
    hide Made;
    if w.W32? { CastedMade(p, Trunc, 32, id, sc); }
  }

  lemma {:induction false} ReadOperandMade(s: Bpf.Operand, w: Bpf.Width, id: nat, sc: Scope)
    requires sc.from <= id
    ensures Made(ReadOperand(s, w, id), id, sc)
  {
    if s.RegOp? { ReadRegMade(s.reg, w, id, sc); }
  }

  lemma {:induction false} WriteRegMade(r: Bpf.Reg, w: Bpf.Width, v: Val, id: nat, sc: Scope)
    requires sc.from <= id && ValWithin(v, sc, id)
    ensures Made(WriteReg(r, w, v, id), id, sc)
  {
    var p := Piece([], v, id);
    assert Made(p, id, sc);
    if w.W32? { CastedMade(p, ZExt, 64, id, sc); }
    var q := if w.W32? then p.Casted(ZExt, 64) else p;
    DoMade(q, StoreCell(q.val, RegCell(r)), id, sc);
  }

  lemma {:induction false} PointerMade(base: Bpf.Reg, off: int, id: nat, sc: Scope)
    requires sc.from <= id
    ensures Made(Pointer(base, off, id), id, sc)
  {
    var p := ReadReg(base, Bpf.W64, id);
    ReadRegMade(base, Bpf.W64, id, sc);
    DefMade(p, Gep(p.next, p.val, Const(64, Wrap(64, off))), id, sc);
  }

  /** Two operands, read one after the other. */
  lemma {:induction false} OperandsMade(a: Bpf.Reg, s: Bpf.Operand, w: Bpf.Width, id: nat, sc: Scope)
    requires sc.from <= id
    ensures var pa := ReadReg(a, w, id);
            var pb := ReadOperand(s, w, pa.next);
            Made(pa.Then(pb), id, sc) && ValWithin(pa.val, sc, pb.next) && ValWithin(pb.val, sc, pb.next)
  {
    var pa := ReadReg(a, w, id);
    ReadRegMade(a, w, id, sc);
    ReadOperandMade(s, w, pa.next, sc);
    ThenMade(pa, ReadOperand(s, w, pa.next), id, sc);
  }

  lemma {:induction false} BinaryMade(p: Piece, op: BinOp, bits: nat, a: Val, b: Val, id: nat, sc: Scope)
    requires Made(p, id, sc) && ValWithin(a, sc, p.next) && ValWithin(b, sc, p.next)
    ensures Made(p.Def(Binary(p.next, op, bits, a, b)), id, sc)
  {
    hide Numbered, NextName;
    DefMade(p, Binary(p.next, op, bits, a, b), id, sc);
  }

  lemma {:induction false} ArithMade(op: Bpf.AluOp, bits: nat, a: Val, b: Val, id: nat, sc: Scope)
    requires bits > 0 && sc.from <= id && ValWithin(a, sc, id) && ValWithin(b, sc, id)
    ensures Made(Arith(op, bits, a, b, id), id, sc)
  {
    hide Made, Opcode;
    StartMade(id, sc);
    if IsShift(op) {
      BinaryMade(Start(id), And, bits, Const(bits, bits - 1), b, id, sc);
      BinaryMade(Start(id).Def(Binary(id, And, bits, Const(bits, bits - 1), b)), Opcode(op), bits, a, Ref(id), id, sc);
    } else {
      BinaryMade(Start(id), Opcode(op), bits, a, b, id, sc);
    }
  }

  /** A piece whose value is written to a register. */
  lemma {:induction false} WrittenMade(p: Piece, r: Bpf.Reg, w: Bpf.Width, id: nat, sc: Scope)
    requires Made(p, id, sc)
    ensures Made(p.Then(WriteReg(r, w, p.val, p.next)), id, sc)
  {
    WriteRegMade(r, w, p.val, p.next, sc);
    ThenMade(p, WriteReg(r, w, p.val, p.next), id, sc);
  }

  lemma {:induction false} PlainAluMade(op: Bpf.AluOp, w: Bpf.Width, dst: Bpf.Reg, src: Bpf.Operand, id: nat, off: nat,
                                        base: nat)
    requires !IsDivision(op)
    ensures var fr := AluFragment(op, w, dst, src, id, off, base);
            fr.split.None? && Numbered(fr.head, id, Own(id)) && fr.next == NextName(fr.head, id)
  {
    var pa := ReadReg(dst, w, id);
    var pb := ReadOperand(src, w, pa.next);
    var operands := pa.Then(pb);
    OperandsMade(dst, src, w, id, Own(id));
    ArithMade(op, w.Bits(), pa.val, pb.val, pb.next, Own(id));
    var arith := Arith(op, w.Bits(), pa.val, pb.val, pb.next);
    hide ReadReg, ReadOperand, Arith, WriteReg, IsDivision, Numbered, NextName;
    ThenMade(operands, arith, id, Own(id));
    WrittenMade(operands.Then(arith), dst, w, id, Own(id));
  }

  lemma {:induction false} NegMade(w: Bpf.Width, dst: Bpf.Reg, id: nat)
    ensures Made(NegPiece(w, dst, id), id, Own(id))
  {
    var v := ReadReg(dst, w, id);
    ReadRegMade(dst, w, id, Own(id));
    hide ReadReg, Numbered, NextName;
    var sub := Binary(v.next, Sub, w.Bits(), Const(w.Bits(), 0), v.val);
    DefMade(v, sub, id, Own(id));
    WrittenMade(v.Def(sub), dst, w, id, Own(id));
  }

  lemma {:induction false} MoveMade(w: Bpf.Width, dst: Bpf.Reg, s: Bpf.Operand, id: nat)
    ensures Made(MovePiece(w, dst, s, id), id, Own(id))
  {
    ReadOperandMade(s, w, id, Own(id));
    WrittenMade(ReadOperand(s, w, id), dst, w, id, Own(id));
  }

  lemma {:induction false} MovSextMade(w: Bpf.Width, size: Bpf.Size, dst: Bpf.Reg, from: Bpf.Reg, id: nat)
    ensures Made(MovSextPiece(w, size, dst, from, id), id, Own(id))
  {
    var r := ReadReg(from, if size.Word? then Bpf.W32 else w, id);
    ReadRegMade(from, if size.Word? then Bpf.W32 else w, id, Own(id));
    hide ReadReg, Made;
    var v := if size.Word? then r else r.Casted(Trunc, size.Bits());
    CastedMade(r, Trunc, size.Bits(), id, Own(id));
    CastedMade(v, SExt, w.Bits(), id, Own(id));
    WrittenMade(v.Casted(SExt, w.Bits()), dst, w, id, Own(id));
  }

  lemma {:induction false} SwapMade(p: Piece, bits: nat, id: nat, sc: Scope)
    requires Made(p, id, sc)
    ensures Made(p.Def(BSwap(p.next, bits, p.val)), id, sc)
  {
    hide Numbered, NextName;
    DefMade(p, BSwap(p.next, bits, p.val), id, sc);
  }

  lemma {:induction false} EndianMade(swap: bool, size: Bpf.Size, dst: Bpf.Reg, id: nat)
    ensures Made(EndianPiece(swap, size, dst, id), id, Own(id))
  {
    hide ReadReg, Made, WriteReg;
    var p0 := ReadReg(dst, Bpf.W64, id);
    ReadRegMade(dst, Bpf.W64, id, Own(id));
    var p1 := if size.Bits() < 64 then p0.Casted(Trunc, size.Bits()) else p0;
    CastedMade(p0, Trunc, size.Bits(), id, Own(id));
    var p2 := if swap then p1.Def(BSwap(p1.next, size.Bits(), p1.val)) else p1;
    SwapMade(p1, size.Bits(), id, Own(id));
    var p3 := if size.Bits() < 64 then p2.Casted(ZExt, 64) else p2;
    CastedMade(p2, ZExt, 64, id, Own(id));
    WrittenMade(p3, dst, Bpf.W64, id, Own(id));
  }

  lemma {:induction false} RegisterMade(i: Bpf.Insn, id: nat)
    requires i.IsRegisterOp() && !i.Alu?
    ensures Made(RegisterPiece(i, id), id, Own(id))
  {
    hide Made;
    match i
    case Neg(w, dst) => NegMade(w, dst, id);
    case Mov(w, dst, s) => MoveMade(w, dst, s, id);
    case MovZext(dst, from) => MoveMade(Bpf.W32, dst, Bpf.RegOp(from), id);
    case MovSext(w, size, dst, from) => MovSextMade(w, size, dst, from, id);
    case LoadImm64(dst, imm) => WriteRegMade(dst, Bpf.W64, Const(64, imm), id, Own(id));
    case Endian(swap, size, dst) => EndianMade(swap, size, dst, id);
  }

  lemma {:induction false} LoadMade(size: Bpf.Size, sext: bool, wDest: bool, dst: Bpf.Reg, base: Bpf.Reg, off: int, id: nat)
    ensures Made(LoadPiece(size, sext, wDest, dst, base, off, id), id, Own(id))
  {
    var ptr := Pointer(base, off, id);
    PointerMade(base, off, id, Own(id));
    var load := LoadMem(ptr.next, size.Bits(), ptr.val);
    hide Pointer, Numbered, NextName;
    DefMade(ptr, load, id, Own(id));
    hide Made;
    var p := ptr.Def(load);
    CastedMade(p, ZExt, 32, id, Own(id));
    CastedMade(p, ZExt, 64, id, Own(id));
    CastedMade(p, SExt, 64, id, Own(id));
    WrittenMade(p, dst, Bpf.W32, id, Own(id));
    WrittenMade(p, dst, Bpf.W64, id, Own(id));
    WrittenMade(p.Casted(ZExt, 32), dst, Bpf.W32, id, Own(id));
    WrittenMade(p.Casted(ZExt, 64), dst, Bpf.W64, id, Own(id));
    WrittenMade(p.Casted(SExt, 64), dst, Bpf.W64, id, Own(id));
  }

  lemma {:induction false} WrittenToMade(p: Piece, v: Val, bits: nat, ptr: Val, id: nat, sc: Scope)
    requires Made(p, id, sc) && ValWithin(v, sc, p.next) && ValWithin(ptr, sc, p.next)
    ensures Made(p.Do(Inst.StoreMem(v, bits, ptr)), id, sc)
  {
    hide Numbered, NextName;
    DoMade(p, Inst.StoreMem(v, bits, ptr), id, sc);
  }

  lemma {:induction false} StoreMade(bits: nat, wSrc: bool, value: Bpf.Reg, base: Bpf.Reg, off: int, id: nat)
    ensures Made(StorePiece(bits, wSrc, value, base, off, id), id, Own(id))
  {
    hide Made, Pointer, ReadReg, ValWithin;
    var ptr := Pointer(base, off, id);
    var w := if wSrc then Bpf.W32 else Bpf.W64;
    var r := ReadReg(value, w, ptr.next);
    PointerMade(base, off, id, Own(id));
    NextGoesUp(ptr, id, Own(id));
    ReadRegMade(value, w, ptr.next, Own(id));
    CastedMade(r, Trunc, bits, ptr.next, Own(id));
    var v := if bits < w.Bits() then r.Casted(Trunc, bits) else r;
    NextGoesUp(v, ptr.next, Own(id));
    ThenMade(ptr, v, id, Own(id));
    ValueStays(ptr, id, Own(id), v.next);
    ValueStays(v, ptr.next, Own(id), v.next);
    WrittenToMade(ptr.Then(v), v.val, bits, ptr.val, id, Own(id));
  }

  lemma {:induction false} StoreImmMade(bits: nat, imm: int, base: Bpf.Reg, off: int, id: nat)
    ensures Made(StoreImmPiece(bits, imm, base, off, id), id, Own(id))
  {
    hide Made, Pointer, Words.Wrap;
    PointerMade(base, off, id, Own(id));
    var p := Pointer(base, off, id);
    ValueStays(p, id, Own(id), p.next);
    WrittenToMade(p, Const(bits, Wrap(bits, imm)), bits, p.val, id, Own(id));
  }

  lemma {:induction false} ModifiedMade(p: Piece, op: RmwOp, bits: nat, ptr: Val, v: Val, id: nat, sc: Scope)
    requires Made(p, id, sc) && ValWithin(ptr, sc, p.next) && ValWithin(v, sc, p.next)
    ensures Made(p.Def(AtomicRmw(p.next, op, bits, ptr, v)), id, sc)
  {
    hide Numbered, NextName;
    DefMade(p, AtomicRmw(p.next, op, bits, ptr, v), id, sc);
  }

  lemma {:induction false} AtomicMade(op: Bpf.AtomicOp, w: Bpf.Width, fetch: bool, value: Bpf.Reg, base: Bpf.Reg,
                                      off: int, id: nat)
    ensures Made(AtomicPiece(op, w, fetch, value, base, off, id), id, Own(id))
  {
    hide Made, Pointer, ReadReg, WriteReg, ValWithin, RmwOpcode;
    var ptr := Pointer(base, off, id);
    var v := ReadReg(value, w, ptr.next);
    PointerMade(base, off, id, Own(id));
    NextGoesUp(ptr, id, Own(id));
    ReadRegMade(value, w, ptr.next, Own(id));
    NextGoesUp(v, ptr.next, Own(id));
    ThenMade(ptr, v, id, Own(id));
    ValueStays(ptr, id, Own(id), v.next);
    ValueStays(v, ptr.next, Own(id), v.next);
    ModifiedMade(ptr.Then(v), RmwOpcode(op), w.Bits(), ptr.val, v.val, id, Own(id));
    WrittenMade(ptr.Then(v).Def(AtomicRmw(v.next, RmwOpcode(op), w.Bits(), ptr.val, v.val)), value, w, id, Own(id));
  }

  lemma {:induction false} ExchangedMade(p: Piece, bits: nat, ptr: Val, e: Val, v: Val, id: nat, sc: Scope)
    requires Made(p, id, sc) && ValWithin(ptr, sc, p.next) && ValWithin(e, sc, p.next) && ValWithin(v, sc, p.next)
    ensures Made(p.Def(CmpXchg(p.next, bits, ptr, e, v)), id, sc)
  {
    hide Numbered, NextName;
    DefMade(p, CmpXchg(p.next, bits, ptr, e, v), id, sc);
  }

  lemma ValueStays(p: Piece, id: nat, sc: Scope, n: nat)
    requires Made(p, id, sc) && p.next <= n
    ensures ValWithin(p.val, sc, n)
  {
  }

  lemma {:induction false} CompareExchangeMade(w: Bpf.Width, value: Bpf.Reg, base: Bpf.Reg, off: int, id: nat)
    ensures Made(CompareExchangePiece(w, value, base, off, id), id, Own(id))
  {
    hide Made, Pointer, ReadReg, WriteReg, ValWithin;
    var ptr := Pointer(base, off, id);
    var e := ReadReg(Bpf.R0, w, ptr.next);
    var v := ReadReg(value, w, e.next);
    PointerMade(base, off, id, Own(id));
    NextGoesUp(ptr, id, Own(id));
    ReadRegMade(Bpf.R0, w, ptr.next, Own(id));
    NextGoesUp(e, ptr.next, Own(id));
    ReadRegMade(value, w, e.next, Own(id));
    NextGoesUp(v, e.next, Own(id));
    ThenMade(ptr, e, id, Own(id));
    ThenMade(ptr.Then(e), v, id, Own(id));
    ValueStays(ptr, id, Own(id), v.next);
    ValueStays(e, ptr.next, Own(id), v.next);
    ValueStays(v, e.next, Own(id), v.next);
    var p := ptr.Then(e).Then(v);
    ExchangedMade(p, w.Bits(), ptr.val, e.val, v.val, id, Own(id));
    WrittenMade(p.Def(CmpXchg(v.next, w.Bits(), ptr.val, e.val, v.val)), Bpf.R0, w, id, Own(id));
  }

  lemma NextGoesUp(p: Piece, id: nat, sc: Scope)
    requires Made(p, id, sc)
    ensures sc.from <= id <= p.next
  {
  }

  lemma {:induction false} ReadArgsMade(n: nat, id: nat)
    requires n <= 5
    ensures Made(ReadArgs(n, id), id, Own(id)) && ReadArgs(n, id).next == id + n
    decreases n
  {
    hide ReadReg, Made;
    StartMade(id, Own(id));
    if n > 0 {
      assert ReadArgs(n, id) == ReadArgs(n - 1, id).Then(ReadReg(n, Bpf.W64, id + n - 1));
      hide ReadArgs;
      ReadArgsMade(n - 1, id);
      ReadRegMade(n, Bpf.W64, id + n - 1, Own(id));
      ThenMade(ReadArgs(n - 1, id), ReadReg(n, Bpf.W64, id + n - 1), id, Own(id));
    }
  }

  lemma {:induction false} ClobberMade(n: nat, id: nat, off: nat, sc: Scope)
    requires n <= 5 && sc.from <= id
    ensures Made(Clobber(n, id, off), id, sc) && Clobber(n, id, off).next == id + n
    decreases n
  {
    hide Made;
    StartMade(id, sc);
    if n > 0 {
      var p := Clobber(n - 1, id, off);
      assert Clobber(n, id, off)
          == p.Def(LoadUnspecified(id + n - 1, 64, off + 8 * (n - 1))).Do(StoreCell(Ref(id + n - 1), RegCell(n)));
      hide Clobber;
      ClobberMade(n - 1, id, off, sc);
      FilledMade(p, off + 8 * (n - 1), n, id, sc);
    }
  }

  /** A register given an unspecified value. */
  lemma {:induction false} FilledMade(p: Piece, at: nat, r: Bpf.Reg, id: nat, sc: Scope)
    requires Made(p, id, sc)
    ensures Made(p.Def(LoadUnspecified(p.next, 64, at)).Do(StoreCell(Ref(p.next), RegCell(r))), id, sc)
  {
    hide Numbered, NextName;
    var load := LoadUnspecified(p.next, 64, at);
    DefMade(p, load, id, sc);
    DoMade(p.Def(load), StoreCell(Ref(p.next), RegCell(r)), id, sc);
  }

  lemma {:induction false} CallMade(helper: int, id: nat, off: nat)
    ensures Made(CallPiece(helper, id, off), id, Own(id))
  {
    hide Made, CallPiece, ReadArgs, Clobber, Called;
    CallParts(helper, id, off);
    ReadArgsMade(5, id);
    CalledMade(ReadArgs(5, id), helper, id);
    var p := Called(ReadArgs(5, id), helper, id);
    ClobberMade(5, id + 6, off, Own(id));
    ThenMade(p, Clobber(5, id + 6, off), id, Own(id));
    CellStoredMade(p.Then(Clobber(5, id + 6, off)), Ref(id + 5), RegCell(Bpf.R0), id, Own(id));
  }

  function Called(p: Piece, helper: int, id: nat): Piece {
    p.Do(CallHelper(id + 5, helper, [Ref(id), Ref(id + 1), Ref(id + 2), Ref(id + 3), Ref(id + 4)])).(next := id + 6)
  }

  lemma {:induction false} CallParts(helper: int, id: nat, off: nat)
    ensures CallPiece(helper, id, off)
            == Called(ReadArgs(5, id), helper, id).Then(Clobber(5, id + 6, off)).Do(StoreCell(Ref(id + 5), RegCell(Bpf.R0)))
  {
    hide ReadArgs, Clobber;
  }

  lemma {:induction false} CalledMade(p: Piece, helper: int, id: nat)
    requires Made(p, id, Own(id)) && p.next == id + 5
    ensures Made(Called(p, helper, id), id, Own(id)) && Called(p, helper, id).next == id + 6
  {
    hide Numbered, NextName;
    DefMade(p, CallHelper(id + 5, helper, [Ref(id), Ref(id + 1), Ref(id + 2), Ref(id + 3), Ref(id + 4)]), id, Own(id));
  }

  lemma {:induction false} ConditionMade(cond: Bpf.Cond, w: Bpf.Width, lhs: Bpf.Reg, rhs: Bpf.Operand, id: nat)
    ensures Made(ConditionPiece(cond, w, lhs, rhs, id), id, Own(id))
  {
    var bits := w.Bits();
    var pa := ReadReg(lhs, w, id);
    var pb := ReadOperand(rhs, w, pa.next);
    var p := pa.Then(pb);
    OperandsMade(lhs, rhs, w, id, Own(id));
    hide ReadReg, ReadOperand, Numbered, NextName;
    if cond.Set? {
      var mask := Binary(p.next, And, bits, pa.val, pb.val);
      DefMade(p, mask, id, Own(id));
      var q := p.Def(mask);
      DefMade(q, ICmp(q.next, Ir.Ne, bits, q.val, Const(bits, 0)), id, Own(id));
    } else {
      DefMade(p, ICmp(p.next, Predicate(cond), bits, pa.val, pb.val), id, Own(id));
    }
  }

  /** The code of every instruction but the checked divisions and the terminators. */
  lemma {:induction false} StraightMade(i: Bpf.Insn, id: nat, off: nat, base: nat)
    requires !i.IsTerminator() && (i.Alu? ==> !IsDivision(i.op))
    ensures var fr := DataFragment(i, id, off, base);
            fr.split.None? && Numbered(fr.head, id, Own(id)) && fr.next == NextName(fr.head, id)
  {
    StartMade(id, Own(id));
    if i.IsRegisterOp() && !i.Alu? {
      RegisterMade(i, id);
    } else if i.Alu? {
      PlainAluMade(i.op, i.w, i.dst, i.src, id, off, base);
    } else {
      hide Numbered, NextName;
      match i
      case LoadMem(size, sext, wDest, dst, b, o) => LoadMade(size, sext, wDest, dst, b, o, id);
      case StoreMem(size, wSrc, v, b, o) => StoreMade(size.Bits(), wSrc, v, b, o, id);
      case StoreImm(size, imm, b, o) => StoreImmMade(size.Bits(), imm, b, o, id);
      case Atomic(op, w, fetch, v, b, o) => AtomicMade(op, w, fetch, v, b, o, id);
      case CompareExchange(w, v, b, o) => CompareExchangeMade(w, v, b, o, id);
      case Call(_, imm) => CallMade(imm, id, off);
      case _ =>
    }
  }

  // ---------------------------------------------------------------- checked divisions

  /** The name that is unused when block k of the list begins. */
  function NameBefore(bs: seq<Block>, k: nat, id: nat): nat
    requires k <= |bs|
    decreases k
  {
    if k == 0 then id else NextName(bs[k - 1].insts, NameBefore(bs, k - 1, id))
  }

  /** The block defines the names from `id` on, and uses them and those between lo and hi. */
  predicate BlockMade(b: Block, id: nat, lo: nat, hi: nat) {
    && Numbered(b.insts, id, Scope(lo, hi, id))
    && (b.term.Some? && b.term.value.CondGoto? ==> ValWithin(b.term.value.cond, Own(id), NextName(b.insts, id)))
    && (b.term.Some? ==> !b.term.value.Return?)
  }

  predicate BlocksMade(bs: seq<Block>, id: nat, lo: nat, hi: nat) {
    forall k :: 0 <= k < |bs| ==> BlockMade(bs[k], NameBefore(bs, k, id), lo, hi)
  }

  /** The blocks that a fork adds. */
  function Added(s: Split): seq<Block> { s.arms + [Block("", s.tail, None)] }

  predicate GoesTo(t: Option<Term>, dst: nat) {
    match t
    case Some(Goto(d)) => d == dst
    case Some(CondGoto(_, ifTrue, ifFalse)) => ifTrue == dst || ifFalse == dst
    case _ => false
  }

  /** From the blocks added from `base` on, execution goes only to later ones of them. */
  ghost predicate Forward(bs: seq<Block>, base: nat) {
    forall k, t: nat :: 0 <= k < |bs| && GoesTo(bs[k].term, t) ==> base + k < t < base + |bs|
  }

  /** What one instruction appends: the names it defines are the next ones, and what its added blocks use from
      outside is defined in its head. */
  ghost predicate FragmentMade(fr: Fragment, id: nat, base: nat) {
    var hi := NextName(fr.head, id);
    && Numbered(fr.head, id, Own(id))
    && match fr.split
       case None => fr.next == hi
       case Some(s) =>
         && BlocksMade(Added(s), hi, id, hi) && fr.next == NameBefore(Added(s), |Added(s)|, hi)
         && s.exit.CondGoto? && ValWithin(s.exit.cond, Own(id), hi)
         && (forall t: nat :: GoesTo(Some(s.exit), t) ==> base <= t < base + |Added(s)|)
         && Forward(Added(s), base)
  }

  lemma {:induction false} AllocatedMade(p: Piece, id: nat, sc: Scope)
    requires Made(p, id, sc)
    ensures Made(p.(next := p.next + 1).Do(Alloca(ResultCell(p.next))), id, sc)
  {
    Snoc(p.code, Alloca(ResultCell(p.next)), id, sc);
    hide Numbered, NextName;
  }

  lemma {:induction false} CellStoredMade(p: Piece, v: Val, cell: Cell, id: nat, sc: Scope)
    requires Made(p, id, sc) && ValWithin(v, sc, p.next) && CellWithin(cell, sc, p.next)
    ensures Made(p.Do(StoreCell(v, cell)), id, sc)
  {
    hide Numbered, NextName;
    DoMade(p, StoreCell(v, cell), id, sc);
  }

  /** Storage for the result, with a value in it. */
  function WithResult(p: Piece, v: Val): Piece {
    p.(next := p.next + 1).Do(Alloca(ResultCell(p.next))).Do(StoreCell(v, ResultCell(p.next)))
  }

  lemma {:induction false} ResultMade(p: Piece, v: Val, id: nat, sc: Scope)
    requires Made(p, id, sc) && ValWithin(v, sc, p.next)
    ensures Made(WithResult(p, v), id, sc) && WithResult(p, v).next == p.next + 1
  {
    NextGoesUp(p, id, sc);
    AllocatedMade(p, id, sc);
    hide Made;
    CellStoredMade(p.(next := p.next + 1).Do(Alloca(ResultCell(p.next))), v, ResultCell(p.next), id, sc);
  }

  lemma {:induction false} HeadMade(op: Bpf.AluOp, bits: nat, before: Piece, a: Val, b: Val, id: nat)
    requires IsDivision(op) && Made(before, id, Own(id)) && ValWithin(a, Own(id), before.next) && ValWithin(b, Own(id), before.next)
    ensures var h := DivisionHead(op, bits, before, a, b);
            Made(h, id, Own(id)) && h.next == before.next + 2 && h.val == Ref(before.next + 1)
  {
    hide Made, DivisionHead, WithResult;
    HeadParts(op, bits, before, a, b);
    var ifZero := if op.Div? || op.SDiv? then Const(bits, 0) else a;
    ResultMade(before, ifZero, id, Own(id));
    ComparedMade(WithResult(before, ifZero), bits, b, 0, id, Own(id));
  }

  lemma HeadParts(op: Bpf.AluOp, bits: nat, before: Piece, a: Val, b: Val)
    requires IsDivision(op)
    ensures var ifZero := if op.Div? || op.SDiv? then Const(bits, 0) else a;
            DivisionHead(op, bits, before, a, b)
            == WithResult(before, ifZero).Def(ICmp(before.next + 1, Ir.Eq, bits, b, Const(bits, 0)))
  {
  }

  lemma {:induction false} DivideMade(op: Bpf.AluOp, bits: nat, a: Val, b: Val, cell: Cell, id: nat, sc: Scope)
    requires sc.from <= id && ValWithin(a, sc, id) && ValWithin(b, sc, id) && CellWithin(cell, sc, id)
    ensures var p := DividePiece(op, bits, a, b, cell, id);
            Numbered(p.code, id, sc) && NextName(p.code, id) == id + 1 == p.next
  {
    hide Opcode, Numbered, NextName;
    StartMade(id, sc);
    BinaryMade(Start(id), Opcode(op), bits, a, b, id, sc);
    DoMade(Start(id).Def(Binary(id, Opcode(op), bits, a, b)), StoreCell(Ref(id), cell), id, sc);
  }

  lemma {:induction false} ComparedMade(p: Piece, bits: nat, a: Val, n: nat, id: nat, sc: Scope)
    requires Made(p, id, sc) && ValWithin(a, sc, p.next)
    ensures Made(p.Def(ICmp(p.next, Ir.Eq, bits, a, Const(bits, n))), id, sc)
  {
    hide Numbered, NextName;
    DefMade(p, ICmp(p.next, Ir.Eq, bits, a, Const(bits, n)), id, sc);
  }

  lemma {:induction false} OverflowMade(bits: nat, min: nat, ones: nat, a: Val, b: Val, id: nat, sc: Scope)
    requires sc.from <= id && ValWithin(a, sc, id) && ValWithin(b, sc, id)
    ensures var p := OverflowCheck(bits, min, ones, a, b, id);
            Made(p, id, sc) && p.next == id + 3
  {
    hide Made;
    StartMade(id, sc);
    ComparedMade(Start(id), bits, a, min, id, sc);
    var p := Start(id).Def(ICmp(id, Ir.Eq, bits, a, Const(bits, min)));
    ComparedMade(p, bits, b, ones, id, sc);
    BinaryMade(p.Def(ICmp(id + 1, Ir.Eq, bits, b, Const(bits, ones))), And, 1, Ref(id), Ref(id + 1), id, sc);
  }

  lemma {:induction false} TailMade(op: Bpf.AluOp, w: Bpf.Width, dst: Bpf.Reg, cell: Cell, id: nat, sc: Scope)
    requires sc.from <= (if IsSigned(op) then id + 4 else id + 1)
    requires CellWithin(cell, sc, id)
    ensures Made(DivisionTail(op, w, dst, cell, id), if IsSigned(op) then id + 4 else id + 1, sc)
  {
    var at := if IsSigned(op) then id + 4 else id + 1;
    var p := Start(at).Def(LoadCell(at, w.Bits(), cell));
    StartMade(at, sc);
    hide Numbered, NextName;
    DefMade(Start(at), LoadCell(at, w.Bits(), cell), at, sc);
    WrittenMade(p, dst, w, at, sc);
  }

  lemma {:induction false} StoredAloneMade(v: Val, cell: Cell, id: nat, sc: Scope)
    requires ValWithin(v, sc, id) && CellWithin(cell, sc, id)
    ensures Numbered([StoreCell(v, cell)], id, sc) && NextName([StoreCell(v, cell)], id) == id
  {
    Snoc([], StoreCell(v, cell), id, sc);
    assert [] + [StoreCell(v, cell)] == [StoreCell(v, cell)];
  }

  /** The arms and the join of a checked division. */
  lemma {:induction false} TwoMade(b0: Block, b1: Block, id: nat, lo: nat, hi: nat)
    requires BlockMade(b0, id, lo, hi) && BlockMade(b1, NextName(b0.insts, id), lo, hi)
    ensures BlocksMade([b0] + [b1], id, lo, hi) && NameBefore([b0] + [b1], 2, id) == NextName(b1.insts, NextName(b0.insts, id))
  {
    hide BlockMade, NextName;
    var bs := [b0] + [b1];
    assert NameBefore(bs, 0, id) == id;
    assert NameBefore(bs, 1, id) == NextName(b0.insts, id);
  }

  lemma {:induction false} FourMade(arms: seq<Block>, b3: Block, id: nat, lo: nat, hi: nat, n1: nat, n2: nat, n3: nat)
    requires |arms| == 3 && BlockMade(arms[0], id, lo, hi) && NextName(arms[0].insts, id) == n1
    requires BlockMade(arms[1], n1, lo, hi) && NextName(arms[1].insts, n1) == n2
    requires BlockMade(arms[2], n2, lo, hi) && NextName(arms[2].insts, n2) == n3
    requires BlockMade(b3, n3, lo, hi)
    ensures BlocksMade(arms + [b3], id, lo, hi) && NameBefore(arms + [b3], |arms + [b3]|, id) == NextName(b3.insts, n3)
  {
    hide BlockMade, NextName;
    var bs := arms + [b3];
    assert NameBefore(bs, 0, id) == id;
    assert NameBefore(bs, 1, id) == n1;
    assert NameBefore(bs, 2, id) == n2;
    assert NameBefore(bs, 3, id) == n3;
  }

  /** The join of a checked division, as the block it starts. */
  lemma {:induction false} TailBlockMade(op: Bpf.AluOp, w: Bpf.Width, dst: Bpf.Reg, cell: Cell, id: nat, lo: nat, hi: nat)
    requires var at := if IsSigned(op) then id + 4 else id + 1; CellWithin(cell, Scope(lo, hi, at), id)
    ensures var at := if IsSigned(op) then id + 4 else id + 1;
            var p := DivisionTail(op, w, dst, cell, id);
            BlockMade(Block("", p.code, None), at, lo, hi) && NextName(p.code, at) == p.next
  {
    var at := if IsSigned(op) then id + 4 else id + 1;
    TailMade(op, w, dst, cell, id, Scope(lo, hi, at));
    hide DivisionTail, Numbered, NextName;
  }

  lemma {:induction false} DivideBlockMade(op: Bpf.AluOp, bits: nat, a: Val, b: Val, cell: Cell, dst: nat, id: nat,
                                           lo: nat, hi: nat)
    requires var sc := Scope(lo, hi, id); ValWithin(a, sc, id) && ValWithin(b, sc, id) && CellWithin(cell, sc, id)
    ensures var p := DividePiece(op, bits, a, b, cell, id);
            BlockMade(Block("", p.code, Some(Goto(dst))), id, lo, hi) && NextName(p.code, id) == id + 1
  {
    DivideMade(op, bits, a, b, cell, id, Scope(lo, hi, id));
    hide DividePiece, Numbered, NextName;
  }

  lemma {:induction false} OverflowBlockMade(bits: nat, min: nat, ones: nat, a: Val, b: Val, t: nat, f: nat, id: nat,
                                             lo: nat, hi: nat)
    requires var sc := Scope(lo, hi, id); ValWithin(a, sc, id) && ValWithin(b, sc, id)
    ensures var p := OverflowCheck(bits, min, ones, a, b, id);
            BlockMade(Block("", p.code, Some(CondGoto(Ref(id + 2), t, f))), id, lo, hi) && NextName(p.code, id) == id + 3
  {
    OverflowMade(bits, min, ones, a, b, id, Scope(lo, hi, id));
    hide OverflowCheck, Numbered, NextName;
  }

  lemma {:induction false} UnsignedArmsMade(op: Bpf.AluOp, w: Bpf.Width, dst: Bpf.Reg, a: Val, b: Val, cell: Cell,
                                            hi: nat, base: nat, lo: nat)
    requires IsDivision(op) && !IsSigned(op) && ValWithin(a, Scope(lo, hi, hi), hi) && ValWithin(b, Scope(lo, hi, hi), hi)
    requires CellWithin(cell, Scope(lo, hi, hi), hi)
    ensures JoinedArmsMade(DivisionArms(op, w.Bits(), a, b, cell, hi, base), DivisionTail(op, w, dst, cell, hi), hi, base, lo)
  {
    hide DivisionArms, DividePiece, DivisionTail, BlockMade, BlocksMade, NameBefore, NextName;
    UnsignedArmsAre(op, w.Bits(), a, b, cell, hi, base);
    var arm := Block("", DividePiece(op, w.Bits(), a, b, cell, hi).code, Some(Goto(base + 1)));
    var tail := Block("", DivisionTail(op, w, dst, cell, hi).code, None);
    DivideBlockMade(op, w.Bits(), a, b, cell, base + 1, hi, lo, hi);
    TailBlockMade(op, w, dst, cell, hi, lo, hi);
    hide IsDivision, ValWithin, CellWithin;
    TwoMade(arm, tail, hi, lo, hi);
    assert Forward([arm] + [tail], base);
  }

  lemma UnsignedArmsAre(op: Bpf.AluOp, bits: nat, a: Val, b: Val, cell: Cell, id: nat, base: nat)
    requires IsDivision(op) && !IsSigned(op) && bits > 0
    ensures DivisionArms(op, bits, a, b, cell, id, base) == [Block("", DividePiece(op, bits, a, b, cell, id).code, Some(Goto(base + 1)))]
  {
    hide DividePiece;
  }

  lemma {:induction false} StoredBlockMade(v: Val, cell: Cell, dst: nat, id: nat, lo: nat, hi: nat)
    requires ValWithin(v, Scope(lo, hi, id), id) && CellWithin(cell, Scope(lo, hi, id), id)
    ensures BlockMade(Block("", [StoreCell(v, cell)], Some(Goto(dst))), id, lo, hi) && NextName([StoreCell(v, cell)], id) == id
  {
    StoredAloneMade(v, cell, id, Scope(lo, hi, id));
    hide Numbered, NextName;
  }

  lemma {:induction false} SignedBlocksMade(op: Bpf.AluOp, w: Bpf.Width, dst: Bpf.Reg, a: Val, b: Val, cell: Cell,
                                            hi: nat, base: nat, lo: nat, bs: seq<Block>)
    requires IsSigned(op) && ValWithin(a, Scope(lo, hi, hi), hi) && ValWithin(b, Scope(lo, hi, hi), hi)
    requires CellWithin(cell, Scope(lo, hi, hi), hi)
    requires bs == DivisionArms(op, w.Bits(), a, b, cell, hi, base)
    ensures |bs| == 3 && NextName(bs[0].insts, hi) == hi + 3 && NextName(bs[1].insts, hi + 3) == hi + 3 && NextName(bs[2].insts, hi + 3) == hi + 4
    ensures BlockMade(bs[0], hi, lo, hi) && BlockMade(bs[1], hi + 3, lo, hi) && BlockMade(bs[2], hi + 3, lo, hi)
  {
    hide Pow2, OverflowCheck, DividePiece, NextName, BlockMade;
    var bits, v := w.Bits(), if op.SDiv? then a else Const(w.Bits(), 0);
    OverflowBlockMade(bits, Pow2(bits - 1), Pow2(bits) - 1, a, b, base + 1, base + 2, hi, lo, hi);
    StoredBlockMade(v, cell, base + 3, hi + 3, lo, hi);
    DivideBlockMade(op, bits, a, b, cell, base + 3, hi + 3, lo, hi);
  }

  lemma {:induction false} SignedForward(op: Bpf.AluOp, bits: nat, a: Val, b: Val, cell: Cell, id: nat, base: nat,
                                         tail: Block)
    requires IsSigned(op) && bits > 0 && tail.term.None?
    ensures Forward(DivisionArms(op, bits, a, b, cell, id, base) + [tail], base)
  {
    hide Pow2, OverflowCheck, DividePiece;
  }

  lemma {:induction false} SignedArmsMade(op: Bpf.AluOp, w: Bpf.Width, dst: Bpf.Reg, a: Val, b: Val, cell: Cell,
                                          hi: nat, base: nat, lo: nat)
    requires IsSigned(op) && ValWithin(a, Scope(lo, hi, hi), hi) && ValWithin(b, Scope(lo, hi, hi), hi)
    requires CellWithin(cell, Scope(lo, hi, hi), hi)
    ensures JoinedArmsMade(DivisionArms(op, w.Bits(), a, b, cell, hi, base), DivisionTail(op, w, dst, cell, hi), hi, base, lo)
  {
    hide DivisionArms, DivisionTail, BlocksMade, BlockMade, NameBefore, NextName, Forward;
    var tail := Block("", DivisionTail(op, w, dst, cell, hi).code, None);
    TailBlockMade(op, w, dst, cell, hi, lo, hi);
    var bs := DivisionArms(op, w.Bits(), a, b, cell, hi, base);
    hide ValWithin;
    SignedBlocksMade(op, w, dst, a, b, cell, hi, base, lo, bs);
    SignedForward(op, w.Bits(), a, b, cell, hi, base, tail);
    FourMade(bs, tail, hi, lo, hi, hi + 3, hi + 3, hi + 4);
  }

  lemma {:induction false} ArmsMade(op: Bpf.AluOp, w: Bpf.Width, dst: Bpf.Reg, a: Val, b: Val, cell: Cell, hi: nat,
                                    base: nat, lo: nat)
    requires IsDivision(op) && ValWithin(a, Scope(lo, hi, hi), hi) && ValWithin(b, Scope(lo, hi, hi), hi)
    requires CellWithin(cell, Scope(lo, hi, hi), hi)
    ensures DivisionArms(op, w.Bits(), a, b, cell, hi, base) != []
    ensures JoinedArmsMade(DivisionArms(op, w.Bits(), a, b, cell, hi, base), DivisionTail(op, w, dst, cell, hi), hi, base, lo)
  {
    hide DivisionArms, DivisionTail, JoinedArmsMade, ValWithin, CellWithin;
    ArmsCounted(op, w.Bits(), a, b, cell, hi, base);
    if IsSigned(op) {
      SignedArmsMade(op, w, dst, a, b, cell, hi, base, lo);
    } else {
      UnsignedArmsMade(op, w, dst, a, b, cell, hi, base, lo);
    }
  }

  /** The arms and the join of a checked division, when `hi` is the next unused name. */
  ghost predicate JoinedArmsMade(arms: seq<Block>, tail: Piece, hi: nat, base: nat, lo: nat) {
    var bs := arms + [Block("", tail.code, None)];
    BlocksMade(bs, hi, lo, hi) && NameBefore(bs, |bs|, hi) == tail.next && Forward(bs, base)
  }

  lemma {:induction false} DivisionMade(op: Bpf.AluOp, w: Bpf.Width, dst: Bpf.Reg, src: Bpf.Operand, id: nat, off: nat,
                                        base: nat)
    requires IsDivision(op)
    ensures FragmentMade(AluFragment(op, w, dst, src, id, off, base), id, base)
  {
    var pa := ReadReg(dst, w, id);
    var pb := ReadOperand(src, w, pa.next);
    OperandsMade(dst, src, w, id, Own(id));
    hide ReadReg, ReadOperand;
    CheckedMade(op, w, dst, pa.Then(pb), pa.val, pb.val, id, off, base);
  }

  lemma {:induction false} CheckedMade(op: Bpf.AluOp, w: Bpf.Width, dst: Bpf.Reg, operands: Piece, a: Val, b: Val,
                                       id: nat, off: nat, base: nat)
    requires IsDivision(op) && Made(operands, id, Own(id))
    requires ValWithin(a, Own(id), operands.next) && ValWithin(b, Own(id), operands.next)
    ensures FragmentMade(DivisionFragment(op, w, dst, operands, a, b, off, base), id, base)
  {
    var cell := ResultCell(operands.next);
    var hi := operands.next + 2;
    hide Made, DivisionHead, DivisionArms, DivisionTail, DivisionFragment, FragmentMade, JoinedArmsMade;
    NextGoesUp(operands, id, Own(id));
    assert ValWithin(a, Scope(id, hi, hi), hi) && ValWithin(b, Scope(id, hi, hi), hi) && CellWithin(cell, Scope(id, hi, hi), hi);
    HeadMade(op, w.Bits(), operands, a, b, id);
    hide ValWithin, CellWithin;
    ArmsMade(op, w, dst, a, b, cell, hi, base, id);
    DivisionParts(op, w, dst, operands, a, b, off, base);
    hide IsDivision;
    ForkMade(DivisionHead(op, w.Bits(), operands, a, b), DivisionArms(op, w.Bits(), a, b, cell, hi, base),
             DivisionTail(op, w, dst, cell, hi), id, off, base);
  }

  lemma DivisionParts(op: Bpf.AluOp, w: Bpf.Width, dst: Bpf.Reg, operands: Piece, a: Val, b: Val, off: nat, base: nat)
    requires IsDivision(op)
    ensures var head := DivisionHead(op, w.Bits(), operands, a, b);
            var arms := DivisionArms(op, w.Bits(), a, b, ResultCell(operands.next), head.next, base);
            var tail := DivisionTail(op, w, dst, ResultCell(operands.next), head.next);
            DivisionFragment(op, w, dst, operands, a, b, off, base)
            == Fragment(head.code, Some(Split(CondGoto(head.val, base + |arms|, base), arms, tail.code)), tail.next, off)
  {
    hide DivisionHead, DivisionTail;
    var hi := DivisionHead(op, w.Bits(), operands, a, b).next;
    ArmsCounted(op, w.Bits(), a, b, ResultCell(operands.next), hi, base);
    hide DivisionArms, ArmCount;
  }

  lemma ArmsCounted(op: Bpf.AluOp, bits: nat, a: Val, b: Val, cell: Cell, id: nat, base: nat)
    requires IsDivision(op) && bits > 0
    ensures |DivisionArms(op, bits, a, b, cell, id, base)| == ArmCount(op) > 0
  {
    hide Pow2, OverflowCheck, DividePiece;
  }

  lemma {:induction false} ForkMade(head: Piece, arms: seq<Block>, tail: Piece, id: nat, off: nat, base: nat)
    requires Made(head, id, Own(id)) && arms != [] && JoinedArmsMade(arms, tail, head.next, base, id)
    ensures FragmentMade(Fragment(head.code, Some(Split(CondGoto(head.val, base + |arms|, base), arms, tail.code)), tail.next, off), id, base)
  {
    hide Numbered, NextName, BlocksMade, NameBefore, Forward;
  }

  /** The code of every instruction that does not end a block. */
  lemma {:induction false} DataMade(i: Bpf.Insn, id: nat, off: nat, base: nat)
    requires !i.IsTerminator()
    ensures FragmentMade(DataFragment(i, id, off, base), id, base)
  {
    hide Numbered, NextName;
    if i.Alu? && IsDivision(i.op) {
      DivisionMade(i.op, i.w, i.dst, i.src, id, off, base);
    } else {
      StraightMade(i, id, off, base);
    }
  }

  // ---------------------------------------------------------------- the entry code

  lemma {:induction false} RegisterStorageMade(n: nat, id: nat, off: nat, sc: Scope)
    requires n <= 12 && sc.from <= id
    ensures Made(RegisterStorage(n, id, off), id, sc) && RegisterStorage(n, id, off).next == id + n
    decreases n
  {
    hide Made;
    StartMade(id, sc);
    if n > 0 {
      var p := RegisterStorage(n - 1, id, off);
      var q := p.Do(Alloca(RegCell(n - 1)));
      assert RegisterStorage(n, id, off)
          == q.Def(LoadUnspecified(id + n - 1, 64, off + 8 * (n - 1))).Do(StoreCell(Ref(id + n - 1), RegCell(n - 1)));
      hide RegisterStorage;
      RegisterStorageMade(n - 1, id, off, sc);
      RegisterMadeRoom(p, n - 1, id, sc);
      FilledMade(q, off + 8 * (n - 1), n - 1, id, sc);
    }
  }

  lemma {:induction false} RegisterMadeRoom(p: Piece, r: Bpf.Reg, id: nat, sc: Scope)
    requires Made(p, id, sc)
    ensures Made(p.Do(Alloca(RegCell(r))), id, sc)
  {
    hide Numbered, NextName;
    DoMade(p, Alloca(RegCell(r)), id, sc);
  }

  lemma {:induction false} WidenMade(v: Val, t: ArgType, id: nat, off: nat, sc: Scope)
    requires t.Valid() && sc.from <= id && ValWithin(v, sc, id)
    ensures Made(Widen(v, t, id, off), id, sc)
  {
    var p := Piece([], v, id);
    assert Made(p, id, sc);
    StartMade(id, sc);
    hide Numbered, NextName;
    if t.Bits() == 64 {
    } else if t.zext {
      CastedMade(p, ZExt, 64, id, sc);
    } else if t.sext {
      CastedMade(p, SExt, 64, id, sc);
    } else {
      var load := LoadUnspecified(id, 64 - t.width, off);
      DefMade(Start(id), load, id, sc);
      ShiftedMade(Start(id).Def(load), v, t.width, id, sc);
    }
  }

  lemma {:induction false} CastMade(p: Piece, v: Val, id: nat, sc: Scope)
    requires Made(p, id, sc) && ValWithin(v, sc, p.next)
    ensures Made(p.Def(Cast(p.next, ZExt, v, 64)), id, sc)
  {
    hide Numbered, NextName;
    DefMade(p, Cast(p.next, ZExt, v, 64), id, sc);
  }

  lemma {:induction false} ShiftedMade(junk: Piece, v: Val, width: nat, id: nat, sc: Scope)
    requires Made(junk, id, sc) && junk.next == id + 1 && junk.val == Ref(id) && sc.from <= id && ValWithin(v, sc, id)
    ensures Made(OntoShifted(junk, v, width, id), id, sc)
  {
    hide Made;
    CastMade(junk, Ref(id), id, sc);
    var p := junk.Def(Cast(id + 1, ZExt, Ref(id), 64));
    BinaryMade(p, Shl, 64, Ref(id + 1), Const(64, width), id, sc);
    var q := p.Def(Binary(id + 2, Shl, 64, Ref(id + 1), Const(64, width)));
    CastMade(q, v, id, sc);
    BinaryMade(q.Def(Cast(id + 3, ZExt, v, 64)), Or, 64, Ref(id + 2), Ref(id + 3), id, sc);
  }

  lemma {:induction false} StoreArgsMade(args: seq<ArgType>, n: nat, id: nat, sc: Scope)
    requires n <= |args| && (forall t <- args :: t.Valid()) && sc.from <= id
    ensures Made(StoreArgs(args, n, id), id, sc)
    decreases n
  {
    hide Made, Widen, ArgOffset;
    StartMade(id, sc);
    if n > 0 {
      var p := StoreArgs(args, n - 1, id);
      var w := Widen(Arg(n - 1), args[n - 1], p.next, ArgOffset(args, n - 1));
      assert StoreArgs(args, n, id) == p.Then(w).Do(StoreCell(w.val, RegCell(n)));
      hide StoreArgs;
      StoreArgsMade(args, n - 1, id, sc);
      NextGoesUp(p, id, sc);
      WidenMade(Arg(n - 1), args[n - 1], p.next, ArgOffset(args, n - 1), sc);
      ValueStays(w, p.next, sc, w.next);
      ThenMade(p, w, id, sc);
      CellStoredMade(p.Then(w), w.val, RegCell(n), id, sc);
    }
  }

  lemma {:induction false} PointedMade(p: Piece, base: Val, off: nat, id: nat, sc: Scope)
    requires Made(p, id, sc) && ValWithin(base, sc, p.next)
    ensures Made(p.Def(Gep(p.next, base, Const(64, off))), id, sc)
  {
    hide Numbered, NextName;
    DefMade(p, Gep(p.next, base, Const(64, off)), id, sc);
  }

  lemma {:induction false} FrameMade()
    ensures Made(Start(0).Def(FrameAlloc(0)), 0, Own(0))
  {
    StartMade(0, Own(0));
    hide Numbered, NextName;
    DefMade(Start(0), FrameAlloc(0), 0, Own(0));
  }

  lemma {:induction false} SetupMade(args: seq<ArgType>)
    requires forall t <- args :: t.Valid()
    ensures Made(Setup(args), 0, Own(0))
  {
    hide Made, RegisterStorage, StoreArgs;
    FrameMade();
    RegisterStorageMade(12, 1, 0, Own(0));
    var p := Start(0).Def(FrameAlloc(0)).Then(RegisterStorage(12, 1, 0));
    ThenMade(Start(0).Def(FrameAlloc(0)), RegisterStorage(12, 1, 0), 0, Own(0));
    assert p.next == 13;
    PointedMade(p, Ref(0), STACK_BYTES, 0, Own(0));
    var gep := Gep(p.next, Ref(0), Const(64, STACK_BYTES));
    CellStoredMade(p.Def(gep), Ref(p.next), RegCell(Bpf.R10), 0, Own(0));
    var q := p.Def(gep).Do(StoreCell(Ref(p.next), RegCell(Bpf.R10)));
    StoreArgsMade(args, |args|, q.next, Own(0));
    ThenMade(q, StoreArgs(args, |args|, q.next), 0, Own(0));
  }
}
