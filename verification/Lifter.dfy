/** The single-pass emitter: a current block that instructions are appended to, and that
    moves while division diamonds are opened and closed. Every method is specified by what
    it does to the function under construction. */
module Lifters {
  import opened Options
  import opened Words
  import opened Ir
  import opened Codegen
  import opened Cfg
  import opened Emission
  import opened Abi
  import opened Prologue
  import opened Lifting
  import opened Scratch
  import Bpf
  import Returns
  import TypedCalls

  // ---------------------------------------------------------------- appending in steps

  lemma AppendTwice(e: Emitted, p: Piece, q: Piece)
    requires e.Valid()
    ensures e.Append(p).Append(q) == e.Append(p.Then(q))
  {
    var b := e.blocks[e.cur];
    assert (b.insts + p.code) + q.code == b.insts + (p.code + q.code);
  }

  lemma AppendDefined(e: Emitted, p: Piece, i: Inst)
    requires e.Valid()
    ensures e.Append(p).Append(Start(p.next).Def(i)) == e.Append(p.Def(i))
  {
    AppendTwice(e, p, Start(p.next).Def(i));
    assert p.code + ([] + [i]) == p.code + [i];
  }

  lemma AppendNothing(e: Emitted, v: Val)
    requires e.Valid()
    ensures e.Append(Piece([], v, e.next)) == e
  {
    assert e.blocks[e.cur].insts + [] == e.blocks[e.cur].insts;
    assert e.blocks[e.cur := e.blocks[e.cur]] == e.blocks;
  }

  /** Appending after a fork appends to the block where the arms join. */
  lemma AppendAfterFork(e: Emitted, s: Split, p: Piece)
    requires e.Valid()
    ensures e.Fork(s).Append(p) == e.Fork(s.(tail := s.tail + p.code)).(next := p.next)
  {
    var e1, e2 := e.Fork(s).Append(p), e.Fork(s.(tail := s.tail + p.code)).(next := p.next);
    var front := e.Close(s.exit).blocks + s.arms;
    assert e1.blocks == front + [Block("", s.tail + p.code, None)];
    assert e2.blocks == front + [Block("", s.tail + p.code, None)];
  }

  const EMPTY := Block("", [], None)

  /** Filling and closing the current block while later blocks wait at the end. */
  lemma CloseBeside(e: Emitted, waiting: Fn, p: Piece, t: Term)
    requires e.Valid()
    ensures e.(blocks := e.blocks + waiting).Append(p).Close(t).blocks == e.Append(p).Close(t).blocks + waiting
  {
  }

  /** Filling and closing an empty block between finished and waiting ones. */
  lemma CloseArm(e: Emitted, done: Fn, waiting: Fn, p: Piece, t: Term)
    requires e.blocks == done + [EMPTY] + waiting && e.cur == |done|
    ensures e.Append(p).Close(t).blocks == done + [Block("", p.code, Some(t))] + waiting
  {
    assert [] + p.code == p.code;
  }

  class Lifter {
    const mf: seq<McBlock>
    var mcbb: nat
    var blocks: Fn
    var cur: nat
    var next: nat
    var off: nat

    /** The function under construction. */
    ghost function Snap(): Emitted
      reads `blocks, `cur, `next, `off
    {
      Emitted(blocks, cur, next, off)
    }

    constructor (mf: seq<McBlock>)
      requires mf != []
      ensures this.mf == mf && mcbb == 0
      ensures Snap() == Emitted(EmptyBlocks(mf), 0, 0, 0)
    {
      this.mf := mf;
      mcbb, cur, next, off := 0, 0, 0, 0;
      blocks := EmptyBlocks(mf);
    }

    // ---- builders over the current block ----

    method Emit(i: Inst)
      requires cur < |blocks|
      modifies `blocks
      ensures Snap() == old(Snap()).Append(Piece([i], Const(0, 0), old(next)))
    {
      var b := blocks[cur];
      blocks := blocks[cur := b.(insts := b.insts + [i])];
    }

    /** Append an instruction that defines the next value name. */
    method Define(i: Inst) returns (v: Val)
      requires cur < |blocks|
      modifies `blocks, `next
      ensures Snap() == old(Snap()).Append(Start(old(next)).Def(i)) && v == Ref(old(next))
    {
      v := Ref(next);
      assert [] + [i] == [i];
      Emit(i);
      next := next + 1;
    }

    /** End the current block. */
    method Terminate(t: Term)
      requires cur < |blocks|
      modifies `blocks
      ensures Snap() == old(Snap()).Close(t)
    {
      blocks := blocks[cur := blocks[cur].(term := Some(t))];
    }

    method NewBlock() returns (b: nat)
      modifies `blocks
      ensures blocks == old(blocks) + [Block("", [], None)] && b == |old(blocks)|
    {
      b := |blocks|;
      blocks := blocks + [Block("", [], None)];
    }

    method GetBlockByName(name: string) returns (b: nat)
      ensures b == BlockNamed(blocks, name)
    {
      b := 0;
      while b < |blocks| && blocks[b].name != name
        invariant 0 <= b <= |blocks|
        invariant BlockNamed(blocks, name) == b + BlockNamed(blocks[b..], name)
      {
        assert blocks[b..][1..] == blocks[b + 1..];
        b := b + 1;
      }
    }

    method Cast(k: CastKind, v: Val, to: nat) returns (r: Val)
      requires cur < |blocks|
      modifies `blocks, `next
      ensures var p := Piece([], v, old(next)).Casted(k, to);
              Snap() == old(Snap()).Append(p) && r == p.val
    {
      r := Define(Ir.Cast(next, k, v, to));
    }

    method Binary(op: BinOp, bits: nat, a: Val, b: Val) returns (r: Val)
      requires cur < |blocks|
      modifies `blocks, `next
      ensures var p := Start(old(next)).Def(Ir.Binary(old(next), op, bits, a, b));
              Snap() == old(Snap()).Append(p) && r == p.val
    {
      r := Define(Ir.Binary(next, op, bits, a, b));
    }

    method Compare(pred: Pred, bits: nat, a: Val, b: Val) returns (r: Val)
      requires cur < |blocks|
      modifies `blocks, `next
      ensures var p := Start(old(next)).Def(ICmp(old(next), pred, bits, a, b));
              Snap() == old(Snap()).Append(p) && r == p.val
    {
      r := Define(ICmp(next, pred, bits, a, b));
    }

    /** A value of its own for every use: the next bytes of the constant global. */
    method UnspecifiedValue(bits: nat) returns (v: Val)
      requires cur < |blocks| && off + (bits + 7) / 8 <= SCRATCH_BYTES
      modifies `blocks, `next, `off
      ensures var p := Start(old(next)).Def(LoadUnspecified(old(next), bits, old(off)));
              Snap() == old(Snap()).Append(p).(off := old(off) + (bits + 7) / 8) && v == p.val
    {
      v := Define(LoadUnspecified(next, bits, off));
      off := off + (bits + 7) / 8;
    }

    // ---- registers and operands ----

    method ReadRegister(r: Bpf.Reg, w: Bpf.Width) returns (v: Val)
      requires cur < |blocks|
      modifies `blocks, `next
      ensures var p := ReadReg(r, w, old(next)); Snap() == old(Snap()).Append(p) && v == p.val
    {
      ghost var e := Snap();
      v := Define(LoadCell(next, 64, RegCell(r)));
      if w.W32? {
        ghost var p := Start(e.next).Def(LoadCell(e.next, 64, RegCell(r)));
        v := Cast(Trunc, v, 32);
        AppendDefined(e, p, Ir.Cast(p.next, Trunc, p.val, 32));
      }
    }

    method ReadAluOperand(s: Bpf.Operand, w: Bpf.Width) returns (v: Val)
      requires cur < |blocks|
      modifies `blocks, `next
      ensures var p := ReadOperand(s, w, old(next)); Snap() == old(Snap()).Append(p) && v == p.val
    {
      match s
      case RegOp(r) => v := ReadRegister(r, w);
      case ImmOp(imm) =>
        v := Const(w.Bits(), Wrap(w.Bits(), imm));
        AppendNothing(Snap(), v);
    }

    /** Writes a register; a 32-bit write zeroes the upper half. */
    method UpdateRegister(r: Bpf.Reg, w: Bpf.Width, v: Val)
      requires cur < |blocks|
      modifies `blocks, `next
      ensures Snap() == old(Snap()).Append(WriteReg(r, w, v, old(next)))
    {
      ghost var e := Snap();
      var x := v;
      if w.W32? {
        x := Cast(ZExt, v, 64);
        ghost var p := Piece([], v, e.next).Casted(ZExt, 64);
        Emit(StoreCell(x, RegCell(r)));
        AppendTwice(e, p, Piece([StoreCell(x, RegCell(r))], Const(0, 0), p.next));
      } else {
        Emit(StoreCell(x, RegCell(r)));
        assert [] + [StoreCell(x, RegCell(r))] == [StoreCell(x, RegCell(r))];
      }
      assert Snap() == e.Append(WriteReg(r, w, v, e.next));
    }

    method MemPointer(base: Bpf.Reg, o: int) returns (v: Val)
      requires cur < |blocks|
      modifies `blocks, `next
      ensures var p := Pointer(base, o, old(next)); Snap() == old(Snap()).Append(p) && v == p.val
    {
      ghost var e := Snap();
      v := ReadRegister(base, Bpf.W64);
      ghost var p := ReadReg(base, Bpf.W64, e.next);
      var g := Gep(next, v, Const(64, Wrap(64, o)));
      v := Define(g);
      AppendDefined(e, p, g);
    }

    // ---- arithmetic ----

    method Arithmetic(op: Bpf.AluOp, bits: nat, a: Val, b: Val) returns (v: Val)
      requires cur < |blocks| && bits > 0
      modifies `blocks, `next
      ensures var p := Arith(op, bits, a, b, old(next)); Snap() == old(Snap()).Append(p) && v == p.val
    {
      if IsShift(op) {
        ghost var e := Snap();
        var mask := Ir.Binary(next, And, bits, Const(bits, bits - 1), b);
        var masked := Define(mask);
        var shift := Ir.Binary(next, Opcode(op), bits, a, masked);
        v := Define(shift);
        AppendDefined(e, Start(e.next).Def(mask), shift);
      } else {
        v := Binary(Opcode(op), bits, a, b);
      }
    }

    // ---- checked division ----

    method Divide(op: Bpf.AluOp, bits: nat, a: Val, b: Val, cell: Cell)
      requires cur < |blocks|
      modifies `blocks, `next
      ensures Snap() == old(Snap()).Append(DividePiece(op, bits, a, b, cell, old(next)))
    {
      ghost var e := Snap();
      var q := Binary(Opcode(op), bits, a, b);
      Emit(StoreCell(q, cell));
      AppendTwice(e, Start(e.next).Def(Ir.Binary(e.next, Opcode(op), bits, a, b)),
                  Piece([StoreCell(q, cell)], Const(0, 0), e.next + 1));
    }

    /** Result cell, value for a zero divisor, and the test for one. */
    method StartDivision(op: Bpf.AluOp, bits: nat, a: Val, b: Val) returns (cell: Cell, isZero: Val)
      requires cur < |blocks| && IsDivision(op)
      modifies `blocks, `next
      ensures var p := DivisionHead(op, bits, Start(old(next)), a, b);
              Snap() == old(Snap()).Append(p) && isZero == p.val && cell == ResultCell(old(next))
    {
      ghost var e := Snap();
      cell := ResultCell(next);
      var ifZero := if op.Div? || op.SDiv? then Const(bits, 0) else a;
      next := next + 1;
      ghost var p0 := Start(e.next).(next := e.next + 1);
      Emit(Alloca(cell));
      Emit(StoreCell(ifZero, cell));
      ghost var p := p0.Do(Alloca(cell)).Do(StoreCell(ifZero, cell));
      assert Snap() == e.Append(p) by {
        assert p.code == [Alloca(cell)] + [StoreCell(ifZero, cell)];
        AppendTwice(e, Piece([Alloca(cell)], Const(0, 0), e.next + 1), Piece([StoreCell(ifZero, cell)], Const(0, 0), e.next + 1));
      }
      isZero := Compare(Ir.Eq, bits, b, Const(bits, 0));
      AppendDefined(e, p, ICmp(p.next, Ir.Eq, bits, b, Const(bits, 0)));
    }

    method CheckOverflow(bits: nat, a: Val, b: Val) returns (v: Val)
      requires cur < |blocks| && bits > 0
      modifies `blocks, `next
      ensures var p := OverflowCheck(bits, Pow2(bits - 1), Pow2(bits) - 1, a, b, old(next));
              Snap() == old(Snap()).Append(p) && v == p.val
    {
      ghost var e := Snap();
      var i0 := ICmp(next, Ir.Eq, bits, a, Const(bits, Pow2(bits - 1)));
      var isMin := Define(i0);
      var i1 := ICmp(next, Ir.Eq, bits, b, Const(bits, Pow2(bits) - 1));
      var isOnes := Define(i1);
      AppendDefined(e, Start(e.next).Def(i0), i1);
      var i2 := Ir.Binary(next, And, 1, isMin, isOnes);
      v := Define(i2);
      AppendDefined(e, Start(e.next).Def(i0).Def(i1), i2);
    }

    /** Once all arms are closed: go on in the join block with the result. */
    method JoinArms(op: Bpf.AluOp, bits: nat, a: Val, b: Val, cell: Cell, join: nat, ghost e: Emitted) returns (v: Val)
      requires e.Valid() && IsDivision(op) && bits > 0 && cell == ResultCell(e.next)
      requires var head := DivisionHead(op, bits, Start(e.next), a, b);
               var base := |e.blocks|;
               && join == base + ArmCount(op) && off == e.off && next == head.next + (if IsSigned(op) then 4 else 1)
               && blocks == e.Append(head).Close(CondGoto(head.val, join, base)).blocks
                            + DivisionArms(op, bits, a, b, cell, head.next, base) + [EMPTY]
      modifies `blocks, `cur, `next
      ensures Snap() == AfterDivision(e, op, bits, a, b)
      ensures v == DivisionResult(op, bits, cell, e.next + 2).val
    {
      ghost var done := blocks[..join];
      assert blocks == done + [EMPTY];
      cur := join;
      assert [] + [LoadCell(next, bits, cell)] == [LoadCell(next, bits, cell)];
      v := Define(LoadCell(next, bits, cell));
      assert blocks == done + [Block("", DivisionResult(op, bits, cell, e.next + 2).code, None)];
    }

    /** Quotient or remainder without undefined behaviour for a zero divisor. */
    method CheckedUnsigned(op: Bpf.AluOp, bits: nat, a: Val, b: Val) returns (v: Val)
      requires cur < |blocks| && (op.Div? || op.Mod?) && bits > 0
      modifies `blocks, `cur, `next
      ensures Snap() == AfterDivision(old(Snap()), op, bits, a, b)
      ensures v == DivisionResult(op, bits, ResultCell(old(next)), old(next) + 2).val
    {
      ghost var e := Snap();
      var divBB := NewBlock();
      var retBB := NewBlock();
      assert blocks == e.blocks + [EMPTY, EMPTY];
      var cell, isZero := StartDivision(op, bits, a, b);
      Terminate(CondGoto(isZero, retBB, divBB));
      ghost var head := DivisionHead(op, bits, Start(e.next), a, b);
      CloseBeside(e, [EMPTY, EMPTY], head, CondGoto(isZero, retBB, divBB));
      ghost var done := e.Append(head).Close(CondGoto(isZero, retBB, divBB)).blocks;
      cur := divBB;
      assert blocks == done + [EMPTY] + [EMPTY];
      CloseArm(Snap(), done, [EMPTY], DividePiece(op, bits, a, b, cell, next), Goto(retBB));
      Divide(op, bits, a, b, cell);
      Terminate(Goto(retBB));
      v := JoinArms(op, bits, a, b, cell, retBB, e);
    }

    /** The same for signed operands, where the minimum divided by -1 overflows. */
    method CheckedSigned(op: Bpf.AluOp, bits: nat, a: Val, b: Val) returns (v: Val)
      requires cur < |blocks| && (op.SDiv? || op.SMod?) && bits > 0
      modifies `blocks, `cur, `next
      ensures Snap() == AfterDivision(old(Snap()), op, bits, a, b)
      ensures v == DivisionResult(op, bits, ResultCell(old(next)), old(next) + 2).val
    {
      ghost var e := Snap();
      var checkBB := NewBlock();
      var overflowBB := NewBlock();
      var divBB := NewBlock();
      var retBB := NewBlock();
      assert blocks == e.blocks + [EMPTY, EMPTY, EMPTY, EMPTY];
      var cell, isZero := StartDivision(op, bits, a, b);
      Terminate(CondGoto(isZero, retBB, checkBB));
      ghost var head := DivisionHead(op, bits, Start(e.next), a, b);
      CloseBeside(e, [EMPTY, EMPTY, EMPTY, EMPTY], head, CondGoto(isZero, retBB, checkBB));
      ghost var done := e.Append(head).Close(CondGoto(isZero, retBB, checkBB)).blocks;
      SignedArms(op, bits, a, b, cell, checkBB, overflowBB, divBB, retBB, done);
      v := JoinArms(op, bits, a, b, cell, retBB, e);
    }

    method SignedArms(op: Bpf.AluOp, bits: nat, a: Val, b: Val, cell: Cell,
                      checkBB: nat, overflowBB: nat, divBB: nat, retBB: nat, ghost done: Fn)
      requires (op.SDiv? || op.SMod?) && bits > 0 && blocks == done + [EMPTY, EMPTY, EMPTY, EMPTY]
      requires checkBB == |done| && overflowBB == checkBB + 1 && divBB == checkBB + 2 && retBB == checkBB + 3
      modifies `blocks, `cur, `next
      ensures blocks == done + DivisionArms(op, bits, a, b, cell, old(next), checkBB) + [EMPTY]
      ensures next == old(next) + 4
    {
      ghost var arms := DivisionArms(op, bits, a, b, cell, next, checkBB);
      hide DivisionArms, OverflowCheck, DividePiece;
      cur := checkBB;
      assert blocks == done + [EMPTY] + [EMPTY, EMPTY, EMPTY];
      var id := next;
      CheckArm(bits, a, b, overflowBB, divBB, done, [EMPTY, EMPTY, EMPTY]);
      ghost var check := OverflowArm(bits, a, b, id, checkBB);
      cur := overflowBB;
      assert blocks == (done + [check]) + [EMPTY] + [EMPTY, EMPTY];
      FixedArm(if op.SDiv? then a else Const(bits, 0), cell, retBB, done + [check], [EMPTY, EMPTY]);
      ghost var fixed := Block("", [StoreCell(if op.SDiv? then a else Const(bits, 0), cell)], Some(Goto(retBB)));
      cur := divBB;
      assert blocks == (done + [check] + [fixed]) + [EMPTY] + [EMPTY];
      DivideArm(op, bits, a, b, cell, retBB, done + [check] + [fixed], [EMPTY]);
      ghost var divide := Block("", DividePiece(op, bits, a, b, cell, id + 3).code, Some(Goto(retBB)));
      ArmsAre(op, bits, a, b, cell, id, checkBB);
      assert blocks == done + [check, fixed, divide] + [EMPTY];
    }

    method CheckArm(bits: nat, a: Val, b: Val, overflowBB: nat, divBB: nat, ghost done: Fn, ghost waiting: Fn)
      requires bits > 0 && blocks == done + [EMPTY] + waiting && cur == |done|
      requires overflowBB == cur + 1 && divBB == cur + 2
      modifies `blocks, `next
      ensures blocks == done + [OverflowArm(bits, a, b, old(next), cur)] + waiting && next == old(next) + 3
    {
      CloseArm(Snap(), done, waiting, OverflowCheck(bits, Pow2(bits - 1), Pow2(bits) - 1, a, b, next),
               CondGoto(Ref(next + 2), overflowBB, divBB));
      var overflows := CheckOverflow(bits, a, b);
      Terminate(CondGoto(overflows, overflowBB, divBB));
    }

    method FixedArm(v: Val, cell: Cell, retBB: nat, ghost done: Fn, ghost waiting: Fn)
      requires blocks == done + [EMPTY] + waiting && cur == |done|
      modifies `blocks
      ensures blocks == done + [Block("", [StoreCell(v, cell)], Some(Goto(retBB)))] + waiting
    {
      CloseArm(Snap(), done, waiting, Piece([StoreCell(v, cell)], Const(0, 0), next), Goto(retBB));
      Emit(StoreCell(v, cell));
      Terminate(Goto(retBB));
    }

    method DivideArm(op: Bpf.AluOp, bits: nat, a: Val, b: Val, cell: Cell, retBB: nat, ghost done: Fn, ghost waiting: Fn)
      requires blocks == done + [EMPTY] + waiting && cur == |done|
      modifies `blocks, `next
      ensures blocks == done + [Block("", DividePiece(op, bits, a, b, cell, old(next)).code, Some(Goto(retBB)))] + waiting
      ensures next == old(next) + 1
    {
      CloseArm(Snap(), done, waiting, DividePiece(op, bits, a, b, cell, next), Goto(retBB));
      Divide(op, bits, a, b, cell);
      Terminate(Goto(retBB));
    }

    // ---- instructions ----

    method LiftAlu(op: Bpf.AluOp, w: Bpf.Width, dst: Bpf.Reg, src: Bpf.Operand)
      requires cur < |blocks|
      modifies `blocks, `cur, `next
      ensures Snap() == Apply(old(Snap()), AluFragment(op, w, dst, src, old(next), old(off), |old(blocks)|))
    {
      ghost var e := Snap();
      var a := ReadRegister(dst, w);
      var b := ReadAluOperand(src, w);
      ghost var pa := ReadReg(dst, w, e.next);
      ghost var pb := ReadOperand(src, w, pa.next);
      AppendTwice(e, pa, pb);
      if IsDivision(op) {
        LiftDivision(op, w, dst, a, b, e, pa.Then(pb));
      } else {
        LiftArithmetic(op, w, dst, a, b, e, pa.Then(pb));
      }
    }

    method LiftDivision(op: Bpf.AluOp, w: Bpf.Width, dst: Bpf.Reg, a: Val, b: Val, ghost e: Emitted, ghost operands: Piece)
      requires e.Valid() && Snap() == e.Append(operands) && IsDivision(op)
      modifies `blocks, `cur, `next
      ensures Snap() == Apply(e, DivisionFragment(op, w, dst, operands, a, b, e.off, |e.blocks|))
    {
      hide DivisionFragment, Apply, AfterDivision;
      var v;
      if IsSigned(op) {
        v := CheckedSigned(op, w.Bits(), a, b);
      } else {
        v := CheckedUnsigned(op, w.Bits(), a, b);
      }
      UpdateRegister(dst, w, v);
      DivisionApplied(e, op, w, dst, operands, a, b);
    }

    method LiftArithmetic(op: Bpf.AluOp, w: Bpf.Width, dst: Bpf.Reg, a: Val, b: Val, ghost e: Emitted, ghost operands: Piece)
      requires e.Valid() && Snap() == e.Append(operands)
      modifies `blocks, `next
      ensures var p := operands.Then(Arith(op, w.Bits(), a, b, operands.next));
              Snap() == e.Append(p.Then(WriteReg(dst, w, p.val, p.next)))
    {
      hide Arith, WriteReg;
      var v := Arithmetic(op, w.Bits(), a, b);
      ghost var p := Arith(op, w.Bits(), a, b, operands.next);
      AppendTwice(e, operands, p);
      UpdateRegister(dst, w, v);
      AppendTwice(e, operands.Then(p), WriteReg(dst, w, v, p.next));
    }

    method LiftNeg(w: Bpf.Width, dst: Bpf.Reg)
      requires cur < |blocks|
      modifies `blocks, `next
      ensures Snap() == old(Snap()).Append(NegPiece(w, dst, old(next)))
    {
      ghost var e := Snap();
      var v := ReadRegister(dst, w);
      ghost var p0 := ReadReg(dst, w, e.next);
      var sub := Ir.Binary(next, Sub, w.Bits(), Const(w.Bits(), 0), v);
      var r := Define(sub);
      AppendDefined(e, p0, sub);
      UpdateRegister(dst, w, r);
      AppendTwice(e, p0.Def(sub), WriteReg(dst, w, r, p0.next + 1));
    }

    method LiftMove(w: Bpf.Width, dst: Bpf.Reg, src: Bpf.Operand)
      requires cur < |blocks|
      modifies `blocks, `next
      ensures Snap() == old(Snap()).Append(MovePiece(w, dst, src, old(next)))
    {
      ghost var e := Snap();
      var v := ReadAluOperand(src, w);
      ghost var p := ReadOperand(src, w, e.next);
      UpdateRegister(dst, w, v);
      AppendTwice(e, p, WriteReg(dst, w, v, p.next));
    }

    method LiftMovSext(w: Bpf.Width, size: Bpf.Size, dst: Bpf.Reg, from: Bpf.Reg)
      requires cur < |blocks|
      modifies `blocks, `next
      ensures Snap() == old(Snap()).Append(MovSextPiece(w, size, dst, from, old(next)))
    {
      ghost var e := Snap();
      var v := ReadRegister(from, if size.Word? then Bpf.W32 else w);
      ghost var p := ReadReg(from, if size.Word? then Bpf.W32 else w, e.next);
      if !size.Word? {
        var narrow := Ir.Cast(next, Trunc, v, size.Bits());
        v := Define(narrow);
        AppendDefined(e, p, narrow);
        p := p.Def(narrow);
      }
      var wide := Ir.Cast(next, SExt, v, w.Bits());
      v := Define(wide);
      AppendDefined(e, p, wide);
      UpdateRegister(dst, w, v);
      AppendTwice(e, p.Def(wide), WriteReg(dst, w, v, p.next + 1));
    }

    /** Byte swap or mask of the low bits; the result is zero-extended. */
    method LiftEndian(swap: bool, size: Bpf.Size, dst: Bpf.Reg)
      requires cur < |blocks|
      modifies `blocks, `next
      ensures Snap() == old(Snap()).Append(EndianPiece(swap, size, dst, old(next)))
    {
      ghost var e := Snap();
      var v := ReadRegister(dst, Bpf.W64);
      ghost var p := ReadReg(dst, Bpf.W64, e.next);
      if size.Bits() < 64 {
        var narrow := Ir.Cast(next, Trunc, v, size.Bits());
        v := Define(narrow);
        AppendDefined(e, p, narrow);
        p := p.Def(narrow);
      }
      if swap {
        var swapped := BSwap(next, size.Bits(), v);
        v := Define(swapped);
        AppendDefined(e, p, swapped);
        p := p.Def(swapped);
      }
      if size.Bits() < 64 {
        var wide := Ir.Cast(next, ZExt, v, 64);
        v := Define(wide);
        AppendDefined(e, p, wide);
        p := p.Def(wide);
      }
      UpdateRegister(dst, Bpf.W64, v);
      AppendTwice(e, p, WriteReg(dst, Bpf.W64, v, p.next));
    }

    method LiftLoad(size: Bpf.Size, sext: bool, wDest: bool, dst: Bpf.Reg, base: Bpf.Reg, o: int)
      requires cur < |blocks|
      modifies `blocks, `next
      ensures Snap() == old(Snap()).Append(LoadPiece(size, sext, wDest, dst, base, o, old(next)))
    {
      ghost var e := Snap();
      var ptr := MemPointer(base, o);
      ghost var p := Pointer(base, o, e.next);
      var load := LoadMem(next, size.Bits(), ptr);
      var v := Define(load);
      AppendDefined(e, p, load);
      p := p.Def(load);
      var w := if wDest then Bpf.W32 else Bpf.W64;
      if size.Bits() < w.Bits() {
        var wide := Ir.Cast(next, if !wDest && sext then SExt else ZExt, v, w.Bits());
        v := Define(wide);
        AppendDefined(e, p, wide);
        p := p.Def(wide);
      }
      UpdateRegister(dst, w, v);
      AppendTwice(e, p, WriteReg(dst, w, v, p.next));
    }

    method LiftStore(bits: nat, wSrc: bool, value: Bpf.Reg, base: Bpf.Reg, o: int)
      requires cur < |blocks|
      modifies `blocks, `next
      ensures Snap() == old(Snap()).Append(StorePiece(bits, wSrc, value, base, o, old(next)))
    {
      ghost var e := Snap();
      var ptr := MemPointer(base, o);
      ghost var p0 := Pointer(base, o, e.next);
      var w := if wSrc then Bpf.W32 else Bpf.W64;
      var v := ReadRegister(value, w);
      ghost var q := ReadReg(value, w, p0.next);
      AppendTwice(e, p0, q);
      if bits < w.Bits() {
        var narrow := Ir.Cast(next, Trunc, v, bits);
        v := Define(narrow);
        AppendDefined(e, p0.Then(q), narrow);
        assert p0.Then(q).Def(narrow).code == p0.Then(q.Def(narrow)).code;
        q := q.Def(narrow);
      }
      Emit(StoreMem(v, bits, ptr));
      AppendTwice(e, p0.Then(q), Piece([StoreMem(v, bits, ptr)], Const(0, 0), q.next));
    }

    method LiftStoreImm(bits: nat, imm: int, base: Bpf.Reg, o: int)
      requires cur < |blocks|
      modifies `blocks, `next
      ensures Snap() == old(Snap()).Append(StoreImmPiece(bits, imm, base, o, old(next)))
    {
      ghost var e := Snap();
      var ptr := MemPointer(base, o);
      ghost var p := Pointer(base, o, e.next);
      var store := StoreMem(Const(bits, Wrap(bits, imm)), bits, ptr);
      Emit(store);
      AppendTwice(e, p, Piece([store], Const(0, 0), p.next));
    }

    method LiftAtomic(op: Bpf.AtomicOp, w: Bpf.Width, fetch: bool, value: Bpf.Reg, base: Bpf.Reg, o: int)
      requires cur < |blocks|
      modifies `blocks, `next
      ensures Snap() == old(Snap()).Append(AtomicPiece(op, w, fetch, value, base, o, old(next)))
    {
      ghost var e := Snap();
      var ptr := MemPointer(base, o);
      ghost var p0 := Pointer(base, o, e.next);
      var v := ReadRegister(value, w);
      AppendTwice(e, p0, ReadReg(value, w, p0.next));
      ghost var p := p0.Then(ReadReg(value, w, p0.next));
      var rmw := AtomicRmw(next, RmwOpcode(op), w.Bits(), ptr, v);
      var r := Define(rmw);
      AppendDefined(e, p, rmw);
      if fetch {
        UpdateRegister(value, w, r);
        AppendTwice(e, p.Def(rmw), WriteReg(value, w, r, p.next + 1));
      }
    }

    method LiftCompareExchange(w: Bpf.Width, value: Bpf.Reg, base: Bpf.Reg, o: int)
      requires cur < |blocks|
      modifies `blocks, `next
      ensures Snap() == old(Snap()).Append(CompareExchangePiece(w, value, base, o, old(next)))
    {
      ghost var e := Snap();
      var ptr := MemPointer(base, o);
      ghost var p0 := Pointer(base, o, e.next);
      var expected := ReadRegister(Bpf.R0, w);
      ghost var p1 := ReadReg(Bpf.R0, w, p0.next);
      AppendTwice(e, p0, p1);
      var v := ReadRegister(value, w);
      ghost var p2 := ReadReg(value, w, p1.next);
      AppendTwice(e, p0.Then(p1), p2);
      ghost var p := p0.Then(p1).Then(p2);
      var cx := CmpXchg(next, w.Bits(), ptr, expected, v);
      var r := Define(cx);
      AppendDefined(e, p, cx);
      UpdateRegister(Bpf.R0, w, r);
      AppendTwice(e, p.Def(cx), WriteReg(Bpf.R0, w, r, p.next + 1));
    }

    // ---- calls ----

    /** A helper gets r1-r5, its answer goes to r0, and r1-r5 become unspecified. */
    method DoHelperCall(id: int)
      requires cur < |blocks| && off + 40 <= SCRATCH_BYTES
      modifies `blocks, `next, `off
      ensures Snap() == old(Snap()).Append(CallPiece(id, old(next), old(off))).(off := old(off) + 40)
    {
      ghost var e := Snap();
      var args: seq<Val> := [];
      AppendNothing(e, Const(0, 0));
      for reg := 1 to 6
        invariant Snap() == e.Append(ReadArgs(reg - 1, e.next)) && next == e.next + reg - 1
        invariant |args| == reg - 1 && forall k :: 0 <= k < reg - 1 ==> args[k] == Ref(e.next + k)
      {
        ghost var p := ReadArgs(reg - 1, e.next);
        var v := ReadRegister(reg, Bpf.W64);
        AppendTwice(e, p, ReadReg(reg, Bpf.W64, e.next + reg - 1));
        args := args + [v];
      }
      assert args == [Ref(e.next), Ref(e.next + 1), Ref(e.next + 2), Ref(e.next + 3), Ref(e.next + 4)];
      ghost var p := ReadArgs(5, e.next);
      var call := CallHelper(next, id, args);
      var answer := Define(call);
      AppendDefined(e, p, call);
      ghost var e1 := Snap();
      InvalidateCallerSaved(e1);
      ghost var q := Clobber(5, e.next + 6, e.off);
      AppendTwice(e, p.Def(call), q);
      assert Snap() == e.Append(p.Def(call).Then(q)).(off := e.off + 40);
      UpdateRegister(Bpf.R0, Bpf.W64, answer);
      FinishCall(e, p, call, q, answer);
    }

    method InvalidateCallerSaved(ghost e: Emitted)
      requires cur < |blocks| && off + 40 <= SCRATCH_BYTES && e == Snap()
      modifies `blocks, `next, `off
      ensures Snap() == e.Append(Clobber(5, e.next, e.off)).(off := e.off + 40)
      ensures Clobber(5, e.next, e.off).next == e.next + 5
    {
      AppendNothing(e, Const(0, 0));
      for reg := 1 to 6
        invariant Snap() == e.Append(Clobber(reg - 1, e.next, e.off)).(off := e.off + 8 * (reg - 1))
        invariant Clobber(reg - 1, e.next, e.off).next == e.next + reg - 1
      {
        InvalidateReg(reg, e, Clobber(reg - 1, e.next, e.off));
      }
    }

    /** Give a register a fresh unspecified value. */
    method InvalidateReg(reg: Bpf.Reg, ghost e: Emitted, ghost p: Piece)
      requires e.Valid() && off + 8 <= SCRATCH_BYTES && Snap() == e.Append(p).(off := off)
      modifies `blocks, `next, `off
      ensures Snap() == e.Append(p.Def(LoadUnspecified(p.next, 64, old(off))).Do(StoreCell(Ref(p.next), RegCell(reg))))
                        .(off := old(off) + 8)
    {
      var load := LoadUnspecified(next, 64, off);
      var v := UnspecifiedValue(64);
      AppendDefined(e, p, load);
      Emit(StoreCell(v, RegCell(reg)));
      AppendTwice(e, p.Def(load), Piece([StoreCell(v, RegCell(reg))], Const(0, 0), p.next + 1));
    }

    // ---- calls and returns with a signature ----

    /** The argument values of a call, in order, each cut to its type. */
    method MarshallArgs(ts: seq<ArgType>) returns (vals: seq<Val>)
      requires cur < |blocks| && |ts| <= 5
      modifies `blocks, `next
      ensures var (p, vs) := TypedCalls.MarshallArgs(ts, |ts|, old(next));
              Snap() == old(Snap()).Append(p) && vals == vs
    {
      ghost var e := Snap();
      vals := [];
      AppendNothing(e, Const(0, 0));
      for n := 0 to |ts|
        invariant cur < |blocks|
        invariant Snap() == e.Append(TypedCalls.MarshallArgs(ts, n, e.next).0) && vals == TypedCalls.MarshallArgs(ts, n, e.next).1
      {
        ghost var p := TypedCalls.MarshallArgs(ts, n, e.next).0;
        var v := MarshallArg(ts[n], n);
        AppendTwice(e, p, TypedCalls.MarshallArg(ts[n], n, p.next));
        vals := vals + [v];
      }
    }

    method MarshallArg(t: ArgType, n: nat) returns (v: Val)
      requires cur < |blocks| && n < 5
      modifies `blocks, `next
      ensures var p := TypedCalls.MarshallArg(t, n, old(next)); Snap() == old(Snap()).Append(p) && v == p.val
    {
      ghost var e := Snap();
      v := ReadRegister(1 + n, Bpf.W64);
      if t.Bits() < 64 {
        ghost var p := ReadReg(1 + n, Bpf.W64, e.next);
        v := Cast(Trunc, v, t.Bits());
        AppendDefined(e, p, Ir.Cast(p.next, Trunc, p.val, t.Bits()));
      }
    }

    /** What follows a call with result `v`: the result goes to r0, and r1-r5 become unspecified unless preserved. */
    method AfterCall(ret: Option<ArgType>, fastcall: bool, v: Val)
      requires cur < |blocks| && (ret.Some? ==> ret.value.Valid())
      requires off + TypedCalls.CallScratch(ret, fastcall) <= SCRATCH_BYTES
      modifies `blocks, `next, `off
      ensures Snap() == old(Snap()).Append(TypedCalls.FinishCall(ret, fastcall, v, old(next), old(off)))
                        .(off := old(off) + TypedCalls.CallScratch(ret, fastcall))
    {
      ghost var e := Snap();
      match ret
      case Some(t) =>
        var r := EnforceExtension(v, t);
        ghost var w := Widen(v, t, e.next, e.off);
        ghost var e1 := Snap();
        ClobberUnless(fastcall);
        ghost var q := TypedCalls.ClobberUnless(fastcall, w.next, e.off + t.JunkBytes());
        assert Snap() == e.Append(w).Append(q).(off := off);
        AppendTwice(e, w, q);
        Emit(StoreCell(r, RegCell(Bpf.R0)));
        AppendTwice(e, w.Then(q), Piece([StoreCell(r, RegCell(Bpf.R0))], Const(0, 0), q.next));
      case None =>
        ClobberUnless(fastcall);
        InvalidateReg(Bpf.R0, e, TypedCalls.ClobberUnless(fastcall, e.next, e.off));
    }

    method ClobberUnless(fastcall: bool)
      requires cur < |blocks| && off + (if fastcall then 0 else 40) <= SCRATCH_BYTES
      modifies `blocks, `next, `off
      ensures Snap() == old(Snap()).Append(TypedCalls.ClobberUnless(fastcall, old(next), old(off)))
                        .(off := old(off) + (if fastcall then 0 else 40))
    {
      ghost var e := Snap();
      if fastcall {
        AppendNothing(e, Const(0, 0));
      } else {
        InvalidateCallerSaved(e);
      }
    }

    /** Return the part of r0 that the return type speaks about. */
    method DoTypedReturn(t: ArgType)
      requires cur < |blocks|
      modifies `blocks, `next
      ensures var p := Returns.LiftedReturn(t, old(next)); Snap() == old(Snap()).Append(p).Close(Return(p.val))
    {
      ghost var e := Snap();
      var v := ReadRegister(Bpf.R0, Bpf.W64);
      ghost var p := ReadReg(Bpf.R0, Bpf.W64, e.next);
      if Returns.ReturnBits(t) < 64 {
        v := Cast(Trunc, v, Returns.ReturnBits(t));
        AppendDefined(e, p, Ir.Cast(p.next, Trunc, p.val, Returns.ReturnBits(t)));
        p := p.Casted(Trunc, Returns.ReturnBits(t));
      }
      if Returns.HasAttr(t) && t.width < 32 {
        v := Cast(Trunc, v, 32);
        AppendDefined(e, p, Ir.Cast(p.next, Trunc, p.val, 32));
        p := p.Casted(Trunc, 32);
        v := Cast(ZExt, v, 64);
        AppendDefined(e, p, Ir.Cast(p.next, ZExt, p.val, 64));
        p := p.Casted(ZExt, 64);
      }
      Terminate(Return(v));
    }

    // ---- control flow ----

    method DoReturn()
      requires cur < |blocks|
      modifies `blocks, `next
      ensures Snap() == LiftReturn(old(Snap()))
    {
      var v := ReadRegister(Bpf.R0, Bpf.W64);
      Terminate(Return(v));
    }

    /** The taken block by the branch's label, the other one by the first successor of a
        different name. */
    method GetBranchTargets(name: string) returns (taken: nat, other: nat)
      requires mcbb < |mf| && forall s <- mf[mcbb].succs :: s < |mf|
      ensures (taken, other) == BranchTargets(blocks, mf, mcbb, name)
    {
      taken := GetBlockByName(name);
      var succs := mf[mcbb].succs;
      var otherName := name;
      var k := 0;
      while k < |succs|
        invariant 0 <= k <= |succs|
        invariant OtherSuccessor(mf, succs, name) == OtherSuccessor(mf, succs[k..], name)
      {
        assert succs[k] in succs;
        assert succs[k..][1..] == succs[k + 1..];
        if mf[succs[k]].name != name {
          otherName := mf[succs[k]].name;
          break;
        }
        k := k + 1;
      }
      other := GetBlockByName(otherName);
    }

    method LiftBranch(cond: Bpf.Cond, w: Bpf.Width, lhs: Bpf.Reg, rhs: Bpf.Operand, name: string)
      requires cur < |blocks| && mcbb < |mf| && forall s <- mf[mcbb].succs :: s < |mf|
      modifies `blocks, `next
      ensures var p := ConditionPiece(cond, w, lhs, rhs, old(next));
              var (t, f) := BranchTargets(old(blocks), mf, mcbb, name);
              Snap() == old(Snap()).Append(p).Close(CondGoto(p.val, t, f))
    {
      ghost var e := Snap();
      var v := LiftCondition(cond, w, lhs, rhs);
      ghost var p := ConditionPiece(cond, w, lhs, rhs, e.next);
      var t, f := GetBranchTargets(name);
      SameTargets(e.blocks, e.Append(p).blocks, mf, mcbb, name);
      Terminate(CondGoto(v, t, f));
    }

    method LiftCondition(cond: Bpf.Cond, w: Bpf.Width, lhs: Bpf.Reg, rhs: Bpf.Operand) returns (v: Val)
      requires cur < |blocks|
      modifies `blocks, `next
      ensures var p := ConditionPiece(cond, w, lhs, rhs, old(next));
              Snap() == old(Snap()).Append(p) && v == p.val
    {
      ghost var e := Snap();
      var a := ReadRegister(lhs, w);
      ghost var pa := ReadReg(lhs, w, e.next);
      var b := ReadAluOperand(rhs, w);
      ghost var pb := ReadOperand(rhs, w, pa.next);
      AppendTwice(e, pa, pb);
      ghost var p := pa.Then(pb);
      if cond.Set? {
        var and := Ir.Binary(next, And, w.Bits(), a, b);
        var both := Define(and);
        AppendDefined(e, p, and);
        var test := ICmp(next, Ir.Ne, w.Bits(), both, Const(w.Bits(), 0));
        v := Define(test);
        AppendDefined(e, p.Def(and), test);
      } else {
        var test := ICmp(next, Predicate(cond), w.Bits(), a, b);
        v := Define(test);
        AppendDefined(e, p, test);
      }
    }

    method BranchToSuccessor()
      requires cur < |blocks| && mcbb < |mf| && |mf[mcbb].succs| > 0 && mf[mcbb].succs[0] < |mf|
      modifies `blocks
      ensures Snap() == old(Snap()).Close(Goto(SoleSuccessor(old(blocks), mf, mcbb)))
    {
      var b := GetBlockByName(mf[mf[mcbb].succs[0]].name);
      Terminate(Goto(b));
    }

    // ---- one instruction ----

    /** What the lifter relies on when it lifts an instruction of the current block. */
    ghost predicate Ready(i: Bpf.Insn)
      reads `mcbb, `cur, `blocks, `off
    {
      && cur < |blocks| && mcbb < |mf| && (forall s <- mf[mcbb].succs :: s < |mf|)
      && (i.Call? ==> off + 40 <= SCRATCH_BYTES)
      && (i.Branch? ==> i.target.Label?)
      && (i.Jump? && i.target.Offset? ==> |mf[mcbb].succs| > 0)
    }

    method Lift(i: Bpf.Insn) returns (error: Option<LiftError>)
      requires Ready(i)
      modifies `blocks, `cur, `next, `off
      ensures error == InsnError(i)
      ensures error.None? <==> !i.Unsupported? && (i.Call? ==> 0 <= i.imm)
      ensures error.Some? ==> error.value == if i.Unsupported? then UnsupportedInstruction else NegativeHelper
      ensures error.None? ==> Snap() == LiftInsn(old(Snap()), mf, mcbb, i)
    {
      error := None;
      if i.Unsupported? {
        error := Some(UnsupportedInstruction);
      } else if i.Call? && i.imm < 0 {
        error := Some(NegativeHelper);
      } else if i.Exit? {
        DoReturn();
      } else if i.Jump? {
        if i.target.Label? {
          var b := GetBlockByName(i.target.name);
          Terminate(Goto(b));
        } else {
          assert mf[mcbb].succs[0] in mf[mcbb].succs;
          BranchToSuccessor();
        }
      } else if i.Branch? {
        LiftBranch(i.cond, i.w, i.lhs, i.rhs, i.target.name);
      } else if i.Alu? {
        LiftAlu(i.op, i.w, i.dst, i.src);
      } else if i.Call? {
        ghost var e := Snap();
        DoHelperCall(i.imm);
        ApplyStraight(e, CallPiece(i.imm, e.next, e.off), e.off + 40);
      } else {
        LiftStraight(i);
      }
    }

    method LiftStraight(i: Bpf.Insn)
      requires cur < |blocks| && !i.IsTerminator() && !i.Unsupported? && !i.Call? && !i.Alu?
      modifies `blocks, `next
      ensures Snap() == Apply(old(Snap()), DataFragment(i, old(next), old(off), |old(blocks)|))
    {
      ghost var e := Snap();
      if i.IsRegisterOp() {
        LiftRegisterOp(i);
        ApplyStraight(e, RegisterPiece(i, e.next), e.off);
      } else if i.Nop? {
        AppendNothing(e, Const(0, 0));
        ApplyStraight(e, Start(e.next), e.off);
      } else {
        ghost var p := LiftMemoryOp(i);
        ApplyStraight(e, p, e.off);
      }
    }

    method LiftRegisterOp(i: Bpf.Insn)
      requires cur < |blocks| && i.IsRegisterOp() && !i.Alu?
      modifies `blocks, `next
      ensures Snap() == old(Snap()).Append(RegisterPiece(i, old(next)))
    {
      match i
      case Neg(w, dst) => LiftNeg(w, dst);
      case Mov(w, dst, src) => LiftMove(w, dst, src);
      case MovZext(dst, from) => LiftMove(Bpf.W32, dst, Bpf.RegOp(from));
      case MovSext(w, size, dst, from) => LiftMovSext(w, size, dst, from);
      case LoadImm64(dst, imm) => UpdateRegister(dst, Bpf.W64, Const(64, imm));
      case Endian(swap, size, dst) => LiftEndian(swap, size, dst);
    }

    method LiftMemoryOp(i: Bpf.Insn) returns (ghost p: Piece)
      requires cur < |blocks| && (i.LoadMem? || i.StoreMem? || i.StoreImm? || i.Atomic? || i.CompareExchange?)
      modifies `blocks, `next
      ensures DataFragment(i, old(next), old(off), |old(blocks)|) == Straight(p, old(off))
      ensures Snap() == old(Snap()).Append(p)
    {
      ghost var id := next;
      match i
      case LoadMem(size, sext, wDest, dst, b, o) =>
        LiftLoad(size, sext, wDest, dst, b, o);
        p := LoadPiece(size, sext, wDest, dst, b, o, id);
      case StoreMem(size, wSrc, v, b, o) =>
        LiftStore(size.Bits(), wSrc, v, b, o);
        p := StorePiece(size.Bits(), wSrc, v, b, o, id);
      case StoreImm(size, imm, b, o) =>
        LiftStoreImm(size.Bits(), imm, b, o);
        p := StoreImmPiece(size.Bits(), imm, b, o, id);
      case Atomic(op, w, fetch, v, b, o) =>
        LiftAtomic(op, w, fetch, v, b, o);
        p := AtomicPiece(op, w, fetch, v, b, o, id);
      case CompareExchange(w, v, b, o) =>
        LiftCompareExchange(w, v, b, o);
        p := CompareExchangePiece(w, v, b, o, id);
    }

    // ---- function entry ----

    /** Widens an argument to a register as its attributes say. */
    method EnforceExtension(v: Val, t: ArgType) returns (r: Val)
      requires cur < |blocks| && t.Valid() && off + t.JunkBytes() <= SCRATCH_BYTES
      modifies `blocks, `next, `off
      ensures var p := Widen(v, t, old(next), old(off));
              Snap() == old(Snap()).Append(p).(off := old(off) + t.JunkBytes()) && r == p.val
    {
      ghost var e := Snap();
      r := v;
      if t.Bits() == 64 {
        AppendNothing(e, v);
      } else if t.zext {
        r := Cast(ZExt, v, 64);
      } else if t.sext {
        r := Cast(SExt, v, 64);
      } else {
        r := PadWithJunk(v, t.width);
      }
    }

    method PadWithJunk(v: Val, width: nat) returns (r: Val)
      requires cur < |blocks| && 1 <= width < 64 && off + (64 - width + 7) / 8 <= SCRATCH_BYTES
      modifies `blocks, `next, `off
      ensures var p := Widen(v, Int(width, false, false), old(next), old(off));
              Snap() == old(Snap()).Append(p).(off := old(off) + (64 - width + 7) / 8) && r == p.val
    {
      ghost var e := Snap();
      var load := LoadUnspecified(next, 64 - width, off);
      var junk := UnspecifiedValue(64 - width);
      ghost var used := off;
      ghost var p := Start(e.next).Def(load);
      var ext1 := Ir.Cast(next, ZExt, junk, 64);
      var wide := Define(ext1);
      AppendDefined(e, p, ext1);
      p := p.Def(ext1);
      var shl := Ir.Binary(next, Shl, 64, wide, Const(64, width));
      var shifted := Define(shl);
      AppendDefined(e, p, shl);
      p := p.Def(shl);
      var ext2 := Ir.Cast(next, ZExt, v, 64);
      var low := Define(ext2);
      AppendDefined(e, p, ext2);
      p := p.Def(ext2);
      var or := Ir.Binary(next, Or, 64, shifted, low);
      r := Define(or);
      AppendDefined(e, p, or);
    }

    /** Storage for one register, filled with an unspecified value. */
    method CreateRegStorage(reg: Bpf.Reg, ghost e: Emitted, ghost p: Piece)
      requires e.Valid() && off + 8 <= SCRATCH_BYTES && Snap() == e.Append(p).(off := off)
      modifies `blocks, `next, `off
      ensures Snap() == e.Append(p.Do(Alloca(RegCell(reg))).Def(LoadUnspecified(p.next, 64, old(off)))
                                  .Do(StoreCell(Ref(p.next), RegCell(reg)))).(off := old(off) + 8)
    {
      Emit(Alloca(RegCell(reg)));
      AppendTwice(e, p, Piece([Alloca(RegCell(reg))], Const(0, 0), p.next));
      InvalidateReg(reg, e, p.Do(Alloca(RegCell(reg))));
    }

    /** Register file, frame pointer, and arguments in r1 up to r5. */
    method PlatformInit(args: seq<ArgType>)
      requires ValidArgs(args) && mf != [] && Snap() == Emitted(EmptyBlocks(mf), 0, 0, 0)
      requires ArgOffset(args, |args|) <= SCRATCH_BYTES
      modifies `blocks, `next, `off
      ensures Snap() == Prepared(mf, args)
    {
      ghost var e := Snap();
      var frame := Define(FrameAlloc(next));
      ghost var p := Start(0).Def(FrameAlloc(0));
      ghost var storage := RegisterStorage(0, 1, 0);
      AppendTwice(e, p, storage);
      assert p.code + [] == p.code;
      ghost var e1 := Snap();
      CreateRegisters(e1);
      AppendTwice(e, p, RegisterStorage(12, 1, 0));
      p := p.Then(RegisterStorage(12, 1, 0));
      var gep := Gep(next, frame, Const(64, STACK_BYTES));
      var top := Define(gep);
      AppendDefined(e, p, gep);
      Emit(StoreCell(top, RegCell(Bpf.R10)));
      AppendTwice(e, p.Def(gep), Piece([StoreCell(top, RegCell(Bpf.R10))], Const(0, 0), p.next + 1));
      p := p.Def(gep).Do(StoreCell(top, RegCell(Bpf.R10)));
      assert Snap() == e.Append(p).(off := 96);
      StoreArguments(args, e, p);
      assert p.Then(StoreArgs(args, |args|, p.next)).code == Setup(args).code;
    }

    method CreateRegisters(ghost e: Emitted)
      requires e.Valid() && e == Snap() && e.next == 1 && off == 0
      modifies `blocks, `next, `off
      ensures Snap() == e.Append(RegisterStorage(12, 1, 0)).(off := 96)
    {
      AppendNothing(e, Const(0, 0));
      for reg := 0 to 12
        invariant Snap() == e.Append(RegisterStorage(reg, 1, 0)).(off := 8 * reg)
        invariant RegisterStorage(reg, 1, 0).next == 1 + reg
      {
        CreateRegStorage(reg, e, RegisterStorage(reg, 1, 0));
      }
    }

    method StoreArguments(args: seq<ArgType>, ghost e: Emitted, ghost p: Piece)
      requires ValidArgs(args) && e.Valid() && ArgOffset(args, |args|) <= SCRATCH_BYTES
      requires Snap() == e.Append(p).(off := 96)
      modifies `blocks, `next, `off
      ensures Snap() == e.Append(p.Then(StoreArgs(args, |args|, p.next))).(off := ArgOffset(args, |args|))
    {
      assert p.code + [] == p.code;
      for n := 0 to |args|
        invariant Snap() == e.Append(p.Then(StoreArgs(args, n, p.next))).(off := ArgOffset(args, n))
      {
        assert args[n] in args;
        ArgOffsetGrows(args, n + 1, |args|);
        StoreArgument(args, n, e, p);
      }
    }

    method StoreArgument(args: seq<ArgType>, n: nat, ghost e: Emitted, ghost p: Piece)
      requires ValidArgs(args) && n < |args| && e.Valid() && ArgOffset(args, n + 1) <= SCRATCH_BYTES
      requires Snap() == e.Append(p.Then(StoreArgs(args, n, p.next))).(off := ArgOffset(args, n))
      modifies `blocks, `next, `off
      ensures Snap() == e.Append(p.Then(StoreArgs(args, n + 1, p.next))).(off := ArgOffset(args, n + 1))
    {
      assert args[n] in args;
      ghost var q := StoreArgs(args, n, p.next);
      ghost var w := Widen(Arg(n), args[n], q.next, ArgOffset(args, n));
      var v := EnforceExtension(Arg(n), args[n]);
      AppendTwice(e, p.Then(q), w);
      var store := StoreCell(v, RegCell(n + 1));
      Emit(store);
      AppendTwice(e, p.Then(q).Then(w), Piece([store], Const(0, 0), w.next));
      assert p.Then(q).Then(w).code + [store] == p.Then(q.Then(w).Do(store)).code;
    }

    // ---- the whole function ----

    /** What the blocks must be like for lifting not to fail an assertion. */
    ghost predicate Liftable(args: seq<ArgType>) {
      && mf != [] && (forall t <- args :: t.Valid())
      && (forall b :: 0 <= b < |mf| ==> LiftableBlock(mf[b], |mf|))
      && (|args| <= 5 ==> ArgOffset(args, |args|) + 40 * CallCount(Concat(mf)) <= SCRATCH_BYTES)
    }

    /** Machine code falls through, the IR may not: close the block if it is still open. */
    method CloseFallThrough()
      requires cur < |blocks| && mcbb < |mf| && forall s <- mf[mcbb].succs :: s < |mf|
      modifies `blocks, `next
      ensures Snap() == FallThrough(old(Snap()), mf, mcbb)
    {
      if blocks[cur].term.None? {
        if |mf[mcbb].succs| == 0 {
          DoReturn();
        } else if |mf[mcbb].succs| == 1 {
          assert mf[mcbb].succs[0] in mf[mcbb].succs;
          BranchToSuccessor();
        }
      }
    }

    /** Lifts one block; stops at the first instruction that cannot be lifted. */
    method LiftBlock(b: nat, args: seq<ArgType>) returns (error: Option<LiftError>)
      requires b < |mf| <= |blocks| && Liftable(args) && |args| <= 5
      requires FirstError(Concat(mf[..b])).None?
      requires off == ArgOffset(args, |args|) + 40 * CallCount(Concat(mf[..b]))
      modifies this
      ensures error.Some? ==> error == FirstError(Concat(mf))
      ensures error.None? ==>
                && FirstError(Concat(mf[..b + 1])).None?
                && Snap() == Emission.LiftBlock(old(Snap()), mf, b)
                && off == ArgOffset(args, |args|) + 40 * CallCount(Concat(mf[..b + 1]))
    {
      hide LiftInstrs, FallThrough, FirstError, CallCount, ArgOffset, Midway;
      assert mf[..b + 1][..b] == mf[..b];
      ConcatPrefix(mf, b + 1);
      cur, mcbb := b, b;
      assert LiftableBlock(mf[b], |mf|);
      ghost var start, before, base := Snap(), Concat(mf[..b]), ArgOffset(args, |args|);
      MidwayEnds(start, mf, b, before, base);
      error := LiftInstructions(b, before, Concat(mf), base);
      if error.None? {
        FallThroughOff(Snap(), mf, b);
        CloseFallThrough();
      }
    }

    /** The instructions of block b, lifted where `before` was lifted already. */
    method LiftInstructions(b: nat, ghost before: seq<Bpf.Insn>, ghost all: seq<Bpf.Insn>, ghost base: nat)
      returns (error: Option<LiftError>)
      requires b < |mf| && cur < |blocks| && mcbb == b && LiftableBlock(mf[b], |mf|)
      requires before + mf[b].instrs <= all && base + 40 * CallCount(all) <= SCRATCH_BYTES
      requires Midway(Snap(), mf, b, 0, before, base)
      modifies `blocks, `cur, `next, `off
      ensures error.Some? ==> error == FirstError(all)
      ensures error.None? ==> Snap() == LiftInstrs(old(Snap()), mf, b, |mf[b].instrs|)
      ensures error.None? ==> Midway(old(Snap()), mf, b, |mf[b].instrs|, before, base)
    {
      hide LiftInsn, LiftInstrs, InsnError, FirstError, CallCount, LiftableBlock, Midway;
      ghost var start := Snap();
      NoInstrs(start, mf, b);
      error := None;
      for j := 0 to |mf[b].instrs|
        invariant error.None? && Snap() == LiftInstrs(start, mf, b, j)
        invariant Midway(start, mf, b, j, before, base)
      {
        InstrsNext(start, mf, b, j, before, all, base);
        error := Lift(mf[b].instrs[j]);
        if error.Some? { return; }
      }
    }

    /** The machine function, block by block, into the IR function. */
    method LiftMCFunction(args: seq<ArgType>) returns (error: Option<LiftError>)
      requires Liftable(args) && Snap() == Emitted(EmptyBlocks(mf), 0, 0, 0)
      modifies this
      ensures error == if |args| > 5 then Some(TooManyArguments) else FirstError(Concat(mf))
      ensures error.None? <==> |args| <= 5 && forall i <- Concat(mf) :: !i.Unsupported? && (i.Call? ==> 0 <= i.imm)
      ensures error.None? ==> blocks == LiftGraph(mf, args)
    {
      NoErrorMeans(Concat(mf));
      if |args| > 5 { return Some(TooManyArguments); }
      hide Concat, FirstError;
      PlatformInit(args);
      error := LiftAllBlocks(args);
    }

    method LiftAllBlocks(args: seq<ArgType>) returns (error: Option<LiftError>)
      requires Liftable(args) && |args| <= 5 && Snap() == Prepared(mf, args)
      modifies this
      ensures error == FirstError(Concat(mf))
      ensures error.None? ==> blocks == LiftGraph(mf, args)
    {
      ghost var e, base := Snap(), ArgOffset(args, |args|);
      assert mf[..0] == [] && Concat([]) == [] && CallCount([]) == 0 && FirstError([]).None?;
      assert off == base;
      assert LiftGraph(mf, args) == LiftBlocks(e, mf, |mf|).blocks;
      hide Prepared, FirstError, CallCount, Concat, Emission.LiftBlock, ArgOffset, Liftable, LiftGraph;
      for b := 0 to |mf|
        invariant Snap() == LiftBlocks(e, mf, b)
        invariant FirstError(Concat(mf[..b])).None?
        invariant off == base + 40 * CallCount(Concat(mf[..b]))
      {
        error := LiftBlock(b, args);
        if error.Some? { return; }
      }
      assert mf[..|mf|] == mf;
      error := None;
    }
  }

  ghost predicate LiftableBlock(b: McBlock, n: nat) {
    && (forall s <- b.succs :: s < n)
    && forall i <- b.instrs ::
         && (i.Branch? ==> i.target.Label?)
         && (i.Jump? && i.target.Offset? ==> |b.succs| > 0)
  }

  /** Up to instruction j of block b everything could be lifted, each call with its scratch bytes. */
  ghost predicate Midway(e: Emitted, g: seq<McBlock>, b: nat, j: nat, before: seq<Bpf.Insn>, base: nat)
    requires e.Valid() && b < |g| && j <= |g[b].instrs|
  {
    var upto := before + g[b].instrs[..j];
    FirstError(upto).None? && LiftInstrs(e, g, b, j).off == base + 40 * CallCount(upto)
  }

  lemma {:induction false} MidwayEnds(e: Emitted, g: seq<McBlock>, b: nat, before: seq<Bpf.Insn>, base: nat)
    requires e.Valid() && b < |g|
    ensures Midway(e, g, b, 0, before, base) <==> FirstError(before).None? && e.off == base + 40 * CallCount(before)
    ensures Midway(e, g, b, |g[b].instrs|, before, base)
            <==> FirstError(before + g[b].instrs).None?
                 && LiftInstrs(e, g, b, |g[b].instrs|).off == base + 40 * CallCount(before + g[b].instrs)
  {
    hide FirstError, CallCount, LiftInsn;
    var instrs := g[b].instrs;
    assert before + instrs[..0] == before && instrs[..|instrs|] == instrs;
  }

  lemma {:induction false} NoInstrs(e: Emitted, g: seq<McBlock>, b: nat)
    requires e.Valid() && b < |g|
    ensures LiftInstrs(e, g, b, 0) == e
  {
  }

  /** Everything that lifting instruction j relies on and leads to. */
  lemma {:induction false} InstrsNext(e: Emitted, g: seq<McBlock>, b: nat, j: nat, before: seq<Bpf.Insn>,
                                      all: seq<Bpf.Insn>, base: nat)
    requires e.Valid() && b < |g| && j < |g[b].instrs| && LiftableBlock(g[b], |g|) && before + g[b].instrs <= all
    requires Midway(e, g, b, j, before, base) && base + 40 * CallCount(all) <= SCRATCH_BYTES
    ensures var i := g[b].instrs[j];
            && LiftInstrs(e, g, b, j + 1) == LiftInsn(LiftInstrs(e, g, b, j), g, b, i)
            && (i.Call? ==> LiftInstrs(e, g, b, j).off + 40 <= SCRATCH_BYTES)
            && (forall s <- g[b].succs :: s < |g|) && (i.Branch? ==> i.target.Label?)
            && (i.Jump? && i.target.Offset? ==> |g[b].succs| > 0)
            && (InsnError(i).None? ==> Midway(e, g, b, j + 1, before, base))
            && (InsnError(i).Some? ==> FirstError(all) == InsnError(i))
  {
    hide LiftInsn, LiftableBlock, FirstError, CallCount, InsnError;
    OneMore(before, g[b].instrs, j, all);
    LiftInsnOff(LiftInstrs(e, g, b, j), g, b, g[b].instrs[j]);
    LiftableInsn(g[b], |g|, j);
  }

  lemma LiftableInsn(b: McBlock, n: nat, j: nat)
    requires LiftableBlock(b, n) && j < |b.instrs|
    ensures (forall s <- b.succs :: s < n) && (b.instrs[j].Branch? ==> b.instrs[j].target.Label?)
    ensures b.instrs[j].Jump? && b.instrs[j].target.Offset? ==> |b.succs| > 0
  {
    assert b.instrs[j] in b.instrs;
  }

  function CallCount(ins: seq<Bpf.Insn>): nat {
    if ins == [] then 0 else CallCount(ins[..|ins| - 1]) + if ins[|ins| - 1].Call? then 1 else 0
  }

  /** The first error among the instructions, in order. */
  function FirstError(ins: seq<Bpf.Insn>): Option<LiftError> {
    if ins == [] then None
    else
      var before := FirstError(ins[..|ins| - 1]);
      if before.Some? then before else InsnError(ins[|ins| - 1])
  }

  /** No error: every instruction is supported, and no helper number is negative. */
  lemma {:induction false} NoErrorMeans(ins: seq<Bpf.Insn>)
    ensures FirstError(ins).None? <==> forall i <- ins :: !i.Unsupported? && (i.Call? ==> 0 <= i.imm)
    decreases |ins|
  {
    if ins != [] {
      var front, last := ins[..|ins| - 1], ins[|ins| - 1];
      NoErrorMeans(front);
      assert forall i :: i in ins <==> i in front || i == last;
    }
  }

  /** The error is that of the first instruction that has one. */
  lemma {:induction false} ErrorOfFirst(ins: seq<Bpf.Insn>, k: nat)
    requires k < |ins| && (ins[k].Unsupported? || (ins[k].Call? && ins[k].imm < 0))
    requires forall j :: 0 <= j < k ==> !ins[j].Unsupported? && (ins[j].Call? ==> 0 <= ins[j].imm)
    ensures FirstError(ins) == Some(if ins[k].Unsupported? then UnsupportedInstruction else NegativeHelper)
  {
    NoErrorMeans(ins[..k]);
    var upto := ins[..k + 1];
    assert upto[..k] == ins[..k] && upto[k] == ins[k];
    assert FirstError(upto).Some?;
    ErrorInPrefix(upto, ins);
  }

  lemma {:induction false} ErrorInPrefix(a: seq<Bpf.Insn>, b: seq<Bpf.Insn>)
    requires a <= b
    ensures FirstError(a).Some? ==> FirstError(b) == FirstError(a)
    ensures CallCount(a) <= CallCount(b)
    decreases |b|
  {
    if a != b {
      assert a == b[..|a|] == b[..|b| - 1][..|a|];
      ErrorInPrefix(a, b[..|b| - 1]);
    }
  }

  lemma {:induction false} ConcatPrefix(g: seq<McBlock>, n: nat)
    requires n <= |g|
    ensures Concat(g[..n]) <= Concat(g)
    decreases |g|
  {
    if n == |g| {
      assert g[..n] == g;
    } else {
      assert g[..|g| - 1][..n] == g[..n];
      ConcatPrefix(g[..|g| - 1], n);
    }
  }

  /** The effect of one more instruction on the first error and the number of calls. */
  lemma {:induction false} OneMore(before: seq<Bpf.Insn>, instrs: seq<Bpf.Insn>, j: nat, all: seq<Bpf.Insn>)
    requires j < |instrs| && before + instrs <= all && FirstError(before + instrs[..j]).None?
    ensures FirstError(before + instrs[..j + 1]) == InsnError(instrs[j])
    ensures InsnError(instrs[j]).Some? ==> FirstError(all) == InsnError(instrs[j])
    ensures CallCount(before + instrs[..j + 1]) == CallCount(before + instrs[..j]) + if instrs[j].Call? then 1 else 0
    ensures CallCount(before + instrs[..j + 1]) <= CallCount(all)
  {
    var upto := before + instrs[..j + 1];
    assert upto[..|upto| - 1] == before + instrs[..j] && upto[|upto| - 1] == instrs[j];
    assert upto <= all by {
      assert all[..|upto|] == (before + instrs)[..|upto|] == upto;
    }
    ErrorInPrefix(upto, all);
  }

  lemma {:induction false} ArgOffsetGrows(args: seq<ArgType>, m: nat, n: nat)
    requires m <= n <= |args| && forall t <- args :: t.Valid()
    ensures ArgOffset(args, m) <= ArgOffset(args, n)
    decreases n
  {
    if m < n {
      ArgOffsetGrows(args, m, n - 1);
    }
  }

  datatype LiftError = LocalCall | EmptyProgram | BadBranch | TooManyArguments | NegativeHelper | UnsupportedInstruction

  /** The error lifting an instruction ends with, if any. */
  function InsnError(i: Bpf.Insn): Option<LiftError> {
    if i.Unsupported? then Some(UnsupportedInstruction)
    else if i.Call? && i.imm < 0 then Some(NegativeHelper)
    else None
  }

  lemma ApplyStraight(e: Emitted, p: Piece, off: nat)
    requires e.Valid()
    ensures Apply(e, Straight(p, off)) == e.Append(p).(off := off)
  {
  }

  /** Appending code renames no block. */
  lemma {:induction false} SameTargets(f: Fn, f': Fn, g: seq<McBlock>, b: nat, name: string)
    requires |f| == |f'| && (forall k :: 0 <= k < |f| ==> f[k].name == f'[k].name) && b < |g|
    ensures BranchTargets(f, g, b, name) == BranchTargets(f', g, b, name)
  {
    SameNamed(f, f', name);
    SameNamed(f, f', OtherSuccessor(g, g[b].succs, name));
  }

  lemma {:induction false} SameNamed(f: Fn, f': Fn, name: string)
    requires |f| == |f'| && forall k :: 0 <= k < |f| ==> f[k].name == f'[k].name
    ensures BlockNamed(f, name) == BlockNamed(f', name)
    decreases |f|
  {
    if f != [] && f[0].name != name {
      SameNamed(f[1..], f'[1..], name);
    }
  }

  lemma FinishCall(e: Emitted, p: Piece, call: Inst, q: Piece, answer: Val)
    requires e.Valid() && p == ReadArgs(5, e.next) && p.next == e.next + 5 && answer == Ref(e.next + 5)
    requires q == Clobber(5, e.next + 6, e.off)
    requires call.CallHelper?
             && call == CallHelper(e.next + 5, call.helper,
                                   [Ref(e.next), Ref(e.next + 1), Ref(e.next + 2), Ref(e.next + 3), Ref(e.next + 4)])
    ensures e.Append(p.Def(call).Then(q)).(off := e.off + 40).Append(WriteReg(Bpf.R0, Bpf.W64, answer, q.next))
            == e.Append(CallPiece(call.helper, e.next, e.off)).(off := e.off + 40)
  {
    hide ReadArgs, Clobber;
    var w := WriteReg(Bpf.R0, Bpf.W64, answer, q.next);
    AppendTwice(e, p.Def(call).Then(q), w);
    assert w.code == [StoreCell(answer, RegCell(Bpf.R0))];
    assert p.Def(call).Then(q).Then(w).code == CallPiece(call.helper, e.next, e.off).code;
  }

  lemma HeadAfter(op: Bpf.AluOp, bits: nat, before: Piece, a: Val, b: Val)
    requires IsDivision(op)
    ensures before.Then(DivisionHead(op, bits, Start(before.next), a, b)) == DivisionHead(op, bits, before, a, b)
    ensures DivisionHead(op, bits, before, a, b).next == before.next + 2
  {
    var cell := ResultCell(before.next);
    var ifZero := if op.Div? || op.SDiv? then Const(bits, 0) else a;
    var test := ICmp(before.next + 1, Ir.Eq, bits, b, Const(bits, 0));
    assert before.code + ([] + [Alloca(cell)] + [StoreCell(ifZero, cell)] + [test])
           == before.code + [Alloca(cell)] + [StoreCell(ifZero, cell)] + [test];
  }

  /** Operands, checked division and write of the destination, as one fragment. */
  lemma DivisionApplied(e: Emitted, op: Bpf.AluOp, w: Bpf.Width, dst: Bpf.Reg, operands: Piece, a: Val, b: Val)
    requires e.Valid() && IsDivision(op)
    ensures var e1 := AfterDivision(e.Append(operands), op, w.Bits(), a, b);
            var v := DivisionResult(op, w.Bits(), ResultCell(operands.next), operands.next + 2).val;
            e1.Append(WriteReg(dst, w, v, e1.next)) == Apply(e, DivisionFragment(op, w, dst, operands, a, b, e.off, |e.blocks|))
  {
    hide Apply, Emitted.Fork, Emitted.Append, WriteReg, DivisionHead, DivisionArms;
    var bits, cell, base := w.Bits(), ResultCell(operands.next), |e.blocks|;
    var head1 := DivisionHead(op, bits, Start(operands.next), a, b);
    var head := DivisionHead(op, bits, operands, a, b);
    HeadAfter(op, bits, operands, a, b);
    AppendTwice(e, operands, head1);
    AppendMoves(e, operands);
    AppendMoves(e, head);
    var result := DivisionResult(op, bits, cell, head.next);
    var split := Split(CondGoto(head.val, base + ArmCount(op), base),
                       DivisionArms(op, bits, a, b, cell, head.next, base), result.code);
    var write := WriteReg(dst, w, result.val, result.next);
    AppendAfterFork(e.Append(head), split, write);
    AppendSetsNext(e.Append(head).Fork(split), result.next, write);
    AppliedSplit(e, head, split.(tail := split.tail + write.code), write.next);
  }

  lemma AppendMoves(e: Emitted, p: Piece)
    requires e.Valid()
    ensures e.Append(p).Valid() && e.Append(p).next == p.next && |e.Append(p).blocks| == |e.blocks|
  {
  }

  lemma AppendSetsNext(e: Emitted, next: nat, p: Piece)
    requires e.Valid()
    ensures e.(next := next).Append(p) == e.Append(p)
  {
  }

  lemma AppliedSplit(e: Emitted, head: Piece, s: Split, next: nat)
    requires e.Valid()
    ensures e.Append(head).Fork(s).(next := next) == Apply(e, Fragment(head.code, Some(s), next, e.off))
  {
  }

  /** The block that tests for the overflowing division, number `base`. */
  function OverflowArm(bits: nat, a: Val, b: Val, id: nat, base: nat): Block
    requires bits > 0
  {
    Block("", OverflowCheck(bits, Pow2(bits - 1), Pow2(bits) - 1, a, b, id).code,
          Some(CondGoto(Ref(id + 2), base + 1, base + 2)))
  }

  lemma ArmsAre(op: Bpf.AluOp, bits: nat, a: Val, b: Val, cell: Cell, id: nat, base: nat)
    requires (op.SDiv? || op.SMod?) && bits > 0
    ensures DivisionArms(op, bits, a, b, cell, id, base)
            == [OverflowArm(bits, a, b, id, base),
                Block("", [StoreCell(if op.SDiv? then a else Const(bits, 0), cell)], Some(Goto(base + 3))),
                Block("", DividePiece(op, bits, a, b, cell, id + 3).code, Some(Goto(base + 3)))]
  {
  }

  /** The function after a checked division of a by b: a diamond, ending in the load of the
      result in the block where its arms join. */
  function AfterDivision(e: Emitted, op: Bpf.AluOp, bits: nat, a: Val, b: Val): (e': Emitted)
    requires e.Valid() && IsDivision(op) && bits > 0
    ensures e'.Valid()
  {
    var head := DivisionHead(op, bits, Start(e.next), a, b);
    var cell, base := ResultCell(e.next), |e.blocks|;
    var result := DivisionResult(op, bits, cell, head.next);
    e.Append(head)
    .Fork(Split(CondGoto(head.val, base + ArmCount(op), base),
                DivisionArms(op, bits, a, b, cell, head.next, base), result.code))
    .(next := result.next)
  }
}
