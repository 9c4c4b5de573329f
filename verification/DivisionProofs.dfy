/** The multi-block code of a checked division computes the total functions of
    RFC 9669, section 4.1, and never executes a division LLVM leaves undefined. */
module DivisionProofs {
  import opened Options
  import opened Words
  import opened Ir
  import opened Codegen
  import opened CodegenProofs
  import Bpf

  /** The divisions the arms execute are defined, and agree with the machine's. */
  lemma UnsignedDefined(op: Bpf.AluOp, bits: nat, x: nat, y: nat)
    requires (op.Div? || op.Mod?) && bits > 0 && x < Pow2(bits) && 0 < y < Pow2(bits)
    ensures BinaryResult(Opcode(op), bits, x, y) == Some(Bpf.AluResult(op, bits, x, y))
  {
  }

  lemma SignedDefined(op: Bpf.AluOp, bits: nat, x: nat, y: nat)
    requires (op.SDiv? || op.SMod?) && bits > 1 && x < Pow2(bits) && 0 < y < Pow2(bits)
    requires !(x == Pow2(bits - 1) && y == Pow2(bits) - 1)
    ensures BinaryResult(Opcode(op), bits, x, y) == Some(Bpf.AluResult(op, bits, x, y))
  {
    Pow2Step(bits);
    Pow2Step(bits - 1);
  }

  /** The one overflowing signed division wraps to the dividend; its remainder is zero. */
  lemma SignedOverflow(op: Bpf.AluOp, bits: nat)
    requires (op.SDiv? || op.SMod?) && bits > 1
    ensures Pow2(bits - 1) < Pow2(bits)
    ensures Bpf.AluResult(op, bits, Pow2(bits - 1), Pow2(bits) - 1) == if op.SDiv? then Pow2(bits - 1) else 0
    ensures SignedDivisionUndefined(bits, Pow2(bits - 1), Pow2(bits) - 1)
  {
    Pow2Step(bits);
    Pow2Step(bits - 1);
    var m: nat := Pow2(bits - 1);
    assert Signed(bits, m) == -(m as int);
    assert Signed(bits, Pow2(bits) - 1) == -1;
    NegatedQuotient(m);
    WrapIdentity(bits, m);
    WrapIdentity(bits, 0);
  }

  lemma NegatedQuotient(m: nat)
    ensures TruncDiv(-(m as int), -1) == m && TruncRem(-(m as int), -1) == 0
  {
    if m > 0 {
      assert TruncDiv(-(m as int), -1) == m / 1;
      DivOne(m);
    }
  }

  /** Operand values stay available, the register cells still match, and the result cell
      holds r. */
  ghost predicate Holding(cfg: Config, c: Bpf.Core, d: Data, bits: nat, a: Val, x: nat, b: Val, y: nat, cell: Cell, r: nat) {
    && Matches(c, d)
    && Eval(cfg, a, d.env) == Some(Typed(bits, x))
    && Eval(cfg, b, d.env) == Some(Typed(bits, y))
    && cell.ResultCell? && cell in d.cells && d.cells[cell] == Typed(bits, r)
  }

  function ZeroResult(op: Bpf.AluOp, x: nat): nat
    requires IsDivision(op)
  {
    if op.Div? || op.SDiv? then 0 else x
  }

  lemma {:induction false} HeadRuns(cfg: Config, c: Bpf.Core, d: Data, op: Bpf.AluOp, bits: nat, before: Piece,
                 a: Val, x: nat, b: Val, y: nat)
    requires IsDivision(op) && bits > 0
    requires Run(cfg, before.code, d).Some? && Matches(c, After(cfg, before, d))
    requires Eval(cfg, a, After(cfg, before, d).env) == Some(Typed(bits, x))
    requires Eval(cfg, b, After(cfg, before, d).env) == Some(Typed(bits, y))
    requires Below(a, before.next) && Below(b, before.next)
    ensures var head := DivisionHead(op, bits, before, a, b);
            && Run(cfg, head.code, d).Some?
            && Holding(cfg, c, After(cfg, head, d), bits, a, x, b, y, ResultCell(before.next), ZeroResult(op, x))
            && head.next == before.next + 2
            && Eval(cfg, head.val, After(cfg, head, d).env) == Some(Typed(1, if y == 0 then 1 else 0))
  {
    var cell := ResultCell(before.next);
    var ifZero := if op.Div? || op.SDiv? then Const(bits, 0) else a;
    var p0 := before.(next := before.next + 1);
    var p2 := p0.Do(Alloca(cell)).Do(StoreCell(ifZero, cell));
    CellPrepared(cfg, c, d, bits, p0, a, x, b, y, cell, ifZero, ZeroResult(op, x));
    ICmpHolds(cfg, c, p2, d, bits, a, x, b, y, cell, ZeroResult(op, x), b, y, Const(bits, 0), 0);
  }

  lemma {:induction false} CellPrepared(cfg: Config, c: Bpf.Core, d: Data, bits: nat, p: Piece, a: Val, x: nat, b: Val,
                                        y: nat, cell: Cell, v: Val, r: nat)
    requires Run(cfg, p.code, d).Some? && Matches(c, After(cfg, p, d)) && cell.ResultCell?
    requires Eval(cfg, a, After(cfg, p, d).env) == Some(Typed(bits, x))
    requires Eval(cfg, b, After(cfg, p, d).env) == Some(Typed(bits, y))
    requires Eval(cfg, v, After(cfg, p, d).env) == Some(Typed(bits, r))
    ensures var q := p.Do(Alloca(cell)).Do(StoreCell(v, cell));
            Run(cfg, q.code, d).Some? && Holding(cfg, c, After(cfg, q, d), bits, a, x, b, y, cell, r)
  {
    DoRuns(cfg, p, d, Alloca(cell));
    var p1 := p.Do(Alloca(cell));
    CellAllocated(cfg, c, After(cfg, p, d), cell);
    DoRuns(cfg, p1, d, StoreCell(v, cell));
    CellStored(cfg, c, After(cfg, p1, d), bits, a, x, b, y, cell, v, r);
  }

  lemma CellAllocated(cfg: Config, c: Bpf.Core, d: Data, cell: Cell)
    requires Matches(c, d) && cell.ResultCell?
    ensures Exec(cfg, Alloca(cell), d).Some?
    ensures Matches(c, Exec(cfg, Alloca(cell), d).value) && Exec(cfg, Alloca(cell), d).value.env == d.env
  {
  }

  lemma CellStored(cfg: Config, c: Bpf.Core, d: Data, bits: nat, a: Val, x: nat, b: Val, y: nat, cell: Cell, v: Val, r: nat)
    requires Matches(c, d) && cell.ResultCell? && Eval(cfg, v, d.env) == Some(Typed(bits, r))
    requires Eval(cfg, a, d.env) == Some(Typed(bits, x)) && Eval(cfg, b, d.env) == Some(Typed(bits, y))
    ensures Exec(cfg, StoreCell(v, cell), d).Some?
    ensures Holding(cfg, c, Exec(cfg, StoreCell(v, cell), d).value, bits, a, x, b, y, cell, r)
  {
  }

  lemma BindHolds(cfg: Config, c: Bpf.Core, d: Data, bits: nat, a: Val, x: nat, b: Val, y: nat, cell: Cell, r: nat,
                  id: nat, w: nat, n: nat)
    requires Holding(cfg, c, d, bits, a, x, b, y, cell, r) && Below(a, id) && Below(b, id)
    ensures Holding(cfg, c, d.Bind(id, w, n), bits, a, x, b, y, cell, r)
  {
  }

  lemma ExecICmp(cfg: Config, d: Data, id: nat, p: Pred, bits: nat, a: Val, x: nat, b: Val, y: nat)
    requires bits > 0
    requires Eval(cfg, a, d.env) == Some(Typed(bits, x)) && Eval(cfg, b, d.env) == Some(Typed(bits, y))
    ensures Exec(cfg, ICmp(id, p, bits, a, b), d) == Some(d.Bind(id, 1, if Compares(p, bits, x, y) then 1 else 0))
  {
  }

  /** A closed block runs to its jump. */
  lemma {:induction false} RunBlock(f: Fn, cfg: Config, b: nat, idx: nat, code: seq<Inst>, t: Term, d: Data)
    requires b < |f| && idx <= |f[b].insts| && f[b].insts[idx..] == code && f[b].term == Some(t)
    requires Run(cfg, code, d).Some?
    ensures Steps(f, cfg, At(b, idx, d), |code| + 1) == Jump(cfg, t, Run(cfg, code, d).value)
  {
    var d1 := Run(cfg, code, d).value;
    assert f[b].insts[idx..idx + |code|] == code;
    StepsStraight(f, cfg, b, idx, code, d);
    StepsAdd(f, cfg, At(b, idx, d), |code|, 1);
    assert Steps(f, cfg, At(b, idx + |code|, d1), 1) == Jump(cfg, t, d1) by {
      assert Steps(f, cfg, Step(f, cfg, At(b, idx + |code|, d1)), 0) == Jump(cfg, t, d1);
    }
  }

  /** An arm that divides and stores the quotient or remainder. */
  lemma {:induction false} ArmRuns(cfg: Config, c: Bpf.Core, d: Data, op: Bpf.AluOp, bits: nat, a: Val, x: nat, b: Val,
                                   y: nat, cell: Cell, r: nat, id: nat, n: nat)
    requires IsDivision(op) && bits > 0 && Below(a, id) && Below(b, id)
    requires Holding(cfg, c, d, bits, a, x, b, y, cell, r)
    requires BinaryResult(Opcode(op), bits, x, y) == Some(n)
    ensures var code := DividePiece(op, bits, a, b, cell, id).code;
            Run(cfg, code, d).Some? && Holding(cfg, c, Run(cfg, code, d).value, bits, a, x, b, y, cell, n)
  {
    var p0 := Start(id);
    var p1 := p0.Def(Binary(id, Opcode(op), bits, a, b));
    ExecBinary(cfg, d, id, Opcode(op), bits, a, x, b, y, n);
    DoRuns(cfg, p0, d, Binary(id, Opcode(op), bits, a, b));
    BindHolds(cfg, c, d, bits, a, x, b, y, cell, r, id, bits, n);
    DoRuns(cfg, p1, d, StoreCell(Ref(id), cell));
    CellStored(cfg, c, d.Bind(id, bits, n), bits, a, x, b, y, cell, Ref(id), n);
  }

  /** The test for the overflowing division. */
  lemma {:induction false} CheckRuns(cfg: Config, c: Bpf.Core, d: Data, bits: nat, min: nat, ones: nat, a: Val, x: nat,
                                     b: Val, y: nat, cell: Cell, r: nat, id: nat)
    requires bits > 0 && Below(a, id) && Below(b, id)
    requires Holding(cfg, c, d, bits, a, x, b, y, cell, r)
    ensures var p := OverflowCheck(bits, min, ones, a, b, id);
            && Run(cfg, p.code, d).Some?
            && Holding(cfg, c, After(cfg, p, d), bits, a, x, b, y, cell, r)
            && Eval(cfg, Ref(id + 2), After(cfg, p, d).env) == Some(Typed(1, if x == min && y == ones then 1 else 0))
  {
    var i0 := ICmp(id, Ir.Eq, bits, a, Const(bits, min));
    var p0 := Start(id);
    ICmpHolds(cfg, c, p0, d, bits, a, x, b, y, cell, r, a, x, Const(bits, min), min);
    CheckRest(cfg, c, p0.Def(i0), d, bits, ones, a, x, b, y, cell, r, Ref(id), if x == min then 1 else 0);
  }

  lemma {:induction false} CheckRest(cfg: Config, c: Bpf.Core, p: Piece, d: Data, bits: nat, ones: nat, a: Val, x: nat,
                                     b: Val, y: nat, cell: Cell, r: nat, v: Val, m: nat)
    requires bits > 0 && Run(cfg, p.code, d).Some? && Below(a, p.next) && Below(b, p.next) && Below(v, p.next) && m <= 1
    requires Holding(cfg, c, After(cfg, p, d), bits, a, x, b, y, cell, r)
    requires Eval(cfg, v, After(cfg, p, d).env) == Some(Typed(1, m))
    ensures var q := p.Def(ICmp(p.next, Ir.Eq, bits, b, Const(bits, ones))).Def(Binary(p.next + 1, And, 1, v, Ref(p.next)));
            && Run(cfg, q.code, d).Some?
            && Holding(cfg, c, After(cfg, q, d), bits, a, x, b, y, cell, r)
            && Eval(cfg, Ref(p.next + 1), After(cfg, q, d).env) == Some(Typed(1, if m == 1 && y == ones then 1 else 0))
  {
    var n := if y == ones then 1 else 0;
    ICmpHolds(cfg, c, p, d, bits, a, x, b, y, cell, r, b, y, Const(bits, ones), ones);
    var q := p.Def(ICmp(p.next, Ir.Eq, bits, b, Const(bits, ones)));
    var d1 := After(cfg, q, d);
    assert Eval(cfg, v, d1.env) == Some(Typed(1, m));
    assert Eval(cfg, Ref(p.next), d1.env) == Some(Typed(1, n));
    AndHolds(cfg, c, q, d, bits, a, x, b, y, cell, r, v, m, Ref(p.next), n);
  }

  /** One more comparison for equality. */
  lemma {:induction false} ICmpHolds(cfg: Config, c: Bpf.Core, p: Piece, d: Data, bits: nat, a: Val, x: nat, b: Val, y: nat,
                  cell: Cell, r: nat, v: Val, m: nat, u: Val, n: nat)
    requires bits > 0 && Run(cfg, p.code, d).Some? && Below(a, p.next) && Below(b, p.next)
    requires Holding(cfg, c, After(cfg, p, d), bits, a, x, b, y, cell, r)
    requires Eval(cfg, v, After(cfg, p, d).env) == Some(Typed(bits, m))
    requires Eval(cfg, u, After(cfg, p, d).env) == Some(Typed(bits, n))
    ensures var q := p.Def(ICmp(p.next, Ir.Eq, bits, v, u));
            && Run(cfg, q.code, d) == Some(After(cfg, p, d).Bind(p.next, 1, if m == n then 1 else 0))
            && Holding(cfg, c, After(cfg, q, d), bits, a, x, b, y, cell, r)
  {
    ExecICmp(cfg, After(cfg, p, d), p.next, Ir.Eq, bits, v, m, u, n);
    DefHolds(cfg, c, p, d, ICmp(p.next, Ir.Eq, bits, v, u), 1, if m == n then 1 else 0, bits, a, x, b, y, cell, r);
  }

  lemma {:induction false} AndHolds(cfg: Config, c: Bpf.Core, p: Piece, d: Data, bits: nat, a: Val, x: nat, b: Val, y: nat,
                 cell: Cell, r: nat, v: Val, m: nat, u: Val, n: nat)
    requires Run(cfg, p.code, d).Some? && Below(a, p.next) && Below(b, p.next) && m <= 1 && n <= 1
    requires Holding(cfg, c, After(cfg, p, d), bits, a, x, b, y, cell, r)
    requires Eval(cfg, v, After(cfg, p, d).env) == Some(Typed(1, m))
    requires Eval(cfg, u, After(cfg, p, d).env) == Some(Typed(1, n))
    ensures var q := p.Def(Binary(p.next, And, 1, v, u));
            && Run(cfg, q.code, d) == Some(After(cfg, p, d).Bind(p.next, 1, if m == 1 && n == 1 then 1 else 0))
            && Holding(cfg, c, After(cfg, q, d), bits, a, x, b, y, cell, r)
  {
    AndOfBits(m, n);
    ExecBinary(cfg, After(cfg, p, d), p.next, And, 1, v, m, u, n, BitAnd(m, n));
    DefHolds(cfg, c, p, d, Binary(p.next, And, 1, v, u), 1, BitAnd(m, n), bits, a, x, b, y, cell, r);
  }

  lemma {:induction false} DefHolds(cfg: Config, c: Bpf.Core, p: Piece, d: Data, i: Inst, w: nat, n: nat,
                 bits: nat, a: Val, x: nat, b: Val, y: nat, cell: Cell, r: nat)
    requires Run(cfg, p.code, d).Some? && Below(a, p.next) && Below(b, p.next)
    requires Holding(cfg, c, After(cfg, p, d), bits, a, x, b, y, cell, r)
    requires Exec(cfg, i, After(cfg, p, d)) == Some(After(cfg, p, d).Bind(p.next, w, n))
    ensures Run(cfg, p.Def(i).code, d) == Some(After(cfg, p, d).Bind(p.next, w, n))
    ensures Holding(cfg, c, After(cfg, p.Def(i), d), bits, a, x, b, y, cell, r)
  {
    DoRuns(cfg, p, d, i);
    BindHolds(cfg, c, After(cfg, p, d), bits, a, x, b, y, cell, r, p.next, w, n);
  }

  lemma {:induction false} AndOfBits(m: nat, n: nat)
    requires m <= 1 && n <= 1
    ensures BitAnd(m, n) == if m == 1 && n == 1 then 1 else 0
  {
  }

  /** The arms are the function's blocks from `base` on, with the join block after them. */
  ghost predicate Placed(f: Fn, base: nat, arms: seq<Block>) {
    base + |arms| < |f| && forall k :: 0 <= k < |arms| ==> f[base + k] == arms[k]
  }

  /** From the conditional jump out of the head to the join block, where the result cell
      holds the machine's result. */
  lemma UnsignedArms(f: Fn, cfg: Config, c: Bpf.Core, d: Data, op: Bpf.AluOp, bits: nat,
                     a: Val, x: nat, b: Val, y: nat, cell: Cell, id: nat, base: nat) returns (n: nat, d': Data)
    requires (op.Div? || op.Mod?) && bits > 0 && x < Pow2(bits) && y < Pow2(bits)
    requires Below(a, id) && Below(b, id)
    requires Holding(cfg, c, d, bits, a, x, b, y, cell, ZeroResult(op, x))
    requires Placed(f, base, DivisionArms(op, bits, a, b, cell, id, base))
    ensures Steps(f, cfg, At(if y == 0 then base + 1 else base, 0, d), n) == At(base + 1, 0, d')
    ensures Holding(cfg, c, d', bits, a, x, b, y, cell, Bpf.AluResult(op, bits, x, y))
  {
    if y == 0 {
      n, d' := 0, d;
    } else {
      var code := DividePiece(op, bits, a, b, cell, id).code;
      assert f[base + 0] == DivisionArms(op, bits, a, b, cell, id, base)[0];
      UnsignedDefined(op, bits, x, y);
      ArmRuns(cfg, c, d, op, bits, a, x, b, y, cell, ZeroResult(op, x), id, Bpf.AluResult(op, bits, x, y));
      RunBlock(f, cfg, base, 0, code, Goto(base + 1), d);
      n, d' := |code| + 1, Run(cfg, code, d).value;
    }
  }

  /** After the overflow check: the block that stores the fixed result, or the one that divides. */
  lemma SignedTail(f: Fn, cfg: Config, c: Bpf.Core, d: Data, op: Bpf.AluOp, bits: nat,
                   a: Val, x: nat, b: Val, y: nat, cell: Cell, r: nat, id: nat, base: nat)
    returns (n: nat, d': Data)
    requires (op.SDiv? || op.SMod?) && bits > 1 && x < Pow2(bits) && 0 < y < Pow2(bits)
    requires Below(a, id) && Below(b, id) && base + 3 < |f|
    requires Holding(cfg, c, d, bits, a, x, b, y, cell, r)
    requires f[base + 1] == Block("", [StoreCell(if op.SDiv? then a else Const(bits, 0), cell)], Some(Goto(base + 3)))
    requires f[base + 2] == Block("", DividePiece(op, bits, a, b, cell, id).code, Some(Goto(base + 3)))
    ensures var overflow := x == Pow2(bits - 1) && y == Pow2(bits) - 1;
            Steps(f, cfg, At(if overflow then base + 1 else base + 2, 0, d), n) == At(base + 3, 0, d')
    ensures Holding(cfg, c, d', bits, a, x, b, y, cell, Bpf.AluResult(op, bits, x, y))
  {
    if x == Pow2(bits - 1) && y == Pow2(bits) - 1 {
      SignedOverflow(op, bits);
      var v := if op.SDiv? then a else Const(bits, 0);
      RunOne(cfg, StoreCell(v, cell), d);
      CellStored(cfg, c, d, bits, a, x, b, y, cell, v, Bpf.AluResult(op, bits, x, y));
      RunBlock(f, cfg, base + 1, 0, [StoreCell(v, cell)], Goto(base + 3), d);
      n, d' := 2, Run(cfg, [StoreCell(v, cell)], d).value;
    } else {
      var code := f[base + 2].insts;
      SignedDefined(op, bits, x, y);
      ArmRuns(cfg, c, d, op, bits, a, x, b, y, cell, r, id, Bpf.AluResult(op, bits, x, y));
      RunBlock(f, cfg, base + 2, 0, code, Goto(base + 3), d);
      n, d' := |code| + 1, Run(cfg, code, d).value;
    }
  }

  lemma SignedArms(f: Fn, cfg: Config, c: Bpf.Core, d: Data, op: Bpf.AluOp, bits: nat,
                   a: Val, x: nat, b: Val, y: nat, cell: Cell, id: nat, base: nat) returns (n: nat, d': Data)
    requires (op.SDiv? || op.SMod?) && bits > 1 && x < Pow2(bits) && y < Pow2(bits)
    requires Below(a, id) && Below(b, id)
    requires Holding(cfg, c, d, bits, a, x, b, y, cell, ZeroResult(op, x))
    requires Placed(f, base, DivisionArms(op, bits, a, b, cell, id, base))
    ensures Steps(f, cfg, At(if y == 0 then base + 3 else base, 0, d), n) == At(base + 3, 0, d')
    ensures Holding(cfg, c, d', bits, a, x, b, y, cell, Bpf.AluResult(op, bits, x, y))
  {
    if y == 0 {
      n, d' := 0, d;
    } else {
      var arms := DivisionArms(op, bits, a, b, cell, id, base);
      assert f[base + 0] == arms[0] && f[base + 1] == arms[1] && f[base + 2] == arms[2];
      n, d' := SignedNonZero(f, cfg, c, d, op, bits, a, x, b, y, cell, ZeroResult(op, x), id, base);
    }
  }

  lemma SignedNonZero(f: Fn, cfg: Config, c: Bpf.Core, d: Data, op: Bpf.AluOp, bits: nat,
                      a: Val, x: nat, b: Val, y: nat, cell: Cell, r: nat, id: nat, base: nat)
    returns (n: nat, d': Data)
    requires (op.SDiv? || op.SMod?) && bits > 1 && x < Pow2(bits) && 0 < y < Pow2(bits)
    requires Below(a, id) && Below(b, id) && base + 3 < |f|
    requires Holding(cfg, c, d, bits, a, x, b, y, cell, r)
    requires f[base] == Block("", OverflowCheck(bits, Pow2(bits - 1), Pow2(bits) - 1, a, b, id).code,
                              Some(CondGoto(Ref(id + 2), base + 1, base + 2)))
    requires f[base + 1] == Block("", [StoreCell(if op.SDiv? then a else Const(bits, 0), cell)], Some(Goto(base + 3)))
    requires f[base + 2] == Block("", DividePiece(op, bits, a, b, cell, id + 3).code, Some(Goto(base + 3)))
    ensures Steps(f, cfg, At(base, 0, d), n) == At(base + 3, 0, d')
    ensures Holding(cfg, c, d', bits, a, x, b, y, cell, Bpf.AluResult(op, bits, x, y))
  {
    var m, d1 := CheckSteps(f, cfg, c, d, bits, Pow2(bits - 1), Pow2(bits) - 1, a, x, b, y, cell, r, id, base);
    n, d' := SignedTail(f, cfg, c, d1, op, bits, a, x, b, y, cell, r, id + 3, base);
    StepsAdd(f, cfg, At(base, 0, d), m, n);
    n := m + n;
  }

  lemma CheckSteps(f: Fn, cfg: Config, c: Bpf.Core, d: Data, bits: nat, min: nat, ones: nat,
                   a: Val, x: nat, b: Val, y: nat, cell: Cell, r: nat, id: nat, base: nat)
    returns (m: nat, d1: Data)
    requires bits > 0 && Below(a, id) && Below(b, id) && base < |f|
    requires Holding(cfg, c, d, bits, a, x, b, y, cell, r)
    requires f[base] == Block("", OverflowCheck(bits, min, ones, a, b, id).code,
                              Some(CondGoto(Ref(id + 2), base + 1, base + 2)))
    ensures Steps(f, cfg, At(base, 0, d), m) == At(if x == min && y == ones then base + 1 else base + 2, 0, d1)
    ensures Holding(cfg, c, d1, bits, a, x, b, y, cell, r)
  {
    var check := OverflowCheck(bits, min, ones, a, b, id);
    CheckRuns(cfg, c, d, bits, min, ones, a, x, b, y, cell, r, id);
    RunBlock(f, cfg, base, 0, check.code, CondGoto(Ref(id + 2), base + 1, base + 2), d);
    m, d1 := |check.code| + 1, After(cfg, check, d);
  }

  /** The whole division: from its place in block `b` to the end of its code in the join
      block, where the destination register holds the machine's result. */
  lemma DivisionRuns(f: Fn, cfg: Config, c: Bpf.Core, d: Data, op: Bpf.AluOp, w: Bpf.Width, dst: Bpf.Reg, s: Bpf.Operand,
                     id: nat, off: nat, blk: nat, idx: nat, base: nat) returns (n: nat, d': Data)
    requires Matches(c, d) && Bpf.RawOperand(s) && IsDivision(op)
    requires var fr := AluFragment(op, w, dst, Bpf.SignExtendedOperand(s), id, off, base);
             && blk < |f| && idx <= |f[blk].insts|
             && f[blk].insts[idx..] == fr.head && f[blk].term == Some(fr.split.value.exit)
             && Placed(f, base, fr.split.value.arms)
             && fr.split.value.tail <= f[base + |fr.split.value.arms|].insts
    ensures var fr := AluFragment(op, w, dst, Bpf.SignExtendedOperand(s), id, off, base);
            && n > 0
            && Steps(f, cfg, At(blk, idx, d), n) == At(base + |fr.split.value.arms|, |fr.split.value.tail|, d')
            && Matches(c.With(dst, Bpf.AluResult(op, w.Bits(), Wrap(w.Bits(), c.regs[dst]), Bpf.OperandValue(c, w, s))), d')
  {
    var x, y := Wrap(w.Bits(), c.regs[dst]), Bpf.OperandValue(c, w, s);
    var pa := ReadReg(dst, w, id);
    var pb := ReadOperand(Bpf.SignExtendedOperand(s), w, pa.next);
    OperandsCompute(cfg, c, d, dst, s, w, id);
    KeepsMatches(c, d, After(cfg, pa.Then(pb), d), id);
    n, d' := DivisionAfterOperands(f, cfg, c, d, op, w, dst, pa.Then(pb), pa.val, x, pb.val, y, blk, idx, base);
  }

  lemma DivisionAfterOperands(f: Fn, cfg: Config, c: Bpf.Core, d: Data, op: Bpf.AluOp, w: Bpf.Width, dst: Bpf.Reg,
                              before: Piece, a: Val, x: nat, b: Val, y: nat, blk: nat, idx: nat, base: nat)
    returns (n: nat, d': Data)
    requires IsDivision(op) && x < Pow2(w.Bits()) && y < Pow2(w.Bits())
    requires Run(cfg, before.code, d).Some? && Matches(c, After(cfg, before, d))
    requires Eval(cfg, a, After(cfg, before, d).env) == Some(Typed(w.Bits(), x))
    requires Eval(cfg, b, After(cfg, before, d).env) == Some(Typed(w.Bits(), y))
    requires Below(a, before.next) && Below(b, before.next)
    requires var head := DivisionHead(op, w.Bits(), before, a, b);
             && blk < |f| && idx <= |f[blk].insts| && f[blk].insts[idx..] == head.code
             && f[blk].term == Some(CondGoto(head.val, base + ArmCount(op), base))
    requires Placed(f, base, DivisionArms(op, w.Bits(), a, b, ResultCell(before.next), before.next + 2, base))
    requires DivisionTail(op, w, dst, ResultCell(before.next), before.next + 2).code <= f[base + ArmCount(op)].insts
    ensures var tail := DivisionTail(op, w, dst, ResultCell(before.next), before.next + 2).code;
            && n > 0
            && Steps(f, cfg, At(blk, idx, d), n) == At(base + ArmCount(op), |tail|, d')
            && Matches(c.With(dst, Bpf.AluResult(op, w.Bits(), x, y)), d')
  {
    var cell, next := ResultCell(before.next), before.next + 2;
    var join := base + ArmCount(op);
    var m, d1 := EnterArms(f, cfg, c, d, op, w.Bits(), before, a, x, b, y, blk, idx, base);
    n, d' := ArmsAndJoin(f, cfg, c, d1, op, w, dst, a, x, b, y, cell, next, base);
    StepsAdd(f, cfg, At(blk, idx, d), m, n);
    n := m + n;
  }

  lemma ArmsAndJoin(f: Fn, cfg: Config, c: Bpf.Core, d: Data, op: Bpf.AluOp, w: Bpf.Width, dst: Bpf.Reg,
                    a: Val, x: nat, b: Val, y: nat, cell: Cell, id: nat, base: nat) returns (n: nat, d': Data)
    requires IsDivision(op) && x < Pow2(w.Bits()) && y < Pow2(w.Bits())
    requires Below(a, id) && Below(b, id)
    requires Holding(cfg, c, d, w.Bits(), a, x, b, y, cell, ZeroResult(op, x))
    requires Placed(f, base, DivisionArms(op, w.Bits(), a, b, cell, id, base))
    requires DivisionTail(op, w, dst, cell, id).code <= f[base + ArmCount(op)].insts
    ensures var join, tail := base + ArmCount(op), DivisionTail(op, w, dst, cell, id).code;
            Steps(f, cfg, At(if y == 0 then join else base, 0, d), n) == At(join, |tail|, d')
    ensures Matches(c.With(dst, Bpf.AluResult(op, w.Bits(), x, y)), d')
  {
    var join := base + ArmCount(op);
    var k, d2 := RunArms(f, cfg, c, d, op, w.Bits(), a, x, b, y, cell, id, base);
    d' := JoinSteps(f, cfg, c, d2, op, w, dst, a, x, b, y, cell, id, join);
    var l := |DivisionTail(op, w, dst, cell, id).code|;
    StepsAdd(f, cfg, At(if y == 0 then join else base, 0, d), k, l);
    n := k + l;
  }

  lemma EnterArms(f: Fn, cfg: Config, c: Bpf.Core, d: Data, op: Bpf.AluOp, bits: nat, before: Piece,
                  a: Val, x: nat, b: Val, y: nat, blk: nat, idx: nat, base: nat) returns (m: nat, d1: Data)
    requires IsDivision(op) && bits > 0
    requires Run(cfg, before.code, d).Some? && Matches(c, After(cfg, before, d))
    requires Eval(cfg, a, After(cfg, before, d).env) == Some(Typed(bits, x))
    requires Eval(cfg, b, After(cfg, before, d).env) == Some(Typed(bits, y))
    requires Below(a, before.next) && Below(b, before.next)
    requires var head := DivisionHead(op, bits, before, a, b);
             && blk < |f| && idx <= |f[blk].insts| && f[blk].insts[idx..] == head.code
             && f[blk].term == Some(CondGoto(head.val, base + ArmCount(op), base))
    ensures m > 0
    ensures Steps(f, cfg, At(blk, idx, d), m) == At(if y == 0 then base + ArmCount(op) else base, 0, d1)
    ensures Holding(cfg, c, d1, bits, a, x, b, y, ResultCell(before.next), ZeroResult(op, x))
  {
    var head := DivisionHead(op, bits, before, a, b);
    HeadRuns(cfg, c, d, op, bits, before, a, x, b, y);
    RunBlock(f, cfg, blk, idx, head.code, CondGoto(head.val, base + ArmCount(op), base), d);
    m, d1 := |head.code| + 1, After(cfg, head, d);
  }

  lemma RunArms(f: Fn, cfg: Config, c: Bpf.Core, d: Data, op: Bpf.AluOp, bits: nat,
                a: Val, x: nat, b: Val, y: nat, cell: Cell, id: nat, base: nat) returns (n: nat, d': Data)
    requires IsDivision(op) && bits > 1 && x < Pow2(bits) && y < Pow2(bits)
    requires Below(a, id) && Below(b, id)
    requires Holding(cfg, c, d, bits, a, x, b, y, cell, ZeroResult(op, x))
    requires Placed(f, base, DivisionArms(op, bits, a, b, cell, id, base))
    ensures var join := base + ArmCount(op);
            Steps(f, cfg, At(if y == 0 then join else base, 0, d), n) == At(join, 0, d')
    ensures Holding(cfg, c, d', bits, a, x, b, y, cell, Bpf.AluResult(op, bits, x, y))
  {
    if IsSigned(op) {
      n, d' := SignedArms(f, cfg, c, d, op, bits, a, x, b, y, cell, id, base);
    } else {
      n, d' := UnsignedArms(f, cfg, c, d, op, bits, a, x, b, y, cell, id, base);
    }
  }

  lemma JoinSteps(f: Fn, cfg: Config, c: Bpf.Core, d: Data, op: Bpf.AluOp, w: Bpf.Width, dst: Bpf.Reg,
                  a: Val, x: nat, b: Val, y: nat, cell: Cell, id: nat, join: nat) returns (d': Data)
    requires IsDivision(op) && x < Pow2(w.Bits()) && y < Pow2(w.Bits()) && join < |f|
    requires Holding(cfg, c, d, w.Bits(), a, x, b, y, cell, Bpf.AluResult(op, w.Bits(), x, y))
    requires DivisionTail(op, w, dst, cell, id).code <= f[join].insts
    ensures var l := |DivisionTail(op, w, dst, cell, id).code|;
            Steps(f, cfg, At(join, 0, d), l) == At(join, l, d')
    ensures Matches(c.With(dst, Bpf.AluResult(op, w.Bits(), x, y)), d')
  {
    JoinRuns(cfg, c, d, op, w, dst, a, x, b, y, cell, id);
    var tail := DivisionTail(op, w, dst, cell, id).code;
    d' := Run(cfg, tail, d).value;
    StepsStraight(f, cfg, join, 0, tail, d);
  }

  /** The join block reads the result cell and writes the destination. */
  lemma {:induction false} JoinRuns(cfg: Config, c: Bpf.Core, d: Data, op: Bpf.AluOp, w: Bpf.Width, dst: Bpf.Reg,
                 a: Val, x: nat, b: Val, y: nat, cell: Cell, id: nat)
    requires IsDivision(op) && x < Pow2(w.Bits()) && y < Pow2(w.Bits())
    requires Holding(cfg, c, d, w.Bits(), a, x, b, y, cell, Bpf.AluResult(op, w.Bits(), x, y))
    ensures var tail := DivisionTail(op, w, dst, cell, id).code;
            Run(cfg, tail, d).Some? && Matches(c.With(dst, Bpf.AluResult(op, w.Bits(), x, y)), Run(cfg, tail, d).value)
  {
    var n := Bpf.AluResult(op, w.Bits(), x, y);
    var id := if IsSigned(op) then id + 4 else id + 1;
    var p := Start(id).Def(LoadCell(id, w.Bits(), cell));
    StartComputes(cfg, id, d);
    DefComputes(cfg, Start(id), id, d, LoadCell(id, w.Bits(), cell), w.Bits(), n);
    Bpf.AluInRange(op, w.Bits(), x, y);
    ComputeAndWrite(cfg, c, d, p, id, dst, w, n);
  }
}
