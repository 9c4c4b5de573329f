/** The block-structured IR that the lifter emits, with an interpreter. Execution is
    Stuck wherever LLVM would have undefined behaviour or the verifier would reject the
    code: undefined operands of a division or shift, a width mismatch, a use of a value
    that was not computed, a load from an uninitialised cell, a block left open. Alignment
    is not looked at. */
module Ir {
  import opened Options
  import opened Words
  import opened Memory
  import Bpf

  // ---------------------------------------------------------------- syntax

  /** A value of an integer type; pointers into program memory are 64-bit words. */
  datatype Typed = Typed(bits: nat, n: nat)

  /** Storage that program memory cannot reach: one cell for each register, and one for
      each division's result. */
  datatype Cell = RegCell(reg: nat) | ResultCell(site: nat)

  datatype Val = Const(bits: nat, n: nat) | Ref(id: nat) | Arg(index: nat)

  datatype BinOp =
    | Add | Sub | Mul | And | Or | Xor | Shl | LShr | AShr | UDiv | URem | SDiv | SRem

  datatype Pred = Eq | Ne | Ugt | Uge | Ult | Ule | Sgt | Sge | Slt | Sle

  datatype CastKind = Trunc | ZExt | SExt

  datatype RmwOp = RmwAdd | RmwAnd | RmwOr | RmwXor | RmwXchg

  datatype Inst =
    | Binary(id: nat, bop: BinOp, bits: nat, a: Val, b: Val)
    | ICmp(id: nat, pred: Pred, bits: nat, a: Val, b: Val)
    | Cast(id: nat, kind: CastKind, a: Val, to: nat)
    | BSwap(id: nat, bits: nat, a: Val)
    | Alloca(cell: Cell)
    | FrameAlloc(id: nat)
    | LoadCell(id: nat, bits: nat, cell: Cell)
    | StoreCell(v: Val, cell: Cell)
    | Gep(id: nat, base: Val, off: Val)
    | LoadMem(id: nat, bits: nat, ptr: Val)
    | StoreMem(v: Val, bits: nat, ptr: Val)
    | LoadUnspecified(id: nat, bits: nat, at: nat)
    | AtomicRmw(id: nat, rop: RmwOp, bits: nat, ptr: Val, v: Val)
    | CmpXchg(id: nat, bits: nat, ptr: Val, expected: Val, v: Val)
    | CallHelper(id: nat, helper: int, args: seq<Val>)

  datatype Term = Goto(dst: nat) | CondGoto(cond: Val, ifTrue: nat, ifFalse: nat) | Return(v: Val)

  datatype Block = Block(name: string, insts: seq<Inst>, term: Option<Term>)

  type Fn = seq<Block>

  // ---------------------------------------------------------------- semantics

  /** The surroundings of a run: argument values, the address of the frame block, the
      content of the constant global of unspecified bytes, and the helpers. */
  datatype Config = Config(args: seq<Typed>, frame: nat, unspecified: seq<nat>,
                           helper: seq<Bpf.CallEvent> -> (nat, Memory))

  datatype Data = Data(env: map<nat, Typed>, cells: map<Cell, Typed>, mem: Memory, calls: seq<Bpf.CallEvent>) {
    function Bind(id: nat, bits: nat, n: nat): Data { this.(env := env[id := Typed(bits, n)]) }
  }

  function Eval(cfg: Config, v: Val, env: map<nat, Typed>): Option<Typed> {
    match v
    case Const(bits, n) => Some(Typed(bits, n))
    case Ref(id) => if id in env then Some(env[id]) else None
    case Arg(i) => if i < |cfg.args| then Some(cfg.args[i]) else None
  }

  /** The operand's value, provided it has the type the instruction expects. */
  function EvalAs(cfg: Config, v: Val, env: map<nat, Typed>, bits: nat): Option<nat> {
    var t :- Eval(cfg, v, env);
    if t.bits == bits then Some(t.n) else None
  }

  function EvalAll(cfg: Config, vs: seq<Val>, env: map<nat, Typed>): Option<seq<nat>> {
    if vs == [] then Some([])
    else
      var n :- EvalAs(cfg, vs[0], env, 64);
      var ns :- EvalAll(cfg, vs[1..], env);
      Some([n] + ns)
  }

  /** LLVM's binary operators; None is undefined behaviour or poison. */
  function BinaryResult(op: BinOp, bits: nat, a: nat, b: nat): Option<nat>
    requires bits > 0
  {
    match op
    case Add => Some(Wrap(bits, a + b))
    case Sub => Some(Wrap(bits, a - b))
    case Mul => Some(Wrap(bits, a * b))
    case And => Some(BitAnd(a, b))
    case Or => Some(BitOr(a, b))
    case Xor => Some(BitXor(a, b))
    case Shl => if b < bits then Some(Words.Shl(bits, a, b)) else None
    case LShr => if b < bits then Some(Words.LShr(a, b)) else None
    case AShr => if b < bits then Some(Words.AShr(bits, a, b)) else None
    case UDiv => if b == 0 then None else Some(a / b)
    case URem => if b == 0 then None else Some(a % b)
    case SDiv =>
      if SignedDivisionUndefined(bits, a, b) then None
      else Some(Wrap(bits, TruncDiv(Signed(bits, a), Signed(bits, b))))
    case SRem =>
      if SignedDivisionUndefined(bits, a, b) then None
      else Some(Wrap(bits, TruncRem(Signed(bits, a), Signed(bits, b))))
  }

  predicate SignedDivisionUndefined(bits: nat, a: nat, b: nat)
    requires bits > 0
  {
    Signed(bits, b) == 0 || (Signed(bits, a) == -(Pow2(bits - 1) as int) && Signed(bits, b) == -1)
  }

  predicate Compares(p: Pred, bits: nat, a: nat, b: nat)
    requires bits > 0
  {
    match p
    case Eq => a == b
    case Ne => a != b
    case Ugt => a > b
    case Uge => a >= b
    case Ult => a < b
    case Ule => a <= b
    case Sgt => Signed(bits, a) > Signed(bits, b)
    case Sge => Signed(bits, a) >= Signed(bits, b)
    case Slt => Signed(bits, a) < Signed(bits, b)
    case Sle => Signed(bits, a) <= Signed(bits, b)
  }

  function CastResult(k: CastKind, from: nat, to: nat, n: nat): Option<nat> {
    match k
    case Trunc => if to < from then Some(Wrap(to, n)) else None
    case ZExt => if from < to then Some(n) else None
    case SExt => if 0 < from < to then Some(Words.SExt(from, to, n)) else None
  }

  function RmwResult(op: RmwOp, bits: nat, previous: nat, v: nat): nat {
    match op
    case RmwAdd => Wrap(bits, previous + v)
    case RmwAnd => BitAnd(previous, v)
    case RmwOr => BitOr(previous, v)
    case RmwXor => BitXor(previous, v)
    case RmwXchg => v
  }

  /** A load of `bits` bits from byte `off` of the global of unspecified bytes. */
  function UnspecifiedAt(bytes: seq<nat>, off: nat, bits: nat): Option<nat> {
    var n := (bits + 7) / 8;
    if off + n <= |bytes| then Some(Wrap(bits, FromLE(bytes[off..off + n]))) else None
  }

  function DoBinary(cfg: Config, id: nat, op: BinOp, bits: nat, a: Val, b: Val, d: Data): Option<Data> {
    var x :- EvalAs(cfg, a, d.env, bits);
    var y :- EvalAs(cfg, b, d.env, bits);
    if bits == 0 then None
    else
      var r :- BinaryResult(op, bits, x, y);
      Some(d.Bind(id, bits, r))
  }

  function DoICmp(cfg: Config, id: nat, p: Pred, bits: nat, a: Val, b: Val, d: Data): Option<Data> {
    var x :- EvalAs(cfg, a, d.env, bits);
    var y :- EvalAs(cfg, b, d.env, bits);
    if bits == 0 then None else Some(d.Bind(id, 1, if Compares(p, bits, x, y) then 1 else 0))
  }

  function DoCast(cfg: Config, id: nat, k: CastKind, a: Val, to: nat, d: Data): Option<Data> {
    var t :- Eval(cfg, a, d.env);
    var r :- CastResult(k, t.bits, to, t.n);
    Some(d.Bind(id, to, r))
  }

  function DoBSwap(cfg: Config, id: nat, bits: nat, a: Val, d: Data): Option<Data> {
    var x :- EvalAs(cfg, a, d.env, bits);
    if bits % 16 != 0 then None else Some(d.Bind(id, bits, ByteSwap(bits / 8, x)))
  }

  function DoAlloca(cfg: Config, cell: Cell, d: Data): Option<Data> {
    Some(d.(cells := map c | c in d.cells && c != cell :: d.cells[c]))
  }

  function DoFrameAlloc(cfg: Config, id: nat, d: Data): Option<Data> {
    Some(d.Bind(id, 64, cfg.frame))
  }

  function DoLoadCell(cfg: Config, id: nat, bits: nat, cell: Cell, d: Data): Option<Data> {
    if cell in d.cells && d.cells[cell].bits == bits then Some(d.Bind(id, bits, d.cells[cell].n)) else None
  }

  function DoStoreCell(cfg: Config, v: Val, cell: Cell, d: Data): Option<Data> {
    var t :- Eval(cfg, v, d.env);
    Some(d.(cells := d.cells[cell := t]))
  }

  function DoGep(cfg: Config, id: nat, base: Val, off: Val, d: Data): Option<Data> {
    var x :- EvalAs(cfg, base, d.env, 64);
    var y :- EvalAs(cfg, off, d.env, 64);
    Some(d.Bind(id, 64, Wrap(64, x + y)))
  }

  function DoLoadMem(cfg: Config, id: nat, bits: nat, ptr: Val, d: Data): Option<Data> {
    var p :- EvalAs(cfg, ptr, d.env, 64);
    if bits % 8 != 0 then None else Some(d.Bind(id, bits, Load(d.mem, p, bits / 8)))
  }

  function DoStoreMem(cfg: Config, v: Val, bits: nat, ptr: Val, d: Data): Option<Data> {
    var p :- EvalAs(cfg, ptr, d.env, 64);
    var x :- EvalAs(cfg, v, d.env, bits);
    if bits % 8 != 0 then None else Some(d.(mem := Store(d.mem, p, bits / 8, x)))
  }

  function DoLoadUnspecified(cfg: Config, id: nat, bits: nat, off: nat, d: Data): Option<Data> {
    var n :- UnspecifiedAt(cfg.unspecified, off, bits);
    Some(d.Bind(id, bits, n))
  }

  function DoAtomicRmw(cfg: Config, id: nat, op: RmwOp, bits: nat, ptr: Val, v: Val, d: Data): Option<Data> {
    var p :- EvalAs(cfg, ptr, d.env, 64);
    var x :- EvalAs(cfg, v, d.env, bits);
    if bits % 8 != 0 then None
    else
      var previous := Load(d.mem, p, bits / 8);
      Some(d.(mem := Store(d.mem, p, bits / 8, RmwResult(op, bits, previous, x))).Bind(id, bits, previous))
  }

  function DoCmpXchg(cfg: Config, id: nat, bits: nat, ptr: Val, expected: Val, v: Val, d: Data): Option<Data> {
    var p :- EvalAs(cfg, ptr, d.env, 64);
    var e :- EvalAs(cfg, expected, d.env, bits);
    var x :- EvalAs(cfg, v, d.env, bits);
    if bits % 8 != 0 then None
    else
      var previous := Load(d.mem, p, bits / 8);
      var mem := if previous == e then Store(d.mem, p, bits / 8, x) else d.mem;
      Some(d.(mem := mem).Bind(id, bits, previous))
  }

  function DoCallHelper(cfg: Config, id: nat, helper: int, args: seq<Val>, d: Data): Option<Data> {
    var ns :- EvalAll(cfg, args, d.env);
    var calls := d.calls + [Bpf.CallEvent(helper, ns, d.mem)];
    var (ret, mem) := cfg.helper(calls);
    Some(d.(mem := mem, calls := calls).Bind(id, 64, Wrap(64, ret)))
  }

  /** One instruction; None is undefined behaviour or a malformed use. */
  function Exec(cfg: Config, i: Inst, d: Data): Option<Data> {
    match i
    case Binary(id, op, bits, a, b) => DoBinary(cfg, id, op, bits, a, b, d)
    case ICmp(id, p, bits, a, b) => DoICmp(cfg, id, p, bits, a, b, d)
    case Cast(id, k, a, to) => DoCast(cfg, id, k, a, to, d)
    case BSwap(id, bits, a) => DoBSwap(cfg, id, bits, a, d)
    case Alloca(cell) => DoAlloca(cfg, cell, d)
    case FrameAlloc(id) => DoFrameAlloc(cfg, id, d)
    case LoadCell(id, bits, cell) => DoLoadCell(cfg, id, bits, cell, d)
    case StoreCell(v, cell) => DoStoreCell(cfg, v, cell, d)
    case Gep(id, base, off) => DoGep(cfg, id, base, off, d)
    case LoadMem(id, bits, ptr) => DoLoadMem(cfg, id, bits, ptr, d)
    case StoreMem(v, bits, ptr) => DoStoreMem(cfg, v, bits, ptr, d)
    case LoadUnspecified(id, bits, off) => DoLoadUnspecified(cfg, id, bits, off, d)
    case AtomicRmw(id, op, bits, ptr, v) => DoAtomicRmw(cfg, id, op, bits, ptr, v, d)
    case CmpXchg(id, bits, ptr, expected, v) => DoCmpXchg(cfg, id, bits, ptr, expected, v, d)
    case CallHelper(id, helper, args) => DoCallHelper(cfg, id, helper, args, d)
  }

  /** Straight-line execution. */
  function Run(cfg: Config, code: seq<Inst>, d: Data): Option<Data>
    decreases |code|
  {
    if code == [] then Some(d)
    else
      var d1 :- Exec(cfg, code[0], d);
      Run(cfg, code[1..], d1)
  }

  lemma {:induction false} RunAppend(cfg: Config, c1: seq<Inst>, c2: seq<Inst>, d: Data)
    ensures Run(cfg, c1 + c2, d) ==
            if Run(cfg, c1, d).Some? then Run(cfg, c2, Run(cfg, c1, d).value) else None
    decreases |c1|
  {
    if c1 == [] {
      assert c1 + c2 == c2;
    } else {
      assert (c1 + c2)[1..] == c1[1..] + c2;
      var d1 := Exec(cfg, c1[0], d);
      if d1.Some? {
        RunAppend(cfg, c1[1..], c2, d1.value);
      }
    }
  }

  lemma {:induction false} RunOne(cfg: Config, i: Inst, d: Data)
    ensures Run(cfg, [i], d) == Exec(cfg, i, d)
  {
    var d1 := Exec(cfg, i, d);
    if d1.Some? {
      assert Run(cfg, [], d1.value) == d1;
      assert [i][1..] == [];
    }
  }

  /** Control: at instruction `idx` of block `block`, finished, or stuck. */
  datatype State =
    | At(block: nat, idx: nat, d: Data)
    | Returned(v: Typed, mem: Memory, calls: seq<Bpf.CallEvent>)
    | Stuck

  function Step(f: Fn, cfg: Config, s: State): State {
    if !s.At? then s
    else if s.block >= |f| then Stuck
    else
      var b := f[s.block];
      if s.idx < |b.insts| then
        match Exec(cfg, b.insts[s.idx], s.d)
        case Some(d) => At(s.block, s.idx + 1, d)
        case None => Stuck
      else if b.term.None? then Stuck
      else Jump(cfg, b.term.value, s.d)
  }

  function Jump(cfg: Config, t: Term, d: Data): State {
    match t
    case Goto(dst) => At(dst, 0, d)
    case CondGoto(c, t, f) =>
      (match EvalAs(cfg, c, d.env, 1)
       case Some(n) => At(if n != 0 then t else f, 0, d)
       case None => Stuck)
    case Return(v) =>
      (match Eval(cfg, v, d.env)
       case Some(t) => Returned(t, d.mem, d.calls)
       case None => Stuck)
  }

  function Steps(f: Fn, cfg: Config, s: State, n: nat): State
    decreases n
  {
    if n == 0 then s else Steps(f, cfg, Step(f, cfg, s), n - 1)
  }

  lemma {:induction false} StepsAdd(f: Fn, cfg: Config, s: State, m: nat, n: nat)
    ensures Steps(f, cfg, s, m + n) == Steps(f, cfg, Steps(f, cfg, s, m), n)
    decreases m
  {
    if m > 0 {
      StepsAdd(f, cfg, Step(f, cfg, s), m - 1, n);
    }
  }

  lemma {:induction false} StepsDone(f: Fn, cfg: Config, s: State, n: nat)
    requires !s.At?
    ensures Steps(f, cfg, s, n) == s
    decreases n
  {
    if n > 0 {
      StepsDone(f, cfg, s, n - 1);
    }
  }

  lemma StepInside(f: Fn, cfg: Config, b: nat, idx: nat, d: Data)
    requires b < |f| && idx < |f[b].insts| && Exec(cfg, f[b].insts[idx], d).Some?
    ensures Step(f, cfg, At(b, idx, d)) == At(b, idx + 1, Exec(cfg, f[b].insts[idx], d).value)
  {
  }

  /** A stretch of a block runs as the straight-line code it is. */
  lemma {:induction false} StepsStraight(f: Fn, cfg: Config, b: nat, idx: nat, code: seq<Inst>, d: Data)
    requires b < |f| && idx + |code| <= |f[b].insts|
    requires f[b].insts[idx..idx + |code|] == code
    requires Run(cfg, code, d).Some?
    ensures Steps(f, cfg, At(b, idx, d), |code|) == At(b, idx + |code|, Run(cfg, code, d).value)
    decreases |code|
  {
    hide Exec, Step;
    if code != [] {
      assert f[b].insts[idx] == f[b].insts[idx..idx + |code|][0] == code[0];
      var d1 := Exec(cfg, code[0], d);
      assert d1.Some?;
      StepInside(f, cfg, b, idx, d);
      var rest := code[1..];
      assert f[b].insts[idx + 1..idx + 1 + |rest|] == rest;
      StepsStraight(f, cfg, b, idx + 1, rest, d1.value);
    }
  }
}
