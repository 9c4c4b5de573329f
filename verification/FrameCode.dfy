/** Code that addresses one stack frame, and its runs in two memories: with the frame as a
    single block, and with some of its slots as objects of their own. */
module FrameCode {
  import opened Options
  import opened Words
  import opened Slots

  // ---------------------------------------------------------------- syntax

  datatype Operand = Var(id: nat) | Const(n: nat)

  /** Instruction i of a function defines value i. */
  datatype Inst =
    | StackBlock
    | GepConst(p: Operand, k: int)
    | GepVar(p: Operand, idx: Operand, base: Option<int>, canonical: bool)
    | PtrToInt(p: Operand)
    | AddConst(p: Operand, k: int)
    | IntToPtr(p: Operand)
    | Load(p: Operand, bytes: nat)
    | Store(v: Operand, p: Operand, bytes: nat)
    | Call(callee: nat, args: seq<Operand>)
    | ICmp(a: Operand, b: Operand)
    | Phi(choices: seq<(nat, Operand)>)
    | Select(cond: Operand, a: Operand, b: Operand)
    | Other(args: seq<Operand>)
    | ObjAddr(slot: nat, rel: int, index: Option<Operand>)
    | Branch(cond: Operand, ifTrue: nat, ifFalse: nat)
    | Return(v: Operand)

  type Code = seq<Inst>

  predicate Uses(i: Inst, id: nat) {
    var x := Var(id);
    match i
    case StackBlock => false
    case GepConst(p, _) => p == x
    case GepVar(p, idx, _, _) => p == x || idx == x
    case PtrToInt(p) => p == x
    case AddConst(p, _) => p == x
    case IntToPtr(p) => p == x
    case Load(p, _) => p == x
    case Store(v, p, _) => v == x || p == x
    case Call(_, args) => x in args
    case ICmp(a, b) => a == x || b == x
    case Phi(choices) => exists k :: 0 <= k < |choices| && choices[k].1 == x
    case Select(c, a, b) => c == x || a == x || b == x
    case Other(args) => x in args
    case ObjAddr(_, _, index) => index == Some(x)
    case Branch(c, _, _) => c == x
    case Return(v) => v == x
  }

  // ---------------------------------------------------------------- values and memory

  /** A number, byte c of the frame block, or byte j of a slot's own object. */
  datatype Val = Num(n: nat) | Frame(c: int) | Obj(slot: nat, j: int)

  /** A byte of memory: plain, or byte k of a stored address. */
  datatype MemVal = Byte(b: nat) | Fragment(v: Val, k: nat)

  type Bytes = map<int, MemVal>

  datatype Memory = Memory(world: Bytes, frame: Bytes, objs: seq<Bytes>)

  const P63: int := 0x8000_0000_0000_0000
  const P64: int := 0x1_0000_0000_0000_0000

  /** Address arithmetic wraps at 64 bits; offsets are read as signed. */
  function Norm(x: int): (r: int)
    ensures -P63 <= r < P63
  {
    (x + P63) % P64 - P63
  }

  lemma NormSmall(x: int)
    requires -P63 <= x < P63
    ensures Norm(x) == x
  {
  }

  lemma NormAdd(x: int, y: int)
    ensures Norm(Norm(x) + y) == Norm(x + y)
  {
    var a := x + P63;
    assert a == P64 * (a / P64) + a % P64;
    ModAddMultiple(Norm(x) + y + P63, a / P64);
  }

  lemma ModAddMultiple(a: int, k: int)
    ensures (a + P64 * k) % P64 == a % P64
  {
    var q, r := a / P64, a % P64;
    assert a + P64 * k == P64 * (q + k) + r;
    DivModUnique(a + P64 * k, P64, q + k, r);
  }

  function Moved(v: Val, x: int): Val {
    match v
    case Num(n) => Num((n + x) % P64)
    case Frame(c) => Frame(Norm(c + x))
    case Obj(s, j) => Obj(s, Norm(j + x))
  }

  function Look(m: Bytes, a: int): MemVal { if a in m then m[a] else Byte(0) }

  function Get(m: Bytes, a: int, n: nat): (ms: seq<MemVal>)
    ensures |ms| == n && forall k :: 0 <= k < n ==> ms[k] == Look(m, a + k)
  {
    seq(n, k requires 0 <= k < n => Look(m, a + k))
  }

  function Put(m: Bytes, a: int, ms: seq<MemVal>): (m': Bytes)
    ensures forall x :: Look(m', x) == if a <= x < a + |ms| then ms[x - a] else Look(m, x)
  {
    m + (map x | a <= x < a + |ms| :: Cell(ms, a, x))
  }

  function Cell(ms: seq<MemVal>, a: int, x: int): MemVal
    requires a <= x < a + |ms|
  {
    ms[x - a]
  }

  /** The bytes of a value; an address is stored whole or not at all. */
  function Encode(v: Val, n: nat): (r: Option<seq<MemVal>>)
    ensures r.Some? ==> |r.value| == n
  {
    if v.Num? then
      var bytes := ToLE(v.n, n);
      Some(seq(n, k requires 0 <= k < n => Byte(bytes[k])))
    else if n == 8 then Some(seq(8, k requires 0 <= k < 8 => Fragment(v, k)))
    else None
  }

  predicate AllPlain(ms: seq<MemVal>) { forall k :: 0 <= k < |ms| ==> ms[k].Byte? }

  function Plain(ms: seq<MemVal>): (bytes: seq<nat>)
    requires AllPlain(ms)
    ensures |bytes| == |ms| && forall k :: 0 <= k < |ms| ==> bytes[k] == ms[k].b
  {
    seq(|ms|, k requires 0 <= k < |ms| => ms[k].b)
  }

  predicate WholeAddress(ms: seq<MemVal>) {
    |ms| == 8 && ms[0].Fragment? && forall k :: 0 <= k < 8 ==> ms[k] == Fragment(ms[0].v, k)
  }

  function Decode(ms: seq<MemVal>): Option<Val> {
    if AllPlain(ms) then Some(Num(FromLE(Plain(ms))))
    else if WholeAddress(ms) then Some(ms[0].v)
    else None
  }

  // ---------------------------------------------------------------- accesses

  /** Why a run stops early. */
  datatype Stop =
    | OutOfBounds      // an access or an escaping pointer outside its block or object
    | Straddles        // an access from outside a slot into it
    | ResidualInSlot   // an access through the frame block to a byte that was split off
    | Unmodelled       // depends on where objects are placed
    | Undefined        // use of a value that was not computed

  datatype Place = InWorld(a: int) | InFrame(c: int) | InObject(slot: nat, j: int)

  predicate TouchesSlot(slots: seq<StackSlot>, c: int, n: nat) {
    exists x :: c <= x < c + n && SlotAt(slots, x).Some?
  }

  /** The place an access of n bytes goes to. */
  function Reach(slots: seq<StackSlot>, split: bool, size: nat, v: Val, n: nat): Result<Place, Stop> {
    match v
    case Num(a) => Ok(InWorld(a))
    case Frame(c) =>
      if c < 0 || c + n > size then Err(OutOfBounds)
      else if split && SlotAt(slots, c).Some? then Err(ResidualInSlot)
      else if split && TouchesSlot(slots, c, n) then Err(Straddles)
      else Ok(InFrame(c))
    case Obj(s, j) =>
      if s >= |slots| || j < 0 || j + n > slots[s].size then Err(OutOfBounds) else Ok(InObject(s, j))
  }

  function ReadAt(m: Memory, at: Place, n: nat): (ms: seq<MemVal>)
    requires at.InObject? ==> at.slot < |m.objs|
    ensures |ms| == n
  {
    match at
    case InWorld(a) => Get(m.world, a, n)
    case InFrame(c) => Get(m.frame, c, n)
    case InObject(s, j) => Get(m.objs[s], j, n)
  }

  function WriteAt(m: Memory, at: Place, ms: seq<MemVal>): Memory
    requires at.InObject? ==> at.slot < |m.objs|
  {
    match at
    case InWorld(a) => m.(world := Put(m.world, a, ms))
    case InFrame(c) => m.(frame := Put(m.frame, c, ms))
    case InObject(s, j) => m.(objs := m.objs[s := Put(m.objs[s], j, ms)])
  }

  // ---------------------------------------------------------------- calls

  /** What a callee can tell about an argument, and the bytes it can reach through it: the
      slot it points into, or the rest of the frame. */
  datatype View = Number(n: nat) | IntoSlot(slot: nat, j: int) | IntoRest(c: int)

  datatype Event = Event(callee: nat, args: seq<View>, reached: seq<seq<MemVal>>, world: Bytes)

  /** A callee's answer: its result and the bytes it leaves behind each argument. */
  datatype Answer = Answer(result: nat, left: seq<seq<nat>>, world: map<int, nat>)

  datatype Surroundings = Surroundings(other: (nat, seq<nat>) -> nat, callee: seq<Event> -> Answer)

  function ViewOf(slots: seq<StackSlot>, split: bool, v: Val): Result<View, Stop> {
    match v
    case Num(n) => Ok(Number(n))
    case Frame(c) =>
      (match SlotAt(slots, c)
       case None => Ok(IntoRest(c))
       case Some(s) => if split then Err(ResidualInSlot) else Ok(IntoSlot(s, c - slots[s].Start())))
    case Obj(s, j) =>
      if s < |slots| && 0 <= j < slots[s].size then Ok(IntoSlot(s, j)) else Err(OutOfBounds)
  }

  function SlotBytes(slots: seq<StackSlot>, split: bool, m: Memory, s: nat): seq<MemVal>
    requires s < |slots| && (split ==> |m.objs| == |slots|)
  {
    if split then Get(m.objs[s], 0, slots[s].size) else Get(m.frame, slots[s].Start(), slots[s].size)
  }

  /** The frame bytes outside all slots, others blanked. */
  function RestBytes(slots: seq<StackSlot>, size: nat, m: Memory): (ms: seq<MemVal>)
    ensures |ms| == size
    ensures forall c :: 0 <= c < size ==> ms[c] == if SlotAt(slots, c).Some? then Byte(0) else Look(m.frame, c)
  {
    seq(size, c requires 0 <= c < size => if SlotAt(slots, c).Some? then Byte(0) else Look(m.frame, c))
  }

  function Reached(slots: seq<StackSlot>, split: bool, size: nat, m: Memory, v: View): seq<MemVal>
    requires (v.IntoSlot? ==> v.slot < |slots|) && (split ==> |m.objs| == |slots|)
  {
    match v
    case Number(_) => []
    case IntoSlot(s, _) => SlotBytes(slots, split, m, s)
    case IntoRest(_) => RestBytes(slots, size, m)
  }

  function AnswerByte(left: seq<nat>, k: int): MemVal { Byte(if 0 <= k < |left| then left[k] else 0) }

  /** What the callee leaves in the bytes it could reach through one argument. */
  function Left(slots: seq<StackSlot>, split: bool, size: nat, m: Memory, v: View, left: seq<nat>): (m': Memory)
    requires (v.IntoSlot? ==> v.slot < |slots|) && (split ==> |m.objs| == |slots|)
    ensures |m'.objs| == |m.objs| && m'.world == m.world
  {
    match v
    case Number(_) => m
    case IntoSlot(s, _) =>
      var bytes := seq(slots[s].size, k requires 0 <= k < slots[s].size => AnswerByte(left, k));
      if split then m.(objs := m.objs[s := Put(m.objs[s], 0, bytes)])
      else m.(frame := Put(m.frame, slots[s].Start(), bytes))
    case IntoRest(_) =>
      m.(frame := m.frame + (map c | 0 <= c < size && SlotAt(slots, c).None? :: AnswerByte(left, c)))
  }

  // ---------------------------------------------------------------- runs

  datatype State =
    | Running(pc: nat, from: nat, env: map<nat, Val>, mem: Memory, calls: seq<Event>)
    | Stopped(why: Stop)
    | Done(v: nat, mem: Memory, calls: seq<Event>)

  function Eval(env: map<nat, Val>, x: Operand): Result<Val, Stop> {
    match x
    case Const(n) => Ok(Num(n))
    case Var(id) => if id in env then Ok(env[id]) else Err(Undefined)
  }

  function EvalNum(env: map<nat, Val>, x: Operand): Result<nat, Stop> {
    match Eval(env, x)
    case Err(e) => Err(e)
    case Ok(v) => if v.Num? then Ok(v.n) else Err(Unmodelled)
  }

  function EvalNums(env: map<nat, Val>, xs: seq<Operand>): Result<seq<nat>, Stop> {
    if xs == [] then Ok([])
    else
      match EvalNums(env, xs[..|xs| - 1])
      case Err(e) => Err(e)
      case Ok(ns) =>
        match EvalNum(env, xs[|xs| - 1])
        case Err(e) => Err(e)
        case Ok(n) => Ok(ns + [n])
  }

  function EvalViews(slots: seq<StackSlot>, split: bool, env: map<nat, Val>, xs: seq<Operand>): (r: Result<seq<View>, Stop>)
    ensures r.Ok? ==> |r.value| == |xs| && forall v <- r.value :: v.IntoSlot? ==> v.slot < |slots|
  {
    if xs == [] then Ok([])
    else
      match EvalViews(slots, split, env, xs[..|xs| - 1])
      case Err(e) => Err(e)
      case Ok(vs) =>
        match Eval(env, xs[|xs| - 1])
        case Err(e) => Err(e)
        case Ok(x) =>
          match ViewOf(slots, split, x)
          case Err(e) => Err(e)
          case Ok(v) => Ok(vs + [v])
  }

  function ReachedAll(slots: seq<StackSlot>, split: bool, size: nat, m: Memory, vs: seq<View>): seq<seq<MemVal>>
    requires (forall v <- vs :: v.IntoSlot? ==> v.slot < |slots|) && (split ==> |m.objs| == |slots|)
  {
    seq(|vs|, k requires 0 <= k < |vs| => Reached(slots, split, size, m, vs[k]))
  }

  function LeftAll(slots: seq<StackSlot>, split: bool, size: nat, m: Memory, vs: seq<View>,
                   left: seq<seq<nat>>): (m': Memory)
    requires (forall v <- vs :: v.IntoSlot? ==> v.slot < |slots|) && (split ==> |m.objs| == |slots|)
    ensures |m'.objs| == |m.objs| && m'.world == m.world
  {
    if vs == [] then m
    else
      var k := |vs| - 1;
      Left(slots, split, size, LeftAll(slots, split, size, m, vs[..k], left), vs[k], if k < |left| then left[k] else [])
  }

  /** Only plain bytes are in what the callee can see. */
  predicate Visible(reached: seq<seq<MemVal>>, world: Bytes) {
    (forall ms <- reached :: AllPlain(ms)) && forall a <- world :: world[a].Byte?
  }

  function CallResult(slots: seq<StackSlot>, split: bool, size: nat, sur: Surroundings, callee: nat, vs: seq<View>,
                      m: Memory, calls: seq<Event>): Result<(nat, Memory, seq<Event>), Stop>
    requires (forall v <- vs :: v.IntoSlot? ==> v.slot < |slots|) && (split ==> |m.objs| == |slots|)
  {
    var reached := ReachedAll(slots, split, size, m, vs);
    if !Visible(reached, m.world) then Err(Unmodelled)
    else
      var calls := calls + [Event(callee, vs, reached, m.world)];
      var answer := sur.callee(calls);
      Ok((answer.result, LeftAll(slots, split, size, m, vs, answer.left).(world := map a | a in answer.world :: Byte(answer.world[a])),
          calls))
  }

  function Chosen(choices: seq<(nat, Operand)>, from: nat): Option<Operand> {
    if choices == [] then None
    else if choices[0].0 == from then Some(choices[0].1)
    else Chosen(choices[1..], from)
  }

  /** The value of an instruction that only computes one. */
  function Compute(sur: Surroundings, i: Inst, pc: nat, from: nat, env: map<nat, Val>): Result<Val, Stop> {
    match i
    case StackBlock => Ok(Frame(0))
    case GepConst(p, k) => (match Eval(env, p) case Err(e) => Err(e) case Ok(v) => Ok(Moved(v, k)))
    case AddConst(p, k) => (match Eval(env, p) case Err(e) => Err(e) case Ok(v) => Ok(Moved(v, k)))
    case GepVar(p, idx, base, _) =>
      (match Eval(env, p)
       case Err(e) => Err(e)
       case Ok(v) =>
         match EvalNum(env, idx)
         case Err(e) => Err(e)
         case Ok(n) => Ok(Moved(v, n + if base.Some? then base.value else 0)))
    case PtrToInt(p) => Eval(env, p)
    case IntToPtr(p) => Eval(env, p)
    case ICmp(a, b) => Computed(sur, pc, EvalNums(env, [a, b]))
    case Other(args) => Computed(sur, pc, EvalNums(env, args))
    case Phi(choices) =>
      (match Chosen(choices, from)
       case None => Err(Undefined)
       case Some(x) => Eval(env, x))
    case Select(c, a, b) =>
      (match EvalNum(env, c)
       case Err(e) => Err(e)
       case Ok(n) => Eval(env, if n != 0 then a else b))
    case ObjAddr(s, rel, index) =>
      if index.None? then Ok(Obj(s, Norm(rel)))
      else (match EvalNum(env, index.value) case Err(e) => Err(e) case Ok(n) => Ok(Obj(s, Norm(n + rel))))
    case _ => Err(Undefined)
  }

  function Computed(sur: Surroundings, pc: nat, args: Result<seq<nat>, Stop>): Result<Val, Stop> {
    match args
    case Err(e) => Err(e)
    case Ok(ns) => Ok(Num(sur.other(pc, ns)))
  }

  predicate OnlyComputes(i: Inst) {
    !(i.Load? || i.Store? || i.Call? || i.Branch? || i.Return?)
  }

  function LoadResult(slots: seq<StackSlot>, split: bool, size: nat, m: Memory, p: Result<Val, Stop>,
                      n: nat): Result<Val, Stop>
    requires split ==> |m.objs| == |slots|
  {
    match p
    case Err(e) => Err(e)
    case Ok(v) =>
      match Reach(slots, split, size, v, n)
      case Err(e) => Err(e)
      case Ok(at) =>
        if at.InObject? && !split then Err(Unmodelled)
        else
          match Decode(ReadAt(m, at, n))
          case None => Err(Unmodelled)
          case Some(x) => Ok(x)
  }

  function StoreResult(slots: seq<StackSlot>, split: bool, size: nat, m: Memory, v: Result<Val, Stop>,
                       p: Result<Val, Stop>, n: nat)
    : (r: Result<Memory, Stop>)
    requires split ==> |m.objs| == |slots|
    ensures r.Ok? ==> |r.value.objs| == |m.objs|
  {
    match v
    case Err(e) => Err(e)
    case Ok(x) =>
      match p
      case Err(e) => Err(e)
      case Ok(a) =>
        match Reach(slots, split, size, a, n)
        case Err(e) => Err(e)
        case Ok(at) =>
          if at.InObject? && !split then Err(Unmodelled)
          else
            match Encode(x, n)
            case None => Err(Unmodelled)
            case Some(ms) => Ok(WriteAt(m, at, ms))
  }

  /** On to the next instruction, with the value of this one. */
  function WithValue(s: State, r: Result<Val, Stop>): State
    requires s.Running?
  {
    match r
    case Err(e) => Stopped(e)
    case Ok(v) => s.(pc := s.pc + 1, env := s.env[s.pc := v])
  }

  function WithMemory(s: State, r: Result<Memory, Stop>): State
    requires s.Running?
  {
    match r
    case Err(e) => Stopped(e)
    case Ok(m) => s.(pc := s.pc + 1, mem := m)
  }

  function WithAnswer(s: State, r: Result<(nat, Memory, seq<Event>), Stop>): State
    requires s.Running?
  {
    match r
    case Err(e) => Stopped(e)
    case Ok(a) => Running(s.pc + 1, s.from, s.env[s.pc := Num(a.0)], a.1, a.2)
  }

  function Branched(s: State, r: Result<nat, Stop>, ifTrue: nat, ifFalse: nat): State
    requires s.Running?
  {
    match r
    case Err(e) => Stopped(e)
    case Ok(n) => s.(pc := if n != 0 then ifTrue else ifFalse, from := s.pc)
  }

  function Finished(s: State, r: Result<nat, Stop>): State
    requires s.Running?
  {
    match r
    case Err(e) => Stopped(e)
    case Ok(n) => Done(n, s.mem, s.calls)
  }

  function DoCall(slots: seq<StackSlot>, split: bool, size: nat, sur: Surroundings, callee: nat, args: seq<Operand>,
                  s: State)
    : (s': State)
    requires s.Running? && (split ==> |s.mem.objs| == |slots|)
    ensures s'.Running? && split ==> |s'.mem.objs| == |slots|
  {
    match EvalViews(slots, split, s.env, args)
    case Err(e) => Stopped(e)
    case Ok(vs) => WithAnswer(s, CallResult(slots, split, size, sur, callee, vs, s.mem, s.calls))
  }

  /** One step of a function whose frame block has `size` bytes; `split` says whether the
      slots are objects of their own. */
  function Step(f: Code, slots: seq<StackSlot>, split: bool, size: nat, sur: Surroundings, s: State): (s': State)
    requires s.Running? && split ==> |s.mem.objs| == |slots|
    ensures s'.Running? && split ==> |s'.mem.objs| == |slots|
  {
    if !s.Running? then s
    else if s.pc >= |f| then Stopped(Undefined)
    else
      var i := f[s.pc];
      match i
      case Load(p, n) => WithValue(s, LoadResult(slots, split, size, s.mem, Eval(s.env, p), n))
      case Store(v, p, n) => WithMemory(s, StoreResult(slots, split, size, s.mem, Eval(s.env, v), Eval(s.env, p), n))
      case Call(callee, args) => DoCall(slots, split, size, sur, callee, args, s)
      case Branch(c, t, e) => Branched(s, EvalNum(s.env, c), t, e)
      case Return(x) => Finished(s, EvalNum(s.env, x))
      case _ => WithValue(s, Compute(sur, i, s.pc, s.from, s.env))
  }

  function Steps(f: Code, slots: seq<StackSlot>, split: bool, size: nat, sur: Surroundings, s: State, n: nat): (s': State)
    requires s.Running? && split ==> |s.mem.objs| == |slots|
    ensures s'.Running? && split ==> |s'.mem.objs| == |slots|
  {
    if n == 0 then s else Step(f, slots, split, size, sur, Steps(f, slots, split, size, sur, s, n - 1))
  }
}
