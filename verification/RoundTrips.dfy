/**
 * Collapsing pointer-to-integer round trips: an address converted to an integer, added to, and converted
 * back becomes one address computation, wherever nothing else uses the steps in between.
 */
module RoundTrips {
  import opened Options

  // ---------------------------------------------------------------- code

  datatype Operand = Var(id: nat) | Const(n: nat)

  datatype Inst =
    | PtrToInt(p: Operand)
    | Add(a: Operand, b: Operand)
    | IntToPtr(a: Operand)
    | Gep(p: Operand, off: Operand)
    | Other(opcode: nat, args: seq<Operand>)

  /** An instruction and the name of its result. */
  datatype Def = Def(id: nat, inst: Inst)

  type Body = seq<Def>

  function Operands(i: Inst): seq<Operand> {
    match i
    case PtrToInt(p) => [p]
    case Add(a, b) => [a, b]
    case IntToPtr(a) => [a]
    case Gep(p, off) => [p, off]
    case Other(_, args) => args
  }

  function Occurrences(xs: seq<Operand>, id: nat): (n: nat)
    ensures n == 0 <==> Var(id) !in xs
  {
    if xs == [] then 0 else Occurrences(xs[..|xs| - 1], id) + if xs[|xs| - 1] == Var(id) then 1 else 0
  }

  function NumUses(f: Body, id: nat): nat {
    if f == [] then 0 else NumUses(f[..|f| - 1], id) + Occurrences(Operands(f[|f| - 1].inst), id)
  }

  function Find(f: Body, id: nat): (r: Option<Inst>)
    ensures r.Some? ==> Def(id, r.value) in f
    ensures r.None? ==> forall d <- f :: d.id != id
  {
    if f == [] then None
    else if f[|f| - 1].id == id then Some(f[|f| - 1].inst)
    else Find(f[..|f| - 1], id)
  }

  function FindOperand(f: Body, x: Operand): Option<Inst> {
    if x.Var? then Find(f, x.id) else None
  }

  predicate Distinct(f: Body) {
    forall i, j :: 0 <= i < j < |f| ==> f[i].id != f[j].id
  }

  // ---------------------------------------------------------------- the rewrite

  /** The steps of a round trip that ends in x: the sum, the conversion, the base, and the offset. */
  datatype Trip = Trip(sum: nat, conv: nat, base: Operand, off: Operand)

  /** The round trip that ends in the instruction `inst`, if its steps have no other use. */
  function TripOf(f: Body, inst: Inst): (r: Option<Trip>)
    ensures r.Some? ==> inst.IntToPtr? && inst.a == Var(r.value.sum)
  {
    if !inst.IntToPtr? then None
    else
      match FindOperand(f, inst.a)
      case Some(Add(a, b)) =>
        if NumUses(f, inst.a.id) > 1 then None
        else
          var left := FindOperand(f, a);
          var onLeft := left.Some? && left.value.PtrToInt?;
          var conv := if onLeft then a else b;
          (match FindOperand(f, conv)
           case Some(PtrToInt(base)) =>
             if NumUses(f, conv.id) > 1 then None else Some(Trip(inst.a.id, conv.id, base, if onLeft then b else a))
           case _ => None)
      case _ => None
  }

  function SwapOperand(x: Operand, original: nat,
                       replacement: nat): Operand { if x == Var(original) then Var(replacement) else x }

  function SwapAll(xs: seq<Operand>, original: nat, replacement: nat): (r: seq<Operand>)
    ensures |r| == |xs| && forall k :: 0 <= k < |xs| ==> r[k] == SwapOperand(xs[k], original, replacement)
  {
    seq(|xs|, k requires 0 <= k < |xs| => SwapOperand(xs[k], original, replacement))
  }

  function SwapInst(i: Inst, original: nat, replacement: nat): Inst {
    match i
    case PtrToInt(p) => PtrToInt(SwapOperand(p, original, replacement))
    case Add(a, b) => Add(SwapOperand(a, original, replacement), SwapOperand(b, original, replacement))
    case IntToPtr(a) => IntToPtr(SwapOperand(a, original, replacement))
    case Gep(p, off) => Gep(SwapOperand(p, original, replacement), SwapOperand(off, original, replacement))
    case Other(op, args) => Other(op, SwapAll(args, original, replacement))
  }

  function ReplaceUses(f: Body, original: nat, replacement: nat): (r: Body)
    ensures |r| == |f| && forall k :: 0 <= k < |f| ==> r[k] == Def(f[k].id, SwapInst(f[k].inst, original, replacement))
  {
    seq(|f|, k requires 0 <= k < |f| => Def(f[k].id, SwapInst(f[k].inst, original, replacement)))
  }

  function Without(f: Body, dead: set<nat>): (r: Body)
    ensures forall d :: d in r <==> d in f && d.id !in dead
  {
    if f == [] then []
    else Without(f[..|f| - 1], dead) + if f[|f| - 1].id in dead then [] else [f[|f| - 1]]
  }

  /** `d` put in front of the instruction that defines x. */
  function InsertBefore(f: Body, x: nat, d: Def): (r: Body)
    ensures forall e :: e in r <==> e in f || (e == d && exists y <- f :: y.id == x)
  {
    if f == [] then []
    else InsertBefore(f[..|f| - 1], x, d) + if f[|f| - 1].id == x then [d, f[|f| - 1]] else [f[|f| - 1]]
  }

  /** The function with the round trip that ends in x collapsed to `gep`. */
  function Collapse(f: Body, x: nat, t: Trip, gep: nat): Body {
    Without(ReplaceUses(InsertBefore(f, x, Def(gep, Gep(t.base, t.off))), x, gep), {x, t.sum, t.conv})
  }

  // ---------------------------------------------------------------- meaning

  const P64: int := 0x1_0000_0000_0000_0000

  /** What the other instructions may compute from their operands. */
  type Meaning = (nat, nat, seq<nat>) -> bool

  /** Values of names; 0 for the others. */
  type Values = map<nat, nat>

  function At(v: Values, id: nat): nat { if id in v then v[id] else 0 }

  function Value(v: Values, x: Operand): nat { if x.Var? then At(v, x.id) else x.n }

  function ValuesOf(v: Values, xs: seq<Operand>): (r: seq<nat>)
    ensures |r| == |xs| && forall k :: 0 <= k < |xs| ==> r[k] == Value(v, xs[k])
  {
    seq(|xs|, k requires 0 <= k < |xs| => Value(v, xs[k]))
  }

  /** The result is what the instruction computes from its operands; addresses are 64-bit numbers. */
  predicate Holds(m: Meaning, result: nat, i: Inst, v: Values) {
    match i
    case PtrToInt(p) => result == Value(v, p) % P64
    case Add(a, b) => result == (Value(v, a) + Value(v, b)) % P64
    case IntToPtr(a) => result == Value(v, a) % P64
    case Gep(p, off) => result == (Value(v, p) + Value(v, off)) % P64
    case Other(op, args) => m(op, result, ValuesOf(v, args))
  }

  /** Values for all names that fit every instruction. */
  ghost predicate Solves(m: Meaning, f: Body, v: Values) {
    forall d <- f :: Holds(m, At(v, d.id), d.inst, v)
  }

  /** Every name that is used is defined. */
  predicate Closed(f: Body) {
    forall d <- f :: forall x <- Operands(d.inst) :: x.Var? ==> exists e <- f :: e.id == x.id
  }

  /** Every instruction with a meaning of its own is still there, with the same operand values and the same result. */
  ghost predicate Mirrors(f: Body, v: Values, g: Body, v': Values) {
    forall d <- f :: d.inst.Other? ==> exists e <- g :: Mirrored(d, v, e, v')
  }

  predicate Mirrored(d: Def, v: Values, e: Def, v': Values) {
    && e.id == d.id && d.inst.Other? && e.inst.Other? && e.inst.opcode == d.inst.opcode
    && ValuesOf(v', e.inst.args) == ValuesOf(v, d.inst.args) && At(v', e.id) == At(v, d.id)
  }

  /** Whatever values fit `f`, some values that mirror them fit `g`. */
  ghost predicate Carries(m: Meaning, f: Body, g: Body) {
    forall v: Values | Solves(m, f, v) :: exists v': Values :: Solves(m, g, v') && Mirrors(f, v, g, v')
  }

  /** Whatever values fit `g`, they mirror some values that fit `f`. */
  ghost predicate CarriesBack(m: Meaning, f: Body, g: Body) {
    forall v': Values | Solves(m, g, v') :: exists v: Values :: Solves(m, f, v) && Mirrors(f, v, g, v')
  }

  /** The two functions have the same values, up to the names of the collapsed steps. */
  ghost predicate SameMeaning(m: Meaning, f: Body, g: Body) { Carries(m, f, g) && CarriesBack(m, f, g) }

  // ---------------------------------------------------------------- uses

  lemma {:induction false} UsedOnce(f: Body, id: nat, d: Def, e: Def)
    requires Distinct(f) && NumUses(f, id) <= 1
    requires d in f && e in f && Var(id) in Operands(d.inst) && Var(id) in Operands(e.inst)
    ensures d == e
    decreases |f|
  {
    var front, last := f[..|f| - 1], f[|f| - 1];
    assert Distinct(front);
    if d in front && e in front {
      UsedOnce(front, id, d, e);
    } else if d in front {
      UsesPositive(front, id, d);
    } else if e in front {
      UsesPositive(front, id, e);
    }
  }

  lemma {:induction false} UsesPositive(f: Body, id: nat, d: Def)
    requires d in f && Var(id) in Operands(d.inst)
    ensures NumUses(f, id) >= 1
    decreases |f|
  {
    var front := f[..|f| - 1];
    if d in front { UsesPositive(front, id, d); }
  }

  lemma {:induction false} UsesAtLeast(f: Body, id: nat, d: Def)
    requires d in f
    ensures NumUses(f, id) >= Occurrences(Operands(d.inst), id)
    decreases |f|
  {
    var front := f[..|f| - 1];
    if d in front { UsesAtLeast(front, id, d); }
  }

  lemma {:induction false} TwiceInAdd(id: nat)
    ensures Occurrences([Var(id), Var(id)], id) == 2
  {
    assert [Var(id), Var(id)][..1] == [Var(id)] && [Var(id)][..0] == [];
  }

  /** What finding a round trip says about the function. */
  ghost predicate TripIn(f: Body, x: nat, t: Trip) {
    && Def(x, IntToPtr(Var(t.sum))) in f && Def(t.conv, PtrToInt(t.base)) in f
    && (Def(t.sum, Add(Var(t.conv), t.off)) in f || Def(t.sum, Add(t.off, Var(t.conv))) in f)
    && x != t.sum && x != t.conv && t.sum != t.conv
    && t.off != Var(t.conv) && t.off != Var(t.sum) && t.base != Var(t.conv) && t.base != Var(t.sum)
    && (forall d <- f :: Var(t.sum) in Operands(d.inst) ==> d.id == x)
    && forall d <- f :: Var(t.conv) in Operands(d.inst) ==> d.id == t.sum
  }

  /** The sum, with its operands in the order they have. */
  function SumOf(f: Body, t: Trip): Def {
    var d := Def(t.sum, Add(Var(t.conv), t.off));
    if d in f then d else Def(t.sum, Add(t.off, Var(t.conv)))
  }

  lemma SameDef(f: Body, d: Def, e: Def)
    requires Distinct(f) && d in f && e in f && d.id == e.id
    ensures d == e
  {
  }

  lemma {:induction false} TripFound(f: Body, x: nat, inst: Inst)
    requires Distinct(f) && Def(x, inst) in f && TripOf(f, inst).Some?
    ensures TripIn(f, x, TripOf(f, inst).value)
  {
    var t := TripOf(f, inst).value;
    var last, conv := Def(x, inst), Def(t.conv, PtrToInt(t.base));
    var add := Def(t.sum, Find(f, t.sum).value);
    assert Var(t.sum) in Operands(inst) && Var(t.conv) in Operands(add.inst);
    assert add in f && conv in f && add.inst.Add?;
    OffsetIsNotConv(f, t, add);
    OtherName(f, last, add);
    OtherName(f, last, conv);
    OtherName(f, add, conv);
    forall d | d in f && Var(t.sum) in Operands(d.inst) ensures d.id == x { UsedOnce(f, t.sum, d, last); }
    forall d | d in f && Var(t.conv) in Operands(d.inst) ensures d.id == t.sum { UsedOnce(f, t.conv, d, add); }
    assert t.off in Operands(add.inst) && t.base in Operands(conv.inst);
  }

  lemma OtherName(f: Body, d: Def, e: Def)
    requires Distinct(f) && d in f && e in f && d.inst != e.inst
    ensures d.id != e.id
  {
  }

  lemma {:induction false} OffsetIsNotConv(f: Body, t: Trip, add: Def)
    requires add in f && NumUses(f, t.conv) <= 1
    requires add.inst == Add(Var(t.conv), t.off) || add.inst == Add(t.off, Var(t.conv))
    ensures t.off != Var(t.conv)
  {
    if t.off == Var(t.conv) {
      TwiceInAdd(t.conv);
      UsesAtLeast(f, t.conv, add);
    }
  }

  // ---------------------------------------------------------------- the same values

  predicate FreshName(f: Body, id: nat) {
    forall d <- f :: d.id != id && Var(id) !in Operands(d.inst)
  }

  /** The values agree on the operand and on what it is replaced by. */
  lemma {:induction false} HoldsSwapped(m: Meaning, result: nat, i: Inst, v: Values, v': Values, x: nat, gep: nat)
    requires forall o <- Operands(i) :: Value(v', SwapOperand(o, x, gep)) == Value(v, o)
    ensures Holds(m, result, SwapInst(i, x, gep), v') <==> Holds(m, result, i, v)
  {
    if i.Other? {
      assert ValuesOf(v', SwapAll(i.args, x, gep)) == ValuesOf(v, i.args);
    }
  }

  lemma ArgsSwapped(args: seq<Operand>, v: Values, v': Values, x: nat, gep: nat)
    requires forall o <- args :: Value(v', SwapOperand(o, x, gep)) == Value(v, o)
    ensures ValuesOf(v', SwapAll(args, x, gep)) == ValuesOf(v, args)
  {
  }

  function Renamed(d: Def, x: nat, gep: nat): Def { Def(d.id, SwapInst(d.inst, x, gep)) }

  lemma ReplacedDefs(f: Body, x: nat, gep: nat, e: Def)
    ensures e in ReplaceUses(f, x, gep) <==> exists d <- f :: e == Renamed(d, x, gep)
  {
    var g := ReplaceUses(f, x, gep);
    if e in g {
      var k :| 0 <= k < |g| && g[k] == e;
      assert f[k] in f && e == Renamed(f[k], x, gep);
    }
    if d :| d in f && e == Renamed(d, x, gep) {
      var k :| 0 <= k < |f| && f[k] == d;
      assert g[k] == e;
    }
  }

  /** A kept instruction, renamed. */
  ghost predicate Kept(f: Body, x: nat, t: Trip, gep: nat, e: Def) {
    exists d <- f :: d.id != x && d.id != t.sum && d.id != t.conv && e == Renamed(d, x, gep)
  }

  predicate HasSteps(f: Body, x: nat, t: Trip) {
    (exists d <- f :: d.id == x) && (exists d <- f :: d.id == t.sum) && (exists d <- f :: d.id == t.conv)
  }

  lemma {:induction false} StepsAreThere(f: Body, x: nat, t: Trip)
    requires TripIn(f, x, t)
    ensures HasSteps(f, x, t)
  {
    assert Def(x, IntToPtr(Var(t.sum))) in f && Def(t.conv, PtrToInt(t.base)) in f;
    assert Def(t.sum, Add(Var(t.conv), t.off)) in f || Def(t.sum, Add(t.off, Var(t.conv))) in f;
  }

  lemma {:induction false} SurvivorsOf(f: Body, x: nat, t: Trip, gep: nat, e: Def)
    ensures e in Collapse(f, x, t, gep)
            <==> e in ReplaceUses(InsertBefore(f, x, Def(gep, Gep(t.base, t.off))), x, gep)
                 && e.id != x && e.id != t.sum && e.id != t.conv
  {
    hide ReplaceUses, InsertBefore;
  }

  /** What is in the collapsed function. */
  lemma {:induction false} CollapsedDefs(f: Body, x: nat, t: Trip, gep: nat, e: Def)
    requires HasSteps(f, x, t) && FreshName(f, gep)
    ensures e in Collapse(f, x, t, gep) <==> e == Renamed(Def(gep, Gep(t.base, t.off)), x, gep) || Kept(f, x, t, gep, e)
  {
    var d0 := Def(gep, Gep(t.base, t.off));
    var f1 := InsertBefore(f, x, d0);
    assert d0 in f1;
    assert gep != x && gep != t.sum && gep != t.conv;
    assert forall d :: d in f1 <==> d in f || d == d0;
    ReplacedDefs(f1, x, gep, e);
    SurvivorsOf(f, x, t, gep, e);
    hide HasSteps, FreshName, InsertBefore, Without, SwapInst, ReplaceUses, Collapse;
    if e == Renamed(d0, x, gep) { assert d0 in f1; }
    if Kept(f, x, t, gep, e) {
      var d :| d in f && d.id != x && d.id != t.sum && d.id != t.conv && e == Renamed(d, x, gep);
      assert d in f1;
    }
  }

  lemma GepMeans(base: nat, conv: nat, off: nat, sum: nat, x: nat)
    requires conv == base % P64 && (sum == (conv + off) % P64 || sum == (off + conv) % P64) && x == sum % P64
    ensures x == (base + off) % P64
  {
    assert (base % P64 + off) % P64 == (base + off) % P64;
  }

  /** Values of the original give values of the collapsed function: the new name gets the address. */
  lemma {:induction false} Forward(m: Meaning, f: Body, x: nat, t: Trip, gep: nat, v: Values)
    requires Distinct(f) && TripIn(f, x, t) && FreshName(f, gep) && Solves(m, f, v)
    ensures var v' := v[gep := At(v, x)];
            Solves(m, Collapse(f, x, t, gep), v') && Mirrors(f, v, Collapse(f, x, t, gep), v')
  {
    var g, v' := Collapse(f, x, t, gep), v[gep := At(v, x)];
    hide Collapse;
    forall d | d in f
      ensures forall o <- Operands(d.inst) :: Value(v', SwapOperand(o, x, gep)) == Value(v, o)
      ensures Holds(m, At(v', d.id), SwapInst(d.inst, x, gep), v')
    {
      HoldsSwapped(m, At(v, d.id), d.inst, v, v', x, gep);
    }
    GepHolds(m, f, x, t, gep, v, v');
    StepsAreThere(f, x, t);
    forall e | e in g ensures Holds(m, At(v', e.id), e.inst, v') { CollapsedDefs(f, x, t, gep, e); }
    forall d | d in f && d.inst.Other? ensures exists e <- g :: Mirrored(d, v, e, v') {
      StepsAreNotOther(f, x, t, d);
      OtherStays(f, x, t, gep, d, v, v');
    }
  }

  lemma {:induction false} StepsAreNotOther(f: Body, x: nat, t: Trip, d: Def)
    requires Distinct(f) && TripIn(f, x, t) && d in f && d.inst.Other?
    ensures d.id != x && d.id != t.sum && d.id != t.conv
  {
    if d.id == x { SameDef(f, d, Def(x, IntToPtr(Var(t.sum)))); }
    if d.id == t.conv { SameDef(f, d, Def(t.conv, PtrToInt(t.base))); }
    if d.id == t.sum {
      SameDef(f, d, SumOf(f, t));
    }
  }

  lemma {:induction false} GepHolds(m: Meaning, f: Body, x: nat, t: Trip, gep: nat, v: Values, v': Values)
    requires TripIn(f, x, t) && FreshName(f, gep) && Solves(m, f, v) && v' == v[gep := At(v, x)]
    ensures Holds(m, At(v', gep), SwapInst(Gep(t.base, t.off), x, gep), v')
  {
    var last, conv := Def(x, IntToPtr(Var(t.sum))), Def(t.conv, PtrToInt(t.base));
    assert Holds(m, At(v, last.id), last.inst, v) && Holds(m, At(v, conv.id), conv.inst, v);
    var add := SumOf(f, t);
    assert add in f && Holds(m, At(v, add.id), add.inst, v);
    GepMeans(Value(v, t.base), At(v, t.conv), Value(v, t.off), At(v, t.sum), At(v, x));
    assert t.base in Operands(conv.inst) && t.off in Operands(add.inst);
    assert t.base != Var(gep) && t.off != Var(gep);
  }

  /** Another instruction is kept, with operand values that agree. */
  lemma {:induction false} OtherStays(f: Body, x: nat, t: Trip, gep: nat, d: Def, v: Values, v': Values)
    requires HasSteps(f, x, t) && FreshName(f, gep)
    requires d in f && d.inst.Other? && d.id != x && d.id != t.sum && d.id != t.conv
    requires At(v', d.id) == At(v, d.id) && forall o <- Operands(d.inst) :: Value(v', SwapOperand(o, x, gep)) == Value(v, o)
    ensures exists e <- Collapse(f, x, t, gep) :: Mirrored(d, v, e, v')
  {
    var e := Renamed(d, x, gep);
    CollapsedDefs(f, x, t, gep, e);
    assert Kept(f, x, t, gep, e);
    RenamedMirrors(d, v, v', x, gep);
    hide HasSteps, FreshName, Collapse, Kept, Mirrored, Renamed, SwapOperand;
  }

  lemma {:induction false} RenamedMirrors(d: Def, v: Values, v': Values, x: nat, gep: nat)
    requires d.inst.Other? && At(v', d.id) == At(v, d.id)
    requires forall o <- Operands(d.inst) :: Value(v', SwapOperand(o, x, gep)) == Value(v, o)
    ensures Mirrored(d, v, Renamed(d, x, gep), v')
  {
    ArgsSwapped(d.inst.args, v, v', x, gep);
  }

  /** The values of the original's names, given values of the collapsed function. */
  function Restored(t: Trip, x: nat, gep: nat, v': Values): Values {
    v'[x := At(v', gep)][t.sum := At(v', gep)][t.conv := Value(v', SwapOperand(t.base, x, gep)) % P64]
  }

  lemma {:induction false} RestoredOperand(f: Body, x: nat, t: Trip, gep: nat, v': Values, o: Operand)
    requires TripIn(f, x, t) && o != Var(t.sum) && o != Var(t.conv)
    ensures Value(v', SwapOperand(o, x, gep)) == Value(Restored(t, x, gep, v'), o)
  {
    hide TripIn;
  }

  /** Values of the collapsed function give values of the original: the steps are computed again. */
  lemma {:induction false} Backward(m: Meaning, f: Body, x: nat, t: Trip, gep: nat, v': Values)
    requires Distinct(f) && TripIn(f, x, t) && FreshName(f, gep) && Solves(m, Collapse(f, x, t, gep), v')
    ensures var v := Restored(t, x, gep, v'); Solves(m, f, v) && Mirrors(f, v, Collapse(f, x, t, gep), v')
  {
    var v := Restored(t, x, gep, v');
    StepsAreThere(f, x, t);
    forall d | d in f ensures Holds(m, At(v, d.id), d.inst, v) {
      if d.id == x || d.id == t.sum || d.id == t.conv {
        StepRestored(m, f, x, t, gep, v', d);
      } else {
        KeptRestored(m, f, x, t, gep, v', d);
      }
    }
    forall d | d in f && d.inst.Other? ensures exists e <- Collapse(f, x, t, gep) :: Mirrored(d, v, e, v') {
      StepsAreNotOther(f, x, t, d);
      UnusedSteps(f, x, t, gep, v', d);
      KeptName(f, x, t, gep, v', d);
      OtherStays(f, x, t, gep, d, v, v');
    }
  }

  lemma KeptName(f: Body, x: nat, t: Trip, gep: nat, v': Values, d: Def)
    requires d.id != x && d.id != t.sum && d.id != t.conv
    ensures At(v', d.id) == At(Restored(t, x, gep, v'), d.id)
  {
  }

  /** Only the steps themselves use the steps. */
  lemma {:induction false} UnusedSteps(f: Body, x: nat, t: Trip, gep: nat, v': Values, d: Def)
    requires TripIn(f, x, t) && d in f && d.id != x && d.id != t.sum && d.id != t.conv
    ensures forall o <- Operands(d.inst) :: Value(v', SwapOperand(o, x, gep)) == Value(Restored(t, x, gep, v'), o)
  {
    forall o | o in Operands(d.inst) ensures Value(v', SwapOperand(o, x, gep)) == Value(Restored(t, x, gep, v'), o) {
      RestoredOperand(f, x, t, gep, v', o);
    }
  }

  lemma {:induction false} KeptRestored(m: Meaning, f: Body, x: nat, t: Trip, gep: nat, v': Values, d: Def)
    requires TripIn(f, x, t) && FreshName(f, gep) && Solves(m, Collapse(f, x, t, gep), v')
    requires d in f && d.id != x && d.id != t.sum && d.id != t.conv
    ensures Holds(m, At(Restored(t, x, gep, v'), d.id), d.inst, Restored(t, x, gep, v'))
  {
    var v, e := Restored(t, x, gep, v'), Renamed(d, x, gep);
    StepsAreThere(f, x, t);
    CollapsedDefs(f, x, t, gep, e);
    assert Kept(f, x, t, gep, e);
    UnusedSteps(f, x, t, gep, v', d);
    KeptName(f, x, t, gep, v', d);
    assert Holds(m, At(v', e.id), e.inst, v');
    hide Restored, TripIn, FreshName, Collapse, Kept, Solves, HasSteps, Holds, SwapInst, SwapOperand;
    HoldsSwapped(m, At(v, d.id), d.inst, v, v', x, gep);
  }

  lemma {:induction false} StepRestored(m: Meaning, f: Body, x: nat, t: Trip, gep: nat, v': Values, d: Def)
    requires Distinct(f) && TripIn(f, x, t) && FreshName(f, gep) && Solves(m, Collapse(f, x, t, gep), v')
    requires d in f && (d.id == x || d.id == t.sum || d.id == t.conv)
    ensures Holds(m, At(Restored(t, x, gep, v'), d.id), d.inst, Restored(t, x, gep, v'))
  {
    hide TripIn, FreshName, Collapse, Solves, Holds, Restored, SwapOperand;
    var v := Restored(t, x, gep, v');
    var b, off := Value(v', SwapOperand(t.base, x, gep)), Value(v', SwapOperand(t.off, x, gep));
    GepValue(m, f, x, t, gep, v');
    StepsApart(f, x, t);
    RestoredOperand(f, x, t, gep, v', t.base);
    RestoredOperand(f, x, t, gep, v', t.off);
    StepIs(f, x, t, d);
    RestoredSteps(t, x, gep, v');
    StepHolds(m, d, x, t, v, b, off);
  }

  lemma StepsApart(f: Body, x: nat, t: Trip)
    requires TripIn(f, x, t)
    ensures x != t.sum && x != t.conv && t.sum != t.conv
    ensures t.off != Var(t.conv) && t.off != Var(t.sum) && t.base != Var(t.conv) && t.base != Var(t.sum)
  {
  }

  lemma RestoredSteps(t: Trip, x: nat, gep: nat, v': Values)
    requires x != t.sum && x != t.conv && t.sum != t.conv
    ensures var v := Restored(t, x, gep, v');
            At(v, x) == At(v', gep) && At(v, t.sum) == At(v', gep)
            && At(v, t.conv) == Value(v', SwapOperand(t.base, x, gep)) % P64
  {
  }

  lemma {:induction false} GepValue(m: Meaning, f: Body, x: nat, t: Trip, gep: nat, v': Values)
    requires TripIn(f, x, t) && FreshName(f, gep) && Solves(m, Collapse(f, x, t, gep), v')
    ensures At(v', gep) == (Value(v', SwapOperand(t.base, x, gep)) + Value(v', SwapOperand(t.off, x, gep))) % P64
  {
    hide TripIn, FreshName, Collapse, Solves, SwapOperand, HasSteps;
    StepsAreThere(f, x, t);
    CollapsedDefs(f, x, t, gep, Renamed(Def(gep, Gep(t.base, t.off)), x, gep));
    GepFits(m, Collapse(f, x, t, gep), v', t.base, t.off, x, gep);
  }

  lemma GepFits(m: Meaning, g: Body, v: Values, base: Operand, off: Operand, x: nat, gep: nat)
    requires Solves(m, g, v) && Renamed(Def(gep, Gep(base, off)), x, gep) in g
    ensures At(v, gep) == (Value(v, SwapOperand(base, x, gep)) + Value(v, SwapOperand(off, x, gep))) % P64
  {
    FitsAt(m, g, v, Renamed(Def(gep, Gep(base, off)), x, gep));
  }

  lemma FitsAt(m: Meaning, f: Body, v: Values, d: Def)
    requires Solves(m, f, v) && d in f
    ensures Holds(m, At(v, d.id), d.inst, v)
  {
  }

  lemma StepHolds(m: Meaning, d: Def, x: nat, t: Trip, v: Values, b: nat, off: nat)
    requires d.id == x || d.id == t.sum || d.id == t.conv
    requires x != t.sum && x != t.conv && t.sum != t.conv
    requires d.id == x ==> d.inst == IntToPtr(Var(t.sum))
    requires d.id == t.conv ==> d.inst == PtrToInt(t.base)
    requires d.id == t.sum ==> d.inst == Add(Var(t.conv), t.off) || d.inst == Add(t.off, Var(t.conv))
    requires Value(v, t.base) == b && Value(v, t.off) == off
    requires At(v, x) == At(v, t.sum) == (b + off) % P64 && At(v, t.conv) == b % P64
    ensures Holds(m, At(v, d.id), d.inst, v)
  {
    assert (b % P64 + off) % P64 == (b + off) % P64;
  }

  lemma {:induction false} StepIs(f: Body, x: nat, t: Trip, d: Def)
    requires Distinct(f) && TripIn(f, x, t) && d in f
    ensures d.id == x ==> d.inst == IntToPtr(Var(t.sum))
    ensures d.id == t.conv ==> d.inst == PtrToInt(t.base)
    ensures d.id == t.sum ==> d.inst == Add(Var(t.conv), t.off) || d.inst == Add(t.off, Var(t.conv))
  {
    if d.id == x { SameDef(f, d, Def(x, IntToPtr(Var(t.sum)))); }
    if d.id == t.conv { SameDef(f, d, Def(t.conv, PtrToInt(t.base))); }
    if d.id == t.sum {
      SameDef(f, d, SumOf(f, t));
    }
  }

  /** Collapsing a round trip keeps the values of everything else, in both directions. */
  lemma {:induction false} CollapseKeepsMeaning(m: Meaning, f: Body, x: nat, t: Trip, gep: nat)
    requires Distinct(f) && TripIn(f, x, t) && FreshName(f, gep)
    ensures SameMeaning(m, f, Collapse(f, x, t, gep))
  {
    var g := Collapse(f, x, t, gep);
    hide Collapse, TripIn, FreshName, Solves, Mirrors, Distinct;
    forall v: Values | Solves(m, f, v) ensures exists v': Values :: Solves(m, g, v') && Mirrors(f, v, g, v') {
      Forward(m, f, x, t, gep, v);
    }
    forall v': Values | Solves(m, g, v') ensures exists v: Values :: Solves(m, f, v) && Mirrors(f, v, g, v') {
      Backward(m, f, x, t, gep, v');
    }
  }

  // ---------------------------------------------------------------- no use of an erased instruction

  /** After the rewrite nothing uses a step, and every name that is used is still defined. */
  lemma {:induction false} CollapseKeepsClosed(f: Body, x: nat, t: Trip, gep: nat)
    requires TripIn(f, x, t) && FreshName(f, gep) && Closed(f)
    ensures Closed(Collapse(f, x, t, gep))
    ensures forall e <- Collapse(f, x, t, gep) ::
              e.id != x && e.id != t.sum && e.id != t.conv
              && Var(x) !in Operands(e.inst) && Var(t.sum) !in Operands(e.inst) && Var(t.conv) !in Operands(e.inst)
  {
    var g := Collapse(f, x, t, gep);
    StepsAreThere(f, x, t);
    forall e | e in g
      ensures e.id != x && e.id != t.sum && e.id != t.conv
      ensures Var(x) !in Operands(e.inst) && Var(t.sum) !in Operands(e.inst) && Var(t.conv) !in Operands(e.inst)
      ensures forall o <- Operands(e.inst) :: o.Var? ==> exists d <- g :: d.id == o.id
    {
      CollapsedDefs(f, x, t, gep, e);
      var d := if Kept(f, x, t, gep, e) then KeptOrigin(f, x, t, gep, e) else Def(gep, Gep(t.base, t.off));
      OperandsOfKept(f, x, t, gep, d);
      hide Collapse, TripIn, FreshName, Closed, HasSteps, Kept;
    }
  }

  ghost function KeptOrigin(f: Body, x: nat, t: Trip, gep: nat, e: Def): (d: Def)
    requires Kept(f, x, t, gep, e)
    ensures d in f && d.id != x && d.id != t.sum && d.id != t.conv && e == Renamed(d, x, gep)
  {
    var d :| d in f && d.id != x && d.id != t.sum && d.id != t.conv && e == Renamed(d, x, gep); d
  }

  lemma {:induction false} SwappedOperands(i: Inst, x: nat, gep: nat)
    ensures forall o <- Operands(SwapInst(i, x, gep)) :: exists o' <- Operands(i) :: o == SwapOperand(o', x, gep)
  {
    forall o | o in Operands(SwapInst(i, x, gep)) ensures exists o' <- Operands(i) :: o == SwapOperand(o', x, gep) {
      var xs := Operands(SwapInst(i, x, gep));
      var k :| 0 <= k < |xs| && xs[k] == o;
      assert Operands(i)[k] in Operands(i) && o == SwapOperand(Operands(i)[k], x, gep);
    }
  }

  lemma {:induction false} OperandsOfKept(f: Body, x: nat, t: Trip, gep: nat, d: Def)
    requires TripIn(f, x, t) && FreshName(f, gep) && Closed(f)
    requires (d in f && d.id != x && d.id != t.sum && d.id != t.conv) || d == Def(gep, Gep(t.base, t.off))
    ensures var e := Renamed(d, x, gep);
            && e.id != x && e.id != t.sum && e.id != t.conv
            && Var(x) !in Operands(e.inst) && Var(t.sum) !in Operands(e.inst) && Var(t.conv) !in Operands(e.inst)
            && forall o <- Operands(e.inst) :: o.Var? ==> exists c <- Collapse(f, x, t, gep) :: c.id == o.id
  {
    var e := Renamed(d, x, gep);
    StepsAreThere(f, x, t);
    SwappedOperands(d.inst, x, gep);
    assert gep != x && gep != t.sum && gep != t.conv;
    forall o | o in Operands(e.inst)
      ensures o != Var(x) && o != Var(t.sum) && o != Var(t.conv)
      ensures o.Var? ==> exists c <- Collapse(f, x, t, gep) :: c.id == o.id
    {
      var o' :| o' in Operands(d.inst) && o == SwapOperand(o', x, gep);
      OldOperand(f, x, t, gep, d, o');
      DefinedAfter(f, x, t, gep, o');
    }
  }

  /** An operand outside the steps is no step and is defined. */
  lemma {:induction false} OldOperand(f: Body, x: nat, t: Trip, gep: nat, d: Def, o: Operand)
    requires TripIn(f, x, t) && Closed(f) && o in Operands(d.inst)
    requires (d in f && d.id != x && d.id != t.sum && d.id != t.conv) || d == Def(gep, Gep(t.base, t.off))
    ensures o != Var(t.sum) && o != Var(t.conv) && (o.Var? ==> exists c <- f :: c.id == o.id)
  {
    var conv := Def(t.conv, PtrToInt(t.base));
    var add := SumOf(f, t);
    assert conv in f && add in f && t.base in Operands(conv.inst) && t.off in Operands(add.inst);
  }

  lemma {:induction false} DefinedAfter(f: Body, x: nat, t: Trip, gep: nat, o: Operand)
    requires HasSteps(f, x, t) && FreshName(f, gep)
    requires o.Var? && o != Var(t.sum) && o != Var(t.conv) ==> exists c <- f :: c.id == o.id
    requires o != Var(t.sum) && o != Var(t.conv)
    ensures SwapOperand(o, x, gep).Var? ==> exists c <- Collapse(f, x, t, gep) :: c.id == SwapOperand(o, x, gep).id
  {
    if o == Var(x) {
      var e := Renamed(Def(gep, Gep(t.base, t.off)), x, gep);
      CollapsedDefs(f, x, t, gep, e);
    } else if o.Var? {
      var c :| c in f && c.id == o.id;
      CollapsedDefs(f, x, t, gep, Renamed(c, x, gep));
      assert Kept(f, x, t, gep, Renamed(c, x, gep));
    }
  }

  // ---------------------------------------------------------------- names stay distinct

  lemma {:induction false} DistinctSnoc(f: Body, d: Def)
    ensures Distinct(f + [d]) <==> Distinct(f) && forall e <- f :: e.id != d.id
  {
    var g := f + [d];
    if Distinct(g) {
      forall e | e in f ensures e.id != d.id {
        var k :| 0 <= k < |f| && f[k] == e;
        assert g[k].id != g[|f|].id;
      }
      forall i, j | 0 <= i < j < |f| ensures f[i].id != f[j].id { assert g[i].id != g[j].id; }
    }
  }

  lemma {:induction false} WithoutDistinct(f: Body, dead: set<nat>)
    requires Distinct(f)
    ensures Distinct(Without(f, dead))
    decreases |f|
  {
    if f != [] {
      var front, last := f[..|f| - 1], f[|f| - 1];
      assert f == front + [last];
      DistinctSnoc(front, last);
      WithoutDistinct(front, dead);
      DistinctSnoc(Without(front, dead), last);
      assert Without(front, dead) + [] == Without(front, dead);
    }
  }

  lemma {:induction false} InsertDistinct(f: Body, x: nat, d: Def)
    requires Distinct(f) && forall e <- f :: e.id != d.id
    ensures Distinct(InsertBefore(f, x, d))
    decreases |f|
  {
    if f != [] {
      var front, last := f[..|f| - 1], f[|f| - 1];
      assert f == front + [last];
      DistinctSnoc(front, last);
      InsertDistinct(front, x, d);
      var g := InsertBefore(front, x, d);
      if last.id == x {
        DistinctSnoc(g, d);
        DistinctSnoc(g + [d], last);
        assert g + [d, last] == g + [d] + [last];
      } else {
        DistinctSnoc(g, last);
      }
    }
  }

  lemma {:induction false} CollapseDistinct(f: Body, x: nat, t: Trip, gep: nat)
    requires Distinct(f) && FreshName(f, gep)
    ensures Distinct(Collapse(f, x, t, gep))
  {
    var f1 := InsertBefore(f, x, Def(gep, Gep(t.base, t.off)));
    InsertDistinct(f, x, Def(gep, Gep(t.base, t.off)));
    WithoutDistinct(ReplaceUses(f1, x, gep), {x, t.sum, t.conv});
  }

  // ---------------------------------------------------------------- the rewrite in place

  /** What a rewrite of the whole function keeps. */
  ghost predicate SoundBody(f: Body, next: nat) {
    Distinct(f) && Closed(f) && forall d <- f :: d.id < next
  }

  lemma FreshAbove(f: Body, next: nat)
    requires SoundBody(f, next)
    ensures FreshName(f, next)
  {
    forall d, o | d in f && o in Operands(d.inst) && o.Var? ensures o.id < next {
      var e :| e in f && e.id == o.id;
    }
  }

  lemma {:induction false} CollapseSound(f: Body, x: nat, t: Trip, next: nat)
    requires SoundBody(f, next) && TripIn(f, x, t)
    ensures SoundBody(Collapse(f, x, t, next), next + 1)
  {
    FreshAbove(f, next);
    CollapseDistinct(f, x, t, next);
    CollapseKeepsClosed(f, x, t, next);
    StepsAreThere(f, x, t);
    forall e | e in Collapse(f, x, t, next) ensures e.id < next + 1 { CollapsedDefs(f, x, t, next, e); }
  }

  lemma MirrorsTwice(f: Body, u: Values, g: Body, v: Values, h: Body, w: Values)
    requires Mirrors(f, u, g, v) && Mirrors(g, v, h, w)
    ensures Mirrors(f, u, h, w)
  {
    forall d | d in f && d.inst.Other? ensures exists e <- h :: Mirrored(d, u, e, w) {
      var c :| c in g && Mirrored(d, u, c, v);
      var e :| e in h && Mirrored(c, v, e, w);
      assert Mirrored(d, u, e, w);
    }
  }

  lemma {:induction false} CarriesTwice(m: Meaning, f: Body, g: Body, h: Body)
    requires Carries(m, f, g) && Carries(m, g, h)
    ensures Carries(m, f, h)
  {
    hide Solves, Mirrors;
    forall u: Values | Solves(m, f, u) ensures exists w: Values :: Solves(m, h, w) && Mirrors(f, u, h, w) {
      var v: Values :| Solves(m, g, v) && Mirrors(f, u, g, v);
      var w: Values :| Solves(m, h, w) && Mirrors(g, v, h, w);
      MirrorsTwice(f, u, g, v, h, w);
    }
  }

  lemma {:induction false} CarriesBackTwice(m: Meaning, f: Body, g: Body, h: Body)
    requires CarriesBack(m, f, g) && CarriesBack(m, g, h)
    ensures CarriesBack(m, f, h)
  {
    hide Solves, Mirrors;
    forall w: Values | Solves(m, h, w) ensures exists u: Values :: Solves(m, f, u) && Mirrors(f, u, h, w) {
      var v: Values :| Solves(m, g, v) && Mirrors(g, v, h, w);
      var u: Values :| Solves(m, f, u) && Mirrors(f, u, g, v);
      MirrorsTwice(f, u, g, v, h, w);
    }
  }

  lemma {:induction false} SameMeaningTwice(m: Meaning, f: Body, g: Body, h: Body)
    requires SameMeaning(m, f, g) && SameMeaning(m, g, h)
    ensures SameMeaning(m, f, h)
  {
    hide Carries, CarriesBack;
    CarriesTwice(m, f, g, h);
    CarriesBackTwice(m, f, g, h);
  }

  lemma {:induction false} SameMeaningItself(m: Meaning, f: Body)
    ensures SameMeaning(m, f, f)
  {
    forall v: Values ensures Mirrors(f, v, f, v) {
      forall d | d in f && d.inst.Other? ensures exists e <- f :: Mirrored(d, v, e, v) { assert Mirrored(d, v, d, v); }
    }
  }

  // ---------------------------------------------------------------- no round trip comes up

  /** How often the instruction named y uses a name. */
  function UsesBy(f: Body, y: nat, id: nat): nat {
    if Find(f, y).Some? then Occurrences(Operands(Find(f, y).value), id) else 0
  }

  lemma {:induction false} FoundIn(f: Body, d: Def)
    requires Distinct(f) && d in f
    ensures Find(f, d.id) == Some(d.inst)
  {
  }

  lemma {:induction false} OccurrencesSwapped(xs: seq<Operand>, x: nat, gep: nat, id: nat)
    requires id != x && id != gep
    ensures Occurrences(SwapAll(xs, x, gep), id) == Occurrences(xs, id)
    decreases |xs|
  {
    if xs != [] {
      assert SwapAll(xs, x, gep)[..|xs| - 1] == SwapAll(xs[..|xs| - 1], x, gep);
      OccurrencesSwapped(xs[..|xs| - 1], x, gep, id);
    }
  }

  lemma OperandsSwapped(i: Inst, x: nat, gep: nat)
    ensures Operands(SwapInst(i, x, gep)) == SwapAll(Operands(i), x, gep)
  {
  }

  lemma {:induction false} UsesReplaced(f: Body, x: nat, gep: nat, id: nat)
    requires id != x && id != gep
    ensures NumUses(ReplaceUses(f, x, gep), id) == NumUses(f, id)
    decreases |f|
  {
    if f != [] {
      var front, last := f[..|f| - 1], f[|f| - 1];
      assert ReplaceUses(f, x, gep)[..|f| - 1] == ReplaceUses(front, x, gep);
      OperandsSwapped(last.inst, x, gep);
      OccurrencesSwapped(Operands(last.inst), x, gep, id);
      hide SwapInst, Operands, SwapAll, Occurrences;
      UsesReplaced(front, x, gep, id);
    }
  }

  lemma {:induction false} UsesSnoc(f: Body, d: Def, id: nat)
    ensures NumUses(f + [d], id) == NumUses(f, id) + Occurrences(Operands(d.inst), id)
  {
    assert (f + [d])[..|f|] == f;
  }

  lemma {:induction false} InsertSnoc(f: Body, x: nat, d: Def)
    requires f != []
    ensures var last := f[|f| - 1];
            InsertBefore(f, x, d) == InsertBefore(f[..|f| - 1], x, d) + if last.id == x then [d] + [last] else [last]
  {
    assert [d] + [f[|f| - 1]] == [d, f[|f| - 1]];
  }

  lemma {:induction false} UsesSnocTwo(f: Body, d: Def, e: Def, id: nat)
    ensures NumUses(f + ([d] + [e]), id) == NumUses(f, id) + Occurrences(Operands(d.inst), id) + Occurrences(Operands(e.inst), id)
  {
    UsesSnoc(f, d, id);
    UsesSnoc(f + [d], e, id);
    assert f + ([d] + [e]) == f + [d] + [e];
  }

  predicate Names(f: Body, x: nat) { exists e <- f :: e.id == x }

  lemma NamesSnoc(f: Body, x: nat)
    requires f != [] && Distinct(f)
    ensures Names(f, x) <==> Names(f[..|f| - 1], x) || f[|f| - 1].id == x
    ensures Distinct(f[..|f| - 1]) && !Names(f[..|f| - 1], f[|f| - 1].id)
  {
    var front, last := f[..|f| - 1], f[|f| - 1];
    assert f == front + [last];
    DistinctSnoc(front, last);
    assert last in f && forall e :: e in f <==> e in front || e == last;
  }

  lemma {:induction false} UsesInserted(f: Body, x: nat, d: Def, id: nat)
    requires Distinct(f)
    ensures NumUses(InsertBefore(f, x, d), id)
            == NumUses(f, id) + if Names(f, x) then Occurrences(Operands(d.inst), id) else 0
    decreases |f|
  {
    if f != [] {
      var front, last := f[..|f| - 1], f[|f| - 1];
      assert NumUses(f, id) == NumUses(front, id) + Occurrences(Operands(last.inst), id);
      NamesSnoc(f, x);
      InsertSnoc(f, x, d);
      hide Operands, Occurrences, Distinct, NumUses, InsertBefore, Names;
      UsesInserted(front, x, d, id);
      UsesSnoc(InsertBefore(front, x, d), last, id);
      UsesSnocTwo(InsertBefore(front, x, d), d, last, id);
    }
  }

  /** How often the instructions of `dead` use a name. */
  function UsesOf(f: Body, dead: set<nat>, id: nat): nat {
    if f == [] then 0
    else UsesOf(f[..|f| - 1], dead, id) + if f[|f| - 1].id in dead then Occurrences(Operands(f[|f| - 1].inst), id) else 0
  }

  lemma {:induction false} UsesWithout(f: Body, dead: set<nat>, id: nat)
    ensures NumUses(f, id) == NumUses(Without(f, dead), id) + UsesOf(f, dead, id)
    decreases |f|
  {
    if f != [] {
      var front, last := f[..|f| - 1], f[|f| - 1];
      UsesWithout(front, dead, id);
      UsesSnoc(Without(front, dead), last, id);
      hide Operands, Occurrences;
      assert Without(front, dead) + [] == Without(front, dead);
    }
  }

  lemma {:induction false} UsesBySnoc(f: Body, y: nat, id: nat)
    requires f != [] && Distinct(f)
    ensures UsesBy(f, y, id) == if f[|f| - 1].id == y then Occurrences(Operands(f[|f| - 1].inst), id) else UsesBy(f[..|f| - 1], y, id)
    ensures UsesBy(f[..|f| - 1], f[|f| - 1].id, id) == 0
  {
    NamesSnoc(f, y);
  }

  lemma {:induction false} UsesOfSteps(f: Body, x: nat, y: nat, z: nat, id: nat)
    requires Distinct(f) && x != y && x != z && y != z
    ensures UsesOf(f, {x, y, z}, id) == UsesBy(f, x, id) + UsesBy(f, y, id) + UsesBy(f, z, id)
    decreases |f|
  {
    if f != [] {
      NamesSnoc(f, x);
      UsesBySnoc(f, x, id);
      UsesBySnoc(f, y, id);
      UsesBySnoc(f, z, id);
      hide Operands, Occurrences, Distinct, UsesBy;
      UsesOfSteps(f[..|f| - 1], x, y, z, id);
    }
  }

  lemma {:induction false} UsesRemoved(f: Body, x: nat, y: nat, z: nat, id: nat)
    requires Distinct(f) && x != y && x != z && y != z
    ensures NumUses(f, id) == NumUses(Without(f, {x, y, z}), id) + UsesBy(f, x, id) + UsesBy(f, y, id) + UsesBy(f, z, id)
  {
    UsesWithout(f, {x, y, z}, id);
    UsesOfSteps(f, x, y, z, id);
  }

  lemma {:induction false} OneOccurrence(a: Operand, b: Operand, id: nat)
    ensures Occurrences([a], id) == if a == Var(id) then 1 else 0
    ensures Occurrences([a, b], id) == (if a == Var(id) then 1 else 0) + if b == Var(id) then 1 else 0
  {
    assert [a, b][..1] == [a] && [a][..0] == [];
  }

  /** Collapsing moves the uses of base and offset and leaves every other name used as often as before. */
  lemma {:induction false} UsesCollapsed(f: Body, x: nat, t: Trip, gep: nat, id: nat)
    requires Distinct(f) && TripIn(f, x, t) && FreshName(f, gep)
    requires id != x && id != gep && id != t.sum && id != t.conv
    ensures NumUses(Collapse(f, x, t, gep), id) == NumUses(f, id)
  {
    hide *;
    var d0 := Def(gep, Gep(t.base, t.off));
    var f1 := InsertBefore(f, x, d0);
    var f2 := ReplaceUses(f1, x, gep);
    InsertedDistinct(f, x, d0, gep);
    ReplacedDistinct(f1, x, gep);
    StepsAreThere(f, x, t);
    StepsApart(f, x, t);
    CollapseParts(f, x, t, gep);
    UsesInserted(f, x, d0, id);
    UsesReplaced(f1, x, gep, id);
    UsesRemoved(f2, x, t.sum, t.conv, id);
    StepUses(f, f2, x, t, gep, id);
  }

  lemma {:induction false} CollapseParts(f: Body, x: nat, t: Trip, gep: nat)
    requires HasSteps(f, x, t)
    ensures var d0 := Def(gep, Gep(t.base, t.off));
            && Collapse(f, x, t, gep) == Without(ReplaceUses(InsertBefore(f, x, d0), x, gep), {x, t.sum, t.conv})
            && Operands(d0.inst) == [t.base, t.off] && Names(f, x)
  {
  }

  lemma {:induction false} InsertedDistinct(f: Body, x: nat, d: Def, gep: nat)
    requires Distinct(f) && FreshName(f, gep) && d.id == gep
    ensures Distinct(InsertBefore(f, x, d))
  {
    InsertDistinct(f, x, d);
  }

  lemma ReplacedDistinct(f: Body, x: nat, gep: nat)
    requires Distinct(f)
    ensures Distinct(ReplaceUses(f, x, gep))
  {
  }

  /** What the erased steps used. */
  lemma {:induction false} StepUses(f: Body, f2: Body, x: nat, t: Trip, gep: nat, id: nat)
    requires Distinct(f) && TripIn(f, x, t) && FreshName(f, gep) && Distinct(f2)
    requires f2 == ReplaceUses(InsertBefore(f, x, Def(gep, Gep(t.base, t.off))), x, gep)
    requires id != x && id != gep && id != t.sum && id != t.conv
    ensures UsesBy(f2, x, id) + UsesBy(f2, t.sum, id) + UsesBy(f2, t.conv, id) == Occurrences([t.base, t.off], id)
  {
    var last, conv, add := Def(x, IntToPtr(Var(t.sum))), Def(t.conv, PtrToInt(t.base)), SumOf(f, t);
    assert last in f && conv in f && add in f;
    assert Operands(last.inst) == [Var(t.sum)] && Operands(conv.inst) == [t.base];
    assert Operands(add.inst) == [Var(t.conv), t.off] || Operands(add.inst) == [t.off, Var(t.conv)];
    assert add.id == t.sum;
    hide Distinct, TripIn, FreshName, Find, Occurrences, InsertBefore, ReplaceUses, UsesBy, SumOf, Operands;
    StepReplaced(f, f2, x, t, gep, last, id);
    StepReplaced(f, f2, x, t, gep, conv, id);
    StepReplaced(f, f2, x, t, gep, add, id);
    OneOccurrence(Var(t.sum), Var(t.sum), id);
    OneOccurrence(t.base, t.off, id);
    OneOccurrence(Var(t.conv), t.off, id);
    OneOccurrence(t.off, Var(t.conv), id);
  }

  lemma {:induction false} StepReplaced(f: Body, f2: Body, x: nat, t: Trip, gep: nat, d: Def, id: nat)
    requires Distinct(f2) && d in f && id != x && id != gep
    requires f2 == ReplaceUses(InsertBefore(f, x, Def(gep, Gep(t.base, t.off))), x, gep)
    ensures UsesBy(f2, d.id, id) == Occurrences(Operands(d.inst), id)
  {
    ReplacedDefs(InsertBefore(f, x, Def(gep, Gep(t.base, t.off))), x, gep, Renamed(d, x, gep));
    FoundIn(f2, Renamed(d, x, gep));
    OperandsSwapped(d.inst, x, gep);
    OccurrencesSwapped(Operands(d.inst), x, gep, id);
    hide Operands, Occurrences, SwapInst, Find;
  }

  /** What a kept instruction's operand stands for, after the collapse and before. */
  lemma {:induction false} OperandCollapsed(f: Body, x: nat, t: Trip, gep: nat, o: Operand)
    requires Distinct(f) && TripIn(f, x, t) && FreshName(f, gep) && o != Var(t.sum) && o != Var(t.conv) && o != Var(gep)
    ensures var after := FindOperand(Collapse(f, x, t, gep), SwapOperand(o, x, gep));
            if o == Var(x) then after == Some(SwapInst(Gep(t.base, t.off), x, gep))
            else if FindOperand(f, o).Some? then after == Some(SwapInst(FindOperand(f, o).value, x, gep))
            else after.None?
  {
    var g := Collapse(f, x, t, gep);
    CollapseDistinct(f, x, t, gep);
    StepsAreThere(f, x, t);
    hide Collapse, Distinct, SwapInst, TripIn, FreshName, HasSteps;
    if o == Var(x) {
      var e := Renamed(Def(gep, Gep(t.base, t.off)), x, gep);
      CollapsedDefs(f, x, t, gep, e);
      FoundIn(g, e);
    } else if o.Var? {
      NameCollapsed(f, x, t, gep, o.id);
    }
  }

  lemma {:induction false} NameCollapsed(f: Body, x: nat, t: Trip, gep: nat, id: nat)
    requires Distinct(f) && Distinct(Collapse(f, x, t, gep)) && HasSteps(f, x, t) && FreshName(f, gep)
    requires id != x && id != t.sum && id != t.conv && id != gep
    ensures Find(Collapse(f, x, t, gep), id)
            == if Find(f, id).Some? then Some(SwapInst(Find(f, id).value, x, gep)) else None
  {
    var g := Collapse(f, x, t, gep);
    hide Collapse, Distinct, SwapInst, FreshName, HasSteps;
    if Find(f, id).Some? {
      var d := Def(id, Find(f, id).value);
      assert Kept(f, x, t, gep, Renamed(d, x, gep));
      CollapsedDefs(f, x, t, gep, Renamed(d, x, gep));
      FoundIn(g, Renamed(d, x, gep));
    } else if Find(g, id).Some? {
      CollapsedDefs(f, x, t, gep, Def(id, Find(g, id).value));
    }
  }

  predicate Converts(f: Body, o: Operand) { FindOperand(f, o).Some? && FindOperand(f, o).value.PtrToInt? }

  /** The sum has a conversion for an operand, and is not used more than once. */
  predicate SumConverts(f: Body, a: Operand, b: Operand) {
    if Converts(f, a) then NumUses(f, a.id) <= 1 else Converts(f, b) && NumUses(f, b.id) <= 1
  }

  predicate EndsTrip(f: Body, o: Operand) {
    && FindOperand(f, o).Some? && FindOperand(f, o).value.Add? && NumUses(f, o.id) <= 1
    && SumConverts(f, FindOperand(f, o).value.a, FindOperand(f, o).value.b)
  }

  lemma TripEnds(f: Body, inst: Inst)
    ensures TripOf(f, inst).Some? <==> inst.IntToPtr? && EndsTrip(f, inst.a)
  {
    hide NumUses;
  }

  /**
   * A sum whose first operand is a conversion, both used once, is found from the conversion back of the sum, with the
   * second operand as the offset; so is one whose second operand is a conversion and whose first is not.
   */
  lemma {:induction false} TripsAreFound(f: Body, s: nat, c: nat, p: Operand, off: Operand)
    requires Distinct(f) && Def(c, PtrToInt(p)) in f && NumUses(f, s) <= 1 && NumUses(f, c) <= 1
    ensures Def(s, Add(Var(c), off)) in f ==> TripOf(f, IntToPtr(Var(s))) == Some(Trip(s, c, p, off))
    ensures Def(s, Add(off, Var(c))) in f && (forall q, o :: off == Var(q) ==> Def(q, PtrToInt(o)) !in f) ==>
              TripOf(f, IntToPtr(Var(s))) == Some(Trip(s, c, p, off))
  {
    FoundIn(f, Def(c, PtrToInt(p)));
    if Def(s, Add(Var(c), off)) in f {
      FoundIn(f, Def(s, Add(Var(c), off)));
    } else if Def(s, Add(off, Var(c))) in f {
      FoundIn(f, Def(s, Add(off, Var(c))));
    }
    hide Distinct, NumUses;
  }

  /** Nothing else is found. */
  lemma {:induction false} OnlyTripsAreFound(f: Body, inst: Inst)
    requires TripOf(f, inst).Some?
    ensures var t := TripOf(f, inst).value;
            && inst == IntToPtr(Var(t.sum)) && Def(t.conv, PtrToInt(t.base)) in f
            && (Def(t.sum, Add(Var(t.conv), t.off)) in f || Def(t.sum, Add(t.off, Var(t.conv))) in f)
            && NumUses(f, t.sum) <= 1 && NumUses(f, t.conv) <= 1
  {
    hide NumUses;
  }

  /** A kept instruction ends a round trip only if it did before. */
  lemma {:induction false} NoNewTrip(f: Body, x: nat, t: Trip, gep: nat, d: Def)
    requires Distinct(f) && TripIn(f, x, t) && FreshName(f, gep)
    requires d in f && d.id != x && d.id != t.sum && d.id != t.conv
    requires TripOf(Collapse(f, x, t, gep), SwapInst(d.inst, x, gep)).Some?
    ensures TripOf(f, d.inst).Some?
  {
    var o := d.inst.a;
    TripEnds(Collapse(f, x, t, gep), SwapInst(d.inst, x, gep));
    TripEnds(f, d.inst);
    assert o in Operands(d.inst) && o != Var(t.sum) && o != Var(t.conv) && o != Var(gep);
    assert SwapInst(d.inst, x, gep).a == SwapOperand(o, x, gep);
    hide TripIn, FreshName, Distinct, Collapse, Operands, EndsTrip, SwapInst, TripOf, SwapOperand;
    NoNewEnd(f, x, t, gep, o);
  }

  lemma {:induction false} NoNewEnd(f: Body, x: nat, t: Trip, gep: nat, o: Operand)
    requires Distinct(f) && TripIn(f, x, t) && FreshName(f, gep) && o != Var(t.sum) && o != Var(t.conv) && o != Var(gep)
    requires EndsTrip(Collapse(f, x, t, gep), SwapOperand(o, x, gep))
    ensures EndsTrip(f, o)
  {
    hide TripIn, FreshName, Distinct, Collapse, NumUses, Find, SumConverts;
    OperandCollapsed(f, x, t, gep, o);
    assert o.Var? && o != Var(x);
    UsesCollapsed(f, x, t, gep, o.id);
    SumCollapsed(f, x, t, gep, o.id);
    var add := FindOperand(f, o).value;
    ConvertsAlike(f, Collapse(f, x, t, gep), x, t, gep, add.a, add.b);
  }

  lemma ConvertsAlike(f: Body, g: Body, x: nat, t: Trip, gep: nat, a: Operand, b: Operand)
    requires g == Collapse(f, x, t, gep) && ConversionKept(f, x, t, gep, a) && ConversionKept(f, x, t, gep, b)
    ensures SumConverts(f, a, b) <==> SumConverts(g, SwapOperand(a, x, gep), SwapOperand(b, x, gep))
  {
    hide NumUses, Collapse, Find, SwapOperand;
  }

  /** The operands of a kept sum are conversions after the collapse exactly if they were before, with as many uses. */
  lemma {:induction false} SumCollapsed(f: Body, x: nat, t: Trip, gep: nat, id: nat)
    requires Distinct(f) && TripIn(f, x, t) && FreshName(f, gep)
    requires Find(f, id).Some? && Find(f, id).value.Add? && id != t.sum && id != x
    ensures ConversionKept(f, x, t, gep, Find(f, id).value.a) && ConversionKept(f, x, t, gep, Find(f, id).value.b)
  {
    var add := Find(f, id).value;
    AddOperands(f, x, t, gep, id, add);
    hide TripIn, FreshName, Distinct, Find, ConversionKept;
    OperandKept(f, x, t, gep, add.a);
    OperandKept(f, x, t, gep, add.b);
  }

  predicate ConversionKept(f: Body, x: nat, t: Trip, gep: nat, o: Operand) {
    var o' := SwapOperand(o, x, gep);
    var g := Collapse(f, x, t, gep);
    var before, after := FindOperand(f, o), FindOperand(g, o');
    && (before.Some? && before.value.PtrToInt? <==> after.Some? && after.value.PtrToInt?)
    && (before.Some? && before.value.PtrToInt? ==> NumUses(f, o.id) == NumUses(g, o'.id))
  }

  lemma {:induction false} OperandKept(f: Body, x: nat, t: Trip, gep: nat, o: Operand)
    requires Distinct(f) && TripIn(f, x, t) && FreshName(f, gep) && o != Var(t.sum) && o != Var(t.conv) && o != Var(gep)
    ensures ConversionKept(f, x, t, gep, o)
  {
    hide TripIn, FreshName, Distinct, Collapse, NumUses;
    OperandCollapsed(f, x, t, gep, o);
    XIsNoConversion(f, x, t);
    if o.Var? && o.id != x { UsesCollapsed(f, x, t, gep, o.id); }
    hide Find;
  }

  lemma {:induction false} XIsNoConversion(f: Body, x: nat, t: Trip)
    requires Distinct(f) && TripIn(f, x, t)
    ensures Find(f, x) == Some(IntToPtr(Var(t.sum)))
  {
    FoundIn(f, Def(x, IntToPtr(Var(t.sum))));
  }

  lemma {:induction false} AddOperands(f: Body, x: nat, t: Trip, gep: nat, id: nat, add: Inst)
    requires TripIn(f, x, t) && FreshName(f, gep) && Def(id, add) in f && id != t.sum && id != x && add.Add?
    ensures add.a != Var(t.sum) && add.a != Var(t.conv) && add.a != Var(gep)
    ensures add.b != Var(t.sum) && add.b != Var(t.conv) && add.b != Var(gep)
  {
    assert add.a in Operands(add) && add.b in Operands(add);
  }

  /** Round trips end only in instructions of the list from place k on. */
  ghost predicate TripsFrom(f: Body, order: Body, k: nat) {
    forall d <- f :: TripOf(f, d.inst).Some? ==> exists j :: k <= j < |order| && order[j].id == d.id
  }

  lemma {:induction false} SkippedOne(f: Body, order: Body, k: nat)
    requires Distinct(f) && TripsFrom(f, order, k) && k < |order|
    requires Find(f, order[k].id).None? || TripOf(f, Find(f, order[k].id).value).None?
    ensures TripsFrom(f, order, k + 1)
  {
    hide TripOf;
    forall d | d in f && TripOf(f, d.inst).Some? ensures exists j :: k + 1 <= j < |order| && order[j].id == d.id {
      FoundIn(f, d);
      var j :| k <= j < |order| && order[j].id == d.id;
      assert j != k;
    }
  }

  lemma {:induction false} CollapsedOne(f: Body, order: Body, k: nat, t: Trip, gep: nat)
    requires Distinct(f) && TripsFrom(f, order, k) && k < |order| && TripIn(f, order[k].id, t) && FreshName(f, gep)
    ensures TripsFrom(Collapse(f, order[k].id, t, gep), order, k + 1)
  {
    var x := order[k].id;
    var g := Collapse(f, x, t, gep);
    StepsAreThere(f, x, t);
    hide Collapse, Distinct, TripIn, FreshName, HasSteps, TripOf, Kept;
    forall e | e in g && TripOf(g, e.inst).Some? ensures exists j :: k + 1 <= j < |order| && order[j].id == e.id {
      CollapsedDefs(f, x, t, gep, e);
      if Kept(f, x, t, gep, e) {
        var d := KeptOrigin(f, x, t, gep, e);
        NoNewTrip(f, x, t, gep, d);
        var j :| k <= j < |order| && order[j].id == d.id;
        assert j != k;
      } else {
        GepEndsNoTrip(g, t, x, gep);
      }
    }
  }

  lemma GepEndsNoTrip(g: Body, t: Trip, x: nat, gep: nat)
    ensures TripOf(g, Renamed(Def(gep, Gep(t.base, t.off)), x, gep).inst).None?
  {
  }

  /** What one turn of the loop over the function does to the round trips that are left. */
  lemma {:induction false} OneFurther(f: Body, order: Body, k: nat, g: Body, gep: nat, done: bool)
    requires SoundBody(f, gep) && TripsFrom(f, order, k) && k < |order|
    requires done <==> Find(f, order[k].id).Some? && TripOf(f, Find(f, order[k].id).value).Some?
    requires g == if done then Collapse(f, order[k].id, TripOf(f, Find(f, order[k].id).value).value, gep) else f
    ensures TripsFrom(g, order, k + 1)
  {
    if done {
      TripFound(f, order[k].id, Find(f, order[k].id).value);
      FreshAbove(f, gep);
      CollapsedOne(f, order, k, TripOf(f, Find(f, order[k].id).value).value, gep);
    } else {
      SkippedOne(f, order, k);
    }
  }

  class FunctionBody {
    var defs: Body
    var next: nat

    constructor (defs: Body, next: nat)
      ensures this.defs == defs && this.next == next
    {
      this.defs, this.next := defs, next;
    }

    /** Collapse the round trip that ends in x, if there is one whose steps nothing else uses. */
    method TryReplaceRoundTrip(x: nat, ghost m: Meaning) returns (done: bool)
      requires SoundBody(defs, next)
      modifies this
      ensures SoundBody(defs, next) && SameMeaning(m, old(defs), defs)
      ensures done <==> Find(old(defs), x).Some? && TripOf(old(defs), Find(old(defs), x).value).Some?
      ensures !done ==> defs == old(defs) && next == old(next)
      ensures done ==> defs == Collapse(old(defs), x, TripOf(old(defs), Find(old(defs), x).value).value, old(next))
                       && next == old(next) + 1
    {
      var inst := Find(defs, x);
      var t := if inst.Some? then TripOf(defs, inst.value) else None;
      done := t.Some?;
      if !done {
        SameMeaningItself(m, defs);
        return;
      }
      TripFound(defs, x, inst.value);
      FreshAbove(defs, next);
      CollapseSound(defs, x, t.value, next);
      CollapseKeepsMeaning(m, defs, x, t.value, next);
      hide SameMeaning, SoundBody, TripIn;
      var gep := next;
      next := next + 1;
      defs := InsertBefore(defs, x, Def(gep, Gep(t.value.base, t.value.off)));
      defs := ReplaceUses(defs, x, gep);
      defs := Without(defs, {x, t.value.sum, t.value.conv});
    }

    /** Collapse round trips over the whole function, in the order of its instructions. None whose steps nothing else
        uses is left. */
    method TryReplacePtrToInt(ghost m: Meaning)
      requires SoundBody(defs, next)
      modifies this
      ensures SoundBody(defs, next) && SameMeaning(m, old(defs), defs)
      ensures forall d <- defs :: TripOf(defs, d.inst).None?
    {
      var order := defs;
      SameMeaningItself(m, defs);
      assert TripsFrom(defs, order, 0) by {
        forall d | d in defs ensures exists j :: 0 <= j < |order| && order[j].id == d.id {
          var j :| 0 <= j < |defs| && defs[j] == d;
        }
      }
      hide SameMeaning, SoundBody;
      for k := 0 to |order|
        invariant SoundBody(defs, next) && SameMeaning(m, old(defs), defs) && TripsFrom(defs, order, k)
      {
        ghost var before := defs;
        ghost var gep := next;
        var done := TryReplaceRoundTrip(order[k].id, m);
        SameMeaningTwice(m, old(defs), before, defs);
        OneFurther(before, order, k, defs, gep, done);
      }
      assert forall d <- defs :: TripOf(defs, d.inst).None?;
    }
  }
}
