/** Splitting slots off the frame block preserves meaning: the rewritten code and the original
    run in step, as in a memory injection. */
module StackSplits {
  import opened Options
  import opened Words
  import opened Slots
  import opened FrameCode

  // ---------------------------------------------------------------- the injection

  /** Where a value of the rewritten code is in the original. */
  function Inj(slots: seq<StackSlot>, v: Val): Val {
    match v
    case Num(_) => v
    case Frame(_) => v
    case Obj(s, j) => if s < |slots| then Frame(Norm(slots[s].Start() + j)) else v
  }

  function InjM(slots: seq<StackSlot>, m: MemVal): MemVal {
    match m
    case Byte(_) => m
    case Fragment(v, k) => Fragment(Inj(slots, v), k)
  }

  /** Slots that can be split off a frame of `size` bytes. */
  predicate ValidSlots(slots: seq<StackSlot>, size: nat) {
    && PairwiseDisjoint(slots) && size < P63
    && forall s <- slots :: 0 <= s.Start() && s.End() <= size
  }

  /** Split memory against whole memory: byte j of slot s is frame byte Start(s) + j, other
      frame bytes and the rest of the world are where they were. */
  ghost predicate MemRelated(slots: seq<StackSlot>, size: nat, whole: Memory, parts: Memory) {
    && |parts.objs| == |slots|
    && whole.world.Keys == parts.world.Keys
    && (forall a :: Look(whole.world, a) == InjM(slots, Look(parts.world, a)))
    && (forall c :: 0 <= c < size && SlotAt(slots, c).None? ==> Look(whole.frame, c) == InjM(slots, Look(parts.frame, c)))
    && (forall s, j :: 0 <= s < |slots| && 0 <= j < slots[s].size ==>
          Look(whole.frame, slots[s].Start() + j) == InjM(slots, Look(parts.objs[s], j)))
  }

  /** No byte of memory belongs to an address of the frame block. */
  ghost predicate NoFrameAddress(m: Bytes) {
    forall a :: Look(m, a).Fragment? ==> !Look(m, a).v.Frame?
  }

  ghost predicate Clean(m: Memory) {
    NoFrameAddress(m.world) && NoFrameAddress(m.frame) && forall o <- m.objs :: NoFrameAddress(o)
  }

  // ---------------------------------------------------------------- what classification must establish

  /** The address that replaces an instruction: byte `rel`, plus an index, of a slot. */
  datatype Plan = Plan(slot: nat, rel: int, index: Option<Operand>)

  /** What a use of a frame address at byte c comes to: it must not be there, the user is
      replaced, the user is itself the frame address at byte c', or nothing is to be done. */
  datatype Use = Bad | Replaced(plan: Plan) | Tracked(c: int) | Fine

  function AddressAt(slots: seq<StackSlot>, c: int): Use {
    match SlotAt(slots, c)
    case Some(s) => Replaced(Plan(s, c - slots[s].Start(), None))
    case None => Tracked(c)
  }

  /** An access of n bytes at byte c neither starts in a slot nor reaches into one. */
  predicate Clear(slots: seq<StackSlot>, c: int, n: nat) { SlotAt(slots, c).None? && !TouchesSlot(slots, c, n) }

  function UseOf(slots: seq<StackSlot>, i: Inst, id: nat, c: int): Use {
    match i
    case GepConst(_, k) => AddressAt(slots, Norm(c + k))
    case AddConst(_, k) => AddressAt(slots, Norm(c + k))
    case IntToPtr(_) => AddressAt(slots, c)
    case PtrToInt(_) => Tracked(c)
    case GepVar(p, idx, base, canonical) =>
      if !canonical || base.None? || idx == Var(id) then Bad
      else (match SlotAt(slots, Norm(c + base.value))
            case Some(s) => Replaced(Plan(s, Norm(c + base.value) - slots[s].Start(), Some(idx)))
            case None => Bad)
    case Load(_, n) => if Clear(slots, c, n) then Fine else Bad
    case Store(v, p, n) => if v != Var(id) && Clear(slots, c, n) then Fine else Bad
    case Call(_, _) => if SlotAt(slots, c).Some? then Bad else Fine
    case ICmp(_, _) => Fine
    case _ => Bad
  }

  /** The frame addresses that stay, with their offsets, and the instructions to replace. */
  datatype Classified = Classified(tracked: map<nat, int>, plans: map<nat, Plan>)

  predicate UseCovered(slots: seq<StackSlot>, i: Inst, at: nat, id: nat, c: int, k: Classified) {
    match UseOf(slots, i, id, c)
    case Bad => false
    case Replaced(p) => at in k.plans && k.plans[at] == p
    case Tracked(c') => at in k.tracked && k.tracked[at] == c'
    case Fine => true
  }

  /** An instruction that yields the address of its operand, moved. */
  predicate Derives(i: Inst, id: nat) {
    (i.GepConst? || i.GepVar? || i.PtrToInt? || i.AddConst? || i.IntToPtr?) && i.p == Var(id)
  }

  ghost predicate Justified(f: Code, slots: seq<StackSlot>, k: Classified, at: nat, use: Use) {
    exists id :: id in k.tracked && at < |f| && Derives(f[at], id) && UseOf(slots, f[at], id, k.tracked[id]) == use
  }

  /** Value 0 is the frame block, every use of a frame address is accounted for, and every
      claim about an instruction comes from such a use. */
  ghost predicate Covered(f: Code, slots: seq<StackSlot>, k: Classified) {
    && (forall i :: 0 <= i < |f| && f[i].StackBlock? ==> i == 0)
    && (forall i <- f :: !i.ObjAddr?)
    && f != [] && f[0].StackBlock? && 0 in k.tracked && k.tracked[0] == 0
    && (forall id, i | id in k.tracked && 0 <= i < |f| && Uses(f[i], id) :: UseCovered(slots, f[i], i, id, k.tracked[id], k))
    && (forall at | at in k.tracked && at != 0 :: Justified(f, slots, k, at, Tracked(k.tracked[at])))
    && (forall at | at in k.plans :: Justified(f, slots, k, at, Replaced(k.plans[at])))
  }

  function Replacement(p: Plan): Inst { ObjAddr(p.slot, p.rel, p.index) }

  function Rewritten(f: Code, plans: map<nat, Plan>): (f': Code)
    ensures |f'| == |f|
    ensures forall i :: 0 <= i < |f| ==> f'[i] == if i in plans then Replacement(plans[i]) else f[i]
  {
    seq(|f|, i requires 0 <= i < |f| => if i in plans then Replacement(plans[i]) else f[i])
  }

  // ---------------------------------------------------------------- related states

  ghost predicate EnvRelated(slots: seq<StackSlot>, whole: map<nat, Val>, parts: map<nat, Val>, k: Classified) {
    && whole.Keys == parts.Keys
    && forall id :: id in parts ==> ValRelated(slots, whole[id], parts[id], id, k)
  }

  /** Frame addresses left in the rewritten code are exactly the tracked ones, at their offsets. */
  ghost predicate ValRelated(slots: seq<StackSlot>, w: Val, v: Val, id: nat, k: Classified) {
    && w == Inj(slots, v)
    && (v.Frame? <==> id in k.tracked)
    && (v.Frame? ==> v.c == k.tracked[id])
  }

  ghost predicate Related(slots: seq<StackSlot>, size: nat, k: Classified, whole: State, parts: State) {
    match parts
    case Running(pc, from, env, mem, calls) =>
      && whole.Running? && whole.pc == pc && whole.from == from && whole.calls == calls
      && EnvRelated(slots, whole.env, env, k) && MemRelated(slots, size, whole.mem, mem) && Clean(mem)
    case Done(v, mem, calls) =>
      whole.Done? && whole.v == v && whole.calls == calls && MemRelated(slots, size, whole.mem, mem)
    case Stopped(why) => why == Undefined && whole == parts
  }

  // ---------------------------------------------------------------- values

  lemma InjMoved(slots: seq<StackSlot>, v: Val, x: int)
    ensures Inj(slots, Moved(v, x)) == Moved(Inj(slots, v), x)
  {
    if v.Obj? && v.slot < |slots| {
      var start := slots[v.slot].Start();
      NormAdd(start + v.j, x);
      NormAdd(v.j + x, start);
    }
  }

  lemma EvalRelated(slots: seq<StackSlot>, whole: map<nat, Val>, parts: map<nat, Val>, k: Classified, x: Operand)
    requires EnvRelated(slots, whole, parts, k)
    ensures Eval(parts, x).Err? ==> Eval(whole, x) == Eval(parts, x) == Err(Undefined)
    ensures Eval(parts, x).Ok? ==> Eval(whole, x) == Ok(Inj(slots, Eval(parts, x).value))
    ensures Eval(parts, x).Ok? && Eval(parts, x).value.Frame? ==>
              x.Var? && x.id in k.tracked && Eval(parts, x).value.c == k.tracked[x.id]
    ensures x.Var? && x.id in k.tracked && Eval(parts, x).Ok? ==> Eval(parts, x).value == Frame(k.tracked[x.id])
  {
    if x.Var? && x.id in parts {
      assert ValRelated(slots, whole[x.id], parts[x.id], x.id, k);
    }
  }

  lemma EvalNumRelated(slots: seq<StackSlot>, whole: map<nat, Val>, parts: map<nat, Val>, k: Classified, x: Operand)
    requires EnvRelated(slots, whole, parts, k)
    ensures EvalNum(parts, x) == Err(Unmodelled) || EvalNum(whole, x) == EvalNum(parts, x)
    ensures EvalNum(parts, x).Err? ==> EvalNum(parts, x).error == Unmodelled || EvalNum(parts, x).error == Undefined
  {
    EvalRelated(slots, whole, parts, k, x);
  }

  lemma {:induction false} EvalNumsRelated(slots: seq<StackSlot>, whole: map<nat, Val>, parts: map<nat, Val>,
                                           k: Classified, xs: seq<Operand>)
    requires EnvRelated(slots, whole, parts, k)
    ensures EvalNums(parts, xs) == Err(Unmodelled) || EvalNums(whole, xs) == EvalNums(parts, xs)
    ensures EvalNums(parts, xs).Err? ==> EvalNums(parts, xs).error == Unmodelled || EvalNums(parts, xs).error == Undefined
    decreases |xs|
  {
    if xs != [] {
      EvalNumsRelated(slots, whole, parts, k, xs[..|xs| - 1]);
      EvalNumRelated(slots, whole, parts, k, xs[|xs| - 1]);
    }
  }

  /** A frame address is only the result of an instruction that derives one. */
  lemma NotTracked(f: Code, slots: seq<StackSlot>, k: Classified, at: nat)
    requires Covered(f, slots, k) && at < |f|
    requires !f[at].StackBlock? && forall id :: id in k.tracked ==> !Derives(f[at], id)
    ensures at !in k.tracked && at !in k.plans
  {
  }

  lemma UseIsCovered(f: Code, slots: seq<StackSlot>, k: Classified, at: nat, id: nat)
    requires Covered(f, slots, k) && at < |f| && id in k.tracked && Uses(f[at], id)
    ensures UseCovered(slots, f[at], at, id, k.tracked[id], k)
  {
  }

  /** The result of a computing instruction that is not replaced. */
  ghost predicate ResultRelated(slots: seq<StackSlot>, k: Classified, at: nat, whole: Result<Val, Stop>,
                                parts: Result<Val, Stop>) {
    match parts
    case Err(e) => e == Unmodelled || (e == Undefined && whole == parts)
    case Ok(v) => whole == Ok(Inj(slots, v)) && ValRelated(slots, whole.value, v, at, k)
  }

  /** Instructions that derive an address from their operand. */
  lemma DeriveRelated(f: Code, slots: seq<StackSlot>, k: Classified, at: nat, sur: Surroundings, from: nat,
                      whole: map<nat, Val>, parts: map<nat, Val>)
    requires Covered(f, slots, k) && at < |f| && at !in k.plans && EnvRelated(slots, whole, parts, k)
    requires f[at].GepConst? || f[at].AddConst? || f[at].PtrToInt? || f[at].IntToPtr?
    ensures ResultRelated(slots, k, at, Compute(sur, f[at], at, from, whole), Compute(sur, f[at], at, from, parts))
  {
    hide Norm, Covered, EnvRelated, Eval, SlotAt;
    var i := f[at];
    EvalRelated(slots, whole, parts, k, i.p);
    var r := Eval(parts, i.p);
    if r.Ok? {
      InjMoved(slots, r.value, if i.GepConst? || i.AddConst? then i.k else 0);
      if r.value.Frame? {
        UseIsCovered(f, slots, k, at, i.p.id);
      } else {
        UntrackedOperand(f, slots, k, at);
      }
    }
  }

  /** An address derived from a value that is not a tracked frame address is not tracked. */
  lemma UntrackedOperand(f: Code, slots: seq<StackSlot>, k: Classified, at: nat)
    requires Covered(f, slots, k) && at < |f| && !f[at].StackBlock?
    requires forall id :: Derives(f[at], id) ==> id !in k.tracked
    ensures at !in k.tracked && at !in k.plans
  {
  }

  lemma GepVarRelated(f: Code, slots: seq<StackSlot>, k: Classified, at: nat, sur: Surroundings, from: nat,
                      whole: map<nat, Val>, parts: map<nat, Val>)
    requires Covered(f, slots, k) && at < |f| && at !in k.plans && EnvRelated(slots, whole, parts, k) && f[at].GepVar?
    ensures ResultRelated(slots, k, at, Compute(sur, f[at], at, from, whole), Compute(sur, f[at], at, from, parts))
  {
    hide Norm, Covered, EnvRelated, Eval, EvalNum, SlotAt;
    var i := f[at];
    EvalRelated(slots, whole, parts, k, i.p);
    EvalNumRelated(slots, whole, parts, k, i.idx);
    var r, n := Eval(parts, i.p), EvalNum(parts, i.idx);
    if r.Ok? {
      if r.value.Frame? {
        UseIsCovered(f, slots, k, at, i.p.id);
        assert false;
      } else {
        UntrackedOperand(f, slots, k, at);
      }
      if n.Ok? { InjMoved(slots, r.value, n.value + if i.base.Some? then i.base.value else 0); }
    }
  }

  lemma OtherRelated(f: Code, slots: seq<StackSlot>, k: Classified, at: nat, sur: Surroundings, from: nat,
                     whole: map<nat, Val>, parts: map<nat, Val>)
    requires Covered(f, slots, k) && at < |f| && EnvRelated(slots, whole, parts, k)
    requires f[at].ICmp? || f[at].Other?
    ensures ResultRelated(slots, k, at, Compute(sur, f[at], at, from, whole), Compute(sur, f[at], at, from, parts))
  {
    hide Covered, EnvRelated, EvalNums, Computed, ResultRelated;
    NotTracked(f, slots, k, at);
    ComputedRelated(slots, k, at, sur, whole, parts, if f[at].ICmp? then [f[at].a, f[at].b] else f[at].args);
  }

  lemma {:induction false} ComputedRelated(slots: seq<StackSlot>, k: Classified, at: nat, sur: Surroundings,
                        whole: map<nat, Val>, parts: map<nat, Val>, args: seq<Operand>)
    requires EnvRelated(slots, whole, parts, k) && at !in k.tracked
    ensures ResultRelated(slots, k, at, Computed(sur, at, EvalNums(whole, args)), Computed(sur, at, EvalNums(parts, args)))
  {
    hide EnvRelated, EvalNums;
    EvalNumsRelated(slots, whole, parts, k, args);
  }

  lemma {:induction false} ChosenUsed(choices: seq<(nat, Operand)>, from: nat)
    ensures Chosen(choices, from).Some? ==> exists j :: 0 <= j < |choices| && choices[j].1 == Chosen(choices, from).value
    decreases |choices|
  {
    if choices != [] && choices[0].0 != from {
      ChosenUsed(choices[1..], from);
      if Chosen(choices, from).Some? {
        var j :| 0 <= j < |choices[1..]| && choices[1..][j].1 == Chosen(choices, from).value;
        assert choices[j + 1].1 == Chosen(choices, from).value;
      }
    }
  }

  lemma PassOnRelated(f: Code, slots: seq<StackSlot>, k: Classified, at: nat, x: Operand,
                      whole: map<nat, Val>, parts: map<nat, Val>)
    requires Covered(f, slots, k) && at < |f| && EnvRelated(slots, whole, parts, k)
    requires (f[at].Phi? || f[at].Select?) && (x.Var? ==> Uses(f[at], x.id))
    ensures ResultRelated(slots, k, at, Eval(whole, x), Eval(parts, x))
  {
    NotTracked(f, slots, k, at);
    EvalRelated(slots, whole, parts, k, x);
    if x.Var? && x.id in k.tracked { UseIsCovered(f, slots, k, at, x.id); }
  }

  lemma {:induction false} ComputeRelated(f: Code, slots: seq<StackSlot>, k: Classified, at: nat, sur: Surroundings,
                                          from: nat, whole: map<nat, Val>, parts: map<nat, Val>)
    requires Covered(f, slots, k) && at < |f| && at !in k.plans && OnlyComputes(f[at]) && EnvRelated(slots, whole, parts, k)
    ensures ResultRelated(slots, k, at, Compute(sur, f[at], at, from, whole), Compute(sur, f[at], at, from, parts))
  {
    hide Covered, EnvRelated;
    var i := f[at];
    if i.GepConst? || i.AddConst? || i.PtrToInt? || i.IntToPtr? {
      DeriveRelated(f, slots, k, at, sur, from, whole, parts);
    } else if i.GepVar? {
      GepVarRelated(f, slots, k, at, sur, from, whole, parts);
    } else if i.ICmp? || i.Other? {
      OtherRelated(f, slots, k, at, sur, from, whole, parts);
    } else if i.Phi? {
      ChosenUsed(i.choices, from);
      if Chosen(i.choices, from).Some? {
        PassOnRelated(f, slots, k, at, Chosen(i.choices, from).value, whole, parts);
      }
    } else if i.Select? {
      EvalNumRelated(slots, whole, parts, k, i.cond);
      PassOnRelated(f, slots, k, at, i.a, whole, parts);
      PassOnRelated(f, slots, k, at, i.b, whole, parts);
    } else {
      RootRelated(f, slots, k, at);
    }
  }

  lemma RootRelated(f: Code, slots: seq<StackSlot>, k: Classified, at: nat)
    requires Covered(f, slots, k) && at < |f| && (f[at].StackBlock? || f[at].ObjAddr?)
    ensures f[at].StackBlock? && at in k.tracked && k.tracked[at] == 0
  {
    assert f[at] in f;
  }

  lemma PlannedNotTracked(f: Code, slots: seq<StackSlot>, k: Classified, at: nat)
    requires Covered(f, slots, k) && at in k.plans
    ensures at !in k.tracked && at < |f| && OnlyComputes(f[at])
  {
    assert Justified(f, slots, k, at, Replaced(k.plans[at]));
  }

  /** Byte c of the frame, inside a slot, is where the plan for it says. */
  lemma ConstantAddress(slots: seq<StackSlot>, size: nat, i: Inst, id: nat, c: int, plan: Plan)
    requires ValidSlots(slots, size) && (i.GepConst? || i.AddConst? || i.IntToPtr?)
    requires UseOf(slots, i, id, c) == Replaced(plan)
    ensures plan.index.None? && plan.slot < |slots|
    ensures Inj(slots, Obj(plan.slot, Norm(plan.rel))) == if i.IntToPtr? then Frame(c) else Frame(Norm(c + i.k))
  {
    var total := if i.IntToPtr? then c else Norm(c + i.k);
    var s := slots[plan.slot];
    assert s in slots;
    NormAdd(plan.rel, s.Start());
    NormSmall(total);
  }

  lemma IndexedAddress(slots: seq<StackSlot>, i: Inst, id: nat, c: int, n: nat, plan: Plan)
    requires i.GepVar? && UseOf(slots, i, id, c) == Replaced(plan)
    ensures i.base.Some? && plan.index == Some(i.idx) && plan.slot < |slots|
    ensures Inj(slots, Obj(plan.slot, Norm(n + plan.rel))) == Frame(Norm(c + (n + i.base.value)))
  {
    var start := slots[plan.slot].Start();
    NormAdd(n + plan.rel, start);
    NormAdd(c + i.base.value, n);
  }

  /** A replaced instruction computes the injected address. */
  lemma ReplacedRelated(f: Code, slots: seq<StackSlot>, size: nat, k: Classified, at: nat, sur: Surroundings, from: nat,
                        whole: map<nat, Val>, parts: map<nat, Val>)
    requires Covered(f, slots, k) && at in k.plans && EnvRelated(slots, whole, parts, k) && ValidSlots(slots, size)
    requires at < |f| && Compute(sur, f[at], at, from, whole) != Err(Undefined)
    ensures OnlyComputes(f[at])
    ensures ResultRelated(slots, k, at, Compute(sur, f[at], at, from, whole),
                          Compute(sur, Replacement(k.plans[at]), at, from, parts))
  {
    var plan := k.plans[at];
    assert Justified(f, slots, k, at, Replaced(plan));
    var id :| id in k.tracked && Derives(f[at], id) && UseOf(slots, f[at], id, k.tracked[id]) == Replaced(plan);
    PlannedNotTracked(f, slots, k, at);
    AddressRelated(slots, size, k, at, f[at], id, plan, sur, from, whole, parts);
  }

  lemma AddressRelated(slots: seq<StackSlot>, size: nat, k: Classified, at: nat, i: Inst, id: nat, plan: Plan,
                       sur: Surroundings, from: nat, whole: map<nat, Val>, parts: map<nat, Val>)
    requires EnvRelated(slots, whole, parts, k) && ValidSlots(slots, size) && at !in k.tracked
    requires id in k.tracked && Derives(i, id) && UseOf(slots, i, id, k.tracked[id]) == Replaced(plan)
    requires Compute(sur, i, at, from, whole) != Err(Undefined)
    ensures ResultRelated(slots, k, at, Compute(sur, i, at, from, whole), Compute(sur, Replacement(plan), at, from, parts))
  {
    if i.GepVar? {
      IndexRelated(slots, k, at, i, id, plan, sur, from, whole, parts);
    } else {
      ConstantRelated(slots, size, k, at, i, id, plan, sur, from, whole, parts);
    }
  }

  lemma IndexRelated(slots: seq<StackSlot>, k: Classified, at: nat, i: Inst, id: nat, plan: Plan,
                     sur: Surroundings, from: nat, whole: map<nat, Val>, parts: map<nat, Val>)
    requires EnvRelated(slots, whole, parts, k) && at !in k.tracked && i.GepVar? && i.p == Var(id)
    requires id in k.tracked && UseOf(slots, i, id, k.tracked[id]) == Replaced(plan)
    requires Compute(sur, i, at, from, whole) != Err(Undefined)
    ensures ResultRelated(slots, k, at, Compute(sur, i, at, from, whole), Compute(sur, Replacement(plan), at, from, parts))
  {
    hide EnvRelated, Norm, Eval, EvalNum, UseOf;
    EvalRelated(slots, whole, parts, k, i.p);
    EvalNumRelated(slots, whole, parts, k, i.idx);
    var n := EvalNum(parts, i.idx);
    IndexedAddress(slots, i, id, k.tracked[id], if n.Ok? then n.value else 0, plan);
  }

  lemma ConstantRelated(slots: seq<StackSlot>, size: nat, k: Classified, at: nat, i: Inst, id: nat, plan: Plan,
                        sur: Surroundings, from: nat, whole: map<nat, Val>, parts: map<nat, Val>)
    requires EnvRelated(slots, whole, parts, k) && ValidSlots(slots, size) && at !in k.tracked
    requires (i.GepConst? || i.AddConst? || i.IntToPtr?) && i.p == Var(id)
    requires id in k.tracked && UseOf(slots, i, id, k.tracked[id]) == Replaced(plan)
    requires Compute(sur, i, at, from, whole) != Err(Undefined)
    ensures ResultRelated(slots, k, at, Compute(sur, i, at, from, whole), Compute(sur, Replacement(plan), at, from, parts))
  {
    hide EnvRelated, Norm, Eval, ValidSlots, UseOf;
    EvalRelated(slots, whole, parts, k, i.p);
    ConstantAddress(slots, size, i, id, k.tracked[id], plan);
  }
}
