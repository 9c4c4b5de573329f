/** Whole runs of rewritten code, and their counterparts with one frame block. */
module SplitRuns {
  import opened Options
  import opened Slots
  import opened FrameCode
  import opened StackSplits
  import opened SplitMemory
  import opened SplitCalls

  /** Ends of a run that say nothing about the original: out of bounds of an object, or a dependence on
      where objects are placed. */
  predicate Excused(s: State) { s.Stopped? && (s.why == OutOfBounds || s.why == Unmodelled) }

  ghost predicate StepRelated(slots: seq<StackSlot>, size: nat, k: Classified, whole: State, parts: State) {
    Excused(parts) || Related(slots, size, k, whole, parts)
  }

  lemma BindRelated(slots: seq<StackSlot>, whole: map<nat, Val>, parts: map<nat, Val>, k: Classified, id: nat, w: Val,
                    v: Val)
    requires EnvRelated(slots, whole, parts, k) && ValRelated(slots, w, v, id, k)
    ensures EnvRelated(slots, whole[id := w], parts[id := v], k)
  {
  }

  /** The use of a frame address by the instruction at hand. */
  lemma OperandCovered(f: Code, slots: seq<StackSlot>, k: Classified, at: nat, whole: map<nat, Val>,
                       parts: map<nat, Val>, x: Operand)
    requires Covered(f, slots, k) && at < |f| && EnvRelated(slots, whole, parts, k)
    requires x.Var? ==> Uses(f[at], x.id)
    ensures Eval(parts, x).Ok? && Eval(parts, x).value.Frame? ==>
              x.Var? && x.id in k.tracked && Eval(parts, x).value.c == k.tracked[x.id]
              && UseCovered(slots, f[at], at, x.id, k.tracked[x.id], k)
  {
    EvalRelated(slots, whole, parts, k, x);
    if x.Var? && x.id in k.tracked { UseIsCovered(f, slots, k, at, x.id); }
  }

  // ---------------------------------------------------------------- after a step

  lemma ValueStep(slots: seq<StackSlot>, size: nat, k: Classified, whole: State, parts: State, w: Result<Val, Stop>,
                  r: Result<Val, Stop>)
    requires Related(slots, size, k, whole, parts) && parts.Running? && ResultRelated(slots, k, parts.pc, w, r)
    ensures StepRelated(slots, size, k, WithValue(whole, w), WithValue(parts, r))
  {
    hide MemRelated, Clean, EnvRelated, ValRelated;
    if r.Ok? { BindRelated(slots, whole.env, parts.env, k, parts.pc, w.value, r.value); }
  }

  lemma LoadedStep(slots: seq<StackSlot>, size: nat, k: Classified, whole: State, parts: State, w: Result<Val, Stop>,
                   r: Result<Val, Stop>)
    requires Related(slots, size, k, whole, parts) && parts.Running? && parts.pc !in k.tracked && Agrees(slots, w, r)
    ensures StepRelated(slots, size, k, WithValue(whole, w), WithValue(parts, r))
  {
    hide MemRelated, Clean, EnvRelated;
    if r.Ok? { BindRelated(slots, whole.env, parts.env, k, parts.pc, w.value, r.value); }
  }

  lemma StoredStep(slots: seq<StackSlot>, size: nat, k: Classified, whole: State, parts: State, w: Result<Memory, Stop>,
                   r: Result<Memory, Stop>)
    requires Related(slots, size, k, whole, parts) && parts.Running? && StoreAgrees(slots, size, w, r)
    ensures StepRelated(slots, size, k, WithMemory(whole, w), WithMemory(parts, r))
  {
    hide MemRelated, Clean, EnvRelated;
  }

  lemma ControlledStep(slots: seq<StackSlot>, size: nat, k: Classified, whole: State, parts: State, x: Operand, t: nat,
                       e: nat)
    requires Related(slots, size, k, whole, parts) && parts.Running?
    ensures StepRelated(slots, size, k, Branched(whole, EvalNum(whole.env, x), t, e), Branched(parts, EvalNum(parts.env, x), t, e))
    ensures StepRelated(slots, size, k, Finished(whole, EvalNum(whole.env, x)), Finished(parts, EvalNum(parts.env, x)))
  {
    EvalNumRelated(slots, whole.env, parts.env, k, x);
    hide MemRelated, Clean, EnvRelated, EvalNum;
  }

  lemma CalledStep(slots: seq<StackSlot>, size: nat, k: Classified, sur: Surroundings, callee: nat, args: seq<Operand>,
                   whole: State, parts: State)
    requires ValidSlots(slots, size) && Related(slots, size, k, whole, parts) && parts.Running?
    requires ArgsOutside(slots, k, args) && parts.pc !in k.tracked
    ensures |parts.mem.objs| == |slots|
    ensures StepRelated(slots, size, k, DoCall(slots, false, size, sur, callee, args, whole),
                        DoCall(slots, true, size, sur, callee, args, parts))
  {
    PartsHaveObjs(slots, size, whole.mem, parts.mem);
    hide EnvRelated, MemRelated, Clean, ValidSlots;
    ViewsRelated(slots, size, whole.env, parts.env, k, args);
    var vs := EvalViews(slots, true, parts.env, args);
    if vs.Ok? {
      CallRelated(slots, size, sur, callee, vs.value, whole.mem, parts.mem, parts.calls);
      var r := CallResult(slots, true, size, sur, callee, vs.value, parts.mem, parts.calls);
      hide CallResult, EvalViews;
      if r.Ok? { BindRelated(slots, whole.env, parts.env, k, parts.pc, Num(r.value.0), Num(r.value.0)); }
    }
  }

  // ---------------------------------------------------------------- steps

  lemma ComputeStep(f: Code, slots: seq<StackSlot>, size: nat, k: Classified, sur: Surroundings, whole: State, parts: State)
    requires Covered(f, slots, k) && ValidSlots(slots, size) && Related(slots, size, k, whole, parts) && parts.Running?
    requires parts.pc < |f| && OnlyComputes(f[parts.pc])
    requires Compute(sur, f[parts.pc], parts.pc, parts.from, whole.env) != Err(Undefined)
    ensures OnlyComputes(Rewritten(f, k.plans)[parts.pc])
    ensures StepRelated(slots, size, k, WithValue(whole, Compute(sur, f[parts.pc], parts.pc, parts.from, whole.env)),
                        WithValue(parts, Compute(sur, Rewritten(f, k.plans)[parts.pc], parts.pc, parts.from, parts.env)))
  {
    hide Compute, MemRelated, Clean, EnvRelated, ValRelated, StepRelated;
    var at := parts.pc;
    if at in k.plans {
      ReplacedRelated(f, slots, size, k, at, sur, parts.from, whole.env, parts.env);
    } else {
      ComputeRelated(f, slots, k, at, sur, parts.from, whole.env, parts.env);
    }
    hide Covered;
    ValueStep(slots, size, k, whole, parts, Compute(sur, f[at], at, parts.from, whole.env),
              Compute(sur, Rewritten(f, k.plans)[at], at, parts.from, parts.env));
  }

  lemma LoadStep(f: Code, slots: seq<StackSlot>, size: nat, k: Classified, whole: State, parts: State)
    requires Covered(f, slots, k) && ValidSlots(slots, size) && Related(slots, size, k, whole, parts) && parts.Running?
    requires parts.pc < |f| && f[parts.pc].Load? && |parts.mem.objs| == |slots|
    ensures var p, n := f[parts.pc].p, f[parts.pc].bytes;
            StepRelated(slots, size, k, WithValue(whole, LoadResult(slots, false, size, whole.mem, Eval(whole.env, p), n)),
                        WithValue(parts, LoadResult(slots, true, size, parts.mem, Eval(parts.env, p), n)))
  {
    var at, i := parts.pc, f[parts.pc];
    NotTracked(f, slots, k, at);
    OperandCovered(f, slots, k, at, whole.env, parts.env, i.p);
    EvalRelated(slots, whole.env, parts.env, k, i.p);
    var p, q := Eval(parts.env, i.p), Eval(whole.env, i.p);
    hide Covered, EnvRelated, MemRelated, Clean, ValidSlots, Eval, Reach, StepRelated, Inj;
    if p.Ok? { LoadRelated(slots, size, whole.mem, parts.mem, p.value, i.bytes); }
    LoadedStep(slots, size, k, whole, parts, LoadResult(slots, false, size, whole.mem, q, i.bytes),
               LoadResult(slots, true, size, parts.mem, p, i.bytes));
  }

  lemma {:induction false} StoreOperands(f: Code, slots: seq<StackSlot>, k: Classified, at: nat, whole: map<nat, Val>,
                                         parts: map<nat, Val>)
    requires Covered(f, slots, k) && at < |f| && EnvRelated(slots, whole, parts, k) && f[at].Store?
    ensures var p, v := Eval(parts, f[at].p), Eval(parts, f[at].v);
            && (p.Err? ==> Eval(whole, f[at].p) == p == Err(Undefined))
            && (p.Ok? ==> Eval(whole, f[at].p) == Ok(Inj(slots, p.value)))
            && (v.Err? ==> Eval(whole, f[at].v) == v == Err(Undefined))
            && (v.Ok? ==> Eval(whole, f[at].v) == Ok(Inj(slots, v.value)) && !v.value.Frame?)
            && (p.Ok? && v.Ok? && p.value.Frame? ==> Clear(slots, p.value.c, f[at].bytes))
  {
    OperandCovered(f, slots, k, at, whole, parts, f[at].p);
    OperandCovered(f, slots, k, at, whole, parts, f[at].v);
    EvalRelated(slots, whole, parts, k, f[at].p);
    EvalRelated(slots, whole, parts, k, f[at].v);
  }

  lemma StoreStep(f: Code, slots: seq<StackSlot>, size: nat, k: Classified, whole: State, parts: State)
    requires Covered(f, slots, k) && ValidSlots(slots, size) && Related(slots, size, k, whole, parts) && parts.Running?
    requires parts.pc < |f| && f[parts.pc].Store? && |parts.mem.objs| == |slots|
    ensures var v, p, n := f[parts.pc].v, f[parts.pc].p, f[parts.pc].bytes;
            StepRelated(slots, size, k,
                        WithMemory(whole, StoreResult(slots, false, size, whole.mem, Eval(whole.env, v), Eval(whole.env, p), n)),
                        WithMemory(parts, StoreResult(slots, true, size, parts.mem, Eval(parts.env, v), Eval(parts.env, p), n)))
  {
    var at, i := parts.pc, f[parts.pc];
    StoreOperands(f, slots, k, at, whole.env, parts.env);
    hide Covered, EnvRelated, MemRelated, Clean, ValidSlots, Eval, Inj, Reach, Encode, StepRelated;
    var p, v := Eval(parts.env, i.p), Eval(parts.env, i.v);
    if v.Ok? && p.Ok? {
      StoreRelated(slots, size, whole.mem, parts.mem, v.value, p.value, i.bytes);
    }
    StoredStep(slots, size, k, whole, parts,
               StoreResult(slots, false, size, whole.mem, Eval(whole.env, i.v), Eval(whole.env, i.p), i.bytes),
               StoreResult(slots, true, size, parts.mem, v, p, i.bytes));
  }

  lemma ArgsAreOutside(f: Code, slots: seq<StackSlot>, k: Classified, at: nat)
    requires Covered(f, slots, k) && at < |f| && f[at].Call?
    ensures ArgsOutside(slots, k, f[at].args)
  {
    forall x | x in f[at].args && x.Var? && x.id in k.tracked ensures SlotAt(slots, k.tracked[x.id]).None? {
      UseIsCovered(f, slots, k, at, x.id);
    }
  }

  /** One step: out of an object or excused, or the original makes the corresponding step. */
  lemma StepsTogether(f: Code, slots: seq<StackSlot>, size: nat, k: Classified, sur: Surroundings, whole: State,
                      parts: State)
    requires Covered(f, slots, k) && ValidSlots(slots, size) && Related(slots, size, k, whole, parts)
    requires Step(f, slots, false, size, sur, whole) != Stopped(Undefined)
    ensures parts.Running? ==> |parts.mem.objs| == |slots|
    ensures StepRelated(slots, size, k, Step(f, slots, false, size, sur, whole),
                        Step(Rewritten(f, k.plans), slots, true, size, sur, parts))
  {
    if parts.Running? {
      PartsHaveObjs(slots, size, whole.mem, parts.mem);
      if parts.pc < |f| {
        InstStep(f, slots, size, k, sur, whole, parts);
      }
    }
  }

  lemma InstStep(f: Code, slots: seq<StackSlot>, size: nat, k: Classified, sur: Surroundings, whole: State, parts: State)
    requires Covered(f, slots, k) && ValidSlots(slots, size) && Related(slots, size, k, whole, parts)
    requires parts.Running? && parts.pc < |f| && |parts.mem.objs| == |slots|
    requires Step(f, slots, false, size, sur, whole) != Stopped(Undefined)
    ensures StepRelated(slots, size, k, Step(f, slots, false, size, sur, whole),
                        Step(Rewritten(f, k.plans), slots, true, size, sur, parts))
  {
    hide Compute, LoadResult, StoreResult, DoCall, Branched, Finished, WithMemory, EvalNum, Eval, Covered, StepRelated;
    hide EnvRelated, MemRelated, Clean, ValidSlots;
    var at, i := parts.pc, f[parts.pc];
    if OnlyComputes(i) {
      ComputeStep(f, slots, size, k, sur, whole, parts);
    } else {
      NotTracked(f, slots, k, at);
      match i
      case Load(p, n) => LoadStep(f, slots, size, k, whole, parts);
      case Store(v, p, n) => StoreStep(f, slots, size, k, whole, parts);
      case Call(callee, args) =>
        ArgsAreOutside(f, slots, k, at);
        CalledStep(slots, size, k, sur, callee, args, whole, parts);
      case Branch(c, t, e) => ControlledStep(slots, size, k, whole, parts, c, t, e);
      case Return(x) => ControlledStep(slots, size, k, whole, parts, x, 0, 0);
    }
  }

  lemma ExcusedStays(f: Code, slots: seq<StackSlot>, size: nat, sur: Surroundings, s: State)
    requires Excused(s)
    ensures Step(f, slots, true, size, sur, s) == s
  {
  }

  /** Splitting preserves meaning: after any number of steps, the rewritten function has gone
      out of bounds of an object (or is excused), or is where the single-block run is: the
      same values, the same calls, and memories related by (slot s, byte j) to frame byte
      Start(s) + j. It never reaches a byte through the frame block that was split off, nor into one from outside. */
  lemma {:induction false} SplitPreservesMeaning(f: Code, slots: seq<StackSlot>, size: nat, k: Classified, sur: Surroundings,
                                                 whole: State, parts: State, n: nat)
    requires Covered(f, slots, k) && ValidSlots(slots, size) && Related(slots, size, k, whole, parts)
    requires forall m: nat :: m <= n ==> Steps(f, slots, false, size, sur, whole, m) != Stopped(Undefined)
    ensures parts.Running? ==> |parts.mem.objs| == |slots|
    ensures StepRelated(slots, size, k, Steps(f, slots, false, size, sur, whole, n),
                        Steps(Rewritten(f, k.plans), slots, true, size, sur, parts, n))
    decreases n
  {
    hide Covered, Related, Step, Steps, ValidSlots, Rewritten, StepRelated;
    RelatedObjects(slots, size, k, whole, parts);
    if n == 0 {
      RelatedAlready(f, slots, size, k, sur, whole, parts);
    } else {
      SplitPreservesMeaning(f, slots, size, k, sur, whole, parts, n - 1);
      OneMoreStep(f, slots, size, k, sur, whole, parts, n);
    }
  }

  lemma RelatedObjects(slots: seq<StackSlot>, size: nat, k: Classified, whole: State, parts: State)
    requires Related(slots, size, k, whole, parts)
    ensures parts.Running? ==> |parts.mem.objs| == |slots|
  {
    if parts.Running? { PartsHaveObjs(slots, size, whole.mem, parts.mem); }
  }

  lemma {:induction false} RelatedAlready(f: Code, slots: seq<StackSlot>, size: nat, k: Classified, sur: Surroundings,
                                          whole: State, parts: State)
    requires Related(slots, size, k, whole, parts) && (parts.Running? ==> |parts.mem.objs| == |slots|)
    ensures StepRelated(slots, size, k, Steps(f, slots, false, size, sur, whole, 0),
                        Steps(Rewritten(f, k.plans), slots, true, size, sur, parts, 0))
  {
    hide Related, Step;
  }

  lemma {:induction false} OneMoreStep(f: Code, slots: seq<StackSlot>, size: nat, k: Classified, sur: Surroundings,
                                       whole: State, parts: State, n: nat)
    requires Covered(f, slots, k) && ValidSlots(slots, size) && (parts.Running? ==> |parts.mem.objs| == |slots|) && 0 < n
    requires StepRelated(slots, size, k, Steps(f, slots, false, size, sur, whole, n - 1),
                         Steps(Rewritten(f, k.plans), slots, true, size, sur, parts, n - 1))
    requires Steps(f, slots, false, size, sur, whole, n) != Stopped(Undefined)
    ensures StepRelated(slots, size, k, Steps(f, slots, false, size, sur, whole, n),
                        Steps(Rewritten(f, k.plans), slots, true, size, sur, parts, n))
  {
    hide Covered, Related, Step, ValidSlots, Rewritten;
    var w, p := Steps(f, slots, false, size, sur, whole, n - 1), Steps(Rewritten(f, k.plans), slots, true, size, sur, parts, n - 1);
    assert Steps(f, slots, false, size, sur, whole, n) == Step(f, slots, false, size, sur, w);
    assert Steps(Rewritten(f, k.plans), slots, true, size, sur, parts, n) == Step(Rewritten(f, k.plans), slots, true, size, sur, p);
    hide Steps;
    if Excused(p) {
      ExcusedStays(Rewritten(f, k.plans), slots, size, sur, p);
    } else {
      StepsTogether(f, slots, size, k, sur, w, p);
    }
  }
}
