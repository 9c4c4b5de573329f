/** The stack-splitting pass as a whole: what it does to a function, and that it preserves
    the function's meaning. */
module SplitTheorem {
  import opened Options
  import opened Slots
  import opened FrameCode
  import opened StackSplits
  import opened SplitMemory
  import opened SplitRuns
  import opened SplitPass
  import opened SplitObjects
  import opened SplitSafety

  lemma {:induction false} AcceptedByRoot(f: Code, slots: seq<StackSlot>, k0: Classified, k: Classified)
    requires WellFormedCode(f) && k0 == Classified(map[], map[]) && Grounded(f, slots, k)
    requires NewlyDone(f, slots, k0, k) && 0 in k.tracked && k.tracked[0] == 0
    ensures Accepted(f, slots, k)
  {
    hide AllUsesAccepted, Justified;
  }

  // ---------------------------------------------------------------- the replacements

  /** One round of replacements, by addresses in the objects made. */
  function Replaced(f: Code, plans: seq<(nat, Plan)>, objs: seq<nat>): (f': Code)
    ensures |f'| == |f|
  {
    if plans == [] then f
    else
      var e := plans[|plans| - 1];
      var g := Replaced(f, plans[..|plans| - 1], objs);
      if e.0 < |g| then g[e.0 := Replacement(Placed(e.1, objs))] else g
  }

  lemma {:induction false} ReplacedAt(f: Code, plans: seq<(nat, Plan)>, objs: seq<nat>, i: nat)
    requires NoRepeat(plans) && i < |f|
    ensures forall p :: (i, p) in plans ==> Replaced(f, plans, objs)[i] == Replacement(Placed(p, objs))
    ensures (forall p :: (i, p) !in plans) ==> Replaced(f, plans, objs)[i] == f[i]
    decreases |plans|
  {
    if plans != [] {
      var n := |plans| - 1;
      ReplacedAt(f, plans[..n], objs, i);
      assert plans == plans[..n] + [plans[n]];
      forall p | (i, p) in plans ensures Replaced(f, plans, objs)[i] == Replacement(Placed(p, objs)) {
        if plans[n].0 == i {
          var x :| 0 <= x < |plans| && plans[x] == (i, p);
          assert x == n;
        }
      }
    }
  }

  /** Making more objects changes no replacement made already. */
  lemma {:induction false} ReplacedStays(f: Code, plans: seq<(nat, Plan)>, objs: seq<nat>, more: seq<nat>)
    requires objs <= more && forall e <- plans :: e.1.slot in objs
    ensures Replaced(f, plans, more) == Replaced(f, plans, objs)
    decreases |plans|
  {
    if plans != [] {
      var front, e := plans[..|plans| - 1], plans[|plans| - 1];
      forall x | x in front ensures x in plans { }
      assert e in plans;
      ReplacedStays(f, front, objs, more);
      ObjectOfGrows(objs, more, e.1.slot);
    }
  }

  lemma {:induction false} RoundsRewrite(f: Code, gepPlans: seq<(nat, Plan)>, intPlans: seq<(nat, Plan)>,
                                         plans: map<nat, Plan>, objs: seq<nat>)
    requires ListsPlans(gepPlans, intPlans, plans)
    ensures Replaced(Replaced(f, gepPlans, objs), intPlans, objs) == Rewritten(f, PlacedPlans(plans, objs))
  {
    var g := Replaced(f, gepPlans, objs);
    forall i | 0 <= i < |f| ensures Replaced(g, intPlans, objs)[i] == Rewritten(f, PlacedPlans(plans, objs))[i] {
      ReplacedAt(f, gepPlans, objs, i);
      ReplacedAt(g, intPlans, objs, i);
      if i in plans {
        assert (i, plans[i]) in gepPlans || (i, plans[i]) in intPlans;
      }
    }
  }

  /** Each slot that a plan refers to, and no other, is an object. */
  ghost predicate ObjectsOf(plans: seq<(nat, Plan)>, before: seq<nat>, objs: seq<nat>) {
    && before <= objs && NoDuplicates(objs)
    && (forall e <- plans :: e.1.slot in objs)
    && forall s <- objs :: s in before || exists e <- plans :: e.1.slot == s
  }

  /** The object for a slot, made when it is first asked for. */
  method ObjectFor(slot: nat, objs: seq<nat>) returns (objs': seq<nat>)
    requires NoDuplicates(objs)
    ensures objs' == if slot in objs then objs else objs + [slot]
    ensures NoDuplicates(objs')
  {
    objs' := objs;
    if slot !in objs { objs' := objs + [slot]; }
  }

  lemma {:induction false} OneMoreObject(plans: seq<(nat, Plan)>, before: seq<nat>, objs: seq<nat>, e: (nat, Plan),
                                         objs': seq<nat>)
    requires ObjectsOf(plans, before, objs) && NoDuplicates(objs')
    requires objs' == if e.1.slot in objs then objs else objs + [e.1.slot]
    ensures ObjectsOf(plans + [e], before, objs')
  {
    var more := plans + [e];
    forall x | x in more ensures x.1.slot in objs' {
      if x in plans { assert x.1.slot in objs; }
    }
    forall s | s in objs' ensures s in before || exists x <- more :: x.1.slot == s {
      if s in objs && s !in before {
        var x :| x in plans && x.1.slot == s;
        assert x in more;
      } else if s !in objs {
        assert e in more;
      }
    }
  }

  lemma NothingMade(objs: seq<nat>)
    requires NoDuplicates(objs)
    ensures ObjectsOf([], objs, objs)
  {
  }

  lemma {:induction false} MadeStays(f: Code, plans: seq<(nat, Plan)>, before: seq<nat>, objs: seq<nat>, more: seq<nat>)
    requires ObjectsOf(plans, before, objs) && objs <= more
    ensures Replaced(f, plans, more) == Replaced(f, plans, objs)
  {
    ReplacedStays(f, plans, objs, more);
  }

  /** Replaces what was planned. */
  method Apply(f: Code, plans: seq<(nat, Plan)>, objs: seq<nat>) returns (f': Code, objs': seq<nat>)
    requires NoDuplicates(objs)
    ensures ObjectsOf(plans, objs, objs') && f' == Replaced(f, plans, objs')
  {
    f', objs' := f, objs;
    hide ObjectsOf, NoDuplicates, ObjectOf, Placed;
    NothingMade(objs);
    for i := 0 to |plans|
      invariant NoDuplicates(objs') && ObjectsOf(plans[..i], objs, objs') && f' == Replaced(f, plans[..i], objs')
    {
      ghost var made := objs';
      assert plans[..i + 1][..i] == plans[..i];
      assert plans[..i + 1] == plans[..i] + [plans[i]];
      objs' := ObjectFor(plans[i].1.slot, objs');
      OneMoreObject(plans[..i], objs, made, plans[i], objs');
      MadeStays(f, plans[..i], objs, made, objs');
      if plans[i].0 < |f'| { f' := f'[plans[i].0 := Replacement(Placed(plans[i].1, objs'))]; }
    }
    assert plans[..|plans|] == plans;
  }

  predicate HasStack(f: Code) { f != [] && f[0].StackBlock? }

  /** All or nothing: the function is rewritten if and only if every use can be classified, and is left as it is
      otherwise. When it is rewritten every planned instruction, and no other, is replaced. */
  method RewriteStackObjects(f: Code, slots: seq<StackSlot>) returns (done: bool, f': Code, objs: seq<nat>,
                                                                     ghost k: Classified)
    requires HasStack(f) ==> WellFormedCode(f)
    ensures slots == [] || !HasStack(f) ==> done && f' == f && objs == []
    ensures slots != [] && HasStack(f) ==> (done <==> exists c: Classified :: Accepted(f, slots, c))
    ensures slots != [] && HasStack(f) ==> (done <==> AllUsesAllowed(f, slots))
    ensures !done ==> f' == f && objs == []
    ensures done && slots != [] && HasStack(f) ==>
              Accepted(f, slots, k) && ObjectsFor(k, objs) && f' == Rewritten(f, PlacedPlans(k.plans, objs))
  {
    k := Classified(map[], map[]);
    if |slots| == 0 || !HasStack(f) { return true, f, [], k; }
    var r := new Rewriter(f, slots);
    ghost var k0 := r.k;
    done := r.ClassifyPtr(0, 0);
    if !done {
      forall c: Classified ensures !Accepted(f, slots, c) { RefusedMeansNone(f, slots, r.k, c); }
      RefusedIsNotAllowed(f, slots, r.k);
      return false, f, [], k;
    }
    k := r.k;
    AcceptedByRoot(f, slots, k0, k);
    AcceptedAllows(f, slots, k);
    hide Accepted, AllUsesAllowed;
    var gepObjs;
    f', gepObjs := Apply(f, r.gepPlans, []);
    ghost var g := f';
    f', objs := Apply(f', r.intPlans, gepObjs);
    ReplacedStays(f, r.gepPlans, gepObjs, objs);
    RoundsRewrite(f, r.gepPlans, r.intPlans, k.plans, objs);
    SlotsReferred(r.gepPlans, r.intPlans, k, gepObjs, objs);
  }

  lemma {:induction false} SlotsReferred(gepPlans: seq<(nat, Plan)>, intPlans: seq<(nat, Plan)>, k: Classified,
                                         gepObjs: seq<nat>, objs: seq<nat>)
    requires ListsPlans(gepPlans, intPlans, k.plans) && ObjectsOf(gepPlans, [], gepObjs) && ObjectsOf(intPlans, gepObjs, objs)
    ensures ObjectsFor(k, objs)
  {
    forall at | at in k.plans ensures k.plans[at].slot in objs {
      var e := (at, k.plans[at]);
      if e in gepPlans {
        assert e.1.slot in gepObjs;
      } else {
        assert e in intPlans;
      }
    }
    forall s | s in objs ensures exists at :: at in k.plans && k.plans[at].slot == s {
      var e :| (e in gepPlans || e in intPlans) && e.1.slot == s;
      assert e.0 in k.plans && k.plans[e.0] == e.1;
    }
  }

  // ---------------------------------------------------------------- from the start of a run

  /** Memory at entry: numbers only, anything in the frame. */
  predicate EntryMemory(m: Memory) {
    m.objs == [] && (forall a :: a in m.world ==> m.world[a].Byte?) && (forall c :: c in m.frame ==> m.frame[c].Byte?)
  }

  /** The same memory with every slot's bytes in an object of its own. */
  function Parted(slots: seq<StackSlot>, m: Memory): Memory {
    m.(objs := seq(|slots|, s requires 0 <= s < |slots| => map j | 0 <= j < slots[s].size :: SlotByte(m, slots[s], j)))
  }

  function SlotByte(m: Memory, s: StackSlot, j: int): MemVal { Look(m.frame, s.Start() + j) }

  function Entry(m: Memory): State { Running(0, 0, map[], m, []) }

  lemma EntryRelated(slots: seq<StackSlot>, size: nat, k: Classified, m: Memory)
    requires EntryMemory(m)
    ensures Related(slots, size, k, Entry(m), Entry(Parted(slots, m)))
  {
    var p := Parted(slots, m);
    forall a ensures Look(m.world, a) == InjM(slots, Look(p.world, a)) && Look(m.frame, a) == InjM(slots, Look(p.frame, a)) {}
    forall s, j | 0 <= s < |slots| && 0 <= j < slots[s].size
      ensures Look(m.frame, slots[s].Start() + j) == InjM(slots, Look(p.objs[s], j))
    {
      assert Look(p.objs[s], j) == Look(m.frame, slots[s].Start() + j);
    }
    forall o | o in p.objs ensures NoFrameAddress(o) {
      var s :| 0 <= s < |slots| && p.objs[s] == o;
      forall j ensures Look(o, j).Byte? {}
    }
  }

  /** The rewritten function, as the pass leaves it. */
  function SplitCode(f: Code, k: Classified, objs: seq<nat>): Code { Rewritten(f, PlacedPlans(k.plans, objs)) }

  /** For every function the pass accepts that has no missed use: whatever memory it is entered with
      and whatever its callees do, a run of the rewritten function goes out of bounds of an object
      or is excused, or stays with the single-block run. Only the slots that have become objects are apart. */
  lemma {:induction false} RewrittenRunsAlike(f: Code, slots: seq<StackSlot>, size: nat, k: Classified, objs: seq<nat>,
                                              sur: Surroundings, m: Memory, n: nat)
    requires WellFormedCode(f) && Accepted(f, slots, k) && ObjectsFor(k, objs) && InRange(slots, objs)
    requires NoMissedUse(f, Made(slots, objs), k) && ValidSlots(slots, size) && EntryMemory(m)
    requires forall j: nat :: j <= n ==> Steps(f, Made(slots, objs), false, size, sur, Entry(m), j) != Stopped(Undefined)
    ensures var made := Made(slots, objs);
            StepRelated(made, size, PlacedAll(k, objs), Steps(f, made, false, size, sur, Entry(m), n),
                        Steps(SplitCode(f, k, objs), made, true, size, sur, Entry(Parted(made, m)), n))
  {
    var made := Made(slots, objs);
    MadeValid(slots, objs, size);
    AcceptedSplits(f, slots, objs, k);
    EntryRelated(made, size, PlacedAll(k, objs), m);
    hide Steps, Covered, Accepted, NoMissedUse, Related, ObjectsFor, ValidSlots, WellFormedCode;
    SplitPreservesMeaning(f, made, size, PlacedAll(k, objs), sur, Entry(m), Entry(Parted(made, m)), n);
  }

  /** When it returns, the original returns the same after the same calls. */
  lemma {:induction false} SameResult(f: Code, slots: seq<StackSlot>, size: nat, k: Classified, objs: seq<nat>,
                                      sur: Surroundings, m: Memory, n: nat)
    requires WellFormedCode(f) && Accepted(f, slots, k) && ObjectsFor(k, objs) && InRange(slots, objs)
    requires NoMissedUse(f, Made(slots, objs), k) && ValidSlots(slots, size) && EntryMemory(m)
    requires forall j: nat :: j <= n ==> Steps(f, Made(slots, objs), false, size, sur, Entry(m), j) != Stopped(Undefined)
    requires Steps(SplitCode(f, k, objs), Made(slots, objs), true, size, sur, Entry(Parted(Made(slots, objs), m)), n).Done?
    ensures var made := Made(slots, objs);
            var w := Steps(f, made, false, size, sur, Entry(m), n);
            var p := Steps(SplitCode(f, k, objs), made, true, size, sur, Entry(Parted(made, m)), n);
            w.Done? && w.v == p.v && w.calls == p.calls && MemRelated(made, size, w.mem, p.mem)
  {
    RewrittenRunsAlike(f, slots, size, k, objs, sur, m, n);
    hide Steps, Accepted, ObjectsFor, NoMissedUse, ValidSlots, WellFormedCode;
  }

  /** The same for every function the pass accepts that is safe to split, which can be told without running the pass. */
  lemma {:induction false} SafeRunsAlike(f: Code, slots: seq<StackSlot>, size: nat, k: Classified, objs: seq<nat>,
                                         sur: Surroundings, m: Memory, n: nat)
    requires WellFormedCode(f) && Accepted(f, slots, k) && ObjectsFor(k, objs) && SafeToSplit(f, slots)
    requires ValidSlots(slots, size) && EntryMemory(m) && InRange(slots, objs)
    requires forall j: nat :: j <= n ==> Steps(f, Made(slots, objs), false, size, sur, Entry(m), j) != Stopped(Undefined)
    ensures var made := Made(slots, objs);
            StepRelated(made, size, PlacedAll(k, objs), Steps(f, made, false, size, sur, Entry(m), n),
                        Steps(SplitCode(f, k, objs), made, true, size, sur, Entry(Parted(made, m)), n))
  {
    SafeIsExact(f, slots, objs, k);
    hide Steps, Accepted, NoMissedUse, SafeToSplit, ObjectsFor, StepRelated, WellFormedCode;
    RewrittenRunsAlike(f, slots, size, k, objs, sur, m, n);
  }

  // ---------------------------------------------------------------- missed uses that are reached

  /** Tracked values are the addresses they are tracked as. */
  ghost predicate HoldsTracked(k: Classified, s: State) {
    s.Running? ==> forall id :: id in k.tracked && id in s.env ==> s.env[id] == Frame(k.tracked[id])
  }

  /** An instruction that yields a tracked address is left as it is and yields it. */
  lemma {:induction false} TrackedComputed(f: Code, slots: seq<StackSlot>, k: Classified, objs: seq<nat>,
                                           sur: Surroundings, at: nat, from: nat, env: map<nat, Val>)
    requires WellFormedCode(f) && Accepted(f, slots, k) && at < |f| && at in k.tracked
    requires forall id :: id in k.tracked && id in env ==> env[id] == Frame(k.tracked[id])
    ensures SplitCode(f, k, objs)[at] == f[at] && OnlyComputes(f[at])
    ensures Compute(sur, f[at], at, from, env).Ok? ==> Compute(sur, f[at], at, from, env) == Ok(Frame(k.tracked[at]))
  {
    TrackedStays(f, slots, k, at);
    hide SplitCode;
    if at == 0 {
      RootOffset(f, slots, k);
      assert f[0].StackBlock?;
    } else {
      GroundedOf(f, slots, k);
      assert RootOrJustified(f, slots, k, at, k.tracked[at]);
      var id: nat :| id in k.tracked && Derives(f[at], id) && UseOf(slots, f[at], id, k.tracked[id]) == Tracked(k.tracked[at]);
      hide Accepted, Grounded, WellFormedCode;
      DerivedFrame(slots, f[at], id, k.tracked[id], k.tracked[at], sur, at, from, env);
    }
  }

  lemma TrackedStays(f: Code, slots: seq<StackSlot>, k: Classified, at: nat)
    requires WellFormedCode(f) && Accepted(f, slots, k) && at < |f| && at in k.tracked
    ensures at !in k.plans
  {
    OffsetIsTracked(f, slots, k, at);
    ComesToPlan(f, slots, k, at);
    hide Accepted, ComesTo;
    assert at > 0 ==> !f[at].StackBlock?;
    hide WellFormedCode;
    if at in k.plans && at == 0 { PlannedDerives(f, slots, k, at); }
  }

  lemma {:induction false} PlannedDerives(f: Code, slots: seq<StackSlot>, k: Classified, at: nat)
    requires at < |f| && ComesTo(f, slots, at).Replaced?
    ensures !f[at].StackBlock?
  {
  }

  lemma DerivedFrame(slots: seq<StackSlot>, i: Inst, id: nat, c: int, c': int, sur: Surroundings, at: nat, from: nat,
                     env: map<nat, Val>)
    requires Derives(i, id) && UseOf(slots, i, id, c) == Tracked(c') && (id in env ==> env[id] == Frame(c))
    ensures OnlyComputes(i)
    ensures Compute(sur, i, at, from, env).Ok? ==> Compute(sur, i, at, from, env) == Ok(Frame(c'))
  {
    hide Norm, SlotAt;
  }

  /** What a step may bind: its own name, to what the instruction computes. */
  lemma StepBinds(g: Code, slots: seq<StackSlot>, size: nat, sur: Surroundings, s: State) returns (v: Val)
    requires s.Running? && |s.mem.objs| == |slots|
    ensures var t := Step(g, slots, true, size, sur, s);
            t.Running? ==> s.pc < |g| && (t.env == s.env || t.env == s.env[s.pc := v])
                           && (OnlyComputes(g[s.pc]) ==> Compute(sur, g[s.pc], s.pc, s.from, s.env) == Ok(v))
  {
    hide Compute, LoadResult, StoreResult, CallResult, EvalViews, EvalNum;
    var t := Step(g, slots, true, size, sur, s);
    v := if t.Running? && s.pc in t.env then t.env[s.pc] else Num(0);
  }

  lemma {:induction false} StepHoldsTracked(f: Code, slots: seq<StackSlot>, k: Classified, objs: seq<nat>, size: nat,
                                            sur: Surroundings, s: State)
    requires WellFormedCode(f) && Accepted(f, slots, k) && InRange(slots, objs) && HoldsTracked(k, s)
    requires s.Running? ==> |s.mem.objs| == |objs|
    ensures HoldsTracked(k, Step(SplitCode(f, k, objs), Made(slots, objs), true, size, sur, s))
  {
    hide WellFormedCode, Accepted, Compute, Made, Step;
    if s.Running? {
      var v := StepBinds(SplitCode(f, k, objs), Made(slots, objs), size, sur, s);
      if s.pc < |f| && s.pc in k.tracked { TrackedComputed(f, slots, k, objs, sur, s.pc, s.from, s.env); }
    } else {
      StepStopped(SplitCode(f, k, objs), Made(slots, objs), size, sur, s);
    }
  }

  lemma StepStopped(g: Code, slots: seq<StackSlot>, size: nat, sur: Surroundings, s: State)
    requires !s.Running?
    ensures Step(g, slots, true, size, sur, s) == s
  {
  }

  lemma {:induction false} RunHoldsTracked(f: Code, slots: seq<StackSlot>, k: Classified, objs: seq<nat>, size: nat,
                                           sur: Surroundings, m: Memory, n: nat)
    requires WellFormedCode(f) && Accepted(f, slots, k) && InRange(slots, objs) && |m.objs| == |objs|
    ensures HoldsTracked(k, Steps(SplitCode(f, k, objs), Made(slots, objs), true, size, sur, Entry(m), n))
    decreases n
  {
    hide WellFormedCode, Accepted, Step, Made, SplitCode;
    if n > 0 {
      RunHoldsTracked(f, slots, k, objs, size, sur, m, n - 1);
      StepHoldsTracked(f, slots, k, objs, size, sur, Steps(SplitCode(f, k, objs), Made(slots, objs), true, size, sur, Entry(m), n - 1));
    }
  }

  /** Accesses and calls stay as they are. */
  lemma {:induction false} OtherStays(f: Code, slots: seq<StackSlot>, k: Classified, objs: seq<nat>, at: nat)
    requires WellFormedCode(f) && Accepted(f, slots, k) && at < |f| && (f[at].Load? || f[at].Store? || f[at].Call?)
    ensures SplitCode(f, k, objs)[at] == f[at]
  {
    ComesToPlan(f, slots, k, at);
    hide Accepted, WellFormedCode, Offset;
    assert ComesTo(f, slots, at) == Fine;
  }

  /**
   * No run of an accepted function gets past a missed access or a missed call, whatever memory it is entered with and
   * whatever its callees do: at an access that lies in the frame block but reaches into an object, or a call that is
   * handed an address inside one, it stops.
   */
  lemma {:induction false} MissedUseStops(f: Code, slots: seq<StackSlot>, k: Classified, objs: seq<nat>, size: nat,
                                          sur: Surroundings, m: Memory, n: nat, id: nat)
    requires WellFormedCode(f) && Accepted(f, slots, k) && InRange(slots, objs) && |m.objs| == |objs| && id in k.tracked
    ensures var g, made := SplitCode(f, k, objs), Made(slots, objs);
            var s := Steps(g, made, true, size, sur, Entry(m), n);
            s.Running? && s.pc < |f| ==>
              && (Accesses(f[s.pc], id) && !Clear(made, k.tracked[id], f[s.pc].bytes) ==> Step(g, made, true, size, sur, s).Stopped?)
              && (f[s.pc].Call? && Var(id) in f[s.pc].args && SlotAt(made, k.tracked[id]).Some? ==>
                    Step(g, made, true, size, sur, s).Stopped?)
  {
    var g, made := SplitCode(f, k, objs), Made(slots, objs);
    var s := Steps(g, made, true, size, sur, Entry(m), n);
    RunHoldsTracked(f, slots, k, objs, size, sur, m, n);
    if s.Running? && s.pc < |f| {
      if Accesses(f[s.pc], id) && !Clear(made, k.tracked[id], f[s.pc].bytes) {
        OtherStays(f, slots, k, objs, s.pc);
        hide WellFormedCode, Accepted, SplitCode, Steps, Made;
        MissedAccessStops(g, made, size, sur, s, id, k.tracked[id]);
      }
      if f[s.pc].Call? && Var(id) in f[s.pc].args && SlotAt(made, k.tracked[id]).Some? {
        OtherStays(f, slots, k, objs, s.pc);
        hide WellFormedCode, Accepted, SplitCode, Steps, Made;
        AddressNotViewed(made, s.env, f[s.pc].args, id, k.tracked[id]);
        FailedCallStops(g, made, size, sur, s);
      }
    }
  }

  lemma MissedAccessStops(g: Code, made: seq<StackSlot>, size: nat, sur: Surroundings, s: State, id: nat, c: int)
    requires s.Running? && |s.mem.objs| == |made| && s.pc < |g| && Accesses(g[s.pc], id)
    requires (id in s.env ==> s.env[id] == Frame(c)) && !Clear(made, c, g[s.pc].bytes)
    ensures Step(g, made, true, size, sur, s).Stopped?
  {
    var n := g[s.pc].bytes;
    assert Reach(made, true, size, Frame(c), n).Err?;
    hide Reach, Encode, Decode;
  }

  lemma {:induction false} AddressNotViewed(slots: seq<StackSlot>, env: map<nat, Val>, args: seq<Operand>, id: nat, c: int)
    requires SlotAt(slots, c).Some? && (id in env ==> env[id] == Frame(c)) && Var(id) in args
    ensures EvalViews(slots, true, env, args).Err?
    decreases |args|
  {
    var front, last := args[..|args| - 1], args[|args| - 1];
    if last != Var(id) {
      assert Var(id) in front;
      AddressNotViewed(slots, env, front, id, c);
    }
  }

  lemma {:induction false} FailedCallStops(g: Code, slots: seq<StackSlot>, size: nat, sur: Surroundings, s: State)
    requires s.Running? && |s.mem.objs| == |slots| && s.pc < |g| && g[s.pc].Call?
    requires EvalViews(slots, true, s.env, g[s.pc].args).Err?
    ensures Step(g, slots, true, size, sur, s).Stopped?
  {
    hide EvalViews, CallResult;
  }
}
