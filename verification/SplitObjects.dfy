/** The objects a split makes: one for each slot that some replaced address points into. The other
    slots stay in the frame block. */
module SplitObjects {
  import opened Options
  import opened Slots
  import opened FrameCode
  import opened StackSplits
  import opened SplitPass

  // ---------------------------------------------------------------- objects

  predicate NoDuplicates(objs: seq<nat>) {
    forall i, j :: 0 <= i < j < |objs| ==> objs[i] != objs[j]
  }

  predicate InRange(slots: seq<StackSlot>, objs: seq<nat>) {
    forall i :: 0 <= i < |objs| ==> objs[i] < |slots|
  }

  /** Which object was made for slot s. */
  function ObjectOf(objs: seq<nat>, s: nat): (r: nat)
    ensures s in objs ==> r < |objs| && objs[r] == s
  {
    if objs == [] then 0 else if objs[0] == s then 0 else 1 + ObjectOf(objs[1..], s)
  }

  lemma {:induction false} ObjectOfGrows(a: seq<nat>, b: seq<nat>, s: nat)
    requires s in a && a <= b
    ensures ObjectOf(b, s) == ObjectOf(a, s)
  {
    if a[0] != s {
      assert s in a[1..];
      ObjectOfGrows(a[1..], b[1..], s);
    }
  }

  /** The slots that have become objects, in the order they were made. */
  function Made(slots: seq<StackSlot>, objs: seq<nat>): (r: seq<StackSlot>)
    requires InRange(slots, objs)
    ensures |r| == |objs| && forall i :: 0 <= i < |objs| ==> r[i] == slots[objs[i]]
  {
    seq(|objs|, i requires 0 <= i < |objs| => slots[objs[i]])
  }

  /** A plan that refers to the object made for its slot. */
  function Placed(plan: Plan, objs: seq<nat>): Plan { plan.(slot := ObjectOf(objs, plan.slot)) }

  function PlacedPlans(plans: map<nat, Plan>, objs: seq<nat>): map<nat, Plan> {
    map at | at in plans :: Placed(plans[at], objs)
  }

  function PlacedAll(k: Classified, objs: seq<nat>): Classified { k.(plans := PlacedPlans(k.plans, objs)) }

  /** Exactly the slots that plans refer to have become objects, each once. */
  ghost predicate ObjectsFor(k: Classified, objs: seq<nat>) {
    && NoDuplicates(objs)
    && (forall at :: at in k.plans ==> k.plans[at].slot in objs)
    && (forall s <- objs :: exists at :: at in k.plans && k.plans[at].slot == s)
  }

  /** Plans refer to slots of the list. */
  lemma {:induction false} PlansInRange(f: Code, slots: seq<StackSlot>, k: Classified, objs: seq<nat>)
    requires Accepted(f, slots, k) && ObjectsFor(k, objs)
    ensures InRange(slots, objs)
  {
    forall i | 0 <= i < |objs| ensures objs[i] < |slots| {
      assert objs[i] in objs;
      var at :| at in k.plans && k.plans[at].slot == objs[i];
      GroundedOf(f, slots, k);
      hide Accepted, UseOf;
      var from :| from in k.tracked && at < |f| && Derives(f[at], from)
                  && UseOf(slots, f[at], from, k.tracked[from]) == StackSplits.Replaced(k.plans[at]);
      PlannedSlot(slots, f[at], from, k.tracked[from]);
    }
  }

  lemma PlannedSlot(slots: seq<StackSlot>, i: Inst, id: nat, c: int)
    requires UseOf(slots, i, id, c).Replaced?
    ensures UseOf(slots, i, id, c).plan.slot < |slots|
  {
    hide Norm;
  }

  lemma {:induction false} MadeValid(slots: seq<StackSlot>, objs: seq<nat>, size: nat)
    requires ValidSlots(slots, size) && InRange(slots, objs) && NoDuplicates(objs)
    ensures ValidSlots(Made(slots, objs), size)
  {
    var made := Made(slots, objs);
    forall s | s in made ensures 0 <= s.Start() && s.End() <= size {
      var i :| 0 <= i < |made| && made[i] == s;
      assert slots[objs[i]] in slots;
    }
    forall i, j | 0 <= i < j < |made| ensures Disjoint(made[i], made[j]) {
      var a, b := objs[i], objs[j];
      assert if a < b then Disjoint(slots[a], slots[b]) else Disjoint(slots[b], slots[a]);
    }
  }

  // ---------------------------------------------------------------- addresses in slots and in objects

  /** A byte of a slot that has become an object is in that object, a byte outside all slots in none. */
  lemma {:induction false} SlotAtMade(slots: seq<StackSlot>, objs: seq<nat>, c: int)
    requires InRange(slots, objs) && PairwiseDisjoint(Made(slots, objs))
    ensures SlotAt(slots, c).None? ==> SlotAt(Made(slots, objs), c).None?
    ensures SlotAt(slots, c).Some? && SlotAt(slots, c).value in objs ==>
              SlotAt(Made(slots, objs), c) == Some(ObjectOf(objs, SlotAt(slots, c).value))
  {
    var made := Made(slots, objs);
    var s := SlotAt(slots, c);
    if s.None? {
      forall m | m in made ensures !m.Covers(c) {
        var i :| 0 <= i < |made| && made[i] == m;
        assert slots[objs[i]] in slots;
      }
    } else if s.value in objs {
      CoverIsUnique(made, ObjectOf(objs, s.value), c);
    }
  }

  /** The plan a use comes to, if any, is for a slot that has become an object. */
  predicate PlansMade(use: Use, objs: seq<nat>) { use.Replaced? ==> use.plan.slot in objs }

  function PlacedUse(use: Use, objs: seq<nat>): Use {
    if use.Replaced? then StackSplits.Replaced(Placed(use.plan, objs)) else use
  }

  /** A use comes to the same among the objects as among the slots. */
  lemma {:induction false} UseInObjects(slots: seq<StackSlot>, objs: seq<nat>, i: Inst, id: nat, c: int)
    requires InRange(slots, objs) && PairwiseDisjoint(Made(slots, objs))
    requires UseOf(slots, i, id, c) != Bad && PlansMade(UseOf(slots, i, id, c), objs)
    ensures UseOf(Made(slots, objs), i, id, c) == PlacedUse(UseOf(slots, i, id, c), objs)
  {
    hide Norm, PairwiseDisjoint, SlotAt;
    match i
    case GepConst(_, k) => AddressInObjects(slots, objs, Norm(c + k));
    case AddConst(_, k) => AddressInObjects(slots, objs, Norm(c + k));
    case IntToPtr(_) => AddressInObjects(slots, objs, c);
    case GepVar(_, _, base, _) =>
      SlotAtMade(slots, objs, Norm(c + base.value));
      SameStart(slots, objs, SlotAt(slots, Norm(c + base.value)).value);
    case Load(_, n) => ClearInObjects(slots, objs, c, n);
    case Store(_, _, n) => ClearInObjects(slots, objs, c, n);
    case _ => SlotAtMade(slots, objs, c);
  }

  lemma {:induction false} ClearInObjects(slots: seq<StackSlot>, objs: seq<nat>, c: int, n: nat)
    requires InRange(slots, objs) && PairwiseDisjoint(Made(slots, objs))
    ensures Clear(slots, c, n) ==> Clear(Made(slots, objs), c, n)
  {
    if Clear(slots, c, n) {
      SlotAtMade(slots, objs, c);
      forall x | c <= x < c + n ensures SlotAt(Made(slots, objs), x).None? { SlotAtMade(slots, objs, x); }
    }
  }

  lemma {:induction false} SameStart(slots: seq<StackSlot>, objs: seq<nat>, s: nat)
    requires InRange(slots, objs) && s in objs
    ensures Made(slots, objs)[ObjectOf(objs, s)].Start() == slots[s].Start()
  {
  }

  lemma {:induction false} AddressInObjects(slots: seq<StackSlot>, objs: seq<nat>, c: int)
    requires InRange(slots, objs) && PairwiseDisjoint(Made(slots, objs)) && PlansMade(AddressAt(slots, c), objs)
    ensures AddressAt(Made(slots, objs), c) == PlacedUse(AddressAt(slots, c), objs)
  {
    SlotAtMade(slots, objs, c);
    var s := SlotAt(slots, c);
    if s.Some? { SameStart(slots, objs, s.value); }
  }

  // ---------------------------------------------------------------- what the classifiers miss

  /** The instruction loads or stores through value id. */
  predicate Accesses(i: Inst, id: nat) { (i.Load? || i.Store?) && i.p == Var(id) }

  /** A tracked address is not stored through itself, no callee gets a tracked address that has become part of an
      object, and no access through a tracked address reaches into an object. */
  ghost predicate NoMissedUse(f: Code, made: seq<StackSlot>, k: Classified) {
    && (forall i :: 0 <= i < |f| && f[i].Store? && f[i].v.Var? && f[i].v == f[i].p ==> f[i].v.id !in k.tracked)
    && (forall i, id: nat :: 0 <= i < |f| && f[i].Call? && id in k.tracked && Uses(f[i], id) ==> SlotAt(made, k.tracked[id]).None?)
    && (forall i, id: nat :: 0 <= i < |f| && Accesses(f[i], id) && id in k.tracked ==> !TouchesSlot(made, k.tracked[id], f[i].bytes))
  }

  /** A use that the classifiers accept, and that is not one they miss, is one a split can bear. */
  lemma {:induction false} UseAccepted(f: Code, slots: seq<StackSlot>, objs: seq<nat>, k: Classified, id: nat, i: nat)
    requires Accepted(f, slots, k) && ObjectsFor(k, objs) && InRange(slots, objs) && PairwiseDisjoint(Made(slots, objs))
    requires id in k.tracked && i < |f| && Uses(f[i], id)
    requires f[i].Store? && f[i].v == Var(id) ==> f[i].p != Var(id)
    requires f[i].Call? ==> SlotAt(Made(slots, objs), k.tracked[id]).None?
    requires Accesses(f[i], id) ==> !TouchesSlot(Made(slots, objs), k.tracked[id], f[i].bytes)
    ensures UseCovered(Made(slots, objs), f[i], i, id, k.tracked[id], PlacedAll(k, objs))
  {
    var c, form := k.tracked[id], FormOf(f[id]);
    assert Accepts(SourceUse(slots, form, f[i], id, c), i, k) by {
      assert AllUsesAccepted(f, slots, id, c, k);
    }
    hide Accepted, AllUsesAccepted, FormOf, SourceUse, UseOf, UseCovered, PairwiseDisjoint, ObjectsFor;
    if f[i].Call? {
      CallCovered(Made(slots, objs), f[i], i, id, c, PlacedAll(k, objs));
    } else if f[i].Load? || f[i].Store? {
      AccessOutside(slots, form, f[i], i, id, c, k);
      SlotAtMade(slots, objs, c);
      AccessCovered(Made(slots, objs), f[i], i, id, c, PlacedAll(k, objs));
    } else {
      hide Uses;
      SameVerdict(slots, form, f[i], i, id, c, k);
      PlanIsMade(k, objs, i, UseOf(slots, f[i], id, c));
      UseInObjects(slots, objs, f[i], id, c);
      CoveredPlaced(slots, objs, f[i], i, id, c, k);
    }
  }

  lemma {:induction false} CallCovered(made: seq<StackSlot>, i: Inst, at: nat, id: nat, c: int, k: Classified)
    requires i.Call? && SlotAt(made, c).None?
    ensures UseCovered(made, i, at, id, c, k)
  {
  }

  lemma AccessCovered(made: seq<StackSlot>, i: Inst, at: nat, id: nat, c: int, k: Classified)
    requires Accesses(i, id) && (i.Store? ==> i.v != Var(id)) && Clear(made, c, i.bytes)
    ensures UseCovered(made, i, at, id, c, k)
  {
  }

  /** The classifiers look at the first byte of an access, and at the operand it goes through. */
  lemma {:induction false} AccessOutside(slots: seq<StackSlot>, form: Form, i: Inst, at: nat, id: nat, c: int, k: Classified)
    requires Accepts(SourceUse(slots, form, i, id, c), at, k) && (i.Load? || i.Store?) && Uses(i, id)
    ensures Accesses(i, id) && SlotAt(slots, c).None?
  {
  }

  lemma CoveredPlaced(slots: seq<StackSlot>, objs: seq<nat>, i: Inst, at: nat, id: nat, c: int, k: Classified)
    requires InRange(slots, objs) && Accepts(UseOf(slots, i, id, c), at, k)
    requires UseOf(Made(slots, objs), i, id, c) == PlacedUse(UseOf(slots, i, id, c), objs)
    ensures UseCovered(Made(slots, objs), i, at, id, c, PlacedAll(k, objs))
  {
    hide UseOf;
  }

  /** But for accesses and calls, the classifiers judge as a split requires. */
  lemma SameVerdict(slots: seq<StackSlot>, form: Form, i: Inst, at: nat, id: nat, c: int, k: Classified)
    requires Accepts(SourceUse(slots, form, i, id, c), at, k) && !i.Call? && !i.Load? && !i.Store?
    ensures UseOf(slots, i, id, c) == SourceUse(slots, form, i, id, c) != Bad
  {
    hide AddressAt, SlotAt, Norm;
  }

  lemma PlanIsMade(k: Classified, objs: seq<nat>, at: nat, use: Use)
    requires ObjectsFor(k, objs) && Accepts(use, at, k)
    ensures PlansMade(use, objs)
  {
  }

  lemma {:induction false} JustifiedInObjects(f: Code, slots: seq<StackSlot>, objs: seq<nat>, k: Classified, at: nat,
                                              use: Use)
    requires InRange(slots, objs) && PairwiseDisjoint(Made(slots, objs)) && PlansMade(use, objs) && use != Bad
    requires Justified(f, slots, k, at, use)
    ensures Justified(f, Made(slots, objs), PlacedAll(k, objs), at, PlacedUse(use, objs))
  {
    var from :| from in k.tracked && at < |f| && Derives(f[at], from) && UseOf(slots, f[at], from, k.tracked[from]) == use;
    hide UseOf;
    UseInObjects(slots, objs, f[at], from, k.tracked[from]);
  }

  /** What is accepted supports the split into the objects made if and only if no missed use occurs. */
  lemma {:induction false} AcceptedSplits(f: Code, slots: seq<StackSlot>, objs: seq<nat>, k: Classified)
    requires WellFormedCode(f) && Accepted(f, slots, k) && ObjectsFor(k, objs) && InRange(slots, objs)
    requires PairwiseDisjoint(Made(slots, objs))
    ensures Covered(f, Made(slots, objs), PlacedAll(k, objs)) <==> NoMissedUse(f, Made(slots, objs), k)
  {
    if NoMissedUse(f, Made(slots, objs), k) {
      SplitsIntoObjects(f, slots, objs, k);
    } else if Covered(f, Made(slots, objs), PlacedAll(k, objs)) {
      MissedUseNotCovered(f, Made(slots, objs), PlacedAll(k, objs));
    }
  }

  lemma {:induction false} SplitsIntoObjects(f: Code, slots: seq<StackSlot>, objs: seq<nat>, k: Classified)
    requires WellFormedCode(f) && Accepted(f, slots, k) && ObjectsFor(k, objs) && InRange(slots, objs)
    requires PairwiseDisjoint(Made(slots, objs)) && NoMissedUse(f, Made(slots, objs), k)
    ensures Covered(f, Made(slots, objs), PlacedAll(k, objs))
  {
    var made, placed := Made(slots, objs), PlacedAll(k, objs);
    assert 0 in k.tracked && k.tracked[0] == 0;
    hide Accepted, ObjectsFor, PairwiseDisjoint, UseCovered, NoMissedUse, Uses, Justified;
    forall id, i | id in placed.tracked && 0 <= i < |f| && Uses(f[i], id)
      ensures UseCovered(made, f[i], i, id, placed.tracked[id], placed)
    {
      hide WellFormedCode;
      UseInSplit(f, slots, objs, k, id, i);
    }
    forall at | at in placed.tracked && at != 0 ensures Justified(f, made, placed, at, Tracked(placed.tracked[at])) {
      hide WellFormedCode;
      TrackedInSplit(f, slots, objs, k, at);
    }
    forall at | at in placed.plans ensures Justified(f, made, placed, at, StackSplits.Replaced(placed.plans[at])) {
      hide WellFormedCode;
      PlanInSplit(f, slots, objs, k, at);
    }
  }

  lemma {:induction false} UseInSplit(f: Code, slots: seq<StackSlot>, objs: seq<nat>, k: Classified, id: nat, i: nat)
    requires Accepted(f, slots, k) && ObjectsFor(k, objs) && InRange(slots, objs) && PairwiseDisjoint(Made(slots, objs))
    requires NoMissedUse(f, Made(slots, objs), k) && id in k.tracked && i < |f| && Uses(f[i], id)
    ensures UseCovered(Made(slots, objs), f[i], i, id, k.tracked[id], PlacedAll(k, objs))
  {
    hide Accepted, ObjectsFor, PairwiseDisjoint, UseCovered;
    UseAccepted(f, slots, objs, k, id, i);
  }

  lemma {:induction false} TrackedInSplit(f: Code, slots: seq<StackSlot>, objs: seq<nat>, k: Classified, at: nat)
    requires Accepted(f, slots, k) && InRange(slots, objs) && PairwiseDisjoint(Made(slots, objs)) && at in k.tracked && at != 0
    ensures Justified(f, Made(slots, objs), PlacedAll(k, objs), at, Tracked(k.tracked[at]))
  {
    GroundedOf(f, slots, k);
    assert RootOrJustified(f, slots, k, at, k.tracked[at]);
    hide Accepted, Grounded, PairwiseDisjoint, Justified;
    JustifiedInObjects(f, slots, objs, k, at, Tracked(k.tracked[at]));
  }

  lemma {:induction false} PlanInSplit(f: Code, slots: seq<StackSlot>, objs: seq<nat>, k: Classified, at: nat)
    requires Accepted(f, slots, k) && ObjectsFor(k, objs) && InRange(slots, objs) && PairwiseDisjoint(Made(slots, objs))
    requires at in k.plans
    ensures Justified(f, Made(slots, objs), PlacedAll(k, objs), at, StackSplits.Replaced(Placed(k.plans[at], objs)))
  {
    GroundedOf(f, slots, k);
    assert k.plans[at].slot in objs;
    assert Justified(f, slots, k, at, StackSplits.Replaced(k.plans[at]));
    hide Accepted, Grounded, PairwiseDisjoint, Justified, ObjectsFor;
    JustifiedInObjects(f, slots, objs, k, at, StackSplits.Replaced(k.plans[at]));
  }

  lemma MissedUseNotCovered(f: Code, made: seq<StackSlot>, k: Classified)
    requires Covered(f, made, k)
    ensures NoMissedUse(f, made, k)
  {
    forall i | 0 <= i < |f| && f[i].Store? && f[i].v.Var? && f[i].v == f[i].p ensures f[i].v.id !in k.tracked {
      if f[i].v.id in k.tracked {
        UseIsCovered(f, made, k, i, f[i].v.id);
        assert false;
      }
    }
    forall i, id: nat | 0 <= i < |f| && f[i].Call? && id in k.tracked && Uses(f[i], id)
      ensures SlotAt(made, k.tracked[id]).None?
    {
      UseIsCovered(f, made, k, i, id);
    }
    forall i, id: nat | 0 <= i < |f| && Accesses(f[i], id) && id in k.tracked
      ensures !TouchesSlot(made, k.tracked[id], f[i].bytes)
    {
      UseIsCovered(f, made, k, i, id);
    }
  }

  // ---------------------------------------------------------------- the slots that are handed on

  /** No usable frame object reaches over the top of the frame. */
  predicate BelowTop(objects: seq<FrameObject>) {
    forall o <- objects :: o.Usable() ==> o.offset + o.size <= 0
  }

  lemma {:induction false} UsableFromObject(objects: seq<FrameObject>, s: StackSlot)
    requires s in UsableSlots(objects)
    ensures exists o <- objects :: o.Usable() && o.Slot() == s
    decreases |objects|
  {
    var front, last := objects[..|objects| - 1], objects[|objects| - 1];
    if s in UsableSlots(front) {
      UsableFromObject(front, s);
      var o :| o in front && o.Usable() && o.Slot() == s;
      assert o in objects;
    } else {
      assert last in objects;
    }
  }

  /**
   * The slots that a block of `size` bytes is split by are valid exactly if each of them ends in it. Frame objects
   * below the top of the frame give such slots.
   */
  lemma {:induction false} HandedOnAreValid(objects: seq<FrameObject>, slots: seq<StackSlot>, size: nat)
    requires PairwiseDisjoint(slots) && multiset(slots) <= multiset(UsableSlots(objects)) && FRAME_TOP <= size < P63
    ensures ValidSlots(slots, size) <==> forall s <- slots :: s.End() <= size
    ensures BelowTop(objects) ==> ValidSlots(slots, size)
  {
    forall s | s in slots ensures 0 <= s.Start() && (BelowTop(objects) ==> s.End() <= size) {
      assert s in multiset(slots) && s in multiset(UsableSlots(objects));
      UsableFromObject(objects, s);
    }
  }
}
