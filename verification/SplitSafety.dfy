/** When a split keeps a function's meaning, as a condition on the function and the slots: what the pass comes to
    follow, what it comes to replace, and which uses it misses, without running it. */
module SplitSafety {
  import opened Options
  import opened Slots
  import opened FrameCode
  import opened StackSplits
  import opened SplitPass
  import opened SplitObjects

  // ---------------------------------------------------------------- constant offsets

  /** The value whose address the instruction derives its own from. */
  function Source(i: Inst): (r: Option<nat>)
    ensures forall id: nat :: r == Some(id) <==> Derives(i, id)
  {
    if (i.GepConst? || i.GepVar? || i.PtrToInt? || i.AddConst? || i.IntToPtr?) && i.p.Var? then Some(i.p.id) else None
  }

  /** What the address that instruction `at` derives comes to. */
  function ComesTo(f: Code, slots: seq<StackSlot>, at: nat): Use
    requires at < |f|
    decreases at, 0
  {
    match Source(f[at])
    case Some(id) =>
      if id >= at then Fine
      else
        (match Offset(f, slots, id)
         case Some(c) => UseOf(slots, f[at], id, c)
         case None => Fine)
    case None => Fine
  }

  /** The byte of the frame block that a value is the address of, as long as it stays an address of the block. */
  function Offset(f: Code, slots: seq<StackSlot>, id: nat): Option<int>
    requires id < |f|
    decreases id, 1
  {
    if f[id].StackBlock? then Some(0)
    else
      match ComesTo(f, slots, id)
      case Tracked(c) => Some(c)
      case _ => None
  }

  function OffsetOf(f: Code, slots: seq<StackSlot>, x: Operand): Option<int> {
    if x.Var? && x.id < |f| then Offset(f, slots, x.id) else None
  }

  /** Some replaced address points into slot s. */
  predicate Referred(f: Code, slots: seq<StackSlot>, s: nat) {
    exists at :: 0 <= at < |f| && ComesTo(f, slots, at).Replaced? && ComesTo(f, slots, at).plan.slot == s
  }

  /** Byte c of the frame block becomes a byte of an object. */
  predicate Leaves(f: Code, slots: seq<StackSlot>, c: int) {
    SlotAt(slots, c).Some? && Referred(f, slots, SlotAt(slots, c).value)
  }

  // ---------------------------------------------------------------- the condition

  predicate SelfStore(f: Code, slots: seq<StackSlot>, i: Inst) {
    i.Store? && i.v == i.p && OffsetOf(f, slots, i.v).Some?
  }

  predicate HandsOver(f: Code, slots: seq<StackSlot>, i: Inst) {
    i.Call? && exists x <- i.args :: OffsetOf(f, slots, x).Some? && Leaves(f, slots, OffsetOf(f, slots, x).value)
  }

  predicate ReachesInto(f: Code, slots: seq<StackSlot>, i: Inst) {
    && (i.Load? || i.Store?) && OffsetOf(f, slots, i.p).Some?
    && var c := OffsetOf(f, slots, i.p).value;
       exists x :: c <= x < c + i.bytes && Leaves(f, slots, x)
  }

  /** No address of the frame block is stored through itself, none that points into a split-off slot is passed to a
      callee, and no access at a constant offset of the block reaches into a split-off slot. */
  predicate SafeToSplit(f: Code, slots: seq<StackSlot>) {
    forall i <- f :: !SelfStore(f, slots, i) && !HandsOver(f, slots, i) && !ReachesInto(f, slots, i)
  }

  // ---------------------------------------------------------------- it is what the pass does

  /** The constant offsets are exactly the addresses that a successful classification tracks. */
  lemma {:induction false} OffsetIsTracked(f: Code, slots: seq<StackSlot>, k: Classified, id: nat)
    requires WellFormedCode(f) && Accepted(f, slots, k) && id < |f|
    ensures Offset(f, slots, id) == if id in k.tracked then Some(k.tracked[id]) else None
    decreases id
  {
    if id == 0 {
      RootOffset(f, slots, k);
    } else {
      hide Accepted, WellFormedCode, Offset;
      if id in k.tracked {
        TrackedFrom(f, slots, k, id);
      } else if Offset(f, slots, id).Some? {
        OffsetFrom(f, slots, k, id);
      }
    }
  }

  lemma {:induction false} RootOffset(f: Code, slots: seq<StackSlot>, k: Classified)
    requires Accepted(f, slots, k)
    ensures Offset(f, slots, 0) == Some(0) && 0 in k.tracked && k.tracked[0] == 0
  {
    hide Grounded, AllUsesAccepted, ComesTo;
  }

  lemma {:induction false} ComesFrom(f: Code, slots: seq<StackSlot>, from: nat, at: nat, c: int)
    requires from < at < |f| && Derives(f[at], from) && Offset(f, slots, from) == Some(c)
    ensures ComesTo(f, slots, at) == UseOf(slots, f[at], from, c)
  {
    hide UseOf, Offset;
    assert Source(f[at]) == Some(from);
  }

  lemma {:induction false} TrackedFrom(f: Code, slots: seq<StackSlot>, k: Classified, id: nat)
    requires WellFormedCode(f) && Accepted(f, slots, k) && 0 < id < |f| && id in k.tracked
    ensures Offset(f, slots, id) == Some(k.tracked[id])
    decreases id, 0
  {
    hide UseOf, ComesTo;
    GroundedOf(f, slots, k);
    assert RootOrJustified(f, slots, k, id, k.tracked[id]);
    var from: nat :| from in k.tracked && Derives(f[id], from) && UseOf(slots, f[id], from, k.tracked[from]) == Tracked(k.tracked[id]);
    assert from < id && !f[id].StackBlock?;
    hide Grounded, Accepted, WellFormedCode, Derives;
    OffsetIsTracked(f, slots, k, from);
    ComesFrom(f, slots, from, id, k.tracked[from]);
  }

  lemma {:induction false} OffsetFrom(f: Code, slots: seq<StackSlot>, k: Classified, id: nat)
    requires WellFormedCode(f) && Accepted(f, slots, k) && 0 < id < |f| && Offset(f, slots, id).Some?
    ensures id in k.tracked
    decreases id, 0
  {
    var from := Source(f[id]).value;
    hide UseOf, Accepted;
    OffsetIsTracked(f, slots, k, from);
    UseAccepts(f, slots, k, from, id);
  }

  /** An address derived from a tracked one is tracked or replaced as the use says. */
  lemma {:induction false} UseAccepts(f: Code, slots: seq<StackSlot>, k: Classified, from: nat, at: nat)
    requires Accepted(f, slots, k) && from in k.tracked && at < |f| && Derives(f[at], from)
    ensures Accepts(UseOf(slots, f[at], from, k.tracked[from]), at, k)
  {
    assert AllUsesAccepted(f, slots, from, k.tracked[from], k);
    DerivedAlike(slots, FormOf(f[from]), f[at], from, k.tracked[from]);
    hide UseOf, SourceUse, Grounded;
  }

  /** What is replaced is exactly what a successful classification plans. */
  lemma {:induction false} ComesToPlan(f: Code, slots: seq<StackSlot>, k: Classified, at: nat)
    requires WellFormedCode(f) && Accepted(f, slots, k) && at < |f|
    ensures ComesTo(f, slots, at).Replaced? <==> at in k.plans
    ensures at in k.plans ==> ComesTo(f, slots, at).plan == k.plans[at]
  {
    hide UseOf;
    if at in k.plans {
      PlanFrom(f, slots, k, at);
    } else if ComesTo(f, slots, at).Replaced? {
      hide Accepted;
      OffsetIsTracked(f, slots, k, Source(f[at]).value);
      UseAccepts(f, slots, k, Source(f[at]).value, at);
    }
  }

  lemma {:induction false} PlanFrom(f: Code, slots: seq<StackSlot>, k: Classified, at: nat)
    requires WellFormedCode(f) && Accepted(f, slots, k) && at < |f| && at in k.plans
    ensures ComesTo(f, slots, at) == StackSplits.Replaced(k.plans[at])
  {
    hide UseOf, ComesTo;
    GroundedOf(f, slots, k);
    assert Justified(f, slots, k, at, StackSplits.Replaced(k.plans[at]));
    var from: nat :| from in k.tracked && Derives(f[at], from)
                     && UseOf(slots, f[at], from, k.tracked[from]) == StackSplits.Replaced(k.plans[at]);
    assert from < at;
    hide Grounded, Accepted, WellFormedCode, Derives, Offset;
    OffsetIsTracked(f, slots, k, from);
    ComesFrom(f, slots, from, at, k.tracked[from]);
  }

  lemma {:induction false} ReferredIsMade(f: Code, slots: seq<StackSlot>, k: Classified, objs: seq<nat>, s: nat)
    requires WellFormedCode(f) && Accepted(f, slots, k) && ObjectsFor(k, objs)
    ensures Referred(f, slots, s) <==> s in objs
  {
    hide ComesTo, WellFormedCode;
    if Referred(f, slots, s) {
      var at :| 0 <= at < |f| && ComesTo(f, slots, at).Replaced? && ComesTo(f, slots, at).plan.slot == s;
      hide Accepted;
      ComesToPlan(f, slots, k, at);
    }
    if s in objs {
      var at :| at in k.plans && k.plans[at].slot == s;
      PlanInCode(f, slots, k, at);
      hide Accepted;
      ComesToPlan(f, slots, k, at);
    }
  }

  lemma {:induction false} PlanInCode(f: Code, slots: seq<StackSlot>, k: Classified, at: nat)
    requires Accepted(f, slots, k) && at in k.plans
    ensures at < |f|
  {
    GroundedOf(f, slots, k);
    assert Justified(f, slots, k, at, StackSplits.Replaced(k.plans[at]));
  }

  /** The bytes that leave the frame block are those of the objects. */
  lemma {:induction false} LeavesIsMade(f: Code, slots: seq<StackSlot>, k: Classified, objs: seq<nat>, c: int)
    requires WellFormedCode(f) && Accepted(f, slots, k) && ObjectsFor(k, objs) && InRange(slots, objs) && PairwiseDisjoint(slots)
    ensures Leaves(f, slots, c) <==> SlotAt(Made(slots, objs), c).Some?
  {
    var made := Made(slots, objs);
    hide Accepted, WellFormedCode, Referred;
    if SlotAt(slots, c).Some? { ReferredIsMade(f, slots, k, objs, SlotAt(slots, c).value); }
    MadeDisjoint(slots, objs, k);
    SlotAtMade(slots, objs, c);
    if SlotAt(made, c).Some? {
      var i := SlotAt(made, c).value;
      CoverIsUnique(slots, objs[i], c);
      assert objs[i] in objs;
    }
  }

  lemma MadeDisjoint(slots: seq<StackSlot>, objs: seq<nat>, k: Classified)
    requires InRange(slots, objs) && ObjectsFor(k, objs) && PairwiseDisjoint(slots)
    ensures PairwiseDisjoint(Made(slots, objs))
  {
    var made := Made(slots, objs);
    forall i, j | 0 <= i < j < |made| ensures Disjoint(made[i], made[j]) {
      var a, b := objs[i], objs[j];
      assert if a < b then Disjoint(slots[a], slots[b]) else Disjoint(slots[b], slots[a]);
    }
  }

  // ---------------------------------------------------------------- when the pass succeeds

  /** Every use of an address of the frame block is one it may have. */
  predicate AllUsesAllowed(f: Code, slots: seq<StackSlot>) {
    forall id, i :: 0 <= id < |f| && 0 <= i < |f| && Offset(f, slots, id).Some? && Uses(f[i], id) ==>
      UseAllowed(slots, f[id], f[i], id, Offset(f, slots, id).value)
  }

  lemma {:induction false} AcceptedAllows(f: Code, slots: seq<StackSlot>, k: Classified)
    requires WellFormedCode(f) && Accepted(f, slots, k)
    ensures AllUsesAllowed(f, slots)
  {
    forall id, i | 0 <= id < |f| && 0 <= i < |f| && Offset(f, slots, id).Some? && Uses(f[i], id)
      ensures UseAllowed(slots, f[id], f[i], id, Offset(f, slots, id).value)
    {
      OffsetIsTracked(f, slots, k, id);
      NothingRefused(f, slots, k, id, i);
      hide UseAllowed, Offset, Accepted, WellFormedCode;
    }
  }

  lemma {:induction false} GroundedOffset(f: Code, slots: seq<StackSlot>, k: Classified, id: nat)
    requires WellFormedCode(f) && Grounded(f, slots, k) && id in k.tracked && id < |f|
    ensures Offset(f, slots, id) == Some(k.tracked[id])
    decreases id
  {
    hide UseOf, ComesTo;
    assert RootOrJustified(f, slots, k, id, k.tracked[id]);
    if id > 0 {
      var from: nat :| from in k.tracked && Derives(f[id], from) && UseOf(slots, f[id], from, k.tracked[from]) == Tracked(k.tracked[id]);
      assert from < id && !f[id].StackBlock?;
      hide Grounded, WellFormedCode, Derives;
      GroundedOffset(f, slots, k, from);
      ComesFrom(f, slots, from, id, k.tracked[from]);
    } else {
      RootOnly(f, slots, k);
    }
  }

  lemma {:induction false} RootOnly(f: Code, slots: seq<StackSlot>, k: Classified)
    requires WellFormedCode(f) && Grounded(f, slots, k) && 0 in k.tracked
    ensures Offset(f, slots, 0) == Some(0) && k.tracked[0] == 0
  {
    assert RootOrJustified(f, slots, k, 0, k.tracked[0]);
    hide UseOf, ComesTo;
  }

  lemma {:induction false} RefusedIsNotAllowed(f: Code, slots: seq<StackSlot>, k: Classified)
    requires WellFormedCode(f) && Grounded(f, slots, k) && Refused(f, slots, k)
    ensures !AllUsesAllowed(f, slots)
  {
    var id, i :| id in k.tracked && id < |f| && 0 <= i < |f| && RefusedAt(f, slots, k, id, i);
    GroundedOffset(f, slots, k, id);
    hide UseAllowed, Offset, Grounded, WellFormedCode, Uses;
  }

  // ---------------------------------------------------------------- it is exact

  lemma {:induction false} OperandOffset(f: Code, slots: seq<StackSlot>, k: Classified, x: Operand)
    requires WellFormedCode(f) && Accepted(f, slots, k)
    ensures OffsetOf(f, slots, x).Some? <==> x.Var? && x.id in k.tracked
    ensures x.Var? && x.id in k.tracked ==> OffsetOf(f, slots, x) == Some(k.tracked[x.id])
  {
    if x.Var? && x.id in k.tracked { assert AllUsesAccepted(f, slots, x.id, k.tracked[x.id], k); }
    hide Accepted, WellFormedCode, Offset;
    if x.Var? && x.id < |f| { OffsetIsTracked(f, slots, k, x.id); }
  }

  /** The three uses that are missed, of instruction i, in the pass's own terms. */
  ghost predicate Misses(f: Code, made: seq<StackSlot>, k: Classified, i: Inst) {
    || (i.Store? && i.v.Var? && i.v == i.p && i.v.id in k.tracked)
    || (i.Call? && exists x <- i.args :: x.Var? && x.id in k.tracked && SlotAt(made, k.tracked[x.id]).Some?)
    || ((i.Load? || i.Store?) && i.p.Var? && i.p.id in k.tracked && TouchesSlot(made, k.tracked[i.p.id], i.bytes))
  }

  lemma {:induction false} MissesExactly(f: Code, slots: seq<StackSlot>, objs: seq<nat>, k: Classified, i: Inst)
    requires WellFormedCode(f) && Accepted(f, slots, k) && ObjectsFor(k, objs) && InRange(slots, objs) && PairwiseDisjoint(slots)
    ensures Misses(f, Made(slots, objs), k, i)
            <==> SelfStore(f, slots, i) || HandsOver(f, slots, i) || ReachesInto(f, slots, i)
  {
    hide WellFormedCode, Accepted, ObjectsFor, PairwiseDisjoint, Leaves, OffsetOf, SlotAt;
    forall x: Operand
      ensures OffsetOf(f, slots, x).Some? <==> x.Var? && x.id in k.tracked
      ensures x.Var? && x.id in k.tracked ==> OffsetOf(f, slots, x) == Some(k.tracked[x.id])
    {
      OperandOffset(f, slots, k, x);
    }
    forall c: int ensures Leaves(f, slots, c) <==> SlotAt(Made(slots, objs), c).Some? { LeavesIsMade(f, slots, k, objs, c); }
  }

  lemma NoMissedUseIs(f: Code, made: seq<StackSlot>, k: Classified)
    ensures NoMissedUse(f, made, k) <==> forall i <- f :: !Misses(f, made, k, i)
  {
    hide TouchesSlot, SlotAt;
    if NoMissedUse(f, made, k) {
      forall i | i in f ensures !Misses(f, made, k, i) {
        var at :| 0 <= at < |f| && f[at] == i;
        if i.Call? {
          forall x | x in i.args && x.Var? && x.id in k.tracked ensures SlotAt(made, k.tracked[x.id]).None? {
            assert Uses(f[at], x.id);
          }
        } else if (i.Load? || i.Store?) && i.p.Var? {
          assert Accesses(f[at], i.p.id);
        }
      }
    } else {
      assert exists at :: 0 <= at < |f| && Misses(f, made, k, f[at]);
      var at :| 0 <= at < |f| && Misses(f, made, k, f[at]);
      assert f[at] in f;
    }
  }

  /** For a function that the pass accepts, being safe to split is having no missed use. */
  lemma {:induction false} SafeIsExact(f: Code, slots: seq<StackSlot>, objs: seq<nat>, k: Classified)
    requires WellFormedCode(f) && Accepted(f, slots, k) && ObjectsFor(k, objs) && InRange(slots, objs) && PairwiseDisjoint(slots)
    ensures SafeToSplit(f, slots) <==> NoMissedUse(f, Made(slots, objs), k)
  {
    NoMissedUseIs(f, Made(slots, objs), k);
    hide WellFormedCode, Accepted, ObjectsFor, PairwiseDisjoint, SelfStore, HandsOver, ReachesInto, NoMissedUse, Misses;
    forall i | i in f
      ensures Misses(f, Made(slots, objs), k, i) <==> SelfStore(f, slots, i) || HandsOver(f, slots, i) || ReachesInto(f, slots, i)
    {
      MissesExactly(f, slots, objs, k, i);
    }
  }
}
