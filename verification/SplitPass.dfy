/** The pass itself: two mutually recursive classifiers that follow the frame address through
    its uses, and the replacement of what they planned. */
module SplitPass {
  import opened Options
  import opened Slots
  import opened FrameCode
  import opened StackSplits

  /** How a frame address is held: as a pointer, as the integer converted from one, or as that
      integer with a constant added. Each is classified by rules of its own. */
  datatype Form = Pointer | Converted | Summed

  function FormOf(i: Inst): Form { if i.PtrToInt? then Converted else if i.AddConst? then Summed else Pointer }

  /** The classifiers' own verdict on a use of an address. */
  function SourceUse(slots: seq<StackSlot>, form: Form, i: Inst, id: nat, c: int): Use {
    match form
    case Pointer =>
      (match i
       case GepConst(p, _) => if p == Var(id) then UseOf(slots, i, id, c) else Bad
       case GepVar(p, _, _, _) => if p == Var(id) then UseOf(slots, i, id, c) else Bad
       case PtrToInt(_) => Tracked(c)
       case Load(_, _) => if SlotAt(slots, c).Some? then Bad else Fine
       case Store(_, p, _) => if p != Var(id) || SlotAt(slots, c).Some? then Bad else Fine
       case Call(_, _) => Fine
       case ICmp(_, _) => Fine
       case _ => Bad)
    case Converted => if i.AddConst? || i.IntToPtr? then UseOf(slots, i, id, c) else if i.ICmp? then Fine else Bad
    case Summed => if i.IntToPtr? then UseOf(slots, i, id, c) else if i.ICmp? then Fine else Bad
  }

  /** Byte c of the frame block belongs to the slot; slot offsets count from byte 1024. */
  predicate HasByte(s: StackSlot, c: int) { 1024 + s.offset <= c < 1024 + s.offset + s.size }

  /**
   * The uses that the address of byte c of the block may have, when `d` is the instruction that yields it: as a pointer, it
   * may be converted, moved by a constant, passed, and compared; loaded from and stored through where no slot covers the
   * byte; and moved by an index in the one shape of a sum whose constant lies in a slot. As an integer it may be
   * moved by a constant, converted back, and compared; once moved, it may no longer be moved.
   */
  predicate UseAllowed(slots: seq<StackSlot>, d: Inst, i: Inst, id: nat, c: int) {
    if d.AddConst? then i.IntToPtr? || i.ICmp?
    else if d.PtrToInt? then i.AddConst? || i.IntToPtr? || i.ICmp?
    else
      || i.PtrToInt? || i.GepConst? || i.Call? || i.ICmp?
      || ((i.Load? || (i.Store? && i.p == Var(id))) && forall s <- slots :: !HasByte(s, c))
      || (i.GepVar? && i.p == Var(id) && i.idx != Var(id) && i.canonical && i.base.Some?
          && exists s <- slots :: HasByte(s, Norm(c + i.base.value)))
  }

  lemma {:induction false} CoveredMeans(slots: seq<StackSlot>, c: int)
    ensures SlotAt(slots, c).Some? <==> exists s <- slots :: HasByte(s, c)
  {
    if SlotAt(slots, c).Some? { assert slots[SlotAt(slots, c).value] in slots; }
    hide SlotAt;
  }

  /** The classifiers refuse exactly the other uses. */
  lemma {:induction false} RefusesTheOthers(slots: seq<StackSlot>, d: Inst, i: Inst, id: nat, c: int)
    requires Uses(i, id)
    ensures SourceUse(slots, FormOf(d), i, id, c) != Bad <==> UseAllowed(slots, d, i, id, c)
  {
    CoveredMeans(slots, c);
    if i.GepVar? && i.base.Some? { CoveredMeans(slots, Norm(c + i.base.value)); }
    hide Norm, SlotAt;
  }

  predicate Accepts(use: Use, at: nat, k: Classified) {
    match use
    case Bad => false
    case Replaced(p) => at in k.plans && k.plans[at] == p
    case Tracked(c) => at in k.tracked && k.tracked[at] == c
    case Fine => true
  }

  /** Every use of tracked address `id` has been classified. */
  ghost predicate AllUsesAccepted(f: Code, slots: seq<StackSlot>, id: nat, c: int, k: Classified) {
    id < |f| && forall i :: 0 <= i < |f| && Uses(f[i], id) ==> Accepts(SourceUse(slots, FormOf(f[id]), f[i], id, c), i, k)
  }

  /** What a successful classification has established. */
  ghost predicate Accepted(f: Code, slots: seq<StackSlot>, k: Classified) {
    && f != [] && f[0].StackBlock? && 0 in k.tracked && k.tracked[0] == 0
    && (forall id :: id in k.tracked ==> AllUsesAccepted(f, slots, id, k.tracked[id], k))
    && Grounded(f, slots, k)
  }

  /** Every claim about an instruction comes from a use of a tracked address; the frame block is at byte 0. */
  ghost predicate Grounded(f: Code, slots: seq<StackSlot>, k: Classified) {
    && (forall at :: at in k.tracked ==> RootOrJustified(f, slots, k, at, k.tracked[at]))
    && (forall at :: at in k.plans ==> Justified(f, slots, k, at, Replaced(k.plans[at])))
  }

  ghost predicate RootOrJustified(f: Code, slots: seq<StackSlot>, k: Classified, at: nat, c: int) {
    (at == 0 && c == 0) || Justified(f, slots, k, at, Tracked(c))
  }

  /** The frame block is defined once, first; addresses are derived from earlier values. */
  ghost predicate WellFormedCode(f: Code) {
    && f != [] && f[0].StackBlock?
    && (forall i :: 0 < i < |f| ==> !f[i].StackBlock?) && (forall i <- f :: !i.ObjAddr?)
    && (forall i, id: nat :: 0 <= i < |f| && Derives(f[i], id) ==> id < i)
  }

  // ---------------------------------------------------------------- when classification fails

  /** Some use of a tracked address is one the classifiers refuse. */
  ghost predicate Refused(f: Code, slots: seq<StackSlot>, k: Classified) {
    exists id, i :: id in k.tracked && id < |f| && 0 <= i < |f| && RefusedAt(f, slots, k, id, i)
  }

  predicate RefusedAt(f: Code, slots: seq<StackSlot>, k: Classified, id: nat, i: nat)
    requires id in k.tracked && id < |f| && i < |f|
  {
    Uses(f[i], id) && !UseAllowed(slots, f[id], f[i], id, k.tracked[id])
  }

  /** Deriving an address from a tracked one is judged alike by the classifiers and by what a split needs,
      wherever the classifiers do not refuse. */
  lemma DerivedAlike(slots: seq<StackSlot>, form: Form, i: Inst, id: nat, c: int)
    requires Derives(i, id)
    ensures Uses(i, id)
    ensures SourceUse(slots, form, i, id, c) == Bad || SourceUse(slots, form, i, id, c) == UseOf(slots, i, id, c)
  {
  }

  /** What one classification tracks, every successful one tracks. */
  lemma {:induction false} TrackedInAll(f: Code, slots: seq<StackSlot>, k: Classified, k': Classified, id: nat)
    requires WellFormedCode(f) && Grounded(f, slots, k) && Accepted(f, slots, k') && id in k.tracked
    ensures id in k'.tracked && k'.tracked[id] == k.tracked[id]
    decreases id
  {
    var c := k.tracked[id];
    assert RootOrJustified(f, slots, k, id, c);
    if !(id == 0 && c == 0) {
      var from :| from in k.tracked && id < |f| && Derives(f[id], from) && UseOf(slots, f[id], from, k.tracked[from]) == Tracked(c);
      hide Grounded, UseOf;
      TrackedInAll(f, slots, k, k', from);
      assert AllUsesAccepted(f, slots, from, k'.tracked[from], k');
      DerivedAlike(slots, FormOf(f[from]), f[id], from, k'.tracked[from]);
    }
  }

  lemma {:induction false} PlannedInAll(f: Code, slots: seq<StackSlot>, k: Classified, k': Classified, at: nat)
    requires WellFormedCode(f) && Grounded(f, slots, k) && Accepted(f, slots, k') && at in k.plans
    ensures at in k'.plans && k'.plans[at] == k.plans[at]
  {
    var from :| from in k.tracked && at < |f| && Derives(f[at], from)
                && UseOf(slots, f[at], from, k.tracked[from]) == Replaced(k.plans[at]);
    hide UseOf;
    TrackedInAll(f, slots, k, k', from);
    hide Grounded;
    assert AllUsesAccepted(f, slots, from, k'.tracked[from], k');
    DerivedAlike(slots, FormOf(f[from]), f[at], from, k'.tracked[from]);
  }

  /** There is at most one successful classification. */
  lemma {:induction false} AcceptedIsUnique(f: Code, slots: seq<StackSlot>, k: Classified, k': Classified)
    requires WellFormedCode(f) && Accepted(f, slots, k) && Accepted(f, slots, k')
    ensures k == k'
  {
    hide Accepted;
    forall id | id in k.tracked ensures id in k'.tracked && k'.tracked[id] == k.tracked[id] {
      GroundedOf(f, slots, k);
      TrackedInAll(f, slots, k, k', id);
    }
    forall id | id in k'.tracked ensures id in k.tracked {
      GroundedOf(f, slots, k');
      TrackedInAll(f, slots, k', k, id);
    }
    forall at | at in k.plans ensures at in k'.plans && k'.plans[at] == k.plans[at] {
      GroundedOf(f, slots, k);
      PlannedInAll(f, slots, k, k', at);
    }
    forall at | at in k'.plans ensures at in k.plans {
      GroundedOf(f, slots, k');
      PlannedInAll(f, slots, k', k, at);
    }
    hide Grounded;
    assert k.tracked == k'.tracked && k.plans == k'.plans;
  }

  lemma GroundedOf(f: Code, slots: seq<StackSlot>, k: Classified)
    requires Accepted(f, slots, k)
    ensures Grounded(f, slots, k)
  {
  }

  /** A refused use of an address that any classification comes to refuses the function. */
  lemma {:induction false} RefusedMeansNone(f: Code, slots: seq<StackSlot>, k: Classified, k': Classified)
    requires WellFormedCode(f) && Grounded(f, slots, k) && Refused(f, slots, k)
    ensures !Accepted(f, slots, k')
  {
    if Accepted(f, slots, k') {
      var id, i :| id in k.tracked && id < |f| && 0 <= i < |f| && RefusedAt(f, slots, k, id, i);
      TrackedInAll(f, slots, k, k', id);
      NothingRefused(f, slots, k', id, i);
    }
  }

  lemma NothingRefused(f: Code, slots: seq<StackSlot>, k: Classified, id: nat, i: nat)
    requires Accepted(f, slots, k) && id in k.tracked && id < |f| && i < |f|
    ensures !RefusedAt(f, slots, k, id, i)
  {
    assert AllUsesAccepted(f, slots, id, k.tracked[id], k);
    if Uses(f[i], id) { RefusesTheOthers(slots, f[id], f[i], id, k.tracked[id]); }
    hide Uses, UseAllowed, SourceUse, FormOf;
  }

  // ---------------------------------------------------------------- classification

  /** Nothing known is forgotten or changed. */
  ghost predicate Grows(k: Classified, k': Classified) {
    && (forall id :: id in k.tracked ==> id in k'.tracked && k'.tracked[id] == k.tracked[id])
    && (forall at :: at in k.plans ==> at in k'.plans && k'.plans[at] == k.plans[at])
  }

  ghost predicate Touched(k: Classified, at: nat) { at in k.tracked || at in k.plans }

  /** What is touched, except the root, was reached from a tracked address. */
  ghost predicate Rooted(f: Code, k: Classified) {
    forall at: nat :: Touched(k, at) && at != 0 ==> at < |f| && exists id :: id in k.tracked && Derives(f[at], id)
  }

  /** Only `at`, and what is reached from newly tracked addresses, is newly touched. */
  ghost predicate TouchesBelow(f: Code, k: Classified, k': Classified, at: nat) {
    forall i: nat :: Touched(k', i) && !Touched(k, i) && i != at ==>
      i < |f| && exists id :: id in k'.tracked && id !in k.tracked && Derives(f[i], id)
  }

  /** The uses of every address tracked in k' but not in k are all accepted. */
  ghost predicate NewlyDone(f: Code, slots: seq<StackSlot>, k: Classified, k': Classified) {
    forall id :: id in k'.tracked && id !in k.tracked ==> AllUsesAccepted(f, slots, id, k'.tracked[id], k')
  }

  lemma AcceptsGrows(use: Use, at: nat, k: Classified, k': Classified)
    requires Grows(k, k') && Accepts(use, at, k)
    ensures Accepts(use, at, k')
  {
  }

  lemma DoneGrows(f: Code, slots: seq<StackSlot>, k0: Classified, k: Classified, k': Classified)
    requires Grows(k0, k) && Grows(k, k') && NewlyDone(f, slots, k0, k) && NewlyDone(f, slots, k, k')
    ensures NewlyDone(f, slots, k0, k')
  {
    forall id | id in k'.tracked && id !in k0.tracked ensures AllUsesAccepted(f, slots, id, k'.tracked[id], k') {
      if id in k.tracked {
        assert AllUsesAccepted(f, slots, id, k.tracked[id], k);
      }
    }
  }

  function Track(k: Classified, id: nat, c: int): Classified { k.(tracked := k.tracked[id := c]) }

  /** While the uses of p are gone through: those before the i-th are accepted, and nothing
      derived from p is touched from there on. */
  ghost predicate Going(f: Code, slots: seq<StackSlot>, k0: Classified, k: Classified, p: nat, c: int, i: nat) {
    && p in k.tracked && k.tracked[p] == c && p < |f| && Grows(Track(k0, p, c), k)
    && NewlyDone(f, slots, Track(k0, p, c), k) && TouchesBelow(f, k0, k, p)
    && (forall j :: 0 <= j < |f| && j < i && Uses(f[j], p) ==> Accepts(SourceUse(slots, FormOf(f[p]), f[j], p, c), j, k))
    && (forall j: nat :: i <= j < |f| && Derives(f[j], p) ==> !Touched(k, j))
  }

  lemma GoingBegins(f: Code, slots: seq<StackSlot>, k0: Classified, p: nat, c: int)
    requires WellFormedCode(f) && Rooted(f, k0) && !Touched(k0, p) && p < |f|
    ensures Going(f, slots, k0, Track(k0, p, c), p, c, 0)
  {
    forall j: nat | j < |f| && Derives(f[j], p) ensures !Touched(Track(k0, p, c), j) {
      assert j != 0 && j != p;
    }
  }

  /** A use of p that changes nothing. */
  lemma GoingPasses(f: Code, slots: seq<StackSlot>, k0: Classified, k: Classified, p: nat, c: int, i: nat)
    requires Going(f, slots, k0, k, p, c, i) && i < |f|
    requires Uses(f[i], p) ==> Accepts(SourceUse(slots, FormOf(f[p]), f[i], p, c), i, k)
    ensures Going(f, slots, k0, k, p, c, i + 1)
  {
  }

  /** A use of p that was followed further. */
  lemma GoingFollows(f: Code, slots: seq<StackSlot>, k0: Classified, k: Classified, k': Classified, p: nat, c: int, i: nat)
    requires Going(f, slots, k0, k, p, c, i) && i < |f| && Derives(f[i], p) && p !in k0.tracked
    requires Grows(k, k') && NewlyDone(f, slots, k, k') && TouchesBelow(f, k, k', i)
    requires Accepts(SourceUse(slots, FormOf(f[p]), f[i], p, c), i, k')
    ensures Going(f, slots, k0, k', p, c, i + 1)
  {
    DoneGrows(f, slots, Track(k0, p, c), k, k');
    forall j: nat | i + 1 <= j < |f| && Derives(f[j], p) ensures !Touched(k', j) {
      assert !Touched(k, j);
    }
    forall j | 0 <= j < |f| && j < i + 1 && Uses(f[j], p) ensures Accepts(SourceUse(slots, FormOf(f[p]), f[j], p, c), j, k') {
      if j < i { AcceptsGrows(SourceUse(slots, FormOf(f[p]), f[j], p, c), j, k, k'); }
    }
    forall x: nat | Touched(k', x) && !Touched(k0, x) && x != p
      ensures x < |f| && exists id :: id in k'.tracked && id !in k0.tracked && Derives(f[x], id)
    {
      TouchedBelow(f, k0, k, k', p, i, x);
    }
  }

  lemma TouchedBelow(f: Code, k0: Classified, k: Classified, k': Classified, p: nat, i: nat, x: nat)
    requires TouchesBelow(f, k0, k, p) && TouchesBelow(f, k, k', i) && Grows(k, k') && Grows(k0, k)
    requires p in k.tracked && p !in k0.tracked && i < |f| && Derives(f[i], p)
    requires Touched(k', x) && !Touched(k0, x) && x != p
    ensures x < |f| && exists id :: id in k'.tracked && id !in k0.tracked && Derives(f[x], id)
  {
    if Touched(k, x) {
      var id :| id in k.tracked && id !in k0.tracked && Derives(f[x], id);
    } else if x == i {
      assert Derives(f[x], p);
    } else {
      var id :| id in k'.tracked && id !in k.tracked && Derives(f[x], id);
    }
  }

  lemma GoingEnds(f: Code, slots: seq<StackSlot>, k0: Classified, k: Classified, p: nat, c: int)
    requires Going(f, slots, k0, k, p, c, |f|) && p !in k0.tracked
    ensures Grows(k0, k) && NewlyDone(f, slots, k0, k) && TouchesBelow(f, k0, k, p)
    ensures AllUsesAccepted(f, slots, p, c, k)
  {
    forall id | id in k.tracked && id !in k0.tracked ensures AllUsesAccepted(f, slots, id, k.tracked[id], k) {
      if id == p { assert AllUsesAccepted(f, slots, p, c, k); }
    }
  }

  // ---------------------------------------------------------------- the pass

  predicate NoRepeat(plans: seq<(nat, Plan)>) {
    forall x, y :: 0 <= x < y < |plans| ==> plans[x].0 != plans[y].0
  }

  ghost predicate ListsPlans(gepPlans: seq<(nat, Plan)>, intPlans: seq<(nat, Plan)>, plans: map<nat, Plan>) {
    && (forall e :: e in gepPlans || e in intPlans ==> e.0 in plans && plans[e.0] == e.1)
    && (forall at :: at in plans ==> (at, plans[at]) in gepPlans || (at, plans[at]) in intPlans)
    && NoRepeat(gepPlans) && NoRepeat(intPlans)
    && (forall e, e' :: e in gepPlans && e' in intPlans ==> e.0 != e'.0)
  }

  lemma OneMorePlan(gepPlans: seq<(nat, Plan)>, intPlans: seq<(nat, Plan)>, plans: map<nat, Plan>, at: nat, plan: Plan)
    requires ListsPlans(gepPlans, intPlans, plans) && at !in plans
    ensures ListsPlans(gepPlans + [(at, plan)], intPlans, plans[at := plan])
    ensures ListsPlans(gepPlans, intPlans + [(at, plan)], plans[at := plan])
  {
    forall x | 0 <= x < |gepPlans| ensures gepPlans[x].0 != at { assert gepPlans[x] in gepPlans; }
    forall x | 0 <= x < |intPlans| ensures intPlans[x].0 != at { assert intPlans[x] in intPlans; }
  }

  class Rewriter {
    const slots: seq<StackSlot>
    const code: Code
    var gepPlans: seq<(nat, Plan)>
    var intPlans: seq<(nat, Plan)>
    ghost var k: Classified

    constructor (code: Code, slots: seq<StackSlot>)
      ensures this.code == code && this.slots == slots
      ensures gepPlans == [] && intPlans == [] && k == Classified(map[], map[])
    {
      this.code, this.slots := code, slots;
      gepPlans, intPlans := [], [];
      k := Classified(map[], map[]);
    }

    /** The plans are those made so far, each instruction planned once. */
    ghost predicate Listed()
      reads this
    {
      ListsPlans(gepPlans, intPlans, k.plans)
    }

    ghost predicate Sound()
      reads this
    {
      Grounded(code, slots, k) && Rooted(code, k) && Listed()
    }

    /** Instruction `at` may be classified as address c: it is the frame block, or derived. */
    ghost predicate MayTrack(at: nat, c: int)
      reads this
    {
      at < |code| && !Touched(k, at) && RootOrJustified(code, slots, k, at, c)
    }

    /** A use was refused, of an address that any classification comes to. */
    ghost predicate Failed()
      reads this
    {
      Grounded(code, slots, k) && Refused(code, slots, k)
    }

    /** What following one more use of an address comes to. */
    twostate predicate Followed(at: nat)
      reads this
    {
      && Sound() && Grows(old(k), k) && NewlyDone(code, slots, old(k), k) && TouchesBelow(code, old(k), k, at)
    }

    ghost method StartTracking(at: nat, c: int)
      requires Sound() && MayTrack(at, c)
      modifies `k
      ensures k == Track(old(k), at, c) && Sound()
    {
      ghost var before := k;
      k := Track(k, at, c);
      TrackSound(code, slots, before, at, c);
    }

    method PlanGep(at: nat, plan: Plan)
      requires Sound() && at < |code| && !Touched(k, at) && Justified(code, slots, k, at, Replaced(plan))
      modifies this
      ensures Followed(at) && at in k.plans && k.plans[at] == plan
    {
      hide Grounded, Rooted, NewlyDone, TouchesBelow, Justified;
      PlanSound(code, slots, k, at, plan);
      OneMorePlan(gepPlans, intPlans, k.plans, at, plan);
      hide ListsPlans;
      gepPlans := gepPlans + [(at, plan)];
      k := k.(plans := k.plans[at := plan]);
    }

    method PlanInt(at: nat, plan: Plan)
      requires Sound() && at < |code| && !Touched(k, at) && Justified(code, slots, k, at, Replaced(plan))
      modifies this
      ensures Followed(at) && at in k.plans && k.plans[at] == plan
    {
      hide Grounded, Rooted, NewlyDone, TouchesBelow, Justified;
      PlanSound(code, slots, k, at, plan);
      OneMorePlan(gepPlans, intPlans, k.plans, at, plan);
      hide ListsPlans;
      intPlans := intPlans + [(at, plan)];
      k := k.(plans := k.plans[at := plan]);
    }

    // ---- the classifiers ----

    /** The use of `id` by instruction `at` is refused. */
    lemma Refuse(id: nat, at: nat)
      requires Sound() && id in k.tracked && id < |code| && at < |code| && Uses(code[at], id)
      requires SourceUse(slots, FormOf(code[id]), code[at], id, k.tracked[id]) == Bad
      ensures Failed()
    {
      RefusesTheOthers(slots, code[id], code[at], id, k.tracked[id]);
      hide Uses, UseAllowed, SourceUse, FormOf, Grounded;
      assert RefusedAt(code, slots, k, id, at);
    }

    /** An address at byte `total`: inside a slot it is planned, outside it is followed. */
    method ClassifyGep(at: nat, total: int) returns (ok: bool)
      requires WellFormedCode(code) && Sound() && at < |code| && !Touched(k, at)
      requires Justified(code, slots, k, at, AddressAt(slots, total)) && code[at].GepConst?
      modifies this
      ensures ok ==> Followed(at) && Accepts(AddressAt(slots, total), at, k)
      ensures !ok ==> Failed()
      decreases |code| - at, 1
    {
      hide Grounded, Rooted, ListsPlans, NewlyDone, TouchesBelow, Grows, UseOf, SourceUse, WellFormedCode, Refused;
      var s := FindSlot(slots, total);
      if s.Some? {
        PlanGep(at, Plan(s.value, total - slots[s.value].Start(), None));
        ok := true;
      } else {
        ok := ClassifyPtr(at, total);
      }
    }

    /** A variable index is attributed to the slot that its constant base points into. */
    method ClassifyVariableGep(at: nat, p: nat, c: int) returns (ok: bool)
      requires Sound() && at < |code| && !Touched(k, at) && code[at].GepVar?
      requires p in k.tracked && k.tracked[p] == c && code[at].p == Var(p) && p < |code| && FormOf(code[p]).Pointer?
      modifies this
      ensures ok ==> Followed(at) && Accepts(UseOf(slots, code[at], p, c), at, k)
      ensures !ok ==> Failed()
    {
      hide Grounded, Rooted, ListsPlans, NewlyDone, TouchesBelow, Grows, Norm, SlotAt;
      var i := code[at];
      if !i.canonical || i.base.None? || i.idx == Var(p) {
        Refuse(p, at);
        return false;
      }
      var total := Norm(c + i.base.value);
      var s := FindSlot(slots, total);
      if s.None? {
        Refuse(p, at);
        return false;
      }
      var plan := Plan(s.value, total - slots[s.value].Start(), Some(i.idx));
      assert UseOf(slots, i, p, c) == Replaced(plan) && Derives(i, p);
      PlanGep(at, plan);
      return true;
    }

    /** Every use of a pointer known to be byte c of the frame block. */
    method ClassifyPtr(p: nat, c: int) returns (ok: bool)
      requires WellFormedCode(code) && Sound() && MayTrack(p, c) && FormOf(code[p]).Pointer?
      modifies this
      ensures ok ==> Followed(p) && p in k.tracked && k.tracked[p] == c
      ensures !ok ==> Failed()
      decreases |code| - p, 0
    {
      ghost var k0 := k;
      StartTracking(p, c);
      GoingBegins(code, slots, k0, p, c);
      hide WellFormedCode, Grounded, Rooted, ListsPlans, NewlyDone, TouchesBelow, Grows;
      for i := 0 to |code|
        invariant Sound() && Going(code, slots, k0, k, p, c, i)
      {
        ghost var before := k;
        if Uses(code[i], p) {
          ok := ClassifyPtrUse(i, p, c, k0);
          if !ok { return; }
        } else {
          GoingPasses(code, slots, k0, k, p, c, i);
        }
      }
      GoingEnds(code, slots, k0, k, p, c);
      ok := true;
    }

    method ClassifyPtrUse(i: nat, p: nat, c: int, ghost k0: Classified) returns (ok: bool)
      requires WellFormedCode(code) && Sound() && i < |code| && Uses(code[i], p) && p !in k0.tracked && p < |code|
      requires FormOf(code[p]).Pointer?
      requires Going(code, slots, k0, k, p, c, i)
      modifies this
      ensures ok ==> Sound() && Going(code, slots, k0, k, p, c, i + 1)
      ensures !ok ==> Failed()
      decreases |code| - p, 0, 0
    {
      hide Grounded, Rooted, ListsPlans, NewlyDone, TouchesBelow, Grows, Justified;
      ghost var before := k;
      var inst := code[i];
      ok := true;
      if (inst.GepConst? || inst.GepVar? || inst.PtrToInt?) && inst.p == Var(p) {
        assert Derives(inst, p);
        ok := FollowPointer(i, p, c);
        if ok { GoingFollows(code, slots, k0, before, k, p, c, i); }
      } else if inst.Load? || (inst.Store? && inst.p == Var(p)) {
        var s := FindSlot(slots, c);
        ok := s.None?;
        if ok { GoingPasses(code, slots, k0, k, p, c, i); } else { Refuse(p, i); }
      } else if inst.Call? || inst.ICmp? {
        GoingPasses(code, slots, k0, k, p, c, i);
      } else {
        ok := false;
        Refuse(p, i);
      }
    }

    method FollowPointer(i: nat, p: nat, c: int) returns (ok: bool)
      requires WellFormedCode(code) && Sound() && i < |code| && p < i && !Touched(k, i) && FormOf(code[p]).Pointer?
      requires code[i].GepConst? || code[i].GepVar? || code[i].PtrToInt?
      requires p in k.tracked && k.tracked[p] == c && code[i].p == Var(p)
      modifies this
      ensures ok ==> Followed(i) && Accepts(SourceUse(slots, FormOf(code[p]), code[i], p, c), i, k)
      ensures !ok ==> Failed()
      decreases |code| - i, 2
    {
      hide Grounded, Rooted, ListsPlans, NewlyDone, TouchesBelow, Grows, Norm, AddressAt, Refused;
      var inst := code[i];
      assert Derives(inst, p);
      if inst.GepConst? {
        assert UseOf(slots, inst, p, c) == AddressAt(slots, Norm(c + inst.k));
        ok := ClassifyGep(i, Norm(c + inst.k));
      } else if inst.GepVar? {
        ok := ClassifyVariableGep(i, p, c);
      } else {
        assert UseOf(slots, inst, p, c) == Tracked(c);
        ok := ClassifyIntUses(i, c);
      }
    }

    /** The integer uses of a frame address: constant sums and conversions back. */
    method ClassifyIntUses(pti: nat, c: int) returns (ok: bool)
      requires WellFormedCode(code) && Sound() && MayTrack(pti, c) && code[pti].PtrToInt?
      modifies this
      ensures ok ==> Followed(pti) && pti in k.tracked && k.tracked[pti] == c
      ensures !ok ==> Failed()
      decreases |code| - pti, 0
    {
      ghost var k0 := k;
      StartTracking(pti, c);
      GoingBegins(code, slots, k0, pti, c);
      hide WellFormedCode, Grounded, Rooted, ListsPlans, NewlyDone, TouchesBelow, Grows;
      for i := 0 to |code|
        invariant Sound() && Going(code, slots, k0, k, pti, c, i)
      {
        if Uses(code[i], pti) {
          ok := ClassifyIntUse(i, pti, c, k0);
          if !ok { return; }
        } else {
          GoingPasses(code, slots, k0, k, pti, c, i);
        }
      }
      GoingEnds(code, slots, k0, k, pti, c);
      ok := true;
    }

    method ClassifyIntUse(i: nat, pti: nat, c: int, ghost k0: Classified) returns (ok: bool)
      requires WellFormedCode(code) && Sound() && i < |code| && Uses(code[i], pti) && pti !in k0.tracked
      requires pti < |code| && code[pti].PtrToInt?
      requires Going(code, slots, k0, k, pti, c, i)
      modifies this
      ensures ok ==> Sound() && Going(code, slots, k0, k, pti, c, i + 1)
      ensures !ok ==> Failed()
      decreases |code| - pti, 0, 0
    {
      hide Grounded, Rooted, ListsPlans, NewlyDone, TouchesBelow, Grows, Justified;
      ghost var before := k;
      var inst := code[i];
      ok := true;
      if inst.AddConst? || inst.IntToPtr? {
        var total := if inst.AddConst? then Norm(c + inst.k) else c;
        assert Derives(inst, pti) && UseOf(slots, inst, pti, c) == AddressAt(slots, total);
        ok := ClassifyAddr(i, total);
        if ok { GoingFollows(code, slots, k0, before, k, pti, c, i); }
      } else if inst.ICmp? {
        GoingPasses(code, slots, k0, k, pti, c, i);
      } else {
        ok := false;
        Refuse(pti, i);
      }
    }

    /** An integer address at byte `total`: planned inside a slot; outside, only conversions
        to a pointer and comparisons may use it. */
    method ClassifyAddr(inst: nat, total: int) returns (ok: bool)
      requires WellFormedCode(code) && Sound() && inst < |code| && !Touched(k, inst)
      requires Justified(code, slots, k, inst, AddressAt(slots, total)) && (code[inst].AddConst? || code[inst].IntToPtr?)
      modifies this
      ensures ok ==> Followed(inst) && Accepts(AddressAt(slots, total), inst, k)
      ensures !ok ==> Failed()
      decreases |code| - inst, 1
    {
      var s := FindSlot(slots, total);
      if s.Some? {
        PlanInt(inst, Plan(s.value, total - slots[s.value].Start(), None));
        ok := true;
      } else if code[inst].IntToPtr? {
        ok := ClassifyPtr(inst, total);
      } else {
        ok := ClassifyResidual(inst, total);
      }
    }

    method ClassifyResidual(inst: nat, total: int) returns (ok: bool)
      requires WellFormedCode(code) && Sound() && MayTrack(inst, total) && SlotAt(slots, total).None? && code[inst].AddConst?
      modifies this
      ensures ok ==> Followed(inst) && inst in k.tracked && k.tracked[inst] == total
      ensures !ok ==> Failed()
      decreases |code| - inst, 0
    {
      ghost var k0 := k;
      StartTracking(inst, total);
      GoingBegins(code, slots, k0, inst, total);
      hide WellFormedCode, Grounded, Rooted, ListsPlans, NewlyDone, TouchesBelow, Grows;
      for i := 0 to |code|
        invariant Sound() && Going(code, slots, k0, k, inst, total, i)
      {
        if Uses(code[i], inst) {
          ok := ClassifyResidualUse(i, inst, total, k0);
          if !ok { return; }
        } else {
          GoingPasses(code, slots, k0, k, inst, total, i);
        }
      }
      GoingEnds(code, slots, k0, k, inst, total);
      ok := true;
    }

    method ClassifyResidualUse(i: nat, inst: nat, total: int, ghost k0: Classified) returns (ok: bool)
      requires WellFormedCode(code) && Sound() && i < |code| && Uses(code[i], inst) && inst !in k0.tracked
      requires inst < |code| && code[inst].AddConst?
      requires Going(code, slots, k0, k, inst, total, i) && SlotAt(slots, total).None?
      modifies this
      ensures ok ==> Sound() && Going(code, slots, k0, k, inst, total, i + 1)
      ensures !ok ==> Failed()
      decreases |code| - inst, 0, 0
    {
      hide Grounded, Rooted, ListsPlans, NewlyDone, TouchesBelow, Grows, Refused;
      ghost var before := k;
      ok := true;
      if code[i].IntToPtr? {
        assert Derives(code[i], inst) && UseOf(slots, code[i], inst, total) == Tracked(total);
        ok := ClassifyPtr(i, total);
        if ok { GoingFollows(code, slots, k0, before, k, inst, total, i); }
      } else if code[i].ICmp? {
        GoingPasses(code, slots, k0, k, inst, total, i);
      } else {
        ok := false;
        Refuse(inst, i);
      }
    }
  }

  lemma JustifiedGrows(f: Code, slots: seq<StackSlot>, k: Classified, k': Classified, at: nat, use: Use)
    requires Grows(k, k') && Justified(f, slots, k, at, use)
    ensures Justified(f, slots, k', at, use)
    ensures at < |f| && exists id :: id in k'.tracked && Derives(f[at], id)
  {
    hide UseOf, Derives;
    var id :| id in k.tracked && at < |f| && Derives(f[at], id) && UseOf(slots, f[at], id, k.tracked[id]) == use;
    assert id in k'.tracked && k'.tracked[id] == k.tracked[id];
  }

  lemma GroundedGrows(f: Code, slots: seq<StackSlot>, k: Classified, k': Classified, at: nat)
    requires Grounded(f, slots, k) && Rooted(f, k) && Grows(k, k')
    requires forall x: nat :: Touched(k', x) && !Touched(k, x) ==> x == at
    requires forall x :: x in k'.tracked && x in k.plans ==> x in k.tracked
    requires forall x :: x in k'.plans && x in k.tracked ==> x in k.plans
    requires at in k'.tracked && at !in k.tracked ==> RootOrJustified(f, slots, k, at, k'.tracked[at])
    requires at in k'.plans && at !in k.plans ==> Justified(f, slots, k, at, Replaced(k'.plans[at]))
    ensures Grounded(f, slots, k') && Rooted(f, k')
  {
    hide Justified;
    forall x | x in k'.tracked ensures RootOrJustified(f, slots, k', x, k'.tracked[x]) {
      assert Touched(k', x);
      assert RootOrJustified(f, slots, k, x, k'.tracked[x]);
      if !(x == 0 && k'.tracked[x] == 0) { JustifiedGrows(f, slots, k, k', x, Tracked(k'.tracked[x])); }
    }
    forall x | x in k'.plans ensures Justified(f, slots, k', x, Replaced(k'.plans[x])) {
      assert Touched(k', x);
      JustifiedGrows(f, slots, k, k', x, Replaced(k'.plans[x]));
    }
    forall x: nat | Touched(k', x) && x != 0 ensures x < |f| && exists id :: id in k'.tracked && Derives(f[x], id) {
      if x in k'.tracked {
        JustifiedGrows(f, slots, k', k', x, Tracked(k'.tracked[x]));
      } else {
        JustifiedGrows(f, slots, k', k', x, Replaced(k'.plans[x]));
      }
    }
  }

  lemma TrackSound(f: Code, slots: seq<StackSlot>, k: Classified, at: nat, c: int)
    requires Grounded(f, slots, k) && Rooted(f, k) && at < |f| && !Touched(k, at)
    requires RootOrJustified(f, slots, k, at, c)
    ensures Grounded(f, slots, Track(k, at, c)) && Rooted(f, Track(k, at, c)) && Grows(k, Track(k, at, c))
  {
    hide Grounded, Rooted, Justified;
    GroundedGrows(f, slots, k, Track(k, at, c), at);
  }

  lemma PlanSound(f: Code, slots: seq<StackSlot>, k: Classified, at: nat, plan: Plan)
    requires Grounded(f, slots, k) && Rooted(f, k) && at < |f| && !Touched(k, at)
    requires Justified(f, slots, k, at, Replaced(plan))
    ensures var k' := k.(plans := k.plans[at := plan]);
            && Grounded(f, slots, k') && Rooted(f, k') && Grows(k, k')
            && NewlyDone(f, slots, k, k') && TouchesBelow(f, k, k', at)
  {
    hide Grounded, Rooted, Justified;
    GroundedGrows(f, slots, k, k.(plans := k.plans[at := plan]), at);
  }
}
