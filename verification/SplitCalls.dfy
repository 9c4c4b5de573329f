/** Calls: the callee sees the same through each argument, and what it leaves behind keeps the
    memories related. */
module SplitCalls {
  import opened Options
  import opened Words
  import opened Slots
  import opened FrameCode
  import opened StackSplits
  import opened SplitMemory

  lemma {:induction false} ViewRelated(slots: seq<StackSlot>, size: nat, v: Val)
    requires ValidSlots(slots, size) && (v.Frame? ==> SlotAt(slots, v.c).None?)
    ensures ViewOf(slots, true, v).Ok? ==> ViewOf(slots, false, Inj(slots, v)) == ViewOf(slots, true, v)
    ensures ViewOf(slots, true, v).Err? ==> ViewOf(slots, true, v).error == OutOfBounds
  {
    if v.Obj? && v.slot < |slots| && 0 <= v.j < slots[v.slot].size {
      var s := slots[v.slot];
      assert s in slots;
      NormSmall(s.Start() + v.j);
      CoverIsUnique(slots, v.slot, s.Start() + v.j);
    }
  }

  /** No argument is a frame address inside a slot. */
  ghost predicate ArgsOutside(slots: seq<StackSlot>, k: Classified, args: seq<Operand>) {
    forall x <- args :: x.Var? && x.id in k.tracked ==> SlotAt(slots, k.tracked[x.id]).None?
  }

  lemma {:induction false} ViewsRelated(slots: seq<StackSlot>, size: nat, whole: map<nat, Val>, parts: map<nat, Val>,
                                        k: Classified, args: seq<Operand>)
    requires ValidSlots(slots, size) && EnvRelated(slots, whole, parts, k) && ArgsOutside(slots, k, args)
    ensures var r := EvalViews(slots, true, parts, args);
            && (r.Ok? ==> EvalViews(slots, false, whole, args) == r)
            && (r.Err? ==> r.error == OutOfBounds || r.error == Undefined)
            && (r == Err(Undefined) ==> EvalViews(slots, false, whole, args) == r)
    decreases |args|
  {
    hide EnvRelated, ValidSlots, ViewOf, Inj;
    if args != [] {
      var x := args[|args| - 1];
      assert x in args;
      forall y | y in args[..|args| - 1] ensures y in args {}
      ViewsRelated(slots, size, whole, parts, k, args[..|args| - 1]);
      EvalRelated(slots, whole, parts, k, x);
      var r := Eval(parts, x);
      if r.Ok? { ViewRelated(slots, size, r.value); }
    }
  }

  lemma ReachedRelated(slots: seq<StackSlot>, size: nat, whole: Memory, parts: Memory, v: View)
    requires MemRelated(slots, size, whole, parts) && (v.IntoSlot? ==> v.slot < |slots|)
    requires AllPlain(Reached(slots, true, size, parts, v))
    ensures Reached(slots, false, size, whole, v) == Reached(slots, true, size, parts, v)
  {
    var w, p := Reached(slots, false, size, whole, v), Reached(slots, true, size, parts, v);
    if v.IntoSlot? {
      forall j | 0 <= j < |p| ensures w[j] == p[j] {
        assert Look(whole.frame, slots[v.slot].Start() + j) == InjM(slots, Look(parts.objs[v.slot], j));
        assert p[j].Byte?;
      }
      assert w == p;
    } else if v.IntoRest? {
      forall c | 0 <= c < size ensures w[c] == p[c] {
        assert p[c].Byte?;
      }
      assert w == p;
    }
  }

  predicate ViewsValid(slots: seq<StackSlot>, vs: seq<View>) {
    forall v <- vs :: v.IntoSlot? ==> v.slot < |slots|
  }

  lemma AllReachedRelated(slots: seq<StackSlot>, size: nat, whole: Memory, parts: Memory, vs: seq<View>)
    requires MemRelated(slots, size, whole, parts) && ViewsValid(slots, vs)
    requires Visible(ReachedAll(slots, true, size, parts, vs), parts.world)
    ensures ReachedAll(slots, false, size, whole, vs) == ReachedAll(slots, true, size, parts, vs)
    ensures whole.world == parts.world
    ensures Visible(ReachedAll(slots, false, size, whole, vs), whole.world)
  {
    var w, p := ReachedAll(slots, false, size, whole, vs), ReachedAll(slots, true, size, parts, vs);
    forall k | 0 <= k < |vs| ensures w[k] == p[k] {
      assert p[k] in p && vs[k] in vs;
      ReachedRelated(slots, size, whole, parts, vs[k]);
    }
    assert w == p;
    forall a | a in parts.world ensures a in whole.world && whole.world[a] == parts.world[a] {
      assert Look(whole.world, a) == InjM(slots, Look(parts.world, a));
    }
  }

  /** The bytes a callee leaves in one slot, or in the rest of the frame. */
  lemma LeftRelated(slots: seq<StackSlot>, size: nat, whole: Memory, parts: Memory, v: View, left: seq<nat>)
    requires ValidSlots(slots, size) && MemRelated(slots, size, whole, parts) && Clean(parts)
    requires v.IntoSlot? ==> v.slot < |slots|
    ensures MemRelated(slots, size, Left(slots, false, size, whole, v, left), Left(slots, true, size, parts, v, left))
    ensures Clean(Left(slots, true, size, parts, v, left))
  {
    if v.IntoSlot? {
      SlotLeft(slots, size, whole, parts, v.slot, left);
    } else if v.IntoRest? {
      RestLeft(slots, size, whole, parts, v, left);
      RestLeftClean(slots, size, parts, v, left);
    }
  }

  lemma SlotLeft(slots: seq<StackSlot>, size: nat, whole: Memory, parts: Memory, s: nat, left: seq<nat>)
    requires ValidSlots(slots, size) && MemRelated(slots, size, whole, parts) && Clean(parts) && s < |slots|
    ensures forall j :: var v := IntoSlot(s, j);
              && MemRelated(slots, size, Left(slots, false, size, whole, v, left), Left(slots, true, size, parts, v, left))
              && Clean(Left(slots, true, size, parts, v, left))
  {
    hide MemRelated, Clean, ValidSlots;
    PartsHaveObjs(slots, size, whole, parts);
    var bytes := seq(slots[s].size, k requires 0 <= k < slots[s].size => AnswerByte(left, k));
    assert InjMs(slots, bytes) == bytes;
    WriteSlot(slots, size, whole, parts, s, 0, bytes);
    WriteClean(slots, size, parts, InObject(s, 0), bytes);
  }

  lemma RestLeft(slots: seq<StackSlot>, size: nat, whole: Memory, parts: Memory, v: View, left: seq<nat>)
    requires MemRelated(slots, size, whole, parts) && v.IntoRest?
    ensures MemRelated(slots, size, Left(slots, false, size, whole, v, left), Left(slots, true, size, parts, v, left))
  {
    var w, p := Left(slots, false, size, whole, v, left), Left(slots, true, size, parts, v, left);
    forall c | 0 <= c < size && SlotAt(slots, c).None? ensures Look(w.frame, c) == InjM(slots, Look(p.frame, c)) {
      assert Look(w.frame, c) == AnswerByte(left, c) == Look(p.frame, c);
    }
    forall s, j | 0 <= s < |slots| && 0 <= j < slots[s].size
      ensures Look(w.frame, slots[s].Start() + j) == InjM(slots, Look(p.objs[s], j))
    {
      SlotByteStays(slots, size, whole, v, left, s, j);
      assert Look(whole.frame, slots[s].Start() + j) == InjM(slots, Look(parts.objs[s], j));
    }
    assert w.world == whole.world && p.world == parts.world && p.objs == parts.objs;
  }

  lemma SlotByteStays(slots: seq<StackSlot>, size: nat, m: Memory, v: View, left: seq<nat>, s: nat, j: int)
    requires v.IntoRest? && s < |slots| && 0 <= j < slots[s].size
    ensures Look(Left(slots, false, size, m, v, left).frame, slots[s].Start() + j) == Look(m.frame, slots[s].Start() + j)
  {
    assert slots[s] in slots && slots[s].Covers(slots[s].Start() + j);
  }

  lemma RestLeftClean(slots: seq<StackSlot>, size: nat, parts: Memory, v: View, left: seq<nat>)
    requires Clean(parts) && v.IntoRest? && |parts.objs| == |slots|
    ensures Clean(Left(slots, true, size, parts, v, left))
  {
    var p := Left(slots, true, size, parts, v, left);
    forall c | Look(p.frame, c).Fragment? ensures !Look(p.frame, c).v.Frame? {
      assert Look(p.frame, c) == Look(parts.frame, c);
    }
  }

  lemma {:induction false} AllLeftRelated(slots: seq<StackSlot>, size: nat, whole: Memory, parts: Memory, vs: seq<View>,
                                          left: seq<seq<nat>>)
    requires ValidSlots(slots, size) && MemRelated(slots, size, whole, parts) && Clean(parts) && ViewsValid(slots, vs)
    ensures MemRelated(slots, size, LeftAll(slots, false, size, whole, vs, left), LeftAll(slots, true, size, parts, vs, left))
    ensures Clean(LeftAll(slots, true, size, parts, vs, left))
    decreases |vs|
  {
    PartsHaveObjs(slots, size, whole, parts);
    hide MemRelated, Clean, ValidSlots, Left;
    if vs != [] {
      var k := |vs| - 1;
      assert vs[k] in vs;
      forall v | v in vs[..k] ensures v in vs {}
      AllLeftRelated(slots, size, whole, parts, vs[..k], left);
      LeftRelated(slots, size, LeftAll(slots, false, size, whole, vs[..k], left), LeftAll(slots, true, size, parts, vs[..k], left),
                  vs[k], if k < |left| then left[k] else []);
    }
  }

  function PlainWorld(world: map<int, nat>): Bytes { map a | a in world :: Byte(world[a]) }

  lemma NewWorldRelated(slots: seq<StackSlot>, size: nat, whole: Memory, parts: Memory, world: map<int, nat>)
    requires MemRelated(slots, size, whole, parts) && Clean(parts)
    ensures MemRelated(slots, size, whole.(world := PlainWorld(world)), parts.(world := PlainWorld(world)))
    ensures Clean(parts.(world := PlainWorld(world)))
  {
  }

  /** A call: the same result and history, and related memories again. */
  lemma CallRelated(slots: seq<StackSlot>, size: nat, sur: Surroundings, callee: nat, vs: seq<View>,
                    whole: Memory, parts: Memory, calls: seq<Event>)
    requires ValidSlots(slots, size) && MemRelated(slots, size, whole, parts) && Clean(parts)
    requires ViewsValid(slots, vs) && |parts.objs| == |slots|
    ensures var r := CallResult(slots, true, size, sur, callee, vs, parts, calls);
            var w := CallResult(slots, false, size, sur, callee, vs, whole, calls);
            && (r.Err? ==> r.error == Unmodelled)
            && (r.Ok? ==> w.Ok? && w.value.0 == r.value.0 && w.value.2 == r.value.2
                          && MemRelated(slots, size, w.value.1, r.value.1) && Clean(r.value.1))
  {
    hide MemRelated, Clean, ValidSlots, ReachedAll, LeftAll, Visible;
    var reached := ReachedAll(slots, true, size, parts, vs);
    if Visible(reached, parts.world) {
      AllReachedRelated(slots, size, whole, parts, vs);
      var calls' := calls + [Event(callee, vs, reached, parts.world)];
      var answer := sur.callee(calls');
      AllLeftRelated(slots, size, whole, parts, vs, answer.left);
      NewWorldRelated(slots, size, LeftAll(slots, false, size, whole, vs, answer.left),
                      LeftAll(slots, true, size, parts, vs, answer.left), answer.world);
    }
  }
}
