/** The frame slots that the backend reports, and the list of them that stack splitting
    relies on. */
module Slots {
  import opened Options

  /** Where r10 points, counted from the start of the lifted frame block. */
  const FRAME_TOP: int := 1024

  /** An alloca's place in the frame; the offset is relative to r10. */
  datatype StackSlot = StackSlot(offset: int, size: nat, align: nat, srcLine: nat) {
    function Start(): int { FRAME_TOP + offset }

    function End(): int { FRAME_TOP + offset + size }

    predicate Covers(c: int) { Start() <= c < End() }

    predicate InFrame() { size > 0 && offset < 0 && Start() >= 0 }
  }

  /** What the backend knows about one frame object. */
  datatype FrameObject = FrameObject(dead: bool, fromAlloca: bool, line: Option<nat>, offset: int, size: int, align: nat) {
    predicate Usable() {
      !dead && fromAlloca && line.Some? && size > 0 && offset < 0 && FRAME_TOP + offset >= 0
    }

    function Slot(): StackSlot
      requires Usable()
    {
      StackSlot(offset, size, align, line.value)
    }
  }

  predicate Disjoint(a: StackSlot, b: StackSlot) { a.End() <= b.Start() || b.End() <= a.Start() }

  predicate PairwiseDisjoint(slots: seq<StackSlot>) {
    forall i, j :: 0 <= i < j < |slots| ==> Disjoint(slots[i], slots[j])
  }

  predicate Sorted(slots: seq<StackSlot>) {
    forall i, j :: 0 <= i < j < |slots| ==> slots[i].offset <= slots[j].offset
  }

  /** The slots of the usable objects, in order. */
  function UsableSlots(objects: seq<FrameObject>): seq<StackSlot> {
    if objects == [] then []
    else
      var last := objects[|objects| - 1];
      UsableSlots(objects[..|objects| - 1]) + if last.Usable() then [last.Slot()] else []
  }

  method Collect(objects: seq<FrameObject>) returns (slots: seq<StackSlot>)
    ensures slots == UsableSlots(objects)
    ensures forall s <- slots :: s.InFrame()
  {
    slots := [];
    for i := 0 to |objects|
      invariant slots == UsableSlots(objects[..i])
      invariant forall s <- slots :: s.InFrame()
    {
      assert objects[..i + 1][..i] == objects[..i];
      if objects[i].Usable() { slots := slots + [objects[i].Slot()]; }
    }
    assert objects[..|objects|] == objects;
  }

  /** Sorts by offset; nothing is promised about slots with equal offsets. */
  method SortByOffset(input: seq<StackSlot>) returns (slots: seq<StackSlot>)
    ensures Sorted(slots) && multiset(slots) == multiset(input)
  {
    slots := [];
    for i := 0 to |input|
      invariant Sorted(slots) && multiset(slots) == multiset(input[..i])
    {
      assert input[..i + 1] == input[..i] + [input[i]];
      slots := Insert(slots, input[i]);
    }
    assert input[..|input|] == input;
  }

  method Insert(slots: seq<StackSlot>, s: StackSlot) returns (r: seq<StackSlot>)
    requires Sorted(slots)
    ensures Sorted(r) && multiset(r) == multiset(slots) + multiset{s}
  {
    var k := 0;
    while k < |slots| && slots[k].offset <= s.offset
      invariant 0 <= k <= |slots|
      invariant forall j :: 0 <= j < k ==> slots[j].offset <= s.offset
    {
      k := k + 1;
    }
    assert slots == slots[..k] + slots[k..];
    r := slots[..k] + [s] + slots[k..];
  }

  /** The first i slots end before any later slot starts. */
  predicate Settled(slots: seq<StackSlot>, i: nat)
    requires i <= |slots|
  {
    forall a, b :: 0 <= a < i && a < b < |slots| ==> slots[a].End() <= slots[b].Start()
  }

  function WithoutPair(slots: seq<StackSlot>, i: nat): seq<StackSlot>
    requires i + 1 < |slots|
  {
    slots[..i] + slots[i + 2..]
  }

  lemma ErasePair(slots: seq<StackSlot>, i: nat)
    requires i + 1 < |slots| && Sorted(slots) && Settled(slots, i)
    ensures Sorted(WithoutPair(slots, i)) && Settled(WithoutPair(slots, i), i)
    ensures multiset(WithoutPair(slots, i)) <= multiset(slots)
  {
    assert slots == slots[..i] + ([slots[i], slots[i + 1]] + slots[i + 2..]);
  }

  lemma SettleOne(slots: seq<StackSlot>, i: nat)
    requires i + 1 < |slots| && Sorted(slots) && Settled(slots, i) && slots[i].End() <= slots[i + 1].Start()
    ensures Settled(slots, i + 1)
  {
    forall b | i < b < |slots| ensures slots[i].End() <= slots[b].Start() {
      assert slots[i + 1].offset <= slots[b].offset;
    }
  }

  /** The slot overlaps another one of the list, or a copy of itself. */
  ghost predicate Overlapped(all: multiset<StackSlot>, s: StackSlot) {
    exists t :: t in all && !Disjoint(s, t) && (t != s || all[s] > 1)
  }

  /** Slots are left out only where slots overlap. */
  ghost predicate LeavesOutOverlaps(all: multiset<StackSlot>, kept: multiset<StackSlot>) {
    forall s :: s in all ==> kept[s] == all[s] || Overlapped(all, s)
  }

  /** The slots of the pairs. */
  function SlotsOf(pairs: seq<(StackSlot, StackSlot)>): multiset<StackSlot> {
    if pairs == [] then multiset{}
    else SlotsOf(pairs[..|pairs| - 1]) + multiset{pairs[|pairs| - 1].0, pairs[|pairs| - 1].1}
  }

  /** What is not kept went in pairs of overlapping slots, both of each pair. */
  ghost predicate PairedOff(all: multiset<StackSlot>, kept: multiset<StackSlot>, pairs: seq<(StackSlot, StackSlot)>) {
    all == kept + SlotsOf(pairs) && forall e <- pairs :: e.0.End() > e.1.Start() && e.0.Start() <= e.1.Start()
  }

  /** Erasing a neighbouring pair takes away those two slots. */
  lemma PairTaken(slots: seq<StackSlot>, i: nat)
    requires i + 1 < |slots|
    ensures multiset(slots) == multiset(WithoutPair(slots, i)) + multiset{slots[i], slots[i + 1]}
  {
    var low, pair, high := slots[..i], [slots[i], slots[i + 1]], slots[i + 2..];
    assert slots == low + (pair + high);
    assert multiset(slots) == multiset(low) + (multiset(pair) + multiset(high));
    assert multiset(WithoutPair(slots, i)) == multiset(low) + multiset(high);
  }

  lemma {:induction false} SlotsOfMore(pairs: seq<(StackSlot, StackSlot)>, a: StackSlot, b: StackSlot)
    ensures SlotsOf(pairs + [(a, b)]) == SlotsOf(pairs) + multiset{a, b}
  {
    assert (pairs + [(a, b)])[..|pairs|] == pairs;
  }

  lemma OnePairMore(all: multiset<StackSlot>, slots: seq<StackSlot>, i: nat, pairs: seq<(StackSlot, StackSlot)>)
    requires i + 1 < |slots| && slots[i].offset <= slots[i + 1].offset && slots[i].End() > slots[i + 1].Start()
    requires PairedOff(all, multiset(slots), pairs)
    ensures PairedOff(all, multiset(WithoutPair(slots, i)), pairs + [(slots[i], slots[i + 1])])
  {
    hide SlotsOf, WithoutPair;
    PairTaken(slots, i);
    SlotsOfMore(pairs, slots[i], slots[i + 1]);
  }

  predicate Proper(slots: seq<StackSlot>) { forall s <- slots :: s.size > 0 }

  lemma PairOverlaps(all: multiset<StackSlot>, slots: seq<StackSlot>, i: nat)
    requires i + 1 < |slots| && Sorted(slots) && Proper(slots) && slots[i].End() > slots[i + 1].Start()
    requires multiset(slots) <= all && LeavesOutOverlaps(all, multiset(slots))
    ensures Proper(WithoutPair(slots, i)) && LeavesOutOverlaps(all, multiset(WithoutPair(slots, i)))
  {
    var a, b, rest := slots[i], slots[i + 1], WithoutPair(slots, i);
    PairTaken(slots, i);
    assert forall s :: s in rest ==> s in slots;
    assert a in slots && b in slots && a in multiset(slots) && b in multiset(slots) && !Disjoint(a, b) && !Disjoint(b, a);
    assert Overlapped(all, a) && Overlapped(all, b);
  }

  /** Both slots of an overlapping neighbouring pair go; what remains is disjoint, also from
      neighbours that only meet when the slots between them are gone. A slot that overlapped
      one already erased can survive. */
  method EraseOverlaps(sorted: seq<StackSlot>) returns (slots: seq<StackSlot>, ghost pairs: seq<(StackSlot, StackSlot)>)
    requires Sorted(sorted)
    ensures Sorted(slots) && PairwiseDisjoint(slots)
    ensures multiset(slots) <= multiset(sorted)
    ensures Proper(sorted) ==> LeavesOutOverlaps(multiset(sorted), multiset(slots))
    ensures PairedOff(multiset(sorted), multiset(slots), pairs)
  {
    slots := sorted;
    pairs := [];
    var i := 0;
    while i + 1 < |slots|
      invariant 0 <= i <= |slots| && Sorted(slots) && Settled(slots, i)
      invariant multiset(slots) <= multiset(sorted)
      invariant PairedOff(multiset(sorted), multiset(slots), pairs)
      invariant Proper(sorted) ==> Proper(slots) && LeavesOutOverlaps(multiset(sorted), multiset(slots))
      decreases 2 * |slots| - i
    {
      if slots[i].End() > slots[i + 1].Start() {
        ErasePair(slots, i);
        OnePairMore(multiset(sorted), slots, i, pairs);
        pairs := pairs + [(slots[i], slots[i + 1])];
        if Proper(sorted) { PairOverlaps(multiset(sorted), slots, i); }
        slots := WithoutPair(slots, i);
      } else {
        SettleOne(slots, i);
        i := i + 1;
      }
    }
  }

  // ---------------------------------------------------------------- slots and frame objects, field by field

  /** A frame object that backs an alloca of a known line, not removed, and lies below r10 from inside the frame on. */
  predicate BacksAlloca(o: FrameObject) {
    !o.dead && o.fromAlloca && o.line.Some? && o.size > 0 && -1024 <= o.offset < 0
  }

  predicate Describes(s: StackSlot, o: FrameObject) {
    s.offset == o.offset && s.size == o.size && s.align == o.align && o.line == Some(s.srcLine)
  }

  /** The objects have no byte of the frame in common. */
  predicate Apart(o: FrameObject, q: FrameObject) { o.offset + o.size <= q.offset || q.offset + q.size <= o.offset }

  /** The object shares no byte with another alloca's. */
  predicate StandsAlone(objects: seq<FrameObject>, i: nat)
    requires i < |objects|
  {
    forall j :: 0 <= j < |objects| && j != i && BacksAlloca(objects[j]) ==> Apart(objects[i], objects[j])
  }

  lemma UsableMeans(o: FrameObject)
    ensures o.Usable() <==> BacksAlloca(o)
    ensures o.Usable() ==> forall s :: Describes(s, o) <==> s == o.Slot()
  {
  }

  lemma {:induction false} UsableSlotsMean(objects: seq<FrameObject>, s: StackSlot)
    ensures s in UsableSlots(objects) <==> exists o <- objects :: BacksAlloca(o) && Describes(s, o)
    decreases |objects|
  {
    if objects != [] {
      var front, last := objects[..|objects| - 1], objects[|objects| - 1];
      UsableSlotsMean(front, s);
      UsableMeans(last);
      assert forall o :: o in objects <==> o in front || o == last;
      hide Describes, BacksAlloca;
    }
  }

  lemma {:induction false} NoneAlike(front: seq<FrameObject>, o: FrameObject, s: StackSlot)
    requires Describes(s, o) && o.size > 0 && forall q <- front :: BacksAlloca(q) ==> Apart(o, q)
    ensures s !in UsableSlots(front)
  {
    UsableSlotsMean(front, s);
    hide UsableSlots;
  }

  lemma {:induction false} CountedOnce(objects: seq<FrameObject>, i: nat, s: StackSlot)
    requires i < |objects| && BacksAlloca(objects[i]) && Describes(s, objects[i]) && StandsAlone(objects, i)
    ensures multiset(UsableSlots(objects))[s] == 1
    decreases |objects|
  {
    var n := |objects| - 1;
    var front, last := objects[..n], objects[n];
    assert UsableSlots(objects) == UsableSlots(front) + if last.Usable() then [last.Slot()] else [];
    UsableMeans(last);
    if i == n {
      forall q | q in front && BacksAlloca(q) ensures Apart(objects[i], q) {
        var j :| 0 <= j < n && front[j] == q;
        assert objects[j] == q;
      }
      NoneAlike(front, objects[i], s);
      hide UsableSlots;
      assert multiset(UsableSlots(front))[s] == 0;
    } else {
      assert front[i] == objects[i];
      assert BacksAlloca(last) ==> !Describes(s, last);
      hide UsableSlots, Describes, BacksAlloca;
      CountedOnce(front, i, s);
    }
  }

  lemma {:induction false} AloneIsNotOverlapped(objects: seq<FrameObject>, i: nat, s: StackSlot)
    requires i < |objects| && BacksAlloca(objects[i]) && Describes(s, objects[i]) && StandsAlone(objects, i)
    ensures s in multiset(UsableSlots(objects)) && !Overlapped(multiset(UsableSlots(objects)), s)
  {
    var all := multiset(UsableSlots(objects));
    CountedOnce(objects, i, s);
    forall t | t in all && t != s ensures Disjoint(s, t) {
      assert t in UsableSlots(objects);
      UsableSlotsMean(objects, t);
      var j :| 0 <= j < |objects| && BacksAlloca(objects[j]) && Describes(t, objects[j]);
      assert j != i;
    }
    hide UsableSlots;
  }

  /** Slots kept from those of the objects, but for overlapping ones: each describes an object, and each object that
      stands alone has its slot. */
  lemma {:induction false} KeptMeans(objects: seq<FrameObject>, slots: seq<StackSlot>)
    requires multiset(slots) <= multiset(UsableSlots(objects))
    requires LeavesOutOverlaps(multiset(UsableSlots(objects)), multiset(slots))
    ensures forall s <- slots :: exists o <- objects :: BacksAlloca(o) && Describes(s, o)
    ensures forall i :: 0 <= i < |objects| && BacksAlloca(objects[i]) && StandsAlone(objects, i) ==>
              exists s <- slots :: Describes(s, objects[i])
  {
    var all := multiset(UsableSlots(objects));
    forall s | s in slots ensures exists o <- objects :: BacksAlloca(o) && Describes(s, o) {
      assert s in multiset(slots) && s in all;
      assert s in UsableSlots(objects);
      UsableSlotsMean(objects, s);
    }
    forall i | 0 <= i < |objects| && BacksAlloca(objects[i]) && StandsAlone(objects, i)
      ensures exists s <- slots :: Describes(s, objects[i])
    {
      var s := StackSlot(objects[i].offset, objects[i].size, objects[i].align, objects[i].line.value);
      AloneIsNotOverlapped(objects, i, s);
      assert multiset(slots)[s] > 0;
      assert s in multiset(slots) && s in slots;
    }
  }

  /** From frame objects to the slots that are handed on: all usable ones, but for those that overlap. */
  method FrameSlots(objects: seq<FrameObject>) returns (slots: seq<StackSlot>, ghost pairs: seq<(StackSlot, StackSlot)>)
    ensures Sorted(slots) && PairwiseDisjoint(slots)
    ensures multiset(slots) <= multiset(UsableSlots(objects))
    ensures LeavesOutOverlaps(multiset(UsableSlots(objects)), multiset(slots))
    ensures PairedOff(multiset(UsableSlots(objects)), multiset(slots), pairs)
    ensures forall s <- slots :: s.InFrame()
    ensures forall s <- slots :: exists o <- objects :: BacksAlloca(o) && Describes(s, o)
    ensures forall i :: 0 <= i < |objects| && BacksAlloca(objects[i]) && StandsAlone(objects, i) ==>
              exists s <- slots :: Describes(s, objects[i])
  {
    var usable := Collect(objects);
    var sorted := SortByOffset(usable);
    forall s | s in sorted ensures s.size > 0 {
      assert s in multiset(sorted) && s in multiset(usable);
      assert s in usable && s.InFrame();
    }
    slots, pairs := EraseOverlaps(sorted);
    assert multiset(sorted) == multiset(usable);
    KeptMeans(objects, slots);
    hide BacksAlloca, Describes, StandsAlone, LeavesOutOverlaps, PairedOff, UsableSlots, Sorted, PairwiseDisjoint;
    forall s | s in slots ensures s.InFrame() {
      assert s in multiset(slots) && s in multiset(sorted) && s in multiset(usable);
    }
  }

  // ---------------------------------------------------------------- looking an offset up

  /** The first slot in the list that covers frame byte c. */
  function SlotAt(slots: seq<StackSlot>, c: int): (r: Option<nat>)
    ensures r.Some? ==> r.value < |slots| && slots[r.value].Covers(c)
    ensures r.None? ==> forall s <- slots :: !s.Covers(c)
  {
    if slots == [] then None
    else if slots[0].Covers(c) then Some(0)
    else
      var r :- SlotAt(slots[1..], c);
      Some(r + 1)
  }

  method FindSlot(slots: seq<StackSlot>, c: int) returns (r: Option<nat>)
    ensures r == SlotAt(slots, c)
  {
    var k := 0;
    while k < |slots|
      invariant 0 <= k <= |slots|
      invariant SlotAt(slots, c) == if SlotAt(slots[k..], c).Some? then Some(SlotAt(slots[k..], c).value + k) else None
    {
      assert slots[k..][1..] == slots[k + 1..];
      if slots[k].Covers(c) { return Some(k); }
      k := k + 1;
    }
    return None;
  }

  /** In a disjoint list at most one slot covers a byte. */
  lemma {:induction false} CoverIsUnique(slots: seq<StackSlot>, i: nat, c: int)
    requires PairwiseDisjoint(slots) && i < |slots| && slots[i].Covers(c)
    ensures SlotAt(slots, c) == Some(i)
  {
    assert slots[i] in slots;
    forall j | 0 <= j < |slots| && j != i ensures !slots[j].Covers(c) {
      assert if j < i then Disjoint(slots[j], slots[i]) else Disjoint(slots[i], slots[j]);
    }
  }

  /** So the slot found does not depend on the order of the list. */
  lemma {:induction false} LookupIgnoresOrder(a: seq<StackSlot>, b: seq<StackSlot>, c: int)
    requires PairwiseDisjoint(a) && PairwiseDisjoint(b) && multiset(a) == multiset(b)
    ensures SlotAt(a, c).Some? <==> SlotAt(b, c).Some?
    ensures SlotAt(a, c).Some? ==> a[SlotAt(a, c).value] == b[SlotAt(b, c).value]
  {
    if SlotAt(a, c).Some? {
      var s := a[SlotAt(a, c).value];
      assert s in multiset(a) && s in multiset(b);
      var i :| 0 <= i < |b| && b[i] == s;
      CoverIsUnique(b, i, c);
    } else {
      forall s | s in b ensures !s.Covers(c) {
        assert s in multiset(b) && s in multiset(a);
        assert s in a;
      }
    }
  }
}
