/** Loads, stores and calls in split memory and in whole memory. */
module SplitMemory {
  import opened Options
  import opened Words
  import opened Slots
  import opened FrameCode
  import opened StackSplits

  function InjMs(slots: seq<StackSlot>, ms: seq<MemVal>): (r: seq<MemVal>)
    ensures |r| == |ms| && forall k :: 0 <= k < |ms| ==> r[k] == InjM(slots, ms[k])
  {
    seq(|ms|, k requires 0 <= k < |ms| => InjM(slots, ms[k]))
  }

  // ---------------------------------------------------------------- places

  /** The place in whole memory for a place in split memory. */
  function Home(slots: seq<StackSlot>, at: Place): Place
    requires at.InObject? ==> at.slot < |slots|
  {
    if at.InObject? then InFrame(slots[at.slot].Start() + at.j) else at
  }

  /** An access the rewritten code may make. */
  predicate Allowed(slots: seq<StackSlot>, size: nat, at: Place, n: nat) {
    match at
    case InWorld(_) => true
    case InFrame(c) => 0 <= c && c + n <= size && !TouchesSlot(slots, c, n)
    case InObject(s, j) => s < |slots| && 0 <= j && j + n <= slots[s].size
  }

  /** An allowed access of the rewritten code is at the corresponding place in the original. */
  lemma {:induction false} ReachRelated(slots: seq<StackSlot>, size: nat, v: Val, n: nat)
    requires ValidSlots(slots, size)
    ensures var r := Reach(slots, true, size, v, n);
            && (r.Ok? ==> Allowed(slots, size, r.value, n)
                          && Reach(slots, false, size, Inj(slots, v), n) == Ok(Home(slots, r.value)))
            && (r.Err? ==> r.error == OutOfBounds || r.error == Straddles || r.error == ResidualInSlot)
            && (r == Err(ResidualInSlot) || r == Err(Straddles) ==> v.Frame? && !Clear(slots, v.c, n))
  {
    if v.Obj? && v.slot < |slots| && 0 <= v.j && v.j + n <= slots[v.slot].size {
      assert slots[v.slot] in slots;
      NormSmall(slots[v.slot].Start() + v.j);
    }
  }

  lemma ReadRelated(slots: seq<StackSlot>, size: nat, whole: Memory, parts: Memory, at: Place, n: nat)
    requires ValidSlots(slots, size) && MemRelated(slots, size, whole, parts) && Allowed(slots, size, at, n)
    ensures ReadAt(whole, Home(slots, at), n) == InjMs(slots, ReadAt(parts, at, n))
  {
    var ms, ws := ReadAt(parts, at, n), ReadAt(whole, Home(slots, at), n);
    forall x | 0 <= x < n ensures ws[x] == InjM(slots, ms[x]) {
      ByteRelated(slots, size, whole, parts, at, n, x);
    }
  }

  lemma ByteRelated(slots: seq<StackSlot>, size: nat, whole: Memory, parts: Memory, at: Place, n: nat, x: nat)
    requires MemRelated(slots, size, whole, parts) && Allowed(slots, size, at, n) && x < n
    ensures ReadAt(whole, Home(slots, at), n)[x] == InjM(slots, ReadAt(parts, at, n)[x])
  {
    match at
    case InWorld(a) =>
    case InFrame(c) => assert SlotAt(slots, c + x).None?;
    case InObject(s, j) =>
      assert Look(whole.frame, slots[s].Start() + (j + x)) == InjM(slots, Look(parts.objs[s], j + x));
  }

  /** No byte of one slot is in another. */
  lemma SlotsApart(slots: seq<StackSlot>, s: nat, t: nat, k: int)
    requires PairwiseDisjoint(slots) && s < |slots| && t < |slots| && s != t && 0 <= k < slots[t].size
    ensures !slots[s].Covers(slots[t].Start() + k)
  {
    assert if s < t then Disjoint(slots[s], slots[t]) else Disjoint(slots[t], slots[s]);
  }

  lemma {:induction false} RestOutside(slots: seq<StackSlot>, s: nat, c: int)
    requires s < |slots| && SlotAt(slots, c).None?
    ensures !slots[s].Covers(c)
  {
    assert slots[s] in slots;
  }

  lemma WriteWorld(slots: seq<StackSlot>, size: nat, whole: Memory, parts: Memory, a: int, ms: seq<MemVal>)
    requires MemRelated(slots, size, whole, parts)
    ensures MemRelated(slots, size, whole.(world := Put(whole.world, a, InjMs(slots, ms))), parts.(world := Put(parts.world, a, ms)))
  {
    var w, p := Put(whole.world, a, InjMs(slots, ms)), Put(parts.world, a, ms);
    forall x ensures Look(w, x) == InjM(slots, Look(p, x)) {
      assert Look(whole.world, x) == InjM(slots, Look(parts.world, x));
    }
    assert w.Keys == p.Keys;
  }

  /** An access that touches no slot does not touch byte j of slot s. */
  lemma OutsideAccess(slots: seq<StackSlot>, c: int, n: nat, s: nat, j: int)
    requires !TouchesSlot(slots, c, n) && s < |slots| && 0 <= j < slots[s].size
    ensures !(c <= slots[s].Start() + j < c + n)
  {
    assert slots[s] in slots && slots[s].Covers(slots[s].Start() + j);
    assert SlotAt(slots, slots[s].Start() + j).Some?;
  }

  lemma WriteRest(slots: seq<StackSlot>, size: nat, whole: Memory, parts: Memory, c: int, ms: seq<MemVal>)
    requires MemRelated(slots, size, whole, parts) && Allowed(slots, size, InFrame(c), |ms|)
    ensures MemRelated(slots, size, whole.(frame := Put(whole.frame, c, InjMs(slots, ms))), parts.(frame := Put(parts.frame, c, ms)))
  {
    var w, p := Put(whole.frame, c, InjMs(slots, ms)), Put(parts.frame, c, ms);
    forall x | 0 <= x < size && SlotAt(slots, x).None? ensures Look(w, x) == InjM(slots, Look(p, x)) {
      assert Look(whole.frame, x) == InjM(slots, Look(parts.frame, x));
    }
    forall s, j | 0 <= s < |slots| && 0 <= j < slots[s].size
      ensures Look(w, slots[s].Start() + j) == InjM(slots, Look(parts.objs[s], j))
    {
      assert Look(whole.frame, slots[s].Start() + j) == InjM(slots, Look(parts.objs[s], j));
      OutsideAccess(slots, c, |ms|, s, j);
    }
  }

  lemma WriteSlot(slots: seq<StackSlot>, size: nat, whole: Memory, parts: Memory, s: nat, j: int, ms: seq<MemVal>)
    requires ValidSlots(slots, size) && MemRelated(slots, size, whole, parts) && Allowed(slots, size, InObject(s, j), |ms|)
    ensures MemRelated(slots, size, whole.(frame := Put(whole.frame, slots[s].Start() + j, InjMs(slots, ms))),
                       parts.(objs := parts.objs[s := Put(parts.objs[s], j, ms)]))
  {
    var w := Put(whole.frame, slots[s].Start() + j, InjMs(slots, ms));
    var p := parts.objs[s := Put(parts.objs[s], j, ms)];
    forall x | 0 <= x < size && SlotAt(slots, x).None? ensures Look(w, x) == InjM(slots, Look(parts.frame, x)) {
      RestByteStays(slots, size, whole, parts, s, j, ms, x);
    }
    forall t, k | 0 <= t < |slots| && 0 <= k < slots[t].size
      ensures Look(w, slots[t].Start() + k) == InjM(slots, Look(p[t], k))
    {
      WrittenSlotByte(slots, size, whole, parts, s, j, ms, t, k);
    }
    hide Look, Put, InjM, InjMs, ValidSlots;
  }

  lemma {:induction false} RestByteStays(slots: seq<StackSlot>, size: nat, whole: Memory, parts: Memory, s: nat, j: int,
                                         ms: seq<MemVal>, x: int)
    requires MemRelated(slots, size, whole, parts) && Allowed(slots, size, InObject(s, j), |ms|)
    requires 0 <= x < size && SlotAt(slots, x).None?
    ensures Look(Put(whole.frame, slots[s].Start() + j, InjMs(slots, ms)), x) == InjM(slots, Look(parts.frame, x))
  {
    assert Look(whole.frame, x) == InjM(slots, Look(parts.frame, x));
    hide MemRelated;
    RestOutside(slots, s, x);
  }

  lemma {:induction false} WrittenSlotByte(slots: seq<StackSlot>, size: nat, whole: Memory, parts: Memory, s: nat,
                                           j: int, ms: seq<MemVal>, t: nat, k: int)
    requires ValidSlots(slots, size) && MemRelated(slots, size, whole, parts) && Allowed(slots, size, InObject(s, j), |ms|)
    requires t < |slots| && 0 <= k < slots[t].size
    ensures var p := parts.objs[s := Put(parts.objs[s], j, ms)];
            Look(Put(whole.frame, slots[s].Start() + j, InjMs(slots, ms)), slots[t].Start() + k) == InjM(slots, Look(p[t], k))
  {
    hide MemRelated, InjM, ValidSlots, InjMs, Look, Put, PairwiseDisjoint;
    RelatedByte(slots, size, whole, parts, t, k);
    var a := slots[s].Start() + j;
    var b := slots[t].Start() + k;
    if t == s {
      PutShifted(slots, whole.frame, parts.objs[s], slots[s].Start(), j, ms, k);
    } else {
      ValidApart(slots, size, s, t, k);
      assert !(a <= b < a + |InjMs(slots, ms)|);
      PutElsewhere(whole.frame, a, InjMs(slots, ms), b);
    }
  }

  lemma ValidApart(slots: seq<StackSlot>, size: nat, s: nat, t: nat, k: int)
    requires ValidSlots(slots, size) && s < |slots| && t < |slots| && s != t && 0 <= k < slots[t].size
    ensures !slots[s].Covers(slots[t].Start() + k)
  {
    SlotsApart(slots, s, t, k);
  }

  lemma RelatedByte(slots: seq<StackSlot>, size: nat, whole: Memory, parts: Memory, t: nat, k: int)
    requires MemRelated(slots, size, whole, parts) && t < |slots| && 0 <= k < slots[t].size
    ensures |parts.objs| == |slots|
    ensures Look(whole.frame, slots[t].Start() + k) == InjM(slots, Look(parts.objs[t], k))
  {
  }

  lemma PutElsewhere(m: Bytes, a: int, ms: seq<MemVal>, b: int)
    requires !(a <= b < a + |ms|)
    ensures Look(Put(m, a, ms), b) == Look(m, b)
  {
  }

  /** Bytes put at an offset of a shifted object show at the shifted place. */
  lemma PutShifted(slots: seq<StackSlot>, w: Bytes, p: Bytes, start: int, j: int, ms: seq<MemVal>, k: int)
    requires Look(w, start + k) == InjM(slots, Look(p, k))
    ensures Look(Put(w, start + j, InjMs(slots, ms)), start + k) == InjM(slots, Look(Put(p, j, ms), k))
  {
    assert start + k - (start + j) == k - j;
  }

  /** Corresponding writes keep the memories related. */
  lemma WriteRelated(slots: seq<StackSlot>, size: nat, whole: Memory, parts: Memory, at: Place, ms: seq<MemVal>)
    requires ValidSlots(slots, size) && MemRelated(slots, size, whole, parts) && Allowed(slots, size, at, |ms|)
    ensures MemRelated(slots, size, WriteAt(whole, Home(slots, at), InjMs(slots, ms)), WriteAt(parts, at, ms))
  {
    hide MemRelated, Put, InjMs, TouchesSlot, ValidSlots;
    match at
    case InWorld(a) => WriteWorld(slots, size, whole, parts, a, ms);
    case InFrame(c) => WriteRest(slots, size, whole, parts, c, ms);
    case InObject(s, j) => WriteSlot(slots, size, whole, parts, s, j, ms);
  }

  ghost predicate CleanMs(ms: seq<MemVal>) {
    forall k :: 0 <= k < |ms| && ms[k].Fragment? ==> !ms[k].v.Frame?
  }

  lemma PutClean(m: Bytes, a: int, ms: seq<MemVal>)
    requires NoFrameAddress(m) && CleanMs(ms)
    ensures NoFrameAddress(Put(m, a, ms))
  {
    var m' := Put(m, a, ms);
    forall x | Look(m', x).Fragment? ensures !Look(m', x).v.Frame? {
      if a <= x < a + |ms| {
        assert Look(m', x) == ms[x - a];
      } else {
        assert Look(m', x) == Look(m, x);
      }
    }
  }

  lemma WriteClean(slots: seq<StackSlot>, size: nat, m: Memory, at: Place, ms: seq<MemVal>)
    requires Clean(m) && CleanMs(ms) && (at.InObject? ==> at.slot < |m.objs|)
    ensures Clean(WriteAt(m, at, ms))
  {
    match at
    case InWorld(a) => PutClean(m.world, a, ms);
    case InFrame(c) => PutClean(m.frame, c, ms);
    case InObject(s, j) =>
      assert m.objs[s] in m.objs;
      PutClean(m.objs[s], j, ms);
  }

  lemma ReadClean(m: Memory, at: Place, n: nat)
    requires Clean(m) && (at.InObject? ==> at.slot < |m.objs|)
    ensures CleanMs(ReadAt(m, at, n))
  {
    if at.InObject? { assert m.objs[at.slot] in m.objs; }
  }

  // ---------------------------------------------------------------- values in memory

  lemma EncodeRelated(slots: seq<StackSlot>, v: Val, n: nat)
    ensures Encode(v, n).Some? ==> Encode(Inj(slots, v), n) == Some(InjMs(slots, Encode(v, n).value))
    ensures Encode(v, n).Some? && !v.Frame? ==> CleanMs(Encode(v, n).value)
  {
    if Encode(v, n).Some? {
      assert Encode(Inj(slots, v), n).Some?;
      var a, b := Encode(Inj(slots, v), n).value, InjMs(slots, Encode(v, n).value);
      assert a == b;
    }
  }

  lemma DecodeRelated(slots: seq<StackSlot>, ms: seq<MemVal>)
    requires CleanMs(ms) && Decode(ms).Some?
    ensures Decode(InjMs(slots, ms)) == Some(Inj(slots, Decode(ms).value)) && !Decode(ms).value.Frame?
  {
    var ws := InjMs(slots, ms);
    if AllPlain(ms) {
      assert Plain(ws) == Plain(ms);
    } else {
      var k :| 0 <= k < |ms| && !ms[k].Byte?;
      assert !ws[k].Byte?;
      assert ws[0] == InjM(slots, ms[0]);
      assert WholeAddress(ws);
    }
  }

  // ---------------------------------------------------------------- loads and stores

  /** A result of the rewritten code that the original must agree with. */
  ghost predicate Agrees(slots: seq<StackSlot>, whole: Result<Val, Stop>, parts: Result<Val, Stop>) {
    match parts
    case Err(e) => e != ResidualInSlot && e != Straddles && (e == Undefined ==> whole == parts)
    case Ok(v) => !v.Frame? && whole == Ok(Inj(slots, v))
  }

  lemma {:induction false} LoadRelated(slots: seq<StackSlot>, size: nat, whole: Memory, parts: Memory, p: Val, n: nat)
    requires ValidSlots(slots, size) && MemRelated(slots, size, whole, parts) && Clean(parts)
    requires p.Frame? ==> Clear(slots, p.c, n)
    ensures Agrees(slots, LoadResult(slots, false, size, whole, Ok(Inj(slots, p)), n), LoadResult(slots, true, size, parts, Ok(p), n))
  {
    hide MemRelated, Clean, Decode, Clear, Inj;
    ReachRelated(slots, size, p, n);
    var r := Reach(slots, true, size, p, n);
    hide Reach;
    if r.Ok? {
      PartsHaveObjs(slots, size, whole, parts);
      ReadRelated(slots, size, whole, parts, r.value, n);
      ReadClean(parts, r.value, n);
      var ms := ReadAt(parts, r.value, n);
      if Decode(ms).Some? { DecodeRelated(slots, ms); }
    }
  }

  lemma PartsHaveObjs(slots: seq<StackSlot>, size: nat, whole: Memory, parts: Memory)
    requires MemRelated(slots, size, whole, parts)
    ensures |parts.objs| == |slots|
  {
  }

  ghost predicate StoreAgrees(slots: seq<StackSlot>, size: nat, whole: Result<Memory, Stop>, parts: Result<Memory, Stop>) {
    match parts
    case Err(e) => e != ResidualInSlot && e != Straddles && (e == Undefined ==> whole == parts)
    case Ok(m) => whole.Ok? && MemRelated(slots, size, whole.value, m) && Clean(m)
  }

  lemma {:induction false} StoreRelated(slots: seq<StackSlot>, size: nat, whole: Memory, parts: Memory, v: Val, p: Val,
                                        n: nat)
    requires ValidSlots(slots, size) && MemRelated(slots, size, whole, parts) && Clean(parts)
    requires (p.Frame? ==> Clear(slots, p.c, n)) && !v.Frame?
    ensures StoreAgrees(slots, size, StoreResult(slots, false, size, whole, Ok(Inj(slots, v)), Ok(Inj(slots, p)), n),
                        StoreResult(slots, true, size, parts, Ok(v), Ok(p), n))
  {
    hide MemRelated, Clean, Clear, Inj, Encode;
    ReachRelated(slots, size, p, n);
    var r := Reach(slots, true, size, p, n);
    hide Reach;
    if r.Ok? {
      PartsHaveObjs(slots, size, whole, parts);
      EncodeRelated(slots, v, n);
      if Encode(v, n).Some? {
        WriteRelated(slots, size, whole, parts, r.value, Encode(v, n).value);
        WriteClean(slots, size, parts, r.value, Encode(v, n).value);
      }
    }
  }
}
