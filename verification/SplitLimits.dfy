/** Three functions that the pass splits and whose meaning it changes: one for each use of a frame
    address that the classifiers let pass. */
module SplitLimits {
  import opened Options
  import opened Words
  import opened Slots
  import opened FrameCode
  import opened StackSplits
  import opened SplitPass
  import opened SplitObjects
  import opened SplitSafety
  import opened SplitTheorem

  // ---------------------------------------------------------------- single steps

  lemma AddressStep(f: Code, slots: seq<StackSlot>, split: bool, sur: Surroundings, s: State, p: nat, k: int)
    requires s.Running? && (split ==> |s.mem.objs| == |slots|) && s.pc < |f| && f[s.pc] == GepConst(Var(p), k) && p in s.env
    ensures Step(f, slots, split, 1024, sur, s) == s.(pc := s.pc + 1, env := s.env[s.pc := Moved(s.env[p], k)])
  {
    hide Moved;
  }

  lemma StoreStep(f: Code, slots: seq<StackSlot>, split: bool, sur: Surroundings, s: State, x: Operand, p: nat, n: nat,
                  at: Place, ms: seq<MemVal>)
    requires s.Running? && (split ==> |s.mem.objs| == |slots|) && s.pc < |f| && f[s.pc] == Store(x, Var(p), n) && p in s.env
    requires Eval(s.env, x).Ok? && Encode(Eval(s.env, x).value, n) == Some(ms)
    requires Reach(slots, split, 1024, s.env[p], n) == Ok(at) && (at.InObject? ==> split && at.slot < |s.mem.objs|)
    ensures Step(f, slots, split, 1024, sur, s) == s.(pc := s.pc + 1, mem := WriteAt(s.mem, at, ms))
  {
    hide Encode, Reach;
  }

  lemma LoadStep(f: Code, slots: seq<StackSlot>, split: bool, sur: Surroundings, s: State, p: nat, n: nat, at: Place, v: Val)
    requires s.Running? && (split ==> |s.mem.objs| == |slots|) && s.pc < |f| && f[s.pc] == Load(Var(p), n) && p in s.env
    requires Reach(slots, split, 1024, s.env[p], n) == Ok(at) && !at.InObject?
    requires Decode(ReadAt(s.mem, at, n)) == Some(v)
    ensures Step(f, slots, split, 1024, sur, s) == s.(pc := s.pc + 1, env := s.env[s.pc := v])
  {
    hide Decode, Reach;
  }

  lemma StepsOn(f: Code, slots: seq<StackSlot>, split: bool, sur: Surroundings, s: State, n: nat, t: State, u: State)
    requires s.Running? && split ==> |s.mem.objs| == |slots|
    requires Steps(f, slots, split, 1024, sur, s, n) == t && Step(f, slots, split, 1024, sur, t) == u
    ensures Steps(f, slots, split, 1024, sur, s, n + 1) == u
  {
    hide Step;
  }

  /** One byte with the value 7, stored and loaded. */
  lemma SevenEncodes()
    ensures Encode(Num(7), 1) == Some([Byte(7)])
    ensures Decode([Byte(7)]) == Some(Num(7))
  {
    assert ToLE(7, 1) == [7];
    assert Encode(Num(7), 1).value == [Byte(7)];
    assert AllPlain([Byte(7)]) && Plain([Byte(7)]) == [7];
    assert [7][1..] == [];
  }

  // ---------------------------------------------------------------- an address stored through itself

  /** The block's address is stored through itself. The top slot is written through an address that is replaced, and
      read through the address that is loaded back. */
  const MISSED: Code := [
    StackBlock,
    Store(Var(0), Var(0), 8),
    GepConst(Var(0), 1016),
    Store(Const(7), Var(2), 1),
    Load(Var(0), 8),
    GepConst(Var(4), 1016),
    Load(Var(5), 1),
    Return(Var(6))
  ]

  const TOP_SLOT := StackSlot(-8, 8, 8, 1)

  const MISSED_CLASSES := Classified(map[0 := 0], map[2 := Plan(0, 0, None)])

  /** What the pass makes of it. */
  const MISSED_SPLIT: Code := MISSED[2 := ObjAddr(0, 0, None)]

  lemma {:induction false} SlotAtTop(c: int)
    ensures SlotAt([TOP_SLOT], c) == if 1016 <= c < 1024 then Some(0) else None
  {
    assert [TOP_SLOT][1..] == [];
    assert SlotAt([], c) == None;
  }

  lemma MissedUses(id: nat)
    ensures forall i :: 0 <= i < |MISSED| ==>
              (Uses(MISSED[i], id) <==> (id == 0 && (i == 1 || i == 2 || i == 4)) || (id == 2 && i == 3)
                                        || (id == 4 && i == 5) || (id == 5 && i == 6) || (id == 6 && i == 7))
  {
  }

  /** The classification accepts it: the store is recognised by its pointer operand. */
  lemma MissedIsAccepted()
    ensures WellFormedCode(MISSED) && ValidSlots([TOP_SLOT], 1024) && HasStack(MISSED)
    ensures Accepted(MISSED, [TOP_SLOT], MISSED_CLASSES) && ObjectsFor(MISSED_CLASSES, [0])
    ensures SplitCode(MISSED, MISSED_CLASSES, [0]) == MISSED_SPLIT && Made([TOP_SLOT], [0]) == [TOP_SLOT]
  {
    hide Accepted, ObjectsFor, WellFormedCode, ValidSlots, Rewritten, PlacedPlans, SplitCode;
    MissedWellFormed();
    MissedClasses();
    MissedRewritten();
  }

  lemma MissedClasses()
    ensures Accepted(MISSED, [TOP_SLOT], MISSED_CLASSES) && ObjectsFor(MISSED_CLASSES, [0])
  {
    hide AllUsesAccepted, Grounded, ObjectsFor;
    MissedClassified();
    MissedGrounded();
    OneObject(MISSED_CLASSES, 2, Plan(0, 0, None));
  }

  lemma MissedWellFormed()
    ensures WellFormedCode(MISSED) && ValidSlots([TOP_SLOT], 1024)
  {
  }

  lemma MissedRewritten()
    ensures SplitCode(MISSED, MISSED_CLASSES, [0]) == MISSED_SPLIT
  {
    assert Placed(Plan(0, 0, None), [0]) == Plan(0, 0, None);
  }

  lemma OneObject(k: Classified, at: nat, p: Plan)
    requires k.plans == map[at := p] && p.slot == 0
    ensures ObjectsFor(k, [0])
  {
    assert at in k.plans && k.plans[at].slot == 0;
  }

  lemma MissedClassified()
    ensures AllUsesAccepted(MISSED, [TOP_SLOT], 0, 0, MISSED_CLASSES)
  {
    SlotAtTop(0);
    SlotAtTop(1016);
    NormSmall(1016);
    MissedUses(0);
    hide Norm, SlotAt, Uses;
  }

  lemma MissedGrounded()
    ensures Grounded(MISSED, [TOP_SLOT], MISSED_CLASSES)
  {
    SlotAtTop(1016);
    NormSmall(1016);
    hide Norm, SlotAt;
    assert Derives(MISSED[2], 0);
    assert Justified(MISSED, [TOP_SLOT], MISSED_CLASSES, 2, StackSplits.Replaced(Plan(0, 0, None)));
  }

  /** So the pass does split it, into exactly this. */
  method SplitMissed() returns (done: bool, f: Code, objs: seq<nat>)
    ensures done && f == MISSED_SPLIT && objs == [0]
  {
    MissedIsAccepted();
    ghost var k;
    hide Accepted, WellFormedCode;
    done, f, objs, k := RewriteStackObjects(MISSED, [TOP_SLOT]);
    AcceptedIsUnique(MISSED, [TOP_SLOT], k, MISSED_CLASSES);
    SameObjects(MISSED_CLASSES, objs);
  }

  /** The one slot referred to is the one object. */
  lemma SameObjects(k: Classified, objs: seq<nat>)
    requires ObjectsFor(k, objs) && k.plans.Keys != {} && forall at :: at in k.plans ==> k.plans[at].slot == 0
    ensures objs == [0]
  {
    assert |objs| > 1 ==> objs[0] != objs[1];
    var at :| at in k.plans;
    assert 0 in objs;
    forall i | 0 <= i < |objs| ensures objs[i] == 0 { assert objs[i] in objs; }
  }

  function MissedBytes(): seq<MemVal> { seq(8, k requires 0 <= k < 8 => Fragment(Frame(0), k)) }

  lemma FirstBytesOutside(split: bool)
    ensures Reach([TOP_SLOT], split, 1024, Frame(0), 8) == Ok(InFrame(0))
  {
    forall x | 0 <= x < 8 ensures SlotAt([TOP_SLOT], x).None? { SlotAtTop(x); }
  }

  lemma MissedDecodes()
    ensures Decode(MissedBytes()) == Some(Frame(0)) && Encode(Frame(0), 8) == Some(MissedBytes())
  {
    assert !MissedBytes()[0].Byte?;
  }

  /** Memory with nothing written yet. */
  const NO_MEMORY := Memory(map[], map[], [])

  /** The first six steps, of the original and of the rewritten function: the same but for where the 7 goes. */
  lemma {:induction false} MissedPrefix(f: Code, split: bool, sur: Surroundings, m0: Memory, m2: Memory, a2: Val)
    requires f == (if split then MISSED_SPLIT else MISSED) && a2 == (if split then Obj(0, 0) else Frame(1016))
    requires m0.frame == map[] && |m0.objs| == (if split then 1 else 0)
    requires var m1 := m0.(frame := Put(map[], 0, MissedBytes()));
             m2 == WriteAt(m1, if split then InObject(0, 0) else InFrame(1016), [Byte(7)])
    ensures Steps(f, [TOP_SLOT], split, 1024, sur, Entry(m0), 6) == Running(6, 0, MissedEnv(a2), m2, [])
  {
    var slots := [TOP_SLOT];
    var m1 := m0.(frame := Put(map[], 0, MissedBytes()));
    var e1: map<nat, Val> := map[0 := Frame(0)];
    var e3 := e1[2 := a2];
    var e5 := e3[4 := Frame(0)];
    var s1, s2 := Running(1, 0, e1, m0, []), Running(2, 0, e1, m1, []);
    var s3, s4, s5 := Running(3, 0, e3, m1, []), Running(4, 0, e3, m2, []), Running(5, 0, e5, m2, []);
    var s6 := Running(6, 0, e5[5 := Frame(1016)], m2, []);
    MissedStart(f, split, sur, m0, s1);
    MissedStored(f, split, sur, s1, s2);
    MissedSeven(f, split, sur, s2, s3, s4, a2);
    MissedLoaded(f, split, sur, s4, s5, s6);
    hide Steps, Step, Put;
    StepsOn(f, slots, split, sur, Entry(m0), 1, s1, s2);
    StepsOn(f, slots, split, sur, Entry(m0), 2, s2, s3);
    StepsOn(f, slots, split, sur, Entry(m0), 3, s3, s4);
    StepsOn(f, slots, split, sur, Entry(m0), 4, s4, s5);
    StepsOn(f, slots, split, sur, Entry(m0), 5, s5, s6);
  }

  lemma {:induction false} MissedStart(f: Code, split: bool, sur: Surroundings, m0: Memory, s1: State)
    requires f == (if split then MISSED_SPLIT else MISSED) && |m0.objs| == (if split then 1 else 0)
    requires s1 == Running(1, 0, map[0 := Frame(0)], m0, [])
    ensures Steps(f, [TOP_SLOT], split, 1024, sur, Entry(m0), 1) == s1
  {
    assert Steps(f, [TOP_SLOT], split, 1024, sur, Entry(m0), 0) == Entry(m0);
    assert f[0] == StackBlock;
  }

  /** The block's address, stored through itself. */
  lemma MissedStored(f: Code, split: bool, sur: Surroundings, s1: State, s2: State)
    requires f == (if split then MISSED_SPLIT else MISSED)
    requires s1.Running? && s1.pc == 1 && s1.env == map[0 := Frame(0)] && |s1.mem.objs| == (if split then 1 else 0)
    requires s2 == s1.(pc := 2, mem := s1.mem.(frame := Put(s1.mem.frame, 0, MissedBytes())))
    ensures Step(f, [TOP_SLOT], split, 1024, sur, s1) == s2
  {
    FirstBytesOutside(split);
    MissedDecodes();
    StoreStep(f, [TOP_SLOT], split, sur, s1, Var(0), 0, 8, InFrame(0), MissedBytes());
    hide Step, Reach, Encode, Decode, Put;
  }

  /** A 7 written to the slot: to the frame block by the original, to the object by the rewritten function. */
  lemma MissedSeven(f: Code, split: bool, sur: Surroundings, s2: State, s3: State, s4: State, a2: Val)
    requires f == (if split then MISSED_SPLIT else MISSED) && a2 == (if split then Obj(0, 0) else Frame(1016))
    requires s2.Running? && s2.pc == 2 && s2.env == map[0 := Frame(0)] && |s2.mem.objs| == (if split then 1 else 0)
    requires s3 == s2.(pc := 3, env := s2.env[2 := a2])
    requires s4 == s3.(pc := 4, mem := WriteAt(s3.mem, if split then InObject(0, 0) else InFrame(1016), [Byte(7)]))
    ensures Step(f, [TOP_SLOT], split, 1024, sur, s2) == s3 && Step(f, [TOP_SLOT], split, 1024, sur, s3) == s4
  {
    NormSmall(0);
    NormSmall(1016);
    SevenEncodes();
    assert Step(f, [TOP_SLOT], split, 1024, sur, s2) == s3;
    assert Reach([TOP_SLOT], split, 1024, a2, 1) == Ok(if split then InObject(0, 0) else InFrame(1016));
    hide Norm, Reach, Encode, WriteAt;
    StoreStep(f, [TOP_SLOT], split, sur, s3, Const(7), 2, 1, if split then InObject(0, 0) else InFrame(1016), [Byte(7)]);
    hide Step;
  }

  /** The stored address loaded back, and moved to the slot. */
  lemma MissedLoaded(f: Code, split: bool, sur: Surroundings, s4: State, s5: State, s6: State)
    requires f == (if split then MISSED_SPLIT else MISSED)
    requires s4.Running? && s4.pc == 4 && 0 in s4.env && s4.env[0] == Frame(0) && |s4.mem.objs| == (if split then 1 else 0)
    requires forall k :: 0 <= k < 8 ==> Look(s4.mem.frame, k) == MissedBytes()[k]
    requires s5 == s4.(pc := 5, env := s4.env[4 := Frame(0)]) && s6 == s5.(pc := 6, env := s5.env[5 := Frame(1016)])
    ensures Step(f, [TOP_SLOT], split, 1024, sur, s4) == s5 && Step(f, [TOP_SLOT], split, 1024, sur, s5) == s6
  {
    FirstBytesOutside(split);
    MissedDecodes();
    assert ReadAt(s4.mem, InFrame(0), 8) == MissedBytes();
    hide Reach, Decode, Encode;
    LoadStep(f, [TOP_SLOT], split, sur, s4, 0, 8, InFrame(0), Frame(0));
    NormSmall(1016);
    AddressStep(f, [TOP_SLOT], split, sur, s5, 4, 1016);
    hide Step;
  }

  /**
   * The original returns the 7. The rewritten function has the 7 in the object, and is about to read it through the
   * frame block, at a byte that it has never written.
   */
  lemma {:induction false} MissedStoreBreaksSplit(sur: Surroundings)
    ensures var whole := Steps(MISSED, [TOP_SLOT], false, 1024, sur, Entry(NO_MEMORY), 8);
            whole.Done? && whole.v == 7
    ensures var parts := Steps(MISSED_SPLIT, [TOP_SLOT], true, 1024, sur, Entry(Parted([TOP_SLOT], NO_MEMORY)), 6);
            && parts.Running? && MISSED_SPLIT[parts.pc] == Load(Var(5), 1) && parts.env == MissedEnv(Obj(0, 0))
            && 1016 !in parts.mem.frame && parts.mem.objs != [] && Look(parts.mem.objs[0], 0) == Byte(7)
            && Step(MISSED_SPLIT, [TOP_SLOT], true, 1024, sur, parts) == Stopped(ResidualInSlot)
  {
    MissedWhole(sur);
    MissedParts(sur);
  }

  /** Where the values are before the last load: the address it loads from is byte 1016 of the frame block. */
  function MissedEnv(a2: Val): map<nat, Val> {
    map[0 := Frame(0), 2 := a2, 4 := Frame(0), 5 := Frame(1016)]
  }

  lemma {:induction false} MissedParts(sur: Surroundings)
    ensures var parts := Steps(MISSED_SPLIT, [TOP_SLOT], true, 1024, sur, Entry(Parted([TOP_SLOT], NO_MEMORY)), 6);
            && parts.Running? && MISSED_SPLIT[parts.pc] == Load(Var(5), 1) && parts.env == MissedEnv(Obj(0, 0))
            && 1016 !in parts.mem.frame && parts.mem.objs != [] && Look(parts.mem.objs[0], 0) == Byte(7)
            && Step(MISSED_SPLIT, [TOP_SLOT], true, 1024, sur, parts) == Stopped(ResidualInSlot)
  {
    var m0 := Parted([TOP_SLOT], NO_MEMORY);
    var m1 := m0.(frame := Put(map[], 0, MissedBytes()));
    var m2 := WriteAt(m1, InObject(0, 0), [Byte(7)]);
    MissedMemory(m0, m1, m2);
    hide Steps, Step, Put, WriteAt, Parted, Look;
    MissedPrefix(MISSED_SPLIT, true, sur, m0, m2, Obj(0, 0));
    MissedResidual(sur, Running(6, 0, MissedEnv(Obj(0, 0)), m2, []));
  }

  lemma MissedMemory(m0: Memory, m1: Memory, m2: Memory)
    requires m0.frame == map[] && |m0.objs| == 1 && m1 == m0.(frame := Put(map[], 0, MissedBytes()))
    requires m2 == WriteAt(m1, InObject(0, 0), [Byte(7)])
    ensures 1016 !in m2.frame && |m2.objs| == 1 && Look(m2.objs[0], 0) == Byte(7)
  {
  }

  lemma MissedResidual(sur: Surroundings, s: State)
    requires s.Running? && s.pc == 6 && 5 in s.env && s.env[5] == Frame(1016) && |s.mem.objs| == 1
    ensures Step(MISSED_SPLIT, [TOP_SLOT], true, 1024, sur, s) == Stopped(ResidualInSlot)
  {
    SlotAtTop(1016);
    assert MISSED_SPLIT[6] == Load(Var(5), 1);
    assert Reach([TOP_SLOT], true, 1024, Frame(1016), 1) == Err(ResidualInSlot);
    hide Reach, Decode;
  }

  lemma {:induction false} MissedWhole(sur: Surroundings)
    ensures var whole := Steps(MISSED, [TOP_SLOT], false, 1024, sur, Entry(NO_MEMORY), 8);
            whole.Done? && whole.v == 7
  {
    var m1 := NO_MEMORY.(frame := Put(map[], 0, MissedBytes()));
    var m2 := WriteAt(m1, InFrame(1016), [Byte(7)]);
    var s6 := Running(6, 0, MissedEnv(Frame(1016)), m2, []);
    var s7 := s6.(pc := 7, env := s6.env[6 := Num(7)]);
    var done := Done(7, m2, []);
    MissedPrefix(MISSED, false, sur, NO_MEMORY, m2, Frame(1016));
    MissedReads(sur, s6, s7);
    MissedReturns(sur, s7, done);
    hide Steps, Step, Put, WriteAt;
    StepsOn(MISSED, [TOP_SLOT], false, sur, Entry(NO_MEMORY), 6, s6, s7);
    StepsOn(MISSED, [TOP_SLOT], false, sur, Entry(NO_MEMORY), 7, s7, done);
  }

  lemma MissedReads(sur: Surroundings, s6: State, s7: State)
    requires s6.Running? && s6.pc == 6 && 5 in s6.env && s6.env[5] == Frame(1016) && Look(s6.mem.frame, 1016) == Byte(7)
    requires s7 == s6.(pc := 7, env := s6.env[6 := Num(7)])
    ensures Step(MISSED, [TOP_SLOT], false, 1024, sur, s6) == s7
  {
    SevenEncodes();
    assert ReadAt(s6.mem, InFrame(1016), 1) == [Byte(7)];
    hide Decode, Encode;
    LoadStep(MISSED, [TOP_SLOT], false, sur, s6, 5, 1, InFrame(1016), Num(7));
    hide Step;
  }

  lemma MissedReturns(sur: Surroundings, s7: State, done: State)
    requires s7.Running? && s7.pc == 7 && 6 in s7.env && s7.env[6] == Num(7) && done == Done(7, s7.mem, s7.calls)
    ensures Step(MISSED, [TOP_SLOT], false, 1024, sur, s7) == done
  {
  }

  // ---------------------------------------------------------------- the block's own address passed on

  /** Frame byte 4 is written through an address that is replaced, and the block's own address goes to a callee. */
  const ESCAPED: Code := [
    StackBlock,
    GepConst(Var(0), 4),
    Store(Const(7), Var(1), 1),
    Call(0, [Var(0)]),
    Return(Var(3))
  ]

  const LOW_SLOT := StackSlot(-1024, 8, 8, 1)

  const ESCAPED_CLASSES := Classified(map[0 := 0], map[1 := Plan(0, 4, None)])

  const ESCAPED_SPLIT: Code := ESCAPED[1 := ObjAddr(0, 4, None)]

  lemma {:induction false} SlotAtLow(c: int)
    ensures SlotAt([LOW_SLOT], c) == if 0 <= c < 8 then Some(0) else None
  {
    assert [LOW_SLOT][1..] == [];
    assert SlotAt([], c) == None;
  }

  lemma EscapedUses(id: nat)
    ensures forall i :: 0 <= i < |ESCAPED| ==>
              (Uses(ESCAPED[i], id) <==> (id == 0 && (i == 1 || i == 3)) || (id == 1 && i == 2) || (id == 3 && i == 4))
  {
  }

  lemma EscapedIsAccepted()
    ensures WellFormedCode(ESCAPED) && ValidSlots([LOW_SLOT], 1024) && HasStack(ESCAPED)
    ensures Accepted(ESCAPED, [LOW_SLOT], ESCAPED_CLASSES) && ObjectsFor(ESCAPED_CLASSES, [0])
    ensures SplitCode(ESCAPED, ESCAPED_CLASSES, [0]) == ESCAPED_SPLIT && Made([LOW_SLOT], [0]) == [LOW_SLOT]
  {
    hide Accepted, ObjectsFor, WellFormedCode, ValidSlots, Rewritten, PlacedPlans, SplitCode;
    EscapedWellFormed();
    EscapedClasses();
    EscapedRewritten();
  }

  lemma EscapedClasses()
    ensures Accepted(ESCAPED, [LOW_SLOT], ESCAPED_CLASSES) && ObjectsFor(ESCAPED_CLASSES, [0])
  {
    hide AllUsesAccepted, Grounded, ObjectsFor;
    EscapedClassified();
    OneObject(ESCAPED_CLASSES, 1, Plan(0, 4, None));
  }

  lemma EscapedWellFormed()
    ensures WellFormedCode(ESCAPED) && ValidSlots([LOW_SLOT], 1024)
  {
  }

  lemma EscapedRewritten()
    ensures SplitCode(ESCAPED, ESCAPED_CLASSES, [0]) == ESCAPED_SPLIT
  {
    assert Placed(Plan(0, 4, None), [0]) == Plan(0, 4, None);
  }

  lemma EscapedClassified()
    ensures AllUsesAccepted(ESCAPED, [LOW_SLOT], 0, 0, ESCAPED_CLASSES) && Grounded(ESCAPED, [LOW_SLOT], ESCAPED_CLASSES)
  {
    SlotAtLow(4);
    NormSmall(4);
    EscapedUses(0);
    hide Norm, SlotAt;
    assert Derives(ESCAPED[1], 0);
    assert Justified(ESCAPED, [LOW_SLOT], ESCAPED_CLASSES, 1, StackSplits.Replaced(Plan(0, 4, None)));
    hide Uses;
  }

  method SplitEscaped() returns (done: bool, f: Code, objs: seq<nat>)
    ensures done && f == ESCAPED_SPLIT && objs == [0]
  {
    EscapedIsAccepted();
    ghost var k;
    hide Accepted, WellFormedCode;
    done, f, objs, k := RewriteStackObjects(ESCAPED, [LOW_SLOT]);
    AcceptedIsUnique(ESCAPED, [LOW_SLOT], k, ESCAPED_CLASSES);
    SameObjects(ESCAPED_CLASSES, objs);
  }

  /** The first three steps. */
  lemma {:induction false} EscapedPrefix(f: Code, split: bool, sur: Surroundings, m0: Memory, m1: Memory, a1: Val)
    requires f == (if split then ESCAPED_SPLIT else ESCAPED) && a1 == (if split then Obj(0, 4) else Frame(4))
    requires |m0.objs| == (if split then 1 else 0)
    requires m1 == WriteAt(m0, if split then InObject(0, 4) else InFrame(4), [Byte(7)])
    ensures Steps(f, [LOW_SLOT], split, 1024, sur, Entry(m0), 3) == Running(3, 0, map[0 := Frame(0), 1 := a1], m1, [])
  {
    var slots := [LOW_SLOT];
    var e1: map<nat, Val> := map[0 := Frame(0)];
    var s1, s2 := Running(1, 0, e1, m0, []), Running(2, 0, e1[1 := a1], m0, []);
    var s3 := Running(3, 0, e1[1 := a1], m1, []);
    EscapedAddressed(f, split, sur, Entry(m0), s1, s2, a1);
    EscapedSeven(f, split, sur, s2, s3, a1);
    assert Steps(f, slots, split, 1024, sur, Entry(m0), 0) == Entry(m0);
    hide Step, Steps, WriteAt;
    StepsOn(f, slots, split, sur, Entry(m0), 0, Entry(m0), s1);
    StepsOn(f, slots, split, sur, Entry(m0), 1, s1, s2);
    StepsOn(f, slots, split, sur, Entry(m0), 2, s2, s3);
  }

  lemma EscapedAddressed(f: Code, split: bool, sur: Surroundings, s0: State, s1: State, s2: State, a1: Val)
    requires f == (if split then ESCAPED_SPLIT else ESCAPED) && a1 == (if split then Obj(0, 4) else Frame(4))
    requires s0.Running? && s0.pc == 0 && s0.env == map[] && |s0.mem.objs| == (if split then 1 else 0)
    requires s1 == s0.(pc := 1, env := map[0 := Frame(0)]) && s2 == s1.(pc := 2, env := map[0 := Frame(0), 1 := a1])
    ensures Step(f, [LOW_SLOT], split, 1024, sur, s0) == s1 && Step(f, [LOW_SLOT], split, 1024, sur, s1) == s2
  {
    NormSmall(4);
  }

  lemma EscapedSeven(f: Code, split: bool, sur: Surroundings, s2: State, s3: State, a1: Val)
    requires f == (if split then ESCAPED_SPLIT else ESCAPED) && a1 == (if split then Obj(0, 4) else Frame(4))
    requires s2.Running? && s2.pc == 2 && 1 in s2.env && s2.env[1] == a1 && |s2.mem.objs| == (if split then 1 else 0)
    requires s3 == s2.(pc := 3, mem := WriteAt(s2.mem, if split then InObject(0, 4) else InFrame(4), [Byte(7)]))
    ensures Step(f, [LOW_SLOT], split, 1024, sur, s2) == s3
  {
    SevenEncodes();
    assert Reach([LOW_SLOT], split, 1024, a1, 1) == Ok(if split then InObject(0, 4) else InFrame(4));
    hide Reach, Encode, WriteAt;
    StoreStep(f, [LOW_SLOT], split, sur, s2, Const(7), 1, 1, if split then InObject(0, 4) else InFrame(4), [Byte(7)]);
    hide Step;
  }

  /**
   * The callee of the original sees the 7. In the rewritten function the 7 is in the object, and the callee is handed the
   * frame block, whose byte 4 has never been written.
   */
  lemma {:induction false} EscapedBlockBreaksSplit(sur: Surroundings)
    ensures var whole := Steps(ESCAPED, [LOW_SLOT], false, 1024, sur, Entry(NO_MEMORY), 4);
            && whole.Running? && |whole.calls| == 1 && |whole.calls[0].reached| == 1 && |whole.calls[0].reached[0]| == 8
            && whole.calls[0].reached[0][4] == Byte(7)
    ensures var parts := Steps(ESCAPED_SPLIT, [LOW_SLOT], true, 1024, sur, Entry(Parted([LOW_SLOT], NO_MEMORY)), 3);
            && parts.Running? && ESCAPED_SPLIT[parts.pc] == Call(0, [Var(0)]) && parts.env == map[0 := Frame(0), 1 := Obj(0, 4)]
            && 4 !in parts.mem.frame && parts.mem.objs != [] && Look(parts.mem.objs[0], 4) == Byte(7)
            && Step(ESCAPED_SPLIT, [LOW_SLOT], true, 1024, sur, parts) == Stopped(ResidualInSlot)
  {
    EscapedWhole(sur);
    EscapedParts(sur);
  }

  lemma {:induction false} EscapedParts(sur: Surroundings)
    ensures var parts := Steps(ESCAPED_SPLIT, [LOW_SLOT], true, 1024, sur, Entry(Parted([LOW_SLOT], NO_MEMORY)), 3);
            && parts.Running? && ESCAPED_SPLIT[parts.pc] == Call(0, [Var(0)]) && parts.env == map[0 := Frame(0), 1 := Obj(0, 4)]
            && 4 !in parts.mem.frame && parts.mem.objs != [] && Look(parts.mem.objs[0], 4) == Byte(7)
            && Step(ESCAPED_SPLIT, [LOW_SLOT], true, 1024, sur, parts) == Stopped(ResidualInSlot)
  {
    var m0 := Parted([LOW_SLOT], NO_MEMORY);
    var m1 := WriteAt(m0, InObject(0, 4), [Byte(7)]);
    EscapedPrefix(ESCAPED_SPLIT, true, sur, m0, m1, Obj(0, 4));
    var parts := Running(3, 0, map[0 := Frame(0), 1 := Obj(0, 4)], m1, []);
    SlotAtLow(0);
    hide Steps;
    BlockViewed(true, parts.env);
    hide EvalViews;
  }

  /** What a callee is told about the block's own address. */
  lemma {:induction false} BlockViewed(split: bool, env: map<nat, Val>)
    requires 0 in env && env[0] == Frame(0)
    ensures EvalViews([LOW_SLOT], split, env, [Var(0)]) == if split then Err(ResidualInSlot) else Ok([IntoSlot(0, 0)])
  {
    SlotAtLow(0);
    assert [Var(0)][..0] == [];
    assert EvalViews([LOW_SLOT], split, env, []) == Ok([]);
    assert LOW_SLOT.Start() == 0;
    assert ViewOf([LOW_SLOT], split, Frame(0)) == if split then Err(ResidualInSlot) else Ok(IntoSlot(0, 0));
    hide ViewOf, SlotAt;
    assert [Var(0)][|[Var(0)]| - 1] == Var(0) && Eval(env, Var(0)) == Ok(Frame(0));
    assert [] + [IntoSlot(0, 0)] == [IntoSlot(0, 0)];
  }

  lemma {:induction false} EscapedWhole(sur: Surroundings)
    ensures var whole := Steps(ESCAPED, [LOW_SLOT], false, 1024, sur, Entry(NO_MEMORY), 4);
            && whole.Running? && |whole.calls| == 1 && |whole.calls[0].reached| == 1 && |whole.calls[0].reached[0]| == 8
            && whole.calls[0].reached[0][4] == Byte(7)
  {
    var m1 := WriteAt(NO_MEMORY, InFrame(4), [Byte(7)]);
    EscapedPrefix(ESCAPED, false, sur, NO_MEMORY, m1, Frame(4));
    var s3 := Running(3, 0, map[0 := Frame(0), 1 := Frame(4)], m1, []);
    SlotAtLow(0);
    hide Steps;
    BlockViewed(false, s3.env);
    CalleeSees(sur, m1);
    hide EvalViews, CallResult;
    StepsOn(ESCAPED, [LOW_SLOT], false, sur, Entry(NO_MEMORY), 3, s3, Step(ESCAPED, [LOW_SLOT], false, 1024, sur, s3));
  }

  lemma CalleeSees(sur: Surroundings, m: Memory)
    requires m.frame == Put(map[], 4, [Byte(7)]) && m.world == map[] && m.objs == []
    ensures var r := CallResult([LOW_SLOT], false, 1024, sur, 0, [IntoSlot(0, 0)], m, []);
            && r.Ok? && |r.value.2| == 1 && |r.value.2[0].reached| == 1 && |r.value.2[0].reached[0]| == 8
            && r.value.2[0].reached[0][4] == Byte(7)
  {
    var reached := ReachedAll([LOW_SLOT], false, 1024, m, [IntoSlot(0, 0)]);
    assert reached == [Get(m.frame, 0, 8)];
    hide LeftAll, ReachedAll;
  }

  // ---------------------------------------------------------------- an access that reaches into a slot

  /** The top slot is written through an address that is replaced, and read by an access that begins below it. */
  const STRADDLED: Code := [
    StackBlock,
    GepConst(Var(0), 1016),
    Store(Const(7), Var(1), 1),
    GepConst(Var(0), 1012),
    Load(Var(3), 8),
    Return(Var(4))
  ]

  const STRADDLED_CLASSES := Classified(map[0 := 0, 3 := 1012], map[1 := Plan(0, 0, None)])

  const STRADDLED_SPLIT: Code := STRADDLED[1 := ObjAddr(0, 0, None)]

  lemma StraddledUses(id: nat)
    ensures forall i :: 0 <= i < |STRADDLED| ==>
              (Uses(STRADDLED[i], id) <==> (id == 0 && (i == 1 || i == 3)) || (id == 1 && i == 2) || (id == 3 && i == 4)
                                           || (id == 4 && i == 5))
  {
  }

  /** The classification accepts it: it looks at the first byte of the access. */
  lemma StraddledIsAccepted()
    ensures WellFormedCode(STRADDLED) && ValidSlots([TOP_SLOT], 1024) && HasStack(STRADDLED)
    ensures Accepted(STRADDLED, [TOP_SLOT], STRADDLED_CLASSES) && ObjectsFor(STRADDLED_CLASSES, [0])
    ensures SplitCode(STRADDLED, STRADDLED_CLASSES, [0]) == STRADDLED_SPLIT && Made([TOP_SLOT], [0]) == [TOP_SLOT]
  {
    hide Accepted, ObjectsFor, WellFormedCode, ValidSlots, Rewritten, PlacedPlans, SplitCode;
    StraddledWellFormed();
    StraddledClasses();
    StraddledRewritten();
  }

  lemma StraddledClasses()
    ensures Accepted(STRADDLED, [TOP_SLOT], STRADDLED_CLASSES) && ObjectsFor(STRADDLED_CLASSES, [0])
  {
    hide AllUsesAccepted, Grounded, ObjectsFor;
    StraddledClassified();
    StraddledGrounded();
    OneObject(STRADDLED_CLASSES, 1, Plan(0, 0, None));
  }

  lemma StraddledWellFormed()
    ensures WellFormedCode(STRADDLED) && ValidSlots([TOP_SLOT], 1024)
  {
  }

  lemma StraddledRewritten()
    ensures SplitCode(STRADDLED, STRADDLED_CLASSES, [0]) == STRADDLED_SPLIT
  {
    assert Placed(Plan(0, 0, None), [0]) == Plan(0, 0, None);
  }

  lemma StraddledClassified()
    ensures AllUsesAccepted(STRADDLED, [TOP_SLOT], 0, 0, STRADDLED_CLASSES)
    ensures AllUsesAccepted(STRADDLED, [TOP_SLOT], 3, 1012, STRADDLED_CLASSES)
  {
    SlotAtTop(1012);
    SlotAtTop(1016);
    NormSmall(1012);
    NormSmall(1016);
    StraddledUses(0);
    StraddledUses(3);
    hide Norm, SlotAt, Uses;
  }

  lemma StraddledGrounded()
    ensures Grounded(STRADDLED, [TOP_SLOT], STRADDLED_CLASSES)
  {
    SlotAtTop(1012);
    SlotAtTop(1016);
    NormSmall(1012);
    NormSmall(1016);
    hide Norm, SlotAt;
    assert Derives(STRADDLED[1], 0) && Derives(STRADDLED[3], 0);
    assert Justified(STRADDLED, [TOP_SLOT], STRADDLED_CLASSES, 3, Tracked(1012));
    assert Justified(STRADDLED, [TOP_SLOT], STRADDLED_CLASSES, 1, StackSplits.Replaced(Plan(0, 0, None)));
  }

  method SplitStraddled() returns (done: bool, f: Code, objs: seq<nat>)
    ensures done && f == STRADDLED_SPLIT && objs == [0]
  {
    StraddledIsAccepted();
    ghost var k;
    hide Accepted, WellFormedCode;
    done, f, objs, k := RewriteStackObjects(STRADDLED, [TOP_SLOT]);
    AcceptedIsUnique(STRADDLED, [TOP_SLOT], k, STRADDLED_CLASSES);
    SameObjects(STRADDLED_CLASSES, objs);
  }

  function StraddledEnv(a1: Val): map<nat, Val> { map[0 := Frame(0), 1 := a1, 3 := Frame(1012)] }

  /** The first four steps. */
  lemma {:induction false} StraddledPrefix(f: Code, split: bool, sur: Surroundings, m0: Memory, m1: Memory, a1: Val)
    requires f == (if split then STRADDLED_SPLIT else STRADDLED) && a1 == (if split then Obj(0, 0) else Frame(1016))
    requires |m0.objs| == (if split then 1 else 0)
    requires m1 == WriteAt(m0, if split then InObject(0, 0) else InFrame(1016), [Byte(7)])
    ensures Steps(f, [TOP_SLOT], split, 1024, sur, Entry(m0), 4) == Running(4, 0, StraddledEnv(a1), m1, [])
  {
    var slots := [TOP_SLOT];
    var e1: map<nat, Val> := map[0 := Frame(0)];
    var s1, s2 := Running(1, 0, e1, m0, []), Running(2, 0, e1[1 := a1], m0, []);
    var s3, s4 := Running(3, 0, e1[1 := a1], m1, []), Running(4, 0, e1[1 := a1][3 := Frame(1012)], m1, []);
    StraddledAddressed(f, split, sur, Entry(m0), s1, s2, a1);
    StraddledSeven(f, split, sur, s2, s3, a1);
    NormSmall(1012);
    AddressStep(f, slots, split, sur, s3, 0, 1012);
    assert Steps(f, slots, split, 1024, sur, Entry(m0), 0) == Entry(m0);
    hide Step, Steps, WriteAt;
    StepsOn(f, slots, split, sur, Entry(m0), 0, Entry(m0), s1);
    StepsOn(f, slots, split, sur, Entry(m0), 1, s1, s2);
    StepsOn(f, slots, split, sur, Entry(m0), 2, s2, s3);
    StepsOn(f, slots, split, sur, Entry(m0), 3, s3, s4);
  }

  lemma StraddledAddressed(f: Code, split: bool, sur: Surroundings, s0: State, s1: State, s2: State, a1: Val)
    requires f == (if split then STRADDLED_SPLIT else STRADDLED) && a1 == (if split then Obj(0, 0) else Frame(1016))
    requires s0.Running? && s0.pc == 0 && s0.env == map[] && |s0.mem.objs| == (if split then 1 else 0)
    requires s1 == s0.(pc := 1, env := map[0 := Frame(0)]) && s2 == s1.(pc := 2, env := map[0 := Frame(0), 1 := a1])
    ensures Step(f, [TOP_SLOT], split, 1024, sur, s0) == s1 && Step(f, [TOP_SLOT], split, 1024, sur, s1) == s2
  {
    NormSmall(0);
    NormSmall(1016);
  }

  lemma StraddledSeven(f: Code, split: bool, sur: Surroundings, s2: State, s3: State, a1: Val)
    requires f == (if split then STRADDLED_SPLIT else STRADDLED) && a1 == (if split then Obj(0, 0) else Frame(1016))
    requires s2.Running? && s2.pc == 2 && 1 in s2.env && s2.env[1] == a1 && |s2.mem.objs| == (if split then 1 else 0)
    requires s3 == s2.(pc := 3, mem := WriteAt(s2.mem, if split then InObject(0, 0) else InFrame(1016), [Byte(7)]))
    ensures Step(f, [TOP_SLOT], split, 1024, sur, s2) == s3
  {
    SevenEncodes();
    assert Reach([TOP_SLOT], split, 1024, a1, 1) == Ok(if split then InObject(0, 0) else InFrame(1016));
    hide Reach, Encode, WriteAt;
    StoreStep(f, [TOP_SLOT], split, sur, s2, Const(7), 1, 1, if split then InObject(0, 0) else InFrame(1016), [Byte(7)]);
    hide Step;
  }

  /** Eight bytes with a 7 in the fifth. */
  const SEVEN_FIFTH: seq<MemVal> := [Byte(0), Byte(0), Byte(0), Byte(0), Byte(7), Byte(0), Byte(0), Byte(0)]

  lemma SevenFifth()
    ensures Decode(SEVEN_FIFTH) == Some(Num(0x7_0000_0000))
  {
    var bytes: seq<nat> := [0, 0, 0, 0, 7, 0, 0, 0];
    assert AllPlain(SEVEN_FIFTH) && Plain(SEVEN_FIFTH) == bytes;
    assert bytes[1..] == [0, 0, 0, 7, 0, 0, 0] && [0, 0, 0, 7, 0, 0, 0][1..] == [0, 0, 7, 0, 0, 0];
    assert [0, 0, 7, 0, 0, 0][1..] == [0, 7, 0, 0, 0] && [0, 7, 0, 0, 0][1..] == [7, 0, 0, 0];
    assert [7, 0, 0, 0][1..] == [0, 0, 0] && [0, 0, 0][1..] == [0, 0] && [0, 0][1..] == [0] && [0][1..] == [];
    assert FromLE([7, 0, 0, 0]) == 7;
    assert FromLE([0, 0, 7, 0, 0, 0]) == 0x7_0000;
  }

  /**
   * The original reads the 7 as the fifth byte of the eight. In the rewritten function the 7 is in the object, and the
   * eight bytes are read from the frame block, none of which has ever been written.
   */
  lemma {:induction false} StraddlingAccessBreaksSplit(sur: Surroundings)
    ensures var whole := Steps(STRADDLED, [TOP_SLOT], false, 1024, sur, Entry(NO_MEMORY), 6);
            whole.Done? && whole.v == 0x7_0000_0000
    ensures var parts := Steps(STRADDLED_SPLIT, [TOP_SLOT], true, 1024, sur, Entry(Parted([TOP_SLOT], NO_MEMORY)), 4);
            && parts.Running? && STRADDLED_SPLIT[parts.pc] == Load(Var(3), 8) && parts.env == StraddledEnv(Obj(0, 0))
            && parts.mem.frame == map[] && parts.mem.objs != [] && Look(parts.mem.objs[0], 0) == Byte(7)
            && Step(STRADDLED_SPLIT, [TOP_SLOT], true, 1024, sur, parts) == Stopped(Straddles)
  {
    StraddledWhole(sur);
    StraddledParts(sur);
  }

  lemma {:induction false} StraddledParts(sur: Surroundings)
    ensures var parts := Steps(STRADDLED_SPLIT, [TOP_SLOT], true, 1024, sur, Entry(Parted([TOP_SLOT], NO_MEMORY)), 4);
            && parts.Running? && STRADDLED_SPLIT[parts.pc] == Load(Var(3), 8) && parts.env == StraddledEnv(Obj(0, 0))
            && parts.mem.frame == map[] && parts.mem.objs != [] && Look(parts.mem.objs[0], 0) == Byte(7)
            && Step(STRADDLED_SPLIT, [TOP_SLOT], true, 1024, sur, parts) == Stopped(Straddles)
  {
    var m0 := Parted([TOP_SLOT], NO_MEMORY);
    var m1 := WriteAt(m0, InObject(0, 0), [Byte(7)]);
    StraddledPrefix(STRADDLED_SPLIT, true, sur, m0, m1, Obj(0, 0));
    SlotAtTop(1012);
    SlotAtTop(1016);
    assert TouchesSlot([TOP_SLOT], 1012, 8);
    hide Steps, SlotAt;
  }

  lemma {:induction false} StraddledWhole(sur: Surroundings)
    ensures var whole := Steps(STRADDLED, [TOP_SLOT], false, 1024, sur, Entry(NO_MEMORY), 6);
            whole.Done? && whole.v == 0x7_0000_0000
  {
    var m1 := WriteAt(NO_MEMORY, InFrame(1016), [Byte(7)]);
    var s4 := Running(4, 0, StraddledEnv(Frame(1016)), m1, []);
    var s5 := s4.(pc := 5, env := s4.env[4 := Num(0x7_0000_0000)]);
    StraddledPrefix(STRADDLED, false, sur, NO_MEMORY, m1, Frame(1016));
    StraddledReads(sur, s4, s5);
    StraddledReturns(sur, s5);
    hide Steps, Step, WriteAt;
    StepsOn(STRADDLED, [TOP_SLOT], false, sur, Entry(NO_MEMORY), 4, s4, s5);
    StepsOn(STRADDLED, [TOP_SLOT], false, sur, Entry(NO_MEMORY), 5, s5, Done(0x7_0000_0000, m1, []));
  }

  lemma StraddledReads(sur: Surroundings, s4: State, s5: State)
    requires s4.Running? && s4.pc == 4 && 3 in s4.env && s4.env[3] == Frame(1012) && s4.mem.frame == Put(map[], 1016, [Byte(7)])
    requires s5 == s4.(pc := 5, env := s4.env[4 := Num(0x7_0000_0000)])
    ensures Step(STRADDLED, [TOP_SLOT], false, 1024, sur, s4) == s5
  {
    SevenFifth();
    assert ReadAt(s4.mem, InFrame(1012), 8) == SEVEN_FIFTH;
    hide Decode;
    LoadStep(STRADDLED, [TOP_SLOT], false, sur, s4, 3, 8, InFrame(1012), Num(0x7_0000_0000));
    hide Step;
  }

  lemma StraddledReturns(sur: Surroundings, s5: State)
    requires s5.Running? && s5.pc == 5 && 4 in s5.env && s5.env[4] == Num(0x7_0000_0000)
    ensures Step(STRADDLED, [TOP_SLOT], false, 1024, sur, s5) == Done(0x7_0000_0000, s5.mem, s5.calls)
  {
  }

  /** The condition tells all three before the pass is run. */
  lemma NoneIsSafe()
    ensures !SafeToSplit(MISSED, [TOP_SLOT]) && !SafeToSplit(ESCAPED, [LOW_SLOT]) && !SafeToSplit(STRADDLED, [TOP_SLOT])
  {
    hide SafeToSplit, Accepted, ObjectsFor, WellFormedCode, ValidSlots, Rewritten, SplitCode;
    MissedIsUnsafe();
    EscapedIsUnsafe();
    StraddledIsUnsafe();
  }

  lemma MissedIsUnsafe()
    ensures !SafeToSplit(MISSED, [TOP_SLOT])
  {
    MissedIsAccepted();
    MissedHasMissedUse();
    hide SafeToSplit, Accepted, ObjectsFor, WellFormedCode, NoMissedUse, SplitCode;
    SafeIsExact(MISSED, [TOP_SLOT], [0], MISSED_CLASSES);
  }

  lemma MissedHasMissedUse()
    ensures !NoMissedUse(MISSED, [TOP_SLOT], MISSED_CLASSES)
  {
    assert MISSED[1] == Store(Var(0), Var(0), 8) && 0 in MISSED_CLASSES.tracked;
    hide TouchesSlot, SlotAt;
  }

  lemma EscapedIsUnsafe()
    ensures !SafeToSplit(ESCAPED, [LOW_SLOT])
  {
    EscapedIsAccepted();
    EscapedHasMissedUse();
    hide SafeToSplit, Accepted, ObjectsFor, WellFormedCode, NoMissedUse, SplitCode;
    SafeIsExact(ESCAPED, [LOW_SLOT], [0], ESCAPED_CLASSES);
  }

  lemma EscapedHasMissedUse()
    ensures !NoMissedUse(ESCAPED, [LOW_SLOT], ESCAPED_CLASSES)
  {
    SlotAtLow(0);
    assert ESCAPED[3] == Call(0, [Var(0)]) && Uses(ESCAPED[3], 0) && 0 in ESCAPED_CLASSES.tracked;
    hide TouchesSlot, SlotAt;
  }

  lemma StraddledIsUnsafe()
    ensures !SafeToSplit(STRADDLED, [TOP_SLOT])
  {
    StraddledIsAccepted();
    StraddledHasMissedUse();
    hide SafeToSplit, Accepted, ObjectsFor, WellFormedCode, NoMissedUse, SplitCode;
    SafeIsExact(STRADDLED, [TOP_SLOT], [0], STRADDLED_CLASSES);
  }

  lemma StraddledHasMissedUse()
    ensures !NoMissedUse(STRADDLED, [TOP_SLOT], STRADDLED_CLASSES)
  {
    SlotAtTop(1016);
    assert TouchesSlot([TOP_SLOT], 1012, 8);
    assert STRADDLED[4] == Load(Var(3), 8) && Accesses(STRADDLED[4], 3) && 3 in STRADDLED_CLASSES.tracked;
    hide TouchesSlot, SlotAt;
  }

  // ---------------------------------------------------------------- a function that is safe to split

  /** The top slot is written and read through one replaced address. */
  const PLAIN: Code := [
    StackBlock,
    GepConst(Var(0), 1016),
    Store(Const(7), Var(1), 1),
    Load(Var(1), 1),
    Return(Var(3))
  ]

  const PLAIN_CLASSES := Classified(map[0 := 0], map[1 := Plan(0, 0, None)])

  /** It is accepted, has an object made for the slot, and meets the condition. */
  lemma PlainIsSafe()
    ensures WellFormedCode(PLAIN) && Accepted(PLAIN, [TOP_SLOT], PLAIN_CLASSES) && ObjectsFor(PLAIN_CLASSES, [0])
    ensures SafeToSplit(PLAIN, [TOP_SLOT])
  {
    PlainIsAccepted();
    PlainHasNoMissedUse();
    hide SafeToSplit, Accepted, ObjectsFor, WellFormedCode, NoMissedUse;
    SafeIsExact(PLAIN, [TOP_SLOT], [0], PLAIN_CLASSES);
    assert Made([TOP_SLOT], [0]) == [TOP_SLOT];
  }

  lemma PlainUses()
    ensures forall i :: 0 <= i < |PLAIN| ==> (Uses(PLAIN[i], 0) <==> i == 1)
  {
  }

  lemma PlainIsAccepted()
    ensures WellFormedCode(PLAIN) && Accepted(PLAIN, [TOP_SLOT], PLAIN_CLASSES) && ObjectsFor(PLAIN_CLASSES, [0])
  {
    OneObject(PLAIN_CLASSES, 1, Plan(0, 0, None));
    SlotAtTop(1016);
    NormSmall(1016);
    PlainUses();
    hide Norm, SlotAt, ObjectsFor, Uses;
    assert Derives(PLAIN[1], 0);
    assert Justified(PLAIN, [TOP_SLOT], PLAIN_CLASSES, 1, StackSplits.Replaced(Plan(0, 0, None)));
  }

  lemma PlainHasNoMissedUse()
    ensures NoMissedUse(PLAIN, [TOP_SLOT], PLAIN_CLASSES)
  {
    hide TouchesSlot, SlotAt;
  }

  // ---------------------------------------------------------------- every function with such a call

  predicate HoldsBlock(s: State) { s.Running? && 0 in s.env ==> s.env[0] == Frame(0) }

  lemma {:induction false} StepHoldsBlock(f: Code, slots: seq<StackSlot>, size: nat, sur: Surroundings, s: State)
    requires f != [] && f[0].StackBlock? && HoldsBlock(s) && (s.Running? ==> |s.mem.objs| == |slots|)
    ensures HoldsBlock(Step(f, slots, true, size, sur, s))
  {
    hide LoadResult, StoreResult, CallResult, EvalViews, EvalNum;
  }

  lemma {:induction false} RunHoldsBlock(f: Code, slots: seq<StackSlot>, size: nat, sur: Surroundings, m: Memory, n: nat)
    requires f != [] && f[0].StackBlock? && |m.objs| == |slots|
    ensures HoldsBlock(Steps(f, slots, true, size, sur, Entry(m), n))
    decreases n
  {
    hide Step;
    if n > 0 {
      RunHoldsBlock(f, slots, size, sur, m, n - 1);
      StepHoldsBlock(f, slots, size, sur, Steps(f, slots, true, size, sur, Entry(m), n - 1));
    }
  }

  lemma {:induction false} BlockNotViewed(slots: seq<StackSlot>, env: map<nat, Val>, args: seq<Operand>)
    requires SlotAt(slots, 0).Some? && (0 in env ==> env[0] == Frame(0)) && Var(0) in args
    ensures EvalViews(slots, true, env, args).Err?
    decreases |args|
  {
    var front, last := args[..|args| - 1], args[|args| - 1];
    if last != Var(0) {
      assert Var(0) in front;
      BlockNotViewed(slots, env, front);
    }
  }

  /** Whatever the function: once an object covers byte 0, no run gets past a call that takes the block's address. */
  lemma {:induction false} EscapedCallStops(f: Code, slots: seq<StackSlot>, size: nat, sur: Surroundings, m: Memory, n: nat)
    requires f != [] && f[0].StackBlock? && |m.objs| == |slots| && SlotAt(slots, 0).Some?
    ensures var s := Steps(f, slots, true, size, sur, Entry(m), n);
            s.Running? && s.pc < |f| && f[s.pc].Call? && Var(0) in f[s.pc].args ==> Step(f, slots, true, size, sur, s).Stopped?
  {
    var s := Steps(f, slots, true, size, sur, Entry(m), n);
    RunHoldsBlock(f, slots, size, sur, m, n);
    hide Steps, SlotAt;
    if s.Running? && s.pc < |f| && f[s.pc].Call? && Var(0) in f[s.pc].args { BlockNotViewed(slots, s.env, f[s.pc].args); }
    hide EvalViews, CallResult;
  }
}
