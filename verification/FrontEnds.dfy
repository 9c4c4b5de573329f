/**
 * The two ways into the lifter: text mode opens a block at a label and after a terminator, bytes mode at
 * the units it found to be leaders. On the listing of a program they make the same blocks.
 */
module FrontEnds {
  import opened Options
  import opened Bpf
  import opened Cfg
  import opened TextMode
  import opened TextProofs
  import GraphFacts

  const TEXT := ".text"

  /** Some branch of the program goes to instruction k. */
  ghost predicate Targeted(p: Program, k: nat)
    requires DecodableProgram(p) && k <= |p|
  {
    exists j :: 0 <= j < |p| && p[j].IsBranch() && Cfg.Target(p, j) == UnitOf(p, k)
  }

  /** The assembly of the first k instructions: the function's label, and a label at each branch target. */
  ghost function Listing(fname: string, p: Program, k: nat): seq<Event>
    requires DecodableProgram(p) && k <= |p|
  {
    if k == 0 then [Event.Label(fname, TEXT)]
    else
      Listing(fname, p, k - 1)
      + (if Targeted(p, k - 1) then [Event.Label(LabelName(UnitOf(p, k - 1)), TEXT)] else [])
      + [Instruction(Cfg.Labelled(p)[k - 1])]
  }

  // ---------------------------------------------------------------- leaders

  /** A leader is the entry, a branch target, or what follows a terminator. */
  lemma {:induction false} LeadersOnly(p: Program, n: nat, u: nat)
    requires DecodableProgram(p) && n <= |p| && u in LeadersOf(p, n)
    ensures u == 0 || (exists j :: 0 <= j < n && p[j].IsBranch() && Cfg.Target(p, j) == u)
            || exists j :: 0 <= j < n && p[j].IsTerminator() && UnitOf(p, j + 1) == u
    decreases n
  {
    if n > 0 {
      var i := p[n - 1];
      assert UnitOf(p, n - 1 + 1) == UnitOf(p, n - 1) + i.Units();
      if u in LeadersOf(p, n - 1) {
        LeadersOnly(p, n - 1, u);
      } else if i.IsBranch() && Cfg.Target(p, n - 1) == u {
      } else {
        assert p[n - 1].IsTerminator() && UnitOf(p, n - 1 + 1) == u;
      }
    }
  }

  lemma {:induction false} LeaderIff(p: Program, k: nat)
    requires DecodableProgram(p) && 0 < k < |p|
    ensures UnitOf(p, k) in Leaders(p) <==> Targeted(p, k) || p[k - 1].IsTerminator()
  {
    var u := UnitOf(p, k);
    if u in Leaders(p) {
      LeadersOnly(p, |p|, u);
      UnitOfIncreases(p, 0, k);
      if j :| 0 <= j < |p| && p[j].IsTerminator() && UnitOf(p, j + 1) == u { SameUnit(p, j + 1, k); }
    }
    if p[k - 1].IsTerminator() { LeaderKinds(p, |p|, k - 1); }
    if j :| 0 <= j < |p| && p[j].IsBranch() && Cfg.Target(p, j) == u { LeaderKinds(p, |p|, j); }
  }

  lemma {:induction false} SameUnit(p: Program, j: nat, k: nat)
    requires j <= |p| && k <= |p| && UnitOf(p, j) == UnitOf(p, k)
    ensures j == k
  {
    if j < k { UnitOfIncreases(p, j, k); } else { UnitOfIncreases(p, k, j); }
  }

  lemma {:induction false} EntryIsLeader(p: Program, n: nat)
    requires DecodableProgram(p) && n <= |p|
    ensures 0 in LeadersOf(p, n)
    decreases n
  {
    if n > 0 { EntryIsLeader(p, n - 1); }
  }

  // ---------------------------------------------------------------- bodies

  /** Which blocks an event opens, in a state: one with a marker at a label, one without after a terminator. */
  function Opened(s: Stream, e: Event): seq<bool> {
    if Opening(e, s.ended) then [true]
    else if e.Instruction? && s.prevLine.TerminatorLine? then [false]
    else []
  }

  /** For each block that the events make, whether it has a marker. */
  function Marks(fname: string, es: seq<Event>): seq<bool> {
    if es == [] then []
    else
      var front := es[..|es| - 1];
      if Run(fname, front).None? then [] else Marks(fname, front) + Opened(Run(fname, front).value, es[|es| - 1])
  }

  /** A block without its marker. */
  function Body(b: McBlock, marked: bool): seq<Insn> {
    if marked && b.instrs != [] then b.instrs[1..] else b.instrs
  }

  /** The instruction lists of the blocks that hold any instruction but the marker. */
  function Bodies(bs: seq<McBlock>, marks: seq<bool>): seq<seq<Insn>>
    requires |bs| == |marks|
  {
    if bs == [] then []
    else
      var n := |bs| - 1;
      Bodies(bs[..n], marks[..n]) + if Body(bs[n], marks[n]) == [] then [] else [Body(bs[n], marks[n])]
  }

  lemma {:induction false} BodiesSnoc(bs: seq<McBlock>, marks: seq<bool>, b: McBlock, marked: bool)
    requires |bs| == |marks|
    ensures Bodies(bs + [b], marks + [marked]) == Bodies(bs, marks) + if Body(b, marked) == [] then [] else [Body(b, marked)]
  {
    assert (bs + [b])[..|bs|] == bs && (marks + [marked])[..|bs|] == marks;
  }

  /** The list with an instruction added to its last body, or as a new body. */
  function Extend(bodies: seq<seq<Insn>>, opens: bool, i: Insn): seq<seq<Insn>> {
    if opens || bodies == [] then bodies + [[i]] else bodies[|bodies| - 1 := bodies[|bodies| - 1] + [i]]
  }

  predicate Marker(b: McBlock, marked: bool) { marked ==> b.instrs != [] && b.instrs[0].Nop? }

  lemma {:induction false} BodyExtended(bs: seq<McBlock>, marks: seq<bool>, i: Insn)
    requires bs != [] && |bs| == |marks| && Marker(bs[|bs| - 1], marks[|bs| - 1])
    ensures var n := |bs| - 1;
            Bodies(AppendLast(bs, i), marks) == Extend(Bodies(bs, marks), Body(bs[n], marks[n]) == [], i)
            && Marker(AppendLast(bs, i)[n], marks[n]) && Body(AppendLast(bs, i)[n], marks[n]) != []
  {
    var n := |bs| - 1;
    var front, last, marked := bs[..n], bs[n], marks[n];
    var last' := last.(instrs := last.instrs + [i]);
    assert AppendLast(bs, i) == front + [last'];
    assert bs == front + [last] && marks == marks[..n] + [marked];
    assert Body(last', marked) == Body(last, marked) + [i];
    BodiesSnoc(front, marks[..n], last', marked);
    BodiesSnoc(front, marks[..n], last, marked);
    var f, b := Bodies(front, marks[..n]), Body(last, marked);
    hide Body, Bodies;
    if b == [] {
      assert b + [i] == [i];
    } else {
      assert (f + [b])[|f| := b + [i]] == f + [b + [i]];
    }
  }

  // ---------------------------------------------------------------- bytes mode

  function Instrs(bs: seq<McBlock>): (r: seq<seq<Insn>>)
    ensures |r| == |bs| && forall b :: 0 <= b < |bs| ==> r[b] == bs[b].instrs
  {
    seq(|bs|, b requires 0 <= b < |bs| => bs[b].instrs)
  }

  function Cut(p: Program, k: nat): seq<McBlock>
    requires DecodableProgram(p) && k <= |p|
  {
    BlocksUpTo(Cfg.Labelled(p), Units(p), Names(p), Leaders(p), k)
  }

  /** Whether instruction k starts a block. */
  ghost predicate Fresh(p: Program, k: nat)
    requires DecodableProgram(p) && k < |p|
  {
    k == 0 || Targeted(p, k) || p[k - 1].IsTerminator()
  }

  lemma {:induction false} FreshIsLeader(p: Program, k: nat)
    requires DecodableProgram(p) && k < |p|
    ensures Units(p)[k] in Leaders(p) <==> Fresh(p, k)
  {
    UnitAt(p, |p|, k);
    EntryIsLeader(p, |p|);
    if k > 0 { LeaderIff(p, k); }
  }

  lemma {:induction false} CutStep(p: Program, k: nat)
    requires DecodableProgram(p) && k < |p|
    ensures Instrs(Cut(p, k + 1)) == Extend(Instrs(Cut(p, k)), Fresh(p, k), Cfg.Labelled(p)[k])
  {
    FreshIsLeader(p, k);
    var bs, i := Cut(p, k), Cfg.Labelled(p)[k];
    if Units(p)[k] in Leaders(p) || bs == [] {
      assert Cut(p, k + 1) == bs + [McBlock(Names(p)[k], [i], [])];
    } else {
      assert Cut(p, k + 1) == AppendLast(bs, i);
    }
    hide Cut, Fresh;
  }

  // ---------------------------------------------------------------- text mode

  /** The state of text mode after the listing of the first k instructions. */
  ghost predicate Listed(p: Program, k: nat, s: Stream, marks: seq<bool>)
    requires DecodableProgram(p) && k <= |p|
  {
    && !s.ended && s.blocks != [] && !s.prevLine.NoLine? && Marked(s.blocks, marks)
    && Bodies(s.blocks, marks) == Instrs(Cut(p, k))
    && (s.prevLine.TerminatorLine? <==> k > 0 && p[k - 1].IsTerminator())
    && (Body(s.blocks[|s.blocks| - 1], marks[|s.blocks| - 1]) == [] <==> k == 0)
  }

  lemma TextIsOpen(fname: string)
    requires fname != FUNCTION_END
    ensures !DebugSection(TEXT) && LabelName(0) != FUNCTION_END
  {
    assert TEXT[1] == 't';
  }

  lemma LabelIsNotEnd(u: nat)
    ensures LabelName(u) != FUNCTION_END
  {
    assert LabelName(u)[0] == 'L' && FUNCTION_END[0] == '.';
  }

  predicate Marked(bs: seq<McBlock>, marks: seq<bool>) {
    |bs| == |marks| && forall b :: 0 <= b < |bs| ==> Marker(bs[b], marks[b])
  }

  lemma {:induction false} AppendMarked(bs: seq<McBlock>, marks: seq<bool>, i: Insn)
    requires bs != [] && Marked(bs, marks)
    ensures var n, bs' := |bs| - 1, AppendLast(bs, i);
            && Marked(bs', marks) && |bs'| == |bs| && Body(bs'[n], marks[n]) != []
            && Bodies(bs', marks) == Extend(Bodies(bs, marks), Body(bs[n], marks[n]) == [], i)
  {
    hide Bodies, Body, Marker;
    BodyExtended(bs, marks, i);
  }

  /** The blocks as they are when an instruction is about to be appended to the last of them. */
  function Room(fname: string, s: Stream): seq<McBlock> {
    if s.prevLine.TerminatorLine? then s.blocks + [McBlock(fname + Decimal(s.labelCnt + 1), [], [])] else s.blocks
  }

  lemma {:induction false} RoomMarked(fname: string, s: Stream, marks: seq<bool>, i: Insn)
    requires s.blocks != [] && Marked(s.blocks, marks)
    ensures var bs, marks' := Room(fname, s), marks + Opened(s, Instruction(i));
            && bs != [] && Marked(bs, marks') && Bodies(bs, marks') == Bodies(s.blocks, marks)
            && (Body(bs[|bs| - 1], marks'[|bs| - 1]) == []
                <==> s.prevLine.TerminatorLine? || Body(s.blocks[|s.blocks| - 1], marks[|marks| - 1]) == [])
  {
    if s.prevLine.TerminatorLine? {
      BodiesSnoc(s.blocks, marks, McBlock(fname + Decimal(s.labelCnt + 1), [], []), false);
    } else {
      assert marks + [] == marks;
    }
    hide Bodies, Decimal;
  }

  lemma {:induction false} InstructionBodies(fname: string, s: Stream, marks: seq<bool>, i: Insn)
    requires s.blocks != [] && !s.prevLine.NoLine? && Marked(s.blocks, marks)
    ensures OnInstruction(fname, s, i).Some?
    ensures var s', marks' := OnInstruction(fname, s, i).value, marks + Opened(s, Instruction(i));
            && s'.blocks != [] && s'.ended == s.ended && !s'.prevLine.NoLine?
            && (s'.prevLine.TerminatorLine? <==> i.IsTerminator())
            && Marked(s'.blocks, marks') && Body(s'.blocks[|s'.blocks| - 1], marks'[|s'.blocks| - 1]) != []
            && Bodies(s'.blocks, marks')
               == Extend(Bodies(s.blocks, marks), s.prevLine.TerminatorLine? || Body(s.blocks[|s.blocks| - 1], marks[|marks| - 1]) == [], i)
  {
    RoomMarked(fname, s, marks, i);
    assert OnInstruction(fname, s, i).value.blocks == AppendLast(Room(fname, s), i);
    hide Bodies, Body, Marked, Room, Opened, AppendLast;
    AppendMarked(Room(fname, s), marks + Opened(s, Instruction(i)), i);
  }

  lemma {:induction false} LabelBodies(s: Stream, marks: seq<bool>, name: string)
    requires !s.ended && name != FUNCTION_END && Marked(s.blocks, marks)
    ensures var s', marks' := OnLabel(s, name, TEXT), marks + [true];
            && Opened(s, Event.Label(name, TEXT)) == [true]
            && s'.blocks != [] && !s'.ended && s'.prevLine.LabelLine? && Marked(s'.blocks, marks')
            && Bodies(s'.blocks, marks') == Bodies(s.blocks, marks) && Body(s'.blocks[|s'.blocks| - 1], true) == []
  {
    TextIsOpen("");
    var b := McBlock(name, [Insn.Nop], []);
    assert Body(b, true) == [];
    BodiesSnoc(s.blocks, marks, b, true);
    hide Bodies, DebugSection;
  }

  lemma {:induction false} RunAppended(fname: string, es: seq<Event>, e: Event)
    requires Run(fname, es).Some?
    ensures Run(fname, es + [e]) == Step(fname, Run(fname, es).value, e)
    ensures Marks(fname, es + [e]) == Marks(fname, es) + Opened(Run(fname, es).value, e)
  {
    assert (es + [e])[..|es|] == es;
    hide Step, Opened;
  }

  /** The marks after the label of instruction k, if it has one. */
  ghost function WithLabel(p: Program, k: nat, marks: seq<bool>): seq<bool>
    requires DecodableProgram(p) && k < |p|
  {
    if Targeted(p, k) then marks + [true] else marks
  }

  ghost function AtLabel(p: Program, k: nat, s: Stream): Stream
    requires DecodableProgram(p) && k < |p|
  {
    if Targeted(p, k) then OnLabel(s, LabelName(UnitOf(p, k)), TEXT) else s
  }

  lemma {:induction false} LabelListed(p: Program, k: nat, s: Stream, marks: seq<bool>)
    requires DecodableProgram(p) && k < |p| && Listed(p, k, s, marks)
    ensures var s1, marks1 := AtLabel(p, k, s), WithLabel(p, k, marks);
            && (Targeted(p, k) ==> Opened(s, Event.Label(LabelName(UnitOf(p, k)), TEXT)) == [true])
            && !s1.ended && s1.blocks != [] && !s1.prevLine.NoLine? && Marked(s1.blocks, marks1)
            && Bodies(s1.blocks, marks1) == Instrs(Cut(p, k))
            && (s1.prevLine.TerminatorLine? || Body(s1.blocks[|s1.blocks| - 1], marks1[|marks1| - 1]) == [] <==> Fresh(p, k))
  {
    LabelIsNotEnd(UnitOf(p, k));
    if Targeted(p, k) { LabelBodies(s, marks, LabelName(UnitOf(p, k))); }
    hide OnLabel, Bodies, Body, Cut, Targeted, LabelName, Marker, Opened;
  }

  lemma {:induction false} ListingStep(fname: string, p: Program, k: nat, s: Stream, marks: seq<bool>)
    requires DecodableProgram(p) && k < |p| && Listed(p, k, s, marks)
    ensures var s1, i := AtLabel(p, k, s), Cfg.Labelled(p)[k];
            && (Targeted(p, k) ==> Opened(s, Event.Label(LabelName(UnitOf(p, k)), TEXT)) == [true])
            && OnInstruction(fname, s1, i).Some?
            && Listed(p, k + 1, OnInstruction(fname, s1, i).value, WithLabel(p, k, marks) + Opened(s1, Instruction(i)))
  {
    hide AtLabel, WithLabel, OnLabel, OnInstruction, Bodies, Body, Cut, Targeted, LabelName, Marked, Opened, Fresh, Instrs;
    LabelListed(p, k, s, marks);
    CutStep(p, k);
    InstructionBodies(fname, AtLabel(p, k, s), WithLabel(p, k, marks), Cfg.Labelled(p)[k]);
    GraphFacts.LabelledKind(p, k);
    hide Cfg.Labelled;
  }

  lemma {:induction false} ListingStarts(fname: string, p: Program)
    requires DecodableProgram(p) && fname != FUNCTION_END
    ensures Run(fname, Listing(fname, p, 0)).Some?
    ensures Listed(p, 0, Run(fname, Listing(fname, p, 0)).value, Marks(fname, Listing(fname, p, 0)))
  {
    assert Run(fname, []) == Some(NewStream()) && Marks(fname, []) == [];
    RunAppended(fname, [], Event.Label(fname, TEXT));
    assert [] + [Event.Label(fname, TEXT)] == Listing(fname, p, 0);
    LabelBodies(NewStream(), [], fname);
    assert Cut(p, 0) == [] && NewStream().blocks == [];
    assert [] + [true] == [true];
    hide OnLabel, Body, Bodies, Run, Cut, Marks, Opened;
  }

  lemma {:induction false} ListingRuns(fname: string, p: Program, k: nat)
    requires DecodableProgram(p) && k <= |p| && fname != FUNCTION_END
    ensures Run(fname, Listing(fname, p, k)).Some?
    ensures Listed(p, k, Run(fname, Listing(fname, p, k)).value, Marks(fname, Listing(fname, p, k)))
    decreases k
  {
    hide Listed, OnLabel, OnInstruction, LabelName, Run, Listing, Marks, Opened, AtLabel, WithLabel;
    if k == 0 {
      ListingStarts(fname, p);
    } else {
      ListingRuns(fname, p, k - 1);
      var es := Listing(fname, p, k - 1);
      ListingStep(fname, p, k - 1, Run(fname, es).value, Marks(fname, es));
      ListingGrows(fname, p, k - 1);
    }
  }

  lemma {:induction false} ListingGrows(fname: string, p: Program, k: nat)
    requires DecodableProgram(p) && k < |p| && Run(fname, Listing(fname, p, k)).Some?
    requires Targeted(p, k) ==>
               Opened(Run(fname, Listing(fname, p, k)).value, Event.Label(LabelName(UnitOf(p, k)), TEXT)) == [true]
    ensures var s, marks := Run(fname, Listing(fname, p, k)).value, Marks(fname, Listing(fname, p, k));
            var s1, i := AtLabel(p, k, s), Cfg.Labelled(p)[k];
            && Run(fname, Listing(fname, p, k + 1)) == OnInstruction(fname, s1, i)
            && Marks(fname, Listing(fname, p, k + 1)) == WithLabel(p, k, marks) + Opened(s1, Instruction(i))
  {
    var es := Listing(fname, p, k);
    var e, i := Event.Label(LabelName(UnitOf(p, k)), TEXT), Instruction(Cfg.Labelled(p)[k]);
    assert Listing(fname, p, k + 1) == es + (if Targeted(p, k) then [e] else []) + [i];
    hide OnLabel, OnInstruction, LabelName, Run, Listing, Targeted, Marks, Opened;
    if Targeted(p, k) {
      RunAppended(fname, es, e);
      RunAppended(fname, es + [e], i);
    } else {
      RunAppended(fname, es, i);
      assert es + [] == es;
    }
  }

  /**
   * On the listing of a program, text mode makes the blocks that bytes mode cuts: the same instructions in
   * the same groups, but for the marker that begins a labelled block, and for a first block that holds only the
   * function's label when the entry is a branch target.
   */
  lemma {:induction false} FrontEndsAgree(fname: string, p: Program)
    requires DecodableProgram(p) && fname != FUNCTION_END
    ensures Run(fname, Listing(fname, p, |p|)).Some?
    ensures var text, marks := Run(fname, Listing(fname, p, |p|)).value.blocks, Marks(fname, Listing(fname, p, |p|));
            && Marked(text, marks) && |Bodies(text, marks)| == |Blocks(p)|
            && forall b :: 0 <= b < |Blocks(p)| ==> Bodies(text, marks)[b] == Blocks(p)[b].instrs
  {
    ListingRuns(fname, p, |p|);
    assert Cut(p, |p|) == Blocks(p);
    hide Bodies, Run, Marks, Listing, Body, Cut;
  }
}
