/** What text mode makes of a sequence of events. */
module TextProofs {
  import opened Options
  import opened Bpf
  import opened Cfg
  import opened Globals
  import opened TextMode

  // ---------------------------------------------------------------- what the events say

  predicate EndsFunction(e: Event) { e.Label? && e.name == FUNCTION_END && !DebugSection(e.section) }

  predicate Ended(es: seq<Event>) { exists k :: 0 <= k < |es| && EndsFunction(es[k]) }

  /** The labels that open a block: those outside debug sections and before the function's end. */
  function OpenLabels(es: seq<Event>): seq<string> {
    if es == [] then []
    else
      var e := es[|es| - 1];
      OpenLabels(es[..|es| - 1]) + if e.Label? && !DebugSection(e.section) && !Ended(es) then [e.name] else []
  }

  function InstructionsOf(es: seq<Event>): seq<Insn> {
    if es == [] then []
    else InstructionsOf(es[..|es| - 1]) + if es[|es| - 1].Instruction? then [es[|es| - 1].i] else []
  }

  /** The symbol and the section that data belongs to after the events. */
  function CurrentSymbol(es: seq<Event>): string {
    if es == [] then ""
    else
      var e := es[|es| - 1];
      if e.Label? && !DebugSection(e.section) then e.name else CurrentSymbol(es[..|es| - 1])
  }

  function CurrentSection(es: seq<Event>): string {
    if es == [] then ""
    else if es[|es| - 1].Label? then es[|es| - 1].section
    else CurrentSection(es[..|es| - 1])
  }

  function Tag(sym: string, items: seq<DataItem>): (r: seq<(string, DataItem)>)
    ensures |r| == |items|
  {
    seq(|items|, k requires 0 <= k < |items| => (sym, items[k]))
  }

  /** Every data item the events emit, under the last label before it. */
  function DataOf(es: seq<Event>): seq<(string, DataItem)> {
    if es == [] then []
    else
      var front := es[..|es| - 1];
      DataOf(front) + Tag(CurrentSymbol(front), ItemsOf(es[|es| - 1], CurrentSection(front)))
  }

  function Recorded(gs: seq<AsmGlobal>): seq<(string, DataItem)> {
    if gs == [] then [] else Recorded(gs[..|gs| - 1]) + Tag(gs[|gs| - 1].name, gs[|gs| - 1].data)
  }

  /** The assembler's own instructions are never the marker that starts a labelled block. */
  predicate NoMarkers(es: seq<Event>) {
    forall e <- es :: e.Instruction? ==> !e.i.Nop?
  }

  // ---------------------------------------------------------------- blocks

  predicate EndsInTerminator(b: McBlock) { b.instrs != [] && b.instrs[|b.instrs| - 1].IsTerminator() }

  /** A block is not empty, has terminators only at its end, and has the marker only at its start. */
  predicate SoundBlock(b: McBlock) {
    && b.instrs != []
    && (forall k :: 0 <= k < |b.instrs| - 1 ==> !b.instrs[k].IsTerminator())
    && forall k :: 0 < k < |b.instrs| ==> !b.instrs[k].Nop?
  }

  predicate Labelled(b: McBlock) { b.instrs != [] && b.instrs[0].Nop? }

  /** Without a label a block begins only where the block before it ended in a terminator. */
  predicate BeginsRightly(bs: seq<McBlock>, b: nat)
    requires b < |bs|
  {
    Labelled(bs[b]) || (b > 0 && EndsInTerminator(bs[b - 1]))
  }

  predicate SoundBlocks(bs: seq<McBlock>) {
    (forall b :: 0 <= b < |bs| ==> SoundBlock(bs[b])) && forall b: nat :: b < |bs| ==> BeginsRightly(bs, b)
  }

  predicate LineMatches(s: Stream) {
    && (s.prevLine.NoLine? <==> s.blocks == [])
    && (s.blocks != [] ==> (s.prevLine.TerminatorLine? <==> EndsInTerminator(s.blocks[|s.blocks| - 1])))
  }

  lemma BlockAdded(bs: seq<McBlock>, b: McBlock)
    requires SoundBlocks(bs) && SoundBlock(b) && (Labelled(b) || (bs != [] && EndsInTerminator(bs[|bs| - 1])))
    ensures SoundBlocks(bs + [b])
  {
    var bs' := bs + [b];
    forall k: nat | k < |bs'| ensures SoundBlock(bs'[k]) && BeginsRightly(bs', k) {
      if k < |bs| { assert SoundBlock(bs[k]) && BeginsRightly(bs, k); }
    }
  }

  lemma BlockExtended(bs: seq<McBlock>, i: Insn)
    requires SoundBlocks(bs) && bs != [] && !EndsInTerminator(bs[|bs| - 1]) && !i.Nop?
    ensures SoundBlocks(AppendLast(bs, i)) && EndsInTerminator(AppendLast(bs, i)[|bs| - 1]) == i.IsTerminator()
  {
    var bs' := AppendLast(bs, i);
    forall k: nat | k < |bs'| ensures SoundBlock(bs'[k]) && BeginsRightly(bs', k) {
      assert SoundBlock(bs[k]) && BeginsRightly(bs, k);
    }
  }

  lemma {:induction false} InstructionKeepsSound(fname: string, s: Stream, i: Insn)
    requires SoundBlocks(s.blocks) && LineMatches(s) && s.blocks != [] && !i.Nop?
    ensures OnInstruction(fname, s, i).Some?
    ensures var s' := OnInstruction(fname, s, i).value; SoundBlocks(s'.blocks) && LineMatches(s')
  {
    if s.prevLine.TerminatorLine? {
      var b := McBlock(fname + Decimal(s.labelCnt + 1), [], []);
      var b' := b.(instrs := [i]);
      assert [] + [i] == [i];
      assert AppendLast(s.blocks + [b], i) == s.blocks + [b'];
      BlockAdded(s.blocks, b');
    } else {
      BlockExtended(s.blocks, i);
    }
  }

  /** The event opens a block. */
  predicate Opening(e: Event, ended: bool) { e.Label? && !DebugSection(e.section) && !ended && e.name != FUNCTION_END }

  lemma {:induction false} SoundStep(fname: string, s: Stream, e: Event)
    requires SoundBlocks(s.blocks) && LineMatches(s) && (e.Instruction? ==> !e.i.Nop?)
    requires Step(fname, s, e).Some?
    ensures var s' := Step(fname, s, e).value;
            && SoundBlocks(s'.blocks) && LineMatches(s')
            && (s'.ended <==> s.ended || EndsFunction(e))
            && (s'.blocks == [] <==> s.blocks == [] && !Opening(e, s.ended))
  {
    match e
    case Instruction(i) =>
      hide SoundBlocks;
      InstructionKeepsSound(fname, s, i);
    case Label(name, section) =>
      var b := McBlock(name, [Insn.Nop], []);
      hide SoundBlocks, DebugSection;
      if Opening(e, s.ended) { BlockAdded(s.blocks, b); }
    case _ => hide SoundBlocks, ItemsOf;
  }

  lemma PrefixHasNoMarkers(es: seq<Event>)
    requires NoMarkers(es) && es != []
    ensures NoMarkers(es[..|es| - 1]) && (es[|es| - 1].Instruction? ==> !es[|es| - 1].i.Nop?)
  {
    assert es[|es| - 1] in es;
    forall x | x in es[..|es| - 1] ensures x.Instruction? ==> !x.i.Nop? { assert x in es; }
  }

  /** The state of the run is what the events say: sound blocks, one for each opening label, in order. */
  lemma {:induction false} BlocksAreSound(fname: string, es: seq<Event>)
    requires Run(fname, es).Some? && NoMarkers(es)
    ensures var s := Run(fname, es).value;
            SoundBlocks(s.blocks) && LineMatches(s) && (s.ended <==> Ended(es)) && (s.blocks == [] <==> OpenLabels(es) == [])
    decreases |es|
  {
    if es != [] {
      var front, e := es[..|es| - 1], es[|es| - 1];
      PrefixHasNoMarkers(es);
      EndedStep(es);
      hide Step, SoundBlocks, LineMatches, NoMarkers, Ended;
      BlocksAreSound(fname, front);
      SoundStep(fname, Run(fname, front).value, e);
    }
  }

  lemma EndedStep(es: seq<Event>)
    requires es != []
    ensures Ended(es) <==> Ended(es[..|es| - 1]) || EndsFunction(es[|es| - 1])
  {
    var front := es[..|es| - 1];
    if Ended(front) {
      var k :| 0 <= k < |front| && EndsFunction(front[k]);
      assert EndsFunction(es[k]);
    }
    if Ended(es) {
      var k :| 0 <= k < |es| && EndsFunction(es[k]);
      if k < |front| { assert EndsFunction(front[k]); }
    }
  }

  lemma {:induction false} FailsStep(fname: string, s: Stream, e: Event)
    requires SoundBlocks(s.blocks) && LineMatches(s) && (e.Instruction? ==> !e.i.Nop?)
    ensures Step(fname, s, e).None? <==> e.Instruction? && s.blocks == []
  {
    hide SoundBlocks, ItemsOf, OnLabel, AddConstant;
    if e.Instruction? && s.blocks != [] { InstructionKeepsSound(fname, s, e.i); }
  }

  /** An instruction at position k that no opening label precedes. */
  predicate Unlabelled(es: seq<Event>, k: nat)
    requires k < |es|
  {
    es[k].Instruction? && OpenLabels(es[..k]) == []
  }

  predicate SomeUnlabelled(es: seq<Event>) {
    exists k: nat :: k < |es| && Unlabelled(es, k)
  }

  lemma UnlabelledStep(es: seq<Event>)
    requires es != []
    ensures var front := es[..|es| - 1];
            SomeUnlabelled(es) <==> SomeUnlabelled(front) || (es[|es| - 1].Instruction? && OpenLabels(front) == [])
  {
    var front := es[..|es| - 1];
    hide OpenLabels;
    forall k: nat | k < |front| ensures Unlabelled(es, k) <==> Unlabelled(front, k) {
      assert es[..k] == front[..k] && es[k] == front[k];
    }
    assert Unlabelled(es, |front|) <==> es[|es| - 1].Instruction? && OpenLabels(front) == [];
    hide Unlabelled;
    if SomeUnlabelled(front) {
      var k: nat :| k < |front| && Unlabelled(front, k);
      assert Unlabelled(es, k);
    }
  }

  /** The parser's assertion fails exactly when an instruction comes before every opening label. */
  lemma {:induction false} FailsExactlyWithoutLabel(fname: string, es: seq<Event>)
    requires NoMarkers(es)
    ensures Run(fname, es).None? <==> SomeUnlabelled(es)
    decreases |es|
  {
    if es != [] {
      var front, e := es[..|es| - 1], es[|es| - 1];
      PrefixHasNoMarkers(es);
      FailsExactlyWithoutLabel(fname, front);
      UnlabelledStep(es);
      hide Step, SoundBlocks, LineMatches, NoMarkers, OpenLabels, SomeUnlabelled;
      if Run(fname, front).Some? {
        BlocksAreSound(fname, front);
        FailsStep(fname, Run(fname, front).value, e);
      }
    }
  }

  /** The labelled blocks are named by the opening labels, in order. */
  function LabelledNames(bs: seq<McBlock>): seq<string> {
    if bs == [] then []
    else LabelledNames(bs[..|bs| - 1]) + if Labelled(bs[|bs| - 1]) then [bs[|bs| - 1].name] else []
  }

  lemma {:induction false} LabelsStep(fname: string, s: Stream, e: Event)
    requires SoundBlocks(s.blocks) && LineMatches(s) && (e.Instruction? ==> !e.i.Nop?) && Step(fname, s, e).Some?
    ensures LabelledNames(Step(fname, s, e).value.blocks)
            == LabelledNames(s.blocks) + if Opening(e, s.ended) then [e.name] else []
  {
    match e
    case Instruction(i) =>
      FailsStep(fname, s, e);
      NamesKept(fname, s, i);
    case Label(name, section) =>
      var b := McBlock(name, [Insn.Nop], []);
      assert (s.blocks + [b])[..|s.blocks|] == s.blocks;
      assert LabelledNames(s.blocks + [b]) == LabelledNames(s.blocks) + [name];
      hide SoundBlocks, DebugSection, LabelledNames;
    case _ => hide SoundBlocks, ItemsOf;
  }

  lemma {:induction false} LabelsOpenBlocks(fname: string, es: seq<Event>)
    requires Run(fname, es).Some? && NoMarkers(es)
    ensures LabelledNames(Run(fname, es).value.blocks) == OpenLabels(es)
    decreases |es|
  {
    if es != [] {
      var front, e := es[..|es| - 1], es[|es| - 1];
      PrefixHasNoMarkers(es);
      EndedStep(es);
      hide Step, SoundBlocks, LineMatches, NoMarkers, Ended, LabelledNames;
      LabelsOpenBlocks(fname, front);
      BlocksAreSound(fname, front);
      LabelsStep(fname, Run(fname, front).value, e);
    } else {
      assert LabelledNames([]) == [];
    }
  }

  lemma {:induction false} NamesKept(fname: string, s: Stream, i: Insn)
    requires SoundBlocks(s.blocks) && LineMatches(s) && s.blocks != [] && !i.Nop? && OnInstruction(fname, s, i).Some?
    ensures LabelledNames(OnInstruction(fname, s, i).value.blocks) == LabelledNames(s.blocks)
  {
    var bs := s.blocks;
    if s.prevLine.TerminatorLine? {
      var b := McBlock(fname + Decimal(s.labelCnt + 1), [], []);
      assert [] + [i] == [i];
      assert AppendLast(bs + [b], i) == bs + [b.(instrs := [i])];
      assert (bs + [b.(instrs := [i])])[..|bs|] == bs;
    } else {
      assert AppendLast(bs, i)[..|bs| - 1] == bs[..|bs| - 1];
      assert bs[|bs| - 1].instrs != [];
    }
  }

  // ---------------------------------------------------------------- instructions

  function WithoutMarkers(ins: seq<Insn>): seq<Insn> {
    if ins == [] then []
    else WithoutMarkers(ins[..|ins| - 1]) + if ins[|ins| - 1].Nop? then [] else [ins[|ins| - 1]]
  }

  lemma {:induction false} WithoutMarkersSnoc(ins: seq<Insn>, i: Insn)
    ensures WithoutMarkers(ins + [i]) == WithoutMarkers(ins) + if i.Nop? then [] else [i]
  {
    assert (ins + [i])[..|ins|] == ins;
  }

  lemma {:induction false} InstructionsStep(fname: string, s: Stream, e: Event)
    requires (e.Instruction? ==> !e.i.Nop?) && Step(fname, s, e).Some?
    ensures WithoutMarkers(Concat(Step(fname, s, e).value.blocks))
            == WithoutMarkers(Concat(s.blocks)) + if e.Instruction? then [e.i] else []
  {
    match e
    case Instruction(i) =>
      AppendedOne(fname, s, i);
      WithoutMarkersSnoc(Concat(s.blocks), i);
      hide Concat, WithoutMarkers, OnInstruction;
    case Label(name, section) =>
      ConcatSnoc(s.blocks, McBlock(name, [Insn.Nop], []));
      WithoutMarkersSnoc(Concat(s.blocks), Insn.Nop);
      hide Concat, WithoutMarkers, DebugSection;
    case _ => hide Concat, WithoutMarkers, ItemsOf;
  }

  /** The blocks, less the markers, are the instruction stream: nothing is lost, repeated or moved. */
  lemma {:induction false} InstructionsInOrder(fname: string, es: seq<Event>)
    requires Run(fname, es).Some? && NoMarkers(es)
    ensures WithoutMarkers(Concat(Run(fname, es).value.blocks)) == InstructionsOf(es)
    decreases |es|
  {
    if es == [] {
      assert Concat([]) == [] && WithoutMarkers([]) == [];
    } else {
      PrefixHasNoMarkers(es);
      hide Step, NoMarkers, Concat, WithoutMarkers;
      InstructionsInOrder(fname, es[..|es| - 1]);
      InstructionsStep(fname, Run(fname, es[..|es| - 1]).value, es[|es| - 1]);
    }
  }

  lemma {:induction false} AppendedOne(fname: string, s: Stream, i: Insn)
    requires OnInstruction(fname, s, i).Some?
    ensures Concat(OnInstruction(fname, s, i).value.blocks) == Concat(s.blocks) + [i]
  {
    var bs := s.blocks;
    if s.prevLine.TerminatorLine? {
      var b := McBlock(fname + Decimal(s.labelCnt + 1), [], []);
      ConcatSnoc(bs, b);
      assert Concat(bs + [b]) == Concat(bs);
      bs := bs + [b];
    }
    ConcatExtendLast(bs, i);
  }

  // ---------------------------------------------------------------- data

  lemma TagAppend(sym: string, a: seq<DataItem>, b: seq<DataItem>)
    ensures Tag(sym, a + b) == Tag(sym, a) + Tag(sym, b)
  {
  }

  lemma {:induction false} RecordedSnoc(gs: seq<AsmGlobal>, g: AsmGlobal)
    ensures Recorded(gs + [g]) == Recorded(gs) + Tag(g.name, g.data)
  {
    assert (gs + [g])[..|gs|] == gs;
  }

  lemma {:induction false} FlushKeepsData(s: Stream)
    ensures Recorded(AddConstant(s).globals) + Tag(AddConstant(s).curSym, AddConstant(s).pending)
            == Recorded(s.globals) + Tag(s.curSym, s.pending)
    ensures AddConstant(s).pending == []
  {
    if s.pending != [] { RecordedSnoc(s.globals, AsmGlobal(s.curSym, s.curAlign, s.curSec, s.pending)); }
  }

  /** The data recorded and pending in a state. */
  function Held(s: Stream): seq<(string, DataItem)> { Recorded(s.globals) + Tag(s.curSym, s.pending) }

  lemma {:induction false} DataStep(fname: string, s: Stream, e: Event)
    requires Step(fname, s, e).Some?
    ensures Held(Step(fname, s, e).value) == Held(s) + Tag(s.curSym, ItemsOf(e, s.curSec))
    ensures var s' := Step(fname, s, e).value;
            s'.curSym == (if e.Label? && !DebugSection(e.section) then e.name else s.curSym)
            && s'.curSec == if e.Label? then e.section else s.curSec
  {
    var items := ItemsOf(e, s.curSec);
    if e.Bytes? || e.Fill? || e.Value? {
      TagAppend(s.curSym, s.pending, items);
      hide Tag, Recorded, ItemsOf, DebugSection;
    } else {
      assert items == [] && Tag(s.curSym, items) == [] && Held(s) + [] == Held(s);
      FlushKeepsData(s);
      assert forall sym :: Tag(sym, []) == [];
      hide Tag, Recorded, ItemsOf, DebugSection, AddConstant;
      FlushKeepsBlocks(s);
    }
  }

  lemma FlushKeepsBlocks(s: Stream)
    ensures AddConstant(s).(globals := s.globals, pending := s.pending) == s
  {
  }

  /**
   * Every data item is in exactly one recorded global, or pending, in order and under the label it
   * came after. Before them comes the guard variable.
   */
  lemma {:induction false} DataInOrder(fname: string, es: seq<Event>)
    requires Run(fname, es).Some?
    ensures var s := Run(fname, es).value;
            Held(s) == Recorded([STACK_GUARD]) + DataOf(es) && s.curSym == CurrentSymbol(es) && s.curSec == CurrentSection(es)
    decreases |es|
  {
    if es == [] {
      assert Tag("", []) == [];
    } else {
      hide Step, Held, Recorded, Tag, ItemsOf, DebugSection;
      var front, e := es[..|es| - 1], es[|es| - 1];
      DataInOrder(fname, front);
      DataStep(fname, Run(fname, front).value, e);
      assert Run(fname, es) == Step(fname, Run(fname, front).value, e);
      assert DataOf(es) == DataOf(front) + Tag(CurrentSymbol(front), ItemsOf(e, CurrentSection(front)));
      hide Run, DataOf;
    }
  }

  /** The symbol and the section come from one label, or no label has come yet. */
  predicate FromLabel(es: seq<Event>, sym: string, section: string) {
    Event.Label(sym, section) in es || (sym == "" && section == "")
  }

  predicate AllFromLabels(es: seq<Event>, s: Stream) {
    (forall g <- s.globals :: g == STACK_GUARD || FromLabel(es, g.name, g.section)) && FromLabel(es, s.curSym, s.curSec)
  }

  lemma {:induction false} SectionsStep(fname: string, front: seq<Event>, s: Stream, e: Event)
    requires AllFromLabels(front, s) && (e.Label? ==> !DebugSection(e.section)) && Step(fname, s, e).Some?
    ensures AllFromLabels(front + [e], Step(fname, s, e).value)
  {
    hide DebugSection, ItemsOf;
    assert forall x :: x in front ==> x in front + [e];
    assert e in front + [e];
  }

  /** A global is recorded under the section of its label, as long as no label is in a debug section. */
  lemma {:induction false} SectionsRight(fname: string, es: seq<Event>)
    requires Run(fname, es).Some? && forall e <- es :: e.Label? ==> !DebugSection(e.section)
    ensures AllFromLabels(es, Run(fname, es).value)
    decreases |es|
  {
    if es != [] {
      var front, e := es[..|es| - 1], es[|es| - 1];
      assert es == front + [e];
      hide Step, AllFromLabels, DebugSection;
      SectionsRight(fname, front);
      SectionsStep(fname, front, Run(fname, front).value, e);
    }
  }

  // ---------------------------------------------------------------- the section that data is recorded under

  predicate PlainLabel(e: Event) { e.Label? && !DebugSection(e.section) }

  /** Pending data is recorded at a label outside the debug sections and at the end of a symbol. */
  predicate Flushing(e: Event) { PlainLabel(e) || e.Size? }

  /** The data emitted since pending data was last recorded. */
  function PendingItems(es: seq<Event>): seq<DataItem> {
    if es == [] then []
    else
      var front, e := es[..|es| - 1], es[|es| - 1];
      if Flushing(e) then [] else PendingItems(front) + ItemsOf(e, CurrentSection(front))
  }

  /** The positions of the events that record a global. */
  function Flushes(es: seq<Event>): (r: seq<nat>)
    ensures forall i :: 0 <= i < |r| ==> r[i] < |es|
  {
    if es == [] then []
    else
      var front := es[..|es| - 1];
      Flushes(front) + if Flushing(es[|es| - 1]) && PendingItems(front) != [] then [|front|] else []
  }

  function CurrentAlign(es: seq<Event>): nat {
    if es == [] then 1
    else if es[|es| - 1].Alignment? then es[|es| - 1].align
    else CurrentAlign(es[..|es| - 1])
  }

  /** The section of the symbol that data belongs to. */
  function OwnSection(es: seq<Event>): string {
    if es == [] then ""
    else if PlainLabel(es[|es| - 1]) then es[|es| - 1].section
    else OwnSection(es[..|es| - 1])
  }

  predicate NoPlainAfter(es: seq<Event>, j: nat) { forall m :: j < m < |es| ==> !PlainLabel(es[m]) }

  /** A label of a debug section comes after the last label outside them. */
  predicate DebugLabelSince(es: seq<Event>) {
    exists j: nat :: j < |es| && es[j].Label? && DebugSection(es[j].section) && NoPlainAfter(es, j)
  }

  lemma {:induction false} DebugLabelStep(es: seq<Event>)
    requires es != []
    ensures var e := es[|es| - 1];
            DebugLabelSince(es) <==> !PlainLabel(e) && (e.Label? || DebugLabelSince(es[..|es| - 1]))
  {
    var front, e := es[..|es| - 1], es[|es| - 1];
    hide DebugSection;
    if DebugLabelSince(es) {
      var j: nat :| j < |es| && es[j].Label? && DebugSection(es[j].section) && NoPlainAfter(es, j);
      if j < |front| { assert front[j] == es[j] && NoPlainAfter(front, j); }
    }
    if !PlainLabel(e) && e.Label? { assert NoPlainAfter(es, |front|); }
    if !PlainLabel(e) && DebugLabelSince(front) {
      var j: nat :| j < |front| && front[j].Label? && DebugSection(front[j].section) && NoPlainAfter(front, j);
      assert forall m :: j < m < |es| ==> (m < |front| && es[m] == front[m]) || m == |front|;
      assert es[j] == front[j] && NoPlainAfter(es, j);
    }
  }

  lemma {:induction false} SectionSplits(es: seq<Event>)
    ensures !DebugSection(OwnSection(es))
    ensures if DebugLabelSince(es) then DebugSection(CurrentSection(es)) else CurrentSection(es) == OwnSection(es)
    decreases |es|
  {
    if es != [] {
      DebugLabelStep(es);
      hide DebugLabelSince, DebugSection;
      SectionSplits(es[..|es| - 1]);
    }
  }

  lemma {:induction false} GlobalsStep(fname: string, es: seq<Event>)
    requires es != [] && Run(fname, es).Some? && Run(fname, es[..|es| - 1]).Some?
    requires var s := Run(fname, es[..|es| - 1]).value; s.pending == PendingItems(es[..|es| - 1]) && s.curAlign == CurrentAlign(es[..|es| - 1])
    ensures var front := es[..|es| - 1];
            var s, s' := Run(fname, front).value, Run(fname, es).value;
            && s'.pending == PendingItems(es) && s'.curAlign == CurrentAlign(es)
            && s'.globals == s.globals + if Flushes(es) == Flushes(front) then [] else [GlobalAt(es, |front|)]
  {
    var front, e := es[..|es| - 1], es[|es| - 1];
    var s := Run(fname, front).value;
    assert es[..|front|] == front;
    DataInOrder(fname, front);
    assert Run(fname, es) == Step(fname, s, e);
    assert PendingItems(es) == if Flushing(e) then [] else PendingItems(front) + ItemsOf(e, CurrentSection(front));
    assert s.globals + [] == s.globals && s.pending + [] == s.pending;
    hide Run, Held, DebugSection, Recorded, CurrentSymbol, CurrentSection, PendingItems, DataOf;
    if !e.Bytes? && !e.Fill? && !e.Value? { assert ItemsOf(e, s.curSec) == []; }
    hide ItemsOf;
  }

  /** The global that the event at position k records: what is pending, under the symbol and section of the moment. */
  function GlobalAt(es: seq<Event>, k: nat): AsmGlobal
    requires k < |es|
  {
    AsmGlobal(CurrentSymbol(es[..k]), CurrentAlign(es[..k]), CurrentSection(es[..k]), PendingItems(es[..k]))
  }

  /** After the guard variable comes one global for each event that records one, in order. */
  lemma {:induction false} GlobalsAreFlushes(fname: string, es: seq<Event>)
    requires Run(fname, es).Some?
    ensures var s := Run(fname, es).value;
            && s.pending == PendingItems(es) && s.curAlign == CurrentAlign(es)
            && |s.globals| == 1 + |Flushes(es)| && s.globals[0] == STACK_GUARD
            && forall i :: 0 <= i < |Flushes(es)| ==> Flushes(es)[i] < |es| && s.globals[1 + i] == GlobalAt(es, Flushes(es)[i])
    decreases |es|
  {
    if es != [] {
      var front := es[..|es| - 1];
      assert Run(fname, front).Some?;
      GlobalsAreFlushes(fname, front);
      GlobalsStep(fname, es);
      assert Flushes(es) == Flushes(front) || Flushes(es) == Flushes(front) + [|front|];
      hide Run, Flushes, GlobalAt, PendingItems, CurrentAlign;
      forall i | 0 <= i < |Flushes(front)| ensures Flushes(front)[i] < |front| && GlobalAt(front, Flushes(front)[i]) == GlobalAt(es, Flushes(front)[i]) {
        SameGlobalAt(es, Flushes(front)[i]);
      }
    }
  }

  lemma SameGlobalAt(es: seq<Event>, k: nat)
    requires es != [] && k < |es| - 1
    ensures GlobalAt(es[..|es| - 1], k) == GlobalAt(es, k)
  {
    assert es[..|es| - 1][..k] == es[..k];
  }

  /**
   * The global recorded at position k has the data and the name of its symbol, and its section unless a label
   * of a debug section has come since the symbol's own: exactly then it has another one.
   */
  lemma {:induction false} SectionsExactly(fname: string, es: seq<Event>, i: nat)
    requires Run(fname, es).Some? && i < |Flushes(es)|
    ensures var gs, before := Run(fname, es).value.globals, es[..Flushes(es)[i]];
            && |gs| == 1 + |Flushes(es)|
            && gs[1 + i].name == CurrentSymbol(before) && gs[1 + i].data == PendingItems(before)
            && (gs[1 + i].section != OwnSection(before) <==> DebugLabelSince(before))
  {
    GlobalsAreFlushes(fname, es);
    SectionSplits(es[..Flushes(es)[i]]);
    hide Run, Flushes, PendingItems, CurrentAlign, OwnSection, DebugLabelSince, CurrentSection;
  }

  /**
   * With a label of a debug section between a symbol's data and the end of its definition, the data
   * is recorded under the debug section.
   */
  lemma {:induction false} DebugLabelMisplacesData(fname: string)
    ensures var es := [Event.Label("x", ".rodata"), Bytes([1]), Event.Label(".Ldebug", ".debug_info"), Size];
            Run(fname, es).Some? && Run(fname, es).value.globals == [STACK_GUARD, AsmGlobal("x", 1, ".debug_info", [DataByte(1)])]
  {
    var e0, e1, e2 := Event.Label("x", ".rodata"), Bytes([1]), Event.Label(".Ldebug", ".debug_info");
    var es := [e0, e1, e2, Size];
    assert es[..3] == [e0, e1, e2] && [e0, e1, e2][..2] == [e0, e1] && [e0, e1][..1] == [e0] && [e0][..0] == [];
    assert !DebugSection(".rodata") && DebugSection(".debug_info") by {
      assert ".rodata"[1] == 'r' && ".debug_info"[..6] == ".debug";
    }
    assert Run(fname, []) == Some(NewStream());
    assert Run(fname, [e0]).Some?;
    assert Run(fname, [e0, e1]).Some? && Run(fname, [e0, e1]).value.pending == [DataByte(1)];
    assert Run(fname, [e0, e1, e2]).Some?;
  }
}
