/**
 * Text mode: the assembly parser's callbacks build the machine function and the list of data
 * definitions, one event at a time.
 */
module TextMode {
  import opened Options
  import opened Bpf
  import opened Cfg
  import opened Globals
  import opened McFunctions

  datatype AsmLine = NoLine | LabelLine | PlainLine | TerminatorLine

  datatype Event =
    | Label(name: string, section: string)
    | Instruction(i: Insn)
    | Bytes(data: seq<int>)
    | Fill(count: int, value: int)
    | Value(sym: string, offset: int)
    | Size
    | Alignment(align: nat)

  datatype Stream = Stream(
    blocks: seq<McBlock>,
    prevLine: AsmLine,
    curAlign: nat,
    curSym: string,
    curSec: string,
    ended: bool,
    pending: seq<DataItem>,
    globals: seq<AsmGlobal>,
    labelCnt: nat)

  const FUNCTION_END := ".Lfunc_end0"

  predicate DebugSection(section: string) { StartsWith(section, ".debug") }

  /** The guard variable, with its eight bytes of the character 7. */
  const STACK_GUARD := AsmGlobal("__stack_chk_guard", 8, ".rodata",
                                 [DataByte(55), DataByte(55), DataByte(55), DataByte(55),
                                  DataByte(55), DataByte(55), DataByte(55), DataByte(55)])

  function NewStream(): Stream {
    Stream([], NoLine, 1, "", "", false, [], [STACK_GUARD], 0)
  }

  /** The guard has eight bytes of the character 7, and the function ends at its own end label. */
  lemma GuardAndEnd()
    ensures STACK_GUARD.name == "__stack_chk_guard" && STACK_GUARD.section == ".rodata" && STACK_GUARD.align == 8
    ensures |STACK_GUARD.data| == 8 && forall x <- STACK_GUARD.data :: x == DataByte('7' as int)
    ensures FUNCTION_END == ".Lfunc_end0"
  {
  }

  // ---------------------------------------------------------------- the callbacks as functions

  /** Record the pending data under the current symbol. */
  function AddConstant(s: Stream): Stream {
    if s.pending == [] then s
    else s.(globals := s.globals + [AsmGlobal(s.curSym, s.curAlign, s.curSec, s.pending)], pending := [])
  }

  function OnLabel(s: Stream, name: string, section: string): Stream {
    if DebugSection(section) then s.(curSec := section)
    else
      var s1 := AddConstant(s).(curSym := name, curSec := section);
      var ended := s.ended || name == FUNCTION_END;
      if ended then s1.(ended := ended)
      else s1.(blocks := s1.blocks + [McBlock(name, [Insn.Nop], [])], prevLine := LabelLine)
  }

  function AppendLast(bs: seq<McBlock>, i: Insn): seq<McBlock>
    requires bs != []
  {
    bs[|bs| - 1 := bs[|bs| - 1].(instrs := bs[|bs| - 1].instrs + [i])]
  }

  /** The instruction goes to the current block; after a terminator, to a new one. */
  function OnInstruction(fname: string, s: Stream, i: Insn): Option<Stream> {
    if s.prevLine.NoLine? || s.blocks == [] then None
    else
      var s1 := if s.prevLine.TerminatorLine?
                then s.(blocks := s.blocks + [McBlock(fname + Decimal(s.labelCnt + 1), [], [])], labelCnt := s.labelCnt + 1)
                else s;
      Some(s1.(blocks := AppendLast(s1.blocks, i), prevLine := if i.IsTerminator() then TerminatorLine else PlainLine))
  }

  /** The data items an event adds while in a section. */
  function ItemsOf(e: Event, section: string): seq<DataItem> {
    match e
    case Bytes(data) => seq(|data|, k requires 0 <= k < |data| => DataByte(data[k]))
    case Fill(count, value) => if count <= 0 then [] else seq(count, _ => DataByte(value))
    case Value(sym, offset) => if DebugSection(section) then [] else [OffsetSym(sym, offset)]
    case _ => []
  }

  /** The bytes of a string in order, a run of one byte, or one reference; and references only outside debug sections. */
  lemma ItemsMean(e: Event, section: string)
    ensures DebugSection(section) <==> ".debug" <= section
    ensures e.Bytes? ==> |ItemsOf(e, section)| == |e.data| && forall k :: 0 <= k < |e.data| ==> ItemsOf(e, section)[k] == DataByte(e.data[k])
    ensures e.Fill? ==> |ItemsOf(e, section)| == (if e.count < 0 then 0 else e.count)
                        && forall x <- ItemsOf(e, section) :: x == DataByte(e.value)
    ensures e.Value? ==> ItemsOf(e, section) == if ".debug" <= section then [] else [OffsetSym(e.sym, e.offset)]
    ensures !e.Bytes? && !e.Fill? && !e.Value? ==> ItemsOf(e, section) == []
  {
  }

  /** One event; None is the failed assertion on an instruction that no label precedes. */
  function Step(fname: string, s: Stream, e: Event): Option<Stream> {
    match e
    case Label(name, section) => Some(OnLabel(s, name, section))
    case Instruction(i) => OnInstruction(fname, s, i)
    case Size => Some(AddConstant(s))
    case Alignment(a) => Some(s.(curAlign := a))
    case _ => Some(s.(pending := s.pending + ItemsOf(e, s.curSec)))
  }

  function Run(fname: string, es: seq<Event>): Option<Stream> {
    if es == [] then Some(NewStream())
    else
      var s :- Run(fname, es[..|es| - 1]);
      Step(fname, s, es[|es| - 1])
  }

  // ---------------------------------------------------------------- the callbacks as they are

  class MCStreamerWrapper {
    const fname: string
    const mf: McFunction
    var curBB: nat
    var prevLine: AsmLine
    var curAlign: nat
    var curSym: string
    var curSec: string
    var functionEnded: bool
    var curROData: seq<DataItem>
    var mcGlobals: seq<AsmGlobal>
    var labelCnt: nat

    /** Once a label has opened a block, the current block is the last one. */
    ghost predicate Valid()
      reads this, mf
    {
      !prevLine.NoLine? ==> mf.blocks != [] && curBB == |mf.blocks| - 1
    }

    function State(): Stream
      reads this, mf
    {
      Stream(mf.blocks, prevLine, curAlign, curSym, curSec, functionEnded, curROData, mcGlobals, labelCnt)
    }

    constructor (fname: string)
      ensures Valid() && this.fname == fname && State() == NewStream() && fresh(mf)
    {
      this.fname := fname;
      mf := new McFunction();
      curBB, prevLine, curAlign, curSym, curSec, functionEnded := 0, NoLine, 1, "", "", false;
      curROData, mcGlobals, labelCnt := [], [STACK_GUARD], 0;
    }

    method GetLabel() returns (name: string)
      modifies `labelCnt
      ensures labelCnt == old(labelCnt) + 1 && name == fname + Decimal(labelCnt)
    {
      labelCnt := labelCnt + 1;
      name := fname + Decimal(labelCnt);
    }

    method FlushConstant()
      modifies `mcGlobals, `curROData
      ensures State() == AddConstant(old(State()))
    {
      if curROData == [] { return; }
      mcGlobals := mcGlobals + [AsmGlobal(curSym, curAlign, curSec, curROData)];
      curROData := [];
    }

    method EmitLabel(name: string, section: string)
      requires Valid()
      modifies this, mf
      ensures Valid() && State() == OnLabel(old(State()), name, section)
    {
      if DebugSection(section) {
        curSec := section;
        return;
      }
      FlushConstant();
      curSym, curSec := name, section;
      if name == FUNCTION_END { functionEnded := true; }
      if !functionEnded {
        curBB := mf.AddBlock(name);
        mf.AddInstBegin(curBB, Insn.Nop);
        assert [Insn.Nop] + [] == [Insn.Nop];
        prevLine := LabelLine;
      }
    }

    method EmitInstruction(i: Insn)
      requires Valid() && !prevLine.NoLine?
      modifies this, mf
      ensures Valid() && OnInstruction(fname, old(State()), i) == Some(State())
    {
      if prevLine.TerminatorLine? {
        var name := GetLabel();
        curBB := mf.AddBlock(name);
      }
      mf.AddInst(curBB, i);
      prevLine := if i.IsTerminator() then TerminatorLine else PlainLine;
    }

    method EmitBytes(data: seq<int>)
      modifies `curROData
      ensures Step(fname, old(State()), Bytes(data)) == Some(State())
      ensures old(curROData) <= curROData && |curROData| == |old(curROData)| + |data|
      ensures forall k :: 0 <= k < |data| ==> curROData[|old(curROData)| + k] == DataByte(data[k])
    {
      for i := 0 to |data|
        invariant curROData == old(curROData) + ItemsOf(Bytes(data), curSec)[..i]
      {
        curROData := curROData + [DataByte(data[i])];
      }
      assert ItemsOf(Bytes(data), curSec)[..|data|] == ItemsOf(Bytes(data), curSec);
    }

    method EmitFill(count: int, value: int)
      modifies `curROData
      ensures Step(fname, old(State()), Fill(count, value)) == Some(State())
      ensures old(curROData) <= curROData && |curROData| == |old(curROData)| + if count < 0 then 0 else count
      ensures forall k :: |old(curROData)| <= k < |curROData| ==> curROData[k] == DataByte(value)
    {
      var i := 0;
      while i < count
        invariant 0 <= i && (0 < count ==> i <= count) && (count <= 0 ==> i == 0)
        invariant curROData == old(curROData) + ItemsOf(Fill(count, value), curSec)[..i]
      {
        curROData := curROData + [DataByte(value)];
        i := i + 1;
      }
      assert ItemsOf(Fill(count, value), curSec)[..i] == ItemsOf(Fill(count, value), curSec);
    }

    method EmitValue(sym: string, offset: int)
      modifies `curROData
      ensures Step(fname, old(State()), Value(sym, offset)) == Some(State())
      ensures curROData == if ".debug" <= curSec then old(curROData) else old(curROData) + [OffsetSym(sym, offset)]
    {
      if DebugSection(curSec) {
        assert curROData + [] == curROData;
        return;
      }
      curROData := curROData + [OffsetSym(sym, offset)];
    }
  }
}
