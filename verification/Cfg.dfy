/** The control-flow graph that bytes mode reconstructs: leaders, blocks named after the
    unit they start at, a synthetic entry block, and successor lists. */
module Cfg {
  import opened Options
  import opened Words
  import opened Bpf

  // ---------------------------------------------------------------- names

  function Digit(n: nat): char
    requires n < 10
  {
    ('0' as int + n) as char
  }

  function Decimal(n: nat): (s: string) {
    if n < 10 then [Digit(n)] else Decimal(n / 10) + [Digit(n % 10)]
  }

  function DecimalValue(s: string): int {
    if s == [] then 0 else 10 * DecimalValue(s[..|s| - 1]) + (s[|s| - 1] as int - '0' as int)
  }

  lemma {:induction false} DecimalRoundTrip(n: nat)
    ensures DecimalValue(Decimal(n)) == n
    decreases n
  {
    var s := Decimal(n);
    if n >= 10 {
      DecimalRoundTrip(n / 10);
      assert s[..|s| - 1] == Decimal(n / 10);
    } else {
      assert s[..0] == [];
    }
  }

  function LabelName(unit: nat): (s: string) { "L" + Decimal(unit) }

  const ENTRY := "bpf-tv#entry"

  /** Distinct units have distinct labels, none of them the name of the entry block. */
  lemma LabelNamesDistinct(u: nat, v: nat)
    ensures LabelName(u) == LabelName(v) ==> u == v
    ensures LabelName(u) != ENTRY && LabelName(u) != ""
  {
    DecimalRoundTrip(u);
    DecimalRoundTrip(v);
    assert LabelName(u)[1..] == Decimal(u);
    assert LabelName(v)[1..] == Decimal(v);
    assert LabelName(u)[0] == 'L' && ENTRY[0] == 'b';
  }

  // ---------------------------------------------------------------- blocks

  /** A block of machine instructions; successors are block numbers. */
  datatype McBlock = McBlock(name: string, instrs: seq<Insn>, succs: seq<nat>)

  function WithTarget(i: Insn, t: Target): Insn
    requires i.IsBranch()
  {
    match i
    case Jump(long, _) => Jump(long, t)
    case Branch(cond, w, lhs, rhs, _) => Branch(cond, w, lhs, rhs, t)
  }

  function Target(p: Program, k: nat): int
    requires DecodableProgram(p) && k < |p| && p[k].IsBranch()
  {
    TargetUnit(p[k], UnitOf(p, k))
  }

  /** Instruction k with signed fields and its branch offset replaced by a label. */
  function LabelledInsn(p: Program, k: nat): Insn
    requires DecodableProgram(p) && k < |p|
  {
    if p[k].IsBranch() && Target(p, k) >= 0 then WithTarget(SignExtended(p[k]), Label(LabelName(Target(p, k))))
    else SignExtended(p[k])
  }

  ghost predicate BranchesLand(p: Program)
    requires DecodableProgram(p)
  {
    forall k :: 0 <= k < |p| && p[k].IsBranch() ==> Boundary(p, Target(p, k))
  }

  /** The programs bytes mode gets past decoding and branch resolution. */
  ghost predicate Resolvable(p: Program) {
    DecodableProgram(p) && p != [] && BranchesLand(p)
  }

  lemma UnitNonNegative(p: Program, k: nat)
    requires DecodableProgram(p) && BranchesLand(p) && k < |p| && p[k].IsBranch()
    ensures Target(p, k) >= 0
  {
    assert Boundary(p, Target(p, k));
  }

  /** Units that start a block, as found from the first k instructions: the entry, branch
      targets, and what follows a terminator. */
  function LeadersOf(p: Program, k: nat): set<nat>
    requires DecodableProgram(p) && k <= |p|
  {
    if k == 0 then {0}
    else
      var i := p[k - 1];
      var before := LeadersOf(p, k - 1);
      var next := UnitOf(p, k - 1) + i.Units();
      if i.IsBranch() then
        var t := Target(p, k - 1);
        before + (if t >= 0 then {t as nat} else {}) + {next}
      else if i.Exit? then before + {next}
      else before
  }

  function Leaders(p: Program): set<nat>
    requires DecodableProgram(p)
  {
    LeadersOf(p, |p|)
  }

  /** The first n instructions after branch resolution. */
  function LabelledUpTo(p: Program, n: nat): (ins: seq<Insn>)
    requires DecodableProgram(p) && n <= |p|
    ensures |ins| == n
  {
    if n == 0 then [] else LabelledUpTo(p, n - 1) + [LabelledInsn(p, n - 1)]
  }

  function UnitsUpTo(p: Program, n: nat): (us: seq<nat>)
    requires n <= |p|
    ensures |us| == n
  {
    if n == 0 then [] else UnitsUpTo(p, n - 1) + [UnitOf(p, n - 1)]
  }

  function NamesUpTo(p: Program, n: nat): (ns: seq<string>)
    requires n <= |p|
    ensures |ns| == n
  {
    if n == 0 then [] else NamesUpTo(p, n - 1) + [LabelName(UnitOf(p, n - 1))]
  }

  function Labelled(p: Program): (ins: seq<Insn>)
    requires DecodableProgram(p)
    ensures |ins| == |p|
  {
    LabelledUpTo(p, |p|)
  }

  function Units(p: Program): (us: seq<nat>)
    ensures |us| == |p|
  {
    UnitsUpTo(p, |p|)
  }

  function Names(p: Program): (ns: seq<string>)
    ensures |ns| == |p|
  {
    NamesUpTo(p, |p|)
  }

  lemma {:induction false} LabelledAt(p: Program, n: nat, k: nat)
    requires DecodableProgram(p) && k < n <= |p|
    ensures LabelledUpTo(p, n)[k] == LabelledInsn(p, k)
    decreases n
  {
    if k < n - 1 {
      LabelledAt(p, n - 1, k);
    }
  }

  lemma {:induction false} UnitAt(p: Program, n: nat, k: nat)
    requires k < n <= |p|
    ensures UnitsUpTo(p, n)[k] == UnitOf(p, k)
    decreases n
  {
    if k < n - 1 {
      UnitAt(p, n - 1, k);
    }
  }

  lemma {:induction false} NameAt(p: Program, n: nat, k: nat)
    requires k < n <= |p|
    ensures NamesUpTo(p, n)[k] == LabelName(UnitOf(p, k))
    decreases n
  {
    if k < n - 1 {
      NameAt(p, n - 1, k);
    }
  }

  // The cut, for instructions `ins` starting at `units` with labels `names`.

  /** Instruction indices at which blocks start, among the first k instructions. */
  function Starts(units: seq<nat>, leaders: set<nat>, k: nat): seq<nat>
    requires k <= |units|
  {
    if k == 0 then []
    else
      var s := Starts(units, leaders, k - 1);
      if units[k - 1] in leaders || s == [] then s + [k - 1] else s
  }

  /** The blocks cut from the first k instructions. */
  function BlocksUpTo(ins: seq<Insn>, units: seq<nat>, names: seq<string>, leaders: set<nat>, k: nat): seq<McBlock>
    requires k <= |ins| == |units| == |names|
  {
    if k == 0 then []
    else
      var bs := BlocksUpTo(ins, units, names, leaders, k - 1);
      if units[k - 1] in leaders || bs == [] then bs + [McBlock(names[k - 1], [ins[k - 1]], [])]
      else bs[|bs| - 1 := bs[|bs| - 1].(instrs := bs[|bs| - 1].instrs + [ins[k - 1]])]
  }

  // ---------------------------------------------------------------- what the cut is

  /** Where block b of the first k instructions ends. */
  function EndOf(s: seq<nat>, k: nat, b: nat): nat
    requires b < |s|
  {
    if b + 1 < |s| then s[b + 1] else k
  }

  lemma {:induction false} StartsOrdered(units: seq<nat>, leaders: set<nat>, k: nat)
    requires k <= |units|
    ensures var s := Starts(units, leaders, k);
            && (k > 0 ==> |s| > 0 && s[0] == 0)
            && (forall b :: 0 <= b < |s| ==> s[b] < k)
            && (forall b, b' :: 0 <= b < b' < |s| ==> s[b] < s[b'])
    decreases k
  {
    if k > 0 {
      StartsOrdered(units, leaders, k - 1);
    }
  }

  lemma {:induction false} BlockPerStart(ins: seq<Insn>, units: seq<nat>, names: seq<string>, leaders: set<nat>, k: nat)
    requires k <= |ins| == |units| == |names|
    ensures |BlocksUpTo(ins, units, names, leaders, k)| == |Starts(units, leaders, k)|
    decreases k
  {
    if k > 0 {
      BlockPerStart(ins, units, names, leaders, k - 1);
    }
  }

  lemma {:induction false} StartsBelow(units: seq<nat>, leaders: set<nat>, k: nat)
    requires k <= |units|
    ensures k > 0 ==> Starts(units, leaders, k) != []
    ensures forall b <- Starts(units, leaders, k) :: b < k
    decreases k
  {
    if k > 0 {
      StartsBelow(units, leaders, k - 1);
    }
  }

  /** The blocks are the stretches of the instruction stream between consecutive starts,
      each named after the unit it starts at. */
  lemma {:induction false} BlockIsRange(ins: seq<Insn>, units: seq<nat>, names: seq<string>, leaders: set<nat>, k: nat,
                                        b: nat)
    requires k <= |ins| == |units| == |names| && b < |Starts(units, leaders, k)|
    ensures |BlocksUpTo(ins, units, names, leaders, k)| == |Starts(units, leaders, k)|
    ensures var s := Starts(units, leaders, k);
            IsRange(BlocksUpTo(ins, units, names, leaders, k)[b], ins, names, s[b], EndOf(s, k, b), k)
    decreases k
  {
    BlockPerStart(ins, units, names, leaders, k);
    BlockPerStart(ins, units, names, leaders, k - 1);
    var s, s' := Starts(units, leaders, k), Starts(units, leaders, k - 1);
    if b == |s'| {
      assert ins[k - 1..k] == [ins[k - 1]];
    } else {
      StartsBelow(units, leaders, k - 1);
      BlockIsRange(ins, units, names, leaders, k - 1, b);
      if b == |s'| - 1 && |s| == |s'| {
        assert ins[s[b]..k] == ins[s[b]..k - 1] + [ins[k - 1]];
      }
    }
  }

  predicate IsRange(b: McBlock, ins: seq<Insn>, names: seq<string>, first: nat, end: nat, k: nat)
    requires k <= |ins| == |names|
  {
    first < end <= k && b == McBlock(names[first], ins[first..end], [])
  }

  /** Exactly the leaders (and the first instruction) start blocks. */
  lemma {:induction false} StartIffLeader(units: seq<nat>, leaders: set<nat>, k: nat, j: nat)
    requires j < k <= |units|
    ensures j in Starts(units, leaders, k) <==> j == 0 || units[j] in leaders
    decreases k
  {
    StartsOrdered(units, leaders, k - 1);
    if j < k - 1 {
      StartIffLeader(units, leaders, k - 1, j);
    }
  }

  /** Concatenating the blocks gives the instruction stream back. */
  function Concat(bs: seq<McBlock>): seq<Insn> {
    if bs == [] then [] else Concat(bs[..|bs| - 1]) + bs[|bs| - 1].instrs
  }

  lemma {:induction false} CutConcatenates(ins: seq<Insn>, units: seq<nat>, names: seq<string>, leaders: set<nat>, k: nat)
    requires k <= |ins| == |units| == |names|
    ensures Concat(BlocksUpTo(ins, units, names, leaders, k)) == ins[..k]
    decreases k
  {
    if k > 0 {
      CutConcatenates(ins, units, names, leaders, k - 1);
      var bs := BlocksUpTo(ins, units, names, leaders, k - 1);
      assert ins[..k] == ins[..k - 1] + [ins[k - 1]];
      if units[k - 1] in leaders || bs == [] {
        ConcatSnoc(bs, McBlock(names[k - 1], [ins[k - 1]], []));
      } else {
        ConcatExtendLast(bs, ins[k - 1]);
      }
    }
  }

  lemma {:induction false} ConcatSnoc(bs: seq<McBlock>, b: McBlock)
    ensures Concat(bs + [b]) == Concat(bs) + b.instrs
  {
    assert (bs + [b])[..|bs|] == bs;
  }

  lemma ConcatExtendLast(bs: seq<McBlock>, i: Insn)
    requires bs != []
    ensures var last := bs[|bs| - 1];
            Concat(bs[|bs| - 1 := last.(instrs := last.instrs + [i])]) == Concat(bs) + [i]
  {
    var last := bs[|bs| - 1];
    var bs' := bs[|bs| - 1 := last.(instrs := last.instrs + [i])];
    var front := Concat(bs[..|bs| - 1]);
    assert bs'[..|bs'| - 1] == bs[..|bs| - 1];
    assert front + (last.instrs + [i]) == (front + last.instrs) + [i];
  }

  lemma {:induction false} LeaderKinds(p: Program, n: nat, k: nat)
    requires DecodableProgram(p) && k < n <= |p|
    ensures p[k].IsTerminator() ==> UnitOf(p, k + 1) in LeadersOf(p, n)
    ensures p[k].IsBranch() && Target(p, k) >= 0 ==> Target(p, k) in LeadersOf(p, n)
    decreases n
  {
    if k < n - 1 {
      LeaderKinds(p, n - 1, k);
    }
  }

  // ---------------------------------------------------------------- which block an instruction is in

  function BlockOf(units: seq<nat>, leaders: set<nat>, k: nat): (b: int)
    requires k < |units|
  {
    |Starts(units, leaders, k + 1)| - 1
  }

  /** Instruction k lies in its block; a leader is first there. */
  lemma {:induction false} InBlock(units: seq<nat>, leaders: set<nat>, n: nat, k: nat)
    requires k < n <= |units|
    ensures var s, b := Starts(units, leaders, n), BlockOf(units, leaders, k);
            && 0 <= b < |s| && s[b] <= k < EndOf(s, n, b) <= n
            && s[b] == Starts(units, leaders, k + 1)[b]
            && (units[k] in leaders ==> s[b] == k)
    decreases n
  {
    if k == n - 1 {
      StartsBelow(units, leaders, n);
      var s := Starts(units, leaders, n);
      assert s[|s| - 1] in s;
    } else {
      InBlock(units, leaders, n - 1, k);
    }
  }

  /** Instruction k is in block b, and the one after it follows there or, if it is a leader,
      starts block b' == b + 1. */
  predicate NextStart(s: seq<nat>, n: nat, b: int, k: nat, leader: bool, b': int) {
    && 0 <= b < |s| && s[b] <= k && 0 <= b' < |s|
    && if leader then EndOf(s, n, b) == k + 1 == s[b'] && b' == b + 1 else k + 1 < EndOf(s, n, b) && b' == b
  }

  lemma {:induction false} NextInBlock(units: seq<nat>, leaders: set<nat>, n: nat, k: nat)
    requires k + 1 < n <= |units|
    ensures NextStart(Starts(units, leaders, n), n, BlockOf(units, leaders, k), k, units[k + 1] in leaders,
                      BlockOf(units, leaders, k + 1))
  {
    InBlock(units, leaders, n, k);
    InBlock(units, leaders, n, k + 1);
    StartsBelow(units, leaders, k + 1);
  }

  lemma {:induction false} LastInBlock(units: seq<nat>, leaders: set<nat>, k: nat)
    requires k + 1 == |units|
    ensures var s, b := Starts(units, leaders, |units|), BlockOf(units, leaders, k);
            0 <= b < |s| && b + 1 == |s| && EndOf(s, |units|, b) == |units|
  {
    StartsBelow(units, leaders, |units|);
  }

  // ---------------------------------------------------------------- entry block and successors

  function WithEntry(bs: seq<McBlock>): seq<McBlock> {
    [McBlock(ENTRY, [Jump(false, Offset(1))], [])] + bs
  }

  /** The first block of that name. */
  function FindBlock(bs: seq<McBlock>, name: string): (r: Option<nat>)
    ensures r.Some? ==> r.value < |bs| && bs[r.value].name == name
    ensures r.None? ==> forall b :: 0 <= b < |bs| ==> bs[b].name != name
  {
    if bs == [] then None
    else if bs[0].name == name then Some(0)
    else
      var r :- FindBlock(bs[1..], name);
      Some(r + 1)
  }

  function AddSucc(succs: seq<nat>, b: nat): seq<nat> { if b in succs then succs else succs + [b] }

  function NextBlock(bs: seq<McBlock>, b: nat): Option<nat> { if b + 1 < |bs| then Some(b + 1) else None }

  function AddOptional(succs: seq<nat>, b: Option<nat>): seq<nat> {
    if b.Some? then AddSucc(succs, b.value) else succs
  }

  function SuccsOf(bs: seq<McBlock>, b: nat): seq<nat>
    requires b < |bs|
  {
    var instrs := bs[b].instrs;
    if instrs == [] then []
    else
      var last := instrs[|instrs| - 1];
      if b == 0 && last.Jump? && last.target.Offset? then AddOptional([], NextBlock(bs, b))
      else if last.Branch? && last.target.Label? then
        AddOptional(AddOptional([], FindBlock(bs, last.target.name)), NextBlock(bs, b))
      else if last.Jump? && last.target.Label? then AddOptional([], FindBlock(bs, last.target.name))
      else if last.Exit? then []
      else AddOptional([], NextBlock(bs, b))
  }

  function WithSuccs(bs: seq<McBlock>): (r: seq<McBlock>)
    ensures |r| == |bs|
    ensures forall b {:trigger r[b]} :: 0 <= b < |bs| ==> r[b] == bs[b].(succs := SuccsOf(bs, b))
  {
    seq(|bs|, b requires 0 <= b < |bs| => bs[b].(succs := SuccsOf(bs, b)))
  }

  function Blocks(p: Program): seq<McBlock>
    requires DecodableProgram(p)
  {
    BlocksUpTo(Labelled(p), Units(p), Names(p), Leaders(p), |p|)
  }

  /** The control-flow graph that gets lifted. */
  function Graph(p: Program): seq<McBlock>
    requires DecodableProgram(p)
  {
    WithSuccs(WithEntry(Blocks(p)))
  }

  function StartsOf(p: Program): seq<nat>
    requires DecodableProgram(p)
  {
    Starts(Units(p), Leaders(p), |p|)
  }

  // ---------------------------------------------------------------- the graph follows the program

  /** Block and index, in the graph, of instruction k. */
  function GraphBlock(p: Program, k: nat): int
    requires DecodableProgram(p) && k < |p|
  {
    1 + BlockOf(Units(p), Leaders(p), k)
  }

  function GraphIndex(p: Program, k: nat): int
    requires DecodableProgram(p) && k < |p|
    requires 0 <= BlockOf(Units(p), Leaders(p), k) < |StartsOf(p)|
  {
    k - StartsOf(p)[BlockOf(Units(p), Leaders(p), k)]
  }

  lemma GraphOver(bs: seq<McBlock>, b: nat)
    requires b < |bs|
    ensures |WithSuccs(WithEntry(bs))| == 1 + |bs|
    ensures WithSuccs(WithEntry(bs))[1 + b].name == bs[b].name
    ensures WithSuccs(WithEntry(bs))[1 + b].instrs == bs[b].instrs
  {
    assert WithEntry(bs)[1 + b] == bs[b];
  }

  /** Block b of the graph, counted after the entry block. */
  lemma GraphBlockAt(p: Program, b: nat)
    requires DecodableProgram(p) && b < |StartsOf(p)|
    ensures |Graph(p)| == 1 + |StartsOf(p)| && |Blocks(p)| == |StartsOf(p)|
    ensures var s := StartsOf(p);
            && s[b] < EndOf(s, |p|, b) <= |p|
            && Graph(p)[1 + b].name == Blocks(p)[b].name == Names(p)[s[b]]
            && Graph(p)[1 + b].instrs == Labelled(p)[s[b]..EndOf(s, |p|, b)]
  {
    BlockIsRange(Labelled(p), Units(p), Names(p), Leaders(p), |p|, b);
    assert IsRange(Blocks(p)[b], Labelled(p), Names(p), StartsOf(p)[b], EndOf(StartsOf(p), |p|, b), |p|);
    GraphOver(Blocks(p), b);
  }

  ghost predicate Inside(g: seq<McBlock>, b: int, j: int, i: Insn) {
    1 <= b < |g| && 0 <= j < |g[b].instrs| && g[b].instrs[j] == i
  }

  lemma InsideBlock(g: seq<McBlock>, ins: seq<Insn>, s: seq<nat>, b: nat, k: nat)
    requires b < |s| && |g| == 1 + |s| && s[b] <= k < EndOf(s, |ins|, b) <= |ins|
    requires g[1 + b].instrs == ins[s[b]..EndOf(s, |ins|, b)]
    ensures Inside(g, 1 + b, k - s[b], ins[k])
  {
  }

  lemma BlockOfInRange(p: Program, k: nat)
    requires DecodableProgram(p) && k < |p|
    ensures 0 <= BlockOf(Units(p), Leaders(p), k) < |StartsOf(p)|
  {
    InBlock(Units(p), Leaders(p), |p|, k);
  }

  /** Every instruction is in the graph at its block and index. */
  lemma GraphInsnAt(p: Program, k: nat)
    requires DecodableProgram(p) && k < |p|
    requires 0 <= BlockOf(Units(p), Leaders(p), k) < |StartsOf(p)|
    ensures Inside(Graph(p), GraphBlock(p, k), GraphIndex(p, k), Labelled(p)[k])
  {
    var b := BlockOf(Units(p), Leaders(p), k);
    InBlock(Units(p), Leaders(p), |p|, k);
    GraphBlockAt(p, b);
    InsideBlock(Graph(p), Labelled(p), StartsOf(p), b, k);
  }

  lemma GraphBlockSize(p: Program, b: nat)
    requires DecodableProgram(p) && b < |StartsOf(p)|
    ensures |Graph(p)| == 1 + |StartsOf(p)|
    ensures |Graph(p)[1 + b].instrs| == EndOf(StartsOf(p), |p|, b) - StartsOf(p)[b]
  {
    GraphBlockAt(p, b);
  }

  /** From index j of block b, falling through leads to index j' of block b'; the next
      instruction is a leader or not. */
  predicate Follows(g: seq<McBlock>, b: int, j: int, leader: bool, b': int, j': int) {
    && 0 <= b < |g|
    && if leader then j + 1 == |g[b].instrs| && b' == b + 1 && j' == 0
       else j + 1 < |g[b].instrs| && b' == b && j' == j + 1
  }

  /** The instruction that follows by falling through is next in the block or first in the
      next block. */
  lemma GraphNext(p: Program, k: nat)
    requires DecodableProgram(p) && k + 1 < |p|
    requires 0 <= BlockOf(Units(p), Leaders(p), k) < |StartsOf(p)|
    requires 0 <= BlockOf(Units(p), Leaders(p), k + 1) < |StartsOf(p)|
    ensures Follows(Graph(p), GraphBlock(p, k), GraphIndex(p, k), UnitOf(p, k + 1) in Leaders(p),
                    GraphBlock(p, k + 1), GraphIndex(p, k + 1))
  {
    var units, leaders := Units(p), Leaders(p);
    UnitAt(p, |p|, k + 1);
    NextInBlock(units, leaders, |p|, k);
    GraphBlockSize(p, BlockOf(units, leaders, k));
    NextPlace(Graph(p), StartsOf(p), |p|, BlockOf(units, leaders, k), k, units[k + 1] in leaders,
              BlockOf(units, leaders, k + 1));
  }

  lemma NextPlace(g: seq<McBlock>, s: seq<nat>, n: nat, b: nat, k: nat, leader: bool, b': nat)
    requires NextStart(s, n, b, k, leader, b')
    requires |g| == 1 + |s| && |g[1 + b].instrs| == EndOf(s, n, b) - s[b]
    ensures Follows(g, 1 + b, k - s[b], leader, 1 + b', k + 1 - s[b'])
  {
  }

  lemma GraphLast(p: Program)
    requires DecodableProgram(p) && p != []
    requires 0 <= BlockOf(Units(p), Leaders(p), |p| - 1) < |StartsOf(p)|
    ensures GraphBlock(p, |p| - 1) + 1 == |Graph(p)|
    ensures GraphIndex(p, |p| - 1) + 1 == |Graph(p)[|Graph(p)| - 1].instrs|
  {
    LastInBlock(Units(p), Leaders(p), |p| - 1);
    GraphBlockAt(p, BlockOf(Units(p), Leaders(p), |p| - 1));
  }

  lemma SliceAt(ins: seq<Insn>, i: nat, e: nat, k: nat)
    requires i <= k < e <= |ins|
    ensures |ins[i..e]| == e - i && ins[i..e][k - i] == ins[k]
  {
  }

  lemma {:induction false} TerminatorEndsBlock(p: Program, k: nat)
    requires DecodableProgram(p) && k < |p| && p[k].IsTerminator()
    ensures k + 1 < |p| ==> UnitOf(p, k + 1) in Leaders(p)
  {
    LeaderKinds(p, |p|, k);
  }

  lemma NamesDistinct(p: Program, j: nat, k: nat)
    requires j < |p| && k < |p|
    ensures Names(p)[j] == Names(p)[k] ==> j == k
    ensures Names(p)[j] != ENTRY && Names(p)[j] != ""
  {
    NameAt(p, |p|, j);
    NameAt(p, |p|, k);
    LabelNamesDistinct(UnitOf(p, j), UnitOf(p, k));
    if UnitOf(p, j) == UnitOf(p, k) {
      UnitOfInjective(p, j, k);
    }
  }

  /** A block is found by the label of its first instruction, and by no other. */
  lemma NameFindsBlock(p: Program, b: nat)
    requires DecodableProgram(p) && b < |StartsOf(p)|
    ensures StartsOf(p)[b] < |p|
    ensures FindBlock(WithEntry(Blocks(p)), Names(p)[StartsOf(p)[b]]) == Some(1 + b)
  {
    StartsOrdered(Units(p), Leaders(p), |p|);
    GraphBlockAt(p, b);
    var bs, s := Blocks(p), StartsOf(p);
    forall b' | 0 <= b' < |bs| ensures bs[b'].name == bs[b].name ==> b' == b {
      GraphBlockAt(p, b');
      NamesDistinct(p, s[b], s[b']);
    }
    NamesDistinct(p, s[b], s[b]);
    FindUnique(bs, b);
  }

  lemma FindUnique(bs: seq<McBlock>, b: nat)
    requires b < |bs| && bs[b].name != ENTRY
    requires forall b' :: 0 <= b' < |bs| && bs[b'].name == bs[b].name ==> b' == b
    ensures FindBlock(WithEntry(bs), bs[b].name) == Some(1 + b)
  {
    var es := WithEntry(bs);
    assert es[1 + b] == bs[b];
    var r := FindBlock(es, bs[b].name);
    assert r.Some?;
    if r.value > 0 { assert es[r.value] == bs[r.value - 1]; }
  }

  /** Every accepted branch target is the first instruction of exactly one block, the one
      found by the label put into the branch. */
  lemma {:induction false} TargetStartsBlock(p: Program, k: nat, t: nat)
    requires DecodableProgram(p) && k < |p| && p[k].IsBranch() && t < |p| && UnitOf(p, t) == Target(p, k)
    ensures 0 <= BlockOf(Units(p), Leaders(p), t) < |StartsOf(p)|
    ensures GraphIndex(p, t) == 0
    ensures LabelledInsn(p, k) == WithTarget(SignExtended(p[k]), Label(Names(p)[t]))
    ensures FindBlock(WithEntry(Blocks(p)), Names(p)[t]) == Some(GraphBlock(p, t) as nat)
  {
    LeaderKinds(p, |p|, k);
    UnitAt(p, |p|, t);
    NameAt(p, |p|, t);
    InBlock(Units(p), Leaders(p), |p|, t);
    NameFindsBlock(p, BlockOf(Units(p), Leaders(p), t));
  }
}
