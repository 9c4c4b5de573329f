/** The function under construction, and what lifting instructions and blocks does to it. */
module Emission {
  import opened Options
  import opened Ir
  import opened Codegen
  import opened Cfg
  import Bpf

  /** Blocks so far, the block being appended to, the next value name, and the next free
      byte of the global of unspecified bytes. */
  datatype Emitted = Emitted(blocks: Fn, cur: nat, next: nat, off: nat) {
    predicate Valid() { cur < |blocks| }

    predicate Open() { Valid() && blocks[cur].term.None? }

    function Append(p: Piece): Emitted
      requires Valid()
    {
      var b := blocks[cur];
      this.(blocks := blocks[cur := b.(insts := b.insts + p.code)], next := p.next)
    }

    function Close(t: Term): Emitted
      requires Valid()
    {
      this.(blocks := blocks[cur := blocks[cur].(term := Some(t))])
    }

    /** End the current block, add closed blocks, and go on in a new open one. */
    function Fork(s: Split): (e: Emitted)
      requires Valid()
      ensures e.Valid() && |blocks| <= |e.blocks|
    {
      this.(blocks := Close(s.exit).blocks + s.arms + [Block("", s.tail, None)], cur := |blocks| + |s.arms|)
    }
  }

  function Apply(e: Emitted, fr: Fragment): (e': Emitted)
    requires e.Valid()
    ensures e'.Valid() && |e.blocks| <= |e'.blocks|
  {
    var e1 := e.Append(Piece(fr.head, Const(0, 0), fr.next)).(off := fr.off);
    if fr.split.Some? then e1.Fork(fr.split.value) else e1
  }

  /** The first block of that name; one past the end when there is none. */
  function BlockNamed(f: Fn, name: string): nat {
    if f == [] || f[0].name == name then 0 else 1 + BlockNamed(f[1..], name)
  }

  /** The name of the first successor that is not `name`, else `name` itself. */
  function OtherSuccessor(g: seq<McBlock>, succs: seq<nat>, name: string): string {
    if succs == [] then name
    else if succs[0] < |g| && g[succs[0]].name != name then g[succs[0]].name
    else OtherSuccessor(g, succs[1..], name)
  }

  /** Taken and fall-through blocks of the conditional branch ending block b. */
  function BranchTargets(f: Fn, g: seq<McBlock>, b: nat, name: string): (nat, nat)
    requires b < |g|
  {
    (BlockNamed(f, name), BlockNamed(f, OtherSuccessor(g, g[b].succs, name)))
  }

  function SoleSuccessor(f: Fn, g: seq<McBlock>, b: nat): nat
    requires b < |g|
  {
    if |g[b].succs| > 0 && g[b].succs[0] < |g| then BlockNamed(f, g[g[b].succs[0]].name) else |f|
  }

  function LiftReturn(e: Emitted): Emitted
    requires e.Valid()
  {
    var p := ReadReg(Bpf.R0, Bpf.W64, e.next);
    e.Append(p).Close(Return(p.val))
  }

  /** Lifting one instruction of block b. */
  function LiftInsn(e: Emitted, g: seq<McBlock>, b: nat, i: Bpf.Insn): (e': Emitted)
    requires e.Valid() && b < |g|
    ensures e'.Valid() && |e.blocks| <= |e'.blocks|
  {
    if i.Exit? then LiftReturn(e)
    else if i.Jump? then
      e.Close(Goto(if i.target.Label? then BlockNamed(e.blocks, i.target.name) else SoleSuccessor(e.blocks, g, b)))
    else if i.Branch? then
      var p := ConditionPiece(i.cond, i.w, i.lhs, i.rhs, e.next);
      var (t, f) := BranchTargets(e.blocks, g, b, if i.target.Label? then i.target.name else "");
      e.Append(p).Close(CondGoto(p.val, t, f))
    else Apply(e, DataFragment(i, e.next, e.off, |e.blocks|))
  }

  /** The first j instructions of block b. */
  function LiftInstrs(e: Emitted, g: seq<McBlock>, b: nat, j: nat): (e': Emitted)
    requires e.Valid() && b < |g| && j <= |g[b].instrs|
    ensures e'.Valid() && |e.blocks| <= |e'.blocks|
  {
    if j == 0 then e else LiftInsn(LiftInstrs(e, g, b, j - 1), g, b, g[b].instrs[j - 1])
  }

  /** Machine code falls through, the IR may not: close the block if it is still open. */
  function FallThrough(e: Emitted, g: seq<McBlock>, b: nat): (e': Emitted)
    requires e.Valid() && b < |g|
    ensures e'.Valid() && |e.blocks| <= |e'.blocks|
  {
    if e.blocks[e.cur].term.Some? then e
    else if |g[b].succs| == 0 then LiftReturn(e)
    else if |g[b].succs| == 1 then e.Close(Goto(SoleSuccessor(e.blocks, g, b)))
    else e
  }

  function LiftBlock(e: Emitted, g: seq<McBlock>, b: nat): (e': Emitted)
    requires b < |g| <= |e.blocks|
    ensures e'.Valid() && |e.blocks| <= |e'.blocks|
  {
    FallThrough(LiftInstrs(e.(cur := b), g, b, |g[b].instrs|), g, b)
  }

  function LiftBlocks(e: Emitted, g: seq<McBlock>, n: nat): (e': Emitted)
    requires e.Valid() && n <= |g| <= |e.blocks|
    ensures e'.Valid() && |e.blocks| <= |e'.blocks|
  {
    if n == 0 then e
    else
      var e1 := LiftBlocks(e, g, n - 1);
      LiftBlock(e1, g, n - 1)
  }

  // ---------------------------------------------------------------- scratch bytes

  /** A call takes 40 scratch bytes, no other instruction takes any. */
  lemma LiftInsnOff(e: Emitted, g: seq<McBlock>, b: nat, i: Bpf.Insn)
    requires e.Valid() && b < |g|
    ensures LiftInsn(e, g, b, i).off == e.off + if i.Call? then 40 else 0
  {
  }

  lemma FallThroughOff(e: Emitted, g: seq<McBlock>, b: nat)
    requires e.Valid() && b < |g|
    ensures FallThrough(e, g, b).off == e.off
  {
  }

  // ---------------------------------------------------------------- code is only ever added

  /** Open blocks only grow at the end, closed blocks never change. */
  ghost predicate Extends(f: Fn, f': Fn) {
    && |f| <= |f'|
    && forall b :: 0 <= b < |f| ==> ExtendsBlock(f[b], f'[b])
  }

  predicate ExtendsBlock(b: Block, b': Block) {
    b'.name == b.name && b.insts <= b'.insts && (b.term.Some? ==> b' == b)
  }

  lemma ExtendsTransitive(f: Fn, f': Fn, f'': Fn)
    requires Extends(f, f') && Extends(f', f'')
    ensures Extends(f, f'')
  {
    forall b | 0 <= b < |f| ensures ExtendsBlock(f[b], f''[b]) {
      assert ExtendsBlock(f[b], f'[b]) && ExtendsBlock(f'[b], f''[b]);
    }
  }

  // ---------------------------------------------------------------- the emission invariant

  /** While block b is being lifted: its own last piece is the only open block apart from
      the untouched blocks still to come, and every diamond block is closed. */
  ghost predicate Lifting(e: Emitted, g: seq<McBlock>, b: nat) {
    && b < |g| <= |e.blocks| && e.Valid()
    && (e.cur == b || e.cur >= |g|)
    && (forall k :: 0 <= k < |g| ==> e.blocks[k].name == g[k].name)
    && (forall k :: |g| <= k < |e.blocks| ==> e.blocks[k].name == "")
    && (forall k :: 0 <= k < |e.blocks| && k != e.cur && !(b < k < |g|) ==> e.blocks[k].term.Some?)
    && (forall k :: b < k < |g| ==> Untouched(e.blocks[k]))
  }

  predicate Untouched(b: Block) { b.insts == [] && b.term.None? }

  /** Before block b: all earlier blocks and all diamond blocks are closed. */
  ghost predicate Between(e: Emitted, g: seq<McBlock>, b: nat) {
    && b <= |g| <= |e.blocks|
    && (forall k :: 0 <= k < |g| ==> e.blocks[k].name == g[k].name)
    && (forall k :: |g| <= k < |e.blocks| ==> e.blocks[k].name == "")
    && (forall k :: 0 <= k < b || |g| <= k < |e.blocks| ==> e.blocks[k].term.Some?)
    && (forall k :: b <= k < |g| ==> (if k == 0 then e.blocks[k].term.None? else Untouched(e.blocks[k])))
  }

  lemma AppendKeeps(e: Emitted, g: seq<McBlock>, b: nat, p: Piece, off: nat)
    requires Lifting(e, g, b) && e.Open()
    ensures var e' := e.Append(p).(off := off);
            Lifting(e', g, b) && e'.Open() && Extends(e.blocks, e'.blocks) && e'.cur == e.cur
  {
  }

  lemma CloseKeeps(e: Emitted, g: seq<McBlock>, b: nat, t: Term)
    requires Lifting(e, g, b) && e.Open()
    ensures Lifting(e.Close(t), g, b) && Extends(e.blocks, e.Close(t).blocks) && !e.Close(t).Open()
  {
  }

  lemma ForkKeeps(e: Emitted, g: seq<McBlock>, b: nat, s: Split)
    requires Lifting(e, g, b) && e.Open()
    requires forall k :: 0 <= k < |s.arms| ==> s.arms[k].name == "" && s.arms[k].term.Some?
    ensures Lifting(e.Fork(s), g, b) && Extends(e.blocks, e.Fork(s).blocks) && e.Fork(s).Open()
  {
    var e' := e.Fork(s);
    var n := |e.blocks|;
    forall k | 0 <= k < |e'.blocks|
      ensures k < n ==> e'.blocks[k] == e.Close(s.exit).blocks[k]
      ensures n <= k < n + |s.arms| ==> e'.blocks[k] == s.arms[k - n]
      ensures k == n + |s.arms| ==> e'.blocks[k] == Block("", s.tail, None)
    {
    }
  }

  /** Arms of a division are closed, nameless blocks. */
  lemma ArmsClosed(i: Bpf.Insn, id: nat, off: nat, base: nat)
    requires !i.IsTerminator()
    ensures var fr := DataFragment(i, id, off, base);
            fr.split.Some? ==>
              && i.Alu? && IsDivision(i.op)
              && |fr.split.value.arms| == ArmCount(i.op)
              && forall k :: 0 <= k < |fr.split.value.arms| ==>
                   fr.split.value.arms[k].name == "" && fr.split.value.arms[k].term.Some?
  {
  }

  /** Lifting an instruction keeps the emission invariant; the block is closed exactly by
      a terminator. */
  lemma LiftInsnKeeps(e: Emitted, g: seq<McBlock>, b: nat, i: Bpf.Insn)
    requires Lifting(e, g, b) && e.Open()
    ensures var e' := LiftInsn(e, g, b, i);
            && Lifting(e', g, b)
            && Extends(e.blocks, e'.blocks)
            && (e'.Open() <==> !i.IsTerminator())
  {
    if i.Exit? {
      var p := ReadReg(Bpf.R0, Bpf.W64, e.next);
      ReturnKeeps(e, g, b);
    } else if i.Jump? {
      CloseKeeps(e, g, b, Goto(if i.target.Label? then BlockNamed(e.blocks, i.target.name) else SoleSuccessor(e.blocks, g, b)));
    } else if i.Branch? {
      var p := ConditionPiece(i.cond, i.w, i.lhs, i.rhs, e.next);
      var (t, f) := BranchTargets(e.blocks, g, b, if i.target.Label? then i.target.name else "");
      AppendKeeps(e, g, b, p, e.off);
      CloseKeeps(e.Append(p), g, b, CondGoto(p.val, t, f));
      ExtendsTransitive(e.blocks, e.Append(p).blocks, LiftInsn(e, g, b, i).blocks);
    } else {
      var fr := DataFragment(i, e.next, e.off, |e.blocks|);
      ArmsClosed(i, e.next, e.off, |e.blocks|);
      ApplyKeeps(e, g, b, fr);
    }
  }

  lemma ReturnKeeps(e: Emitted, g: seq<McBlock>, b: nat)
    requires Lifting(e, g, b) && e.Open()
    ensures Lifting(LiftReturn(e), g, b) && Extends(e.blocks, LiftReturn(e).blocks) && !LiftReturn(e).Open()
  {
    var p := ReadReg(Bpf.R0, Bpf.W64, e.next);
    AppendKeeps(e, g, b, p, e.off);
    CloseKeeps(e.Append(p), g, b, Return(p.val));
    ExtendsTransitive(e.blocks, e.Append(p).blocks, LiftReturn(e).blocks);
  }

  lemma ApplyKeeps(e: Emitted, g: seq<McBlock>, b: nat, fr: Fragment)
    requires Lifting(e, g, b) && e.Open()
    requires fr.split.Some? ==>
               forall k :: 0 <= k < |fr.split.value.arms| ==>
                 fr.split.value.arms[k].name == "" && fr.split.value.arms[k].term.Some?
    ensures Lifting(Apply(e, fr), g, b) && Extends(e.blocks, Apply(e, fr).blocks) && Apply(e, fr).Open()
  {
    var p := Piece(fr.head, Const(0, 0), fr.next);
    AppendKeeps(e, g, b, p, fr.off);
    if fr.split.Some? {
      var e1 := e.Append(p).(off := fr.off);
      ForkKeeps(e1, g, b, fr.split.value);
      ExtendsTransitive(e.blocks, e1.blocks, Apply(e, fr).blocks);
    }
  }
}
