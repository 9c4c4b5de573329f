/**
 * Return values. The source function is changed to return an extended value where its return
 * attributes ask for one, and the lifted function takes that value out of r0: what the two sides
 * must agree on.
 */
module Returns {
  import opened Options
  import opened Words
  import opened ArithmeticLaws
  import opened Ir
  import opened Codegen
  import opened CodegenProofs
  import opened Abi
  import Bpf

  predicate HasAttr(t: ArgType) { t.Int? && (t.sext || t.zext) }

  /** Whether the source function's return type is replaced by a 64-bit one. */
  predicate Widens(t: ArgType) { HasAttr(t) && t.width != 32 && t.width != 64 }

  function ReturnBits(t: ArgType): nat { if Widens(t) then 64 else t.Bits() }

  // ---------------------------------------------------------------- the source side

  /** The casts put in front of a return of v. */
  function SourceReturn(t: ArgType, v: Val, id: nat): Piece {
    var p := Piece([], v, id);
    if !Widens(t) then p
    else if t.zext then p.Casted(ZExt, 64)
    else if t.width < 32 then p.Casted(SExt, 32).Casted(ZExt, 64)
    else p.Casted(SExt, 64)
  }

  /** The value the changed source function returns for n. */
  function SourceValue(t: ArgType, n: nat): nat
    requires t.Valid()
  {
    if !Widens(t) || t.zext then n
    else if t.width < 32 then Words.SExt(t.width, 32, n)
    else Words.SExt(t.width, 64, n)
  }

  function AdjustBlock(t: ArgType, b: Block, id: nat): Block {
    match b.term
    case Some(Return(v)) =>
      var p := SourceReturn(t, v, id);
      Block(b.name, b.insts + p.code, Some(Return(p.val)))
    case _ => b
  }

  ghost predicate AdjustedBlock(t: ArgType, b: Block, b': Block) {
    exists id: nat :: b' == AdjustBlock(t, b, id)
  }

  ghost predicate Adjusted(t: ArgType, f: Fn, f': Fn) {
    |f'| == |f| && forall b :: 0 <= b < |f| ==> AdjustedBlock(t, f[b], f'[b])
  }

  /** The source function before the comparison: its returns are collected, and then changed one by one. */
  class SourceFunction {
    var blocks: Fn
    var next: nat
    var returnBits: nat

    constructor (f: Fn, next: nat, bits: nat)
      ensures blocks == f && this.next == next && returnBits == bits
    {
      blocks, this.next, returnBits := f, next, bits;
    }

    method CollectReturns() returns (sites: seq<nat>)
      ensures forall k :: 0 <= k < |sites| ==> sites[k] < |blocks| && IsReturn(blocks[sites[k]])
      ensures forall j, k :: 0 <= j < k < |sites| ==> sites[j] < sites[k]
      ensures forall b: nat :: b < |blocks| && IsReturn(blocks[b]) ==> b in sites
    {
      sites := [];
      for b := 0 to |blocks|
        invariant forall k :: 0 <= k < |sites| ==> sites[k] < b && IsReturn(blocks[sites[k]])
        invariant forall j, k :: 0 <= j < k < |sites| ==> sites[j] < sites[k]
        invariant forall c: nat :: c < b && IsReturn(blocks[c]) ==> c in sites
      {
        if IsReturn(blocks[b]) { sites := sites + [b]; }
      }
    }

    method Cast(b: nat, kind: CastKind, v: Val, to: nat) returns (r: Val)
      requires b < |blocks|
      modifies `blocks, `next
      ensures r == Ref(old(next)) && next == old(next) + 1
      ensures blocks == old(blocks)[b := old(blocks[b]).(insts := old(blocks[b].insts) + [Ir.Cast(old(next), kind, v, to)])]
    {
      r := Ref(next);
      blocks := blocks[b := blocks[b].(insts := blocks[b].insts + [Ir.Cast(next, kind, v, to)])];
      next := next + 1;
    }

    /** Replace one return by a return of the extended value. */
    method ReplaceReturn(t: ArgType, b: nat)
      requires b < |blocks| && IsReturn(blocks[b]) && Widens(t)
      modifies `blocks, `next
      ensures blocks == old(blocks)[b := AdjustBlock(t, old(blocks[b]), old(next))]
    {
      ghost var insts, id := blocks[b].insts, next;
      var v := blocks[b].term.value.v;
      ghost var p := SourceReturn(t, v, id);
      var r;
      if t.zext {
        r := Cast(b, ZExt, v, 64);
      } else if t.width < 32 {
        r := Cast(b, SExt, v, 32);
        r := Cast(b, ZExt, r, 64);
      } else {
        r := Cast(b, SExt, v, 64);
      }
      assert blocks[b].insts == insts + p.code && r == p.val;
      blocks := blocks[b := blocks[b].(term := Some(Return(r)))];
    }

    method AdjustSrc(t: ArgType)
      requires t.Valid()
      modifies this
      ensures Adjusted(t, old(blocks), blocks) && returnBits == ReturnBits(t)
    {
      ghost var f := blocks;
      if Widens(t) {
        var sites := CollectReturns();
        for k := 0 to |sites|
          invariant |blocks| == |f|
          invariant forall b: nat :: b < |f| && b !in sites[..k] ==> blocks[b] == f[b]
          invariant forall b: nat :: b < |f| && b in sites[..k] ==> AdjustedBlock(t, f[b], blocks[b])
        {
          assert sites[k] !in sites[..k];
          assert sites[..k + 1] == sites[..k] + [sites[k]];
          ReplaceReturn(t, sites[k]);
        }
        assert sites[..|sites|] == sites;
        forall b | 0 <= b < |f| ensures AdjustedBlock(t, f[b], blocks[b]) {
          if b !in sites { assert f[b] == AdjustBlock(t, f[b], 0); }
        }
        returnBits := 64;
      } else {
        forall b | 0 <= b < |f| ensures AdjustedBlock(t, f[b], blocks[b]) {
          UnchangedBlock(t, f[b]);
          assert blocks[b] == AdjustBlock(t, f[b], 0);
        }
        returnBits := t.Bits();
      }
    }
  }

  predicate IsReturn(b: Block) { b.term.Some? && b.term.value.Return? }

  lemma UnchangedBlock(t: ArgType, b: Block)
    requires !Widens(t)
    ensures AdjustBlock(t, b, 0) == b
  {
    assert b.insts + [] == b.insts;
  }

  // ---------------------------------------------------------------- the change keeps the source's meaning

  lemma {:induction false} SourceReturnComputes(cfg: Config, t: ArgType, v: Val, id: nat, d: Data, n: nat)
    requires t.Valid() && Eval(cfg, v, d.env) == Some(Typed(t.Bits(), n)) && n < Pow2(t.Bits())
    ensures var p := SourceReturn(t, v, id);
            && Run(cfg, p.code, d).Some?
            && Run(cfg, p.code, d).value.mem == d.mem && Run(cfg, p.code, d).value.calls == d.calls
            && Eval(cfg, p.val, Run(cfg, p.code, d).value.env) == Some(Typed(ReturnBits(t), SourceValue(t, n)))
  {
    var p := SourceReturn(t, v, id);
    if Widens(t) {
      if !t.zext && t.width < 32 {
        var c0, c1 := Ir.Cast(id, SExt, v, 32), Ir.Cast(id + 1, ZExt, Ref(id), 64);
        assert p.code == [c0] + [c1];
        RunAppend(cfg, [c0], [c1], d);
        RunOne(cfg, c0, d);
        RunOne(cfg, c1, Exec(cfg, c0, d).value);
      } else {
        var c0 := Ir.Cast(id, if t.zext then ZExt else SExt, v, 64);
        assert p.code == [c0];
        RunOne(cfg, c0, d);
      }
    }
  }

  /** A cast of a value that does not exist is stuck at once. */
  lemma {:induction false} SourceReturnStuck(cfg: Config, t: ArgType, v: Val, id: nat, d: Data)
    requires Widens(t) && Eval(cfg, v, d.env).None?
    ensures SourceReturn(t, v, id).code != [] && Exec(cfg, SourceReturn(t, v, id).code[0], d).None?
  {
  }

  /** The changed function's state after the original one has stepped from `s` to `s2`: the same, until a return. */
  lemma {:induction false} LockStep(t: ArgType, f: Fn, f': Fn, cfg: Config, s: State)
    requires Adjusted(t, f, f') && s.At? && (s.block < |f| ==> s.idx <= |f[s.block].insts|)
    requires !Step(f, cfg, s).Returned?
    ensures Step(f, cfg, s).At? ==> Step(f', cfg, s) == Step(f, cfg, s)
    ensures Step(f, cfg, s).Stuck? ==> Steps(f', cfg, s, 1) == Stuck
    ensures Step(f, cfg, s).At? && s.block < |f| && s.idx < |f[s.block].insts| ==>
              Step(f, cfg, s).block == s.block && Step(f, cfg, s).idx == s.idx + 1
    ensures Step(f, cfg, s).At? && s.block < |f| && s.idx == |f[s.block].insts| ==> Step(f, cfg, s).idx == 0
  {
    assert Steps(f', cfg, s, 1) == Step(f', cfg, s) by {
      assert Steps(f', cfg, Step(f', cfg, s), 0) == Step(f', cfg, s);
    }
    if s.block < |f| {
      var b := f[s.block];
      var id: nat :| f'[s.block] == AdjustBlock(t, b, id);
      if IsReturn(b) && s.idx == |b.insts| {
        var v := b.term.value.v;
        assert Eval(cfg, v, s.d.env).None?;
        if Widens(t) {
          SourceReturnStuck(cfg, t, v, id, s.d);
          assert f'[s.block].insts[s.idx] == SourceReturn(t, v, id).code[0];
        } else {
          assert f'[s.block].insts == b.insts;
        }
      }
    }
  }

  lemma {:induction false} StepsOne(f: Fn, cfg: Config, s: State)
    ensures Steps(f, cfg, s, 1) == Step(f, cfg, s)
  {
    assert Steps(f, cfg, Step(f, cfg, s), 0) == Step(f, cfg, s);
  }

  /** Running the code at the end of a block and returning. */
  lemma {:induction false} ReturnAfter(f: Fn, cfg: Config, b: nat, idx: nat, d: Data, p: Piece)
    requires b < |f| && idx + |p.code| == |f[b].insts| && f[b].insts[idx..] == p.code && f[b].term == Some(Return(p.val))
    requires Run(cfg, p.code, d).Some? && Eval(cfg, p.val, Run(cfg, p.code, d).value.env).Some?
    ensures var d1 := Run(cfg, p.code, d).value;
            Steps(f, cfg, At(b, idx, d), |p.code| + 1) == Returned(Eval(cfg, p.val, d1.env).value, d1.mem, d1.calls)
  {
    var d1 := Run(cfg, p.code, d).value;
    StepsStraight(f, cfg, b, idx, p.code, d);
    StepsAdd(f, cfg, At(b, idx, d), |p.code|, 1);
    StepsOne(f, cfg, At(b, idx + |p.code|, d1));
  }

  /** Where the original returns a value of its type, the changed function returns the extended value. */
  lemma {:induction false} ReturnStepAdjusted(t: ArgType, f: Fn, f': Fn, cfg: Config, s: State) returns (k: nat)
    requires t.Valid() && Adjusted(t, f, f') && s.At? && (s.block < |f| ==> s.idx <= |f[s.block].insts|)
    requires Step(f, cfg, s).Returned? && Step(f, cfg, s).v.bits == t.Bits() && Step(f, cfg, s).v.n < Pow2(t.Bits())
    ensures var r := Step(f, cfg, s);
            Steps(f', cfg, s, k) == Returned(Typed(ReturnBits(t), SourceValue(t, r.v.n)), r.mem, r.calls)
  {
    var b := f[s.block];
    var id: nat :| f'[s.block] == AdjustBlock(t, b, id);
    var v := b.term.value.v;
    var p := SourceReturn(t, v, id);
    assert Step(f, cfg, s) == Returned(Eval(cfg, v, s.d.env).value, s.d.mem, s.d.calls);
    assert f'[s.block] == Block(b.name, b.insts + p.code, Some(Return(p.val)));
    assert s.idx == |b.insts|;
    hide Adjusted, AdjustBlock, SourceReturn, Step, Eval;
    SourceReturnComputes(cfg, t, v, id, s.d, Eval(cfg, v, s.d.env).value.n);
    k := |p.code| + 1;
    ReturnAfter(f', cfg, s.block, s.idx, s.d, p);
  }

  /** Every value the source function returns is of its return type. */
  ghost predicate ReturnsTyped(t: ArgType, f: Fn, cfg: Config, s: State)
    requires t.Valid()
  {
    forall n :: Steps(f, cfg, s, n).Returned? ==> Steps(f, cfg, s, n).v.bits == t.Bits() && Steps(f, cfg, s, n).v.n < Pow2(t.Bits())
  }

  /** The instruction pointer stays inside its block. */
  predicate Inside(f: Fn, s: State) { s.At? && s.block < |f| ==> s.idx <= |f[s.block].insts| }

  /** What the changed function ends with when the original ends with `r`. */
  function AdjustedEnd(t: ArgType, r: State): State
    requires t.Valid()
  {
    if r.Returned? then Returned(Typed(ReturnBits(t), SourceValue(t, r.v.n)), r.mem, r.calls) else r
  }

  /** However the original ends, the changed function ends the same way, with the extended value if with a value. */
  lemma {:induction false} AdjustedFollows(t: ArgType, f: Fn, f': Fn, cfg: Config, s: State, n: nat) returns (m: nat)
    requires t.Valid() && Adjusted(t, f, f') && ReturnsTyped(t, f, cfg, s) && s.At? && Inside(f, s)
    ensures Steps(f, cfg, s, n).At? ==> Steps(f', cfg, s, n) == Steps(f, cfg, s, n) && Inside(f, Steps(f, cfg, s, n))
    ensures !Steps(f, cfg, s, n).At? ==> Steps(f', cfg, s, m) == AdjustedEnd(t, Steps(f, cfg, s, n))
    decreases n
  {
    assert Steps(f, cfg, s, 1) == Step(f, cfg, s) by { StepsOne(f, cfg, s); }
    hide Adjusted, Exec, Jump;
    m := n;
    if n > 0 {
      var s1 := Step(f, cfg, s);
      assert Steps(f, cfg, s, n) == Steps(f, cfg, s1, n - 1);
      if s1.At? {
        LockStep(t, f, f', cfg, s);
        LaterTyped(t, f, cfg, s);
        var k := AdjustedFollows(t, f, f', cfg, s1, n - 1);
        m := k + 1;
      } else {
        StepsDone(f, cfg, s1, n - 1);
        if s1.Returned? {
          StepsOne(f, cfg, s);
          m := ReturnStepAdjusted(t, f, f', cfg, s);
        } else {
          LockStep(t, f, f', cfg, s);
          m := 1;
        }
      }
    }
  }

  lemma {:induction false} LaterTyped(t: ArgType, f: Fn, cfg: Config, s: State)
    requires t.Valid() && ReturnsTyped(t, f, cfg, s)
    ensures ReturnsTyped(t, f, cfg, Step(f, cfg, s))
  {
    forall n: nat | Steps(f, cfg, Step(f, cfg, s), n).Returned?
      ensures Steps(f, cfg, Step(f, cfg, s), n).v.bits == t.Bits() && Steps(f, cfg, Step(f, cfg, s), n).v.n < Pow2(t.Bits())
    {
      assert Steps(f, cfg, s, n + 1) == Steps(f, cfg, Step(f, cfg, s), n);
    }
  }

  /** A finished run has one end. */
  lemma {:induction false} SameEnd(f: Fn, cfg: Config, s: State, m: nat, n: nat)
    requires !Steps(f, cfg, s, m).At? && !Steps(f, cfg, s, n).At?
    ensures Steps(f, cfg, s, m) == Steps(f, cfg, s, n)
  {
    if m <= n {
      StepsAdd(f, cfg, s, m, n - m);
      StepsDone(f, cfg, Steps(f, cfg, s, m), n - m);
    } else {
      StepsAdd(f, cfg, s, n, m - n);
      StepsDone(f, cfg, Steps(f, cfg, s, n), m - n);
    }
  }

  /**
   * Changing the returns keeps the source function's meaning in both directions: it ends exactly when the
   * original does, and then with the original's end, its value extended.
   */
  lemma {:induction false} AdjustedEndsAlike(t: ArgType, f: Fn, f': Fn, cfg: Config, s: State, r: State)
    requires t.Valid() && Adjusted(t, f, f') && ReturnsTyped(t, f, cfg, s) && s.At? && Inside(f, s) && !r.At?
    ensures (exists m: nat :: Steps(f', cfg, s, m) == r) <==> exists n: nat :: Ends(t, f, cfg, s, n, r)
  {
    if n: nat :| Ends(t, f, cfg, s, n, r) {
      var m := AdjustedFollows(t, f, f', cfg, s, n);
    }
    if m: nat :| Steps(f', cfg, s, m) == r {
      var k := AdjustedFollows(t, f, f', cfg, s, m);
      SameEnd(f', cfg, s, m, k);
      assert Ends(t, f, cfg, s, m, r);
    }
  }

  /** After n steps the original has ended, with an end that the change turns into `r`. */
  predicate Ends(t: ArgType, f: Fn, cfg: Config, s: State, n: nat, r: State)
    requires t.Valid()
  {
    !Steps(f, cfg, s, n).At? && AdjustedEnd(t, Steps(f, cfg, s, n)) == r
  }

  // ---------------------------------------------------------------- the lifted side

  /** The code before the lifted function's return. */
  function LiftedReturn(t: ArgType, id: nat): Piece {
    var p := ReadReg(Bpf.R0, Bpf.W64, id);
    var q := if ReturnBits(t) < 64 then p.Casted(Trunc, ReturnBits(t)) else p;
    if HasAttr(t) && t.width < 32 then q.Casted(Trunc, 32).Casted(ZExt, 64) else q
  }

  function LiftedValue(t: ArgType, r0: nat): nat {
    if HasAttr(t) && t.width < 32 then Wrap(32, r0) else Wrap(ReturnBits(t), r0)
  }

  lemma {:induction false} LiftedReturnComputes(cfg: Config, c: Bpf.Core, d: Data, t: ArgType, id: nat)
    requires t.Valid() && Matches(c, d)
    ensures Computes(cfg, LiftedReturn(t, id), id, d, ReturnBits(t), LiftedValue(t, c.regs[0]))
  {
    var p := ReadReg(Bpf.R0, Bpf.W64, id);
    ReadRegComputes(cfg, c, d, Bpf.R0, Bpf.W64, id);
    WrapIdentity(64, c.regs[0]);
    hide Matches, Computes, Wrap;
    if ReturnBits(t) < 64 {
      CastComputes(cfg, p, id, d, 64, c.regs[0], Trunc, ReturnBits(t), Wrap(ReturnBits(t), c.regs[0]));
    } else if HasAttr(t) && t.width < 32 {
      var low := Wrap(32, c.regs[0]);
      CastComputes(cfg, p, id, d, 64, c.regs[0], Trunc, 32, low);
      CastComputes(cfg, p.Casted(Trunc, 32), id, d, 32, low, ZExt, 64, low);
    }
  }

  // ---------------------------------------------------------------- agreement

  /** How many low bits of r0 the return type speaks about. */
  function ComparedBits(t: ArgType): nat {
    if !HasAttr(t) then t.Bits() else if t.width <= 32 then 32 else 64
  }

  /** The value extended to `k` bits as the attributes say. */
  function Extended(t: ArgType, k: nat, n: nat): nat
    requires t.Valid() && t.Bits() <= k
  {
    if t.Bits() == k || t.Ptr? || t.zext then n else Words.SExt(t.Bits(), k, n)
  }

  /**
   * The source returns what the lifted function returns exactly when the low bits of r0 that the
   * type speaks about are the source's value, extended to that many bits.
   */
  lemma {:induction false} ValuesAgree(t: ArgType, n: nat, r0: nat)
    requires t.Valid() && n < Pow2(t.Bits()) && r0 < Pow2(64)
    ensures SourceValue(t, n) == LiftedValue(t, r0) <==> Wrap(ComparedBits(t), r0) == Extended(t, ComparedBits(t), n)
  {
  }

  /**
   * The same for whole functions: a run of the source function to a return, and the lifted function's code at
   * its return. Both return, and they return the same thing exactly under that condition on r0.
   */
  lemma {:induction false} ReturnsAgree(t: ArgType, f: Fn, f': Fn, cfg: Config, s: State, n: nat,
                                        lifted: Config, c: Bpf.Core, d: Data, id: nat)
    returns (m: nat)
    requires t.Valid() && Adjusted(t, f, f') && ReturnsTyped(t, f, cfg, s) && s.At? && Inside(f, s)
    requires Steps(f, cfg, s, n).Returned? && Matches(c, d)
    ensures Steps(f', cfg, s, m).Returned? && Run(lifted, LiftedReturn(t, id).code, d).Some?
    ensures var value := Steps(f, cfg, s, n).v.n;
            Eval(lifted, LiftedReturn(t, id).val, Run(lifted, LiftedReturn(t, id).code, d).value.env) == Some(Steps(f', cfg, s, m).v)
            <==> Wrap(ComparedBits(t), c.regs[0]) == Extended(t, ComparedBits(t), value)
  {
    m := AdjustedFollows(t, f, f', cfg, s, n);
    LiftedReturnComputes(lifted, c, d, t, id);
    ValuesAgree(t, Steps(f, cfg, s, n).v.n, c.regs[0]);
    hide Adjusted, SourceReturn, LiftedReturn, Wrap, Words.SExt;
  }

  /**
   * The agreement by the kind of return type. Without an attribute the bits of the type are compared. A zero-extended
   * value of at most 32 bits is compared with the low half of r0, a wider one with all of r0; a
   * sign-extended one likewise, as signed numbers.
   */
  lemma {:induction false} AgreementMeans(t: ArgType, n: nat, r0: nat)
    requires t.Valid() && n < Pow2(t.Bits()) && r0 < Pow2(64)
    ensures t.Ptr? || (!t.sext && !t.zext) ==> (SourceValue(t, n) == LiftedValue(t, r0) <==> r0 % Pow2(t.Bits()) == n)
    ensures t.Int? && t.zext ==>
              (SourceValue(t, n) == LiftedValue(t, r0) <==> (if t.width <= 32 then r0 % 0x1_0000_0000 else r0) == n)
    ensures t.Int? && t.sext && !t.zext ==>
              (SourceValue(t, n) == LiftedValue(t, r0)
               <==> Signed(t.width, n) == if t.width <= 32 then Signed(32, r0 % 0x1_0000_0000) else Signed(64, r0))
    ensures ReturnBits(t) == if t.Int? && (t.sext || t.zext) && t.width != 32 && t.width != 64 then 64 else t.Bits()
  {
    var k := ComparedBits(t);
    ValuesAgree(t, n, r0);
    WrapIsMod(k, r0);
    WrapIdentity(64, r0);
    if t.Int? && t.sext && !t.zext { ExtendedAgrees(t, n, k, Wrap(k, r0)); }
    hide Wrap, Words.SExt, SourceValue, LiftedValue, Signed;
  }

  lemma {:induction false} ExtendedAgrees(t: ArgType, n: nat, k: nat, r: nat)
    requires t.Int? && t.Valid() && t.sext && !t.zext && t.width <= k && n < Pow2(t.width) && r < Pow2(k)
    ensures r == Extended(t, k, n) <==> Signed(k, r) == Signed(t.width, n)
  {
    SExtKeepsValue(t.width, k, n);
    SignedRange(t.width, n);
    SignedIsUnique(k, r, Signed(t.width, n));
    SignedIsUnique(k, Extended(t, k, n), Signed(t.width, n));
    hide Wrap, Words.SExt, Signed;
  }

  /** The bits of r0 above those make no difference to what is returned. */
  lemma {:induction false} UpperBitsIgnored(t: ArgType, r0: nat, r0': nat)
    requires t.Valid() && r0 < Pow2(64) && r0' < Pow2(64)
    ensures LiftedValue(t, r0) == LiftedValue(t, r0') <==> Wrap(ComparedBits(t), r0) == Wrap(ComparedBits(t), r0')
  {
  }
}
