/** One instruction of the machine is matched by the code lifted for it. */
module Simulation {
  import opened Options
  import opened Words
  import opened Ir
  import opened Codegen
  import opened CodegenProofs
  import opened DivisionProofs
  import opened CallProofs
  import opened Cfg
  import opened Emission
  import Bpf

  /** The state in which execution reaches the point where code is being appended. */
  function Here(e: Emitted, d: Data): State
    requires e.Valid()
  {
    At(e.cur, |e.blocks[e.cur].insts|, d)
  }

  lemma HeadNotEmpty(i: Bpf.Insn, id: nat, off: nat, base: nat)
    requires !i.IsTerminator() && !i.Nop? && !i.Unsupported?
    ensures |DataFragment(i, id, off, base).head| > 0
  {
    if i.IsRegisterOp() {
      match i
      case Alu(op, w, dst, src) =>
      case Mov(w, dst, s) =>
      case _ =>
    }
  }

  lemma AppendedCode(e: Emitted, p: Piece, f: Fn)
    requires e.Valid() && Extends(e.Append(p).blocks, f)
    ensures e.cur < |f|
    ensures var k := |e.blocks[e.cur].insts|;
            k + |p.code| <= |f[e.cur].insts| && f[e.cur].insts[k..k + |p.code|] == p.code
  {
    var b := e.Append(p).blocks[e.cur];
    assert ExtendsBlock(b, f[e.cur]);
    var k := |e.blocks[e.cur].insts|;
    assert f[e.cur].insts[k..k + |p.code|] == b.insts[k..k + |p.code|];
  }

  lemma {:induction false} StraightStep(f: Fn, cfg: Config, e: Emitted, p: Piece, off: nat, d: Data)
    requires e.Valid() && Extends(e.Append(p).blocks, f) && Run(cfg, p.code, d).Some?
    ensures Steps(f, cfg, Here(e, d), |p.code|) == Here(e.Append(p).(off := off), Run(cfg, p.code, d).value)
  {
    AppendedCode(e, p, f);
    StepsStraight(f, cfg, e.cur, |e.blocks[e.cur].insts|, p.code, d);
  }

  /** A fragment with a fork, as it appears in the finished function. */
  lemma ForkedCode(e: Emitted, fr: Fragment, f: Fn)
    requires e.Open() && fr.split.Some? && Extends(Apply(e, fr).blocks, f)
    ensures var s, base, k := fr.split.value, |e.blocks|, |e.blocks[e.cur].insts|;
            && e.cur < |f| && k <= |f[e.cur].insts| && f[e.cur].insts[k..] == fr.head && f[e.cur].term == Some(s.exit)
            && Placed(f, base, s.arms)
            && s.tail <= f[base + |s.arms|].insts
            && Apply(e, fr).cur == base + |s.arms|
            && Apply(e, fr).blocks[base + |s.arms|].insts == s.tail
    requires forall j :: 0 <= j < |fr.split.value.arms| ==> fr.split.value.arms[j].term.Some?
  {
    var s, base, k := fr.split.value, |e.blocks|, |e.blocks[e.cur].insts|;
    var bs := Apply(e, fr).blocks;
    assert bs[e.cur] == Block(e.blocks[e.cur].name, e.blocks[e.cur].insts + fr.head, Some(s.exit));
    assert ExtendsBlock(bs[e.cur], f[e.cur]);
    forall j | 0 <= j < |s.arms| ensures f[base + j] == s.arms[j] {
      assert bs[base + j] == s.arms[j];
      assert ExtendsBlock(bs[base + j], f[base + j]);
    }
    assert bs[base + |s.arms|] == Block("", s.tail, None);
    assert ExtendsBlock(bs[base + |s.arms|], f[base + |s.arms|]);
  }

  lemma DivisionStep(f: Fn, cfg: Config, i: Bpf.Insn, c: Bpf.Core, d: Data, e: Emitted)
    returns (n: nat, d': Data)
    requires Bpf.Decodable(i) && i.Alu? && IsDivision(i.op) && e.Open() && Matches(c, d)
    requires var fr := AluFragment(i.op, i.w, i.dst, Bpf.SignExtendedOperand(i.src), e.next, e.off, |e.blocks|);
             Extends(Apply(e, fr).blocks, f)
    ensures var fr := AluFragment(i.op, i.w, i.dst, Bpf.SignExtendedOperand(i.src), e.next, e.off, |e.blocks|);
            Steps(f, cfg, Here(e, d), n) == Here(Apply(e, fr), d')
    ensures n > 0 && Matches(c.With(i.dst, Bpf.RegisterResult(i, c)), d')
  {
    var src := Bpf.SignExtendedOperand(i.src);
    var fr := AluFragment(i.op, i.w, i.dst, src, e.next, e.off, |e.blocks|);
    ArmsClosed(Bpf.Alu(i.op, i.w, i.dst, src), e.next, e.off, |e.blocks|);
    ForkedCode(e, fr, f);
    n, d' := DivisionRuns(f, cfg, c, d, i.op, i.w, i.dst, i.src, e.next, e.off, e.cur,
                          |e.blocks[e.cur].insts|, |e.blocks|);
  }

  /** Every instruction that is not a terminator: from where its code starts, execution
      reaches where its code ends, with the machine's effect on the machine's state. */
  lemma DataStep(f: Fn, cfg: Config, o: Bpf.Oracle, u: nat, i: Bpf.Insn, c: Bpf.Core, d: Data,
                 e: Emitted, g: seq<McBlock>, b: nat) returns (n: nat, d': Data)
    requires Bpf.Decodable(i) && !i.IsTerminator() && e.Open() && b < |g| && Matches(c, d)
    requires Extends(LiftInsn(e, g, b, Bpf.SignExtended(i)).blocks, f)
    requires cfg.helper == o.helper && (i.Call? ==> JunkMatches(cfg, o, u, e.off))
    ensures Steps(f, cfg, Here(e, d), n) == Here(LiftInsn(e, g, b, Bpf.SignExtended(i)), d')
    ensures Matches(Bpf.Effect(o, u, i, c), d')
    ensures i.Nop? || i.Unsupported? || n > 0
  {
    var s := Bpf.SignExtended(i);
    var fr := DataFragment(s, e.next, e.off, |e.blocks|);
    if i.Alu? && IsDivision(i.op) {
      n, d' := DivisionStep(f, cfg, i, c, d, e);
    } else {
      StraightRuns(cfg, o, u, i, c, d, e.next, e.off, |e.blocks|);
      var p := Piece(fr.head, Const(0, 0), fr.next);
      StraightStep(f, cfg, e, p, fr.off, d);
      n, d' := |fr.head|, Run(cfg, fr.head, d).value;
      if !i.Nop? && !i.Unsupported? {
        HeadNotEmpty(s, e.next, e.off, |e.blocks|);
      }
    }
  }

  /** Closed code: a piece followed by the terminator of its block. */
  lemma {:induction false} ClosedStep(f: Fn, cfg: Config, e: Emitted, p: Piece, t: Term, d: Data)
    requires e.Open() && Extends(e.Append(p).Close(t).blocks, f) && Run(cfg, p.code, d).Some?
    ensures Steps(f, cfg, Here(e, d), |p.code| + 1) == Jump(cfg, t, Run(cfg, p.code, d).value)
  {
    var b := e.Append(p).Close(t).blocks[e.cur];
    assert ExtendsBlock(b, f[e.cur]);
    var k := |e.blocks[e.cur].insts|;
    assert f[e.cur].insts[k..] == p.code;
    RunBlock(f, cfg, e.cur, k, p.code, t, d);
  }

  lemma ReturnStep(f: Fn, cfg: Config, c: Bpf.Core, d: Data, e: Emitted) returns (n: nat)
    requires e.Open() && Matches(c, d) && Extends(LiftReturn(e).blocks, f)
    ensures n > 0 && Steps(f, cfg, Here(e, d), n) == Returned(Typed(64, c.regs[0]), c.mem, c.calls)
  {
    var p := ReadReg(Bpf.R0, Bpf.W64, e.next);
    ReadRegComputes(cfg, c, d, Bpf.R0, Bpf.W64, e.next);
    WrapIdentity(64, c.regs[0]);
    ClosedStep(f, cfg, e, p, Return(p.val), d);
    n := |p.code| + 1;
  }

  lemma {:induction false} GotoStep(f: Fn, cfg: Config, d: Data, e: Emitted, dst: nat)
    requires e.Open() && Extends(e.Close(Goto(dst)).blocks, f)
    ensures Steps(f, cfg, Here(e, d), 1) == At(dst, 0, d)
  {
    var p := Start(e.next);
    assert Run(cfg, p.code, d) == Some(d);
    assert e.Append(p).blocks[e.cur] == e.blocks[e.cur];
    assert e.Append(p).blocks == e.blocks;
    ClosedStep(f, cfg, e, p, Goto(dst), d);
  }

  /** A conditional branch goes to its taken block exactly when the machine's jump is taken. */
  lemma BranchStep(f: Fn, cfg: Config, i: Bpf.Insn, c: Bpf.Core, d: Data, e: Emitted, g: seq<McBlock>, b: nat, name: string)
    returns (n: nat, d': Data)
    requires Bpf.Decodable(i) && i.Branch? && e.Open() && b < |g| && Matches(c, d)
    requires Extends(LiftInsn(e, g, b, WithTarget(Bpf.SignExtended(i), Bpf.Label(name))).blocks, f)
    ensures var (t, other) := BranchTargets(e.blocks, g, b, name);
            Steps(f, cfg, Here(e, d), n) == At(if Bpf.Taken(i, c) then t else other, 0, d')
    ensures n > 0 && Matches(c, d')
  {
    var p := ConditionPiece(i.cond, i.w, i.lhs, Bpf.SignExtendedOperand(i.rhs), e.next);
    var (t, other) := BranchTargets(e.blocks, g, b, name);
    ConditionComputes(cfg, c, d, i.cond, i.w, i.lhs, i.rhs, e.next);
    d' := After(cfg, p, d);
    KeepsMatches(c, d, d', e.next);
    ClosedStep(f, cfg, e, p, CondGoto(p.val, t, other), d);
    n := |p.code| + 1;
  }
}
