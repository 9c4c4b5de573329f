/**
 * Calls whose callee has a known signature: arguments taken out of r1 up to r5, and a result put into r0 as
 * the attributes of the return type say.
 */
module TypedCalls {
  import opened Options
  import opened Words
  import opened Ir
  import opened Codegen
  import opened CodegenProofs
  import opened CallProofs
  import opened Abi
  import Bpf

  // ---------------------------------------------------------------- arguments

  /** Code reading argument n, cut to its type. */
  function MarshallArg(t: ArgType, n: nat, id: nat): Piece
    requires n < 5
  {
    var p := ReadReg(1 + n, Bpf.W64, id);
    if t.Bits() < 64 then p.Casted(Trunc, t.Bits()) else p
  }

  /** Code reading the first n arguments, and their values. */
  function MarshallArgs(ts: seq<ArgType>, n: nat, id: nat): (r: (Piece, seq<Val>))
    requires n <= |ts| <= 5
    ensures |r.1| == n
  {
    if n == 0 then (Start(id), [])
    else
      var (p, vals) := MarshallArgs(ts, n - 1, id);
      var q := MarshallArg(ts[n - 1], n - 1, p.next);
      (p.Then(q), vals + [q.val])
  }

  lemma {:induction false} MarshallArgComputes(cfg: Config, c: Bpf.Core, d: Data, t: ArgType, n: nat, id: nat)
    requires Matches(c, d) && t.Valid() && n < 5
    ensures Computes(cfg, MarshallArg(t, n, id), id, d, t.Bits(), Wrap(t.Bits(), c.regs[1 + n]))
  {
    ReadRegComputes(cfg, c, d, 1 + n, Bpf.W64, id);
    WrapIdentity(64, c.regs[1 + n]);
    if t.Bits() < 64 {
      CastComputes(cfg, ReadReg(1 + n, Bpf.W64, id), id, d, 64, c.regs[1 + n], Trunc, t.Bits(), Wrap(t.Bits(), c.regs[1 + n]));
    }
  }

  /** The n values are available, each the low bits of its register. */
  ghost predicate ArgsAvailable(cfg: Config, c: Bpf.Core, ts: seq<ArgType>, vals: seq<Val>, next: nat, d: Data)
    requires |c.regs| == 12 && |vals| <= |ts| <= 5
  {
    forall k :: 0 <= k < |vals| ==>
      Below(vals[k], next) && Eval(cfg, vals[k], d.env) == Some(Typed(ts[k].Bits(), Wrap(ts[k].Bits(), c.regs[1 + k])))
  }

  lemma {:induction false} StillAvailable(cfg: Config, c: Bpf.Core, ts: seq<ArgType>, vals: seq<Val>, id: nat, d: Data,
                                          next: nat, d': Data)
    requires |c.regs| == 12 && |vals| <= |ts| <= 5
    requires ArgsAvailable(cfg, c, ts, vals, id, d) && Keeps(d, d', id) && id <= next
    ensures ArgsAvailable(cfg, c, ts, vals, next, d')
  {
  }

  lemma {:induction false} MarshallArgsRun(cfg: Config, c: Bpf.Core, d: Data, ts: seq<ArgType>, n: nat, id: nat)
    requires Matches(c, d) && n <= |ts| <= 5 && forall t <- ts :: t.Valid()
    ensures var (p, vals) := MarshallArgs(ts, n, id);
            && id <= p.next && Run(cfg, p.code, d).Some? && Keeps(d, Run(cfg, p.code, d).value, id)
            && ArgsAvailable(cfg, c, ts, vals, p.next, Run(cfg, p.code, d).value)
    decreases n
  {
    if n == 0 {
      StartComputes(cfg, id, d);
    } else {
      MarshallArgsRun(cfg, c, d, ts, n - 1, id);
      var (p, vals) := MarshallArgs(ts, n - 1, id);
      var d1 := After(cfg, p, d);
      var t := ts[n - 1];
      KeepsMatches(c, d, d1, id);
      MarshallArgComputes(cfg, c, d1, t, n - 1, p.next);
      var q := MarshallArg(t, n - 1, p.next);
      RunAppend(cfg, p.code, q.code, d);
      var d2 := After(cfg, q, d1);
      StillAvailable(cfg, c, ts, vals, p.next, d1, q.next, d2);
      hide MarshallArg, Matches, Wrap, Run;
      ArgJoins(cfg, c, ts, vals, q, d2);
    }
  }

  lemma {:induction false} ArgJoins(cfg: Config, c: Bpf.Core, ts: seq<ArgType>, vals: seq<Val>, q: Piece, d: Data)
    requires |c.regs| == 12 && |vals| < |ts| <= 5
    requires ArgsAvailable(cfg, c, ts, vals, q.next, d) && Below(q.val, q.next)
    requires Eval(cfg, q.val, d.env) == Some(Typed(ts[|vals|].Bits(), Wrap(ts[|vals|].Bits(), c.regs[1 + |vals|])))
    ensures ArgsAvailable(cfg, c, ts, vals + [q.val], q.next, d)
  {
  }

  /** The registers hold the arguments as the calling convention leaves them: widened, with any junk. */
  ghost predicate Passed(ts: seq<ArgType>, args: seq<nat>, junk: seq<nat>, regs: seq<nat>)
    requires forall t <- ts :: t.Valid()
  {
    && |ts| == |args| == |junk| <= 5 && |regs| == 12
    && forall k :: 0 <= k < |ts| ==> args[k] < Pow2(ts[k].Bits()) && regs[1 + k] == Widened(ts[k], args[k], junk[k])
  }

  /**
   * Passing arguments is a round trip: whatever a caller widened into r1 up to r5, with any attributes and any
   * junk in the upper bits, arrives as the value it passed.
   */
  lemma {:induction false} ArgumentsArrive(cfg: Config, c: Bpf.Core, d: Data, ts: seq<ArgType>, args: seq<nat>,
                                           junk: seq<nat>, id: nat)
    requires Matches(c, d) && (forall t <- ts :: t.Valid()) && Passed(ts, args, junk, c.regs)
    ensures var (p, vals) := MarshallArgs(ts, |ts|, id);
            && Run(cfg, p.code, d).Some?
            && forall k :: 0 <= k < |ts| ==>
                 Eval(cfg, vals[k], Run(cfg, p.code, d).value.env) == Some(Typed(ts[k].Bits(), args[k]))
  {
    MarshallArgsRun(cfg, c, d, ts, |ts|, id);
    forall k | 0 <= k < |ts| ensures Wrap(ts[k].Bits(), c.regs[1 + k]) == args[k] {
      assert ts[k] in ts;
      WidenRoundTrip(ts[k], args[k], junk[k]);
    }
    hide MarshallArgs, Matches, Wrap, Run, Widened;
  }

  // ---------------------------------------------------------------- the result

  /** How much of the constant global the code after a call uses. */
  function CallScratch(ret: Option<ArgType>, fastcall: bool): nat
    requires ret.Some? ==> ret.value.Valid()
  {
    (if ret.Some? then ret.value.JunkBytes() else 8) + (if fastcall then 0 else 40)
  }

  function ClobberUnless(fastcall: bool, id: nat, off: nat): Piece {
    if fastcall then Start(id) else Clobber(5, id, off)
  }

  /** The code after a call with result v: widen it, clobber r1-r5, and write r0. */
  function FinishCall(ret: Option<ArgType>, fastcall: bool, v: Val, id: nat, off: nat): Piece
    requires ret.Some? ==> ret.value.Valid()
  {
    match ret
    case Some(t) =>
      var w := Widen(v, t, id, off);
      w.Then(ClobberUnless(fastcall, w.next, off + t.JunkBytes())).Do(StoreCell(w.val, RegCell(Bpf.R0)))
    case None =>
      var q := ClobberUnless(fastcall, id, off);
      q.Def(LoadUnspecified(q.next, 64, off + (if fastcall then 0 else 40))).Do(StoreCell(Ref(q.next), RegCell(Bpf.R0)))
  }

  /** The registers after the call: r0 is the answer, r1-r5 are unspecified unless they are preserved. */
  ghost predicate RegistersAfter(before: seq<nat>, after: seq<nat>, fastcall: bool, o: Bpf.Oracle, u: nat, r0: nat) {
    && |before| == |after| == 12 && after[0] == r0
    && (forall r :: 1 <= r <= 5 ==> after[r] == if fastcall then before[r] else Wrap(64, o.clobber(u, r)))
    && forall r :: 6 <= r < 12 ==> after[r] == before[r]
  }

  function Survivors(c: Bpf.Core, fastcall: bool, o: Bpf.Oracle, u: nat): (c': Bpf.Core)
    requires c.Valid()
    ensures |c'.regs| == 12
  {
    if fastcall then c else Clobbered(o, u, c, 5)
  }

  lemma {:induction false} ClobberUnlessRuns(cfg: Config, c: Bpf.Core, d: Data, o: Bpf.Oracle, u: nat, fastcall: bool,
                                             id: nat, off: nat)
    requires Matches(c, d) && (!fastcall ==> JunkMatches(cfg, o, u, off))
    ensures var q := ClobberUnless(fastcall, id, off);
            && id <= q.next && Run(cfg, q.code, d).Some?
            && Matches(Survivors(c, fastcall, o, u), After(cfg, q, d))
            && KeepsNames(d, After(cfg, q, d), id)
  {
    if fastcall { StartComputes(cfg, id, d); } else { ClobberRuns(cfg, c, d, o, u, 5, id, off); }
  }

  lemma {:induction false} SurvivorsAre(c: Bpf.Core, fastcall: bool, o: Bpf.Oracle, u: nat, r0: nat)
    requires c.Valid() && r0 < Pow2(64)
    ensures var c' := Survivors(c, fastcall, o, u).With(Bpf.R0, r0);
            RegistersAfter(c.regs, c'.regs, fastcall, o, u, r0) && c'.mem == c.mem && c'.calls == c.calls
  {
    ClobberedRegs(o, u, c, 5);
  }

  /** Clobbering leaves a value computed before it, and the registers it preserves. */
  lemma {:induction false} ThenClobber(cfg: Config, c: Bpf.Core, d: Data, o: Bpf.Oracle, u: nat, fastcall: bool,
                                       w: Piece, x: nat, id: nat, off: nat)
    requires Matches(c, d) && Computes(cfg, w, id, d, 64, x) && (!fastcall ==> JunkMatches(cfg, o, u, off))
    ensures var p := w.Then(ClobberUnless(fastcall, w.next, off));
            && Run(cfg, p.code, d).Some? && Matches(Survivors(c, fastcall, o, u), After(cfg, p, d))
            && Eval(cfg, w.val, After(cfg, p, d).env) == Some(Typed(64, x))
  {
    var d1 := After(cfg, w, d);
    KeepsMatches(c, d, d1, id);
    var q := ClobberUnless(fastcall, w.next, off);
    ClobberUnlessRuns(cfg, c, d1, o, u, fastcall, w.next, off);
    RunAppend(cfg, w.code, q.code, d);
    hide ClobberUnless, Survivors, Matches, JunkMatches, Run;
  }

  /** A call with a result: r0 is the widened result, and no other register changes but r1-r5 of a plain call. */
  lemma {:induction false} FinishCallRuns(cfg: Config, c: Bpf.Core, d: Data, o: Bpf.Oracle, u: nat, t: ArgType,
                                          fastcall: bool, v: Val, n: nat, junk: nat, id: nat, off: nat)
    requires Matches(c, d) && t.Valid() && n < Pow2(t.Bits()) && Below(v, id)
    requires Eval(cfg, v, d.env) == Some(Typed(t.Bits(), n))
    requires t.JunkBits() > 0 ==> UnspecifiedAt(cfg.unspecified, off, t.JunkBits()) == Some(junk)
    requires !fastcall ==> JunkMatches(cfg, o, u, off + t.JunkBytes())
    ensures var p := FinishCall(Some(t), fastcall, v, id, off);
            var c' := Survivors(c, fastcall, o, u).With(Bpf.R0, Widened(t, n, junk));
            && Run(cfg, p.code, d).Some? && Matches(c', Run(cfg, p.code, d).value)
            && RegistersAfter(c.regs, c'.regs, fastcall, o, u, Widened(t, n, junk)) && c'.mem == c.mem && c'.calls == c.calls
  {
    var w := Widen(v, t, id, off);
    var x := Widened(t, n, junk);
    WidenComputes(cfg, d, v, t, n, junk, id, off);
    ThenClobber(cfg, c, d, o, u, fastcall, w, x, id, off + t.JunkBytes());
    SurvivorsAre(c, fastcall, o, u, x);
    var p := w.Then(ClobberUnless(fastcall, w.next, off + t.JunkBytes()));
    assert FinishCall(Some(t), fastcall, v, id, off) == p.Do(StoreCell(w.val, RegCell(Bpf.R0)));
    hide Widen, Widened, ClobberUnless, Survivors, Matches, JunkMatches, RegistersAfter, FinishCall, Computes, Run;
    StoreReturned(cfg, Survivors(c, fastcall, o, u), After(cfg, p, d), w.val, x);
    DoRuns(cfg, p, d, StoreCell(w.val, RegCell(Bpf.R0)));
  }

  /** A call without a result leaves r0 unspecified. */
  lemma {:induction false} FinishVoidCallRuns(cfg: Config, c: Bpf.Core, d: Data, o: Bpf.Oracle, u: nat, fastcall: bool,
                                              v: Val, junk: nat, id: nat, off: nat)
    requires Matches(c, d) && (!fastcall ==> JunkMatches(cfg, o, u, off))
    requires UnspecifiedAt(cfg.unspecified, off + (if fastcall then 0 else 40), 64) == Some(junk)
    ensures var p := FinishCall(None, fastcall, v, id, off);
            var c' := Survivors(c, fastcall, o, u).With(Bpf.R0, junk);
            && Run(cfg, p.code, d).Some? && Matches(c', Run(cfg, p.code, d).value)
            && RegistersAfter(c.regs, c'.regs, fastcall, o, u, junk) && c'.mem == c.mem && c'.calls == c.calls
  {
    var q := ClobberUnless(fastcall, id, off);
    ClobberUnlessRuns(cfg, c, d, o, u, fastcall, id, off);
    JunkInRange(cfg.unspecified, off + (if fastcall then 0 else 40), junk);
    SurvivorsAre(c, fastcall, o, u, junk);
    hide ClobberUnless, Survivors, JunkMatches, RegistersAfter, Run, Matches;
    StoreUnspecified(cfg, Survivors(c, fastcall, o, u), d, q, junk, off + (if fastcall then 0 else 40));
  }

  lemma JunkInRange(bytes: seq<nat>, off: nat, junk: nat)
    requires UnspecifiedAt(bytes, off, 64) == Some(junk)
    ensures junk < Pow2(64)
  {
  }

  /** An unspecified value put into r0 after the code q. */
  lemma {:induction false} StoreUnspecified(cfg: Config, c: Bpf.Core, d: Data, q: Piece, junk: nat, off: nat)
    requires Run(cfg, q.code, d).Some? && Matches(c, After(cfg, q, d))
    requires UnspecifiedAt(cfg.unspecified, off, 64) == Some(junk)
    ensures var p := q.Def(LoadUnspecified(q.next, 64, off)).Do(StoreCell(Ref(q.next), RegCell(Bpf.R0)));
            Run(cfg, p.code, d).Some? && Matches(c.With(Bpf.R0, junk), Run(cfg, p.code, d).value)
  {
    var load := LoadUnspecified(q.next, 64, off);
    DoRuns(cfg, q, d, load);
    JunkInRange(cfg.unspecified, off, junk);
    var d2 := After(cfg, q, d).Bind(q.next, 64, junk);
    assert Matches(c, d2);
    hide Matches, Run, UnspecifiedAt;
    StoreReturned(cfg, c, d2, Ref(q.next), junk);
    DoRuns(cfg, q.Def(load), d, StoreCell(Ref(q.next), RegCell(Bpf.R0)));
  }
}
