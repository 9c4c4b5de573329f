/** One content of the global of unspecified bytes realises any entry registers and any
    clobbers, one per call instruction. */
module Realization {
  import opened Options
  import opened Words
  import opened Ir
  import opened Codegen
  import opened CallProofs
  import opened Cfg
  import opened GraphFacts
  import opened Emission
  import opened Abi
  import opened Prologue
  import opened Lifting
  import opened Scratch
  import opened WholeProgram
  import opened Runs
  import Bpf

  // ---------------------------------------------------------------- offsets in program order

  /** Call instructions among the first k. */
  function Calls(p: Bpf.Program, k: nat): nat
    requires k <= |p|
  {
    if k == 0 then 0 else Calls(p, k - 1) + if p[k - 1].Call? then 1 else 0
  }

  lemma OffWithin(g: seq<McBlock>, args: seq<ArgType>, b: nat, j: nat)
    requires g != [] && ValidArgs(args) && b < |g| && j < |g[b].instrs|
    ensures EmittedBefore(g, args, b, j + 1).off == EmittedBefore(g, args, b, j).off + if g[b].instrs[j].Call? then 40 else 0
  {
    hide LiftInsn;
    LiftInsnOff(EmittedBefore(g, args, b, j), g, b, g[b].instrs[j]);
  }

  lemma OffAcross(g: seq<McBlock>, args: seq<ArgType>, b: nat)
    requires g != [] && ValidArgs(args) && b + 1 < |g|
    ensures EmittedBefore(g, args, b + 1, 0).off == EmittedBefore(g, args, b, |g[b].instrs|).off
  {
    hide LiftInsn, LiftInstrs, FallThrough;
    FallThroughOff(EmittedBefore(g, args, b, |g[b].instrs|), g, b);
    NothingLifted(LiftBlocks(Prepared(g, args), g, b + 1).(cur := b + 1), g, b + 1);
  }

  lemma {:induction false} NothingLifted(e: Emitted, g: seq<McBlock>, b: nat)
    requires e.Valid() && b < |g|
    ensures LiftInstrs(e, g, b, 0) == e
  {
  }

  /** From one instruction to the next in program order. */
  lemma PointOffStep(p: Bpf.Program, args: seq<ArgType>, k: nat)
    requires Bpf.DecodableProgram(p) && ValidArgs(args) && k + 1 < |p|
    ensures Point(p, args, k + 1).off == Point(p, args, k).off + if p[k].Call? then 40 else 0
  {
    hide EmittedBefore, Point, Graph, Units, Leaders, StartsOf, GraphBlock, GraphIndex, BlockOf, LabelledInsn, Bpf.UnitOf;
    var b, j := InsnLocated(p, k);
    var b', j' := InsnLocated(p, k + 1);
    PointIs(p, args, k, b, j);
    PointIs(p, args, k + 1, b', j');
    GraphNext(p, k);
    SuccsFromNext(p, k, b, j);
    LabelledCall(p, k);
    OffWithin(Graph(p), args, b, j);
    var f: nat := b;
    assert Follows(Graph(p), b, j, Bpf.UnitOf(p, k + 1) in Leaders(p), b', j');
    if b' == b + 1 { OffAcross(Graph(p), args, b); }
  }

  lemma LabelledCall(p: Bpf.Program, k: nat)
    requires Bpf.DecodableProgram(p) && k < |p|
    ensures LabelledInsn(p, k).Call? == p[k].Call?
  {
  }

  /** The scratch offset at instruction k: what setup used, and 40 bytes for each call before it. */
  lemma {:induction false} PointOff(p: Bpf.Program, args: seq<ArgType>, k: nat)
    requires Bpf.DecodableProgram(p) && ValidArgs(args) && k < |p|
    ensures Point(p, args, k).off == ArgOffset(args, |args|) + 40 * Calls(p, k)
    decreases k
  {
    hide Point, EmittedBefore, Graph, Bpf.DecodableProgram;
    if k == 0 {
      FirstPoint(p, args);
      EntryOff(p, args);
    } else {
      PointOff(p, args, k - 1);
      PointOffStep(p, args, k - 1);
    }
  }

  lemma {:induction false} EntryOff(p: Bpf.Program, args: seq<ArgType>)
    requires Bpf.DecodableProgram(p) && p != [] && ValidArgs(args)
    ensures |Graph(p)| > 1
    ensures EmittedBefore(Graph(p), args, 1, 0).off == ArgOffset(args, |args|)
  {
    hide LiftInsn, Setup, Graph;
    EntrySuccessor(p);
    var g := Graph(p);
    OffAcross(g, args, 0);
    OffWithin(g, args, 0, 0);
    NothingLifted(LiftBlocks(Prepared(g, args), g, 0).(cur := 0), g, 0);
  }

  // ---------------------------------------------------------------- the uses, in order

  function RegSites(regs: seq<nat>, n: nat): seq<Site>
    requires n <= |regs|
  {
    if n == 0 then [] else RegSites(regs, n - 1) + [Site(64, regs[n - 1])]
  }

  function ArgSites(args: seq<ArgType>, regs: seq<nat>, n: nat): seq<Site>
    requires n <= |args| < |regs| && forall t <- args :: t.Valid()
  {
    if n == 0 then []
    else ArgSites(args, regs, n - 1) + [Site(args[n - 1].JunkBits(), JunkOf(args[n - 1], regs[n]))]
  }

  /** The clobbers of r1 up to rn by the call at unit u. */
  function ClobberSites(o: Bpf.Oracle, u: nat, n: nat): seq<Site> {
    if n == 0 then [] else ClobberSites(o, u, n - 1) + [Site(64, Wrap(64, o.clobber(u, n)))]
  }

  function CallSites(p: Bpf.Program, o: Bpf.Oracle, k: nat): seq<Site>
    requires k <= |p|
  {
    if k == 0 then []
    else if p[k - 1].Call? then CallSites(p, o, k - 1) + ClobberSites(o, Bpf.UnitOf(p, k - 1), 5)
    else CallSites(p, o, k - 1)
  }

  function EntrySites(args: seq<ArgType>, regs: seq<nat>): seq<Site>
    requires ValidArgs(args) && |regs| == 12
  {
    RegSites(regs, 12) + ArgSites(args, regs, |args|)
  }

  function AllSites(p: Bpf.Program, args: seq<ArgType>, regs: seq<nat>, o: Bpf.Oracle): seq<Site>
    requires ValidArgs(args) && |regs| == 12
  {
    EntrySites(args, regs) + CallSites(p, o, |p|)
  }

  lemma {:induction false} RegSitesPrefix(regs: seq<nat>, m: nat, n: nat)
    requires m <= n <= |regs|
    ensures RegSites(regs, m) <= RegSites(regs, n) && Size(RegSites(regs, m)) == 8 * m
    decreases n
  {
    if m < n {
      RegSitesPrefix(regs, m, n - 1);
    } else if m > 0 {
      RegSitesPrefix(regs, m - 1, m - 1);
      SizeAppend(RegSites(regs, m - 1), [Site(64, regs[m - 1])]);
      SizeOne(Site(64, regs[m - 1]));
    }
  }

  lemma SizeOne(s: Site)
    ensures Size([s]) == s.Bytes()
  {
    assert [s][..0] == [];
  }

  lemma {:induction false} ArgSitesPrefix(args: seq<ArgType>, regs: seq<nat>, m: nat, n: nat)
    requires m <= n <= |args| < |regs| && forall t <- args :: t.Valid()
    ensures ArgSites(args, regs, m) <= ArgSites(args, regs, n)
    ensures 96 + Size(ArgSites(args, regs, m)) == ArgOffset(args, m)
    decreases n
  {
    hide JunkOf, ArgType.JunkBits, ArgType.Valid;
    if m < n {
      ArgSitesPrefix(args, regs, m, n - 1);
    } else if m > 0 {
      ArgSitesPrefix(args, regs, m - 1, m - 1);
      var site := Site(args[m - 1].JunkBits(), JunkOf(args[m - 1], regs[m]));
      SizeAppend(ArgSites(args, regs, m - 1), [site]);
      SizeOne(site);
    }
  }

  lemma {:induction false} ClobberSitesPrefix(o: Bpf.Oracle, u: nat, m: nat, n: nat)
    requires m <= n
    ensures ClobberSites(o, u, m) <= ClobberSites(o, u, n) && Size(ClobberSites(o, u, m)) == 8 * m
    decreases n
  {
    if m < n {
      ClobberSitesPrefix(o, u, m, n - 1);
    } else if m > 0 {
      ClobberSitesPrefix(o, u, m - 1, m - 1);
      SizeAppend(ClobberSites(o, u, m - 1), [Site(64, Wrap(64, o.clobber(u, m)))]);
      SizeOne(Site(64, Wrap(64, o.clobber(u, m))));
    }
  }

  lemma {:induction false} CallSitesPrefix(p: Bpf.Program, o: Bpf.Oracle, m: nat, n: nat)
    requires m <= n <= |p|
    ensures CallSites(p, o, m) <= CallSites(p, o, n) && Size(CallSites(p, o, m)) == 40 * Calls(p, m)
    decreases n
  {
    if m < n {
      CallSitesPrefix(p, o, m, n - 1);
    } else if m > 0 {
      CallSitesPrefix(p, o, m - 1, m - 1);
      ClobberSitesPrefix(o, Bpf.UnitOf(p, m - 1), 5, 5);
      SizeAppend(CallSites(p, o, m - 1), ClobberSites(o, Bpf.UnitOf(p, m - 1), 5));
    }
  }

  // ---------------------------------------------------------------- every use gets its value

  lemma PrefixThrough(a: seq<Site>, b: seq<Site>, c: seq<Site>)
    requires a <= b
    ensures a <= b + c
  {
  }

  lemma PrefixAfter(x: seq<Site>, a: seq<Site>, b: seq<Site>)
    requires a <= b
    ensures x + a <= x + b
  {
  }

  lemma {:induction false} RegLoads(p: Bpf.Program, args: seq<ArgType>, regs: seq<nat>, o: Bpf.Oracle, r: nat,
                                    rest: seq<nat>)
    requires ValidArgs(args) && |regs| == 12 && r < 12 && regs[r] < Pow2(64)
    ensures UnspecifiedAt(Layout(AllSites(p, args, regs, o)) + rest, 8 * r, 64) == Some(regs[r])
  {
    RegSitesPrefix(regs, r, r);
    RegSitesPrefix(regs, r + 1, 12);
    PrefixThrough(RegSites(regs, r + 1), RegSites(regs, 12), ArgSites(args, regs, |args|));
    PrefixThrough(RegSites(regs, r + 1), EntrySites(args, regs), CallSites(p, o, |p|));
    SiteLoads(AllSites(p, args, regs, o), RegSites(regs, r), Site(64, regs[r]), rest);
  }

  lemma {:induction false} ArgLoads(p: Bpf.Program, args: seq<ArgType>, regs: seq<nat>, o: Bpf.Oracle, i: nat,
                                    rest: seq<nat>)
    requires ValidArgs(args) && |regs| == 12 && i < |args|
    requires JunkOf(args[i], regs[1 + i]) < Pow2(args[i].JunkBits())
    ensures UnspecifiedAt(Layout(AllSites(p, args, regs, o)) + rest, ArgOffset(args, i), args[i].JunkBits())
            == Some(JunkOf(args[i], regs[1 + i]))
  {
    hide JunkOf, ArgType.JunkBits, RegSites, Layout, UnspecifiedAt, Size, CallSites, Bpf.UnitOf;
    var site := Site(args[i].JunkBits(), JunkOf(args[i], regs[1 + i]));
    var rs, pre := RegSites(regs, 12), ArgSites(args, regs, i);
    RegSitesPrefix(regs, 12, 12);
    ArgSitesPrefix(args, regs, i, i);
    ArgSitesPrefix(args, regs, i + 1, |args|);
    PrefixAfter(rs, pre + [site], ArgSites(args, regs, |args|));
    assert rs + (pre + [site]) == (rs + pre) + [site];
    PrefixThrough((rs + pre) + [site], EntrySites(args, regs), CallSites(p, o, |p|));
    SizeAppend(rs, pre);
    SiteLoads(AllSites(p, args, regs, o), rs + pre, site, rest);
  }

  lemma {:induction false} EntrySize(args: seq<ArgType>, regs: seq<nat>)
    requires ValidArgs(args) && |regs| == 12
    ensures Size(EntrySites(args, regs)) == ArgOffset(args, |args|)
  {
    RegSitesPrefix(regs, 12, 12);
    ArgSitesPrefix(args, regs, |args|, |args|);
    SizeAppend(RegSites(regs, 12), ArgSites(args, regs, |args|));
  }

  lemma {:induction false} CallSitePlace(p: Bpf.Program, o: Bpf.Oracle, k: nat, r: nat)
    requires k < |p| && p[k].Call? && 1 <= r <= 5
    ensures var pre := CallSites(p, o, k) + ClobberSites(o, Bpf.UnitOf(p, k), r - 1);
            && pre + [Site(64, Wrap(64, o.clobber(Bpf.UnitOf(p, k), r)))] <= CallSites(p, o, |p|)
            && Size(pre) == 40 * Calls(p, k) + 8 * (r - 1)
  {
    hide Bpf.UnitOf;
    var u := Bpf.UnitOf(p, k);
    var site := Site(64, Wrap(64, o.clobber(u, r)));
    var calls, five := CallSites(p, o, k), ClobberSites(o, u, r - 1);
    CallSitesPrefix(p, o, k, k);
    CallSitesPrefix(p, o, k + 1, |p|);
    ClobberSitesPrefix(o, u, r - 1, r - 1);
    ClobberSitesPrefix(o, u, r, 5);
    PrefixAfter(calls, five + [site], ClobberSites(o, u, 5));
    assert calls + (five + [site]) == (calls + five) + [site];
    SizeAppend(calls, five);
  }

  lemma {:induction false} CallLoads(p: Bpf.Program, args: seq<ArgType>, regs: seq<nat>, o: Bpf.Oracle, k: nat, r: nat,
                                     rest: seq<nat>)
    requires ValidArgs(args) && |regs| == 12 && k < |p| && p[k].Call? && 1 <= r <= 5
    ensures UnspecifiedAt(Layout(AllSites(p, args, regs, o)) + rest,
                          ArgOffset(args, |args|) + 40 * Calls(p, k) + 8 * (r - 1), 64)
            == Some(Wrap(64, o.clobber(Bpf.UnitOf(p, k), r)))
  {
    hide Layout, Bpf.UnitOf, ArgOffset, CallSites, ClobberSites, EntrySites, UnspecifiedAt;
    var site := Site(64, Wrap(64, o.clobber(Bpf.UnitOf(p, k), r)));
    var entry, pre := EntrySites(args, regs), CallSites(p, o, k) + ClobberSites(o, Bpf.UnitOf(p, k), r - 1);
    EntrySize(args, regs);
    CallSitePlace(p, o, k, r);
    PrefixAfter(entry, pre + [site], CallSites(p, o, |p|));
    assert entry + (pre + [site]) == (entry + pre) + [site];
    SizeAppend(entry, pre);
    SiteLoads(AllSites(p, args, regs, o), entry + pre, site, rest);
  }
}
