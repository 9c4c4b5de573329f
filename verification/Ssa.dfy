/** The lifted function is in static single-assignment form: every name is defined once, and where it is used, it
    is defined before, in the same block or in one that every path to the block goes through. */
module Ssa {
  import opened Options
  import opened Ir
  import opened Codegen
  import opened Numbering
  import opened Cfg
  import opened Emission
  import opened Lifting
  import opened Abi
  import opened Prologue
  import opened GraphFacts
  import Bpf

  // ---------------------------------------------------------------- uses, definitions, paths

  /** Instruction k of the block uses x; at the end of the block, its terminator does. */
  predicate UsedAt(b: Block, k: nat, x: nat) {
    if k < |b.insts| then UsesName(b.insts[k], x) else b.term.Some? && TermUses(b.term.value, x)
  }

  predicate DefinesAt(f: Fn, b: nat, k: nat, x: nat) {
    b < |f| && k < |f[b].insts| && DefOf(f[b].insts[k]) == Some(x)
  }

  predicate DefinedBefore(code: seq<Inst>, k: nat,
                          x: nat) { exists j: nat :: j < k && j < |code| && DefOf(code[j]) == Some(x) }

  predicate Edge(f: Fn, a: nat, b: nat) { a < |f| && GoesTo(f[a].term, b) }

  /** A path from the entry block to b. */
  predicate IsPath(f: Fn, p: seq<nat>, b: nat) {
    p != [] && p[0] == 0 && p[|p| - 1] == b && forall i :: 0 <= i < |p| - 1 ==> Edge(f, p[i], p[i + 1])
  }

  ghost predicate Dominates(f: Fn, a: nat, b: nat) { forall p: seq<nat> :: IsPath(f, p, b) ==> a in p }

  /** At place k of block b the name x is defined. */
  ghost predicate Available(f: Fn, b: nat, k: nat, x: nat)
    requires b < |f|
  {
    DefinedBefore(f[b].insts, k, x)
    || exists a: nat :: a < |f| && a != b && Dominates(f, a, b) && DefinedBefore(f[a].insts, |f[a].insts|, x)
  }

  /** Wherever a name is used, it is defined. */
  ghost predicate AllAvailable(f: Fn) {
    forall b: nat, k: nat, x: nat :: b < |f| && k <= |f[b].insts| && UsedAt(f[b], k, x) ==> Available(f, b, k, x)
  }

  ghost predicate DefinedOnce(f: Fn) {
    forall x: nat, b: nat, k: nat, b': nat, k': nat :: DefinesAt(f, b, k, x) && DefinesAt(f, b', k', x) ==> b == b' && k == k'
  }

  // ---------------------------------------------------------------- what numbered code says about places

  lemma {:induction false} NumberedAt(code: seq<Inst>, id: nat, sc: Scope, k: nat)
    requires Numbered(code, id, sc) && k < |code|
    ensures UsesWithin(code[k], sc, NextName(code[..k], id))
    ensures DefOf(code[k]).Some? ==> DefOf(code[k]).value == NextName(code[..k], id)
    decreases |code|
  {
    var front := code[..|code| - 1];
    hide UsesWithin, DefOf;
    if k < |front| {
      assert front[..k] == code[..k];
      NumberedAt(front, id, sc, k);
    }
  }

  lemma {:induction false} NextNameUp(code: seq<Inst>, id: nat, j: nat, k: nat)
    requires j <= k <= |code|
    ensures NextName(code[..j], id) <= NextName(code[..k], id)
    ensures j < k && DefOf(code[j]).Some? ==> NextName(code[..j], id) < NextName(code[..k], id)
    decreases k
  {
    hide DefOf;
    if j < k {
      assert code[..k][..k - 1] == code[..k - 1];
      NextNameUp(code, id, j, k - 1);
    }
  }

  /** Every name that numbered code takes is defined in it. */
  lemma {:induction false} NameDefined(code: seq<Inst>, id: nat, sc: Scope, k: nat, x: nat)
    requires Numbered(code, id, sc) && k <= |code| && id <= x < NextName(code[..k], id)
    ensures DefinedBefore(code, k, x)
    decreases k
  {
    hide UsesWithin, DefOf;
    assert NextName(code[..0], id) == id;
    assert code[..k][..k - 1] == code[..k - 1];
    if x < NextName(code[..k - 1], id) {
      NameDefined(code, id, sc, k - 1, x);
    } else {
      NumberedAt(code, id, sc, k - 1);
      assert DefOf(code[k - 1]) == Some(x);
    }
  }

  /** A use in numbered code is of a name defined before it, or of one from outside. */
  lemma {:induction false} UseDefined(code: seq<Inst>, id: nat, sc: Scope, k: nat, x: nat)
    requires Numbered(code, id, sc) && sc.from == id && k < |code| && UsesName(code[k], x)
    ensures DefinedBefore(code, k, x) || sc.lo <= x < sc.hi
  {
    NumberedAt(code, id, sc, k);
    UsedWithin(code[k], sc, NextName(code[..k], id), x);
    hide UsesWithin, DefOf, UsesName, Numbered, NextName;
    if id <= x < NextName(code[..k], id) { NameDefined(code, id, sc, k, x); }
  }

  // ---------------------------------------------------------------- domination, as it is built up

  /** All edges into b come from a, or from blocks into which, again, all come from a. */
  ghost predicate Owns(f: Fn, n: nat, a: nat, b: nat, d: nat)
    decreases d
  {
    n <= b && forall k: nat :: Edge(f, k, b) ==> k == a || (d > 0 && Owns(f, n, a, k, d - 1))
  }

  lemma {:induction false} OwnerDominates(f: Fn, n: nat, a: nat, b: nat, d: nat)
    requires 0 < n && Owns(f, n, a, b, d)
    ensures Dominates(f, a, b)
    decreases d
  {
    forall p: seq<nat> | IsPath(f, p, b) ensures a in p {
      var k := p[|p| - 2];
      assert Edge(f, p[|p| - 2], p[|p| - 2 + 1]);
      hide Edge;
      if k != a {
        OwnerDominates(f, n, a, k, d - 1);
        var q := p[..|p| - 1];
        assert forall i :: 0 <= i < |q| - 1 ==> Edge(f, q[i], q[i + 1]) by {
          forall i | 0 <= i < |q| - 1 ensures Edge(f, q[i], q[i + 1]) { assert Edge(f, p[i], p[i + 1]); }
        }
        assert IsPath(f, q, k);
        assert a in q;
      }
    }
  }

  ghost predicate Inherited(f: Fn, n: nat, b: nat, x: nat) {
    exists a: nat, d: nat :: a < |f| && a != b && Owns(f, n, a, b, d) && DefinedBefore(f[a].insts, |f[a].insts|, x)
  }

  ghost predicate PlaceScoped(f: Fn, n: nat, b: nat, k: nat)
    requires b < |f|
  {
    forall x: nat :: UsedAt(f[b], k, x) ==> DefinedBefore(f[b].insts, k, x) || Inherited(f, n, b, x)
  }

  ghost predicate Scoped(f: Fn, n: nat) {
    forall b: nat, k: nat :: b < |f| && k <= |f[b].insts| ==> PlaceScoped(f, n, b, k)
  }

  ghost predicate TargetsIn(f: Fn) { forall a: nat, b: nat :: Edge(f, a, b) ==> b < |f| }

  /** New edges go to the blocks of the graph, or to new blocks. */
  ghost predicate NewEdges(f: Fn, f': Fn, n: nat) {
    forall a: nat, b: nat :: Edge(f', a, b) ==> Edge(f, a, b) || b < n || |f| <= b
  }

  lemma {:induction false} OwnsStays(f: Fn, f': Fn, n: nat, a: nat, b: nat, d: nat)
    requires NewEdges(f, f', n) && b < |f| && Owns(f, n, a, b, d)
    ensures Owns(f', n, a, b, d)
    decreases d
  {
    forall k: nat | Edge(f', k, b) ensures k == a || (d > 0 && Owns(f', n, a, k, d - 1)) {
      assert Edge(f, k, b);
      if k != a { OwnsStays(f, f', n, a, k, d - 1); }
    }
  }

  lemma DefinedStays(c: seq<Inst>, c': seq<Inst>, k: nat, k': nat, x: nat)
    requires DefinedBefore(c, k, x) && c <= c' && k <= k'
    ensures DefinedBefore(c', k', x)
  {
    var j: nat :| j < k && j < |c| && DefOf(c[j]) == Some(x);
    assert c'[j] == c[j];
  }

  lemma {:induction false} InheritedStays(f: Fn, f': Fn, n: nat, b: nat, x: nat)
    requires Extends(f, f') && NewEdges(f, f', n) && b < |f| && Inherited(f, n, b, x)
    ensures Inherited(f', n, b, x)
  {
    var a: nat, d: nat :| a < |f| && a != b && Owns(f, n, a, b, d) && DefinedBefore(f[a].insts, |f[a].insts|, x);
    assert ExtendsBlock(f[a], f'[a]);
    hide DefinedBefore, Owns, NewEdges, Extends;
    OwnsStays(f, f', n, a, b, d);
    DefinedStays(f[a].insts, f'[a].insts, |f[a].insts|, |f'[a].insts|, x);
  }

  /** A place of `f'` that was not there in `f`. */
  predicate NewPlace(f: Fn, b: nat, k: nat) { b >= |f| || (f[b].term.None? && |f[b].insts| <= k) }

  lemma {:induction false} PlaceStays(f: Fn, f': Fn, n: nat, b: nat, k: nat)
    requires Extends(f, f') && NewEdges(f, f', n) && b < |f| && !NewPlace(f, b, k) && k <= |f'[b].insts|
    requires Scoped(f, n)
    ensures PlaceScoped(f', n, b, k)
  {
    assert ExtendsBlock(f[b], f'[b]);
    assert PlaceScoped(f, n, b, k);
    assert k < |f[b].insts| ==> f'[b].insts[k] == f[b].insts[k];
    hide DefinedBefore, Owns, NewEdges, Extends, Inherited, UsesName, TermUses, Scoped;
    forall x: nat | UsedAt(f'[b], k, x) ensures DefinedBefore(f'[b].insts, k, x) || Inherited(f', n, b, x) {
      assert UsedAt(f[b], k, x);
      if DefinedBefore(f[b].insts, k, x) {
        DefinedStays(f[b].insts, f'[b].insts, k, k, x);
      } else {
        InheritedStays(f, f', n, b, x);
      }
    }
  }

  lemma {:induction false} StepScoped(f: Fn, f': Fn, n: nat)
    requires Extends(f, f') && NewEdges(f, f', n) && Scoped(f, n)
    requires forall b: nat, k: nat :: b < |f'| && k <= |f'[b].insts| && NewPlace(f, b, k) ==> PlaceScoped(f', n, b, k)
    ensures Scoped(f', n)
  {
    hide PlaceScoped, NewEdges;
    forall b: nat, k: nat | b < |f'| && k <= |f'[b].insts| ensures PlaceScoped(f', n, b, k) {
      if !NewPlace(f, b, k) { PlaceStays(f, f', n, b, k); }
    }
  }

  // ---------------------------------------------------------------- appending to a block

  /** Block c with code appended, closed if there is a terminator. */
  function Closed(f: Fn, c: nat, code: seq<Inst>, t: Option<Term>): Fn
    requires c < |f|
  {
    f[c := Block(f[c].name, f[c].insts + code, t)]
  }

  /** The terminator uses names of the code only. */
  predicate TermWithin(t: Option<Term>, id: nat, n: nat) {
    match t
    case Some(CondGoto(v, _, _)) => ValWithin(v, Own(id), n)
    case Some(Return(v)) => ValWithin(v, Own(id), n)
    case _ => true
  }

  lemma {:induction false} AppendedPlace(f: Fn, n: nat, c: nat, front: seq<Inst>, code: seq<Inst>, id: nat, k: nat)
    requires c < |f| && f[c].insts == front + code && Numbered(code, id, Own(id)) && |front| <= k <= |f[c].insts|
    requires TermWithin(f[c].term, id, NextName(code, id))
    ensures PlaceScoped(f, n, c, k)
  {
    hide Inherited, DefinedBefore, Numbered, NextName;
    forall x: nat | UsedAt(f[c], k, x) ensures DefinedBefore(f[c].insts, k, x) {
      if k < |f[c].insts| {
        assert f[c].insts[k] == code[k - |front|];
        hide UsesName;
        UseDefined(code, id, Own(id), k - |front|, x);
      } else {
        assert code[..|code|] == code;
        NameDefined(code, id, Own(id), |code|, x);
      }
      DefinedAfter(front, code, k - |front|, x);
    }
  }

  lemma DefinedAfter(front: seq<Inst>, code: seq<Inst>, k: nat, x: nat)
    requires DefinedBefore(code, k, x)
    ensures DefinedBefore(front + code, |front| + k, x)
  {
    var j: nat :| j < k && j < |code| && DefOf(code[j]) == Some(x);
    assert (front + code)[|front| + j] == code[j];
  }

  lemma IdlePlace(f: Fn, n: nat, b: nat, k: nat)
    requires b < |f| && f[b].term.None? && |f[b].insts| <= k
    ensures PlaceScoped(f, n, b, k)
  {
  }

  lemma {:induction false} CloseScoped(f: Fn, n: nat, c: nat, code: seq<Inst>, t: Option<Term>, id: nat)
    requires Scoped(f, n) && TargetsIn(f) && n <= |f| && c < |f| && f[c].term.None?
    requires Numbered(code, id, Own(id)) && TermWithin(t, id, NextName(code, id))
    requires forall b: nat :: GoesTo(t, b) ==> b < n
    ensures Scoped(Closed(f, c, code, t), n) && TargetsIn(Closed(f, c, code, t)) && Extends(f, Closed(f, c, code, t))
  {
    var f' := Closed(f, c, code, t);
    hide Numbered, NextName, TermWithin, PlaceScoped, GoesTo;
    assert forall a: nat, b: nat :: Edge(f', a, b) ==> Edge(f, a, b) || b < n;
    assert Extends(f, f') && NewEdges(f, f', n) && TargetsIn(f');
    hide Extends, TargetsIn;
    forall b: nat, k: nat | b < |f'| && k <= |f'[b].insts| && NewPlace(f, b, k) ensures PlaceScoped(f', n, b, k) {
      if b == c { AppendedPlace(f', n, c, f[c].insts, code, id, k); } else { IdlePlace(f', n, b, k); }
    }
    hide NewEdges;
    StepScoped(f, f', n);
  }

  // ---------------------------------------------------------------- forking

  /** The function after a fork: the current block closed, the added blocks behind the others. */
  function Forked(f: Fn, c: nat, head: seq<Inst>, s: Split): Fn
    requires c < |f|
  {
    Closed(f, c, head, Some(s.exit)) + Added(s)
  }

  ghost predicate ForkEdges(f: Fn, c: nat, f': Fn, m: nat) {
    forall a: nat, b: nat :: Edge(f', a, b) ==>
      Edge(f, a, b) || (a == c && |f| <= b < |f| + m) || (|f| <= a < b < |f| + m)
  }

  lemma {:induction false} ForkHasEdges(f: Fn, c: nat, head: seq<Inst>, s: Split)
    requires c < |f| && f[c].term.None? && Forward(Added(s), |f|)
    requires forall t: nat :: GoesTo(Some(s.exit), t) ==> |f| <= t < |f| + |Added(s)|
    ensures ForkEdges(f, c, Forked(f, c, head, s), |Added(s)|)
  {
    var f', added := Forked(f, c, head, s), Added(s);
    hide Added, GoesTo;
    forall a: nat, b: nat | Edge(f', a, b)
      ensures Edge(f, a, b) || (a == c && |f| <= b < |f| + |added|) || (|f| <= a < b < |f| + |added|)
    {
      if a >= |f| { assert f'[a] == added[a - |f|]; } else { assert f'[a] == Closed(f, c, head, Some(s.exit))[a]; }
    }
  }

  /** Every added block is reached only through the block that forked. */
  lemma {:induction false} ForkOwns(f: Fn, c: nat, f': Fn, n: nat, m: nat, k: nat, d: nat)
    requires ForkEdges(f, c, f', m) && TargetsIn(f) && n <= |f| && k <= d
    ensures Owns(f', n, c, |f| + k, d)
    decreases k
  {
    hide Edge;
    var b := |f| + k;
    forall a: nat | Edge(f', a, b) ensures a == c || (d > 0 && Owns(f', n, c, a, d - 1)) {
      assert !Edge(f, a, b);
      if a != c { ForkOwns(f, c, f', n, m, a - |f|, d - 1); }
    }
  }

  lemma {:induction false} MadePlace(blk: Block, id: nat, lo: nat, hi: nat, k: nat, x: nat)
    requires BlockMade(blk, id, lo, hi) && k <= |blk.insts| && UsedAt(blk, k, x)
    ensures DefinedBefore(blk.insts, k, x) || lo <= x < hi
  {
    hide DefinedBefore, Numbered, NextName;
    if k < |blk.insts| {
      hide UsesName;
      UseDefined(blk.insts, id, Scope(lo, hi, id), k, x);
    } else {
      assert blk.insts[..|blk.insts|] == blk.insts;
      NameDefined(blk.insts, id, Scope(lo, hi, id), |blk.insts|, x);
    }
  }

  lemma ForkedAt(f: Fn, c: nat, head: seq<Inst>, s: Split, b: nat)
    requires c < |f|
    ensures |Forked(f, c, head, s)| == |f| + |Added(s)|
    ensures Forked(f, c, head, s)[c] == Block(f[c].name, f[c].insts + head, Some(s.exit))
    ensures |f| <= b < |f| + |Added(s)| ==> Forked(f, c, head, s)[b] == Added(s)[b - |f|]
    ensures b < |f| && b != c ==> Forked(f, c, head, s)[b] == f[b]
  {
  }

  lemma {:induction false} AddedPlace(f: Fn, n: nat, c: nat, f': Fn, head: seq<Inst>, s: Split, id: nat, b: nat, k: nat)
    requires c < |f| && n <= |f| && TargetsIn(f) && f' == Forked(f, c, head, s) && ForkEdges(f, c, f', |Added(s)|)
    requires Numbered(head, id, Own(id)) && BlocksMade(Added(s), NextName(head, id), id, NextName(head, id))
    requires |f| <= b < |f'| && k <= |f'[b].insts|
    ensures PlaceScoped(f', n, b, k)
  {
    hide Inherited, DefinedBefore, Numbered, NextName, NameBefore, Owns, Forked, Added, ForkEdges, TargetsIn, UsedAt, BlockMade;
    ForkedAt(f, c, head, s, b);
    var blk, from, hi := f'[b], NameBefore(Added(s), b - |f|, NextName(head, id)), NextName(head, id);
    assert BlockMade(blk, from, id, hi);
    ForkOwns(f, c, f', n, |Added(s)|, b - |f|, b - |f|);
    hide BlocksMade;
    forall x: nat | UsedAt(blk, k, x) ensures DefinedBefore(blk.insts, k, x) || Inherited(f', n, b, x) {
      MadePlace(blk, from, id, hi, k, x);
      if !DefinedBefore(blk.insts, k, x) { HeadInherited(f', n, c, f[c].insts, head, id, b, b - |f|, x); }
    }
  }

  lemma {:induction false} HeadInherited(f: Fn, n: nat, c: nat, front: seq<Inst>, head: seq<Inst>, id: nat, b: nat,
                                         d: nat, x: nat)
    requires c < |f| && c != b && f[c].insts == front + head && Numbered(head, id, Own(id)) && id <= x < NextName(head, id)
    requires Owns(f, n, c, b, d)
    ensures Inherited(f, n, b, x)
  {
    assert head[..|head|] == head;
    NameDefined(head, id, Own(id), |head|, x);
    DefinedAfter(front, head, |head|, x);
    hide DefinedBefore, Owns, Numbered, NextName;
  }

  lemma {:induction false} ForkScoped(f: Fn, n: nat, c: nat, head: seq<Inst>, s: Split, id: nat)
    requires Scoped(f, n) && TargetsIn(f) && n <= |f| && c < |f| && f[c].term.None?
    requires Numbered(head, id, Own(id)) && BlocksMade(Added(s), NextName(head, id), id, NextName(head, id))
    requires TermWithin(Some(s.exit), id, NextName(head, id))
    requires Forward(Added(s), |f|) && forall t: nat :: GoesTo(Some(s.exit), t) ==> |f| <= t < |f| + |Added(s)|
    ensures Scoped(Forked(f, c, head, s), n) && TargetsIn(Forked(f, c, head, s))
  {
    var f' := Forked(f, c, head, s);
    ForkHasEdges(f, c, head, s);
    ForkExtends(f, c, head, s);
    assert |f'| == |f| + |Added(s)|;
    assert f'[c] == Block(f[c].name, f[c].insts + head, Some(s.exit));
    assert NewEdges(f, f', n) && TargetsIn(f') by { hide Edge, Forked, Added; }
    hide Numbered, NextName, TermWithin, PlaceScoped, GoesTo, Forked, NewEdges, ForkEdges, BlocksMade, Added, TargetsIn, Extends;
    forall b: nat, k: nat | b < |f'| && k <= |f'[b].insts| && NewPlace(f, b, k) ensures PlaceScoped(f', n, b, k) {
      if b == c {
        AppendedPlace(f', n, c, f[c].insts, head, id, k);
      } else if b < |f| {
        ForkedAt(f, c, head, s, b);
        IdlePlace(f', n, b, k);
      } else {
        AddedPlace(f, n, c, f', head, s, id, b, k);
      }
    }
    StepScoped(f, f', n);
  }

  lemma ForkExtends(f: Fn, c: nat, head: seq<Inst>, s: Split)
    requires c < |f| && f[c].term.None?
    ensures Extends(f, Forked(f, c, head, s))
  {
  }

  // ---------------------------------------------------------------- every name is defined once

  ghost predicate NamesBelow(f: Fn, n: nat) { forall b: nat, k: nat, x: nat :: DefinesAt(f, b, k, x) ==> x < n }

  ghost predicate Named(f: Fn, n: nat) { NamesBelow(f, n) && DefinedOnce(f) }

  lemma {:induction false} CodeDefines(code: seq<Inst>, id: nat, sc: Scope, k: nat, x: nat)
    requires Numbered(code, id, sc) && k < |code| && DefOf(code[k]) == Some(x)
    ensures id <= x < NextName(code, id) && x == NextName(code[..k], id)
  {
    NumberedAt(code, id, sc, k);
    assert code[..|code|] == code && code[..0] == [];
    NextNameUp(code, id, k, |code|);
    NextNameUp(code, id, 0, k);
  }

  lemma {:induction false} DefinesApart(code: seq<Inst>, id: nat, sc: Scope, j: nat, k: nat, x: nat)
    requires Numbered(code, id, sc) && j < |code| && k < |code| && DefOf(code[j]) == Some(x) == DefOf(code[k])
    ensures j == k
  {
    CodeDefines(code, id, sc, j, x);
    CodeDefines(code, id, sc, k, x);
    if j < k { NextNameUp(code, id, j, k); } else { NextNameUp(code, id, k, j); }
  }

  /** A definition in the extended function is an old one, or one of the code. */
  predicate OldOrCode(f: Fn, c: nat, code: seq<Inst>, b: nat, k: nat, x: nat)
    requires c < |f|
  {
    DefinesAt(f, b, k, x) || (b == c && |f[c].insts| <= k < |f[c].insts| + |code| && DefOf(code[k - |f[c].insts|]) == Some(x))
  }

  lemma ClosedDefines(f: Fn, c: nat, code: seq<Inst>, t: Option<Term>, b: nat, k: nat, x: nat)
    requires c < |f| && DefinesAt(Closed(f, c, code, t), b, k, x)
    ensures OldOrCode(f, c, code, b, k, x)
  {
  }

  lemma {:induction false} ClosedNamed(f: Fn, c: nat, code: seq<Inst>, t: Option<Term>, id: nat, sc: Scope)
    requires c < |f| && Named(f, id) && Numbered(code, id, sc)
    ensures Named(Closed(f, c, code, t), NextName(code, id))
  {
    var f' := Closed(f, c, code, t);
    hide Closed, DefOf, Numbered, NextName, DefinesAt;
    NamesGoUp(code, id);
    forall b: nat, k: nat, x: nat | DefinesAt(f', b, k, x) ensures x < NextName(code, id) {
      ClosedDefines(f, c, code, t, b, k, x);
      if !DefinesAt(f, b, k, x) { CodeDefines(code, id, sc, k - |f[c].insts|, x); }
    }
    forall x: nat, b: nat, k: nat, b': nat, k': nat | DefinesAt(f', b, k, x) && DefinesAt(f', b', k', x) ensures b == b' && k == k' {
      ClosedDefines(f, c, code, t, b, k, x);
      ClosedDefines(f, c, code, t, b', k', x);
      if !DefinesAt(f, b, k, x) { CodeDefines(code, id, sc, k - |f[c].insts|, x); }
      if !DefinesAt(f, b', k', x) { CodeDefines(code, id, sc, k' - |f[c].insts|, x); }
      if !DefinesAt(f, b, k, x) && !DefinesAt(f, b', k', x) {
        DefinesApart(code, id, sc, k - |f[c].insts|, k' - |f[c].insts|, x);
      }
    }
  }

  lemma {:induction false} PushNamed(f: Fn, blk: Block, id: nat, sc: Scope)
    requires Named(f, id) && Numbered(blk.insts, id, sc)
    ensures Named(f + [blk], NextName(blk.insts, id))
  {
    var f1 := f + [Block(blk.name, [], None)];
    assert forall b: nat, k: nat, x: nat :: DefinesAt(f1, b, k, x) ==> DefinesAt(f, b, k, x) by { hide DefOf; }
    hide DefinesAt;
    assert Named(f1, id);
    hide Named;
    assert [] + blk.insts == blk.insts;
    assert f + [blk] == Closed(f1, |f|, blk.insts, blk.term);
    ClosedNamed(f1, |f|, blk.insts, blk.term, id, sc);
  }

  lemma {:induction false} PushAllNamed(f: Fn, bs: seq<Block>, id: nat, lo: nat, hi: nat, k: nat)
    requires Named(f, id) && BlocksMade(bs, id, lo, hi) && k <= |bs|
    ensures Named(f + bs[..k], NameBefore(bs, k, id))
    decreases k
  {
    hide Named, Numbered, NextName;
    if k == 0 {
      assert f + bs[..0] == f;
    } else {
      var from := NameBefore(bs, k - 1, id);
      assert BlockMade(bs[k - 1], from, lo, hi) && NameBefore(bs, k, id) == NextName(bs[k - 1].insts, from);
      hide NameBefore, BlocksMade;
      PushAllNamed(f, bs, id, lo, hi, k - 1);
      PushNamed(f + bs[..k - 1], bs[k - 1], from, Scope(lo, hi, from));
      assert f + bs[..k] == f + bs[..k - 1] + [bs[k - 1]];
    }
  }

  lemma {:induction false} ForkNamed(f: Fn, c: nat, head: seq<Inst>, s: Split, id: nat)
    requires c < |f| && Named(f, id) && Numbered(head, id, Own(id))
    requires BlocksMade(Added(s), NextName(head, id), id, NextName(head, id))
    ensures Named(Forked(f, c, head, s), NameBefore(Added(s), |Added(s)|, NextName(head, id)))
  {
    hide Named, Numbered, NextName, NameBefore, BlocksMade, Added, Closed;
    ClosedNamed(f, c, head, Some(s.exit), id, Own(id));
    PushAllNamed(Closed(f, c, head, Some(s.exit)), Added(s), NextName(head, id), id, NextName(head, id), |Added(s)|);
    assert Added(s)[..|Added(s)|] == Added(s);
  }

  // ---------------------------------------------------------------- names that are resolved

  predicate Known(g: seq<McBlock>, name: string) { exists k :: 0 <= k < |g| && g[k].name == name }

  predicate SuccKnown(g: seq<McBlock>, b: nat)
    requires b < |g|
  {
    |g[b].succs| > 0 && g[b].succs[0] < |g|
  }

  /** What the instruction jumps to is a block of the graph. */
  predicate InsnKnown(g: seq<McBlock>, b: nat, i: Bpf.Insn)
    requires b < |g|
  {
    && (i.Jump? ==> if i.target.Label? then Known(g, i.target.name) else SuccKnown(g, b))
    && (i.Branch? ==> i.target.Label? && Known(g, i.target.name))
  }

  predicate BlockKnown(g: seq<McBlock>, b: nat)
    requires b < |g|
  {
    (forall i <- g[b].instrs :: InsnKnown(g, b, i)) && (|g[b].succs| > 0 ==> SuccKnown(g, b))
  }

  predicate EdgesKnown(g: seq<McBlock>) { forall b :: 0 <= b < |g| ==> BlockKnown(g, b) }

  predicate SameNames(f: Fn, g: seq<McBlock>) { |g| <= |f| && forall k :: 0 <= k < |g| ==> f[k].name == g[k].name }

  lemma {:induction false} NamedAtMost(f: Fn, name: string, k: nat)
    requires k < |f| && f[k].name == name
    ensures BlockNamed(f, name) <= k
    decreases k
  {
    if f[0].name != name { NamedAtMost(f[1..], name, k - 1); }
  }

  lemma {:induction false} KnownFound(f: Fn, g: seq<McBlock>, name: string)
    requires SameNames(f, g) && Known(g, name)
    ensures BlockNamed(f, name) < |g|
  {
    var k :| 0 <= k < |g| && g[k].name == name;
    NamedAtMost(f, name, k);
  }

  lemma {:induction false} OtherKnown(g: seq<McBlock>, succs: seq<nat>, name: string)
    requires Known(g, name)
    ensures Known(g, OtherSuccessor(g, succs, name))
    decreases |succs|
  {
    if succs != [] && !(succs[0] < |g| && g[succs[0]].name != name) { OtherKnown(g, succs[1..], name); }
  }

  lemma {:induction false} SoleKnown(f: Fn, g: seq<McBlock>, b: nat)
    requires SameNames(f, g) && b < |g| && SuccKnown(g, b)
    ensures SoleSuccessor(f, g, b) < |g|
  {
    var t := g[b].succs[0];
    assert Known(g, g[t].name);
    KnownFound(f, g, g[t].name);
  }

  // ---------------------------------------------------------------- lifting keeps all this

  ghost predicate Sound(e: Emitted, n: nat) {
    n <= |e.blocks| && Scoped(e.blocks, n) && TargetsIn(e.blocks) && Named(e.blocks, e.next)
  }

  lemma {:induction false} AppendSound(e: Emitted, n: nat, code: seq<Inst>, next: nat, off: nat)
    requires Sound(e, n) && e.Open() && Numbered(code, e.next, Own(e.next)) && next == NextName(code, e.next)
    ensures Sound(e.Append(Piece(code, Const(0, 0), next)).(off := off), n)
  {
    hide Scoped, TargetsIn, Named, Numbered, NextName;
    CloseScoped(e.blocks, n, e.cur, code, None, e.next);
    ClosedNamed(e.blocks, e.cur, code, None, e.next, Own(e.next));
    assert e.Append(Piece(code, Const(0, 0), next)).blocks == Closed(e.blocks, e.cur, code, None);
  }

  lemma {:induction false} CloseSound(e: Emitted, n: nat, p: Piece, t: Term)
    requires Sound(e, n) && e.Open() && Made(p, e.next, Own(e.next)) && TermWithin(Some(t), e.next, p.next)
    requires forall b: nat :: GoesTo(Some(t), b) ==> b < n
    ensures Sound(e.Append(p).Close(t), n)
  {
    hide Scoped, TargetsIn, Named, Numbered, NextName, GoesTo, TermWithin;
    CloseScoped(e.blocks, n, e.cur, p.code, Some(t), e.next);
    ClosedNamed(e.blocks, e.cur, p.code, Some(t), e.next, Own(e.next));
    assert e.Append(p).Close(t).blocks == Closed(e.blocks, e.cur, p.code, Some(t));
  }

  lemma {:induction false} ReturnSound(e: Emitted, n: nat)
    requires Sound(e, n) && e.Open()
    ensures Sound(LiftReturn(e), n)
  {
    var p := ReadReg(Bpf.R0, Bpf.W64, e.next);
    ReadRegMade(Bpf.R0, Bpf.W64, e.next, Own(e.next));
    assert TermWithin(Some(Return(p.val)), e.next, p.next);
    hide Made, ReadReg, Sound, TermWithin;
    CloseSound(e, n, p, Return(p.val));
  }

  lemma {:induction false} GotoSound(e: Emitted, n: nat, dst: nat)
    requires Sound(e, n) && e.Open() && dst < n
    ensures Sound(e.Close(Goto(dst)), n)
  {
    StartMade(e.next, Own(e.next));
    assert e.Append(Start(e.next)).Close(Goto(dst)) == e.Close(Goto(dst)) by {
      assert e.blocks[e.cur].insts + [] == e.blocks[e.cur].insts;
    }
    hide Made, Sound;
    CloseSound(e, n, Start(e.next), Goto(dst));
  }

  lemma {:induction false} ApplySound(e: Emitted, n: nat, fr: Fragment)
    requires Sound(e, n) && e.Open() && FragmentMade(fr, e.next, |e.blocks|)
    ensures Sound(Apply(e, fr), n)
  {
    if fr.split.None? {
      hide Numbered, NextName;
      AppendSound(e, n, fr.head, fr.next, fr.off);
    } else {
      var s := fr.split.value;
      assert Apply(e, fr).blocks == Forked(e.blocks, e.cur, fr.head, s) && Apply(e, fr).next == fr.next by { ApplyForks(e, fr); }
      hide Apply, Scoped, TargetsIn, Named, Numbered, NextName, NameBefore, BlocksMade, Forward, Added, GoesTo, Forked;
      ForkScoped(e.blocks, n, e.cur, fr.head, s, e.next);
      ForkNamed(e.blocks, e.cur, fr.head, s, e.next);
      ForkedAt(e.blocks, e.cur, fr.head, s, 0);
    }
  }

  lemma ApplyForks(e: Emitted, fr: Fragment)
    requires e.Valid() && fr.split.Some?
    ensures Apply(e, fr).blocks == Forked(e.blocks, e.cur, fr.head, fr.split.value) && Apply(e, fr).next == fr.next
  {
  }

  lemma {:induction false} BranchSound(e: Emitted, g: seq<McBlock>, b: nat, i: Bpf.Insn)
    requires Sound(e, |g|) && e.Open() && b < |g| && SameNames(e.blocks, g) && i.Branch? && InsnKnown(g, b, i)
    ensures Sound(LiftInsn(e, g, b, i), |g|)
  {
    var p := ConditionPiece(i.cond, i.w, i.lhs, i.rhs, e.next);
    var (t, f) := BranchTargets(e.blocks, g, b, i.target.name);
    ConditionMade(i.cond, i.w, i.lhs, i.rhs, e.next);
    KnownFound(e.blocks, g, i.target.name);
    OtherKnown(g, g[b].succs, i.target.name);
    KnownFound(e.blocks, g, OtherSuccessor(g, g[b].succs, i.target.name));
    assert TermWithin(Some(CondGoto(p.val, t, f)), e.next, p.next);
    assert LiftInsn(e, g, b, i) == e.Append(p).Close(CondGoto(p.val, t, f));
    hide ConditionPiece, Made, Sound, Known, LiftInsn;
    CloseSound(e, |g|, p, CondGoto(p.val, t, f));
  }

  lemma {:induction false} InsnSound(e: Emitted, g: seq<McBlock>, b: nat, i: Bpf.Insn)
    requires Sound(e, |g|) && e.Open() && b < |g| && SameNames(e.blocks, g) && InsnKnown(g, b, i)
    ensures Sound(LiftInsn(e, g, b, i), |g|)
  {
    hide Sound, Known, SameNames, FragmentMade;
    if i.Exit? {
      ReturnSound(e, |g|);
    } else if i.Jump? {
      if i.target.Label? {
        KnownFound(e.blocks, g, i.target.name);
        GotoSound(e, |g|, BlockNamed(e.blocks, i.target.name));
      } else {
        SoleKnown(e.blocks, g, b);
        GotoSound(e, |g|, SoleSuccessor(e.blocks, g, b));
      }
    } else if i.Branch? {
      BranchSound(e, g, b, i);
    } else {
      DataMade(i, e.next, e.off, |e.blocks|);
      ApplySound(e, |g|, DataFragment(i, e.next, e.off, |e.blocks|));
    }
  }

  lemma LiftingHasNames(e: Emitted, g: seq<McBlock>, b: nat)
    requires Emission.Lifting(e, g, b)
    ensures SameNames(e.blocks, g)
  {
  }

  lemma {:induction false} NextInsnSound(e: Emitted, g: seq<McBlock>, b: nat, j: nat)
    requires Sound(e, |g|) && Emission.Lifting(e, g, b) && 0 < j <= |g[b].instrs| && BlockKnown(g, b) && WellFormedBlock(g[b])
    requires e.Open() <==> j - 1 == 0 || !g[b].instrs[j - 2].IsTerminator()
    ensures Sound(LiftInsn(e, g, b, g[b].instrs[j - 1]), |g|)
  {
    var i := g[b].instrs[j - 1];
    assert e.Open() && InsnKnown(g, b, i);
    LiftingHasNames(e, g, b);
    hide Sound, Emission.Lifting, SameNames, InsnKnown, BlockKnown, WellFormedBlock, LiftInsn;
    InsnSound(e, g, b, i);
  }

  lemma {:induction false} InstrsSound(e: Emitted, g: seq<McBlock>, b: nat, j: nat)
    requires Sound(e, |g|) && Emission.Lifting(e, g, b) && e.Open() && j <= |g[b].instrs| && WellFormedBlock(g[b]) && BlockKnown(g, b)
    ensures Sound(LiftInstrs(e, g, b, j), |g|)
    decreases j
  {
    hide Sound, Emission.Lifting, BlockKnown, WellFormedBlock, LiftInsn, Extends;
    if j > 0 {
      InstrsSound(e, g, b, j - 1);
      LiftInstrsKeeps(e, g, b, j - 1);
      NextInsnSound(LiftInstrs(e, g, b, j - 1), g, b, j);
    }
  }

  lemma {:induction false} FallThroughSound(e: Emitted, g: seq<McBlock>, b: nat)
    requires Sound(e, |g|) && Emission.Lifting(e, g, b) && BlockKnown(g, b)
    ensures Sound(FallThrough(e, g, b), |g|)
  {
    LiftingHasNames(e, g, b);
    hide Sound, Emission.Lifting, SameNames;
    if e.Open() {
      if |g[b].succs| == 0 {
        ReturnSound(e, |g|);
      } else if |g[b].succs| == 1 {
        SoleKnown(e.blocks, g, b);
        GotoSound(e, |g|, SoleSuccessor(e.blocks, g, b));
      }
    }
  }

  lemma {:induction false} BlockSound(e: Emitted, g: seq<McBlock>, b: nat)
    requires Sound(e, |g|) && Between(e, g, b) && b < |g| && WellFormedBlock(g[b]) && BlockKnown(g, b)
    ensures Sound(LiftBlock(e, g, b), |g|)
  {
    var e0, n := e.(cur := b), |g[b].instrs|;
    BeginBlock(e, g, b);
    assert Sound(e0, |g|);
    hide Sound, Between, Emission.Lifting, BlockKnown, LiftInstrs, FallThrough;
    LiftInstrsKeeps(e0, g, b, n);
    InstrsSound(e0, g, b, n);
    FallThroughSound(LiftInstrs(e0, g, b, n), g, b);
  }

  lemma {:induction false} BlocksSound(e: Emitted, g: seq<McBlock>, n: nat)
    requires Sound(e, |g|) && e.Valid() && WellFormed(g) && n <= |g| <= |e.blocks| && Between(e, g, 0) && EdgesKnown(g)
    ensures Sound(LiftBlocks(e, g, n), |g|)
    decreases n
  {
    hide Sound, Between, BlockKnown, LiftBlock, WellFormedBlock, Extends;
    if n > 0 {
      assert WellFormedBlock(g[n - 1]) && BlockKnown(g, n - 1);
      BlocksSound(e, g, n - 1);
      LiftBlocksKeep(e, g, n - 1, n - 1);
      hide WellFormed, EdgesKnown;
      BlockSound(LiftBlocks(e, g, n - 1), g, n - 1);
    }
  }

  lemma {:induction false} EmptySound(g: seq<McBlock>)
    requires g != []
    ensures Sound(Emitted(EmptyBlocks(g), 0, 0, 0), |g|)
  {
    var f := EmptyBlocks(g);
    forall b: nat, k: nat | b < |f| && k <= |f[b].insts| ensures PlaceScoped(f, |g|, b, k) { IdlePlace(f, |g|, b, k); }
  }

  lemma {:induction false} PreparedSound(g: seq<McBlock>, args: seq<ArgType>)
    requires g != [] && ValidArgs(args)
    ensures Sound(Prepared(g, args), |g|)
  {
    hide Sound, Numbered, NextName, Setup, ArgOffset;
    var e, p := Emitted(EmptyBlocks(g), 0, 0, 0), Setup(args);
    assert e.Open();
    EmptySound(g);
    SetupMade(args);
    AppendSound(e, |g|, p.code, p.next, ArgOffset(args, |args|));
    assert e.Append(Piece(p.code, Const(0, 0), p.next)) == e.Append(p);
  }

  /** The lifted function is in static single-assignment form. */
  lemma {:induction false} LiftedIsSsa(g: seq<McBlock>, args: seq<ArgType>)
    requires WellFormed(g) && ValidArgs(args) && EdgesKnown(g)
    ensures DefinedOnce(LiftGraph(g, args)) && AllAvailable(LiftGraph(g, args)) && TargetsIn(LiftGraph(g, args))
  {
    hide Between, Prepared, LiftBlocks, EdgesKnown, NamesBelow, DefinedOnce, TargetsIn, Scoped, AllAvailable;
    PreparedBetween(g, args);
    PreparedSound(g, args);
    BlocksSound(Prepared(g, args), g, |g|);
    ScopedIsAvailable(LiftGraph(g, args), |g|);
  }

  lemma {:induction false} ScopedIsAvailable(f: Fn, n: nat)
    requires 0 < n && Scoped(f, n)
    ensures AllAvailable(f)
  {
    hide UsedAt, Available, Inherited;
    forall b: nat, k: nat, x: nat | b < |f| && k <= |f[b].insts| && UsedAt(f[b], k, x) ensures Available(f, b, k, x) {
      assert PlaceScoped(f, n, b, k);
      PlaceIsAvailable(f, n, b, k, x);
    }
  }

  lemma {:induction false} PlaceIsAvailable(f: Fn, n: nat, b: nat, k: nat, x: nat)
    requires b < |f| && 0 < n && PlaceScoped(f, n, b, k) && UsedAt(f[b], k, x)
    ensures Available(f, b, k, x)
  {
    hide DefinedBefore, Owns, Dominates, UsedAt;
    if !DefinedBefore(f[b].insts, k, x) {
      var a: nat, d: nat :| a < |f| && a != b && Owns(f, n, a, b, d) && DefinedBefore(f[a].insts, |f[a].insts|, x);
      OwnerDominates(f, n, a, b, d);
    }
  }

  // ---------------------------------------------------------------- the graphs of programs

  lemma {:induction false} LabelledKnown(p: Bpf.Program, b: nat, k: nat)
    requires Resolvable(p) && b < |Graph(p)| && k < |p|
    ensures InsnKnown(Graph(p), b, Labelled(p)[k])
  {
    LabelledKind(p, k);
    if p[k].IsBranch() {
      UnitNonNegative(p, k);
      LabelledAt(p, |p|, k);
      var t := Bpf.InsnIndex(p, Cfg.Target(p, k));
      TargetStartsBlock(p, k, t);
      var found := FindBlock(WithEntry(Blocks(p)), Names(p)[t]).value;
      GraphNamesBlock(p, found);
    }
  }

  lemma GraphNamesBlock(p: Bpf.Program, b: nat)
    requires Resolvable(p) && b < |WithEntry(Blocks(p))|
    ensures |Graph(p)| == |WithEntry(Blocks(p))| && Graph(p)[b].name == WithEntry(Blocks(p))[b].name
  {
  }

  lemma {:induction false} GraphBlockKnown(p: Bpf.Program, b: nat)
    requires Resolvable(p) && 0 < b < |Graph(p)|
    ensures BlockKnown(Graph(p), b)
  {
    var g := Graph(p);
    GraphWellFormed(p);
    GraphBlockAt(p, b - 1);
    SuccsInRange(p, b);
    hide Graph, Labelled, InsnKnown, StartsOf, Resolvable, WellFormed, EndOf, Names, Blocks;
    forall i | i in g[b].instrs ensures InsnKnown(g, b, i) {
      var j :| 0 <= j < |g[b].instrs| && g[b].instrs[j] == i;
      LabelledKnown(p, b, StartsOf(p)[b - 1] + j);
    }
  }

  lemma {:induction false} GraphEdgesKnown(p: Bpf.Program)
    requires Resolvable(p)
    ensures EdgesKnown(Graph(p))
  {
    var g := Graph(p);
    EntrySuccessor(p);
    hide Graph, Resolvable;
    forall b | 0 <= b < |g| ensures BlockKnown(g, b) {
      if b > 0 { GraphBlockKnown(p, b); }
    }
  }

  lemma {:induction false} SuccsInRange(p: Bpf.Program, b: nat)
    requires Resolvable(p) && 0 < b < |Graph(p)|
    ensures |Graph(p)[b].succs| > 0 ==> SuccKnown(Graph(p), b)
  {
    GraphWellFormed(p);
    GraphSuccs(p, b - 1);
  }

  /** Whatever program is accepted, the function it is lifted to is in static single-assignment form. */
  lemma {:induction false} ProgramIsSsa(p: Bpf.Program, args: seq<ArgType>)
    requires Resolvable(p) && ValidArgs(args)
    ensures DefinedOnce(LiftGraph(Graph(p), args)) && AllAvailable(LiftGraph(Graph(p), args)) && TargetsIn(LiftGraph(Graph(p), args))
  {
    GraphWellFormed(p);
    GraphEdgesKnown(p);
    hide EdgesKnown, DefinedOnce, AllAvailable, TargetsIn, Graph, LiftGraph;
    LiftedIsSsa(Graph(p), args);
  }

  // ---------------------------------------------------------------- register storage

  predicate UsesRegister(i: Inst, r: nat) {
    (i.LoadCell? && i.cell == RegCell(r)) || (i.StoreCell? && i.cell == RegCell(r))
  }

  /** Where the code that begins the entry block allocates register r. */
  function AllocatedAt(r: nat): nat { 1 + 3 * r }

  /** Code that allocates and fills the registers below n, one after the other. */
  ghost predicate Filled(code: seq<Inst>, n: nat) {
    && |code| == 3 * n && (forall r :: 0 <= r < n ==> code[3 * r] == Alloca(RegCell(r)))
    && forall k, r: nat :: 0 <= k < |code| && UsesRegister(code[k], r) ==> 3 * r < k
  }

  lemma {:induction false} StorageLayout(n: nat, id: nat, off: nat)
    requires n <= 12
    ensures Filled(RegisterStorage(n, id, off).code, n)
    decreases n
  {
    if n > 0 {
      StorageLayout(n - 1, id, off);
      var front := RegisterStorage(n - 1, id, off).code;
      assert RegisterStorage(n, id, off).code
          == front + [Alloca(RegCell(n - 1))] + [LoadUnspecified(id + n - 1, 64, off + 8 * (n - 1))]
             + [StoreCell(Ref(id + n - 1), RegCell(n - 1))];
      hide RegisterStorage;
    }
  }

  /** The code allocates the storage of all registers, each before its first use. */
  ghost predicate Allocates(code: seq<Inst>) {
    && 37 <= |code| && (forall r :: 0 <= r < 12 ==> code[AllocatedAt(r)] == Alloca(RegCell(r)))
    && forall k, r: nat :: 0 <= k < 37 && UsesRegister(code[k], r) ==> AllocatedAt(r) < k
  }

  lemma SetupParts(args: seq<ArgType>) returns (rest: seq<Inst>)
    requires forall t <- args :: t.Valid()
    ensures Setup(args).code == [FrameAlloc(0)] + RegisterStorage(12, 1, 0).code + rest
  {
    hide RegisterStorage, StoreArgs;
    var p := Start(0).Def(FrameAlloc(0)).Then(RegisterStorage(12, 1, 0));
    var q := p.Def(Gep(p.next, Ref(0), Const(64, STACK_BYTES))).Do(StoreCell(Ref(p.next), RegCell(Bpf.R10)));
    var tail := StoreArgs(args, |args|, q.next).code;
    rest := [Gep(p.next, Ref(0), Const(64, STACK_BYTES))] + [StoreCell(Ref(p.next), RegCell(Bpf.R10))] + tail;
    assert Setup(args).code == q.code + tail;
    assert q.code == p.code + [Gep(p.next, Ref(0), Const(64, STACK_BYTES))] + [StoreCell(Ref(p.next), RegCell(Bpf.R10))];
    assert p.code == [FrameAlloc(0)] + RegisterStorage(12, 1, 0).code;
  }

  lemma {:induction false} FrameThenStorage(storage: seq<Inst>, rest: seq<Inst>)
    requires Filled(storage, 12)
    ensures Allocates([FrameAlloc(0)] + storage + rest)
  {
    var code := [FrameAlloc(0)] + storage + rest;
    assert code[0] == FrameAlloc(0);
    forall r | 0 <= r < 12 ensures code[AllocatedAt(r)] == Alloca(RegCell(r)) {
      assert code[1 + 3 * r] == storage[3 * r];
    }
    forall k, r: nat | 0 <= k < 37 && UsesRegister(code[k], r) ensures AllocatedAt(r) < k {
      if k > 0 { assert code[k] == storage[k - 1]; }
    }
  }

  lemma PrefixAllocates(c: seq<Inst>, c': seq<Inst>)
    requires c <= c' && Allocates(c)
    ensures Allocates(c')
  {
    hide UsesRegister;
    assert forall k :: 0 <= k < |c| ==> c'[k] == c[k];
  }

  lemma PreparedEntry(g: seq<McBlock>, args: seq<ArgType>)
    requires g != [] && ValidArgs(args)
    ensures Prepared(g, args).blocks[0].insts == Setup(args).code
  {
    hide Setup;
    assert [] + Setup(args).code == Setup(args).code;
  }

  lemma {:induction false} EntryKept(g: seq<McBlock>, args: seq<ArgType>)
    requires WellFormed(g) && ValidArgs(args)
    ensures LiftGraph(g, args) != [] && Prepared(g, args).blocks[0].insts <= LiftGraph(g, args)[0].insts
  {
    FinishedExtends(g, args, 0, 0);
    assert EmittedBefore(g, args, 0, 0).blocks == Prepared(g, args).blocks;
    hide LiftGraph, EmittedBefore, Prepared, Emission.Lifting, WellFormed;
    assert ExtendsBlock(Prepared(g, args).blocks[0], LiftGraph(g, args)[0]);
  }

  /** Every register's storage is allocated in the entry block, which every path begins with, before its first use. */
  lemma {:induction false} RegistersAllocated(g: seq<McBlock>, args: seq<ArgType>)
    requires WellFormed(g) && ValidArgs(args)
    ensures LiftGraph(g, args) != [] && Allocates(LiftGraph(g, args)[0].insts)
  {
    hide Setup, Prepared, LiftGraph, RegisterStorage, Allocates, Filled;
    EntryKept(g, args);
    PreparedEntry(g, args);
    var rest := SetupParts(args);
    StorageLayout(12, 1, 0);
    FrameThenStorage(RegisterStorage(12, 1, 0).code, rest);
    PrefixAllocates(Setup(args).code, LiftGraph(g, args)[0].insts);
  }
}
