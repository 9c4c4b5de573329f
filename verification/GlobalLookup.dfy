/** The lookup of a global: it lifts everything the request reaches, and nothing else, and then stops. */
module GlobalLookup {
  import opened Options
  import opened Globals
  import opened GlobalsProofs

  // ---------------------------------------------------------------- one request

  /** Every symbol that data mentions. */
  function Mentioned(w: World): set<string> {
    set i, k | 0 <= i < |w.globals| && 0 <= k < |w.globals[i].data| && w.globals[i].data[k].OffsetSym? :: w.globals[i].data[k].sym
  }

  /** Symbols that the request for `root` reaches and that are not lifted. */
  ghost function Left(w: World, root: string, table: map<string, nat>): set<string> {
    set n | n in Mentioned(w) + {root} && Reachable(w, root, n) && n !in table
  }

  /** The state `s` in the middle of the request for `root` that began in `s0`. */
  ghost predicate Serving(w: World, s0: Lifted, root: string, s: Lifted) {
    && s0.objects <= s.objects
    && (forall n <- s0.table :: n in s.table && s.table[n] == s0.table[n])
    && (forall n <- s.table :: n in s0.table || Reachable(w, root, n))
    && root in s.table
    && forall d <- s.queue :: Reachable(w, root, d.name) && d.name !in s0.table && |s0.objects| <= d.val
  }

  lemma QueuedHere(s: Lifted, s1: Lifted, syms: set<string>, d: Deferred)
    requires Queued(s, s1, syms) && d in s1.queue
    ensures d in s.queue || (d.name in syms && d.name !in s.table && |s.objects| <= d.val)
  {
    var i :| 0 <= i < |s1.queue| && s1.queue[i] == d;
    if i < |s.queue| { assert s.queue[i] == d; }
  }

  lemma {:induction false} FirstServes(w: World, s0: Lifted, s1: Lifted, h: nat, root: string)
    requires s0.queue == [] && root !in s0.table && Added(w, s0, s1, h, root, {})
    ensures Serving(w, s0, root, Recorded(s1, root, h))
  {
    ReachesItself(w, root);
    hide ObjectsOk, QueueOk, Represents, Queued, Reachable, Refs;
    forall d | d in s1.queue ensures Reachable(w, root, d.name) && d.name !in s0.table && |s0.objects| <= d.val {
      QueuedHere(s0, s1, Refs(w, root), d);
      ReachesOn(w, root, root, d.name);
    }
  }

  /** Replacing a placeholder made during the request leaves the objects from before alone. */
  lemma {:induction false} OldObjectsStay(w: World, s0: Lifted, objects: seq<Object>, d: Deferred, h: nat,
                                          pending: set<Deferred>)
    requires ObjectsOk(w, s0.objects, s0.table, pending) && s0.objects <= objects
    requires |s0.objects| <= d.val < |objects|
    ensures s0.objects <= Replaced(objects, d, h)
  {
    forall i | 0 <= i < |s0.objects| ensures Replaced(objects, d, h)[i] == s0.objects[i] {
      var o := s0.objects[i];
      assert objects[i] == o && ObjectOk(w, s0.objects, s0.table, pending, o);
      hide ObjectsOk;
      if o.Defined? { PiecesStay(w, s0, pending, w.globals[o.index].data, o.init, d.val, h); }
      assert SwapUses(o, d.val, h) == o;
    }
  }

  lemma {:induction false} PiecesStay(w: World, s0: Lifted, pending: set<Deferred>, data: seq<DataItem>,
                                      init: seq<Piece>, v: nat, h: nat)
    requires PiecesOk(w, s0.objects, s0.table, pending, data, init) && |s0.objects| <= v
    ensures forall k :: 0 <= k < |init| ==> SwapPiece(init[k], v, h) == init[k]
  {
    hide Settled;
    forall k | 0 <= k < |init| ensures SwapPiece(init[k], v, h) == init[k] {
      assert PieceOk(w, s0.objects, s0.table, pending, data[k], init[k]);
    }
  }

  lemma {:induction false} DrainServes(w: World, s0: Lifted, root: string, s: Lifted, s1: Lifted, h: nat, r: Lifted)
    requires Good(w, s0) && s0.queue == []
    requires Serving(w, s0, root, s) && Drained(w, s, s1, h, r)
    ensures Serving(w, s0, root, r)
  {
    var d, rest := s.queue[0], s.queue[1..];
    assert d in s.queue;
    assert Pending(s0.queue) == {};
    hide Represents, Queued, Reachable, Refs, QueueOk, Replaced;
    OldObjectsStay(w, s0, s1.objects, d, h, {});
    hide ObjectsOk;
    forall e | e in s1.queue ensures Reachable(w, root, e.name) && e.name !in s0.table && |s0.objects| <= e.val {
      QueuedHere(s.(queue := rest), s1, Refs(w, d.name), e);
      if e in rest {
        assert e in s.queue;
      } else {
        ReachesOn(w, root, d.name, e.name);
      }
    }
  }

  // ---------------------------------------------------------------- why it ends

  lemma ReachableIsMentioned(w: World, root: string, n: string)
    requires Reachable(w, root, n)
    ensures n in Mentioned(w) + {root}
  {
    var p :| Leads(w, p, root, n);
    if |p| > 1 {
      assert p[|p| - 2 + 1] in Refs(w, p[|p| - 2]);
    }
  }

  /** A queue that has grown has a symbol that was neither lifted nor queued. */
  lemma {:induction false} GrownByNew(s: Lifted, s1: Lifted, syms: set<string>)
    requires QueueOk(s1.objects, s1.queue) && Queued(s, s1, syms) && |s.queue| < |s1.queue|
    ensures !(syms <= s.table.Keys + Names(s.queue))
  {
    var n := s1.queue[|s.queue|].name;
    assert n in syms && n !in s.table;
    NamedOnce(s1.objects, s1.queue, |s.queue|);
    assert s1.queue[..|s.queue|] == s.queue;
  }

  lemma NamedOnce(objects: seq<Object>, queue: seq<Deferred>, k: nat)
    requires QueueOk(objects, queue) && k < |queue|
    ensures queue[k].name !in Names(queue[..k])
  {
  }

  /** Lifting a symbol again defers nothing new. */
  lemma {:induction false} AgainAddsNothing(w: World, s: Lifted, s1: Lifted, h: nat, r: Lifted)
    requires ClosedUpTo(w, s.table, s.queue) && Drained(w, s, s1, h, r) && s.queue[0].name in s.table
    ensures r.queue == s.queue[1..]
  {
    var d, rest := s.queue[0], s.queue[1..];
    NamesOfPopped(s.queue);
    assert Refs(w, d.name) <= s.table.Keys + Names(s.queue);
    hide ObjectsOk, Represents, Replaced, Refs, Names, Pending, QueueOk, Queued;
    if |rest| < |s1.queue| { GrownByNew(s.(queue := rest), s1, Refs(w, d.name)); }
  }

  /** Each turn leaves fewer symbols to lift, or as many and a shorter queue. */
  lemma {:induction false} DrainDecreases(w: World, s0: Lifted, root: string, s: Lifted, s1: Lifted, h: nat, r: Lifted)
    requires Good(w, s) && Serving(w, s0, root, s) && Drained(w, s, s1, h, r)
    ensures |Left(w, root, r.table)| < |Left(w, root, s.table)|
            || (|Left(w, root, r.table)| == |Left(w, root, s.table)| && |r.queue| < |s.queue|)
  {
    var d := s.queue[0];
    assert r.table == s.table[d.name := h];
    assert d in s.queue;
    LeftShrinks(w, root, s.table, d.name, h);
    if d.name in s.table { AgainAddsNothing(w, s, s1, h, r); }
  }

  lemma {:induction false} LeftShrinks(w: World, root: string, table: map<string, nat>, n: string, h: nat)
    requires Reachable(w, root, n)
    ensures |Left(w, root, table[n := h])| == |Left(w, root, table)| - (if n in table then 0 else 1)
  {
    ReachableIsMentioned(w, root, n);
    hide Reachable, Mentioned;
    if n in table {
      assert table[n := h].Keys == table.Keys;
      assert Left(w, root, table[n := h]) == Left(w, root, table);
    } else {
      assert n in Left(w, root, table);
      assert Left(w, root, table[n := h]) == Left(w, root, table) - {n};
    }
  }

  // ---------------------------------------------------------------- what a request leaves

  /** With nothing queued, the lifted symbols are closed under reference. */
  lemma {:induction false} AllReachedAreLifted(w: World, s: Lifted, a: string, b: string)
    requires Good(w, s) && s.queue == [] && a in s.table && Reachable(w, a, b)
    ensures b in s.table && !Resolve(w, b).Missing?
  {
    var p :| Leads(w, p, a, b);
    assert Names(s.queue) == {};
    forall n | n in s.table.Keys ensures Refs(w, n) <= s.table.Keys { }
    ClosedHoldsReachable(w, s.table.Keys, a, p, b);
  }

  lemma {:induction false} AllReached(w: World, s0: Lifted, root: string, s: Lifted)
    requires Good(w, s) && s.queue == [] && Serving(w, s0, root, s)
    ensures forall n :: n in s.table <==> n in s0.table || Reachable(w, root, n)
    ensures forall n :: Reachable(w, root, n) ==> !Resolve(w, n).Missing?
  {
    hide Good, Reachable, Resolve;
    forall n | Reachable(w, root, n) ensures n in s.table && !Resolve(w, n).Missing? {
      AllReachedAreLifted(w, s, root, n);
    }
  }

  // ---------------------------------------------------------------- the handle that is returned

  /** `h`, the handle the request will return, is the recorded one until a self-referring root is lifted again. */
  ghost predicate Answer(w: World, s: Lifted, root: string, h: nat) {
    && h < |s.objects| && Represents(w, s.objects[h], root)
    && root in s.table && (s.table[root] == h <==> root in Names(s.queue) || !SelfReferring(w, root))
  }

  lemma {:induction false} FirstAnswer(w: World, s: Lifted, s1: Lifted, h: nat, root: string)
    requires root !in s.table && Added(w, s, s1, h, root, {})
    ensures Answer(w, Recorded(s1, root, h), root, h)
  {
    hide ObjectsOk, QueueOk, Queued, Names, Represents;
  }

  lemma {:induction false} SelfReferringIsData(w: World, n: string)
    requires SelfReferring(w, n)
    ensures Resolve(w, n).Data?
  {
  }

  /** Lifting defers only symbols that are not lifted. */
  lemma {:induction false} LiftedStayUnqueued(s: Lifted, s1: Lifted, syms: set<string>, n: string)
    requires Queued(s, s1, syms) && n in s.table
    ensures n in Names(s1.queue) <==> n in Names(s.queue)
  {
    NamesGrow(s.queue, s1.queue);
  }

  lemma {:induction false} DrainKeepsAnswer(w: World, s: Lifted, s1: Lifted, h: nat, r: Lifted, root: string, g: nat)
    requires Good(w, s) && Drained(w, s, s1, h, r) && Answer(w, s, root, g)
    requires Resolve(w, s.queue[0].name).Data? ==> |s.objects| <= h
    ensures Answer(w, r, root, g)
  {
    AnswerStays(w, s, s1, h, r, root, g);
    NamesOfPopped(s.queue);
    PoppedApart(s.objects, s.queue);
    LiftedStayUnqueued(s.(queue := s.queue[1..]), s1, Refs(w, s.queue[0].name), root);
    AgainIsSelf(w, s);
    hide Good, Added, Represents, Names, Resolve, SelfReferring, Pending, QueueOk;
    if s.queue[0].name == root && SelfReferring(w, root) { SelfReferringIsData(w, root); }
  }

  lemma AgainIsSelf(w: World, s: Lifted)
    requires Good(w, s) && s.queue != []
    ensures s.queue[0].name in s.table ==> SelfReferring(w, s.queue[0].name)
  {
    assert s.queue[0].name in Names(s.queue);
  }

  lemma NamesOfPopped(queue: seq<Deferred>)
    requires queue != []
    ensures Names(queue) == Names(queue[1..]) + {queue[0].name}
  {
    assert queue == [queue[0]] + queue[1..];
  }

  /** The returned object is not the placeholder that a turn erases. */
  lemma {:induction false} AnswerStays(w: World, s: Lifted, s1: Lifted, h: nat, r: Lifted, root: string, g: nat)
    requires Good(w, s) && Drained(w, s, s1, h, r) && Answer(w, s, root, g)
    ensures g < |r.objects| && Represents(w, r.objects[g], root)
  {
    var d := s.queue[0];
    assert QueueOk(s.objects, s.queue);
    assert s1.objects[d.val] == s.objects[d.val] == Placeholder(d.name);
    assert s1.objects[g] == s.objects[g];
    hide Good, Represents, Names, Resolve, SelfReferring, QueueOk, ObjectsOk, Replaced;
    StillRepresents(w, s1.objects, d, h, g, root);
  }

  lemma HandleIsRight(w: World, s: Lifted, n: string)
    requires Good(w, s) && n in s.table
    ensures s.table[n] < |s.objects| && Represents(w, s.objects[s.table[n]], n)
  {
  }

  lemma {:induction false} AnswerIsRight(w: World, s0: Lifted, s: Lifted, root: string, h: nat)
    requires Answer(w, s, root, h) && Serving(w, s0, root, s) && s.queue == []
    ensures h < |s.objects| && Represents(w, s.objects[h], root)
    ensures root in s.table && (s.table[root] == h <==> !SelfReferring(w, root))
    ensures s0.objects <= s.objects
    ensures forall n <- s0.table :: n in s.table && s.table[n] == s0.table[n]
  {
    assert Names(s.queue) == {};
  }

  /**
   * With nothing queued, every symbolic item of every lifted definition is an address of an object that
   * is what the symbol resolves to, never of a placeholder; and it is the one recorded
   * object of that symbol unless the symbol refers to itself.
   */
  lemma {:induction false} NoPlaceholderIsUsed(w: World, s: Lifted, i: nat, k: nat)
    requires Good(w, s) && s.queue == [] && i < |s.objects| && s.objects[i].Defined?
    requires s.objects[i].index < |w.globals| && k < |w.globals[s.objects[i].index].data| && k < |s.objects[i].init|
    ensures match w.globals[s.objects[i].index].data[k]
            case DataByte(b) => s.objects[i].init[k] == Literal(b)
            case OffsetSym(sym, off) =>
              s.objects[i].init[k].Address? && s.objects[i].init[k].offset == off
              && var obj := s.objects[i].init[k].obj;
                 obj < |s.objects| && !s.objects[obj].Placeholder? && !s.objects[obj].Erased?
                 && Represents(w, s.objects[obj], sym)
                 && sym in s.table && (obj == s.table[sym] || SelfReferring(w, sym))
  {
    assert Pending(s.queue) == {};
    assert ObjectOk(w, s.objects, s.table, {}, s.objects[i]);
    var item := w.globals[s.objects[i].index].data[k];
    assert PieceOk(w, s.objects, s.table, {}, item, s.objects[i].init[k]);
  }

  /** A symbol is lifted once, or twice when it refers to itself. */
  lemma {:induction false} LiftedTwiceOnlyIfSelfReferring(w: World, s: Lifted, n: string)
    requires Good(w, s) && s.queue == []
    ensures multiset(s.log)[n] == if n !in s.table then 0 else if SelfReferring(w, n) then 2 else 1
  {
    assert Names(s.queue) == {};
    hide ObjectsOk, TableOk, QueueOk, Refs;
    assert multiset(s.log)[n] == Times(w, s.table, s.queue, n);
  }

  lemma StartIsGood(w: World)
    ensures Good(w, Start())
  {
  }

  // ---------------------------------------------------------------- spellings

  /** `k` turns of the draining loop, or None once it has stopped. */
  function Turns(w: World, s: Lifted, k: nat): Option<Lifted>
    decreases k
  {
    if k == 0 then Some(s)
    else if s.queue == [] || |s.objects| <= s.queue[0].val then None
    else
      var r := DrainOne(w, s);
      if r.None? then None else Turns(w, r.value, k - 1)
  }

  /**
   * Why data must be spelled the way lookups spell it. The queue and the table hold demangled
   * names, but data is searched for as written: a definition that refers to itself
   * through an alias is never found, so each turn defers it anew and the loop does not end.
   */
  lemma {:induction false} AliasedSelfReferenceNeverEnds(w: World, s: Lifted, x: string, alias: string, off: int, k: nat)
    requires RefersThroughAlias(w, x, alias, off) && OnlyQueued(s, x)
    ensures Turns(w, s, k).Some? && Turns(w, s, k).value.queue != []
    decreases k
  {
    if k > 0 {
      AliasDefersAgain(w, s, x, alias, off);
      assert s.queue != [] && s.queue[0].val < |s.objects|;
      hide RefersThroughAlias, OnlyQueued, LazyAdd, DrainOne;
      AliasedSelfReferenceNeverEnds(w, DrainOne(w, s).value, x, alias, off, k - 1);
    }
  }

  /** The definition of `x` is one reference to `x`, written as `alias`. */
  predicate RefersThroughAlias(w: World, x: string, alias: string, off: int) {
    Resolve(w, x).Data? && w.globals[Resolve(w, x).index].data == [OffsetSym(alias, off)] && Demangle(alias) == x && alias != x
  }

  /** `x` alone is lifted, and it is queued again. */
  predicate OnlyQueued(s: Lifted, x: string) {
    s.table.Keys == {x} && |s.queue| == 1 && s.queue[0].name == x && s.queue[0].val < |s.objects|
  }

  lemma {:induction false} AliasDefersAgain(w: World, s: Lifted, x: string, alias: string, off: int)
    requires RefersThroughAlias(w, x, alias, off) && OnlyQueued(s, x)
    ensures DrainOne(w, s).Some? && OnlyQueued(DrainOne(w, s).value, x)
  {
    var data := w.globals[Resolve(w, x).index].data;
    assert Resolve(w, x).Data? && data == [OffsetSym(alias, off)];
    hide Resolve, Demangle;
    var s0 := s.(queue := [], log := s.log + [x]);
    assert s.queue[1..] == [];
    assert data[..0] == [] && data[0] == OffsetSym(alias, off);
    assert AddPieces(s0, []) == (s0, []);
    assert FindDeferred([], alias).None?;
    assert AddPiece(s0, data[0]).0.queue == [Deferred(x, |s0.objects|)];
    assert AddPieces(s0, data).0 == AddPiece(s0, data[0]).0;
  }
}
