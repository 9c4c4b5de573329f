/**
 * When the draining loop ends, for data spelled in any way. A name spelled as lookups spell it is
 * deferred once; a name spelled otherwise is never found, and is deferred at every lifting of the definition that
 * mentions it. So it is the cycles of such references that decide.
 */
module GlobalAliases {
  import opened Options
  import opened Globals
  import opened GlobalsProofs
  import opened GlobalLookup

  // ---------------------------------------------------------------- references

  function DefinitionOf(w: World, n: string): seq<DataItem> {
    match Resolve(w, n)
    case Data(i) => w.globals[i].data
    case _ => []
  }

  /** The item mentions a symbol by another spelling than its own. */
  predicate IsAlias(item: DataItem) { item.OffsetSym? && Demangle(item.sym) != item.sym }

  /** The definition of `a` refers to `b` by another spelling. */
  predicate Aliases(w: World, a: string, b: string) {
    exists k :: 0 <= k < |DefinitionOf(w, a)| && IsAlias(DefinitionOf(w, a)[k]) && Demangle(DefinitionOf(w, a)[k].sym) == b
  }

  /** The definition of `a` refers to `b` by its own spelling. */
  predicate Spells(w: World, a: string, b: string) {
    exists k :: 0 <= k < |DefinitionOf(w, a)| && DefinitionOf(w, a)[k].OffsetSym? && DefinitionOf(w, a)[k].sym == b
                && Demangle(b) == b
  }

  /** Lifting `a` makes sure that `b` is lifted: by an alias always, otherwise unless it was there before the request. */
  predicate Causes(w: World, before: set<string>, a: string, b: string) {
    Aliases(w, a, b) || (Spells(w, a, b) && b !in before)
  }

  ghost predicate CauseChain(w: World, before: set<string>, p: seq<string>) {
    forall i :: 0 <= i < |p| - 1 ==> Causes(w, before, p[i], p[i + 1])
  }

  ghost predicate Reaches(w: World, before: set<string>, root: string, n: string) {
    exists p: seq<string> :: p != [] && p[0] == root && p[|p| - 1] == n && CauseChain(w, before, p)
  }

  /** A cycle of references, each by another spelling than the symbol's own. */
  ghost predicate AliasCycle(w: World, p: seq<string>) {
    2 <= |p| && p[0] == p[|p| - 1] && forall i :: 0 <= i < |p| - 1 ==> Aliases(w, p[i], p[i + 1])
  }

  ghost predicate ReachesAliasCycle(w: World, before: set<string>, root: string) {
    exists p: seq<string> :: AliasCycle(w, p) && Reaches(w, before, root, p[0])
  }

  ghost predicate ReachesMissing(w: World, before: set<string>, root: string) {
    exists n :: Reaches(w, before, root, n) && Resolve(w, n).Missing?
  }

  /** What the symbols in data stand for is spelled as lookups spell it. */
  ghost predicate SettledNames(w: World) {
    forall i, k :: 0 <= i < |w.globals| && 0 <= k < |w.globals[i].data| && w.globals[i].data[k].OffsetSym? ==>
      Settles(w.globals[i].data[k].sym)
  }

  predicate Settles(sym: string) { Demangle(Demangle(sym)) == Demangle(sym) }

  lemma DefinitionSettles(w: World, n: string)
    requires SettledNames(w)
    ensures forall k :: 0 <= k < |DefinitionOf(w, n)| && DefinitionOf(w, n)[k].OffsetSym? ==> Settles(DefinitionOf(w, n)[k].sym)
  {
  }

  lemma {:induction false} ReachesRoot(w: World, before: set<string>, root: string)
    ensures Reaches(w, before, root, root)
  {
    assert CauseChain(w, before, [root]);
  }

  lemma {:induction false} ReachesNext(w: World, before: set<string>, root: string, a: string, b: string)
    requires Reaches(w, before, root, a) && Causes(w, before, a, b)
    ensures Reaches(w, before, root, b)
  {
    var p: seq<string> :| p != [] && p[0] == root && p[|p| - 1] == a && CauseChain(w, before, p);
    var q := p + [b];
    hide Causes;
    forall i | 0 <= i < |q| - 1 ensures Causes(w, before, q[i], q[i + 1]) {
      if i < |p| - 1 { assert Causes(w, before, p[i], p[i + 1]); }
    }
    assert CauseChain(w, before, q);
  }

  // ---------------------------------------------------------------- what one lifting defers

  /** The names that lifting a definition appends to the queue. */
  function Pushes(table: set<string>, queue: seq<string>, data: seq<DataItem>): seq<string> {
    if data == [] then []
    else
      var front, item := Pushes(table, queue, data[..|data| - 1]), data[|data| - 1];
      if item.OffsetSym? && item.sym !in table && item.sym !in queue + front then front + [Demangle(item.sym)] else front
  }

  predicate Fixed(names: seq<string>) { forall n <- names :: Demangle(n) == n }

  predicate AllSettle(data: seq<DataItem>) {
    forall k :: 0 <= k < |data| && data[k].OffsetSym? ==> Settles(data[k].sym)
  }

  lemma {:induction false} PushesFixed(table: set<string>, queue: seq<string>, data: seq<DataItem>)
    requires AllSettle(data)
    ensures Fixed(Pushes(table, queue, data))
    decreases |data|
  {
    if data != [] {
      var front := data[..|data| - 1];
      assert AllSettle(front) by { assert forall k :: 0 <= k < |front| ==> front[k] == data[k]; }
      PushesFixed(table, queue, front);
      hide Demangle;
    }
  }

  /** What is pushed is mentioned, and not there yet under the spelling it has. */
  lemma {:induction false} PushedIsMentioned(table: set<string>, queue: seq<string>, data: seq<DataItem>, b: string)
    requires b in Pushes(table, queue, data)
    ensures exists k :: 0 <= k < |data| && data[k].OffsetSym? && Demangle(data[k].sym) == b && data[k].sym !in table
    decreases |data|
  {
    var front := data[..|data| - 1];
    hide Demangle;
    if b in Pushes(table, queue, front) {
      PushedIsMentioned(table, queue, front, b);
      var k :| 0 <= k < |front| && front[k].OffsetSym? && Demangle(front[k].sym) == b && front[k].sym !in table;
      assert data[k] == front[k];
    }
  }

  /** Every item is taken care of: an alias is pushed, another name is there or pushed. */
  lemma {:induction false} ItemsServed(table: set<string>, queue: seq<string>, data: seq<DataItem>, k: nat)
    requires AllSettle(data) && Fixed(queue) && (forall n <- table :: Demangle(n) == n)
    requires k < |data| && data[k].OffsetSym?
    ensures IsAlias(data[k]) ==> Demangle(data[k].sym) in Pushes(table, queue, data)
    ensures !IsAlias(data[k]) ==> data[k].sym in table || data[k].sym in queue || data[k].sym in Pushes(table, queue, data)
    decreases |data|
  {
    var front := data[..|data| - 1];
    assert forall j :: 0 <= j < |front| ==> front[j] == data[j];
    PushesFixed(table, queue, front);
    hide Demangle;
    if k < |front| { ItemsServed(table, queue, front, k); }
  }

  function QueueNames(queue: seq<Deferred>): (r: seq<string>)
    ensures |r| == |queue| && forall k :: 0 <= k < |queue| ==> r[k] == queue[k].name
  {
    seq(|queue|, k requires 0 <= k < |queue| => queue[k].name)
  }

  predicate ValsInRange(s: Lifted) { forall d <- s.queue :: d.val < |s.objects| }

  lemma {:induction false} FoundByName(queue: seq<Deferred>, sym: string)
    ensures FindDeferred(queue, sym).Some? <==> sym in QueueNames(queue)
  {
    var d := FindDeferred(queue, sym);
    if d.Some? {
      var i :| 0 <= i < |queue| && queue[i] == Deferred(sym, d.value);
      assert QueueNames(queue)[i] == sym;
    } else {
      forall i | 0 <= i < |queue| ensures QueueNames(queue)[i] != sym { assert queue[i] in queue; }
    }
  }

  lemma {:induction false} AddPiecesPush(s: Lifted, data: seq<DataItem>)
    requires ValsInRange(s)
    ensures var s1 := AddPieces(s, data).0;
            && s1.table == s.table && s1.log == s.log && ValsInRange(s1)
            && QueueNames(s1.queue) == QueueNames(s.queue) + Pushes(s.table.Keys, QueueNames(s.queue), data)
    decreases |data|
  {
    if data != [] {
      var front, item := data[..|data| - 1], data[|data| - 1];
      AddPiecesPush(s, front);
      var s1 := AddPieces(s, front).0;
      AddPiecePush(s1, item);
      hide Demangle, FindDeferred;
    }
  }

  lemma {:induction false} AddPiecePush(s: Lifted, item: DataItem)
    requires ValsInRange(s)
    ensures var s1 := AddPiece(s, item).0;
            && s1.table == s.table && s1.log == s.log && ValsInRange(s1)
            && QueueNames(s1.queue) == QueueNames(s.queue)
               + if item.OffsetSym? && item.sym !in s.table && item.sym !in QueueNames(s.queue) then [Demangle(item.sym)] else []
  {
    hide Demangle;
    if item.OffsetSym? { FoundByName(s.queue, item.sym); }
  }

  // ---------------------------------------------------------------- the loop on names

  /** The names in the table, the queued names, and the names lifted since the request began. */
  datatype Drainage = Drainage(table: set<string>, queue: seq<string>, lifted: set<string>)

  function AfterLifting(w: World, d: Drainage, n: string): Drainage {
    Drainage(d.table + {n}, d.queue + Pushes(d.table, d.queue, DefinitionOf(w, n)), d.lifted + {n})
  }

  /** One turn of the loop, or None where the program gives up. */
  function Turn(w: World, d: Drainage): Option<Drainage>
    requires d.queue != []
  {
    if Resolve(w, d.queue[0]).Missing? then None
    else Some(AfterLifting(w, d.(queue := d.queue[1..]), d.queue[0]))
  }

  function AfterTurns(w: World, d: Drainage, k: nat): Option<Drainage>
    decreases k
  {
    if k == 0 then Some(d)
    else if d.queue == [] || Turn(w, d).None? then None
    else AfterTurns(w, Turn(w, d).value, k - 1)
  }

  lemma {:induction false} TurnsAdd(w: World, d: Drainage, j: nat, k: nat)
    ensures AfterTurns(w, d, j + k) == if AfterTurns(w, d, j).None? then None else AfterTurns(w, AfterTurns(w, d, j).value, k)
    decreases j
  {
    hide Turn;
    if j > 0 && d.queue != [] && Turn(w, d).Some? { TurnsAdd(w, Turn(w, d).value, j - 1, k); }
  }

  /** The names of a state of the lifter. */
  function NamesOf(s: Lifted, lifted: set<string>): Drainage { Drainage(s.table.Keys, QueueNames(s.queue), lifted) }

  lemma {:induction false} LazyAddPushes(w: World, s: Lifted, n: string)
    requires ValsInRange(s)
    ensures LazyAdd(w, s, n).None? <==> Resolve(w, n).Missing?
    ensures LazyAdd(w, s, n).Some? ==>
              var s1 := LazyAdd(w, s, n).value.0;
              && s1.table == s.table && ValsInRange(s1) && |s.objects| <= |s1.objects|
              && QueueNames(s1.queue) == QueueNames(s.queue) + Pushes(s.table.Keys, QueueNames(s.queue), DefinitionOf(w, n))
  {
    var s0 := s.(log := s.log + [n]);
    if Resolve(w, n).Data? {
      AddPiecesPush(s0, w.globals[Resolve(w, n).index].data);
    } else {
      assert QueueNames(s.queue) + [] == QueueNames(s.queue);
    }
    hide Pushes, AddPieces, Resolve, QueueNames;
  }

  lemma {:induction false} DrainOneTurns(w: World, s: Lifted, lifted: set<string>)
    requires ValsInRange(s) && s.queue != []
    ensures var t := Turn(w, NamesOf(s, lifted));
            && (DrainOne(w, s).None? <==> t.None?)
            && (t.Some? ==> ValsInRange(DrainOne(w, s).value) && NamesOf(DrainOne(w, s).value, t.value.lifted) == t.value)
  {
    var s0 := s.(queue := s.queue[1..]);
    assert forall d :: d in s0.queue ==> d in s.queue;
    assert s.queue[0] in s.queue;
    LazyAddPushes(w, s0, s.queue[0].name);
    assert QueueNames(s.queue)[1..] == QueueNames(s0.queue);
    hide LazyAdd, Pushes, Resolve, QueueNames;
    if DrainOne(w, s).Some? {
      var s1 := LazyAdd(w, s0, s.queue[0].name).value.0;
      assert DrainOne(w, s).value.queue == s1.queue && |DrainOne(w, s).value.objects| == |s1.objects|;
      assert DrainOne(w, s).value.table.Keys == s.table.Keys + {s.queue[0].name};
    }
  }

  /** The loop of the lifter and the loop on names go on equally long, with the same names. */
  lemma {:induction false} TurnsTurn(w: World, s: Lifted, lifted: set<string>, k: nat)
    requires ValsInRange(s)
    ensures Turns(w, s, k).None? <==> AfterTurns(w, NamesOf(s, lifted), k).None?
    ensures Turns(w, s, k).Some? ==>
              NamesOf(Turns(w, s, k).value, AfterTurns(w, NamesOf(s, lifted), k).value.lifted) == AfterTurns(w, NamesOf(s, lifted), k).value
    decreases k
  {
    var d := NamesOf(s, lifted);
    if k > 0 && s.queue != [] {
      assert s.queue[0] in s.queue;
      assert s.queue[0].val < |s.objects| && d.queue != [];
      DrainOneTurns(w, s, lifted);
      hide DrainOne, Turn, ValsInRange, QueueNames, NamesOf;
      if DrainOne(w, s).Some? { TurnsTurn(w, DrainOne(w, s).value, Turn(w, d).value.lifted, k - 1); }
    }
  }

  // ---------------------------------------------------------------- what every turn keeps

  /** Before the request nothing is queued, and what is in the table refers by proper spellings only to the table. */
  ghost predicate Idle(w: World, before: set<string>) {
    forall n <- before :: Demangle(n) == n && forall b :: Spells(w, n, b) ==> b in before
  }

  /** Everything that a lifted definition causes to be lifted is lifted or queued. */
  ghost predicate Closed(w: World, before: set<string>, d: Drainage) {
    forall n, b :: n in d.lifted && Causes(w, before, n, b) ==> b in d.lifted || b in d.queue
  }

  ghost predicate Sound(w: World, before: set<string>, root: string, d: Drainage) {
    && d.table == before + d.lifted && Fixed(d.queue) && (forall n <- d.table :: Demangle(n) == n)
    && (forall n :: n in d.lifted || n in d.queue ==> Reaches(w, before, root, n))
    && Closed(w, before, d)
    && (forall n <- d.lifted :: !Resolve(w, n).Missing?)
  }

  /** What lifting n causes is in the table by itself, or queued. */
  lemma {:induction false} CausedIsQueued(w: World, before: set<string>, d: Drainage, n: string, b: string)
    requires SettledNames(w) && d.table == before + d.lifted && Fixed(d.queue) && (forall m <- d.table :: Demangle(m) == m)
    requires Causes(w, before, n, b)
    ensures b in d.lifted || b in d.queue + Pushes(d.table, d.queue, DefinitionOf(w, n))
  {
    var data := DefinitionOf(w, n);
    DefinitionSettles(w, n);
    hide Demangle, DefinitionOf, Pushes, Resolve;
    if Aliases(w, n, b) {
      var k :| 0 <= k < |data| && IsAlias(data[k]) && Demangle(data[k].sym) == b;
      ItemsServed(d.table, d.queue, data, k);
    } else {
      var k :| 0 <= k < |data| && data[k].OffsetSym? && data[k].sym == b && Demangle(b) == b;
      ItemsServed(d.table, d.queue, data, k);
    }
  }

  /** What lifting n pushes, n causes. */
  lemma {:induction false} PushedIsCaused(w: World, before: set<string>, table: set<string>, queue: seq<string>,
                                          n: string, b: string)
    requires before <= table && b in Pushes(table, queue, DefinitionOf(w, n))
    ensures Causes(w, before, n, b)
  {
    var data := DefinitionOf(w, n);
    PushedIsMentioned(table, queue, data, b);
    hide Demangle, DefinitionOf, Pushes, Resolve;
    var k :| 0 <= k < |data| && data[k].OffsetSym? && Demangle(data[k].sym) == b && data[k].sym !in table;
    if IsAlias(data[k]) { assert Aliases(w, n, b); } else { assert Spells(w, n, b); }
  }

  lemma {:induction false} LiftingKeepsClosed(w: World, before: set<string>, d: Drainage, n: string)
    requires SettledNames(w) && d.table == before + d.lifted && Fixed(d.queue) && (forall m <- d.table :: Demangle(m) == m)
    requires Closed(w, before, d.(queue := [n] + d.queue))
    ensures Closed(w, before, AfterLifting(w, d, n))
  {
    var e := AfterLifting(w, d, n);
    hide Causes, Pushes, Demangle, DefinitionOf, SettledNames;
    forall m, b | m in e.lifted && Causes(w, before, m, b) ensures b in e.lifted || b in e.queue {
      if m == n { CausedIsQueued(w, before, d, n, b); }
    }
  }

  /** Lifting a name that the request reaches keeps everything. */
  lemma {:induction false} LiftingKeeps(w: World, before: set<string>, root: string, d: Drainage, n: string)
    requires SettledNames(w) && d.table == before + d.lifted && Fixed(d.queue) && (forall m <- d.table :: Demangle(m) == m)
    requires forall m :: m in d.lifted || m in d.queue ==> Reaches(w, before, root, m)
    requires Closed(w, before, d.(queue := [n] + d.queue)) && (forall m <- d.lifted :: !Resolve(w, m).Missing?)
    requires Demangle(n) == n && Reaches(w, before, root, n) && !Resolve(w, n).Missing?
    ensures Sound(w, before, root, AfterLifting(w, d, n))
  {
    var e := AfterLifting(w, d, n);
    LiftingKeepsClosed(w, before, d, n);
    DefinitionSettles(w, n);
    PushesFixed(d.table, d.queue, DefinitionOf(w, n));
    hide Demangle, DefinitionOf, Pushes, Resolve, Reaches, Closed, SettledNames, Causes;
    forall m | m in e.lifted || m in e.queue ensures Reaches(w, before, root, m) {
      if m in Pushes(d.table, d.queue, DefinitionOf(w, n)) {
        PushedIsCaused(w, before, d.table, d.queue, n, m);
        ReachesNext(w, before, root, n, m);
      }
    }
  }

  /** The request's first lifting. */
  function Requested(w: World, before: set<string>, root: string): Drainage {
    AfterLifting(w, Drainage(before, [], {}), root)
  }

  lemma {:induction false} RequestedIsSound(w: World, before: set<string>, root: string)
    requires SettledNames(w) && Idle(w, before) && Demangle(root) == root && !Resolve(w, root).Missing?
    ensures Sound(w, before, root, Requested(w, before, root)) && root in Requested(w, before, root).lifted
  {
    ReachesRoot(w, before, root);
    hide Reaches, Resolve, Spells, Causes;
    LiftingKeeps(w, before, root, Drainage(before, [], {}), root);
    hide Sound;
  }

  lemma {:induction false} TurnKeeps(w: World, before: set<string>, root: string, d: Drainage)
    requires SettledNames(w) && Sound(w, before, root, d) && d.queue != [] && Turn(w, d).Some?
    ensures Sound(w, before, root, Turn(w, d).value)
  {
    var n, rest := d.queue[0], d.(queue := d.queue[1..]);
    assert [n] + rest.queue == d.queue && n in d.queue;
    hide Demangle, Reaches, Causes, Resolve, Closed, SettledNames;
    assert rest.(queue := [n] + rest.queue) == d;
    LiftingKeeps(w, before, root, rest, n);
    hide Sound;
  }

  lemma {:induction false} OneTurn(w: World, d: Drainage, k: nat)
    requires 0 < k
    ensures AfterTurns(w, d, k).Some? ==> d.queue != [] && Turn(w, d).Some?
    ensures d.queue != [] && Turn(w, d).Some? ==>
              && AfterTurns(w, d, k) == AfterTurns(w, Turn(w, d).value, k - 1)
              && Turn(w, d).value.lifted == d.lifted + {d.queue[0]}
  {
    hide Pushes, DefinitionOf, Resolve;
  }

  lemma {:induction false} TurnsKeep(w: World, before: set<string>, root: string, d: Drainage, k: nat)
    requires SettledNames(w) && Sound(w, before, root, d) && AfterTurns(w, d, k).Some?
    ensures Sound(w, before, root, AfterTurns(w, d, k).value) && d.lifted <= AfterTurns(w, d, k).value.lifted
    decreases k
  {
    hide AfterTurns, Turn, Sound, SettledNames;
    if k == 0 {
      NoTurns(w, d);
    } else {
      OneTurn(w, d, k);
      TurnKeeps(w, before, root, d);
      TurnsKeep(w, before, root, Turn(w, d).value, k - 1);
    }
  }

  // ---------------------------------------------------------------- a cycle keeps the loop going

  /** As soon as one name of the cycle has been lifted, one is queued. */
  predicate CycleHeld(p: seq<string>, d: Drainage) {
    (exists c :: c in p && c in d.lifted) ==> exists c :: c in p && c in d.queue
  }

  lemma {:induction false} CycleGoesOn(w: World, p: seq<string>, c: string)
    requires AliasCycle(w, p) && c in p
    ensures exists b :: b in p && Aliases(w, c, b)
  {
    hide Aliases;
    var i :| 0 <= i < |p| && p[i] == c;
    var j := if i < |p| - 1 then i else 0;
    assert p[j] == c && Aliases(w, p[j], p[j + 1]) && p[j + 1] in p;
  }

  lemma {:induction false} TurnHoldsCycle(w: World, before: set<string>, root: string, p: seq<string>, d: Drainage)
    requires SettledNames(w) && Sound(w, before, root, d) && AliasCycle(w, p) && CycleHeld(p, d)
    requires d.queue != [] && Turn(w, d).Some?
    ensures CycleHeld(p, Turn(w, d).value)
  {
    var n, e := d.queue[0], Turn(w, d).value;
    assert d.queue == [n] + d.queue[1..];
    LiftHoldsCycle(w, before, p, d.(queue := d.queue[1..]), n);
  }

  lemma {:induction false} LiftHoldsCycle(w: World, before: set<string>, p: seq<string>, d: Drainage, n: string)
    requires SettledNames(w) && d.table == before + d.lifted && Fixed(d.queue) && (forall m <- d.table :: Demangle(m) == m)
    requires AliasCycle(w, p) && CycleHeld(p, d.(queue := [n] + d.queue))
    ensures CycleHeld(p, AfterLifting(w, d, n))
  {
    hide Demangle, Pushes, DefinitionOf, Aliases, SettledNames, AliasCycle;
    if n in p {
      CycleGoesOn(w, p, n);
      var b :| b in p && Aliases(w, n, b);
      AliasIsPushed(w, d.table, d.queue, n, b);
      assert b in AfterLifting(w, d, n).queue;
    } else if c :| c in p && c in [n] + d.queue {
      assert c in AfterLifting(w, d, n).queue;
    }
  }

  lemma {:induction false} AliasIsPushed(w: World, table: set<string>, queue: seq<string>, n: string, b: string)
    requires SettledNames(w) && Fixed(queue) && (forall m <- table :: Demangle(m) == m) && Aliases(w, n, b)
    ensures b in Pushes(table, queue, DefinitionOf(w, n))
  {
    var data := DefinitionOf(w, n);
    DefinitionSettles(w, n);
    hide Demangle, DefinitionOf, Pushes, Resolve;
    var k :| 0 <= k < |data| && IsAlias(data[k]) && Demangle(data[k].sym) == b;
    ItemsServed(table, queue, data, k);
  }

  /** With a cycle reached and every symbol resolved, the loop goes on after any number of turns. */
  lemma {:induction false} CycleNeverEnds(w: World, before: set<string>, root: string, p: seq<string>, d: Drainage, k: nat)
    requires SettledNames(w) && Sound(w, before, root, d) && root in d.lifted && !ReachesMissing(w, before, root)
    requires AliasCycle(w, p) && Reaches(w, before, root, p[0]) && CycleHeld(p, d)
    ensures AfterTurns(w, d, k).Some?
    decreases k
  {
    hide Sound, CycleHeld, Turn, AfterTurns, Reaches, ReachesMissing, SettledNames;
    if k == 0 {
      NoTurns(w, d);
    } else {
      QueueNotEmpty(w, before, root, p, d);
      QueueResolves(w, before, root, d);
      OneTurn(w, d, k);
      TurnKeeps(w, before, root, d);
      TurnHoldsCycle(w, before, root, p, d);
      hide AliasCycle;
      CycleNeverEnds(w, before, root, p, Turn(w, d).value, k - 1);
    }
  }

  lemma {:induction false} QueueResolves(w: World, before: set<string>, root: string, d: Drainage)
    requires Sound(w, before, root, d) && !ReachesMissing(w, before, root) && d.queue != []
    ensures Turn(w, d).Some?
  {
    assert d.queue[0] in d.queue;
    assert Reaches(w, before, root, d.queue[0]);
    hide Reaches, Resolve, Causes, Closed;
  }

  lemma {:induction false} QueueNotEmpty(w: World, before: set<string>, root: string, p: seq<string>, d: Drainage)
    requires Sound(w, before, root, d) && root in d.lifted && p != [] && Reaches(w, before, root, p[0]) && CycleHeld(p, d)
    ensures d.queue != []
  {
    if d.queue == [] { DrainedHoldsReached(w, before, root, d, p[0]); }
  }

  /** With nothing queued, everything the request reaches has been lifted. */
  lemma {:induction false} DrainedHoldsReached(w: World, before: set<string>, root: string, d: Drainage, n: string)
    requires Closed(w, before, d) && d.queue == [] && root in d.lifted && Reaches(w, before, root, n)
    ensures n in d.lifted
  {
    var p: seq<string> :| p != [] && p[0] == root && p[|p| - 1] == n && CauseChain(w, before, p);
    ChainLifted(w, before, d, p);
  }

  lemma {:induction false} ChainLifted(w: World, before: set<string>, d: Drainage, p: seq<string>)
    requires Closed(w, before, d) && d.queue == [] && p != [] && p[0] in d.lifted && CauseChain(w, before, p)
    ensures p[|p| - 1] in d.lifted
    decreases |p|
  {
    hide Causes;
    if |p| > 1 {
      assert Causes(w, before, p[0], p[0 + 1]);
      var q := p[1..];
      forall i | 0 <= i < |q| - 1 ensures Causes(w, before, q[i], q[i + 1]) { assert Causes(w, before, p[i + 1], p[i + 1 + 1]); }
      ChainLifted(w, before, d, q);
    }
  }

  // ---------------------------------------------------------------- a missing symbol ends the loop

  /** What is queued is lifted, or the loop has ended. */
  lemma {:induction false} QueueServed(w: World, d: Drainage, pos: nat)
    requires pos < |d.queue|
    ensures AfterTurns(w, d, pos + 1).Some? ==> d.queue[pos] in AfterTurns(w, d, pos + 1).value.lifted
    decreases pos
  {
    if Turn(w, d).Some? {
      var e := Turn(w, d).value;
      assert AfterTurns(w, d, pos + 1) == AfterTurns(w, e, pos);
      if pos > 0 {
        assert e.queue[pos - 1] == d.queue[pos];
        hide Turn;
        QueueServed(w, e, pos - 1);
      }
    }
  }

  /** Along a chain that starts at a lifted name everything is lifted, or the loop ends. */
  lemma {:induction false} ChainServed(w: World, before: set<string>, root: string, d: Drainage,
                                       p: seq<string>) returns (k: nat)
    requires SettledNames(w) && Sound(w, before, root, d) && p != [] && p[0] in d.lifted && CauseChain(w, before, p)
    ensures AfterTurns(w, d, k).Some? ==> p[|p| - 1] in AfterTurns(w, d, k).value.lifted
    decreases |p|
  {
    hide Causes, Reaches, SettledNames, Turn, AfterTurns;
    if |p| == 1 {
      k := 0;
      NoTurns(w, d);
    } else {
      assert Causes(w, before, p[0], p[0 + 1]);
      var q := p[1..];
      forall i | 0 <= i < |q| - 1 ensures Causes(w, before, q[i], q[i + 1]) { assert Causes(w, before, p[i + 1], p[i + 1 + 1]); }
      var j := NextServed(w, before, root, d, p[0], p[1]);
      var e := AfterTurns(w, d, j);
      if e.Some? {
        TurnsKeep(w, before, root, d, j);
        hide Sound, CauseChain;
        var m := ChainServed(w, before, root, e.value, q);
        TurnsAdd(w, d, j, m);
        k := j + m;
      } else {
        k := j;
      }
    }
  }

  lemma {:induction false} NoTurns(w: World, d: Drainage)
    ensures AfterTurns(w, d, 0) == Some(d)
  {
  }

  lemma {:induction false} NextServed(w: World, before: set<string>, root: string, d: Drainage, a: string,
                                      b: string) returns (k: nat)
    requires Sound(w, before, root, d) && a in d.lifted && Causes(w, before, a, b)
    ensures AfterTurns(w, d, k).Some? ==> b in AfterTurns(w, d, k).value.lifted
  {
    hide Causes, Reaches, Turn, AfterTurns;
    if b in d.lifted {
      k := 0;
      NoTurns(w, d);
    } else {
      assert b in d.queue;
      var pos :| 0 <= pos < |d.queue| && d.queue[pos] == b;
      QueueServed(w, d, pos);
      k := pos + 1;
    }
  }

  /** If the request reaches a symbol that does not resolve, the loop ends. */
  lemma {:induction false} MissingEnds(w: World, before: set<string>, root: string, d: Drainage) returns (k: nat)
    requires SettledNames(w) && Sound(w, before, root, d) && root in d.lifted && ReachesMissing(w, before, root)
    ensures AfterTurns(w, d, k).None?
  {
    var n :| Reaches(w, before, root, n) && Resolve(w, n).Missing?;
    var p: seq<string> :| p != [] && p[0] == root && p[|p| - 1] == n && CauseChain(w, before, p);
    hide Reaches, SettledNames, CauseChain, Resolve;
    k := ChainServed(w, before, root, d, p);
    if AfterTurns(w, d, k).Some? { TurnsKeep(w, before, root, d, k); }
  }

  // ---------------------------------------------------------------- without a cycle the loop ends

  /** The names that the request can come to. */
  function Universe(w: World, root: string): set<string> {
    {root} + set sym <- Mentioned(w) :: Demangle(sym)
  }

  lemma {:induction false} MentionedInDefinition(w: World, n: string, k: nat)
    requires k < |DefinitionOf(w, n)| && DefinitionOf(w, n)[k].OffsetSym?
    ensures DefinitionOf(w, n)[k].sym in Mentioned(w)
  {
    hide Demangle;
    var i := Resolve(w, n).index;
    assert w.globals[i].data[k].OffsetSym?;
    hide Resolve;
  }

  lemma {:induction false} CausedInUniverse(w: World, before: set<string>, root: string, a: string, b: string)
    requires Causes(w, before, a, b)
    ensures b in Universe(w, root)
  {
    var data := DefinitionOf(w, a);
    hide Demangle, DefinitionOf, Mentioned;
    if Aliases(w, a, b) {
      var k :| 0 <= k < |data| && IsAlias(data[k]) && Demangle(data[k].sym) == b;
      MentionedInDefinition(w, a, k);
    } else {
      var k :| 0 <= k < |data| && data[k].OffsetSym? && data[k].sym == b && Demangle(b) == b;
      MentionedInDefinition(w, a, k);
    }
  }

  lemma {:induction false} ReachedInUniverse(w: World, before: set<string>, root: string, n: string)
    requires Reaches(w, before, root, n)
    ensures n in Universe(w, root)
  {
    var p: seq<string> :| p != [] && p[0] == root && p[|p| - 1] == n && CauseChain(w, before, p);
    hide Causes;
    if |p| > 1 {
      assert Causes(w, before, p[|p| - 2], p[|p| - 2 + 1]);
      CausedInUniverse(w, before, root, p[|p| - 2], n);
    } else {
      hide Mentioned, Demangle;
    }
  }

  ghost predicate AliasPath(w: World, p: seq<string>) {
    p != [] && forall i :: 0 <= i < |p| - 1 ==> Aliases(w, p[i], p[i + 1])
  }

  /** From n, `d` alias references can be followed one after the other. */
  ghost predicate HasPath(w: World, n: string, d: nat) {
    exists p: seq<string> :: |p| == d + 1 && AliasPath(w, p) && p[0] == n
  }

  lemma {:induction false} LongerPath(w: World, n: string, t: string, d: nat)
    requires Aliases(w, n, t) && HasPath(w, t, d)
    ensures HasPath(w, n, d + 1)
  {
    var p: seq<string> :| |p| == d + 1 && AliasPath(w, p) && p[0] == t;
    var q := [n] + p;
    hide Aliases;
    forall i | 0 <= i < |q| - 1 ensures Aliases(w, q[i], q[i + 1]) {
      if i > 0 { assert Aliases(w, p[i - 1], p[i - 1 + 1]); }
    }
    assert |q| == d + 1 + 1 && AliasPath(w, q) && q[0] == n;
  }

  /** More names than a set holds: one of them comes twice. */
  lemma {:induction false} OneComesTwice(p: seq<string>, u: set<string>) returns (i: nat, j: nat)
    requires (forall x <- p :: x in u) && |u| < |p|
    ensures i < j < |p| && p[i] == p[j]
    decreases |p|
  {
    var last := p[|p| - 1];
    if k :| 0 <= k < |p| - 1 && p[k] == last {
      i, j := k, |p| - 1;
    } else {
      var front := p[..|p| - 1];
      assert forall x <- front :: x in u - {last};
      i, j := OneComesTwice(front, u - {last});
    }
  }

  lemma {:induction false} PathReached(w: World, before: set<string>, root: string, p: seq<string>, k: nat)
    requires AliasPath(w, p) && Reaches(w, before, root, p[0]) && k < |p|
    ensures Reaches(w, before, root, p[k])
    decreases k
  {
    hide Reaches, Aliases;
    if k > 0 {
      PathReached(w, before, root, p, k - 1);
      assert Aliases(w, p[k - 1], p[k - 1 + 1]);
      ReachesNext(w, before, root, p[k - 1], p[k]);
    }
  }

  /** A path of references as long as there are names runs into a cycle. */
  lemma {:induction false} LongPathHasCycle(w: World, before: set<string>, root: string, n: string)
    requires Reaches(w, before, root, n) && HasPath(w, n, |Universe(w, root)|)
    ensures ReachesAliasCycle(w, before, root)
  {
    var u := Universe(w, root);
    var p: seq<string> :| |p| == |u| + 1 && AliasPath(w, p) && p[0] == n;
    hide Reaches, Aliases, Universe;
    forall x | x in p ensures x in u {
      var k :| 0 <= k < |p| && p[k] == x;
      PathReached(w, before, root, p, k);
      ReachedInUniverse(w, before, root, x);
    }
    var i, j := OneComesTwice(p, u);
    PathReached(w, before, root, p, i);
    SegmentIsCycle(w, p, i, j);
    assert p[i..j + 1][0] == p[i];
  }

  lemma {:induction false} SegmentIsCycle(w: World, p: seq<string>, i: nat, j: nat)
    requires AliasPath(w, p) && i < j < |p| && p[i] == p[j]
    ensures AliasCycle(w, p[i..j + 1])
  {
    var q := p[i..j + 1];
    hide Aliases;
    forall m | 0 <= m < |q| - 1 ensures Aliases(w, q[m], q[m + 1]) { assert Aliases(w, p[i + m], p[i + m + 1]); }
  }

  /** The names that a definition refers to by another spelling, as often as it does. */
  function AliasTargets(data: seq<DataItem>): seq<string> {
    if data == [] then []
    else
      var front, item := AliasTargets(data[..|data| - 1]), data[|data| - 1];
      if IsAlias(item) then front + [Demangle(item.sym)] else front
  }

  lemma {:induction false} TargetIsAliased(data: seq<DataItem>, b: string)
    requires b in AliasTargets(data)
    ensures exists k :: 0 <= k < |data| && IsAlias(data[k]) && Demangle(data[k].sym) == b
    decreases |data|
  {
    var front := data[..|data| - 1];
    hide Demangle;
    if b in AliasTargets(front) {
      TargetIsAliased(front, b);
      var k :| 0 <= k < |front| && IsAlias(front[k]) && Demangle(front[k].sym) == b;
      assert data[k] == front[k];
    }
  }

  /** Where all other names are known, lifting pushes what is referred to by another spelling. */
  lemma {:induction false} OnlyAliasesPushed(table: set<string>, queue: seq<string>, data: seq<DataItem>)
    requires AllSettle(data) && Fixed(queue) && (forall n <- table :: Demangle(n) == n)
    requires forall k :: 0 <= k < |data| && data[k].OffsetSym? && !IsAlias(data[k]) ==> data[k].sym in table || data[k].sym in queue
    ensures Pushes(table, queue, data) == AliasTargets(data)
    decreases |data|
  {
    if data != [] {
      var front := data[..|data| - 1];
      assert forall j :: 0 <= j < |front| ==> front[j] == data[j];
      PushesFixed(table, queue, front);
      hide Demangle;
      OnlyAliasesPushed(table, queue, front);
      assert data[|data| - 1] == data[|data| - 1];
    }
  }

  /** A name lifted already pushes only what it refers to by another spelling. */
  lemma {:induction false} AgainPushesAliases(w: World, before: set<string>, root: string, d: Drainage)
    requires SettledNames(w) && Sound(w, before, root, d) && d.queue != [] && d.queue[0] in d.lifted
    ensures Pushes(d.table, d.queue[1..], DefinitionOf(w, d.queue[0])) == AliasTargets(DefinitionOf(w, d.queue[0]))
  {
    var n, rest := d.queue[0], d.queue[1..];
    var data := DefinitionOf(w, n);
    assert d.queue == [n] + rest;
    DefinitionSettles(w, n);
    hide Demangle, DefinitionOf, Resolve, Reaches, SettledNames;
    forall k | 0 <= k < |data| && data[k].OffsetSym? && !IsAlias(data[k]) ensures data[k].sym in d.table || data[k].sym in rest {
      assert Spells(w, n, data[k].sym);
      assert data[k].sym !in before ==> Causes(w, before, n, data[k].sym);
    }
    hide Sound;
    OnlyAliasesPushed(d.table, rest, data);
  }

  /** How many liftings the names cause through other spellings, followed `d` deep. */
  function Weight(w: World, names: seq<string>, d: nat): nat
    decreases d, |names|
  {
    if names == [] then 0
    else
      Weight(w, names[1..], d) + 1 + if d == 0 then 0 else Weight(w, AliasTargets(DefinitionOf(w, names[0])), d - 1)
  }

  lemma {:induction false} WeightAdds(w: World, a: seq<string>, b: seq<string>, d: nat)
    ensures Weight(w, a + b, d) == Weight(w, a, d) + Weight(w, b, d)
    decreases |a|
  {
    hide AliasTargets, DefinitionOf;
    if a == [] {
      assert a + b == b;
    } else {
      assert (a + b)[0] == a[0] && (a + b)[1..] == a[1..] + b;
      WeightAdds(w, a[1..], b, d);
    }
  }

  /** Where no path is `d` long, looking deeper adds nothing. */
  lemma {:induction false} WeightSettles(w: World, names: seq<string>, d: nat)
    requires 0 < d && forall n <- names :: !HasPath(w, n, d)
    ensures Weight(w, names, d) == Weight(w, names, d - 1)
    decreases d, |names|
  {
    hide AliasTargets, DefinitionOf, HasPath;
    if names != [] {
      WeightSettles(w, names[1..], d);
      var targets := AliasTargets(DefinitionOf(w, names[0]));
      forall t | t in targets ensures !HasPath(w, t, d - 1) {
        TargetIsAliased(DefinitionOf(w, names[0]), t);
        assert Aliases(w, names[0], t);
        if HasPath(w, t, d - 1) { LongerPath(w, names[0], t, d - 1); }
      }
      if d > 1 {
        WeightSettles(w, targets, d - 1);
      } else if targets != [] {
        assert targets[0] in targets;
        NoEdges(w, targets[0]);
      }
    }
  }

  lemma {:induction false} NoEdges(w: World, n: string)
    ensures HasPath(w, n, 0)
  {
    assert |[n]| == 0 + 1 && AliasPath(w, [n]) && [n][0] == n;
  }

  lemma {:induction false} TargetsEndSoon(w: World, before: set<string>, root: string, n: string)
    requires Reaches(w, before, root, n) && !ReachesAliasCycle(w, before, root)
    ensures forall t <- AliasTargets(DefinitionOf(w, n)) :: !HasPath(w, t, |Universe(w, root)|)
  {
    hide AliasTargets, DefinitionOf, Reaches, ReachesAliasCycle, Universe, HasPath;
    forall t | t in AliasTargets(DefinitionOf(w, n)) ensures !HasPath(w, t, |Universe(w, root)|) {
      TargetIsAliased(DefinitionOf(w, n), t);
      assert Aliases(w, n, t);
      ReachesNext(w, before, root, n, t);
      if HasPath(w, t, |Universe(w, root)|) { LongPathHasCycle(w, before, root, t); }
    }
  }

  lemma {:induction false} PopLightens(w: World, queue: seq<string>, size: nat)
    requires queue != [] && 0 < size
    requires forall t <- AliasTargets(DefinitionOf(w, queue[0])) :: !HasPath(w, t, size)
    ensures Weight(w, queue[1..] + AliasTargets(DefinitionOf(w, queue[0])), size) == Weight(w, queue, size) - 1
  {
    var targets := AliasTargets(DefinitionOf(w, queue[0]));
    hide AliasTargets, DefinitionOf, HasPath;
    WeightSettles(w, targets, size);
    WeightAdds(w, queue[1..], targets, size);
  }

  lemma {:induction false} QueueAfterTurn(w: World, before: set<string>, root: string, d: Drainage)
    requires SettledNames(w) && Sound(w, before, root, d) && d.queue != [] && Turn(w, d).Some? && d.queue[0] in d.lifted
    ensures Turn(w, d).value.queue == d.queue[1..] + AliasTargets(DefinitionOf(w, d.queue[0])) && Turn(w, d).value.lifted == d.lifted
    ensures Reaches(w, before, root, d.queue[0])
  {
    AgainPushesAliases(w, before, root, d);
    assert Reaches(w, before, root, d.queue[0]);
    hide Sound, Pushes, SettledNames, Resolve, AliasTargets, DefinitionOf, Reaches;
  }

  /** Lifting a name again makes the queue lighter. */
  lemma {:induction false} TurnLightens(w: World, before: set<string>, root: string, d: Drainage)
    requires SettledNames(w) && Sound(w, before, root, d) && d.queue != [] && Turn(w, d).Some?
    requires !ReachesAliasCycle(w, before, root) && d.queue[0] in d.lifted
    ensures var u := Universe(w, root); Weight(w, Turn(w, d).value.queue, |u|) < Weight(w, d.queue, |u|)
    ensures Turn(w, d).value.lifted == d.lifted
  {
    hide Sound, Turn, SettledNames, Universe, Reaches, ReachesAliasCycle, Weight, HasPath, AliasTargets, DefinitionOf;
    QueueAfterTurn(w, before, root, d);
    TargetsEndSoon(w, before, root, d.queue[0]);
    UniverseNotEmpty(w, root);
    PopLightens(w, d.queue, |Universe(w, root)|);
  }

  lemma {:induction false} UniverseNotEmpty(w: World, root: string)
    ensures 0 < |Universe(w, root)|
  {
    hide Mentioned, Demangle;
    assert root in Universe(w, root);
  }

  /** Without a cycle, and with every symbol resolved, the queue runs empty. */
  lemma {:induction false} QueueRunsEmpty(w: World, before: set<string>, root: string, d: Drainage) returns (k: nat)
    requires SettledNames(w) && Sound(w, before, root, d)
    requires !ReachesMissing(w, before, root) && !ReachesAliasCycle(w, before, root)
    ensures AfterTurns(w, d, k).Some? && AfterTurns(w, d, k).value.queue == []
    decreases |Universe(w, root) - d.lifted|, Weight(w, d.queue, |Universe(w, root)|)
  {
    hide Sound, Turn, AfterTurns, SettledNames, ReachesMissing, ReachesAliasCycle, Universe, Weight;
    var u := Universe(w, root);
    NoTurns(w, d);
    k := 0;
    if d.queue != [] {
      QueueResolves(w, before, root, d);
      OneTurn(w, d, 1);
      var e := Turn(w, d).value;
      TurnKeeps(w, before, root, d);
      if d.queue[0] in d.lifted {
        TurnLightens(w, before, root, d);
      } else {
        QueueInUniverse(w, before, root, d);
        assert u - e.lifted == (u - d.lifted) - {d.queue[0]};
      }
      var j := QueueRunsEmpty(w, before, root, e);
      OneTurn(w, d, j + 1);
      k := j + 1;
    }
  }

  lemma {:induction false} QueueInUniverse(w: World, before: set<string>, root: string, d: Drainage)
    requires Sound(w, before, root, d) && d.queue != []
    ensures d.queue[0] in Universe(w, root)
  {
    assert d.queue[0] in d.queue;
    assert Reaches(w, before, root, d.queue[0]);
    hide Sound, Reaches;
    ReachedInUniverse(w, before, root, d.queue[0]);
  }

  // ---------------------------------------------------------------- a request

  lemma {:induction false} DrainedMeansAll(w: World, before: set<string>, root: string, d: Drainage)
    requires Sound(w, before, root, d) && root in d.lifted && d.queue == []
    ensures !ReachesMissing(w, before, root)
  {
    hide Reaches, Resolve, Causes, Closed;
    if n :| Reaches(w, before, root, n) && Resolve(w, n).Missing? {
      DrainedHoldsReached(w, before, root, d, n);
    }
  }

  ghost predicate NamesDrain(w: World, d: Drainage) {
    exists k: nat :: AfterTurns(w, d, k).Some? && AfterTurns(w, d, k).value.queue == []
  }

  ghost predicate NamesStop(w: World, d: Drainage) { exists k: nat :: AfterTurns(w, d, k).None? }

  lemma {:induction false} EmptyQueueStops(w: World, d: Drainage, k: nat)
    requires AfterTurns(w, d, k).Some? && AfterTurns(w, d, k).value.queue == []
    ensures AfterTurns(w, d, k + 1).None?
  {
    TurnsAdd(w, d, k, 1);
    hide Turn;
    assert AfterTurns(w, AfterTurns(w, d, k).value, 1).None?;
  }

  lemma {:induction false} RequestHoldsCycle(w: World, before: set<string>, root: string, p: seq<string>)
    requires SettledNames(w) && Idle(w, before) && AliasCycle(w, p)
    ensures CycleHeld(p, Requested(w, before, root))
  {
    hide AliasCycle, SettledNames, Spells, Pushes;
    LiftHoldsCycle(w, before, p, Drainage(before, [], {}), root);
  }

  lemma {:induction false} RequestedGoesOn(w: World, before: set<string>, root: string, k: nat)
    requires SettledNames(w) && Idle(w, before) && Demangle(root) == root && !Resolve(w, root).Missing?
    requires ReachesAliasCycle(w, before, root) && !ReachesMissing(w, before, root)
    ensures AfterTurns(w, Requested(w, before, root), k).Some?
  {
    var p: seq<string> :| AliasCycle(w, p) && Reaches(w, before, root, p[0]);
    RequestedIsSound(w, before, root);
    RequestHoldsCycle(w, before, root, p);
    hide AliasCycle, SettledNames, Idle, Sound, CycleHeld, Reaches, ReachesMissing, Resolve, AfterTurns, Requested, Demangle;
    CycleNeverEnds(w, before, root, p, Requested(w, before, root), k);
  }

  /** The queue runs empty exactly if the request reaches neither a cycle nor a symbol that does not resolve. */
  lemma {:induction false} NamesDrainExactly(w: World, before: set<string>, root: string)
    requires SettledNames(w) && Idle(w, before) && Demangle(root) == root && !Resolve(w, root).Missing?
    ensures NamesDrain(w, Requested(w, before, root)) <==> !ReachesAliasCycle(w, before, root) && !ReachesMissing(w, before, root)
  {
    var d := Requested(w, before, root);
    RequestedIsSound(w, before, root);
    if !ReachesAliasCycle(w, before, root) && !ReachesMissing(w, before, root) {
      hide SettledNames, Idle, Sound, Reaches, Resolve, AfterTurns, Requested, Demangle, ReachesAliasCycle, ReachesMissing;
      var k := QueueRunsEmpty(w, before, root, d);
    } else {
      hide SettledNames, Idle, Sound, Reaches, Resolve, AfterTurns, Requested, Demangle, ReachesAliasCycle, ReachesMissing;
      if k: nat :| AfterTurns(w, d, k).Some? && AfterTurns(w, d, k).value.queue == [] {
        TurnsKeep(w, before, root, d, k);
        DrainedMeansAll(w, before, root, AfterTurns(w, d, k).value);
        EmptyQueueStops(w, d, k);
        RequestedGoesOn(w, before, root, k + 1);
      }
    }
  }

  /** The loop goes on for ever exactly if the request reaches a cycle and every symbol that it reaches resolves. */
  lemma {:induction false} NamesEndExactly(w: World, before: set<string>, root: string)
    requires SettledNames(w) && Idle(w, before) && Demangle(root) == root && !Resolve(w, root).Missing?
    ensures NamesStop(w, Requested(w, before, root)) <==> !ReachesAliasCycle(w, before, root) || ReachesMissing(w, before, root)
  {
    var d := Requested(w, before, root);
    RequestedIsSound(w, before, root);
    hide SettledNames, Idle, Sound, Reaches, Resolve, AfterTurns, Requested, Demangle, ReachesAliasCycle, ReachesMissing;
    if ReachesMissing(w, before, root) {
      var k := MissingEnds(w, before, root, d);
    } else if ReachesAliasCycle(w, before, root) {
      forall k: nat ensures AfterTurns(w, d, k).Some? { RequestedGoesOn(w, before, root, k); }
    } else {
      var k := QueueRunsEmpty(w, before, root, d);
      EmptyQueueStops(w, d, k);
    }
  }

  /** The state in which the loop of a request starts. */
  function LoopStart(w: World, s0: Lifted, root: string): Lifted
    requires LazyAdd(w, s0, root).Some?
  {
    Recorded(LazyAdd(w, s0, root).value.0, root, LazyAdd(w, s0, root).value.1)
  }

  /** The loop runs until nothing is queued. */
  ghost predicate Drains(w: World, s: Lifted) {
    exists k: nat :: Turns(w, s, k).Some? && Turns(w, s, k).value.queue == []
  }

  /** The loop ends, with nothing queued or by giving up. */
  ghost predicate Stops(w: World, s: Lifted) { exists k: nat :: Turns(w, s, k).None? }

  lemma {:induction false} SameEnd(w: World, s: Lifted, lifted: set<string>)
    requires ValsInRange(s)
    ensures Drains(w, s) <==> NamesDrain(w, NamesOf(s, lifted))
    ensures Stops(w, s) <==> NamesStop(w, NamesOf(s, lifted))
  {
    hide Turns, AfterTurns, ValsInRange;
    forall k: nat
      ensures Turns(w, s, k).None? <==> AfterTurns(w, NamesOf(s, lifted), k).None?
      ensures Turns(w, s, k).Some? ==> (Turns(w, s, k).value.queue == [] <==> AfterTurns(w, NamesOf(s, lifted), k).value.queue == [])
    {
      TurnsTurn(w, s, lifted, k);
    }
  }

  lemma {:induction false} LoopStartNames(w: World, s0: Lifted, root: string)
    requires s0.queue == [] && LazyAdd(w, s0, root).Some?
    ensures !Resolve(w, root).Missing? && ValsInRange(LoopStart(w, s0, root))
    ensures NamesOf(LoopStart(w, s0, root), {root}) == Requested(w, s0.table.Keys, root)
  {
    LazyAddPushes(w, s0, root);
    hide LazyAdd, Pushes, Resolve;
    assert QueueNames(s0.queue) == [];
  }

  /**
   * Exactly when the loop of a request ends. It runs until nothing is queued if and only if the request reaches no
   * cycle of references that are all spelled otherwise than lookups spell them, and no symbol that
   * does not resolve; and it stops in some way if and only if it reaches no such cycle, or does reach such a symbol.
   */
  lemma {:induction false} LoopEndsExactly(w: World, s0: Lifted, root: string)
    requires SettledNames(w) && s0.queue == [] && Idle(w, s0.table.Keys)
    requires Demangle(root) == root && LazyAdd(w, s0, root).Some?
    ensures Drains(w, LoopStart(w, s0, root)) <==> !ReachesAliasCycle(w, s0.table.Keys, root) && !ReachesMissing(w, s0.table.Keys, root)
    ensures Stops(w, LoopStart(w, s0, root)) <==> !ReachesAliasCycle(w, s0.table.Keys, root) || ReachesMissing(w, s0.table.Keys, root)
  {
    var s, before := LoopStart(w, s0, root), s0.table.Keys;
    var d := Requested(w, before, root);
    LoopStartNames(w, s0, root);
    NamesDrainExactly(w, before, root);
    NamesEndExactly(w, before, root);
    hide SettledNames, Idle, Resolve, Requested, Demangle, ReachesAliasCycle, ReachesMissing, LoopStart, LazyAdd;
    hide ValsInRange, Drains, Stops, NamesDrain, NamesStop;
    SameEnd(w, s, {root});
  }

  /** A request that has been served leaves a state in which the next one can be made. */
  lemma {:induction false} ServedIsIdle(w: World, s0: Lifted, root: string, k: nat)
    requires SettledNames(w) && s0.queue == [] && Idle(w, s0.table.Keys)
    requires Demangle(root) == root && LazyAdd(w, s0, root).Some?
    requires Turns(w, LoopStart(w, s0, root), k).Some? && Turns(w, LoopStart(w, s0, root), k).value.queue == []
    ensures Idle(w, Turns(w, LoopStart(w, s0, root), k).value.table.Keys)
  {
    var s, before := LoopStart(w, s0, root), s0.table.Keys;
    var d := Requested(w, before, root);
    LoopStartNames(w, s0, root);
    RequestedIsSound(w, before, root);
    TurnsTurn(w, s, {root}, k);
    hide SettledNames, Idle, Reaches, Resolve, AfterTurns, Requested, Demangle, LoopStart, LazyAdd, Turns, ValsInRange, Sound;
    TurnsKeep(w, before, root, d, k);
    DrainedIsIdle(w, before, root, AfterTurns(w, d, k).value);
  }

  lemma {:induction false} DrainedIsIdle(w: World, before: set<string>, root: string, d: Drainage)
    requires Idle(w, before) && Sound(w, before, root, d) && d.queue == []
    ensures Idle(w, d.table)
  {
    hide Reaches, Demangle, Spells, Aliases, Resolve;
    forall n, b | n in d.table && Spells(w, n, b) ensures b in d.table {
      if n in d.lifted && b !in before { assert Causes(w, before, n, b); }
    }
  }

  // ---------------------------------------------------------------- the shortest cycle

  /** A first request for a symbol that refers to itself by another spelling leaves it queued again. */
  lemma {:induction false} AliasedRequestLoops(w: World, x: string, alias: string, off: int)
    requires RefersThroughAlias(w, x, alias, off)
    ensures LazyAdd(w, Start(), x).Some? && OnlyQueued(LoopStart(w, Start(), x), x)
  {
    var data := w.globals[Resolve(w, x).index].data;
    assert Resolve(w, x).Data? && data == [OffsetSym(alias, off)];
    hide Resolve, Demangle;
    var s0 := Start().(log := [x]);
    assert data[..0] == [] && data[0] == OffsetSym(alias, off);
    assert AddPieces(s0, []) == (s0, []);
    assert FindDeferred([], alias).None?;
    assert AddPieces(s0, data).0 == AddPiece(s0, data[0]).0;
    assert [] + [x] == [x];
  }
}
