/** What every step of lifting globals keeps, and why it ends. */
module GlobalsProofs {
  import opened Options
  import opened Globals

  // ---------------------------------------------------------------- the invariant

  /** The object is what the symbol resolves to. */
  predicate Represents(w: World, o: Object, symbol: string) {
    match Resolve(w, symbol)
    case Missing => false
    case Data(i) => o.Defined? && o.index == i && o.constant == ConstantSection(w.globals[i].section) && o.align == w.globals[i].align
    case other => o == Known(other)
  }

  // ---------------------------------------------------------------- what a name stands for, in the fields of the world

  /** The name that a symbol is looked up by. */
  function LookupName(w: World, symbol: string): string {
    if symbol in w.intrinsicNames then w.intrinsicNames[symbol] else symbol
  }

  /** `.Lx$local` and `.L.x` are assembler-local spellings of `x` and `.x`; every other name is its own. */
  lemma {:induction false} DemangleMeans(x: string, name: string)
    ensures Demangle(".L" + x + "$local") == x
    ensures !EndsWith(".L." + x, "$local") ==> Demangle(".L." + x) == "." + x
    ensures (forall y :: name != ".L" + y + "$local" && name != ".L." + y) ==> Demangle(name) == name
  {
    var a, b := ".L" + x + "$local", ".L." + x;
    assert a[..2] == ".L" && a[|a| - 6..] == "$local" && a[2..|a| - 6] == x;
    assert b[..3] == ".L." && b[2..] == "." + x;
    if StartsWith(name, ".L") && EndsWith(name, "$local") && 8 <= |name| {
      assert name == ".L" + name[2..|name| - 6] + "$local";
    }
    if StartsWith(name, ".L.") { assert name == ".L." + name[3..]; }
  }

  /** The first definition in the assembly whose demangled name is `name`. */
  predicate FirstDefinition(w: World, name: string, i: nat) {
    i < |w.globals| && Demangle(w.globals[i].name) == name
    && forall j :: 0 <= j < i ==> Demangle(w.globals[j].name) != name
  }

  predicate HasDefinition(w: World, name: string) { exists g <- w.globals :: Demangle(g.name) == name }

  /** Something goes by the name. */
  predicate Found(w: World, name: string) {
    || name == "__stack_chk_fail" || name == w.liftedName || name in w.functions || HasDefinition(w, name)
    || name in w.declarations || name in w.implicitIntrinsics
  }

  /** The object is what the name stands for: the first of these that has the name. */
  predicate StandsFor(w: World, name: string, o: Object) {
    if name == "__stack_chk_fail" then o == Known(StackCheck)
    else if name == w.liftedName then o == Known(LiftedFunction)
    else if name in w.functions then o == Known(SourceFunction(name))
    else if HasDefinition(w, name) then
      o.Defined? && FirstDefinition(w, name, o.index) && o.align == w.globals[o.index].align
      && (o.constant <==> var section := w.globals[o.index].section; section == ".text" || ".rodata" <= section)
    else if name in w.declarations then o == Known(Declaration(name))
    else name in w.implicitIntrinsics && o == Known(ImplicitIntrinsic(name))
  }

  lemma {:induction false} FirstGlobalMeans(w: World, name: string)
    ensures var g := FirstGlobal(w.globals, name, 0);
            (g.Some? <==> HasDefinition(w, name)) && (g.Some? ==> FirstDefinition(w, name, g.value))
    ensures forall i: nat, j: nat :: FirstDefinition(w, name, i) && FirstDefinition(w, name, j) ==> i == j
  {
    var g := FirstGlobal(w.globals, name, 0);
    if g.Some? { assert w.globals[g.value] in w.globals; }
    hide Demangle, FirstGlobal;
  }

  /** An object is what a symbol resolves to exactly if it is what the symbol's name stands for. */
  lemma {:induction false} RepresentsMeans(w: World, o: Object, symbol: string)
    ensures Represents(w, o, symbol) <==> StandsFor(w, LookupName(w, symbol), o)
    ensures Resolve(w, symbol).Missing? <==> !Found(w, LookupName(w, symbol))
  {
    FirstGlobalMeans(w, LookupName(w, symbol));
    if o.Defined? && o.index < |w.globals| { ConstantMeans(w.globals[o.index].section); }
    hide FirstGlobal, HasDefinition, FirstDefinition, ConstantSection;
  }

  lemma ConstantMeans(section: string)
    ensures ConstantSection(section) <==> section == ".text" || ".rodata" <= section
  {
  }

  /** Item k of definition i is a reference to n. */
  predicate MentionsAt(w: World, i: nat, k: int, n: string) {
    i < |w.globals| && 0 <= k < |w.globals[i].data| && w.globals[i].data[k].OffsetSym? && w.globals[i].data[k].sym == n
  }

  /** The symbols that a symbol's definition refers to: those in the data of the first definition of its name. */
  lemma {:induction false} RefsMean(w: World, symbol: string, n: string)
    ensures var name := LookupName(w, symbol);
            n in Refs(w, symbol) <==>
              && name != "__stack_chk_fail" && name != w.liftedName && name !in w.functions
              && exists i: nat, k :: FirstDefinition(w, name, i) && MentionsAt(w, i, k, n)
  {
    var name := LookupName(w, symbol);
    FirstGlobalMeans(w, name);
    hide FirstGlobal, Demangle, HasDefinition;
    if n in Refs(w, symbol) {
      var i := Resolve(w, symbol).index;
      var k :| 0 <= k < |w.globals[i].data| && w.globals[i].data[k].OffsetSym? && w.globals[i].data[k].sym == n;
      assert FirstDefinition(w, name, i) && MentionsAt(w, i, k, n);
    } else if i: nat, k :| FirstDefinition(w, name, i) && MentionsAt(w, i, k, n) {
      HasFirst(w, name, i);
      hide FirstDefinition;
    }
  }

  lemma HasFirst(w: World, name: string, i: nat)
    requires FirstDefinition(w, name, i)
    ensures HasDefinition(w, name)
  {
    assert w.globals[i] in w.globals;
  }

  function Names(queue: seq<Deferred>): (r: set<string>)
    ensures forall d <- queue :: d.name in r
  {
    set d <- queue :: d.name
  }

  function Pending(queue: seq<Deferred>): (r: set<Deferred>) {
    set d <- queue
  }

  /** The final handle for a symbol; only a symbol that refers to itself may have another. */
  predicate Settled(w: World, objects: seq<Object>, table: map<string, nat>, obj: nat, sym: string)
    requires obj < |objects|
  {
    sym in table && Represents(w, objects[obj], sym) && (SelfReferring(w, sym) || obj == table[sym])
  }

  /** A piece says what the data item says, through a final handle or through a placeholder that is still queued. */
  predicate PieceOk(w: World, objects: seq<Object>, table: map<string, nat>, pending: set<Deferred>, item: DataItem,
                    p: Piece) {
    match item
    case DataByte(b) => p == Literal(b)
    case OffsetSym(sym, off) =>
      p.Address? && p.offset == off && p.obj < |objects|
      && (Deferred(sym, p.obj) in pending || Settled(w, objects, table, p.obj, sym))
  }

  predicate PiecesOk(w: World, objects: seq<Object>, table: map<string, nat>, pending: set<Deferred>,
                     data: seq<DataItem>, init: seq<Piece>) {
    |init| == |data| && forall k :: 0 <= k < |data| ==> PieceOk(w, objects, table, pending, data[k], init[k])
  }

  predicate ObjectOk(w: World, objects: seq<Object>, table: map<string, nat>, pending: set<Deferred>, o: Object) {
    o.Defined? ==> o.index < |w.globals| && PiecesOk(w, objects, table, pending, w.globals[o.index].data, o.init)
  }

  /** The function being lifted into is the first object and no other. */
  predicate OneFunction(objects: seq<Object>) {
    forall i :: 0 < i < |objects| ==> objects[i] != Known(LiftedFunction)
  }

  predicate ObjectsOk(w: World, objects: seq<Object>, table: map<string, nat>, pending: set<Deferred>) {
    0 < |objects| && objects[THE_FUNCTION] == Known(LiftedFunction) && OneFunction(objects)
    && forall i :: 0 <= i < |objects| ==> ObjectOk(w, objects, table, pending, objects[i])
  }

  predicate TableOk(w: World, objects: seq<Object>, table: map<string, nat>) {
    forall n <- table :: table[n] < |objects| && Represents(w, objects[table[n]], n)
  }

  /** Queue entries are placeholders, one for each name. */
  predicate QueueOk(objects: seq<Object>, queue: seq<Deferred>) {
    && (forall i :: 0 <= i < |queue| ==> queue[i].val < |objects| && objects[queue[i].val] == Placeholder(queue[i].name))
    && (forall i, j :: 0 <= i < j < |queue| ==> queue[i].name != queue[j].name && queue[i].val != queue[j].val)
  }

  /** Whatever a lifted symbol refers to is lifted or queued. */
  predicate ClosedUpTo(w: World, table: map<string, nat>, queue: seq<Deferred>) {
    forall n <- table :: Refs(w, n) <= table.Keys + Names(queue)
  }

  /** Only a symbol that refers to itself can be queued when it is lifted already. */
  predicate AgainOnlySelf(w: World, table: map<string, nat>, queue: seq<Deferred>) {
    forall n <- Names(queue) :: n in table ==> SelfReferring(w, n)
  }

  /** How often a symbol has been lifted. */
  function Times(w: World, table: map<string, nat>, queue: seq<Deferred>, n: string): nat {
    if n !in table then 0 else if SelfReferring(w, n) && n !in Names(queue) then 2 else 1
  }

  ghost predicate LogOk(w: World, s: Lifted) {
    forall n :: multiset(s.log)[n] == Times(w, s.table, s.queue, n)
  }

  ghost predicate Good(w: World, s: Lifted) {
    && ObjectsOk(w, s.objects, s.table, Pending(s.queue))
    && TableOk(w, s.objects, s.table)
    && QueueOk(s.objects, s.queue)
    && ClosedUpTo(w, s.table, s.queue)
    && AgainOnlySelf(w, s.table, s.queue)
    && LogOk(w, s)
  }

  /** What lifting a symbol adds, in the fields of the world. */
  lemma {:induction false} LazyAddMeans(w: World, s: Lifted, symbol: string)
    ensures LazyAdd(w, s, symbol).Some? <==> Found(w, LookupName(w, symbol))
    ensures LookupName(w, symbol) == w.liftedName != "__stack_chk_fail" ==>
              LazyAdd(w, s, symbol) == Some((s.(log := s.log + [symbol]), 0))
    ensures LazyAdd(w, s, symbol).Some? && LookupName(w, symbol) != w.liftedName ==>
              var (s1, h) := LazyAdd(w, s, symbol).value;
              h == |s1.objects| - 1 && StandsFor(w, LookupName(w, symbol), s1.objects[h])
  {
    var name := LookupName(w, symbol);
    RepresentsMeans(w, Known(LiftedFunction), symbol);
    if LazyAdd(w, s, symbol).Some? && name != w.liftedName {
      var (s1, h) := LazyAdd(w, s, symbol).value;
      LastObject(w, s, symbol);
      RepresentsMeans(w, s1.objects[h], symbol);
    }
    hide StandsFor, Found, AddPieces, FirstGlobal;
  }

  lemma {:induction false} LastObject(w: World, s: Lifted, symbol: string)
    requires LazyAdd(w, s, symbol).Some? && Resolve(w, symbol) != LiftedFunction
    ensures var (s1, h) := LazyAdd(w, s, symbol).value;
            0 <= h == |s1.objects| - 1 && Represents(w, s1.objects[h], symbol)
  {
    hide AddPieces, FirstGlobal;
  }

  lemma {:induction false} AllNamesMean(w: World, symbol: string)
    ensures forall o :: Represents(w, o, symbol) <==> StandsFor(w, LookupName(w, symbol), o)
    ensures forall n :: Resolve(w, n).Missing? <==> !Found(w, LookupName(w, n))
  {
    hide Represents, StandsFor, Resolve, Found, LookupName;
    forall o ensures Represents(w, o, symbol) <==> StandsFor(w, LookupName(w, symbol), o) { RepresentsMeans(w, o, symbol); }
    forall n ensures Resolve(w, n).Missing? <==> !Found(w, LookupName(w, n)) { RepresentsMeans(w, Erased, n); }
  }

  /** The lifted function's own name is answered by the first handle. */
  lemma {:induction false} LiftedAnswer(w: World, s: Lifted, symbol: string, h: nat)
    requires Good(w, s) && h < |s.objects| && Represents(w, s.objects[h], symbol)
    ensures LookupName(w, symbol) == w.liftedName != "__stack_chk_fail" ==> h == 0
  {
    hide FirstGlobal;
  }

  // ---------------------------------------------------------------- one definition

  predicate PlainSyms(data: seq<DataItem>) {
    forall k :: 0 <= k < |data| && data[k].OffsetSym? ==> Demangle(data[k].sym) == data[k].sym
  }

  predicate NewOnesArePlaceholders(s: seq<Object>, s2: seq<Object>) {
    s <= s2 && forall i :: |s| <= i < |s2| ==> s2[i].Placeholder?
  }

  /** Entries appended to the queue are for symbols of `syms` that are not lifted, behind placeholders made since. */
  predicate Queued(s: Lifted, s2: Lifted, syms: set<string>) {
    s.queue <= s2.queue
    && forall i :: |s.queue| <= i < |s2.queue| ==>
         s2.queue[i].name in syms && s2.queue[i].name !in s.table && |s.objects| <= s2.queue[i].val
  }

  ghost predicate Extends(s: Lifted, s2: Lifted, syms: set<string>) {
    && s2.table == s.table && s2.log == s.log
    && NewOnesArePlaceholders(s.objects, s2.objects)
    && QueueOk(s2.objects, s2.queue)
    && Queued(s, s2, syms)
    && syms <= s2.table.Keys + Names(s2.queue)
  }

  lemma PieceGrows(w: World, objects: seq<Object>, objects2: seq<Object>, table: map<string, nat>,
                   pending: set<Deferred>, pending2: set<Deferred>, item: DataItem, p: Piece)
    requires PieceOk(w, objects, table, pending, item, p) && objects <= objects2 && pending <= pending2
    ensures PieceOk(w, objects2, table, pending2, item, p)
  {
    hide SelfReferring, Represents;
    if item.OffsetSym? { assert objects[p.obj] == objects2[p.obj]; }
  }

  lemma {:induction false} PiecesGrow(w: World, objects: seq<Object>, objects2: seq<Object>, table: map<string, nat>,
                   pending: set<Deferred>, pending2: set<Deferred>, data: seq<DataItem>, init: seq<Piece>)
    requires PiecesOk(w, objects, table, pending, data, init) && objects <= objects2 && pending <= pending2
    ensures PiecesOk(w, objects2, table, pending2, data, init)
  {
    forall k | 0 <= k < |data| ensures PieceOk(w, objects2, table, pending2, data[k], init[k]) {
      PieceGrows(w, objects, objects2, table, pending, pending2, data[k], init[k]);
    }
  }

  lemma {:induction false} NothingAdded(w: World, s: Lifted, syms: set<string>)
    requires QueueOk(s.objects, s.queue) && syms <= s.table.Keys + Names(s.queue)
    ensures Extends(s, s, syms)
  {
    hide QueueOk;
  }

  /** A placeholder for a symbol that is neither lifted nor queued. */
  lemma {:induction false} OneQueued(w: World, s: Lifted, sym: string)
    requires QueueOk(s.objects, s.queue) && sym !in s.table && forall d <- s.queue :: d.name != sym
    ensures var s2 := s.(objects := s.objects + [Placeholder(sym)], queue := s.queue + [Deferred(sym, |s.objects|)]);
            Extends(s, s2, {sym}) && Deferred(sym, |s.objects|) in Pending(s2.queue)
  {
    var s2 := s.(objects := s.objects + [Placeholder(sym)], queue := s.queue + [Deferred(sym, |s.objects|)]);
    assert s2.queue[|s.queue|] == Deferred(sym, |s.objects|);
    QueueGrows(s.objects, s.queue, sym);
    assert sym in Names(s2.queue);
    hide QueueOk, Pending, Names;
  }

  lemma QueueGrows(objects: seq<Object>, queue: seq<Deferred>, sym: string)
    requires QueueOk(objects, queue) && forall d <- queue :: d.name != sym
    ensures QueueOk(objects + [Placeholder(sym)], queue + [Deferred(sym, |objects|)])
  {
    var objects2, queue2 := objects + [Placeholder(sym)], queue + [Deferred(sym, |objects|)];
    forall i | 0 <= i < |queue2| ensures queue2[i].val < |objects2| && objects2[queue2[i].val] == Placeholder(queue2[i].name) {
      if i < |queue| { assert queue2[i] == queue[i]; }
    }
    forall i, j | 0 <= i < j < |queue2| ensures queue2[i].name != queue2[j].name && queue2[i].val != queue2[j].val {
      assert queue2[i] == queue[i] && queue[i] in queue;
      if j < |queue| { assert queue2[j] == queue[j]; }
    }
  }

  lemma {:induction false} AddPieceKeeps(w: World, s: Lifted, item: DataItem)
    requires TableOk(w, s.objects, s.table) && QueueOk(s.objects, s.queue) && PlainSyms([item])
    ensures var (s2, p) := AddPiece(s, item);
            Extends(s, s2, SymsOf([item])) && PieceOk(w, s2.objects, s2.table, Pending(s2.queue), item, p)
  {
    assert item == [item][0];
    if item.DataByte? {
      assert SymsOf([item]) == {};
      NothingAdded(w, s, {});
    } else {
      assert SymsOf([item]) == {item.sym};
      AddSymKeeps(w, s, item.sym, item.offset);
    }
  }

  lemma {:induction false} AddSymKeeps(w: World, s: Lifted, sym: string, off: int)
    requires TableOk(w, s.objects, s.table) && QueueOk(s.objects, s.queue) && Demangle(sym) == sym
    ensures var (s2, p) := AddPiece(s, OffsetSym(sym, off));
            Extends(s, s2, {sym}) && PieceOk(w, s2.objects, s2.table, Pending(s2.queue), OffsetSym(sym, off), p)
  {
    if sym in s.table {
      hide QueueOk, Represents, SelfReferring;
      NothingAdded(w, s, {sym});
      hide Extends;
    } else {
      hide TableOk, Represents, SelfReferring, Demangle;
      var d := FindDeferred(s.queue, sym);
      if d.Some? {
        assert Deferred(sym, d.value) in Pending(s.queue);
        assert sym in Names(s.queue);
        NothingAdded(w, s, {sym});
        hide Extends, Pending, Names, FindDeferred;
        assert d.value < |s.objects|;
      } else {
        hide QueueOk;
        OneQueued(w, s, sym);
        hide Extends, Pending, Names;
      }
    }
  }

  lemma {:induction false} ExtendsTwice(s: Lifted, s1: Lifted, s2: Lifted, a: set<string>, b: set<string>)
    requires Extends(s, s1, a) && Extends(s1, s2, b)
    ensures Extends(s, s2, a + b)
  {
    forall n | n in Names(s1.queue) ensures n in Names(s2.queue) {
      var d :| d in s1.queue && d.name == n;
      assert d in s2.queue;
    }
    forall i | |s.queue| <= i < |s2.queue|
      ensures s2.queue[i].name in a + b && s2.queue[i].name !in s.table && |s.objects| <= s2.queue[i].val
    {
      if i < |s1.queue| { assert s2.queue[i] == s1.queue[i]; }
    }
    forall i | |s.objects| <= i < |s2.objects| ensures s2.objects[i].Placeholder? {
      if i < |s1.objects| { assert s2.objects[i] == s1.objects[i]; }
    }
  }

  lemma {:induction false} AddPiecesKeep(w: World, s: Lifted, data: seq<DataItem>)
    requires TableOk(w, s.objects, s.table) && QueueOk(s.objects, s.queue) && PlainSyms(data)
    ensures var (s2, init) := AddPieces(s, data);
            Extends(s, s2, SymsOf(data)) && PiecesOk(w, s2.objects, s2.table, Pending(s2.queue), data, init)
  {
    var (s2, init) := AddPieces(s, data);
    if data == [] {
      assert SymsOf(data) == {};
    } else {
      var front, last := data[..|data| - 1], data[|data| - 1];
      var (s1, most) := AddPieces(s, front);
      AddPiecesKeep(w, s, front);
      TableGrows(w, s.objects, s1.objects, s.table);
      AddPieceKeeps(w, s1, last);
      SymsOfLast(data);
      ExtendsTwice(s, s1, s2, SymsOf(front), SymsOf([last]));
      PiecesGrow(w, s1.objects, s2.objects, s.table, Pending(s1.queue), Pending(s2.queue), front, most);
      hide PieceOk, Extends;
      forall k | 0 <= k < |data| ensures PieceOk(w, s2.objects, s2.table, Pending(s2.queue), data[k], init[k]) {
        if k < |front| { assert data[k] == front[k] && init[k] == most[k]; }
      }
    }
  }

  lemma TableGrows(w: World, objects: seq<Object>, objects2: seq<Object>, table: map<string, nat>)
    requires TableOk(w, objects, table) && objects <= objects2
    ensures TableOk(w, objects2, table)
  {
    hide Represents;
    forall n | n in table ensures table[n] < |objects2| && Represents(w, objects2[table[n]], n) {
      assert objects2[table[n]] == objects[table[n]];
    }
  }

  lemma SymsOfLast(data: seq<DataItem>)
    requires data != []
    ensures SymsOf(data) == SymsOf(data[..|data| - 1]) + SymsOf([data[|data| - 1]])
  {
    var front, last := data[..|data| - 1], [data[|data| - 1]];
    forall n | n in SymsOf(data) ensures n in SymsOf(front) + SymsOf(last) {
      var k :| 0 <= k < |data| && data[k].OffsetSym? && data[k].sym == n;
      if k < |front| { assert front[k] == data[k]; } else { assert last[0] == data[k]; }
    }
    forall n | n in SymsOf(last) ensures n in SymsOf(data) {
      assert last[0] == data[|data| - 1];
    }
    forall n | n in SymsOf(front) ensures n in SymsOf(data) {
      var k :| 0 <= k < |front| && front[k].OffsetSym? && front[k].sym == n;
      assert data[k] == front[k];
    }
  }

  // ---------------------------------------------------------------- one symbol

  lemma DefinitionsArePlain(w: World, i: nat)
    requires DemangledData(w) && i < |w.globals|
    ensures PlainSyms(w.globals[i].data)
  {
  }

  lemma {:induction false} ObjectsGrow(w: World, objects: seq<Object>, objects2: seq<Object>, table: map<string, nat>,
                                       pending: set<Deferred>, pending2: set<Deferred>)
    requires ObjectsOk(w, objects, table, pending) && NewOnesArePlaceholders(objects, objects2) && pending <= pending2
    ensures ObjectsOk(w, objects2, table, pending2)
  {
    forall i | 0 <= i < |objects2| ensures ObjectOk(w, objects2, table, pending2, objects2[i]) {
      if i < |objects| {
        assert objects2[i] == objects[i];
        ObjectGrows(w, objects, objects2, table, pending, pending2, objects[i]);
      }
    }
    hide ObjectOk;
  }

  lemma ObjectGrows(w: World, objects: seq<Object>, objects2: seq<Object>, table: map<string, nat>,
                    pending: set<Deferred>, pending2: set<Deferred>, o: Object)
    requires ObjectOk(w, objects, table, pending, o) && objects <= objects2 && pending <= pending2
    ensures ObjectOk(w, objects2, table, pending2, o)
  {
    if o.Defined? { PiecesGrow(w, objects, objects2, table, pending, pending2, w.globals[o.index].data, o.init); }
  }

  /** Appending one sound object keeps every object sound. */
  lemma {:induction false} ObjectAdded(w: World, objects: seq<Object>, table: map<string, nat>, pending: set<Deferred>,
                                       o: Object)
    requires ObjectsOk(w, objects, table, pending) && ObjectOk(w, objects, table, pending, o) && o != Known(LiftedFunction)
    ensures ObjectsOk(w, objects + [o], table, pending)
  {
    var objects2 := objects + [o];
    forall i | 0 <= i < |objects2| ensures ObjectOk(w, objects2, table, pending, objects2[i]) {
      if i < |objects| {
        ObjectGrows(w, objects, objects2, table, pending, pending, objects[i]);
      } else {
        ObjectGrows(w, objects, objects2, table, pending, pending, o);
      }
    }
    hide ObjectOk;
  }

  /** What lifting one symbol does to the state, before its handle is recorded. */
  ghost predicate Added(w: World, s: Lifted, s1: Lifted, h: nat, symbol: string, pending: set<Deferred>) {
    && s1.table == s.table && s1.log == s.log + [symbol]
    && s.objects <= s1.objects
    && QueueOk(s1.objects, s1.queue)
    && Queued(s, s1, Refs(w, symbol))
    && Refs(w, symbol) <= s1.table.Keys + Names(s1.queue)
    && h < |s1.objects| && Represents(w, s1.objects[h], symbol)
    && ObjectsOk(w, s1.objects, s1.table, pending + Pending(s1.queue))
  }

  lemma {:induction false} LazyAddKeeps(w: World, s: Lifted, symbol: string, pending: set<Deferred>)
    requires DemangledData(w)
    requires TableOk(w, s.objects, s.table) && QueueOk(s.objects, s.queue)
    requires ObjectsOk(w, s.objects, s.table, pending) && Pending(s.queue) <= pending
    ensures LazyAdd(w, s, symbol).None? <==> Resolve(w, symbol).Missing?
    ensures LazyAdd(w, s, symbol).Some? ==>
              Added(w, s, LazyAdd(w, s, symbol).value.0, LazyAdd(w, s, symbol).value.1, symbol, pending)
  {
    match Resolve(w, symbol)
    case Missing =>
    case LiftedFunction =>
      var s1 := LazyAdd(w, s, symbol).value.0;
      assert Refs(w, symbol) == {};
      assert pending + Pending(s1.queue) == pending;
      hide ObjectOk, QueueOk, Resolve, Names, Pending, TableOk;
    case Data(i) => DataAdded(w, s, symbol, pending, i);
    case other =>
      assert Refs(w, symbol) == {};
      assert pending + Pending(s.queue) == pending;
      ObjectAdded(w, s.objects, s.table, pending, Known(other));
      QueueStays(s.objects, s.objects + [Known(other)], s.queue);
      hide ObjectsOk, QueueOk, Resolve, Names, Pending, TableOk;
  }

  lemma QueueStays(objects: seq<Object>, objects2: seq<Object>, queue: seq<Deferred>)
    requires QueueOk(objects, queue) && objects <= objects2
    ensures QueueOk(objects2, queue)
  {
    forall i | 0 <= i < |queue| ensures queue[i].val < |objects2| && objects2[queue[i].val] == Placeholder(queue[i].name) {
      assert objects2[queue[i].val] == objects[queue[i].val];
    }
  }

  lemma {:induction false} DataAdded(w: World, s: Lifted, symbol: string, pending: set<Deferred>, i: nat)
    requires DemangledData(w) && i < |w.globals| && Resolve(w, symbol) == Data(i)
    requires TableOk(w, s.objects, s.table) && QueueOk(s.objects, s.queue)
    requires ObjectsOk(w, s.objects, s.table, pending) && Pending(s.queue) <= pending
    ensures LazyAdd(w, s, symbol).Some?
    ensures Added(w, s, LazyAdd(w, s, symbol).value.0, LazyAdd(w, s, symbol).value.1, symbol, pending)
  {
    var g := w.globals[i];
    var s0 := s.(log := s.log + [symbol]);
    var (s2, init) := AddPieces(s0, g.data);
    var o := Defined(i, ConstantSection(g.section), g.align, init);
    assert Represents(w, o, symbol);
    assert Refs(w, symbol) == SymsOf(g.data);
    DefinitionsArePlain(w, i);
    assert s0.queue == s.queue && s0.table == s.table && s0.objects == s.objects;
    AddPiecesKeep(w, s0, g.data);
    var s1 := s2.(objects := s2.objects + [o]);
    assert LazyAdd(w, s, symbol) == Some((s1, |s2.objects|));
    hide AddPieces, Resolve, DemangledData, TableOk, Represents, Refs, LazyAdd, SymsOf, ConstantSection;
    var after := pending + Pending(s2.queue);
    ObjectsGrow(w, s.objects, s2.objects, s.table, pending, after);
    PiecesGrow(w, s2.objects, s2.objects, s.table, Pending(s2.queue), after, g.data, init);
    ObjectAdded(w, s2.objects, s.table, after, o);
    QueueStays(s2.objects, s1.objects, s2.queue);
    hide ObjectsOk, QueueOk, PiecesOk, Pending, Names;
  }

  /** How often a symbol has been lifted while `symbol` is being lifted (again). */
  function TimesBut(w: World, s: Lifted, symbol: string, n: string): nat {
    if n == symbol then (if n in s.table then 1 else 0) else Times(w, s.table, s.queue, n)
  }

  /** The state in which `symbol` is about to be lifted. */
  ghost predicate Ready(w: World, s: Lifted, symbol: string) {
    && (forall n <- s.table :: Refs(w, n) <= s.table.Keys + Names(s.queue) + {symbol})
    && AgainOnlySelf(w, s.table, s.queue)
    && symbol !in Names(s.queue)
    && (symbol in s.table ==> SelfReferring(w, symbol))
    && forall n :: multiset(s.log)[n] == TimesBut(w, s, symbol, n)
  }

  function Recorded(s: Lifted, symbol: string, h: nat): Lifted {
    s.(table := s.table[symbol := h])
  }

  lemma NamesGrow(q: seq<Deferred>, q2: seq<Deferred>)
    requires q <= q2
    ensures Names(q) <= Names(q2) && Pending(q) <= Pending(q2)
    ensures forall n <- Names(q2) :: n in Names(q) || exists i :: |q| <= i < |q2| && q2[i].name == n
  {
    forall d | d in q ensures d in q2 {
      var i :| 0 <= i < |q| && q[i] == d;
      assert q2[i] == d;
    }
    forall n | n in Names(q2) ensures n in Names(q) || exists i :: |q| <= i < |q2| && q2[i].name == n {
      var d :| d in q2 && d.name == n;
      var i :| 0 <= i < |q2| && q2[i] == d;
      if i < |q| { assert q2[i] == q[i] && q[i] in q; }
    }
  }

  /** A name queued since is a reference that was not lifted. */
  lemma {:induction false} NewName(s: Lifted, s1: Lifted, syms: set<string>, n: string)
    requires Queued(s, s1, syms) && n in Names(s1.queue) && n !in Names(s.queue)
    ensures n in syms && n !in s.table
  {
    NamesGrow(s.queue, s1.queue);
  }

  lemma {:induction false} RecordedIsClosed(w: World, s: Lifted, s1: Lifted, h: nat, symbol: string, pending: set<Deferred>)
    requires Ready(w, s, symbol) && Added(w, s, s1, h, symbol, pending)
    ensures ClosedUpTo(w, Recorded(s1, symbol, h).table, s1.queue)
    ensures AgainOnlySelf(w, Recorded(s1, symbol, h).table, s1.queue)
  {
    var t := Recorded(s1, symbol, h);
    NamesGrow(s.queue, s1.queue);
    hide ObjectsOk, QueueOk, Pending, Names, Represents, Queued, Refs;
    forall n | n in t.table ensures Refs(w, n) <= t.table.Keys + Names(s1.queue) {
      if n != symbol { assert n in s.table; }
    }
    forall n | n in Names(s1.queue) && n in t.table ensures SelfReferring(w, n) {
      if n !in Names(s.queue) { NewName(s, s1, Refs(w, symbol), n); }
    }
  }

  lemma {:induction false} RecordedIsCounted(w: World, s: Lifted, s1: Lifted, h: nat, symbol: string, pending: set<Deferred>)
    requires Ready(w, s, symbol) && Added(w, s, s1, h, symbol, pending)
    ensures LogOk(w, Recorded(s1, symbol, h))
  {
    var t := Recorded(s1, symbol, h);
    NamesGrow(s.queue, s1.queue);
    hide ObjectsOk, QueueOk, Pending, Names, Represents, Queued, Refs;
    forall n ensures multiset(t.log)[n] == Times(w, t.table, t.queue, n) {
      assert multiset(t.log)[n] == multiset(s.log)[n] + (if n == symbol then 1 else 0);
      assert multiset(s.log)[n] == TimesBut(w, s, symbol, n);
      if n in Names(s1.queue) && n !in Names(s.queue) {
        NewName(s, s1, Refs(w, symbol), n);
      }
    }
  }

  /** Recording a handle keeps every piece sound: what was settled stays settled. */
  lemma {:induction false} PieceRecorded(w: World, objects: seq<Object>, table: map<string, nat>, pending: set<Deferred>,
                                         symbol: string, h: nat, item: DataItem, p: Piece)
    requires PieceOk(w, objects, table, pending, item, p) && (symbol in table ==> SelfReferring(w, symbol))
    ensures PieceOk(w, objects, table[symbol := h], pending, item, p)
  {
    hide Represents, SelfReferring;
  }

  lemma {:induction false} ObjectsRecorded(w: World, objects: seq<Object>, table: map<string, nat>, pending: set<Deferred>,
                                           symbol: string, h: nat)
    requires ObjectsOk(w, objects, table, pending) && TableOk(w, objects, table)
    requires h < |objects| && Represents(w, objects[h], symbol) && (symbol in table ==> SelfReferring(w, symbol))
    ensures ObjectsOk(w, objects, table[symbol := h], pending) && TableOk(w, objects, table[symbol := h])
  {
    forall i | 0 <= i < |objects| ensures ObjectOk(w, objects, table[symbol := h], pending, objects[i]) {
      assert ObjectOk(w, objects, table, pending, objects[i]);
      hide PieceOk, SelfReferring;
      if objects[i].Defined? {
        var data := w.globals[objects[i].index].data;
        forall k | 0 <= k < |data| ensures PieceOk(w, objects, table[symbol := h], pending, data[k], objects[i].init[k]) {
          PieceRecorded(w, objects, table, pending, symbol, h, data[k], objects[i].init[k]);
        }
      }
    }
    hide ObjectOk, Represents;
  }

  // ---------------------------------------------------------------- replacing a placeholder

  function Replaced(objects: seq<Object>, d: Deferred, h: nat): (r: seq<Object>)
    requires d.val < |objects|
    ensures |r| == |objects|
  {
    ReplaceAllUses(objects, d.val, h)[d.val := Erased]
  }

  lemma {:induction false} StillRepresents(w: World, objects: seq<Object>, d: Deferred, h: nat, i: nat, symbol: string)
    requires d.val < |objects| && objects[d.val].Placeholder? && i < |objects| && Represents(w, objects[i], symbol)
    ensures i != d.val && Represents(w, Replaced(objects, d, h)[i], symbol)
  {
    assert !Represents(w, objects[d.val], symbol) by { hide Resolve; }
    hide Resolve;
  }

  lemma {:induction false} PieceReplaced(w: World, objects: seq<Object>, table: map<string, nat>, pending: set<Deferred>,
                                         d: Deferred, h: nat, item: DataItem, p: Piece)
    requires d.val < |objects| && objects[d.val] == Placeholder(d.name)
    requires PieceOk(w, objects, table, pending + {d}, item, p)
    requires forall e <- pending :: e.val != d.val
    requires d.name in table && table[d.name] == h < |objects| && Represents(w, objects[h], d.name)
    ensures PieceOk(w, Replaced(objects, d, h), table, pending, item, SwapPiece(p, d.val, h))
  {
    if item.OffsetSym? {
      hide Replaced;
      if p.obj == d.val {
        assert !Represents(w, objects[d.val], item.sym) by { hide Resolve; }
        StillRepresents(w, objects, d, h, h, d.name);
        hide Represents;
      } else if Deferred(item.sym, p.obj) !in pending {
        hide Represents;
        assert Settled(w, objects, table, p.obj, item.sym);
        StillRepresents(w, objects, d, h, p.obj, item.sym);
      }
    }
  }

  lemma {:induction false} ObjectReplaced(w: World, objects: seq<Object>, table: map<string, nat>, pending: set<Deferred>,
                                          d: Deferred, h: nat, o: Object)
    requires d.val < |objects| && objects[d.val] == Placeholder(d.name)
    requires ObjectOk(w, objects, table, pending + {d}, o)
    requires forall e <- pending :: e.val != d.val
    requires d.name in table && table[d.name] == h < |objects| && Represents(w, objects[h], d.name)
    ensures ObjectOk(w, Replaced(objects, d, h), table, pending, SwapUses(o, d.val, h))
  {
    if o.Defined? {
      var data := w.globals[o.index].data;
      hide PieceOk, Represents, Replaced;
      forall k | 0 <= k < |data| ensures PieceOk(w, Replaced(objects, d, h), table, pending, data[k], SwapPiece(o.init[k], d.val, h)) {
        PieceReplaced(w, objects, table, pending, d, h, data[k], o.init[k]);
      }
    }
  }

  lemma {:induction false} ObjectsReplaced(w: World, objects: seq<Object>, table: map<string, nat>, pending: set<Deferred>,
                                           d: Deferred, h: nat)
    requires d.val < |objects| && objects[d.val] == Placeholder(d.name)
    requires ObjectsOk(w, objects, table, pending + {d}) && TableOk(w, objects, table)
    requires forall e <- pending :: e.val != d.val
    requires d.name in table && table[d.name] == h
    ensures ObjectsOk(w, Replaced(objects, d, h), table, pending) && TableOk(w, Replaced(objects, d, h), table)
  {
    var objects2 := Replaced(objects, d, h);
    forall i | 0 <= i < |objects2| ensures ObjectOk(w, objects2, table, pending, objects2[i]) {
      assert ObjectOk(w, objects, table, pending + {d}, objects[i]);
      ObjectReplaced(w, objects, table, pending, d, h, objects[i]);
      hide ObjectOk, SwapUses;
      if i != d.val { assert objects2[i] == SwapUses(objects[i], d.val, h); } else { ErasedIsOk(w, objects2, table, pending); }
    }
    forall n | n in table ensures table[n] < |objects2| && Represents(w, objects2[table[n]], n) {
      StillRepresents(w, objects, d, h, table[n], n);
    }
    hide ObjectOk, Represents;
  }

  lemma ErasedIsOk(w: World, objects: seq<Object>, table: map<string, nat>, pending: set<Deferred>)
    ensures ObjectOk(w, objects, table, pending, Erased)
  {
  }

  lemma {:induction false} QueueReplaced(objects: seq<Object>, queue: seq<Deferred>, d: Deferred, h: nat)
    requires QueueOk(objects, queue) && d.val < |objects| && forall e <- Pending(queue) :: e.val != d.val
    ensures QueueOk(Replaced(objects, d, h), queue)
  {
    forall i | 0 <= i < |queue| ensures Replaced(objects, d, h)[queue[i].val] == Placeholder(queue[i].name) {
      assert queue[i] in Pending(queue);
    }
  }

  // ---------------------------------------------------------------- the two steps that record a symbol

  lemma {:induction false} PopReady(w: World, s: Lifted)
    requires Good(w, s) && s.queue != []
    ensures Ready(w, s.(queue := s.queue[1..]), s.queue[0].name)
    ensures Pending(s.queue[1..]) + {s.queue[0]} == Pending(s.queue) && QueueOk(s.objects, s.queue[1..])
  {
    var d, rest := s.queue[0], s.queue[1..];
    assert s.queue == [d] + rest;
    assert Names(s.queue) == Names(rest) + {d.name};
    PoppedApart(s.objects, s.queue);
    hide ObjectsOk, TableOk, Names, SelfReferring, QueueOk, Pending;
    forall n ensures multiset(s.log)[n] == TimesBut(w, s.(queue := rest), d.name, n) {
      assert multiset(s.log)[n] == Times(w, s.table, s.queue, n);
    }
  }

  lemma PoppedApart(objects: seq<Object>, queue: seq<Deferred>)
    requires QueueOk(objects, queue) && queue != []
    ensures QueueOk(objects, queue[1..]) && queue[0].name !in Names(queue[1..])
    ensures forall e <- Pending(queue[1..]) :: e.val != queue[0].val
    ensures Pending(queue[1..]) + {queue[0]} == Pending(queue)
  {
    var rest := queue[1..];
    assert queue == [queue[0]] + rest;
    forall i | 0 <= i < |rest| ensures rest[i].name != queue[0].name && rest[i].val != queue[0].val {
      assert queue[0].name != queue[i + 1].name && queue[0].val != queue[i + 1].val;
    }
    forall i, j | 0 <= i < j < |rest| ensures rest[i].name != rest[j].name && rest[i].val != rest[j].val {
      assert rest[i] == queue[i + 1] && rest[j] == queue[j + 1];
    }
  }

  /** The first symbol of a request: lifted and recorded. */
  lemma {:induction false} FirstKeepsGood(w: World, s: Lifted, symbol: string)
    requires DemangledData(w) && Good(w, s) && s.queue == [] && symbol !in s.table
    ensures LazyAdd(w, s, symbol).None? <==> Resolve(w, symbol).Missing?
    ensures LazyAdd(w, s, symbol).Some? ==>
              var (s1, h) := LazyAdd(w, s, symbol).value;
              Added(w, s, s1, h, symbol, {}) && Good(w, Recorded(s1, symbol, h))
  {
    assert Pending(s.queue) == {} && Names(s.queue) == {};
    assert Ready(w, s, symbol);
    LazyAddKeeps(w, s, symbol, {});
    if LazyAdd(w, s, symbol).Some? {
      var (s1, h) := LazyAdd(w, s, symbol).value;
      hide LazyAdd, DemangledData;
      RecordedIsClosed(w, s, s1, h, symbol, {});
      RecordedIsCounted(w, s, s1, h, symbol, {});
      assert {} + Pending(s1.queue) == Pending(s1.queue);
      TableGrows(w, s.objects, s1.objects, s.table);
      ObjectsRecorded(w, s1.objects, s1.table, Pending(s1.queue), symbol, h);
      hide ObjectsOk, TableOk, QueueOk, ClosedUpTo, AgainOnlySelf, LogOk;
    }
  }

  /** What one turn of the draining loop does. */
  ghost predicate Drained(w: World, s: Lifted, s1: Lifted, h: nat, r: Lifted) {
    s.queue != [] && s.queue[0].val < |s1.objects|
    && r == Recorded(s1, s.queue[0].name, h).(objects := Replaced(s1.objects, s.queue[0], h))
    && Added(w, s.(queue := s.queue[1..]), s1, h, s.queue[0].name, Pending(s.queue))
  }

  lemma {:induction false} DrainKeepsGood(w: World, s: Lifted)
    requires DemangledData(w) && Good(w, s) && s.queue != []
    ensures DrainOne(w, s).None? <==> Resolve(w, s.queue[0].name).Missing?
    ensures DrainOne(w, s).Some? ==>
              var (s1, h) := LazyAdd(w, s.(queue := s.queue[1..]), s.queue[0].name).value;
              Drained(w, s, s1, h, DrainOne(w, s).value) && Good(w, DrainOne(w, s).value)
  {
    var d, s0 := s.queue[0], s.(queue := s.queue[1..]);
    PopReady(w, s);
    LazyAddKeeps(w, s0, d.name, Pending(s.queue));
    if LazyAdd(w, s0, d.name).Some? {
      var (s1, h) := LazyAdd(w, s0, d.name).value;
      assert DrainOne(w, s) == Some(Recorded(s1, d.name, h).(objects := Replaced(s1.objects, d, h)));
      hide LazyAdd, DemangledData;
      DrainedIsGood(w, s, s1, h);
    }
  }

  lemma {:induction false} DrainedIsGood(w: World, s: Lifted, s1: Lifted, h: nat)
    requires Good(w, s) && s.queue != []
    requires Added(w, s.(queue := s.queue[1..]), s1, h, s.queue[0].name, Pending(s.queue))
    ensures s.queue[0].val < |s1.objects|
    ensures Good(w, Recorded(s1, s.queue[0].name, h).(objects := Replaced(s1.objects, s.queue[0], h)))
  {
    var d, s0 := s.queue[0], s.(queue := s.queue[1..]);
    PopReady(w, s);
    PoppedApart(s.objects, s.queue);
    RecordedIsClosed(w, s0, s1, h, d.name, Pending(s.queue));
    RecordedIsCounted(w, s0, s1, h, d.name, Pending(s.queue));
    TableGrows(w, s.objects, s1.objects, s.table);
    NewPendingApart(w, s, s1, h);
    assert s.objects[d.val] == s1.objects[d.val] == Placeholder(d.name);
    ObjectsRecorded(w, s1.objects, s1.table, Pending(s1.queue) + {d}, d.name, h);
    var t := s1.table[d.name := h];
    ObjectsReplaced(w, s1.objects, t, Pending(s1.queue), d, h);
    QueueReplaced(s1.objects, s1.queue, d, h);
    hide ObjectsOk, TableOk, QueueOk, ClosedUpTo, AgainOnlySelf, Replaced, Pending, Names, Refs, Represents;
    var r := Recorded(s1, d.name, h);
    assert forall n :: multiset(r.log)[n] == Times(w, r.table, r.queue, n);
  }

  lemma {:induction false} NewPendingApart(w: World, s: Lifted, s1: Lifted, h: nat)
    requires QueueOk(s.objects, s.queue) && s.queue != []
    requires Added(w, s.(queue := s.queue[1..]), s1, h, s.queue[0].name, Pending(s.queue))
    ensures forall e <- Pending(s1.queue) :: e.val != s.queue[0].val
    ensures Pending(s.queue) + Pending(s1.queue) == Pending(s1.queue) + {s.queue[0]}
  {
    PoppedApart(s.objects, s.queue);
    NamesGrow(s.queue[1..], s1.queue);
    hide ObjectsOk, Refs, Represents, Names;
    NewApart(s.queue, s1.queue, |s.objects|);
  }

  lemma {:induction false} NewApart(q: seq<Deferred>, q1: seq<Deferred>, size: nat)
    requires q != [] && q[1..] <= q1 && q[0].val < size
    requires forall e <- Pending(q[1..]) :: e.val != q[0].val
    requires forall i :: |q| - 1 <= i < |q1| ==> size <= q1[i].val
    ensures forall e <- Pending(q1) :: e.val != q[0].val
  {
    forall e | e in Pending(q1) ensures e.val != q[0].val {
      var i :| 0 <= i < |q1| && q1[i] == e;
      if i < |q| - 1 {
        assert q1[i] == q[1..][i];
        assert e in Pending(q[1..]);
      }
    }
  }
}
