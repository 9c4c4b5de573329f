/**
 * Lifted globals: what a symbol resolves to, which symbols it refers to, and the state
 * that the on-demand lifting of globals moves through.
 */
module Globals {
  import opened Options

  // ---------------------------------------------------------------- the assembly and the source module

  datatype DataItem = DataByte(value: int) | OffsetSym(sym: string, offset: int)

  datatype AsmGlobal = AsmGlobal(name: string, align: nat, section: string, data: seq<DataItem>)

  /** What the lifter can see when it is asked for a symbol. */
  datatype World = World(
    intrinsicNames: map<string, string>,
    liftedName: string,
    functions: set<string>,
    globals: seq<AsmGlobal>,
    declarations: set<string>,
    implicitIntrinsics: set<string>)

  const LOCAL_PREFIX := ".L"
  const LOCAL_SUFFIX := "$local"

  predicate StartsWith(s: string, prefix: string) {
    |prefix| <= |s| && s[..|prefix|] == prefix
  }

  predicate EndsWith(s: string, suffix: string) {
    |suffix| <= |s| && s[|s| - |suffix|..] == suffix
  }

  /** Assembler-local spellings of a symbol: `.Lfoo$local` is foo, and `.L.bar` is `.bar`. Prefix and suffix cannot overlap. */
  function Demangle(name: string): string {
    if StartsWith(name, LOCAL_PREFIX) && EndsWith(name, LOCAL_SUFFIX) && 8 <= |name| then name[2..|name| - 6]
    else if StartsWith(name, ".L.") then name[2..]
    else name
  }

  datatype Resolution =
    | StackCheck
    | LiftedFunction
    | SourceFunction(name: string)
    | Data(index: nat)
    | Declaration(name: string)
    | ImplicitIntrinsic(name: string)
    | Missing

  /** The first global from `k` on whose demangled name is `name`. */
  function FirstGlobal(globals: seq<AsmGlobal>, name: string, k: nat): (r: Option<nat>)
    requires k <= |globals|
    ensures r.Some? ==> k <= r.value < |globals| && Demangle(globals[r.value].name) == name
    ensures forall j :: k <= j < (if r.Some? then r.value else |globals|) ==> Demangle(globals[j].name) != name
    decreases |globals| - k
  {
    if k == |globals| then None
    else if Demangle(globals[k].name) == name then Some(k)
    else FirstGlobal(globals, name, k + 1)
  }

  function Renamed(w: World, symbol: string): string {
    if symbol in w.intrinsicNames then w.intrinsicNames[symbol] else symbol
  }

  /** Where a symbol comes from; the order of the cases decides between equal names. */
  function Resolve(w: World, symbol: string): (r: Resolution)
    ensures r.Data? ==> r.index < |w.globals|
  {
    var name := Renamed(w, symbol);
    var g := FirstGlobal(w.globals, name, 0);
    if name == "__stack_chk_fail" then StackCheck
    else if name == w.liftedName then LiftedFunction
    else if name in w.functions then SourceFunction(name)
    else if g.Some? then Data(g.value)
    else if name in w.declarations then Declaration(name)
    else if name in w.implicitIntrinsics then ImplicitIntrinsic(name)
    else Missing
  }

  function SymsOf(data: seq<DataItem>): (r: set<string>)
  {
    set k | 0 <= k < |data| && data[k].OffsetSym? :: data[k].sym
  }

  /** The symbols that the definition of a symbol refers to. */
  function Refs(w: World, symbol: string): set<string> {
    match Resolve(w, symbol)
    case Data(i) => SymsOf(w.globals[i].data)
    case _ => {}
  }

  predicate SelfReferring(w: World, symbol: string) {
    symbol in Refs(w, symbol)
  }

  /** Every symbol in data is spelled the way lookups spell it. */
  ghost predicate DemangledData(w: World) {
    forall i, k :: 0 <= i < |w.globals| && 0 <= k < |w.globals[i].data| && w.globals[i].data[k].OffsetSym? ==>
      Demangle(w.globals[i].data[k].sym) == w.globals[i].data[k].sym
  }

  // ---------------------------------------------------------------- reachability

  ghost predicate Chain(w: World, p: seq<string>) {
    forall i :: 0 <= i < |p| - 1 ==> p[i + 1] in Refs(w, p[i])
  }

  ghost predicate Leads(w: World, p: seq<string>, a: string, b: string) {
    0 < |p| && p[0] == a && p[|p| - 1] == b && Chain(w, p)
  }

  ghost predicate Reachable(w: World, a: string, b: string) {
    exists p :: Leads(w, p, a, b)
  }

  lemma ReachesItself(w: World, a: string)
    ensures Reachable(w, a, a)
  {
    assert Leads(w, [a], a, a);
  }

  lemma ReachesOn(w: World, a: string, b: string, c: string)
    requires Reachable(w, a, b) && c in Refs(w, b)
    ensures Reachable(w, a, c)
  {
    var p :| Leads(w, p, a, b);
    var q := p + [c];
    forall i | 0 <= i < |q| - 1 ensures q[i + 1] in Refs(w, q[i]) {
      if i < |p| - 1 { assert p[i + 1] in Refs(w, p[i]); }
    }
    assert Leads(w, q, a, c);
  }

  /** A set of symbols closed under reference holds everything reachable from its members. */
  lemma {:induction false} ClosedHoldsReachable(w: World, t: set<string>, a: string, p: seq<string>, b: string)
    requires a in t && Leads(w, p, a, b)
    requires forall n <- t :: Refs(w, n) <= t
    ensures b in t
    decreases |p|
  {
    if |p| > 1 {
      assert p[0 + 1] in Refs(w, p[0]);
      var q := p[1..];
      forall i | 0 <= i < |q| - 1 ensures q[i + 1] in Refs(w, q[i]) {
        assert p[i + 1 + 1] in Refs(w, p[i + 1]);
      }
      ClosedHoldsReachable(w, t, p[1], q, b);
    }
  }

  // ---------------------------------------------------------------- the lifted module

  datatype Piece = Literal(value: int) | Address(obj: nat, offset: int)

  /** A global value of the lifted module; its handle is its index. */
  datatype Object =
    | Known(what: Resolution)
    | Defined(index: nat, constant: bool, align: nat, init: seq<Piece>)
    | Placeholder(sym: string)
    | Erased

  datatype Deferred = Deferred(name: string, val: nat)

  /** `log` holds the names that were asked of the lifting routine, in order. */
  datatype Lifted = Lifted(objects: seq<Object>, table: map<string, nat>, queue: seq<Deferred>, log: seq<string>)

  /** The handle of the function being lifted into, which exists from the start. */
  const THE_FUNCTION: nat := 0

  function Start(): Lifted {
    Lifted([Known(LiftedFunction)], map[], [], [])
  }

  function FindDeferred(queue: seq<Deferred>, sym: string): (r: Option<nat>)
    ensures r.Some? ==> Deferred(sym, r.value) in queue
    ensures r.None? ==> forall d <- queue :: d.name != sym
  {
    if queue == [] then None
    else if queue[0].name == sym then Some(queue[0].val)
    else FindDeferred(queue[1..], sym)
  }

  /** One item of a definition: a symbol not lifted yet is deferred behind a placeholder. */
  function AddPiece(s: Lifted, item: DataItem): (Lifted, Piece) {
    match item
    case DataByte(b) => (s, Literal(b))
    case OffsetSym(sym, off) =>
      if sym in s.table then (s, Address(s.table[sym], off))
      else
        var d := FindDeferred(s.queue, sym);
        if d.Some? then (s, Address(d.value, off))
        else (s.(objects := s.objects + [Placeholder(sym)], queue := s.queue + [Deferred(Demangle(sym), |s.objects|)]),
              Address(|s.objects|, off))
  }

  function AddPieces(s: Lifted, data: seq<DataItem>): (r: (Lifted, seq<Piece>))
    ensures |r.1| == |data| && |s.objects| <= |r.0.objects|
  {
    if data == [] then (s, [])
    else
      var (s1, init) := AddPieces(s, data[..|data| - 1]);
      var (s2, piece) := AddPiece(s1, data[|data| - 1]);
      (s2, init + [piece])
  }

  predicate ConstantSection(section: string) {
    StartsWith(section, ".rodata") || section == ".text"
  }

  /** Lift one symbol: the new state and the handle, or None where the program gives up. */
  function LazyAdd(w: World, s: Lifted, symbol: string): (r: Option<(Lifted, nat)>)
    ensures r.Some? && Resolve(w, symbol).Data? ==> |s.objects| <= r.value.1
  {
    var s1 := s.(log := s.log + [symbol]);
    match Resolve(w, symbol)
    case Missing => None
    case LiftedFunction => Some((s1, THE_FUNCTION))
    case Data(i) =>
      var g := w.globals[i];
      var (s2, init) := AddPieces(s1, g.data);
      Some((s2.(objects := s2.objects + [Defined(i, ConstantSection(g.section), g.align, init)]), |s2.objects|))
    case other => Some((s1.(objects := s1.objects + [Known(other)]), |s1.objects|))
  }

  function SwapPiece(p: Piece, original: nat, replacement: nat): Piece {
    if p.Address? && p.obj == original then p.(obj := replacement) else p
  }

  function SwapUses(o: Object, original: nat, replacement: nat): Object {
    if o.Defined? then o.(init := seq(|o.init|, k requires 0 <= k < |o.init| => SwapPiece(o.init[k], original, replacement))) else o
  }

  /** Every use of one handle becomes a use of another. */
  function ReplaceAllUses(objects: seq<Object>, original: nat, replacement: nat): seq<Object> {
    seq(|objects|, i requires 0 <= i < |objects| => SwapUses(objects[i], original, replacement))
  }

  /** Take the oldest deferred symbol, lift it, and put it where its placeholder was. */
  function DrainOne(w: World, s: Lifted): Option<Lifted>
    requires s.queue != [] && s.queue[0].val < |s.objects|
  {
    var d := s.queue[0];
    match LazyAdd(w, s.(queue := s.queue[1..]), d.name)
    case None => None
    case Some((s1, h)) =>
      Some(s1.(objects := ReplaceAllUses(s1.objects, d.val, h)[d.val := Erased], table := s1.table[d.name := h]))
  }
}
