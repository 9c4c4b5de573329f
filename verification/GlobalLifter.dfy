/** The object that lifts globals on demand. */
module GlobalLifters {
  import opened Options
  import opened Globals
  import opened GlobalsProofs
  import opened GlobalLookup

  class GlobalLifter {
    const world: World
    var objects: seq<Object>
    var llvmGlobals: map<string, nat>
    var deferredGlobs: seq<Deferred>
    var log: seq<string>

    function State(): Lifted
      reads this
    {
      Lifted(objects, llvmGlobals, deferredGlobs, log)
    }

    constructor (world: World)
      ensures this.world == world && State() == Start() && Good(world, State())
    {
      this.world := world;
      objects, llvmGlobals, deferredGlobs, log := [Known(LiftedFunction)], map[], [], [];
      new;
      StartIsGood(world);
    }

    /** The first definition of `name` in the assembly. */
    method FindDefinition(name: string) returns (r: Option<nat>)
      ensures r == FirstGlobal(world.globals, name, 0)
    {
      for i := 0 to |world.globals|
        invariant FirstGlobal(world.globals, name, 0) == FirstGlobal(world.globals, name, i)
      {
        if Demangle(world.globals[i].name) == name { return Some(i); }
      }
      r := None;
    }

    method FindQueued(sym: string) returns (r: Option<nat>)
      ensures r == FindDeferred(deferredGlobs, sym)
    {
      for i := 0 to |deferredGlobs|
        invariant FindDeferred(deferredGlobs, sym) == FindDeferred(deferredGlobs[i..], sym)
      {
        if deferredGlobs[i].name == sym { return Some(deferredGlobs[i].val); }
      }
      r := None;
    }

    method NewObject(o: Object) returns (h: nat)
      modifies `objects
      ensures objects == old(objects) + [o] && h == |old(objects)|
    {
      h := |objects|;
      objects := objects + [o];
    }

    /** The pieces of a definition; symbols that are not lifted yet get placeholders. */
    method LiftData(data: seq<DataItem>) returns (init: seq<Piece>)
      modifies `objects, `deferredGlobs
      ensures (State(), init) == AddPieces(old(State()), data)
    {
      init := [];
      for i := 0 to |data|
        invariant (State(), init) == AddPieces(old(State()), data[..i])
      {
        assert data[..i + 1][..i] == data[..i];
        match data[i] {
          case DataByte(b) => init := init + [Literal(b)];
          case OffsetSym(sym, off) =>
            var con: nat;
            if sym in llvmGlobals {
              con := llvmGlobals[sym];
            } else {
              var d := FindQueued(sym);
              if d.Some? {
                con := d.value;
              } else {
                con := NewObject(Placeholder(sym));
                deferredGlobs := deferredGlobs + [Deferred(Demangle(sym), con)];
              }
            }
            init := init + [Address(con, off)];
        }
      }
      assert data[..|data|] == data;
    }

    /** Lift one symbol, or None where the program exits with an error. */
    method LazyAddGlobal(symbol: string) returns (r: Option<nat>)
      modifies `objects, `deferredGlobs, `log
      ensures match LazyAdd(world, old(State()), symbol)
              case None => r == None
              case Some((s, h)) => r == Some(h) && State() == s
      ensures r.Some? <==> Found(world, LookupName(world, symbol))
      ensures LookupName(world, symbol) == world.liftedName != "__stack_chk_fail" ==>
                r == Some(0) && objects == old(objects) && deferredGlobs == old(deferredGlobs)
      ensures r.Some? && LookupName(world, symbol) != world.liftedName ==>
                r.value == |objects| - 1 && StandsFor(world, LookupName(world, symbol), objects[r.value])
    {
      LazyAddMeans(world, State(), symbol);
      hide StandsFor, Found;
      log := log + [symbol];
      var newGlobal := symbol;
      if symbol in world.intrinsicNames { newGlobal := world.intrinsicNames[symbol]; }
      if newGlobal == "__stack_chk_fail" {
        var h := NewObject(Known(StackCheck));
        return Some(h);
      }
      if newGlobal == world.liftedName { return Some(THE_FUNCTION); }
      if newGlobal in world.functions {
        var h := NewObject(Known(SourceFunction(newGlobal)));
        return Some(h);
      }
      var g := FindDefinition(newGlobal);
      if g.Some? {
        var global := world.globals[g.value];
        var init := LiftData(global.data);
        var h := NewObject(Defined(g.value, ConstantSection(global.section), global.align, init));
        return Some(h);
      }
      if newGlobal in world.declarations {
        var h := NewObject(Known(Declaration(newGlobal)));
        return Some(h);
      }
      if newGlobal in world.implicitIntrinsics {
        var h := NewObject(Known(ImplicitIntrinsic(newGlobal)));
        return Some(h);
      }
      r := None;
    }

    /**
     * The handle of a symbol. What the request reaches is lifted on the way, in a loop that
     * fills in the deferred symbols until none is left.
     */
    method LookupGlobal(nm: string) returns (r: Option<nat>)
      requires DemangledData(world) && Good(world, State()) && deferredGlobs == []
      modifies this
      ensures r.None? <==> exists n :: Reachable(world, Demangle(nm), n) && Resolve(world, n).Missing?
      ensures r.None? <==> exists n :: Reachable(world, Demangle(nm), n) && !Found(world, LookupName(world, n))
      ensures r.Some? ==> r.value < |objects| && StandsFor(world, LookupName(world, Demangle(nm)), objects[r.value])
      ensures r.Some? && LookupName(world, Demangle(nm)) == world.liftedName != "__stack_chk_fail" ==> r.value == 0
      ensures r.Some? ==> Good(world, State()) && deferredGlobs == []
      ensures r.Some? ==> forall n :: n in llvmGlobals <==> n in old(llvmGlobals) || Reachable(world, Demangle(nm), n)
      ensures r.Some? ==> forall n <- old(llvmGlobals) :: n in llvmGlobals && llvmGlobals[n] == old(llvmGlobals)[n]
      ensures r.Some? ==> old(objects) <= objects
      ensures r.Some? ==> r.value < |objects| && Represents(world, objects[r.value], Demangle(nm))
      ensures r.Some? ==> Demangle(nm) in llvmGlobals
      ensures r.Some? ==> (r.value == llvmGlobals[Demangle(nm)] <==>
                           Demangle(nm) in old(llvmGlobals) || !SelfReferring(world, Demangle(nm)))
    {
      var name := Demangle(nm);
      ghost var s0 := State();
      AllNamesMean(world, name);
      ReachesItself(world, name);
      hide Demangle, Good, Reachable, Resolve, LazyAdd, Added, Left, SelfReferring, Represents, Found, StandsFor, LookupName;
      if name in llvmGlobals {
        HandleIsRight(world, s0, name);
        AllReached(world, s0, name, s0);
        LiftedAnswer(world, s0, name, llvmGlobals[name]);
        return Some(llvmGlobals[name]);
      }
      FirstKeepsGood(world, s0, name);
      r := LazyAddGlobal(name);
      if r.None? { return; }
      llvmGlobals := llvmGlobals[name := r.value];
      FirstServes(world, s0, LazyAdd(world, s0, name).value.0, r.value, name);
      FirstAnswer(world, s0, LazyAdd(world, s0, name).value.0, r.value, name);
      hide Serving, Answer;
      while deferredGlobs != []
        invariant r.Some?
        invariant Good(world, State()) && Serving(world, s0, name, State()) && Answer(world, State(), name, r.value)
        decreases |Left(world, name, llvmGlobals)|, |deferredGlobs|
      {
        ghost var s := State();
        DrainKeepsGood(world, s);
        var def := deferredGlobs[0];
        deferredGlobs := deferredGlobs[1..];
        var g2 := LazyAddGlobal(def.name);
        if g2.None? { return None; }
        objects := ReplaceAllUses(objects, def.val, g2.value)[def.val := Erased];
        llvmGlobals := llvmGlobals[def.name := g2.value];
        ghost var s1 := LazyAdd(world, s.(queue := s.queue[1..]), def.name).value.0;
        DrainServes(world, s0, name, s, s1, g2.value, State());
        DrainKeepsAnswer(world, s, s1, g2.value, State(), name, r.value);
        DrainDecreases(world, s0, name, s, s1, g2.value, State());
      }
      AllReached(world, s0, name, State());
      AnswerIsRight(world, s0, State(), name, r.value);
      LiftedAnswer(world, State(), name, r.value);
    }
  }
}
