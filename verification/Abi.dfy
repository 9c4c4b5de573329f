/** The ABI boundary: widening sub-word values with unspecified upper bits, the register
    file at function entry, and return values. */
module Abi {
  import opened Options
  import opened Words
  import opened Ir
  import opened Codegen
  import opened CodegenProofs
  import opened DivisionProofs
  import Bpf

  // ---------------------------------------------------------------- widening

  /** An argument or return type, with its extension attributes. */
  datatype ArgType = Ptr | Int(width: nat, sext: bool, zext: bool) {
    predicate Valid() { Int? ==> 1 <= width <= 64 }

    function Bits(): nat { if Ptr? then 64 else width }

    /** How many upper bits of the register the ABI leaves unspecified. */
    function JunkBits(): nat
      requires Valid()
    {
      if Ptr? || sext || zext then 0 else 64 - width
    }

    function JunkBytes(): nat
      requires Valid()
    {
      (JunkBits() + 7) / 8
    }
  }

  /** Code widening the value v of type t to a register; junk comes from byte `off`. */
  function Widen(v: Val, t: ArgType, id: nat, off: nat): Piece
    requires t.Valid()
  {
    var p := Piece([], v, id);
    if t.Bits() == 64 then p
    else if t.zext then p.Casted(ZExt, 64)
    else if t.sext then p.Casted(SExt, 64)
    else
      OntoShifted(Start(id).Def(LoadUnspecified(id, 64 - t.width, off)), v, t.width, id)
  }

  /** The junk shifted above the value, and the value put below it. */
  function OntoShifted(junk: Piece, v: Val, width: nat, id: nat): Piece {
    OntoLow(junk.Def(Cast(id + 1, ZExt, Ref(id), 64)).Def(Binary(id + 2, Shl, 64, Ref(id + 1), Const(64, width))), v, id)
  }

  function OntoLow(shifted: Piece, v: Val, id: nat): Piece {
    shifted.Def(Cast(id + 3, ZExt, v, 64)).Def(Binary(id + 4, Or, 64, Ref(id + 2), Ref(id + 3)))
  }

  /** The widened value: zero or sign bits above the value, or exactly the junk. */
  function Widened(t: ArgType, n: nat, junk: nat): nat
    requires t.Valid()
  {
    if t.Bits() == 64 || t.zext then n
    else if t.sext then Words.SExt(t.width, 64, n)
    else junk * Pow2(t.width) + n
  }

  lemma ShlJunk(width: nat, junk: nat)
    requires 1 <= width < 64 && junk < Pow2(64 - width)
    ensures junk * Pow2(width) + Pow2(width) <= Pow2(64)
    ensures Words.Shl(64, junk, width) == junk * Pow2(width)
  {
    Pow2Add(64 - width, width);
    ProductBound(junk, Pow2(64 - width), Pow2(width));
    WrapIdentity(64, junk * Pow2(width));
  }

  lemma ProductBound(j: nat, a: nat, p: nat)
    requires j < a && p > 0
    ensures j * p + p <= a * p
  {
    MulMono(p, j + 1, a);
    assert p * (j + 1) == j * p + p;
  }

  lemma ExecCast(cfg: Config, d: Data, id: nat, k: CastKind, a: Val, from: nat, to: nat, n: nat, m: nat)
    requires Eval(cfg, a, d.env) == Some(Typed(from, n)) && CastResult(k, from, to, n) == Some(m)
    ensures Exec(cfg, Cast(id, k, a, to), d) == Some(d.Bind(id, to, m))
  {
  }

  lemma JunkComputes(cfg: Config, d: Data, v: Val, width: nat, n: nat, junk: nat, id: nat, off: nat)
    requires 1 <= width < 64 && n < Pow2(width) && Below(v, id)
    requires Eval(cfg, v, d.env) == Some(Typed(width, n))
    requires UnspecifiedAt(cfg.unspecified, off, 64 - width) == Some(junk)
    ensures Computes(cfg, Widen(v, Int(width, false, false), id, off), id, d, 64, junk * Pow2(width) + n)
  {
    ShlJunk(width, junk);
    OrDisjoint(width, junk, n);
    StartComputes(cfg, id, d);
    var hi := junk * Pow2(width);
    var p0 := Start(id);
    DefComputes(cfg, p0, id, d, LoadUnspecified(id, 64 - width, off), 64 - width, junk);
    var p1 := p0.Def(LoadUnspecified(id, 64 - width, off));
    JunkRest(cfg, d, v, width, n, junk, id, p1);
  }

  lemma {:induction false} JunkRest(cfg: Config, d: Data, v: Val, width: nat, n: nat, junk: nat, id: nat, p1: Piece)
    requires 1 <= width < 64 && n < Pow2(width) && Below(v, id) && p1.next == id + 1 && p1.val == Ref(id)
    requires Eval(cfg, v, d.env) == Some(Typed(width, n))
    requires Words.Shl(64, junk, width) == junk * Pow2(width)
    requires BitOr(junk * Pow2(width), n) == junk * Pow2(width) + n
    requires Computes(cfg, p1, id, d, 64 - width, junk)
    ensures Computes(cfg, OntoShifted(p1, v, width, id), id, d, 64, junk * Pow2(width) + n)
  {
    hide Computes, Words.Shl, Words.BitOr, Words.Pow2, Eval;
    var p2 := p1.Def(Cast(id + 1, ZExt, Ref(id), 64));
    var shl := Binary(id + 2, Shl, 64, Ref(id + 1), Const(64, width));
    assert p2 == p1.Casted(ZExt, 64) && p2.next == id + 2 && p2.val == Ref(id + 1);
    assert p2.Def(shl).next == id + 3 && p2.Def(shl).val == Ref(id + 2);
    assert OntoShifted(p1, v, width, id) == OntoLow(p2.Def(shl), v, id);
    hide OntoLow, OntoShifted;
    CastComputes(cfg, p1, id, d, 64 - width, junk, ZExt, 64, junk);
    ShlOnto(cfg, d, width, junk, id, p2);
    OrOnto(cfg, d, v, width, n, junk * Pow2(width), id, p2.Def(shl));
  }

  lemma {:induction false} ShlOnto(cfg: Config, d: Data, width: nat, junk: nat, id: nat, p2: Piece)
    requires 1 <= width < 64 && p2.next == id + 2 && p2.val == Ref(id + 1)
    requires Words.Shl(64, junk, width) == junk * Pow2(width)
    requires Computes(cfg, p2, id, d, 64, junk)
    ensures Computes(cfg, p2.Def(Binary(id + 2, Shl, 64, Ref(id + 1), Const(64, width))), id, d, 64, junk * Pow2(width))
  {
    var d1 := After(cfg, p2, d);
    hide Words.Shl, Words.Pow2;
    ExecBinary(cfg, d1, id + 2, Shl, 64, Ref(id + 1), junk, Const(64, width), width, junk * Pow2(width));
    hide Exec, Eval;
    DefComputes(cfg, p2, id, d, Binary(id + 2, Shl, 64, Ref(id + 1), Const(64, width)), 64, junk * Pow2(width));
  }

  lemma {:induction false} OrOnto(cfg: Config, d: Data, v: Val, width: nat, n: nat, hi: nat, id: nat, p3: Piece)
    requires 1 <= width < 64 && Below(v, id) && p3.next == id + 3 && p3.val == Ref(id + 2)
    requires Eval(cfg, v, d.env) == Some(Typed(width, n)) && BitOr(hi, n) == hi + n
    requires Computes(cfg, p3, id, d, 64, hi)
    ensures Computes(cfg, OntoLow(p3, v, id), id, d, 64, hi + n)
  {
    var zext := Cast(id + 3, ZExt, v, 64);
    LowExtends(cfg, d, v, width, n, hi, id, p3);
    var p4 := p3.Def(zext);
    hide Words.BitOr;
    ExecBinary(cfg, After(cfg, p4, d), id + 4, Or, 64, Ref(id + 2), hi, Ref(id + 3), n, hi + n);
    hide Exec, Eval;
    DefComputes(cfg, p4, id, d, Binary(id + 4, Or, 64, Ref(id + 2), Ref(id + 3)), 64, hi + n);
  }

  lemma {:induction false} LowExtends(cfg: Config, d: Data, v: Val, width: nat, n: nat, hi: nat, id: nat, p3: Piece)
    requires 1 <= width < 64 && Below(v, id) && p3.next == id + 3 && p3.val == Ref(id + 2)
    requires Eval(cfg, v, d.env) == Some(Typed(width, n)) && Computes(cfg, p3, id, d, 64, hi)
    ensures var p4 := p3.Def(Cast(id + 3, ZExt, v, 64));
            && Computes(cfg, p4, id, d, 64, n)
            && Eval(cfg, Ref(id + 2), After(cfg, p4, d).env) == Some(Typed(64, hi))
            && Eval(cfg, Ref(id + 3), After(cfg, p4, d).env) == Some(Typed(64, n))
  {
    ExecCast(cfg, After(cfg, p3, d), id + 3, ZExt, v, width, 64, n, n);
    DefComputes(cfg, p3, id, d, Cast(id + 3, ZExt, v, 64), 64, n);
  }

  /** The widening code computes the widened value. */
  lemma WidenComputes(cfg: Config, d: Data, v: Val, t: ArgType, n: nat, junk: nat, id: nat, off: nat)
    requires t.Valid() && n < Pow2(t.Bits()) && Below(v, id)
    requires Eval(cfg, v, d.env) == Some(Typed(t.Bits(), n))
    requires t.JunkBits() > 0 ==> UnspecifiedAt(cfg.unspecified, off, t.JunkBits()) == Some(junk)
    ensures Computes(cfg, Widen(v, t, id, off), id, d, 64, Widened(t, n, junk))
    ensures Widened(t, n, junk) < Pow2(64)
  {
    var p := Piece([], v, id);
    Pow2Mono(t.Bits(), 64);
    assert Computes(cfg, p, id, d, t.Bits(), n);
    if t.Bits() == 64 {
    } else if t.zext {
      CastComputes(cfg, p, id, d, t.width, n, ZExt, 64, n);
    } else if t.sext {
      CastComputes(cfg, p, id, d, t.width, n, SExt, 64, Words.SExt(t.width, 64, n));
    } else {
      JunkComputes(cfg, d, v, t.width, n, junk, id, off);
      ShlJunk(t.width, junk);
    }
  }

  lemma SExtSplit(w: nat, n: nat)
    requires 1 <= w < 64 && n < Pow2(w)
    ensures Words.SExt(w, 64, n) == Pow2(w) * (if n < Pow2(w - 1) then 0 else Pow2(64 - w) - 1) + n
  {
    Pow2Mono(w, 64);
    if n < Pow2(w - 1) {
      WrapIdentity(64, n);
    } else {
      Pow2Add(64 - w, w);
      WrapIsMod(64, n - Pow2(w));
      NegativeMod(n, Pow2(w), Pow2(64 - w), Pow2(64));
    }
  }

  lemma NegativeMod(n: nat, p: nat, q: nat, m: nat)
    requires n < p && p <= m == q * p
    ensures (n - p) % m == p * (q - 1) + n
  {
    assert p * (q - 1) == m - p;
    DivModUnique(n - p, m, -1, m - p + n);
  }

  /** A caller's truncation recovers the value whatever the attributes and the junk, and the
      bits above it are zero, copies of the sign bit, or exactly the junk. */
  lemma WidenRoundTrip(t: ArgType, n: nat, junk: nat)
    requires t.Valid() && n < Pow2(t.Bits())
    ensures Wrap(t.Bits(), Widened(t, n, junk)) == n
    ensures t.Bits() < 64 && t.zext ==> Widened(t, n, junk) / Pow2(t.width) == 0
    ensures t.Bits() < 64 && !t.zext && t.sext ==>
              Widened(t, n, junk) / Pow2(t.width) == if n < Pow2(t.width - 1) then 0 else Pow2(64 - t.width) - 1
    ensures t.Bits() < 64 && !t.zext && !t.sext ==> Widened(t, n, junk) / Pow2(t.width) == junk
  {
    var w, p := t.Bits(), Pow2(t.Bits());
    WrapIdentity(w, n);
    if w < 64 {
      if t.zext {
        DivModUnique(n, p, 0, n);
      } else if t.sext {
        var hi := if n < Pow2(w - 1) then 0 else Pow2(64 - w) - 1;
        SExtSplit(w, n);
        DivModUnique(Words.SExt(w, 64, n), p, hi, n);
        WrapIsMod(w, Words.SExt(w, 64, n));
      } else {
        DivModUnique(junk * p + n, p, junk, n);
        WrapIsMod(w, junk * p + n);
      }
    }
  }
}
