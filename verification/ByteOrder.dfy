/** Memory as the instructions see it: what is stored is what is loaded, in the byte order asked for. */
module ByteOrder {
  import opened Words
  import opened Memory
  import opened Bpf

  predicate IsStore(i: Insn) { i.StoreMem? || i.StoreImm? }

  /** What a store puts at its address. */
  function Stored(i: Insn, c: Core): nat
    requires |c.regs| == 12 && Decodable(i) && IsStore(i)
  {
    Wrap(i.size.Bits(), if i.StoreMem? then c.regs[i.value] else Imm32(i.imm))
  }

  function Extended(i: Insn, v: nat): nat
    requires Decodable(i) && i.LoadMem?
  {
    if i.sext then SExt(i.size.Bits(), 64, v) else v
  }

  /**
   * A load right after a store at the same address and of the same size: the register holds the stored value, cut to
   * its size and extended as the load says, every other register is unchanged, and so is every byte beside the stored ones.
   */
  lemma {:induction false} StoredIsLoaded(o: Oracle, u: nat, st: Insn, ld: Insn, c: Core)
    requires |c.regs| == 12 && Decodable(st) && Decodable(ld) && IsStore(st) && ld.LoadMem?
    requires ld.size == st.size && ld.base == st.base && ld.off == st.off
    ensures var c' := Effect(o, u + 1, ld, Effect(o, u, st, c));
            && c'.regs == c.regs[ld.dst := Extended(ld, Stored(st, c))]
            && c'.calls == c.calls
            && forall x: nat :: !InRange(x, Address(c, st.base, st.off), st.size.Bytes()) ==>
                 (x in c'.mem <==> x in c.mem) && (x in c.mem ==> c'.mem[x] == c.mem[x])
  {
    hide Store, Load, InRange, Wrap, SExt, Pow2, Imm32, Off16;
    var a, n := Address(c, st.base, st.off), st.size.Bytes();
    var v := Stored(st, c);
    StoreThenLoad(c.mem, a, n, v);
    WrapIdentity(8 * n, v);
    assert Effect(o, u, st, c) == c.(mem := Store(c.mem, a, n, v));
  }

  /** Swapping a loaded value's bytes (BE16, BE32 and BE64 on a little-endian machine) reads the same bytes big-endian. */
  lemma {:induction false} SwappedLoadIsBigEndian(o: Oracle, u: nat, ld: Insn, be: Insn, c: Core)
    requires |c.regs| == 12 && Decodable(ld) && Decodable(be)
    requires ld.LoadMem? && !ld.sext && be.Endian? && be.swap && be.size == ld.size && be.dst == ld.dst
    ensures var c' := Effect(o, u + 1, be, Effect(o, u, ld, c));
            c'.regs[ld.dst] == LoadBE(c.mem, Address(c, ld.base, ld.off), ld.size.Bytes()) && c'.mem == c.mem
  {
    var a, n := Address(c, ld.base, ld.off), ld.size.Bytes();
    LoadInRange(c.mem, a, n);
    WrapIdentity(8 * n, Load(c.mem, a, n));
    SwapIsBigEndian(c.mem, a, n);
  }

  /** A load puts the byte at its address lowest, and each next byte one place higher. */
  lemma {:induction false} LoadedBytes(mem: Memory, a: nat, n: nat, k: nat)
    requires k < n
    ensures Load(mem, a, n) / Pow2(8 * k) % 256 == ByteAt(mem, a + k)
    decreases k
  {
    var rest := ReadBytes(mem, a + 1, n - 1);
    assert ReadBytes(mem, a, n)[1..] == rest;
    Pow2Values();
    assert ByteAt(mem, a) < 256;
    DivModUnique(Load(mem, a, n), 256, FromLE(rest), ByteAt(mem, a));
    if k == 0 {
      DivOne(Load(mem, a, n));
    } else {
      Pow2Add(8, 8 * (k - 1));
      DivTwice(Load(mem, a, n), 256, Pow2(8 * (k - 1)));
      LoadedBytes(mem, a + 1, n - 1, k - 1);
    }
  }

  lemma DivTwice(x: nat, c: nat, p: nat)
    requires c > 0 && p > 0
    ensures c * p > 0 && x / (c * p) == x / c / p
  {
    MulPositive(c, p);
    var u, v := x / c, x % c;
    var q, r := u / p, u % p;
    assert x == c * u + v && u == p * q + r;
    MulMono(c, r, p - 1);
    Regroup(c, p, q, r);
    DivModUnique(x, c * p, q, c * r + v);
  }

  lemma Regroup(c: int, p: int, q: int, r: int)
    ensures c * (p * q + r) == (c * p) * q + c * r && c * (p - 1) == c * p - c
  {
  }
}
