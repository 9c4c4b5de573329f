/** The flat 64-bit byte memory shared by the BPF machine and the lifted code. */
module Memory {
  import opened Words

  /** Bytes that were never written read as zero; addresses wrap at 2^64. */
  type Memory = map<nat, nat>

  function ByteAt(mem: Memory, a: nat): nat {
    var a := Wrap(64, a);
    if a in mem then Wrap(8, mem[a]) else 0
  }

  function ReadBytes(mem: Memory, a: nat, n: nat): (bytes: seq<nat>)
    ensures |bytes| == n
    ensures forall b <- bytes :: b < 256
    decreases n, a
  {
    Pow2Values();
    if n == 0 then [] else [ByteAt(mem, a)] + ReadBytes(mem, a + 1, n - 1)
  }

  function WriteBytes(mem: Memory, a: nat, bytes: seq<nat>): Memory
    decreases |bytes|
  {
    if bytes == [] then mem else WriteBytes(mem[Wrap(64, a) := bytes[0]], a + 1, bytes[1..])
  }

  function Load(mem: Memory, a: nat, n: nat): nat { FromLE(ReadBytes(mem, a, n)) }

  function Store(mem: Memory, a: nat, n: nat, v: nat): Memory { WriteBytes(mem, a, ToLE(v, n)) }

  /** Whether address `x` is one of the `n` bytes starting at `a`, modulo 2^64. */
  predicate InRange(x: nat, a: nat, n: nat)
    decreases n, a
  {
    n > 0 && (x == Wrap(64, a) || InRange(x, a + 1, n - 1))
  }

  lemma {:induction false} WriteBytesElsewhere(mem: Memory, a: nat, bytes: seq<nat>, x: nat)
    requires !InRange(x, a, |bytes|)
    ensures x in WriteBytes(mem, a, bytes) <==> x in mem
    ensures x in mem ==> WriteBytes(mem, a, bytes)[x] == mem[x]
    decreases |bytes|
  {
    if bytes != [] {
      WriteBytesElsewhere(mem[Wrap(64, a) := bytes[0]], a + 1, bytes[1..], x);
    }
  }

  lemma ModDistinct(a: nat, b: nat, p: nat)
    requires p > 0 && a < b < a + p
    ensures a % p != b % p
  {
    if a % p == b % p {
      assert b - a == p * (b / p - a / p);
      if b / p - a / p >= 1 { MulAtLeast(p, b / p - a / p); }
      if b / p - a / p <= -1 { MulAtLeast(p, a / p - b / p); }
      assert false;
    }
  }

  lemma {:induction false} NotCovered(a: nat, b: nat, n: nat)
    requires a < b && b + n <= a + Pow2(64)
    ensures !InRange(Wrap(64, a), b, n)
    decreases n
  {
    if n > 0 {
      ModDistinct(a, b, Pow2(64));
      WrapIsMod(64, a);
      WrapIsMod(64, b);
      NotCovered(a, b + 1, n - 1);
    }
  }

  lemma {:induction false} ReadWritten(mem: Memory, a: nat, bytes: seq<nat>)
    requires |bytes| <= 8
    requires forall b <- bytes :: b < 256
    ensures ReadBytes(WriteBytes(mem, a, bytes), a, |bytes|) == bytes
    decreases |bytes|
  {
    if bytes != [] {
      var mem1 := mem[Wrap(64, a) := bytes[0]];
      var rest := bytes[1..];
      assert bytes[0] in bytes;
      forall b | b in rest ensures b < 256 { assert b in bytes; }
      ReadWritten(mem1, a + 1, rest);
      Pow2Values();
      NotCovered(a, a + 1, |rest|);
      WriteBytesElsewhere(mem1, a + 1, rest, Wrap(64, a));
      WrapIdentity(8, bytes[0]);
      assert WriteBytes(mem, a, bytes) == WriteBytes(mem1, a + 1, rest);
      assert ByteAt(WriteBytes(mem, a, bytes), a) == bytes[0];
    }
  }

  /** A store followed by a load of the same width at the same address returns the
      truncated value, and every other byte of memory is unchanged. */
  lemma {:induction false} StoreThenLoad(mem: Memory, a: nat, n: nat, v: nat)
    requires n <= 8
    ensures Load(Store(mem, a, n, v), a, n) == Wrap(8 * n, v)
    ensures forall x: nat :: !InRange(x, a, n) ==>
              (x in Store(mem, a, n, v) <==> x in mem)
              && (x in mem ==> Store(mem, a, n, v)[x] == mem[x])
  {
    ReadWritten(mem, a, ToLE(v, n));
    FromToLE(v, n);
    WrapIsMod(8 * n, v);
    forall x: nat | !InRange(x, a, n)
      ensures (x in Store(mem, a, n, v) <==> x in mem)
      ensures x in mem ==> Store(mem, a, n, v)[x] == mem[x]
    {
      WriteBytesElsewhere(mem, a, ToLE(v, n), x);
    }
  }

  /** The big-endian reading of `n` bytes at `a`. */
  function LoadBE(mem: Memory, a: nat, n: nat): nat
    decreases n, a
  {
    if n == 0 then 0 else ByteAt(mem, a) * Pow2(8 * (n - 1)) + LoadBE(mem, a + 1, n - 1)
  }

  /** Byte-swapping a loaded little-endian value gives the big-endian reading of the same bytes. */
  lemma {:induction false} SwapIsBigEndian(mem: Memory, a: nat, n: nat)
    ensures ByteSwap(n, Load(mem, a, n)) == LoadBE(mem, a, n)
    decreases n
  {
    if n > 0 {
      var rest := ReadBytes(mem, a + 1, n - 1);
      assert ReadBytes(mem, a, n)[1..] == rest;
      Pow2Values();
      assert ByteAt(mem, a) < 256;
      DivModUnique(Load(mem, a, n), 256, FromLE(rest), ByteAt(mem, a));
      SwapIsBigEndian(mem, a + 1, n - 1);
    }
  }

  lemma {:induction false} LoadInRange(mem: Memory, a: nat, n: nat)
    ensures Load(mem, a, n) < Pow2(8 * n)
  {
    FromLEInRange(ReadBytes(mem, a, n));
  }
}
