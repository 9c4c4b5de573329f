/** Machine words as natural numbers, and the bit-level operations that both the BPF
    instruction set and the lifted IR are defined from. */
module Words {

  function Power(n: nat): (p: nat)
    ensures p > 0
  {
    if n == 0 then 1 else 2 * Power(n - 1)
  }

  /** 2^n. The machine widths are written out, so that no proof unfolds them. */
  function Pow2(n: nat): (p: nat)
    ensures p > 0
  {
    if n == 64 then 0x1_0000_0000_0000_0000
    else if n == 32 then 0x1_0000_0000
    else if n == 16 then 0x1_0000
    else if n == 8 then 0x100
    else Power(n)
  }

  lemma {:induction false} Pow2IsPower(n: nat)
    ensures Pow2(n) == Power(n)
  {
    assert Power(8) == 0x100;
    PowerAdd(8, 8);
    assert Power(16) == 0x1_0000;
    PowerAdd(16, 16);
    assert Power(32) == 0x1_0000_0000;
    PowerAdd(32, 32);
  }

  lemma {:induction false} PowerAdd(m: nat, n: nat)
    ensures Power(m + n) == Power(m) * Power(n)
    decreases m
  {
    if m > 0 {
      PowerAdd(m - 1, n);
    }
  }

  lemma Pow2Step(n: nat)
    ensures Pow2(0) == 1
    ensures n > 0 ==> Pow2(n) == 2 * Pow2(n - 1)
  {
    Pow2IsPower(n);
    if n > 0 { Pow2IsPower(n - 1); }
  }

  lemma Pow2Values()
    ensures Pow2(0) == 1 && Pow2(3) == 8 && Pow2(8) == 0x100 && Pow2(16) == 0x1_0000
    ensures Pow2(32) == 0x1_0000_0000 && Pow2(64) == 0x1_0000_0000_0000_0000
  {
  }

  lemma Pow2Add(m: nat, n: nat)
    ensures Pow2(m + n) == Pow2(m) * Pow2(n)
  {
    Pow2IsPower(m); Pow2IsPower(n); Pow2IsPower(m + n);
    PowerAdd(m, n);
  }

  lemma {:induction false} Pow2Mono(m: nat, n: nat)
    requires m <= n
    ensures Pow2(m) <= Pow2(n)
    decreases n
  {
    if m < n {
      Pow2Mono(m, n - 1);
      Pow2Step(n);
    }
  }

  /** The low `bits` bits of an integer, negative integers in two's complement:
      the remainder modulo 2^bits (WrapIsMod), taken bit by bit. */
  function Wrap(bits: nat, x: int): (n: nat)
    ensures n < Pow2(bits)
  {
    LowBitsBound(bits, x);
    LowBits(bits, x)
  }

  function LowBits(bits: nat, x: int): nat
    decreases bits, x
  {
    if bits == 0 then 0 else x % 2 + 2 * LowBits(bits - 1, x / 2)
  }

  lemma {:induction false} LowBitsBound(bits: nat, x: int)
    ensures LowBits(bits, x) < Pow2(bits)
    decreases bits
  {
    Pow2Step(bits);
    if bits > 0 {
      LowBitsBound(bits - 1, x / 2);
    }
  }

  lemma {:induction false} WrapIsMod(bits: nat, x: int)
    ensures Wrap(bits, x) == x % Pow2(bits)
    decreases bits
  {
    Pow2Step(bits);
    if bits > 0 {
      WrapIsMod(bits - 1, x / 2);
      ModHalf(x, Pow2(bits - 1));
    }
  }

  lemma {:induction false} WrapIdentity(bits: nat, x: nat)
    requires x < Pow2(bits)
    ensures Wrap(bits, x) == x
    decreases bits
  {
    Pow2Step(bits);
    if bits > 0 {
      WrapIdentity(bits - 1, x / 2);
    }
  }

  lemma {:induction false} WrapWrap(m: nat, n: nat, x: int)
    requires m <= n
    ensures Wrap(m, Wrap(n, x)) == Wrap(m, x)
    decreases m
  {
    if m > 0 {
      var w := LowBits(n - 1, x / 2);
      assert LowBits(n, x) == x % 2 + 2 * w;
      WrapWrap(m - 1, n - 1, x / 2);
      assert LowBits(n, x) % 2 == x % 2 && LowBits(n, x) / 2 == w;
    }
  }

  lemma ModInRange(x: int, p: int)
    requires p > 0
    ensures 0 <= x % p < p
  {
  }

  lemma ModSmall(x: int, p: int)
    requires 0 <= x < p
    ensures x % p == x
  {
  }

  /** The two's complement reading of a word. */
  function Signed(bits: nat, n: nat): (x: int)
    requires bits > 0
  {
    if n < Pow2(bits - 1) then n else n - Pow2(bits)
  }

  function SExt(from: nat, to: nat, n: nat): (r: nat)
    requires from > 0
    ensures r < Pow2(to)
  {
    Wrap(to, Signed(from, n))
  }

  lemma {:induction false} SignedRange(bits: nat, n: nat)
    requires bits > 0 && n < Pow2(bits)
    ensures -(Pow2(bits - 1) as int) <= Signed(bits, n) < Pow2(bits - 1)
    ensures Wrap(bits, Signed(bits, n)) == n
  {
    var p := Pow2(bits);
    ModSmall(n, p);
    WrapIsMod(bits, Signed(bits, n));
    Pow2Step(bits);
    if n >= Pow2(bits - 1) {
      ModShift(n, p);
    }
  }

  lemma ModShift(n: int, p: nat)
    requires 0 <= n < p
    ensures (n - p) % p == n
  {
  }

  // ---- bitwise operations, bit by bit ----

  function BitAnd(a: nat, b: nat): nat {
    if a == 0 || b == 0 then 0
    else (if a % 2 == 1 && b % 2 == 1 then 1 else 0) + 2 * BitAnd(a / 2, b / 2)
  }

  function BitOr(a: nat, b: nat): nat
    decreases a + b
  {
    if a == 0 then b else if b == 0 then a
    else (if a % 2 == 1 || b % 2 == 1 then 1 else 0) + 2 * BitOr(a / 2, b / 2)
  }

  function BitXor(a: nat, b: nat): nat
    decreases a + b
  {
    if a == 0 then b else if b == 0 then a
    else (if a % 2 != b % 2 then 1 else 0) + 2 * BitXor(a / 2, b / 2)
  }

  lemma {:induction false} BitOpsInRange(bits: nat, a: nat, b: nat)
    requires a < Pow2(bits) && b < Pow2(bits)
    ensures BitAnd(a, b) < Pow2(bits)
    ensures BitOr(a, b) < Pow2(bits)
    ensures BitXor(a, b) < Pow2(bits)
    decreases bits
  {
    Pow2Step(bits);
    if a != 0 && b != 0 {
      BitOpsInRange(bits - 1, a / 2, b / 2);
    }
  }

  /** Masking with 2^k - 1 is the remainder modulo 2^k. */
  lemma {:induction false} MaskIsMod(k: nat, b: nat)
    ensures BitAnd(Pow2(k) - 1, b) == b % Pow2(k)
    decreases k
  {
    Pow2Step(k);
    if k > 0 {
      var m := Pow2(k) - 1;
      assert m / 2 == Pow2(k - 1) - 1 && m % 2 == 1;
      MaskIsMod(k - 1, b / 2);
      ModHalf(b, Pow2(k - 1));
    }
  }

  lemma ModHalf(b: int, p: nat)
    requires p > 0
    ensures b % (2 * p) == b % 2 + 2 * (b / 2 % p)
  {
    var q := b / 2 / p;
    var r := b / 2 % p;
    assert b / 2 == q * p + r;
    var t := b % 2 + 2 * r;
    assert b == 2 * (b / 2) + b % 2;
    assert b == (2 * p) * q + t by {
      assert 2 * (q * p) == (2 * p) * q;
    }
    assert 0 <= t < 2 * p;
    DivModUnique(b, 2 * p, q, t);
  }

  lemma DivModUnique(x: int, d: int, q: int, r: int)
    requires d > 0 && 0 <= r < d && x == d * q + r
    ensures x / d == q && x % d == r
  {
    var q', r' := x / d, x % d;
    assert d * (q - q') == r' - r;
    if q > q' {
      assert d * (q - q') >= d by { MulAtLeast(d, q - q'); }
    } else if q < q' {
      MulAtLeast(d, q' - q);
      assert false;
    }
  }

  lemma MulPositive(a: nat, b: nat)
    requires a > 0 && b > 0
    ensures a * b > 0
  {
  }

  lemma MulAtLeast(d: int, k: int)
    requires d > 0 && k >= 1
    ensures d * k >= d
  {
  }

  /** Or-ing a value into the zero bits below a shifted one is addition. */
  lemma {:induction false} OrDisjoint(k: nat, hi: nat, lo: nat)
    requires lo < Pow2(k)
    ensures BitOr(hi * Pow2(k), lo) == hi * Pow2(k) + lo
    decreases k
  {
    Pow2Step(k);
    if k > 0 && hi != 0 && lo != 0 {
      var half := hi * Pow2(k - 1);
      MulPositive(hi, Pow2(k - 1));
      assert hi * Pow2(k) == 2 * half;
      OrDisjoint(k - 1, hi, lo / 2);
      assert BitOr(2 * half, lo) == lo % 2 + 2 * BitOr(half, lo / 2);
    }
  }

  // ---- shifts ----

  function Shl(bits: nat, a: nat, k: nat): nat { Wrap(bits, a * Pow2(k)) }
  /** Floor division by 2^k (ShiftRightIsDiv), one bit at a time. */
  function ShiftRight(x: int, k: nat): (r: int)
    ensures 0 <= x ==> 0 <= r <= x
    decreases k
  {
    if k == 0 then x else ShiftRight(x / 2, k - 1)
  }

  lemma {:induction false} ShiftRightIsDiv(x: int, k: nat)
    ensures ShiftRight(x, k) == x / Pow2(k)
    decreases k
  {
    Pow2Step(k);
    if k > 0 {
      ShiftRightIsDiv(x / 2, k - 1);
      HalfDiv(x, Pow2(k - 1));
    } else {
      DivOne(x);
    }
  }

  lemma DivOne(x: int)
    ensures x / 1 == x
  {
  }

  lemma HalfDiv(x: int, p: nat)
    requires p > 0
    ensures x / (2 * p) == x / 2 / p
  {
    var q, r := x / 2 / p, x / 2 % p;
    assert x / 2 == p * q + r;
    assert (2 * p) * q == 2 * (p * q);
    DivModUnique(x, 2 * p, q, 2 * r + x % 2);
  }

  function LShr(a: nat, k: nat): nat { ShiftRight(a, k) }

  function AShr(bits: nat, a: nat, k: nat): nat
    requires bits > 0
  {
    Wrap(bits, ShiftRight(Signed(bits, a), k))
  }

  // ---- signed division, truncating toward zero ----

  function TruncDiv(a: int, b: int): int
    requires b != 0
  {
    if a >= 0 then
      if b > 0 then a / b else -(a / -b)
    else
      if b > 0 then -(-a / b) else -a / -b
  }

  function TruncRem(a: int, b: int): int
    requires b != 0
  {
    a - b * TruncDiv(a, b)
  }

  // ---- bytes ----

  /** Little-endian value of a byte sequence. */
  function FromLE(bytes: seq<nat>): nat {
    if bytes == [] then 0 else bytes[0] + 256 * FromLE(bytes[1..])
  }

  /** The `n` low bytes of `v`, little end first. */
  function ToLE(v: nat, n: nat): (bytes: seq<nat>)
    ensures |bytes| == n
    ensures forall b <- bytes :: b < 256
  {
    if n == 0 then [] else [v % 256] + ToLE(v / 256, n - 1)
  }

  lemma {:induction false} FromToLE(v: nat, n: nat)
    ensures FromLE(ToLE(v, n)) == v % Pow2(8 * n)
    decreases n
  {
    if n == 0 {
      assert v % 1 == 0;
    } else {
      FromToLE(v / 256, n - 1);
      Pow2Add(8, 8 * (n - 1));
      Pow2Values();
      ModSplit(v, 256, Pow2(8 * (n - 1)));
    }
  }

  lemma ModSplit(v: nat, c: nat, p: nat)
    requires c > 0 && p > 0
    ensures c * p > 0
    ensures v % (c * p) == v % c + c * (v / c % p)
  {
    var q, r := v / c / p, v / c % p;
    assert v / c == q * p + r;
    var t := v % c + c * r;
    assert v == c * (v / c) + v % c;
    assert v == (c * p) * q + t by {
      assert c * (q * p) == (c * p) * q;
      assert c * (q * p + r) == c * (q * p) + c * r;
    }
    assert c * r <= c * (p - 1) by { MulMono(c, r, p - 1); }
    assert c * (p - 1) == c * p - c;
    assert 0 <= t < c * p;
    DivModUnique(v, c * p, q, t);
  }

  lemma MulMono(c: int, a: int, b: int)
    requires c >= 0 && a <= b
    ensures c * a <= c * b
  {
  }

  lemma {:induction false} FromLEInRange(bytes: seq<nat>)
    requires forall b <- bytes :: b < 256
    ensures FromLE(bytes) < Pow2(8 * |bytes|)
    decreases |bytes|
  {
    if bytes != [] {
      assert bytes[0] in bytes;
      forall b | b in bytes[1..] ensures b < 256 { assert b in bytes; }
      FromLEInRange(bytes[1..]);
      Pow2Add(8, 8 * (|bytes| - 1));
      Pow2Values();
    }
  }

  /** Byte reversal of an `n`-byte word. */
  function ByteSwap(n: nat, v: nat): (r: nat) {
    if n == 0 then 0 else v % 256 * Pow2(8 * (n - 1)) + ByteSwap(n - 1, v / 256)
  }

  lemma {:induction false} ByteSwapInRange(n: nat, v: nat)
    ensures ByteSwap(n, v) < Pow2(8 * n)
    decreases n
  {
    if n > 0 {
      ByteSwapInRange(n - 1, v / 256);
      Pow2Add(8, 8 * (n - 1));
      Pow2Values();
      MulMono(Pow2(8 * (n - 1)), v % 256, 255);
    }
  }
}
