/** What the machine's arithmetic means, said in integers and in single bits. */
module ArithmeticLaws {
  import opened Words
  import opened Bpf

  // ---------------------------------------------------------------- readings of a word

  /** The signed reading is the one number in the signed range that is the word modulo 2^bits. */
  lemma {:induction false} SignedIsUnique(bits: nat, n: nat, x: int)
    requires bits > 0 && n < Pow2(bits)
    ensures x == Signed(bits, n)
            <==> -(Pow2(bits - 1) as int) <= x < Pow2(bits - 1) && x % Pow2(bits) == n
  {
    var p := Pow2(bits);
    Pow2Step(bits);
    SignedRange(bits, n);
    WrapIsMod(bits, Signed(bits, n));
    if -(Pow2(bits - 1) as int) <= x < Pow2(bits - 1) && x % p == n {
      SameResidue(x, Signed(bits, n), p);
    }
  }

  lemma SameResidue(x: int, y: int, p: nat)
    requires p > 0 && x % p == y % p && -(p as int) < x - y < p
    ensures x == y
  {
    var k := x / p - y / p;
    assert x - y == p * k;
    if k >= 1 { MulAtLeast(p, k); } else if k <= -1 { MulAtLeast(p, -k); }
  }

  /** A number in the signed range survives being cut to a word. */
  lemma {:induction false} SignedOfWrap(bits: nat, x: int)
    requires bits > 0 && -(Pow2(bits - 1) as int) <= x < Pow2(bits - 1)
    ensures Signed(bits, Wrap(bits, x)) == x
  {
    WrapIsMod(bits, x);
    SignedIsUnique(bits, Wrap(bits, x), x);
  }

  /** Sign extension keeps the signed reading and the low bits. */
  lemma {:induction false} SExtKeepsValue(from: nat, to: nat, n: nat)
    requires 0 < from <= to && n < Pow2(from)
    ensures Signed(to, SExt(from, to, n)) == Signed(from, n)
    ensures SExt(from, to, n) % Pow2(from) == n
  {
    SignedRange(from, n);
    Pow2Mono(from - 1, to - 1);
    SignedOfWrap(to, Signed(from, n));
    WrapWrap(from, to, Signed(from, n));
    WrapIsMod(from, SExt(from, to, n));
  }

  // ---------------------------------------------------------------- division

  /** Division that truncates toward zero: the remainder is smaller than the divisor and has the dividend's sign. */
  predicate Truncates(a: int, b: int, q: int, r: int) {
    a == b * q + r && Abs(r) < Abs(b) && (r == 0 || (r < 0 <==> a < 0))
  }

  function Abs(x: int): (r: int)
    ensures 0 <= r
  {
    if x < 0 then -x else x
  }

  lemma TruncDivTruncates(a: int, b: int)
    requires b != 0
    ensures Truncates(a, b, TruncDiv(a, b), TruncRem(a, b)) && Abs(TruncDiv(a, b)) <= Abs(a)
    ensures b != -1 && b != 1 && a != 0 ==> Abs(TruncDiv(a, b)) < Abs(a)
  {
    var q, s := TruncDivParts(a, b);
    hide TruncDiv;
    SignsOut(b, q, a < 0);
    WithSigns(a, b, s, TruncDiv(a, b), TruncRem(a, b));
  }

  lemma TruncDivParts(a: int, b: int) returns (q: int, s: int)
    requires b != 0
    ensures TruncDiv(a, b) == if (a < 0) == (b < 0) then q else -q
    ensures s == Abs(b) * q && s <= Abs(a) < s + Abs(b)
    ensures 0 <= q <= Abs(a) && (b != -1 && b != 1 && a != 0 ==> q < Abs(a))
  {
    hide TruncDiv, Quotient;
    TruncDivSigned(a, b);
    q := Quotient(Abs(a), Abs(b));
    s := Divided(Abs(a), Abs(b));
  }

  function Quotient(m: int, n: int): int
    requires m >= 0 && n > 0
  {
    m / n
  }

  lemma TruncDivSigned(a: int, b: int)
    requires b != 0
    ensures TruncDiv(a, b) == if (a < 0) == (b < 0) then Quotient(Abs(a), Abs(b)) else -Quotient(Abs(a), Abs(b))
  {
  }

  lemma Divided(m: int, n: int) returns (s: int)
    requires m >= 0 && n > 0
    ensures s == n * Quotient(m, n) && s <= m < s + n
    ensures 0 <= Quotient(m, n) <= m && (n > 1 && m > 0 ==> Quotient(m, n) < m)
  {
    s := n * (m / n);
    assert m == s + m % n;
    QuotientSmaller(m, n);
  }

  lemma WithSigns(a: int, b: int, s: int, q: int, r: int)
    requires s <= Abs(a) < s + Abs(b) && b * q == (if a < 0 then -s else s) && r == a - b * q
    ensures Truncates(a, b, q, r)
  {
  }

  lemma SignsOut(b: int, q: int, negative: bool)
    ensures b * (if negative == (b < 0) then q else -q) == if negative then -(Abs(b) * q) else Abs(b) * q
  {
    NegatedFactor(b, q);
  }

  lemma NegatedFactor(b: int, q: int)
    ensures b * -q == -(b * q) && -b * q == -(b * q) && -b * -q == b * q
  {
  }

  lemma QuotientSmaller(m: int, n: int)
    requires m >= 0 && n > 0
    ensures m / n <= m
    ensures n > 1 && m > 0 ==> m / n < m
  {
    var q := m / n;
    assert m == n * q + m % n;
    if q > 0 {
      MulMono(q, 1, n);
      if n > 1 { MulMono(q, 2, n); }
    }
  }

  /** There is only one way to divide so. */
  lemma {:induction false} TruncatesOnce(a: int, b: int, q: int, r: int, q': int, r': int)
    requires b != 0 && Truncates(a, b, q, r) && Truncates(a, b, q', r')
    ensures q == q' && r == r'
  {
    var k := q - q';
    assert b * k == r' - r;
    if k != 0 { ProductAtLeast(b, k); }
  }

  lemma ProductAtLeast(b: int, k: int)
    requires k != 0
    ensures Abs(b * k) >= Abs(b)
  {
    MulMono(Abs(b), 1, Abs(k));
    NegatedFactor(b, k);
  }

  /** The quotient that does not fit: the smallest number divided by -1. */
  predicate Overflows(bits: nat, a: nat, b: nat)
    requires bits > 0
  {
    Signed(bits, a) == -(Pow2(bits - 1) as int) && Signed(bits, b) == -1
  }

  /**
   * RFC 9669, section 4.1: the signed operations truncate toward zero at every width. A zero divisor gives quotient 0
   * and the dividend as the remainder, the quotient that does not fit gives the dividend and remainder 0.
   */
  lemma {:induction false} SignedDivisionTruncates(bits: nat, a: nat, b: nat)
    requires bits > 0 && a < Pow2(bits) && b < Pow2(bits)
    ensures var q, r := Signed(bits, AluResult(SDiv, bits, a, b)), Signed(bits, AluResult(SMod, bits, a, b));
            if b == 0 then q == 0 && r == Signed(bits, a)
            else if Overflows(bits, a, b) then q == Signed(bits, a) && r == 0
            else Truncates(Signed(bits, a), Signed(bits, b), q, r)
  {
    var x, y := Signed(bits, a), Signed(bits, b);
    Pow2Step(bits);
    SignedRange(bits, a);
    SignedRange(bits, b);
    if b != 0 {
      TruncDivTruncates(x, y);
      var q, r := TruncDiv(x, y), TruncRem(x, y);
      SignedOfWrap(bits, r);
      hide TruncDiv, TruncRem, Wrap;
      if Overflows(bits, a, b) {
        OverflowWraps(bits, x, q, r);
      } else {
        SignedOfWrap(bits, q);
      }
    }
  }

  lemma {:induction false} OverflowWraps(bits: nat, x: int, q: int, r: int)
    requires bits > 0 && x == -(Pow2(bits - 1) as int) && Truncates(x, -1, q, r)
    ensures Signed(bits, Wrap(bits, q)) == x && r == 0
  {
    var p := Pow2(bits);
    Pow2Step(bits);
    assert q == -x && q - x == p;
    WrapIsMod(bits, q);
    WrapIsMod(bits, x);
    assert q % p == x % p by { ModShift1(x, p); }
    SignedOfWrap(bits, x);
  }

  lemma ModShift1(x: int, p: nat)
    requires p > 0
    ensures (x + p) % p == x % p
  {
    DivModUnique(x + p, p, x / p + 1, x % p);
  }

  /** The unsigned operations; a zero divisor gives quotient 0 and the dividend as the remainder. */
  lemma UnsignedDivisionDivides(bits: nat, a: nat, b: nat)
    requires bits > 0 && a < Pow2(bits) && b < Pow2(bits)
    ensures var q, r := AluResult(Div, bits, a, b), AluResult(Mod, bits, a, b);
            if b == 0 then q == 0 && r == a else a == b * q + r && r < b
  {
  }

  // ---------------------------------------------------------------- sums and products

  /** Sum, difference and product are those of the integers modulo 2^bits, whichever way the words are read. */
  lemma {:induction false} SumsAreModular(bits: nat, a: nat, b: nat)
    requires bits > 0 && a < Pow2(bits) && b < Pow2(bits)
    ensures var p := Pow2(bits);
            && AluResult(Add, bits, a, b) == (Signed(bits, a) + Signed(bits, b)) % p
            && AluResult(Sub, bits, a, b) == (Signed(bits, a) - Signed(bits, b)) % p
            && AluResult(Mul, bits, a, b) == (Signed(bits, a) * Signed(bits, b)) % p
  {
    var p, x, y := Pow2(bits), Signed(bits, a), Signed(bits, b);
    WrapIsMod(bits, a + b);
    WrapIsMod(bits, a - b);
    WrapIsMod(bits, a * b);
    var i, j := if a == x then 0 else 1, if b == y then 0 else 1;
    assert a == x + p * i && b == y + p * j;
    hide Signed, Wrap, Pow2;
    AlikeModulo(x, y, p, i, j);
  }

  lemma AlikeModulo(x: int, y: int, p: nat, i: int, j: int)
    requires p > 0
    ensures var a, b := x + p * i, y + p * j;
            (a + b) % p == (x + y) % p && (a - b) % p == (x - y) % p && (a * b) % p == (x * y) % p
  {
    var a, b := x + p * i, y + p * j;
    assert a + b == (x + y) + p * (i + j) && a - b == (x - y) + p * (i - j);
    ModAdds(x + y, p, i + j);
    ModAdds(x - y, p, i - j);
    Expand(x, y, p, i, j);
    ModAdds(x * y, p, i * y + j * x + p * (i * j));
  }

  lemma Expand(x: int, y: int, p: int, i: int, j: int)
    ensures (x + p * i) * (y + p * j) == x * y + p * (i * y + j * x + p * (i * j))
  {
    assert (x + p * i) * (y + p * j) == x * y + x * (p * j) + (p * i) * y + (p * i) * (p * j);
    assert x * (p * j) == p * (j * x) && (p * i) * y == p * (i * y) && (p * i) * (p * j) == p * (p * (i * j));
  }

  lemma ModAdds(x: int, p: nat, k: int)
    requires p > 0
    ensures (x + p * k) % p == x % p
  {
    assert x + p * k == p * (x / p + k) + x % p;
    DivModUnique(x + p * k, p, x / p + k, x % p);
  }

  /** Negation gives the number that adds up to zero. */
  lemma {:induction false} NegationCancels(c: Core, w: Width, dst: Reg)
    requires |c.regs| == 12
    ensures (RegisterResult(Insn.Neg(w, dst), c) + c.regs[dst]) % Pow2(w.Bits()) == 0
  {
    var p, v := Pow2(w.Bits()), c.regs[dst];
    hide Wrap, Pow2, RegisterResult;
    NegationIs(c, w, dst);
    CancelsModulo(v, p);
  }

  lemma NegationIs(c: Core, w: Width, dst: Reg)
    requires |c.regs| == 12
    ensures RegisterResult(Insn.Neg(w, dst), c) == (0 - c.regs[dst] % Pow2(w.Bits())) % Pow2(w.Bits())
  {
    WrapIsMod(w.Bits(), c.regs[dst]);
    WrapIsMod(w.Bits(), 0 - Wrap(w.Bits(), c.regs[dst]));
    hide Wrap, Pow2;
  }

  lemma CancelsModulo(v: nat, p: nat)
    requires p > 0
    ensures ((0 - v % p) % p + v) % p == 0
  {
    var k, r := v / p, v % p;
    assert v == p * k + r;
    Negated(r, p);
    var up := k + if r == 0 then 0 else 1;
    assert (0 - r) % p + v == p * up by { if r > 0 { assert p * (k + 1) == p * k + p; } }
    DivModUnique(p * up, p, up, 0);
  }

  lemma Negated(r: nat, p: nat)
    requires r < p
    ensures (0 - r) % p == if r == 0 then 0 else p - r
  {
    if r > 0 { DivModUnique(0 - r, p, -1, p - r); }
  }

  // ---------------------------------------------------------------- shifts

  /** Shift amounts count modulo the width: left is times, right is divided by the power of two, rounding down. */
  lemma {:induction false} ShiftsScale(bits: nat, a: nat, b: nat)
    requires bits > 0 && a < Pow2(bits) && b < Pow2(bits)
    ensures var k := Pow2(b % bits);
            && AluResult(Lsh, bits, a, b) == a * k % Pow2(bits)
            && AluResult(Rsh, bits, a, b) == a / k
            && Signed(bits, AluResult(Arsh, bits, a, b)) == Signed(bits, a) / k
  {
    var k := Pow2(b % bits);
    WrapIsMod(bits, a * k);
    ShiftRightIsDiv(a, b % bits);
    ShiftRightIsDiv(Signed(bits, a), b % bits);
    SignedRange(bits, a);
    QuotientInRange(Signed(bits, a), Pow2(bits - 1), k);
    SignedOfWrap(bits, Signed(bits, a) / k);
  }

  lemma QuotientInRange(x: int, h: nat, k: nat)
    requires k > 0 && -(h as int) <= x < h
    ensures -(h as int) <= x / k < h
  {
    QuotientToZero(x, k);
  }

  lemma QuotientToZero(x: int, k: nat)
    requires k > 0
    ensures if x >= 0 then 0 <= x / k <= x else x <= x / k < 0
  {
    var q := x / k;
    assert x == k * q + x % k;
    if x >= 0 { QuotientSmaller(x, k); } else { MulMono(k - 1, q, -1); }
  }

  // ---------------------------------------------------------------- bits

  /** Bit i of a number. */
  predicate Bit(n: nat, i: nat) { n / Pow2(i) % 2 == 1 }

  lemma BitStep(n: nat, i: nat)
    ensures Bit(n, 0) <==> n % 2 == 1
    ensures i > 0 ==> (Bit(n, i) <==> Bit(n / 2, i - 1))
  {
    Pow2Step(i);
    DivOne(n);
    if i > 0 { HalfDiv(n, Pow2(i - 1)); }
  }

  lemma NoBits(i: nat)
    ensures !Bit(0, i)
  {
    DivModUnique(0, Pow2(i), 0, 0);
  }

  /** The bitwise operations work on each bit by itself. */
  lemma {:induction false} BitwiseOnBits(a: nat, b: nat, i: nat)
    ensures Bit(BitAnd(a, b), i) <==> Bit(a, i) && Bit(b, i)
    ensures Bit(BitOr(a, b), i) <==> Bit(a, i) || Bit(b, i)
    ensures Bit(BitXor(a, b), i) <==> Bit(a, i) != Bit(b, i)
    decreases i
  {
    NoBits(i);
    if a != 0 && b != 0 {
      BitStep(a, i);
      BitStep(b, i);
      HalvesOfResults(a, b);
      BitStep(BitAnd(a, b), i);
      BitStep(BitOr(a, b), i);
      BitStep(BitXor(a, b), i);
      hide Bit, BitAnd, BitOr, BitXor;
      if i > 0 { BitwiseOnBits(a / 2, b / 2, i - 1); }
    }
  }

  lemma {:induction false} HalvesOfResults(a: nat, b: nat)
    requires a != 0 && b != 0
    ensures BitAnd(a, b) / 2 == BitAnd(a / 2, b / 2) && (BitAnd(a, b) % 2 == 1 <==> a % 2 == 1 && b % 2 == 1)
    ensures BitOr(a, b) / 2 == BitOr(a / 2, b / 2) && (BitOr(a, b) % 2 == 1 <==> a % 2 == 1 || b % 2 == 1)
    ensures BitXor(a, b) / 2 == BitXor(a / 2, b / 2) && (BitXor(a, b) % 2 == 1 <==> a % 2 != b % 2)
  {
  }

  /** A number is its bits. */
  lemma {:induction false} SameBits(a: nat, b: nat)
    requires forall i: nat :: Bit(a, i) <==> Bit(b, i)
    ensures a == b
    decreases a + b
  {
    BitStep(a, 0);
    BitStep(b, 0);
    assert Bit(a, 0) <==> Bit(b, 0);
    if a + b > 0 {
      forall i: nat ensures Bit(a / 2, i) <==> Bit(b / 2, i) {
        BitStep(a, i + 1);
        BitStep(b, i + 1);
        assert Bit(a, i + 1) <==> Bit(b, i + 1);
      }
      SameBits(a / 2, b / 2);
    }
  }

  /** The machine's and, or and exclusive or, bit by bit. */
  lemma {:induction false} LogicOnBits(bits: nat, a: nat, b: nat, i: nat)
    requires bits > 0 && a < Pow2(bits) && b < Pow2(bits)
    ensures Bit(AluResult(And, bits, a, b), i) <==> Bit(a, i) && Bit(b, i)
    ensures Bit(AluResult(Or, bits, a, b), i) <==> Bit(a, i) || Bit(b, i)
    ensures Bit(AluResult(Xor, bits, a, b), i) <==> Bit(a, i) != Bit(b, i)
  {
    BitwiseOnBits(a, b, i);
  }

  // ---------------------------------------------------------------- comparisons

  /** The word with its top bit flipped. */
  function Biased(bits: nat, a: nat): nat
    requires bits > 0
  {
    (a + Pow2(bits - 1)) % Pow2(bits)
  }

  /** Exactly one of less, equal, greater; the others are what follows. Signed order is the order with the top bits flipped. */
  lemma {:induction false} ComparisonsOrder(bits: nat, a: nat, b: nat)
    requires bits > 0 && a < Pow2(bits) && b < Pow2(bits)
    ensures Holds(Cond.Eq, bits, a, b) <==> a == b
    ensures Holds(Cond.Ne, bits, a, b) <==> !Holds(Cond.Eq, bits, a, b)
    ensures Holds(Cond.Ult, bits, a, b) <==> a < b
    ensures Holds(Cond.Ugt, bits, a, b) <==> Holds(Cond.Ult, bits, b, a)
    ensures Holds(Cond.Uge, bits, a, b) <==> !Holds(Cond.Ult, bits, a, b)
    ensures Holds(Cond.Ule, bits, a, b) <==> !Holds(Cond.Ult, bits, b, a)
    ensures Holds(Cond.Slt, bits, a, b) <==> Holds(Cond.Ult, bits, Biased(bits, a), Biased(bits, b))
    ensures Holds(Cond.Sgt, bits, a, b) <==> Holds(Cond.Slt, bits, b, a)
    ensures Holds(Cond.Sge, bits, a, b) <==> !Holds(Cond.Slt, bits, a, b)
    ensures Holds(Cond.Sle, bits, a, b) <==> !Holds(Cond.Slt, bits, b, a)
    ensures Holds(Cond.Set, bits, a, b) <==> exists i: nat :: Bit(a, i) && Bit(b, i)
  {
    Pow2Step(bits);
    BiasedIs(bits, a);
    BiasedIs(bits, b);
    CommonBit(a, b);
    hide BitAnd, Bit, Biased, Signed;
  }

  lemma BiasedIs(bits: nat, a: nat)
    requires bits > 0 && a < Pow2(bits)
    ensures Biased(bits, a) == Signed(bits, a) + Pow2(bits - 1)
  {
    var h := Pow2(bits - 1);
    Pow2Step(bits);
    if a < h { ModSmall(a + h, 2 * h); } else { DivModUnique(a + h, 2 * h, 1, a - h); }
  }

  lemma {:induction false} CommonBit(a: nat, b: nat)
    ensures BitAnd(a, b) != 0 <==> exists i: nat :: Bit(a, i) && Bit(b, i)
  {
    var n := BitAnd(a, b);
    forall i: nat ensures Bit(n, i) <==> Bit(a, i) && Bit(b, i) { BitwiseOnBits(a, b, i); }
    hide BitAnd, Bit;
    if n == 0 {
      forall i: nat ensures !Bit(n, i) { NoBits(i); }
    } else {
      var i := SomeBit(n);
    }
  }

  lemma {:induction false} SomeBit(n: nat) returns (i: nat)
    requires n != 0
    ensures Bit(n, i)
    decreases n
  {
    BitStep(n, 0);
    if n % 2 == 1 {
      i := 0;
    } else {
      var j := SomeBit(n / 2);
      i := j + 1;
      BitStep(n, i);
    }
  }

  // ---------------------------------------------------------------- atomics

  /** An atomic operation leaves what the plain operation gives, an exchange the new value. */
  lemma AtomicIsPlain(bits: nat, previous: nat, v: nat)
    requires bits > 0 && previous < Pow2(bits) && v < Pow2(bits)
    ensures AtomicResult(AAdd, bits, previous, v) == AluResult(Add, bits, previous, v)
    ensures AtomicResult(AAnd, bits, previous, v) == AluResult(And, bits, previous, v)
    ensures AtomicResult(AOr, bits, previous, v) == AluResult(Or, bits, previous, v)
    ensures AtomicResult(AXor, bits, previous, v) == AluResult(Xor, bits, previous, v)
    ensures AtomicResult(AXchg, bits, previous, v) == v
  {
  }

  // ---------------------------------------------------------------- moves

  /** A move copies as many low bits as it is wide; an immediate is the signed number of its 32 bits; a sign-extending
      move copies the signed number of the source's low bits. The rest of the destination is zero. */
  lemma {:induction false} MovesKeepValue(i: Insn, c: Core)
    requires |c.regs| == 12 && Decodable(i)
    ensures i.Mov? && i.src.RegOp? ==> RegisterResult(i, c) == c.regs[i.src.reg] % Pow2(i.w.Bits())
    ensures i.Mov? && i.src.ImmOp? ==> Signed(i.w.Bits(), RegisterResult(i, c)) == Signed(32, i.src.imm)
                                       && RegisterResult(i, c) % 0x1_0000_0000 == i.src.imm
    ensures i.MovZext? ==> RegisterResult(i, c) == c.regs[i.from] % 0x1_0000_0000
    ensures i.MovSext? ==> Signed(i.w.Bits(), RegisterResult(i, c)) == Signed(i.size.Bits(), c.regs[i.from] % Pow2(i.size.Bits()))
                           && RegisterResult(i, c) < Pow2(i.w.Bits())
                           && RegisterResult(i, c) % Pow2(i.size.Bits()) == c.regs[i.from] % Pow2(i.size.Bits())
  {
    match i
    case Mov(w, dst, RegOp(r)) => WrapIsMod(w.Bits(), c.regs[r]);
    case Mov(w, dst, ImmOp(imm)) => SExtKeepsValue(32, w.Bits(), imm);
    case MovZext(dst, from) => WrapIsMod(32, c.regs[from]);
    case MovSext(w, size, dst, from) =>
      WrapIsMod(size.Bits(), c.regs[from]);
      SExtKeepsValue(size.Bits(), w.Bits(), Wrap(size.Bits(), c.regs[from]));
    case _ =>
  }

  // ---------------------------------------------------------------- what can be decoded

  /** Whatever their fields hold, instructions are decodable; the sizes that are left out have no opcode. */
  lemma EncodingsDecode(op: AluOp, w: Width, size: Size, swap: bool, dst: Reg, r: Reg, imm: nat, imm64: nat, field: nat)
    requires imm < 0x1_0000_0000 && imm64 < 0x1_0000_0000_0000_0000
    ensures Decodable(Nop) && Decodable(Exit) && Decodable(Unsupported) && Decodable(Call(field, imm))
    ensures Decodable(Alu(op, w, dst, RegOp(r))) && Decodable(Alu(op, w, dst, ImmOp(imm)))
    ensures Decodable(Mov(w, dst, RegOp(r))) && Decodable(Mov(w, dst, ImmOp(imm))) && Decodable(Insn.Neg(w, dst))
    ensures Decodable(MovZext(dst, r)) && Decodable(LoadImm64(dst, imm64)) && Decodable(MovSext(W64, Word, dst, r))
    ensures size == Byte || size == Half ==> Decodable(MovSext(w, size, dst, r))
    ensures size != Byte ==> Decodable(Endian(swap, size, dst))
  {
    Pow2Values();
    hide Pow2;
  }

  lemma MemoryEncodingsDecode(aop: AtomicOp, cond: Cond, w: Width, size: Size, fetch: bool, dst: Reg, r: Reg, imm: nat, off: nat)
    requires imm < 0x1_0000_0000 && off < 0x1_0000
    ensures Decodable(LoadMem(size, false, false, dst, r, off)) && Decodable(StoreMem(size, false, dst, r, off))
    ensures size != Double ==> Decodable(LoadMem(size, true, false, dst, r, off)) && Decodable(LoadMem(size, false, true, dst, r, off))
    ensures size != Double ==> Decodable(StoreMem(size, true, dst, r, off))
    ensures Decodable(StoreImm(size, imm, r, off)) && Decodable(CompareExchange(w, dst, r, off))
    ensures Decodable(Atomic(aop, w, true, dst, r, off)) && (aop != AXchg ==> Decodable(Atomic(aop, w, fetch, dst, r, off)))
    ensures Decodable(Jump(true, Offset(imm))) && Decodable(Jump(false, Offset(off)))
    ensures Decodable(Branch(cond, w, dst, RegOp(r), Offset(off))) && Decodable(Branch(cond, w, dst, ImmOp(imm), Offset(off)))
  {
    Pow2Values();
    hide Pow2;
  }

  // ---------------------------------------------------------------- places

  /** Instructions take one 8-byte unit, and one more when they load a 64-bit immediate. */
  lemma {:induction false} UnitsCount(p: Program, k: nat)
    requires k <= |p|
    ensures UnitOf(p, k) == k + |WideBefore(p, k)|
    decreases k
  {
    if k == 0 {
      assert WideBefore(p, 0) == {};
    } else {
      UnitsCount(p, k - 1);
      if p[k - 1].LoadImm64? {
        assert WideBefore(p, k) == WideBefore(p, k - 1) + {k - 1};
      } else {
        assert WideBefore(p, k) == WideBefore(p, k - 1);
      }
    }
  }

  function WideBefore(p: Program, k: nat): set<nat>
    requires k <= |p|
  {
    set j: nat | j < k && p[j].LoadImm64?
  }

  /** A branch offset is a signed number of units from the instruction after it: 32 bits for a long jump, 16 otherwise. */
  lemma {:induction false} TargetIsRelative(i: Insn, u: nat)
    requires Decodable(i) && i.IsBranch()
    ensures var d := TargetUnit(i, u) - (u + 1);
            if i.Jump? && i.long then -0x8000_0000 <= d < 0x8000_0000 && d % 0x1_0000_0000 == i.target.off
            else -0x8000 <= d < 0x8000 && d % 0x1_0000 == i.target.off
  {
    var bits := if i.Jump? && i.long then 32 else 16;
    HalfPowers();
    SignedIsUnique(bits, i.target.off, Signed(bits, i.target.off));
    hide Signed;
  }

  lemma HalfPowers()
    ensures Pow2(15) == 0x8000 && Pow2(31) == 0x8000_0000
  {
    Pow2Step(16);
    Pow2Step(32);
  }
}
