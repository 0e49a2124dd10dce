/** 32-bit words as numbers, with the bitwise operators of C on them. */
module Words {

  type u32 = x: int | 0 <= x < 0x1_0000_0000
  type int32 = x: int | -0x8000_0000 <= x < 0x8000_0000

  // ---------------------------------------------------------------- bitwise operators

  function And(x: nat, y: nat): nat {
    if x == 0 then 0 else (if x % 2 == 1 && y % 2 == 1 then 1 else 0) + 2 * And(x / 2, y / 2)
  }

  function Or(x: nat, y: nat): nat {
    if x == 0 then y else (if x % 2 == 1 || y % 2 == 1 then 1 else 0) + 2 * Or(x / 2, y / 2)
  }

  function Xor(x: nat, y: nat): nat {
    if x == 0 then y else (if x % 2 != y % 2 then 1 else 0) + 2 * Xor(x / 2, y / 2)
  }

  /** Whether bit 0, 1, 2 or 3 is set. */
  predicate Bit(x: nat, k: nat)
    requires k < 4
  {
    match k
    case 0 => x % 2 == 1
    case 1 => x / 2 % 2 == 1
    case 2 => x / 4 % 2 == 1
    case 3 => x / 8 % 2 == 1
  }

  function Mask(k: nat): nat
    requires k < 4
  {
    match k case 0 => 1 case 1 => 2 case 2 => 4 case 3 => 8
  }

  lemma AndZero(x: nat)
    ensures And(x, 0) == 0
  {
    if x != 0 {
      AndZero(x / 2);
    }
  }

  /** Testing a bit with a one-bit mask. */
  lemma {:induction false} BitIsAnd(x: nat, k: nat)
    requires k < 4
    ensures And(x, Mask(k)) == if Bit(x, k) then Mask(k) else 0
  {
    if x != 0 {
      if k == 0 {
        AndZero(x / 2);
      } else {
        BitIsAnd(x / 2, k - 1);
        assert Mask(k) / 2 == Mask(k - 1);
        assert x / 2 / 2 == x / 4 && x / 2 / 4 == x / 8;
      }
    }
  }

  /** The two interrupt bits, as flags. */
  datatype Flags = Flags(completion: bool, error: bool)

  const NO_FLAGS := Flags(false, false)

  function FlagsWord(f: Flags): u32 {
    (if f.completion then 1 else 0) + (if f.error then 2 else 0)
  }

  /** `val & 3`. */
  function FlagsOf(val: u32): Flags {
    Flags(Bit(val, 0), Bit(val, 1))
  }

  /** `x & y` is nonzero. */
  predicate Overlap(x: Flags, y: Flags) {
    (x.completion && y.completion) || (x.error && y.error)
  }

  /** `x & ~val`: write one to clear. */
  function Cleared(x: Flags, val: u32): Flags {
    Flags(x.completion && !Bit(val, 0), x.error && !Bit(val, 1))
  }

  function Complement(val: u32): u32 {
    0xFFFF_FFFF - val
  }

  /** The operators on flags are the bitwise ones of the C code on the words they stand for. */
  lemma FlagsBitwise(x: Flags, y: Flags, val: u32)
    ensures FlagsOf(FlagsWord(x)) == x
    ensures Overlap(x, y) <==> And(FlagsWord(x), FlagsWord(y)) != 0
    ensures FlagsWord(Cleared(x, val)) == And(FlagsWord(x), Complement(val))
    ensures FlagsWord(FlagsOf(val)) == And(val, 3)
    ensures FlagsWord(x.(error := true)) == Or(FlagsWord(x), 2)
  {
    AndFlags(x, FlagsWord(y));
    AndFlags(x, Complement(val));
    ComplementBits(val);
    AndOdd(val, 1);
    BitIsAnd(val / 2, 0);
  }

  lemma AndFlags(x: Flags, m: u32)
    ensures And(FlagsWord(x), m)
         == (if x.completion && Bit(m, 0) then 1 else 0) + (if x.error && Bit(m, 1) then 2 else 0)
  {
    if FlagsWord(x) != 0 {
      AndUnfold(FlagsWord(x), m);
      if FlagsWord(x) / 2 != 0 {
        AndUnfold(1, m / 2);
        AndFromZero(m / 2 / 2);
      } else {
        AndFromZero(m / 2);
      }
    }
  }

  lemma ComplementBits(val: u32)
    ensures Bit(Complement(val), 0) <==> !Bit(val, 0)
    ensures Bit(Complement(val), 1) <==> !Bit(val, 1)
  {
    Halve(0x7FFF_FFFF - val / 2, 1 - val % 2);
    Halve(0x3FFF_FFFF - val / 2 / 2, 1 - val / 2 % 2);
    assert Complement(val) == 2 * (0x7FFF_FFFF - val / 2) + (1 - val % 2);
    assert 0x7FFF_FFFF - val / 2 == 2 * (0x3FFF_FFFF - val / 2 / 2) + (1 - val / 2 % 2);
  }

  lemma Halve(h: nat, b: nat)
    requires b < 2
    ensures (2 * h + b) / 2 == h && (2 * h + b) % 2 == b
  {}

  lemma AndOdd(val: nat, m: nat)
    ensures And(val, 2 * m + 1) == val % 2 + 2 * And(val / 2, m)
  {
    Halve(m, 1);
    if val == 0 {
      AndFromZero(m);
    } else {
      AndUnfold(val, 2 * m + 1);
    }
  }

  lemma AndUnfold(x: nat, y: nat)
    requires x != 0
    ensures And(x, y) == (if x % 2 == 1 && y % 2 == 1 then 1 else 0) + 2 * And(x / 2, y / 2)
  {}

  /** The lowest set bit among the low four bits of a word. */
  function LowestBit(val: nat): nat {
    if Bit(val, 0) then 1 else if Bit(val, 1) then 2 else if Bit(val, 2) then 4 else if Bit(val, 3) then 8 else 0
  }

  function Negate(val: u32): u32 {
    if val == 0 then 0 else 0x1_0000_0000 - val
  }

  function LowNibble(val: nat): (m: nat)
    ensures m < 0x10
  {
    val % 2 + 2 * (val / 2 % 2 + 2 * (val / 4 % 2 + 2 * (val / 8 % 2)))
  }

  lemma LowNibbleIsAnd(val: nat)
    ensures And(val, 0xF) == LowNibble(val)
  {
    var h := val / 2;
    var q := h / 2;
    AndOdd(val, 7);
    AndOdd(h, 3);
    AndOdd(q, 1);
    BitIsAnd(q / 2, 0);
    assert q == val / 4 && q / 2 == val / 8;
  }

  /** The C code computes it as `val & 0x0F` followed by `val & (0U - val)`. */
  lemma LowestBitIsAnd(val: u32)
    ensures And(val, 0xF) < 0x10
    ensures And(And(val, 0xF), Negate(And(val, 0xF))) == LowestBit(val)
  {
    hide And, Lowest;
    LowNibbleIsAnd(val);
    if LowNibble(val) != 0 {
      NegateIsolates(LowNibble(val));
      LowestOfBits(val % 2, val / 2 % 2, val / 4 % 2, val / 8 % 2);
    } else {
      AndFromZero(Negate(0));
    }
  }

  lemma AndFromZero(y: nat)
    ensures And(0, y) == 0
  {}

  lemma NegateIsolates(m: nat)
    requires 0 < m < 0x10
    ensures And(m, Negate(m)) == Lowest(m)
  {
    hide And, Lowest;
    BytePowers();
    LowestSetBit(m, 32);
  }

  lemma LowestOfBits(b0: nat, b1: nat, b2: nat, b3: nat)
    requires b0 < 2 && b1 < 2 && b2 < 2 && b3 < 2
    requires b0 + 2 * (b1 + 2 * (b2 + 2 * b3)) != 0
    ensures Lowest(b0 + 2 * (b1 + 2 * (b2 + 2 * b3)))
         == if b0 == 1 then 1 else if b1 == 1 then 2 else if b2 == 1 then 4 else 8
  {
    hide Lowest;
    LowestOne();
    LowestStep(b3, b2);
    LowestStep(b2 + 2 * b3, b1);
    LowestStep(b1 + 2 * (b2 + 2 * b3), b0);
  }

  lemma LowestOne()
    ensures Lowest(1) == 1
  {}

  lemma LowestStep(h: nat, b: nat)
    requires b < 2
    ensures b == 1 ==> Lowest(2 * h + b) == 1
    ensures b == 0 && h != 0 ==> Lowest(2 * h + b) == 2 * Lowest(h)
  {
    Halve(h, b);
  }

  function Lowest(x: nat): nat
    requires x != 0
  {
    if x % 2 == 1 then 1 else 2 * Lowest(x / 2)
  }

  lemma {:induction false} AndSelf(x: nat)
    ensures And(x, x) == x
  {
    if x != 0 {
      AndSelf(x / 2);
    }
  }

  /** `x & (x - 1)` clears the lowest set bit. */
  lemma {:induction false} AndPredecessor(x: nat)
    requires x != 0
    ensures And(x, x - 1) == x - Lowest(x)
  {
    AndUnfold(x, x - 1);
    if x % 2 == 1 {
      AndSelf(x / 2);
      assert (x - 1) / 2 == x / 2;
    } else {
      AndPredecessor(x / 2);
      assert (x - 1) / 2 == x / 2 - 1;
    }
  }

  lemma {:induction false} LowestSetBit(x: nat, n: nat)
    requires 0 < x < Pow2(n)
    ensures And(x, Pow2(n) - x) == Lowest(x)
  {
    if x % 2 == 1 {
      NoCommonBits(x / 2, n - 1);
      assert (Pow2(n) - x) / 2 == Pow2(n - 1) - 1 - x / 2;
    } else {
      LowestSetBit(x / 2, n - 1);
      assert (Pow2(n) - x) / 2 == Pow2(n - 1) - x / 2;
    }
  }

  lemma {:induction false} NoCommonBits(x: nat, n: nat)
    requires x < Pow2(n)
    ensures And(x, Pow2(n) - 1 - x) == 0
  {
    if x != 0 {
      NoCommonBits(x / 2, n - 1);
      assert (Pow2(n) - 1 - x) / 2 == Pow2(n - 1) - 1 - x / 2;
    }
  }

  /** Or with a value whose low bits are all clear is addition. */
  lemma {:induction false} OrDisjoint(x: nat, y: nat, k: nat)
    requires x < Pow2(k)
    ensures Or(x, y * Pow2(k)) == x + y * Pow2(k)
  {
    if x != 0 {
      assert y * Pow2(k) == 2 * (y * Pow2(k - 1));
      OrDisjoint(x / 2, y, k - 1);
    }
  }

  lemma OrFromZero(y: nat)
    ensures Or(0, y) == y
  {}

  /** Masking with `2^n - 1` is the remainder. */
  lemma {:induction false} AndMask(x: nat, n: nat)
    ensures And(x, Pow2(n) - 1) == x % Pow2(n)
    decreases n
  {
    if n == 0 {
      AndZero(x);
    } else {
      AndOdd(x, Pow2(n - 1) - 1);
      AndMask(x / 2, n - 1);
      SplitRemainder(x, Pow2(n - 1));
    }
  }

  lemma SplitRemainder(x: nat, p: nat)
    requires p > 0
    ensures x % (2 * p) == x % 2 + 2 * (x / 2 % p)
  {
    var h, q := x / 2, x / 2 / p;
    assert h == p * q + h % p;
    assert x == 2 * p * q + (x % 2 + 2 * (h % p));
    Remainder(x, 2 * p, q, x % 2 + 2 * (h % p));
  }

  lemma Remainder(x: nat, m: nat, q: nat, r: nat)
    requires r < m && x == m * q + r
    ensures x % m == r
  {
    var k := x / m - q;
    assert m * k == r - x % m;
    AtLeast(m, k);
  }

  lemma AtLeast(m: nat, k: int)
    ensures k >= 1 ==> m * k >= m
    ensures k <= -1 ==> m * k <= 0 - m
  {}

  lemma AndEven(x: nat, m: nat)
    ensures And(x, 2 * m) == 2 * And(x / 2, m)
  {
    Halve(m, 0);
    if x == 0 {
      AndFromZero(m);
    } else {
      AndUnfold(x, 2 * m);
    }
  }

  /** Testing a bit with a power of two. */
  lemma {:induction false} AndPower(x: nat, k: nat)
    ensures And(x, Pow2(k)) == if x / Pow2(k) % 2 == 1 then Pow2(k) else 0
    decreases k
  {
    if x == 0 {
    } else if k == 0 {
      AndUnfold(x, 1);
      AndZero(x / 2);
    } else {
      AndUnfold(x, Pow2(k));
      AndPower(x / 2, k - 1);
      DivideTwice(x, Pow2(k - 1));
    }
  }

  lemma DivideTwice(x: nat, p: nat)
    requires p > 0
    ensures x / (2 * p) == x / 2 / p
  {
    var q := x / 2 / p;
    assert x / 2 == p * q + x / 2 % p;
    assert x == 2 * p * q + (x % 2 + 2 * (x / 2 % p));
    Remainder(x, 2 * p, q, x % 2 + 2 * (x / 2 % p));
    assert 2 * p * (x / (2 * p)) == 2 * p * q;
  }

  function Pow2(k: nat): (p: nat)
    ensures p > 0
  {
    if k == 0 then 1 else 2 * Pow2(k - 1)
  }

  lemma BytePowers()
    ensures Pow2(8) == 0x100 && Pow2(16) == 0x1_0000 && Pow2(24) == 0x100_0000 && Pow2(32) == 0x1_0000_0000
  {
    assert Pow2(8) == 0x100;
    assert Pow2(12) == 16 * Pow2(8);
    assert Pow2(16) == 16 * Pow2(12);
    assert Pow2(20) == 16 * Pow2(16);
    assert Pow2(24) == 16 * Pow2(20);
    assert Pow2(28) == 16 * Pow2(24);
    assert Pow2(32) == 16 * Pow2(28);
  }

  // ---------------------------------------------------------------- signed images

  /** A signed 32-bit value as the word a register read delivers. */
  function ToWord(r: int32): u32 {
    if r < 0 then r + 0x1_0000_0000 else r
  }

  /** A word read back as a signed 32-bit value. */
  function Signed(w: u32): int32 {
    if w >= 0x8000_0000 then w - 0x1_0000_0000 else w
  }

  /** `r ^ 1` on a signed value. */
  function FlipLowBit(r: int32): int32 {
    if r % 2 == 0 then r + 1 else r - 1
  }

  lemma FlipLowBitIsXor(r: int32)
    ensures ToWord(FlipLowBit(r)) == Xor(ToWord(r), 1)
  {
    FlippedWord(r);
    XorOne(ToWord(r));
  }

  lemma FlippedWord(r: int32)
    ensures ToWord(FlipLowBit(r)) == if ToWord(r) % 2 == 0 then ToWord(r) + 1 else ToWord(r) - 1
  {}

  lemma XorOne(x: nat)
    ensures Xor(x, 1) == if x % 2 == 0 then x + 1 else x - 1
  {
    XorZero(x / 2);
  }

  lemma XorZero(x: nat)
    ensures Xor(x, 0) == x
  {
    if x != 0 {
      XorZero(x / 2);
    }
  }
}
