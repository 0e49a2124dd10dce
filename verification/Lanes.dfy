/** Signed 8-bit lanes packed into 32-bit little-endian words: the packing done in user space
    (cpp-hal/src/vnpu-hal.cpp), the unpacking done by the device (qemu-device/src/vnpu.c), and the
    dot product both sides are about.
 */
module Lanes {
  import opened Words

  type int8 = x: int | -0x80 <= x < 0x80

  /** The four input words of one operand. */
  type Bank = s: seq<u32> | |s| == 4 witness [0, 0, 0, 0]

  /** The two's complement byte of a lane. */
  function Byte(e: int8): (b: u32)
    ensures b < 0x100
  {
    if e < 0 then e + 0x100 else e
  }

  /** `(w >> (8 * shift)) & 0xFF`. */
  function ByteAt(w: u32, shift: nat): (b: u32)
    requires shift < 4
    ensures b < 0x100
  {
    match shift
    case 0 => w % 0x100
    case 1 => w / 0x100 % 0x100
    case 2 => w / 0x100 / 0x100 % 0x100
    case 3 => w / 0x100 / 0x100 / 0x100
  }

  /** Lane number `shift` of a word, sign-extended. */
  function UnpackI8(input: u32, shift: nat): int8
    requires shift < 4
  {
    var x := ByteAt(input, shift);
    if x >= 0x80 then x - 0x100 else x
  }

  /** `w >> (8 * shift)`. */
  function ShiftedRight(w: u32, shift: nat): u32
    requires shift < 4
  {
    match shift case 0 => w case 1 => w / 0x100 case 2 => w / 0x1_0000 case 3 => w / 0x100_0000
  }

  lemma ShiftIsDivision(w: u32, shift: nat)
    requires shift < 4
    ensures ShiftedRight(w, shift) == w / Pow2(8 * shift)
  {
    BytePowers();
  }

  /** The lane as the C code extracts it: shift, mask the byte, test its sign bit. */
  lemma UnpackBitwise(input: u32, shift: nat)
    requires shift < 4
    ensures var x := And(ShiftedRight(input, shift), 0xFF);
            && x == ByteAt(input, shift)
            && UnpackI8(input, shift) == if And(x, 0x80) != 0 then x - 0x100 else x
  {
    hide And;
    BytePowers();
    assert Pow2(7) == 0x80;
    AndMask(ShiftedRight(input, shift), 8);
    AndPower(ByteAt(input, shift), 7);
    Shifts(input);
  }

  lemma Shifts(w: u32)
    ensures w / 0x100 / 0x100 == w / 0x1_0000 && w / 0x100 / 0x100 / 0x100 == w / 0x100_0000 && w / 0x100_0000 < 0x100
  {}

  function Lane(bank: Bank, k: nat): int8
    requires k < 16
  {
    UnpackI8(bank[k / 4], k % 4)
  }

  lemma LaneAt(bank: Bank, i: nat, k: nat)
    requires i < 4 && k < 4
    ensures Lane(bank, 4 * i + k) == UnpackI8(bank[i], k)
  {}

  function Unpack(bank: Bank): seq<int8> {
    seq(16, k requires 0 <= k < 16 => Lane(bank, k))
  }

  // ---------------------------------------------------------------- packing

  /** The byte element `i` of the vector contributes; past its end there is nothing to merge. */
  function ElementByte(input: seq<int8>, i: nat): (b: u32)
    ensures b < 0x100
  {
    if i < |input| then Byte(input[i]) else 0
  }

  function PackWord(input: seq<int8>, out: nat): u32 {
    PartialWord(input, out, 4)
  }

  function Pack(input: seq<int8>): Bank {
    [PackWord(input, 0), PackWord(input, 1), PackWord(input, 2), PackWord(input, 3)]
  }

  /** The word holding the first `count` bytes of group `out`. */
  function PartialWord(input: seq<int8>, out: nat, count: nat): (w: u32)
    requires count <= 4
    ensures count == 1 ==> w < 0x100
    ensures count == 2 ==> w < 0x1_0000
    ensures count == 3 ==> w < 0x100_0000
  {
    (if count > 0 then ElementByte(input, out * 4) else 0)
    + (if count > 1 then 0x100 * ElementByte(input, out * 4 + 1) else 0)
    + (if count > 2 then 0x1_0000 * ElementByte(input, out * 4 + 2) else 0)
    + (if count > 3 then 0x100_0000 * ElementByte(input, out * 4 + 3) else 0)
  }

  function ShiftedByte(e: int8, byte: nat): u32
    requires byte < 4
  {
    match byte
    case 0 => Byte(e)
    case 1 => Byte(e) * 0x100
    case 2 => Byte(e) * 0x1_0000
    case 3 => Byte(e) * 0x100_0000
  }

  /** Merging the next byte with a bitwise or. */
  lemma MergeByte(input: seq<int8>, out: nat, byte: nat)
    requires byte < 4 && out * 4 + byte < |input|
    ensures Or(PartialWord(input, out, byte), ShiftedByte(input[out * 4 + byte], byte))
         == PartialWord(input, out, byte + 1)
  {
    hide Or, Pow2;
    BytePowers();
    var e := Byte(input[out * 4 + byte]);
    if byte == 0 {
      OrFromZero(e);
    } else {
      OrDisjoint(PartialWord(input, out, byte), e, 8 * byte);
    }
  }

  /** Groups that run past the end of the vector are complete early. */
  lemma ShortGroup(input: seq<int8>, out: nat, byte: nat)
    requires byte <= 4
    requires byte == 4 || |input| <= out * 4 + byte
    ensures PartialWord(input, out, byte) == PackWord(input, out)
  {}

  /** The two nested packing loops. The caller supplies the four destination words; a vector of more
      than 16 elements would run past them. */
  method PackInt8Input(input: seq<int8>, packed: array<u32>)
    requires packed.Length == 4 && |input| <= 16
    modifies packed
    ensures packed[..] == Pack(input)
  {
    for i := 0 to 4
      invariant forall j :: 0 <= j < i ==> packed[j] == 0
    {
      packed[i] := 0;
    }
    var wordCount := (|input| + 3) / 4;
    for out := 0 to wordCount
      invariant forall j :: 0 <= j < out ==> packed[j] == PackWord(input, j)
      invariant forall j :: out <= j < 4 ==> packed[j] == 0
    {
      var first := out * 4;
      var word: u32 := 0;
      var byte := 0;
      while byte < 4 && first + byte < |input|
        invariant 0 <= byte <= 4
        invariant word == PartialWord(input, out, byte)
        modifies {}
      {
        MergeByte(input, out, byte);
        word := Or(word, ShiftedByte(input[first + byte], byte));
        byte := byte + 1;
      }
      ShortGroup(input, out, byte);
      packed[out] := word;
    }
    forall j | wordCount <= j < 4
      ensures packed[j] == PackWord(input, j)
    {
      ShortGroup(input, j, 0);
    }
  }

  lemma BytesOfSum(a: u32, b: u32, c: u32, d: u32)
    requires a < 0x100 && b < 0x100 && c < 0x100 && d < 0x100
    ensures var w := a + 0x100 * b + 0x1_0000 * c + 0x100_0000 * d;
            ByteAt(w, 0) == a && ByteAt(w, 1) == b && ByteAt(w, 2) == c && ByteAt(w, 3) == d
  {
    SplitByte(a, b + 0x100 * (c + 0x100 * d));
    SplitByte(b, c + 0x100 * d);
    SplitByte(c, d);
  }

  lemma SplitByte(low: nat, high: nat)
    requires low < 0x100
    ensures (low + 0x100 * high) % 0x100 == low && (low + 0x100 * high) / 0x100 == high
  {}

  lemma BytesOfWord(input: seq<int8>, out: nat, b: nat)
    requires b < 4
    ensures ByteAt(PackWord(input, out), b) == ElementByte(input, out * 4 + b)
  {
    BytesOfSum(ElementByte(input, out * 4), ElementByte(input, out * 4 + 1),
               ElementByte(input, out * 4 + 2), ElementByte(input, out * 4 + 3));
  }

  /** Unpacking what was packed gives every element back, and zero in the lanes past the end. */
  lemma UnpackPack(input: seq<int8>, k: nat)
    requires |input| <= 16 && k < 16
    ensures Lane(Pack(input), k) == if k < |input| then input[k] else 0
  {
    BytesOfWord(input, k / 4, k % 4);
    WordsOfPack(input, k / 4);
  }

  lemma WordsOfPack(input: seq<int8>, out: nat)
    requires out < 4
    ensures Pack(input)[out] == PackWord(input, out)
  {}

  lemma SumOfBytes(w: u32)
    ensures w == ByteAt(w, 0) + 0x100 * ByteAt(w, 1) + 0x1_0000 * ByteAt(w, 2) + 0x100_0000 * ByteAt(w, 3)
  {}

  lemma ByteOfLane(bank: Bank, out: nat, b: nat)
    requires out < 4 && b < 4
    ensures ElementByte(Unpack(bank), out * 4 + b) == ByteAt(bank[out], b)
  {
    assert Unpack(bank)[out * 4 + b] == Lane(bank, out * 4 + b) == UnpackI8(bank[out], b);
  }

  /** Packing the sixteen lanes of any four words restores the words. */
  lemma PackUnpack(bank: Bank)
    ensures Pack(Unpack(bank)) == bank
  {
    forall out | 0 <= out < 4
      ensures Pack(Unpack(bank))[out] == bank[out]
    {
      ByteOfLane(bank, out, 0);
      ByteOfLane(bank, out, 1);
      ByteOfLane(bank, out, 2);
      ByteOfLane(bank, out, 3);
      SumOfBytes(bank[out]);
      WordsOfPack(Unpack(bank), out);
    }
  }

  // ---------------------------------------------------------------- dot products

  /** The mathematical dot product of two vectors. */
  function Dot(a: seq<int8>, b: seq<int8>): int
    requires |a| == |b|
  {
    if a == [] then 0 else Dot(a[..|a| - 1], b[..|b| - 1]) + Product(a[|a| - 1], b[|b| - 1])
  }

  function Product(x: int, y: int): int {
    x * y
  }

  /** The sum over the first `n` lanes of two register banks. */
  function LaneDot(a: Bank, b: Bank, n: nat): int
    requires n <= 16
  {
    Dot(Unpack(a)[..n], Unpack(b)[..n])
  }

  lemma LaneDotEmpty(a: Bank, b: Bank)
    ensures LaneDot(a, b, 0) == 0
  {}

  lemma LaneDotStep(a: Bank, b: Bank, n: nat)
    requires n < 16
    ensures LaneDot(a, b, n + 1) == LaneDot(a, b, n) + Product(Lane(a, n), Lane(b, n))
  {
    assert Unpack(a)[..n + 1][..n] == Unpack(a)[..n];
    assert Unpack(b)[..n + 1][..n] == Unpack(b)[..n];
  }

  lemma MagnitudeBound(x: nat, y: nat, m: nat, n: nat)
    requires x <= m && y <= n
    ensures 0 <= Product(x, y) <= Product(m, n)
  {
    assert 0 <= (m - x) * y;
    assert 0 <= m * (n - y);
  }

  lemma ProductSigns(x: int, y: int)
    ensures Product(-x, y) == -Product(x, y) && Product(x, -y) == -Product(x, y) && Product(-x, -y) == Product(x, y)
  {}

  lemma ProductBound(x: int, y: int)
    requires -0x80 <= x < 0x80 && -0x80 <= y < 0x80
    ensures -0x3F80 <= Product(x, y) <= 0x4000
  {
    ProductSigns(x, y);
    assert Product(0x7F, 0x80) == Product(0x80, 0x7F) == 0x3F80 && Product(0x80, 0x80) == 0x4000;
    assert Product(0x7F, 0x7F) == 0x3F01;
    hide Product;
    if x >= 0 && y >= 0 {
      MagnitudeBound(x, y, 0x7F, 0x7F);
    } else if x < 0 && y < 0 {
      MagnitudeBound(-x, -y, 0x80, 0x80);
    } else if x < 0 {
      MagnitudeBound(-x, y, 0x80, 0x7F);
    } else {
      MagnitudeBound(x, -y, 0x7F, 0x80);
    }
  }

  lemma {:induction false} DotBound(a: seq<int8>, b: seq<int8>)
    requires |a| == |b|
    ensures -0x3F80 * |a| <= Dot(a, b) <= 0x4000 * |a|
  {
    if a != [] {
      DotBound(a[..|a| - 1], b[..|b| - 1]);
      ProductBound(a[|a| - 1], b[|b| - 1]);
    }
  }

  /** No prefix of the accumulation leaves this range, so no 32-bit partial sum overflows. */
  lemma LaneDotBound(a: Bank, b: Bank, n: nat)
    requires n <= 16
    ensures -0x3F80 * n <= LaneDot(a, b, n) <= 0x4000 * n
  {
    DotBound(Unpack(a)[..n], Unpack(b)[..n]);
  }

  /** The device's sum over any number of lanes covering both vectors is their dot product: the
      8-lane and the 16-lane arm agree on packed 8-element vectors. */
  lemma PackedDot(a: seq<int8>, b: seq<int8>, n: nat)
    requires |a| == |b| <= n <= 16
    ensures LaneDot(Pack(a), Pack(b), n) == Dot(a, b)
  {
    UnpackPackSeq(a, n);
    UnpackPackSeq(b, n);
    DotZeros(a, b, n - |a|);
  }

  function Zeros(n: nat): seq<int8> {
    seq(n, _ => 0)
  }

  lemma UnpackPackSeq(input: seq<int8>, n: nat)
    requires |input| <= n <= 16
    ensures Unpack(Pack(input))[..n] == input + Zeros(n - |input|)
  {
    forall k | 0 <= k < n
      ensures Unpack(Pack(input))[k] == (input + Zeros(n - |input|))[k]
    {
      UnpackPack(input, k);
    }
  }

  lemma {:induction false} DotZeros(a: seq<int8>, b: seq<int8>, m: nat)
    requires |a| == |b|
    ensures Dot(a + Zeros(m), b + Zeros(m)) == Dot(a, b)
  {
    if m == 0 {
      assert a + Zeros(0) == a && b + Zeros(0) == b;
    } else {
      DotZeros(a, b, m - 1);
      assert (a + Zeros(m))[..|a| + m - 1] == a + Zeros(m - 1);
      assert (b + Zeros(m))[..|b| + m - 1] == b + Zeros(m - 1);
    }
  }

  /** With vector length 8 the sum reads only the first two words of each bank. */
  lemma LowWordsOnly(a: Bank, b: Bank, a': Bank, b': Bank, n: nat)
    requires n <= 8
    requires a[0] == a'[0] && a[1] == a'[1] && b[0] == b'[0] && b[1] == b'[1]
    ensures LaneDot(a, b, n) == LaneDot(a', b', n)
  {
    LowLanes(a, a', n);
    LowLanes(b, b', n);
  }

  lemma LowLanes(a: Bank, a': Bank, n: nat)
    requires n <= 8 && a[0] == a'[0] && a[1] == a'[1]
    ensures Unpack(a)[..n] == Unpack(a')[..n]
  {
    forall k | 0 <= k < n
      ensures Unpack(a)[k] == Unpack(a')[k]
    {
      assert k / 4 == 0 || k / 4 == 1;
    }
  }

  // ---------------------------------------------------------------- sums, written out

  lemma DotPrefix(a: seq<int8>, b: seq<int8>, k: nat)
    requires |a| == |b| && k < |a|
    ensures var (x: seq<int>, y: seq<int>) := (a, b); Dot(a[..k + 1], b[..k + 1]) == Dot(a[..k], b[..k]) + x[k] * y[k]
  {
    assert a[..k + 1][..k] == a[..k] && b[..k + 1][..k] == b[..k];
  }

  lemma WholePrefix(a: seq<int8>, b: seq<int8>)
    requires |a| == |b|
    ensures Dot(a[..0], b[..0]) == 0 && Dot(a[..|a|], b[..|b|]) == Dot(a, b)
  {
    assert a[..|a|] == a && b[..|b|] == b;
  }

  lemma SumOfEight(a: seq<int8>, b: seq<int8>)
    requires |a| == |b| == 8
    ensures var (x: seq<int>, y: seq<int>) := (a, b);
            Dot(a, b) == x[0] * y[0] + x[1] * y[1] + x[2] * y[2] + x[3] * y[3]
                         + x[4] * y[4] + x[5] * y[5] + x[6] * y[6] + x[7] * y[7]
  {
    DotPrefix(a, b, 0);
    DotPrefix(a, b, 1);
    DotPrefix(a, b, 2);
    DotPrefix(a, b, 3);
    DotPrefix(a, b, 4);
    DotPrefix(a, b, 5);
    DotPrefix(a, b, 6);
    DotPrefix(a, b, 7);
    WholePrefix(a, b);
    hide Dot;
  }

  /** A sum of sixteen products is the sum of two sums of eight. */
  lemma {:induction false} DotSplit(a: seq<int8>, b: seq<int8>, c: seq<int8>, d: seq<int8>)
    requires |a| == |b| && |c| == |d|
    ensures Dot(a + c, b + d) == Dot(a, b) + Dot(c, d)
    decreases c
  {
    if c == [] {
      assert a + c == a && b + d == b;
    } else {
      var n := |c| - 1;
      assert (a + c)[..|a| + n] == a + c[..n] && (b + d)[..|b| + n] == b + d[..n];
      DotSplit(a, b, c[..n], d[..n]);
    }
  }

  /** Where each element goes: byte `k % 4` of word `k / 4`, as an unsigned byte, low byte first. */
  lemma PackedByte(input: seq<int8>, k: nat)
    requires |input| <= 16 && k < 16
    ensures var elements: seq<int> := input;
            And(ShiftedRight(Pack(input)[k / 4], k % 4), 0xFF)
            == if k >= |input| then 0 else if elements[k] < 0 then elements[k] + 0x100 else elements[k]
  {
    BytesOfWord(input, k / 4, k % 4);
    WordsOfPack(input, k / 4);
    UnpackBitwise(Pack(input)[k / 4], k % 4);
    hide And, Pack, ShiftedRight, ByteAt, UnpackI8, PackWord;
  }
}
