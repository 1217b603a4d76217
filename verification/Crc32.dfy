/**
  The CRC-32 of src/checksums.c, which is the one of section 8 of RFC 1952. An unsigned long
  there never holds more than 32 bits, so it is a bv32 here.
 */
module Crc32 {
  import opened Registers

  const POLY: bv32 := 0xEDB88320

  // ---------- the definition: a shift register, bit by bit ----------

  function Shift(c: bv32): bv32 { if c & 1 == 1 then (c >> 1) ^ POLY else c >> 1 }

  function Add(c: bv32, d: bv32): bv32 { c ^ d }

  function BitWord(bit: bool): bv32 { if bit then 1 else 0 }

  function BitStep(c: bv32, bit: bool): bv32 { Shift(Add(c, BitWord(bit))) }

  /** The bits of a byte, the least significant one first. */
  function ByteBits(b: bv8): seq<bool> {
    [b & 1 == 1, (b >> 1) & 1 == 1, (b >> 2) & 1 == 1, (b >> 3) & 1 == 1,
     (b >> 4) & 1 == 1, (b >> 5) & 1 == 1, (b >> 6) & 1 == 1, (b >> 7) & 1 == 1]
  }

  function Bits(m: seq<bv8>): seq<bool> { Flatten(ByteBits, m) }

  const START: bv32 := 0xFFFF_FFFF

  /** The checksum by definition. */
  function Crc(m: seq<bv8>): bv32 { Feed(BitStep, START, Bits(m)) ^ START }

  // ---------- one step of the register ----------

  lemma HalvesOfXor(a: bv32, b: bv32)
    ensures (a ^ b) >> 1 == (a >> 1) ^ (b >> 1)
    ensures (a ^ b) & 1 == (a & 1) ^ (b & 1)
    ensures a & 1 == 0 || a & 1 == 1
  {}

  lemma XorCancels(x: bv32, y: bv32, z: bv32)
    ensures (x ^ z) ^ (y ^ z) == x ^ y
    ensures (x ^ z) ^ y == (x ^ y) ^ z && x ^ (y ^ z) == (x ^ y) ^ z
  {}

  lemma AddIsAssociative(c: bv32, d: bv32, e: bv32)
    ensures Add(c, Add(d, e)) == Add(Add(c, d), e)
  {
    XorIsAssociative(c, d, e, Add(d, e), Add(c, d));
  }

  lemma XorIsAssociative(c: bv32, d: bv32, e: bv32, de: bv32, cd: bv32)
    requires de == d ^ e && cd == c ^ d
    ensures c ^ de == cd ^ e
  {}

  lemma LinearOddOdd(a: bv32, b: bv32)
    requires a & 1 == 1 && b & 1 == 1
    ensures Shift(Add(a, b)) == Add(Shift(a), Shift(b))
  {
    HalvesOfXor(a, b);
    XorCancels(a >> 1, b >> 1, POLY);
  }

  lemma LinearOddEven(a: bv32, b: bv32)
    requires a & 1 == 1 && b & 1 == 0
    ensures Shift(Add(a, b)) == Add(Shift(a), Shift(b))
  {
    HalvesOfXor(a, b);
    XorCancels(a >> 1, b >> 1, POLY);
  }

  lemma LinearEvenOdd(a: bv32, b: bv32)
    requires a & 1 == 0 && b & 1 == 1
    ensures Shift(Add(a, b)) == Add(Shift(a), Shift(b))
  {
    AddCommutes(a, b);
    AddCommutes(Shift(a), Shift(b));
    LinearOddEven(b, a);
  }

  lemma AddCommutes(a: bv32, b: bv32)
    ensures Add(a, b) == Add(b, a)
  {}

  lemma LinearEvenEven(a: bv32, b: bv32)
    requires a & 1 == 0 && b & 1 == 0
    ensures Shift(Add(a, b)) == Add(Shift(a), Shift(b))
  {
    HalvesOfXor(a, b);
  }

  lemma LowestBit(a: bv32)
    ensures a & 1 == 0 || a & 1 == 1
  {}

  lemma ShiftIsLinear(a: bv32, b: bv32)
    ensures Shift(Add(a, b)) == Add(Shift(a), Shift(b))
  {
    LowestBit(a);
    LowestBit(b);
    if a & 1 == 1 {
      if b & 1 == 1 { LinearOddOdd(a, b); } else { LinearOddEven(a, b); }
    } else {
      if b & 1 == 1 { LinearEvenOdd(a, b); } else { LinearEvenEven(a, b); }
    }
  }

  /** The register loses nothing: the top bit of the polynomial tells the two cases apart. */
  lemma ShiftIsInjective(a: bv32, b: bv32)
    ensures Shift(a) == Shift(b) ==> a == b
  {}

  lemma AddIsInjective(a: bv32, b: bv32, w: bv32)
    ensures Add(a, w) == Add(b, w) ==> a == b
  {}

  lemma StepIsInjective(a: bv32, b: bv32, bit: bool)
    ensures BitStep(a, bit) == BitStep(b, bit) ==> a == b
  {
    var w := BitWord(bit);
    ShiftIsInjective(Add(a, w), Add(b, w));
    AddIsInjective(a, b, w);
  }

  function Join(bit: bool, w: bv32): bv32 { Add(BitWord(bit), w << 1) }

  lemma ShiftUndoesDoubling(w: bv32)
    requires w <= 0x7FFF_FFFF
    ensures Shift(w << 1) == w
  {}

  lemma JoinedLater(x: bv32, w: bv32)
    requires w <= 0x7FFF_FFFF
    ensures Shift(Add(x, w << 1)) == Add(Shift(x), w)
  {
    ShiftUndoesDoubling(w);
    ShiftIsLinear(x, w << 1);
  }

  lemma TakenApart(b: bv32, w: bv32)
    requires w <= 0x7FFF_FFFF && b <= 1
    ensures (b ^ (w << 1)) & 1 == b && (b ^ (w << 1)) >> 1 == w
  {}

  lemma JoinedTakenApart(bit: bool, w: bv32)
    requires w <= 0x7FFF_FFFF
    ensures Join(bit, w) & 1 == BitWord(bit) && Join(bit, w) >> 1 == w
  {
    TakenApart(if bit then 1 else 0, w);
  }

  // ---------- words of at most 31 bits ----------

  /** The largest number of 31 - k bits. */
  function Largest(k: nat): bv32 { if k == 0 then 0x7FFF_FFFF else Largest(k - 1) >> 1 }

  lemma HalfIsOnes(m: bv32)
    requires m & (m + 1) == 0
    ensures (m >> 1) & ((m >> 1) + 1) == 0
  {}

  lemma {:induction false} LargestIsOnes(k: nat)
    ensures Largest(k) & (Largest(k) + 1) == 0 && Largest(k) <= 0x7FFF_FFFF
  {
    if k > 0 {
      LargestIsOnes(k - 1);
      HalfIsOnes(Largest(k - 1));
    }
  }

  lemma {:induction false} LargestIsPositive(k: nat)
    requires k <= 30
    ensures Largest(k) != 0
    decreases 30 - k
  {
    if k < 30 {
      LargestIsPositive(k + 1);
    } else {
      assert Largest(6) == 0x1FF_FFFF;
      assert Largest(12) == 0x7_FFFF;
      assert Largest(18) == 0x1FFF;
      assert Largest(24) == 0x7F;
      assert Largest(30) == 1;
    }
  }

  lemma DoubleFits(w: bv32, m: bv32, bit: bool)
    requires m & (m + 1) == 0 && m != 0 && m <= 0x7FFF_FFFF && w <= m >> 1
    ensures Join(bit, w) <= m
  {}

  lemma {:induction false} WordFits(bits: seq<bool>)
    requires |bits| <= 31
    ensures Word(Join, 0, bits) <= Largest(31 - |bits|) <= 0x7FFF_FFFF
    decreases |bits|
  {
    var k := 31 - |bits|;
    LargestIsOnes(k);
    if bits != [] {
      WordFits(bits[1..]);
      LargestIsPositive(k);
      DoubleFits(Word(Join, 0, bits[1..]), Largest(k), bits[0]);
    }
  }

  // ---------- up to 32 bits at once ----------

  lemma AddingZero()
    ensures forall c :: Add(c, 0) == c
  {}

  lemma AddJoined(c: bv32, bit: bool, w: bv32)
    ensures Add(c, Join(bit, w)) == Add(Add(c, BitWord(bit)), w << 1)
  {
    AddIsAssociative(c, BitWord(bit), w << 1);
  }

  lemma PostponedWord(c: bv32, bit: bool, w: bv32)
    requires w <= 0x7FFF_FFFF
    ensures Shift(Add(c, Join(bit, w))) == Add(BitStep(c, bit), w)
  {
    AddJoined(c, bit, w);
    JoinedLater(Add(c, BitWord(bit)), w);
  }

  lemma Postponed(c: bv32, bit: bool, rest: seq<bool>)
    requires |rest| < 32
    ensures Shift(Add(c, Join(bit, Word(Join, 0, rest)))) == Add(BitStep(c, bit), Word(Join, 0, rest))
  {
    WordFits(rest);
    PostponedWord(c, bit, Word(Join, 0, rest));
  }

  lemma Postpones32()
    ensures Postpones(BitStep, Shift, Add, Join, 0, 32)
  {
    AddingZero();
    forall c, bit, rest: seq<bool> | |rest| < 32
      ensures Shift(Add(c, Join(bit, Word(Join, 0, rest)))) == Add(BitStep(c, bit), Word(Join, 0, rest))
    {
      Postponed(c, bit, rest);
    }
  }

  /** Different inputs of at most 32 bits lead the register to different states. */
  lemma ShortInputsApart(c: bv32, bits: seq<bool>, bits': seq<bool>)
    requires |bits| == |bits'| <= 32 && bits != bits'
    ensures Feed(BitStep, c, bits) != Feed(BitStep, c, bits')
  {
    Postpones32();
    FeedAtOnce(BitStep, Shift, Add, Join, 0, 32, c, bits);
    FeedAtOnce(BitStep, Shift, Add, Join, 0, 32, c, bits');
    WordsOfBitsApart(bits, bits');
    AddKeepsApart(c, Word(Join, 0, bits), Word(Join, 0, bits'));
    forall x, y ensures Shift(x) == Shift(y) ==> x == y { ShiftIsInjective(x, y); }
    ShiftsKeepApart(Shift, Add(c, Word(Join, 0, bits)), Add(c, Word(Join, 0, bits')), |bits|);
  }

  lemma AddKeepsApart(c: bv32, d: bv32, e: bv32)
    requires d != e
    ensures Add(c, d) != Add(c, e)
  {}

  function LowBit(w: bv32): bool { w & 1 == 1 }
  function Half(w: bv32): bv32 { w >> 1 }

  lemma WordsOfBitsApart(bits: seq<bool>, bits': seq<bool>)
    requires |bits| == |bits'| <= 32 && bits != bits'
    ensures Word(Join, 0, bits) != Word(Join, 0, bits')
  {
    forall bit, rest: seq<bool> | |rest| < 32
      ensures LowBit(Join(bit, Word(Join, 0, rest))) == bit
      ensures Half(Join(bit, Word(Join, 0, rest))) == Word(Join, 0, rest)
    {
      WordFits(rest);
      JoinedTakenApart(bit, Word(Join, 0, rest));
    }
    WordsApart(Join, 0, LowBit, Half, 32, bits, bits');
  }

  /** A burst of errors of at most 32 bits is always detected, wherever it starts: two messages
      that agree outside 32 consecutive bits and are not the same have different checksums. */
  lemma BurstDetected(before: seq<bool>, burst: seq<bool>, burst': seq<bool>, after: seq<bool>)
    requires |burst| == |burst'| <= 32 && burst != burst'
    ensures Feed(BitStep, START, before + burst + after) ^ START !=
            Feed(BitStep, START, before + burst' + after) ^ START
  {
    FeedConcat(BitStep, START, before, burst);
    FeedConcat(BitStep, START, before, burst');
    FeedConcat(BitStep, START, before + burst, after);
    FeedConcat(BitStep, START, before + burst', after);
    var c := Feed(BitStep, START, before);
    ShortInputsApart(c, burst, burst');
    forall x, y, bit ensures BitStep(x, bit) == BitStep(y, bit) ==> x == y { StepIsInjective(x, y, bit); }
    FeedKeepsApart(BitStep, Feed(BitStep, c, burst), Feed(BitStep, c, burst'), after);
  }

  // ---------- bytes ----------

  lemma {:induction false} BitsLength(m: seq<bv8>)
    ensures |Bits(m)| == 8 * |m|
  {
    if m != [] { BitsLength(m[1..]); }
  }

  lemma ByteBitsApart(b: bv8, b': bv8)
    requires ByteBits(b) == ByteBits(b')
    ensures b == b'
  {
    forall i | 0 <= i < 8 ensures ByteBits(b)[i] == ByteBits(b')[i] {}
    assert ByteBits(b)[0] == ByteBits(b')[0] && ByteBits(b)[1] == ByteBits(b')[1] && ByteBits(b)[2] == ByteBits(b')[2];
    assert ByteBits(b)[3] == ByteBits(b')[3] && ByteBits(b)[4] == ByteBits(b')[4] && ByteBits(b)[5] == ByteBits(b')[5];
    assert ByteBits(b)[6] == ByteBits(b')[6] && ByteBits(b)[7] == ByteBits(b')[7];
  }

  lemma {:induction false} BitsApart(m: seq<bv8>, m': seq<bv8>)
    requires |m| == |m'| && Bits(m) == Bits(m')
    ensures m == m'
  {
    if m != [] {
      assert Bits(m)[..8] == ByteBits(m[0]) && Bits(m')[..8] == ByteBits(m'[0]);
      ByteBitsApart(m[0], m'[0]);
      assert Bits(m)[8..] == Bits(m[1..]) && Bits(m')[8..] == Bits(m'[1..]);
      BitsApart(m[1..], m'[1..]);
      assert m == [m[0]] + m[1..] && m' == [m'[0]] + m'[1..];
    }
  }

  /** Two messages of the same length that differ, but only within the four bytes from p on,
      have different checksums. */
  lemma FourBytesDetected(m: seq<bv8>, m': seq<bv8>, p: nat)
    requires |m| == |m'| && m != m' && p <= |m|
    requires m[..p] == m'[..p] && (p + 4 <= |m| ==> m[p + 4..] == m'[p + 4..])
    ensures Crc(m) != Crc(m')
  {
    var q := if p + 4 <= |m| then p + 4 else |m|;
    var burst, burst' := m[p..q], m'[p..q];
    assert m == m[..p] + burst + m[q..] && m' == m[..p] + burst' + m[q..];
    FlattenConcat(ByteBits, m[..p] + burst, m[q..]);
    FlattenConcat(ByteBits, m[..p] + burst', m[q..]);
    FlattenConcat(ByteBits, m[..p], burst);
    FlattenConcat(ByteBits, m[..p], burst');
    BitsLength(burst);
    BitsLength(burst');
    if Bits(burst) == Bits(burst') {
      BitsApart(burst, burst');
      assert false;
    }
    BurstDetected(Bits(m[..p]), Bits(burst), Bits(burst'), Bits(m[q..]));
  }

  // ---------- the table ----------

  function Entry(i: bv32): bv32 { Shifts(Shift, i, 8) }

  lemma JoinLowest(b: bv8)
    ensures Join(b & 1 == 1, (b >> 1) as bv32) == b as bv32
  {}

  lemma HalvesOfByte(b: bv8)
    ensures b >> 2 == (b >> 1) >> 1 && b >> 3 == (b >> 2) >> 1 && b >> 4 == (b >> 3) >> 1
    ensures b >> 5 == (b >> 4) >> 1 && b >> 6 == (b >> 5) >> 1 && b >> 7 == (b >> 6) >> 1 && (b >> 7) >> 1 == 0
  {}

  lemma WordOfByte(b: bv8)
    ensures Word(Join, 0, ByteBits(b)) == b as bv32
  {
    WordOfEight(Join, 0, ByteBits(b));
    HalvesOfByte(b);
    JoinLowest(b >> 7);
    JoinLowest(b >> 6);
    JoinLowest(b >> 5);
    JoinLowest(b >> 4);
    JoinLowest(b >> 3);
    JoinLowest(b >> 2);
    JoinLowest(b >> 1);
    JoinLowest(b);
  }

  lemma EvenShift(y: bv32, n: nat)
    requires n > 0 && y & 1 == 0
    ensures Shifts(Shift, y, n) == Shifts(Shift, y >> 1, n - 1)
  {}

  lemma EightShifts(y: bv32)
    requires y & 0xFF == 0
    ensures Shifts(Shift, y, 8) == y >> 8
  {
    EvenShift(y, 8);
    EvenShift(y >> 1, 7);
    EvenShift(y >> 2, 6);
    EvenShift(y >> 3, 5);
    EvenShift(y >> 4, 4);
    EvenShift(y >> 5, 3);
    EvenShift(y >> 6, 2);
    EvenShift(y >> 7, 1);
  }

  lemma SplitByte(x: bv32)
    ensures Add(x & 0xFFFF_FF00, x & 0xFF) == x && (x & 0xFFFF_FF00) >> 8 == x >> 8 && (x & 0xFFFF_FF00) & 0xFF == 0
  {}

  lemma EntryOfSum(x: bv32)
    ensures Entry(x) == Add(x >> 8, Entry(x & 0xFF))
  {
    forall a, b ensures Shift(Add(a, b)) == Add(Shift(a), Shift(b)) { ShiftIsLinear(a, b); }
    ShiftsAreLinear(Shift, Add, x & 0xFFFF_FF00, x & 0xFF, 8);
    SplitByte(x);
    EightShifts(x & 0xFFFF_FF00);
  }

  lemma HighBytes(c: bv32, b: bv8)
    ensures Add(c, b as bv32) >> 8 == c >> 8
  {}

  lemma EightSteps(c: bv32, b: bv8)
    ensures Feed(BitStep, c, ByteBits(b)) == Entry(Add(c, b as bv32))
  {
    Postpones32();
    FeedAtOnce(BitStep, Shift, Add, Join, 0, 32, c, ByteBits(b));
    WordOfByte(b);
  }

  /** One look-up does what eight steps of the register do. */
  lemma LookUpIsEightSteps(c: bv32, b: bv8)
    ensures Add(c >> 8, Entry(Add(c, b as bv32) & 0xFF)) == Feed(BitStep, c, ByteBits(b))
  {
    EightSteps(c, b);
    EntryOfSum(Add(c, b as bv32));
    HighBytes(c, b);
  }

  // ---------- the check value ----------

  lemma FourShifts(x: bv32, y: bv32)
    requires y == Shift(Shift(Shift(Shift(x))))
    ensures Shifts(Shift, x, 4) == y
  {
    assert Shifts(Shift, x, 4) == Shifts(Shift, Shift(x), 3) == Shifts(Shift, Shift(Shift(x)), 2);
  }

  lemma {:induction false} ShiftsAddUp(x: bv32, m: nat, n: nat)
    ensures Shifts(Shift, x, m + n) == Shifts(Shift, Shifts(Shift, x, m), n)
    decreases m
  {
    if m > 0 { ShiftsAddUp(Shift(x), m - 1, n); }
  }

  /** One byte, by way of the state after four bits. */
  lemma ByteFed(c: bv32, b: bv8, half: bv32, c': bv32)
    requires half == Shift(Shift(Shift(Shift(Add(c, b as bv32)))))
    requires c' == Shift(Shift(Shift(Shift(half))))
    ensures Feed(BitStep, c, ByteBits(b)) == c'
  {
    EightSteps(c, b);
    FourShifts(Add(c, b as bv32), half);
    FourShifts(half, c');
    ShiftsAddUp(Add(c, b as bv32), 4, 4);
  }

  lemma FedOneByte(c: bv32, m: seq<bv8>, b: bv8, m': seq<bv8>)
    requires m' == [b] + m
    ensures Feed(BitStep, c, Bits(m')) == Feed(BitStep, Feed(BitStep, c, ByteBits(b)), Bits(m))
  {
    assert m'[0] == b && m'[1..] == m;
    FeedConcat(BitStep, c, ByteBits(b), Bits(m));
  }

  lemma FedThreeBytes(c: bv32, a: bv8, b: bv8, d: bv8, c1: bv32, c2: bv32, c3: bv32)
    requires Feed(BitStep, c, ByteBits(a)) == c1
    requires Feed(BitStep, c1, ByteBits(b)) == c2 && Feed(BitStep, c2, ByteBits(d)) == c3
    ensures Feed(BitStep, c, Bits([a, b, d])) == c3
  {
    FedOneByte(c, [b, d], a, [a, b, d]);
    FedOneByte(c1, [d], b, [b, d]);
    FedOneByte(c2, [], d, [d]);
  }

  lemma FirstThree()
    ensures Feed(BitStep, 0xFFFFFFFF, Bits([0x31, 0x32, 0x33])) == 0x77B79C2D
  {
    ByteFed(0xFFFFFFFF, 0x31, 0xAFF51D84, 0x7C231048);
    ByteFed(0x7C231048, 0x32, 0xD11492EF, 0xB0ACBB32);
    ByteFed(0xB0ACBB32, 0x33, 0x16BDDBD4, 0x77B79C2D);
    FedThreeBytes(0xFFFFFFFF, 0x31, 0x32, 0x33, 0x7C231048, 0xB0ACBB32, 0x77B79C2D);
  }

  lemma MiddleThree()
    ensures Feed(BitStep, 0x77B79C2D, Bits([0x34, 0x35, 0x36])) == 0xF68D2C9E
  {
    ByteFed(0x77B79C2D, 0x34, 0xF774EA85, 0x641C1F5C);
    ByteFed(0x641C1F5C, 0x35, 0xF64E52B2, 0x340AC5E3);
    ByteFed(0x340AC5E3, 0x36, 0x682BFDA9, 0xF68D2C9E);
    FedThreeBytes(0x77B79C2D, 0x34, 0x35, 0x36, 0x641C1F5C, 0x340AC5E3, 0xF68D2C9E);
  }

  lemma LastThree()
    ensures Feed(BitStep, 0xF68D2C9E, Bits([0x37, 0x38, 0x39])) == 0x340BC6D9
  {
    ByteFed(0xF68D2C9E, 0x37, 0xFF67418E, 0xAFFC9660);
    ByteFed(0xAFFC9660, 0x38, 0xE7474A45, 0x651F2550);
    ByteFed(0x651F2550, 0x39, 0xF65E6112, 0x340BC6D9);
    FedThreeBytes(0xF68D2C9E, 0x37, 0x38, 0x39, 0xAFFC9660, 0x651F2550, 0x340BC6D9);
  }

  lemma FedMore(c: bv32, m: seq<bv8>, more: seq<bv8>)
    ensures Feed(BitStep, c, Bits(m + more)) == Feed(BitStep, Feed(BitStep, c, Bits(m)), Bits(more))
  {
    FlattenConcat(ByteBits, m, more);
    FeedConcat(BitStep, c, Bits(m), Bits(more));
  }

  /** The check value of this CRC: the checksum of the characters 1 to 9. */
  lemma CheckValue()
    ensures Crc([0x31, 0x32, 0x33] + [0x34, 0x35, 0x36] + [0x37, 0x38, 0x39]) == 0xCBF4_3926
  {
    FirstThree();
    MiddleThree();
    LastThree();
    FedMore(START, [0x31, 0x32, 0x33], [0x34, 0x35, 0x36]);
    FedMore(START, [0x31, 0x32, 0x33] + [0x34, 0x35, 0x36], [0x37, 0x38, 0x39]);
  }

  // ---------- the program ----------

  ghost predicate Complete(table: seq<bv32>) {
    |table| == 256 && forall i: bv32 :: i <= 0xFF ==> table[i as int] == Entry(i)
  }

  lemma IndexOfByte(i: bv32)
    requires i <= 0xFF
    ensures 0 <= i as int < 256 && (i as int) as bv32 == i
  {}

  /** The inner loop of gen_table (34-42). */
  method GenEntry(i: bv32) returns (crc: bv32)
    ensures crc == Entry(i)
  {
    crc := i;
    var j := 8;
    while j > 0
      invariant 0 <= j <= 8 && Shifts(Shift, crc, j) == Entry(i)
    {
      if crc & 1 == 1 {
        crc := (crc >> 1) ^ POLY;
      } else {
        crc := crc >> 1;
      }
      j := j - 1;
    }
  }

  /** gen_table */
  method GenTable(table: array<bv32>)
    requires table.Length == 256
    modifies table
    ensures Complete(table[..])
  {
    for i := 0 to 256
      invariant table[..i] == Entries(i)
    {
      var crc := GenEntry(AsWord(i));
      table[i] := crc;
      assert table[..i + 1] == table[..i] + [crc];
    }
    assert table[..256] == table[..];
    EntriesComplete(table[..]);
  }

  function AsWord(i: nat): bv32
    requires i < 256
  {
    i as bv32
  }

  /** The first n entries. */
  function Entries(n: nat): (t: seq<bv32>)
    requires n <= 256
    ensures |t| == n
  {
    if n == 0 then [] else Entries(n - 1) + [Entry(AsWord(n - 1))]
  }

  lemma {:induction false} EntriesAt(n: nat, k: nat)
    requires k < n <= 256
    ensures Entries(n)[k] == Entry(AsWord(k))
  {
    if k < n - 1 { EntriesAt(n - 1, k); }
  }

  lemma EntriesComplete(table: seq<bv32>)
    requires table == Entries(256)
    ensures Complete(table)
  {
    forall i: bv32 | i <= 0xFF ensures table[i as int] == Entry(i) {
      IndexOfByte(i);
      EntriesAt(256, i as int);
    }
  }

  /** A complete table is not taken for a missing one. */
  lemma FirstEntry(table: seq<bv32>)
    requires Complete(table)
    ensures table[0] == 0
  {
    EightShifts(0);
    var i: bv32 := 0;
    assert table[i as int] == Entry(i);
  }

  lemma EntryInTable(table: seq<bv32>, i: bv32)
    requires Complete(table) && i <= 0xFF
    ensures i as int < |table| && table[i as int] == Entry(i)
  {
    IndexOfByte(i);
  }

  /** One round of the loop of crc32_memory (60). */
  method LookUp(table: array<bv32>, crc: bv32, b: bv8) returns (crc': bv32)
    requires Complete(table[..])
    ensures crc' == Feed(BitStep, crc, ByteBits(b))
  {
    var i := Add(crc, b as bv32) & 0xFF;
    assert i <= 0xFF;
    EntryInTable(table[..], i);
    crc' := Add(crc >> 8, table[i as int]);
    assert crc' == Add(crc >> 8, Entry(i));
    LookUpIsEightSteps(crc, b);
  }

  /** The counter of crc32_memory (50, 59) is an unsigned int compared with a size_t: some value
      it takes ends the loop exactly if the length is below 2^32. */
  lemma LoopEndsIff(byteCount: nat)
    ensures (exists n: nat :: Counter(n) >= byteCount) <==> byteCount < 0x1_0000_0000
  {
    if byteCount < 0x1_0000_0000 {
      assert Counter(byteCount) >= byteCount;
    }
  }

  /** The counter after n rounds. */
  function Counter(n: nat): nat { n % 0x1_0000_0000 }

  /** crc32_memory, on a length for which its loop ends. The table counts as missing while its
      first entry is 1. */
  method Crc32Memory(table: array<bv32>, memory: seq<bv8>) returns (r: bv32)
    requires |memory| < 0x1_0000_0000
    requires table.Length == 256 && (table[0] == 1 || Complete(table[..]))
    modifies table
    ensures Complete(table[..]) && r == Crc(memory)
  {
    if table[0] == 1 {
      GenTable(table);
      assert table[0] != 1 by { FirstEntry(table[..]); }
    }
    var crc := START;
    for i := 0 to |memory|
      invariant Complete(table[..]) && crc == Feed(BitStep, START, Flatten(ByteBits, memory[..i]))
    {
      FeedOneMore(BitStep, START, ByteBits, memory[..i], memory[i]);
      assert memory[..i + 1] == memory[..i] + [memory[i]];
      crc := LookUp(table, crc, memory[i]);
    }
    assert memory[..|memory|] == memory;
    r := crc ^ START;
  }
}
