/**
 * The CRC of a PNG chunk: the table-driven loop against the bit-by-bit definition of section 3.4 of
 * RFC 2083 (polynomial 0xedb88320 in reflected form, register preset to all ones, result
 * complemented).
 */
module Crc32 {
  import opened Prelude

  const POLYNOMIAL: bv32 := 0xedb88320

  /** One division step: shift out the low bit and, if it was set, subtract the polynomial. */
  function Shift(c: bv32): bv32 {
    if Odd(c) then Xor(POLYNOMIAL, Half(c)) else Half(c)
  }

  function Low(c: bv32): bv32 {
    c & 0xff
  }

  function High(c: bv32): bv32 {
    c >> 8
  }

  predicate Odd(c: bv32) {
    c & 1 != 0
  }

  function Half(c: bv32): bv32 {
    c >> 1
  }

  function Xor(a: bv32, b: bv32): bv32 {
    a ^ b
  }

  function Shifts(c: bv32, n: nat): bv32 {
    if n == 0 then c else Shift(Shifts(c, n - 1))
  }

  // ---------------------------------------------------------------------------------------------
  // The definition, one message bit at a time
  // ---------------------------------------------------------------------------------------------

  /** A message bit enters at the low end of the register. */
  function FeedBit(crc: bv32, bit: bool): bv32 {
    Shift(if bit then crc ^ 1 else crc)
  }

  function FeedBits(crc: bv32, bits: seq<bool>): bv32 {
    if bits == [] then crc else FeedBit(FeedBits(crc, bits[..|bits| - 1]), bits[|bits| - 1])
  }

  function Bit(b: bv8, i: nat): bool
    requires i < 8
  {
    (b >> i) & 1 == 1
  }

  /** The bits of a byte, least significant first. */
  function Bits(b: bv8): seq<bool> {
    [Bit(b, 0), Bit(b, 1), Bit(b, 2), Bit(b, 3), Bit(b, 4), Bit(b, 5), Bit(b, 6), Bit(b, 7)]
  }

  function MessageBits(buf: seq<bv8>): seq<bool> {
    if buf == [] then [] else MessageBits(buf[..|buf| - 1]) + Bits(buf[|buf| - 1])
  }

  function Crc(buf: seq<bv8>): bv32 {
    FeedBits(0xffffffff, MessageBits(buf)) ^ 0xffffffff
  }

  // ---------------------------------------------------------------------------------------------
  // Linearity
  // ---------------------------------------------------------------------------------------------

  lemma XorMoves(a: bv32, b: bv32)
    ensures Half(Xor(a, b)) == Xor(Half(a), Half(b))
    ensures Odd(Xor(a, b)) <==> Odd(a) != Odd(b)
  {
    assert (a ^ b) & 1 == (a & 1) ^ (b & 1);
    OneBit(a);
    OneBit(b);
  }

  lemma OneBit(a: bv32)
    ensures a & 1 == 0 || a & 1 == 1
  {
  }

  lemma XorCancels(p: bv32, a: bv32, b: bv32)
    ensures Xor(Xor(p, a), Xor(p, b)) == Xor(a, b)
    ensures Xor(p, Xor(a, b)) == Xor(Xor(p, a), b) == Xor(a, Xor(p, b))
  {
  }

  lemma XorRegroups(a: bv32, b: bv32, c: bv32)
    ensures Xor(Xor(a, b), c) == Xor(a, Xor(b, c))
    ensures Xor(a, 0) == a
  {
  }

  /** Shifting distributes over exclusive or: subtraction without carries. */
  lemma ShiftIsLinear(a: bv32, b: bv32)
    ensures Shift(Xor(a, b)) == Xor(Shift(a), Shift(b))
  {
    hide Xor, Half, Odd;
    XorMoves(a, b);
    XorCancels(POLYNOMIAL, Half(a), Half(b));
  }

  lemma {:induction false} ShiftsAreLinear(a: bv32, b: bv32, n: nat)
    ensures Shifts(Xor(a, b), n) == Xor(Shifts(a, n), Shifts(b, n))
  {
    hide Shift, Xor;
    if n > 0 {
      ShiftsAreLinear(a, b, n - 1);
      ShiftIsLinear(Shifts(a, n - 1), Shifts(b, n - 1));
    }
  }

  lemma {:induction false} FirstShift(c: bv32, n: nat)
    requires n > 0
    ensures Shifts(c, n) == Shifts(Shift(c), n - 1)
  {
    hide Shift;
    if n > 1 {
      FirstShift(c, n - 1);
    }
  }

  // ---------------------------------------------------------------------------------------------
  // The identity behind the table
  // ---------------------------------------------------------------------------------------------

  /** Bits above the low byte only move down. */
  lemma HighBitsOnlyMove(c: bv32)
    requires Low(c) == 0
    ensures Shifts(c, 8) == High(c)
  {
    LowBitsClear(c);
    HalfAgain(c);
    hide Odd, Half, Xor, Low;
    assert Shifts(c, 1) == c >> 1 && Shifts(c, 2) == c >> 2 && Shifts(c, 3) == c >> 3 && Shifts(c, 4) == c >> 4;
    assert Shifts(c, 5) == c >> 5 && Shifts(c, 6) == c >> 6 && Shifts(c, 7) == c >> 7;
  }

  lemma LowBitsClear(c: bv32)
    requires Low(c) == 0
    ensures !Odd(c) && !Odd(c >> 1) && !Odd(c >> 2) && !Odd(c >> 3)
    ensures !Odd(c >> 4) && !Odd(c >> 5) && !Odd(c >> 6) && !Odd(c >> 7)
  {
  }

  lemma HalfAgain(c: bv32)
    ensures Half(c) == c >> 1 && Half(c >> 1) == c >> 2 && Half(c >> 2) == c >> 3 && Half(c >> 3) == c >> 4
    ensures Half(c >> 4) == c >> 5 && Half(c >> 5) == c >> 6 && Half(c >> 6) == c >> 7 && Half(c >> 7) == c >> 8
  {
  }

  function Rest(c: bv32): bv32 {
    c & 0xffffff00
  }

  lemma SplitByte(c: bv32)
    ensures c == Xor(Low(c), Rest(c)) && Low(Rest(c)) == 0 && High(Rest(c)) == High(c)
  {
  }

  /** Eight steps are a look-up of the low byte and a move of the rest. */
  lemma TableIdentity(c: bv32)
    ensures Shifts(c, 8) == Xor(Shifts(Low(c), 8), High(c))
  {
    hide *;
    SplitByte(c);
    HighBitsOnlyMove(Rest(c));
    LinearAt(c, Low(c), Rest(c));
  }

  lemma LinearAt(c: bv32, low: bv32, high: bv32)
    requires c == Xor(low, high)
    ensures Shifts(c, 8) == Xor(Shifts(low, 8), Shifts(high, 8))
  {
    hide Shifts, Shift, Xor;
    ShiftsAreLinear(low, high, 8);
  }

  // ---------------------------------------------------------------------------------------------
  // A byte at a time is its bits one by one
  // ---------------------------------------------------------------------------------------------

  function Weight(i: nat): bv32
    requires i < 8
  {
    match i
    case 0 => 0x01
    case 1 => 0x02
    case 2 => 0x04
    case 3 => 0x08
    case 4 => 0x10
    case 5 => 0x20
    case 6 => 0x40
    case _ => 0x80
  }

  function Part(bit: bool, i: nat): bv32
    requires i < 8
  {
    if bit then Weight(i) else 0
  }

  function Packed(bits: seq<bool>): bv32
    requires |bits| <= 8
  {
    if bits == [] then 0 else Xor(Packed(bits[..|bits| - 1]), Part(bits[|bits| - 1], |bits| - 1))
  }

  lemma {:induction false} LoneBit(n: nat)
    requires n < 8
    ensures Shifts(Weight(n), n) == 1
  {
    if n > 0 {
      FirstShift(Weight(n), n);
      assert Shift(Weight(n)) == Weight(n - 1);
      LoneBit(n - 1);
    }
  }

  lemma {:induction false} ZeroStays(n: nat)
    ensures Shifts(0, n) == 0
  {
    if n > 0 {
      ZeroStays(n - 1);
    }
  }

  /** A message bit fed after `n` others has the effect of a register bit `n` places up. */
  lemma PartShifts(bit: bool, n: nat)
    requires n < 8
    ensures Shifts(Part(bit, n), n) == if bit then 1 else 0
  {
    LoneBit(n);
    ZeroStays(n);
    hide Shifts, Weight;
  }

  lemma FeedIsXor(crc: bv32, bit: bool)
    ensures FeedBit(crc, bit) == Shift(Xor(crc, if bit then 1 else 0))
  {
    XorRegroups(crc, crc, crc);
    hide Shift;
  }

  lemma {:induction false} FeedIsShift(crc: bv32, bits: seq<bool>)
    requires |bits| <= 8
    ensures FeedBits(crc, bits) == Shifts(Xor(crc, Packed(bits)), |bits|)
  {
    hide Shift, Xor, FeedBit, Part;
    if bits == [] {
      XorRegroups(crc, crc, crc);
    } else {
      var n := |bits| - 1;
      var front, top := Packed(bits[..n]), Part(bits[n], n);
      FeedIsShift(crc, bits[..n]);
      PartShifts(bits[n], n);
      ShiftsAreLinear(Xor(crc, front), top, n);
      XorRegroups(crc, front, top);
      FeedIsXor(FeedBits(crc, bits[..n]), bits[n]);
    }
  }

  lemma PackedEight(bits: seq<bool>)
    requires |bits| == 8
    ensures
      Packed(bits) ==
      Xor(Xor(Xor(Xor(Xor(Xor(Xor(Xor(0, Part(bits[0], 0)), Part(bits[1], 1)), Part(bits[2], 2)), Part(bits[3], 3)),
                      Part(bits[4], 4)), Part(bits[5], 5)), Part(bits[6], 6)), Part(bits[7], 7))
  {
    hide Part, Xor;
    assert bits[..7][..6] == bits[..6] && bits[..6][..5] == bits[..5] && bits[..5][..4] == bits[..4] && bits[..4][..3] == bits[..3];
    assert bits[..3][..2] == bits[..2] && bits[..2][..1] == bits[..1] && bits[..1][..0] == [];
    assert Packed(bits[..1]) == Xor(0, Part(bits[0], 0));
    assert Packed(bits[..2]) == Xor(Packed(bits[..1]), Part(bits[1], 1));
    assert Packed(bits[..3]) == Xor(Packed(bits[..2]), Part(bits[2], 2));
    assert Packed(bits[..4]) == Xor(Packed(bits[..3]), Part(bits[3], 3));
    assert Packed(bits[..5]) == Xor(Packed(bits[..4]), Part(bits[4], 4));
    assert Packed(bits[..6]) == Xor(Packed(bits[..5]), Part(bits[5], 5));
    assert Packed(bits[..7]) == Xor(Packed(bits[..6]), Part(bits[6], 6));
  }

  lemma BitsPack(b: bv8)
    ensures Packed(Bits(b)) == b as bv32
  {
    PackedEight(Bits(b));
    hide Packed;
  }

  // ---------------------------------------------------------------------------------------------
  // The table and the loop
  // ---------------------------------------------------------------------------------------------

  lemma {:induction false} FeedConcat(crc: bv32, a: seq<bool>, b: seq<bool>)
    ensures FeedBits(crc, a + b) == FeedBits(FeedBits(crc, a), b)
  {
    hide FeedBit;
    if b == [] {
      assert a + b == a;
    } else {
      assert (a + b)[..|a + b| - 1] == a + b[..|b| - 1];
      FeedConcat(crc, a, b[..|b| - 1]);
    }
  }

  lemma HighOfXor(crc: bv32, b: bv8)
    ensures High(Xor(crc, b as bv32)) == High(crc)
  {
  }

  /** One turn of the loop is eight turns of the definition. */
  lemma FeedByte(crc: bv32, b: bv8)
    ensures FeedBits(crc, Bits(b)) == Xor(Shifts(Low(Xor(crc, b as bv32)), 8), High(crc))
  {
    hide *;
    EightBits(b);
    FeedIsShift(crc, Bits(b));
    BitsPack(b);
    HighOfXor(crc, b);
    TableIdentity(Xor(crc, b as bv32));
  }

  lemma EightBits(b: bv8)
    ensures |Bits(b)| == 8
  {
  }

  ghost predicate IsTable(table: array<bv32>)
    reads table
  {
    table.Length == 256 && forall n :: 0 <= n < 256 ==> table[n] == Shifts(n as bv32, 8)
  }

  method MakeTable() returns (table: array<bv32>)
    ensures fresh(table) && IsTable(table)
  {
    table := new bv32[256];
    for n := 0 to 256
      invariant forall m :: 0 <= m < n ==> table[m] == Shifts(m as bv32, 8)
    {
      var c := n as bv32;
      for k := 0 to 8
        invariant c == Shifts(n as bv32, k)
      {
        c := if c & 1 != 0 then 0xedb88320 ^ (c >> 1) else c >> 1;
      }
      table[n] := c;
    }
  }

  lemma IntAndBack(c: bv32)
    ensures (c as int) as bv32 == c
  {
  }

  lemma LowIsSmall(c: bv32)
    ensures Low(c) as int < 256
  {
  }

  lemma LookUp(table: array<bv32>, c: bv32)
    requires IsTable(table)
    ensures Low(c) as int < table.Length && table[Low(c) as int] == Shifts(Low(c), 8)
  {
    hide Low, Shifts;
    LowIsSmall(c);
    IntAndBack(Low(c));
  }

  /** CRC_TABLE[(crc ^ byte) & 0xff] ^ (crc >>> 8) */
  method Turn(crc: bv32, byte: bv8, table: array<bv32>) returns (next: bv32)
    requires IsTable(table)
    ensures next == FeedBits(crc, Bits(byte))
  {
    hide *;
    FeedByte(crc, byte);
    LookUp(table, Xor(crc, byte as bv32));
    next := Xor(table[Low(Xor(crc, byte as bv32)) as int], High(crc));
  }

  method Compute(buf: seq<bv8>, table: array<bv32>) returns (crc: bv32)
    requires IsTable(table)
    ensures crc == Crc(buf)
  {
    hide Bits, IsTable;
    crc := 0xffffffff;
    for i := 0 to |buf|
      invariant crc == FeedBits(0xffffffff, MessageBits(buf[..i]))
    {
      assert buf[..i + 1][..i] == buf[..i];
      FeedConcat(0xffffffff, MessageBits(buf[..i]), Bits(buf[i]));
      crc := Turn(crc, buf[i], table);
    }
    assert buf[..|buf|] == buf;
    crc := crc ^ 0xffffffff;
  }

  // ---------------------------------------------------------------------------------------------
  // What a CRC is for
  // ---------------------------------------------------------------------------------------------

  lemma ShiftIsInjective(a: bv32, b: bv32)
    requires Shift(a) == Shift(b)
    ensures a == b
  {
    OnlyZeroShiftsToZero(Xor(a, b));
    ShiftIsLinear(a, b);
    XorZeroIff(a, b);
    XorZeroIff(Shift(a), Shift(b));
    hide Shift, Xor;
  }

  lemma OnlyZeroShiftsToZero(c: bv32)
    ensures Shift(c) == 0 ==> c == 0
  {
  }

  lemma XorZeroIff(a: bv32, b: bv32)
    ensures Xor(a, b) == 0 <==> a == b
  {
    XorBack(a, b);
    XorBack(0, b);
    XorWithSelf(b);
    hide Xor;
  }

  lemma XorBack(a: bv32, b: bv32)
    ensures Xor(Xor(a, b), b) == a
  {
  }

  lemma XorWithSelf(b: bv32)
    ensures Xor(b, b) == 0 && Xor(0, b) == b
  {
  }

  lemma XorSameIff(a: bv32, b: bv32, c: bv32)
    ensures Xor(a, b) == Xor(a, c) ==> b == c
    ensures Xor(b, a) == Xor(c, a) ==> b == c
  {
  }

  lemma {:induction false} ShiftsAreInjective(a: bv32, b: bv32, n: nat)
    requires Shifts(a, n) == Shifts(b, n)
    ensures a == b
  {
    hide Shift;
    if n > 0 {
      ShiftIsInjective(Shifts(a, n - 1), Shifts(b, n - 1));
      ShiftsAreInjective(a, b, n - 1);
    }
  }

  lemma {:induction false} FeedIsInjective(a: bv32, b: bv32, bits: seq<bool>)
    requires FeedBits(a, bits) == FeedBits(b, bits)
    ensures a == b
  {
    hide Shift, Xor, FeedBit;
    if bits != [] {
      var front, bit := bits[..|bits| - 1], bits[|bits| - 1];
      var low: bv32 := if bit then 1 else 0;
      var x, y := FeedBits(a, front), FeedBits(b, front);
      FeedIsXor(x, bit);
      FeedIsXor(y, bit);
      ShiftIsInjective(Xor(x, low), Xor(y, low));
      XorSameIff(low, x, y);
      FeedIsInjective(a, b, front);
    }
  }

  lemma BytesDiffer(crc: bv32, x: bv8, y: bv8)
    requires FeedBits(crc, Bits(x)) == FeedBits(crc, Bits(y))
    ensures x == y
  {
    hide Shifts, Xor, Packed, FeedBits, Bits;
    EightBits(x);
    EightBits(y);
    FeedIsShift(crc, Bits(x));
    FeedIsShift(crc, Bits(y));
    BitsPack(x);
    BitsPack(y);
    ShiftsAreInjective(Xor(crc, x as bv32), Xor(crc, y as bv32), 8);
    XorSameIff(crc, x as bv32, y as bv32);
    WideBytes(x, y);
  }

  lemma WideBytes(x: bv8, y: bv8)
    ensures x as bv32 == y as bv32 ==> x == y
  {
  }

  lemma {:induction false} MessageConcat(a: seq<bv8>, b: seq<bv8>)
    ensures MessageBits(a + b) == MessageBits(a) + MessageBits(b)
  {
    hide Bits;
    if b == [] {
      assert a + b == a;
    } else {
      assert (a + b)[..|a + b| - 1] == a + b[..|b| - 1];
      MessageConcat(a, b[..|b| - 1]);
    }
  }

  lemma FeedMessage(before: seq<bv8>, x: bv8, after: seq<bv8>)
    ensures
      FeedBits(0xffffffff, MessageBits(before + [x] + after)) ==
      FeedBits(FeedBits(FeedBits(0xffffffff, MessageBits(before)), Bits(x)), MessageBits(after))
  {
    hide Bits;
    MessageConcat(before + [x], after);
    assert (before + [x])[..|before|] == before;
    FeedConcat(0xffffffff, MessageBits(before + [x]), MessageBits(after));
    FeedConcat(0xffffffff, MessageBits(before), Bits(x));
  }

  /** A chunk in which one byte was changed never has the CRC of the original. */
  lemma ChangedByteIsDetected(before: seq<bv8>, x: bv8, y: bv8, after: seq<bv8>)
    requires x != y
    ensures Crc(before + [x] + after) != Crc(before + [y] + after)
  {
    hide *;
    if Crc(before + [x] + after) == Crc(before + [y] + after) {
      SameRegister(before + [x] + after, before + [y] + after);
      FeedMessage(before, x, after);
      FeedMessage(before, y, after);
      var crc := FeedBits(0xffffffff, MessageBits(before));
      FeedIsInjective(FeedBits(crc, Bits(x)), FeedBits(crc, Bits(y)), MessageBits(after));
      BytesDiffer(crc, x, y);
    }
  }

  lemma SameRegister(a: seq<bv8>, b: seq<bv8>)
    requires Crc(a) == Crc(b)
    ensures FeedBits(0xffffffff, MessageBits(a)) == FeedBits(0xffffffff, MessageBits(b))
  {
    hide FeedBits, MessageBits;
    XorSameIff(0xffffffff, FeedBits(0xffffffff, MessageBits(a)), FeedBits(0xffffffff, MessageBits(b)));
  }

  // ---------------------------------------------------------------------------------------------
  // Chunks
  // ---------------------------------------------------------------------------------------------

  function LowByte(c: bv32): bv8 {
    (c & 0xff) as bv8
  }

  /** writeUInt32BE. */
  function BigEndian(c: bv32): seq<bv8> {
    [LowByte(c >> 24), LowByte(c >> 16), LowByte(c >> 8), LowByte(c)]
  }

  function Word(s: seq<bv8>): bv32
    requires |s| == 4
  {
    (s[0] as bv32 << 24) | (s[1] as bv32 << 16) | (s[2] as bv32 << 8) | s[3] as bv32
  }

  lemma Reassembles(c: bv32)
    ensures
      (LowByte(c >> 24) as bv32 << 24) | (LowByte(c >> 16) as bv32 << 16) | (LowByte(c >> 8) as bv32 << 8) | LowByte(c) as bv32 == c
  {
  }

  lemma WordIsInjective(s: seq<bv8>, t: seq<bv8>)
    requires |s| == 4 && |t| == 4 && Word(s) == Word(t)
    ensures s == t
  {
    hide Word;
    WordsAgree(s, t);
    assert s == [s[0], s[1], s[2], s[3]] && t == [t[0], t[1], t[2], t[3]];
  }

  lemma WordsAgree(s: seq<bv8>, t: seq<bv8>)
    requires |s| == 4 && |t| == 4 && Word(s) == Word(t)
    ensures s[0] == t[0] && s[1] == t[1] && s[2] == t[2] && s[3] == t[3]
  {
    BytesAgree(s[0], s[1], s[2], s[3], t[0], t[1], t[2], t[3]);
  }

  lemma BytesAgree(a: bv8, b: bv8, c: bv8, d: bv8, a': bv8, b': bv8, c': bv8, d': bv8)
    requires
      (a as bv32 << 24) | (b as bv32 << 16) | (c as bv32 << 8) | d as bv32 ==
      (a' as bv32 << 24) | (b' as bv32 << 16) | (c' as bv32 << 8) | d' as bv32
    ensures a == a' && b == b' && c == c' && d == d'
  {
  }

  /** Length, type, data, CRC of type and data: section 3.2 of RFC 2083. */
  function Chunk(kind: seq<bv8>, data: seq<bv8>): seq<bv8>
    requires |data| < 0x1_0000_0000
  {
    BigEndian(|data| as bv32) + (kind + data) + BigEndian(Crc(kind + data))
  }

  /** What a PNG reader checks. */
  predicate Intact(chunk: seq<bv8>) {
    |chunk| >= 8 && Word(chunk[|chunk| - 4..]) == Crc(chunk[4..|chunk| - 4])
  }

  /** pngChunk. writeUInt32BE throws when the length does not fit. */
  method PngChunk(kind: seq<bv8>, data: seq<bv8>) returns (chunk: Option<seq<bv8>>)
    ensures chunk == if |data| < 0x1_0000_0000 then Some(Chunk(kind, data)) else None
  {
    if |data| >= 0x1_0000_0000 {
      return None;
    }
    var table := MakeTable();
    var typeAndData := kind + data;
    var crc := Compute(typeAndData, table);
    return Some(BigEndian(|data| as bv32) + typeAndData + BigEndian(crc));
  }

  /** A reader gets back the length, the type and the data, and the check passes. */
  lemma ChunkReadsBack(kind: seq<bv8>, data: seq<bv8>)
    requires |data| < 0x1_0000_0000 && |kind| == 4
    ensures
      var chunk := Chunk(kind, data);
      && |chunk| == 12 + |data| && Intact(chunk)
      && Word(chunk[..4]) == |data| as bv32 && chunk[4..8] == kind && chunk[8..|chunk| - 4] == data
  {
    var chunk := Chunk(kind, data);
    hide Crc, Word, BigEndian;
    var length, crc := BigEndian(|data| as bv32), BigEndian(Crc(kind + data));
    FourBytes(|data| as bv32);
    FourBytes(Crc(kind + data));
    assert chunk[..4] == length && chunk[|chunk| - 4..] == crc;
    assert chunk[4..|chunk| - 4] == kind + data;
    assert chunk[4..8] == (kind + data)[..4] && chunk[8..|chunk| - 4] == (kind + data)[4..];
  }

  lemma FourBytes(c: bv32)
    ensures |BigEndian(c)| == 4 && Word(BigEndian(c)) == c
  {
    Reassembles(c);
  }

  /** One changed byte of a chunk, anywhere behind its length, always makes the check fail. */
  lemma DamageShows(chunk: seq<bv8>, i: nat, y: bv8)
    requires Intact(chunk) && 4 <= i < |chunk| && y != chunk[i]
    ensures !Intact(chunk[i := y])
  {
    hide Crc, Word;
    var n := |chunk| - 4;
    var damaged := chunk[i := y];
    if i < n {
      ChangedByteIsDetected(chunk[4..i], chunk[i], y, chunk[i + 1..n]);
      assert chunk[4..n] == chunk[4..i] + [chunk[i]] + chunk[i + 1..n];
      assert damaged[4..n] == chunk[4..i] + [y] + chunk[i + 1..n];
      assert damaged[n..] == chunk[n..];
    } else {
      assert damaged[4..n] == chunk[4..n];
      assert damaged[n..][i - n] != chunk[n..][i - n];
      if Word(damaged[n..]) == Word(chunk[n..]) {
        WordIsInjective(damaged[n..], chunk[n..]);
      }
    }
  }

  // ---------------------------------------------------------------------------------------------
  // A known chunk
  // ---------------------------------------------------------------------------------------------

  lemma EightShifts(c: seq<bv32>)
    requires |c| == 9 && forall i :: 0 <= i < 8 ==> c[i + 1] == Shift(c[i])
    ensures Shifts(c[0], 8) == c[8]
  {
    hide Shift;
    assert Shifts(c[0], 0) == c[0];
    assert Shifts(c[0], 1) == c[1];
    assert Shifts(c[0], 2) == c[2];
    assert Shifts(c[0], 3) == c[3];
    assert Shifts(c[0], 4) == c[4];
    assert Shifts(c[0], 5) == c[5];
    assert Shifts(c[0], 6) == c[6];
    assert Shifts(c[0], 7) == c[7];
  }

  /** One byte, from the values the register goes through. */
  lemma ByteThrough(crc: bv32, b: bv8, c: seq<bv32>)
    requires |c| == 9 && c[0] == Low(Xor(crc, b as bv32)) && forall i :: 0 <= i < 8 ==> c[i + 1] == Shift(c[i])
    ensures FeedBits(crc, Bits(b)) == Xor(c[8], High(crc))
  {
    hide *;
    EightShifts(c);
    FeedByte(crc, b);
  }

  lemma FirstByte()
    ensures FeedBits(0xffffffff, Bits(0x49)) == 0x22fde946
  {
    hide FeedBits, Bits;
    ByteThrough(0xffffffff, 0x49, [0xb6, 0x5b, 0xedb8830d, 0x9b64c2a6, 0x4db26153, 0xcb61b389, 0x88085ae4, 0x44042d72, 0x220216b9]);
  }

  lemma SecondByte()
    ensures FeedBits(0x22fde946, Bits(0x45)) == 0x992bac53
  {
    hide FeedBits, Bits;
    ByteThrough(0x22fde946, 0x45, [0x3, 0xedb88321, 0x9b64c2b0, 0x4db26158, 0x26d930ac, 0x136c9856, 0x9b64c2b, 0xe963a535, 0x990951ba]);
  }

  lemma ThirdByte()
    ensures FeedBits(0x992bac53, Bits(0x4e)) == 0x639f4775
  {
    hide FeedBits, Bits;
    ByteThrough(0x992bac53, 0x4e, [0x1d, 0xedb8832e, 0x76dc4197, 0xd6d6a3eb, 0x86d3d2d5, 0xaed16a4a, 0x5768b525, 0xc60cd9b2, 0x63066cd9]);
  }

  lemma FourthByte()
    ensures FeedBits(0x639f4775, Bits(0x44)) == 0x51bd9f7d
  {
    hide FeedBits, Bits;
    ByteThrough(0x639f4775, 0x44, [0x31, 0xedb88338, 0x76dc419c, 0x3b6e20ce, 0x1db71067, 0xe3630b13, 0x9c0906a9, 0xa3bc0074, 0x51de003a]);
  }

  const IEND: seq<bv8> := [0x49, 0x45, 0x4e, 0x44]

  lemma EndMessage()
    ensures FeedBits(0xffffffff, MessageBits(IEND)) == 0x51bd9f7d
  {
    hide FeedBits, Bits, MessageBits;
    NoMessage();
    FeedOneMore(IEND, 0);
    FirstByte();
    FeedOneMore(IEND, 1);
    SecondByte();
    FeedOneMore(IEND, 2);
    ThirdByte();
    FeedOneMore(IEND, 3);
    FourthByte();
    assert IEND[..4] == IEND;
  }

  lemma NoMessage()
    ensures FeedBits(0xffffffff, MessageBits(IEND[..0])) == 0xffffffff
  {
  }

  lemma FeedOneMore(buf: seq<bv8>, i: nat)
    requires i < |buf|
    ensures FeedBits(0xffffffff, MessageBits(buf[..i + 1])) == FeedBits(FeedBits(0xffffffff, MessageBits(buf[..i])), Bits(buf[i]))
  {
    assert buf[..i + 1][..i] == buf[..i];
    assert MessageBits(buf[..i + 1]) == MessageBits(buf[..i]) + Bits(buf[i]);
    hide *;
    FeedConcat(0xffffffff, MessageBits(buf[..i]), Bits(buf[i]));
  }

  /** The chunk that every PNG file ends with, byte by byte. */
  lemma EndChunk()
    ensures Chunk(IEND, []) == [0, 0, 0, 0] + IEND + [0xae, 0x42, 0x60, 0x82]
  {
    hide FeedBits, MessageBits, BigEndian;
    EndMessage();
    assert IEND + [] == IEND;
    assert Crc(IEND) == 0xae426082;
    EndBytes();
  }

  lemma EndBytes()
    ensures BigEndian(0) == [0, 0, 0, 0] && BigEndian(0xae426082) == [0xae, 0x42, 0x60, 0x82]
  {
    hide BigEndian;
    FourBytes(0);
    FourBytes(0xae426082);
    WordIsInjective(BigEndian(0), [0, 0, 0, 0]);
    WordIsInjective(BigEndian(0xae426082), [0xae, 0x42, 0x60, 0x82]);
  }
}
