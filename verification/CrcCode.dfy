/** The CRC-24Q loops of gnss/frame/crc.go on machine words, proved to compute `Crc24Q.Crc`. */
module CrcCode {
  import opened Crc24Q
  import opened BitBuffer

  const POLY: bv32 := 0x1864CFB

  /** Bit `i` of a 24-bit register, counted from the most significant one: `1 << (23 - i)`. */
  function Mask(i: nat): bv32 {
    match i
    case 0 => 0x800000
    case 1 => 0x400000
    case 2 => 0x200000
    case 3 => 0x100000
    case 4 => 0x080000
    case 5 => 0x040000
    case 6 => 0x020000
    case 7 => 0x010000
    case 8 => 0x008000
    case 9 => 0x004000
    case 10 => 0x002000
    case 11 => 0x001000
    case 12 => 0x000800
    case 13 => 0x000400
    case 14 => 0x000200
    case 15 => 0x000100
    case 16 => 0x000080
    case 17 => 0x000040
    case 18 => 0x000020
    case 19 => 0x000010
    case 20 => 0x000008
    case 21 => 0x000004
    case 22 => 0x000002
    case _ => 0x000001
  }

  predicate Has(c: bv32, m: bv32) { c & m != 0 }

  /** The 24 bits of a register held in a word. */
  function Bits24(c: bv32): Register {
    seq(24, i requires 0 <= i < 24 => Has(c, Mask(i)))
  }

  predicate Narrow(c: bv32) { c & 0xFF000000 == 0 }

  function Mix(c: bv32, d: bv32): bv32 { c ^ d }

  function Left(c: bv32): bv32 { c << 1 }

  /** A byte in the top of the register: `uint32(b) << 16`. */
  function ByteTop(b: bv8): bv32 { (b as bv32) << 16 }

  /** `crc <<= 1; if crc&0x1000000 != 0 { crc ^= poly }`. */
  function Shift(c: bv32): bv32 {
    if Left(c) & 0x1000000 != 0 then Mix(Left(c), POLY) else Left(c)
  }

  lemma MaskPower(i: nat)
    ensures Mask(i) & (Mask(i) - 1) == 0
  {
  }

  lemma MaskHalves(i: nat)
    ensures if i < 23 then Mask(i) == Left(Mask(i + 1)) && Small(Mask(i + 1)) else Mask(i) == 1
  {
  }

  lemma XorMask(c: bv32, d: bv32, m: bv32)
    requires m & (m - 1) == 0
    ensures ((c ^ d) & m != 0) == ((c & m != 0) != (d & m != 0))
  {
  }

  predicate Small(m: bv32) { m & 0xFF800000 == 0 }

  lemma ShiftMask(c: bv32, m: bv32)
    requires Small(m)
    ensures Has(Left(c), Left(m)) == Has(c, m)
  {
  }

  lemma BitsXor(c: bv32, d: bv32)
    ensures Bits24(Mix(c, d)) == Xor(Bits24(c), Bits24(d))
  {
    hide Mask;
    forall i | 0 <= i < 24
      ensures Bits24(Mix(c, d))[i] == Xor(Bits24(c), Bits24(d))[i]
    {
      MaskPower(i);
      XorMask(c, d, Mask(i));
    }
  }

  lemma LastClear(c: bv32)
    ensures !Has(Left(c), 1)
  {
  }

  lemma ShiftBitAt(c: bv32, i: nat)
    requires i < 24
    ensures Has(Left(c), Mask(i)) == (i < 23 && Has(c, Mask(i + 1)))
  {
    hide Mask, Left, Has, Small;
    MaskHalves(i);
    if i < 23 { ShiftMask(c, Mask(i + 1)); } else { LastClear(c); }
  }

  lemma BitsShift(c: bv32)
    ensures Bits24(Left(c)) == Bits24(c)[1..] + [false]
  {
    hide Mask, Left, Has;
    var shifted := Bits24(c)[1..] + [false];
    forall i | 0 <= i < 24
      ensures Bits24(Left(c))[i] == shifted[i]
    {
      ShiftBitAt(c, i);
    }
  }

  lemma PolyLow(i: nat)
    requires i < 8
    ensures Has(POLY, Mask(i)) == GENERATOR[i]
  {
  }

  lemma PolyMiddle(i: nat)
    requires 8 <= i < 16
    ensures Has(POLY, Mask(i)) == GENERATOR[i]
  {
  }

  lemma PolyHigh(i: nat)
    requires 16 <= i < 24
    ensures Has(POLY, Mask(i)) == GENERATOR[i]
  {
  }

  lemma BitsPoly()
    ensures Bits24(POLY) == GENERATOR
  {
    hide Has, Mask;
    forall i | 0 <= i < 24
      ensures Has(POLY, Mask(i)) == GENERATOR[i]
    {
      if i < 8 { PolyLow(i); } else if i < 16 { PolyMiddle(i); } else { PolyHigh(i); }
    }
  }

  lemma BitsZero(c: bv32)
    requires Narrow(c)
    ensures c == 0 <==> Bits24(c) == Zeros(24)
  {
    if Bits24(c) == Zeros(24) {
      assert forall i :: 0 <= i < 24 ==> !Bits24(c)[i];
      LowMasks(c);
      HighMasks(c);
    } else {
      var i :| 0 <= i < 24 && Bits24(c)[i];
    }
  }

  lemma HighMasks(c: bv32)
    requires forall i :: 0 <= i < 24 ==> !Bits24(c)[i]
    ensures c & 0xFFF000 == 0
  {
    assert !Bits24(c)[0] && c & 0x800000 == 0;
    assert !Bits24(c)[1] && c & 0x400000 == 0;
    assert !Bits24(c)[2] && c & 0x200000 == 0;
    assert !Bits24(c)[3] && c & 0x100000 == 0;
    assert !Bits24(c)[4] && c & 0x080000 == 0;
    assert !Bits24(c)[5] && c & 0x040000 == 0;
    assert !Bits24(c)[6] && c & 0x020000 == 0;
    assert !Bits24(c)[7] && c & 0x010000 == 0;
    assert !Bits24(c)[8] && c & 0x008000 == 0;
    assert !Bits24(c)[9] && c & 0x004000 == 0;
    assert !Bits24(c)[10] && c & 0x002000 == 0;
    assert !Bits24(c)[11] && c & 0x001000 == 0;
  }

  lemma LowMasks(c: bv32)
    requires forall i :: 0 <= i < 24 ==> !Bits24(c)[i]
    ensures c & 0x000FFF == 0
  {
    assert !Bits24(c)[12] && c & 0x000800 == 0;
    assert !Bits24(c)[13] && c & 0x000400 == 0;
    assert !Bits24(c)[14] && c & 0x000200 == 0;
    assert !Bits24(c)[15] && c & 0x000100 == 0;
    assert !Bits24(c)[16] && c & 0x000080 == 0;
    assert !Bits24(c)[17] && c & 0x000040 == 0;
    assert !Bits24(c)[18] && c & 0x000020 == 0;
    assert !Bits24(c)[19] && c & 0x000010 == 0;
    assert !Bits24(c)[20] && c & 0x000008 == 0;
    assert !Bits24(c)[21] && c & 0x000004 == 0;
    assert !Bits24(c)[22] && c & 0x000002 == 0;
    assert !Bits24(c)[23] && c & 0x000001 == 0;
  }

  lemma NarrowShift(c: bv32)
    requires Narrow(c)
    ensures Narrow(Shift(c))
  {
  }

  /** One shift of the word is one zero bit into the register. */
  lemma ShiftFeeds(c: bv32)
    requires Narrow(c)
    ensures Narrow(Shift(c)) && Bits24(Shift(c)) == Feed(Bits24(c), false)
  {
    NarrowShift(c);
    BitsShift(c);
    BitsXor(Left(c), POLY);
    BitsPoly();
    ShiftTop(c);
    hide Bits24, Narrow, Mix, Left;
  }

  lemma ShiftTop(c: bv32)
    ensures Bits24(c)[0] <==> Left(c) & 0x1000000 != 0
  {
  }

  function TopBit(b: bool): bv32 { if b then 0x800000 else 0 }

  lemma WordTop(b: bool)
    ensures Narrow(TopBit(b)) && Bits24(TopBit(b)) == [b] + Zeros(23)
  {
  }

  lemma TopFeeds(c: bv32, b: bool)
    requires Narrow(c)
    ensures Narrow(Mix(c, TopBit(b))) && Bits24(Shift(Mix(c, TopBit(b)))) == Feed(Bits24(c), b)
    ensures Narrow(Shift(Mix(c, TopBit(b))))
  {
    hide Bits24, Shift, Narrow, TopBit, Mix;
    WordTop(b);
    NarrowXor(c, TopBit(b));
    BitsXor(c, TopBit(b));
    ShiftFeeds(Mix(c, TopBit(b)));
    assert Xor(Bits24(c), [b] + Zeros(23))[1..] == Bits24(c)[1..];
  }

  // ----- bytes

  lemma ByteLoads(b: bv8)
    ensures Bits24(ByteTop(b)) == Load(ByteBits(b))
    ensures Narrow(ByteTop(b))
  {
    var w := ByteTop(b);
    var l := Load(ByteBits(b));
    forall i | 0 <= i < 24
      ensures Bits24(w)[i] == l[i]
    {
    }
  }

  lemma CrcNone(bits: seq<bool>)
    ensures Crc(Zeros(24), bits[..0]) == Zeros(24)
  {
  }

  lemma CrcNext(bits: seq<bool>, i: nat)
    requires i < |bits|
    ensures Crc(Zeros(24), bits[..i + 1]) == Feed(Crc(Zeros(24), bits[..i]), bits[i])
  {
    hide Feed;
    assert bits[..i + 1][..i] == bits[..i];
  }

  /** `CRC24QBits`. */
  method CRC24QBits(data: seq<bv8>, offset: nat, length: nat) returns (crc: bv32)
    requires offset + length <= 8 * |data|
    ensures Narrow(crc) && Bits24(crc) == Crc(Zeros(24), BitsOf(data)[offset..offset + length])
  {
    hide Bits24, Shift, Narrow, BitIn, Mix, TopBit, Crc, Feed;
    ghost var bits := BitsOf(data)[offset..offset + length];
    CrcNone(bits);
    crc := 0;
    WordZero();
    for i := 0 to length
      invariant Narrow(crc) && Bits24(crc) == Crc(Zeros(24), bits[..i])
    {
      var p := offset + i;
      var bit := BitAt(data, p);
      TopFeeds(crc, bit);
      CrcNext(bits, i);
      crc := Mix(crc, TopBit(bit));
      crc := Shift(crc);
    }
    assert bits[..length] == bits;
  }

  lemma WordZero()
    ensures Narrow(0) && Bits24(0) == Zeros(24)
  {
  }

  method EightShifts(c: bv32) returns (crc: bv32)
    requires Narrow(c)
    ensures Narrow(crc) && Bits24(crc) == Crc(Bits24(c), Zeros(8))
  {
    hide Bits24, Shift, Narrow;
    crc := c;
    for i := 0 to 8
      invariant Narrow(crc) && Bits24(crc) == Crc(Bits24(c), Zeros(i))
    {
      ShiftFeeds(crc);
      assert Zeros(i + 1)[..i] == Zeros(i);
      crc := Shift(crc);
    }
  }

  lemma ByteXor(c: bv32, b: bv8)
    requires Narrow(c)
    ensures var x := Mix(c, ByteTop(b));
            Narrow(x) && Crc(Bits24(x), Zeros(8)) == Crc(Bits24(c), ByteBits(b))
  {
    hide Bits24, Narrow, BitIn, Crc, Mix, ByteTop;
    ByteLoads(b);
    NarrowXor(c, ByteTop(b));
    BitsXor(c, ByteTop(b));
    CrcPreloaded(Bits24(c), ByteBits(b));
  }

  /** `CRC24Q`: a whole byte is xored in before eight shifts, with the same result as bit by bit. */
  method CRC24Q(data: seq<bv8>) returns (crc: bv32)
    ensures Narrow(crc) && Bits24(crc) == Crc(Zeros(24), BitsOf(data))
  {
    crc := 0;
    WordZero();
    assert BitsOf(data[..0]) == [];
    for k := 0 to |data|
      invariant Narrow(crc) && Bits24(crc) == Crc(Zeros(24), BitsOf(data[..k]))
    {
      hide Bits24, Narrow, BitIn, Crc, BitsOf, ByteBits, Mix, ByteTop;
      ByteXor(crc, data[k]);
      CrcConcat(Zeros(24), BitsOf(data[..k]), ByteBits(data[k]));
      BitsOfSnoc(data[..k], data[k]);
      assert data[..k + 1] == data[..k] + [data[k]];
      crc := Mix(crc, ByteTop(data[k]));
      crc := EightShifts(crc);
    }
    assert data[..|data|] == data;
  }

  lemma NarrowXor(c: bv32, d: bv32)
    requires Narrow(c) && Narrow(d)
    ensures Narrow(Mix(c, d))
  {
  }

  /** `CheckCRC24QBits`. */
  method CheckCRC24QBits(data: seq<bv8>, offset: nat, length: nat) returns (ok: bool)
    requires offset + length <= 8 * |data|
    ensures ok == Passes(BitsOf(data)[offset..offset + length])
  {
    if length < 24 { return false; }
    var crc := CRC24QBits(data, offset, length);
    BitsZero(crc);
    return crc == 0;
  }

  /** `CheckCRC24Q`. */
  method CheckCRC24Q(data: seq<bv8>) returns (ok: bool)
    ensures ok == Passes(BitsOf(data))
  {
    if |data| < 3 { return false; }
    var crc := CRC24Q(data);
    BitsZero(crc);
    return crc == 0;
  }

  // ----- the check value

  function EightTimes(c: bv32): bv32 { Shift(Shift(Shift(Shift(Shift(Shift(Shift(Shift(c)))))))) }

  lemma ShiftMore(r: Register, c: bv32, n: nat)
    requires Narrow(c) && Bits24(c) == Crc(r, Zeros(n))
    ensures Narrow(Shift(c)) && Bits24(Shift(c)) == Crc(r, Zeros(n + 1))
  {
    hide Bits24, Shift, Narrow, Feed;
    ShiftFeeds(c);
    assert Zeros(n + 1)[..n] == Zeros(n);
  }

  lemma EightFeed(c: bv32)
    requires Narrow(c)
    ensures Narrow(EightTimes(c)) && Bits24(EightTimes(c)) == Crc(Bits24(c), Zeros(8))
  {
    hide Bits24, Shift, Narrow, Crc;
    NoneFed(Bits24(c));
    ShiftMore(Bits24(c), c, 0);
    var c1 := Shift(c);
    ShiftMore(Bits24(c), c1, 1);
    var c2 := Shift(c1);
    ShiftMore(Bits24(c), c2, 2);
    var c3 := Shift(c2);
    ShiftMore(Bits24(c), c3, 3);
    var c4 := Shift(c3);
    ShiftMore(Bits24(c), c4, 4);
    var c5 := Shift(c4);
    ShiftMore(Bits24(c), c5, 5);
    var c6 := Shift(c5);
    ShiftMore(Bits24(c), c6, 6);
    ShiftMore(Bits24(c), Shift(c6), 7);
  }

  lemma NoneFed(r: Register)
    ensures Crc(r, Zeros(0)) == r
  {
  }

  lemma CheckFirst()
    ensures EightTimes(Mix(0x000000, ByteTop(49))) == 0x4FD39B
    ensures EightTimes(Mix(0x4FD39B, ByteTop(50))) == 0xB78C91
    ensures EightTimes(Mix(0xB78C91, ByteTop(51))) == 0x2C3045
  {
  }

  lemma CheckSecond()
    ensures EightTimes(Mix(0x2C3045, ByteTop(52))) == 0x548AB0
    ensures EightTimes(Mix(0x548AB0, ByteTop(53))) == 0x198EC0
    ensures EightTimes(Mix(0x198EC0, ByteTop(54))) == 0xBCEFC7
  {
  }

  lemma CheckLast()
    ensures EightTimes(Mix(0xBCEFC7, ByteTop(55))) == 0x71986B
    ensures EightTimes(Mix(0x71986B, ByteTop(56))) == 0xA60510
    ensures EightTimes(Mix(0xA60510, ByteTop(57))) == 0xCDE703
  {
  }

  /** Word `d` holds the CRC of the first `i` bytes. */
  predicate HoldsCrc(data: seq<bv8>, i: nat, d: bv32)
    requires i <= |data|
  {
    Narrow(d) && Bits24(d) == Crc(Zeros(24), BitsOf(data[..i]))
  }

  lemma CheckByte(data: seq<bv8>, i: nat, c: bv32)
    requires i < |data| && HoldsCrc(data, i, c)
    ensures HoldsCrc(data, i + 1, EightTimes(Mix(c, ByteTop(data[i]))))
  {
    hide Bits24, Narrow, Crc, BitsOf, ByteBits, Mix, ByteTop, EightTimes;
    ByteXor(c, data[i]);
    EightFeed(Mix(c, ByteTop(data[i])));
    CrcConcat(Zeros(24), BitsOf(data[..i]), ByteBits(data[i]));
    BitsOfSnoc(data[..i], data[i]);
    assert data[..i + 1] == data[..i] + [data[i]];
  }

  /** CRC-24Q of the nine digits "123456789" is 0xCDE703. */
  lemma CheckValue()
    ensures var digits: seq<bv8> := [49, 50, 51, 52, 53, 54, 55, 56, 57];
            Crc(Zeros(24), BitsOf(digits)) == Bits24(0xCDE703)
  {
    hide HoldsCrc, EightTimes, Mix, ByteTop;
    var digits: seq<bv8> := [49, 50, 51, 52, 53, 54, 55, 56, 57];
    CheckFirst();
    CheckSecond();
    CheckLast();
    NothingFed(digits);
    CheckByte(digits, 0, 0x000000);
    CheckByte(digits, 1, 0x4FD39B);
    CheckByte(digits, 2, 0xB78C91);
    CheckByte(digits, 3, 0x2C3045);
    CheckByte(digits, 4, 0x548AB0);
    CheckByte(digits, 5, 0x198EC0);
    CheckByte(digits, 6, 0xBCEFC7);
    CheckByte(digits, 7, 0x71986B);
    CheckByte(digits, 8, 0xA60510);
    AllFed(digits, 0xCDE703);
  }

  lemma NothingFed(data: seq<bv8>)
    ensures HoldsCrc(data, 0, 0)
  {
    WordZero();
    assert BitsOf(data[..0]) == [];
  }

  lemma AllFed(data: seq<bv8>, d: bv32)
    requires HoldsCrc(data, |data|, d)
    ensures Bits24(d) == Crc(Zeros(24), BitsOf(data))
  {
    assert data[..|data|] == data;
  }
}
