/** What the checkpoint's CRC-32 guards against, and its published check value (esp32/main/power_history.c). */
module PowerCrc {
  import opened BigEndian
  import opened PowerCell
  import opened PowerTable
  import opened PowerBlob
  import opened PowerModel
  import BitReader

  // ----- one shift

  function Up(v: bv32): bv32 { v << 8 }

  lemma HalfDiff(v: bv32, w: bv32)
    ensures Half(Diff(v, w)) == Diff(Half(v), Half(w))
  {
  }

  lemma LowDiff(v: bv32, w: bv32)
    ensures Low(Diff(v, w)) == (Low(v) != Low(w))
  {
  }

  lemma DiffAssoc(a: bv32, b: bv32, c: bv32)
    ensures Diff(Diff(a, b), c) == Diff(a, Diff(b, c))
  {
  }

  lemma DiffComm(a: bv32, b: bv32)
    ensures Diff(a, b) == Diff(b, a)
  {
  }

  lemma DiffSelf(v: bv32)
    ensures Diff(v, v) == 0
  {
  }

  lemma DiffBack(v: bv32, w: bv32)
    ensures Diff(Diff(v, w), w) == v
  {
  }

  lemma DiffNone(v: bv32, w: bv32)
    ensures Diff(v, w) == 0 <==> v == w
  {
    hide Diff;
    DiffSelf(v);
    DiffBack(v, w);
    DiffZero(w);
  }

  lemma DiffZero(v: bv32)
    ensures Diff(v, 0) == v == Diff(0, v)
  {
  }

  /** Differences may be taken in any order. */
  lemma Swap(v: bv32, w: bv32, a: bv32, b: bv32)
    ensures Diff(Diff(v, a), Diff(w, b)) == Diff(Diff(v, w), Diff(a, b))
  {
    hide Diff;
    DiffAssoc(v, a, Diff(w, b));
    DiffAssoc(a, w, b);
    DiffComm(a, w);
    DiffAssoc(w, a, b);
    DiffAssoc(v, w, Diff(a, b));
  }

  /** Taking a mask off both registers, or off one. */
  lemma Cancels(a: bv32, b: bv32, m: bv32)
    ensures Diff(Diff(a, m), Diff(b, m)) == Diff(Diff(a, b), 0) == Diff(Diff(a, 0), Diff(b, 0))
    ensures Diff(Diff(a, m), Diff(b, 0)) == Diff(Diff(a, b), m) == Diff(Diff(a, 0), Diff(b, m))
  {
    hide Diff;
    Swap(a, b, m, m);
    Swap(a, b, m, 0);
    Swap(a, b, 0, m);
    DiffNone(m, m);
    DiffZero(m);
    DiffZero(a);
    DiffZero(b);
    DiffZero(Diff(a, b));
  }

  lemma BitXor(v: bv32, w: bv32)
    ensures CrcBit(Diff(v, w)) == Diff(CrcBit(v), CrcBit(w))
  {
    hide Diff, Half, Low;
    HalfDiff(v, w);
    LowDiff(v, w);
    Cancels(Half(v), Half(w), 0xEDB8_8320);
  }

  lemma {:induction false} ShiftsXor(v: bv32, w: bv32, n: nat)
    ensures CrcShifts(Diff(v, w), n) == Diff(CrcShifts(v, n), CrcShifts(w, n))
  {
    hide CrcBit, Diff;
    if n > 0 {
      ShiftsXor(v, w, n - 1);
      BitXor(CrcShifts(v, n - 1), CrcShifts(w, n - 1));
    }
  }

  lemma ShiftsStep(v: bv32, n: nat)
    requires n > 0
    ensures CrcShifts(v, n) == CrcBit(CrcShifts(v, n - 1))
  {
    hide CrcBit;
  }

  lemma NoShift(v: bv32)
    ensures CrcShifts(v, 0) == v
  {
  }

  /** `v << 1`, and `v` has at least `n` clear bits at the top. */
  function Double(v: bv32): bv32 { v << 1 }

  predicate ClearTop(v: bv32, n: bv8) {
    match n
    case 1 => v & 0x8000_0000 == 0
    case 2 => v & 0xC000_0000 == 0
    case 3 => v & 0xE000_0000 == 0
    case 4 => v & 0xF000_0000 == 0
    case 5 => v & 0xF800_0000 == 0
    case 6 => v & 0xFC00_0000 == 0
    case 7 => v & 0xFE00_0000 == 0
    case _ => v & 0xFF00_0000 == 0
  }

  lemma DoubleClear(v: bv32, n: bv8)
    requires 1 < n <= 8 && ClearTop(v, n)
    ensures ClearTop(Double(v), n - 1) && ClearTop(v, 1)
  {
  }

  /** The bit shifted out reappears at the top: with a clear top bit nothing was lost. */
  lemma BitBack(v: bv32)
    ensures ClearTop(CrcBit(v), 1) ==> v == Double(CrcBit(v))
  {
  }

  lemma OneBack(v: bv32, n: nat, m: bv8)
    requires n > 0 && 1 < m <= 8 && ClearTop(CrcShifts(v, n), m)
    ensures CrcShifts(v, n - 1) == Double(CrcShifts(v, n)) && ClearTop(CrcShifts(v, n - 1), m - 1)
  {
    hide CrcShifts, CrcBit, Double, ClearTop;
    ShiftsStep(v, n);
    BitBack(CrcShifts(v, n - 1));
    DoubleClear(CrcShifts(v, n), m);
  }

  lemma Doublings(o: bv32)
    ensures Double(Double(Double(Double(Double(Double(Double(Double(o)))))))) == Up(o)
  {
  }

  /** Eight shifts that leave the top byte clear have only moved the register. */
  lemma EightBack(v: bv32)
    requires ClearTop(CrcShifts(v, 8), 8)
    ensures v == Up(CrcShifts(v, 8))
  {
    hide CrcShifts, CrcBit, Double, ClearTop, Up;
    OneBack(v, 8, 8);
    OneBack(v, 7, 7);
    OneBack(v, 6, 6);
    OneBack(v, 5, 5);
    OneBack(v, 4, 4);
    OneBack(v, 3, 3);
    OneBack(v, 2, 2);
    ShiftsStep(v, 1);
    BitBack(CrcShifts(v, 0));
    NoShift(v);
    Doublings(CrcShifts(v, 8));
  }

  // ----- bytes

  predicate Byte(v: bv32) { v & 0xFFFF_FF00 == 0 }

  lemma WideByte(b: byte)
    ensures Byte(Wide(b))
  {
    var v := b as bv32;
    assert v < 0x100;
  }

  function Unit(k: nat): bv32 {
    match k
    case 0 => 1
    case 1 => 2
    case 2 => 4
    case 3 => 8
    case 4 => 16
    case 5 => 32
    case 6 => 64
    case _ => 128
  }

  predicate Bit(v: bv32, k: nat) { v & Unit(k) != 0 }

  lemma WideBits(b: byte)
    ensures (Wide(b) & 1 != 0) == (b % 2 == 1) && (Wide(b) & 2 != 0) == (b / 2 % 2 == 1)
    ensures (Wide(b) & 4 != 0) == (b / 4 % 2 == 1) && (Wide(b) & 8 != 0) == (b / 8 % 2 == 1)
    ensures (Wide(b) & 16 != 0) == (b / 16 % 2 == 1) && (Wide(b) & 32 != 0) == (b / 32 % 2 == 1)
    ensures (Wide(b) & 64 != 0) == (b / 64 % 2 == 1) && (Wide(b) & 128 != 0) == (b / 128 % 2 == 1)
  {
  }

  lemma Quarters(x: nat, k: nat)
    ensures BitReader.Digit(x, 0) == (x % 2 == 1) && BitReader.Digit(x, k + 1) == BitReader.Digit(x / 2, k)
    ensures x / 2 / 2 == x / 4 && x / 2 / 4 == x / 8 && x / 2 / 8 == x / 16 && x / 2 / 16 == x / 32
    ensures x / 2 / 32 == x / 64 && x / 2 / 64 == x / 128
  {
  }

  /** The digits of a number, by division. */
  lemma LowDigits(x: nat)
    ensures BitReader.Digit(x, 0) == (x % 2 == 1) && BitReader.Digit(x, 1) == (x / 2 % 2 == 1)
    ensures BitReader.Digit(x, 2) == (x / 4 % 2 == 1) && BitReader.Digit(x, 3) == (x / 8 % 2 == 1)
  {
    hide BitReader.Digit;
    Quarters(x, 0); Quarters(x, 1); Quarters(x, 2);
    Quarters(x / 2, 0); Quarters(x / 2, 1);
    Quarters(x / 4, 0); Quarters(x / 8, 0);
  }

  lemma DigitIs(x: nat)
    ensures BitReader.Digit(x, 0) == (x % 2 == 1) && BitReader.Digit(x, 1) == (x / 2 % 2 == 1)
    ensures BitReader.Digit(x, 2) == (x / 4 % 2 == 1) && BitReader.Digit(x, 3) == (x / 8 % 2 == 1)
    ensures BitReader.Digit(x, 4) == (x / 16 % 2 == 1) && BitReader.Digit(x, 5) == (x / 32 % 2 == 1)
    ensures BitReader.Digit(x, 6) == (x / 64 % 2 == 1) && BitReader.Digit(x, 7) == (x / 128 % 2 == 1)
  {
    hide BitReader.Digit;
    LowDigits(x);
    LowDigits(x / 16);
    Sixteenth(x);
  }

  lemma Sixteenth(x: nat)
    ensures x / 16 / 2 == x / 32 && x / 16 / 4 == x / 64 && x / 16 / 8 == x / 128
    ensures forall k: nat :: BitReader.Digit(x, k + 4) == BitReader.Digit(x / 16, k)
  {
    hide BitReader.Digit;
    forall k: nat
      ensures BitReader.Digit(x, k + 4) == BitReader.Digit(x / 16, k)
    {
      Quarters(x, k + 3);
      Quarters(x / 2, k + 2);
      Quarters(x / 4, k + 1);
      Quarters(x / 8, k);
      assert x / 2 / 2 == x / 4 && x / 4 / 2 == x / 8 && x / 8 / 2 == x / 16;
    }
  }

  /** The bits of the register are those of the byte. */
  lemma WideDigit(b: byte, k: nat)
    requires k < 8
    ensures BitReader.Digit(b, k) == Bit(Wide(b), k)
  {
    hide Wide, BitReader.Digit;
    WideBits(b);
    DigitIs(b);
  }

  lemma EightDigits()
    ensures BitReader.Pow2(8) == 256
  {
  }

  lemma WideOne(a: byte, b: byte)
    ensures Wide(a) == Wide(b) <==> a == b
  {
    hide Wide, Bit, BitReader.Digit, BitReader.Pow2;
    if Wide(a) == Wide(b) && a != b {
      EightDigits();
      var k := BitReader.DigitsDiffer(a, b, 8);
      WideDigit(a, k);
      WideDigit(b, k);
    }
  }

  lemma DiffBytes(v: bv32, w: bv32)
    requires Byte(v) && Byte(w)
    ensures Byte(Diff(v, w))
  {
  }

  lemma WideSmall(a: byte, b: byte)
    ensures Byte(Diff(Wide(a), Wide(b))) && (Diff(Wide(a), Wide(b)) == 0 <==> a == b)
  {
    hide Wide, Byte, Diff;
    WideByte(a);
    WideByte(b);
    WideOne(a, b);
    DiffBytes(Wide(a), Wide(b));
    DiffNone(Wide(a), Wide(b));
  }

  /** Back through one byte: a small difference after it says what the difference before it was. */
  lemma ByteBack(v: bv32, w: bv32, a: byte, b: byte)
    requires ClearTop(Diff(CrcByte(v, a), CrcByte(w, b)), 8)
    ensures Diff(Diff(v, w), Diff(Wide(a), Wide(b))) == Up(Diff(CrcByte(v, a), CrcByte(w, b)))
  {
    hide CrcShifts, Wide, Diff, Up, ClearTop;
    ShiftsXor(Diff(v, Wide(a)), Diff(w, Wide(b)), 8);
    Swap(v, w, Wide(a), Wide(b));
    EightBack(Diff(Diff(v, w), Diff(Wide(a), Wide(b))));
  }

  // ----- strings

  /** The register after feeding `b` to `v`. */
  function Run(v: bv32, b: seq<byte>): bv32 {
    if b == [] then v else CrcByte(Run(v, b[..|b| - 1]), b[|b| - 1])
  }

  lemma {:induction false} StateRun(a: seq<byte>, b: seq<byte>)
    ensures CrcState(a + b) == Run(CrcState(a), b)
    decreases |b|
  {
    hide CrcByte;
    if b == [] {
      assert a + b == a;
    } else {
      StateRun(a, b[..|b| - 1]);
      assert (a + b)[..|a| + |b| - 1] == a + b[..|b| - 1];
    }
  }

  /** Different registers stay different whatever follows. */
  lemma {:induction false} RunInjective(v: bv32, w: bv32, b: seq<byte>)
    ensures Run(v, b) == Run(w, b) <==> v == w
  {
    hide CrcByte, Diff, Up, Wide, ClearTop;
    if b != [] {
      var n := |b| - 1;
      RunInjective(v, w, b[..n]);
      if Run(v, b) == Run(w, b) {
        var x, y := Run(v, b[..n]), Run(w, b[..n]);
        DiffNone(CrcByte(x, b[n]), CrcByte(y, b[n]));
        ZeroFacts();
        ByteBack(x, y, b[n], b[n]);
        DiffNone(Wide(b[n]), Wide(b[n]));
        DiffZero(Diff(x, y));
        DiffNone(x, y);
      }
    }
  }

  lemma ZeroFacts()
    ensures ClearTop(0, 8) && Up(0) == 0
  {
  }

  lemma RunFour(v: bv32, b: seq<byte>)
    requires |b| == 4
    ensures Run(v, b) == CrcByte(CrcByte(CrcByte(CrcByte(v, b[0]), b[1]), b[2]), b[3])
  {
    hide CrcByte;
    assert b[..3][..2] == b[..2] && b[..2][..1] == b[..1] && b[..1][..0] == [];
    assert Run(v, b[..1]) == CrcByte(v, b[0]);
    assert Run(v, b[..2]) == CrcByte(Run(v, b[..1]), b[1]);
    assert Run(v, b[..3]) == CrcByte(Run(v, b[..2]), b[2]);
  }

  /** Differences of bytes that explain one another backwards from none are none. */
  lemma NoDifference(d0: bv32, d1: bv32, d2: bv32, d3: bv32, e1: bv32, e2: bv32, e3: bv32)
    requires Byte(d0) && Byte(d1) && Byte(d2) && Byte(d3)
    requires Diff(e3, d3) == 0 && Diff(e2, d2) == Up(e3) && Diff(e1, d1) == Up(e2) && d0 == Up(e1)
    ensures d0 == 0 && d1 == 0 && d2 == 0 && d3 == 0
  {
    Smalls(d1, d2, d3, e1, e2, e3);
  }

  lemma Smalls(d1: bv32, d2: bv32, d3: bv32, e1: bv32, e2: bv32, e3: bv32)
    requires Byte(d1) && Byte(d2) && Byte(d3)
    ensures Diff(e3, d3) == 0 ==> ClearTop(e3, 8) && e3 & 0xFFFF_FF00 == 0
    ensures Diff(e3, d3) == 0 && Diff(e2, d2) == Up(e3) ==> ClearTop(e2, 8) && e2 & 0xFFFF_0000 == 0
    ensures Diff(e3, d3) == 0 && Diff(e2, d2) == Up(e3) && Diff(e1, d1) == Up(e2) ==> ClearTop(e1, 8)
  {
  }

  /** Four different bytes leave different registers. */
  lemma FourInjective(v: bv32, x: seq<byte>, y: seq<byte>)
    requires |x| == |y| == 4 && Run(v, x) == Run(v, y)
    ensures x == y
  {
    hide CrcByte, Wide, Run, Diff, Up, ClearTop, Byte;
    RunFour(v, x);
    RunFour(v, y);
    var x1, y1 := CrcByte(v, x[0]), CrcByte(v, y[0]);
    var x2, y2 := CrcByte(x1, x[1]), CrcByte(y1, y[1]);
    var x3, y3 := CrcByte(x2, x[2]), CrcByte(y2, y[2]);
    var d0, d1 := Diff(Wide(x[0]), Wide(y[0])), Diff(Wide(x[1]), Wide(y[1]));
    var d2, d3 := Diff(Wide(x[2]), Wide(y[2])), Diff(Wide(x[3]), Wide(y[3]));
    WideSmall(x[0], y[0]); WideSmall(x[1], y[1]); WideSmall(x[2], y[2]); WideSmall(x[3], y[3]);
    DiffNone(CrcByte(x3, x[3]), CrcByte(y3, y[3]));
    DiffNone(v, v);
    DiffZero(d0);
    ZeroFacts();
    ByteBack(x3, y3, x[3], y[3]);
    Smalls(d1, d2, d3, Diff(x1, y1), Diff(x2, y2), Diff(x3, y3));
    ByteBack(x2, y2, x[2], y[2]);
    ByteBack(x1, y1, x[1], y[1]);
    ByteBack(v, v, x[0], y[0]);
    NoDifference(d0, d1, d2, d3, Diff(x1, y1), Diff(x2, y2), Diff(x3, y3));
  }

  // ----- blobs

  /** The two strings differ in the four bytes from `at` on at most. */
  predicate SameOutside(b: seq<byte>, c: seq<byte>, at: nat) {
    |b| == |c| && forall i :: 0 <= i < |b| && !(at <= i < at + 4) ==> b[i] == c[i]
  }

  lemma BurstChanges(b: seq<byte>, c: seq<byte>, at: nat)
    requires SameOutside(b, c, at) && at + 4 <= |b| && b != c
    ensures Crc32(b) != Crc32(c)
  {
    hide Run, CrcState, Crc32, Not;
    CrcNot(b);
    CrcNot(c);
    var pre, x, y, post := b[..at], b[at..at + 4], c[at..at + 4], b[at + 4..];
    assert c[..at] == pre && c[at + 4..] == post;
    assert b == (pre + x) + post && c == (pre + y) + post;
    StateRun(pre, x);
    StateRun(pre, y);
    StateRun(pre + x, post);
    StateRun(pre + y, post);
    RunInjective(Run(CrcState(pre), x), Run(CrcState(pre), y), post);
    if CrcState(b) == CrcState(c) { FourInjective(CrcState(pre), x, y); }
    Complements(CrcState(b), CrcState(c));
  }

  function Not(v: bv32): bv32 { !v }

  lemma NotTwice(v: bv32)
    ensures Not(Not(v)) == v
  {
  }

  lemma NatBack(v: bv32)
    ensures (v as nat) as bv32 == v
  {
  }

  lemma CrcNot(b: seq<byte>)
    ensures Crc32(b) == Not(CrcState(b)) as nat
  {
    hide CrcState;
  }

  /** Different registers are different checksums. */
  lemma Complements(v: bv32, w: bv32)
    ensures Not(v) as nat == Not(w) as nat <==> v == w
  {
    hide Not;
    NotTwice(v);
    NotTwice(w);
    NatBack(Not(v));
    NatBack(Not(w));
  }

  /** A valid blob altered within any four consecutive bytes of its contents, or anywhere in its checksum, is
      refused. */
  lemma BurstRefused(b: seq<byte>, c: seq<byte>, site: nat, at: nat)
    requires BlobValid(b, site) && SameOutside(b, c, at) && b != c && (at + 8 <= |b| || |b| - 4 <= at)
    ensures !BlobValid(c, site)
  {
    hide Crc32, Get;
    var n := |b| - 4;
    if at + 4 <= n {
      assert b[n..] == c[n..] && SameOutside(b[..n], c[..n], at);
      assert b == b[..n] + b[n..] && c == c[..n] + c[n..];
      BurstChanges(b[..n], c[..n], at);
    } else {
      assert b[..n] == c[..n];
      PutGet(b[n..]);
      PutGet(c[n..]);
      assert b == b[..n] + b[n..] && c == c[..n] + c[n..];
    }
  }

  // ----- the check value

  lemma ByteOf(v: bv32, b: byte)
    ensures var s0 := Diff(v, Wide(b));
            CrcByte(v, b) ==
              CrcBit(CrcBit(CrcBit(CrcBit(CrcBit(CrcBit(CrcBit(CrcBit(s0))))))))
  {
    hide CrcBit, Diff, Wide;
    var s0 := Diff(v, Wide(b));
    NoShift(s0);
    ShiftsStep(s0, 1); ShiftsStep(s0, 2); ShiftsStep(s0, 3); ShiftsStep(s0, 4);
    ShiftsStep(s0, 5); ShiftsStep(s0, 6); ShiftsStep(s0, 7); ShiftsStep(s0, 8);
  }

  lemma CheckFirst()
    ensures CrcByte(0xFFFF_FFFF, 49) == 0x7C23_1048
    ensures CrcByte(0x7C23_1048, 50) == 0xB0AC_BB32
    ensures CrcByte(0xB0AC_BB32, 51) == 0x77B7_9C2D
  {
    hide CrcShifts;
    ByteOf(0xFFFF_FFFF, 49);
    ByteOf(0x7C23_1048, 50);
    ByteOf(0xB0AC_BB32, 51);
  }

  lemma CheckSecond()
    ensures CrcByte(0x77B7_9C2D, 52) == 0x641C_1F5C
    ensures CrcByte(0x641C_1F5C, 53) == 0x340A_C5E3
    ensures CrcByte(0x340A_C5E3, 54) == 0xF68D_2C9E
  {
    hide CrcShifts;
    ByteOf(0x77B7_9C2D, 52);
    ByteOf(0x641C_1F5C, 53);
    ByteOf(0x340A_C5E3, 54);
  }

  lemma CheckLast()
    ensures CrcByte(0xF68D_2C9E, 55) == 0xAFFC_9660
    ensures CrcByte(0xAFFC_9660, 56) == 0x651F_2550
    ensures CrcByte(0x651F_2550, 57) == 0x340B_C6D9
  {
    hide CrcShifts;
    ByteOf(0xF68D_2C9E, 55);
    ByteOf(0xAFFC_9660, 56);
    ByteOf(0x651F_2550, 57);
  }

  /** CRC-32 of the nine digits "123456789" is 0xCBF43926. */
  lemma CheckValue()
    ensures Crc32([49, 50, 51, 52, 53, 54, 55, 56, 57]) == 0xCBF4_3926
  {
    hide CrcByte, CrcState;
    CheckFirst();
    CheckSecond();
    CheckLast();
    var b: seq<byte> := [49, 50, 51, 52, 53, 54, 55, 56, 57];
    EmptyState();
    StateNext(b, 0);
    StateNext(b, 1);
    StateNext(b, 2);
    StateNext(b, 3);
    StateNext(b, 4);
    StateNext(b, 5);
    StateNext(b, 6);
    StateNext(b, 7);
    StateNext(b, 8);
    assert b[..9] == b && b[..0] == [];
    assert !(0x340B_C6D9 as bv32) == 0xCBF4_3926;
  }

  lemma EmptyState()
    ensures CrcState([]) == 0xFFFF_FFFF
  {
  }

  lemma StateNext(b: seq<byte>, i: nat)
    requires i < |b|
    ensures CrcState(b[..i + 1]) == CrcByte(CrcState(b[..i]), b[i])
  {
    assert b[..i + 1][..i] == b[..i];
  }
}
