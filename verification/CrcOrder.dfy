/** After how many shifts the CRC-24Q register returns. A register stands for a polynomial modulo the generator and
    shifting is multiplication by x, whose order is found by repeated squaring (gnss/frame/crc.go). */
module CrcOrder {
  import opened Crc24Q
  import opened CrcCode

  /** The number of shifts after which every register returns. */
  const PERIOD := 8388607

  // ----- shifting

  /** The register after `n` shifts. */
  function Turn(r: Register, n: nat): Register { Crc(r, Zeros(n)) }

  lemma TurnNext(r: Register, n: nat)
    ensures Turn(r, 0) == r && Turn(r, n + 1) == Feed(Turn(r, n), false)
  {
    assert Zeros(n + 1)[..n] == Zeros(n);
  }

  lemma TurnAdd(r: Register, m: nat, n: nat)
    ensures Turn(r, m + n) == Turn(Turn(r, m), n)
  {
    CrcConcat(r, Zeros(m), Zeros(n));
    assert Zeros(m) + Zeros(n) == Zeros(m + n);
  }

  lemma TurnXor(r: Register, s: Register, n: nat)
    ensures Turn(Xor(r, s), n) == Xor(Turn(r, n), Turn(s, n))
  {
    CrcLinear(r, s, Zeros(n), Zeros(n));
    assert Xor(Zeros(n), Zeros(n)) == Zeros(n);
  }

  lemma XorZero(r: Register, s: Register)
    ensures Xor(r, s) == Zeros(24) <==> r == s
  {
    if Xor(r, s) == Zeros(24) {
      forall i | 0 <= i < 24
        ensures r[i] == s[i]
      {
        assert !Xor(r, s)[i];
      }
    }
  }

  /** Shifting loses nothing. */
  lemma TurnInjective(r: Register, s: Register, n: nat)
    ensures Turn(r, n) == Turn(s, n) <==> r == s
  {
    hide Crc, Feed;
    TurnXor(r, s, n);
    CrcZeros(Xor(r, s), n);
    XorZero(r, s);
    XorZero(Turn(r, n), Turn(s, n));
  }

  // ----- the product of two registers

  /** The polynomial 1. */
  function One(): Register { Zeros(23) + [true] }

  function Plus(h: Register, s: Register, b: bool): Register { if b then Xor(h, s) else h }

  /** The product with the first `i` bits of `r`, by Horner's rule. */
  function Product(r: Register, s: Register, i: nat): Register
    requires i <= 24
  {
    if i == 0 then Zeros(24) else Plus(Feed(Product(r, s, i - 1), false), s, r[i - 1])
  }

  lemma {:induction false} ProductOne(r: Register, i: nat)
    requires i <= 24
    ensures Product(r, One(), i) == Zeros(24 - i) + r[..i]
  {
    if i > 0 {
      ProductOne(r, i - 1);
      var h := Zeros(25 - i) + r[..i - 1];
      assert !h[0];
      assert Feed(h, false) == Zeros(24 - i) + r[..i - 1] + [false];
    }
  }

  lemma {:induction false} ProductTurns(r: Register, m: nat, i: nat)
    requires i <= 24
    ensures Product(r, Turn(One(), m), i) == Turn(Product(r, One(), i), m)
  {
    hide Crc, Feed, One, Turn;
    if i > 0 {
      var h := Product(r, One(), i - 1);
      ProductTurns(r, m, i - 1);
      ShiftsCommute(h, m);
      TurnXor(Feed(h, false), One(), m);
    } else {
      TurnClear(m);
    }
  }

  lemma ShiftsCommute(h: Register, m: nat)
    ensures Feed(Turn(h, m), false) == Turn(Feed(h, false), m)
  {
    hide Crc, Feed, Turn;
    TurnNext(h, m);
    TurnNext(h, 0);
    TurnAdd(h, 1, m);
  }

  lemma TurnClear(m: nat)
    ensures Turn(Zeros(24), m) == Zeros(24)
  {
    hide Crc, Feed;
    CrcZeros(Zeros(24), m);
  }

  /** The product with a power of x shifts that often. */
  lemma ProductIsTurn(r: Register, m: nat)
    ensures Product(r, Turn(One(), m), 24) == Turn(r, m)
  {
    hide Product, Turn;
    ProductTurns(r, m, 24);
    ProductOne(r, 24);
    assert Zeros(0) + r[..24] == r;
  }

  // ----- the product on machine words

  function Step(h: bv32, s: bv32, b: bool): bv32 { if b then Mix(Shift(h), s) else Shift(h) }

  /** Eight steps, for the low eight bits of `b`. */
  function Eight(h: bv32, s: bv32, b: bv32): bv32 {
    var h1 := Step(h, s, Has(b, 0x80));
    var h2 := Step(h1, s, Has(b, 0x40));
    var h3 := Step(h2, s, Has(b, 0x20));
    var h4 := Step(h3, s, Has(b, 0x10));
    var h5 := Step(h4, s, Has(b, 0x08));
    var h6 := Step(h5, s, Has(b, 0x04));
    var h7 := Step(h6, s, Has(b, 0x02));
    Step(h7, s, Has(b, 0x01))
  }

  function Times(c: bv32, s: bv32): bv32 { Eight(Eight(Eight(0, s, c >> 16), s, c >> 8), s, c) }

  /** Word `h` holds the product of `r` and `s` so far. */
  predicate Holds(h: bv32, r: Register, s: bv32, i: nat) {
    i <= 24 && Narrow(h) && Narrow(s) && Bits24(h) == Product(r, Bits24(s), i)
  }

  lemma StepHolds(h: bv32, r: Register, s: bv32, i: nat, b: bool)
    requires i < 24 && Holds(h, r, s, i) && b == r[i]
    ensures Holds(Step(h, s, b), r, s, i + 1)
  {
    hide Bits24, Narrow, Mix, Shift, Feed;
    ShiftFeeds(h);
    BitsXor(Shift(h), s);
    NarrowXor(Shift(h), s);
  }

  lemma EightHolds(h: bv32, r: Register, s: bv32, i: nat, b: bv32)
    requires i + 8 <= 24 && Holds(h, r, s, i)
    requires Has(b, 0x80) == r[i] && Has(b, 0x40) == r[i + 1] && Has(b, 0x20) == r[i + 2] && Has(b, 0x10) == r[i + 3]
    requires Has(b, 0x08) == r[i + 4] && Has(b, 0x04) == r[i + 5] && Has(b, 0x02) == r[i + 6]
    requires Has(b, 0x01) == r[i + 7]
    ensures Holds(Eight(h, s, b), r, s, i + 8)
  {
    hide Holds, Step, Has;
    StepHolds(h, r, s, i, r[i]);
    var h1 := Step(h, s, r[i]);
    StepHolds(h1, r, s, i + 1, r[i + 1]);
    var h2 := Step(h1, s, r[i + 1]);
    StepHolds(h2, r, s, i + 2, r[i + 2]);
    var h3 := Step(h2, s, r[i + 2]);
    StepHolds(h3, r, s, i + 3, r[i + 3]);
    var h4 := Step(h3, s, r[i + 3]);
    StepHolds(h4, r, s, i + 4, r[i + 4]);
    var h5 := Step(h4, s, r[i + 4]);
    StepHolds(h5, r, s, i + 5, r[i + 5]);
    var h6 := Step(h5, s, r[i + 5]);
    StepHolds(h6, r, s, i + 6, r[i + 6]);
    StepHolds(Step(h6, s, r[i + 6]), r, s, i + 7, r[i + 7]);
  }

  lemma TopBits(c: bv32)
    ensures Has(c >> 16, 0x80) == Has(c, 0x800000) && Has(c >> 16, 0x40) == Has(c, 0x400000)
    ensures Has(c >> 16, 0x20) == Has(c, 0x200000) && Has(c >> 16, 0x10) == Has(c, 0x100000)
    ensures Has(c >> 16, 0x08) == Has(c, 0x080000) && Has(c >> 16, 0x04) == Has(c, 0x040000)
    ensures Has(c >> 16, 0x02) == Has(c, 0x020000) && Has(c >> 16, 0x01) == Has(c, 0x010000)
  {
  }

  lemma MiddleBits(c: bv32)
    ensures Has(c >> 8, 0x80) == Has(c, 0x8000) && Has(c >> 8, 0x40) == Has(c, 0x4000)
    ensures Has(c >> 8, 0x20) == Has(c, 0x2000) && Has(c >> 8, 0x10) == Has(c, 0x1000)
    ensures Has(c >> 8, 0x08) == Has(c, 0x0800) && Has(c >> 8, 0x04) == Has(c, 0x0400)
    ensures Has(c >> 8, 0x02) == Has(c, 0x0200) && Has(c >> 8, 0x01) == Has(c, 0x0100)
  {
  }

  /** The masks of the register's bits. */
  lemma BitMasks(r: Register, c: bv32)
    requires r == Bits24(c)
    ensures r[0] == Has(c, 0x800000) && r[1] == Has(c, 0x400000) && r[2] == Has(c, 0x200000) && r[3] == Has(c, 0x100000)
    ensures r[4] == Has(c, 0x080000) && r[5] == Has(c, 0x040000) && r[6] == Has(c, 0x020000) && r[7] == Has(c, 0x010000)
    ensures r[8] == Has(c, 0x8000) && r[9] == Has(c, 0x4000) && r[10] == Has(c, 0x2000) && r[11] == Has(c, 0x1000)
    ensures r[12] == Has(c, 0x0800) && r[13] == Has(c, 0x0400) && r[14] == Has(c, 0x0200) && r[15] == Has(c, 0x0100)
    ensures r[16] == Has(c, 0x80) && r[17] == Has(c, 0x40) && r[18] == Has(c, 0x20) && r[19] == Has(c, 0x10)
    ensures r[20] == Has(c, 0x08) && r[21] == Has(c, 0x04) && r[22] == Has(c, 0x02) && r[23] == Has(c, 0x01)
  {
    hide Has;
  }

  /** The word product is the product. */
  lemma TimesProduct(c: bv32, s: bv32)
    requires Narrow(c) && Narrow(s)
    ensures Narrow(Times(c, s)) && Bits24(Times(c, s)) == Product(Bits24(c), Bits24(s), 24)
  {
    hide Bits24, Narrow, Eight, Has, Feed, Xor, Mask;
    var r := Bits24(c);
    WordZero();
    TopBits(c);
    MiddleBits(c);
    BitMasks(r, c);
    assert Holds(0, r, s, 0);
    EightHolds(0, r, s, 0, c >> 16);
    var h1 := Eight(0, s, c >> 16);
    EightHolds(h1, r, s, 8, c >> 8);
    EightHolds(Eight(h1, s, c >> 8), r, s, 16, c);
  }

  /** Word `c` is `n` shifts of 1. */
  predicate IsPower(c: bv32, n: nat) { Narrow(c) && Bits24(c) == Turn(One(), n) }

  lemma PowerTimes(c: bv32, m: nat, d: bv32, n: nat)
    requires IsPower(c, m) && IsPower(d, n)
    ensures IsPower(Times(c, d), m + n)
  {
    hide Bits24, Narrow, Times, Product, Turn, One;
    TimesProduct(c, d);
    ProductIsTurn(Turn(One(), m), n);
    TurnAdd(One(), m, n);
  }

  // ----- powers of x

  lemma FirstPower()
    ensures IsPower(0x000002, 1) && Bits24(1) == One()
  {
    ShiftFeeds(1);
    TurnNext(One(), 0);
    assert Shift(1) == 2;
    assert Bits24(1) == One();
  }

  lemma SquaresLowValues()
    ensures Times(0x000002, 0x000002) == 0x000004
    ensures Times(0x000004, 0x000004) == 0x000010
    ensures Times(0x000010, 0x000010) == 0x000100
    ensures Times(0x000100, 0x000100) == 0x010000
    ensures Times(0x010000, 0x010000) == 0x668F48
    ensures Times(0x668F48, 0x668F48) == 0x36EB3D
  {
  }

  /** Repeated squaring: the powers `2^k` of x. */
  lemma SquaresLow()
    ensures IsPower(0x000004, 2) && IsPower(0x000010, 4) && IsPower(0x000100, 8)
    ensures IsPower(0x010000, 16) && IsPower(0x668F48, 32) && IsPower(0x36EB3D, 64)
  {
    hide Times, IsPower;
    SquaresLowValues();
    FirstPower();
    PowerTimes(0x000002, 1, 0x000002, 1);
    PowerTimes(0x000004, 2, 0x000004, 2);
    PowerTimes(0x000010, 4, 0x000010, 4);
    PowerTimes(0x000100, 8, 0x000100, 8);
    PowerTimes(0x010000, 16, 0x010000, 16);
    PowerTimes(0x668F48, 32, 0x668F48, 32);
  }

  lemma SquaresMiddleValues()
    ensures Times(0x36EB3D, 0x36EB3D) == 0x6243DA
    ensures Times(0x6243DA, 0x6243DA) == 0xCB800E
    ensures Times(0xCB800E, 0xCB800E) == 0x7DB43E
    ensures Times(0x7DB43E, 0x7DB43E) == 0xDEF23C
    ensures Times(0xDEF23C, 0xDEF23C) == 0x3D145A
    ensures Times(0x3D145A, 0x3D145A) == 0xC5BF56
  {
  }

  lemma SquaresMiddle()
    ensures IsPower(0x6243DA, 128) && IsPower(0xCB800E, 256) && IsPower(0x7DB43E, 512)
    ensures IsPower(0xDEF23C, 1024) && IsPower(0x3D145A, 2048) && IsPower(0xC5BF56, 4096)
  {
    hide Times, IsPower;
    SquaresMiddleValues();
    SquaresLow();
    PowerTimes(0x36EB3D, 64, 0x36EB3D, 64);
    PowerTimes(0x6243DA, 128, 0x6243DA, 128);
    PowerTimes(0xCB800E, 256, 0xCB800E, 256);
    PowerTimes(0x7DB43E, 512, 0x7DB43E, 512);
    PowerTimes(0xDEF23C, 1024, 0xDEF23C, 1024);
    PowerTimes(0x3D145A, 2048, 0x3D145A, 2048);
  }

  lemma SquaresHighValues()
    ensures Times(0xC5BF56, 0xC5BF56) == 0x11E898
    ensures Times(0x11E898, 0x11E898) == 0xEACC65
    ensures Times(0xEACC65, 0xEACC65) == 0x0893EB
    ensures Times(0x0893EB, 0x0893EB) == 0xDBEA27
    ensures Times(0xDBEA27, 0xDBEA27) == 0xEC11C0
    ensures Times(0xEC11C0, 0xEC11C0) == 0x6EC0ED
  {
  }

  lemma SquaresHigh()
    ensures IsPower(0x11E898, 8192) && IsPower(0xEACC65, 16384) && IsPower(0x0893EB, 32768)
    ensures IsPower(0xDBEA27, 65536) && IsPower(0xEC11C0, 131072) && IsPower(0x6EC0ED, 262144)
  {
    hide Times, IsPower;
    SquaresHighValues();
    SquaresMiddle();
    PowerTimes(0xC5BF56, 4096, 0xC5BF56, 4096);
    PowerTimes(0x11E898, 8192, 0x11E898, 8192);
    PowerTimes(0xEACC65, 16384, 0xEACC65, 16384);
    PowerTimes(0x0893EB, 32768, 0x0893EB, 32768);
    PowerTimes(0xDBEA27, 65536, 0xDBEA27, 65536);
    PowerTimes(0xEC11C0, 131072, 0xEC11C0, 131072);
  }

  lemma SquaresTopValues()
    ensures Times(0x6EC0ED, 0x6EC0ED) == 0xE7B0EE
    ensures Times(0xE7B0EE, 0xE7B0EE) == 0xDE2E52
    ensures Times(0xDE2E52, 0xDE2E52) == 0x37A1AE
    ensures Times(0x37A1AE, 0x37A1AE) == 0x85C31E
    ensures Times(0x85C31E, 0x85C31E) == 0x000002
  {
  }

  /** After `2^23` shifts the register is where it was after one. */
  lemma SquaresTop()
    ensures IsPower(0xE7B0EE, 524288) && IsPower(0xDE2E52, 1048576) && IsPower(0x37A1AE, 2097152)
    ensures IsPower(0x85C31E, 4194304) && IsPower(0x000002, 8388608)
  {
    hide Times, IsPower;
    SquaresTopValues();
    SquaresHigh();
    PowerTimes(0x6EC0ED, 262144, 0x6EC0ED, 262144);
    PowerTimes(0xE7B0EE, 524288, 0xE7B0EE, 524288);
    PowerTimes(0xDE2E52, 1048576, 0xDE2E52, 1048576);
    PowerTimes(0x37A1AE, 2097152, 0x37A1AE, 2097152);
    PowerTimes(0x85C31E, 4194304, 0x85C31E, 4194304);
  }

  lemma PeriodReturns()
    ensures Turn(One(), PERIOD) == One()
  {
    hide Turn, One, Narrow, Bits24;
    FirstPower();
    SquaresTop();
    TurnAdd(One(), PERIOD, 1);
    TurnInjective(Turn(One(), PERIOD), One(), 1);
  }

  // 47 = 1 + 2 + 4 + 8 + 32

  lemma Values47()
    ensures Times(0x000002, 0x000004) == 0x000008
    ensures Times(0x000008, 0x000010) == 0x000080
    ensures Times(0x000080, 0x000100) == 0x008000
    ensures Times(0x008000, 0x668F48) == 0x1B04A9
  {
  }

  lemma Power47()
    ensures IsPower(0x1B04A9, 47) && IsPower(0x000080, 7)
  {
    hide Times, IsPower;
    Values47();
    FirstPower();
    SquaresLow();
    PowerTimes(0x000002, 1, 0x000004, 2);
    PowerTimes(0x000008, 3, 0x000010, 4);
    PowerTimes(0x000080, 7, 0x000100, 8);
    PowerTimes(0x008000, 15, 0x668F48, 32);
  }

  // 178481 = 1 + 16 + 32 + 256 + 2048 + 4096 + 8192 + 32768 + 131072

  lemma Values2353()
    ensures Times(0x000002, 0x010000) == 0x020000
    ensures Times(0x020000, 0x668F48) == 0x6C12A4
    ensures Times(0x6C12A4, 0xCB800E) == 0x46CD2A
    ensures Times(0x46CD2A, 0x3D145A) == 0x3311C2
  {
  }

  lemma Power2353()
    ensures IsPower(0x3311C2, 2353)
  {
    hide Times, IsPower;
    Values2353();
    FirstPower();
    SquaresLow();
    SquaresMiddle();
    PowerTimes(0x000002, 1, 0x010000, 16);
    PowerTimes(0x020000, 17, 0x668F48, 32);
    PowerTimes(0x6C12A4, 49, 0xCB800E, 256);
    PowerTimes(0x46CD2A, 305, 0x3D145A, 2048);
  }

  lemma Values178481()
    ensures Times(0x3311C2, 0xC5BF56) == 0x78EAD4
    ensures Times(0x78EAD4, 0x11E898) == 0x79A39F
    ensures Times(0x79A39F, 0x0893EB) == 0x4C13B9
    ensures Times(0x4C13B9, 0xEC11C0) == 0x475A89
  {
  }

  lemma Power178481()
    ensures IsPower(0x475A89, 178481)
  {
    hide Times, IsPower;
    Values178481();
    Power2353();
    SquaresMiddle();
    SquaresHigh();
    PowerTimes(0x3311C2, 2353, 0xC5BF56, 4096);
    PowerTimes(0x78EAD4, 6449, 0x11E898, 8192);
    PowerTimes(0x79A39F, 14641, 0x0893EB, 32768);
    PowerTimes(0x4C13B9, 47409, 0xEC11C0, 131072);
  }

  // ----- which numbers of shifts return

  predicate Returns(n: nat) { Turn(One(), n) == One() }

  lemma {:induction false} ReturnsMultiple(n: nat, k: nat)
    requires Returns(n)
    ensures Returns(k * n)
  {
    hide Turn, One;
    if k == 0 {
      TurnNext(One(), 0);
    } else {
      ReturnsMultiple(n, k - 1);
      TurnAdd(One(), (k - 1) * n, n);
      assert (k - 1) * n + n == k * n;
    }
  }

  /** The remainder. */
  function Rest(a: nat, b: nat): nat
    requires b > 0
  {
    a % b
  }

  lemma RestIs(a: nat, b: nat)
    requires b > 0
    ensures Rest(a, b) < b && a == a / b * b + Rest(a, b)
  {
  }

  lemma ReturnsRest(a: nat, b: nat)
    requires Returns(a) && Returns(b) && b > 0
    ensures Returns(Rest(a, b))
  {
    hide Turn, One, Rest;
    RestIs(a, b);
    ReturnsMultiple(b, a / b);
    TurnAdd(One(), a / b * b, Rest(a, b));
  }

  ghost predicate Divides(d: nat, n: nat) { exists k: nat :: k * d == n }

  ghost predicate KeepsRests(s: iset<nat>) {
    forall x, y :: x in s && y in s && y > 0 ==> Rest(x, y) in s
  }

  /** A set of numbers that keeps remainders holds a common divisor of any two of its members. */
  lemma {:induction false} CommonIn(s: iset<nat>, a: nat, b: nat) returns (d: nat)
    requires KeepsRests(s) && a in s && b in s && a > 0
    ensures d in s && Divides(d, a) && Divides(d, b)
    decreases b
  {
    hide Divides, Rest;
    if b == 0 {
      d := a;
      DividesSelf(a);
    } else {
      RestIs(a, b);
      d := CommonIn(s, b, Rest(a, b));
      DividesSum(d, Rest(a, b), b, a / b);
    }
  }

  lemma DividesSelf(a: nat)
    ensures Divides(a, a) && Divides(a, 0)
  {
    assert 1 * a == a && 0 * a == 0;
  }

  lemma DividesSum(d: nat, a: nat, b: nat, k: nat)
    requires Divides(d, a) && Divides(d, b)
    ensures Divides(d, k * b + a)
  {
    var i: nat :| i * d == a;
    var j: nat :| j * d == b;
    Spread(i, k, j, d);
  }

  lemma Spread(i: nat, k: nat, j: nat, d: nat)
    ensures (k * j + i) * d == k * (j * d) + i * d
  {
  }

  lemma DivisorBelow(d: nat, a: nat)
    requires Divides(d, a) && a > 0
    ensures 0 < d <= a
  {
    var k: nat :| k * d == a;
    assert k > 0 && d > 0;
    assert k * d >= d;
  }

  // ----- the divisors of the period are 1, 47, 178481 and itself

  /** None of the `n` odd numbers from `k` on divides the larger prime factor. */
  predicate Clear(k: nat, n: nat)
    requires k > 0
    decreases n
  {
    n == 0 || (178481 % k != 0 && Clear(k + 2, n - 1))
  }

  lemma {:induction false} ClearAt(k: nat, n: nat, d: nat)
    requires k > 0 && Clear(k, n) && k <= d < k + 2 * n && d % 2 == k % 2
    ensures 178481 % d != 0
    decreases n
  {
    if d != k { ClearAt(k + 2, n - 1, d); }
  }

  lemma FirstBlocks()
    ensures forall k <- {3, 13, 23, 33, 43, 53, 63, 73, 83, 93, 103} :: Clear(k, 5)
  {
    assert Clear(3, 5) && Clear(13, 5) && Clear(23, 5) && Clear(33, 5) && Clear(43, 5) && Clear(53, 5);
    assert Clear(63, 5) && Clear(73, 5) && Clear(83, 5) && Clear(93, 5) && Clear(103, 5);
  }

  lemma SecondBlocks()
    ensures forall k <- {113, 123, 133, 143, 153, 163, 173, 183, 193, 203, 213} :: Clear(k, 5)
  {
    assert Clear(113, 5) && Clear(123, 5) && Clear(133, 5) && Clear(143, 5) && Clear(153, 5) && Clear(163, 5);
    assert Clear(173, 5) && Clear(183, 5) && Clear(193, 5) && Clear(203, 5) && Clear(213, 5);
  }

  lemma ThirdBlocks()
    ensures forall k <- {223, 233, 243, 253, 263, 273, 283, 293, 303, 313, 323} :: Clear(k, 5)
  {
    assert Clear(223, 5) && Clear(233, 5) && Clear(243, 5) && Clear(253, 5) && Clear(263, 5) && Clear(273, 5);
    assert Clear(283, 5) && Clear(293, 5) && Clear(303, 5) && Clear(313, 5) && Clear(323, 5);
  }

  lemma FourthBlocks()
    ensures forall k <- {333, 343, 353, 363, 373, 383, 393, 403, 413, 423, 433} :: Clear(k, 5)
  {
    assert Clear(333, 5) && Clear(343, 5) && Clear(353, 5) && Clear(363, 5) && Clear(373, 5) && Clear(383, 5);
    assert Clear(393, 5) && Clear(403, 5) && Clear(413, 5) && Clear(423, 5) && Clear(433, 5);
  }

  lemma OddNotFactor(d: nat)
    ensures 3 <= d < 435 && d % 2 == 1 ==> 178481 % d != 0
  {
    hide Clear;
    if 3 <= d < 435 && d % 2 == 1 {
      if d < 113 { FirstBlocks(); }
      else if d < 223 { SecondBlocks(); }
      else if d < 333 { ThirdBlocks(); }
      else { FourthBlocks(); }
      ClearAt(3 + 10 * ((d - 3) / 10), 5, d);
    }
  }

  lemma EvenTimes(d: nat, m: nat)
    ensures d % 2 == 0 ==> d * m % 2 == 0
  {
    if d % 2 == 0 { assert d * m == 2 * (d / 2 * m); }
  }

  lemma Beyond(d: nat, q: nat, t: nat)
    ensures d * (q + 1 + t) >= d * q + d
  {
    assert d * (q + 1 + t) == d * q + d + d * t;
  }

  lemma Apart(d: nat, m: nat, q: nat)
    ensures m > q ==> d * m >= d * q + d
  {
    if m > q { Beyond(d, q, m - q - 1); }
  }

  lemma ExactQuotient(d: nat, m: nat, q: nat, r: nat)
    requires d * m == d * q + r && r < d
    ensures r == 0
  {
    Apart(d, m, q);
    Apart(d, q, m);
  }

  lemma Monotone(a: nat, b: nat, c: nat, d: nat)
    ensures a <= b && c <= d ==> a * c <= b * d
  {
    if a <= b && c <= d { assert a * c <= b * c <= b * d; }
  }

  lemma SmallFactor(d: nat, m: nat)
    requires d * m == 178481 && d <= m
    ensures d == 1
  {
    EvenTimes(d, m);
    Monotone(435, d, 435, m);
    OddNotFactor(d);
    ExactQuotient(d, m, 178481 / d, 178481 % d);
  }

  /** 178481 is prime. */
  lemma CofactorPrime(d: nat)
    requires Divides(d, 178481)
    ensures d == 1 || d == 178481
  {
    var m: nat :| m * d == 178481;
    if m <= d { SmallFactor(m, d); } else { SmallFactor(d, m); }
  }

  lemma FortySevenPrime(t: nat, m: nat)
    requires t * m == 47
    ensures t == 1 || t == 47
  {
    Monotone(t, t, 1, m);
    ExactQuotient(t, m, 47 / t, 47 % t);
  }

  ghost function Multipliers(q: nat, m: nat): iset<nat> { iset k: nat | Divides(q, k * m) }

  lemma MultipliersKeep(q: nat, m: nat)
    requires q > 0
    ensures KeepsRests(Multipliers(q, m))
  {
    forall x: nat, y: nat | x in Multipliers(q, m) && y in Multipliers(q, m) && y > 0
      ensures Rest(x, y) in Multipliers(q, m)
    {
      DividesRest(q, m, x, y);
    }
  }

  lemma DividesRest(q: nat, m: nat, x: nat, y: nat)
    requires q > 0 && y > 0 && Divides(q, x * m) && Divides(q, y * m)
    ensures Divides(q, Rest(x, y) * m)
  {
    hide Rest;
    RestIs(x, y);
    var i: nat :| i * q == x * m;
    var j: nat :| j * q == y * m;
    var t, r := x / y, Rest(x, y);
    Spread(r, t, y, m);
    Spread(0, t, j, q);
    assert i * q == t * j * q + r * m;
    Apart(q, t * j, i);
    Difference(i, t * j, q, r * m);
  }

  lemma Difference(i: nat, j: nat, q: nat, r: nat)
    requires i * q == j * q + r && i >= j
    ensures Divides(q, r)
  {
    assert (i - j) * q == r;
  }

  lemma PeriodFactor(d: nat, m: nat)
    requires m * d == PERIOD
    ensures Divides(178481, m) ==> d in {1, 47}
    ensures Divides(178481, d) ==> d in {178481, PERIOD}
  {
    if Divides(178481, m) {
      var t: nat :| t * 178481 == m;
      assert t * d * 178481 == m * d;
      FortySevenPrime(d, t);
    }
    if Divides(178481, d) {
      var t: nat :| t * 178481 == d;
      assert t * m * 178481 == m * d;
      FortySevenPrime(t, m);
    }
  }

  lemma DivisorsOfPeriod(d: nat)
    requires Divides(d, PERIOD)
    ensures d in {1, 47, 178481, PERIOD}
  {
    var m: nat :| m * d == PERIOD;
    hide KeepsRests;
    MultipliersKeep(178481, m);
    assert m * 178481 == 178481 * m && 47 * 178481 == d * m;
    hide Divides;
    var g := CommonIn(Multipliers(178481, m), 178481, d);
    CofactorPrime(g);
    PeriodFactor(d, m);
    assert 1 * m == m;
  }

  lemma ShortTurns()
    ensures !Returns(1) && !Returns(47) && !Returns(178481)
  {
    FirstPower();
    Power47();
    Power178481();
    hide Turn;
    assert Bits24(2)[22] && !One()[22];
    assert Bits24(0x1B04A9)[3] && !One()[3];
    assert Bits24(0x475A89)[1] && !One()[1];
  }

  /** Shifting returns exactly after a multiple of the period. */
  lemma ReturnsIff(n: nat)
    ensures Returns(n) <==> n % PERIOD == 0
  {
    hide Returns, Divides, KeepsRests;
    PeriodIs();
    if Returns(n) && n % PERIOD > 0 {
      ReturnsRest(n, PERIOD);
      assert Rest(n, PERIOD) == n % PERIOD;
      ReturnsKeep();
      var d := CommonIn(Returning(), PERIOD, n % PERIOD);
      DivisorsOfPeriod(d);
      DivisorBelow(d, n % PERIOD);
      ShortTurns();
      assert false;
    }
    if n % PERIOD == 0 {
      ReturnsMultiple(PERIOD, n / PERIOD);
    }
  }

  ghost function Returning(): iset<nat> { iset n: nat | Returns(n) }

  lemma ReturnsKeep()
    ensures KeepsRests(Returning())
  {
    hide Returns;
    forall x: nat, y: nat | Returns(x) && Returns(y) && y > 0
      ensures Returns(Rest(x, y))
    {
      ReturnsRest(x, y);
    }
  }

  lemma PeriodIs()
    ensures Returns(PERIOD)
  {
    PeriodReturns();
    hide Turn, One;
  }
}
