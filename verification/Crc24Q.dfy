/** CRC-24Q as a linear map over bit strings, and what it detects (gnss/frame/crc.go). */
module Crc24Q {

  /** A 24-bit register, most significant bit first. */
  type Register = r: seq<bool> | |r| == 24 witness Zeros(24)

  function Zeros(n: nat): (z: seq<bool>)
    ensures |z| == n && forall i :: 0 <= i < n ==> !z[i]
  {
    seq(n, _ => false)
  }

  function Xor(a: seq<bool>, b: seq<bool>): (c: seq<bool>)
    requires |a| == |b|
    ensures |c| == |a| && forall i :: 0 <= i < |a| ==> c[i] == (a[i] != b[i])
  {
    seq(|a|, i requires 0 <= i < |a| => a[i] != b[i])
  }

  /** The generator 0x1864CFB without its leading term. */
  const GENERATOR: Register := [
    true, false, false, false, false, true, true, false, false, true, false, false, true, true, false, false,
    true, true, true, true, true, false, true, true]

  /** One bit into the register: shift, and reduce when the bit shifted out differs from the input. */
  function Feed(r: Register, b: bool): Register {
    var s := r[1..] + [false];
    if r[0] != b then Xor(s, GENERATOR) else s
  }

  /** The register after feeding `bits` to `r`. */
  function Crc(r: Register, bits: seq<bool>): Register {
    if bits == [] then r else Feed(Crc(r, bits[..|bits| - 1]), bits[|bits| - 1])
  }

  /** `CheckCRC24QBits` on the bits of a range: the range carries its own CRC in its last 24 bits. */
  predicate Passes(bits: seq<bool>) {
    |bits| >= 24 && Crc(Zeros(24), bits) == Zeros(24)
  }

  // ----- linearity

  lemma FeedLinear(r: Register, s: Register, a: bool, b: bool)
    ensures Feed(Xor(r, s), a != b) == Xor(Feed(r, a), Feed(s, b))
  {
  }

  lemma {:induction false} CrcLinear(r: Register, s: Register, a: seq<bool>, b: seq<bool>)
    requires |a| == |b|
    ensures Crc(Xor(r, s), Xor(a, b)) == Xor(Crc(r, a), Crc(s, b))
  {
    if a != [] {
      var n := |a| - 1;
      CrcLinear(r, s, a[..n], b[..n]);
      assert Xor(a, b)[..n] == Xor(a[..n], b[..n]);
      FeedLinear(Crc(r, a[..n]), Crc(s, b[..n]), a[n], b[n]);
    }
  }

  lemma {:induction false} CrcConcat(r: Register, a: seq<bool>, b: seq<bool>)
    ensures Crc(r, a + b) == Crc(Crc(r, a), b)
    decreases |b|
  {
    if b == [] {
      assert a + b == a;
    } else {
      CrcConcat(r, a, b[..|b| - 1]);
      assert (a + b)[..|a + b| - 1] == a + b[..|b| - 1];
    }
  }

  // ----- preloading: feeding at most 24 bits is xoring them in first and then feeding zeros

  /** The bits, left-aligned in a register. */
  function Load(bits: seq<bool>): Register
    requires |bits| <= 24
  {
    bits + Zeros(24 - |bits|)
  }

  lemma FeedPreloaded(r: Register, b: bool, rest: seq<bool>)
    requires |rest| < 24
    ensures Feed(Xor(r, Load([b] + rest)), false) == Xor(Feed(r, b), Load(rest))
  {
    var l := Load([b] + rest);
    assert forall i :: 0 <= i < 23 ==> l[i + 1] == Load(rest)[i];
    assert !Load(rest)[23];
  }

  lemma {:induction false} CrcPreloaded(r: Register, bits: seq<bool>)
    requires |bits| <= 24
    ensures Crc(r, bits) == Crc(Xor(r, Load(bits)), Zeros(|bits|))
    decreases |bits|
  {
    if bits == [] {
      assert Xor(r, Load(bits)) == r;
    } else {
      var b, rest := bits[0], bits[1..];
      assert bits == [b] + rest && Zeros(|bits|) == [false] + Zeros(|rest|);
      CrcConcat(r, [b], rest);
      CrcConcat(Xor(r, Load(bits)), [false], Zeros(|rest|));
      CrcOne(r, b);
      CrcOne(Xor(r, Load(bits)), false);
      FeedPreloaded(r, b, rest);
      CrcPreloaded(Feed(r, b), rest);
    }
  }

  lemma CrcOne(r: Register, b: bool)
    ensures Crc(r, [b]) == Feed(r, b)
  {
    assert [b][..0] == [];
  }

  // ----- a nonzero register never becomes zero by shifting

  lemma FeedNonzero(r: Register)
    requires r != Zeros(24)
    ensures Feed(r, false) != Zeros(24)
  {
    if r[0] {
      assert GENERATOR[23] && Feed(r, false)[23];
    } else {
      var i :| 0 <= i < 24 && r[i];
      assert Feed(r, false)[i - 1];
    }
  }

  lemma {:induction false} CrcZeros(r: Register, n: nat)
    ensures (Crc(r, Zeros(n)) == Zeros(24)) <==> (r == Zeros(24))
  {
    if n > 0 {
      CrcZeros(r, n - 1);
      assert Zeros(n)[..n - 1] == Zeros(n - 1);
      if Crc(r, Zeros(n - 1)) != Zeros(24) {
        FeedNonzero(Crc(r, Zeros(n - 1)));
      } else {
        assert Feed(Zeros(24), false) == Zeros(24);
      }
    }
  }

  /** A range passes if and only if its last 24 bits are the CRC of the bits before them. */
  lemma PassesIff(m: seq<bool>, w: Register)
    ensures Passes(m + w) <==> w == Crc(Zeros(24), m)
  {
    var c := Crc(Zeros(24), m);
    CrcConcat(Zeros(24), m, w);
    CrcPreloaded(c, w);
    CrcZeros(Xor(c, Load(w)), 24);
    assert Load(w) == w;
    assert Xor(c, w) == Zeros(24) <==> c == w by {
      if Xor(c, w) == Zeros(24) {
        assert forall i :: 0 <= i < 24 ==> c[i] == w[i] by { assert forall i :: 0 <= i < 24 ==> !Xor(c, w)[i]; }
      }
    }
  }

  // ----- detection

  /** What `e` adds to a passing range decides whether the sum still passes. */
  lemma ErrorDecides(bits: seq<bool>, e: seq<bool>)
    requires Passes(bits) && |e| == |bits|
    ensures Passes(Xor(bits, e)) <==> Crc(Zeros(24), e) == Zeros(24)
  {
    CrcLinear(Zeros(24), Zeros(24), bits, e);
    assert Xor(Zeros(24), Zeros(24)) == Zeros(24);
    assert Xor(Zeros(24), Crc(Zeros(24), e)) == Crc(Zeros(24), e);
  }

  /** `burst` at position `at` of an otherwise clean range of `n` bits. */
  function Burst(n: nat, at: nat, burst: seq<bool>): (e: seq<bool>)
    requires at + |burst| <= n
    ensures |e| == n
  {
    Zeros(at) + burst + Zeros(n - at - |burst|)
  }

  lemma BurstNonzero(n: nat, at: nat, burst: seq<bool>)
    requires at + |burst| <= n && |burst| <= 24 && true in burst
    ensures Crc(Zeros(24), Burst(n, at, burst)) != Zeros(24)
  {
    hide Crc, Feed;
    var z, rest := Zeros(24), n - at - |burst|;
    CrcConcat(z, Zeros(at) + burst, Zeros(rest));
    CrcConcat(z, Zeros(at), burst);
    CrcZeros(z, at);
    CrcPreloaded(z, burst);
    assert Xor(z, Load(burst)) == Load(burst);
    var i :| 0 <= i < |burst| && burst[i];
    assert Load(burst)[i];
    CrcZeros(Load(burst), |burst|);
    CrcZeros(Crc(z, burst), rest);
  }

  /** Any nonzero error pattern confined to 24 consecutive bits is detected, in a range of any length. */
  lemma BurstDetected(bits: seq<bool>, e: seq<bool>, lo: nat)
    requires Passes(bits) && |e| == |bits| && true in e
    requires forall i :: 0 <= i < |e| && e[i] ==> lo <= i < lo + 24
    ensures !Passes(Xor(bits, e))
  {
    hide Crc, Feed, Burst;
    BurstSlice(e, lo);
    var hi := if lo + 24 < |e| then lo + 24 else |e|;
    BurstNonzero(|e|, lo, e[lo..hi]);
    ErrorDecides(bits, e);
  }

  /** An error confined to 24 bits is a burst. */
  lemma BurstSlice(e: seq<bool>, lo: nat)
    requires true in e && forall i :: 0 <= i < |e| && e[i] ==> lo <= i < lo + 24
    ensures lo < |e|
    ensures var hi := if lo + 24 < |e| then lo + 24 else |e|; true in e[lo..hi] && e == Burst(|e|, lo, e[lo..hi])
  {
    var i :| 0 <= i < |e| && e[i];
    var hi := if lo + 24 < |e| then lo + 24 else |e|;
    assert e[lo..hi][i - lo];
  }

  /** Whether an odd number of bits are set. */
  function Odd(bits: seq<bool>): bool {
    if bits == [] then false else Odd(bits[..|bits| - 1]) != bits[|bits| - 1]
  }

  lemma {:induction false} OddXor(a: seq<bool>, b: seq<bool>)
    requires |a| == |b|
    ensures Odd(Xor(a, b)) == (Odd(a) != Odd(b))
  {
    if a != [] {
      var n := |a| - 1;
      OddXor(a[..n], b[..n]);
      assert Xor(a, b)[..n] == Xor(a[..n], b[..n]);
    }
  }

  lemma {:induction false} OddFront(b: bool, bits: seq<bool>)
    ensures Odd([b] + bits) == (b != Odd(bits))
  {
    if bits == [] {
      assert [b] + bits == [b] && [b][..0] == [];
    } else {
      OddFront(b, bits[..|bits| - 1]);
      assert ([b] + bits)[..|bits|] == [b] + bits[..|bits| - 1];
    }
  }

  /** The generator has an even number of terms, so feeding a bit flips the parity exactly when it is set. */
  lemma FeedOdd(r: Register, b: bool)
    ensures Odd(Feed(r, b)) == (Odd(r) != b)
  {
    var s := r[1..] + [false];
    assert s[..23] == r[1..];
    OddFront(r[0], r[1..]);
    assert r == [r[0]] + r[1..];
    OddXor(s, GENERATOR);
    GeneratorOdd();
  }

  lemma {:induction false} CrcOdd(bits: seq<bool>)
    ensures Odd(Crc(Zeros(24), bits)) == Odd(bits)
  {
    if bits == [] {
      OddZeros(24);
    } else {
      CrcOdd(bits[..|bits| - 1]);
      FeedOdd(Crc(Zeros(24), bits[..|bits| - 1]), bits[|bits| - 1]);
    }
  }

  lemma {:induction false} OddZeros(n: nat)
    ensures !Odd(Zeros(n))
  {
    if n > 0 {
      OddZeros(n - 1);
      assert Zeros(n)[..n - 1] == Zeros(n - 1);
    }
  }

  /** Any odd number of flipped bits, anywhere in a range of any length, is detected. */
  lemma OddDetected(bits: seq<bool>, e: seq<bool>)
    requires Passes(bits) && |e| == |bits| && Odd(e)
    ensures !Passes(Xor(bits, e))
  {
    ErrorDecides(bits, e);
    CrcOdd(e);
    OddZeros(24);
  }

  lemma OddPrefix(s: seq<bool>, k: nat)
    requires k < |s|
    ensures Odd(s[..k + 1]) == (Odd(s[..k]) != s[k])
  {
    assert s[..k + 1][..k] == s[..k];
  }

  lemma OddEight(s: seq<bool>)
    requires |s| == 8
    ensures Odd(s) == (s[0] != (s[1] != (s[2] != (s[3] != (s[4] != (s[5] != (s[6] != s[7])))))))
  {
    assert !Odd(s[..0]) && s[..8] == s;
    hide Odd;
    OddPrefix(s, 0);
    OddPrefix(s, 1);
    OddPrefix(s, 2);
    OddPrefix(s, 3);
    OddPrefix(s, 4);
    OddPrefix(s, 5);
    OddPrefix(s, 6);
    OddPrefix(s, 7);
  }

  lemma {:induction false} OddConcat(a: seq<bool>, b: seq<bool>)
    ensures Odd(a + b) == (Odd(a) != Odd(b))
    decreases |b|
  {
    if b == [] {
      assert a + b == a;
    } else {
      OddConcat(a, b[..|b| - 1]);
      assert (a + b)[..|a + b| - 1] == a + b[..|b| - 1];
    }
  }

  lemma GeneratorOdd()
    ensures Odd(GENERATOR)
  {
    hide Odd;
    var g := GENERATOR;
    OddEight(g[..8]);
    OddEight(g[8..16]);
    OddEight(g[16..]);
    OddConcat(g[..8], g[8..16]);
    OddConcat(g[..8] + g[8..16], g[16..]);
    assert g == g[..8] + g[8..16] + g[16..];
  }
}
