/** Which two-bit errors CRC-24Q detects, and its distance (gnss/frame/crc.go). */
module CrcDistance {
  import opened ParityChecks
  import opened Crc24Q
  import opened CrcCode
  import opened CrcOrder

  // ----- two flipped bits

  /** A range of `n` bits, clear but for two. */
  function Two(n: nat, i: nat, j: nat): (e: seq<bool>)
    requires i < j < n
    ensures |e| == n && forall p :: 0 <= p < n ==> e[p] == (p == i || p == j)
  {
    seq(n, p => p == i || p == j)
  }

  lemma TwoParts(n: nat, i: nat, j: nat)
    requires i < j < n
    ensures Two(n, i, j) == Zeros(i) + ([true] + Zeros(j - i - 1) + [true]) + Zeros(n - j - 1)
  {
  }

  /** A set bit in front. */
  function Front(): Register { Feed(Zeros(24), true) }

  lemma FrontReturns(d: nat)
    ensures Turn(Front(), d) == Front() <==> Returns(d)
  {
    hide Turn, One, Feed;
    FrontPower();
    TurnAdd(One(), 24, d);
    TurnAdd(One(), d, 24);
    TurnInjective(Turn(One(), d), One(), 24);
  }

  lemma FrontPower()
    ensures Front() == Turn(One(), 24)
  {
    hide Times, Feed, Bits24, Narrow, Turn, One;
    Power47();
    SquaresLow();
    PowerTimes(0x000080, 7, 0x010000, 16);
    TopValue();
    WordTop(true);
    TurnNext(One(), 23);
    FrontFed();
  }

  lemma TopValue()
    ensures Times(0x000080, 0x010000) == TopBit(true)
  {
  }

  lemma FrontFed()
    ensures Front() == Feed([true] + Zeros(23), false)
  {
  }

  /** The register after two set bits `d` apart. */
  lemma TwoFed(d: nat)
    requires d > 0
    ensures Crc(Zeros(24), [true] + Zeros(d - 1) + [true]) == Xor(Turn(Front(), d), Front())
  {
    hide Feed, Crc;
    var z := Zeros(24);
    CrcConcat(z, [true] + Zeros(d - 1), [true]);
    CrcConcat(z, [true], Zeros(d - 1));
    CrcOne(z, true);
    var r := Turn(Front(), d - 1);
    CrcOne(r, true);
    FeedLinear(r, z, false, true);
    assert Xor(r, z) == r;
    TurnNext(Front(), d - 1);
  }

  lemma TwoDecides(n: nat, i: nat, j: nat)
    requires i < j < n
    ensures Crc(Zeros(24), Two(n, i, j)) == Zeros(24) <==> (j - i) % PERIOD == 0
  {
    hide Crc, Feed, Turn, Returns, Two;
    var z, pair := Zeros(24), [true] + Zeros(j - i - 1) + [true];
    TwoParts(n, i, j);
    CrcConcat(z, Zeros(i) + pair, Zeros(n - j - 1));
    CrcConcat(z, Zeros(i), pair);
    CrcZeros(z, i);
    CrcZeros(Crc(z, pair), n - j - 1);
    TwoFed(j - i);
    XorZero(Turn(Front(), j - i), Front());
    FrontReturns(j - i);
    ReturnsIff(j - i);
  }

  /** Exactly which two flipped bits are detected, in a range of any length: all but those a multiple of
      `2^23 - 1` apart. */
  lemma TwoDetectedIff(bits: seq<bool>, i: nat, j: nat)
    requires Passes(bits) && i < j < |bits|
    ensures !Passes(Xor(bits, Two(|bits|, i, j))) <==> (j - i) % PERIOD != 0
  {
    hide Crc, Passes, Two;
    ErrorDecides(bits, Two(|bits|, i, j));
    TwoDecides(|bits|, i, j);
  }

  // ----- the distance

  lemma {:induction false} OddFlip(a: seq<bool>, p: nat)
    requires 0 < p <= |a|
    ensures Odd(Flip(a, p)) != Odd(a)
  {
    var n := |a| - 1;
    if p <= n {
      OddFlip(a[..n], p);
      assert Flip(a, p)[..n] == Flip(a[..n], p);
    } else {
      assert Flip(a, p)[..n] == a[..n];
    }
  }

  lemma OddlyDifferent(a: seq<bool>, b: seq<bool>)
    requires |a| == |b| && Passes(a) && Odd(a) != Odd(b)
    ensures !Passes(b)
  {
    hide Passes, Odd;
    OddXor(a, b);
    OddDetected(a, Xor(a, b));
    assert Xor(a, Xor(a, b)) == b;
  }

  lemma FlipTwo(a: seq<bool>, p: nat, q: nat)
    requires 0 < p < q <= |a|
    ensures Flip(Flip(a, p), q) == Flip(Flip(a, q), p) == Xor(a, Two(|a|, p - 1, q - 1))
  {
  }

  lemma TwoApart(a: seq<bool>, p: nat, q: nat)
    requires 0 < p <= |a| && 0 < q <= |a| && p != q && |a| <= PERIOD && Passes(a)
    ensures !Passes(Flip(Flip(a, p), q))
  {
    hide Passes, Flip, Two;
    var lo, hi := if p < q then p else q, if p < q then q else p;
    FlipTwo(a, lo, hi);
    TwoDetectedIff(a, lo - 1, hi - 1);
  }

  /** Two ranges that pass and differ, differ in at least four bits, at every length up to the period. */
  lemma Distance(a: seq<bool>, b: seq<bool>)
    requires |a| == |b| <= PERIOD && Passes(a) && Passes(b) && a != b
    ensures |Differences(a, b)| >= 4
  {
    hide Passes, Odd;
    var d := Differences(a, b);
    if d == {} {
      NoDifferences(a, b);
      return;
    }
    var p :| p in d;
    FlipDifferences(a, b, p);
    OddFlip(a, p);
    var a1 := Flip(a, p);
    if d - {p} == {} {
      NoDifferences(a1, b);
      OddlyDifferent(a, b);
      return;
    }
    var q :| q in d - {p};
    FlipDifferences(a1, b, q);
    OddFlip(a1, q);
    var a2 := Flip(a1, q);
    if d - {p} - {q} == {} {
      NoDifferences(a2, b);
      TwoApart(a, p, q);
      return;
    }
    var r :| r in d - {p} - {q};
    FlipDifferences(a2, b, r);
    OddFlip(a2, r);
    if d - {p} - {q} - {r} == {} {
      NoDifferences(Flip(a2, r), b);
      OddlyDifferent(a, b);
      return;
    }
    var t :| t in d - {p} - {q} - {r};
    SubsetSize({p, q, r, t}, d);
    assert |{p, q, r, t}| == 4;
  }

  lemma TwoZeros(n: nat, i: nat, j: nat)
    requires i < j < n
    ensures Xor(Zeros(n), Two(n, i, j)) == Two(n, i, j)
  {
  }

  /** In a longer range two flipped bits may pass. */
  lemma DistanceEnds(n: nat)
    requires n > PERIOD
    ensures Passes(Zeros(n)) && Passes(Two(n, 0, PERIOD)) && Differences(Zeros(n), Two(n, 0, PERIOD)) == {1, PERIOD + 1}
  {
    hide Crc, Two;
    CrcZeros(Zeros(24), n);
    TwoDetectedIff(Zeros(n), 0, PERIOD);
    TwoZeros(n, 0, PERIOD);
  }
}
