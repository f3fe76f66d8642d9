/** Checks that xor a fixed set of bits of a word, shared by the LNAV parity and the GLONASS Hamming code.
    Bits are numbered from 1, as the interface documents number them. */
module ParityChecks {

  /** The xor of the selected bits. */
  function XorOver(bits: seq<bool>, sel: set<nat>): bool {
    if bits == [] then false
    else XorOver(bits[..|bits| - 1], sel) != (|bits| in sel && bits[|bits| - 1])
  }

  function Flip(bits: seq<bool>, p: nat): (r: seq<bool>)
    requires 0 < p <= |bits|
    ensures |r| == |bits|
  {
    bits[p - 1 := !bits[p - 1]]
  }

  /** Flipping one bit changes exactly the checks that select it. */
  lemma {:induction false} FlipChanges(bits: seq<bool>, sel: set<nat>, p: nat)
    requires 0 < p <= |bits|
    ensures XorOver(Flip(bits, p), sel) == (XorOver(bits, sel) != (p in sel))
  {
    var n := |bits| - 1;
    if p <= n {
      FlipChanges(bits[..n], sel, p);
      assert Flip(bits, p)[..n] == Flip(bits[..n], p);
    } else {
      assert Flip(bits, p)[..n] == bits[..n];
    }
  }

  /** Bits that are not selected do not matter. */
  lemma {:induction false} XorSame(a: seq<bool>, b: seq<bool>, sel: set<nat>)
    requires |a| == |b| && forall p :: 0 <= p < |a| && p + 1 in sel ==> a[p] == b[p]
    ensures XorOver(a, sel) == XorOver(b, sel)
  {
    if a != [] {
      var n := |a| - 1;
      assert forall p :: 0 <= p < n ==> a[..n][p] == a[p] && b[..n][p] == b[p];
      XorSame(a[..n], b[..n], sel);
    }
  }

  predicate Differ(a: seq<bool>, b: seq<bool>, p: nat)
    requires |a| == |b| && 0 < p <= |a|
  {
    a[p - 1] != b[p - 1]
  }

  /** The positions at which two words differ. */
  function Differences(a: seq<bool>, b: seq<bool>): set<nat>
    requires |a| == |b|
  {
    set p | 0 < p <= |a| && Differ(a, b, p)
  }

  lemma FlipDifferences(a: seq<bool>, b: seq<bool>, p: nat)
    requires |a| == |b| && p in Differences(a, b)
    ensures Differences(Flip(a, p), b) == Differences(a, b) - {p}
  {
  }

  lemma NoDifferences(a: seq<bool>, b: seq<bool>)
    requires |a| == |b| && Differences(a, b) == {}
    ensures a == b
  {
    forall i | 0 <= i < |a|
      ensures a[i] == b[i]
    {
      assert i + 1 !in Differences(a, b) && !Differ(a, b, i + 1);
    }
  }

  lemma {:induction false} SubsetSize<T>(a: set<T>, b: set<T>)
    requires a <= b
    ensures |a| <= |b|
  {
    if a != {} {
      var x :| x in a;
      SubsetSize(a - {x}, b - {x});
    }
  }
}
