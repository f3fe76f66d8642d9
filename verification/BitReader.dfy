/** Fields read from a frame and put back bit by bit, most significant bit first (gnss/frame/bitreader.go). */
module BitReader {
  import opened BigEndian
  import opened BitBuffer

  function Pow2(n: nat): (r: nat)
    ensures r > 0
  {
    if n == 0 then 1 else 2 * Pow2(n - 1)
  }

  /** The number a bit string stands for. */
  function Value(bits: seq<bool>): (v: nat)
    ensures v < Pow2(|bits|)
  {
    if bits == [] then 0 else 2 * Value(bits[..|bits| - 1]) + if bits[|bits| - 1] then 1 else 0
  }

  /** `v & (1 << k)` is not zero: binary digit `k`. */
  predicate Digit(v: nat, k: nat)
    decreases k
  {
    if k == 0 then v % 2 == 1 else Digit(v / 2, k - 1)
  }

  /** The digits of a number are the bits it was read from. */
  lemma {:induction false} DigitOf(bits: seq<bool>, i: nat)
    requires i < |bits|
    ensures Digit(Value(bits), |bits| - 1 - i) == bits[i]
    decreases |bits|
  {
    var n := |bits| - 1;
    assert Value(bits) / 2 == Value(bits[..n]);
    if i < n { DigitOf(bits[..n], i); }
  }

  /** Different numbers differ in a digit. */
  lemma {:induction false} DigitsDiffer(x: nat, y: nat, n: nat) returns (j: nat)
    requires x < Pow2(n) && y < Pow2(n) && x != y
    ensures j < n && Digit(x, j) != Digit(y, j)
    decreases n
  {
    if x % 2 != y % 2 {
      j := 0;
    } else {
      var k := DigitsDiffer(x / 2, y / 2, n - 1);
      j := k + 1;
    }
  }

  /** `BitReader.Bits`: the field at a bit offset, or nothing when it does not lie in the frame. */
  method Bits(data: seq<bv8>, nbits: nat, start: int, n: int) returns (r: Option<nat>)
    requires nbits <= 8 * |data|
    ensures r == if 0 <= n <= 64 && 0 <= start && start + n <= nbits
                 then Some(Value(BitsOf(data)[start..start + n])) else None
  {
    if n < 0 || n > 64 || start < 0 || start > nbits || start + n > nbits { return None; }
    hide BitIn;
    ghost var bits := BitsOf(data)[start..start + n];
    var v := 0;
    for i := 0 to n
      invariant v == Value(bits[..i])
    {
      assert bits[..i + 1][..i] == bits[..i] && bits[i] == BitAt(data, start + i);
      v := 2 * v + if BitAt(data, start + i) then 1 else 0;
    }
    assert bits[..n] == bits;
    return Some(v);
  }

  /** The `put` closure of `DecodeGalileoINAV`: sets the bits of an `n`-bit field at an offset. */
  method PutField(dst: array<bv8>, off: nat, v: nat, n: nat)
    requires off + n <= 8 * dst.Length
    modifies dst
    ensures var was := old(BitsOf(dst[..]));
            forall p :: 0 <= p < |was| ==>
              BitsOf(dst[..])[p] == (was[p] || (off <= p < off + n && Digit(v, n - 1 - (p - off))))
  {
    hide PutIn, BitIn, Digit;
    ghost var was := BitsOf(dst[..]);
    for i := 0 to n
      invariant forall p :: 0 <= p < |was| ==>
        BitsOf(dst[..])[p] == (was[p] || (off <= p < off + i && Digit(v, n - 1 - (p - off))))
    {
      if Digit(v, n - 1 - i) { PutBit(dst, off + i, true); }
    }
  }

}
