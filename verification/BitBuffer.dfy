/** Byte buffers read and written bit by bit, most significant bit first, and their 32-bit words. */
module BitBuffer {

  /** Bit `i` of a byte, counted from the most significant one: `1 << (7 - i)`. */
  function Mask8(i: nat): bv8 {
    match i
    case 0 => 0x80
    case 1 => 0x40
    case 2 => 0x20
    case 3 => 0x10
    case 4 => 0x08
    case 5 => 0x04
    case 6 => 0x02
    case _ => 0x01
  }

  predicate BitIn(b: bv8, i: nat) { b & Mask8(i) != 0 }

  function ByteBits(b: bv8): (r: seq<bool>)
    ensures |r| == 8
  {
    seq(8, i requires 0 <= i < 8 => BitIn(b, i))
  }

  /** Bit `p` of a byte string, most significant bit first within each byte. */
  function BitAt(data: seq<bv8>, p: nat): bool
    requires p < 8 * |data|
  {
    BitIn(data[p / 8], p % 8)
  }

  function BitsOf(data: seq<bv8>): (r: seq<bool>)
    ensures |r| == 8 * |data|
    ensures forall p :: 0 <= p < 8 * |data| ==> r[p] == BitAt(data, p)
  {
    seq(8 * |data|, p requires 0 <= p < 8 * |data| => BitAt(data, p))
  }

  lemma BitsOfSnoc(data: seq<bv8>, b: bv8)
    ensures BitsOf(data + [b]) == BitsOf(data) + ByteBits(b)
  {
    hide BitIn;
  }

  function PutIn(x: bv8, i: nat, v: bool): bv8 {
    if v then x | Mask8(i) else x & !Mask8(i)
  }

  lemma PutInBits(x: bv8, i: nat, j: nat, v: bool)
    requires i < 8 && j < 8
    ensures BitIn(PutIn(x, i, v), j) == if i == j then v else BitIn(x, j)
  {
  }

  /** `page[p>>3] |= mask` or `page[p>>3] &^= mask`. */
  method PutBit(a: array<bv8>, p: nat, v: bool)
    requires p < 8 * a.Length
    modifies a
    ensures BitsOf(a[..]) == old(BitsOf(a[..]))[p := v]
  {
    hide PutIn, BitIn;
    ghost var was := a[..];
    a[p / 8] := PutIn(a[p / 8], p % 8, v);
    assert a[..] == was[p / 8 := PutIn(was[p / 8], p % 8, v)];
    forall q | 0 <= q < 8 * a.Length
      ensures BitAt(a[..], q) == if q == p then v else BitAt(was, q)
    {
      PutInBits(was[p / 8], p % 8, q % 8, v);
    }
  }

  lemma Blank(b: seq<bv8>)
    requires forall i :: 0 <= i < |b| ==> b[i] == 0
    ensures forall p :: 0 <= p < 8 * |b| ==> !BitsOf(b)[p]
  {
    assert forall i :: !BitIn(0, i);
  }

  /** Byte `j` of a word in big-endian order. */
  function WordByte(w: bv32, j: nat): bv8 {
    match j
    case 0 => ((w >> 24) & 0xFF) as bv8
    case 1 => ((w >> 16) & 0xFF) as bv8
    case 2 => ((w >> 8) & 0xFF) as bv8
    case _ => (w & 0xFF) as bv8
  }

  function Join(a: bv8, b: bv8, c: bv8, d: bv8): bv32 {
    ((a as bv32) << 24) | ((b as bv32) << 16) | ((c as bv32) << 8) | (d as bv32)
  }

  lemma JoinBytes(a: bv8, b: bv8, c: bv8, d: bv8)
    ensures var w := Join(a, b, c, d);
            WordByte(w, 0) == a && WordByte(w, 1) == b && WordByte(w, 2) == c && WordByte(w, 3) == d
  {
  }

  /** The bits of a word, byte by byte: the most significant bit of the word is the first bit of the first byte. */
  lemma FirstByteBits(w: bv32)
    ensures BitIn(WordByte(w, 0), 0) == (w & 0x80000000 != 0) && BitIn(WordByte(w, 0), 1) == (w & 0x40000000 != 0)
    ensures BitIn(WordByte(w, 0), 2) == (w & 0x20000000 != 0) && BitIn(WordByte(w, 0), 3) == (w & 0x10000000 != 0)
    ensures BitIn(WordByte(w, 0), 4) == (w & 0x08000000 != 0) && BitIn(WordByte(w, 0), 5) == (w & 0x04000000 != 0)
    ensures BitIn(WordByte(w, 0), 6) == (w & 0x02000000 != 0) && BitIn(WordByte(w, 0), 7) == (w & 0x01000000 != 0)
  {
  }

  lemma SecondByteBits(w: bv32)
    ensures BitIn(WordByte(w, 1), 0) == (w & 0x00800000 != 0) && BitIn(WordByte(w, 1), 1) == (w & 0x00400000 != 0)
    ensures BitIn(WordByte(w, 1), 2) == (w & 0x00200000 != 0) && BitIn(WordByte(w, 1), 3) == (w & 0x00100000 != 0)
    ensures BitIn(WordByte(w, 1), 4) == (w & 0x00080000 != 0) && BitIn(WordByte(w, 1), 5) == (w & 0x00040000 != 0)
    ensures BitIn(WordByte(w, 1), 6) == (w & 0x00020000 != 0) && BitIn(WordByte(w, 1), 7) == (w & 0x00010000 != 0)
  {
  }

  lemma ThirdByteBits(w: bv32)
    ensures BitIn(WordByte(w, 2), 0) == (w & 0x00008000 != 0) && BitIn(WordByte(w, 2), 1) == (w & 0x00004000 != 0)
    ensures BitIn(WordByte(w, 2), 2) == (w & 0x00002000 != 0) && BitIn(WordByte(w, 2), 3) == (w & 0x00001000 != 0)
    ensures BitIn(WordByte(w, 2), 4) == (w & 0x00000800 != 0) && BitIn(WordByte(w, 2), 5) == (w & 0x00000400 != 0)
    ensures BitIn(WordByte(w, 2), 6) == (w & 0x00000200 != 0) && BitIn(WordByte(w, 2), 7) == (w & 0x00000100 != 0)
  {
  }

  lemma LastByteBits(w: bv32)
    ensures BitIn(WordByte(w, 3), 0) == (w & 0x00000080 != 0) && BitIn(WordByte(w, 3), 1) == (w & 0x00000040 != 0)
    ensures BitIn(WordByte(w, 3), 2) == (w & 0x00000020 != 0) && BitIn(WordByte(w, 3), 3) == (w & 0x00000010 != 0)
    ensures BitIn(WordByte(w, 3), 4) == (w & 0x00000008 != 0) && BitIn(WordByte(w, 3), 5) == (w & 0x00000004 != 0)
    ensures BitIn(WordByte(w, 3), 6) == (w & 0x00000002 != 0) && BitIn(WordByte(w, 3), 7) == (w & 0x00000001 != 0)
  {
  }

  /** The bytes of the first `n` words. */
  function BytesOf(words: seq<bv32>, n: nat): (r: seq<bv8>)
    requires n <= |words|
    ensures |r| == 4 * n
  {
    seq(4 * n, k requires 0 <= k < 4 * n => WordByte(words[k / 4], k % 4))
  }

  method Unpack(words: seq<bv32>, n: nat) returns (buf: array<bv8>)
    requires n <= |words|
    ensures fresh(buf) && buf[..] == BytesOf(words, n)
  {
    hide WordByte;
    buf := new bv8[4 * n];
    for k := 0 to 4 * n
      invariant forall j :: 0 <= j < k ==> buf[j] == WordByte(words[j / 4], j % 4)
    {
      buf[k] := WordByte(words[k / 4], k % 4);
    }
  }

  method Pack(buf: seq<bv8>, words: array<bv32>, n: nat)
    requires |buf| == 4 * n && n <= words.Length
    modifies words
    ensures BytesOf(words[..], n) == buf && words[n..] == old(words[n..])
  {
    hide WordByte, Join;
    for i := 0 to n
      invariant words[n..] == old(words[n..])
      invariant forall j :: 0 <= j < 4 * i ==> WordByte(words[j / 4], j % 4) == buf[j]
    {
      JoinBytes(buf[4 * i], buf[4 * i + 1], buf[4 * i + 2], buf[4 * i + 3]);
      words[i] := Join(buf[4 * i], buf[4 * i + 1], buf[4 * i + 2], buf[4 * i + 3]);
    }
  }
}
