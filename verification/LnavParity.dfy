/** GPS and QZSS LNAV word parity in its two delivery conventions (gnss/frame/parity.go), by section 20.3.5 and
    Table 20-XIV of IS-GPS-200N. A word is its thirty bits D1..D30, the ones the masks of the code keep. */
module LnavParity {
  import opened ParityChecks

  type Word = w: seq<bool> | |w| == 30 witness seq(30, _ => false)

  /** Data bit `d_p` of a 24-bit mask: `1 << (24 - p)`. */
  function Bit(p: nat): bv24 {
    match p
    case 1 => 0x800000
    case 2 => 0x400000
    case 3 => 0x200000
    case 4 => 0x100000
    case 5 => 0x080000
    case 6 => 0x040000
    case 7 => 0x020000
    case 8 => 0x010000
    case 9 => 0x008000
    case 10 => 0x004000
    case 11 => 0x002000
    case 12 => 0x001000
    case 13 => 0x000800
    case 14 => 0x000400
    case 15 => 0x000200
    case 16 => 0x000100
    case 17 => 0x000080
    case 18 => 0x000040
    case 19 => 0x000020
    case 20 => 0x000010
    case 21 => 0x000008
    case 22 => 0x000004
    case 23 => 0x000002
    case _ => 0x000001
  }

  /** `parityMasks`: the data bits that xor into parity bit D(25+k), as `maskFromIdx` builds them. */
  function MaskWord(k: nat): bv24 {
    match k
    case 0 =>
      Bit(1) | Bit(2) | Bit(3) | Bit(5) | Bit(6) | Bit(10) | Bit(11) | Bit(12) | Bit(13) | Bit(14) | Bit(17) |
      Bit(18) | Bit(20) | Bit(23)
    case 1 =>
      Bit(2) | Bit(3) | Bit(4) | Bit(6) | Bit(7) | Bit(11) | Bit(12) | Bit(13) | Bit(14) | Bit(15) | Bit(18) |
      Bit(19) | Bit(21) | Bit(24)
    case 2 =>
      Bit(1) | Bit(3) | Bit(4) | Bit(5) | Bit(7) | Bit(8) | Bit(12) | Bit(13) | Bit(14) | Bit(15) | Bit(16) |
      Bit(19) | Bit(20) | Bit(22)
    case 3 =>
      Bit(2) | Bit(4) | Bit(5) | Bit(6) | Bit(8) | Bit(9) | Bit(13) | Bit(14) | Bit(15) | Bit(16) | Bit(17) |
      Bit(20) | Bit(21) | Bit(23)
    case 4 =>
      Bit(1) | Bit(3) | Bit(5) | Bit(6) | Bit(7) | Bit(9) | Bit(10) | Bit(14) | Bit(15) | Bit(16) | Bit(17) |
      Bit(18) | Bit(21) | Bit(22) | Bit(24)
    case _ =>
      Bit(3) | Bit(5) | Bit(6) | Bit(8) | Bit(9) | Bit(10) | Bit(11) | Bit(13) | Bit(15) | Bit(19) | Bit(22) |
      Bit(23) | Bit(24)
  }

  /** The six masks as numbers. */
  lemma MaskWords()
    ensures MaskWord(0) == 0xEC7CD2
    ensures MaskWord(1) == 0x763E69
    ensures MaskWord(2) == 0xBB1F34
    ensures MaskWord(3) == 0x5D8F9A
    ensures MaskWord(4) == 0xAEC7CD
    ensures MaskWord(5) == 0x2DEA27
  {
    hide MaskWord;
    MaskWordsA();
    MaskWordsB();
    MaskWordsC();
    MaskWordsD();
    MaskWordsE();
    MaskWordsF();
  }

  lemma MaskWordsA()
    ensures MaskWord(0) == 0xEC7CD2
  {
  }

  lemma MaskWordsB()
    ensures MaskWord(1) == 0x763E69
  {
  }

  lemma MaskWordsC()
    ensures MaskWord(2) == 0xBB1F34
  {
  }

  lemma MaskWordsD()
    ensures MaskWord(3) == 0x5D8F9A
  {
  }

  lemma MaskWordsE()
    ensures MaskWord(4) == 0xAEC7CD
  {
  }

  lemma MaskWordsF()
    ensures MaskWord(5) == 0x2DEA27
  {
  }

  predicate Selects(k: nat, p: nat) { MaskWord(k) & Bit(p) != 0 }

  function Mask(k: nat): set<nat> { set p: nat | 0 < p <= 24 && Selects(k, p) }

  /** Which previous parity bit enters D(25+k): D30* or D29*. */
  predicate PrevIsD30(k: nat) { k == 1 || k == 3 || k == 4 }

  function Prev(k: nat, d29: bool, d30: bool): bool { if PrevIsD30(k) then d30 else d29 }

  /** `parityBits`: D25..D30 over 24 source bits and the previous word's D29*, D30*. */
  function ParityBits(d: seq<bool>, d29: bool, d30: bool): (r: seq<bool>)
    ensures |r| == 6
  {
    seq(6, k requires 0 <= k < 6 => Prev(k, d29, d30) != XorOver(d, Mask(k)))
  }

  /** The previous word's D29 enters parity bits D25, D27 and D30, and its D30 the other three. */
  lemma PrevEnters(d: seq<bool>, d29: bool, d30: bool, k: nat)
    requires k < 6
    ensures ParityBits(d, !d29, d30)[k] != ParityBits(d, d29, d30)[k] <==> k in {0, 2, 5}
    ensures ParityBits(d, d29, !d30)[k] != ParityBits(d, d29, d30)[k] <==> k in {1, 3, 4}
  {
    hide XorOver, Mask;
  }

  // ----- the code's distance

  /** Bit `p` of the word enters check `k`. */
  predicate Enters(k: nat, p: nat) { if p <= 24 then Selects(k, p) else p == 25 + k }

  function One(b: bool, v: bv6): bv6 { if b then v else 0 }

  /** The checks that bit `p` enters, as a column of the check matrix. */
  function Column(p: nat): bv6 {
    One(Enters(0, p), 1) | One(Enters(1, p), 2) | One(Enters(2, p), 4) |
    One(Enters(3, p), 8) | One(Enters(4, p), 16) | One(Enters(5, p), 32)
  }

  /** The bit with a given column. */
  function ColumnIndex(c: bv6): nat {
    match c
    case 0x01 => 25
    case 0x02 => 26
    case 0x04 => 27
    case 0x07 => 12
    case 0x08 => 28
    case 0x0B => 2
    case 0x0D => 20
    case 0x0E => 4
    case 0x10 => 29
    case 0x13 => 18
    case 0x15 => 1
    case 0x16 => 7
    case 0x19 => 17
    case 0x1A => 21
    case 0x1C => 16
    case 0x1F => 14
    case 0x20 => 30
    case 0x23 => 11
    case 0x26 => 19
    case 0x29 => 23
    case 0x2C => 8
    case 0x2F => 13
    case 0x31 => 10
    case 0x32 => 24
    case 0x34 => 22
    case 0x37 => 3
    case 0x38 => 9
    case 0x3B => 6
    case 0x3D => 5
    case 0x3E => 15
    case _ => 0
  }

  /** The parity of the number of checks that bit `p` enters. */
  predicate OddColumn(p: nat) {
    Enters(0, p) != (Enters(1, p) != (Enters(2, p) != (Enters(3, p) != (Enters(4, p) != Enters(5, p)))))
  }

  /** No two bits of a word enter the same checks. */
  lemma ColumnUnique(p: nat)
    requires 0 < p <= 30
    ensures ColumnIndex(Column(p)) == p
  {
    hide Column;
    if p <= 10 { ColumnsA(p); } else if p <= 20 { ColumnsB(p); } else { ColumnsC(p); }
  }

  lemma ColumnsA(p: nat)
    requires 0 < p <= 10
    ensures ColumnIndex(Column(p)) == p
  {
    hide MaskWord;
    MaskWords();
  }

  lemma ColumnsB(p: nat)
    requires 10 < p <= 20
    ensures ColumnIndex(Column(p)) == p
  {
    hide MaskWord;
    MaskWords();
  }

  lemma ColumnsC(p: nat)
    requires 20 < p <= 30
    ensures ColumnIndex(Column(p)) == p
  {
    hide MaskWord;
    MaskWords();
  }

  /** Every bit of a word enters an odd number of checks. */
  lemma ColumnOdd(p: nat)
    requires 0 < p <= 30
    ensures OddColumn(p)
  {
    MaskWords();
    hide MaskWord;
  }

  /** What check `k` computes over a whole word; it must come out as the previous word's bit demands. */
  function Check(w: Word, k: nat): bool
    requires k < 6
  {
    XorOver(w[..24], Mask(k)) != w[24 + k]
  }

  lemma FlipCheck(w: Word, p: nat, k: nat)
    requires 0 < p <= 30 && k < 6
    ensures Check(Flip(w, p), k) == (Check(w, k) != Enters(k, p))
  {
    hide Selects;
    if p <= 24 {
      FlipChanges(w[..24], Mask(k), p);
      assert Flip(w, p)[..24] == Flip(w[..24], p);
    } else {
      assert Flip(w, p)[..24] == w[..24];
    }
  }

  predicate SameChecks(v: Word, w: Word) {
    forall k :: 0 <= k < 6 ==> Check(v, k) == Check(w, k)
  }

  /** Two words that agree on all six checks are equal or differ in at least four bits. */
  lemma Distance(v: Word, w: Word)
    requires SameChecks(v, w) && v != w
    ensures |Differences(v, w)| >= 4
  {
    var d := Differences(v, w);
    hide Enters, Check, Column, ColumnIndex, OddColumn;
    if d == {} {
      NoDifferences(v, w);
      return;
    }
    var p :| p in d;
    FlipDifferences(v, w, p);
    if d - {p} == {} {
      OneFlip(v, p);
      NoDifferences(Flip(v, p), w);
      return;
    }
    var q :| q in d - {p};
    FlipDifferences(Flip(v, p), w, q);
    if d - {p} - {q} == {} {
      TwoFlips(v, p, q);
      NoDifferences(Flip(Flip(v, p), q), w);
      return;
    }
    var r :| r in d - {p} - {q};
    FlipDifferences(Flip(Flip(v, p), q), w, r);
    if d - {p} - {q} - {r} == {} {
      ThreeFlips(v, p, q, r);
      NoDifferences(Flip(Flip(Flip(v, p), q), r), w);
      return;
    }
    var t :| t in d - {p} - {q} - {r};
    SubsetSize({p, q, r, t}, d);
  }

  lemma OneFlip(v: Word, p: nat)
    requires 0 < p <= 30
    ensures !SameChecks(v, Flip(v, p))
  {
    ColumnOdd(p);
    hide Enters, Check;
    forall k | 0 <= k < 6
      ensures Check(Flip(v, p), k) == (Check(v, k) != Enters(k, p))
    {
      FlipCheck(v, p, k);
    }
    assert Enters(0, p) || Enters(1, p) || Enters(2, p) || Enters(3, p) || Enters(4, p) || Enters(5, p);
  }

  lemma ColumnsDiffer(p: nat, q: nat) returns (k: nat)
    requires 0 < p <= 30 && 0 < q <= 30 && p != q
    ensures k < 6 && Enters(k, p) != Enters(k, q)
  {
    ColumnUnique(p);
    ColumnUnique(q);
    hide Enters, ColumnIndex;
    assert Column(p) != Column(q);
    if Enters(0, p) != Enters(0, q) { k := 0; }
    else if Enters(1, p) != Enters(1, q) { k := 1; }
    else if Enters(2, p) != Enters(2, q) { k := 2; }
    else if Enters(3, p) != Enters(3, q) { k := 3; }
    else if Enters(4, p) != Enters(4, q) { k := 4; }
    else { k := 5; }
  }

  lemma TwoFlips(v: Word, p: nat, q: nat)
    requires 0 < p <= 30 && 0 < q <= 30 && p != q
    ensures !SameChecks(v, Flip(Flip(v, p), q))
  {
    hide Enters, Check;
    var k := ColumnsDiffer(p, q);
    FlipCheck(v, p, k);
    FlipCheck(Flip(v, p), q, k);
  }

  lemma ThreeFlips(v: Word, p: nat, q: nat, r: nat)
    requires 0 < p <= 30 && 0 < q <= 30 && 0 < r <= 30
    ensures !SameChecks(v, Flip(Flip(Flip(v, p), q), r))
  {
    ColumnOdd(p);
    ColumnOdd(q);
    ColumnOdd(r);
    hide Enters, Check;
    forall k | 0 <= k < 6
      ensures Check(Flip(Flip(Flip(v, p), q), r), k)
           == (Check(v, k) != (Enters(k, p) != (Enters(k, q) != Enters(k, r))))
    {
      FlipCheck(v, p, k);
      FlipCheck(Flip(v, p), q, k);
      FlipCheck(Flip(Flip(v, p), q), r, k);
    }
  }
}
