/** The split CRC message of a Galileo I/NAV page (gnss/frame/galileo_inav.go). */
module GalileoInav {
  import opened Crc24Q
  import opened CrcCode
  import opened BitBuffer
  import BitReader
  import CrcDistance
  import ParityChecks

  const PAGE_BITS := 256

  /** The protected bits in transmission order: page bits 0..113, then 128..209 and, with the CRC, 210..233. */
  function Gather(page: seq<bool>, withCRC: bool): (m: seq<bool>)
    requires |page| == PAGE_BITS
    ensures |m| == if withCRC then 220 else 196
  {
    page[..114] + page[128..if withCRC then 234 else 210]
  }

  /** A page carrying the CRC of its protected bits. */
  function Stamped(page: seq<bool>): (r: seq<bool>)
    requires |page| == PAGE_BITS
    ensures |r| == PAGE_BITS
  {
    page[..210] + Crc(Zeros(24), Gather(page, false)) + page[234..]
  }

  /** The 128-bit nav word: 112 even and 16 odd data bits. */
  function Content(page: seq<bool>): seq<bool>
    requires |page| == PAGE_BITS
  {
    page[2..58] + page[58..114] + page[130..146]
  }

  datatype Verdict = ShortFrame | AlertPage | BadCRC | NavWord(content: seq<bool>)

  /** The gate of `DecodeGalileoINAV` in front of the field decoding. */
  function Gate(page: seq<bool>): Verdict
    requires |page| == PAGE_BITS
  {
    if page[0] || !page[128] || page[1] || page[129] then AlertPage
    else if !Passes(Gather(page, true)) then BadCRC
    else NavWord(Content(page))
  }

  /** What the gate's verdict says about the page, bit by bit. */
  predicate Judged(page: seq<bool>, v: Verdict)
    requires |page| == PAGE_BITS
  {
    && (v == AlertPage <==> page[0] || page[1] || !page[128] || page[129])
    && (v.NavWord? <==> v != AlertPage && Passes(page[0..114] + page[128..234]))
    && (v.NavWord? ==> |v.content| == 128)
    && (v.NavWord? ==> forall i :: 0 <= i < 112 ==> v.content[i] == page[2 + i])
    && (v.NavWord? ==> forall i :: 112 <= i < 128 ==> v.content[i] == page[18 + i])
    && v != ShortFrame
  }

  /** The nav word is page bits 2..113 and 130..145. */
  lemma GateJudges(page: seq<bool>)
    requires |page| == PAGE_BITS
    ensures Judged(page, Gate(page))
  {
    hide Passes;
    assert page[..114] == page[0..114];
  }

  /** A page passes exactly when it equals its own stamping. */
  lemma PassesIffStamped(page: seq<bool>)
    requires |page| == PAGE_BITS
    ensures Passes(Gather(page, true)) <==> page == Stamped(page)
  {
    hide Crc, Passes;
    var m, w := Gather(page, false), page[210..234];
    assert Gather(page, true) == m + w;
    PassesIff(m, w);
    var s := Stamped(page);
    if w == Crc(Zeros(24), m) {
      assert page == page[..210] + w + page[234..];
    } else {
      assert s[210..234] == Crc(Zeros(24), m);
    }
  }

  /** Stamping any page makes the gathered message pass, and touches page bits 210..233 only, so the gate
      then lets every nominal page through with its nav word unchanged. */
  lemma StampAccepted(page: seq<bool>)
    requires |page| == PAGE_BITS
    ensures var s := Stamped(page);
            && Passes(Gather(s, true))
            && (forall i :: 0 <= i < PAGE_BITS && !(210 <= i < 234) ==> s[i] == page[i])
            && (Gate(page) != AlertPage ==> Gate(s) == NavWord(Content(page)))
  {
    hide Crc, Passes;
    var s := Stamped(page);
    assert Gather(s, false) == Gather(page, false);
    assert Stamped(s) == s;
    PassesIffStamped(s);
    assert s[..210] == page[..210];
    SameContent(page, s);
  }

  lemma SameContent(page: seq<bool>, s: seq<bool>)
    requires |page| == |s| == PAGE_BITS && s[..210] == page[..210]
    ensures Content(s) == Content(page)
  {
    assert forall i :: 0 <= i < 210 ==> s[i] == s[..210][i] && page[i] == page[..210][i];
    assert s[2..58] == page[2..58] && s[58..114] == page[58..114] && s[130..146] == page[130..146];
  }

  predicate Protected(i: int) { 0 <= i < 114 || 128 <= i < 234 }

  /** Any corruption confined to 24 consecutive page bits that touches a protected bit is rejected, even
      where the window spans the unprotected gap between the page parts. */
  lemma PageBurstDetected(page: seq<bool>, e: seq<bool>, lo: nat)
    requires |page| == |e| == PAGE_BITS && Passes(Gather(page, true))
    requires forall i :: 0 <= i < PAGE_BITS && e[i] ==> lo <= i < lo + 24
    requires exists i :: Protected(i) && e[i]
    ensures !Passes(Gather(Xor(page, e), true))
    ensures !Gate(Xor(page, e)).NavWord?
  {
    hide Crc, Passes;
    var g := Gather(e, true);
    assert Gather(Xor(page, e), true) == Xor(Gather(page, true), g);
    var at := if lo <= 114 then lo else if lo < 128 then 114 else lo - 14;
    var i :| Protected(i) && e[i];
    assert g[if i < 114 then i else i - 14];
    forall j | 0 <= j < 220 && g[j]
      ensures at <= j < at + 24
    {
      assert e[if j < 114 then j else j + 14];
    }
    BurstDetected(Gather(page, true), g, at);
  }

  /** Two pages that pass and differ in a protected bit differ in at least four of them. */
  lemma PageDistance(page: seq<bool>, other: seq<bool>)
    requires |page| == |other| == PAGE_BITS && Passes(Gather(page, true)) && Passes(Gather(other, true))
    requires exists i :: Protected(i) && page[i] != other[i]
    ensures |ParityChecks.Differences(Gather(page, true), Gather(other, true))| >= 4
  {
    hide Passes;
    var a, b := Gather(page, true), Gather(other, true);
    var i :| Protected(i) && page[i] != other[i];
    var j := if i < 114 then i else i - 14;
    assert a[j] == page[i] && b[j] == other[i];
    CrcDistance.Distance(a, b);
  }

  // ----- the code on bytes

  /** `copyGalileoBits`: sets in `dst` the bits that are set in the source range. */
  method CopyBits(dst: array<bv8>, dstOff: nat, src: seq<bv8>, srcOff: nat, n: nat)
    requires dstOff + n <= 8 * dst.Length && srcOff + n <= 8 * |src|
    modifies dst
    ensures var was := old(BitsOf(dst[..]));
            var now := BitsOf(dst[..]);
            forall p :: 0 <= p < |now| ==>
              now[p] == (was[p] || (dstOff <= p < dstOff + n && BitsOf(src)[srcOff + p - dstOff]))
  {
    hide PutIn, BitIn;
    ghost var was := BitsOf(dst[..]);
    for i := 0 to n
      invariant forall p :: 0 <= p < |was| ==>
        BitsOf(dst[..])[p] == (was[p] || (dstOff <= p < dstOff + i && BitsOf(src)[srcOff + p - dstOff]))
    {
      if BitAt(src, srcOff + i) {
        PutBit(dst, dstOff + i, true);
      }
    }
  }

  /** `galileoINAVCRCMessage`. */
  method CRCMessage(page: seq<bv8>, withCRC: bool) returns (msg: seq<bv8>)
    requires |page| == 32
    ensures |msg| == (if withCRC then 28 else 25)
    ensures BitsOf(msg)[..|Gather(BitsOf(page), withCRC)|] == Gather(BitsOf(page), withCRC)
  {
    hide PutIn, BitIn;
    var bitLen, oddBits := 196, 82;
    if withCRC {
      bitLen, oddBits := 220, 106;
    }
    var buf := new bv8[(bitLen + 7) / 8](_ => 0);
    Blank(buf[..]);
    CopyBits(buf, 0, page, 0, 114);
    CopyBits(buf, 114, page, 128, oddBits);
    msg := buf[..];
  }

  /** The stamping loop on the page bytes. */
  method StampPage(page: array<bv8>)
    requires page.Length == 32
    modifies page
    ensures BitsOf(page[..]) == Stamped(old(BitsOf(page[..])))
  {
    hide PutIn, BitIn, Bits24, Crc, Narrow, BitsOf, Stamping;
    ghost var was := BitsOf(page[..]);
    var msg := CRCMessage(page[..], false);
    var crc := CRC24QBits(msg, 0, 196);
    ghost var c := Crc(Zeros(24), Gather(was, false));
    assert BitsOf(msg)[0..196] == BitsOf(msg)[..196];
    PartStamped(was, c, 0);
    for i := 0 to 24
      invariant BitsOf(page[..]) == Stamping(was, c, i)
    {
      PartStamped(was, c, i);
      PutBit(page, 210 + i, Bits24(crc)[i]);
    }
    PartStamped(was, c, 24);
  }

  /** The page with the first `i` bits of its CRC in place. */
  function Stamping(page: seq<bool>, c: Register, i: nat): (r: seq<bool>)
    requires |page| == PAGE_BITS && i <= 24
    ensures |r| == PAGE_BITS
  {
    page[..210] + c[..i] + page[210 + i..]
  }

  lemma PartStamped(page: seq<bool>, c: Register, i: nat)
    requires |page| == PAGE_BITS && i <= 24
    ensures Stamping(page, c, 0) == page && Stamping(page, c, 24) == page[..210] + c + page[234..]
    ensures i < 24 ==> Stamping(page, c, i)[210 + i := c[i]] == Stamping(page, c, i + 1)
  {
    assert c[..24] == c;
  }

  /** `StampGalileoINAVCRC`. */
  method StampGalileoINAVCRC(words: array<bv32>)
    modifies words
    ensures words.Length < 8 ==> words[..] == old(words[..])
    ensures words.Length >= 8 ==> words[8..] == old(words[8..])
    ensures words.Length >= 8 ==> BitsOf(BytesOf(words[..], 8)) == Stamped(old(BitsOf(BytesOf(words[..], 8))))
  {
    if words.Length < 8 { return; }
    hide BytesOf, BitsOf, Stamped;
    var page := Unpack(words[..], 8);
    StampPage(page);
    Pack(page[..], words, 8);
  }

  /** `bits` written over a blank part of a buffer. */
  function Splice(was: seq<bool>, off: nat, bits: seq<bool>): (r: seq<bool>)
    requires off + |bits| <= |was|
    ensures |r| == |was|
  {
    was[..off] + bits + was[off + |bits|..]
  }

  /** No bit from `off` on is set. */
  predicate BlankFrom(b: seq<bool>, off: nat) { forall p :: off <= p < |b| ==> !b[p] }

  lemma SpliceBlank(was: seq<bool>, off: nat, bits: seq<bool>)
    requires off + |bits| <= |was| && BlankFrom(was, off)
    ensures BlankFrom(Splice(was, off, bits), off + |bits|)
  {
  }

  lemma SpliceWord(z: seq<bool>, a: seq<bool>, b: seq<bool>, c: seq<bool>)
    requires |z| == 128 && |a| == 56 && |b| == 56 && |c| == 16
    ensures Splice(Splice(Splice(z, 0, a), 56, b), 112, c) == a + b + c
  {
    assert Splice(z, 0, a)[..56] == a;
    assert Splice(Splice(z, 0, a), 56, b)[..112] == a + b;
  }

  /** Bits `off..off + n` of a buffer become a field of the page, where nothing was set before. */
  method PutBits(dst: array<bv8>, off: nat, page: seq<bv8>, start: nat, n: nat)
    requires off + n <= 8 * dst.Length && n <= 64 && start + n <= 8 * |page| && BlankFrom(BitsOf(dst[..]), off)
    modifies dst
    ensures BitsOf(dst[..]) == Splice(old(BitsOf(dst[..])), off, BitsOf(page)[start..start + n])
    ensures BlankFrom(BitsOf(dst[..]), off + n)
  {
    hide BitIn, BitReader.Digit, BitReader.Value, BitsOf;
    var field := BitReader.Bits(page, 8 * |page|, start, n);
    ghost var bits := BitsOf(page)[start..start + n];
    forall i | 0 <= i < n
      ensures BitReader.Digit(field.value, n - 1 - i) == bits[i]
    {
      BitReader.DigitOf(bits, i);
    }
    ghost var was := BitsOf(dst[..]);
    SpliceBlank(was, off, bits);
    BitReader.PutField(dst, off, field.value, n);
    assert BitsOf(dst[..]) == was[..off] + bits + was[off + n..];
  }

  lemma BlankBuffer(b: seq<bv8>)
    requires forall i :: 0 <= i < |b| ==> b[i] == 0
    ensures BlankFrom(BitsOf(b), 0)
  {
    Blank(b);
  }

  /** The contiguous nav word: even data, then odd data. */
  method RebuildWord(page: seq<bv8>) returns (content: seq<bv8>)
    requires |page| == 32
    ensures |content| == 16 && BitsOf(content) == Content(BitsOf(page))
  {
    hide BitsOf, BlankFrom, Splice;
    var buf := new bv8[16](_ => 0);
    BlankBuffer(buf[..]);
    ghost var b, z := BitsOf(page), BitsOf(buf[..]);
    PutBits(buf, 0, page, 2, 56);
    PutBits(buf, 56, page, 58, 56);
    PutBits(buf, 112, page, 130, 16);
    SpliceWord(z, b[2..58], b[58..114], b[130..146]);
    content := buf[..];
  }

  /** The gate as `DecodeGalileoINAV` computes it. */
  method CheckPage(page: seq<bv8>) returns (v: Verdict)
    requires |page| == 32
    ensures v == Gate(BitsOf(page)) && Judged(BitsOf(page), v)
  {
    GateJudges(BitsOf(page));
    hide BitIn, Passes;
    if BitAt(page, 0) || !BitAt(page, 128) || BitAt(page, 1) || BitAt(page, 129) { return AlertPage; }
    var msg := CRCMessage(page, true);
    var ok := CheckCRC24QBits(msg, 0, 220);
    assert BitsOf(msg)[0..220] == BitsOf(msg)[..220];
    if !ok { return BadCRC; }
    var content := RebuildWord(page);
    return NavWord(BitsOf(content));
  }

  /** `DecodeGalileoINAV` up to the field decoding. */
  method DecodePage(words: seq<bv32>) returns (v: Verdict)
    ensures v == if |words| < 8 then ShortFrame else Gate(BitsOf(BytesOf(words, 8)))
    ensures |words| >= 8 ==> Judged(BitsOf(BytesOf(words, 8)), v)
  {
    if |words| < 8 { return ShortFrame; }
    hide BytesOf, Gate, Judged;
    var page := Unpack(words, 8);
    v := CheckPage(page[..]);
  }
}
