/** The Hamming check of a GLONASS navigation string (gnss/frame/glonass_string.go), by section 4.7 and
    Table 4.13 of GLO-ICD-5.1. Entry `n - 1` of a string is its bit b_n; bits 1..8 are the check bits. */
module GlonassHamming {
  import opened ParityChecks
  import opened BitBuffer
  import opened BitReader

  type NavString = s: seq<bool> | |s| == 85 witness seq(85, _ => false)

  /** `gloHammingSets`: the data bits that check bit j+1 covers. */
  predicate InSet(j: nat, n: nat) {
    match j
    case 0 => n in {9, 10, 12, 13, 15, 17, 19, 20, 22, 24, 26, 28, 30, 32, 34, 35, 37, 39, 41, 43, 45, 47, 49, 51, 53,
                    55, 57, 59, 61, 63, 65, 66, 68, 70, 72, 74, 76, 78, 80, 82, 84}
    case 1 => n in {9, 11, 12, 14, 15, 18, 19, 21, 22, 25, 26, 29, 30, 33, 34, 36, 37, 40, 41, 44, 45, 48, 49, 52, 53,
                    56, 57, 60, 61, 64, 65, 67, 68, 71, 72, 75, 76, 79, 80, 83, 84}
    case 2 => 10 <= n <= 12 || 16 <= n <= 19 || 23 <= n <= 26 || 31 <= n <= 34 || 38 <= n <= 41 || 46 <= n <= 49 ||
              54 <= n <= 57 || 62 <= n <= 65 || 69 <= n <= 72 || 77 <= n <= 80 || n == 85
    case 3 => 13 <= n <= 19 || 27 <= n <= 34 || 42 <= n <= 49 || 58 <= n <= 65 || 73 <= n <= 80
    case 4 => 20 <= n <= 34 || 50 <= n <= 65 || 81 <= n <= 85
    case 5 => 35 <= n <= 65
    case _ => 66 <= n <= 85
  }

  /** The Hamming position of bit b_n: the check bits sit at the powers of two, the data bits fill the rest. */
  function Position(n: nat): nat {
    if n == 8 then 0
    else if n < 8 then [1, 1, 2, 4, 8, 16, 32, 64][n]
    else if n == 9 then 3
    else if n <= 12 then n - 5
    else if n <= 19 then n - 4
    else if n <= 34 then n - 3
    else if n <= 65 then n - 2
    else n - 1
  }

  /** Bit b_n enters check j. */
  predicate Enters(j: nat, n: nat) { InSet(j, n) || n == j + 1 }

  lemma EntersFirst(n: nat)
    requires 0 < n <= 85
    ensures Enters(0, n) <==> Digit(Position(n), 0)
  {
  }

  lemma EntersSecond(n: nat)
    requires 0 < n <= 85
    ensures Enters(1, n) <==> Digit(Position(n), 1)
  {
  }

  lemma EntersMiddle(j: nat, n: nat)
    requires 2 <= j < 4 && 0 < n <= 85
    ensures Enters(j, n) <==> Digit(Position(n), j)
  {
  }

  lemma EntersFifth(n: nat)
    requires 0 < n <= 85
    ensures Enters(4, n) <==> Digit(Position(n), 4)
  {
  }

  lemma EntersRest(j: nat, n: nat)
    requires 5 <= j < 7 && 0 < n <= 85
    ensures Enters(j, n) <==> Digit(Position(n), j)
  {
  }

  /** The ICD's sets are the binary digits of the Hamming positions. */
  lemma EntersIff(j: nat, n: nat)
    requires j < 7 && 0 < n <= 85
    ensures Enters(j, n) <==> Digit(Position(n), j)
  {
    hide Enters, Digit, Position;
    if j == 0 { EntersFirst(n); }
    else if j == 1 { EntersSecond(n); }
    else if j < 4 { EntersMiddle(j, n); }
    else if j == 4 { EntersFifth(n); }
    else { EntersRest(j, n); }
  }

  lemma PositionUnique(n: nat, m: nat)
    requires 0 < n <= 85 && 0 < m <= 85 && n != m
    ensures Position(n) != Position(m) && Position(n) < Pow2(7)
  {
  }

  // ----- the checks

  function Set(j: nat): set<nat> { set n: nat | n <= 85 && InSet(j, n) }

  predicate Past(k: nat, n: nat) { k < n }

  /** Bits b_(k+1)..b_85. */
  function From(k: nat): set<nat> { set n: nat | n <= 85 && Past(k, n) }

  function All(): set<nat> { From(0) }

  /** Checksum C(j+1). */
  function Checksum(s: NavString, j: nat): bool
    requires j < 7
  {
    s[j] != XorOver(s, Set(j))
  }

  /** `glonassHammingValid`: C1..C7 and the overall parity are all zero. */
  predicate Valid(s: NavString) {
    (forall j :: 0 <= j < 7 ==> !Checksum(s, j)) && !XorOver(s, All())
  }

  lemma FlipChecksum(s: NavString, p: nat, j: nat)
    requires 0 < p <= 85 && j < 7
    ensures Checksum(Flip(s, p), j) == (Checksum(s, j) != Enters(j, p))
  {
    FlipChanges(s, Set(j), p);
    CheckNotData(j);
    hide InSet;
  }

  lemma CheckNotData(j: nat)
    requires j < 7
    ensures !InSet(j, j + 1)
  {
  }

  /** Two distinct valid strings differ in at least four bits; so one, two or three flipped bits are detected. */
  lemma Distance(s: NavString, t: NavString)
    requires Valid(s) && Valid(t) && s != t
    ensures |Differences(s, t)| >= 4
  {
    var d := Differences(s, t);
    hide Enters, Checksum, XorOver;
    if d == {} {
      NoDifferences(s, t);
      return;
    }
    var p :| p in d;
    FlipDifferences(s, t, p);
    FlipChanges(s, All(), p);
    if d - {p} == {} {
      NoDifferences(Flip(s, p), t);
      return;
    }
    var q :| q in d - {p};
    FlipDifferences(Flip(s, p), t, q);
    FlipChanges(Flip(s, p), All(), q);
    if d - {p} - {q} == {} {
      NoDifferences(Flip(Flip(s, p), q), t);
      TwoFlips(s, p, q);
      return;
    }
    var r :| r in d - {p} - {q};
    FlipDifferences(Flip(Flip(s, p), q), t, r);
    FlipChanges(Flip(Flip(s, p), q), All(), r);
    if d - {p} - {q} - {r} == {} {
      NoDifferences(Flip(Flip(Flip(s, p), q), r), t);
      return;
    }
    var u :| u in d - {p} - {q} - {r};
    SubsetSize({p, q, r, u}, d);
  }

  lemma TwoFlips(s: NavString, p: nat, q: nat)
    requires Valid(s) && 0 < p <= 85 && 0 < q <= 85 && p != q
    ensures !Valid(Flip(Flip(s, p), q))
  {
    hide Enters, Checksum, Position, Digit;
    PositionUnique(p, q);
    PositionUnique(q, p);
    var j := DigitsDiffer(Position(p), Position(q), 7);
    EntersIff(j, p);
    EntersIff(j, q);
    FlipChecksum(s, p, j);
    FlipChecksum(Flip(s, p), q, j);
  }

  // ----- stamping

  function Data(): set<nat> { From(8) }

  function Betas(s: NavString): (b: seq<bool>)
    ensures |b| == 7
  {
    seq(7, j requires 0 <= j < 7 => XorOver(s, Set(j)))
  }

  /** The string with its check bits recomputed. */
  function Stamped(s: NavString): NavString {
    var b := Betas(s);
    b + [XorOver(b, All()) != XorOver(s, Data())] + s[8..]
  }

  lemma DataOnly(s: NavString, t: NavString, j: nat)
    requires s[8..] == t[8..] && j < 7
    ensures XorOver(s, Set(j)) == XorOver(t, Set(j)) && XorOver(s, Data()) == XorOver(t, Data())
  {
    assert forall p :: 8 <= p < 85 ==> s[p] == s[8..][p - 8] && t[p] == t[8..][p - 8];
    SetIsData(j);
    hide InSet;
    XorSame(s, t, Set(j));
    XorSame(s, t, Data());
  }

  lemma SetIsData(j: nat)
    requires j < 7
    ensures Set(j) <= Data()
  {
  }

  lemma {:induction false} SplitAt(s: seq<bool>, k: nat)
    requires k <= |s| <= 85
    ensures XorOver(s, All()) == (XorOver(s[..k], All()) != XorOver(s, From(k)))
  {
    if k == |s| {
      assert s[..k] == s;
      XorNone(s, From(k));
    } else {
      var m := |s| - 1;
      SplitAt(s[..m], k);
      assert s[..m][..k] == s[..k];
    }
  }

  lemma {:induction false} XorNone(s: seq<bool>, sel: set<nat>)
    requires forall n :: n in sel ==> n > |s|
    ensures !XorOver(s, sel)
  {
    if s != [] {
      XorNone(s[..|s| - 1], sel);
    }
  }

  /** The overall parity of a string is that of its check bits and its data bits. */
  lemma TotalSplit(s: NavString)
    ensures XorOver(s, All()) == ((XorOver(s[..7], All()) != s[7]) != XorOver(s, Data()))
  {
    SplitAt(s, 8);
    assert s[..8][..7] == s[..7] && s[..8][7] == s[7];
  }

  /** A string is valid exactly when stamping leaves it alone. */
  lemma ValidIffStamped(s: NavString)
    ensures Valid(s) <==> s == Stamped(s)
  {
    var t, b := Stamped(s), Betas(s);
    TotalSplit(s);
    hide XorOver, Set, From;
    if Valid(s) {
      forall j | 0 <= j < 7
        ensures s[j] == b[j]
      {
        assert !Checksum(s, j);
      }
      assert s[..7] == b;
      assert s == s[..7] + [s[7]] + s[8..];
    }
    if s == t {
      assert s[..7] == t[..7] == b && s[7] == t[7];
      assert forall j :: 0 <= j < 7 ==> s[j] == s[..7][j] && !Checksum(s, j);
    }
  }

  /** Stamping makes any string valid and alters only the eight check bits. */
  lemma StampSound(s: NavString)
    ensures Valid(Stamped(s)) && Stamped(s)[8..] == s[8..]
  {
    var t := Stamped(s);
    assert t[8..] == s[8..];
    forall j | 0 <= j < 7
      ensures XorOver(t, Set(j)) == XorOver(s, Set(j)) && XorOver(t, Data()) == XorOver(s, Data())
    {
      DataOnly(s, t, j);
    }
    hide XorOver, Set, From;
    assert XorOver(t, Data()) == XorOver(s, Data()) by { DataOnly(s, t, 0); }
    assert Betas(t) == Betas(s);
    assert Stamped(t) == t;
    ValidIffStamped(t);
  }

  // ----- the code on the 128-bit block

  /** The string in a block: bit b_n is block bit 85 - n. */
  function StringOf(block: seq<bool>): NavString
    requires |block| == 128
  {
    seq(85, i requires 0 <= i < 85 => block[84 - i])
  }

  lemma PutString(block: seq<bool>, n: nat, v: bool)
    requires |block| == 128 && 0 < n <= 85
    ensures StringOf(block[85 - n := v]) == StringOf(block)[n - 1 := v]
  {
  }

  lemma XorNext(s: NavString, sel: set<nat>, n: nat)
    requires 0 < n <= 85
    ensures XorOver(s[..n], sel) == (XorOver(s[..n - 1], sel) != (n in sel && s[n - 1]))
  {
    assert s[..n][..n - 1] == s[..n - 1];
  }

  /** The xor of the bits in set `j`, read from the buffer. */
  method XorSet(buf: seq<bv8>, j: nat) returns (c: bool)
    requires |buf| == 16
    ensures c == XorOver(StringOf(BitsOf(buf)), Set(j))
  {
    hide InSet, BitIn;
    ghost var s := StringOf(BitsOf(buf));
    c := false;
    for n := 1 to 86
      invariant c == XorOver(s[..n - 1], Set(j))
    {
      XorNext(s, Set(j), n);
      if InSet(j, n) { c := c != BitAt(buf, 85 - n); }
    }
    assert s[..85] == s;
  }

  method XorFrom(buf: seq<bv8>, k: nat) returns (c: bool)
    requires |buf| == 16 && k <= 85
    ensures c == XorOver(StringOf(BitsOf(buf)), From(k))
  {
    hide BitIn, XorOver;
    ghost var s := StringOf(BitsOf(buf));
    c := false;
    XorNone(s[..k], From(k));
    for n := k + 1 to 86
      invariant c == XorOver(s[..n - 1], From(k))
    {
      XorNext(s, From(k), n);
      c := c != BitAt(buf, 85 - n);
    }
    assert s[..85] == s;
  }

  /** `glonassHammingValid`. */
  method HammingValid(buf: seq<bv8>) returns (ok: bool)
    requires |buf| == 16
    ensures ok == Valid(StringOf(BitsOf(buf)))
  {
    hide InSet, BitIn, XorOver, From;
    ghost var s := StringOf(BitsOf(buf));
    var acc := false;
    for j := 0 to 7
      invariant acc <==> exists k :: 0 <= k < j && Checksum(s, k)
    {
      var x := XorSet(buf, j);
      var cj := BitAt(buf, 84 - j) != x;
      assert cj == Checksum(s, j);
      acc := acc || cj;
    }
    var csum := XorFrom(buf, 0);
    return !acc && !csum;
  }

  /** One turn of the stamping loop: check bit `j + 1` becomes the xor of the data bits in set `j`. */
  method StampBeta(buf: array<bv8>, j: nat, ghost s: NavString) returns (p: bool)
    requires buf.Length == 16 && j < 7 && StringOf(BitsOf(buf[..])) == Betas(s)[..j] + s[j..]
    modifies buf
    ensures StringOf(BitsOf(buf[..])) == Betas(s)[..j + 1] + s[j + 1..] && p == Betas(s)[j]
    ensures BitsOf(buf[..])[85..] == old(BitsOf(buf[..]))[85..]
  {
    hide InSet, BitIn, XorOver, From, BitsOf;
    p := XorSet(buf[..], j);
    DataOnly(s, StringOf(BitsOf(buf[..])), j);
    PutString(BitsOf(buf[..]), j + 1, p);
    PutBit(buf, 84 - j, p);
  }

  /** The last check bit makes the parity of the whole string even. */
  method StampTotal(buf: array<bv8>, betaParity: bool, ghost s: NavString)
    requires buf.Length == 16 && StringOf(BitsOf(buf[..])) == Betas(s) + s[7..]
    requires betaParity == XorOver(Betas(s), All())
    modifies buf
    ensures StringOf(BitsOf(buf[..])) == Stamped(s)
    ensures BitsOf(buf[..])[85..] == old(BitsOf(buf[..]))[85..]
  {
    hide InSet, BitIn, XorOver, From, BitsOf;
    var dataParity := XorFrom(buf[..], 8);
    DataOnly(s, StringOf(BitsOf(buf[..])), 0);
    PutString(BitsOf(buf[..]), 8, betaParity != dataParity);
    PutBit(buf, 77, betaParity != dataParity);
  }

  /** `StampGLONASSHamming` on the block bytes. */
  method StampBlock(buf: array<bv8>)
    requires buf.Length == 16
    modifies buf
    ensures StringOf(BitsOf(buf[..])) == Stamped(StringOf(old(BitsOf(buf[..]))))
    ensures BitsOf(buf[..])[85..] == old(BitsOf(buf[..]))[85..]
  {
    hide InSet, BitIn, XorOver, From, BitsOf, Betas, Stamped;
    ghost var was := BitsOf(buf[..]);
    ghost var s := StringOf(was);
    var betaParity := false;
    assert !XorOver(Betas(s)[..0], All()) by { NoBits(Betas(s)); }
    for j := 0 to 7
      invariant StringOf(BitsOf(buf[..])) == Betas(s)[..j] + s[j..]
      invariant BitsOf(buf[..])[85..] == was[85..]
      invariant betaParity == XorOver(Betas(s)[..j], All())
    {
      var p := StampBeta(buf, j, s);
      BetaStep(Betas(s), j);
      betaParity := betaParity != p;
    }
    assert Betas(s)[..7] == Betas(s);
    StampTotal(buf, betaParity, s);
  }

  lemma NoBits(b: seq<bool>)
    ensures !XorOver(b[..0], All())
  {
  }

  lemma BetaStep(b: seq<bool>, j: nat)
    requires |b| == 7 && j < 7
    ensures XorOver(b[..j + 1], All()) == (XorOver(b[..j], All()) != b[j])
  {
    assert b[..j + 1][..j] == b[..j];
  }

  method StampGLONASSHamming(words: array<bv32>)
    modifies words
    ensures words.Length < 4 ==> words[..] == old(words[..])
    ensures words.Length >= 4 ==> words[4..] == old(words[4..])
    ensures words.Length >= 4 ==>
      var was, now := old(BitsOf(BytesOf(words[..], 4))), BitsOf(BytesOf(words[..], 4));
      StringOf(now) == Stamped(StringOf(was)) && now[85..] == was[85..]
  {
    if words.Length < 4 { return; }
    hide BytesOf, BitsOf, Stamped;
    var buf := Unpack(words[..], 4);
    StampBlock(buf);
    Pack(buf[..], words, 4);
  }
}
