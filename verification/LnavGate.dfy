/** What the LNAV gate detects (`lnavParityOK`, gnss/frame/parity.go). It accepts either delivery convention, so a
    corrupted delivery that fails the normalised chain may still satisfy the raw one; this says exactly when. */
module LnavGate {
  import opened ParityChecks
  import opened LnavParity
  import opened LnavChain

  // ----- both conventions as conditions on the six checks

  function Ones(n: nat): (r: seq<bool>)
    ensures |r| == n && forall i :: 0 <= i < n ==> r[i]
  {
    seq(n, _ => true)
  }

  /** Complementing the bits changes a check exactly when it selects an odd number of them. */
  lemma {:induction false} XorInvert(d: seq<bool>, sel: set<nat>)
    ensures XorOver(Invert(d), sel) == (XorOver(d, sel) != XorOver(Ones(|d|), sel))
  {
    if d != [] {
      var n := |d| - 1;
      XorInvert(d[..n], sel);
      assert Invert(d)[..n] == Invert(d[..n]) && Ones(|d|)[..n] == Ones(n);
    }
  }

  /** The parity of the number of bits up to `n` that check `k` selects. */
  predicate OddUpTo(k: nat, n: nat) { n > 0 && OddUpTo(k, n - 1) != Selects(k, n) }

  lemma {:induction false} OnesCounted(k: nat, n: nat)
    requires n <= 24
    ensures XorOver(Ones(n), Mask(k)) == OddUpTo(k, n)
  {
    hide Selects;
    if n > 0 {
      OnesCounted(k, n - 1);
      assert Ones(n)[..n - 1] == Ones(n - 1);
      assert n in Mask(k) <==> Selects(k, n);
    }
  }

  lemma OddFour(k: nat, n: nat)
    ensures OddUpTo(k, n + 4) ==
      (OddUpTo(k, n) != (Selects(k, n + 1) != (Selects(k, n + 2) != (Selects(k, n + 3) != Selects(k, n + 4)))))
  {
    hide Selects;
    assert OddUpTo(k, n + 1) == (OddUpTo(k, n) != Selects(k, n + 1));
    assert OddUpTo(k, n + 2) == (OddUpTo(k, n + 1) != Selects(k, n + 2));
    assert OddUpTo(k, n + 3) == (OddUpTo(k, n + 2) != Selects(k, n + 3));
  }

  lemma NoneUpTo(k: nat)
    ensures !OddUpTo(k, 0)
  {
  }

  /** D29 and D30 cover an odd number of data bits, the other four an even number. */
  lemma MaskParity(k: nat)
    requires k < 6
    ensures OddUpTo(k, 24) == (k >= 4)
  {
    MaskWords();
    hide MaskWord, OddUpTo;
    NoneUpTo(k);
    OddFour(k, 0);
    assert OddUpTo(k, 4) == (k == 0 || k == 1 || k == 2 || k == 5);
    OddFour(k, 4);
    assert OddUpTo(k, 8) == (k == 0 || k == 1 || k == 3 || k == 4);
    OddFour(k, 8);
    assert OddUpTo(k, 12) == (k == 1 || k == 2 || k == 4 || k == 5);
    OddFour(k, 12);
    assert OddUpTo(k, 16) == (k == 2 || k == 5);
    OddFour(k, 16);
    assert OddUpTo(k, 20) == (k == 0 || k == 2);
    OddFour(k, 20);
  }

  // ----- one word

  /** The raw check of a word after D29*, D30*, as a condition on its six checks. */
  predicate RawWord(w: Word, d29: bool, d30: bool) {
    forall k :: 0 <= k < 6 ==> Check(w, k) == (Prev(k, d29, d30) != (d30 && k >= 4))
  }

  predicate NormalWord(w: Word, d29: bool, d30: bool) {
    forall k :: 0 <= k < 6 ==> Check(w, k) == (Prev(k, d29, d30) != d30)
  }

  lemma RawIsChecks(w: Word, d29: bool, d30: bool)
    ensures GPSParity(w, d29, d30).1 <==> RawWord(w, d29, d30)
  {
    var d := InvertIf(d30, w[..24]);
    var r := ParityBits(d, d29, d30);
    forall k | 0 <= k < 6
      ensures r[k] == w[24..][k] <==> Check(w, k) == (Prev(k, d29, d30) != (d30 && k >= 4))
    {
      XorInvert(w[..24], Mask(k));
      OnesCounted(k, 24);
      MaskParity(k);
      hide XorOver, Mask, OddUpTo, Prev;
    }
    hide Check, ParityBits, Prev, InvertIf;
  }

  lemma NormalIsChecks(w: Word, d29: bool, d30: bool)
    ensures w[24..] == Expected(w[..24], d29, d30) <==> NormalWord(w, d29, d30)
  {
    hide XorOver, Mask, Prev;
    var r := Expected(w[..24], d29, d30);
    forall k | 0 <= k < 6
      ensures r[k] == w[24..][k] <==> Check(w, k) == (Prev(k, d29, d30) != d30)
    {
    }
    hide Check, Expected;
  }

  // ----- one altered word

  /** The checks of `w` are those of `v` with D25 to D28 failing: what separates the conventions after D30* = 1. */
  predicate LowFour(v: Word, w: Word) {
    forall k :: 0 <= k < 6 ==> Check(w, k) == (Check(v, k) != (k < 4))
  }

  /** Two bits of a word whose columns differ exactly in the four low checks. */
  predicate Pair(p: nat, q: nat) {
    0 < p <= 30 && 0 < q <= 30 && p != q && Column(p) ^ Column(q) == 0x0F
  }

  lemma ColumnBits(p: nat, q: nat)
    ensures Column(p) ^ Column(q) == 0x0F <==> forall k :: 0 <= k < 6 ==> (Enters(k, p) != Enters(k, q)) == (k < 4)
  {
    hide Enters;
    assert Column(p) ^ Column(q) == 0x0F <==>
      && Enters(0, p) != Enters(0, q) && Enters(1, p) != Enters(1, q) && Enters(2, p) != Enters(2, q)
      && Enters(3, p) != Enters(3, q) && Enters(4, p) == Enters(4, q) && Enters(5, p) == Enters(5, q);
    hide Column;
  }

  lemma OneEscape(v: Word, p: nat)
    requires 0 < p <= 30
    ensures !LowFour(v, Flip(v, p))
  {
    ColumnOdd(p);
    hide Enters, Check;
    forall k | 0 <= k < 6
      ensures Check(Flip(v, p), k) == (Check(v, k) != Enters(k, p))
    {
      FlipCheck(v, p, k);
    }
  }

  lemma TwoEscape(v: Word, p: nat, q: nat)
    requires 0 < p <= 30 && 0 < q <= 30
    ensures LowFour(v, Flip(Flip(v, p), q)) <==> Column(p) ^ Column(q) == 0x0F
  {
    ColumnBits(p, q);
    hide Enters, Check, Column;
    forall k | 0 <= k < 6
      ensures Check(Flip(Flip(v, p), q), k) == (Check(v, k) != (Enters(k, p) != Enters(k, q)))
    {
      FlipCheck(v, p, k);
      FlipCheck(Flip(v, p), q, k);
    }
  }

  lemma ThreeEscape(v: Word, p: nat, q: nat, r: nat)
    requires 0 < p <= 30 && 0 < q <= 30 && 0 < r <= 30
    ensures !LowFour(v, Flip(Flip(Flip(v, p), q), r))
  {
    ColumnOdd(p);
    ColumnOdd(q);
    ColumnOdd(r);
    hide Enters, Check;
    forall k | 0 <= k < 6
      ensures Check(Flip(Flip(Flip(v, p), q), r), k)
           == (Check(v, k) != (Enters(k, p) != (Enters(k, q) != Enters(k, r))))
    {
      FlipCheck(v, p, k);
      FlipCheck(Flip(v, p), q, k);
      FlipCheck(Flip(Flip(v, p), q), r, k);
    }
  }

  /** Exactly two bits are altered, and they form such a pair. */
  ghost predicate PairAltered(v: Word, w: Word) {
    exists p: nat, q: nat :: Pair(p, q) && Differences(v, w) == {p, q}
  }

  lemma TwoAltered(v: Word, w: Word, p: nat, q: nat)
    requires Differences(v, w) == {p, q} && p != q
    ensures 0 < p <= 30 && 0 < q <= 30 && w == Flip(Flip(v, p), q)
  {
    var d := Differences(v, w);
    assert p in d && q in d;
    hide Differences;
    FlipDifferences(v, w, p);
    FlipDifferences(Flip(v, p), w, q);
    assert d - {p} - {q} == {};
    NoDifferences(Flip(Flip(v, p), q), w);
  }

  lemma OneAltered(v: Word, w: Word) returns (p: nat)
    requires |Differences(v, w)| == 1
    ensures 0 < p <= 30 && w == Flip(v, p)
  {
    var d := Differences(v, w);
    p :| p in d;
    FlipDifferences(v, w, p);
    assert |d - {p}| == 0;
    NoDifferences(Flip(v, p), w);
  }

  lemma PairOf(v: Word, w: Word) returns (p: nat, q: nat)
    requires |Differences(v, w)| == 2
    ensures p != q && Differences(v, w) == {p, q}
  {
    var d := Differences(v, w);
    hide Differences;
    p :| p in d;
    assert |d - {p}| == 1;
    q :| q in d - {p};
    assert |d - {p} - {q}| == 0;
  }

  lemma ThreeAltered(v: Word, w: Word) returns (p: nat, q: nat, r: nat)
    requires |Differences(v, w)| == 3
    ensures 0 < p <= 30 && 0 < q <= 30 && 0 < r <= 30 && w == Flip(Flip(Flip(v, p), q), r)
  {
    var d := Differences(v, w);
    p :| p in d;
    FlipDifferences(v, w, p);
    var u: Word := Flip(v, p);
    assert |d - {p}| == 2;
    hide Differences;
    q, r := PairOf(u, w);
    TwoAltered(u, w, q, r);
  }

  /** Two altered bits are a pair exactly when their columns say so. */
  lemma PairIff(v: Word, w: Word, p: nat, q: nat)
    requires Differences(v, w) == {p, q} && p != q && 0 < p <= 30 && 0 < q <= 30
    ensures PairAltered(v, w) <==> Column(p) ^ Column(q) == 0x0F
  {
    hide Differences, Column;
    if PairAltered(v, w) {
      var a: nat, b: nat :| Pair(a, b) && Differences(v, w) == {a, b};
      assert a in {p, q} && b in {p, q};
      assert (a == p && b == q) || (a == q && b == p);
      XorSwap(Column(p), Column(q));
    }
    if Column(p) ^ Column(q) == 0x0F { assert Pair(p, q); }
  }

  lemma XorSwap(a: bv6, b: bv6)
    ensures a ^ b == b ^ a
  {
  }

  lemma PairCount(v: Word, w: Word)
    requires PairAltered(v, w)
    ensures |Differences(v, w)| == 2
  {
    hide Differences, Column;
    var a: nat, b: nat :| Pair(a, b) && Differences(v, w) == {a, b};
    assert |{a, b}| == 2;
  }

  /** With one to three altered bits, the four low checks fail exactly when a pair was altered. */
  lemma EscapeWord(v: Word, w: Word)
    requires 1 <= |Differences(v, w)| <= 3
    ensures LowFour(v, w) <==> PairAltered(v, w)
  {
    hide LowFour, Column, Differences, Flip, PairAltered;
    if PairAltered(v, w) { PairCount(v, w); }
    if |Differences(v, w)| == 1 {
      var p := OneAltered(v, w);
      OneEscape(v, p);
    } else if |Differences(v, w)| == 2 {
      var p, q := PairOf(v, w);
      TwoAltered(v, w, p, q);
      TwoEscape(v, p, q);
      PairIff(v, w, p, q);
    } else {
      var p, q, r := ThreeAltered(v, w);
      ThreeEscape(v, p, q, r);
    }
  }

  // ----- the raw chain on a corrupted delivery

  /** What it takes for a corruption that starts in word `at` to satisfy the raw chain: that word directly follows
      the first one sent with D30 = 1, a pair of its bits is altered, and the rest continues the raw chain. */
  ghost predicate Escapes(words: seq<Word>, bad: seq<Word>, at: nat)
    requires at < |words| == |bad|
  {
    && at > 0 && words[at - 1][29] && (forall i :: 0 <= i < at - 1 ==> !words[i][29])
    && PairAltered(words[at], bad[at])
    && RawOK(bad[at + 1..], bad[at][28], bad[at][29])
  }

  /** After D30* = 0 the two conventions make the same demand. */
  lemma SameDemand(w: Word, d29: bool)
    ensures RawWord(w, d29, false) <==> NormalWord(w, d29, false)
  {
    hide Check, Prev;
  }

  /** After D30* = 1 they demand opposite outcomes of the four low checks. */
  lemma OtherDemand(v: Word, w: Word, d29: bool)
    requires NormalWord(v, d29, true)
    ensures RawWord(w, d29, true) <==> LowFour(v, w)
  {
    hide Check, Prev;
  }

  lemma NormalsAgree(v: Word, w: Word, d29: bool, d30: bool)
    requires NormalWord(v, d29, d30) && NormalWord(w, d29, d30)
    ensures SameChecks(v, w)
  {
    hide Check, Prev;
  }

  lemma LowAt(v: Word, w: Word, k: nat)
    requires LowFour(v, w) && k < 6
    ensures Check(w, k) == (Check(v, k) != (k < 4))
  {
    hide Check;
  }

  lemma SameIsNotLow(v: Word)
    ensures !LowFour(v, v)
  {
    hide Check, LowFour;
    if LowFour(v, v) { LowAt(v, v, 0); }
  }

  lemma {:induction false} RawChain(words: seq<Word>, bad: seq<Word>, at: nat, d29: bool)
    requires at < |words| == |bad| && NormalizedOK(words, d29, false)
    requires bad[..at] == words[..at] && 1 <= |Differences(words[at], bad[at])| <= 3
    ensures RawOK(bad, d29, false) <==> Escapes(words, bad, at)
    decreases at
  {
    hide GPSParity, Expected, RawWord, NormalWord, Check, SameChecks, LowFour, PairAltered, Differences;
    NormalIsChecks(words[0], d29, false);
    RawIsChecks(bad[0], d29, false);
    SameDemand(bad[0], d29);
    if at == 0 {
      FirstWord(words[0], bad[0], d29);
    } else {
      assert words[0] == words[..at][0] == bad[0];
      if !words[0][29] {
        assert bad[1..][..at - 1] == bad[..at][1..] == words[1..][..at - 1];
        assert words[0][24..][4] == words[0][28] && words[0][24..][5] == words[0][29];
        RawChain(words[1..], bad[1..], at - 1, words[0][28]);
        EscapesTail(words, bad, at);
      } else {
        RawAfterOne(words, bad, at, d29);
      }
    }
  }

  /** With D30* = 0 one to three altered bits fail the raw check too. */
  lemma FirstWord(v: Word, w: Word, d29: bool)
    requires NormalWord(v, d29, false) && 1 <= |Differences(v, w)| <= 3
    ensures !NormalWord(w, d29, false)
  {
    assert Differences(v, v) == {};
    hide Check, SameChecks, NormalWord, Differences;
    if NormalWord(w, d29, false) {
      NormalsAgree(v, w, d29, false);
      Distance(v, w);
    }
  }

  lemma EscapesTail(words: seq<Word>, bad: seq<Word>, at: nat)
    requires 0 < at < |words| == |bad| && !words[0][29]
    ensures Escapes(words, bad, at) <==> Escapes(words[1..], bad[1..], at - 1)
  {
    hide PairAltered, RawOK;
    assert bad[1..][at..] == bad[at + 1..];
    assert forall i :: 0 <= i < at - 1 ==> words[1..][i] == words[i + 1];
    if Escapes(words[1..], bad[1..], at - 1) {
      forall i | 0 <= i < at - 1
        ensures !words[i][29]
      {
        assert i > 0 ==> words[i] == words[1..][i - 1];
      }
    }
  }

  /** The words after the first one sent with D30 = 1. */
  lemma RawAfterOne(words: seq<Word>, bad: seq<Word>, at: nat, d29: bool)
    requires 0 < at < |words| == |bad| && NormalizedOK(words, d29, false) && words[0] == bad[0] && words[0][29]
    requires GPSParity(bad[0], d29, false).1
    requires bad[..at] == words[..at] && 1 <= |Differences(words[at], bad[at])| <= 3
    ensures RawOK(bad, d29, false) <==> Escapes(words, bad, at)
  {
    hide GPSParity, Expected, RawWord, NormalWord, Check, LowFour, PairAltered, Differences;
    var e29 := words[0][28];
    assert words[0][24..][4] == e29 && words[0][24..][5] == words[0][29];
    assert NormalizedOK(words[1..], e29, true) && words[1..][0] == words[1];
    NormalIsChecks(words[1], e29, true);
    RawIsChecks(bad[1], e29, true);
    OtherDemand(words[1], bad[1], e29);
    assert bad[1..][0] == bad[1] && bad[1..][1..] == bad[2..];
    if at == 1 {
      EscapeWord(words[1], bad[1]);
    } else {
      assert bad[1] == bad[..at][1] == words[1];
      SameIsNotLow(words[1]);
    }
  }

  /** Corruption at the gate: a delivered sequence that the receiver got right, corrupted first in word `at` by one
      to three bits, passes the gate if and only if it escapes to the raw convention. */
  lemma GateDetects(words: seq<Word>, bad: seq<Word>, at: nat)
    requires at < |words| == |bad| && NormalizedOK(words, false, false)
    requires bad[..at] == words[..at] && 1 <= |Differences(words[at], bad[at])| <= 3
    ensures ParityOK(bad) <==> Escapes(words, bad, at)
  {
    hide NormalizedOK, RawOK, Escapes, Differences;
    CorruptionDetected(words, bad, at, false, false);
    RawChain(words, bad, at, false);
  }

  // ----- the same for raw delivery

  lemma RawsAgree(v: Word, w: Word, d29: bool, d30: bool)
    requires RawWord(v, d29, d30) && RawWord(w, d29, d30)
    ensures SameChecks(v, w)
  {
    hide Check, Prev;
  }

  lemma RawAltered(v: Word, w: Word, d29: bool, d30: bool)
    requires RawWord(v, d29, d30) && 1 <= |Differences(v, w)| <= 3
    ensures !RawWord(w, d29, d30)
  {
    assert Differences(v, v) == {};
    hide Check, SameChecks, RawWord, Differences;
    if RawWord(w, d29, d30) {
      RawsAgree(v, w, d29, d30);
      Distance(v, w);
    }
  }

  /** The raw chain rejects one to three altered bits in the first altered word, whatever follows. */
  lemma {:induction false} RawCorruptionDetected(words: seq<Word>, bad: seq<Word>, at: nat, d29: bool, d30: bool)
    requires at < |words| == |bad| && RawOK(words, d29, d30)
    requires bad[..at] == words[..at] && 1 <= |Differences(words[at], bad[at])| <= 3
    ensures !RawOK(bad, d29, d30)
    decreases at
  {
    hide GPSParity, RawWord, Differences;
    RawIsChecks(words[0], d29, d30);
    RawIsChecks(bad[0], d29, d30);
    if at == 0 {
      RawAltered(words[0], bad[0], d29, d30);
    } else {
      assert words[0] == words[..at][0] == bad[0];
      assert bad[1..][..at - 1] == bad[..at][1..] == words[1..][..at - 1];
      RawCorruptionDetected(words[1..], bad[1..], at - 1, words[0][28], words[0][29]);
    }
  }

  /** What it takes for a corruption of raw words that starts in word `at` to satisfy the normalised chain. */
  ghost predicate EscapesRaw(words: seq<Word>, bad: seq<Word>, at: nat)
    requires at < |words| == |bad|
  {
    && at > 0 && words[at - 1][29] && (forall i :: 0 <= i < at - 1 ==> !words[i][29])
    && PairAltered(words[at], bad[at])
    && NormalizedOK(bad[at + 1..], !bad[at][28], !bad[at][29])
  }

  lemma OtherDemandRaw(v: Word, w: Word, d29: bool)
    requires RawWord(v, d29, true)
    ensures NormalWord(w, d29, true) <==> LowFour(v, w)
  {
    hide Check, Prev;
  }

  lemma {:induction false} NormalChain(words: seq<Word>, bad: seq<Word>, at: nat, d29: bool)
    requires at < |words| == |bad| && RawOK(words, d29, false)
    requires bad[..at] == words[..at] && 1 <= |Differences(words[at], bad[at])| <= 3
    ensures NormalizedOK(bad, d29, false) <==> EscapesRaw(words, bad, at)
    decreases at
  {
    hide GPSParity, Expected, RawWord, NormalWord, Check, SameChecks, LowFour, PairAltered, Differences;
    RawIsChecks(words[0], d29, false);
    NormalIsChecks(bad[0], d29, false);
    SameDemand(words[0], d29);
    if at == 0 {
      FirstWord(words[0], bad[0], d29);
    } else {
      assert words[0] == words[..at][0] == bad[0];
      assert words[0][24..][4] == words[0][28] && words[0][24..][5] == words[0][29];
      if !words[0][29] {
        assert bad[1..][..at - 1] == bad[..at][1..] == words[1..][..at - 1];
        NormalChain(words[1..], bad[1..], at - 1, words[0][28]);
        EscapesRawTail(words, bad, at);
      } else {
        NormalAfterOne(words, bad, at, d29);
      }
    }
  }

  lemma EscapesRawTail(words: seq<Word>, bad: seq<Word>, at: nat)
    requires 0 < at < |words| == |bad| && !words[0][29]
    ensures EscapesRaw(words, bad, at) <==> EscapesRaw(words[1..], bad[1..], at - 1)
  {
    hide PairAltered, NormalizedOK;
    assert bad[1..][at..] == bad[at + 1..];
    assert forall i :: 0 <= i < at - 1 ==> words[1..][i] == words[i + 1];
    if EscapesRaw(words[1..], bad[1..], at - 1) {
      forall i | 0 <= i < at - 1
        ensures !words[i][29]
      {
        assert i > 0 ==> words[i] == words[1..][i - 1];
      }
    }
  }

  lemma NormalAfterOne(words: seq<Word>, bad: seq<Word>, at: nat, d29: bool)
    requires 0 < at < |words| == |bad| && RawOK(words, d29, false) && words[0] == bad[0] && words[0][29]
    requires bad[0][24..] == Expected(bad[0][..24], d29, false)
    requires bad[..at] == words[..at] && 1 <= |Differences(words[at], bad[at])| <= 3
    ensures NormalizedOK(bad, d29, false) <==> EscapesRaw(words, bad, at)
  {
    hide GPSParity, Expected, RawWord, NormalWord, Check, LowFour, PairAltered, Differences;
    var e29 := words[0][28];
    assert words[0][24..][4] == e29 && words[0][24..][5] == words[0][29];
    assert RawOK(words[1..], e29, true) && words[1..][0] == words[1];
    RawIsChecks(words[1], e29, true);
    NormalIsChecks(bad[1], e29, true);
    OtherDemandRaw(words[1], bad[1], e29);
    assert bad[1..][0] == bad[1] && bad[1..][1..] == bad[2..];
    assert bad[1][24..][4] == bad[1][28] && bad[1][24..][5] == bad[1][29];
    if at == 1 {
      EscapeWord(words[1], bad[1]);
    } else {
      assert bad[1] == bad[..at][1] == words[1];
      SameIsNotLow(words[1]);
    }
  }

  /** Corruption of raw words at the gate. */
  lemma GateDetectsRaw(words: seq<Word>, bad: seq<Word>, at: nat)
    requires at < |words| == |bad| && RawOK(words, false, false)
    requires bad[..at] == words[..at] && 1 <= |Differences(words[at], bad[at])| <= 3
    ensures ParityOK(bad) <==> EscapesRaw(words, bad, at)
  {
    hide NormalizedOK, RawOK, EscapesRaw, Differences;
    RawCorruptionDetected(words, bad, at, false, false);
    NormalChain(words, bad, at, false);
  }

  // ----- a subframe on which two flipped bits pass

  function Blank(): Word { seq(30, _ => false) }

  /** Data bit 11 and the parity it needs; D30 is set. */
  function Ninth(): Word { Flip(Flip(Flip(Flip(Blank(), 11), 25), 26), 30) }

  /** No data after D30* = 1: the parity, inverted. */
  function Tenth(): Word { Flip(Flip(Flip(Blank(), 25), 27), 30) }

  function WordOf(i: nat, last: Word): Word { if i < 8 then Blank() else if i == 8 then Ninth() else last }

  function Subframe(last: Word): (r: seq<Word>)
    ensures |r| == 10 && forall i :: 0 <= i < 10 ==> r[i] == WordOf(i, last)
  {
    seq(10, i requires 0 <= i < 10 => WordOf(i, last))
  }

  lemma LastBits()
    ensures Ninth()[29] && !Blank()[29]
  {
  }

  lemma {:induction false} BlankChecks(d: seq<bool>, sel: set<nat>)
    requires forall i :: 0 <= i < |d| ==> !d[i]
    ensures !XorOver(d, sel)
  {
    if d != [] { BlankChecks(d[..|d| - 1], sel); }
  }

  lemma BlankCheck(k: nat)
    requires k < 6
    ensures !Check(Blank(), k)
  {
    BlankChecks(Blank()[..24], Mask(k));
  }

  lemma BlankNormal()
    ensures NormalWord(Blank(), false, false)
  {
    forall k | 0 <= k < 6
      ensures !Check(Blank(), k)
    {
      BlankCheck(k);
    }
    hide Check;
  }

  lemma NinthNormal()
    ensures NormalWord(Ninth(), false, false)
  {
    forall k | 0 <= k < 6
      ensures Check(Ninth(), k) == (Enters(k, 11) != (Enters(k, 25) != (Enters(k, 26) != Enters(k, 30))))
    {
      hide Check, Enters, Blank;
      BlankCheck(k);
      FlipCheck(Blank(), 11, k);
      FlipCheck(Flip(Blank(), 11), 25, k);
      FlipCheck(Flip(Flip(Blank(), 11), 25), 26, k);
      FlipCheck(Flip(Flip(Flip(Blank(), 11), 25), 26), 30, k);
    }
    MaskWords();
    hide Check, MaskWord, Ninth;
  }

  lemma TenthNormal()
    ensures NormalWord(Tenth(), false, true)
  {
    forall k | 0 <= k < 6
      ensures Check(Tenth(), k) == (Enters(k, 25) != (Enters(k, 27) != Enters(k, 30)))
    {
      hide Check, Enters, Blank;
      BlankCheck(k);
      FlipCheck(Blank(), 25, k);
      FlipCheck(Flip(Blank(), 25), 27, k);
      FlipCheck(Flip(Flip(Blank(), 25), 27), 30, k);
    }
    hide Check, Tenth;
  }

  lemma {:induction false} SubframeFrom(i: nat)
    requires i <= 8
    ensures NormalizedOK(Subframe(Tenth())[i..], false, false)
    decreases 8 - i
  {
    var s := Subframe(Tenth());
    hide Expected, NormalWord;
    if i < 8 {
      SubframeFrom(i + 1);
      BlankNormal();
      NormalIsChecks(Blank(), false, false);
      assert s[i..][0] == Blank() && s[i..][1..] == s[i + 1..];
      assert Blank()[24..][4] == false && Blank()[24..][5] == false;
    } else {
      NinthNormal();
      TenthNormal();
      NormalIsChecks(Ninth(), false, false);
      NormalIsChecks(Tenth(), false, true);
      assert s[8..] == [Ninth(), Tenth()] && s[8..][1..] == [Tenth()] && [Tenth()][1..] == [];
      assert Ninth()[24..][4] == false && Ninth()[24..][5] == true;
      assert NormalizedOK([Tenth()], false, true);
    }
  }

  lemma TenthPair()
    ensures PairAltered(Tenth(), Flip(Flip(Tenth(), 1), 21))
  {
    assert Differences(Tenth(), Flip(Flip(Tenth(), 1), 21)) == {1, 21};
    assert Column(1) ^ Column(21) == 0x0F by {
      MaskWords();
      hide MaskWord;
    }
    hide Column, Differences;
    assert Pair(1, 21);
  }

  /** A valid subframe of ten words that passes the gate with bits 1 and 21 of its last word flipped. */
  lemma GateMisses()
    ensures var good, bad := Subframe(Tenth()), Subframe(Flip(Flip(Tenth(), 1), 21));
            NormalizedOK(good, false, false) && bad[..9] == good[..9] && bad != good && ParityOK(bad)
  {
    hide NormalizedOK, PairAltered, Differences, Flip, Ninth, Tenth, Blank, RawOK, ParityOK;
    var v: Word := Tenth();
    var w: Word := Flip(Flip(v, 1), 21);
    var good, bad := Subframe(v), Subframe(w);
    assert good[0..] == good;
    SubframeFrom(0);
    TenthPair();
    PairCount(v, w);
    LastBits();
    GateDetects(good, bad, 9);
    NothingAfter(bad[10..], w[28], w[29]);
    NoneAltered(v, w);
  }

  lemma NothingAfter(rest: seq<Word>, d29: bool, d30: bool)
    requires rest == []
    ensures RawOK(rest, d29, d30)
  {
  }

  lemma NoneAltered(v: Word, w: Word)
    requires |Differences(v, w)| != 0
    ensures v != w
  {
    assert Differences(v, v) == {};
  }
}
