/** The LNAV parity chains over whole subframes (gnss/frame/parity.go): raw-signal words, receiver-normalised
    words, and the stamping of synthetic ones. */
module LnavChain {
  import opened ParityChecks
  import opened LnavParity

  function Invert(bits: seq<bool>): (r: seq<bool>)
    ensures |r| == |bits| && forall i :: 0 <= i < |bits| ==> r[i] == !bits[i]
  {
    seq(|bits|, i requires 0 <= i < |bits| => !bits[i])
  }

  function InvertIf(c: bool, bits: seq<bool>): (r: seq<bool>)
    ensures |r| == |bits|
  {
    if c then Invert(bits) else bits
  }

  /** `GPSParity`: the un-complemented data bits of a transmitted word, and whether its parity holds. */
  function GPSParity(w: Word, d29: bool, d30: bool): (seq<bool>, bool) {
    var d := InvertIf(d30, w[..24]);
    (d, ParityBits(d, d29, d30) == w[24..])
  }

  /** `lnavRawParityOK`, from given D29*, D30*. */
  predicate RawOK(words: seq<Word>, d29: bool, d30: bool) {
    words == [] || (GPSParity(words[0], d29, d30).1 && RawOK(words[1..], words[0][28], words[0][29]))
  }

  /** The parity a normalised word must carry. */
  function Expected(d: seq<bool>, d29: bool, d30: bool): (r: seq<bool>)
    ensures |r| == 6
  {
    InvertIf(d30, ParityBits(d, d29, d30))
  }

  /** `lnavNormalizedParityOK`, from given D29*, D30*. */
  predicate NormalizedOK(words: seq<Word>, d29: bool, d30: bool) {
    words == [] ||
    (var w := words[0];
     var tx := InvertIf(d30, w[24..]);
     w[24..] == Expected(w[..24], d29, d30) && NormalizedOK(words[1..], tx[4], tx[5]))
  }

  /** `lnavParityOK`. */
  predicate ParityOK(words: seq<Word>) {
    NormalizedOK(words, false, false) || RawOK(words, false, false)
  }

  method CheckRaw(words: seq<Word>) returns (ok: bool)
    ensures ok == RawOK(words, false, false)
  {
    hide GPSParity;
    var d29, d30 := false, false;
    assert words[0..] == words;
    for i := 0 to |words|
      invariant RawOK(words, false, false) == RawOK(words[i..], d29, d30)
    {
      var w := words[i];
      assert words[i..][1..] == words[i + 1..];
      var (_, good) := GPSParity(w, d29, d30);
      if !good { return false; }
      d29, d30 := w[28], w[29];
    }
    return true;
  }

  method CheckNormalized(words: seq<Word>) returns (ok: bool)
    ensures ok == NormalizedOK(words, false, false)
  {
    hide ParityBits;
    var d29, d30 := false, false;
    assert words[0..] == words;
    for i := 0 to |words|
      invariant NormalizedOK(words, false, false) == NormalizedOK(words[i..], d29, d30)
    {
      var w := words[i];
      assert words[i..][1..] == words[i + 1..];
      var wanted := ParityBits(w[..24], d29, d30);
      if d30 { wanted := Invert(wanted); }
      if w[24..] != wanted { return false; }
      var tx := w[24..];
      if d30 { tx := Invert(tx); }
      d29, d30 := tx[4], tx[5];
    }
    return true;
  }

  // ----- the two conventions

  /** What the receiver delivers for transmitted words: each word inverted when the transmitted D30 before it was 1. */
  function Normalize(words: seq<Word>, d30: bool): (r: seq<Word>)
    ensures |r| == |words|
  {
    if words == [] then [] else [InvertIf(d30, words[0])] + Normalize(words[1..], words[0][29])
  }

  /** The transmitted words behind delivered ones. */
  function Denormalize(words: seq<Word>, d30: bool): (r: seq<Word>)
    ensures |r| == |words|
  {
    if words == [] then []
    else
      var tx: Word := InvertIf(d30, words[0]);
      [tx] + Denormalize(words[1..], tx[29])
  }

  lemma {:induction false} NormalizeOnto(words: seq<Word>, d30: bool)
    ensures Normalize(Denormalize(words, d30), d30) == words
  {
    if words != [] {
      var tx: Word := InvertIf(d30, words[0]);
      assert InvertIf(d30, tx) == words[0];
      NormalizeOnto(words[1..], tx[29]);
    }
  }

  function RawData(words: seq<Word>, d29: bool, d30: bool): seq<seq<bool>> {
    if words == [] then []
    else [GPSParity(words[0], d29, d30).0] + RawData(words[1..], words[0][28], words[0][29])
  }

  function Data(words: seq<Word>): (r: seq<seq<bool>>)
    ensures |r| == |words|
  {
    if words == [] then [] else [words[0][..24]] + Data(words[1..])
  }

  lemma InvertParts(c: bool, w: Word)
    ensures InvertIf(c, w)[..24] == InvertIf(c, w[..24]) && InvertIf(c, w)[24..] == InvertIf(c, w[24..])
    ensures InvertIf(c, InvertIf(c, w[24..])) == w[24..]
  {
  }

  /** Raw and normalised delivery are equivalent: for any words, the raw chain accepts what was transmitted if and
      only if the normalised chain accepts what the receiver delivers, and both read the same data. */
  lemma {:induction false} ConventionsAgree(tx: seq<Word>, d29: bool, d30: bool)
    ensures RawOK(tx, d29, d30) <==> NormalizedOK(Normalize(tx, d30), d29, d30)
    ensures RawData(tx, d29, d30) == Data(Normalize(tx, d30))
  {
    hide ParityBits;
    if tx != [] {
      var w: Word := tx[0];
      ConventionsAgree(tx[1..], w[28], w[29]);
      InvertParts(d30, w);
      var v: Word := InvertIf(d30, w);
      var n := Normalize(tx, d30);
      assert n[0] == v && n[1..] == Normalize(tx[1..], w[29]);
      assert InvertIf(d30, v[24..]) == w[24..];
      InvertInjective(d30, ParityBits(v[..24], d29, d30), w[24..]);
    }
  }

  lemma InvertInjective(c: bool, a: seq<bool>, b: seq<bool>)
    requires |a| == |b|
    ensures InvertIf(c, a) == InvertIf(c, b) <==> a == b
  {
    if c && Invert(a) == Invert(b) {
      assert forall i :: 0 <= i < |a| ==> Invert(a)[i] == Invert(b)[i];
    }
  }

  // ----- stamping

  /** `StampGPSLNAVParity`, from given D29*, D30*. */
  function Stamp(words: seq<Word>, d29: bool, d30: bool): (r: seq<Word>)
    ensures |r| == |words|
  {
    if words == [] then []
    else
      var data := words[0][..24];
      var tx := ParityBits(data, d29, d30);
      [data + InvertIf(d30, tx)] + Stamp(words[1..], tx[4], tx[5])
  }

  /** A sequence is accepted exactly when stamping leaves it alone. */
  lemma {:induction false} AcceptedIffStamped(words: seq<Word>, d29: bool, d30: bool)
    ensures NormalizedOK(words, d29, d30) <==> words == Stamp(words, d29, d30)
  {
    hide ParityBits;
    if words != [] {
      var w := words[0];
      var tx := ParityBits(w[..24], d29, d30);
      var s := Stamp(words, d29, d30);
      assert s[0][24..] == InvertIf(d30, tx) && s[0][..24] == w[..24] && s[1..] == Stamp(words[1..], tx[4], tx[5]);
      assert w == w[..24] + w[24..];
      assert InvertIf(d30, InvertIf(d30, tx)) == tx;
      AcceptedIffStamped(words[1..], tx[4], tx[5]);
      assert words == [w] + words[1..];
    }
  }

  /** The gate accepts exactly the stamped sequences and the transmitted forms of stamped sequences. */
  lemma GateAccepts(words: seq<Word>)
    ensures ParityOK(words) <==>
      words == Stamp(words, false, false) || Normalize(words, false) == Stamp(Normalize(words, false), false, false)
  {
    hide RawOK, NormalizedOK, Stamp, Normalize, RawData, Data;
    AcceptedIffStamped(words, false, false);
    ConventionsAgree(words, false, false);
    AcceptedIffStamped(Normalize(words, false), false, false);
  }

  /** Stamping always yields words the chain accepts, with the data bits unchanged. */
  lemma {:induction false} StampSound(words: seq<Word>, d29: bool, d30: bool)
    ensures NormalizedOK(Stamp(words, d29, d30), d29, d30)
    ensures Data(Stamp(words, d29, d30)) == Data(words)
  {
    hide ParityBits;
    if words != [] {
      var data := words[0][..24];
      var tx := ParityBits(data, d29, d30);
      var s := Stamp(words, d29, d30);
      StampSound(words[1..], tx[4], tx[5]);
      assert s[0][..24] == data && s[0][24..] == InvertIf(d30, tx) && s[1..] == Stamp(words[1..], tx[4], tx[5]);
      assert InvertIf(d30, InvertIf(d30, tx)) == tx;
    }
  }

  function StampOne(w: Word, d29: bool, d30: bool): Word {
    w[..24] + InvertIf(d30, ParityBits(w[..24], d29, d30))
  }

  lemma StampStep(words: seq<Word>, i: nat, d29: bool, d30: bool)
    requires i < |words|
    ensures var tx := ParityBits(words[i][..24], d29, d30);
            Stamp(words[i..], d29, d30) == [StampOne(words[i], d29, d30)] + Stamp(words[i + 1..], tx[4], tx[5])
  {
    hide ParityBits;
    assert words[i..][1..] == words[i + 1..];
  }

  method StampAt(words: array<Word>, i: nat, d29: bool, d30: bool) returns (n29: bool, n30: bool)
    requires i < words.Length
    modifies words
    ensures words[..] == old(words[..])[i := StampOne(old(words[i]), d29, d30)]
    ensures var tx := ParityBits(old(words[i])[..24], d29, d30); n29 == tx[4] && n30 == tx[5]
  {
    hide ParityBits;
    var data := words[i][..24];
    var tx := ParityBits(data, d29, d30);
    var delivered := tx;
    if d30 { delivered := Invert(delivered); }
    words[i] := data + delivered;
    n29, n30 := tx[4], tx[5];
  }

  /** From word `i` on, the target is the stamp of what is left. */
  ghost predicate Remaining(target: seq<Word>, was: seq<Word>, i: nat, d29: bool, d30: bool) {
    i <= |target| == |was| && target[i..] == Stamp(was[i..], d29, d30)
  }

  /** Replacing word `i` moves the boundary between stamped and unstamped words by one. */
  lemma StampNext(target: seq<Word>, was: seq<Word>, i: nat, d29: bool, d30: bool)
    requires Remaining(target, was, i, d29, d30) && i < |was|
    ensures var tx := ParityBits(was[i][..24], d29, d30); Remaining(target, was, i + 1, tx[4], tx[5])
    ensures (target[..i] + was[i..])[i] == was[i]
    ensures (target[..i] + was[i..])[i := StampOne(was[i], d29, d30)] == target[..i + 1] + was[i + 1..]
  {
    StampStep(was, i, d29, d30);
    hide ParityBits, Stamp, StampOne;
    assert target[i] == target[i..][0] && target[i + 1..] == target[i..][1..];
  }

  method StampWords(words: array<Word>)
    modifies words
    ensures words[..] == Stamp(old(words[..]), false, false)
  {
    var d29, d30 := false, false;
    ghost var was := words[..];
    ghost var target := Stamp(was, false, false);
    assert was[0..] == was && target[0..] == target;
    assert Remaining(target, was, 0, false, false);
    hide ParityBits, Stamp, StampOne, Remaining;
    for i := 0 to words.Length
      invariant words[..] == target[..i] + was[i..]
      invariant Remaining(target, was, i, d29, d30)
    {
      StampNext(target, was, i, d29, d30);
      d29, d30 := StampAt(words, i, d29, d30);
    }
  }

  // ----- detection

  lemma SameParitySameChecks(v: Word, w: Word, d29: bool, d30: bool)
    requires v[24..] == Expected(v[..24], d29, d30) && w[24..] == Expected(w[..24], d29, d30)
    ensures SameChecks(v, w)
  {
    hide XorOver, Mask;
    forall k | 0 <= k < 6
      ensures Check(v, k) == Check(w, k)
    {
      assert v[24 + k] == v[24..][k] && w[24 + k] == w[24..][k];
    }
  }

  /** Any corruption whose first altered word has one to three flipped bits is rejected, whatever follows. */
  lemma {:induction false} CorruptionDetected(words: seq<Word>, bad: seq<Word>, at: nat, d29: bool, d30: bool)
    requires |bad| == |words| && at < |words| && NormalizedOK(words, d29, d30)
    requires bad[..at] == words[..at] && 1 <= |Differences(words[at], bad[at])| <= 3
    ensures !NormalizedOK(bad, d29, d30)
    decreases at
  {
    hide ParityBits, SameChecks;
    if at == 0 {
      if NormalizedOK(bad, d29, d30) {
        SameParitySameChecks(words[0], bad[0], d29, d30);
        Distance(words[0], bad[0]);
      }
    } else {
      assert words[0] == words[..at][0] == bad[0];
      assert bad[1..][..at - 1] == bad[..at][1..] == words[1..][..at - 1];
      var tx := InvertIf(d30, words[0][24..]);
      CorruptionDetected(words[1..], bad[1..], at - 1, tx[4], tx[5]);
    }
  }
}
