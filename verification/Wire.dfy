/** Fixed-layout records: a byte string cut at fixed offsets, and the buffer writes that build one. */
module Wire {
  import opened BigEndian

  function Flatten(parts: seq<seq<byte>>): (r: seq<byte>)
  {
    if parts == [] then [] else Flatten(parts[..|parts| - 1]) + parts[|parts| - 1]
  }

  /** The offsets at which a record of `n` bytes is cut. */
  predicate Layout(cuts: seq<nat>, n: nat) {
    && |cuts| > 0 && cuts[0] == 0 && cuts[|cuts| - 1] == n
    && forall i, j :: 0 <= i <= j < |cuts| ==> cuts[i] <= cuts[j]
  }

  /** Each part has the width between its two cuts. */
  predicate Fits(parts: seq<seq<byte>>, cuts: seq<nat>) {
    |cuts| == |parts| + 1 && forall i {:trigger parts[i]} :: 0 <= i < |parts| ==> cuts[i] + |parts[i]| == cuts[i + 1]
  }

  function Parts(b: seq<byte>, cuts: seq<nat>): (parts: seq<seq<byte>>)
    requires Layout(cuts, |b|)
    ensures Fits(parts, cuts)
  {
    seq(|cuts| - 1, i requires 0 <= i < |cuts| - 1 => b[cuts[i]..cuts[i + 1]])
  }

  lemma {:induction false} FlattenPrefix(b: seq<byte>, cuts: seq<nat>, k: nat)
    requires Layout(cuts, |b|) && k < |cuts|
    ensures Flatten(Parts(b, cuts)[..k]) == b[..cuts[k]]
  {
    if k > 0 {
      FlattenPrefix(b, cuts, k - 1);
      var parts := Parts(b, cuts)[..k];
      assert parts[..k - 1] == Parts(b, cuts)[..k - 1];
      assert b[..cuts[k]] == b[..cuts[k - 1]] + b[cuts[k - 1]..cuts[k]];
    }
  }

  /** Cutting loses nothing. */
  lemma FlattenParts(b: seq<byte>, cuts: seq<nat>)
    requires Layout(cuts, |b|)
    ensures Flatten(Parts(b, cuts)) == b
  {
    FlattenPrefix(b, cuts, |cuts| - 1);
    assert Parts(b, cuts)[..|cuts| - 1] == Parts(b, cuts);
    assert b[..|b|] == b;
  }

  lemma {:induction false} PartPrefix(parts: seq<seq<byte>>, cuts: seq<nat>, k: nat)
    requires Fits(parts, cuts) && Layout(cuts, cuts[|parts|]) && k <= |parts|
    ensures |Flatten(parts[..k])| == cuts[k]
    ensures forall i :: 0 <= i < k ==> Flatten(parts[..k])[cuts[i]..cuts[i + 1]] == parts[i]
  {
    if k > 0 {
      PartPrefix(parts, cuts, k - 1);
      assert parts[..k][..k - 1] == parts[..k - 1];
      var rest := Flatten(parts[..k - 1]);
      assert Flatten(parts[..k]) == rest + parts[k - 1];
      assert forall i :: 0 <= i < k - 1 ==> Flatten(parts[..k])[cuts[i]..cuts[i + 1]] == rest[cuts[i]..cuts[i + 1]];
    }
  }

  /** Cutting gives back the parts that were joined. */
  lemma PartsFlatten(parts: seq<seq<byte>>, cuts: seq<nat>, n: nat)
    requires Fits(parts, cuts) && Layout(cuts, n)
    ensures |Flatten(parts)| == n && Parts(Flatten(parts), cuts) == parts
  {
    PartPrefix(parts, cuts, |parts|);
    assert parts[..|parts|] == parts;
  }

  // ----- building a record in place

  predicate Zero(b: seq<byte>) { forall i :: 0 <= i < |b| ==> b[i] == 0 }

  /** The first `k` parts are in place, up to offset `at`, and the rest is still clear. */
  ghost predicate Filled(b: array<byte>, at: nat, parts: seq<seq<byte>>, k: nat)
    reads b
  {
    at <= b.Length && k <= |parts| && b[..at] == Flatten(parts[..k]) && Zero(b[at..])
  }

  lemma FlattenNext(parts: seq<seq<byte>>, k: nat)
    requires k < |parts|
    ensures Flatten(parts[..k + 1]) == Flatten(parts[..k]) + parts[k]
  {
    assert parts[..k + 1][..k] == parts[..k];
  }

  /** `memset`. */
  method Clear(b: array<byte>, ghost parts: seq<seq<byte>>)
    modifies b
    ensures Filled(b, 0, parts, 0)
  {
    for i := 0 to b.Length
      invariant Zero(b[..i])
    {
      b[i] := 0;
    }
  }

  /** `memcpy` to offset `at`. */
  method CopyTo(b: array<byte>, at: nat, data: seq<byte>)
    requires at + |data| <= b.Length
    modifies b
    ensures b[..at + |data|] == old(b[..at]) + data
    ensures forall k :: at + |data| <= k < b.Length ==> b[k] == old(b[k])
  {
    ghost var done := b[..at];
    for i := 0 to |data|
      invariant b[..at + i] == done + data[..i]
      invariant forall k :: at + i <= k < b.Length ==> b[k] == old(b[k])
    {
      b[at + i] := data[i];
      assert b[..at + i + 1] == b[..at + i] + [data[i]];
    }
  }

  /** The next part, or one byte, is copied in. */
  method Copy(b: array<byte>, at: nat, data: seq<byte>, ghost parts: seq<seq<byte>>, ghost k: nat)
    requires Filled(b, at, parts, k) && k < |parts| && data == parts[k] && at + |data| <= b.Length
    modifies b
    ensures Filled(b, at + |data|, parts, k + 1)
  {
    FlattenNext(parts, k);
    ghost var tail := b[at..];
    CopyTo(b, at, data);
    assert b[at + |data|..] == tail[|data|..];
  }

  /** `nr_put` at offset `at`. */
  method PutAt(b: array<byte>, at: nat, v: nat, n: nat, ghost parts: seq<seq<byte>>, ghost k: nat)
    requires Filled(b, at, parts, k) && k < |parts| && Put(v, n) == parts[k] && at + n <= b.Length
    modifies b
    ensures Filled(b, at + n, parts, k + 1)
  {
    FlattenNext(parts, k);
    ghost var done, tail := b[..at], b[at..];
    WriteLoop(b, at, v, n);
    assert b[..at + n] == done + Put(v, n);
    assert b[at + n..] == tail[n..];
  }

  /** Bytes nobody writes stay clear. */
  lemma Reserved(b: array<byte>, at: nat, parts: seq<seq<byte>>, k: nat)
    requires Filled(b, at, parts, k) && k < |parts| && Zero(parts[k]) && at + |parts[k]| <= b.Length
    ensures Filled(b, at + |parts[k]|, parts, k + 1)
  {
    FlattenNext(parts, k);
    var n := |parts[k]|;
    assert b[at..][..n] == parts[k];
    assert b[..at + n] == b[..at] + b[at..][..n];
    assert b[at + n..] == b[at..][n..];
  }

  lemma Whole(b: array<byte>, parts: seq<seq<byte>>)
    requires Filled(b, b.Length, parts, |parts|)
    ensures b[..] == Flatten(parts)
  {
    assert parts[..|parts|] == parts && b[..b.Length] == b[..];
  }

  // ----- integer fields

  function Int64(b: seq<byte>): (v: U64)
    requires |b| == 8
    ensures Put(v, 8) == b
  {
    Widths();
    PutGet(b);
    Get(b)
  }

  // ----- records made of integers only

  /** Each value fits in the width of its field. */
  predicate Narrow(vals: seq<nat>, cuts: seq<nat>, n: nat) {
    && Layout(cuts, n) && |cuts| == |vals| + 1
    && forall i {:trigger vals[i]} :: 0 <= i < |vals| ==> vals[i] < Pow256(cuts[i + 1] - cuts[i])
  }

  function Digits(vals: seq<nat>, cuts: seq<nat>, n: nat): (p: seq<seq<byte>>)
    requires Layout(cuts, n) && |cuts| == |vals| + 1
    ensures Fits(p, cuts)
  {
    seq(|vals|, i requires 0 <= i < |vals| => Put(vals[i], cuts[i + 1] - cuts[i]))
  }

  function Values(p: seq<seq<byte>>): (vals: seq<nat>)
    ensures |vals| == |p|
  {
    seq(|p|, i requires 0 <= i < |p| => Get(p[i]))
  }

  function Numbers(b: seq<byte>, cuts: seq<nat>): (vals: seq<nat>)
    requires Layout(cuts, |b|)
    ensures |cuts| == |vals| + 1
  {
    Values(Parts(b, cuts))
  }

  lemma DigitAt(vals: seq<nat>, cuts: seq<nat>, n: nat, i: nat)
    requires Narrow(vals, cuts, n) && i < |vals|
    ensures Get(Digits(vals, cuts, n)[i]) == vals[i]
  {
    hide Fits, Get, Put, Pow256;
    var w := cuts[i + 1] - cuts[i];
    assert vals[i] < Pow256(w);
    GetPut(vals[i], w);
    assert Digits(vals, cuts, n)[i] == Put(vals[i], w);
  }

  /** Reading the fields back gives the values that were written. */
  lemma NumbersDigits(vals: seq<nat>, cuts: seq<nat>, n: nat)
    requires Narrow(vals, cuts, n)
    ensures |Flatten(Digits(vals, cuts, n))| == n && Numbers(Flatten(Digits(vals, cuts, n)), cuts) == vals
  {
    hide Flatten, Get, Parts, Digits, Layout;
    var p := Digits(vals, cuts, n);
    PartsFlatten(p, cuts, n);
    hide Fits;
    forall i | 0 <= i < |vals|
      ensures Get(p[i]) == vals[i]
    {
      DigitAt(vals, cuts, n, i);
    }
    assert Values(p) == vals;
  }
}
