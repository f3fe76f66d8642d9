/** Big-endian integers, as every wire and file format of the system stores them. */
module BigEndian {

  type byte = x: int | 0 <= x < 256

  /** `uint16_t`, `uint32_t` and `uint64_t`. */
  type U16 = x: int | 0 <= x < 0x1_0000
  type U32 = x: int | 0 <= x < 0x1_0000_0000
  type U64 = x: int | 0 <= x < 0x1_0000_0000_0000_0000

  datatype Option<+T> = None | Some(value: T)

  /** The number of values `n` bytes can hold. */
  function Pow256(n: nat): (r: nat)
    ensures r > 0
  {
    if n == 0 then 1 else 256 * Pow256(n - 1)
  }

  /** The value of a byte string, most significant byte first. */
  function Get(b: seq<byte>): (v: nat)
    ensures v < Pow256(|b|)
  {
    if b == [] then 0 else 256 * Get(b[..|b| - 1]) + b[|b| - 1]
  }

  /** The low `n` bytes of `v`, most significant byte first. */
  function Put(v: nat, n: nat): (b: seq<byte>)
    ensures |b| == n
    decreases n, v
  {
    if n == 0 then [] else Put(v / 256, n - 1) + [v % 256]
  }

  lemma {:induction false} GetPut(v: nat, n: nat)
    requires v < Pow256(n)
    ensures Get(Put(v, n)) == v
  {
    if n != 0 {
      GetPut(v / 256, n - 1);
      assert Put(v, n)[..n - 1] == Put(v / 256, n - 1);
    }
  }

  lemma {:induction false} PutGet(b: seq<byte>)
    ensures Put(Get(b), |b|) == b
  {
    if b != [] {
      PutGet(b[..|b| - 1]);
      assert Get(b) / 256 == Get(b[..|b| - 1]) && Get(b) % 256 == b[|b| - 1];
    }
  }

  /** The first byte counts most: a longer string is its front, shifted past the rest. */
  lemma {:induction false} GetConcat(a: seq<byte>, b: seq<byte>)
    ensures Get(a + b) == Get(a) * Pow256(|b|) + Get(b)
    ensures forall x: byte :: Get([x]) == x
    decreases |b|
  {
    if b == [] {
      assert a + b == a;
    } else {
      var n := |b| - 1;
      GetConcat(a, b[..n]);
      assert (a + b)[..|a| + n] == a + b[..n];
      Shifted(Get(a), Pow256(n), Get(b[..n]), b[n]);
    }
  }

  lemma Shifted(x: nat, p: nat, y: nat, z: nat)
    ensures 256 * (x * p + y) + z == x * (256 * p) + (256 * y + z)
  {
  }

  lemma Widths()
    ensures Pow256(1) == 0x100
    ensures Pow256(2) == 0x1_0000
    ensures Pow256(4) == 0x1_0000_0000
    ensures Pow256(8) == 0x1_0000_0000_0000_0000
  {
    assert Pow256(1) == 0x100;
    assert Pow256(2) == 0x1_0000;
    assert Pow256(3) == 0x100_0000;
    assert Pow256(4) == 0x1_0000_0000;
    assert Pow256(5) == 0x100_0000_0000;
    assert Pow256(6) == 0x1_0000_0000_0000;
    assert Pow256(7) == 0x100_0000_0000_0000;
  }

  /** Fields of two, four and eight bytes are read back as they were written. */
  lemma Back2(v: nat)
    requires v < 0x1_0000
    ensures Get(Put(v, 2)) == v
  {
    hide Get, Put;
    Widths();
    GetPut(v, 2);
  }

  lemma Back4(v: nat)
    requires v < 0x1_0000_0000
    ensures Get(Put(v, 4)) == v
  {
    hide Get, Put;
    Widths();
    GetPut(v, 4);
  }

  lemma Back8(v: nat)
    requires v < 0x1_0000_0000_0000_0000
    ensures Get(Put(v, 8)) == v
  {
    hide Get, Put;
    Widths();
    GetPut(v, 8);
  }

  /** `nr_get` and `rd_be64`: the shift-and-or loop. */
  method ReadLoop(p: seq<byte>) returns (v: nat)
    ensures v == Get(p) && v < Pow256(|p|)
    ensures Put(v, |p|) == p
  {
    v := 0;
    for i := 0 to |p|
      invariant v == Get(p[..i])
    {
      assert p[..i + 1][..i] == p[..i];
      v := 256 * v + p[i];
    }
    assert p[..|p|] == p;
    PutGet(p);
  }

  /** `nr_put` and `be64`: bytes are written in place from the last to the first. */
  method WriteLoop(p: array<byte>, at: nat, v: nat, n: nat)
    requires at + n <= p.Length
    modifies p
    ensures p[at..at + n] == Put(v, n)
    ensures p[..at] == old(p[..at]) && p[at + n..] == old(p[at + n..])
  {
    var rest := v;
    var i := n;
    while i > 0
      invariant 0 <= i <= n && rest >= 0
      invariant p[..at] == old(p[..at]) && p[at + n..] == old(p[at + n..])
      invariant Put(v, n) == Put(rest, i) + p[at + i..at + n]
    {
      ghost var tail := p[at + i..at + n];
      p[at + i - 1] := rest % 256;
      assert p[at + i - 1..at + n] == [rest % 256] + tail;
      assert Put(rest, i) + tail == Put(rest / 256, i - 1) + ([rest % 256] + tail);
      rest, i := rest / 256, i - 1;
    }
    assert p[at..at + n] == Put(v, n);
  }
}
