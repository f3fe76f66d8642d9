/** Where the edge's blocks carry the receiver's bytes: fields little endian in the payload, big endian in the block,
    with masked flags and reserved bytes (common/receiver_solution.h). */
module SolutionLayout {
  import opened BigEndian
  import opened Wire
  import opened SolutionBlocks

  /** Four bytes of the payload, and two, in reverse. */
  function Turned4(p: seq<byte>, i: nat): (r: seq<byte>)
    requires i + 4 <= |p|
    ensures |r| == 4
  {
    [p[i + 3], p[i + 2], p[i + 1], p[i]]
  }

  function Turned2(p: seq<byte>, i: nat): (r: seq<byte>)
    requires i + 2 <= |p|
    ensures |r| == 2
  {
    [p[i + 1], p[i]]
  }

  lemma GetFour(a: byte, b: byte, c: byte, d: byte)
    ensures Get([a, b, c, d]) == 0x100_0000 * a + 0x1_0000 * b + 0x100 * c + d
  {
    assert [a, b, c, d][..3] == [a, b, c] && [a, b, c][..2] == [a, b] && [a, b][..1] == [a] && [a][..0] == [];
    assert Get([a]) == a;
    assert Get([a, b]) == 256 * a + b;
    assert Get([a, b, c]) == 256 * Get([a, b]) + c;
  }

  lemma PutLe32(p: seq<byte>, i: nat)
    requires i + 4 <= |p|
    ensures Put(Le32(p, i), 4) == Turned4(p, i)
  {
    GetFour(p[i + 3], p[i + 2], p[i + 1], p[i]);
    PutGet(Turned4(p, i));
  }

  lemma PutLe16(p: seq<byte>, i: nat)
    requires i + 2 <= |p|
    ensures Put(Le16(p, i), 2) == Turned2(p, i)
  {
    var b := [p[i + 1], p[i]];
    assert b[..1] == [p[i + 1]] && b[..1][..0] == [];
    assert Get(b) == Le16(p, i);
    PutGet(b);
  }

  lemma PutFlag(x: nat)
    requires x < 2
    ensures Put(x, 2) == [0, x]
  {
    assert Put(x, 2) == Put(x / 256, 1) + [x % 256];
    OneByte(0);
  }

  /** Field `k` of a block. */
  lemma PvtSlice(p: seq<byte>, k: nat)
    requires |p| == 92 && k < 25
    ensures var b := Flatten(PvtParts(p));
            |b| == 64 && |PvtParts(p)| == 25 && PvtCuts()[k] <= PvtCuts()[k + 1] <= 64 &&
            b[PvtCuts()[k]..PvtCuts()[k + 1]] == PvtParts(p)[k]
  {
    hide Put, PvtValues, Flatten, PvtCuts;
    PvtLayout();
    PartsFlatten(PvtParts(p), PvtCuts(), PVT_LEN);
    assert Parts(Flatten(PvtParts(p)), PvtCuts())[k] == PvtParts(p)[k];
    CutsInside(k);
  }

  lemma CutsInside(k: nat)
    requires k < 25
    ensures |PvtCuts()| == 26 && PvtCuts()[k] <= PvtCuts()[k + 1] <= 64
  {
  }

  predicate TimeBytes(b: seq<byte>, p: seq<byte>)
    requires |b| == 64 && |p| == 92
  {
    && b[0..4] == Turned4(p, 0) && b[4..6] == Turned2(p, 4) && b[6] == p[6] && b[7] == p[7] && b[8] == p[8]
    && b[9] == p[9] && b[10] == p[10] && b[11] == p[11] % 8 && b[12..16] == Turned4(p, 12)
  }

  predicate FixBytes(b: seq<byte>, p: seq<byte>)
    requires |b| == 64 && |p| == 92
  {
    && b[16..20] == Turned4(p, 16) && b[20] == p[20]
    && b[21] % 4 == p[21] % 4 && b[21] / 4 % 16 == 0 && b[21] / 64 == p[21] / 64
    && b[22] == p[23] && b[23] == 0
    && b[24..28] == Turned4(p, 24) && b[28..32] == Turned4(p, 28) && b[32..36] == Turned4(p, 32)
  }

  predicate MotionBytes(b: seq<byte>, p: seq<byte>)
    requires |b| == 64 && |p| == 92
  {
    && b[36..40] == Turned4(p, 40) && b[40..44] == Turned4(p, 44) && b[44..48] == Turned4(p, 48)
    && b[48..52] == Turned4(p, 52)
    && b[52..56] == Turned4(p, 56) && b[56..60] == Turned4(p, 68) && b[60..62] == Turned2(p, 76)
    && b[62] == 0 && b[63] == p[78] % 2
  }

  lemma TimeInBlock(p: seq<byte>)
    requires |p| == 92
    ensures |Flatten(PvtParts(p))| == 64 && TimeBytes(Flatten(PvtParts(p)), p)
  {
    hide Put, PvtParts, Flatten, Le32, Le16, FixFlags;
    var b := Flatten(PvtParts(p));
    PvtSlice(p, 0); PvtSlice(p, 1); PvtSlice(p, 2); PvtSlice(p, 3); PvtSlice(p, 4);
    PvtSlice(p, 5); PvtSlice(p, 6); PvtSlice(p, 7); PvtSlice(p, 8);
    TimeParts(p);
    assert b[6] == b[6..7][0] && b[7] == b[7..8][0] && b[8] == b[8..9][0] && b[9] == b[9..10][0];
    assert b[10] == b[10..11][0] && b[11] == b[11..12][0];
    PutLe32(p, 0); PutLe16(p, 4); OneByte(p[6]); OneByte(p[7]); OneByte(p[8]); OneByte(p[9]); OneByte(p[10]);
    OneByte(p[11] % 8); PutLe32(p, 12);
  }

  lemma FixInBlock(p: seq<byte>)
    requires |p| == 92
    ensures |Flatten(PvtParts(p))| == 64 && FixBytes(Flatten(PvtParts(p)), p)
  {
    hide Put, PvtParts, Flatten, Le32, Le16, FixFlags;
    var b := Flatten(PvtParts(p));
    PvtSlice(p, 9); PvtSlice(p, 10); PvtSlice(p, 11); PvtSlice(p, 12); PvtSlice(p, 13); PvtSlice(p, 14);
    PvtSlice(p, 15); PvtSlice(p, 16);
    FixParts(p);
    assert b[20] == b[20..21][0] && b[21] == b[21..22][0] && b[22] == b[22..23][0] && b[23] == b[23..24][0];
    FlagBits(p[21]);
    PutLe32(p, 16); OneByte(p[20]); OneByte(FixFlags(p[21])); OneByte(p[23]); OneByte(0);
    PutLe32(p, 24); PutLe32(p, 28); PutLe32(p, 32);
  }

  /** Of the fix flags the two lowest and the two highest bits survive. */
  lemma FlagBits(x: byte)
    ensures var f := FixFlags(x); f % 4 == x % 4 && f / 4 % 16 == 0 && f / 64 == x / 64
  {
  }

  lemma MotionInBlock(p: seq<byte>)
    requires |p| == 92
    ensures |Flatten(PvtParts(p))| == 64 && MotionBytes(Flatten(PvtParts(p)), p)
  {
    hide Put, PvtParts, Flatten, Le32, Le16, FixFlags;
    var b := Flatten(PvtParts(p));
    PvtSlice(p, 17); PvtSlice(p, 18); PvtSlice(p, 19); PvtSlice(p, 20); PvtSlice(p, 21); PvtSlice(p, 22);
    PvtSlice(p, 23); PvtSlice(p, 24);
    MotionParts(p);
    assert b[62] == b[62..64][0] && b[63] == b[62..64][1];
    PutLe32(p, 40); PutLe32(p, 44); PutLe32(p, 48); PutLe32(p, 52); PutLe32(p, 56); PutLe32(p, 68);
    PutLe16(p, 76);
    LowFlag(p);
  }

  lemma LowFlag(p: seq<byte>)
    requires |p| == 92
    ensures Put(Le16(p, 78) % 2, 2) == [0, p[78] % 2]
  {
    PutFlag(p[78] % 2);
  }

  /** Every byte of a position block, from the payload. */
  lemma PvtBytes(p: seq<byte>)
    requires PvtBlock(p).Some?
    ensures var b := PvtBlock(p).value;
            |p| == 92 && |b| == 64 && TimeBytes(b, p) && FixBytes(b, p) && MotionBytes(b, p)
  {
    hide EdgeAccepts, Flatten, PvtParts, TimeBytes, FixBytes, MotionBytes;
    TimeInBlock(p);
    FixInBlock(p);
    MotionInBlock(p);
  }

  /** Every byte of a clock block: five words. */
  lemma ClockBytes(p: seq<byte>)
    requires ClockBlock(p).Some?
    ensures var b := ClockBlock(p).value;
            |p| == 20 && |b| == 20 && forall i :: 0 <= i < 5 ==> b[4 * i..4 * i + 4] == Turned4(p, 4 * i)
  {
    hide Put, Flatten, Le32;
    var parts, b := ClockParts(p), ClockBlock(p).value;
    SmallLayouts();
    PartsFlatten(parts, ClockCuts(), CLOCK_LEN);
    forall i | 0 <= i < 5
      ensures b[4 * i..4 * i + 4] == Turned4(p, 4 * i)
    {
      ClockPart(p, i);
      PutLe32(p, 4 * i);
      assert Parts(b, ClockCuts())[i] == b[4 * i..4 * i + 4];
    }
  }

  /** Every byte of a status block. */
  lemma StatusBytes(p: seq<byte>)
    requires StatusBlock(p).Some?
    ensures var b := StatusBlock(p).value;
            && |p| == 16 && |b| == 16 && b[0..4] == Turned4(p, 0) && b[4] == p[4] && b[5] == p[5] && b[6] == p[6]
            && b[7] == p[7] / 8 % 4 && b[8..12] == Turned4(p, 8) && b[12..16] == Turned4(p, 12)
  {
    hide Put, Flatten, Le32, StatusParts;
    var parts, b := StatusParts(p), StatusBlock(p).value;
    StatusFields(p);
    SmallLayouts();
    PartsFlatten(parts, StatusCuts(), STATUS_LEN);
    StatusSlices(b);
    PutLe32(p, 0); OneByte(p[4]); OneByte(p[5]); OneByte(p[6]); OneByte(p[7] / 8 % 4); PutLe32(p, 8); PutLe32(p, 12);
  }

  lemma StatusSlices(b: seq<byte>)
    requires |b| == STATUS_LEN && Layout(StatusCuts(), |b|)
    ensures Parts(b, StatusCuts()) == [b[0..4], b[4..5], b[5..6], b[6..7], b[7..8], b[8..12], b[12..16]]
  {
  }
}
