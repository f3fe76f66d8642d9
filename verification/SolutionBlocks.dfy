/** The position, clock and status blocks of a receiver-solution record: the edge's encoders
    (common/receiver_solution.h) and the collector's parsers (go/internal/ingest/solution.go). */
module SolutionBlocks {
  import opened BigEndian
  import opened Wire

  const WEEK_MS := 604800000
  const PVT_LEN := 64
  const CLOCK_LEN := 20
  const STATUS_LEN := 16

  // ----- what the blocks mean

  datatype Calendar = Calendar(year: nat, month: nat, day: nat, hour: nat, minute: nat, second: nat, valid: nat)
  datatype Fix = Fix(kind: nat, flags: nat, numSV: nat)
  datatype Place = Place(lon: int, lat: int, height: int, hAcc: nat, vAcc: nat)
  datatype Motion = Motion(velN: int, velE: int, velD: int, sAcc: nat, pdop: nat, posFlags: nat)
  datatype Pvt = Pvt(tow: nat, cal: Calendar, tAcc: nat, nano: int, fix: Fix, place: Place, motion: Motion)
  datatype Clock = Clock(tow: nat, bias: int, drift: int, tAcc: nat, fAcc: nat)
  datatype Status = Status(tow: nat, kind: nat, flags: nat, fixStatus: nat, spoof: nat, ttff: nat, sinceStart: nat)

  /** The conversion of a 32-bit word to `int32`. */
  function Signed(v: nat): int { if v < 0x8000_0000 then v else v - 0x1_0000_0000 }

  predicate CalendarOK(c: Calendar) {
    && (c.valid % 2 == 1 ==> 1999 <= c.year <= 2200 && 1 <= c.month <= 12 && 1 <= c.day <= 31)
    && (c.valid / 2 % 2 == 1 ==> c.hour <= 23 && c.minute <= 59 && c.second <= 60)
  }

  predicate RangesOK(tow: nat, kind: nat, flags: nat, place: Place, nano: int) {
    && tow < WEEK_MS && kind <= 5 && flags / 64 % 4 != 3
    && -900_000_000 <= place.lat <= 900_000_000 && -1_800_000_000 <= place.lon <= 1_800_000_000
    && -1_000_000_000 < nano < 1_000_000_000
  }

  /** `SolutionPVT.valid`. */
  predicate PvtOK(p: Pvt) {
    && p.cal.valid < 8 && p.fix.flags / 4 % 16 == 0 && p.fix.flags < 256 && p.motion.posFlags < 2
    && RangesOK(p.tow, p.fix.kind, p.fix.flags, p.place, p.nano) && CalendarOK(p.cal)
  }

  // ----- the receiver's payloads, little endian

  function Le16(p: seq<byte>, i: nat): (v: nat)
    requires i + 2 <= |p|
    ensures v < 0x1_0000
  {
    var a: int, b: int := p[i], p[i + 1];
    a + 0x100 * b
  }

  function Le32(p: seq<byte>, i: nat): (v: nat)
    requires i + 4 <= |p|
    ensures v < 0x1_0000_0000
  {
    var a: int, b: int, c: int, d: int := p[i], p[i + 1], p[i + 2], p[i + 3];
    a + 0x100 * b + 0x1_0000 * c + 0x100_0000 * d
  }

  /** `x & 0xC3`. */
  function FixFlags(x: byte): (v: byte) { 64 * (x / 64) + x % 4 }

  /** `parseNAVPVT`. */
  function ParsePvt(p: seq<byte>): Option<Pvt> {
    if |p| != 92 then None
    else
      var r := Pvt(
        Le32(p, 0), Calendar(Le16(p, 4), p[6], p[7], p[8], p[9], p[10], p[11] % 8), Le32(p, 12), Signed(Le32(p, 16)),
        Fix(p[20], FixFlags(p[21]), p[23]),
        Place(Signed(Le32(p, 24)), Signed(Le32(p, 28)), Signed(Le32(p, 32)), Le32(p, 40), Le32(p, 44)),
        Motion(Signed(Le32(p, 48)), Signed(Le32(p, 52)), Signed(Le32(p, 56)), Le32(p, 68), Le16(p, 76),
          Le16(p, 78) % 2));
      if PvtOK(r) then Some(r) else None
  }

  /** `parseNAVCLOCK`. */
  function ParseClock(p: seq<byte>): Option<Clock> {
    if |p| != 20 || Le32(p, 0) >= WEEK_MS then None
    else Some(Clock(Le32(p, 0), Signed(Le32(p, 4)), Signed(Le32(p, 8)), Le32(p, 12), Le32(p, 16)))
  }

  /** `parseNAVSTATUS`. */
  function ParseStatus(p: seq<byte>): Option<Status> {
    if |p| != 16 || Le32(p, 0) >= WEEK_MS || p[4] > 5 then None
    else Some(Status(Le32(p, 0), p[4], p[5], p[6], p[7] / 8 % 4, Le32(p, 8), Le32(p, 12)))
  }

  // ----- the edge's encoders

  function PvtCuts(): seq<nat> {
    [0, 4, 6, 7, 8, 9, 10, 11, 12, 16, 20, 21, 22, 23, 24, 28, 32, 36, 40, 44, 48, 52, 56, 60, 62, 64]
  }
  function ClockCuts(): seq<nat> { [0, 4, 8, 12, 16, 20] }
  function StatusCuts(): seq<nat> { [0, 4, 5, 6, 7, 8, 12, 16] }

  function PvtValues(p: seq<byte>): (v: seq<nat>)
    requires |p| == 92
    ensures |v| == 25
  {
    hide Le32, Le16, FixFlags;
    [Le32(p, 0), Le16(p, 4), p[6], p[7], p[8], p[9], p[10], p[11] % 8, Le32(p, 12), Le32(p, 16),
     p[20], FixFlags(p[21]), p[23], 0, Le32(p, 24), Le32(p, 28), Le32(p, 32), Le32(p, 40), Le32(p, 44),
     Le32(p, 48), Le32(p, 52), Le32(p, 56), Le32(p, 68), Le16(p, 76), Le16(p, 78) % 2]
  }

  function ClockValues(p: seq<byte>): (v: seq<nat>)
    requires |p| == 20
    ensures |v| == 5
  {
    [Le32(p, 0), Le32(p, 4), Le32(p, 8), Le32(p, 12), Le32(p, 16)]
  }

  function StatusValues(p: seq<byte>): (v: seq<nat>)
    requires |p| == 16
    ensures |v| == 7
  {
    [Le32(p, 0), p[4], p[5], p[6], p[7] / 8 % 4, Le32(p, 8), Le32(p, 12)]
  }

  lemma PvtLayout()
    ensures Layout(PvtCuts(), PVT_LEN)
  {
  }

  lemma SmallLayouts()
    ensures Layout(ClockCuts(), CLOCK_LEN) && Layout(StatusCuts(), STATUS_LEN)
  {
  }

  lemma PvtNarrow(p: seq<byte>)
    requires |p| == 92
    ensures Narrow(PvtValues(p), PvtCuts(), PVT_LEN)
  {
    PvtLayout();
    Widths();
    hide Pow256, Le32, Le16, FixFlags;
  }

  lemma ClockNarrow(p: seq<byte>)
    requires |p| == 20
    ensures Narrow(ClockValues(p), ClockCuts(), CLOCK_LEN)
  {
    SmallLayouts();
    Widths();
    hide Pow256, Le32;
  }

  lemma StatusNarrow(p: seq<byte>)
    requires |p| == 16
    ensures Narrow(StatusValues(p), StatusCuts(), STATUS_LEN)
  {
    SmallLayouts();
    Widths();
    hide Pow256, Le32;
  }

  /** The checks of `rs_pvt_block`. */
  predicate EdgeAccepts(p: seq<byte>)
    requires |p| == 92
  {
    var valid, flags := p[11] % 8, FixFlags(p[21]);
    var nano, lon, lat := Signed(Le32(p, 16)), Signed(Le32(p, 24)), Signed(Le32(p, 28));
    && !(Le32(p, 0) >= WEEK_MS || p[20] > 5 || flags / 64 == 3
         || lat < -900000000 || lat > 900000000 || lon < -1800000000 || lon > 1800000000
         || nano <= -1000000000 || nano >= 1000000000)
    && !(valid % 2 == 1 && (Le16(p, 4) < 1999 || Le16(p, 4) > 2200 || p[6] < 1 || p[6] > 12 || p[7] < 1 || p[7] > 31))
    && !(valid / 2 % 2 == 1 && (p[8] > 23 || p[9] > 59 || p[10] > 60))
  }

  function PvtParts(p: seq<byte>): (r: seq<seq<byte>>)
    requires |p| == 92
  {
    PvtLayout();
    Digits(PvtValues(p), PvtCuts(), PVT_LEN)
  }

  function ClockParts(p: seq<byte>): (r: seq<seq<byte>>)
    requires |p| == 20
  {
    SmallLayouts();
    Digits(ClockValues(p), ClockCuts(), CLOCK_LEN)
  }

  function StatusParts(p: seq<byte>): (r: seq<seq<byte>>)
    requires |p| == 16
  {
    SmallLayouts();
    Digits(StatusValues(p), StatusCuts(), STATUS_LEN)
  }

  /** `rs_pvt_block`. */
  function PvtBlock(p: seq<byte>): Option<seq<byte>> {
    if |p| != 92 || !EdgeAccepts(p) then None else Some(Flatten(PvtParts(p)))
  }

  /** `rs_clock_block`. */
  function ClockBlock(p: seq<byte>): Option<seq<byte>> {
    if |p| != 20 || Le32(p, 0) >= WEEK_MS then None else Some(Flatten(ClockParts(p)))
  }

  /** `rs_status_block`. */
  function StatusBlock(p: seq<byte>): Option<seq<byte>> {
    if |p| != 16 || Le32(p, 0) >= WEEK_MS || p[4] > 5 then None else Some(Flatten(StatusParts(p)))
  }

  // ----- the collector's decoders

  function PvtOf(v: seq<nat>): Pvt
    requires |v| == 25
  {
    Pvt(v[0], Calendar(v[1], v[2], v[3], v[4], v[5], v[6], v[7]), v[8], Signed(v[9]), Fix(v[10], v[11], v[12]),
        Place(Signed(v[14]), Signed(v[15]), Signed(v[16]), v[17], v[18]),
        Motion(Signed(v[19]), Signed(v[20]), Signed(v[21]), v[22], v[23], v[24]))
  }

  function DecodePvt(b: seq<byte>): Option<Pvt>
    requires |b| == PVT_LEN
  {
    PvtLayout();
    var v := Numbers(b, PvtCuts());
    if PvtOK(PvtOf(v)) && v[13] == 0 then Some(PvtOf(v)) else None
  }

  function DecodeClock(b: seq<byte>): Option<Clock>
    requires |b| == CLOCK_LEN
  {
    SmallLayouts();
    var v := Numbers(b, ClockCuts());
    if v[0] >= WEEK_MS then None else Some(Clock(v[0], Signed(v[1]), Signed(v[2]), v[3], v[4]))
  }

  function DecodeStatus(b: seq<byte>): Option<Status>
    requires |b| == STATUS_LEN
  {
    SmallLayouts();
    var v := Numbers(b, StatusCuts());
    if v[0] >= WEEK_MS || v[1] > 5 || v[4] > 3 then None
    else Some(Status(v[0], v[1], v[2], v[3], v[4], v[5], v[6]))
  }

  // ----- encoding at the edge and decoding at the collector is the collector's own parse

  lemma FixFlagsMasked(x: byte)
    ensures var f: int := FixFlags(x); f < 256 && f / 4 % 16 == 0 && f / 64 % 4 == f / 64
  {
  }

  lemma EdgeChecks(p: seq<byte>)
    requires |p| == 92
    ensures EdgeAccepts(p) <==> PvtOK(PvtOf(PvtValues(p)))
  {
    FixFlagsMasked(p[21]);
    hide FixFlags, Le32, Le16, Signed;
  }

  lemma ParseValues(p: seq<byte>)
    requires |p| == 92
    ensures ParsePvt(p) == if EdgeAccepts(p) then Some(PvtOf(PvtValues(p))) else None
  {
    EdgeChecks(p);
    hide FixFlags, Le32, Le16, Signed, EdgeAccepts, PvtOK;
  }

  /** The edge sends a position block exactly when the collector would accept the payload itself, and
      the collector then reads from the block what it would have read from the payload. */
  lemma PvtCommutes(p: seq<byte>)
    ensures PvtBlock(p).Some? <==> ParsePvt(p).Some?
    ensures PvtBlock(p).Some? ==> |PvtBlock(p).value| == PVT_LEN && DecodePvt(PvtBlock(p).value) == ParsePvt(p)
    ensures ParsePvt(p).Some? ==> ParsePvt(p).value.tow == Le32(p, 0)
  {
    hide EdgeAccepts, PvtOK, Flatten, PvtParts, Le32, DecodePvt, PvtOf;
    if |p| == 92 {
      ParseValues(p);
      PvtReadBack(p);
      PvtTow(p);
    } else {
      assert ParsePvt(p) == None;
    }
  }

  lemma PvtTow(p: seq<byte>)
    requires |p| == 92
    ensures PvtOf(PvtValues(p)).tow == Le32(p, 0) && PvtValues(p)[13] == 0
  {
    hide Le32, Le16, FixFlags, Signed;
  }

  /** What the collector decodes from a block the edge encoded. */
  lemma PvtReadBack(p: seq<byte>)
    requires |p| == 92
    ensures |Flatten(PvtParts(p))| == PVT_LEN
    ensures DecodePvt(Flatten(PvtParts(p))) == if EdgeAccepts(p) then Some(PvtOf(PvtValues(p))) else None
  {
    hide EdgeAccepts, PvtOK, Flatten, Numbers, Le32, PvtOf, PvtValues, PvtCuts, Narrow;
    EdgeChecks(p);
    PvtNarrow(p);
    PvtTow(p);
    PvtLayout();
    NumbersDigits(PvtValues(p), PvtCuts(), PVT_LEN);
  }

  lemma ClockCommutes(p: seq<byte>)
    ensures ClockBlock(p).Some? <==> ParseClock(p).Some?
    ensures ClockBlock(p).Some? ==>
      |ClockBlock(p).value| == CLOCK_LEN && DecodeClock(ClockBlock(p).value) == ParseClock(p)
  {
    if |p| == 20 {
      ClockNarrow(p);
      NumbersDigits(ClockValues(p), ClockCuts(), CLOCK_LEN);
      hide Flatten, Numbers, Le32, Signed;
    }
  }

  lemma StatusCommutes(p: seq<byte>)
    ensures StatusBlock(p).Some? <==> ParseStatus(p).Some?
    ensures StatusBlock(p).Some? ==>
      |StatusBlock(p).value| == STATUS_LEN && DecodeStatus(StatusBlock(p).value) == ParseStatus(p)
  {
    if |p| == 16 {
      StatusNarrow(p);
      NumbersDigits(StatusValues(p), StatusCuts(), STATUS_LEN);
      hide Flatten, Numbers, Le32;
    }
  }

  // ----- the encoders as the edge writes them

  lemma OneByte(x: byte)
    ensures Put(x, 1) == [x]
  {
    assert Put(x, 1) == Put(x / 256, 0) + [x % 256];
  }

  lemma PvtPart(p: seq<byte>, k: nat)
    requires |p| == 92 && k < 25
    ensures |PvtParts(p)| == 25 && PvtCuts()[k] <= PvtCuts()[k + 1]
    ensures PvtParts(p)[k] == Put(PvtValues(p)[k], PvtCuts()[k + 1] - PvtCuts()[k])
  {
    hide Put, PvtValues, PvtCuts;
    PvtLayout();
  }

  predicate TimeFields(q: seq<seq<byte>>, p: seq<byte>)
    requires |p| == 92 && |q| == 25
  {
    && q[0] == Put(Le32(p, 0), 4) && q[1] == Put(Le16(p, 4), 2) && q[2] == Put(p[6], 1) && q[3] == Put(p[7], 1)
    && q[4] == Put(p[8], 1) && q[5] == Put(p[9], 1) && q[6] == Put(p[10], 1) && q[7] == Put(p[11] % 8, 1)
    && q[8] == Put(Le32(p, 12), 4)
  }

  lemma TimeParts(p: seq<byte>)
    requires |p| == 92
    ensures |PvtParts(p)| == 25 && TimeFields(PvtParts(p), p)
  {
    hide Put, PvtParts, Le32, Le16, FixFlags, Layout;
    PvtPart(p, 0); PvtPart(p, 1); PvtPart(p, 2); PvtPart(p, 3); PvtPart(p, 4);
    PvtPart(p, 5); PvtPart(p, 6); PvtPart(p, 7); PvtPart(p, 8);
  }

  predicate FixFields(q: seq<seq<byte>>, p: seq<byte>)
    requires |p| == 92 && |q| == 25
  {
    && q[9] == Put(Le32(p, 16), 4) && q[10] == Put(p[20], 1) && q[11] == Put(FixFlags(p[21]), 1)
    && q[12] == Put(p[23], 1)
    && q[13] == Put(0, 1) && q[14] == Put(Le32(p, 24), 4) && q[15] == Put(Le32(p, 28), 4)
    && q[16] == Put(Le32(p, 32), 4)
  }

  lemma FixParts(p: seq<byte>)
    requires |p| == 92
    ensures |PvtParts(p)| == 25 && FixFields(PvtParts(p), p)
  {
    hide Put, PvtParts, Le32, Le16, FixFlags, Layout;
    PvtPart(p, 9); PvtPart(p, 10); PvtPart(p, 11); PvtPart(p, 12); PvtPart(p, 13);
    PvtPart(p, 14); PvtPart(p, 15); PvtPart(p, 16);
  }

  predicate MotionFields(q: seq<seq<byte>>, p: seq<byte>)
    requires |p| == 92 && |q| == 25
  {
    && q[17] == Put(Le32(p, 40), 4) && q[18] == Put(Le32(p, 44), 4) && q[19] == Put(Le32(p, 48), 4)
    && q[20] == Put(Le32(p, 52), 4)
    && q[21] == Put(Le32(p, 56), 4) && q[22] == Put(Le32(p, 68), 4) && q[23] == Put(Le16(p, 76), 2)
    && q[24] == Put(Le16(p, 78) % 2, 2)
  }

  lemma MotionParts(p: seq<byte>)
    requires |p| == 92
    ensures |PvtParts(p)| == 25 && MotionFields(PvtParts(p), p)
  {
    hide Put, PvtParts, Le32, Le16, FixFlags, Layout;
    PvtPart(p, 17); PvtPart(p, 18); PvtPart(p, 19); PvtPart(p, 20); PvtPart(p, 21);
    PvtPart(p, 22); PvtPart(p, 23); PvtPart(p, 24);
  }

  method WriteTime(p: seq<byte>, out: array<byte>, ghost parts: seq<seq<byte>>)
    requires |p| == 92 && out.Length == PVT_LEN && |parts| == 25 && TimeFields(parts, p)
    requires Filled(out, 0, parts, 0)
    modifies out
    ensures Filled(out, 16, parts, 9)
  {
    hide Put, Flatten, Filled, Le32, Le16, FixFlags;
    PutAt(out, 0, Le32(p, 0), 4, parts, 0);
    PutAt(out, 4, Le16(p, 4), 2, parts, 1);
    PutAt(out, 6, p[6], 1, parts, 2);
    PutAt(out, 7, p[7], 1, parts, 3);
    PutAt(out, 8, p[8], 1, parts, 4);
    PutAt(out, 9, p[9], 1, parts, 5);
    PutAt(out, 10, p[10], 1, parts, 6);
    PutAt(out, 11, p[11] % 8, 1, parts, 7);
    PutAt(out, 12, Le32(p, 12), 4, parts, 8);
  }

  method WriteFix(p: seq<byte>, out: array<byte>, ghost parts: seq<seq<byte>>)
    requires |p| == 92 && out.Length == PVT_LEN && |parts| == 25 && FixFields(parts, p)
    requires Filled(out, 16, parts, 9)
    modifies out
    ensures Filled(out, 36, parts, 17)
  {
    hide Put, Flatten, Filled, Le32, Le16, FixFlags;
    PutAt(out, 16, Le32(p, 16), 4, parts, 9);
    PutAt(out, 20, p[20], 1, parts, 10);
    PutAt(out, 21, FixFlags(p[21]), 1, parts, 11);
    PutAt(out, 22, p[23], 1, parts, 12);
    OneByte(0);
    Reserved(out, 23, parts, 13);
    PutAt(out, 24, Le32(p, 24), 4, parts, 14);
    PutAt(out, 28, Le32(p, 28), 4, parts, 15);
    PutAt(out, 32, Le32(p, 32), 4, parts, 16);
  }

  method WriteMotion(p: seq<byte>, out: array<byte>, ghost parts: seq<seq<byte>>)
    requires |p| == 92 && out.Length == PVT_LEN && |parts| == 25 && MotionFields(parts, p)
    requires Filled(out, 36, parts, 17)
    modifies out
    ensures Filled(out, 64, parts, 25)
  {
    hide Put, Flatten, Filled, Le32, Le16, FixFlags;
    PutAt(out, 36, Le32(p, 40), 4, parts, 17);
    PutAt(out, 40, Le32(p, 44), 4, parts, 18);
    PutAt(out, 44, Le32(p, 48), 4, parts, 19);
    PutAt(out, 48, Le32(p, 52), 4, parts, 20);
    PutAt(out, 52, Le32(p, 56), 4, parts, 21);
    PutAt(out, 56, Le32(p, 68), 4, parts, 22);
    PutAt(out, 60, Le16(p, 76), 2, parts, 23);
    PutAt(out, 62, Le16(p, 78) % 2, 2, parts, 24);
  }

  /** `rs_pvt_block` in place. */
  method WritePvt(p: seq<byte>, out: array<byte>) returns (ok: bool, tow: nat)
    requires out.Length == PVT_LEN
    modifies out
    ensures ok == PvtBlock(p).Some?
    ensures ok ==> out[..] == PvtBlock(p).value && tow == ParsePvt(p).value.tow
    ensures !ok ==> out[..] == old(out[..])
  {
    PvtCommutes(p);
    if |p| != 92 || !EdgeAccepts(p) { return false, 0; }
    hide EdgeAccepts, Put, Flatten, Filled, PvtParts, Le32, ParsePvt, TimeFields, FixFields, MotionFields;
    ghost var parts := PvtParts(p);
    TimeParts(p);
    FixParts(p);
    MotionParts(p);
    Clear(out, parts);
    WriteTime(p, out, parts);
    WriteFix(p, out, parts);
    WriteMotion(p, out, parts);
    Whole(out, parts);
    return true, Le32(p, 0);
  }

  /** Word `i` of a clock payload. */
  lemma ClockPart(p: seq<byte>, i: nat)
    requires |p| == 20 && i < 5
    ensures |ClockParts(p)| == 5 && ClockParts(p)[i] == Put(Le32(p, 4 * i), 4)
  {
    SmallLayouts();
    hide Put, Le32;
  }

  /** `rs_clock_block` in place. */
  method WriteClock(p: seq<byte>, out: array<byte>) returns (ok: bool, tow: nat)
    requires out.Length == CLOCK_LEN
    modifies out
    ensures ok == ClockBlock(p).Some?
    ensures ok ==> out[..] == ClockBlock(p).value && tow == ParseClock(p).value.tow
    ensures !ok ==> out[..] == old(out[..])
  {
    hide Put, Flatten, Filled, Le32, ClockParts;
    if |p| != 20 || Le32(p, 0) >= WEEK_MS { return false, 0; }
    ghost var parts := ClockParts(p);
    Clear(out, parts);
    for i := 0 to 5
      invariant Filled(out, 4 * i, parts, i)
    {
      ClockPart(p, i);
      PutAt(out, 4 * i, Le32(p, 4 * i), 4, parts, i);
    }
    ClockPart(p, 0);
    Whole(out, parts);
    return true, Le32(p, 0);
  }

  lemma StatusFields(p: seq<byte>)
    requires |p| == 16
    ensures var q, v := StatusParts(p), StatusValues(p);
            && |q| == 7 && q[0] == Put(v[0], 4) && q[1] == Put(v[1], 1) && q[2] == Put(v[2], 1) && q[3] == Put(v[3], 1)
            && q[4] == Put(v[4], 1) && q[5] == Put(v[5], 4) && q[6] == Put(v[6], 4)
  {
    SmallLayouts();
    hide Put, StatusValues;
  }

  /** `rs_status_block` in place. */
  method WriteStatus(p: seq<byte>, out: array<byte>) returns (ok: bool, tow: nat)
    requires out.Length == STATUS_LEN
    modifies out
    ensures ok == StatusBlock(p).Some?
    ensures ok ==> out[..] == StatusBlock(p).value && tow == ParseStatus(p).value.tow
    ensures !ok ==> out[..] == old(out[..])
  {
    hide Put, Flatten, Filled, Le32, StatusParts;
    if |p| != 16 || Le32(p, 0) >= WEEK_MS || p[4] > 5 { return false, 0; }
    ghost var parts := StatusParts(p);
    StatusFields(p);
    Clear(out, parts);
    PutAt(out, 0, Le32(p, 0), 4, parts, 0);
    PutAt(out, 4, p[4], 1, parts, 1);
    PutAt(out, 5, p[5], 1, parts, 2);
    PutAt(out, 6, p[6], 1, parts, 3);
    PutAt(out, 7, p[7] / 8 % 4, 1, parts, 4);
    PutAt(out, 8, Le32(p, 8), 4, parts, 5);
    PutAt(out, 12, Le32(p, 12), 4, parts, 6);
    Whole(out, parts);
    return true, Le32(p, 0);
  }
}
