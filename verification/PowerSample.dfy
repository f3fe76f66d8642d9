/** The 256-byte received-power sample (common/reception_power.h). */
module PowerSample {
  import opened BigEndian
  import opened Wire
  import opened ReceptionMasks

  const SAMPLE_SIZE := 256
  const MAX_ENTRIES := 128

  type Bytes128 = s: seq<byte> | |s| == 128 witness seq(128, _ => 0)

  datatype Verdict = Verdict(localValid: byte, localAlarm: byte, remoteValid: byte, remoteAlarm: byte)

  datatype Identity = Identity(expectationId: U64, remoteModelId: U64, localModelId: U64, utc: U64, uptimeMs: U64)

  /** `nrp_assessment_t`: two bitmaps over the entries. */
  datatype Assessment = Assessment(valid: Bytes16, bad: Bytes16)

  /** `nrp_sample_t`. */
  datatype Sample = Sample(
    count: byte, flags: byte, v: Verdict, id: Identity,
    observedValid: Bytes16, observed: Bytes128, local: Assessment, remote: Assessment)

  // ----- what an acceptable sample is

  /** Entry `i` is marked in a bitmap. */
  predicate Mark(bits: Bytes16, i: nat)
    requires i < MAX_ENTRIES
  {
    In(bits[i / 8], i % 8)
  }

  /** No entry from `count` on is marked. */
  predicate TailClear(bits: Bytes16, count: nat) { forall i :: count <= i < MAX_ENTRIES ==> !Mark(bits, i) }

  /** Every entry marked in `a` is marked in `b`. */
  predicate Covered(a: Bytes16, b: Bytes16) { forall i :: 0 <= i < MAX_ENTRIES ==> Mark(a, i) ==> Mark(b, i) }

  predicate Measured(valid: Bytes16, observed: Bytes128) {
    forall i :: 0 <= i < MAX_ENTRIES ==> Mark(valid, i) ==> 1 <= observed[i] <= 99
  }

  predicate Blank(a: Assessment) { forall i :: 0 <= i < 16 ==> a.valid[i] == 0 && a.bad[i] == 0 }

  /** Anomalous entries are assessed ones, assessed entries are measured ones, measured entries are
      below the count and lie in 1..99. */
  predicate BitmapsOK(s: Sample) {
    && TailClear(s.observedValid, s.count) && Measured(s.observedValid, s.observed)
    && Covered(s.local.valid, s.observedValid) && Covered(s.remote.valid, s.observedValid)
    && Covered(s.local.bad, s.local.valid) && Covered(s.remote.bad, s.remote.valid)
  }

  predicate HeaderOK(count: byte, flags: byte, v: Verdict, id: Identity) {
    && count <= MAX_ENTRIES && FlagsOK(flags)
    && !Bit4(v.localValid) && !Bit4(v.localAlarm) && !Bit4(v.remoteValid) && !Bit4(v.remoteAlarm)
    && id.expectationId != 0 && UTC_MIN <= id.utc < UTC_MAX
  }

  /** A model is in use exactly when it has an id; an unused model has no verdict and no assessment. */
  predicate ModelOK(used: bool, id: U64, valid: byte, alarm: byte, a: Assessment) {
    if used then id != 0 else Absent(id, valid, alarm, a)
  }

  predicate Absent(id: U64, valid: byte, alarm: byte, a: Assessment) {
    id == 0 && valid == 0 && alarm == 0 && Blank(a)
  }

  predicate SampleOK(s: Sample) {
    && HeaderOK(s.count, s.flags, s.v, s.id) && BitmapsOK(s)
    && ModelOK(Local(s.flags), s.id.localModelId, s.v.localValid, s.v.localAlarm, s.local)
    && ModelOK(Remote(s.flags), s.id.remoteModelId, s.v.remoteValid, s.v.remoteAlarm, s.remote)
  }

  // ----- the checks as the code makes them

  /** `nrp_tail_clear`. */
  method CheckTail(bits: Bytes16, count: byte) returns (ok: bool)
    ensures ok == TailClear(bits, count)
  {
    hide In;
    var i: nat := count;
    while i < MAX_ENTRIES
      invariant count <= i
      invariant forall j :: count <= j < i && j < MAX_ENTRIES ==> !Mark(bits, j)
    {
      if Mark(bits, i) { return false; }
      i := i + 1;
    }
    return true;
  }

  lemma CoveredBytes(a: Bytes16, b: Bytes16)
    ensures Covered(a, b) <==> forall i :: 0 <= i < 16 ==> Within(a[i], b[i])
  {
    hide In, Within;
    if Covered(a, b) {
      forall i | 0 <= i < 16
        ensures Within(a[i], b[i])
      {
        forall g | 0 <= g < 8
          ensures In(a[i], g) ==> In(b[i], g)
        {
          assert Mark(a, 8 * i + g) ==> Mark(b, 8 * i + g);
        }
        WithinIn(a[i], b[i]);
      }
    }
    if forall i :: 0 <= i < 16 ==> Within(a[i], b[i]) {
      forall i | 0 <= i < MAX_ENTRIES
        ensures Mark(a, i) ==> Mark(b, i)
      {
        WithinIn(a[i / 8], b[i / 8]);
      }
    }
  }

  /** `(a | b) & ~c` is zero. */
  predicate EitherWithin(a: byte, b: byte, c: byte) { (Bv(a) | Bv(b)) & !Bv(c) == 0 }

  lemma EitherBoth(x: bv8, y: bv8, z: bv8)
    ensures (x | y) & !z == 0 <==> x & !z == 0 && y & !z == 0
  {
  }

  lemma EitherMeaning(a: byte, b: byte, c: byte)
    ensures EitherWithin(a, b, c) <==> Within(a, c) && Within(b, c)
  {
    EitherBoth(Bv(a), Bv(b), Bv(c));
    hide Bv;
  }

  /** The byte loop: assessed entries are measured entries. */
  method CheckAssessed(local: Bytes16, remote: Bytes16, observed: Bytes16) returns (ok: bool)
    ensures ok == (Covered(local, observed) && Covered(remote, observed))
  {
    hide Within, EitherWithin, Covered;
    CoveredBytes(local, observed);
    CoveredBytes(remote, observed);
    for i := 0 to 16
      invariant forall j :: 0 <= j < i ==> Within(local[j], observed[j]) && Within(remote[j], observed[j])
    {
      EitherMeaning(local[i], remote[i], observed[i]);
      if !EitherWithin(local[i], remote[i], observed[i]) { return false; }
    }
    return true;
  }

  /** What the entry loop demands of entry `i`. */
  predicate EntryOK(s: Sample, i: nat)
    requires i < MAX_ENTRIES
  {
    && !(Mark(s.local.bad, i) && !Mark(s.local.valid, i))
    && !(Mark(s.remote.bad, i) && !Mark(s.remote.valid, i))
    && !(Mark(s.observedValid, i) && (s.observed[i] == 0 || s.observed[i] > 99))
  }

  method CheckEntries(s: Sample) returns (ok: bool)
    requires s.count <= MAX_ENTRIES
    ensures ok == forall i :: 0 <= i < s.count ==> EntryOK(s, i)
  {
    hide Mark;
    for i := 0 to s.count
      invariant forall j :: 0 <= j < i ==> EntryOK(s, j)
    {
      if !EntryOK(s, i) { return false; }
    }
    return true;
  }

  predicate TailsClear(s: Sample) {
    && TailClear(s.observedValid, s.count) && TailClear(s.local.valid, s.count) && TailClear(s.local.bad, s.count)
    && TailClear(s.remote.valid, s.count) && TailClear(s.remote.bad, s.count)
  }

  /** With clear tails, the checks of the entries below the count say everything about the bitmaps. */
  lemma ChecksSuffice(s: Sample)
    requires s.count <= MAX_ENTRIES
    ensures BitmapsOK(s) <==>
      && TailsClear(s) && Covered(s.local.valid, s.observedValid) && Covered(s.remote.valid, s.observedValid)
      && forall i :: 0 <= i < s.count ==> EntryOK(s, i)
  {
    hide Mark;
    if TailsClear(s) && forall i :: 0 <= i < s.count ==> EntryOK(s, i) {
      forall i | 0 <= i < MAX_ENTRIES
        ensures Mark(s.local.bad, i) ==> Mark(s.local.valid, i)
        ensures Mark(s.remote.bad, i) ==> Mark(s.remote.valid, i)
        ensures Mark(s.observedValid, i) ==> 1 <= s.observed[i] <= 99
      {
        assert i < s.count ==> EntryOK(s, i);
      }
    }
  }

  // ----- the wire

  function Cuts(): seq<nat> { [0, 1, 2, 3, 4, 5, 6, 7, 8, 16, 24, 32, 40, 48, 64, 192, 208, 224, 240, 256] }

  lemma CutsOK()
    ensures Layout(Cuts(), SAMPLE_SIZE)
  {
  }

  predicate Shaped(p: seq<seq<byte>>) {
    && |p| == 19
    && |p[0]| == 1 && |p[1]| == 1 && |p[2]| == 1 && |p[3]| == 1 && |p[4]| == 1 && |p[5]| == 1 && |p[6]| == 1
    && |p[7]| == 1
    && |p[8]| == 8 && |p[9]| == 8 && |p[10]| == 8 && |p[11]| == 8 && |p[12]| == 8
    && |p[13]| == 16 && |p[14]| == 128 && |p[15]| == 16 && |p[16]| == 16 && |p[17]| == 16 && |p[18]| == 16
  }

  lemma ShapedFits(p: seq<seq<byte>>)
    requires Shaped(p)
    ensures Fits(p, Cuts())
  {
  }

  /** The record's three runs of fields: bytes, integers, bitmaps. */
  function Heads(s: Sample): (p: seq<seq<byte>>)
    ensures |p| == 8 && forall i :: 0 <= i < 8 ==> |p[i]| == 1
  {
    [[1], [s.count], [s.flags], [s.v.localValid], [s.v.localAlarm], [s.v.remoteValid], [s.v.remoteAlarm], [0]]
  }

  function Integers(id: Identity): (p: seq<seq<byte>>)
    ensures |p| == 5 && forall i :: 0 <= i < 5 ==> |p[i]| == 8
  {
    hide Put;
    [Put(id.expectationId, 8), Put(id.remoteModelId, 8), Put(id.localModelId, 8), Put(id.utc, 8), Put(id.uptimeMs, 8)]
  }

  function Bitmaps(s: Sample): (p: seq<seq<byte>>)
    ensures |p| == 6 && |p[0]| == 16 && |p[1]| == 128 && |p[2]| == 16 && |p[3]| == 16 && |p[4]| == 16 && |p[5]| == 16
  {
    [s.observedValid, s.observed, s.local.valid, s.local.bad, s.remote.valid, s.remote.bad]
  }

  function ToParts(s: Sample): (p: seq<seq<byte>>)
    ensures Shaped(p)
  {
    hide Heads, Integers, Bitmaps;
    Heads(s) + Integers(s.id) + Bitmaps(s)
  }

  function FromParts(p: seq<seq<byte>>): (s: Sample)
    requires Shaped(p)
  {
    Sample(p[1][0], p[2][0], Verdict(p[3][0], p[4][0], p[5][0], p[6][0]),
           Identity(Int64(p[8]), Int64(p[9]), Int64(p[10]), Int64(p[11]), Int64(p[12])),
           p[13], p[14], Assessment(p[15], p[16]), Assessment(p[17], p[18]))
  }

  lemma FromTo(s: Sample)
    ensures FromParts(ToParts(s)) == s
  {
    Back8(s.id.expectationId); Back8(s.id.remoteModelId); Back8(s.id.localModelId); Back8(s.id.utc);
    Back8(s.id.uptimeMs);
    hide Put, Get;
  }

  lemma ToFrom(p: seq<seq<byte>>)
    requires Shaped(p) && p[0] == [1] && p[7] == [0]
    ensures ToParts(FromParts(p)) == p
  {
    hide Put, Get, Int64;
    var q := ToParts(FromParts(p));
    assert q[1] == p[1] && q[2] == p[2] && q[3] == p[3] && q[4] == p[4] && q[5] == p[5] && q[6] == p[6];
  }

  function EncodeSample(s: Sample): (b: seq<byte>) { Flatten(ToParts(s)) }

  /** The fields of an encoded sample, cut at the wire's offsets. */
  function Fields(b: seq<byte>): (p: seq<seq<byte>>)
    requires |b| == SAMPLE_SIZE
    ensures Shaped(p)
  {
    [b[0..1], b[1..2], b[2..3], b[3..4], b[4..5], b[5..6], b[6..7], b[7..8], b[8..16], b[16..24], b[24..32],
     b[32..40], b[40..48], b[48..64], b[64..192], b[192..208], b[208..224], b[224..240], b[240..256]]
  }

  lemma FieldsJoin(b: seq<byte>)
    requires |b| == SAMPLE_SIZE
    ensures Layout(Cuts(), |b|) && Fields(b) == Parts(b, Cuts()) && Flatten(Fields(b)) == b
  {
    hide Flatten, Layout, Shaped, Fits;
    CutsOK();
    ShapedFits(Fields(b));
    FlattenParts(b, Cuts());
    assert Fields(b) == Parts(b, Cuts());
  }

  lemma FieldsFlatten(p: seq<seq<byte>>)
    requires Shaped(p)
    ensures |Flatten(p)| == SAMPLE_SIZE && Fields(Flatten(p)) == p
  {
    hide Flatten, Fields;
    CutsOK();
    ShapedFits(p);
    PartsFlatten(p, Cuts(), SAMPLE_SIZE);
    FieldsJoin(Flatten(p));
  }

  function DecodeSample(b: seq<byte>): (r: Option<Sample>) {
    if |b| != SAMPLE_SIZE || b[0] != 1 || b[7] != 0 then None
    else
      var s := FromParts(Fields(b));
      if SampleOK(s) then Some(s) else None
  }

  lemma SampleRoundTrip(s: Sample)
    ensures DecodeSample(EncodeSample(s)) == if SampleOK(s) then Some(s) else None
  {
    hide SampleOK, FromParts, Flatten;
    var p := ToParts(s);
    FieldsFlatten(p);
    FromTo(s);
    assert p[0] == Flatten(p)[0..1] && p[7] == Flatten(p)[7..8];
  }

  lemma SampleCanonical(b: seq<byte>)
    requires DecodeSample(b).Some?
    ensures SampleOK(DecodeSample(b).value) && EncodeSample(DecodeSample(b).value) == b
  {
    hide SampleOK, FromParts, Flatten, ToParts, Shaped;
    assert Fields(b)[0] == [1] && Fields(b)[7] == [0];
    hide Fields;
    FieldsJoin(b);
    ToFrom(Fields(b));
  }

  /** The codec is a bijection between accepted byte strings and valid samples. */
  lemma SampleBijection(b: seq<byte>, s: Sample)
    ensures DecodeSample(b) == Some(s) <==> SampleOK(s) && b == EncodeSample(s)
  {
    hide *;
    SampleRoundTrip(s);
    if DecodeSample(b).Some? { SampleCanonical(b); }
  }

  /** Where the wire carries each field. */
  predicate Carries(b: seq<byte>, s: Sample) {
    && |b| == 256 && b[0] == 1 && b[1] == s.count && b[2] == s.flags && b[7] == 0
    && b[3] == s.v.localValid && b[4] == s.v.localAlarm && b[5] == s.v.remoteValid && b[6] == s.v.remoteAlarm
    && Get(b[8..16]) == s.id.expectationId && Get(b[16..24]) == s.id.remoteModelId
    && Get(b[24..32]) == s.id.localModelId && Get(b[32..40]) == s.id.utc && Get(b[40..48]) == s.id.uptimeMs
    && b[48..64] == s.observedValid && b[64..192] == s.observed && b[192..208] == s.local.valid
    && b[208..224] == s.local.bad && b[224..240] == s.remote.valid && b[240..256] == s.remote.bad
  }

  /** Entry `i` of the bitmap at offset `o`. */
  predicate Entry(b: seq<byte>, o: nat, i: nat)
    requires i < 128 && o + 16 <= |b|
  {
    In(b[o + i / 8], i % 8)
  }

  /** One model's part of a record: with its flag an identity, without it nothing at all. */
  predicate ModelWire(b: seq<byte>, used: bool, id: nat, masks: nat, maps: nat)
    requires |b| == 256 && id + 8 <= 256 && masks + 2 <= 256 && maps + 32 <= 256
  {
    if used then Get(b[id..id + 8]) != 0
    else
      && Get(b[id..id + 8]) == 0 && b[masks] == 0 && b[masks + 1] == 0
      && forall i :: maps <= i < maps + 32 ==> b[i] == 0
  }

  /** What the bytes of an acceptable record look like. */
  predicate WireOK(b: seq<byte>) {
    && |b| == 256 && b[0] == 1 && b[7] == 0 && b[1] <= 128 && b[2] < 4
    && (forall i :: 3 <= i < 7 ==> b[i] / 16 % 2 == 0)
    && Get(b[8..16]) != 0 && 946684800 <= Get(b[32..40]) < 4102444800
    && ModelWire(b, b[2] == 1 || b[2] == 3, 24, 3, 192) && ModelWire(b, b[2] == 2 || b[2] == 3, 16, 5, 224)
    && (forall i :: 0 <= i < 128 && Entry(b, 48, i) ==> i < b[1] && 1 <= b[64 + i] <= 99)
    && (forall i :: 0 <= i < 128 && (Entry(b, 192, i) || Entry(b, 224, i)) ==> Entry(b, 48, i))
    && (forall i :: 0 <= i < 128 && Entry(b, 208, i) ==> Entry(b, 192, i))
    && (forall i :: 0 <= i < 128 && Entry(b, 240, i) ==> Entry(b, 224, i))
  }

  lemma WireFields(b: seq<byte>)
    requires |b| == SAMPLE_SIZE
    ensures var s := FromParts(Fields(b)); b[0] == 1 && b[7] == 0 ==> Carries(b, s)
  {
    hide Get;
  }

  lemma WireBitmaps(b: seq<byte>, s: Sample)
    requires Carries(b, s)
    ensures forall i :: 0 <= i < 128 ==> Entry(b, 48, i) == Mark(s.observedValid, i) && b[64 + i] == s.observed[i]
    ensures forall i :: 0 <= i < 128 ==> Entry(b, 192, i) == Mark(s.local.valid, i)
    ensures forall i :: 0 <= i < 128 ==> Entry(b, 208, i) == Mark(s.local.bad, i)
    ensures forall i :: 0 <= i < 128 ==> Entry(b, 224, i) == Mark(s.remote.valid, i)
    ensures forall i :: 0 <= i < 128 ==> Entry(b, 240, i) == Mark(s.remote.bad, i)
  {
    hide In, Get;
  }

  lemma WireHeader(b: seq<byte>, s: Sample)
    requires Carries(b, s)
    ensures HeaderOK(s.count, s.flags, s.v, s.id) <==>
      b[1] <= 128 && b[2] < 4 && (forall i :: 3 <= i < 7 ==> b[i] / 16 % 2 == 0) && Get(b[8..16]) != 0
        && 946684800 <= Get(b[32..40]) < 4102444800
  {
    FlagValues(b[2]);
    BitFour(b[3]); BitFour(b[4]); BitFour(b[5]); BitFour(b[6]);
    hide Get, FlagsOK, Bit4, Local, Remote;
  }

  lemma WireModels(b: seq<byte>, s: Sample)
    requires Carries(b, s) && FlagsOK(s.flags)
    ensures ModelWire(b, b[2] == 1 || b[2] == 3, 24, 3, 192) <==>
      ModelOK(Local(s.flags), s.id.localModelId, s.v.localValid, s.v.localAlarm, s.local)
    ensures ModelWire(b, b[2] == 2 || b[2] == 3, 16, 5, 224) <==>
      ModelOK(Remote(s.flags), s.id.remoteModelId, s.v.remoteValid, s.v.remoteAlarm, s.remote)
  {
    FlagValues(b[2]);
    hide Get, FlagsOK, Local, Remote;
    ZeroMaps(b, 192, s.local);
    ZeroMaps(b, 224, s.remote);
  }

  lemma ZeroMaps(b: seq<byte>, o: nat, a: Assessment)
    requires o + 32 <= |b| && b[o..o + 16] == a.valid && b[o + 16..o + 32] == a.bad
    ensures Blank(a) <==> forall i :: o <= i < o + 32 ==> b[i] == 0
  {
    assert forall i :: 0 <= i < 16 ==> a.valid[i] == b[o + i] && a.bad[i] == b[o + 16 + i];
    if Blank(a) {
      forall i | o <= i < o + 32
        ensures b[i] == 0
      {
        if i < o + 16 { assert a.valid[i - o] == b[i]; } else { assert a.bad[i - o - 16] == b[i]; }
      }
    }
  }

  /** The decoder on the bytes of the wire: what it accepts, and the sample it reads. */
  lemma DecodeWire(b: seq<byte>, s: Sample)
    ensures DecodeSample(b) == Some(s) <==> WireOK(b) && Carries(b, s)
  {
    hide Get, Fields, FromParts, HeaderOK, ModelOK, ModelWire, Entry, Mark, FlagsOK;
    if |b| == 256 && b[0] == 1 && b[7] == 0 {
      var r := FromParts(Fields(b));
      WireFields(b);
      CarriesOne(b, r, s);
      WireBitmaps(b, r);
      WireHeader(b, r);
      if FlagsOK(r.flags) { WireModels(b, r); }
      HeaderFlags(r);
    }
  }

  lemma HeaderFlags(s: Sample)
    ensures HeaderOK(s.count, s.flags, s.v, s.id) ==> FlagsOK(s.flags)
  {
  }

  lemma CarriesOne(b: seq<byte>, r: Sample, s: Sample)
    requires Carries(b, r)
    ensures Carries(b, s) <==> r == s
  {
    hide Get;
  }

  lemma PartsAre(s: Sample)
    ensures var p := ToParts(s);
            p[..8] == Heads(s) && p[8..13] == Integers(s.id) && p[13..] == Bitmaps(s)
  {
    hide Heads, Integers, Bitmaps;
  }

  method WriteHeads(b: array<byte>, s: Sample, ghost p: seq<seq<byte>>)
    requires b.Length == SAMPLE_SIZE && |p| == 19 && p[..8] == Heads(s) && Filled(b, 0, p, 0)
    modifies b
    ensures Filled(b, 8, p, 8)
  {
    hide Filled;
    assert p[0] == [1] && p[1] == [s.count] && p[2] == [s.flags] && p[3] == [s.v.localValid];
    assert p[4] == [s.v.localAlarm] && p[5] == [s.v.remoteValid] && p[6] == [s.v.remoteAlarm] && p[7] == [0];
    Copy(b, 0, [1], p, 0);
    Copy(b, 1, [s.count], p, 1);
    Copy(b, 2, [s.flags], p, 2);
    Copy(b, 3, [s.v.localValid], p, 3);
    Copy(b, 4, [s.v.localAlarm], p, 4);
    Copy(b, 5, [s.v.remoteValid], p, 5);
    Copy(b, 6, [s.v.remoteAlarm], p, 6);
    Reserved(b, 7, p, 7);
  }

  method WriteIntegers(b: array<byte>, id: Identity, ghost p: seq<seq<byte>>)
    requires b.Length == SAMPLE_SIZE && |p| == 19 && p[8..13] == Integers(id) && Filled(b, 8, p, 8)
    modifies b
    ensures Filled(b, 48, p, 13)
  {
    hide Filled, Put;
    assert forall i :: 0 <= i < 5 ==> p[8 + i] == p[8..13][i];
    PutAt(b, 8, id.expectationId, 8, p, 8);
    PutAt(b, 16, id.remoteModelId, 8, p, 9);
    PutAt(b, 24, id.localModelId, 8, p, 10);
    PutAt(b, 32, id.utc, 8, p, 11);
    PutAt(b, 40, id.uptimeMs, 8, p, 12);
  }

  method WriteBitmaps(b: array<byte>, s: Sample, ghost p: seq<seq<byte>>)
    requires b.Length == SAMPLE_SIZE && |p| == 19 && p[13..] == Bitmaps(s) && Filled(b, 48, p, 13)
    modifies b
    ensures Filled(b, 256, p, 19)
  {
    hide Filled;
    assert forall i :: 0 <= i < 6 ==> p[13 + i] == p[13..][i];
    Copy(b, 48, s.observedValid, p, 13);
    Copy(b, 64, s.observed, p, 14);
    Copy(b, 192, s.local.valid, p, 15);
    Copy(b, 208, s.local.bad, p, 16);
    Copy(b, 224, s.remote.valid, p, 17);
    Copy(b, 240, s.remote.bad, p, 18);
  }

  /** `nrp_encode_sample`. */
  method EncodeInto(b: array<byte>, s: Sample)
    requires b.Length == SAMPLE_SIZE
    modifies b
    ensures b[..] == EncodeSample(s)
  {
    hide Filled, Flatten, ToParts, Heads, Integers, Bitmaps;
    ghost var p := ToParts(s);
    PartsAre(s);
    Clear(b, p);
    WriteHeads(b, s, p);
    WriteIntegers(b, s.id, p);
    WriteBitmaps(b, s, p);
    Whole(b, p);
  }

  /** The bitmap checks in program order. */
  method CheckBitmaps(s: Sample) returns (ok: bool)
    requires s.count <= MAX_ENTRIES
    ensures ok == BitmapsOK(s)
  {
    hide BitmapsOK, TailClear, Covered, EntryOK;
    ChecksSuffice(s);
    var t0 := CheckTail(s.observedValid, s.count);
    var t1 := CheckTail(s.local.valid, s.count);
    var t2 := CheckTail(s.local.bad, s.count);
    var t3 := CheckTail(s.remote.valid, s.count);
    var t4 := CheckTail(s.remote.bad, s.count);
    if !(t0 && t1 && t2 && t3 && t4) { return false; }
    var assessed := CheckAssessed(s.local.valid, s.remote.valid, s.observedValid);
    if !assessed { return false; }
    ok := CheckEntries(s);
  }

  /** `nrp_decode_sample`. */
  method Decode(b: seq<byte>) returns (r: Option<Sample>)
    ensures r == DecodeSample(b)
  {
    hide FromParts, Fields, BitmapsOK, FlagsOK, Local, Remote, Absent, Bit4;
    if |b| != SAMPLE_SIZE || b[0] != 1 || b[7] != 0 { return None; }
    var s := FromParts(Fields(b));
    if !HeaderOK(s.count, s.flags, s.v, s.id) { return None; }
    var ok := CheckBitmaps(s);
    if !ok { return None; }
    if (Local(s.flags) && s.id.localModelId == 0) || (Remote(s.flags) && s.id.remoteModelId == 0) { return None; }
    if !Local(s.flags) && !Absent(s.id.localModelId, s.v.localValid, s.v.localAlarm, s.local) { return None; }
    if !Remote(s.flags) && !Absent(s.id.remoteModelId, s.v.remoteValid, s.v.remoteAlarm, s.remote) { return None; }
    return Some(s);
  }
}
