/** The 76-byte reception sample (common/reception.h). */
module ReceptionSample {
  import opened BigEndian
  import opened Wire
  import opened ReceptionMasks

  const SAMPLE_SIZE := 76

  /** `nr_sample_t`. */
  datatype Sample = Sample(
    valid: byte, alarm: byte,
    expectationId: U64, utc: U64, uptimeMs: U64, boot: U64, event: U64,
    matched: Bytes16, expected: Bytes8, observed: Bytes8)

  /** What a sample must satisfy to be accepted. */
  predicate SampleOK(s: Sample) { !Bit4(s.valid) && !Bit4(s.alarm) }

  function Cuts(): seq<nat> { [0, 1, 2, 3, 4, 12, 20, 28, 36, 44, 60, 68, 76] }

  lemma CutsOK()
    ensures Layout(Cuts(), SAMPLE_SIZE)
  {
  }

  /** The widths between those cuts. */
  predicate Shaped(p: seq<seq<byte>>) {
    && |p| == 12 && |p[0]| == 1 && |p[1]| == 1 && |p[2]| == 1 && |p[3]| == 1 && |p[4]| == 8 && |p[5]| == 8
    && |p[6]| == 8 && |p[7]| == 8 && |p[8]| == 8 && |p[9]| == 16 && |p[10]| == 8 && |p[11]| == 8
  }

  lemma ShapedFits(p: seq<seq<byte>>)
    ensures Shaped(p) <==> Fits(p, Cuts())
  {
    var c := Cuts();
    if Fits(p, c) {
      assert c[0] + |p[0]| == c[1] && c[1] + |p[1]| == c[2] && c[2] + |p[2]| == c[3] && c[3] + |p[3]| == c[4];
      assert c[4] + |p[4]| == c[5] && c[5] + |p[5]| == c[6] && c[6] + |p[6]| == c[7] && c[7] + |p[7]| == c[8];
      assert c[8] + |p[8]| == c[9] && c[9] + |p[9]| == c[10] && c[10] + |p[10]| == c[11] && c[11] + |p[11]| == c[12];
    }
  }

  function ToParts(s: Sample): (p: seq<seq<byte>>)
    ensures Shaped(p)
  {
    [[1], [s.valid], [s.alarm], [0], Put(s.expectationId, 8), Put(s.utc, 8), Put(s.uptimeMs, 8),
     Put(s.boot, 8), Put(s.event, 8), s.matched, s.expected, s.observed]
  }

  function FromParts(p: seq<seq<byte>>): (s: Sample)
    requires Shaped(p)
  {
    Sample(p[1][0], p[2][0], Int64(p[4]), Int64(p[5]), Int64(p[6]), Int64(p[7]), Int64(p[8]), p[9], p[10], p[11])
  }

  lemma FromTo(s: Sample)
    ensures FromParts(ToParts(s)) == s
  {
    Back8(s.expectationId); Back8(s.utc); Back8(s.uptimeMs); Back8(s.boot); Back8(s.event);
    hide Put, Get;
  }

  lemma ToFrom(p: seq<seq<byte>>)
    requires Shaped(p) && p[0] == [1] && p[3] == [0]
    ensures ToParts(FromParts(p)) == p
  {
    hide Put, Get, Int64;
    var q := ToParts(FromParts(p));
    assert q[1] == p[1] && q[2] == p[2];
  }

  function EncodeSample(s: Sample): (b: seq<byte>) { Flatten(ToParts(s)) }

  /** The fields of an encoded sample, cut at the wire's offsets. */
  function Fields(b: seq<byte>): (p: seq<seq<byte>>)
    requires |b| == SAMPLE_SIZE
    ensures Shaped(p)
  {
    [b[0..1], b[1..2], b[2..3], b[3..4], b[4..12], b[12..20], b[20..28], b[28..36], b[36..44],
     b[44..60], b[60..68], b[68..76]]
  }

  lemma FieldsJoin(b: seq<byte>)
    requires |b| == SAMPLE_SIZE
    ensures Layout(Cuts(), |b|) && Fields(b) == Parts(b, Cuts()) && Flatten(Fields(b)) == b
  {
    CutsOK();
    ShapedFits(Fields(b));
    FlattenParts(b, Cuts());
    hide Flatten;
    assert Fields(b) == Parts(b, Cuts());
  }

  function DecodeSample(b: seq<byte>): (r: Option<Sample>) {
    if |b| != SAMPLE_SIZE || b[0] != 1 || b[3] != 0 || Bit4(b[1]) || Bit4(b[2]) then None
    else Some(FromParts(Fields(b)))
  }

  lemma FieldsFlatten(p: seq<seq<byte>>)
    requires Shaped(p)
    ensures |Flatten(p)| == SAMPLE_SIZE && Fields(Flatten(p)) == p
  {
    CutsOK();
    ShapedFits(p);
    PartsFlatten(p, Cuts(), SAMPLE_SIZE);
    FieldsJoin(Flatten(p));
  }

  lemma SampleRoundTrip(s: Sample)
    ensures DecodeSample(EncodeSample(s)) == if SampleOK(s) then Some(s) else None
  {
    hide Bit4, FromParts, Flatten;
    var p := ToParts(s);
    FieldsFlatten(p);
    FromTo(s);
    var b := Flatten(p);
    assert p[0] == b[0..1] && p[1] == b[1..2] && p[2] == b[2..3] && p[3] == b[3..4];
  }

  lemma SampleCanonical(b: seq<byte>)
    requires DecodeSample(b).Some?
    ensures SampleOK(DecodeSample(b).value) && EncodeSample(DecodeSample(b).value) == b
  {
    hide Bit4, Flatten;
    FieldsJoin(b);
    ToFrom(Fields(b));
  }

  /** The codec is a bijection between accepted byte strings and valid samples. */
  lemma SampleBijection(b: seq<byte>, s: Sample)
    ensures DecodeSample(b) == Some(s) <==> SampleOK(s) && b == EncodeSample(s)
  {
    hide *;
    SampleRoundTrip(s);
    if DecodeSample(b).Some? { SampleCanonical(b); }
  }

  /** Where the wire carries each field. */
  predicate Carries(b: seq<byte>, s: Sample) {
    && |b| == 76 && b[0] == 1 && b[1] == s.valid && b[2] == s.alarm && b[3] == 0
    && Get(b[4..12]) == s.expectationId && Get(b[12..20]) == s.utc && Get(b[20..28]) == s.uptimeMs
    && Get(b[28..36]) == s.boot && Get(b[36..44]) == s.event
    && b[44..60] == s.matched && b[60..68] == s.expected && b[68..76] == s.observed
  }

  lemma EncodeCarries(s: Sample)
    ensures Carries(EncodeSample(s), s)
  {
    hide Flatten, Get, Put;
    var p, b := ToParts(s), EncodeSample(s);
    FieldsFlatten(p);
    Back8(s.expectationId); Back8(s.utc); Back8(s.uptimeMs); Back8(s.boot); Back8(s.event);
    assert b[0..1] == p[0] && b[1..2] == p[1] && b[2..3] == p[2] && b[3..4] == p[3];
  }

  /** The decoder on the bytes of the wire: what it accepts, and the sample it reads. */
  lemma DecodeWire(b: seq<byte>, s: Sample)
    ensures DecodeSample(b) == Some(s) <==>
      |b| == 76 && b[1] / 16 % 2 == 0 && b[2] / 16 % 2 == 0 && Carries(b, s)
  {
    hide Flatten, Get, Put, Fields, Bit4;
    if |b| == 76 {
      BitFour(b[1]);
      BitFour(b[2]);
      WireFields(b);
    }
  }

  lemma WireFields(b: seq<byte>)
    requires |b| == SAMPLE_SIZE
    ensures var s := FromParts(Fields(b));
            && s.valid == b[1] && s.alarm == b[2] && s.expectationId == Get(b[4..12]) && s.utc == Get(b[12..20])
            && s.uptimeMs == Get(b[20..28]) && s.boot == Get(b[28..36]) && s.event == Get(b[36..44])
            && s.matched == b[44..60] && s.expected == b[60..68] && s.observed == b[68..76]
  {
    hide Get;
  }

  /** `nr_encode_sample`. */
  method EncodeInto(b: array<byte>, s: Sample)
    requires b.Length == SAMPLE_SIZE
    modifies b
    ensures b[..] == EncodeSample(s)
  {
    hide Filled, Put, Flatten;
    ghost var p := ToParts(s);
    Clear(b, p);
    Copy(b, 0, [1], p, 0);
    Copy(b, 1, [s.valid], p, 1);
    Copy(b, 2, [s.alarm], p, 2);
    Reserved(b, 3, p, 3);
    PutAt(b, 4, s.expectationId, 8, p, 4);
    PutAt(b, 12, s.utc, 8, p, 5);
    PutAt(b, 20, s.uptimeMs, 8, p, 6);
    PutAt(b, 28, s.boot, 8, p, 7);
    PutAt(b, 36, s.event, 8, p, 8);
    Copy(b, 44, s.matched, p, 9);
    Copy(b, 60, s.expected, p, 10);
    Copy(b, 68, s.observed, p, 11);
    Whole(b, p);
  }
}
