/** The 68-byte received-power event (common/reception_power.h). */
module PowerEvent {
  import opened BigEndian
  import opened Wire
  import opened Lanes
  import opened ReceptionMasks

  const EVENT_SIZE := 68

  datatype Masks = Masks(
    localValid: byte, localAlarm: byte, remoteValid: byte, remoteAlarm: byte, jointValid: byte, jointAlarm: byte,
    localAbnormal: byte, remoteAbnormal: byte, jointAbnormal: byte, modelConflict: byte)

  datatype Identity = Identity(
    expectationId: U64, remoteModelId: U64, localModelId: U64, utc: U64, uptimeMs: U64, boot: U64, event: U64)

  /** `nrp_event_t`. */
  datatype Event = Event(flags: byte, id: Identity, m: Masks)

  function Or(a: bv8, b: byte): bv8 { a | Bv(b) }

  function Union(m: Masks): bv8 {
    Or(Or(Or(Or(Or(Or(Or(Or(Or(Bv(m.localValid), m.localAlarm), m.remoteValid), m.remoteAlarm), m.jointValid),
      m.jointAlarm), m.localAbnormal), m.remoteAbnormal), m.jointAbnormal), m.modelConflict)
  }

  predicate IdentityOK(id: Identity) {
    id.expectationId != 0 && UTC_MIN <= id.utc < UTC_MAX && id.boot != 0 && id.event != 0
  }

  /** An unused model has no id and no masks. */
  predicate Absent(id: U64, valid: byte, alarm: byte, abnormal: byte) {
    id == 0 && Empty(valid) && Empty(alarm) && Empty(abnormal)
  }

  predicate NoJoint(m: Masks) {
    Empty(m.jointValid) && Empty(m.jointAlarm) && Empty(m.jointAbnormal) && Empty(m.modelConflict)
  }

  /** `nrp_event_valid`. */
  predicate EventOK(e: Event) {
    && FlagsOK(e.flags) && Union(e.m) & 16 == 0 && IdentityOK(e.id)
    && Within(e.m.localAbnormal, e.m.localValid) && Within(e.m.remoteAbnormal, e.m.remoteValid)
    && WithinBoth(e.m.jointValid, e.m.localValid, e.m.remoteValid)
    && Within(e.m.jointAbnormal, e.m.jointValid) && Within(e.m.modelConflict, e.m.jointValid)
    && (!Local(e.flags) ==> Absent(e.id.localModelId, e.m.localValid, e.m.localAlarm, e.m.localAbnormal))
    && (!Remote(e.flags) ==> Absent(e.id.remoteModelId, e.m.remoteValid, e.m.remoteAlarm, e.m.remoteAbnormal))
    && (Local(e.flags) ==> e.id.localModelId != 0) && (Remote(e.flags) ==> e.id.remoteModelId != 0)
    && (e.flags != 3 ==> NoJoint(e.m))
  }

  // ----- what the masks say about one constellation

  /** One constellation's place in the ten masks, given which models were in use. */
  predicate Coherent(m: Masks, g: nat, local: bool, remote: bool)
    requires g < 8
  {
    && (In(m.localAbnormal, g) ==> In(m.localValid, g))
    && (In(m.remoteAbnormal, g) ==> In(m.remoteValid, g))
    && (In(m.jointValid, g) ==> In(m.localValid, g) && In(m.remoteValid, g))
    && (In(m.jointAbnormal, g) ==> In(m.jointValid, g))
    && (In(m.modelConflict, g) ==> In(m.jointValid, g))
    && (In(m.localValid, g) || In(m.localAlarm, g) ==> local)
    && (In(m.remoteValid, g) || In(m.remoteAlarm, g) ==> remote)
    && (In(m.jointAlarm, g) ==> local && remote)
  }

  /** No mask names the unused constellation id. */
  predicate Unused(m: Masks, g: nat)
    requires g < 8
  {
    && !In(m.localValid, g) && !In(m.localAlarm, g) && !In(m.remoteValid, g) && !In(m.remoteAlarm, g)
    && !In(m.jointValid, g) && !In(m.jointAlarm, g) && !In(m.localAbnormal, g) && !In(m.remoteAbnormal, g)
    && !In(m.jointAbnormal, g) && !In(m.modelConflict, g)
  }

  lemma OrIn(a: bv8, b: byte)
    ensures Lane(Or(a, b), 4) == (Lane(a, 4) || In(b, 4))
  {
    LaneOr(a, Bv(b), 4);
    hide Bv, Lane;
  }

  lemma UnionIn(m: Masks)
    ensures Union(m) & 16 == 0 <==> Unused(m, 4)
  {
    Lane4(Union(m));
    hide Or, Lane, Bv;
    var a := Or(Bv(m.localValid), m.localAlarm);
    OrIn(Bv(m.localValid), m.localAlarm);
    var b := Or(a, m.remoteValid);
    OrIn(a, m.remoteValid);
    var c := Or(b, m.remoteAlarm);
    OrIn(b, m.remoteAlarm);
    var d := Or(c, m.jointValid);
    OrIn(c, m.jointValid);
    var e := Or(d, m.jointAlarm);
    OrIn(d, m.jointAlarm);
    var f := Or(e, m.localAbnormal);
    OrIn(e, m.localAbnormal);
    var g := Or(f, m.remoteAbnormal);
    OrIn(f, m.remoteAbnormal);
    OrIn(g, m.jointAbnormal);
    OrIn(Or(g, m.jointAbnormal), m.modelConflict);
  }

  /** The mask conditions of the validator, as bytes. */
  predicate MasksOK(m: Masks, local: bool, remote: bool) {
    && Within(m.localAbnormal, m.localValid) && Within(m.remoteAbnormal, m.remoteValid)
    && WithinBoth(m.jointValid, m.localValid, m.remoteValid)
    && Within(m.jointAbnormal, m.jointValid) && Within(m.modelConflict, m.jointValid)
    && (!local ==> Empty(m.localValid) && Empty(m.localAlarm) && Empty(m.localAbnormal))
    && (!remote ==> Empty(m.remoteValid) && Empty(m.remoteAlarm) && Empty(m.remoteAbnormal))
    && (!(local && remote) ==> NoJoint(m))
  }

  /** Two masks, one inside the other. */
  lemma PairIn(a: byte, b: byte, g: nat)
    requires g < 8 && Within(a, b)
    ensures In(a, g) ==> In(b, g)
  {
    hide In, Within;
    WithinIn(a, b);
  }

  lemma NoneIn(a: byte, g: nat)
    requires g < 8 && Empty(a)
    ensures !In(a, g)
  {
    hide In, Empty;
    EmptyIn(a);
  }

  /** The masks of a valid event are coherent in every lane. */
  lemma MasksCohere(m: Masks, g: nat, local: bool, remote: bool)
    requires g < 8 && MasksOK(m, local, remote)
    ensures Coherent(m, g, local, remote)
  {
    hide In, Within, WithinBoth, Empty;
    PairIn(m.localAbnormal, m.localValid, g);
    PairIn(m.remoteAbnormal, m.remoteValid, g);
    PairIn(m.jointAbnormal, m.jointValid, g);
    PairIn(m.modelConflict, m.jointValid, g);
    WithinBothIn(m.jointValid, m.localValid, m.remoteValid);
    if !local { NoneIn(m.localValid, g); NoneIn(m.localAlarm, g); }
    if !remote { NoneIn(m.remoteValid, g); NoneIn(m.remoteAlarm, g); }
    if !(local && remote) { NoneIn(m.jointAlarm, g); }
  }

  predicate AllCoherent(m: Masks, local: bool, remote: bool) {
    forall g :: 0 <= g < 8 ==> Coherent(m, g, local, remote)
  }

  lemma WithinFrom(a: byte, b: byte)
    requires forall g :: 0 <= g < 8 ==> In(a, g) ==> In(b, g)
    ensures Within(a, b)
  {
    hide In, Within;
    WithinIn(a, b);
  }

  lemma EmptyFrom(a: byte)
    requires forall g :: 0 <= g < 8 ==> !In(a, g)
    ensures Empty(a)
  {
    hide In, Empty;
    EmptyIn(a);
  }

  /** Inclusions, from the lanes. */
  lemma CohereWithin(m: Masks, local: bool, remote: bool)
    requires AllCoherent(m, local, remote)
    ensures Within(m.localAbnormal, m.localValid) && Within(m.remoteAbnormal, m.remoteValid)
    ensures WithinBoth(m.jointValid, m.localValid, m.remoteValid)
    ensures Within(m.jointAbnormal, m.jointValid) && Within(m.modelConflict, m.jointValid)
  {
    hide In, Within, WithinBoth;
    forall g | 0 <= g < 8
      ensures (In(m.localAbnormal, g) ==> In(m.localValid, g)) && (In(m.remoteAbnormal, g) ==> In(m.remoteValid, g))
      ensures In(m.jointValid, g) ==> In(m.localValid, g) && In(m.remoteValid, g)
      ensures (In(m.jointAbnormal, g) ==> In(m.jointValid, g)) && (In(m.modelConflict, g) ==> In(m.jointValid, g))
    {
      assert Coherent(m, g, local, remote);
    }
    WithinFrom(m.localAbnormal, m.localValid);
    WithinFrom(m.remoteAbnormal, m.remoteValid);
    WithinFrom(m.jointAbnormal, m.jointValid);
    WithinFrom(m.modelConflict, m.jointValid);
    WithinBothIn(m.jointValid, m.localValid, m.remoteValid);
  }

  /** Empty masks, from the lanes. */
  lemma CohereEmpty(m: Masks, local: bool, remote: bool)
    requires AllCoherent(m, local, remote)
    ensures !local ==> Empty(m.localValid) && Empty(m.localAlarm) && Empty(m.localAbnormal)
    ensures !remote ==> Empty(m.remoteValid) && Empty(m.remoteAlarm) && Empty(m.remoteAbnormal)
    ensures !(local && remote) ==> NoJoint(m)
  {
    hide In, Empty;
    forall g | 0 <= g < 8
      ensures !local ==> !In(m.localValid, g) && !In(m.localAlarm, g) && !In(m.localAbnormal, g)
      ensures !remote ==> !In(m.remoteValid, g) && !In(m.remoteAlarm, g) && !In(m.remoteAbnormal, g)
      ensures !(local && remote) ==> !In(m.jointValid, g) && !In(m.jointAlarm, g)
      ensures !(local && remote) ==> !In(m.jointAbnormal, g) && !In(m.modelConflict, g)
    {
      assert Coherent(m, g, local, remote);
    }
    hide Coherent, AllCoherent;
    if !local { EmptyFrom(m.localValid); EmptyFrom(m.localAlarm); EmptyFrom(m.localAbnormal); }
    if !remote { EmptyFrom(m.remoteValid); EmptyFrom(m.remoteAlarm); EmptyFrom(m.remoteAbnormal); }
    if !(local && remote) {
      EmptyFrom(m.jointValid); EmptyFrom(m.jointAlarm); EmptyFrom(m.jointAbnormal); EmptyFrom(m.modelConflict);
    }
  }

  lemma MasksMeaning(m: Masks, local: bool, remote: bool)
    ensures MasksOK(m, local, remote) <==> AllCoherent(m, local, remote)
  {
    hide Within, WithinBoth, Empty, Coherent, NoJoint;
    if MasksOK(m, local, remote) {
      forall g | 0 <= g < 8
        ensures Coherent(m, g, local, remote)
      {
        MasksCohere(m, g, local, remote);
      }
    }
    if AllCoherent(m, local, remote) {
      CohereWithin(m, local, remote);
      CohereEmpty(m, local, remote);
    }
  }

  /** The mask arithmetic of the validator, constellation by constellation: an event is valid exactly
      when its identity is in range, each model id is set exactly when that model was in use, no mask
      names the unused id, and every constellation's bits are coherent. */
  lemma EventMeaning(e: Event)
    requires FlagsOK(e.flags)
    ensures EventOK(e) <==>
      && IdentityOK(e.id) && Unused(e.m, 4)
      && (Local(e.flags) <==> e.id.localModelId != 0) && (Remote(e.flags) <==> e.id.remoteModelId != 0)
      && AllCoherent(e.m, Local(e.flags), Remote(e.flags))
  {
    hide Within, WithinBoth, Empty, Union, IdentityOK, Unused, Local, Remote, FlagsOK, AllCoherent, NoJoint;
    UnionIn(e.m);
    FlagsMeaning(e.flags);
    MasksMeaning(e.m, Local(e.flags), Remote(e.flags));
  }

  // ----- the wire

  function Cuts(): seq<nat> { [0, 1, 2, 3, 4, 5, 6, 7, 8, 16, 24, 32, 40, 48, 56, 64, 65, 66, 67, 68] }

  lemma CutsOK()
    ensures Layout(Cuts(), EVENT_SIZE)
  {
  }

  predicate Shaped(p: seq<seq<byte>>) {
    && |p| == 19
    && |p[0]| == 1 && |p[1]| == 1 && |p[2]| == 1 && |p[3]| == 1 && |p[4]| == 1 && |p[5]| == 1 && |p[6]| == 1
    && |p[7]| == 1
    && |p[8]| == 8 && |p[9]| == 8 && |p[10]| == 8 && |p[11]| == 8 && |p[12]| == 8 && |p[13]| == 8 && |p[14]| == 8
    && |p[15]| == 1 && |p[16]| == 1 && |p[17]| == 1 && |p[18]| == 1
  }

  lemma ShapedFits(p: seq<seq<byte>>)
    requires Shaped(p)
    ensures Fits(p, Cuts())
  {
  }

  /** The record's three runs of fields: bytes, integers, bytes. */
  function Heads(e: Event): (p: seq<seq<byte>>)
    ensures |p| == 8 && forall i :: 0 <= i < 8 ==> |p[i]| == 1
  {
    [[1], [e.flags], [e.m.localValid], [e.m.localAlarm], [e.m.remoteValid], [e.m.remoteAlarm],
     [e.m.jointValid], [e.m.jointAlarm]]
  }

  function Integers(id: Identity): (p: seq<seq<byte>>)
    ensures |p| == 7 && forall i :: 0 <= i < 7 ==> |p[i]| == 8
  {
    hide Put;
    [Put(id.expectationId, 8), Put(id.remoteModelId, 8), Put(id.localModelId, 8), Put(id.utc, 8),
     Put(id.uptimeMs, 8), Put(id.boot, 8), Put(id.event, 8)]
  }

  function Tails(m: Masks): (p: seq<seq<byte>>)
    ensures |p| == 4 && forall i :: 0 <= i < 4 ==> |p[i]| == 1
  {
    [[m.localAbnormal], [m.remoteAbnormal], [m.jointAbnormal], [m.modelConflict]]
  }

  function ToParts(e: Event): (p: seq<seq<byte>>)
    ensures Shaped(p)
  {
    hide Heads, Integers, Tails;
    Heads(e) + Integers(e.id) + Tails(e.m)
  }

  function FromParts(p: seq<seq<byte>>): (e: Event)
    requires Shaped(p)
  {
    Event(p[1][0],
          Identity(Int64(p[8]), Int64(p[9]), Int64(p[10]), Int64(p[11]), Int64(p[12]), Int64(p[13]), Int64(p[14])),
          Masks(p[2][0], p[3][0], p[4][0], p[5][0], p[6][0], p[7][0], p[15][0], p[16][0], p[17][0], p[18][0]))
  }

  lemma FromTo(e: Event)
    ensures FromParts(ToParts(e)) == e
  {
    Back8(e.id.expectationId); Back8(e.id.remoteModelId); Back8(e.id.localModelId); Back8(e.id.utc);
    Back8(e.id.uptimeMs); Back8(e.id.boot); Back8(e.id.event);
    hide Put, Get;
  }

  lemma ToFrom(p: seq<seq<byte>>)
    requires Shaped(p) && p[0] == [1]
    ensures ToParts(FromParts(p)) == p
  {
    hide Put, Get, Int64;
    var q := ToParts(FromParts(p));
    assert q[1] == p[1] && q[2] == p[2] && q[3] == p[3] && q[4] == p[4] && q[5] == p[5] && q[6] == p[6] && q[7] == p[7];
    assert q[15] == p[15] && q[16] == p[16] && q[17] == p[17] && q[18] == p[18];
  }

  function EncodeEvent(e: Event): (b: seq<byte>) { Flatten(ToParts(e)) }

  /** The fields of an encoded event, cut at the wire's offsets. */
  function Fields(b: seq<byte>): (p: seq<seq<byte>>)
    requires |b| == EVENT_SIZE
    ensures Shaped(p)
  {
    [b[0..1], b[1..2], b[2..3], b[3..4], b[4..5], b[5..6], b[6..7], b[7..8], b[8..16], b[16..24], b[24..32],
     b[32..40], b[40..48], b[48..56], b[56..64], b[64..65], b[65..66], b[66..67], b[67..68]]
  }

  lemma FieldsJoin(b: seq<byte>)
    requires |b| == EVENT_SIZE
    ensures Layout(Cuts(), |b|) && Fields(b) == Parts(b, Cuts()) && Flatten(Fields(b)) == b
  {
    hide Flatten, Layout, Shaped, Fits;
    CutsOK();
    ShapedFits(Fields(b));
    FlattenParts(b, Cuts());
    assert Fields(b) == Parts(b, Cuts());
  }

  lemma FieldsFlatten(p: seq<seq<byte>>)
    requires Shaped(p)
    ensures |Flatten(p)| == EVENT_SIZE && Fields(Flatten(p)) == p
  {
    hide Flatten, Fields;
    CutsOK();
    ShapedFits(p);
    PartsFlatten(p, Cuts(), EVENT_SIZE);
    FieldsJoin(Flatten(p));
  }

  /** `nrp_decode_event`. */
  function DecodeEvent(b: seq<byte>): (r: Option<Event>) {
    if |b| != EVENT_SIZE || b[0] != 1 then None
    else
      var e := FromParts(Fields(b));
      if EventOK(e) then Some(e) else None
  }

  lemma EventRoundTrip(e: Event)
    ensures DecodeEvent(EncodeEvent(e)) == if EventOK(e) then Some(e) else None
  {
    hide EventOK, FromParts, Flatten;
    var p := ToParts(e);
    FieldsFlatten(p);
    FromTo(e);
    assert p[0] == Flatten(p)[0..1];
  }

  lemma EventCanonical(b: seq<byte>)
    requires DecodeEvent(b).Some?
    ensures EventOK(DecodeEvent(b).value) && EncodeEvent(DecodeEvent(b).value) == b
  {
    hide EventOK, FromParts, Flatten, ToParts, Shaped;
    assert Fields(b)[0] == [1];
    hide Fields;
    FieldsJoin(b);
    ToFrom(Fields(b));
  }

  /** The codec is a bijection between accepted byte strings and valid events. */
  lemma EventBijection(b: seq<byte>, e: Event)
    ensures DecodeEvent(b) == Some(e) <==> EventOK(e) && b == EncodeEvent(e)
  {
    hide *;
    EventRoundTrip(e);
    if DecodeEvent(b).Some? { EventCanonical(b); }
  }

  /** Where the wire carries each field. */
  predicate Carries(b: seq<byte>, e: Event) {
    && |b| == 68 && b[0] == 1 && b[1] == e.flags
    && b[2] == e.m.localValid && b[3] == e.m.localAlarm && b[4] == e.m.remoteValid && b[5] == e.m.remoteAlarm
    && b[6] == e.m.jointValid && b[7] == e.m.jointAlarm
    && Get(b[8..16]) == e.id.expectationId && Get(b[16..24]) == e.id.remoteModelId
    && Get(b[24..32]) == e.id.localModelId && Get(b[32..40]) == e.id.utc && Get(b[40..48]) == e.id.uptimeMs
    && Get(b[48..56]) == e.id.boot && Get(b[56..64]) == e.id.event
    && b[64] == e.m.localAbnormal && b[65] == e.m.remoteAbnormal && b[66] == e.m.jointAbnormal
    && b[67] == e.m.modelConflict
  }

  /** One constellation's bits in an acceptable record. */
  predicate LaneWire(b: seq<byte>, g: nat)
    requires |b| == 68 && g < 8
  {
    && (In(b[64], g) ==> In(b[2], g)) && (In(b[65], g) ==> In(b[4], g))
    && (In(b[6], g) ==> In(b[2], g) && In(b[4], g)) && (In(b[66], g) || In(b[67], g) ==> In(b[6], g))
    && (In(b[2], g) || In(b[3], g) ==> b[1] == 1 || b[1] == 3)
    && (In(b[4], g) || In(b[5], g) ==> b[1] == 2 || b[1] == 3)
    && (In(b[7], g) ==> b[1] == 3)
    && (g == 4 ==> (forall i :: 2 <= i < 8 ==> !In(b[i], g)) && forall i :: 64 <= i < 68 ==> !In(b[i], g))
  }

  /** What the bytes of an acceptable record look like. */
  predicate WireOK(b: seq<byte>) {
    && |b| == 68 && b[0] == 1 && b[1] < 4
    && Get(b[8..16]) != 0 && 946684800 <= Get(b[32..40]) < 4102444800 && Get(b[48..56]) != 0 && Get(b[56..64]) != 0
    && (Get(b[24..32]) != 0 <==> b[1] == 1 || b[1] == 3) && (Get(b[16..24]) != 0 <==> b[1] == 2 || b[1] == 3)
    && forall g :: 0 <= g < 8 ==> LaneWire(b, g)
  }

  lemma WireFields(b: seq<byte>)
    requires |b| == EVENT_SIZE
    ensures var e := FromParts(Fields(b)); b[0] == 1 ==> Carries(b, e)
  {
    hide Get;
  }

  lemma CarriesOne(b: seq<byte>, r: Event, e: Event)
    requires Carries(b, r)
    ensures Carries(b, e) <==> r == e
  {
    hide Get;
  }

  lemma LanesWire(b: seq<byte>, e: Event, g: nat)
    requires Carries(b, e) && FlagsOK(e.flags) && g < 8
    ensures LaneWire(b, g) <==> Coherent(e.m, g, Local(e.flags), Remote(e.flags)) && (g == 4 ==> Unused(e.m, 4))
  {
    FlagValues(b[1]);
    hide In, Get, Local, Remote, FlagsOK;
  }

  lemma EventFlags(e: Event)
    ensures EventOK(e) ==> FlagsOK(e.flags)
  {
    hide FlagsOK;
  }

  /** The decoder on the bytes of the wire: what it accepts, and the event it reads. */
  lemma DecodeWire(b: seq<byte>, e: Event)
    ensures DecodeEvent(b) == Some(e) <==> WireOK(b) && Carries(b, e)
  {
    hide Get, Fields, FromParts, EventOK, LaneWire, FlagsOK, Local, Remote, Coherent, Unused;
    if |b| == 68 && b[0] == 1 {
      var r := FromParts(Fields(b));
      WireFields(b);
      CarriesOne(b, r, e);
      EventFlags(r);
      FlagValues(b[1]);
      if FlagsOK(r.flags) { AcceptedWire(b, r); }
    }
  }

  lemma AcceptedWire(b: seq<byte>, r: Event)
    requires Carries(b, r) && FlagsOK(r.flags)
    ensures EventOK(r) <==> WireOK(b)
  {
    hide Get, EventOK, LaneWire, FlagsOK, Local, Remote, Coherent, Unused;
    FlagValues(b[1]);
    EventMeaning(r);
    forall g | 0 <= g < 8
      ensures LaneWire(b, g) <==> Coherent(r.m, g, Local(r.flags), Remote(r.flags)) && (g == 4 ==> Unused(r.m, 4))
    {
      LanesWire(b, r, g);
    }
    if WireOK(b) { assert LaneWire(b, 4); }
    if EventOK(r) {
      forall g | 0 <= g < 8
        ensures LaneWire(b, g)
      {
        assert Coherent(r.m, g, Local(r.flags), Remote(r.flags));
      }
    }
  }

  /** `nrp_encode_event`. */
  method EncodeInto(b: array<byte>, e: Event)
    requires b.Length == EVENT_SIZE
    modifies b
    ensures b[..] == EncodeEvent(e)
  {
    hide Filled, Put, Flatten;
    ghost var p := ToParts(e);
    Clear(b, p);
    Copy(b, 0, [1], p, 0);
    Copy(b, 1, [e.flags], p, 1);
    Copy(b, 2, [e.m.localValid], p, 2);
    Copy(b, 3, [e.m.localAlarm], p, 3);
    Copy(b, 4, [e.m.remoteValid], p, 4);
    Copy(b, 5, [e.m.remoteAlarm], p, 5);
    Copy(b, 6, [e.m.jointValid], p, 6);
    Copy(b, 7, [e.m.jointAlarm], p, 7);
    PutAt(b, 8, e.id.expectationId, 8, p, 8);
    PutAt(b, 16, e.id.remoteModelId, 8, p, 9);
    PutAt(b, 24, e.id.localModelId, 8, p, 10);
    PutAt(b, 32, e.id.utc, 8, p, 11);
    PutAt(b, 40, e.id.uptimeMs, 8, p, 12);
    PutAt(b, 48, e.id.boot, 8, p, 13);
    PutAt(b, 56, e.id.event, 8, p, 14);
    Copy(b, 64, [e.m.localAbnormal], p, 15);
    Copy(b, 65, [e.m.remoteAbnormal], p, 16);
    Copy(b, 66, [e.m.jointAbnormal], p, 17);
    Copy(b, 67, [e.m.modelConflict], p, 18);
    Whole(b, p);
  }
}
