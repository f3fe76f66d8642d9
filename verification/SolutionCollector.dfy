/** The collector (go/internal/ingest/solution.go, ubx.go): it decodes the bodies an edge sends, and it
    assembles epochs itself from a receiver it reads directly. The two ways agree. */
module SolutionCollector {
  import opened BigEndian
  import opened Wire
  import opened SolutionBlocks
  import opened SolutionAssembler
  import opened SolutionFeed

  /** `ReceiverSolution`. */
  datatype Solution = Solution(pvt: Option<Pvt>, clock: Option<Clock>, status: Option<Status>, stamp: byte)

  function Span(present: bool, len: nat): nat { if present then len else 0 }

  /** One block at its offset in the body, when present. */
  function PvtIn(b: seq<byte>, o: nat, present: bool): Option<Pvt>
    requires o + Span(present, PVT_LEN) <= |b|
  {
    if present then DecodePvt(b[o..o + PVT_LEN]) else None
  }

  function ClockIn(b: seq<byte>, o: nat, present: bool): Option<Clock>
    requires o + Span(present, CLOCK_LEN) <= |b|
  {
    if present then DecodeClock(b[o..o + CLOCK_LEN]) else None
  }

  function StatusIn(b: seq<byte>, o: nat, present: bool): Option<Status>
    requires o + Span(present, STATUS_LEN) <= |b|
  {
    if present then DecodeStatus(b[o..o + STATUS_LEN]) else None
  }

  /** `decodeReceiverSolution`. */
  function DecodeBody(b: seq<byte>): Option<Solution> {
    if |b| < 2 || (b[0] != 1 && b[0] != 2) || b[1] == 0 || b[1] >= 8 then None
    else
      var p, c, s := b[1] % 2 == 1, b[1] / 2 % 2 == 1, b[1] / 4 % 2 == 1;
      var oc := 2 + Span(p, PVT_LEN);
      var os := oc + Span(c, CLOCK_LEN);
      var n := os + Span(s, STATUS_LEN);
      if |b| != n + Span(b[0] == 2, 1) then None
      else
        var stamp := if b[0] == 2 then b[n] else 0;
        if b[0] == 2 && (stamp < 1 || stamp > 5) then None
        else
          var r := Solution(PvtIn(b, 2, p), ClockIn(b, oc, c), StatusIn(b, os, s), stamp);
          if (p && r.pvt.None?) || (c && r.clock.None?) || (s && r.status.None?) then None else Some(r)
  }

  // ----- what an edge's epoch says

  function Decoded(e: Epoch): Solution
    requires Sized(e)
  {
    Solution(if e.present.pvt then DecodePvt(e.pvt) else None,
             if e.present.clock then DecodeClock(e.clock) else None,
             if e.present.status then DecodeStatus(e.status) else None, e.stamp)
  }

  /** Every present block decodes, and at least one is present. */
  predicate Readable(e: Epoch) {
    && Sized(e) && Code(e.present) != 0
    && (e.present.pvt ==> DecodePvt(e.pvt).Some?)
    && (e.present.clock ==> DecodeClock(e.clock).Some?)
    && (e.present.status ==> DecodeStatus(e.status).Some?)
  }

  lemma CodeBits(p: Present)
    ensures var c: int := Code(p);
            c < 8 && (c % 2 == 1) == p.pvt && (c / 2 % 2 == 1) == p.clock && (c / 4 % 2 == 1) == p.status
  {
  }

  /** Where the blocks sit in a body. */
  lemma BodySlices(e: Epoch)
    requires Sized(e)
    ensures var b := Body(e);
            var oc := 2 + Span(e.present.pvt, PVT_LEN);
            var os := oc + Span(e.present.clock, CLOCK_LEN);
            var n := os + Span(e.present.status, STATUS_LEN);
            && |b| == n + Span(e.stamp != 0, 1) == Length(e)
            && b[0] == (if e.stamp != 0 then 2 else 1) && b[1] == Code(e.present)
            && (e.present.pvt ==> b[2..2 + PVT_LEN] == e.pvt)
            && (e.present.clock ==> b[oc..oc + CLOCK_LEN] == e.clock)
            && (e.present.status ==> b[os..os + STATUS_LEN] == e.status)
            && (e.stamp != 0 ==> b[n] == e.stamp)
  {
    hide Code;
  }

  lemma BlocksDecode(e: Epoch)
    requires Sized(e)
    ensures var b := Body(e);
            var oc := 2 + Span(e.present.pvt, PVT_LEN);
            var os := oc + Span(e.present.clock, CLOCK_LEN);
            && os + Span(e.present.status, STATUS_LEN) <= |b|
            && PvtIn(b, 2, e.present.pvt) == Decoded(e).pvt
            && ClockIn(b, oc, e.present.clock) == Decoded(e).clock
            && StatusIn(b, os, e.present.status) == Decoded(e).status
  {
    hide Body, DecodePvt, DecodeClock, DecodeStatus, Length, Code;
    BodySlices(e);
  }

  lemma BodyDecodes(e: Epoch)
    requires Readable(e) && e.stamp <= 5
    ensures DecodeBody(Body(e)) == Some(Decoded(e))
  {
    hide Body, Code, Length, PvtIn, ClockIn, StatusIn, DecodePvt, DecodeClock, DecodeStatus;
    CodeBits(e.present);
    BodySlices(e);
    BlocksDecode(e);
  }

  /** What the edge sends, the collector accepts, and reads as the edge meant it. */
  lemma BodyAccepted(e: Epoch, cap: nat)
    requires Readable(e) && e.stamp <= 5 && cap >= BODY_MAX
    ensures EncodeEpoch(e, cap).Some? && DecodeBody(EncodeEpoch(e, cap).value) == Some(Decoded(e))
  {
    hide Body, DecodeBody, DecodePvt, DecodeClock, DecodeStatus, Decoded;
    BodyDecodes(e);
  }

  // ----- the collector's own assembler

  /** `solutionAssembler`. */
  datatype Joiner = Joiner(pending: Option<Solution>, arrived: nat, lastDone: nat, haveDone: bool)

  datatype Completed = Completed(solution: Solution, arrived: nat)

  datatype Joined = Joined(j: Joiner, done: Option<Completed>)

  /** `ReceiverSolution.tow`: the time of week of the first present block. */
  function Tow(s: Solution): nat {
    if s.pvt.Some? then s.pvt.value.tow
    else if s.clock.Some? then s.clock.value.tow
    else if s.status.Some? then s.status.value.tow
    else 0
  }

  datatype Part = PvtPart(pvt: Pvt) | ClockPart(clock: Clock) | StatusPart(status: Status)

  function WithPart(s: Solution, part: Part): Solution {
    match part
    case PvtPart(p) => s.(pvt := Some(p))
    case ClockPart(c) => s.(clock := Some(c))
    case StatusPart(t) => s.(status := Some(t))
  }

  function Nothing(): Solution { Solution(None, None, None, 0) }

  /** `solutionAssembler.add`. */
  function Join(j: Joiner, tow: nat, now: nat, part: Part): Joined {
    if j.haveDone && tow == j.lastDone then Joined(j, None)
    else
      var turn := j.pending.Some? && Tow(j.pending.value) != tow;
      var done := if turn then Some(Completed(j.pending.value, j.arrived)) else None;
      var k := if turn then j.(pending := None, lastDone := Tow(j.pending.value), haveDone := true) else j;
      var l := if k.pending.None? then k.(pending := Some(Nothing()), arrived := now) else k;
      Joined(l.(pending := Some(WithPart(l.pending.value, part))), done)
  }

  /** `solutionAssembler.endOfEpoch`. */
  function EndOfEpoch(j: Joiner, tow: nat): Joined {
    if j.pending.None? || Tow(j.pending.value) != tow then Joined(j, None)
    else Joined(j.(pending := None, lastDone := tow, haveDone := true), Some(Completed(j.pending.value, j.arrived)))
  }

  /** The NAV cases of `scanUBX`. */
  function Scan(j: Joiner, u: Ubx): Joined {
    if u.cls != CLASS_NAV then Joined(j, None)
    else if u.id == ID_PVT then
      var p := ParsePvt(u.payload);
      if p.Some? then Join(j, p.value.tow, u.now, PvtPart(p.value)) else Joined(j, None)
    else if u.id == ID_CLOCK then
      var c := ParseClock(u.payload);
      if c.Some? then Join(j, c.value.tow, u.now, ClockPart(c.value)) else Joined(j, None)
    else if u.id == ID_STATUS then
      var t := ParseStatus(u.payload);
      if t.Some? then Join(j, t.value.tow, u.now, StatusPart(t.value)) else Joined(j, None)
    else if u.id == ID_EOE && |u.payload| == 4 then EndOfEpoch(j, Le32(u.payload, 0))
    else Joined(j, None)
  }

  // ----- the two assemblers, step by step

  /** A readable epoch whose blocks all carry its time of week. */
  predicate Coherent(e: Epoch) {
    && Readable(e) && e.stamp == 0
    && (e.present.pvt ==> DecodePvt(e.pvt).value.tow == e.tow)
    && (e.present.clock ==> DecodeClock(e.clock).value.tow == e.tow)
    && (e.present.status ==> DecodeStatus(e.status).value.tow == e.tow)
  }

  lemma CoherentTow(e: Epoch)
    requires Coherent(e)
    ensures Tow(Decoded(e)) == e.tow
  {
    hide DecodePvt, DecodeClock, DecodeStatus;
  }

  predicate Twins(s: State, j: Joiner) {
    && (s.havePending <==> j.pending.Some?)
    && s.haveDone == j.haveDone && (s.haveDone ==> s.lastDone == j.lastDone)
    && (s.havePending ==>
          Coherent(s.pending) && j.pending.value == Decoded(s.pending) && j.arrived == s.pending.arrived)
  }

  predicate SameDone(d: Option<Epoch>, c: Option<Completed>) {
    && (d.Some? <==> c.Some?)
    && (d.Some? ==> Coherent(d.value) && c.value == Completed(Decoded(d.value), d.value.arrived))
  }

  /** A block and the part the collector reads from it. */
  predicate Carries(kind: Kind, data: seq<byte>, tow: nat, part: Part) {
    match part
    case PvtPart(p) => kind == PvtKind && |data| == PVT_LEN && DecodePvt(data) == Some(p) && p.tow == tow
    case ClockPart(c) => kind == ClockKind && |data| == CLOCK_LEN && DecodeClock(data) == Some(c) && c.tow == tow
    case StatusPart(t) => kind == StatusKind && |data| == STATUS_LEN && DecodeStatus(data) == Some(t) && t.tow == tow
  }

  lemma MergeCoherent(e: Epoch, kind: Kind, data: seq<byte>, part: Part)
    requires Sized(e) && e.stamp == 0 && (Coherent(e) || Code(e.present) == 0) && Carries(kind, data, e.tow, part)
    ensures var f := Merge(e, kind, data); Coherent(f) && Decoded(f) == WithPart(Decoded(e), part)
  {
    hide DecodePvt, DecodeClock, DecodeStatus;
  }

  lemma FreshDecoded(tow: nat, now: nat)
    ensures Sized(Fresh(tow, now)) && Decoded(Fresh(tow, now)) == Nothing() && Code(Fresh(tow, now).present) == 0
    ensures Fresh(tow, now).tow == tow && Fresh(tow, now).arrived == now && Fresh(tow, now).stamp == 0
  {
  }

  lemma MergeKeeps(e: Epoch, kind: Kind, data: seq<byte>)
    ensures Merge(e, kind, data).arrived == e.arrived && Merge(e, kind, data).tow == e.tow
  {
  }

  lemma CoherentSized(e: Epoch)
    requires Coherent(e)
    ensures Sized(e) && e.stamp == 0
  {
    hide Sized;
  }

  lemma JoinTwins(s: State, j: Joiner, kind: Kind, tow: nat, data: seq<byte>, now: nat, part: Part)
    requires Twins(s, j) && Carries(kind, data, tow, part)
    ensures var o, h := Add(s, kind, tow, data, now), Join(j, tow, now, part);
            Twins(o.s, h.j) && SameDone(o.done, h.done)
  {
    hide Coherent, Decoded, Merge, Fresh, WithPart, Tow, Carries, Code, Readable, Sized;
    FreshDecoded(tow, now);
    MergeCoherent(Fresh(tow, now), kind, data, part);
    MergeKeeps(Fresh(tow, now), kind, data);
    if s.havePending {
      CoherentTow(s.pending);
      CoherentSized(s.pending);
      MergeKeeps(s.pending, kind, data);
      if s.pending.tow == tow { MergeCoherent(s.pending, kind, data, part); }
    }
  }

  lemma EndTwins(s: State, j: Joiner, tow: nat)
    requires Twins(s, j)
    ensures var o, h := Close(s, tow), EndOfEpoch(j, tow);
            Twins(o.s, h.j) && SameDone(o.done, h.done)
  {
    if s.havePending { CoherentTow(s.pending); }
    hide Coherent, Decoded, Tow;
  }

  lemma ParsedTows(p: seq<byte>)
    ensures ParseClock(p).Some? ==> |p| >= 4 && ParseClock(p).value.tow == Le32(p, 0)
    ensures ParseStatus(p).Some? ==> |p| >= 4 && ParseStatus(p).value.tow == Le32(p, 0)
    ensures ClockBlock(p).Some? ==> |p| >= 4
    ensures StatusBlock(p).Some? ==> |p| >= 4
    ensures PvtBlock(p).Some? ==> |p| >= 4
  {
    hide Le32, Flatten, EdgeAccepts;
  }

  /** One receiver message keeps edge and collector in step. */
  lemma ScanTwins(s: State, j: Joiner, u: Ubx)
    requires Twins(s, j)
    ensures var o, h := Step(s, Route(u)), Scan(j, u);
            Twins(o.s, h.j) && SameDone(o.done, h.done)
  {
    hide PvtBlock, ClockBlock, StatusBlock, ParsePvt, ParseClock, ParseStatus, DecodePvt, DecodeClock, DecodeStatus;
    hide Le32, Add, Join, Close, EndOfEpoch, Twins;
    var p := u.payload;
    PvtCommutes(p);
    ClockCommutes(p);
    StatusCommutes(p);
    ParsedTows(p);
    if u.cls == CLASS_NAV {
      if u.id == ID_PVT && ParsePvt(p).Some? {
        JoinTwins(s, j, PvtKind, Le32(p, 0), PvtBlock(p).value, u.now, PvtPart(ParsePvt(p).value));
      } else if u.id == ID_CLOCK && ParseClock(p).Some? {
        JoinTwins(s, j, ClockKind, Le32(p, 0), ClockBlock(p).value, u.now, ClockPart(ParseClock(p).value));
      } else if u.id == ID_STATUS && ParseStatus(p).Some? {
        JoinTwins(s, j, StatusKind, Le32(p, 0), StatusBlock(p).value, u.now, StatusPart(ParseStatus(p).value));
      } else if u.id == ID_EOE && |p| == 4 {
        EndTwins(s, j, Le32(p, 0));
      }
    }
  }

  // ----- whole runs

  function Routed(us: seq<Ubx>): (ms: seq<Msg>)
    ensures |ms| == |us|
  {
    seq(|us|, i requires 0 <= i < |us| => Route(us[i]))
  }

  function Joining(us: seq<Ubx>, n: nat): Joiner
    requires n <= |us|
  {
    if n == 0 then Joiner(None, 0, 0, false) else Scan(Joining(us, n - 1), us[n - 1]).j
  }

  function Completions(us: seq<Ubx>, n: nat): seq<Completed>
    requires n <= |us|
  {
    if n == 0 then []
    else
      var h := Scan(Joining(us, n - 1), us[n - 1]);
      Completions(us, n - 1) + (if h.done.Some? then [h.done.value] else [])
  }

  predicate SameEpochs(out: seq<Epoch>, done: seq<Completed>) {
    |out| == |done| && forall k :: 0 <= k < |out| ==> SameDone(Some(out[k]), Some(done[k]))
  }

  lemma SameSnoc(out: seq<Epoch>, done: seq<Completed>, d: Option<Epoch>, c: Option<Completed>)
    requires SameEpochs(out, done) && SameDone(d, c)
    ensures SameEpochs(out + (if d.Some? then [d.value] else []), done + (if c.Some? then [c.value] else []))
  {
    hide Coherent, Decoded;
  }

  lemma {:induction false} RunTwins(us: seq<Ubx>, n: nat)
    requires n <= |us|
    ensures Twins(After(Routed(us), n), Joining(us, n))
    ensures SameEpochs(Emitted(Routed(us), n), Completions(us, n))
  {
    if n > 0 {
      RunTwins(us, n - 1);
      var s, j := After(Routed(us), n - 1), Joining(us, n - 1);
      ScanTwins(s, j, us[n - 1]);
      hide Route, Scan, Step, Twins, SameDone, SameEpochs;
      var o, h := Step(s, Route(us[n - 1])), Scan(j, us[n - 1]);
      SameSnoc(Emitted(Routed(us), n - 1), Completions(us, n - 1), o.done, h.done);
    }
  }

  /** End to end: over every stream of receiver messages, the bodies an edge sends decode to exactly the
      epochs the collector would have assembled from the same messages, with the same arrival times; none
      is rejected, and every block of one carries its time of week. */
  lemma EndToEnd(us: seq<Ubx>, k: nat)
    requires k < |Emitted(Routed(us), |us|)|
    ensures |Completions(us, |us|)| == |Emitted(Routed(us), |us|)|
    ensures var e, c := Emitted(Routed(us), |us|)[k], Completions(us, |us|)[k];
            && Coherent(e)
            && EncodeEpoch(e, BODY_MAX).Some?
            && DecodeBody(EncodeEpoch(e, BODY_MAX).value) == Some(c.solution)
            && c.arrived == e.arrived
  {
    RunTwins(us, |us|);
    hide Emitted, Completions;
    var e, c := Emitted(Routed(us), |us|)[k], Completions(us, |us|)[k];
    assert SameDone(Some(e), Some(c));
    BodyAccepted(e, BODY_MAX);
    hide DecodeBody, DecodePvt, DecodeClock, DecodeStatus, Body, Code;
  }
}
