/** The edge: receiver messages in, record bodies out (common/receiver_solution.h). */
module SolutionFeed {
  import opened BigEndian
  import opened SolutionBlocks
  import opened SolutionAssembler
  import Wire

  const CLASS_NAV := 0x01
  const ID_STATUS := 0x03
  const ID_PVT := 0x07
  const ID_CLOCK := 0x22
  const ID_EOE := 0x61
  const BODY_MAX := 103

  /** One checksum-valid receiver message and the clock when it arrived. */
  datatype Ubx = Ubx(cls: byte, id: byte, payload: seq<byte>, now: nat)

  function BlockOf(kind: Kind, block: Option<seq<byte>>, u: Ubx): Msg
    requires block.Some? ==> |u.payload| >= 4
  {
    if block.Some? then Block(kind, Le32(u.payload, 0), block.value, u.now) else Ignored
  }

  /** What `rs_ubx_feed` makes of a message. */
  function Route(u: Ubx): Msg {
    if u.cls != CLASS_NAV then Ignored
    else if u.id == ID_PVT then BlockOf(PvtKind, PvtBlock(u.payload), u)
    else if u.id == ID_CLOCK then BlockOf(ClockKind, ClockBlock(u.payload), u)
    else if u.id == ID_STATUS then BlockOf(StatusKind, StatusBlock(u.payload), u)
    else if u.id == ID_EOE && |u.payload| == 4 then End(Le32(u.payload, 0))
    else Ignored
  }

  /** The messages by number: NAV-PVT, NAV-CLOCK and NAV-STATUS bring blocks, NAV-EOE ends an epoch. */
  lemma RouteIds(u: Ubx)
    ensures Route(u).End? <==> u.cls == 1 && u.id == 0x61 && |u.payload| == 4
    ensures u.cls == 1 && u.id == 0x07 && PvtBlock(u.payload).Some? ==>
      |u.payload| >= 4 && Route(u) == Block(PvtKind, Le32(u.payload, 0), PvtBlock(u.payload).value, u.now)
    ensures u.cls == 1 && u.id == 0x22 && ClockBlock(u.payload).Some? ==>
      |u.payload| >= 4 && Route(u) == Block(ClockKind, Le32(u.payload, 0), ClockBlock(u.payload).value, u.now)
    ensures u.cls == 1 && u.id == 0x03 && StatusBlock(u.payload).Some? ==>
      |u.payload| >= 4 && Route(u) == Block(StatusKind, Le32(u.payload, 0), StatusBlock(u.payload).value, u.now)
    ensures Route(u).Block? ==> u.cls == 1 && u.id in {0x03, 0x07, 0x22}
  {
    hide Le32, EdgeAccepts, Wire.Flatten;
  }

  /** A solution message the record cannot carry. */
  predicate Bad(u: Ubx) {
    u.cls == CLASS_NAV && u.id in {ID_PVT, ID_CLOCK, ID_STATUS, ID_EOE} && Route(u).Ignored?
  }

  class Assembler {
    var pending: Epoch
    var havePending: bool
    var lastDone: nat
    var haveDone: bool

    ghost function View(): State
      reads this
    {
      State(pending, havePending, lastDone, haveDone)
    }

    constructor ()
      ensures View() == Initial()
    {
      pending, havePending, lastDone, haveDone := Fresh(0, 0), false, 0, false;
    }

    /** `rs_assembler_add`. */
    method Append(kind: Kind, tow: nat, data: seq<byte>, now: nat) returns (done: Option<Epoch>)
      modifies this
      ensures Outcome(View(), done) == Add(old(View()), kind, tow, data, now)
    {
      done := None;
      if haveDone && tow == lastDone { return; }
      if havePending && pending.tow != tow {
        done := Some(pending);
        havePending := false;
        lastDone := pending.tow;
        haveDone := true;
      }
      if !havePending {
        pending := Fresh(tow, now);
        havePending := true;
      }
      match kind
      case PvtKind => pending := pending.(pvt := data, present := pending.present.(pvt := true));
      case ClockKind => pending := pending.(clock := data, present := pending.present.(clock := true));
      case StatusKind => pending := pending.(status := data, present := pending.present.(status := true));
      case OtherKind =>
    }

    /** `rs_assembler_end`. */
    method Finish(tow: nat) returns (done: Option<Epoch>)
      modifies this
      ensures Outcome(View(), done) == Close(old(View()), tow)
    {
      if !havePending || pending.tow != tow { return None; }
      done := Some(pending);
      havePending := false;
      lastDone := tow;
      haveDone := true;
    }

    /** `rs_ubx_feed`. */
    method Feed(u: Ubx) returns (done: Option<Epoch>, bad: bool)
      modifies this
      ensures Outcome(View(), done) == Step(old(View()), Route(u))
      ensures bad == Bad(u)
    {
      PvtCommutes(u.payload);
      ClockCommutes(u.payload);
      StatusCommutes(u.payload);
      hide PvtBlock, ClockBlock, StatusBlock, ParsePvt, Le32, Add, Close;
      done, bad := None, false;
      if u.cls != CLASS_NAV { return; }
      if u.id == ID_PVT {
        var block := new byte[PVT_LEN];
        var ok, tow := WritePvt(u.payload, block);
        if !ok { bad := true; return; }
        done := Append(PvtKind, tow, block[..], u.now);
      } else if u.id == ID_CLOCK {
        var block := new byte[CLOCK_LEN];
        var ok, tow := WriteClock(u.payload, block);
        if !ok { bad := true; return; }
        done := Append(ClockKind, tow, block[..], u.now);
      } else if u.id == ID_STATUS {
        var block := new byte[STATUS_LEN];
        var ok, tow := WriteStatus(u.payload, block);
        if !ok { bad := true; return; }
        done := Append(StatusKind, tow, block[..], u.now);
      } else if u.id == ID_EOE {
        if |u.payload| != 4 { bad := true; return; }
        done := Finish(Le32(u.payload, 0));
      }
    }
  }

  // ----- the record body

  function Code(p: Present): byte {
    (if p.pvt then 1 else 0) + (if p.clock then 2 else 0) + (if p.status then 4 else 0)
  }

  function If(c: bool, b: seq<byte>): seq<byte> { if c then b else [] }

  function Body(e: Epoch): seq<byte> {
    [if e.stamp != 0 then 2 else 1, Code(e.present)] + If(e.present.pvt, e.pvt) + If(e.present.clock, e.clock)
    + If(e.present.status, e.status) + If(e.stamp != 0, [e.stamp])
  }

  predicate Sized(e: Epoch) { |e.pvt| == PVT_LEN && |e.clock| == CLOCK_LEN && |e.status| == STATUS_LEN }

  function Length(e: Epoch): nat {
    2 + (if e.present.pvt then PVT_LEN else 0) + (if e.present.clock then CLOCK_LEN else 0)
    + (if e.present.status then STATUS_LEN else 0) + (if e.stamp != 0 then 1 else 0)
  }

  /** `rs_encode`; `None` stands for a returned length of 0. */
  function EncodeEpoch(e: Epoch, cap: nat): (r: Option<seq<byte>>)
    requires Sized(e)
  {
    if e.stamp > 5 || Code(e.present) == 0 || Length(e) > cap then None else Some(Body(e))
  }

  /** `memcpy` to offset `o`, when the block is present. */
  method CopyIf(out: array<byte>, o: nat, present: bool, data: seq<byte>, ghost done: seq<byte>) returns (next: nat)
    requires o <= out.Length && out[..o] == done && o + |If(present, data)| <= out.Length
    modifies out
    ensures next == o + |If(present, data)| <= out.Length && out[..next] == done + If(present, data)
    ensures forall i :: next <= i < out.Length ==> out[i] == old(out[i])
  {
    if !present { return o; }
    Wire.CopyTo(out, o, data);
    return o + |data|;
  }

  method Encode(e: Epoch, out: array<byte>, cap: nat) returns (n: nat)
    requires Sized(e) && cap <= out.Length
    modifies out
    ensures n == 0 <==> EncodeEpoch(e, cap).None?
    ensures n != 0 ==> n <= cap && out[..n] == EncodeEpoch(e, cap).value
    ensures forall i :: n <= i < out.Length ==> out[i] == old(out[i])
  {
    if e.stamp > 5 || Code(e.present) == 0 || Length(e) > cap { return 0; }
    var head := [if e.stamp != 0 then 2 else 1, Code(e.present)];
    assert If(true, head) == head;
    assert Length(e) == 2 + |If(e.present.pvt, e.pvt)| + |If(e.present.clock, e.clock)|
      + |If(e.present.status, e.status)|
                        + |If(e.stamp != 0, [e.stamp])|;
    hide Code, If, Length;
    ghost var a := head + If(e.present.pvt, e.pvt);
    ghost var b := a + If(e.present.clock, e.clock);
    ghost var c := b + If(e.present.status, e.status);
    var o := CopyIf(out, 0, true, head, []);
    o := CopyIf(out, o, e.present.pvt, e.pvt, head);
    o := CopyIf(out, o, e.present.clock, e.clock, a);
    o := CopyIf(out, o, e.present.status, e.status, b);
    n := CopyIf(out, o, e.stamp != 0, [e.stamp], c);
  }
}
