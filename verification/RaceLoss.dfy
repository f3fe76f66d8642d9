/** When a scan that lost its place costs a frame: the collector receives what is on the wire and acknowledges it
    honestly, and a frame is acknowledged that was neither delivered nor counted as lost (feeder/navfeeder.c). */
module RaceLoss {
  import opened BigEndian
  import opened SpoolFile
  import opened Spool
  import opened Feeder
  import opened FeederSafety
  import opened FeederDelivery
  import opened FeederRace
  import opened RaceDelivery

  // ----- the collector catches up

  function Receipts(n: nat): (es: seq<RaceEvent>)
    ensures |es| == n
  {
    seq(n, _ => Plain(Receive))
  }

  /** The wire after `k` more receipts. */
  function DeliverN(y: Wire, k: nat): (z: Wire)
    requires y.received + k <= |y.sent|
    ensures z.sent == y.sent && z.base == y.base && z.received == y.received + k
  {
    if k == 0 then y else Deliver(DeliverN(y, k - 1))
  }

  lemma SliceNext<T>(s: seq<T>, a: nat, b: nat)
    requires a <= b < |s|
    ensures s[a..b + 1] == s[a..b] + [s[b]]
  {
  }

  lemma {:induction false} DeliverSet(y: Wire, k: nat)
    requires y.received + k <= |y.sent|
    ensures forall f :: f in DeliverN(y, k).delivered <==> f in y.delivered || f in y.sent[y.received..y.received + k]
  {
    if k > 0 {
      DeliverSet(y, k - 1);
      SliceNext(y.sent, y.received, y.received + k - 1);
    }
  }

  lemma {:induction false} DeliverHighest(y: Wire, k: nat)
    requires y.received + k <= |y.sent| && Increasing(y.sent)
    ensures DeliverN(y, k).highest == if k > 0 && y.sent[y.received + k - 1].seqno > y.highest
                                      then y.sent[y.received + k - 1].seqno else y.highest
  {
    if k > 0 {
      DeliverHighest(y, k - 1);
      var i := y.received + k - 1;
      assert k > 1 ==> y.sent[i - 1].seqno < y.sent[i].seqno;
      hide Increasing;
    }
  }

  /** What the receipts add: exactly the frames received, and the highest of them. */
  lemma DeliverAdds(y: Wire, k: nat)
    requires y.received + k <= |y.sent| && Increasing(y.sent)
    ensures var z := DeliverN(y, k);
            && (forall f :: f in z.delivered <==> f in y.delivered || f in y.sent[y.received..y.received + k])
            && z.highest == if k > 0 && y.sent[y.received + k - 1].seqno > y.highest
                            then y.sent[y.received + k - 1].seqno else y.highest
  {
    hide DeliverN, Increasing;
    DeliverSet(y, k);
    DeliverHighest(y, k);
  }

  /** The collector receives everything on the wire, then acknowledges the highest sequence it ever received. */
  function Caught(y: Wire): Wire
    requires y.received <= |y.sent|
  {
    DeliverN(y, |y.sent| - y.received)
  }

  /** End-to-end safety in one state: acknowledged means delivered or lost. */
  predicate AckedDelivered(s: State, delivered: set<Frame>) {
    forall n :: 0 < n <= s.acked ==> n in s.hist.lost || (n in s.hist.log && Frame(n, s.hist.log[n]) in delivered)
  }

  /** Sequence `n` is lost, was delivered, or is what `f` carries. */
  predicate Answered(s: State, delivered: set<Frame>, f: Frame, n: nat) {
    n in s.hist.lost || (n in s.hist.log && (Frame(n, s.hist.log[n]) in delivered || Frame(n, s.hist.log[n]) == f))
  }

  /** Every sequence the collector may now acknowledge for `f` is answered. */
  predicate AllAnswered(s: State, delivered: set<Frame>, upto: nat, f: Frame) {
    forall n :: upto < n <= Min(f.seqno, s.seqno) ==> Answered(s, delivered, f, n)
  }

  lemma AccountedFrame(s: State, delivered: set<Frame>, top: nat, n: nat)
    requires Accounted(delivered, top, s.hist.lost) && 0 < n <= top && n !in s.hist.lost
    requires forall f :: f in delivered ==> Logged(s.hist.log, [f])
    ensures n in s.hist.log && Frame(n, s.hist.log[n]) in delivered
  {
    var f :| f in delivered && f.seqno == n;
    assert Logged(s.hist.log, [f]) && [f][0] == f;
  }

  /** What was sent in order before `f` is delivered or lost once the collector has caught up. */
  lemma EarlierDelivered(y: Wire, s: State, z: Wire, n: nat)
    requires DeliveredOK(y, s) && NoGap(y, s.acked, s.hist.lost) && Logged(s.hist.log, y.sent)
    requires 0 < n && (n <= s.acked || n <= y.highest || n <= LastSent(y)) && y.base <= s.acked && n !in s.hist.lost
    requires y.delivered <= z.delivered && forall i :: y.received <= i < |y.sent| ==> y.sent[i] in z.delivered
    ensures n in s.hist.log && Frame(n, s.hist.log[n]) in z.delivered
  {
    if n <= s.acked {
      AccountedFrame(s, y.delivered, s.acked, n);
    } else if n <= y.highest {
      AccountedFrame(s, y.delivered, y.highest, n);
    } else {
      var i :| 0 <= i < |y.sent| && y.sent[i].seqno == n;
      assert y.sent[i] in z.delivered;
    }
  }

  /** The state after the collector has caught up with `f` on the wire and acknowledged. */
  lemma CaughtWith(y: Wire, f: Frame)
    requires y.received <= |y.sent| && Increasing(y.sent) && LastSent(y) < f.seqno
    ensures var z := Caught(y.(sent := y.sent + [f]));
            && Increasing(y.sent + [f])
            && (forall g :: g in z.delivered <==> g in y.delivered || g in y.sent[y.received..] || g == f)
            && z.highest == if f.seqno > y.highest then f.seqno else y.highest
  {
    var x := y.(sent := y.sent + [f]);
    var k := |x.sent| - x.received;
    assert Increasing(x.sent);
    DeliverAdds(x, k);
    assert x.sent[x.received..x.received + k] == y.sent[y.received..] + [f];
  }

  /** How far the acknowledgement reaches once `f` was received. */
  function AckMark(s: State, highest: nat, f: Frame): nat {
    var top := if f.seqno > highest then f.seqno else highest;
    if Min(top, s.seqno) > s.acked then Min(top, s.seqno) else s.acked
  }

  /** A frame past the last one sent is on the wire only as `f`. */
  lemma NotOnWire(y: Wire, g: Frame)
    requires y.received <= |y.sent| && Increasing(y.sent) && LastSent(y) < g.seqno
    ensures g !in y.sent[y.received..]
  {
  }

  lemma CatchUpSafe(y: Wire, s: State, f: Frame, n: nat)
    requires DeliveredOK(y, s) && WireOK(y, s.acked, s.seqno, s.hist.log) && NoGap(y, s.acked, s.hist.lost)
    requires LastSent(y) < f.seqno && AllAnswered(s, y.delivered, LastSent(y), f)
    requires 0 < n <= AckMark(s, y.highest, f) && n !in s.hist.lost
    ensures n in s.hist.log
    ensures var g := Frame(n, s.hist.log[n]); g in y.delivered || g in y.sent[y.received..] || g == f
  {
    if n <= s.acked || n <= y.highest || n <= LastSent(y) {
      var z := y.(delivered := y.delivered + (set g | g in y.sent[y.received..]));
      assert forall i :: y.received <= i < |y.sent| ==> y.sent[i] in y.sent[y.received..];
      hide Accounted, Increasing, InFrames;
      EarlierDelivered(y, s, z, n);
    } else {
      assert Answered(s, y.delivered, f, n);
    }
  }

  lemma CatchUpNeeds(y: Wire, s: State, f: Frame, n: nat)
    requires y.received <= |y.sent| && Increasing(y.sent) && LastSent(y) < n <= Min(f.seqno, s.seqno)
    ensures n <= AckMark(s, y.highest, f)
    ensures n in s.hist.log && !Answered(s, y.delivered, f, n) ==>
      var g := Frame(n, s.hist.log[n]); !(g in y.delivered || g in y.sent[y.received..] || g == f)
  {
    if n in s.hist.log { NotOnWire(y, Frame(n, s.hist.log[n])); }
  }

  /** Delivery hangs on what `f` answers: when a scan puts `f` on the wire after sends in order, the collector may
      catch up and acknowledge safely if and only if every sequence up to `f` is answered. */
  lemma CatchUpIff(y: Wire, s: State, f: Frame)
    requires DeliveredOK(y, s) && WireOK(y, s.acked, s.seqno, s.hist.log) && NoGap(y, s.acked, s.hist.lost)
    requires LastSent(y) < f.seqno
    ensures var z := Caught(y.(sent := y.sent + [f]));
            AckedDelivered(Ack(s, z.highest), z.delivered) <==> AllAnswered(s, y.delivered, LastSent(y), f)
  {
    var z := Caught(y.(sent := y.sent + [f]));
    CaughtWith(y, f);
    var t := Ack(s, z.highest);
    assert t.hist == s.hist && t.acked == AckMark(s, y.highest, f);
    hide DeliveredOK, NoGap, LastSent, Caught, Ack, AckMark, Increasing, Logged;
    if AllAnswered(s, y.delivered, LastSent(y), f) {
      forall n | 0 < n <= t.acked && n !in s.hist.lost
        ensures n in s.hist.log && Frame(n, s.hist.log[n]) in z.delivered
      {
        CatchUpSafe(y, s, f, n);
      }
    }
    if AckedDelivered(t, z.delivered) {
      forall n | LastSent(y) < n <= Min(f.seqno, s.seqno)
        ensures Answered(s, y.delivered, f, n)
      {
        CatchUpNeeds(y, s, f, n);
      }
    }
  }

  /** A sequence that is not answered is acknowledged all the same, undelivered and uncounted. */
  lemma CatchUpLoses(y: Wire, s: State, f: Frame, n: nat)
    requires DeliveredOK(y, s) && WireOK(y, s.acked, s.seqno, s.hist.log)
    requires LastSent(y) < n <= Min(f.seqno, s.seqno) && n in s.hist.log && !Answered(s, y.delivered, f, n)
    ensures var z := Caught(y.(sent := y.sent + [f]));
            && n <= Ack(s, z.highest).acked && n !in s.hist.lost && Frame(n, s.hist.log[n]) !in z.delivered
  {
    CaughtWith(y, f);
    CatchUpNeeds(y, s, f, n);
    hide DeliveredOK, Caught, Increasing, Logged;
  }

  // ----- as a run

  /** An honest ending: a pending append settles, the collector receives everything and acknowledges the highest
      sequence it ever received. */
  function Ending(x: Race): seq<RaceEvent>
    requires x.w.wire.received <= |x.w.wire.sent|
  {
    (if x.append.Some? then [Settle] else []) + Receipts(|x.w.wire.sent| - x.w.wire.received)
    + [Plain(AckFrame(Caught(x.w.wire).highest))]
  }

  lemma ReceiveStep(x: Race)
    requires x.w.wire.received < |x.w.wire.sent|
    ensures var y := RaceStep(x, Plain(Receive));
            y.append == x.append && y.w == x.w.(wire := Deliver(x.w.wire))
  {
    hide Deliver;
  }

  lemma {:induction false} ReceiptsRun(x: Race, k: nat)
    requires x.w.wire.received + k <= |x.w.wire.sent|
    ensures var y := RaceRun(x, Receipts(k));
            y.append == x.append && y.w.spool == x.w.spool && y.w.con == x.w.con && y.w.wire == DeliverN(x.w.wire, k)
  {
    if k > 0 {
      hide RaceRun, RaceStep, Deliver;
      ReceiptsRun(x, k - 1);
      var es := Receipts(k);
      assert es[..k - 1] == Receipts(k - 1) && es[k - 1] == Plain(Receive);
      RunLast(x, es);
      ReceiveStep(RaceRun(x, Receipts(k - 1)));
    }
  }

  /** The spool once a pending append has settled. */
  function Settled(x: Race): State {
    if x.append.None? then x.w.spool
    else Append(x.w.spool, x.append.value.data, x.append.value.allocates, x.append.value.io)
  }

  lemma {:induction false} RunConcat(x: Race, a: seq<RaceEvent>, b: seq<RaceEvent>)
    ensures RaceRun(x, a + b) == RaceRun(RaceRun(x, a), b)
  {
    hide RaceStep;
    if b == [] {
      assert a + [] == a;
    } else {
      var n := |b| - 1;
      RunConcat(x, a, b[..n]);
      assert (a + b)[..|a| + n] == a + b[..n];
    }
  }

  lemma RunOne(x: Race, e: RaceEvent)
    ensures RaceRun(x, [e]) == RaceStep(x, e)
  {
    hide RaceStep;
    assert [e][..0] == [];
  }

  lemma SettleRun(x: Race)
    ensures var y := RaceRun(x, if x.append.Some? then [Settle] else []);
            y.append.None? && y.w.spool == Settled(x) && y.w.con == x.w.con && y.w.wire == x.w.wire
  {
    RunOne(x, Settle);
    hide Append;
  }

  lemma EndingRun(x: Race)
    requires x.w.wire.received <= |x.w.wire.sent|
    ensures var y := RaceRun(x, Ending(x));
            y.w.spool == Ack(Settled(x), Caught(x.w.wire).highest) && y.w.wire == Caught(x.w.wire)
  {
    hide RaceRun, Settled, DeliverN, Ack, Receipts;
    var a := if x.append.Some? then [Settle] else [];
    var k := |x.w.wire.sent| - x.w.wire.received;
    var e := Plain(AckFrame(Caught(x.w.wire).highest));
    RunConcat(x, a + Receipts(k), [e]);
    RunConcat(x, a, Receipts(k));
    SettleRun(x);
    ReceiptsRun(RaceRun(x, a), k);
    RunOne(RaceRun(x, a + Receipts(k)), e);
  }

  lemma EndingHonest(x: Race)
    requires x.w.wire.received <= |x.w.wire.sent|
    ensures HonestRace(x, Ending(x))
  {
    hide RaceRun, DeliverN, Settled;
    var a := if x.append.Some? then [Settle] else [];
    var k := |x.w.wire.sent| - x.w.wire.received;
    var es := Ending(x);
    var n := |es| - 1;
    assert es[..n] == a + Receipts(k);
    RunConcat(x, a, Receipts(k));
    SettleRun(x);
    ReceiptsRun(RaceRun(x, a), k);
    forall i | 0 <= i < |es| && es[i].Plain?
      ensures Honest(RaceRun(x, es[..i]).w, es[i].ev)
    {
      assert i < n ==> es[i] == (a + Receipts(k))[i];
    }
  }

  /** The wire and the collector as the settled spool sees them. */
  lemma SettledFacts(x: Race)
    requires RaceInv(x) && DeliveredOK(x.w.wire, x.w.spool)
    ensures var s := Settled(x);
            && DeliveredOK(x.w.wire, s) && WireOK(x.w.wire, s.acked, s.seqno, s.hist.log)
            && NoGap(x.w.wire, s.acked, s.hist.lost)
  {
    SettledInv(x);
    hide RaceInv, DeliveredOK, WireOK, NoGap, Append, Grows;
    if x.append.Some? {
      var p := x.append.value;
      AppendAcked(x.w.spool, p.data, p.allocates, p.io);
      WireGrows(x.w.wire, x.w.spool, Settled(x));
      DeliveredGrows(x.w.wire, x.w.spool, Settled(x));
    }
  }

  lemma SettledInv(x: Race)
    requires RaceInv(x)
    ensures WireOK(x.w.wire, x.w.spool.acked, x.w.spool.seqno, x.w.spool.hist.log)
    ensures NoGap(x.w.wire, x.w.spool.acked, x.w.spool.hist.lost)
    ensures Grows(x.w.spool, Settled(x)) && Settled(x).acked <= Settled(x).seqno
  {
    assert WInv(Offlined(x.w)) && PendingOK(x.w.spool, x.append);
    hide Inv, ConOK, NoGap, WireOK, Append, Evicting;
    WInvSpool(Offlined(x.w));
    AckedWithin(x.w.spool);
    if x.append.Some? {
      var p := x.append.value;
      AppendInv(x.w.spool, p.data, p.allocates, p.io);
      AckedWithin(Settled(x));
      AppendGrows(x.w.spool, p.data, p.allocates, p.io);
    }
  }

  lemma AckedWithin(s: State)
    requires Inv(s)
    ensures s.acked <= s.seqno
  {
    hide StoreOK;
  }

  /** A loose scan sends `f`: what follows is safe exactly when `f` answers for every sequence up to it. */
  lemma LooseSendIff(x: Race, reply: Reply, f: Frame)
    requires RaceInv(x) && Loose(x) && DeliveredOK(x.w.wire, x.w.spool) && Reaches(reply)
    requires ReadAt(File(x), x.w.con.off) == Some(f) && f.seqno > x.w.con.sentUpto
    ensures var y := RaceStep(x, Plain(ReadRecord(reply)));
            && y.w.wire == x.w.wire.(sent := x.w.wire.sent + [f]) && y.w.spool == x.w.spool && y.append == x.append
            && y.w.wire.received <= |y.w.wire.sent|
            && (var z := RaceRun(y, Ending(y)).w;
                AckedDelivered(z.spool, z.wire.delivered) <==>
                AllAnswered(Settled(x), x.w.wire.delivered, x.w.con.sentUpto, f))
  {
    LooseFacts(x);
    SettledFacts(x);
    assert x.w.wire.received <= |x.w.wire.sent|;
    hide RaceInv, Inv, WireOK, NoGap, DeliveredOK, ReadAt, File, Contents, LastSent, Append, RaceRun, AllAnswered, Ack;
    var y := RaceStep(x, Plain(ReadRecord(reply)));
    assert y.w.wire == x.w.wire.(sent := x.w.wire.sent + [f]) && y.w.spool == x.w.spool && y.append == x.append;
    EndingRun(y);
    CatchUpIff(x.w.wire, Settled(x), f);
  }

  /** Delivery, with the reader racing the writer: after any honest run that was in order so far, a loose scan may
      put what it finds on the wire, and the collector may then catch up and acknowledge, without an acknowledged
      sequence being neither delivered nor lost, if and only if every sequence up to the one found is answered. */
  lemma RaceDeliveryIff(x0: Race, es: seq<RaceEvent>, reply: Reply, f: Frame)
    requires RaceBoot(x0) && SafeRun(x0, es) && HonestRace(x0, es) && Loose(RaceRun(x0, es)) && Reaches(reply)
    requires forall i :: 0 <= i < |es| ==> ValidRaceEvent(es[i])
    requires var x := RaceRun(x0, es);
             ReadAt(File(x), x.w.con.off) == Some(f) && f.seqno > x.w.con.sentUpto
    ensures var x := RaceRun(x0, es);
            var y := RaceStep(x, Plain(ReadRecord(reply)));
            && y.w.wire.received <= |y.w.wire.sent| && HonestRace(y, Ending(y))
            && (var z := RaceRun(y, Ending(y)).w;
                AckedDelivered(z.spool, z.wire.delivered) <==>
                AllAnswered(Settled(x), x.w.wire.delivered, x.w.con.sentUpto, f))
  {
    hide *;
    RunDelivered(x0, es);
    LooseSendIff(RaceRun(x0, es), reply, f);
    EndingHonest(RaceStep(RaceRun(x0, es), Plain(ReadRecord(reply))));
  }

  /** A stored, unacked frame that was never delivered and is passed over is acknowledged all the same. */
  lemma PassedOverIsLost(x: Race, reply: Reply, f: Frame, n: nat)
    requires RaceInv(x) && Loose(x) && DeliveredOK(x.w.wire, x.w.spool) && Reaches(reply)
    requires ReadAt(File(x), x.w.con.off) == Some(f) && x.w.con.sentUpto < n < f.seqno
    requires n <= Settled(x).seqno && n in Settled(x).hist.log && n !in Settled(x).hist.lost
    requires Frame(n, Settled(x).hist.log[n]) !in x.w.wire.delivered
    ensures var y := RaceStep(x, Plain(ReadRecord(reply)));
            && y.w.wire.received <= |y.w.wire.sent|
            && (var z := RaceRun(y, Ending(y)).w;
                && n <= z.spool.acked && n !in z.spool.hist.lost && n in z.spool.hist.log
                && Frame(n, z.spool.hist.log[n]) !in z.wire.delivered)
  {
    LooseFacts(x);
    SettledFacts(x);
    LooseSendIff(x, reply, f);
    var y := RaceStep(x, Plain(ReadRecord(reply)));
    assert Ack(Settled(x), Caught(y.w.wire).highest).hist == Settled(x).hist;
    hide RaceInv, Inv, WireOK, NoGap, DeliveredOK, ReadAt, File, LastSent, Append, RaceRun, RaceStep, Ack;
    hide AckedDelivered;
    EndingRun(y);
    CatchUpLoses(x.w.wire, Settled(x), f, n);
  }
}
