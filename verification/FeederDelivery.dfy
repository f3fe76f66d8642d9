/** End-to-end results about the feeder: acknowledged means delivered or counted lost, the resumable disk
    cursor sends what a full rescan would, and an undisturbed pass replays everything. */
module FeederDelivery {
  import opened BigEndian
  import opened SpoolFile
  import opened Spool
  import opened SpoolRuns
  import opened Feeder
  import opened FeederSafety

  // ----- acknowledged means delivered

  /** A collector acknowledges no more than the highest sequence it has ever received. */
  predicate Honest(w: World, ev: Event) {
    ev.AckFrame? ==> ev.n <= w.wire.highest
  }

  predicate HonestRun(w: World, evs: seq<Event>) {
    forall i :: 0 <= i < |evs| ==> Honest(Exec(w, evs[..i]), evs[i])
  }

  predicate Received(delivered: set<Frame>, n: nat) {
    exists f :: f in delivered && f.seqno == n
  }

  /** Everything up to the highest sequence received was received or lost. */
  predicate Accounted(delivered: set<Frame>, top: nat, lost: set<nat>) {
    forall n :: 0 < n <= top ==> n in lost || Received(delivered, n)
  }

  predicate DeliveredOK(x: Wire, s: State) {
    && x.received <= |x.sent| && (forall i :: 0 <= i < x.received ==> x.sent[i] in x.delivered)
    && (forall f :: f in x.delivered ==> Logged(s.hist.log, [f]))
    && x.highest <= s.seqno
    && Accounted(x.delivered, s.acked, s.hist.lost) && Accounted(x.delivered, x.highest, s.hist.lost)
  }

  lemma DeliveredGrows(x: Wire, s: State, t: State)
    requires DeliveredOK(x, s) && Grows(s, t) && (t.acked <= s.acked || t.acked <= x.highest)
    ensures DeliveredOK(x, t)
  {
    hide Received;
    forall f | f in x.delivered
      ensures Logged(t.hist.log, [f])
    {
      assert Logged(s.hist.log, [f]) && [f][0] == f;
    }
  }

  lemma DeliverOK(x: Wire, s: State)
    requires x.received < |x.sent| && DeliveredOK(x, s)
    requires WireOK(x, s.acked, s.seqno, s.hist.log) && NoGap(x, s.acked, s.hist.lost)
    ensures DeliveredOK(Deliver(x), s)
  {
    var y, f := Deliver(x), x.sent[x.received];
    assert Logged(s.hist.log, [f]);
    assert f in y.delivered;
    forall n: nat | Received(x.delivered, n)
      ensures Received(y.delivered, n)
    {
      var g :| g in x.delivered && g.seqno == n;
      assert g in y.delivered;
    }
    forall n | x.base < n <= f.seqno && n !in s.hist.lost && n > s.acked
      ensures Received(y.delivered, n)
    {
      assert f.seqno <= LastSent(x);
      var i :| 0 <= i < |x.sent| && x.sent[i].seqno == n;
      assert i <= x.received && x.sent[i] in y.delivered;
    }
    hide Received;
  }

  lemma NextDelivered(w: World, ev: Event)
    requires WInv(w) && ValidEvent(ev) && Honest(w, ev) && DeliveredOK(w.wire, w.spool)
    ensures DeliveredOK(Next(w, ev).wire, Next(w, ev).spool)
  {
    var s := w.spool;
    if Enabled(w, ev) {
      assert Inv(s) && WireOK(w.wire, s.acked, s.seqno, s.hist.log) && NoGap(w.wire, s.acked, s.hist.lost);
      hide WInv, Inv, WireOK, NoGap, DeliveredOK, Grows, ReadAt, Append;
      match ev
      case Producer(data, allocates, io) =>
        AppendGrows(s, data, allocates, io);
        AppendAcked(s, data, allocates, io);
        DeliveredGrows(w.wire, s, Append(s, data, allocates, io));
      case AckFrame(n) =>
        AckGrows(s, n);
        DeliveredGrows(w.wire, s, Ack(s, n));
      case Budget(extra) =>
        BudgetGrows(s, extra);
        DeliveredGrows(w.wire, s, Step(s, RaiseCap(extra)));
      case Receive => DeliverOK(w.wire, s);
      case _ => SentDelivered(w, ev);
    }
  }

  lemma AppendAcked(s: State, data: seq<byte>, allocates: bool, io: DiskIO)
    ensures Append(s, data, allocates, io).acked == s.acked
  {
    hide DiskPut;
    if s.ring != [] { DiskPutFrame(s, s.ring[0], io); }
  }

  /** The consumer's own steps deliver nothing by themselves. */
  lemma SentDelivered(w: World, ev: Event)
    requires Enabled(w, ev) && DeliveredOK(w.wire, w.spool)
    requires !ev.Producer? && !ev.AckFrame? && !ev.Budget? && !ev.Receive?
    ensures DeliveredOK(Next(w, ev).wire, Next(w, ev).spool)
  {
    hide Accounted, Logged, ReadAt, Above;
  }

  lemma {:induction false} ExecDelivered(w0: World, evs: seq<Event>)
    requires Boot(w0) && HonestRun(w0, evs) && (forall i :: 0 <= i < |evs| ==> ValidEvent(evs[i]))
    ensures WInv(Exec(w0, evs)) && DeliveredOK(Exec(w0, evs).wire, Exec(w0, evs).spool)
  {
    ExecInv(w0, evs);
    if evs == [] {
      assert w0.spool.acked == 0;
    } else {
      var p := evs[..|evs| - 1];
      assert forall i :: 0 <= i < |p| ==> p[..i] == evs[..i];
      ExecDelivered(w0, p);
      NextDelivered(Exec(w0, p), evs[|evs| - 1]);
    }
  }

  /** End-to-end safety: over every interleaving and any number of reconnects, with a collector that never
      acknowledges past what it has received, each acknowledged sequence either reached the collector with
      the record appended under it or is an eviction counted by the drop counters. */
  lemma AckedMeansDelivered(w0: World, evs: seq<Event>, n: nat)
    requires Boot(w0) && HonestRun(w0, evs) && (forall i :: 0 <= i < |evs| ==> ValidEvent(evs[i]))
    ensures var w := Exec(w0, evs);
            && (0 < n <= w.spool.acked ==>
                  n in w.spool.hist.lost ||
                  (n in w.spool.hist.log && Frame(n, w.spool.hist.log[n]) in w.wire.delivered))
            && CountersOK(w.spool)
  {
    ExecDelivered(w0, evs);
    var w := Exec(w0, evs);
    hide Exec, Boot, HonestRun;
    if 0 < n <= w.spool.acked && n !in w.spool.hist.lost {
      var f :| f in w.wire.delivered && f.seqno == n;
      assert Logged(w.spool.hist.log, [f]) && [f][0] == f;
    }
  }

  // ----- the disk cursor

  /** The frames the drain loop sends from byte `off` of a file on, with `upto` already sent. */
  function DrainFrom(file: seq<byte>, off: nat, upto: nat): seq<Frame>
    decreases |file| - off
  {
    match ReadAt(file, off)
    case None => []
    case Some(f) =>
      if f.seqno > upto then [f] + DrainFrom(file, off + 12 + |f.data|, f.seqno)
      else DrainFrom(file, off + 12 + |f.data|, upto)
  }

  lemma {:induction false} AboveAll(fs: seq<Frame>, upto: nat)
    requires forall i :: 0 <= i < |fs| ==> fs[i].seqno > upto
    ensures Above(fs, upto) == fs
  {
    if fs != [] {
      AboveAll(fs[1..], upto);
      assert [fs[0]] + fs[1..] == fs;
    }
  }

  lemma {:induction false} AboveSkips(fs: seq<Frame>, k: nat, upto: nat)
    requires k <= |fs| && (forall i :: 0 <= i < k ==> fs[i].seqno <= upto)
    ensures Above(fs, upto) == Above(fs[k..], upto)
  {
    if k > 0 {
      AboveSkips(fs[1..], k - 1, upto);
      assert fs[1..][k - 1..] == fs[k..];
    } else {
      assert fs[0..] == fs;
    }
  }

  /** From a record boundary, draining sends exactly the readable records above the mark. */
  lemma {:induction false} DrainIsAbove(s: State, k: nat, upto: nat)
    requires Inv(s) && s.tier.bytes != 0 && k <= |Readable(s)| && ValidFrames(Readable(s))
    ensures DrainFrom(Contents(s), Offset(Readable(s), k), upto) == Above(Readable(s)[k..], upto)
    decreases |Readable(s)| - k
  {
    hide Inv, Contents, ReadAt, RecordsBytes, ValidFrame, Readable;
    var fs := Readable(s);
    ReadAtCursor(s, k);
    if k < |fs| {
      var f, rest := fs[k], fs[k + 1..];
      assert fs[k..][1..] == rest;
      if f.seqno > upto {
        DrainIsAbove(s, k + 1, f.seqno);
        AboveAll(rest, f.seqno);
        AboveAll(rest, upto);
      } else {
        DrainIsAbove(s, k + 1, upto);
      }
    }
  }

  /** The resumable cursor refines a full rescan: in every reachable state in which the consumer has the file
      open, resuming at its cursor sends exactly what a scan from the end of the header would send. An append
      with its repair is one step here; FeederRace lets the reader in between. */
  lemma CursorRefinesRescan(w0: World, evs: seq<Event>)
    requires Boot(w0) && (forall i :: 0 <= i < |evs| ==> ValidEvent(evs[i]))
    ensures var w := Exec(w0, evs);
            w.con.phase.Scanning? ==>
              && DrainFrom(Contents(w.spool), w.con.off, w.con.sentUpto)
                   == DrainFrom(Contents(w.spool), HEADER_LEN, w.con.sentUpto)
              && DrainFrom(Contents(w.spool), w.con.off, w.con.sentUpto) == Above(Readable(w.spool), w.con.sentUpto)
  {
    ExecInv(w0, evs);
    var w := Exec(w0, evs);
    if w.con.phase.Scanning? {
      CursorAtScan(w);
    }
  }

  lemma CursorAtScan(w: World)
    requires WInv(w) && w.con.phase.Scanning?
    ensures DrainFrom(Contents(w.spool), w.con.off, w.con.sentUpto) == Above(Readable(w.spool), w.con.sentUpto)
    ensures DrainFrom(Contents(w.spool), HEADER_LEN, w.con.sentUpto) == Above(Readable(w.spool), w.con.sentUpto)
  {
    var fs := Readable(w.spool);
    assert Offset(fs, 0) == HEADER_LEN && fs[0..] == fs;
    ReadableFile(w.spool);
    hide Inv, Contents, Readable, DrainFrom, Above, WireOK, NoGap, ValidFrames, Offset;
    DrainIsAbove(w.spool, 0, w.con.sentUpto);
    DrainIsAbove(w.spool, w.con.idx, w.con.sentUpto);
    AboveSkips(fs, w.con.idx, w.con.sentUpto);
  }

  /** The loop of `disk_drain` on a connection that accepts `room` more sends. A refused send leaves the cursor before
      the record, so that what was sent and what a drain from there would send are together what was due. */
  method DiskDrain(file: seq<byte>, upto: nat, start: nat, room: nat)
    returns (sent: seq<Frame>, last: nat, off: nat, broken: bool)
    ensures sent + DrainFrom(file, off, last) == DrainFrom(file, start, upto)
    ensures |sent| == Min(room, |DrainFrom(file, start, upto)|)
    ensures broken <==> room < |DrainFrom(file, start, upto)|
    ensures last == if sent == [] then upto else sent[|sent| - 1].seqno
    ensures start <= off && (!broken ==> ReadAt(file, off) == None)
  {
    hide DrainFrom, ReadAt;
    sent, last, off := [], upto, start;
    while true
      invariant start <= off && |sent| <= room
      invariant sent + DrainFrom(file, off, last) == DrainFrom(file, start, upto)
      invariant last == if sent == [] then upto else sent[|sent| - 1].seqno
      decreases |file| - off
    {
      var r := ReadAt(file, off);
      if r == None { break; }
      var f := r.value;
      DrainStep(file, off, last, f);
      if f.seqno > last {
        if |sent| == room { return sent, last, off, true; }
        Assoc(sent, [f], DrainFrom(file, off + 12 + |f.data|, f.seqno));
        sent, last := sent + [f], f.seqno;
      }
      off := off + 12 + |f.data|;
    }
    DrainEnd(file, off, last);
    assert sent + [] == sent;
    broken := false;
  }

  lemma DrainStep(file: seq<byte>, off: nat, last: nat, f: Frame)
    requires ReadAt(file, off) == Some(f)
    ensures off + 12 + |f.data| <= |file|
    ensures var next := off + 12 + |f.data|;
            DrainFrom(file, off, last) == if f.seqno > last then [f] + DrainFrom(file, next, f.seqno)
              else DrainFrom(file, next, last)
  {
  }

  lemma DrainEnd(file: seq<byte>, off: nat, last: nat)
    requires ReadAt(file, off) == None
    ensures DrainFrom(file, off, last) == []
  {
  }

  /** What a pass from the last ACK owes the collector. */
  function Owed(s: State): seq<Frame> {
    (if s.tier.maxSeq > s.acked then Above(Readable(s), s.acked) else []) + s.ring
  }

  lemma {:induction false} AboveMember(fs: seq<Frame>, i: nat, upto: nat)
    requires i < |fs| && fs[i].seqno > upto
    ensures InFrames(Above(fs, upto), fs[i].seqno)
    ensures Increasing(fs) && i == |fs| - 1 ==> Above(fs, upto) != [] && Above(fs, upto)[|Above(fs, upto)| - 1] == fs[i]
  {
    var a := Above(fs, upto);
    if i == 0 {
      assert a[0] == fs[0];
      if |fs| == 1 { assert fs[1..] == []; }
    } else {
      AboveMember(fs[1..], i - 1, upto);
      var rest := Above(fs[1..], upto);
      var j :| 0 <= j < |rest| && rest[j].seqno == fs[i].seqno;
      assert a[if fs[0].seqno <= upto then j else j + 1].seqno == fs[i].seqno;
    }
  }

  lemma DrainCatchesUp(s: State)
    requires Inv(s) && s.tier.maxSeq > s.acked
    ensures var d := DrainFrom(Contents(s), HEADER_LEN, s.acked);
            && d == Above(Readable(s), s.acked)
            && d != [] && s.tier.maxSeq <= d[|d| - 1].seqno <= Evicted(s)
  {
    var fs := Readable(s);
    assert Offset(fs, 0) == HEADER_LEN && fs[0..] == fs;
    LastReadable(s);
    hide Inv, Contents, Readable, DrainFrom, Above, Offset, ValidFrame;
    ReadableFile(s);
    DrainIsAbove(s, 0, s.acked);
    AboveMember(fs, |fs| - 1, s.acked);
  }

  lemma LastReadable(s: State)
    requires Inv(s) && s.tier.maxSeq > s.acked
    ensures var fs := Readable(s);
            s.tier.bytes != 0 && fs != [] && s.tier.maxSeq <= fs[|fs| - 1].seqno <= Evicted(s)
  {
    hide RingOK, Covered, Logged, ValidFrame, Layout;
  }

  /** The batch loop of an undisturbed pass: at most `DRAIN_BATCH` ring frames are copied at a time, and sending stops
      at the first refusal. */
  method SendRing(ring: seq<Frame>, e: nat, start: nat, room: nat) returns (sent: seq<Frame>, broken: bool)
    requires forall i :: 0 <= i < |ring| ==> ring[i].seqno == e + 1 + i
    requires start <= e
    ensures sent == ring[..Min(room, |ring|)]
    ensures broken <==> room < |ring|
  {
    hide Above;
    var upto: nat := start;
    sent := [];
    while true
      invariant |sent| <= |ring| && |sent| <= room && sent == ring[..|sent|]
      invariant if sent == [] then upto <= e else upto == e + |sent|
      decreases |ring| - |sent|
    {
      AboveRing(ring, e, upto);
      var news := Above(ring, upto);
      var batch := news[..Min(DRAIN_BATCH, |news|)];
      if batch == [] { break; }
      var k := Min(room - |sent|, |batch|);
      assert ring[..|sent|] + batch[..k] == ring[..|sent| + k];
      sent := sent + batch[..k];
      if k < |batch| { return sent, true; }
      upto := batch[k - 1].seqno;
    }
    broken := false;
  }

  lemma PassFacts(s: State)
    requires Inv(s)
    ensures s.tier.maxSeq != 0 ==> s.cfg.hasPath
    ensures forall i :: 0 <= i < |s.ring| ==> s.ring[i].seqno == Evicted(s) + 1 + i
    ensures s.acked <= Evicted(s)
  {
    hide Covered, ValidFrame, Logged;
  }

  /** An undisturbed pass of `serve_collector` from the last ACK, on a connection that accepts `room` sends and no
      more. It sends the stored unacked frames once each, oldest first: the disk, then the whole ring. */
  method Replay(s: State, room: nat) returns (sent: seq<Frame>, broken: bool)
    requires Inv(s)
    ensures sent == Owed(s)[..Min(room, |Owed(s)|)]
    ensures broken <==> room < |Owed(s)|
  {
    hide Inv, Readable, Contents, Above, DrainFrom;
    PassFacts(s);
    var upto := s.acked;
    sent := [];
    ghost var disk := [];
    if s.cfg.hasPath && s.tier.maxSeq > upto {
      DrainCatchesUp(s);
      disk := Above(Readable(s), s.acked);
      var off;
      sent, upto, off, broken := DiskDrain(Contents(s), upto, HEADER_LEN, room);
      if broken {
        assert Owed(s)[..room] == disk[..room] == sent;
        return;
      }
    }
    assert sent == disk && Owed(s) == disk + s.ring;
    var rest;
    rest, broken := SendRing(s.ring, Evicted(s), upto, room - |sent|);
    sent := sent + rest;
  }

  /** Nothing unacked is left out of what a pass owes, except counted losses. */
  lemma OwedComplete(s: State, n: nat)
    requires Inv(s) && s.acked < n <= s.seqno && n !in s.hist.lost
    ensures InFrames(Owed(s), n)
  {
    var o := Owed(s);
    var d := o[..|o| - |s.ring|];
    assert s.tier.maxSeq > s.acked ==> d == Above(Readable(s), s.acked);
    hide FileOK, ValidFrame, Logged, Owed;
    if n <= Evicted(s) {
      var i :| 0 <= i < |s.hist.disk| && s.hist.disk[i].seqno == n && Readable(s)[i].seqno == n;
      assert n <= s.tier.maxSeq;
      hide Inv;
      AboveMember(Readable(s), i, s.acked);
      var j :| 0 <= j < |d| && d[j].seqno == n;
      assert o[j].seqno == n;
    } else {
      assert o[|d| + n - 1 - Evicted(s)].seqno == n;
    }
  }
}
