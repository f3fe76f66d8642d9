/** What every interleaving of the feeder keeps: no frame is skipped within a connection, and nothing is
    acknowledged that was neither delivered nor counted as lost. */
module FeederSafety {
  import opened BigEndian
  import opened SpoolFile
  import opened Spool
  import opened SpoolRuns
  import opened Feeder

  // ----- what the spool keeps while other threads run

  predicate LogExtends(a: map<nat, seq<byte>>, b: map<nat, seq<byte>>) {
    forall n :: n in a ==> n in b && b[n] == a[n]
  }

  /** A step of the producer or the ACK reader, as the consumer sees it. */
  predicate Grows(s: State, t: State) {
    && s.acked <= t.acked && s.seqno <= t.seqno && s.hist.lost <= t.hist.lost && s.tier.gen <= t.tier.gen
    && LogExtends(s.hist.log, t.hist.log)
  }

  predicate KeepsFile(s: State, t: State) {
    Readable(s) <= Readable(t) && (s.tier.bytes != 0 ==> t.tier.bytes != 0)
  }

  lemma WriteRecordGrows(s: State, f: Frame, w: Write)
    requires s.hist.stray == None
    ensures KeepsFile(s, WriteRecord(s, f, w)) && s.hist.lost <= WriteRecord(s, f, w).hist.lost
  {
    hide RecordBytes, Bytes;
  }

  lemma DiskPutGrows(s: State, f: Frame, io: DiskIO)
    requires !s.tier.disabled ==> s.hist.stray == None
    ensures KeepsFile(s, DiskPut(s, f, io)) && s.hist.lost <= DiskPut(s, f, io).hist.lost
  {
    hide RecordBytes, Header, Bytes, WriteRecord;
    if !s.tier.disabled {
      var s1 := OpenWriter(s);
      WriteRecordGrows(s1, f, io.record);
      if io.header.Flushed? { WriteRecordGrows(WriteHeader(s1, io.header), f, io.record); }
    }
  }

  lemma AppendGrows(s: State, data: seq<byte>, allocates: bool, io: DiskIO)
    requires Inv(s)
    ensures var t := Append(s, data, allocates, io); Grows(s, t) && KeepsFile(s, t) && t.cfg == s.cfg
  {
    hide Inv, Evict, Push, Grows, KeepsFile;
    SpoolFacts(s);
    if !Refuses(s, allocates) {
      if |s.ring| == s.cfg.cap {
        EvictGrows(s, io);
        PushGrows(Evict(s, io), data);
        GrowsTrans(s, Evict(s, io), Push(Evict(s, io), data));
      } else {
        PushGrows(s, data);
      }
    } else {
      RefuseGrows(s);
    }
  }

  lemma RefuseGrows(s: State)
    ensures var t := s.(dropped := s.dropped + 1, hist := s.hist.(refused := s.hist.refused + 1));
            Grows(s, t) && KeepsFile(s, t)
  {
  }

  lemma GrowsTrans(s: State, t: State, u: State)
    requires Grows(s, t) && KeepsFile(s, t) && Grows(t, u) && KeepsFile(t, u)
    ensures Grows(s, u) && KeepsFile(s, u)
  {
    hide Readable;
    assert Readable(s) <= Readable(u);
  }

  lemma EvictGrows(s: State, io: DiskIO)
    requires s.ring != [] && (!s.tier.disabled ==> s.hist.stray == None)
    ensures var t := Evict(s, io);
            Grows(s, t) && KeepsFile(s, t) && t.cfg == s.cfg && t.seqno == s.seqno && t.hist.log == s.hist.log
  {
    hide DiskPut;
    DiskPutGrows(s, s.ring[0], io);
    DiskPutFrame(s, s.ring[0], io);
  }

  lemma PushGrows(s: State, data: seq<byte>)
    requires forall n :: n in s.hist.log ==> n <= s.seqno
    ensures Grows(s, Push(s, data)) && KeepsFile(s, Push(s, data)) && Push(s, data).cfg == s.cfg
  {
  }

  lemma SpoolFacts(s: State)
    requires Inv(s)
    ensures !s.tier.disabled ==> s.hist.stray == None
    ensures forall n :: n in s.hist.log ==> n <= s.seqno
  {
    hide RingOK, Covered, Logged, DiskOK, StrayOK;
  }

  lemma AckGrows(s: State, n: nat)
    ensures Grows(s, Ack(s, n)) && KeepsFile(s, Ack(s, n))
  {
  }

  // ----- the wire

  function LastSent(x: Wire): nat {
    if x.sent == [] then x.base else x.sent[|x.sent| - 1].seqno
  }

  /** Sends are strictly increasing and carry the records that were appended. */
  predicate WireOK(x: Wire, acked: nat, seqno: nat, log: map<nat, seq<byte>>) {
    && x.base <= acked <= seqno && x.received <= |x.sent| && Increasing(x.sent) && Logged(log, x.sent)
    && (forall i :: 0 <= i < |x.sent| ==> x.base < x.sent[i].seqno <= seqno)
  }

  predicate SkipFree(lo: nat, hi: nat, acked: nat, lost: set<nat>) {
    forall n :: lo < n < hi ==> n <= acked || n in lost
  }

  /** Every sequence from the ACK at connect up to the last one sent was sent, is acked, or was lost. */
  predicate NoGap(x: Wire, acked: nat, lost: set<nat>) {
    forall n :: x.base < n <= LastSent(x) ==> InFrames(x.sent, n) || n <= acked || n in lost
  }

  lemma Extend(x: Wire, f: Frame, acked: nat, seqno: nat, log: map<nat, seq<byte>>, lost: set<nat>)
    requires WireOK(x, acked, seqno, log) && NoGap(x, acked, lost)
    requires LastSent(x) < f.seqno <= seqno && Logged(log, [f]) && SkipFree(LastSent(x), f.seqno, acked, lost)
    ensures var y := x.(sent := x.sent + [f]);
            WireOK(y, acked, seqno, log) && NoGap(y, acked, lost) && LastSent(y) == f.seqno
  {
    var y := x.(sent := x.sent + [f]);
    assert [f][0] == f;
    assert y.sent[|x.sent|] == f;
    forall n | InFrames(x.sent, n)
      ensures InFrames(y.sent, n)
    {
      var i :| 0 <= i < |x.sent| && x.sent[i].seqno == n;
      assert y.sent[i].seqno == n;
    }
  }

  lemma WireGrows(x: Wire, s: State, t: State)
    requires WireOK(x, s.acked, s.seqno, s.hist.log) && NoGap(x, s.acked, s.hist.lost) && Grows(s, t)
    requires t.acked <= t.seqno
    ensures WireOK(x, t.acked, t.seqno, t.hist.log) && NoGap(x, t.acked, t.hist.lost)
  {
    hide Increasing, InFrames;
  }

  // ----- the consumer

  /** The cursor is at a record boundary and everything below it is old news. */
  predicate CursorOK(fs: seq<Frame>, off: nat, idx: nat, upto: nat) {
    && idx <= |fs| && off == Offset(fs, idx)
    && (forall i :: 0 <= i < idx ==> fs[i].seqno <= upto)
  }

  predicate BatchOK(batch: seq<Frame>, upto: nat, s: State) {
    && batch != [] && upto < batch[0].seqno && SkipFree(upto, batch[0].seqno, s.acked, s.hist.lost)
    && Logged(s.hist.log, batch)
    && (forall i :: 0 <= i < |batch| ==> batch[i].seqno == batch[0].seqno + i && batch[i].seqno <= s.seqno)
  }

  predicate ConOK(c: Consumer, s: State, last: nat) {
    c.phase != Offline ==>
      && c.sentUpto == last && c.gen <= s.tier.gen
      && (c.phase.Scanning? ==> s.tier.bytes != 0 && HEADER_LEN <= c.off && CursorOK(Readable(s), c.off, c.idx, last))
      && (!c.phase.Scanning? && c.gen == s.tier.gen ==> c.off < HEADER_LEN || CursorOK(Readable(s), c.off, c.idx, last))
      && (c.phase.Sending? ==> BatchOK(c.phase.batch, last, s))
  }

  predicate WInv(w: World) {
    && Inv(w.spool)
    && WireOK(w.wire, w.spool.acked, w.spool.seqno, w.spool.hist.log)
    && NoGap(w.wire, w.spool.acked, w.spool.hist.lost)
    && ConOK(w.con, w.spool, LastSent(w.wire))
  }

  lemma CursorGrows(a: seq<Frame>, b: seq<Frame>, off: nat, idx: nat, upto: nat)
    requires CursorOK(a, off, idx, upto) && a <= b
    ensures CursorOK(b, off, idx, upto)
  {
    hide RecordsBytes;
    assert a[..idx] == b[..idx];
  }

  lemma ConGrows(c: Consumer, s: State, t: State, last: nat)
    requires ConOK(c, s, last) && Grows(s, t) && KeepsFile(s, t)
    ensures ConOK(c, t, last)
  {
    hide CursorOK, Readable;
    if c.phase != Offline && CursorOK(Readable(s), c.off, c.idx, last) {
      CursorGrows(Readable(s), Readable(t), c.off, c.idx, last);
    }
  }

  lemma EnvStep(w: World, t: State)
    requires WInv(w) && Inv(t) && Grows(w.spool, t) && KeepsFile(w.spool, t)
    ensures WInv(w.(spool := t))
  {
    assert t.acked <= t.seqno;
    hide Inv, WireOK, NoGap, ConOK, Grows, KeepsFile;
    WireGrows(w.wire, w.spool, t);
    ConGrows(w.con, w.spool, t, LastSent(w.wire));
  }

  // ----- nothing is skipped

  lemma DiskSkipFree(s: State, k: nat, upto: nat)
    requires Inv(s) && k < |Readable(s)| && (forall i :: 0 <= i < k ==> Readable(s)[i].seqno <= upto)
    ensures SkipFree(upto, Readable(s)[k].seqno, s.acked, s.hist.lost)
    ensures Readable(s)[k].seqno <= s.seqno && Logged(s.hist.log, [Readable(s)[k]])
  {
    var fs, q := Readable(s), Readable(s)[k].seqno;
    hide FileOK, RingOK, ValidFrame;
    StrayOrder(s.hist.disk, s.tier.maxSeq, s.hist.stray, s.hist.lost, Evicted(s));
    assert forall i :: 0 <= i < |s.hist.disk| ==> fs[i] == s.hist.disk[i];
    forall n | upto < n < q
      ensures n <= s.acked || n in s.hist.lost
    {
      NoneBetween(s.hist.disk, upto, n, q);
    }
  }

  lemma NoneBetween(disk: seq<Frame>, lo: nat, n: nat, hi: nat)
    requires lo < n < hi && forall i :: 0 <= i < |disk| ==> disk[i].seqno <= lo || disk[i].seqno >= hi
    ensures !InFrames(disk, n)
  {
  }

  lemma {:induction false} AboveRing(ring: seq<Frame>, base: nat, after: nat)
    requires forall i :: 0 <= i < |ring| ==> ring[i].seqno == base + 1 + i
    ensures var j := if after <= base then 0 else Min(after - base, |ring|);
            Above(ring, after) == ring[j..]
    decreases |ring|
  {
    if ring != [] {
      AboveRing(ring[1..], base + 1, after);
    }
  }

  /** With nothing newer on disk, a ring batch continues exactly where the consumer stopped. */
  lemma RingBatchOK(s: State, upto: nat, n: nat)
    requires Inv(s) && s.tier.maxSeq <= upto && 0 < n <= |Above(s.ring, upto)|
    ensures BatchOK(Above(s.ring, upto)[..n], upto, s)
  {
    hide Inv, ValidFrame, Above, BatchOK;
    var e := Evicted(s);
    NothingNewer(s, upto);
    RingRun(s);
    AboveRing(s.ring, e, upto);
    BatchSlice(s, upto, if upto <= e then 0 else Min(upto - e, |s.ring|), n);
  }

  lemma RingRun(s: State)
    requires Inv(s)
    ensures 0 <= Evicted(s) && Logged(s.hist.log, s.ring)
    ensures forall i :: 0 <= i < |s.ring| ==> s.ring[i].seqno == Evicted(s) + 1 + i && s.ring[i].seqno <= s.seqno
  {
    hide StoreOK, ValidFrame, Logged;
  }

  lemma BatchSlice(s: State, upto: nat, j: nat, n: nat)
    requires 0 < n && j + n <= |s.ring| && Logged(s.hist.log, s.ring) && 0 <= Evicted(s)
    requires forall i :: 0 <= i < |s.ring| ==> s.ring[i].seqno == Evicted(s) + 1 + i && s.ring[i].seqno <= s.seqno
    requires forall m :: upto < m <= Evicted(s) ==> m <= s.acked || m in s.hist.lost
    requires if upto <= Evicted(s) then j == 0 else j == upto - Evicted(s)
    ensures BatchOK(s.ring[j..][..n], upto, s)
  {
    var batch := s.ring[j..][..n];
    assert forall i :: 0 <= i < n ==> batch[i] == s.ring[j + i];
  }

  /** What can be read from the file has left the ring. */
  lemma ReadableBelow(s: State)
    requires Inv(s)
    ensures 0 <= Evicted(s) && s.tier.maxSeq <= Evicted(s)
    ensures forall i :: 0 <= i < |Readable(s)| ==> Readable(s)[i].seqno <= Evicted(s)
  {
    hide FileOK, Covered, Logged, ValidFrames, ValidFrame;
  }

  /** Past the disk mark, every evicted sequence is acked or lost. */
  lemma NothingNewer(s: State, upto: nat)
    requires Inv(s) && s.tier.maxSeq <= upto
    ensures forall m :: upto < m <= Evicted(s) ==> m <= s.acked || m in s.hist.lost
  {
    hide FileOK, ValidFrame, Logged, RingOK;
    forall m | upto < m <= Evicted(s)
      ensures m <= s.acked || m in s.hist.lost
    {
      assert !InFrames(s.hist.disk, m);
    }
  }

  // ----- steps

  lemma TransmitInv(w: World, f: Frame, reply: Reply, next: Phase)
    requires Inv(w.spool) && NoGap(w.wire, w.spool.acked, w.spool.hist.lost)
    requires WireOK(w.wire, w.spool.acked, w.spool.seqno, w.spool.hist.log)
    requires LastSent(w.wire) < f.seqno <= w.spool.seqno && Logged(w.spool.hist.log, [f])
    requires SkipFree(LastSent(w.wire), f.seqno, w.spool.acked, w.spool.hist.lost)
    ensures var v := Transmit(w, f, reply, next);
            && v.spool == w.spool
            && WireOK(v.wire, w.spool.acked, w.spool.seqno, w.spool.hist.log)
            && NoGap(v.wire, w.spool.acked, w.spool.hist.lost)
            && (reply == Accepted ==> LastSent(v.wire) == f.seqno)
  {
    Extend(w.wire, f, w.spool.acked, w.spool.seqno, w.spool.hist.log, w.spool.hist.lost);
    hide Inv, WireOK, NoGap, Logged, SkipFree;
  }

  lemma CursorAdvances(fs: seq<Frame>, off: nat, k: nat, upto: nat, upto': nat)
    requires CursorOK(fs, off, k, upto) && k < |fs| && upto <= upto' && fs[k].seqno <= upto'
    ensures CursorOK(fs, off + 12 + |fs[k].data|, k + 1, upto')
  {
    hide RecordBytes;
    RecordsSplit(fs, k);
  }

  /** What the consumer reads at its cursor. */
  lemma ReadsNext(w: World)
    requires WInv(w) && w.con.phase.Scanning?
    ensures w.con.idx <= |Readable(w.spool)| && w.con.sentUpto == LastSent(w.wire)
    ensures CursorOK(Readable(w.spool), w.con.off, w.con.idx, w.con.sentUpto)
    ensures ReadAt(Contents(w.spool), w.con.off)
         == if w.con.idx < |Readable(w.spool)| then Some(Readable(w.spool)[w.con.idx]) else None
  {
    ReadAtCursor(w.spool, w.con.idx);
    hide Inv, WireOK, NoGap, Readable, ReadAt, Contents, Offset;
  }

  /** A cursor moved within the same scan. */
  lemma MovedInv(w: World, v: World)
    requires WInv(w) && w.con.phase.Scanning? && v.spool == w.spool
    requires WireOK(v.wire, w.spool.acked, w.spool.seqno, w.spool.hist.log)
      && NoGap(v.wire, w.spool.acked, w.spool.hist.lost)
    requires v.con.phase == Offline || v.con.phase.Scanning? || v.con.phase == Top || v.con.phase == PreCollect
    requires v.con.phase != Offline ==>
      && v.con.sentUpto == LastSent(v.wire) && v.con.gen == w.con.gen && HEADER_LEN <= v.con.off
      && CursorOK(Readable(w.spool), v.con.off, v.con.idx, v.con.sentUpto)
    ensures WInv(v)
  {
    hide Inv, WireOK, NoGap, Readable, CursorOK;
  }

  lemma ReadInv(w: World, reply: Reply)
    requires WInv(w) && w.con.phase.Scanning?
    ensures WInv(ReadOne(w, reply))
  {
    hide WInv, WireOK, NoGap, ReadAt, Contents, Readable, CursorOK, Logged, SkipFree, Offset, LastSent, Inv;
    var fs, k, upto := Readable(w.spool), w.con.idx, w.con.sentUpto;
    ReadsNext(w);
    ScanFacts(w);
    if k < |fs| {
      CursorAdvances(fs, w.con.off, k, upto, if fs[k].seqno > upto then fs[k].seqno else upto);
      if fs[k].seqno > upto {
        CursorBelow(fs, w.con.off, k, upto);
        DiskSkipFree(w.spool, k, upto);
        TransmitInv(w, fs[k], reply, Scanning(true));
      }
    }
    MovedInv(w, ReadOne(w, reply));
  }

  lemma CursorBelow(fs: seq<Frame>, off: nat, idx: nat, upto: nat)
    requires CursorOK(fs, off, idx, upto)
    ensures idx <= |fs| && forall i :: 0 <= i < idx ==> fs[i].seqno <= upto
  {
    hide Offset;
  }

  lemma ScanFacts(w: World)
    requires WInv(w) && w.con.phase.Scanning?
    ensures Inv(w.spool) && HEADER_LEN <= w.con.off
    ensures WireOK(w.wire, w.spool.acked, w.spool.seqno, w.spool.hist.log)
    ensures NoGap(w.wire, w.spool.acked, w.spool.hist.lost)
  {
    hide Inv, WireOK, NoGap, CursorOK, Readable;
  }

  lemma SendInv(w: World, reply: Reply)
    requires WInv(w) && w.con.phase.Sending?
    ensures WInv(SendBatch(w, reply))
  {
    hide Inv, WireOK, NoGap, CursorOK, Readable, BatchOK, LastSent;
    var batch := w.con.phase.batch;
    BatchFront(batch, w.con.sentUpto, w.spool);
    if CursorOK(Readable(w.spool), w.con.off, w.con.idx, w.con.sentUpto) {
      CursorLater(Readable(w.spool), w.con.off, w.con.idx, w.con.sentUpto, batch[0].seqno);
    }
    TransmitInv(w, batch[0], reply, if batch[1..] == [] then Top else Sending(batch[1..]));
  }

  lemma CursorLater(fs: seq<Frame>, off: nat, idx: nat, upto: nat, later: nat)
    requires CursorOK(fs, off, idx, upto) && upto <= later
    ensures CursorOK(fs, off, idx, later)
  {
    hide Offset;
  }

  /** The first frame of a batch comes next, and the rest is a batch after it. */
  lemma BatchFront(batch: seq<Frame>, upto: nat, s: State)
    requires BatchOK(batch, upto, s)
    ensures batch != [] && upto < batch[0].seqno <= s.seqno && Logged(s.hist.log, [batch[0]])
    ensures SkipFree(upto, batch[0].seqno, s.acked, s.hist.lost)
    ensures batch[1..] != [] ==> BatchOK(batch[1..], batch[0].seqno, s)
  {
    assert forall i :: 0 <= i < |batch| - 1 ==> batch[1..][i] == batch[i + 1];
  }

  lemma SnapshotInv(w: World, access: Access)
    requires WInv(w) && w.con.phase == PreDrain
    ensures WInv(TakeSnapshot(w, access))
  {
    assert w.spool.tier.maxSeq != 0 ==> w.spool.tier.bytes != 0;
    assert CursorOK(Readable(w.spool), HEADER_LEN, 0, w.con.sentUpto);
    hide Inv, WireOK, NoGap, CursorOK, Readable;
  }

  lemma DeleteStep(w: World, unlinks: bool)
    requires WInv(w) && w.con.phase == Top
    ensures WInv(Next(w, Delete(unlinks)))
  {
    DeleteInv(w.spool, unlinks);
    hide Inv, WireOK, NoGap, CursorOK;
  }

  lemma CollectStep(w: World, copied: nat)
    requires WInv(w) && w.con.phase == PreCollect
    ensures WInv(CollectBatch(w, copied))
  {
    var s, u := w.spool, w.con.sentUpto;
    hide Inv, WireOK, NoGap, CursorOK, Readable, Above, BatchOK;
    var n := Min(Min(copied, DRAIN_BATCH), |Above(s.ring, u)|);
    if s.tier.maxSeq <= u && n > 0 {
      RingBatchOK(s, u, n);
    }
  }

  lemma EnvNext(w: World, ev: Event)
    requires WInv(w) && ValidEvent(ev) && (ev.Producer? || ev.AckFrame? || ev.Budget?)
    ensures WInv(Next(w, ev))
  {
    hide WInv, Inv, Append, Ack, Grows, KeepsFile;
    assert Inv(w.spool) by { WInvSpool(w); }
    match ev
    case Producer(data, allocates, io) =>
      AppendInv(w.spool, data, allocates, io);
      AppendGrows(w.spool, data, allocates, io);
      EnvStep(w, Append(w.spool, data, allocates, io));
    case AckFrame(n) =>
      AckInv(w.spool, n);
      AckGrows(w.spool, n);
      EnvStep(w, Ack(w.spool, n));
    case Budget(extra) =>
      StepInv(w.spool, RaiseCap(extra));
      BudgetGrows(w.spool, extra);
      EnvStep(w, Step(w.spool, RaiseCap(extra)));
  }

  lemma WInvSpool(w: World)
    requires WInv(w)
    ensures Inv(w.spool)
  {
  }

  lemma BudgetGrows(s: State, extra: nat)
    ensures Grows(s, Step(s, RaiseCap(extra))) && KeepsFile(s, Step(s, RaiseCap(extra)))
  {
  }

  lemma WireNext(w: World, ev: Event)
    requires WInv(w) && Enabled(w, ev) && (ev.Receive? || ev.Connect? || ev.Disconnect? || ev.StopScan?)
    ensures WInv(Next(w, ev))
  {
    if ev.Connect? {
      ConnectInv(w);
      hide WInv;
    } else {
      hide Inv, Increasing, Logged, CursorOK, Readable, InFrames, SkipFree;
    }
  }

  lemma ConnectInv(w: World)
    requires WInv(w)
    ensures WInv(World(w.spool, Consumer(Top, w.spool.acked, 0, 0, 0),
                       w.wire.(base := w.spool.acked, sent := [], received := 0)))
  {
    assert w.spool.acked <= w.spool.seqno;
    hide Inv, Readable, ConOK;
    hide InFrames;
  }

  /** Every step of every thread keeps the invariant. */
  lemma NextInv(w: World, ev: Event)
    requires WInv(w) && ValidEvent(ev)
    ensures WInv(Next(w, ev))
  {
    hide WInv, TakeSnapshot, ReadOne, CollectBatch, SendBatch;
    if Enabled(w, ev) {
      match ev
      case Producer(_, _, _) => EnvNext(w, ev);
      case AckFrame(_) => EnvNext(w, ev);
      case Budget(_) => EnvNext(w, ev);
      case Receive => WireNext(w, ev);
      case Connect => WireNext(w, ev);
      case Disconnect => WireNext(w, ev);
      case StopScan => WireNext(w, ev);
      case Delete(unlinks) => DeleteStep(w, unlinks);
      case Snapshot(access) => SnapshotInv(w, access);
      case ReadRecord(reply) => ReadInv(w, reply);
      case Collect(copied) => CollectStep(w, copied);
      case SendNext(reply) => SendInv(w, reply);
    }
  }

  lemma BootInv(w: World)
    requires Boot(w)
    ensures WInv(w)
  {
    if Fresh(w.spool) {
      FreshInv(w.spool);
    } else {
      var session: SessionName, fs :| SessionOK(session) && ValidFrames(fs) && fs != []
        && w.spool == Restore(session, fs);
      RestoreInv(session, fs);
    }
    hide Fresh, StoreOK;
  }

  lemma {:induction false} ExecInv(w: World, evs: seq<Event>)
    requires Boot(w) && (forall i :: 0 <= i < |evs| ==> ValidEvent(evs[i]))
    ensures WInv(Exec(w, evs))
  {
    hide Boot, WInv, Next;
    if evs == [] {
      BootInv(w);
    } else {
      ExecInv(w, evs[..|evs| - 1]);
      NextInv(Exec(w, evs[..|evs| - 1]), evs[|evs| - 1]);
    }
  }

  lemma SentRange(w: World, n: nat)
    requires WInv(w) && w.con.phase != Offline
    ensures InFrames(w.wire.sent, n) ==> w.wire.base < n <= w.con.sentUpto
    ensures w.wire.base < n <= w.con.sentUpto ==>
              InFrames(w.wire.sent, n) || n <= w.spool.acked || n in w.spool.hist.lost
  {
    assert w.con.sentUpto == LastSent(w.wire);
    hide Inv, ConOK, Logged;
  }

  /** No skip within a connection: in every interleaving, whatever values are acknowledged, the consumer's
      sends are strictly increasing, and each sequence from the ACK at connect up to `sent_upto` was sent on
      this connection, is acked, or was lost on eviction. */
  lemma NoSkip(w0: World, evs: seq<Event>, n: nat)
    requires Boot(w0) && (forall i :: 0 <= i < |evs| ==> ValidEvent(evs[i]))
    ensures var w := Exec(w0, evs);
            && Increasing(w.wire.sent) && w.wire.base <= w.spool.acked
            && (w.con.phase != Offline && w.wire.base < n <= w.con.sentUpto ==>
                  InFrames(w.wire.sent, n) || n <= w.spool.acked || n in w.spool.hist.lost)
            && (w.con.phase != Offline && InFrames(w.wire.sent, n) ==> w.wire.base < n <= w.con.sentUpto)
            && Logged(w.spool.hist.log, w.wire.sent)
  {
    ExecInv(w0, evs);
    var w := Exec(w0, evs);
    assert Increasing(w.wire.sent) && w.wire.base <= w.spool.acked && Logged(w.spool.hist.log, w.wire.sent) by {
      hide Inv, ConOK, NoGap, Exec, Boot;
    }
    hide WInv, Exec, Boot;
    if w.con.phase != Offline {
      SentRange(w, n);
    }
  }
}
