/** The race between the drain's reader, which holds no lock, and an append to the same file: the reader may see
    any part of the record being written, and a failed append is truncated away under it (feeder/navfeeder.c). */
module FeederRace {
  import opened BigEndian
  import opened SpoolFile
  import opened Spool
  import opened Feeder
  import opened FeederSafety

  /** An append between its first byte and its commit or rollback; `shown` bytes of the record are in the file. */
  datatype Pending = Pending(data: seq<byte>, allocates: bool, io: DiskIO, shown: nat)

  /** How the open scan stands to the file. History: it steers nothing. */
  datatype Scan =
    | Level          // the cursor is within the committed records
    | Ahead          // it has read the record of the pending append
    | Overtaken      // a record it has read was truncated away
    | Adrift         // and it has read on since

  datatype Race = Race(w: World, append: Option<Pending>, scan: Scan)

  datatype RaceEvent =
    | Plain(ev: Event)
    | Begin(data: seq<byte>, allocates: bool, io: DiskIO)   // the producer starts to write an evicted record
    | Show(n: nat)                                          // more of it reaches the file
    | Settle                                                // flushed and committed, or rolled back

  predicate ValidRaceEvent(e: RaceEvent) {
    && (e.Plain? ==> ValidEvent(e.ev))
    && (e.Begin? ==> RECORD_MIN <= |e.data| <= RECORD_MAX)
  }

  /** The append evicts the oldest frame and writes it behind the records of an existing file. */
  predicate Evicting(s: State, allocates: bool, io: DiskIO) {
    && !Refuses(s, allocates) && |s.ring| == s.cfg.cap && s.cfg.hasPath && !s.tier.disabled
    && (s.tier.writer || io.opens) && s.tier.bytes != 0 && s.tier.bytes + 12 + |s.ring[0].data| <= s.diskCap
  }

  /** How many bytes of record `f` a write leaves in the file before any repair. */
  function Reach(f: Frame, w: Write): nat {
    if w.Failed? then Min(w.torn, 12 + |f.data|) else 12 + |f.data|
  }

  /** The bytes of the pending record that are in the file. */
  function Shown(x: Race): seq<byte> {
    if x.append.Some? && x.w.spool.ring != [] && x.append.value.shown <= 12 + |x.w.spool.ring[0].data|
    then RecordBytes(x.w.spool.ring[0])[..x.append.value.shown] else []
  }

  function File(x: Race): seq<byte> { Contents(x.w.spool) + Shown(x) }

  /** Steps that take the spool's lock, which a pending append holds. */
  predicate NeedsLock(ev: Event) {
    ev.Producer? || ev.AckFrame? || ev.Budget? || ev.Connect? || ev.Delete? || ev.Snapshot? || ev.Collect?
  }

  /** The reader takes the pending record. */
  predicate Takes(x: Race) {
    x.append.Some? && x.scan == Level && x.w.con.off == |Contents(x.w.spool)| && ReadAt(File(x), x.w.con.off).Some?
  }

  /** The open scan has lost its place. */
  predicate Loose(x: Race) { x.scan == Overtaken || x.scan == Adrift }

  function ReadStep(x: Race, reply: Reply): Race
    requires x.w.con.phase.Scanning?
  {
    var v := ReadIn(x.w, File(x), reply);
    var scan := if v.con.phase == Offline then Level
                else if Takes(x) then Ahead
                else if !Loose(x) then x.scan
                else if v.con.phase.Scanning? then Adrift
                else Level;
    Race(v, x.append, scan)
  }

  function PlainStep(x: Race, ev: Event): Race {
    if (x.append.Some? && NeedsLock(ev)) || !Enabled(x.w, ev) then x
    else if ev.ReadRecord? then ReadStep(x, ev.reply)
    else
      var v := Next(x.w, ev);
      var over := v.con.phase == Offline || (Loose(x) && !v.con.phase.Scanning?);
      Race(v, x.append, if over then Level else x.scan)
  }

  function SettleStep(x: Race, p: Pending): Race {
    var cut := p.io.record.Failed? && p.io.record.truncated;
    Race(x.w.(spool := Append(x.w.spool, p.data, p.allocates, p.io)), None,
         if x.scan != Ahead then x.scan else if cut && x.w.con.phase.Scanning? then Overtaken else Level)
  }

  function RaceStep(x: Race, e: RaceEvent): Race {
    match e
    case Plain(ev) => PlainStep(x, ev)
    case Begin(data, allocates, io) =>
      if x.append.Some? || !Evicting(x.w.spool, allocates, io) then x
      else x.(append := Some(Pending(data, allocates, io, 0)))
    case Show(n) =>
      if x.append.None? || x.w.spool.ring == [] then x
      else
        var p := x.append.value;
        var k := Min(n, Reach(x.w.spool.ring[0], p.io.record));
        x.(append := Some(p.(shown := if k > p.shown then k else p.shown)))
    case Settle => if x.append.None? then x else SettleStep(x, x.append.value)
  }

  function RaceRun(x: Race, es: seq<RaceEvent>): Race {
    if es == [] then x else RaceStep(RaceRun(x, es[..|es| - 1]), es[|es| - 1])
  }

  ghost predicate RaceBoot(x: Race) { Boot(x.w) && x.append.None? && x.scan == Level }

  /** Whether `send_data` puts the frame on the wire. */
  predicate Reaches(reply: Reply) { reply == Accepted || reply.reached }

  /** `f` is the record appended under its sequence, and nothing stored and unacked lies between it and `upto`. */
  predicate ComesNext(s: State, upto: nat, f: Frame) {
    Logged(s.hist.log, [f]) && SkipFree(upto, f.seqno, s.acked, s.hist.lost)
  }

  /** The one step the code does not survive: a scan whose record was truncated away reads on in the file that has
      grown past its cursor, and what it finds there and sends does not come next. */
  predicate Misleads(x: Race, e: RaceEvent) {
    && Loose(x) && e.Plain? && e.ev.ReadRecord? && x.w.con.phase.Scanning? && Reaches(e.ev.reply)
    && var r := ReadAt(File(x), x.w.con.off);
       r.Some? && r.value.seqno > x.w.con.sentUpto && !ComesNext(x.w.spool, x.w.con.sentUpto, r.value)
  }

  predicate SafeRun(x: Race, es: seq<RaceEvent>) {
    forall i :: 0 <= i < |es| ==> !Misleads(RaceRun(x, es[..i]), es[i])
  }

  // ----- the invariant

  function Offlined(w: World): World { w.(con := w.con.(phase := Offline)) }

  predicate PendingOK(s: State, append: Option<Pending>) {
    append.Some? ==>
      var p := append.value;
      && Evicting(s, p.allocates, p.io) && RECORD_MIN <= |p.data| <= RECORD_MAX
      && p.shown <= Reach(s.ring[0], p.io.record)
  }

  predicate AheadOK(w: World, append: Option<Pending>) {
    && append.Some? && Evicting(w.spool, append.value.allocates, append.value.io)
    && append.value.shown == 12 + |w.spool.ring[0].data|
    && (w.con.phase.Scanning? || w.con.phase == Top || w.con.phase == PreCollect)
    && w.con.sentUpto == LastSent(w.wire) && w.con.gen <= w.spool.tier.gen && HEADER_LEN <= w.con.off
    && w.con.idx == |w.spool.hist.disk| + 1
    && CursorOK(w.spool.hist.disk + [w.spool.ring[0]], w.con.off, w.con.idx, w.con.sentUpto)
  }

  predicate OvertakenOK(w: World) {
    w.con.phase.Scanning? && w.con.sentUpto == LastSent(w.wire) && w.con.gen < w.spool.tier.gen
  }

  predicate RaceInv(x: Race) {
    && WInv(Offlined(x.w)) && PendingOK(x.w.spool, x.append)
    && (x.scan == Level ==> WInv(x.w))
    && (x.scan == Ahead ==> AheadOK(x.w, x.append))
    && (Loose(x) ==> OvertakenOK(x.w))
  }

  // ----- what the reader sees while a record is being written

  /** A file that takes appends holds exactly the committed records. */
  lemma TrustedFile(s: State)
    requires Inv(s) && !s.tier.disabled && s.tier.bytes != 0
    ensures Readable(s) == s.hist.disk && Contents(s) == Layout(s.cfg.session, s.hist.disk)
    ensures ValidFrames(s.hist.disk) && Offset(s.hist.disk, |s.hist.disk|) == |Contents(s)|
  {
    ReadableFile(s);
    assert s.hist.stray == None;
    assert s.hist.disk[..|s.hist.disk|] == s.hist.disk;
    hide Inv, Header, RecordsBytes;
    assert Layout(s.cfg.session, s.hist.disk) + [] == Layout(s.cfg.session, s.hist.disk);
  }

  /** The frame being evicted. */
  lemma OldestFrame(s: State)
    requires Inv(s) && s.ring != []
    ensures ValidFrame(s.ring[0]) && s.ring[0].seqno == Evicted(s) + 1 && s.ring[0].seqno <= s.seqno
    ensures Logged(s.hist.log, [s.ring[0]])
  {
    hide StoreOK, ValidFrame;
  }

  /** A reader at a boundary of the committed records sees the next one, then the pending one once it is whole. */
  lemma ReadShown(x: Race, k: nat)
    requires Inv(x.w.spool) && PendingOK(x.w.spool, x.append) && x.append.Some? && k <= |x.w.spool.hist.disk|
    ensures var s := x.w.spool;
            ReadAt(File(x), Offset(s.hist.disk, k))
              == if k < |s.hist.disk| then Some(s.hist.disk[k])
                 else if x.append.value.shown == 12 + |s.ring[0].data| then Some(s.ring[0]) else None
  {
    var s, disk, f := x.w.spool, x.w.spool.hist.disk, x.w.spool.ring[0];
    TrustedFile(s);
    OldestFrame(s);
    var tear := RecordBytes(f)[..x.append.value.shown];
    assert Shown(x) == tear;
    hide Inv, ReadAt, RecordsBytes, RecordBytes, Header, ValidFrames, ValidFrame, Contents, Shown;
    if k < |disk| {
      ValidAt(disk, k);
      BoundarySplit(s.cfg.session, disk, k, tear);
      ReadWhole(Header(s.cfg.session) + RecordsBytes(disk[..k]), disk[k], RecordsBytes(disk[k + 1..]) + tear);
    } else {
      var whole := Layout(s.cfg.session, disk);
      if x.append.value.shown == 12 + |f.data| {
        assert tear == RecordBytes(f) && whole + tear == whole + RecordBytes(f) + [];
        ReadWhole(whole, f, []);
      } else {
        ReadTorn(whole, f, x.append.value.shown);
      }
    }
  }

  // ----- every step keeps the invariant

  lemma OfflineInv(w: World)
    requires WInv(w)
    ensures WInv(Offlined(w))
  {
    hide Inv, WireOK, NoGap, BatchOK, CursorOK, Readable;
  }

  /** Reading as in the system where an append is one step. */
  lemma ReadAlike(x: Race, reply: Reply)
    requires RaceInv(x) && x.scan == Level && x.w.con.phase.Scanning? && !Takes(x)
    ensures ReadIn(x.w, File(x), reply) == ReadOne(x.w, reply)
  {
    hide WInv, ReadAt, Contents, Transmit;
    var s, c := x.w.spool, x.w.con;
    ReadsNext(x.w);
    if x.append.None? {
      assert Contents(s) + [] == Contents(s);
    } else {
      WInvSpool(x.w);
      TrustedFile(s);
      ReadShown(x, c.idx);
    }
  }

  /** The cursor past the pending record. */
  lemma CursorPast(disk: seq<Frame>, f: Frame, upto: nat, upto': nat)
    requires CursorOK(disk, Offset(disk, |disk|), |disk|, upto) && upto <= upto' && f.seqno <= upto'
    ensures CursorOK(disk + [f], Offset(disk, |disk|) + 12 + |f.data|, |disk| + 1, upto')
  {
    var fs := disk + [f];
    assert fs[..|disk|] == disk[..|disk|] && fs[|disk|] == f;
    hide RecordBytes;
    RecordsSplit(fs, |disk|);
  }

  lemma TakeFacts(x: Race)
    requires RaceInv(x) && x.w.con.phase.Scanning? && Takes(x)
    ensures var s, c := x.w.spool, x.w.con;
            && Inv(s) && s.ring != [] && ReadAt(File(x), c.off) == Some(s.ring[0]) && c.idx == |s.hist.disk|
            && x.append.value.shown == 12 + |s.ring[0].data| && s.tier.maxSeq <= c.sentUpto == LastSent(x.w.wire)
            && CursorOK(s.hist.disk, c.off, c.idx, c.sentUpto) && c.off == Offset(s.hist.disk, |s.hist.disk|)
  {
    hide WInv, ReadAt, Contents;
    var s, c := x.w.spool, x.w.con;
    ReadsNext(x.w);
    WInvSpool(x.w);
    TrustedFile(s);
    ReadShown(x, c.idx);
    OffsetGrows(s.hist.disk, c.idx);
    LastOnDisk(s);
  }

  lemma OffsetGrows(fs: seq<Frame>, k: nat)
    requires k <= |fs|
    ensures k < |fs| ==> Offset(fs, k) < Offset(fs, |fs|)
  {
    hide RecordsBytes;
    assert fs[..|fs|] == fs;
    PrefixLonger(fs, k);
  }

  lemma LastOnDisk(s: State)
    requires Inv(s)
    ensures s.tier.maxSeq == if s.hist.disk == [] then 0 else s.hist.disk[|s.hist.disk| - 1].seqno
  {
    hide RingOK, StrayOK, FileOK, Covered, Logged, ValidFrames;
  }

  /** The reader has taken the pending record; `v` is the system after it. */
  lemma AheadInv(x: Race, v: World)
    requires RaceInv(x) && x.append.Some? && v.spool == x.w.spool && Inv(v.spool)
    requires x.append.value.shown == 12 + |v.spool.ring[0].data|
    requires WireOK(v.wire, v.spool.acked, v.spool.seqno, v.spool.hist.log)
    requires NoGap(v.wire, v.spool.acked, v.spool.hist.lost)
    requires v.con.phase.Scanning? && v.con.sentUpto == LastSent(v.wire) && v.con.gen <= v.spool.tier.gen
    requires HEADER_LEN <= v.con.off && v.con.idx == |v.spool.hist.disk| + 1
    requires CursorOK(v.spool.hist.disk + [v.spool.ring[0]], v.con.off, v.con.idx, v.con.sentUpto)
    ensures RaceInv(Race(v, x.append, Ahead))
  {
    hide Inv, WireOK, NoGap, CursorOK, Readable, BatchOK, Evicting;
  }

  lemma BrokenInv(x: Race, v: World)
    requires RaceInv(x) && v.spool == x.w.spool && Inv(v.spool) && v.con.phase == Offline
    requires WireOK(v.wire, v.spool.acked, v.spool.seqno, v.spool.hist.log)
    requires NoGap(v.wire, v.spool.acked, v.spool.hist.lost)
    ensures RaceInv(Race(v, x.append, Level))
  {
    hide Inv, WireOK, NoGap, CursorOK, Readable, BatchOK, Evicting;
  }

  lemma TakeInv(x: Race, reply: Reply)
    requires RaceInv(x) && x.w.con.phase.Scanning? && Takes(x)
    ensures RaceInv(ReadStep(x, reply))
  {
    hide RaceInv, Inv, WireOK, NoGap, ReadAt, Contents, CursorOK, Logged, Evicting, ValidFrame, File, Offset, LastSent;
    TakeFacts(x);
    LevelFacts(x);
    var s, c, f := x.w.spool, x.w.con, x.w.spool.ring[0];
    CursorPast(s.hist.disk, f, c.sentUpto, if f.seqno > c.sentUpto then f.seqno else c.sentUpto);
    var v := ReadIn(x.w, File(x), reply);
    if f.seqno > c.sentUpto { SendPending(x, reply); }
    if v.con.phase == Offline { BrokenInv(x, v); } else { AheadInv(x, v); }
  }

  /** Sending the pending record leaves no gap: everything before it was sent, acked or lost. */
  lemma SendPending(x: Race, reply: Reply)
    requires RaceInv(x) && x.w.con.phase.Scanning? && Takes(x) && x.w.spool.ring != []
    requires x.w.spool.ring[0].seqno > x.w.con.sentUpto
    ensures var v, s := Transmit(x.w, x.w.spool.ring[0], reply, Scanning(true)), x.w.spool;
            && WireOK(v.wire, s.acked, s.seqno, s.hist.log) && NoGap(v.wire, s.acked, s.hist.lost)
            && (reply == Accepted ==> LastSent(v.wire) == s.ring[0].seqno)
  {
    hide RaceInv, Inv, WireOK, NoGap, ReadAt, Contents, CursorOK, Logged, Takes, ValidFrame, File, Offset, LastSent;
    TakeFacts(x);
    assert x.scan == Level by { LevelTakes(x); }
    LevelFacts(x);
    OldestFrame(x.w.spool);
    NothingNewer(x.w.spool, x.w.con.sentUpto);
    TransmitInv(x.w, x.w.spool.ring[0], reply, Scanning(true));
  }

  lemma LevelTakes(x: Race)
    requires Takes(x)
    ensures x.scan == Level
  {
    hide ReadAt, File, Contents;
  }

  lemma LevelFacts(x: Race)
    requires RaceInv(x) && x.scan == Level && x.w.con.phase.Scanning?
    ensures HEADER_LEN <= x.w.con.off && x.w.con.gen <= x.w.spool.tier.gen
    ensures WireOK(x.w.wire, x.w.spool.acked, x.w.spool.seqno, x.w.spool.hist.log)
    ensures NoGap(x.w.wire, x.w.spool.acked, x.w.spool.hist.lost)
  {
    hide Inv, WireOK, NoGap, CursorOK, Readable, PendingOK;
  }

  lemma StopAhead(x: Race)
    requires RaceInv(x) && x.scan == Ahead && x.w.con.phase.Scanning?
    ensures RaceInv(Race(EndScan(x.w), x.append, Ahead))
  {
    hide WInv, Evicting, CursorOK;
    assert Offlined(EndScan(x.w)) == Offlined(x.w);
  }

  /** Ahead of the file there is nothing more to read. */
  lemma ReadAhead(x: Race)
    requires RaceInv(x) && x.scan == Ahead
    ensures ReadAt(File(x), x.w.con.off) == None
  {
    var s, disk, f := x.w.spool, x.w.spool.hist.disk, x.w.spool.ring[0];
    WInvSpool(Offlined(x.w));
    TrustedFile(s);
    assert |Shown(x)| == 12 + |f.data|;
    var fs := disk + [f];
    assert fs[..|disk| + 1] == fs;
    hide Inv, WInv, RecordBytes;
    RecordsSnoc(disk, f);
    assert x.w.con.off == |File(x)|;
  }

  lemma EndOvertaken(x: Race)
    requires RaceInv(x) && Loose(x)
    ensures RaceInv(Race(EndScan(x.w), x.append, Level))
  {
    assert Offlined(EndScan(x.w)) == Offlined(x.w);
    hide Inv, WireOK, NoGap, Readable, CursorOK, BatchOK, Evicting;
  }

  /** A loose scan that reads a record which comes next, or none that is new. */
  lemma ReadLoose(x: Race, reply: Reply)
    requires RaceInv(x) && Loose(x) && !Misleads(x, Plain(ReadRecord(reply)))
    ensures RaceInv(ReadStep(x, reply))
  {
    hide RaceInv, WInv, ReadAt, File, Contents, Logged, SkipFree, PendingOK, LastSent;
    LooseFacts(x);
    var r, v := ReadAt(File(x), x.w.con.off), ReadIn(x.w, File(x), reply);
    if r.None? {
      EndOvertaken(x);
    } else if r.value.seqno > x.w.con.sentUpto && Reaches(reply) {
      KnownFrame(x.w.spool, r.value);
      TransmitInv(x.w, r.value, reply, Scanning(true));
      DriftInv(x, v);
    } else {
      DriftInv(x, v);
    }
  }

  lemma LooseFacts(x: Race)
    requires RaceInv(x) && Loose(x)
    ensures Inv(x.w.spool) && x.w.con.phase.Scanning? && x.w.con.sentUpto == LastSent(x.w.wire)
    ensures WireOK(x.w.wire, x.w.spool.acked, x.w.spool.seqno, x.w.spool.hist.log)
    ensures NoGap(x.w.wire, x.w.spool.acked, x.w.spool.hist.lost)
  {
    hide Inv, WireOK, NoGap, PendingOK;
  }

  lemma KnownFrame(s: State, f: Frame)
    requires Inv(s) && Logged(s.hist.log, [f])
    ensures f.seqno in s.hist.log && f.seqno <= s.seqno && f == Frame(f.seqno, s.hist.log[f.seqno])
  {
    assert [f][0] == f;
    hide RingOK, StoreOK;
  }

  /** A loose scan after a read that kept the wire in order. */
  lemma DriftInv(x: Race, v: World)
    requires RaceInv(x) && Loose(x) && v.spool == x.w.spool && v.con.gen == x.w.con.gen
    requires WireOK(v.wire, v.spool.acked, v.spool.seqno, v.spool.hist.log)
    requires NoGap(v.wire, v.spool.acked, v.spool.hist.lost)
    requires v.con.phase == Offline || (v.con.phase.Scanning? && v.con.sentUpto == LastSent(v.wire))
    ensures RaceInv(Race(v, x.append, if v.con.phase == Offline then Level else Adrift))
  {
    hide Inv, WireOK, NoGap, CursorOK, Readable, BatchOK, Evicting, LastSent;
  }

  lemma ReadRaceInv(x: Race, reply: Reply)
    requires RaceInv(x) && x.w.con.phase.Scanning? && !Misleads(x, Plain(ReadRecord(reply)))
    ensures RaceInv(ReadStep(x, reply))
  {
    if Takes(x) {
      TakeInv(x, reply);
    } else if x.scan == Level {
      ReadAlike(x, reply);
      ReadInv(x.w, reply);
      OfflineInv(ReadOne(x.w, reply));
      ReadKeepsSpool(x.w, reply);
      hide WInv, ReadOne, ReadIn, Evicting;
    } else if x.scan == Ahead {
      ReadAhead(x);
      StopAhead(x);
      hide WInv, AheadOK, PendingOK;
    } else {
      hide RaceInv, ReadStep, Misleads;
      ReadLoose(x, reply);
    }
  }

  lemma ReadKeepsSpool(w: World, reply: Reply)
    requires w.con.phase.Scanning?
    ensures ReadOne(w, reply).spool == w.spool
  {
    hide ReadAt;
  }

  /** The collector receives. */
  lemma ReceiveInv(x: Race)
    requires RaceInv(x) && x.w.wire.received < |x.w.wire.sent| && x.scan != Level
    ensures RaceInv(x.(w := x.w.(wire := Deliver(x.w.wire))))
  {
    var v := x.w.(wire := Deliver(x.w.wire));
    WireNext(Offlined(x.w), Receive);
    DeliverKeepsSent(x.w.wire);
    hide WInv, CursorOK, Evicting, Deliver, LastSent;
    assert Offlined(v) == Next(Offlined(x.w), Receive);
  }

  /** The connection drops. */
  lemma DropInv(x: Race)
    requires RaceInv(x)
    ensures RaceInv(Race(Offlined(x.w), x.append, Level))
  {
    hide WInv, CursorOK, Evicting;
    assert Offlined(Offlined(x.w)) == Offlined(x.w);
  }

  lemma NotOffline(x: Race)
    requires RaceInv(x) && x.scan != Level
    ensures x.w.con.phase != Offline && (Loose(x) ==> x.w.con.phase.Scanning?)
  {
    hide WInv, PendingOK, CursorOK, Evicting;
  }

  /** The steps of the wire and the connection, and the end of a scan. */
  lemma LooseInv(x: Race, ev: Event)
    requires RaceInv(x) && Enabled(x.w, ev) && x.scan != Level && (ev.Receive? || ev.Disconnect? || ev.StopScan?)
    ensures RaceInv(PlainStep(x, ev))
  {
    hide RaceInv, Deliver;
    NotOffline(x);
    if ev.StopScan? {
      if x.scan == Ahead { StopAhead(x); } else { EndOvertaken(x); }
    } else if ev.Receive? {
      ReceiveInv(x);
      assert PlainStep(x, ev) == x.(w := x.w.(wire := Deliver(x.w.wire)));
    } else {
      DropInv(x);
      assert PlainStep(x, ev) == Race(Offlined(x.w), x.append, Level);
    }
  }

  lemma DeliverKeepsSent(y: Wire)
    ensures y.received < |y.sent| ==> LastSent(Deliver(y)) == LastSent(y)
  {
  }

  /** The other threads while a scan is overtaken. */
  lemma OvertakenEnv(x: Race, ev: Event)
    requires RaceInv(x) && Loose(x) && x.append.None? && ValidEvent(ev)
    requires ev.Producer? || ev.AckFrame? || ev.Budget?
    ensures RaceInv(PlainStep(x, ev))
  {
    hide WInv, Append, Ack, Inv;
    WInvSpool(Offlined(x.w));
    EnvNext(Offlined(x.w), ev);
    assert Offlined(Next(x.w, ev)) == Next(Offlined(x.w), ev);
    EnvGen(x.w, ev);
  }

  lemma EnvGen(w: World, ev: Event)
    requires Inv(w.spool) && (ev.Producer? || ev.AckFrame? || ev.Budget?)
    ensures Next(w, ev).spool.tier.gen >= w.spool.tier.gen && Next(w, ev).con == w.con && Next(w, ev).wire == w.wire
  {
    hide Append, Inv;
    if ev.Producer? { AppendGrows(w.spool, ev.data, ev.allocates, ev.io); }
  }

  lemma LevelPlain(x: Race, ev: Event)
    requires RaceInv(x) && x.scan == Level && ValidEvent(ev) && Enabled(x.w, ev) && !ev.ReadRecord?
    requires x.append.None? || !NeedsLock(ev)
    ensures RaceInv(PlainStep(x, ev))
  {
    hide WInv, Next, Evicting;
    NextInv(x.w, ev);
    OfflineInv(Next(x.w, ev));
    if x.append.Some? { UnlockedSpool(x.w, ev); }
  }

  lemma PlainInv(x: Race, ev: Event)
    requires RaceInv(x) && ValidEvent(ev) && !Misleads(x, Plain(ev))
    ensures RaceInv(PlainStep(x, ev))
  {
    if (x.append.Some? && NeedsLock(ev)) || !Enabled(x.w, ev) { return; }
    if ev.ReadRecord? {
      hide RaceInv, ReadStep;
      ReadRaceInv(x, ev.reply);
    } else if x.scan == Level {
      hide RaceInv, PlainStep;
      LevelPlain(x, ev);
    } else {
      assert x.w.con.phase.Scanning? || x.w.con.phase == Top || x.w.con.phase == PreCollect;
      if ev.Receive? || ev.Disconnect? || ev.StopScan? {
        hide RaceInv, PlainStep;
        LooseInv(x, ev);
      } else {
        assert Loose(x) && x.append.None?;
        hide RaceInv, PlainStep;
        OvertakenEnv(x, ev);
      }
    }
  }

  lemma UnlockedSpool(w: World, ev: Event)
    requires Enabled(w, ev) && !NeedsLock(ev) && !ev.ReadRecord?
    ensures Next(w, ev).spool == w.spool
  {
  }

  // ----- the append settles

  /** The pending record was committed, or its rollback left it in the file: the scan that read it is level. */
  lemma SettleKept(s: State, p: Pending)
    requires Inv(s) && PendingOK(s, Some(p)) && Reach(s.ring[0], p.io.record) == 12 + |s.ring[0].data|
    requires !(p.io.record.Failed? && p.io.record.truncated)
    ensures var t := Append(s, p.data, p.allocates, p.io);
            Readable(t) == s.hist.disk + [s.ring[0]] && t.tier.bytes != 0 && t.tier.gen >= s.tier.gen
  {
    assert s.hist.stray == None;
    hide Inv, RecordBytes, Bytes;
  }

  /** The record was truncated away: the generation moves. */
  lemma SettleCut(s: State, p: Pending)
    requires PendingOK(s, Some(p)) && p.io.record.Failed?
    ensures Append(s, p.data, p.allocates, p.io).tier.gen == s.tier.gen + 1
  {
    hide RecordBytes, Bytes, TruncateTo;
  }

  lemma SettleAhead(x: Race)
    requires RaceInv(x) && x.append.Some? && x.scan == Ahead
    ensures RaceInv(SettleStep(x, x.append.value))
  {
    var p, s := x.append.value, x.w.spool;
    assert x.append == Some(p) && AheadOK(x.w, x.append) && PendingOK(s, Some(p)) && WInv(Offlined(x.w));
    hide RaceInv, WInv, Append, Inv, CursorOK, Readable, Evicting;
    WInvSpool(Offlined(x.w));
    SettleOffline(x.w, p);
    if p.io.record.Failed? && p.io.record.truncated {
      SettleCut(s, p);
      CutInv(x.w, Append(s, p.data, p.allocates, p.io));
    } else {
      SettleKept(s, p);
      KeptInv(x.w, x.append, Append(s, p.data, p.allocates, p.io));
    }
  }

  /** The scan past a record that was truncated away. */
  lemma CutInv(w: World, t: State)
    requires WInv(Offlined(w.(spool := t))) && w.con.sentUpto == LastSent(w.wire) && w.con.gen < t.tier.gen
    requires w.con.phase.Scanning? || w.con.phase == Top || w.con.phase == PreCollect
    ensures RaceInv(Race(w.(spool := t), None, if w.con.phase.Scanning? then Overtaken else Level))
  {
    hide Inv, WireOK, NoGap, CursorOK, Readable, BatchOK;
  }

  /** The scan past a record that stayed in the file. */
  lemma KeptInv(w: World, append: Option<Pending>, t: State)
    requires WInv(Offlined(w.(spool := t))) && AheadOK(w, append) && t.tier.bytes != 0 && t.tier.gen >= w.spool.tier.gen
    requires Readable(t) == w.spool.hist.disk + [w.spool.ring[0]]
    ensures RaceInv(Race(w.(spool := t), None, Level))
  {
    hide Inv, WireOK, NoGap, CursorOK, Readable, BatchOK, Evicting;
  }

  lemma SettleOffline(w: World, p: Pending)
    requires WInv(Offlined(w)) && RECORD_MIN <= |p.data| <= RECORD_MAX
    ensures WInv(Offlined(w.(spool := Append(w.spool, p.data, p.allocates, p.io))))
  {
    var ev := Producer(p.data, p.allocates, p.io);
    EnvNext(Offlined(w), ev);
    hide WInv, Append;
    assert Next(Offlined(w), ev) == Offlined(w.(spool := Append(w.spool, p.data, p.allocates, p.io)));
  }

  lemma SettleInv(x: Race)
    requires RaceInv(x) && x.append.Some?
    ensures RaceInv(SettleStep(x, x.append.value))
  {
    var p := x.append.value;
    if x.scan == Ahead {
      hide RaceInv, SettleStep;
      SettleAhead(x);
    } else {
      assert x.append == Some(p);
      SettleOffline(x.w, p);
      WInvSpool(Offlined(x.w));
      AppendGrows(x.w.spool, p.data, p.allocates, p.io);
      if x.scan == Level {
        var ev := Producer(p.data, p.allocates, p.io);
        EnvNext(x.w, ev);
        assert Next(x.w, ev) == x.w.(spool := Append(x.w.spool, p.data, p.allocates, p.io));
      }
      hide WInv, Append, Inv;
    }
  }

  /** Every step that does not mislead keeps the invariant. */
  lemma StepInvariant(x: Race, e: RaceEvent)
    requires RaceInv(x) && ValidRaceEvent(e) && !Misleads(x, e)
    ensures RaceInv(RaceStep(x, e))
  {
    match e
    case Plain(ev) =>
      hide RaceInv, PlainStep, Misleads;
      PlainInv(x, ev);
    case Begin(data, allocates, io) =>
      hide WInv, Evicting;
      assert x.append.None? ==> x.scan != Ahead;
    case Show(n) => hide WInv, Evicting, CursorOK;
    case Settle =>
      hide RaceInv, SettleStep;
      if x.append.Some? { SettleInv(x); }
  }

  lemma SafePrefix(x: Race, es: seq<RaceEvent>)
    requires es != [] && SafeRun(x, es)
    ensures SafeRun(x, es[..|es| - 1]) && !Misleads(RaceRun(x, es[..|es| - 1]), es[|es| - 1])
  {
    hide Misleads, RaceRun;
    var p := es[..|es| - 1];
    forall i | 0 <= i < |p|
      ensures !Misleads(RaceRun(x, p[..i]), p[i])
    {
      assert p[..i] == es[..i] && p[i] == es[i];
    }
  }

  lemma SafeSnoc(x: Race, es: seq<RaceEvent>)
    requires es != [] && SafeRun(x, es[..|es| - 1]) && !Misleads(RaceRun(x, es[..|es| - 1]), es[|es| - 1])
    ensures SafeRun(x, es)
  {
    hide Misleads, RaceRun;
    var p := es[..|es| - 1];
    forall i | 0 <= i < |es|
      ensures !Misleads(RaceRun(x, es[..i]), es[i])
    {
      if i < |p| { assert p[..i] == es[..i] && p[i] == es[i]; }
    }
  }

  lemma RunLast(x: Race, es: seq<RaceEvent>)
    requires es != []
    ensures RaceRun(x, es) == RaceStep(RaceRun(x, es[..|es| - 1]), es[|es| - 1])
  {
    hide RaceStep;
  }

  lemma BootRace(x: Race)
    requires RaceBoot(x)
    ensures RaceInv(x) && RaceRun(x, []) == x && SafeRun(x, [])
  {
    BootInv(x.w);
    OfflineInv(x.w);
    hide WInv, Boot;
  }

  lemma {:induction false} RunInvariant(x: Race, es: seq<RaceEvent>)
    requires RaceBoot(x) && SafeRun(x, es) && forall i :: 0 <= i < |es| ==> ValidRaceEvent(es[i])
    ensures RaceInv(RaceRun(x, es))
  {
    hide *;
    if es == [] {
      BootRace(x);
    } else {
      SafePrefix(x, es);
      RunInvariant(x, es[..|es| - 1]);
      RunLast(x, es);
      StepInvariant(RaceRun(x, es[..|es| - 1]), es[|es| - 1]);
    }
  }

  // ----- no skip

  /** Nothing was skipped: sends on the connection strictly increase and are the records appended under their
      sequences, and each sequence from the ACK at connect up to the last one sent was sent, is acked, or is lost. */
  predicate InOrder(w: World) {
    && Increasing(w.wire.sent) && Logged(w.spool.hist.log, w.wire.sent)
    && NoGap(w.wire, w.spool.acked, w.spool.hist.lost)
  }

  lemma InvInOrder(x: Race)
    requires RaceInv(x)
    ensures InOrder(x.w) && x.w.wire.base <= x.w.spool.acked
    ensures x.w.con.phase != Offline ==> x.w.con.sentUpto == LastSent(x.w.wire)
  {
    hide Inv, NoGap, CursorOK, Readable, Evicting, Increasing, Logged, LastSent;
    assert WInv(Offlined(x.w));
  }

  lemma NotSent(y: Wire, f: Frame, n: nat)
    requires Increasing(y.sent) && LastSent(y) < n < f.seqno
    ensures !InFrames(y.sent + [f], n)
  {
  }

  /** A send that does not come next breaks the order at once. */
  lemma SendBreaks(y: Wire, f: Frame, s: State)
    requires Increasing(y.sent) && LastSent(y) < f.seqno && y.base <= LastSent(y) && !ComesNext(s, LastSent(y), f)
    ensures var z := y.(sent := y.sent + [f]); !(Logged(s.hist.log, z.sent) && NoGap(z, s.acked, s.hist.lost))
  {
    var z := y.(sent := y.sent + [f]);
    assert z.sent[|y.sent|] == f && [f][0] == f;
    assert Logged(s.hist.log, z.sent) ==> Logged(s.hist.log, [f]);
    if !SkipFree(LastSent(y), f.seqno, s.acked, s.hist.lost) {
      var n: nat :| LastSent(y) < n < f.seqno && !(n <= s.acked || n in s.hist.lost);
      NotSent(y, f, n);
      assert LastSent(z) == f.seqno;
    }
  }

  lemma MisleadBreaks(x: Race, e: RaceEvent)
    requires RaceInv(x) && Misleads(x, e)
    ensures !InOrder(RaceStep(x, e).w)
  {
    hide RaceInv, WInv, ReadAt, File, Contents, Logged, SkipFree, LastSent, NoGap, Increasing, ComesNext, WireOK;
    LooseFacts(x);
    InvInOrder(x);
    BaseBelow(x);
    var f := ReadAt(File(x), x.w.con.off).value;
    SendBreaks(x.w.wire, f, x.w.spool);
    assert RaceStep(x, e).w.spool == x.w.spool && RaceStep(x, e).w.wire == x.w.wire.(sent := x.w.wire.sent + [f]);
  }

  lemma BaseBelow(x: Race)
    requires RaceInv(x)
    ensures x.w.wire.base <= LastSent(x.w.wire)
  {
    hide Inv, NoGap, ConOK, Increasing, Logged, PendingOK, AheadOK, OvertakenOK;
    assert WInv(Offlined(x.w));
  }

  predicate AlwaysInOrder(x: Race, es: seq<RaceEvent>) {
    forall k :: 0 <= k <= |es| ==> InOrder(RaceRun(x, es[..k]).w)
  }

  lemma OrderPrefix(x: Race, es: seq<RaceEvent>)
    requires es != []
    ensures AlwaysInOrder(x, es) <==> AlwaysInOrder(x, es[..|es| - 1]) && InOrder(RaceRun(x, es).w)
  {
    hide InOrder, RaceRun;
    var p := es[..|es| - 1];
    assert forall k :: 0 <= k <= |p| ==> p[..k] == es[..k];
    assert es[..|es|] == es;
  }

  lemma OrderStart(x: Race)
    requires RaceBoot(x)
    ensures AlwaysInOrder(x, [])
  {
    hide RaceInv, InOrder, RaceBoot;
    BootRace(x);
    InvInOrder(x);
    var none: seq<RaceEvent> := [];
    assert none[..0] == none;
  }

  /** No skip, with the reader racing the writer: a run keeps its sends in order throughout if and only if no step
      of it misleads. */
  lemma {:induction false} RaceNoSkip(x: Race, es: seq<RaceEvent>)
    requires RaceBoot(x) && forall i :: 0 <= i < |es| ==> ValidRaceEvent(es[i])
    ensures AlwaysInOrder(x, es) <==> SafeRun(x, es)
  {
    hide *;
    if es == [] {
      OrderStart(x);
      BootRace(x);
    } else {
      var p, e := es[..|es| - 1], es[|es| - 1];
      RaceNoSkip(x, p);
      OrderPrefix(x, es);
      RunLast(x, es);
      if SafeRun(x, es) {
        SafePrefix(x, es);
        RunInvariant(x, es);
        InvInOrder(RaceRun(x, es));
      } else if SafeRun(x, p) {
        RunInvariant(x, p);
        if Misleads(RaceRun(x, p), e) { MisleadBreaks(RaceRun(x, p), e); } else { SafeSnoc(x, es); }
      }
    }
  }

  /** On such a run the consumer's mark is the last frame it sent. */
  lemma RaceMark(x: Race, es: seq<RaceEvent>)
    requires RaceBoot(x) && SafeRun(x, es) && forall i :: 0 <= i < |es| ==> ValidRaceEvent(es[i])
    ensures var w := RaceRun(x, es).w;
            w.wire.base <= w.spool.acked && (w.con.phase != Offline ==> w.con.sentUpto == LastSent(w.wire))
  {
    hide *;
    RunInvariant(x, es);
    InvInOrder(RaceRun(x, es));
  }
}
