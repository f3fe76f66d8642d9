/** The feeder's delivery protocol as an interleaved transition system: the producer, the ACK reader and the
    consumer loop of `serve_collector`, over connections that may drop at any point (feeder/navfeeder.c). */
module Feeder {
  import opened BigEndian
  import opened SpoolFile
  import opened Spool
  import opened SpoolRuns

  const DRAIN_BATCH := 512

  /** Where the consumer thread stands in its loop. */
  datatype Phase =
    | Offline
    | Top                            // before disk_maybe_delete
    | PreDrain                       // before disk_drain takes its snapshot
    | Scanning(found: bool)          // the spool file is open
    | PreCollect                     // before spool_collect
    | Sending(batch: seq<Frame>)     // rest of a ring batch

  /** The consumer's variables: `sent_upto` and the per-connection disk cursor. `idx` is history: the number of
      records below the cursor. */
  datatype Consumer = Consumer(phase: Phase, sentUpto: nat, off: nat, gen: nat, idx: nat)

  /** The connection as an in-order channel, and what the collector has received over all connections. */
  datatype Wire = Wire(base: nat, sent: seq<Frame>, received: nat, delivered: set<Frame>, highest: nat)

  datatype World = World(spool: State, con: Consumer, wire: Wire)

  datatype Access = Opened | Rewound | Unavailable

  /** A send may fail with the whole frame already on its way to the collector. */
  datatype Reply = Accepted | Broken(reached: bool)

  datatype Event =
    | Producer(data: seq<byte>, allocates: bool, io: DiskIO)
    | AckFrame(n: nat)
    | Budget(extra: nat)
    | Receive
    | Connect
    | Disconnect
    | Delete(unlinks: bool)
    | Snapshot(access: Access)
    | ReadRecord(reply: Reply)
    | StopScan
    | Collect(copied: nat)
    | SendNext(reply: Reply)

  predicate ValidEvent(ev: Event) {
    ev.Producer? ==> RECORD_MIN <= |ev.data| <= RECORD_MAX
  }

  // ----- steps

  /** `send_data` of `f`. */
  function Transmit(w: World, f: Frame, reply: Reply, next: Phase): World {
    var onWire := reply == Accepted || reply.reached;
    var wire := if onWire then w.wire.(sent := w.wire.sent + [f]) else w.wire;
    if reply == Accepted then World(w.spool, w.con.(phase := next, sentUpto := f.seqno), wire)
    else World(w.spool, w.con.(phase := Offline), wire)
  }

  function EndScan(w: World): World
    requires w.con.phase.Scanning?
  {
    w.(con := w.con.(phase := if w.con.phase.found then Top else PreCollect))
  }

  /** `disk_drain` up to the point where the file is open and positioned. */
  function TakeSnapshot(w: World, access: Access): World {
    var t := w.spool.tier;
    var c := if w.con.gen != t.gen then w.con.(off := 0, gen := t.gen, idx := 0) else w.con;
    if !w.spool.cfg.hasPath || t.maxSeq <= c.sentUpto || access == Unavailable then
      w.(con := c.(phase := PreCollect))
    else if access == Rewound || c.off < HEADER_LEN then
      w.(con := c.(phase := Scanning(false), off := HEADER_LEN, idx := 0))
    else
      w.(con := c.(phase := Scanning(false)))
  }

  /** One turn of the drain loop over `file`: read a record at the cursor, send it if it is news. */
  function ReadIn(w: World, file: seq<byte>, reply: Reply): World
    requires w.con.phase.Scanning?
  {
    match ReadAt(file, w.con.off)
    case None => EndScan(w)
    case Some(f) =>
      var w1 := if f.seqno > w.con.sentUpto then Transmit(w, f, reply, Scanning(true)) else w;
      if w1.con.phase == Offline then w1
      else w1.(con := w1.con.(off := w.con.off + 12 + |f.data|, idx := w.con.idx + 1))
  }

  function ReadOne(w: World, reply: Reply): World
    requires w.con.phase.Scanning?
  {
    ReadIn(w, Contents(w.spool), reply)
  }

  /** `spool_collect` and the check that no frame slipped to disk since the drain. */
  function CollectBatch(w: World, copied: nat): World {
    var news := Above(w.spool.ring, w.con.sentUpto);
    var batch := news[..Min(Min(copied, DRAIN_BATCH), |news|)];
    var next := if w.spool.tier.maxSeq > w.con.sentUpto || batch == [] then Top else Sending(batch);
    w.(con := w.con.(phase := next))
  }

  function SendBatch(w: World, reply: Reply): World
    requires w.con.phase.Sending? && w.con.phase.batch != []
  {
    var rest := w.con.phase.batch[1..];
    Transmit(w, w.con.phase.batch[0], reply, if rest == [] then Top else Sending(rest))
  }

  function Deliver(x: Wire): Wire
    requires x.received < |x.sent|
  {
    var f := x.sent[x.received];
    x.(received := x.received + 1, delivered := x.delivered + {f},
       highest := if f.seqno > x.highest then f.seqno else x.highest)
  }

  predicate Enabled(w: World, ev: Event) {
    match ev
    case Receive => w.wire.received < |w.wire.sent|
    case Connect => w.con.phase == Offline
    case Delete(_) => w.con.phase == Top
    case Snapshot(_) => w.con.phase == PreDrain
    case ReadRecord(_) => w.con.phase.Scanning?
    case StopScan => w.con.phase.Scanning?
    case Collect(_) => w.con.phase == PreCollect
    case SendNext(_) => w.con.phase.Sending? && w.con.phase.batch != []
    case _ => true
  }

  /** One step of the whole system; an event that is not enabled changes nothing. */
  function Next(w: World, ev: Event): World {
    if !Enabled(w, ev) then w else
      match ev
      case Producer(data, allocates, io) => w.(spool := Append(w.spool, data, allocates, io))
      case AckFrame(n) => w.(spool := Ack(w.spool, n))
      case Budget(extra) => w.(spool := w.spool.(diskCap := w.spool.diskCap + extra))
      case Receive => w.(wire := Deliver(w.wire))
      case Connect =>
        World(w.spool, Consumer(Top, w.spool.acked, 0, 0, 0), w.wire.(base := w.spool.acked, sent := [], received := 0))
      case Disconnect => w.(con := w.con.(phase := Offline))
      case Delete(unlinks) => World(MaybeDelete(w.spool, unlinks), w.con.(phase := PreDrain), w.wire)
      case Snapshot(access) => TakeSnapshot(w, access)
      case ReadRecord(reply) => ReadOne(w, reply)
      case StopScan => EndScan(w)
      case Collect(copied) => CollectBatch(w, copied)
      case SendNext(reply) => SendBatch(w, reply)
  }

  function Exec(w: World, evs: seq<Event>): World {
    if evs == [] then w else Next(Exec(w, evs[..|evs| - 1]), evs[|evs| - 1])
  }

  /** A new process, or a replay spool recovered from an earlier one. */
  ghost predicate Boot(w: World) {
    && (Fresh(w.spool) || exists session: SessionName, fs ::
          SessionOK(session) && ValidFrames(fs) && fs != [] && w.spool == Restore(session, fs))
    && w.con.phase == Offline
    && w.wire == Wire(0, [], 0, {}, 0)
  }

  // ----- reading the file at the cursor

  function Offset(fs: seq<Frame>, k: nat): nat
    requires k <= |fs|
  {
    HEADER_LEN + |RecordsBytes(fs[..k])|
  }

  function TornTail(s: State): seq<byte> {
    if s.hist.stray.Some? && s.hist.strayLen < 12 + |s.hist.stray.value.data|
    then RecordBytes(s.hist.stray.value)[..s.hist.strayLen] else []
  }

  lemma FileFacts(s: State)
    requires Inv(s)
    ensures var h := s.hist;
            FileOK(s.cfg.session, s.tier.disabled, Contents(s), s.tier.bytes, h.disk, h.stray, h.strayLen)
    ensures ValidFrames(Readable(s)) && (s.hist.stray.Some? ==> ValidFrame(s.hist.stray.value))
  {
    hide FileOK, Covered, Logged, ValidFrame, RingOK;
    StrayOrder(s.hist.disk, s.tier.maxSeq, s.hist.stray, s.hist.lost, Evicted(s));
  }

  lemma ReadableFile(s: State)
    requires Inv(s) && s.tier.bytes != 0
    ensures Contents(s) == Layout(s.cfg.session, Readable(s)) + TornTail(s)
    ensures ValidFrames(Readable(s)) && (s.hist.stray.Some? ==> ValidFrame(s.hist.stray.value))
  {
    hide Inv, Layout, RecordBytes, SessionOK, ValidFrames, ValidFrame, Contents;
    var session, disk, stray := s.cfg.session, s.hist.disk, s.hist.stray;
    FileFacts(s);
    if stray.Some? {
      LayoutSnoc(session, disk, stray.value);
      var l, r := Layout(session, disk), RecordBytes(stray.value);
      assert r[..|r|] == r && l + r + [] == l + r;
    }
  }

  lemma BoundarySplit(session: SessionName, fs: seq<Frame>, k: nat, tail: seq<byte>)
    requires k < |fs|
    ensures var pre := Header(session) + RecordsBytes(fs[..k]);
            && |pre| == Offset(fs, k)
            && Layout(session, fs) + tail == pre + RecordBytes(fs[k]) + (RecordsBytes(fs[k + 1..]) + tail)
            && Offset(fs, k + 1) == Offset(fs, k) + 12 + |fs[k].data|
  {
    hide RecordsBytes, RecordBytes, Header;
    RecordsSplit(fs, k);
    SplitFull(Header(session), RecordsBytes(fs[..k]), RecordBytes(fs[k]), RecordsBytes(fs[k + 1..]));
    Assoc(Header(session) + RecordsBytes(fs[..k]) + RecordBytes(fs[k]), RecordsBytes(fs[k + 1..]), tail);
  }

  /** At a record boundary the reader returns the next readable record, and nothing past the last one. */
  lemma ReadAtCursor(s: State, k: nat)
    requires Inv(s) && s.tier.bytes != 0 && k <= |Readable(s)|
    ensures ReadAt(Contents(s), Offset(Readable(s), k)) == if k < |Readable(s)| then Some(Readable(s)[k]) else None
    ensures k < |Readable(s)| ==> Offset(Readable(s), k + 1) == Offset(Readable(s), k) + 12 + |Readable(s)[k].data|
  {
    hide Inv, Readable, ReadAt, RecordsBytes, RecordBytes, Header, ValidFrames, ValidFrame, Contents, TornTail;
    var fs, session := Readable(s), s.cfg.session;
    ReadableFile(s);
    if k < |fs| {
      ValidAt(fs, k);
      BoundarySplit(session, fs, k, TornTail(s));
      ReadWhole(Header(session) + RecordsBytes(fs[..k]), fs[k], RecordsBytes(fs[k + 1..]) + TornTail(s));
    } else {
      assert fs[..k] == fs;
      ReadPastEnd(s, Layout(session, fs));
    }
  }

  lemma ValidAt(fs: seq<Frame>, k: nat)
    requires ValidFrames(fs) && k < |fs|
    ensures ValidFrame(fs[k])
  {
  }

  lemma ReadPastEnd(s: State, whole: seq<byte>)
    requires s.hist.stray.Some? ==> ValidFrame(s.hist.stray.value)
    ensures ReadAt(whole + TornTail(s), |whole|) == None
  {
    hide RecordBytes;
    if TornTail(s) != [] {
      ReadTorn(whole, s.hist.stray.value, s.hist.strayLen);
    }
  }
}
