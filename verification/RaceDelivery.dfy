/** End-to-end results with the reader racing the writer: delivery, the disk cursor, and the writes that are safe. */
module RaceDelivery {
  import opened BigEndian
  import opened SpoolFile
  import opened Spool
  import opened Feeder
  import opened FeederSafety
  import opened FeederDelivery
  import opened FeederRace

  // ----- acknowledged means delivered

  predicate HonestRace(x: Race, es: seq<RaceEvent>) {
    forall i :: 0 <= i < |es| && es[i].Plain? ==> Honest(RaceRun(x, es[..i]).w, es[i].ev)
  }

  lemma SentMore(y: Wire, s: State, f: Frame)
    requires DeliveredOK(y, s)
    ensures DeliveredOK(y.(sent := y.sent + [f]), s)
  {
    hide Accounted, Logged;
  }

  lemma ReadDelivered(x: Race, reply: Reply)
    requires x.w.con.phase.Scanning? && DeliveredOK(x.w.wire, x.w.spool)
    ensures var y := ReadStep(x, reply); DeliveredOK(y.w.wire, y.w.spool)
  {
    var r := ReadAt(File(x), x.w.con.off);
    if r.Some? { SentMore(x.w.wire, x.w.spool, r.value); }
    hide DeliveredOK, ReadAt, File;
  }

  lemma PlainDelivered(x: Race, ev: Event)
    requires RaceInv(x) && ValidEvent(ev) && Honest(x.w, ev) && DeliveredOK(x.w.wire, x.w.spool)
    ensures var y := PlainStep(x, ev); DeliveredOK(y.w.wire, y.w.spool)
  {
    if (x.append.Some? && NeedsLock(ev)) || !Enabled(x.w, ev) { return; }
    if ev.ReadRecord? {
      ReadDelivered(x, ev.reply);
      hide ReadStep;
    } else if x.scan == Level {
      NextDelivered(x.w, ev);
      hide DeliveredOK, Next;
    } else if ev.Producer? || ev.AckFrame? || ev.Budget? || ev.Receive? {
      NextDelivered(Offlined(x.w), ev);
      hide DeliveredOK, Append, Ack, Inv;
      assert Next(Offlined(x.w), ev).wire == Next(x.w, ev).wire && Next(Offlined(x.w), ev).spool == Next(x.w, ev).spool;
    } else {
      SentDelivered(x.w, ev);
      hide DeliveredOK, Next;
    }
  }

  lemma StepDelivered(x: Race, e: RaceEvent)
    requires RaceInv(x) && ValidRaceEvent(e) && (e.Plain? ==> Honest(x.w, e.ev)) && DeliveredOK(x.w.wire, x.w.spool)
    ensures var y := RaceStep(x, e); DeliveredOK(y.w.wire, y.w.spool)
  {
    match e
    case Plain(ev) =>
      hide RaceInv, PlainStep, DeliveredOK;
      PlainDelivered(x, ev);
    case Settle =>
      if x.append.Some? {
        var p := x.append.value;
        WInvSpool(Offlined(x.w));
        AppendGrows(x.w.spool, p.data, p.allocates, p.io);
        AppendAcked(x.w.spool, p.data, p.allocates, p.io);
        hide Append, DeliveredOK, Grows;
        DeliveredGrows(x.w.wire, x.w.spool, Append(x.w.spool, p.data, p.allocates, p.io));
      }
    case _ => hide DeliveredOK, Evicting;
  }

  lemma HonestPrefix(x: Race, es: seq<RaceEvent>)
    requires es != [] && HonestRace(x, es)
    ensures HonestRace(x, es[..|es| - 1])
    ensures es[|es| - 1].Plain? ==> Honest(RaceRun(x, es[..|es| - 1]).w, es[|es| - 1].ev)
  {
    hide Honest, RaceRun;
    var p := es[..|es| - 1];
    forall i | 0 <= i < |p| && p[i].Plain?
      ensures Honest(RaceRun(x, p[..i]).w, p[i].ev)
    {
      assert p[..i] == es[..i] && p[i] == es[i];
    }
  }

  lemma BootDelivered(x: Race)
    requires RaceBoot(x)
    ensures RaceRun(x, []) == x && DeliveredOK(x.w.wire, x.w.spool)
  {
    ExecDelivered(x.w, []);
    hide WInv, DeliveredOK;
  }

  lemma {:induction false} RunDelivered(x: Race, es: seq<RaceEvent>)
    requires RaceBoot(x) && SafeRun(x, es) && HonestRace(x, es)
    requires forall i :: 0 <= i < |es| ==> ValidRaceEvent(es[i])
    ensures var y := RaceRun(x, es); RaceInv(y) && DeliveredOK(y.w.wire, y.w.spool)
  {
    hide *;
    RunInvariant(x, es);
    if es == [] {
      BootDelivered(x);
    } else {
      var p, e := es[..|es| - 1], es[|es| - 1];
      SafePrefix(x, es);
      HonestPrefix(x, es);
      RunDelivered(x, p);
      RunLast(x, es);
      StepDelivered(RaceRun(x, p), e);
    }
  }

  /** Acknowledged means delivered or counted lost, with the reader racing the writer. */
  lemma RaceAckedMeansDelivered(x: Race, es: seq<RaceEvent>, n: nat)
    requires RaceBoot(x) && SafeRun(x, es) && HonestRace(x, es)
    requires forall i :: 0 <= i < |es| ==> ValidRaceEvent(es[i])
    ensures var w := RaceRun(x, es).w;
            && (0 < n <= w.spool.acked ==>
                  n in w.spool.hist.lost ||
                  (n in w.spool.hist.log && Frame(n, w.spool.hist.log[n]) in w.wire.delivered))
            && CountersOK(w.spool)
  {
    RunDelivered(x, es);
    var w := RaceRun(x, es).w;
    WInvSpool(Offlined(w));
    hide RaceRun, RaceBoot, HonestRace, SafeRun, RaceInv;
    if 0 < n <= w.spool.acked && n !in w.spool.hist.lost {
      var f :| f in w.wire.delivered && f.seqno == n;
      assert Logged(w.spool.hist.log, [f]) && [f][0] == f;
    }
  }

  // ----- the cursor

  /** The records a reader finds in the file, the pending one included once it is whole. */
  function Visible(x: Race): seq<Frame> {
    Readable(x.w.spool) +
    if x.append.Some? && x.w.spool.ring != [] && x.append.value.shown == 12 + |x.w.spool.ring[0].data|
    then [x.w.spool.ring[0]] else []
  }

  /** Reading at the boundaries of `fs` gives its records one by one, then nothing. */
  predicate Presents(file: seq<byte>, fs: seq<Frame>) {
    forall k :: 0 <= k <= |fs| ==> ReadAt(file, Offset(fs, k)) == if k < |fs| then Some(fs[k]) else None
  }

  lemma OffsetNext(fs: seq<Frame>, k: nat)
    requires k < |fs|
    ensures Offset(fs, k + 1) == Offset(fs, k) + 12 + |fs[k].data|
  {
    hide RecordBytes;
    RecordsSplit(fs, k);
  }

  lemma {:induction false} DrainPresents(file: seq<byte>, fs: seq<Frame>, k: nat, upto: nat)
    requires Presents(file, fs) && Increasing(fs) && k <= |fs|
    ensures DrainFrom(file, Offset(fs, k), upto) == Above(fs[k..], upto)
    decreases |fs| - k
  {
    hide ReadAt, Offset;
    assert ReadAt(file, Offset(fs, k)) == if k < |fs| then Some(fs[k]) else None;
    if k < |fs| {
      var f, rest := fs[k], fs[k + 1..];
      assert fs[k..][1..] == rest;
      OffsetNext(fs, k);
      if f.seqno > upto {
        DrainPresents(file, fs, k + 1, f.seqno);
        AboveAll(rest, f.seqno);
        AboveAll(rest, upto);
      } else {
        DrainPresents(file, fs, k + 1, upto);
      }
    }
  }

  lemma SameOffset(disk: seq<Frame>, f: Frame, k: nat)
    requires k <= |disk|
    ensures Offset(disk + [f], k) == Offset(disk, k)
  {
    assert (disk + [f])[..k] == disk[..k];
  }

  lemma ReadPast(file: seq<byte>, off: nat)
    requires off >= |file|
    ensures ReadAt(file, off) == None
  {
  }

  /** A file under a pending append that is not whole yet. */
  lemma PartPresents(x: Race)
    requires Inv(x.w.spool) && PendingOK(x.w.spool, x.append) && x.append.Some?
    requires x.append.value.shown != 12 + |x.w.spool.ring[0].data|
    ensures Presents(File(x), x.w.spool.hist.disk)
  {
    hide Inv, ReadAt, Contents, Offset, Shown;
    var disk := x.w.spool.hist.disk;
    forall k | 0 <= k <= |disk|
      ensures ReadAt(File(x), Offset(disk, k)) == if k < |disk| then Some(disk[k]) else None
    {
      ReadShown(x, k);
    }
  }

  lemma WholePresents(x: Race)
    requires Inv(x.w.spool) && PendingOK(x.w.spool, x.append) && x.append.Some?
    requires x.append.value.shown == 12 + |x.w.spool.ring[0].data|
    ensures Presents(File(x), x.w.spool.hist.disk + [x.w.spool.ring[0]])
  {
    var s, disk, f := x.w.spool, x.w.spool.hist.disk, x.w.spool.ring[0];
    TrustedFile(s);
    assert |Shown(x)| == 12 + |f.data| by { hide Inv; }
    hide Inv, ReadAt, Contents, Offset, Shown, Readable, ValidFrames;
    var fs := disk + [f];
    OffsetNext(fs, |disk|);
    SameOffset(disk, f, |disk|);
    ReadPast(File(x), Offset(fs, |fs|));
    forall k | 0 <= k <= |fs|
      ensures ReadAt(File(x), Offset(fs, k)) == if k < |fs| then Some(fs[k]) else None
    {
      if k < |fs| {
        ReadShown(x, k);
        SameOffset(disk, f, k);
      }
    }
  }

  lemma PendingPresents(x: Race)
    requires Inv(x.w.spool) && PendingOK(x.w.spool, x.append) && x.append.Some?
    ensures Presents(File(x), Visible(x)) && Increasing(Visible(x)) && Readable(x.w.spool) == x.w.spool.hist.disk
  {
    var s, disk, f := x.w.spool, x.w.spool.hist.disk, x.w.spool.ring[0];
    TrustedFile(s);
    OldestFrame(s);
    DiskBelow(s);
    hide Inv, Presents, Readable, Contents, ValidFrame, ValidFrames;
    if x.append.value.shown == 12 + |f.data| {
      WholePresents(x);
    } else {
      PartPresents(x);
      assert disk + [] == disk;
    }
  }

  lemma DiskBelow(s: State)
    requires Inv(s)
    ensures Increasing(s.hist.disk) && forall i :: 0 <= i < |s.hist.disk| ==> s.hist.disk[i].seqno <= Evicted(s)
  {
    hide RingOK, StrayOK, FileOK, Covered, Logged, ValidFrame;
  }

  lemma SettledPresents(x: Race)
    requires Inv(x.w.spool) && x.append.None? && x.w.spool.tier.bytes != 0
    ensures Presents(File(x), Visible(x)) && Increasing(Visible(x))
  {
    var s := x.w.spool;
    ReadableFile(s);
    hide Inv, ReadAt, Contents, Readable, Offset, ValidFrame;
    assert File(x) == Contents(s) && Visible(x) == Readable(s);
    forall k | 0 <= k <= |Readable(s)|
      ensures ReadAt(Contents(s), Offset(Readable(s), k)) == if k < |Readable(s)| then Some(Readable(s)[k]) else None
    {
      ReadAtCursor(s, k);
    }
  }

  lemma ScanPresents(x: Race)
    requires RaceInv(x) && x.w.con.phase.Scanning? && !Loose(x)
    ensures Presents(File(x), Visible(x)) && Increasing(Visible(x))
    ensures CursorOK(Visible(x), x.w.con.off, x.w.con.idx, x.w.con.sentUpto)
  {
    var s, c := x.w.spool, x.w.con;
    WInvSpool(Offlined(x.w));
    assert x.scan == Level ==> s.tier.bytes != 0 && CursorOK(Readable(s), c.off, c.idx, c.sentUpto) by {
      hide Inv, WireOK, NoGap, CursorOK, Readable, AheadOK, PendingOK;
    }
    hide WInv, Inv, Presents, Evicting, Readable, CursorOK;
    if x.append.Some? { PendingPresents(x); } else { SettledPresents(x); }
    if x.scan == Level { CursorGrows(Readable(s), Visible(x), c.off, c.idx, c.sentUpto); }
  }

  /** The cursor with the reader racing the writer: in every reachable state of a run, unless the open scan was
      overtaken, resuming at the cursor sends exactly what a scan of the same file from the end of the header
      would send; so it does at every new snapshot, whatever was torn, truncated, appended or deleted before. */
  lemma RaceCursorRefinesRescan(x: Race, es: seq<RaceEvent>)
    requires RaceBoot(x) && SafeRun(x, es) && forall i :: 0 <= i < |es| ==> ValidRaceEvent(es[i])
    ensures var y := RaceRun(x, es);
            y.w.con.phase.Scanning? && !Loose(y) ==>
              && DrainFrom(File(y), y.w.con.off, y.w.con.sentUpto) == DrainFrom(File(y), HEADER_LEN, y.w.con.sentUpto)
              && DrainFrom(File(y), y.w.con.off, y.w.con.sentUpto) == Above(Visible(y), y.w.con.sentUpto)
  {
    RunInvariant(x, es);
    var y := RaceRun(x, es);
    if y.w.con.phase.Scanning? && !Loose(y) {
      ScanPresents(y);
      var fs, c := Visible(y), y.w.con;
      assert Offset(fs, 0) == HEADER_LEN && fs[0..] == fs;
      hide RaceInv, Presents, DrainFrom, Above, Offset, File, Visible, Increasing, RaceRun;
      DrainPresents(File(y), fs, 0, c.sentUpto);
      DrainPresents(File(y), fs, c.idx, c.sentUpto);
      AboveSkips(fs, c.idx, c.sentUpto);
    }
  }

  // ----- which writes are safe

  /** A failed write leaves less than the record behind. */
  predicate ShortWrite(x: Race, e: RaceEvent) {
    e.Begin? && Evicting(x.w.spool, e.allocates, e.io) && e.io.record.Failed? ==>
      e.io.record.torn < 12 + |x.w.spool.ring[0].data|
  }

  predicate ShortRun(x: Race, es: seq<RaceEvent>) {
    forall i :: 0 <= i < |es| ==> ShortWrite(RaceRun(x, es[..i]), es[i])
  }

  predicate ShortPending(x: Race) {
    x.append.Some? && x.w.spool.ring != [] && x.append.value.io.record.Failed? ==>
      x.append.value.io.record.torn < 12 + |x.w.spool.ring[0].data|
  }

  lemma ShortStep(x: Race, e: RaceEvent)
    requires RaceInv(x) && !Loose(x) && ShortPending(x) && ShortWrite(x, e)
    ensures !Misleads(x, e) && !Loose(RaceStep(x, e)) && ShortPending(RaceStep(x, e))
  {
    hide WInv, Append, ReadAt, CursorOK;
    match e
    case Plain(ev) =>
      if x.append.Some? && !NeedsLock(ev) && Enabled(x.w, ev) && !ev.ReadRecord? { UnlockedSpool(x.w, ev); }
      hide Next, Evicting;
    case _ =>
  }

  lemma ShortPrefix(x: Race, es: seq<RaceEvent>)
    requires es != [] && ShortRun(x, es)
    ensures ShortRun(x, es[..|es| - 1]) && ShortWrite(RaceRun(x, es[..|es| - 1]), es[|es| - 1])
  {
    hide ShortWrite, RaceRun;
    var p := es[..|es| - 1];
    forall i | 0 <= i < |p|
      ensures ShortWrite(RaceRun(x, p[..i]), p[i])
    {
      assert p[..i] == es[..i] && p[i] == es[i];
    }
  }

  lemma ShortStart(x: Race)
    requires RaceBoot(x)
    ensures SafeRun(x, []) && RaceRun(x, []) == x && !Loose(x) && ShortPending(x)
  {
    hide Boot;
  }

  /** While failed writes are short, no scan is ever overtaken, so none misleads. */
  lemma {:induction false} ShortRunsSafe(x: Race, es: seq<RaceEvent>)
    requires RaceBoot(x) && ShortRun(x, es) && forall i :: 0 <= i < |es| ==> ValidRaceEvent(es[i])
    ensures SafeRun(x, es) && !Loose(RaceRun(x, es)) && ShortPending(RaceRun(x, es))
  {
    hide *;
    if es == [] {
      ShortStart(x);
    } else {
      var p, e := es[..|es| - 1], es[|es| - 1];
      ShortPrefix(x, es);
      ShortRunsSafe(x, p);
      RunInvariant(x, p);
      ShortStep(RaceRun(x, p), e);
      SafeSnoc(x, es);
      RunLast(x, es);
    }
  }
}
