/** Where an overtaken scan stands, and exactly when resuming it still sends what a rescan would
    (feeder/navfeeder.c). */
module RaceCursor {
  import opened BigEndian
  import opened SpoolFile
  import opened Spool
  import opened SpoolRuns
  import opened Feeder
  import opened FeederSafety
  import opened FeederDelivery
  import opened FeederRace
  import opened RaceDelivery

  // ----- where the cursor stands

  /** The cursor is past the boundary of record `m`, what lies before `m` is old, and what lies from `m` on is new. */
  predicate Past(disk: seq<Frame>, m: nat, off: nat, upto: nat) {
    && m <= |disk| && Offset(disk, m) < off
    && (forall i :: 0 <= i < m ==> disk[i].seqno <= upto)
    && (forall i :: m <= i < |disk| ==> disk[i].seqno > upto)
  }

  /** An overtaken scan is one record too far; `idx - 1` records are behind it. */
  predicate Overshot(w: World) {
    && w.con.idx > 0 && w.con.sentUpto <= Evicted(w.spool) && w.spool.tier.bytes != 0
    && Past(w.spool.hist.disk, w.con.idx - 1, w.con.off, w.con.sentUpto)
  }

  /** An open scan has sent nothing newer than what has left the ring. */
  predicate Placed(x: Race) {
    && (x.scan == Level && x.w.con.phase.Scanning? ==> x.w.con.sentUpto <= Evicted(x.w.spool))
    && (x.scan == Ahead && x.w.spool.ring != [] ==> x.w.con.sentUpto == x.w.spool.ring[0].seqno)
    && (x.scan == Overtaken ==> Overshot(x.w))
  }

  // ----- the spool moves forward

  /** The records on disk only grow, by frames newer than all that had left the ring. */
  predicate DiskForward(s: State, t: State) {
    && Evicted(s) <= Evicted(t) && s.hist.disk <= t.hist.disk && (s.tier.bytes != 0 ==> t.tier.bytes != 0)
    && forall i :: |s.hist.disk| <= i < |t.hist.disk| ==> t.hist.disk[i].seqno > Evicted(s)
  }

  lemma AppendForward(s: State, data: seq<byte>, allocates: bool, io: DiskIO)
    requires Inv(s)
    ensures DiskForward(s, Append(s, data, allocates, io))
  {
    AppendGrows(s, data, allocates, io);
    if !Refuses(s, allocates) && |s.ring| == s.cfg.cap {
      OldestFrame(s);
      DiskPutCounts(s, s.ring[0], io);
      DiskPutFrame(s, s.ring[0], io);
      hide DiskPut, Inv, Dropped, Grows, Readable;
    }
  }

  lemma AckForward(s: State, n: nat)
    requires Inv(s)
    ensures DiskForward(s, Ack(s, n))
  {
    ShorterRing(s.ring, Min(n, s.seqno));
    hide Inv, DropThrough;
  }

  lemma {:induction false} ShorterRing(ring: seq<Frame>, m: nat)
    ensures |DropThrough(ring, m)| <= |ring|
  {
    if ring != [] && ring[0].seqno <= m { ShorterRing(ring[1..], m); }
  }

  lemma EnvForward(w: World, ev: Event)
    requires Inv(w.spool) && (ev.Producer? || ev.AckFrame? || ev.Budget?)
    ensures DiskForward(w.spool, Next(w, ev).spool) && Next(w, ev).con == w.con
  {
    hide Inv, Append, Ack;
    match ev
    case Producer(data, allocates, io) => AppendForward(w.spool, data, allocates, io);
    case AckFrame(n) => AckForward(w.spool, n);
    case Budget(_) =>
  }

  lemma OvershotForward(w: World, t: State)
    requires Overshot(w) && DiskForward(w.spool, t)
    ensures Overshot(w.(spool := t))
  {
    var a, b, m := w.spool.hist.disk, t.hist.disk, w.con.idx - 1;
    assert a[..m] == b[..m];
    assert forall i :: 0 <= i < |a| ==> a[i] == b[i];
    hide RecordsBytes;
  }

  // ----- every step keeps the place

  lemma PlacedEnv(x: Race, ev: Event)
    requires RaceInv(x) && Placed(x) && x.append.None? && (ev.Producer? || ev.AckFrame? || ev.Budget?)
    ensures Placed(PlainStep(x, ev))
  {
    assert x.scan != Ahead && WInv(Offlined(x.w));
    hide RaceInv, Inv, WInv, Append, Ack, Overshot;
    WInvSpool(Offlined(x.w));
    EnvForward(x.w, ev);
    if x.scan == Overtaken { OvershotForward(x.w, Next(x.w, ev).spool); }
    assert Next(x.w, ev) == x.w.(spool := Next(x.w, ev).spool);
  }

  lemma PlacedConsumer(x: Race, ev: Event)
    requires RaceInv(x) && Placed(x) && Enabled(x.w, ev) && x.scan == Level
    requires !ev.ReadRecord? && !ev.Producer? && !ev.AckFrame? && !ev.Budget?
    ensures Placed(PlainStep(x, ev))
  {
    assert WInv(Offlined(x.w));
    hide RaceInv, WInv, Inv, Overshot, MaybeDelete;
    WInvSpool(Offlined(x.w));
    ReadableBelow(x.w.spool);
  }

  lemma PlacedPlain(x: Race, ev: Event)
    requires RaceInv(x) && Placed(x) && Enabled(x.w, ev) && !ev.ReadRecord? && (x.append.None? || !NeedsLock(ev))
    ensures Placed(PlainStep(x, ev))
  {
    if ev.Producer? || ev.AckFrame? || ev.Budget? {
      PlacedEnv(x, ev);
      hide RaceInv, Placed, PlainStep;
    } else if x.scan == Level {
      hide RaceInv, Placed, PlainStep;
      PlacedConsumer(x, ev);
    } else {
      NotOffline(x);
      assert x.scan == Ahead ==> x.append.Some?;
      hide RaceInv, Overshot;
    }
  }

  lemma PlacedTake(x: Race, reply: Reply)
    requires RaceInv(x) && Placed(x) && x.w.con.phase.Scanning? && Takes(x)
    ensures Placed(ReadStep(x, reply))
  {
    hide RaceInv, Inv, ReadAt, File, Contents, CursorOK, Offset, Overshot, ValidFrame, Logged;
    TakeFacts(x);
    OldestFrame(x.w.spool);
  }

  lemma PlacedLevel(x: Race, reply: Reply)
    requires RaceInv(x) && Placed(x) && x.w.con.phase.Scanning? && x.scan == Level && !Takes(x)
    ensures Placed(ReadStep(x, reply))
  {
    assert WInv(x.w);
    hide RaceInv, WInv, Inv, ReadAt, File, Contents, CursorOK, Readable, Takes, Overshot, LastSent;
    WInvSpool(x.w);
    ReadAlike(x, reply);
    ReadsNext(x.w);
    ReadableBelow(x.w.spool);
  }

  lemma PlacedRead(x: Race, reply: Reply)
    requires RaceInv(x) && Placed(x) && x.w.con.phase.Scanning?
    ensures Placed(ReadStep(x, reply))
  {
    if Takes(x) {
      PlacedTake(x, reply);
      hide RaceInv, Placed, ReadStep;
    } else if x.scan == Level {
      PlacedLevel(x, reply);
      hide RaceInv, Placed, ReadStep;
    } else {
      if x.scan == Ahead { ReadAhead(x); }
      hide RaceInv, ReadAt, File, Contents, Overshot;
    }
  }

  /** The pending append settles one frame further. */
  lemma SettleMoves(s: State, p: Pending)
    requires Inv(s) && PendingOK(s, Some(p))
    ensures var t := Append(s, p.data, p.allocates, p.io);
            && Evicted(t) == Evicted(s) + 1
            && (p.io.record.Failed? ==> t.hist.disk == s.hist.disk && t.tier.bytes == s.tier.bytes)
  {
    DiskPutFrame(s, s.ring[0], p.io);
    hide Inv, RecordBytes, Bytes, TruncateTo;
  }

  lemma PlacedSettle(x: Race)
    requires RaceInv(x) && Placed(x) && x.append.Some?
    ensures Placed(SettleStep(x, x.append.value))
  {
    var p, s := x.append.value, x.w.spool;
    var t := Append(s, p.data, p.allocates, p.io);
    WInvSpool(Offlined(x.w));
    assert x.append == Some(p);
    SettleMoves(s, p);
    OldestFrame(s);
    AppendForward(s, p.data, p.allocates, p.io);
    if x.scan == Overtaken {
      hide RaceInv, Append, Inv, Overshot;
      OvershotForward(x.w, t);
    } else if x.scan == Ahead {
      CutPlace(x.w, x.append, t);
      hide RaceInv, Append, Inv, Overshot;
    } else {
      hide RaceInv, Append, Inv, Overshot;
    }
  }

  predicate SameFile(s: State, t: State) { t.hist.disk == s.hist.disk && t.tier.bytes == s.tier.bytes }

  lemma CutPlace(w: World, append: Option<Pending>, t: State)
    requires Inv(w.spool) && AheadOK(w, append) && w.con.sentUpto == w.spool.ring[0].seqno == Evicted(w.spool) + 1
    requires SameFile(w.spool, t) ==> Evicted(t) == Evicted(w.spool) + 1
    ensures SameFile(w.spool, t) ==> Overshot(w.(spool := t))
  {
    var disk, f := w.spool.hist.disk, w.spool.ring[0];
    var fs := disk + [f];
    assert fs[..|disk|] == disk == disk[..|disk|] && fs[|disk|] == f;
    hide Inv, RecordBytes;
    RecordsSplit(fs, |disk|);
    assert forall i :: 0 <= i < |disk| ==> disk[i] == fs[i];
  }

  lemma PlacedStep(x: Race, e: RaceEvent)
    requires RaceInv(x) && Placed(x)
    ensures Placed(RaceStep(x, e))
  {
    match e
    case Plain(ev) =>
      if (x.append.None? || !NeedsLock(ev)) && Enabled(x.w, ev) {
        if ev.ReadRecord? { PlacedRead(x, ev.reply); } else { PlacedPlain(x, ev); }
      }
      hide RaceInv, Placed, ReadStep, Next;
    case Settle =>
      if x.append.Some? { PlacedSettle(x); }
      hide RaceInv, Placed, SettleStep;
    case _ => hide RaceInv, Overshot, Evicting;
  }

  lemma PlacedBoot(x: Race)
    requires RaceBoot(x)
    ensures Placed(x) && RaceRun(x, []) == x
  {
  }

  lemma {:induction false} RunPlaced(x: Race, es: seq<RaceEvent>)
    requires RaceBoot(x) && SafeRun(x, es) && forall i :: 0 <= i < |es| ==> ValidRaceEvent(es[i])
    ensures RaceInv(RaceRun(x, es)) && Placed(RaceRun(x, es))
  {
    hide *;
    RunInvariant(x, es);
    if es == [] {
      PlacedBoot(x);
    } else {
      var p := es[..|es| - 1];
      SafePrefix(x, es);
      RunPlaced(x, p);
      RunLast(x, es);
      PlacedStep(RaceRun(x, p), es[|es| - 1]);
    }
  }

  // ----- resuming against rescanning

  /** A drain sends no more bytes than the file holds past its start. */
  lemma {:induction false} DrainBytes(file: seq<byte>, off: nat, upto: nat)
    ensures off <= |file| ==> |RecordsBytes(DrainFrom(file, off, upto))| <= |file| - off
    ensures off > |file| ==> DrainFrom(file, off, upto) == []
    decreases |file| - off
  {
    hide RecordBytes;
    match ReadAt(file, off)
    case None => NoBytes();
    case Some(f) =>
      var next := off + 12 + |f.data|;
      var rest := DrainFrom(file, next, if f.seqno > upto then f.seqno else upto);
      DrainBytes(file, next, if f.seqno > upto then f.seqno else upto);
      RecordsConcat([f], rest);
      OneRecord(f);
  }

  lemma OneRecord(f: Frame)
    ensures |RecordsBytes([f])| == 12 + |f.data|
  {
    hide RecordBytes;
    assert [f][..0] == [] && RecordsBytes([]) == [];
  }

  /** What a rescan of a trusted file sends, when the records from `m` on are the new ones. */
  lemma RescanNew(s: State, m: nat, upto: nat)
    requires Inv(s) && !s.tier.disabled && s.tier.bytes != 0 && m <= |s.hist.disk|
    requires forall i :: 0 <= i < m ==> s.hist.disk[i].seqno <= upto
    requires forall i :: m <= i < |s.hist.disk| ==> s.hist.disk[i].seqno > upto
    ensures DrainFrom(Contents(s), HEADER_LEN, upto) == s.hist.disk[m..]
  {
    var disk := s.hist.disk;
    TrustedFile(s);
    assert Offset(disk, 0) == HEADER_LEN && disk[0..] == disk;
    hide Inv, Contents, Readable, DrainFrom, Above, ValidFrames, Offset;
    DrainIsAbove(s, 0, upto);
    AboveSkips(disk, m, upto);
    AboveAll(disk[m..], upto);
  }

  lemma TailBytes(s: State, m: nat)
    requires Inv(s) && !s.tier.disabled && s.tier.bytes != 0 && m <= |s.hist.disk|
    ensures |RecordsBytes(s.hist.disk[m..])| == |Contents(s)| - Offset(s.hist.disk, m)
  {
    var disk := s.hist.disk;
    TrustedFile(s);
    hide Inv, Contents, Readable, ValidFrames, RecordsBytes, Header;
    assert disk[..m] + disk[m..] == disk;
    RecordsConcat(disk[..m], disk[m..]);
  }

  /** A cursor past the boundary of record `m` still sends what a rescan would exactly when nothing is new. */
  lemma ResumeIff(s: State, m: nat, off: nat, upto: nat)
    requires Inv(s) && !s.tier.disabled && s.tier.bytes != 0 && Past(s.hist.disk, m, off, upto)
    ensures DrainFrom(Contents(s), off, upto) == DrainFrom(Contents(s), HEADER_LEN, upto) <==> s.tier.maxSeq <= upto
  {
    hide Inv, Contents, DrainFrom, RecordsBytes, Offset;
    RescanNew(s, m, upto);
    TailBytes(s, m);
    DrainBytes(Contents(s), off, upto);
    LastOnDisk(s);
    NoBytes();
    var rest := s.hist.disk[m..];
    assert m == |s.hist.disk| ==> rest == [];
    assert m < |s.hist.disk| ==> rest != [];
    PrefixEnd(s, off);
  }

  lemma PrefixEnd(s: State, off: nat)
    requires Inv(s) && !s.tier.disabled && s.tier.bytes != 0
    ensures off >= |Contents(s)| ==> forall upto: nat :: DrainFrom(Contents(s), off, upto) == []
  {
    if off >= |Contents(s)| { ReadPast(Contents(s), off); }
    hide Inv, Contents, ReadAt;
  }

  /** The cursor, with the reader racing the writer: on every run that was in order so far, an open scan that has
      not read on after losing its place resumes to send exactly what a rescan of the same file would, if and only
      if it has kept its place or there is nothing new on disk. */
  lemma RaceCursorIff(x: Race, es: seq<RaceEvent>)
    requires RaceBoot(x) && SafeRun(x, es) && forall i :: 0 <= i < |es| ==> ValidRaceEvent(es[i])
    ensures var y := RaceRun(x, es);
            var s, c := y.w.spool, y.w.con;
            c.phase.Scanning? && y.scan != Adrift && (y.scan == Overtaken ==> y.append.None? && !s.tier.disabled) ==>
              (DrainFrom(File(y), c.off, c.sentUpto) == DrainFrom(File(y), HEADER_LEN, c.sentUpto) <==>
               y.scan != Overtaken || s.tier.maxSeq <= c.sentUpto)
  {
    RunPlaced(x, es);
    RaceCursorRefinesRescan(x, es);
    var y := RaceRun(x, es);
    if y.scan == Overtaken && y.append.None? && !y.w.spool.tier.disabled {
      WInvSpool(Offlined(y.w));
      assert Contents(y.w.spool) + [] == Contents(y.w.spool);
      hide RaceInv, Inv, Contents, DrainFrom, RaceRun, SafeRun, RaceBoot, Past;
      ResumeIff(y.w.spool, y.w.con.idx - 1, y.w.con.off, y.w.con.sentUpto);
    }
  }
}
