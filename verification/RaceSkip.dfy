/** What a scan that lost its place reads, and what follows from it: when a read at a record boundary skips, that a
    frame passed over stays unsent until the next connection, and that a read inside a payload may send a frame that
    was never appended (feeder/navfeeder.c). */
module RaceSkip {
  import opened BigEndian
  import opened SpoolFile
  import opened Spool
  import opened Feeder
  import opened FeederSafety
  import opened FeederRace

  /** A scan of a settled, trusted file that has lost its place. */
  predicate LooseInFile(x: Race) {
    && RaceInv(x) && Loose(x) && x.append.None? && !x.w.spool.tier.disabled && x.w.spool.tier.bytes != 0
  }

  lemma QuietFile(x: Race)
    requires x.append.None?
    ensures File(x) == Contents(x.w.spool)
  {
    hide Contents;
  }

  // ----- at a record boundary

  lemma OnDisk(s: State, i: nat)
    requires Inv(s) && i < |s.hist.disk|
    ensures InFrames(s.hist.disk, s.hist.disk[i].seqno) && s.hist.disk[i].seqno !in s.hist.lost
    ensures Logged(s.hist.log, [s.hist.disk[i]]) && s.hist.disk[i].seqno <= Evicted(s) <= s.seqno
  {
    hide RingOK, StrayOK, FileOK, ValidFrames;
    assert InFrames(s.hist.disk, s.hist.disk[i].seqno);
  }

  lemma DiskOrder(s: State, i: nat, k: nat)
    requires Inv(s) && i < k < |s.hist.disk|
    ensures s.hist.disk[i].seqno < s.hist.disk[k].seqno
  {
    hide RingOK, StrayOK, FileOK, Covered, Logged, ValidFrame;
  }

  /** What a sequence between two marks on disk can be. */
  lemma BetweenOnDisk(s: State, k: nat, n: nat)
    requires Inv(s) && k < |s.hist.disk| && 0 < n < s.hist.disk[k].seqno && n > s.acked && n !in s.hist.lost
    ensures k > 0 && n <= s.hist.disk[k - 1].seqno
  {
    hide RingOK, StrayOK, FileOK, Logged, ValidFrame;
    var disk := s.hist.disk;
    assert InFrames(disk, n);
    var i :| 0 <= i < |disk| && disk[i].seqno == n;
    assert i < k;
    assert i < k - 1 ==> disk[i].seqno < disk[k - 1].seqno;
  }

  /** The gap before a record on disk is free of skips exactly when the record before it is old. */
  lemma GapIff(s: State, k: nat, upto: nat)
    requires Inv(s) && k < |s.hist.disk|
    ensures SkipFree(upto, s.hist.disk[k].seqno, s.acked, s.hist.lost) <==>
      k == 0 || s.hist.disk[k - 1].seqno <= upto || s.hist.disk[k - 1].seqno <= s.acked
  {
    hide Inv;
    var disk := s.hist.disk;
    if k > 0 {
      OnDisk(s, k - 1);
      DiskOrder(s, k - 1, k);
    }
    if k == 0 || disk[k - 1].seqno <= upto || disk[k - 1].seqno <= s.acked {
      forall n | upto < n < disk[k].seqno
        ensures n <= s.acked || n in s.hist.lost
      {
        if n > s.acked && n !in s.hist.lost { BetweenOnDisk(s, k, n); }
      }
    }
  }

  /** At a boundary the loose scan reads the record there. */
  lemma ReadsRecord(x: Race, k: nat)
    requires LooseInFile(x) && k < |x.w.spool.hist.disk| && x.w.con.off == Offset(x.w.spool.hist.disk, k)
    ensures ReadAt(File(x), x.w.con.off) == Some(x.w.spool.hist.disk[k])
  {
    hide RaceInv, Inv, ReadAt, Contents, Readable, Offset, File, ValidFrames;
    LooseFacts(x);
    TrustedFile(x.w.spool);
    ReadAtCursor(x.w.spool, k);
    QuietFile(x);
  }

  /** Exactly when a loose scan skips at a record boundary: it reads and sends the record at index `k`, and the
      sends stay in order if and only if the record before it was sent up to or is acknowledged. */
  lemma BoundaryIff(x: Race, k: nat, reply: Reply)
    requires LooseInFile(x) && k < |x.w.spool.hist.disk| && x.w.con.off == Offset(x.w.spool.hist.disk, k)
    requires x.w.spool.hist.disk[k].seqno > x.w.con.sentUpto && Reaches(reply)
    ensures var disk, e := x.w.spool.hist.disk, Plain(ReadRecord(reply));
            && (InOrder(RaceStep(x, e).w) <==>
                k == 0 || disk[k - 1].seqno <= x.w.con.sentUpto || disk[k - 1].seqno <= x.w.spool.acked)
            && (InOrder(RaceStep(x, e).w) <==> !Misleads(x, e))
  {
    var e := Plain(ReadRecord(reply));
    ReadsRecord(x, k);
    LooseFacts(x);
    hide RaceInv, Inv, WireOK, NoGap, ReadAt, Offset, File, InOrder, RaceStep, Logged, SkipFree, LastSent;
    OnDisk(x.w.spool, k);
    GapIff(x.w.spool, k, x.w.con.sentUpto);
    if Misleads(x, e) {
      MisleadBreaks(x, e);
    } else {
      StepInvariant(x, e);
      InvInOrder(RaceStep(x, e));
    }
  }

  // ----- anywhere

  /** Frame `n` is skipped: the consumer is past it without having sent it, and it was appended and is neither
      acknowledged nor lost. */
  predicate Skipped(w: World, n: nat) {
    && w.con.phase != Offline && w.wire.base < n <= w.con.sentUpto && !InFrames(w.wire.sent, n)
    && n in w.spool.hist.log && n > w.spool.acked && n !in w.spool.hist.lost
  }

  /** The scan reads a record it has not sent. */
  lemma ReadSends(x: Race, f: Frame)
    requires x.w.con.phase.Scanning? && ReadAt(File(x), x.w.con.off) == Some(f)
    requires f.seqno > x.w.con.sentUpto
    ensures RaceStep(x, Plain(ReadRecord(Accepted))) ==
      Race(World(x.w.spool,
                 x.w.con.(phase := Scanning(true), sentUpto := f.seqno, off := x.w.con.off + 12 + |f.data|,
                          idx := x.w.con.idx + 1),
                 x.w.wire.(sent := x.w.wire.sent + [f])),
           x.append, if Takes(x) then Ahead else if Loose(x) then Adrift else x.scan)
  {
    hide ReadAt, File, Contents;
  }

  /** Wherever its cursor is, a loose scan that sends `f` skips every appended sequence between. */
  lemma LooseSkips(x: Race, f: Frame, n: nat)
    requires RaceInv(x) && Loose(x) && ReadAt(File(x), x.w.con.off) == Some(f)
    requires x.w.con.sentUpto < n < f.seqno && n in x.w.spool.hist.log
    requires n > x.w.spool.acked && n !in x.w.spool.hist.lost
    ensures Misleads(x, Plain(ReadRecord(Accepted)))
    ensures Skipped(RaceStep(x, Plain(ReadRecord(Accepted))).w, n)
  {
    LooseFacts(x);
    BaseBelow(x);
    ReadSends(x, f);
    assert !SkipFree(x.w.con.sentUpto, f.seqno, x.w.spool.acked, x.w.spool.hist.lost);
    hide RaceInv, Inv, NoGap, ReadAt, File, RaceStep, Logged, LastSent, Increasing, SkipFree, InFrames;
    NotSent(x.w.wire, f, n);
  }

  // ----- until the next connection

  /** The consumer is past `n` without having sent it, and nothing it holds is `n`. */
  predicate Passed(w: World, n: nat) {
    && !InFrames(w.wire.sent, n)
    && (w.con.phase != Offline ==>
          && n <= w.con.sentUpto
          && (w.con.phase.Sending? ==> forall i :: 0 <= i < |w.con.phase.batch| ==> w.con.phase.batch[i].seqno > n))
  }

  lemma PassedSend(w: World, f: Frame, reply: Reply, next: Phase, n: nat)
    requires Passed(w, n) && f.seqno > n
    requires next.Sending? ==> forall i :: 0 <= i < |next.batch| ==> next.batch[i].seqno > n
    ensures Passed(Transmit(w, f, reply, next), n)
  {
  }

  lemma PassedRead(w: World, file: seq<byte>, reply: Reply, n: nat)
    requires Passed(w, n) && w.con.phase.Scanning?
    ensures Passed(ReadIn(w, file, reply), n)
  {
    var r := ReadAt(file, w.con.off);
    hide ReadAt;
    if r.Some? && r.value.seqno > w.con.sentUpto { PassedSend(w, r.value, reply, Scanning(true), n); }
  }

  lemma {:induction false} AboveNew(fs: seq<Frame>, upto: nat)
    ensures forall i :: 0 <= i < |Above(fs, upto)| ==> Above(fs, upto)[i].seqno > upto
  {
    if fs != [] { AboveNew(fs[1..], upto); }
  }

  lemma PassedNext(w: World, ev: Event, n: nat)
    requires Passed(w, n) && !ev.Connect?
    ensures Passed(Next(w, ev), n)
  {
    if Enabled(w, ev) {
      match ev
      case ReadRecord(reply) => PassedRead(w, Contents(w.spool), reply, n);
      case Collect(_) => AboveNew(w.spool.ring, w.con.sentUpto);
      case SendNext(reply) =>
        var rest := w.con.phase.batch[1..];
        assert forall i :: 0 <= i < |rest| ==> rest[i] == w.con.phase.batch[i + 1];
        PassedSend(w, w.con.phase.batch[0], reply, if rest == [] then Top else Sending(rest), n);
      case _ => hide Append, Ack, MaybeDelete, InFrames, ReadAt;
    }
  }

  lemma PassedStep(x: Race, e: RaceEvent, n: nat)
    requires Passed(x.w, n) && e != Plain(Connect)
    ensures Passed(RaceStep(x, e).w, n)
  {
    match e
    case Plain(ev) =>
      hide Passed, Next, ReadIn;
      PassedNext(x.w, ev, n);
      if ev.ReadRecord? && x.w.con.phase.Scanning? { PassedRead(x.w, File(x), ev.reply, n); }
    case _ => hide Append, Evicting, InFrames;
  }

  /** A skipped frame stays unsent as long as the connection lasts, whatever the threads do. */
  lemma {:induction false} NeverSent(x: Race, es: seq<RaceEvent>, n: nat)
    requires Skipped(x.w, n) && x.w.con.phase.Scanning? && Plain(Connect) !in es
    ensures Passed(RaceRun(x, es).w, n) && !InFrames(RaceRun(x, es).w.wire.sent, n)
  {
    hide RaceStep, InFrames;
    if es != [] {
      NeverSent(x, es[..|es| - 1], n);
      PassedStep(RaceRun(x, es[..|es| - 1]), es[|es| - 1], n);
    }
  }

  // ----- inside a payload

  lemma Inside(pre: seq<byte>, r: seq<byte>, post: seq<byte>, a: nat, b: nat)
    requires a <= b <= |r|
    ensures pre + r + post == (pre + r[..a]) + r[a..b] + (r[b..] + post)
  {
  }

  lemma PayloadSlice(f: Frame, a: nat, b: nat)
    requires a <= b <= |f.data|
    ensures RecordBytes(f)[12 + a..12 + b] == f.data[a..b]
  {
    var head := Put(f.seqno, 8) + Put(|f.data|, 4);
    assert RecordBytes(f) == head + f.data;
  }

  /** A record inside the payload of another reads as that record. */
  lemma ReadInside(pre: seq<byte>, f: Frame, post: seq<byte>, j: nat, g: Frame)
    requires ValidFrame(g) && j + 12 + |g.data| <= |f.data| && f.data[j..j + 12 + |g.data|] == RecordBytes(g)
    ensures ReadAt(pre + RecordBytes(f) + post, |pre| + 12 + j) == Some(g)
  {
    hide ReadAt, RecordBytes, ValidFrame;
    var r, b := RecordBytes(f), j + 12 + |g.data|;
    PayloadSlice(f, j, b);
    Inside(pre, r, post, 12 + j, 12 + b);
    ReadWhole(pre + r[..12 + j], g, r[12 + b..] + post);
  }

  /** A cursor inside a payload reads whatever record that payload encodes there. */
  lemma ForgedRead(x: Race, k: nat, j: nat, g: Frame)
    requires Inv(x.w.spool) && x.append.None? && !x.w.spool.tier.disabled && x.w.spool.tier.bytes != 0
    requires k < |x.w.spool.hist.disk| && ValidFrame(g)
    requires var d := x.w.spool.hist.disk[k].data;
             j + 12 + |g.data| <= |d| && d[j..j + 12 + |g.data|] == RecordBytes(g)
    ensures ReadAt(File(x), Offset(x.w.spool.hist.disk, k) + 12 + j) == Some(g)
  {
    hide Inv, ReadAt, RecordsBytes, RecordBytes, Header, ValidFrames, ValidFrame, Contents, File;
    var disk, session := x.w.spool.hist.disk, x.w.spool.cfg.session;
    QuietFile(x);
    TrustedFile(x.w.spool);
    BoundarySplit(session, disk, k, []);
    assert Layout(session, disk) + [] == Layout(session, disk);
    ReadInside(Header(session) + RecordsBytes(disk[..k]), disk[k], RecordsBytes(disk[k + 1..]) + [], j, g);
  }

  /** Such a scan sends a frame that was never appended. */
  lemma ForgedSent(x: Race, k: nat, j: nat, g: Frame)
    requires LooseInFile(x) && k < |x.w.spool.hist.disk| && ValidFrame(g)
    requires var d := x.w.spool.hist.disk[k].data;
             j + 12 + |g.data| <= |d| && d[j..j + 12 + |g.data|] == RecordBytes(g)
    requires x.w.con.off == Offset(x.w.spool.hist.disk, k) + 12 + j && g.seqno > x.w.con.sentUpto
    requires !Logged(x.w.spool.hist.log, [g])
    ensures var y := RaceStep(x, Plain(ReadRecord(Accepted)));
            && y.w.wire.sent == x.w.wire.sent + [g] && y.w.spool == x.w.spool && y.w.con.sentUpto == g.seqno
            && Misleads(x, Plain(ReadRecord(Accepted))) && !InOrder(y.w)
  {
    LooseFacts(x);
    hide RaceInv, Inv, NoGap, ReadAt, File, RaceStep, Logged, LastSent, Increasing, SkipFree, InOrder, Offset;
    hide RecordBytes;
    ForgedRead(x, k, j, g);
    ReadSends(x, g);
    MisleadBreaks(x, Plain(ReadRecord(Accepted)));
  }
}
