/** Whole runs of the spool: conservation, crash recovery and the shutdown flush (feeder/navfeeder.c). */
module SpoolRuns {
  import opened BigEndian
  import opened SpoolFile
  import opened Spool

  datatype Op =
    | Produce(data: seq<byte>, allocates: bool, io: DiskIO)
    | Acknowledge(n: nat)
    | Clean(unlinks: bool)
    | RaiseCap(extra: nat)     // disk budget returned by a retired replay file

  predicate ValidOp(op: Op) {
    op.Produce? ==> RECORD_MIN <= |op.data| <= RECORD_MAX
  }

  function Step(s: State, op: Op): State
  {
    match op
    case Produce(data, allocates, io) => Append(s, data, allocates, io)
    case Acknowledge(n) => Ack(s, n)
    case Clean(unlinks) => MaybeDelete(s, unlinks)
    case RaiseCap(extra) => s.(diskCap := s.diskCap + extra)
  }

  lemma StepInv(s: State, op: Op)
    requires Inv(s) && ValidOp(op)
    ensures Inv(Step(s, op))
  {
    match op
    case Produce(data, allocates, io) => AppendInv(s, data, allocates, io);
    case Acknowledge(n) => AckInv(s, n);
    case Clean(unlinks) => DeleteInv(s, unlinks);
    case RaiseCap(extra) =>
      hide RingOK, DiskOK, StrayOK, FileOK, Covered, Logged;
  }

  function Run(s: State, ops: seq<Op>): State {
    if ops == [] then s else Step(Run(s, ops[..|ops| - 1]), ops[|ops| - 1])
  }

  lemma {:induction false} RunInv(s: State, ops: seq<Op>)
    requires Inv(s) && (forall i :: 0 <= i < |ops| ==> ValidOp(ops[i]))
    ensures Inv(Run(s, ops))
  {
    hide Inv, Step;
    if ops != [] {
      RunInv(s, ops[..|ops| - 1]);
      StepInv(Run(s, ops[..|ops| - 1]), ops[|ops| - 1]);
    }
  }

  /** Conservation: after any run of appends, acknowledgements of any value, faults and deletions, each
      unacked sequence is in exactly one place and every loss is counted once. */
  lemma Conservation(s0: State, ops: seq<Op>, n: nat)
    requires Fresh(s0) && (forall i :: 0 <= i < |ops| ==> ValidOp(ops[i]))
    ensures var s := Run(s0, ops);
            && (s.acked < n <= s.seqno ==>
                  && (InFrames(s.ring, n) || InFrames(s.hist.disk, n) || n in s.hist.lost)
                  && !(InFrames(s.ring, n) && InFrames(s.hist.disk, n))
                  && !(InFrames(s.ring, n) && n in s.hist.lost)
                  && !(InFrames(s.hist.disk, n) && n in s.hist.lost))
            && (n > s.seqno ==> !InFrames(s.ring, n) && !InFrames(s.hist.disk, n) && n !in s.hist.lost)
            && (InFrames(s.ring, n) <==> s.seqno - |s.ring| < n <= s.seqno)
            && (InFrames(s.ring, n) ==> s.acked < n && s.tier.maxSeq < n)
            && |s.ring| <= s.cfg.cap && Increasing(s.ring) && Increasing(s.hist.disk)
            && s.dropped + s.tier.dropped == s.hist.refused + |s.hist.lost|
  {
    FreshInv(s0);
    RunInv(s0, ops);
    InheritedRun(s0, ops);
    hide Run;
    var s := Run(s0, ops);
    assert InFrames(s.ring, n) <==> s.seqno - |s.ring| < n <= s.seqno by {
      var i := n - 1 - (s.seqno - |s.ring|);
      assert 0 <= i < |s.ring| ==> s.ring[i].seqno == n;
    }
    hide FileOK, Logged, ValidFrame;
  }

  lemma StepInherited(s: State, op: Op)
    ensures Step(s, op).hist.inherited == s.hist.inherited
  {
    hide DiskPut;
    if op.Produce? && s.ring != [] {
      DiskPutFrame(s, s.ring[0], op.io);
    }
  }

  lemma {:induction false} InheritedRun(s: State, ops: seq<Op>)
    ensures Run(s, ops).hist.inherited == s.hist.inherited
  {
    hide Step;
    if ops != [] {
      InheritedRun(s, ops[..|ops| - 1]);
      StepInherited(Run(s, ops[..|ops| - 1]), ops[|ops| - 1]);
    }
  }

  // ----- the file of a reachable spool, recovered

  function StrayFrames(s: State): seq<Frame> {
    if s.hist.stray.Some? then [s.hist.stray.value] else []
  }

  /** The file of every reachable spool is a prefix of whole records in order. */
  lemma FileIsPrefix(s: State)
    requires Inv(s) && s.tier.bytes != 0
    ensures var fs := s.hist.disk + StrayFrames(s);
            && ValidFrames(fs)
            && HEADER_LEN <= |Contents(s)| <= |Layout(s.cfg.session, fs)|
            && Contents(s) == Layout(s.cfg.session, fs)[..|Contents(s)|]
            && (!s.tier.disabled ==> fs == s.hist.disk && Contents(s) == Layout(s.cfg.session, fs))
  {
    LayoutStarts(s.cfg.session, s.hist.disk);
    StrayOrder(s.hist.disk, s.tier.maxSeq, s.hist.stray, s.hist.lost, Evicted(s));
    var session, disk, stray := s.cfg.session, s.hist.disk, s.hist.stray;
    assert FileOK(session, s.tier.disabled, Contents(s), s.tier.bytes, disk, stray, s.hist.strayLen);
    hide Inv, Layout, RecordBytes, SessionOK, ValidFrames, Contents;
    if stray.Some? {
      LayoutSnoc(session, disk, stray.value);
    } else {
      assert disk + [] == disk;
    }
  }

  lemma StrayOrder(disk: seq<Frame>, maxSeq: nat, stray: Option<Frame>, lost: set<nat>, e: int)
    requires DiskOK(disk, maxSeq, e) && StrayOK(stray, maxSeq, lost, e)
    ensures ValidFrames(disk) && (stray.Some? ==> ValidFrames(disk + [stray.value]))
  {
    hide ValidFrame;
  }

  /** Crash recovery of a running spool: whatever faults came before, the file cut at any byte past its
      header recovers to its longest whole-record prefix, under its own session. */
  lemma CrashRecovery(s: State, c: nat)
    requires Inv(s) && s.tier.bytes != 0 && HEADER_LEN <= c <= |Contents(s)|
    ensures var fs := s.hist.disk + StrayFrames(s);
            var n := WholeCount(fs, c - HEADER_LEN);
            && (!s.tier.disabled ==> |Contents(s)| == s.tier.bytes && (s.cfg.live ==> s.tier.bytes <= s.diskCap))
            && Recover(Some(Contents(s)[..c]), true, true)
                 == if n == 0 then (Discarded, None)
                    else (Replay(s.cfg.session, fs[n - 1].seqno, |Layout(s.cfg.session, fs[..n])|),
                          Some(Layout(s.cfg.session, fs[..n])))
  {
    hide Layout, Recover, WholeCount, Inv, StoreOK, ValidFrames, Contents, StrayFrames, SessionOK;
    var fs, session, file := s.hist.disk + StrayFrames(s), s.cfg.session, Contents(s);
    FileIsPrefix(s);
    FileAccounted(s);
    RecoverCut(session, fs, c);
    CutOfPrefix(Layout(session, fs), |file|, c);
  }

  lemma CutOfPrefix(b: seq<byte>, n: nat, c: nat)
    requires c <= n <= |b|
    ensures b[..n][..c] == b[..c]
  {
  }

  /** `disk_bytes` is the length of a trusted file, within the cap. */
  lemma FileAccounted(s: State)
    requires Inv(s) && s.tier.bytes != 0
    ensures SessionOK(s.cfg.session)
    ensures !s.tier.disabled ==> |Contents(s)| == s.tier.bytes && (s.cfg.live ==> s.tier.bytes <= s.diskCap)
  {
    hide Covered, Logged, DiskOK, RingOK, Layout, SessionOK;
  }

  function Gaps(fs: seq<Frame>, last: nat): set<nat> {
    set n | 0 < n <= last && !InFrames(fs, n)
  }

  function LogOf(fs: seq<Frame>): map<nat, seq<byte>> {
    if fs == [] then map[] else LogOf(fs[..|fs| - 1])[fs[|fs| - 1].seqno := fs[|fs| - 1].data]
  }

  lemma {:induction false} LogOfLogged(fs: seq<Frame>)
    requires Increasing(fs)
    ensures Logged(LogOf(fs), fs)
    ensures forall n :: n in LogOf(fs) ==> fs != [] && n <= fs[|fs| - 1].seqno
  {
    if fs != [] {
      LogOfLogged(fs[..|fs| - 1]);
    }
  }

  /** The replay-only spool that recovery builds from a validated file. Sequences missing from the file were
      acked or lost by the run that wrote it; they start out as inherited losses. */
  function Restore(session: SessionName, fs: seq<Frame>): State
    requires fs != []
  {
    var last := fs[|fs| - 1].seqno;
    var file := Layout(session, fs);
    State(Config(false, 1, true, session), 0, [], last, 0, 0,
          Tier(false, true, last, |file|, 0, 0, Some(file)),
          History(fs, None, 0, Gaps(fs, last), 0, |Gaps(fs, last)|, LogOf(fs)))
  }

  /** A recovered spool starts inside the invariant, so every theorem about runs holds for replay too. */
  lemma RestoreInv(session: SessionName, fs: seq<Frame>)
    requires SessionOK(session) && ValidFrames(fs) && fs != []
    ensures Inv(Restore(session, fs))
  {
    LogOfLogged(fs);
    LayoutStarts(session, fs);
    assert Covered(0, Gaps(fs, fs[|fs| - 1].seqno), fs, fs[|fs| - 1].seqno);
    hide Layout, ValidFrame, SessionOK, Covered, Logged;
    assert Layout(session, fs) + [] == Layout(session, fs);
  }

  // ----- orderly shutdown

  /** The shutdown flush: with the lock held for good, every ring frame goes to disk, oldest first. */
  function Flush(s: State, ios: seq<DiskIO>): State
    requires |ios| <= |s.ring|
  {
    if ios == [] then s else
      var k := |ios| - 1;
      DiskPut(Flush(s, ios[..k]), s.ring[k], ios[k])
  }

  lemma RingAt(s: State, k: nat)
    requires Inv(s) && k < |s.ring|
    ensures ValidFrame(s.ring[k]) && s.ring[k].seqno == Evicted(s) + k + 1 && Logged(s.hist.log, [s.ring[k]])
    ensures StoreOK(s, Evicted(s)) && 0 <= Evicted(s)
  {
    hide StoreOK, ValidFrame;
  }

  lemma {:induction false} FlushInv(s: State, ios: seq<DiskIO>)
    requires Inv(s) && s.cfg.hasPath && s.ring != [] && |ios| <= |s.ring|
    ensures StoreOK(Flush(s, ios), Evicted(s) + |ios|) && DiskOnly(s, Flush(s, ios))
  {
    hide StoreOK, Inv, DiskPut, ValidFrame, Logged;
    if ios == [] {
      RingAt(s, 0);
    } else {
      var k := |ios| - 1;
      RingAt(s, k);
      FlushInv(s, ios[..k]);
      DiskPutFrame(Flush(s, ios[..k]), s.ring[k], ios[k]);
      DiskPutInv(Flush(s, ios[..k]), s.ring[k], ios[k], Evicted(s) + k);
    }
  }

  lemma {:induction false} FlushStores(s: State, ios: seq<DiskIO>)
    requires |ios| <= |s.ring|
    ensures var t := Flush(s, ios);
            && Dropped(t) >= Dropped(s)
            && (Dropped(t) == Dropped(s) ==>
                  t.hist.disk == s.hist.disk + s.ring[..|ios|] && (ios != [] ==> !t.tier.disabled))
  {
    hide DiskPut, Dropped;
    if ios == [] {
      assert s.hist.disk + s.ring[..0] == s.hist.disk;
    } else {
      var k := |ios| - 1;
      FlushStores(s, ios[..k]);
      DiskPutCounts(Flush(s, ios[..k]), s.ring[k], ios[k]);
      assert s.ring[..k + 1] == s.ring[..k] + [s.ring[k]];
      Assoc(s.hist.disk, s.ring[..k], [s.ring[k]]);
    }
  }

  function Dropped(s: State): nat { s.dropped + s.tier.dropped }

  /** A frame is stored exactly when no drop counter moves. */
  lemma DiskPutCounts(s: State, f: Frame, io: DiskIO)
    ensures var t := DiskPut(s, f, io);
            || (Dropped(t) == Dropped(s) && t.hist.disk == s.hist.disk + [f] && !t.tier.disabled)
            || (Dropped(t) == Dropped(s) + 1 && t.hist.disk == s.hist.disk)
  {
    hide Header, RecordBytes, Contents, TruncateTo;
  }

  lemma StoreFile(s: State, e: int)
    requires StoreOK(s, e) && !s.tier.disabled && s.hist.disk != []
    ensures s.tier.file == Some(Layout(s.cfg.session, s.hist.disk)) && ValidFrames(s.hist.disk)
      && SessionOK(s.cfg.session)
  {
    LayoutStarts(s.cfg.session, s.hist.disk);
    hide Layout, SessionOK, Covered, Logged, ValidFrames;
    assert Layout(s.cfg.session, s.hist.disk) + [] == Layout(s.cfg.session, s.hist.disk);
  }

  lemma UnackedStored(s: State, n: nat)
    requires Inv(s) && s.acked < n <= s.seqno && n !in s.hist.lost
    ensures InFrames(s.hist.disk + s.ring, n)
  {
    hide FileOK, ValidFrame, Logged, ValidFrames;
    var fs := s.hist.disk + s.ring;
    if n <= Evicted(s) {
      var i :| 0 <= i < |s.hist.disk| && s.hist.disk[i].seqno == n;
      assert fs[i].seqno == n;
    } else {
      assert fs[|s.hist.disk| + n - 1 - Evicted(s)].seqno == n;
    }
  }

  /** A shutdown that reports nothing lost leaves a file from which recovery replays every frame that was
      on disk or in the ring, so an orderly restart loses no unacked frame. */
  lemma ShutdownLossless(s: State, ios: seq<DiskIO>)
    requires Inv(s) && s.cfg.hasPath && |ios| == |s.ring| && s.ring != []
    requires Dropped(Flush(s, ios)) == Dropped(s)
    ensures var t, fs := Flush(s, ios), s.hist.disk + s.ring;
            && t.tier.file == Some(Layout(s.cfg.session, fs))
            && Recover(t.tier.file, true, true) == (Replay(s.cfg.session, s.seqno, |Layout(s.cfg.session, fs)|),
                 t.tier.file)
            && Inv(Restore(s.cfg.session, fs))
            && forall n: nat :: s.acked < n <= s.seqno && n !in s.hist.lost ==> InFrames(fs, n)
  {
    hide *;
    var t, fs := Flush(s, ios), s.hist.disk + s.ring;
    FlushInv(s, ios);
    FlushStores(s, ios);
    assert s.ring[..|ios|] == s.ring;
    assert t.cfg.session == s.cfg.session by { DiskOnlySession(s, t); }
    StoreFile(t, Evicted(s) + |ios|);
    RecoverWhole(s.cfg.session, fs);
    RestoreInv(s.cfg.session, fs);
    LastInRing(s);
    forall n: nat | s.acked < n <= s.seqno && n !in s.hist.lost
      ensures InFrames(fs, n)
    {
      UnackedStored(s, n);
    }
  }

  lemma DiskOnlySession(s: State, t: State)
    requires DiskOnly(s, t)
    ensures t.cfg.session == s.cfg.session
  {
  }

  lemma LastInRing(s: State)
    requires Inv(s) && s.ring != []
    ensures s.ring[|s.ring| - 1].seqno == s.seqno
  {
    hide StoreOK, ValidFrame;
  }
}
