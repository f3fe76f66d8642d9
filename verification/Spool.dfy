/** The store-and-forward spool as a value: a bounded ring of unacked frames that spills its oldest
    frame to an append-only file (feeder/navfeeder.c). Environment faults are arguments. */
module Spool {
  import opened BigEndian
  import opened SpoolFile

  /** How one buffered write and flush ends. A failed one leaves the first `torn` bytes of its chunk in
      the file; the repair then truncates to the known-good boundary, unless that fails too. */
  datatype Write = Flushed | Failed(torn: nat, truncated: bool)

  datatype DiskIO = DiskIO(opens: bool, header: Write, record: Write)

  type Capacity = n: nat | 0 < n witness 1

  /** What is fixed when a spool is set up. Only the live spool takes appends. */
  datatype Config = Config(live: bool, cap: Capacity, hasPath: bool, session: SessionName)

  /** The disk tier: writer, boundary accounting and the file itself. */
  datatype Tier = Tier(writer: bool, disabled: bool, maxSeq: nat, bytes: nat, gen: nat, dropped: nat,
                       file: Option<seq<byte>>)

  /** What happened so far; it steers nothing. */
  datatype History = History(
    disk: seq<Frame>,                // records committed to the current file
    stray: Option<Frame>,            // record whose failed append could not be truncated away
    strayLen: nat,                   // how many of its bytes are in the file
    lost: set<nat>,                  // evicted sequences that reached no file
    refused: nat,                    // appends that were not given a sequence
    inherited: nat,                  // losses of an earlier run, for a recovered spool
    log: map<nat, seq<byte>>)        // the record appended under each sequence

  /** `struct spool`. */
  datatype State = State(cfg: Config, diskCap: nat, ring: seq<Frame>, seqno: nat, acked: nat, dropped: nat,
                         tier: Tier, hist: History)

  function Bytes(t: Tier): seq<byte> {
    if t.file.Some? then t.file.value else []
  }

  function Contents(s: State): seq<byte> { Bytes(s.tier) }

  function Min(a: nat, b: nat): nat { if a < b then a else b }

  function TruncateTo(b: seq<byte>, n: nat): seq<byte> {
    if n <= |b| then b[..n] else b + Zeros(n - |b|)
  }

  // ----- operations

  function LoseDisk(s: State, n: nat): State {
    s.(tier := s.tier.(dropped := s.tier.dropped + 1), hist := s.hist.(lost := s.hist.lost + {n}))
  }

  function LoseRam(s: State, n: nat): State {
    s.(dropped := s.dropped + 1, hist := s.hist.(lost := s.hist.lost + {n}))
  }

  /** `disk_rollback` after `chunk` was written in part. */
  function Repair(t: Tier, chunk: seq<byte>, w: Write): Tier
    requires w.Failed?
  {
    var torn := Bytes(t) + chunk[..Min(w.torn, |chunk|)];
    var t1 := t.(writer := false, gen := t.gen + 1);
    if w.truncated then t1.(file := Some(TruncateTo(torn, t.bytes)))
    else t1.(file := Some(torn), disabled := true)
  }

  function Rollback(s: State, chunk: seq<byte>, w: Write, f: Option<Frame>): State
    requires w.Failed?
  {
    s.(tier := Repair(s.tier, chunk, w),
       hist := if w.truncated then s.hist else s.hist.(stray := f, strayLen := Min(w.torn, |chunk|)))
  }

  function WriteHeader(s: State, w: Write): State {
    var h := Header(s.cfg.session);
    if w.Failed? then Rollback(s, h, w, None)
    else s.(tier := s.tier.(file := Some(Contents(s) + h), bytes := HEADER_LEN))
  }

  function Commit(t: Tier, f: Frame): Tier {
    t.(file := Some(Bytes(t) + RecordBytes(f)), bytes := t.bytes + 12 + |f.data|, maxSeq := f.seqno)
  }

  function WriteRecord(s: State, f: Frame, w: Write): State {
    if w.Failed? then LoseDisk(Rollback(s, RecordBytes(f), w, Some(f)), f.seqno)
    else s.(tier := Commit(s.tier, f), hist := s.hist.(disk := s.hist.disk + [f]))
  }

  function OpenWriter(s: State): State {
    s.(tier := s.tier.(writer := true, file := Some(Contents(s))))
  }

  /** `disk_put`. */
  function DiskPut(s: State, f: Frame, io: DiskIO): State {
    if s.tier.disabled then LoseDisk(s, f.seqno)
    else if !s.tier.writer && !io.opens then LoseRam(s, f.seqno)
    else
      var s1 := OpenWriter(s);
      var hdr := if s.tier.bytes == 0 then HEADER_LEN else 0;
      if s.tier.bytes + hdr + 12 + |f.data| > s.diskCap then LoseDisk(s1, f.seqno)
      else if s.tier.bytes != 0 then WriteRecord(s1, f, io.record)
      else
        var s2 := WriteHeader(s1, io.header);
        if io.header.Failed? then LoseDisk(s2, f.seqno) else WriteRecord(s2, f, io.record)
  }

  function Spill(s: State, io: DiskIO): State
    requires s.ring != []
  {
    if s.cfg.hasPath then DiskPut(s, s.ring[0], io) else LoseRam(s, s.ring[0].seqno)
  }

  function Evict(s: State, io: DiskIO): State
    requires s.ring != []
  {
    Spill(s, io).(ring := s.ring[1..])
  }

  predicate Refuses(s: State, allocates: bool) {
    !s.cfg.live || s.seqno == UINT64_MAX || !allocates
  }

  function Push(s: State, data: seq<byte>): State {
    var n := s.seqno + 1;
    s.(seqno := n, ring := s.ring + [Frame(n, data)], hist := s.hist.(log := s.hist.log[n := data]))
  }

  /** `spool_append`. */
  function Append(s: State, data: seq<byte>, allocates: bool, io: DiskIO): State {
    if Refuses(s, allocates) then s.(dropped := s.dropped + 1, hist := s.hist.(refused := s.hist.refused + 1))
    else Push(if |s.ring| == s.cfg.cap then Evict(s, io) else s, data)
  }

  function DropThrough(ring: seq<Frame>, n: nat): seq<Frame> {
    if ring != [] && ring[0].seqno <= n then DropThrough(ring[1..], n) else ring
  }

  /** `spool_ack`: the acknowledged sequence is clamped to what was assigned. */
  function Ack(s: State, n: nat): State {
    var m := Min(n, s.seqno);
    s.(ring := DropThrough(s.ring, m), acked := if m > s.acked then m else s.acked)
  }

  function Above(fs: seq<Frame>, after: nat): seq<Frame> {
    if fs == [] then []
    else if fs[0].seqno <= after then Above(fs[1..], after)
    else [fs[0]] + Above(fs[1..], after)
  }

  predicate Deletable(s: State) {
    s.cfg.hasPath && s.tier.maxSeq != 0 && s.acked >= s.tier.maxSeq
  }

  /** `disk_maybe_delete`. */
  function MaybeDelete(s: State, unlinks: bool): State {
    if !Deletable(s) then s
    else if unlinks then
      s.(tier := s.tier.(writer := false, file := None, maxSeq := 0, bytes := 0, disabled := false,
                         gen := s.tier.gen + 1),
         hist := s.hist.(disk := [], stray := None, strayLen := 0))
    else s.(tier := s.tier.(writer := false, disabled := true))
  }

  // ----- the invariant

  predicate InFrames(fs: seq<Frame>, n: nat) {
    exists i :: 0 <= i < |fs| && fs[i].seqno == n
  }

  /** The highest sequence that has left the ring. */
  function Evicted(s: State): int { s.seqno - |s.ring| }

  /** The ring is the queue of the newest sequences, all of them unacked. */
  predicate RingOK(ring: seq<Frame>, cap: Capacity, seqno: nat, acked: nat) {
    && |ring| <= cap && seqno <= UINT64_MAX
    && acked + |ring| <= seqno
    && (forall i :: 0 <= i < |ring| ==> ring[i].seqno == seqno - |ring| + 1 + i && ValidFrame(ring[i]))
  }

  function Readable(s: State): seq<Frame> {
    if s.hist.stray.Some? && s.hist.strayLen == 12 + |s.hist.stray.value.data| then s.hist.disk + [s.hist.stray.value]
      else s.hist.disk
  }

  /** The records on disk, against the highest evicted sequence `e`. */
  predicate DiskOK(disk: seq<Frame>, maxSeq: nat, e: int) {
    && ValidFrames(disk)
    && (forall i :: 0 <= i < |disk| ==> disk[i].seqno <= e)
    && maxSeq == (if disk == [] then 0 else disk[|disk| - 1].seqno)
  }

  /** A record whose append failed is past every committed one, and its loss was counted. */
  predicate StrayOK(stray: Option<Frame>, maxSeq: nat, lost: set<nat>, e: int) {
    stray.Some? ==> ValidFrame(stray.value) && maxSeq < stray.value.seqno <= e && stray.value.seqno in lost
  }

  function StrayBytes(stray: Option<Frame>, len: nat): seq<byte> {
    if stray.Some? && len <= 12 + |stray.value.data| then RecordBytes(stray.value)[..len] else []
  }

  /** The file is the header and the committed records, plus the stray bytes when repair failed. */
  predicate FileOK(session: SessionName, disabled: bool, file: seq<byte>, bytes: nat, disk: seq<Frame>,
                   stray: Option<Frame>, strayLen: nat)
  {
    && SessionOK(session)
    && (stray.Some? ==> disabled && bytes != 0)
    && (bytes == 0 ==> disk == [])
    && (bytes != 0 ==> bytes == |Layout(session, disk)| && file == Layout(session, disk) + StrayBytes(stray, strayLen))
    && (bytes == 0 && !disabled ==> file == [])
  }

  /** Every evicted sequence is acked, lost or on disk, and never both lost and on disk. */
  predicate Covered(acked: nat, lost: set<nat>, disk: seq<Frame>, e: int) {
    && (forall n :: 0 < n <= e ==> n <= acked || n in lost || InFrames(disk, n))
    && (forall n :: n in lost ==> 0 < n <= e && !InFrames(disk, n))
  }

  /** What the two drop counters count. */
  predicate CountersOK(s: State) {
    s.dropped + s.tier.dropped + s.hist.inherited == s.hist.refused + |s.hist.lost|
  }

  predicate Logged(log: map<nat, seq<byte>>, fs: seq<Frame>) {
    forall i :: 0 <= i < |fs| ==> fs[i].seqno in log && log[fs[i].seqno] == fs[i].data
  }

  /** Everything about disk and losses, with `e` the highest sequence that has left the ring. */
  predicate StoreOK(s: State, e: int) {
    && DiskOK(s.hist.disk, s.tier.maxSeq, e)
    && StrayOK(s.hist.stray, s.tier.maxSeq, s.hist.lost, e)
    && FileOK(s.cfg.session, s.tier.disabled, Contents(s), s.tier.bytes, s.hist.disk, s.hist.stray, s.hist.strayLen)
    && (s.cfg.live ==> s.tier.bytes <= s.diskCap)
    && (!s.cfg.hasPath ==> s.tier.bytes == 0)
    && Covered(s.acked, s.hist.lost, s.hist.disk, e)
    && CountersOK(s)
    && Logged(s.hist.log, s.hist.disk) && (s.hist.stray.Some? ==> Logged(s.hist.log, [s.hist.stray.value]))
  }

  predicate Inv(s: State) {
    && RingOK(s.ring, s.cfg.cap, s.seqno, s.acked) && StoreOK(s, Evicted(s)) && Logged(s.hist.log, s.ring)
    && (forall n :: n in s.hist.log ==> n <= s.seqno)
  }

  /** `spool_init`; `disabled` when recovery of an earlier run was incomplete. */
  predicate Fresh(s: State) {
    && s.cfg.live && SessionOK(s.cfg.session)
    && s.ring == [] && s.seqno == s.acked == s.dropped == 0
    && s.tier.maxSeq == s.tier.bytes == s.tier.dropped == s.hist.refused == s.hist.inherited == 0
    && (!s.tier.disabled ==> s.tier.file == None)
    && s.hist.disk == [] && s.hist.stray == None && s.hist.lost == {} && s.hist.log == map[]
  }

  // ----- preservation

  lemma FreshInv(s: State)
    requires Fresh(s)
    ensures Inv(s)
  {
  }

  lemma CoverLose(acked: nat, lost: set<nat>, disk: seq<Frame>, e: nat)
    requires Covered(acked, lost, disk, e) && (forall i :: 0 <= i < |disk| ==> disk[i].seqno <= e)
    ensures Covered(acked, lost + {e + 1}, disk, e + 1)
    ensures |lost + {e + 1}| == |lost| + 1
  {
    assert e + 1 !in lost && !InFrames(disk, e + 1);
  }

  lemma CoverCommit(acked: nat, lost: set<nat>, disk: seq<Frame>, f: Frame, e: nat)
    requires Covered(acked, lost, disk, e) && f.seqno == e + 1
    ensures Covered(acked, lost, disk + [f], e + 1)
  {
    var d := disk + [f];
    assert d[|disk|].seqno == e + 1;
    forall n | InFrames(disk, n)
      ensures InFrames(d, n)
    {
      var i :| 0 <= i < |disk| && disk[i].seqno == n;
      assert d[i].seqno == n;
    }
    forall n | InFrames(d, n)
      ensures n == e + 1 || InFrames(disk, n)
    {
      var i :| 0 <= i < |d| && d[i].seqno == n;
      assert i < |disk| ==> disk[i].seqno == n;
    }
  }

  lemma LoseInv(s: State, e: nat)
    requires StoreOK(s, e)
    ensures StoreOK(LoseDisk(s, e + 1), e + 1) && StoreOK(LoseRam(s, e + 1), e + 1)
  {
    CoverLose(s.acked, s.hist.lost, s.hist.disk, e);
    hide FileOK, Covered, Logged, ValidFrames, ValidFrame;
  }

  /** A failed record append loses the frame and leaves the file at its boundary, or disabled. */
  lemma RollbackInv(s: State, f: Frame, w: Write, e: nat)
    requires StoreOK(s, e) && !s.tier.disabled && s.tier.bytes != 0
    requires f.seqno == e + 1 && ValidFrame(f) && Logged(s.hist.log, [f]) && w.Failed?
    ensures StoreOK(WriteRecord(s, f, w), e + 1)
  {
    CoverLose(s.acked, s.hist.lost, s.hist.disk, e);
    hide Covered, Logged, ValidFrames, ValidFrame, Layout, RecordBytes, SessionOK;
    var l, r := Contents(s), RecordBytes(f);
    assert (l + r[..Min(w.torn, |r|)])[..|l|] == l;
    assert l + [] == l;
  }

  lemma HeaderRollbackInv(s: State, w: Write, e: nat)
    requires StoreOK(s, e) && !s.tier.disabled && s.tier.bytes == 0 && w.Failed?
    ensures StoreOK(LoseDisk(WriteHeader(s, w), e + 1), e + 1)
  {
    CoverLose(s.acked, s.hist.lost, s.hist.disk, e);
    hide Covered, Logged, ValidFrames, ValidFrame, Layout, RecordBytes, Header, SessionByte;
  }

  lemma HeaderInv(s: State, e: nat)
    requires StoreOK(s, e) && !s.tier.disabled && s.tier.bytes == 0
    requires s.cfg.hasPath && (s.cfg.live ==> HEADER_LEN <= s.diskCap)
    ensures StoreOK(WriteHeader(s, Flushed), e)
  {
    hide Covered, Logged, ValidFrames, ValidFrame, RecordBytes, Header, SessionByte;
    assert Layout(s.cfg.session, []) == Header(s.cfg.session);
  }

  lemma CommitInv(s: State, f: Frame, e: nat)
    requires StoreOK(s, e) && !s.tier.disabled && s.tier.bytes != 0
    requires f.seqno == e + 1 && ValidFrame(f) && Logged(s.hist.log, [f])
    requires s.cfg.live ==> s.tier.bytes + 12 + |f.data| <= s.diskCap
    ensures StoreOK(WriteRecord(s, f, Flushed), e + 1)
  {
    CoverCommit(s.acked, s.hist.lost, s.hist.disk, f, e);
    DiskCommit(s.hist.disk, s.tier.maxSeq, f, e, s.hist.log);
    LayoutSnoc(s.cfg.session, s.hist.disk, f);
    hide Covered, DiskOK, Logged, Layout, RecordBytes, SessionByte, ValidFrame;
    assert Contents(s) == Layout(s.cfg.session, s.hist.disk);
  }

  lemma DiskCommit(disk: seq<Frame>, maxSeq: nat, f: Frame, e: nat, log: map<nat, seq<byte>>)
    requires DiskOK(disk, maxSeq, e) && f.seqno == e + 1 && ValidFrame(f)
    requires Logged(log, disk) && Logged(log, [f])
    ensures DiskOK(disk + [f], f.seqno, e + 1)
    ensures Logged(log, disk + [f])
  {
    assert [f][0] == f;
  }

  lemma LayoutSnoc(session: SessionName, fs: seq<Frame>, f: Frame)
    ensures Layout(session, fs + [f]) == Layout(session, fs) + RecordBytes(f)
  {
    hide RecordBytes, RecordsBytes, Header;
    RecordsSnoc(fs, f);
    Assoc(Header(session), RecordsBytes(fs), RecordBytes(f));
  }

  lemma OpenInv(s: State, e: nat)
    requires StoreOK(s, e)
    ensures StoreOK(OpenWriter(s), e)
  {
    hide DiskOK, FileOK, Covered, Logged;
  }

  lemma DiskPutInv(s: State, f: Frame, io: DiskIO, e: nat)
    requires StoreOK(s, e) && s.cfg.hasPath && f.seqno == e + 1 && ValidFrame(f) && Logged(s.hist.log, [f])
    ensures StoreOK(DiskPut(s, f, io), e + 1)
  {
    var s1 := OpenWriter(s);
    hide StoreOK, ValidFrame, Logged, Rollback, LoseDisk, LoseRam, WriteRecord;
    LoseInv(s, e);
    if !s.tier.disabled && (s.tier.writer || io.opens) {
      OpenInv(s, e);
      LoseInv(s1, e);
      var hdr := if s.tier.bytes == 0 then HEADER_LEN else 0;
      if s.tier.bytes + hdr + 12 + |f.data| <= s.diskCap {
        if s.tier.bytes == 0 && io.header.Failed? {
          HeaderRollbackInv(s1, io.header, e);
        } else {
          var s2 := if s.tier.bytes == 0 then WriteHeader(s1, Flushed) else s1;
          if s.tier.bytes == 0 { HeaderInv(s1, e); }
          if io.record.Failed? { RollbackInv(s2, f, io.record, e); } else { CommitInv(s2, f, e); }
        }
      }
    }
  }

  /** Storing a frame touches neither the ring nor the sequence space, and never reuses a generation. */
  predicate DiskOnly(s: State, t: State) {
    && t.ring == s.ring && t.seqno == s.seqno && t.acked == s.acked && t.cfg == s.cfg && t.diskCap == s.diskCap
    && t.hist.log == s.hist.log && t.hist.inherited == s.hist.inherited && t.tier.gen >= s.tier.gen
  }

  lemma WriteFrame(s: State, f: Frame, w: Write)
    ensures DiskOnly(s, WriteRecord(s, f, w)) && DiskOnly(s, WriteHeader(s, w))
  {
    hide Header, RecordBytes, Contents, TruncateTo;
  }

  lemma DiskPutFrame(s: State, f: Frame, io: DiskIO)
    ensures DiskOnly(s, DiskPut(s, f, io))
  {
    var s1 := OpenWriter(s);
    WriteFrame(s1, f, io.header);
    WriteFrame(s1, f, io.record);
    WriteFrame(WriteHeader(s1, io.header), f, io.record);
    hide WriteHeader, WriteRecord, Contents;
  }

  lemma RingPop(ring: seq<Frame>, cap: Capacity, seqno: nat, acked: nat, log: map<nat, seq<byte>>)
    requires RingOK(ring, cap, seqno, acked) && Logged(log, ring) && ring != []
    ensures RingOK(ring[1..], cap, seqno, acked) && Logged(log, ring[1..]) && Logged(log, [ring[0]])
    ensures ring[0].seqno == seqno - |ring| + 1 && ValidFrame(ring[0])
  {
    hide ValidFrame;
  }

  lemma SpillInv(s: State, io: DiskIO, e: nat)
    requires StoreOK(s, e) && s.ring != [] && s.ring[0].seqno == e + 1
    requires ValidFrame(s.ring[0]) && Logged(s.hist.log, [s.ring[0]])
    ensures StoreOK(Spill(s, io), e + 1) && DiskOnly(s, Spill(s, io))
  {
    hide StoreOK, DiskPut, Logged, ValidFrame;
    LoseInv(s, e);
    if s.cfg.hasPath {
      DiskPutFrame(s, s.ring[0], io);
      DiskPutInv(s, s.ring[0], io, e);
    }
  }

  lemma EvictInv(s: State, io: DiskIO)
    requires Inv(s) && s.ring != []
    ensures Inv(Evict(s, io)) && Evicted(Evict(s, io)) == Evicted(s) + 1
    ensures Evict(s, io).seqno == s.seqno && Evict(s, io).cfg == s.cfg
  {
    RingPop(s.ring, s.cfg.cap, s.seqno, s.acked, s.hist.log);
    SpillInv(s, io, Evicted(s));
    StoreIgnoresRing(Spill(s, io), s.ring[1..], Evicted(s) + 1);
    hide StoreOK, RingOK, Spill, Logged, ValidFrame;
  }

  lemma StoreIgnoresRing(s: State, ring: seq<Frame>, e: int)
    requires StoreOK(s, e)
    ensures StoreOK(s.(ring := ring), e)
  {
    hide DiskOK, StrayOK, FileOK, Covered, Logged;
  }

  lemma AppendInv(s: State, data: seq<byte>, allocates: bool, io: DiskIO)
    requires Inv(s) && RECORD_MIN <= |data| <= RECORD_MAX
    ensures Inv(Append(s, data, allocates, io))
  {
    if !Refuses(s, allocates) {
      var s1 := if |s.ring| == s.cfg.cap then Evict(s, io) else s;
      if |s.ring| == s.cfg.cap { EvictInv(s, io); }
      PushInv(s1, data);
    }
  }

  lemma PushInv(s: State, data: seq<byte>)
    requires Inv(s) && RECORD_MIN <= |data| <= RECORD_MAX && |s.ring| < s.cfg.cap && s.seqno < UINT64_MAX
    ensures Inv(Push(s, data))
  {
    var t := Push(s, data);
    assert StoreOK(t, Evicted(t)) by { hide Covered, FileOK, ValidFrame; }
    hide StoreOK;
  }

  lemma {:induction false} DropThroughRing(ring: seq<Frame>, base: nat, m: nat)
    requires forall i :: 0 <= i < |ring| ==> ring[i].seqno == base + 1 + i
    ensures var k := if m <= base then 0 else Min(m - base, |ring|);
            DropThrough(ring, m) == ring[k..]
    decreases |ring|
  {
    if ring != [] && ring[0].seqno <= m {
      DropThroughRing(ring[1..], base + 1, m);
    }
  }

  /** Any acknowledged value, even one never sent, keeps the invariant. */
  lemma AckInv(s: State, n: nat)
    requires Inv(s)
    ensures Inv(Ack(s, n))
    ensures Ack(s, n).acked == if Min(n, s.seqno) > s.acked then Min(n, s.seqno) else s.acked
  {
    var m := Min(n, s.seqno);
    DropThroughRing(s.ring, Evicted(s), m);
    var t := Ack(s, n);
    AckStore(s, Evicted(s), t.acked, Evicted(t));
    StoreIgnoresRing(s.(acked := t.acked), t.ring, Evicted(t));
    hide StoreOK, ValidFrame;
  }

  lemma AckStore(s: State, e: nat, acked: nat, e': nat)
    requires StoreOK(s, e) && e <= e' && s.acked <= acked && (e < e' ==> e' <= acked)
    ensures StoreOK(s.(acked := acked), e')
  {
    hide FileOK, Logged, ValidFrames, ValidFrame, InFrames;
  }

  lemma DeleteInv(s: State, unlinks: bool)
    requires Inv(s)
    ensures Inv(MaybeDelete(s, unlinks))
  {
    var e := Evicted(s);
    assert Logged(s.hist.log, []);
    hide Logged, ValidFrame, Layout;
    if MaybeDelete(s, unlinks) != s && unlinks {
      assert forall n: nat :: InFrames(s.hist.disk, n) ==> n <= s.tier.maxSeq;
      assert Covered(s.acked, s.hist.lost, [], e);
    }
  }
}
