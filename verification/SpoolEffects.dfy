/** What each operation of the spool does to queue, file and counters, for every state and every fault
    (feeder/navfeeder.c). */
module SpoolEffects {
  import opened BigEndian
  import opened SpoolFile
  import opened Spool

  // ----- storing a frame

  /** Everything a frame needs to reach the file. */
  predicate Storable(s: State, f: Frame, io: DiskIO) {
    && !s.tier.disabled && (s.tier.writer || io.opens)
    && s.tier.bytes + (if s.tier.bytes == 0 then 73 else 0) + 12 + |f.data| <= s.diskCap
    && (s.tier.bytes == 0 ==> io.header.Flushed?) && io.record.Flushed?
  }

  /** A frame is stored exactly when appends are trusted, the file is open or opens, the record and a header the file
      still needs fit under the cap, and every write is flushed; otherwise it is lost, in memory's counter when the
      file does not open and in the disk's in every other case. */
  lemma StoredIff(s: State, f: Frame, io: DiskIO)
    requires f.seqno !in s.hist.lost
    ensures var t, shut := DiskPut(s, f, io), !s.tier.disabled && !s.tier.writer && !io.opens;
            && (t.hist.disk == s.hist.disk + [f] <==> Storable(s, f, io))
            && (f.seqno in t.hist.lost <==> !Storable(s, f, io))
            && t.hist.lost == (if Storable(s, f, io) then s.hist.lost else s.hist.lost + {f.seqno})
            && t.hist.disk == (if Storable(s, f, io) then s.hist.disk + [f] else s.hist.disk)
            && t.dropped == (if shut then s.dropped + 1 else s.dropped)
            && t.tier.dropped == (if Storable(s, f, io) || shut then s.tier.dropped else s.tier.dropped + 1)
            && t.hist.refused == s.hist.refused
  {
    hide Header, RecordBytes, Contents, TruncateTo;
  }

  // ----- appending

  /** Whether the oldest frame is stored or lost when the ring is full. */
  predicate EvictionStored(s: State, io: DiskIO)
    requires s.ring != []
  {
    s.cfg.hasPath && Storable(s, s.ring[0], io)
  }

  lemma EvictOutcome(s: State, io: DiskIO)
    requires s.ring != [] && s.ring[0].seqno !in s.hist.lost
    ensures var t, f := Evict(s, io), s.ring[0];
            && t.ring == s.ring[1..] && t.seqno == s.seqno && t.acked == s.acked && t.cfg == s.cfg
            && t.hist.log == s.hist.log && t.hist.refused == s.hist.refused
            && t.hist.disk == (if EvictionStored(s, io) then s.hist.disk + [f] else s.hist.disk)
            && t.hist.lost == (if EvictionStored(s, io) then s.hist.lost else s.hist.lost + {f.seqno})
  {
    hide DiskPut, Storable;
    if s.cfg.hasPath {
      StoredIff(s, s.ring[0], io);
      DiskPutFrame(s, s.ring[0], io);
    }
  }

  /** A live spool takes every record it can copy while sequences last, full ring or not and with or without a file:
      it becomes the last frame of the queue under the next sequence, and a full queue gives up its first frame, to
      the file or as one counted loss. */
  lemma Accepted(s: State, data: seq<byte>, io: DiskIO)
    requires Inv(s) && s.cfg.live && s.seqno < 0xFFFF_FFFF_FFFF_FFFF
    ensures var t, full := Append(s, data, true, io), |s.ring| == s.cfg.cap;
            && t.seqno == s.seqno + 1
            && t.ring == (if full then s.ring[1..] else s.ring) + [Frame(s.seqno + 1, data)]
            && t.hist.log == s.hist.log[s.seqno + 1 := data] && t.hist.refused == s.hist.refused
            && t.acked == s.acked
            && t.hist.disk == (if full && EvictionStored(s, io) then s.hist.disk + [s.ring[0]] else s.hist.disk)
            && t.hist.lost == (if full && !EvictionStored(s, io) then s.hist.lost + {s.ring[0].seqno}
                               else s.hist.lost)
            && (!full ==> t.tier == s.tier && t.dropped == s.dropped)
  {
    hide Evict, EvictionStored, FileOK, Logged, ValidFrame, DiskOK, StrayOK, InFrames;
    if |s.ring| == s.cfg.cap {
      assert s.ring[0].seqno == Evicted(s) + 1;
      EvictOutcome(s, io);
    }
  }

  /** In every other case the record is dropped, one refusal is counted and nothing else changes. */
  lemma Refused(s: State, data: seq<byte>, allocates: bool, io: DiskIO)
    requires !s.cfg.live || s.seqno == 0xFFFF_FFFF_FFFF_FFFF || !allocates
    ensures Append(s, data, allocates, io)
         == s.(dropped := s.dropped + 1, hist := s.hist.(refused := s.hist.refused + 1))
  {
  }

  // ----- acknowledging and deleting

  /** An acknowledgement frees exactly the frames it covers, in order, and the mark is the highest assigned sequence
      it has covered. */
  lemma Freed(s: State, n: nat)
    requires Inv(s)
    ensures var t, m := Ack(s, n), if n < s.seqno then n else s.seqno;
            && t == s.(ring := t.ring, acked := if m > s.acked then m else s.acked)
            && |t.ring| <= |s.ring| && t.ring == s.ring[|s.ring| - |t.ring|..]
            && (forall i :: 0 <= i < |s.ring| - |t.ring| ==> s.ring[i].seqno <= n)
            && (forall i :: 0 <= i < |t.ring| ==> t.ring[i].seqno > n)
  {
    hide Inv, DropThrough;
    RingNumbers(s);
    DropThroughRing(s.ring, Evicted(s), Min(n, s.seqno));
  }

  lemma RingNumbers(s: State)
    requires Inv(s)
    ensures 0 <= Evicted(s) && forall i :: 0 <= i < |s.ring| ==> s.ring[i].seqno == Evicted(s) + 1 + i
  {
    hide StoreOK, ValidFrame, Logged;
  }

  /** The file is removed exactly when it holds records and all of them are acknowledged. */
  lemma Removed(s: State, unlinks: bool)
    requires Inv(s)
    ensures var t, n := MaybeDelete(s, unlinks), |s.hist.disk|;
            var done := n > 0 && s.hist.disk[n - 1].seqno <= s.acked;
            && (done <==> s.hist.disk != [] && forall i :: 0 <= i < |s.hist.disk| ==> s.hist.disk[i].seqno <= s.acked)
            && (!done ==> t == s)
            && (done && unlinks ==> t.tier.file == None && t.hist.disk == [] && t.tier.bytes == 0 && t.tier.maxSeq == 0
                                    && !t.tier.disabled && t.tier.gen == s.tier.gen + 1)
            && (done && !unlinks ==> t.tier.file == s.tier.file && t.hist.disk == s.hist.disk && t.tier.disabled)
            && t.ring == s.ring && t.acked == s.acked && t.seqno == s.seqno && t.hist.lost == s.hist.lost
            && t.dropped == s.dropped && t.tier.dropped == s.tier.dropped
  {
    hide FileOK, Covered, Logged, RingOK, ValidFrame;
    OnlyWithPath(s);
    LastPositive(s);
  }

  lemma OnlyWithPath(s: State)
    requires Inv(s)
    ensures s.hist.disk != [] ==> s.cfg.hasPath
  {
    hide Covered, Logged, RingOK, DiskOK, StrayOK, Layout;
  }

  lemma LastPositive(s: State)
    requires Inv(s)
    ensures s.hist.disk != [] ==> s.hist.disk[|s.hist.disk| - 1].seqno > 0
  {
    hide FileOK, Covered, Logged, RingOK, StrayOK;
  }
}
