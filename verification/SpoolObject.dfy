/** `struct spool` as the program updates it in place: a circular array, counters and the disk tier. Every
    method is proved to compute the corresponding function of `Spool`. */
module SpoolObject {
  import opened BigEndian
  import opened SpoolFile
  import opened Spool
  import SpoolEffects

  lemma WrapSlot(head: nat, i: nat, cap: nat)
    requires head < cap && i <= cap
    ensures (head + i) % cap == if head + i < cap then head + i else head + i - cap
  {
    if head + i >= cap {
      assert head + i == cap * 1 + (head + i - cap);
    }
  }

  lemma TakePrefix<T>(a: seq<T>, b: seq<T>, n: nat)
    requires |a| <= n && (|a| == n || b == [])
    ensures a == (a + b)[..Min(n, |a + b|)]
  {
  }

  lemma SequenceFits(s: State)
    requires Inv(s)
    ensures s.seqno <= UINT64_MAX
  {
  }

  class Feed {
    const cfg: Config
    const ring: array<Frame>
    var head: nat
    var count: nat
    var diskCap: nat
    var seqno: nat
    var acked: nat
    var dropped: nat
    var tier: Tier
    ghost var hist: History

    ghost predicate Valid()
      reads this`head, this`count
    {
      ring.Length == cfg.cap && head < cfg.cap && count <= cfg.cap
    }

    /** The queue the circular array stands for, oldest frame first. */
    ghost function Queue(): (q: seq<Frame>)
      requires Valid()
      reads this`head, this`count, ring
      ensures |q| == count
    {
      if head + count <= cfg.cap then ring[head..head + count] else ring[head..] + ring[..head + count - cfg.cap]
    }

    ghost function View(): State
      requires Valid()
      reads this, ring
    {
      State(cfg, diskCap, Queue(), seqno, acked, dropped, tier, hist)
    }

    /** `spool_init`. */
    constructor (cfg: Config, diskCap: nat, disabled: bool)
      requires cfg.live && SessionOK(cfg.session)
      ensures Valid() && Fresh(View()) && Inv(View()) && fresh(ring)
      ensures this.cfg == cfg && this.diskCap == diskCap && tier.disabled == disabled
    {
      this.cfg := cfg;
      this.diskCap := diskCap;
      ring := new Frame[cfg.cap](_ => Frame(0, []));
      head, count, seqno, acked, dropped := 0, 0, 0, 0, 0;
      tier := Tier(false, disabled, 0, 0, 0, 0, None);
      hist := History([], None, 0, {}, 0, 0, map[]);
      new;
      FreshInv(View());
    }

    /** `disk_put`. */
    method Store(f: Frame, io: DiskIO)
      requires Valid()
      modifies this`tier, this`dropped, this`hist
      ensures View() == DiskPut(old(View()), f, io)
    {
      hide Queue, Header, WriteRecord;
      if tier.disabled {
        tier := tier.(dropped := tier.dropped + 1);
        hist := hist.(lost := hist.lost + {f.seqno});
        return;
      }
      if !tier.writer && !io.opens {
        dropped := dropped + 1;
        hist := hist.(lost := hist.lost + {f.seqno});
        return;
      }
      tier := tier.(writer := true, file := Some(Bytes(tier)));
      var hdrNeed := if tier.bytes == 0 then HEADER_LEN else 0;
      if tier.bytes + hdrNeed + 12 + |f.data| > diskCap {
        tier := tier.(dropped := tier.dropped + 1);
        hist := hist.(lost := hist.lost + {f.seqno});
        return;
      }
      if hdrNeed != 0 {
        var h := Header(cfg.session);
        if io.header.Failed? {
          hist := hist.(lost := hist.lost + {f.seqno});
          if !io.header.truncated { hist := hist.(stray := None, strayLen := Min(io.header.torn, |h|)); }
          tier := Repair(tier, h, io.header);
          tier := tier.(dropped := tier.dropped + 1);
          return;
        }
        tier := tier.(file := Some(Bytes(tier) + h), bytes := HEADER_LEN);
      }
      StoreRecord(f, io.record);
    }

    method StoreRecord(f: Frame, w: Write)
      requires Valid()
      modifies this`tier, this`hist
      ensures View() == WriteRecord(old(View()), f, w)
    {
      hide Queue, RecordBytes;
      if w.Failed? {
        var r := RecordBytes(f);
        hist := hist.(lost := hist.lost + {f.seqno});
        if !w.truncated { hist := hist.(stray := Some(f), strayLen := Min(w.torn, |r|)); }
        tier := Repair(tier, r, w);
        tier := tier.(dropped := tier.dropped + 1);
      } else {
        tier := Commit(tier, f);
        hist := hist.(disk := hist.disk + [f]);
      }
    }

    lemma FrontIs()
      requires Valid() && 0 < count
      ensures ring[head] == Queue()[0]
    {
    }

    /** Dropping the oldest frame is advancing `head` around the array. */
    method PopFront()
      requires Valid() && 0 < count
      modifies this`head, this`count
      ensures Valid() && Queue() == old(Queue())[1..]
    {
      WrapSlot(head, 1, cfg.cap);
      head := (head + 1) % cfg.cap;
      count := count - 1;
    }

    method EvictOldest(io: DiskIO)
      requires Valid() && 0 < count
      modifies this`head, this`count, this`tier, this`dropped, this`hist
      ensures Valid() && View() == Evict(old(View()), io) && count == old(count) - 1
    {
      hide Queue, DiskPut;
      FrontIs();
      if cfg.hasPath {
        Store(ring[head], io);
      } else {
        dropped := dropped + 1;
        hist := hist.(lost := hist.lost + {ring[head].seqno});
      }
      PopFront();
    }

    /** `spool_append`; the result is the assigned sequence, or 0. */
    method Append(data: seq<byte>, allocates: bool, io: DiskIO) returns (r: nat)
      requires Valid() && Inv(View()) && RECORD_MIN <= |data| <= RECORD_MAX
      modifies this, ring
      ensures Valid() && View() == Spool.Append(old(View()), data, allocates, io) && Inv(View())
      ensures cfg.live && old(seqno) < 0xFFFF_FFFF_FFFF_FFFF && allocates ==>
        && r == seqno == old(seqno) + 1 && hist.log == old(hist.log)[r := data] && hist.refused == old(hist.refused)
        && Queue() == (if old(count) == cfg.cap then old(Queue())[1..] else old(Queue())) + [Frame(r, data)]
      ensures !(cfg.live && old(seqno) < 0xFFFF_FFFF_FFFF_FFFF && allocates) ==>
        && r == 0 && Queue() == old(Queue()) && seqno == old(seqno) && hist.log == old(hist.log)
        && hist.refused == old(hist.refused) + 1
    {
      hide Inv, Queue, Evict, Push, SpoolEffects.EvictionStored;
      AppendInv(View(), data, allocates, io);
      SequenceFits(View());
      if cfg.live && seqno < UINT64_MAX && allocates { SpoolEffects.Accepted(View(), data, io); }
      if !cfg.live || seqno == UINT64_MAX || !allocates {
        dropped := dropped + 1;
        hist := hist.(refused := hist.refused + 1);
        return 0;
      }
      r := seqno + 1;
      if count == cfg.cap {
        EvictOldest(io);
      }
      PushBack(data);
    }

    method PushBack(data: seq<byte>)
      requires Valid() && count < cfg.cap
      modifies this, ring
      ensures Valid() && View() == Push(old(View()), data)
    {
      hide Queue;
      seqno := seqno + 1;
      var idx := (head + count) % cfg.cap;
      WrapSlot(head, count, cfg.cap);
      StoreBack(idx, Frame(seqno, data));
      hist := hist.(log := hist.log[seqno := data]);
    }

    method StoreBack(idx: nat, f: Frame)
      requires Valid() && count < cfg.cap
      requires idx == if head + count < cfg.cap then head + count else head + count - cfg.cap
      modifies this`count, ring
      ensures Valid() && Queue() == old(Queue()) + [f]
    {
      ring[idx] := f;
      count := count + 1;
    }

    lemma DropFront(q: seq<Frame>, m: nat)
      requires q != [] && q[0].seqno <= m
      ensures DropThrough(q, m) == DropThrough(q[1..], m)
    {
    }

    lemma DropNone(q: seq<Frame>, m: nat)
      requires q != [] ==> q[0].seqno > m
      ensures DropThrough(q, m) == q
    {
    }


    /** `spool_ack`: the loop frees the acknowledged prefix of the ring. */
    method Acknowledge(n: nat)
      requires Valid() && Inv(View())
      modifies this`head, this`count, this`acked
      ensures Valid() && View() == Ack(old(View()), n) && Inv(View())
      ensures acked == if Min(n, seqno) > old(acked) then Min(n, seqno) else old(acked)
      ensures count <= old(count) && Queue() == old(Queue())[old(count) - count..]
      ensures forall i :: 0 <= i < old(count) - count ==> old(Queue())[i].seqno <= n
      ensures forall i :: 0 <= i < count ==> Queue()[i].seqno > n
    {
      SpoolEffects.Freed(View(), n);
      hide Inv, Queue, DropThrough;
      AckInv(View(), n);
      var m := Min(n, seqno);
      FreeThrough(m);
      if m > acked { acked := m; }
    }

    /** The freeing loop. */
    method FreeThrough(m: nat)
      requires Valid()
      modifies this`head, this`count
      ensures Valid() && Queue() == DropThrough(old(Queue()), m)
    {
      hide Queue, DropThrough;
      while count > 0 && ring[head].seqno <= m
        invariant Valid()
        invariant DropThrough(Queue(), m) == DropThrough(old(Queue()), m)
      {
        FrontIs();
        DropFront(Queue(), m);
        PopFront();
      }
      if count > 0 { FrontIs(); }
      DropNone(Queue(), m);
    }

    lemma SlotAt(i: nat)
      requires Valid() && i < count
      ensures (head + i) % cfg.cap < ring.Length && ring[(head + i) % cfg.cap] == Queue()[i]
    {
      WrapSlot(head, i, cfg.cap);
    }

    /** `spool_collect`: copies ring frames above `after`; a failed allocation after `copies` of them ends the
        batch. The disk mark is reported from the same lock hold. */
    method Collect(after: nat, max: nat, copies: nat) returns (batch: seq<Frame>, diskMax: nat)
      requires Valid()
      ensures diskMax == tier.maxSeq
      ensures var news := Above(View().ring, after); batch == news[..Min(Min(copies, max), |news|)]
    {
      hide Queue;
      diskMax := tier.maxSeq;
      batch := [];
      var i := 0;
      assert Queue()[0..] == Queue();
      while i < count && |batch| < max
        invariant i <= count && |batch| <= Min(copies, max)
        invariant batch + Above(Queue()[i..], after) == Above(Queue(), after)
      {
        SlotAt(i);
        var f := ring[(head + i) % cfg.cap];
        assert Queue()[i..][1..] == Queue()[i + 1..];
        if f.seqno > after {
          if |batch| == copies { break; }
          Assoc(batch, [f], Above(Queue()[i + 1..], after));
          batch := batch + [f];
        }
        i := i + 1;
      }
      TakePrefix(batch, Above(Queue()[i..], after), Min(copies, max));
    }

    /** `disk_maybe_delete`. */
    method Clean(unlinks: bool)
      requires Valid() && Inv(View())
      modifies this`tier, this`hist
      ensures View() == MaybeDelete(old(View()), unlinks) && Inv(View())
    {
      DeleteInv(View(), unlinks);
      hide Inv, Queue;
      if cfg.hasPath && tier.maxSeq != 0 && acked >= tier.maxSeq {
        tier := tier.(writer := false);
        if unlinks {
          tier := tier.(file := None, maxSeq := 0, bytes := 0, disabled := false, gen := tier.gen + 1);
          hist := hist.(disk := [], stray := None, strayLen := 0);
        } else {
          tier := tier.(disabled := true);
        }
      }
    }
  }
}
