/** The consumer gets its work done: with a file that opens, sends that are accepted and copies that succeed, every
    run of its own steps sends exactly what is due, in order, within a bounded number of steps (feeder/navfeeder.c). */
module FeederProgress {
  import opened BigEndian
  import opened SpoolFile
  import opened Spool
  import opened SpoolRuns
  import opened Feeder
  import opened FeederSafety
  import opened FeederDelivery

  /** A step of the consumer that nothing hinders. */
  predicate Smooth(ev: Event) {
    match ev
    case Delete(_) => true
    case Snapshot(access) => access != Unavailable
    case ReadRecord(reply) => reply == Accepted
    case Collect(copied) => copied > 0
    case SendNext(reply) => reply == Accepted
    case _ => false
  }

  /** Each event is such a step, and the consumer is where it takes it. */
  predicate SmoothRun(w: World, evs: seq<Event>) {
    forall i :: 0 <= i < |evs| ==> Smooth(evs[i]) && Enabled(Exec(w, evs[..i]), evs[i])
  }

  // ----- what is due

  function Batch(w: World): seq<Frame> {
    if w.con.phase.Sending? then w.con.phase.batch else []
  }

  /** How far the consumer will have sent once its batch is out. */
  function Mark(w: World): nat {
    if Batch(w) == [] then w.con.sentUpto else Batch(w)[|Batch(w)| - 1].seqno
  }

  /** The records of the file that are news to a drain. */
  function News(s: State, upto: nat, open: bool): seq<Frame> {
    if open || s.tier.maxSeq > upto then Above(Readable(s), upto) else []
  }

  /** What is left to send: the batch in hand, the file's news, and the ring above them. */
  function Due(w: World): seq<Frame> {
    Batch(w) + News(w.spool, Mark(w), w.con.phase.Scanning?) + Above(w.spool.ring, Mark(w))
  }

  /** No record that is news was acknowledged behind the consumer's back, unless the file is already being read: such
      a file may be deleted at the top of the loop instead of being drained. */
  predicate Steady(w: World) {
    w.con.phase.Scanning? || w.con.phase == PreDrain || w.spool.tier.maxSeq <= Mark(w)
      || w.spool.tier.maxSeq > w.spool.acked
  }

  /** How far the consumer is from its next send, at most. */
  function Distance(w: World): nat {
    var k, news := |Readable(w.spool)|, w.spool.tier.maxSeq > w.con.sentUpto;
    match w.con.phase
    case Scanning(_) => if w.con.idx <= k then 4 + k - w.con.idx else 0
    case Top => if news then 6 + k else 3
    case PreDrain => if news then 5 + k else 2
    case PreCollect => if news then 7 + k else 1
    case _ => 0
  }

  /** A bound on the number of steps until nothing is due. */
  function Bound(w: World): nat {
    |Due(w)| * (8 + |Readable(w.spool)|) + Distance(w)
  }

  // ----- frames above a mark

  lemma AboveNone(fs: seq<Frame>, upto: nat)
    requires forall i :: 0 <= i < |fs| ==> fs[i].seqno <= upto
    ensures Above(fs, upto) == []
  {
    AboveSkips(fs, |fs|, upto);
    assert fs[|fs|..] == [];
  }

  lemma AboveTakes(fs: seq<Frame>, k: nat, upto: nat)
    requires Increasing(fs) && k < |fs| && (forall i :: 0 <= i < k ==> fs[i].seqno <= upto) && fs[k].seqno > upto
    ensures Above(fs, upto) == [fs[k]] + Above(fs, fs[k].seqno)
  {
    AboveSkips(fs, k, upto);
    AboveSkips(fs, k + 1, fs[k].seqno);
    AboveAll(fs[k + 1..], fs[k].seqno);
    AboveAll(fs[k..], upto);
    assert fs[k..] == [fs[k]] + fs[k + 1..];
  }

  /** The ring is above every mark the file can bring the consumer to. */
  lemma RingAbove(s: State, upto: nat)
    requires Inv(s) && upto <= Evicted(s)
    ensures Above(s.ring, upto) == s.ring
  {
    hide Inv, Above;
    RingRun(s);
    AboveAll(s.ring, upto);
  }

  /** A batch from consecutive frames, and what stays above it. */
  lemma QueueSplit(ring: seq<Frame>, e: nat, upto: nat, n: nat)
    requires (forall i :: 0 <= i < |ring| ==> ring[i].seqno == e + 1 + i) && 0 < n <= |Above(ring, upto)|
    ensures var news := Above(ring, upto);
            news == news[..n] + Above(ring, news[n - 1].seqno) && news[n - 1].seqno > upto
  {
    hide Above;
    AboveRing(ring, e, upto);
    var j := if upto <= e then 0 else Min(upto - e, |ring|);
    var last := ring[j + n - 1];
    assert ring[j..][n - 1] == last;
    AboveRing(ring, e, last.seqno);
    assert ring[j + n..] == ring[j..][n..];
  }

  lemma RingSplit(s: State, upto: nat, n: nat)
    requires Inv(s) && 0 < n <= |Above(s.ring, upto)|
    ensures var news := Above(s.ring, upto);
            news == news[..n] + Above(s.ring, news[n - 1].seqno) && news[n - 1].seqno > upto
  {
    hide Inv, Above, Logged;
    RingRun(s);
    QueueSplit(s.ring, Evicted(s), upto, n);
  }

  lemma OrderedFile(s: State)
    requires Inv(s)
    ensures Increasing(Readable(s))
    ensures s.tier.maxSeq != 0 ==> s.cfg.hasPath && InFrames(Readable(s), s.tier.maxSeq)
  {
    hide RingOK, Covered, Logged, ValidFrame, Layout;
    StrayOrder(s.hist.disk, s.tier.maxSeq, s.hist.stray, s.hist.lost, Evicted(s));
    if s.tier.maxSeq != 0 {
      assert Readable(s)[|s.hist.disk| - 1].seqno == s.tier.maxSeq;
    }
  }

  // ----- one step

  /** A step keeps the sum of what was sent and what is due, and comes closer to a send. */
  predicate Advances(w: World, v: World) {
    && v.wire.sent + Due(v) == w.wire.sent + Due(w)
    && |w.wire.sent| <= |v.wire.sent|
    && Steady(v) && (Due(w) != [] ==> Bound(v) < Bound(w))
  }

  lemma DeleteKeeps(s: State, unlinks: bool, upto: nat)
    requires Inv(s) && (s.tier.maxSeq <= upto || s.tier.maxSeq > s.acked)
    ensures var t := MaybeDelete(s, unlinks);
            && News(t, upto, false) == News(s, upto, false) && t.ring == s.ring && t.acked == s.acked
            && (t.tier.maxSeq > upto <==> s.tier.maxSeq > upto) && |Readable(t)| <= |Readable(s)|
            && (t.tier.maxSeq <= upto || t.tier.maxSeq > t.acked)
  {
    hide Inv, Above;
  }

  lemma FewerSteps(n: nat, k: nat, l: nat)
    ensures k <= l ==> n * (8 + k) <= n * (8 + l)
  {
  }

  lemma OneFewer(n: nat, k: nat)
    ensures n > 0 ==> (n - 1) * (8 + k) + 8 + k == n * (8 + k)
  {
  }

  /** A step that sends nothing. */
  lemma Nearer(w: World, v: World)
    requires v.wire == w.wire && Due(v) == Due(w) && Steady(v) && |Readable(v.spool)| <= |Readable(w.spool)|
    requires Due(w) != [] ==> Distance(v) < Distance(w)
    ensures Advances(w, v)
  {
    hide Due, Distance, Steady, Readable;
    FewerSteps(|Due(w)|, |Readable(v.spool)|, |Readable(w.spool)|);
  }

  lemma Farthest(w: World)
    ensures Distance(w) < 8 + |Readable(w.spool)|
  {
    hide Readable;
  }

  /** A step that sends `f`. */
  lemma SentOne(w: World, v: World, f: Frame)
    requires v.wire.sent == w.wire.sent + [f] && Due(w) == [f] + Due(v) && Steady(v) && v.spool == w.spool
    ensures Advances(w, v)
  {
    hide Due, Distance, Steady, Readable;
    Farthest(v);
    OneFewer(|Due(w)|, |Readable(w.spool)|);
    Assoc(w.wire.sent, [f], Due(v));
  }

  lemma ClearTop(w: World, unlinks: bool)
    requires WInv(w) && w.con.phase == Top && Steady(w)
    ensures Advances(w, Next(w, Delete(unlinks)))
  {
    hide WInv, Inv, News, Above, MaybeDelete, Readable, Advances;
    WInvSpool(w);
    DeleteKeeps(w.spool, unlinks, w.con.sentUpto);
    Nearer(w, Next(w, Delete(unlinks)));
  }

  lemma OpenFile(w: World, access: Access)
    requires WInv(w) && w.con.phase == PreDrain && access != Unavailable
    ensures Advances(w, Next(w, Snapshot(access)))
  {
    hide Inv, Above, Readable, Advances, WireOK, NoGap, Increasing, InFrames, Offset;
    OrderedFile(w.spool);
    var v := Next(w, Snapshot(access));
    SnapshotInv(w, access);
    assert v.con.phase.Scanning? ==> v.con.idx <= |Readable(v.spool)|;
    Nearer(w, v);
  }

  lemma ReadOn(w: World)
    requires WInv(w) && w.con.phase.Scanning?
    ensures Advances(w, Next(w, ReadRecord(Accepted)))
  {
    var s, fs, k, upto := w.spool, Readable(w.spool), w.con.idx, w.con.sentUpto;
    hide WInv, Inv, Above, Readable, ReadAt, Contents, Offset, Increasing, InFrames;
    ReadsNext(w);
    WInvSpool(w);
    OrderedFile(s);
    ReadableBelow(s);
    CursorBelow(fs, w.con.off, k, upto);
    if k < |fs| && fs[k].seqno > upto {
      ReadSends(w, fs[k]);
    } else if k == |fs| {
      FileDone(s, upto);
    }
  }

  /** The scan sends the record at the cursor. */
  lemma ReadSends(w: World, f: Frame)
    requires WInv(w) && w.con.phase.Scanning? && w.con.idx < |Readable(w.spool)| && f == Readable(w.spool)[w.con.idx]
    requires f.seqno > w.con.sentUpto && ReadAt(Contents(w.spool), w.con.off) == Some(f)
    ensures Advances(w, Next(w, ReadRecord(Accepted)))
  {
    var s, fs, k, upto := w.spool, Readable(w.spool), w.con.idx, w.con.sentUpto;
    hide WInv, Inv, Above, Readable, ReadAt, Contents, Offset, Increasing;
    ReadsNext(w);
    WInvSpool(w);
    OrderedFile(s);
    ReadableBelow(s);
    CursorBelow(fs, w.con.off, k, upto);
    AboveTakes(fs, k, upto);
    RingAbove(s, upto);
    RingAbove(s, f.seqno);
    var v := Next(w, ReadRecord(Accepted));
    hide Advances;
    Assoc([f], Above(fs, f.seqno), s.ring);
    SentOne(w, v, f);
  }

  /** At the end of the file nothing in it is news. */
  lemma FileDone(s: State, upto: nat)
    requires Inv(s) && forall i :: 0 <= i < |Readable(s)| ==> Readable(s)[i].seqno <= upto
    ensures Above(Readable(s), upto) == [] && s.tier.maxSeq <= upto
  {
    OrderedFile(s);
    AboveNone(Readable(s), upto);
    hide Inv, Above, Readable, Increasing;
  }

  lemma Gather(w: World, copied: nat)
    requires WInv(w) && w.con.phase == PreCollect && copied > 0 && Steady(w)
    ensures Advances(w, Next(w, Collect(copied)))
  {
    hide WInv, Inv, Above, Readable, Advances;
    var s, upto := w.spool, w.con.sentUpto;
    WInvSpool(w);
    var v, news := Next(w, Collect(copied)), Above(s.ring, upto);
    if s.tier.maxSeq <= upto && news != [] {
      var n := Min(Min(copied, DRAIN_BATCH), |news|);
      RingSplit(s, upto, n);
      assert Due(v) == Due(w);
    }
    Nearer(w, v);
  }

  lemma SendOn(w: World)
    requires WInv(w) && w.con.phase.Sending? && Steady(w)
    ensures Advances(w, Next(w, SendNext(Accepted)))
  {
    hide Inv, WireOK, NoGap, Above, Readable, Advances, CursorOK, SkipFree, Logged;
    var batch := w.con.phase.batch;
    assert batch != [];
    hide WInv;
    var v, rest := Next(w, SendNext(Accepted)), batch[1..];
    assert batch == [batch[0]] + rest;
    assert rest != [] ==> rest[|rest| - 1] == batch[|batch| - 1];
    SentBatch(w, v);
    SentOne(w, v, batch[0]);
  }

  lemma SentBatch(w: World, v: World)
    requires w.con.phase.Sending? && w.con.phase.batch != [] && v == Next(w, SendNext(Accepted))
    ensures Mark(v) == Mark(w) && Due(w) == [w.con.phase.batch[0]] + Due(v)
  {
    hide Above, Readable;
    var batch := w.con.phase.batch;
    var rest := batch[1..];
    assert batch == [batch[0]] + rest;
    assert rest != [] ==> rest[|rest| - 1] == batch[|batch| - 1];
    assert Batch(v) == rest && Mark(v) == Mark(w);
  }

  lemma StepAdvances(w: World, ev: Event)
    requires WInv(w) && Steady(w) && Smooth(ev) && Enabled(w, ev)
    ensures WInv(Next(w, ev)) && Advances(w, Next(w, ev))
  {
    hide WInv, Advances, Next, Steady;
    NextInv(w, ev);
    match ev
    case Delete(unlinks) => ClearTop(w, unlinks);
    case Snapshot(access) => OpenFile(w, access);
    case ReadRecord(_) => ReadOn(w);
    case Collect(copied) => Gather(w, copied);
    case SendNext(_) => SendOn(w);
  }

  // ----- runs

  lemma SmoothPrefix(w: World, evs: seq<Event>)
    requires evs != [] && SmoothRun(w, evs)
    ensures SmoothRun(w, evs[..|evs| - 1])
    ensures Smooth(evs[|evs| - 1]) && Enabled(Exec(w, evs[..|evs| - 1]), evs[|evs| - 1])
  {
    hide Exec, Enabled;
    var p := evs[..|evs| - 1];
    forall i | 0 <= i < |p|
      ensures Smooth(p[i]) && Enabled(Exec(w, p[..i]), p[i])
    {
      assert p[..i] == evs[..i] && p[i] == evs[i];
    }
  }

  lemma {:induction false} RunAdvances(w: World, evs: seq<Event>)
    requires WInv(w) && Steady(w) && SmoothRun(w, evs)
    ensures var v := Exec(w, evs);
            && WInv(v) && Steady(v) && v.wire.sent + Due(v) == w.wire.sent + Due(w) && |w.wire.sent| <= |v.wire.sent|
            && (Due(v) == [] || Bound(v) + |evs| <= Bound(w))
  {
    if evs != [] {
      hide WInv, Steady, SmoothRun, Next, Due, Bound;
      SmoothPrefix(w, evs);
      var p := evs[..|evs| - 1];
      RunAdvances(w, p);
      var u := Exec(w, p);
      StepAdvances(u, evs[|evs| - 1]);
      LengthsKept(u.wire.sent, Due(u), Exec(w, evs).wire.sent, Due(Exec(w, evs)));
    } else {
      hide WInv, Steady, Due, Bound;
    }
  }

  lemma LengthsKept(a: seq<Frame>, b: seq<Frame>, c: seq<Frame>, d: seq<Frame>)
    requires c + d == a + b && |a| <= |c|
    ensures b == [] ==> d == []
  {
    assert |c| + |d| == |a| + |b|;
  }

  /** Progress: every run of more smooth steps than the bound sends exactly what was due, in order. */
  lemma Progress(w: World, evs: seq<Event>)
    requires WInv(w) && Steady(w) && SmoothRun(w, evs) && |evs| > Bound(w)
    ensures Exec(w, evs).wire.sent == w.wire.sent + Due(w) && Due(Exec(w, evs)) == []
  {
    hide WInv, Steady, SmoothRun, Exec, Due, Bound;
    RunAdvances(w, evs);
    var v := Exec(w, evs);
    assert v.wire.sent + [] == v.wire.sent;
  }

  /** What the consumer does next when nothing hinders it. */
  function Choice(w: World): Event {
    match w.con.phase
    case Top => Delete(true)
    case PreDrain => Snapshot(Opened)
    case Scanning(_) => ReadRecord(Accepted)
    case PreCollect => Collect(DRAIN_BATCH)
    case _ => SendNext(Accepted)
  }

  /** The consumer is never without a smooth step while the connection is open. */
  lemma NeverStuck(w: World)
    requires WInv(w) && w.con.phase != Offline
    ensures Smooth(Choice(w)) && Enabled(w, Choice(w))
  {
    hide Inv, WireOK, NoGap, CursorOK, Readable;
  }

  lemma StaysOpen(w: World, ev: Event)
    requires Smooth(ev) && Enabled(w, ev)
    ensures Next(w, ev).con.phase != Offline
  {
    hide ReadAt, Above, MaybeDelete;
  }

  lemma SmoothSnoc(w: World, evs: seq<Event>, ev: Event)
    requires SmoothRun(w, evs) && Smooth(ev) && Enabled(Exec(w, evs), ev)
    ensures SmoothRun(w, evs + [ev]) && Exec(w, evs + [ev]) == Next(Exec(w, evs), ev)
  {
    hide Exec, Enabled, Next;
    var es := evs + [ev];
    assert es[..|evs|] == evs;
    forall i | 0 <= i < |es|
      ensures Smooth(es[i]) && Enabled(Exec(w, es[..i]), es[i])
    {
      if i < |evs| { assert es[..i] == evs[..i]; }
    }
    ExecSnoc(w, es);
  }

  lemma ExecSnoc(w: World, es: seq<Event>)
    requires es != []
    ensures Exec(w, es) == Next(Exec(w, es[..|es| - 1]), es[|es| - 1])
  {
    hide Next;
  }

  /** A smooth run of `n` steps. */
  function Drive(w: World, n: nat): (evs: seq<Event>)
    ensures |evs| == n
  {
    if n == 0 then [] else Drive(w, n - 1) + [Choice(Exec(w, Drive(w, n - 1)))]
  }

  lemma NoSteps(w: World)
    ensures SmoothRun(w, []) && Exec(w, []) == w
  {
  }

  lemma {:induction false} DriveSmooth(w: World, n: nat)
    requires WInv(w) && Steady(w) && w.con.phase != Offline
    ensures SmoothRun(w, Drive(w, n)) && Exec(w, Drive(w, n)).con.phase != Offline
  {
    hide WInv, Steady, Next, Enabled, Smooth, SmoothRun, Exec, Choice, Due, Bound;
    if n == 0 {
      NoSteps(w);
    } else {
      var evs := Drive(w, n - 1);
      var ev := Choice(Exec(w, evs));
      DriveSmooth(w, n - 1);
      RunAdvances(w, evs);
      NeverStuck(Exec(w, evs));
      SmoothSnoc(w, evs, ev);
      StaysOpen(Exec(w, evs), ev);
    }
  }

  /** From every state with the connection open, the consumer's own steps can send exactly what is due. */
  lemma CanSendAll(w: World)
    requires WInv(w) && Steady(w) && w.con.phase != Offline
    ensures exists evs :: SmoothRun(w, evs) && Exec(w, evs).wire.sent == w.wire.sent + Due(w)
  {
    hide WInv, Steady, SmoothRun, Exec, Due, Bound;
    var evs := Drive(w, Bound(w) + 1);
    DriveSmooth(w, Bound(w) + 1);
    Progress(w, evs);
  }

  function Reads(n: nat): (evs: seq<Event>)
    ensures |evs| == n
  {
    seq(n, _ => ReadRecord(Accepted))
  }

  /** The consumer is scanning, or went where what it sent since `sent` frames were on the wire takes it. */
  predicate Reported(w: World, sent: nat) {
    var more := |w.wire.sent| > sent;
    && |w.wire.sent| >= sent
    && match w.con.phase
       case Scanning(found) => found == more
       case Top => more
       case PreCollect => !more
       case _ => false
  }

  lemma ReadReports(w: World, sent: nat)
    requires Reported(w, sent)
    ensures Reported(Next(w, ReadRecord(Accepted)), sent)
  {
    hide ReadAt, Contents;
  }

  /** The drain reports what it did: after any reads of a freshly opened file, the consumer goes back to the disk if
      something was sent and on to the ring if nothing was. */
  lemma {:induction false} DrainReports(w: World, n: nat)
    requires w.con.phase == Scanning(false)
    ensures Reported(Exec(w, Reads(n)), |w.wire.sent|)
  {
    hide Reported, Next;
    if n == 0 {
      FreshReport(w);
    } else {
      DrainReports(w, n - 1);
      assert Reads(n)[..n - 1] == Reads(n - 1);
      ExecSnoc(w, Reads(n));
      ReadReports(Exec(w, Reads(n - 1)), |w.wire.sent|);
    }
  }

  lemma FreshReport(w: World)
    requires w.con.phase == Scanning(false)
    ensures Reported(w, |w.wire.sent|)
  {
  }

  /** At the top of the loop: the file's news, unless it is acknowledged and gets deleted, and then the ring. */
  lemma TopDue(w: World, unlinks: bool)
    requires WInv(w) && w.con.phase == Top
    ensures var v, s := Next(w, Delete(unlinks)), MaybeDelete(w.spool, unlinks);
            && WInv(v) && Steady(v) && v.wire == w.wire
            && Due(v) == (if s.tier.maxSeq > w.con.sentUpto then Above(Readable(s), w.con.sentUpto) else [])
                         + Above(w.spool.ring, w.con.sentUpto)
  {
    hide WInv, Above, Readable, MaybeDelete;
    NextInv(w, Delete(unlinks));
    assert Batch(Next(w, Delete(unlinks))) == [];
    RingKept(w.spool, unlinks);
  }

  lemma RingKept(s: State, unlinks: bool)
    ensures MaybeDelete(s, unlinks).ring == s.ring
  {
  }

  /** From the top of the loop, whatever the deletion does, the consumer's own steps can send the rest. */
  lemma TopSendsAll(w: World, unlinks: bool)
    requires WInv(w) && w.con.phase == Top
    ensures var v, s := Next(w, Delete(unlinks)), MaybeDelete(w.spool, unlinks);
            exists evs :: SmoothRun(v, evs) && Exec(v, evs).wire.sent ==
              w.wire.sent + ((if s.tier.maxSeq > w.con.sentUpto then Above(Readable(s), w.con.sentUpto) else [])
                             + Above(w.spool.ring, w.con.sentUpto))
  {
    hide WInv, SmoothRun, Exec, Above, Readable, Due, MaybeDelete, Steady;
    TopDue(w, unlinks);
    CanSendAll(Next(w, Delete(unlinks)));
  }

  /** A new connection is owed everything stored above the acknowledgement: every smooth run on it that is long enough
      sends the disk's records and then the ring, each frame once, in order. */
  lemma ConnectSendsOwed(w: World, evs: seq<Event>)
    requires WInv(w) && w.con.phase == Offline
    requires var v := Next(w, Connect); SmoothRun(v, evs) && |evs| > Bound(v)
    ensures Exec(Next(w, Connect), evs).wire.sent == Owed(w.spool)
  {
    var v := Next(w, Connect);
    NextInv(w, Connect);
    ConnectDue(w);
    hide WInv, SmoothRun, Exec, Due, Bound, Owed, Steady;
    Progress(v, evs);
    assert [] + Owed(w.spool) == Owed(w.spool);
  }

  lemma ConnectDue(w: World)
    requires WInv(w) && w.con.phase == Offline
    ensures var v := Next(w, Connect); Due(v) == Owed(w.spool) && Steady(v) && v.wire.sent == []
  {
    WInvSpool(w);
    assert w.spool.acked <= Evicted(w.spool) by { hide StoreOK; }
    hide WInv, Inv, Above, Readable;
    RingAbove(w.spool, w.spool.acked);
    var v := Next(w, Connect);
    assert Batch(v) == [];
  }

  /** `f` is the first frame of the ring above the mark. */
  predicate OldestAbove(ring: seq<Frame>, upto: nat, f: Frame) {
    exists i :: 0 <= i < |ring| && ring[i] == f && f.seqno > upto && forall j :: 0 <= j < i ==> ring[j].seqno <= upto
  }

  /** When a ring batch goes out: with nothing newer on disk, a copy made and a ring frame above the mark, and it
      begins with the oldest of those. */
  lemma CollectSendsIff(w: World, copied: nat)
    requires WInv(w) && w.con.phase == PreCollect
    ensures var v, s, upto := Next(w, Collect(copied)), w.spool, w.con.sentUpto;
            && (v.con.phase.Sending? <==>
                s.tier.maxSeq <= upto && copied > 0 && exists i :: 0 <= i < |s.ring| && s.ring[i].seqno > upto)
            && (v.con.phase.Sending? ==> v.con.phase.batch != [] && OldestAbove(s.ring, upto, v.con.phase.batch[0]))
            && v.con.sentUpto == upto && v.wire == w.wire && v.spool == s
  {
    var s, upto := w.spool, w.con.sentUpto;
    hide WInv, Inv, Above, Readable, Logged;
    WInvSpool(w);
    RingRun(s);
    AboveRing(s.ring, Evicted(s), upto);
    var j := if upto <= Evicted(s) then 0 else Min(upto - Evicted(s), |s.ring|);
    assert forall i :: 0 <= i < j ==> s.ring[i].seqno <= upto;
    assert forall i :: j <= i < |s.ring| ==> s.ring[i].seqno > upto;
    if j < |s.ring| { assert s.ring[j..][0] == s.ring[j]; }
  }
}
