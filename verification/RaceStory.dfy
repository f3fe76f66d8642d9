/** Three runs on which a scan that lost its place reads on: the feeder skips a frame, a frame is acknowledged that
    was never delivered, and a frame is sent that was never appended (feeder/navfeeder.c:2085-2164). */
module RaceStory {
  import opened BigEndian
  import opened SpoolFile
  import opened Spool
  import opened Feeder
  import opened FeederSafety
  import opened FeederDelivery
  import opened FeederRace
  import opened RaceDelivery
  import opened RaceSkip
  import opened RaceLoss
  import opened RaceCursor

  // ----- the run

  function Payload(): (d: seq<byte>)
    ensures |d| == 13
  {
    seq(13, _ => 0)
  }

  function F(n: nat): Frame { Frame(n, Payload()) }

  /** A payload that holds an encoded record of its own, as far in as frame 2 is longer than a header. */
  function Crafted(): (d: seq<byte>)
    ensures |d| == 38
  {
    Payload() + RecordBytes(F(99))
  }

  function Stores(): DiskIO { DiskIO(true, Flushed, Flushed) }

  /** The whole record reaches the file, the flush fails all the same, and the truncate succeeds. */
  function Fails(): DiskIO { DiskIO(true, Flushed, Failed(25, true)) }

  function Setup(): Config { Config(true, 1, true, [65]) }

  function Start(): Race {
    Race(World(State(Setup(), 1000, [], 0, 0, 0, Tier(false, false, 0, 0, 0, 0, None),
      History([], None, 0, {}, 0, 0, map[])),
               Consumer(Offline, 0, 0, 0, 0), Wire(0, [], 0, {}, 0)), None, Level)
  }

  function Produce(): RaceEvent { Plain(Producer(Payload(), true, Stores())) }

  function Read(): RaceEvent { Plain(ReadRecord(Accepted)) }

  function Tear(d: seq<byte>): RaceEvent { Begin(d, true, Fails()) }

  /** Frame 1 goes to disk and the scan sends it. Frame 3, with payload `d`, evicts 2, whose record the scan takes
      whole before it is truncated away. */
  function Opening(d: seq<byte>): seq<RaceEvent> {
    [Produce(), Produce()] + [Plain(Connect), Plain(Delete(true)), Plain(Snapshot(Opened)), Read()] +
    [Tear(d), Show(25), Read(), Settle]
  }

  /** Frames 3 and 4 go to disk in the place of 2. */
  function Replaced(): seq<RaceEvent> { Opening(Payload()) + [Produce(), Produce()] }

  /** The same scan reads on: it sends 4. */
  function Events(): seq<RaceEvent> { Replaced() + [Read()] }

  /** Frame 3 goes to disk in the place of 2, with the cursor at the record inside its payload. */
  function Forging(): seq<RaceEvent> { Opening(Crafted()) + [Produce()] + [Read()] }

  /** A spool of the run: frame `next` with payload `d` in the ring, `disk` in the file. */
  predicate Holds(s: State, next: nat, d: seq<byte>, disk: seq<Frame>, bytes: nat, lost: set<nat>, gen: nat) {
    && Inv(s) && s.cfg == Setup() && s.diskCap == 1000 && s.seqno == next && s.acked == 0
    && s.ring == [Frame(next, d)] && s.hist.disk == disk && s.hist.lost == lost && !s.tier.disabled
    && s.tier.gen == gen && s.tier.bytes == bytes
  }

  function Grown(bytes: nat, d: seq<byte>): nat { (if bytes == 0 then HEADER_LEN else bytes) + 12 + |d| }

  /** An append that stores the evicted frame. */
  lemma Stored(s: State, next: nat, d: seq<byte>, disk: seq<Frame>, bytes: nat, lost: set<nat>, gen: nat)
    requires Holds(s, next, d, disk, bytes, lost, gen) && next < 100 && Grown(bytes, d) <= 1000
    ensures Holds(Append(s, Payload(), true, Stores()),
                  next + 1, Payload(), disk + [Frame(next, d)], Grown(bytes, d), lost, gen)
  {
    hide Inv, RecordBytes, Bytes, Header, Payload;
    AppendInv(s, Payload(), true, Stores());
  }

  /** An append whose record is truncated away. */
  lemma Cut(s: State, d: seq<byte>)
    requires Holds(s, 2, Payload(), [F(1)], 98, {}, 0) && 13 <= |d| <= 38
    ensures Holds(Append(s, d, true, Fails()), 3, d, [F(1)], 98, {2}, 1)
  {
    hide Inv, RecordBytes, Bytes, Header, TruncateTo, Payload;
    AppendInv(s, d, true, Fails());
    assert {} + {2} == {2};
  }

  lemma {:induction false} EvenOffsets(fs: seq<Frame>, k: nat)
    requires k <= |fs| && forall i :: 0 <= i < k ==> |fs[i].data| == 13
    ensures Offset(fs, k) == HEADER_LEN + 25 * k
  {
    if k > 0 {
      EvenOffsets(fs, k - 1);
      hide RecordBytes;
      RecordsSplit(fs, k - 1);
    }
  }

  // ----- the steps

  predicate Quiet(x: Race) { x.append.None? }

  /** An append that stores the evicted frame, seen by the whole system. */
  lemma StoreStep(x: Race, next: nat, d: seq<byte>, disk: seq<Frame>, bytes: nat, lost: set<nat>, gen: nat)
    requires Holds(x.w.spool, next, d, disk, bytes, lost, gen) && next < 100 && Grown(bytes, d) <= 1000 && Quiet(x)
    requires x.scan == Overtaken ==> x.w.con.phase.Scanning?
    requires x.scan == Overtaken || x.scan == Level
    requires x.w.con.phase == Offline ==> x.scan == Level
    ensures var y := RaceStep(x, Produce());
            && Holds(y.w.spool, next + 1, Payload(), disk + [Frame(next, d)], Grown(bytes, d), lost, gen) && Quiet(y)
            && y.scan == x.scan && y.w.con == x.w.con && y.w.wire == x.w.wire
  {
    Stored(x.w.spool, next, d, disk, bytes, lost, gen);
    hide Holds, Append, Payload, Stores;
  }

  lemma FirstStep()
    ensures var y := RaceStep(Start(), Produce());
            && Holds(y.w.spool, 1, Payload(), [], 0, {}, 0) && Quiet(y) && y.scan == Level
            && y.w.con == Start().w.con && y.w.wire == Start().w.wire
  {
    FreshInv(Start().w.spool);
    AppendInv(Start().w.spool, Payload(), true, Stores());
    hide Inv;
  }

  lemma ConnectStep(x: Race)
    requires Quiet(x) && x.w.con.phase == Offline && x.scan == Level && x.w.spool.acked == 0
    ensures var y := RaceStep(x, Plain(Connect));
            && y.w.spool == x.w.spool && Quiet(y) && y.scan == Level
            && y.w.con == Consumer(Top, 0, 0, 0, 0)
            && y.w.wire == x.w.wire.(base := 0, sent := [], received := 0)
  {
  }

  /** Frame 1 on disk, frame 2 in the ring. */
  predicate One(s: State) { Holds(s, 2, Payload(), [F(1)], 98, {}, 0) }

  lemma CleanStep(x: Race)
    requires Quiet(x) && x.scan == Level && x.w.con == Consumer(Top, 0, 0, 0, 0) && One(x.w.spool)
    ensures var y := RaceStep(x, Plain(Delete(true)));
            && y.w.spool == x.w.spool && Quiet(y) && y.scan == Level && y.w.wire == x.w.wire
            && y.w.con == Consumer(PreDrain, 0, 0, 0, 0)
  {
    LastOnDisk(x.w.spool);
    hide Inv, Payload;
  }

  lemma OpenStep(x: Race)
    requires Quiet(x) && x.scan == Level && x.w.con == Consumer(PreDrain, 0, 0, 0, 0) && One(x.w.spool)
    ensures var y := RaceStep(x, Plain(Snapshot(Opened)));
            && y.w.spool == x.w.spool && Quiet(y) && y.scan == Level && y.w.wire == x.w.wire
            && y.w.con == Consumer(Scanning(false), 0, HEADER_LEN, 0, 0)
  {
    LastOnDisk(x.w.spool);
    hide Inv, Payload;
  }

  lemma SendStep(x: Race)
    requires Quiet(x) && x.scan == Level && x.w.con == Consumer(Scanning(false), 0, HEADER_LEN, 0, 0) && One(x.w.spool)
    ensures var y := RaceStep(x, Read());
            && y.w.spool == x.w.spool && Quiet(y) && y.scan == Level
            && y.w.con == Consumer(Scanning(true), 1, 98, 0, 1)
            && y.w.wire == x.w.wire.(sent := x.w.wire.sent + [F(1)])
  {
    var s := x.w.spool;
    hide Inv, ReadAt, Contents, Readable, Offset, Payload, RaceStep;
    TrustedFile(s);
    ReadAtCursor(s, 0);
    EvenOffsets(s.hist.disk, 0);
    QuietFile(x);
    ReadSends(x, F(1));
  }

  /** The append that stands in the file whole but will fail. */
  function Doomed(d: seq<byte>): Option<Pending> { Some(Pending(d, true, Fails(), 25)) }

  lemma TearStep(x: Race, d: seq<byte>)
    requires Quiet(x) && x.scan == Level && One(x.w.spool) && 13 <= |d| <= 38
    ensures var y := RaceStep(RaceStep(x, Tear(d)), Show(25));
            && y.w == x.w && y.scan == Level && y.append == Doomed(d) && PendingOK(y.w.spool, y.append)
  {
    hide Inv, Payload;
  }

  lemma TakeStep(x: Race, d: seq<byte>)
    requires x.scan == Level && x.append == Doomed(d) && PendingOK(x.w.spool, x.append) && One(x.w.spool)
    requires x.w.con == Consumer(Scanning(true), 1, 98, 0, 1)
    ensures var y := RaceStep(x, Read());
            && y.w.spool == x.w.spool && y.append == x.append && y.scan == Ahead
            && y.w.con == Consumer(Scanning(true), 2, 123, 0, 2)
            && y.w.wire == x.w.wire.(sent := x.w.wire.sent + [F(2)])
  {
    var s := x.w.spool;
    hide Inv, ReadAt, Contents, Readable, Offset, Payload, PendingOK, RaceStep, File;
    TrustedFile(s);
    EvenOffsets(s.hist.disk, 1);
    ReadShown(x, 1);
    ReadSends(x, F(2));
  }

  lemma CutStep(x: Race, d: seq<byte>)
    requires x.scan == Ahead && x.append == Doomed(d) && 13 <= |d| <= 38
    requires One(x.w.spool) && x.w.con.phase.Scanning?
    ensures var y := RaceStep(x, Settle);
            && Holds(y.w.spool, 3, d, [F(1)], 98, {2}, 1) && Quiet(y) && y.scan == Overtaken
            && y.w.con == x.w.con && y.w.wire == x.w.wire
  {
    Cut(x.w.spool, d);
    hide Holds, Append, Payload;
  }

  // ----- put together

  lemma Run2(x: Race, a: RaceEvent, b: RaceEvent)
    ensures RaceRun(x, [a, b]) == RaceStep(RaceStep(x, a), b)
  {
    hide RaceStep;
    assert [a, b][..1] == [a] && [a][..0] == [];
    assert RaceRun(x, [a]) == RaceStep(x, a);
  }

  lemma Run4(x: Race, a: RaceEvent, b: RaceEvent, c: RaceEvent, d: RaceEvent)
    ensures RaceRun(x, [a, b, c, d]) == RaceStep(RaceStep(RaceStep(RaceStep(x, a), b), c), d)
  {
    hide RaceStep;
    assert [a, b] + [c, d] == [a, b, c, d];
    RunConcat(x, [a, b], [c, d]);
    Run2(x, a, b);
    Run2(RaceRun(x, [a, b]), c, d);
  }

  predicate Sound(x: Race) { RaceInv(x) && DeliveredOK(x.w.wire, x.w.spool) }

  predicate Acks(e: RaceEvent) { e.Plain? && e.ev.AckFrame? }

  predicate Reads(e: RaceEvent) { e.Plain? && e.ev.ReadRecord? }

  lemma Keep(x: Race, e: RaceEvent)
    requires Sound(x) && ValidRaceEvent(e) && !Acks(e) && (Loose(x) ==> !Reads(e))
    ensures Sound(RaceStep(x, e))
  {
    hide RaceInv, RaceStep, DeliveredOK;
    StepInvariant(x, e);
    StepDelivered(x, e);
  }

  lemma ValidEvents(d: seq<byte>)
    requires 13 <= |d| <= 38
    ensures ValidRaceEvent(Produce()) && ValidRaceEvent(Read()) && ValidRaceEvent(Tear(d))
    ensures !Reads(Produce()) && !Reads(Tear(d)) && !Acks(Produce()) && !Acks(Read()) && !Acks(Tear(d))
  {
  }

  lemma Booted()
    ensures Sound(Start()) && RaceBoot(Start())
  {
    BootInv(Start().w);
    BootRace(Start());
    BootDelivered(Start());
    hide WInv, RaceInv, DeliveredOK;
  }

  predicate Filled(x: Race) {
    Sound(x) && One(x.w.spool) && Quiet(x) && x.scan == Level && x.w.con.phase == Offline && x.w.wire.delivered == {}
  }

  lemma FillStage()
    ensures Filled(RaceRun(Start(), [Produce(), Produce()]))
  {
    Run2(Start(), Produce(), Produce());
    FirstStep();
    var x := RaceStep(Start(), Produce());
    assert x.w.con.phase == Offline && x.w.wire.delivered == {};
    StoreStep(x, 1, Payload(), [], 0, {}, 0);
    assert [] + [F(1)] == [F(1)];
    Booted();
    ValidEvents(Payload());
    assert Start().scan == Level;
    hide Holds, RaceStep, Start, Payload, RaceRun, Produce, Sound, RaceBoot;
    Keep(Start(), Produce());
    Keep(x, Produce());
  }

  /** The scan has sent frame 1. */
  predicate Sent(x: Race) {
    && Sound(x) && One(x.w.spool) && Quiet(x) && x.scan == Level && x.w.wire.delivered == {}
    && x.w.con == Consumer(Scanning(true), 1, 98, 0, 1)
  }

  lemma SendStage(x: Race)
    requires Filled(x)
    ensures Sent(RaceRun(x, [Plain(Connect), Plain(Delete(true)), Plain(Snapshot(Opened)), Read()]))
  {
    Run4(x, Plain(Connect), Plain(Delete(true)), Plain(Snapshot(Opened)), Read());
    assert x.w.spool.acked == 0;
    ValidEvents(Payload());
    hide One, RaceStep, Payload, RaceRun, Read, Sound;
    ConnectStep(x);
    Keep(x, Plain(Connect));
    var x1 := RaceStep(x, Plain(Connect));
    CleanStep(x1);
    Keep(x1, Plain(Delete(true)));
    var x2 := RaceStep(x1, Plain(Delete(true)));
    OpenStep(x2);
    Keep(x2, Plain(Snapshot(Opened)));
    var x3 := RaceStep(x2, Plain(Snapshot(Opened)));
    SendStep(x3);
    Keep(x3, Read());
  }

  /** The scan has sent frame 2, which was then truncated away. */
  predicate Torn(x: Race, d: seq<byte>) {
    && Sound(x) && Holds(x.w.spool, 3, d, [F(1)], 98, {2}, 1) && Quiet(x) && x.scan == Overtaken
    && x.w.con == Consumer(Scanning(true), 2, 123, 0, 2) && x.w.wire.delivered == {}
  }

  lemma TearStage(x: Race, d: seq<byte>)
    requires Sent(x) && 13 <= |d| <= 38
    ensures Torn(RaceRun(x, [Tear(d), Show(25), Read(), Settle]), d)
  {
    Run4(x, Tear(d), Show(25), Read(), Settle);
    ValidEvents(d);
    hide One, Holds, RaceStep, Payload, RaceRun, Read, Tear, PendingOK, Sound;
    TearStep(x, d);
    Keep(x, Tear(d));
    Keep(RaceStep(x, Tear(d)), Show(25));
    var x2 := RaceStep(RaceStep(x, Tear(d)), Show(25));
    TakeStep(x2, d);
    Keep(x2, Read());
    var x3 := RaceStep(x2, Read());
    CutStep(x3, d);
    Keep(x3, Settle);
  }

  lemma OpeningStage(d: seq<byte>)
    requires 13 <= |d| <= 38
    ensures Torn(RaceRun(Start(), Opening(d)), d)
  {
    hide Filled, Sent, Torn, RaceRun, Start, Produce, Read, Tear;
    var a, b := [Produce(), Produce()], [Plain(Connect), Plain(Delete(true)), Plain(Snapshot(Opened)), Read()];
    var c := [Tear(d), Show(25), Read(), Settle];
    FillStage();
    SendStage(RaceRun(Start(), a));
    RunConcat(Start(), a, b);
    TearStage(RaceRun(Start(), a + b), d);
    RunConcat(Start(), a + b, c);
  }

  /** Frames 3 and 4 have taken the place of 2, and the cursor is past 3. */
  predicate PastThree(x: Race) {
    && Sound(x) && Holds(x.w.spool, 5, Payload(), [F(1), F(3), F(4)], 148, {2}, 1) && Quiet(x) && x.scan == Overtaken
    && x.w.con == Consumer(Scanning(true), 2, 123, 0, 2) && x.w.wire.delivered == {}
  }

  lemma ReplaceStage(x: Race)
    requires Torn(x, Payload())
    ensures PastThree(RaceRun(x, [Produce(), Produce()]))
  {
    hide Holds, RaceStep, Payload, RaceRun, Produce, Sound, ValidRaceEvent, Acks, Reads;
    Run2(x, Produce(), Produce());
    ValidEvents(Payload());
    StoreStep(x, 3, Payload(), [F(1)], 98, {2}, 1);
    Keep(x, Produce());
    var x1 := RaceStep(x, Produce());
    StoreStep(x1, 4, Payload(), [F(1)] + [F(3)], 123, {2}, 1);
    Keep(x1, Produce());
    assert [F(1)] + [F(3)] + [F(4)] == [F(1), F(3), F(4)];
  }

  lemma ReplacedStage()
    ensures PastThree(RaceRun(Start(), Replaced()))
  {
    hide RaceRun, Start, Opening, Torn, PastThree, Payload, Produce;
    OpeningStage(Payload());
    ReplaceStage(RaceRun(Start(), Opening(Payload())));
    RunConcat(Start(), Opening(Payload()), [Produce(), Produce()]);
  }

  /** What the scan sees there. */
  lemma PastThreeFacts(x: Race)
    requires PastThree(x)
    ensures LooseInFile(x) && ReadAt(File(x), x.w.con.off) == Some(F(4))
    ensures 3 in x.w.spool.hist.log && 3 !in x.w.spool.hist.lost
    ensures Past(x.w.spool.hist.disk, 1, x.w.con.off, x.w.con.sentUpto) && x.w.spool.tier.maxSeq == 4
  {
    var s := x.w.spool;
    EvenOffsets(s.hist.disk, 1);
    EvenOffsets(s.hist.disk, 2);
    OnDisk(s, 1);
    LastOnDisk(s);
    assert [F(3)][0] == F(3);
    hide Inv, RaceInv, ReadAt, File, Offset, Payload, DeliveredOK;
    ReadsRecord(x, 2);
  }

  lemma EventsValid()
    ensures forall i :: 0 <= i < |Events()| ==> ValidRaceEvent(Events()[i]) && !Acks(Events()[i])
    ensures forall i :: 0 <= i < |Forging()| ==> ValidRaceEvent(Forging()[i]) && !Acks(Forging()[i])
  {
    ValidEvents(Payload());
    ValidEvents(Crafted());
    hide Produce, Read, Tear, Crafted, Payload;
  }

  /** The code skips frame 3: after a failed append whose record the reader had taken whole, the same open scan
      reads past the records that took its place. */
  lemma RaceSkips()
    ensures RaceBoot(Start()) && Skipped(RaceRun(Start(), Events()).w, 3)
    ensures forall i :: 0 <= i < |Events()| ==> ValidRaceEvent(Events()[i])
  {
    Booted();
    EventsValid();
    ReplacedStage();
    var x := RaceRun(Start(), Replaced());
    RunConcat(Start(), Replaced(), [Read()]);
    RunOne(x, Read());
    PastThreeFacts(x);
    hide Holds, RaceRun, RaceInv, RaceBoot, Start, Replaced, RaceStep, Skipped, ReadAt, File, Past, DeliveredOK;
    LooseSkips(x, F(4), 3);
  }

  /** Before that read the resumed cursor and a rescan would send different frames. */
  lemma RaceDrainsDiffer()
    ensures var x := RaceRun(Start(), Replaced());
            && x.w.con.phase.Scanning?
            && DrainFrom(File(x), x.w.con.off, x.w.con.sentUpto) != DrainFrom(File(x), HEADER_LEN, x.w.con.sentUpto)
  {
    ReplacedStage();
    var x := RaceRun(Start(), Replaced());
    PastThreeFacts(x);
    LooseFacts(x);
    QuietFile(x);
    hide Inv, RaceRun, RaceInv, Start, Replaced, ReadAt, File, Past, DeliveredOK, DrainFrom, Contents;
    ResumeIff(x.w.spool, 1, x.w.con.off, x.w.con.sentUpto);
  }

  // ----- the collector catches up

  function Ended(): seq<RaceEvent>
    requires var w := RaceRun(Start(), Events()).w.wire; w.received <= |w.sent|
  {
    Events() + Ending(RaceRun(Start(), Events()))
  }

  lemma HonestConcat(x: Race, a: seq<RaceEvent>, b: seq<RaceEvent>)
    requires forall i :: 0 <= i < |a| ==> !Acks(a[i])
    requires HonestRace(RaceRun(x, a), b)
    ensures HonestRace(x, a + b)
  {
    hide RaceRun;
    var es := a + b;
    forall i | 0 <= i < |es| && es[i].Plain?
      ensures Honest(RaceRun(x, es[..i]).w, es[i].ev)
    {
      if i < |a| {
        assert es[i] == a[i];
      } else {
        assert es[..i] == a + b[..i - |a|] && es[i] == b[i - |a|];
        RunConcat(x, a, b[..i - |a|]);
      }
    }
  }

  lemma EndingValid(x: Race)
    requires x.w.wire.received <= |x.w.wire.sent|
    ensures forall i :: 0 <= i < |Ending(x)| ==> ValidRaceEvent(Ending(x)[i])
  {
    hide Caught;
  }

  /** Frame 3 is acknowledged, was never delivered and is not counted as lost. */
  predicate Vanished(w: World) {
    && 3 <= w.spool.acked && 3 !in w.spool.hist.lost && 3 in w.spool.hist.log
    && Frame(3, w.spool.hist.log[3]) !in w.wire.delivered
  }

  lemma LoseStage(x: Race)
    requires PastThree(x)
    ensures var y := RaceStep(x, Read()); y.w.wire.received <= |y.w.wire.sent| && Vanished(RaceRun(y, Ending(y)).w)
  {
    PastThreeFacts(x);
    hide RaceRun, RaceInv, RaceStep, ReadAt, File, Past, DeliveredOK, Inv, Ending;
    PassedOverIsLost(x, Accepted, F(4), 3);
  }

  /** Delivery fails: the collector receives all that was sent and acknowledges the highest of it, and frame 3 is
      acknowledged without having been delivered or counted. */
  lemma RaceLoses()
    ensures var y := RaceRun(Start(), Events()); y.w.wire.received <= |y.w.wire.sent|
    ensures RaceBoot(Start()) && HonestRace(Start(), Ended()) && Vanished(RaceRun(Start(), Ended()).w)
    ensures forall i :: 0 <= i < |Ended()| ==> ValidRaceEvent(Ended()[i])
  {
    Booted();
    EventsValid();
    var x, y := RaceRun(Start(), Replaced()), RaceRun(Start(), Events());
    hide RaceRun, RaceBoot, Start, Replaced, RaceStep, Ending, HonestRace, Vanished, PastThree, Acks, ValidRaceEvent;
    hide Read;
    ReplacedStage();
    RunConcat(Start(), Replaced(), [Read()]);
    RunOne(x, Read());
    LoseStage(x);
    EndingHonest(y);
    EndingValid(y);
    HonestConcat(Start(), Events(), Ending(y));
    RunConcat(Start(), Events(), Ending(y));
  }

  // ----- a frame that was never appended

  /** The cursor is at the record inside the payload of frame 3. */
  predicate AtCrafted(x: Race) {
    && Sound(x) && Holds(x.w.spool, 4, Payload(), [F(1), Frame(3, Crafted())], 148, {2}, 1) && Quiet(x)
    && x.scan == Overtaken && x.w.con == Consumer(Scanning(true), 2, 123, 0, 2)
  }

  lemma CraftStage(x: Race)
    requires Torn(x, Crafted())
    ensures AtCrafted(RaceStep(x, Produce()))
  {
    ValidEvents(Payload());
    hide Holds, RaceStep, Payload, Produce, Sound, Crafted;
    StoreStep(x, 3, Crafted(), [F(1)], 98, {2}, 1);
    Keep(x, Produce());
    assert [F(1)] + [Frame(3, Crafted())] == [F(1), Frame(3, Crafted())];
  }

  lemma CraftedStage()
    ensures AtCrafted(RaceRun(Start(), Opening(Crafted()) + [Produce()]))
  {
    hide RaceRun, RaceStep, Start, Opening, Torn, AtCrafted, Crafted, Produce;
    OpeningStage(Crafted());
    var x := RaceRun(Start(), Opening(Crafted()));
    RunConcat(Start(), Opening(Crafted()), [Produce()]);
    RunOne(x, Produce());
    CraftStage(x);
  }

  lemma CraftedHolds()
    ensures Crafted()[13..38] == RecordBytes(F(99)) && |F(1).data| == |F(99).data| == 13 && |Crafted()| == 38
  {
  }

  lemma UnknownFrame(s: State, f: Frame)
    requires Inv(s) && f.seqno > s.seqno
    ensures !Logged(s.hist.log, [f])
  {
    assert [f][0] == f;
    hide RingOK, StoreOK;
  }

  lemma ForgeStage(x: Race)
    requires AtCrafted(x)
    ensures var z := RaceStep(x, Read()).w;
            z.wire.sent == x.w.wire.sent + [F(99)] && z.spool.seqno == 4 && z.con.sentUpto == 99 && !InOrder(z)
  {
    hide RaceInv, RaceStep, DeliveredOK, Inv, Crafted, RecordBytes, Payload, Offset, Logged, InOrder, Misleads;
    EvenOffsets(x.w.spool.hist.disk, 1);
    UnknownFrame(x.w.spool, F(99));
    CraftedHolds();
    ForgedSent(x, 1, 13, F(99));
  }

  /** The code sends a frame that was never appended: record lengths differ, so the cursor ends up inside the payload
      of frame 3, which encodes a record with sequence 99. */
  lemma RaceForges()
    ensures RaceBoot(Start()) && forall i :: 0 <= i < |Forging()| ==> ValidRaceEvent(Forging()[i])
    ensures var z := RaceRun(Start(), Forging()).w;
            F(99) in z.wire.sent && z.spool.seqno == 4 && z.con.sentUpto == 99 && !InOrder(z)
  {
    Booted();
    EventsValid();
    hide RaceRun, RaceBoot, Start, Opening, RaceStep, Crafted, Payload, AtCrafted, InOrder, Read, Produce;
    CraftedStage();
    var a := Opening(Crafted()) + [Produce()];
    RunConcat(Start(), a, [Read()]);
    RunOne(RaceRun(Start(), a), Read());
    ForgeStage(RaceRun(Start(), a));
  }
}
