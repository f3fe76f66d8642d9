/** One cell of the edge power-history model: a running sidereal cycle and a four-day ring of cycle means
    (esp32/main/power_history.c). */
module PowerCell {
  import opened BigEndian

  const DAYS := 4                  // POWER_HISTORY_DAYS
  const UINT8_MAX := 255
  const UINT16_MAX := 65535
  const SIDEREAL := 86164          // seconds per cycle
  const PHASE_SECONDS := 600

  datatype Key = Key(gnss: byte, sv: byte, signal: byte, bin: nat)

  /** `power_cell_t`; `len` and `next` are the two halves of its `meta` byte. */
  datatype Cell = Cell(cycle: nat, sum: nat, count: nat, len: nat, next: nat, history: seq<byte>)

  datatype Policy = Policy(minDeviation: byte, madMultiplier: byte, minSupport: byte)

  predicate ValidPolicy(p: Policy) {
    3 <= p.minDeviation <= 30 && 0 < p.madMultiplier <= 16 && 2 <= p.minSupport <= DAYS
  }

  const BLANK := Cell(0, 0, 0, 0, 0, [0, 0, 0, 0])

  /** What `power_history_import` demands of a row's counters and ring. */
  predicate ValidCell(c: Cell) {
    && c.cycle <= UINT16_MAX && c.sum <= UINT16_MAX && c.count <= UINT16_MAX && |c.history| == DAYS
    && c.len <= DAYS && c.next < DAYS && (c.len < DAYS ==> c.next == c.len)
    && (c.count == 0 <==> c.sum == 0) && c.count <= c.sum <= 99 * c.count
    && (forall j :: 0 <= j < DAYS ==> if j < c.len then 1 <= c.history[j] <= 99 else c.history[j] == 0)
  }

  // ----- median and deviation

  function Insert(s: seq<byte>, x: byte): (r: seq<byte>)
    ensures |r| == |s| + 1
  {
    if s == [] || s[|s| - 1] <= x then s + [x] else Insert(s[..|s| - 1], x) + [s[|s| - 1]]
  }

  /** `sort_bytes`. */
  function Sort(v: seq<byte>): (r: seq<byte>)
    ensures |r| == |v|
  {
    if v == [] then [] else Insert(Sort(v[..|v| - 1]), v[|v| - 1])
  }

  function Median(v: seq<byte>): byte
    requires v != []
  {
    var s, n := Sort(v), |v|;
    if n % 2 == 1 then s[n / 2]
    else
      var total: int := s[n / 2 - 1] as int + s[n / 2] as int + 1;
      total / 2
  }

  function AbsDiff(a: nat, b: nat): nat { if a > b then a - b else b - a }

  function Deviations(v: seq<byte>, m: byte): (r: seq<byte>)
    ensures |r| == |v|
  {
    seq(|v|, i requires 0 <= i < |v| => AbsDiff(v[i], m))
  }

  /** `reference`: the expected value and its median absolute deviation, once there is enough support. */
  function Reference(c: Cell, p: Policy): Option<(byte, byte)>
    requires |c.history| == DAYS
  {
    if c.len < p.minSupport || c.len > DAYS || c.len == 0 then None
    else
      var v := c.history[..c.len];
      var m := Median(v);
      Some((m, Median(Deviations(v, m))))
  }

  function Threshold(mad: nat, p: Policy): nat {
    if p.madMultiplier * mad < p.minDeviation then p.minDeviation else p.madMultiplier * mad
  }

  /** `accept`. */
  predicate Accepts(c: Cell, p: Policy, cno: byte)
    requires |c.history| == DAYS
  {
    match Reference(c, p)
    case None => true
    case Some((m, mad)) => AbsDiff(cno, m) < Threshold(mad, p)
  }

  // ----- updates

  function RoundedMean(sum: nat, count: nat): nat
    requires 0 < count
  {
    (sum + count / 2) / count
  }

  /** `finalize`, with the value narrowed to a byte. */
  function Finalize(c: Cell): Cell
    requires |c.history| == DAYS && c.next < DAYS
  {
    if c.count == 0 then c
    else c.(history := c.history[c.next := RoundedMean(c.sum, c.count) % 256],
            len := if c.len < DAYS then c.len + 1 else c.len,
            next := (c.next + 1) % DAYS)
  }

  /** The cell once the sample's cycle has been opened: the previous one is finalised when it has ended. */
  function OpenCycle(c: Cell, cycle: nat): Cell
    requires |c.history| == DAYS && c.next < DAYS
  {
    if c.count == 0 then c.(cycle := cycle)
    else if cycle > c.cycle then Finalize(c).(cycle := cycle, sum := 0, count := 0)
    else c
  }

  predicate Taken(c: Cell, p: Policy, cno: byte)
    requires |c.history| == DAYS
  {
    Accepts(c, p, cno) && c.count != UINT16_MAX && c.sum + cno <= UINT16_MAX
  }

  /** `observe` on the sample's own cell. */
  function Observe(c: Cell, p: Policy, cycle: nat, cno: byte): (r: Cell)
    requires |c.history| == DAYS && c.next < DAYS
    ensures |r.history| == DAYS && r.next < DAYS
  {
    if c.count != 0 && cycle < c.cycle then c
    else
      var o := OpenCycle(c, cycle);
      if Taken(o, p, cno) then o.(sum := o.sum + cno, count := o.count + 1) else o
  }

  lemma MeanRange(sum: nat, count: nat)
    requires 0 < count <= sum <= 99 * count
    ensures 1 <= RoundedMean(sum, count) <= 99
  {
    var q := RoundedMean(sum, count);
    var n := sum + count / 2;
    assert count * q <= n < count * q + count;
    assert q <= 0 ==> count * q <= 0;
    assert q >= 100 ==> count * q >= count * 100;
  }

  /** The stored mean is the nearest integer, halves rounded up. */
  lemma NearestMean(sum: nat, count: nat)
    requires 0 < count
    ensures var q := RoundedMean(sum, count); 2 * (q * count) - count <= 2 * sum < 2 * (q * count) + count
  {
    var q, n := RoundedMean(sum, count), sum + count / 2;
    assert n == q * count + n % count;
  }

  /** Which readings a cell learns. One of an earlier cycle changes nothing. Otherwise, in the cell as its own cycle
      finds it, and unless a counter is full: with fewer finished means than the policy asks for, every reading; with
      enough, exactly those nearer to the median of the means than the policy's deviation or than its multiple of the
      median distance from it. */
  lemma LearnsIff(c: Cell, p: Policy, cycle: nat, cno: byte)
    requires ValidCell(c) && ValidPolicy(p)
    ensures c.count != 0 && cycle < c.cycle ==> Observe(c, p, cycle, cno) == c
    ensures c.count == 0 || cycle >= c.cycle ==>
      var o, r := OpenCycle(c, cycle), Observe(c, p, cycle, cno);
      && |o.history| == DAYS && o.next < DAYS && o.len <= DAYS
      && (o.count == 65535 || o.sum + cno > 65535 ==> r == o)
      && (o.count < 65535 && o.sum + cno <= 65535 ==>
            if o.len < p.minSupport then r == o.(count := o.count + 1, sum := o.sum + cno)
            else
              var v := o.history[..o.len];
              var m := Median(v);
              var mad := Median(Deviations(v, m));
              var d := if cno > m then cno - m else m - cno;
              r == if d < p.minDeviation || d < p.madMultiplier * mad
                   then o.(count := o.count + 1, sum := o.sum + cno) else o)
  {
    hide Median, Deviations, Finalize, RoundedMean;
    if c.count == 0 || cycle >= c.cycle { OpenShape(c, cycle); }
  }

  /** The deviations are the distances from `m`, entry by entry. */
  lemma DeviationAt(v: seq<byte>, m: byte, i: nat)
    requires i < |v|
    ensures Deviations(v, m)[i] == if v[i] > m then v[i] - m else m - v[i]
  {
  }

  lemma OpenShape(c: Cell, cycle: nat)
    requires ValidCell(c)
    ensures var o := OpenCycle(c, cycle); |o.history| == DAYS && o.next < DAYS && o.len <= DAYS
    ensures c.count == 0 ==> OpenCycle(c, cycle) == c.(cycle := cycle)
    ensures c.count != 0 && cycle == c.cycle ==> OpenCycle(c, cycle) == c
  {
    hide RoundedMean;
  }

  /** No sample, in any order, takes a cell out of the range that import accepts. */
  lemma ObserveValid(c: Cell, p: Policy, cycle: nat, cno: byte)
    requires ValidCell(c) && cycle <= UINT16_MAX && 1 <= cno <= 99
    ensures ValidCell(Observe(c, p, cycle, cno))
  {
    hide ValidCell, OpenCycle, Accepts;
    CellShape(c);
    if c.count == 0 || cycle >= c.cycle {
      OpenValid(c, cycle);
      CellShape(OpenCycle(c, cycle));
      if Taken(OpenCycle(c, cycle), p, cno) { TakeValid(OpenCycle(c, cycle), cno); }
    }
  }

  lemma CellShape(c: Cell)
    requires ValidCell(c)
    ensures |c.history| == DAYS && c.next < DAYS
  {
  }

  lemma OpenValid(c: Cell, cycle: nat)
    requires ValidCell(c) && cycle <= UINT16_MAX
    ensures ValidCell(OpenCycle(c, cycle))
  {
    hide Finalize;
    if c.count != 0 && cycle > c.cycle { OpenNew(c, cycle); }
  }

  lemma TakeValid(c: Cell, cno: byte)
    requires ValidCell(c) && c.count != UINT16_MAX && c.sum + cno <= UINT16_MAX && 1 <= cno <= 99
    ensures ValidCell(c.(sum := c.sum + cno, count := c.count + 1))
  {
  }

  /** Closing a cycle writes its rounded mean, which fits a byte, into the next slot of the ring. */
  lemma OpenNew(c: Cell, cycle: nat)
    requires ValidCell(c) && c.count != 0 && c.cycle < cycle <= UINT16_MAX
    ensures var m := RoundedMean(c.sum, c.count);
            && 1 <= m <= 99
            && OpenCycle(c, cycle) == Cell(cycle, 0, 0, if c.len < DAYS then c.len + 1 else c.len,
                                           if c.next == DAYS - 1 then 0 else c.next + 1, c.history[c.next := m])
            && ValidCell(OpenCycle(c, cycle))
  {
    MeanRange(c.sum, c.count);
    hide RoundedMean;
  }

  // ----- what the ring means

  /** The samples taken in one cycle. */
  datatype Epoch = Epoch(cycle: nat, samples: seq<byte>)

  /** A cell with the record of everything it took: finished cycles, oldest first, and the running one. */
  datatype Tracked = Tracked(cell: Cell, finished: seq<Epoch>, current: seq<byte>)

  function Sum(v: seq<byte>): nat { if v == [] then 0 else Sum(v[..|v| - 1]) + v[|v| - 1] }

  function Mean(v: seq<byte>): nat {
    if v == [] then 0 else RoundedMean(Sum(v), |v|)
  }

  /** Opening a cycle files the running samples when the previous cycle has ended. */
  function Open(t: Tracked, cycle: nat): Tracked
    requires |t.cell.history| == DAYS && t.cell.next < DAYS
  {
    var ended := t.cell.count != 0 && cycle > t.cell.cycle;
    Tracked(OpenCycle(t.cell, cycle),
            if ended then t.finished + [Epoch(t.cell.cycle, t.current)] else t.finished,
            if ended then [] else t.current)
  }

  function Track(t: Tracked, p: Policy, cycle: nat, cno: byte): (r: Tracked)
    requires |t.cell.history| == DAYS && t.cell.next < DAYS
    ensures r.cell == Observe(t.cell, p, cycle, cno)
  {
    if t.cell.count != 0 && cycle < t.cell.cycle then t
    else
      var o := Open(t, cycle);
      if Taken(o.cell, p, cno) then o.(cell := Observe(t.cell, p, cycle, cno), current := o.current + [cno]) else o
  }

  predicate SamplesOK(v: seq<byte>) { forall i :: 0 <= i < |v| ==> 1 <= v[i] <= 99 }

  predicate EpochsOK(v: seq<Epoch>) {
    && (forall i :: 0 <= i < |v| ==> v[i].samples != [] && SamplesOK(v[i].samples))
    && (forall i, j :: 0 <= i < j < |v| ==> v[i].cycle < v[j].cycle)
  }

  /** The ring holds the rounded means of the last `len` finished cycles. */
  predicate RingMeans(history: seq<byte>, len: nat, v: seq<Epoch>)
    requires |history| == DAYS && len <= |v|
  {
    forall i :: |v| - len <= i < |v| ==> history[i % DAYS] == Mean(v[i].samples)
  }

  predicate Meaning(t: Tracked) {
    var c, n := t.cell, |t.finished|;
    && ValidCell(c)
    && c.sum == Sum(t.current) && c.count == |t.current| && SamplesOK(t.current)
    && EpochsOK(t.finished)
    && (n > 0 ==> t.finished[n - 1].cycle < c.cycle)
    && c.len == (if n < DAYS then n else DAYS) && c.next == n % DAYS
    && RingMeans(c.history, c.len, t.finished)
  }

  lemma {:induction false} SumBounds(v: seq<byte>)
    requires SamplesOK(v)
    ensures |v| <= Sum(v) <= 99 * |v|
  {
    if v != [] { SumBounds(v[..|v| - 1]); }
  }

  /** A slot of the ring other than the one just written keeps its cycle. */
  lemma OtherSlot(i: nat, n: nat)
    requires i < n < i + DAYS
    ensures i % DAYS != n % DAYS
  {
  }

  lemma RingPush(history: seq<byte>, len: nat, v: seq<Epoch>, e: Epoch, m: byte)
    requires |history| == DAYS && len == (if |v| < DAYS then |v| else DAYS)
    requires RingMeans(history, len, v) && m == Mean(e.samples)
    ensures RingMeans(history[|v| % DAYS := m], if len < DAYS then len + 1 else len, v + [e])
  {
    hide Mean;
    var w, h := v + [e], history[|v| % DAYS := m];
    forall i | |w| - (if len < DAYS then len + 1 else len) <= i < |w|
      ensures h[i % DAYS] == Mean(w[i].samples)
    {
      if i < |v| {
        OtherSlot(i, |v|);
        assert w[i] == v[i];
      }
    }
  }

  lemma EpochsPush(v: seq<Epoch>, e: Epoch)
    requires EpochsOK(v) && e.samples != [] && SamplesOK(e.samples) && (v != [] ==> v[|v| - 1].cycle < e.cycle)
    ensures EpochsOK(v + [e])
  {
  }

  lemma NextSlot(n: nat)
    ensures (if n % DAYS == DAYS - 1 then 0 else n % DAYS + 1) == (n + 1) % DAYS
  {
  }

  lemma CloseMeaning(t: Tracked, cycle: nat)
    requires Meaning(t) && t.cell.count != 0 && t.cell.cycle < cycle <= UINT16_MAX
    ensures Meaning(Open(t, cycle)) && Open(t, cycle).cell.cycle == cycle
  {
    var c, e := t.cell, Epoch(t.cell.cycle, t.current);
    OpenNew(c, cycle);
    NextSlot(|t.finished|);
    hide RoundedMean, EpochsOK, ValidCell, OpenCycle, SamplesOK;
    EpochsPush(t.finished, e);
    RingPush(c.history, c.len, t.finished, e, RoundedMean(c.sum, c.count));
    hide RingMeans;
  }

  lemma OpenMeaning(t: Tracked, cycle: nat)
    requires Meaning(t) && t.cell.cycle <= cycle <= UINT16_MAX
    ensures Meaning(Open(t, cycle)) && Open(t, cycle).cell.cycle == cycle
  {
    if t.cell.count != 0 && cycle > t.cell.cycle {
      CloseMeaning(t, cycle);
    } else {
      hide RingMeans, EpochsOK;
    }
  }

  /** One more sample, with time not running backwards, keeps the meaning of the cell. */
  lemma TrackMeaning(t: Tracked, p: Policy, cycle: nat, cno: byte)
    requires Meaning(t) && t.cell.cycle <= cycle <= UINT16_MAX && 1 <= cno <= 99
    ensures Meaning(Track(t, p, cycle, cno)) && Track(t, p, cycle, cno).cell.cycle == cycle
  {
    hide Meaning, OpenCycle, Open, Taken;
    MeaningShape(t);
    OpenMeaning(t, cycle);
    OpenCell(t, cycle);
    MeaningShape(Open(t, cycle));
    if Taken(OpenCycle(t.cell, cycle), p, cno) { TakeMeaning(Open(t, cycle), p, cno); }
  }

  lemma MeaningShape(t: Tracked)
    requires Meaning(t)
    ensures |t.cell.history| == DAYS && t.cell.next < DAYS
  {
    hide EpochsOK, RingMeans, SamplesOK, Sum;
  }

  lemma OpenCell(t: Tracked, cycle: nat)
    requires |t.cell.history| == DAYS && t.cell.next < DAYS
    ensures Open(t, cycle).cell == OpenCycle(t.cell, cycle)
  {
    hide OpenCycle;
  }

  /** A taken sample joins the running ones. */
  lemma TakeMeaning(o: Tracked, p: Policy, cno: byte)
    requires Meaning(o) && Taken(o.cell, p, cno) && 1 <= cno <= 99
    ensures var c := o.cell.(sum := o.cell.sum + cno, count := o.cell.count + 1);
            Meaning(o.(cell := c, current := o.current + [cno]))
  {
    assert (o.current + [cno])[..|o.current|] == o.current;
    SumBounds(o.current);
    hide Accepts, EpochsOK, RingMeans;
  }

  /** A sample of one cell: its cycle and its carrier-to-noise reading. */
  datatype Sample = Sample(cycle: nat, cno: byte)

  predicate InOrder(v: seq<Sample>) {
    && (forall i :: 0 <= i < |v| ==> v[i].cycle <= UINT16_MAX && 1 <= v[i].cno <= 99)
    && (forall i, j :: 0 <= i < j < |v| ==> v[i].cycle <= v[j].cycle)
  }

  /** A new cell fed a whole sequence of samples. */
  function ObserveAll(p: Policy, v: seq<Sample>): (c: Cell)
    ensures |c.history| == DAYS && c.next < DAYS
  {
    if v == [] then BLANK else Observe(ObserveAll(p, v[..|v| - 1]), p, v[|v| - 1].cycle, v[|v| - 1].cno)
  }

  /** The same cell with its record. */
  function TrackAll(p: Policy, v: seq<Sample>): (t: Tracked)
    ensures t.cell == ObserveAll(p, v)
  {
    if v == [] then Tracked(BLANK, [], [])
    else Track(TrackAll(p, v[..|v| - 1]), p, v[|v| - 1].cycle, v[|v| - 1].cno)
  }

  lemma {:induction false} AllMeaning(p: Policy, v: seq<Sample>)
    requires InOrder(v)
    ensures Meaning(TrackAll(p, v)) && (v != [] ==> TrackAll(p, v).cell.cycle == v[|v| - 1].cycle)
  {
    if v != [] {
      var u, s := v[..|v| - 1], v[|v| - 1];
      AllMeaning(p, u);
      assert u != [] ==> u[|u| - 1] == v[|u| - 1];
      hide Meaning, Track;
      TrackMeaning(TrackAll(p, u), p, s.cycle, s.cno);
    }
  }

  /** Whether the cell took its last sample. */
  predicate TookLast(p: Policy, v: seq<Sample>)
    requires v != []
  {
    Taken(OpenCycle(ObserveAll(p, v[..|v| - 1]), v[|v| - 1].cycle), p, v[|v| - 1].cno)
  }

  /** The samples of `v` from one cycle that the cell took, in order. */
  function Group(p: Policy, v: seq<Sample>, cycle: nat): seq<byte>
  {
    if v == [] then []
    else Group(p, v[..|v| - 1], cycle) + if v[|v| - 1].cycle == cycle && TookLast(p, v) then [v[|v| - 1].cno] else []
  }

  /** Each finished cycle holds exactly the taken samples of that cycle. */
  ghost predicate FinishedGrouped(p: Policy, v: seq<Sample>, finished: seq<Epoch>) {
    forall i :: 0 <= i < |finished| ==> finished[i].samples == Group(p, v, finished[i].cycle)
  }

  ghost predicate NothingAfter(p: Policy, v: seq<Sample>, cycle: nat) {
    forall y :: y > cycle ==> Group(p, v, y) == []
  }

  predicate Filed(finished: seq<Epoch>, cycle: nat) {
    exists i :: 0 <= i < |finished| && finished[i].cycle == cycle
  }

  /** Every cycle with taken samples is the running one or was filed. */
  ghost predicate AllFiled(p: Policy, v: seq<Sample>, finished: seq<Epoch>, cycle: nat) {
    forall y :: y != cycle && Group(p, v, y) != [] ==> Filed(finished, y)
  }

  /** The running cycle holds its taken samples too, nothing is later and nothing is missing. */
  ghost predicate Grouped(p: Policy, v: seq<Sample>, t: Tracked) {
    && FinishedGrouped(p, v, t.finished) && t.current == Group(p, v, t.cell.cycle)
    && NothingAfter(p, v, t.cell.cycle) && AllFiled(p, v, t.finished, t.cell.cycle)
  }

  lemma GroupStep(p: Policy, v: seq<Sample>, y: nat)
    requires v != []
    ensures y != v[|v| - 1].cycle ==> Group(p, v, y) == Group(p, v[..|v| - 1], y)
    ensures Group(p, v, v[|v| - 1].cycle)
         == Group(p, v[..|v| - 1], v[|v| - 1].cycle) + if TookLast(p, v) then [v[|v| - 1].cno] else []
  {
    hide TookLast;
  }

  /** What one sample does to the record, with time in order. */
  lemma TrackShape(t: Tracked, p: Policy, cycle: nat, cno: byte)
    requires |t.cell.history| == DAYS && t.cell.next < DAYS && (t.cell.count == 0 || t.cell.cycle <= cycle)
    ensures var r, ended := Track(t, p, cycle, cno), t.cell.count != 0 && t.cell.cycle < cycle;
            && r.finished == (if ended then t.finished + [Epoch(t.cell.cycle, t.current)] else t.finished)
            && r.current == (if ended then [] else t.current)
                          + (if Taken(OpenCycle(t.cell, cycle), p, cno) then [cno] else [])
  {
    hide Accepts, OpenCycle;
  }

  lemma {:induction false} TrackGroups(p: Policy, v: seq<Sample>)
    requires InOrder(v)
    ensures Grouped(p, v, TrackAll(p, v))
  {
    if v != [] {
      TrackGroups(p, v[..|v| - 1]);
      GroupNext(p, v);
    }
  }

  lemma GroupNext(p: Policy, v: seq<Sample>)
    requires InOrder(v) && v != [] && InOrder(v[..|v| - 1]) && Grouped(p, v[..|v| - 1], TrackAll(p, v[..|v| - 1]))
    ensures Grouped(p, v, TrackAll(p, v))
  {
    hide Group, Grouped, Taken, OpenCycle;
    var u, s := v[..|v| - 1], v[|v| - 1];
    AllMeaning(p, u);
    AllMeaning(p, v);
    var t := TrackAll(p, u);
    assert t.cell.cycle <= s.cycle by { assert u != [] ==> u[|u| - 1] == v[|u| - 1]; }
    TrackShape(t, p, s.cycle, s.cno);
    hide Track;
    GroupAll(p, v, t, TrackAll(p, v));
  }

  lemma GroupAll(p: Policy, v: seq<Sample>, t: Tracked, r: Tracked)
    requires v != [] && Grouped(p, v[..|v| - 1], t)
    requires EpochsOK(t.finished) && (t.finished != [] ==> t.finished[|t.finished| - 1].cycle < t.cell.cycle)
    requires t.cell.count == |t.current| && t.cell.cycle <= v[|v| - 1].cycle == r.cell.cycle
    requires var s, ended := v[|v| - 1], t.cell.count != 0 && t.cell.cycle < v[|v| - 1].cycle;
             && r.finished == (if ended then t.finished + [Epoch(t.cell.cycle, t.current)] else t.finished)
             && r.current == (if ended then [] else t.current) + (if TookLast(p, v) then [s.cno] else [])
    ensures Grouped(p, v, r)
  {
    hide TookLast, Group;
    GroupFinished(p, v, t, r);
    GroupLater(p, v, t.cell.cycle);
    GroupFiled(p, v, t, r);
    GroupStep(p, v, r.cell.cycle);
    assert [] + r.current == r.current && t.current + [] == t.current;
  }

  /** Cycles that ended gain nothing. */
  lemma GroupFinished(p: Policy, v: seq<Sample>, t: Tracked, r: Tracked)
    requires v != [] && Grouped(p, v[..|v| - 1], t) && EpochsOK(t.finished)
    requires t.finished != [] ==> t.finished[|t.finished| - 1].cycle < t.cell.cycle
    requires t.cell.cycle <= v[|v| - 1].cycle
    requires r.finished == t.finished
          || (t.cell.cycle < v[|v| - 1].cycle && r.finished == t.finished + [Epoch(t.cell.cycle, t.current)])
    ensures FinishedGrouped(p, v, r.finished)
  {
    hide Group;
    forall i | 0 <= i < |r.finished|
      ensures r.finished[i].samples == Group(p, v, r.finished[i].cycle)
    {
      GroupStep(p, v, r.finished[i].cycle);
      assert i < |t.finished| ==> r.finished[i] == t.finished[i] && t.finished[i].cycle < v[|v| - 1].cycle;
    }
  }

  lemma GroupLater(p: Policy, v: seq<Sample>, cycle: nat)
    requires v != [] && NothingAfter(p, v[..|v| - 1], cycle) && cycle <= v[|v| - 1].cycle
    ensures NothingAfter(p, v, v[|v| - 1].cycle)
  {
    hide Group;
    forall y | y > v[|v| - 1].cycle
      ensures Group(p, v, y) == []
    {
      GroupStep(p, v, y);
    }
  }

  /** A cycle that ends with taken samples is filed. */
  lemma GroupFiled(p: Policy, v: seq<Sample>, t: Tracked, r: Tracked)
    requires v != [] && AllFiled(p, v[..|v| - 1], t.finished, t.cell.cycle)
    requires t.current == Group(p, v[..|v| - 1], t.cell.cycle) && t.cell.cycle <= v[|v| - 1].cycle == r.cell.cycle
    requires r.finished == if t.current != [] && t.cell.cycle < r.cell.cycle
                           then t.finished + [Epoch(t.cell.cycle, t.current)] else t.finished
    ensures AllFiled(p, v, r.finished, r.cell.cycle)
  {
    hide Group;
    forall y | y != r.cell.cycle && Group(p, v, y) != []
      ensures Filed(r.finished, y)
    {
      GroupStep(p, v, y);
      if y == t.cell.cycle {
        assert r.finished[|t.finished|].cycle == y;
      } else {
        var i :| 0 <= i < |t.finished| && t.finished[i].cycle == y;
        assert r.finished[i].cycle == y;
      }
    }
  }

  /** `e` lists, in order, exactly the cycles other than the open one from which samples were taken. */
  ghost predicate Finished(p: Policy, v: seq<Sample>, cycle: nat, e: seq<Epoch>) {
    && (forall i, j :: 0 <= i < j < |e| ==> e[i].cycle < e[j].cycle)
    && (forall i :: 0 <= i < |e| ==> e[i].cycle < cycle && Group(p, v, e[i].cycle) != [])
    && AllFiled(p, v, e, cycle)
  }

  /** What a cell says about the samples `v` it was fed: its ring holds the rounded means of the taken samples of
      the last four finished cycles, and its running sum and count are those of the open one. */
  ghost predicate RingOf(c: Cell, p: Policy, v: seq<Sample>) {
    var e := TrackAll(p, v).finished;
    && ValidCell(c) && Finished(p, v, c.cycle, e) && c.len == (if |e| < DAYS then |e| else DAYS)
    && (forall i :: |e| - c.len <= i < |e| ==> c.history[i % DAYS] == Mean(Group(p, v, e[i].cycle)))
    && c.sum == Sum(Group(p, v, c.cycle)) && c.count == |Group(p, v, c.cycle)|
  }

  /** Cell history: after any samples in time order, the ring holds the rounded means of the taken samples of the
      last four finished cycles, from strictly increasing cycles, every entry in 1..99; the running sum and count
      never leave 16 bits. */
  lemma HistoryMeaning(p: Policy, v: seq<Sample>)
    requires InOrder(v)
    ensures RingOf(ObserveAll(p, v), p, v)
  {
    hide InOrder, Group, ObserveAll, TrackAll, Meaning, Grouped, RingOf;
    TrackGroups(p, v);
    AllMeaning(p, v);
    RingMeaning(p, v);
  }

  lemma RingMeaning(p: Policy, v: seq<Sample>)
    requires Meaning(TrackAll(p, v)) && Grouped(p, v, TrackAll(p, v))
    ensures RingOf(ObserveAll(p, v), p, v)
  {
    hide Group, TrackAll, ObserveAll, Mean, ValidCell, EpochsOK, AllFiled, NothingAfter, Finished, SamplesOK;
    FinishedCycles(p, v, TrackAll(p, v));
  }

  lemma FinishedCycles(p: Policy, v: seq<Sample>, t: Tracked)
    requires Grouped(p, v, t) && EpochsOK(t.finished)
    requires t.finished != [] ==> t.finished[|t.finished| - 1].cycle < t.cell.cycle
    ensures Finished(p, v, t.cell.cycle, t.finished)
  {
    hide Group, AllFiled, SamplesOK;
  }

  // ----- the sort in place

  /** `sort_bytes`: insertion sort shifting larger entries up. */
  method SortBytes(v: array<byte>)
    modifies v
    ensures v[..] == Sort(old(v[..]))
  {
    ghost var was := v[..];
    var i := 1;
    if v.Length > 0 { assert v[..1][..0] == [] && v[..1] == Sort(was[..1]); }
    while i < v.Length
      invariant 1 <= i && (i <= v.Length || v.Length == 0)
      invariant v.Length > 0 ==> v[..i] == Sort(was[..i]) && v[i..] == was[i..]
    {
      InsertAt(v, i);
      assert was[..i + 1][..i] == was[..i];
      i := i + 1;
    }
    if v.Length > 0 { assert v[..i] == v[..] && was[..i] == was; }
  }

  /** One shift: the largest entry goes to the end. */
  lemma InsertShift(s: seq<byte>, j: nat, x: byte)
    requires 0 < j <= |s| && s[j - 1] > x
    ensures Insert(s[..j], x) == Insert(s[..j - 1], x) + [s[j - 1]]
  {
    assert s[..j][..j - 1] == s[..j - 1];
  }

  lemma InsertHere(s: seq<byte>, x: byte)
    requires s == [] || s[|s| - 1] <= x
    ensures Insert(s, x) == s + [x]
  {
  }

  /** An array in four parts: entries still to compare, the hole, the shifted entries, the rest. */
  ghost predicate Parted(v: seq<byte>, head: seq<byte>, tail: seq<byte>, rest: seq<byte>) {
    |v| == |head| + 1 + |tail| + |rest| && v == head + [v[|head|]] + tail + rest
  }

  lemma PartedStart(v: seq<byte>, i: nat)
    requires i < |v|
    ensures Parted(v, v[..i], [], v[i + 1..])
  {
  }

  lemma PartedShift(v: seq<byte>, head: seq<byte>, tail: seq<byte>, rest: seq<byte>)
    requires Parted(v, head, tail, rest) && head != []
    ensures var j := |head| - 1; v[j] == head[j] && Parted(v[j + 1 := v[j]], head[..j], [head[j]] + tail, rest)
  {
  }

  lemma PartedFill(v: seq<byte>, head: seq<byte>, tail: seq<byte>, rest: seq<byte>, x: byte)
    requires Parted(v, head, tail, rest)
    ensures var w, i := v[|head| := x], |head| + |tail|; w[..i + 1] == head + [x] + tail && w[i + 1..] == rest
  {
  }

  /** The inner loop of `sort_bytes`. */
  method InsertAt(v: array<byte>, i: nat)
    requires i < v.Length
    modifies v
    ensures v[..i + 1] == Insert(old(v[..i]), old(v[i])) && v[i + 1..] == old(v[i + 1..])
  {
    hide Insert, Parted;
    var x, j := v[i], i;
    ghost var s, rest := v[..i], v[i + 1..];
    ghost var head, tail := s, [];
    PartedStart(v[..], i);
    assert v[..][..i] == s && v[..][i + 1..] == rest;
    while j > 0 && v[j - 1] > x
      invariant j == |head| && j + |tail| == i && Parted(v[..], head, tail, rest)
      invariant Insert(s, x) == Insert(head, x) + tail
    {
      PartedShift(v[..], head, tail, rest);
      InsertShift(head, j, x);
      ghost var was := v[..];
      v[j] := v[j - 1];
      assert v[..] == was[j := was[j - 1]];
      assert head[..j] == head;
      j := j - 1;
      Regroup(Insert(head[..j], x), head[j], tail);
      head, tail := head[..j], [head[j]] + tail;
    }
    if j > 0 { PartedShift(v[..], head, tail, rest); }
    InsertHere(head, x);
    PartedFill(v[..], head, tail, rest, x);
    ghost var was := v[..];
    v[j] := x;
    assert v[..] == was[j := x];
    assert v[..][..i + 1] == v[..i + 1] && v[..][i + 1..] == v[i + 1..];
  }

  lemma Regroup(a: seq<byte>, b: byte, c: seq<byte>)
    ensures (a + [b]) + c == a + ([b] + c)
  {
  }

  predicate Ascending(v: seq<byte>) { forall i, j :: 0 <= i < j < |v| ==> v[i] <= v[j] }

  lemma {:induction false} InsertBelow(s: seq<byte>, x: byte, m: byte)
    requires x <= m && forall i :: 0 <= i < |s| ==> s[i] <= m
    ensures forall i :: 0 <= i <= |s| ==> Insert(s, x)[i] <= m
  {
    if s != [] { InsertBelow(s[..|s| - 1], x, m); }
  }

  lemma AscendingSnoc(s: seq<byte>, x: byte)
    requires Ascending(s) && forall i :: 0 <= i < |s| ==> s[i] <= x
    ensures Ascending(s + [x])
  {
  }

  lemma {:induction false} InsertAscends(s: seq<byte>, x: byte)
    requires Ascending(s)
    ensures Ascending(Insert(s, x))
  {
    if s != [] && s[|s| - 1] > x {
      var rest, last := s[..|s| - 1], s[|s| - 1];
      InsertAscends(rest, x);
      InsertBelow(rest, x, last);
      AscendingSnoc(Insert(rest, x), last);
    } else {
      AscendingSnoc(s, x);
    }
  }

  lemma {:induction false} InsertPermutes(s: seq<byte>, x: byte)
    ensures multiset(Insert(s, x)) == multiset(s) + multiset{x}
  {
    if s != [] && s[|s| - 1] > x {
      var rest, last := s[..|s| - 1], s[|s| - 1];
      InsertPermutes(rest, x);
      assert s == rest + [last];
    }
  }

  /** The sort is an ordered permutation. */
  lemma {:induction false} SortOrders(v: seq<byte>)
    ensures Ascending(Sort(v)) && multiset(Sort(v)) == multiset(v)
  {
    if v != [] {
      SortOrders(v[..|v| - 1]);
      InsertAscends(Sort(v[..|v| - 1]), v[|v| - 1]);
      InsertPermutes(Sort(v[..|v| - 1]), v[|v| - 1]);
      assert v == v[..|v| - 1] + [v[|v| - 1]];
    }
  }

  // ----- what the median says

  /** How many entries lie below `m`, and above it. */
  function Below(v: seq<byte>, m: nat): nat {
    if v == [] then 0 else Below(v[..|v| - 1], m) + if v[|v| - 1] < m then 1 else 0
  }

  function Above(v: seq<byte>, m: nat): nat {
    if v == [] then 0 else Above(v[..|v| - 1], m) + if v[|v| - 1] > m then 1 else 0
  }

  lemma {:induction false} InsertCounts(s: seq<byte>, x: byte, m: nat)
    ensures Below(Insert(s, x), m) == Below(s, m) + if x < m then 1 else 0
    ensures Above(Insert(s, x), m) == Above(s, m) + if x > m then 1 else 0
  {
    if s != [] && s[|s| - 1] > x {
      InsertCounts(s[..|s| - 1], x, m);
      assert Insert(s, x)[..|s|] == Insert(s[..|s| - 1], x);
    } else {
      assert Insert(s, x)[..|s|] == s;
    }
  }

  lemma {:induction false} SortCounts(v: seq<byte>, m: nat)
    ensures Below(Sort(v), m) == Below(v, m) && Above(Sort(v), m) == Above(v, m)
  {
    if v != [] {
      SortCounts(v[..|v| - 1], m);
      InsertCounts(Sort(v[..|v| - 1]), v[|v| - 1], m);
    }
  }

  /** Of entries in order, those below `m` come before the first that is not. */
  lemma {:induction false} BelowBound(s: seq<byte>, m: nat, k: nat)
    requires forall i :: k <= i < |s| ==> s[i] >= m
    ensures Below(s, m) <= k
  {
    if s != [] { BelowBound(s[..|s| - 1], m, if k < |s| then k else |s| - 1); }
  }

  lemma {:induction false} AboveBound(s: seq<byte>, m: nat, k: nat)
    requires k <= |s| && forall i :: 0 <= i < k ==> s[i] <= m
    ensures Above(s, m) <= |s| - k
  {
    if s != [] { AboveBound(s[..|s| - 1], m, if k < |s| then k else |s| - 1); }
  }

  lemma RoundedMiddle(a: nat, b: nat)
    requires a <= b
    ensures a <= (a + b + 1) / 2 <= b
  {
  }

  /** The upper half of the sorted entries is not below the median, nor the lower half above it. */
  lemma MedianHalves(v: seq<byte>)
    requires v != [] && Ascending(Sort(v))
    ensures forall i :: |v| / 2 <= i < |v| ==> Sort(v)[i] >= Median(v)
    ensures forall i :: 0 <= i < |v| - |v| / 2 ==> Sort(v)[i] <= Median(v)
  {
    hide Sort, Ascending;
    var s, h := Sort(v), |v| / 2;
    AscendingAt(s, h);
    if |v| % 2 == 0 {
      AscendingAt(s, h - 1);
      RoundedMiddle(s[h - 1], s[h]);
    }
  }

  lemma AscendingAt(s: seq<byte>, h: nat)
    requires Ascending(s) && h < |s|
    ensures forall i :: h <= i < |s| ==> s[h] <= s[i]
    ensures forall i :: 0 <= i <= h ==> s[i] <= s[h]
  {
  }

  /** At most half of the entries lie on either side of the median. */
  lemma MedianMiddle(v: seq<byte>)
    requires v != []
    ensures 2 * Below(v, Median(v)) <= |v| && 2 * Above(v, Median(v)) <= |v|
  {
    hide Sort, Below, Above, Median, Ascending;
    SortOrders(v);
    SortCounts(v, Median(v));
    MedianHalves(v);
    BelowBound(Sort(v), Median(v), |v| / 2);
    AboveBound(Sort(v), Median(v), |v| - |v| / 2);
  }

  /** Entries in order are determined by which entries they are. */
  lemma {:induction false} OrderUnique(s: seq<byte>, t: seq<byte>)
    requires Ascending(s) && Ascending(t) && multiset(s) == multiset(t)
    ensures s == t
  {
    hide Ascending;
    assert |s| == |multiset(s)| == |multiset(t)| == |t|;
    if s != [] {
      var n := |s| - 1;
      LargestLast(s, t);
      LargestLast(t, s);
      WithoutLast(s);
      WithoutLast(t);
      OrderUnique(s[..n], t[..n]);
      assert s == s[..n] + [s[n]] && t == t[..n] + [t[n]];
    }
  }

  lemma WithoutLast(s: seq<byte>)
    requires s != [] && Ascending(s)
    ensures Ascending(s[..|s| - 1]) && multiset(s[..|s| - 1]) == multiset(s) - multiset{s[|s| - 1]}
  {
    assert s == s[..|s| - 1] + [s[|s| - 1]];
  }

  lemma LargestLast(s: seq<byte>, t: seq<byte>)
    requires s != [] && t != [] && Ascending(t) && multiset(s) == multiset(t)
    ensures s[|s| - 1] <= t[|t| - 1]
  {
    assert s[|s| - 1] in multiset(t);
    var i :| 0 <= i < |t| && t[i] == s[|s| - 1];
  }

  /** The median of any entries, given in order: the middle one, or the middle two averaged with halves rounded up. */
  lemma MedianExact(v: seq<byte>, s: seq<byte>)
    requires v != [] && Ascending(s) && multiset(s) == multiset(v)
    ensures |s| == |v|
    ensures |v| % 2 == 1 ==> Median(v) == s[|v| / 2]
    ensures |v| % 2 == 0 ==>
      var a: int, b: int := s[|v| / 2 - 1], s[|v| / 2]; 2 * Median(v) == a + b || 2 * Median(v) == a + b + 1
  {
    hide Sort, Ascending;
    SortOrders(v);
    OrderUnique(s, Sort(v));
  }

  /** A reference is a middle of the finished means: at most half of them are lower, at most half higher, and at
      most half farther from it than the reported deviation. */
  lemma ReferenceMiddle(c: Cell, p: Policy)
    requires |c.history| == DAYS && Reference(c, p).Some?
    ensures c.len <= DAYS
    ensures var v, m, mad := c.history[..c.len], Reference(c, p).value.0, Reference(c, p).value.1;
            && 2 * Below(v, m) <= c.len && 2 * Above(v, m) <= c.len
            && 2 * Above(Deviations(v, m), mad) <= c.len
  {
    var v := c.history[..c.len];
    hide Median, Below, Above, Deviations;
    MedianMiddle(v);
    MedianMiddle(Deviations(v, Median(v)));
  }
}
