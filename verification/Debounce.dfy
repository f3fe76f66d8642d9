/** The reception alarm debouncer: eight dwell machines packed into bytes (common/reception.h). */
module Debounce {
  import opened BigEndian
  import opened Lanes

  const MAX_GAP_MS := 15000

  /** One step's evidence about one constellation, with the clock and the dwell times in force. */
  datatype Step = Step(covered: bool, bad: bool, now: U64, alarmS: U16, clearS: U16)

  /** One constellation's bit of `nr_machine_t`. */
  datatype Bit = Bit(alarm: bool, target: bool, pending: bool, since: U64)

  /** A machine restarted with its alarm kept, as the journal and a loss of coverage leave it. */
  function Restart(alarm: bool): Bit { Bit(alarm, false, false, 0) }

  function Dwell(x: Step, want: bool): nat { (if want then x.alarmS else x.clearS) * 1000 }

  /** Unsigned 64-bit subtraction. */
  function Minus(a: U64, b: U64): U64 { (a - b) % 0x1_0000_0000_0000_0000 }

  /** The reset in front of the loop: a stale clock or a long gap abandons a pending change. */
  function Reset(b: Bit, last: U64, now: U64): Bit {
    if last != 0 && (now <= last || now - last > MAX_GAP_MS) then b.(pending := false) else b
  }

  /** One turn of the loop of `nr_step`. */
  function Advance(b: Bit, x: Step): Bit {
    if !x.covered || x.bad == b.alarm then b.(pending := false)
    else
      var c := if !b.pending || b.target != x.bad then b.(pending := true, target := x.bad, since := x.now) else b;
      if Minus(x.now, c.since) >= Dwell(x, x.bad) then c.(alarm := x.bad, pending := false) else c
  }

  function Next(b: Bit, last: U64, x: Step): Bit {
    var r := Reset(b, last, x.now);
    if x.now <= last then r else Advance(r, x)
  }

  function NextLast(last: U64, now: U64): U64 { if now <= last then last else now }

  /** `last_ms` after the first `n` steps: the latest clock reading so far. */
  function Latest(xs: seq<Step>, n: nat): U64
    requires n <= |xs|
  {
    if n == 0 then 0 else NextLast(Latest(xs, n - 1), xs[n - 1].now)
  }

  /** The machine started as `b0`, after the first `n` steps. */
  function After(b0: Bit, xs: seq<Step>, n: nat): Bit
    requires n <= |xs|
  {
    if n == 0 then b0 else Next(After(b0, xs, n - 1), Latest(xs, n - 1), xs[n - 1])
  }

  // ----- what makes an alarm flip, without the machine

  /** Step `i` moves the clock forward and gives covered evidence for `want`. */
  predicate Supports(xs: seq<Step>, i: nat, want: bool)
    requires i < |xs|
  {
    xs[i].now > Latest(xs, i) && xs[i].covered && xs[i].bad == want
  }

  /** Steps `j..i` all support `want`, with no gap over 15 s between neighbours. */
  predicate Chain(xs: seq<Step>, j: nat, i: nat, want: bool)
    requires j <= i < |xs|
  {
    && (forall k :: j <= k <= i ==> Supports(xs, k, want))
    && (forall k :: j <= k < i ==> xs[k + 1].now - xs[k].now <= MAX_GAP_MS)
  }

  /** Where the longest chain ending at `i` begins. */
  function Start(xs: seq<Step>, i: nat, want: bool): (j: nat)
    requires i < |xs| && Supports(xs, i, want)
    ensures j <= i
  {
    if i > 0 && Supports(xs, i - 1, want) && xs[i].now - xs[i - 1].now <= MAX_GAP_MS then Start(xs, i - 1, want) else i
  }

  /** A supporting step is the latest clock reading. */
  lemma SupportLatest(xs: seq<Step>, i: nat, want: bool)
    requires i < |xs|
    ensures Supports(xs, i, want) ==> Latest(xs, i + 1) == xs[i].now
  {
  }

  lemma ChainSplit(xs: seq<Step>, j: nat, i: nat, want: bool)
    requires j < i < |xs|
    ensures Chain(xs, j, i, want) <==>
      Chain(xs, j, i - 1, want) && Supports(xs, i, want) && xs[i].now - xs[i - 1].now <= MAX_GAP_MS
  {
    hide Supports;
    assert Chain(xs, j, i, want) ==> xs[i - 1 + 1].now - xs[i - 1].now <= MAX_GAP_MS;
  }

  lemma {:induction false} StartIsLongest(xs: seq<Step>, i: nat, want: bool, j: nat)
    requires i < |xs| && Supports(xs, i, want) && j <= i
    ensures Chain(xs, j, i, want) <==> Start(xs, i, want) <= j
    ensures xs[Start(xs, i, want)].now <= xs[i].now
    decreases i
  {
    if i > 0 { SupportLatest(xs, i - 1, want); }
    if j < i {
      ChainSplit(xs, j, i, want);
      assert Chain(xs, j, i - 1, want) ==> Supports(xs, i - 1, want);
    }
    if i > 0 && Supports(xs, i - 1, want) && xs[i].now - xs[i - 1].now <= MAX_GAP_MS {
      StartIsLongest(xs, i - 1, want, if j < i then j else i - 1);
    }
  }

  /** Earlier links of a chain carry earlier times. */
  lemma {:induction false} StartEarliest(xs: seq<Step>, j: nat, i: nat, want: bool)
    requires j <= i < |xs| && Chain(xs, j, i, want)
    ensures xs[j].now <= xs[i].now
    ensures xs[Start(xs, i, want)].now <= xs[j].now
    decreases i
  {
    StartIsLongest(xs, i, want, j);
    if j < i {
      ChainSplit(xs, j, i, want);
      SupportLatest(xs, i - 1, want);
      StartEarliest(xs, j, i - 1, want);
    }
  }

  /** What the machine's bookkeeping means after `n` steps. */
  predicate Tracks(xs: seq<Step>, n: nat, b: Bit)
    requires n <= |xs|
  {
    var held := n > 0 && Supports(xs, n - 1, !b.alarm);
    b.pending == held && (held ==> b.target == !b.alarm && b.since == xs[Start(xs, n - 1, !b.alarm)].now)
  }

  /** Whether step `i` completes a chain of evidence against `alarm` that spans the dwell in force. */
  predicate Completes(xs: seq<Step>, i: nat, alarm: bool)
    requires i < |xs|
  {
    exists j :: 0 <= j <= i && Chain(xs, j, i, !alarm) && xs[i].now - xs[j].now >= Dwell(xs[i], !alarm)
  }

  /** Only the longest chain matters. */
  lemma CompletesByStart(xs: seq<Step>, i: nat, alarm: bool)
    requires i < |xs|
    ensures Completes(xs, i, alarm) <==>
      Supports(xs, i, !alarm) && xs[i].now - xs[Start(xs, i, !alarm)].now >= Dwell(xs[i], !alarm)
  {
    hide Supports, Dwell;
    if Supports(xs, i, !alarm) {
      StartIsLongest(xs, i, !alarm, Start(xs, i, !alarm));
    }
    forall j | 0 <= j <= i && Chain(xs, j, i, !alarm)
      ensures Supports(xs, i, !alarm) && xs[Start(xs, i, !alarm)].now <= xs[j].now
    {
      StartEarliest(xs, j, i, !alarm);
    }
  }

  /** A step that gives no new evidence against the alarm. */
  lemma NextQuiet(b: Bit, last: U64, x: Step)
    requires !(x.now > last && x.covered && x.bad != b.alarm)
    requires last == 0 ==> !b.pending
    ensures Next(b, last, x) == b.(pending := false)
  {
  }

  /** A step with evidence against the alarm; `t` is when that evidence began. */
  lemma NextBusy(b: Bit, last: U64, x: Step, t: U64)
    requires x.now > last && x.covered && x.bad != b.alarm && t <= x.now
    requires b.pending ==> b.target == x.bad && last != 0
    requires t == if b.pending && x.now - last <= MAX_GAP_MS then b.since else x.now
    ensures Next(b, last, x) ==
      if x.now - t >= Dwell(x, x.bad) then Bit(x.bad, x.bad, false, t) else Bit(b.alarm, x.bad, true, t)
  {
    hide Dwell;
    assert Minus(x.now, t) == x.now - t;
  }

  /** One step from a machine that tracks its evidence. */
  lemma NextTracks(xs: seq<Step>, n: nat, b: Bit)
    requires n < |xs| && Tracks(xs, n, b)
    ensures Tracks(xs, n + 1, Next(b, Latest(xs, n), xs[n]))
    ensures (Next(b, Latest(xs, n), xs[n]).alarm != b.alarm) <==> Completes(xs, n, b.alarm)
  {
    hide Chain, Completes, Next, Dwell;
    var last, want := Latest(xs, n), !b.alarm;
    CompletesByStart(xs, n, b.alarm);
    assert n == 0 ==> last == 0;
    if n > 0 { SupportLatest(xs, n - 1, want); }
    assert b.pending ==> last == xs[n - 1].now && last > 0;
    if Supports(xs, n, want) {
      StartIsLongest(xs, n, want, n);
      NextBusy(b, last, xs[n], xs[Start(xs, n, want)].now);
    } else {
      NextQuiet(b, last, xs[n]);
    }
  }

  lemma {:induction false} AfterTracks(b0: Bit, xs: seq<Step>, n: nat)
    requires n <= |xs| && !b0.pending
    ensures Tracks(xs, n, After(b0, xs, n))
  {
    if n > 0 {
      AfterTracks(b0, xs, n - 1);
      NextTracks(xs, n - 1, After(b0, xs, n - 1));
    }
  }

  /** Dwell correctness: over every run, from any start with nothing pending, a step flips the alarm exactly when it
      completes a chain of consecutive covered steps with opposite evidence, strictly increasing times and no gap
      over 15 s, that spans at least the dwell in force at that step. */
  lemma FlipIff(b0: Bit, xs: seq<Step>, i: nat)
    requires i < |xs| && !b0.pending
    ensures (After(b0, xs, i + 1).alarm != After(b0, xs, i).alarm) <==> Completes(xs, i, After(b0, xs, i).alarm)
  {
    AfterTracks(b0, xs, i);
    NextTracks(xs, i, After(b0, xs, i));
  }

  // ----- the same on the fields of the steps alone

  /** Step `i` is covered, says `bad`, and its clock is past zero and past every earlier reading. */
  predicate Says(xs: seq<Step>, i: nat, bad: bool)
    requires i < |xs|
  {
    xs[i].covered && xs[i].bad == bad && xs[i].now > 0 && forall j :: 0 <= j < i ==> xs[j].now < xs[i].now
  }

  /** Steps `j..i` all say `bad`, at most fifteen seconds apart. */
  predicate Spell(xs: seq<Step>, j: nat, i: nat, bad: bool)
    requires j <= i < |xs|
  {
    && (forall k :: j <= k <= i ==> Says(xs, k, bad))
    && (forall k :: j <= k < i ==> xs[k + 1].now - xs[k].now <= 15000)
  }

  /** Bad evidence has lasted for the alarm time in force at step `i`. */
  predicate Raises(xs: seq<Step>, i: nat)
    requires i < |xs|
  {
    exists j :: 0 <= j <= i && Spell(xs, j, i, true) && xs[i].now - xs[j].now >= 1000 * xs[i].alarmS
  }

  /** Good evidence has lasted for the clearing time in force at step `i`. */
  predicate Clears(xs: seq<Step>, i: nat)
    requires i < |xs|
  {
    exists j :: 0 <= j <= i && Spell(xs, j, i, false) && xs[i].now - xs[j].now >= 1000 * xs[i].clearS
  }

  /** The machine's clock is the latest reading. */
  lemma {:induction false} LatestIsLargest(xs: seq<Step>, n: nat)
    requires n <= |xs|
    ensures forall j :: 0 <= j < n ==> xs[j].now <= Latest(xs, n)
    ensures Latest(xs, n) == 0 || exists j :: 0 <= j < n && xs[j].now == Latest(xs, n)
  {
    if n > 0 {
      LatestIsLargest(xs, n - 1);
      if xs[n - 1].now > Latest(xs, n - 1) { assert xs[n - 1].now == Latest(xs, n); }
    }
  }

  lemma SupportsSays(xs: seq<Step>, i: nat, bad: bool)
    requires i < |xs|
    ensures Supports(xs, i, bad) <==> Says(xs, i, bad)
  {
    LatestIsLargest(xs, i);
    hide Latest;
    if Says(xs, i, bad) && Latest(xs, i) != 0 {
      var j :| 0 <= j < i && xs[j].now == Latest(xs, i);
    }
  }

  lemma ChainSpell(xs: seq<Step>, j: nat, i: nat, bad: bool)
    requires j <= i < |xs|
    ensures Chain(xs, j, i, bad) <==> Spell(xs, j, i, bad)
  {
    hide Supports, Says;
    forall k | j <= k <= i
      ensures Supports(xs, k, bad) <==> Says(xs, k, bad)
    {
      SupportsSays(xs, k, bad);
    }
  }

  lemma CompletesSpell(xs: seq<Step>, i: nat, alarm: bool)
    requires i < |xs|
    ensures Completes(xs, i, alarm) <==> if alarm then Clears(xs, i) else Raises(xs, i)
  {
    hide Chain, Spell;
    if Completes(xs, i, alarm) {
      var j :| 0 <= j <= i && Chain(xs, j, i, !alarm) && xs[i].now - xs[j].now >= Dwell(xs[i], !alarm);
      ChainSpell(xs, j, i, !alarm);
    }
    if alarm && Clears(xs, i) {
      var j :| 0 <= j <= i && Spell(xs, j, i, false) && xs[i].now - xs[j].now >= 1000 * xs[i].clearS;
      ChainSpell(xs, j, i, false);
    }
    if !alarm && Raises(xs, i) {
      var j :| 0 <= j <= i && Spell(xs, j, i, true) && xs[i].now - xs[j].now >= 1000 * xs[i].alarmS;
      ChainSpell(xs, j, i, true);
    }
  }

  /** The two dwell times: over every run, from any start with nothing pending, a step turns the alarm on exactly when
      bad evidence ending there has lasted for the alarm time, and off exactly when good evidence has lasted for the
      clearing time. */
  lemma AlarmIff(b0: Bit, xs: seq<Step>, i: nat)
    requires i < |xs| && !b0.pending
    ensures !After(b0, xs, i).alarm ==> (After(b0, xs, i + 1).alarm <==> Raises(xs, i))
    ensures After(b0, xs, i).alarm ==> (!After(b0, xs, i + 1).alarm <==> Clears(xs, i))
  {
    hide After, Raises, Clears, Completes;
    FlipIff(b0, xs, i);
    CompletesSpell(xs, i, After(b0, xs, i).alarm);
  }

  /** Uncovered, stale or agreeing steps never flip the alarm, and leave no change pending. */
  lemma QuietStep(b0: Bit, xs: seq<Step>, i: nat)
    requires i < |xs| && !b0.pending && !Supports(xs, i, !After(b0, xs, i).alarm)
    ensures After(b0, xs, i + 1).alarm == After(b0, xs, i).alarm && !After(b0, xs, i + 1).pending
  {
    FlipIff(b0, xs, i);
    AfterTracks(b0, xs, i + 1);
  }

  // ----- the collector's copy of the machine

  /** `Machine.Step` (go/internal/reception/reception.go): a repeated clock reading keeps what is pending. */
  function CollectorNext(b: Bit, last: U64, x: Step): Bit {
    var r := if last != 0 && (x.now < last || x.now - last > MAX_GAP_MS) then b.(pending := false) else b;
    if x.now <= last then r
    else if !x.covered || x.bad == r.alarm then r.(pending := false)
    else
      var c := if !r.pending || r.target != x.bad then r.(pending := true, target := x.bad, since := x.now) else r;
      if x.now - c.since >= Dwell(x, x.bad) then c.(alarm := x.bad, pending := false) else c
  }

  function CollectorAfter(b0: Bit, xs: seq<Step>, n: nat): Bit
    requires n <= |xs|
  {
    if n == 0 then b0 else CollectorNext(CollectorAfter(b0, xs, n - 1), Latest(xs, n - 1), xs[n - 1])
  }

  /** Step `n` reads the same clock as the latest step while a change is pending. */
  predicate Repeats(b0: Bit, xs: seq<Step>, n: nat)
    requires n < |xs|
  {
    xs[n].now == Latest(xs, n) && After(b0, xs, n).pending
  }

  /** What is pending began no later than the latest step. */
  lemma PendingSince(b0: Bit, xs: seq<Step>, n: nat)
    requires n <= |xs| && !b0.pending
    ensures After(b0, xs, n).pending ==> 0 < Latest(xs, n) && After(b0, xs, n).since <= Latest(xs, n)
  {
    AfterTracks(b0, xs, n);
    hide After, Chain;
    var b := After(b0, xs, n);
    if n > 0 { SupportLatest(xs, n - 1, !b.alarm); }
    if b.pending { StartIsLongest(xs, n - 1, !b.alarm, n - 1); }
  }

  lemma TwinNext(b: Bit, last: U64, x: Step)
    requires b.pending ==> 0 < last && b.since <= last
    ensures CollectorNext(b, last, x) == Next(b, last, x) <==> !(x.now == last && b.pending)
  {
    hide Dwell;
    assert b.pending && x.now > last ==> Minus(x.now, b.since) == x.now - b.since;
    assert Minus(x.now, x.now) == 0;
  }

  /** The two copies treat a step alike exactly when it does not repeat the clock over a pending change. */
  lemma TwinStep(b0: Bit, xs: seq<Step>, n: nat)
    requires n < |xs| && !b0.pending
    ensures CollectorNext(After(b0, xs, n), Latest(xs, n), xs[n]) == After(b0, xs, n + 1) <==> !Repeats(b0, xs, n)
  {
    hide CollectorNext, Next, Latest;
    PendingSince(b0, xs, n);
    TwinNext(After(b0, xs, n), Latest(xs, n), xs[n]);
  }

  /** Edge and collector hold the same machine throughout a run exactly when no step does so. */
  lemma {:induction false} TwinRuns(b0: Bit, xs: seq<Step>, n: nat)
    requires n <= |xs| && !b0.pending
    ensures (forall m :: 0 <= m <= n ==> CollectorAfter(b0, xs, m) == After(b0, xs, m))
       <==> (forall i :: 0 <= i < n ==> !Repeats(b0, xs, i))
  {
    if n > 0 {
      TwinRuns(b0, xs, n - 1);
      TwinStep(b0, xs, n - 1);
      hide After, Repeats, CollectorNext;
    }
  }

  /** On a run that does, the collector can raise an alarm the edge does not. */
  lemma TwinsDiffer()
    ensures var x := Step(true, true, 1000, 5, 5);
            var xs := [x, x, x.(now := 6000)];
            CollectorAfter(Restart(false), xs, 3).alarm && !After(Restart(false), xs, 3).alarm
  {
    var x, b0 := Step(true, true, 1000, 5, 5), Restart(false);
    var xs := [x, x, x.(now := 6000)];
    assert Latest(xs, 1) == 1000 && Latest(xs, 2) == 1000;
    assert After(b0, xs, 1) == Bit(false, true, true, 1000)
      && CollectorAfter(b0, xs, 1) == Bit(false, true, true, 1000);
    assert After(b0, xs, 2) == Bit(false, true, false, 1000)
      && CollectorAfter(b0, xs, 2) == Bit(false, true, true, 1000);
  }

  // ----- the packed machine

  /** The arguments of one `nr_step` call. */
  datatype Call = Call(valid: bv8, bad: bv8, now: U64, alarmS: U16, clearS: U16) {
    function For(g: nat): Step
      requires g < 8
    {
      Step(Lane(valid, g), Lane(bad, g), now, alarmS, clearS)
    }
  }

  /** What a run of calls tells one constellation. */
  function Evidence(calls: seq<Call>, g: nat): (r: seq<Step>)
    requires g < 8
    ensures |r| == |calls|
  {
    seq(|calls|, i requires 0 <= i < |calls| => calls[i].For(g))
  }

  /** The first `n` steps alone decide the machine after them. */
  lemma {:induction false} AfterPrefix(b0: Bit, xs: seq<Step>, x: Step, n: nat)
    requires n <= |xs|
    ensures Latest(xs + [x], n) == Latest(xs, n) && After(b0, xs + [x], n) == After(b0, xs, n)
  {
    if n > 0 { AfterPrefix(b0, xs, x, n - 1); }
  }

  /** One more call moves one constellation's machine one step. */
  lemma Extend(b0: Bit, calls: seq<Call>, c: Call, g: nat)
    requires g < 8 && !b0.pending
    ensures var xs, ys, n := Evidence(calls, g), Evidence(calls + [c], g), |calls|;
            && Latest(ys, n + 1) == NextLast(Latest(xs, n), c.now)
            && After(b0, ys, n + 1) == Next(After(b0, xs, n), Latest(xs, n), c.For(g))
            && (!After(b0, xs, n).alarm ==> (After(b0, ys, n + 1).alarm <==> Raises(ys, n)))
            && (After(b0, xs, n).alarm ==> (!After(b0, ys, n + 1).alarm <==> Clears(ys, n)))
  {
    var xs := Evidence(calls, g);
    AfterPrefix(b0, xs, c.For(g), |calls|);
    AlarmIff(b0, xs + [c.For(g)], |calls|);
    hide Lane, Next, Raises, Clears;
    assert Evidence(calls + [c], g) == xs + [c.For(g)];
  }

  /** `nr_machine_t`, with the calls it has seen as a ghost. */
  class Machine {
    var alarm: bv8
    var target: bv8
    var pending: bv8
    const since: array<U64>
    ghost const restored: bv8      // the alarm it was started with
    var last: U64
    ghost var seen: seq<Call>

    ghost function Of(g: nat): Bit
      requires g < 8 && since.Length == 8
      reads this, since
    {
      Bit(Lane(alarm, g), Lane(target, g), Lane(pending, g), since[g])
    }

    /** Each bit is the dwell machine restarted with its alarm and run on its constellation's evidence alone. */
    ghost predicate Valid()
      reads this, since
    {
      && since.Length == 8
      && (forall g :: 0 <= g < 8 ==> last == Latest(Evidence(seen, g), |seen|))
      && (forall g :: 0 <= g < 8 ==> Of(g) == After(Restart(Lane(restored, g)), Evidence(seen, g), |seen|))
    }

    /** A cleared machine with its alarm restored. */
    constructor (kept: bv8)
      ensures Valid() && fresh(since) && seen == [] && restored == kept
    {
      alarm, target, pending, last, seen := kept, 0, 0, 0, [];
      restored := kept;
      since := new U64[8](_ => 0);
      new;
      NoLanes();
    }

    /** The body of the loop for one bit. */
    method Turn(g: nat, x: Step)
      requires g < 8 && since.Length == 8
      modifies this`alarm, this`target, this`pending, since
      ensures Of(g) == Advance(old(Of(g)), x)
      ensures forall h :: 0 <= h < 8 && h != g ==> Of(h) == old(Of(h))
    {
      hide Lane, SetLane, Dwell, Minus;
      if !x.covered || x.bad == Lane(alarm, g) {
        SetLanes(pending, g, false);
        pending := SetLane(pending, g, false);
        return;
      }
      if !Lane(pending, g) || Lane(target, g) != x.bad {
        SetLanes(pending, g, true);
        SetLanes(target, g, x.bad);
        pending, target := SetLane(pending, g, true), SetLane(target, g, x.bad);
        since[g] := x.now;
      }
      if Minus(x.now, since[g]) >= Dwell(x, x.bad) {
        SetLanes(alarm, g, x.bad);
        SetLanes(pending, g, false);
        alarm, pending := SetLane(alarm, g, x.bad), SetLane(pending, g, false);
      }
    }

    /** The state change of `nr_step`: every bit takes one step on its own evidence. */
    method Update(c: Call)
      requires since.Length == 8
      modifies this`alarm, this`target, this`pending, this`last, since
      ensures last == NextLast(old(last), c.now)
      ensures forall g :: 0 <= g < 8 ==> Of(g) == Next(old(Of(g)), old(last), c.For(g))
    {
      hide Lane, Advance;
      NoLanes();
      if last != 0 && (c.now <= last || c.now - last > MAX_GAP_MS) { pending := 0; }
      if c.now <= last { return; }
      ghost var was := last;
      last := c.now;
      for g := 0 to 8
        invariant last == c.now
        invariant forall h :: 0 <= h < g ==> Of(h) == Next(old(Of(h)), was, c.For(h))
        invariant forall h :: g <= h < 8 ==> Of(h) == Reset(old(Of(h)), was, c.now)
      {
        Turn(g, c.For(g));
      }
    }

    /** `nr_step`. */
    method Step(c: Call) returns (r: bv8)
      requires Valid()
      modifies this, since
      ensures Valid() && seen == old(seen) + [c] && r == alarm
      ensures forall g :: 0 <= g < 8 && !old(Lane(alarm, g)) ==>
        (Lane(r, g) <==> Raises(Evidence(seen, g), |seen| - 1))
      ensures forall g :: 0 <= g < 8 && old(Lane(alarm, g)) ==>
        (!Lane(r, g) <==> Clears(Evidence(seen, g), |seen| - 1))
    {
      hide Lane, Raises, Clears, After, Latest, Evidence, Next, NextLast;
      ghost var calls, n := seen, |seen|;
      forall g | 0 <= g < 8
        ensures Latest(Evidence(calls + [c], g), n + 1) == NextLast(last, c.now)
        ensures After(Restart(Lane(restored, g)), Evidence(calls + [c], g), n + 1) == Next(Of(g), last, c.For(g))
        ensures !Of(g).alarm ==> (Next(Of(g), last, c.For(g)).alarm <==> Raises(Evidence(calls + [c], g), n))
        ensures Of(g).alarm ==> (!Next(Of(g), last, c.For(g)).alarm <==> Clears(Evidence(calls + [c], g), n))
      {
        Extend(Restart(Lane(restored, g)), calls, c, g);
      }
      Update(c);
      seen := seen + [c];
      return alarm;
    }
  }
}
