/** The epoch assembler of common/receiver_solution.h: three kinds of blocks joined by time of week. */
module SolutionAssembler {
  import opened BigEndian
  import opened SolutionBlocks

  datatype Kind = PvtKind | ClockKind | StatusKind | OtherKind

  /** The `RS_HAS_*` bits. */
  datatype Present = Present(pvt: bool, clock: bool, status: bool)

  /** `rs_epoch_t`. */
  datatype Epoch = Epoch(
    present: Present, tow: nat, arrived: nat, stamp: byte,
    pvt: seq<byte>, clock: seq<byte>, status: seq<byte>)

  /** `rs_assembler_t`. */
  datatype State = State(pending: Epoch, havePending: bool, lastDone: nat, haveDone: bool)

  datatype Outcome = Outcome(s: State, done: Option<Epoch>)

  datatype Msg = Block(kind: Kind, tow: nat, data: seq<byte>, now: nat) | End(tow: nat) | Ignored

  function Zeros(n: nat): seq<byte> { seq(n, _ => 0) }

  function Fresh(tow: nat, now: nat): Epoch {
    Epoch(Present(false, false, false), tow, now, 0, Zeros(PVT_LEN), Zeros(CLOCK_LEN), Zeros(STATUS_LEN))
  }

  function Initial(): State { State(Fresh(0, 0), false, 0, false) }

  function Merge(e: Epoch, kind: Kind, data: seq<byte>): Epoch {
    match kind
    case PvtKind => e.(pvt := data, present := e.present.(pvt := true))
    case ClockKind => e.(clock := data, present := e.present.(clock := true))
    case StatusKind => e.(status := data, present := e.present.(status := true))
    case OtherKind => e
  }

  /** `rs_assembler_add`. */
  function Add(s: State, kind: Kind, tow: nat, data: seq<byte>, now: nat): Outcome {
    if s.haveDone && tow == s.lastDone then Outcome(s, None)
    else
      var completed := s.havePending && s.pending.tow != tow;
      var t := if completed then s.(havePending := false, lastDone := s.pending.tow, haveDone := true) else s;
      var base := if t.havePending then t.pending else Fresh(tow, now);
      Outcome(t.(pending := Merge(base, kind, data), havePending := true), if completed then Some(s.pending) else None)
  }

  /** `rs_assembler_end`. */
  function Close(s: State, tow: nat): Outcome {
    if !s.havePending || s.pending.tow != tow then Outcome(s, None)
    else Outcome(s.(havePending := false, lastDone := tow, haveDone := true), Some(s.pending))
  }

  function Step(s: State, m: Msg): Outcome {
    match m
    case Block(kind, tow, data, now) => Add(s, kind, tow, data, now)
    case End(tow) => Close(s, tow)
    case Ignored => Outcome(s, None)
  }

  /** The state after the first `n` messages. */
  function After(ms: seq<Msg>, n: nat): State
    requires n <= |ms|
  {
    if n == 0 then Initial() else Step(After(ms, n - 1), ms[n - 1]).s
  }

  /** The epochs completed by the first `n` messages. */
  function Emitted(ms: seq<Msg>, n: nat): seq<Epoch>
    requires n <= |ms|
  {
    if n == 0 then []
    else
      var o := Step(After(ms, n - 1), ms[n - 1]);
      Emitted(ms, n - 1) + (if o.done.Some? then [o.done.value] else [])
  }

  // ----- which epoch a block belongs to, and what that epoch should hold

  /** Message `i` is a block of the epoch just completed: a repeat, and dropped. */
  predicate Dropped(ms: seq<Msg>, i: nat)
    requires i < |ms|
  {
    ms[i].Block? && Emitted(ms, i) != [] && ms[i].tow == Emitted(ms, i)[|Emitted(ms, i)| - 1].tow
  }

  /** Message `i` is a block that counts towards epoch number `k`: `k` epochs are complete after it. */
  predicate Member(ms: seq<Msg>, i: nat, k: nat)
    requires i < |ms|
  {
    ms[i].Block? && !Dropped(ms, i) && |Emitted(ms, i + 1)| == k
  }

  /** The first member of epoch `k` among the first `n` messages. */
  function First(ms: seq<Msg>, n: nat, k: nat): (r: Option<nat>)
    requires n <= |ms|
    ensures r.Some? ==> r.value < n && Member(ms, r.value, k) && forall j :: 0 <= j < r.value ==> !Member(ms, j, k)
    ensures r.None? ==> forall j :: 0 <= j < n ==> !Member(ms, j, k)
  {
    hide *;
    if n == 0 then None
    else
      var r := First(ms, n - 1, k);
      if r.Some? then r else if Member(ms, n - 1, k) then Some(n - 1) else None
  }

  /** Message `i` brings a block of one kind to epoch `k`. */
  predicate Brings(ms: seq<Msg>, i: nat, k: nat, kind: Kind)
    requires i < |ms|
  {
    Member(ms, i, k) && ms[i].kind == kind
  }

  /** The last member of epoch `k` of one kind among the first `n` messages. */
  function Last(ms: seq<Msg>, n: nat, k: nat, kind: Kind): (r: Option<nat>)
    requires n <= |ms|
    ensures r.Some? ==> r.value < n && Brings(ms, r.value, k, kind)
  {
    hide *;
    if n == 0 then None else if Brings(ms, n - 1, k, kind) then Some(n - 1) else Last(ms, n - 1, k, kind)
  }

  /** No member of that kind comes after it. */
  lemma {:induction false} LastIs(ms: seq<Msg>, n: nat, k: nat, kind: Kind, j: nat)
    requires j < n <= |ms| && Brings(ms, j, k, kind)
    ensures Last(ms, n, k, kind).Some? && j <= Last(ms, n, k, kind).value
  {
    hide Brings;
    if j < n - 1 { LastIs(ms, n - 1, k, kind, j); }
  }

  function DataAt(ms: seq<Msg>, at: Option<nat>, len: nat): seq<byte>
    requires at.Some? ==> at.value < |ms| && ms[at.value].Block?
  {
    if at.Some? then ms[at.value].data else Zeros(len)
  }

  /** What epoch `k` should be: the time of week and arrival of its first block, the latest of each kind. */
  function Summary(ms: seq<Msg>, n: nat, k: nat, first: nat): Epoch
    requires n <= |ms| && First(ms, n, k) == Some(first)
  {
    var p, c, s := Last(ms, n, k, PvtKind), Last(ms, n, k, ClockKind), Last(ms, n, k, StatusKind);
    Epoch(Present(p.Some?, c.Some?, s.Some?), ms[first].tow, ms[first].now, 0,
          DataAt(ms, p, PVT_LEN), DataAt(ms, c, CLOCK_LEN), DataAt(ms, s, STATUS_LEN))
  }

  predicate SameTow(ms: seq<Msg>, n: nat, k: nat, tow: nat)
    requires n <= |ms|
  {
    forall i :: 0 <= i < n && Member(ms, i, k) ==> ms[i].tow == tow
  }

  /** `e` is exactly epoch `k` as the first `n` messages define it. */
  predicate Is(ms: seq<Msg>, n: nat, k: nat, e: Epoch)
    requires n <= |ms|
  {
    First(ms, n, k).Some? && e == Summary(ms, n, k, First(ms, n, k).value) && SameTow(ms, n, k, e.tow)
  }

  // ----- the invariant of a run

  predicate Distinct(out: seq<Epoch>) { forall i :: 0 < i < |out| ==> out[i - 1].tow != out[i].tow }

  predicate DoneOK(s: State, out: seq<Epoch>) {
    && (s.haveDone <==> out != [])
    && (s.haveDone ==> s.lastDone == out[|out| - 1].tow)
    && (s.haveDone && s.havePending ==> s.pending.tow != s.lastDone)
    && Distinct(out)
  }

  predicate Holds(ms: seq<Msg>, n: nat, out: seq<Epoch>)
    requires n <= |ms|
  {
    forall k :: 0 <= k < |out| ==> Is(ms, n, k, out[k])
  }

  predicate PendingOK(ms: seq<Msg>, n: nat, s: State, k: nat)
    requires n <= |ms|
  {
    if s.havePending then Is(ms, n, k, s.pending) else First(ms, n, k).None?
  }

  predicate Invariant(ms: seq<Msg>, n: nat)
    requires n <= |ms|
  {
    var s, out := After(ms, n), Emitted(ms, n);
    DoneOK(s, out) && Holds(ms, n, out) && PendingOK(ms, n, s, |out|)
  }

  lemma {:induction false} EmittedGrows(ms: seq<Msg>, i: nat, n: nat)
    requires i <= n <= |ms|
    ensures Emitted(ms, i) <= Emitted(ms, n)
    decreases n
  {
    if i < n { EmittedGrows(ms, i, n - 1); }
  }

  /** Nothing belongs to an epoch that has not begun. */
  lemma NoFuture(ms: seq<Msg>, n: nat, k: nat)
    requires n <= |ms| && k > |Emitted(ms, n)|
    ensures First(ms, n, k).None?
  {
    hide Emitted, Dropped;
    forall j | 0 <= j < n
      ensures !Member(ms, j, k)
    {
      EmittedGrows(ms, j + 1, n);
    }
  }

  lemma NoneLast(ms: seq<Msg>, n: nat, k: nat, kind: Kind)
    requires n <= |ms| && First(ms, n, k).None?
    ensures Last(ms, n, k, kind).None?
  {
    hide Member;
  }

  /** A message outside epoch `k` leaves it as it was. */
  lemma IsSkip(ms: seq<Msg>, n: nat, k: nat, e: Epoch)
    requires n < |ms| && Is(ms, n, k, e) && !Member(ms, n, k)
    ensures Is(ms, n + 1, k, e)
  {
    FirstNext(ms, n, k);
    LastNext(ms, n, k, PvtKind);
    LastNext(ms, n, k, ClockKind);
    LastNext(ms, n, k, StatusKind);
    SameTowNext(ms, n, k, e.tow);
    hide First, Last, SameTow, Member, Zeros;
  }

  /** One more message: the first member, and the last of each kind. */
  lemma FirstNext(ms: seq<Msg>, n: nat, k: nat)
    requires n < |ms|
    ensures First(ms, n + 1, k) ==
      if First(ms, n, k).Some? then First(ms, n, k) else if Member(ms, n, k) then Some(n) else None
  {
    hide Member;
  }

  lemma LastNext(ms: seq<Msg>, n: nat, k: nat, kind: Kind)
    requires n < |ms|
    ensures Last(ms, n + 1, k, kind) == if Brings(ms, n, k, kind) then Some(n) else Last(ms, n, k, kind)
  {
    hide Brings;
  }

  lemma AllNext(ms: seq<Msg>, n: nat, k: nat)
    requires n < |ms| && Member(ms, n, k)
    ensures Last(ms, n + 1, k, PvtKind) == if ms[n].kind == PvtKind then Some(n) else Last(ms, n, k, PvtKind)
    ensures Last(ms, n + 1, k, ClockKind) == if ms[n].kind == ClockKind then Some(n) else Last(ms, n, k, ClockKind)
    ensures Last(ms, n + 1, k, StatusKind) == if ms[n].kind == StatusKind then Some(n) else Last(ms, n, k, StatusKind)
  {
    hide Last;
    LastNext(ms, n, k, PvtKind);
    LastNext(ms, n, k, ClockKind);
    LastNext(ms, n, k, StatusKind);
  }

  lemma SameTowNext(ms: seq<Msg>, n: nat, k: nat, tow: nat)
    requires n < |ms| && (Member(ms, n, k) ==> ms[n].tow == tow)
    ensures SameTow(ms, n, k, tow) ==> SameTow(ms, n + 1, k, tow)
  {
    hide Emitted, Dropped;
  }

  /** A block that joins epoch `k`. */
  lemma IsMerge(ms: seq<Msg>, n: nat, k: nat, e: Epoch)
    requires n < |ms| && Is(ms, n, k, e) && Member(ms, n, k) && ms[n].tow == e.tow
    ensures Is(ms, n + 1, k, Merge(e, ms[n].kind, ms[n].data))
  {
    FirstNext(ms, n, k);
    AllNext(ms, n, k);
    SameTowNext(ms, n, k, e.tow);
    assert ms[n].Block?;
    hide First, Last, SameTow, Member, Zeros;
  }

  /** A block that begins epoch `k`. */
  lemma IsFresh(ms: seq<Msg>, n: nat, k: nat)
    requires n < |ms| && First(ms, n, k).None? && Member(ms, n, k)
    ensures Is(ms, n + 1, k, Merge(Fresh(ms[n].tow, ms[n].now), ms[n].kind, ms[n].data))
  {
    FirstNext(ms, n, k);
    AllNext(ms, n, k);
    NoneLast(ms, n, k, PvtKind);
    NoneLast(ms, n, k, ClockKind);
    NoneLast(ms, n, k, StatusKind);
    SameTowNext(ms, n, k, ms[n].tow);
    assert ms[n].Block? && SameTow(ms, n, k, ms[n].tow);
    hide First, Last, SameTow, Member, Zeros;
  }

  /** Completed epochs are closed: no later message belongs to them. */
  lemma HoldsNext(ms: seq<Msg>, n: nat, out: seq<Epoch>)
    requires n < |ms| && Holds(ms, n, out) && |out| <= |Emitted(ms, n + 1)|
    requires Member(ms, n, |Emitted(ms, n + 1)|) || !ms[n].Block? || Dropped(ms, n)
    ensures Holds(ms, n + 1, out)
  {
    forall k | 0 <= k < |out|
      ensures Is(ms, n + 1, k, out[k])
    {
      assert !Member(ms, n, k);
      hide Is, Emitted, Dropped;
      IsSkip(ms, n, k, out[k]);
    }
  }

  /** A step that completes nothing and keeps nothing. */
  lemma QuietStep(ms: seq<Msg>, n: nat)
    requires n < |ms| && Invariant(ms, n) && (!ms[n].Block? || Dropped(ms, n))
    requires Step(After(ms, n), ms[n]) == Outcome(After(ms, n), None)
    ensures Invariant(ms, n + 1)
  {
    var s, out := After(ms, n), Emitted(ms, n);
    assert After(ms, n + 1) == s && Emitted(ms, n + 1) == out;
    HoldsNext(ms, n, out);
    assert !Member(ms, n, |out|);
    if s.havePending { IsSkip(ms, n, |out|, s.pending); }
    FirstNext(ms, n, |out|);
    hide Is, Holds, First, Member, DoneOK, After, Emitted;
  }

  lemma ExtendHolds(ms: seq<Msg>, n: nat, out: seq<Epoch>, e: Epoch)
    requires n <= |ms| && Holds(ms, n, out) && Is(ms, n, |out|, e)
    ensures Holds(ms, n, out + [e])
  {
    hide Is;
  }

  /** NAV-EOE completes the pending epoch. */
  lemma CloseStep(ms: seq<Msg>, n: nat)
    requires n < |ms| && Invariant(ms, n) && ms[n].End?
    requires After(ms, n).havePending && After(ms, n).pending.tow == ms[n].tow
    ensures Invariant(ms, n + 1)
  {
    hide Is, First, Member, After, Emitted, Holds, DoneOK, Dropped;
    var s, out := After(ms, n), Emitted(ms, n);
    CloseEffect(ms, n);
    NoFuture(ms, n, |out| + 1);
    FirstNext(ms, n, |out| + 1);
    ExtendHolds(ms, n, out, s.pending);
    HoldsNext(ms, n, out + [s.pending]);
    DoneClose(s, out);
  }

  lemma CloseEffect(ms: seq<Msg>, n: nat)
    requires n < |ms| && ms[n].End? && After(ms, n).havePending && After(ms, n).pending.tow == ms[n].tow
    ensures var s := After(ms, n);
            && After(ms, n + 1) == s.(havePending := false, lastDone := s.pending.tow, haveDone := true)
            && Emitted(ms, n + 1) == Emitted(ms, n) + [s.pending]
            && !Member(ms, n, |Emitted(ms, n)| + 1)
  {
  }

  lemma DoneClose(s: State, out: seq<Epoch>)
    requires DoneOK(s, out) && s.havePending
    ensures DoneOK(s.(havePending := false, lastDone := s.pending.tow, haveDone := true), out + [s.pending])
  {
  }

  lemma MergeEffect(ms: seq<Msg>, n: nat)
    requires n < |ms| && DoneOK(After(ms, n), Emitted(ms, n)) && ms[n].Block? && !Dropped(ms, n)
    requires After(ms, n).havePending && After(ms, n).pending.tow == ms[n].tow
    ensures var s, e := After(ms, n), Merge(After(ms, n).pending, ms[n].kind, ms[n].data);
            && After(ms, n + 1) == s.(pending := e) && e.tow == s.pending.tow
            && Emitted(ms, n + 1) == Emitted(ms, n) && Member(ms, n, |Emitted(ms, n)|)
  {
    hide Zeros, Distinct;
  }

  /** A block of the pending epoch. */
  lemma MergeStep(ms: seq<Msg>, n: nat)
    requires n < |ms| && Invariant(ms, n) && ms[n].Block? && !Dropped(ms, n)
    requires After(ms, n).havePending && After(ms, n).pending.tow == ms[n].tow
    ensures Invariant(ms, n + 1)
  {
    hide Is, First, Member, After, Emitted, Dropped, Merge, Holds, Distinct;
    MergeEffect(ms, n);
    HoldsNext(ms, n, Emitted(ms, n));
    IsMerge(ms, n, |Emitted(ms, n)|, After(ms, n).pending);
  }

  /** A block that begins an epoch while none is pending. */
  lemma BeginStep(ms: seq<Msg>, n: nat)
    requires n < |ms| && Invariant(ms, n) && ms[n].Block? && !Dropped(ms, n) && !After(ms, n).havePending
    ensures Invariant(ms, n + 1)
  {
    hide Is, First, Member, After, Emitted, Dropped, Merge, Fresh, Holds, Distinct;
    BeginEffect(ms, n);
    HoldsNext(ms, n, Emitted(ms, n));
    IsFresh(ms, n, |Emitted(ms, n)|);
  }

  lemma BeginEffect(ms: seq<Msg>, n: nat)
    requires n < |ms| && DoneOK(After(ms, n), Emitted(ms, n)) && ms[n].Block? && !Dropped(ms, n)
    requires !After(ms, n).havePending
    ensures var s, e := After(ms, n), Merge(Fresh(ms[n].tow, ms[n].now), ms[n].kind, ms[n].data);
            && After(ms, n + 1) == s.(pending := e, havePending := true) && (s.haveDone ==> e.tow != s.lastDone)
            && Emitted(ms, n + 1) == Emitted(ms, n) && Member(ms, n, |Emitted(ms, n)|)
  {
    hide Zeros, Distinct;
  }

  lemma DoneTurn(s: State, out: seq<Epoch>, e: Epoch)
    requires DoneOK(s, out) && s.havePending && e.tow != s.pending.tow
    ensures DoneOK(State(e, true, s.pending.tow, true), out + [s.pending])
  {
  }

  lemma TurnEffect(ms: seq<Msg>, n: nat)
    requires n < |ms| && DoneOK(After(ms, n), Emitted(ms, n)) && ms[n].Block? && !Dropped(ms, n)
    requires After(ms, n).havePending && After(ms, n).pending.tow != ms[n].tow
    ensures var s, e := After(ms, n), Merge(Fresh(ms[n].tow, ms[n].now), ms[n].kind, ms[n].data);
            && After(ms, n + 1) == State(e, true, s.pending.tow, true) && e.tow == ms[n].tow
            && Emitted(ms, n + 1) == Emitted(ms, n) + [s.pending]
            && Member(ms, n, |Emitted(ms, n)| + 1)
  {
    hide Zeros, Distinct;
  }

  /** A block of another epoch completes the pending one and begins its own. */
  lemma TurnStep(ms: seq<Msg>, n: nat)
    requires n < |ms| && Invariant(ms, n) && ms[n].Block? && !Dropped(ms, n)
    requires After(ms, n).havePending && After(ms, n).pending.tow != ms[n].tow
    ensures Invariant(ms, n + 1)
  {
    hide Is, First, Member, After, Emitted, Dropped, Merge, Fresh, DoneOK, Holds;
    var s, out := After(ms, n), Emitted(ms, n);
    TurnEffect(ms, n);
    NoFuture(ms, n, |out| + 1);
    ExtendHolds(ms, n, out, s.pending);
    HoldsNext(ms, n, out + [s.pending]);
    IsFresh(ms, n, |out| + 1);
    DoneTurn(s, out, Merge(Fresh(ms[n].tow, ms[n].now), ms[n].kind, ms[n].data));
  }

  lemma DroppedIff(ms: seq<Msg>, n: nat)
    requires n < |ms| && Invariant(ms, n) && ms[n].Block?
    ensures Dropped(ms, n) <==> After(ms, n).haveDone && ms[n].tow == After(ms, n).lastDone
  {
  }

  lemma QuietEffect(ms: seq<Msg>, n: nat)
    requires n < |ms| && (ms[n].Block? ==> After(ms, n).haveDone && ms[n].tow == After(ms, n).lastDone)
    requires ms[n].End? ==> !After(ms, n).havePending || After(ms, n).pending.tow != ms[n].tow
    ensures Step(After(ms, n), ms[n]) == Outcome(After(ms, n), None)
  {
    hide After, Merge, Fresh;
  }

  lemma InvariantNext(ms: seq<Msg>, n: nat)
    requires n < |ms| && Invariant(ms, n)
    ensures Invariant(ms, n + 1)
  {
    hide Invariant, Dropped, After, Emitted, Step;
    var s, m := After(ms, n), ms[n];
    if m.Block? {
      DroppedIff(ms, n);
      if Dropped(ms, n) {
        QuietEffect(ms, n);
        QuietStep(ms, n);
      } else if !s.havePending {
        BeginStep(ms, n);
      } else if s.pending.tow == m.tow {
        MergeStep(ms, n);
      } else {
        TurnStep(ms, n);
      }
    } else if m.End? && s.havePending && s.pending.tow == m.tow {
      CloseStep(ms, n);
    } else {
      QuietEffect(ms, n);
      QuietStep(ms, n);
    }
  }

  /** The invariant holds along every run. */
  lemma {:induction false} InvariantAlways(ms: seq<Msg>, n: nat)
    requires n <= |ms|
    ensures Invariant(ms, n)
  {
    hide *;
    if n == 0 {
      InvariantStart(ms);
    } else {
      InvariantAlways(ms, n - 1);
      InvariantNext(ms, n - 1);
    }
  }

  lemma InvariantStart(ms: seq<Msg>)
    ensures Invariant(ms, 0)
  {
  }

  /** The epoch that holds number `k`: a completed one, or the pending one. */
  function Holder(ms: seq<Msg>, n: nat, k: nat): Epoch
    requires n <= |ms| && k <= |Emitted(ms, n)|
  {
    if k < |Emitted(ms, n)| then Emitted(ms, n)[k] else After(ms, n).pending
  }

  predicate Has(e: Epoch, kind: Kind) {
    match kind
    case PvtKind => e.present.pvt
    case ClockKind => e.present.clock
    case StatusKind => e.present.status
    case OtherKind => false
  }

  function Data(e: Epoch, kind: Kind): seq<byte> {
    match kind
    case PvtKind => e.pvt
    case ClockKind => e.clock
    case StatusKind => e.status
    case OtherKind => []
  }

  /** Epoch `e` carries block `i`, or a later block of the same kind and epoch that superseded it. */
  predicate CarriedFrom(ms: seq<Msg>, n: nat, k: nat, i: nat, e: Epoch)
    requires i < n <= |ms| && ms[i].Block?
  {
    && Has(e, ms[i].kind)
    && exists l :: i <= l < n && Brings(ms, l, k, ms[i].kind) && Data(e, ms[i].kind) == ms[l].data
  }

  /** Message `n` ends the open epoch: an end-of-epoch message that names its time of week, or a block that is no
      repeat and has another one. */
  predicate Ends(ms: seq<Msg>, n: nat)
    requires n < |ms|
  {
    exists i :: 0 <= i < n && Member(ms, i, |Emitted(ms, n)|) &&
      if ms[n].End? then ms[n].tow == ms[i].tow else ms[n].Block? && !Dropped(ms, n) && ms[n].tow != ms[i].tow
  }

  /** An epoch is completed at exactly those messages, one at a time. */
  lemma CompletesIff(ms: seq<Msg>, n: nat)
    requires n < |ms|
    ensures |Emitted(ms, n + 1)| == |Emitted(ms, n)| + if Ends(ms, n) then 1 else 0
  {
    hide Invariant, Dropped, After, Emitted, Step, Member, First, Is;
    InvariantAlways(ms, n);
    DoneHolds(ms, n);
    EndsPending(ms, n);
    var s, m := After(ms, n), ms[n];
    if m.Block? {
      DroppedIff(ms, n);
      if Dropped(ms, n) {
        QuietCount(ms, n);
      } else if !s.havePending {
        BeginEffect(ms, n);
      } else if s.pending.tow == m.tow {
        MergeEffect(ms, n);
      } else {
        TurnEffect(ms, n);
      }
    } else if m.End? && s.havePending && s.pending.tow == m.tow {
      CloseEffect(ms, n);
    } else {
      QuietCount(ms, n);
    }
  }

  lemma DoneHolds(ms: seq<Msg>, n: nat)
    requires n <= |ms| && Invariant(ms, n)
    ensures DoneOK(After(ms, n), Emitted(ms, n)) && PendingOK(ms, n, After(ms, n), |Emitted(ms, n)|)
  {
    hide DoneOK, PendingOK, Holds, After, Emitted;
  }

  /** A step that changes nothing completes nothing. */
  lemma QuietCount(ms: seq<Msg>, n: nat)
    requires n < |ms| && (ms[n].Block? ==> After(ms, n).haveDone && ms[n].tow == After(ms, n).lastDone)
    requires ms[n].End? ==> !After(ms, n).havePending || After(ms, n).pending.tow != ms[n].tow
    ensures Emitted(ms, n + 1) == Emitted(ms, n)
  {
    QuietEffect(ms, n);
  }

  /** The open epoch is the pending one. */
  lemma EndsPending(ms: seq<Msg>, n: nat)
    requires n < |ms| && PendingOK(ms, n, After(ms, n), |Emitted(ms, n)|)
    ensures var s := After(ms, n);
            Ends(ms, n) <==>
              && s.havePending
              && if ms[n].End? then ms[n].tow == s.pending.tow
                 else ms[n].Block? && !Dropped(ms, n) && ms[n].tow != s.pending.tow
  {
    hide After, Emitted, Dropped, Member, Last;
    var s, k := After(ms, n), |Emitted(ms, n)|;
    var f := First(ms, n, k);
    if s.havePending {
      PendingMembers(ms, n, k, s.pending);
    }
  }

  lemma PendingMembers(ms: seq<Msg>, n: nat, k: nat, e: Epoch)
    requires n <= |ms| && Is(ms, n, k, e)
    ensures exists i :: 0 <= i < n && Member(ms, i, k)
    ensures forall i :: 0 <= i < n && Member(ms, i, k) ==> ms[i].Block? && ms[i].tow == e.tow
  {
    hide Emitted, Dropped, Last;
    var f := First(ms, n, k);
    assert Member(ms, f.value, k);
  }

  /** Epoch assembly partitions the stream: every completed epoch is exactly what its members define,
      its members share its time of week, and no two consecutive epochs share one. */
  lemma Partition(ms: seq<Msg>, n: nat)
    requires n <= |ms|
    ensures Holds(ms, n, Emitted(ms, n)) && Distinct(Emitted(ms, n))
    ensures After(ms, n).havePending ==> Is(ms, n, |Emitted(ms, n)|, After(ms, n).pending)
  {
    InvariantAlways(ms, n);
    hide Is, Holds, After, Emitted, Distinct;
  }

  /** The fate of every block that is not a dropped repeat: it is a member of one epoch `k`, completed or
      pending, with that epoch's time of week; there it is carried, or superseded by a later one of its kind. */
  lemma Fate(ms: seq<Msg>, n: nat, i: nat, k: nat)
    requires i < n <= |ms| && ms[i].Block? && !Dropped(ms, i) && k == |Emitted(ms, i + 1)|
    ensures Member(ms, i, k) && k <= |Emitted(ms, n)| && (k == |Emitted(ms, n)| ==> After(ms, n).havePending)
    ensures Holder(ms, n, k).tow == ms[i].tow
    ensures ms[i].kind != OtherKind ==> CarriedFrom(ms, n, k, i, Holder(ms, n, k))
  {
    hide *;
    Joins(ms, i, k);
    EmittedGrows(ms, i + 1, n);
    HolderIs(ms, n, k, i);
    Carried(ms, n, k, i, Holder(ms, n, k));
  }

  /** A block that is not dropped joins the epoch that is open after it. */
  lemma Joins(ms: seq<Msg>, i: nat, k: nat)
    requires i < |ms| && ms[i].Block? && !Dropped(ms, i) && k == |Emitted(ms, i + 1)|
    ensures Member(ms, i, k) && Brings(ms, i, k, ms[i].kind)
  {
    hide Emitted, Dropped;
  }

  /** An epoch with a member is held. */
  lemma HolderIs(ms: seq<Msg>, n: nat, k: nat, i: nat)
    requires i < n <= |ms| && Member(ms, i, k) && k <= |Emitted(ms, n)|
    ensures Is(ms, n, k, Holder(ms, n, k)) && (k == |Emitted(ms, n)| ==> After(ms, n).havePending)
  {
    hide Is, Member, After, Emitted, DoneOK;
    InvariantAlways(ms, n);
  }

  lemma Carried(ms: seq<Msg>, n: nat, k: nat, i: nat, e: Epoch)
    requires i < n <= |ms| && Is(ms, n, k, e) && ms[i].Block? && Brings(ms, i, k, ms[i].kind)
    ensures e.tow == ms[i].tow
    ensures ms[i].kind != OtherKind ==> CarriedFrom(ms, n, k, i, e)
  {
    hide Member, First, Last, SameTow, Zeros;
    var kind := ms[i].kind;
    CarriedTow(ms, n, k, i, e.tow);
    LastIs(ms, n, k, kind, i);
    var l := Last(ms, n, k, kind);
    BringsBlock(ms, l.value, k, kind);
    assert kind != OtherKind ==> Data(e, kind) == ms[l.value].data;
  }

  lemma BringsBlock(ms: seq<Msg>, i: nat, k: nat, kind: Kind)
    requires i < |ms| && Brings(ms, i, k, kind)
    ensures ms[i].Block?
  {
    hide Emitted, Dropped;
  }

  lemma CarriedTow(ms: seq<Msg>, n: nat, k: nat, i: nat, tow: nat)
    requires i < n <= |ms| && SameTow(ms, n, k, tow) && ms[i].Block? && Brings(ms, i, k, ms[i].kind)
    ensures ms[i].tow == tow
  {
    hide Emitted, Dropped;
  }
}
