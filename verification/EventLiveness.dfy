/**
 How far a history of arrivals gets
 (src/middleware/webhookEventOrdering.ts).
 */
module EventLiveness {
  import opened EventLine
  import opened Sequences

  // ----- how far a history gets -----

  function Arrived(ops: seq<Op>): set<int> {
    set op | op in ops && op.Arrive? :: op.event.sequence
  }

  /** Numbers of which one may be due while the other waits have different ids. */
  ghost predicate Apart(ids: Ids) {
    forall m, n :: 1 <= m && m + 2 <= n ==> ids(m) != ids(n)
  }

  function Pending(buffer: seq<Event>): set<int> {
    set e | e in buffer :: e.sequence
  }

  /** Nothing that arrived is lost: it is delivered or still buffered behind a gap. */
  ghost predicate NothingLost(line: Line, arrived: set<int>) {
    && (forall n :: 0 <= n <= line.last ==> n in arrived)
    && line.last + 1 !in arrived
    && Pending(line.buffer) == set n | n in arrived && n > line.last
  }

  lemma ArrivedAppend(ops: seq<Op>, op: Op)
    ensures Arrived(ops + [op]) == Arrived(ops) + SequencesIn(op)
  {
    forall n | n in Arrived(ops + [op])
      ensures n in Arrived(ops) + SequencesIn(op)
    {
      var o :| o in ops + [op] && o.Arrive? && o.event.sequence == n;
      if o in ops { assert n in Arrived(ops); }
    }
    forall n | n in Arrived(ops) + SequencesIn(op)
      ensures n in Arrived(ops + [op])
    {
      if n in Arrived(ops) {
        var o :| o in ops && o.Arrive? && o.event.sequence == n;
        assert o in ops + [op];
      } else {
        assert op in ops + [op];
      }
    }
  }

  lemma PendingOf(buffer: seq<Event>, e: Event, buffer': seq<Event>)
    requires forall x :: x in buffer' <==> x in buffer + [e]
    ensures Pending(buffer') == Pending(buffer) + {e.sequence}
  {
    forall n | n in Pending(buffer) + {e.sequence} ensures n in Pending(buffer') {
      if n == e.sequence {
        assert e in buffer';
      } else {
        var x :| x in buffer && x.sequence == n;
        assert x in buffer';
      }
    }
  }

  lemma LeftoverPending(buffer: seq<Event>, first: int, due: seq<Event>, ids: Ids)
    requires Labelled(buffer, ids, 1) && Labelled(due, ids, 1) && Apart(ids)
    requires forall i :: 0 <= i < |due| ==> due[i].sequence == first + i
    requires first >= 1 && forall e :: e in buffer ==> e.sequence >= first && e.sequence != first + |due|
    ensures Pending(Without(buffer, due)) == set n | n in Pending(buffer) && n >= first + |due|
  {
    var rest := Without(buffer, due);
    FilterMembers(buffer, (x: Event) => !HasId(due, x.id));
    forall x | x in buffer ensures x in rest <==> x.sequence >= first + |due| {
      if x.sequence > first + |due| {
        UncoveredKeepsId(due, first, x, ids);
      } else {
        CoveredHasId(due, first, x, ids, 1);
      }
    }
    forall n | n in Pending(buffer) && n >= first + |due| ensures n in Pending(rest) {
      var x :| x in buffer && x.sequence == n;
      assert x in rest;
    }
  }

  /** Draining takes out of the buffer exactly the sequence numbers it delivers. */
  lemma DrainTakesTheRun(cfg: Config, line: Line, ids: Ids)
    requires LineOk(cfg, line, ids, 1) && Apart(ids)
    ensures var (due, next) := Mark(line, line.last + 1);
            Pending(next.buffer) == set n | n in Pending(line.buffer) && n > line.last + 1 + |due|
  {
    var due := Run(line.buffer, line.last + 2);
    RunIsConsecutive(line.buffer, line.last + 2);
    LeftoverPending(line.buffer, line.last + 2, due, ids);
  }

  lemma RunIsPending(buffer: seq<Event>, expected: int)
    requires Sorted(buffer)
    ensures var run := Run(buffer, expected);
            && (forall n :: expected <= n < expected + |run| ==> n in Pending(buffer))
            && expected + |run| !in Pending(buffer)
  {
    var run := Run(buffer, expected);
    RunIsConsecutive(buffer, expected);
    forall n | expected <= n < expected + |run| ensures n in Pending(buffer) {
      assert run[n - expected] in run;
    }
  }

  lemma UncoveredKeepsId(due: seq<Event>, first: int, x: Event, ids: Ids)
    requires forall i :: 0 <= i < |due| ==> due[i].sequence == first + i
    requires Labelled(due, ids, 1) && Named(x, ids, 1) && Apart(ids)
    requires first >= 1 && x.sequence > first + |due|
    ensures !HasId(due, x.id)
  {
    forall d | d in due ensures d.id != x.id {
      var i :| 0 <= i < |due| && due[i] == d;
      assert ids(d.sequence) != ids(x.sequence);
    }
  }

  lemma DrainLosesNothing(cfg: Config, line: Line, e: Event, now: int, arrived: set<int>, ids: Ids)
    requires LineOk(cfg, line, ids, 1) && Apart(ids) && NothingLost(line, arrived)
    requires e.sequence == line.last + 1
    ensures var next := Receive(cfg, line, e, now).1;
            && NothingLost(next, arrived + {e.sequence})
            && |next.buffer| <= |line.buffer|
            && forall x :: x in next.buffer ==> x in line.buffer
  {
    var (due, marked) := Mark(line, line.last + 1);
    MarkNext(cfg, line, ids, 1);
    ReceiveNext(cfg, line, e, now, ids, 1);
    DrainTakesTheRun(cfg, line, ids);
    RunIsPending(line.buffer, line.last + 2);
    FilterIsShorter(line.buffer, (x: Event) => !HasId(due, x.id));
    RunArrived(line, arrived, |due|, marked.buffer);
  }

  lemma RunArrived(line: Line, arrived: set<int>, k: nat, rest: seq<Event>)
    requires NothingLost(line, arrived)
    requires forall n :: line.last + 2 <= n < line.last + 2 + k ==> n in Pending(line.buffer)
    requires line.last + 2 + k !in Pending(line.buffer)
    requires Pending(rest) == set n | n in Pending(line.buffer) && n > line.last + 1 + k
    ensures NothingLost(Line(line.last + 1 + k, rest), arrived + {line.last + 1})
  {
    var last := line.last + 1 + k;
    assert forall n :: n in Pending(line.buffer) <==> n in arrived && n > line.last;
    forall n ensures n in Pending(rest) <==> n in arrived + {line.last + 1} && n > last {
    }
  }

  lemma BufferLosesNothing(line: Line, e: Event, arrived: set<int>)
    requires NothingLost(line, arrived) && e.sequence > line.last + 1
    ensures NothingLost(line.(buffer := SortBySequence(line.buffer + [e])), arrived + {e.sequence})
    ensures |SortBySequence(line.buffer + [e])| == |line.buffer| + 1
    ensures forall x :: x in SortBySequence(line.buffer + [e]) ==> x in line.buffer || x == e
  {
    SortBySequenceSorts(line.buffer + [e]);
    PendingOf(line.buffer, e, SortBySequence(line.buffer + [e]));
  }

  lemma StaleLosesNothing(line: Line, n: int, arrived: set<int>)
    requires NothingLost(line, arrived) && line.last >= -1 && n <= line.last
    ensures n >= 0 ==> arrived + {n} == arrived
    ensures NothingLost(line, arrived + {n})
  {
  }

  function SequencesIn(op: Op): set<int> {
    if op.Arrive? then {op.event.sequence} else {}
  }

  // ----- room at every step -----

  /**
   What the tracker needs at a step: room and youth for an early arrival, and nothing too
   old in the buffer when it is swept. Other arrivals never touch the buffer.
   */
  ghost predicate RoomAt(cfg: Config, line: Line, op: Op) {
    match op
    case Arrive(e, now) =>
      e.sequence > line.last + 1 ==> !cfg.strict && |line.buffer| < cfg.maxBuffer && !TooOld(cfg, e, now)
    case Sweep(now) => forall e :: e in line.buffer ==> !TooOld(cfg, e, now)
  }

  ghost predicate RoomThroughout(cfg: Config, ops: seq<Op>) {
    ops == [] ||
    var init, op := ops[..|ops| - 1], ops[|ops| - 1];
    RoomThroughout(cfg, init) && RoomAt(cfg, History(cfg, init).1, op)
  }

  lemma StepLosesNothing(cfg: Config, line: Line, op: Op, arrived: set<int>, ids: Ids)
    requires LineOk(cfg, line, ids, 1) && Apart(ids) && NothingLost(line, arrived) && RoomAt(cfg, line, op)
    ensures NothingLost(Step(cfg, line, op).1, arrived + SequencesIn(op))
  {
    match op
    case Sweep(now) =>
      FilterMembers(line.buffer, (e: Event) => !TooOld(cfg, e, now));
      assert Step(cfg, line, op).1 == line;
      assert arrived + {} == arrived;
    case Arrive(e, now) =>
      if e.sequence == line.last + 1 {
        DrainLosesNothing(cfg, line, e, now, arrived, ids);
      } else if e.sequence > line.last + 1 {
        BufferLosesNothing(line, e, arrived);
        ReceiveOther(cfg, line, e, now);
      } else {
        StaleLosesNothing(line, e.sequence, arrived);
        ReceiveOther(cfg, line, e, now);
      }
  }

  /**
   With room at every step, a history gets exactly as far as the first sequence number
   that has not arrived, and everything beyond it is still buffered.
   */
  lemma {:induction false} ReachesFirstMissing(cfg: Config, ops: seq<Op>, ids: Ids)
    requires OpsLabelled(ops, ids, 1) && Apart(ids) && RoomThroughout(cfg, ops)
    ensures Gapless(cfg, History(cfg, ops), ids, 1)
    ensures NothingLost(History(cfg, ops).1, Arrived(ops))
  {
    DeliveredIsGapless(cfg, ops, ids, 1);
    if ops != [] {
      var init, op := ops[..|ops| - 1], ops[|ops| - 1];
      assert ops == init + [op];
      ReachesFirstMissing(cfg, init, ids);
      StepLosesNothing(cfg, History(cfg, init).1, op, Arrived(init), ids);
      ArrivedAppend(init, op);
    }
  }

  // ----- exactly when nothing is lost -----

  // The waiting numbers of which a young event is buffered.
  function YoungPending(cfg: Config, buffer: seq<Event>, now: int): set<int> {
    set e | e in buffer && !TooOld(cfg, e, now) :: e.sequence
  }

  /** Room is not needed for a number that waits already, nor youth where a younger event of the number stays. */
  ghost predicate Takes(cfg: Config, line: Line, op: Op) {
    match op
    case Arrive(e, now) => RoomAt(cfg, line, op) || e.sequence in Pending(line.buffer)
    case Sweep(now) => Pending(line.buffer) == YoungPending(cfg, line.buffer, now)
  }

  lemma SweepKeepsYoung(cfg: Config, line: Line, now: int)
    ensures Pending(Step(cfg, line, Sweep(now)).1.buffer) == YoungPending(cfg, line.buffer, now)
    ensures Step(cfg, line, Sweep(now)).1.last == line.last
  {
    FilterMembers(line.buffer, (e: Event) => !TooOld(cfg, e, now));
  }

  lemma StepLosesNothingIff(cfg: Config, line: Line, op: Op, arrived: set<int>, ids: Ids)
    requires LineOk(cfg, line, ids, 1) && Apart(ids) && NothingLost(line, arrived)
    ensures NothingLost(Step(cfg, line, op).1, arrived + SequencesIn(op)) <==> Takes(cfg, line, op)
  {
    if op.Sweep? {
      SweepKeepsYoung(cfg, line, op.now);
      assert arrived + {} == arrived;
    } else if RoomAt(cfg, line, op) {
      StepLosesNothing(cfg, line, op, arrived, ids);
    } else {
      RefusedStep(cfg, line, op);
      assert op.event.sequence in arrived ==> arrived + {op.event.sequence} == arrived;
    }
  }

  lemma RefusedStep(cfg: Config, line: Line, op: Op)
    requires op.Arrive? && !RoomAt(cfg, line, op)
    ensures op.event.sequence > line.last + 1 && Step(cfg, line, op) == ([], line)
  {
    ReceiveOther(cfg, line, op.event, op.now);
  }

  ghost predicate TakesThroughout(cfg: Config, ops: seq<Op>) {
    ops == [] ||
    var init, op := ops[..|ops| - 1], ops[|ops| - 1];
    TakesThroughout(cfg, init) && Takes(cfg, History(cfg, init).1, op)
  }

  // At no time is anything lost.
  ghost predicate NothingEverLost(cfg: Config, ops: seq<Op>) {
    NothingLost(History(cfg, ops).1, Arrived(ops)) && (ops == [] || NothingEverLost(cfg, ops[..|ops| - 1]))
  }

  /** Over every history nothing is ever lost if and only if each arrival is taken and each sweep leaves a copy. */
  lemma {:induction false} NothingEverLostIff(cfg: Config, ops: seq<Op>, ids: Ids)
    requires OpsLabelled(ops, ids, 1) && Apart(ids)
    ensures NothingEverLost(cfg, ops) <==> TakesThroughout(cfg, ops)
  {
    if ops != [] {
      var init, op := ops[..|ops| - 1], ops[|ops| - 1];
      assert ops == init + [op];
      NothingEverLostIff(cfg, init, ids);
      DeliveredIsGapless(cfg, init, ids, 1);
      ArrivedAppend(init, op);
      if NothingEverLost(cfg, init) {
        StepLosesNothingIff(cfg, History(cfg, init).1, op, Arrived(init), ids);
      }
    }
  }

  // ----- the same condition on the arrivals alone -----

  /** The first number, from the given one on, that has not arrived. */
  function FirstMissing(arrived: set<int>, from: nat): (f: nat)
    ensures from <= f && f !in arrived && forall n :: from <= n < f ==> n in arrived
    decreases |arrived|
  {
    if from in arrived then
      var others := arrived - {from};
      var f := FirstMissing(others, from + 1);
      assert forall n :: from < n < f ==> n in others;
      assert forall n :: n in others ==> n in arrived;
      f
    else from
  }

  /** The arrivals beyond a number, in the order in which they came. */
  function Beyond(ops: seq<Op>, f: int): seq<Event> {
    if ops == [] then []
    else
      var init, op := ops[..|ops| - 1], ops[|ops| - 1];
      if op.Arrive? && op.event.sequence > f then Beyond(init, f) + [op.event] else Beyond(init, f)
  }

  /**
   What an operation asks of the arrivals before it: an event beyond the first gap must be
   young, with fewer than maxBuffer others waiting beyond the gap; a sweep must find every
   waiting one young.
   */
  ghost predicate FitsAfter(cfg: Config, before: seq<Op>, op: Op) {
    var gap := FirstMissing(Arrived(before), 0);
    match op
    case Arrive(e, now) =>
      e.sequence > gap ==> !cfg.strict && |Beyond(before, gap)| < cfg.maxBuffer && !TooOld(cfg, e, now)
    case Sweep(now) => forall e :: e in Beyond(before, gap) ==> !TooOld(cfg, e, now)
  }

  ghost predicate ArrivalsFit(cfg: Config, ops: seq<Op>) {
    ops == [] ||
    var init, op := ops[..|ops| - 1], ops[|ops| - 1];
    ArrivalsFit(cfg, init) && FitsAfter(cfg, init, op)
  }

  // The buffer holds exactly the arrivals beyond the gap.
  ghost predicate HoldsBeyond(line: Line, ops: seq<Op>) {
    multiset(line.buffer) == multiset(Beyond(ops, line.last + 1))
  }

  ghost predicate Exact(line: Line, ops: seq<Op>) {
    NothingLost(line, Arrived(ops)) && line.last >= -1 && HoldsBeyond(line, ops)
  }

  lemma GapIsNext(line: Line, ops: seq<Op>)
    requires Exact(line, ops)
    ensures FirstMissing(Arrived(ops), 0) == line.last + 1
  {
    var gap := FirstMissing(Arrived(ops), 0);
    assert gap <= line.last ==> gap in Arrived(ops);
    assert line.last + 1 < gap ==> line.last + 1 in Arrived(ops);
  }

  lemma BeyondAppend(ops: seq<Op>, op: Op, f: int)
    ensures Beyond(ops + [op], f) ==
      if op.Arrive? && op.event.sequence > f then Beyond(ops, f) + [op.event] else Beyond(ops, f)
  {
    assert (ops + [op])[..|ops|] == ops;
  }

  lemma {:induction false} FilterCount(events: seq<Event>, keep: Event -> bool, x: Event)
    ensures multiset(Filter(events, keep))[x] == if keep(x) then multiset(events)[x] else 0
  {
    if events != [] {
      FilterCount(events[1..], keep, x);
      assert events == [events[0]] + events[1..];
    }
  }

  lemma {:induction false} BeyondFarther(ops: seq<Op>, f: int, g: int, x: Event)
    requires f <= g
    ensures multiset(Beyond(ops, g))[x] == if x.sequence > g then multiset(Beyond(ops, f))[x] else 0
  {
    if ops != [] {
      BeyondFarther(ops[..|ops| - 1], f, g, x);
    }
  }

  lemma DrainIsExact(cfg: Config, line: Line, op: Op, ops: seq<Op>, ids: Ids)
    requires LineOk(cfg, line, ids, 1) && Apart(ids) && Exact(line, ops)
    requires op.Arrive? && op.event.sequence == line.last + 1
    ensures HoldsBeyond(Step(cfg, line, op).1, ops + [op])
  {
    var (due, marked) := Mark(line, line.last + 1);
    ReceiveNext(cfg, line, op.event, op.now, ids, 1);
    MarkNext(cfg, line, ids, 1);
    var f, g := line.last + 1, line.last + 2 + |due|;
    BeyondAppend(ops, op, g);
    forall x: Event ensures multiset(marked.buffer)[x] == multiset(Beyond(ops, g))[x] {
      BeyondFarther(ops, f, g, x);
      KeptAfterDrain(cfg, line, due, x, ids);
    }
  }

  // An event stays in the buffer exactly if it lies beyond what is drained.
  lemma KeptAfterDrain(cfg: Config, line: Line, due: seq<Event>, x: Event, ids: Ids)
    requires LineOk(cfg, line, ids, 1) && Apart(ids) && due == Run(line.buffer, line.last + 2)
    ensures multiset(Without(line.buffer, due))[x] ==
      if x.sequence > line.last + 2 + |due| then multiset(line.buffer)[x] else 0
  {
    var first := line.last + 2;
    RunIsConsecutive(line.buffer, first);
    FilterCount(line.buffer, (e: Event) => !HasId(due, e.id), x);
    if x in line.buffer {
      if x.sequence > first + |due| {
        UncoveredKeepsId(due, first, x, ids);
      } else {
        CoveredHasId(due, first, x, ids, 1);
      }
    } else {
      assert multiset(line.buffer)[x] == 0;
    }
  }

  lemma BufferIsExact(cfg: Config, line: Line, e: Event, now: int, ops: seq<Op>)
    requires HoldsBeyond(line, ops) && e.sequence > line.last + 1 && RoomAt(cfg, line, Arrive(e, now))
    ensures HoldsBeyond(Step(cfg, line, Arrive(e, now)).1, ops + [Arrive(e, now)])
  {
    ReceiveOther(cfg, line, e, now);
    OneMoreBeyond(line, e, now, ops);
  }

  lemma OneMoreBeyond(line: Line, e: Event, now: int, ops: seq<Op>)
    requires HoldsBeyond(line, ops) && e.sequence > line.last + 1
    ensures HoldsBeyond(line.(buffer := SortBySequence(line.buffer + [e])), ops + [Arrive(e, now)])
  {
    BeyondAppend(ops, Arrive(e, now), line.last + 1);
    SortBySequenceSorts(line.buffer + [e]);
    hide SortBySequence;
    assert multiset(line.buffer + [e]) == multiset(line.buffer) + multiset{e};
    assert multiset(Beyond(ops, line.last + 1) + [e]) == multiset(Beyond(ops, line.last + 1)) + multiset{e};
  }

  // A stale arrival, and a sweep that finds everything young.
  lemma QuietStep(cfg: Config, line: Line, op: Op)
    requires RoomAt(cfg, line, op) && (op.Arrive? ==> op.event.sequence <= line.last)
    ensures Step(cfg, line, op) == ([], line)
  {
    match op
    case Sweep(now) => FilterMembers(line.buffer, (e: Event) => !TooOld(cfg, e, now));
    case Arrive(e, now) => ReceiveOther(cfg, line, e, now);
  }

  lemma StepHoldsBeyond(cfg: Config, line: Line, op: Op, ops: seq<Op>, ids: Ids)
    requires LineOk(cfg, line, ids, 1) && Apart(ids) && Exact(line, ops) && RoomAt(cfg, line, op)
    ensures HoldsBeyond(Step(cfg, line, op).1, ops + [op])
  {
    hide Step, LineOk, NothingLost, HoldsBeyond, Apart;
    if op.Arrive? && op.event.sequence == line.last + 1 {
      DrainIsExact(cfg, line, op, ops, ids);
    } else if op.Arrive? && op.event.sequence > line.last + 1 {
      BufferIsExact(cfg, line, op.event, op.now, ops);
    } else {
      QuietIsExact(cfg, line, op, ops);
    }
  }

  lemma QuietIsExact(cfg: Config, line: Line, op: Op, ops: seq<Op>)
    requires Exact(line, ops) && RoomAt(cfg, line, op) && (op.Arrive? ==> op.event.sequence <= line.last)
    ensures HoldsBeyond(Step(cfg, line, op).1, ops + [op])
  {
    QuietStep(cfg, line, op);
    hide Step, RoomAt, NothingLost;
    BeyondAppend(ops, op, line.last + 1);
  }

  lemma StepIsExact(cfg: Config, line: Line, op: Op, ops: seq<Op>, ids: Ids)
    requires LineOk(cfg, line, ids, 1) && Apart(ids) && Exact(line, ops) && RoomAt(cfg, line, op)
    requires Step(cfg, line, op).1.last >= -1
    ensures Exact(Step(cfg, line, op).1, ops + [op])
  {
    hide Step, LineOk, RoomAt, NothingLost, HoldsBeyond, Arrived, Apart;
    StepLosesNothing(cfg, line, op, Arrived(ops), ids);
    ArrivedAppend(ops, op);
    StepHoldsBeyond(cfg, line, op, ops, ids);
  }

  lemma RoomIsFit(cfg: Config, line: Line, ops: seq<Op>, op: Op)
    requires Exact(line, ops)
    ensures RoomAt(cfg, line, op) <==> FitsAfter(cfg, ops, op)
  {
    GapIsNext(line, ops);
    var waiting := Beyond(ops, line.last + 1);
    assert |line.buffer| == |multiset(line.buffer)| == |multiset(waiting)| == |waiting|;
    assert forall e :: e in line.buffer <==> e in multiset(line.buffer);
    assert forall e :: e in waiting <==> e in multiset(waiting);
  }

  /** The tracker has room at every step exactly if the arrivals alone say so. */
  lemma {:induction false} RoomIffArrivalsFit(cfg: Config, ops: seq<Op>, ids: Ids)
    requires OpsLabelled(ops, ids, 1) && Apart(ids)
    ensures RoomThroughout(cfg, ops) <==> ArrivalsFit(cfg, ops)
    ensures RoomThroughout(cfg, ops) ==> Exact(History(cfg, ops).1, ops)
  {
    DeliveredIsGapless(cfg, ops, ids, 1);
    if ops == [] {
      assert Exact(FRESH, []);
    } else {
      var init, op := ops[..|ops| - 1], ops[|ops| - 1];
      assert ops == init + [op];
      RoomIffArrivalsFit(cfg, init, ids);
      DeliveredIsGapless(cfg, init, ids, 1);
      if RoomThroughout(cfg, init) {
        RoomIsFit(cfg, History(cfg, init).1, init, op);
        if RoomAt(cfg, History(cfg, init).1, op) {
          StepIsExact(cfg, History(cfg, init).1, op, init, ids);
        }
      }
    }
  }

  /**
   Events 0..n-1 in any order, each any number of times, in any time: if the early ones
   fit, all are delivered in order and nothing remains.
   */
  lemma AnyOrderDeliversAll(cfg: Config, ops: seq<Op>, ids: Ids, n: nat)
    requires OpsLabelled(ops, ids, 1) && Apart(ids) && ArrivalsFit(cfg, ops)
    requires forall k :: k in Arrived(ops) <==> 0 <= k < n
    ensures History(cfg, ops) == (From(0, n), Line(n - 1, []))
  {
    RoomIffArrivalsFit(cfg, ops, ids);
    ReachesFirstMissing(cfg, ops, ids);
    var line := History(cfg, ops).1;
    EverythingArrived(line, Arrived(ops), n);
    NonEmptyIsPending(line.buffer);
  }

  // Arrival k carries number k, and nothing else happens.
  ghost predicate InOrder(ops: seq<Op>) {
    forall k :: 0 <= k < |ops| ==> ops[k].Arrive? && ops[k].event.sequence == k
  }

  /** A stream that arrives in order fits whatever the buffer size, the waiting time and the mode. */
  lemma {:induction false} InOrderFits(cfg: Config, ops: seq<Op>)
    requires InOrder(ops)
    ensures ArrivalsFit(cfg, ops)
    ensures forall n :: n in Arrived(ops) <==> 0 <= n < |ops|
  {
    if ops != [] {
      var init, op := ops[..|ops| - 1], ops[|ops| - 1];
      assert forall k :: 0 <= k < |init| ==> init[k] == ops[k];
      InOrderFits(cfg, init);
      hide ArrivalsFit, Arrived;
      assert ops == init + [op];
      ArrivedAppend(init, op);
      GapOf(Arrived(init), |init|);
      NoGapFits(cfg, init, op);
    }
  }

  lemma GapOf(arrived: set<int>, n: nat)
    requires forall k :: k in arrived <==> 0 <= k < n
    ensures FirstMissing(arrived, 0) == n
  {
    var gap := FirstMissing(arrived, 0);
    assert gap !in arrived;
    assert n < gap ==> n in arrived;
  }

  lemma NoGapFits(cfg: Config, before: seq<Op>, op: Op)
    requires ArrivalsFit(cfg, before) && op.Arrive? && op.event.sequence == FirstMissing(Arrived(before), 0)
    ensures ArrivalsFit(cfg, before + [op])
  {
    assert (before + [op])[..|before|] == before;
  }

  lemma EverythingArrived(line: Line, arrived: set<int>, n: nat)
    requires NothingLost(line, arrived) && line.last >= -1
    requires forall k :: k in arrived <==> 0 <= k < n
    ensures line.last == n - 1 && Pending(line.buffer) == {}
  {
    assert line.last + 1 !in arrived;
    assert line.last >= 0 ==> line.last in arrived;
  }

  lemma NonEmptyIsPending(buffer: seq<Event>)
    ensures buffer != [] ==> Pending(buffer) != {}
  {
    if buffer != [] {
      assert buffer[0].sequence in Pending(buffer);
    }
  }
}
