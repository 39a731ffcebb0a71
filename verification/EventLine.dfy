/**
 Reordering of webhook events for one entity, as functions
 (src/middleware/webhookEventOrdering.ts), and what every arrival order delivers.
 */
module EventLine {
  import opened Sequences

  // Sequence numbers identify the place of an event; ids are what deduplication compares.
  datatype Event = Event(id: string, sequence: int, timestamp: int)

  datatype Config = Config(maxWaitMs: int, maxBuffer: int, strict: bool)

  datatype Reason = DuplicateOrStale | OutOfOrder | BufferFull

  datatype Decision = Process | Buffer | Reject(reason: Reason)

  /** The tracker's state for one entity: -1 and an empty buffer to begin with. */
  datatype Line = Line(last: int, buffer: seq<Event>)

  const FRESH := Line(-1, [])

  // ----- the sort of the buffer -----

  function SequenceOf(e: Event): int {
    e.sequence
  }

  function SortBySequence(events: seq<Event>): seq<Event> {
    SortBy(events, SequenceOf)
  }

  ghost predicate Sorted(events: seq<Event>) {
    forall i, j :: 0 <= i < j < |events| ==> events[i].sequence <= events[j].sequence
  }

  lemma SortedCons(e: Event, events: seq<Event>)
    requires Sorted(events) && forall x :: x in events ==> e.sequence <= x.sequence
    ensures Sorted([e] + events)
  {
    assert forall i :: 0 <= i < |events| ==> events[i] in events;
  }

  lemma SortedTail(events: seq<Event>)
    requires Sorted(events) && events != []
    ensures Sorted(events[1..])
    ensures forall x :: x in events[1..] ==> events[0].sequence <= x.sequence
    ensures forall x :: x in events <==> x == events[0] || x in events[1..]
  {
    assert events == [events[0]] + events[1..];
  }

  lemma SortBySequenceSorts(events: seq<Event>)
    ensures Sorted(SortBySequence(events))
    ensures multiset(SortBySequence(events)) == multiset(events)
    ensures |SortBySequence(events)| == |events|
    ensures forall e :: e in SortBySequence(events) <==> e in events
  {
    SortIsStable(events, SequenceOf);
    SortSameElements(events, SequenceOf);
  }

  // ----- the tracker's operations -----

  predicate TooOld(cfg: Config, e: Event, now: int) {
    now - e.timestamp > cfg.maxWaitMs
  }

  /** shouldProcessEvent: what to do with an arriving event, buffering it if it is early. */
  function Offer(cfg: Config, line: Line, e: Event, now: int): (Decision, Line) {
    if e.sequence <= line.last then (Reject(DuplicateOrStale), line)
    else if e.sequence == line.last + 1 then (Process, line)
    else if cfg.strict then (Reject(OutOfOrder), line)
    else if |line.buffer| >= cfg.maxBuffer || TooOld(cfg, e, now) then (Reject(BufferFull), line)
    else (Buffer, line.(buffer := SortBySequence(line.buffer + [e])))
  }

  // The consecutive run from `expected` on; the scan stops at the first gap.
  function Run(buffer: seq<Event>, expected: int): seq<Event> {
    if buffer == [] then []
    else if buffer[0].sequence == expected then [buffer[0]] + Run(buffer[1..], expected + 1)
    else if buffer[0].sequence > expected then []
    else Run(buffer[1..], expected)
  }

  predicate HasId(events: seq<Event>, id: string) {
    exists e :: e in events && e.id == id
  }

  function Filter(events: seq<Event>, keep: Event -> bool): seq<Event> {
    if events == [] then []
    else if keep(events[0]) then [events[0]] + Filter(events[1..], keep)
    else Filter(events[1..], keep)
  }

  // Everything in the buffer that shares no id with a drained event.
  function Without(buffer: seq<Event>, drained: seq<Event>): seq<Event> {
    Filter(buffer, (e: Event) => !HasId(drained, e.id))
  }

  /** markProcessed: move on and hand out the buffered events that are now due. */
  function Mark(line: Line, sequence: int): (seq<Event>, Line) {
    var due := Run(line.buffer, sequence + 1);
    (due, Line(sequence, Without(line.buffer, due)))
  }

  function Unexpired(cfg: Config, buffer: seq<Event>, now: int): seq<Event> {
    Filter(buffer, (e: Event) => !TooOld(cfg, e, now))
  }

  function Cleanup(cfg: Config, line: Line, now: int): Line {
    line.(buffer := Unexpired(cfg, line.buffer, now))
  }

  // ----- the driver: process, mark, and do the same with whatever is handed out -----

  lemma {:induction false} DrainShrinksBuffer(buffer: seq<Event>, expected: int, keep: Event -> bool)
    requires forall e :: e in Run(buffer, expected) ==> !keep(e)
    ensures |Filter(buffer, keep)| + |Run(buffer, expected)| <= |buffer|
  {
    if buffer != [] {
      if buffer[0].sequence == expected {
        var rest := Run(buffer[1..], expected + 1);
        assert Run(buffer, expected) == [buffer[0]] + rest;
        assert buffer[0] in Run(buffer, expected);
        assert forall e :: e in rest ==> e in Run(buffer, expected);
        DrainShrinksBuffer(buffer[1..], expected + 1, keep);
      } else if buffer[0].sequence > expected {
        FilterIsShorter(buffer, keep);
      } else {
        DrainShrinksBuffer(buffer[1..], expected, keep);
      }
    }
  }

  lemma {:induction false} FilterIsShorter(events: seq<Event>, keep: Event -> bool)
    ensures |Filter(events, keep)| <= |events|
  {
    if events != [] {
      FilterIsShorter(events[1..], keep);
    }
  }

  /** Delivers a queue of due events in turn; the result lists the delivered sequences. */
  function Pump(line: Line, queue: seq<Event>): (r: (seq<int>, Line))
    decreases 2 * |line.buffer| + |queue|
  {
    if queue == [] then ([], line)
    else
      var (due, next) := Mark(line, queue[0].sequence);
      DrainShrinksBuffer(line.buffer, queue[0].sequence + 1, (e: Event) => !HasId(due, e.id));
      var (delivered, end) := Pump(next, queue[1..] + due);
      ([queue[0].sequence] + delivered, end)
  }

  function Receive(cfg: Config, line: Line, e: Event, now: int): (seq<int>, Line) {
    var (decision, next) := Offer(cfg, line, e, now);
    if decision == Process then Pump(next, [e]) else ([], next)
  }

  datatype Op = Arrive(event: Event, now: int) | Sweep(now: int)

  function Step(cfg: Config, line: Line, op: Op): (seq<int>, Line) {
    match op
    case Arrive(e, now) => Receive(cfg, line, e, now)
    case Sweep(now) => ([], Cleanup(cfg, line, now))
  }

  /** All that a history delivers for one entity, and where it leaves the line. */
  function History(cfg: Config, ops: seq<Op>): (seq<int>, Line) {
    if ops == [] then ([], FRESH)
    else
      var (delivered, line) := History(cfg, ops[..|ops| - 1]);
      var (more, next) := Step(cfg, line, ops[|ops| - 1]);
      (delivered + more, next)
  }

  lemma HistoryAppend(cfg: Config, ops: seq<Op>, op: Op)
    ensures var (delivered, line) := History(cfg, ops);
            var (more, next) := Step(cfg, line, op);
            History(cfg, ops + [op]) == (delivered + more, next)
  {
    assert (ops + [op])[..|ops|] == ops;
  }

  // ----- the invariant between steps -----

  // What each sequence number is called.
  type Ids = int -> string

  // From one number on, an event carries the id of its number.
  predicate Named(e: Event, ids: Ids, from: int) {
    e.sequence >= from ==> e.id == ids(e.sequence)
  }

  ghost predicate Labelled(events: seq<Event>, ids: Ids, from: int) {
    forall e :: e in events ==> Named(e, ids, from)
  }

  /** A second copy of number 1 stays buffered for good if it has an id of its own. */
  predicate Stray(e: Event, last: int, from: int) {
    e.sequence == 1 <= last && 1 < from
  }

  ghost predicate LineOk(cfg: Config, line: Line, ids: Ids, from: int) {
    && line.last >= -1
    && Sorted(line.buffer)
    && (line.buffer == [] || |line.buffer| <= cfg.maxBuffer)
    && (forall e :: e in line.buffer ==> e.sequence > line.last + 1 || Stray(e, line.last, from))
    && Labelled(line.buffer, ids, from)
  }

  // start, start + 1, ..., n numbers in all
  function From(start: int, n: nat): seq<int>
    decreases n
  {
    if n == 0 then [] else [start] + From(start + 1, n - 1)
  }

  lemma {:induction false} FromConcat(start: int, n: nat, m: nat)
    ensures From(start, n) + From(start + n, m) == From(start, n + m)
    decreases n
  {
    if n > 0 {
      FromConcat(start + 1, n - 1, m);
    } else {
      assert [] + From(start, m) == From(start, m);
    }
  }

  lemma {:induction false} FromElements(start: int, n: nat)
    ensures |From(start, n)| == n && forall i :: 0 <= i < n ==> From(start, n)[i] == start + i
    decreases n
  {
    if n > 0 {
      FromElements(start + 1, n - 1);
    }
  }

  lemma {:induction false} FilterMembers(events: seq<Event>, keep: Event -> bool)
    ensures forall e :: e in Filter(events, keep) <==> e in events && keep(e)
    ensures Sorted(events) ==> Sorted(Filter(events, keep))
    ensures |Filter(events, keep)| <= |events|
    ensures (forall e :: e in events ==> keep(e)) ==> Filter(events, keep) == events
  {
    if events != [] {
      assert events == [events[0]] + events[1..];
      FilterMembers(events[1..], keep);
      if Sorted(events) {
        SortedTail(events);
        SortedCons(events[0], Filter(events[1..], keep));
      }
    }
  }

  /** In a sorted buffer the run is the longest one: it holds expected, expected+1, ... and its end is missing. */
  lemma {:induction false} RunIsConsecutive(buffer: seq<Event>, expected: int)
    requires Sorted(buffer)
    ensures var run := Run(buffer, expected);
            && (forall i :: 0 <= i < |run| ==> run[i].sequence == expected + i)
            && (forall e :: e in run ==> e in buffer)
            && (forall e :: e in buffer ==> e.sequence != expected + |run|)
  {
    if buffer != [] {
      SortedTail(buffer);
      if buffer[0].sequence == expected {
        RunIsConsecutive(buffer[1..], expected + 1);
        assert Run(buffer, expected) == [buffer[0]] + Run(buffer[1..], expected + 1);
      } else if buffer[0].sequence < expected {
        RunIsConsecutive(buffer[1..], expected);
      }
    }
  }

  // A buffered event that the run has covered carries the id of a drained event.
  lemma CoveredHasId(due: seq<Event>, first: int, e: Event, ids: Ids, from: int)
    requires forall i :: 0 <= i < |due| ==> due[i].sequence == first + i
    requires Labelled(due, ids, from) && Named(e, ids, from) && e.sequence >= from
    requires first <= e.sequence < first + |due|
    ensures HasId(due, e.id)
  {
    var d := due[e.sequence - first];
    assert d in due && d.id == e.id;
  }

  /** Marking the next event hands out a run and leaves only events beyond a gap, and strays. */
  lemma MarkNext(cfg: Config, line: Line, ids: Ids, from: int)
    requires LineOk(cfg, line, ids, from) && from <= 2
    ensures var (due, next) := Mark(line, line.last + 1);
            && (forall i :: 0 <= i < |due| ==> due[i].sequence == line.last + 2 + i)
            && (forall e :: e in due ==> e in line.buffer)
            && (forall e :: e in next.buffer ==>
                  e in line.buffer && (e.sequence > line.last + 2 + |due| || Stray(e, line.last + 1 + |due|, from)))
            && LineOk(cfg, Line(line.last + 1 + |due|, next.buffer), ids, from)
  {
    var due := Run(line.buffer, line.last + 2);
    RunIsConsecutive(line.buffer, line.last + 2);
    LeftoverIsBeyond(line, due, ids, from);
  }

  lemma LeftoverIsBeyond(line: Line, due: seq<Event>, ids: Ids, from: int)
    requires Sorted(line.buffer) && Labelled(line.buffer, ids, from) && line.last >= -1 && from <= 2
    requires forall i :: 0 <= i < |due| ==> due[i].sequence == line.last + 2 + i
    requires forall e :: e in due ==> e in line.buffer
    requires forall e :: e in line.buffer ==> e.sequence > line.last + 1 || Stray(e, line.last, from)
    requires forall e :: e in line.buffer ==> e.sequence != line.last + 2 + |due|
    ensures var rest := Without(line.buffer, due);
            && Sorted(rest) && |rest| <= |line.buffer|
            && forall e :: e in rest ==>
                 e in line.buffer && (e.sequence > line.last + 2 + |due| || Stray(e, line.last + 1 + |due|, from))
  {
    FilterMembers(line.buffer, (e: Event) => !HasId(due, e.id));
    forall e | e in line.buffer && line.last + 2 <= e.sequence < line.last + 2 + |due| && e.sequence >= from
      ensures HasId(due, e.id)
    {
      CoveredHasId(due, line.last + 2, e, ids, from);
    }
  }

  /** The drained events are delivered in turn; marking them hands out nothing more. */
  lemma {:induction false} PumpRun(line: Line, queue: seq<Event>)
    requires forall i :: 0 <= i < |queue| ==> queue[i].sequence == line.last + 1 + i
    requires forall e :: e in line.buffer ==> e.sequence > line.last + 1 + |queue| || e.sequence <= line.last + 1
    ensures Pump(line, queue) == (From(line.last + 1, |queue|), Line(line.last + |queue|, line.buffer))
    decreases |queue|
  {
    if queue != [] {
      var sequence := queue[0].sequence;
      MarkNothing(line, sequence);
      assert queue[1..] + [] == queue[1..];
      PumpRun(Line(sequence, line.buffer), queue[1..]);
    }
  }

  lemma MarkNothing(line: Line, sequence: int)
    requires forall e :: e in line.buffer ==> e.sequence != sequence + 1
    ensures Mark(line, sequence) == ([], Line(sequence, line.buffer))
  {
    NothingDue(line.buffer, sequence + 1);
    FilterMembers(line.buffer, (e: Event) => !HasId([], e.id));
  }

  lemma {:induction false} NothingDue(buffer: seq<Event>, expected: int)
    requires forall e :: e in buffer ==> e.sequence != expected
    ensures Run(buffer, expected) == []
  {
    if buffer != [] {
      assert buffer[0] in buffer;
      NothingDue(buffer[1..], expected);
    }
  }

  // One turn of the pump: e is delivered, and what marking it hands out joins the queue.
  lemma PumpTurn(line: Line, e: Event, queue: seq<Event>, due: seq<Event>, next: Line, delivered: seq<int>, end: Line)
    requires Mark(line, e.sequence) == (due, next)
    requires Pump(next, queue + due) == (delivered, end)
    ensures Pump(line, [e] + queue) == ([e.sequence] + delivered, end)
  {
    assert ([e] + queue)[1..] == queue;
  }

  lemma PumpNext(line: Line, e: Event, due: seq<Event>, next: Line)
    requires Mark(line, e.sequence) == (due, next)
    requires forall i :: 0 <= i < |due| ==> due[i].sequence == e.sequence + 1 + i
    requires forall x :: x in next.buffer ==> x.sequence > e.sequence + 1 + |due| || x.sequence <= e.sequence + 1
    ensures Pump(line, [e]) == (From(e.sequence, |due| + 1), Line(e.sequence + |due|, next.buffer))
  {
    PumpRun(next, due);
    var none: seq<Event> := [];
    assert none + due == due && [e] + none == [e];
    PumpTurn(line, e, none, due, next, From(e.sequence + 1, |due|), Line(e.sequence + |due|, next.buffer));
  }

  /** An event in sequence delivers itself and the whole run behind it. */
  lemma ReceiveNext(cfg: Config, line: Line, e: Event, now: int, ids: Ids, from: int)
    requires LineOk(cfg, line, ids, from) && from <= 2 && e.sequence == line.last + 1
    ensures var (due, next) := Mark(line, line.last + 1);
            && Receive(cfg, line, e, now).0 == From(line.last + 1, |due| + 1)
            && Receive(cfg, line, e, now).1 == Line(line.last + 1 + |due|, next.buffer)
            && LineOk(cfg, Receive(cfg, line, e, now).1, ids, from)
  {
    var (due, next) := Mark(line, line.last + 1);
    MarkNext(cfg, line, ids, from);
    PumpNext(line, e, due, next);
    ReceiveIsPump(cfg, line, e, now);
  }

  lemma ReceiveIsPump(cfg: Config, line: Line, e: Event, now: int)
    requires e.sequence == line.last + 1
    ensures Receive(cfg, line, e, now) == Pump(line, [e])
  {
  }

  lemma ReceiveOther(cfg: Config, line: Line, e: Event, now: int)
    requires e.sequence != line.last + 1
    ensures Receive(cfg, line, e, now) == ([], Offer(cfg, line, e, now).1)
  {
  }

  // ----- every arrival order -----

  // All arrivals from one number on carry the id of their sequence number.
  ghost predicate OpsLabelled(ops: seq<Op>, ids: Ids, from: int) {
    forall k :: 0 <= k < |ops| && ops[k].Arrive? ==> Named(ops[k].event, ids, from)
  }

  // What has been delivered is 0, ..., last.
  ghost predicate Gapless(cfg: Config, h: (seq<int>, Line), ids: Ids, from: int) {
    LineOk(cfg, h.1, ids, from) && h.0 == From(0, h.1.last + 1)
  }

  lemma BufferKeepsOk(cfg: Config, line: Line, e: Event, ids: Ids, from: int)
    requires LineOk(cfg, line, ids, from) && Named(e, ids, from)
    requires e.sequence > line.last + 1 && |line.buffer| < cfg.maxBuffer
    ensures LineOk(cfg, line.(buffer := SortBySequence(line.buffer + [e])), ids, from)
  {
    SortBySequenceSorts(line.buffer + [e]);
  }

  lemma ReceiveKeepsGapless(cfg: Config, delivered: seq<int>, line: Line, e: Event, now: int, ids: Ids, from: int)
    requires Gapless(cfg, (delivered, line), ids, from) && from <= 2 && Named(e, ids, from)
    ensures var (more, next) := Receive(cfg, line, e, now); Gapless(cfg, (delivered + more, next), ids, from)
  {
    if e.sequence == line.last + 1 {
      ReceiveNext(cfg, line, e, now, ids, from);
      FromConcat(0, line.last + 1, |Mark(line, line.last + 1).0| + 1);
    } else {
      ReceiveOther(cfg, line, e, now);
      assert delivered + [] == delivered;
      if Offer(cfg, line, e, now).0 == Buffer {
        BufferKeepsOk(cfg, line, e, ids, from);
      }
    }
  }

  lemma StepKeepsGapless(cfg: Config, delivered: seq<int>, line: Line, op: Op, ids: Ids, from: int)
    requires Gapless(cfg, (delivered, line), ids, from)
    requires from <= 2 && (op.Arrive? ==> Named(op.event, ids, from))
    ensures var (more, next) := Step(cfg, line, op); Gapless(cfg, (delivered + more, next), ids, from)
  {
    match op
    case Arrive(e, now) =>
      ReceiveKeepsGapless(cfg, delivered, line, e, now, ids, from);
    case Sweep(now) =>
      FilterMembers(line.buffer, (e: Event) => !TooOld(cfg, e, now));
      assert delivered + [] == delivered;
  }

  /**
   For every history of arrivals (out of order, duplicated, lost, stale, on a full
   buffer, in strict mode or not) and sweeps, what is delivered is exactly
   0, 1, ..., last: no gap, no repeat. Numbers 0 and 1 may come under several ids.
   */
  lemma {:induction false} DeliveredIsGapless(cfg: Config, ops: seq<Op>, ids: Ids, from: int)
    requires OpsLabelled(ops, ids, from) && from <= 2
    ensures Gapless(cfg, History(cfg, ops), ids, from)
  {
    if ops != [] {
      var n := |ops| - 1;
      DeliveredIsGapless(cfg, ops[..n], ids, from);
      var (delivered, line) := History(cfg, ops[..n]);
      StepKeepsGapless(cfg, delivered, line, ops[n], ids, from);
    }
  }
}
