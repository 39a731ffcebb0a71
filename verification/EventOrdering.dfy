/**
 The event tracker with its two maps (src/middleware/webhookEventOrdering.ts), and a
 driver that processes what it is told to. Per entity it follows EventLine.
 */
module EventOrdering {
  import opened EventLine

  class EventOrderingTracker {
    const cfg: Config
    var lastProcessedSequence: map<string, int>
    var eventBuffer: map<string, seq<Event>>

    function LastOf(entity: string): int
      reads this
    {
      if entity in lastProcessedSequence then lastProcessedSequence[entity] else -1
    }

    function BufferOf(entity: string): seq<Event>
      reads this
    {
      if entity in eventBuffer then eventBuffer[entity] else []
    }

    /** The state of one entity; an entity never seen is fresh. */
    function LineOf(entity: string): Line
      reads this
    {
      Line(LastOf(entity), BufferOf(entity))
    }

    constructor (cfg: Config)
      ensures this.cfg == cfg && forall entity :: LineOf(entity) == FRESH
    {
      this.cfg := cfg;
      lastProcessedSequence, eventBuffer := map[], map[];
    }

    method ShouldProcessEvent(entity: string, e: Event, now: int) returns (decision: Decision)
      modifies this
      ensures (decision, LineOf(entity)) == Offer(cfg, old(LineOf(entity)), e, now)
      ensures decision == Process <==> e.sequence == old(LastOf(entity)) + 1
      ensures |BufferOf(entity)| == |old(BufferOf(entity))| + if decision == Buffer then 1 else 0
      ensures decision == Reject(BufferFull) <==>
        && e.sequence > old(LastOf(entity)) + 1 && !cfg.strict
        && (|old(BufferOf(entity))| >= cfg.maxBuffer || now - e.timestamp > cfg.maxWaitMs)
      ensures forall other :: other != entity ==> LineOf(other) == old(LineOf(other))
    {
      hide SortBySequence;
      var last := LastOf(entity);
      if e.sequence <= last {
        return Reject(DuplicateOrStale);
      }
      if e.sequence == last + 1 {
        return Process;
      }
      if cfg.strict {
        return Reject(OutOfOrder);
      }
      var buffered := BufferEvent(entity, e, now);
      return if buffered then Buffer else Reject(BufferFull);
    }

    method BufferEvent(entity: string, e: Event, now: int) returns (ok: bool)
      modifies this`eventBuffer
      ensures ok <==> |old(BufferOf(entity))| < cfg.maxBuffer && !TooOld(cfg, e, now)
      ensures BufferOf(entity) == if ok then SortBySequence(old(BufferOf(entity)) + [e]) else old(BufferOf(entity))
      ensures |BufferOf(entity)| == |old(BufferOf(entity))| + if ok then 1 else 0
      ensures forall other :: other != entity ==> BufferOf(other) == old(BufferOf(other))
    {
      var buffer := BufferOf(entity);
      if |buffer| >= cfg.maxBuffer || TooOld(cfg, e, now) {
        return false;
      }
      buffer := buffer + [e];
      SortBySequenceSorts(buffer);
      hide SortBySequence;
      buffer := SortBySequence(buffer);
      eventBuffer := eventBuffer[entity := buffer];
      return true;
    }

    method MarkProcessed(entity: string, sequence: int) returns (due: seq<Event>)
      modifies this
      ensures (due, LineOf(entity)) == Mark(old(LineOf(entity)), sequence)
      ensures forall other :: other != entity ==> LineOf(other) == old(LineOf(other))
    {
      lastProcessedSequence := lastProcessedSequence[entity := sequence];
      due := GetProcessableBufferedEvents(entity);
    }

    method GetProcessableBufferedEvents(entity: string) returns (due: seq<Event>)
      modifies this`eventBuffer
      ensures due == Run(old(BufferOf(entity)), LastOf(entity) + 1)
      ensures BufferOf(entity) == Without(old(BufferOf(entity)), due)
      ensures forall other :: other != entity ==> BufferOf(other) == old(BufferOf(other))
    {
      var buffer := BufferOf(entity);
      due := [];
      if buffer == [] {
        return;
      }
      var expected := LastOf(entity) + 1;
      var i := 0;
      var gap := false;
      while i < |buffer| && !gap
        invariant 0 <= i <= |buffer|
        invariant Run(buffer, LastOf(entity) + 1) == due + if gap then [] else Run(buffer[i..], expected)
        decreases |buffer| - i, !gap
      {
        var event := buffer[i];
        if event.sequence == expected {
          assert due + ([event] + Run(buffer[i..][1..], expected + 1))
              == (due + [event]) + Run(buffer[i..][1..], expected + 1);
          due := due + [event];
          expected := expected + 1;
          i := i + 1;
        } else if event.sequence > expected {
          gap := true;
        } else {
          i := i + 1;
        }
      }
      if due != [] {
        var remaining := Without(buffer, due);
        eventBuffer := if remaining == [] then eventBuffer - {entity} else eventBuffer[entity := remaining];
      } else {
        FilterMembers(buffer, (e: Event) => !HasId(due, e.id));
      }
    }

    /** Removes expired events of every entity and counts them. */
    method CleanupStaleEvents(now: int) returns (cleaned: nat)
      modifies this`eventBuffer
      ensures cleaned == |Slots(old(eventBuffer))| - |Slots(eventBuffer)|
      ensures forall entity :: BufferOf(entity) == Unexpired(cfg, old(BufferOf(entity)), now)
    {
      cleaned := 0;
      var entities := eventBuffer.Keys;
      while entities != {}
        invariant cleaned == |Slots(old(eventBuffer))| - |Slots(eventBuffer)|
        invariant forall entity :: entity in entities ==> entity in eventBuffer
        invariant forall entity :: entity !in old(eventBuffer) ==> BufferOf(entity) == []
        invariant forall entity :: entity in entities ==> BufferOf(entity) == old(BufferOf(entity))
        invariant forall entity :: entity !in entities ==>
          BufferOf(entity) == Unexpired(cfg, old(BufferOf(entity)), now)
        decreases |entities|
      {
        var entity :| entity in entities;
        entities := entities - {entity};
        var removed := CleanupEntity(entity, now);
        cleaned := cleaned + removed;
      }
    }

    method CleanupEntity(entity: string, now: int) returns (removed: nat)
      requires entity in eventBuffer
      modifies this`eventBuffer
      ensures forall other :: other != entity ==> (other in eventBuffer <==> other in old(eventBuffer))
      ensures BufferOf(entity) == Unexpired(cfg, old(BufferOf(entity)), now)
      ensures forall other :: other != entity ==> BufferOf(other) == old(BufferOf(other))
      ensures removed == |old(BufferOf(entity))| - |BufferOf(entity)|
      ensures removed == |Slots(old(eventBuffer))| - |Slots(eventBuffer)|
    {
      SlotsOfEntity(eventBuffer, entity);
      var buffer := eventBuffer[entity];
      var valid := Unexpired(cfg, buffer, now);
      FilterIsShorter(buffer, (e: Event) => !TooOld(cfg, e, now));
      FilterSameLength(buffer, (e: Event) => !TooOld(cfg, e, now));
      removed := |buffer| - |valid|;
      if valid == [] {
        eventBuffer := eventBuffer - {entity};
      } else if |valid| < |buffer| {
        SlotsReplaced(eventBuffer, entity, valid);
        eventBuffer := eventBuffer[entity := valid];
      }
    }
  }

  /** The places of all buffered events: an entity and a position in its buffer. */
  ghost function Slots(buffers: map<string, seq<Event>>): set<(string, int)> {
    set entity, i | entity in buffers && 0 <= i < |buffers[entity]| :: (entity, i)
  }

  ghost function SlotsIn(entity: string, n: nat): set<(string, int)> {
    set i | 0 <= i < n :: (entity, i)
  }

  lemma {:induction false} SlotsInCount(entity: string, n: nat)
    ensures |SlotsIn(entity, n)| == n
  {
    if n > 0 {
      SlotsInCount(entity, n - 1);
      assert SlotsIn(entity, n) == SlotsIn(entity, n - 1) + {(entity, n - 1)};
    }
  }

  lemma SlotsOfEntity(buffers: map<string, seq<Event>>, entity: string)
    requires entity in buffers
    ensures |Slots(buffers)| == |Slots(buffers - {entity})| + |buffers[entity]|
  {
    var rest, row := Slots(buffers - {entity}), SlotsIn(entity, |buffers[entity]|);
    SlotsInCount(entity, |buffers[entity]|);
    assert Slots(buffers) == rest + row && rest !! row;
  }

  lemma SlotsReplaced(buffers: map<string, seq<Event>>, entity: string, buffer: seq<Event>)
    requires entity in buffers
    ensures |Slots(buffers[entity := buffer])| == |Slots(buffers - {entity})| + |buffer|
  {
    SlotsOfEntity(buffers[entity := buffer], entity);
    assert buffers[entity := buffer] - {entity} == buffers - {entity};
  }

  lemma {:induction false} FilterSameLength(events: seq<Event>, keep: Event -> bool)
    ensures |Filter(events, keep)| == |events| ==> Filter(events, keep) == events
  {
    if events != [] {
      FilterSameLength(events[1..], keep);
      FilterIsShorter(events[1..], keep);
    }
  }

  /** Processes what the tracker releases, in turn, and keeps the log of each entity. */
  class OrderedConsumer {
    const tracker: EventOrderingTracker
    var delivered: map<string, seq<int>>

    function LogOf(entity: string): seq<int>
      reads this
    {
      if entity in delivered then delivered[entity] else []
    }

    constructor (cfg: Config)
      ensures fresh(tracker) && tracker.cfg == cfg
      ensures forall entity :: LogOf(entity) == [] && tracker.LineOf(entity) == FRESH
    {
      tracker := new EventOrderingTracker(cfg);
      delivered := map[];
    }

    method Receive(entity: string, e: Event, now: int) returns (decision: Decision)
      modifies this, tracker
      ensures decision == Offer(tracker.cfg, old(tracker.LineOf(entity)), e, now).0
      ensures var (more, next) := EventLine.Receive(tracker.cfg, old(tracker.LineOf(entity)), e, now);
              LogOf(entity) == old(LogOf(entity)) + more && tracker.LineOf(entity) == next
      ensures forall other :: other != entity ==>
        tracker.LineOf(other) == old(tracker.LineOf(other)) && LogOf(other) == old(LogOf(other))
    {
      decision := tracker.ShouldProcessEvent(entity, e, now);
      if decision != Process {
        return;
      }
      var queue := [e];
      ghost var (all, end) := Pump(tracker.LineOf(entity), queue);
      ghost var log := LogOf(entity);
      assert log + all == LogOf(entity) + Pump(tracker.LineOf(entity), queue).0;
      while queue != []
        invariant log + all == LogOf(entity) + Pump(tracker.LineOf(entity), queue).0
        invariant end == Pump(tracker.LineOf(entity), queue).1
        invariant forall other :: other != entity ==>
          tracker.LineOf(other) == old(tracker.LineOf(other)) && LogOf(other) == old(LogOf(other))
        decreases 2 * |tracker.BufferOf(entity)| + |queue|
      {
        var event := queue[0];
        ghost var line, before := tracker.LineOf(entity), LogOf(entity);
        delivered := delivered[entity := LogOf(entity) + [event.sequence]];
        var due := tracker.MarkProcessed(entity, event.sequence);
        DrainShrinksBuffer(line.buffer, event.sequence + 1, (x: Event) => !HasId(due, x.id));
        queue := queue[1..] + due;
        Rotate(before, event.sequence, Pump(tracker.LineOf(entity), queue).0);
      }
    }

    method Perform(entity: string, op: Op)
      modifies this, tracker
      ensures var (more, next) := Step(tracker.cfg, old(tracker.LineOf(entity)), op);
              LogOf(entity) == old(LogOf(entity)) + more && tracker.LineOf(entity) == next
    {
      match op
      case Arrive(e, now) =>
        var decision := Receive(entity, e, now);
      case Sweep(now) =>
        var cleaned := tracker.CleanupStaleEvents(now);
        assert LogOf(entity) + [] == LogOf(entity);
    }
  }

  /** A new consumer fed any history of one entity ends where EventLine.History says. */
  method Consume(cfg: Config, entity: string, ops: seq<Op>) returns (consumer: OrderedConsumer)
    ensures (consumer.LogOf(entity), consumer.tracker.LineOf(entity)) == History(cfg, ops)
  {
    consumer := new OrderedConsumer(cfg);
    for i := 0 to |ops|
      invariant fresh(consumer) && fresh(consumer.tracker) && consumer.tracker.cfg == cfg
      invariant (consumer.LogOf(entity), consumer.tracker.LineOf(entity)) == History(cfg, ops[..i])
    {
      assert ops[..i + 1] == ops[..i] + [ops[i]];
      HistoryAppend(cfg, ops[..i], ops[i]);
      consumer.Perform(entity, ops[i]);
    }
    assert ops[..|ops|] == ops;
  }

  lemma Rotate(log: seq<int>, n: int, rest: seq<int>)
    ensures log + ([n] + rest) == (log + [n]) + rest
  {
  }
}
