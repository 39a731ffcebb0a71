/**
 What the tracker tells its caller about an event, and what it does with it
 (src/middleware/webhookEventOrdering.ts).
 */
module EventDecisions {
  import opened EventLine
  import opened EventLiveness
  import opened Sequences

  /**
   On every line the answer is what happens: buffered means one more event waits, process
   means that the event is the awaited one, and reject that nothing has changed; each reason
   has its own cause.
   */
  lemma DecisionIs(cfg: Config, line: Line, e: Event, now: int)
    ensures var (decision, next) := Offer(cfg, line, e, now);
      && next.last == line.last
      && (decision == Process <==> e.sequence == line.last + 1)
      && (decision == Buffer <==> multiset(next.buffer) == multiset(line.buffer) + multiset{e})
      && (decision.Reject? <==> next == line && e.sequence != line.last + 1)
      && (decision == Reject(DuplicateOrStale) <==> e.sequence <= line.last)
      && (decision == Reject(OutOfOrder) <==> e.sequence > line.last + 1 && cfg.strict)
      && (decision == Reject(BufferFull) <==>
            && e.sequence > line.last + 1 && !cfg.strict
            && (|line.buffer| >= cfg.maxBuffer || now - e.timestamp > cfg.maxWaitMs))
  {
    SortBySequenceSorts(line.buffer + [e]);
    var (decision, next) := Offer(cfg, line, e, now);
    assert multiset(line.buffer + [e]) == multiset(line.buffer) + multiset{e};
    assert multiset(line.buffer)[e] != (multiset(line.buffer) + multiset{e})[e];
  }

  /** The arrival after any history: it is delivered at once exactly if it is the awaited one. */
  lemma ArrivalIs(cfg: Config, ops: seq<Op>, e: Event, now: int)
    ensures var line := History(cfg, ops).1;
      var (decision, next) := Offer(cfg, line, e, now);
      && (decision == Process ==> History(cfg, ops + [Arrive(e, now)]).0 != History(cfg, ops).0)
      && (decision != Process ==> History(cfg, ops + [Arrive(e, now)]) == (History(cfg, ops).0, next))
  {
    var line := History(cfg, ops).1;
    HistoryAppend(cfg, ops, Arrive(e, now));
    DecisionIs(cfg, line, e, now);
    if e.sequence == line.last + 1 {
      ReceiveIsPump(cfg, line, e, now);
      assert Pump(line, [e]).0[0] == e.sequence;
    } else {
      ReceiveOther(cfg, line, e, now);
      assert History(cfg, ops).0 + [] == History(cfg, ops).0;
    }
  }

  /** A sweep removes exactly the events that have waited too long, and delivers nothing. */
  lemma SweepIs(cfg: Config, line: Line, now: int, e: Event)
    ensures var (delivered, next) := Step(cfg, line, Sweep(now));
      && delivered == [] && next.last == line.last
      && multiset(next.buffer)[e] == (if now - e.timestamp > cfg.maxWaitMs then 0 else multiset(line.buffer)[e])
      && (Sorted(line.buffer) ==> Sorted(next.buffer))
  {
    FilterCount(line.buffer, (x: Event) => !TooOld(cfg, x, now), e);
    FilterMembers(line.buffer, (x: Event) => !TooOld(cfg, x, now));
  }
}
