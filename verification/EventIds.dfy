/**
 What event ids must do (src/middleware/webhookEventOrdering.ts): exactly when every
 history is delivered without gap or repeat, and exactly when nothing gets lost.
 */
module EventIds {
  import opened EventLine
  import opened EventLiveness
  import opened Sequences

  const ROOMY := Config(60000, 100, false)

  // ----- histories that end with early events -----

  /** A stream in order is delivered as it comes, under any ids. */
  lemma {:induction false} InOrderDelivers(cfg: Config, ops: seq<Op>)
    requires InOrder(ops)
    ensures History(cfg, ops) == (From(0, |ops|), Line(|ops| - 1, []))
    ensures TakesThroughout(cfg, ops)
    decreases |ops|
  {
    if ops != [] {
      var init, op := ops[..|ops| - 1], ops[|ops| - 1];
      assert forall k :: 0 <= k < |init| ==> init[k] == ops[k];
      InOrderDelivers(cfg, init);
      NextDelivered(cfg, |init|, op.event, op.now);
      FromConcat(0, |init|, 1);
    }
  }

  lemma NextDelivered(cfg: Config, n: nat, e: Event, now: int)
    requires e.sequence == n
    ensures Receive(cfg, Line(n - 1, []), e, now) == (From(n, 1), Line(n, []))
  {
    MarkNothing(Line(n - 1, []), n);
    PumpNext(Line(n - 1, []), e, [], Line(n, []));
    ReceiveIsPump(cfg, Line(n - 1, []), e, now);
  }

  // All at time 0.
  function Arrivals(events: seq<Event>): seq<Op> {
    if events == [] then [] else Arrivals(events[..|events| - 1]) + [Arrive(events[|events| - 1], 0)]
  }

  lemma ArrivalsAppend(events: seq<Event>, e: Event)
    ensures Arrivals(events + [e]) == Arrivals(events) + [Arrive(e, 0)]
  {
    assert (events + [e])[..|events|] == events;
  }

  lemma TakesAppend(cfg: Config, ops: seq<Op>, op: Op)
    ensures TakesThroughout(cfg, ops + [op]) <==> TakesThroughout(cfg, ops) && Takes(cfg, History(cfg, ops).1, op)
  {
    assert (ops + [op])[..|ops|] == ops;
  }

  // Events beyond a number, in order.
  ghost predicate Early(events: seq<Event>, z: int) {
    SortedBy(events, SequenceOf) && forall e :: e in events ==> e.sequence > z && e.timestamp >= 0
  }

  // The history delivers 0, ..., z - 1, takes all that comes, and ends with these events waiting.
  ghost predicate Waiting(ops: seq<Op>, z: nat, events: seq<Event>) {
    TakesThroughout(ROOMY, ops) && History(ROOMY, ops) == (From(0, z), Line(z - 1, events))
  }

  /** Early events are all buffered, as they come. */
  lemma {:induction false} EarlyOnesWait(prefix: seq<Op>, events: seq<Event>)
    requires InOrder(prefix) && Early(events, |prefix|) && |events| <= 100
    ensures Waiting(prefix + Arrivals(events), |prefix|, events)
    decreases |events|
  {
    if events == [] {
      assert prefix + [] == prefix;
      InOrderDelivers(ROOMY, prefix);
    } else {
      var init, e := events[..|events| - 1], events[|events| - 1];
      assert events == init + [e];
      EarlyInit(init, e, |prefix|);
      hide *;
      EarlyOnesWait(prefix, init);
      OneMoreWaits(prefix + Arrivals(init), |prefix|, init, e);
      ArrivalsAppend(init, e);
      Associative(prefix, Arrivals(init), [Arrive(e, 0)]);
    }
  }

  lemma EarlyInit(init: seq<Event>, e: Event, z: int)
    requires Early(init + [e], z)
    ensures Early(init, z)
  {
    assert forall i :: 0 <= i < |init| ==> (init + [e])[i] == init[i];
    assert forall x :: x in init ==> x in init + [e];
  }

  lemma OneMoreWaits(ops: seq<Op>, z: nat, events: seq<Event>, e: Event)
    requires Waiting(ops, z, events) && Early(events + [e], z) && |events| < 100
    ensures Waiting(ops + [Arrive(e, 0)], z, events + [e])
  {
    EarlyIsBuffered(z, events, e);
    hide Step, History, Early, Takes, TakesThroughout, From;
    TakesAppend(ROOMY, ops, Arrive(e, 0));
    HistoryAppend(ROOMY, ops, Arrive(e, 0));
    assert From(0, z) + [] == From(0, z);
  }

  lemma EarlyIsBuffered(z: nat, events: seq<Event>, e: Event)
    requires Early(events + [e], z) && |events| < 100
    ensures Takes(ROOMY, Line(z - 1, events), Arrive(e, 0))
    ensures Step(ROOMY, Line(z - 1, events), Arrive(e, 0)) == ([], Line(z - 1, events + [e]))
  {
    assert e in events + [e];
    ReceiveOther(ROOMY, Line(z - 1, events), e, 0);
    SortSorted(events + [e], SequenceOf);
  }

  // The awaited event comes last.
  lemma ThenTheNext(prefix: seq<Op>, events: seq<Event>, z: Event)
    requires InOrder(prefix) && Early(events, |prefix|) && |events| <= 100 && z.sequence == |prefix|
    ensures var ops := prefix + Arrivals(events + [z]);
            var (delivered, line) := Receive(ROOMY, Line(|prefix| - 1, events), z, 0);
            && TakesThroughout(ROOMY, ops)
            && History(ROOMY, ops) == (From(0, |prefix|) + delivered, line)
  {
    EarlyOnesWait(prefix, events);
    ArrivalsAppend(events, z);
    Associative(prefix, Arrivals(events), [Arrive(z, 0)]);
    hide Receive, History, Early, From, TakesThroughout, Arrivals;
    TakesAppend(ROOMY, prefix + Arrivals(events), Arrive(z, 0));
    HistoryAppend(ROOMY, prefix + Arrivals(events), Arrive(z, 0));
  }

  // ----- one number under two ids -----

  lemma FilterOne(e: Event, keep: Event -> bool)
    ensures Filter([e], keep) == if keep(e) then [e] else []
  {
    assert [e][1..] == [];
  }

  lemma FilterCons(e: Event, rest: seq<Event>, keep: Event -> bool)
    ensures Filter([e] + rest, keep) == (if keep(e) then [e] else []) + Filter(rest, keep)
  {
    assert ([e] + rest)[1..] == rest;
  }

  lemma RunOfThree(a: Event, b: Event, c: Event)
    requires b.sequence == a.sequence + 1 && c.sequence == a.sequence + 1
    ensures Run([a, b, c], a.sequence) == [a, b] && Run([c], a.sequence + 1) == [c]
  {
    var s := a.sequence;
    assert [a, b, c][1..] == [b, c] && [b, c][1..] == [c] && [c][1..] == [];
    assert Run([c], s + 2) == [];
    assert Run([b, c], s + 1) == [b] + [] == [b];
    assert Run([a, b, c], s) == [a] + [b] == [a, b];
  }

  lemma MarkHandsOut(a: Event, b: Event, c: Event)
    requires b.sequence == a.sequence + 1 && c.sequence == a.sequence + 1 && c.id != a.id && c.id != b.id
    ensures forall last :: Mark(Line(last, [a, b, c]), a.sequence - 1) == ([a, b], Line(a.sequence - 1, [c]))
    ensures Mark(Line(a.sequence - 1, [c]), a.sequence) == ([c], Line(a.sequence, []))
  {
    RunOfThree(a, b, c);
    var keep := (e: Event) => !HasId([a, b], e.id);
    assert a in [a, b] && b in [a, b] && c in [c];
    FilterOne(c, keep);
    FilterCons(b, [c], keep);
    FilterCons(a, [b] + [c], keep);
    assert [a] + ([b] + [c]) == [a, b, c];
    FilterOne(c, (e: Event) => !HasId([c], e.id));
  }

  lemma DrainedTwice(z: Event, a: Event, b: Event, c: Event)
    requires a.sequence == z.sequence + 1 && b.sequence == z.sequence + 2 && c.sequence == z.sequence + 2
    requires c.id != a.id && c.id != b.id
    ensures var s := z.sequence;
            Receive(ROOMY, Line(s - 1, [a, b, c]), z, 0) == ([s, s + 1, s + 2, s + 2], Line(s + 2, []))
  {
    var s := z.sequence;
    MarkHandsOut(a, b, c);
    PumpRepeats(a, b, c);
    hide Mark, Pump, Receive;
    var none: seq<Event> := [];
    assert none + [a, b] == [a, b] && [z] + none == [z];
    assert [s] + [s + 1, s + 2, s + 2] == [s, s + 1, s + 2, s + 2];
    PumpTurn(Line(s - 1, [a, b, c]), z, none, [a, b], Line(s, [c]), [s + 1, s + 2, s + 2], Line(s + 2, []));
    ReceiveIsPump(ROOMY, Line(s - 1, [a, b, c]), z, 0);
  }

  lemma PumpRepeats(a: Event, b: Event, c: Event)
    requires b.sequence == a.sequence + 1 && c.sequence == a.sequence + 1 && c.id != a.id && c.id != b.id
    ensures var s := a.sequence; Pump(Line(s - 1, [c]), [a, b]) == ([s, s + 1, s + 1], Line(s + 1, []))
  {
    var s := a.sequence;
    MarkHandsOut(a, b, c);
    MarkNothing(Line(s, []), s + 1);
    MarkNothing(Line(s + 1, []), s + 1);
    var none: seq<Event> := [];
    assert none + none == none && [c] + none == [c] && [a] + [b] == [a, b] && [b] + [c] == [b, c];
    assert [s + 1] + [] == [s + 1] && [s + 1] + [s + 1] == [s + 1, s + 1];
    assert [s] + [s + 1, s + 1] == [s, s + 1, s + 1];
    assert Pump(Line(s + 1, []), none) == ([], Line(s + 1, []));
    hide Mark, Pump;
    PumpTurn(Line(s + 1, []), c, none, none, Line(s + 1, []), [], Line(s + 1, []));
    PumpTurn(Line(s, []), b, [c], none, Line(s + 1, []), [s + 1], Line(s + 1, []));
    PumpTurn(Line(s - 1, [c]), a, [b], [c], Line(s, []), [s + 1, s + 1], Line(s + 1, []));
  }

  /**
   Two ids for one sequence number: when n-1 and two n arrive before n-2, and the second
   of them has an id of its own, number n is delivered twice.
   */
  lemma TwoIdsDeliverTwice(prefix: seq<Op>, z: Event, a: Event, b: Event, c: Event)
    requires InOrder(prefix) && z.sequence == |prefix|
    requires a.sequence == z.sequence + 1 && b.sequence == z.sequence + 2 && c.sequence == z.sequence + 2
    requires c.id != a.id && c.id != b.id
    requires a.timestamp >= 0 && b.timestamp >= 0 && c.timestamp >= 0
    ensures var s := z.sequence;
      History(ROOMY, prefix + Arrivals([a, b, c, z])) == (From(0, s) + [s, s + 1, s + 2, s + 2], Line(s + 2, []))
  {
    assert [a, b, c] + [z] == [a, b, c, z];
    ThenTheNext(prefix, [a, b, c], z);
    DrainedTwice(z, a, b, c);
  }

  // ----- which ids deliver without repeat -----

  /** The pairs of sequence number and id that may arrive. */
  type Allowed = (int, string) -> bool

  ghost predicate OpsAllowed(ops: seq<Op>, allowed: Allowed) {
    forall k :: 0 <= k < |ops| && ops[k].Arrive? ==> allowed(ops[k].event.sequence, ops[k].event.id)
  }

  ghost predicate DeliversGapless(cfg: Config, ops: seq<Op>) {
    var (delivered, line) := History(cfg, ops);
    line.last >= -1 && delivered == From(0, line.last + 1)
  }

  // Numbers from 2 on come under one id each.
  ghost predicate OneIdFromTwo(allowed: Allowed) {
    forall n, a, b :: n >= 2 && allowed(n, a) && allowed(n, b) ==> a == b
  }

  ghost predicate HasSomeId(allowed: Allowed, n: int) {
    exists id :: allowed(n, id)
  }

  ghost function IdOf(allowed: Allowed, n: int): (id: string)
    ensures HasSomeId(allowed, n) ==> allowed(n, id)
  {
    if HasSomeId(allowed, n) then
      var id :| allowed(n, id);
      id
    else ""
  }

  /** One event of each number in turn. */
  function Numbered(ids: Ids, n: nat): (ops: seq<Op>)
    ensures InOrder(ops) && |ops| == n
    ensures forall k :: 0 <= k < n ==> ops[k] == Arrive(Event(ids(k), k, 0), 0)
  {
    seq(n, k requires 0 <= k < n => Arrive(Event(ids(k), k, 0), 0))
  }

  lemma NoRepeatFrom(n: nat)
    ensures From(0, n) + [n, n + 1, n + 2, n + 2] != From(0, n + 3)
  {
    FromElements(0, n);
    FromElements(0, n + 3);
  }

  // Two ids for a number from 2 on are enough to have it delivered twice.
  lemma SomeHistoryRepeats(allowed: Allowed, ids: Ids, n: int, b: string, c: string)
    requires n >= 2 && b != c && allowed(n, b) && allowed(n, c)
    requires forall k: nat :: allowed(k, ids(k))
    ensures exists ops :: OpsAllowed(ops, allowed) && !DeliversGapless(ROOMY, ops)
  {
    var first, second := if c != ids(n - 1) then b else c, if c != ids(n - 1) then c else b;
    var z, a := Event(ids(n - 2), n - 2, 0), Event(ids(n - 1), n - 1, 0);
    var x, y := Event(first, n, 0), Event(second, n, 0);
    var prefix := Numbered(ids, n - 2);
    var ops := prefix + Arrivals([a, x, y, z]);
    TwoIdsDeliverTwice(prefix, z, a, x, y);
    NoRepeatFrom(n - 2);
    FourArrivals(a, x, y, z);
    assert OpsAllowed(ops, allowed);
  }

  lemma FourArrivals(a: Event, b: Event, c: Event, d: Event)
    ensures Arrivals([a, b, c, d]) == [Arrive(a, 0), Arrive(b, 0), Arrive(c, 0), Arrive(d, 0)]
  {
    ThreeArrivals(a, b, c);
    assert [a, b, c] + [d] == [a, b, c, d];
    ArrivalsAppend([a, b, c], d);
  }

  lemma ThreeArrivals(a: Event, b: Event, c: Event)
    ensures Arrivals([a, b, c]) == [Arrive(a, 0), Arrive(b, 0), Arrive(c, 0)]
  {
    var none: seq<Event> := [];
    assert none + [a] == [a] && [a] + [b] == [a, b] && [a, b] + [c] == [a, b, c];
    ArrivalsAppend(none, a);
    ArrivalsAppend([a], b);
    ArrivalsAppend([a, b], c);
  }

  /**
   Where every number has an id: every history, under every configuration, delivers
   exactly 0, 1, ..., last if and only if each number from 2 on has only one.
   */
  lemma GaplessIff(allowed: Allowed)
    requires forall k: nat :: HasSomeId(allowed, k)
    ensures (forall cfg, ops :: OpsAllowed(ops, allowed) ==> DeliversGapless(cfg, ops)) <==> OneIdFromTwo(allowed)
  {
    var ids: Ids := n => IdOf(allowed, n);
    if OneIdFromTwo(allowed) {
      forall cfg, ops | OpsAllowed(ops, allowed) ensures DeliversGapless(cfg, ops) {
        assert OpsLabelled(ops, ids, 2);
        DeliveredIsGapless(cfg, ops, ids, 2);
      }
    } else {
      forall k: nat ensures allowed(k, ids(k)) {
        assert HasSomeId(allowed, k);
      }
      var n, b, c :| n >= 2 && allowed(n, b) && allowed(n, c) && b != c;
      SomeHistoryRepeats(allowed, ids, n, b, c);
    }
  }

  // ----- one id for two numbers -----

  lemma DrainDropsShared(z: Event, a: Event, c: Event)
    requires a.sequence == z.sequence + 1 && c.sequence >= z.sequence + 3 && c.id == a.id
    ensures Receive(ROOMY, Line(z.sequence - 1, [a, c]), z, 0) ==
      ([z.sequence, z.sequence + 1], Line(z.sequence + 1, []))
  {
    var s := z.sequence;
    var none: seq<Event> := [];
    assert [a, c][1..] == [c] && Run([c], s + 2) == [] && Run([a, c], s + 1) == [a];
    assert a in [a] && HasId([a], a.id);
    var keep := (e: Event) => !HasId([a], e.id);
    FilterOne(c, keep);
    FilterCons(a, [c], keep);
    assert [a] + [c] == [a, c];
    assert Mark(Line(s - 1, [a, c]), s) == ([a], Line(s, []));
    PumpTurn(Line(s, []), a, [], [], Line(s + 1, []), [], Line(s + 1, []));
    assert [a] + none == [a] && none + [a] == [a] && [s + 1] + [] == [s + 1] && [s] + [s + 1] == [s, s + 1];
    PumpTurn(Line(s - 1, [a, c]), z, [], [a], Line(s, []), [s + 1], Line(s + 1, []));
    assert [z] + none == [z];
    ReceiveIsPump(ROOMY, Line(s - 1, [a, c]), z, 0);
  }

  /**
   One id for two sequence numbers with others between them: when they arrive before the
   number in front of them, the higher one is taken, and then neither delivered nor buffered.
   */
  lemma SharedIdLosesEvent(prefix: seq<Op>, z: Event, a: Event, c: Event)
    requires InOrder(prefix) && z.sequence == |prefix|
    requires a.sequence == z.sequence + 1 && c.sequence >= z.sequence + 3 && c.id == a.id
    requires a.timestamp >= 0 && c.timestamp >= 0
    ensures var s, ops := z.sequence, prefix + Arrivals([a, c, z]);
      TakesThroughout(ROOMY, ops) && History(ROOMY, ops) == (From(0, s) + [s, s + 1], Line(s + 1, []))
  {
    assert [a, c] + [z] == [a, c, z];
    ThenTheNext(prefix, [a, c], z);
    DrainDropsShared(z, a, c);
  }

  // With these ids no history loses what it has room for.
  ghost predicate LosesNothing(cfg: Config, ops: seq<Op>) {
    TakesThroughout(cfg, ops) ==> NothingEverLost(cfg, ops)
  }

  lemma LostForGood(ops: seq<Op>, last: int, n: int)
    requires History(ROOMY, ops).1 == Line(last, []) && n in Arrived(ops) && n > last
    ensures !NothingEverLost(ROOMY, ops)
  {
    assert n !in Pending([]);
  }

  lemma SomeHistoryLoses(ids: Ids, m: int, n: int)
    requires 1 <= m && m + 2 <= n && ids(m) == ids(n)
    ensures exists ops :: OpsLabelled(ops, ids, 1) && !LosesNothing(ROOMY, ops)
  {
    var z, a, c := Event(ids(m - 1), m - 1, 0), Event(ids(m), m, 0), Event(ids(n), n, 0);
    var prefix := Numbered(ids, m - 1);
    var ops := prefix + Arrivals([a, c, z]);
    SharedIdLosesEvent(prefix, z, a, c);
    ThreeArrivals(a, c, z);
    assert ops[m] == Arrive(c, 0) && ops[m] in ops;
    assert n in Arrived(ops);
    LostForGood(ops, m, n);
    forall k | 0 <= k < |ops| && ops[k].Arrive? ensures Named(ops[k].event, ids, 1) {
      assert ops[k] == if k < m - 1 then prefix[k] else [Arrive(a, 0), Arrive(c, 0), Arrive(z, 0)][k - (m - 1)];
    }
    assert OpsLabelled(ops, ids, 1);
    assert !LosesNothing(ROOMY, ops);
  }

  /**
   Whatever is taken is delivered or waits, in every history under every configuration, if
   and only if numbers from 1 on that are not neighbours have different ids.
   */
  lemma LosslessIff(ids: Ids)
    ensures (forall cfg, ops :: OpsLabelled(ops, ids, 1) ==> LosesNothing(cfg, ops)) <==> Apart(ids)
  {
    if Apart(ids) {
      forall cfg, ops | OpsLabelled(ops, ids, 1) ensures LosesNothing(cfg, ops) {
        NothingEverLostIff(cfg, ops, ids);
      }
    } else {
      var m, n :| 1 <= m && m + 2 <= n && ids(m) == ids(n);
      SomeHistoryLoses(ids, m, n);
    }
  }
}
