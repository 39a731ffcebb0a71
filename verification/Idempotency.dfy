/**
 The idempotency middleware on its in-memory store (src/middleware/idempotency.ts):
 requests arrive, finish and close in any interleaving.
 */
module Idempotency {
  import opened Wrappers

  type Id = nat

  datatype Record = Record(status: int, body: string, contentType: Option<string>, fingerprint: Option<string>,
                           createdAt: int)

  datatype Entry = Entry(record: Record, expiresAt: Option<int>)

  datatype Response = Response(status: int, body: string, contentType: Option<string>)

  datatype CheckResult = New | InFlight | Cached(record: Record)

  // ttl 0 stands for no ttl: the code tests it for truth.
  datatype Config = Config(ttl: int, shouldStore: int -> bool)

  /** An expiry time of 0 counts as none, as in the code. */
  predicate Expired(e: Entry, now: int) {
    e.expiresAt.Some? && e.expiresAt.value != 0 && now >= e.expiresAt.value
  }

  function NewEntry(cfg: Config, record: Record, now: int): Entry {
    Entry(record, if cfg.ttl != 0 then Some(now + cfg.ttl) else None)
  }

  // Undefined and the empty string are both falsy.
  predicate Conflicts(requested: Option<string>, saved: Option<string>) {
    && requested.Some? && requested.value != ""
    && saved.Some? && saved.value != ""
    && requested != saved
  }

  // ----- the protocol on values -----

  datatype Request = Request(key: string, fingerprint: Option<string>, completed: bool)

  datatype State = State(records: map<string, Entry>, inFlight: set<string>, open: map<Id, Request>)

  const EMPTY := State(map[], {}, map[])

  datatype Event =
    | Arrive(id: Id, key: string, fingerprint: Option<string>)  // key "" : not covered by the middleware
    | Finish(id: Id, response: Response)
    | Close(id: Id)

  datatype Outcome =
    | Passed | Ran(key: string) | Replayed(key: string, record: Record) | Conflict(key: string) | Busy(key: string)
    | Saved(key: string, record: Record) | Released(key: string) | Nothing

  function Pruned(records: map<string, Entry>, key: string, now: int): map<string, Entry> {
    if key in records && Expired(records[key], now) then records - {key} else records
  }

  function Recorded(r: Request, response: Response, now: int): Record {
    Record(response.status, response.body, response.contentType, r.fingerprint, now)
  }

  function Arriving(st: State, id: Id, key: string, fingerprint: Option<string>, now: int): (State, Outcome) {
    if key == "" || id in st.open then (st, Passed)
    else
      var records := Pruned(st.records, key, now);
      if key in records then
        (st.(records := records),
         if Conflicts(fingerprint, records[key].record.fingerprint) then Conflict(key)
         else Replayed(key, records[key].record))
      else if key in st.inFlight then (st.(records := records), Busy(key))
      else (State(records, st.inFlight + {key}, st.open[id := Request(key, fingerprint, false)]), Ran(key))
  }

  function Finishing(cfg: Config, st: State, id: Id, response: Response, now: int): (State, Outcome) {
    if id !in st.open || st.open[id].completed then (st, Nothing)
    else
      var r := st.open[id];
      var open := st.open[id := r.(completed := true)];
      if !cfg.shouldStore(response.status) then (State(st.records, st.inFlight - {r.key}, open), Released(r.key))
      else
        (State(st.records[r.key := NewEntry(cfg, Recorded(r, response, now), now)], st.inFlight - {r.key}, open),
         Saved(r.key, Recorded(r, response, now)))
  }

  function Closing(st: State, id: Id): (State, Outcome) {
    if id !in st.open then (st, Nothing)
    else if st.open[id].completed then (st.(open := st.open - {id}), Nothing)
    else (State(st.records, st.inFlight - {st.open[id].key}, st.open - {id}), Released(st.open[id].key))
  }

  function Step(cfg: Config, st: State, e: Event, now: int): (State, Outcome) {
    match e
    case Arrive(id, key, fingerprint) => Arriving(st, id, key, fingerprint, now)
    case Finish(id, response) => Finishing(cfg, st, id, response, now)
    case Close(id) => Closing(st, id)
  }

  // Request id is inside the handler for the key.
  predicate Running(st: State, id: Id, key: string) {
    id in st.open && !st.open[id].completed && st.open[id].key == key
  }

  /** Reservations are exactly the keys of running requests, one each, and no reserved key has a record. */
  ghost predicate Inv(st: State) {
    && (forall id: Id, key: string :: Running(st, id, key) ==> key in st.inFlight)
    && (forall id: Id, other: Id, key: string :: Running(st, id, key) && Running(st, other, key) ==> id == other)
    && (forall key: string :: key in st.inFlight ==> key !in st.records && exists id: Id :: Running(st, id, key))
  }

  lemma ArrivingKeepsInv(st: State, id: Id, key: string, fingerprint: Option<string>, now: int)
    requires Inv(st)
    ensures Inv(Arriving(st, id, key, fingerprint, now).0)
  {
    var (after, outcome) := Arriving(st, id, key, fingerprint, now);
    forall other: Id, k: string ensures Running(after, other, k) <==>
      Running(st, other, k) || (outcome == Ran(key) && other == id && k == key) {}
    forall k: string | k in after.inFlight ensures k !in after.records && exists other: Id :: Running(after, other, k) {
      if k in st.inFlight {
        var other: Id :| Running(st, other, k);
        assert Running(after, other, k);
      } else {
        assert Running(after, id, k);
      }
    }
  }

  // A request leaves its handler and gives its key back.
  lemma LeavingKeepsInv(st: State, after: State, id: Id, key: string)
    requires Inv(st) && Running(st, id, key) && after.inFlight == st.inFlight - {key}
    requires forall other: Id, k: string :: Running(after, other, k) <==> Running(st, other, k) && other != id
    requires forall k: string :: k in after.records ==> k == key || k in st.records
    ensures Inv(after)
  {
    forall k: string | k in after.inFlight ensures k !in after.records && exists other: Id :: Running(after, other, k) {
      var other: Id :| Running(st, other, k);
      assert Running(after, other, k);
    }
  }

  /** Every event, in any order, keeps the invariant. */
  lemma StepKeepsInv(cfg: Config, st: State, e: Event, now: int)
    requires Inv(st)
    ensures Inv(Step(cfg, st, e, now).0)
  {
    var after := Step(cfg, st, e, now).0;
    match e
    case Arrive(id, key, fingerprint) => ArrivingKeepsInv(st, id, key, fingerprint, now);
    case Finish(id, response) =>
      if id in st.open && !st.open[id].completed { LeavingKeepsInv(st, after, id, st.open[id].key); }
    case Close(id) =>
      if id in st.open {
        if st.open[id].completed {
          SameRunningKeepsInv(st, after);
        } else {
          LeavingKeepsInv(st, after, id, st.open[id].key);
        }
      }
  }

  lemma SameRunningKeepsInv(st: State, after: State)
    requires Inv(st) && after.records == st.records && after.inFlight == st.inFlight
    requires forall id: Id, key: string :: Running(after, id, key) <==> Running(st, id, key)
    ensures Inv(after)
  {
    forall k: string | k in after.inFlight ensures exists other: Id :: Running(after, other, k) {
      var other: Id :| Running(st, other, k);
      assert Running(after, other, k);
    }
  }

  // ----- the classes -----

  class InMemoryIdempotencyStore {
    var records: map<string, Entry>
    var inFlight: set<string>
    const cfg: Config

    constructor (cfg: Config)
      ensures records == map[] && inFlight == {} && this.cfg == cfg
    {
      records, inFlight, this.cfg := map[], {}, cfg;
    }

    method CheckAndReserve(key: string, now: int) returns (r: CheckResult)
      modifies this`records, this`inFlight
      ensures records == Pruned(old(records), key, now)
      ensures r == if key in records then Cached(records[key].record) else if key in old(inFlight) then InFlight else New
      ensures inFlight == if r == New then old(inFlight) + {key} else old(inFlight)
    {
      PruneExpired(key, now);
      if key in records { return Cached(records[key].record); }
      if key in inFlight { return InFlight; }
      inFlight := inFlight + {key};
      return New;
    }

    method Save(key: string, record: Record, now: int)
      modifies this`records, this`inFlight
      ensures records == old(records)[key := NewEntry(cfg, record, now)] && inFlight == old(inFlight) - {key}
    {
      inFlight := inFlight - {key};
      var expiresAt := if cfg.ttl != 0 then Some(now + cfg.ttl) else None;
      records := records[key := Entry(record, expiresAt)];
    }

    method Release(key: string)
      modifies this`inFlight
      ensures inFlight == old(inFlight) - {key}
    {
      inFlight := inFlight - {key};
    }

    method PruneExpired(key: string, now: int)
      modifies this`records
      ensures records == Pruned(old(records), key, now)
    {
      if key !in records || records[key].expiresAt.None? || records[key].expiresAt.value == 0 { return; }
      if now >= records[key].expiresAt.value { records := records - {key}; }
    }
  }

  class IdempotencyMiddleware {
    const store: InMemoryIdempotencyStore
    var open: map<Id, Request>

    constructor (cfg: Config)
      ensures fresh(store) && store.cfg == cfg && Contents() == EMPTY && Inv(Contents())
    {
      store := new InMemoryIdempotencyStore(cfg);
      open := map[];
    }

    ghost function Contents(): State
      reads this, store
    {
      State(store.records, store.inFlight, open)
    }

    /** A request comes in; Ran means that the handler is called. */
    method OnArrive(id: Id, key: string, fingerprint: Option<string>, now: int) returns (outcome: Outcome)
      requires Inv(Contents())
      modifies this, store
      ensures (Contents(), outcome) == Step(store.cfg, old(Contents()), Arrive(id, key, fingerprint), now)
      ensures outcome.Replayed? && fingerprint.Some? && outcome.record.fingerprint.Some? ==>
        fingerprint == outcome.record.fingerprint || fingerprint == Some("") || outcome.record.fingerprint == Some("")
      ensures outcome.Conflict? ==>
        fingerprint.Some? && key in old(store.records) && fingerprint != old(store.records)[key].record.fingerprint
      ensures Inv(Contents())
    {
      StepKeepsInv(store.cfg, Contents(), Arrive(id, key, fingerprint), now);
      if key == "" || id in open { return Passed; }
      var check := store.CheckAndReserve(key, now);
      match check
      case Cached(record) =>
        if Conflicts(fingerprint, record.fingerprint) { return Conflict(key); }
        return Replayed(key, record);
      case InFlight =>
        return Busy(key);
      case New =>
        open := open[id := Request(key, fingerprint, false)];
        return Ran(key);
    }

    /** The response was sent. */
    method OnFinish(id: Id, response: Response, now: int) returns (outcome: Outcome)
      requires Inv(Contents())
      modifies this, store
      ensures (Contents(), outcome) == Step(store.cfg, old(Contents()), Finish(id, response), now)
      ensures Inv(Contents())
    {
      StepKeepsInv(store.cfg, Contents(), Finish(id, response), now);
      if id !in open || open[id].completed { return Nothing; }
      var r := open[id];
      open := open[id := r.(completed := true)];
      if !store.cfg.shouldStore(response.status) {
        store.Release(r.key);
        return Released(r.key);
      }
      var record := Record(response.status, response.body, response.contentType, r.fingerprint, now);
      store.Save(r.key, record, now);
      return Saved(r.key, record);
    }

    /** The connection was closed, before or after the response. */
    method OnClose(id: Id) returns (outcome: Outcome)
      requires Inv(Contents())
      modifies this, store
      ensures (Contents(), outcome) == Step(store.cfg, old(Contents()), Close(id), 0)
      ensures Inv(Contents())
    {
      StepKeepsInv(store.cfg, Contents(), Close(id), 0);
      if id !in open { return Nothing; }
      var r := open[id];
      open := open - {id};
      if r.completed { return Nothing; }
      store.Release(r.key);
      return Released(r.key);
    }
  }

  // ----- whole runs -----

  datatype Timed = Timed(event: Event, now: int)

  function StateAt(cfg: Config, events: seq<Timed>, n: nat): State
    requires n <= |events|
  {
    if n == 0 then EMPTY else Step(cfg, StateAt(cfg, events, n - 1), events[n - 1].event, events[n - 1].now).0
  }

  function OutcomeAt(cfg: Config, events: seq<Timed>, n: nat): Outcome
    requires n < |events|
  {
    Step(cfg, StateAt(cfg, events, n), events[n].event, events[n].now).1
  }

  lemma {:induction false} RunKeepsInv(cfg: Config, events: seq<Timed>, n: nat)
    requires n <= |events|
    ensures Inv(StateAt(cfg, events, n))
    decreases n
  {
    if n > 0 {
      RunKeepsInv(cfg, events, n - 1);
      StepKeepsInv(cfg, StateAt(cfg, events, n - 1), events[n - 1].event, events[n - 1].now);
    }
  }

  /** In every interleaving no two requests are in the handler for one key. */
  lemma AtMostOneRunning(cfg: Config, events: seq<Timed>, n: nat, key: string, id: Id, other: Id)
    requires n <= |events|
    requires Running(StateAt(cfg, events, n), id, key) && Running(StateAt(cfg, events, n), other, key)
    ensures id == other
  {
    RunKeepsInv(cfg, events, n);
  }

  /** The handler is called exactly when there is no unexpired record and no running request for the key. */
  lemma HandlerCalledIff(st: State, id: Id, key: string, fingerprint: Option<string>, now: int)
    requires Inv(st) && key != "" && id !in st.open
    ensures Arriving(st, id, key, fingerprint, now).1 == Ran(key) <==>
      !(key in st.records && !Expired(st.records[key], now)) && (forall other: Id :: !Running(st, other, key))
  {
    if key in st.inFlight {
      var other: Id :| Running(st, other, key);
    }
  }

  // The entry for the key is kept by every event before its expiry.
  lemma StepKeepsEntry(cfg: Config, st: State, e: Event, now: int, key: string)
    requires Inv(st) && key in st.records && !Expired(st.records[key], now)
    ensures var (after, outcome) := Step(cfg, st, e, now);
      && key in after.records && after.records[key] == st.records[key]
      && outcome != Ran(key) && outcome != Busy(key) && outcome != Released(key)
      && (forall record :: outcome != Saved(key, record))
      && (forall record :: outcome == Replayed(key, record) ==> record == st.records[key].record)
  {
    assert !e.Arrive? ==> !Running(st, e.id, key);
  }

  predicate TimeMovesOn(events: seq<Timed>) {
    forall i, j :: 0 <= i < j < |events| ==> events[i].now <= events[j].now
  }

  lemma {:induction false} EntryStays(cfg: Config, events: seq<Timed>, i: nat, j: nat, key: string, record: Record)
    requires i < j <= |events| && TimeMovesOn(events)
    requires OutcomeAt(cfg, events, i) == Saved(key, record)
    requires j < |events| ==> !Expired(NewEntry(cfg, record, events[i].now), events[j].now)
    requires j == |events| ==> !Expired(NewEntry(cfg, record, events[i].now), events[j - 1].now)
    ensures var st := StateAt(cfg, events, j);
      key in st.records && st.records[key] == NewEntry(cfg, record, events[i].now)
    decreases j
  {
    if j > i + 1 {
      EntryStays(cfg, events, i, j - 1, key, record);
      RunKeepsInv(cfg, events, j - 1);
      StepKeepsEntry(cfg, StateAt(cfg, events, j - 1), events[j - 1].event, events[j - 1].now, key);
    }
  }

  /**
   Once a response is saved for a key, every later request for it before the expiry — for
   ever, without ttl — gets exactly that response or the payload conflict, and the handler
   does not run again.
   */
  lemma SavedKeyIsFinal(cfg: Config, events: seq<Timed>, i: nat, j: nat, key: string, record: Record)
    requires i < j < |events| && TimeMovesOn(events)
    requires OutcomeAt(cfg, events, i) == Saved(key, record)
    requires !Expired(NewEntry(cfg, record, events[i].now), events[j].now)
    ensures OutcomeAt(cfg, events, j) != Ran(key)
    ensures forall other :: OutcomeAt(cfg, events, j) != Saved(key, other)
    ensures forall replayed :: OutcomeAt(cfg, events, j) == Replayed(key, replayed) ==> replayed == record
    ensures events[j].event.Arrive? && events[j].event.key == key && events[j].event.id !in StateAt(cfg, events, j).open ==>
      OutcomeAt(cfg, events, j) ==
        if Conflicts(events[j].event.fingerprint, record.fingerprint) then Conflict(key) else Replayed(key, record)
  {
    EntryStays(cfg, events, i, j, key, record);
    RunKeepsInv(cfg, events, j);
    StepKeepsEntry(cfg, StateAt(cfg, events, j), events[j].event, events[j].now, key);
    if events[j].event.Arrive? && events[j].event.key == key {
      assert key != "" by { KeyOfRecord(cfg, events, j, key); }
    }
  }

  lemma {:induction false} KeyOfRecord(cfg: Config, events: seq<Timed>, n: nat, key: string)
    requires n <= |events|
    ensures key in StateAt(cfg, events, n).records ==> key != ""
    ensures forall id: Id :: Running(StateAt(cfg, events, n), id, key) ==> key != ""
    decreases n
  {
    if n > 0 {
      KeyOfRecord(cfg, events, n - 1, key);
      var st := StateAt(cfg, events, n - 1);
      var after := StateAt(cfg, events, n);
      forall id: Id | Running(after, id, key) ensures key != "" {
        assert Running(st, id, key) || events[n - 1].event.Arrive?;
      }
      if key in after.records && key !in st.records {
        assert Running(st, events[n - 1].event.id, key);
      }
    }
  }

  /** An open request is the one whose arrival called the handler. */
  ghost predicate CameFromRun(cfg: Config, events: seq<Timed>, n: nat, id: Id, r: Request)
    requires n <= |events|
  {
    exists h: nat :: h < n && events[h].event == Arrive(id, r.key, r.fingerprint) && OutcomeAt(cfg, events, h) == Ran(r.key)
  }

  lemma {:induction false} OpenCameFromRun(cfg: Config, events: seq<Timed>, n: nat, id: Id)
    requires n <= |events| && id in StateAt(cfg, events, n).open
    ensures CameFromRun(cfg, events, n, id, StateAt(cfg, events, n).open[id])
    decreases n
  {
    if n > 0 {
      var st, after := StateAt(cfg, events, n - 1), StateAt(cfg, events, n);
      if id in st.open {
        OpenCameFromRun(cfg, events, n - 1, id);
        var h: nat :| h < n - 1 && events[h].event == Arrive(id, st.open[id].key, st.open[id].fingerprint)
                      && OutcomeAt(cfg, events, h) == Ran(st.open[id].key);
        SameRequest(cfg, st, events[n - 1].event, events[n - 1].now, id);
        assert events[h].event == Arrive(id, after.open[id].key, after.open[id].fingerprint);
      } else {
        assert events[n - 1].event == Arrive(id, after.open[id].key, after.open[id].fingerprint);
      }
    }
  }

  lemma SameRequest(cfg: Config, st: State, e: Event, now: int, id: Id)
    requires id in st.open && id in Step(cfg, st, e, now).0.open
    ensures var after := Step(cfg, st, e, now).0.open[id];
      after.key == st.open[id].key && after.fingerprint == st.open[id].fingerprint
  {
  }

  /**
   What is saved is the response of a request whose own arrival called the handler: its
   status, body and content type, with the fingerprint that arrived.
   */
  lemma SaveComesFromRun(cfg: Config, events: seq<Timed>, i: nat, key: string, record: Record)
    requires i < |events| && OutcomeAt(cfg, events, i) == Saved(key, record)
    ensures events[i].event.Finish? && cfg.shouldStore(record.status)
    ensures var response := events[i].event.response;
      record == Record(response.status, response.body, response.contentType, record.fingerprint, events[i].now)
    ensures exists h: nat :: h < i && OutcomeAt(cfg, events, h) == Ran(key)
                             && events[h].event == Arrive(events[i].event.id, key, record.fingerprint)
  {
    OpenCameFromRun(cfg, events, i, events[i].event.id);
  }

  // The reservation is given up only by its own request.
  lemma StepKeepsReservation(cfg: Config, st: State, e: Event, now: int, key: string)
    requires Inv(st) && key in st.inFlight
    ensures var (after, outcome) := Step(cfg, st, e, now);
      && outcome != Ran(key)
      && (outcome != Released(key) && (forall record :: outcome != Saved(key, record)) ==> key in after.inFlight)
  {
  }

  /** Two runs of the handler for one key are separated by a save or a release of the first. */
  lemma {:induction false} RunsAreSeparated(cfg: Config, events: seq<Timed>, i: nat, j: nat, key: string)
    requires i < j <= |events| && OutcomeAt(cfg, events, i) == Ran(key)
    requires forall m :: i < m < j ==> OutcomeAt(cfg, events, m) != Released(key)
    requires forall m, record :: i < m < j ==> OutcomeAt(cfg, events, m) != Saved(key, record)
    ensures key in StateAt(cfg, events, j).inFlight
    ensures j < |events| ==> OutcomeAt(cfg, events, j) != Ran(key)
    decreases j
  {
    if j > i + 1 {
      RunsAreSeparated(cfg, events, i, j - 1, key);
      RunKeepsInv(cfg, events, j - 1);
      StepKeepsReservation(cfg, StateAt(cfg, events, j - 1), events[j - 1].event, events[j - 1].now, key);
    }
    RunKeepsInv(cfg, events, j);
    if j < |events| {
      StepKeepsReservation(cfg, StateAt(cfg, events, j), events[j].event, events[j].now, key);
    }
  }

  predicate Free(st: State, key: string) {
    key !in st.records && key !in st.inFlight
  }

  lemma StepKeepsFree(cfg: Config, st: State, e: Event, now: int, key: string)
    requires Inv(st) && Free(st, key) && !(e.Arrive? && e.key == key)
    ensures Free(Step(cfg, st, e, now).0, key)
  {
    assert !e.Arrive? ==> !Running(st, e.id, key);
  }

  lemma ReleaseFrees(cfg: Config, st: State, e: Event, now: int, key: string)
    requires Inv(st) && Step(cfg, st, e, now).1 == Released(key)
    ensures Free(Step(cfg, st, e, now).0, key)
  {
    assert Running(st, e.id, key);
  }

  lemma {:induction false} FreeUntilNextArrival(cfg: Config, events: seq<Timed>, i: nat, j: nat, key: string)
    requires i < j <= |events| && OutcomeAt(cfg, events, i) == Released(key)
    requires forall m :: i < m < j ==> !(events[m].event.Arrive? && events[m].event.key == key)
    ensures Free(StateAt(cfg, events, j), key)
    decreases j
  {
    RunKeepsInv(cfg, events, j - 1);
    if j == i + 1 {
      ReleaseFrees(cfg, StateAt(cfg, events, i), events[i].event, events[i].now, key);
    } else {
      FreeUntilNextArrival(cfg, events, i, j - 1, key);
      StepKeepsFree(cfg, StateAt(cfg, events, j - 1), events[j - 1].event, events[j - 1].now, key);
    }
  }

  /** After a failure or an aborted connection the next request for the key runs the handler again. */
  lemma ReleasedKeyCanRetry(cfg: Config, events: seq<Timed>, i: nat, j: nat, key: string)
    requires i < j < |events| && OutcomeAt(cfg, events, i) == Released(key)
    requires forall m :: i < m < j ==> !(events[m].event.Arrive? && events[m].event.key == key)
    requires events[j].event.Arrive? && events[j].event.key == key && key != ""
    requires events[j].event.id !in StateAt(cfg, events, j).open
    ensures OutcomeAt(cfg, events, j) == Ran(key)
  {
    FreeUntilNextArrival(cfg, events, i, j, key);
  }
}
