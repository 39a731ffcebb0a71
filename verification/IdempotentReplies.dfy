/**
 What clients of the idempotency middleware get (src/middleware/idempotency.ts): which
 response is saved, who is answered with it and until when.
 */
module IdempotentReplies {
  import opened Wrappers
  import opened Idempotency

  // The handler runs for this request and has neither finished nor been cut off before event i.
  ghost predicate InHandler(cfg: Config, events: seq<Timed>, h: nat, i: nat, id: Id, key: string, fingerprint: Option<string>) {
    && h < i <= |events| && events[h].event == Arrive(id, key, fingerprint) && OutcomeAt(cfg, events, h) == Ran(key)
    && (forall m :: h < m < i ==> !(events[m].event.Finish? && events[m].event.id == id))
    && (forall m :: h < m < i ==> !(events[m].event.Close? && events[m].event.id == id))
  }

  lemma {:induction false} StaysOpen(cfg: Config, events: seq<Timed>, h: nat, i: nat, id: Id, key: string,
                                     fingerprint: Option<string>)
    requires InHandler(cfg, events, h, i, id, key, fingerprint)
    ensures id in StateAt(cfg, events, i).open
    ensures StateAt(cfg, events, i).open[id] == Request(key, fingerprint, false)
    decreases i
  {
    if i > h + 1 {
      StaysOpen(cfg, events, h, i - 1, id, key, fingerprint);
    }
  }

  /** The end of a run: a response worth storing is saved with the fingerprint that arrived, all else frees the key. */
  lemma RunEnds(cfg: Config, events: seq<Timed>, h: nat, i: nat, id: Id, key: string, fingerprint: Option<string>)
    requires InHandler(cfg, events, h, i, id, key, fingerprint) && i < |events|
    ensures events[i].event.Finish? && events[i].event.id == id ==>
      var response := events[i].event.response;
      OutcomeAt(cfg, events, i) ==
        if cfg.shouldStore(response.status)
        then Saved(key, Record(response.status, response.body, response.contentType, fingerprint, events[i].now))
        else Released(key)
    ensures events[i].event == Close(id) ==> OutcomeAt(cfg, events, i) == Released(key)
  {
    StaysOpen(cfg, events, h, i, id, key, fingerprint);
  }

  /** A saved response lasts for one ttl, for ever without ttl, and when its expiry happens to be time 0. */
  predicate StillValid(cfg: Config, saved: int, now: int) {
    cfg.ttl == 0 || saved + cfg.ttl == 0 || now < saved + cfg.ttl
  }

  // A new request that arrives under the key.
  ghost predicate Arrives(cfg: Config, events: seq<Timed>, j: nat, key: string, fingerprint: Option<string>) {
    && j < |events| && events[j].event.Arrive? && events[j].event.key == key
    && events[j].event.fingerprint == fingerprint && events[j].event.id !in StateAt(cfg, events, j).open
  }

  /**
   While a saved response is valid, a request under its key is answered with it if the
   fingerprints agree or one of them is missing, and with the conflict otherwise.
   */
  lemma SavedIsAnswered(cfg: Config, events: seq<Timed>, i: nat, j: nat, key: string, record: Record,
                        fingerprint: Option<string>)
    requires i < j && Arrives(cfg, events, j, key, fingerprint) && TimeMovesOn(events)
    requires OutcomeAt(cfg, events, i) == Saved(key, record) && StillValid(cfg, events[i].now, events[j].now)
    ensures fingerprint == record.fingerprint || fingerprint == None || fingerprint == Some("")
            || record.fingerprint == None || record.fingerprint == Some("") ==>
      OutcomeAt(cfg, events, j) == Replayed(key, record)
    ensures fingerprint.Some? && record.fingerprint.Some? && fingerprint.value != record.fingerprint.value
            && fingerprint.value != "" && record.fingerprint.value != "" ==>
      OutcomeAt(cfg, events, j) == Conflict(key)
  {
    SavedKeyIsFinal(cfg, events, i, j, key, record);
  }

  /** An identical retry always gets the response of its own first run. */
  lemma RetryGetsOwnResponse(cfg: Config, events: seq<Timed>, h: nat, i: nat, j: nat, id: Id, key: string,
                             fingerprint: Option<string>, response: Response)
    requires InHandler(cfg, events, h, i, id, key, fingerprint) && i < j < |events| && TimeMovesOn(events)
    requires events[i].event == Finish(id, response) && cfg.shouldStore(response.status)
    requires Arrives(cfg, events, j, key, fingerprint) && StillValid(cfg, events[i].now, events[j].now)
    ensures OutcomeAt(cfg, events, j) ==
      Replayed(key, Record(response.status, response.body, response.contentType, fingerprint, events[i].now))
  {
    RunEnds(cfg, events, h, i, id, key, fingerprint);
    var record := Record(response.status, response.body, response.contentType, fingerprint, events[i].now);
    SavedIsAnswered(cfg, events, i, j, key, record, fingerprint);
  }

  // Event i has saved the entry.
  ghost predicate Saves(cfg: Config, events: seq<Timed>, i: nat, key: string, entry: Entry) {
    && i < |events| && OutcomeAt(cfg, events, i) == Saved(key, entry.record)
    && entry.expiresAt == if cfg.ttl != 0 then Some(events[i].now + cfg.ttl) else None
  }

  lemma {:induction false} EntryWasSaved(cfg: Config, events: seq<Timed>, n: nat, key: string) returns (i: nat)
    requires n <= |events| && key in StateAt(cfg, events, n).records
    ensures i < n && Saves(cfg, events, i, key, StateAt(cfg, events, n).records[key])
    decreases n
  {
    var st, e := StateAt(cfg, events, n - 1), events[n - 1];
    var entry := StateAt(cfg, events, n).records[key];
    if OutcomeAt(cfg, events, n - 1) == Saved(key, entry.record) {
      i := n - 1;
      NewEntrySaved(cfg, st, e.event, e.now, key);
    } else {
      OldEntry(cfg, st, e.event, e.now, key);
      i := EntryWasSaved(cfg, events, n - 1, key);
    }
  }

  lemma NewEntrySaved(cfg: Config, st: State, e: Event, now: int, key: string)
    requires key in Step(cfg, st, e, now).0.records
    requires Step(cfg, st, e, now).1 == Saved(key, Step(cfg, st, e, now).0.records[key].record)
    ensures Step(cfg, st, e, now).0.records[key].expiresAt == if cfg.ttl != 0 then Some(now + cfg.ttl) else None
  {
  }

  lemma OldEntry(cfg: Config, st: State, e: Event, now: int, key: string)
    requires key in Step(cfg, st, e, now).0.records
    requires Step(cfg, st, e, now).1 != Saved(key, Step(cfg, st, e, now).0.records[key].record)
    ensures key in st.records && Step(cfg, st, e, now).0.records[key] == st.records[key]
  {
  }

  /** Nothing else is ever replayed: the record was saved for this key before, and is still valid. */
  lemma OnlySavedIsReplayed(cfg: Config, events: seq<Timed>, j: nat, key: string, record: Record)
    requires j < |events| && OutcomeAt(cfg, events, j) == Replayed(key, record)
    ensures exists i :: 0 <= i < j && OutcomeAt(cfg, events, i) == Saved(key, record)
                        && StillValid(cfg, events[i].now, events[j].now)
  {
    var i := EntryWasSaved(cfg, events, j, key);
    assert !Expired(StateAt(cfg, events, j).records[key], events[j].now);
  }

  /** And a conflict is always one with such a record. */
  lemma OnlySavedConflicts(cfg: Config, events: seq<Timed>, j: nat, key: string) returns (i: nat, record: Record)
    requires j < |events| && OutcomeAt(cfg, events, j) == Conflict(key)
    ensures i < j && OutcomeAt(cfg, events, i) == Saved(key, record) && StillValid(cfg, events[i].now, events[j].now)
  {
    i := EntryWasSaved(cfg, events, j, key);
    record := StateAt(cfg, events, j).records[key].record;
    assert !Expired(StateAt(cfg, events, j).records[key], events[j].now);
  }

  ghost predicate SomeoneRuns(st: State, key: string) {
    exists id: Id :: Running(st, id, key)
  }

  /** A request is told that its key is busy exactly while no valid response is stored and another request runs. */
  lemma BusyIff(cfg: Config, events: seq<Timed>, j: nat, key: string, fingerprint: Option<string>)
    requires Arrives(cfg, events, j, key, fingerprint) && key != ""
    ensures OutcomeAt(cfg, events, j) == Busy(key) <==> SomeoneRuns(StateAt(cfg, events, j), key)
  {
    RunKeepsInv(cfg, events, j);
  }

  /** Requests without a key pass through and leave no trace. */
  lemma KeylessPasses(cfg: Config, st: State, id: Id, fingerprint: Option<string>, now: int)
    ensures Step(cfg, st, Arrive(id, "", fingerprint), now) == (st, Passed)
  {
  }

  /** A closed request is forgotten, and a finished one is not saved or released again. */
  lemma EndsOnce(cfg: Config, st: State, id: Id, response: Response, now: int)
    ensures id !in Step(cfg, st, Close(id), now).0.open
    ensures id in st.open && st.open[id].completed ==>
      && Step(cfg, st, Finish(id, response), now) == (st, Nothing)
      && Step(cfg, st, Close(id), now) == (st.(open := st.open - {id}), Nothing)
  {
  }
}
