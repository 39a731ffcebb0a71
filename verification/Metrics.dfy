/** The metrics registry (src/lib/metrics.ts): recording under a cardinality limit. */
module Metrics {
  import opened MetricKeys

  datatype Config = Config(enabled: bool, maxPoints: int, maxCardinality: int,
                           redact: string -> string, order: set<string> -> seq<string>)

  datatype State = State(counters: map<string, real>, gauges: map<string, real>, histograms: map<string, seq<real>>,
                         cardinality: int)

  const EMPTY := State(map[], map[], map[], 0)

  /** A recording call, reduced to the key it computes. */
  datatype Recording =
    | Increment(key: string, value: real)
    | Set(key: string, value: real)
    | Observe(key: string, value: real)

  function Keys(st: State): set<string> {
    st.counters.Keys + st.gauges.Keys + st.histograms.Keys
  }

  // Pushes one observation and shifts the oldest out if there are too many.
  function Pushed(observations: seq<real>, value: real, maxPoints: int): seq<real> {
    var all := observations + [value];
    if |all| > maxPoints then all[1..] else all
  }

  function Update(cfg: Config, st: State, r: Recording): State {
    match r
    case Increment(key, value) =>
      st.(counters := st.counters[key := (if key in st.counters then st.counters[key] else 0.0) + value])
    case Set(key, value) =>
      st.(gauges := st.gauges[key := value])
    case Observe(key, value) =>
      var observations := if key in st.histograms then st.histograms[key] else [];
      st.(histograms := st.histograms[key := Pushed(observations, value, cfg.maxPoints)])
  }

  /** A recording under a new key is dropped once the limit is reached. */
  function Record(cfg: Config, st: State, r: Recording): State {
    if !cfg.enabled then st
    else if r.key in Keys(st) then Update(cfg, st, r)
    else if st.cardinality >= cfg.maxCardinality then st
    else Update(cfg, st.(cardinality := st.cardinality + 1), r)
  }

  class MetricsCollector {
    const cfg: Config
    var counters: map<string, real>
    var gauges: map<string, real>
    var histograms: map<string, seq<real>>
    var cardinalityCount: int

    constructor (cfg: Config)
      ensures this.cfg == cfg && Contents() == EMPTY
    {
      this.cfg := cfg;
      counters, gauges, histograms, cardinalityCount := map[], map[], map[], 0;
    }

    ghost function Contents(): State
      reads this
    {
      State(counters, gauges, histograms, cardinalityCount)
    }

    method CheckCardinality(key: string) returns (ok: bool)
      modifies this`cardinalityCount
      ensures ok == (key in Keys(old(Contents())) || old(cardinalityCount) < cfg.maxCardinality)
      ensures cardinalityCount == old(cardinalityCount) + if ok && key !in Keys(old(Contents())) then 1 else 0
    {
      if key !in counters && key !in gauges && key !in histograms {
        if cardinalityCount >= cfg.maxCardinality { return false; }
        cardinalityCount := cardinalityCount + 1;
      }
      return true;
    }

    method IncrementCounter(name: string, labels: seq<Pair>, value: real)
      requires IsOrder(cfg.order)
      modifies this
      ensures Contents() ==
        Record(cfg, old(Contents()), Increment(GetMetricKey(name, labels, cfg.redact, cfg.order), value))
    {
      if !cfg.enabled { return; }
      var key := GetMetricKey(name, labels, cfg.redact, cfg.order);
      var ok := CheckCardinality(key);
      if !ok { return; }
      var current := if key in counters then counters[key] else 0.0;
      counters := counters[key := current + value];
    }

    method SetGauge(name: string, value: real, labels: seq<Pair>)
      requires IsOrder(cfg.order)
      modifies this
      ensures Contents() == Record(cfg, old(Contents()), Set(GetMetricKey(name, labels, cfg.redact, cfg.order), value))
    {
      if !cfg.enabled { return; }
      var key := GetMetricKey(name, labels, cfg.redact, cfg.order);
      var ok := CheckCardinality(key);
      if !ok { return; }
      gauges := gauges[key := value];
    }

    method RecordHistogram(name: string, value: real, labels: seq<Pair>)
      requires IsOrder(cfg.order)
      modifies this
      ensures Contents() ==
        Record(cfg, old(Contents()), Observe(GetMetricKey(name, labels, cfg.redact, cfg.order), value))
    {
      if !cfg.enabled { return; }
      var key := GetMetricKey(name, labels, cfg.redact, cfg.order);
      var ok := CheckCardinality(key);
      if !ok { return; }
      var observations := if key in histograms then histograms[key] else [];
      observations := observations + [value];
      if |observations| > cfg.maxPoints { observations := observations[1..]; }
      histograms := histograms[key := observations];
    }

    method Reset()
      modifies this
      ensures Contents() == EMPTY
    {
      counters, gauges, histograms, cardinalityCount := map[], map[], map[], 0;
    }
  }

  // ----- whole runs -----

  function Replay(cfg: Config, rs: seq<Recording>, n: nat): State
    requires n <= |rs|
  {
    if n == 0 then EMPTY else Record(cfg, Replay(cfg, rs, n - 1), rs[n - 1])
  }

  /** The distinct keys of the first n recordings, by first use. */
  function Distinct(rs: seq<Recording>, n: nat): (keys: seq<string>)
    requires n <= |rs|
    ensures forall i, j :: 0 <= i < j < |keys| ==> keys[i] != keys[j]
  {
    if n == 0 then []
    else
      var before := Distinct(rs, n - 1);
      if rs[n - 1].key in before then before else before + [rs[n - 1].key]
  }

  function Limit(cfg: Config): nat {
    if cfg.maxCardinality < 0 then 0 else cfg.maxCardinality
  }

  function Take<T>(s: seq<T>, n: nat): seq<T> {
    if |s| <= n then s else s[..n]
  }

  /** The series that get in: the first distinct keys, up to the limit. */
  function Admitted(cfg: Config, rs: seq<Recording>, n: nat): seq<string>
    requires n <= |rs|
  {
    Take(Distinct(rs, n), Limit(cfg))
  }

  lemma {:induction false} TakeSet(keys: seq<string>)
    requires forall i, j :: 0 <= i < j < |keys| ==> keys[i] != keys[j]
    ensures |(set k | k in keys)| == |keys|
  {
    if keys != [] {
      var init, last := keys[..|keys| - 1], keys[|keys| - 1];
      TakeSet(init);
      assert keys == init + [last];
      assert (set k | k in keys) == (set k | k in init) + {last};
      assert last !in init;
    }
  }

  // The key set and the counter follow the admitted keys.
  ghost predicate FollowsAdmitted(cfg: Config, st: State, admitted: seq<string>) {
    && (forall k :: k in Keys(st) <==> k in admitted)
    && st.cardinality == |admitted|
  }

  lemma RecordFollows(cfg: Config, st: State, before: seq<string>, r: Recording)
    requires cfg.enabled && FollowsAdmitted(cfg, st, Take(before, Limit(cfg)))
    ensures FollowsAdmitted(cfg, Record(cfg, st, r),
              Take(if r.key in before then before else before + [r.key], Limit(cfg)))
  {
    var limit := Limit(cfg);
    var admitted := Take(before, limit);
    var after := if r.key in before then before else before + [r.key];
    assert r.key in admitted ==> r.key in before;
    if r.key in admitted {
      assert Take(after, limit) == admitted;
    } else if |before| >= limit {
      assert Take(after, limit) == admitted;
      assert |admitted| == limit;
    } else {
      assert admitted == before && Take(after, limit) == before + [r.key];
    }
  }

  lemma {:induction false} ReplayFollows(cfg: Config, rs: seq<Recording>, n: nat)
    requires cfg.enabled && n <= |rs|
    ensures FollowsAdmitted(cfg, Replay(cfg, rs, n), Admitted(cfg, rs, n))
  {
    if n > 0 {
      ReplayFollows(cfg, rs, n - 1);
      RecordFollows(cfg, Replay(cfg, rs, n - 1), Distinct(rs, n - 1), rs[n - 1]);
    }
  }

  lemma ReplayIsExact(cfg: Config, rs: seq<Recording>, n: nat)
    requires n <= |rs|
    ensures var st := Replay(cfg, rs, n); st.cardinality == |Keys(st)| <= Limit(cfg)
  {
    var st := Replay(cfg, rs, n);
    if cfg.enabled {
      ReplayFollows(cfg, rs, n);
      var admitted := Admitted(cfg, rs, n);
      TakeSet(admitted);
      assert Keys(st) == (set k | k in admitted);
    } else {
      DisabledIsIdle(cfg, rs, n);
    }
  }

  /** A disabled collector records nothing. */
  lemma {:induction false} DisabledIsIdle(cfg: Config, rs: seq<Recording>, n: nat)
    requires !cfg.enabled && n <= |rs|
    ensures Replay(cfg, rs, n) == EMPTY
  {
    if n > 0 { DisabledIsIdle(cfg, rs, n - 1); }
  }

  // ----- what is stored -----

  /** The total of the increments of a key among the first n recordings. */
  function Total(rs: seq<Recording>, n: nat, key: string): real
    requires n <= |rs|
  {
    if n == 0 then 0.0
    else Total(rs, n - 1, key) + if rs[n - 1].Increment? && rs[n - 1].key == key then rs[n - 1].value else 0.0
  }

  /** All observations of a key among the first n recordings. */
  function Observations(rs: seq<Recording>, n: nat, key: string): seq<real>
    requires n <= |rs|
  {
    if n == 0 then []
    else if rs[n - 1].Observe? && rs[n - 1].key == key then Observations(rs, n - 1, key) + [rs[n - 1].value]
    else Observations(rs, n - 1, key)
  }

  /** The values a gauge was set to. */
  function Settings(rs: seq<Recording>, n: nat, key: string): seq<real>
    requires n <= |rs|
  {
    if n == 0 then []
    else if rs[n - 1].Set? && rs[n - 1].key == key then Settings(rs, n - 1, key) + [rs[n - 1].value]
    else Settings(rs, n - 1, key)
  }

  function LastOf(s: seq<real>, n: int): seq<real> {
    if n <= 0 then [] else if |s| <= n then s else s[|s| - n..]
  }

  lemma PushedLast(s: seq<real>, value: real, n: int)
    ensures Pushed(LastOf(s, n), value, n) == LastOf(s + [value], n)
  {
  }

  // Nothing about a key is stored before its first use.
  lemma {:induction false} UnusedIsEmpty(rs: seq<Recording>, n: nat, key: string)
    requires n <= |rs| && key !in Distinct(rs, n)
    ensures Total(rs, n, key) == 0.0 && Observations(rs, n, key) == [] && Settings(rs, n, key) == []
  {
    if n > 0 { UnusedIsEmpty(rs, n - 1, key); }
  }

  // Everything recorded for one admitted key is stored.
  ghost predicate StoresKey(cfg: Config, st: State, rs: seq<Recording>, n: nat, key: string)
    requires n <= |rs|
  {
    && (if key in st.counters then st.counters[key] else 0.0) == Total(rs, n, key)
    && (if key in st.histograms then st.histograms[key] else []) == LastOf(Observations(rs, n, key), cfg.maxPoints)
    && (key in st.gauges <==> Settings(rs, n, key) != [])
    && (key in st.gauges ==> st.gauges[key] == Settings(rs, n, key)[|Settings(rs, n, key)| - 1])
  }

  lemma RecordStoresKey(cfg: Config, st: State, rs: seq<Recording>, n: nat, key: string)
    requires n < |rs| && StoresKey(cfg, st, rs, n, key)
    requires var after := Record(cfg, st, rs[n]);
      rs[n].key == key ==> after == Update(cfg, st.(cardinality := after.cardinality), rs[n])
    ensures StoresKey(cfg, Record(cfg, st, rs[n]), rs, n + 1, key)
  {
    if rs[n].Observe? && rs[n].key == key {
      PushedLast(Observations(rs, n, key), rs[n].value, cfg.maxPoints);
    }
  }

  /**
   For each admitted key the registry holds exactly what was recorded for it from its first
   use on: the total of the increments, the last gauge setting, the newest observations.
   */
  lemma {:induction false} AdmittedIsComplete(cfg: Config, rs: seq<Recording>, n: nat, key: string)
    requires cfg.enabled && n <= |rs| && (key in Admitted(cfg, rs, n) || key !in Distinct(rs, n))
    ensures StoresKey(cfg, Replay(cfg, rs, n), rs, n, key)
    decreases n
  {
    hide StoresKey, Record, Take;
    if n > 0 {
      var st, r := Replay(cfg, rs, n - 1), rs[n - 1];
      if key in Admitted(cfg, rs, n) {
        AdmittedEarlier(cfg, rs, n, key);
        ReplayFollows(cfg, rs, n);
        if r.key == key { AcceptedIsUpdated(cfg, st, r); }
      }
      AdmittedIsComplete(cfg, rs, n - 1, key);
      RecordStoresKey(cfg, st, rs, n - 1, key);
    } else {
      NothingStored(cfg, rs, key);
    }
  }

  lemma NothingStored(cfg: Config, rs: seq<Recording>, key: string)
    ensures StoresKey(cfg, EMPTY, rs, 0, key)
  {
  }

  // A recording whose key is stored afterwards was not dropped.
  lemma AcceptedIsUpdated(cfg: Config, st: State, r: Recording)
    requires cfg.enabled && r.key in Keys(Record(cfg, st, r))
    ensures Record(cfg, st, r) == Update(cfg, st.(cardinality := Record(cfg, st, r).cardinality), r)
  {
  }

  lemma AdmittedEarlier(cfg: Config, rs: seq<Recording>, n: nat, key: string)
    requires 0 < n <= |rs| && key in Admitted(cfg, rs, n)
    ensures key in Admitted(cfg, rs, n - 1) || key !in Distinct(rs, n - 1)
  {
    var before, after := Distinct(rs, n - 1), Distinct(rs, n);
    var i :| 0 <= i < |Admitted(cfg, rs, n)| && Admitted(cfg, rs, n)[i] == key;
    assert after[i] == key;
    if i < |before| {
      assert before[i] == key && Take(before, Limit(cfg))[i] == key;
    }
  }

  /** A key beyond the limit leaves no trace, however often it is recorded. */
  lemma DroppedLeavesNothing(cfg: Config, rs: seq<Recording>, n: nat, key: string)
    requires cfg.enabled && n <= |rs| && key !in Admitted(cfg, rs, n)
    ensures key !in Keys(Replay(cfg, rs, n))
  {
    ReplayFollows(cfg, rs, n);
  }

  // ----- runs with resets -----

  datatype Call = Recorded(recording: Recording) | Reset

  function Run(cfg: Config, calls: seq<Call>): State {
    if calls == [] then EMPTY
    else
      match calls[|calls| - 1]
      case Recorded(r) => Record(cfg, Run(cfg, calls[..|calls| - 1]), r)
      case Reset => EMPTY
  }

  /** The recordings after the last reset. */
  function SinceReset(calls: seq<Call>): seq<Recording> {
    if calls == [] then []
    else
      match calls[|calls| - 1]
      case Recorded(r) => SinceReset(calls[..|calls| - 1]) + [r]
      case Reset => []
  }

  lemma {:induction false} ReplayPrefix(cfg: Config, rs: seq<Recording>, r: Recording, n: nat)
    requires n <= |rs|
    ensures Replay(cfg, rs + [r], n) == Replay(cfg, rs, n)
    decreases n
  {
    if n > 0 { ReplayPrefix(cfg, rs, r, n - 1); }
  }

  /** A reset starts the registry afresh: all that is proved about recordings holds since the last one. */
  lemma {:induction false} RunSinceReset(cfg: Config, calls: seq<Call>)
    ensures Run(cfg, calls) == Replay(cfg, SinceReset(calls), |SinceReset(calls)|)
    decreases |calls|
  {
    if calls != [] && calls[|calls| - 1].Recorded? {
      var init, r := calls[..|calls| - 1], calls[|calls| - 1].recording;
      RunSinceReset(cfg, init);
      ReplayPrefix(cfg, SinceReset(init), r, |SinceReset(init)|);
    }
  }

  /**
   In every run of recordings and resets the cardinality count is the number of distinct
   stored keys, and never exceeds the limit.
   */
  lemma CardinalityIsExact(cfg: Config, calls: seq<Call>)
    ensures var st := Run(cfg, calls); st.cardinality == |Keys(st)| <= Limit(cfg)
  {
    RunSinceReset(cfg, calls);
    ReplayIsExact(cfg, SinceReset(calls), |SinceReset(calls)|);
  }
}
