/**
 The sliding-window log (src/middleware/startupRegisterRateLimit.ts): the times admitted
 within the last window are kept, older ones are pruned at each request.
 */
module SlidingWindowLimiter {
  import opened Intervals

  function Prune(log: seq<int>, windowStart: int): seq<int> {
    if log == [] then []
    else
      var n := |log| - 1;
      if log[n] > windowStart then Prune(log[..n], windowStart) + [log[n]] else Prune(log[..n], windowStart)
  }

  // The stored log of a key after a history of requests.
  function LogAfter(times: seq<int>, windowMs: int, maxRequests: int): seq<int> {
    if times == [] then []
    else
      var n := |times| - 1;
      var kept := Prune(LogAfter(times[..n], windowMs, maxRequests), times[n] - windowMs);
      if |kept| >= maxRequests then kept else kept + [times[n]]
  }

  // Whether the last request of a history is let through, by the pruned log.
  predicate AdmitsLast(times: seq<int>, windowMs: int, maxRequests: int)
    requires times != []
  {
    var n := |times| - 1;
    |Prune(LogAfter(times[..n], windowMs, maxRequests), times[n] - windowMs)| < maxRequests
  }

  lemma LogAfterOne(times: seq<int>, now: int, windowMs: int, maxRequests: int)
    ensures var kept := Prune(LogAfter(times, windowMs, maxRequests), now - windowMs);
            && (AdmitsLast(times + [now], windowMs, maxRequests) <==> |kept| < maxRequests)
            && LogAfter(times + [now], windowMs, maxRequests)
               == if |kept| < maxRequests then kept + [now] else kept
  {
    assert (times + [now])[..|times|] == times;
  }

  function Admitted(times: seq<int>, windowMs: int, maxRequests: int): seq<int> {
    if times == [] then []
    else
      var n := |times| - 1;
      if AdmitsLast(times, windowMs, maxRequests) then Admitted(times[..n], windowMs, maxRequests) + [times[n]]
      else Admitted(times[..n], windowMs, maxRequests)
  }

  // ----- the limiter -----

  class RegisterLimiter {
    const windowMs: int
    const maxRequests: int
    const skip: bool
    var logs: map<string, seq<int>>
    ghost var requests: map<string, seq<int>>

    function Stored(key: string): seq<int>
      reads this
    {
      if key in logs then logs[key] else []
    }

    ghost function HistoryOf(key: string): seq<int>
      reads this
    {
      if key in requests then requests[key] else []
    }

    ghost predicate Valid()
      reads this
    {
      forall key :: Stored(key) == LogAfter(HistoryOf(key), windowMs, maxRequests)
    }

    constructor (windowMs: int, maxRequests: int, skip: bool)
      ensures Valid() && forall key :: HistoryOf(key) == []
      ensures this.windowMs == windowMs && this.maxRequests == maxRequests && this.skip == skip
    {
      this.windowMs, this.maxRequests, this.skip := windowMs, maxRequests, skip;
      logs, requests := map[], map[];
    }

    /**
     One request. The stored entry is replaced by its pruned copy even when the request
     is rejected: the middleware filters the array of the object it keeps in the store.
     */
    method Handle(key: string, now: int) returns (admitted: bool)
      requires Valid()
      modifies this
      ensures Valid()
      ensures skip ==> admitted && forall k :: HistoryOf(k) == old(HistoryOf(k))
      ensures !skip ==>
        && HistoryOf(key) == old(HistoryOf(key)) + [now]
        && (admitted <==> AdmitsLast(HistoryOf(key), windowMs, maxRequests))
      ensures forall other :: other != key ==> HistoryOf(other) == old(HistoryOf(other))
    {
      if skip {
        return true;
      }
      var timestamps;
      ghost var h := HistoryOf(key);
      assert Stored(key) == LogAfter(h, windowMs, maxRequests);
      admitted, timestamps := Decide(Stored(key), now, h);
      requests := requests[key := h + [now]];
      if admitted || key in logs {
        logs := logs[key := timestamps];
      }
      assert HistoryOf(key) == h + [now] && Stored(key) == timestamps;
      forall other | other != key ensures Stored(other) == LogAfter(HistoryOf(other), windowMs, maxRequests) {
        assert Stored(other) == old(Stored(other)) && HistoryOf(other) == old(HistoryOf(other));
        assert old(Stored(other)) == LogAfter(old(HistoryOf(other)), windowMs, maxRequests);
      }
    }

    method Decide(log: seq<int>, now: int, ghost h: seq<int>) returns (admitted: bool, timestamps: seq<int>)
      requires log == LogAfter(h, windowMs, maxRequests)
      ensures admitted <==> AdmitsLast(h + [now], windowMs, maxRequests)
      ensures timestamps == LogAfter(h + [now], windowMs, maxRequests)
      ensures log == [] && !admitted ==> timestamps == []
    {
      timestamps := PruneLog(log, now - windowMs);
      LogAfterOne(h, now, windowMs, maxRequests);
      admitted := |timestamps| < maxRequests;
      if admitted {
        timestamps := timestamps + [now];
      }
    }
  }

  method PruneLog(log: seq<int>, windowStart: int) returns (kept: seq<int>)
    ensures kept == Prune(log, windowStart)
  {
    kept := [];
    for i := 0 to |log|
      invariant kept == Prune(log[..i], windowStart)
    {
      assert log[..i + 1][..i] == log[..i];
      if log[i] > windowStart {
        kept := kept + [log[i]];
      }
    }
    assert log[..|log|] == log;
  }

  // ----- the pruned log against the full history -----

  lemma {:induction false} PruneTwice(log: seq<int>, early: int, late: int)
    requires early <= late
    ensures Prune(Prune(log, early), late) == Prune(log, late)
  {
    if log != [] {
      var n := |log| - 1;
      PruneTwice(log[..n], early, late);
      PruneOne(Prune(log[..n], early), log[n], late);
    }
  }

  lemma PruneOne(log: seq<int>, t: int, windowStart: int)
    ensures Prune(log + [t], windowStart)
         == if t > windowStart then Prune(log, windowStart) + [t] else Prune(log, windowStart)
  {
    assert (log + [t])[..|log|] == log;
  }

  lemma {:induction false} PruneCounts(log: seq<int>, windowStart: int, now: int)
    requires forall i :: 0 <= i < |log| ==> log[i] <= now
    ensures |Prune(log, windowStart)| == CountIn(log, windowStart + 1, now + 1)
  {
    if log != [] {
      PruneCounts(log[..|log| - 1], windowStart, now);
    }
  }

  lemma {:induction false} AdmittedAreRequests(times: seq<int>, windowMs: int, maxRequests: int, now: int)
    requires Nondecreasing(times) && (times != [] ==> times[|times| - 1] <= now)
    ensures var adm := Admitted(times, windowMs, maxRequests);
            Nondecreasing(adm) && forall i :: 0 <= i < |adm| ==> adm[i] <= now
  {
    if times != [] {
      var n := |times| - 1;
      AdmittedAreRequests(times[..n], windowMs, maxRequests, times[n]);
    }
  }

  /** From the last request on, the stored log prunes to what the full admitted history prunes to. */
  lemma {:induction false} PrunedLogSuffices(times: seq<int>, windowMs: int, maxRequests: int, later: int)
    requires Nondecreasing(times) && (times != [] ==> later >= times[|times| - 1])
    ensures Prune(LogAfter(times, windowMs, maxRequests), later - windowMs)
         == Prune(Admitted(times, windowMs, maxRequests), later - windowMs)
  {
    if times != [] {
      var init, now := times[..|times| - 1], times[|times| - 1];
      PrunedLogSuffices(init, windowMs, maxRequests, now);
      LastRequest(times, windowMs, maxRequests);
      PruneAgain(LogAfter(init, windowMs, maxRequests), Admitted(init, windowMs, maxRequests), now,
                 LogAfter(times, windowMs, maxRequests), Admitted(times, windowMs, maxRequests),
                 now - windowMs, later - windowMs);
    }
  }

  lemma PruneAgain(log: seq<int>, adm: seq<int>, now: int, log': seq<int>, adm': seq<int>, early: int, late: int)
    requires early <= late && Prune(log, early) == Prune(adm, early)
    requires || (log' == Prune(log, early) + [now] && adm' == adm + [now])
             || (log' == Prune(log, early) && adm' == adm)
    ensures Prune(log', late) == Prune(adm', late)
  {
    PruneTwice(adm, early, late);
    PruneOne(Prune(adm, early), now, late);
    PruneOne(adm, now, late);
  }

  // What the last request does to the stored log and to the admitted history.
  lemma LastRequest(times: seq<int>, windowMs: int, maxRequests: int)
    requires times != []
    ensures var init, now := times[..|times| - 1], times[|times| - 1];
            var kept := Prune(LogAfter(init, windowMs, maxRequests), now - windowMs);
            if |kept| < maxRequests then
              && LogAfter(times, windowMs, maxRequests) == kept + [now]
              && Admitted(times, windowMs, maxRequests) == Admitted(init, windowMs, maxRequests) + [now]
            else
              && LogAfter(times, windowMs, maxRequests) == kept
              && Admitted(times, windowMs, maxRequests) == Admitted(init, windowMs, maxRequests)
  {
  }

  /**
   The limiter decides as if it kept everything: a request is rejected exactly when the
   window that ends with it already holds maxRequests admitted requests.
   */
  lemma DecidesAsFullHistory(times: seq<int>, windowMs: int, maxRequests: int)
    requires times != [] && Nondecreasing(times)
    ensures var n := |times| - 1;
            AdmitsLast(times, windowMs, maxRequests) <==>
            CountIn(Admitted(times[..n], windowMs, maxRequests), times[n] - windowMs + 1, times[n] + 1) < maxRequests
  {
    var init, now := times[..|times| - 1], times[|times| - 1];
    var adm := Admitted(init, windowMs, maxRequests);
    PrunedLogSuffices(init, windowMs, maxRequests, now);
    AdmittedAreRequests(init, windowMs, maxRequests, now);
    PruneCounts(adm, now - windowMs, now);
    assert AdmitsLast(times, windowMs, maxRequests) <==> |Prune(adm, now - windowMs)| < maxRequests;
  }

  lemma {:induction false} AdmittedAreSpaced(times: seq<int>, windowMs: int, maxRequests: int)
    requires Nondecreasing(times) && maxRequests >= 1
    ensures Spaced(Admitted(times, windowMs, maxRequests), maxRequests, windowMs)
  {
    if times != [] {
      var n := |times| - 1;
      var adm := Admitted(times[..n], windowMs, maxRequests);
      AdmittedAreSpaced(times[..n], windowMs, maxRequests);
      if AdmitsLast(times, windowMs, maxRequests) {
        DecidesAsFullHistory(times, windowMs, maxRequests);
        AdmittedAreRequests(times[..n], windowMs, maxRequests, times[n]);
        SpacedAppend(adm, times[n], maxRequests, windowMs);
      }
    }
  }

  lemma SpacedAppend(adm: seq<int>, now: int, k: nat, windowMs: int)
    requires k >= 1 && Nondecreasing(adm) && Spaced(adm, k, windowMs)
    requires forall i :: 0 <= i < |adm| ==> adm[i] <= now
    requires CountIn(adm, now - windowMs + 1, now + 1) < k
    ensures Spaced(adm + [now], k, windowMs)
  {
    var all := adm + [now];
    assert forall i :: 0 <= i < |adm| ==> all[i] == adm[i];
    forall i | 0 <= i && i + k <= |adm| ensures adm[i] + windowMs <= now {
      if adm[|adm| - k] > now - windowMs {
        TailCounts(adm, k, now - windowMs + 1, now + 1);
      }
      assert adm[i] <= adm[|adm| - k];
    }
  }

  /** Over every history, a half-open interval of one window length holds at most maxRequests admitted requests. */
  lemma {:induction false} AtMostMaxInAnyWindow(times: seq<int>, windowMs: int, maxRequests: int, from: int)
    requires Nondecreasing(times)
    ensures CountIn(Admitted(times, windowMs, maxRequests), from, from + windowMs)
         <= if maxRequests >= 0 then maxRequests else 0
  {
    if maxRequests <= 0 {
      if times != [] { AtMostMaxInAnyWindow(times[..|times| - 1], windowMs, maxRequests, from); }
    } else {
      if times != [] {
        AdmittedAreRequests(times, windowMs, maxRequests, times[|times| - 1]);
      }
      AdmittedAreSpaced(times, windowMs, maxRequests);
      SpacedCount(Admitted(times, windowMs, maxRequests), maxRequests, from, windowMs);
    }
  }
}
