/**
 The fixed-window limiter (src/middleware/rateLimit.ts): one counter a key, reset when
 its window has passed. Time stamps are milliseconds and never decrease.
 */
module FixedWindowLimiter {
  import opened Wrappers
  import opened Intervals
  import opened Sequences

  datatype Window = Window(count: nat, resetAt: int)

  // The window of a key after one more request.
  function Increment(w: Option<Window>, now: int, windowMs: int): Window {
    if w.None? || now >= w.value.resetAt then Window(1, now + windowMs)
    else Window(w.value.count + 1, w.value.resetAt)
  }

  function WindowAfter(times: seq<int>, windowMs: int): Option<Window> {
    if times == [] then None
    else
      var n := |times| - 1;
      Some(Increment(WindowAfter(times[..n], windowMs), times[n], windowMs))
  }

  lemma WindowAfterOne(times: seq<int>, now: int, windowMs: int)
    ensures WindowAfter(times + [now], windowMs) == Some(Increment(WindowAfter(times, windowMs), now, windowMs))
  {
    assert (times + [now])[..|times|] == times;
  }

  // Whether the last request of a history is let through.
  predicate AdmitsLast(times: seq<int>, windowMs: int, limit: int)
    requires times != []
  {
    WindowAfter(times, windowMs).value.count <= limit
  }

  /** The times of the admitted requests of a history. */
  function Admitted(times: seq<int>, windowMs: int, limit: int): seq<int> {
    if times == [] then []
    else
      var n := |times| - 1;
      if AdmitsLast(times, windowMs, limit) then Admitted(times[..n], windowMs, limit) + [times[n]]
      else Admitted(times[..n], windowMs, limit)
  }

  // ----- the limiter -----

  class RateLimiter {
    const limit: int
    const windowMs: int
    var windows: map<string, Window>
    ghost var requests: map<string, seq<int>>  // every request time, by key

    ghost function HistoryOf(key: string): seq<int>
      reads this
    {
      if key in requests then requests[key] else []
    }

    function Lookup(key: string): Option<Window>
      reads this
    {
      if key in windows then Some(windows[key]) else None
    }

    ghost predicate Valid()
      reads this
    {
      forall key :: Lookup(key) == WindowAfter(HistoryOf(key), windowMs)
    }

    constructor (limit: int, windowMs: int)
      ensures Valid() && this.limit == limit && this.windowMs == windowMs
      ensures forall key :: HistoryOf(key) == []
    {
      this.limit, this.windowMs := limit, windowMs;
      windows, requests := map[], map[];
    }

    method Increment(key: string, now: int) returns (count: nat, resetAt: int)
      requires Valid()
      modifies this
      ensures Valid()
      ensures HistoryOf(key) == old(HistoryOf(key)) + [now]
      ensures forall other :: other != key ==> HistoryOf(other) == old(HistoryOf(other))
      ensures WindowAfter(HistoryOf(key), windowMs) == Some(Window(count, resetAt))
    {
      WindowAfterOne(HistoryOf(key), now, windowMs);
      requests := requests[key := HistoryOf(key) + [now]];
      if key !in windows || now >= windows[key].resetAt {
        windows := windows[key := Window(1, now + windowMs)];
      } else {
        windows := windows[key := windows[key].(count := windows[key].count + 1)];
      }
      count, resetAt := windows[key].count, windows[key].resetAt;
      assert HistoryOf(key) == old(HistoryOf(key)) + [now];
      forall other | other != key ensures Lookup(other) == WindowAfter(HistoryOf(other), windowMs) {
        assert Lookup(other) == old(Lookup(other)) && HistoryOf(other) == old(HistoryOf(other));
        assert old(Lookup(other)) == WindowAfter(old(HistoryOf(other)), windowMs);
      }
      assert old(Lookup(key)) == WindowAfter(old(HistoryOf(key)), windowMs);
    }

    /** The middleware: count the request, then let it through or answer 429. */
    method Handle(key: string, now: int) returns (admitted: bool)
      requires Valid()
      modifies this
      ensures Valid()
      ensures HistoryOf(key) == old(HistoryOf(key)) + [now]
      ensures forall other :: other != key ==> HistoryOf(other) == old(HistoryOf(other))
      ensures admitted <==> AdmitsLast(HistoryOf(key), windowMs, limit)
      ensures Admitted(HistoryOf(key), windowMs, limit)
           == if admitted then Admitted(old(HistoryOf(key)), windowMs, limit) + [now]
              else Admitted(old(HistoryOf(key)), windowMs, limit)
    {
      var count, resetAt := Increment(key, now);
      admitted := count <= limit;
      assert HistoryOf(key)[..|HistoryOf(key)| - 1] == old(HistoryOf(key));
    }
  }

  // ----- bounds over every history -----

  /**
   Where the current window stands in the admitted list: it starts at position `first`,
   has admitted at most `limit`, and everything at least `limit` positions before it is
   at least a window older.
   */
  ghost predicate WindowPlace(adm: seq<int>, first: nat, w: Window, windowMs: int, limit: nat) {
    && first < |adm| && adm[first] == w.resetAt - windowMs
    && |adm| - first == (if w.count <= limit then w.count else limit)
    && (forall i :: first <= i < |adm| ==> adm[first] <= adm[i] < w.resetAt)
    && (forall i :: 0 <= i < first ==> adm[i] < adm[first])
    && (forall i :: 0 <= i <= first - limit ==> adm[i] + windowMs <= adm[first])
    && (forall i :: 0 <= i < first - limit ==> adm[i] + windowMs < adm[first])
  }

  // The admitted list is spaced as the two bounds need it.
  ghost predicate WellSpaced(adm: seq<int>, windowMs: int, limit: nat)
    requires limit >= 1
  {
    Nondecreasing(adm) && Spaced(adm, 2 * limit - 1, windowMs) && Spaced(adm, 2 * limit, windowMs + 1)
  }

  lemma {:induction false} AdmittedPlace(times: seq<int>, windowMs: int, limit: nat) returns (first: nat)
    requires times != [] && Nondecreasing(times) && windowMs >= 1 && limit >= 1
    ensures var adm := Admitted(times, windowMs, limit);
            && WindowPlace(adm, first, WindowAfter(times, windowMs).value, windowMs, limit)
            && WellSpaced(adm, windowMs, limit) && adm[|adm| - 1] <= times[|times| - 1]
  {
    var init, now := times[..|times| - 1], times[|times| - 1];
    var adm := Admitted(init, windowMs, limit);
    var w' := WindowAfter(times, windowMs).value;
    AdmittedOne(times, windowMs, limit);
    if init == [] {
      first := 0;
      assert [] + [now] == [now];
    } else {
      first := AdmittedPlace(init, windowMs, limit);
      var w := WindowAfter(init, windowMs).value;
      if now >= w.resetAt {
        NewWindowPlace(adm, first, w, now, windowMs, limit);
        first := |adm|;
      } else {
        SameWindowPlace(adm, first, w, now, windowMs, limit);
      }
    }
  }

  // The last request joins the list exactly when its window still has room.
  lemma AdmittedOne(times: seq<int>, windowMs: int, limit: int)
    requires times != []
    ensures var init, now := times[..|times| - 1], times[|times| - 1];
            var w := Increment(WindowAfter(init, windowMs), now, windowMs);
            && WindowAfter(times, windowMs) == Some(w)
            && (w.count <= limit ==> Admitted(times, windowMs, limit) == Admitted(init, windowMs, limit) + [now])
            && (w.count > limit ==> Admitted(times, windowMs, limit) == Admitted(init, windowMs, limit))
  {
  }

  lemma NewWindowPlace(adm: seq<int>, first: nat, w: Window, now: int, windowMs: int, limit: nat)
    requires limit >= 1 && windowMs >= 1 && now >= w.resetAt
    requires WindowPlace(adm, first, w, windowMs, limit) && WellSpaced(adm, windowMs, limit)
    ensures WindowPlace(adm + [now], |adm|, Window(1, now + windowMs), windowMs, limit)
    ensures WellSpaced(adm + [now], windowMs, limit)
  {
    assert forall i :: 0 <= i < |adm| ==> (adm + [now])[i] == adm[i];
    assert forall i :: 0 <= i <= |adm| - limit ==> adm[i] <= adm[first];
  }

  lemma SameWindowPlace(adm: seq<int>, first: nat, w: Window, now: int, windowMs: int, limit: nat)
    requires limit >= 1 && windowMs >= 1 && adm != [] && adm[|adm| - 1] <= now < w.resetAt
    requires WindowPlace(adm, first, w, windowMs, limit) && WellSpaced(adm, windowMs, limit)
    ensures var w' := Window(w.count + 1, w.resetAt);
            if w.count < limit then
              WindowPlace(adm + [now], first, w', windowMs, limit) && WellSpaced(adm + [now], windowMs, limit)
            else
              WindowPlace(adm, first, w', windowMs, limit)
  {
    assert forall i :: 0 <= i < |adm| ==> (adm + [now])[i] == adm[i];
    assert adm[first] <= now;
  }

  lemma {:induction false} NothingAdmitted(times: seq<int>, windowMs: int, limit: int)
    requires limit <= 0
    ensures Admitted(times, windowMs, limit) == []
  {
    if times != [] {
      NothingAdmitted(times[..|times| - 1], windowMs, limit);
    }
  }

  /**
   Over every history, a half-open interval of one window length holds at most
   2*limit - 1 admitted requests, and a closed one at most 2*limit.
   */
  lemma AtMostTwiceTheLimit(times: seq<int>, windowMs: int, limit: int, from: int)
    requires Nondecreasing(times) && windowMs >= 1
    ensures var adm := Admitted(times, windowMs, limit);
            && CountIn(adm, from, from + windowMs) <= (if limit >= 1 then 2 * limit - 1 else 0)
            && CountIn(adm, from, from + windowMs + 1) <= (if limit >= 1 then 2 * limit else 0)
  {
    if limit <= 0 {
      NothingAdmitted(times, windowMs, limit);
    } else if times != [] {
      var first := AdmittedPlace(times, windowMs, limit);
      var adm := Admitted(times, windowMs, limit);
      SpacedCount(adm, 2 * limit - 1, from, windowMs);
      SpacedCount(adm, 2 * limit, from, windowMs + 1);
    }
  }

  /** A request is rejected only if the window length that ends with it already holds `limit` admitted requests. */
  lemma RejectedOnlyWhenFull(times: seq<int>, windowMs: int, limit: nat)
    requires times != [] && Nondecreasing(times) && windowMs >= 1 && limit >= 1
    requires !AdmitsLast(times, windowMs, limit)
    ensures var n := |times| - 1;
            CountIn(Admitted(times[..n], windowMs, limit), times[n] - windowMs + 1, times[n] + 1) >= limit
  {
    var init, now := times[..|times| - 1], times[|times| - 1];
    AdmittedOne(times, windowMs, limit);
    if init != [] {
      var first := AdmittedPlace(init, windowMs, limit);
      FullWindowCounts(Admitted(init, windowMs, limit), first, WindowAfter(init, windowMs).value, now, windowMs, limit);
    }
  }

  lemma FullWindowCounts(adm: seq<int>, first: nat, w: Window, now: int, windowMs: int, limit: nat)
    requires limit >= 1 && windowMs >= 1 && now < w.resetAt && w.count >= limit
    requires WindowPlace(adm, first, w, windowMs, limit) && WellSpaced(adm, windowMs, limit) && adm[|adm| - 1] <= now
    ensures CountIn(adm, now - windowMs + 1, now + 1) >= limit
  {
    TailCounts(adm, limit, now - windowMs + 1, now + 1);
  }

  // ----- the bounds are attained -----

  function Repeat(t: int, k: nat): seq<int> {
    if k == 0 then [] else Repeat(t, k - 1) + [t]
  }

  // Two bursts around the end of a window that a single early request has opened.
  function Bursts(windowMs: int, limit: nat): seq<int>
    requires limit >= 1
  {
    [0] + Repeat(windowMs - 1, limit - 1) + Repeat(windowMs, limit)
  }

  lemma OneMore(times: seq<int>, t: int, windowMs: int, limit: int)
    requires Increment(WindowAfter(times, windowMs), t, windowMs).count <= limit
    ensures WindowAfter(times + [t], windowMs) == Some(Increment(WindowAfter(times, windowMs), t, windowMs))
    ensures Admitted(times + [t], windowMs, limit) == Admitted(times, windowMs, limit) + [t]
  {
    assert (times + [t])[..|times|] == times;
    AdmittedOne(times + [t], windowMs, limit);
  }

  lemma {:induction false} BurstAdmitted(times: seq<int>, t: int, k: nat, windowMs: int, limit: int)
    requires WindowAfter(times, windowMs).Some?
    requires var w := WindowAfter(times, windowMs).value; t < w.resetAt && w.count + k <= limit
    ensures var w := WindowAfter(times, windowMs).value;
            && WindowAfter(times + Repeat(t, k), windowMs) == Some(Window(w.count + k, w.resetAt))
            && Admitted(times + Repeat(t, k), windowMs, limit) == Admitted(times, windowMs, limit) + Repeat(t, k)
    decreases k
  {
    if k == 0 {
      assert times + [] == times;
      assert Admitted(times, windowMs, limit) + [] == Admitted(times, windowMs, limit);
    } else {
      BurstAdmitted(times, t, k - 1, windowMs, limit);
      hide Increment, WindowAfter, Admitted;
      BurstGrows(times, Repeat(t, k - 1), t, windowMs, limit);
    }
  }

  // One more request of a burst.
  lemma BurstGrows(times: seq<int>, burst: seq<int>, t: int, windowMs: int, limit: int)
    requires WindowAfter(times + burst, windowMs).Some?
    requires var w := WindowAfter(times + burst, windowMs).value; t < w.resetAt && w.count + 1 <= limit
    requires Admitted(times + burst, windowMs, limit) == Admitted(times, windowMs, limit) + burst
    ensures var w := WindowAfter(times + burst, windowMs).value;
            WindowAfter(times + (burst + [t]), windowMs) == Some(Window(w.count + 1, w.resetAt))
    ensures Admitted(times + (burst + [t]), windowMs, limit) == Admitted(times, windowMs, limit) + (burst + [t])
  {
    OneMore(times + burst, t, windowMs, limit);
    hide WindowAfter, Admitted;
    Associative(times, burst, [t]);
    Associative(Admitted(times, windowMs, limit), burst, [t]);
  }

  lemma {:induction false} RepeatElements(t: int, k: nat)
    ensures |Repeat(t, k)| == k && forall i :: 0 <= i < k ==> Repeat(t, k)[i] == t
  {
    if k > 0 {
      RepeatElements(t, k - 1);
    }
  }

  /** All 2*limit requests of the two bursts are admitted, within one closed window length. */
  lemma TwiceTheLimitIsReached(windowMs: int, limit: nat)
    requires windowMs >= 1 && limit >= 1
    ensures Nondecreasing(Bursts(windowMs, limit))
    ensures Admitted(Bursts(windowMs, limit), windowMs, limit) == Bursts(windowMs, limit)
    ensures CountIn(Bursts(windowMs, limit), 0, windowMs + 1) == 2 * limit
  {
    BurstsInOrder(windowMs, limit);
    CountBounds(Bursts(windowMs, limit), 0, windowMs + 1);
    FirstRequest(windowMs, limit);
    BurstAdmitted([0], windowMs - 1, limit - 1, windowMs, limit);
    SecondBurst([0] + Repeat(windowMs - 1, limit - 1), windowMs, limit);
  }

  lemma SecondBurst(before: seq<int>, windowMs: int, limit: nat)
    requires windowMs >= 1 && limit >= 1
    requires WindowAfter(before, windowMs) == Some(Window(limit, windowMs))
    ensures Admitted(before + Repeat(windowMs, limit), windowMs, limit)
         == Admitted(before, windowMs, limit) + Repeat(windowMs, limit)
  {
    OneMore(before, windowMs, windowMs, limit);
    BurstAdmitted(before + [windowMs], windowMs, limit - 1, windowMs, limit);
    RepeatFront(windowMs, limit);
    Associative(before, [windowMs], Repeat(windowMs, limit - 1));
    Associative(Admitted(before, windowMs, limit), [windowMs], Repeat(windowMs, limit - 1));
  }

  lemma FirstRequest(windowMs: int, limit: int)
    requires limit >= 1
    ensures WindowAfter([0], windowMs) == Some(Window(1, windowMs)) && Admitted([0], windowMs, limit) == [0]
  {
    assert [0][..0] == [];
    AdmittedOne([0], windowMs, limit);
  }

  lemma BurstsInOrder(windowMs: int, limit: nat)
    requires windowMs >= 1 && limit >= 1
    ensures Nondecreasing(Bursts(windowMs, limit)) && |Bursts(windowMs, limit)| == 2 * limit
    ensures forall i :: 0 <= i < 2 * limit ==> 0 <= Bursts(windowMs, limit)[i] <= windowMs
  {
    RepeatElements(windowMs - 1, limit - 1);
    RepeatElements(windowMs, limit);
  }

  lemma {:induction false} RepeatFront(t: int, k: nat)
    requires k >= 1
    ensures Repeat(t, k) == [t] + Repeat(t, k - 1)
  {
    if k > 1 {
      RepeatFront(t, k - 1);
    }
  }
}
