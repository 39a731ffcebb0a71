/** Counting time stamps in an interval, shared by the two rate limiters. */
module Intervals {

  ghost predicate Nondecreasing(ts: seq<int>) {
    forall i, j :: 0 <= i <= j < |ts| ==> ts[i] <= ts[j]
  }

  // How many stamps lie in [lo, hi).
  function CountIn(ts: seq<int>, lo: int, hi: int): nat {
    if ts == [] then 0
    else
      var n := |ts| - 1;
      CountIn(ts[..n], lo, hi) + if lo <= ts[n] < hi then 1 else 0
  }

  // Stamps at least k positions apart are at least `span` apart in time.
  ghost predicate Spaced(ts: seq<int>, k: nat, span: int) {
    forall i, j :: 0 <= i && i + k <= j < |ts| ==> ts[i] + span <= ts[j]
  }

  lemma {:induction false} CountBounds(ts: seq<int>, lo: int, hi: int)
    ensures CountIn(ts, lo, hi) <= |ts|
    ensures (forall i :: 0 <= i < |ts| ==> ts[i] < lo || hi <= ts[i]) ==> CountIn(ts, lo, hi) == 0
    ensures (forall i :: 0 <= i < |ts| ==> lo <= ts[i] < hi) ==> CountIn(ts, lo, hi) == |ts|
  {
    if ts != [] {
      CountBounds(ts[..|ts| - 1], lo, hi);
    }
  }

  lemma {:induction false} CountFromCut(ts: seq<int>, cut: nat, lo: int, hi: int)
    requires cut <= |ts|
    ensures CountIn(ts, lo, hi) <= CountIn(ts[..cut], lo, hi) + (|ts| - cut)
  {
    var n := |ts| - 1;
    if cut == |ts| {
      assert ts[..cut] == ts;
    } else {
      CountFromCut(ts[..n], cut, lo, hi);
      assert ts[..n][..cut] == ts[..cut];
    }
  }

  /** If every k+1 consecutive stamps span an interval of length `span`, it holds at most k of them. */
  lemma {:induction false} SpacedCount(ts: seq<int>, k: nat, lo: int, span: int)
    requires Nondecreasing(ts) && Spaced(ts, k, span)
    ensures CountIn(ts, lo, lo + span) <= k
  {
    if ts != [] {
      var n := |ts| - 1;
      if lo <= ts[n] < lo + span {
        var cut := if k < |ts| then |ts| - k else 0;
        EarlierOnesOutside(ts, k, lo, span, cut);
        CountFromCut(ts, cut, lo, lo + span);
      } else {
        assert forall i :: 0 <= i < n ==> ts[..n][i] == ts[i];
        SpacedCount(ts[..n], k, lo, span);
      }
    }
  }

  lemma EarlierOnesOutside(ts: seq<int>, k: nat, lo: int, span: int, cut: nat)
    requires Nondecreasing(ts) && Spaced(ts, k, span)
    requires cut <= |ts| && (cut > 0 ==> cut + k == |ts| && ts[|ts| - 1] < lo + span)
    ensures CountIn(ts[..cut], lo, lo + span) == 0
  {
    forall i | 0 <= i < cut ensures ts[..cut][i] < lo {
      assert ts[cut - 1] + span <= ts[cut - 1 + k];
    }
    CountBounds(ts[..cut], lo, lo + span);
  }

  // The last k stamps, if they lie in the interval, are counted.
  lemma {:induction false} TailCounts(ts: seq<int>, k: nat, lo: int, hi: int)
    requires Nondecreasing(ts) && 1 <= k <= |ts| && lo <= ts[|ts| - k] && ts[|ts| - 1] < hi
    ensures CountIn(ts, lo, hi) >= k
  {
    if k > 1 {
      assert ts[..|ts| - 1][|ts| - 1 - (k - 1)] == ts[|ts| - k];
      TailCounts(ts[..|ts| - 1], k - 1, lo, hi);
    }
  }
}
