/**
 What a call of src/services/distributionEngine.ts answers and which run it is about, in
 terms of the arguments it was given and the attempts that raised.
 */
module DistributionAnswers {
  import opened Wrappers
  import opened Allocation
  import opened PayoutStore
  import opened BatchLoop
  import opened DistributionProtocol
  import opened DistributionRuns

  // ----- the run of a call -----

  /** The run that a call reports has the offering, period and amount of the call. */
  lemma ReportedRunIsOwn(cfg: Config, faults: Faults, w: World, c: Call, plans: Plans)
    requires cfg.batchSize > 0 && Legal(w, plans) && Fixed(c, plans)
    requires Distributed(cfg, faults, w, c).1.Success?
    ensures var (after, r) := Distributed(cfg, faults, w, c);
      && r.value.run in after.store.runs
      && var key := after.store.runs[r.value.run].key;
         key.offering == c.offering && key.period == c.period && key.cents == c.cents
  {
    CalledReports(cfg, faults, w, c, plans);
  }

  predicate Differ(c: Call, d: Call) {
    c.offering != d.offering || c.period != d.period || c.cents != d.cents
  }

  // A later state of the same history keeps every run with its key.
  lemma LaterHasRun(w: World, later: World, id: nat, plans: Plans)
    requires Legal(w, plans) && Legal(later, plans) && w.journal <= later.journal && id in w.store.runs
    ensures id in later.store.runs && later.store.runs[id].key == w.store.runs[id].key
    ensures id in w.store.payouts && id in later.store.payouts
  {
    assert later.journal[|w.journal| - 1] == w.journal[|w.journal| - 1];
    HistoryGrows(later.journal, |w.journal| - 1, |later.journal| - 1, plans);
    LastIsLegal(w, plans);
  }

  /**
   Calls for different offerings, periods or amounts never share a run, whatever happens in
   between, and the later one leaves status and rows of the earlier one's run alone.
   */
  lemma DifferentCallsApart(cfg: Config, w: World, c: Call, faults: Faults, es: seq<Incident>, d: Call, faults': Faults,
                            plans: Plans)
    requires cfg.batchSize > 0 && Legal(w, plans) && Fixed(c, plans) && Fixed(d, plans) && AllFixed(es, plans)
    requires Differ(c, d) && Distributed(cfg, faults, w, c).1.Success?
    ensures var (w1, r1) := Distributed(cfg, faults, w, c);
      && Legal(w1, plans)
      && var w2 := AfterAll(cfg, w1, es, plans);
         var (w3, r3) := Distributed(cfg, faults', w2, d);
         && (r3.Success? ==> r3.value.run != r1.value.run)
         && r1.value.run in w2.store.runs && r1.value.run in w3.store.runs
         && w3.store.runs[r1.value.run] == w2.store.runs[r1.value.run]
         && RowsOf(w3.store, r1.value.run) == RowsOf(w2.store, r1.value.run)
  {
    var (w1, r1) := Distributed(cfg, faults, w, c);
    CalledLegal(cfg, faults, w, c, plans);
    ReportedRunIsOwn(cfg, faults, w, c, plans);
    var w2 := AfterAll(cfg, w1, es, plans);
    AnyIncidentsExtendHistory(cfg, w1, es, plans);
    LaterHasRun(w1, w2, r1.value.run, plans);
    CalledLegal(cfg, faults', w2, d, plans);
    if Distributed(cfg, faults', w2, d).1.Success? { ReportedRunIsOwn(cfg, faults', w2, d, plans); }
  }

  // The arguments are all there.
  predicate Proper(c: Call) {
    c.offering != "" && c.cents > 0 && c.period != "" && c.periodHasEnd && TotalUnits(c.balances) > 0
  }

  // The run is completed, for these arguments, and pays them.
  ghost predicate PaidAs(s: Store, id: nat, c: Call) {
    && id in s.runs && s.runs[id] == Run(RunKey(c.offering, c.period, c.cents), Completed)
    && (forall b :: b in c.balances ==> b.investor in Investors(RowsOf(s, id)))
    && ((forall i, j :: 0 <= i < j < |c.balances| ==> c.balances[i].investor != c.balances[j].investor) ==>
          && Sum(Cents(RowsOf(s, id))) == c.cents
          && (TotalUnits(c.balances) > 0 ==> multiset(RowsOf(s, id)) == multiset(Plan(c.balances, c.cents))))
  }

  lemma GoodCallIsPaid(cfg: Config, w: World, c: Call, faults: Faults, plans: Plans)
    requires cfg.batchSize > 0 && Legal(w, plans) && Fixed(c, plans) && Proper(c) && Tolerated(cfg, faults)
    ensures var (after, r) := Distributed(cfg, faults, w, c);
      r.Success? && Legal(after, plans) && PaidAs(after.store, r.value.run, c)
  {
    assert AfterAll(cfg, w, [], plans) == w;
    OneGoodCallPays(cfg, w, [], faults, c, plans);
    ReportedRunIsOwn(cfg, faults, w, c, plans);
    var (after, r) := Distributed(cfg, faults, w, c);
    LastIsLegal(after, plans);
    FoundIsTheOne(after.store, r.value.run, plans);
    var rows, plan := RowsOf(after.store, r.value.run), Plan(c.balances, c.cents);
    forall b | b in c.balances ensures b.investor in Investors(rows) {
      var i :| 0 <= i < |c.balances| && c.balances[i] == b;
      assert plan[i].investor == b.investor && plan[i] in plan;
    }
    if forall i, j :: 0 <= i < j < |c.balances| ==> c.balances[i].investor != c.balances[j].investor {
      assert Distinct(plan);
      FullyPaidIsTheWholePlan(rows, plan);
    }
  }

  /**
   Each period, each offering and each amount is paid for itself: after a good call for one,
   a good call for another completes a run of its own, pays its own revenue, and leaves the
   first one's run and rows as they are.
   */
  lemma EachIsPaid(cfg: Config, w: World, c: Call, faults: Faults, d: Call, faults': Faults, plans: Plans)
    requires cfg.batchSize > 0 && Legal(w, plans) && Fixed(c, plans) && Fixed(d, plans)
    requires Proper(c) && Proper(d) && Differ(c, d) && Tolerated(cfg, faults) && Tolerated(cfg, faults')
    ensures var (w1, r1) := Distributed(cfg, faults, w, c);
      var (w2, r2) := Distributed(cfg, faults', w1, d);
      && r1.Success? && r2.Success? && r1.value.run != r2.value.run
      && PaidAs(w1.store, r1.value.run, c) && PaidAs(w2.store, r1.value.run, c) && PaidAs(w2.store, r2.value.run, d)
      && RowsOf(w2.store, r1.value.run) == RowsOf(w1.store, r1.value.run)
  {
    GoodCallIsPaid(cfg, w, c, faults, plans);
    var w1 := Distributed(cfg, faults, w, c).0;
    GoodCallIsPaid(cfg, w1, d, faults', plans);
    DifferentCallsApart(cfg, w, c, faults, [], d, faults', plans);
    assert AfterAll(cfg, w1, [], plans) == w1;
  }

  // ----- the answer -----

  // Each of the allowed attempts raises.
  ghost predicate AllRaise(cfg: Config, faults: Faults, op: Op) {
    forall attempt: nat :: 1 <= attempt <= cfg.maxRetries ==> faults(op, attempt)
  }

  // The run of these arguments, in this status.
  ghost predicate HasRun(s: Store, c: Call, id: nat, status: Status) {
    id in s.runs && s.runs[id] == Run(RunKey(c.offering, c.period, c.cents), status)
  }

  ghost predicate HasNoRun(s: Store, c: Call) {
    forall id :: id in s.runs ==> s.runs[id].key != RunKey(c.offering, c.period, c.cents)
  }

  // The run was left failed or pending.
  ghost predicate HasToReopen(s: Store, c: Call) {
    exists id :: HasRun(s, c, id, Status.Failed) || HasRun(s, c, id, Pending)
  }

  /** Calls that are incomplete, or whose lookup raises, change nothing. */
  lemma RejectedAtOnce(cfg: Config, faults: Faults, w: World, c: Call)
    requires cfg.batchSize > 0
    ensures c.offering == "" || c.cents <= 0 || c.period == "" || !c.periodHasEnd ==>
      Distributed(cfg, faults, w, c) == (w, Failure(BadRequest))
    ensures c.offering != "" && c.cents > 0 && c.period != "" && c.periodHasEnd && faults(LookUp, 1) ==>
      Distributed(cfg, faults, w, c) == (w, Failure(StoreError))
  {
  }

  // The checks at the entrance are passed.
  predicate Entered(c: Call, faults: Faults) {
    c.offering != "" && c.cents > 0 && c.period != "" && c.periodHasEnd && !faults(LookUp, 1)
  }

  /** A call for a completed run changes nothing and reports exactly the stored rows. */
  lemma CompletedIsReadOnly(cfg: Config, faults: Faults, w: World, c: Call, id: nat, plans: Plans)
    requires cfg.batchSize > 0 && Legal(w, plans) && Entered(c, faults) && HasRun(w.store, c, id, Completed)
    ensures Distributed(cfg, faults, w, c) ==
      (w, if faults(ReadRows, 1) then Failure(StoreError)
          else Success(BatchResult(id, RowsOf(w.store, id), [], |RowsOf(w.store, id)|)))
  {
    LastIsLegal(w, plans);
    FoundIsTheOne(w.store, id, plans);
  }

  lemma NoRunFound(s: Store, c: Call)
    requires FindRun(s, KeyOf(c)).None?
    ensures HasNoRun(s, c) && forall id, status :: !HasRun(s, c, id, status)
  {
  }

  lemma TheRunFound(s: Store, c: Call, id: nat, plans: Plans)
    requires Inv(s, plans) && FindRun(s, KeyOf(c)) == Some(id)
    ensures !HasNoRun(s, c)
    ensures forall other, status :: HasRun(s, c, other, status) <==> other == id && s.runs[id].status == status
  {
  }

  // How a settled run stands.
  ghost predicate SettledAs(cfg: Config, faults: Faults, t: Tally, s: Store, c: Call, id: nat) {
    && HasRun(s, c, id, if faults(SetStatus, 1) then Processing else if Clean(t) then Completed else Status.Failed)
    && RowsOf(s, id) == t.rows
  }

  lemma SettledStatus(cfg: Config, faults: Faults, w: World, c: Call, id: nat, plan: seq<Payout>)
    requires cfg.batchSize > 0 && HasRun(w.store, c, id, Processing)
    ensures var (after, r) := Settled(cfg, faults, w, id, plan);
      var t := WholeTally(cfg, faults, RowsOf(w.store, id), plan);
      if faults(ReadRows, 1) then r == Failure(StoreError)
      else r.Success? && r.value.run == id && r.value.failed == t.failed && SettledAs(cfg, faults, t, after.store, c, id)
  {
  }

  /**
   Any other call: unavailable balances, empty balances, a run that cannot be created or
   reopened and rows that cannot be read have their own errors. Otherwise the run is settled,
   and its last status is completed exactly if the loop was clean.
   */
  lemma AnswerIs(cfg: Config, faults: Faults, w: World, c: Call, plans: Plans)
    requires cfg.batchSize > 0 && Legal(w, plans) && Fixed(c, plans) && Entered(c, faults)
    requires forall id :: !HasRun(w.store, c, id, Completed)
    ensures var (after, r) := Distributed(cfg, faults, w, c);
      if AllRaise(cfg, faults, FetchBalances) then after == w && r == Failure(ServiceUnavailable)
      else if TotalUnits(c.balances) <= 0 then after == w && r == Failure(BadRequest)
      else if HasNoRun(w.store, c) && AllRaise(cfg, faults, CreateRun) then after == w && r == Failure(Internal)
      else if HasToReopen(w.store, c) && faults(Reopen, 1) then
        after == w && r == Failure(Internal)
      else if faults(ReadRows, 1) then r == Failure(StoreError)
      else
        var t := WholeTally(cfg, faults, OldRows(w.store, KeyOf(c)), PlanFor(c));
        && (if t.failed == [] then r.Success? else r == Failure(Internal))
        && exists id :: SettledAs(cfg, faults, t, after.store, c, id) && (r.Success? ==> r.value.run == id)
  {
    LastIsLegal(w, plans);
    var key := KeyOf(c);
    match FindRun(w.store, key) {
      case None => NoRunFound(w.store, c);
      case Some(id) =>
        TheRunFound(w.store, c, id, plans);
        assert !HasRun(w.store, c, id, Completed);
        assert HasToReopen(w.store, c) <==> w.store.runs[id].status != Processing by {
          assert HasRun(w.store, c, id, w.store.runs[id].status);
        }
    }
    assert AllRaise(cfg, faults, FetchBalances) <==> !Served(faults, FetchBalances, cfg.maxRetries);
    assert AllRaise(cfg, faults, CreateRun) <==> !Served(faults, CreateRun, cfg.maxRetries);
    if TotalUnits(c.balances) > 0 {
      OpenedLegal(cfg, faults, w, key, plans);
      var (ready, target) := Opened(cfg, faults, w, key);
      if target.Some? { SettledStatus(cfg, faults, ready, c, target.value, PlanFor(c)); }
    }
  }

  // ----- the batches -----

  /** Every batch but the last has batchSize entries, and the last has at least one and no more. */
  lemma {:induction false} BatchSizes(plan: seq<Payout>, batchSize: nat, b: nat)
    requires batchSize > 0 && b < |Batches(plan, batchSize)|
    ensures var n, last := |Batches(plan, batchSize)[b]|, b == |Batches(plan, batchSize)| - 1;
      if last then 1 <= n <= batchSize else n == batchSize
    decreases b
  {
    if |plan| > batchSize {
      var rest := plan[batchSize..];
      assert Batches(plan, batchSize)[1..] == Batches(rest, batchSize);
      if b > 0 {
        assert Batches(plan, batchSize)[b] == Batches(rest, batchSize)[b - 1];
        BatchSizes(rest, batchSize, b - 1);
      } else {
        assert Batches(rest, batchSize) != [];
      }
    }
  }
}
