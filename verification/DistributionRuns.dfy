/**
 Whole runs of the distribution engine (src/services/distributionEngine.ts): when a call
 completes, what it then has paid, and what any mix of calls, faults and crashes leads to.
 */
module DistributionRuns {
  import opened Wrappers
  import opened Allocation
  import opened PayoutStore
  import opened BatchLoop
  import opened DistributionProtocol

  // ----- when a call completes -----

  // The rows stored for a key before the call.
  ghost function OldRows(s: Store, key: RunKey): seq<Payout> {
    match FindRun(s, key)
    case None => []
    case Some(id) => RowsOf(s, id)
  }

  // The calls before the batch loop are answered.
  ghost predicate Reached(cfg: Config, faults: Faults, s: Store, c: Call) {
    && Once(faults, LookUp)
    && Served(faults, FetchBalances, cfg.maxRetries)
    && (match FindRun(s, KeyOf(c))
        case None => Served(faults, CreateRun, cfg.maxRetries)
        case Some(id) => s.runs[id].status == Processing || Once(faults, Reopen))
    && Once(faults, ReadRows)
  }

  /**
   Every store call that this call has to make is answered: at once where the engine tries
   once, within maxRetries attempts where it retries.
   */
  ghost predicate CallServed(cfg: Config, faults: Faults, s: Store, c: Call)
    requires cfg.batchSize > 0 && TotalUnits(c.balances) > 0
  {
    var batches := Batches(PlanFor(c), cfg.batchSize);
    && Reached(cfg, faults, s, c)
    && AllServed(cfg, faults, batches, OldRows(s, KeyOf(c)), |batches|)
    && Once(faults, SetStatus)
  }

  // A call on a run that is not completed settles it if the batch loop is reached.
  lemma CalledSettles(cfg: Config, faults: Faults, w: World, c: Call, plans: Plans)
    requires cfg.batchSize > 0 && Legal(w, plans) && Fixed(c, plans)
    requires ValidInput(c) && TotalUnits(c.balances) > 0 && !HasCompleted(w.store, KeyOf(c))
    ensures var (after, r) := Called(cfg, faults, w, c);
      var (ready, target) := Opened(cfg, faults, w, KeyOf(c));
      && (r.Success? <==> Reached(cfg, faults, w.store, c))
      && (!r.Success? ==>
            || after == w || after == ready
            || (target.Some? && (after, r) == Settled(cfg, faults, ready, target.value, PlanFor(c))))
      && (r.Success? ==> target.Some? && (after, r) == Settled(cfg, faults, ready, target.value, PlanFor(c)))
  {
    OpenedLegal(cfg, faults, w, KeyOf(c), plans);
  }

  /** A call succeeds exactly if its batch loop is reached; the run then holds what the loop has stored. */
  lemma CalledRows(cfg: Config, faults: Faults, w: World, c: Call, plans: Plans)
    requires cfg.batchSize > 0 && Legal(w, plans) && Fixed(c, plans)
    requires ValidInput(c) && TotalUnits(c.balances) > 0 && !HasCompleted(w.store, KeyOf(c))
    ensures var (after, r) := Called(cfg, faults, w, c);
      && (r.Success? <==> Reached(cfg, faults, w.store, c))
      && (r.Success? ==>
            var t := WholeTally(cfg, faults, OldRows(w.store, KeyOf(c)), PlanFor(c));
            && r.value.failed == t.failed && FindRun(after.store, KeyOf(c)) == Some(r.value.run)
            && RowsOf(after.store, r.value.run) == t.rows
            && (after.store.runs[r.value.run].status == Completed <==> Clean(t) && Once(faults, SetStatus)))
  {
    var (after, r) := Called(cfg, faults, w, c);
    CalledSettles(cfg, faults, w, c, plans);
    CalledLegal(cfg, faults, w, c, plans);
    OpenedLegal(cfg, faults, w, KeyOf(c), plans);
    LastIsLegal(after, plans);
    var (ready, target) := Opened(cfg, faults, w, KeyOf(c));
    hide Legal, Opened, Inv, Called, Reached;
    if r.Success? {
      SettledRun(cfg, faults, ready, target.value, PlanFor(c));
      hide Settled;
      FoundIsTheOne(after.store, target.value, plans);
    }
  }

  /**
   A call completes its run exactly if every store call it has to make is answered; then
   it has stored, in order, the first entry of every investor who had no row.
   */
  lemma CompletesIff(cfg: Config, faults: Faults, w: World, c: Call, plans: Plans)
    requires cfg.batchSize > 0 && Legal(w, plans) && Fixed(c, plans)
    requires ValidInput(c) && TotalUnits(c.balances) > 0 && !HasCompleted(w.store, KeyOf(c))
    ensures var (after, r) := Called(cfg, faults, w, c);
      var rows0 := OldRows(w.store, KeyOf(c));
      && (HasCompleted(after.store, KeyOf(c)) <==> CallServed(cfg, faults, w.store, c))
      && (CallServed(cfg, faults, w.store, c) ==>
            && r.Success? && r.value.failed == [] && FindRun(after.store, KeyOf(c)) == Some(r.value.run)
            && RowsOf(after.store, r.value.run) == rows0 + Missing(PlanFor(c), Investors(rows0)))
  {
    OldRowsOk(w, KeyOf(c), plans);
    CalledRows(cfg, faults, w, c, plans);
    FailureCompletesNothing(cfg, faults, w, c, plans);
    CleanCallIff(cfg, faults, OldRows(w.store, KeyOf(c)), PlanFor(c));
    hide Called, Legal, WholeTally, Clean, AllServed, Reached, FindRun, RowsOk, Fixed, PlanFor, OldRows, RowsOf, Missing;
  }

  lemma CleanCallIff(cfg: Config, faults: Faults, rows0: seq<Payout>, plan: seq<Payout>)
    requires cfg.batchSize > 0 && RowsOk(rows0, plan)
    ensures var t, batches := WholeTally(cfg, faults, rows0, plan), Batches(plan, cfg.batchSize);
      && (Clean(t) <==> AllServed(cfg, faults, batches, rows0, |batches|))
      && (Clean(t) ==> t.failed == [] && t.rows == rows0 + Missing(plan, Investors(rows0)))
  {
    var batches := Batches(plan, cfg.batchSize);
    WholeTallyOk(cfg, faults, rows0, plan);
    LoopCleanIff(cfg, faults, batches, rows0, |batches|);
  }

  lemma OldRowsOk(w: World, key: RunKey, plans: Plans)
    requires Legal(w, plans)
    ensures RowsOk(OldRows(w.store, key), plans(key))
  {
    LastIsLegal(w, plans);
  }

  lemma FailureCompletesNothing(cfg: Config, faults: Faults, w: World, c: Call, plans: Plans)
    requires cfg.batchSize > 0 && Legal(w, plans) && Fixed(c, plans)
    requires ValidInput(c) && TotalUnits(c.balances) > 0 && !HasCompleted(w.store, KeyOf(c))
    ensures var (after, r) := Called(cfg, faults, w, c); r.Failure? ==> !HasCompleted(after.store, KeyOf(c))
  {
    var (after, r) := Called(cfg, faults, w, c);
    CalledSettles(cfg, faults, w, c, plans);
    OpenedLegal(cfg, faults, w, KeyOf(c), plans);
    CalledLegal(cfg, faults, w, c, plans);
    LastIsLegal(after, plans);
    var (ready, target) := Opened(cfg, faults, w, KeyOf(c));
    if r.Failure? && target.Some? {
      SettledFailsIdle(cfg, faults, ready, target.value, PlanFor(c));
      hide Called, Settled, Legal, Opened;
      if after != w {
        FoundIsTheOne(after.store, target.value, plans);
      }
    }
  }

  lemma SettledFailsIdle(cfg: Config, faults: Faults, w: World, id: nat, plan: seq<Payout>)
    requires cfg.batchSize > 0
    ensures var (after, r) := Settled(cfg, faults, w, id, plan); r.Failure? ==> after == w
  {
  }

  lemma SettledRun(cfg: Config, faults: Faults, w: World, id: nat, plan: seq<Payout>)
    requires cfg.batchSize > 0 && id in w.store.runs && w.store.runs[id].status != Completed
    ensures var (after, r) := Settled(cfg, faults, w, id, plan);
      var t := WholeTally(cfg, faults, RowsOf(w.store, id), plan);
      && id in after.store.runs && after.store.runs[id].key == w.store.runs[id].key
      && (r.Success? ==>
            && r.value.run == id && r.value.failed == t.failed && RowsOf(after.store, id) == t.rows
            && (after.store.runs[id].status == Completed <==> Clean(t) && Once(faults, SetStatus)))
  {
  }

  // The calls under withRetry.
  predicate Retried(op: Op) {
    op.FetchBalances? || op.CreateRun? || op.Insert?
  }

  /** Retried calls fail fewer than maxRetries times, the others not at all. */
  ghost predicate Tolerated(cfg: Config, faults: Faults) {
    forall op: Op :: if Retried(op) then Served(faults, op, cfg.maxRetries) else Once(faults, op)
  }

  /** Such faults do not keep a call from completing, whatever was stored before. */
  lemma ToleratedIsServed(cfg: Config, faults: Faults, s: Store, c: Call)
    requires cfg.batchSize > 0 && TotalUnits(c.balances) > 0 && Tolerated(cfg, faults)
    ensures CallServed(cfg, faults, s, c)
  {
    var batches := Batches(PlanFor(c), cfg.batchSize);
    assert Once(faults, LookUp) && Once(faults, ReadRows) && Once(faults, SetStatus) && Once(faults, Reopen);
    assert Served(faults, FetchBalances, cfg.maxRetries) && Served(faults, CreateRun, cfg.maxRetries);
    forall b: nat | b < |batches| ensures BatchServed(cfg, faults, batches, OldRows(s, KeyOf(c)), b) {
      assert Once(faults, Begin(b)) && Once(faults, Commit(b)) && Once(faults, CommitReply(b));
    }
  }

  /** In particular a call that meets no fault completes, if it makes any attempt at all. */
  lemma NoFaultsAreTolerated(cfg: Config, faults: Faults)
    requires cfg.maxRetries >= 1 && forall op: Op, attempt: nat :: !faults(op, attempt)
    ensures Tolerated(cfg, faults)
  {
    forall op: Op ensures Served(faults, op, cfg.maxRetries) && Once(faults, op) {
      assert !faults(op, 1);
    }
  }

  // ----- what a completed run has paid -----

  /** In legal tables a completed run has a row for everyone, and with distinct investors pays the revenue. */
  lemma CompletedIsPaid(w: World, c: Call, plans: Plans)
    requires Legal(w, plans) && Fixed(c, plans) && TotalUnits(c.balances) > 0 && HasCompleted(w.store, KeyOf(c))
    ensures AllPaid(OldRows(w.store, KeyOf(c)), PlanFor(c))
    ensures Distinct(PlanFor(c)) ==> Sum(Cents(OldRows(w.store, KeyOf(c)))) == c.cents
  {
    LastIsLegal(w, plans);
    if Distinct(PlanFor(c)) {
      CompletedRunPaysRevenue(w.store, FindRun(w.store, KeyOf(c)).value, plans, c.balances);
    }
  }

  lemma PlanSum(c: Call)
    requires TotalUnits(c.balances) > 0
    ensures Sum(Cents(PlanFor(c))) == c.cents
  {
    PayoutsSumToRevenue(Units(c.balances), c.cents);
    assert Cents(PlanFor(c)) == Allocate(Units(c.balances), c.cents);
  }

  /**
   A run that one call creates and completes pays the revenue exactly if the entries it
   skips, those of investors listed before, sum to zero.
   */
  lemma FreshRunPaysIff(cfg: Config, faults: Faults, w: World, c: Call, plans: Plans)
    requires cfg.batchSize > 0 && Legal(w, plans) && Fixed(c, plans)
    requires ValidInput(c) && TotalUnits(c.balances) > 0 && FindRun(w.store, KeyOf(c)).None?
    requires CallServed(cfg, faults, w.store, c)
    ensures var (after, r) := Called(cfg, faults, w, c);
      && r.Success? && HasCompleted(after.store, KeyOf(c))
      && RowsOf(after.store, r.value.run) == Missing(PlanFor(c), {})
      && (Sum(Cents(RowsOf(after.store, r.value.run))) == c.cents <==> Sum(Cents(Skipped(PlanFor(c), {}))) == 0)
  {
    CompletesIff(cfg, faults, w, c, plans);
    assert Investors([]) == {};
    FirstEntriesPayIff(PlanFor(c));
    PlanSum(c);
  }

  // ----- what success tells the caller -----

  // A success of this call would mean that everyone has a row.
  ghost predicate SuccessMeansPaid(cfg: Config, faults: Faults, w: World, c: Call)
    requires cfg.batchSize > 0 && TotalUnits(c.balances) > 0
  {
    var (after, r) := Distributed(cfg, faults, w, c);
    r.Success? ==> AllPaid(RowsOf(after.store, r.value.run), PlanFor(c))
  }

  lemma {:induction false} NoBatchBegins(cfg: Config, faults: Faults, batches: seq<seq<Payout>>, rows0: seq<Payout>, n: nat)
    requires cfg.pool && n <= |batches| && forall b: nat :: !Once(faults, Begin(b))
    ensures TallyAt(cfg, faults, batches, rows0, n).rows == rows0 && TallyAt(cfg, faults, batches, rows0, n).failed == []
    decreases n
  {
    if n > 0 {
      NoBatchBegins(cfg, faults, batches, rows0, n - 1);
      assert !Once(faults, Begin(n - 1));
    }
  }

  // Only BEGIN fails.
  const NO_BEGIN: Faults := (op: Op, attempt: nat) => op.Begin?

  /** With a pool a call in which no transaction begins stores nothing and still reports success. */
  lemma PooledSuccessWithoutRows(cfg: Config, w: World, c: Call, plans: Plans)
    requires cfg.batchSize > 0 && cfg.pool && cfg.maxRetries >= 1 && Legal(w, plans) && Fixed(c, plans)
    requires ValidInput(c) && TotalUnits(c.balances) > 0 && !HasCompleted(w.store, KeyOf(c))
    ensures var (after, r) := Distributed(cfg, NO_BEGIN, w, c);
      r.Success? && RowsOf(after.store, r.value.run) == OldRows(w.store, KeyOf(c))
  {
    var faults, batches := NO_BEGIN, Batches(PlanFor(c), cfg.batchSize);
    assert !faults(FetchBalances, 1) && !faults(CreateRun, 1);
    assert Served(faults, FetchBalances, cfg.maxRetries) && Served(faults, CreateRun, cfg.maxRetries);
    CalledRows(cfg, faults, w, c, plans);
    NoBatchBegins(cfg, faults, batches, OldRows(w.store, KeyOf(c)), |batches|);
  }

  /**
   For every pattern of faults, success of distribute means that everyone is paid: exactly
   when no pool is configured, or nothing is attempted at all, or everyone was paid before.
   */
  lemma SuccessMeansPaidIff(cfg: Config, w: World, c: Call, plans: Plans)
    requires cfg.batchSize > 0 && Legal(w, plans) && Fixed(c, plans) && ValidInput(c) && TotalUnits(c.balances) > 0
    ensures (forall faults: Faults :: SuccessMeansPaid(cfg, faults, w, c)) <==>
      !cfg.pool || cfg.maxRetries < 1 || AllPaid(OldRows(w.store, KeyOf(c)), PlanFor(c))
  {
    var key := KeyOf(c);
    if HasCompleted(w.store, key) {
      CompletedIsPaid(w, c, plans);
    }
    if cfg.pool && cfg.maxRetries >= 1 && !AllPaid(OldRows(w.store, key), PlanFor(c)) {
      PooledSuccessWithoutRows(cfg, w, c, plans);
      assert !SuccessMeansPaid(cfg, NO_BEGIN, w, c);
    } else {
      forall faults: Faults ensures SuccessMeansPaid(cfg, faults, w, c) {
        SuccessIsPaid(cfg, faults, w, c, plans);
      }
    }
  }

  lemma SuccessIsPaid(cfg: Config, faults: Faults, w: World, c: Call, plans: Plans)
    requires cfg.batchSize > 0 && Legal(w, plans) && Fixed(c, plans) && ValidInput(c) && TotalUnits(c.balances) > 0
    requires !cfg.pool || cfg.maxRetries < 1 || AllPaid(OldRows(w.store, KeyOf(c)), PlanFor(c))
    ensures SuccessMeansPaid(cfg, faults, w, c)
  {
    CalledReports(cfg, faults, w, c, plans);
    CalledLegal(cfg, faults, w, c, plans);
    var (after, r) := Called(cfg, faults, w, c);
    if r.Success? {
      if HasCompleted(w.store, KeyOf(c)) {
        CompletedIsPaid(w, c, plans);
      } else if AllPaid(OldRows(w.store, KeyOf(c)), PlanFor(c)) {
        PaidStaysPaid(cfg, faults, w, c, plans);
      }
    }
  }

  lemma PaidStaysPaid(cfg: Config, faults: Faults, w: World, c: Call, plans: Plans)
    requires cfg.batchSize > 0 && Legal(w, plans) && Fixed(c, plans)
    requires ValidInput(c) && TotalUnits(c.balances) > 0 && AllPaid(OldRows(w.store, KeyOf(c)), PlanFor(c))
    requires Called(cfg, faults, w, c).1.Success? && !HasCompleted(w.store, KeyOf(c))
    ensures var (after, r) := Called(cfg, faults, w, c); AllPaid(RowsOf(after.store, r.value.run), PlanFor(c))
  {
    CalledRows(cfg, faults, w, c, plans);
    OldRowsOk(w, KeyOf(c), plans);
    WholeTallyOk(cfg, faults, OldRows(w.store, KeyOf(c)), PlanFor(c));
    var t := WholeTally(cfg, faults, OldRows(w.store, KeyOf(c)), PlanFor(c));
    TallyGrows(cfg, OldRows(w.store, KeyOf(c)), PlanFor(c), t);
    PrefixInvestors(OldRows(w.store, KeyOf(c)), t.rows);
  }

  lemma TallyGrows(cfg: Config, rows0: seq<Payout>, plan: seq<Payout>, t: Tally)
    requires cfg.batchSize > 0 && TallyOk(cfg, Batches(plan, cfg.batchSize), rows0, plan, t)
    ensures rows0 <= t.rows
  {
  }

  /** With a pool as well, success on a run whose stored status is completed means the whole revenue is paid. */
  lemma CompletedSuccessIsPaid(cfg: Config, faults: Faults, w: World, c: Call, plans: Plans)
    requires cfg.batchSize > 0 && Legal(w, plans) && Fixed(c, plans) && TotalUnits(c.balances) > 0
    requires Distributed(cfg, faults, w, c).1.Success?
    ensures var (after, r) := Distributed(cfg, faults, w, c);
      && r.value.run in after.store.runs && after.store.runs[r.value.run].key == KeyOf(c)
      && (after.store.runs[r.value.run].status == Completed ==>
            && AllPaid(RowsOf(after.store, r.value.run), PlanFor(c))
            && (Distinct(PlanFor(c)) ==> Sum(Cents(RowsOf(after.store, r.value.run))) == c.cents))
  {
    CalledLegal(cfg, faults, w, c, plans);
    CalledReports(cfg, faults, w, c, plans);
    var (after, r) := Distributed(cfg, faults, w, c);
    LastIsLegal(after, plans);
    FoundIsTheOne(after.store, r.value.run, plans);
    if after.store.runs[r.value.run].status == Completed {
      CompletedIsPaid(after, c, plans);
    }
  }

  // ----- calls and crashes -----

  /** A call that runs to its end, or a process that dies after so many durable writes of a call. */
  datatype Incident =
    | Finished(call: Call, faults: Faults)
    | Crashed(call: Call, faults: Faults, writes: nat)

  // The tables a crash leaves after the given log entry.
  function CutAt(w: World, k: nat): World
    requires 0 < k <= |w.journal|
  {
    World(w.journal[k - 1], w.nextId, w.journal[..k])
  }

  function Min(a: nat, b: nat): nat {
    if a <= b then a else b
  }

  ghost function Survived(cfg: Config, w: World, e: Incident): World
    requires cfg.batchSize > 0 && WorldOk(w)
  {
    var after := Called(cfg, e.faults, w, e.call).0;
    match e
    case Finished(_, _) => after
    case Crashed(_, _, writes) =>
      if |w.journal| <= |after.journal| then CutAt(after, Min(|w.journal| + writes, |after.journal|)) else after
  }

  lemma CutIsLegal(w: World, k: nat, plans: Plans)
    requires Legal(w, plans) && 0 < k <= |w.journal|
    ensures Legal(CutAt(w, k), plans)
  {
    CrashLeavesLegalHistory(w.journal, k, plans);
    HistoryGrows(w.journal, k - 1, |w.journal| - 1, plans);
  }

  lemma SurvivedLegal(cfg: Config, w: World, e: Incident, plans: Plans)
    requires cfg.batchSize > 0 && Legal(w, plans) && Fixed(e.call, plans)
    ensures Legal(Survived(cfg, w, e), plans) && w.journal <= Survived(cfg, w, e).journal
  {
    CalledLegal(cfg, e.faults, w, e.call, plans);
    var after := Called(cfg, e.faults, w, e.call).0;
    if e.Crashed? {
      var k := Min(|w.journal| + e.writes, |after.journal|);
      CutIsLegal(after, k, plans);
      assert after.journal[..k][..|w.journal|] == after.journal[..|w.journal|];
    }
  }

  ghost predicate AllFixed(es: seq<Incident>, plans: Plans) {
    forall i :: 0 <= i < |es| ==> Fixed(es[i].call, plans)
  }

  ghost function AfterAll(cfg: Config, w: World, es: seq<Incident>, plans: Plans): (after: World)
    requires cfg.batchSize > 0 && Legal(w, plans) && AllFixed(es, plans)
    ensures Legal(after, plans)
    decreases |es|
  {
    if es == [] then w
    else
      SurvivedLegal(cfg, AfterAll(cfg, w, es[..|es| - 1], plans), es[|es| - 1], plans);
      Survived(cfg, AfterAll(cfg, w, es[..|es| - 1], plans), es[|es| - 1])
  }

  lemma EmptyIsLegal(plans: Plans)
    ensures Legal(EMPTY_WORLD, plans)
  {
    assert StepOk(EMPTY_WORLD.journal, 0, plans);
  }

  /** Any mix of calls, faults and crashes at any durable point extends one legal history. */
  lemma {:induction false} AnyIncidentsExtendHistory(cfg: Config, w: World, es: seq<Incident>, plans: Plans)
    requires cfg.batchSize > 0 && Legal(w, plans) && AllFixed(es, plans)
    ensures Legal(AfterAll(cfg, w, es, plans), plans) && w.journal <= AfterAll(cfg, w, es, plans).journal
    decreases |es|
  {
    if es != [] {
      var init := es[..|es| - 1];
      AnyIncidentsExtendHistory(cfg, w, init, plans);
      SurvivedLegal(cfg, AfterAll(cfg, w, init, plans), es[|es| - 1], plans);
      JournalTwice(w.journal, AfterAll(cfg, w, init, plans).journal, AfterAll(cfg, w, es, plans).journal);
    }
  }

  /**
   After any such history one call whose faults are tolerated completes the run: everyone
   has exactly one row, and with distinct investors the rows pay the revenue.
   */
  lemma OneGoodCallPays(cfg: Config, w: World, es: seq<Incident>, faults: Faults, c: Call, plans: Plans)
    requires cfg.batchSize > 0 && Legal(w, plans) && AllFixed(es, plans) && Fixed(c, plans)
    requires ValidInput(c) && TotalUnits(c.balances) > 0 && Tolerated(cfg, faults)
    ensures var before := AfterAll(cfg, w, es, plans);
      var (after, r) := Distributed(cfg, faults, before, c);
      && r.Success? && HasCompleted(after.store, KeyOf(c)) && Legal(after, plans)
      && AllPaid(OldRows(after.store, KeyOf(c)), PlanFor(c))
      && (Distinct(PlanFor(c)) ==> Sum(Cents(OldRows(after.store, KeyOf(c)))) == c.cents)
  {
    var before := AfterAll(cfg, w, es, plans);
    CalledLegal(cfg, faults, before, c, plans);
    if !HasCompleted(before.store, KeyOf(c)) {
      ToleratedIsServed(cfg, faults, before.store, c);
      CompletesIff(cfg, faults, before, c, plans);
    } else {
      assert Once(faults, LookUp) && Once(faults, ReadRows);
    }
    CompletedIsPaid(Called(cfg, faults, before, c).0, c, plans);
  }
}
