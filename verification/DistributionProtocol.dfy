/**
 A whole call of src/services/distributionEngine.ts as a function of the stored tables
 and of the faults it meets, and what any number of calls and crashes lead to.
 */
module DistributionProtocol {
  import opened Wrappers
  import opened Allocation
  import opened PayoutStore
  import opened BatchLoop
  import opened Sequences

  datatype Error = BadRequest | ServiceUnavailable | Internal | StoreError

  datatype BatchResult = BatchResult(run: nat, successful: seq<Payout>, failed: seq<Payout>, total: nat)

  datatype Call = Call(offering: string, period: string, periodHasEnd: bool, cents: int, balances: seq<Balance>)

  predicate ValidInput(c: Call) {
    c.offering != "" && c.cents > 0 && c.period != "" && c.periodHasEnd
  }

  function KeyOf(c: Call): RunKey {
    RunKey(c.offering, c.period, c.cents)
  }

  function PlanFor(c: Call): seq<Payout>
    requires TotalUnits(c.balances) > 0
  {
    Plan(c.balances, c.cents)
  }

  ghost function FindRun(s: Store, key: RunKey): (found: Option<nat>)
    ensures found.Some? ==> found.value in s.runs && s.runs[found.value].key == key
    ensures found.None? ==> forall id :: id in s.runs ==> s.runs[id].key != key
  {
    if exists id :: id in s.runs && s.runs[id].key == key then
      var id :| id in s.runs && s.runs[id].key == key;
      Some(id)
    else None
  }

  // The rows of a run, none if it does not exist.
  function RowsOf(s: Store, id: nat): seq<Payout> {
    if id in s.payouts then s.payouts[id] else []
  }

  // The durable states of a run whose row lists are written one after the other.
  function Stores(s: Store, id: nat, writes: seq<seq<Payout>>): seq<Store> {
    if writes == [] then [] else Stores(s, id, writes[..|writes| - 1]) + [WithRows(s, id, writes[|writes| - 1])]
  }

  function Persisted(w: World, id: nat, t: Tally): World {
    World(WithRows(w.store, id, t.rows), w.nextId, w.journal + Stores(w.store, id, t.writes))
  }

  /** Step 6 on an open run: read its rows, work through the batches, record the status. */
  ghost function Settled(cfg: Config, faults: Faults, w: World, id: nat, plan: seq<Payout>): (World, Result<BatchResult, Error>)
    requires cfg.batchSize > 0
  {
    if !Once(faults, ReadRows) then (w, Failure(StoreError))
    else
      var batches := Batches(plan, cfg.batchSize);
      var t := TallyAt(cfg, faults, batches, RowsOf(w.store, id), |batches|);
      var stored := Persisted(w, id, t);
      var status := if Clean(t) then Completed else Failed;
      (if Once(faults, SetStatus) then Recorded(stored, WithStatus(stored.store, id, status)) else stored,
       Success(BatchResult(id, t.successful, t.failed, |plan|)))
  }

  /** Steps 2 and 5: the run to work on, created or put back to processing. */
  ghost function Opened(cfg: Config, faults: Faults, w: World, key: RunKey): (World, Option<nat>) {
    match FindRun(w.store, key)
    case None =>
      if Served(faults, CreateRun, cfg.maxRetries) then
        (Recorded(w, WithRun(w.store, w.nextId, key, Processing)).(nextId := w.nextId + 1), Some(w.nextId))
      else (w, None)
    case Some(id) =>
      if w.store.runs[id].status == Processing then (w, Some(id))
      else if Once(faults, Reopen) then (Recorded(w, WithStatus(w.store, id, Processing)), Some(id))
      else (w, None)
  }

  ghost predicate HasCompleted(s: Store, key: RunKey) {
    FindRun(s, key).Some? && s.runs[FindRun(s, key).value].status == Completed
  }

  /** distributeWithBatch. */
  ghost function Called(cfg: Config, faults: Faults, w: World, c: Call): (World, Result<BatchResult, Error>)
    requires cfg.batchSize > 0
  {
    if !ValidInput(c) then (w, Failure(BadRequest))
    else if !Once(faults, LookUp) then (w, Failure(StoreError))
    else if HasCompleted(w.store, KeyOf(c)) then
      var id := FindRun(w.store, KeyOf(c)).value;
      if !Once(faults, ReadRows) then (w, Failure(StoreError))
      else (w, Success(BatchResult(id, RowsOf(w.store, id), [], |RowsOf(w.store, id)|)))
    else if !Served(faults, FetchBalances, cfg.maxRetries) then (w, Failure(ServiceUnavailable))
    else if TotalUnits(c.balances) <= 0 then (w, Failure(BadRequest))
    else
      var (ready, target) := Opened(cfg, faults, w, KeyOf(c));
      if target.None? then (ready, Failure(Internal))
      else Settled(cfg, faults, ready, target.value, PlanFor(c))
  }

  /** distribute: failed payouts are an error. */
  ghost function Distributed(cfg: Config, faults: Faults, w: World, c: Call): (World, Result<BatchResult, Error>)
    requires cfg.batchSize > 0
  {
    var (after, r) := Called(cfg, faults, w, c);
    (after, if r.Success? && r.value.failed != [] then Failure(Internal) else r)
  }

  // ----- legal tables -----

  ghost predicate Legal(w: World, plans: Plans) {
    WorldOk(w) && JournalOk(w.journal, plans)
  }

  /** Balances are fixed: every call for a key comes to the same plan. */
  ghost predicate Fixed(c: Call, plans: Plans) {
    TotalUnits(c.balances) > 0 ==> plans(KeyOf(c)) == PlanFor(c)
  }

  // The run may be worked on.
  ghost predicate OpenRun(w: World, id: nat, plan: seq<Payout>, plans: Plans) {
    id in w.store.runs && w.store.runs[id].status != Completed && plan == plans(w.store.runs[id].key)
  }

  lemma LastIsLegal(w: World, plans: Plans)
    requires Legal(w, plans)
    ensures Inv(w.store, plans)
  {
    assert StepOk(w.journal, |w.journal| - 1, plans);
  }

  lemma RecordedLegal(w: World, s: Store, plans: Plans)
    requires Legal(w, plans) && Inv(s, plans) && Grows(w.store, s) && s.runs.Keys == w.store.runs.Keys
    ensures Legal(Recorded(w, s), plans)
  {
    JournalExtends(w.journal, s, plans);
  }

  lemma StatusLegal(w: World, id: nat, status: Status, plan: seq<Payout>, plans: Plans)
    requires Legal(w, plans) && OpenRun(w, id, plan, plans)
    requires status == Completed ==> id in w.store.payouts && AllPaid(w.store.payouts[id], plan)
    ensures Legal(Recorded(w, WithStatus(w.store, id, status)), plans)
  {
    LastIsLegal(w, plans);
    StatusChangeIsSafe(w.store, id, status, plans);
    RecordedLegal(w, WithStatus(w.store, id, status), plans);
  }

  lemma CreatedLegal(w: World, key: RunKey, plans: Plans)
    requires Legal(w, plans) && FindRun(w.store, key).None?
    ensures Legal(Recorded(w, WithRun(w.store, w.nextId, key, Processing)).(nextId := w.nextId + 1), plans)
  {
    LastIsLegal(w, plans);
    NewRunIsSafe(w.store, w.nextId, key, plans);
    JournalExtends(w.journal, WithRun(w.store, w.nextId, key, Processing), plans);
  }

  lemma WithRowsTwice(s: Store, id: nat, a: seq<Payout>, b: seq<Payout>)
    ensures WithRows(WithRows(s, id, a), id, b) == WithRows(s, id, b)
    ensures id in s.payouts ==> WithRows(s, id, s.payouts[id]) == s
  {
  }

  lemma WritesOkInit(rows0: seq<Payout>, writes: seq<seq<Payout>>, rows: seq<Payout>, plan: seq<Payout>)
    requires WritesOk(rows0, writes, rows, plan) && writes != []
    ensures var n := |writes| - 1;
            && WritesOk(rows0, writes[..n], RowsBefore(rows0, writes, n), plan)
            && RowsBefore(rows0, writes, n) <= rows && RowsOk(rows, plan) && rows == writes[n]
  {
    var n := |writes| - 1;
    hide RowsOk;
    assert WriteOk(rows0, writes, plan, n);
    forall k | 0 <= k < n ensures WriteOk(rows0, writes[..n], plan, k) {
      assert WriteOk(rows0, writes, plan, k);
    }
  }

  /** Writing legal row lists one after the other goes through legal tables only. */
  lemma {:induction false} StoresLegal(w: World, id: nat, writes: seq<seq<Payout>>, rows: seq<Payout>,
                                       plan: seq<Payout>, plans: Plans)
    requires Legal(w, plans) && OpenRun(w, id, plan, plans) && id in w.store.payouts
    requires WritesOk(w.store.payouts[id], writes, rows, plan)
    ensures Legal(World(WithRows(w.store, id, rows), w.nextId, w.journal + Stores(w.store, id, writes)), plans)
    decreases |writes|
  {
    var rows0 := w.store.payouts[id];
    if writes == [] {
      WithRowsTwice(w.store, id, rows, rows);
      assert w.journal + [] == w.journal;
    } else {
      var n := |writes| - 1;
      var before := RowsBefore(rows0, writes, n);
      WritesOkInit(rows0, writes, rows, plan);
      StoresLegal(w, id, writes[..n], before, plan, plans);
      var mid := World(WithRows(w.store, id, before), w.nextId, w.journal + Stores(w.store, id, writes[..n]));
      OneMoreWrite(mid, id, rows, plan, plans);
      WithRowsTwice(w.store, id, before, rows);
      Associative(w.journal, Stores(w.store, id, writes[..n]), [WithRows(w.store, id, rows)]);
    }
  }

  lemma OneMoreWrite(w: World, id: nat, rows: seq<Payout>, plan: seq<Payout>, plans: Plans)
    requires Legal(w, plans) && OpenRun(w, id, plan, plans) && id in w.store.payouts
    requires w.store.payouts[id] <= rows && RowsOk(rows, plan)
    ensures Legal(Recorded(w, WithRows(w.store, id, rows)), plans)
  {
    LastIsLegal(w, plans);
    AddingRowsIsSafe(w.store, id, rows, plans);
    RecordedLegal(w, WithRows(w.store, id, rows), plans);
  }

  // The tally of the whole loop on an open run.
  ghost function WholeTally(cfg: Config, faults: Faults, rows0: seq<Payout>, plan: seq<Payout>): Tally
    requires cfg.batchSize > 0
  {
    TallyAt(cfg, faults, Batches(plan, cfg.batchSize), rows0, |Batches(plan, cfg.batchSize)|)
  }

  lemma {:induction false} FlattenBatches(plan: seq<Payout>, batchSize: nat)
    requires batchSize > 0
    ensures Flatten(Batches(plan, batchSize)) == plan
    decreases |plan|
  {
    if plan != [] {
      if |plan| <= batchSize {
        FlattenAppend([], plan);
        assert [] + [plan] == [plan] && [] + plan == plan;
      } else {
        FlattenBatches(plan[batchSize..], batchSize);
        FlattenConcat([plan[..batchSize]], Batches(plan[batchSize..], batchSize));
        FlattenAppend([], plan[..batchSize]);
        assert [] + [plan[..batchSize]] == [plan[..batchSize]] && [] + plan[..batchSize] == plan[..batchSize];
        assert plan == plan[..batchSize] + plan[batchSize..];
      }
    }
  }

  lemma WholeTallyOk(cfg: Config, faults: Faults, rows0: seq<Payout>, plan: seq<Payout>)
    requires cfg.batchSize > 0 && RowsOk(rows0, plan)
    ensures var t := WholeTally(cfg, faults, rows0, plan);
      && TallyOk(cfg, Batches(plan, cfg.batchSize), rows0, plan, t)
      && Flatten(Batches(plan, cfg.batchSize)) == plan
      && (Clean(t) ==> t.rows == rows0 + Missing(plan, Investors(rows0)) && AllPaid(t.rows, plan))
  {
    var batches := Batches(plan, cfg.batchSize);
    FlattenBatches(plan, cfg.batchSize);
    LoopOk(cfg, faults, batches, rows0, |batches|);
    assert batches[..|batches|] == batches;
    InvestorsConcat(rows0, Missing(plan, Investors(rows0)));
  }

  // ----- one call -----

  /** What a call tells its caller about the stored rows. */
  ghost predicate Reported(cfg: Config, result: BatchResult, rows0: seq<Payout>, rows: seq<Payout>, plan: seq<Payout>)
    requires cfg.batchSize > 0
  {
    && (!cfg.pool ==> result.successful == rows)
    && (forall p :: p in result.failed ==> p in plan)
    && (!cfg.pool && result.failed == [] ==> AllPaid(rows, plan))
    && (!cfg.pool && Distinct(plan) ==> Investors(result.failed) == Investors(plan) - Investors(rows))
    && (cfg.pool ==> result.failed == [])
    && (cfg.pool && Distinct(plan) ==>
          forall b :: b in Batches(plan, cfg.batchSize) ==> BatchAtomic(b, Investors(rows0), Investors(rows)))
  }

  lemma ReportFollows(cfg: Config, result: BatchResult, rows0: seq<Payout>, plan: seq<Payout>, t: Tally)
    requires cfg.batchSize > 0 && Flatten(Batches(plan, cfg.batchSize)) == plan
    requires TallyOk(cfg, Batches(plan, cfg.batchSize), rows0, plan, t)
    requires result.successful == t.successful && result.failed == t.failed
    ensures Reported(cfg, result, rows0, t.rows, plan)
  {
  }

  /** Only the run of this key may differ, and no row of it is lost. */
  ghost predicate OthersUntouched(s: Store, t: Store, key: RunKey) {
    forall id :: id in s.runs && id in s.payouts ==>
      && id in t.runs && id in t.payouts && t.runs[id].key == s.runs[id].key && s.payouts[id] <= t.payouts[id]
      && (s.runs[id].key != key ==> t.runs[id] == s.runs[id] && t.payouts[id] == s.payouts[id])
  }

  // The run of a finished call and its rows.
  ghost predicate RunHas(s: Store, id: nat, key: RunKey) {
    id in s.runs && id in s.payouts && s.runs[id].key == key
  }

  lemma PersistedLegal(cfg: Config, faults: Faults, w: World, id: nat, plan: seq<Payout>, plans: Plans)
    requires cfg.batchSize > 0 && Legal(w, plans) && OpenRun(w, id, plan, plans)
    ensures var rows0 := RowsOf(w.store, id); var t := WholeTally(cfg, faults, rows0, plan);
      && RowsOk(rows0, plan) && id in w.store.payouts && rows0 <= t.rows
      && Legal(Persisted(w, id, t), plans)
  {
    LastIsLegal(w, plans);
    var rows0 := RowsOf(w.store, id);
    WholeTallyOk(cfg, faults, rows0, plan);
    var t := WholeTally(cfg, faults, rows0, plan);
    StoresLegal(w, id, t.writes, t.rows, plan, plans);
  }

  lemma PersistedUntouched(w: World, id: nat, t: Tally)
    requires id in w.store.runs && id in w.store.payouts && w.store.payouts[id] <= t.rows
    ensures w.journal <= Persisted(w, id, t).journal
    ensures OthersUntouched(w.store, Persisted(w, id, t).store, w.store.runs[id].key)
  {
  }

  lemma StampedUntouched(w: World, id: nat, status: Status)
    requires id in w.store.runs
    ensures w.journal <= Recorded(w, WithStatus(w.store, id, status)).journal
    ensures OthersUntouched(w.store, WithStatus(w.store, id, status), w.store.runs[id].key)
  {
  }

  lemma JournalTwice(a: seq<Store>, b: seq<Store>, c: seq<Store>)
    requires a <= b <= c
    ensures a <= c
  {
  }

  lemma SettledLegal(cfg: Config, faults: Faults, w: World, id: nat, plan: seq<Payout>, plans: Plans)
    requires cfg.batchSize > 0 && Legal(w, plans) && OpenRun(w, id, plan, plans)
    ensures var (after, r) := Settled(cfg, faults, w, id, plan);
      && Legal(after, plans) && w.journal <= after.journal
      && OthersUntouched(w.store, after.store, w.store.runs[id].key)
      && (r.Failure? ==> after == w)
  {
    var t := WholeTally(cfg, faults, RowsOf(w.store, id), plan);
    var stored, status := Persisted(w, id, t), if Clean(t) then Completed else Failed;
    var stamped := Recorded(stored, WithStatus(stored.store, id, status));
    PersistedLegal(cfg, faults, w, id, plan, plans);
    CleanIsPaid(cfg, faults, w, id, plan);
    hide Legal, WholeTally, OthersUntouched, AllPaid;
    PersistedUntouched(w, id, t);
    StampedUntouched(stored, id, status);
    StatusLegal(stored, id, status, plan, plans);
    hide Recorded, WithStatus, Persisted;
    JournalTwice(w.journal, stored.journal, stamped.journal);
    OthersUntouchedTwice(w.store, stored.store, stamped.store, w.store.runs[id].key);
    SettledIs(cfg, faults, w, id, plan);
  }

  lemma CleanIsPaid(cfg: Config, faults: Faults, w: World, id: nat, plan: seq<Payout>)
    requires cfg.batchSize > 0 && RowsOk(RowsOf(w.store, id), plan)
    ensures var t := WholeTally(cfg, faults, RowsOf(w.store, id), plan); Clean(t) ==> AllPaid(t.rows, plan)
  {
    WholeTallyOk(cfg, faults, RowsOf(w.store, id), plan);
  }

  // The three ways a settlement can end.
  lemma SettledIs(cfg: Config, faults: Faults, w: World, id: nat, plan: seq<Payout>)
    requires cfg.batchSize > 0
    ensures var t := WholeTally(cfg, faults, RowsOf(w.store, id), plan);
      var stored := Persisted(w, id, t);
      var status := if Clean(t) then Completed else Failed;
      Settled(cfg, faults, w, id, plan) ==
        if !Once(faults, ReadRows) then (w, Failure(StoreError))
        else (if Once(faults, SetStatus) then Recorded(stored, WithStatus(stored.store, id, status)) else stored,
              Success(BatchResult(id, t.successful, t.failed, |plan|)))
  {
  }

  lemma SettledReports(cfg: Config, faults: Faults, w: World, id: nat, plan: seq<Payout>, plans: Plans)
    requires cfg.batchSize > 0 && Legal(w, plans) && OpenRun(w, id, plan, plans)
    ensures var (after, r) := Settled(cfg, faults, w, id, plan);
      r.Success? ==>
        && r.value.run == id && r.value.total == |plan| && RunHas(after.store, id, w.store.runs[id].key)
        && Reported(cfg, r.value, RowsOf(w.store, id), RowsOf(after.store, id), plan)
  {
    PersistedLegal(cfg, faults, w, id, plan, plans);
    WholeTallyOk(cfg, faults, RowsOf(w.store, id), plan);
    if Once(faults, ReadRows) {
      var t := WholeTally(cfg, faults, RowsOf(w.store, id), plan);
      ReportFollows(cfg, BatchResult(id, t.successful, t.failed, |plan|), RowsOf(w.store, id), plan, t);
      hide TallyAt, TallyOk, Legal, Reported, RowsOk;
      StatusKeepsRows(Persisted(w, id, t).store, id, if Clean(t) then Completed else Failed);
    }
  }

  lemma StatusKeepsRows(s: Store, id: nat, status: Status)
    ensures WithStatus(s, id, status).payouts == s.payouts && WithStatus(s, id, status).runs.Keys == s.runs.Keys
    ensures id in s.runs ==> WithStatus(s, id, status).runs[id] == s.runs[id].(status := status)
  {
  }

  lemma FoundIsTheOne(s: Store, id: nat, plans: Plans)
    requires Inv(s, plans) && id in s.runs
    ensures FindRun(s, s.runs[id].key) == Some(id)
  {
  }

  lemma OpenedLegal(cfg: Config, faults: Faults, w: World, key: RunKey, plans: Plans)
    requires Legal(w, plans) && !HasCompleted(w.store, key)
    ensures var (ready, target) := Opened(cfg, faults, w, key);
      && Legal(ready, plans) && w.journal <= ready.journal
      && OthersUntouched(w.store, ready.store, key)
      && (target.None? ==> ready == w)
      && (target.Some? ==>
            && OpenRun(ready, target.value, plans(key), plans) && ready.store.runs[target.value] == Run(key, Processing)
            && RowsOf(ready.store, target.value) == RowsOf(w.store, target.value)
            && (FindRun(w.store, key).None? ==> RowsOf(ready.store, target.value) == [] && target.value !in w.store.runs)
            && (FindRun(w.store, key).Some? ==> target == FindRun(w.store, key)))
      && (target.Some? <==> match FindRun(w.store, key)
            case None => Served(faults, CreateRun, cfg.maxRetries)
            case Some(id) => w.store.runs[id].status == Processing || Once(faults, Reopen))
  {
    LastIsLegal(w, plans);
    match FindRun(w.store, key)
    case None =>
      CreatedLegal(w, key, plans);
    case Some(id) =>
      StatusLegal(w, id, Processing, plans(key), plans);
  }

  lemma OthersUntouchedTwice(a: Store, b: Store, c: Store, key: RunKey)
    requires OthersUntouched(a, b, key) && OthersUntouched(b, c, key)
    ensures OthersUntouched(a, c, key)
  {
    forall id | id in a.runs && id in a.payouts ensures id in c.payouts && a.payouts[id] <= c.payouts[id] {
      PrefixTransitive(a.payouts[id], b.payouts[id], c.payouts[id]);
    }
  }

  // A call that changes anything opens the run of its key and settles it.
  lemma CalledIs(cfg: Config, faults: Faults, w: World, c: Call)
    requires cfg.batchSize > 0
    ensures var (after, r) := Called(cfg, faults, w, c);
      var (ready, target) := Opened(cfg, faults, w, KeyOf(c));
      || (after == w && (HasCompleted(w.store, KeyOf(c)) || r.Failure?))
      || (!HasCompleted(w.store, KeyOf(c)) && target.None? && after == ready && r.Failure?)
      || (!HasCompleted(w.store, KeyOf(c)) && target.Some? && TotalUnits(c.balances) > 0
          && (after, r) == Settled(cfg, faults, ready, target.value, PlanFor(c)))
  {
  }

  lemma UntouchedItself(s: Store, key: RunKey)
    ensures OthersUntouched(s, s, key)
  {
  }

  /**
   One call, under any faults: the tables stay legal and only grow, only the run of this
   key changes, and a completed run is only read.
   */
  lemma CalledLegal(cfg: Config, faults: Faults, w: World, c: Call, plans: Plans)
    requires cfg.batchSize > 0 && Legal(w, plans) && Fixed(c, plans)
    ensures var (after, r) := Called(cfg, faults, w, c);
      && Legal(after, plans) && w.journal <= after.journal
      && OthersUntouched(w.store, after.store, KeyOf(c))
      && (HasCompleted(w.store, KeyOf(c)) ==> after == w)
  {
    CalledIs(cfg, faults, w, c);
    UntouchedItself(w.store, KeyOf(c));
    if !HasCompleted(w.store, KeyOf(c)) {
      OpenedLegal(cfg, faults, w, KeyOf(c), plans);
      hide Legal, Opened, Settled, OthersUntouched, PlanFor, FindRun, Called;
      var (ready, target) := Opened(cfg, faults, w, KeyOf(c));
      if TotalUnits(c.balances) > 0 && target.Some? {
        SettledLegal(cfg, faults, ready, target.value, PlanFor(c), plans);
        var settled := Settled(cfg, faults, ready, target.value, PlanFor(c)).0;
        JournalTwice(w.journal, ready.journal, settled.journal);
        OthersUntouchedTwice(w.store, ready.store, settled.store, KeyOf(c));
      }
    }
  }

  /** What a call reports about its run is true; a call that fails has not changed any rows. */
  lemma CalledReports(cfg: Config, faults: Faults, w: World, c: Call, plans: Plans)
    requires cfg.batchSize > 0 && Legal(w, plans) && Fixed(c, plans)
    ensures var (after, r) := Called(cfg, faults, w, c);
      && (r.Failure? ==> forall id :: id in w.store.payouts ==> RowsOf(after.store, id) == RowsOf(w.store, id))
      && (r.Success? ==>
            && RunHas(after.store, r.value.run, KeyOf(c))
            && Reported(cfg, r.value, RowsOf(w.store, r.value.run), RowsOf(after.store, r.value.run), plans(KeyOf(c)))
            && r.value.total == (if HasCompleted(w.store, KeyOf(c)) then |RowsOf(w.store, r.value.run)|
                                 else |plans(KeyOf(c))|))
  {
    if HasCompleted(w.store, KeyOf(c)) {
      CachedReport(cfg, w, FindRun(w.store, KeyOf(c)).value, plans);
    } else {
      OpenedLegal(cfg, faults, w, KeyOf(c), plans);
      CalledIs(cfg, faults, w, c);
      var (ready, target) := Opened(cfg, faults, w, KeyOf(c));
      if TotalUnits(c.balances) > 0 && target.Some? {
        hide Legal, Opened, Settled, Reported, Called, FindRun;
        SettledReports(cfg, faults, ready, target.value, PlanFor(c), plans);
        SettledLegal(cfg, faults, ready, target.value, PlanFor(c), plans);
      }
    }
  }

  lemma CachedReport(cfg: Config, w: World, id: nat, plans: Plans)
    requires cfg.batchSize > 0 && Legal(w, plans) && id in w.store.runs && w.store.runs[id].status == Completed
    ensures var rows := RowsOf(w.store, id);
      && RunHas(w.store, id, w.store.runs[id].key)
      && Reported(cfg, BatchResult(id, rows, [], |rows|), rows, rows, plans(w.store.runs[id].key))
  {
    LastIsLegal(w, plans);
  }
}
