/**
 The abstract payout store behind the distribution engine
 (src/db/repositories/distributionRepository.ts), with the transaction envelope of
 src/db/transaction.ts: rows written inside a transaction become durable at COMMIT.
 */
module PayoutStore {
  import opened Wrappers
  import opened Allocation

  datatype Status = Pending | Processing | Completed | Failed

  datatype RunKey = RunKey(offering: string, period: string, cents: int)

  datatype Run = Run(key: RunKey, status: Status)

  /** One durable state of the two tables; payouts are grouped by run id. */
  datatype Store = Store(runs: map<nat, Run>, payouts: map<nat, seq<Payout>>)

  // The allocation each run is meant to pay; fixed because balances are fixed.
  type Plans = RunKey -> seq<Payout>

  function Investors(rows: seq<Payout>): set<string> {
    set r | r in rows :: r.investor
  }

  ghost predicate Distinct(rows: seq<Payout>) {
    forall i, j :: 0 <= i < j < |rows| ==> rows[i].investor != rows[j].investor
  }

  // At most one row per investor, each an entry of the plan.
  ghost predicate RowsOk(rows: seq<Payout>, plan: seq<Payout>) {
    Distinct(rows) && forall r :: r in rows ==> r in plan
  }

  ghost predicate AllPaid(rows: seq<Payout>, plan: seq<Payout>) {
    Investors(plan) <= Investors(rows)
  }

  ghost predicate RunOk(run: Run, rows: seq<Payout>, plan: seq<Payout>) {
    RowsOk(rows, plan) && (run.status == Completed ==> AllPaid(rows, plan))
  }

  ghost predicate Inv(s: Store, plans: Plans) {
    && s.payouts.Keys == s.runs.Keys
    && (forall a, b :: a in s.runs && b in s.runs && s.runs[a].key == s.runs[b].key ==> a == b)
    && (forall id :: id in s.runs ==> RunOk(s.runs[id], s.payouts[id], plans(s.runs[id].key)))
  }

  // Runs and payout rows are never lost, and a completed run never changes again.
  ghost predicate Grows(s: Store, t: Store) {
    forall id :: id in s.runs && id in s.payouts ==>
      && id in t.runs && id in t.payouts
      && t.runs[id].key == s.runs[id].key
      && s.payouts[id] <= t.payouts[id]
      && (s.runs[id].status == Completed ==> t.runs[id] == s.runs[id] && t.payouts[id] == s.payouts[id])
  }

  // Entry k of a history is legal and grows its predecessor.
  ghost predicate StepOk(journal: seq<Store>, k: nat, plans: Plans)
    requires k < |journal|
  {
    Inv(journal[k], plans) && (k > 0 ==> Grows(journal[k - 1], journal[k]))
  }

  ghost predicate JournalOk(journal: seq<Store>, plans: Plans) {
    journal != [] && forall k {:trigger StepOk(journal, k, plans)} :: 0 <= k < |journal| ==> StepOk(journal, k, plans)
  }

  /** A store with its log of durable states, the latest last, and the next run id. */
  datatype World = World(store: Store, nextId: nat, journal: seq<Store>)

  ghost predicate WorldOk(w: World) {
    && w.journal != [] && w.journal[|w.journal| - 1] == w.store
    && w.store.payouts.Keys == w.store.runs.Keys
    && (forall id :: id in w.store.runs ==> id < w.nextId)
  }

  const EMPTY_STORE := Store(map[], map[])

  const EMPTY_WORLD := World(EMPTY_STORE, 0, [EMPTY_STORE])

  // One durable change.
  function Recorded(w: World, s: Store): World {
    World(s, w.nextId, w.journal + [s])
  }

  function WithRows(s: Store, id: nat, rows: seq<Payout>): Store {
    s.(payouts := s.payouts[id := rows])
  }

  function WithStatus(s: Store, id: nat, status: Status): Store {
    if id in s.runs then s.(runs := s.runs[id := s.runs[id].(status := status)]) else s
  }

  function WithRun(s: Store, id: nat, key: RunKey, status: Status): Store {
    Store(s.runs[id := Run(key, status)], s.payouts[id := []])
  }

  /**
   The two tables. The argument `fails` is the environment's choice: a call that fails
   raises and has no effect. `journal` is the log of durable states, so a process that
   dies at any point leaves one of its entries behind to resume from.
   */
  class DistributionRepository {
    var runs: map<nat, Run>
    var payouts: map<nat, seq<Payout>>
    var nextId: nat
    var undo: Option<map<nat, seq<Payout>>>  // rows before the open transaction, if any
    var journal: seq<Store>

    ghost function View(): World
      reads this
    {
      World(Store(runs, if undo.Some? then undo.value else payouts), nextId, journal)
    }

    ghost predicate Valid()
      reads this
    {
      WorldOk(View()) && payouts.Keys == runs.Keys
    }

    constructor ()
      ensures Valid() && undo.None? && View() == EMPTY_WORLD
    {
      runs, payouts, nextId, undo := map[], map[], 0, None;
      journal := [EMPTY_STORE];
    }

    /** The tables as a crash leaves them: the last durable state, and no open transaction. */
    constructor Resume(log: seq<Store>, freshId: nat)
      requires WorldOk(World(if log == [] then EMPTY_STORE else log[|log| - 1], freshId, log))
      ensures Valid() && undo.None? && View() == World(log[|log| - 1], freshId, log)
    {
      runs, payouts := log[|log| - 1].runs, log[|log| - 1].payouts;
      nextId, undo, journal := freshId, None, log;
    }

    method FindRunByParams(key: RunKey, fails: bool) returns (r: Result<Option<nat>, ()>)
      ensures r.Failure? <==> fails
      ensures r == Success(None) ==> forall id :: id in runs ==> runs[id].key != key
      ensures r.Success? && r.value.Some? ==> r.value.value in runs && runs[r.value.value].key == key
    {
      if fails {
        return Failure(());
      }
      if id :| id in runs && runs[id].key == key {
        return Success(Some(id));
      }
      return Success(None);
    }

    method GetPayoutsForRun(id: nat, fails: bool) returns (r: Result<seq<Payout>, ()>)
      requires Valid() && id in runs
      ensures r == if fails then Failure(()) else Success(payouts[id])
    {
      if fails {
        return Failure(());
      }
      return Success(payouts[id]);
    }

    method CreateDistributionRun(key: RunKey, status: Status, fails: bool) returns (r: Result<nat, ()>)
      requires Valid() && undo.None?
      modifies this
      ensures Valid() && undo.None?
      ensures r == if fails then Failure(()) else Success(old(nextId))
      ensures fails ==> View() == old(View())
      ensures !fails ==>
        && old(nextId) !in old(runs)
        && View() == Recorded(old(View()), WithRun(old(View()).store, old(nextId), key, status)).(nextId := nextId)
        && nextId == old(nextId) + 1
    {
      if fails {
        return Failure(());
      }
      r := Success(nextId);
      runs, payouts, nextId := runs[nextId := Run(key, status)], payouts[nextId := []], nextId + 1;
      journal := journal + [Store(runs, payouts)];
    }

    method UpdateRunStatus(id: nat, status: Status, fails: bool) returns (ok: bool)
      requires Valid() && undo.None? && id in runs
      modifies this
      ensures Valid() && undo.None? && ok == !fails
      ensures View() == if fails then old(View()) else Recorded(old(View()), WithStatus(old(View()).store, id, status))
    {
      if fails {
        return false;
      }
      runs := runs[id := runs[id].(status := status)];
      journal := journal + [Store(runs, payouts)];
      return true;
    }

    method CreatePayout(id: nat, payout: Payout, fails: bool) returns (ok: bool)
      requires Valid() && id in runs
      modifies this`payouts, this`journal
      ensures Valid() && ok == !fails
      ensures fails ==> payouts == old(payouts) && journal == old(journal)
      ensures !fails ==>
        && payouts == old(payouts)[id := old(payouts)[id] + [payout]]
        && journal == if undo.None? then old(journal) + [Store(runs, payouts)] else old(journal)
    {
      if fails {
        return false;
      }
      payouts := payouts[id := payouts[id] + [payout]];
      if undo.None? {
        journal := journal + [Store(runs, payouts)];
      }
      return true;
    }

    // pool.connect and BEGIN
    method Begin(fails: bool) returns (ok: bool)
      requires Valid() && undo.None?
      modifies this`undo
      ensures Valid() && ok == !fails
      ensures undo == if fails then None else Some(payouts)
    {
      if fails {
        return false;
      }
      undo := Some(payouts);
      return true;
    }

    /** COMMIT may fail before it takes effect, or its reply may be lost after it did. */
    method Commit(fails: bool, replyLost: bool) returns (ok: bool)
      requires Valid() && undo.Some?
      modifies this`undo, this`journal
      ensures Valid() && ok == (!fails && !replyLost)
      ensures fails ==> undo == old(undo) && journal == old(journal)
      ensures !fails ==> undo.None? && journal == old(journal) + [Store(runs, payouts)]
    {
      if fails {
        return false;
      }
      undo := None;
      journal := journal + [Store(runs, payouts)];
      return !replyLost;
    }

    method Rollback()
      requires Valid()
      modifies this`undo, this`payouts
      ensures Valid() && undo.None?
      ensures payouts == if old(undo).Some? then old(undo).value else old(payouts)
    {
      if undo.Some? {
        payouts, undo := undo.value, None;
      }
    }
  }

  // ----- what one durable change may do -----

  /** Adding planned rows for new investors to an open run keeps every promise. */
  lemma AddingRowsIsSafe(s: Store, id: nat, rows: seq<Payout>, plans: Plans)
    requires Inv(s, plans) && id in s.runs && s.runs[id].status != Completed
    requires s.payouts[id] <= rows && RowsOk(rows, plans(s.runs[id].key))
    ensures var t := s.(payouts := s.payouts[id := rows]); Inv(t, plans) && Grows(s, t)
  {
  }

  lemma StatusChangeIsSafe(s: Store, id: nat, status: Status, plans: Plans)
    requires Inv(s, plans) && id in s.runs && s.runs[id].status != Completed
    requires status == Completed ==> AllPaid(s.payouts[id], plans(s.runs[id].key))
    ensures var t := s.(runs := s.runs[id := s.runs[id].(status := status)]); Inv(t, plans) && Grows(s, t)
  {
  }

  lemma NewRunIsSafe(s: Store, id: nat, key: RunKey, plans: Plans)
    requires Inv(s, plans) && id !in s.runs
    requires forall i :: i in s.runs ==> s.runs[i].key != key
    ensures var t := Store(s.runs[id := Run(key, Processing)], s.payouts[id := []]); Inv(t, plans) && Grows(s, t)
  {
  }

  lemma JournalExtends(journal: seq<Store>, t: Store, plans: Plans)
    requires JournalOk(journal, plans)
    requires Inv(t, plans) && Grows(journal[|journal| - 1], t)
    ensures JournalOk(journal + [t], plans)
  {
    forall k | 0 <= k < |journal| ensures StepOk(journal + [t], k, plans) {
      assert StepOk(journal, k, plans);
    }
  }

  // ----- whole histories -----

  /** A process may die after any durable change: what it leaves is a legal history to resume from. */
  lemma CrashLeavesLegalHistory(journal: seq<Store>, k: nat, plans: Plans)
    requires JournalOk(journal, plans) && 0 < k <= |journal|
    ensures JournalOk(journal[..k], plans) && Inv(journal[k - 1], plans)
  {
    forall i | 0 <= i < k ensures StepOk(journal[..k], i, plans) {
      assert StepOk(journal, i, plans);
    }
    assert StepOk(journal, k - 1, plans);
  }

  /** Between any two durable states of a history nothing is lost; completion is absorbing. */
  lemma {:induction false} HistoryGrows(journal: seq<Store>, i: nat, j: nat, plans: Plans)
    requires JournalOk(journal, plans) && i <= j < |journal|
    ensures Grows(journal[i], journal[j])
    decreases j - i
  {
    if i < j {
      HistoryGrows(journal, i, j - 1, plans);
      assert StepOk(journal, j, plans);
      GrowsTransitive(journal[i], journal[j - 1], journal[j]);
    }
  }

  lemma GrowsTransitive(a: Store, b: Store, c: Store)
    requires Grows(a, b) && Grows(b, c)
    ensures Grows(a, c)
  {
    forall id | id in a.runs && id in a.payouts
      ensures id in c.runs && id in c.payouts && a.payouts[id] <= c.payouts[id]
    {
      assert id in b.runs && id in b.payouts;
      PrefixTransitive(a.payouts[id], b.payouts[id], c.payouts[id]);
    }
  }

  lemma PrefixTransitive(a: seq<Payout>, b: seq<Payout>, c: seq<Payout>)
    requires a <= b <= c
    ensures a <= c
  {
  }

  lemma {:induction false} CountInDistinct(rows: seq<Payout>, p: Payout)
    requires Distinct(rows)
    ensures multiset(rows)[p] == if p in rows then 1 else 0
  {
    if rows != [] {
      var n := |rows| - 1;
      assert rows == rows[..n] + [rows[n]];
      CountInDistinct(rows[..n], p);
    }
  }

  lemma FullyPaidIsTheWholePlan(rows: seq<Payout>, plan: seq<Payout>)
    requires RowsOk(rows, plan) && AllPaid(rows, plan) && Distinct(plan)
    ensures multiset(rows) == multiset(plan)
  {
    forall p: Payout ensures multiset(rows)[p] == multiset(plan)[p] {
      CountInDistinct(rows, p);
      CountInDistinct(plan, p);
      if p in plan {
        assert p.investor in Investors(rows);
        var r :| r in rows && r.investor == p.investor;
        assert r in plan;
      }
    }
  }

  lemma {:induction false} PaidConcat(a: seq<Payout>, b: seq<Payout>)
    ensures Sum(Cents(a + b)) == Sum(Cents(a)) + Sum(Cents(b))
  {
    if b == [] {
      assert a + b == a;
    } else {
      var n := |b| - 1;
      assert a + b == (a + b[..n]) + [b[n]];
      assert b == b[..n] + [b[n]];
      PaidConcat(a, b[..n]);
      SumOfAppended(a + b[..n], b[n]);
      SumOfAppended(b[..n], b[n]);
    }
  }

  lemma SumOfAppended(rows: seq<Payout>, p: Payout)
    ensures Sum(Cents(rows + [p])) == Sum(Cents(rows)) + p.cents
  {
    assert Cents(rows + [p])[..|rows|] == Cents(rows);
  }

  lemma PaidWithout(left: seq<Payout>, p: Payout, right: seq<Payout>)
    ensures Sum(Cents(left + [p] + right)) == Sum(Cents(left + right)) + p.cents
    ensures multiset(left + [p] + right) == multiset(left + right) + multiset{p}
  {
    PaidConcat(left + [p], right);
    PaidConcat(left, right);
    SumOfAppended(left, p);
  }

  lemma {:induction false} SumOfPermutation(a: seq<Payout>, b: seq<Payout>)
    requires multiset(a) == multiset(b)
    ensures Sum(Cents(a)) == Sum(Cents(b))
  {
    if a == [] {
      assert |multiset(a)| == |a| && |multiset(b)| == |b|;
    } else {
      var init, p := a[..|a| - 1], a[|a| - 1];
      assert a == init + [p];
      assert p in multiset(a);
      assert p in multiset(b);
      var k :| 0 <= k < |b| && b[k] == p;
      var left, right := b[..k], b[k + 1..];
      assert b == left + [p] + right;
      PaidWithout(left, p, right);
      SumOfAppended(init, p);
      SamePlusOne(multiset(init), multiset(left + right), p);
      SumOfPermutation(init, left + right);
    }
  }

  lemma SamePlusOne<T>(a: multiset<T>, b: multiset<T>, x: T)
    requires a + multiset{x} == b + multiset{x}
    ensures a == b
  {
    assert a == (a + multiset{x}) - multiset{x};
    assert b == (b + multiset{x}) - multiset{x};
  }

  /**
   In every durable state of every history: a completed run of distinct investors holds
   exactly the allocation, each entry once, and pays out exactly the revenue.
   */
  lemma CompletedRunPaysRevenue(s: Store, id: nat, plans: Plans, balances: seq<Balance>)
    requires Inv(s, plans) && id in s.runs && s.runs[id].status == Completed
    requires TotalUnits(balances) > 0
    requires plans(s.runs[id].key) == Plan(balances, s.runs[id].key.cents)
    requires Distinct(plans(s.runs[id].key))
    ensures multiset(s.payouts[id]) == multiset(Plan(balances, s.runs[id].key.cents))
    ensures Sum(Cents(s.payouts[id])) == s.runs[id].key.cents
  {
    var plan, rows := plans(s.runs[id].key), s.payouts[id];
    FullyPaidIsTheWholePlan(rows, plan);
    SumOfPermutation(rows, plan);
    assert Cents(plan) == Allocate(Units(balances), s.runs[id].key.cents);
    PayoutsSumToRevenue(Units(balances), s.runs[id].key.cents);
  }

  /**
   Exactly once, over a whole history with any failures and crashes: whatever is stored
   is part of the fixed allocation, at most one row an investor, and stays; a run seen
   completed keeps the same rows ever after, and they pay out the revenue.
   */
  lemma ExactlyOncePayouts(journal: seq<Store>, i: nat, j: nat, id: nat, plans: Plans, balances: seq<Balance>)
    requires JournalOk(journal, plans) && i <= j < |journal| && id in journal[i].runs
    requires TotalUnits(balances) > 0
    requires plans(journal[i].runs[id].key) == Plan(balances, journal[i].runs[id].key.cents)
    requires Distinct(plans(journal[i].runs[id].key))
    ensures id in journal[i].payouts && id in journal[j].payouts && id in journal[j].runs
    ensures journal[i].payouts[id] <= journal[j].payouts[id]
    ensures multiset(journal[j].payouts[id]) <= multiset(Plan(balances, journal[i].runs[id].key.cents))
    ensures journal[i].runs[id].status == Completed ==>
              && journal[j].runs[id] == journal[i].runs[id]
              && journal[j].payouts[id] == journal[i].payouts[id]
              && Sum(Cents(journal[j].payouts[id])) == journal[i].runs[id].key.cents
  {
    assert StepOk(journal, i, plans) && StepOk(journal, j, plans);
    HistoryGrows(journal, i, j, plans);
    var rows, plan := journal[j].payouts[id], plans(journal[i].runs[id].key);
    forall p: Payout ensures multiset(rows)[p] <= multiset(plan)[p] {
      CountInDistinct(rows, p);
      CountInDistinct(plan, p);
    }
    if journal[i].runs[id].status == Completed {
      CompletedRunPaysRevenue(journal[j], id, plans, balances);
    }
  }

  // ----- repeated investors -----

  /** The first entry of each investor who is not among the existing ones, in order. */
  function Missing(plan: seq<Payout>, existing: set<string>): (rows: seq<Payout>)
    ensures forall r :: r in rows ==> r in plan
    ensures Investors(rows) == Investors(plan) - existing
  {
    if plan == [] then []
    else
      var n := |plan| - 1;
      var rows := Missing(plan[..n], existing);
      assert plan == plan[..n] + [plan[n]];
      assert Investors(plan) == Investors(plan[..n]) + {plan[n].investor};
      if plan[n].investor in existing + Investors(rows) then rows
      else
        assert Investors(rows + [plan[n]]) == Investors(rows) + {plan[n].investor};
        rows + [plan[n]]
  }

  /** The entries that are passed over: existing investors, and all but the first entry of the others. */
  function Skipped(plan: seq<Payout>, existing: set<string>): (rows: seq<Payout>)
    ensures forall r :: r in rows ==> r in plan
  {
    if plan == [] then []
    else
      var n := |plan| - 1;
      var rows := Skipped(plan[..n], existing);
      assert plan == plan[..n] + [plan[n]];
      if plan[n].investor in existing + Investors(Missing(plan[..n], existing)) then rows + [plan[n]] else rows
  }

  lemma {:induction false} MissingIsDistinct(plan: seq<Payout>, existing: set<string>)
    ensures Distinct(Missing(plan, existing))
  {
    if plan != [] {
      var n := |plan| - 1;
      MissingIsDistinct(plan[..n], existing);
      if plan[n].investor !in existing + Investors(Missing(plan[..n], existing)) {
        DistinctAppended(Missing(plan[..n], existing), plan[n]);
      }
    }
  }

  lemma MissingSnoc(plan: seq<Payout>, p: Payout, existing: set<string>)
    ensures Missing(plan + [p], existing) ==
      if p.investor in existing + Investors(Missing(plan, existing)) then Missing(plan, existing)
      else Missing(plan, existing) + [p]
  {
    assert (plan + [p])[..|plan|] == plan;
  }

  /** Batch after batch finds the same entries missing as the whole plan at once. */
  lemma {:induction false} MissingConcat(a: seq<Payout>, b: seq<Payout>, existing: set<string>)
    ensures Missing(a + b, existing) == Missing(a, existing) + Missing(b, existing + Investors(a))
  {
    if b == [] {
      assert a + b == a;
    } else {
      var init, p := b[..|b| - 1], b[|b| - 1];
      assert b == init + [p] && a + b == (a + init) + [p];
      MissingConcat(a, init, existing);
      MissingSnoc(a + init, p, existing);
      MissingSnoc(init, p, existing + Investors(a));
      InvestorsConcat(Missing(a, existing), Missing(init, existing + Investors(a)));
    }
  }

  lemma InvestorsConcat(a: seq<Payout>, b: seq<Payout>)
    ensures Investors(a + b) == Investors(a) + Investors(b)
  {
  }

  /** Nothing of a plan gets lost: it is either missing and to be paid, or skipped. */
  lemma {:induction false} MissingPlusSkipped(plan: seq<Payout>, existing: set<string>)
    ensures Sum(Cents(plan)) == Sum(Cents(Missing(plan, existing))) + Sum(Cents(Skipped(plan, existing)))
  {
    if plan != [] {
      var n := |plan| - 1;
      MissingPlusSkipped(plan[..n], existing);
      assert plan == plan[..n] + [plan[n]];
      SumOfAppended(plan[..n], plan[n]);
      SumOfAppended(Missing(plan[..n], existing), plan[n]);
      SumOfAppended(Skipped(plan[..n], existing), plan[n]);
    }
  }

  lemma {:induction false} ZeroSumMeansZeros(rows: seq<Payout>)
    requires forall p :: p in rows ==> p.cents >= 0
    ensures Sum(Cents(rows)) >= 0
    ensures Sum(Cents(rows)) == 0 <==> forall p :: p in rows ==> p.cents == 0
  {
    if rows != [] {
      var init, p := rows[..|rows| - 1], rows[|rows| - 1];
      assert rows == init + [p];
      ZeroSumMeansZeros(init);
      SumOfAppended(init, p);
      assert p in rows;
    }
  }

  /**
   A fresh run stores the first entry of each investor. It pays the planned sum exactly
   if the skipped entries sum to zero: when no amount is negative, exactly if every
   repeated entry is of zero cents.
   */
  lemma FirstEntriesPayIff(plan: seq<Payout>)
    ensures Sum(Cents(Missing(plan, {}))) == Sum(Cents(plan)) <==> Sum(Cents(Skipped(plan, {}))) == 0
    ensures (forall p :: p in plan ==> p.cents >= 0) ==>
      (Sum(Cents(Missing(plan, {}))) == Sum(Cents(plan)) <==> forall p :: p in Skipped(plan, {}) ==> p.cents == 0)
  {
    MissingPlusSkipped(plan, {});
    if forall p :: p in plan ==> p.cents >= 0 {
      ZeroSumMeansZeros(Skipped(plan, {}));
    }
  }

  /** Nothing is skipped of a plan without repeated investors, and only of such a plan. */
  lemma {:induction false} SkippedNoneIff(plan: seq<Payout>)
    ensures Skipped(plan, {}) == [] <==> Distinct(plan)
    ensures Distinct(plan) ==> Missing(plan, {}) == plan
  {
    if plan != [] {
      var init, p := plan[..|plan| - 1], plan[|plan| - 1];
      assert plan == init + [p];
      SkippedNoneIff(init);
      if p.investor !in Investors(init) {
        DistinctAppended(init, p);
      } else {
        var q :| q in init && q.investor == p.investor;
        var k :| 0 <= k < |init| && init[k] == q;
        assert plan[k].investor == plan[|init|].investor;
      }
    }
  }

  // Whichever entry of each investor is stored, it is the same payout.
  ghost predicate SameEntries(plan: seq<Payout>) {
    forall p, q :: p in plan && q in plan && p.investor == q.investor ==> p == q
  }

  ghost predicate Complete(rows: seq<Payout>, plan: seq<Payout>) {
    RowsOk(rows, plan) && AllPaid(rows, plan)
  }

  /**
   Faults may make any entry of a repeated investor the stored one. All complete row sets
   pay the planned sum exactly if repeated entries are identical and the skipped ones sum
   to zero.
   */
  lemma CompleteRunsConserveIff(plan: seq<Payout>)
    ensures (forall rows :: Complete(rows, plan) ==> Sum(Cents(rows)) == Sum(Cents(plan))) <==>
      SameEntries(plan) && Sum(Cents(Skipped(plan, {}))) == 0
  {
    var first := Missing(plan, {});
    FirstEntriesComplete(plan);
    MissingPlusSkipped(plan, {});
    if SameEntries(plan) {
      forall rows | Complete(rows, plan) ensures Sum(Cents(rows)) == Sum(Cents(first)) {
        hide SameEntries, Complete;
        OnlyChoice(plan, rows, first);
        SumOfPermutation(rows, first);
      }
    } else {
      hide SameEntries, Complete, Missing;
      OtherSum(plan, first);
    }
  }

  lemma FirstEntriesComplete(plan: seq<Payout>)
    ensures Complete(Missing(plan, {}), plan)
  {
    MissingIsDistinct(plan, {});
  }

  lemma OtherSum(plan: seq<Payout>, rows: seq<Payout>)
    requires !SameEntries(plan) && Complete(rows, plan)
    ensures exists other :: Complete(other, plan) && Sum(Cents(other)) != Sum(Cents(rows))
  {
    var p, q :| p in plan && q in plan && p.investor == q.investor && p != q;
    assert p.investor in Investors(rows);
    var r :| r in rows && r.investor == p.investor;
    OtherChoice(plan, rows, r, if p != r then p else q);
  }

  lemma OnlyChoice(plan: seq<Payout>, a: seq<Payout>, b: seq<Payout>)
    requires SameEntries(plan) && Complete(a, plan) && Complete(b, plan)
    ensures multiset(a) == multiset(b)
  {
    forall p: Payout ensures multiset(a)[p] == multiset(b)[p] {
      CountInDistinct(a, p);
      CountInDistinct(b, p);
      StoredIfPlanned(plan, a, p);
      StoredIfPlanned(plan, b, p);
    }
  }

  lemma StoredIfPlanned(plan: seq<Payout>, rows: seq<Payout>, p: Payout)
    requires SameEntries(plan) && Complete(rows, plan)
    ensures p in rows <==> p in plan
  {
    if p in plan {
      assert p.investor in Investors(rows);
      var r :| r in rows && r.investor == p.investor;
    }
  }

  // A complete row set with another entry of one investor pays another sum.
  lemma OtherChoice(plan: seq<Payout>, rows: seq<Payout>, r: Payout, p: Payout)
    requires Complete(rows, plan) && r in rows && p in plan && p.investor == r.investor && p != r
    ensures exists other :: Complete(other, plan) && Sum(Cents(other)) != Sum(Cents(rows))
  {
    var k :| 0 <= k < |rows| && rows[k] == r;
    var other := rows[k := p];
    assert Cents(other) == Cents(rows)[k := p.cents];
    SumUpdate(Cents(rows), k, p.cents);
    forall q | q in rows ensures q.investor in Investors(other) {
      var j :| 0 <= j < |rows| && rows[j] == q;
      assert other[j].investor == q.investor && other[j] in other;
    }
    assert Complete(other, plan);
  }

  lemma DistinctAppended(rows: seq<Payout>, p: Payout)
    requires p.investor !in Investors(rows)
    ensures Distinct(rows + [p]) <==> Distinct(rows)
  {
    assert forall i :: 0 <= i < |rows| ==> (rows + [p])[i] == rows[i] && rows[i] in rows;
  }
}
