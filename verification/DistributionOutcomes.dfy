/**
 What a completed run of src/services/distributionEngine.ts can hold when an investor is
 listed more than once, after any calls, faults and crashes: which entries can be the
 stored ones, and exactly when every completed run pays the revenue.
 */
module DistributionOutcomes {
  import opened Wrappers
  import opened Allocation
  import opened PayoutStore
  import opened BatchLoop
  import opened DistributionProtocol
  import opened DistributionRuns

  // ----- the entries that can be stored -----

  // The first entry that each batch has for each of its investors.
  function Firsts(batches: seq<seq<Payout>>): seq<Payout> {
    if batches == [] then [] else Firsts(batches[..|batches| - 1]) + Missing(batches[|batches| - 1], {})
  }

  /** Transactions store first entries of their batch, single insertions may store any entry. */
  function Candidates(cfg: Config, plan: seq<Payout>): seq<Payout>
    requires cfg.batchSize > 0
  {
    if cfg.pool then Firsts(Batches(plan, cfg.batchSize)) else plan
  }

  ghost predicate Within(rows: seq<Payout>, candidates: seq<Payout>) {
    forall r :: r in rows ==> r in candidates
  }

  lemma {:induction false} FirstsHas(batches: seq<seq<Payout>>, b: nat)
    requires b < |batches|
    ensures Within(Missing(batches[b], {}), Firsts(batches))
  {
    if b < |batches| - 1 {
      FirstsHas(batches[..|batches| - 1], b);
    }
  }

  lemma {:induction false} FirstsFrom(batches: seq<seq<Payout>>, p: Payout)
    requires p in Firsts(batches)
    ensures exists b :: 0 <= b < |batches| && p in Missing(batches[b], {})
  {
    var init := batches[..|batches| - 1];
    if p in Firsts(init) {
      FirstsFrom(init, p);
      var b :| 0 <= b < |init| && p in Missing(init[b], {});
      assert batches[b] == init[b];
    }
  }

  lemma {:induction false} FirstsInvestors(batches: seq<seq<Payout>>)
    ensures Investors(Firsts(batches)) == Investors(Flatten(batches))
    ensures Within(Firsts(batches), Flatten(batches))
  {
    if batches != [] {
      var init, last := batches[..|batches| - 1], batches[|batches| - 1];
      FirstsInvestors(init);
      InvestorsConcat(Firsts(init), Missing(last, {}));
      InvestorsConcat(Flatten(init), last);
    }
  }

  lemma CandidatesInvestors(cfg: Config, plan: seq<Payout>)
    requires cfg.batchSize > 0
    ensures Investors(Candidates(cfg, plan)) == Investors(plan) && Within(Candidates(cfg, plan), plan)
  {
    FirstsInvestors(Batches(plan, cfg.batchSize));
    FlattenBatches(plan, cfg.batchSize);
  }

  lemma {:induction false} MissingFewer(plan: seq<Payout>, existing: set<string>)
    ensures Within(Missing(plan, existing), Missing(plan, {}))
  {
    if plan != [] {
      MissingFewer(plan[..|plan| - 1], existing);
    }
  }

  /** The first entry of every investor is a candidate. */
  lemma FirstEntriesAreCandidates(cfg: Config, plan: seq<Payout>)
    requires cfg.batchSize > 0
    ensures Complete(Missing(plan, {}), Candidates(cfg, plan))
  {
    CandidatesInvestors(cfg, plan);
    MissingIsDistinct(plan, {});
    if cfg.pool {
      FirstsOfFlatten(Batches(plan, cfg.batchSize));
      FlattenBatches(plan, cfg.batchSize);
    }
  }

  lemma {:induction false} FirstsOfFlatten(batches: seq<seq<Payout>>)
    ensures Within(Missing(Flatten(batches), {}), Firsts(batches))
  {
    if batches == [] {
      assert Missing([], {}) == [];
    } else {
      var init, last := batches[..|batches| - 1], batches[|batches| - 1];
      FirstsOfFlatten(init);
      MissingConcat(Flatten(init), last, {});
      MissingFewer(last, {} + Investors(Flatten(init)));
    }
  }

  // ----- nothing else is stored -----

  lemma TurnWithin(cfg: Config, faults: Faults, b: nat, batch: seq<Payout>, t: Tally, candidates: seq<Payout>)
    requires Within(t.rows, candidates) && Within(if cfg.pool then Missing(batch, {}) else batch, candidates)
    ensures Within(Turn(cfg, faults, b, batch, t).rows, candidates)
  {
    assert batch[..|batch|] == batch;
    TxAdds(cfg, faults, b, batch, t.existing, |batch|);
    PlainAdds(cfg, faults, b, batch, t.existing, |batch|);
    MissingFewer(batch, t.existing);
  }

  lemma LoopStep(cfg: Config, faults: Faults, batches: seq<seq<Payout>>, rows0: seq<Payout>, n: nat)
    requires 0 < n <= |batches|
    ensures TallyAt(cfg, faults, batches, rows0, n) ==
      Turn(cfg, faults, n - 1, batches[n - 1], TallyAt(cfg, faults, batches, rows0, n - 1))
  {
  }

  lemma {:induction false} TallyWithin(cfg: Config, faults: Faults, batches: seq<seq<Payout>>, rows0: seq<Payout>,
                                       candidates: seq<Payout>, n: nat)
    requires n <= |batches| && Within(rows0, candidates)
    requires forall b :: 0 <= b < |batches| ==> Within(if cfg.pool then Missing(batches[b], {}) else batches[b], candidates)
    ensures Within(TallyAt(cfg, faults, batches, rows0, n).rows, candidates)
    decreases n
  {
    if n > 0 {
      hide *;
      TallyWithin(cfg, faults, batches, rows0, candidates, n - 1);
      LoopStep(cfg, faults, batches, rows0, n);
      TurnWithin(cfg, faults, n - 1, batches[n - 1], TallyAt(cfg, faults, batches, rows0, n - 1), candidates);
    }
  }

  lemma {:induction false} BatchInFlatten(batches: seq<seq<Payout>>, b: nat)
    requires b < |batches|
    ensures Within(batches[b], Flatten(batches))
  {
    if b < |batches| - 1 {
      BatchInFlatten(batches[..|batches| - 1], b);
    }
  }

  lemma WholeTallyWithin(cfg: Config, faults: Faults, rows0: seq<Payout>, plan: seq<Payout>)
    requires cfg.batchSize > 0 && Within(rows0, Candidates(cfg, plan))
    ensures Within(WholeTally(cfg, faults, rows0, plan).rows, Candidates(cfg, plan))
  {
    var batches := Batches(plan, cfg.batchSize);
    forall b | 0 <= b < |batches|
      ensures Within(if cfg.pool then Missing(batches[b], {}) else batches[b], Candidates(cfg, plan))
    {
      FirstsHas(batches, b);
      BatchInFlatten(batches, b);
      FlattenBatches(plan, cfg.batchSize);
    }
    TallyWithin(cfg, faults, batches, rows0, Candidates(cfg, plan), |batches|);
  }

  lemma SettledRuns(cfg: Config, faults: Faults, w: World, id: nat, plan: seq<Payout>)
    requires cfg.batchSize > 0
    ensures var after := Settled(cfg, faults, w, id, plan).0.store;
      && after.runs.Keys == w.store.runs.Keys
      && forall i :: i in w.store.runs ==> after.runs[i].key == w.store.runs[i].key
  {
    hide TallyAt;
  }

  // A call creates runs of its own key only.
  lemma NewRunsHaveTheKey(cfg: Config, faults: Faults, w: World, c: Call)
    requires cfg.batchSize > 0
    ensures var after := Called(cfg, faults, w, c).0.store;
      forall id :: id in after.runs && id !in w.store.runs ==> after.runs[id].key == KeyOf(c)
  {
    CalledIs(cfg, faults, w, c);
    var (ready, target) := Opened(cfg, faults, w, KeyOf(c));
    if target.Some? && TotalUnits(c.balances) > 0 {
      SettledRuns(cfg, faults, ready, target.value, PlanFor(c));
    }
    hide Called, Settled;
  }

  lemma OtherKeysUntouched(cfg: Config, faults: Faults, w: World, c: Call, key: RunKey, plans: Plans)
    requires cfg.batchSize > 0 && Legal(w, plans) && Fixed(c, plans) && key != KeyOf(c)
    ensures OldRows(Called(cfg, faults, w, c).0.store, key) == OldRows(w.store, key)
  {
    var after := Called(cfg, faults, w, c).0;
    CalledLegal(cfg, faults, w, c, plans);
    NewRunsHaveTheKey(cfg, faults, w, c);
    LastIsLegal(w, plans);
    LastIsLegal(after, plans);
    hide Called, Legal;
    if FindRun(w.store, key).Some? {
      FoundIsTheOne(after.store, FindRun(w.store, key).value, plans);
    }
  }

  /** A call leaves the rows of its key as they were, or makes them what its loop comes to. */
  lemma OwnRows(cfg: Config, faults: Faults, w: World, c: Call, plans: Plans)
    requires cfg.batchSize > 0 && Legal(w, plans) && Fixed(c, plans)
    ensures var rows0, rows := OldRows(w.store, KeyOf(c)), OldRows(Called(cfg, faults, w, c).0.store, KeyOf(c));
      || rows == rows0
      || (TotalUnits(c.balances) > 0 && rows == WholeTally(cfg, faults, rows0, PlanFor(c)).rows)
  {
    CalledLegal(cfg, faults, w, c, plans);
    if ValidInput(c) && TotalUnits(c.balances) > 0 && !HasCompleted(w.store, KeyOf(c)) {
      CalledRows(cfg, faults, w, c, plans);
      FailedKeepsRows(cfg, faults, w, c, plans);
    }
  }

  lemma FailedKeepsRows(cfg: Config, faults: Faults, w: World, c: Call, plans: Plans)
    requires cfg.batchSize > 0 && Legal(w, plans) && Fixed(c, plans)
    requires ValidInput(c) && TotalUnits(c.balances) > 0 && !HasCompleted(w.store, KeyOf(c))
    ensures var (after, r) := Called(cfg, faults, w, c);
      r.Failure? ==> OldRows(after.store, KeyOf(c)) == OldRows(w.store, KeyOf(c))
  {
    CalledSettles(cfg, faults, w, c, plans);
    OpenedLegal(cfg, faults, w, KeyOf(c), plans);
    var (ready, target) := Opened(cfg, faults, w, KeyOf(c));
    LastIsLegal(ready, plans);
    if target.Some? {
      SettledFailsIdle(cfg, faults, ready, target.value, PlanFor(c));
      FoundIsTheOne(ready.store, target.value, plans);
    }
    hide Called, Settled, Opened, Legal, Inv;
  }

  lemma CallWithin(cfg: Config, faults: Faults, w: World, c: Call, key: RunKey, plans: Plans)
    requires cfg.batchSize > 0 && Legal(w, plans) && Fixed(c, plans)
    requires Within(OldRows(w.store, key), Candidates(cfg, plans(key)))
    ensures Within(OldRows(Called(cfg, faults, w, c).0.store, key), Candidates(cfg, plans(key)))
  {
    if key == KeyOf(c) {
      OwnRows(cfg, faults, w, c, plans);
      WholeTallyWithin(cfg, faults, OldRows(w.store, key), plans(key));
    } else {
      OtherKeysUntouched(cfg, faults, w, c, key, plans);
    }
  }

  lemma GrownRows(s: Store, t: Store, key: RunKey, plans: Plans)
    requires Inv(s, plans) && Inv(t, plans) && Grows(s, t)
    ensures OldRows(s, key) <= OldRows(t, key)
  {
    if FindRun(s, key).Some? {
      FoundIsTheOne(t, FindRun(s, key).value, plans);
    }
  }

  // A crash leaves a prefix of the rows.
  lemma CutRows(w: World, k: nat, key: RunKey, plans: Plans)
    requires Legal(w, plans) && 0 < k <= |w.journal|
    ensures OldRows(CutAt(w, k).store, key) <= OldRows(w.store, key)
  {
    HistoryGrows(w.journal, k - 1, |w.journal| - 1, plans);
    CutIsLegal(w, k, plans);
    LastIsLegal(CutAt(w, k), plans);
    LastIsLegal(w, plans);
    GrownRows(CutAt(w, k).store, w.store, key, plans);
  }

  lemma SurvivedWithin(cfg: Config, w: World, e: Incident, key: RunKey, plans: Plans)
    requires cfg.batchSize > 0 && Legal(w, plans) && Fixed(e.call, plans)
    requires Within(OldRows(w.store, key), Candidates(cfg, plans(key)))
    ensures Within(OldRows(Survived(cfg, w, e).store, key), Candidates(cfg, plans(key)))
  {
    hide Called, OldRows, Candidates, Fixed, CutAt, OthersUntouched, HasCompleted, JournalOk;
    CallWithin(cfg, e.faults, w, e.call, key, plans);
    CalledLegal(cfg, e.faults, w, e.call, plans);
    var after := Called(cfg, e.faults, w, e.call).0;
    if e.Crashed? {
      CutRows(after, Min(|w.journal| + e.writes, |after.journal|), key, plans);
    }
  }

  lemma {:induction false} HistoryWithin(cfg: Config, es: seq<Incident>, key: RunKey, plans: Plans)
    requires cfg.batchSize > 0 && Legal(EMPTY_WORLD, plans) && AllFixed(es, plans)
    ensures Within(OldRows(AfterAll(cfg, EMPTY_WORLD, es, plans).store, key), Candidates(cfg, plans(key)))
    decreases |es|
  {
    if es == [] {
      NothingStored(key);
    } else {
      var init := es[..|es| - 1];
      HistoryWithin(cfg, init, key, plans);
      SurvivedWithin(cfg, AfterAll(cfg, EMPTY_WORLD, init, plans), es[|es| - 1], key, plans);
    }
  }

  lemma NothingStored(key: RunKey)
    ensures FindRun(EMPTY_STORE, key) == None && OldRows(EMPTY_STORE, key) == []
  {
  }

  /** After any history a completed run holds one candidate of every investor and nothing else. */
  lemma CompletedHoldsCandidates(cfg: Config, es: seq<Incident>, key: RunKey, plans: Plans)
    requires cfg.batchSize > 0 && Legal(EMPTY_WORLD, plans) && AllFixed(es, plans)
    requires HasCompleted(AfterAll(cfg, EMPTY_WORLD, es, plans).store, key)
    ensures Complete(OldRows(AfterAll(cfg, EMPTY_WORLD, es, plans).store, key), Candidates(cfg, plans(key)))
  {
    HistoryWithin(cfg, es, key, plans);
    LastIsLegal(AfterAll(cfg, EMPTY_WORLD, es, plans), plans);
    CandidatesInvestors(cfg, plans(key));
  }

  // ----- first entries and sums -----

  function FirstOf(plan: seq<Payout>, investor: string): (p: Payout)
    requires investor in Investors(plan)
    ensures p in plan && p.investor == investor
  {
    var init := plan[..|plan| - 1];
    if investor in Investors(init) then FirstOf(init, investor)
    else
      assert plan == init + [plan[|plan| - 1]];
      plan[|plan| - 1]
  }

  lemma FirstOfSnoc(plan: seq<Payout>, p: Payout, investor: string)
    requires investor in Investors(plan + [p])
    ensures FirstOf(plan + [p], investor) == if investor in Investors(plan) then FirstOf(plan, investor) else p
  {
    assert (plan + [p])[..|plan|] == plan;
  }

  lemma {:induction false} FirstOfConcat(a: seq<Payout>, b: seq<Payout>, investor: string)
    requires investor in Investors(a + b)
    ensures investor in Investors(a) || investor in Investors(b)
    ensures FirstOf(a + b, investor) ==
      if investor in Investors(a) then FirstOf(a, investor) else FirstOf(b, investor)
    decreases |b|
  {
    InvestorsConcat(a, b);
    if b == [] {
      assert a + b == a;
    } else {
      var init, p := b[..|b| - 1], b[|b| - 1];
      assert b == init + [p] && a + b == (a + init) + [p];
      InvestorsConcat(a, init);
      FirstOfSnoc(a + init, p, investor);
      if investor in Investors(a + init) { FirstOfConcat(a, init, investor); }
      if investor in Investors(b) { FirstOfSnoc(init, p, investor); }
    }
  }

  lemma {:induction false} MissingIsFirst(plan: seq<Payout>, existing: set<string>, p: Payout)
    requires p in Missing(plan, existing)
    ensures p.investor in Investors(plan) && p == FirstOf(plan, p.investor)
  {
    var init, last := plan[..|plan| - 1], plan[|plan| - 1];
    assert plan == init + [last];
    if p in Missing(init, existing) {
      MissingIsFirst(init, existing, p);
    } else {
      assert p == last && p.investor !in existing + (Investors(init) - existing);
    }
  }

  lemma {:induction false} MissingIrrelevant(plan: seq<Payout>, existing: set<string>, investor: string)
    requires investor !in Investors(plan)
    ensures Missing(plan, existing + {investor}) == Missing(plan, existing)
  {
    if plan != [] {
      var init := plan[..|plan| - 1];
      assert plan == init + [plan[|plan| - 1]];
      InvestorsConcat(init, [plan[|plan| - 1]]);
      MissingIrrelevant(init, existing, investor);
      assert plan[|plan| - 1] in plan;
    }
  }

  /** With one investor more taken for paid, exactly that first entry is not stored. */
  lemma {:induction false} OnePaidMore(plan: seq<Payout>, existing: set<string>, investor: string)
    requires investor in Investors(plan) && investor !in existing
    ensures Sum(Cents(Missing(plan, existing))) ==
      Sum(Cents(Missing(plan, existing + {investor}))) + FirstOf(plan, investor).cents
    decreases |plan|
  {
    var init, p := plan[..|plan| - 1], plan[|plan| - 1];
    assert plan == init + [p];
    InvestorsAppend(init, p);
    MissingSnoc(init, p, existing);
    MissingSnoc(init, p, existing + {investor});
    SumOfAppended(Missing(init, existing), p);
    SumOfAppended(Missing(init, existing + {investor}), p);
    if investor in Investors(init) {
      OnePaidMore(init, existing, investor);
    } else {
      MissingIrrelevant(init, existing, investor);
    }
  }

  // ----- a call with faults, then one without -----

  const NO_FAULTS: Faults := (op: Op, attempt: nat) => false

  // The faults hit the batch loop only.
  ghost predicate LoopFaults(faults: Faults) {
    !faults(LookUp, 1) && !faults(FetchBalances, 1) && !faults(CreateRun, 1) && !faults(ReadRows, 1)
  }

  function CallTwice(c: Call, faults: Faults): seq<Incident> {
    [Finished(c, faults), Finished(c, NO_FAULTS)]
  }

  // A call that can complete.
  ghost predicate Payable(cfg: Config, c: Call, plans: Plans) {
    cfg.batchSize > 0 && cfg.maxRetries >= 1 && ValidInput(c) && TotalUnits(c.balances) > 0 && Fixed(c, plans)
  }

  lemma TwoIncidents(cfg: Config, a: Incident, b: Incident, plans: Plans)
    requires cfg.batchSize > 0 && Fixed(a.call, plans) && Fixed(b.call, plans) && a.Finished? && b.Finished?
    ensures Legal(EMPTY_WORLD, plans)
    ensures var w := Called(cfg, a.faults, EMPTY_WORLD, a.call).0;
      Legal(w, plans) && AfterAll(cfg, EMPTY_WORLD, [a, b], plans) == Called(cfg, b.faults, w, b.call).0
  {
    EmptyIsLegal(plans);
    CalledLegal(cfg, a.faults, EMPTY_WORLD, a.call, plans);
    hide Called, Legal;
    assert [a, b][..1] == [a] && [a][..0] == [];
    assert AfterAll(cfg, EMPTY_WORLD, [], plans) == EMPTY_WORLD;
    assert AfterAll(cfg, EMPTY_WORLD, [a], plans) == Survived(cfg, EMPTY_WORLD, a);
  }

  lemma FirstCallStores(cfg: Config, faults: Faults, c: Call, plans: Plans)
    requires Payable(cfg, c, plans) && LoopFaults(faults)
    ensures OldRows(Called(cfg, faults, EMPTY_WORLD, c).0.store, KeyOf(c)) == WholeTally(cfg, faults, [], PlanFor(c)).rows
  {
    assert Served(faults, FetchBalances, cfg.maxRetries) && Served(faults, CreateRun, cfg.maxRetries);
    EmptyIsLegal(plans);
    NothingStored(KeyOf(c));
    CalledRows(cfg, faults, EMPTY_WORLD, c, plans);
  }

  lemma NoInvestorsNoRows(rows: seq<Payout>)
    requires Investors(rows) == {}
    ensures rows == []
  {
    assert rows != [] ==> rows[0].investor in Investors(rows);
  }

  lemma SecondCallCompletes(cfg: Config, w: World, c: Call, plans: Plans)
    requires Payable(cfg, c, plans) && Legal(w, plans)
    ensures var rows, after := OldRows(w.store, KeyOf(c)), Called(cfg, NO_FAULTS, w, c).0.store;
      HasCompleted(after, KeyOf(c)) && OldRows(after, KeyOf(c)) == rows + Missing(PlanFor(c), Investors(rows))
  {
    var rows := OldRows(w.store, KeyOf(c));
    if HasCompleted(w.store, KeyOf(c)) {
      CalledLegal(cfg, NO_FAULTS, w, c, plans);
      CompletedIsPaid(w, c, plans);
      NoInvestorsNoRows(Missing(PlanFor(c), Investors(rows)));
      assert rows + [] == rows;
    } else {
      NoFaultsAreTolerated(cfg, NO_FAULTS);
      ToleratedIsServed(cfg, NO_FAULTS, w.store, c);
      CompletesIff(cfg, NO_FAULTS, w, c, plans);
    }
  }

  /** What the faulty call has stored stays; the second call adds the first entries of all others. */
  lemma TwoCallsStore(cfg: Config, faults: Faults, c: Call, plans: Plans)
    requires Payable(cfg, c, plans) && LoopFaults(faults)
    ensures Legal(EMPTY_WORLD, plans) && AllFixed(CallTwice(c, faults), plans)
    ensures var s := AfterAll(cfg, EMPTY_WORLD, CallTwice(c, faults), plans).store;
      var rows := WholeTally(cfg, faults, [], PlanFor(c)).rows;
      HasCompleted(s, KeyOf(c)) && OldRows(s, KeyOf(c)) == rows + Missing(PlanFor(c), Investors(rows))
  {
    TwoIncidents(cfg, Finished(c, faults), Finished(c, NO_FAULTS), plans);
    FirstCallStores(cfg, faults, c, plans);
    SecondCallCompletes(cfg, Called(cfg, faults, EMPTY_WORLD, c).0, c, plans);
    hide Called, Legal, WholeTally, AfterAll;
  }

  // ----- without a pool: any entry can be the stored one -----

  // Every insertion fails but one.
  function OnlyInsert(b: nat, i: nat): Faults {
    (op: Op, attempt: nat) => op.Insert? && op != Insert(b, i)
  }

  lemma {:induction false} OnlyOneInBatch(cfg: Config, b: nat, i: nat, k: nat, batch: seq<Payout>, existing: set<string>, n: nat)
    requires cfg.maxRetries >= 1 && n <= |batch| && (k == b ==> existing == {})
    ensures PlainAt(cfg, OnlyInsert(b, i), k, batch, existing, n).0 == if k == b && n > i then [batch[i]] else []
    decreases n
  {
    if n > 0 {
      OnlyOneInBatch(cfg, b, i, k, batch, existing, n - 1);
      assert Investors([]) == {};
      assert !OnlyInsert(b, i)(Insert(b, i), 1);
      assert Served(OnlyInsert(b, i), Insert(k, n - 1), cfg.maxRetries) <==> k == b && n - 1 == i;
      var none: seq<Payout> := [];
      assert none + [batch[n - 1]] == [batch[n - 1]];
    }
  }

  ghost predicate HasOnly(t: Tally, rows: seq<Payout>) {
    t.rows == rows && t.existing == Investors(rows)
  }

  lemma OnlyOneTurn(cfg: Config, b: nat, i: nat, k: nat, batch: seq<Payout>, t: Tally, rows: seq<Payout>)
    requires cfg.maxRetries >= 1 && !cfg.pool && HasOnly(t, rows) && (k == b ==> rows == [] && i < |batch|)
    ensures HasOnly(Turn(cfg, OnlyInsert(b, i), k, batch, t), if k == b then [batch[i]] else rows)
  {
    assert Investors([]) == {};
    OnlyOneInBatch(cfg, b, i, k, batch, t.existing, |batch|);
    hide PlainAt;
    assert t.rows + [] == t.rows && t.existing + {} == t.existing;
    assert k == b ==> t.rows + [batch[i]] == [batch[i]];
  }

  lemma {:induction false} OnlyOneInLoop(cfg: Config, b: nat, i: nat, batches: seq<seq<Payout>>, n: nat)
    requires cfg.maxRetries >= 1 && !cfg.pool && b < |batches| && i < |batches[b]| && n <= |batches|
    ensures HasOnly(TallyAt(cfg, OnlyInsert(b, i), batches, [], n), if n > b then [batches[b][i]] else [])
    decreases n
  {
    if n > 0 {
      hide *;
      OnlyOneInLoop(cfg, b, i, batches, n - 1);
      LoopStep(cfg, OnlyInsert(b, i), batches, [], n);
      var t := TallyAt(cfg, OnlyInsert(b, i), batches, [], n - 1);
      OnlyOneTurn(cfg, b, i, n - 1, batches[n - 1], t, if n - 1 > b then [batches[b][i]] else []);
    }
  }

  /**
   Without a pool, any one entry of the plan is stored if all other insertions of the first
   call fail; the second call adds the first entries of all other investors.
   */
  lemma LaterEntryWins(cfg: Config, c: Call, b: nat, i: nat, plans: Plans)
    requires Payable(cfg, c, plans) && !cfg.pool
    requires var batches := Batches(PlanFor(c), cfg.batchSize); b < |batches| && i < |batches[b]|
    ensures var es, plan, p := CallTwice(c, OnlyInsert(b, i)), PlanFor(c), Batches(PlanFor(c), cfg.batchSize)[b][i];
      && Legal(EMPTY_WORLD, plans) && AllFixed(es, plans)
      && var s := AfterAll(cfg, EMPTY_WORLD, es, plans).store;
         && HasCompleted(s, KeyOf(c)) && OldRows(s, KeyOf(c)) == [p] + Missing(plan, {p.investor})
         && p.investor in Investors(plan)
         && Sum(Cents(OldRows(s, KeyOf(c)))) ==
              c.cents - Sum(Cents(Skipped(plan, {}))) + p.cents - FirstOf(plan, p.investor).cents
  {
    var faults, plan, batches := OnlyInsert(b, i), PlanFor(c), Batches(PlanFor(c), cfg.batchSize);
    var p := batches[b][i];
    TwoCallsStore(cfg, faults, c, plans);
    OnlyOneInLoop(cfg, b, i, batches, |batches|);
    assert Investors([p]) == {p.investor};
    BatchInFlatten(batches, b);
    FlattenBatches(plan, cfg.batchSize);
    hide AfterAll, Legal, Flatten, Batches, TallyAt, Missing, PlanFor, OldRows, HasCompleted;
    OneEntrySum(plan, p);
    PlanSum(c);
  }

  lemma OneEntrySum(plan: seq<Payout>, p: Payout)
    requires p in plan
    ensures p.investor in Investors(plan)
    ensures Sum(Cents([p] + Missing(plan, {p.investor}))) ==
      Sum(Cents(plan)) - Sum(Cents(Skipped(plan, {}))) + p.cents - FirstOf(plan, p.investor).cents
  {
    var none: seq<Payout> := [];
    PaidConcat([p], Missing(plan, {p.investor}));
    SumOfAppended(none, p);
    assert none + [p] == [p] && {} + {p.investor} == {p.investor};
    OnePaidMore(plan, {}, p.investor);
    MissingPlusSkipped(plan, {});
  }

  // ----- with a pool: any batch of an investor can be the one that is stored -----

  /**
   Only two batches begin: the earlier one is rolled back after k entries, the later one is
   stored without the investors the earlier one has tried.
   */
  function OnlyLater(first: nat, later: nat, k: nat): Faults {
    (op: Op, attempt: nat) =>
      match op
      case Begin(b) => b != first && b != later
      case Insert(b, i) => b == first && i >= k
      case Commit(b) => b == first
      case _ => false
  }

  lemma ServedBelow(cfg: Config, first: nat, later: nat, k: nat, i: nat)
    requires cfg.maxRetries >= 1
    ensures Served(OnlyLater(first, later, k), Insert(first, i), cfg.maxRetries) <==> i < k
  {
    assert OnlyLater(first, later, k)(Insert(first, i), 1) <==> i >= k;
  }

  // What the rolled-back batch has tried after n entries.
  ghost predicate Tried(batch: seq<Payout>, k: nat, n: nat, ok: bool, added: seq<Payout>)
    requires k <= |batch|
  {
    added == Missing(batch[..if n < k then n else k], {}) && (n <= k ==> ok)
  }

  lemma InsertStep(cfg: Config, faults: Faults, b: nat, batch: seq<Payout>, existing: set<string>, n: nat)
    requires 0 < n <= |batch|
    ensures var (ok, added) := TxAt(cfg, faults, b, batch, existing, n - 1); var p := batch[n - 1];
      TxAt(cfg, faults, b, batch, existing, n) ==
        if !ok || p.investor in existing + Investors(added) then (ok, added)
        else if Served(faults, Insert(b, n - 1), cfg.maxRetries) then (true, added + [p])
        else (false, added)
  {
  }

  lemma NoEntryTried(cfg: Config, faults: Faults, b: nat, batch: seq<Payout>, existing: set<string>, k: nat)
    requires k <= |batch|
    ensures var (ok, added) := TxAt(cfg, faults, b, batch, existing, 0); Tried(batch, k, 0, ok, added)
  {
    assert batch[..0] == [];
  }

  lemma {:induction false} RolledBackAfter(cfg: Config, first: nat, later: nat, k: nat, batch: seq<Payout>, n: nat)
    requires cfg.maxRetries >= 1 && k <= |batch| && n <= |batch|
    ensures var (ok, added) := TxAt(cfg, OnlyLater(first, later, k), first, batch, {}, n); Tried(batch, k, n, ok, added)
    decreases n
  {
    hide *;
    if n == 0 {
      NoEntryTried(cfg, OnlyLater(first, later, k), first, batch, {}, k);
    } else {
      RolledBackAfter(cfg, first, later, k, batch, n - 1);
      ServedBelow(cfg, first, later, k, n - 1);
      InsertStep(cfg, OnlyLater(first, later, k), first, batch, {}, n);
      var (ok, added) := TxAt(cfg, OnlyLater(first, later, k), first, batch, {}, n - 1);
      OneMoreTried(batch, k, n, ok, added);
    }
  }

  lemma OneMoreTried(batch: seq<Payout>, k: nat, n: nat, ok: bool, added: seq<Payout>)
    requires k <= |batch| && 0 < n <= |batch| && Tried(batch, k, n - 1, ok, added)
    ensures var p := batch[n - 1];
      if !ok || p.investor in {} + Investors(added) then Tried(batch, k, n, ok, added)
      else if n - 1 < k then Tried(batch, k, n, true, added + [p])
      else Tried(batch, k, n, false, added)
  {
    if n <= k {
      assert batch[..n] == batch[..n - 1] + [batch[n - 1]];
      MissingSnoc(batch[..n - 1], batch[n - 1], {});
    }
  }

  lemma LaterIsStored(cfg: Config, first: nat, later: nat, k: nat, batch: seq<Payout>, existing: set<string>)
    requires cfg.maxRetries >= 1 && first != later
    ensures TxAt(cfg, OnlyLater(first, later, k), later, batch, existing, |batch|) == (true, Missing(batch, existing))
  {
    var faults := OnlyLater(first, later, k);
    forall i: nat ensures Served(faults, Insert(later, i), cfg.maxRetries) {
      assert !faults(Insert(later, i), 1);
    }
    TxCleanIff(cfg, faults, later, batch, existing, |batch|);
    TxAdds(cfg, faults, later, batch, existing, |batch|);
    assert batch[..|batch|] == batch;
  }

  lemma {:induction false} LaterInLoop(cfg: Config, first: nat, later: nat, k: nat, batches: seq<seq<Payout>>, n: nat)
    requires cfg.maxRetries >= 1 && cfg.pool && first < later < |batches| && k <= |batches[first]| && n <= |batches|
    ensures var t, tried := TallyAt(cfg, OnlyLater(first, later, k), batches, [], n), Investors(batches[first][..k]);
      && (n <= later ==> t.rows == [] && t.existing == if n <= first then {} else tried)
      && (n > later ==> t.rows == Missing(batches[later], tried))
    decreases n
  {
    if n > 0 {
      hide *;
      LaterInLoop(cfg, first, later, k, batches, n - 1);
      LoopStep(cfg, OnlyLater(first, later, k), batches, [], n);
      LaterTurn(cfg, first, later, k, batches[n - 1], n - 1, batches[first],
        TallyAt(cfg, OnlyLater(first, later, k), batches, [], n - 1));
    }
  }

  lemma LaterTurn(cfg: Config, first: nat, later: nat, k: nat, batch: seq<Payout>, b: nat, firstBatch: seq<Payout>, t: Tally)
    requires cfg.maxRetries >= 1 && cfg.pool && first < later && k <= |firstBatch|
    requires b == first ==> batch == firstBatch && t.rows == [] && t.existing == {}
    requires b == later ==> t.rows == []
    ensures var next, tried := Turn(cfg, OnlyLater(first, later, k), b, batch, t), Investors(firstBatch[..k]);
      && (b == first ==> next.rows == [] && next.existing == tried)
      && (b == later ==> next.rows == Missing(batch, t.existing))
      && (b != first && b != later ==> next.rows == t.rows && next.existing == t.existing)
  {
    var faults := OnlyLater(first, later, k);
    assert faults(Begin(b), 1) <==> b != first && b != later;
    assert faults(Commit(b), 1) <==> b == first;
    if b == first {
      RolledBackAfter(cfg, first, later, k, batch, |batch|);
    } else if b == later {
      LaterIsStored(cfg, first, later, k, batch, t.existing);
    }
    hide TxAt, OnlyLater, Missing, Investors;
    assert {} + Investors(Missing(firstBatch[..k], {})) == Investors(firstBatch[..k]);
    assert [] + Missing(batch, t.existing) == Missing(batch, t.existing);
  }

  /**
   With a pool, a later batch is stored without some of the first investors of an earlier
   one; the second call adds the first entries of all others.
   */
  lemma LaterBatchWins(cfg: Config, c: Call, first: nat, later: nat, k: nat, plans: Plans)
    requires Payable(cfg, c, plans) && cfg.pool
    requires var batches := Batches(PlanFor(c), cfg.batchSize); first < later < |batches| && k <= |batches[first]|
    ensures var es, batches := CallTwice(c, OnlyLater(first, later, k)), Batches(PlanFor(c), cfg.batchSize);
      && Legal(EMPTY_WORLD, plans) && AllFixed(es, plans)
      && var s := AfterAll(cfg, EMPTY_WORLD, es, plans).store;
         && HasCompleted(s, KeyOf(c))
         && OldRows(s, KeyOf(c)) == WithLater(PlanFor(c), batches[later], Investors(batches[first][..k]))
  {
    var faults, batches := OnlyLater(first, later, k), Batches(PlanFor(c), cfg.batchSize);
    TwoCallsStore(cfg, faults, c, plans);
    LaterInLoop(cfg, first, later, k, batches, |batches|);
  }

  // A batch without the investors already tried, and the first entries of all others.
  function WithLater(plan: seq<Payout>, batch: seq<Payout>, tried: set<string>): seq<Payout> {
    Missing(batch, tried) + Missing(plan, Investors(batch) - tried)
  }

  /** Trying one investor more exchanges the entry of the batch for the first entry of the plan. */
  lemma OneTriedMore(plan: seq<Payout>, batch: seq<Payout>, tried: set<string>, investor: string)
    requires investor in Investors(batch) && investor in Investors(plan) && investor !in tried
    ensures Sum(Cents(WithLater(plan, batch, tried))) - Sum(Cents(WithLater(plan, batch, tried + {investor})))
         == FirstOf(batch, investor).cents - FirstOf(plan, investor).cents
  {
    var rest := Investors(batch) - (tried + {investor});
    assert rest + {investor} == Investors(batch) - tried;
    PaidConcat(Missing(batch, tried), Missing(plan, rest + {investor}));
    PaidConcat(Missing(batch, tried + {investor}), Missing(plan, rest));
    OnePaidMore(batch, tried, investor);
    OnePaidMore(plan, rest, investor);
  }

  // ----- exactly when every completed run pays the revenue -----

  ghost predicate PaysIfCompleted(cfg: Config, c: Call, es: seq<Incident>, plans: Plans)
    requires cfg.batchSize > 0 && Legal(EMPTY_WORLD, plans) && AllFixed(es, plans)
  {
    var s := AfterAll(cfg, EMPTY_WORLD, es, plans).store;
    HasCompleted(s, KeyOf(c)) ==> Sum(Cents(OldRows(s, KeyOf(c)))) == c.cents
  }

  ghost predicate AlwaysPays(cfg: Config, c: Call, plans: Plans)
    requires cfg.batchSize > 0 && Legal(EMPTY_WORLD, plans)
  {
    forall es :: AllFixed(es, plans) ==> PaysIfCompleted(cfg, c, es, plans)
  }

  lemma SameCandidatesPay(cfg: Config, c: Call, plans: Plans)
    requires Payable(cfg, c, plans) && Legal(EMPTY_WORLD, plans)
    requires SameEntries(Candidates(cfg, PlanFor(c))) && Sum(Cents(Skipped(PlanFor(c), {}))) == 0
    ensures AlwaysPays(cfg, c, plans)
  {
    var plan, key := PlanFor(c), KeyOf(c);
    forall es | AllFixed(es, plans) ensures PaysIfCompleted(cfg, c, es, plans) {
      var s := AfterAll(cfg, EMPTY_WORLD, es, plans).store;
      if HasCompleted(s, key) {
        CompletedHoldsCandidates(cfg, es, key, plans);
        hide AfterAll, HasCompleted, SameEntries, Complete, OldRows, Legal;
        OnlyFirstsPay(cfg, c, OldRows(s, key));
      }
    }
  }

  lemma OnlyFirstsPay(cfg: Config, c: Call, rows: seq<Payout>)
    requires cfg.batchSize > 0 && TotalUnits(c.balances) > 0 && Complete(rows, Candidates(cfg, PlanFor(c)))
    requires SameEntries(Candidates(cfg, PlanFor(c))) && Sum(Cents(Skipped(PlanFor(c), {}))) == 0
    ensures Sum(Cents(rows)) == c.cents
  {
    var plan := PlanFor(c);
    FirstEntriesAreCandidates(cfg, plan);
    OnlyChoice(Candidates(cfg, plan), rows, Missing(plan, {}));
    SumOfPermutation(rows, Missing(plan, {}));
    MissingPlusSkipped(plan, {});
    PlanSum(c);
  }

  // A clean fresh run pays what is not skipped.
  lemma PaysWithoutFaults(cfg: Config, c: Call, plans: Plans)
    requires Payable(cfg, c, plans) && Legal(EMPTY_WORLD, plans) && AlwaysPays(cfg, c, plans)
    ensures Sum(Cents(Skipped(PlanFor(c), {}))) == 0
  {
    var es := [Finished(c, NO_FAULTS)];
    NoFaultsAreTolerated(cfg, NO_FAULTS);
    ToleratedIsServed(cfg, NO_FAULTS, EMPTY_STORE, c);
    NothingStored(KeyOf(c));
    FreshRunPaysIff(cfg, NO_FAULTS, EMPTY_WORLD, c, plans);
    CompletesIff(cfg, NO_FAULTS, EMPTY_WORLD, c, plans);
    assert es[..0] == [];
    assert AfterAll(cfg, EMPTY_WORLD, [], plans) == EMPTY_WORLD;
    hide Called, FindRun;
    assert AfterAll(cfg, EMPTY_WORLD, es, plans) == Called(cfg, NO_FAULTS, EMPTY_WORLD, c).0;
    assert PaysIfCompleted(cfg, c, es, plans);
  }

  lemma PositionOf(batches: seq<seq<Payout>>, p: Payout) returns (b: nat, i: nat)
    requires p in Flatten(batches)
    ensures b < |batches| && i < |batches[b]| && batches[b][i] == p
  {
    var init := batches[..|batches| - 1];
    if p in Flatten(init) {
      b, i := PositionOf(init, p);
    } else {
      b := |batches| - 1;
      i :| 0 <= i < |batches[b]| && batches[b][i] == p;
    }
  }

  // Without a pool each entry of an investor has the amount of the first one.
  lemma PaysAnyEntry(cfg: Config, c: Call, p: Payout, plans: Plans)
    requires Payable(cfg, c, plans) && !cfg.pool && Legal(EMPTY_WORLD, plans) && AlwaysPays(cfg, c, plans)
    requires p in PlanFor(c)
    ensures p.investor in Investors(PlanFor(c)) && p == FirstOf(PlanFor(c), p.investor)
  {
    hide Legal, AlwaysPays, Batches, Flatten, PlanFor, FirstOf, Skipped, Investors;
    PaysWithoutFaults(cfg, c, plans);
    FlattenBatches(PlanFor(c), cfg.batchSize);
    var b, i := PositionOf(Batches(PlanFor(c), cfg.batchSize), p);
    AnyEntryPays(cfg, c, b, i, plans);
  }

  lemma AnyEntryPays(cfg: Config, c: Call, b: nat, i: nat, plans: Plans)
    requires Payable(cfg, c, plans) && !cfg.pool && Legal(EMPTY_WORLD, plans) && AlwaysPays(cfg, c, plans)
    requires var batches := Batches(PlanFor(c), cfg.batchSize); b < |batches| && i < |batches[b]|
    ensures var p, plan := Batches(PlanFor(c), cfg.batchSize)[b][i], PlanFor(c);
      p.investor in Investors(plan) && p.cents - FirstOf(plan, p.investor).cents == Sum(Cents(Skipped(plan, {})))
  {
    LaterEntryWins(cfg, c, b, i, plans);
    hide AfterAll, Legal, HasCompleted, OldRows, FirstOf, Batches, PlanFor, Skipped;
    assert PaysIfCompleted(cfg, c, CallTwice(c, OnlyInsert(b, i)), plans);
  }

  // The first batch that lists an investor, and the place there.
  lemma {:induction false} FirstPlace(batches: seq<seq<Payout>>, investor: string) returns (b: nat, k: nat)
    requires investor in Investors(Flatten(batches))
    ensures b < |batches| && k < |batches[b]| && batches[b][k].investor == investor
    ensures investor in Investors(batches[b]) && investor !in Investors(batches[b][..k])
    ensures FirstOf(Flatten(batches), investor) == FirstOf(batches[b], investor)
    ensures forall j :: 0 <= j < b ==> investor !in Investors(batches[j])
  {
    var init, last := batches[..|batches| - 1], batches[|batches| - 1];
    FirstOfConcat(Flatten(init), last, investor);
    if investor in Investors(Flatten(init)) {
      b, k := FirstPlace(init, investor);
    } else {
      b := |batches| - 1;
      k := FirstPlaceIn(last, investor);
      forall j | 0 <= j < b ensures investor !in Investors(batches[j]) {
        BatchInvestors(init, j);
      }
    }
  }

  lemma {:induction false} FirstPlaceIn(batch: seq<Payout>, investor: string) returns (k: nat)
    requires investor in Investors(batch)
    ensures k < |batch| && batch[k].investor == investor && investor !in Investors(batch[..k])
  {
    var init := batch[..|batch| - 1];
    if investor in Investors(init) {
      k := FirstPlaceIn(init, investor);
      assert init[..k] == batch[..k];
    } else {
      k := |batch| - 1;
      assert batch == init + [batch[k]];
    }
  }

  // With a pool the first entry of an investor has the same amount in every batch.
  lemma PaysAnyBatch(cfg: Config, c: Call, b: nat, p: Payout, plans: Plans)
    requires Payable(cfg, c, plans) && cfg.pool && Legal(EMPTY_WORLD, plans) && AlwaysPays(cfg, c, plans)
    requires b < |Batches(PlanFor(c), cfg.batchSize)| && p in Missing(Batches(PlanFor(c), cfg.batchSize)[b], {})
    ensures p.investor in Investors(PlanFor(c)) && p == FirstOf(PlanFor(c), p.investor)
  {
    var plan, batches := PlanFor(c), Batches(PlanFor(c), cfg.batchSize);
    FlattenBatches(plan, cfg.batchSize);
    MissingIsFirst(batches[b], {}, p);
    BatchInvestors(batches, b);
    var first, k := FirstPlace(batches, p.investor);
    hide Missing, Investors, FirstOf, Flatten, Batches, PlanFor, AlwaysPays;
    if first != b {
      SameInLater(cfg, c, first, b, k, plans);
    }
  }

  lemma SameInLater(cfg: Config, c: Call, first: nat, later: nat, k: nat, plans: Plans)
    requires Payable(cfg, c, plans) && cfg.pool && Legal(EMPTY_WORLD, plans) && AlwaysPays(cfg, c, plans)
    requires var batches := Batches(PlanFor(c), cfg.batchSize); first < later < |batches| && k < |batches[first]|
    requires var batches := Batches(PlanFor(c), cfg.batchSize); var investor := batches[first][k].investor;
      && investor !in Investors(batches[first][..k])
      && investor in Investors(batches[later]) && investor in Investors(PlanFor(c))
    ensures var batches := Batches(PlanFor(c), cfg.batchSize); var investor := batches[first][k].investor;
      FirstOf(batches[later], investor) == FirstOf(PlanFor(c), investor)
  {
    hide Legal, AlwaysPays, Batches, Flatten, PlanFor, FirstOf, Investors, WithLater;
    var plan, batches := PlanFor(c), Batches(PlanFor(c), cfg.batchSize);
    var before, p := batches[first][..k], batches[first][k];
    assert batches[first][..k + 1] == before + [p];
    InvestorsAppend(before, p);
    LaterBatchPays(cfg, c, first, later, k, plans);
    LaterBatchPays(cfg, c, first, later, k + 1, plans);
    OneTriedMore(plan, batches[later], Investors(before), p.investor);
  }

  lemma LaterBatchPays(cfg: Config, c: Call, first: nat, later: nat, k: nat, plans: Plans)
    requires Payable(cfg, c, plans) && cfg.pool && Legal(EMPTY_WORLD, plans) && AlwaysPays(cfg, c, plans)
    requires var batches := Batches(PlanFor(c), cfg.batchSize); first < later < |batches| && k <= |batches[first]|
    ensures var batches := Batches(PlanFor(c), cfg.batchSize);
      Sum(Cents(WithLater(PlanFor(c), batches[later], Investors(batches[first][..k])))) == c.cents
  {
    LaterBatchWins(cfg, c, first, later, k, plans);
    hide AfterAll, Legal, HasCompleted, OldRows, WithLater;
    assert PaysIfCompleted(cfg, c, CallTwice(c, OnlyLater(first, later, k)), plans);
  }

  lemma PaysMeansSame(cfg: Config, c: Call, plans: Plans)
    requires Payable(cfg, c, plans) && Legal(EMPTY_WORLD, plans) && AlwaysPays(cfg, c, plans)
    ensures SameEntries(Candidates(cfg, PlanFor(c)))
  {
    var plan, batches := PlanFor(c), Batches(PlanFor(c), cfg.batchSize);
    forall p | p in Candidates(cfg, plan) ensures p.investor in Investors(plan) && p == FirstOf(plan, p.investor) {
      if cfg.pool {
        FirstsFrom(batches, p);
        var b :| 0 <= b < |batches| && p in Missing(batches[b], {});
        PaysAnyBatch(cfg, c, b, p, plans);
      } else {
        PaysAnyEntry(cfg, c, p, plans);
      }
    }
  }

  // Without an attempt nothing is ever stored.
  lemma {:induction false} NoAttemptNoRun(cfg: Config, es: seq<Incident>, plans: Plans)
    requires cfg.batchSize > 0 && cfg.maxRetries < 1 && Legal(EMPTY_WORLD, plans) && AllFixed(es, plans)
    ensures AfterAll(cfg, EMPTY_WORLD, es, plans) == EMPTY_WORLD
    decreases |es|
  {
    if es != [] {
      var e := es[|es| - 1];
      NoAttemptNoRun(cfg, es[..|es| - 1], plans);
      NothingStored(KeyOf(e.call));
      assert Called(cfg, e.faults, EMPTY_WORLD, e.call).0 == EMPTY_WORLD;
    }
  }

  /**
   After every mix of calls, faults and crashes a completed run pays the revenue, if and
   only if no attempt is ever made, or the entries of an investor that can be stored are
   identical and the skipped ones sum to zero. With a pool these are the first entries of
   the batches, without one all entries of the plan.
   */
  lemma AlwaysPaysIff(cfg: Config, c: Call, plans: Plans)
    requires cfg.batchSize > 0 && ValidInput(c) && TotalUnits(c.balances) > 0 && Fixed(c, plans)
    ensures Legal(EMPTY_WORLD, plans)
    ensures AlwaysPays(cfg, c, plans) <==>
      || cfg.maxRetries < 1
      || (SameEntries(Candidates(cfg, PlanFor(c))) && Sum(Cents(Skipped(PlanFor(c), {}))) == 0)
  {
    EmptyIsLegal(plans);
    if cfg.maxRetries < 1 {
      forall es | AllFixed(es, plans) ensures PaysIfCompleted(cfg, c, es, plans) {
        NoAttemptNoRun(cfg, es, plans);
        NothingStored(KeyOf(c));
      }
    } else {
      hide AlwaysPays, SameEntries, Skipped, Legal;
      if AlwaysPays(cfg, c, plans) {
        PaysMeansSame(cfg, c, plans);
        PaysWithoutFaults(cfg, c, plans);
      } else if SameEntries(Candidates(cfg, PlanFor(c))) && Sum(Cents(Skipped(PlanFor(c), {}))) == 0 {
        SameCandidatesPay(cfg, c, plans);
      }
    }
  }

  /** One transaction for the whole plan: a completed run holds the first entry of every investor, whatever happened. */
  lemma OneBatchStoresFirsts(cfg: Config, es: seq<Incident>, key: RunKey, plans: Plans)
    requires cfg.pool && cfg.batchSize > 0 && |plans(key)| <= cfg.batchSize && Legal(EMPTY_WORLD, plans) && AllFixed(es, plans)
    requires HasCompleted(AfterAll(cfg, EMPTY_WORLD, es, plans).store, key)
    ensures multiset(OldRows(AfterAll(cfg, EMPTY_WORLD, es, plans).store, key)) == multiset(Missing(plans(key), {}))
    ensures SameEntries(Candidates(cfg, plans(key)))
  {
    var plan, first := plans(key), Missing(plans(key), {});
    CompletedHoldsCandidates(cfg, es, key, plans);
    assert [plan][..0] == [] && Firsts([plan]) == [] + first;
    assert plan == [] ==> first == [];
    assert Candidates(cfg, plan) == first;
    MissingIsDistinct(plan, {});
    DistinctIsSame(first);
    hide AfterAll, HasCompleted, OldRows, Candidates;
    OnlyChoice(first, OldRows(AfterAll(cfg, EMPTY_WORLD, es, plans).store, key), first);
  }

  lemma DistinctIsSame(rows: seq<Payout>)
    requires Distinct(rows)
    ensures SameEntries(rows)
  {
  }
}
