/**
 The distribution engine step by step (src/services/distributionEngine.ts): retries, the
 two ways to persist a batch, the batch loop and the whole call. Each method carries out
 the function of BatchLoop or DistributionProtocol that the theorems are about.
 */
module DistributionEngine {
  import opened Wrappers
  import opened Allocation
  import opened PayoutStore
  import opened BatchLoop
  import opened DistributionProtocol
  import opened DistributionRuns
  import opened Sequences

  // ----- which batch comes next -----

  function Drop(plan: seq<Payout>, n: nat): seq<Payout> {
    if n <= |plan| then plan[n..] else []
  }

  function BatchAt(plan: seq<Payout>, start: nat, batchSize: nat): seq<Payout>
    requires start < |plan|
  {
    if start + batchSize <= |plan| then plan[start..start + batchSize] else plan[start..]
  }

  // Batch number b starts at position `start` of the plan.
  ghost predicate StartsAt(plan: seq<Payout>, batchSize: nat, b: nat, start: nat)
    requires batchSize > 0
  {
    var batches := Batches(plan, batchSize);
    b <= |batches| && batches[b..] == Batches(Drop(plan, start), batchSize)
  }

  lemma FirstStart(plan: seq<Payout>, batchSize: nat)
    requires batchSize > 0
    ensures StartsAt(plan, batchSize, 0, 0)
  {
    assert plan[0..] == plan;
  }

  lemma SplitAtBatch(plan: seq<Payout>, start: nat, batchSize: nat)
    requires start < |plan| && batchSize > 0
    ensures Batches(Drop(plan, start), batchSize)
         == [BatchAt(plan, start, batchSize)] + Batches(Drop(plan, start + batchSize), batchSize)
  {
    var tail := Drop(plan, start);
    if start + batchSize < |plan| {
      assert tail[batchSize..] == Drop(plan, start + batchSize);
      assert tail[..batchSize] == BatchAt(plan, start, batchSize);
    } else {
      assert tail == BatchAt(plan, start, batchSize);
    }
  }

  /** The slice at `start` is the next batch, and batchSize further on is the one after. */
  lemma NextStart(plan: seq<Payout>, batchSize: nat, b: nat, start: nat)
    requires batchSize > 0 && start < |plan| && StartsAt(plan, batchSize, b, start)
    ensures var batches := Batches(plan, batchSize);
      && b < |batches| && batches[b] == BatchAt(plan, start, batchSize)
      && StartsAt(plan, batchSize, b + 1, start + batchSize)
  {
    var batches := Batches(plan, batchSize);
    SplitAtBatch(plan, start, batchSize);
    assert batches[b..][0] == batches[b] && batches[b..][1..] == batches[b + 1..];
  }

  lemma LastStart(plan: seq<Payout>, batchSize: nat, b: nat, start: nat)
    requires batchSize > 0 && start >= |plan| && StartsAt(plan, batchSize, b, start)
    ensures b == |Batches(plan, batchSize)|
  {
    assert Drop(plan, start) == [];
  }

  // ----- states along the way -----

  lemma RowsTwice(m: map<nat, seq<Payout>>, id: nat, a: seq<Payout>, b: seq<Payout>)
    ensures m[id := a][id := b] == m[id := b]
    ensures id in m && m[id] == a ==> m == m[id := a]
  {
  }

  lemma StoresSnoc(s: Store, id: nat, writes: seq<seq<Payout>>, rows: seq<Payout>)
    ensures Stores(s, id, writes + [rows]) == Stores(s, id, writes) + [WithRows(s, id, rows)]
  {
    assert (writes + [rows])[..|writes|] == writes;
  }

  lemma GrowthsSnoc(rows: seq<Payout>, added: seq<Payout>, p: Payout)
    ensures Growths(rows, added + [p]) == Growths(rows, added) + [rows + (added + [p])]
  {
    assert (added + [p])[..|added|] == added;
  }

  lemma {:induction false} StoresConcat(s: Store, id: nat, a: seq<seq<Payout>>, b: seq<seq<Payout>>)
    ensures Stores(s, id, a + b) == Stores(s, id, a) + Stores(s, id, b)
    decreases |b|
  {
    if b == [] {
      assert a + b == a;
    } else {
      var init, last := b[..|b| - 1], b[|b| - 1];
      assert b == init + [last];
      Associative(a, init, [last]);
      StoresConcat(s, id, a, init);
      StoresSnoc(s, id, a + init, last);
      StoresSnoc(s, id, init, last);
      Associative(Stores(s, id, a), Stores(s, id, init), [WithRows(s, id, last)]);
    }
  }

  // What single insertions have added to the log.
  ghost predicate Wrote(journal0: seq<Store>, s: Store, id: nat, rows: seq<Payout>, added: seq<Payout>, journal: seq<Store>) {
    journal == journal0 + Stores(s, id, Growths(rows, added))
  }

  lemma WroteNothing(journal: seq<Store>, s: Store, id: nat, rows: seq<Payout>)
    ensures Wrote(journal, s, id, rows, [], journal)
  {
    assert journal + [] == journal;
  }

  lemma WroteMore(journal0: seq<Store>, s: Store, id: nat, rows: seq<Payout>, added: seq<Payout>, p: Payout)
    ensures forall journal :: Wrote(journal0, s, id, rows, added, journal) ==>
      Wrote(journal0, s, id, rows, added + [p], journal + [WithRows(s, id, rows + (added + [p]))])
  {
    GrowthsSnoc(rows, added, p);
    StoresSnoc(s, id, Growths(rows, added), rows + (added + [p]));
    Associative(journal0, Stores(s, id, Growths(rows, added)), [WithRows(s, id, rows + (added + [p]))]);
  }

  lemma WroteIs(journal0: seq<Store>, s: Store, id: nat, rows: seq<Payout>, added: seq<Payout>, journal: seq<Store>)
    requires Wrote(journal0, s, id, rows, added, journal)
    ensures journal == journal0 + Stores(s, id, Growths(rows, added))
  {
  }

  lemma PlainFacts(cfg: Config, faults: Faults, b: nat, batch: seq<Payout>, existing: set<string>)
    ensures var (added, failed) := PlainAt(cfg, faults, b, batch, existing, |batch|);
      BatchOutcome(batch, existing, added, failed) && (failed == [] ==> added == Missing(batch, existing))
  {
    PlainAdds(cfg, faults, b, batch, existing, |batch|);
    assert batch[..|batch|] == batch;
  }

  class DistributionEngine {
    const repo: DistributionRepository
    const cfg: Config

    // `batchSize` must be positive: the batch loop of the source does not end on zero.
    constructor (repo: DistributionRepository, cfg: Config)
      requires cfg.batchSize > 0
      ensures this.repo == repo && this.cfg == cfg
    {
      this.repo, this.cfg := repo, cfg;
    }

    ghost predicate Idle()
      reads repo
    {
      repo.Valid() && repo.undo.None?
    }

    // ----- withRetry, at its three uses -----

    /** The balance provider answers unless every one of maxRetries attempts raises. */
    method FetchBalances(balances: seq<Balance>, faults: Faults) returns (r: Option<seq<Balance>>)
      ensures r == if Served(faults, Op.FetchBalances, cfg.maxRetries) then Some(balances) else None
    {
      var attempt := 1;
      while attempt <= cfg.maxRetries
        invariant attempt >= 1
        invariant forall a: nat :: 1 <= a < attempt ==> faults(Op.FetchBalances, a)
      {
        if !faults(Op.FetchBalances, attempt) {
          return Some(balances);
        }
        attempt := attempt + 1;
      }
      return None;
    }

    /** One run is created, unless every attempt raises; then nothing has changed. */
    method CreateRunWithRetry(key: RunKey, faults: Faults) returns (r: Option<nat>)
      requires Idle()
      modifies repo
      ensures Idle()
      ensures r == if Served(faults, CreateRun, cfg.maxRetries) then Some(old(repo.nextId)) else None
      ensures r.None? ==> repo.View() == old(repo.View())
      ensures r.Some? ==>
        repo.View() == Recorded(old(repo.View()), WithRun(old(repo.View()).store, old(repo.nextId), key, Processing))
          .(nextId := old(repo.nextId) + 1)
    {
      var attempt := 1;
      while attempt <= cfg.maxRetries
        invariant attempt >= 1 && Idle() && repo.View() == old(repo.View())
        invariant forall a: nat :: 1 <= a < attempt ==> faults(CreateRun, a)
      {
        var created := repo.CreateDistributionRun(key, Processing, faults(CreateRun, attempt));
        if created.Success? {
          return Some(created.value);
        }
        attempt := attempt + 1;
      }
      return None;
    }

    /** One row is written, unless every attempt raises; then nothing has changed. */
    method CreatePayoutWithRetry(id: nat, payout: Payout, op: Op, faults: Faults) returns (ok: bool)
      requires repo.Valid() && id in repo.runs
      modifies repo`payouts, repo`journal
      ensures repo.Valid() && ok == Served(faults, op, cfg.maxRetries)
      ensures !ok ==> repo.payouts == old(repo.payouts) && repo.journal == old(repo.journal)
      ensures ok ==>
        && repo.payouts == old(repo.payouts)[id := old(repo.payouts)[id] + [payout]]
        && repo.journal == if repo.undo.None? then old(repo.journal) + [Store(repo.runs, repo.payouts)]
                           else old(repo.journal)
    {
      var attempt := 1;
      while attempt <= cfg.maxRetries
        invariant attempt >= 1 && repo.Valid()
        invariant repo.payouts == old(repo.payouts) && repo.journal == old(repo.journal)
        invariant forall a: nat :: 1 <= a < attempt ==> faults(op, a)
      {
        ok := repo.CreatePayout(id, payout, faults(op, attempt));
        if ok {
          return;
        }
        attempt := attempt + 1;
      }
      return false;
    }

    // ----- one batch -----

    /** Inside the transaction: the first entry of each investor without a row, until an insertion fails. */
    method InsertMissing(id: nat, b: nat, batch: seq<Payout>, existing: set<string>, faults: Faults)
      returns (ok: bool, added: seq<Payout>)
      requires repo.Valid() && repo.undo.Some? && id in repo.runs
      modifies repo`payouts, repo`journal
      ensures repo.Valid() && repo.journal == old(repo.journal)
      ensures (ok, added) == TxAt(cfg, faults, b, batch, existing, |batch|)
      ensures ok ==> added == Missing(batch, existing)
      ensures repo.payouts == old(repo.payouts)[id := old(repo.payouts)[id] + added]
    {
      ok, added := true, [];
      ghost var rows := repo.payouts[id];
      assert rows + added == rows;
      var i := 0;
      while i < |batch| && ok
        invariant 0 <= i <= |batch| && repo.Valid() && repo.journal == old(repo.journal)
        invariant (ok, added) == TxAt(cfg, faults, b, batch, existing, i)
        invariant repo.payouts == old(repo.payouts)[id := rows + added]
      {
        var p := batch[i];
        if p.investor !in existing + Investors(added) {
          ok := CreatePayoutWithRetry(id, p, Insert(b, i), faults);
          if ok {
            assert rows + (added + [p]) == rows + added + [p];
            added := added + [p];
          }
        }
        i := i + 1;
      }
      TxStays(cfg, faults, b, batch, existing, i, |batch|);
      TxAdds(cfg, faults, b, batch, existing, |batch|);
      assert batch[..|batch|] == batch;
    }

    /**
     With a pool: BEGIN, the insertions, COMMIT; on an error ROLLBACK. The caller's lists
     receive `added` whether or not the rows are kept, as in the source.
     */
    method TransactionalBatch(id: nat, b: nat, batch: seq<Payout>, existing: set<string>, faults: Faults)
      returns (ok: bool, added: seq<Payout>, ghost kept: bool)
      requires Idle() && id in repo.runs
      modifies repo
      ensures Idle() && repo.runs == old(repo.runs) && repo.nextId == old(repo.nextId)
      ensures !Once(faults, Begin(b)) ==> !ok && added == [] && !kept
      ensures Once(faults, Begin(b)) ==>
        && added == TxAt(cfg, faults, b, batch, existing, |batch|).1
        && kept == (TxAt(cfg, faults, b, batch, existing, |batch|).0 && Once(faults, Commit(b)))
        && ok == (kept && Once(faults, CommitReply(b)))
      ensures kept ==> added == Missing(batch, existing)
      ensures repo.payouts == if kept then old(repo.payouts)[id := old(repo.payouts)[id] + added] else old(repo.payouts)
      ensures repo.journal ==
        if kept then old(repo.journal) + [WithRows(old(repo.View()).store, id, old(repo.payouts)[id] + added)]
        else old(repo.journal)
    {
      added, kept := [], false;
      ok := repo.Begin(faults(Begin(b), 1));
      if !ok {
        return;
      }
      ok, added := InsertMissing(id, b, batch, existing, faults);
      if ok {
        ok := repo.Commit(faults(Commit(b), 1), faults(CommitReply(b), 1));
        kept := repo.undo.None?;
      }
      if !ok {
        repo.Rollback();
      }
    }

    /** Without a pool: each insertion is durable on its own, and the failed ones are reported. */
    method PlainBatch(id: nat, b: nat, batch: seq<Payout>, existing: set<string>, faults: Faults)
      returns (added: seq<Payout>, failed: seq<Payout>)
      requires Idle() && id in repo.runs
      modifies repo`payouts, repo`journal
      ensures Idle()
      ensures (added, failed) == PlainAt(cfg, faults, b, batch, existing, |batch|)
      ensures failed == [] ==> added == Missing(batch, existing)
      ensures BatchOutcome(batch, existing, added, failed)
      ensures repo.payouts == old(repo.payouts)[id := old(repo.payouts)[id] + added]
      ensures repo.journal ==
        old(repo.journal) + Stores(old(repo.View()).store, id, Growths(old(repo.payouts)[id], added))
    {
      added, failed := [], [];
      ghost var rows, s := repo.payouts[id], repo.View().store;
      assert rows + added == rows && repo.journal + [] == repo.journal;
      hide Wrote, Growths, Stores, BatchOutcome, Missing;
      WroteNothing(repo.journal, s, id, rows);
      for i := 0 to |batch|
        invariant Idle()
        invariant (added, failed) == PlainAt(cfg, faults, b, batch, existing, i)
        invariant repo.payouts == old(repo.payouts)[id := rows + added]
        invariant Wrote(old(repo.journal), s, id, rows, added, repo.journal)
      {
        var p := batch[i];
        if p.investor !in existing + Investors(added) {
          var ok := CreatePayoutWithRetry(id, p, Insert(b, i), faults);
          if ok {
            assert rows + (added + [p]) == rows + added + [p];
            WroteMore(old(repo.journal), s, id, rows, added, p);
            added := added + [p];
          } else {
            failed := failed + [p];
          }
        }
      }
      PlainFacts(cfg, faults, b, batch, existing);
      WroteIs(old(repo.journal), s, id, rows, added, repo.journal);
    }

    // ----- the batch loop -----

    // Where the loop stands: its variables are the tally, and the log holds its writes.
    ghost predicate LoopState(id: nat, s: Store, journal0: seq<Store>, t: Tally)
      reads repo
    {
      && Idle() && id in repo.runs && id in s.payouts
      && repo.runs == s.runs && repo.payouts == s.payouts[id := t.rows]
      && repo.journal == journal0 + Stores(s, id, t.writes)
    }

    /** One turn of the loop, by either way. */
    method ProcessBatch(id: nat, b: nat, batch: seq<Payout>, faults: Faults, existing0: set<string>,
                        successful0: seq<Payout>, failed0: seq<Payout>, broken0: bool,
                        ghost t: Tally, ghost s: Store, ghost journal0: seq<Store>)
      returns (existing: set<string>, successful: seq<Payout>, failed: seq<Payout>, broken: bool)
      requires LoopState(id, s, journal0, t)
      requires (existing0, successful0, failed0, broken0) == (t.existing, t.successful, t.failed, t.broken)
      modifies repo
      ensures var next := Turn(cfg, faults, b, batch, t);
        && LoopState(id, s, journal0, next) && repo.nextId == old(repo.nextId)
        && (existing, successful, failed, broken) == (next.existing, next.successful, next.failed, next.broken)
    {
      RowsTwice(s.payouts, id, t.rows, t.rows);
      if cfg.pool {
        var ok, added;
        ghost var kept;
        ok, added, kept := TransactionalBatch(id, b, batch, existing0, faults);
        existing, successful := existing0 + Investors(added), successful0 + added;
        failed, broken := failed0, broken0 || !ok;
        TxTurnIs(cfg, faults, b, batch, t, ok, added, kept);
        if kept { KeptBatch(s, journal0, id, t, added); }
      } else {
        var added, failed' := PlainBatch(id, b, batch, existing0, faults);
        existing, successful := existing0 + Investors(added), successful0 + added;
        failed, broken := failed0 + failed', broken0;
        InsertedRows(s, journal0, id, t, added);
      }
    }

    /** Step 6: all batches in turn; a batch that fails does not stop the later ones. */
    method PersistBatches(id: nat, plan: seq<Payout>, stored: seq<Payout>, faults: Faults)
      returns (successful: seq<Payout>, failed: seq<Payout>, broken: bool)
      requires Idle() && id in repo.runs && stored == repo.payouts[id] && cfg.batchSize > 0
      modifies repo
      ensures Idle()
      ensures var t := WholeTally(cfg, faults, stored, plan);
        && repo.View() == Persisted(old(repo.View()), id, t)
        && (successful, failed, broken) == (t.successful, t.failed, t.broken)
    {
      var existing;
      existing, successful, failed, broken := Investors(stored), stored, [], false;
      ghost var s, journal0, batches := repo.View().store, repo.journal, Batches(plan, cfg.batchSize);
      var batchStart, b := 0, 0;
      FirstStart(plan, cfg.batchSize);
      LoopStarts(repo.payouts, id, stored, repo.journal);
      while batchStart < |plan|
        invariant 0 <= batchStart && StartsAt(plan, cfg.batchSize, b, batchStart)
        invariant var t := TallyAt(cfg, faults, batches, stored, b);
          && LoopState(id, s, journal0, t) && repo.nextId == old(repo.nextId)
          && (existing, successful, failed, broken) == (t.existing, t.successful, t.failed, t.broken)
      {
        NextStart(plan, cfg.batchSize, b, batchStart);
        var batch := BatchAt(plan, batchStart, cfg.batchSize);
        existing, successful, failed, broken := ProcessBatch(
          id, b, batch, faults, existing, successful, failed, broken, TallyAt(cfg, faults, batches, stored, b), s, journal0);
        batchStart, b := batchStart + cfg.batchSize, b + 1;
      }
      LastStart(plan, cfg.batchSize, b, batchStart);
    }

    // ----- the whole call -----

    /** Steps 2 and 5: the run to work on, created or put back to processing. */
    method OpenOrCreateRun(found: Option<nat>, key: RunKey, faults: Faults) returns (r: Option<nat>)
      requires Idle() && found == FindRun(repo.View().store, key)
      modifies repo
      ensures Idle()
      ensures (repo.View(), r) == Opened(cfg, faults, old(repo.View()), key)
    {
      match found
      case None =>
        r := CreateRunWithRetry(key, faults);
      case Some(id) =>
        r := Some(id);
        if repo.runs[id].status != Processing {
          var ok := repo.UpdateRunStatus(id, Processing, faults(Reopen, 1));
          if !ok {
            r := None;
          }
        }
    }

    /** Step 6 on an open run, and the final status; the call returns whether or not that is recorded. */
    method Settle(id: nat, plan: seq<Payout>, faults: Faults) returns (r: Result<BatchResult, Error>)
      requires Idle() && id in repo.runs && cfg.batchSize > 0
      modifies repo
      ensures Idle()
      ensures (repo.View(), r) == Settled(cfg, faults, old(repo.View()), id, plan)
    {
      var stored := repo.GetPayoutsForRun(id, faults(ReadRows, 1));
      if stored.Failure? {
        return Failure(StoreError);
      }
      var successful, failed, broken := PersistBatches(id, plan, stored.value, faults);
      var status := if failed == [] && !broken then Completed else Status.Failed;
      var recorded := repo.UpdateRunStatus(id, status, faults(SetStatus, 1));
      return Success(BatchResult(id, successful, failed, |plan|));
    }

    /** distributeWithBatch: one call carries out the function the theorems are about. */
    method DistributeWithBatch(c: Call, faults: Faults, ghost plans: Plans) returns (r: Result<BatchResult, Error>)
      requires Idle() && cfg.batchSize > 0 && Legal(repo.View(), plans)
      modifies repo
      ensures Idle()
      ensures (repo.View(), r) == Called(cfg, faults, old(repo.View()), c)
    {
      if !(c.offering != "" && c.cents > 0 && c.period != "" && c.periodHasEnd) {
        return Failure(BadRequest);
      }
      var key := KeyOf(c);
      var lookup := repo.FindRunByParams(key, faults(LookUp, 1));
      if lookup.Failure? {
        return Failure(StoreError);
      }
      var found := lookup.value;
      LastIsLegal(repo.View(), plans);
      if found.Some? {
        FoundIsTheOne(repo.View().store, found.value, plans);
        if repo.runs[found.value].status == Completed {
          var rows := repo.GetPayoutsForRun(found.value, faults(ReadRows, 1));
          if rows.Failure? {
            return Failure(StoreError);
          }
          return Success(BatchResult(found.value, rows.value, [], |rows.value|));
        }
      }
      var fetched := FetchBalances(c.balances, faults);
      if fetched.None? {
        return Failure(ServiceUnavailable);
      }
      if fetched.value == [] {
        return Failure(BadRequest);
      }
      var total := SumOf(Units(fetched.value));
      if total <= 0 {
        return Failure(BadRequest);
      }
      var plan := ComputePlan(fetched.value, c.cents);
      var target := OpenOrCreateRun(found, key, faults);
      if target.None? {
        return Failure(Internal);
      }
      r := Settle(target.value, plan, faults);
    }

    /** distribute: reports failed payouts as an error. */
    method Distribute(c: Call, faults: Faults, ghost plans: Plans) returns (r: Result<BatchResult, Error>)
      requires Idle() && cfg.batchSize > 0 && Legal(repo.View(), plans)
      modifies repo
      ensures Idle()
      ensures (repo.View(), r) == Distributed(cfg, faults, old(repo.View()), c)
    {
      r := DistributeWithBatch(c, faults, plans);
      if r.Success? && r.value.failed != [] {
        return Failure(Internal);
      }
    }
  }

  lemma LoopStarts(payouts: map<nat, seq<Payout>>, id: nat, rows: seq<Payout>, journal: seq<Store>)
    requires id in payouts && payouts[id] == rows
    ensures payouts == payouts[id := rows] && journal + [] == journal
  {
  }

  /**
   A process that runs calls and may die after any durable write of one, to be started
   again on the tables it left: it ends where AfterAll says, in legal tables.
   */
  method Operate(cfg: Config, es: seq<Incident>, ghost plans: Plans) returns (repo: DistributionRepository)
    requires cfg.batchSize > 0 && AllFixed(es, plans)
    ensures fresh(repo) && repo.Valid() && repo.undo.None?
    ensures Legal(EMPTY_WORLD, plans) && repo.View() == AfterAll(cfg, EMPTY_WORLD, es, plans)
  {
    EmptyIsLegal(plans);
    repo := new DistributionRepository();
    for i := 0 to |es|
      invariant fresh(repo) && repo.Valid() && repo.undo.None?
      invariant repo.View() == AfterAll(cfg, EMPTY_WORLD, es[..i], plans)
    {
      TakeOneMore(es, i);
      ghost var w := repo.View();
      SurvivedLegal(cfg, w, es[i], plans);
      var engine := new DistributionEngine(repo, cfg);
      var logged := |repo.journal|;
      var r := engine.DistributeWithBatch(es[i].call, es[i].faults, plans);
      CalledLegal(cfg, es[i].faults, w, es[i].call, plans);
      if es[i].Crashed? {
        var k := Min(logged + es[i].writes, |repo.journal|);
        CutIsLegal(repo.View(), k, plans);
        repo := new DistributionRepository.Resume(repo.journal[..k], repo.nextId);
      }
    }
    assert es[..|es|] == es;
  }

  lemma TxTurnIs(cfg: Config, faults: Faults, b: nat, batch: seq<Payout>, t: Tally, ok: bool, added: seq<Payout>, kept: bool)
    requires !Once(faults, Begin(b)) ==> !ok && added == [] && !kept
    requires Once(faults, Begin(b)) ==>
      && added == TxAt(cfg, faults, b, batch, t.existing, |batch|).1
      && kept == (TxAt(cfg, faults, b, batch, t.existing, |batch|).0 && Once(faults, Commit(b)))
      && ok == (kept && Once(faults, CommitReply(b)))
    ensures TurnTx(cfg, faults, b, batch, t) ==
      Tally(if kept then t.rows + added else t.rows, t.existing + Investors(added), t.successful + added, t.failed,
            t.broken || !ok, if kept then t.writes + [t.rows + added] else t.writes)
  {
    assert Investors([]) == {} && t.existing + {} == t.existing && t.successful + [] == t.successful;
  }

  lemma KeptBatch(s: Store, journal0: seq<Store>, id: nat, t: Tally, added: seq<Payout>)
    ensures var rows := t.rows + added;
      && (journal0 + Stores(s, id, t.writes)) + [WithRows(s, id, rows)] == journal0 + Stores(s, id, t.writes + [rows])
      && s.payouts[id := t.rows][id := rows] == s.payouts[id := rows]
      && WithRows(WithRows(s, id, t.rows), id, rows) == WithRows(s, id, rows)
  {
    StoresSnoc(s, id, t.writes, t.rows + added);
    Associative(journal0, Stores(s, id, t.writes), [WithRows(s, id, t.rows + added)]);
  }

  lemma InsertedRows(s: Store, journal0: seq<Store>, id: nat, t: Tally, added: seq<Payout>)
    ensures var growths := Growths(t.rows, added);
      && (journal0 + Stores(s, id, t.writes)) + Stores(WithRows(s, id, t.rows), id, growths)
         == journal0 + Stores(s, id, t.writes + growths)
      && s.payouts[id := t.rows][id := t.rows + added] == s.payouts[id := t.rows + added]
  {
    var growths := Growths(t.rows, added);
    StoresOverwrite(s, id, t.rows, growths);
    StoresConcat(s, id, t.writes, growths);
    Associative(journal0, Stores(s, id, t.writes), Stores(s, id, growths));
  }

  lemma {:induction false} StoresOverwrite(s: Store, id: nat, rows: seq<Payout>, writes: seq<seq<Payout>>)
    ensures Stores(WithRows(s, id, rows), id, writes) == Stores(s, id, writes)
    decreases |writes|
  {
    if writes != [] {
      StoresOverwrite(s, id, rows, writes[..|writes| - 1]);
      WithRowsTwice(s, id, rows, writes[|writes| - 1]);
    }
  }

  // Once an insertion has failed, the rest of the batch changes nothing.
  lemma {:induction false} TxStays(cfg: Config, faults: Faults, b: nat, batch: seq<Payout>, existing: set<string>,
                                   i: nat, n: nat)
    requires i <= n <= |batch| && (i < n ==> !TxAt(cfg, faults, b, batch, existing, i).0)
    ensures TxAt(cfg, faults, b, batch, existing, n) == TxAt(cfg, faults, b, batch, existing, i)
    decreases n
  {
    if i < n { TxStays(cfg, faults, b, batch, existing, i, n - 1); }
  }
}
