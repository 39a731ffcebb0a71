/**
 The batch loop of src/services/distributionEngine.ts as a function of the faults it
 meets: what is inserted, committed, rolled back and reported, batch after batch.
 */
module BatchLoop {
  import opened Wrappers
  import opened Allocation
  import opened PayoutStore
  import opened Sequences

  datatype Config = Config(maxRetries: int, batchSize: nat, pool: bool)

  /** The store calls of one distribution; batches and entries are counted from 0. */
  datatype Op =
    | LookUp | FetchBalances | CreateRun | Reopen | ReadRows | SetStatus
    | Begin(batch: nat) | Insert(batch: nat, entry: nat)
    | Commit(batch: nat)       // COMMIT raises and has no effect
    | CommitReply(batch: nat)  // COMMIT takes effect, but its reply is lost

  /** Whether an attempt (counted from 1) of a store call raises: chosen by the environment. */
  type Faults = (Op, nat) -> bool

  // A call that is tried once.
  predicate Once(faults: Faults, op: Op) {
    !faults(op, 1)
  }

  /** withRetry: one of at most maxRetries attempts does not raise. */
  ghost predicate Served(faults: Faults, op: Op, maxRetries: int) {
    exists attempt: nat :: 1 <= attempt <= maxRetries && !faults(op, attempt)
  }

  /** All of the batch is stored, or what is stored of it is what was stored before. */
  ghost predicate BatchAtomic(batch: seq<Payout>, before: set<string>, after: set<string>) {
    Investors(batch) <= after || Investors(batch) * after == Investors(batch) * before
  }

  function Flatten(batches: seq<seq<Payout>>): seq<Payout> {
    if batches == [] then [] else Flatten(batches[..|batches| - 1]) + batches[|batches| - 1]
  }

  /** The plan cut into batches of the configured size; only the last may be shorter. */
  function Batches(plan: seq<Payout>, batchSize: nat): seq<seq<Payout>>
    requires batchSize > 0
  {
    if plan == [] then []
    else if |plan| <= batchSize then [plan]
    else [plan[..batchSize]] + Batches(plan[batchSize..], batchSize)
  }

  lemma InvestorsAppend(rows: seq<Payout>, p: Payout)
    ensures Investors(rows + [p]) == Investors(rows) + {p.investor}
  {
  }

  lemma PrefixInvestors(a: seq<Payout>, b: seq<Payout>)
    requires a <= b
    ensures Investors(a) <= Investors(b)
  {
    assert forall r :: r in a ==> r in b;
  }

  /** Every entry of a batch was stored before, is stored now, or is reported as failed. */
  ghost predicate BatchOutcome(batch: seq<Payout>, existing: set<string>, added: seq<Payout>, failed: seq<Payout>) {
    && Investors(added) !! existing && Investors(added) <= Investors(batch)
    && Investors(batch) <= existing + Investors(added) + Investors(failed)
    && (forall p :: p in failed ==> p in batch)
    && (Distinct(batch) ==> Investors(failed) !! existing + Investors(added))
  }

  lemma BatchOutcomeTried(batch: seq<Payout>, p: Payout, existing: set<string>, added: seq<Payout>, failed: seq<Payout>)
    requires BatchOutcome(batch, existing, added, failed) && p.investor !in existing + Investors(added)
    ensures BatchOutcome(batch + [p], existing, added + [p], failed)
    ensures BatchOutcome(batch + [p], existing, added, failed + [p])
  {
    InvestorsAppend(batch, p);
    InvestorsAppend(added, p);
    InvestorsAppend(failed, p);
    if Distinct(batch + [p]) {
      DistinctInit(batch, p);
      assert Investors(failed) <= Investors(batch);
    }
  }

  lemma BatchOutcomeSkipped(batch: seq<Payout>, p: Payout, existing: set<string>, added: seq<Payout>, failed: seq<Payout>)
    requires BatchOutcome(batch, existing, added, failed) && p.investor in existing + Investors(added)
    ensures BatchOutcome(batch + [p], existing, added, failed)
  {
    InvestorsAppend(batch, p);
    if Distinct(batch + [p]) {
      DistinctInit(batch, p);
    }
  }

  lemma DistinctInit(batch: seq<Payout>, p: Payout)
    requires Distinct(batch + [p])
    ensures Distinct(batch) && p.investor !in Investors(batch)
  {
    var all := batch + [p];
    assert forall i :: 0 <= i < |batch| ==> all[i] == batch[i];
    assert all[|batch|] == p;
  }

  lemma FlattenAppend(batches: seq<seq<Payout>>, batch: seq<Payout>)
    ensures Flatten(batches + [batch]) == Flatten(batches) + batch
  {
    assert (batches + [batch])[..|batches|] == batches;
  }

  lemma {:induction false} BatchInvestors(batches: seq<seq<Payout>>, k: nat)
    requires k < |batches|
    ensures Investors(batches[k]) <= Investors(Flatten(batches))
  {
    var n := |batches| - 1;
    InvestorsConcat(Flatten(batches[..n]), batches[n]);
    if k < n {
      BatchInvestors(batches[..n], k);
    }
  }

  /** Storing rows of a new batch leaves the earlier batches of a distinct plan atomic. */
  lemma EarlierBatchesUndisturbed(done: seq<seq<Payout>>, batch: seq<Payout>, before: set<string>,
                                  after: set<string>, added: set<string>)
    requires Investors(Flatten(done)) !! Investors(batch) && added <= Investors(batch)
    requires forall b :: b in done ==> BatchAtomic(b, before, after)
    ensures forall b :: b in done ==> BatchAtomic(b, before, after + added)
  {
    forall k | 0 <= k < |done| ensures BatchAtomic(done[k], before, after + added) {
      BatchInvestors(done, k);
      assert BatchAtomic(done[k], before, after);
      assert Investors(done[k]) * (after + added) == Investors(done[k]) * after;
    }
  }

  lemma DistinctSplit(a: seq<Payout>, b: seq<Payout>, c: seq<Payout>)
    requires Distinct(a + b + c)
    ensures Distinct(b) && Investors(a) !! Investors(b)
  {
    var all := a + b + c;
    assert forall i :: 0 <= i < |a| ==> all[i] == a[i];
    assert forall i :: 0 <= i < |b| ==> all[|a| + i] == b[i];
  }

  /** Where the batch loop stands after the batches of `done`. */
  ghost predicate Progress(done: seq<seq<Payout>>, rows0: seq<Payout>, rows: seq<Payout>, existing: set<string>,
                           successful: seq<Payout>, failed: seq<Payout>, broken: bool, pool: bool)
  {
    var plan := Flatten(done);
    && rows0 <= rows
    && Investors(rows) <= existing
    && existing <= Investors(rows0) + Investors(plan)
    && (forall p :: p in failed ==> p in plan)
    && (forall r :: r in rows ==> r in successful)
    && (!broken ==> successful == rows && existing == Investors(rows))
    && (!broken ==> Investors(plan) <= existing + Investors(failed))
    && (if pool then failed == [] else !broken)
  }

  // What a distinct plan has besides: failures name unpaid investors, batches are atomic.
  ghost predicate DistinctProgress(done: seq<seq<Payout>>, rows0: seq<Payout>, rows: seq<Payout>,
                                   failed: seq<Payout>, pool: bool)
  {
    && Investors(failed) !! Investors(rows)
    && (pool ==> forall b :: b in done ==> BatchAtomic(b, Investors(rows0), Investors(rows)))
  }

  lemma CommittedBatch(done: seq<seq<Payout>>, batch: seq<Payout>, rows0: seq<Payout>, rows: seq<Payout>,
                       existing: set<string>, successful: seq<Payout>, failed: seq<Payout>, broken: bool,
                       added: seq<Payout>)
    requires Progress(done, rows0, rows, existing, successful, failed, broken, true)
    requires Investors(added) <= Investors(batch) <= existing + Investors(added)
    ensures Progress(done + [batch], rows0, rows + added, existing + Investors(added), successful + added,
                     failed, broken, true)
  {
    FlattenAppend(done, batch);
    InvestorsConcat(Flatten(done), batch);
    InvestorsConcat(rows, added);
  }

  lemma RolledBackBatch(done: seq<seq<Payout>>, batch: seq<Payout>, rows0: seq<Payout>, rows: seq<Payout>,
                        existing: set<string>, successful: seq<Payout>, failed: seq<Payout>, broken: bool,
                        added: seq<Payout>)
    requires Progress(done, rows0, rows, existing, successful, failed, broken, true)
    requires Investors(added) <= Investors(batch)
    ensures Progress(done + [batch], rows0, rows, existing + Investors(added), successful + added,
                     failed, true, true)
  {
    FlattenAppend(done, batch);
    InvestorsConcat(Flatten(done), batch);
  }

  lemma PlainBatchDone(done: seq<seq<Payout>>, batch: seq<Payout>, rows0: seq<Payout>, rows: seq<Payout>,
                       existing: set<string>, successful: seq<Payout>, failed: seq<Payout>,
                       added: seq<Payout>, failed': seq<Payout>)
    requires Progress(done, rows0, rows, existing, successful, failed, false, false)
    requires BatchOutcome(batch, existing, added, failed')
    ensures Progress(done + [batch], rows0, rows + added, existing + Investors(added), successful + added,
                     failed + failed', false, false)
  {
    FlattenAppend(done, batch);
    InvestorsConcat(Flatten(done), batch);
    InvestorsConcat(rows, added);
    InvestorsConcat(failed, failed');
  }

  lemma DistinctPlain(done: seq<seq<Payout>>, batch: seq<Payout>, rest: seq<Payout>, rows0: seq<Payout>,
                      rows: seq<Payout>, existing: set<string>, successful: seq<Payout>, failed: seq<Payout>,
                      added: seq<Payout>, failed': seq<Payout>)
    requires Distinct(Flatten(done) + batch + rest)
    requires Progress(done, rows0, rows, existing, successful, failed, false, false)
    requires DistinctProgress(done, rows0, rows, failed, false)
    requires BatchOutcome(batch, existing, added, failed')
    ensures DistinctProgress(done + [batch], rows0, rows + added, failed + failed', false)
  {
    DistinctSplit(Flatten(done), batch, rest);
    InvestorsConcat(rows, added);
    InvestorsConcat(failed, failed');
    assert Investors(failed) <= Investors(Flatten(done));
  }

  lemma DistinctTransactional(done: seq<seq<Payout>>, batch: seq<Payout>, rest: seq<Payout>, rows0: seq<Payout>,
                              rows: seq<Payout>, existing: set<string>, successful: seq<Payout>, broken: bool,
                              added: seq<Payout>)
    requires Distinct(Flatten(done) + batch + rest)
    requires Progress(done, rows0, rows, existing, successful, [], broken, true)
    requires DistinctProgress(done, rows0, rows, [], true)
    requires Investors(added) <= Investors(batch)
    ensures Investors(batch) <= existing + Investors(added) ==>
              DistinctProgress(done + [batch], rows0, rows + added, [], true)
    ensures DistinctProgress(done + [batch], rows0, rows, [], true)
  {
    DistinctSplit(Flatten(done), batch, rest);
    InvestorsConcat(rows, added);
    PrefixInvestors(rows0, rows);
    EarlierBatchesUndisturbed(done, batch, Investors(rows0), Investors(rows), Investors(added));
    assert Investors(batch) * Investors(rows) == Investors(batch) * Investors(rows0);
    assert BatchAtomic(batch, Investors(rows0), Investors(rows));
  }

  // ----- one batch -----

  /** The transaction's insertions up to entry n: whether none failed for good, and the new rows. */
  ghost function TxAt(cfg: Config, faults: Faults, b: nat, batch: seq<Payout>, existing: set<string>, n: nat)
    : (bool, seq<Payout>)
    requires n <= |batch|
  {
    if n == 0 then (true, [])
    else
      var (ok, added) := TxAt(cfg, faults, b, batch, existing, n - 1);
      var p := batch[n - 1];
      if !ok || p.investor in existing + Investors(added) then (ok, added)
      else if Served(faults, Insert(b, n - 1), cfg.maxRetries) then (true, added + [p])
      else (false, added)
  }

  /** Without a pool: the new rows and the failed entries up to entry n. */
  ghost function PlainAt(cfg: Config, faults: Faults, b: nat, batch: seq<Payout>, existing: set<string>, n: nat)
    : (seq<Payout>, seq<Payout>)
    requires n <= |batch|
  {
    if n == 0 then ([], [])
    else
      var (added, failed) := PlainAt(cfg, faults, b, batch, existing, n - 1);
      var p := batch[n - 1];
      if p.investor in existing + Investors(added) then (added, failed)
      else if Served(faults, Insert(b, n - 1), cfg.maxRetries) then (added + [p], failed)
      else (added, failed + [p])
  }

  // The row lists that single insertions make durable one after the other.
  function Growths(rows: seq<Payout>, added: seq<Payout>): seq<seq<Payout>> {
    if added == [] then [] else Growths(rows, added[..|added| - 1]) + [rows + added]
  }

  /**
   What the loop has come to: the stored rows, the investors it takes for paid, the lists
   it will report, and every row list that was durable on the way.
   */
  datatype Tally = Tally(rows: seq<Payout>, existing: set<string>, successful: seq<Payout>, failed: seq<Payout>,
                         broken: bool, writes: seq<seq<Payout>>)

  function Start(rows: seq<Payout>): Tally {
    Tally(rows, Investors(rows), rows, [], false, [])
  }

  ghost function TurnTx(cfg: Config, faults: Faults, b: nat, batch: seq<Payout>, t: Tally): Tally {
    if !Once(faults, Begin(b)) then t.(broken := true)
    else
      var (ok, added) := TxAt(cfg, faults, b, batch, t.existing, |batch|);
      var kept := ok && Once(faults, Commit(b));
      Tally(if kept then t.rows + added else t.rows, t.existing + Investors(added), t.successful + added, t.failed,
            t.broken || !kept || !Once(faults, CommitReply(b)),
            if kept then t.writes + [t.rows + added] else t.writes)
  }

  ghost function TurnPlain(cfg: Config, faults: Faults, b: nat, batch: seq<Payout>, t: Tally): Tally {
    var (added, failed) := PlainAt(cfg, faults, b, batch, t.existing, |batch|);
    Tally(t.rows + added, t.existing + Investors(added), t.successful + added, t.failed + failed, t.broken,
          t.writes + Growths(t.rows, added))
  }

  ghost function Turn(cfg: Config, faults: Faults, b: nat, batch: seq<Payout>, t: Tally): Tally {
    if cfg.pool then TurnTx(cfg, faults, b, batch, t) else TurnPlain(cfg, faults, b, batch, t)
  }

  /** The loop after its first n batches. */
  ghost function TallyAt(cfg: Config, faults: Faults, batches: seq<seq<Payout>>, rows0: seq<Payout>, n: nat): Tally
    requires n <= |batches|
  {
    if n == 0 then Start(rows0)
    else Turn(cfg, faults, n - 1, batches[n - 1], TallyAt(cfg, faults, batches, rows0, n - 1))
  }

  // ----- what a batch does -----

  // What the insertions of a transaction add: new investors, covering the batch if none failed.
  ghost predicate TxOutcome(batch: seq<Payout>, existing: set<string>, ok: bool, added: seq<Payout>) {
    && Investors(added) !! existing && Investors(added) <= Investors(batch) && Distinct(added)
    && (forall r :: r in added ==> r in batch)
    && (ok ==> added == Missing(batch, existing))
  }

  lemma {:induction false} TxAdds(cfg: Config, faults: Faults, b: nat, batch: seq<Payout>, existing: set<string>, n: nat)
    requires n <= |batch|
    ensures var (ok, added) := TxAt(cfg, faults, b, batch, existing, n);
            TxOutcome(batch[..n], existing, ok, added)
    decreases n
  {
    if n > 0 {
      var (ok, added) := TxAt(cfg, faults, b, batch, existing, n - 1);
      TxAdds(cfg, faults, b, batch, existing, n - 1);
      TxOneMore(batch[..n - 1], batch[n - 1], existing, ok, added);
      TakeOneMore(batch, n - 1);
    }
  }

  lemma TxOneMore(batch: seq<Payout>, p: Payout, existing: set<string>, ok: bool, added: seq<Payout>)
    requires TxOutcome(batch, existing, ok, added)
    ensures TxOutcome(batch + [p], existing, false, added)
    ensures p.investor in existing + Investors(added) ==> TxOutcome(batch + [p], existing, ok, added)
    ensures p.investor !in existing + Investors(added) ==> TxOutcome(batch + [p], existing, ok, added + [p])
  {
    InvestorsAppend(batch, p);
    InvestorsAppend(added, p);
    MissingSnoc(batch, p, existing);
    if p.investor !in Investors(added) { DistinctAppended(added, p); }
  }

  ghost predicate PlainOutcome(batch: seq<Payout>, existing: set<string>, added: seq<Payout>, failed: seq<Payout>) {
    && BatchOutcome(batch, existing, added, failed) && Distinct(added)
    && (forall r :: r in added ==> r in batch)
    && (failed == [] ==> added == Missing(batch, existing))
  }

  lemma {:induction false} PlainAdds(cfg: Config, faults: Faults, b: nat, batch: seq<Payout>, existing: set<string>, n: nat)
    requires n <= |batch|
    ensures var (added, failed) := PlainAt(cfg, faults, b, batch, existing, n);
            PlainOutcome(batch[..n], existing, added, failed)
    decreases n
  {
    hide PlainOutcome, Served, Missing, Investors;
    if n == 0 {
      assert batch[..0] == [];
      NothingTried(existing);
    } else {
      var (added, failed) := PlainAt(cfg, faults, b, batch, existing, n - 1);
      PlainAdds(cfg, faults, b, batch, existing, n - 1);
      PlainOneMore(batch[..n - 1], batch[n - 1], existing, added, failed);
      TakeOneMore(batch, n - 1);
    }
  }

  lemma NothingTried(existing: set<string>)
    ensures PlainOutcome([], existing, [], [])
  {
  }

  lemma PlainOneMore(batch: seq<Payout>, p: Payout, existing: set<string>, added: seq<Payout>, failed: seq<Payout>)
    requires PlainOutcome(batch, existing, added, failed)
    ensures p.investor in existing + Investors(added) ==> PlainOutcome(batch + [p], existing, added, failed)
    ensures p.investor !in existing + Investors(added) ==>
      PlainOutcome(batch + [p], existing, added + [p], failed) && PlainOutcome(batch + [p], existing, added, failed + [p])
  {
    MissingSnoc(batch, p, existing);
    if p.investor in existing + Investors(added) {
      BatchOutcomeSkipped(batch, p, existing, added, failed);
    } else {
      BatchOutcomeTried(batch, p, existing, added, failed);
      DistinctAppended(added, p);
    }
  }

  // ----- when a batch is clean -----

  // Entry i is the first of an investor without a row.
  predicate NewAt(batch: seq<Payout>, existing: set<string>, i: nat)
    requires i < |batch|
  {
    batch[i].investor !in existing + Investors(batch[..i])
  }

  // Every insertion that the first n entries of the batch call for is served.
  ghost predicate InsertsServed(cfg: Config, faults: Faults, b: nat, batch: seq<Payout>, existing: set<string>, n: nat)
    requires n <= |batch|
  {
    forall i: nat :: i < n && NewAt(batch, existing, i) ==> Served(faults, Insert(b, i), cfg.maxRetries)
  }

  // Where all entries so far are paid, being new is having no row yet.
  lemma NewIsUnpaid(batch: seq<Payout>, existing: set<string>, n: nat, added: seq<Payout>)
    requires n < |batch| && added == Missing(batch[..n], existing)
    ensures NewAt(batch, existing, n) <==> batch[n].investor !in existing + Investors(added)
  {
  }

  lemma TxStepIff(cfg: Config, faults: Faults, b: nat, batch: seq<Payout>, existing: set<string>, n: nat)
    requires n < |batch|
    ensures TxAt(cfg, faults, b, batch, existing, n + 1).0 <==>
      && TxAt(cfg, faults, b, batch, existing, n).0
      && (NewAt(batch, existing, n) ==> Served(faults, Insert(b, n), cfg.maxRetries))
  {
    TxAdds(cfg, faults, b, batch, existing, n);
    var (ok, added) := TxAt(cfg, faults, b, batch, existing, n);
    if ok { NewIsUnpaid(batch, existing, n, added); }
  }

  lemma {:induction false} TxCleanIff(cfg: Config, faults: Faults, b: nat, batch: seq<Payout>, existing: set<string>, n: nat)
    requires n <= |batch|
    ensures TxAt(cfg, faults, b, batch, existing, n).0 <==> InsertsServed(cfg, faults, b, batch, existing, n)
    decreases n
  {
    if n > 0 {
      hide InsertsServed, NewAt, TxAt, Served;
      TxCleanIff(cfg, faults, b, batch, existing, n - 1);
      TxStepIff(cfg, faults, b, batch, existing, n - 1);
      ServedSoFar(cfg, faults, b, batch, existing, n);
    }
  }

  lemma ServedSoFar(cfg: Config, faults: Faults, b: nat, batch: seq<Payout>, existing: set<string>, n: nat)
    requires 0 < n <= |batch|
    ensures InsertsServed(cfg, faults, b, batch, existing, n) <==>
      && InsertsServed(cfg, faults, b, batch, existing, n - 1)
      && (NewAt(batch, existing, n - 1) ==> Served(faults, Insert(b, n - 1), cfg.maxRetries))
  {
  }

  lemma PlainAddsMissing(cfg: Config, faults: Faults, b: nat, batch: seq<Payout>, existing: set<string>, n: nat)
    requires n <= |batch|
    ensures var (added, failed) := PlainAt(cfg, faults, b, batch, existing, n);
            failed == [] ==> added == Missing(batch[..n], existing)
  {
    PlainAdds(cfg, faults, b, batch, existing, n);
  }

  // No entry has failed so far.
  ghost predicate PlainClean(cfg: Config, faults: Faults, b: nat, batch: seq<Payout>, existing: set<string>, n: nat)
    requires n <= |batch|
  {
    PlainAt(cfg, faults, b, batch, existing, n).1 == []
  }

  lemma PlainStepIff(cfg: Config, faults: Faults, b: nat, batch: seq<Payout>, existing: set<string>, n: nat)
    requires n < |batch|
    ensures PlainClean(cfg, faults, b, batch, existing, n + 1) <==>
      && PlainClean(cfg, faults, b, batch, existing, n)
      && (NewAt(batch, existing, n) ==> Served(faults, Insert(b, n), cfg.maxRetries))
  {
    PlainAddsMissing(cfg, faults, b, batch, existing, n);
    var (added, failed) := PlainAt(cfg, faults, b, batch, existing, n);
    if failed == [] { NewIsUnpaid(batch, existing, n, added); }
  }

  lemma {:induction false} PlainCleanIff(cfg: Config, faults: Faults, b: nat, batch: seq<Payout>, existing: set<string>, n: nat)
    requires n <= |batch|
    ensures PlainClean(cfg, faults, b, batch, existing, n) <==> InsertsServed(cfg, faults, b, batch, existing, n)
    decreases n
  {
    if n > 0 {
      hide *;
      PlainCleanIff(cfg, faults, b, batch, existing, n - 1);
      PlainStepIff(cfg, faults, b, batch, existing, n - 1);
      ServedSoFar(cfg, faults, b, batch, existing, n);
    }
  }

  // ----- what the loop does -----

  // The row lists that became durable: each legal, each extending the one before.
  ghost predicate WritesOk(rows0: seq<Payout>, writes: seq<seq<Payout>>, rows: seq<Payout>, plan: seq<Payout>) {
    && (forall k {:trigger WriteOk(rows0, writes, plan, k)} :: 0 <= k < |writes| ==> WriteOk(rows0, writes, plan, k))
    && rows == RowsBefore(rows0, writes, |writes|)
  }

  ghost predicate WriteOk(rows0: seq<Payout>, writes: seq<seq<Payout>>, plan: seq<Payout>, k: nat)
    requires k < |writes|
  {
    RowsOk(writes[k], plan) && RowsBefore(rows0, writes, k) <= writes[k]
  }

  function RowsBefore(rows0: seq<Payout>, writes: seq<seq<Payout>>, k: nat): seq<Payout>
    requires k <= |writes|
  {
    if k == 0 then rows0 else writes[k - 1]
  }

  lemma WriteOkStays(rows0: seq<Payout>, writes: seq<seq<Payout>>, plan: seq<Payout>, next: seq<Payout>, k: nat)
    requires k < |writes| && WriteOk(rows0, writes, plan, k)
    ensures WriteOk(rows0, writes + [next], plan, k)
  {
    hide RowsOk;
    assert (writes + [next])[k] == writes[k];
    assert k > 0 ==> (writes + [next])[k - 1] == writes[k - 1];
  }

  lemma WritesOkAppend(rows0: seq<Payout>, writes: seq<seq<Payout>>, rows: seq<Payout>, plan: seq<Payout>, next: seq<Payout>)
    requires WritesOk(rows0, writes, rows, plan) && rows <= next && RowsOk(next, plan)
    ensures WritesOk(rows0, writes + [next], next, plan)
  {
    hide RowsOk;
    forall k | 0 <= k < |writes| + 1 ensures WriteOk(rows0, writes + [next], plan, k) {
      if k < |writes| {
        assert WriteOk(rows0, writes, plan, k);
        WriteOkStays(rows0, writes, plan, next, k);
      }
    }
  }

  lemma RowsOkMore(rows: seq<Payout>, added: seq<Payout>, existing: set<string>, plan: seq<Payout>)
    requires RowsOk(rows, plan) && Investors(rows) <= existing && Investors(added) !! existing
    requires Distinct(added) && forall r :: r in added ==> r in plan
    ensures RowsOk(rows + added, plan)
  {
    var all := rows + added;
    forall i, j | 0 <= i < j < |all| ensures all[i].investor != all[j].investor {
      if j < |rows| {
        assert all[i] == rows[i] && all[j] == rows[j];
      } else if i < |rows| {
        assert all[i] == rows[i] && all[j] == added[j - |rows|];
        assert rows[i] in rows && added[j - |rows|] in added;
        assert rows[i].investor in Investors(rows) && added[j - |rows|].investor in Investors(added);
      } else {
        assert all[i] == added[i - |rows|] && all[j] == added[j - |rows|];
      }
    }
  }

  lemma {:induction false} WritesOkGrowths(rows0: seq<Payout>, writes: seq<seq<Payout>>, rows: seq<Payout>, plan: seq<Payout>,
                                           added: seq<Payout>, existing: set<string>)
    requires WritesOk(rows0, writes, rows, plan) && RowsOk(rows, plan) && Investors(rows) <= existing
    requires Investors(added) !! existing && Distinct(added) && forall r :: r in added ==> r in plan
    ensures WritesOk(rows0, writes + Growths(rows, added), rows + added, plan)
    decreases |added|
  {
    if added == [] {
      assert writes + [] == writes && rows + [] == rows;
    } else {
      var init, p := added[..|added| - 1], added[|added| - 1];
      assert added == init + [p];
      DistinctInit(init, p);
      InvestorsAppend(init, p);
      WritesOkGrowths(rows0, writes, rows, plan, init, existing);
      RowsOkMore(rows, added, existing, plan);
      Associative(rows, init, [p]);
      Associative(writes, Growths(rows, init), [rows + added]);
      WritesOkAppend(rows0, writes + Growths(rows, init), rows + init, plan, rows + added);
    }
  }

  // Nothing has failed so far.
  predicate Clean(t: Tally) {
    t.failed == [] && !t.broken
  }

  /** All that holds after the batches of `done`, begun with the rows `rows0`. */
  ghost predicate TallyOk(cfg: Config, done: seq<seq<Payout>>, rows0: seq<Payout>, plan: seq<Payout>, t: Tally) {
    && Progress(done, rows0, t.rows, t.existing, t.successful, t.failed, t.broken, cfg.pool)
    && (Distinct(plan) ==> DistinctProgress(done, rows0, t.rows, t.failed, cfg.pool))
    && RowsOk(t.rows, plan) && WritesOk(rows0, t.writes, t.rows, plan)
    && (Clean(t) ==> t.rows == rows0 + Missing(Flatten(done), Investors(rows0)))
  }

  lemma StartOk(cfg: Config, rows0: seq<Payout>, plan: seq<Payout>)
    requires RowsOk(rows0, plan)
    ensures TallyOk(cfg, [], rows0, plan, Start(rows0))
  {
    assert rows0 + [] == rows0;
  }

  // The clean case of a turn, with or without a pool.
  lemma MoreMissing(done: seq<seq<Payout>>, batch: seq<Payout>, rows0: seq<Payout>, rows: seq<Payout>, existing: set<string>,
                    added: seq<Payout>)
    requires rows == rows0 + Missing(Flatten(done), Investors(rows0)) && existing == Investors(rows)
    requires added == Missing(batch, existing)
    ensures rows + added == rows0 + Missing(Flatten(done + [batch]), Investors(rows0))
  {
    FlattenAppend(done, batch);
    InvestorsConcat(rows0, Missing(Flatten(done), Investors(rows0)));
    assert existing == Investors(rows0) + Investors(Flatten(done));
    MissingConcat(Flatten(done), batch, Investors(rows0));
    Associative(rows0, Missing(Flatten(done), Investors(rows0)), added);
  }

  lemma TxTurnOk(cfg: Config, faults: Faults, b: nat, batch: seq<Payout>, rest: seq<Payout>, done: seq<seq<Payout>>,
                 rows0: seq<Payout>, plan: seq<Payout>, t: Tally)
    requires cfg.pool && TallyOk(cfg, done, rows0, plan, t) && plan == Flatten(done) + batch + rest
    ensures TallyOk(cfg, done + [batch], rows0, plan, TurnTx(cfg, faults, b, batch, t))
  {
    var (ok, added) := if Once(faults, Begin(b)) then TxAt(cfg, faults, b, batch, t.existing, |batch|) else (false, []);
    TxAdds(cfg, faults, b, batch, t.existing, |batch|);
    assert batch[..|batch|] == batch;
    assert Investors([]) == {} && t.successful + [] == t.successful && t.existing + {} == t.existing;
    RolledBackBatch(done, batch, rows0, t.rows, t.existing, t.successful, t.failed, t.broken, added);
    if Distinct(plan) {
      DistinctTransactional(done, batch, rest, rows0, t.rows, t.existing, t.successful, t.broken, added);
    }
    if ok {
      CommittedBatch(done, batch, rows0, t.rows, t.existing, t.successful, t.failed, t.broken, added);
      RowsOkMore(t.rows, added, t.existing, plan);
      WritesOkAppend(rows0, t.writes, t.rows, plan, t.rows + added);
      if Clean(t) { MoreMissing(done, batch, rows0, t.rows, t.existing, added); }
    }
  }

  lemma PlainTurnOk(cfg: Config, faults: Faults, b: nat, batch: seq<Payout>, rest: seq<Payout>, done: seq<seq<Payout>>,
                    rows0: seq<Payout>, plan: seq<Payout>, t: Tally)
    requires !cfg.pool && TallyOk(cfg, done, rows0, plan, t) && plan == Flatten(done) + batch + rest
    ensures TallyOk(cfg, done + [batch], rows0, plan, TurnPlain(cfg, faults, b, batch, t))
  {
    var (added, failed) := PlainAt(cfg, faults, b, batch, t.existing, |batch|);
    PlainAdds(cfg, faults, b, batch, t.existing, |batch|);
    assert batch[..|batch|] == batch;
    PlainBatchDone(done, batch, rows0, t.rows, t.existing, t.successful, t.failed, added, failed);
    if Distinct(plan) {
      DistinctPlain(done, batch, rest, rows0, t.rows, t.existing, t.successful, t.failed, added, failed);
    }
    RowsOkMore(t.rows, added, t.existing, plan);
    WritesOkGrowths(rows0, t.writes, t.rows, plan, added, t.existing);
    if t.failed == [] && failed == [] { MoreMissing(done, batch, rows0, t.rows, t.existing, added); }
  }

  lemma {:induction false} FlattenConcat(a: seq<seq<Payout>>, b: seq<seq<Payout>>)
    ensures Flatten(a + b) == Flatten(a) + Flatten(b)
    decreases |b|
  {
    if b == [] {
      assert a + b == a;
    } else {
      var init, last := b[..|b| - 1], b[|b| - 1];
      Associative(a, init, [last]);
      assert b == init + [last];
      FlattenConcat(a, init);
      FlattenAppend(a + init, last);
      Associative(Flatten(a), Flatten(init), last);
    }
  }

  lemma BatchInPlan(batches: seq<seq<Payout>>, n: nat)
    requires n < |batches|
    ensures batches[..n + 1] == batches[..n] + [batches[n]]
    ensures Flatten(batches) == Flatten(batches[..n]) + batches[n] + Flatten(batches[n + 1..])
  {
    hide Flatten;
    assert batches == batches[..n + 1] + batches[n + 1..];
    FlattenConcat(batches[..n + 1], batches[n + 1..]);
    TakeOneMore(batches, n);
    FlattenAppend(batches[..n], batches[n]);
  }

  /** After any number of batches, under any faults, the account of the loop is right. */
  lemma {:induction false} LoopOk(cfg: Config, faults: Faults, batches: seq<seq<Payout>>, rows0: seq<Payout>, n: nat)
    requires n <= |batches| && RowsOk(rows0, Flatten(batches))
    ensures TallyOk(cfg, batches[..n], rows0, Flatten(batches), TallyAt(cfg, faults, batches, rows0, n))
    decreases n
  {
    var plan := Flatten(batches);
    if n == 0 {
      StartOk(cfg, rows0, plan);
    } else {
      LoopOk(cfg, faults, batches, rows0, n - 1);
      BatchInPlan(batches, n - 1);
      var t := TallyAt(cfg, faults, batches, rows0, n - 1);
      if cfg.pool {
        TxTurnOk(cfg, faults, n - 1, batches[n - 1], Flatten(batches[n..]), batches[..n - 1], rows0, plan, t);
      } else {
        PlainTurnOk(cfg, faults, n - 1, batches[n - 1], Flatten(batches[n..]), batches[..n - 1], rows0, plan, t);
      }
    }
  }

  // ----- when the loop is clean -----

  // The investors who have a row when batch b is reached, if nothing failed before.
  function PaidBefore(batches: seq<seq<Payout>>, rows0: seq<Payout>, b: nat): set<string>
    requires b <= |batches|
  {
    Investors(rows0) + Investors(Flatten(batches[..b]))
  }

  /** Every store call that batch b makes is answered: once for the transaction, in time for the insertions. */
  ghost predicate BatchServed(cfg: Config, faults: Faults, batches: seq<seq<Payout>>, rows0: seq<Payout>, b: nat)
    requires b < |batches|
  {
    && (cfg.pool ==> Once(faults, Begin(b)) && Once(faults, Commit(b)) && Once(faults, CommitReply(b)))
    && InsertsServed(cfg, faults, b, batches[b], PaidBefore(batches, rows0, b), |batches[b]|)
  }

  ghost predicate AllServed(cfg: Config, faults: Faults, batches: seq<seq<Payout>>, rows0: seq<Payout>, n: nat)
    requires n <= |batches|
  {
    forall b: nat :: b < n ==> BatchServed(cfg, faults, batches, rows0, b)
  }

  lemma CleanExisting(cfg: Config, faults: Faults, batches: seq<seq<Payout>>, rows0: seq<Payout>, n: nat)
    requires n <= |batches| && RowsOk(rows0, Flatten(batches))
    ensures var t := TallyAt(cfg, faults, batches, rows0, n);
            Clean(t) ==> t.existing == PaidBefore(batches, rows0, n)
  {
    LoopOk(cfg, faults, batches, rows0, n);
    InvestorsConcat(rows0, Missing(Flatten(batches[..n]), Investors(rows0)));
  }

  /** The loop ends without a failure exactly if every call its batches make is answered. */
  lemma {:induction false} LoopCleanIff(cfg: Config, faults: Faults, batches: seq<seq<Payout>>, rows0: seq<Payout>, n: nat)
    requires n <= |batches| && RowsOk(rows0, Flatten(batches))
    ensures Clean(TallyAt(cfg, faults, batches, rows0, n)) <==>
      AllServed(cfg, faults, batches, rows0, n)
    decreases n
  {
    if n == 0 {
      hide *;
      NothingToServe(cfg, faults, batches, rows0);
    } else {
      hide *;
      LoopCleanIff(cfg, faults, batches, rows0, n - 1);
      CleanStep(cfg, faults, batches, rows0, n - 1);
      AllServedSoFar(cfg, faults, batches, rows0, n);
    }
  }

  lemma NothingToServe(cfg: Config, faults: Faults, batches: seq<seq<Payout>>, rows0: seq<Payout>)
    ensures Clean(TallyAt(cfg, faults, batches, rows0, 0)) && AllServed(cfg, faults, batches, rows0, 0)
  {
  }

  lemma AllServedSoFar(cfg: Config, faults: Faults, batches: seq<seq<Payout>>, rows0: seq<Payout>, n: nat)
    requires 0 < n <= |batches|
    ensures AllServed(cfg, faults, batches, rows0, n) <==>
      AllServed(cfg, faults, batches, rows0, n - 1) && BatchServed(cfg, faults, batches, rows0, n - 1)
  {
    hide BatchServed;
  }

  lemma CleanStep(cfg: Config, faults: Faults, batches: seq<seq<Payout>>, rows0: seq<Payout>, b: nat)
    requires b < |batches| && RowsOk(rows0, Flatten(batches))
    ensures Clean(TallyAt(cfg, faults, batches, rows0, b + 1)) <==>
      Clean(TallyAt(cfg, faults, batches, rows0, b)) && BatchServed(cfg, faults, batches, rows0, b)
  {
    hide Turn, TxAt, PlainAt, InsertsServed;
    CleanExisting(cfg, faults, batches, rows0, b);
    var t, batch := TallyAt(cfg, faults, batches, rows0, b), batches[b];
    TxCleanIff(cfg, faults, b, batch, t.existing, |batch|);
    PlainCleanIff(cfg, faults, b, batch, t.existing, |batch|);
    TurnCleanIff(cfg, faults, b, batch, t);
  }

  lemma TurnCleanIff(cfg: Config, faults: Faults, b: nat, batch: seq<Payout>, t: Tally)
    ensures Clean(Turn(cfg, faults, b, batch, t)) <==>
      && Clean(t)
      && (if cfg.pool then
            Once(faults, Begin(b)) && Once(faults, Commit(b)) && Once(faults, CommitReply(b))
            && TxAt(cfg, faults, b, batch, t.existing, |batch|).0
          else PlainClean(cfg, faults, b, batch, t.existing, |batch|))
  {
  }
}
