/**
 The session table and the refresh service as they work step by step
 (src/db/repositories/sessionRepository.ts, src/auth/refresh/refreshService.ts). A call
 runs alone here; RefreshContention interleaves several.
 */
module RefreshService {
  import opened Wrappers
  import opened SessionForest

  class SessionRepository {
    var rows: map<Id, Session>
    var clock: nat
    var used: set<Id>
    ghost var failures: nat

    ghost function View(): Db
      reads this
    {
      Db(rows, clock, used)
    }

    ghost predicate Valid()
      reads this
    {
      Inv(View())
    }

    constructor ()
      ensures Valid() && View() == EMPTY_DB
    {
      rows, clock, used, failures := map[], 0, {}, 0;
    }

    // A statement either runs or raises and has no effect.
    method Statement() returns (ok: bool)
      modifies this`failures
      ensures if ok then failures == old(failures) else failures > old(failures)
    {
      ok := *;
      if !ok {
        failures := failures + 1;
      }
    }

    method CreateSession(id: Id, user: string, hash: Token, parent: Option<Id>) returns (ok: bool)
      modifies this
      ensures View() == if ok then Insert(old(View()), id, user, hash, parent) else old(View())
      ensures ok ==> id in rows && rows[id] == Session(user, hash, parent, old(clock), None, None)
      ensures if ok then failures == old(failures) else failures > old(failures)
    {
      ok := Statement();
      if ok {
        rows := rows[id := Session(user, hash, parent, clock, None, None)];
        clock, used := clock + 1, used + {id};
      }
    }

    method SetSessionConsumed(id: Id, now: nat) returns (ok: bool)
      modifies this
      ensures View() == if ok then Consume(old(View()), id, now) else old(View())
      ensures if ok then failures == old(failures) else failures > old(failures)
    {
      ok := Statement();
      if ok && id in rows {
        rows := rows[id := rows[id].(consumedAt := Some(now))];
      }
    }

    method FindById(id: Id) returns (r: Result<Option<Session>, ()>)
      modifies this`failures
      ensures if r.Success? then failures == old(failures) else failures > old(failures)
      ensures r.Success? ==> r.value == if id in rows then Some(rows[id]) else None
    {
      var ok := Statement();
      if !ok {
        return Failure(());
      }
      return Success(if id in rows then Some(rows[id]) else None);
    }

    method FindByParentId(id: Id) returns (r: Result<bool, ()>)
      modifies this`failures
      ensures if r.Success? then failures == old(failures) else failures > old(failures)
      ensures r.Success? ==> (r.value <==> exists c :: ChildOf(rows, c, id))
    {
      var ok := Statement();
      if !ok {
        return Failure(());
      }
      return Success(exists c :: c in rows && ChildOf(rows, c, id));
    }

    /**
     The recursive query: start from the session, add the children of what was added
     last, until nothing is added. UNION ALL removes no duplicates, so it is only the
     order of insertion that makes it stop; it yields exactly the descendants.
     */
    method DescendantQuery(id: Id) returns (found: set<Id>)
      requires Valid()
      ensures found == Descendants(rows, id)
    {
      var latest := if id in rows then {id} else {};
      found := latest;
      ghost var depth := 0;
      while latest != {}
        invariant latest <= found <= Descendants(rows, id)
        invariant id in rows ==> id in found
        invariant forall x, p :: ChildOf(rows, x, p) && p in found && p !in latest ==> x in found
        invariant forall x :: x in latest ==> rows[x].created >= depth
        invariant latest != {} ==> depth < clock
        decreases clock - depth
      {
        ghost var before := latest;
        latest := set x | x in rows && rows[x].parent.Some? && rows[x].parent.value in latest;
        forall x | x in latest
          ensures Descends(rows, id, x) && rows[x].created >= depth + 1
        {
          assert ChildOf(rows, x, rows[x].parent.value);
        }
        assert forall x, p :: ChildOf(rows, x, p) && p in before ==> x in latest;
        found := found + latest;
        depth := depth + 1;
      }
      forall x | x in Descendants(rows, id) ensures x in found {
        ClosedSetHoldsDescendants(rows, id, found, x);
      }
    }

    method RevokeSessionAndDescendants(id: Id, now: nat) returns (ok: bool)
      requires Valid()
      modifies this
      ensures View() == if ok then RevokeFamily(old(View()), id, now) else old(View())
      ensures if ok then failures == old(failures) else failures > old(failures)
    {
      ok := Statement();
      if ok {
        var ids := DescendantQuery(id);
        rows := RevokeIds(rows, ids, now);
      }
    }
  }

  lemma {:induction false} ClosedSetHoldsDescendants(rows: map<Id, Session>, id: Id, found: set<Id>, x: Id)
    requires ParentsFirst(rows) && Descends(rows, id, x) && id in found
    requires forall y, p :: ChildOf(rows, y, p) && p in found ==> y in found
    ensures x in found
    decreases if x in rows then rows[x].created else 0
  {
    if x != id {
      assert ChildOf(rows, x, rows[x].parent.value);
      ClosedSetHoldsDescendants(rows, id, found, rows[x].parent.value);
    }
  }

  class RefreshService {
    const repo: SessionRepository

    constructor (repo: SessionRepository)
      ensures this.repo == repo
    {
      this.repo := repo;
    }

    /** The callback of the transaction; None for a refused token, Failure when a statement raised. */
    method Body(token: Token, newId: Id, serial: nat, now: nat) returns (r: Result<Option<Id>, ()>)
      requires repo.Valid()
      modifies repo
      ensures r.Failure? ==> repo.failures > old(repo.failures)
      ensures r.Success? ==>
        && repo.failures == old(repo.failures)
        && repo.View() == SessionForest.Refresh(old(repo.View()), token, newId, serial, now).0
        && Verdict(r.value, old(repo.View()), token, newId, serial, now)
    {
      var found := repo.FindById(token.session);
      if found.Failure? {
        return Failure(());
      }
      if found.value.None? {
        return Success(None);
      }
      var session := found.value.value;
      var refuse := session.hash != token || session.consumedAt.Some? || session.revokedAt.Some?;
      if !refuse {
        var child := repo.FindByParentId(token.session);
        if child.Failure? {
          return Failure(());
        }
        refuse := child.value;
      }
      if refuse {
        var ok := repo.RevokeSessionAndDescendants(token.session, now);
        return if ok then Success(None) else Failure(());
      }
      var ok := repo.SetSessionConsumed(token.session, now);
      if ok {
        ok := repo.CreateSession(newId, token.user, Token(newId, token.user, serial), Some(token.session));
      }
      return if ok then Success(Some(newId)) else Failure(());
    }

    // The answer matches the outcome of the transaction.
    ghost predicate Verdict(answer: Option<Id>, db: Db, token: Token, newId: Id, serial: nat, now: nat)
      requires ParentsFirst(db.rows)
    {
      match SessionForest.Refresh(db, token, newId, serial, now).1
      case Rotated(child) => answer == Some(child)
      case _ => answer == None
    }

    /**
     refresh: a token that does not verify changes nothing; otherwise the call is the
     refresh function on the table, or an error that leaves the table as it was.
     */
    method Refresh(token: Token, verifies: bool, newId: Id, serial: nat, now: nat) returns (r: Result<Option<Id>, ()>)
      requires repo.Valid() && newId !in repo.used
      modifies repo
      ensures repo.Valid()
      ensures !verifies ==> r == Success(None) && repo.View() == old(repo.View())
      ensures r.Failure? ==> repo.View() == old(repo.View()) && repo.failures > old(repo.failures)
      ensures verifies && r.Success? ==>
        && repo.View() == SessionForest.Refresh(old(repo.View()), token, newId, serial, now).0
        && Verdict(r.value, old(repo.View()), token, newId, serial, now)
    {
      if !verifies {
        return Success(None);
      }
      var rows, clock, used := repo.rows, repo.clock, repo.used;
      var ok := repo.Statement();  // connect and BEGIN
      if !ok {
        return Failure(());
      }
      r := Body(token, newId, serial, now);
      if r.Success? {
        ok := repo.Statement();  // COMMIT
      }
      if r.Failure? || !ok {
        repo.rows, repo.clock, repo.used := rows, clock, used;  // ROLLBACK
        return Failure(());
      }
      ApplyKeepsInv(old(repo.View()), DoRefresh(token, newId, serial, now));
    }
  }
}
