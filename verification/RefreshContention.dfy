/**
 Any number of concurrent refreshes of one session, statement by statement, under the
 row lock of SELECT ... FOR UPDATE (src/auth/refresh/refreshService.ts,
 src/db/repositories/sessionRepository.ts). Statements read what is committed; writes
 are applied at COMMIT. Logins, and refreshes in other families, commit in between.
 */
module RefreshContention {
  import opened Wrappers
  import opened SessionForest

  datatype Write =
    | MarkConsumed(id: Id, now: nat)
    | InsertChild(id: Id, token: Token, parent: Id)
    | RevokeRows(ids: set<Id>, now: nat)

  datatype Phase =
    | Waiting                      // before the lock
    | Deciding                     // holds the lock, row just read
    | Probing | Marking | Inserting
    | Revoking(why: Outcome)
    | Committing(result: Outcome)
    | Done(result: Outcome)
    | RolledBack

  datatype Caller = Caller(token: Token, newId: Id, serial: nat, now: nat, phase: Phase, writes: seq<Write>)

  datatype World = World(db: Db, lock: Option<nat>, callers: seq<Caller>)

  function ApplyWrite(db: Db, w: Write): Db {
    match w
    case MarkConsumed(id, now) => Consume(db, id, now)
    case InsertChild(id, token, parent) => Insert(db, id, token.user, token, Some(parent))
    case RevokeRows(ids, now) => db.(rows := RevokeIds(db.rows, ids, now))
  }

  function ApplyWrites(db: Db, ws: seq<Write>): Db {
    if ws == [] then db else ApplyWrite(ApplyWrites(db, ws[..|ws| - 1]), ws[|ws| - 1])
  }

  // ----- steps -----

  // The caller after its next statement; commit, abort and lock acquisition are separate.
  ghost function Statement(db: Db, c: Caller): Caller
    requires ParentsFirst(db.rows)
    requires c.phase.Deciding? || c.phase.Probing? || c.phase.Marking? || c.phase.Inserting? || c.phase.Revoking?
  {
    var s := c.token.session;
    match c.phase
    case Deciding =>
      if s !in db.rows then c.(phase := Committing(NotFound))
      else if db.rows[s].hash != c.token then c.(phase := Revoking(HashMismatch))
      else if db.rows[s].consumedAt.Some? then c.(phase := Revoking(Consumed))
      else if db.rows[s].revokedAt.Some? then c.(phase := Revoking(Revoked))
      else c.(phase := Probing)
    case Probing =>
      if exists x :: ChildOf(db.rows, x, s) then c.(phase := Revoking(HasChild)) else c.(phase := Marking)
    case Marking =>
      c.(phase := Inserting, writes := c.writes + [MarkConsumed(s, c.now)])
    case Inserting =>
      var child := Token(c.newId, c.token.user, c.serial);
      c.(phase := Committing(Rotated(c.newId)), writes := c.writes + [InsertChild(c.newId, child, s)])
    case Revoking(why) =>
      c.(phase := Committing(why), writes := c.writes + [RevokeRows(Descendants(db.rows, s), c.now)])
  }

  predicate Running(p: Phase) {
    p.Deciding? || p.Probing? || p.Marking? || p.Inserting? || p.Revoking?
  }

  function Release(lock: Option<nat>, i: nat): Option<nat> {
    if lock == Some(i) then None else lock
  }

  ghost predicate Acquires(w: World, i: nat, w': World)
    requires i < |w.callers|
  {
    var c := w.callers[i];
    c.phase == Waiting &&
    if c.token.session !in w.db.rows then
      w' == w.(callers := w.callers[i := c.(phase := Committing(NotFound))])
    else
      w.lock == None && w' == w.(lock := Some(i), callers := w.callers[i := c.(phase := Deciding)])
  }

  ghost predicate Executes(w: World, i: nat, w': World)
    requires i < |w.callers| && ParentsFirst(w.db.rows)
  {
    var c := w.callers[i];
    Running(c.phase) && w' == w.(callers := w.callers[i := Statement(w.db, c)])
  }

  ghost predicate Commits(w: World, i: nat, w': World)
    requires i < |w.callers|
  {
    var c := w.callers[i];
    c.phase.Committing? &&
    w' == World(ApplyWrites(w.db, c.writes), Release(w.lock, i), w.callers[i := c.(phase := Done(c.phase.result))])
  }

  ghost predicate Aborts(w: World, i: nat, w': World)
    requires i < |w.callers|
  {
    var c := w.callers[i];
    !c.phase.Done? && c.phase != RolledBack &&
    w' == World(w.db, Release(w.lock, i), w.callers[i := c.(phase := RolledBack, writes := [])])
  }

  // Other traffic: it leaves the contended session and its line of descent alone.
  ghost predicate Elsewhere(w: World, s: Id, a: Action)
    requires ParentsFirst(w.db.rows)
  {
    && Enabled(w.db, a)
    && (match a
        case DoLogin(id, _) => id != s && forall c :: c in w.callers ==> c.newId != id
        case DoRefresh(token, newId, _, _) =>
          && newId != s && (forall c :: c in w.callers ==> c.newId != newId)
          && !Descends(w.db.rows, s, token.session) && !Descends(w.db.rows, token.session, s)
        case DoLogout(_) => false)
  }

  ghost predicate Next(w: World, s: Id, w': World)
    requires ParentsFirst(w.db.rows)
  {
    || (exists i: nat :: i < |w.callers| && Acquires(w, i, w'))
    || (exists i: nat :: i < |w.callers| && Executes(w, i, w'))
    || (exists i: nat :: i < |w.callers| && Commits(w, i, w'))
    || (exists i: nat :: i < |w.callers| && Aborts(w, i, w'))
    || (exists a :: Elsewhere(w, s, a) && w' == w.(db := Apply(w.db, a)))
  }

  // ----- the invariant -----

  ghost function Verdict(db: Db, c: Caller): Outcome
    requires ParentsFirst(db.rows)
  {
    Refresh(db, c.token, c.newId, c.serial, c.now).1
  }

  // What a caller in each phase knows about the committed table.
  ghost predicate CallerOk(db: Db, lock: Option<nat>, i: nat, c: Caller)
    requires ParentsFirst(db.rows)
  {
    var s := c.token.session;
    match c.phase
    case Waiting => c.writes == []
    case Deciding => lock == Some(i) && s in db.rows && c.writes == []
    case Probing =>
      && lock == Some(i) && s in db.rows && c.writes == []
      && db.rows[s].hash == c.token && db.rows[s].consumedAt.None? && db.rows[s].revokedAt.None?
    case Marking => lock == Some(i) && Verdict(db, c) == Rotated(c.newId) && c.writes == []
    case Inserting =>
      lock == Some(i) && Verdict(db, c) == Rotated(c.newId) && c.writes == [MarkConsumed(s, c.now)]
    case Revoking(why) =>
      lock == Some(i) && s in db.rows && Verdict(db, c) == why && !why.Rotated? && c.writes == []
    case Committing(result) =>
      && Verdict(db, c) == result
      && (match result
          case NotFound => s !in db.rows && c.writes == []
          case Rotated(child) =>
            && lock == Some(i) && child == c.newId && s in db.rows
            && c.writes == [MarkConsumed(s, c.now), InsertChild(c.newId, Token(c.newId, c.token.user, c.serial), s)]
          case _ =>
            lock == Some(i) && s in db.rows && c.writes == [RevokeRows(Descendants(db.rows, s), c.now)])
    case Done(result) => result.Rotated? ==> s in db.rows && db.rows[s].consumedAt.Some?
    case RolledBack => true
  }

  predicate Won(c: Caller) {
    c.phase.Done? && c.phase.result.Rotated?
  }

  predicate Refused(c: Caller) {
    c.phase.Done? && !c.phase.result.Rotated? && !c.phase.result.NotFound?
  }

  ghost predicate WorldOk(w: World, s: Id) {
    && Inv(w.db)
    && (forall i: nat {:trigger w.callers[i]} :: i < |w.callers| ==>
          && w.callers[i].token.session == s && CallerOk(w.db, w.lock, i, w.callers[i])
          && w.callers[i].newId != s
          && (!w.callers[i].phase.Done? ==> w.callers[i].newId !in w.db.used)
          && (Refused(w.callers[i]) ==> Dead(w.db, s)))
    && (forall i: nat, j: nat :: i < |w.callers| && j < |w.callers| && i != j ==>
          w.callers[i].newId != w.callers[j].newId && !(Won(w.callers[i]) && Won(w.callers[j])))
  }

  // ----- one step -----

  /** COMMIT is the refresh transaction: the buffered writes are the refresh of the committed table. */
  lemma CommitIsAtomicRefresh(w: World, s: Id, i: nat, w': World)
    requires WorldOk(w, s) && i < |w.callers| && Commits(w, i, w')
    ensures var c := w.callers[i];
            && (w'.db, c.phase.result) == Refresh(w.db, c.token, c.newId, c.serial, c.now)
            && w'.db == Apply(w.db, DoRefresh(c.token, c.newId, c.serial, c.now))
            && Enabled(w.db, DoRefresh(c.token, c.newId, c.serial, c.now))
  {
    var c := w.callers[i];
    if c.writes != [] {
      var n := |c.writes| - 1;
      assert ApplyWrites(w.db, c.writes) == ApplyWrite(ApplyWrites(w.db, c.writes[..n]), c.writes[n]);
      if n == 1 {
        assert c.writes[..1] == [MarkConsumed(s, c.now)];
        assert ApplyWrites(w.db, c.writes[..1]) == Consume(w.db, s, c.now);
      }
    }
  }

  lemma AcquireKeepsOk(w: World, s: Id, i: nat, w': World)
    requires WorldOk(w, s) && i < |w.callers| && Acquires(w, i, w')
    ensures WorldOk(w', s)
  {
    forall j: nat | j < |w'.callers| ensures CallerOk(w'.db, w'.lock, j, w'.callers[j]) {
      assert CallerOk(w.db, w.lock, j, w.callers[j]);
    }
  }

  lemma ExecuteKeepsOk(w: World, s: Id, i: nat, w': World)
    requires WorldOk(w, s) && i < |w.callers| && Executes(w, i, w')
    ensures WorldOk(w', s)
  {
    assert CallerOk(w.db, w.lock, i, w.callers[i]);
    assert CallerOk(w'.db, w'.lock, i, w'.callers[i]);
    forall j: nat | j < |w'.callers| ensures CallerOk(w'.db, w'.lock, j, w'.callers[j]) {
      assert CallerOk(w.db, w.lock, j, w.callers[j]);
    }
  }

  lemma AbortKeepsOk(w: World, s: Id, i: nat, w': World)
    requires WorldOk(w, s) && i < |w.callers| && Aborts(w, i, w')
    ensures WorldOk(w', s) && w'.db == w.db
  {
    forall j: nat | j < |w'.callers| ensures CallerOk(w'.db, w'.lock, j, w'.callers[j]) {
      assert CallerOk(w.db, w.lock, j, w.callers[j]) && CallerOk(w.db, w.lock, i, w.callers[i]);
    }
  }

  // Callers that hold no lock are untouched by a commit of another.
  lemma BystanderOk(db: Db, db': Db, lock: Option<nat>, i: nat, j: nat, c: Caller)
    requires Inv(db) && Inv(db') && i != j && CallerOk(db, lock, j, c)
    requires lock == Some(i) && c.token.session in db.rows && c.token.session in db'.rows
    requires db.rows[c.token.session].consumedAt.Some? ==> db'.rows[c.token.session].consumedAt.Some?
    ensures CallerOk(db', None, j, c)
  {
  }

  lemma CommitKeepsOk(w: World, s: Id, i: nat, w': World)
    requires WorldOk(w, s) && i < |w.callers| && Commits(w, i, w')
    ensures WorldOk(w', s)
  {
    var c := w.callers[i];
    var a := DoRefresh(c.token, c.newId, c.serial, c.now);
    CommitIsAtomicRefresh(w, s, i, w');
    ApplyKeepsInv(w.db, a);
    assert CallerOk(w.db, w.lock, i, c);
    if !c.phase.result.NotFound? && !c.phase.result.Rotated? {
      RevokeFamilyKeepsInv(w.db, s, c.now);
      forall x | x in w'.db.rows && Descends(w'.db.rows, s, x) ensures w'.db.rows[x].revokedAt.Some? {
        SameShapeSameDescent(w.db.rows, w'.db.rows, s, x);
      }
      assert Dead(w'.db, s);
    }
    forall j: nat | j < |w'.callers|
      ensures CallerOk(w'.db, w'.lock, j, w'.callers[j])
      ensures Refused(w'.callers[j]) ==> Dead(w'.db, s)
      ensures j != i ==> !(Won(w'.callers[i]) && Won(w'.callers[j]))
    {
      assert CallerOk(w.db, w.lock, j, w.callers[j]);
      if j != i && !c.phase.result.NotFound? {
        BystanderOk(w.db, w'.db, w.lock, i, j, w.callers[j]);
      }
      if j != i && Refused(w.callers[j]) {
        DeadStaysDead(w.db, s, a);
      }
    }
  }

  /** Traffic elsewhere leaves the contended row, its children and its descendants alone. */
  lemma ElsewhereKeepsLine(w: World, s: Id, a: Action)
    requires Inv(w.db) && Elsewhere(w, s, a)
    ensures Inv(Apply(w.db, a))
    ensures var rows, rows' := w.db.rows, Apply(w.db, a).rows;
            && (s in rows <==> s in rows')
            && (s in rows ==> rows'[s] == rows[s])
            && ((exists x :: ChildOf(rows', x, s)) <==> (exists x :: ChildOf(rows, x, s)))
            && Descendants(rows', s) == Descendants(rows, s)
  {
    ApplyKeepsInv(w.db, a);
    var rows, rows' := w.db.rows, Apply(w.db, a).rows;
    forall x ensures x in Descendants(rows', s) <==> x in Descendants(rows, s) {
      ElsewhereKeepsDescent(w, s, a, x);
    }
    forall x ensures ChildOf(rows', x, s) <==> ChildOf(rows, x, s) {
    }
    if a.DoRefresh? && s in rows {
      assert Descends(rows, s, s);
    }
  }

  lemma ElsewhereKeepsDescent(w: World, s: Id, a: Action, x: Id)
    requires Inv(w.db) && Elsewhere(w, s, a) && Inv(Apply(w.db, a))
    ensures x in Descendants(Apply(w.db, a).rows, s) <==> x in Descendants(w.db.rows, s)
  {
    var db, db' := w.db, Apply(w.db, a);
    match a
    case DoLogin(id, token) =>
      var leaf := Session(token.user, token, None, db.clock, None, None);
      InsertKeepsInv(db, id, token, None);
      LeafDescends(db.rows, id, leaf, s);
      if x in db.rows { LeafKeepsDescent(db.rows, id, leaf, s, x); }
    case DoRefresh(token, newId, serial, now) =>
      if Refresh(db, token, newId, serial, now).1.Rotated? {
        RotationKeepsInv(db, token, newId, serial, now);
        var mid := Consume(db, token.session, now);
        var leaf := Session(token.user, Token(newId, token.user, serial), Some(token.session), db.clock, None, None);
        LeafDescends(mid.rows, newId, leaf, s);
        SameShapeSameDescent(db.rows, mid.rows, s, token.session);
        if x in mid.rows {
          LeafKeepsDescent(mid.rows, newId, leaf, s, x);
          SameShapeSameDescent(db.rows, mid.rows, s, x);
        }
      } else {
        RevokeFamilyKeepsInv(db, token.session, now);
        SameShapeSameDescent(db.rows, db'.rows, s, x);
      }
  }

  lemma ElsewhereKeepsOk(w: World, s: Id, a: Action)
    requires WorldOk(w, s) && Elsewhere(w, s, a)
    ensures WorldOk(w.(db := Apply(w.db, a)), s)
  {
    ElsewhereKeepsLine(w, s, a);
    var w' := w.(db := Apply(w.db, a));
    forall j: nat | j < |w'.callers|
      ensures CallerOk(w'.db, w'.lock, j, w'.callers[j])
      ensures !w'.callers[j].phase.Done? ==> w'.callers[j].newId !in w'.db.used
      ensures Refused(w'.callers[j]) ==> Dead(w'.db, s)
    {
      assert CallerOk(w.db, w.lock, j, w.callers[j]);
      assert w.callers[j] in w.callers;
      if Refused(w.callers[j]) {
        DeadStaysDead(w.db, s, a);
      }
    }
  }

  lemma NextKeepsOk(w: World, s: Id, w': World)
    requires WorldOk(w, s) && Next(w, s, w')
    ensures WorldOk(w', s)
  {
    if i: nat :| i < |w.callers| && Acquires(w, i, w') {
      AcquireKeepsOk(w, s, i, w');
    } else if i: nat :| i < |w.callers| && Executes(w, i, w') {
      ExecuteKeepsOk(w, s, i, w');
    } else if i: nat :| i < |w.callers| && Commits(w, i, w') {
      CommitKeepsOk(w, s, i, w');
    } else if i: nat :| i < |w.callers| && Aborts(w, i, w') {
      AbortKeepsOk(w, s, i, w');
    } else {
      var a :| Elsewhere(w, s, a) && w' == w.(db := Apply(w.db, a));
      ElsewhereKeepsOk(w, s, a);
    }
  }

  // ----- runs -----

  ghost predicate Initial(w: World, s: Id) {
    && Inv(w.db) && w.lock == None
    && (forall i: nat {:trigger w.callers[i]} :: i < |w.callers| ==>
          && w.callers[i].token.session == s && w.callers[i].phase == Waiting && w.callers[i].writes == []
          && w.callers[i].newId != s && w.callers[i].newId !in w.db.used)
    && (forall i: nat, j: nat :: i < |w.callers| && j < |w.callers| && i != j ==>
          w.callers[i].newId != w.callers[j].newId)
  }

  ghost predicate Linked(trace: seq<World>, k: nat, s: Id)
    requires k + 1 < |trace|
  {
    Inv(trace[k].db) && Next(trace[k], s, trace[k + 1])
  }

  ghost predicate Run(trace: seq<World>, s: Id) {
    && trace != [] && Initial(trace[0], s)
    && forall k: nat {:trigger Linked(trace, k, s)} :: k + 1 < |trace| ==> Linked(trace, k, s)
  }

  lemma InitialIsOk(w: World, s: Id)
    requires Initial(w, s)
    ensures WorldOk(w, s)
  {
    forall i: nat | i < |w.callers| ensures CallerOk(w.db, w.lock, i, w.callers[i]) {
    }
  }

  lemma {:induction false} RunIsOk(trace: seq<World>, s: Id, k: nat)
    requires Run(trace, s) && k < |trace|
    ensures WorldOk(trace[k], s)
  {
    if k == 0 {
      InitialIsOk(trace[0], s);
    } else {
      RunIsOk(trace, s, k - 1);
      assert Linked(trace, k - 1, s);
      NextKeepsOk(trace[k - 1], s, trace[k]);
    }
  }

  /**
   However the statements interleave, at most one caller commits a child session; the
   session is then consumed, so whoever gets the lock later is refused; and as soon as
   one caller has been refused, nothing at or below the session can be refreshed.
   */
  lemma AtMostOneWinner(trace: seq<World>, s: Id, k: nat, i: nat, j: nat)
    requires Run(trace, s) && k < |trace|
    requires i < |trace[k].callers| && j < |trace[k].callers| && i != j
    ensures !(Won(trace[k].callers[i]) && Won(trace[k].callers[j]))
    ensures Won(trace[k].callers[i]) ==> s in trace[k].db.rows && trace[k].db.rows[s].consumedAt.Some?
    ensures Won(trace[k].callers[i]) && trace[k].callers[j].phase.Committing? ==>
      trace[k].callers[j].phase.result == HashMismatch || trace[k].callers[j].phase.result == Consumed
    ensures Inv(trace[k].db)
    ensures Refused(trace[k].callers[j]) ==> Dead(trace[k].db, s)
  {
    RunIsOk(trace, s, k);
    assert CallerOk(trace[k].db, trace[k].lock, i, trace[k].callers[i]);
    assert CallerOk(trace[k].db, trace[k].lock, j, trace[k].callers[j]);
  }

  /** Every committed change of the table in a run is one atomic action, so the run is serial. */
  lemma StepsAreSerializable(trace: seq<World>, s: Id, k: nat)
    requires Run(trace, s) && k + 1 < |trace|
    ensures Inv(trace[k].db)
    ensures trace[k + 1].db == trace[k].db
         || exists a :: Enabled(trace[k].db, a) && trace[k + 1].db == Apply(trace[k].db, a)
  {
    var w, w' := trace[k], trace[k + 1];
    RunIsOk(trace, s, k);
    assert Linked(trace, k, s);
    if i: nat :| i < |w.callers| && Commits(w, i, w') {
      CommitIsAtomicRefresh(w, s, i, w');
    }
  }
}
