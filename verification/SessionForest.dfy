/**
 The sessions table as a forest (src/db/repositories/sessionRepository.ts) and refresh
 rotation as a function on it (src/auth/refresh/refreshService.ts).

 A token is the value the issuer signed; hashing is injective, so the stored hash is
 represented by the token itself. Deleting a session deletes its children as well: the
 parent_id column is declared ON DELETE CASCADE.
 */
module SessionForest {
  import opened Wrappers

  type Id = nat

  datatype Token = Token(session: Id, user: string, serial: nat)

  // `created` is the row's place in the order of insertion.
  datatype Session = Session(user: string, hash: Token, parent: Option<Id>, created: nat,
                             revokedAt: Option<nat>, consumedAt: Option<nat>)

  // `used` holds every id ever inserted: random ids do not come back.
  datatype Db = Db(rows: map<Id, Session>, clock: nat, used: set<Id>)

  datatype Outcome = NotFound | HashMismatch | Consumed | Revoked | HasChild | Rotated(child: Id)

  predicate ChildOf(rows: map<Id, Session>, x: Id, p: Id) {
    x in rows && rows[x].parent == Some(p)
  }

  // ----- the invariant of reachable tables -----

  // Parents exist and were inserted before their children.
  ghost predicate ParentsFirst(rows: map<Id, Session>) {
    forall x, p :: ChildOf(rows, x, p) ==> p in rows && rows[p].created < rows[x].created
  }

  ghost predicate OneChild(rows: map<Id, Session>) {
    forall x, y, p :: ChildOf(rows, x, p) && ChildOf(rows, y, p) ==> x == y
  }

  ghost predicate ParentsConsumed(rows: map<Id, Session>) {
    forall x, p :: ChildOf(rows, x, p) && p in rows ==> rows[p].consumedAt.Some?
  }

  ghost predicate RevokedClosed(rows: map<Id, Session>) {
    forall x, p :: ChildOf(rows, x, p) && p in rows && rows[p].revokedAt.Some? ==> rows[x].revokedAt.Some?
  }

  // A stored hash belongs to a token issued for this session and this user.
  ghost predicate TokensBound(rows: map<Id, Session>) {
    forall x :: x in rows ==> rows[x].hash.session == x && rows[x].hash.user == rows[x].user
  }

  ghost predicate SameUser(rows: map<Id, Session>) {
    forall x, p :: ChildOf(rows, x, p) && p in rows ==> rows[x].user == rows[p].user
  }

  ghost predicate Inv(db: Db) {
    && ParentsFirst(db.rows) && OneChild(db.rows) && ParentsConsumed(db.rows) && RevokedClosed(db.rows)
    && TokensBound(db.rows) && SameUser(db.rows)
    && db.rows.Keys <= db.used
    && (forall x :: x in db.rows ==> db.rows[x].created < db.clock)
  }

  // Without deletions the converse of ParentsConsumed holds as well.
  ghost predicate ConsumedHaveChild(rows: map<Id, Session>) {
    forall p :: p in rows && rows[p].consumedAt.Some? ==> exists x :: ChildOf(rows, x, p)
  }

  // ----- descent -----

  /** `x` is `root` or descends from it, following parent pointers upwards. */
  ghost predicate Descends(rows: map<Id, Session>, root: Id, x: Id): (b: bool)
    requires ParentsFirst(rows)
    ensures b ==> root in rows && x in rows
    decreases if x in rows then rows[x].created else 0
  {
    x in rows && (x == root || (rows[x].parent.Some? &&
      (assert ChildOf(rows, x, rows[x].parent.value); Descends(rows, root, rows[x].parent.value))))
  }

  ghost function Descendants(rows: map<Id, Session>, root: Id): set<Id>
    requires ParentsFirst(rows)
  {
    set x | x in rows && Descends(rows, root, x)
  }

  lemma {:induction false} DescendsTransitive(rows: map<Id, Session>, a: Id, b: Id, c: Id)
    requires ParentsFirst(rows) && Descends(rows, a, b) && Descends(rows, b, c)
    ensures Descends(rows, a, c)
    decreases if c in rows then rows[c].created else 0
  {
    if c != b {
      assert ChildOf(rows, c, rows[c].parent.value);
      DescendsTransitive(rows, a, b, rows[c].parent.value);
    }
  }

  // Two ancestors of one session lie on one line.
  lemma {:induction false} AncestorsComparable(rows: map<Id, Session>, a: Id, b: Id, x: Id)
    requires ParentsFirst(rows) && Descends(rows, a, x) && Descends(rows, b, x)
    ensures Descends(rows, a, b) || Descends(rows, b, a)
    decreases if x in rows then rows[x].created else 0
  {
    if x != a && x != b {
      assert ChildOf(rows, x, rows[x].parent.value);
      AncestorsComparable(rows, a, b, rows[x].parent.value);
    }
  }

  // The topmost ancestor, which identifies the login family.
  ghost function Root(rows: map<Id, Session>, x: Id): (r: Id)
    requires ParentsFirst(rows) && x in rows
    ensures r in rows && rows[r].parent.None? && Descends(rows, r, x)
    decreases rows[x].created
  {
    match rows[x].parent
    case None => x
    case Some(p) =>
      assert ChildOf(rows, x, p);
      Root(rows, p)
  }

  /** With one child a session, everything below a common ancestor is one chain. */
  lemma {:induction false} FamilyIsChain(rows: map<Id, Session>, root: Id, x: Id, y: Id)
    requires ParentsFirst(rows) && OneChild(rows) && Descends(rows, root, x) && Descends(rows, root, y)
    ensures Descends(rows, x, y) || Descends(rows, y, x)
    decreases (if x in rows then rows[x].created else 0) + (if y in rows then rows[y].created else 0)
  {
    if x != root && y != root {
      var p, q := rows[x].parent.value, rows[y].parent.value;
      assert ChildOf(rows, x, p) && ChildOf(rows, y, q);
      FamilyIsChain(rows, root, p, y);
      if Descends(rows, p, y) && p != y {
        ChainBelow(rows, p, x, y);
      } else {
        // y is an ancestor of p, or p itself
        DescendsTransitive(rows, y, p, x);
      }
    }
  }

  // The only child of p is an ancestor of everything properly below p.
  lemma {:induction false} ChainBelow(rows: map<Id, Session>, p: Id, x: Id, y: Id)
    requires ParentsFirst(rows) && OneChild(rows) && ChildOf(rows, x, p)
    requires Descends(rows, p, y) && p != y
    ensures Descends(rows, x, y)
    decreases if y in rows then rows[y].created else 0
  {
    var q := rows[y].parent.value;
    assert ChildOf(rows, y, q);
    if q != p {
      ChainBelow(rows, p, x, q);
    } else {
      assert x == y;
    }
  }

  // Something that descends properly has consumed ancestors.
  lemma {:induction false} ProperAncestorConsumed(rows: map<Id, Session>, a: Id, x: Id)
    requires ParentsFirst(rows) && ParentsConsumed(rows) && Descends(rows, a, x) && a != x
    ensures rows[a].consumedAt.Some?
    decreases if x in rows then rows[x].created else 0
  {
    var p := rows[x].parent.value;
    assert ChildOf(rows, x, p);
    if p != a {
      ProperAncestorConsumed(rows, a, p);
    }
  }

  /** A login family has at most one unconsumed session, and everything else is above it. */
  lemma AtMostOneLive(db: Db, root: Id, x: Id, y: Id)
    requires Inv(db) && Descends(db.rows, root, x) && Descends(db.rows, root, y)
    requires db.rows[x].consumedAt.None?
    ensures Descends(db.rows, y, x)
    ensures db.rows[y].consumedAt.None? ==> x == y
  {
    FamilyIsChain(db.rows, root, x, y);
    if Descends(db.rows, x, y) && x != y {
      ProperAncestorConsumed(db.rows, x, y);
    }
    if Descends(db.rows, y, x) && x != y {
      ProperAncestorConsumed(db.rows, y, x);
    }
  }

  lemma {:induction false} DescendantsOfRevoked(rows: map<Id, Session>, a: Id, x: Id)
    requires ParentsFirst(rows) && RevokedClosed(rows) && Descends(rows, a, x)
    requires rows[a].revokedAt.Some?
    ensures rows[x].revokedAt.Some?
    decreases if x in rows then rows[x].created else 0
  {
    if x != a {
      assert ChildOf(rows, x, rows[x].parent.value);
      DescendantsOfRevoked(rows, a, rows[x].parent.value);
    }
  }

  lemma {:induction false} FamilyHasOneUser(db: Db, a: Id, x: Id)
    requires Inv(db) && Descends(db.rows, a, x)
    ensures db.rows[a].user == db.rows[x].user
    decreases if x in db.rows then db.rows[x].created else 0
  {
    if x != a {
      assert ChildOf(db.rows, x, db.rows[x].parent.value);
      FamilyHasOneUser(db, a, db.rows[x].parent.value);
    }
  }

  // ----- the operations, as functions -----

  function RevokeIds(rows: map<Id, Session>, ids: set<Id>, now: nat): map<Id, Session> {
    map x | x in rows ::
      if x in ids && rows[x].revokedAt.None? then rows[x].(revokedAt := Some(now)) else rows[x]
  }

  ghost function RevokeFamily(db: Db, id: Id, now: nat): Db
    requires ParentsFirst(db.rows)
  {
    db.(rows := RevokeIds(db.rows, Descendants(db.rows, id), now))
  }

  function Consume(db: Db, id: Id, now: nat): Db {
    if id in db.rows then db.(rows := db.rows[id := db.rows[id].(consumedAt := Some(now))]) else db
  }

  function Insert(db: Db, id: Id, user: string, hash: Token, parent: Option<Id>): Db {
    Db(db.rows[id := Session(user, hash, parent, db.clock, None, None)], db.clock + 1, db.used + {id})
  }

  function Login(db: Db, id: Id, token: Token): Db {
    Insert(db, id, token.user, token, None)
  }

  // DELETE of one row, with the cascade.
  ghost function Logout(db: Db, id: Id): Db
    requires ParentsFirst(db.rows)
  {
    db.(rows := map x | x in db.rows && !Descends(db.rows, id, x) :: db.rows[x])
  }

  /** The body of the refresh transaction: what it decides and what it leaves behind. */
  ghost function Refresh(db: Db, token: Token, newId: Id, serial: nat, now: nat): (r: (Db, Outcome))
    requires ParentsFirst(db.rows)
  {
    var id := token.session;
    if id !in db.rows then (db, NotFound)
    else if db.rows[id].hash != token then (RevokeFamily(db, id, now), HashMismatch)
    else if db.rows[id].consumedAt.Some? then (RevokeFamily(db, id, now), Consumed)
    else if db.rows[id].revokedAt.Some? then (RevokeFamily(db, id, now), Revoked)
    else if exists c :: ChildOf(db.rows, c, id) then (RevokeFamily(db, id, now), HasChild)
    else
      (Insert(Consume(db, id, now), newId, token.user, Token(newId, token.user, serial), Some(id)), Rotated(newId))
  }

  datatype Action =
    | DoLogin(id: Id, token: Token)
    | DoRefresh(presented: Token, newId: Id, serial: nat, now: nat)
    | DoLogout(id: Id)

  // Fresh ids, and logins that store the token they issue.
  ghost predicate Enabled(db: Db, a: Action) {
    match a
    case DoLogin(id, token) => id !in db.used && token.session == id
    case DoRefresh(_, newId, _, _) => newId !in db.used
    case DoLogout(_) => true
  }

  ghost function Apply(db: Db, a: Action): Db
    requires ParentsFirst(db.rows)
  {
    match a
    case DoLogin(id, token) => Login(db, id, token)
    case DoRefresh(token, newId, serial, now) => Refresh(db, token, newId, serial, now).0
    case DoLogout(id) => Logout(db, id)
  }

  ghost function OutcomeOf(db: Db, a: Action): Option<Outcome>
    requires ParentsFirst(db.rows)
  {
    match a
    case DoRefresh(token, newId, serial, now) => Some(Refresh(db, token, newId, serial, now).1)
    case _ => None
  }

  // ----- every operation keeps the invariant -----

  // Shape-preserving changes: parents, order and users stay.
  ghost predicate SameShape(rows: map<Id, Session>, rows': map<Id, Session>) {
    && rows'.Keys == rows.Keys
    && forall x :: x in rows ==>
         rows'[x].parent == rows[x].parent && rows'[x].created == rows[x].created
         && rows'[x].user == rows[x].user && rows'[x].hash == rows[x].hash
  }

  lemma {:induction false} SameShapeSameDescent(rows: map<Id, Session>, rows': map<Id, Session>, a: Id, x: Id)
    requires ParentsFirst(rows) && SameShape(rows, rows')
    ensures ParentsFirst(rows')
    ensures Descends(rows, a, x) <==> Descends(rows', a, x)
    decreases if x in rows then rows[x].created else 0
  {
    assert forall y, p :: ChildOf(rows', y, p) ==> ChildOf(rows, y, p);
    if x in rows && rows[x].parent.Some? {
      assert ChildOf(rows, x, rows[x].parent.value);
      SameShapeSameDescent(rows, rows', a, rows[x].parent.value);
    }
  }

  lemma RevokeFamilyKeepsInv(db: Db, id: Id, now: nat)
    requires Inv(db)
    ensures Inv(RevokeFamily(db, id, now))
    ensures SameShape(db.rows, RevokeFamily(db, id, now).rows)
    ensures forall x :: x in db.rows && Descends(db.rows, id, x) ==> RevokeFamily(db, id, now).rows[x].revokedAt.Some?
  {
    var db' := RevokeFamily(db, id, now);
    assert forall x, p :: ChildOf(db'.rows, x, p) <==> ChildOf(db.rows, x, p);
    assert forall x, p :: ChildOf(db.rows, x, p) && Descends(db.rows, id, p) ==> Descends(db.rows, id, x);
  }

  /** Revoking what is revoked already changes nothing, not even the time of revocation. */
  lemma RevokingTwiceIsIdle(db: Db, id: Id, now: nat)
    requires Inv(db) && (id in db.rows ==> db.rows[id].revokedAt.Some?)
    ensures RevokeFamily(db, id, now) == db
  {
    forall x | x in db.rows && Descends(db.rows, id, x) ensures db.rows[x].revokedAt.Some? {
      DescendantsOfRevoked(db.rows, id, x);
    }
    assert RevokeFamily(db, id, now).rows == db.rows;
  }

  // A row that may be inserted under `leaf.parent`.
  ghost predicate IsNewLeaf(rows: map<Id, Session>, id: Id, leaf: Session) {
    && id !in rows && !(exists y :: ChildOf(rows, y, id))
    && (leaf.parent.Some? ==>
          leaf.parent.value in rows && rows[leaf.parent.value].created < leaf.created)
  }

  lemma LeafKeepsParentsFirst(rows: map<Id, Session>, id: Id, leaf: Session)
    requires ParentsFirst(rows) && IsNewLeaf(rows, id, leaf)
    ensures ParentsFirst(rows[id := leaf])
  {
    var rows' := rows[id := leaf];
    assert forall y, p: Id :: ChildOf(rows', y, p) ==> (y == id && leaf.parent == Some(p)) || ChildOf(rows, y, p);
  }

  lemma {:induction false} LeafKeepsDescent(rows: map<Id, Session>, id: Id, leaf: Session, a: Id, x: Id)
    requires ParentsFirst(rows) && IsNewLeaf(rows, id, leaf) && x in rows
    ensures ParentsFirst(rows[id := leaf])
    ensures Descends(rows[id := leaf], a, x) <==> Descends(rows, a, x)
    decreases rows[x].created
  {
    LeafKeepsParentsFirst(rows, id, leaf);
    if rows[x].parent.Some? {
      assert ChildOf(rows, x, rows[x].parent.value);
      LeafKeepsDescent(rows, id, leaf, a, rows[x].parent.value);
    }
  }

  lemma LeafDescends(rows: map<Id, Session>, id: Id, leaf: Session, a: Id)
    requires ParentsFirst(rows) && IsNewLeaf(rows, id, leaf)
    ensures ParentsFirst(rows[id := leaf])
    ensures Descends(rows[id := leaf], a, id) <==>
            a == id || (leaf.parent.Some? && Descends(rows, a, leaf.parent.value))
  {
    LeafKeepsParentsFirst(rows, id, leaf);
    if leaf.parent.Some? {
      LeafKeepsDescent(rows, id, leaf, a, leaf.parent.value);
    }
  }

  lemma InsertKeepsInv(db: Db, id: Id, token: Token, parent: Option<Id>)
    requires Inv(db) && id !in db.used && token.session == id
    requires parent.Some? ==>
      && parent.value in db.rows && !(exists c :: ChildOf(db.rows, c, parent.value))
      && db.rows[parent.value].consumedAt.Some? && db.rows[parent.value].revokedAt.None?
      && db.rows[parent.value].user == token.user
    ensures IsNewLeaf(db.rows, id, Session(token.user, token, parent, db.clock, None, None))
    ensures Inv(Insert(db, id, token.user, token, parent))
  {
    var leaf := Session(token.user, token, parent, db.clock, None, None);
    assert forall y :: ChildOf(db.rows, y, id) ==> id in db.rows;
    LeafKeepsParentsFirst(db.rows, id, leaf);
    var rows' := db.rows[id := leaf];
    assert forall y, p: Id :: ChildOf(rows', y, p) ==> (y == id && parent == Some(p)) || ChildOf(db.rows, y, p);
  }

  lemma ConsumeKeepsInv(db: Db, id: Id, now: nat)
    requires Inv(db)
    ensures Inv(Consume(db, id, now)) && SameShape(db.rows, Consume(db, id, now).rows)
    ensures forall x, p :: ChildOf(Consume(db, id, now).rows, x, p) <==> ChildOf(db.rows, x, p)
  {
    var db' := Consume(db, id, now);
    assert forall x, p :: ChildOf(db'.rows, x, p) <==> ChildOf(db.rows, x, p);
  }

  lemma {:induction false} CutKeepsDescent(rows: map<Id, Session>, rows': map<Id, Session>, id: Id, a: Id, x: Id)
    requires ParentsFirst(rows) && x in rows'
    requires rows' == map y | y in rows && !Descends(rows, id, y) :: rows[y]
    ensures ParentsFirst(rows')
    ensures Descends(rows', a, x) <==> Descends(rows, a, x)
    decreases if x in rows then rows[x].created else 0
  {
    assert forall y, p :: ChildOf(rows', y, p) ==> ChildOf(rows, y, p) && !Descends(rows, id, p);
    if rows[x].parent.Some? {
      assert ChildOf(rows, x, rows[x].parent.value);
      assert ChildOf(rows', x, rows[x].parent.value);
      CutKeepsDescent(rows, rows', id, a, rows[x].parent.value);
    }
  }

  lemma LogoutKeepsInv(db: Db, id: Id)
    requires Inv(db)
    ensures Inv(Logout(db, id))
  {
    var db' := Logout(db, id);
    assert forall y, p :: ChildOf(db'.rows, y, p) ==> ChildOf(db.rows, y, p) && !Descends(db.rows, id, p);
  }

  /** A refresh that rotates found an unconsumed, unrevoked, childless session. */
  lemma RotationKeepsInv(db: Db, token: Token, newId: Id, serial: nat, now: nat)
    requires Inv(db) && newId !in db.used && Refresh(db, token, newId, serial, now).1.Rotated?
    ensures Inv(Refresh(db, token, newId, serial, now).0)
    ensures var mid := Consume(db, token.session, now);
            var leaf := Session(token.user, Token(newId, token.user, serial), Some(token.session), db.clock, None, None);
            && Inv(mid) && SameShape(db.rows, mid.rows)
            && IsNewLeaf(mid.rows, newId, leaf)
            && Refresh(db, token, newId, serial, now).0.rows == mid.rows[newId := leaf]
  {
    ConsumeKeepsInv(db, token.session, now);
    InsertKeepsInv(Consume(db, token.session, now), newId, Token(newId, token.user, serial), Some(token.session));
  }

  lemma ApplyKeepsInv(db: Db, a: Action)
    requires Inv(db) && Enabled(db, a)
    ensures Inv(Apply(db, a))
  {
    match a
    case DoLogin(id, token) => InsertKeepsInv(db, id, token, None);
    case DoRefresh(token, newId, serial, now) =>
      if Refresh(db, token, newId, serial, now).1.Rotated? {
        RotationKeepsInv(db, token, newId, serial, now);
      } else {
        RevokeFamilyKeepsInv(db, token.session, now);
      }
    case DoLogout(id) => LogoutKeepsInv(db, id);
  }

  /** Until a session is deleted, being consumed and having a child are the same thing. */
  lemma ApplyKeepsConsumedHaveChild(db: Db, a: Action)
    requires Inv(db) && Enabled(db, a) && !a.DoLogout? && ConsumedHaveChild(db.rows)
    ensures ConsumedHaveChild(Apply(db, a).rows)
    ensures forall p :: p in Apply(db, a).rows ==>
      (Apply(db, a).rows[p].consumedAt.Some? <==> exists x :: ChildOf(Apply(db, a).rows, x, p))
  {
    ApplyKeepsInv(db, a);
    var rows, rows' := db.rows, Apply(db, a).rows;
    forall p | p in rows' && rows'[p].consumedAt.Some? ensures exists x :: ChildOf(rows', x, p) {
      if p in rows && rows[p].consumedAt.Some? {
        var x :| ChildOf(rows, x, p);
        assert ChildOf(rows', x, p);
      } else {
        assert a.DoRefresh? && p == a.presented.session;
        assert ChildOf(rows', a.newId, p);
      }
    }
    forall p | p in rows' && exists x :: ChildOf(rows', x, p) ensures rows'[p].consumedAt.Some? {
      var x :| ChildOf(rows', x, p);
    }
  }

  /** The child probe never fires: a session with a child is recognised as consumed before. */
  lemma ChildProbeNeverFires(db: Db, token: Token, newId: Id, serial: nat, now: nat)
    requires Inv(db)
    ensures Refresh(db, token, newId, serial, now).1 != HasChild
  {
  }

  /** A refresh succeeds exactly for the stored, unconsumed, unrevoked session whose current token is presented. */
  lemma RefreshSucceedsIff(db: Db, token: Token, newId: Id, serial: nat, now: nat)
    requires Inv(db)
    ensures Refresh(db, token, newId, serial, now).1.Rotated? <==>
      && token.session in db.rows && db.rows[token.session].hash == token
      && db.rows[token.session].consumedAt.None? && db.rows[token.session].revokedAt.None?
  {
    ChildProbeNeverFires(db, token, newId, serial, now);
  }

  /** A rotation hands the family over: the new token is good for one refresh, the old one for none. */
  lemma RotationHandsOver(db: Db, token: Token, newId: Id, serial: nat, now: nat, nextId: Id, next: nat, later: nat)
    requires Inv(db) && newId !in db.used && nextId !in db.used && nextId != newId
    requires Refresh(db, token, newId, serial, now).1.Rotated?
    ensures Inv(Refresh(db, token, newId, serial, now).0)
    ensures var after := Refresh(db, token, newId, serial, now).0;
      && Refresh(after, Token(newId, token.user, serial), nextId, next, later).1 == Rotated(nextId)
      && Refresh(after, token, nextId, next, later).1 == Consumed
      && Descends(after.rows, token.session, newId)
  {
    RotationKeepsInv(db, token, newId, serial, now);
    var after := Refresh(db, token, newId, serial, now).0;
    RefreshSucceedsIff(after, Token(newId, token.user, serial), nextId, next, later);
    assert ChildOf(after.rows, newId, token.session) && Descends(after.rows, token.session, token.session);
  }

  // ----- replay is final -----

  /** No session of the family can be refreshed any more. */
  ghost predicate Dead(db: Db, root: Id)
    requires ParentsFirst(db.rows)
  {
    root in db.used &&
    forall x :: x in db.rows && Descends(db.rows, root, x) ==>
      db.rows[x].consumedAt.Some? || db.rows[x].revokedAt.Some?
  }

  /** Any refused refresh of a stored session, in particular a replay, kills the whole family. */
  lemma RefusalKillsFamily(db: Db, token: Token, newId: Id, serial: nat, now: nat)
    requires Inv(db) && token.session in db.rows
    requires !Refresh(db, token, newId, serial, now).1.Rotated?
    ensures Inv(Refresh(db, token, newId, serial, now).0)
    ensures Dead(Refresh(db, token, newId, serial, now).0, Root(db.rows, token.session))
  {
    var s, root, db' := token.session, Root(db.rows, token.session), Refresh(db, token, newId, serial, now).0;
    RevokeFamilyKeepsInv(db, s, now);
    forall x | x in db'.rows && Descends(db'.rows, root, x)
      ensures db'.rows[x].consumedAt.Some? || db'.rows[x].revokedAt.Some?
    {
      SameShapeSameDescent(db.rows, db'.rows, root, x);
      FamilyIsChain(db.rows, root, s, x);
      if !Descends(db.rows, s, x) {
        ProperAncestorConsumed(db.rows, x, s);
      }
    }
  }

  lemma LoginLeavesDead(db: Db, root: Id, id: Id, token: Token)
    requires Inv(db) && id !in db.used && token.session == id && Dead(db, root)
    ensures Inv(Login(db, id, token)) && Dead(Login(db, id, token), root)
  {
    var leaf := Session(token.user, token, None, db.clock, None, None);
    InsertKeepsInv(db, id, token, None);
    LeafDescends(db.rows, id, leaf, root);
    forall x | x in db.rows ensures Descends(db.rows[id := leaf], root, x) <==> Descends(db.rows, root, x) {
      LeafKeepsDescent(db.rows, id, leaf, root, x);
    }
  }

  lemma LogoutLeavesDead(db: Db, root: Id, id: Id)
    requires Inv(db) && Dead(db, root)
    ensures Inv(Logout(db, id)) && Dead(Logout(db, id), root)
  {
    LogoutKeepsInv(db, id);
    forall x | x in Logout(db, id).rows
      ensures Descends(Logout(db, id).rows, root, x) <==> Descends(db.rows, root, x)
    {
      CutKeepsDescent(db.rows, Logout(db, id).rows, id, root, x);
    }
  }

  lemma RefusalLeavesDead(db: Db, root: Id, id: Id, now: nat)
    requires Inv(db) && Dead(db, root)
    ensures Inv(RevokeFamily(db, id, now)) && Dead(RevokeFamily(db, id, now), root)
  {
    RevokeFamilyKeepsInv(db, id, now);
    forall x | x in db.rows
      ensures Descends(RevokeFamily(db, id, now).rows, root, x) <==> Descends(db.rows, root, x)
    {
      SameShapeSameDescent(db.rows, RevokeFamily(db, id, now).rows, root, x);
    }
  }

  // A rotation adds a leaf below a live session, which a dead family does not have.
  lemma RotationLeavesDead(db: Db, root: Id, token: Token, newId: Id, serial: nat, now: nat)
    requires Inv(db) && Dead(db, root) && newId !in db.used
    requires Refresh(db, token, newId, serial, now).1.Rotated?
    ensures !Descends(db.rows, root, token.session)
    ensures Inv(Refresh(db, token, newId, serial, now).0)
    ensures Dead(Refresh(db, token, newId, serial, now).0, root)
  {
    RotationKeepsInv(db, token, newId, serial, now);
    var mid := Consume(db, token.session, now);
    var leaf := Session(token.user, Token(newId, token.user, serial), Some(token.session), db.clock, None, None);
    LeafDescends(mid.rows, newId, leaf, root);
    SameShapeSameDescent(db.rows, mid.rows, root, token.session);
    forall x | x in db.rows
      ensures Descends(mid.rows[newId := leaf], root, x) <==> Descends(db.rows, root, x)
    {
      LeafKeepsDescent(mid.rows, newId, leaf, root, x);
      SameShapeSameDescent(db.rows, mid.rows, root, x);
    }
  }

  /** A dead family stays dead, and no refresh in it succeeds, whatever happens next. */
  lemma DeadStaysDead(db: Db, root: Id, a: Action)
    requires Inv(db) && Enabled(db, a) && Dead(db, root)
    ensures Inv(Apply(db, a)) && Dead(Apply(db, a), root)
    ensures a.DoRefresh? && Descends(db.rows, root, a.presented.session) ==>
      !Refresh(db, a.presented, a.newId, a.serial, a.now).1.Rotated?
  {
    match a
    case DoLogin(id, token) => LoginLeavesDead(db, root, id, token);
    case DoLogout(id) => LogoutLeavesDead(db, root, id);
    case DoRefresh(token, newId, serial, now) =>
      if Refresh(db, token, newId, serial, now).1.Rotated? {
        RotationLeavesDead(db, root, token, newId, serial, now);
      } else {
        RefusalLeavesDead(db, root, token.session, now);
      }
  }

  // ----- runs -----

  ghost predicate LegalRun(db: Db, actions: seq<Action>)
    requires Inv(db)
    decreases |actions|
  {
    actions == [] ||
    (Enabled(db, actions[0]) &&
     (ApplyKeepsInv(db, actions[0]); LegalRun(Apply(db, actions[0]), actions[1..])))
  }

  ghost function After(db: Db, actions: seq<Action>): (db': Db)
    requires Inv(db) && LegalRun(db, actions)
    ensures Inv(db')
    decreases |actions|
  {
    if actions == [] then db
    else
      ApplyKeepsInv(db, actions[0]);
      After(Apply(db, actions[0]), actions[1..])
  }

  /**
   Replay is final: once a refresh of a family member has been refused, every later
   refresh of any member of that family is refused, through any run of logins,
   refreshes and logouts.
   */
  lemma {:induction false} ReplayIsFinal(db: Db, root: Id, actions: seq<Action>, later: Action)
    requires Inv(db) && Dead(db, root) && LegalRun(db, actions)
    requires Enabled(After(db, actions), later)
    ensures Dead(After(db, actions), root)
    ensures later.DoRefresh? && Descends(After(db, actions).rows, root, later.presented.session) ==>
      !OutcomeOf(After(db, actions), later).value.Rotated?
    decreases |actions|
  {
    if actions == [] {
      DeadStaysDead(db, root, later);
    } else {
      DeadStaysDead(db, root, actions[0]);
      ReplayIsFinal(Apply(db, actions[0]), root, actions[1..], later);
    }
  }

  const EMPTY_DB := Db(map[], 0, {})

  lemma EmptyDbIsLegal()
    ensures Inv(EMPTY_DB) && ConsumedHaveChild(EMPTY_DB.rows)
  {
  }
}
