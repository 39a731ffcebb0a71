/**
 The life of one session in the table (src/auth/refresh/refreshService.ts,
 src/db/repositories/sessionRepository.ts): what each operation writes, column by column,
 and how long a token stays good.
 */
module SessionLife {
  import opened Wrappers
  import opened SessionForest

  // ----- what is written -----

  /** A login adds one row, neither consumed nor revoked, and touches no other. */
  lemma LoginWrites(db: Db, id: Id, token: Token)
    ensures var after := Login(db, id, token);
      && id in after.rows && after.rows == db.rows[id := after.rows[id]]
      && var s := after.rows[id];
         && s.user == token.user && s.hash == token && s.parent == None && s.created == db.clock
         && s.revokedAt == None && s.consumedAt == None
  {
  }

  /** A rotation stamps the old row and adds one live row below it, for the token that is handed out. */
  lemma RotationWrites(db: Db, token: Token, newId: Id, serial: nat, now: nat)
    requires Inv(db) && newId !in db.used && Refresh(db, token, newId, serial, now).1.Rotated?
    ensures var rows, after, from := db.rows, Refresh(db, token, newId, serial, now).0.rows, token.session;
      && from in rows && from in after && newId in after && newId != from
      && after == rows[from := after[from]][newId := after[newId]]
      && after[from] == rows[from].(consumedAt := Some(now))
      && var s := after[newId];
         && s.user == token.user && s.hash.session == newId && s.hash.user == token.user && s.hash.serial == serial
         && s.parent == Some(from) && s.created == db.clock && s.revokedAt == None && s.consumedAt == None
  {
  }

  /** Revoking stamps exactly the unrevoked descendants, and writes no other column. */
  lemma RevocationWrites(db: Db, id: Id, now: nat, x: Id)
    requires Inv(db) && x in db.rows
    ensures var after := RevokeFamily(db, id, now);
      && after.rows.Keys == db.rows.Keys
      && after.rows[x] == if Descends(db.rows, id, x) && db.rows[x].revokedAt.None? then db.rows[x].(revokedAt := Some(now))
                          else db.rows[x]
  {
  }

  /** A refused refresh of a stored session is exactly this; one of an unknown session writes nothing. */
  lemma RefusalWrites(db: Db, token: Token, newId: Id, serial: nat, now: nat)
    requires Inv(db) && !Refresh(db, token, newId, serial, now).1.Rotated?
    ensures var (after, why) := Refresh(db, token, newId, serial, now);
      if token.session !in db.rows then after == db && why == NotFound
      else
        && after == RevokeFamily(db, token.session, now)
        && why == if db.rows[token.session].hash != token then HashMismatch
                  else if db.rows[token.session].consumedAt.Some? then Consumed
                  else Revoked
  {
  }

  /** A logout deletes the session with everything below it and leaves all other rows as they are. */
  lemma LogoutWrites(db: Db, id: Id, x: Id)
    requires Inv(db)
    ensures x in Logout(db, id).rows <==> x in db.rows && !Descends(db.rows, id, x)
    ensures x in Logout(db, id).rows ==> Logout(db, id).rows[x] == db.rows[x]
  {
  }

  /** The tokens of a deleted session are unknown from then on. */
  lemma LoggedOutIsUnknown(db: Db, token: Token, newId: Id, serial: nat, now: nat)
    requires Inv(db)
    ensures Inv(Logout(db, token.session))
    ensures Refresh(Logout(db, token.session), token, newId, serial, now) == (Logout(db, token.session), NotFound)
  {
    LogoutKeepsInv(db, token.session);
  }

  // ----- how long a token is good -----

  // The action does not refresh or delete the session or one above it.
  ghost predicate Spares(db: Db, x: Id, a: Action)
    requires ParentsFirst(db.rows)
  {
    match a
    case DoLogin(_, _) => true
    case DoRefresh(presented, _, _, _) => !Descends(db.rows, presented.session, x)
    case DoLogout(id) => !Descends(db.rows, id, x)
  }

  ghost predicate SparedBy(db: Db, x: Id, actions: seq<Action>)
    requires Inv(db) && LegalRun(db, actions)
    decreases |actions|
  {
    actions == [] ||
    (Spares(db, x, actions[0]) &&
     (ApplyKeepsInv(db, actions[0]); SparedBy(Apply(db, actions[0]), x, actions[1..])))
  }

  lemma SparedRowStays(db: Db, x: Id, a: Action)
    requires Inv(db) && Enabled(db, a) && x in db.rows && Spares(db, x, a)
    ensures x in Apply(db, a).rows && Apply(db, a).rows[x] == db.rows[x]
  {
  }

  lemma {:induction false} SparedRowsStay(db: Db, x: Id, actions: seq<Action>)
    requires Inv(db) && LegalRun(db, actions) && x in db.rows && SparedBy(db, x, actions)
    ensures x in After(db, actions).rows && After(db, actions).rows[x] == db.rows[x]
    decreases |actions|
  {
    if actions != [] {
      ApplyKeepsInv(db, actions[0]);
      SparedRowStays(db, x, actions[0]);
      SparedRowsStay(Apply(db, actions[0]), x, actions[1..]);
    }
  }

  /** The token of a live session is good for a refresh as long as nothing refreshes or deletes at or above it. */
  lemma LiveTokenIsGood(db: Db, token: Token, actions: seq<Action>, newId: Id, serial: nat, now: nat)
    requires Inv(db) && LegalRun(db, actions) && token.session in db.rows && SparedBy(db, token.session, actions)
    requires db.rows[token.session].hash == token
    requires db.rows[token.session].consumedAt.None? && db.rows[token.session].revokedAt.None?
    ensures Refresh(After(db, actions), token, newId, serial, now).1 == Rotated(newId)
  {
    SparedRowsStay(db, token.session, actions);
    RefreshSucceedsIff(After(db, actions), token, newId, serial, now);
  }

  // Nobody presents a token of the session or deletes it.
  predicate Untouched(actions: seq<Action>, id: Id) {
    forall i :: 0 <= i < |actions| ==>
      && (actions[i].DoRefresh? ==> actions[i].presented.session != id)
      && (actions[i].DoLogout? ==> actions[i].id != id)
  }

  // A login session has nothing above it.
  lemma {:induction false} UntouchedIsSpared(db: Db, x: Id, actions: seq<Action>)
    requires Inv(db) && LegalRun(db, actions) && x in db.rows && db.rows[x].parent.None? && Untouched(actions, x)
    ensures SparedBy(db, x, actions)
    decreases |actions|
  {
    if actions != [] {
      ApplyKeepsInv(db, actions[0]);
      SparedRowStays(db, x, actions[0]);
      UntouchedIsSpared(Apply(db, actions[0]), x, actions[1..]);
    }
  }

  /**
   From any legal table: the token of a login is good for its first refresh, at any time
   later, until somebody presents a token of the session or the session is deleted.
   */
  lemma LoginTokenIsGood(db: Db, token: Token, actions: seq<Action>, newId: Id, serial: nat, now: nat)
    requires Inv(db) && token.session !in db.used
    ensures Inv(Login(db, token.session, token))
    ensures LegalRun(Login(db, token.session, token), actions) && Untouched(actions, token.session) ==>
      Refresh(After(Login(db, token.session, token), actions), token, newId, serial, now).1 == Rotated(newId)
  {
    var after := Login(db, token.session, token);
    ApplyKeepsInv(db, DoLogin(token.session, token));
    LoginWrites(db, token.session, token);
    if LegalRun(after, actions) && Untouched(actions, token.session) {
      UntouchedIsSpared(after, token.session, actions);
      LiveTokenIsGood(after, token, actions, newId, serial, now);
    }
  }

  /** So is the token that a rotation hands out, as long as nothing refreshes or deletes at or above its session. */
  lemma RotatedTokenIsGood(db: Db, token: Token, newId: Id, serial: nat, now: nat, actions: seq<Action>,
                           nextId: Id, next: nat, later: nat)
    requires Inv(db) && newId !in db.used && Refresh(db, token, newId, serial, now).1.Rotated?
    ensures Inv(Refresh(db, token, newId, serial, now).0)
    ensures var after := Refresh(db, token, newId, serial, now).0;
      LegalRun(after, actions) && SparedBy(after, newId, actions) ==>
        Refresh(After(after, actions), Token(newId, token.user, serial), nextId, next, later).1 == Rotated(nextId)
  {
    var after := Refresh(db, token, newId, serial, now).0;
    RotationKeepsInv(db, token, newId, serial, now);
    RotationWrites(db, token, newId, serial, now);
    if LegalRun(after, actions) && SparedBy(after, newId, actions) {
      LiveTokenIsGood(after, Token(newId, token.user, serial), actions, nextId, next, later);
    }
  }
}
