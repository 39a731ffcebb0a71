/**
 When a session of the in-memory registry is found (src/lib/sessionStore.ts), in terms of
 its last use.
 */
module SessionExpiry {
  import opened Wrappers
  import opened SessionStore

  // Event i creates the session or renews it, at this time.
  predicate UsedAt(ops: seq<Timed>, i: nat, ttl: int, token: string, stamp: int)
    requires i < |ops|
  {
    || (ops[i].op.Create? && ops[i].op.token == token && ops[i].now == stamp)
    || (ops[i].op == Touch(token, stamp) && Step(StateAfter(ops, i, ttl), ops[i].op, ttl, ops[i].now).1 == Touched(true))
  }

  predicate Leaves(op: Op, token: string) {
    match op
    case Create(t, _, _) => t != token
    case Touch(t, _) => t != token
    case Delete(t) => t != token
    case Stop => false
    case _ => true
  }

  // Event i is the last use before event j.
  ghost predicate LastUse(ops: seq<Timed>, i: nat, j: nat, ttl: int, token: string, stamp: int) {
    && i < j <= |ops| && TimeMovesOn(ops, if ops == [] then 0 else ops[0].now)
    && UsedAt(ops, i, ttl, token, stamp)
    && (forall m :: i < m < j ==> Leaves(ops[m].op, token))
  }

  // The session is stored as last used, or it was evicted when it was expired.
  ghost predicate KeptOrExpired(st: State, token: string, stamp: int, ttl: int, now: int) {
    if token in st.sessions then
      st.sessions[token].token == token && st.sessions[token].lastSeenAt == stamp
      && st.sessions[token].expiresAt == stamp + ttl
    else now >= stamp + ttl
  }

  lemma UseStores(ops: seq<Timed>, i: nat, ttl: int, token: string, stamp: int)
    requires i < |ops| && UsedAt(ops, i, ttl, token, stamp)
    ensures KeptOrExpired(StateAfter(ops, i + 1, ttl), token, stamp, ttl, Until(ops[i]))
    ensures token in StateAfter(ops, i + 1, ttl).sessions
  {
    if token in StateAfter(ops, i, ttl).sessions { ExpiryFollowsUse(ops, i, ttl, token); }
  }

  lemma StepKeepsOrExpires(st: State, t: Timed, token: string, stamp: int, ttl: int, before: int)
    requires KeptOrExpired(st, token, stamp, ttl, before) && Leaves(t.op, token) && InTime(t) && before <= t.now
    ensures KeptOrExpired(Step(st, t.op, ttl, t.now).0, token, stamp, ttl, Until(t))
  {
  }

  lemma {:induction false} StaysUntilExpiry(ops: seq<Timed>, i: nat, j: nat, ttl: int, token: string, stamp: int)
    requires LastUse(ops, i, j, ttl, token, stamp)
    ensures KeptOrExpired(StateAfter(ops, j, ttl), token, stamp, ttl, Until(ops[j - 1]))
    decreases j
  {
    if j == i + 1 {
      UseStores(ops, i, ttl, token, stamp);
    } else {
      hide Step, KeptOrExpired, UsedAt, Leaves;
      StaysUntilExpiry(ops, i, j - 1, ttl, token, stamp);
      StepKeepsOrExpires(StateAfter(ops, j - 1, ttl), ops[j - 1], token, stamp, ttl, Until(ops[j - 2]));
    }
  }

  /**
   A session is found exactly until one ttl after its last use, the creation or a touch that
   was answered with success, whatever is swept or read in between.
   */
  lemma FoundIff(ops: seq<Timed>, i: nat, j: nat, ttl: int, token: string, stamp: int)
    requires LastUse(ops, i, j, ttl, token, stamp) && j < |ops|
    ensures var answer := Step(StateAfter(ops, j, ttl), ops[j].op, ttl, ops[j].now).1;
      && (ops[j].op == Get(token) ==>
            && answer.Found? && (answer.result.Some? <==> ops[j].now < stamp + ttl)
            && (answer.result.Some? ==> answer.result.value.token == token && answer.result.value.lastSeenAt == stamp))
      && (ops[j].op.Touch? && ops[j].op.token == token ==> answer == Touched(ops[j].now < stamp + ttl))
  {
    StaysUntilExpiry(ops, i, j, ttl, token, stamp);
  }

  /** So a touch that was answered with success extends the session to one ttl after its own stamp. */
  lemma TouchExtends(ops: seq<Timed>, i: nat, j: nat, ttl: int, token: string, stamp: int)
    requires i < j < |ops| && TimeMovesOn(ops, ops[0].now)
    requires ops[i].op == Touch(token, stamp)
    requires Step(StateAfter(ops, i, ttl), ops[i].op, ttl, ops[i].now).1 == Touched(true)
    requires forall m :: i < m < j ==> Leaves(ops[m].op, token)
    requires ops[j].op == Get(token) && ops[j].now < stamp + ttl
    ensures var answer := Step(StateAfter(ops, j, ttl), ops[j].op, ttl, ops[j].now).1;
      answer.Found? && answer.result.Some?
  {
    FoundIff(ops, i, j, ttl, token, stamp);
  }

  // The token is not handed out between the two events.
  predicate NotCreated(ops: seq<Timed>, i: nat, j: nat, token: string)
    requires j <= |ops|
  {
    forall m :: i < m < j ==> !(ops[m].op.Create? && ops[m].op.token == token)
  }

  /** A deleted session, and after a stop any session, is not found again. */
  lemma {:induction false} DeletedIsGone(ops: seq<Timed>, i: nat, j: nat, ttl: int, token: string)
    requires i < j <= |ops| && (ops[i].op == Delete(token) || ops[i].op == Stop) && NotCreated(ops, i, j, token)
    ensures token !in StateAfter(ops, j, ttl).sessions
    ensures j < |ops| && ops[j].op == Get(token) ==>
      Step(StateAfter(ops, j, ttl), ops[j].op, ttl, ops[j].now).1 == Found(None)
    ensures j < |ops| && ops[j].op.Touch? && ops[j].op.token == token ==>
      Step(StateAfter(ops, j, ttl), ops[j].op, ttl, ops[j].now).1 == Touched(false)
    decreases j
  {
    if j > i + 1 {
      DeletedIsGone(ops, i, j - 1, ttl, token);
      if token in StateAfter(ops, j, ttl).sessions {
        StepKeys(StateAfter(ops, j - 1, ttl), ops[j - 1].op, ttl, ops[j - 1].now, token);
      }
    }
  }

  /** A read or a touch that finds the session expired evicts it and counts it as cleaned. */
  lemma ExpiredIsEvicted(st: State, token: string, stamp: int, ttl: int, now: int)
    requires token in st.sessions && now >= st.sessions[token].expiresAt
    ensures var after := State(st.sessions - {token}, st.expiredCleaned + 1, st.totalCreated, st.deleted);
      && Step(st, Get(token), ttl, now) == (after, Found(None))
      && Step(st, Touch(token, stamp), ttl, now) == (after, Touched(false))
  {
  }
}
