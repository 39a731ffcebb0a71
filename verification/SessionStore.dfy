/** The in-memory session registry with lazy expiry (src/lib/sessionStore.ts). */
module SessionStore {
  import opened Wrappers

  datatype Session = Session(token: string, userId: string, role: string, expiresAt: int, createdAt: int, lastSeenAt: int)

  // deleted counts the sessions removed on request; the source keeps no such counter.
  datatype State = State(sessions: map<string, Session>, expiredCleaned: nat, totalCreated: nat, deleted: nat)

  const EMPTY := State(map[], 0, 0, 0)

  predicate IsExpired(s: Session, now: int) {
    now >= s.expiresAt
  }

  // ----- the ideal store: sessions vanish at their expiry -----

  function Live(sessions: map<string, Session>, now: int): map<string, Session> {
    map t | t in sessions && !IsExpired(sessions[t], now) :: sessions[t]
  }

  /**
   Touch carries its second clock reading, from which the new expiry is computed; a sweep
   carries the reading it takes for each session, none later than its end.
   */
  datatype Op =
    | Create(token: string, userId: string, role: string)
    | Get(token: string)
    | Touch(token: string, stamp: int)
    | Delete(token: string)
    | Stats
    | Stop
    | Sweep(readings: map<string, int>, end: int)

  datatype Answer =
    | Created(session: Session) | Found(result: Option<Session>) | Touched(ok: bool) | Active(count: nat) | Done

  function NewSession(token: string, userId: string, role: string, ttl: int, now: int): Session {
    Session(token, userId, role, now + ttl, now, now)
  }

  function Renewed(s: Session, ttl: int, stamp: int): Session {
    s.(expiresAt := stamp + ttl, lastSeenAt := stamp)
  }

  function IdealStep(live: map<string, Session>, op: Op, ttl: int, now: int): (map<string, Session>, Answer) {
    match op
    case Create(token, userId, role) =>
      (live[token := NewSession(token, userId, role, ttl, now)], Created(NewSession(token, userId, role, ttl, now)))
    case Get(token) => (live, Found(if token in live then Some(live[token]) else None))
    case Touch(token, stamp) =>
      (if token in live then live[token := Renewed(live[token], ttl, stamp)] else live, Touched(token in live))
    case Delete(token) => (live - {token}, Done)
    case Stats => (live, Active(|live|))
    case Stop => (map[], Done)
    case Sweep(_, _) => (live, Done)
  }

  // ----- the real store on values -----

  function Evicted(st: State, token: string): State {
    st.(sessions := st.sessions - {token}, expiredCleaned := st.expiredCleaned + 1)
  }

  function Step(st: State, op: Op, ttl: int, now: int): (State, Answer) {
    match op
    case Create(token, userId, role) =>
      var s := NewSession(token, userId, role, ttl, now);
      (st.(sessions := st.sessions[token := s], totalCreated := st.totalCreated + 1), Created(s))
    case Get(token) =>
      if token !in st.sessions then (st, Found(None))
      else if IsExpired(st.sessions[token], now) then (Evicted(st, token), Found(None))
      else (st, Found(Some(st.sessions[token])))
    case Touch(token, stamp) =>
      if token !in st.sessions then (st, Touched(false))
      else if IsExpired(st.sessions[token], now) then (Evicted(st, token), Touched(false))
      else (st.(sessions := st.sessions[token := Renewed(st.sessions[token], ttl, stamp)]), Touched(true))
    case Delete(token) =>
      (st.(sessions := st.sessions - {token}, deleted := st.deleted + if token in st.sessions then 1 else 0), Done)
    case Stats => (st, Active(|Live(st.sessions, now)|))
    case Stop => (st.(sessions := map[], deleted := st.deleted + |st.sessions|), Done)
    case Sweep(readings, end) =>
      KeptIsSmaller(st.sessions, readings, end);
      var kept := Kept(st.sessions, readings, end);
      (st.(sessions := kept, expiredCleaned := st.expiredCleaned + (|st.sessions| - |kept|)), Done)
  }

  // The clock reading a sweep takes for a session.
  function ReadAt(readings: map<string, int>, end: int, token: string): int {
    if token in readings then readings[token] else end
  }

  // The sessions that are live at their reading.
  function Kept(sessions: map<string, Session>, readings: map<string, int>, end: int): map<string, Session> {
    map t | t in sessions && !IsExpired(sessions[t], ReadAt(readings, end, t)) :: sessions[t]
  }

  lemma KeptIsSmaller(sessions: map<string, Session>, readings: map<string, int>, end: int)
    ensures |Kept(sessions, readings, end)| <= |sessions|
  {
    SubsetSize(Kept(sessions, readings, end).Keys, sessions.Keys);
  }

  lemma {:induction false} SubsetSize<T>(a: set<T>, b: set<T>)
    requires a <= b
    ensures |a| <= |b|
  {
    if a != {} {
      var x :| x in a;
      SubsetSize(a - {x}, b - {x});
    }
  }

  // ----- the class -----

  class SessionStore {
    var sessions: map<string, Session>
    var expiredCleaned: nat
    var totalCreated: nat
    ghost var deleted: nat
    const ttl: int

    constructor (ttl: int)
      ensures Contents() == EMPTY && this.ttl == ttl
    {
      sessions, expiredCleaned, totalCreated, deleted, this.ttl := map[], 0, 0, 0, ttl;
    }

    ghost function Contents(): State
      reads this
    {
      State(sessions, expiredCleaned, totalCreated, deleted)
    }

    method Create(token: string, userId: string, role: string, now: int) returns (session: Session)
      modifies this
      ensures (Contents(), Created(session)) == Step(old(Contents()), Op.Create(token, userId, role), ttl, now)
    {
      session := Session(token, userId, role, now + ttl, now, now);
      sessions := sessions[token := session];
      totalCreated := totalCreated + 1;
    }

    method Evict(token: string)
      modifies this
      ensures Contents() == Evicted(old(Contents()), token)
    {
      sessions := sessions - {token};
      expiredCleaned := expiredCleaned + 1;
    }

    method Get(token: string, now: int) returns (session: Option<Session>)
      modifies this
      ensures (Contents(), Found(session)) == Step(old(Contents()), Op.Get(token), ttl, now)
    {
      if token !in sessions { return None; }
      session := Some(sessions[token]);
      if IsExpired(sessions[token], now) {
        Evict(token);
        return None;
      }
    }

    method Touch(token: string, now: int, stamp: int) returns (ok: bool)
      modifies this
      ensures (Contents(), Touched(ok)) == Step(old(Contents()), Op.Touch(token, stamp), ttl, now)
    {
      if token !in sessions || IsExpired(sessions[token], now) {
        if token in sessions { Evict(token); }
        return false;
      }
      sessions := sessions[token := sessions[token].(expiresAt := stamp + ttl, lastSeenAt := stamp)];
      return true;
    }

    method Delete(token: string)
      modifies this
      ensures Contents() == Step(old(Contents()), Op.Delete(token), ttl, 0).0
    {
      deleted := deleted + if token in sessions then 1 else 0;
      sessions := sessions - {token};
    }

    method Stop()
      modifies this
      ensures Contents() == Step(old(Contents()), Op.Stop, ttl, 0).0
    {
      deleted := deleted + |sessions|;
      sessions := map[];
    }

    /** Counts the sessions that are still live. */
    method Stats(now: int) returns (active: nat)
      ensures (Contents(), Active(active)) == Step(Contents(), Op.Stats, ttl, now)
    {
      active := 0;
      NoneCounted(sessions, now);
      var rest := sessions.Keys;
      while rest != {}
        invariant rest <= sessions.Keys && active == LiveOutside(sessions, rest, now)
        decreases |rest|
      {
        var token :| token in rest;
        CountOne(sessions, rest - {token}, token, now);
        assert rest - {token} + {token} == rest;
        rest := rest - {token};
        if sessions[token].expiresAt > now { active := active + 1; }
      }
      AllCounted(sessions, now);
    }

    /** Evicts every session that is expired when its turn comes, and counts them. */
    method Sweep(readings: map<string, int>, end: int) returns (evicted: nat)
      modifies this
      ensures Contents() == Step(old(Contents()), Op.Sweep(readings, end), ttl, 0).0
      ensures evicted == |old(sessions)| - |sessions|
    {
      evicted := 0;
      var rest := sessions.Keys;
      SweptNone(sessions, readings, end);
      hide SweptTo, Kept, Step;
      while rest != {}
        invariant rest <= sessions.Keys && totalCreated == old(totalCreated) && deleted == old(deleted)
        invariant SweptTo(old(sessions), sessions, rest, readings, end)
        invariant |old(sessions)| == |sessions| + evicted && expiredCleaned == old(expiredCleaned) + evicted
        decreases |rest|
      {
        var token :| token in rest;
        SweepsOne(old(sessions), sessions, rest, token, readings, end);
        rest := rest - {token};
        if IsExpired(sessions[token], ReadAt(readings, end, token)) {
          Evict(token);
          evicted := evicted + 1;
        }
      }
      SweptAll(old(sessions), sessions, readings, end);
      SweepIs(old(Contents()), readings, end, ttl);
    }
  }

  // All sessions but the remaining ones have had their turn.
  ghost predicate SweptTo(before: map<string, Session>, sessions: map<string, Session>, rest: set<string>,
                          readings: map<string, int>, end: int) {
    && (forall t :: t in sessions ==> t in before && sessions[t] == before[t])
    && (forall t :: t in before && t !in rest ==>
          (t in sessions <==> !IsExpired(before[t], ReadAt(readings, end, t))))
    && (forall t :: t in before && t in rest ==> t in sessions)
  }

  lemma SweepsOne(before: map<string, Session>, sessions: map<string, Session>, rest: set<string>, token: string,
                  readings: map<string, int>, end: int)
    requires SweptTo(before, sessions, rest, readings, end) && token in rest && token in sessions
    ensures if IsExpired(sessions[token], ReadAt(readings, end, token))
            then SweptTo(before, sessions - {token}, rest - {token}, readings, end)
            else SweptTo(before, sessions, rest - {token}, readings, end)
    ensures |sessions - {token}| == |sessions| - 1
  {
    RemovedSize(sessions, token);
  }

  lemma SweptNone(sessions: map<string, Session>, readings: map<string, int>, end: int)
    ensures SweptTo(sessions, sessions, sessions.Keys, readings, end)
  {
  }

  lemma SweepIs(st: State, readings: map<string, int>, end: int, ttl: int)
    ensures var kept := Kept(st.sessions, readings, end);
      |kept| <= |st.sessions| && Step(st, Op.Sweep(readings, end), ttl, 0).0 ==
        State(kept, st.expiredCleaned + (|st.sessions| - |kept|), st.totalCreated, st.deleted)
  {
    KeptIsSmaller(st.sessions, readings, end);
  }

  lemma SweptAll(before: map<string, Session>, sessions: map<string, Session>, readings: map<string, int>, end: int)
    requires SweptTo(before, sessions, {}, readings, end)
    ensures sessions == Kept(before, readings, end)
  {
  }

  // The number of live sessions that are not waiting to be looked at.
  ghost function LiveOutside(sessions: map<string, Session>, rest: set<string>, now: int): nat {
    |Live(sessions, now).Keys - rest|
  }

  lemma CountOne(sessions: map<string, Session>, rest: set<string>, token: string, now: int)
    requires token !in rest && token in sessions
    ensures LiveOutside(sessions, rest, now) ==
      LiveOutside(sessions, rest + {token}, now) + if sessions[token].expiresAt > now then 1 else 0
  {
    var live := Live(sessions, now).Keys;
    if token in live {
      assert live - rest == (live - (rest + {token})) + {token};
    } else {
      assert live - rest == live - (rest + {token});
    }
  }

  lemma NoneCounted(sessions: map<string, Session>, now: int)
    ensures LiveOutside(sessions, sessions.Keys, now) == 0
  {
    assert Live(sessions, now).Keys - sessions.Keys == {};
  }

  lemma AllCounted(sessions: map<string, Session>, now: int)
    ensures LiveOutside(sessions, {}, now) == |Live(sessions, now)|
  {
    assert Live(sessions, now).Keys - {} == Live(sessions, now).Keys;
  }

  lemma RemovedSize(sessions: map<string, Session>, token: string)
    requires token in sessions
    ensures |sessions - {token}| == |sessions| - 1
  {
    assert (sessions - {token}).Keys == sessions.Keys - {token};
    assert |sessions.Keys| == |sessions| && |(sessions - {token}).Keys| == |sessions - {token}|;
  }

  // ----- lazy expiry refines the ideal store -----

  lemma LiveWithout(sessions: map<string, Session>, token: string, now: int)
    ensures Live(sessions - {token}, now) == Live(sessions, now) - {token}
    ensures token !in Live(sessions, now) ==> Live(sessions - {token}, now) == Live(sessions, now)
  {
  }

  lemma LiveWith(sessions: map<string, Session>, token: string, s: Session, now: int)
    ensures Live(sessions[token := s], now) == Live(Live(sessions, now)[token := s], now)
  {
  }

  lemma LiveTwice(sessions: map<string, Session>, now: int)
    ensures Live(Live(sessions, now), now) == Live(sessions, now)
  {
  }

  datatype Timed = Timed(op: Op, now: int)

  // A sweep takes its readings between its begin and its end.
  predicate InTime(t: Timed) {
    t.op.Sweep? ==> t.now <= t.op.end && forall token :: token in t.op.readings ==> t.now <= t.op.readings[token] <= t.op.end
  }

  function Until(t: Timed): int {
    if t.op.Sweep? then t.op.end else t.now
  }

  lemma KeptIsLive(sessions: map<string, Session>, readings: map<string, int>, end: int)
    requires forall t :: t in readings ==> readings[t] <= end
    ensures Live(Kept(sessions, readings, end), end) == Live(sessions, end)
  {
  }

  /** Every call answers as the ideal store does, and leaves the same live sessions. */
  lemma StepRefinesIdeal(st: State, op: Op, ttl: int, now: int)
    requires InTime(Timed(op, now))
    ensures Step(st, op, ttl, now).1 == IdealStep(Live(st.sessions, now), op, ttl, now).1
    ensures var t := Until(Timed(op, now));
      Live(Step(st, op, ttl, now).0.sessions, t) == Live(IdealStep(Live(st.sessions, now), op, ttl, now).0, t)
  {
    LiveTwice(st.sessions, now);
    match op
    case Create(token, userId, role) => LiveWith(st.sessions, token, NewSession(token, userId, role, ttl, now), now);
    case Get(token) => LiveWithout(st.sessions, token, now);
    case Touch(token, stamp) =>
      LiveWithout(st.sessions, token, now);
      if token in st.sessions { LiveWith(st.sessions, token, Renewed(st.sessions[token], ttl, stamp), now); }
    case Delete(token) =>
      LiveWithout(st.sessions, token, now);
      LiveWithout(Live(st.sessions, now), token, now);
    case Stats =>
    case Stop =>
    case Sweep(readings, end) =>
      KeptIsLive(st.sessions, readings, end);
      LiveLater(st.sessions, now, end);
  }

  // What is live later was live before.
  lemma LiveLater(sessions: map<string, Session>, now: int, later: int)
    requires now <= later
    ensures Live(Live(sessions, now), later) == Live(sessions, later)
  {
  }

  predicate TimeMovesOn(ops: seq<Timed>, from: int) {
    && (forall i :: 0 <= i < |ops| ==> from <= ops[i].now && InTime(ops[i]))
    && (forall i, j :: 0 <= i < j < |ops| ==> Until(ops[i]) <= ops[j].now)
  }

  /** The answers of a run; sweeps answer to nobody. */
  function Answers(st: State, ops: seq<Timed>, ttl: int): seq<Answer>
    decreases |ops|
  {
    if ops == [] then []
    else
      var (after, answer) := Step(st, ops[0].op, ttl, ops[0].now);
      if ops[0].op.Sweep? then Answers(after, ops[1..], ttl) else [answer] + Answers(after, ops[1..], ttl)
  }

  /** The ideal store forgets what has expired before each call. */
  function IdealAnswers(live: map<string, Session>, ops: seq<Timed>, ttl: int): seq<Answer>
    decreases |ops|
  {
    if ops == [] then []
    else
      var (after, answer) := IdealStep(Live(live, ops[0].now), ops[0].op, ttl, ops[0].now);
      if ops[0].op.Sweep? then IdealAnswers(after, ops[1..], ttl) else [answer] + IdealAnswers(after, ops[1..], ttl)
  }

  function WithoutSweeps(ops: seq<Timed>): seq<Timed> {
    if ops == [] then []
    else if ops[0].op.Sweep? then WithoutSweeps(ops[1..])
    else [ops[0]] + WithoutSweeps(ops[1..])
  }

  // Two stores with the same live sessions from some time on.
  ghost predicate Agree(a: map<string, Session>, b: map<string, Session>, now: int) {
    Live(a, now) == Live(b, now)
  }

  lemma AgreeLater(a: map<string, Session>, b: map<string, Session>, now: int, later: int)
    requires Agree(a, b, now) && now <= later
    ensures Agree(a, b, later) && Agree(a, Live(b, later), later)
  {
    LiveLater(a, now, later);
    LiveLater(b, now, later);
    LiveLater(b, later, later);
  }

  /** Over every run with time moving on, the real store answers as the ideal one. */
  lemma {:induction false} RunRefinesIdeal(st: State, live: map<string, Session>, ops: seq<Timed>, ttl: int, from: int)
    requires Agree(st.sessions, live, from) && TimeMovesOn(ops, from)
    ensures Answers(st, ops, ttl) == IdealAnswers(live, ops, ttl)
    decreases |ops|
  {
    if ops != [] {
      var op, now := ops[0].op, ops[0].now;
      AgreeLater(st.sessions, live, from, now);
      StepRefinesIdeal(st, op, ttl, now);
      LiveLater(live, now, now);
      var after, ideal := Step(st, op, ttl, now).0, IdealStep(Live(live, now), op, ttl, now).0;
      assert Agree(after.sessions, ideal, Until(ops[0]));
      RunRefinesIdeal(after, ideal, ops[1..], ttl, Until(ops[0]));
    }
  }

  lemma {:induction false} IdealIgnoresSweeps(live: map<string, Session>, other: map<string, Session>, ops: seq<Timed>,
                                              ttl: int, from: int)
    requires Agree(live, other, from) && TimeMovesOn(ops, from)
    ensures IdealAnswers(live, ops, ttl) == IdealAnswers(other, WithoutSweeps(ops), ttl)
    decreases |ops|
  {
    if ops != [] {
      var op, now := ops[0].op, ops[0].now;
      AgreeLater(live, other, from, now);
      if op.Sweep? {
        LiveLater(live, now, now);
        AgreeLater(Live(live, now), other, now, Until(ops[0]));
        IdealIgnoresSweeps(Live(live, now), other, ops[1..], ttl, Until(ops[0]));
      } else {
        var after := IdealStep(Live(live, now), op, ttl, now).0;
        IdealIgnoresSweeps(after, after, ops[1..], ttl, now);
      }
    }
  }

  lemma {:induction false} FewerStillInOrder(ops: seq<Timed>, from: int)
    requires TimeMovesOn(ops, from)
    ensures TimeMovesOn(WithoutSweeps(ops), from)
    ensures forall t :: t in WithoutSweeps(ops) ==> t in ops
    decreases |ops|
  {
    if ops != [] {
      FewerStillInOrder(ops[1..], Until(ops[0]));
    }
  }

  /** Adding or removing sweeps anywhere in a run changes no answer. */
  lemma SweepsAreInvisible(ops: seq<Timed>, ttl: int, from: int)
    requires TimeMovesOn(ops, from)
    ensures Answers(EMPTY, ops, ttl) == Answers(EMPTY, WithoutSweeps(ops), ttl)
  {
    RunRefinesIdeal(EMPTY, map[], ops, ttl, from);
    IdealIgnoresSweeps(map[], map[], ops, ttl, from);
    FewerStillInOrder(ops, from);
    RunRefinesIdeal(EMPTY, map[], WithoutSweeps(ops), ttl, from);
  }

  // ----- accounting and idle time -----

  function StateAfter(ops: seq<Timed>, n: nat, ttl: int): State
    requires n <= |ops|
  {
    if n == 0 then EMPTY else Step(StateAfter(ops, n - 1, ttl), ops[n - 1].op, ttl, ops[n - 1].now).0
  }

  /** The tokens handed out are never repeated. */
  predicate FreshTokens(ops: seq<Timed>) {
    forall i, j :: 0 <= i < j < |ops| && ops[i].op.Create? && ops[j].op.Create? ==> ops[i].op.token != ops[j].op.token
  }

  predicate CreatedBefore(ops: seq<Timed>, n: nat, token: string)
    requires n <= |ops|
  {
    exists i :: 0 <= i < n && ops[i].op.Create? && ops[i].op.token == token
  }

  predicate Balanced(st: State) {
    st.totalCreated == |st.sessions| + st.expiredCleaned + st.deleted
  }

  lemma AddedSize(sessions: map<string, Session>, token: string, s: Session)
    ensures |sessions[token := s]| == |sessions| + if token in sessions then 0 else 1
  {
    var after := sessions[token := s];
    assert after.Keys == sessions.Keys + {token};
    assert |after.Keys| == |after| && |sessions.Keys| == |sessions|;
  }

  lemma StepKeepsBalance(st: State, op: Op, ttl: int, now: int)
    requires Balanced(st) && (op.Create? ==> op.token !in st.sessions)
    ensures Balanced(Step(st, op, ttl, now).0)
  {
    match op
    case Create(token, userId, role) => AddedSize(st.sessions, token, NewSession(token, userId, role, ttl, now));
    case Get(token) => if token in st.sessions { RemovedSize(st.sessions, token); }
    case Touch(token, stamp) =>
      if token in st.sessions {
        RemovedSize(st.sessions, token);
        AddedSize(st.sessions, token, Renewed(st.sessions[token], ttl, stamp));
      }
    case Delete(token) =>
      if token in st.sessions { RemovedSize(st.sessions, token); }
      else { assert st.sessions - {token} == st.sessions; }
    case Stats =>
    case Stop =>
    case Sweep(readings, end) => KeptIsSmaller(st.sessions, readings, end);
  }

  // Keys of the step's result.
  lemma StepKeys(st: State, op: Op, ttl: int, now: int, token: string)
    requires token in Step(st, op, ttl, now).0.sessions
    ensures token in st.sessions || (op.Create? && op.token == token)
  {
  }

  /** Every session ever created is stored, was cleaned up as expired, or was deleted on request. */
  lemma {:induction false} CreatedIsAccountedFor(ops: seq<Timed>, n: nat, ttl: int)
    requires FreshTokens(ops) && n <= |ops|
    ensures Balanced(StateAfter(ops, n, ttl))
    ensures forall t :: t in StateAfter(ops, n, ttl).sessions ==> CreatedBefore(ops, n, t)
    decreases n
  {
    hide Step, Balanced;
    if n > 0 {
      CreatedIsAccountedFor(ops, n - 1, ttl);
      var st, op := StateAfter(ops, n - 1, ttl), ops[n - 1].op;
      StepKeepsBalance(st, op, ttl, ops[n - 1].now);
      forall t | t in StateAfter(ops, n, ttl).sessions ensures CreatedBefore(ops, n, t) {
        StepKeys(st, op, ttl, ops[n - 1].now, t);
        CreatedByThen(ops, n, t);
      }
    } else {
      NothingCreated();
    }
  }

  lemma NothingCreated()
    ensures Balanced(EMPTY)
  {
  }

  lemma CreatedByThen(ops: seq<Timed>, n: nat, token: string)
    requires 0 < n <= |ops|
    requires CreatedBefore(ops, n - 1, token) || (ops[n - 1].op.Create? && ops[n - 1].op.token == token)
    ensures CreatedBefore(ops, n, token)
  {
  }

  lemma StepKeepsExpiry(st: State, op: Op, ttl: int, now: int, token: string)
    requires token in Step(st, op, ttl, now).0.sessions
    requires token in st.sessions ==> UseAndExpiry(st.sessions[token], ttl, token)
    ensures UseAndExpiry(Step(st, op, ttl, now).0.sessions[token], ttl, token)
  {
  }

  predicate UseAndExpiry(s: Session, ttl: int, token: string) {
    s.expiresAt == s.lastSeenAt + ttl && s.token == token
  }

  /** A stored session always expires one ttl after it was last seen. */
  lemma {:induction false} ExpiryFollowsUse(ops: seq<Timed>, n: nat, ttl: int, token: string)
    requires n <= |ops| && token in StateAfter(ops, n, ttl).sessions
    ensures UseAndExpiry(StateAfter(ops, n, ttl).sessions[token], ttl, token)
    decreases n
  {
    hide Step;
    if n > 0 {
      if token in StateAfter(ops, n - 1, ttl).sessions { ExpiryFollowsUse(ops, n - 1, ttl, token); }
      StepKeepsExpiry(StateAfter(ops, n - 1, ttl), ops[n - 1].op, ttl, ops[n - 1].now, token);
    }
  }

  // The creation that a stored session goes back to.
  ghost predicate CreatedAs(ops: seq<Timed>, n: nat, s: Session)
    requires n <= |ops|
  {
    exists i :: 0 <= i < n && ops[i].op == Create(s.token, s.userId, s.role) && ops[i].now == s.createdAt
  }

  lemma StepKeepsIdentity(st: State, op: Op, ttl: int, now: int, token: string)
    requires token in Step(st, op, ttl, now).0.sessions
    ensures var s := Step(st, op, ttl, now).0.sessions[token];
      || (op == Create(token, s.userId, s.role) && s.token == token && s.createdAt == now)
      || (token in st.sessions && var before := st.sessions[token];
          s.token == before.token && s.userId == before.userId && s.role == before.role && s.createdAt == before.createdAt)
  {
  }

  /** A stored session still has the user, role and creation time it was created with. */
  lemma {:induction false} StoredAsCreated(ops: seq<Timed>, n: nat, ttl: int, token: string)
    requires n <= |ops| && token in StateAfter(ops, n, ttl).sessions
    ensures CreatedAs(ops, n, StateAfter(ops, n, ttl).sessions[token])
    decreases n
  {
    hide Step;
    if n > 0 {
      var st, s := StateAfter(ops, n - 1, ttl), StateAfter(ops, n, ttl).sessions[token];
      ExpiryFollowsUse(ops, n, ttl, token);
      StepKeepsIdentity(st, ops[n - 1].op, ttl, ops[n - 1].now, token);
      if ops[n - 1].op == Create(token, s.userId, s.role) && s.createdAt == ops[n - 1].now {
        assert CreatedAs(ops, n, s);
      } else {
        StoredAsCreated(ops, n - 1, ttl, token);
        var before := st.sessions[token];
        var i :| 0 <= i < n - 1 && ops[i].now == before.createdAt
                 && ops[i].op == Create(before.token, before.userId, before.role);
        assert ops[i].op == Create(s.token, s.userId, s.role);
      }
    }
  }
}
