/**
 Sequential milestone validation (src/vaults/hardenedMilestoneValidation.ts): only the
 earliest pending milestone of a vault may be validated.
 */
module Milestones {
  import opened Wrappers
  import opened Sequences

  datatype Status = Pending | Validated(who: string)

  datatype Milestone = Milestone(id: string, createdAt: int, status: Status)

  datatype VaultStatus = Active | Closed | Paused

  datatype Event = Event(milestone: string, verifier: string)

  /** A vault with its milestones in the order in which the repository lists them. */
  datatype Vault = Vault(status: VaultStatus, milestones: seq<Milestone>, verifiers: set<string>, events: seq<Event>)

  datatype Error =
    | VaultNotFound | VaultNotActive | MilestoneNotFound | AlreadyValidated | NonePending
    | MustValidateFirst(expected: string) | NotAssigned | Failed

  // The step at which a store or the publisher fails, if any.
  datatype Fault = NoFault | AtEvent | AtMark | AtPublish | AtAudit

  // ----- the order -----

  function CreationTime(m: Milestone): int {
    m.createdAt
  }

  function SortByCreation(ms: seq<Milestone>): seq<Milestone> {
    SortBy(ms, CreationTime)
  }

  function PendingOf(ms: seq<Milestone>): seq<Milestone> {
    if ms == [] then []
    else if ms[0].status.Pending? then [ms[0]] + PendingOf(ms[1..])
    else PendingOf(ms[1..])
  }

  // ----- marking -----

  function Marked(m: Milestone, id: string, who: string): Milestone {
    if m.id == id then m.(status := Validated(who)) else m
  }

  function MarkAll(ms: seq<Milestone>, id: string, who: string): (r: seq<Milestone>)
    ensures |r| == |ms| && forall i :: 0 <= i < |ms| ==> r[i] == Marked(ms[i], id, who)
  {
    seq(|ms|, i requires 0 <= i < |ms| => Marked(ms[i], id, who))
  }

  lemma {:induction false} InsertMarked(ms: seq<Milestone>, m: Milestone, id: string, who: string)
    ensures Insert(MarkAll(ms, id, who), Marked(m, id, who), CreationTime) == MarkAll(Insert(ms, m, CreationTime), id, who)
    decreases |ms|
  {
    if ms != [] && ms[|ms| - 1].createdAt > m.createdAt {
      var init := ms[..|ms| - 1];
      InsertMarked(init, m, id, who);
      assert MarkAll(ms, id, who)[..|ms| - 1] == MarkAll(init, id, who);
      MarkAllSnoc(Insert(init, m, CreationTime), ms[|ms| - 1], id, who);
    } else {
      MarkAllSnoc(ms, m, id, who);
    }
  }

  lemma MarkAllSnoc(ms: seq<Milestone>, m: Milestone, id: string, who: string)
    ensures MarkAll(ms + [m], id, who) == MarkAll(ms, id, who) + [Marked(m, id, who)]
  {
  }

  /** Validating a milestone does not change the order. */
  lemma {:induction false} SortMarked(ms: seq<Milestone>, id: string, who: string)
    ensures SortByCreation(MarkAll(ms, id, who)) == MarkAll(SortByCreation(ms), id, who)
    decreases |ms|
  {
    if ms != [] {
      var init := ms[..|ms| - 1];
      SortMarked(init, id, who);
      assert MarkAll(ms, id, who)[..|ms| - 1] == MarkAll(init, id, who);
      InsertMarked(SortByCreation(init), ms[|ms| - 1], id, who);
    }
  }

  // ----- the checks and the writes -----

  function Find(ms: seq<Milestone>, id: string): (r: Option<Milestone>)
    ensures r.Some? ==> r.value in ms && r.value.id == id
    ensures r.None? ==> forall m :: m in ms ==> m.id != id
  {
    if ms == [] then None else if ms[0].id == id then Some(ms[0]) else Find(ms[1..], id)
  }

  function InvariantError(m: Milestone, ms: seq<Milestone>): Option<Error> {
    if m.status.Validated? then Some(AlreadyValidated)
    else
      var pending := PendingOf(SortByCreation(ms));
      if pending == [] then Some(NonePending)
      else if pending[0].id != m.id then Some(MustValidateFirst(pending[0].id))
      else None
  }

  datatype Call = Call(milestone: string, verifier: string, fault: Fault)

  function RuleError(v: Vault, c: Call): Option<Error> {
    if v.status != Active then Some(VaultNotActive)
    else
      var m := Find(v.milestones, c.milestone);
      if m.None? then Some(MilestoneNotFound)
      else
        var e := InvariantError(m.value, v.milestones);
        if e.Some? then e
        else if c.verifier !in v.verifiers then Some(NotAssigned)
        else None
  }

  /** The event comes first, then the status; what follows the status does not undo it. */
  function Executed(v: Vault, c: Call): Vault {
    if c.fault == AtEvent then v
    else
      var logged := v.(events := v.events + [Event(c.milestone, c.verifier)]);
      if c.fault == AtMark then logged
      else logged.(milestones := MarkAll(v.milestones, c.milestone, c.verifier))
  }

  function Step(v: Vault, c: Call): (Vault, Option<Error>) {
    if RuleError(v, c).Some? then (v, RuleError(v, c))
    else (Executed(v, c), if c.fault == NoFault then None else Some(Failed))
  }

  class MilestoneHandler {
    var vaults: map<string, Vault>

    constructor (vaults: map<string, Vault>)
      ensures this.vaults == vaults
    {
      this.vaults := vaults;
    }

    /** The request handler on one vault; all other vaults keep their contents. */
    method Handle(vault: string, c: Call) returns (error: Option<Error>)
      modifies this
      ensures vault !in old(vaults) ==> error == Some(VaultNotFound) && vaults == old(vaults)
      ensures vault in old(vaults) ==>
        vaults.Keys == old(vaults).Keys && (vaults[vault], error) == Step(old(vaults)[vault], c)
      ensures forall other :: other in old(vaults) && other != vault ==>
        other in vaults && vaults[other] == old(vaults)[other]
    {
      error := CheckRules(vault, c);
      if error.None? {
        error := Execute(vault, c);
      }
    }

    method CheckRules(vault: string, c: Call) returns (error: Option<Error>)
      ensures error == if vault in vaults then RuleError(vaults[vault], c) else Some(VaultNotFound)
    {
      if vault !in vaults { return Some(VaultNotFound); }
      var v := vaults[vault];
      if v.status != Active { return Some(VaultNotActive); }
      var m := Find(v.milestones, c.milestone);
      if m.None? { return Some(MilestoneNotFound); }
      error := InvariantError(m.value, v.milestones);
      if error.Some? { return; }
      if c.verifier !in v.verifiers { return Some(NotAssigned); }
    }

    method Execute(vault: string, c: Call) returns (error: Option<Error>)
      requires vault in vaults
      modifies this
      ensures vaults == old(vaults)[vault := Executed(old(vaults)[vault], c)]
      ensures error == if c.fault == NoFault then None else Some(Failed)
    {
      if c.fault == AtEvent { return Some(Failed); }
      vaults := vaults[vault := vaults[vault].(events := vaults[vault].events + [Event(c.milestone, c.verifier)])];
      if c.fault == AtMark { return Some(Failed); }
      vaults := vaults[vault := vaults[vault].(milestones := MarkAll(vaults[vault].milestones, c.milestone, c.verifier))];
      if c.fault == AtPublish { return Some(Failed); }
      if c.fault == AtAudit { return Some(Failed); }
      return None;
    }
  }

  // ----- the validated milestones are a prefix of the order -----

  ghost predicate DistinctIds(ms: seq<Milestone>) {
    forall i, j :: 0 <= i < j < |ms| ==> ms[i].id != ms[j].id
  }

  /** Exactly the first k milestones in creation order are validated. */
  ghost predicate PrefixValidated(v: Vault, k: nat) {
    var order := SortByCreation(v.milestones);
    && k <= |order| && DistinctIds(order)
    && (forall i :: 0 <= i < |order| ==> (order[i].status.Validated? <==> i < k))
  }

  lemma {:induction false} PendingFrom(ms: seq<Milestone>, k: nat)
    requires k <= |ms| && forall i :: 0 <= i < |ms| ==> (ms[i].status.Validated? <==> i < k)
    ensures PendingOf(ms) == [] <==> k == |ms|
    ensures k < |ms| ==> PendingOf(ms) != [] && PendingOf(ms)[0] == ms[k]
    decreases |ms|
  {
    if k > 0 { PendingFrom(ms[1..], k - 1); }
  }

  // Where a milestone of the vault stands in the order.
  lemma FoundInOrder(v: Vault, id: string) returns (i: nat)
    requires Find(v.milestones, id).Some?
    ensures i < |SortByCreation(v.milestones)| && SortByCreation(v.milestones)[i] == Find(v.milestones, id).value
  {
    SortSameElements(v.milestones, CreationTime);
    i :| 0 <= i < |SortByCreation(v.milestones)| && SortByCreation(v.milestones)[i] == Find(v.milestones, id).value;
  }

  lemma OrderedIsFound(v: Vault, k: nat, i: nat)
    requires PrefixValidated(v, k) && i < |SortByCreation(v.milestones)|
    ensures Find(v.milestones, SortByCreation(v.milestones)[i].id) == Some(SortByCreation(v.milestones)[i])
  {
    var order := SortByCreation(v.milestones);
    SortSameElements(v.milestones, CreationTime);
    assert order[i] in order;
    var j := FoundInOrder(v, order[i].id);
    assert i == j;
  }

  /**
   Which milestone is accepted: with the first k validated, exactly the next one, by an
   assigned verifier in an active vault; everything before it is a conflict, and everything
   after it is refused with the next one's name. There is always a pending one to name.
   */
  lemma OnlyNextIsAccepted(v: Vault, k: nat, i: nat, verifier: string, fault: Fault)
    requires PrefixValidated(v, k) && i < |SortByCreation(v.milestones)| && v.status == Active
    ensures var order := SortByCreation(v.milestones);
      RuleError(v, Call(order[i].id, verifier, fault)) ==
        if i < k then Some(AlreadyValidated)
        else if i > k then Some(MustValidateFirst(order[k].id))
        else if verifier !in v.verifiers then Some(NotAssigned)
        else None
  {
    OrderedIsFound(v, k, i);
    PendingFrom(SortByCreation(v.milestones), k);
  }

  /** The order is by creation time, oldest first, with ties as listed, and holds every milestone once. */
  lemma OrderIs(ms: seq<Milestone>)
    ensures var order := SortByCreation(ms);
      && (forall i, j :: 0 <= i < j < |order| ==> order[i].createdAt <= order[j].createdAt)
      && multiset(order) == multiset(ms)
      && forall k: int :: WithKey(order, CreationTime, k) == WithKey(ms, CreationTime, k)
  {
    SortIsStable(ms, CreationTime);
  }

  /** An accepted request names a pending milestone, and no pending milestone of the vault is older. */
  lemma AcceptedIsEarliestPending(v: Vault, k: nat, c: Call, m: Milestone)
    requires PrefixValidated(v, k) && RuleError(v, c).None? && m in v.milestones && m.status.Pending?
    ensures var found := Find(v.milestones, c.milestone);
      found.Some? && found.value.id == c.milestone && found.value.status.Pending? && found.value.createdAt <= m.createdAt
  {
    var order := SortByCreation(v.milestones);
    OrderIs(v.milestones);
    AcceptedIsNext(v, k, c);
    OrderedIsFound(v, k, k);
    SortSameElements(v.milestones, CreationTime);
    var i :| 0 <= i < |order| && order[i] == m;
    assert k <= i;
  }

  /** A vault that is not active accepts nothing and never changes, whatever is requested. */
  lemma {:induction false} InactiveAcceptsNothing(v: Vault, calls: seq<Call>)
    requires v.status != Active
    ensures forall c: Call :: Step(v, c) == (v, Some(VaultNotActive))
    ensures Replay(v, calls) == v && Successes(v, calls) == []
    decreases |calls|
  {
    if calls != [] {
      InactiveAcceptsNothing(v, calls[1..]);
    }
  }

  /** Exactly which requests are accepted: the next milestone, by an assigned verifier, in an active vault. */
  lemma AcceptedIff(v: Vault, k: nat, c: Call)
    requires PrefixValidated(v, k)
    ensures RuleError(v, c).None? <==>
      && v.status == Active && c.verifier in v.verifiers
      && k < |SortByCreation(v.milestones)| && SortByCreation(v.milestones)[k].id == c.milestone
    ensures v.status == Active && (forall m :: m in v.milestones ==> m.id != c.milestone) ==>
      Step(v, c) == (v, Some(MilestoneNotFound))
  {
    if RuleError(v, c).None? {
      AcceptedIsNext(v, k, c);
      OnlyNextIsAccepted(v, k, k, c.verifier, c.fault);
    } else if k < |SortByCreation(v.milestones)| && SortByCreation(v.milestones)[k].id == c.milestone && v.status == Active {
      OnlyNextIsAccepted(v, k, k, c.verifier, c.fault);
    }
  }

  /**
   What a request writes: a refused one nothing; an accepted one its event and then the
   status of its milestone, unless a fault comes before. Success is answered without a fault
   only.
   */
  lemma StepWrites(v: Vault, c: Call, i: nat)
    requires i < |v.milestones|
    ensures var (after, error) := Step(v, c);
      && after.status == v.status && after.verifiers == v.verifiers && |after.milestones| == |v.milestones|
      && (RuleError(v, c).Some? ==> after == v && error == RuleError(v, c))
      && (RuleError(v, c).None? ==>
            && (error.None? <==> c.fault == NoFault)
            && after.events == (if c.fault == AtEvent then v.events else v.events + [Event(c.milestone, c.verifier)])
            && after.milestones[i].id == v.milestones[i].id && after.milestones[i].createdAt == v.milestones[i].createdAt
            && after.milestones[i].status ==
                 if v.milestones[i].id == c.milestone && c.fault != AtEvent && c.fault != AtMark then Validated(c.verifier)
                 else v.milestones[i].status)
  {
  }

  // What a passed check says about the requested milestone.
  lemma AcceptedIsNext(v: Vault, k: nat, c: Call)
    requires PrefixValidated(v, k) && RuleError(v, c).None?
    ensures k < |SortByCreation(v.milestones)| && SortByCreation(v.milestones)[k].id == c.milestone
  {
    var i := FoundInOrder(v, c.milestone);
    OnlyNextIsAccepted(v, k, i, c.verifier, c.fault);
  }

  // Whether the call writes the status.
  predicate Marks(v: Vault, c: Call) {
    RuleError(v, c).None? && c.fault != AtEvent && c.fault != AtMark
  }

  /** Every call, failing anywhere, keeps the validated milestones a prefix of the order. */
  lemma StepKeepsPrefix(v: Vault, k: nat, c: Call)
    requires PrefixValidated(v, k)
    ensures PrefixValidated(Step(v, c).0, if Marks(v, c) then k + 1 else k)
    ensures SortByCreation(Step(v, c).0.milestones) ==
      if Marks(v, c) then MarkAll(SortByCreation(v.milestones), c.milestone, c.verifier) else SortByCreation(v.milestones)
  {
    if Marks(v, c) {
      AcceptedIsNext(v, k, c);
      SortMarked(v.milestones, c.milestone, c.verifier);
      MarkedPrefix(SortByCreation(v.milestones), k, c.milestone, c.verifier);
    }
  }

  lemma MarkedPrefix(order: seq<Milestone>, k: nat, id: string, who: string)
    requires DistinctIds(order) && k < |order| && order[k].id == id
    requires forall i :: 0 <= i < |order| ==> (order[i].status.Validated? <==> i < k)
    ensures DistinctIds(MarkAll(order, id, who))
    ensures forall i :: 0 <= i < |order| ==> (MarkAll(order, id, who)[i].status.Validated? <==> i < k + 1)
  {
  }

  // ----- whole runs -----

  function Ids(ms: seq<Milestone>): (ids: seq<string>)
    ensures |ids| == |ms| && forall i :: 0 <= i < |ms| ==> ids[i] == ms[i].id
  {
    seq(|ms|, i requires 0 <= i < |ms| => ms[i].id)
  }

  function Replay(v: Vault, calls: seq<Call>): Vault
    decreases |calls|
  {
    if calls == [] then v else Replay(Step(v, calls[0]).0, calls[1..])
  }

  /** The milestones whose status a run writes, in the order of the writes. */
  function Writes(v: Vault, calls: seq<Call>): seq<string>
    decreases |calls|
  {
    if calls == [] then []
    else
      var rest := Writes(Step(v, calls[0]).0, calls[1..]);
      if Marks(v, calls[0]) then [calls[0].milestone] + rest else rest
  }

  /** The milestones for which a run answers with success. */
  function Successes(v: Vault, calls: seq<Call>): seq<string>
    decreases |calls|
  {
    if calls == [] then []
    else
      var rest := Successes(Step(v, calls[0]).0, calls[1..]);
      if Step(v, calls[0]).1.None? then [calls[0].milestone] + rest else rest
  }

  lemma MarkKeepsIds(ms: seq<Milestone>, id: string, who: string)
    ensures Ids(MarkAll(ms, id, who)) == Ids(ms)
  {
  }

  lemma NextId(ids: seq<string>, k: nat, m: nat)
    requires k < m <= |ids|
    ensures [ids[k]] + ids[k + 1..m] == ids[k..m]
  {
  }

  /**
   Over every run of calls on a vault, with faults anywhere, the status writes go through
   the milestones in creation order, one write each, and the vault ends with exactly that
   prefix validated.
   */
  lemma {:induction false} WritesFollowOrder(v: Vault, k: nat, calls: seq<Call>)
    requires PrefixValidated(v, k)
    ensures var n := k + |Writes(v, calls)|;
      && n <= |SortByCreation(v.milestones)|
      && Writes(v, calls) == Ids(SortByCreation(v.milestones))[k..n]
      && PrefixValidated(Replay(v, calls), n)
    decreases |calls|
  {
    hide Step, Marks, SortByCreation;
    if calls != [] {
      var c := calls[0];
      var after, order := Step(v, c).0, SortByCreation(v.milestones);
      StepKeepsPrefix(v, k, c);
      if Marks(v, c) {
        MarkedIsNext(v, k, c);
        MarkKeepsIds(order, c.milestone, c.verifier);
        WritesFollowOrder(after, k + 1, calls[1..]);
        NextId(Ids(order), k, k + 1 + |Writes(after, calls[1..])|);
      } else {
        WritesFollowOrder(after, k, calls[1..]);
      }
    }
  }

  lemma MarkedIsNext(v: Vault, k: nat, c: Call)
    requires PrefixValidated(v, k) && Marks(v, c)
    ensures k < |SortByCreation(v.milestones)| && Ids(SortByCreation(v.milestones))[k] == c.milestone
  {
    AcceptedIsNext(v, k, c);
  }

  lemma {:induction false} SuccessesAreWrites(v: Vault, calls: seq<Call>)
    ensures |Successes(v, calls)| <= |Writes(v, calls)|
    ensures (forall i :: 0 <= i < |calls| ==> calls[i].fault == NoFault) ==> Successes(v, calls) == Writes(v, calls)
    decreases |calls|
  {
    if calls != [] {
      SuccessesAreWrites(Step(v, calls[0]).0, calls[1..]);
    }
  }

  /** A vault of n pending milestones answers at most n calls with success, whatever is called. */
  lemma AtMostOneSuccessEach(v: Vault, calls: seq<Call>)
    requires PrefixValidated(v, 0)
    ensures |Successes(v, calls)| <= |v.milestones|
  {
    WritesFollowOrder(v, 0, calls);
    SortSameElements(v.milestones, CreationTime);
    SuccessesAreWrites(v, calls);
  }

  /** The calls that validate everything from the k-th milestone on, in order. */
  function InOrder(order: seq<Milestone>, k: nat, verifier: string): seq<Call>
    requires k <= |order|
    decreases |order| - k
  {
    if k == |order| then [] else [Call(order[k].id, verifier, NoFault)] + InOrder(order, k + 1, verifier)
  }

  /** And n successes are reached: an assigned verifier can validate all of them in order. */
  lemma {:induction false} AllInOrderSucceed(v: Vault, k: nat, verifier: string)
    requires PrefixValidated(v, k) && v.status == Active && verifier in v.verifiers
    ensures var order := SortByCreation(v.milestones);
      && Successes(v, InOrder(order, k, verifier)) == Ids(order)[k..]
      && PrefixValidated(Replay(v, InOrder(order, k, verifier)), |order|)
    decreases |SortByCreation(v.milestones)| - k
  {
    hide PrefixValidated, SortByCreation, Step;
    var order := SortByCreation(v.milestones);
    PrefixInBounds(v, k);
    if k < |order| {
      var c := Call(order[k].id, verifier, NoFault);
      NextSucceeds(v, k, verifier);
      var after := Step(v, c).0;
      AllInOrderSucceed(after, k + 1, verifier);
      InOrderById(order, SortByCreation(after.milestones), k + 1, verifier);
      FirstId(Ids(order), k);
    }
  }

  lemma PrefixInBounds(v: Vault, k: nat)
    requires PrefixValidated(v, k)
    ensures k <= |SortByCreation(v.milestones)|
  {
  }

  lemma FirstId(ids: seq<string>, k: nat)
    requires k < |ids|
    ensures [ids[k]] + ids[k + 1..] == ids[k..]
  {
  }

  lemma NextSucceeds(v: Vault, k: nat, verifier: string)
    requires PrefixValidated(v, k) && v.status == Active && verifier in v.verifiers && k < |SortByCreation(v.milestones)|
    ensures var order := SortByCreation(v.milestones);
      var (after, error) := Step(v, Call(order[k].id, verifier, NoFault));
      && error.None? && PrefixValidated(after, k + 1) && after.status == Active && verifier in after.verifiers
      && |SortByCreation(after.milestones)| == |order| && Ids(SortByCreation(after.milestones)) == Ids(order)
  {
    var order := SortByCreation(v.milestones);
    OnlyNextIsAccepted(v, k, k, verifier, NoFault);
    StepKeepsPrefix(v, k, Call(order[k].id, verifier, NoFault));
    MarkKeepsIds(order, order[k].id, verifier);
  }

  lemma {:induction false} InOrderById(order: seq<Milestone>, other: seq<Milestone>, k: nat, verifier: string)
    requires k <= |order| == |other| && Ids(order) == Ids(other)
    ensures InOrder(order, k, verifier) == InOrder(other, k, verifier)
    decreases |order| - k
  {
    if k < |order| {
      assert Ids(order)[k] == Ids(other)[k];
      InOrderById(order, other, k + 1, verifier);
    }
  }

  // ----- the audit trail -----

  ghost predicate Logged(v: Vault) {
    forall m: Milestone :: m in v.milestones && m.status.Validated? ==> Event(m.id, m.status.who) in v.events
  }

  /** A validated milestone always has its validation event, also when a later step failed. */
  lemma StepKeepsLogged(v: Vault, c: Call)
    requires Logged(v)
    ensures Logged(Step(v, c).0)
  {
    var after := Step(v, c).0;
    forall m: Milestone | m in after.milestones && m.status.Validated? ensures Event(m.id, m.status.who) in after.events {
      if Marks(v, c) {
        var i :| 0 <= i < |after.milestones| && after.milestones[i] == m;
        assert v.milestones[i] in v.milestones && m == Marked(v.milestones[i], c.milestone, c.verifier);
      }
    }
  }

  /** Every logged event names a milestone that its verifier has validated. */
  ghost predicate OnlyValidatedLogged(v: Vault) {
    forall e: Event :: e in v.events ==>
      exists m: Milestone :: m in v.milestones && m.id == e.milestone && m.status == Validated(e.verifier)
  }

  // The event is written and the status is not.
  predicate FaultsBetween(v: Vault, c: Call) {
    RuleError(v, c).None? && c.fault == AtMark
  }

  /**
   The converse, that only validated milestones are logged, survives a call exactly if it
   is not an accepted one with a fault between its two writes.
   */
  lemma OnlyValidatedLoggedIff(v: Vault, c: Call)
    requires DistinctIds(v.milestones) && OnlyValidatedLogged(v)
    ensures OnlyValidatedLogged(Step(v, c).0) <==> !FaultsBetween(v, c)
  {
    if RuleError(v, c).None? {
      AcceptedIsPending(v, c);
      if c.fault == AtMark {
        OrphanIsUnmatched(v, c);
      } else if Marks(v, c) {
        MarkedKeepsMatches(v, c);
      }
    }
  }

  lemma AcceptedIsPending(v: Vault, c: Call)
    requires DistinctIds(v.milestones) && RuleError(v, c).None?
    ensures exists i :: 0 <= i < |v.milestones| && v.milestones[i].id == c.milestone
    ensures forall m: Milestone :: m in v.milestones && m.id == c.milestone ==> m.status == Pending
  {
    var m := Find(v.milestones, c.milestone).value;
    var i :| 0 <= i < |v.milestones| && v.milestones[i] == m;
    forall other: Milestone | other in v.milestones && other.id == c.milestone ensures other == m {
      var j :| 0 <= j < |v.milestones| && v.milestones[j] == other;
      assert i == j;
    }
  }

  lemma OrphanIsUnmatched(v: Vault, c: Call)
    requires RuleError(v, c).None? && c.fault == AtMark
    requires forall m: Milestone :: m in v.milestones && m.id == c.milestone ==> m.status == Pending
    ensures !OnlyValidatedLogged(Step(v, c).0)
  {
    var after := Step(v, c).0;
    assert after.events[|v.events|] == Event(c.milestone, c.verifier) && after.milestones == v.milestones;
    assert Event(c.milestone, c.verifier) in after.events;
  }

  lemma MarkedKeepsMatches(v: Vault, c: Call)
    requires OnlyValidatedLogged(v) && Marks(v, c)
    requires exists i :: 0 <= i < |v.milestones| && v.milestones[i].id == c.milestone
    requires forall m: Milestone :: m in v.milestones && m.id == c.milestone ==> m.status == Pending
    ensures OnlyValidatedLogged(Step(v, c).0)
  {
    var after := Step(v, c).0;
    forall e: Event | e in after.events
      ensures exists m: Milestone :: m in after.milestones && m.id == e.milestone && m.status == Validated(e.verifier)
    {
      if e in v.events {
        var m: Milestone :| m in v.milestones && m.id == e.milestone && m.status == Validated(e.verifier);
        var i :| 0 <= i < |v.milestones| && v.milestones[i] == m;
        assert after.milestones[i] == m && after.milestones[i] in after.milestones;
      } else {
        var i :| 0 <= i < |v.milestones| && v.milestones[i].id == c.milestone;
        assert after.milestones[i].status == Validated(c.verifier) && after.milestones[i] in after.milestones;
      }
    }
  }

  /** The events a run logs, and the status writes it makes, in their order. */
  function Log(v: Vault, calls: seq<Call>): seq<Event>
    decreases |calls|
  {
    if calls == [] then []
    else
      var c, rest := calls[0], Log(Step(v, calls[0]).0, calls[1..]);
      if RuleError(v, c).None? && c.fault != AtEvent then [Event(c.milestone, c.verifier)] + rest else rest
  }

  function StatusWrites(v: Vault, calls: seq<Call>): seq<Event>
    decreases |calls|
  {
    if calls == [] then []
    else
      var c, rest := calls[0], StatusWrites(Step(v, calls[0]).0, calls[1..]);
      if Marks(v, c) then [Event(c.milestone, c.verifier)] + rest else rest
  }

  predicate EverFaultsBetween(v: Vault, calls: seq<Call>)
    decreases |calls|
  {
    calls != [] && (FaultsBetween(v, calls[0]) || EverFaultsBetween(Step(v, calls[0]).0, calls[1..]))
  }

  lemma {:induction false} LogIsAppended(v: Vault, calls: seq<Call>)
    ensures Replay(v, calls).events == v.events + Log(v, calls)
    decreases |calls|
  {
    if calls == [] {
      assert v.events + [] == v.events;
    } else {
      LogIsAppended(Step(v, calls[0]).0, calls[1..]);
    }
  }

  /**
   Over every run the audit trail grows by the log; it records exactly the status writes,
   one for one and in order, if and only if no accepted call faults between its two writes.
   */
  lemma {:induction false} LogIsWritesIff(v: Vault, calls: seq<Call>)
    ensures Log(v, calls) == StatusWrites(v, calls) <==> !EverFaultsBetween(v, calls)
    ensures |Log(v, calls)| >= |StatusWrites(v, calls)|
    ensures Replay(v, calls).events == v.events + Log(v, calls)
    decreases |calls|
  {
    LogIsAppended(v, calls);
    if calls != [] {
      LogIsWritesIff(Step(v, calls[0]).0, calls[1..]);
      if Marks(v, calls[0]) {
        var e := Event(calls[0].milestone, calls[0].verifier);
        SameHead(e, Log(Step(v, calls[0]).0, calls[1..]), StatusWrites(Step(v, calls[0]).0, calls[1..]));
      }
    }
  }

  lemma SameHead(e: Event, a: seq<Event>, b: seq<Event>)
    ensures [e] + a == [e] + b <==> a == b
  {
    assert ([e] + a)[1..] == a && ([e] + b)[1..] == b;
  }

  /** The milestone of such a fault stays pending and can be validated by a repeated request. */
  lemma FaultLeavesOrphanEvent(v: Vault, c: Call)
    requires RuleError(v, c).None? && c.fault == AtMark
    ensures var after := Step(v, c).0;
      && Event(c.milestone, c.verifier) in after.events && after.milestones == v.milestones
      && Find(after.milestones, c.milestone).value.status == Pending
      && RuleError(after, c).None?
  {
    assert Executed(v, c).events[|v.events|] == Event(c.milestone, c.verifier);
  }
}
