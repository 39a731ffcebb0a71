/**
 The vesting contract in the terms its administrator has given (src/vesting.rs): what
 create_vesting stores, and what can be claimed of it over every later run.
 */
module VestingTerms {
  import opened Wrappers
  import opened Arithmetic
  import opened Vesting

  // The schedule stored for the beneficiary has the terms of the call.
  ghost predicate HasTerms(st: State, c: Call)
    requires c.CreateVesting?
  {
    && c.beneficiary in st.schedules
    && var s := st.schedules[c.beneficiary];
       s.total == c.total && s.start == c.start && s.cliff == c.cliff && s.end == c.end
  }

  /** An accepted call stores its total, start, cliff and end with nothing claimed, and no other schedule changes. */
  lemma CreateWrites(st: State, c: Call, now: U64)
    requires Inv(st) && c.CreateVesting? && CreateError(st, c).None?
    ensures var after := Apply(st, c, now);
      && HasTerms(after, c) && after.schedules[c.beneficiary].claimed == 0 && LedgerOf(after, c.beneficiary) == []
      && after.schedules == st.schedules[c.beneficiary := after.schedules[c.beneficiary]]
      && after.ledgers == st.ledgers && after.admin == st.admin
  {
  }

  /** An accepted claim adds the amount to the cursor and one entry to the ledger, and touches no other beneficiary. */
  lemma ClaimWrites(st: State, c: Call, now: U64, other: Address)
    requires Inv(st) && c.Claim? && ClaimError(st, c, now).None?
    ensures var b, after := c.beneficiary, Apply(st, c, now);
      && b in st.schedules && b in after.schedules
      && after.schedules[b] == st.schedules[b].(claimed := after.schedules[b].claimed)
      && after.schedules[b].claimed == st.schedules[b].claimed + c.amount
      && LedgerOf(after, b) == LedgerOf(st, b) + [PartialClaim(c.amount, now, st.schedules[b].claimed + c.amount)]
      && (other != b ==> LedgerOf(after, other) == LedgerOf(st, other)
                         && (other in after.schedules <==> other in st.schedules)
                         && (other in st.schedules ==> after.schedules[other] == st.schedules[other]))
  {
  }

  /** Refused calls write nothing. */
  lemma RefusalWritesNothing(st: State, c: Call, now: U64)
    ensures c.CreateVesting? && CreateError(st, c).Some? ==> Apply(st, c, now) == st
    ensures c.Claim? && ClaimError(st, c, now).Some? ==> Apply(st, c, now) == st
  {
  }

  // A state that a run reaches after an accepted creation.
  ghost predicate RunsOn(st: State, c: Call, from: U64, calls: seq<Timed>, now: U64) {
    && Inv(st) && NotAfter(st, from) && c.CreateVesting? && CreateError(st, c).None?
    && TimeMovesOn(calls, from) && from <= now && (calls != [] ==> calls[|calls| - 1].now <= now)
  }

  lemma RunKeepsTerms(st: State, c: Call, from: U64, calls: seq<Timed>, now: U64)
    requires RunsOn(st, c, from, calls, now)
    ensures var after := Replay(Apply(st, c, from), calls);
      HasTerms(after, c) && Inv(after) && NotAfter(after, now)
  {
    CreateWrites(st, c, from);
    ApplyKeepsInv(st, c, from);
    ApplyKeepsTimes(st, c, from, from);
    ReplayKeepsInv(Apply(st, c, from), calls, from, now);
    RunsPreserve(Apply(st, c, from), calls);
  }

  // Whether so much may have been claimed by now: the exact linear share, without any rounding.
  predicate WithinShare(c: Call, claimed: int, now: int)
    requires c.CreateVesting?
  {
    if now < c.cliff then claimed == 0
    else if now >= c.end then claimed <= c.total
    else claimed * (c.end - c.cliff) <= c.total * (now - c.cliff)
  }

  /**
   Over every run after an accepted creation the terms stay as given, and what has been
   claimed is within the linear share of that total between that cliff and that end.
   */
  lemma ClaimsStayWithinTerms(st: State, c: Call, from: U64, calls: seq<Timed>, now: U64)
    requires RunsOn(st, c, from, calls, now)
    ensures var after := Replay(Apply(st, c, from), calls);
      && HasTerms(after, c)
      && 0 <= after.schedules[c.beneficiary].claimed <= c.total
      && after.schedules[c.beneficiary].claimed == Claimed(LedgerOf(after, c.beneficiary), |LedgerOf(after, c.beneficiary)|)
      && WithinShare(c, after.schedules[c.beneficiary].claimed, now)
  {
    RunKeepsTerms(st, c, from, calls, now);
    hide Replay, Apply;
    LedgerWithinShare(Replay(Apply(st, c, from), calls), c, now);
  }

  lemma LedgerWithinShare(st: State, c: Call, now: U64)
    requires Inv(st) && NotAfter(st, now) && c.CreateVesting? && HasTerms(st, c)
    ensures var s, claims := st.schedules[c.beneficiary], LedgerOf(st, c.beneficiary);
      0 <= s.claimed <= c.total && s.claimed == Claimed(claims, |claims|) && WithinShare(c, s.claimed, now)
  {
    var s, claims := st.schedules[c.beneficiary], LedgerOf(st, c.beneficiary);
    PrefixWithinTotal(s, claims, |claims|);
    if claims != [] {
      var last := claims[|claims| - 1];
      assert EntryOk(s, claims, |claims| - 1) && last.timestamp <= now;
      EntryWithinShare(c, s, last.timestamp, s.claimed, now);
    }
  }

  lemma EntryWithinShare(c: Call, s: Schedule, at: U64, claimed: int, now: U64)
    requires c.CreateVesting? && WellFormed(s) && at <= now && 0 < claimed
    requires s.total == c.total && s.start == c.start && s.cliff == c.cliff && s.end == c.end
    requires CalculateVested(s, at).Success? && claimed <= CalculateVested(s, at).value
    ensures WithinShare(c, claimed, now)
  {
    VestedWithinTotal(s, at);
    if c.cliff <= now < c.end {
      VestedIsLinear(s, at);
      MulMono(claimed, CalculateVested(s, at).value, s.end - s.cliff);
      MulMono(at - s.cliff, now - s.cliff, s.total);
    }
  }

  /**
   What a claim comes to, in the given terms: nothing before that cliff; between cliff and
   end what the linear share covers, if its numerator fits an i128; from that end on what
   is left of that total.
   */
  lemma ClaimAcceptedIff(st: State, c: Call, from: U64, calls: seq<Timed>, now: U64, amount: I128, auth: bool)
    requires RunsOn(st, c, from, calls, now)
    ensures var after := Replay(Apply(st, c, from), calls);
      && HasTerms(after, c)
      && var next := after.schedules[c.beneficiary].claimed + amount;
         ClaimError(after, Call.Claim(c.beneficiary, amount, auth), now).None? <==>
           && auth && amount > 0 && now >= c.cliff
           && (if now >= c.end then next <= c.total
               else c.total * (now - c.cliff) <= I128_MAX && next * (c.end - c.cliff) <= c.total * (now - c.cliff))
  {
    RunKeepsTerms(st, c, from, calls, now);
    var after := Replay(Apply(st, c, from), calls);
    var s := after.schedules[c.beneficiary];
    ClaimOutcome(after, Call.Claim(c.beneficiary, amount, auth), now);
    LedgerSumFits(s, LedgerOf(after, c.beneficiary));
    if c.cliff <= now < c.end {
      ProductBelow(s.total, now - s.cliff, s.end - s.cliff);
      if CalculateVested(s, now).Success? {
        VestedWithinTotal(s, now);
        VestedIsLinear(s, now);
        CoveredIff(s.claimed + amount, CalculateVested(s, now).value, s.end - s.cliff, s.total * (now - s.cliff));
      }
    }
  }

  lemma CoveredIff(next: int, vested: int, duration: int, numerator: int)
    requires duration > 0 && vested * duration <= numerator < (vested + 1) * duration
    ensures next <= vested <==> next * duration <= numerator
  {
    if next <= vested {
      MulMono(next, vested, duration);
    } else {
      MulMono(vested + 1, next, duration);
    }
  }

  /** From that end on the remainder can be claimed, and brings the beneficiary to exactly that total. */
  lemma RemainderPaysGivenTotal(st: State, c: Call, from: U64, calls: seq<Timed>, now: U64, amount: I128)
    requires RunsOn(st, c, from, calls, now) && now >= c.end && amount > 0
    ensures var after := Replay(Apply(st, c, from), calls);
      && HasTerms(after, c)
      && var claim := Call.Claim(c.beneficiary, amount, true);
         amount == c.total - after.schedules[c.beneficiary].claimed ==>
           && ClaimError(after, claim, now).None?
           && c.beneficiary in Apply(after, claim, now).schedules
           && Apply(after, claim, now).schedules[c.beneficiary].claimed == c.total
  {
    ClaimAcceptedIff(st, c, from, calls, now, amount, true);
  }

  /** initialize sets the administrator and nothing else. */
  lemma InitializeWrites(st: State, newAdmin: Address, now: U64)
    ensures var after := Apply(st, Call.Initialize(newAdmin), now);
      after.admin == Some(newAdmin) && after.schedules == st.schedules && after.ledgers == st.ledgers
  {
  }

  /** From then on the administrator can create a schedule for every new beneficiary, in every later state. */
  lemma {:induction false} AdministratorCanCreate(st: State, calls: seq<Timed>, c: Call)
    requires Inv(st) && st.admin.Some? && c.CreateVesting? && c.adminAuth
    requires c.total > 0 && c.start <= c.cliff <= c.end
    ensures var after := Replay(st, calls);
      Inv(after) && after.admin.Some? && (c.beneficiary !in after.schedules ==> CreateError(after, c).None?)
    decreases |calls|
  {
    if calls != [] {
      ApplyKeepsInv(st, calls[0].call, calls[0].now);
      AdministratorCanCreate(Apply(st, calls[0].call, calls[0].now), calls[1..], c);
    } else {
      CreateOutcome(st, c);
    }
  }

  /** Why a creation is refused: the first check that fails. */
  lemma CreateRefusal(st: State, c: Call)
    requires Inv(st) && c.CreateVesting?
    ensures CreateError(st, c) ==
      if c.total <= 0 then Some(TotalNotPositive)
      else if c.cliff < c.start || c.end < c.cliff then Some(InvalidTimes)
      else if st.admin == None then Some(NoAdmin)
      else if !c.adminAuth then Some(NotAuthorized)
      else if c.beneficiary in st.schedules then Some(ScheduleExists)
      else None
  {
  }
}
