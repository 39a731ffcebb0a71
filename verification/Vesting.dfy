/**
 The vesting contract (src/vesting.rs): schedules, partial claims and the claim ledger.
 A panic aborts the invocation, and the host then discards everything it wrote.
 */
module Vesting {
  import opened Wrappers
  import opened Arithmetic

  const U64_MAX := 18446744073709551615

  type I128 = x: int | I128_MIN <= x <= I128_MAX
  type U64 = x: int | 0 <= x <= U64_MAX

  predicate InI128(x: int) {
    I128_MIN <= x <= I128_MAX
  }

  type Address = string

  datatype Schedule = Schedule(total: I128, start: U64, cliff: U64, end: U64, claimed: I128)

  datatype PartialClaim = PartialClaim(amount: I128, timestamp: U64, totalClaimed: I128)

  datatype Panic =
    | TotalNotPositive | InvalidTimes | NoAdmin | NotAuthorized | ScheduleExists | LedgerExists
    | AmountNotPositive | ScheduleNotFound | TotalInvalid | CursorNegative | CursorAboveTotal
    | VestedOverflow | CursorInconsistent | CursorOverflow | ExceedsVested
    | LedgerOverflow | LedgerMismatch

  // ----- the vesting curve -----

  function CalculateVested(s: Schedule, now: U64): Result<int, Panic> {
    if now < s.cliff then Success(0)
    else if now >= s.end || s.cliff == s.end then Success(s.total)
    else
      var numerator := s.total * (now - s.cliff);
      if InI128(numerator) then Success(TruncDiv(numerator, s.end - s.cliff)) else Failure(VestedOverflow)
  }

  /** What create_vesting demands of a schedule. */
  predicate WellFormed(s: Schedule) {
    s.total > 0 && s.start <= s.cliff <= s.end
  }

  lemma QuotientBelow(q: int, n: int, d: int, total: int)
    requires d > 0 && q * d <= n && n < total * d
    ensures q < total
  {
    if q >= total { MulMono(total, q, d); }
  }

  lemma QuotientMono(q: int, r: int, n: int, m: int, d: int)
    requires d > 0 && q * d <= n <= m < r * d + d
    ensures q <= r
  {
    if q > r { MulMono(r + 1, q, d); }
  }

  lemma ShareBelowTotal(total: int, elapsed: int, duration: int)
    requires total > 0 && 0 <= elapsed < duration
    ensures 0 <= TruncDiv(total * elapsed, duration) < total
  {
    ProductBelow(total, elapsed, duration);
    FloorDivision(total * elapsed, duration);
    QuotientBelow(TruncDiv(total * elapsed, duration), total * elapsed, duration, total);
  }

  /** The vested amount lies between nothing and the total, and is the total exactly from the end on. */
  lemma VestedWithinTotal(s: Schedule, now: U64)
    requires WellFormed(s) && CalculateVested(s, now).Success?
    ensures 0 <= CalculateVested(s, now).value <= s.total
    ensures CalculateVested(s, now).value == s.total <==> now >= s.end
    ensures now < s.cliff ==> CalculateVested(s, now).value == 0
  {
    if s.cliff <= now < s.end {
      ShareBelowTotal(s.total, now - s.cliff, s.end - s.cliff);
    }
  }

  lemma ProductBelow(total: int, elapsed: int, duration: int)
    requires total > 0 && 0 <= elapsed < duration
    ensures 0 <= total * elapsed < total * duration
  {
  }

  /** Between cliff and end the vested amount is the floor of the exact linear share. */
  lemma VestedIsLinear(s: Schedule, now: U64)
    requires WellFormed(s) && s.cliff <= now < s.end && CalculateVested(s, now).Success?
    ensures var v, duration := CalculateVested(s, now).value, s.end - s.cliff;
            v * duration <= s.total * (now - s.cliff) < (v + 1) * duration
  {
    ProductBelow(s.total, now - s.cliff, s.end - s.cliff);
    FloorDivision(s.total * (now - s.cliff), s.end - s.cliff);
  }

  lemma SharesGrow(total: int, before: int, after: int, duration: int)
    requires total > 0 && 0 <= before <= after && duration > 0
    ensures TruncDiv(total * before, duration) <= TruncDiv(total * after, duration)
  {
    MulMono(before, after, total);
    MulMono(0, before, total);
    FloorDivision(total * before, duration);
    FloorDivision(total * after, duration);
    QuotientMono(TruncDiv(total * before, duration), TruncDiv(total * after, duration),
                 total * before, total * after, duration);
  }

  /** The vested amount never shrinks as time passes. */
  lemma VestedIsMonotone(s: Schedule, earlier: U64, later: U64)
    requires WellFormed(s) && earlier <= later
    requires CalculateVested(s, earlier).Success? && CalculateVested(s, later).Success?
    ensures CalculateVested(s, earlier).value <= CalculateVested(s, later).value
  {
    VestedWithinTotal(s, earlier);
    VestedWithinTotal(s, later);
    if s.cliff <= earlier && later < s.end {
      SharesGrow(s.total, earlier - s.cliff, later - s.cliff, s.end - s.cliff);
    }
  }

  /**
   The checked multiplication never overflows, at any time, exactly when the total times
   one second less than the duration fits an i128.
   */
  lemma NeverOverflowsIff(s: Schedule)
    requires WellFormed(s)
    ensures (forall now: U64 :: CalculateVested(s, now).Success?) <==>
            (s.cliff < s.end ==> s.total * (s.end - s.cliff - 1) <= I128_MAX)
  {
    if s.cliff < s.end {
      var last: U64 := s.end - 1;
      assert last - s.cliff == s.end - s.cliff - 1;
      if s.total * (s.end - s.cliff - 1) <= I128_MAX {
        forall now: U64 ensures CalculateVested(s, now).Success? {
          if s.cliff <= now < s.end {
            MulMono(now - s.cliff, s.end - s.cliff - 1, s.total);
            ProductBelow(s.total, now - s.cliff, s.end - s.cliff);
          }
        }
      } else {
        assert CalculateVested(s, last).Failure?;
      }
    }
  }

  // ----- the ledger -----

  /** The sum of the amounts of the first n claims. */
  function Claimed(claims: seq<PartialClaim>, n: nat): int
    requires n <= |claims|
  {
    if n == 0 then 0 else Claimed(claims, n - 1) + claims[n - 1].amount
  }

  lemma {:induction false} ClaimedPrefix(claims: seq<PartialClaim>, more: seq<PartialClaim>, n: nat)
    requires n <= |claims|
    ensures Claimed(claims + more, n) == Claimed(claims, n)
  {
    if n > 0 { ClaimedPrefix(claims, more, n - 1); }
  }

  lemma ClaimedPushed(claims: seq<PartialClaim>, c: PartialClaim)
    ensures Claimed(claims + [c], |claims| + 1) == Claimed(claims, |claims|) + c.amount
  {
    ClaimedPrefix(claims, [c], |claims|);
  }

  // No partial sum leaves the i128 range.
  ghost predicate SumsFit(claims: seq<PartialClaim>, n: nat)
    requires n <= |claims|
  {
    forall k :: 0 <= k <= n ==> InI128(Claimed(claims, k))
  }

  /** Adds the amounts up with checked additions: fails exactly when some partial sum overflows. */
  method SumClaims(claims: seq<PartialClaim>) returns (r: Result<int, Panic>)
    ensures r == if SumsFit(claims, |claims|) then Success(Claimed(claims, |claims|)) else Failure(LedgerOverflow)
  {
    var total, i := 0, 0;
    while i < |claims|
      invariant 0 <= i <= |claims|
      invariant total == Claimed(claims, i) && SumsFit(claims, i)
    {
      var next := total + claims[i].amount;
      assert next == Claimed(claims, i + 1);
      if !InI128(next) { return Failure(LedgerOverflow); }
      total := next;
      i := i + 1;
    }
    return Success(total);
  }

  // The entry at index k fits the claims before it and the curve at its own time.
  ghost predicate EntryOk(s: Schedule, claims: seq<PartialClaim>, k: nat)
    requires k < |claims|
  {
    var vested := CalculateVested(s, claims[k].timestamp);
    && claims[k].amount > 0
    && claims[k].totalClaimed == Claimed(claims, k + 1)
    && vested.Success? && claims[k].totalClaimed <= vested.value
  }

  /** The ledger of one beneficiary agrees with the schedule. */
  ghost predicate LedgerOk(s: Schedule, claims: seq<PartialClaim>) {
    && WellFormed(s)
    && s.claimed == Claimed(claims, |claims|)
    && (forall k :: 0 <= k < |claims| ==> EntryOk(s, claims, k))
  }

  // The cursor is not part of the curve.
  lemma CurveIgnoresCursor(s: Schedule, claimed: I128, now: U64)
    ensures CalculateVested(s.(claimed := claimed), now) == CalculateVested(s, now)
  {
  }

  /** Every prefix of the ledger sums to at most the total, and so does the cursor. */
  lemma {:induction false} PrefixWithinTotal(s: Schedule, claims: seq<PartialClaim>, n: nat)
    requires LedgerOk(s, claims) && n <= |claims|
    ensures n <= Claimed(claims, n) <= s.total
    decreases n
  {
    if n > 0 {
      PrefixWithinTotal(s, claims, n - 1);
      assert EntryOk(s, claims, n - 1);
      VestedWithinTotal(s, claims[n - 1].timestamp);
    }
  }

  lemma LedgerSumFits(s: Schedule, claims: seq<PartialClaim>)
    requires LedgerOk(s, claims)
    ensures SumsFit(claims, |claims|)
    ensures 0 <= s.claimed <= s.total
  {
    forall k | 0 <= k <= |claims| ensures InI128(Claimed(claims, k)) {
      PrefixWithinTotal(s, claims, k);
    }
    PrefixWithinTotal(s, claims, |claims|);
  }

  /** At any time not before the last claim, no more has been claimed than is vested. */
  lemma ClaimedWithinVested(s: Schedule, claims: seq<PartialClaim>, now: U64)
    requires LedgerOk(s, claims) && CalculateVested(s, now).Success?
    requires claims != [] ==> claims[|claims| - 1].timestamp <= now
    ensures 0 <= s.claimed <= CalculateVested(s, now).value <= s.total
  {
    LedgerSumFits(s, claims);
    VestedWithinTotal(s, now);
    if claims != [] {
      assert EntryOk(s, claims, |claims| - 1);
      VestedIsMonotone(s, claims[|claims| - 1].timestamp, now);
    }
  }

  lemma PushKeepsLedger(s: Schedule, claims: seq<PartialClaim>, amount: I128, now: U64, next: I128)
    requires LedgerOk(s, claims) && amount > 0 && next == s.claimed + amount
    requires CalculateVested(s, now).Success? && next <= CalculateVested(s, now).value
    ensures LedgerOk(s.(claimed := next), claims + [PartialClaim(amount, now, next)])
  {
    var c := PartialClaim(amount, now, next);
    var s', claims' := s.(claimed := next), claims + [c];
    ClaimedPushed(claims, c);
    forall k | 0 <= k < |claims'| ensures EntryOk(s', claims', k) {
      if k < |claims| {
        assert EntryOk(s, claims, k);
        ClaimedPrefix(claims, [c], k + 1);
        CurveIgnoresCursor(s, next, claims[k].timestamp);
      } else {
        CurveIgnoresCursor(s, next, now);
      }
    }
  }

  // ----- the contract state and its calls -----

  datatype State = State(
    admin: Option<Address>,
    schedules: map<Address, Schedule>,
    ledgers: map<Address, seq<PartialClaim>>)

  function LedgerOf(st: State, b: Address): seq<PartialClaim> {
    if b in st.ledgers then st.ledgers[b] else []
  }

  /** The invariant of every reachable state. */
  ghost predicate Inv(st: State) {
    && (forall b: Address :: b in st.ledgers ==> b in st.schedules)
    && (forall b: Address :: b in st.schedules ==> LedgerOk(st.schedules[b], LedgerOf(st, b)))
  }

  datatype Call =
    | Initialize(newAdmin: Address)
    | CreateVesting(beneficiary: Address, total: I128, start: U64, cliff: U64, end: U64, adminAuth: bool)
    | Claim(beneficiary: Address, amount: I128, auth: bool)

  function CreateError(st: State, c: Call): Option<Panic>
    requires c.CreateVesting?
  {
    if c.total <= 0 then Some(TotalNotPositive)
    else if !(c.start <= c.cliff <= c.end) then Some(InvalidTimes)
    else if st.admin.None? then Some(NoAdmin)
    else if !c.adminAuth then Some(NotAuthorized)
    else if c.beneficiary in st.schedules then Some(ScheduleExists)
    else if c.beneficiary in st.ledgers then Some(LedgerExists)
    else None
  }

  /** The checks of claim in their order, up to the write. */
  function ClaimError(st: State, c: Call, now: U64): Option<Panic>
    requires c.Claim?
  {
    if !c.auth then Some(NotAuthorized)
    else if c.amount <= 0 then Some(AmountNotPositive)
    else if c.beneficiary !in st.schedules then Some(ScheduleNotFound)
    else
      var s, claims := st.schedules[c.beneficiary], LedgerOf(st, c.beneficiary);
      if s.total <= 0 then Some(TotalInvalid)
      else if s.claimed < 0 then Some(CursorNegative)
      else if s.claimed > s.total then Some(CursorAboveTotal)
      else
        var vested := CalculateVested(s, now);
        if vested.Failure? then Some(vested.error)
        else if claims != [] && claims[|claims| - 1].totalClaimed != s.claimed then Some(CursorInconsistent)
        else if !InI128(s.claimed + c.amount) then Some(CursorOverflow)
        else if vested.value < s.claimed + c.amount then Some(ExceedsVested)
        else None
  }

  function Claiming(st: State, c: Call, now: U64): State
    requires c.Claim? && ClaimError(st, c, now).None?
  {
    var s := st.schedules[c.beneficiary];
    var next := s.claimed + c.amount;
    st.(schedules := st.schedules[c.beneficiary := s.(claimed := next)],
        ledgers := st.ledgers[c.beneficiary := LedgerOf(st, c.beneficiary) + [PartialClaim(c.amount, now, next)]])
  }

  function Creating(st: State, c: Call): State
    requires c.CreateVesting? && CreateError(st, c).None?
  {
    st.(schedules := st.schedules[c.beneficiary := Schedule(c.total, c.start, c.cliff, c.end, 0)])
  }

  function Apply(st: State, c: Call, now: U64): State {
    match c
    case Initialize(newAdmin) => st.(admin := Some(newAdmin))
    case CreateVesting(_, _, _, _, _, _) => if CreateError(st, c).None? then Creating(st, c) else st
    case Claim(_, _, _) => if ClaimError(st, c, now).None? then Claiming(st, c, now) else st
  }

  class VestingContract {
    var admin: Option<Address>
    var schedules: map<Address, Schedule>
    var ledgers: map<Address, seq<PartialClaim>>

    constructor ()
      ensures Contents() == State(None, map[], map[]) && Inv(Contents())
    {
      admin, schedules, ledgers := None, map[], map[];
    }

    ghost function Contents(): State
      reads this
    {
      State(admin, schedules, ledgers)
    }

    method Initialize(newAdmin: Address)
      modifies this`admin
      ensures Contents() == Apply(old(Contents()), Call.Initialize(newAdmin), 0)
    {
      admin := Some(newAdmin);
    }

    method CreateVesting(beneficiary: Address, total: I128, start: U64, cliff: U64, end: U64, adminAuth: bool)
      returns (panic: Option<Panic>)
      requires Inv(Contents())
      modifies this
      ensures panic == CreateError(old(Contents()), Call.CreateVesting(beneficiary, total, start, cliff, end, adminAuth))
      ensures Contents() ==
        Apply(old(Contents()), Call.CreateVesting(beneficiary, total, start, cliff, end, adminAuth), 0)
      ensures panic.None? ==> schedules == old(schedules)[beneficiary := Schedule(total, start, cliff, end, 0)]
      ensures Inv(Contents())
    {
      ghost var call := Call.CreateVesting(beneficiary, total, start, cliff, end, adminAuth);
      ApplyKeepsInv(Contents(), call, 0);
      if total <= 0 { return Some(TotalNotPositive); }
      if !(start <= cliff <= end) { return Some(InvalidTimes); }
      if admin.None? { return Some(NoAdmin); }
      if !adminAuth { return Some(NotAuthorized); }
      if beneficiary in schedules { return Some(ScheduleExists); }
      if beneficiary in ledgers { return Some(LedgerExists); }
      schedules := schedules[beneficiary := Schedule(total, start, cliff, end, 0)];
      return None;
    }

    /** Claims an amount. In a reachable state no panic follows the writes. */
    method Claim(beneficiary: Address, amount: I128, auth: bool, now: U64) returns (panic: Option<Panic>)
      requires Inv(Contents())
      modifies this
      ensures panic == ClaimError(old(Contents()), Call.Claim(beneficiary, amount, auth), now)
      ensures Contents() == Apply(old(Contents()), Call.Claim(beneficiary, amount, auth), now)
      ensures Inv(Contents())
    {
      ghost var before, call := Contents(), Call.Claim(beneficiary, amount, auth);
      ApplyKeepsInv(before, call, now);
      if !auth { return Some(NotAuthorized); }
      if amount <= 0 { return Some(AmountNotPositive); }
      if beneficiary !in schedules { return Some(ScheduleNotFound); }
      var schedule := schedules[beneficiary];
      if schedule.total <= 0 { return Some(TotalInvalid); }
      if schedule.claimed < 0 { return Some(CursorNegative); }
      if schedule.claimed > schedule.total { return Some(CursorAboveTotal); }
      var vested := CalculateVested(schedule, now);
      if vested.Failure? { return Some(vested.error); }
      var claims := if beneficiary in ledgers then ledgers[beneficiary] else [];
      if claims != [] && claims[|claims| - 1].totalClaimed != schedule.claimed { return Some(CursorInconsistent); }
      if !InI128(schedule.claimed + amount) { return Some(CursorOverflow); }
      var next := schedule.claimed + amount;
      if vested.value < next { return Some(ExceedsVested); }
      claims := claims + [PartialClaim(amount, now, next)];
      schedule := schedule.(claimed := next);
      assert LedgerOk(schedule, claims) by {
        assert Claiming(before, call, now).schedules[beneficiary] == schedule;
        assert LedgerOf(Claiming(before, call, now), beneficiary) == claims;
      }
      LedgerSumFits(schedule, claims);
      panic := Record(beneficiary, schedule, claims);
    }

    /** Writes ledger and schedule, then reconciles them; a mismatch panics and discards the writes. */
    method Record(beneficiary: Address, schedule: Schedule, claims: seq<PartialClaim>) returns (panic: Option<Panic>)
      modifies this`schedules, this`ledgers
      ensures panic ==
        if !SumsFit(claims, |claims|) then Some(LedgerOverflow)
        else if Claimed(claims, |claims|) != schedule.claimed then Some(LedgerMismatch)
        else None
      ensures Contents() ==
        if panic.Some? then old(Contents())
        else old(Contents()).(schedules := old(schedules)[beneficiary := schedule],
                              ledgers := old(ledgers)[beneficiary := claims])
    {
      var oldSchedules, oldLedgers := schedules, ledgers;
      ledgers := ledgers[beneficiary := claims];
      schedules := schedules[beneficiary := schedule];
      var sum := SumClaims(claims);
      if sum == Success(schedule.claimed as int) { return None; }
      schedules, ledgers := oldSchedules, oldLedgers;
      panic := Some(if sum.Failure? then sum.error else LedgerMismatch);
    }
  }

  // ----- theorems -----

  lemma ClaimKeepsInv(st: State, c: Call, now: U64)
    requires Inv(st) && c.Claim? && ClaimError(st, c, now).None?
    ensures Inv(Claiming(st, c, now))
  {
    var b := c.beneficiary;
    var s := st.schedules[b];
    PushKeepsLedger(s, LedgerOf(st, b), c.amount, now, s.claimed + c.amount);
    var after := Claiming(st, c, now);
    forall d: Address | d in after.schedules ensures LedgerOk(after.schedules[d], LedgerOf(after, d)) {
      if d != b { assert LedgerOf(after, d) == LedgerOf(st, d); }
    }
  }

  /** Every call keeps the invariant, at any ledger time. */
  lemma ApplyKeepsInv(st: State, c: Call, now: U64)
    requires Inv(st)
    ensures Inv(Apply(st, c, now))
  {
    match c
    case Initialize(_) =>
      forall b: Address | b in st.schedules ensures LedgerOf(Apply(st, c, now), b) == LedgerOf(st, b) {}
    case CreateVesting(b, _, _, _, _, _) =>
      if CreateError(st, c).None? {
        var after := Creating(st, c);
        forall d: Address | d in after.schedules ensures LedgerOk(after.schedules[d], LedgerOf(after, d)) {
          if d != b { assert LedgerOf(after, d) == LedgerOf(st, d); }
        }
      }
    case Claim(b, _, _) =>
      if ClaimError(st, c, now).None? { ClaimKeepsInv(st, c, now); }
  }

  /**
   The exact outcome of a claim in a reachable state: the cursor, last-entry and total
   assertions never fire.
   */
  lemma ClaimOutcome(st: State, c: Call, now: U64)
    requires Inv(st) && c.Claim?
    ensures var b := c.beneficiary;
      ClaimError(st, c, now) ==
        if !c.auth then Some(NotAuthorized)
        else if c.amount <= 0 then Some(AmountNotPositive)
        else if b !in st.schedules then Some(ScheduleNotFound)
        else if CalculateVested(st.schedules[b], now).Failure? then Some(VestedOverflow)
        else if st.schedules[b].claimed + c.amount > I128_MAX then Some(CursorOverflow)
        else if st.schedules[b].claimed + c.amount > CalculateVested(st.schedules[b], now).value then Some(ExceedsVested)
        else None
  {
    var b := c.beneficiary;
    if b in st.schedules {
      var s, claims := st.schedules[b], LedgerOf(st, b);
      LedgerSumFits(s, claims);
      if claims != [] { assert EntryOk(s, claims, |claims| - 1); }
    }
  }

  /**
   In a reachable state a schedule is created exactly for positive totals and ordered
   times, by the administrator, once a beneficiary; the ledger check never fires.
   */
  lemma CreateOutcome(st: State, c: Call)
    requires Inv(st) && c.CreateVesting?
    ensures CreateError(st, c).None? <==>
      && c.total > 0 && c.start <= c.cliff <= c.end && st.admin.Some? && c.adminAuth && c.beneficiary !in st.schedules
    ensures CreateError(st, c) != Some(LedgerExists)
  {
  }

  // The terms of every schedule stay, and every ledger only grows.
  ghost predicate Preserves(st: State, after: State) {
    forall b: Address :: b in st.schedules ==>
      && b in after.schedules
      && after.schedules[b] == st.schedules[b].(claimed := after.schedules[b].claimed)
      && LedgerOf(st, b) <= LedgerOf(after, b)
  }

  lemma ApplyPreserves(st: State, c: Call, now: U64)
    ensures Preserves(st, Apply(st, c, now))
  {
    forall b: Address | b in st.schedules
      ensures LedgerOf(st, b) <= LedgerOf(Apply(st, c, now), b)
    {
    }
  }

  lemma PreservesMore(a: State, b: State, c: State)
    requires Preserves(a, b) && Preserves(b, c)
    ensures Preserves(a, c)
  {
    forall d: Address | d in a.schedules ensures LedgerOf(a, d) <= LedgerOf(c, d) {
      assert LedgerOf(a, d) <= LedgerOf(b, d) <= LedgerOf(c, d);
    }
  }

  /** No run of calls changes the terms of a schedule or takes back a ledger entry. */
  lemma {:induction false} RunsPreserve(st: State, calls: seq<Timed>)
    ensures Preserves(st, Replay(st, calls))
    decreases |calls|
  {
    if calls != [] {
      var next := Apply(st, calls[0].call, calls[0].now);
      ApplyPreserves(st, calls[0].call, calls[0].now);
      RunsPreserve(next, calls[1..]);
      PreservesMore(st, next, Replay(next, calls[1..]));
    }
  }

  datatype Timed = Timed(call: Call, now: U64)

  function Replay(st: State, calls: seq<Timed>): State
    decreases |calls|
  {
    if calls == [] then st else Replay(Apply(st, calls[0].call, calls[0].now), calls[1..])
  }

  predicate TimeMovesOn(calls: seq<Timed>, from: U64) {
    && (forall i :: 0 <= i < |calls| ==> from <= calls[i].now)
    && (forall i, j :: 0 <= i < j < |calls| ==> calls[i].now <= calls[j].now)
  }

  // No entry of any ledger is later than the given time.
  ghost predicate NotAfter(st: State, now: U64) {
    forall b: Address, k :: b in st.ledgers && 0 <= k < |st.ledgers[b]| ==> st.ledgers[b][k].timestamp <= now
  }

  lemma ApplyKeepsTimes(st: State, c: Call, from: U64, now: U64)
    requires NotAfter(st, from) && from <= now
    ensures NotAfter(Apply(st, c, now), now)
  {
    var after := Apply(st, c, now);
    forall b: Address, k | b in after.ledgers && 0 <= k < |after.ledgers[b]| ensures after.ledgers[b][k].timestamp <= now {
      assert b in st.ledgers && k < |st.ledgers[b]| ==> st.ledgers[b][k].timestamp <= from;
    }
  }

  lemma {:induction false} ReplayKeepsInv(st: State, calls: seq<Timed>, from: U64, now: U64)
    requires Inv(st) && NotAfter(st, from) && TimeMovesOn(calls, from)
    requires from <= now && (calls != [] ==> calls[|calls| - 1].now <= now)
    ensures Inv(Replay(st, calls)) && NotAfter(Replay(st, calls), now)
    decreases |calls|
  {
    if calls != [] {
      hide Apply;
      ApplyKeepsInv(st, calls[0].call, calls[0].now);
      ApplyKeepsTimes(st, calls[0].call, from, calls[0].now);
      ReplayKeepsInv(Apply(st, calls[0].call, calls[0].now), calls[1..], calls[0].now, now);
    }
  }

  /**
   Over every run of calls with time moving on: whatever is claimed is vested by then, and
   the ledger records it claim by claim.
   */
  lemma RunsNeverOverpay(calls: seq<Timed>, now: U64, b: Address)
    requires TimeMovesOn(calls, 0) && (calls != [] ==> calls[|calls| - 1].now <= now)
    ensures var st := Replay(State(None, map[], map[]), calls);
      b in st.schedules ==>
        var s, claims := st.schedules[b], LedgerOf(st, b);
        && s.claimed == Claimed(claims, |claims|) <= s.total
        && (forall k :: 0 <= k < |claims| ==> claims[k].totalClaimed == Claimed(claims, k + 1))
        && (CalculateVested(s, now).Success? ==> s.claimed <= CalculateVested(s, now).value)
  {
    var st := Replay(State(None, map[], map[]), calls);
    ReplayKeepsInv(State(None, map[], map[]), calls, 0, now);
    if b in st.schedules {
      var s, claims := st.schedules[b], LedgerOf(st, b);
      LedgerSumFits(s, claims);
      forall k | 0 <= k < |claims| ensures claims[k].totalClaimed == Claimed(claims, k + 1) {
        assert EntryOk(s, claims, k);
      }
      if CalculateVested(s, now).Success? { ClaimedWithinVested(s, claims, now); }
    }
  }

  /**
   From the end time on, claiming the remainder succeeds and brings the ledger to exactly
   the total; after that no claim is accepted at any time.
   */
  lemma RemainderPaysTotal(st: State, b: Address, amount: I128, now: U64)
    requires Inv(st) && b in st.schedules && now >= st.schedules[b].end
    requires amount > 0 && amount == st.schedules[b].total - st.schedules[b].claimed
    ensures ClaimError(st, Call.Claim(b, amount, true), now).None?
    ensures var after := Claiming(st, Call.Claim(b, amount, true), now);
      Claimed(after.ledgers[b], |after.ledgers[b]|) == after.schedules[b].claimed == after.schedules[b].total
      && after.schedules[b].total == st.schedules[b].total
    ensures forall more: I128, auth, later: U64 ::
      ClaimError(Claiming(st, Call.Claim(b, amount, true), now), Call.Claim(b, more, auth), later).Some?
  {
    var c := Call.Claim(b, amount, true);
    ClaimOutcome(st, c, now);
    ClaimKeepsInv(st, c, now);
    var after := Claiming(st, c, now);
    forall more: I128, auth, later: U64 ensures ClaimError(after, Call.Claim(b, more, auth), later).Some? {
      PaidOutStaysPaidOut(after, b, more, auth, later);
    }
  }

  lemma PaidOutStaysPaidOut(st: State, b: Address, more: I128, auth: bool, later: U64)
    requires Inv(st) && b in st.schedules && st.schedules[b].claimed == st.schedules[b].total
    ensures ClaimError(st, Call.Claim(b, more, auth), later).Some?
  {
    ClaimOutcome(st, Call.Claim(b, more, auth), later);
    if CalculateVested(st.schedules[b], later).Success? {
      VestedWithinTotal(st.schedules[b], later);
    }
  }

  /** Splitting a claim in two at the same time is accepted exactly when the whole is, and moves the cursor alike. */
  lemma SplitClaim(st: State, b: Address, first: I128, second: I128, now: U64)
    requires Inv(st) && first > 0 && second > 0 && InI128(first + second)
    ensures var one := Call.Claim(b, first, true);
      var two := Call.Claim(b, second, true);
      var whole := Call.Claim(b, first + second, true);
      && (ClaimError(st, whole, now).None? <==>
          ClaimError(st, one, now).None? && ClaimError(Claiming(st, one, now), two, now).None?)
      && (ClaimError(st, whole, now).None? ==>
          Apply(st, whole, now).schedules == Apply(Apply(st, one, now), two, now).schedules)
  {
    hide Inv, CalculateVested;
    var one, two, whole := Call.Claim(b, first, true), Call.Claim(b, second, true), Call.Claim(b, first + second, true);
    SplitOutcomes(st, one, whole, now);
    if ClaimError(st, one, now).None? {
      ClaimKeepsInv(st, one, now);
      ClaimOutcome(Claiming(st, one, now), two, now);
      CurveIgnoresCursor(st.schedules[b], st.schedules[b].claimed + first, now);
    }
  }

  // If the whole is accepted, so is the first part.
  lemma SplitOutcomes(st: State, one: Call, whole: Call, now: U64)
    requires Inv(st) && one.Claim? && whole.Claim? && one.beneficiary == whole.beneficiary && one.auth && whole.auth
    requires 0 < one.amount < whole.amount
    ensures ClaimError(st, whole, now).None? ==> ClaimError(st, one, now).None?
    ensures ClaimError(st, one, now).None? ==>
      (ClaimError(st, whole, now).None? <==>
       st.schedules[one.beneficiary].claimed + whole.amount <= CalculateVested(st.schedules[one.beneficiary], now).value)
  {
    var b := one.beneficiary;
    ClaimOutcome(st, one, now);
    ClaimOutcome(st, whole, now);
    if b in st.schedules && CalculateVested(st.schedules[b], now).Success? {
      assert LedgerOk(st.schedules[b], LedgerOf(st, b));
      VestedWithinTotal(st.schedules[b], now);
    }
  }
}
