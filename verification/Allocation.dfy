/**
 Splitting a revenue amount over investors (src/services/distributionEngine.ts).

 Money is an integer number of cents. Balances are integers: only their ratios
 matter, so any finite list of fractions can be brought to this form by scaling.
 Balances may be zero or negative, as in the source, which only checks their sum.
 */
module Allocation {
  import opened Arithmetic

  datatype Balance = Balance(investor: string, units: int)

  datatype Payout = Payout(investor: string, cents: int)

  function Sum(xs: seq<int>): int {
    if xs == [] then 0 else Sum(xs[..|xs| - 1]) + xs[|xs| - 1]
  }

  function Units(balances: seq<Balance>): seq<int> {
    seq(|balances|, i requires 0 <= i < |balances| => balances[i].units)
  }

  function Cents(payouts: seq<Payout>): seq<int> {
    seq(|payouts|, i requires 0 <= i < |payouts| => payouts[i].cents)
  }

  function TotalUnits(balances: seq<Balance>): int {
    Sum(Units(balances))
  }

  // Math.round of the share in cents: half a cent rounds up, also below zero.
  function RoundShare(units: int, total: int, revenue: int): int
    requires total > 0
  {
    (2 * units * revenue + total) / (2 * total)
  }

  function Rounded(units: seq<int>, total: int, revenue: int): seq<int>
    requires total > 0
  {
    seq(|units|, i requires 0 <= i < |units| => RoundShare(units[i], total, revenue))
  }

  /** The first position that holds a largest element. */
  function FirstMax(xs: seq<int>): (m: nat)
    requires xs != []
    ensures m < |xs|
    ensures forall i :: 0 <= i < |xs| ==> xs[i] <= xs[m]
    ensures forall i :: 0 <= i < m ==> xs[i] < xs[m]
  {
    var n := |xs| - 1;
    if n == 0 then 0
    else
      var m := FirstMax(xs[..n]);
      assert forall i :: 0 <= i < n ==> xs[..n][i] == xs[i];
      if xs[n] > xs[m] then n else m
  }

  /** What the engine pays: rounded shares, with the residue on the first largest share. */
  function Allocate(units: seq<int>, revenue: int): (amounts: seq<int>)
    requires Sum(units) > 0
    ensures |amounts| == |units|
  {
    var rounded := Rounded(units, Sum(units), revenue);
    var residue := revenue - Sum(rounded);
    if residue == 0 then rounded
    else
      var m := FirstMax(units);
      rounded[m := rounded[m] + residue]
  }

  function PlanOf(balances: seq<Balance>, amounts: seq<int>): seq<Payout>
    requires |amounts| == |balances|
  {
    seq(|balances|, i requires 0 <= i < |balances| => Payout(balances[i].investor, amounts[i]))
  }

  function Plan(balances: seq<Balance>, revenue: int): seq<Payout>
    requires TotalUnits(balances) > 0
  {
    PlanOf(balances, Allocate(Units(balances), revenue))
  }

  // ----- the computation of the source -----

  method SumOf(xs: seq<int>) returns (s: int)
    ensures s == Sum(xs)
  {
    s := 0;
    for i := 0 to |xs|
      invariant s == Sum(xs[..i])
    {
      assert xs[..i + 1][..i] == xs[..i];
      s := s + xs[i];
    }
    assert xs[..|xs|] == xs;
  }

  /** Step 4 of distributeWithBatch: shares, rounding, and the max-share adjustment. */
  method ComputePlan(balances: seq<Balance>, revenue: int) returns (plan: seq<Payout>)
    requires TotalUnits(balances) > 0
    ensures plan == Plan(balances, revenue)
  {
    var units := Units(balances);
    var total := SumOf(units);
    var rounded := Rounded(units, total, revenue);
    var roundedSum := SumOf(rounded);
    var residue := revenue - roundedSum;
    if residue != 0 {
      assert |units| > 0;
      var m := 0;
      for i := 1 to |units|
        invariant m < i
        invariant forall j :: 0 <= j < i ==> units[j] <= units[m]
        invariant forall j :: 0 <= j < m ==> units[j] < units[m]
      {
        // comparing raw shares units*revenue/total: revenue and total are positive
        if units[i] > units[m] {
          m := i;
        }
      }
      ghost var f := FirstMax(units);
      assert f == m;
      rounded := rounded[m := rounded[m] + residue];
    }
    plan := PlanOf(balances, rounded);
  }

  // ----- sums -----

  lemma {:induction false} SumUpdate(xs: seq<int>, k: nat, v: int)
    requires k < |xs|
    ensures Sum(xs[k := v]) == Sum(xs) - xs[k] + v
  {
    var n := |xs| - 1;
    if k == n {
      assert xs[k := v][..n] == xs[..n];
    } else {
      assert xs[k := v][..n] == xs[..n][k := v];
      SumUpdate(xs[..n], k, v);
    }
  }

  lemma {:induction false} SumScale(xs: seq<int>, ys: seq<int>, a: int, b: int, zs: seq<int>)
    requires |xs| == |ys| == |zs|
    requires forall i :: 0 <= i < |xs| ==> zs[i] == a * xs[i] + b * ys[i]
    ensures Sum(zs) == a * Sum(xs) + b * Sum(ys)
  {
    if xs != [] {
      var n := |xs| - 1;
      SumScale(xs[..n], ys[..n], a, b, zs[..n]);
      Distribute(a, Sum(xs[..n]), xs[n]);
      Distribute(b, Sum(ys[..n]), ys[n]);
    }
  }

  lemma Distribute(a: int, x: int, y: int)
    ensures a * (x + y) == a * x + a * y
  {
  }

  lemma {:induction false} SumBetween(xs: seq<int>, lo: int, hi: int)
    requires forall i :: 0 <= i < |xs| ==> lo <= xs[i] <= hi
    ensures |xs| * lo <= Sum(xs) <= |xs| * hi
  {
    if xs != [] {
      SumBetween(xs[..|xs| - 1], lo, hi);
    }
  }

  // In a list that sums to zero, one element is bounded by all the others together.
  lemma OneAgainstTheRest(xs: seq<int>, m: nat, bound: int)
    requires m < |xs| && Sum(xs) == 0 && bound >= 0
    requires forall i :: 0 <= i < |xs| && i != m ==> -bound <= xs[i] <= bound
    ensures -((|xs| - 1) * bound) <= xs[m] <= (|xs| - 1) * bound
  {
    SumUpdate(xs, m, 0);
    SumWithHole(xs[m := 0], m, bound);
  }

  lemma {:induction false} SumWithHole(xs: seq<int>, m: nat, bound: int)
    requires m < |xs| && xs[m] == 0 && bound >= 0
    requires forall i :: 0 <= i < |xs| ==> -bound <= xs[i] <= bound
    ensures -((|xs| - 1) * bound) <= Sum(xs) <= (|xs| - 1) * bound
  {
    var n := |xs| - 1;
    if m == n {
      SumBetween(xs[..n], -bound, bound);
      assert n * -bound == -(n * bound);
    } else {
      SumWithHole(xs[..n], m, bound);
      MulStep(n - 1, bound);
    }
  }

  lemma MulStep(k: int, b: int)
    ensures (k + 1) * b == k * b + b
  {
  }

  // ----- conservation and the rounding bounds -----

  /** The payouts add up to exactly the revenue, whatever the balances. */
  lemma PayoutsSumToRevenue(units: seq<int>, revenue: int)
    requires Sum(units) > 0
    ensures Sum(Allocate(units, revenue)) == revenue
  {
    var rounded := Rounded(units, Sum(units), revenue);
    var residue := revenue - Sum(rounded);
    if residue != 0 {
      var m := FirstMax(units);
      SumUpdate(rounded, m, rounded[m] + residue);
    }
  }

  // Twice the distance, in units of 1/total cent, between an amount and its exact share.
  function Deviation(amount: int, units: int, total: int, revenue: int): int {
    2 * (total * amount - units * revenue)
  }

  lemma RoundShareWithinHalf(units: int, total: int, revenue: int)
    requires total > 0
    ensures -total < Deviation(RoundShare(units, total, revenue), units, total, revenue) <= total
  {
    var x := 2 * units * revenue + total;
    var q := x / (2 * total);
    assert x == q * (2 * total) + x % (2 * total);
    assert 0 <= x % (2 * total) < 2 * total;
    assert q * (2 * total) == 2 * (total * q);
  }

  /**
   Every payout except the one on the first largest balance is within half a cent of
   its exact share: above by at most half, below by strictly less.
   */
  lemma OrdinaryPayoutWithinHalf(units: seq<int>, revenue: int, i: nat)
    requires Sum(units) > 0 && i < |units| && i != FirstMax(units)
    ensures -Sum(units) < Deviation(Allocate(units, revenue)[i], units[i], Sum(units), revenue) <= Sum(units)
  {
    RoundShareWithinHalf(units[i], Sum(units), revenue);
  }

  /** The payout that carries the whole residue is still within (n-1)/2 cents of its share. */
  lemma AdjustedPayoutBound(units: seq<int>, revenue: int)
    requires Sum(units) > 0
    ensures var m, total := FirstMax(units), Sum(units);
            -((|units| - 1) * total)
              <= Deviation(Allocate(units, revenue)[m], units[m], total, revenue)
              <= (|units| - 1) * total
  {
    var devs, m, total := Deviations(units, revenue), FirstMax(units), Sum(units);
    forall i | 0 <= i < |devs| && i != m ensures -total <= devs[i] <= total {
      OrdinaryPayoutWithinHalf(units, revenue, i);
    }
    DeviationsCancel(units, revenue);
    OneAgainstTheRest(devs, m, total);
  }

  function Deviations(units: seq<int>, revenue: int): seq<int>
    requires Sum(units) > 0
  {
    var amounts := Allocate(units, revenue);
    seq(|units|, i requires 0 <= i < |units| => Deviation(amounts[i], units[i], Sum(units), revenue))
  }

  // What some investors gain by rounding, the others lose.
  lemma DeviationsCancel(units: seq<int>, revenue: int)
    requires Sum(units) > 0
    ensures Sum(Deviations(units, revenue)) == 0
  {
    var amounts, devs, total := Allocate(units, revenue), Deviations(units, revenue), Sum(units);
    var a, b := 2 * total, -2 * revenue;
    forall i | 0 <= i < |units| ensures devs[i] == a * amounts[i] + b * units[i] {
      DeviationIsLinear(amounts[i], units[i], total, revenue);
    }
    SumScale(amounts, units, a, b, devs);
    PayoutsSumToRevenue(units, revenue);
    DeviationIsLinear(revenue, total, total, revenue);
  }

  lemma DeviationIsLinear(amount: int, units: int, total: int, revenue: int)
    ensures Deviation(amount, units, total, revenue) == (2 * total) * amount + (-2 * revenue) * units
  {
  }

  /**
   The plan as a whole: each investor is listed with an amount next to their own exact
   share, and together they get the revenue.
   */
  lemma PlanIsFair(balances: seq<Balance>, revenue: int)
    requires TotalUnits(balances) > 0
    ensures var plan, total, n := Plan(balances, revenue), TotalUnits(balances), |balances|;
            && |plan| == n && Sum(Cents(plan)) == revenue
            && forall i :: 0 <= i < n ==>
                 && plan[i].investor == balances[i].investor
                 && var d := Deviation(plan[i].cents, balances[i].units, total, revenue);
                    if i == FirstMax(Units(balances)) then -((n - 1) * total) <= d <= (n - 1) * total
                    else -total < d <= total
  {
    var units := Units(balances);
    PayoutsSumToRevenue(units, revenue);
    assert Cents(Plan(balances, revenue)) == Allocate(units, revenue);
    AdjustedPayoutBound(units, revenue);
    forall i | 0 <= i < |units| && i != FirstMax(units)
      ensures -Sum(units) < Deviation(Allocate(units, revenue)[i], units[i], Sum(units), revenue) <= Sum(units)
    {
      OrdinaryPayoutWithinHalf(units, revenue, i);
    }
  }

  // ----- when a payout is negative -----

  /** The least revenue, from two cents on, with which n non-negative balances get no negative payout. */
  function SafeRevenue(n: nat): int {
    (n - 1) * ((n - 2) / 2)
  }

  ghost predicate NonNegative(units: seq<int>) {
    forall i :: 0 <= i < |units| ==> units[i] >= 0
  }

  ghost predicate PaysNegative(units: seq<int>, revenue: int) {
    NonNegative(units) && Sum(units) > 0 && exists i :: 0 <= i < |units| && Allocate(units, revenue)[i] < 0
  }

  /** Only the adjusted payout can be negative, and only for a revenue from two cents to below the safe one. */
  lemma NegativeNeeds(units: seq<int>, revenue: int, i: nat)
    requires NonNegative(units) && Sum(units) > 0 && revenue >= 0
    requires i < |units| && Allocate(units, revenue)[i] < 0
    ensures i == FirstMax(units) && 2 <= revenue < SafeRevenue(|units|)
  {
    if i != FirstMax(units) {
      OrdinaryPayoutWithinHalf(units, revenue, i);
      OrdinaryShareNonNegative(Sum(units), revenue, units[i], Allocate(units, revenue)[i]);
    }
    NegativeNeedsTwoCents(units, revenue);
    NegativeBelowSafe(units, revenue);
  }

  // A rounded share is at most twice the exact one, so one cent is not enough.
  lemma NegativeNeedsTwoCents(units: seq<int>, revenue: int)
    requires NonNegative(units) && Sum(units) > 0 && revenue >= 0
    requires Allocate(units, revenue)[FirstMax(units)] < 0
    ensures revenue >= 2
  {
    var amounts, total, m := Allocate(units, revenue), Sum(units), FirstMax(units);
    var gaps := Gaps(units, amounts, total, revenue);
    OtherGaps(units, revenue);
    LargestIsPositive(units);
    PayoutsSumToRevenue(units, revenue);
    hide Allocate, FirstMax, Sum, NonNegative;
    SumScale(units, amounts, 2 * revenue, -total, gaps);
    OneWithinSum(gaps, m);
    OneCentIsTooLittle(total, revenue, units[m], amounts[m]);
  }

  lemma LargestIsPositive(units: seq<int>)
    requires NonNegative(units) && Sum(units) > 0
    ensures units[FirstMax(units)] > 0
  {
    SumAtMost(units, units[FirstMax(units)]);
  }

  lemma OtherGaps(units: seq<int>, revenue: int)
    requires NonNegative(units) && Sum(units) > 0 && revenue >= 0
    ensures forall i :: 0 <= i < |units| && i != FirstMax(units) ==>
      Gaps(units, Allocate(units, revenue), Sum(units), revenue)[i] >= 0
  {
    var amounts, total := Allocate(units, revenue), Sum(units);
    forall i | 0 <= i < |units| && i != FirstMax(units)
      ensures (2 * revenue) * units[i] + (-total) * amounts[i] >= 0
    {
      OrdinaryPayoutWithinHalf(units, revenue, i);
      RoundedWithinTwice(amounts[i], units[i], total, revenue);
    }
  }

  // By how much twice the exact shares exceed the amounts, in units of 1/total cent.
  function Gaps(units: seq<int>, amounts: seq<int>, total: int, revenue: int): seq<int>
    requires |units| == |amounts|
  {
    seq(|units|, i requires 0 <= i < |units| => (2 * revenue) * units[i] + (-total) * amounts[i])
  }

  lemma RoundedWithinTwice(amount: int, units: int, total: int, revenue: int)
    requires total > 0 && units >= 0 && revenue >= 0
    requires -total < Deviation(amount, units, total, revenue) <= total
    ensures (2 * revenue) * units + (-total) * amount >= 0
  {
    var share := units * revenue;
    assert share >= 0 && (2 * revenue) * units == 2 * share;
    if amount >= 1 {
      MulMono(1, amount, total);
    } else {
      MulMono(amount, 0, total);
    }
  }

  lemma OneWithinSum(xs: seq<int>, m: nat)
    requires m < |xs| && forall i :: 0 <= i < |xs| && i != m ==> xs[i] >= 0
    ensures xs[m] <= Sum(xs)
  {
    SumUpdate(xs, m, 0);
    NonNegativeSum(xs[m := 0]);
  }

  lemma {:induction false} NonNegativeSum(xs: seq<int>)
    requires NonNegative(xs)
    ensures Sum(xs) >= 0
  {
    if xs != [] {
      NonNegativeSum(xs[..|xs| - 1]);
    }
  }

  lemma OneCentIsTooLittle(total: int, revenue: int, units: int, amount: int)
    requires total > 0 && units >= 0 && revenue >= 0 && amount < 0
    requires (2 * revenue) * units + (-total) * amount <= (2 * revenue) * total + (-total) * revenue
    requires revenue == 1 ==> units > 0
    ensures revenue >= 2
  {
    MulMono(amount, -1, total);
    assert (-total) * amount >= total;
  }

  // With a negative payout the largest share is small, and so are all others together.
  lemma NegativeBelowSafe(units: seq<int>, revenue: int)
    requires NonNegative(units) && Sum(units) > 0 && revenue >= 0
    requires Allocate(units, revenue)[FirstMax(units)] < 0
    ensures revenue < SafeRevenue(|units|)
  {
    var amounts, total, n, m := Allocate(units, revenue), Sum(units), |units|, FirstMax(units);
    var most := (n - 2) / 2;
    AdjustedPayoutBound(units, revenue);
    forall i | 0 <= i < n && i != m ensures amounts[i] <= most {
      OrdinaryPayoutWithinHalf(units, revenue, i);
      OtherSharesAreSmall(n, total, revenue, units[i], units[m], amounts[i], amounts[m]);
    }
    PayoutsSumToRevenue(units, revenue);
    SumUpdate(amounts, m, most);
    SumAtMost(amounts[m := most], most);
    MulStep(n - 1, most);
  }

  lemma OtherSharesAreSmall(n: nat, total: int, revenue: int, other: int, largest: int, amount: int, adjusted: int)
    requires total > 0 && revenue >= 0 && other <= largest && adjusted < 0
    requires Deviation(adjusted, largest, total, revenue) >= -((n - 1) * total)
    requires Deviation(amount, other, total, revenue) <= total
    ensures amount <= (n - 2) / 2
  {
    MulMono(other, largest, revenue);
    MulMono(adjusted, -1, total);
    assert 2 * (total * amount) <= total + (n - 1) * total - 2 * total;
    assert 2 * (total * amount) == total * (2 * amount) && total + (n - 1) * total - 2 * total == total * (n - 2);
    if 2 * amount > n - 2 {
      MulMono(n - 1, 2 * amount, total);
      MulStep(n - 2, total);
    }
  }

  lemma {:induction false} SumAtMost(xs: seq<int>, hi: int)
    requires forall i :: 0 <= i < |xs| ==> xs[i] <= hi
    ensures Sum(xs) <= |xs| * hi
  {
    if xs != [] {
      SumAtMost(xs[..|xs| - 1], hi);
      MulStep(|xs| - 1, hi);
    }
  }

  lemma OrdinaryShareNonNegative(total: int, revenue: int, units: int, amount: int)
    requires total > 0 && revenue >= 0 && units >= 0
    requires Deviation(amount, units, total, revenue) > -total
    ensures amount >= 0
  {
    assert units * revenue >= 0;
    MulSign(amount, total);
  }

  lemma MulSign(a: int, b: int)
    requires b > 0
    ensures a * b >= 0 ==> a >= 0
    ensures a * b > -b ==> a >= 0
  {
    if a < 0 {
      MulMono(a, -1, b);
    }
  }

  /** No payout is negative when balances are not, below two cents and from the safe revenue on. */
  lemma PayoutsNonNegative(units: seq<int>, revenue: int)
    requires NonNegative(units) && Sum(units) > 0 && revenue >= 0
    requires revenue < 2 || revenue >= SafeRevenue(|units|)
    ensures NonNegative(Allocate(units, revenue))
  {
    forall i | 0 <= i < |units| ensures Allocate(units, revenue)[i] >= 0 {
      if Allocate(units, revenue)[i] < 0 { NegativeNeeds(units, revenue, i); }
    }
  }

  // `total` in k portions of at most `most`.
  function Portions(k: nat, total: nat, most: nat): (xs: seq<int>)
    ensures |xs| == k && forall i :: 0 <= i < k ==> 0 <= xs[i] <= most
  {
    if k == 0 then []
    else
      var last := if total < most then total else most;
      Portions(k - 1, total - last, most) + [last]
  }

  lemma {:induction false} PortionsSum(k: nat, total: nat, most: nat)
    requires total <= k * most
    ensures Sum(Portions(k, total, most)) == total
    decreases k
  {
    if k > 0 {
      var last := if total < most then total else most;
      MulStep(k - 1, most);
      MulMono(0, k - 1, most);
      PortionsSum(k - 1, total - last, most);
      assert Portions(k, total, most)[..k - 1] == Portions(k - 1, total - last, most);
    }
  }

  // Half a cent below each amount, in half cents.
  function HalfBelow(amount: int): int {
    if amount == 0 then 0 else 2 * amount - 1
  }

  /** The first balance, then balances whose shares all round up by half a cent to the given amounts. */
  function RoundedUpTo(first: int, amounts: seq<int>): (units: seq<int>)
    ensures |units| == |amounts| + 1
  {
    [first] + seq(|amounts|, i requires 0 <= i < |amounts| => HalfBelow(amounts[i]))
  }

  lemma HalfCentRoundsUp(amount: int, revenue: int)
    requires amount >= 0 && revenue > 0
    ensures RoundShare(HalfBelow(amount), 2 * revenue, revenue) == amount
  {
    if amount > 0 {
      TwiceLessOne(amount, revenue);
      DivideExact(amount, 4 * revenue);
    }
  }

  lemma TwiceLessOne(a: int, b: int)
    ensures 2 * (2 * a - 1) * b + 2 * b == (4 * b) * a
  {
    MulAssociative(2, 2 * a - 1, b);
    assert (2 * a - 1) * b == 2 * (a * b) - b;
  }

  lemma {:induction false} SumCons(x: int, xs: seq<int>)
    ensures Sum([x] + xs) == x + Sum(xs)
    decreases |xs|
  {
    if xs == [] {
      assert [x] + xs == [x] && [x][..0] == [];
    } else {
      var init := xs[..|xs| - 1];
      assert ([x] + xs)[..|xs|] == [x] + init;
      SumCons(x, init);
    }
  }

  // Others whose rounded shares exceed the revenue by one cent leave the first one cent below zero.
  lemma OneCentTooMuch(units: seq<int>, amounts: seq<int>, first: int, revenue: int)
    requires revenue > 0 && units == RoundedUpTo(first, amounts) && Sum(units) == 2 * revenue
    requires NonNegative(amounts) && Sum(amounts) == revenue + 1
    requires first >= 0 && forall i :: 0 <= i < |amounts| ==> HalfBelow(amounts[i]) <= first
    ensures Allocate(units, revenue)[0] == -1
  {
    hide *;
    var paid := Allocate(units, revenue);
    forall i | 0 <= i < |amounts| ensures paid[i + 1] == amounts[i] {
      OthersRoundUp(units, amounts, first, revenue, i);
    }
    assert paid == [paid[0]] + amounts;
    SumCons(paid[0], amounts);
    PayoutsSumToRevenue(units, revenue);
  }

  lemma OthersRoundUp(units: seq<int>, amounts: seq<int>, first: int, revenue: int, i: nat)
    requires revenue > 0 && units == RoundedUpTo(first, amounts) && Sum(units) == 2 * revenue
    requires NonNegative(amounts) && i < |amounts|
    requires forall i :: 0 <= i < |amounts| ==> HalfBelow(amounts[i]) <= first
    ensures Allocate(units, revenue)[i + 1] == amounts[i]
  {
    hide RoundShare, HalfBelow;
    assert forall k :: 1 <= k < |units| ==> units[k] == HalfBelow(amounts[k - 1]) && units[k] <= units[0];
    assert FirstMax(units) == 0;
    HalfCentRoundsUp(amounts[i], revenue);
  }

  // Doubled amounts less one for each of the j that are not zero.
  lemma {:induction false} SumHalfBelow(amounts: seq<int>, units: seq<int>, j: nat)
    requires NonNegative(amounts) && |units| == |amounts| && j <= |amounts|
    requires forall i :: 0 <= i < |amounts| ==> units[i] == HalfBelow(amounts[i]) && (amounts[i] > 0 <==> i < j)
    ensures Sum(units) == 2 * Sum(amounts) - j
    decreases |amounts|
  {
    if amounts != [] {
      var n := |amounts| - 1;
      SumHalfBelow(amounts[..n], units[..n], if j <= n then j else n);
    }
  }

  // Amounts of j others, none above (j - 1) / 2 cents, go with a first share of (j - 2) / 2 cents.
  lemma OverpaidOthers(amounts: seq<int>, j: nat, revenue: int)
    requires revenue > 0 && NonNegative(amounts) && Sum(amounts) == revenue + 1 && 3 <= j <= |amounts|
    requires forall i :: 0 <= i < |amounts| ==> amounts[i] <= (j - 1) / 2 && (amounts[i] > 0 <==> i < j)
    ensures PaysNegative(RoundedUpTo(j - 2, amounts), revenue)
  {
    var units := RoundedUpTo(j - 2, amounts);
    hide Allocate, Sum;
    OverpaidSum(amounts, j, revenue);
    assert forall i :: 1 <= i < |units| ==> units[i] == HalfBelow(amounts[i - 1]);
    hide RoundedUpTo;
    OneCentTooMuch(units, amounts, j - 2, revenue);
  }

  lemma OverpaidSum(amounts: seq<int>, j: nat, revenue: int)
    requires NonNegative(amounts) && Sum(amounts) == revenue + 1 && j <= |amounts|
    requires forall i :: 0 <= i < |amounts| ==> (amounts[i] > 0 <==> i < j)
    ensures Sum(RoundedUpTo(j - 2, amounts)) == 2 * revenue
  {
    hide Sum;
    var units := RoundedUpTo(j - 2, amounts);
    assert units == [j - 2] + units[1..];
    SumHalfBelow(amounts, units[1..], j);
    SumCons(j - 2, units[1..]);
  }

  // Few cents: as many others as it takes get one cent each, the rest nothing.
  function OneCentEach(k: nat, j: nat): (amounts: seq<int>)
    ensures |amounts| == k && forall i :: 0 <= i < k ==> amounts[i] == if i < j then 1 else 0
  {
    seq(k, i => if i < j then 1 else 0)
  }

  lemma {:induction false} OneCentEachSum(k: nat, j: nat)
    requires j <= k
    ensures Sum(OneCentEach(k, j)) == j
    decreases k
  {
    if k > 0 {
      OneCentEachSum(k - 1, if j < k then j else k - 1);
      assert OneCentEach(k, j)[..k - 1] == OneCentEach(k - 1, if j < k then j else k - 1);
    }
  }

  // Many cents: all others get one cent, and portions of what remains.
  function PortionsOnTop(k: nat, total: nat, most: nat): (amounts: seq<int>)
    ensures |amounts| == k && forall i :: 0 <= i < k ==> 1 <= amounts[i] <= most + 1
  {
    var xs := Portions(k, total, most);
    seq(k, i requires 0 <= i < k => xs[i] + 1)
  }

  lemma PortionsOnTopSum(k: nat, total: nat, most: nat)
    requires total <= k * most
    ensures Sum(PortionsOnTop(k, total, most)) == total + k
  {
    var xs, ones := Portions(k, total, most), OneCentEach(k, k);
    PortionsSum(k, total, most);
    OneCentEachSum(k, k);
    SumScale(xs, ones, 1, 1, PortionsOnTop(k, total, most));
  }

  lemma SafeNeedsFour(n: nat)
    requires SafeRevenue(n) > 2
    ensures n >= 4
  {
    assert n < 4 ==> n == 0 || n == 1 || n == 2 || n == 3;
  }

  lemma FewCents(n: nat, revenue: int)
    requires 2 <= revenue <= n - 2
    ensures PaysNegative(RoundedUpTo(revenue - 1, OneCentEach(n - 1, revenue + 1)), revenue)
  {
    var amounts := OneCentEach(n - 1, revenue + 1);
    OneCentEachSum(n - 1, revenue + 1);
    hide Allocate, RoundedUpTo, Sum, OneCentEach, PaysNegative;
    OverpaidOthers(amounts, revenue + 1, revenue);
  }

  lemma ManyCents(n: nat, revenue: int, most: nat)
    requires n >= 4 && most == (n - 2) / 2 && n - 2 < revenue < (n - 1) * most
    ensures PaysNegative(RoundedUpTo(n - 3, PortionsOnTop(n - 1, revenue + 1 - (n - 1), most - 1)), revenue)
  {
    hide Allocate, RoundedUpTo, Sum, PortionsOnTop, PaysNegative;
    MulStep(most - 1, n - 1);
    var amounts := PortionsOnTop(n - 1, revenue + 1 - (n - 1), most - 1);
    PortionsOnTopSum(n - 1, revenue + 1 - (n - 1), most - 1);
    OverpaidOthers(amounts, n - 1, revenue);
  }

  /** For each such revenue and number of investors some balances make a payout negative. */
  lemma SomeBalancesPayNegative(n: nat, revenue: int)
    requires 2 <= revenue < SafeRevenue(n)
    ensures exists units :: |units| == n && PaysNegative(units, revenue)
  {
    var most := (n - 2) / 2;
    SafeNeedsFour(n);
    hide PaysNegative, RoundedUpTo;
    if revenue <= n - 2 {
      FewCents(n, revenue);
      assert |RoundedUpTo(revenue - 1, OneCentEach(n - 1, revenue + 1))| == n;
    } else {
      ManyCents(n, revenue, most);
      assert |RoundedUpTo(n - 3, PortionsOnTop(n - 1, revenue + 1 - (n - 1), most - 1))| == n;
    }
  }

  /**
   Among all lists of n non-negative balances some make a payout negative exactly if the
   revenue is at least two cents and below (n-1) * floor((n-2)/2).
   */
  lemma NegativePayoutIff(n: nat, revenue: int)
    requires revenue >= 0
    ensures (exists units :: |units| == n && PaysNegative(units, revenue)) <==> 2 <= revenue < SafeRevenue(n)
  {
    if units :| |units| == n && PaysNegative(units, revenue) {
      var i :| 0 <= i < n && Allocate(units, revenue)[i] < 0;
      NegativeNeeds(units, revenue, i);
    }
    if 2 <= revenue < SafeRevenue(n) {
      SomeBalancesPayNegative(n, revenue);
    }
  }

  lemma DivideExact(q: int, d: int)
    requires d > 0
    ensures (d * q) / d == q
  {
    var r := (d * q) / d;
    assert d * (q - r) == (d * q) % d;
    if q > r {
      MulMono(1, q - r, d);
    } else if q < r {
      MulMono(q - r, -1, d);
    }
  }
}
