/** Splitting an epoch's reward among the validators without losing a unit. */
module Rewards {
  import opened Basics
  import opened Arithmetic

  type U64 = n: nat | n <= U64_MAX witness 0

  datatype RewardProfile = RewardProfile(validator: AccountId, perfWeight: nat, ageWeight: nat)

  const TARGET_DAILY_REWARD_PER_VALIDATOR: nat := 100_000 * 1_000_000_000 / 1_000
  const WARMUP_TARGET_VALIDATORS: nat := 1_000
  const HALVING_INTERVAL_EPOCHS: nat := 1461
  const MAX_SUPPLY: nat := 1_000_000_000 * 1_000_000_000
  const BASE_REWARD_BPS: nat := 7_500
  const PERFORMANCE_REWARD_BPS: nat := 1_700
  const BPS_DENOMINATOR: nat := 10_000
  const PERF_WEIGHT_FLOOR_BPS: nat := 8_500
  const PERF_WEIGHT_CEIL_BPS: nat := 11_500
  const U16_MAX: nat := 0xFFFF

  // ----- saturating arithmetic and sums -----

  function SatAdd(a: nat, b: nat): (r: U64) {
    if a + b > U64_MAX then U64_MAX else a + b
  }

  function SatMul(a: nat, b: nat): (r: U64) {
    if a * b > U64_MAX then U64_MAX else a * b
  }

  function SatSub(a: nat, b: nat): nat {
    if a <= b then 0 else a - b
  }

  function Sum(s: seq<nat>): nat {
    if s == [] then 0 else Sum(s[..|s| - 1]) + s[|s| - 1]
  }

  function Plus(s: seq<nat>, t: seq<nat>): (r: seq<nat>)
    requires |s| == |t|
    ensures |r| == |s|
  {
    seq(|s|, i requires 0 <= i < |s| => s[i] + t[i])
  }

  lemma {:induction false} SumPlus(s: seq<nat>, t: seq<nat>)
    requires |s| == |t|
    ensures Sum(Plus(s, t)) == Sum(s) + Sum(t)
    decreases |s|
  {
    if s != [] {
      var n := |s| - 1;
      SumPlus(s[..n], t[..n]);
      assert Plus(s, t)[..n] == Plus(s[..n], t[..n]);
    }
  }

  lemma {:induction false} PartWithinSum(s: seq<nat>, i: nat)
    requires i < |s|
    ensures s[i] <= Sum(s)
    decreases |s|
  {
    if i < |s| - 1 { PartWithinSum(s[..|s| - 1], i); }
  }

  // ----- who gets the odd units -----

  /** The place of validator `i` counted from the one the rotation starts at. */
  function Place(i: nat, n: nat, rotation: nat): nat
    requires i < n
  {
    (i + n - rotation % n) % n
  }

  function Extra(i: nat, n: nat, rotation: nat, units: nat): nat
    requires i < n
  {
    if Place(i, n, rotation) < units then 1 else 0
  }

  function Extras(n: nat, rotation: nat, units: nat, k: nat): (s: seq<nat>)
    requires k <= n
    ensures |s| == k
  {
    seq(k, i requires 0 <= i < k => Extra(i, n, rotation, units))
  }

  lemma {:induction false} PlaceIs(i: nat, n: nat, rotation: nat)
    requires i < n
    ensures var r := rotation % n; Place(i, n, rotation) == if i >= r then i - r else i + n - r
  {
    var r := rotation % n;
    if i >= r { ModIs(i + n - r, n, 1, i - r); } else { ModIs(i + n - r, n, 0, i + n - r); }
  }

  /** The `units` odd units go to that many different validators. */
  lemma {:induction false} ExtrasSum(n: nat, rotation: nat, units: nat, k: nat)
    requires n > 0 && units <= n && k <= n
    ensures var r := rotation % n;
      var wrapped := if r + units > n then r + units - n else 0;
      Sum(Extras(n, rotation, units, k)) ==
        if k <= r then (if k <= wrapped then k else wrapped)
        else wrapped + (if k - r <= units then k - r else units)
    decreases k
  {
    if k > 0 {
      ExtrasSum(n, rotation, units, k - 1);
      PlaceIs(k - 1, n, rotation);
      assert Extras(n, rotation, units, k)[..k - 1] == Extras(n, rotation, units, k - 1);
    }
  }

  lemma {:induction false} AllExtras(n: nat, rotation: nat, units: nat)
    requires n > 0 && units <= n
    ensures Sum(Extras(n, rotation, units, n)) == units
  {
    ExtrasSum(n, rotation, units, n);
  }

  // ----- equal shares -----

  function Constant(x: nat, n: nat): (s: seq<nat>)
    ensures |s| == n
  {
    seq(n, i => x)
  }

  lemma {:induction false} ConstantSum(x: nat, n: nat)
    ensures Sum(Constant(x, n)) == n * x
  {
    if n > 0 {
      ConstantSum(x, n - 1);
      assert Constant(x, n)[..n - 1] == Constant(x, n - 1);
    }
  }

  function EqualShares(amount: nat, n: nat, rotation: nat): (s: seq<nat>)
    requires n > 0
    ensures |s| == n
  {
    Plus(Constant(Div(amount, n), n), Extras(n, rotation, amount - Div(amount, n) * n, n))
  }

  lemma {:induction false} EqualSharesSum(amount: nat, n: nat, rotation: nat)
    requires n > 0
    ensures Sum(EqualShares(amount, n, rotation)) == amount
  {
    var per := Div(amount, n);
    var units := amount - per * n;
    assert (per + 1) * n == per * n + n;
    ConstantSum(per, n);
    AllExtras(n, rotation, units);
    SumPlus(Constant(per, n), Extras(n, rotation, units, n));
  }

  // ----- weighted shares -----

  function Floors(amount: nat, weights: seq<nat>, total: nat): (s: seq<nat>)
    requires total > 0
    ensures |s| == |weights|
  {
    seq(|weights|, i requires 0 <= i < |weights| => Div(amount * weights[i], total))
  }

  lemma {:induction false} OneMoreFloor(a: nat, sum: nat, w: nat, g: nat, n: nat, f: nat, total: nat)
    requires g * total <= a * sum <= (g + n) * total && f * total <= a * w < (f + 1) * total
    ensures (g + f) * total <= a * (sum + w) < (g + f + n + 1) * total
  {
    assert (g + f) * total == g * total + f * total;
    assert (g + f + n + 1) * total == (g + n) * total + (f + 1) * total;
    assert a * (sum + w) == a * sum + a * w;
  }

  /** Rounding down loses less than one unit per validator. */
  lemma {:induction false} FloorsSum(amount: nat, weights: seq<nat>, total: nat)
    requires total > 0
    ensures Sum(Floors(amount, weights, total)) * total <= amount * Sum(weights)
         <= (Sum(Floors(amount, weights, total)) + |weights|) * total
    ensures weights != [] ==> amount * Sum(weights) < (Sum(Floors(amount, weights, total)) + |weights|) * total
    decreases |weights|
  {
    if weights != [] {
      var n := |weights| - 1;
      var w, rest := weights[n], weights[..n];
      FloorsSum(amount, rest, total);
      assert Floors(amount, weights, total)[..n] == Floors(amount, rest, total);
      OneMoreFloor(amount, Sum(rest), w, Sum(Floors(amount, rest, total)), n, Div(amount * w, total), total);
    }
  }

  /** The weights add up to at most the largest 64-bit number. */
  function Capped(n: nat): (r: U64) {
    if n > U64_MAX then U64_MAX else n
  }

  function WeightedShares(amount: nat, weights: seq<nat>, rotation: nat): (s: seq<nat>)
    requires weights != []
    ensures |s| == |weights|
  {
    var total, n := Capped(Sum(weights)), |weights|;
    if total == 0 then EqualShares(amount, n, rotation)
    else
      var floors := Floors(amount, weights, total);
      Plus(floors, Extras(n, rotation, SatSub(amount, Sum(floors)), n))
  }

  lemma {:induction false} FloorsRemainder(amount: nat, weights: seq<nat>, total: nat)
    requires weights != [] && 0 < total <= Sum(weights)
    ensures amount < Sum(Floors(amount, weights, total)) + |weights|
    ensures total == Sum(weights) ==> Sum(Floors(amount, weights, total)) <= amount
  {
    var f := Sum(Floors(amount, weights, total));
    FloorsSum(amount, weights, total);
    MulMono(total, Sum(weights), amount);
    assert amount * total == total * amount && amount * Sum(weights) == Sum(weights) * amount;
    if f + |weights| <= amount { MulMono(f + |weights|, amount, total); }
    if total == Sum(weights) { MulCancel(f, amount, total); }
  }

  /** The shares sum to the amount exactly unless the rounded-down shares already exceed it,
      which they do only where the sum of the weights does not fit 64 bits. */
  lemma {:induction false} WeightedSharesSum(amount: nat, weights: seq<nat>, rotation: nat)
    requires weights != []
    ensures Sum(weights) <= U64_MAX ==> Sum(WeightedShares(amount, weights, rotation)) == amount
    ensures Sum(weights) > U64_MAX ==>
      var floors := Sum(Floors(amount, weights, U64_MAX));
      Sum(WeightedShares(amount, weights, rotation)) == if floors <= amount then amount else floors
  {
    var total, n := Capped(Sum(weights)), |weights|;
    if total == 0 {
      EqualSharesSum(amount, n, rotation);
    } else {
      var floors := Floors(amount, weights, total);
      FloorsRemainder(amount, weights, total);
      AllExtras(n, rotation, SatSub(amount, Sum(floors)));
      SumPlus(floors, Extras(n, rotation, SatSub(amount, Sum(floors)), n));
    }
  }

  /** Two weights of the largest size make two full amounts. */
  lemma {:induction false} SaturatedWeightsOverpay(amount: nat, rotation: nat)
    ensures Sum(WeightedShares(amount, [U64_MAX, U64_MAX], rotation)) == 2 * amount
  {
    var weights := [U64_MAX, U64_MAX];
    assert weights[..1] == [U64_MAX] && weights[..1][..0] == [];
    WeightedSharesSum(amount, weights, rotation);
    DivExact(amount, U64_MAX);
    var floors := Floors(amount, weights, U64_MAX);
    assert floors[0] == amount && floors[1] == amount && floors[..1][..0] == [];
    assert Sum(floors[..1]) == amount && Sum(floors) == 2 * amount;
    assert Sum(weights[..1]) == U64_MAX && Sum(weights) == 2 * U64_MAX;
  }
}
