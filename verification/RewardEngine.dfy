/** The reward engine as the program runs it, filling one array of outputs in place. */
module RewardEngines {
  import opened Basics
  import opened Arithmetic
  import opened Rewards

  method DistributeEqual(amount: nat, outputs: array<U64>, rotation: nat)
    modifies outputs
    ensures forall i :: 0 <= i < outputs.Length ==>
      outputs[i] == SatAdd(old(outputs[i]), EqualShares(amount, outputs.Length, rotation)[i])
  {
    var count := outputs.Length;
    if count == 0 { return; }
    ghost var shares := EqualShares(amount, count, rotation);
    if amount == 0 {
      AllZero(count, rotation);
      return;
    }
    var per := Div(amount, count);
    var remainder := amount - per * count;
    for i := 0 to count
      invariant forall k :: 0 <= k < i ==> outputs[k] == SatAdd(old(outputs[k]), shares[k])
      invariant forall k :: i <= k < count ==> outputs[k] == old(outputs[k])
    {
      var getsExtra := (i + count - rotation % count) % count < remainder;
      outputs[i] := SatAdd(outputs[i], per + if getsExtra then 1 else 0);
    }
  }

  lemma {:induction false} AllZero(n: nat, rotation: nat)
    requires n > 0
    ensures forall i :: 0 <= i < n ==> EqualShares(0, n, rotation)[i] == 0
  {
    DivBelow(0, n, 1);
  }

  function Turned(n: nat, r: nat, j: nat): nat
    requires r < n && j < n
  {
    if r + j < n then r + j else r + j - n
  }

  lemma {:induction false} TurnedIs(n: nat, rotation: nat, j: nat)
    requires j < n
    ensures (rotation + j) % n == Turned(n, rotation % n, j)
  {
    var q, r := rotation / n, rotation % n;
    assert rotation == n * q + r;
    assert n * (q + 1) == n * q + n;
    ModIs(rotation + j, n, if r + j < n then q else q + 1, Turned(n, r, j));
  }

  /** The odd unit `j` goes to the validator at place `j`, and to no other. */
  lemma {:induction false} NextUnit(i: nat, n: nat, rotation: nat, j: nat)
    requires i < n && j < n
    ensures Extra(i, n, rotation, j + 1) == Extra(i, n, rotation, j) + if i == (rotation + j) % n then 1 else 0
  {
    PlaceIs(i, n, rotation);
    TurnedIs(n, rotation, j);
  }

  /** Add up, stopping at the largest 64-bit number. */
  method TotalWeight(weights: seq<nat>) returns (total: nat)
    ensures total == Capped(Sum(weights))
  {
    total := 0;
    for i := 0 to |weights|
      invariant total == Capped(Sum(weights[..i]))
    {
      assert weights[..i + 1][..i] == weights[..i];
      total := SatAdd(total, weights[i]);
    }
    assert weights[..|weights|] == weights;
  }

  /** Give everyone the rounded-down share and say how much that was. */
  method GiveFloors(amount: nat, weights: seq<nat>, total: nat, outputs: array<U64>) returns (distributed: nat)
    requires |weights| == outputs.Length && total > 0
    modifies outputs
    ensures forall i :: 0 <= i < outputs.Length ==>
      outputs[i] == SatAdd(old(outputs[i]), Floors(amount, weights, total)[i])
    ensures distributed == Capped(Sum(Floors(amount, weights, total)))
  {
    ghost var floors := Floors(amount, weights, total);
    distributed := 0;
    for i := 0 to outputs.Length
      invariant forall k :: 0 <= k < i ==> outputs[k] == SatAdd(old(outputs[k]), floors[k])
      invariant forall k :: i <= k < outputs.Length ==> outputs[k] == old(outputs[k])
      invariant distributed == Capped(Sum(floors[..i]))
    {
      var share := Div(amount * weights[i], total);
      assert floors[..i + 1][..i] == floors[..i];
      outputs[i] := SatAdd(outputs[i], share);
      distributed := SatAdd(distributed, share);
    }
    assert floors[..outputs.Length] == floors;
  }

  /** Hand out single units around the circle. */
  method GiveUnits(units: nat, outputs: array<U64>, rotation: nat)
    requires units <= outputs.Length
    modifies outputs
    ensures forall i :: 0 <= i < outputs.Length ==>
      outputs[i] == SatAdd(old(outputs[i]), Extra(i, outputs.Length, rotation, units))
  {
    var count := outputs.Length;
    for j := 0 to units
      invariant forall i :: 0 <= i < count ==> outputs[i] == SatAdd(old(outputs[i]), Extra(i, count, rotation, j))
    {
      forall i | 0 <= i < count
        ensures Extra(i, count, rotation, j + 1)
             == Extra(i, count, rotation, j) + if i == (rotation + j) % count then 1 else 0
      {
        NextUnit(i, count, rotation, j);
      }
      var idx := (rotation + j) % count;
      outputs[idx] := SatAdd(outputs[idx], 1);
    }
  }

  method DistributeWeighted(amount: nat, weights: seq<nat>, outputs: array<U64>, rotation: nat)
    requires |weights| == outputs.Length && amount <= U64_MAX
    modifies outputs
    ensures forall i :: 0 <= i < outputs.Length ==>
      outputs[i] == SatAdd(old(outputs[i]), WeightedShares(amount, weights, rotation)[i])
  {
    if outputs.Length == 0 { return; }
    if amount == 0 {
      NothingToShare(weights, rotation);
      return;
    }
    var total := TotalWeight(weights);
    if total == 0 {
      DistributeEqual(amount, outputs, rotation);
      return;
    }
    FloorsRemainder(amount, weights, total);
    var distributed := GiveFloors(amount, weights, total, outputs);
    var remainder := SatSub(amount, distributed);
    GiveUnits(if remainder <= outputs.Length then remainder else outputs.Length, outputs, rotation);
  }

  lemma {:induction false} NothingToShare(weights: seq<nat>, rotation: nat)
    requires weights != []
    ensures forall i :: 0 <= i < |weights| ==> WeightedShares(0, weights, rotation)[i] == 0
  {
    var total := Capped(Sum(weights));
    forall i | 0 <= i < |weights|
      ensures WeightedShares(0, weights, rotation)[i] == 0
    {
      if total == 0 { AllZero(|weights|, rotation); } else { DivBelow(0, total, 1); }
    }
  }

  // ----- an epoch -----

  function Pow2(n: nat): (p: nat)
    ensures p > 0
  {
    if n == 0 then 1 else 2 * Pow2(n - 1)
  }

  /** Issuance warms up with the number of validators, halves, and stays below the cap. */
  function EpochRewardPool(epoch: nat, totalMinted: nat, validators: nat): (pool: nat)
    ensures pool <= SatSub(MAX_SUPPLY, totalMinted)
  {
    var halvings := epoch / HALVING_INTERVAL_EPOCHS;
    if validators == 0 || halvings >= 20 then 0
    else
      var warm := SatMul(MinNat(validators, WARMUP_TARGET_VALIDATORS), TARGET_DAILY_REWARD_PER_VALIDATOR);
      MinNat(Div(warm, Pow2(halvings)), SatSub(MAX_SUPPLY, totalMinted))
  }

  /** Where the cap is not reached, the pool is the target reward of each validator up to the
      warm-up target, halved once per interval and rounded down once, and nothing after twenty. */
  lemma {:induction false} EpochRewardExactly(epoch: nat, totalMinted: nat, validators: nat)
    ensures var pool, left := EpochRewardPool(epoch, totalMinted, validators), SatSub(MAX_SUPPLY, totalMinted);
      var target := MinNat(validators, WARMUP_TARGET_VALIDATORS) * TARGET_DAILY_REWARD_PER_VALIDATOR;
      && (epoch >= 20 * HALVING_INTERVAL_EPOCHS ==> pool == 0)
      && (epoch < 20 * HALVING_INTERVAL_EPOCHS ==>
            && pool * Pow2(epoch / HALVING_INTERVAL_EPOCHS) <= target
            && (pool < left ==> target < (pool + 1) * Pow2(epoch / HALVING_INTERVAL_EPOCHS)))
  {
    var halvings := epoch / HALVING_INTERVAL_EPOCHS;
    if validators > 0 && halvings < 20 {
      var target := MinNat(validators, WARMUP_TARGET_VALIDATORS) * TARGET_DAILY_REWARD_PER_VALIDATOR;
      MulMono(MinNat(validators, WARMUP_TARGET_VALIDATORS), WARMUP_TARGET_VALIDATORS,
              TARGET_DAILY_REWARD_PER_VALIDATOR);
      assert target <= U64_MAX;
      MulMono(EpochRewardPool(epoch, totalMinted, validators), Div(target, Pow2(halvings)), Pow2(halvings));
    }
  }

  /** What is minted after some epochs, with the validators of each. */
  function MintedAfter(epoch: nat, totalMinted: nat, counts: seq<nat>): nat
    decreases |counts|
  {
    if counts == [] then totalMinted
    else MintedAfter(epoch + 1, totalMinted + EpochRewardPool(epoch, totalMinted, counts[0]), counts[1..])
  }

  /** However many validators there are in each epoch, issuance never passes the cap, and it
      ends after twenty halvings. */
  lemma {:induction false} IssuanceBounded(epoch: nat, totalMinted: nat, counts: seq<nat>)
    requires totalMinted <= MAX_SUPPLY
    ensures totalMinted <= MintedAfter(epoch, totalMinted, counts) <= MAX_SUPPLY
    ensures epoch >= 20 * HALVING_INTERVAL_EPOCHS ==> MintedAfter(epoch, totalMinted, counts) == totalMinted
    decreases |counts|
  {
    if counts != [] {
      EpochRewardExactly(epoch, totalMinted, counts[0]);
      IssuanceBounded(epoch + 1, totalMinted + EpochRewardPool(epoch, totalMinted, counts[0]), counts[1..]);
    }
  }

  function TotalReward(epoch: nat, totalMinted: nat, fees: nat, validators: nat): U64 {
    SatAdd(EpochRewardPool(epoch, totalMinted, validators), fees)
  }

  function BasePool(total: nat): nat {
    Div(SatMul(total, BASE_REWARD_BPS), BPS_DENOMINATOR)
  }

  function PerfPool(total: nat): nat {
    Div(SatMul(total, PERFORMANCE_REWARD_BPS), BPS_DENOMINATOR)
  }

  function AgePool(total: nat): nat {
    SatSub(SatSub(total, BasePool(total)), PerfPool(total))
  }

  /** The three pools make up the total, also where a product saturates. */
  lemma {:induction false} PoolsAddUp(total: nat)
    ensures BasePool(total) + PerfPool(total) + AgePool(total) == total
  {
    assert BasePool(total) * BPS_DENOMINATOR <= total * BASE_REWARD_BPS;
    assert PerfPool(total) * BPS_DENOMINATOR <= total * PERFORMANCE_REWARD_BPS;
  }

  function Clamp(w: nat): nat {
    if w < PERF_WEIGHT_FLOOR_BPS then PERF_WEIGHT_FLOOR_BPS
    else if w > PERF_WEIGHT_CEIL_BPS then PERF_WEIGHT_CEIL_BPS
    else w
  }

  function PerfWeights(ps: seq<RewardProfile>): seq<nat> {
    seq(|ps|, i requires 0 <= i < |ps| => Clamp(ps[i].perfWeight))
  }

  function AgeWeights(ps: seq<RewardProfile>): seq<nat> {
    seq(|ps|, i requires 0 <= i < |ps| => ps[i].ageWeight)
  }

  lemma {:induction false} BoundedSum(s: seq<nat>)
    requires forall i :: 0 <= i < |s| ==> s[i] <= U16_MAX
    ensures Sum(s) <= |s| * U16_MAX
    decreases |s|
  {
    if s != [] { BoundedSum(s[..|s| - 1]); }
  }

  /** What the three distributions give together. */
  function AllShares(total: nat, epoch: nat, ps: seq<RewardProfile>): (s: seq<nat>)
    requires ps != []
    ensures |s| == |ps|
  {
    Plus(Plus(EqualShares(BasePool(total), |ps|, epoch), WeightedShares(PerfPool(total), PerfWeights(ps), epoch)),
         WeightedShares(AgePool(total), AgeWeights(ps), epoch))
  }

  predicate WeightsFit(ps: seq<RewardProfile>) {
    |ps| * U16_MAX <= U64_MAX && forall i :: 0 <= i < |ps| ==> ps[i].ageWeight <= U16_MAX
  }

  lemma {:induction false} AllSharesSum(total: nat, epoch: nat, ps: seq<RewardProfile>)
    requires ps != [] && WeightsFit(ps)
    ensures Sum(AllShares(total, epoch, ps)) == total
  {
    var a, b, c := EqualShares(BasePool(total), |ps|, epoch), WeightedShares(PerfPool(total), PerfWeights(ps), epoch),
                   WeightedShares(AgePool(total), AgeWeights(ps), epoch);
    PoolsAddUp(total);
    BoundedSum(PerfWeights(ps));
    BoundedSum(AgeWeights(ps));
    EqualSharesSum(BasePool(total), |ps|, epoch);
    WeightedSharesSum(PerfPool(total), PerfWeights(ps), epoch);
    WeightedSharesSum(AgePool(total), AgeWeights(ps), epoch);
    SumPlus(a, b);
    SumPlus(Plus(a, b), c);
  }

  /** The validators with a non-zero amount, in order. */
  function Payments(ps: seq<RewardProfile>, amounts: seq<nat>): seq<(AccountId, nat)>
    requires |ps| == |amounts|
  {
    if ps == [] then []
    else
      var n := |ps| - 1;
      Payments(ps[..n], amounts[..n]) + if amounts[n] > 0 then [(ps[n].validator, amounts[n])] else []
  }

  function Paid(payments: seq<(AccountId, nat)>): nat {
    if payments == [] then 0 else Paid(payments[..|payments| - 1]) + payments[|payments| - 1].1
  }

  lemma {:induction false} PaidIsSum(ps: seq<RewardProfile>, amounts: seq<nat>)
    requires |ps| == |amounts|
    ensures Paid(Payments(ps, amounts)) == Sum(amounts)
    decreases |ps|
  {
    if ps != [] {
      var n := |ps| - 1;
      PaidIsSum(ps[..n], amounts[..n]);
      var rest, last := Payments(ps[..n], amounts[..n]), (ps[n].validator, amounts[n]);
      assert (rest + [last])[..|rest|] == rest && rest + [] == rest;
    }
  }

  /** Nothing saturates on the way, because no validator gets more than the total. */
  lemma {:induction false} NoSaturation(total: nat, epoch: nat, ps: seq<RewardProfile>, i: nat)
    requires i < |ps| && total <= U64_MAX && WeightsFit(ps)
    ensures var a := EqualShares(BasePool(total), |ps|, epoch)[i];
      var b := WeightedShares(PerfPool(total), PerfWeights(ps), epoch)[i];
      var c := WeightedShares(AgePool(total), AgeWeights(ps), epoch)[i];
      SatAdd(SatAdd(SatAdd(0, a), b), c) == AllShares(total, epoch, ps)[i]
  {
    AllSharesSum(total, epoch, ps);
    PartWithinSum(AllShares(total, epoch, ps), i);
  }

  method FillOutputs(total: nat, epoch: nat, ps: seq<RewardProfile>) returns (amounts: seq<nat>)
    requires ps != [] && total <= U64_MAX && WeightsFit(ps)
    ensures amounts == AllShares(total, epoch, ps)
  {
    var outputs := new U64[|ps|](i => 0);
    PoolsAddUp(total);
    DistributeEqual(BasePool(total), outputs, epoch);
    DistributeWeighted(PerfPool(total), PerfWeights(ps), outputs, epoch);
    DistributeWeighted(AgePool(total), AgeWeights(ps), outputs, epoch);
    amounts := outputs[..];
    forall i | 0 <= i < |ps|
      ensures amounts[i] == AllShares(total, epoch, ps)[i]
    {
      NoSaturation(total, epoch, ps, i);
    }
  }

  method ListPayments(ps: seq<RewardProfile>, amounts: seq<nat>) returns (payments: seq<(AccountId, nat)>)
    requires |ps| == |amounts|
    ensures payments == Payments(ps, amounts)
  {
    payments := [];
    for i := 0 to |ps|
      invariant payments == Payments(ps[..i], amounts[..i])
    {
      assert ps[..i + 1][..i] == ps[..i] && amounts[..i + 1][..i] == amounts[..i];
      if amounts[i] > 0 {
        payments := payments + [(ps[i].validator, amounts[i])];
      }
    }
    assert ps[..|ps|] == ps && amounts[..|ps|] == amounts;
  }

  /** The rewards paid sum exactly to the total reward. */
  method Distribute(epoch: nat, totalMinted: nat, fees: nat, ps: seq<RewardProfile>)
    returns (payments: seq<(AccountId, nat)>)
    requires WeightsFit(ps)
    ensures Paid(payments) == if ps == [] then 0 else TotalReward(epoch, totalMinted, fees, |ps|)
    ensures ps != [] ==> payments == Payments(ps, AllShares(TotalReward(epoch, totalMinted, fees, |ps|), epoch, ps))
  {
    if ps == [] { return []; }
    var total := TotalReward(epoch, totalMinted, fees, |ps|);
    AllSharesSum(total, epoch, ps);
    PaidIsSum(ps, AllShares(total, epoch, ps));
    if total == 0 {
      NoPayments(ps, AllShares(total, epoch, ps));
      return [];
    }
    var amounts := FillOutputs(total, epoch, ps);
    payments := ListPayments(ps, amounts);
  }

  lemma {:induction false} NoPayments(ps: seq<RewardProfile>, amounts: seq<nat>)
    requires |ps| == |amounts| && Sum(amounts) == 0
    ensures Payments(ps, amounts) == []
    decreases |ps|
  {
    if ps != [] { NoPayments(ps[..|ps| - 1], amounts[..|ps| - 1]); }
  }

  // ----- in plain numbers -----

  /** Without saturation the base pool is three quarters of the total and the performance pool
      seventeen hundredths, each rounded down; the age pool is the rest. */
  lemma {:induction false} PoolsInNumbers(total: nat)
    requires 7500 * total <= U64_MAX
    ensures 4 * BasePool(total) <= 3 * total < 4 * (BasePool(total) + 1)
    ensures 100 * PerfPool(total) <= 17 * total < 100 * (PerfPool(total) + 1)
    ensures AgePool(total) == total - BasePool(total) - PerfPool(total)
  {
  }

  /** The weights: performance between 8500 and 11500, age as it is. */
  lemma {:induction false} WeightsInNumbers(ps: seq<RewardProfile>, i: nat)
    requires i < |ps|
    ensures 8500 <= PerfWeights(ps)[i] <= 11500
    ensures 8500 <= ps[i].perfWeight <= 11500 ==> PerfWeights(ps)[i] == ps[i].perfWeight
    ensures ps[i].perfWeight < 8500 ==> PerfWeights(ps)[i] == 8500
    ensures ps[i].perfWeight > 11500 ==> PerfWeights(ps)[i] == 11500
    ensures AgeWeights(ps)[i] == ps[i].ageWeight
  {
  }

  /** The part of `amount` that weight `i` stands for, rounded down; an even part where all
      weights are zero. */
  function Part(amount: nat, weights: seq<nat>, i: nat): nat
    requires i < |weights|
  {
    if Sum(weights) == 0 then Div(amount, |weights|) else Div(amount * weights[i], Sum(weights))
  }

  /** What one validator gets: an even part of the base pool and its weighted parts of the other
      two, rounded down, and at most one odd unit from each. */
  lemma {:induction false} ShareInNumbers(total: nat, epoch: nat, ps: seq<RewardProfile>, i: nat)
    requires i < |ps| && WeightsFit(ps)
    ensures var part := Div(BasePool(total), |ps|) + Part(PerfPool(total), PerfWeights(ps), i)
                        + Part(AgePool(total), AgeWeights(ps), i);
      part <= AllShares(total, epoch, ps)[i] <= part + 3
  {
    BoundedSum(PerfWeights(ps));
    BoundedSum(AgeWeights(ps));
    EqualPart(BasePool(total), |ps|, epoch, i);
    WeightedPart(PerfPool(total), PerfWeights(ps), epoch, i);
    WeightedPart(AgePool(total), AgeWeights(ps), epoch, i);
  }

  lemma {:induction false} EqualPart(amount: nat, n: nat, rotation: nat, i: nat)
    requires i < n
    ensures Div(amount, n) <= EqualShares(amount, n, rotation)[i] <= Div(amount, n) + 1
  {
  }

  lemma {:induction false} WeightedPart(amount: nat, weights: seq<nat>, rotation: nat, i: nat)
    requires i < |weights| && Sum(weights) <= U64_MAX
    ensures Part(amount, weights, i) <= WeightedShares(amount, weights, rotation)[i] <= Part(amount, weights, i) + 1
  {
    if Sum(weights) == 0 { EqualPart(amount, |weights|, rotation, i); }
  }

  /** Of `units` odd units, number `j` goes to the validator `j` places after the one whose turn
      it is in the epoch. */
  lemma {:induction false} OddUnits(n: nat, epoch: nat, units: nat, j: nat)
    requires j < n
    ensures (epoch + j) % n < n && (Extra((epoch + j) % n, n, epoch, units) == 1 <==> j < units)
  {
    TurnedIs(n, epoch, j);
    PlaceIs((epoch + j) % n, n, epoch);
  }

  /** The pool of an epoch: a hundred billion base units for each validator up to a thousand,
      halved after every 1461 epochs, within a supply of 10^18 base units. */
  lemma {:induction false} EpochRewardInNumbers(epoch: nat, totalMinted: nat, validators: nat)
    requires totalMinted <= 1_000_000_000_000_000_000
    ensures var pool := EpochRewardPool(epoch, totalMinted, validators);
      var target := (if validators <= 1000 then validators else 1000) * 100_000_000_000;
      var left := 1_000_000_000_000_000_000 - totalMinted;
      && (epoch < 1461 ==> pool == if target <= left then target else left)
      && (1461 <= epoch < 2922 ==> pool == if target / 2 <= left then target / 2 else left)
      && (epoch >= 29_220 ==> pool == 0)
  {
    if epoch < 1461 { assert epoch / 1461 == 0 && Pow2(0) == 1; }
    if 1461 <= epoch < 2922 { assert epoch / 1461 == 1 && Pow2(1) == 2; }
    if epoch >= 29_220 { assert epoch / 1461 >= 20; }
  }
}
