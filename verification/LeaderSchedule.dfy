/** Choosing a proposer in exact proportion to stake. */
module LeaderSchedules {
  import opened Basics
  import opened Arithmetic
  import opened ValidatorSets

  /** Values at or above this are drawn again. */
  function Threshold(total: nat): (t: nat)
    requires total > 0
    ensures t == Div(U64_MAX, total) * total
  {
    U64_MAX - (U64_MAX - Div(U64_MAX, total) * total)
  }

  /** Stake of the members before place `i`. */
  function Before(ms: seq<Member>, i: nat): nat
    requires i <= |ms|
  {
    TotalStake(ms[..i])
  }

  /** The target falls on member `i`. */
  ghost predicate FallsOn(ms: seq<Member>, target: nat, i: nat) {
    i < |ms| && Before(ms, i) <= target < Before(ms, i) + ms[i].stake
  }

  lemma {:induction false} BeforeNext(ms: seq<Member>, i: nat)
    requires i < |ms|
    ensures Before(ms, i + 1) == Before(ms, i) + ms[i].stake
  {
    assert ms[..i + 1][..i] == ms[..i];
  }

  lemma {:induction false} BeforeMonotone(ms: seq<Member>, i: nat, j: nat)
    requires i <= j <= |ms|
    ensures Before(ms, i) <= Before(ms, j)
    decreases j - i
  {
    if i < j {
      BeforeMonotone(ms, i, j - 1);
      BeforeNext(ms, j - 1);
    }
  }

  /** Every target below the total falls on exactly one member. */
  lemma {:induction false} FallsOnOne(ms: seq<Member>, target: nat, i: nat, j: nat)
    requires FallsOn(ms, target, i) && FallsOn(ms, target, j)
    ensures i == j
  {
    if i < j { BeforeNext(ms, i); BeforeMonotone(ms, i + 1, j); }
    if j < i { BeforeNext(ms, j); BeforeMonotone(ms, j + 1, i); }
  }

  /** The first member takes the targets below its stake, and the rest share what is above it in turn. */
  lemma {:induction false} FallsInTurn(ms: seq<Member>, target: nat, i: nat)
    requires ms != []
    ensures FallsOn(ms, target, 0) <==> target < ms[0].stake
    ensures FallsOn(ms, target, i + 1) <==> target >= ms[0].stake && FallsOn(ms[1..], target - ms[0].stake, i)
  {
    assert ms[..0] == [];
    if i + 1 < |ms| {
      var first, before := ms[..1], ms[1..][..i];
      assert ms[..i + 1] == first + before;
      TotalSplit(first, before);
      assert first[..0] == [];
    }
  }

  /** The values drawn again are fewer than the total, and the others are whole cycles of it. */
  lemma {:induction false} ThresholdInNumbers(total: nat)
    requires total > 0
    ensures Threshold(total) <= 0xFFFF_FFFF_FFFF_FFFF < Threshold(total) + total
    ensures Threshold(total) % total == 0
  {
    var q := Div(U64_MAX, total);
    assert (q + 1) * total == q * total + total && total * q == q * total;
    ModIs(q * total, total, q, 0);
  }

  /** Walk the members adding up stake; below the total the walk always stops on a member. */
  method WalkTo(ms: seq<Member>, target: nat) returns (i: nat)
    requires target < TotalStake(ms)
    ensures FallsOn(ms, target, i)
  {
    var accumulated := 0;
    i := 0;
    assert ms[..|ms|] == ms;
    while i < |ms|
      invariant i <= |ms| && accumulated == Before(ms, i) <= target
    {
      BeforeNext(ms, i);
      accumulated := accumulated + ms[i].stake;
      if accumulated > target { return i; }
      i := i + 1;
    }
    assert false;
  }

  // ----- counting -----

  /** How many of the values below `n`, reduced modulo the total, fall on member `i`. */
  ghost function Hits(ms: seq<Member>, n: nat, i: nat): nat
    requires TotalStake(ms) > 0
  {
    if n == 0 then 0 else Hits(ms, n - 1, i) + if FallsOn(ms, (n - 1) % TotalStake(ms), i) then 1 else 0
  }

  /** Within one cycle the hits are the part of the member's interval already passed. */
  lemma {:induction false} CycleHits(ms: seq<Member>, q: nat, k: nat, i: nat)
    requires TotalStake(ms) > 0 && i < |ms| && k <= TotalStake(ms)
    ensures Hits(ms, q * TotalStake(ms) + k, i) == Hits(ms, q * TotalStake(ms), i)
      + if k <= Before(ms, i) then 0 else if k <= Before(ms, i) + ms[i].stake then k - Before(ms, i) else ms[i].stake
    decreases k
  {
    if k > 0 {
      CycleHits(ms, q, k - 1, i);
      var t := TotalStake(ms);
      assert t * q == q * t;
      ModIs(q * t + (k - 1), t, q, k - 1);
    }
  }

  lemma {:induction false} WholeCycles(ms: seq<Member>, q: nat, i: nat)
    requires TotalStake(ms) > 0 && i < |ms|
    ensures Hits(ms, q * TotalStake(ms), i) == q * ms[i].stake
  {
    if q > 0 {
      var t := TotalStake(ms);
      WholeCycles(ms, q - 1, i);
      BeforeNext(ms, i);
      BeforeMonotone(ms, i + 1, |ms|);
      assert ms[..|ms|] == ms;
      CycleHits(ms, q - 1, t, i);
      OneMore(q, t);
      OneMore(q, ms[i].stake);
    }
  }

  lemma {:induction false} OneMore(q: nat, n: nat)
    requires q > 0
    ensures q * n == (q - 1) * n + n
  {
  }

  /** Of all accepted values, exactly `threshold / total` times its stake choose a member: the
      choice is proportional to stake without any bias. */
  lemma {:induction false} ChosenInProportion(ms: seq<Member>, i: nat)
    requires TotalStake(ms) > 0 && i < |ms|
    ensures Hits(ms, Threshold(TotalStake(ms)), i) == Div(U64_MAX, TotalStake(ms)) * ms[i].stake
  {
    WholeCycles(ms, Div(U64_MAX, TotalStake(ms)), i);
  }

  // ----- the schedule -----

  const ZERO: AccountId := 0

  /** `draw(k)` is the 64-bit value of the `k`-th hash of seed, height and round. */
  ghost predicate FirstAccepted(draw: nat -> nat, total: nat, k: nat)
    requires total > 0
  {
    draw(k) < Threshold(total) && forall j :: 0 <= j < k ==> draw(j) >= Threshold(total)
  }

  method ProposerFor(draw: nat -> nat, ms: seq<Member>, total: nat, ghost last: nat) returns (id: AccountId)
    requires total == TotalStake(ms) && (total > 0 ==> draw(last) < Threshold(total))
    ensures ms == [] || total == 0 ==> id == ZERO
    ensures ms != [] && total > 0 ==>
      exists k: nat, i: nat :: FirstAccepted(draw, total, k) && FallsOn(ms, draw(k) % total, i) && id == ms[i].id
  {
    if ms == [] || total == 0 { return ZERO; }
    var threshold := U64_MAX - U64_MAX % total;
    assert threshold == Threshold(total) by { SameRemainder(U64_MAX, total); }
    var counter := 0;
    var value := draw(0);
    while value >= threshold
      invariant value == draw(counter) && counter <= last
      invariant forall j :: 0 <= j < counter ==> draw(j) >= threshold
      decreases last - counter
    {
      counter := counter + 1;
      value := draw(counter);
    }
    assert FirstAccepted(draw, total, counter);
    var i := WalkTo(ms, value % total);
    return ms[i].id;
  }

  lemma {:induction false} SameRemainder(n: nat, d: nat)
    requires d > 0
    ensures n % d == n - Div(n, d) * d
  {
    var q := Div(n, d);
    assert (q + 1) * d == q * d + d && d * q == q * d;
    ModIs(n, d, q, n - q * d);
  }
}
