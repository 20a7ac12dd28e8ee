/** Stake-weighted sets of validators and the two-thirds quorum. */
module Stake {
  import opened Basics

  datatype Validator = Validator(id: AccountId, stake: nat)

  /** Stake held by the members of `s`. */
  function StakeOf(vals: seq<Validator>, s: set<AccountId>): nat {
    if vals == [] then 0
    else (if vals[0].id in s then vals[0].stake else 0) + StakeOf(vals[1..], s)
  }

  function Total(vals: seq<Validator>): nat {
    if vals == [] then 0 else vals[0].stake + Total(vals[1..])
  }

  /** Canonical stake of one identity; zero for an unknown one. */
  function StakeAt(vals: seq<Validator>, id: AccountId): nat {
    if vals == [] then 0 else if vals[0].id == id then vals[0].stake else StakeAt(vals[1..], id)
  }

  ghost predicate DistinctIds(vals: seq<Validator>) {
    forall i, j :: 0 <= i < j < |vals| ==> vals[i].id != vals[j].id
  }

  /** The two-thirds test, with the guard for an empty network. */
  predicate HasQuorum(votes: nat, total: nat) {
    total != 0 && votes * 3 >= 2 * total
  }

  lemma StakeOfTotal(vals: seq<Validator>, s: set<AccountId>)
    ensures StakeOf(vals, s) <= Total(vals)
  {
  }

  lemma StakeOfMonotone(vals: seq<Validator>, s: set<AccountId>, t: set<AccountId>)
    requires s <= t
    ensures StakeOf(vals, s) <= StakeOf(vals, t)
  {
  }

  lemma InclusionExclusion(vals: seq<Validator>, s: set<AccountId>, t: set<AccountId>)
    ensures StakeOf(vals, s) + StakeOf(vals, t) == StakeOf(vals, s + t) + StakeOf(vals, s * t)
  {
  }

  lemma StakeOfAbsent(vals: seq<Validator>, s: set<AccountId>, id: AccountId)
    requires forall i :: 0 <= i < |vals| ==> vals[i].id != id
    ensures StakeOf(vals, s + {id}) == StakeOf(vals, s)
  {
  }

  /** Adding one new member adds exactly its canonical stake. */
  lemma StakeOfAdd(vals: seq<Validator>, s: set<AccountId>, id: AccountId)
    requires DistinctIds(vals) && id !in s
    ensures StakeOf(vals, s + {id}) == StakeOf(vals, s) + StakeAt(vals, id)
  {
    if vals != [] {
      if vals[0].id == id {
        StakeOfAbsent(vals[1..], s, id);
      } else {
        StakeOfAdd(vals[1..], s, id);
      }
    }
  }

  lemma StakeOfEmpty(vals: seq<Validator>)
    ensures StakeOf(vals, {}) == 0
  {
  }

  lemma PositiveStakeHasMember(vals: seq<Validator>, s: set<AccountId>) returns (id: AccountId)
    requires StakeOf(vals, s) > 0
    ensures id in s
  {
    if vals[0].id in s { id := vals[0].id; } else { id := PositiveStakeHasMember(vals[1..], s); }
  }

  /** Faulty stake is strictly below one third of the total. */
  ghost predicate FaultyBelowThird(vals: seq<Validator>, honest: set<AccountId>) {
    3 * (Total(vals) as int - StakeOf(vals, honest)) < Total(vals)
  }

  /** Any two quorums share an honest member. */
  lemma QuorumsShareHonest(vals: seq<Validator>, honest: set<AccountId>, s: set<AccountId>, t: set<AccountId>)
    returns (id: AccountId)
    requires FaultyBelowThird(vals, honest)
    requires HasQuorum(StakeOf(vals, s), Total(vals)) && HasQuorum(StakeOf(vals, t), Total(vals))
    ensures id in s && id in t && id in honest
  {
    InclusionExclusion(vals, s, t);
    StakeOfTotal(vals, s + t);
    InclusionExclusion(vals, s * t, honest);
    StakeOfTotal(vals, s * t + honest);
    id := PositiveStakeHasMember(vals, s * t * honest);
  }

  /** The honest members of a quorum hold more than one third. */
  lemma QuorumHonestPart(vals: seq<Validator>, honest: set<AccountId>, s: set<AccountId>)
    requires FaultyBelowThird(vals, honest)
    requires HasQuorum(StakeOf(vals, s), Total(vals))
    ensures 3 * StakeOf(vals, s * honest) > Total(vals)
  {
    InclusionExclusion(vals, s, honest);
    StakeOfTotal(vals, s + honest);
  }

  /** A quorum meets every set that holds more than one third. */
  lemma QuorumMeetsThird(vals: seq<Validator>, s: set<AccountId>, x: set<AccountId>) returns (id: AccountId)
    requires HasQuorum(StakeOf(vals, s), Total(vals)) && 3 * StakeOf(vals, x) > Total(vals)
    ensures id in s && id in x
  {
    InclusionExclusion(vals, s, x);
    StakeOfTotal(vals, s + x);
    id := PositiveStakeHasMember(vals, s * x);
  }

  /** The bound is sharp: with exactly one third faulty, two quorums may share nobody honest. */
  lemma ThirdIsTooMuch()
    ensures exists vals: seq<Validator>, honest: set<AccountId>, s: set<AccountId>, t: set<AccountId> ::
      && 3 * (Total(vals) as int - StakeOf(vals, honest)) == Total(vals)
      && HasQuorum(StakeOf(vals, s), Total(vals)) && HasQuorum(StakeOf(vals, t), Total(vals)) && s * t * honest == {}
  {
    var three, two, one := [Validator(1, 1), Validator(2, 1), Validator(3, 1)],
      [Validator(2, 1), Validator(3, 1)], [Validator(3, 1)];
    assert three[1..] == two && two[1..] == one && one[1..] == [];
    var honest, s, t: set<AccountId> := {1, 2}, {1, 3}, {2, 3};
    assert StakeOf(one, honest) == 0 && StakeOf(one, s) == 1 && StakeOf(one, t) == 1 && Total(one) == 1;
    assert StakeOf(two, honest) == 1 && StakeOf(two, s) == 1 && StakeOf(two, t) == 2 && Total(two) == 2;
    assert StakeOf(three, honest) == 2 && StakeOf(three, s) == 2 && StakeOf(three, t) == 2 && Total(three) == 3;
    assert s * t * honest == {};
    assert HasQuorum(StakeOf(three, s), Total(three)) && HasQuorum(StakeOf(three, t), Total(three));
  }
}
