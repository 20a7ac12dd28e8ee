/** The validators of an epoch, sorted by identity, and their total stake. */
module ValidatorSets {
  import opened Basics

  datatype Member = Member(id: AccountId, index: nat, stake: nat)

  const MIN_VALIDATOR_STAKE: nat := 1

  datatype AddError = InsufficientStake | DuplicateId | DuplicateIndex

  function TotalStake(ms: seq<Member>): nat {
    if ms == [] then 0 else TotalStake(ms[..|ms| - 1]) + ms[|ms| - 1].stake
  }

  ghost predicate Sorted(ms: seq<Member>) {
    forall i, j :: 0 <= i < j < |ms| ==> ms[i].id <= ms[j].id
  }

  ghost predicate Staked(ms: seq<Member>) {
    forall i :: 0 <= i < |ms| ==> ms[i].stake >= MIN_VALIDATOR_STAKE
  }

  lemma {:induction false} TotalSplit(x: seq<Member>, y: seq<Member>)
    ensures TotalStake(x + y) == TotalStake(x) + TotalStake(y)
    decreases |y|
  {
    if y == [] {
      assert x + y == x;
    } else {
      assert (x + y)[..|x + y| - 1] == x + y[..|y| - 1];
      TotalSplit(x, y[..|y| - 1]);
    }
  }

  lemma {:induction false} TotalAt(ms: seq<Member>, i: nat)
    requires i < |ms|
    ensures TotalStake(ms) == TotalStake(ms[..i]) + ms[i].stake + TotalStake(ms[i + 1..])
  {
    assert ms == ms[..i] + ([ms[i]] + ms[i + 1..]);
    TotalSplit(ms[..i], [ms[i]] + ms[i + 1..]);
    TotalSplit([ms[i]], ms[i + 1..]);
    assert [ms[i]][..0] == [];
  }

  // ----- sorting -----

  /** The place of a new member: after every smaller or equal identity. */
  function PlaceOf(ms: seq<Member>, id: AccountId): (k: nat)
    ensures k <= |ms| && (forall i :: 0 <= i < k ==> ms[i].id <= id) && (k < |ms| ==> id < ms[k].id)
    decreases |ms|
  {
    if ms == [] || id < ms[0].id then 0 else
      var k := PlaceOf(ms[1..], id);
      assert k < |ms[1..]| ==> ms[1..][k] == ms[k + 1];
      assert forall i :: 0 < i < k + 1 ==> ms[i] == ms[1..][i - 1];
      k + 1
  }

  function Inserted(ms: seq<Member>, v: Member): seq<Member> {
    var k := PlaceOf(ms, v.id);
    ms[..k] + [v] + ms[k..]
  }

  lemma {:induction false} InsertedSorted(ms: seq<Member>, v: Member)
    requires Sorted(ms)
    ensures Sorted(Inserted(ms, v))
  {
    var k, r := PlaceOf(ms, v.id), Inserted(ms, v);
    forall i, j | 0 <= i < j < |r|
      ensures r[i].id <= r[j].id
    {
      if i < k {
        assert r[i] == ms[i];
      } else if i > k {
        assert r[i] == ms[i - 1] && r[j] == ms[j - 1];
      } else {
        assert r[i] == v && r[j] == ms[j - 1] && (j > k + 1 ==> ms[k].id <= ms[j - 1].id);
      }
      if j < k { assert r[j] == ms[j]; }
      if i < k < j { assert r[j] == ms[j - 1]; }
    }
  }

  lemma {:induction false} InsertedTotal(ms: seq<Member>, v: Member)
    ensures TotalStake(Inserted(ms, v)) == TotalStake(ms) + v.stake
  {
    var k := PlaceOf(ms, v.id);
    assert ms == ms[..k] + ms[k..];
    TotalSplit(ms[..k], ms[k..]);
    assert (ms[..k] + [v])[..k] == ms[..k];
    TotalSplit(ms[..k] + [v], ms[k..]);
  }

  lemma {:induction false} InsertedMembers(ms: seq<Member>, v: Member)
    ensures multiset(Inserted(ms, v)) == multiset(ms) + multiset{v}
  {
    var k := PlaceOf(ms, v.id);
    assert ms == ms[..k] + ms[k..];
  }

  /** A stable sort by identity. */
  function SortById(ms: seq<Member>): seq<Member> {
    if ms == [] then [] else Inserted(SortById(ms[..|ms| - 1]), ms[|ms| - 1])
  }

  lemma {:induction false} SortByIdOk(ms: seq<Member>)
    ensures Sorted(SortById(ms)) && TotalStake(SortById(ms)) == TotalStake(ms) && multiset(SortById(ms)) == multiset(ms)
    decreases |ms|
  {
    if ms != [] {
      SortByIdOk(ms[..|ms| - 1]);
      var rest, last := SortById(ms[..|ms| - 1]), ms[|ms| - 1];
      InsertedSorted(rest, last);
      InsertedTotal(rest, last);
      InsertedMembers(rest, last);
      LastMember(ms);
    }
  }

  lemma {:induction false} LastMember(ms: seq<Member>)
    requires ms != []
    ensures multiset(ms) == multiset(ms[..|ms| - 1]) + multiset{ms[|ms| - 1]}
  {
    assert ms == ms[..|ms| - 1] + [ms[|ms| - 1]];
  }

  lemma {:induction false} StakedPermuted(x: seq<Member>, y: seq<Member>)
    requires Staked(x) && multiset(x) == multiset(y)
    ensures Staked(y)
  {
    forall i | 0 <= i < |y|
      ensures y[i].stake >= MIN_VALIDATOR_STAKE
    {
      assert y[i] in multiset(y);
    }
  }

  function Eligible(ms: seq<Member>): (r: seq<Member>)
    ensures Staked(r)
  {
    if ms == [] then []
    else
      var last := ms[|ms| - 1];
      Eligible(ms[..|ms| - 1]) + if last.stake >= MIN_VALIDATOR_STAKE then [last] else []
  }

  // ----- changes -----

  ghost predicate SetOk(ms: seq<Member>, total: nat) {
    Sorted(ms) && Staked(ms) && total == TotalStake(ms)
  }

  /** The first place of an identity, or the length when it is not there. */
  function Find(ms: seq<Member>, id: AccountId): (k: nat)
    ensures k <= |ms| && (forall i :: 0 <= i < k ==> ms[i].id != id) && (k < |ms| ==> ms[k].id == id)
    decreases |ms|
  {
    if ms == [] || ms[0].id == id then 0
    else
      var k := Find(ms[1..], id);
      assert forall i :: 0 < i < k + 1 ==> ms[i] == ms[1..][i - 1];
      k + 1
  }

  function FindIndex(ms: seq<Member>, index: nat): (k: nat)
    ensures k <= |ms| && (forall i :: 0 <= i < k ==> ms[i].index != index) && (k < |ms| ==> ms[k].index == index)
    decreases |ms|
  {
    if ms == [] || ms[0].index == index then 0
    else
      var k := FindIndex(ms[1..], index);
      assert forall i :: 0 < i < k + 1 ==> ms[i] == ms[1..][i - 1];
      k + 1
  }

  function Removed(ms: seq<Member>, id: AccountId): seq<Member> {
    var k := Find(ms, id);
    if k == |ms| then ms else ms[..k] + ms[k + 1..]
  }

  function Restaked(ms: seq<Member>, id: AccountId, stake: nat): seq<Member> {
    var k := Find(ms, id);
    if stake < MIN_VALIDATOR_STAKE then Removed(ms, id)
    else if k == |ms| then ms
    else ms[k := ms[k].(stake := stake)]
  }

  predicate CanJoin(ms: seq<Member>, v: Member) {
    v.stake >= MIN_VALIDATOR_STAKE && Find(ms, v.id) == |ms| && FindIndex(ms, v.index) == |ms|
  }

  /** Joining, leaving and restaking keep the order and move the total by the difference. */
  lemma {:induction false} JoinedOk(ms: seq<Member>, total: nat, v: Member)
    requires SetOk(ms, total) && CanJoin(ms, v)
    ensures SetOk(Inserted(ms, v), total + v.stake)
  {
    InsertedSorted(ms, v);
    InsertedTotal(ms, v);
  }

  lemma {:induction false} WithoutSorted(ms: seq<Member>, k: nat, r: seq<Member>)
    requires Sorted(ms) && Staked(ms) && k < |ms| == |r| + 1
    requires (forall i :: 0 <= i < k ==> r[i] == ms[i]) && (forall i :: k <= i < |r| ==> r[i] == ms[i + 1])
    ensures Sorted(r) && Staked(r)
  {
  }

  lemma {:induction false} RemovedOk(ms: seq<Member>, total: nat, id: AccountId)
    requires SetOk(ms, total) && Find(ms, id) < |ms|
    ensures ms[Find(ms, id)].stake <= total && SetOk(Removed(ms, id), total - ms[Find(ms, id)].stake)
  {
    var k := Find(ms, id);
    TotalAt(ms, k);
    TotalSplit(ms[..k], ms[k + 1..]);
    WithoutSorted(ms, k, ms[..k] + ms[k + 1..]);
  }

  lemma {:induction false} RestakedOk(ms: seq<Member>, total: nat, id: AccountId, stake: nat)
    requires SetOk(ms, total) && Find(ms, id) < |ms| && stake >= MIN_VALIDATOR_STAKE
    ensures ms[Find(ms, id)].stake <= total
    ensures SetOk(Restaked(ms, id, stake), total - ms[Find(ms, id)].stake + stake)
  {
    var k := Find(ms, id);
    var r := Restaked(ms, id, stake);
    TotalAt(ms, k);
    TotalAt(r, k);
    assert r[..k] == ms[..k] && r[k + 1..] == ms[k + 1..];
  }

  /** A joiner has stake, and neither its identity nor its index is taken. */
  lemma {:induction false} JoinsExactly(ms: seq<Member>, v: Member)
    ensures CanJoin(ms, v) <==>
      v.stake > 0 && forall i :: 0 <= i < |ms| ==> ms[i].id != v.id && ms[i].index != v.index
  {
  }

  /** The set starts from every member that has stake, as often as it was given. */
  lemma {:induction false} EligibleExactly(ms: seq<Member>, m: Member)
    ensures multiset(Eligible(ms))[m] == if m.stake > 0 then multiset(ms)[m] else 0
    decreases |ms|
  {
    if ms != [] {
      EligibleExactly(ms[..|ms| - 1], m);
      LastMember(ms);
    }
  }

  /** A changed stake replaces the old one, and no stake takes the member out; the rest stay. */
  lemma {:induction false} RestakedExactly(ms: seq<Member>, k: nat, stake: nat)
    requires k < |ms| && forall i :: 0 <= i < k ==> ms[i].id != ms[k].id
    ensures var m := ms[k];
      multiset(Restaked(ms, m.id, stake)) == multiset(ms) - multiset{m}
      + if stake > 0 then multiset{Member(m.id, m.index, stake)} else multiset{}
  {
    var m := ms[k];
    assert Find(ms, m.id) == k;
    if stake > 0 {
      OneReplaced(ms, k, Member(m.id, m.index, stake));
    } else {
      OneOut(ms, k);
    }
  }

  lemma {:induction false} OneOut(ms: seq<Member>, k: nat)
    requires k < |ms|
    ensures multiset(ms[..k] + ms[k + 1..]) == multiset(ms) - multiset{ms[k]}
  {
    assert ms == ms[..k] + [ms[k]] + ms[k + 1..];
  }

  lemma {:induction false} OneReplaced(ms: seq<Member>, k: nat, v: Member)
    requires k < |ms|
    ensures multiset(ms[k := v]) == multiset(ms) - multiset{ms[k]} + multiset{v}
  {
  }

  class ValidatorSet {
    var validators: seq<Member>
    var totalStake: nat
    var generation: nat

    ghost predicate Valid()
      reads this
    {
      SetOk(validators, totalStake)
    }

    constructor (members: seq<Member>)
      ensures Valid() && validators == SortById(Eligible(members)) && generation == 0
    {
      var sorted := SortById(Eligible(members));
      SortByIdOk(Eligible(members));
      StakedPermuted(Eligible(members), sorted);
      validators := sorted;
      totalStake := TotalStake(sorted);
      generation := 0;
    }

    /** Looks from the front. */
    method Position(id: AccountId) returns (k: nat)
      ensures k == Find(validators, id)
    {
      k := 0;
      while k < |validators| && validators[k].id != id
        invariant k <= |validators| && forall i :: 0 <= i < k ==> validators[i].id != id
      {
        k := k + 1;
      }
    }

    method PositionOfIndex(index: nat) returns (k: nat)
      ensures k == FindIndex(validators, index)
    {
      k := 0;
      while k < |validators| && validators[k].index != index
        invariant k <= |validators| && forall i :: 0 <= i < k ==> validators[i].index != index
      {
        k := k + 1;
      }
    }

    method AddValidator(v: Member) returns (failure: Option<AddError>)
      requires Valid()
      modifies this
      ensures Valid() && generation == old(generation)
      ensures failure == None <==> CanJoin(old(validators), v)
      ensures failure == Some(InsufficientStake) <==> v.stake == 0
      ensures failure == Some(DuplicateId) <==>
        v.stake > 0 && exists i :: 0 <= i < |old(validators)| && old(validators)[i].id == v.id
      ensures validators == if failure == None then Inserted(old(validators), v) else old(validators)
    {
      if v.stake < MIN_VALIDATOR_STAKE { return Some(InsufficientStake); }
      var known := Position(v.id);
      if known < |validators| { return Some(DuplicateId); }
      var used := PositionOfIndex(v.index);
      if used < |validators| { return Some(DuplicateIndex); }
      JoinedOk(validators, totalStake, v);
      totalStake := totalStake + v.stake;
      validators := Inserted(validators, v);
      return None;
    }

    method RemoveValidator(id: AccountId) returns (removed: Option<Member>)
      requires Valid()
      modifies this
      ensures Valid() && generation == old(generation) && validators == Removed(old(validators), id)
      ensures var k := Find(old(validators), id);
        removed == if k == |old(validators)| then None else Some(old(validators)[k])
    {
      var k := Position(id);
      if k == |validators| { return None; }
      RemovedOk(validators, totalStake, id);
      removed := Some(validators[k]);
      totalStake := if totalStake <= validators[k].stake then 0 else totalStake - validators[k].stake;
      validators := validators[..k] + validators[k + 1..];
    }

    method UpdateStake(id: AccountId, stake: nat)
      requires Valid()
      modifies this
      ensures Valid() && generation == old(generation) && validators == Restaked(old(validators), id, stake)
    {
      if stake < MIN_VALIDATOR_STAKE {
        var gone := RemoveValidator(id);
        return;
      }
      var k := Position(id);
      if k == |validators| { return; }
      RestakedOk(validators, totalStake, id, stake);
      totalStake := if totalStake <= validators[k].stake then 0 else totalStake - validators[k].stake;
      validators := validators[k := validators[k].(stake := stake)];
      totalStake := totalStake + stake;
    }
  }
}
