/** Vote collection: one bucket per block hash, first vote per voter counts. */
module VoteCollection {
  import opened OrderedSets
  import opened Basics
  import opened Stake

  /** `auth` stands for the signature, chain id, round and type the vote carries along. */
  datatype Vote = Vote(slot: nat, blockHash: Hash, voter: AccountId, voterStake: nat, auth: nat)

  datatype Bucket = Bucket(votes: seq<Vote>, votedStake: nat)

  datatype Collector = Collector(
    slot: nat,
    totalStake: nat,
    buckets: map<Hash, Bucket>,
    firstHash: map<AccountId, Hash>,
    equivocators: map<AccountId, (Hash, Hash)>,
    generation: nat)

  function NewCollector(slot: nat, totalStake: nat): Collector {
    Collector(slot, totalStake, map[], map[], map[], 0)
  }

  /** The shared tail of every way of adding a vote; the flag says whether stake was added. */
  function AddVote(c: Collector, v: Vote, canonicalStake: nat): (Collector, bool) {
    var vote := v.(voterStake := canonicalStake);
    if vote.voter in c.firstHash then
      var first := c.firstHash[vote.voter];
      if first != vote.blockHash then
        (c.(equivocators := c.equivocators[vote.voter := (first, vote.blockHash)]), false)
      else
        (c, false)
    else
      var b := if vote.blockHash in c.buckets then c.buckets[vote.blockHash] else Bucket([], 0);
      (c.(firstHash := c.firstHash[vote.voter := vote.blockHash],
          buckets := c.buckets[vote.blockHash := Bucket(b.votes + [vote], b.votedStake + vote.voterStake)]),
       true)
  }

  function RawVote(c: Collector, voter: AccountId, blockHash: Hash, stake: nat): Vote {
    Vote(c.slot, blockHash, voter, stake, 0)
  }

  function AddRaw(c: Collector, voter: AccountId, blockHash: Hash, stake: nat): Collector {
    AddVote(c, RawVote(c, voter, blockHash, stake), stake).0
  }

  function StakeSum(votes: seq<Vote>): nat {
    if votes == [] then 0
    else StakeSum(votes[..|votes| - 1]) + votes[|votes| - 1].voterStake
  }

  // ----- what a sequence of votes means -----

  /** Has `voter` voted in `votes`? */
  predicate Voted(votes: seq<Vote>, voter: AccountId) {
    exists i :: 0 <= i < |votes| && votes[i].voter == voter
  }

  /** The votes that are their voter's first, in order. */
  function FirstVotes(votes: seq<Vote>): seq<Vote> {
    if votes == [] then []
    else
      var n := |votes| - 1;
      FirstVotes(votes[..n]) + if Voted(votes[..n], votes[n].voter) then [] else [votes[n]]
  }

  function ForHash(votes: seq<Vote>, h: Hash): seq<Vote> {
    if votes == [] then []
    else
      var n := |votes| - 1;
      ForHash(votes[..n], h) + if votes[n].blockHash == h then [votes[n]] else []
  }

  /** Feed the votes one by one, each with the stake it carries. */
  function Collect(c: Collector, votes: seq<Vote>): Collector {
    if votes == [] then c
    else
      var n := |votes| - 1;
      AddVote(Collect(c, votes[..n]), votes[n], votes[n].voterStake).0
  }

  /** `c` holds exactly what the votes `all` say: each bucket lists, in arrival order, the
      first votes for its hash and weighs their sum; every voter is filed under its first
      hash; an equivocator is a voter that later named another hash. */
  ghost predicate Reflects(c: Collector, all: seq<Vote>) {
    && BucketsReflect(c, FirstVotes(all))
    && VotersReflect(c, all)
    && EquivocatorsReflect(c, all)
  }

  ghost predicate BucketsReflect(c: Collector, firsts: seq<Vote>) {
    forall h :: BucketReflects(c, firsts, h)
  }

  ghost predicate VotersReflect(c: Collector, all: seq<Vote>) {
    && (forall v :: v in c.firstHash <==> Voted(all, v))
    && (forall i :: 0 <= i < |FirstVotes(all)| ==>
          var f := FirstVotes(all)[i]; f.voter in c.firstHash && c.firstHash[f.voter] == f.blockHash)
  }

  ghost predicate EquivocatorsReflect(c: Collector, all: seq<Vote>) {
    forall v :: v in c.equivocators <==>
      v in c.firstHash && exists i :: 0 <= i < |all| && all[i].voter == v && all[i].blockHash != c.firstHash[v]
  }

  lemma {:induction false} FirstVotesComeFrom(votes: seq<Vote>)
    ensures forall i :: 0 <= i < |FirstVotes(votes)| ==> FirstVotes(votes)[i] in votes
    ensures forall v :: Voted(FirstVotes(votes), v) <==> Voted(votes, v)
  {
    if votes != [] {
      var n := |votes| - 1;
      FirstVotesComeFrom(votes[..n]);
      forall v
        ensures Voted(FirstVotes(votes), v) <==> Voted(votes, v)
      {
        VotedInit(votes, v);
        var f := FirstVotes(votes[..n]);
        if Voted(votes[..n], votes[n].voter) {
          assert FirstVotes(votes) == f;
        } else {
          assert FirstVotes(votes) == f + [votes[n]];
          VotedInit(f + [votes[n]], v);
          assert (f + [votes[n]])[..|f|] == f;
        }
      }
    }
  }

  lemma {:induction false} VotedInit(votes: seq<Vote>, v: AccountId)
    requires votes != []
    ensures Voted(votes, v) <==> Voted(votes[..|votes| - 1], v) || votes[|votes| - 1].voter == v
  {
    if Voted(votes, v) {
      var i :| 0 <= i < |votes| && votes[i].voter == v;
      if i < |votes| - 1 { assert votes[..|votes| - 1][i].voter == v; }
    }
    if Voted(votes[..|votes| - 1], v) {
      var i :| 0 <= i < |votes| - 1 && votes[..|votes| - 1][i].voter == v;
      assert votes[i].voter == v;
    }
  }

  /** A voter appears once among the first votes. */
  lemma {:induction false} FirstVotesDistinct(votes: seq<Vote>)
    ensures forall i, j :: 0 <= i < j < |FirstVotes(votes)| ==> FirstVotes(votes)[i].voter != FirstVotes(votes)[j].voter
  {
    if votes != [] {
      var n := |votes| - 1;
      FirstVotesDistinct(votes[..n]);
      FirstVotesComeFrom(votes[..n]);
      var f := FirstVotes(votes[..n]);
      if !Voted(votes[..n], votes[n].voter) {
        assert FirstVotes(votes) == f + [votes[n]];
        forall i | 0 <= i < |f|
          ensures f[i].voter != votes[n].voter
        {
          assert Voted(f, f[i].voter);
        }
      }
    }
  }

  /** Every sequence of votes, with repeats and conflicts, leaves the collector holding
      exactly its first votes. */
  lemma {:induction false} CollectReflects(empty: Collector, votes: seq<Vote>)
    requires empty.buckets == map[] && empty.firstHash == map[] && empty.equivocators == map[]
    ensures Reflects(Collect(empty, votes), votes)
  {
    if votes != [] {
      var n := |votes| - 1;
      CollectStep(empty, votes);
      CollectReflects(empty, votes[..n]);
      ReflectsStep(Collect(empty, votes[..n]), votes[..n], votes[n]);
      assert votes[..n] + [votes[n]] == votes;
    }
  }

  /** What is kept about an equivocator: the hash it voted for first, and the last other one. */
  ghost predicate Conflict(c: Collector, all: seq<Vote>, v: AccountId) {
    && v in c.firstHash && v in c.equivocators && c.equivocators[v].0 == c.firstHash[v] != c.equivocators[v].1
    && exists i :: 0 <= i < |all| && all[i].voter == v && all[i].blockHash == c.equivocators[v].1
                   && LastConflict(c, all, v, i)
  }

  /** After vote `i` the voter named its first hash only. */
  ghost predicate LastConflict(c: Collector, all: seq<Vote>, v: AccountId, i: nat)
    requires v in c.firstHash
  {
    forall j :: i < j < |all| && all[j].voter == v ==> all[j].blockHash == c.firstHash[v]
  }

  lemma {:induction false} CollectConflicts(empty: Collector, votes: seq<Vote>, v: AccountId)
    requires empty.buckets == map[] && empty.firstHash == map[] && empty.equivocators == map[]
    ensures v in Collect(empty, votes).equivocators ==> Conflict(Collect(empty, votes), votes, v)
    decreases |votes|
  {
    if votes != [] {
      var n := |votes| - 1;
      CollectStep(empty, votes);
      CollectConflicts(empty, votes[..n], v);
      ConflictStep(Collect(empty, votes[..n]), votes[..n], votes[n], v);
      assert votes[..n] + [votes[n]] == votes;
    }
  }

  lemma {:induction false} ConflictStep(c: Collector, before: seq<Vote>, x: Vote, v: AccountId)
    requires v in c.equivocators ==> Conflict(c, before, v)
    ensures var c' := AddVote(c, x, x.voterStake).0;
      v in c'.equivocators ==> Conflict(c', before + [x], v)
  {
    var after, c' := before + [x], AddVote(c, x, x.voterStake).0;
    if v in c'.equivocators {
      if v == x.voter && x.blockHash != c.firstHash[v] {
        assert after[|before|] == x && LastConflict(c', after, v, |before|);
      } else {
        var i :| 0 <= i < |before| && before[i].voter == v && before[i].blockHash == c.equivocators[v].1
          && LastConflict(c, before, v, i);
        assert after[i] == before[i];
        forall j | i < j < |after| && after[j].voter == v
          ensures after[j].blockHash == c'.firstHash[v]
        {
          if j < |before| { assert after[j] == before[j]; }
        }
        assert LastConflict(c', after, v, i);
      }
    }
  }

  lemma {:induction false} CollectStep(c: Collector, votes: seq<Vote>)
    requires votes != []
    ensures var n := |votes| - 1; Collect(c, votes) == AddVote(Collect(c, votes[..n]), votes[n], votes[n].voterStake).0
  {
  }

  lemma {:induction false} ReflectsStep(c: Collector, before: seq<Vote>, v: Vote)
    requires Reflects(c, before)
    ensures Reflects(AddVote(c, v, v.voterStake).0, before + [v])
  {
    BucketsStep(c, before, v);
    VotersStep(c, before, v);
    EquivocatorsStep(c, before, v);
  }

  lemma {:induction false} FirstVotesAppend(before: seq<Vote>, v: Vote)
    ensures FirstVotes(before + [v]) == FirstVotes(before) + if Voted(before, v.voter) then [] else [v]
  {
    assert (before + [v])[..|before|] == before;
  }

  lemma {:induction false} ForHashAppend(f: seq<Vote>, v: Vote, h: Hash)
    ensures ForHash(f + [v], h) == ForHash(f, h) + if v.blockHash == h then [v] else []
  {
    assert (f + [v])[..|f|] == f;
  }

  lemma {:induction false} StakeSumAppend(f: seq<Vote>, v: Vote)
    ensures StakeSum(f + [v]) == StakeSum(f) + v.voterStake
  {
    assert (f + [v])[..|f|] == f;
  }

  lemma {:induction false} VotedAppend(before: seq<Vote>, v: Vote, x: AccountId)
    ensures Voted(before + [v], x) <==> Voted(before, x) || v.voter == x
  {
    VotedInit(before + [v], x);
    assert (before + [v])[..|before|] == before;
  }

  /** `h`'s bucket in `c` lists the votes for `h` among `firsts`. */
  ghost predicate BucketReflects(c: Collector, firsts: seq<Vote>, h: Hash) {
    var votes := ForHash(firsts, h);
    if h in c.buckets then votes != [] && c.buckets[h] == Bucket(votes, StakeSum(votes)) else votes == []
  }

  lemma {:induction false} BucketsStep(c: Collector, before: seq<Vote>, v: Vote)
    requires BucketsReflect(c, FirstVotes(before))
    requires v.voter in c.firstHash <==> Voted(before, v.voter)
    ensures BucketsReflect(AddVote(c, v, v.voterStake).0, FirstVotes(before + [v]))
  {
    var f := FirstVotes(before);
    FirstVotesAppend(before, v);
    forall h
      ensures BucketReflects(AddVote(c, v, v.voterStake).0, FirstVotes(before + [v]), h)
    {
      assert BucketReflects(c, f, h);
      if v.voter in c.firstHash { assert f + [] == f; } else { BucketStep(c, f, v, h); }
    }
  }

  lemma {:induction false} BucketStep(c: Collector, f: seq<Vote>, v: Vote, h: Hash)
    requires BucketReflects(c, f, h) && v.voter !in c.firstHash
    ensures BucketReflects(AddVote(c, v, v.voterStake).0, f + [v], h)
  {
    ForHashAppend(f, v, h);
    StakeSumAppend(ForHash(f, h), v);
  }

  lemma {:induction false} VotersStep(c: Collector, before: seq<Vote>, v: Vote)
    requires VotersReflect(c, before)
    ensures VotersReflect(AddVote(c, v, v.voterStake).0, before + [v])
  {
    var f := FirstVotes(before);
    FirstVotesAppend(before, v);
    forall x ensures Voted(before + [v], x) <==> Voted(before, x) || v.voter == x { VotedAppend(before, v, x); }
    FirstVotesComeFrom(before);
    forall i | 0 <= i < |f|
      ensures Voted(before, f[i].voter)
    {
      assert Voted(f, f[i].voter);
    }
  }

  lemma {:induction false} EquivocatorsStep(c: Collector, before: seq<Vote>, v: Vote)
    requires VotersReflect(c, before) && EquivocatorsReflect(c, before)
    ensures EquivocatorsReflect(AddVote(c, v, v.voterStake).0, before + [v])
  {
    var after := before + [v];
    var c' := AddVote(c, v, v.voterStake).0;
    forall x
      ensures x in c'.equivocators <==>
              x in c'.firstHash
              && exists i :: 0 <= i < |after| && after[i].voter == x && after[i].blockHash != c'.firstHash[x]
    {
      if x in c'.equivocators {
        if x in c.equivocators {
          var i :| 0 <= i < |before| && before[i].voter == x && before[i].blockHash != c.firstHash[x];
          assert after[i] == before[i];
        } else {
          assert after[|before|].voter == x;
        }
      }
      if x in c'.firstHash
      && exists i :: 0 <= i < |after| && after[i].voter == x && after[i].blockHash != c'.firstHash[x] {
        var i :| 0 <= i < |after| && after[i].voter == x && after[i].blockHash != c'.firstHash[x];
        if i < |before| {
          assert before[i] == after[i];
          assert Voted(before, x);
        }
      }
    }
  }

  // ----- quorum -----

  predicate BucketHasQuorum(c: Collector, h: Hash) {
    h in c.buckets && HasQuorum(c.buckets[h].votedStake, c.totalStake)
  }

  /** The lowest hash whose bucket reached two thirds. */
  function QuorumHash(c: Collector): (r: Option<Hash>)
    ensures r.None? ==> forall h :: !BucketHasQuorum(c, h)
    ensures r.Some? ==> BucketHasQuorum(c, r.value) && forall h :: BucketHasQuorum(c, h) ==> r.value <= h
  {
    var qs := set h | h in c.buckets && HasQuorum(c.buckets[h].votedStake, c.totalStake);
    assert forall h :: BucketHasQuorum(c, h) ==> h in qs;
    if qs == {} then None else Some(Min(qs))
  }

  /** Stake over all buckets named by `hs`. */
  ghost function BucketSum(buckets: map<Hash, Bucket>, hs: set<Hash>): nat
    requires hs <= buckets.Keys
  {
    if hs == {} then 0
    else var h := Min(hs); buckets[h].votedStake + BucketSum(buckets, hs - {h})
  }

  lemma {:induction false} BucketSumHas(buckets: map<Hash, Bucket>, hs: set<Hash>, h: Hash)
    requires hs <= buckets.Keys && h in hs
    ensures BucketSum(buckets, hs) == buckets[h].votedStake + BucketSum(buckets, hs - {h})
  {
    var m := Min(hs);
    if m != h {
      BucketSumHas(buckets, hs - {m}, h);
      assert hs - {m} - {h} == hs - {h} - {m};
      MinUnique(hs - {h}, m);
    }
  }

  lemma {:induction false} MinUnique(s: set<nat>, m: nat)
    requires s != {} && m in s && forall x :: x in s ==> m <= x
    ensures Min(s) == m
  {
  }

  /** When the collected stake does not exceed the network's, one hash at most has quorum,
      so the answer does not depend on which bucket is looked at first. */
  lemma {:induction false} QuorumUnique(c: Collector, h: Hash, k: Hash)
    requires BucketSum(c.buckets, c.buckets.Keys) <= c.totalStake
    requires BucketHasQuorum(c, h) && BucketHasQuorum(c, k)
    ensures h == k && QuorumHash(c) == Some(h)
  {
    if h != k {
      BucketSumHas(c.buckets, c.buckets.Keys, h);
      BucketSumHas(c.buckets, c.buckets.Keys - {h}, k);
    } else {
      var q := QuorumHash(c).value;
      if q != h {
        BucketSumHas(c.buckets, c.buckets.Keys, h);
        BucketSumHas(c.buckets, c.buckets.Keys - {h}, q);
      }
    }
  }

  // ----- canonical stake: what the consensus node feeds -----

  function VotersFor(c: Collector, h: Hash): set<AccountId> {
    set v | v in c.firstHash && c.firstHash[v] == h
  }

  /** Every bucket weighs the canonical stake of the voters filed under its hash. */
  ghost predicate Canonical(c: Collector, vals: seq<Validator>) {
    && (forall h :: h in c.buckets ==> c.buckets[h].votedStake == StakeOf(vals, VotersFor(c, h)))
    && (forall v :: v in c.firstHash ==> c.firstHash[v] in c.buckets)
  }

  lemma {:induction false} AddRawCanonical(c: Collector, vals: seq<Validator>, voter: AccountId, h: Hash)
    requires Canonical(c, vals) && DistinctIds(vals)
    ensures Canonical(AddRaw(c, voter, h, StakeAt(vals, voter)), vals)
  {
    var c' := AddRaw(c, voter, h, StakeAt(vals, voter));
    if voter !in c.firstHash {
      forall k | k in c'.buckets
        ensures c'.buckets[k].votedStake == StakeOf(vals, VotersFor(c', k))
      {
        if k == h {
          assert VotersFor(c', h) == VotersFor(c, h) + {voter};
          StakeOfAdd(vals, VotersFor(c, h), voter);
          if h !in c.buckets {
            assert VotersFor(c, h) == {};
            StakeOfEmpty(vals);
          }
        } else {
          assert VotersFor(c', k) == VotersFor(c, k);
        }
      }
    } else {
      assert forall k :: VotersFor(c', k) == VotersFor(c, k);
    }
  }

  /** The voters filed under one of `hs`. */
  function VotersAmong(c: Collector, hs: set<Hash>): set<AccountId> {
    set v | v in c.firstHash && c.firstHash[v] in hs
  }

  lemma {:induction false} CanonicalSum(c: Collector, vals: seq<Validator>, hs: set<Hash>)
    requires Canonical(c, vals) && hs <= c.buckets.Keys
    ensures BucketSum(c.buckets, hs) == StakeOf(vals, VotersAmong(c, hs))
  {
    if hs == {} {
      assert VotersAmong(c, hs) == {};
      StakeOfEmpty(vals);
    } else {
      var h := Min(hs);
      var x, y := VotersFor(c, h), VotersAmong(c, hs - {h});
      CanonicalSum(c, vals, hs - {h});
      assert x + y == VotersAmong(c, hs) && x * y == {};
      InclusionExclusion(vals, x, y);
      StakeOfEmpty(vals);
    }
  }

  /** Fed with canonical stake, whatever the votes, one hash at most has quorum. */
  lemma {:induction false} CanonicalQuorumUnique(c: Collector, vals: seq<Validator>, h: Hash, k: Hash)
    requires Canonical(c, vals) && c.totalStake == Total(vals)
    requires BucketHasQuorum(c, h) && BucketHasQuorum(c, k)
    ensures h == k && QuorumHash(c) == Some(h)
  {
    CanonicalSum(c, vals, c.buckets.Keys);
    StakeOfTotal(vals, VotersAmong(c, c.buckets.Keys));
    QuorumUnique(c, h, k);
  }

  /** Fed with canonical stake, no bucket outgrows the network's stake: the 64-bit sum in
      the bucket cannot overflow when the total does not. */
  lemma {:induction false} CanonicalBounded(c: Collector, vals: seq<Validator>, h: Hash)
    requires Canonical(c, vals) && h in c.buckets
    ensures c.buckets[h].votedStake <= Total(vals)
  {
    StakeOfTotal(vals, VotersFor(c, h));
  }
}
