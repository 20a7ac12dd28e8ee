/** Re-counting the stored votes under a new validator set. */
module Reconcile {
  import opened Basics
  import opened VoteCollection

  /** The validator lookup and signature check under the new set: the canonical stake of an
      admitted vote. */
  type Admission = Vote -> Option<nat>

  /** What every stored vote keeps: it sits in the bucket of its hash, its voter is filed
      under that hash, and no voter is stored twice. */
  ghost predicate WellFormed(c: Collector) {
    && (forall h :: h in c.buckets ==> BucketOk(c, h, c.buckets[h].votes))
    && (forall v :: v in c.firstHash ==> c.firstHash[v] in c.buckets && Voted(c.buckets[c.firstHash[v]].votes, v))
  }

  ghost predicate BucketOk(c: Collector, h: Hash, votes: seq<Vote>) {
    && DistinctVoters(votes)
    && (forall i :: 0 <= i < |votes| ==>
          votes[i].blockHash == h && votes[i].slot == c.slot
          && votes[i].voter in c.firstHash && c.firstHash[votes[i].voter] == h)
  }

  ghost predicate DistinctVoters(votes: seq<Vote>) {
    forall i, j :: 0 <= i < j < |votes| ==> votes[i].voter != votes[j].voter
  }

  /** Adding a vote for the collector's slot keeps the stored votes well formed. */
  lemma {:induction false} AddVoteWellFormed(c: Collector, v: Vote, stake: nat)
    requires WellFormed(c) && v.slot == c.slot
    ensures WellFormed(AddVote(c, v, stake).0)
  {
    var c' := AddVote(c, v, stake).0;
    if v.voter !in c.firstHash {
      var b := if v.blockHash in c.buckets then c.buckets[v.blockHash].votes else [];
      var vote := v.(voterStake := stake);
      assert c'.buckets[v.blockHash].votes == b + [vote];
      forall h | h in c'.buckets
        ensures BucketOk(c', h, c'.buckets[h].votes)
      {
        if h in c.buckets { assert BucketOk(c, h, c.buckets[h].votes); }
      }
      forall x | x in c'.firstHash
        ensures c'.firstHash[x] in c'.buckets && Voted(c'.buckets[c'.firstHash[x]].votes, x)
      {
        VotedAppend(b, vote, x);
      }
    } else {
      forall h | h in c'.buckets
        ensures BucketOk(c', h, c'.buckets[h].votes)
      {
        assert BucketOk(c, h, c.buckets[h].votes);
      }
    }
  }

  /** The admitted votes, at their new stake. */
  function Kept(votes: seq<Vote>, admit: Admission): seq<Vote> {
    if votes == [] then []
    else
      var n := |votes| - 1;
      Kept(votes[..n], admit) + (match admit(votes[n]) case None => [] case Some(st) => [votes[n].(voterStake := st)])
  }

  function AddVerified(c: Collector, v: Vote, admit: Admission): Collector {
    if v.slot != c.slot then c
    else match admit(v) case None => c case Some(st) => AddVote(c, v, st).0
  }

  /** A vote counts, with the stake it is admitted at, exactly when it is for this slot, admitted, and
      its voter's first. */
  lemma {:induction false} CountsExactly(c: Collector, v: Vote, admit: Admission, h: Hash)
    ensures var a := AddVerified(c, v, admit);
      var counts := v.slot == c.slot && admit(v).Some? && v.voter !in c.firstHash;
      var votes := if h in c.buckets then c.buckets[h].votes else [];
      && a.firstHash == (if counts then c.firstHash[v.voter := v.blockHash] else c.firstHash)
      && (counts && h == v.blockHash ==>
            h in a.buckets && a.buckets[h].votes == votes + [v.(voterStake := admit(v).value)]
            && a.buckets[h].votedStake == (if h in c.buckets then c.buckets[h].votedStake else 0) + admit(v).value)
      && (!counts || h != v.blockHash ==>
            (h in a.buckets <==> h in c.buckets) && (h in c.buckets ==> a.buckets[h] == c.buckets[h]))
      && (v.slot != c.slot || admit(v).None? ==> a == c)
  {
  }

  function AddAllVerified(c: Collector, votes: seq<Vote>, admit: Admission): Collector {
    if votes == [] then c
    else AddVerified(AddAllVerified(c, votes[..|votes| - 1], admit), votes[|votes| - 1], admit)
  }

  function Cleared(c: Collector, totalStake: nat, generation: nat): Collector {
    Collector(c.slot, totalStake, map[], map[], map[], generation)
  }

  /** The stored votes, buckets taken in the given order. */
  function Flatten(buckets: map<Hash, Bucket>, order: seq<Hash>): seq<Vote>
    requires forall i :: 0 <= i < |order| ==> order[i] in buckets
  {
    if order == [] then []
    else Flatten(buckets, order[..|order| - 1]) + buckets[order[|order| - 1]].votes
  }

  /** What reconciling amounts to, with no order in sight: each bucket keeps its admitted
      votes and disappears when none is left; conflicts on record are forgotten. */
  function Reconciled(c: Collector, totalStake: nat, generation: nat, admit: Admission): Collector {
    Collector(c.slot, totalStake,
      map h | h in c.buckets && Kept(c.buckets[h].votes, admit) != [] ::
        Bucket(Kept(c.buckets[h].votes, admit), StakeSum(Kept(c.buckets[h].votes, admit))),
      map v | v in c.firstHash && c.firstHash[v] in c.buckets && Voted(Kept(c.buckets[c.firstHash[v]].votes, admit), v)
          :: c.firstHash[v],
      map[], generation)
  }

  // ----- lists of votes -----

  lemma {:induction false} KeptConcat(a: seq<Vote>, b: seq<Vote>, admit: Admission)
    ensures Kept(a + b, admit) == Kept(a, admit) + Kept(b, admit)
    decreases |b|
  {
    if b == [] {
      assert a + b == a;
    } else {
      var n := |b| - 1;
      assert (a + b)[..|a + b| - 1] == a + b[..n];
      KeptConcat(a, b[..n], admit);
    }
  }

  lemma {:induction false} ForHashConcat(a: seq<Vote>, b: seq<Vote>, h: Hash)
    ensures ForHash(a + b, h) == ForHash(a, h) + ForHash(b, h)
    decreases |b|
  {
    if b == [] {
      assert a + b == a;
    } else {
      var n := |b| - 1;
      assert (a + b)[..|a + b| - 1] == a + b[..n];
      ForHashConcat(a, b[..n], h);
    }
  }

  lemma {:induction false} KeptComeFrom(votes: seq<Vote>, admit: Admission)
    ensures forall k :: k in Kept(votes, admit) ==>
              exists i :: 0 <= i < |votes| && votes[i].voter == k.voter && votes[i].blockHash == k.blockHash
  {
    if votes != [] {
      var n := |votes| - 1;
      KeptComeFrom(votes[..n], admit);
      forall k | k in Kept(votes, admit)
        ensures exists i :: 0 <= i < |votes| && votes[i].voter == k.voter && votes[i].blockHash == k.blockHash
      {
        if k in Kept(votes[..n], admit) {
          var i :| 0 <= i < n && votes[..n][i].voter == k.voter && votes[..n][i].blockHash == k.blockHash;
          assert votes[i].voter == k.voter;
        } else {
          assert votes[n].voter == k.voter && votes[n].blockHash == k.blockHash;
        }
      }
    }
  }

  lemma {:induction false} KeptDistinct(votes: seq<Vote>, admit: Admission)
    requires DistinctVoters(votes)
    ensures DistinctVoters(Kept(votes, admit))
  {
    if votes != [] {
      var n := |votes| - 1;
      KeptDistinct(votes[..n], admit);
      KeptComeFrom(votes[..n], admit);
      forall i | 0 <= i < |Kept(votes[..n], admit)|
        ensures Kept(votes[..n], admit)[i].voter != votes[n].voter
      {
        assert Kept(votes[..n], admit)[i] in Kept(votes[..n], admit);
      }
    }
  }

  lemma {:induction false} DistinctAreFirst(votes: seq<Vote>)
    requires DistinctVoters(votes)
    ensures FirstVotes(votes) == votes
  {
    if votes != [] {
      DistinctAreFirst(votes[..|votes| - 1]);
    }
  }

  lemma {:induction false} KeptForHash(votes: seq<Vote>, admit: Admission, h: Hash, g: Hash)
    requires AllFor(votes, g)
    ensures ForHash(Kept(votes, admit), h) == if g == h then Kept(votes, admit) else []
  {
    if votes != [] {
      var n := |votes| - 1;
      KeptForHash(votes[..n], admit, h, g);
      if admit(votes[n]).Some? {
        ForHashAppend(Kept(votes[..n], admit), votes[n].(voterStake := admit(votes[n]).value), h);
      } else {
        assert Kept(votes, admit) == Kept(votes[..n], admit);
      }
    }
  }

  // ----- the order does not matter -----

  ghost predicate Enumerates(order: seq<Hash>, hs: set<Hash>) {
    && (forall i, j :: 0 <= i < j < |order| ==> order[i] != order[j])
    && (forall i :: 0 <= i < |order| ==> order[i] in hs)
    && (forall h :: h in hs ==> h in order)
  }

  lemma {:induction false} FlattenOk(c: Collector, order: seq<Hash>)
    requires WellFormed(c)
    requires forall i :: 0 <= i < |order| ==> order[i] in c.buckets
    requires forall i, j :: 0 <= i < j < |order| ==> order[i] != order[j]
    ensures var all := Flatten(c.buckets, order);
            && DistinctVoters(all)
            && (forall i :: 0 <= i < |all| ==>
                  all[i].slot == c.slot && all[i].voter in c.firstHash
                  && c.firstHash[all[i].voter] == all[i].blockHash && all[i].blockHash in order)
    decreases |order|
  {
    if order != [] {
      var n := |order| - 1;
      FlattenOk(c, order[..n]);
      var a, b := Flatten(c.buckets, order[..n]), c.buckets[order[n]].votes;
      assert BucketOk(c, order[n], b);
      forall i, j | 0 <= i < |a| && 0 <= j < |b|
        ensures a[i].voter != b[j].voter
      {
        assert a[i].blockHash in order[..n];
        assert b[j].blockHash == order[n];
      }
    }
  }

  ghost predicate AllFor(votes: seq<Vote>, h: Hash) {
    forall i :: 0 <= i < |votes| ==> votes[i].blockHash == h
  }

  lemma {:induction false} FlattenKeptForHash(c: Collector, order: seq<Hash>, admit: Admission, h: Hash)
    requires WellFormed(c)
    requires forall i :: 0 <= i < |order| ==> order[i] in c.buckets
    requires forall i, j :: 0 <= i < j < |order| ==> order[i] != order[j]
    ensures ForHash(Kept(Flatten(c.buckets, order), admit), h)
         == if h in order then Kept(c.buckets[h].votes, admit) else []
  {
    forall g | g in c.buckets
      ensures AllFor(c.buckets[g].votes, g)
    {
      assert BucketOk(c, g, c.buckets[g].votes);
    }
    BucketsForHash(c.buckets, order, admit, h);
  }

  lemma {:induction false} BucketsForHash(buckets: map<Hash, Bucket>, order: seq<Hash>, admit: Admission, h: Hash)
    requires forall g :: g in buckets ==> AllFor(buckets[g].votes, g)
    requires forall i :: 0 <= i < |order| ==> order[i] in buckets
    requires forall i, j :: 0 <= i < j < |order| ==> order[i] != order[j]
    ensures ForHash(Kept(Flatten(buckets, order), admit), h) == if h in order then Kept(buckets[h].votes, admit) else []
    decreases |order|
  {
    if order != [] {
      var n := |order| - 1;
      var before, g := order[..n], order[n];
      assert order == before + [g] && g !in before;
      BucketsForHash(buckets, before, admit, h);
      OneMoreBucket(Flatten(buckets, before), buckets[g].votes, admit, g, h);
      if h == g {
        assert [] + Kept(buckets[g].votes, admit) == Kept(buckets[g].votes, admit);
      } else {
        assert h in order <==> h in before;
      }
    }
  }

  lemma {:induction false} OneMoreBucket(a: seq<Vote>, b: seq<Vote>, admit: Admission, g: Hash, h: Hash)
    requires AllFor(b, g)
    ensures ForHash(Kept(a + b, admit), h) == ForHash(Kept(a, admit), h) + if g == h then Kept(b, admit) else []
  {
    KeptConcat(a, b, admit);
    ForHashConcat(Kept(a, admit), Kept(b, admit), h);
    KeptForHash(b, admit, h, g);
  }

  lemma {:induction false} CollectFrame(c: Collector, votes: seq<Vote>)
    ensures var r := Collect(c, votes); r.slot == c.slot && r.totalStake == c.totalStake && r.generation == c.generation
  {
    if votes != [] { CollectFrame(c, votes[..|votes| - 1]); }
  }

  lemma {:induction false} AddAllIsCollect(c: Collector, votes: seq<Vote>, admit: Admission)
    requires forall i :: 0 <= i < |votes| ==> votes[i].slot == c.slot
    ensures AddAllVerified(c, votes, admit) == Collect(c, Kept(votes, admit))
    decreases |votes|
  {
    if votes != [] {
      var n := |votes| - 1;
      AddAllIsCollect(c, votes[..n], admit);
      AddVerifiedIsCollect(c, votes[..n], votes[n], admit);
    }
  }

  lemma {:induction false} AddVerifiedIsCollect(c: Collector, before: seq<Vote>, v: Vote, admit: Admission)
    requires v.slot == c.slot
    ensures AddVerified(Collect(c, Kept(before, admit)), v, admit)
         == Collect(c, Kept(before, admit) + (match admit(v) case None => [] case Some(st) => [v.(voterStake := st)]))
  {
    var kept := Kept(before, admit);
    CollectFrame(c, kept);
    match admit(v)
    case None => assert kept + [] == kept;
    case Some(st) => CollectAppend(c, kept, v.(voterStake := st));
  }

  lemma {:induction false} CollectAppend(c: Collector, votes: seq<Vote>, v: Vote)
    ensures Collect(c, votes + [v]) == AddVote(Collect(c, votes), v, v.voterStake).0
  {
    assert (votes + [v])[..|votes|] == votes;
  }

  /** Re-adding the stored votes gives the same collector for every order in which the map
      of buckets is walked. */
  lemma {:induction false} AnyOrderReconciles(c: Collector, totalStake: nat, generation: nat, admit: Admission,
                                              order: seq<Hash>)
    requires WellFormed(c) && Enumerates(order, c.buckets.Keys)
    ensures AddAllVerified(Cleared(c, totalStake, generation), Flatten(c.buckets, order), admit)
         == Reconciled(c, totalStake, generation, admit)
  {
    var empty := Cleared(c, totalStake, generation);
    var all := Flatten(c.buckets, order);
    var kept := Kept(all, admit);
    FlattenOk(c, order);
    AddAllIsCollect(empty, all, admit);
    CollectFrame(empty, kept);
    KeptDistinct(all, admit);
    DistinctAreFirst(kept);
    CollectReflects(empty, kept);
    var r, d := Collect(empty, kept), Reconciled(c, totalStake, generation, admit);
    SameBuckets(c, order, admit, totalStake, generation, r);
    SameVoters(c, order, admit, totalStake, generation, r);
    assert r.equivocators == map[] by {
      forall i | 0 <= i < |kept|
        ensures r.firstHash[kept[i].voter] == kept[i].blockHash
      {
        assert FirstVotes(kept)[i] == kept[i];
      }
    }
    assert r == d;
  }

  lemma {:induction false} SameBuckets(c: Collector, order: seq<Hash>, admit: Admission, totalStake: nat,
                                       generation: nat, r: Collector)
    requires WellFormed(c) && Enumerates(order, c.buckets.Keys)
    requires BucketsReflect(r, Kept(Flatten(c.buckets, order), admit))
    ensures r.buckets == Reconciled(c, totalStake, generation, admit).buckets
  {
    var kept := Kept(Flatten(c.buckets, order), admit);
    var d := Reconciled(c, totalStake, generation, admit);
    forall h
      ensures h in r.buckets <==> h in d.buckets
      ensures h in r.buckets ==> r.buckets[h] == d.buckets[h]
    {
      FlattenKeptForHash(c, order, admit, h);
      assert BucketReflects(r, kept, h);
    }
  }

  lemma {:induction false} SameVoters(c: Collector, order: seq<Hash>, admit: Admission, totalStake: nat,
                                      generation: nat, r: Collector)
    requires WellFormed(c) && Enumerates(order, c.buckets.Keys)
    requires var kept := Kept(Flatten(c.buckets, order), admit); FirstVotes(kept) == kept && VotersReflect(r, kept)
    ensures r.firstHash == Reconciled(c, totalStake, generation, admit).firstHash
  {
    forall v
      ensures var d := Reconciled(c, totalStake, generation, admit);
        (v in r.firstHash <==> v in d.firstHash) && (v in r.firstHash ==> r.firstHash[v] == d.firstHash[v])
    {
      SameVoter(c, order, admit, totalStake, generation, r, v);
    }
    SameMap(r.firstHash, Reconciled(c, totalStake, generation, admit).firstHash);
  }

  lemma {:induction false} SameMap(m: map<AccountId, Hash>, n: map<AccountId, Hash>)
    requires forall v :: (v in m <==> v in n) && (v in m ==> m[v] == n[v])
    ensures m == n
  {
  }

  lemma {:induction false} SameVoter(c: Collector, order: seq<Hash>, admit: Admission, totalStake: nat,
                                     generation: nat, r: Collector, v: AccountId)
    requires WellFormed(c) && Enumerates(order, c.buckets.Keys)
    requires var kept := Kept(Flatten(c.buckets, order), admit); FirstVotes(kept) == kept && VotersReflect(r, kept)
    ensures var d := Reconciled(c, totalStake, generation, admit);
      (v in r.firstHash <==> v in d.firstHash) && (v in r.firstHash ==> r.firstHash[v] == d.firstHash[v])
  {
    if v in r.firstHash { KeptVoter(c, order, admit, r, v); }
    if v in Reconciled(c, totalStake, generation, admit).firstHash {
      VoterKept(c, order, admit, v);
      KeptVoter(c, order, admit, r, v);
    }
  }

  lemma {:induction false} VoterKept(c: Collector, order: seq<Hash>, admit: Admission, v: AccountId)
    requires WellFormed(c) && Enumerates(order, c.buckets.Keys)
    requires v in c.firstHash && c.firstHash[v] in c.buckets && Voted(Kept(c.buckets[c.firstHash[v]].votes, admit), v)
    ensures Voted(Kept(Flatten(c.buckets, order), admit), v)
  {
    var h := c.firstHash[v];
    FlattenKeptForHash(c, order, admit, h);
    VotedForHash(Kept(Flatten(c.buckets, order), admit), h, v);
  }

  lemma {:induction false} KeptVoter(c: Collector, order: seq<Hash>, admit: Admission, r: Collector, v: AccountId)
    requires WellFormed(c) && Enumerates(order, c.buckets.Keys)
    requires var kept := Kept(Flatten(c.buckets, order), admit); FirstVotes(kept) == kept && VotersReflect(r, kept)
    requires v in r.firstHash
    ensures v in c.firstHash && r.firstHash[v] == c.firstHash[v]
    ensures c.firstHash[v] in c.buckets && Voted(Kept(c.buckets[c.firstHash[v]].votes, admit), v)
  {
    var all := Flatten(c.buckets, order);
    var kept := Kept(all, admit);
    assert Voted(kept, v);
    var i :| 0 <= i < |kept| && kept[i].voter == v;
    assert FirstVotes(kept)[i] == kept[i] && kept[i] in kept;
    var h := kept[i].blockHash;
    FlattenOk(c, order);
    KeptComeFrom(all, admit);
    assert c.firstHash[v] == h;
    FlattenKeptForHash(c, order, admit, h);
    InForHash(kept, i, h);
  }

  lemma {:induction false} InForHash(votes: seq<Vote>, i: nat, h: Hash)
    requires i < |votes| && votes[i].blockHash == h
    ensures Voted(ForHash(votes, h), votes[i].voter)
  {
    var n := |votes| - 1;
    var f := ForHash(votes[..n], h);
    if i < n {
      InForHash(votes[..n], i, h);
      if votes[n].blockHash == h {
        VotedAppend(f, votes[n], votes[i].voter);
      } else {
        assert ForHash(votes, h) == f;
      }
    } else {
      VotedAppend(f, votes[n], votes[i].voter);
    }
  }

  lemma {:induction false} VotedForHash(votes: seq<Vote>, h: Hash, v: AccountId)
    requires Voted(ForHash(votes, h), v)
    ensures Voted(votes, v)
  {
    if votes != [] {
      var n := |votes| - 1;
      VotedInit(votes, v);
      var f := ForHash(votes[..n], h);
      if votes[n].blockHash == h { VotedAppend(f, votes[n], v); } else { assert ForHash(votes, h) == f; }
      if Voted(f, v) { VotedForHash(votes[..n], h, v); }
    }
  }
}
