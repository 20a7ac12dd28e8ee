/** The vote collector as the mutable object the engine keeps per slot. */
module VoteCollectors {
  import opened OrderedSets
  import opened Basics
  import opened Stake
  import opened VoteCollection
  import opened Reconcile

  /** The keys in ascending order. */
  method SortedKeys(keys: set<Hash>) returns (ks: seq<Hash>)
    ensures forall i, j :: 0 <= i < j < |ks| ==> ks[i] < ks[j]
    ensures forall h :: h in ks <==> h in keys
  {
    ks := [];
    var rest := keys;
    while rest != {}
      invariant rest <= keys
      invariant forall i, j :: 0 <= i < j < |ks| ==> ks[i] < ks[j]
      invariant forall i, h :: 0 <= i < |ks| && h in rest ==> ks[i] < h
      invariant forall h :: h in keys <==> h in ks || h in rest
      decreases rest
    {
      var m := Min(rest);
      ks := ks + [m];
      rest := rest - {m};
    }
  }

  class VoteCollector {
    var slot: nat
    var totalStake: nat
    var buckets: map<Hash, Bucket>
    var voterFirstHash: map<AccountId, Hash>
    var equivocators: map<AccountId, (Hash, Hash)>
    var validatorSetGeneration: nat

    ghost function View(): Collector
      reads this
    {
      Collector(slot, totalStake, buckets, voterFirstHash, equivocators, validatorSetGeneration)
    }

    constructor (slot: nat, totalStake: nat)
      ensures View() == NewCollector(slot, totalStake)
    {
      this.slot, this.totalStake := slot, totalStake;
      buckets, voterFirstHash, equivocators := map[], map[], map[];
      validatorSetGeneration := 0;
    }

    method AddVoteInternal(v: Vote, canonicalStake: nat) returns (added: bool)
      modifies this
      ensures View() == AddVote(old(View()), v, canonicalStake).0
      ensures added == AddVote(old(View()), v, canonicalStake).1
    {
      var vote := v.(voterStake := canonicalStake);
      if vote.voter in voterFirstHash {
        var first := voterFirstHash[vote.voter];
        if first != vote.blockHash {
          equivocators := equivocators[vote.voter := (first, vote.blockHash)];
          return false;
        }
        return false;
      }
      var bucket := if vote.blockHash in buckets then buckets[vote.blockHash] else Bucket([], 0);
      voterFirstHash := voterFirstHash[vote.voter := vote.blockHash];
      bucket := bucket.(votedStake := bucket.votedStake + vote.voterStake);
      bucket := bucket.(votes := bucket.votes + [vote]);
      buckets := buckets[vote.blockHash := bucket];
      return true;
    }

    method AddVoteRaw(voter: AccountId, blockHash: Hash, stake: nat) returns (added: bool)
      modifies this
      ensures View() == AddRaw(old(View()), voter, blockHash, stake)
      ensures added <==> voter !in old(voterFirstHash)
    {
      added := AddVoteInternal(Vote(slot, blockHash, voter, stake, 0), stake);
    }

    method AddVoteVerified(v: Vote, admit: Admission) returns (added: bool)
      modifies this
      ensures View() == AddVerified(old(View()), v, admit)
      ensures added <==> v.slot == old(slot) && admit(v).Some? && v.voter !in old(View()).firstHash
    {
      if v.slot != slot { return false; }
      match admit(v)
      case None => return false;
      case Some(stake) => added := AddVoteInternal(v, stake);
    }

    /** One bucket: look at it. More: look at the hashes in ascending order. */
    method QuorumBlockHash() returns (r: Option<Hash>)
      ensures r == QuorumHash(View())
    {
      ghost var c := View();
      if |buckets| <= 1 {
        if |buckets| == 0 {
          assert buckets.Keys == {};
          return None;
        }
        var h :| h in buckets.Keys;
        assert |buckets.Keys - {h}| == |buckets.Keys| - 1 == 0;
        assert forall g :: BucketHasQuorum(c, g) ==> g in buckets.Keys - {h} || g == h;
        return if HasQuorum(buckets[h].votedStake, totalStake) then Some(h) else None;
      }
      var ks := SortedKeys(buckets.Keys);
      var i := 0;
      while i < |ks|
        invariant 0 <= i <= |ks|
        invariant forall j :: 0 <= j < i ==> !BucketHasQuorum(c, ks[j])
      {
        if HasQuorum(buckets[ks[i]].votedStake, totalStake) {
          assert BucketHasQuorum(c, ks[i]);
          forall h | BucketHasQuorum(c, h)
            ensures ks[i] <= h
          {
            var j :| 0 <= j < |ks| && ks[j] == h;
          }
          return Some(ks[i]);
        }
        i := i + 1;
      }
      assert forall h :: BucketHasQuorum(c, h) ==> h in ks;
      return None;
    }

    /** The stored votes, walking the buckets in no particular order. */
    method StoredVotes() returns (votes: seq<Vote>, ghost order: seq<Hash>)
      ensures Enumerates(order, buckets.Keys) && votes == Flatten(buckets, order)
    {
      votes, order := [], [];
      var rest := buckets.Keys;
      while rest != {}
        invariant rest <= buckets.Keys
        invariant Enumerates(order, buckets.Keys - rest)
        invariant votes == Flatten(buckets, order)
        decreases rest
      {
        var h :| h in rest;
        votes := votes + buckets[h].votes;
        ghost var before := order;
        order := order + [h];
        assert order[..|order| - 1] == before;
        assert forall g :: g in buckets.Keys - (rest - {h}) ==> g == h || g in before;
        rest := rest - {h};
      }
      assert buckets.Keys - rest == buckets.Keys;
    }

    /** Re-verify the stored votes under a new set. */
    method ReconcileValidatorSet(newTotal: nat, newGeneration: nat, admit: Admission)
      requires WellFormed(View())
      modifies this
      ensures View() == if newGeneration == old(validatorSetGeneration) then old(View())
                        else Reconciled(old(View()), newTotal, newGeneration, admit)
    {
      if validatorSetGeneration == newGeneration { return; }
      ghost var c := View();
      var votes, order := StoredVotes();
      AnyOrderReconciles(c, newTotal, newGeneration, admit, order);
      buckets, voterFirstHash, equivocators := map[], map[], map[];
      totalStake := newTotal;
      validatorSetGeneration := newGeneration;
      AddAll(votes, admit);
    }

    method AddAll(votes: seq<Vote>, admit: Admission)
      modifies this
      ensures View() == AddAllVerified(old(View()), votes, admit)
    {
      var i := 0;
      while i < |votes|
        invariant 0 <= i <= |votes|
        invariant View() == AddAllVerified(old(View()), votes[..i], admit)
      {
        var _ := AddVoteVerified(votes[i], admit);
        assert votes[..i + 1][..i] == votes[..i];
        i := i + 1;
      }
      assert votes[..|votes|] == votes;
    }
  }
}
