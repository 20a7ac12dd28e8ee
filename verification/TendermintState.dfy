/** The round state machine as the mutable object the engine drives; every method is proved
    to take the step its specification function describes. */
module TendermintStates {
  import opened Basics
  import opened VoteCollection
  import opened VoteCollectors
  import opened TendermintSpec

  class TendermintState {
    var height: nat
    var round: nat
    var step: RoundStep
    var proposalHash: Option<Hash>
    var proposalReceived: bool
    var lockedRound: Option<nat>
    var lockedHash: Option<Hash>
    var validRound: Option<nat>
    var validHash: Option<Hash>
    var prevotes: VoteCollector
    var precommits: VoteCollector
    var totalStake: nat
    var prevoted: bool
    var precommitted: bool
    var committedHash: Option<Hash>
    var futureVotes: map<nat, seq<BufferedVote>>
    var pastQuorums: set<(nat, Hash)>

    /** The two collectors are separate objects. */
    ghost predicate Valid()
      reads this
    {
      prevotes != precommits
    }

    ghost function View(): Node
      reads this, prevotes, precommits
    {
      Node(height, round, step, proposalHash, proposalReceived, lockedRound, lockedHash, validRound, validHash,
           prevotes.View(), precommits.View(), totalStake, prevoted, precommitted, committedHash,
           futureVotes, pastQuorums)
    }

    constructor (height: nat, totalStake: nat)
      ensures Valid() && fresh(prevotes) && fresh(precommits)
      ensures View() == NewNode(height, totalStake)
    {
      this.height, this.round, this.step, this.totalStake := height, 0, Propose, totalStake;
      proposalHash, proposalReceived := None, false;
      lockedRound, lockedHash, validRound, validHash := None, None, None, None;
      prevoted, precommitted, committedHash := false, false, None;
      futureVotes, pastQuorums := map[], {};
      prevotes := new VoteCollector(height, totalStake);
      precommits := new VoteCollector(height, totalStake);
    }

    method ResetCollectors(h: nat, total: nat)
      modifies this`prevotes, this`precommits
      ensures Valid() && fresh(prevotes) && fresh(precommits)
      ensures prevotes.View() == precommits.View() == NewCollector(h, total)
    {
      prevotes := new VoteCollector(h, total);
      precommits := new VoteCollector(h, total);
    }

    /** A new height forgets everything about the old one. */
    method NewHeight(h: nat, total: nat)
      modifies this
      ensures Valid() && fresh(prevotes) && fresh(precommits)
      ensures View() == NewNode(h, total)
    {
      height, totalStake := h, total;
      Unlock();
      Forget();
      NewRoundAt(0);
    }

    method Unlock()
      modifies this`lockedRound, this`lockedHash, this`validRound, this`validHash
      ensures View() == old(View()).(lockedRound := None, lockedHash := None, validRound := None, validHash := None)
    {
      lockedRound, lockedHash := None, None;
      validRound, validHash := None, None;
    }

    method Forget()
      modifies this`committedHash, this`futureVotes, this`pastQuorums
      ensures View() == old(View()).(committedHash := None, futureVotes := map[], pastQuorums := {})
    {
      committedHash := None;
      futureVotes := map[];
      pastQuorums := {};
    }

    method NewRoundAt(r: nat)
      modifies this
      ensures Valid() && fresh(prevotes) && fresh(precommits)
      ensures View() == NewRound(old(View()), r)
    {
      ResetCollectors(height, totalStake);
      round, step := r, Propose;
      proposalHash, proposalReceived := None, false;
      prevoted, precommitted := false, false;
    }

    method SendPrevote(h: Hash) returns (a: Action)
      requires Valid()
      modifies this`prevoted, this`step
      ensures (View(), a) == DoPrevote(old(View()), h)
    {
      if prevoted { return NoAction; }
      prevoted := true;
      if step == Propose { step := Prevote; }
      return BroadcastPrevote(height, round, h);
    }

    method SendPrecommit(h: Hash) returns (a: Action)
      requires Valid()
      modifies this`precommitted
      ensures (View(), a) == DoPrecommit(old(View()), h)
    {
      if precommitted { return NoAction; }
      precommitted := true;
      return BroadcastPrecommit(height, round, h);
    }

    method AcceptProposal(h: Hash)
      modifies this`proposalHash, this`proposalReceived
      ensures View() == old(View()).(proposalHash := Some(h), proposalReceived := true)
    {
      proposalHash := Some(h);
      proposalReceived := true;
    }

    method Proposal(msgHeight: nat, msgRound: nat, h: Hash, vr: Option<nat>) returns (a: Action)
      requires Valid()
      modifies this
      ensures Valid() && prevotes == old(prevotes) && precommits == old(precommits)
      ensures (View(), a) == OnProposal(old(View()), msgHeight, msgRound, h, vr)
    {
      if msgHeight != height || msgRound != round { return NoAction; }
      if proposalReceived { return NoAction; }
      if step != Propose { return NoAction; }
      AcceptProposal(h);
      if lockedHash.Some? {
        if h == lockedHash.value {
          a := SendPrevote(h);
          return;
        }
        if vr.Some? && lockedRound.Some? {
          if vr.value >= lockedRound.value {
            if (vr.value, h) in pastQuorums {
              a := SendPrevote(h);
              return;
            }
            a := SendPrevote(NIL);
            return;
          }
        }
        a := SendPrevote(NIL);
        return;
      }
      if vr.Some? {
        if (vr.value, h) !in pastQuorums {
          a := SendPrevote(NIL);
          return;
        }
      }
      a := SendPrevote(h);
    }

    method Prevoted(msgHeight: nat, msgRound: nat, h: Hash, voter: AccountId, stake: nat) returns (a: Action)
      requires Valid()
      modifies this, prevotes
      ensures Valid() && prevotes == old(prevotes) && precommits == old(precommits)
      ensures (View(), a) == OnPrevote(old(View()), msgHeight, msgRound, h, voter, stake)
    {
      if msgHeight != height { return NoAction; }
      if msgRound > round {
        var waiting := if msgRound in futureVotes then futureVotes[msgRound] else [];
        futureVotes := futureVotes[msgRound := waiting + [BufferedVote(voter, h, stake, false)]];
        return NoAction;
      }
      if msgRound != round { return NoAction; }
      if step == Committed || step == CommitWait { return NoAction; }

      var _ := prevotes.AddVoteRaw(voter, h, stake);
      var quorum := prevotes.QuorumBlockHash();
      a := AfterPrevote(quorum);
    }

    /** What a prevote of the current round leads to, given the collector's quorum. */
    method AfterPrevote(quorum: Option<Hash>) returns (a: Action)
      requires Valid()
      modifies this
      ensures Valid() && prevotes == old(prevotes) && precommits == old(precommits)
      ensures (View(), a) == PrevoteOutcome(old(View()), quorum)
    {
      if quorum.Some? {
        if quorum.value != NIL {
          NoteQuorum(quorum.value);
          if step == Prevote {
            a := LockAndPrecommit(quorum.value);
            return;
          }
        } else {
          if step == Prevote {
            step := Precommit;
            a := SendPrecommit(NIL);
            return;
          }
        }
      }
      a := PrevoteLate();
    }

    method NoteQuorum(h: Hash)
      modifies this`pastQuorums, this`validRound, this`validHash
      ensures View() == RecordQuorum(old(View()), h)
    {
      pastQuorums := pastQuorums + {(round, h)};
      validRound := Some(round);
      validHash := Some(h);
    }

    method LockAndPrecommit(h: Hash) returns (a: Action)
      requires Valid()
      modifies this`lockedRound, this`lockedHash, this`step, this`precommitted
      ensures (View(), a) ==
              DoPrecommit(old(View()).(lockedRound := Some(round), lockedHash := Some(h), step := Precommit), h)
    {
      lockedRound := Some(round);
      lockedHash := Some(h);
      step := Precommit;
      a := SendPrecommit(h);
    }

    method PrevoteLate() returns (a: Action)
      requires Valid()
      modifies this`prevoted, this`step
      ensures (View(), a) == LatePrevote(old(View()))
    {
      if step == Propose && proposalReceived && !prevoted {
        var own := if proposalHash.Some? then proposalHash.value else NIL;
        if lockedHash.Some? {
          if own != lockedHash.value {
            a := SendPrevote(NIL);
            return;
          }
        }
        a := SendPrevote(own);
        return;
      }
      return NoAction;
    }

    method Precommitted(msgHeight: nat, msgRound: nat, h: Hash, voter: AccountId, stake: nat) returns (a: Action)
      requires Valid()
      modifies this, precommits
      ensures Valid() && prevotes == old(prevotes) && precommits == old(precommits)
      ensures (View(), a) == OnPrecommit(old(View()), msgHeight, msgRound, h, voter, stake)
    {
      if msgHeight != height { return NoAction; }
      if msgRound > round {
        var waiting := if msgRound in futureVotes then futureVotes[msgRound] else [];
        futureVotes := futureVotes[msgRound := waiting + [BufferedVote(voter, h, stake, true)]];
        return NoAction;
      }
      if msgRound != round { return NoAction; }
      if step == Committed || step == CommitWait {
        if step == CommitWait {
          var _ := precommits.AddVoteRaw(voter, h, stake);
        }
        return NoAction;
      }
      var _ := precommits.AddVoteRaw(voter, h, stake);
      var quorum := precommits.QuorumBlockHash();
      if quorum.Some? {
        if quorum.value != NIL {
          a := CommitTo(quorum.value);
          return;
        }
      }
      return NoAction;
    }

    method CommitTo(h: Hash) returns (a: Action)
      modifies this`step, this`committedHash
      ensures View() == old(View()).(step := CommitWait, committedHash := Some(h))
      ensures a == Commit(height, round, h)
    {
      step := CommitWait;
      committedHash := Some(h);
      return Commit(height, round, h);
    }

    method ProposeTimeout() returns (a: Action)
      requires Valid()
      modifies this
      ensures Valid() && prevotes == old(prevotes) && precommits == old(precommits)
      ensures (View(), a) == OnProposeTimeout(old(View()))
    {
      if step != Propose { return NoAction; }
      a := SendPrevote(NIL);
    }

    method PrevoteTimeout() returns (a: Action)
      requires Valid()
      modifies this
      ensures Valid() && prevotes == old(prevotes) && precommits == old(precommits)
      ensures (View(), a) == OnPrevoteTimeout(old(View()))
    {
      if step != Prevote { return NoAction; }
      step := Precommit;
      a := SendPrecommit(NIL);
    }

    method PrecommitTimeout() returns (a: Action)
      requires Valid()
      modifies this
      ensures Valid() && fresh({prevotes, precommits} - {old(prevotes), old(precommits)})
      ensures (View(), a) == OnPrecommitTimeout(old(View()))
    {
      if step == Committed || step == CommitWait { return NoAction; }
      var newRound := (round + 1) % (U32_MAX + 1);
      NewRoundAt(newRound);
      return ScheduleProposal(height, newRound);
    }

    method CommitWaitTimeout() returns (a: Action)
      requires Valid()
      modifies this
      ensures Valid() && prevotes == old(prevotes) && precommits == old(precommits)
      ensures (View(), a) == OnCommitWaitTimeout(old(View()))
    {
      if step == CommitWait { step := Committed; }
      return NoAction;
    }

    /** The engine's timer. */
    method Timeout() returns (a: Action)
      requires Valid()
      modifies this
      ensures Valid() && fresh({prevotes, precommits} - {old(prevotes), old(precommits)})
      ensures (View(), a) == OnTimeout(old(View()))
    {
      match step
      case Propose => a := ProposeTimeout();
      case Prevote => a := PrevoteTimeout();
      case Precommit => a := PrecommitTimeout();
      case CommitWait => a := CommitWaitTimeout();
      case Committed => a := NoAction;
    }

    method Certificate(msgHeight: nat, msgRound: nat, h: Hash)
      requires Valid()
      modifies this
      ensures Valid() && prevotes == old(prevotes) && precommits == old(precommits)
      ensures View() == ForceCommit(old(View()), msgHeight, msgRound, h)
    {
      if msgHeight != height { return; }
      round := msgRound;
      step := CommitWait;
      committedHash := Some(h);
    }

    method TakeBuffered() returns (votes: seq<BufferedVote>)
      requires Valid() && round in futureVotes
      modifies this`futureVotes
      ensures votes == old(futureVotes)[round]
      ensures View() == TakeBuffer(old(View()))
    {
      votes := futureVotes[round];
      futureVotes := futureVotes - {round};
      if round > 0 {
        futureVotes := map r | r in futureVotes && r >= round :: futureVotes[r];
      }
    }

    method ReplayVote(v: BufferedVote) returns (a: Action)
      requires Valid()
      modifies this, prevotes, precommits
      ensures Valid() && prevotes == old(prevotes) && precommits == old(precommits)
      ensures (View(), a) == ReplayOne(old(View()), v)
    {
      if v.isPrecommit {
        a := Precommitted(height, round, v.blockHash, v.voter, v.stake);
      } else {
        a := Prevoted(height, round, v.blockHash, v.voter, v.stake);
      }
    }

    /** Replay the votes buffered for the current round. */
    method Drain() returns (actions: seq<Action>)
      requires Valid()
      modifies this, prevotes, precommits
      ensures Valid() && prevotes == old(prevotes) && precommits == old(precommits)
      ensures (View(), actions) == DrainBufferedVotes(old(View()))
    {
      if round !in futureVotes { return []; }
      var votes := TakeBuffered();
      ghost var taken := View();
      actions := [];
      var i := 0;
      while i < |votes|
        invariant 0 <= i <= |votes|
        invariant Valid() && prevotes == old(prevotes) && precommits == old(precommits)
        invariant (View(), actions) == Replay(taken, votes[..i])
      {
        var a := ReplayVote(votes[i]);
        if a != NoAction { actions := actions + [a]; }
        assert votes[..i + 1][..i] == votes[..i];
        i := i + 1;
      }
      assert votes[..|votes|] == votes;
    }
  }
}
