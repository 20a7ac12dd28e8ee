/** What a node answers to timeouts, early votes and certificates, and how a locked block is
    decided in a later round. */
module NodeRules {
  import opened Basics
  import opened Stake
  import opened VoteCollection
  import opened TendermintSpec
  import opened NodeRuns
  import opened NodeProgress

  // ----- what is ignored -----

  /** A proposal of another height or round, or after the first, changes nothing. */
  lemma {:induction false} OtherProposalsIgnored(s: Node, height: nat, round: nat, h: Hash, vr: Option<nat>)
    requires height != s.height || round != s.round || s.step != Propose || s.proposalReceived
    ensures Handle(s, ProposalEvent(height, round, h, vr)) == (s, [])
  {
  }

  /** So does a vote of another height or an earlier round. */
  lemma {:induction false} OldVotesIgnored(s: Node, height: nat, round: nat, h: Hash, voter: AccountId, stake: nat)
    requires height != s.height || round < s.round
    ensures Handle(s, PrevoteEvent(height, round, h, voter, stake)) == (s, [])
    ensures Handle(s, PrecommitEvent(height, round, h, voter, stake)) == (s, [])
  {
  }

  // ----- timeouts -----

  /** The node of the next round: fresh collectors and flags, the same locks and records. */
  predicate NextRound(s: Node, t: Node) {
    && t.round == s.round + 1 && t.height == s.height && t.totalStake == s.totalStake && t.step == Propose
    && !t.prevoted && !t.precommitted && !t.proposalReceived && t.proposalHash == None
    && t.lockedRound == s.lockedRound && t.lockedHash == s.lockedHash && t.pastQuorums == s.pastQuorums
    && t.validRound == s.validRound && t.validHash == s.validHash
    && t.futureVotes == s.futureVotes && t.committedHash == s.committedHash
    && t.prevotes == NewCollector(s.height, s.totalStake) && t.precommits == NewCollector(s.height, s.totalStake)
  }

  /** The timer acts on the step: it prevotes nil, then precommits nil, then starts the next
      round; in a decided node it only ends the wait. */
  lemma {:induction false} TimerAnswers(s: Node)
    requires Flags(s)
    ensures s.step == Propose ==>
      Handle(s, TimeoutEvent) == (s.(step := Prevote, prevoted := true), [BroadcastPrevote(s.height, s.round, NIL)])
    ensures s.step == Prevote ==>
      Handle(s, TimeoutEvent)
      == (s.(step := Precommit, precommitted := true), [BroadcastPrecommit(s.height, s.round, NIL)])
    ensures s.step == Precommit && s.round < U32_MAX ==>
      NextRound(s, Handle(s, TimeoutEvent).0) && Handle(s, TimeoutEvent).1 == [ScheduleProposal(s.height, s.round + 1)]
    ensures s.step == CommitWait ==> Handle(s, TimeoutEvent) == (s.(step := Committed), [])
    ensures s.step == Committed ==> Handle(s, TimeoutEvent) == (s, [])
  {
  }

  /** Each named timeout acts as the timer does in its own step and not in the others, but the
      precommit timeout starts the next round from every step of a running node. */
  lemma {:induction false} NamedTimeouts(s: Node)
    requires Flags(s)
    ensures Handle(s, ProposeTimeoutEvent) == if s.step == Propose then Handle(s, TimeoutEvent) else (s, [])
    ensures Handle(s, PrevoteTimeoutEvent) == if s.step == Prevote then Handle(s, TimeoutEvent) else (s, [])
    ensures Handle(s, CommitWaitTimeoutEvent) == if s.step == CommitWait then Handle(s, TimeoutEvent) else (s, [])
    ensures Halted(s) ==> Handle(s, PrecommitTimeoutEvent) == (s, [])
    ensures !Halted(s) && s.round < U32_MAX ==>
      && NextRound(s, Handle(s, PrecommitTimeoutEvent).0)
      && Handle(s, PrecommitTimeoutEvent).1 == [ScheduleProposal(s.height, s.round + 1)]
  {
  }

  lemma {:induction false} ThreeSteps(s: Node, e: Event, s1: Node, a1: Action, s2: Node, a2: Action, s3: Node,
                                      a3: Action)
    requires Handle(s, e) == (s1, [a1]) && Handle(s1, e) == (s2, [a2]) && Handle(s2, e) == (s3, [a3])
    ensures Run(s, [e, e, e]) == (s3, [a1, a2, a3])
  {
    StepOf(s, [], e, [e]);
    StepOf(s, [e], e, [e, e]);
    StepOf(s, [e, e], e, [e, e, e]);
    assert [] + [a1] == [a1] && [a1] + [a2] == [a1, a2] && [a1, a2] + [a3] == [a1, a2, a3];
  }

  /** Three timeouts pass a round in which nothing is heard. */
  lemma {:induction false} SilentRound(s: Node)
    requires s.step == Propose && Flags(s) && s.round < U32_MAX
    ensures var (t, actions) := Run(s, [TimeoutEvent, TimeoutEvent, TimeoutEvent]);
      && NextRound(s, t)
      && actions == [BroadcastPrevote(s.height, s.round, NIL), BroadcastPrecommit(s.height, s.round, NIL),
                     ScheduleProposal(s.height, s.round + 1)]
  {
    var s1 := s.(step := Prevote, prevoted := true);
    var s2 := s1.(step := Precommit, precommitted := true);
    TimerAnswers(s);
    TimerAnswers(s1);
    TimerAnswers(s2);
    ThreeSteps(s, TimeoutEvent, s1, BroadcastPrevote(s.height, s.round, NIL), s2,
               BroadcastPrecommit(s.height, s.round, NIL), Handle(s2, TimeoutEvent).0,
               ScheduleProposal(s.height, s.round + 1));
  }

  // ----- prevotes of any kind -----

  ghost predicate LowestQuorum(c: Collector, q: Hash) {
    BucketHasQuorum(c, q) && forall h :: BucketHasQuorum(c, h) ==> q <= h
  }

  /** What a prevote of the current round does to a node that waits for prevotes: when some
      hash then has two thirds, it precommits the lowest such, and if that is a block it locks on
      it and puts it on record; otherwise it only counts the vote. */
  lemma {:induction false} PrevoteAnswer(s: Node, h: Hash, voter: AccountId, stake: nat, q: Hash)
    requires s.step == Prevote && Flags(s)
    ensures var c := AddRaw(s.prevotes, voter, h, stake);
      var (t, actions) := Handle(s, PrevoteEvent(s.height, s.round, h, voter, stake));
      && t.prevotes == c
      && ((forall g :: !BucketHasQuorum(c, g)) ==> t == s.(prevotes := c) && actions == [])
      && (LowestQuorum(c, q) && q == NIL ==>
            && t == s.(prevotes := c, step := Precommit, precommitted := true)
            && actions == [BroadcastPrecommit(s.height, s.round, NIL)])
      && (LowestQuorum(c, q) && q != NIL ==>
            && t == s.(prevotes := c, step := Precommit, precommitted := true, lockedRound := Some(s.round),
                       lockedHash := Some(q), validRound := Some(s.round), validHash := Some(q),
                       pastQuorums := s.pastQuorums + {(s.round, q)})
            && actions == [BroadcastPrecommit(s.height, s.round, q)])
  {
    var c := AddRaw(s.prevotes, voter, h, stake);
    if LowestQuorum(c, q) { assert QuorumHash(c) == Some(q); }
  }

  /** Before the node has prevoted, and after it has precommitted, a prevote is counted and a quorum
      for a block remembered, without a lock and without an answer. */
  lemma {:induction false} PrevoteRemembered(s: Node, h: Hash, voter: AccountId, stake: nat, q: Hash)
    requires (s.step == Propose || s.step == Precommit) && Flags(s)
    ensures var c := AddRaw(s.prevotes, voter, h, stake);
      var (t, actions) := Handle(s, PrevoteEvent(s.height, s.round, h, voter, stake));
      && actions == []
      && ((forall g :: !BucketHasQuorum(c, g)) || (LowestQuorum(c, q) && q == NIL) ==> t == s.(prevotes := c))
      && (LowestQuorum(c, q) && q != NIL ==>
            t == s.(prevotes := c, validRound := Some(s.round), validHash := Some(q),
                    pastQuorums := s.pastQuorums + {(s.round, q)}))
  {
    var c := AddRaw(s.prevotes, voter, h, stake);
    if LowestQuorum(c, q) { assert QuorumHash(c) == Some(q); }
  }

  /** A node that has decided takes no more prevotes; it counts precommits until its wait ends. */
  lemma {:induction false} DecidedListens(s: Node, h: Hash, voter: AccountId, stake: nat)
    requires Halted(s)
    ensures Handle(s, PrevoteEvent(s.height, s.round, h, voter, stake)) == (s, [])
    ensures Handle(s, PrecommitEvent(s.height, s.round, h, voter, stake))
         == (if s.step == Committed then s else s.(precommits := AddRaw(s.precommits, voter, h, stake)), [])
  {
  }

  /** A precommit of the current round decides a running node exactly when the lowest hash with
      two thirds is a block. */
  lemma {:induction false} PrecommitAnswer(s: Node, h: Hash, voter: AccountId, stake: nat, q: Hash)
    requires !Halted(s)
    ensures var c := AddRaw(s.precommits, voter, h, stake);
      var (t, actions) := Handle(s, PrecommitEvent(s.height, s.round, h, voter, stake));
      && ((forall g :: !BucketHasQuorum(c, g)) ==> t == s.(precommits := c) && actions == [])
      && (LowestQuorum(c, q) && q == NIL ==> t == s.(precommits := c) && actions == [])
      && (LowestQuorum(c, q) && q != NIL ==>
            && t == s.(precommits := c, step := CommitWait, committedHash := Some(q))
            && actions == [Commit(s.height, s.round, q)])
  {
    var c := AddRaw(s.precommits, voter, h, stake);
    if LowestQuorum(c, q) { assert QuorumHash(c) == Some(q); }
  }

  /** A certificate for a block decides a running node of its height, and is else ignored. */
  lemma {:induction false} CertificateAnswer(s: Node, height: nat, round: nat, h: Hash)
    ensures Handle(s, CertificateEvent(height, round, h))
         == (if s.step != CommitWait && s.step != Committed && h != NIL && height == s.height
             then s.(round := round, step := CommitWait, committedHash := Some(h)) else s, [])
  {
  }

  // ----- early votes -----

  function VoteEvent(height: nat, round: nat, v: BufferedVote): Event {
    if v.isPrecommit then PrecommitEvent(height, round, v.blockHash, v.voter, v.stake)
    else PrevoteEvent(height, round, v.blockHash, v.voter, v.stake)
  }

  function VoteEvents(height: nat, round: nat, votes: seq<BufferedVote>): (es: seq<Event>)
    ensures |es| == |votes|
  {
    seq(|votes|, i requires 0 <= i < |votes| => VoteEvent(height, round, votes[i]))
  }

  function Kept(s: Node, round: nat): seq<BufferedVote> {
    if round in s.futureVotes then s.futureVotes[round] else []
  }

  /** A vote of a later round waits behind those already kept for that round. */
  lemma {:induction false} EarlyVoteWaits(s: Node, round: nat, v: BufferedVote)
    requires round > s.round
    ensures Handle(s, VoteEvent(s.height, round, v))
         == (s.(futureVotes := s.futureVotes[round := Kept(s, round) + [v]]), [])
  {
  }

  lemma {:induction false} ReplayOneIs(s: Node, v: BufferedVote)
    ensures One(ReplayOne(s, v)) == Handle(s, VoteEvent(s.height, s.round, v))
    ensures ReplayOne(s, v).0.height == s.height && ReplayOne(s, v).0.round == s.round
  {
  }

  lemma {:induction false} ReplayIsRun(s: Node, votes: seq<BufferedVote>)
    ensures Replay(s, votes) == Run(s, VoteEvents(s.height, s.round, votes))
    ensures Replay(s, votes).0.height == s.height && Replay(s, votes).0.round == s.round
    decreases |votes|
  {
    if votes != [] {
      var n := |votes| - 1;
      ReplayIsRun(s, votes[..n]);
      EventsGrow(s.height, s.round, votes);
      ReplayOn(s, votes, VoteEvents(s.height, s.round, votes[..n]), VoteEvents(s.height, s.round, votes));
    }
  }

  lemma {:induction false} EventsGrow(height: nat, round: nat, votes: seq<BufferedVote>)
    requires votes != []
    ensures var n := |votes| - 1;
      VoteEvents(height, round, votes) == VoteEvents(height, round, votes[..n]) + [VoteEvent(height, round, votes[n])]
  {
  }

  lemma {:induction false} ReplayOn(s: Node, votes: seq<BufferedVote>, es: seq<Event>, more: seq<Event>)
    requires votes != [] && Replay(s, votes[..|votes| - 1]) == Run(s, es)
    requires Replay(s, votes[..|votes| - 1]).0.height == s.height && Replay(s, votes[..|votes| - 1]).0.round == s.round
    requires more == es + [VoteEvent(s.height, s.round, votes[|votes| - 1])]
    ensures Replay(s, votes) == Run(s, more)
    ensures Replay(s, votes).0.height == s.height && Replay(s, votes).0.round == s.round
  {
    var (t, actions) := Run(s, es);
    var e := VoteEvent(s.height, s.round, votes[|votes| - 1]);
    ReplayStep(s, votes, t, actions, e);
    StepOf(s, es, e, more);
  }

  lemma {:induction false} ReplayStep(s: Node, votes: seq<BufferedVote>, t: Node, actions: seq<Action>, e: Event)
    requires votes != [] && Replay(s, votes[..|votes| - 1]) == (t, actions)
    requires e == VoteEvent(t.height, t.round, votes[|votes| - 1])
    ensures Replay(s, votes) == (Handle(t, e).0, actions + Handle(t, e).1)
    ensures Replay(s, votes).0.height == t.height && Replay(s, votes).0.round == t.round
  {
    ReplayOneIs(t, votes[|votes| - 1]);
    assert actions + [] == actions;
  }

  /** Draining does what the kept votes of the round would do if they arrived now, in the order
      in which they came; votes of later rounds stay, those of earlier ones go. */
  lemma {:induction false} DrainIsDelivery(s: Node)
    ensures s.round !in s.futureVotes ==> Handle(s, DrainEvent) == (s, [])
    ensures s.round in s.futureVotes ==>
      Handle(s, DrainEvent) == Run(TakeBuffer(s), VoteEvents(s.height, s.round, s.futureVotes[s.round]))
    ensures TakeBuffer(s) == s.(futureVotes := TakeBuffer(s).futureVotes)
    ensures forall r :: r in TakeBuffer(s).futureVotes <==> r in s.futureVotes && r > s.round
    ensures forall r :: r in TakeBuffer(s).futureVotes ==> TakeBuffer(s).futureVotes[r] == s.futureVotes[r]
  {
    if s.round in s.futureVotes { ReplayIsRun(TakeBuffer(s), s.futureVotes[s.round]); }
  }

  function Buffered(h: Hash, vs: seq<Validator>): (votes: seq<BufferedVote>)
    ensures |votes| == |vs|
  {
    seq(|vs|, i requires 0 <= i < |vs| => BufferedVote(vs[i].id, h, vs[i].stake, true))
  }

  lemma {:induction false} EarlyVotesWait(s: Node, round: nat, votes: seq<BufferedVote>)
    requires round > s.round && votes != []
    ensures Run(s, VoteEvents(s.height, round, votes))
         == (s.(futureVotes := s.futureVotes[round := Kept(s, round) + votes]), [])
    decreases |votes|
  {
    var n := |votes| - 1;
    var es, e := VoteEvents(s.height, round, votes), VoteEvent(s.height, round, votes[n]);
    assert es[..n] == VoteEvents(s.height, round, votes[..n]);
    assert es == es[..n] + [e];
    assert votes == votes[..n] + [votes[n]];
    var t := if n == 0 then s else s.(futureVotes := s.futureVotes[round := Kept(s, round) + votes[..n]]);
    if n == 0 { assert es[..n] == []; } else { EarlyVotesWait(s, round, votes[..n]); }
    EarlyVoteWaits(t, round, votes[n]);
    OneMoreKept(s, round, votes[..n], votes[n], t);
    QuietStep(s, es[..n], e, t, Handle(t, e).0, es);
  }

  lemma {:induction false} QuietStep(s: Node, es: seq<Event>, e: Event, t: Node, u: Node, more: seq<Event>)
    requires Run(s, es) == (t, []) && Handle(t, e) == (u, []) && more == es + [e]
    ensures Run(s, more) == (u, [])
  {
    StepOf(s, es, e, more);
    var none: seq<Action> := [];
    assert none + none == none;
  }

  lemma {:induction false} OneMoreKept(s: Node, round: nat, votes: seq<BufferedVote>, v: BufferedVote, t: Node)
    requires t == if votes == [] then s else s.(futureVotes := s.futureVotes[round := Kept(s, round) + votes])
    ensures t.(futureVotes := t.futureVotes[round := Kept(t, round) + [v]])
         == s.(futureVotes := s.futureVotes[round := Kept(s, round) + (votes + [v])])
  {
    if votes == [] {
      assert votes + [v] == [v];
    } else {
      assert Kept(s, round) + votes + [v] == Kept(s, round) + (votes + [v]);
    }
  }

  /** The node that heard them a round early and then moved on has them, and nothing else, in
      front of it. */
  lemma {:induction false} EarlyReady(s: Node, h: Hash, vs: seq<Validator>, t: Node, u: Node)
    requires !Halted(s) && s.round < U32_MAX && s.round + 1 !in s.futureVotes && vs != []
    requires t == s.(futureVotes := s.futureVotes[s.round + 1 := Kept(s, s.round + 1) + Buffered(h, vs)])
    requires u == Handle(t, PrecommitTimeoutEvent).0
    ensures u.round in u.futureVotes && u.futureVotes[u.round] == Buffered(h, vs)
    ensures NextRound(t, u) && Handle(t, PrecommitTimeoutEvent).1 == [ScheduleProposal(s.height, s.round + 1)]
  {
    assert [] + Buffered(h, vs) == Buffered(h, vs);
  }

  lemma {:induction false} DrainDecides(u: Node, h: Hash, vs: seq<Validator>)
    requires u.step == Propose && u.round in u.futureVotes && u.futureVotes[u.round] == Buffered(h, vs)
    requires u.precommits == NewCollector(u.height, u.totalStake)
    requires h != NIL && DistinctIds(vs) && HasQuorum(Weight(vs), u.totalStake)
    ensures var (d, actions) := Handle(u, DrainEvent);
      && actions == [Commit(u.height, u.round, h)] && d.round == u.round && d.step == CommitWait
      && d.committedHash == Some(h)
  {
    var ready := TakeBuffer(u);
    DrainIsDelivery(u);
    assert VoteEvents(u.height, u.round, Buffered(h, vs)) == Precommits(ready, h, vs);
    PrecommitsRun(ready, h, vs);
  }

  /** Precommits that arrive a round early decide the block as soon as the node gets there. */
  lemma {:induction false} EarlyPrecommitsDecide(s: Node, h: Hash, vs: seq<Validator>, t: Node, u: Node)
    requires !Halted(s) && s.round < U32_MAX && s.round + 1 !in s.futureVotes
    requires h != NIL && DistinctIds(vs) && HasQuorum(Weight(vs), s.totalStake)
    requires t == Run(s, VoteEvents(s.height, s.round + 1, Buffered(h, vs))).0
    requires u == Handle(t, PrecommitTimeoutEvent).0
    ensures var (d, actions) := Handle(u, DrainEvent);
      && actions == [Commit(s.height, s.round + 1, h)] && d.round == s.round + 1 && d.step == CommitWait
      && d.committedHash == Some(h)
  {
    assert vs != [];
    EarlyVotesWait(s, s.round + 1, Buffered(h, vs));
    EarlyReady(s, h, vs, t, u);
    DrainDecides(u, h, vs);
  }

  // ----- a locked block is decided later -----

  /** A node that accepts block `h` and sees two thirds prevote it, but not the precommits, takes
      its lock into the next round. */
  lemma {:induction false} LockCarries(s: Node, h: Hash, vr: Option<nat>, vs: seq<Validator>, s1: Node, s2: Node,
                                       s3: Node)
    requires s.step == Propose && Flags(s) && h != NIL && Accepts(s, h, vr) && s.round < U32_MAX
    requires s.prevotes == NewCollector(s.height, s.totalStake)
    requires DistinctIds(vs) && HasQuorum(Weight(vs), s.totalStake)
    requires s1 == Run(s, [ProposalEvent(s.height, s.round, h, vr)]).0 && s2 == Run(s1, Prevotes(s1, h, vs)).0
    requires s3 == Handle(s2, PrecommitTimeoutEvent).0
    ensures NextRound(s2, s3) && s3.lockedHash == Some(h) && s3.round == s.round + 1
    ensures s3.height == s.height && s3.totalStake == s.totalStake
  {
    ProposalRun(s, h, vr);
    PrevotesRun(s1, h, vs);
    NextRoundIs(s2, s3);
  }

  lemma {:induction false} NextRoundIs(s: Node, t: Node)
    requires !Halted(s) && s.round < U32_MAX && t == Handle(s, PrecommitTimeoutEvent).0
    ensures NextRound(s, t)
  {
  }

  /** Proposed there again, under whatever claim, the block is decided. */
  lemma {:induction false} LockedBlockDecidesLater(s: Node, h: Hash, vr: Option<nat>, vs: seq<Validator>,
                                                   s1: Node, s2: Node, s3: Node, again: Option<nat>,
                                                   prevoters: seq<Validator>, precommitters: seq<Validator>)
    requires s.step == Propose && Flags(s) && h != NIL && Accepts(s, h, vr) && s.round < U32_MAX
    requires s.prevotes == NewCollector(s.height, s.totalStake)
    requires DistinctIds(vs) && HasQuorum(Weight(vs), s.totalStake)
    requires s1 == Run(s, [ProposalEvent(s.height, s.round, h, vr)]).0 && s2 == Run(s1, Prevotes(s1, h, vs)).0
    requires s3 == Handle(s2, PrecommitTimeoutEvent).0
    requires DistinctIds(prevoters) && HasQuorum(Weight(prevoters), s.totalStake)
    requires DistinctIds(precommitters) && HasQuorum(Weight(precommitters), s.totalStake)
    ensures s3.round == s.round + 1
    ensures var (s4, a4) := Run(s3, [ProposalEvent(s3.height, s3.round, h, again)]);
      var (s5, a5) := Run(s4, Prevotes(s4, h, prevoters));
      var (t, a6) := Run(s5, Precommits(s5, h, precommitters));
      && t.round == s3.round && t.step == CommitWait && t.committedHash == Some(h) && t.lockedHash == Some(h)
      && a4 + a5 + a6 == [BroadcastPrevote(s3.height, s3.round, h), BroadcastPrecommit(s3.height, s3.round, h),
                          Commit(s3.height, s3.round, h)]
  {
    LockCarries(s, h, vr, vs, s1, s2, s3);
    GoodRoundDecides(s3, h, again, prevoters, precommitters);
  }
}
