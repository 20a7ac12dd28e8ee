/** Lock safety and agreement, over every run of the network. */
module Agreement {
  import opened Basics
  import opened Stake
  import opened VoteCollection
  import opened TendermintSpec
  import opened Network

  // ----- what the log of sent votes keeps -----

  /** Honest nodes never contradict themselves within a round. */
  ghost predicate VotesOnce(cfg: Config, log: seq<SentVote>) {
    forall v, w :: v in log && w in log && v.voter in cfg.honest && w == v.(hash := w.hash) ==> v == w
  }

  /** An honest precommit for a block rests on a prevote quorum. */
  ghost predicate PrecommitsBacked(cfg: Config, log: seq<SentVote>) {
    forall v :: v in log && v.voter in cfg.honest && v.kind.PrecommitKind? && v.hash != NIL
      ==> Quorum(cfg, log, PrevoteKind, v.round, v.hash)
  }

  /** Some round from `r` on has a prevote quorum for `h`. */
  ghost predicate Released(cfg: Config, log: seq<SentVote>, r: nat, h: Hash) {
    exists vr :: vr >= r && Quorum(cfg, log, PrevoteKind, vr, h)
  }

  /** `pre` is a prevote for another block than the one the same honest node precommitted
      in an earlier round. */
  predicate Switches(cfg: Config, pre: SentVote, com: SentVote) {
    && pre.kind.PrevoteKind? && com.kind.PrecommitKind?
    && pre.voter == com.voter && pre.voter in cfg.honest
    && pre.hash != NIL && com.hash != NIL && pre.hash != com.hash
    && com.round < pre.round
  }

  /** A switching prevote was released by a quorum already in the log when it was sent. */
  ghost predicate SwitchesReleased(cfg: Config, log: seq<SentVote>) {
    forall i, j :: 0 <= i < |log| && 0 <= j < |log| && Switches(cfg, log[i], log[j])
      ==> Released(cfg, log[..i], log[j].round, log[i].hash)
  }

  ghost predicate LogInv(cfg: Config, log: seq<SentVote>) {
    VotesOnce(cfg, log) && PrecommitsBacked(cfg, log) && SwitchesReleased(cfg, log)
  }

  // ----- lock safety from the log -----

  /** One round cannot hold prevote quorums for two hashes. */
  lemma {:induction false} OneQuorumPerRound(cfg: Config, log: seq<SentVote>, k: Kind, r: nat, h: Hash, g: Hash)
    requires ValidConfig(cfg) && VotesOnce(cfg, log)
    requires Quorum(cfg, log, k, r, h) && Quorum(cfg, log, k, r, g)
    ensures h == g
  {
    var id := QuorumsShareHonest(cfg.validators, cfg.honest, Voters(log, k, r, h), Voters(log, k, r, g));
    assert SentVote(k, r, h, id) in log && SentVote(k, r, g, id) in log;
  }

  /** Once honest nodes with more than a third of the stake precommitted `b` in round `r`,
      no prefix of the log holds a prevote quorum for another block in round `r` or later. */
  lemma {:induction false} LockSafety(cfg: Config, log: seq<SentVote>, x: set<AccountId>, r: nat, b: Hash,
                                      n: nat, r': nat, h: Hash)
    requires ValidConfig(cfg) && LogInv(cfg, log)
    requires b != NIL && x <= cfg.honest && 3 * StakeOf(cfg.validators, x) > Total(cfg.validators)
    requires forall p :: p in x ==> SentVote(PrecommitKind, r, b, p) in log
    requires n <= |log| && r' >= r && h != NIL && h != b
    ensures !Quorum(cfg, log[..n], PrevoteKind, r', h)
    decreases n
  {
    if Quorum(cfg, log[..n], PrevoteKind, r', h) {
      var q := QuorumMeetsThird(cfg.validators, Voters(log[..n], PrevoteKind, r', h), x);
      assert SentVote(PrecommitKind, r, b, q) in log;
      if r' == r {
        QuorumMonotone(cfg, log[..n], log, PrevoteKind, r, h);
        OneQuorumPerRound(cfg, log, PrevoteKind, r, b, h);
      } else {
        var i :| 0 <= i < n && log[i] == SentVote(PrevoteKind, r', h, q);
        var j :| 0 <= j < |log| && log[j] == SentVote(PrecommitKind, r, b, q);
        assert Switches(cfg, log[i], log[j]);
        var vr :| vr >= r && Quorum(cfg, log[..i], PrevoteKind, vr, h);
        LockSafety(cfg, log, x, r, b, i, vr, h);
      }
    }
  }

  /** Two precommit quorums, in any two rounds, are for the same block. */
  lemma {:induction false} CommitQuorumsAgree(cfg: Config, log: seq<SentVote>, r: nat, h: Hash, r': nat, h': Hash)
    requires ValidConfig(cfg) && LogInv(cfg, log) && r <= r'
    requires h != NIL && Quorum(cfg, log, PrecommitKind, r, h)
    requires h' != NIL && Quorum(cfg, log, PrecommitKind, r', h')
    ensures h == h'
  {
    var x := Voters(log, PrecommitKind, r, h) * cfg.honest;
    QuorumHonestPart(cfg.validators, cfg.honest, Voters(log, PrecommitKind, r, h));
    var q := QuorumsShareHonest(cfg.validators, cfg.honest,
                                Voters(log, PrecommitKind, r', h'), Voters(log, PrecommitKind, r', h'));
    assert SentVote(PrecommitKind, r', h', q) in log;
    assert log[..|log|] == log;
    if h != h' { LockSafety(cfg, log, x, r, h, |log|, r', h'); }
  }

  // ----- what every honest node keeps -----

  ghost predicate CommitEvidence(cfg: Config, log: seq<SentVote>, h: Hash) {
    h != NIL && exists r :: Quorum(cfg, log, PrecommitKind, r, h)
  }

  function KindOf(b: BufferedVote): Kind {
    if b.isPrecommit then PrecommitKind else PrevoteKind
  }

  ghost predicate BufferedOk(cfg: Config, log: seq<SentVote>, r: nat, b: BufferedVote) {
    b.stake == StakeAt(cfg.validators, b.voter) && SentVote(KindOf(b), r, b.blockHash, b.voter) in log
  }

  /** Everything the node believes is witnessed by the log. */
  ghost predicate Evidence(cfg: Config, log: seq<SentVote>, s: Node) {
    && s.height == cfg.height && s.totalStake == Total(cfg.validators)
    && (forall r, h :: (r, h) in s.pastQuorums ==> h != NIL && Quorum(cfg, log, PrevoteKind, r, h))
    && (s.lockedRound.Some? <==> s.lockedHash.Some?)
    && (s.lockedHash.Some? ==>
          s.lockedHash.value != NIL && Quorum(cfg, log, PrevoteKind, s.lockedRound.value, s.lockedHash.value))
    && (s.committedHash.Some? ==> CommitEvidence(cfg, log, s.committedHash.value))
    && (forall r :: r in s.futureVotes ==> BufferOk(cfg, log, r, s.futureVotes[r]))
  }

  ghost predicate BufferOk(cfg: Config, log: seq<SentVote>, r: nat, votes: seq<BufferedVote>) {
    forall i :: 0 <= i < |votes| ==> BufferedOk(cfg, log, r, votes[i])
  }

  /** A running collector counts only sent votes of its kind and round, at canonical stake. */
  ghost predicate CollectorOk(cfg: Config, log: seq<SentVote>, c: Collector, k: Kind, r: nat) {
    && c.totalStake == Total(cfg.validators) && Canonical(c, cfg.validators)
    && (forall v :: v in c.firstHash ==> SentVote(k, r, c.firstHash[v], v) in log)
  }

  ghost predicate Collectors(cfg: Config, log: seq<SentVote>, s: Node) {
    !Halted(s) ==>
      && CollectorOk(cfg, log, s.prevotes, PrevoteKind, s.round)
      && CollectorOk(cfg, log, s.precommits, PrecommitKind, s.round)
  }

  /** The lock covers every block the node has precommitted. */
  ghost predicate LockCovers(log: seq<SentVote>, p: AccountId, s: Node) {
    forall v :: v in log && v.voter == p && v.kind.PrecommitKind? && v.hash != NIL ==>
      && s.lockedRound.Some? && s.lockedHash.Some?
      && (v.round < s.lockedRound.value || (v.round == s.lockedRound.value && v.hash == s.lockedHash.value))
  }

  /** While it runs, the node has voted only in rounds it reached, and its flags tell
      whether it already voted in the current one. */
  ghost predicate Discipline(log: seq<SentVote>, p: AccountId, s: Node) {
    !Halted(s) ==>
      && (forall v :: v in log && v.voter == p ==> v.round <= s.round)
      && (forall v :: v in log && v.voter == p && v.round == s.round ==>
            (v.kind.PrevoteKind? ==> s.prevoted) && (v.kind.PrecommitKind? ==> s.precommitted))
  }

  ghost predicate NodeInv(cfg: Config, log: seq<SentVote>, p: AccountId, s: Node) {
    && Evidence(cfg, log, s) && Collectors(cfg, log, s)
    && LockCovers(log, p, s) && Discipline(log, p, s) && Flags(s)
  }

  ghost predicate NetInv(cfg: Config, n: Net) {
    && n.nodes.Keys == cfg.honest
    && LogInv(cfg, n.log)
    && (forall p :: p in cfg.honest ==> NodeInv(cfg, n.log, p, n.nodes[p]))
  }

  // ----- extending the log -----

  lemma {:induction false} EvidenceExtends(cfg: Config, log: seq<SentVote>, more: seq<SentVote>, s: Node)
    requires Evidence(cfg, log, s) && forall v :: v in log ==> v in more
    ensures Evidence(cfg, more, s)
  {
    forall r, h | (r, h) in s.pastQuorums
      ensures Quorum(cfg, more, PrevoteKind, r, h)
    {
      QuorumMonotone(cfg, log, more, PrevoteKind, r, h);
    }
    if s.lockedHash.Some? {
      QuorumMonotone(cfg, log, more, PrevoteKind, s.lockedRound.value, s.lockedHash.value);
    }
    if s.committedHash.Some? {
      CommitEvidenceExtends(cfg, log, more, s.committedHash.value);
    }
  }

  lemma {:induction false} CommitEvidenceExtends(cfg: Config, log: seq<SentVote>, more: seq<SentVote>, h: Hash)
    requires CommitEvidence(cfg, log, h) && forall v :: v in log ==> v in more
    ensures CommitEvidence(cfg, more, h)
  {
    var r :| Quorum(cfg, log, PrecommitKind, r, h);
    QuorumMonotone(cfg, log, more, PrecommitKind, r, h);
  }

  /** Votes of others leave a node's invariant alone. */
  lemma {:induction false} NodeInvExtends(cfg: Config, log: seq<SentVote>, v: SentVote, p: AccountId, s: Node)
    requires NodeInv(cfg, log, p, s) && v.voter != p
    ensures NodeInv(cfg, log + [v], p, s)
  {
    EvidenceExtends(cfg, log, log + [v], s);
  }

  lemma {:induction false} BackedExtends(cfg: Config, log: seq<SentVote>, v: SentVote)
    requires PrecommitsBacked(cfg, log)
    requires v.voter in cfg.honest && v.kind.PrecommitKind? && v.hash != NIL ==>
      Quorum(cfg, log, PrevoteKind, v.round, v.hash)
    ensures PrecommitsBacked(cfg, log + [v])
  {
    forall w | w in log + [v] && w.voter in cfg.honest && w.kind.PrecommitKind? && w.hash != NIL
      ensures Quorum(cfg, log + [v], PrevoteKind, w.round, w.hash)
    {
      QuorumMonotone(cfg, log, log + [v], PrevoteKind, w.round, w.hash);
    }
  }

  lemma {:induction false} SwitchesExtend(cfg: Config, log: seq<SentVote>, v: SentVote)
    requires SwitchesReleased(cfg, log)
    requires forall i :: 0 <= i < |log| ==> !Switches(cfg, log[i], v)
    requires forall j :: 0 <= j < |log| && Switches(cfg, v, log[j]) ==> Released(cfg, log, log[j].round, v.hash)
    ensures SwitchesReleased(cfg, log + [v])
  {
    var more := log + [v];
    forall i, j | 0 <= i < |more| && 0 <= j < |more| && Switches(cfg, more[i], more[j])
      ensures Released(cfg, more[..i], more[j].round, more[i].hash)
    {
      if i < |log| {
        assert more[..i] == log[..i] && more[i] == log[i] && j < |log|;
      } else {
        assert more[..i] == log && j < |log|;
      }
    }
  }

  /** A faulty voter's vote keeps every invariant. */
  lemma {:induction false} FaultyVoteKeeps(cfg: Config, n: Net, v: SentVote)
    requires NetInv(cfg, n) && v.voter !in cfg.honest
    ensures NetInv(cfg, Net(n.nodes, n.log + [v]))
  {
    BackedExtends(cfg, n.log, v);
    SwitchesExtend(cfg, n.log, v);
    forall p | p in cfg.honest
      ensures NodeInv(cfg, n.log + [v], p, n.nodes[p])
    {
      NodeInvExtends(cfg, n.log, v, p, n.nodes[p]);
    }
  }

  // ----- one node moves: its own invariant and the log's -----

  /** A first prevote of the round, for nil or for a block the lock permits. */
  ghost predicate MayPrevote(cfg: Config, log: seq<SentVote>, p: AccountId, s: Node, h: Hash) {
    && !Halted(s) && !s.prevoted
    && (forall w :: w in log && w.voter == p && w.kind.PrecommitKind? && w.hash != NIL && h != NIL && w.hash != h
          ==> Released(cfg, log, w.round, h))
  }

  lemma {:induction false} SendPrevote(cfg: Config, log: seq<SentVote>, p: AccountId, s: Node, h: Hash)
    requires LogInv(cfg, log) && p in cfg.honest && Discipline(log, p, s)
    requires MayPrevote(cfg, log, p, s, h)
    ensures LogInv(cfg, log + [SentVote(PrevoteKind, s.round, h, p)])
  {
    var v := SentVote(PrevoteKind, s.round, h, p);
    BackedExtends(cfg, log, v);
    SwitchesExtend(cfg, log, v);
  }

  lemma {:induction false} SendPrecommit(cfg: Config, log: seq<SentVote>, p: AccountId, s: Node, h: Hash)
    requires LogInv(cfg, log) && p in cfg.honest && Discipline(log, p, s)
    requires !Halted(s) && !s.precommitted
    requires h != NIL ==> Quorum(cfg, log, PrevoteKind, s.round, h)
    ensures LogInv(cfg, log + [SentVote(PrecommitKind, s.round, h, p)])
  {
    var v := SentVote(PrecommitKind, s.round, h, p);
    BackedExtends(cfg, log, v);
    forall i | 0 <= i < |log|
      ensures !Switches(cfg, log[i], v)
    {
      assert log[i] in log;
    }
    SwitchesExtend(cfg, log, v);
  }

  /** Nothing about the node's own earlier votes changes but the flags. */
  predicate SameOwn(s: Node, s': Node) {
    && s'.round == s.round && s'.lockedRound == s.lockedRound && s'.lockedHash == s.lockedHash
    && (Halted(s') ==> Halted(s))
  }

  lemma {:induction false} OwnPrecommit(log: seq<SentVote>, p: AccountId, s: Node, h: Hash, s': Node)
    requires Discipline(log, p, s) && LockCovers(log, p, s) && !Halted(s)
    requires h != NIL ==> s.lockedRound == Some(s.round) && s.lockedHash == Some(h)
    requires SameOwn(s, s') && s'.prevoted == s.prevoted && s'.precommitted
    ensures var log' := log + [SentVote(PrecommitKind, s.round, h, p)];
            LockCovers(log', p, s') && Discipline(log', p, s')
  {
  }

  lemma {:induction false} OwnPrevote(log: seq<SentVote>, p: AccountId, s: Node, h: Hash, s': Node)
    requires Discipline(log, p, s) && LockCovers(log, p, s) && !Halted(s)
    requires SameOwn(s, s') && s'.precommitted == s.precommitted && s'.prevoted
    ensures var log' := log + [SentVote(PrevoteKind, s.round, h, p)];
            LockCovers(log', p, s') && Discipline(log', p, s')
  {
  }

  /** The locking rule releases the lock only on evidence. */
  lemma {:induction false} ChoicePermitted(cfg: Config, log: seq<SentVote>, p: AccountId, s: Node, h: Hash,
                                           vr: Option<nat>)
    requires NodeInv(cfg, log, p, s) && s.step == Propose
    ensures MayPrevote(cfg, log, p, s, PrevoteChoice(s, h, vr))
  {
    var g := PrevoteChoice(s, h, vr);
    forall w | w in log && w.voter == p && w.kind.PrecommitKind? && w.hash != NIL && g != NIL && w.hash != g
      ensures Released(cfg, log, w.round, g)
    {
      if g == s.lockedHash.value {
        assert Quorum(cfg, log, PrevoteKind, s.lockedRound.value, g);
      } else {
        assert (vr.value, g) in s.pastQuorums;
      }
    }
  }

  lemma {:induction false} CollectorSees(cfg: Config, log: seq<SentVote>, c: Collector, k: Kind, r: nat, q: Hash)
    requires CollectorOk(cfg, log, c, k, r) && BucketHasQuorum(c, q)
    ensures Quorum(cfg, log, k, r, q)
  {
    StakeOfMonotone(cfg.validators, VotersFor(c, q), Voters(log, k, r, q));
  }

  lemma {:induction false} CollectorAdds(cfg: Config, log: seq<SentVote>, c: Collector, k: Kind, r: nat, h: Hash,
                                         voter: AccountId)
    requires ValidConfig(cfg) && CollectorOk(cfg, log, c, k, r) && SentVote(k, r, h, voter) in log
    ensures CollectorOk(cfg, log, AddRaw(c, voter, h, StakeAt(cfg.validators, voter)), k, r)
  {
    AddRawCanonical(c, cfg.validators, voter, h);
  }

  lemma {:induction false} FreshCollectorOk(cfg: Config, log: seq<SentVote>, k: Kind, r: nat)
    ensures CollectorOk(cfg, log, NewCollector(cfg.height, Total(cfg.validators)), k, r)
  {
  }

  /** The step lemmas below all have this shape. */
  ghost predicate Keeps(cfg: Config, log: seq<SentVote>, p: AccountId, s: Node, a: Action) {
    LogInv(cfg, log + VoteOf(p, a)) && NodeInv(cfg, log + VoteOf(p, a), p, s)
  }

  ghost predicate Ready(cfg: Config, log: seq<SentVote>, p: AccountId, s: Node) {
    ValidConfig(cfg) && p in cfg.honest && LogInv(cfg, log) && NodeInv(cfg, log, p, s)
  }

  lemma {:induction false} SilentKeeps(cfg: Config, log: seq<SentVote>, p: AccountId, s: Node, a: Action)
    requires LogInv(cfg, log) && NodeInv(cfg, log, p, s) && VoteOf(p, a) == []
    ensures Keeps(cfg, log, p, s, a)
  {
    assert log + [] == log;
  }

  /** Step, flags and proposal are no part of what the log witnesses. */
  lemma {:induction false} SameEvidence(cfg: Config, log: seq<SentVote>, v: SentVote, s: Node, s': Node)
    requires Evidence(cfg, log, s)
    requires s' == s.(step := s'.step, prevoted := s'.prevoted, precommitted := s'.precommitted,
                      proposalHash := s'.proposalHash, proposalReceived := s'.proposalReceived)
    ensures Evidence(cfg, log + [v], s')
  {
    EvidenceExtends(cfg, log, log + [v], s);
  }

  lemma {:induction false} SameCollectors(cfg: Config, log: seq<SentVote>, v: SentVote, s: Node, s': Node)
    requires Collectors(cfg, log, s) && !Halted(s)
    requires s'.prevotes == s.prevotes && s'.precommits == s.precommits && s'.round == s.round
    ensures Collectors(cfg, log + [v], s')
  {
  }

  /** The parts of what a vote keeps, put together. */
  lemma {:induction false} VoteKeeps(cfg: Config, log: seq<SentVote>, p: AccountId, s: Node, v: SentVote, a: Action)
    requires VoteOf(p, a) == [v] && LogInv(cfg, log + [v]) && Flags(s)
    requires Evidence(cfg, log + [v], s) && Collectors(cfg, log + [v], s)
    requires LockCovers(log + [v], p, s) && Discipline(log + [v], p, s)
    ensures Keeps(cfg, log, p, s, a)
  {
  }

  lemma {:induction false} PrevoteKeeps(cfg: Config, log: seq<SentVote>, p: AccountId, s: Node, h: Hash,
                                        hash: Option<Hash>, received: bool)
    requires Ready(cfg, log, p, s) && s.step == Propose && MayPrevote(cfg, log, p, s, h)
    ensures var (s', a) := DoPrevote(s.(proposalHash := hash, proposalReceived := received), h);
            Keeps(cfg, log, p, s', a)
  {
    var v := SentVote(PrevoteKind, s.round, h, p);
    var s' := s.(proposalHash := hash, proposalReceived := received, prevoted := true, step := Prevote);
    SendPrevote(cfg, log, p, s, h);
    OwnPrevote(log, p, s, h, s');
    SameEvidence(cfg, log, v, s, s');
    SameCollectors(cfg, log, v, s, s');
    VoteKeeps(cfg, log, p, s', v, BroadcastPrevote(s.height, s.round, h));
  }

  lemma {:induction false} TakeLock(cfg: Config, log: seq<SentVote>, p: AccountId, s: Node, h: Hash)
    requires Ready(cfg, log, p, s) && s.step == Prevote
    requires h != NIL && Quorum(cfg, log, PrevoteKind, s.round, h)
    ensures Ready(cfg, log, p, s.(lockedRound := Some(s.round), lockedHash := Some(h)))
  {
    assert LockCovers(log, p, s.(lockedRound := Some(s.round), lockedHash := Some(h)));
  }

  lemma {:induction false} PrecommitKeeps(cfg: Config, log: seq<SentVote>, p: AccountId, s: Node, h: Hash)
    requires Ready(cfg, log, p, s) && s.step == Prevote
    requires h != NIL ==> s.lockedRound == Some(s.round) && s.lockedHash == Some(h)
    ensures var (s', a) := DoPrecommit(s.(step := Precommit), h); Keeps(cfg, log, p, s', a)
  {
    var v, s' := SentVote(PrecommitKind, s.round, h, p), s.(step := Precommit, precommitted := true);
    SendPrecommit(cfg, log, p, s, h);
    OwnPrecommit(log, p, s, h, s');
    SameEvidence(cfg, log, v, s, s');
    SameCollectors(cfg, log, v, s, s');
    VoteKeeps(cfg, log, p, s', v, BroadcastPrecommit(s.height, s.round, h));
  }

  lemma {:induction false} ProposalKeeps(cfg: Config, log: seq<SentVote>, p: AccountId, s: Node,
                                         height: nat, round: nat, h: Hash, vr: Option<nat>)
    requires Ready(cfg, log, p, s)
    ensures var (s', a) := OnProposal(s, height, round, h, vr); Keeps(cfg, log, p, s', a)
  {
    if height != s.height || round != s.round || s.proposalReceived || s.step != Propose {
      SilentKeeps(cfg, log, p, s, NoAction);
    } else {
      ChoicePermitted(cfg, log, p, s, h, vr);
      PrevoteKeeps(cfg, log, p, s, PrevoteChoice(s, h, vr), Some(h), true);
    }
  }

  lemma {:induction false} BufferKeeps(cfg: Config, log: seq<SentVote>, p: AccountId, s: Node, round: nat,
                                       v: BufferedVote)
    requires Ready(cfg, log, p, s) && BufferedOk(cfg, log, round, v)
    ensures Keeps(cfg, log, p, Buffer(s, round, v), NoAction)
  {
    SilentKeeps(cfg, log, p, Buffer(s, round, v), NoAction);
  }

  lemma {:induction false} RecordedPrevote(cfg: Config, log: seq<SentVote>, p: AccountId, s: Node, h: Hash,
                                           voter: AccountId)
    requires Ready(cfg, log, p, s) && !Halted(s) && SentVote(PrevoteKind, s.round, h, voter) in log
    ensures Ready(cfg, log, p, RecordPrevote(s, h, voter, StakeAt(cfg.validators, voter)))
  {
    CollectorAdds(cfg, log, s.prevotes, PrevoteKind, s.round, h, voter);
  }

  lemma {:induction false} RecordedQuorum(cfg: Config, log: seq<SentVote>, p: AccountId, s: Node)
    requires Ready(cfg, log, p, s) && !Halted(s) && QuorumHash(s.prevotes).Some?
    ensures var q := QuorumHash(s.prevotes).value;
            Quorum(cfg, log, PrevoteKind, s.round, q) && (q != NIL ==> Ready(cfg, log, p, RecordQuorum(s, q)))
  {
    CollectorSees(cfg, log, s.prevotes, PrevoteKind, s.round, QuorumHash(s.prevotes).value);
  }

  lemma {:induction false} PrevoteVoteKeeps(cfg: Config, log: seq<SentVote>, p: AccountId, s: Node,
                                            height: nat, round: nat, h: Hash, voter: AccountId)
    requires Ready(cfg, log, p, s) && (height == cfg.height ==> SentVote(PrevoteKind, round, h, voter) in log)
    ensures var (s', a) := OnPrevote(s, height, round, h, voter, StakeAt(cfg.validators, voter));
            Keeps(cfg, log, p, s', a)
  {
    var stake := StakeAt(cfg.validators, voter);
    if height != s.height || (round <= s.round && (round != s.round || Halted(s))) {
      SilentKeeps(cfg, log, p, s, NoAction);
    } else if round > s.round {
      BufferKeeps(cfg, log, p, s, round, BufferedVote(voter, h, stake, false));
    } else {
      var s1 := RecordPrevote(s, h, voter, stake);
      RecordedPrevote(cfg, log, p, s, h, voter);
      match QuorumHash(s1.prevotes)
      case Some(q) =>
        RecordedQuorum(cfg, log, p, s1);
        var s2 := if q == NIL then s1 else RecordQuorum(s1, q);
        if s.step != Prevote {
          SilentKeeps(cfg, log, p, s2, NoAction);
        } else if q == NIL {
          PrecommitKeeps(cfg, log, p, s2, NIL);
        } else {
          TakeLock(cfg, log, p, s2, q);
          PrecommitKeeps(cfg, log, p, s2.(lockedRound := Some(s.round), lockedHash := Some(q)), q);
        }
      case None => SilentKeeps(cfg, log, p, s1, NoAction);
    }
  }

  lemma {:induction false} PrecommitVoteKeeps(cfg: Config, log: seq<SentVote>, p: AccountId, s: Node,
                                              height: nat, round: nat, h: Hash, voter: AccountId)
    requires Ready(cfg, log, p, s) && (height == cfg.height ==> SentVote(PrecommitKind, round, h, voter) in log)
    ensures var (s', a) := OnPrecommit(s, height, round, h, voter, StakeAt(cfg.validators, voter));
            Keeps(cfg, log, p, s', a)
  {
    var stake := StakeAt(cfg.validators, voter);
    if height == s.height && round > s.round {
      BufferKeeps(cfg, log, p, s, round, BufferedVote(voter, h, stake, true));
    } else if height != s.height || round != s.round || s.step == Committed {
      SilentKeeps(cfg, log, p, s, NoAction);
    } else {
      var s1 := s.(precommits := AddRaw(s.precommits, voter, h, stake));
      RecordedPrecommit(cfg, log, p, s, h, voter);
      if s.step != CommitWait && QuorumHash(s1.precommits).Some? && QuorumHash(s1.precommits).value != NIL {
        CommitKeeps(cfg, log, p, s1);
      } else {
        SilentKeeps(cfg, log, p, s1, NoAction);
      }
    }
  }

  lemma {:induction false} RecordedPrecommit(cfg: Config, log: seq<SentVote>, p: AccountId, s: Node, h: Hash,
                                             voter: AccountId)
    requires Ready(cfg, log, p, s) && SentVote(PrecommitKind, s.round, h, voter) in log
    ensures Ready(cfg, log, p, s.(precommits := AddRaw(s.precommits, voter, h, StakeAt(cfg.validators, voter))))
  {
    if !Halted(s) { CollectorAdds(cfg, log, s.precommits, PrecommitKind, s.round, h, voter); }
  }

  lemma {:induction false} CommitKeeps(cfg: Config, log: seq<SentVote>, p: AccountId, s: Node)
    requires Ready(cfg, log, p, s) && !Halted(s)
    requires QuorumHash(s.precommits).Some? && QuorumHash(s.precommits).value != NIL
    ensures var q := QuorumHash(s.precommits).value;
            Keeps(cfg, log, p, s.(step := CommitWait, committedHash := Some(q)), Commit(s.height, s.round, q))
  {
    var q := QuorumHash(s.precommits).value;
    CollectorSees(cfg, log, s.precommits, PrecommitKind, s.round, q);
    SilentKeeps(cfg, log, p, s.(step := CommitWait, committedHash := Some(q)), Commit(s.height, s.round, q));
  }

  lemma {:induction false} TimeoutsKeep(cfg: Config, log: seq<SentVote>, p: AccountId, s: Node)
    requires Ready(cfg, log, p, s)
    ensures var (s', a) := OnProposeTimeout(s); Keeps(cfg, log, p, s', a)
    ensures var (s', a) := OnPrevoteTimeout(s); Keeps(cfg, log, p, s', a)
    ensures var (s', a) := OnCommitWaitTimeout(s); Keeps(cfg, log, p, s', a)
  {
    SilentKeeps(cfg, log, p, s, NoAction);
    if s.step == Propose {
      assert s.(proposalHash := s.proposalHash, proposalReceived := s.proposalReceived) == s;
      PrevoteKeeps(cfg, log, p, s, NIL, s.proposalHash, s.proposalReceived);
    }
    if s.step == Prevote { PrecommitKeeps(cfg, log, p, s, NIL); }
    if s.step == CommitWait { SilentKeeps(cfg, log, p, s.(step := Committed), NoAction); }
  }

  lemma {:induction false} PrecommitTimeoutKeeps(cfg: Config, log: seq<SentVote>, p: AccountId, s: Node)
    requires Ready(cfg, log, p, s) && !Wraps(s, PrecommitTimeoutEvent)
    ensures var (s', a) := OnPrecommitTimeout(s); Keeps(cfg, log, p, s', a)
  {
    var (s', a) := OnPrecommitTimeout(s);
    if !Halted(s) {
      assert s'.round == s.round + 1;
      FreshCollectorOk(cfg, log, PrevoteKind, s'.round);
      FreshCollectorOk(cfg, log, PrecommitKind, s'.round);
    }
    SilentKeeps(cfg, log, p, s', a);
  }

  lemma {:induction false} VotesOfAppend(p: AccountId, actions: seq<Action>, a: Action)
    ensures VotesOf(p, actions + [a]) == VotesOf(p, actions) + VoteOf(p, a)
  {
    assert (actions + [a])[..|actions|] == actions;
  }

  lemma {:induction false} ReplayOneKeeps(cfg: Config, log: seq<SentVote>, p: AccountId, s: Node, b: BufferedVote)
    requires Ready(cfg, log, p, s) && BufferedOk(cfg, log, s.round, b)
    ensures var (s', a) := ReplayOne(s, b); Keeps(cfg, log, p, s', a)
  {
    if b.isPrecommit {
      PrecommitVoteKeeps(cfg, log, p, s, s.height, s.round, b.blockHash, b.voter);
    } else {
      PrevoteVoteKeeps(cfg, log, p, s, s.height, s.round, b.blockHash, b.voter);
    }
  }

  lemma {:induction false} ReplayOneRound(s: Node, b: BufferedVote)
    ensures ReplayOne(s, b).0.round == s.round
  {
  }

  /** Replaying the buffer is a sequence of ordinary deliveries. */
  lemma {:induction false} ReplayKeeps(cfg: Config, log: seq<SentVote>, p: AccountId, s: Node, votes: seq<BufferedVote>)
    requires Ready(cfg, log, p, s) && BufferOk(cfg, log, s.round, votes)
    ensures var (s', actions) := Replay(s, votes);
            AllKept(cfg, log, p, s', actions) && s'.round == s.round
    decreases |votes|
  {
    if votes == [] {
      assert log + [] == log;
    } else {
      var n := |votes| - 1;
      var b := votes[n];
      assert BufferedOk(cfg, log, s.round, b);
      ReplayKeeps(cfg, log, p, s, votes[..n]);
      var (s1, actions) := Replay(s, votes[..n]);
      ReplayOneRound(s1, b);
      ReplayOneKeeps(cfg, log + VotesOf(p, actions), p, s1, b);
      var (s2, a) := ReplayOne(s1, b);
      KeepsAppends(cfg, log, p, actions, s2, a);
    }
  }

  ghost predicate AllKept(cfg: Config, log: seq<SentVote>, p: AccountId, s: Node, actions: seq<Action>) {
    LogInv(cfg, log + VotesOf(p, actions)) && NodeInv(cfg, log + VotesOf(p, actions), p, s)
  }

  lemma {:induction false} KeepsAppends(cfg: Config, log: seq<SentVote>, p: AccountId, actions: seq<Action>, s: Node,
                                        a: Action)
    requires Keeps(cfg, log + VotesOf(p, actions), p, s, a)
    ensures AllKept(cfg, log, p, s, if a == NoAction then actions else actions + [a])
  {
    VotesOfAppend(p, actions, a);
    assert log + VotesOf(p, actions) + VoteOf(p, a) == log + (VotesOf(p, actions) + VoteOf(p, a));
    assert log + VotesOf(p, actions) + [] == log + VotesOf(p, actions);
  }

  lemma {:induction false} DrainKeeps(cfg: Config, log: seq<SentVote>, p: AccountId, s: Node)
    requires Ready(cfg, log, p, s)
    ensures var (s', actions) := DrainBufferedVotes(s); AllKept(cfg, log, p, s', actions)
  {
    if s.round in s.futureVotes {
      ReplayKeeps(cfg, log, p, TakeBuffer(s), s.futureVotes[s.round]);
    } else {
      assert log + [] == log;
    }
  }

  lemma {:induction false} CertificateKeeps(cfg: Config, log: seq<SentVote>, p: AccountId, s: Node, round: nat, h: Hash)
    requires Ready(cfg, log, p, s) && h != NIL && Quorum(cfg, log, PrecommitKind, round, h)
    ensures NodeInv(cfg, log, p, ForceCommit(s, cfg.height, round, h))
  {
  }

  lemma {:induction false} OneKept(cfg: Config, log: seq<SentVote>, p: AccountId, s: Node, a: Action)
    requires Keeps(cfg, log, p, s, a)
    ensures var (s', actions) := One((s, a)); AllKept(cfg, log, p, s', actions)
  {
    assert log + VotesOf(p, []) == log;
    KeepsAppends(cfg, log, p, [], s, a);
    assert [] + [a] == [a];
  }

  lemma {:induction false} TimeoutKeeps(cfg: Config, log: seq<SentVote>, p: AccountId, s: Node)
    requires Ready(cfg, log, p, s) && !Wraps(s, TimeoutEvent)
    ensures var (s', a) := OnTimeout(s); Keeps(cfg, log, p, s', a)
  {
    if s.step == Precommit {
      PrecommitTimeoutKeeps(cfg, log, p, s);
    } else if s.step == Committed {
      SilentKeeps(cfg, log, p, s, NoAction);
    } else {
      TimeoutsKeep(cfg, log, p, s);
    }
  }

  /** A message keeps the log's and the node's invariants. */
  lemma {:induction false} MessageKeeps(cfg: Config, log: seq<SentVote>, p: AccountId, s: Node, e: Event)
    requires Ready(cfg, log, p, s) && Authentic(cfg, log, e)
    requires e.ProposalEvent? || e.PrevoteEvent? || e.PrecommitEvent? || e.CertificateEvent?
    ensures var (s', actions) := Handle(s, e); AllKept(cfg, log, p, s', actions)
  {
    match e
    case ProposalEvent(height, round, h, vr) =>
      ProposalKeeps(cfg, log, p, s, height, round, h, vr);
      var (s', a) := OnProposal(s, height, round, h, vr);
      OneKept(cfg, log, p, s', a);
    case PrevoteEvent(height, round, h, voter, stake) =>
      PrevoteVoteKeeps(cfg, log, p, s, height, round, h, voter);
      var (s', a) := OnPrevote(s, height, round, h, voter, stake);
      OneKept(cfg, log, p, s', a);
    case PrecommitEvent(height, round, h, voter, stake) =>
      PrecommitVoteKeeps(cfg, log, p, s, height, round, h, voter);
      var (s', a) := OnPrecommit(s, height, round, h, voter, stake);
      OneKept(cfg, log, p, s', a);
    case CertificateEvent(height, round, h) =>
      if height == cfg.height && h != NIL { CertificateKeeps(cfg, log, p, s, round, h); }
      assert log + [] == log;
  }

  /** A timeout or a drain keeps the log's and the node's invariants. */
  lemma {:induction false} LocalKeeps(cfg: Config, log: seq<SentVote>, p: AccountId, s: Node, e: Event)
    requires Ready(cfg, log, p, s) && !Wraps(s, e)
    requires !(e.ProposalEvent? || e.PrevoteEvent? || e.PrecommitEvent? || e.CertificateEvent?)
    ensures var (s', actions) := Handle(s, e); AllKept(cfg, log, p, s', actions)
  {
    match e
    case ProposeTimeoutEvent =>
      TimeoutsKeep(cfg, log, p, s);
      OneKept(cfg, log, p, OnProposeTimeout(s).0, OnProposeTimeout(s).1);
    case PrevoteTimeoutEvent =>
      TimeoutsKeep(cfg, log, p, s);
      OneKept(cfg, log, p, OnPrevoteTimeout(s).0, OnPrevoteTimeout(s).1);
    case PrecommitTimeoutEvent =>
      PrecommitTimeoutKeeps(cfg, log, p, s);
      OneKept(cfg, log, p, OnPrecommitTimeout(s).0, OnPrecommitTimeout(s).1);
    case CommitWaitTimeoutEvent =>
      TimeoutsKeep(cfg, log, p, s);
      OneKept(cfg, log, p, OnCommitWaitTimeout(s).0, OnCommitWaitTimeout(s).1);
    case TimeoutEvent =>
      TimeoutKeeps(cfg, log, p, s);
      OneKept(cfg, log, p, OnTimeout(s).0, OnTimeout(s).1);
    case DrainEvent => DrainKeeps(cfg, log, p, s);
  }

  /** Any event an honest node may take keeps the log's and the node's invariants. */
  lemma {:induction false} HandleKeeps(cfg: Config, log: seq<SentVote>, p: AccountId, s: Node, e: Event)
    requires Ready(cfg, log, p, s) && Authentic(cfg, log, e) && !Wraps(s, e)
    ensures var (s', actions) := Handle(s, e); AllKept(cfg, log, p, s', actions)
  {
    if e.ProposalEvent? || e.PrevoteEvent? || e.PrecommitEvent? || e.CertificateEvent? {
      MessageKeeps(cfg, log, p, s, e);
    } else {
      LocalKeeps(cfg, log, p, s, e);
    }
  }

  lemma {:induction false} OthersKeep(cfg: Config, log: seq<SentVote>, p: AccountId, actions: seq<Action>, q: AccountId,
                                      s: Node)
    requires NodeInv(cfg, log, q, s) && p != q
    ensures NodeInv(cfg, log + VotesOf(p, actions), q, s)
    decreases |actions|
  {
    if actions == [] {
      assert log + [] == log;
    } else {
      var init, a := actions[..|actions| - 1], actions[|actions| - 1];
      OthersKeep(cfg, log, p, init, q, s);
      var log1 := log + VotesOf(p, init);
      if VoteOf(p, a) == [] {
        assert log + VotesOf(p, actions) == log1;
      } else {
        NodeInvExtends(cfg, log1, VoteOf(p, a)[0], q, s);
        assert log + VotesOf(p, actions) == log1 + [VoteOf(p, a)[0]];
      }
    }
  }

  lemma {:induction false} NextKeeps(cfg: Config, a: Net, b: Net)
    requires ValidConfig(cfg) && NetInv(cfg, a) && Next(cfg, a, b)
    ensures NetInv(cfg, b)
  {
    if v :| FaultyStep(cfg, a, b, v) {
      FaultyVoteKeeps(cfg, a, v);
    } else {
      var p, e :| NodeStep(cfg, a, b, p, e);
      HandleKeeps(cfg, a.log, p, a.nodes[p], e);
      forall q | q in cfg.honest
        ensures NodeInv(cfg, b.log, q, b.nodes[q])
      {
        if q != p { OthersKeep(cfg, a.log, p, Handle(a.nodes[p], e).1, q, a.nodes[q]); }
      }
    }
  }

  lemma {:induction false} InitInv(cfg: Config, n: Net)
    requires Init(cfg, n)
    ensures NetInv(cfg, n)
  {
    forall p | p in cfg.honest
      ensures NodeInv(cfg, n.log, p, n.nodes[p])
    {
      FreshCollectorOk(cfg, n.log, PrevoteKind, 0);
      FreshCollectorOk(cfg, n.log, PrecommitKind, 0);
    }
  }

  lemma {:induction false} RunInv(cfg: Config, run: seq<Net>, i: nat)
    requires ValidConfig(cfg) && IsRun(cfg, run) && i < |run|
    ensures NetInv(cfg, run[i])
    decreases i
  {
    if i == 0 { InitInv(cfg, run[0]); } else { RunInv(cfg, run, i - 1); NextKeeps(cfg, run[i - 1], run[i]); }
  }

  lemma {:induction false} LogGrows(cfg: Config, run: seq<Net>, i: nat, j: nat)
    requires ValidConfig(cfg) && IsRun(cfg, run) && i <= j < |run|
    ensures run[i].log <= run[j].log
    decreases j - i
  {
    if i < j {
      LogGrows(cfg, run, i, j - 1);
      NextExtends(cfg, run[j - 1], run[j]);
    }
  }

  lemma {:induction false} NextExtends(cfg: Config, a: Net, b: Net)
    requires Next(cfg, a, b)
    ensures a.log <= b.log
  {
  }

  // ----- main theorems -----

  /** In every run, any two honest nodes that have decided, whenever and in whatever round,
      by collected precommits or by certificate, have decided the same block. */
  lemma {:induction false} Agreement(cfg: Config, run: seq<Net>, i: nat, p: AccountId, j: nat, q: AccountId)
    requires ValidConfig(cfg) && IsRun(cfg, run) && i <= j < |run|
    requires p in run[i].nodes && q in run[j].nodes
    requires run[i].nodes[p].committedHash.Some? && run[j].nodes[q].committedHash.Some?
    ensures run[i].nodes[p].committedHash == run[j].nodes[q].committedHash
  {
    RunInv(cfg, run, i);
    RunInv(cfg, run, j);
    LogGrows(cfg, run, i, j);
    CommitEvidenceExtends(cfg, run[i].log, run[j].log, run[i].nodes[p].committedHash.value);
    EvidenceAgrees(cfg, run[j].log, run[i].nodes[p].committedHash.value, run[j].nodes[q].committedHash.value);
  }

  lemma {:induction false} EvidenceAgrees(cfg: Config, log: seq<SentVote>, h: Hash, h': Hash)
    requires ValidConfig(cfg) && LogInv(cfg, log) && CommitEvidence(cfg, log, h) && CommitEvidence(cfg, log, h')
    ensures h == h'
  {
    var r :| Quorum(cfg, log, PrecommitKind, r, h);
    var r' :| Quorum(cfg, log, PrecommitKind, r', h');
    if r <= r' { CommitQuorumsAgree(cfg, log, r, h, r', h'); } else { CommitQuorumsAgree(cfg, log, r', h', r, h); }
  }

  /** In every reachable state: once honest nodes with more than a third of the stake have
      precommitted `b` in round `r`, no other block has a prevote quorum from `r` on. */
  lemma {:induction false} LockedBlockPrevails(cfg: Config, run: seq<Net>, i: nat, x: set<AccountId>, r: nat, b: Hash)
    requires ValidConfig(cfg) && IsRun(cfg, run) && i < |run|
    requires b != NIL && x <= cfg.honest && 3 * StakeOf(cfg.validators, x) > Total(cfg.validators)
    requires forall p :: p in x ==> SentVote(PrecommitKind, r, b, p) in run[i].log
    ensures forall r', h :: r' >= r && h != NIL && Quorum(cfg, run[i].log, PrevoteKind, r', h) ==> h == b
  {
    RunInv(cfg, run, i);
    var log := run[i].log;
    assert log[..|log|] == log;
    forall r', h | r' >= r && h != NIL && Quorum(cfg, log, PrevoteKind, r', h)
      ensures h == b
    {
      if h != b { LockSafety(cfg, log, x, r, b, |log|, r', h); }
    }
  }
}
