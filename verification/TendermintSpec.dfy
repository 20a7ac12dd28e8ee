/** One validator's round state machine, as functions on its state. */
module TendermintSpec {
  import opened Basics
  import opened VoteCollection

  datatype RoundStep = Propose | Prevote | Precommit | CommitWait | Committed

  datatype Action =
    | NoAction
    | ScheduleProposal(height: nat, round: nat)
    | BroadcastPrevote(height: nat, round: nat, blockHash: Hash)
    | BroadcastPrecommit(height: nat, round: nat, blockHash: Hash)
    | Commit(height: nat, round: nat, blockHash: Hash)

  datatype BufferedVote = BufferedVote(voter: AccountId, blockHash: Hash, stake: nat, isPrecommit: bool)

  datatype Node = Node(
    height: nat,
    round: nat,
    step: RoundStep,
    proposalHash: Option<Hash>,
    proposalReceived: bool,
    lockedRound: Option<nat>,
    lockedHash: Option<Hash>,
    validRound: Option<nat>,
    validHash: Option<Hash>,
    prevotes: Collector,
    precommits: Collector,
    totalStake: nat,
    prevoted: bool,
    precommitted: bool,
    committedHash: Option<Hash>,
    futureVotes: map<nat, seq<BufferedVote>>,
    pastQuorums: set<(nat, Hash)>)

  function NewNode(height: nat, totalStake: nat): Node {
    Node(height, 0, Propose, None, false, None, None, None, None,
         NewCollector(height, totalStake), NewCollector(height, totalStake), totalStake,
         false, false, None, map[], {})
  }

  /** The node has decided: it ignores proposals, votes and round timeouts from here on. */
  predicate Halted(s: Node) {
    s.step == CommitWait || s.step == Committed
  }

  function NewRound(s: Node, round: nat): Node {
    s.(round := round, step := Propose, proposalHash := None, proposalReceived := false,
       prevotes := NewCollector(s.height, s.totalStake),
       precommits := NewCollector(s.height, s.totalStake),
       prevoted := false, precommitted := false)
  }

  function DoPrevote(s: Node, h: Hash): (Node, Action) {
    if s.prevoted then (s, NoAction)
    else
      (s.(prevoted := true, step := if s.step == Propose then Prevote else s.step),
       BroadcastPrevote(s.height, s.round, h))
  }

  function DoPrecommit(s: Node, h: Hash): (Node, Action) {
    if s.precommitted then (s, NoAction)
    else (s.(precommitted := true), BroadcastPrecommit(s.height, s.round, h))
  }

  /** What a node in the Propose step prevotes for: the locking rule. */
  function PrevoteChoice(s: Node, h: Hash, validRound: Option<nat>): Hash {
    if s.lockedHash.Some? then
      if h == s.lockedHash.value then h
      else if validRound.Some? && s.lockedRound.Some? && validRound.value >= s.lockedRound.value
              && (validRound.value, h) in s.pastQuorums then h
      else NIL
    else if validRound.Some? && (validRound.value, h) !in s.pastQuorums then NIL
    else h
  }

  function OnProposal(s: Node, height: nat, round: nat, h: Hash, validRound: Option<nat>): (Node, Action) {
    if height != s.height || round != s.round || s.proposalReceived || s.step != Propose then (s, NoAction)
    else
      DoPrevote(s.(proposalHash := Some(h), proposalReceived := true), PrevoteChoice(s, h, validRound))
  }

  function Buffer(s: Node, round: nat, v: BufferedVote): Node {
    var old' := if round in s.futureVotes then s.futureVotes[round] else [];
    s.(futureVotes := s.futureVotes[round := old' + [v]])
  }

  /** The branch that prevotes late, on a prevote that arrives after the proposal. */
  predicate LatePrevoteGuard(s: Node) {
    s.step == Propose && s.proposalReceived && !s.prevoted
  }

  function LatePrevote(s: Node): (Node, Action) {
    if LatePrevoteGuard(s) then
      var h := if s.proposalHash.Some? then s.proposalHash.value else NIL;
      DoPrevote(s, if s.lockedHash.Some? && h != s.lockedHash.value then NIL else h)
    else (s, NoAction)
  }

  function RecordPrevote(s: Node, h: Hash, voter: AccountId, stake: nat): Node {
    s.(prevotes := AddRaw(s.prevotes, voter, h, stake))
  }

  function RecordQuorum(s: Node, q: Hash): Node {
    s.(pastQuorums := s.pastQuorums + {(s.round, q)}, validRound := Some(s.round), validHash := Some(q))
  }

  /** What follows once a prevote of the current round is recorded. */
  function PrevoteOutcome(s: Node, quorum: Option<Hash>): (Node, Action) {
    match quorum
    case Some(q) =>
      if q != NIL then
        var s2 := RecordQuorum(s, q);
        if s.step == Prevote then
          DoPrecommit(s2.(lockedRound := Some(s.round), lockedHash := Some(q), step := Precommit), q)
        else LatePrevote(s2)
      else if s.step == Prevote then DoPrecommit(s.(step := Precommit), NIL)
      else LatePrevote(s)
    case None => LatePrevote(s)
  }

  function OnPrevote(s: Node, height: nat, round: nat, h: Hash, voter: AccountId, stake: nat): (Node, Action) {
    if height != s.height then (s, NoAction)
    else if round > s.round then (Buffer(s, round, BufferedVote(voter, h, stake, false)), NoAction)
    else if round != s.round || Halted(s) then (s, NoAction)
    else
      var s1 := RecordPrevote(s, h, voter, stake);
      PrevoteOutcome(s1, QuorumHash(s1.prevotes))
  }

  function OnPrecommit(s: Node, height: nat, round: nat, h: Hash, voter: AccountId, stake: nat): (Node, Action) {
    if height != s.height then (s, NoAction)
    else if round > s.round then (Buffer(s, round, BufferedVote(voter, h, stake, true)), NoAction)
    else if round != s.round || s.step == Committed then (s, NoAction)
    else
      var s1 := s.(precommits := AddRaw(s.precommits, voter, h, stake));
      if s.step == CommitWait then (s1, NoAction)
      else
        match QuorumHash(s1.precommits)
        case Some(q) =>
          if q != NIL then
            (s1.(step := CommitWait, committedHash := Some(q)), Commit(s.height, s.round, q))
          else (s1, NoAction)
        case None => (s1, NoAction)
  }

  function OnProposeTimeout(s: Node): (Node, Action) {
    if s.step != Propose then (s, NoAction) else DoPrevote(s, NIL)
  }

  function OnPrevoteTimeout(s: Node): (Node, Action) {
    if s.step != Prevote then (s, NoAction) else DoPrecommit(s.(step := Precommit), NIL)
  }

  /** The round counter is a 32-bit number and wraps. */
  function OnPrecommitTimeout(s: Node): (Node, Action) {
    if Halted(s) then (s, NoAction)
    else
      var next := (s.round + 1) % (U32_MAX + 1);
      (NewRound(s, next), ScheduleProposal(s.height, next))
  }

  function OnCommitWaitTimeout(s: Node): (Node, Action) {
    (if s.step == CommitWait then s.(step := Committed) else s, NoAction)
  }

  /** The engine's single timer, dispatched on the step. */
  function OnTimeout(s: Node): (Node, Action) {
    match s.step
    case Propose => OnProposeTimeout(s)
    case Prevote => OnPrevoteTimeout(s)
    case Precommit => OnPrecommitTimeout(s)
    case CommitWait => OnCommitWaitTimeout(s)
    case Committed => (s, NoAction)
  }

  function ForceCommit(s: Node, height: nat, round: nat, h: Hash): Node {
    if height != s.height then s
    else s.(round := round, step := CommitWait, committedHash := Some(h))
  }

  function ReplayOne(s: Node, v: BufferedVote): (Node, Action) {
    if v.isPrecommit then OnPrecommit(s, s.height, s.round, v.blockHash, v.voter, v.stake)
    else OnPrevote(s, s.height, s.round, v.blockHash, v.voter, v.stake)
  }

  /** Replay buffered votes in order, keeping the actions that are not empty. */
  function Replay(s: Node, votes: seq<BufferedVote>): (Node, seq<Action>) {
    if votes == [] then (s, [])
    else
      var n := |votes| - 1;
      var (s1, actions) := Replay(s, votes[..n]);
      var (s2, a) := ReplayOne(s1, votes[n]);
      (s2, if a == NoAction then actions else actions + [a])
  }

  function TakeBuffer(s: Node): Node {
    var rest := s.futureVotes - {s.round};
    s.(futureVotes := if s.round > 0 then map r | r in rest && r >= s.round :: rest[r] else rest)
  }

  function DrainBufferedVotes(s: Node): (Node, seq<Action>) {
    if s.round !in s.futureVotes then (s, [])
    else Replay(TakeBuffer(s), s.futureVotes[s.round])
  }

  /** What the step says about the one-shot flags. */
  predicate Flags(s: Node) {
    && (s.step == Propose ==> !s.prevoted && !s.precommitted && !s.proposalReceived)
    && (s.step == Prevote ==> s.prevoted && !s.precommitted)
  }

  // ----- events -----

  datatype Event =
    | ProposalEvent(height: nat, round: nat, blockHash: Hash, validRound: Option<nat>)
    | PrevoteEvent(height: nat, round: nat, blockHash: Hash, voter: AccountId, stake: nat)
    | PrecommitEvent(height: nat, round: nat, blockHash: Hash, voter: AccountId, stake: nat)
    | ProposeTimeoutEvent
    | PrevoteTimeoutEvent
    | PrecommitTimeoutEvent
    | CommitWaitTimeoutEvent
    | TimeoutEvent
    | DrainEvent
    | CertificateEvent(height: nat, round: nat, blockHash: Hash)

  function One(r: (Node, Action)): (Node, seq<Action>) {
    (r.0, if r.1 == NoAction then [] else [r.1])
  }

  function Handle(s: Node, e: Event): (Node, seq<Action>) {
    match e
    case ProposalEvent(height, round, h, vr) => One(OnProposal(s, height, round, h, vr))
    case PrevoteEvent(height, round, h, voter, stake) => One(OnPrevote(s, height, round, h, voter, stake))
    case PrecommitEvent(height, round, h, voter, stake) => One(OnPrecommit(s, height, round, h, voter, stake))
    case ProposeTimeoutEvent => One(OnProposeTimeout(s))
    case PrevoteTimeoutEvent => One(OnPrevoteTimeout(s))
    case PrecommitTimeoutEvent => One(OnPrecommitTimeout(s))
    case CommitWaitTimeoutEvent => One(OnCommitWaitTimeout(s))
    case TimeoutEvent => One(OnTimeout(s))
    case DrainEvent => DrainBufferedVotes(s)
    // The caller drops a certificate for nil or for a node that has already decided.
    case CertificateEvent(height, round, h) =>
      (if h == NIL || Halted(s) then s else ForceCommit(s, height, round, h), [])
  }

  /** The event takes a running node from the last 32-bit round back to round zero. */
  predicate Wraps(s: Node, e: Event) {
    && s.round >= U32_MAX && !Halted(s)
    && (e.PrecommitTimeoutEvent? || (e.TimeoutEvent? && s.step == Precommit))
  }
}
