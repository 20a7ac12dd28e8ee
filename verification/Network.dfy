/** A network of validators at one height.

    The log lists every signed vote ever sent, in order. Honest nodes move only through
    their state machine; anyone else may sign any vote of their own at any time, and every
    proposal is chosen by the adversary. */
module Network {
  import opened Basics
  import opened Stake
  import opened TendermintSpec

  datatype Kind = PrevoteKind | PrecommitKind

  datatype SentVote = SentVote(kind: Kind, round: nat, hash: Hash, voter: AccountId)

  datatype Config = Config(height: nat, validators: seq<Validator>, honest: set<AccountId>)

  datatype Net = Net(nodes: map<AccountId, Node>, log: seq<SentVote>)

  ghost predicate ValidConfig(cfg: Config) {
    DistinctIds(cfg.validators) && FaultyBelowThird(cfg.validators, cfg.honest)
  }

  function Voters(log: seq<SentVote>, k: Kind, r: nat, h: Hash): (s: set<AccountId>)
    ensures forall x :: x in s <==> SentVote(k, r, h, x) in log
  {
    set v | v in log && v == SentVote(k, r, h, v.voter) :: v.voter
  }

  /** Two thirds of the stake have sent a vote of this kind for `h` in round `r`. */
  ghost predicate Quorum(cfg: Config, log: seq<SentVote>, k: Kind, r: nat, h: Hash) {
    HasQuorum(StakeOf(cfg.validators, Voters(log, k, r, h)), Total(cfg.validators))
  }

  function VotesOf(p: AccountId, actions: seq<Action>): seq<SentVote> {
    if actions == [] then []
    else VotesOf(p, actions[..|actions| - 1]) + VoteOf(p, actions[|actions| - 1])
  }

  function VoteOf(p: AccountId, a: Action): seq<SentVote> {
    match a
    case BroadcastPrevote(_, r, h) => [SentVote(PrevoteKind, r, h, p)]
    case BroadcastPrecommit(_, r, h) => [SentVote(PrecommitKind, r, h, p)]
    case _ => []
  }

  /** What the node's network layer lets through to the state machine: a vote at this
      height only if it was signed and with its voter's canonical stake, a certificate
      only if two thirds of the stake signed those precommits. */
  ghost predicate Authentic(cfg: Config, log: seq<SentVote>, e: Event) {
    match e
    case PrevoteEvent(height, r, h, voter, stake) =>
      stake == StakeAt(cfg.validators, voter) && (height == cfg.height ==> SentVote(PrevoteKind, r, h, voter) in log)
    case PrecommitEvent(height, r, h, voter, stake) =>
      stake == StakeAt(cfg.validators, voter) && (height == cfg.height ==> SentVote(PrecommitKind, r, h, voter) in log)
    case CertificateEvent(height, r, h) => height == cfg.height ==> Quorum(cfg, log, PrecommitKind, r, h)
    case _ => true
  }

  ghost predicate Init(cfg: Config, n: Net) {
    && n.nodes.Keys == cfg.honest
    && (forall p :: p in cfg.honest ==> n.nodes[p] == NewNode(cfg.height, Total(cfg.validators)))
    && n.log == []
  }

  /** Honest node `p` takes event `e` and its votes go out. */
  ghost predicate NodeStep(cfg: Config, a: Net, b: Net, p: AccountId, e: Event) {
    && p in cfg.honest && p in a.nodes
    && Authentic(cfg, a.log, e) && !Wraps(a.nodes[p], e)
    && var (s, actions) := Handle(a.nodes[p], e);
       b == Net(a.nodes[p := s], a.log + VotesOf(p, actions))
  }

  /** A faulty voter signs anything. */
  ghost predicate FaultyStep(cfg: Config, a: Net, b: Net, v: SentVote) {
    v.voter !in cfg.honest && b == Net(a.nodes, a.log + [v])
  }

  ghost predicate Next(cfg: Config, a: Net, b: Net) {
    || (exists p, e :: NodeStep(cfg, a, b, p, e))
    || (exists v :: FaultyStep(cfg, a, b, v))
  }

  /** Every finite execution of the network. */
  ghost predicate IsRun(cfg: Config, run: seq<Net>) {
    && run != []
    && Init(cfg, run[0])
    && (forall i :: 0 <= i < |run| - 1 ==> Next(cfg, run[i], run[i + 1]))
  }

  lemma {:induction false} QuorumMonotone(cfg: Config, log: seq<SentVote>, more: seq<SentVote>, k: Kind, r: nat,
                                          h: Hash)
    requires Quorum(cfg, log, k, r, h)
    requires forall v :: v in log ==> v in more
    ensures Quorum(cfg, more, k, r, h)
  {
    StakeOfMonotone(cfg.validators, Voters(log, k, r, h), Voters(more, k, r, h));
  }
}
