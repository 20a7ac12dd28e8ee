/** What one node does over any sequence of events, whoever sends them and with whatever
    stake they claim: nothing here relies on the other nodes. */
module NodeRuns {
  import opened Basics
  import opened VoteCollection
  import opened TendermintSpec

  /** The state after the events and every action they produced, in order. */
  function Run(s: Node, es: seq<Event>): (Node, seq<Action>) {
    if es == [] then (s, [])
    else
      var n := |es| - 1;
      var (s1, before) := Run(s, es[..n]);
      var (s2, now) := Handle(s1, es[n]);
      (s2, before + now)
  }

  /** How often the events take the 32-bit round counter past its end. */
  function Laps(s: Node, es: seq<Event>): nat {
    if es == [] then 0
    else
      var n := |es| - 1;
      Laps(s, es[..n]) + if Wraps(Run(s, es[..n]).0, es[n]) then 1 else 0
  }

  /** An action and the lap of the round counter in which it was sent. */
  datatype Sent = Sent(lap: nat, action: Action)

  function InLap(lap: nat, actions: seq<Action>): (sent: seq<Sent>)
    ensures |sent| == |actions|
  {
    seq(|actions|, i requires 0 <= i < |actions| => Sent(lap, actions[i]))
  }

  /** The actions of `Run`, each with its lap. */
  function SentBy(s: Node, es: seq<Event>): seq<Sent> {
    if es == [] then []
    else
      var n := |es| - 1;
      SentBy(s, es[..n]) + InLap(Laps(s, es[..n]), Handle(Run(s, es[..n]).0, es[n]).1)
  }

  lemma {:induction false} SentIsRun(s: Node, es: seq<Event>)
    ensures |SentBy(s, es)| == |Run(s, es).1|
    ensures forall i :: 0 <= i < |SentBy(s, es)| ==> SentBy(s, es)[i].action == Run(s, es).1[i]
    decreases |es|
  {
    if es != [] {
      var n := |es| - 1;
      SentIsRun(s, es[..n]);
      var (t, before) := Run(s, es[..n]);
      var now := Handle(t, es[n]).1;
      assert Run(s, es).1 == before + now;
      assert SentBy(s, es) == SentBy(s, es[..n]) + InLap(Laps(s, es[..n]), now);
    }
  }

  // ----- the properties -----

  predicate SameVote(a: Action, b: Action) {
    || (a.BroadcastPrevote? && b.BroadcastPrevote? && a.round == b.round)
    || (a.BroadcastPrecommit? && b.BroadcastPrecommit? && a.round == b.round)
  }

  /** No round sees two prevotes or two precommits. */
  ghost predicate OneVotePerRound(actions: seq<Action>) {
    forall i, j :: 0 <= i < j < |actions| ==> !SameVote(actions[i], actions[j])
  }

  /** The same within each lap of the round counter. */
  ghost predicate OneVotePerLap(sent: seq<Sent>) {
    forall i, j :: 0 <= i < j < |sent| && sent[i].lap == sent[j].lap ==> !SameVote(sent[i].action, sent[j].action)
  }

  /** An action of a running node belongs to a lap and round it reached, and to the current
      one only if the flag says so. */
  predicate Counted(s: Node, lap: nat, x: Sent) {
    !Halted(s) && (x.action.BroadcastPrevote? || x.action.BroadcastPrecommit?) ==>
      || x.lap < lap
      || (x.lap == lap && x.action.round < s.round)
      || (x.lap == lap && x.action.round == s.round
          && if x.action.BroadcastPrevote? then s.prevoted else s.precommitted)
  }

  ghost predicate History(s: Node, lap: nat, sent: seq<Sent>) {
    && Flags(s) && OneVotePerLap(sent)
    && (forall i :: 0 <= i < |sent| ==> Counted(s, lap, sent[i]))
  }

  // ----- one step -----

  predicate IsVote(a: Action) {
    a.BroadcastPrevote? || a.BroadcastPrecommit?
  }

  /** `(s', a)` follows `s` within a lap: what it takes for the history to go on. */
  ghost predicate Follows(s: Node, s': Node, a: Action) {
    && Flags(s')
    && (Halted(s) ==> Halted(s') && !IsVote(a))
    && (!Halted(s') ==>
          || (s'.round > s.round && !IsVote(a))
          || (s'.round == s.round && (s.prevoted ==> s'.prevoted) && (s.precommitted ==> s'.precommitted)))
    && (a.BroadcastPrevote? ==> !s.prevoted && a.round == s.round && (!Halted(s') ==> s'.prevoted))
    && (a.BroadcastPrecommit? ==> !s.precommitted && a.round == s.round && (!Halted(s') ==> s'.precommitted))
  }

  lemma {:induction false} HistoryGrows(s: Node, lap: nat, sent: seq<Sent>, s': Node, a: Action)
    requires History(s, lap, sent) && Follows(s, s', a)
    ensures History(s', lap, sent + InLap(lap, One((s', a)).1))
  {
    var more := sent + InLap(lap, One((s', a)).1);
    forall i | 0 <= i < |more|
      ensures Counted(s', lap, more[i])
    {
      if i < |sent| { assert Counted(s, lap, sent[i]); }
    }
    forall i, j | 0 <= i < j < |more| && more[i].lap == more[j].lap
      ensures !SameVote(more[i].action, more[j].action)
    {
      if j < |sent| {
        assert !SameVote(sent[i].action, sent[j].action);
      } else {
        assert Counted(s, lap, sent[i]);
      }
    }
  }

  /** A new lap starts with nothing sent in it. */
  lemma {:induction false} HistoryWraps(s: Node, lap: nat, sent: seq<Sent>, s': Node, a: Action)
    requires History(s, lap, sent) && !Halted(s) && Flags(s') && !IsVote(a)
    ensures History(s', lap + 1, sent + InLap(lap, One((s', a)).1))
  {
    var more := sent + InLap(lap, One((s', a)).1);
    forall i | 0 <= i < |more|
      ensures Counted(s', lap + 1, more[i])
    {
      if i < |sent| { assert Counted(s, lap, sent[i]); }
    }
    forall i, j | 0 <= i < j < |more| && more[i].lap == more[j].lap
      ensures !SameVote(more[i].action, more[j].action)
    {
      if j < |sent| { assert !SameVote(sent[i].action, sent[j].action); }
    }
  }

  lemma {:induction false} PrevoteFollows(s: Node, height: nat, round: nat, h: Hash, voter: AccountId, stake: nat)
    requires Flags(s)
    ensures var (s', a) := OnPrevote(s, height, round, h, voter, stake); Follows(s, s', a)
  {
  }

  lemma {:induction false} PrecommitFollows(s: Node, height: nat, round: nat, h: Hash, voter: AccountId, stake: nat)
    requires Flags(s)
    ensures var (s', a) := OnPrecommit(s, height, round, h, voter, stake); Follows(s, s', a)
  {
  }

  lemma {:induction false} ProposalFollows(s: Node, height: nat, round: nat, h: Hash, vr: Option<nat>)
    requires Flags(s)
    ensures var (s', a) := OnProposal(s, height, round, h, vr); Follows(s, s', a)
  {
  }

  lemma {:induction false} TimeoutsFollow(s: Node)
    requires Flags(s)
    ensures var (s', a) := OnProposeTimeout(s); Follows(s, s', a)
    ensures var (s', a) := OnPrevoteTimeout(s); Follows(s, s', a)
    ensures var (s', a) := OnCommitWaitTimeout(s); Follows(s, s', a)
    ensures !Wraps(s, PrecommitTimeoutEvent) ==> var (s', a) := OnPrecommitTimeout(s); Follows(s, s', a)
  {
  }

  lemma {:induction false} ReplayOneFollows(s: Node, v: BufferedVote)
    requires Flags(s)
    ensures var (s', a) := ReplayOne(s, v); Follows(s, s', a)
  {
    if v.isPrecommit {
      PrecommitFollows(s, s.height, s.round, v.blockHash, v.voter, v.stake);
    } else {
      PrevoteFollows(s, s.height, s.round, v.blockHash, v.voter, v.stake);
    }
  }

  lemma {:induction false} ReplayHistory(s: Node, lap: nat, sent: seq<Sent>, votes: seq<BufferedVote>)
    requires History(s, lap, sent)
    ensures var (s', more) := Replay(s, votes); History(s', lap, sent + InLap(lap, more))
    decreases |votes|
  {
    if votes == [] {
      assert sent + [] == sent;
    } else {
      var n := |votes| - 1;
      ReplayHistory(s, lap, sent, votes[..n]);
      var (s1, more) := Replay(s, votes[..n]);
      var (s2, a) := ReplayOne(s1, votes[n]);
      ReplayOneFollows(s1, votes[n]);
      HistoryGrows(s1, lap, sent + InLap(lap, more), s2, a);
      InLapAppend(sent, lap, more, One((s2, a)).1);
      assert Replay(s, votes).1 == more + One((s2, a)).1;
    }
  }

  lemma {:induction false} InLapAppend(sent: seq<Sent>, lap: nat, x: seq<Action>, y: seq<Action>)
    ensures sent + InLap(lap, x) + InLap(lap, y) == sent + InLap(lap, x + y)
  {
  }

  lemma {:induction false} DrainHistory(s: Node, lap: nat, sent: seq<Sent>)
    requires History(s, lap, sent)
    ensures var (s', now) := DrainBufferedVotes(s); History(s', lap, sent + InLap(lap, now))
  {
    if s.round in s.futureVotes {
      HistoryGrows(s, lap, sent, TakeBuffer(s), NoAction);
      assert sent + [] == sent;
      ReplayHistory(TakeBuffer(s), lap, sent, s.futureVotes[s.round]);
    } else {
      assert sent + [] == sent;
    }
  }

  /** An event that is not a drain leads to one action at most. */
  lemma {:induction false} HandleFollows(s: Node, e: Event) returns (a: Action)
    requires Flags(s) && !e.DrainEvent? && !Wraps(s, e)
    ensures Follows(s, Handle(s, e).0, a) && Handle(s, e).1 == One((Handle(s, e).0, a)).1
  {
    TimeoutsFollow(s);
    match e
    case ProposalEvent(height, round, h, vr) =>
      ProposalFollows(s, height, round, h, vr);
      a := OnProposal(s, height, round, h, vr).1;
    case PrevoteEvent(height, round, h, voter, stake) =>
      PrevoteFollows(s, height, round, h, voter, stake);
      a := OnPrevote(s, height, round, h, voter, stake).1;
    case PrecommitEvent(height, round, h, voter, stake) =>
      PrecommitFollows(s, height, round, h, voter, stake);
      a := OnPrecommit(s, height, round, h, voter, stake).1;
    case ProposeTimeoutEvent => a := OnProposeTimeout(s).1;
    case PrevoteTimeoutEvent => a := OnPrevoteTimeout(s).1;
    case PrecommitTimeoutEvent => a := OnPrecommitTimeout(s).1;
    case CommitWaitTimeoutEvent => a := OnCommitWaitTimeout(s).1;
    case TimeoutEvent => a := OnTimeout(s).1;
    case CertificateEvent(height, round, h) => a := NoAction;
  }

  lemma {:induction false} HandleHistory(s: Node, lap: nat, sent: seq<Sent>, e: Event)
    requires History(s, lap, sent)
    ensures var (s', now) := Handle(s, e);
      History(s', lap + (if Wraps(s, e) then 1 else 0), sent + InLap(lap, now))
  {
    if e.DrainEvent? {
      DrainHistory(s, lap, sent);
    } else if Wraps(s, e) {
      HistoryWraps(s, lap, sent, OnPrecommitTimeout(s).0, OnPrecommitTimeout(s).1);
    } else {
      var a := HandleFollows(s, e);
      HistoryGrows(s, lap, sent, Handle(s, e).0, a);
    }
  }

  // ----- every run -----

  /** Over every sequence of events a node sends at most one prevote and one precommit in each
      round of each lap of its round counter. */
  lemma {:induction false} VotesOncePerLap(height: nat, totalStake: nat, es: seq<Event>)
    ensures OneVotePerLap(SentBy(NewNode(height, totalStake), es))
    ensures var s := NewNode(height, totalStake); History(Run(s, es).0, Laps(s, es), SentBy(s, es))
    decreases |es|
  {
    if es != [] {
      var n := |es| - 1;
      var s0 := NewNode(height, totalStake);
      VotesOncePerLap(height, totalStake, es[..n]);
      HandleHistory(Run(s0, es[..n]).0, Laps(s0, es[..n]), SentBy(s0, es[..n]), es[n]);
    }
  }

  lemma {:induction false} LapOf(s: Node, es: seq<Event>, i: nat)
    requires i < |SentBy(s, es)|
    ensures SentBy(s, es)[i].lap <= Laps(s, es)
    decreases |es|
  {
    if es != [] {
      var n := |es| - 1;
      if i < |SentBy(s, es[..n])| { LapOf(s, es[..n], i); }
    }
  }

  /** So while the counter has not run out there is one of each per round. */
  lemma {:induction false} VotesAtMostOnce(height: nat, totalStake: nat, es: seq<Event>)
    requires Laps(NewNode(height, totalStake), es) == 0
    ensures OneVotePerRound(Run(NewNode(height, totalStake), es).1)
  {
    var s := NewNode(height, totalStake);
    VotesOncePerLap(height, totalStake, es);
    SentIsRun(s, es);
    var sent, actions := SentBy(s, es), Run(s, es).1;
    forall i, j | 0 <= i < j < |actions|
      ensures !SameVote(actions[i], actions[j])
    {
      LapOf(s, es, i);
      LapOf(s, es, j);
      assert sent[i].lap == sent[j].lap;
    }
  }

  /** The branch that prevotes on a late prevote is dead: in every reachable state its guard
      is false, whatever vote arrives next and at every point of a buffer replay. */
  lemma {:induction false} LatePrevoteNeverFires(height: nat, totalStake: nat, es: seq<Event>,
                                                 votes: seq<BufferedVote>, k: nat)
    requires k <= |votes|
    ensures var s := Run(NewNode(height, totalStake), es).0;
            !LatePrevoteGuard(s) && !LatePrevoteGuard(Replay(TakeBuffer(s), votes[..k]).0)
  {
    VotesOncePerLap(height, totalStake, es);
    var s0 := NewNode(height, totalStake);
    var s := Run(s0, es).0;
    HistoryGrows(s, Laps(s0, es), SentBy(s0, es), TakeBuffer(s), NoAction);
    ReplayHistory(TakeBuffer(s), Laps(s0, es), SentBy(s0, es) + [], votes[..k]);
  }

  // ----- precommits rest on quorums -----

  /** The precommit for a block is of the current round, on a prevote quorum that is recorded
      and that the node's own collector holds. */
  ghost predicate OnQuorum(s: Node, a: Action) {
    a.BroadcastPrecommit? && a.blockHash != NIL ==>
      a.round == s.round && (a.round, a.blockHash) in s.pastQuorums && BucketHasQuorum(s.prevotes, a.blockHash)
  }

  ghost predicate AllOnQuorum(s: Node, actions: seq<Action>) {
    forall a :: a in actions ==> OnQuorum(s, a)
  }

  /** What is recorded or held stays so. */
  ghost predicate QuorumsStay(s: Node, s': Node) {
    && s'.round == s.round && s.pastQuorums <= s'.pastQuorums
    && forall h :: BucketHasQuorum(s.prevotes, h) ==> BucketHasQuorum(s'.prevotes, h)
  }

  lemma {:induction false} AddRawKeepsQuorum(c: Collector, voter: AccountId, h: Hash, stake: nat, g: Hash)
    requires BucketHasQuorum(c, g)
    ensures BucketHasQuorum(AddRaw(c, voter, h, stake), g)
  {
  }

  lemma {:induction false} OutcomeOnQuorum(s: Node)
    ensures var (s', a) := PrevoteOutcome(s, QuorumHash(s.prevotes));
      s'.prevotes == s.prevotes && s'.round == s.round && s.pastQuorums <= s'.pastQuorums && OnQuorum(s', a)
  {
  }

  lemma {:induction false} PrevoteOnQuorum(s: Node, height: nat, round: nat, h: Hash, voter: AccountId, stake: nat)
    ensures var (s', a) := OnPrevote(s, height, round, h, voter, stake); QuorumsStay(s, s') && OnQuorum(s', a)
  {
    forall g | BucketHasQuorum(s.prevotes, g)
      ensures BucketHasQuorum(AddRaw(s.prevotes, voter, h, stake), g)
    {
      AddRawKeepsQuorum(s.prevotes, voter, h, stake, g);
    }
    OutcomeOnQuorum(RecordPrevote(s, h, voter, stake));
  }

  lemma {:induction false} ReplayOnQuorum(s: Node, votes: seq<BufferedVote>)
    ensures var (s', actions) := Replay(s, votes); QuorumsStay(s, s') && AllOnQuorum(s', actions)
    decreases |votes|
  {
    if votes != [] {
      var n := |votes| - 1;
      ReplayOnQuorum(s, votes[..n]);
      var (s1, actions) := Replay(s, votes[..n]);
      PrevoteOnQuorum(s1, s1.height, s1.round, votes[n].blockHash, votes[n].voter, votes[n].stake);
      var (s2, a) := ReplayOne(s1, votes[n]);
      assert QuorumsStay(s1, s2) && OnQuorum(s2, a);
    }
  }

  lemma {:induction false} HandleOnQuorum(s: Node, e: Event)
    ensures var (s', now) := Handle(s, e); s.pastQuorums <= s'.pastQuorums && AllOnQuorum(s', now)
  {
    if e.PrevoteEvent? {
      PrevoteOnQuorum(s, e.height, e.round, e.blockHash, e.voter, e.stake);
    } else if e.DrainEvent? && s.round in s.futureVotes {
      ReplayOnQuorum(TakeBuffer(s), s.futureVotes[s.round]);
    }
  }

  lemma {:induction false} StepOf(s: Node, es: seq<Event>, e: Event, more: seq<Event>)
    requires more == es + [e]
    ensures Run(s, more) == (Handle(Run(s, es).0, e).0, Run(s, es).1 + Handle(Run(s, es).0, e).1)
  {
    assert more[..|es|] == es;
  }

  lemma {:induction false} RecordsStay(s: Node, es: seq<Event>, i: nat)
    requires i <= |es|
    ensures Run(s, es[..i]).0.pastQuorums <= Run(s, es).0.pastQuorums
    decreases |es|
  {
    if i == |es| {
      assert es[..i] == es;
    } else {
      var n := |es| - 1;
      assert es[..n][..i] == es[..i];
      RecordsStay(s, es[..n], i);
      var t := Run(s, es[..n]).0;
      HandleOnQuorum(t, es[n]);
      StepOf(s, es[..n], es[n], es);
    }
  }

  /** Over every sequence of events, each precommit for a block is sent in a state whose own
      collector holds a prevote quorum for it in that round, and that quorum stays on record. */
  lemma {:induction false} PrecommitsOnQuorum(s: Node, es: seq<Event>, i: nat, a: Action)
    requires i < |es| && a in Handle(Run(s, es[..i]).0, es[i]).1
    ensures OnQuorum(Run(s, es[..i + 1]).0, a)
    ensures a.BroadcastPrecommit? && a.blockHash != NIL ==> (a.round, a.blockHash) in Run(s, es).0.pastQuorums
  {
    var t := Run(s, es[..i]).0;
    HandleOnQuorum(t, es[i]);
    assert OnQuorum(Handle(t, es[i]).0, a);
    assert es[..i + 1] == es[..i] + [es[i]];
    StepOf(s, es[..i], es[i], es[..i + 1]);
    RecordsStay(s, es, i + 1);
  }

  // ----- past the end of the counter -----

  /** How often the node moved on to another round. */
  function Advances(actions: seq<Action>): nat {
    if actions == [] then 0
    else Advances(actions[..|actions| - 1]) + if actions[|actions| - 1].ScheduleProposal? then 1 else 0
  }

  lemma {:induction false} AdvancesAppend(actions: seq<Action>, more: seq<Action>)
    ensures Advances(actions + more) == Advances(actions) + Advances(more)
    decreases |more|
  {
    if more == [] {
      assert actions + more == actions;
    } else {
      var n := |more| - 1;
      assert (actions + more)[..|actions| + n] == actions + more[..n];
      AdvancesAppend(actions, more[..n]);
    }
  }

  lemma {:induction false} AdvancesOne(r: (Node, Action))
    ensures Advances(One(r).1) == if r.1.ScheduleProposal? then 1 else 0
  {
  }

  /** The step stays in its round. */
  predicate Stays(s: Node, s': Node, a: Action) {
    !a.ScheduleProposal? && (Halted(s) ==> Halted(s')) && (!Halted(s') ==> s'.round == s.round)
  }

  lemma {:induction false} VoteStays(s: Node, height: nat, round: nat, h: Hash, voter: AccountId, stake: nat)
    ensures var (s', a) := OnPrevote(s, height, round, h, voter, stake); Stays(s, s', a)
    ensures var (s', a) := OnPrecommit(s, height, round, h, voter, stake); Stays(s, s', a)
  {
  }

  lemma {:induction false} ReplayOneStays(s: Node, v: BufferedVote)
    ensures Stays(s, ReplayOne(s, v).0, ReplayOne(s, v).1)
  {
    VoteStays(s, s.height, s.round, v.blockHash, v.voter, v.stake);
  }

  lemma {:induction false} ReplayStays(s: Node, votes: seq<BufferedVote>)
    ensures Stays(s, Replay(s, votes).0, NoAction) && Advances(Replay(s, votes).1) == 0
    decreases |votes|
  {
    if votes != [] {
      var n := |votes| - 1;
      ReplayStays(s, votes[..n]);
      var (s1, actions) := Replay(s, votes[..n]);
      ReplayOneStays(s1, votes[n]);
      AdvancesOne(ReplayOne(s1, votes[n]));
      AdvancesAppend(actions, One(ReplayOne(s1, votes[n])).1);
      assert Replay(s, votes).1 == actions + One(ReplayOne(s1, votes[n])).1;
    }
  }

  predicate MovesOn(s: Node, e: Event) {
    !Halted(s) && (e.PrecommitTimeoutEvent? || (e.TimeoutEvent? && s.step == Precommit))
  }

  lemma {:induction false} TimersStay(s: Node)
    ensures Stays(s, OnProposeTimeout(s).0, OnProposeTimeout(s).1)
    ensures Stays(s, OnPrevoteTimeout(s).0, OnPrevoteTimeout(s).1)
    ensures Stays(s, OnCommitWaitTimeout(s).0, OnCommitWaitTimeout(s).1)
  {
  }

  lemma {:induction false} MessageStays(s: Node, e: Event)
    requires e.ProposalEvent? || e.PrevoteEvent? || e.PrecommitEvent?
    ensures Stays(s, Handle(s, e).0, NoAction) && Advances(Handle(s, e).1) == 0
  {
    match e
    case ProposalEvent(height, round, h, vr) => AdvancesOne(OnProposal(s, height, round, h, vr));
    case PrevoteEvent(height, round, h, voter, stake) =>
      VoteStays(s, height, round, h, voter, stake);
      AdvancesOne(OnPrevote(s, height, round, h, voter, stake));
    case PrecommitEvent(height, round, h, voter, stake) =>
      VoteStays(s, height, round, h, voter, stake);
      AdvancesOne(OnPrecommit(s, height, round, h, voter, stake));
  }

  lemma {:induction false} HandleStays(s: Node, e: Event)
    requires !MovesOn(s, e)
    ensures Stays(s, Handle(s, e).0, NoAction) && Advances(Handle(s, e).1) == 0
  {
    TimersStay(s);
    match e
    case ProposalEvent(_, _, _, _) => MessageStays(s, e);
    case PrevoteEvent(_, _, _, _, _) => MessageStays(s, e);
    case PrecommitEvent(_, _, _, _, _) => MessageStays(s, e);
    case ProposeTimeoutEvent => AdvancesOne(OnProposeTimeout(s));
    case PrevoteTimeoutEvent => AdvancesOne(OnPrevoteTimeout(s));
    case PrecommitTimeoutEvent => AdvancesOne(OnPrecommitTimeout(s));
    case CommitWaitTimeoutEvent => AdvancesOne(OnCommitWaitTimeout(s));
    case TimeoutEvent => AdvancesOne(OnTimeout(s));
    case DrainEvent => if s.round in s.futureVotes { ReplayStays(TakeBuffer(s), s.futureVotes[s.round]); }
    case CertificateEvent(_, _, _) =>
  }

  lemma {:induction false} HandleMoves(s: Node, e: Event)
    requires MovesOn(s, e)
    ensures Handle(s, e) == One(OnPrecommitTimeout(s)) && Advances(Handle(s, e).1) == 1
    ensures Handle(s, e).0 == NewRound(s, (s.round + 1) % (U32_MAX + 1))
  {
    AdvancesOne(OnPrecommitTimeout(s));
  }

  /** A running node's position on the counter, laps included. */
  ghost predicate Position(s: Node, lap: nat, advances: nat) {
    && lap * (U32_MAX + 1) <= advances
    && (!Halted(s) ==> s.round <= U32_MAX && s.round + lap * (U32_MAX + 1) == advances)
  }

  lemma {:induction false} HandlePosition(s: Node, lap: nat, advances: nat, e: Event)
    requires Position(s, lap, advances)
    ensures Position(Handle(s, e).0, lap + (if Wraps(s, e) then 1 else 0), advances + Advances(Handle(s, e).1))
  {
    if MovesOn(s, e) { HandleMoves(s, e); } else { HandleStays(s, e); }
  }

  lemma {:induction false} RunPosition(height: nat, totalStake: nat, es: seq<Event>)
    ensures var s := NewNode(height, totalStake); Position(Run(s, es).0, Laps(s, es), Advances(Run(s, es).1))
    decreases |es|
  {
    if es != [] {
      var s, n := NewNode(height, totalStake), |es| - 1;
      RunPosition(height, totalStake, es[..n]);
      var t := Run(s, es[..n]).0;
      HandlePosition(t, Laps(s, es[..n]), Advances(Run(s, es[..n]).1), es[n]);
      AdvancesAppend(Run(s, es[..n]).1, Handle(t, es[n]).1);
    }
  }

  function Timeouts(k: nat): (es: seq<Event>)
    ensures |es| == k
  {
    seq(k, i => PrecommitTimeoutEvent)
  }

  /** Where `k` timeouts take a node from round zero. */
  predicate Walked(s: Node, t: Node, k: nat) {
    && !Halted(t) && t.round == (if k == U32_MAX + 1 then 0 else k) && t.height == s.height
    && t.lockedHash == s.lockedHash
    && (k > 0 ==> t.step == Propose && !t.prevoted && !t.proposalReceived)
  }

  lemma {:induction false} WalkStep(s: Node, t: Node, k: nat)
    requires Walked(s, t, k) && k <= U32_MAX
    ensures MovesOn(t, PrecommitTimeoutEvent) && Walked(s, Handle(t, PrecommitTimeoutEvent).0, k + 1)
  {
    HandleMoves(t, PrecommitTimeoutEvent);
  }

  /** Timeouts alone walk a node from round to round, and from the last to the first. */
  lemma {:induction false} TimeoutsWalk(s: Node, es: seq<Event>, t: Node, before: seq<Action>, k: nat)
    returns (u: Node, actions: seq<Action>)
    requires Run(s, es) == (t, before) && Walked(t, t, 0) && k <= U32_MAX + 1
    ensures Run(s, es + Timeouts(k)) == (u, before + actions) && Walked(t, u, k) && Advances(actions) == k
    decreases k
  {
    if k == 0 {
      assert es + Timeouts(0) == es && before + [] == before;
      u, actions := t, [];
    } else {
      var u1, more := TimeoutsWalk(s, es, t, before, k - 1);
      var now := Handle(u1, PrecommitTimeoutEvent).1;
      WalkStep(t, u1, k - 1);
      HandleMoves(u1, PrecommitTimeoutEvent);
      AdvancesAppend(more, now);
      StepOf(s, es + Timeouts(k - 1), PrecommitTimeoutEvent, es + Timeouts(k));
      u, actions := Handle(u1, PrecommitTimeoutEvent).0, more + now;
      assert before + more + now == before + actions;
    }
  }

  /** A proposal, a full lap of timeouts, and another proposal. */
  function TwoProposals(height: nat, h: Hash, g: Hash): seq<Event> {
    [ProposalEvent(height, 0, h, None)] + Timeouts(U32_MAX + 1) + [ProposalEvent(height, 0, g, None)]
  }

  /** A node that times out through a whole lap prevotes again in round zero, for any block. */
  lemma {:induction false} SecondLapVotesAgain(height: nat, totalStake: nat, h: Hash, g: Hash)
    ensures var actions := Run(NewNode(height, totalStake), TwoProposals(height, h, g)).1;
      && |actions| >= 2 && actions[0] == BroadcastPrevote(height, 0, h)
      && actions[|actions| - 1] == BroadcastPrevote(height, 0, g)
      && Advances(actions) == U32_MAX + 1
  {
    var s, first := NewNode(height, totalStake), [ProposalEvent(height, 0, h, None)];
    var vote, again := BroadcastPrevote(height, 0, h), BroadcastPrevote(height, 0, g);
    StepOf(s, [], first[0], first);
    var t := OnProposal(s, height, 0, h, None).0;
    assert Handle(s, first[0]) == (t, [vote]);
    assert [] + [vote] == [vote];
    var u, actions := TimeoutsWalk(s, first, t, [vote], U32_MAX + 1);
    StepOf(s, first + Timeouts(U32_MAX + 1), ProposalEvent(height, 0, g, None), TwoProposals(height, h, g));
    AdvancesAppend([vote], actions);
    AdvancesAppend([vote] + actions, [again]);
    assert Advances([vote]) == 0 && Advances([again]) == 0;
  }

  ghost predicate OneVoteUpTo(s: Node, n: nat) {
    forall es :: Advances(Run(s, es).1) <= n ==> OneVotePerRound(Run(s, es).1)
  }

  /** So one vote per round holds for all runs of at most `n` round changes exactly when `n`
      fits the counter. */
  lemma {:induction false} OneVoteExactlyWithinCounter(height: nat, totalStake: nat, n: nat)
    ensures OneVoteUpTo(NewNode(height, totalStake), n) <==> n <= U32_MAX
  {
    var s := NewNode(height, totalStake);
    if n <= U32_MAX {
      forall es | Advances(Run(s, es).1) <= n
        ensures OneVotePerRound(Run(s, es).1)
      {
        RunPosition(height, totalStake, es);
        VotesAtMostOnce(height, totalStake, es);
      }
    } else {
      SecondLapVotesAgain(height, totalStake, 1, 2);
      var actions := Run(s, TwoProposals(height, 1, 2)).1;
      assert SameVote(actions[0], actions[|actions| - 1]);
    }
  }
}
