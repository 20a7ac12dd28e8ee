/** What the network can do: the adversary's moves, and a run in which everyone honest decides. */
module NetworkProgress {
  import opened Basics
  import opened OrderedSets
  import opened Stake
  import opened TendermintSpec
  import opened NodeRuns
  import opened NodeProgress
  import opened Network

  /** One step of honest node `p`. */
  function Stepped(a: Net, p: AccountId, e: Event): Net
    requires p in a.nodes
  {
    Net(a.nodes[p := Handle(a.nodes[p], e).0], a.log + VotesOf(p, Handle(a.nodes[p], e).1))
  }

  /** A faulty voter may sign any vote; an honest node may get any proposal and, with its voter's
      stake, any vote that was signed. */
  lemma {:induction false} AnythingMayHappen(cfg: Config, a: Net, v: SentVote, p: AccountId, height: nat, round: nat,
                                             h: Hash, vr: Option<nat>)
    ensures v.voter !in cfg.honest ==> Next(cfg, a, Net(a.nodes, a.log + [v]))
    ensures p in cfg.honest && p in a.nodes ==> Next(cfg, a, Stepped(a, p, ProposalEvent(height, round, h, vr)))
    ensures p in cfg.honest && p in a.nodes && v in a.log ==>
      var stake := StakeAt(cfg.validators, v.voter);
      Next(cfg, a, Stepped(a, p, if v.kind == PrevoteKind then PrevoteEvent(cfg.height, v.round, v.hash, v.voter, stake)
                                 else PrecommitEvent(cfg.height, v.round, v.hash, v.voter, stake)))
  {
    if v.voter !in cfg.honest { assert FaultyStep(cfg, a, Net(a.nodes, a.log + [v]), v); }
    if p in cfg.honest && p in a.nodes {
      var e := ProposalEvent(height, round, h, vr);
      assert NodeStep(cfg, a, Stepped(a, p, e), p, e);
      if v in a.log {
        var stake := StakeAt(cfg.validators, v.voter);
        var vote := if v.kind == PrevoteKind then PrevoteEvent(cfg.height, v.round, v.hash, v.voter, stake)
                    else PrecommitEvent(cfg.height, v.round, v.hash, v.voter, stake);
        assert NodeStep(cfg, a, Stepped(a, p, vote), p, vote);
      }
    }
  }

  // ----- one node after the other -----

  predicate IsMessage(e: Event) {
    e.ProposalEvent? || e.PrevoteEvent? || e.PrecommitEvent?
  }

  ghost predicate Deliverable(cfg: Config, log: seq<SentVote>, es: seq<Event>) {
    forall i :: 0 <= i < |es| ==> IsMessage(es[i]) && Authentic(cfg, log, es[i])
  }

  ghost predicate Ends(cfg: Config, run: seq<Net>, a: Net) {
    IsRun(cfg, run) && run[|run| - 1] == a
  }

  lemma {:induction false} VotesAppend(p: AccountId, x: seq<Action>, y: seq<Action>)
    ensures VotesOf(p, x + y) == VotesOf(p, x) + VotesOf(p, y)
    decreases |y|
  {
    if y == [] {
      assert x + y == x && VotesOf(p, x) + [] == VotesOf(p, x);
    } else {
      VotesAppend(p, x, y[..|y| - 1]);
      assert (x + y)[..|x + y| - 1] == x + y[..|y| - 1];
    }
  }

  /** A node that is in state `s` and has sent `before` takes one more message. */
  lemma {:induction false} TookOne(cfg: Config, a: Net, p: AccountId, e: Event, s: Node, before: seq<Action>, t: Node,
                                   now: seq<Action>)
    requires p in cfg.honest && p in a.nodes && IsMessage(e) && Authentic(cfg, a.log, e) && Handle(s, e) == (t, now)
    ensures Next(cfg, Net(a.nodes[p := s], a.log + VotesOf(p, before)),
                 Net(a.nodes[p := t], a.log + VotesOf(p, before + now)))
  {
    var b := Net(a.nodes[p := s], a.log + VotesOf(p, before));
    var c := Net(a.nodes[p := t], a.log + VotesOf(p, before + now));
    VotesAppend(p, before, now);
    assert c.log == b.log + VotesOf(p, now);
    assert c.nodes == b.nodes[p := t];
    AuthenticStays(cfg, a.log, b.log, e);
    StepOf(cfg, b, c, p, e, t, now);
  }

  lemma {:induction false} AuthenticStays(cfg: Config, log: seq<SentVote>, more: seq<SentVote>, e: Event)
    requires IsMessage(e) && Authentic(cfg, log, e) && forall v :: v in log ==> v in more
    ensures Authentic(cfg, more, e)
  {
  }

  lemma {:induction false} StepOf(cfg: Config, b: Net, c: Net, p: AccountId, e: Event, t: Node, now: seq<Action>)
    requires p in cfg.honest && p in b.nodes && IsMessage(e) && Authentic(cfg, b.log, e)
    requires Handle(b.nodes[p], e) == (t, now) && c == Net(b.nodes[p := t], b.log + VotesOf(p, now))
    ensures Next(cfg, b, c)
  {
    assert NodeStep(cfg, b, c, p, e);
  }

  lemma {:induction false} Extended(cfg: Config, run: seq<Net>, a: Net, b: Net)
    requires Ends(cfg, run, a) && Next(cfg, a, b)
    ensures Ends(cfg, run + [b], b)
  {
  }

  lemma {:induction false} NodeTakes(cfg: Config, run: seq<Net>, a: Net, p: AccountId, es: seq<Event>, s: Node,
                                     actions: seq<Action>)
    returns (longer: seq<Net>)
    requires Ends(cfg, run, a) && p in cfg.honest && p in a.nodes && Deliverable(cfg, a.log, es)
    requires Run(a.nodes[p], es) == (s, actions)
    ensures Ends(cfg, longer, Net(a.nodes[p := s], a.log + VotesOf(p, actions)))
    decreases |es|
  {
    if es == [] {
      assert a.nodes[p := a.nodes[p]] == a.nodes && a.log + [] == a.log;
      longer := run;
    } else {
      var n := |es| - 1;
      var (t, before) := Run(a.nodes[p], es[..n]);
      var (u, now) := Handle(t, es[n]);
      longer := NodeTakes(cfg, run, a, p, es[..n], t, before);
      TookOne(cfg, a, p, es[n], t, before, u, now);
      Extended(cfg, longer, Net(a.nodes[p := t], a.log + VotesOf(p, before)),
               Net(a.nodes[p := u], a.log + VotesOf(p, before + now)));
      longer := longer + [Net(a.nodes[p := u], a.log + VotesOf(p, before + now))];
    }
  }

  /** The nodes `ps` have come to state `t` and sent the votes of `actions`. */
  ghost predicate AllTook(a: Net, b: Net, ps: seq<AccountId>, t: Node, actions: seq<Action>) {
    && b.nodes.Keys == a.nodes.Keys
    && (forall q :: q in a.nodes ==> b.nodes[q] == if q in ps then t else a.nodes[q])
    && (forall v :: v in a.log ==> v in b.log)
    && (forall q, v :: q in ps && v in VotesOf(q, actions) ==> v in b.log)
  }

  lemma {:induction false} AllTake(cfg: Config, run: seq<Net>, a: Net, ps: seq<AccountId>, s: Node, es: seq<Event>,
                                   t: Node, actions: seq<Action>) returns (longer: seq<Net>, b: Net)
    requires Ends(cfg, run, a) && Deliverable(cfg, a.log, es) && Run(s, es) == (t, actions)
    requires forall i, j :: 0 <= i < j < |ps| ==> ps[i] != ps[j]
    requires forall i :: 0 <= i < |ps| ==> ps[i] in cfg.honest && ps[i] in a.nodes && a.nodes[ps[i]] == s
    ensures Ends(cfg, longer, b) && AllTook(a, b, ps, t, actions)
    decreases |ps|
  {
    if ps == [] {
      longer, b := run, a;
    } else {
      var rest, p := ps[..|ps| - 1], ps[|ps| - 1];
      var c;
      longer, c := AllTake(cfg, run, a, rest, s, es, t, actions);
      longer, b := NextTakes(cfg, longer, a, c, rest, p, s, es, t, actions);
      assert rest + [p] == ps;
    }
  }

  lemma {:induction false} NextTakes(cfg: Config, run: seq<Net>, a: Net, c: Net, rest: seq<AccountId>, p: AccountId,
                                     s: Node, es: seq<Event>, t: Node, actions: seq<Action>)
    returns (longer: seq<Net>, b: Net)
    requires Ends(cfg, run, c) && Deliverable(cfg, a.log, es) && Run(s, es) == (t, actions)
    requires AllTook(a, c, rest, t, actions) && p !in rest && p in cfg.honest && p in a.nodes && a.nodes[p] == s
    ensures Ends(cfg, longer, b) && AllTook(a, b, rest + [p], t, actions)
  {
    StillDeliverable(cfg, a.log, c.log, es);
    longer := NodeTakes(cfg, run, c, p, es, t, actions);
    b := Net(c.nodes[p := t], c.log + VotesOf(p, actions));
    AllTookNext(a, c, b, rest, p, t, actions);
  }

  lemma {:induction false} AllTookNext(a: Net, c: Net, b: Net, rest: seq<AccountId>, p: AccountId, t: Node,
                                       actions: seq<Action>)
    requires AllTook(a, c, rest, t, actions) && p in a.nodes
    requires b == Net(c.nodes[p := t], c.log + VotesOf(p, actions))
    ensures AllTook(a, b, rest + [p], t, actions)
  {
  }

  lemma {:induction false} StillDeliverable(cfg: Config, log: seq<SentVote>, more: seq<SentVote>, es: seq<Event>)
    requires Deliverable(cfg, log, es) && forall v :: v in log ==> v in more
    ensures Deliverable(cfg, more, es)
  {
    forall i | 0 <= i < |es|
      ensures Authentic(cfg, more, es[i])
    {
      AuthenticStays(cfg, log, more, es[i]);
    }
  }

  // ----- a run that decides -----

  /** The honest validators. */
  function HonestOf(vals: seq<Validator>, honest: set<AccountId>): (vs: seq<Validator>)
    ensures forall v :: v in vs ==> v in vals && v.id in honest
  {
    if vals == [] then []
    else
      var n := |vals| - 1;
      HonestOf(vals[..n], honest) + if vals[n].id in honest then [vals[n]] else []
  }

  lemma {:induction false} HonestDistinct(vals: seq<Validator>, honest: set<AccountId>)
    requires DistinctIds(vals)
    ensures DistinctIds(HonestOf(vals, honest))
    decreases |vals|
  {
    if vals != [] {
      var n := |vals| - 1;
      HonestDistinct(vals[..n], honest);
      var rest := HonestOf(vals[..n], honest);
      forall i | 0 <= i < |rest|
        ensures rest[i].id != vals[n].id
      {
        assert rest[i] in vals[..n];
      }
    }
  }

  lemma {:induction false} StakeLast(vals: seq<Validator>, s: set<AccountId>)
    requires vals != []
    ensures var n := |vals| - 1;
      StakeOf(vals, s) == StakeOf(vals[..n], s) + if vals[n].id in s then vals[n].stake else 0
    decreases |vals|
  {
    if |vals| > 1 {
      StakeLast(vals[1..], s);
      assert vals[1..][..|vals| - 2] == vals[..|vals| - 1][1..];
    }
  }

  lemma {:induction false} HonestWeight(vals: seq<Validator>, honest: set<AccountId>)
    ensures Weight(HonestOf(vals, honest)) == StakeOf(vals, honest)
    decreases |vals|
  {
    if vals != [] {
      var n := |vals| - 1;
      HonestWeight(vals[..n], honest);
      StakeLast(vals, honest);
      var rest := HonestOf(vals[..n], honest);
      assert (rest + [vals[n]])[..|rest|] == rest && rest + [] == rest;
    }
  }

  lemma {:induction false} StakeAtMember(vals: seq<Validator>, i: nat)
    requires DistinctIds(vals) && i < |vals|
    ensures StakeAt(vals, vals[i].id) == vals[i].stake
    decreases |vals|
  {
    if i > 0 {
      assert vals[0].id != vals[i].id && vals[1..][i - 1] == vals[i];
      StakeAtMember(vals[1..], i - 1);
    }
  }

  /** The honest validators can be told of each other's votes once these are in the log. */
  lemma {:induction false} VotesDeliverable(cfg: Config, log: seq<SentVote>, s: Node, h: Hash, vs: seq<Validator>)
    requires DistinctIds(cfg.validators) && vs == HonestOf(cfg.validators, cfg.honest)
    ensures (forall i :: 0 <= i < |vs| ==> SentVote(PrevoteKind, s.round, h, vs[i].id) in log) ==>
      Deliverable(cfg, log, Prevotes(s, h, vs))
    ensures (forall i :: 0 <= i < |vs| ==> SentVote(PrecommitKind, s.round, h, vs[i].id) in log) ==>
      Deliverable(cfg, log, Precommits(s, h, vs))
  {
    forall i | 0 <= i < |vs|
      ensures vs[i].stake == StakeAt(cfg.validators, vs[i].id)
    {
      assert vs[i] in cfg.validators;
      var j :| 0 <= j < |cfg.validators| && cfg.validators[j] == vs[i];
      StakeAtMember(cfg.validators, j);
    }
  }

  function Start(cfg: Config): Net {
    Net(map p | p in cfg.honest :: NewNode(cfg.height, Total(cfg.validators)), [])
  }

  /** One stage: every honest node takes the same messages and sends its vote. */
  lemma {:induction false} Stage(cfg: Config, run: seq<Net>, a: Net, s: Node, es: seq<Event>, t: Node,
                                 actions: seq<Action>) returns (longer: seq<Net>, b: Net)
    requires Ends(cfg, run, a) && a.nodes.Keys == cfg.honest && Deliverable(cfg, a.log, es)
    requires (forall p :: p in cfg.honest ==> a.nodes[p] == s) && Run(s, es) == (t, actions)
    ensures Ends(cfg, longer, b) && b.nodes.Keys == cfg.honest && forall p :: p in cfg.honest ==> b.nodes[p] == t
    ensures forall v :: v in a.log ==> v in b.log
    ensures forall p, v :: p in cfg.honest && v in VotesOf(p, actions) ==> v in b.log
  {
    longer, b := AllTake(cfg, run, a, Ascending(cfg.honest), s, es, t, actions);
  }

  /** Whatever the block, there is a run in which every honest node decides it. */
  lemma {:induction false} DecisionReachable(cfg: Config, h: Hash) returns (run: seq<Net>)
    requires ValidConfig(cfg) && h != NIL
    ensures IsRun(cfg, run)
    ensures forall p :: p in cfg.honest ==>
      p in run[|run| - 1].nodes && run[|run| - 1].nodes[p].committedHash == Some(h)
  {
    var vs := HonestOf(cfg.validators, cfg.honest);
    HonestDistinct(cfg.validators, cfg.honest);
    HonestWeight(cfg.validators, cfg.honest);
    StakeOfTotal(cfg.validators, cfg.honest);
    var s := NewNode(cfg.height, Total(cfg.validators));
    assert HasQuorum(Weight(vs), s.totalStake);
    var first := [ProposalEvent(cfg.height, 0, h, None)];
    ProposalRun(s, h, None);
    var (s1, a1) := Run(s, first);
    PrevotesRun(s1, h, vs);
    var (s2, a2) := Run(s1, Prevotes(s1, h, vs));
    PrecommitsRun(s2, h, vs);
    var (s3, a3) := Run(s2, Precommits(s2, h, vs));
    run := ThreeStages(cfg, h, vs, Start(cfg), first, s, s1, s2, s3, a3);
  }

  lemma {:induction false} ThreeStages(cfg: Config, h: Hash, vs: seq<Validator>, start: Net, first: seq<Event>, s: Node,
                                       s1: Node, s2: Node, s3: Node, a3: seq<Action>) returns (run: seq<Net>)
    requires DistinctIds(cfg.validators) && vs == HonestOf(cfg.validators, cfg.honest)
    requires Init(cfg, start) && forall p :: p in cfg.honest ==> start.nodes[p] == s
    requires Deliverable(cfg, start.log, first) && s1.round == s2.round == 0
    requires Run(s, first) == (s1, [BroadcastPrevote(cfg.height, 0, h)])
    requires Run(s1, Prevotes(s1, h, vs)) == (s2, [BroadcastPrecommit(cfg.height, 0, h)])
    requires Run(s2, Precommits(s2, h, vs)) == (s3, a3)
    ensures IsRun(cfg, run)
    ensures forall p :: p in cfg.honest ==> p in run[|run| - 1].nodes && run[|run| - 1].nodes[p] == s3
  {
    var b, vote1, vote2 := start, BroadcastPrevote(cfg.height, 0, h), BroadcastPrecommit(cfg.height, 0, h);
    run, b := VotingStage(cfg, [b], b, s, first, s1, vote1, h, vs);
    run, b := VotingStage(cfg, run, b, s1, Prevotes(s1, h, vs), s2, vote2, h, vs);
    run, b := Stage(cfg, run, b, s2, Precommits(s2, h, vs), s3, a3);
  }

  /** A stage in which every honest node sends one vote, after which these can be delivered. */
  lemma {:induction false} VotingStage(cfg: Config, run: seq<Net>, a: Net, s: Node, es: seq<Event>, t: Node,
                                       vote: Action, h: Hash, vs: seq<Validator>) returns (longer: seq<Net>, b: Net)
    requires DistinctIds(cfg.validators) && vs == HonestOf(cfg.validators, cfg.honest)
    requires Ends(cfg, run, a) && a.nodes.Keys == cfg.honest && Deliverable(cfg, a.log, es)
    requires (forall p :: p in cfg.honest ==> a.nodes[p] == s) && Run(s, es) == (t, [vote])
    requires vote == BroadcastPrevote(cfg.height, t.round, h) || vote == BroadcastPrecommit(cfg.height, t.round, h)
    ensures Ends(cfg, longer, b) && b.nodes.Keys == cfg.honest && forall p :: p in cfg.honest ==> b.nodes[p] == t
    ensures Deliverable(cfg, b.log, if vote.BroadcastPrevote? then Prevotes(t, h, vs) else Precommits(t, h, vs))
  {
    longer, b := Stage(cfg, run, a, s, es, t, [vote]);
    forall i | 0 <= i < |vs|
      ensures SentVote(if vote.BroadcastPrevote? then PrevoteKind else PrecommitKind, t.round, h, vs[i].id) in b.log
    {
      OneVote(vs[i].id, vote);
      assert vs[i] in vs;
    }
    VotesDeliverable(cfg, b.log, t, h, vs);
  }

  lemma {:induction false} OneVote(p: AccountId, a: Action)
    ensures VotesOf(p, [a]) == VoteOf(p, a)
  {
    assert [a][..0] == [];
  }
}
