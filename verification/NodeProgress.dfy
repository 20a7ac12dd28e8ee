/** A round in which the proposal and two thirds of the votes get through ends in a decision. */
module NodeProgress {
  import opened Basics
  import opened Stake
  import opened VoteCollection
  import opened TendermintSpec
  import opened NodeRuns

  function Weight(vs: seq<Validator>): nat {
    if vs == [] then 0 else Weight(vs[..|vs| - 1]) + vs[|vs| - 1].stake
  }

  function Ids(vs: seq<Validator>): set<AccountId> {
    set i | 0 <= i < |vs| :: vs[i].id
  }

  lemma {:induction false} IdsGrow(vs: seq<Validator>, v: Validator)
    requires DistinctIds(vs + [v])
    ensures Ids(vs + [v]) == Ids(vs) + {v.id} && v.id !in Ids(vs) && DistinctIds(vs)
  {
    var next := vs + [v];
    assert forall i :: 0 <= i < |vs| ==> next[i] == vs[i];
    assert next[|vs|] == v;
  }

  /** Exactly the voters `vs` have voted, all for `h`. */
  ghost predicate Unanimous(c: Collector, total: nat, h: Hash, vs: seq<Validator>) {
    && c.totalStake == total && c.firstHash.Keys == Ids(vs)
    && c.buckets.Keys == (if vs == [] then {} else {h})
    && (vs != [] ==> c.buckets[h].votedStake == Weight(vs))
  }

  lemma {:induction false} UnanimousGrows(c: Collector, total: nat, h: Hash, vs: seq<Validator>, v: Validator)
    requires Unanimous(c, total, h, vs) && DistinctIds(vs + [v])
    ensures Unanimous(AddRaw(c, v.id, h, v.stake), total, h, vs + [v])
  {
    IdsGrow(vs, v);
    assert (vs + [v])[..|vs|] == vs;
    assert v.id !in c.firstHash.Keys;
  }

  lemma {:induction false} UnanimousQuorum(c: Collector, total: nat, h: Hash, vs: seq<Validator>)
    requires Unanimous(c, total, h, vs)
    ensures QuorumHash(c) == if HasQuorum(Weight(vs), total) then Some(h) else None
  {
    if vs != [] && HasQuorum(Weight(vs), total) { assert BucketHasQuorum(c, h); }
  }

  lemma {:induction false} QuorumStays(vs: seq<Validator>, v: Validator, total: nat)
    requires HasQuorum(Weight(vs), total)
    ensures HasQuorum(Weight(vs + [v]), total)
  {
    assert (vs + [v])[..|vs|] == vs;
  }

  // ----- the events of a good round -----

  function Prevotes(s: Node, h: Hash, vs: seq<Validator>): (es: seq<Event>)
    ensures |es| == |vs|
  {
    seq(|vs|, i requires 0 <= i < |vs| => PrevoteEvent(s.height, s.round, h, vs[i].id, vs[i].stake))
  }

  function Precommits(s: Node, h: Hash, vs: seq<Validator>): (es: seq<Event>)
    ensures |es| == |vs|
  {
    seq(|vs|, i requires 0 <= i < |vs| => PrecommitEvent(s.height, s.round, h, vs[i].id, vs[i].stake))
  }

  lemma {:induction false} RunStep(s: Node, es: seq<Event>, e: Event, t: Node, actions: seq<Action>, u: Node,
                                   now: seq<Action>)
    requires Run(s, es) == (t, actions) && Handle(t, e) == (u, now)
    ensures Run(s, es + [e]) == (u, actions + now)
  {
    assert (es + [e])[..|es|] == es;
  }

  // ----- prevotes -----

  /** The node after its own prevote and the prevotes of `vs`. */
  ghost predicate AfterPrevotes(s: Node, t: Node, h: Hash, vs: seq<Validator>) {
    && t.height == s.height && t.round == s.round && t.totalStake == s.totalStake && t.precommits == s.precommits
    && t.committedHash == s.committedHash && Unanimous(t.prevotes, s.totalStake, h, vs)
    && if HasQuorum(Weight(vs), s.totalStake) then t.step == Precommit && t.lockedHash == Some(h)
       else t.step == Prevote && !t.precommitted
  }

  lemma {:induction false} PrevoteStep(s: Node, t: Node, h: Hash, vs: seq<Validator>, v: Validator, u: Node,
                                       now: seq<Action>)
    requires h != NIL && DistinctIds(vs + [v]) && AfterPrevotes(s, t, h, vs)
    requires Handle(t, PrevoteEvent(s.height, s.round, h, v.id, v.stake)) == (u, now)
    ensures AfterPrevotes(s, u, h, vs + [v])
    ensures (HasQuorum(Weight(vs), s.totalStake) ==> HasQuorum(Weight(vs + [v]), s.totalStake))
    ensures now == if HasQuorum(Weight(vs + [v]), s.totalStake) && !HasQuorum(Weight(vs), s.totalStake)
                   then [BroadcastPrecommit(s.height, s.round, h)] else []
  {
    UnanimousGrows(t.prevotes, s.totalStake, h, vs, v);
    UnanimousQuorum(AddRaw(t.prevotes, v.id, h, v.stake), s.totalStake, h, vs + [v]);
    if HasQuorum(Weight(vs), s.totalStake) { QuorumStays(vs, v, s.totalStake); }
  }

  lemma {:induction false} PrevotesRun(s: Node, h: Hash, vs: seq<Validator>)
    requires h != NIL && DistinctIds(vs) && AfterPrevotes(s, s, h, [])
    ensures var (t, actions) := Run(s, Prevotes(s, h, vs));
      && AfterPrevotes(s, t, h, vs)
      && actions == if HasQuorum(Weight(vs), s.totalStake) then [BroadcastPrecommit(s.height, s.round, h)] else []
    decreases |vs|
  {
    if vs != [] {
      var rest, v := vs[..|vs| - 1], vs[|vs| - 1];
      assert vs == rest + [v];
      IdsGrow(rest, v);
      PrevotesRun(s, h, rest);
      var e := PrevoteEvent(s.height, s.round, h, v.id, v.stake);
      var (t, actions) := Run(s, Prevotes(s, h, rest));
      var (u, now) := Handle(t, e);
      PrevoteStep(s, t, h, rest, v, u, now);
      RunStep(s, Prevotes(s, h, rest), e, t, actions, u, now);
      assert Prevotes(s, h, vs) == Prevotes(s, h, rest) + [e];
    }
  }

  // ----- precommits -----

  ghost predicate AfterPrecommits(s: Node, t: Node, h: Hash, vs: seq<Validator>) {
    && t.height == s.height && t.round == s.round && t.totalStake == s.totalStake && t.lockedHash == s.lockedHash
    && Unanimous(t.precommits, s.totalStake, h, vs)
    && if HasQuorum(Weight(vs), s.totalStake) then t.step == CommitWait && t.committedHash == Some(h)
       else t.step == s.step
  }

  lemma {:induction false} PrecommitStep(s: Node, t: Node, h: Hash, vs: seq<Validator>, v: Validator, u: Node,
                                         now: seq<Action>)
    requires h != NIL && DistinctIds(vs + [v]) && !Halted(s) && AfterPrecommits(s, t, h, vs)
    requires Handle(t, PrecommitEvent(s.height, s.round, h, v.id, v.stake)) == (u, now)
    ensures AfterPrecommits(s, u, h, vs + [v])
    ensures (HasQuorum(Weight(vs), s.totalStake) ==> HasQuorum(Weight(vs + [v]), s.totalStake))
    ensures now == if HasQuorum(Weight(vs + [v]), s.totalStake) && !HasQuorum(Weight(vs), s.totalStake)
                   then [Commit(s.height, s.round, h)] else []
  {
    UnanimousGrows(t.precommits, s.totalStake, h, vs, v);
    UnanimousQuorum(AddRaw(t.precommits, v.id, h, v.stake), s.totalStake, h, vs + [v]);
    if HasQuorum(Weight(vs), s.totalStake) { QuorumStays(vs, v, s.totalStake); }
  }

  lemma {:induction false} PrecommitsRun(s: Node, h: Hash, vs: seq<Validator>)
    requires h != NIL && DistinctIds(vs) && !Halted(s) && AfterPrecommits(s, s, h, [])
    ensures var (t, actions) := Run(s, Precommits(s, h, vs));
      && AfterPrecommits(s, t, h, vs)
      && actions == if HasQuorum(Weight(vs), s.totalStake) then [Commit(s.height, s.round, h)] else []
    decreases |vs|
  {
    if vs != [] {
      var rest, v := vs[..|vs| - 1], vs[|vs| - 1];
      assert vs == rest + [v];
      IdsGrow(rest, v);
      PrecommitsRun(s, h, rest);
      var e := PrecommitEvent(s.height, s.round, h, v.id, v.stake);
      var (t, actions) := Run(s, Precommits(s, h, rest));
      var (u, now) := Handle(t, e);
      PrecommitStep(s, t, h, rest, v, u, now);
      RunStep(s, Precommits(s, h, rest), e, t, actions, u, now);
      assert Precommits(s, h, vs) == Precommits(s, h, rest) + [e];
    }
  }

  // ----- the proposal -----

  /** The proposals a node votes for: its locked block; with no lock, any whose claimed valid
      round, if there is one, the node saw reach two thirds; with a lock on another block, one
      that the node saw reach two thirds in the round of the lock or a later one. */
  predicate Accepts(s: Node, h: Hash, vr: Option<nat>) {
    || s.lockedHash == Some(h)
    || (s.lockedHash.None? && (vr.None? || (vr.value, h) in s.pastQuorums))
    || (s.lockedHash.Some? && s.lockedRound.Some? && vr.Some? && s.lockedRound.value <= vr.value
        && (vr.value, h) in s.pastQuorums)
  }

  /** A node that waits for a proposal answers the first one of its height and round with one
      prevote, for the block if it accepts it and for nil otherwise, and waits for prevotes. */
  lemma {:induction false} ProposalAnswer(s: Node, h: Hash, vr: Option<nat>)
    requires s.step == Propose && Flags(s)
    ensures var (t, actions) := Handle(s, ProposalEvent(s.height, s.round, h, vr));
      && actions == [BroadcastPrevote(s.height, s.round, if Accepts(s, h, vr) then h else NIL)]
      && t == s.(step := Prevote, prevoted := true, proposalHash := Some(h), proposalReceived := true)
  {
  }

  // ----- the round -----

  /** A node that waits for a proposal it accepts, then gets it, two thirds of the prevotes
      and two thirds of the precommits for it, sends its prevote and its precommit and decides. */
  lemma {:induction false} GoodRoundDecides(s: Node, h: Hash, vr: Option<nat>, prevoters: seq<Validator>,
                                            precommitters: seq<Validator>)
    requires s.step == Propose && Flags(s) && h != NIL && Accepts(s, h, vr)
    requires s.prevotes == NewCollector(s.height, s.totalStake) && s.precommits == NewCollector(s.height, s.totalStake)
    requires DistinctIds(prevoters) && HasQuorum(Weight(prevoters), s.totalStake)
    requires DistinctIds(precommitters) && HasQuorum(Weight(precommitters), s.totalStake)
    ensures var (s1, a1) := Run(s, [ProposalEvent(s.height, s.round, h, vr)]);
      var (s2, a2) := Run(s1, Prevotes(s1, h, prevoters));
      var (t, a3) := Run(s2, Precommits(s2, h, precommitters));
      && t.round == s.round && t.step == CommitWait && t.committedHash == Some(h) && t.lockedHash == Some(h)
      && a1 + a2 + a3 == [BroadcastPrevote(s.height, s.round, h), BroadcastPrecommit(s.height, s.round, h),
                          Commit(s.height, s.round, h)]
  {
    ProposalRun(s, h, vr);
    var s1 := Run(s, [ProposalEvent(s.height, s.round, h, vr)]).0;
    PrevotesRun(s1, h, prevoters);
    PrecommitsRun(Run(s1, Prevotes(s1, h, prevoters)).0, h, precommitters);
  }

  lemma {:induction false} ProposalRun(s: Node, h: Hash, vr: Option<nat>)
    requires s.step == Propose && Flags(s) && Accepts(s, h, vr)
    requires s.prevotes == NewCollector(s.height, s.totalStake)
    ensures var (t, actions) := Run(s, [ProposalEvent(s.height, s.round, h, vr)]);
      && actions == [BroadcastPrevote(s.height, s.round, h)] && AfterPrevotes(s, t, h, [])
      && t.precommits == s.precommits
  {
    ProposalAnswer(s, h, vr);
    assert [ProposalEvent(s.height, s.round, h, vr)][..0] == [];
  }
}
