/** Fair ordering of a block's transactions: whole per-identity lanes in a permuted order. */
module FairOrders {
  import opened Basics
  import opened OrderedSets

  datatype Transaction = Transaction(identity: AccountId, hash: Hash)

  type Lane = (AccountId, seq<Transaction>)
  type LaneHashes = (AccountId, seq<Hash>)

  /** The transactions of one identity, in order. */
  function LaneOf(txs: seq<Transaction>, id: AccountId): seq<Transaction> {
    if txs == [] then []
    else
      var n := |txs| - 1;
      LaneOf(txs[..n], id) + if txs[n].identity == id then [txs[n]] else []
  }

  function Identities(txs: seq<Transaction>): set<AccountId> {
    set i | 0 <= i < |txs| :: txs[i].identity
  }

  /** The lanes by ascending identity. */
  function Lanes(txs: seq<Transaction>): (lanes: seq<Lane>)
    ensures |lanes| == |Ascending(Identities(txs))|
  {
    var ids := Ascending(Identities(txs));
    seq(|ids|, i requires 0 <= i < |ids| => (ids[i], LaneOf(txs, ids[i])))
  }

  function Hashes(lane: seq<Transaction>): seq<Hash> {
    seq(|lane|, i requires 0 <= i < |lane| => lane[i].hash)
  }

  /** What the seed is computed from, beside the parent hash and the slot. */
  function SeedInput(lanes: seq<Lane>): seq<LaneHashes> {
    seq(|lanes|, i requires 0 <= i < |lanes| => (lanes[i].0, Hashes(lanes[i].1)))
  }

  /** The shuffle for one parent hash and slot: the hash of the lanes picks a permutation. */
  type Shuffle = seq<LaneHashes> -> seq<nat>

  ghost predicate IsPermutation(sigma: seq<nat>, n: nat) {
    && (forall k :: 0 <= k < |sigma| ==> sigma[k] < n)
    && (forall j, k :: 0 <= j < k < |sigma| ==> sigma[j] != sigma[k])
    && (forall i :: 0 <= i < n ==> i in sigma)
  }

  ghost predicate Permutes(shuffle: Shuffle) {
    forall input :: IsPermutation(shuffle(input), |input|)
  }

  /** The lanes one after the other in the order `sigma`. */
  function Arrange(lanes: seq<Lane>, sigma: seq<nat>): seq<Transaction>
    requires forall k :: 0 <= k < |sigma| ==> sigma[k] < |lanes|
  {
    if sigma == [] then []
    else
      var n := |sigma| - 1;
      Arrange(lanes, sigma[..n]) + lanes[sigma[n]].1
  }

  ghost function Fair(shuffle: Shuffle, txs: seq<Transaction>): seq<Transaction>
    requires Permutes(shuffle)
  {
    if |txs| < 2 then txs
    else
      assert IsPermutation(shuffle(SeedInput(Lanes(txs))), |Lanes(txs)|);
      Arrange(Lanes(txs), shuffle(SeedInput(Lanes(txs))))
  }

  ghost predicate IsFairOrdered(shuffle: Shuffle, txs: seq<Transaction>)
    requires Permutes(shuffle)
  {
    |txs| < 2 || Hashes(txs) == Hashes(Fair(shuffle, txs))
  }

  // ----- lanes -----

  lemma {:induction false} LaneAppend(x: seq<Transaction>, y: seq<Transaction>, id: AccountId)
    ensures LaneOf(x + y, id) == LaneOf(x, id) + LaneOf(y, id)
    decreases |y|
  {
    if y == [] {
      assert x + y == x && LaneOf(x, id) + [] == LaneOf(x, id);
    } else {
      var n := |y| - 1;
      LaneAppend(x, y[..n], id);
      assert (x + y)[..|x + y| - 1] == x + y[..n];
    }
  }

  lemma {:induction false} LaneOfLane(txs: seq<Transaction>, a: AccountId, id: AccountId)
    ensures LaneOf(LaneOf(txs, a), id) == if a == id then LaneOf(txs, id) else []
    decreases |txs|
  {
    if txs != [] {
      var n := |txs| - 1;
      LaneOfLane(txs[..n], a, id);
      var last := if txs[n].identity == a then [txs[n]] else [];
      LaneAppend(LaneOf(txs[..n], a), last, id);
    }
  }

  lemma {:induction false} LaneEmpty(txs: seq<Transaction>, id: AccountId)
    ensures LaneOf(txs, id) == [] <==> id !in Identities(txs)
    decreases |txs|
  {
    if txs != [] {
      var n := |txs| - 1;
      LaneEmpty(txs[..n], id);
      assert Identities(txs) == Identities(txs[..n]) + {txs[n].identity};
    }
  }

  /** How often a transaction occurs is how often it occurs in its lane. */
  lemma {:induction false} LaneCounts(txs: seq<Transaction>, t: Transaction)
    ensures multiset(txs)[t] == multiset(LaneOf(txs, t.identity))[t]
    decreases |txs|
  {
    if txs != [] {
      var n := |txs| - 1;
      LaneCounts(txs[..n], t);
      assert txs == txs[..n] + [txs[n]];
    }
  }

  ghost predicate SameLanes(x: seq<Transaction>, y: seq<Transaction>) {
    forall id :: LaneOf(x, id) == LaneOf(y, id)
  }

  lemma {:induction false} SameLanesSameTransactions(x: seq<Transaction>, y: seq<Transaction>)
    requires SameLanes(x, y)
    ensures multiset(x) == multiset(y) && |x| == |y|
  {
    forall t: Transaction
      ensures multiset(x)[t] == multiset(y)[t]
    {
      LaneCounts(x, t);
      LaneCounts(y, t);
    }
    assert |multiset(x)| == |x| && |multiset(y)| == |y|;
  }

  lemma {:induction false} SameLanesSameList(x: seq<Transaction>, y: seq<Transaction>)
    requires SameLanes(x, y)
    ensures Lanes(x) == Lanes(y)
  {
    forall id
      ensures id in Identities(x) <==> id in Identities(y)
    {
      LaneEmpty(x, id);
      LaneEmpty(y, id);
    }
    assert Identities(x) == Identities(y);
  }

  // ----- the fair order -----

  ghost predicate LanesOf(lanes: seq<Lane>, txs: seq<Transaction>) {
    && (forall i :: 0 <= i < |lanes| ==> lanes[i].1 == LaneOf(txs, lanes[i].0))
    && (forall i, j :: 0 <= i < j < |lanes| ==> lanes[i].0 != lanes[j].0)
  }

  ghost predicate Indices(sigma: seq<nat>, n: nat) {
    && (forall k :: 0 <= k < |sigma| ==> sigma[k] < n)
    && (forall j, k :: 0 <= j < k < |sigma| ==> sigma[j] != sigma[k])
  }

  lemma {:induction false} ArrangeMisses(lanes: seq<Lane>, txs: seq<Transaction>, sigma: seq<nat>, id: AccountId)
    requires LanesOf(lanes, txs) && Indices(sigma, |lanes|) && forall k :: 0 <= k < |sigma| ==> lanes[sigma[k]].0 != id
    ensures LaneOf(Arrange(lanes, sigma), id) == []
    decreases |sigma|
  {
    if sigma != [] {
      var n := |sigma| - 1;
      ArrangeMisses(lanes, txs, sigma[..n], id);
      LaneAppend(Arrange(lanes, sigma[..n]), lanes[sigma[n]].1, id);
      LaneOfLane(txs, lanes[sigma[n]].0, id);
    }
  }

  lemma {:induction false} ArrangeHits(lanes: seq<Lane>, txs: seq<Transaction>, sigma: seq<nat>, k: nat, id: AccountId)
    requires LanesOf(lanes, txs) && Indices(sigma, |lanes|) && k < |sigma| && lanes[sigma[k]].0 == id
    ensures LaneOf(Arrange(lanes, sigma), id) == LaneOf(txs, id)
    decreases |sigma|
  {
    var n := |sigma| - 1;
    ArrangeLast(lanes, txs, sigma, id);
    if k < n {
      ArrangeHits(lanes, txs, sigma[..n], k, id);
      assert sigma[k] != sigma[n];
      assert lanes[sigma[n]].0 != id;
      assert LaneOf(txs, id) + [] == LaneOf(txs, id);
    } else {
      OthersDiffer(lanes, txs, sigma, id);
      ArrangeMisses(lanes, txs, sigma[..n], id);
    }
  }

  /** What the last lane adds to the lane of `id`. */
  lemma {:induction false} ArrangeLast(lanes: seq<Lane>, txs: seq<Transaction>, sigma: seq<nat>, id: AccountId)
    requires LanesOf(lanes, txs) && Indices(sigma, |lanes|) && sigma != []
    ensures Indices(sigma[..|sigma| - 1], |lanes|)
    ensures LaneOf(Arrange(lanes, sigma), id) == LaneOf(Arrange(lanes, sigma[..|sigma| - 1]), id)
      + if lanes[sigma[|sigma| - 1]].0 == id then LaneOf(txs, id) else []
  {
    var n := |sigma| - 1;
    LaneAppend(Arrange(lanes, sigma[..n]), lanes[sigma[n]].1, id);
    LaneOfLane(txs, lanes[sigma[n]].0, id);
  }

  lemma {:induction false} OthersDiffer(lanes: seq<Lane>, txs: seq<Transaction>, sigma: seq<nat>, id: AccountId)
    requires LanesOf(lanes, txs) && Indices(sigma, |lanes|) && sigma != [] && lanes[sigma[|sigma| - 1]].0 == id
    ensures forall k :: 0 <= k < |sigma| - 1 ==> lanes[sigma[k]].0 != id
  {
    forall k | 0 <= k < |sigma| - 1
      ensures lanes[sigma[k]].0 != id
    {
      assert sigma[k] != sigma[|sigma| - 1];
    }
  }

  lemma {:induction false} ArrangeKeepsLane(txs: seq<Transaction>, sigma: seq<nat>, id: AccountId)
    requires IsPermutation(sigma, |Lanes(txs)|)
    ensures LaneOf(Arrange(Lanes(txs), sigma), id) == LaneOf(txs, id)
  {
    LaneEmpty(txs, id);
    var lanes := Lanes(txs);
    assert LanesOf(lanes, txs) && Indices(sigma, |lanes|);
    if id in Identities(txs) {
      var ids := Ascending(Identities(txs));
      var i :| 0 <= i < |ids| && ids[i] == id;
      assert i in sigma;
      var k :| 0 <= k < |sigma| && sigma[k] == i;
      ArrangeHits(lanes, txs, sigma, k, id);
    } else {
      LaneAbsent(txs, sigma, id);
      ArrangeMisses(lanes, txs, sigma, id);
    }
  }

  lemma {:induction false} LaneAbsent(txs: seq<Transaction>, sigma: seq<nat>, id: AccountId)
    requires Indices(sigma, |Lanes(txs)|) && id !in Identities(txs)
    ensures forall k :: 0 <= k < |sigma| ==> Lanes(txs)[sigma[k]].0 != id
  {
    var ids := Ascending(Identities(txs));
    assert forall i :: 0 <= i < |ids| ==> ids[i] in ids;
  }

  /** Each identity's own order is kept. */
  lemma {:induction false} FairKeepsLanes(shuffle: Shuffle, txs: seq<Transaction>)
    requires Permutes(shuffle)
    ensures SameLanes(Fair(shuffle, txs), txs)
  {
    if |txs| >= 2 {
      var sigma := shuffle(SeedInput(Lanes(txs)));
      assert IsPermutation(sigma, |Lanes(txs)|);
      forall id
        ensures LaneOf(Fair(shuffle, txs), id) == LaneOf(txs, id)
      {
        ArrangeKeepsLane(txs, sigma, id);
      }
    }
  }

  /** Nothing is lost, added or repeated. */
  lemma {:induction false} FairIsPermutation(shuffle: Shuffle, txs: seq<Transaction>)
    requires Permutes(shuffle)
    ensures multiset(Fair(shuffle, txs)) == multiset(txs)
  {
    FairKeepsLanes(shuffle, txs);
    SameLanesSameTransactions(Fair(shuffle, txs), txs);
  }

  /** How the proposer interleaved the identities does not matter. */
  lemma {:induction false} FairIgnoresInterleaving(shuffle: Shuffle, x: seq<Transaction>, y: seq<Transaction>)
    requires Permutes(shuffle) && SameLanes(x, y)
    ensures Fair(shuffle, x) == Fair(shuffle, y)
  {
    SameLanesSameTransactions(x, y);
    SameLanesSameList(x, y);
    if |x| < 2 { OnlyOne(x, y); }
  }

  lemma {:induction false} OnlyOne(x: seq<Transaction>, y: seq<Transaction>)
    requires |x| == |y| < 2 && multiset(x) == multiset(y)
    ensures x == y
  {
    if |x| == 1 { assert x[0] in multiset(x) && x[0] in multiset(y); }
  }

  /** Ordering again changes nothing, so a fairly ordered block is always accepted. */
  lemma {:induction false} FairIsStable(shuffle: Shuffle, txs: seq<Transaction>)
    requires Permutes(shuffle)
    ensures Fair(shuffle, Fair(shuffle, txs)) == Fair(shuffle, txs)
    ensures IsFairOrdered(shuffle, Fair(shuffle, txs))
  {
    FairKeepsLanes(shuffle, txs);
    FairIgnoresInterleaving(shuffle, Fair(shuffle, txs), txs);
  }

  /** And only one order is: a proposer who includes the same lanes has no choice left. */
  lemma {:induction false} FairLeavesNoChoice(shuffle: Shuffle, x: seq<Transaction>, y: seq<Transaction>)
    requires Permutes(shuffle) && SameLanes(x, y) && IsFairOrdered(shuffle, x)
    ensures IsFairOrdered(shuffle, y) <==> Hashes(x) == Hashes(y)
  {
    FairIgnoresInterleaving(shuffle, x, y);
    SameLanesSameTransactions(x, y);
    if |x| < 2 { OnlyOne(x, y); }
  }

  /** The lanes of `ids` one after the other, chosen by place. */
  function InTurn(txs: seq<Transaction>, ids: seq<AccountId>, sigma: seq<nat>): seq<Transaction>
    requires forall k :: 0 <= k < |sigma| ==> sigma[k] < |ids|
  {
    if sigma == [] then [] else LaneOf(txs, ids[sigma[0]]) + InTurn(txs, ids, sigma[1..])
  }

  lemma {:induction false} InTurnLast(txs: seq<Transaction>, ids: seq<AccountId>, sigma: seq<nat>)
    requires sigma != [] && forall k :: 0 <= k < |sigma| ==> sigma[k] < |ids|
    ensures var n := |sigma| - 1;
      InTurn(txs, ids, sigma) == InTurn(txs, ids, sigma[..n]) + LaneOf(txs, ids[sigma[n]])
    decreases |sigma|
  {
    var n := |sigma| - 1;
    if n == 0 {
      assert InTurn(txs, ids, sigma[1..]) == [] && InTurn(txs, ids, sigma[..0]) == [];
    } else {
      var first, last := LaneOf(txs, ids[sigma[0]]), LaneOf(txs, ids[sigma[n]]);
      InTurnLast(txs, ids, sigma[1..]);
      var inner := sigma[1..n];
      assert sigma[1..][..n - 1] == inner == sigma[..n][1..];
      assert first + (InTurn(txs, ids, inner) + last) == first + InTurn(txs, ids, inner) + last;
    }
  }

  lemma {:induction false} ArrangeInTurn(txs: seq<Transaction>, ids: seq<AccountId>, lanes: seq<Lane>, sigma: seq<nat>)
    requires |lanes| == |ids| && forall i :: 0 <= i < |ids| ==> lanes[i].1 == LaneOf(txs, ids[i])
    requires forall k :: 0 <= k < |sigma| ==> sigma[k] < |ids|
    ensures Arrange(lanes, sigma) == InTurn(txs, ids, sigma)
    decreases |sigma|
  {
    if sigma != [] {
      ArrangeInTurn(txs, ids, lanes, sigma[..|sigma| - 1]);
      InTurnLast(txs, ids, sigma);
    }
  }

  /** A block of two or more is laid out as the shuffle of its lanes says: `ids` are its identities in
      ascending order, `input` gives each with the hashes of its transactions in their order. */
  lemma {:induction false} FairLayout(shuffle: Shuffle, txs: seq<Transaction>, ids: seq<AccountId>,
                                      input: seq<LaneHashes>)
    requires Permutes(shuffle) && |txs| >= 2
    requires forall i, j :: 0 <= i < j < |ids| ==> ids[i] < ids[j]
    requires forall id :: id in ids <==> id in Identities(txs)
    requires |input| == |ids| && forall i :: 0 <= i < |ids| ==> input[i].0 == ids[i]
    requires forall i :: 0 <= i < |ids| ==> |input[i].1| == |LaneOf(txs, ids[i])|
    requires forall i, j :: 0 <= i < |ids| && 0 <= j < |input[i].1| ==> input[i].1[j] == LaneOf(txs, ids[i])[j].hash
    ensures IsPermutation(shuffle(input), |ids|)
    ensures Fair(shuffle, txs) == InTurn(txs, ids, shuffle(input))
  {
    AscendingUnique(ids, Ascending(Identities(txs)));
    var given := SeedInput(Lanes(txs));
    forall i | 0 <= i < |ids|
      ensures given[i] == input[i]
    {
      assert given[i].1 == input[i].1;
    }
    assert given == input;
    assert IsPermutation(shuffle(input), |input|);
    ArrangeInTurn(txs, ids, Lanes(txs), shuffle(input));
  }

  // ----- in place -----

  function LaneMap(txs: seq<Transaction>): map<AccountId, seq<Transaction>> {
    map id | id in Identities(txs) :: LaneOf(txs, id)
  }

  lemma {:induction false} LaneMapGrows(txs: seq<Transaction>, t: Transaction)
    ensures var m := LaneMap(txs);
      LaneMap(txs + [t]) == m[t.identity := (if t.identity in m then m[t.identity] else []) + [t]]
  {
    var next, m := txs + [t], LaneMap(txs);
    var grown := m[t.identity := (if t.identity in m then m[t.identity] else []) + [t]];
    IdentitiesGrow(txs, t);
    assert next[..|txs|] == txs && next[|txs|] == t;
    assert LaneMap(next).Keys == grown.Keys;
    forall id | id in grown
      ensures LaneMap(next)[id] == grown[id]
    {
      LaneEmpty(txs, id);
      assert LaneOf(next, id) == LaneOf(txs, id) + if t.identity == id then [t] else [];
    }
  }

  lemma {:induction false} IdentitiesGrow(txs: seq<Transaction>, t: Transaction)
    ensures Identities(txs + [t]) == Identities(txs) + {t.identity}
  {
    assert forall i :: 0 <= i < |txs| ==> (txs + [t])[i] == txs[i];
    assert (txs + [t])[|txs|] == t;
  }

  method FairOrderTransactions(shuffle: Shuffle, txs: seq<Transaction>) returns (ordered: seq<Transaction>)
    requires Permutes(shuffle)
    ensures ordered == Fair(shuffle, txs)
  {
    if |txs| < 2 { return txs; }
    var lanes: map<AccountId, seq<Transaction>> := map[];
    for i := 0 to |txs|
      invariant lanes == LaneMap(txs[..i])
    {
      LaneMapGrows(txs[..i], txs[i]);
      assert txs[..i + 1] == txs[..i] + [txs[i]];
      var tx := txs[i];
      lanes := lanes[tx.identity := (if tx.identity in lanes then lanes[tx.identity] else []) + [tx]];
    }
    assert txs[..|txs|] == txs;
    var ids := Ascending(lanes.Keys);
    assert lanes.Keys == Identities(txs);
    var entries: seq<Lane> := seq(|ids|, i requires 0 <= i < |ids| => (ids[i], lanes[ids[i]]));
    assert entries == Lanes(txs);
    ordered := AppendLanes(shuffle(SeedInput(entries)), entries);
  }

  /** Empty the lanes into one list in the order `sigma`. */
  method AppendLanes(sigma: seq<nat>, lanes: seq<Lane>) returns (ordered: seq<Transaction>)
    requires IsPermutation(sigma, |lanes|)
    ensures ordered == Arrange(lanes, sigma)
  {
    var entries := lanes;
    ordered := [];
    for k := 0 to |sigma|
      invariant |entries| == |lanes| && ordered == Arrange(lanes, sigma[..k])
      invariant forall j :: k <= j < |sigma| ==> entries[sigma[j]] == lanes[sigma[j]]
    {
      var idx := sigma[k];
      ordered := ordered + entries[idx].1;
      entries := entries[idx := (entries[idx].0, [])];
      assert sigma[..k + 1][..k] == sigma[..k];
    }
    assert sigma[..|sigma|] == sigma;
  }
}
