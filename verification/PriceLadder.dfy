/** Both price ladders of a market in one arena of reusable nodes. */
module PriceLadders {
  import opened Basics
  import Clob
  import opened CritBits
  import opened LadderArenas

  type Side = Clob.Side

  datatype Arena = Arena(nodes: Nodes, buyRoot: nat, sellRoot: nat, nextHandle: nat, freeHead: nat)

  function Root(a: Arena, s: Side): nat {
    if s == Clob.Buy then a.buyRoot else a.sellRoot
  }

  function SetRoot(a: Arena, s: Side, h: nat): Arena {
    if s == Clob.Buy then a.(buyRoot := h) else a.(sellRoot := h)
  }

  /** The trees by side; an absent one is empty. */
  type Trees = map<Side, Tree>

  function UsedBy(trees: Trees, s: Side): set<nat> {
    if s in trees then Handles(trees[s]) else {}
  }

  /** The prices of a ladder. */
  function Prices(trees: Trees, s: Side): set<nat> {
    if s in trees then Keys(trees[s]) else {}
  }

  ghost predicate TreeAt(a: Arena, trees: Trees, s: Side) {
    if s in trees then
      && trees[s].h == Root(a, s) && Holds(a.nodes, trees[s]) && Separate(trees[s]) && WellFormed(trees[s])
      && forall x :: x in Keys(trees[s]) ==> Fits(x)
    else Root(a, s) == 0
  }

  /** The free nodes, linked from the head. */
  ghost predicate FreeChain(nodes: Nodes, head: nat, free: seq<nat>)
    decreases |free|
  {
    if free == [] then head == 0
    else head == free[0] && head in nodes && nodes[head].FreeNode? && FreeChain(nodes, nodes[head].next, free[1..])
  }

  predicate InRange(s: set<nat>, limit: nat) {
    forall h :: h in s ==> 0 < h < limit
  }

  /** The free nodes are different nodes below `limit` that nobody uses. */
  ghost predicate FreeApart(free: seq<nat>, limit: nat, used: set<nat>) {
    && (forall i, j :: 0 <= i < j < |free| ==> free[i] != free[j])
    && (forall i :: 0 <= i < |free| ==> 0 < free[i] < limit && free[i] !in used)
  }

  function Used(trees: Trees): set<nat> {
    UsedBy(trees, Clob.Buy) + UsedBy(trees, Clob.Sell)
  }

  ghost predicate FreeOk(a: Arena, trees: Trees, free: seq<nat>) {
    FreeChain(a.nodes, a.freeHead, free) && FreeApart(free, Clob.AtLeastOne(a.nextHandle), Used(trees))
  }

  ghost predicate UsedOk(a: Arena, trees: Trees) {
    UsedBy(trees, Clob.Buy) !! UsedBy(trees, Clob.Sell) && InRange(Used(trees), Clob.AtLeastOne(a.nextHandle))
  }

  ghost predicate ArenaOk(a: Arena, trees: Trees, free: seq<nat>) {
    TreeAt(a, trees, Clob.Buy) && TreeAt(a, trees, Clob.Sell) && UsedOk(a, trees) && FreeOk(a, trees, free)
  }

  // ----- frames -----

  /** Writes away from the free nodes leave their chain alone. */
  lemma {:induction false} FreeChainFrame(nodes: Nodes, after: Nodes, head: nat, free: seq<nat>)
    requires FreeChain(nodes, head, free)
    requires forall i :: 0 <= i < |free| ==> free[i] in nodes ==> free[i] in after && after[free[i]] == nodes[free[i]]
    ensures FreeChain(after, head, free)
    decreases |free|
  {
    if free != [] {
      assert free[0] in after && after[free[0]] == nodes[free[0]];
      forall i | 0 <= i < |free[1..]| && free[1..][i] in nodes
        ensures free[1..][i] in after && after[free[1..][i]] == nodes[free[1..][i]]
      {
        assert free[1..][i] == free[i + 1];
      }
      FreeChainFrame(nodes, after, nodes[head].next, free[1..]);
    }
  }

  /** `after` differs from `nodes` only at the handles in `written`. */
  ghost predicate OnlyAt(nodes: Nodes, after: Nodes, written: set<nat>) {
    forall h :: h !in written ==> (h in nodes <==> h in after) && (h in nodes ==> after[h] == nodes[h])
  }

  lemma {:induction false} HoldsAway(nodes: Nodes, after: Nodes, t: Tree, written: set<nat>)
    requires Holds(nodes, t) && OnlyAt(nodes, after, written) && Handles(t) !! written
    ensures Holds(after, t)
  {
    HoldsDomain(nodes, t);
    forall h | h in Handles(t)
      ensures h in after && h in nodes && after[h] == nodes[h]
    {
      assert h !in written;
    }
    HoldsFrame(nodes, after, t);
  }

  lemma {:induction false} ChainAway(nodes: Nodes, after: Nodes, head: nat, free: seq<nat>, written: set<nat>)
    requires FreeChain(nodes, head, free) && OnlyAt(nodes, after, written)
    requires forall i :: 0 <= i < |free| ==> free[i] !in written
    ensures FreeChain(after, head, free)
  {
    FreeChainFrame(nodes, after, head, free);
  }

  // ----- insertion -----

  /** Everything an insertion changes, put together. */
  lemma {:induction false} InsertedTree(nodes: Nodes, t: Tree, key: nat, cb: nat, leaf: nat, inner: nat, after: Nodes)
    requires Holds(nodes, t) && Separate(t) && WellFormed(t) && leaf !in Handles(t) && inner !in Handles(t)
    requires leaf != inner
    requires var k := Descend(t, key); Shift(key, cb + 1) == Shift(k, cb + 1) && Dir(key, cb) != Dir(k, cb)
    requires NewNodes(nodes, key, cb, leaf, inner, FindLink(t, key, cb, RootLink).1)
    requires after == Follow(nodes, FindLink(t, key, cb, RootLink).0, inner)
    ensures var u := Insert(t, key, cb, leaf, inner);
      && Holds(after, u) && Separate(u) && WellFormed(u) && Keys(u) == Keys(t) + {key}
      && Handles(u) == Handles(t) + {leaf, inner}
      && u.h == (if FindLink(t, key, cb, RootLink).0 == RootLink then inner else t.h)
      && OnlyAt(nodes, after, Handles(t))
  {
    SpliceHolds(nodes, t, key, cb, leaf, inner, RootLink);
    FindLinkInside(t, key, cb, RootLink);
    InsertHandles(t, key, cb, leaf, inner);
    InsertWellFormed(t, key, cb, leaf, inner);
    InsertKeys(t, key, cb, leaf, inner);
  }

  ghost predicate GoodTree(nodes: Nodes, u: Tree) {
    Holds(nodes, u) && Separate(u) && WellFormed(u) && forall x :: x in Keys(u) ==> Fits(x)
  }

  /** A ladder that changed its tree, using nodes that nobody else uses. */
  lemma {:induction false} GrownOk(a: Arena, trees: Trees, free: seq<nat>, s: Side, u: Tree, b: Arena, taken: set<nat>)
    requires ArenaOk(a, trees, free) && GoodTree(b.nodes, u)
    requires OnlyAt(a.nodes, b.nodes, UsedBy(trees, s) + taken) && Handles(u) == UsedBy(trees, s) + taken
    requires taken !! Used(trees) && InRange(taken, Clob.AtLeastOne(a.nextHandle))
    requires forall i :: 0 <= i < |free| ==> free[i] !in taken
    requires b == SetRoot(a, s, u.h).(nodes := b.nodes)
    ensures ArenaOk(b, trees[s := u], free)
  {
    var o := Clob.Opposite(s);
    var next := trees[s := u];
    assert UsedBy(next, s) == Handles(u) && UsedBy(next, o) == UsedBy(trees, o) && Used(next) == Used(trees) + taken;
    if o in trees { HoldsAway(a.nodes, b.nodes, trees[o], UsedBy(trees, s) + taken); }
    ChainAway(a.nodes, b.nodes, a.freeHead, free, UsedBy(trees, s) + taken);
  }

  /** A ladder that gave up some of its nodes to the free list. */
  lemma {:induction false} ShrunkOk(a: Arena, trees: Trees, free: seq<nat>, s: Side, next: Trees, b: Arena,
                                    dropped: seq<nat>)
    requires ArenaOk(a, trees, free) && s in trees
    requires (next == trees - {s} || (s in next && next == trees[s := next[s]]))
    requires s in next ==> GoodTree(b.nodes, next[s]) && next[s].h == Root(b, s)
    requires s !in next ==> Root(b, s) == 0
    requires OnlyAt(a.nodes, b.nodes, UsedBy(trees, s)) && UsedBy(next, s) <= UsedBy(trees, s)
    requires forall i :: 0 <= i < |dropped| ==> dropped[i] in UsedBy(trees, s) && dropped[i] !in UsedBy(next, s)
    requires forall i, j :: 0 <= i < j < |dropped| ==> dropped[i] != dropped[j]
    requires FreeChain(b.nodes, b.freeHead, dropped + free) && b.nextHandle == a.nextHandle
    requires Root(b, Clob.Opposite(s)) == Root(a, Clob.Opposite(s))
    ensures ArenaOk(b, next, dropped + free)
  {
    var o := Clob.Opposite(s);
    assert UsedBy(next, o) == UsedBy(trees, o) && Used(next) == UsedBy(next, s) + UsedBy(trees, o);
    if o in trees { HoldsAway(a.nodes, b.nodes, trees[o], UsedBy(trees, s)); }
    MoreFree(dropped, free, Clob.AtLeastOne(a.nextHandle), Used(trees), Used(next));
  }

  lemma {:induction false} MoreFree(dropped: seq<nat>, free: seq<nat>, limit: nat, used: set<nat>, still: set<nat>)
    requires FreeApart(free, limit, used) && still <= used && InRange(used, limit)
    requires forall i :: 0 <= i < |dropped| ==> dropped[i] in used && dropped[i] !in still
    requires forall i, j :: 0 <= i < j < |dropped| ==> dropped[i] != dropped[j]
    ensures FreeApart(dropped + free, limit, still)
  {
    var all := dropped + free;
    forall i, j | 0 <= i < j < |all|
      ensures all[i] != all[j]
    {
      if i < |dropped| <= j { assert all[i] in used && all[j] !in used; }
    }
  }

  // ----- in place -----

  /** The walk ends at leaf `p`, on side `d` of its parent `q`, which hangs from `link`. */
  predicate ParentAt(t: Tree, key: nat, link: Link, p: nat, q: nat, d: nat) {
    && t.Fork?
    && var (l, parent) := FindParent(t, key, RootLink);
      l == link && parent.Fork? && parent.h == q && Dir(key, parent.crit) == d && Child(parent, d).h == p
  }

  class PriceLadder {
    var arena: Arena
    ghost var trees: Trees
    ghost var free: seq<nat>

    ghost predicate Valid()
      reads this
    {
      ArenaOk(arena, trees, free)
    }

    constructor ()
      ensures Valid() && Prices(trees, Clob.Buy) == {} && Prices(trees, Clob.Sell) == {}
    {
      arena := Arena(map[], 0, 0, 0, 0);
      trees, free := map[], [];
    }

    /** Reuse the first free node, or take a new one. */
    method Alloc() returns (h: nat)
      requires Valid()
      modifies `arena, `free
      ensures Valid() && arena == old(arena).(nextHandle := arena.nextHandle, freeHead := arena.freeHead)
      ensures Clob.AtLeastOne(old(arena).nextHandle) <= Clob.AtLeastOne(arena.nextHandle)
      ensures 0 < h < Clob.AtLeastOne(arena.nextHandle)
      ensures h !in Used(trees) && h !in free
      ensures (h in old(free) && forall x :: x in free ==> x in old(free))
         || (h == Clob.AtLeastOne(old(arena).nextHandle) && free == old(free))
    {
      if arena.freeHead != 0 {
        h := arena.freeHead;
        assert h == free[0];
        assert forall i :: 0 <= i < |free[1..]| ==> free[1..][i] == free[i + 1];
        arena := arena.(freeHead := arena.nodes[h].next);
        free := free[1..];
      } else {
        assert free == [];
        h := Clob.AtLeastOne(arena.nextHandle);
        arena := arena.(nextHandle := h + 1);
      }
    }

    /** The smallest (`child == 0`) or largest key of a ladder. */
    method Extreme(s: Side, child: nat) returns (r: Option<nat>)
      requires Valid() && child < 2
      ensures r.None? <==> Prices(trees, s) == {}
      ensures r.Some? ==> r.value in Prices(trees, s)
      ensures r.Some? ==> forall x :: x in Prices(trees, s) ==> if child == 0 then r.value <= x else x <= r.value
    {
      var p := Root(arena, s);
      if p == 0 {
        assert s !in trees by { ZeroRoot(arena, trees, free, s); }
        return None;
      }
      ghost var t := trees[s];
      ghost var sub := t;
      while arena.nodes[p].InnerNode?
        invariant Holds(arena.nodes, sub) && sub.h == p && CritBits.Extreme(sub, child) == CritBits.Extreme(t, child)
        decreases sub
      {
        sub := Child(sub, child);
        p := if child == 0 then arena.nodes[p].left else arena.nodes[p].right;
      }
      LeftmostIsLeast(t);
      RightmostIsGreatest(t);
      return Some(arena.nodes[p].key);
    }

    /** Follow the bits of `key` down to a leaf. */
    method WalkToLeaf(s: Side, key: nat) returns (k: nat)
      requires Valid() && s in trees
      ensures k == Descend(trees[s], key)
    {
      var p := Root(arena, s);
      ghost var sub := trees[s];
      while arena.nodes[p].InnerNode?
        invariant Holds(arena.nodes, sub) && sub.h == p && Descend(sub, key) == Descend(trees[s], key)
        decreases sub
      {
        sub := Child(sub, Dir(key, sub.crit));
        p := if Dir(key, arena.nodes[p].crit) == 0 then arena.nodes[p].left else arena.nodes[p].right;
      }
      return arena.nodes[p].key;
    }

    /** Follow the bits of `key` while the critical bit is above `cb`. */
    method WalkToSplice(s: Side, key: nat, cb: nat) returns (link: Link, cur: nat)
      requires Valid() && s in trees
      ensures (link, cur) == FindLink(trees[s], key, cb, RootLink)
    {
      link, cur := RootLink, Root(arena, s);
      ghost var sub := trees[s];
      while arena.nodes[cur].InnerNode? && arena.nodes[cur].crit > cb
        invariant Holds(arena.nodes, sub) && sub.h == cur
        invariant FindLink(sub, key, cb, link) == FindLink(trees[s], key, cb, RootLink)
        decreases sub
      {
        var d := Dir(key, arena.nodes[cur].crit);
        sub := Child(sub, d);
        link := ChildLink(cur, d);
        cur := if d == 0 then arena.nodes[cur].left else arena.nodes[cur].right;
      }
    }

    method SetLink(s: Side, link: Link, to: nat)
      modifies `arena
      ensures var root := if link == RootLink then SetRoot(old(arena), s, to) else old(arena);
        arena == root.(nodes := Follow(old(arena).nodes, link, to))
    {
      match link
      case RootLink => arena := SetRoot(arena, s, to);
      case ChildLink(p, d) =>
        if p in arena.nodes && arena.nodes[p].InnerNode? {
          var n := arena.nodes[p];
          arena := arena.(nodes := arena.nodes[p := if d == 0 then n.(left := to) else n.(right := to)]);
        }
    }

    method AddFirst(s: Side, key: nat)
      requires Valid() && s !in trees && Fits(key)
      modifies this
      ensures Valid() && Prices(trees, s) == {key}
      ensures Prices(trees, Clob.Opposite(s)) == old(Prices(trees, Clob.Opposite(s)))
    {
      var leaf := Alloc();
      ghost var a, u := arena, Tip(leaf, key);
      arena := arena.(nodes := arena.nodes[leaf := LeafNode(key)]);
      arena := SetRoot(arena, s, leaf);
      GrownOk(a, trees, free, s, u, arena, {leaf});
      trees := trees[s := u];
    }

    /** Two new nodes: the leaf and the fork above `cur`. */
    method NewFork(key: nat, cb: nat, cur: nat) returns (leaf: nat, inner: nat)
      requires Valid() && cur in Used(trees)
      modifies `arena, `free
      ensures leaf != inner && NewNodes(arena.nodes, key, cb, leaf, inner, cur)
      ensures ArenaOk(arena.(nodes := old(arena).nodes), trees, free) && FreshFor(arena, trees, free, {leaf, inner})
      ensures arena.buyRoot == old(arena).buyRoot && arena.sellRoot == old(arena).sellRoot
      ensures OnlyAt(old(arena).nodes, arena.nodes, {leaf, inner})
    {
      leaf := Alloc();
      WriteUnused(arena, trees, free, leaf, LeafNode(key));
      arena := arena.(nodes := arena.nodes[leaf := LeafNode(key)]);
      inner := Alloc();
      assert leaf != inner;
      ghost var a := arena.(nodes := old(arena).nodes);
      WriteBack(arena, a, trees, free, leaf);
      var fork := if Dir(key, cb) == 0 then InnerNode(cb, leaf, cur) else InnerNode(cb, cur, leaf);
      arena := arena.(nodes := arena.nodes[inner := fork]);
    }

    /** Put a new fork where the bits of `key` leave the tree. */
    method SpliceIn(s: Side, key: nat, k: nat)
      requires Valid() && s in trees && Fits(key) && k == Descend(trees[s], key) != key && Fits(k)
      modifies this
      ensures Valid() && s in trees && trees == old(trees)[s := trees[s]]
      ensures Keys(trees[s]) == Keys(old(trees)[s]) + {key}
    {
      ghost var t, nodes := trees[s], arena.nodes;
      var cb := TopDiff(key, k, 64);
      var link, cur := WalkToSplice(s, key, cb);
      FindLinkInside(t, key, cb, RootLink);
      var leaf, inner := NewFork(key, cb, cur);
      ghost var mid := arena;
      SetLink(s, link, inner);
      SplicedOk(mid, trees, free, s, key, cb, leaf, inner, nodes, arena);
      trees := trees[s := CritBits.Insert(t, key, cb, leaf, inner)];
    }

    /** Nothing happens when the price is there already. */
    method Insert(s: Side, key: nat)
      requires Valid() && key <= U64_MAX
      modifies this
      ensures Valid() && Prices(trees, s) == old(Prices(trees, s)) + {key}
      ensures Prices(trees, Clob.Opposite(s)) == old(Prices(trees, Clob.Opposite(s)))
    {
      U64Fits(key);
      if Root(arena, s) == 0 {
        ZeroRoot(arena, trees, free, s);
        AddFirst(s, key);
        return;
      }
      var k := WalkToLeaf(s, key);
      DescendReaches(trees[s], key);
      if k != key {
        SpliceIn(s, key, k);
      }
    }

    /** Give a node back. */
    method Free(h: nat)
      modifies `arena
      ensures arena == old(arena).(nodes := old(arena).nodes[h := FreeNode(old(arena).freeHead)], freeHead := h)
    {
      arena := arena.(nodes := arena.nodes[h := FreeNode(arena.freeHead)]);
      arena := arena.(freeHead := h);
    }

    /** The last price leaves an empty ladder. */
    method RemoveOnly(s: Side, p: nat)
      requires Valid() && s in trees && trees[s].Tip? && p == trees[s].h
      modifies this
      ensures Valid() && trees == old(trees) - {s}
    {
      ghost var a := arena;
      Free(p);
      arena := SetRoot(arena, s, 0);
      NewHead(a.nodes, arena.nodes, a.freeHead, free, p);
      ShrunkOk(a, trees, free, s, trees - {s}, arena, [p]);
      trees, free := trees - {s}, [p] + free;
    }

    /** Cut out leaf `p` and its parent `q`; the sibling takes the parent's place. */
    method CutOut(s: Side, key: nat, link: Link, p: nat, q: nat, d: nat)
      requires Valid() && s in trees && trees[s].Fork? && key in Keys(trees[s])
      requires ParentAt(trees[s], key, link, p, q, d)
      modifies this
      ensures Valid() && s in trees && trees == old(trees)[s := trees[s]]
      ensures Keys(trees[s]) == Keys(old(trees)[s]) - {key}
    {
      ghost var a, t := arena, trees[s];
      RemoveHandles(t, key, RootLink);
      ParentHolds(arena.nodes, t, key, RootLink);
      RemoveOk(t, key);
      Free(p);
      var other := if d == 0 then arena.nodes[q].right else arena.nodes[q].left;
      SetLink(s, link, other);
      Free(q);
      CutOk(a, trees, free, s, key, p, q, other, arena);
      trees, free := trees[s := CritBits.Remove(t, key)], [q, p] + free;
    }

    /** Walk down keeping the last two links; nothing happens when the price is not there. */
    method WalkToParent(s: Side, key: nat) returns (linkQ: Option<Link>, p: nat, q: nat, qdir: nat)
      requires Valid() && s in trees
      ensures p in arena.nodes && arena.nodes[p] == LeafNode(Descend(trees[s], key))
      ensures linkQ.None? ==> trees[s].Tip? && p == trees[s].h
      ensures linkQ.Some? ==> ParentAt(trees[s], key, linkQ.value, p, q, qdir)
    {
      var linkP := RootLink;
      p := Root(arena, s);
      linkQ, q, qdir := None, 0, 0;
      ghost var t := trees[s];
      ghost var sub, parent := t, t;
      while arena.nodes[p].InnerNode?
        invariant Holds(arena.nodes, sub) && sub.h == p && Descend(sub, key) == Descend(t, key)
        invariant linkQ.None? ==> sub == t && linkP == RootLink
        invariant linkQ.Some? ==> t.Fork? && parent.Fork? && parent.h == q && qdir == Dir(key, parent.crit)
        invariant linkQ.Some? ==> Child(parent, qdir) == sub && linkP == ChildLink(q, qdir)
        invariant linkQ.Some? ==> FindParent(parent, key, linkQ.value) == FindParent(t, key, RootLink)
        decreases sub
      {
        var d := Dir(key, arena.nodes[p].crit);
        parent := sub;
        sub := Child(sub, d);
        linkQ, q, qdir := Some(linkP), p, d;
        linkP := ChildLink(p, d);
        p := if d == 0 then arena.nodes[p].left else arena.nodes[p].right;
      }
    }

    method Remove(s: Side, key: nat)
      requires Valid()
      modifies this
      ensures Valid() && Prices(trees, s) == old(Prices(trees, s)) - {key}
      ensures Prices(trees, Clob.Opposite(s)) == old(Prices(trees, Clob.Opposite(s)))
    {
      if Root(arena, s) == 0 {
        ZeroRoot(arena, trees, free, s);
        return;
      }
      DescendFinds(trees[s], key);
      var linkQ, p, q, qdir := WalkToParent(s, key);
      if arena.nodes[p].key != key { return; }
      match linkQ
      case None => RemoveOnly(s, p);
      case Some(link) => CutOut(s, key, link, p, q, qdir);
    }
  }

  lemma {:induction false} SplicedOk(mid: Arena, trees: Trees, free: seq<nat>, s: Side, key: nat, cb: nat, leaf: nat,
                                     inner: nat, nodes: Nodes, after: Arena)
    requires ArenaOk(mid.(nodes := nodes), trees, free) && s in trees && Fits(key)
    requires leaf != inner && FreshFor(mid, trees, free, {leaf, inner}) && OnlyAt(nodes, mid.nodes, {leaf, inner})
    requires var k := Descend(trees[s], key); Shift(key, cb + 1) == Shift(k, cb + 1) && Dir(key, cb) != Dir(k, cb)
    requires NewNodes(mid.nodes, key, cb, leaf, inner, FindLink(trees[s], key, cb, RootLink).1)
    requires var link := FindLink(trees[s], key, cb, RootLink).0;
      after == (if link == RootLink then SetRoot(mid, s, inner) else mid).(nodes := Follow(mid.nodes, link, inner))
    ensures ArenaOk(after, trees[s := CritBits.Insert(trees[s], key, cb, leaf, inner)], free)
    ensures Keys(CritBits.Insert(trees[s], key, cb, leaf, inner)) == Keys(trees[s]) + {key}
  {
    var t, a := trees[s], mid.(nodes := nodes);
    HoldsAway(nodes, mid.nodes, t, {leaf, inner});
    InsertedTree(mid.nodes, t, key, cb, leaf, inner, after.nodes);
    OnlyAtBoth(nodes, mid.nodes, after.nodes, {leaf, inner}, Handles(t));
    var u := CritBits.Insert(t, key, cb, leaf, inner);
    assert after == SetRoot(a, s, u.h).(nodes := after.nodes);
    GrownOk(a, trees, free, s, u, after, {leaf, inner});
  }

  lemma {:induction false} NewHead(nodes: Nodes, after: Nodes, head: nat, free: seq<nat>, h: nat)
    requires FreeChain(nodes, head, free) && h > 0 && h !in free && after == nodes[h := FreeNode(head)]
    ensures FreeChain(after, h, [h] + free)
  {
    FreeChainFrame(nodes, after, head, free);
    assert ([h] + free)[1..] == free;
  }

  lemma {:induction false} CutOk(a: Arena, trees: Trees, free: seq<nat>, s: Side, key: nat, p: nat, q: nat, other: nat,
                                 after: Arena)
    requires ArenaOk(a, trees, free) && s in trees && trees[s].Fork? && key in Keys(trees[s])
    requires var (l, parent) := FindParent(trees[s], key, RootLink);
      && parent.Fork? && parent.h == q && Child(parent, Dir(key, parent.crit)).h == p
      && other == Child(parent, 1 - Dir(key, parent.crit)).h
      && after.nodes == Follow(a.nodes[p := FreeNode(a.freeHead)], l, other)[q := FreeNode(p)]
      && after == (if l == RootLink then SetRoot(a, s, other) else a).(nodes := after.nodes, freeHead := q)
    ensures ArenaOk(after, trees[s := CritBits.Remove(trees[s], key)], [q, p] + free)
  {
    var t := trees[s];
    var (l, parent) := FindParent(t, key, RootLink);
    var u := CritBits.Remove(t, key);
    RemoveHandles(t, key, RootLink);
    RemoveOk(t, key);
    FindParentInside(t, key, RootLink);
    CutHolds(a.nodes, t, key, RootLink);
    CutNodes(a, trees, free, s, key, p, q, other, after.nodes);
    ShrunkOk(a, trees, free, s, trees[s := u], after, [q, p]);
  }

  lemma {:induction false} CutNodes(a: Arena, trees: Trees, free: seq<nat>, s: Side, key: nat, p: nat, q: nat,
                                    other: nat, after: Nodes)
    requires ArenaOk(a, trees, free) && s in trees && trees[s].Fork?
    requires var (l, parent) := FindParent(trees[s], key, RootLink);
      && parent.Fork? && parent.h == q && Child(parent, Dir(key, parent.crit)).h == p
      && other == Child(parent, 1 - Dir(key, parent.crit)).h
      && after == Follow(a.nodes[p := FreeNode(a.freeHead)], l, other)[q := FreeNode(p)]
    ensures Holds(after, CritBits.Remove(trees[s], key)) && OnlyAt(a.nodes, after, Handles(trees[s]))
    ensures FreeChain(after, q, [q, p] + free)
  {
    var t := trees[s];
    var (l, parent) := FindParent(t, key, RootLink);
    RemoveHandles(t, key, RootLink);
    FindParentInside(t, key, RootLink);
    ParentHolds(a.nodes, t, key, RootLink);
    CutHolds(a.nodes, t, key, RootLink);
    assert a.nodes[p].LeafNode?;
    var linked := Follow(a.nodes, l, other);
    CutWrites(a.nodes, l, other, p, q, a.freeHead);
    assert OnlyAt(a.nodes, linked, Handles(t));
    HoldsAway(linked, after, CritBits.Remove(t, key), {p, q});
    OnlyAtBoth(a.nodes, linked, after, Handles(t), {p, q});
    assert {p, q} + Handles(t) == Handles(t);
    ChainAway(a.nodes, after, a.freeHead, free, Handles(t));
    TwoHeads(after, a.freeHead, free, p, q);
  }

  /** The two freed nodes are the only ones that a cut writes beside the link. */
  lemma {:induction false} CutWrites(nodes: Nodes, l: Link, other: nat, p: nat, q: nat, head: nat)
    requires p in nodes && nodes[p].LeafNode? && p != q
    requires (l.ChildLink? ==> l.parent in nodes && nodes[l.parent].InnerNode?)
    ensures var after := Follow(nodes[p := FreeNode(head)], l, other)[q := FreeNode(p)];
      OnlyAt(Follow(nodes, l, other), after, {p, q}) && after[p] == FreeNode(head) && after[q] == FreeNode(p)
  {
  }

  lemma {:induction false} TwoHeads(nodes: Nodes, head: nat, free: seq<nat>, p: nat, q: nat)
    requires FreeChain(nodes, head, free) && p in nodes && q in nodes && nodes[p] == FreeNode(head)
    requires nodes[q] == FreeNode(p)
    ensures FreeChain(nodes, q, [q, p] + free)
  {
    assert ([q, p] + free)[1..] == [p] + free && ([p] + free)[1..] == free;
    assert FreeChain(nodes, p, [p] + free);
  }

  lemma {:induction false} OnlyAtBoth(x: Nodes, y: Nodes, z: Nodes, p: set<nat>, q: set<nat>)
    requires OnlyAt(x, y, p) && OnlyAt(y, z, q)
    ensures OnlyAt(x, z, q + p)
  {
  }

  /** A node in nobody's use may hold anything. */
  lemma {:induction false} WriteUnused(a: Arena, trees: Trees, free: seq<nat>, h: nat, n: Node)
    requires ArenaOk(a, trees, free) && h !in Used(trees) && h !in free
    ensures ArenaOk(a.(nodes := a.nodes[h := n]), trees, free)
  {
    SameElsewhere(a, trees, free, a.nodes[h := n], {h});
  }

  lemma {:induction false} WriteBack(a: Arena, b: Arena, trees: Trees, free: seq<nat>, h: nat)
    requires ArenaOk(a, trees, free) && h !in Used(trees) && h !in free && b == a.(nodes := b.nodes)
    requires OnlyAt(a.nodes, b.nodes, {h})
    ensures ArenaOk(b, trees, free)
  {
    SameElsewhere(a, trees, free, b.nodes, {h});
  }

  lemma {:induction false} SameElsewhere(a: Arena, trees: Trees, free: seq<nat>, after: Nodes, written: set<nat>)
    requires ArenaOk(a, trees, free) && OnlyAt(a.nodes, after, written) && written !! Used(trees)
    requires forall i :: 0 <= i < |free| ==> free[i] !in written
    ensures ArenaOk(a.(nodes := after), trees, free)
  {
    if Clob.Buy in trees { HoldsAway(a.nodes, after, trees[Clob.Buy], written); }
    if Clob.Sell in trees { HoldsAway(a.nodes, after, trees[Clob.Sell], written); }
    ChainAway(a.nodes, after, a.freeHead, free, written);
  }

  ghost predicate FreshFor(a: Arena, trees: Trees, free: seq<nat>, taken: set<nat>) {
    taken !! Used(trees) && InRange(taken, Clob.AtLeastOne(a.nextHandle))
    && forall i :: 0 <= i < |free| ==> free[i] !in taken
  }

  lemma {:induction false} ZeroRoot(a: Arena, trees: Trees, free: seq<nat>, s: Side)
    requires ArenaOk(a, trees, free) && Root(a, s) == 0
    ensures s !in trees
  {
    if s in trees { RootHandle(trees[s]); }
  }
}
