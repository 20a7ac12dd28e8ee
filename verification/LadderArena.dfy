/** A crit-bit tree laid out in numbered nodes. */
module LadderArenas {
  import opened CritBits

  /** A node of the arena; a freed one remembers the next free one. */
  datatype Node = InnerNode(crit: nat, left: nat, right: nat) | LeafNode(key: nat) | FreeNode(next: nat)
  type Nodes = map<nat, Node>

  /** What points at a node: the root of the tree or a child of another node. */
  datatype Link = RootLink | ChildLink(parent: nat, side: nat)

  ghost predicate Holds(nodes: Nodes, t: Tree) {
    && t.h in nodes
    && match t
       case Tip(h, k) => nodes[h] == LeafNode(k)
       case Fork(h, c, l, r) => nodes[h] == InnerNode(c, l.h, r.h) && Holds(nodes, l) && Holds(nodes, r)
  }

  function Handles(t: Tree): set<nat> {
    match t case Tip(h, _) => {h} case Fork(h, _, l, r) => {h} + Handles(l) + Handles(r)
  }

  /** No node is used twice. */
  ghost predicate Separate(t: Tree) {
    t.Fork? ==>
      && t.h !in Handles(t.left) && t.h !in Handles(t.right) && Handles(t.left) !! Handles(t.right)
      && Separate(t.left) && Separate(t.right)
  }

  lemma {:induction false} RootHandle(t: Tree)
    ensures t.h in Handles(t)
  {
  }

  /** Writes elsewhere leave a tree alone. */
  lemma {:induction false} HoldsFrame(nodes: Nodes, after: Nodes, t: Tree)
    requires Holds(nodes, t) && forall h :: h in Handles(t) ==> h in after && h in nodes && after[h] == nodes[h]
    ensures Holds(after, t)
  {
    if t.Fork? {
      HoldsFrame(nodes, after, t.left);
      HoldsFrame(nodes, after, t.right);
    }
  }

  lemma {:induction false} HoldsDomain(nodes: Nodes, t: Tree)
    requires Holds(nodes, t)
    ensures forall h :: h in Handles(t) ==> h in nodes
  {
    if t.Fork? {
      HoldsDomain(nodes, t.left);
      HoldsDomain(nodes, t.right);
    }
  }

  lemma {:induction false} HoldsWrite(nodes: Nodes, t: Tree, h: nat, n: Node)
    requires Holds(nodes, t) && h !in Handles(t)
    ensures Holds(nodes[h := n], t)
  {
    HoldsDomain(nodes, t);
    HoldsFrame(nodes, nodes[h := n], t);
  }

  /** Point one child of an inner node somewhere else. */
  function Relinked(nodes: Nodes, parent: nat, d: nat, to: nat): Nodes {
    if parent in nodes && nodes[parent].InnerNode? then
      nodes[parent := if d == 0 then nodes[parent].(left := to) else nodes[parent].(right := to)]
    else nodes
  }

  lemma {:induction false} HoldsRelinked(nodes: Nodes, t: Tree, parent: nat, d: nat, to: nat)
    requires Holds(nodes, t) && parent !in Handles(t)
    ensures Holds(Relinked(nodes, parent, d, to), t)
  {
    if parent in nodes && nodes[parent].InnerNode? {
      HoldsWrite(nodes, t, parent, Relinked(nodes, parent, d, to)[parent]);
    }
  }

  /** Replacing a child by a tree that is already laid out, and pointing at it. */
  lemma {:induction false} WithChildHolds(nodes: Nodes, t: Tree, d: nat, c: Tree)
    requires t.Fork? && d < 2 && Separate(t) && Holds(nodes, t) && Holds(nodes, c) && t.h !in Handles(c)
    ensures Holds(Relinked(nodes, t.h, d, c.h), WithChild(t, d, c))
  {
    HoldsRelinked(nodes, c, t.h, d, c.h);
    HoldsRelinked(nodes, Child(t, 1 - d), t.h, d, c.h);
  }

  /** A change below the root that keeps the child's own node in its place. */
  lemma {:induction false} WithChildSame(nodes: Nodes, after: Nodes, t: Tree, d: nat, c: Tree)
    requires t.Fork? && d < 2 && Holds(nodes, t) && Holds(after, c) && Holds(after, Child(t, 1 - d))
    requires c.h == Child(t, d).h
    requires t.h in after && after[t.h] == nodes[t.h]
    ensures Holds(after, WithChild(t, d, c))
  {
  }

  // ----- where to splice -----

  /** The link and the node where the new fork goes. */
  function FindLink(t: Tree, key: nat, cb: nat, link: Link): (Link, nat) {
    if GoesOn(t, cb) then FindLink(Child(t, Dir(key, t.crit)), key, cb, ChildLink(t.h, Dir(key, t.crit)))
    else (link, t.h)
  }

  function Follow(nodes: Nodes, link: Link, to: nat): Nodes {
    match link case RootLink => nodes case ChildLink(p, d) => Relinked(nodes, p, d, to)
  }

  lemma {:induction false} InsertHandles(t: Tree, key: nat, cb: nat, leaf: nat, inner: nat)
    requires Separate(t) && leaf !in Handles(t) && inner !in Handles(t) && leaf != inner
    ensures Handles(Insert(t, key, cb, leaf, inner)) == Handles(t) + {leaf, inner}
    ensures Separate(Insert(t, key, cb, leaf, inner))
    ensures Insert(t, key, cb, leaf, inner).h == if GoesOn(t, cb) then t.h else inner
  {
    if GoesOn(t, cb) { InsertHandles(Child(t, Dir(key, t.crit)), key, cb, leaf, inner); }
  }

  lemma {:induction false} FindLinkInside(t: Tree, key: nat, cb: nat, link: Link)
    ensures FindLink(t, key, cb, link).1 in Handles(t)
    ensures
      if GoesOn(t, cb) then
        FindLink(t, key, cb, link).0.ChildLink? && FindLink(t, key, cb, link).0.parent in Handles(t)
      else FindLink(t, key, cb, link).0 == link
  {
    if GoesOn(t, cb) { FindLinkInside(Child(t, Dir(key, t.crit)), key, cb, ChildLink(t.h, Dir(key, t.crit))); }
  }

  /** The nodes of the new leaf and the new fork above `below`. */
  ghost predicate NewNodes(nodes: Nodes, key: nat, cb: nat, leaf: nat, inner: nat, below: nat) {
    && leaf in nodes && inner in nodes && nodes[leaf] == LeafNode(key)
    && nodes[inner] == if Dir(key, cb) == 0 then InnerNode(cb, leaf, below) else InnerNode(cb, below, leaf)
  }

  /** Two new nodes and one changed link lay out the tree after the insertion. */
  lemma {:induction false} SpliceHolds(nodes: Nodes, t: Tree, key: nat, cb: nat, leaf: nat, inner: nat, link: Link)
    requires Holds(nodes, t) && Separate(t) && leaf !in Handles(t) && inner !in Handles(t) && leaf != inner
    requires NewNodes(nodes, key, cb, leaf, inner, FindLink(t, key, cb, link).1)
    ensures var l := FindLink(t, key, cb, link).0;
      Holds(if GoesOn(t, cb) then Follow(nodes, l, inner) else nodes, Insert(t, key, cb, leaf, inner))
  {
    if GoesOn(t, cb) {
      var d := Dir(key, t.crit);
      var c := Child(t, d);
      var below := Insert(c, key, cb, leaf, inner);
      SpliceHolds(nodes, c, key, cb, leaf, inner, ChildLink(t.h, d));
      InsertHandles(c, key, cb, leaf, inner);
      FindLinkInside(c, key, cb, ChildLink(t.h, d));
      RootHandle(t);
      if GoesOn(c, cb) {
        var p := FindLink(t, key, cb, link).0;
        HoldsRelinked(nodes, Child(t, 1 - d), p.parent, p.side, inner);
        WithChildSame(nodes, Follow(nodes, p, inner), t, d, below);
      } else {
        WithChildHolds(nodes, t, d, below);
      }
    }
  }

  // ----- where to cut -----

  /** The link to the parent of the leaf, the parent, and the side the leaf is on. */
  function FindParent(t: Tree, key: nat, link: Link): (Link, Tree)
    requires t.Fork?
  {
    var d := Dir(key, t.crit);
    if Child(t, d).Tip? then (link, t) else FindParent(Child(t, d), key, ChildLink(t.h, d))
  }

  lemma {:induction false} FindParentInside(t: Tree, key: nat, link: Link)
    requires t.Fork?
    ensures var (l, q) := FindParent(t, key, link);
      && q.Fork? && Handles(q) <= Handles(t) && q.h in Handles(t) && Child(q, Dir(key, q.crit)).Tip?
      && if Child(t, Dir(key, t.crit)).Tip? then l == link && q == t else l.ChildLink? && l.parent in Handles(t)
  {
    if Child(t, Dir(key, t.crit)).Fork? {
      FindParentInside(Child(t, Dir(key, t.crit)), key, ChildLink(t.h, Dir(key, t.crit)));
    }
  }

  /** The leaf the walk ends at and its parent drop out; nothing else does. */
  lemma {:induction false} RemoveHandles(t: Tree, key: nat, link: Link)
    requires t.Fork? && Separate(t)
    ensures var q := FindParent(t, key, link).1;
      && q.Fork? && Child(q, Dir(key, q.crit)).Tip?
      && Handles(Remove(t, key)) == Handles(t) - {q.h, Child(q, Dir(key, q.crit)).h}
      && q.h != Child(q, Dir(key, q.crit)).h && q.h in Handles(t) && Child(q, Dir(key, q.crit)).h in Handles(t)
      && Separate(Remove(t, key))
      && Remove(t, key).h == if Child(t, Dir(key, t.crit)).Tip? then Child(t, 1 - Dir(key, t.crit)).h else t.h
  {
    var d := Dir(key, t.crit);
    if Child(t, d).Fork? { RemoveHandles(Child(t, d), key, ChildLink(t.h, d)); }
  }

  /** One changed link lays out the tree after the removal. */
  lemma {:induction false} CutHolds(nodes: Nodes, t: Tree, key: nat, link: Link)
    requires t.Fork? && Holds(nodes, t) && Separate(t)
    ensures var (l, q) := FindParent(t, key, link);
      && q.Fork?
      && Holds(if Child(t, Dir(key, t.crit)).Tip? then nodes else Follow(nodes, l, Child(q, 1 - Dir(key, q.crit)).h),
               Remove(t, key))
  {
    var d := Dir(key, t.crit);
    var c := Child(t, d);
    if c.Fork? {
      var (l, q) := FindParent(t, key, link);
      CutHolds(nodes, c, key, ChildLink(t.h, d));
      RemoveHandles(c, key, ChildLink(t.h, d));
      FindParentInside(c, key, ChildLink(t.h, d));
      RootHandle(t);
      if Child(c, Dir(key, c.crit)).Fork? {
        var to := Child(q, 1 - Dir(key, q.crit)).h;
        HoldsRelinked(nodes, Child(t, 1 - d), l.parent, l.side, to);
        WithChildSame(nodes, Follow(nodes, l, to), t, d, Remove(c, key));
      } else {
        WithChildHolds(nodes, t, d, Remove(c, key));
      }
    }
  }

  /** What the walk to the parent sees is laid out. */
  lemma {:induction false} ParentHolds(nodes: Nodes, t: Tree, key: nat, link: Link)
    requires t.Fork? && Holds(nodes, t) && (link.ChildLink? ==> link.parent in nodes && nodes[link.parent].InnerNode?)
    ensures var (l, q) := FindParent(t, key, link);
      Holds(nodes, q) && (l.ChildLink? ==> l.parent in nodes && nodes[l.parent].InnerNode?)
  {
    var d := Dir(key, t.crit);
    if Child(t, d).Fork? { ParentHolds(nodes, Child(t, d), key, ChildLink(t.h, d)); }
  }
}
