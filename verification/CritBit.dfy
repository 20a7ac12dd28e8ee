/** Crit-bit trees of 64-bit prices: the shape of the price ladder. */
module CritBits {
  import opened Basics

  // ----- bits -----

  /** `x` shifted right by `c` bits. */
  function Shift(x: nat, c: nat): nat {
    if c == 0 then x else Shift(x, c - 1) / 2
  }

  function Dir(key: nat, crit: nat): nat {
    Shift(key, crit) % 2
  }

  lemma {:induction false} ShiftAgree(x: nat, y: nat, c: nat, d: nat)
    requires c <= d && Shift(x, c) == Shift(y, c)
    ensures Shift(x, d) == Shift(y, d)
    decreases d
  {
    if c < d { ShiftAgree(x, y, c, d - 1); }
  }

  lemma {:induction false} ShiftMonotone(x: nat, y: nat, c: nat)
    requires x <= y
    ensures Shift(x, c) <= Shift(y, c)
  {
    if c > 0 { ShiftMonotone(x, y, c - 1); }
  }

  /** Two keys that agree above a bit are ordered by that bit. */
  lemma {:induction false} BitOrders(x: nat, y: nat, c: nat)
    requires Shift(x, c + 1) == Shift(y, c + 1) && Dir(x, c) == 0 && Dir(y, c) == 1
    ensures x < y
  {
    if y <= x { ShiftMonotone(y, x, c); }
  }

  ghost predicate Fits(x: nat) {
    Shift(x, 64) == 0
  }

  lemma {:induction false} U64Fits(x: nat)
    requires x <= U64_MAX
    ensures Fits(x)
  {
    assert Pow2(32) == 0x1_0000_0000 by {
      Pow2Byte(0);
      Pow2Byte(8);
      Pow2Byte(16);
      Pow2Byte(24);
    }
    assert Pow2(64) == 0x1_0000_0000 * Pow2(32) by {
      Pow2Byte(32);
      Pow2Byte(40);
      Pow2Byte(48);
      Pow2Byte(56);
    }
    ShiftBelow(x, 64, 0);
  }

  lemma {:induction false} Pow2Byte(n: nat)
    ensures Pow2(n + 8) == 256 * Pow2(n)
  {
    assert Pow2(n + 2) == 4 * Pow2(n);
    assert Pow2(n + 4) == 4 * Pow2(n + 2);
    assert Pow2(n + 6) == 4 * Pow2(n + 4);
  }

  function Pow2(n: nat): nat {
    if n == 0 then 1 else 2 * Pow2(n - 1)
  }

  lemma {:induction false} ShiftBelow(x: nat, c: nat, k: nat)
    requires x < Pow2(c + k)
    ensures Shift(x, c) < Pow2(k)
  {
    if c > 0 { ShiftBelow(x, c - 1, k + 1); }
  }

  /** The highest bit in which two different keys differ, looking down from bit `c`. */
  function TopDiff(x: nat, y: nat, c: nat): (b: nat)
    requires x != y && Shift(x, c) == Shift(y, c)
    ensures b < c && Shift(x, b + 1) == Shift(y, b + 1) && Dir(x, b) != Dir(y, b)
    decreases c
  {
    if Shift(x, c - 1) != Shift(y, c - 1) then c - 1 else TopDiff(x, y, c - 1)
  }

  // ----- trees -----

  /** `h` is the handle of the node that holds this part of the tree. */
  datatype Tree = Tip(h: nat, key: nat) | Fork(h: nat, crit: nat, left: Tree, right: Tree)

  function Keys(t: Tree): set<nat> {
    match t case Tip(_, k) => {k} case Fork(_, _, l, r) => Keys(l) + Keys(r)
  }

  ghost predicate AllDir(s: set<nat>, crit: nat, d: nat) {
    forall x :: x in s ==> Dir(x, crit) == d
  }

  ghost predicate AgreeAbove(s: set<nat>, c: nat) {
    forall x, y :: x in s && y in s ==> Shift(x, c) == Shift(y, c)
  }

  /** Left keys have the critical bit clear, right keys set, and all agree above it. */
  ghost predicate WellFormed(t: Tree) {
    t.Fork? ==>
      && WellFormed(t.left) && WellFormed(t.right) && AgreeAbove(Keys(t), t.crit + 1)
      && AllDir(Keys(t.left), t.crit, 0) && AllDir(Keys(t.right), t.crit, 1)
  }

  function Extreme(t: Tree, child: nat): nat {
    match t case Tip(_, k) => k case Fork(_, _, l, r) => Extreme(if child == 0 then l else r, child)
  }

  /** The leftmost key is the smallest. */
  lemma {:induction false} LeftmostIsLeast(t: Tree)
    requires WellFormed(t)
    ensures Extreme(t, 0) in Keys(t) && forall x :: x in Keys(t) ==> Extreme(t, 0) <= x
  {
    if t.Fork? {
      LeftmostIsLeast(t.left);
      var m := Extreme(t.left, 0);
      forall x | x in Keys(t.right)
        ensures m <= x
      {
        BitOrders(m, x, t.crit);
      }
    }
  }

  /** The rightmost key is the largest. */
  lemma {:induction false} RightmostIsGreatest(t: Tree)
    requires WellFormed(t)
    ensures Extreme(t, 1) in Keys(t) && forall x :: x in Keys(t) ==> x <= Extreme(t, 1)
  {
    if t.Fork? {
      RightmostIsGreatest(t.right);
      var m := Extreme(t.right, 1);
      forall x | x in Keys(t.left)
        ensures x <= m
      {
        BitOrders(x, m, t.crit);
      }
    }
  }

  function Child(t: Tree, d: nat): Tree
    requires t.Fork?
  {
    if d == 0 then t.left else t.right
  }

  /** The key at the end of the walk that follows the bits of `key`. */
  function Descend(t: Tree, key: nat): nat {
    match t case Tip(_, k) => k case Fork(_, c, l, r) => Descend(if Dir(key, c) == 0 then l else r, key)
  }

  lemma {:induction false} DescendReaches(t: Tree, key: nat)
    ensures Descend(t, key) in Keys(t)
  {
    if t.Fork? { DescendReaches(Child(t, Dir(key, t.crit)), key); }
  }

  /** The walk finds a key that is there. */
  lemma {:induction false} DescendFinds(t: Tree, key: nat)
    requires WellFormed(t)
    ensures Descend(t, key) == key <==> key in Keys(t)
  {
    DescendReaches(t, key);
    if t.Fork? && key in Keys(t) {
      DescendFinds(Child(t, Dir(key, t.crit)), key);
    }
  }

  // ----- insertion -----

  function WithChild(t: Tree, d: nat, c: Tree): Tree
    requires t.Fork?
  {
    if d == 0 then t.(left := c) else t.(right := c)
  }

  lemma {:induction false} WithChildWellFormed(t: Tree, d: nat, c: Tree)
    requires t.Fork? && d < 2 && WellFormed(t) && WellFormed(c) && AllDir(Keys(c), t.crit, d)
    requires AgreeAbove(Keys(c) + Keys(Child(t, 1 - d)), t.crit + 1)
    ensures WellFormed(WithChild(t, d, c)) && Keys(WithChild(t, d, c)) == Keys(c) + Keys(Child(t, 1 - d))
  {
  }

  predicate GoesOn(t: Tree, cb: nat) {
    t.Fork? && t.crit > cb
  }

  /** A new fork at bit `cb` above the first subtree whose critical bit is not above it. */
  function Insert(t: Tree, key: nat, cb: nat, leaf: nat, inner: nat): Tree {
    if GoesOn(t, cb) then
      WithChild(t, Dir(key, t.crit), Insert(Child(t, Dir(key, t.crit)), key, cb, leaf, inner))
    else if Dir(key, cb) == 0 then Fork(inner, cb, Tip(leaf, key), t)
    else Fork(inner, cb, t, Tip(leaf, key))
  }

  lemma {:induction false} InsertKeys(t: Tree, key: nat, cb: nat, leaf: nat, inner: nat)
    ensures Keys(Insert(t, key, cb, leaf, inner)) == Keys(t) + {key}
  {
    if GoesOn(t, cb) { InsertKeys(Child(t, Dir(key, t.crit)), key, cb, leaf, inner); }
  }

  /** Below the bit where the key leaves the tree, all keys differ from it there and agree with it above. */
  lemma {:induction false} SpliceBit(t: Tree, key: nat, cb: nat, x: nat)
    requires WellFormed(t) && !GoesOn(t, cb) && x in Keys(t)
    requires var k := Descend(t, key); Shift(key, cb + 1) == Shift(k, cb + 1) && Dir(key, cb) != Dir(k, cb)
    ensures Shift(x, cb + 1) == Shift(key, cb + 1) && Dir(x, cb) == Dir(Descend(t, key), cb)
  {
    DescendReaches(t, key);
    if t.Fork? {
      var k := Descend(t, key);
      DescendReaches(Child(t, Dir(key, t.crit)), key);
      assert t.crit < cb;
      ShiftAgree(x, k, t.crit + 1, cb);
    }
  }

  lemma {:induction false} AgreeWith(s: set<nat>, c: nat, key: nat, k: nat)
    requires AgreeAbove(s, c) && k in s && Shift(key, c) == Shift(k, c)
    ensures AgreeAbove(s + {key}, c)
  {
  }

  lemma {:induction false} InsertWellFormed(t: Tree, key: nat, cb: nat, leaf: nat, inner: nat)
    requires WellFormed(t)
    requires var k := Descend(t, key); Shift(key, cb + 1) == Shift(k, cb + 1) && Dir(key, cb) != Dir(k, cb)
    ensures WellFormed(Insert(t, key, cb, leaf, inner))
  {
    var k := Descend(t, key);
    DescendReaches(t, key);
    InsertKeys(t, key, cb, leaf, inner);
    if GoesOn(t, cb) {
      var d := Dir(key, t.crit);
      InsertWellFormed(Child(t, d), key, cb, leaf, inner);
      InsertKeys(Child(t, d), key, cb, leaf, inner);
      ShiftAgree(key, k, cb + 1, t.crit + 1);
      AgreeWith(Keys(t), t.crit + 1, key, k);
      WithChildWellFormed(t, d, Insert(Child(t, d), key, cb, leaf, inner));
    } else {
      forall x | x in Keys(t)
        ensures Shift(x, cb + 1) == Shift(key, cb + 1) && Dir(x, cb) == Dir(k, cb)
      {
        SpliceBit(t, key, cb, x);
      }
    }
  }

  // ----- removal -----

  /** The tree without the leaf its walk ends at; the sibling takes the parent's place. */
  function Remove(t: Tree, key: nat): Tree
    requires t.Fork?
  {
    var d := Dir(key, t.crit);
    if Child(t, d).Tip? then Child(t, 1 - d) else WithChild(t, d, Remove(Child(t, d), key))
  }

  lemma {:induction false} RemoveOk(t: Tree, key: nat)
    requires t.Fork? && WellFormed(t) && key in Keys(t)
    ensures WellFormed(Remove(t, key)) && Keys(Remove(t, key)) == Keys(t) - {key}
  {
    var d := Dir(key, t.crit);
    assert key in Keys(Child(t, d)) && key !in Keys(Child(t, 1 - d));
    if Child(t, d).Fork? {
      RemoveOk(Child(t, d), key);
      WithChildWellFormed(t, d, Remove(Child(t, d), key));
    }
  }
}
